/** Project selectors in a command tail: rewriting them to one canonical selector, or stripping them. */
module ProjectTail {
  import opened Prelude

  predicate StartsWith(s: string, p: string) {
    |p| <= |s| && s[..|p|] == p
  }

  /** A selector carrying its value after an equals sign. */
  predicate Inline(tok: string) {
    StartsWith(tok, "--project=") || StartsWith(tok, "-p=")
  }

  function InlineValue(tok: string): string
    requires Inline(tok)
  {
    if StartsWith(tok, "--project=") then tok[10..] else tok[3..]
  }

  /** A token carries a value inline exactly when it is one of the two flags, an equals sign and the value. */
  lemma InlineIff(tok: string, value: string)
    ensures Inline(tok) && InlineValue(tok) == value <==> tok == "--project=" + value || tok == "-p=" + value
  {
    if StartsWith(tok, "--project=") {
      assert tok == "--project=" + tok[10..];
      assert tok[1] == '-';
    } else if StartsWith(tok, "-p=") {
      assert tok == "-p=" + tok[3..];
    }
    if tok == "-p=" + value { assert tok[1] == 'p' && "--project="[1] == '-'; }
  }

  /** A selector whose value is the next token. */
  predicate Bare(tok: string) {
    tok == "--project" || tok == "-p"
  }

  lemma BareIsNotInline(tok: string)
    requires Bare(tok)
    ensures !Inline(tok) && tok != "--no-project"
  {
    if tok == "--project" { assert tok[..3][1] == '-' && "-p="[1] == 'p'; }
  }

  lemma OptOutIsNotInline()
    ensures !Inline("--no-project")
  {
    assert "--no-project"[..10][2] == 'n' && "--project="[2] == 'p';
    assert "--no-project"[..3][1] == '-' && "-p="[1] == 'p';
  }

  predicate Selector(tok: string) {
    tok == "--no-project" || Inline(tok) || Bare(tok)
  }

  // ----- Reading a tail -----

  datatype Parsed = Parsed(kept: seq<string>, explicit: Option<string>, noProject: bool, dangling: bool)

  function Later(first: Option<string>, rest: Option<string>): Option<string> {
    if rest.Some? then rest else first
  }

  /** Kept tokens in order, the last explicit path, the opt-out, and whether the tail ends in a bare flag. */
  function Parse(tail: seq<string>): Parsed
    decreases |tail|
  {
    if tail == [] then Parsed([], None, false, false)
    else if tail[0] == "--no-project" then Parse(tail[1..]).(noProject := true)
    else if Inline(tail[0]) then
      var rest := Parse(tail[1..]);
      rest.(explicit := Later(Some(InlineValue(tail[0])), rest.explicit))
    else if Bare(tail[0]) then
      if |tail| == 1 then Parsed([], None, false, true)
      else
        var rest := Parse(tail[2..]);
        rest.(explicit := Later(Some(tail[1]), rest.explicit))
    else
      var rest := Parse(tail[1..]);
      rest.(kept := [tail[0]] + rest.kept)
  }

  /** What is kept holds no selector, and reading it back keeps all of it. */
  lemma {:induction false} KeptIsPlain(tail: seq<string>)
    ensures forall i | 0 <= i < |Parse(tail).kept| :: !Selector(Parse(tail).kept[i])
    decreases |tail|
  {
    if tail != [] {
      if Bare(tail[0]) {
        BareIsNotInline(tail[0]);
        if |tail| > 1 { KeptIsPlain(tail[2..]); }
      } else {
        KeptIsPlain(tail[1..]);
      }
    }
  }

  /** Plain tokens before a tail are kept in front of whatever the tail keeps. */
  lemma {:induction false} PlainPrefix(plain: seq<string>, tail: seq<string>)
    requires forall i | 0 <= i < |plain| :: !Selector(plain[i])
    ensures var p := Parse(tail); Parse(plain + tail) == p.(kept := plain + p.kept)
    decreases |plain|
  {
    hide Inline, InlineValue, Bare;
    if plain == [] {
      assert plain + tail == tail && plain + Parse(tail).kept == Parse(tail).kept;
    } else {
      PlainPrefix(plain[1..], tail);
      assert !Selector(plain[0]);
      assert (plain + tail)[0] == plain[0] && (plain + tail)[1..] == plain[1..] + tail;
      assert [plain[0]] + (plain[1..] + Parse(tail).kept) == plain + Parse(tail).kept;
    }
  }

  // ----- Filesystem -----

  predicate Absolute(p: string) {
    p != [] && p[0] == '/'
  }

  function JoinPath(base: string, p: string): string {
    if base != [] && base[|base| - 1] == '/' then base + p else base + "/" + p
  }

  function LastSlash(p: string): Option<nat> {
    if p == [] then None
    else if p[|p| - 1] == '/' then Some(|p| - 1)
    else LastSlash(p[..|p| - 1])
  }

  lemma {:induction false} LastSlashInside(p: string)
    ensures LastSlash(p).Some? ==> LastSlash(p).value < |p|
  {
    if p != [] && p[|p| - 1] != '/' { LastSlashInside(p[..|p| - 1]); }
  }

  /** The directory above, for a path in canonical form. */
  function Parent(p: string): (r: Option<string>)
    ensures r.Some? ==> |r.value| < |p|
  {
    LastSlashInside(p);
    var at := LastSlash(p);
    if |p| <= 1 || at.None? then None
    else if at.value == 0 then Some("/")
    else Some(p[..at.value])
  }

  /** The path itself, then each directory above it. */
  function Ancestors(p: string): seq<string>
    decreases |p|
  {
    [p] + if Parent(p).None? then [] else Ancestors(Parent(p).value)
  }

  /** Absolute, no empty component, and no slash at the end except in the root itself. */
  predicate Clean(p: string) {
    && Absolute(p) && (p == "/" || p[|p| - 1] != '/')
    && forall i | 0 < i < |p| :: p[i - 1] != '/' || p[i] != '/'
  }

  lemma {:induction false} LastSlashIs(p: string)
    requires p != [] && p[0] == '/'
    ensures LastSlash(p).Some? && LastSlash(p).value < |p| && p[LastSlash(p).value] == '/'
    ensures forall j | LastSlash(p).value < j < |p| :: p[j] != '/'
    decreases |p|
  {
    if p[|p| - 1] != '/' {
      LastSlashIs(p[..|p| - 1]);
      assert forall j | 0 <= j < |p| - 1 :: p[..|p| - 1][j] == p[j];
    }
  }

  /** The directory is the path cut at one of its later slashes. */
  predicate CutAt(p: string, q: string, i: nat) {
    0 < i < |p| && p[i] == '/' && q == p[..i]
  }

  /** The walk visits exactly the path, the path cut at each later slash, and the root. */
  lemma {:induction false} AncestorsIff(p: string, q: string)
    requires Clean(p)
    ensures q in Ancestors(p) <==> q == p || q == "/" || exists i: nat :: CutAt(p, q, i)
    decreases |p|
  {
    LastSlashIs(p);
    var k := LastSlash(p).value;
    if |p| > 1 {
      var rest := if k == 0 then "/" else p[..k];
      assert Ancestors(p) == [p] + Ancestors(rest);
      assert forall j | 0 <= j < |rest| :: rest[j] == p[j];
      AncestorsIff(rest, q);
      if i: nat :| CutAt(rest, q, i) {
        assert rest[..i] == p[..i];
        assert CutAt(p, q, i);
      }
      if i: nat :| CutAt(p, q, i) {
        assert i <= k;
        if i < k { assert CutAt(rest, q, i) by { assert rest[..i] == p[..i]; } }
      }
      if k > 0 { assert CutAt(p, rest, k); }
    }
  }

  /** What the client reads from the machine. */
  datatype Machine = Machine(canonicalize: string -> Option<string>, hasProjectMarker: string -> bool)

  /** Canonical paths are absolute and canonical, and so is everything above them. */
  ghost predicate Canonical(m: Machine) {
    forall p :: m.canonicalize(p).Some? ==>
                  var q := m.canonicalize(p).value;
                  Absolute(q) && forall a | a in Ancestors(q) :: Absolute(a) && m.canonicalize(a) == Some(a)
  }

  predicate NearestMarked(m: Machine, up: seq<string>, r: Option<string>) {
    if r.None? then forall i | 0 <= i < |up| :: !m.hasProjectMarker(up[i])
    else exists k | 0 <= k < |up| :: up[k] == r.value && m.hasProjectMarker(up[k])
                                      && forall i | 0 <= i < k :: !m.hasProjectMarker(up[i])
  }

  function Nearest(m: Machine, up: seq<string>): Option<string> {
    if up == [] then None else if m.hasProjectMarker(up[0]) then Some(up[0]) else Nearest(m, up[1..])
  }

  lemma {:induction false} NearestIsNearest(m: Machine, up: seq<string>)
    ensures NearestMarked(m, up, Nearest(m, up))
  {
    if up != [] && !m.hasProjectMarker(up[0]) {
      NearestIsNearest(m, up[1..]);
      var r := Nearest(m, up[1..]);
      if r.Some? {
        var k :| 0 <= k < |up| - 1 && up[1..][k] == r.value && m.hasProjectMarker(up[1..][k])
                 && forall i | 0 <= i < k :: !m.hasProjectMarker(up[1..][i]);
        forall i | 0 <= i < k + 1 ensures !m.hasProjectMarker(up[i]) {
          if i > 0 { assert up[i] == up[1..][i - 1]; }
        }
        assert up[k + 1] == r.value;
      } else {
        forall i | 0 <= i < |up| ensures !m.hasProjectMarker(up[i]) {
          if i > 0 { assert up[i] == up[1..][i - 1]; }
        }
      }
    }
  }

  // ----- Resolution -----

  datatype ProjectSpec = NoProject | Explicit(path: string)

  /** `resolve_spec_from_cwd`. */
  function Resolve(m: Machine, noProject: bool, explicit: Option<string>, cwd: string): Option<ProjectSpec> {
    if noProject then (if explicit.Some? then None else Some(NoProject))
    else if explicit.Some? then
      var abs := if Absolute(explicit.value) then explicit.value else JoinPath(cwd, explicit.value);
      if m.canonicalize(abs).None? then None else Some(Explicit(m.canonicalize(abs).value))
    else if m.canonicalize(cwd).None? then None
    else
      var found := Nearest(m, Ancestors(m.canonicalize(cwd).value));
      if found.None? then Some(NoProject) else Some(Explicit(found.value))
  }

  /** The one selector a rewritten tail ends with. */
  function Rendered(s: ProjectSpec): seq<string> {
    if s.NoProject? then ["--no-project"] else ["--project", s.path]
  }

  function Chosen(p: Parsed, default_: Option<string>): Option<string> {
    if p.explicit.None? && !p.noProject then default_ else p.explicit
  }

  function Rewritten(m: Machine, tail: seq<string>, default_: Option<string>, cwd: string): Option<seq<string>> {
    var p := Parse(tail);
    if p.dangling then None
    else
      var s := Resolve(m, p.noProject, Chosen(p, default_), cwd);
      if s.None? then None else Some(p.kept + Rendered(s.value))
  }

  /** The ancestor walk. */
  method FindProject(m: Machine, canonicalCwd: string) returns (found: Option<string>)
    ensures found == Nearest(m, Ancestors(canonicalCwd))
  {
    var at := canonicalCwd;
    while true
      invariant Nearest(m, Ancestors(canonicalCwd)) == Nearest(m, Ancestors(at))
      decreases |at|
    {
      assert Ancestors(at)[1..] == if Parent(at).None? then [] else Ancestors(Parent(at).value);
      if m.hasProjectMarker(at) { return Some(at); }
      var up := Parent(at);
      if up.None? { return None; }
      at := up.value;
    }
  }

  method ResolveSpec(m: Machine, noProject: bool, explicit: Option<string>,
      cwd: string) returns (r: Option<ProjectSpec>)
    ensures r == Resolve(m, noProject, explicit, cwd)
  {
    if noProject { return if explicit.Some? then None else Some(NoProject); }
    if explicit.Some? {
      var abs := if Absolute(explicit.value) then explicit.value else JoinPath(cwd, explicit.value);
      var canonical := m.canonicalize(abs);
      return if canonical.None? then None else Some(Explicit(canonical.value));
    }
    var canonicalCwd := m.canonicalize(cwd);
    if canonicalCwd.None? { return None; }
    var found := FindProject(m, canonicalCwd.value);
    return if found.None? then Some(NoProject) else Some(Explicit(found.value));
  }

  /** The flags read so far, followed by the rest of the tail. */
  function Joined(sofar: Parsed, rest: Parsed): Parsed {
    Parsed(sofar.kept + rest.kept, Later(sofar.explicit, rest.explicit), sofar.noProject || rest.noProject,
        rest.dangling)
  }

  /** `rewrite_project_tail_with_default`: one left-to-right pass over the tokens. */
  method RewriteProjectTail(m: Machine, tail: seq<string>, default_: Option<string>, cwd: string)
    returns (result: Option<seq<string>>)
    ensures result == Rewritten(m, tail, default_, cwd)
  {
    hide Resolve, Inline, InlineValue, Parse;
    var out: seq<string>, explicit: Option<string>, noProject := [], None, false;
    var i := 0;
    assert tail[0..] == tail && [] + Parse(tail).kept == Parse(tail).kept;
    while i < |tail|
      invariant i <= |tail|
      invariant Parse(tail) == Joined(Parsed(out, explicit, noProject, false), Parse(tail[i..]))
    {
      var tok := tail[i];
      ParseHead(tail, i);
      if tok == "--no-project" {
        noProject := true;
        i := i + 1;
      } else if Inline(tok) {
        explicit := Some(InlineValue(tok));
        i := i + 1;
      } else if Bare(tok) {
        if i + 1 >= |tail| { return None; }
        explicit := Some(tail[i + 1]);
        i := i + 2;
      } else {
        assert out + ([tok] + Parse(tail[i + 1..]).kept) == (out + [tok]) + Parse(tail[i + 1..]).kept;
        out := out + [tok];
        i := i + 1;
      }
    }
    assert Parse(tail) == Parsed(out, explicit, noProject, false) by { ParseEnd(tail[i..]); assert out + [] == out; }
    if explicit.None? && !noProject { explicit := default_; }
    var s := ResolveSpec(m, noProject, explicit, cwd);
    if s.None? { return None; }
    return Some(out + Rendered(s.value));
  }

  /** What the token at position i contributes to the rest of the tail. */
  lemma ParseHead(tail: seq<string>, i: nat)
    requires i < |tail|
    ensures var tok := tail[i]; var here := Parse(tail[i..]); var next := Parse(tail[i + 1..]);
            && (tok == "--no-project" ==> here == next.(noProject := true))
            && (tok != "--no-project" && Inline(tok) ==>
                  here == next.(explicit := Later(Some(InlineValue(tok)), next.explicit)))
            && (tok != "--no-project" && !Inline(tok) && Bare(tok) && i + 1 < |tail| ==>
                  var after := Parse(tail[i + 2..]);
                  here == after.(explicit := Later(Some(tail[i + 1]), after.explicit)))
            && (tok != "--no-project" && !Inline(tok) && Bare(tok) && i + 1 == |tail| ==>
                  here == Parsed([], None, false, true))
            && (!Selector(tok) ==> here == next.(kept := [tok] + next.kept))
  {
    hide Inline, InlineValue, Bare;
    assert tail[i..][0] == tail[i] && tail[i..][1..] == tail[i + 1..];
    if i + 1 < |tail| { assert tail[i..][2..] == tail[i + 2..] && tail[i..][1] == tail[i + 1]; }
  }

  lemma ParseEnd(tail: seq<string>)
    requires tail == []
    ensures Parse(tail) == Parsed([], None, false, false)
  {
  }

  /** `strip_project_control_flags`: exactly what the rewriter keeps, for every tail. */
  method StripProjectControlFlags(tail: seq<string>) returns (out: seq<string>)
    ensures out == Parse(tail).kept
  {
    hide Inline, InlineValue, Parse;
    out := [];
    var i := 0;
    assert tail[0..] == tail && [] + Parse(tail).kept == Parse(tail).kept;
    while i < |tail|
      invariant i <= |tail|
      invariant Parse(tail).kept == out + Parse(tail[i..]).kept
    {
      var tok := tail[i];
      ParseHead(tail, i);
      if tok == "--no-project" || Inline(tok) {
        i := i + 1;
      } else if Bare(tok) {
        if i + 1 == |tail| { ParseEnd(tail[i + 1..]); }
        i := i + if i + 1 < |tail| then 2 else 1;
      } else {
        assert out + ([tok] + Parse(tail[i + 1..]).kept) == (out + [tok]) + Parse(tail[i + 1..]).kept;
        out := out + [tok];
        i := i + 1;
      }
    }
    ParseEnd(tail[i..]);
    assert out + [] == out;
  }

  // ----- Laws -----

  /** Token i is consumed as the value of the bare flag before it. */
  predicate IsValue(tail: seq<string>, i: nat)
    requires i <= |tail|
    decreases i
  {
    i > 0 && Bare(tail[i - 1]) && !IsValue(tail, i - 1)
  }

  /** Token i stands as the opt-out. */
  predicate OptsOut(tail: seq<string>, i: nat)
    requires i < |tail|
  {
    !IsValue(tail, i) && tail[i] == "--no-project"
  }

  /** Token i names a project, inline or by the token after it. */
  predicate NamesProject(tail: seq<string>, i: nat)
    requires i < |tail|
  {
    !IsValue(tail, i) && (Inline(tail[i]) || (Bare(tail[i]) && i + 1 < |tail|))
  }

  function NamedAt(tail: seq<string>, i: nat): string
    requires i < |tail| && NamesProject(tail, i)
  {
    if Inline(tail[i]) then InlineValue(tail[i]) else tail[i + 1]
  }

  /** The tail stops right after a bare flag. */
  predicate EndsEarly(tail: seq<string>) {
    tail != [] && Bare(tail[|tail| - 1]) && !IsValue(tail, |tail| - 1)
  }

  /** Token i is neither a selector nor a selector's value. */
  predicate IsPlain(tail: seq<string>, i: nat)
    requires i < |tail|
  {
    !IsValue(tail, i) && !Selector(tail[i])
  }

  function PlainFrom(tail: seq<string>, i: nat): seq<string>
    requires i <= |tail|
    decreases |tail| - i
  {
    if i == |tail| then [] else (if IsPlain(tail, i) then [tail[i]] else []) + PlainFrom(tail, i + 1)
  }

  /** The last token at or after i that names a project. */
  function LastNamed(tail: seq<string>, i: nat): Option<nat>
    requires i <= |tail|
    ensures LastNamed(tail, i).Some? ==> i <= LastNamed(tail, i).value < |tail| && NamesProject(tail, LastNamed(tail,
        i).value)
    decreases |tail| - i
  {
    if i == |tail| then None
    else if LastNamed(tail, i + 1).Some? then LastNamed(tail, i + 1)
    else if NamesProject(tail, i) then Some(i)
    else None
  }

  function NamedFrom(tail: seq<string>, i: nat): Option<string>
    requires i <= |tail|
  {
    var k := LastNamed(tail, i);
    if k.None? then None else Some(NamedAt(tail, k.value))
  }

  predicate OptsOutFrom(tail: seq<string>, i: nat)
    requires i <= |tail|
  {
    exists k | i <= k < |tail| :: OptsOut(tail, k)
  }

  /** What the parser says of the tail from i on, read off token positions. */
  predicate AgreesFrom(tail: seq<string>, i: nat)
    requires i <= |tail|
  {
    var p := Parse(tail[i..]);
    && p.kept == PlainFrom(tail, i) && p.explicit == NamedFrom(tail, i)
    && (p.noProject <==> OptsOutFrom(tail, i)) && (p.dangling <==> i < |tail| && EndsEarly(tail))
  }

  lemma SkipOne(tail: seq<string>, i: nat)
    requires i < |tail|
    ensures NamedFrom(tail, i) == Later(if NamesProject(tail, i) then Some(NamedAt(tail, i)) else None,
        NamedFrom(tail, i + 1))
    ensures OptsOutFrom(tail, i) <==> OptsOut(tail, i) || OptsOutFrom(tail, i + 1)
    ensures PlainFrom(tail, i) == (if IsPlain(tail, i) then [tail[i]] else []) + PlainFrom(tail, i + 1)
  {
    hide NamesProject, OptsOut, IsPlain, NamedAt;
  }

  /** At every token that is not a value, the parser and the positions agree on the rest of the tail. */
  lemma {:induction false} PositionsAgree(tail: seq<string>, i: nat)
    requires i <= |tail| && !IsValue(tail, i)
    ensures AgreesFrom(tail, i)
    decreases |tail| - i
  {
    OptOutIsNotInline();
    hide Inline, InlineValue, Parse;
    if i == |tail| {
      ParseEnd(tail[i..]);
      return;
    }
    ParseHead(tail, i);
    SkipOne(tail, i);
    var tok := tail[i];
    if Bare(tok) {
      BareIsNotInline(tok);
      if i + 1 < |tail| { PositionsAgree(tail, i + 2); }
      BareAgrees(tail, i);
    } else {
      PositionsAgree(tail, i + 1);
    }
  }

  /** The step over a bare flag and its value. */
  lemma BareAgrees(tail: seq<string>, i: nat)
    requires i < |tail| && !IsValue(tail, i) && Bare(tail[i]) && (i + 1 < |tail| ==> AgreesFrom(tail, i + 2))
    ensures AgreesFrom(tail, i)
  {
    BareIsNotInline(tail[i]);
    hide Inline, InlineValue, Parse;
    ParseHead(tail, i);
    SkipOne(tail, i);
    if i + 1 < |tail| { SkipOne(tail, i + 1); }
  }

  /** The kept tokens are the plain ones, in order. */
  lemma KeptByPosition(tail: seq<string>)
    ensures Parse(tail).kept == PlainFrom(tail, 0)
  {
    PositionsAgree(tail, 0);
    assert tail[0..] == tail;
  }

  /** The path that decides: the last one named in the tail, else the default, else the current directory. */
  function Wanted(tail: seq<string>, default_: Option<string>, cwd: string): string {
    var named := NamedFrom(tail, 0);
    var path := if named.Some? then named.value else if default_.Some? then default_.value else cwd;
    if (named.Some? || default_.Some?) && !Absolute(path) then JoinPath(cwd, path) else path
  }

  /**
   Exactly which tails are accepted, token by token: none ends right after a bare
   flag, none both opts out and names a project, and unless it opts out the path
   it settles on can be canonicalized.
   */
  lemma AcceptedIff(m: Machine, tail: seq<string>, default_: Option<string>, cwd: string)
    ensures Rewritten(m, tail, default_, cwd).Some? <==>
              && !EndsEarly(tail)
              && (forall i, j | 0 <= i < |tail| && 0 <= j < |tail| :: !(OptsOut(tail, i) && NamesProject(tail, j)))
              && ((exists i | 0 <= i < |tail| :: OptsOut(tail, i)) || m.canonicalize(Wanted(tail, default_, cwd)).Some?)
  {
    hide Parse, OptsOut, NamesProject, NamedAt, EndsEarly, PlainFrom;
    PositionsAgree(tail, 0);
    assert tail[0..] == tail;
    NamedIff(tail, 0);
    if tail == [] { EmptyEnds(tail); }
  }

  /** A path given on the command line, taken from the current directory. */
  function From(cwd: string, path: string): string {
    if Absolute(path) then path else JoinPath(cwd, path)
  }

  /** Token i is the last one that names a project. */
  predicate NamesLast(tail: seq<string>, i: nat)
    requires i < |tail|
  {
    NamesProject(tail, i) && forall j | i < j < |tail| :: !NamesProject(tail, j)
  }

  lemma {:induction false} LastNamedIs(tail: seq<string>, i: nat, k: nat)
    requires i <= k < |tail| && NamesLast(tail, k)
    ensures LastNamed(tail, i) == Some(k)
    decreases |tail| - i
  {
    hide NamesProject;
    if i < k { LastNamedIs(tail, i + 1, k); } else { NoneNamed(tail, k + 1); }
  }

  lemma {:induction false} NoneNamed(tail: seq<string>, i: nat)
    requires i <= |tail| && forall j | i <= j < |tail| :: !NamesProject(tail, j)
    ensures LastNamed(tail, i).None?
    decreases |tail| - i
  {
    hide NamesProject;
    if i < |tail| { NoneNamed(tail, i + 1); }
  }

  /** What decides, read off token positions. */
  lemma DecidedByPosition(m: Machine, tail: seq<string>, default_: Option<string>, cwd: string, out: seq<string>)
    requires Rewritten(m, tail, default_, cwd) == Some(out)
    ensures var named := NamedFrom(tail, 0);
            var optsOut := OptsOutFrom(tail, 0);
            var s := Resolve(m, optsOut, if named.None? && !optsOut then default_ else named, cwd);
            s.Some? && out == PlainFrom(tail, 0) + Rendered(s.value)
  {
    hide Parse, OptsOutFrom, NamedFrom, PlainFrom, Resolve, EndsEarly;
    PositionsAgree(tail, 0);
    assert tail[0..] == tail;
  }

  /** The selector that an opt-out, a named path, the default or the current directory leads to. */
  ghost predicate LeadsTo(m: Machine, optsOut: bool, named: Option<string>, default_: Option<string>, cwd: string,
                          selector: seq<string>)
  {
    if optsOut then selector == ["--no-project"]
    else if named.Some? || default_.Some? then
      var q := m.canonicalize(From(cwd, if named.Some? then named.value else default_.value));
      q.Some? && selector == ["--project", q.value]
    else
      && m.canonicalize(cwd).Some?
      && exists found :: NearestMarked(m, Ancestors(m.canonicalize(cwd).value), found)
           && selector == if found.None? then ["--no-project"] else ["--project", found.value]
  }

  lemma ResolveLeads(m: Machine, optsOut: bool, named: Option<string>, default_: Option<string>, cwd: string)
    ensures var s := Resolve(m, optsOut, if named.None? && !optsOut then default_ else named, cwd);
            s.Some? ==> LeadsTo(m, optsOut, named, default_, cwd, Rendered(s.value)) && !(optsOut && named.Some?)
  {
    hide NearestMarked, Ancestors;
    if m.canonicalize(cwd).Some? { NearestIsNearest(m, Ancestors(m.canonicalize(cwd).value)); }
  }

  /**
   Which selector an accepted tail ends with: the opt-out if a token stands for
   it; else the canonical form of the path its last naming token gives, or of
   the default; else the nearest marked directory at or above the canonical
   current one, and the opt-out if there is none.
   */
  lemma SelectorIs(m: Machine, tail: seq<string>, default_: Option<string>, cwd: string, out: seq<string>)
    requires Rewritten(m, tail, default_, cwd) == Some(out)
    ensures var kept := PlainFrom(tail, 0);
            var optsOut := exists i | 0 <= i < |tail| :: OptsOut(tail, i);
            && kept <= out
            && (forall i | 0 <= i < |tail| && NamesLast(tail, i) ::
                  LeadsTo(m, optsOut, Some(NamedAt(tail, i)), default_, cwd, out[|kept|..]))
            && ((forall i | 0 <= i < |tail| :: !NamesProject(tail, i)) ==>
                  LeadsTo(m, optsOut, None, default_, cwd, out[|kept|..]))
  {
    hide Rewritten, Resolve, OptsOut, NamesProject, NamedAt, PlainFrom, LeadsTo;
    DecidedByPosition(m, tail, default_, cwd, out);
    ResolveLeads(m, OptsOutFrom(tail, 0), NamedFrom(tail, 0), default_, cwd);
    assert out[|PlainFrom(tail, 0)|..] ==
           Rendered(Resolve(m, OptsOutFrom(tail, 0),
                            if NamedFrom(tail, 0).None? && !OptsOutFrom(tail, 0) then default_ else NamedFrom(tail, 0),
                            cwd).value);
    forall i | 0 <= i < |tail| && NamesLast(tail, i) ensures NamedFrom(tail, 0) == Some(NamedAt(tail, i)) {
      LastNamedIs(tail, 0, i);
    }
    if forall i | 0 <= i < |tail| :: !NamesProject(tail, i) { NoneNamed(tail, 0); }
  }

  lemma EmptyEnds(tail: seq<string>)
    requires tail == []
    ensures !EndsEarly(tail)
  {
  }

  lemma {:induction false} NamedIff(tail: seq<string>, i: nat)
    requires i <= |tail|
    ensures NamedFrom(tail, i).Some? <==> exists k | i <= k < |tail| :: NamesProject(tail, k)
    decreases |tail| - i
  {
    hide NamesProject, NamedAt;
    if i < |tail| { NamedIff(tail, i + 1); }
  }

  lemma {:induction false} NearestIsListed(m: Machine, up: seq<string>)
    ensures Nearest(m, up).Some? ==> Nearest(m, up).value in up
  {
    if up != [] { NearestIsListed(m, up[1..]); }
  }

  /** Whatever is resolved to a path is a canonical one. */
  lemma ResolvedIsCanonical(m: Machine, noProject: bool, explicit: Option<string>, cwd: string)
    requires Canonical(m)
    ensures var s := Resolve(m, noProject, explicit, cwd);
            s.Some? && s.value.Explicit? ==>
              Absolute(s.value.path) && m.canonicalize(s.value.path) == Some(s.value.path)
  {
    if !noProject && explicit.None? && m.canonicalize(cwd).Some? {
      NearestIsListed(m, Ancestors(m.canonicalize(cwd).value));
    }
    if !noProject && explicit.Some? {
      var abs := if Absolute(explicit.value) then explicit.value else JoinPath(cwd, explicit.value);
      if m.canonicalize(abs).Some? {
        var q := m.canonicalize(abs).value;
        assert Ancestors(q)[0] == q && q in Ancestors(q);
      }
    }
  }

  lemma ParseRendered(s: ProjectSpec)
    ensures Parse(Rendered(s)) ==
            if s.NoProject? then Parsed([], None, true, false) else Parsed([], Some(s.path), false, false)
  {
    if s.NoProject? {
      assert Rendered(s)[1..] == [];
    } else {
      BareIsNotInline("--project");
      assert Rendered(s)[2..] == [];
    }
  }

  /** An accepted tail becomes its plain tokens followed by one canonical selector. */
  lemma RewriteShape(m: Machine, tail: seq<string>, default_: Option<string>, cwd: string, out: seq<string>)
    requires Canonical(m) && Rewritten(m, tail, default_, cwd) == Some(out)
    ensures exists s: ProjectSpec :: out == Parse(tail).kept + Rendered(s) && Parse(out).kept == Parse(tail).kept
                                     && (s.Explicit? ==> Absolute(s.path) && m.canonicalize(s.path) == Some(s.path))
    ensures forall i | 0 <= i < |Parse(tail).kept| :: !Selector(out[i])
  {
    var p := Parse(tail);
    var s := Resolve(m, p.noProject, Chosen(p, default_), cwd).value;
    ResolvedIsCanonical(m, p.noProject, Chosen(p, default_), cwd);
    KeptIsPlain(tail);
    PlainPrefix(p.kept, Rendered(s));
    ParseRendered(s);
    assert p.kept + [] == p.kept;
  }

  /** Rewriting again changes nothing, from any directory and with any default. */
  lemma RewriteIdempotent(m: Machine, tail: seq<string>, default_: Option<string>, cwd: string, out: seq<string>,
                          default2: Option<string>, cwd2: string)
    requires Canonical(m) && Rewritten(m, tail, default_, cwd) == Some(out)
    ensures Rewritten(m, out, default2, cwd2) == Some(out)
  {
    hide Parse, Canonical, Inline;
    RewriteShape(m, tail, default_, cwd, out);
    var p := Parse(tail);
    var s: ProjectSpec :| out == p.kept + Rendered(s) && Parse(out).kept == p.kept
                          && (s.Explicit? ==> Absolute(s.path) && m.canonicalize(s.path) == Some(s.path));
    KeptIsPlain(tail);
    PlainPrefix(p.kept, Rendered(s));
    ParseRendered(s);
  }

  /** Stripping a rewritten tail gives what stripping the original gave. */
  lemma StripForgetsRewriting(m: Machine, tail: seq<string>, default_: Option<string>, cwd: string, out: seq<string>)
    requires Canonical(m) && Rewritten(m, tail, default_, cwd) == Some(out)
    ensures Parse(out).kept == Parse(tail).kept && Parse(Parse(tail).kept).kept == Parse(tail).kept
  {
    RewriteShape(m, tail, default_, cwd, out);
    KeptIsPlain(tail);
    PlainPrefix(Parse(tail).kept, []);
    assert Parse(tail).kept + [] == Parse(tail).kept;
  }
}
