/**
 Folding a workspace delta into a project tree, and why the result is the
 overlay of the scanned upper layer on that tree.
 */
module OverlayFold {
  import opened Prelude
  import opened Ordering
  import opened OverlayScan
  import opened OverlayDelta

  /** A stored file object, standing for its hash. */
  datatype ProjectFile = ProjectFile(hash: string, size: nat, mode: nat)

  /** A project tree lists files by path; directories exist only as prefixes. */
  type Files = map<string, ProjectFile>

  /** The snapshot policy's answers: safe paths, digests, what is included, manifest paths, whole trees. */
  datatype Policy = Policy(
    safe: string -> bool, digest: string -> bool, included: string -> bool, manifest: string -> bool,
    sound: Files -> bool)

  datatype Folded = Refused | Unchanged | Changed(files: Files)

  /** The path lies strictly below the directory. */
  predicate Inside(dir: string, path: string) {
    |path| > |dir| && path[..|dir|] == dir && path[|dir|] == '/'
  }

  function Without(files: Files, path: string): Files {
    map q | q in files && q != path :: files[q]
  }

  function WithoutBelow(files: Files, path: string): Files {
    map q | q in files && !Inside(path, q) :: files[q]
  }

  /** The file a complete upsert carries. */
  function FileOf(m: Mutation): Option<ProjectFile> {
    if m.kind.UpsertRegular? && m.contentHash.Some? && m.size.Some? && m.normalizedMode.Some?
    then Some(ProjectFile(m.contentHash.value, m.size.value, m.normalizedMode.value)) else None
  }

  /** One mutation's change of the tree. */
  function Fold1(files: Files, m: Mutation, included: string -> bool): Files {
    match m.kind
    case DeletePath => WithoutBelow(Without(files, m.path), m.path)
    case EnsureDirectory => Without(files, m.path)
    case OpaqueDirectory => WithoutBelow(Without(files, m.path), m.path)
    case UpsertRegular =>
      if included(m.path) && FileOf(m).Some? then WithoutBelow(files, m.path)[m.path := FileOf(m).value] else files
  }

  function Fold(files: Files, ms: seq<Mutation>, included: string -> bool): Files {
    if ms == [] then files else Fold1(Fold(files, ms[..|ms| - 1], included), ms[|ms| - 1], included)
  }

  /** `WorkspaceMutation::validate`, for the fields. */
  predicate WellFormed(m: Mutation, policy: Policy) {
    if m.kind.UpsertRegular?
    then && m.normalizedMode in {Some(0x1a4), Some(0x1ed)} && m.size.Some?
         && m.contentHash.Some? && policy.digest(m.contentHash.value)
    else m.normalizedMode.None? && m.size.None? && m.contentHash.None?
  }

  /** The entry a relative path leads to, component by component. */
  function Find(dir: Node, path: string): Option<Node>
    decreases |path|
  {
    var i := FirstSlash(path);
    if i == 0 || i > |path| || !dir.Folder? || path[..i] !in dir.children then None
    else if i == |path| then Some(dir.children[path[..i]])
    else Find(dir.children[path[..i]], path[i + 1..])
  }

  /** The upper layer still holds the file exactly as the mutation describes it. */
  predicate Evidence(upper: Node, m: Mutation) {
    var found := Find(upper, m.path);
    && found.Some? && found.value.Regular?
    && m.normalizedMode == Some(NormalMode(found.value.mode))
    && m.size == Some(found.value.size) && m.contentHash == found.value.hash
  }

  /** The mutation may be folded. */
  predicate Admissible(upper: Node, m: Mutation, policy: Policy) {
    && WellFormed(m, policy) && policy.safe(m.path)
    && (m.kind.UpsertRegular? && policy.included(m.path) ==> policy.manifest(m.path) && Evidence(upper, m))
  }

  /** `apply_workspace_delta`: folds the mutations in order, or refuses at the first inadmissible one. */
  method ApplyWorkspaceDelta(upper: Node, base: Files, policy: Policy, ms: seq<Mutation>) returns (r: Folded)
    ensures r.Refused? <==>
            !((forall i | 0 <= i < |ms| :: Admissible(upper, ms[i], policy))
              && policy.sound(Fold(base, ms, policy.included)))
    ensures !r.Refused? ==>
              var next := Fold(base, ms, policy.included);
              r == if next == base then Unchanged else Changed(next)
  {
    hide Find, Evidence, Without, WithoutBelow;
    var next := base;
    for k := 0 to |ms|
      invariant next == Fold(base, ms[..k], policy.included)
      invariant forall i | 0 <= i < k :: Admissible(upper, ms[i], policy)
    {
      var m := ms[k];
      assert ms[..k + 1][..k] == ms[..k] && ms[..k + 1][k] == m;
      if !WellFormed(m, policy) || !policy.safe(m.path) { return Refused; }
      match m.kind {
        case DeletePath => next := WithoutBelow(Without(next, m.path), m.path);
        case EnsureDirectory => next := Without(next, m.path);
        case OpaqueDirectory => next := WithoutBelow(Without(next, m.path), m.path);
        case UpsertRegular =>
          if policy.included(m.path) {
            if !policy.manifest(m.path) || !Evidence(upper, m) { return Refused; }
            var file := ProjectFile(m.contentHash.value, m.size.value, m.normalizedMode.value);
            next := WithoutBelow(next, m.path)[m.path := file];
          }
      }
    }
    assert ms[..|ms|] == ms;
    if !policy.sound(next) { return Refused; }
    r := if next == base then Unchanged else Changed(next);
  }

  // ----- What the fold leaves at one path -----

  /** The mutation decides the path itself; an upsert of an excluded file decides nothing. */
  predicate Owns(m: Mutation, q: string, included: string -> bool) {
    m.path == q && (m.kind.UpsertRegular? ==> included(q) && FileOf(m).Some?)
  }

  /** The mutation empties the directory the path lies in. */
  predicate Empties(m: Mutation, q: string, included: string -> bool) {
    && Inside(m.path, q) && !m.kind.EnsureDirectory?
    && (m.kind.UpsertRegular? ==> included(m.path) && FileOf(m).Some?)
  }

  ghost predicate Strict(ms: seq<Mutation>) {
    forall i, j | 0 <= i < j < |ms| :: Less(ms[i].path, ms[j].path)
  }

  /** The path's own mutation decides; else whatever empties a directory above it; else the path is as it was. */
  ghost predicate Decided(before: Option<ProjectFile>, ms: seq<Mutation>, included: string -> bool, q: string,
                          after: Option<ProjectFile>)
  {
    && (forall i | 0 <= i < |ms| && Owns(ms[i], q, included) :: after == FileOf(ms[i]))
    && ((forall i | 0 <= i < |ms| :: !Owns(ms[i], q, included)) ==>
          && ((exists i | 0 <= i < |ms| :: Empties(ms[i], q, included)) ==> after.None?)
          && ((forall i | 0 <= i < |ms| :: !Empties(ms[i], q, included)) ==> after == before))
  }

  lemma Fold1At(files: Files, m: Mutation, included: string -> bool, q: string)
    ensures Get(Fold1(files, m, included), q) ==
            if Owns(m, q, included) then FileOf(m)
            else if Empties(m, q, included) then None
            else Get(files, q)
  {
  }

  lemma InsideSortsLater(dir: string, q: string)
    requires Inside(dir, q)
    ensures Less(dir, q)
  {
    assert q == dir + q[|dir|..];
    PrefixIsLess(dir, q[|dir|..]);
  }

  lemma {:induction false} FoldDecides(files: Files, ms: seq<Mutation>, included: string -> bool, q: string)
    requires Strict(ms)
    ensures Decided(Get(files, q), ms, included, q, Get(Fold(files, ms, included), q))
    decreases |ms|
  {
    hide Fold1, Owns, Empties, Less;
    if ms == [] { return; }
    var n := |ms| - 1;
    var pre, m := ms[..n], ms[n];
    FoldDecides(files, pre, included, q);
    var between := Fold(files, pre, included);
    Fold1At(between, m, included, q);
    if Owns(m, q, included) {
      NoneOwnsBefore(ms, included, q);
    } else if Empties(m, q, included) {
      OwnersComeLater(ms, included, q);
    }
    Extend(Get(files, q), ms, included, q, Get(between, q), Get(Fold1(between, m, included), q));
  }

  lemma NoneOwnsBefore(ms: seq<Mutation>, included: string -> bool, q: string)
    requires ms != [] && Strict(ms) && Owns(ms[|ms| - 1], q, included)
    ensures forall i | 0 <= i < |ms| - 1 :: !Owns(ms[i], q, included)
  {
    hide Less;
    LessIrreflexive(q);
  }

  lemma OwnersComeLater(ms: seq<Mutation>, included: string -> bool, q: string)
    requires ms != [] && Strict(ms) && Empties(ms[|ms| - 1], q, included)
    ensures forall i | 0 <= i < |ms| - 1 :: !Owns(ms[i], q, included)
  {
    hide Less;
    var last := ms[|ms| - 1].path;
    InsideSortsLater(last, q);
    forall i | 0 <= i < |ms| - 1 ensures !Owns(ms[i], q, included) {
      if ms[i].path == q {
        LessTransitive(q, last, q);
        LessIrreflexive(q);
      }
    }
  }

  lemma Extend(before: Option<ProjectFile>, ms: seq<Mutation>, included: string -> bool, q: string,
               between: Option<ProjectFile>, after: Option<ProjectFile>)
    requires ms != [] && Decided(before, ms[..|ms| - 1], included, q, between)
    requires var m := ms[|ms| - 1];
             after == if Owns(m, q, included) then FileOf(m) else if Empties(m, q, included) then None else between
    requires Owns(ms[|ms| - 1], q, included) || Empties(ms[|ms| - 1], q, included) ==>
               forall i | 0 <= i < |ms| - 1 :: !Owns(ms[i], q, included)
    ensures Decided(before, ms, included, q, after)
  {
    hide Owns, Empties, FileOf;
    var n := |ms| - 1;
    var pre := ms[..n];
    assert forall i | 0 <= i < n :: pre[i] == ms[i];
    if (forall i | 0 <= i < |ms| :: !Owns(ms[i], q, included)) && !Empties(ms[n], q, included) {
      if exists i | 0 <= i < |ms| :: Empties(ms[i], q, included) {
        var i :| 0 <= i < |ms| && Empties(ms[i], q, included);
        assert Empties(pre[i], q, included);
      }
    }
  }

  // ----- Paths and keys -----

  lemma {:induction false} SuffixBelow(a: Key, b: Key, rest: string)
    requires GoodKey(a) && GoodKey(b) && Suffix(b) == Suffix(a) + "/" + rest
    ensures |a| < |b| && b[..|a|] == a
    decreases |a|
  {
    if a != [] {
      var x, y := Suffix(a[1..]) + "/" + rest, Suffix(b[1..]);
      assert b[0] + y == Suffix(b)[1..] && a[0] + x == (Suffix(a) + "/" + rest)[1..];
      SplitFirst(a[0], b[0], x, y);
      SuffixBelow(a[1..], b[1..], rest);
      assert a == [a[0]] + a[1..] && b[..|a|] == [b[0]] + b[1..][..|a| - 1];
    }
  }

  lemma ExtensionIsInside(a: Key, rest: Key)
    requires a != [] && rest != []
    ensures Inside(PathOf("", a), PathOf("", a + rest))
  {
    PathGrows(a, rest);
    assert Suffix(rest) == "/" + rest[0] + Suffix(rest[1..]);
    hide PathOf, Suffix;
  }

  lemma SplitBelow(a: string, b: string, x: string, y: string, rest: string)
    requires '/' !in a && '/' !in b && b + y == a + x + "/" + rest
    requires (x == "" || x[0] == '/') && (y == "" || y[0] == '/')
    ensures a == b && y == x + "/" + rest
  {
    assert a + x + "/" + rest == a + (x + "/" + rest);
    SplitFirst(a, b, x + "/" + rest, y);
  }

  lemma SuffixHead(key: Key)
    ensures Suffix(key) == "" || Suffix(key)[0] == '/'
  {
  }

  lemma InsideMeans(dir: string, path: string)
    requires Inside(dir, path)
    ensures path == dir + "/" + path[|dir| + 1..]
  {
    var tail := path[|dir| + 1..];
    assert path == path[..|dir|] + [path[|dir|]] + tail;
  }

  lemma ConsPrefix(a: Key, b: Key)
    requires a != [] && b != [] && a[0] == b[0] && |a| < |b| && b[1..][..|a| - 1] == a[1..]
    ensures b[..|a|] == a
  {
    forall i | 0 <= i < |a| ensures b[i] == a[i] {
      if i > 0 { assert b[i] == b[1..][..|a| - 1][i - 1] && a[i] == a[1..][i - 1]; }
    }
  }

  lemma InsideIsExtension(a: Key, b: Key)
    requires a != [] && b != [] && GoodKey(a) && GoodKey(b) && Inside(PathOf("", a), PathOf("", b))
    ensures |a| < |b| && b[..|a|] == a
  {
    hide PathOf, Suffix, Inside;
    InsideMeans(PathOf("", a), PathOf("", b));
    var rest := PathOf("", b)[|PathOf("", a)| + 1..];
    PathShape(a);
    PathShape(b);
    SuffixHead(a[1..]);
    SuffixHead(b[1..]);
    SplitBelow(a[0], b[0], Suffix(a[1..]), Suffix(b[1..]), rest);
    SuffixBelow(a[1..], b[1..], rest);
    ConsPrefix(a, b);
  }

  /** One path lies below another exactly when its key extends the other's. */
  lemma InsideIff(a: Key, b: Key)
    requires a != [] && b != [] && GoodKey(a) && GoodKey(b)
    ensures Inside(PathOf("", a), PathOf("", b)) <==> |a| < |b| && b[..|a|] == a
  {
    hide PathOf, Inside;
    if |a| < |b| && b[..|a|] == a {
      assert b == a + b[|a|..];
      ExtensionIsInside(a, b[|a|..]);
    }
    if Inside(PathOf("", a), PathOf("", b)) { InsideIsExtension(a, b); }
  }

  /** Opening a rendered path component by component finds the entry it was rendered from. */
  lemma {:induction false} FindIsAt(dir: Node, key: Key)
    requires key != [] && GoodKey(key)
    ensures Find(dir, PathOf("", key)) == At(dir, key)
    decreases |key|
  {
    PathShape(key);
    var name, rest := key[0], key[1..];
    var path := PathOf("", key);
    assert path == name + Suffix(rest);
    FirstSlashAfter(name, Suffix(rest));
    assert path[..|name|] == name;
    if rest != [] {
      assert Suffix(rest) == "/" + rest[0] + Suffix(rest[1..]);
      PathShape(rest);
      assert path[|name| + 1..] == rest[0] + Suffix(rest[1..]) == PathOf("", rest);
      if dir.Folder? && name in dir.children { FindIsAt(dir.children[name], rest); }
    }
  }

  // ----- The overlay -----

  /** The entry hides whatever the lower layer has below it. */
  predicate Shadows(n: Node) {
    n == Whiteout || n.Regular? || (n.Folder? && n.marker == Covering)
  }

  /** An entry above the key hides the lower layer there. */
  ghost predicate Shadowed(upper: Node, key: Key) {
    exists i | 0 < i < |key| :: At(upper, key[..i]).Some? && Shadows(At(upper, key[..i]).value)
  }

  /** The file as a snapshot stores it: its bytes, and the executable or the plain mode. */
  function Stored(n: Node): ProjectFile
    requires n.Regular? && n.hash.Some?
  {
    var executable := n.mode / 64 % 2 == 1 || n.mode / 8 % 2 == 1 || n.mode % 2 == 1;
    ProjectFile(n.hash.value, n.size, if executable then 0x1ed else 0x1a4)
  }

  /**
   The file a process in the workspace sees at the key: the upper layer's entry
   if there is one, else nothing below an entry that shadows the lower layer,
   else the base tree's.  A file the snapshot excludes is not stored.
   */
  ghost function Overlay(upper: Node, base: Files, included: string -> bool, key: Key): Option<ProjectFile> {
    var entry := At(upper, key);
    if entry.Some? then
      if entry.value.Regular? && entry.value.hash.Some? && included(PathOf("", key)) then Some(Stored(entry.value))
      else None
    else if Shadowed(upper, key) then None
    else Get(base, PathOf("", key))
  }

  /** An excluded file of the upper layer. */
  predicate Skipped(upper: Node, included: string -> bool, key: Key) {
    At(upper, key).Some? && At(upper, key).value.Regular? && !included(PathOf("", key))
  }

  /** An entry above the key empties its directory in the fold. */
  ghost predicate Emptied(upper: Node, included: string -> bool, key: Key) {
    exists i | 0 < i < |key| ::
      At(upper, key[..i]).Some? && Shadows(At(upper, key[..i]).value) && !Skipped(upper, included, key[..i])
  }

  /** The base tree has a file at or below an excluded one, and nothing above empties its directory. */
  ghost predicate Stale(upper: Node, base: Files, included: string -> bool, key: Key) {
    && PathOf("", key) in base && !Emptied(upper, included, key)
    && exists i | 0 < i <= |key| :: Skipped(upper, included, key[..i])
  }

  lemma DeltaIsStrict(dir: Node, ms: seq<Mutation>)
    requires IsDelta(dir, ms)
    ensures Strict(ms)
  {
    hide Recorded, Less;
  }

  /** What a mutation of the delta does at a key, read off the entry it describes. */
  lemma OwnsIff(upper: Node, ms: seq<Mutation>, included: string -> bool, key: Key, m: Mutation)
    requires upper.Folder? && Supported(upper) && IsDelta(upper, ms) && key != [] && GoodKey(key) && m in ms
    ensures Owns(m, PathOf("", key), included) <==>
            EntryAt(upper, "", key, m) && !Skipped(upper, included, key)
    ensures EntryAt(upper, "", key, m) ==>
              FileOf(m) == (if At(upper, key).value.Regular? then Some(Stored(At(upper, key).value)) else None)
  {
    LookupAgrees(upper, ms, key, m);
    hide At, PathOf, IsDelta, Supported;
  }

  lemma EmptiesIff(upper: Node, ms: seq<Mutation>, included: string -> bool, key: Key, at: Key, m: Mutation)
    requires upper.Folder? && Supported(upper) && key != [] && GoodKey(key)
    requires EntryAt(upper, "", at, m) && at != [] && GoodKey(at)
    ensures Empties(m, PathOf("", key), included) <==>
            && |at| < |key| && key[..|at|] == at
            && Shadows(At(upper, at).value) && !Skipped(upper, included, at)
  {
    InsideIff(at, key);
    hide At, PathOf, Inside, Supported;
  }

  lemma EmptiedIff(upper: Node, ms: seq<Mutation>, included: string -> bool, key: Key)
    requires upper.Folder? && Supported(upper) && IsDelta(upper, ms) && key != [] && GoodKey(key)
    ensures (exists i | 0 <= i < |ms| :: Empties(ms[i], PathOf("", key), included)) <==> Emptied(upper, included, key)
  {
    hide At, PathOf, Supported, Empties, Shadows, Skipped, Describes;
    if exists i | 0 <= i < |ms| :: Empties(ms[i], PathOf("", key), included) {
      var i :| 0 <= i < |ms| && Empties(ms[i], PathOf("", key), included);
      assert Recorded(upper, ms[i]);
      var at: Key :| EntryAt(upper, "", at, ms[i]);
      PresentIsNamed(upper, at);
      SupportedKeysAreGood(upper, at);
      EmptiesIff(upper, ms, included, key, at, ms[i]);
      assert key[..|at|] == at;
    }
    if Emptied(upper, included, key) {
      var i :| 0 < i < |key| && At(upper, key[..i]).Some? && Shadows(At(upper, key[..i]).value)
               && !Skipped(upper, included, key[..i]);
      var at := key[..i];
      SupportedKeysAreGood(upper, at);
      var m := Record(PathOf("", at), At(upper, at).value);
      assert EntryAt(upper, "", at, m);
      assert Recorded(upper, m);
      var j :| 0 <= j < |ms| && ms[j] == m;
      EmptiesIff(upper, ms, included, key, at, m);
    }
  }

  /** What folding the upper layer's own delta leaves at every path. */
  lemma FoldedAt(upper: Node, base: Files, included: string -> bool, ms: seq<Mutation>, key: Key)
    requires upper.Folder? && Supported(upper) && IsDelta(upper, ms) && key != [] && GoodKey(key)
    ensures Get(Fold(base, ms, included), PathOf("", key)) ==
            if At(upper, key).Some? && !Skipped(upper, included, key)
            then (if At(upper, key).value.Regular? && At(upper, key).value.hash.Some?
                  then Some(Stored(At(upper, key).value)) else None)
            else if Emptied(upper, included, key) then None
            else Get(base, PathOf("", key))
  {
    var q := PathOf("", key);
    DeltaIsStrict(upper, ms);
    FoldDecides(base, ms, included, q);
    EmptiedIff(upper, ms, included, key);
    if At(upper, key).Some? {
      SupportedKeysAreGood(upper, key);
      var m := Record(q, At(upper, key).value);
      assert EntryAt(upper, "", key, m);
      assert Recorded(upper, m);
    }
    hide At, PathOf, Supported, Owns, Empties, Emptied, Fold, Stored, Recorded, Describes;
    forall i | 0 <= i < |ms|
      ensures Owns(ms[i], q, included) <==> EntryAt(upper, "", key, ms[i]) && !Skipped(upper, included, key)
    {
      OwnsIff(upper, ms, included, key, ms[i]);
    }
    if At(upper, key).Some? && !Skipped(upper, included, key) {
      var m := Record(q, At(upper, key).value);
      var i :| 0 <= i < |ms| && ms[i] == m;
      OwnsIff(upper, ms, included, key, m);
      ReadableHash(At(upper, key).value);
    }
  }

  lemma ReadableHash(n: Node)
    requires Readable(n)
    ensures n.Regular? ==> n.hash.Some?
  {
  }

  lemma {:induction false} AncestorsAreFolders(dir: Node, key: Key, i: nat)
    requires At(dir, key).Some? && 0 < i < |key|
    ensures At(dir, key[..i]).Some? && At(dir, key[..i]).value.Folder?
    decreases |key|
  {
    if i > 1 {
      AncestorsAreFolders(dir.children[key[0]], key[1..], i - 1);
      assert key[1..][..i - 1] == key[..i][1..];
    }
  }

  /**
   Folding a scanned upper layer into a project tree gives, at every path, the
   file a process in the workspace saw there, if and only if the base tree has
   no file at or below an excluded one of the upper layer, except where a
   directory above it is emptied anyway.
   */
  lemma FoldIsOverlayIff(upper: Node, base: Files, included: string -> bool, ms: seq<Mutation>, key: Key)
    requires upper.Folder? && Supported(upper) && IsDelta(upper, ms) && key != [] && GoodKey(key)
    ensures Get(Fold(base, ms, included), PathOf("", key)) == Overlay(upper, base, included, key) <==>
            !Stale(upper, base, included, key)
  {
    FoldedAt(upper, base, included, ms, key);
    assert key[..|key|] == key;
    if At(upper, key).Some? {
      SupportedKeysAreGood(upper, key);
      ReadableHash(At(upper, key).value);
      forall i | 0 < i < |key| ensures !Skipped(upper, included, key[..i]) { AncestorsAreFolders(upper, key, i); }
    }
    hide Fold, IsDelta, Supported, PathOf, At, Stored, Emptied, Shadowed;
    ShadowedIff(upper, included, key);
  }

  /** What shadows a key but does not empty it is an excluded file above it. */
  lemma ShadowedIff(upper: Node, included: string -> bool, key: Key)
    ensures Emptied(upper, included, key) ==> Shadowed(upper, key)
    ensures Shadowed(upper, key) && !Emptied(upper, included, key) <==>
            !Emptied(upper, included, key) && exists i | 0 < i < |key| :: Skipped(upper, included, key[..i])
  {
    hide At, PathOf;
    if Shadowed(upper, key) && !Emptied(upper, included, key) {
      var i :| 0 < i < |key| && At(upper, key[..i]).Some? && Shadows(At(upper, key[..i]).value);
      assert Skipped(upper, included, key[..i]);
    }
  }

  /** The policy accepts what the upper layer holds: its paths and digests, and what it includes as manifest paths. */
  ghost predicate Accepts(policy: Policy, upper: Node) {
    forall key: Key | At(upper, key).Some? ::
      && policy.safe(PathOf("", key))
      && (policy.included(PathOf("", key)) ==> policy.manifest(PathOf("", key)))
      && (At(upper, key).value.Regular? && At(upper, key).value.hash.Some? ==>
            policy.digest(At(upper, key).value.hash.value))
  }

  /** A layer's own delta passes every check against that layer: the evidence is what was scanned. */
  lemma OwnDeltaIsAdmissible(upper: Node, policy: Policy, ms: seq<Mutation>, i: nat)
    requires upper.Folder? && Supported(upper) && IsDelta(upper, ms) && Accepts(policy, upper) && i < |ms|
    ensures Admissible(upper, ms[i], policy)
  {
    assert Recorded(upper, ms[i]);
    var key: Key :| EntryAt(upper, "", key, ms[i]);
    PresentIsNamed(upper, key);
    SupportedKeysAreGood(upper, key);
    FindIsAt(upper, key);
    hide At, PathOf, Find, IsDelta, Supported;
  }

  lemma OnlyEntry(upper: Node, n: Node, key: Key)
    requires upper == Folder(Plain, map["a" := n]) && !n.Folder? && At(upper, key).Some?
    ensures key == ["a"]
  {
  }

  /**
   The excluded case is real: the workspace replaces a directory by a file that
   the snapshot excludes, and the fold keeps what the base tree had below it.
   */
  lemma ExcludedFileKeepsTree(file: ProjectFile)
    ensures var upper := Folder(Plain, map["a" := Regular(0, 0, Some(""))]);
            var base := map["a/b" := file];
            var included := (path: string) => path != "a";
            var ms := [Mutation("a", UpsertRegular, Some(0x1a4), Some(0), Some(""))];
            && IsDelta(upper, ms) && Get(Fold(base, ms, included), "a/b") == Some(file)
            && Overlay(upper, base, included, ["a", "b"]) == None
  {
    var n := Regular(0, 0, Some(""));
    var upper := Folder(Plain, map["a" := n]);
    var m := Mutation("a", UpsertRegular, Some(0x1a4), Some(0), Some(""));
    var a: Key := ["a"];
    assert At(upper, a) == Some(n);
    OwnEntry(upper, "", "a", m);
    forall x ensures x in [m] <==> Recorded(upper, x) {
      if Recorded(upper, x) {
        var key: Key :| EntryAt(upper, "", key, x);
        OnlyEntry(upper, n, key);
        DescribedOnce(x, m, PathOf("", a), n);
      }
    }
    var key: Key := ["a", "b"];
    assert key[..1] == a && key[1..] == ["b"];
    assert At(upper, key) == At(n, key[1..]) == None;
    assert Shadowed(upper, key) by { assert At(upper, key[..1]).Some? && Shadows(At(upper, key[..1]).value); }
    assert [m][..0] == [];
  }
}
