/** The overlay delta scan: an upper-layer tree becomes a path-sorted list of workspace mutations. */
module OverlayScan {
  import opened Prelude
  import opened Ordering

  /** A directory entry name; the filesystem never yields an empty one. */
  type Name = s: string | s != [] witness "a"

  /** Whether the directory hides the lower layer. */
  datatype Marker = Covering | Plain | Unknown

  /**
   An upper-layer entry as the scan observes it.  A missing hash or an unknown
   marker stands for a file or a directory whose reading was refused.
   */
  datatype Node =
    | Regular(mode: nat, size: nat, hash: Option<string>)
    | Folder(marker: Marker, children: map<Name, Node>)
    | Whiteout
    | Unsupported

  datatype Kind = DeletePath | EnsureDirectory | OpaqueDirectory | UpsertRegular

  datatype Mutation = Mutation(
    path: string, kind: Kind, normalizedMode: Option<nat>, size: Option<nat>, contentHash: Option<string>)

  const MAX_WORKSPACE_MUTATIONS: nat := 100_000

  predicate GoodName(name: string) {
    name != "." && name != ".." && '/' !in name && '\0' !in name
  }

  function Join(prefix: string, name: string): string {
    if prefix == [] then name else prefix + "/" + name
  }

  /** Any of the three execute bits. */
  predicate Executable(mode: nat) {
    mode % 2 == 1 || mode / 8 % 2 == 1 || mode / 64 % 2 == 1
  }

  function NormalMode(mode: nat): nat {
    if Executable(mode) then 0x1ed else 0x1a4
  }

  /** Everything at and below the entry can be recorded. */
  predicate Readable(n: Node) {
    match n
    case Regular(_, _, hash) => hash.Some?
    case Folder(marker, children) =>
      !marker.Unknown? && forall name | name in children :: GoodName(name) && Readable(children[name])
    case Whiteout => true
    case Unsupported => false
  }

  /** Everything below the scanned directory can be recorded. */
  predicate Supported(dir: Node)
    requires dir.Folder?
  {
    forall name | name in dir.children :: GoodName(name) && Readable(dir.children[name])
  }

  /** The mutation says what the entry at this path is. */
  predicate Describes(m: Mutation, path: string, n: Node) {
    && m.path == path
    && match n
       case Regular(mode, size, hash) =>
         && m.kind == UpsertRegular && m.normalizedMode == Some(NormalMode(mode))
         && m.size == Some(size) && hash.Some? && m.contentHash == hash
       case Folder(marker, _) =>
         && !marker.Unknown? && (m.kind == OpaqueDirectory <==> marker.Covering?)
         && (m.kind == EnsureDirectory <==> marker.Plain?)
         && m.normalizedMode.None? && m.size.None? && m.contentHash.None?
       case Whiteout => m.kind == DeletePath && m.normalizedMode.None? && m.size.None? && m.contentHash.None?
       case Unsupported => false
  }

  // ----- The tree by component paths, independent of the scan -----

  type Key = seq<Name>

  function At(dir: Node, key: Key): Option<Node>
    decreases |key|
  {
    if key == [] || !dir.Folder? || key[0] !in dir.children then None
    else if |key| == 1 then Some(dir.children[key[0]])
    else At(dir.children[key[0]], key[1..])
  }

  function PathOf(prefix: string, key: Key): string
    decreases |key|
  {
    if key == [] then prefix else PathOf(Join(prefix, key[0]), key[1..])
  }

  predicate Distinct<T(==)>(s: seq<T>) {
    forall i, j | 0 <= i < j < |s| :: s[i] != s[j]
  }

  predicate EntryAt(dir: Node, prefix: string, key: Key, m: Mutation) {
    At(dir, key).Some? && Describes(m, PathOf(prefix, key), At(dir, key).value)
  }

  /** Entry `keys[i]`, of one of the names, is recorded at position i. */
  predicate Faithful(dir: Node, prefix: string, names: set<Name>, keys: seq<Key>, ms: seq<Mutation>) {
    && |keys| == |ms|
    && forall i | 0 <= i < |keys| :: keys[i] != [] && keys[i][0] in names && EntryAt(dir, prefix, keys[i], ms[i])
  }

  /** No entry below the names is missing. */
  ghost predicate Complete(dir: Node, names: set<Name>, keys: seq<Key>) {
    forall key: Key | key != [] && key[0] in names && At(dir, key).Some? :: key in keys
  }

  /** `ms` records exactly the entries below the names, one each. */
  ghost predicate Records(dir: Node, prefix: string, names: set<Name>, keys: seq<Key>, ms: seq<Mutation>) {
    Faithful(dir, prefix, names, keys, ms) && Distinct(keys) && Complete(dir, names, keys)
  }

  function Names(dir: Node): set<Name> {
    if dir.Folder? then dir.children.Keys else {}
  }

  function Under(name: Name, keys: seq<Key>): (r: seq<Key>)
    ensures |r| == |keys| && forall i | 0 <= i < |r| :: r[i] == [name] + keys[i]
  {
    seq(|keys|, i requires 0 <= i < |keys| => [name] + keys[i])
  }

  lemma RecordsAppend(dir: Node, prefix: string, names: set<Name>, name: Name,
                      keys: seq<Key>, ms: seq<Mutation>, more: seq<Key>, added: seq<Mutation>)
    requires Records(dir, prefix, names, keys, ms) && Records(dir, prefix, {name}, more, added) && name !in names
    ensures Records(dir, prefix, names + {name}, keys + more, ms + added)
  {
    hide Distinct, Complete, Faithful;
    FaithfulAppend(dir, prefix, names, name, keys, ms, more, added);
    DistinctAppend(names, name, keys, more);
    CompleteAppend(dir, names, name, keys, more);
  }

  lemma FaithfulAppend(dir: Node, prefix: string, names: set<Name>, name: Name,
                       keys: seq<Key>, ms: seq<Mutation>, more: seq<Key>, added: seq<Mutation>)
    requires Faithful(dir, prefix, names, keys, ms) && Faithful(dir, prefix, {name}, more, added)
    ensures Faithful(dir, prefix, names + {name}, keys + more, ms + added)
    ensures forall i | 0 <= i < |keys| :: keys[i] != [] && keys[i][0] in names
    ensures forall i | 0 <= i < |more| :: more[i] != [] && more[i][0] == name
  {
    hide EntryAt;
    var ks, all := keys + more, ms + added;
    forall i | 0 <= i < |ks| ensures ks[i] != [] && ks[i][0] in names + {name} && EntryAt(dir, prefix, ks[i], all[i]) {
      if i < |keys| {
        assert ks[i] == keys[i] && all[i] == ms[i];
      } else {
        assert ks[i] == more[i - |keys|] && all[i] == added[i - |keys|];
      }
    }
  }

  lemma DistinctAppend(names: set<Name>, name: Name, keys: seq<Key>, more: seq<Key>)
    requires Distinct(keys) && Distinct(more) && name !in names
    requires forall i | 0 <= i < |keys| :: keys[i] != [] && keys[i][0] in names
    requires forall i | 0 <= i < |more| :: more[i] != [] && more[i][0] == name
    ensures Distinct(keys + more)
  {
    var ks := keys + more;
    forall i, j | 0 <= i < j < |ks| ensures ks[i] != ks[j] {
      if i < |keys| <= j { assert ks[i][0] in names && ks[j][0] == name; }
    }
  }

  lemma CompleteAppend(dir: Node, names: set<Name>, name: Name, keys: seq<Key>, more: seq<Key>)
    requires Complete(dir, names, keys) && Complete(dir, {name}, more)
    ensures Complete(dir, names + {name}, keys + more)
  {
    hide At;
    forall key: Key | key != [] && key[0] in names + {name} && At(dir, key).Some? ensures key in keys + more {
      if key[0] in names { assert key in keys; } else { assert key in more; }
    }
  }

  lemma OwnEntry(dir: Node, prefix: string, name: Name, m: Mutation)
    requires dir.Folder? && name in dir.children && Describes(m, Join(prefix, name), dir.children[name])
    ensures EntryAt(dir, prefix, [name], m)
  {
    var key: Key := [name];
    assert key[1..] == [];
    assert PathOf(prefix, key) == PathOf(Join(prefix, name), key[1..]) == Join(prefix, name);
  }

  lemma RecordsLeaf(dir: Node, prefix: string, name: Name, m: Mutation)
    requires dir.Folder? && name in dir.children && !dir.children[name].Folder?
    requires Describes(m, Join(prefix, name), dir.children[name])
    ensures Records(dir, prefix, {name}, [[name]], [m])
  {
    OwnEntry(dir, prefix, name, m);
    forall key: Key | key != [] && key[0] in {name} && At(dir, key).Some? ensures key == [name] {
      if |key| > 1 { assert At(dir.children[name], key[1..]).None?; }
    }
  }

  lemma BelowIsFaithful(dir: Node, prefix: string, name: Name, key: Key, m: Mutation)
    requires dir.Folder? && name in dir.children && key != []
    requires EntryAt(dir.children[name], Join(prefix, name), key, m)
    ensures EntryAt(dir, prefix, [name] + key, m)
  {
    assert ([name] + key)[1..] == key;
  }

  lemma RecordsFolder(dir: Node, prefix: string, name: Name, own: Mutation, keys: seq<Key>, ms: seq<Mutation>)
    requires dir.Folder? && name in dir.children && Describes(own, Join(prefix, name), dir.children[name])
    requires Records(dir.children[name], Join(prefix, name), Names(dir.children[name]), keys, ms)
    ensures Records(dir, prefix, {name}, [[name]] + Under(name, keys), [own] + ms)
  {
    FolderIsFaithful(dir, prefix, name, own, keys, ms);
    FolderIsComplete(dir, name, keys);
    assert forall i | 0 <= i < |keys| :: keys[i] != [];
    hide Faithful, Complete;
    FolderIsDistinct(name, keys);
  }

  lemma FolderIsDistinct(name: Name, keys: seq<Key>)
    requires Distinct(keys) && forall i | 0 <= i < |keys| :: keys[i] != []
    ensures Distinct([[name]] + Under(name, keys))
  {
    var ks := [[name]] + Under(name, keys);
    forall i, j | 0 <= i < j < |ks| ensures ks[i] != ks[j] {
      assert ks[j] == [name] + keys[j - 1] && ks[j][1..] == keys[j - 1];
      if i > 0 { assert ks[i] == [name] + keys[i - 1] && ks[i][1..] == keys[i - 1]; }
    }
  }

  lemma FolderIsComplete(dir: Node, name: Name, keys: seq<Key>)
    requires dir.Folder? && name in dir.children && Complete(dir.children[name], Names(dir.children[name]), keys)
    ensures Complete(dir, {name}, [[name]] + Under(name, keys))
  {
    var ks, child := [[name]] + Under(name, keys), dir.children[name];
    forall key: Key | key != [] && key[0] in {name} && At(dir, key).Some? ensures key in ks {
      if |key| == 1 {
        assert key == ks[0];
      } else {
        var rest := key[1..];
        assert At(child, rest).Some? && rest != [] && rest[0] in Names(child);
        assert rest in keys;
        var i :| 0 <= i < |keys| && keys[i] == rest;
        assert ks[i + 1] == [name] + keys[i] && key == [name] + rest;
      }
    }
  }

  lemma FolderIsFaithful(dir: Node, prefix: string, name: Name, own: Mutation, keys: seq<Key>, ms: seq<Mutation>)
    requires dir.Folder? && name in dir.children && Describes(own, Join(prefix, name), dir.children[name])
    requires Faithful(dir.children[name], Join(prefix, name), Names(dir.children[name]), keys, ms)
    ensures Faithful(dir, prefix, {name}, [[name]] + Under(name, keys), [own] + ms)
  {
    var ks, all := [[name]] + Under(name, keys), [own] + ms;
    OwnEntry(dir, prefix, name, own);
    hide EntryAt;
    forall i | 0 <= i < |ks| ensures ks[i] != [] && ks[i][0] in {name} && EntryAt(dir, prefix, ks[i], all[i]) {
      if i > 0 { BelowIsFaithful(dir, prefix, name, keys[i - 1], ms[i - 1]); }
    }
  }

  // ----- The scan -----

  class Scanner {
    var mutations: seq<Mutation>

    constructor ()
      ensures mutations == []
    {
      mutations := [];
    }

    /** `scan_workspace_directory`: appends every entry below `dir`, or fails on the first unsupported one. */
    method ScanDirectory(dir: Node, prefix: string) returns (ok: bool, ghost keys: seq<Key>)
      requires dir.Folder?
      modifies this
      ensures old(mutations) <= mutations
      ensures ok <==> Supported(dir)
      ensures ok ==> Records(dir, prefix, Names(dir), keys, mutations[|old(mutations)|..])
      decreases dir, 1
    {
      hide Records, Readable, GoodName;
      keys := [];
      var names := Sorted(dir.children.Keys);
      var k := 0;
      ghost var start, done: set<Name> := |mutations|, {};
      NothingRecorded(dir, prefix);
      assert mutations[start..] == [];
      while k < |names|
        invariant k <= |names| && old(mutations) <= mutations && start == |old(mutations)|
        invariant forall n: Name :: n in done <==> n in names[..k]
        invariant forall n: Name | n in done :: n in dir.children && GoodName(n) && Readable(dir.children[n])
        invariant Records(dir, prefix, done, keys, mutations[start..])
      {
        assert names[k] in dir.children.Keys;
        var name: Name := names[k];
        assert name !in done by { NotYet(names, k); }
        ghost var before := mutations;
        ghost var more;
        ok, more := ScanEntry(dir, prefix, name);
        if !ok { return; }
        RecordsAppend(dir, prefix, done, name, keys, before[start..], more, mutations[|before|..]);
        assert mutations[start..] == before[start..] + mutations[|before|..];
        keys := keys + more;
        assert names[..k + 1] == names[..k] + [name];
        done := done + {name};
        k := k + 1;
      }
      assert names[..|names|] == names;
      assert done == Names(dir);
      ok := true;
    }

    /** One entry: its own mutation first, then, for a directory, everything below it. */
    method ScanEntry(dir: Node, prefix: string, name: Name) returns (ok: bool, ghost keys: seq<Key>)
      requires dir.Folder? && name in dir.children
      modifies this
      ensures old(mutations) <= mutations
      ensures ok <==> GoodName(name) && Readable(dir.children[name])
      ensures ok ==> Records(dir, prefix, {name}, keys, mutations[|old(mutations)|..])
      decreases dir, 0
    {
      hide Records, GoodName;
      keys := [];
      if !GoodName(name) { return false, keys; }
      var relative := Join(prefix, name);
      match dir.children[name] {
        case Regular(mode, size, hash) =>
          if hash.None? { return false, keys; }
          mutations := mutations + [Mutation(relative, UpsertRegular, Some(NormalMode(mode)), Some(size), hash)];
          RecordsLeaf(dir, prefix, name, mutations[|old(mutations)|]);
          assert mutations[|old(mutations)|..] == [mutations[|old(mutations)|]];
          return true, [[name]];
        case Folder(marker, children) =>
          if marker.Unknown? { return false, keys; }
          mutations := mutations + [Mutation(relative, if marker.Covering? then OpaqueDirectory else EnsureDirectory,
              None, None, None)];
          ghost var own := mutations[|old(mutations)|];
          ghost var below;
          ok, below := ScanDirectory(dir.children[name], relative);
          if ok {
            ghost var found := mutations[|old(mutations)| + 1..];
            assert mutations[|old(mutations)|..] == [own] + found;
            RecordsFolder(dir, prefix, name, own, below, found);
            keys := [[name]] + Under(name, below);
          }
        case Whiteout =>
          mutations := mutations + [Mutation(relative, DeletePath, None, None, None)];
          RecordsLeaf(dir, prefix, name, mutations[|old(mutations)|]);
          assert mutations[|old(mutations)|..] == [mutations[|old(mutations)|]];
          return true, [[name]];
        case Unsupported => return false, keys;
      }
    }
  }

  lemma NothingRecorded(dir: Node, prefix: string)
    ensures Records(dir, prefix, {}, [], [])
  {
  }

  lemma NotYet(names: seq<string>, k: nat)
    requires StrictlySorted(names) && k < |names|
    ensures names[k] !in names[..k]
  {
    forall i | 0 <= i < k ensures names[i] != names[k] {
      if names[i] == names[k] { LessIrreflexive(names[k]); }
    }
  }

  // ----- Paths -----

  /** What a key adds to a non-empty prefix. */
  function Suffix(key: Key): string {
    if key == [] then "" else "/" + key[0] + Suffix(key[1..])
  }

  lemma {:induction false} PathIsPrefixPlusSuffix(prefix: string, key: Key)
    requires prefix != []
    ensures PathOf(prefix, key) == prefix + Suffix(key)
    decreases |key|
  {
    if key != [] { PathIsPrefixPlusSuffix(Join(prefix, key[0]), key[1..]); }
  }

  lemma PathShape(key: Key)
    requires key != []
    ensures PathOf("", key) == key[0] + Suffix(key[1..])
  {
    PathIsPrefixPlusSuffix(key[0], key[1..]);
  }

  predicate GoodKey(key: Key) {
    forall i | 0 <= i < |key| :: '/' !in key[i]
  }

  function FirstSlash(s: string): nat {
    if s == [] || s[0] == '/' then 0 else 1 + FirstSlash(s[1..])
  }

  lemma {:induction false} FirstSlashAfter(a: string, x: string)
    requires '/' !in a && (x == "" || x[0] == '/')
    ensures FirstSlash(a + x) == |a|
  {
    if a == [] {
      assert a + x == x;
    } else {
      FirstSlashAfter(a[1..], x);
      assert (a + x)[1..] == a[1..] + x && (a + x)[0] == a[0] && a[0] in a;
    }
  }

  /** Two names followed by a suffix that starts with a slash split the same way. */
  lemma SplitFirst(a: string, b: string, x: string, y: string)
    requires '/' !in a && '/' !in b && a + x == b + y
    requires (x == "" || x[0] == '/') && (y == "" || y[0] == '/')
    ensures a == b && x == y
  {
    FirstSlashAfter(a, x);
    FirstSlashAfter(b, y);
    assert a == (a + x)[..|a|] && b == (b + y)[..|b|] && x == (a + x)[|a|..] && y == (b + y)[|b|..];
  }

  lemma {:induction false} SuffixInjective(a: Key, b: Key)
    requires GoodKey(a) && GoodKey(b) && Suffix(a) == Suffix(b)
    ensures a == b
    decreases |a|
  {
    if a != [] && b != [] {
      var x, y := Suffix(a[1..]), Suffix(b[1..]);
      assert a[0] + x == Suffix(a)[1..] && b[0] + y == Suffix(b)[1..];
      SplitFirst(a[0], b[0], x, y);
      SuffixInjective(a[1..], b[1..]);
      assert a == [a[0]] + a[1..] && b == [b[0]] + b[1..];
    }
  }

  /** Different entries have different paths. */
  lemma PathInjective(a: Key, b: Key)
    requires a != [] && b != [] && GoodKey(a) && GoodKey(b) && PathOf("", a) == PathOf("", b)
    ensures a == b
  {
    PathShape(a);
    PathShape(b);
    SplitFirst(a[0], b[0], Suffix(a[1..]), Suffix(b[1..]));
    SuffixInjective(a[1..], b[1..]);
    assert a == [a[0]] + a[1..] && b == [b[0]] + b[1..];
  }

  lemma {:induction false} SuffixAppend(a: Key, b: Key)
    ensures Suffix(a + b) == Suffix(a) + Suffix(b)
  {
    if a == [] {
      assert a + b == b;
    } else {
      SuffixAppend(a[1..], b);
      assert (a + b)[1..] == a[1..] + b;
    }
  }

  lemma PathGrows(a: Key, b: Key)
    requires a != []
    ensures PathOf("", a + b) == PathOf("", a) + Suffix(b)
  {
    PathShape(a);
    PathShape(a + b);
    hide PathOf, Suffix;
    assert (a + b)[1..] == a[1..] + b && (a + b)[0] == a[0];
    SuffixAppend(a[1..], b);
  }

  /** A directory's path sorts before the path of everything below it. */
  lemma AncestorSortsFirst(a: Key, b: Key)
    requires a != [] && b != []
    ensures Less(PathOf("", a), PathOf("", a + b))
  {
    PathGrows(a, b);
    assert Suffix(b) != [];
    hide *;
    PrefixIsLess(PathOf("", a), Suffix(b));
  }

  lemma {:induction false} SupportedKeysAreGood(dir: Node, key: Key)
    requires dir.Folder? && Supported(dir) && At(dir, key).Some?
    ensures GoodKey(key) && Readable(At(dir, key).value)
    decreases |key|
  {
    if |key| > 1 {
      SupportedKeysAreGood(dir.children[key[0]], key[1..]);
      assert key == [key[0]] + key[1..];
    }
  }
}
