/** The sorted workspace delta, and why it loses nothing of the tree. */
module OverlayDelta {
  import opened Prelude
  import opened Ordering
  import opened OverlayScan

  // ----- Sorting -----

  function KindRank(k: Kind): nat {
    match k
    case DeletePath => 0
    case EnsureDirectory => 1
    case OpaqueDirectory => 2
    case UpsertRegular => 3
  }

  /** By path, then by the kind's name. */
  predicate Before(a: Mutation, b: Mutation) {
    Less(a.path, b.path) || (a.path == b.path && KindRank(a.kind) <= KindRank(b.kind))
  }

  lemma BeforeTransitive(a: Mutation, b: Mutation, c: Mutation)
    requires Before(a, b) && Before(b, c)
    ensures Before(a, c)
  {
    hide Less;
    if Less(a.path, b.path) && Less(b.path, c.path) { LessTransitive(a.path, b.path, c.path); }
  }

  lemma BeforeTotal(a: Mutation, b: Mutation)
    ensures Before(a, b) || Before(b, a)
  {
    hide Less;
    LessTotal(a.path, b.path);
  }

  predicate InOrder(ms: seq<Mutation>) {
    forall i, j | 0 <= i < j < |ms| :: Before(ms[i], ms[j])
  }

  /** `perm` lists each index below n exactly once. */
  predicate Permutation(perm: seq<nat>, n: nat) {
    |perm| == n && Distinct(perm) && (forall i | 0 <= i < n :: perm[i] < n) && forall k | 0 <= k < n :: k in perm
  }

  predicate Rearranges(r: seq<Mutation>, ms: seq<Mutation>, perm: seq<nat>) {
    |r| == |ms| && Permutation(perm, |ms|) && forall i | 0 <= i < |r| :: r[i] == ms[perm[i]]
  }

  method Insert(sorted: seq<Mutation>, x: Mutation) returns (r: seq<Mutation>, at: nat)
    requires InOrder(sorted)
    ensures at <= |sorted| && r == sorted[..at] + [x] + sorted[at..] && InOrder(r)
  {
    hide Before;
    at := |sorted|;
    while at > 0 && !Before(sorted[at - 1], x)
      invariant at <= |sorted| && forall i | at <= i < |sorted| :: Before(x, sorted[i])
    {
      BeforeTotal(sorted[at - 1], x);
      at := at - 1;
    }
    r := sorted[..at] + [x] + sorted[at..];
    forall i | 0 <= i < at ensures Before(sorted[i], x) {
      if i < at - 1 { BeforeTransitive(sorted[i], sorted[at - 1], x); }
    }
  }

  lemma InsertIndex(perm: seq<nat>, at: nat, n: nat)
    requires Permutation(perm, n) && at <= n
    ensures Permutation(perm[..at] + [n] + perm[at..], n + 1)
  {
    var p := perm[..at] + [n] + perm[at..];
    forall k | 0 <= k < n + 1 ensures k in p {
      if k == n {
        assert p[at] == n;
      } else {
        assert k in perm;
        var i :| 0 <= i < n && perm[i] == k;
        assert p[if i < at then i else i + 1] == k;
      }
    }
  }

  method SortByPath(ms: seq<Mutation>) returns (r: seq<Mutation>, ghost perm: seq<nat>)
    ensures InOrder(r) && Rearranges(r, ms, perm)
  {
    hide Before;
    r, perm := [], [];
    for k := 0 to |ms|
      invariant InOrder(r) && Rearranges(r, ms[..k], perm)
    {
      var at;
      ghost var was := r;
      r, at := Insert(r, ms[k]);
      InsertIndex(perm, at, k);
      ghost var grown := perm[..at] + [k] + perm[at..];
      forall i | 0 <= i < |r| ensures r[i] == ms[..k + 1][grown[i]] {
        if i < at { assert r[i] == was[i]; } else if i > at { assert r[i] == was[i - 1]; }
      }
      perm := grown;
    }
    assert ms[..|ms|] == ms;
  }

  // ----- The delta -----

  /** The list holds exactly the tree's entries, in strictly increasing path order. */
  ghost predicate IsDelta(dir: Node, r: seq<Mutation>) {
    && (forall i, j | 0 <= i < j < |r| :: Less(r[i].path, r[j].path))
    && (forall m :: m in r <==> Recorded(dir, m))
  }

  /** The mutation records some entry of the tree. */
  ghost predicate Recorded(dir: Node, m: Mutation) {
    exists key: Key :: EntryAt(dir, "", key, m)
  }

  predicate AllPresent(dir: Node, keys: seq<Key>) {
    forall i | 0 <= i < |keys| :: At(dir, keys[i]).Some?
  }

  /** The tree has more entries than one delta may carry. */
  ghost predicate TooMany(dir: Node) {
    exists keys: seq<Key> :: Distinct(keys) && AllPresent(dir, keys) && |keys| > MAX_WORKSPACE_MUTATIONS
  }

  lemma {:induction false} DistinctCount<T>(s: seq<T>, all: set<T>)
    requires Distinct(s) && forall x | x in s :: x in all
    ensures |s| <= |all|
  {
    if s != [] {
      var x := s[|s| - 1];
      forall y | y in s[..|s| - 1] ensures y in all - {x} {
        var i :| 0 <= i < |s| - 1 && s[i] == y;
      }
      DistinctCount(s[..|s| - 1], all - {x});
    }
  }

  lemma {:induction false} ElementsCount<T>(s: seq<T>)
    ensures |set x | x in s| <= |s|
  {
    if s == [] {
      assert (set x | x in s) == {};
    } else {
      var t := s[..|s| - 1];
      ElementsCount(t);
      assert s == t + [s[|s| - 1]];
      assert (set x | x in s) == (set x | x in t) + {s[|s| - 1]};
    }
  }

  /** A complete listing counts the entries. */
  lemma CountsEntries(dir: Node, keys: seq<Key>)
    requires Distinct(keys) && AllPresent(dir, keys) && Complete(dir, Names(dir), keys)
    ensures TooMany(dir) <==> |keys| > MAX_WORKSPACE_MUTATIONS
  {
    if TooMany(dir) {
      var more: seq<Key> :| Distinct(more) && AllPresent(dir, more) && |more| > MAX_WORKSPACE_MUTATIONS;
      var all := set key | key in keys;
      forall key | key in more ensures key in all {
        PresentIsNamed(dir, key);
      }
      DistinctCount(more, all);
      ElementsCount(keys);
    }
  }

  lemma PresentIsNamed(dir: Node, key: Key)
    requires At(dir, key).Some?
    ensures key != [] && key[0] in Names(dir)
  {
  }

  lemma DistinctPaths(dir: Node, keys: seq<Key>, ms: seq<Mutation>, i: nat, j: nat)
    requires dir.Folder? && Supported(dir) && Records(dir, "", Names(dir), keys, ms) && i < |ms| && j < |ms| && i != j
    ensures ms[i].path != ms[j].path
  {
    SupportedKeysAreGood(dir, keys[i]);
    SupportedKeysAreGood(dir, keys[j]);
    assert ms[i].path == PathOf("", keys[i]) && ms[j].path == PathOf("", keys[j]);
    if PathOf("", keys[i]) == PathOf("", keys[j]) {
      PathInjective(keys[i], keys[j]);
    }
  }

  lemma SortedIsDelta(dir: Node, keys: seq<Key>, ms: seq<Mutation>, r: seq<Mutation>, perm: seq<nat>)
    requires dir.Folder? && Supported(dir) && Records(dir, "", Names(dir), keys, ms)
    requires InOrder(r) && Rearranges(r, ms, perm)
    ensures IsDelta(dir, r)
  {
    forall i, j | 0 <= i < j < |r| ensures Less(r[i].path, r[j].path) {
      assert Before(r[i], r[j]);
      assert perm[i] != perm[j];
      DistinctPaths(dir, keys, ms, perm[i], perm[j]);
    }
    hide Records, InOrder, Supported;
    forall m ensures m in r <==> Recorded(dir, m) { SortedRecords(dir, keys, ms, r, perm, m); }
  }

  /** Only one mutation describes an entry. */
  lemma DescribedOnce(a: Mutation, b: Mutation, path: string, n: Node)
    requires Describes(a, path, n) && Describes(b, path, n)
    ensures a == b
  {
  }

  lemma SortedRecords(dir: Node, keys: seq<Key>, ms: seq<Mutation>, r: seq<Mutation>, perm: seq<nat>, m: Mutation)
    requires Records(dir, "", Names(dir), keys, ms) && Rearranges(r, ms, perm)
    ensures m in r <==> Recorded(dir, m)
  {
    hide At, PathOf, Describes;
    if m in r {
      var i :| 0 <= i < |r| && r[i] == m;
      assert EntryAt(dir, "", keys[perm[i]], m);
    }
    if Recorded(dir, m) {
      var key: Key :| EntryAt(dir, "", key, m);
      PresentIsNamed(dir, key);
      var k :| 0 <= k < |keys| && keys[k] == key;
      assert EntryAt(dir, "", keys[k], ms[k]);
      DescribedOnce(ms[k], m, PathOf("", key), At(dir, key).value);
      assert k in perm;
      var i :| 0 <= i < |perm| && perm[i] == k;
      assert r[i] == m;
    }
  }

  /** What a mutation tells about the entry it stands for, kind by kind. */
  predicate Tells(m: Mutation, n: Node) {
    && (m.kind == DeletePath <==> n == Whiteout)
    && (m.kind == OpaqueDirectory <==> n.Folder? && n.marker == Covering)
    && (m.kind == EnsureDirectory <==> n.Folder? && n.marker == Plain)
    && (m.kind == UpsertRegular <==> n.Regular?)
    && (n.Regular? ==>
          && m.size == Some(n.size) && m.contentHash == n.hash
          && m.normalizedMode ==
             Some(if n.mode / 64 % 2 == 1 || n.mode / 8 % 2 == 1 || n.mode % 2 == 1 then 0x1ed else 0x1a4))
  }

  /** The mutation stands at the entry's path and tells what the entry is. */
  predicate TellsAt(dir: Node, key: Key, m: Mutation) {
    At(dir, key).Some? && m.path == PathOf("", key) && Tells(m, At(dir, key).value)
  }

  /** Every entry has its mutation in the list. */
  ghost predicate TellsAll(dir: Node, r: seq<Mutation>) {
    forall key: Key | At(dir, key).Some? :: exists m :: m in r && TellsAt(dir, key, m)
  }

  /** Every mutation in the list has its entry. */
  ghost predicate TellsOnly(dir: Node, r: seq<Mutation>) {
    forall m | m in r :: exists key: Key :: TellsAt(dir, key, m)
  }

  /** The mutation of a readable entry. */
  ghost function Record(path: string, n: Node): (m: Mutation)
    requires Readable(n)
    ensures Describes(m, path, n)
  {
    match n
    case Regular(mode, size, hash) => Mutation(path, UpsertRegular, Some(NormalMode(mode)), Some(size), hash)
    case Folder(marker, _) =>
      Mutation(path, if marker.Covering? then OpaqueDirectory else EnsureDirectory, None, None, None)
    case Whiteout => Mutation(path, DeletePath, None, None, None)
  }

  lemma EntryTells(dir: Node, key: Key, m: Mutation)
    requires EntryAt(dir, "", key, m)
    ensures TellsAt(dir, key, m)
  {
    hide At, PathOf;
  }

  lemma DeltaTells(dir: Node, r: seq<Mutation>)
    requires dir.Folder? && Supported(dir) && IsDelta(dir, r)
    ensures TellsAll(dir, r) && TellsOnly(dir, r)
  {
    hide At, PathOf, Supported, Describes, TellsAt;
    forall key: Key | At(dir, key).Some? ensures exists m :: m in r && TellsAt(dir, key, m) {
      SupportedKeysAreGood(dir, key);
      var m := Record(PathOf("", key), At(dir, key).value);
      assert EntryAt(dir, "", key, m);
      assert Recorded(dir, m);
      EntryTells(dir, key, m);
    }
    forall m | m in r ensures exists key: Key :: TellsAt(dir, key, m) {
      assert Recorded(dir, m);
      var key: Key :| EntryAt(dir, "", key, m);
      EntryTells(dir, key, m);
    }
  }

  /** `scan_workspace_upper`: the delta, exactly when every entry is supported and they are not too many. */
  method ScanWorkspaceUpper(dir: Node) returns (delta: Option<seq<Mutation>>)
    requires dir.Folder?
    ensures delta.Some? <==> Supported(dir) && !TooMany(dir)
    ensures delta.Some? ==> IsDelta(dir, delta.value) && |delta.value| <= MAX_WORKSPACE_MUTATIONS
    ensures delta.Some? ==> TellsAll(dir, delta.value) && TellsOnly(dir, delta.value)
  {
    hide IsDelta, TooMany, Supported, TellsAll, TellsOnly;
    var scanner := new Scanner();
    var ok; ghost var keys;
    ok, keys := scanner.ScanDirectory(dir, "");
    if !ok { return None; }
    var ms := scanner.mutations;
    assert ms[0..] == ms;
    var r; ghost var perm;
    r, perm := SortByPath(ms);
    SortedIsDelta(dir, keys, ms, r, perm);
    DeltaTells(dir, r);
    AllRecordedPresent(dir, keys, ms);
    CountsEntries(dir, keys);
    if |r| > MAX_WORKSPACE_MUTATIONS { return None; }
    return Some(r);
  }

  lemma AllRecordedPresent(dir: Node, keys: seq<Key>, ms: seq<Mutation>)
    requires Records(dir, "", Names(dir), keys, ms)
    ensures AllPresent(dir, keys) && Distinct(keys) && Complete(dir, Names(dir), keys) && |keys| == |ms|
  {
  }

  // ----- What the delta says about the tree -----

  /** Each directory is listed before everything below it. */
  lemma AncestorsFirst(dir: Node, r: seq<Mutation>, key: Key, below: Key, i: nat, j: nat)
    requires IsDelta(dir, r) && key != [] && below != [] && i < |r| && j < |r|
    requires r[i].path == PathOf("", key) && r[j].path == PathOf("", key + below)
    ensures i < j
  {
    hide PathOf, Recorded;
    AncestorSortsFirst(key, below);
    LessIrreflexive(r[i].path);
    if j < i { LessTransitive(r[j].path, r[i].path, r[j].path); LessIrreflexive(r[j].path); }
  }

  /** Looking a path up in the list is looking the entry up in the tree. */
  lemma LookupAgrees(dir: Node, r: seq<Mutation>, key: Key, m: Mutation)
    requires dir.Folder? && Supported(dir) && IsDelta(dir, r) && key != [] && GoodKey(key)
    ensures m in r && m.path == PathOf("", key) <==> EntryAt(dir, "", key, m)
  {
    hide PathOf, At;
    if m in r && m.path == PathOf("", key) {
      var other: Key :| EntryAt(dir, "", other, m);
      PresentIsNamed(dir, other);
      SupportedKeysAreGood(dir, other);
      assert m.path == PathOf("", other) by { hide *; PathOfMutation(dir, other, m); }
      PathInjective(other, key);
    }
    if EntryAt(dir, "", key, m) { assert Recorded(dir, m); PathOfMutation(dir, key, m); }
  }

  lemma PathOfMutation(dir: Node, key: Key, m: Mutation)
    requires EntryAt(dir, "", key, m)
    ensures m.path == PathOf("", key)
  {
  }

  /** The tree with file modes reduced to the two the delta records. */
  function Normal(n: Node): Node {
    match n
    case Regular(mode, size, hash) => Regular(NormalMode(mode), size, hash)
    case Folder(marker, children) => Folder(marker, map name | name in children :: Normal(children[name]))
    case Whiteout => Whiteout
    case Unsupported => Unsupported
  }

  /** The two trees have entries under the same keys, recorded alike. */
  ghost predicate SameEntries(a: Node, b: Node) {
    forall key: Key | key != [] :: SameAt(a, b, key)
  }

  /** One mutation describes both. */
  ghost predicate SameRecord(x: Node, y: Node) {
    exists m: Mutation :: Describes(m, m.path, x) && Describes(m, m.path, y)
  }

  ghost predicate SameAt(a: Node, b: Node, key: Key) {
    && (At(a, key).Some? <==> At(b, key).Some?)
    && (At(a, key).Some? ==>
          && Readable(At(a, key).value) && Readable(At(b, key).value)
          && SameRecord(At(a, key).value, At(b, key).value))
  }

  lemma {:induction false} SameEntriesSameTree(a: Node, b: Node)
    requires a.Folder? && b.Folder? && SameEntries(a, b)
    ensures Normal(a).children == Normal(b).children
    decreases a
  {
    forall name: Name ensures name in a.children <==> name in b.children {
      assert SameAt(a, b, [name]);
    }
    forall name | name in a.children ensures Normal(a.children[name]) == Normal(b.children[name]) {
      assert SameAt(a, b, [name]);
      var x, y := a.children[name], b.children[name];
      if x.Folder? {
        forall key: Key | key != [] ensures SameAt(x, y, key) {
          assert SameAt(a, b, [name] + key);
          assert ([name] + key)[1..] == key;
        }
        SameEntriesSameTree(x, y);
      }
      SameShape(x, y);
    }
  }

  lemma SameShape(x: Node, y: Node)
    requires Readable(x) && Readable(y) && SameRecord(x, y)
    requires x.Folder? && y.Folder? ==> Normal(x).children == Normal(y).children
    ensures Normal(x) == Normal(y)
  {
    if x.Folder? { assert y.Folder? && x.marker == y.marker; }
  }

  lemma SamePathSameEntry(dir: Node, r: seq<Mutation>, key: Key, m: Mutation)
    requires dir.Folder? && Supported(dir) && IsDelta(dir, r) && key != [] && EntryAt(dir, "", key, m)
    ensures m in r && GoodKey(key)
  {
    SupportedKeysAreGood(dir, key);
    LookupAgrees(dir, r, key, m);
  }

  lemma OneDeltaOneEntry(a: Node, b: Node, r: seq<Mutation>, key: Key)
    requires a.Folder? && b.Folder? && Supported(a) && Supported(b) && IsDelta(a, r) && IsDelta(b, r) && key != []
    ensures At(a, key).Some? ==>
              && At(b, key).Some? && Readable(At(a, key).value)
              && SameRecord(At(a, key).value, At(b, key).value)
  {
    if At(a, key).Some? {
      SupportedKeysAreGood(a, key);
      var m := Record(PathOf("", key), At(a, key).value);
      SamePathSameEntry(a, r, key, m);
      hide At, PathOf;
      LookupAgrees(b, r, key, m);
    }
  }

  /** Nothing is lost: two supported trees with the same delta are the same tree up to file modes. */
  lemma DeltaDeterminesTree(a: Node, b: Node, r: seq<Mutation>)
    requires a.Folder? && b.Folder? && Supported(a) && Supported(b) && IsDelta(a, r) && IsDelta(b, r)
    ensures Normal(a).children == Normal(b).children
  {
    hide IsDelta, Supported, At, Normal;
    forall key: Key | key != [] ensures SameAt(a, b, key) {
      OneDeltaOneEntry(a, b, r, key);
      OneDeltaOneEntry(b, a, r, key);
    }
    SameEntriesSameTree(a, b);
  }

  lemma {:induction false} SortedUnique(a: seq<Mutation>, b: seq<Mutation>)
    requires forall i, j | 0 <= i < j < |a| :: Less(a[i].path, a[j].path)
    requires forall i, j | 0 <= i < j < |b| :: Less(b[i].path, b[j].path)
    requires forall m :: m in a <==> m in b
    ensures a == b
  {
    hide Less;
    assert (a != [] ==> a[0] in a) && (b != [] ==> b[0] in b);
    if a != [] && b != [] {
      FirstsAgree(a, b);
      forall m ensures m in a[1..] <==> m in b[1..] {
        TailMembers(a, m);
        TailMembers(b, m);
      }
      SortedUnique(a[1..], b[1..]);
      assert a == [a[0]] + a[1..] && b == [b[0]] + b[1..];
    }
  }

  lemma TailMembers(a: seq<Mutation>, m: Mutation)
    requires a != [] && forall i, j | 0 <= i < j < |a| :: Less(a[i].path, a[j].path)
    ensures m in a[1..] <==> m in a && m != a[0]
  {
    hide Less;
    LessIrreflexive(a[0].path);
    assert a == [a[0]] + a[1..];
    if m in a[1..] {
      var i :| 0 <= i < |a| - 1 && a[1..][i] == m;
      assert Less(a[0].path, a[i + 1].path);
    }
  }

  lemma FirstsAgree(a: seq<Mutation>, b: seq<Mutation>)
    requires a != [] && b != []
    requires forall i, j | 0 <= i < j < |a| :: Less(a[i].path, a[j].path)
    requires forall i, j | 0 <= i < j < |b| :: Less(b[i].path, b[j].path)
    requires forall m :: m in a <==> m in b
    ensures a[0] == b[0]
  {
    hide Less;
    assert a[0] in b && b[0] in a;
    var i :| 0 <= i < |b| && b[i] == a[0];
    var j :| 0 <= j < |a| && a[j] == b[0];
    if i > 0 && j > 0 {
      LessTransitive(a[0].path, a[j].path, a[0].path);
      LessIrreflexive(a[0].path);
    }
  }

  /** The delta is a function of the tree: directory read order cannot show through. */
  lemma DeltaIsUnique(dir: Node, a: seq<Mutation>, b: seq<Mutation>)
    requires IsDelta(dir, a) && IsDelta(dir, b)
    ensures a == b
  {
    hide Recorded, Less;
    assert forall m :: m in a <==> m in b;
    SortedUnique(a, b);
  }
}
