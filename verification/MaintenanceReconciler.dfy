/** The reconciliation as it runs: loops over declarations and managed specs, writing files one by one. */
module MaintenanceReconciler {
  import opened Prelude
  import opened MaintenanceSchedules

  /** One file replacement or removal made by the reconciler. */
  datatype Write = Write(name: string, before: Option<Entry>, after: Option<Entry>)

  /** Never onto a spec someone else owns, and never leaving anything but a managed spec. */
  predicate SafeWrite(w: Write) {
    && (w.before.Some? ==> Managed(w.before.value))
    && (w.after.Some? ==> Managed(w.after.value) && FileName(w.after.value.spec.id) == w.name)
    && w.before != w.after
  }

  /** One change to the directory: an outside edit, or a write of the reconciler. */
  datatype Change = Outside(files: Files) | Ours(w: Write)

  function Changed(files: Files, c: Change): Files {
    match c
    case Outside(other) => other
    case Ours(w) => if w.after.Some? then files[w.name := w.after.value] else files - {w.name}
  }

  function Replay(files: Files, cs: seq<Change>): Files {
    if cs == [] then files else Changed(Replay(files, cs[..|cs| - 1]), cs[|cs| - 1])
  }

  /** Change i is an outside edit, or a safe write of the file as it stood at that point. */
  predicate SoundChange(files: Files, cs: seq<Change>, i: nat)
    requires i < |cs|
  {
    cs[i].Ours? ==> SafeWrite(cs[i].w) && Get(Replay(files, cs[..i]), cs[i].w.name) == cs[i].w.before
  }

  /** The changes lead from one directory to the other, and the reconciler's are sound. */
  ghost predicate Accounts(files: Files, cs: seq<Change>, next: Files) {
    next == Replay(files, cs) && forall i | 0 <= i < |cs| :: SoundChange(files, cs, i)
  }

  /** Every outside edit recorded is one of those pending. */
  predicate FromEdits(cs: seq<Change>, edits: seq<Option<Files>>) {
    forall i | 0 <= i < |cs| && cs[i].Outside? :: Some(cs[i].files) in edits
  }

  /** The log has grown by changes that account for the new directory, using up some of the pending edits. */
  ghost predicate Moved(files: Files, log: seq<Change>, edits: seq<Option<Files>>,
                        next: Files, longer: seq<Change>, left: seq<Option<Files>>) {
    && log <= longer && Accounts(files, longer[|log|..], next) && FromEdits(longer[|log|..], edits)
    && forall e | e in left :: e in edits
  }

  /** The directory as the last outside edit left it. */
  function LastOutside(files: Files, cs: seq<Change>): Files {
    if cs == [] then files
    else if cs[|cs| - 1].Outside? then cs[|cs| - 1].files
    else LastOutside(files, cs[..|cs| - 1])
  }

  /** The same unowned entries. */
  ghost predicate SameUnowned(a: Files, b: Files) {
    forall name ::
      && (name in a && !Managed(a[name]) <==> name in b && !Managed(b[name]))
      && (name in a && !Managed(a[name]) ==> Get(b, name) == Some(a[name]))
  }

  /**
   Under any outside edits: the unowned entries of the directory are exactly those
   the last outside edit left (or the first directory held), each unchanged.
   */
  lemma {:induction false} UnownedIsOutside(files: Files, cs: seq<Change>, next: Files)
    requires Accounts(files, cs, next)
    ensures SameUnowned(LastOutside(files, cs), next)
    decreases |cs|
  {
    if cs != [] {
      var pre, last := cs[..|cs| - 1], cs[|cs| - 1];
      PrefixAccounts(files, cs);
      UnownedIsOutside(files, pre, Replay(files, pre));
      if last.Ours? {
        assert SoundChange(files, cs, |cs| - 1);
        SafeKeepsUnowned(Replay(files, pre), last.w);
      }
    }
  }

  lemma PrefixAccounts(files: Files, cs: seq<Change>)
    requires cs != [] && forall i | 0 <= i < |cs| :: SoundChange(files, cs, i)
    ensures Accounts(files, cs[..|cs| - 1], Replay(files, cs[..|cs| - 1]))
  {
    var pre := cs[..|cs| - 1];
    forall i | 0 <= i < |pre| ensures SoundChange(files, pre, i) {
      assert SoundChange(files, cs, i) && pre[i] == cs[i] && pre[..i] == cs[..i];
    }
  }

  lemma SafeKeepsUnowned(files: Files, w: Write)
    requires SafeWrite(w) && Get(files, w.name) == w.before
    ensures SameUnowned(files, Changed(files, Ours(w)))
  {
  }

  lemma {:induction false} ReplayAppend(files: Files, a: seq<Change>, b: seq<Change>)
    ensures Replay(files, a + b) == Replay(Replay(files, a), b)
    decreases |b|
  {
    if b == [] {
      assert a + b == a;
    } else {
      assert (a + b)[..|a + b| - 1] == a + b[..|b| - 1];
      ReplayAppend(files, a, b[..|b| - 1]);
    }
  }

  lemma AccountsAppend(files: Files, a: seq<Change>, mid: Files, b: seq<Change>, next: Files)
    requires Accounts(files, a, mid) && Accounts(mid, b, next)
    ensures Accounts(files, a + b, next)
  {
    hide Changed;
    ReplayAppend(files, a, b);
    var cs := a + b;
    forall i | 0 <= i < |cs| ensures SoundChange(files, cs, i) {
      if i < |a| {
        assert SoundChange(files, a, i) && cs[..i] == a[..i] && cs[i] == a[i];
      } else {
        var j := i - |a|;
        assert SoundChange(mid, b, j) && cs[..i] == a + b[..j] && cs[i] == b[j];
        ReplayAppend(files, a, b[..j]);
      }
    }
  }

  lemma MovedTransitive(f: Files, l: seq<Change>, e: seq<Option<Files>>, f1: Files, l1: seq<Change>,
      e1: seq<Option<Files>>,
                        f2: Files, l2: seq<Change>, e2: seq<Option<Files>>)
    requires Moved(f, l, e, f1, l1, e1) && Moved(f1, l1, e1, f2, l2, e2)
    ensures Moved(f, l, e, f2, l2, e2)
  {
    hide Accounts;
    var a, b := l1[|l|..], l2[|l1|..];
    AccountsAppend(f, a, f1, b, f2);
    assert l2[|l|..] == a + b;
    forall i | 0 <= i < |a + b| && (a + b)[i].Outside? ensures Some((a + b)[i].files) in e {
      if i < |a| { assert (a + b)[i] == a[i]; } else { assert (a + b)[i] == b[i - |a|]; }
    }
  }

  lemma MovedNowhere(f: Files, l: seq<Change>, e: seq<Option<Files>>)
    ensures Moved(f, l, e, f, l, e)
  {
  }

  lemma MovedOnce(f: Files, l: seq<Change>, e: seq<Option<Files>>, c: Change, left: seq<Option<Files>>)
    requires c.Ours? ==> SafeWrite(c.w) && Get(f, c.w.name) == c.w.before
    requires c.Outside? ==> Some(c.files) in e
    requires forall x | x in left :: x in e
    ensures Moved(f, l, e, Changed(f, c), l + [c], left)
  {
    var cs := (l + [c])[|l|..];
    assert cs == [c] && cs[..0] == [];
    assert Replay(f, cs) == Changed(Replay(f, []), c);
    assert SoundChange(f, cs, 0);
  }

  predicate Quiet(edits: seq<Option<Files>>) {
    forall i | 0 <= i < |edits| :: edits[i].None?
  }

  class ScheduleDirectory {
    var files: Files
    /** Changes by processes that ignore the directory lock, one slot per gap in the reconciliation. */
    var edits: seq<Option<Files>>
    ghost var log: seq<Change>

    constructor (initial: Files, outside: seq<Option<Files>>)
      ensures files == initial && edits == outside && log == []
    {
      files, edits, log := initial, outside, [];
    }

    method Disturb()
      modifies `files, `edits, `log
      ensures Moved(old(files), old(log), old(edits), files, log, edits)
      ensures Quiet(old(edits)) ==> log == old(log)
      ensures old(edits) == [] ==> files == old(files) && edits == []
      ensures old(edits) != [] ==>
                && edits == old(edits)[1..]
                && files == if old(edits)[0].Some? then old(edits)[0].value else old(files)
    {
      MovedNowhere(files, log, edits);
      if edits != [] {
        if edits[0].Some? {
          MovedOnce(files, log, edits, Outside(edits[0].value), edits[1..]);
          files := edits[0].value;
          log := log + [Outside(files)];
        }
        edits := edits[1..];
      }
    }

    /** Compare-and-replace on the file as it was opened. */
    method WriteIfSame(name: string, expected: Option<Entry>, body: Entry) returns (ok: bool)
      modifies `files, `log
      ensures ok <==> Get(old(files), name) == expected
      ensures files == (if ok then old(files)[name := body] else old(files))
      ensures SafeWrite(Write(name, expected, Some(body))) ==> Moved(old(files), old(log), old(edits), files, log,
          edits)
      ensures !ok ==> log == old(log)
    {
      MovedNowhere(files, log, edits);
      if Get(files, name) != expected { return false; }
      if SafeWrite(Write(name, expected, Some(body))) { MovedOnce(files, log, edits, Ours(Write(name, expected,
          Some(body))), edits); }
      files := files[name := body];
      log := log + [Ours(Write(name, expected, Some(body)))];
      return true;
    }

    method RemoveIfSame(name: string, expected: Entry) returns (ok: bool)
      modifies `files, `log
      ensures ok <==> Get(old(files), name) == Some(expected)
      ensures files == (if ok then old(files) - {name} else old(files))
      ensures SafeWrite(Write(name, Some(expected), None)) ==> Moved(old(files), old(log), old(edits), files, log,
          edits)
      ensures !ok ==> log == old(log)
    {
      MovedNowhere(files, log, edits);
      if Get(files, name) != Some(expected) { return false; }
      if SafeWrite(Write(name, Some(expected), None)) { MovedOnce(files, log, edits, Ours(Write(name, Some(expected),
          None)), edits); }
      files := files - {name};
      log := log + [Ours(Write(name, Some(expected), None))];
      return true;
    }

    /** Scan and load every entry; the managed ones by name, or None on any unsupported or untrusted entry. */
    method LoadManaged() returns (managed: Option<set<string>>)
      ensures managed.Some? <==> Readable(files)
      ensures managed.Some? ==> managed.value == set name | name in files && Managed(files[name])
    {
      var found: set<string>, rest := {}, files.Keys;
      while rest != {}
        invariant rest <= files.Keys
        invariant forall name | name in files && name !in rest :: Scans(files, name) && Loads(files, name)
        invariant found == set name | name in files && name !in rest && Managed(files[name])
        decreases |rest|
      {
        var name :| name in rest;
        if !Scans(files, name) || !Loads(files, name) { return None; }
        if Managed(files[name]) { found := found + {name}; }
        rest := rest - {name};
      }
      return Some(found);
    }

    /** The file as reopened: None when absent, an error when it is not a trusted managed spec. */
    method OpenManaged(name: string) returns (ok: bool, current: Option<Entry>)
      ensures ok <==> name !in files || (Loads(files, name) && Managed(files[name]))
      ensures ok ==> current == Get(files, name)
    {
      if name !in files { return true, None; }
      if !Loads(files, name) || !Managed(files[name]) { return false, None; }
      return true, Some(files[name]);
    }

    /** One declaration: re-open the target, keep the stored pair, and replace the file only when it differs. */
    method ReconcileOne(d: Declaration, enabled: bool, registeredAt: int, requester: string) returns (ok: bool)
      modifies this
      ensures Moved(old(files), old(log), old(edits), files, log, edits)
      ensures Quiet(old(edits)) ==>
                var name := FileName(d.id);
                && Quiet(edits)
                && (ok <==> name !in old(files) || (Loads(old(files), name) && Managed(old(files)[name])))
                && (!ok ==> files == old(files) && log == old(log))
                && (ok ==>
                      var body := if name in old(files)
                                  then Source(Body(d, old(files)[name].spec.enabled,
                                      old(files)[name].spec.registeredAt, requester))
                                  else Source(Body(d, enabled, registeredAt, requester));
                      files == old(files)[name := body] && (Get(old(files), name) == Some(body) ==> log == old(log)))
    {
      hide Moved;
      var name := FileName(d.id);
      Disturb();
      ghost var f1, l1, e1 := files, log, edits;
      var current;
      ok, current := OpenManaged(name);
      if !ok { return; }
      var body := Source(if current.Some? then Body(d, current.value.spec.enabled, current.value.spec.registeredAt,
          requester)
                         else Body(d, enabled, registeredAt, requester));
      if current == Some(body) {
        assert Quiet(old(edits)) ==> files[name := body] == files;
        return true;
      }
      Disturb();
      MovedTransitive(old(files), old(log), old(edits), f1, l1, e1, files, log, edits);
      ghost var f2, l2, e2 := files, log, edits;
      ok := WriteIfSame(name, current, body);
      MovedTransitive(old(files), old(log), old(edits), f2, l2, e2, files, log, edits);
    }

    /** One undeclared managed spec: re-open, verify ownership again, and remove it. */
    method RemoveStray(name: string) returns (ok: bool)
      modifies this
      ensures Moved(old(files), old(log), old(edits), files, log, edits)
      ensures Quiet(old(edits)) ==>
                && Quiet(edits)
                && (ok <==> name !in old(files) || (Loads(old(files), name) && Managed(old(files)[name])))
                && files == (if ok then old(files) - {name} else old(files))
    {
      hide Moved;
      Disturb();
      ghost var f1, l1, e1 := files, log, edits;
      var current;
      ok, current := OpenManaged(name);
      if !ok || current.None? { return; }
      Disturb();
      MovedTransitive(old(files), old(log), old(edits), f1, l1, e1, files, log, edits);
      ghost var f2, l2, e2 := files, log, edits;
      ok := RemoveIfSame(name, current.value);
      MovedTransitive(old(files), old(log), old(edits), f2, l2, e2, files, log, edits);
    }

    /** `apply_maintenance_schedules`. */
    method Apply(file: DeclarationFile, accepts: Settings -> bool, requester: string,
        clock: nat -> int) returns (ok: bool)
      modifies this
      ensures Moved(old(files), old(log), old(edits), files, log, edits)
      ensures SameUnowned(LastOutside(old(files), log[|old(log)|..]), files)
      ensures !Acceptable(file, accepts) ==> !ok && files == old(files) && log == old(log)
      ensures Quiet(old(edits)) ==>
                && (ok <==> Succeeds(old(files), file, accepts))
                && files == After(old(files), file, accepts, requester, clock)
                && (Settled(old(files), Schedules(file), requester) ==> log == old(log))
    {
      ok := ReconcileAll(file, accepts, requester, clock);
      UnownedIsOutside(old(files), log[|old(log)|..], files);
    }

    /** Validation, scan, declaration loop and removal loop. */
    method ReconcileAll(file: DeclarationFile, accepts: Settings -> bool, requester: string,
        clock: nat -> int) returns (ok: bool)
      modifies this
      ensures Moved(old(files), old(log), old(edits), files, log, edits)
      ensures !Acceptable(file, accepts) ==> !ok && files == old(files) && log == old(log)
      ensures Quiet(old(edits)) ==>
                && (ok <==> Succeeds(old(files), file, accepts))
                && files == After(old(files), file, accepts, requester, clock)
                && (Settled(old(files), Schedules(file), requester) ==> log == old(log))
    {
      var ds := Schedules(file);
      MovedNowhere(files, log, edits);
      if file.Unreadable? || (file.Declared? && file.specVersion != 1) { return false; }
      ok := Validate(ds, accepts);
      if !ok { return; }
      var managed := LoadManaged();
      if managed.None? { return false; }
      var scanned := files;
      ghost var quiet := Quiet(edits);
      ghost var settled := Settled(scanned, ds, requester);
      hide Applied, Reconciled, Settled, Quiet, Moved, Readable, DistinctIds, ValidDeclaration;
      ok := WriteDeclared(ds, scanned, managed.value, requester, clock);
      if ok {
        ghost var f1, l1, e1 := files, log, edits;
        ok := Prune(managed.value, scanned, ds, requester, clock, quiet, settled);
        MovedTransitive(old(files), old(log), old(edits), f1, l1, e1, files, log, edits);
      }
    }

    /** The loop over declarations; it stops at the first conflict with what others own. */
    method WriteDeclared(ds: seq<Declaration>, scanned: Files, managed: set<string>, requester: string,
        clock: nat -> int)
      returns (ok: bool)
      requires scanned == files && Readable(scanned) && DistinctIds(ds)
      requires managed == set name | name in scanned && Managed(scanned[name])
      modifies this
      ensures Moved(old(files), old(log), old(edits), files, log, edits)
      ensures Quiet(old(edits)) ==>
                && Quiet(edits) && (ok <==> Writable(scanned, ds) == |ds|)
                && files == Applied(scanned, ds, Writable(scanned, ds), requester, clock)
                && (Settled(scanned, ds, requester) ==> log == old(log))
    {
      hide Reconciled, Settled, Quiet, Moved, DistinctIds, Loads;
      ghost var quiet := Quiet(edits);
      MovedNowhere(files, log, edits);
      var k := 0;
      while k < |ds|
        invariant k <= |ds| && Moved(old(files), old(log), old(edits), files, log, edits)
        invariant quiet ==> Quiet(edits) && k <= Writable(scanned, ds) && files == Applied(scanned, ds, k, requester,
            clock)
        invariant quiet && Settled(scanned, ds, requester) ==> log == old(log)
      {
        var name := FileName(ds[k].id);
        if name in scanned && name !in managed { return false; }
        ghost var f1, l1, e1 := files, log, edits;
        PrefixLeaves(scanned, ds, k, requester, clock);
        SettledAt(scanned, ds, k, requester, clock(k));
        if name in scanned {
          ok := ReconcileOne(ds[k], scanned[name].spec.enabled, scanned[name].spec.registeredAt, requester);
        } else {
          ok := ReconcileOne(ds[k], ds[k].enabled, clock(k), requester);
        }
        MovedTransitive(old(files), old(log), old(edits), f1, l1, e1, files, log, edits);
        if !ok { return; }
        k := k + 1;
      }
      return true;
    }

    /** The removal loop over managed specs no longer declared. */
    method Prune(managed: set<string>, ghost scanned: Files, ds: seq<Declaration>,
                 requester: string, clock: nat -> int, ghost quiet: bool, ghost settled: bool) returns (ok: bool)
      requires Readable(scanned) && DistinctIds(ds) && managed == set name | name in scanned && Managed(scanned[name])
      requires quiet ==> Quiet(edits) && files == Applied(scanned, ds, |ds|, requester, clock)
      requires quiet ==> Writable(scanned, ds) == |ds|
      requires settled ==> Settled(scanned, ds, requester)
      modifies this
      ensures Moved(old(files), old(log), old(edits), files, log, edits)
      ensures quiet ==> ok && files == Reconciled(scanned, ds, requester, clock)
      ensures quiet && settled ==> log == old(log)
    {
      hide Reconciled, Applied, Settled, Quiet, Moved, Readable, Declares, DistinctIds;
      ok := true;
      var rest := managed;
      ghost var all := files;
      ghost var gone: set<string> := {};
      assert all - gone == all;
      MovedNowhere(files, log, edits);
      while rest != {}
        invariant rest <= managed && Moved(old(files), old(log), old(edits), files, log, edits)
        invariant gone == set name | name in managed && name !in rest && !Declares(ds, name)
        invariant quiet ==> Quiet(edits) && files == all - gone
        invariant quiet && settled ==> log == old(log)
        decreases |rest|
      {
        var name :| name in rest;
        rest := rest - {name};
        if !Declares(ds, name) {
          ghost var f1, l1, e1 := files, log, edits;
          StrayIsKept(scanned, ds, requester, clock, name);
          ok := RemoveStray(name);
          MovedTransitive(old(files), old(log), old(edits), f1, l1, e1, files, log, edits);
          if !ok { return; }
          assert all - gone - {name} == all - (gone + {name});
          gone := gone + {name};
        }
      }
      assert gone == set name | name in managed && !Declares(ds, name);
      if quiet { PrunedIsReconciled(scanned, ds, managed, all, requester, clock); }
    }
  }

  lemma SettledAt(files: Files, ds: seq<Declaration>, k: nat, requester: string, now: int)
    requires k < |ds|
    ensures Settled(files, ds, requester) ==> Get(files, FileName(ds[k].id)) == Some(Desired(files, ds[k], requester,
        now))
  {
  }

  /** Writing the earlier declarations has not touched the next one's file. */
  lemma PrefixLeaves(files: Files, ds: seq<Declaration>, k: nat, requester: string, clock: nat -> int)
    requires k < |ds| && DistinctIds(ds)
    ensures var a := Applied(files, ds, k, requester, clock); var name := FileName(ds[k].id);
            Get(a, name) == Get(files, name) && (Loads(files, name) ==> Loads(a, name))
  {
    AppliedAt(files, ds, k, requester, clock);
    NamesDiffer(ds);
    forall i | 0 <= i < k ensures FileName(ds[..k][i].id) != FileName(ds[k].id) { assert ds[..k][i] == ds[i]; }
  }

  lemma StrayIsKept(files: Files, ds: seq<Declaration>, requester: string, clock: nat -> int, name: string)
    requires Readable(files) && DistinctIds(ds) && !Declares(ds, name) && name in files && Managed(files[name])
    ensures Get(Applied(files, ds, |ds|, requester, clock), name) == Get(files, name)
    ensures Loads(Applied(files, ds, |ds|, requester, clock), name) && !Settled(files, ds, requester)
  {
    assert Stray(files, ds, name);
    AppliedAt(files, ds, |ds|, requester, clock);
    assert ds[..|ds|] == ds;
  }

  lemma PrunedIsReconciled(files: Files, ds: seq<Declaration>, managed: set<string>, all: Files, requester: string,
      clock: nat -> int)
    requires managed == set name | name in files && Managed(files[name])
    requires all == Applied(files, ds, |ds|, requester, clock)
    ensures all - (set name | name in managed && !Declares(ds, name)) == Reconciled(files, ds, requester, clock)
  {
  }

  /** The validation loop, including the duplicate check. */
  method Validate(ds: seq<Declaration>, accepts: Settings -> bool) returns (ok: bool)
    ensures ok <==> ValidDeclarations(ds, accepts)
  {
    var ids := {};
    for k := 0 to |ds|
      invariant forall i | 0 <= i < k :: ValidDeclaration(ds[i], accepts)
      invariant forall i, j | 0 <= i < j < k :: ds[i].id != ds[j].id
      invariant ids == set i | 0 <= i < k :: ds[i].id
    {
      if !ValidDeclaration(ds[k], accepts) { return false; }
      if ds[k].id in ids { return false; }
      ids := ids + {ds[k].id};
    }
    return true;
  }
}
