/**
 What becomes of every open workspace: the state its row ends in and whether
 its root survives, on the store alone, for one turn and for a whole sweep.
 */
module WorkspaceDispositions {
  import opened Prelude
  import opened RecoveryStore
  import opened ThreadRecovery
  import opened WorkspaceRecovery
  import opened RecoveryService

  /** The row's owner holds its thread's claim and is active in this daemon. */
  predicate Driven(st: Store, rec: Workspace) {
    && rec.thread.Some? && rec.thread.value in st.claims
    && rec.owner == Some(st.claims[rec.thread.value].owner)
    && st.claims[rec.thread.value].owner in st.activeOwners
  }

  /** The row belongs to a live thread whose claim, if any, is still its owner's. */
  predicate Resumable(st: Store, rec: Workspace) {
    && rec.thread.Some? && rec.thread.value in st.threads
    && st.threads[rec.thread.value].status in {Created, Running}
    && (rec.thread.value in st.claims ==> rec.owner == Some(st.claims[rec.thread.value].owner))
  }

  /** The process the workspace serves: the claiming thread's, else the recorded one. */
  function Served(st: Store, rec: Workspace): Option<ProcessIdentity> {
    if && rec.thread.Some? && rec.thread.value in st.claims && rec.thread.value in st.threads
       && rec.owner == Some(st.claims[rec.thread.value].owner)
       && st.threads[rec.thread.value].identity.Some?
    then st.threads[rec.thread.value].identity
    else rec.identity
  }

  /** Not bound to a thread yet: some request may still be building its lower layer. */
  predicate Unbound(rec: Workspace) {
    rec.thread == None && rec.owner == None
  }

  /** Nobody can still need the row: no process, no freeze to replay, and in a live sweep a dead owner. */
  predicate Abandoned(st: Store, rec: Workspace, mode: Mode, p: WorkspaceProbe) {
    && rec.state != Closing && !(rec.state == Freezing && Resumable(st, rec))
    && (Served(st, rec).Some? ==> p.group == DeadOrStale)
    && (mode.Live? ==> !Driven(st, rec) && !Unbound(rec))
  }

  /** The backend's evidence suffices to destroy what the row names. */
  predicate Destroyable(rec: Workspace, p: WorkspaceProbe) {
    || Unbound(rec)
    || (rec.thread.Some? && rec.owner.Some? && p.destroyProven && (rec.created || rec.state == Constructing))
  }

  /** The turn may remove the root: the row is closing, or is abandoned and may be destroyed. */
  predicate Removes(st: Store, rec: Workspace, mode: Mode, p: WorkspaceProbe) {
    && !(mode.Live? && Driven(st, rec))
    && (rec.state == Closing || (Abandoned(st, rec, mode, p) && !Driven(st, rec) && Destroyable(rec, p)))
  }

  /** The state the row ends in. */
  function StateAfter(st: Store, rec: Workspace, mode: Mode, p: WorkspaceProbe): WorkspaceState {
    if Removes(st, rec, mode, p) then (if p.removed && !Driven(st, rec) then Closed else Closing)
    else if Abandoned(st, rec, mode, p) && !Driven(st, rec) then Orphaned
    else rec.state
  }

  /** The row is the stored one, and open. */
  predicate OpenRow(st: Store, rec: Workspace) {
    rec.id in st.workspaces && st.workspaces[rec.id] == rec && rec.state != Closed
  }

  /** The row and root as the table says; nothing else about the row changes but a snapshot being bound. */
  ghost predicate Fate(st: Store, r: Store, rec: Workspace, mode: Mode, p: WorkspaceProbe) {
    && rec.id in r.workspaces
    && r.workspaces[rec.id] == rec.(state := StateAfter(st, rec, mode, p), frozen := r.workspaces[rec.id].frozen)
    && (r.workspaces[rec.id].frozen != rec.frozen ==> rec.state == Freezing && Resumable(st, rec))
    && (rec.root in r.roots <==> rec.root in st.roots && !(Removes(st, rec, mode, p) && p.removed))
  }

  lemma Spelled(st: Store, rec: Workspace, p: WorkspaceProbe)
    ensures (Driven(st, rec) <==> OwnerActive(st, rec)) && (Driven(st, rec) ==> Bound(rec))
    ensures rec.state == Freezing && Resumable(st, rec) <==> FreezeHeld(st, rec)
    ensures GroupLiveness(st, rec, p).DeadOrStale? <==> (Served(st, rec).Some? ==> p.group == DeadOrStale)
  {
  }

  lemma ApplyOne(st: Store, e: WorkspaceEffect)
    ensures ApplyAllW(st, [e]) == ApplyW(st, e)
  {
    assert [e][1..] == [];
  }

  lemma ApplyThen(st: Store, e: WorkspaceEffect, es: seq<WorkspaceEffect>)
    ensures ApplyAllW(st, [e] + es) == ApplyAllW(ApplyW(st, e), es)
  {
    assert ([e] + es)[1..] == es;
  }

  /** Removing and closing, on a closing row. */
  lemma RemovedFate(st: Store, rec: Workspace, p: WorkspaceProbe)
    requires rec.id in st.workspaces && st.workspaces[rec.id].state == Closing
    requires st.workspaces[rec.id] == rec.(state := Closing)
    ensures var r := ApplyAllW(st, RemoveAndClose(rec, p));
            && rec.id in r.workspaces
            && r.workspaces[rec.id] == rec.(state := if p.removed && !Driven(st, rec) then Closed else Closing)
            && (rec.root in r.roots <==> rec.root in st.roots && !p.removed)
  {
    var remove := Remove(rec, p.removed);
    ApplyThen(st, remove, if p.removed then [Move(rec, Closing, Closed)] else []);
    ApplyOne(ApplyW(st, remove), Move(rec, Closing, Closed));
    Spelled(st, rec, p);
  }

  /** Cleaning up an orphaned row whose record may still show its earlier state. */
  lemma CleanupFate(st: Store, rec: Workspace, p: WorkspaceProbe)
    requires rec.state != Closing && rec.id in st.workspaces && st.workspaces[rec.id] == rec.(state := Orphaned)
    ensures var r := ApplyAllW(st, Cleanup(st, rec, p));
            var done := Destroyable(rec, p) && !Driven(st, rec);
            && rec.id in r.workspaces
            && r.workspaces[rec.id] == rec.(state := if !done then Orphaned else if p.removed then Closed else Closing)
            && (rec.root in r.roots <==> rec.root in st.roots && !(done && p.removed))
  {
    Spelled(st, rec, p);
    if Destroyable(rec, p) && !Driven(st, rec) {
      var closing := Move(rec, Orphaned, Closing);
      var next := ApplyW(st, closing);
      assert Cleanup(st, rec, p) == [closing] + RemoveAndClose(rec, p);
      ApplyThen(st, closing, RemoveAndClose(rec, p));
      assert next.workspaces[rec.id] == rec.(state := Closing) && next.claims == st.claims;
      RemovedFate(next, rec, p);
    }
  }

  /**
   One turn: the table holds, the turn fails only if the owner of an abandoned
   row is active after all or a quiesced group could not be terminated, and it
   writes nothing about a thread.
   */
  lemma TurnFate(st: Store, rec: Workspace, mode: Mode, p: WorkspaceProbe)
    requires OpenRow(st, rec)
    ensures var t := Turn(st, rec, mode, p); Fate(st, ApplyAllW(st, t.effects), rec, mode, p)
    ensures Abandoned(st, rec, mode, p) && Driven(st, rec) && rec.state != Orphaned ==> Turn(st, rec, mode, p).failed
  {
    Spelled(st, rec, p);
    hide Driven, Resumable, Served, OwnerActive, GroupLiveness;
    var es := Turn(st, rec, mode, p).effects;
    if mode.Live? && Driven(st, rec) {
    } else if rec.state.Closing? {
      RemovedFate(st, rec, p);
    } else if rec.state == Freezing && Resumable(st, rec) {
      FreezeTurnFate(st, rec, p);
    } else if Abandoned(st, rec, mode, p) {
      if rec.state.Orphaned? {
        CleanupFate(st, rec, p);
      } else if !Driven(st, rec) {
        OrphanFate(st, rec, mode, p);
      }
    }
  }

  lemma FreezeTurnFate(st: Store, rec: Workspace, p: WorkspaceProbe)
    requires OpenRow(st, rec)
    ensures var r := ApplyAllW(st, FreezeTurn(st, rec, p).effects);
            rec.id in r.workspaces && r.roots == st.roots
            && r.workspaces[rec.id] == rec.(frozen := r.workspaces[rec.id].frozen)
  {
    ApplyOne(st, BindFrozen(rec, p.hash));
    hide GroupLiveness, OwnerClaims;
  }

  lemma OrphanFate(st: Store, rec: Workspace, mode: Mode, p: WorkspaceProbe)
    requires OpenRow(st, rec) && Abandoned(st, rec, mode, p) && !Driven(st, rec) && rec.state != Orphaned
    ensures Fate(st, ApplyAllW(st, Turn(st, rec, mode, p).effects), rec, mode, p)
  {
    Spelled(st, rec, p);
    var orphan := Move(rec, rec.state, Orphaned);
    var next := ApplyW(st, orphan);
    hide Driven, Resumable, Served, GroupLiveness, Cleanup, FreezeTurn;
    assert CanMove(st, rec, rec.state);
    assert Turn(st, rec, mode, p).effects == [orphan] + Cleanup(next, rec, p);
    ApplyThen(st, orphan, Cleanup(next, rec, p));
    assert next.workspaces[rec.id] == rec.(state := Orphaned) && next.roots == st.roots;
    Spelled(next, rec, p);
    assert OwnerActive(next, rec) <==> OwnerActive(st, rec);
    hide ApplyW, OwnerActive, Turn;
    CleanupFate(next, rec, p);
  }

  lemma SameFacts(st: Store, s: Store, rec: Workspace)
    requires s.threads == st.threads && s.claims == st.claims && s.activeOwners == st.activeOwners
    ensures Served(st, rec) == Served(s, rec) && Driven(st, rec) == Driven(s, rec)
    ensures Resumable(st, rec) == Resumable(s, rec)
  {
  }

  /** The table reads only threads, claims and owners, which no workspace turn changes. */
  lemma SameFate(st: Store, s: Store, r: Store, rec: Workspace, mode: Mode, p: WorkspaceProbe)
    requires s.threads == st.threads && s.claims == st.claims && s.activeOwners == st.activeOwners
    requires rec.root in s.roots <==> rec.root in st.roots
    ensures Fate(st, r, rec, mode, p) <==> Fate(s, r, rec, mode, p)
    ensures Abandoned(st, rec, mode, p) <==> Abandoned(s, rec, mode, p)
    ensures Driven(st, rec) <==> Driven(s, rec)
  {
    hide Served, Resumable, Destroyable, Driven, Unbound;
    SameFacts(st, s, rec);
  }

  lemma FateStays(st: Store, a: Store, b: Store, rec: Workspace, mode: Mode, p: WorkspaceProbe)
    requires Fate(st, a, rec, mode, p) && rec.id in b.workspaces && b.workspaces[rec.id] == a.workspaces[rec.id]
    requires rec.root in b.roots <==> rec.root in a.roots
    ensures Fate(st, b, rec, mode, p)
  {
    hide StateAfter, Removes, Resumable;
  }

  /** Roots are only ever removed. */
  lemma {:induction false} WritesOnlyRemove(st: Store, es: seq<WorkspaceEffect>)
    ensures ApplyAllW(st, es).roots <= st.roots
    decreases |es|
  {
    if es != [] { WritesOnlyRemove(ApplyW(st, es[0]), es[1..]); }
  }

  lemma {:induction false} SweepOnlyRemoves(st: Store, open: seq<Workspace>, mode: Mode, probes: seq<WorkspaceProbe>)
    requires |open| == |probes|
    ensures WorkspaceSweep(st, open, mode, probes).store.roots <= st.roots
    decreases |open|
  {
    hide Turn, ApplyAllW;
    if open != [] {
      var turn := Turn(st, open[0], mode, probes[0]);
      WritesOnlyRemove(st, turn.effects);
      if !turn.failed { SweepOnlyRemoves(ApplyAllW(st, turn.effects), open[1..], mode, probes[1..]); }
    }
  }

  /**
   A whole sweep that reaches its end leaves every listed row and its root as
   the table says, whatever the other workspaces' turns did.
   */
  lemma {:induction false} SweepFate(st: Store, open: seq<Workspace>, mode: Mode, probes: seq<WorkspaceProbe>, i: nat)
    requires |open| == |probes| && i < |open| && DistinctWorkspaces(open) && OpenRow(st, open[i])
    requires !WorkspaceSweep(st, open, mode, probes).failed
    ensures Fate(st, WorkspaceSweep(st, open, mode, probes).store, open[i], mode, probes[i])
    ensures Abandoned(st, open[i], mode, probes[i]) && Driven(st, open[i]) ==> open[i].state == Orphaned
    decreases |open|
  {
    hide Turn, ApplyAllW, Fate, SameRow, Abandoned, Driven;
    var rec, p := open[i], probes[i];
    var turn := Turn(st, open[0], mode, probes[0]);
    var next := ApplyAllW(st, turn.effects);
    var last := WorkspaceSweep(next, open[1..], mode, probes[1..]).store;
    SweepKeepsThreads(st, turn.effects);
    if i == 0 {
      TurnFate(st, rec, mode, p);
      SweepKeepsOthers(next, open[1..], mode, probes[1..], rec);
      SweepOnlyRemoves(next, open[1..], mode, probes[1..]);
      KeptRow(next, last, rec);
      HasRow(st, next, rec, mode, p);
      FateStays(st, next, last, rec, mode, p);
    } else {
      TurnIsLocal(st, open[0], mode, probes[0]);
      LocalWritesKeepRow(st, turn.effects, rec.id, rec.root);
      WritesOnlyRemove(st, turn.effects);
      KeptRow(st, next, rec);
      assert open[1..][i - 1] == rec && probes[1..][i - 1] == p;
      SweepFate(next, open[1..], mode, probes[1..], i - 1);
      SameFate(st, next, last, rec, mode, p);
    }
  }

  lemma HasRow(st: Store, r: Store, rec: Workspace, mode: Mode, p: WorkspaceProbe)
    requires Fate(st, r, rec, mode, p)
    ensures rec.id in r.workspaces
  {
  }

  lemma KeptRow(a: Store, b: Store, rec: Workspace)
    requires SameRow(a, b, rec.id, rec.root) && b.roots <= a.roots
    ensures rec.root in b.roots <==> rec.root in a.roots
    ensures rec.id in a.workspaces ==> rec.id in b.workspaces && b.workspaces[rec.id] == a.workspaces[rec.id]
  {
  }

  /**
   A live sweep, however it ends, leaves a workspace that is not bound to a
   thread yet exactly as it is, row and root, unless it is already closing.
   */
  lemma {:induction false} LiveSweepKeepsUnbound(st: Store, open: seq<Workspace>, probes: seq<WorkspaceProbe>, i: nat)
    requires |open| == |probes| && i < |open| && DistinctWorkspaces(open) && OpenRow(st, open[i])
    requires open[i].thread.None? && open[i].owner.None? && open[i].state != Closing
    ensures var r := WorkspaceSweep(st, open, Live, probes).store;
            && open[i].id in r.workspaces && r.workspaces[open[i].id] == open[i]
            && (open[i].root in r.roots <==> open[i].root in st.roots)
    decreases |open|
  {
    hide Turn, ApplyAllW, SameRow;
    var rec, p := open[i], probes[i];
    var turn := Turn(st, open[0], Live, probes[0]);
    var next := ApplyAllW(st, turn.effects);
    var last := WorkspaceSweep(next, open[1..], Live, probes[1..]).store;
    if i == 0 {
      TurnFate(st, rec, Live, p);
      assert StateAfter(st, rec, Live, p) == rec.state;
      hide Fate;
      if !turn.failed {
        SweepKeepsOthers(next, open[1..], Live, probes[1..], rec);
        SweepOnlyRemoves(next, open[1..], Live, probes[1..]);
        KeptRow(next, last, rec);
      }
    } else {
      hide Fate;
      TurnIsLocal(st, open[0], Live, probes[0]);
      LocalWritesKeepRow(st, turn.effects, rec.id, rec.root);
      WritesOnlyRemove(st, turn.effects);
      KeptRow(st, next, rec);
      if !turn.failed {
        assert open[1..][i - 1] == rec && probes[1..][i - 1] == p;
        LiveSweepKeepsUnbound(next, open[1..], probes[1..], i - 1);
      }
    }
  }

  /**
   Which rows a startup sweep takes: one that is neither orphaned nor closing
   ends orphaned, closing or closed if and only if its process is gone and it is
   not a freeze that its live thread may still resume; and its root goes only if
   it may be destroyed.
   */
  lemma StartupOrphansIff(st: Store, open: seq<Workspace>, probes: seq<WorkspaceProbe>, i: nat)
    requires |open| == |probes| && i < |open| && DistinctWorkspaces(open) && OpenRow(st, open[i])
    requires !WorkspaceSweep(st, open, Startup, probes).failed && open[i].state !in {Orphaned, Closing}
    ensures var r := WorkspaceSweep(st, open, Startup, probes).store;
            var gone := Served(st, open[i]).Some? ==> probes[i].group == DeadOrStale;
            && open[i].id in r.workspaces
            && (r.workspaces[open[i].id].state in {Orphaned, Closing, Closed} <==>
                  gone && !(open[i].state == Freezing && Resumable(st, open[i])))
            && (r.workspaces[open[i].id].state in {Closing, Closed} ==> Destroyable(open[i], probes[i]))
  {
    hide WorkspaceSweep, DistinctWorkspaces, Served, Resumable, Destroyable, Driven;
    SweepFate(st, open, Startup, probes, i);
  }

  /** The journaled freeze of a live thread's row cannot be trusted: its group moves, or its snapshot is not there. */
  predicate FreezeLost(st: Store, rec: Workspace, p: WorkspaceProbe) {
    && rec.state == Freezing && Resumable(st, rec)
    && (|| (Served(st, rec).Some? && (p.group == Unavailable || (p.group == Alive && !p.quiesced)))
        || (rec.frozen.None?
            && !(p.foldable && rec.owner.Some? && rec.thread.value in st.claims
                 && rec.owner == Some(st.claims[rec.thread.value].owner))))
  }

  /** A turn quarantines its thread exactly when a freeze is lost. */
  lemma TurnBlocksIff(st: Store, rec: Workspace, mode: Mode, p: WorkspaceProbe)
    requires OpenRow(st, rec)
    ensures Turn(st, rec, mode, p).blocks <==> FreezeLost(st, rec, p) && !(mode.Live? && Driven(st, rec))
  {
    Spelled(st, rec, p);
    hide Cleanup, ApplyW;
    if rec.state == Freezing && Resumable(st, rec) { FreezeBlocksIff(st, rec, p); }
    hide FreezeTurn;
  }

  lemma FreezeBlocksIff(st: Store, rec: Workspace, p: WorkspaceProbe)
    requires OpenRow(st, rec) && rec.state == Freezing && Resumable(st, rec)
    ensures FreezeTurn(st, rec, p).blocks <==> FreezeLost(st, rec, p)
  {
  }

  /** The row quarantines the thread. */
  predicate Quarantines(st: Store, rec: Workspace, mode: Mode, p: WorkspaceProbe, t: ThreadId) {
    rec.thread == Some(t) && FreezeLost(st, rec, p) && !(mode.Live? && Driven(st, rec))
  }

  /** A sweep that reaches its end quarantines exactly the threads of the freezes that were lost. */
  lemma {:induction false} BlockedIff(st: Store, open: seq<Workspace>, mode: Mode, probes: seq<WorkspaceProbe>,
                                      t: ThreadId)
    requires |open| == |probes| && DistinctWorkspaces(open) && forall i | 0 <= i < |open| :: OpenRow(st, open[i])
    requires !WorkspaceSweep(st, open, mode, probes).failed
    ensures t in WorkspaceSweep(st, open, mode, probes).blocked <==>
            exists i | 0 <= i < |open| :: Quarantines(st, open[i], mode, probes[i], t)
    decreases |open|
  {
    hide Turn, ApplyAllW, FreezeLost, Driven, SameRow;
    if open == [] { return; }
    var turn := Turn(st, open[0], mode, probes[0]);
    var next := ApplyAllW(st, turn.effects);
    TurnBlocksIff(st, open[0], mode, probes[0]);
    SweepKeepsThreads(st, turn.effects);
    TurnIsLocal(st, open[0], mode, probes[0]);
    WritesOnlyRemove(st, turn.effects);
    forall i | 0 <= i < |open[1..]| ensures OpenRow(next, open[1..][i]) {
      var rec := open[i + 1];
      LocalWritesKeepRow(st, turn.effects, rec.id, rec.root);
      KeptRow(st, next, rec);
    }
    BlockedIff(next, open[1..], mode, probes[1..], t);
    forall i | 0 <= i < |open[1..]|
      ensures Quarantines(next, open[1..][i], mode, probes[1..][i], t) <==>
              Quarantines(st, open[i + 1], mode, probes[i + 1], t)
    {
      SameQuarantine(st, next, open[i + 1], mode, probes[i + 1], t);
    }
    hide Quarantines;
    Shift(st, open, mode, probes, t, next);
  }

  lemma SameQuarantine(st: Store, s: Store, rec: Workspace, mode: Mode, p: WorkspaceProbe, t: ThreadId)
    requires s.threads == st.threads && s.claims == st.claims && s.activeOwners == st.activeOwners
    ensures Quarantines(s, rec, mode, p, t) <==> Quarantines(st, rec, mode, p, t)
  {
    SameFacts(st, s, rec);
    hide Served, Resumable, Driven;
  }

  lemma Shift(st: Store, open: seq<Workspace>, mode: Mode, probes: seq<WorkspaceProbe>, t: ThreadId, next: Store)
    requires |open| == |probes| > 0
    requires forall i | 0 <= i < |open[1..]| ::
               Quarantines(next, open[1..][i], mode, probes[1..][i], t) <==>
               Quarantines(st, open[i + 1], mode, probes[i + 1], t)
    ensures (exists i | 0 <= i < |open| :: Quarantines(st, open[i], mode, probes[i], t)) <==>
            || Quarantines(st, open[0], mode, probes[0], t)
            || exists i | 0 <= i < |open[1..]| :: Quarantines(next, open[1..][i], mode, probes[1..][i], t)
  {
    hide Quarantines;
    if exists i | 0 <= i < |open| :: Quarantines(st, open[i], mode, probes[i], t) {
      var i :| 0 <= i < |open| && Quarantines(st, open[i], mode, probes[i], t);
      if i > 0 { assert Quarantines(next, open[1..][i - 1], mode, probes[1..][i - 1], t); }
    }
  }
}
