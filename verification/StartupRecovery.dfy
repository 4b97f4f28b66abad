/**
 The startup recovery sequence: the active-thread pass, the repair of cancelled
 window members, then the follow pass; and how the two passes share the work.
 */
module StartupRecovery {
  import opened Prelude
  import opened RecoveryStore
  import opened ThreadRecovery
  import opened ThreadRecoveryLaws
  import opened ThreadDispositions
  import opened RecoveryPass
  import opened PassDispositions
  import opened FollowRecovery
  import opened FollowRecoveryLaws
  import opened FollowWaking

  function RepairAll(st: Store, roots: seq<ThreadId>): Store
    decreases |roots|
  {
    if roots == [] then st else RepairAll(RepairCancelled(st, roots[0]), roots[1..])
  }

  /** Everything about a thread that recovery never rewrites. */
  predicate SameBirth(a: ThreadRow, b: ThreadRow) {
    && a.id == b.id && a.chainRoot == b.chainRoot && a.kind == b.kind && a.itemRef == b.itemRef
    && a.launchMode == b.launchMode && a.upstream == b.upstream && a.metadata == b.metadata
  }

  /** The same threads by birth, and the same follow bookkeeping. */
  ghost predicate SameLineage(a: Store, b: Store) {
    && a.threads.Keys == b.threads.Keys
    && (forall t | t in a.threads :: SameBirth(a.threads[t], b.threads[t]))
    && a.waiters == b.waiters && a.childChains == b.childChains && a.followEdges == b.followEdges
  }

  lemma PutKeepsBirth(st: Store, at: ThreadId, row: ThreadRow, t: ThreadId)
    requires at in st.threads && t in st.threads && SameBirth(st.threads[at], row)
    ensures t in PutRow(st, at, row).threads && SameBirth(st.threads[t], PutRow(st, at, row).threads[t])
  {
  }

  lemma ApplyKeepsBirth(st: Store, e: Effect, t: ThreadId)
    requires t in st.threads
    ensures t in Apply(st, e).threads && SameBirth(st.threads[t], Apply(st, e).threads[t])
  {
    hide PutRow, Released;
    if e.t !in st.threads { return; }
    var row := st.threads[e.t];
    match e {
      case Observe(_, _, at) => PutKeepsBirth(st, e.t, row.(deadSeenAt := Some(at)), t);
      case ClearProcess(_, _) =>
        PutKeepsBirth(st, e.t, row.(pid := None, pgid := None, identity := None, deadSeenAt := None), t);
      case ClearWait(_) => PutKeepsBirth(st, e.t, row.(wait := None), t);
      case StartWait(_, deadline) => PutKeepsBirth(st, e.t, row.(wait := Some(deadline)), t);
      case Finalize(_, status) =>
        PutKeepsBirth(st, e.t, row.(status := if row.stop.Some? then StopStatus(row.stop.value) else status), t);
      case Bump(_) => PutKeepsBirth(st, e.t, row.(attempts := row.attempts + 1), t);
      case Reset(_) => PutKeepsBirth(st, e.t, row.(attempts := 0), t);
      case ReleaseActive(_, _) =>
      case ReleaseClaim(_, _) =>
      case Emit(_, _) =>
    }
  }

  lemma ApplyKeepsLineage(st: Store, e: Effect)
    ensures SameLineage(st, Apply(st, e))
  {
    ApplyKeepsOwnership(st, e);
    hide Apply;
    forall t | t in st.threads ensures SameBirth(st.threads[t], Apply(st, e).threads[t]) {
      ApplyKeepsBirth(st, e, t);
    }
  }

  lemma LineageTransitive(a: Store, b: Store, c: Store)
    requires SameLineage(a, b) && SameLineage(b, c)
    ensures SameLineage(a, c)
  {
    forall t | t in a.threads ensures SameBirth(a.threads[t], c.threads[t]) {
      assert SameBirth(a.threads[t], b.threads[t]) && SameBirth(b.threads[t], c.threads[t]);
    }
  }

  lemma {:induction false} LogKeepsLineage(st: Store, es: seq<Effect>)
    ensures SameLineage(st, ApplyAll(st, es))
    decreases |es|
  {
    hide Apply;
    if es != [] {
      var pre := es[..|es| - 1];
      LogKeepsLineage(st, pre);
      ApplyKeepsLineage(ApplyAll(st, pre), es[|es| - 1]);
      LineageTransitive(st, ApplyAll(st, pre), ApplyAll(st, es));
    }
  }

  lemma RepairOneKeepsLineage(st: Store, root: ThreadId)
    ensures SameLineage(st, RepairCancelled(st, root))
  {
    ApplyKeepsLineage(st, Finalize(root, Cancelled));
    hide Apply;
  }

  lemma {:induction false} RepairKeepsLineage(st: Store, roots: seq<ThreadId>)
    ensures SameLineage(st, RepairAll(st, roots))
    decreases |roots|
  {
    hide RepairCancelled;
    if roots != [] {
      RepairOneKeepsLineage(st, roots[0]);
      RepairKeepsLineage(RepairCancelled(st, roots[0]), roots[1..]);
      LineageTransitive(st, RepairCancelled(st, roots[0]), RepairAll(st, roots));
    }
  }

  /** What the repair makes of one tombstoned member: dropped unless it runs, and cancelled if it never started. */
  ghost predicate Repaired(before: Store, after: Store, root: ThreadId) {
    && (root in after.windows <==> root in before.threads && before.threads[root].status.Running?)
    && (root in before.threads <==> root in after.threads)
    && (root in before.threads ==>
          var t := before.threads[root];
          after.threads[root] ==
          if t.status.Created? && t.identity.None?
          then t.(status := if t.stop.Some? then StopStatus(t.stop.value) else Cancelled) else t)
  }

  lemma RepairOne(st: Store, root: ThreadId)
    requires root in st.windows && st.windows[root].cancelled
    ensures Repaired(st, RepairCancelled(st, root), root)
  {
  }

  lemma RepairElsewhere(st: Store, other: ThreadId, root: ThreadId)
    requires other != root || root !in st.windows || !st.windows[root].cancelled
    ensures var r := RepairCancelled(st, other);
            Get(r.threads, root) == Get(st.threads, root) && Get(r.windows, root) == Get(st.windows, root)
  {
    if other != root { ElsewhereKeeps(st, Finalize(other, Cancelled), root); }
    ApplyKeepsOwnership(st, Finalize(other, Cancelled));
    hide Apply;
  }

  /** A running member keeps its tombstone and its row through every later repair. */
  lemma RepairAgain(st: Store, root: ThreadId)
    requires root in st.windows ==> root in st.threads && st.threads[root].status.Running?
    ensures var r := RepairCancelled(st, root);
            Get(r.threads, root) == Get(st.threads, root) && Get(r.windows, root) == Get(st.windows, root)
  {
  }

  lemma {:induction false} RepairedStays(st: Store, roots: seq<ThreadId>, root: ThreadId)
    requires root in st.windows ==> root in st.threads && st.threads[root].status.Running?
    ensures var r := RepairAll(st, roots);
            Get(r.threads, root) == Get(st.threads, root) && Get(r.windows, root) == Get(st.windows, root)
    decreases |roots|
  {
    hide RepairCancelled;
    if roots != [] {
      if roots[0] == root { RepairAgain(st, root); } else { RepairElsewhere(st, roots[0], root); }
      RepairedStays(RepairCancelled(st, roots[0]), roots[1..], root);
    }
  }

  /** Every tombstoned member named is repaired, whatever else the list repairs. */
  lemma {:induction false} RepairSettles(st: Store, roots: seq<ThreadId>, root: ThreadId)
    requires root in roots && root in st.windows && st.windows[root].cancelled
    ensures Repaired(st, RepairAll(st, roots), root)
    decreases |roots|
  {
    hide RepairCancelled;
    if roots[0] == root {
      RepairOne(st, root);
      RepairedStays(RepairCancelled(st, root), roots[1..], root);
    } else {
      RepairElsewhere(st, roots[0], root);
      RepairSettles(RepairCancelled(st, roots[0]), roots[1..], root);
    }
  }

  /** Contract of the follow spawner: a slot's child is a chain root with no upstream. */
  ghost predicate ChildrenAreRoots(st: Store) {
    forall k, i, t | k in st.waiters && 0 <= i < |st.waiters[k].children| && t in st.threads
                     && st.waiters[k].children[i].child == t :: st.threads[t].upstream.None?
  }

  /** A pending follow child is not due for any kind of intent. */
  lemma PendingIsNotDue(st: Store, s: Store, b: Store, row: ThreadRow, kind: ResumeKind)
    requires SameLineage(st, s) && SameLineage(st, b) && ChildrenAreRoots(st)
    requires row.id in st.threads && st.threads[row.id] == row && PendingFollowChild(b, b.threads[row.id])
    ensures !Due(s, row, kind)
  {
    assert SameBirth(row, b.threads[row.id]);
    var k := b.childChains[row.chainRoot];
    var w := b.waiters[k];
    var slot := SlotOf(w.children, row.id).value;
    var i :| 0 <= i < |w.children| && w.children[i] == slot;
    assert st.waiters[k].children[i].child == row.id;
    hide PendingFollowChild, LeftToResume;
  }

  lemma DueIsNotRelaunched(st: Store, s: Store, b: Store, row: ThreadRow, kind: ResumeKind, actions: seq<Action>)
    requires SameLineage(st, s) && SameLineage(st, b) && ChildrenAreRoots(st)
    requires row.id in st.threads && st.threads[row.id] == row && Due(s, row, kind) && OnlyPending(b, actions)
    ensures RelaunchChild(row.id) !in actions
  {
    hide Due, PendingFollowChild, SameLineage, ChildrenAreRoots;
    forall j | 0 <= j < |actions| ensures actions[j] != RelaunchChild(row.id) {
      if actions[j].RelaunchChild? && row.id in b.threads && PendingFollowChild(b, b.threads[row.id]) {
        PendingIsNotDue(st, s, b, row, kind);
      }
    }
  }

  /**
   No overlap: whatever the active-thread pass and the window repair did, no
   thread is both a resume intent of the first pass and a child relaunch of the
   follow pass.
   */
  lemma PassesDoNotOverlap(st: Store, rows: seq<ThreadRow>, c: Config, probes: seq<Probe>,
                           roots: seq<ThreadId>, ws: seq<Waiter>, now: int, t: ThreadId, kind: ResumeKind)
    requires |probes| == |rows| && Listed(st, rows) && ChildrenAreRoots(st)
    requires Emit(t, kind) in ThreadPass(st, rows, c, probes).log
    ensures var repaired := RepairAll(ApplyAll(st, ThreadPass(st, rows, c, probes).log), roots);
            RelaunchChild(t) !in WaiterTurns(repaired, ws, now).actions
  {
    var log := ThreadPass(st, rows, c, probes).log;
    var r, k := PassIntentIsDue(st, rows, c, probes, t, kind);
    hide ThreadPass, PendingFollowChild, RepairAll, WaiterTurns, Due;
    LogKeepsLineage(st, log[..k]);
    LogKeepsLineage(st, log);
    hide ApplyAll;
    var repaired := RepairAll(ApplyAll(st, log), roots);
    RepairKeepsLineage(ApplyAll(st, log), roots);
    LineageTransitive(st, ApplyAll(st, log), repaired);
    RelaunchesOnlyPending(repaired, ws, now);
    DueIsNotRelaunched(st, ApplyAll(st, log[..k]), repaired, rows[r], kind, WaiterTurns(repaired, ws, now).actions);
  }

  /** Contract of the follow spawner: a follow edge runs from a thread's upstream, and recorded successors have one. */
  ghost predicate SuccessorsFollow(st: Store) {
    && (forall u, t | (u, t) in st.followEdges && t in st.threads :: st.threads[t].upstream == Some(u))
    && (forall k | k in st.waiters && st.waiters[k].successor.Some? ::
          (st.waiters[k].parent, st.waiters[k].successor.value) in st.followEdges)
  }

  /** A thread over a follow edge is due only for the checkpoint resume of a run already begun. */
  lemma FollowSuccessorDue(st: Store, s: Store, row: ThreadRow, kind: ResumeKind)
    requires row.upstream.Some? && (row.upstream.value, row.id) in st.followEdges && s.followEdges == st.followEdges
    requires Due(s, row, kind)
    ensures kind == NativeResume && row.status.Running?
  {
    hide PendingFollowChild;
  }

  /**
   No second launch of a successor that never ran: if an intent of the first
   pass is for the successor of a waiter that the follow pass wakes, it is the
   checkpoint resume of a successor that was already running.
   */
  lemma WokenSuccessorIsStarted(st: Store, rows: seq<ThreadRow>, c: Config, probes: seq<Probe>,
                                roots: seq<ThreadId>, ws: seq<Waiter>, now: int, i: nat, t: ThreadId, kind: ResumeKind)
    requires |probes| == |rows| && Listed(st, rows) && SuccessorsFollow(st)
    requires Emit(t, kind) in ThreadPass(st, rows, c, probes).log
    requires var repaired := RepairAll(ApplyAll(st, ThreadPass(st, rows, c, probes).log), roots);
             var r := WaiterTurns(repaired, ws, now);
             && ListedWaiters(repaired, ws) && !r.failed && i < |ws| && ResumeParent(ws[i].key) in r.actions
             && ws[i].key in r.store.waiters && r.store.waiters[ws[i].key].successor == Some(t)
    ensures kind == NativeResume && t in st.threads && st.threads[t].status == Running
  {
    var log := ThreadPass(st, rows, c, probes).log;
    var q, k := PassIntentIsDue(st, rows, c, probes, t, kind);
    hide ThreadPass, RepairAll, WaiterTurns, Due, OwnsChains;
    LogKeepsLineage(st, log[..k]);
    LogKeepsLineage(st, log);
    hide ApplyAll;
    var repaired := RepairAll(ApplyAll(st, log), roots);
    RepairKeepsLineage(ApplyAll(st, log), roots);
    WokenIffDeliverable(repaired, ws, now, i);
    assert st.waiters[ws[i].key] == ws[i];
    assert (ws[i].parent, t) in st.followEdges by { hide SlotsSettle; }
    assert rows[q] == st.threads[t];
    FollowSuccessorDue(st, ApplyAll(st, log[..k]), rows[q], kind);
  }

  /** A successor that began to run and can be resumed from its checkpoint. */
  predicate StartedAndResumable(st: Store, row: ThreadRow) {
    row.status.Running? && Resumable(st, row) && row.metadata.value.driver.Some? && !Unrecoverable(row)
  }

  /** The probe of a startup on which nothing stands in the way. */
  const CLEAR_PROBE := Probe(DeadOrStale, Alive, true, DeadOrStale, true, SameBoot, DeadOrStale,
                             true, true, true, true, Available, false, 0)

  /**
   When the two passes can meet: some startup turn of a follow successor gives
   it an intent, of whatever kind, if and only if it was already running and can
   be resumed.  For a successor still `created` they never do.
   */
  lemma SuccessorIntentIff(st: Store, row: ThreadRow, c: Config)
    requires c.mode.Startup? && row.id !in c.blocked && Recovering(st, row, c.passive)
    requires row.upstream.Some? && (row.upstream.value, row.id) in st.followEdges
    ensures (exists p, kind :: Emit(row.id, kind) in TurnOf(st, row, c, p).effects) <==> StartedAndResumable(st, row)
  {
    hide TurnOf, ThreadTurn, Resumable, Executable, ProvenGone, PendingFollowChild;
    forall p, kind | Emit(row.id, kind) in TurnOf(st, row, c, p).effects ensures StartedAndResumable(st, row) {
      StartupTurnDecides(st, row, c.passive, p, kind);
      TurnOfIs(st, row, c, p);
      FollowSuccessorDue(st, st, row, kind);
    }
    if StartedAndResumable(st, row) {
      StartupTurnDecides(st, row, c.passive, CLEAR_PROBE, NativeResume);
      TurnOfIs(st, row, c, CLEAR_PROBE);
      assert Emit(row.id, NativeResume) in TurnOf(st, row, c, CLEAR_PROBE).effects;
    }
  }

  /** They do meet on every such successor whose waiter was not retired yet; the launch claim decides between them. */
  lemma StartedSuccessorMeets(st: Store, row: ThreadRow, c: Config, roots: seq<ThreadId>, w: Waiter, now: int)
    requires c.mode.Startup? && row.id !in c.blocked && Recovering(st, row, c.passive) && StartedAndResumable(st, row)
    requires Deliverable(w) && w.successor == Some(row.id)
    ensures var log := ThreadPass(st, [row], c, [CLEAR_PROBE]).log;
            && Emit(row.id, NativeResume) in log
            && ResumeParent(w.key) in WaiterTurns(RepairAll(ApplyAll(st, log), roots), [w], now).actions
  {
    hide TurnOf, ThreadTurn, Resumable, Executable, WaiterTurn;
    StartupTurnDecides(st, row, c.passive, CLEAR_PROBE, NativeResume);
    TurnOfIs(st, row, c, CLEAR_PROBE);
    var log := ThreadPass(st, [row], c, [CLEAR_PROBE]).log;
    DeliverableIsWoken(RepairAll(ApplyAll(st, log), roots), w, now);
  }

  /** The thread still stands where it stood, without a process group. */
  predicate StillUnlaunched(a: Store, b: Store, t: ThreadId) {
    && t in a.threads && t in b.threads
    && b.threads[t].status == a.threads[t].status
    && (a.threads[t].pgid.None? ==> b.threads[t].pgid.None?)
  }

  lemma ApplyKeepsUnlaunched(st: Store, e: Effect, t: ThreadId)
    requires t in st.threads && (e.t == t ==> Quiet(e))
    ensures StillUnlaunched(st, Apply(st, e), t)
  {
    hide PutRow, Released;
    if e.t !in st.threads { return; }
    var row := st.threads[e.t];
    if e.t != t {
      forall x ensures t in PutRow(st, e.t, x).threads && PutRow(st, e.t,
          x).threads[t] == st.threads[t] { PutElsewhere(st, e.t, x, t); }
    } else {
      forall x ensures t in PutRow(st, t, x).threads && PutRow(st, t, x).threads[t] == x { PutHere(st, t, x); }
    }
  }

  lemma PutElsewhere(st: Store, at: ThreadId, row: ThreadRow, t: ThreadId)
    requires at != t && t in st.threads
    ensures t in PutRow(st, at, row).threads && PutRow(st, at, row).threads[t] == st.threads[t]
  {
  }

  lemma PutHere(st: Store, t: ThreadId, row: ThreadRow)
    ensures t in PutRow(st, t, row).threads && PutRow(st, t, row).threads[t] == row
  {
  }

  lemma {:induction false} LogKeepsUnlaunched(st: Store, es: seq<Effect>, t: ThreadId)
    requires t in st.threads && forall i | 0 <= i < |es| && es[i].t == t :: Quiet(es[i])
    ensures StillUnlaunched(st, ApplyAll(st, es), t)
    decreases |es|
  {
    hide Apply;
    if es != [] {
      LogKeepsUnlaunched(st, es[..|es| - 1], t);
      ApplyKeepsUnlaunched(ApplyAll(st, es[..|es| - 1]), es[|es| - 1], t);
    }
  }

  lemma {:induction false} RepairKeepsOrSettles(st: Store, roots: seq<ThreadId>, t: ThreadId)
    requires t in st.threads
    ensures t in RepairAll(st, roots).threads
    ensures RepairAll(st, roots).threads[t] == st.threads[t] || Terminal(RepairAll(st, roots).threads[t].status)
    decreases |roots|
  {
    if roots != [] {
      RepairKeepsOrSettles(RepairCancelled(st, roots[0]), roots[1..], t);
    }
  }

  lemma PendingSlotAgrees(a: Store, b: Store, key: string, slot: Slot)
    requires SameLineage(a, b) && PendingSlot(a, key, slot) && StillUnlaunched(a, b, slot.child)
    ensures PendingSlot(b, key, slot)
  {
    assert SameBirth(a.threads[slot.child], b.threads[slot.child]);
  }

  /**
   No gap: a pending child that the active-thread pass left unsettled, in an
   unsettled slot of a waiting waiter, is relaunched, queued, inserted into its
   launch window or cancelled by the time a successful follow pass ends.
   */
  lemma PassesLeaveNoGap(st: Store, rows: seq<ThreadRow>, c: Config, probes: seq<Probe>, log: seq<Effect>,
                         roots: seq<ThreadId>, ws: seq<Waiter>, now: int, i: nat, j: nat)
    requires |probes| == |rows| && log == ThreadPass(st, rows, c, probes).log
    requires forall a, b | 0 <= a < b < |ws| :: ws[a].key != ws[b].key
    requires i < |ws| && ws[i].phase.Waiting? && j < |ws[i].children|
    requires PendingSlot(st, ws[i].key, ws[i].children[j])
    requires forall k | 0 <= k < |log| && log[k].t == ws[i].children[j].child :: Quiet(log[k])
    ensures var slot := ws[i].children[j];
            var repaired := RepairAll(ApplyAll(st, log), roots);
            var r := WaiterTurns(repaired, ws, now);
            || r.failed
            || (slot.child in repaired.threads && Terminal(repaired.threads[slot.child].status))
            || Covered(r.store, r.actions, slot)
  {
    var slot := ws[i].children[j];
    hide ThreadPass, PendingFollowChild, WaiterTurns;
    var left := ApplyAll(st, log);
    LogKeepsUnlaunched(st, log, slot.child);
    LogKeepsLineage(st, log);
    hide ApplyAll;
    PendingSlotAgrees(st, left, ws[i].key, slot);
    var repaired := RepairAll(left, roots);
    RepairKeepsOrSettles(left, roots, slot.child);
    RepairKeepsLineage(left, roots);
    hide RepairAll;
    if !Terminal(repaired.threads[slot.child].status) {
      PendingSlotAgrees(left, repaired, ws[i].key, slot);
      FollowPassCovers(repaired, ws, now, i, j);
    }
  }
}
