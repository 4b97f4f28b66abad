/**
 Recovery of execution workspaces: what one pass does to one open workspace
 row and its root directory, and what holds over whole runs with crashes
 between the durable writes.
 */
module WorkspaceRecovery {
  import opened Prelude
  import opened RecoveryStore
  import opened ThreadRecovery

  /** A durable row transition, a directory removal, or the binding of a frozen snapshot. */
  datatype WorkspaceEffect =
    | Move(rec: Workspace, expected: WorkspaceState, next: WorkspaceState)
    | Remove(rec: Workspace, complete: bool)   // an incomplete removal leaves the root in place
    | BindFrozen(rec: Workspace, hash: string)

  datatype WorkspaceProbe = WorkspaceProbe(
    group: Liveness,        // liveness of the recorded or runtime group, when an identity exists
    quiesced: bool, terminated: bool, foldable: bool, hash: string,
    destroyProven: bool,    // backend identity and destroy evidence match the journal
    removed: bool)

  datatype WorkspaceTurn = WorkspaceTurn(effects: seq<WorkspaceEffect>, blocks: bool, failed: bool)

  function ClaimOf(st: Store, rec: Workspace): Option<Claim> {
    if rec.thread.Some? then Get(st.claims, rec.thread.value) else None
  }

  predicate OwnerClaims(st: Store, rec: Workspace) {
    var claim := ClaimOf(st, rec);
    claim.Some? && rec.owner == Some(claim.value.owner)
  }

  predicate OwnerActive(st: Store, rec: Workspace) {
    OwnerClaims(st, rec) && ClaimOf(st, rec).value.owner in st.activeOwners
  }

  predicate OwnerReplaced(st: Store, rec: Workspace) {
    var claim := ClaimOf(st, rec);
    claim.Some? && rec.owner != Some(claim.value.owner)
  }

  function ThreadOf(st: Store, rec: Workspace): Option<ThreadRow> {
    if rec.thread.Some? then Get(st.threads, rec.thread.value) else None
  }

  predicate NonterminalOwner(st: Store, rec: Workspace) {
    var thread := ThreadOf(st, rec);
    thread.Some? && !Terminal(thread.value.status)
  }

  function GroupIdentity(st: Store, rec: Workspace): Option<ProcessIdentity> {
    var thread := ThreadOf(st, rec);
    if OwnerClaims(st, rec) && thread.Some? && thread.value.identity.Some? then thread.value.identity else rec.identity
  }

  function GroupLiveness(st: Store, rec: Workspace, p: WorkspaceProbe): Liveness {
    if GroupIdentity(st, rec).Some? then p.group else DeadOrStale
  }

  predicate Bound(rec: Workspace) {
    rec.thread.Some? && rec.owner.Some?
  }

  /** The compare-and-swap of a row transition, fenced by the owner tuple when the record is bound. */
  predicate CanMove(st: Store, rec: Workspace, expected: WorkspaceState) {
    && rec.id in st.workspaces
    && st.workspaces[rec.id].state == expected
    && (Bound(rec) ==>
          && st.workspaces[rec.id].thread == rec.thread
          && st.workspaces[rec.id].owner == rec.owner
          && !OwnerActive(st, rec))
  }

  function ApplyW(st: Store, e: WorkspaceEffect): Store {
    match e
    case Move(rec, expected, next) =>
      if CanMove(st, rec, expected)
      then st.(workspaces := st.workspaces[rec.id := st.workspaces[rec.id].(state := next)]) else st
    case Remove(rec, complete) => if complete then st.(roots := st.roots - {rec.root}) else st
    case BindFrozen(rec, hash) =>
      if rec.id in st.workspaces
      then st.(workspaces := st.workspaces[rec.id := st.workspaces[rec.id].(frozen := Some(hash))]) else st
  }

  function ApplyAllW(st: Store, es: seq<WorkspaceEffect>): Store
    decreases |es|
  {
    if es == [] then st else ApplyAllW(ApplyW(st, es[0]), es[1..])
  }

  /** Remove the root, and only then close the row. */
  function RemoveAndClose(rec: Workspace, p: WorkspaceProbe): seq<WorkspaceEffect> {
    [Remove(rec, p.removed)] + (if p.removed then [Move(rec, Closing, Closed)] else [])
  }

  /** `cleanup_dead_execution_workspace`: `rec` is still the record read before any transition. */
  function Cleanup(st: Store, rec: Workspace, p: WorkspaceProbe): seq<WorkspaceEffect> {
    if rec.state.Closing? then RemoveAndClose(rec, p)
    else if rec.thread.None? != rec.owner.None? then []
    else if Bound(rec) && (OwnerActive(st, rec) || !p.destroyProven || (!rec.created
        && !rec.state.Constructing?)) then []
    else if !CanMove(st, rec, Orphaned) then []
    else [Move(rec, Orphaned, Closing)] + RemoveAndClose(rec, p)
  }

  /** Replay a journaled freeze; `None` when it cannot be recovered. */
  function RecoverFreeze(st: Store, rec: Workspace, p: WorkspaceProbe): Option<seq<WorkspaceEffect>> {
    if rec.frozen.Some? then Some([])
    else if p.foldable && Bound(rec) && OwnerClaims(st, rec)
            && rec.id in st.workspaces && st.workspaces[rec.id].state.Freezing?
            && st.workspaces[rec.id].thread == rec.thread && st.workspaces[rec.id].owner == rec.owner
    then Some([BindFrozen(rec, p.hash)])
    else None
  }

  function FreezeTurn(st: Store, rec: Workspace, p: WorkspaceProbe): WorkspaceTurn {
    var group := GroupLiveness(st, rec, p);
    if group.Unavailable? || (group.Alive? && !p.quiesced) then WorkspaceTurn([], true, false)
    else
      match RecoverFreeze(st, rec, p)
      case None => WorkspaceTurn([], true, false)
      case Some(es) => WorkspaceTurn(es, false, group.Alive? && !p.terminated)
  }

  /** The whole turn of one open workspace. */
  function Turn(st: Store, rec: Workspace, mode: Mode, p: WorkspaceProbe): WorkspaceTurn {
    if mode.Live? && OwnerActive(st, rec) then WorkspaceTurn([], false, false)
    else if rec.state.Closing? then WorkspaceTurn(Cleanup(st, rec, p), false, false)
    else if rec.state.Freezing? && NonterminalOwner(st, rec) && !OwnerReplaced(st, rec) then FreezeTurn(st, rec, p)
    else if !GroupLiveness(st, rec, p).DeadOrStale? then WorkspaceTurn([], false, false)
    else if mode.Live? && rec.thread.None? && rec.owner.None? then WorkspaceTurn([], false, false)
    else if rec.state.Orphaned? then WorkspaceTurn(Cleanup(st, rec, p), false, false)
    else if !CanMove(st, rec, rec.state) then WorkspaceTurn([], false, true)
    else
      var orphan := Move(rec, rec.state, Orphaned);
      WorkspaceTurn([orphan] + Cleanup(ApplyW(st, orphan), rec, p), false, false)
  }

  // ----- Runs -----

  datatype Event =
    | Sweep(rec: Workspace, mode: Mode, p: WorkspaceProbe, cut: nat)
    | Other(next: Store)

  function Executed(st: Store, ev: Event): seq<WorkspaceEffect>
    requires ev.Sweep?
  {
    var es := Turn(st, ev.rec, ev.mode, ev.p).effects;
    if ev.cut < |es| then es[..ev.cut] else es
  }

  function Step(st: Store, ev: Event): Store {
    match ev
    case Sweep(_, _, _, _) => ApplyAllW(st, Executed(st, ev))
    case Other(next) => next
  }

  function Run(st: Store, run: seq<Event>): Store {
    if run == [] then st else Step(Run(st, run[..|run| - 1]), run[|run| - 1])
  }

  predicate Shutting(s: WorkspaceState) {
    s.Closing? || s.Closed?
  }

  /** A row keeps its root path for ever, and a closing row can only become closed. */
  ghost predicate RowsAdvance(st: Store, next: Store) {
    forall id | id in st.workspaces ::
      && id in next.workspaces
      && next.workspaces[id].root == st.workspaces[id].root
      && (st.workspaces[id].state.Closing? ==> Shutting(next.workspaces[id].state))
      && (st.workspaces[id].state.Closed? ==> next.workspaces[id].state.Closed?)
  }

  ghost predicate ClosedMeansGone(st: Store) {
    forall id | id in st.workspaces && st.workspaces[id].state.Closed? :: st.workspaces[id].root !in st.roots
  }

  /** The record a sweep works from was read from the store at some earlier point of the run. */
  ghost predicate Read(st: Store, run: seq<Event>, rec: Workspace) {
    && !rec.state.Closed?   // only open rows are listed
    && exists j | 0 <= j <= |run| ::
      rec.id in Run(st, run[..j]).workspaces && Run(st, run[..j]).workspaces[rec.id] == rec
  }

  /** Other tasks advance rows, and never leave a closed row with its root on disk. */
  ghost predicate EventOk(st: Store, pre: seq<Event>, ev: Event) {
    && (ev.Sweep? ==> Read(st, pre, ev.rec))
    && (ev.Other? ==> RowsAdvance(Run(st, pre), ev.next) && ClosedMeansGone(ev.next))
  }

  ghost predicate ValidRun(st: Store, run: seq<Event>) {
    forall i | 0 <= i < |run| :: EventOk(st, run[..i], run[i])
  }

  /** What each executed write may do, judged on the store it lands on. */
  ghost predicate SafeWrite(st: Store, e: WorkspaceEffect, ev: Event)
    requires ev.Sweep?
  {
    match e
    case Move(rec, expected, next) =>
      && (CanMove(st, rec, expected) ==>
            && st.workspaces[rec.id].state == expected
            && (rec.thread.Some? && rec.owner.Some? ==>
                  && st.workspaces[rec.id].thread == rec.thread && st.workspaces[rec.id].owner == rec.owner
                  && !OwnerActive(st, rec)))
      && (next.Closed? && CanMove(st, rec, expected) ==> st.workspaces[rec.id].root !in st.roots)
      && (next.Orphaned? ==>
            && GroupLiveness(st, rec, ev.p).DeadOrStale?
            && (ev.mode.Live? ==> !OwnerActive(st, rec) && !(rec.thread.None? && rec.owner.None?)))
      && (!Shutting(expected) || next.Closed?)
    case Remove(rec, _) =>
      rec.id in st.workspaces && st.workspaces[rec.id].root == rec.root && Shutting(st.workspaces[rec.id].state)
    case BindFrozen(rec, _) => rec.id in st.workspaces && st.workspaces[rec.id].state.Freezing?
  }

  /** Every write of the list is safe where it lands. */
  ghost predicate SafeWrites(st: Store, es: seq<WorkspaceEffect>, ev: Event)
    requires ev.Sweep?
    decreases |es|
  {
    es == [] || (SafeWrite(st, es[0], ev) && SafeWrites(ApplyW(st, es[0]), es[1..], ev))
  }

  /** The record agrees with the stored row on its root, and a closing record with a closing row. */
  predicate Current(st: Store, rec: Workspace) {
    && rec.id in st.workspaces && st.workspaces[rec.id].root == rec.root
    && (rec.state.Closing? ==> Shutting(st.workspaces[rec.id].state))
    && !rec.state.Closed?
  }

  lemma SafeWriteKeeps(st: Store, e: WorkspaceEffect, ev: Event)
    requires ev.Sweep? && SafeWrite(st, e, ev) && ClosedMeansGone(st)
    ensures RowsAdvance(st, ApplyW(st, e)) && ClosedMeansGone(ApplyW(st, e))
  {
  }

  /** Safe writes, cut anywhere by a crash, keep the saga's invariants. */
  lemma {:induction false} SafePrefix(st: Store, es: seq<WorkspaceEffect>, cut: nat, ev: Event)
    requires ev.Sweep? && SafeWrites(st, es, ev) && cut <= |es| && ClosedMeansGone(st)
    ensures SafeWrites(st, es[..cut], ev)
    ensures RowsAdvance(st, ApplyAllW(st, es[..cut])) && ClosedMeansGone(ApplyAllW(st, es[..cut]))
    decreases |es|
  {
    if cut > 0 {
      assert es[..cut][0] == es[0] && es[..cut][1..] == es[1..][..cut - 1];
      SafeWriteKeeps(st, es[0], ev);
      hide ApplyW, SafeWrite;
      SafePrefix(ApplyW(st, es[0]), es[1..], cut - 1, ev);
    }
  }

  lemma RemoveAndCloseSafe(st: Store, ev: Event)
    requires ev.Sweep? && Current(st, ev.rec) && Shutting(st.workspaces[ev.rec.id].state)
    ensures SafeWrites(st, RemoveAndClose(ev.rec, ev.p), ev)
  {
    var es := RemoveAndClose(ev.rec, ev.p);
    if ev.p.removed {
      var close := Move(ev.rec, Closing, Closed);
      assert es[1..] == [close] && es[1..][1..] == [];
      assert SafeWrite(ApplyW(st, es[0]), close, ev);
    }
  }

  lemma CleanupSafe(st: Store, ev: Event)
    requires ev.Sweep? && Current(st, ev.rec)
    ensures SafeWrites(st, Cleanup(st, ev.rec, ev.p), ev)
  {
    var es := Cleanup(st, ev.rec, ev.p);
    if ev.rec.state.Closing? {
      RemoveAndCloseSafe(st, ev);
    } else if es != [] {
      var closing := Move(ev.rec, Orphaned, Closing);
      assert es == [closing] + RemoveAndClose(ev.rec, ev.p) && es[1..] == RemoveAndClose(ev.rec, ev.p);
      RemoveAndCloseSafe(ApplyW(st, closing), ev);
    }
  }

  lemma TurnSafe(st: Store, ev: Event)
    requires ev.Sweep? && Current(st, ev.rec)
    ensures SafeWrites(st, Turn(st, ev.rec, ev.mode, ev.p).effects, ev)
  {
    hide Cleanup;
    var es := Turn(st, ev.rec, ev.mode, ev.p).effects;
    CleanupSafe(st, ev);
    if es != [] && es[0] == Move(ev.rec, ev.rec.state, Orphaned) {
      var st1 := ApplyW(st, es[0]);
      if es[1..] == Cleanup(st1, ev.rec, ev.p) {
        CleanupSafe(st1, ev);
      }
    }
  }

  /** Event i of a run advances rows, and every write it lands is safe. */
  ghost predicate SafeAt(st: Store, run: seq<Event>, i: nat)
    requires i < |run|
  {
    var before := Run(st, run[..i]);
    && RowsAdvance(before, Run(st, run[..i + 1]))
    && (run[i].Sweep? ==> SafeWrites(before, Executed(before, run[i]), run[i]))
  }

  lemma {:induction false} KeepsCurrent(st: Store, run: seq<Event>, rec: Workspace, j: nat)
    requires j <= |run| && Current(Run(st, run[..j]), rec)
    requires forall i | 0 <= i < |run| :: SafeAt(st, run, i)
    ensures Current(Run(st, run), rec)
    decreases |run| - j
  {
    hide Run, SafeWrites;
    if j == |run| {
      assert run[..j] == run;
    } else {
      assert SafeAt(st, run, j);
      KeepsCurrent(st, run, rec, j + 1);
    }
  }

  /**
   The workspace saga over whole runs.  Whatever interleaving of passes,
   crashes between durable writes and other tasks occurs: a row becomes Closed
   only when its root is gone and stays so, a root is removed only for a row
   already durably Closing (or closed since), a row becomes Orphaned only when
   its process group was found dead, in a live sweep never one that is not bound
   to a thread yet, a bound record moves only a row still bound to the same
   owner while that owner is not active, and no row ever leaves Closing except
   to Closed.
   */
  lemma {:induction false} SagaIsSafe(st: Store, run: seq<Event>)
    requires ValidRun(st, run) && ClosedMeansGone(st)
    ensures ClosedMeansGone(Run(st, run))
    ensures forall i | 0 <= i < |run| :: SafeAt(st, run, i)
    decreases |run|
  {
    if run == [] { return; }
    hide Step, SafeAt, ClosedMeansGone, RowsAdvance, EventOk, SafeWrites, Executed;
    var n := |run| - 1;
    var pre := run[..n];
    ValidPrefix(st, run);
    hide ValidRun;
    SagaIsSafe(st, pre);
    assert Run(st, run) == Step(Run(st, pre), run[n]);
    StepSafe(st, pre, run[n]);
    forall i | 0 <= i < |run| ensures SafeAt(st, run, i) {
      SafeAtExtends(st, run, i);
    }
  }

  lemma ValidPrefix(st: Store, run: seq<Event>)
    requires run != [] && ValidRun(st, run)
    ensures ValidRun(st, run[..|run| - 1]) && EventOk(st, run[..|run| - 1], run[|run| - 1])
  {
    hide EventOk;
    var pre := run[..|run| - 1];
    assert forall i | 0 <= i < |pre| :: pre[..i] == run[..i] && pre[i] == run[i];
  }

  lemma SafeAtExtends(st: Store, run: seq<Event>, i: nat)
    requires i < |run|
    requires var n := |run| - 1; var s := Run(st, run[..n]);
             if i < n then SafeAt(st, run[..n], i)
             else RowsAdvance(s, Step(s, run[n])) && (run[n].Sweep? ==> SafeWrites(s, Executed(s, run[n]), run[n]))
    ensures SafeAt(st, run, i)
  {
    hide Step, RowsAdvance, SafeWrites, Executed;
    var n := |run| - 1;
    var pre := run[..n];
    if i < n {
      assert pre[..i] == run[..i] && pre[..i + 1] == run[..i + 1] && pre[i] == run[i];
    } else {
      assert run[..n + 1] == run && Run(st, run) == Step(Run(st, pre), run[n]);
    }
  }

  lemma StepSafe(st: Store, pre: seq<Event>, ev: Event)
    requires forall i | 0 <= i < |pre| :: SafeAt(st, pre, i)
    requires ClosedMeansGone(Run(st, pre))
    requires EventOk(st, pre, ev)
    ensures var s := Run(st, pre);
            && RowsAdvance(s, Step(s, ev)) && ClosedMeansGone(Step(s, ev))
            && (ev.Sweep? ==> SafeWrites(s, Executed(s, ev), ev))
  {
    var s := Run(st, pre);
    if ev.Sweep? {
      var j :| 0 <= j <= |pre| && ev.rec.id in Run(st, pre[..j]).workspaces
               && Run(st, pre[..j]).workspaces[ev.rec.id] == ev.rec;
      KeepsCurrent(st, pre, ev.rec, j);
      hide Run;
      TurnSafe(s, ev);
      hide Turn, SafeWrites;
      var es := Turn(s, ev.rec, ev.mode, ev.p).effects;
      var cut := if ev.cut < |es| then ev.cut else |es|;
      SafePrefix(s, es, cut, ev);
      assert es[..|es|] == es;
    }
  }

  // ----- Freezing workspaces -----

  /** A row someone may still resume: Freezing, its thread live, its owner not replaced. */
  predicate FreezeHeld(st: Store, rec: Workspace) {
    rec.state.Freezing? && NonterminalOwner(st, rec) && !OwnerReplaced(st, rec)
  }

  /** The journaled freeze can be trusted: the group is gone or quiesced, and the snapshot is or can be bound. */
  predicate FreezeRecovers(st: Store, rec: Workspace, p: WorkspaceProbe) {
    && !GroupLiveness(st, rec, p).Unavailable? && (GroupLiveness(st, rec, p).Alive? ==> p.quiesced)
    && RecoverFreeze(st, rec, p).Some?
  }

  /** A startup turn on such a row binds its snapshot or blocks its thread, and does nothing else. */
  lemma FreezingTurn(st: Store, rec: Workspace, p: WorkspaceProbe)
    requires FreezeHeld(st, rec)
    ensures var t := Turn(st, rec, Startup, p);
            && (t.blocks <==> !FreezeRecovers(st, rec, p))
            && t.effects == (if FreezeRecovers(st, rec, p) then RecoverFreeze(st, rec, p).value else [])
            && (t.failed <==> !t.blocks && GroupLiveness(st, rec, p).Alive? && !p.terminated)
  {
  }

  lemma RemoveAndCloseIsLocal(rec: Workspace, p: WorkspaceProbe)
    ensures forall e | e in RemoveAndClose(rec, p) :: e.rec == rec
  {
  }

  /** A turn writes only its own row and root. */
  lemma TurnIsLocal(st: Store, rec: Workspace, mode: Mode, p: WorkspaceProbe)
    ensures forall e | e in Turn(st, rec, mode, p).effects :: e.rec == rec
  {
    RemoveAndCloseIsLocal(rec, p);
    hide RemoveAndClose, CanMove;
  }

  /** The row and root of another workspace, as far as a freeze needs them. */
  predicate SameRow(st: Store, next: Store, id: string, root: string) {
    && (id in st.workspaces ==> id in next.workspaces && next.workspaces[id] == st.workspaces[id])
    && (root in st.roots ==> root in next.roots)
  }

  lemma {:induction false} LocalWritesKeepRow(st: Store, es: seq<WorkspaceEffect>, id: string, root: string)
    requires forall e | e in es :: e.rec.id != id && e.rec.root != root
    ensures SameRow(st, ApplyAllW(st, es), id, root)
    decreases |es|
  {
    if es != [] {
      assert es[0] in es && forall e | e in es[1..] :: e in es;
      LocalWritesKeepRow(ApplyW(st, es[0]), es[1..], id, root);
    }
  }
}
