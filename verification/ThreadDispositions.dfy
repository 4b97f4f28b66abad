/**
 Which threads a reconciliation turn resumes, finalizes, drains or leaves, on
 the store alone: for every kind of intent what the store must hold, and at
 startup exactly when the intent or the finalization is written.
 */
module ThreadDispositions {
  import opened Prelude
  import opened RecoveryStore
  import opened ThreadRecovery
  import opened ThreadRecoveryLaws

  function ResumeOf(row: ThreadRow): Option<ResumeContext> {
    if row.metadata.Some? then row.metadata.value.resume else None
  }

  /** A never-launched successor with its launch authority, whose edge is not a follow edge. */
  predicate Stranded(st: Store, row: ThreadRow) {
    && row.status.Created? && row.upstream.Some? && ResumeOf(row).Some? && row.metadata.value.driver.Some?
    && row.upstream.value in st.threads && (row.upstream.value, row.id) !in st.followEdges
  }

  /** The upstream settled as `continued` and names this thread its successor. */
  predicate MachineDue(st: Store, row: ThreadRow) {
    && Stranded(st, row)
    && st.threads[row.upstream.value].status == Continued
    && st.threads[row.upstream.value].successor == Some(row.id)
  }

  /** The upstream completed or failed, names this thread, and an operator asked for the continuation. */
  predicate OperatorDue(st: Store, row: ThreadRow) {
    && Stranded(st, row)
    && st.threads[row.upstream.value].status in {Completed, Failed}
    && st.threads[row.upstream.value].successor == Some(row.id)
    && row.upstream.value in st.fingerprints
  }

  /** An admitted root that no follow waiter owns and that never got a process. */
  predicate RootDue(st: Store, row: ThreadRow) {
    && row.status.Created? && row.upstream.None? && row.pgid.None? && row.capsule
    && ResumeOf(row).Some? && row.metadata.value.sealed.Some? && row.metadata.value.driver.Some?
    && (row.chainRoot in st.childChains ==> st.childChains[row.chainRoot] !in st.waiters)
  }

  /** No other owner: the thread ran before, or was created and nobody else is to launch it. */
  predicate LeftToResume(st: Store, row: ThreadRow) {
    || row.status.Running?
    || (&& row.status.Created?
        && (row.upstream.Some? && ResumeOf(row).Some? ==>
              Stranded(st, row) && !MachineDue(st, row) && !OperatorDue(st, row))
        && !PendingFollowChild(st, row) && !RootDue(st, row)
        && (row.chainRoot in st.windows ==> st.windows[row.chainRoot].launched))
  }

  /** A declared native resume with its context, and stored attempts below the declared maximum. */
  predicate Resumable(st: Store, row: ThreadRow) {
    && row.id in st.threads && ResumeOf(row).Some? && row.metadata.value.nativeResume.Some?
    && st.threads[row.id].attempts % 0x1_0000_0000 < row.metadata.value.nativeResume.value
  }

  /** What each kind of intent needs. */
  predicate Due(st: Store, row: ThreadRow, kind: ResumeKind) {
    match kind
    case Continuation => MachineDue(st, row)
    case OperatorContinuation => OperatorDue(st, row)
    case AdmittedRoot => RootDue(st, row)
    case NativeResume => LeftToResume(st, row) && Resumable(st, row) && row.metadata.value.driver.Some?
  }

  /** The counter could be read and durably bumped; only a native resume needs it. */
  predicate Counted(p: Probe, kind: ResumeKind) {
    kind.NativeResume? ==> p.attemptsIo && p.bumpIo
  }

  /** A pending follow child has a waiter, so it is never a root of its own. */
  lemma PendingIsNoRoot(st: Store, row: ThreadRow)
    ensures PendingFollowChild(st, row) ==> !RootDue(st, row)
  {
  }

  /** The resume stage writes its intent exactly for a resumable thread with a driver. */
  lemma ResumeEmits(st: Store, row: ThreadRow, p: Probe, kind: ResumeKind)
    ensures Emit(row.id, kind) in ResumeStage(st, row, p).effects <==>
            kind.NativeResume? && Resumable(st, row) && row.metadata.value.driver.Some? && p.attemptsIo && p.bumpIo
  {
  }

  lemma OwnershipEmits(st: Store, row: ThreadRow, p: Probe, kind: ResumeKind)
    ensures Emit(row.id, kind) in OwnershipFrom(st, row, p).effects <==>
            || (kind.AdmittedRoot? && RootDue(st, row))
            || (&& kind.NativeResume? && !PendingFollowChild(st, row) && !RootDue(st, row)
                && (row.status.Created? && row.chainRoot in st.windows ==> st.windows[row.chainRoot].launched)
                && Resumable(st, row) && row.metadata.value.driver.Some? && p.attemptsIo && p.bumpIo)
  {
    ResumeEmits(st, row, p, kind);
    PendingIsNoRoot(st, row);
    hide ResumeStage, PendingFollowChild, Resumable;
  }

  lemma NotCreatedIsFree(st: Store, row: ThreadRow)
    requires !row.status.Created?
    ensures !PendingFollowChild(st, row)
  {
  }

  /** The stages after authority write an intent exactly when it is due. */
  lemma ContinuationEmits(st: Store, row: ThreadRow, p: Probe, kind: ResumeKind)
    requires !Terminal(row.status)
    ensures Emit(row.id, kind) in ContinuationFrom(st, row, p).effects <==> Due(st, row, kind) && Counted(p, kind)
  {
    OwnershipEmits(st, row, p, kind);
    if !row.status.Created? { NotCreatedIsFree(st, row); }
    hide OwnershipFrom, PendingFollowChild, Resumable;
  }

  /** They finalize exactly the threads nobody else owns and that cannot be resumed. */
  lemma ContinuationFinalizes(st: Store, row: ThreadRow, p: Probe)
    requires !Terminal(row.status)
    ensures Finalize(row.id, Failed) in ContinuationFrom(st, row, p).effects <==>
            LeftToResume(st, row) && !(Resumable(st, row) && p.attemptsIo && p.bumpIo)
    ensures forall e | e in ContinuationFrom(st, row, p).effects && e.Finalize? :: e == Finalize(row.id, Failed)
  {
    ResumeFinalizes(st, row, p);
    PendingIsNoRoot(st, row);
    if !row.status.Created? { NotCreatedIsFree(st, row); }
    hide ResumeStage, PendingFollowChild, Resumable;
  }

  lemma ResumeFinalizes(st: Store, row: ThreadRow, p: Probe)
    ensures Finalize(row.id, Failed) in ResumeStage(st, row, p).effects <==>
            !(Resumable(st, row) && p.attemptsIo && p.bumpIo)
    ensures forall e | e in ResumeStage(st, row, p).effects && e.Finalize? :: e == Finalize(row.id, Failed)
  {
  }

  /** What a disposition reads of one stored thread. */
  predicate SameFact(a: ThreadRow, b: ThreadRow) {
    b.status == a.status && b.successor == a.successor && b.attempts == a.attempts && b.stop == a.stop
  }

  ghost predicate SameFacts(a: Store, b: Store) {
    SameOwnership(a, b) && forall t | t in a.threads :: SameFact(a.threads[t], b.threads[t])
  }

  lemma PutKeepsFact(st: Store, at: ThreadId, row: ThreadRow, t: ThreadId)
    requires at in st.threads && t in st.threads && SameFact(st.threads[at], row)
    ensures t in PutRow(st, at, row).threads && SameFact(st.threads[t], PutRow(st, at, row).threads[t])
  {
  }

  lemma QuietKeepsFact(st: Store, e: Effect, t: ThreadId)
    requires Quiet(e) && t in st.threads
    ensures t in Apply(st, e).threads && SameFact(st.threads[t], Apply(st, e).threads[t])
  {
    if e.t in st.threads {
      forall row | SameFact(st.threads[e.t], row)
        ensures t in PutRow(st, e.t, row).threads && SameFact(st.threads[t], PutRow(st, e.t, row).threads[t])
      {
        PutKeepsFact(st, e.t, row, t);
      }
    }
    hide PutRow, Released;
  }

  lemma QuietKeepsFacts(st: Store, e: Effect)
    requires Quiet(e)
    ensures SameFacts(st, Apply(st, e))
  {
    ApplyKeepsOwnership(st, e);
    hide Apply;
    forall t | t in st.threads ensures SameFact(st.threads[t], Apply(st, e).threads[t]) {
      QuietKeepsFact(st, e, t);
    }
  }

  lemma {:induction false} AllQuietKeepsFacts(st: Store, t: ThreadId, es: seq<Effect>)
    requires AllQuiet(t, es)
    ensures SameFacts(st, ApplyAll(st, es))
    decreases |es|
  {
    hide Apply;
    if es != [] {
      AllQuietKeepsFacts(st, t, es[..|es| - 1]);
      QuietKeepsFacts(ApplyAll(st, es[..|es| - 1]), es[|es| - 1]);
    }
  }

  lemma FactsDecide(a: Store, b: Store, row: ThreadRow, kind: ResumeKind)
    requires SameFacts(a, b)
    ensures Due(a, row, kind) <==> Due(b, row, kind)
    ensures LeftToResume(a, row) <==> LeftToResume(b, row)
    ensures Resumable(a, row) <==> Resumable(b, row)
  {
    AccountedOwners(a, b, row);
    hide PendingFollowChild, Queued, FollowSuccessor;
  }

  /** The admitted launch may be recovered, and its live project, if it has one, is there. */
  predicate AuthorityStands(row: ThreadRow, p: Probe) {
    && !row.incompatible
    && (ResumeOf(row).Some? ==>
          ResumeOf(row).value.restartRecoverable && (ResumeOf(row).value.liveProject ==> p.authority.Available?))
  }

  /** The admitted launch can never be recovered. */
  predicate Unrecoverable(row: ThreadRow) {
    row.incompatible || (ResumeOf(row).Some? && !ResumeOf(row).value.restartRecoverable)
  }

  /** The live project is gone for good, or has been missing past the recorded deadline. */
  predicate AuthorityLost(row: ThreadRow, wait: Option<int>, p: Probe) {
    && !Unrecoverable(row) && ResumeOf(row).Some? && ResumeOf(row).value.liveProject
    && (p.authority.Permanent? || (p.authority.Transient? && wait.Some? && wait.value <= p.now < I64_MAX))
  }

  lemma AuthorityDecides(st: Store, row: ThreadRow, p: Probe, kind: ResumeKind)
    requires Unowned(st, row)
    ensures var a := AuthorityStage(st, row, p);
            var lost := AuthorityLost(row, st.threads[row.id].wait, p);
            && (a.flow.Go? <==> AuthorityStands(row, p))
            && Emit(row.id, kind) !in a.effects
            && (Finalize(row.id, Failed) in a.effects <==> Unrecoverable(row) || (lost && !p.admissionClosed))
            && (Reset(row.id) in a.effects <==> lost && p.admissionClosed)
            && (a.flow.Go? ==> AllQuiet(row.id, a.effects))
  {
  }

  lemma ContinuationNeverResets(st: Store, row: ThreadRow, p: Probe)
    ensures Reset(row.id) !in ContinuationFrom(st, row, p).effects
  {
    hide PendingFollowChild;
  }

  /** The finalization condition of a thread with neither process nor claim left. */
  predicate Lost(st: Store, row: ThreadRow, wait: Option<int>, p: Probe) {
    || Unrecoverable(row)
    || (AuthorityLost(row, wait, p) && !p.admissionClosed)
    || (AuthorityStands(row, p) && LeftToResume(st, row) && !(Resumable(st, row) && p.attemptsIo && p.bumpIo))
  }

  lemma ClassifyDecides(st: Store, row: ThreadRow, p: Probe, kind: ResumeKind)
    requires Unowned(st, row)
    ensures var es := Classify(st, row, p).effects;
            var wait := st.threads[row.id].wait;
            && (Emit(row.id, kind) in es <==> AuthorityStands(row, p) && Due(st, row, kind) && Counted(p, kind))
            && (Finalize(row.id, Failed) in es <==> Lost(st, row, wait, p))
            && (Reset(row.id) in es <==> AuthorityLost(row, wait, p) && p.admissionClosed)
  {
    var a := AuthorityStage(st, row, p);
    AuthorityDecides(st, row, p, kind);
    hide AuthorityStage, ContinuationFrom, ApplyAll;
    if a.flow.Go? {
      var st1 := ApplyAll(st, a.effects);
      AllQuietKeepsFacts(st, row.id, a.effects);
      FactsDecide(st, st1, row, kind);
      ContinuationEmits(st1, row, p, kind);
      ContinuationFinalizes(st1, row, p);
      ContinuationNeverResets(st1, row, p);
      hide Due, LeftToResume, Resumable, SameFacts;
    }
  }

  /** The thread may run: its kind executes, or it has a process or launch state all the same. */
  predicate Executable(passive: set<string>, row: ThreadRow) {
    row.kind !in passive || row.pid.Some? || row.pgid.Some? || row.identity.Some? || row.metadata.Some?
  }

  /** The stored row is the listed one: a live executable thread without a stop request. */
  predicate Recovering(st: Store, row: ThreadRow, passive: set<string>) {
    && row.id in st.threads && st.threads[row.id] == row
    && !Terminal(row.status) && row.stop.None? && Executable(passive, row)
  }

  /**
   The thread has no process; or its group was killed, or was found dead with
   its leader dead and either another boot or no member left; and the process
   could be cleared.
   */
  predicate Freed(row: ThreadRow, p: Probe) {
    || row.identity.None?
    || (&& p.clearIo
        && (|| (p.group == Alive && p.kill)
            || (p.group == DeadOrStale && p.target == DeadOrStale
                && (p.boot == OtherBoot || (p.boot == SameBoot && p.presence == DeadOrStale)))))
  }

  lemma OrphanGoes(st: Store, row: ThreadRow, p: Probe)
    requires row.id in st.threads && st.threads[row.id] == row
    ensures var o := OrphanStage(st, row, Startup, p);
            (o.flow.Go? <==> Freed(row, p)) && (!o.flow.Go? ==> o == Stage([], Leave))
            && AllQuiet(row.id, o.effects)
  {
  }

  lemma RecoveringTurn(st: Store, row: ThreadRow, passive: set<string>, p: Probe)
    requires Recovering(st, row, passive)
    ensures var claim := Get(st.claims, row.id);
            ThreadTurn(st, row, claim, false, passive, Startup, p).effects ==
            OrphanFrom(st, row, claim, Startup, p).effects
  {
    hide OrphanFrom;
    ApplyNothing(st);
    var claim := Get(st.claims, row.id);
    assert LiveGate(st, row, claim, Startup, p) == Stage([], Go);
    assert [] + OrphanFrom(st, row, claim, Startup, p).effects == OrphanFrom(st, row, claim, Startup, p).effects;
  }

  /** A startup turn first forgets the process and the claim, then classifies; or it writes nothing. */
  lemma StartupTurnShape(st: Store, row: ThreadRow, passive: set<string>, p: Probe) returns (pre: seq<Effect>)
    requires Recovering(st, row, passive)
    ensures var es := ThreadTurn(st, row, Get(st.claims, row.id), false, passive, Startup, p).effects;
            if Freed(row, p)
            then && AllQuiet(row.id, pre) && Unowned(ApplyAll(st, pre), row)
                 && es == pre + Classify(ApplyAll(st, pre), row, p).effects
                 && ApplyAll(st, pre).threads[row.id].wait == row.wait
            else es == []
  {
    hide ThreadTurn, ApplyAll, Classify, OrphanStage, Freed, Executable, Unowned;
    var claim := Get(st.claims, row.id);
    var o := OrphanStage(st, row, Startup, p);
    var released := ReleaseSnapshot(row, claim);
    pre := o.effects + released;
    RecoveringTurn(st, row, passive, p);
    OrphanGoes(st, row, p);
    if Freed(row, p) {
      ClearedIsUnowned(st, row, p);
      WaitIsKept(st, row, p);
      ApplyAllAppend(st, o.effects, released);
      var c := Classify(ApplyAll(st, pre), row, p).effects;
      assert o.effects + (released + c) == pre + c;
    }
  }

  /** Quiet writes before a list do not change which decisions are in it. */
  lemma AfterQuiet(t: ThreadId, pre: seq<Effect>, es: seq<Effect>, e: Effect)
    requires AllQuiet(t, pre) && !Quiet(e)
    ensures e in pre + es <==> e in es
  {
  }

  lemma WaitIsKept(st: Store, row: ThreadRow, p: Probe)
    requires row.id in st.threads && st.threads[row.id] == row && OrphanStage(st, row, Startup, p).flow.Go?
    ensures var st1 := ApplyAll(st, OrphanStage(st, row, Startup, p).effects);
            var st2 := ApplyAll(st1, ReleaseSnapshot(row, Get(st.claims, row.id)));
            row.id in st2.threads && st2.threads[row.id].wait == row.wait
  {
    var o := OrphanStage(st, row, Startup, p);
    var nop := Emit(row.id, NativeResume);
    ApplyShort(st, if row.identity.Some? then o.effects[0] else nop, nop, nop);
    var st1 := ApplyAll(st, o.effects);
    ApplyShort(st1, if row.id in st.claims then ReleaseClaim(row.id, st.claims[row.id].id) else nop, nop, nop);
  }

  /**
   A startup turn decides on the store alone.  It resumes a thread as the given
   kind if and only if its process is gone, its launch authority stands and the
   store holds what that kind needs; it finalizes it if and only if its
   authority is lost for good or nobody else owns it and it cannot be resumed;
   and it re-arms its budget instead while the daemon is shutting down.
   */
  lemma StartupTurnDecides(st: Store, row: ThreadRow, passive: set<string>, p: Probe, kind: ResumeKind)
    requires Recovering(st, row, passive)
    ensures var es := ThreadTurn(st, row, Get(st.claims, row.id), false, passive, Startup, p).effects;
            && (Emit(row.id, kind) in es <==>
                  Freed(row, p) && AuthorityStands(row, p) && Due(st, row, kind) && Counted(p, kind))
            && (Finalize(row.id, Failed) in es <==> Freed(row, p) && Lost(st, row, row.wait, p))
            && (Reset(row.id) in es <==> Freed(row, p) && AuthorityLost(row, row.wait, p) && p.admissionClosed)
  {
    hide ThreadTurn, Classify, ApplyAll, Due, LeftToResume, Resumable, SameFacts, Unowned, Freed, AuthorityStands;
    hide AuthorityLost, Unrecoverable, AllQuiet, Executable;
    var pre := StartupTurnShape(st, row, passive, p);
    if Freed(row, p) {
      var st1 := ApplyAll(st, pre);
      var es := Classify(st1, row, p).effects;
      ClassifyDecides(st1, row, p, kind);
      AllQuietKeepsFacts(st, row.id, pre);
      FactsDecide(st, st1, row, kind);
      AfterQuiet(row.id, pre, es, Emit(row.id, kind));
      AfterQuiet(row.id, pre, es, Finalize(row.id, Failed));
      AfterQuiet(row.id, pre, es, Reset(row.id));
    }
  }

  /** Every intent in a list has what its kind needs, on this store. */
  ghost predicate AllDue(st: Store, row: ThreadRow, p: Probe, es: seq<Effect>) {
    forall i | 0 <= i < |es| && es[i].Emit? ::
      Due(st, row, es[i].kind) && Counted(p, es[i].kind) && AuthorityStands(row, p)
  }

  lemma PrependDue(st: Store, row: ThreadRow, p: Probe, pre: seq<Effect>, es: seq<Effect>)
    requires AllQuiet(row.id, pre) && AllDue(ApplyAll(st, pre), row, p, es)
    ensures AllDue(st, row, p, pre + es)
  {
    AllQuietKeepsFacts(st, row.id, pre);
    hide ApplyAll, Due, SameFacts, AuthorityStands;
    forall i | 0 <= i < |pre + es| && (pre + es)[i].Emit?
      ensures Due(st, row, (pre + es)[i].kind) && Counted(p, (pre + es)[i].kind) && AuthorityStands(row, p)
    {
      assert (pre + es)[i] == es[i - |pre|];
      FactsDecide(st, ApplyAll(st, pre), row, es[i - |pre|].kind);
    }
  }

  lemma QuietIsDue(st: Store, row: ThreadRow, p: Probe, es: seq<Effect>)
    requires AllQuiet(row.id, es)
    ensures AllDue(st, row, p, es)
  {
  }

  lemma AuthorityGoes(st: Store, row: ThreadRow, p: Probe)
    ensures AuthorityStage(st, row, p).flow.Go? ==> AuthorityStands(row, p)
    ensures !Emits(AuthorityStage(st, row, p).effects)
  {
  }

  lemma ClassifyIsDue(st: Store, row: ThreadRow, p: Probe)
    requires !Terminal(row.status)
    ensures AllDue(st, row, p, Classify(st, row, p).effects)
  {
    var a := AuthorityStage(st, row, p);
    AuthorityGoes(st, row, p);
    AuthorityLaw(st, row, p);
    hide AuthorityStage, ContinuationFrom, ApplyAll, Due, AuthorityStands;
    if a.flow.Go? {
      var st1 := ApplyAll(st, a.effects);
      var es := ContinuationFrom(st1, row, p).effects;
      ContinuationLaw(st1, row, p);
      forall i | 0 <= i < |es| && es[i].Emit? ensures Due(st1, row, es[i].kind) && Counted(p, es[i].kind) {
        assert es[i] == Emit(row.id, es[i].kind);
        ContinuationEmits(st1, row, p, es[i].kind);
      }
      PrependDue(st, row, p, a.effects, es);
    }
  }

  lemma OrphanIsDue(st: Store, row: ThreadRow, claim: Option<Claim>, mode: Mode, p: Probe)
    requires !Terminal(row.status)
    ensures AllDue(st, row, p, OrphanFrom(st, row, claim, mode, p).effects)
  {
    hide Classify, ApplyAll, AllDue, ProvenGone, HasIdentity;
    var o := OrphanStage(st, row, mode, p);
    var released := ReleaseSnapshot(row, claim);
    var st1 := ApplyAll(st, o.effects);
    ClassifyIsDue(ApplyAll(st1, released), row, p);
    PrependDue(st1, row, p, released, Classify(ApplyAll(st1, released), row, p).effects);
    QuietIsDue(st, row, p, o.effects);
    PrependDue(st, row, p, o.effects, released + Classify(ApplyAll(st1, released), row, p).effects);
  }

  /** In either mode a turn writes an intent only for a thread the store says is due for that kind. */
  lemma IntentIsDue(st: Store, row: ThreadRow, claim: Option<Claim>, blocked: bool,
                    passive: set<string>, mode: Mode, p: Probe)
    ensures AllDue(st, row, p, ThreadTurn(st, row, claim, blocked, passive, mode, p).effects)
    ensures blocked || !Executable(passive, row) ==>
              ThreadTurn(st, row, claim, blocked, passive, mode, p).effects == []
  {
    hide LiveGate, RecoverFrom, ApplyAll, AllDue;
    QuietIsDue(st, row, p, []);
    if !blocked && !DaemonOwned(passive, row) {
      var g := LiveGate(st, row, claim, mode, p);
      LiveGateLaw(st, row, claim, mode, p);
      QuietIsDue(st, row, p, g.effects);
      var st1 := ApplyAll(st, g.effects);
      RecoverIsDue(st1, row, claim, mode, p);
      PrependDue(st, row, p, g.effects, RecoverFrom(st1, row, claim, mode, p).effects);
    }
  }

  lemma RecoverIsDue(st: Store, row: ThreadRow, claim: Option<Claim>, mode: Mode, p: Probe)
    ensures AllDue(st, row, p, RecoverFrom(st, row, claim, mode, p).effects)
  {
    hide OrphanFrom, StopStage, TerminalStage, Due, AuthorityStands;
    if row.stop.Some? {
      StopIsSilent(st, row, claim, p);
    } else if Terminal(row.status) {
      TerminalIsSilent(st, row, claim, p);
    } else {
      OrphanIsDue(st, row, claim, mode, p);
    }
  }

  /** The process and the claim the turn read are gone. */
  predicate Detached(st: Store, t: ThreadId) {
    t in st.threads && st.threads[t].identity.None? && t !in st.claims
  }

  lemma ClearStep(st: Store, row: ThreadRow)
    requires row.id in st.threads && st.threads[row.id] == row
    ensures var r := ApplyAll(st, if row.identity.Some? then [ClearProcess(row.id, row.identity.value)] else []);
            && row.id in r.threads && r.threads[row.id].identity.None? && r.claims == st.claims
            && SameFact(row, r.threads[row.id])
  {
    if row.identity.Some? {
      var e := ClearProcess(row.id, row.identity.value);
      ApplyShort(st, e, e, e);
    }
  }

  lemma ReleaseStep(st: Store, row: ThreadRow)
    ensures var r := ApplyAll(st, ReleaseSnapshot(row, Get(st.claims, row.id)));
            r.threads == st.threads && row.id !in r.claims
  {
    if row.id in st.claims {
      var e := ReleaseClaim(row.id, st.claims[row.id].id);
      ApplyShort(st, e, e, e);
    }
  }

  lemma SettleStep(st: Store, t: ThreadId, status: Status)
    requires Detached(st, t) && (st.threads[t].stop.Some? ==> status == StopStatus(st.threads[t].stop.value))
    ensures var r := ApplyAll(st, [Finalize(t, status)]);
            && Detached(r, t)
            && r.threads[t].status == if Terminal(st.threads[t].status) then st.threads[t].status else status
  {
    var e := Finalize(t, status);
    ApplyShort(st, e, e, e);
    hide ApplyAll;
  }

  lemma DrainDetaches(st: Store, row: ThreadRow, settle: seq<Effect>)
    requires row.id in st.threads && st.threads[row.id] == row
    requires settle == [] || settle == [Finalize(row.id, if row.stop.Some? then StopStatus(row.stop.value) else Failed)]
    ensures var clear := if row.identity.Some? then [ClearProcess(row.id, row.identity.value)] else [];
            var r := ApplyAll(st, clear + (ReleaseSnapshot(row, Get(st.claims, row.id)) + settle));
            && Detached(r, row.id)
            && r.threads[row.id].status ==
               if settle == [] || Terminal(row.status) then row.status else settle[0].status
  {
    var clear := if row.identity.Some? then [ClearProcess(row.id, row.identity.value)] else [];
    var released := ReleaseSnapshot(row, Get(st.claims, row.id));
    ApplyAllAppend(st, clear, released + settle);
    var st1 := ApplyAll(st, clear);
    ApplyAllAppend(st1, released, settle);
    ClearStep(st, row);
    ReleaseStep(st1, row);
    var st2 := ApplyAll(st1, released);
    ApplyNothing(st2);
    hide ApplyAll;
    if settle != [] { SettleStep(st2, row.id, settle[0].status); }
  }

  /**
   A stop request is honoured in either mode and never resumed: once the process
   is gone the thread loses its process and claim and ends with the requested
   status; until then nothing is written.
   */
  lemma StopSettles(st: Store, row: ThreadRow, passive: set<string>, mode: Mode, p: Probe)
    requires row.id in st.threads && st.threads[row.id] == row && row.stop.Some? && Executable(passive, row)
    ensures var es := ThreadTurn(st, row, Get(st.claims, row.id), false, passive, mode, p).effects;
            var r := ApplyAll(st, es);
            if Freed(row, p)
            then && Detached(r, row.id)
                 && r.threads[row.id].status ==
                    if Terminal(row.status) || !p.finalizeIo then row.status
                    else match row.stop.value case Cancel => Cancelled case Kill => Killed
            else es == []
  {
    assert !DaemonOwned(passive, row);
    hide ThreadTurn, ApplyAll, DaemonOwned, Executable, Detached, StopStage, Freed, ReleaseSnapshot;
    StoppedTurn(st, row, passive, mode, p);
    StopEffects(st, row, p);
    if Freed(row, p) {
      var settle :=
        if !Terminal(row.status) && p.finalizeIo then [Finalize(row.id, StopStatus(row.stop.value))] else [];
      DrainDetaches(st, row, settle);
    }
  }

  lemma StopEffects(st: Store, row: ThreadRow, p: Probe)
    requires row.id in st.threads && st.threads[row.id] == row && row.stop.Some?
    ensures var clear := if row.identity.Some? then [ClearProcess(row.id, row.identity.value)] else [];
            var settle :=
              if !Terminal(row.status) && p.finalizeIo then [Finalize(row.id, StopStatus(row.stop.value))] else [];
            StopStage(st, row, Get(st.claims, row.id), p).effects ==
            if Freed(row, p) then clear + (ReleaseSnapshot(row, Get(st.claims, row.id)) + settle) else []
  {
    hide ReleaseSnapshot;
  }

  lemma StoppedTurn(st: Store, row: ThreadRow, passive: set<string>, mode: Mode, p: Probe)
    requires row.stop.Some? && !DaemonOwned(passive, row)
    ensures var claim := Get(st.claims, row.id);
            ThreadTurn(st, row, claim, false, passive, mode, p).effects == StopStage(st, row, claim, p).effects
  {
    hide StopStage, DaemonOwned;
    ApplyNothing(st);
    var claim := Get(st.claims, row.id);
    assert LiveGate(st, row, claim, mode, p) == Stage([], Go);
    assert [] + StopStage(st, row, claim, p).effects == StopStage(st, row, claim, p).effects;
  }

  /** A terminal row still attached to a process is drained at startup, and its status stays. */
  lemma TerminalIsDrained(st: Store, row: ThreadRow, passive: set<string>, p: Probe)
    requires row.id in st.threads && st.threads[row.id] == row
    requires Terminal(row.status) && row.stop.None? && Executable(passive, row)
    ensures var es := ThreadTurn(st, row, Get(st.claims, row.id), false, passive, Startup, p).effects;
            var r := ApplyAll(st, es);
            if Freed(row, p) then Detached(r, row.id) && r.threads[row.id].status == row.status else es == []
  {
    assert !DaemonOwned(passive, row);
    hide ThreadTurn, ApplyAll, DaemonOwned, Executable, Detached, TerminalStage, Freed, ReleaseSnapshot;
    TerminalTurn(st, row, passive, p);
    TerminalEffects(st, row, p);
    DrainDetaches(st, row, []);
  }

  lemma TerminalEffects(st: Store, row: ThreadRow, p: Probe)
    requires row.id in st.threads && st.threads[row.id] == row
    ensures var clear := if row.identity.Some? then [ClearProcess(row.id, row.identity.value)] else [];
            TerminalStage(st, row, Get(st.claims, row.id), p).effects ==
            if Freed(row, p) then clear + (ReleaseSnapshot(row, Get(st.claims, row.id)) + []) else []
  {
    hide ReleaseSnapshot;
  }

  lemma TerminalTurn(st: Store, row: ThreadRow, passive: set<string>, p: Probe)
    requires Terminal(row.status) && row.stop.None? && !DaemonOwned(passive, row)
    ensures var claim := Get(st.claims, row.id);
            ThreadTurn(st, row, claim, false, passive, Startup, p).effects == TerminalStage(st, row, claim, p).effects
  {
    hide TerminalStage, DaemonOwned;
    ApplyNothing(st);
    var claim := Get(st.claims, row.id);
    assert LiveGate(st, row, claim, Startup, p) == Stage([], Go);
    assert [] + TerminalStage(st, row, claim, p).effects == TerminalStage(st, row, claim, p).effects;
  }

  /**
   A live sweep does not touch what somebody else is driving: a thread whose
   claim has an active owner is only noted as seen, unless its owner is revoked,
   and not even that before it has a process; and a follow-resume successor
   that has not started is left to the follow pass.
   */
  lemma LiveLeavesOwned(st: Store, row: ThreadRow, blocked: bool, passive: set<string>, p: Probe)
    requires row.stop.None?
    ensures var claim := Get(st.claims, row.id);
            var es := ThreadTurn(st, row, claim, blocked, passive, Live, p).effects;
            && (claim.Some? && claim.value.owner in st.activeOwners ==>
                  || ReleaseActive(row.id, claim.value) in es
                  || (forall i | 0 <= i < |es| :: es[i].Observe? && row.identity.Some?))
            && (row.status.Created? && row.identity.None? && row.upstream.Some? ==>
                  (row.upstream.value, row.id) in st.followEdges ==> es == [])
  {
    var claim := Get(st.claims, row.id);
    var g := LiveGate(st, row, claim, Live, p);
    var es := ThreadTurn(st, row, claim, blocked, passive, Live, p).effects;
    hide RecoverFrom, DaemonOwned;
    if g.flow.Go? && claim.Some? && claim.value.owner in st.activeOwners {
      assert g.effects[1] == ReleaseActive(row.id, claim.value);
      assert es == [] || es[1] == g.effects[1];
    }
  }

  /** The recorded wait after classification: kept only while the live project is missing and its deadline stands. */
  function WaitAfter(row: ThreadRow, wait: Option<int>, p: Probe): Option<int> {
    if Unrecoverable(row) then None
    else if ResumeOf(row).None? then wait
    else if !ResumeOf(row).value.liveProject || !p.authority.Transient? then None
    else if p.now >= I64_MAX then wait
    else if wait.None? then Some(Clamp(p.now + 15 * 60 * 1000))
    else if wait.value <= p.now then None
    else wait
  }

  predicate Waitless(es: seq<Effect>) {
    forall i | 0 <= i < |es| :: !es[i].ClearWait? && !es[i].StartWait?
  }

  lemma ApplyKeepsWait(st: Store, e: Effect, t: ThreadId)
    requires t in st.threads && !e.ClearWait? && !e.StartWait?
    ensures t in Apply(st, e).threads && Apply(st, e).threads[t].wait == st.threads[t].wait
  {
  }

  lemma {:induction false} WaitlessKeepsWait(st: Store, es: seq<Effect>, t: ThreadId)
    requires t in st.threads && Waitless(es)
    ensures t in ApplyAll(st, es).threads && ApplyAll(st, es).threads[t].wait == st.threads[t].wait
    decreases |es|
  {
    hide Apply;
    if es != [] {
      WaitlessKeepsWait(st, es[..|es| - 1], t);
      ApplyKeepsWait(ApplyAll(st, es[..|es| - 1]), es[|es| - 1], t);
    }
  }

  lemma ContinuationIsWaitless(st: Store, row: ThreadRow, p: Probe)
    ensures Waitless(ContinuationFrom(st, row, p).effects)
  {
    hide PendingFollowChild;
  }

  /** The stored wait of one thread, if it is there. */
  function WaitOf(st: Store, t: ThreadId): Option<int> {
    if t in st.threads then st.threads[t].wait else None
  }

  lemma WaitStep(st: Store, e: Effect)
    requires e.t in st.threads
    ensures e.t in Apply(st, e).threads
    ensures WaitOf(Apply(st, e), e.t) ==
            if e.ClearWait? then None
            else if e.StartWait? && WaitOf(st, e.t).None? then Some(e.deadline)
            else WaitOf(st, e.t)
  {
    if !e.ClearWait? && !e.StartWait? { ApplyKeepsWait(st, e, e.t); }
  }

  lemma WaitShort(st: Store, t: ThreadId, start: Effect, last: Effect)
    requires t in st.threads && start.StartWait? && start.t == t && (last == Finalize(t, Failed) || last == Reset(t))
    ensures WaitOf(ApplyAll(st, []), t) == WaitOf(st, t) && WaitOf(ApplyAll(st, [ClearWait(t)]), t) == None
    ensures WaitOf(ApplyAll(st, [ClearWait(t), last]), t) == None
    ensures WaitOf(ApplyAll(st, [start]), t) == if WaitOf(st, t).Some? then WaitOf(st, t) else Some(start.deadline)
    ensures WaitOf(ApplyAll(st, [start, last, ClearWait(t)]), t) == None
  {
    hide Apply, ApplyAll, WaitOf;
    var clear := ClearWait(t);
    ApplyNothing(st);
    ApplyShort(st, clear, last, last);
    ApplyShort(st, start, last, clear);
    WaitStep(st, clear);
    WaitStep(Apply(st, clear), last);
    WaitStep(st, start);
    WaitStep(Apply(st, start), last);
    WaitStep(Apply(Apply(st, start), last), clear);
  }

  /** The project is a live one and cannot be reached. */
  predicate Missing(row: ThreadRow, p: Probe) {
    !Unrecoverable(row) && ResumeOf(row).Some? && ResumeOf(row).value.liveProject && !p.authority.Available?
  }

  /** The writes for a missing project: refuse it, start or keep its wait, or refuse it past its deadline. */
  lemma MissingEffects(st: Store, row: ThreadRow, p: Probe)
    requires Unowned(st, row) && Missing(row, p)
    ensures var t, wait := row.id, st.threads[row.id].wait;
            var start := StartWait(t, Clamp(p.now + 15 * 60 * 1000));
            var last := if p.admissionClosed then Reset(t) else Finalize(t, Failed);
            AuthorityStage(st, row, p).effects ==
            if p.authority.Permanent? then [ClearWait(t), last]
            else if p.now >= I64_MAX then []
            else if wait.Some? && wait.value <= p.now then [start, last, ClearWait(t)]
            else [start]
  {
    var t, clear, start := row.id, ClearWait(row.id), StartWait(row.id, Clamp(p.now + 15 * 60 * 1000));
    var f, x := Finalize(t, Failed), Reset(t);
    assert [clear] + [f] == [clear, f] && [clear] + [x] == [clear, x];
    assert [start] + [f] + [clear] == [start, f, clear] && [start] + [x] + [clear] == [start, x, clear];
  }

  lemma MissingProjectWaits(st: Store, row: ThreadRow, p: Probe)
    requires Unowned(st, row) && Missing(row, p)
    ensures WaitOf(ApplyAll(st, AuthorityStage(st, row, p).effects), row.id) == WaitAfter(row, WaitOf(st, row.id), p)
  {
    var t, start := row.id, StartWait(row.id, Clamp(p.now + 15 * 60 * 1000));
    UnownedMeans(st, row);
    hide Apply, ApplyAll, Unowned, AuthorityStage;
    MissingEffects(st, row, p);
    WaitShort(st, t, start, Finalize(t, Failed));
    WaitShort(st, t, start, Reset(t));
  }

  lemma AuthorityWaits(st: Store, row: ThreadRow, p: Probe)
    requires Unowned(st, row) && row.wait == WaitOf(st, row.id)
    ensures WaitOf(ApplyAll(st, AuthorityStage(st, row, p).effects), row.id) == WaitAfter(row, row.wait, p)
  {
    var t, clear := row.id, ClearWait(row.id);
    UnownedMeans(st, row);
    hide Apply, ApplyAll, Unowned, WaitOf, SatAdd;
    if Missing(row, p) {
      MissingProjectWaits(st, row, p);
    } else {
      WaitShort(st, t, StartWait(t, 0), Finalize(t, Failed));
    }
  }

  /** At startup the wait a thread is left with once its process and claim are gone. */
  lemma StartupTurnWaits(st: Store, row: ThreadRow, passive: set<string>, p: Probe)
    requires Recovering(st, row, passive) && Freed(row, p)
    ensures var es := ThreadTurn(st, row, Get(st.claims, row.id), false, passive, Startup, p).effects;
            WaitOf(ApplyAll(st, es), row.id) == WaitAfter(row, row.wait, p)
  {
    hide ThreadTurn, Freed, Executable, Apply, WaitAfter;
    var pre := StartupTurnShape(st, row, passive, p);
    var st1 := ApplyAll(st, pre);
    assert row.id in st1.threads by { UnownedMeans(st1, row); }
    AuthorityWaits(st1, row, p);
    var a := AuthorityStage(st1, row, p);
    var c := Classify(st1, row, p).effects;
    ApplyAllAppend(st, pre, c);
    var st2 := ApplyAll(st1, a.effects);
    TurnKeepsOwnership(st1, a.effects);
    if a.flow.Go? {
      var rest := ContinuationFrom(st2, row, p).effects;
      ContinuationIsWaitless(st2, row, p);
      hide AuthorityStage, ContinuationFrom;
      ApplyAllAppend(st1, a.effects, rest);
      WaitlessKeepsWait(st2, rest, row.id);
    }
  }
}
