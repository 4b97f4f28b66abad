/**
 What the published counters mean: each is the largest value reported since its
 stage was entered, the pending count the smallest, the total the last one.
 */
module StartupReports {
  import opened Prelude
  import opened StartupStages
  import opened StartupCoordinator
  import opened StartupCoordinatorLaws

  /** The larger of an old value, if there is one, and a reported one. */
  predicate Larger(before: Option<nat>, reported: nat, after: Option<nat>) {
    && after.Some? && after.value >= reported && (before.Some? ==> after.value >= before.value)
    && (after.value == reported || after == before)
  }

  /** Pending heads left according to a report; none if it does not count them. */
  function Left(p: Progress): Option<nat> {
    if p.pendingTotal.None? then None
    else if p.pendingTotal.value <= p.pendingDone then Some(0)
    else Some(p.pendingTotal.value - p.pendingDone)
  }

  /** The smaller of an old count and a reported one, where either may be missing. */
  predicate Smaller(before: Option<nat>, reported: Option<nat>, after: Option<nat>) {
    && (before.Some? ==> after.Some? && after.value <= before.value)
    && (reported.Some? ==> after.Some? && after.value <= reported.value)
    && (after == before || after == reported)
  }

  /** The counters after one more report of the same stage. */
  predicate Reported(s: Snapshot, p: Progress, t: Snapshot) {
    && Larger(s.chainsDone, p.chainsDone, t.chainsDone)
    && Larger(s.threadsRestored, p.threadsRestored, t.threadsRestored)
    && Larger(s.eventsProjected, p.eventsProjected, t.eventsProjected)
    && Smaller(s.pendingHeads, Left(p), t.pendingHeads)
    && t.chainsTotal == p.chainsTotal && t.recoveryThreads == s.recoveryThreads
  }

  /** The projection counters are the same. */
  predicate SameCounters(s: Snapshot, t: Snapshot) {
    && t.chainsTotal == s.chainsTotal && t.chainsDone == s.chainsDone && t.threadsRestored == s.threadsRestored
    && t.eventsProjected == s.eventsProjected && t.pendingHeads == s.pendingHeads
  }

  lemma SameStageReport(c: Coordinator, p: Progress, k: Clock)
    requires Sound(c) && InStep(c) && MovesStage(c, RecoveryCall(p, k)) && DoRecovery(c, p, k).state.stage == c.stage
    ensures var d := DoRecovery(c, p, k).state;
            Reported(c.snapshot, p, d.snapshot) && d.snapshot.phaseStartedAt == c.snapshot.phaseStartedAt
            && d.phaseStarted == c.phaseStarted
  {
    var phase := RecoveryPhase(p.stage);
    StageMoves(c, RecoveryCall(p, k));
    AdvanceMovesOn(c.stage, phase);
    hide Publish, PublishAt, Advance, WirePhase, ValidTransition, ValidLifecycle;
    var s := RecoverySnapshot(c.snapshot, p, k);
    PublishKeepsClock(c.(snapshot := s, stage := Advance(c.stage, phase).value, phaseStarted := c.phaseStarted),
                      StartingResponse(c.identity, s));
  }

  /** A report that is taken is what both doors show from then on. */
  lemma ShownReport(c: Coordinator, p: Progress, k: Clock)
    requires Sound(c) && MovesStage(c, RecoveryCall(p, k)) && DoRecovery(c, p, k).ok
    ensures var d := DoRecovery(c, p, k).state;
            && d.uds.lifecycle.startup == d.snapshot && d.http.lifecycle == d.uds.lifecycle
            && d.uds.lifecycle.status.Starting?
            && d.snapshot.phase == RecoveryPhase(p.stage) && d.snapshot.updatedAt == k.now
            && d.snapshot.elapsedMs == k.elapsedMs && d.snapshot.sequence == c.snapshot.sequence + 1
  {
    var phase := RecoveryPhase(p.stage);
    hide PublishAt, Advance, WirePhase, ValidLifecycle;
    var s := RecoverySnapshot(c.snapshot, p, k);
    var b := c.(snapshot := s, stage := Advance(c.stage, phase).value,
                phaseStarted := if c.snapshot.phase == phase then c.phaseStarted else k.instant);
    PublishTogether(b, StartingResponse(c.identity, s));
  }

  /**
   An accepted projection update that stays in its stage: what both doors show
   is, counter by counter, the larger of what they showed and what was reported,
   the smaller for the pending heads, and the reported total; the phase clock
   and the recovery count stay.
   */
  lemma AcceptedUpdateShows(c: Coordinator, p: Progress, k: Clock)
    requires Sound(c) && InStep(c) && MovesStage(c, RecoveryCall(p, k)) && DoRecovery(c, p, k).ok
    requires DoRecovery(c, p, k).state.stage == c.stage
    ensures var d := DoRecovery(c, p, k).state;
            && Reported(c.snapshot, p, d.uds.lifecycle.startup) && d.http.lifecycle == d.uds.lifecycle
            && d.uds.lifecycle.startup.phaseStartedAt == c.snapshot.phaseStartedAt
            && d.uds.lifecycle.startup.updatedAt == k.now && d.uds.lifecycle.startup.elapsedMs == k.elapsedMs
            && d.uds.lifecycle.startup.sequence == c.snapshot.sequence + 1
  {
    hide DoRecovery, MovesStage, Reported;
    SameStageReport(c, p, k);
    ShownReport(c, p, k);
  }

  /** A progress update that leaves the projection counters alone, as the heartbeat and the thread count do. */
  ghost predicate LeavesProjection(call: Call) {
    call.ProgressCall? ==> forall s: Snapshot :: SameCounters(s, call.update(s))
  }

  /** The reports accepted since the current stage was entered, oldest first. */
  ghost function Reports(c: Coordinator, calls: seq<Call>): seq<Progress> {
    if calls == [] then []
    else
      var pre, last := calls[..|calls| - 1], calls[|calls| - 1];
      NextReports(Run(c, pre), last, Reports(c, pre))
  }

  ghost function NextReports(c: Coordinator, call: Call, reports: seq<Progress>): seq<Progress> {
    var kept := if Perform(c, call).state.stage == c.stage then reports else [];
    if call.RecoveryCall? && MovesStage(c, call) then kept + [call.progress] else kept
  }

  /** The value is the largest of those reported, and missing exactly when nothing was. */
  ghost predicate Largest(v: Option<nat>, reports: seq<Progress>, f: Progress -> nat) {
    && (v.None? <==> reports == [])
    && (v.Some? ==> (exists i | 0 <= i < |reports| :: f(reports[i]) == v.value)
                    && forall i | 0 <= i < |reports| :: f(reports[i]) <= v.value)
  }

  /** The smallest count of pending heads reported, and missing exactly when none counted them. */
  ghost predicate Smallest(v: Option<nat>, reports: seq<Progress>) {
    && (v.None? ==> forall i | 0 <= i < |reports| :: Left(reports[i]).None?)
    && (v.Some? ==> (exists i | 0 <= i < |reports| :: Left(reports[i]) == v)
                    && forall i | 0 <= i < |reports| && Left(reports[i]).Some? :: v.value <= Left(reports[i]).value)
  }

  const DONE: Progress -> nat := (p: Progress) => p.chainsDone
  const RESTORED: Progress -> nat := (p: Progress) => p.threadsRestored
  const PROJECTED: Progress -> nat := (p: Progress) => p.eventsProjected

  ghost predicate Tallied(s: Snapshot, reports: seq<Progress>) {
    && Largest(s.chainsDone, reports, DONE) && Largest(s.threadsRestored, reports, RESTORED)
    && Largest(s.eventsProjected, reports, PROJECTED) && Smallest(s.pendingHeads, reports)
    && s.chainsTotal == if reports == [] then None else reports[|reports| - 1].chainsTotal
  }

  lemma LargestGrows(before: Option<nat>, reports: seq<Progress>, f: Progress -> nat, p: Progress, after: Option<nat>)
    requires Largest(before, reports, f) && Larger(before, f(p), after)
    ensures Largest(after, reports + [p], f)
  {
    var all := reports + [p];
    if after.value == f(p) {
      assert f(all[|reports|]) == after.value;
    } else {
      var i :| 0 <= i < |reports| && f(reports[i]) == before.value;
      assert all[i] == reports[i];
    }
  }

  lemma SmallestShrinks(before: Option<nat>, reports: seq<Progress>, p: Progress, after: Option<nat>)
    requires Smallest(before, reports) && Smaller(before, Left(p), after)
    ensures Smallest(after, reports + [p])
  {
    var all := reports + [p];
    assert all[|reports|] == p && forall i | 0 <= i < |reports| :: all[i] == reports[i];
    if after.Some? {
      if after == Left(p) {
        assert Left(all[|reports|]) == after;
      } else {
        var i :| 0 <= i < |reports| && Left(reports[i]) == before;
        assert Left(all[i]) == after;
      }
    }
  }

  lemma ReportTallies(s: Snapshot, reports: seq<Progress>, p: Progress, t: Snapshot)
    requires Tallied(s, reports) && Reported(s, p, t)
    ensures Tallied(t, reports + [p])
  {
    hide Largest, Smallest, Larger, Smaller;
    LargestGrows(s.chainsDone, reports, DONE, p, t.chainsDone);
    LargestGrows(s.threadsRestored, reports, RESTORED, p, t.threadsRestored);
    LargestGrows(s.eventsProjected, reports, PROJECTED, p, t.eventsProjected);
    SmallestShrinks(s.pendingHeads, reports, p, t.pendingHeads);
  }

  lemma FirstReport(s: Snapshot, p: Progress)
    requires s.chainsTotal == p.chainsTotal && s.chainsDone == Some(p.chainsDone)
    requires s.threadsRestored == Some(p.threadsRestored) && s.eventsProjected == Some(p.eventsProjected)
    requires s.pendingHeads == Left(p)
    ensures Tallied(s, [p])
  {
    assert DONE([p][0]) == p.chainsDone && RESTORED([p][0]) == p.threadsRestored;
    assert PROJECTED([p][0]) == p.eventsProjected && Left([p][0]) == Left(p);
  }

  lemma NothingReported(s: Snapshot)
    requires ClearCounters(s) == s
    ensures Tallied(s, [])
  {
  }

  lemma SameTally(s: Snapshot, t: Snapshot, reports: seq<Progress>)
    requires Tallied(s, reports) && SameCounters(s, t)
    ensures Tallied(t, reports)
  {
    hide Largest, Smallest;
  }

  /** Every call but a report that is taken, or an entry into a new stage, leaves the projection counters alone. */
  lemma OtherCallsKeepCounters(c: Coordinator, call: Call)
    requires Sound(c) && InStep(c) && LeavesProjection(call) && Perform(c, call).state.stage == c.stage
    requires !(call.RecoveryCall? && MovesStage(c, call))
    ensures SameCounters(c.snapshot, Perform(c, call).state.snapshot)
  {
    StageMoves(c, call);
    if MovesStage(c, call) { AdvanceMovesOn(c.stage, PhaseOf(call)); }
    hide Publish, PublishAt, Advance, WirePhase, ValidTransition, ValidLifecycle, Sound, LeavesProjection;
    forall b: Coordinator, l: Lifecycle ensures Publish(b, l).state.snapshot == b.snapshot { PublishKeepsClock(b, l); }
    if call.ProgressCall? {
      var k := call.clock;
      var s := c.snapshot.(sequence := Next(c.snapshot.sequence), updatedAt := k.now, elapsedMs := k.elapsedMs);
      UpdateKeeps(call, s);
    }
  }

  lemma UpdateKeeps(call: Call, s: Snapshot)
    requires call.ProgressCall? && LeavesProjection(call)
    ensures SameCounters(s, call.update(s))
  {
  }

  lemma TallyStep(c: Coordinator, call: Call, reports: seq<Progress>)
    requires Sound(c) && InStep(c) && LeavesProjection(call) && Tallied(c.snapshot, reports)
    ensures Tallied(Perform(c, call).state.snapshot, NextReports(c, call, reports))
  {
    var d := Perform(c, call).state;
    hide Perform, Tallied, Sound, InStep, MovesStage;
    if d.stage == c.stage {
      if call.RecoveryCall? && MovesStage(c, call) {
        assert d == DoRecovery(c, call.progress, call.clock).state by { PerformsReport(c, call); }
        SameStageReport(c, call.progress, call.clock);
        ReportTallies(c.snapshot, reports, call.progress, d.snapshot);
      } else {
        OtherCallsKeepCounters(c, call);
        SameTally(c.snapshot, d.snapshot, reports);
      }
    } else {
      StageEntryResets(c, d, call);
      if call.RecoveryCall? {
        NewStageMoves(c, call);
        FirstReport(d.snapshot, call.progress);
        assert [] + [call.progress] == [call.progress];
      } else {
        NothingReported(d.snapshot);
      }
    }
  }

  lemma PerformsReport(c: Coordinator, call: Call)
    requires call.RecoveryCall?
    ensures Perform(c, call) == DoRecovery(c, call.progress, call.clock)
  {
  }

  lemma NewStageMoves(c: Coordinator, call: Call)
    requires Perform(c, call).state.stage != c.stage
    ensures MovesStage(c, call)
  {
    StageMoves(c, call);
  }

  /** No terminal publication is refused, and progress updates leave the projection counters alone. */
  ghost predicate CleanRun(c: Coordinator, calls: seq<Call>) {
    forall i | 0 <= i < |calls| :: LeavesProjection(calls[i]) && !Refused(At(c, calls, i), calls[i])
  }

  /**
   Over every run in which no terminal publication is refused and progress
   updates leave the projection counters alone: the chains done, threads
   restored and events projected are each the largest value reported since the
   current stage was entered, the pending heads the smallest, and the chain
   total the last one reported.  When the last call was a report that was
   taken, that is what both doors show.
   */
  lemma {:induction false} CountersAreReports(id: Identity, instant: nat, calls: seq<Call>)
    requires !Blank(id.startedAt)
    requires CleanRun(Bootstrap(id, instant), calls)
    ensures var c := Bootstrap(id, instant); Tallied(Run(c, calls).snapshot, Reports(c, calls))
    ensures calls != [] ==>
              var c := Bootstrap(id, instant);
              var before, last := Run(c, calls[..|calls| - 1]), calls[|calls| - 1];
              last.RecoveryCall? && MovesStage(before, last) && Perform(before, last).ok ==>
                var d := Run(c, calls);
                d.http.lifecycle == d.uds.lifecycle && Tallied(d.uds.lifecycle.startup, Reports(c, calls))
    decreases |calls|
  {
    var c := Bootstrap(id, instant);
    BootstrapSound(id, instant);
    BootstrapInStep(id, instant);
    if calls == [] {
      NothingReported(c.snapshot);
      return;
    }
    hide Perform, Tallied, Bootstrap, MovesStage, NextReports, LeavesProjection, Refused, InStep;
    var n := |calls| - 1;
    var pre, last := calls[..n], calls[n];
    PrefixIsClean(c, calls);
    assert forall i | 0 <= i < n :: !Refused(At(c, pre, i), pre[i]);
    hide CleanRun;
    CountersAreReports(id, instant, pre);
    CountersLaw(c, pre, n, n);
    RunStages(c, pre, n, n);
    assert pre[..n] == pre;
    var before := Run(c, pre);
    TallyStep(before, last, Reports(c, pre));
    if last.RecoveryCall? && MovesStage(before, last) && Perform(before, last).ok {
      PerformsReport(before, last);
      ShownReport(before, last.progress, last.clock);
    }
  }

  lemma PrefixIsClean(c: Coordinator, calls: seq<Call>)
    requires calls != [] && CleanRun(c, calls)
    ensures CleanRun(c, calls[..|calls| - 1]) && LeavesProjection(calls[|calls| - 1])
  {
    hide LeavesProjection, Refused, Perform;
    var pre := calls[..|calls| - 1];
    forall i | 0 <= i < |pre| ensures LeavesProjection(pre[i]) && !Refused(At(c, pre, i), pre[i]) {
      assert pre[..i] == calls[..i] && pre[i] == calls[i];
      assert At(c, pre, i) == At(c, calls, i);
    }
  }

  /** The published lifecycle shows the coordinator's own snapshot, and startup is live. */
  predicate Live(c: Coordinator, k: Clock) {
    && Sound(c) && c.uds.lifecycle.status.Starting? && c.uds.lifecycle.startup == c.snapshot
    && !c.shuttingDown && !k.shutdownRequested
  }

  /** The report's total covers what is done, counting what was reported before in the same stage. */
  predicate TotalFits(s: Snapshot, p: Progress, same: bool) {
    && (p.chainsTotal.Some? ==>
          p.chainsDone <= p.chainsTotal.value
          && (same && s.chainsDone.Some? ==> s.chainsDone.value <= p.chainsTotal.value))
    && (same && s.chainsTotal.Some? ==> p.chainsTotal.Some? && s.chainsTotal.value <= p.chainsTotal.value)
  }

  /**
   Which projection updates a live startup takes: exactly those whose stage may
   come next, at a time that is neither blank nor earlier, below the sequence
   ceiling, and whose total covers the chains done and does not shrink.
   */
  lemma UpdateTakenIff(c: Coordinator, p: Progress, k: Clock)
    requires Live(c, k)
    ensures var next := Advance(c.stage, RecoveryPhase(p.stage));
            DoRecovery(c, p, k).ok <==>
            && next.Some? && !Blank(k.now) && c.snapshot.elapsedMs <= k.elapsedMs && c.snapshot.sequence < U64_MAX
            && TotalFits(c.snapshot, p, next.value == c.stage)
  {
    var phase := RecoveryPhase(p.stage);
    if Advance(c.stage, phase).Some? {
      AdvanceMovesOn(c.stage, phase);
      LiveInStep(c, k);
      hide Publish, Advance, WirePhase, Blank, Trimmed, Sound;
      var s := RecoverySnapshot(c.snapshot, p, k);
      var b := c.(snapshot := s, stage := Advance(c.stage, phase).value,
                  phaseStarted := if c.snapshot.phase == phase then c.phaseStarted else k.instant);
      PublishTogether(b, StartingResponse(c.identity, s));
    }
  }

  lemma LiveInStep(c: Coordinator, k: Clock)
    requires Live(c, k)
    ensures c.snapshot.phase == WirePhase(c.stage)
    ensures c.uds == c.http && c.uds.lifecycle.identity == c.identity && ValidLifecycle(c.uds.lifecycle)
  {
  }

  /** A phase call that is taken shows its phase at its time; re-entry keeps the counters, entry clears them. */
  lemma PhaseShows(c: Coordinator, phase: Phase, k: Clock)
    requires Live(c, k)
    ensures var next := Advance(c.stage, phase);
            var r := DoPhase(c, phase, k);
            var s := r.state.uds.lifecycle.startup;
            && (r.ok <==> next.Some? && !Blank(k.now) && c.snapshot.sequence < U64_MAX)
            && (r.ok ==>
                  && r.state.http.lifecycle == r.state.uds.lifecycle && r.state.stage == next.value
                  && s.phase == phase && s.updatedAt == k.now && s.elapsedMs == k.elapsedMs
                  && s.sequence == c.snapshot.sequence + 1
                  && (if next.value == c.stage
                      then SameCounters(c.snapshot, s) && s.recoveryThreads == c.snapshot.recoveryThreads
                           && s.phaseStartedAt == c.snapshot.phaseStartedAt
                      else ClearCounters(s) == s && s.recoveryThreads.None? && s.phaseStartedAt == k.now))
  {
    if Advance(c.stage, phase).Some? {
      AdvanceMovesOn(c.stage, phase);
      LiveInStep(c, k);
      hide Publish, Advance, WirePhase, Blank, Trimmed, Sound;
      var s := PhaseSnapshot(c.snapshot, phase, k);
      var b := c.(snapshot := s, stage := Advance(c.stage, phase).value,
                  phaseStarted := if c.snapshot.phase == phase then c.phaseStarted else k.instant);
      PublishTogether(b, StartingResponse(c.identity, s));
      NeverTerminalPhase(Advance(c.stage, phase).value);
    }
  }

  lemma NeverTerminalPhase(s: Stage)
    ensures !WirePhase(s).Ready? && !WirePhase(s).Failed?
  {
  }

  /** Shutdown has begun: admission closed, both applications withdrawn. */
  predicate Withdrawn(c: Coordinator) {
    c.shuttingDown && !c.admission && !c.uds.application && !c.http.application
  }

  lemma WithdrawnStays(c: Coordinator, call: Call)
    requires Withdrawn(c)
    ensures Withdrawn(Perform(c, call).state)
  {
    hide Advance, ValidLifecycle, ValidTransition, Trim;
  }

  /** Once shutdown has begun, no call reopens admission or brings an application back, to the end of the run. */
  lemma {:induction false} ShutdownIsFinal(c: Coordinator, calls: seq<Call>, i: nat, j: nat)
    requires i < j <= |calls| && calls[i].ShutdownCall?
    ensures Withdrawn(Run(c, calls[..j]))
    ensures Run(c, calls[..i + 1]).uds.lifecycle == Run(c, calls[..i]).uds.lifecycle
    ensures Run(c, calls[..i + 1]).http.lifecycle == Run(c, calls[..i]).http.lifecycle
    decreases j
  {
    assert calls[..i + 1][..i] == calls[..i];
    hide Withdrawn;
    if j == i + 1 {
      ShutdownWithdraws(Run(c, calls[..i]));
    } else {
      hide Perform;
      ShutdownIsFinal(c, calls, i, j - 1);
      assert calls[..j][..j - 1] == calls[..j - 1];
      WithdrawnStays(Run(c, calls[..j - 1]), calls[j - 1]);
    }
  }

  lemma ShutdownWithdraws(c: Coordinator)
    ensures Withdrawn(Perform(c, ShutdownCall).state)
  {
  }

  /** Both doors carry the application, or shutdown has begun. */
  predicate Carried(c: Coordinator) {
    c.shuttingDown || (c.uds.application && c.http.application)
  }

  lemma ApplicationTaken(c: Coordinator, k: Clock)
    ensures var r := DoPublishApplication(c, k);
            && (r.ok <==> c.uds.lifecycle.status.Starting? && !c.shuttingDown && !k.shutdownRequested
                          && !c.uds.application && !c.http.application)
            && (r.ok ==> Carried(r.state)) && (!r.ok ==> r.state == c) && (Carried(c) ==> !r.ok)
            && r.state.uds.lifecycle == c.uds.lifecycle && r.state.http.lifecycle == c.http.lifecycle
  {
  }

  lemma CarriedStays(c: Coordinator, call: Call)
    requires Carried(c)
    ensures Carried(Perform(c, call).state)
  {
    hide Advance, ValidLifecycle, ValidTransition, Trim;
  }

  /** The application is published once: after a call that was taken, every later one is refused. */
  lemma {:induction false} ApplicationOnce(c: Coordinator, calls: seq<Call>, i: nat, j: nat)
    requires i < j < |calls| && calls[i].ApplicationCall? && calls[j].ApplicationCall?
    requires Perform(Run(c, calls[..i]), calls[i]).ok
    ensures !Perform(Run(c, calls[..j]), calls[j]).ok
  {
    CarriedAfter(c, calls, i, j);
    ApplicationTaken(Run(c, calls[..j]), calls[j].clock);
  }

  lemma {:induction false} CarriedAfter(c: Coordinator, calls: seq<Call>, i: nat, j: nat)
    requires i < j <= |calls| && calls[i].ApplicationCall? && Perform(Run(c, calls[..i]), calls[i]).ok
    ensures Carried(Run(c, calls[..j]))
    decreases j
  {
    assert calls[..j][..j - 1] == calls[..j - 1];
    if j == i + 1 {
      ApplicationTaken(Run(c, calls[..i]), calls[i].clock);
    } else {
      hide Perform, Carried;
      CarriedAfter(c, calls, i, j - 1);
      CarriedStays(Run(c, calls[..j - 1]), calls[j - 1]);
    }
  }
}
