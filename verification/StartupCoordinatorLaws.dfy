/** What every sequence of coordinator calls keeps. */
module StartupCoordinatorLaws {
  import opened Prelude
  import opened StartupStages
  import opened StartupCoordinator

  /** Both doors publish the same valid lifecycle of this process. */
  predicate Sound(c: Coordinator) {
    && c.uds == c.http && c.uds.lifecycle.identity == c.identity && ValidLifecycle(c.uds.lifecycle)
    && DoneWithinTotal(c.snapshot)
    && (c.snapshot.phase == WirePhase(c.stage) || c.snapshot.phase.Ready? || c.snapshot.phase.Failed?)
  }

  /** A new publication: strictly later, only from Starting, and Ready only under its conditions. */
  predicate Publishes(c: Coordinator, d: Coordinator) {
    var was, now := c.uds.lifecycle, d.uds.lifecycle;
    && was.status.Starting? && was.startup.sequence < now.startup.sequence && now.startup == d.snapshot
    && (now.status.Starting? ==> d.snapshot.phase == WirePhase(d.stage) && !c.shuttingDown)
    && (now.status.Running? ==>
          && d.stage.Scheduler? && d.uds.application && d.http.application
          && d.gatesReleased && d.admission && !c.shuttingDown)
  }

  predicate StepOk(c: Coordinator, d: Coordinator) {
    && c.identity == d.identity && Index(c.stage) <= Index(d.stage)
    && (c.shuttingDown ==> d.shuttingDown)
    && (d.uds.lifecycle == c.uds.lifecycle || Publishes(c, d))
  }

  /** The half-published outcome cannot happen: both doors take a response or neither does. */
  lemma PublishTogether(c: Coordinator, l: Lifecycle)
    requires c.uds == c.http && c.uds.lifecycle.identity == c.identity
    ensures var r := Publish(c, l);
            && (r.ok <==> PublishAt(c.uds, l).Some?)
            && (if r.ok then
                  && r.state == c.(uds := c.uds.(lifecycle := l), http := c.http.(lifecycle := l))
                  && ValidLifecycle(l) && l.identity == c.identity && c.uds.lifecycle.status.Starting?
                  && c.uds.lifecycle.startup.sequence < l.startup.sequence
                  && (l.ready ==> c.uds.application)
                else r.state == c)
  {
    hide ValidLifecycle;
  }

  lemma AdvanceMovesOn(s: Stage, phase: Phase)
    requires Advance(s, phase).Some?
    ensures Index(s) <= Index(Advance(s, phase).value) && WirePhase(Advance(s, phase).value) == phase
    ensures Advance(s, phase).value == s <==> phase == WirePhase(s)
  {
  }

  lemma PhaseStep(c: Coordinator, phase: Phase, k: Clock)
    requires Sound(c)
    ensures var d := DoPhase(c, phase, k).state; Sound(d) && StepOk(c, d)
  {
    hide Publish, PublishAt, Advance, WirePhase, Index;
    if Advance(c.stage, phase).Some? {
      AdvanceMovesOn(c.stage, phase);
      var s := PhaseSnapshot(c.snapshot, phase, k);
      PublishTogether(c.(snapshot := s, stage := Advance(c.stage, phase).value,
                         phaseStarted := if c.snapshot.phase == phase then c.phaseStarted else k.instant),
                      StartingResponse(c.identity, s));
    }
  }

  lemma ProgressStep(c: Coordinator, update: Snapshot -> Snapshot, k: Clock)
    requires Sound(c)
    ensures var d := DoProgress(c, update, k).state; Sound(d) && StepOk(c, d)
  {
    hide Publish, PublishAt, Advance, WirePhase, Index;
    var s := update(c.snapshot.(sequence := Next(c.snapshot.sequence), updatedAt := k.now, elapsedMs := k.elapsedMs));
    PublishTogether(c.(snapshot := s), StartingResponse(c.identity, s));
  }

  lemma RecoveryStep(c: Coordinator, p: Progress, k: Clock)
    requires Sound(c)
    ensures var d := DoRecovery(c, p, k).state; Sound(d) && StepOk(c, d)
  {
    hide Publish, PublishAt, Advance, WirePhase, Index, CountersAdvance;
    var phase := RecoveryPhase(p.stage);
    if Advance(c.stage, phase).Some? {
      AdvanceMovesOn(c.stage, phase);
      var s := RecoverySnapshot(c.snapshot, p, k);
      PublishTogether(c.(snapshot := s, stage := Advance(c.stage, phase).value,
                         phaseStarted := if c.snapshot.phase == phase then c.phaseStarted else k.instant),
                      StartingResponse(c.identity, s));
    }
  }

  lemma ReadyStep(c: Coordinator, projection: string, k: Clock)
    requires Sound(c)
    ensures var d := DoReady(c, projection, k).state; Sound(d) && StepOk(c, d)
  {
    hide Publish, PublishAt, Index;
    var l := RunningResponse(c.identity, k.now, c.snapshot.(elapsedMs := k.elapsedMs), projection);
    PublishTogether(c.(snapshot := l.startup, gatesReleased := true, admission := true), l);
  }

  lemma FailedStep(c: Coordinator, error: string, k: Clock)
    requires Sound(c)
    ensures var d := DoFailed(c, error, k).state; Sound(d) && StepOk(c, d)
  {
    hide Publish, PublishAt, Index, Trim;
    var l := FailedResponse(c.identity, k.now, error, c.snapshot.(elapsedMs := k.elapsedMs));
    PublishTogether(c.(snapshot := l.startup), l);
  }

  lemma StepLaw(c: Coordinator, call: Call)
    requires Sound(c)
    ensures var d := Perform(c, call).state; Sound(d) && StepOk(c, d)
  {
    hide DoPhase, DoProgress, DoRecovery, DoReady, DoFailed, Index, ValidLifecycle, WirePhase;
    match call
    case PhaseCall(phase, k) => PhaseStep(c, phase, k);
    case ProgressCall(update, k) => ProgressStep(c, update, k);
    case RecoveryCall(p, k) => RecoveryStep(c, p, k);
    case ReadyCall(projection, k) => ReadyStep(c, projection, k);
    case FailedCall(error, k) => FailedStep(c, error, k);
    case ApplicationCall(_) =>
    case ShutdownCall =>
  }

  /** The state after the first i calls. */
  function At(c: Coordinator, calls: seq<Call>, i: nat): Coordinator
    requires i <= |calls|
  {
    Run(c, calls[..i])
  }

  lemma AtNext(c: Coordinator, calls: seq<Call>, i: nat)
    requires i < |calls|
    ensures At(c, calls, i + 1) == Perform(At(c, calls, i), calls[i]).state
  {
    hide Perform;
    assert calls[..i + 1][..i] == calls[..i];
  }

  /** One published stream: it only moves forward in sequence, and a terminal publication ends it. */
  predicate Later(was: Lifecycle, now: Lifecycle) {
    now == was || (was.status.Starting? && was.startup.sequence < now.startup.sequence)
  }

  predicate RunOk(c: Coordinator, calls: seq<Call>, i: nat, j: nat)
    requires i <= j <= |calls|
  {
    var a, b := At(c, calls, i), At(c, calls, j);
    && Sound(a) && Sound(b) && a.identity == b.identity == c.identity && Index(a.stage) <= Index(b.stage)
    && Later(a.uds.lifecycle, b.uds.lifecycle)
    && (a.shuttingDown ==>
          b.shuttingDown && (b.uds.lifecycle == a.uds.lifecycle || b.uds.lifecycle.status.FailedState?))
  }

  lemma {:induction false} RunLaw(c: Coordinator, calls: seq<Call>, i: nat, j: nat)
    requires i <= j <= |calls| && Sound(c)
    ensures RunOk(c, calls, i, j)
    decreases j
  {
    hide Perform, Sound, Index;
    if j == 0 {
    } else if i < j {
      RunLaw(c, calls, i, j - 1);
      AtNext(c, calls, j - 1);
      StepLaw(At(c, calls, j - 1), calls[j - 1]);
    } else {
      RunLaw(c, calls, i - 1, j - 1);
      AtNext(c, calls, j - 1);
      StepLaw(At(c, calls, j - 1), calls[j - 1]);
    }
  }

  lemma BootstrapSound(id: Identity, instant: nat)
    requires !Blank(id.startedAt)
    ensures Sound(Bootstrap(id, instant))
  {
  }

  /**
   From bootstrap, at every two moments of every sequence of calls: HTTP and UDS
   publish the same valid lifecycle of the same identity, sequence numbers
   strictly increase, and nothing follows a terminal publication.
   */
  lemma OneLifecycleStream(id: Identity, instant: nat, calls: seq<Call>, i: nat, j: nat)
    requires !Blank(id.startedAt) && i <= j <= |calls|
    ensures RunOk(Bootstrap(id, instant), calls, i, j)
  {
    hide Sound, RunOk;
    BootstrapSound(id, instant);
    RunLaw(Bootstrap(id, instant), calls, i, j);
  }

  // ----- Ready is earned -----

  /** Does the call pass every guard before the stage is moved? */
  predicate MovesStage(c: Coordinator, call: Call) {
    && (call.PhaseCall? || call.RecoveryCall?)
    && !c.shuttingDown && !call.clock.shutdownRequested && c.uds.lifecycle.status.Starting?
    && (call.PhaseCall? ==> Advance(c.stage, call.phase).Some?)
    && (call.RecoveryCall? ==>
          && Advance(c.stage, RecoveryPhase(call.progress.stage)).Some?
          && ValidTransition(c.snapshot, RecoverySnapshot(c.snapshot, call.progress, call.clock)))
  }

  function PhaseOf(call: Call): Phase
    requires call.PhaseCall? || call.RecoveryCall?
  {
    if call.PhaseCall? then call.phase else RecoveryPhase(call.progress.stage)
  }

  /** The phases that moved or confirmed the stage, in order. */
  function PhaseLog(c: Coordinator, calls: seq<Call>): seq<Phase> {
    if calls == [] then []
    else
      var pre, last := calls[..|calls| - 1], calls[|calls| - 1];
      PhaseLog(c, pre) + if MovesStage(Run(c, pre), last) then [PhaseOf(last)] else []
  }

  lemma PublishKeepsStage(c: Coordinator, l: Lifecycle)
    ensures Publish(c, l).state.stage == c.stage && Publish(c, l).state.snapshot == c.snapshot
    ensures Publish(c, l).state.gatesReleased == c.gatesReleased
  {
    hide PublishAt;
  }

  lemma StageMoves(c: Coordinator, call: Call)
    ensures Perform(c, call).state.stage ==
            if MovesStage(c, call) then Advance(c.stage, PhaseOf(call)).value else c.stage
  {
    hide Publish, PublishAt, Advance, ValidTransition, PhaseSnapshot, RecoverySnapshot, RunningResponse, FailedResponse;
    forall d: Coordinator, l: Lifecycle ensures Publish(d, l).state.stage == d.stage { PublishKeepsStage(d, l); }
  }

  lemma {:induction false} StageIsAccepted(c: Coordinator, calls: seq<Call>)
    requires c.stage == Boot
    ensures Accepts(Boot, PhaseLog(c, calls)) == Some(Run(c, calls).stage)
    decreases |calls|
  {
    hide Perform, MovesStage, Advance, PhaseOf;
    if calls != [] {
      var pre, last := calls[..|calls| - 1], calls[|calls| - 1];
      StageIsAccepted(c, pre);
      StageMoves(Run(c, pre), last);
      var log := PhaseLog(c, pre);
      if MovesStage(Run(c, pre), last) {
        MovesAdvance(Run(c, pre), last);
        assert (log + [PhaseOf(last)])[..|log|] == log;
      } else {
        assert log + [] == log;
      }
    }
  }

  lemma MovesAdvance(c: Coordinator, call: Call)
    requires MovesStage(c, call)
    ensures call.PhaseCall? || call.RecoveryCall?
    ensures Advance(c.stage, PhaseOf(call)).Some?
  {
  }

  /** Once Running is published, the stage is Scheduler and internal gates are released. */
  predicate Earned(c: Coordinator) {
    c.uds.lifecycle.status.Running? ==> c.stage.Scheduler? && c.gatesReleased
  }

  lemma GatesStay(c: Coordinator, call: Call)
    ensures c.gatesReleased ==> Perform(c, call).state.gatesReleased
  {
    hide Publish, PublishAt, Advance, ValidTransition, PhaseSnapshot, RecoverySnapshot, RunningResponse, FailedResponse;
    forall d: Coordinator, l: Lifecycle ensures Publish(d, l).state.gatesReleased == d.gatesReleased {
      PublishKeepsStage(d, l);
    }
  }

  lemma SchedulerIsLast(c: Coordinator, call: Call)
    requires c.stage.Scheduler?
    ensures Perform(c, call).state.stage.Scheduler?
  {
    StageMoves(c, call);
    hide Perform;
  }

  lemma {:induction false} RunEarns(c: Coordinator, calls: seq<Call>)
    requires Sound(c) && Earned(c)
    ensures Sound(Run(c, calls)) && Earned(Run(c, calls))
    decreases |calls|
  {
    hide Perform, Sound, Index;
    if calls != [] {
      var pre, last := calls[..|calls| - 1], calls[|calls| - 1];
      RunEarns(c, pre);
      var d := Run(c, pre);
      StepLaw(d, last);
      GatesStay(d, last);
      if d.stage.Scheduler? { SchedulerIsLast(d, last); }
    }
  }

  /** Ready is published only after every mandatory startup phase, in order, and with internal gates released. */
  lemma ReadyIsEarned(id: Identity, instant: nat, calls: seq<Call>)
    requires !Blank(id.startedAt)
    ensures var c := Bootstrap(id, instant);
            Run(c, calls).uds.lifecycle.status.Running? ==>
              && Run(c, calls).gatesReleased
              && exists counts :: Reached(counts, 9) && Word(counts) == PhaseLog(c, calls)
  {
    var c := Bootstrap(id, instant);
    BootstrapSound(id, instant);
    RunEarns(c, calls);
    StageIsAccepted(c, calls);
    AcceptedLanguage(PhaseLog(c, calls));
  }

  // ----- Progress counters -----

  lemma AdvanceTrans(a: Snapshot, b: Snapshot, c: Snapshot)
    requires CountersAdvance(a, b) && CountersAdvance(b, c)
    ensures CountersAdvance(a, c)
  {
  }

  /** The call passes its guards and reaches the doors with a terminal response. */
  predicate Attempts(c: Coordinator, call: Call) {
    && c.uds.lifecycle.status.Starting?
    && (call.FailedCall?
        || (&& call.ReadyCall? && !c.shuttingDown && !call.clock.shutdownRequested
            && c.uds.application && c.http.application && c.stage.Scheduler? && c.snapshot.phase.ReconcilingScheduler?))
  }

  /** What a caller can see beforehand that makes the doors refuse it. */
  predicate Unpublishable(c: Coordinator, call: Call)
    requires call.ReadyCall? || call.FailedCall?
  {
    || Blank(call.clock.now)
    || (call.FailedCall? && Blank(call.error))
    || Next(c.snapshot.sequence) <= c.uds.lifecycle.startup.sequence
    || c.snapshot.startedAt != c.identity.startedAt
  }

  /** A terminal publication that will be refused. */
  predicate Refused(c: Coordinator, call: Call) {
    Attempts(c, call) && Unpublishable(c, call)
  }

  lemma {:induction false} TrimEndLaw(s: string)
    ensures Blank(TrimEnd(s)) <==> Blank(s)
    ensures TrimEnd(s) != [] ==> !White(TrimEnd(s)[|TrimEnd(s)| - 1]) && TrimEnd(s) <= s
  {
    if s != [] && White(s[|s| - 1]) {
      var t := s[..|s| - 1];
      TrimEndLaw(t);
      assert s == t + [s[|s| - 1]];
      assert Blank(t) ==> Blank(s);
      assert Blank(s) ==> forall i | 0 <= i < |t| :: White(s[i]) && t[i] == s[i];
    }
  }

  lemma {:induction false} TrimLaw(s: string)
    ensures (Blank(Trim(s)) <==> Blank(s)) && Trimmed(Trim(s))
  {
    if s != [] && White(s[0]) {
      var t := s[1..];
      TrimLaw(t);
      assert s == [s[0]] + t;
      assert Blank(s) ==> forall i | 0 <= i < |t| :: t[i] == s[i + 1];
    } else {
      TrimEndLaw(s);
    }
  }

  /** The doors refuse a terminal response exactly on those inputs. */
  lemma RefusedIff(c: Coordinator, call: Call)
    requires Sound(c) && Attempts(c, call)
    ensures Perform(c, call).ok <==> !Unpublishable(c, call)
  {
    hide Publish, WirePhase, Trim, Blank, Trimmed;
    match call {
      case ReadyCall(projection, k) =>
        var l := RunningResponse(c.identity, k.now, c.snapshot.(elapsedMs := k.elapsedMs), projection);
        PublishTogether(c.(snapshot := l.startup, gatesReleased := true, admission := true), l);
      case FailedCall(error, k) =>
        TrimLaw(error);
        var l := FailedResponse(c.identity, k.now, error, c.snapshot.(elapsedMs := k.elapsedMs));
        PublishTogether(c.(snapshot := l.startup), l);
    }
  }

  /** The coordinator's own phase is its stage's, or a terminal response has been published. */
  predicate InStep(c: Coordinator) {
    c.snapshot.phase == WirePhase(c.stage) || !c.uds.lifecycle.status.Starting?
  }

  lemma PhaseCounters(c: Coordinator, phase: Phase, k: Clock)
    requires Sound(c) && InStep(c)
    ensures var d := DoPhase(c, phase, k).state;
            InStep(d) && (d.stage == c.stage ==> CountersAdvance(c.snapshot, d.snapshot))
  {
    hide Publish, PublishAt, Advance, WirePhase;
    if Advance(c.stage, phase).Some? {
      AdvanceMovesOn(c.stage, phase);
      var s := PhaseSnapshot(c.snapshot, phase, k);
      PublishKeepsStage(c.(snapshot := s, stage := Advance(c.stage, phase).value,
                           phaseStarted := if c.snapshot.phase == phase then c.phaseStarted else k.instant),
                        StartingResponse(c.identity, s));
    }
  }

  lemma RecoveryCounters(c: Coordinator, p: Progress, k: Clock)
    requires Sound(c) && InStep(c)
    ensures var d := DoRecovery(c, p, k).state;
            InStep(d) && (d.stage == c.stage ==> CountersAdvance(c.snapshot, d.snapshot))
  {
    hide Publish, PublishAt, Advance, WirePhase;
    var phase := RecoveryPhase(p.stage);
    if Advance(c.stage, phase).Some? {
      AdvanceMovesOn(c.stage, phase);
      var s := RecoverySnapshot(c.snapshot, p, k);
      PublishKeepsStage(c.(snapshot := s, stage := Advance(c.stage, phase).value,
                           phaseStarted := if c.snapshot.phase == phase then c.phaseStarted else k.instant),
                        StartingResponse(c.identity, s));
    }
  }

  lemma ProgressCounters(c: Coordinator, update: Snapshot -> Snapshot, k: Clock)
    requires Sound(c) && InStep(c)
    ensures var d := DoProgress(c, update, k).state;
            InStep(d) && d.stage == c.stage && CountersAdvance(c.snapshot, d.snapshot)
  {
    hide Publish, PublishAt, WirePhase;
    var s := update(c.snapshot.(sequence := Next(c.snapshot.sequence), updatedAt := k.now, elapsedMs := k.elapsedMs));
    PublishKeepsStage(c.(snapshot := s), StartingResponse(c.identity, s));
  }

  lemma TerminalCounters(c: Coordinator, call: Call)
    requires Sound(c) && InStep(c) && (call.ReadyCall? || call.FailedCall?)
    ensures var d := Perform(c, call).state;
            d.stage == c.stage && CountersAdvance(c.snapshot, d.snapshot) && (!Refused(c, call) ==> InStep(d))
  {
    if Attempts(c, call) { RefusedIff(c, call); }
    hide PublishAt, WirePhase, Publish, ValidLifecycle, Unpublishable;
    match call {
      case ReadyCall(projection, k) =>
        var l := RunningResponse(c.identity, k.now, c.snapshot.(elapsedMs := k.elapsedMs), projection);
        var b := c.(snapshot := l.startup, gatesReleased := true, admission := true);
        PublishTogether(b, l);
        PublishKeepsStage(b, l);
      case FailedCall(error, k) =>
        var l := FailedResponse(c.identity, k.now, error, c.snapshot.(elapsedMs := k.elapsedMs));
        var b := c.(snapshot := l.startup);
        PublishTogether(b, l);
        PublishKeepsStage(b, l);
    }
  }

  lemma StepCounters(c: Coordinator, call: Call)
    requires Sound(c) && InStep(c)
    ensures var d := Perform(c, call).state;
            && (d.stage == c.stage ==> CountersAdvance(c.snapshot, d.snapshot))
            && (!Refused(c, call) ==> InStep(d))
  {
    hide DoPhase, DoProgress, DoRecovery, DoReady, DoFailed, WirePhase, ValidLifecycle, Sound;
    match call
    case PhaseCall(phase, k) => PhaseCounters(c, phase, k);
    case ProgressCall(update, k) => ProgressCounters(c, update, k);
    case RecoveryCall(p, k) => RecoveryCounters(c, p, k);
    case ReadyCall(projection, k) => TerminalCounters(c, call);
    case FailedCall(error, k) => TerminalCounters(c, call);
    case ApplicationCall(_) =>
    case ShutdownCall =>
  }

  lemma {:induction false} CountersLaw(c: Coordinator, calls: seq<Call>, i: nat, j: nat)
    requires i <= j <= |calls| && Sound(c) && InStep(c)
    requires forall k | 0 <= k < j :: !Refused(At(c, calls, k), calls[k])
    ensures InStep(At(c, calls, j))
    ensures At(c, calls, i).stage == At(c, calls, j).stage ==>
            CountersAdvance(At(c, calls, i).snapshot, At(c, calls, j).snapshot)
    decreases j
  {
    hide Perform, Sound, InStep, Refused, CountersAdvance, RunOk, Index;
    if j == 0 {
      Reflexive(At(c, calls, i).snapshot);
    } else {
      var m := if i < j then i else i - 1;
      CountersLaw(c, calls, m, j - 1);
      AtNext(c, calls, j - 1);
      RunStages(c, calls, m, j - 1);
      RunStages(c, calls, j - 1, j);
      StepCounters(At(c, calls, j - 1), calls[j - 1]);
      if i == j {
        Reflexive(At(c, calls, i).snapshot);
      } else if At(c, calls, i).stage == At(c, calls, j).stage {
        SameIndex(At(c, calls, i).stage, At(c, calls, j - 1).stage);
        AdvanceTrans(At(c, calls, i).snapshot, At(c, calls, j - 1).snapshot, At(c, calls, j).snapshot);
      }
    }
  }

  lemma Reflexive(s: Snapshot)
    ensures CountersAdvance(s, s)
  {
  }

  lemma SameIndex(a: Stage, b: Stage)
    ensures Index(a) == Index(b) ==> a == b
  {
  }

  lemma RunStages(c: Coordinator, calls: seq<Call>, i: nat, j: nat)
    requires i <= j <= |calls| && Sound(c)
    ensures Index(At(c, calls, i).stage) <= Index(At(c, calls, j).stage)
    ensures Sound(At(c, calls, i)) && Sound(At(c, calls, j))
  {
    hide Sound, Index, Perform, At;
    RunLaw(c, calls, i, j);
  }

  /**
   Between two moments of a run in the same stage, total, done, restored,
   projected and recovery counters never decrease or vanish and the pending
   count never increases, provided no terminal publication was refused before.
   */
  lemma CountersAreMonotone(id: Identity, instant: nat, calls: seq<Call>, i: nat, j: nat)
    requires !Blank(id.startedAt) && i <= j <= |calls|
    requires forall k | 0 <= k < j :: !Refused(At(Bootstrap(id, instant), calls, k), calls[k])
    ensures var a, b := At(Bootstrap(id, instant), calls, i), At(Bootstrap(id, instant), calls, j);
            a.stage == b.stage ==> CountersAdvance(a.snapshot, b.snapshot) && DoneWithinTotal(b.snapshot)
  {
    hide Sound, CountersAdvance, At, Perform;
    BootstrapSound(id, instant);
    CountersLaw(Bootstrap(id, instant), calls, i, j);
    RunStages(Bootstrap(id, instant), calls, i, j);
    SoundMeansBounded(At(Bootstrap(id, instant), calls, j));
  }

  /**
   While startup is live the stage alone determines the coordinator's phase, unless a terminal
   publication was refused.
   */
  lemma StageDeterminesPhase(id: Identity, instant: nat, calls: seq<Call>)
    requires !Blank(id.startedAt)
    requires forall k | 0 <= k < |calls| :: !Refused(At(Bootstrap(id, instant), calls, k), calls[k])
    ensures var c := Run(Bootstrap(id, instant), calls);
            c.uds.lifecycle.status.Starting? ==> c.snapshot.phase == WirePhase(c.stage)
  {
    hide Sound, Refused, Perform, WirePhase, Bootstrap;
    BootstrapSound(id, instant);
    assert InStep(Bootstrap(id, instant)) by { BootstrapInStep(id, instant); }
    CountersLaw(Bootstrap(id, instant), calls, |calls|, |calls|);
    assert calls[..|calls|] == calls;
  }

  lemma BootstrapInStep(id: Identity, instant: nat)
    ensures InStep(Bootstrap(id, instant))
  {
  }

  lemma SoundMeansBounded(c: Coordinator)
    requires Sound(c)
    ensures DoneWithinTotal(c.snapshot)
  {
  }

  /** Re-entering the current stage drops the counters exactly when the coordinator is out of step. */
  lemma ReentryKeepsCountersIff(c: Coordinator, k: Clock)
    requires Sound(c) && MovesStage(c, PhaseCall(WirePhase(c.stage), k))
    ensures var d := DoPhase(c, WirePhase(c.stage), k).state;
            && d.stage == c.stage
            && (CountersAdvance(c.snapshot, d.snapshot) <==>
                InStep(c) || c.snapshot == ClearCounters(c.snapshot).(recoveryThreads := None))
  {
    hide Publish, PublishAt;
    var phase := WirePhase(c.stage);
    AdvanceMovesOn(c.stage, phase);
    var s := PhaseSnapshot(c.snapshot, phase, k);
    PublishKeepsStage(c.(snapshot := s, stage := Advance(c.stage, phase).value,
                         phaseStarted := if c.snapshot.phase == phase then c.phaseStarted else k.instant),
                      StartingResponse(c.identity, s));
  }

  /**
   A projection update that fails validation leaves the coordinator exactly as
   it was; one that only the doors refuse has already moved the snapshot.
   */
  lemma RecoveryRollsBackIff(c: Coordinator, p: Progress, k: Clock)
    requires Sound(c)
    ensures var r := DoRecovery(c, p, k);
            && r.state.uds == r.state.http
            && (!r.ok ==>
                  r.state.uds == c.uds && (r.state == c <==> !MovesStage(c, RecoveryCall(p, k))))
  {
    hide Publish, PublishAt, Advance;
    var phase := RecoveryPhase(p.stage);
    if Advance(c.stage, phase).Some? {
      var s := RecoverySnapshot(c.snapshot, p, k);
      var b := c.(snapshot := s, stage := Advance(c.stage, phase).value,
                  phaseStarted := if c.snapshot.phase == phase then c.phaseStarted else k.instant);
      PublishTogether(b, StartingResponse(c.identity, s));
    }
  }

  /**
   Entering a new stage forgets every old counter on both entry points, except
   that a projection update carries `recoveryThreads` over.
   */
  lemma StageEntryResets(c: Coordinator, d: Coordinator, call: Call)
    requires Sound(c) && InStep(c) && d == Perform(c, call).state && d.stage != c.stage
    ensures call.PhaseCall? ==>
              ClearCounters(d.snapshot) == d.snapshot && d.snapshot.recoveryThreads.None?
    ensures call.RecoveryCall? ==>
              var p := call.progress;
              && d.snapshot.chainsTotal == p.chainsTotal && d.snapshot.chainsDone == Some(p.chainsDone)
              && d.snapshot.threadsRestored == Some(p.threadsRestored)
              && d.snapshot.eventsProjected == Some(p.eventsProjected)
              && d.snapshot.pendingHeads == (if p.pendingTotal.None? then None else Some(Remaining(p)))
              && d.snapshot.recoveryThreads == c.snapshot.recoveryThreads
    ensures call.PhaseCall? || call.RecoveryCall?
    ensures d.phaseStarted == call.clock.instant && d.snapshot.phaseStartedAt == call.clock.now
  {
    StageMoves(c, call);
    AdvanceMovesOn(c.stage, PhaseOf(call));
    hide Publish, PublishAt, Advance, WirePhase, ValidLifecycle, ValidTransition;
    forall b: Coordinator, l: Lifecycle
      ensures Publish(b, l).state.snapshot == b.snapshot && Publish(b, l).state.phaseStarted == b.phaseStarted
    {
      PublishKeepsClock(b, l);
    }
  }

  lemma PublishKeepsClock(c: Coordinator, l: Lifecycle)
    ensures Publish(c, l).state.snapshot == c.snapshot && Publish(c, l).state.phaseStarted == c.phaseStarted
  {
    hide PublishAt;
  }

  /** The family of entries on which the recovery count outlives its stage. */
  lemma RecoveryThreadsSurvive(c: Coordinator, p: Progress, k: Clock)
    requires Sound(c) && InStep(c) && c.stage == Follow && c.snapshot.recoveryThreads.Some?
    requires MovesStage(c, RecoveryCall(p, k)) && p.stage == ReplayingPending
    ensures var d := DoRecovery(c, p, k).state;
            d.stage == PostReplay && d.snapshot.recoveryThreads == c.snapshot.recoveryThreads
  {
    var d := DoRecovery(c, p, k).state;
    StageMoves(c, RecoveryCall(p, k));
    StageEntryResets(c, d, RecoveryCall(p, k));
  }

  /**
   The condition is needed: in every state of a live startup, a blank failure is
   refused by the doors, and re-entering the same stage then drops all counters.
   */
  lemma RefusalDropsCounters(c: Coordinator, k: Clock)
    requires Sound(c) && InStep(c) && c.uds.lifecycle.status.Starting?
    requires !c.shuttingDown && !k.shutdownRequested
    ensures Refused(c, FailedCall("", k))
    ensures var e := Run(c, [FailedCall("", k), PhaseCall(WirePhase(c.stage), k)]);
            && e.stage == c.stage && e.uds == c.uds && e.http == c.http
            && ClearCounters(e.snapshot) == e.snapshot && e.snapshot.recoveryThreads.None?
  {
    assert Blank("");
    BlankFailure(c, k);
    var d := DoFailed(c, "", k).state;
    var calls := [FailedCall("", k), PhaseCall(WirePhase(c.stage), k)];
    RunOfTwo(c, calls);
    DropsCounters(d, k);
  }

  lemma BlankFailure(c: Coordinator, k: Clock)
    requires Sound(c) && InStep(c) && c.uds.lifecycle.status.Starting?
    ensures var r := DoFailed(c, "", k);
            && !r.ok && r.state.snapshot.phase.Failed? && r.state.snapshot.failedAt.Some?
            && r.state == c.(snapshot := r.state.snapshot)
            && r.state.snapshot.sequence == Next(c.snapshot.sequence) && r.state.snapshot.elapsedMs == k.elapsedMs
  {
    hide Publish, PublishAt;
    var l := FailedResponse(c.identity, k.now, "", c.snapshot.(elapsedMs := k.elapsedMs));
    var b := c.(snapshot := l.startup);
    PublishTogether(b, l);
    PublishKeepsStage(b, l);
  }

  lemma DropsCounters(d: Coordinator, k: Clock)
    requires d.snapshot.phase.Failed? && d.snapshot.failedAt.Some?
    requires d.uds == d.http && d.uds.lifecycle.identity == d.identity
    requires d.uds.lifecycle.status.Starting? && !d.shuttingDown && !k.shutdownRequested
    ensures var e := DoPhase(d, WirePhase(d.stage), k).state;
            e.stage == d.stage && e.uds == d.uds && e.http == d.http && ClearCounters(e.snapshot) == e.snapshot
                && e.snapshot.recoveryThreads.None?
  {
    hide Publish, PublishAt;
    var phase := WirePhase(d.stage);
    AdvanceMovesOn(d.stage, phase);
    var s := PhaseSnapshot(d.snapshot, phase, k);
    var b := d.(snapshot := s, stage := d.stage, phaseStarted := k.instant);
    PublishKeepsStage(b, StartingResponse(d.identity, s));
    PublishTogether(b, StartingResponse(d.identity, s));
  }

  /**
   Why the rollback has its exception: after a refused failure, every projection
   update that its own validation accepts is refused by the doors, and stays.
   */
  lemma DoorRefusalIsNotRolledBack(c: Coordinator, p: Progress, k: Clock)
    requires Sound(c) && InStep(c) && c.uds.lifecycle.status.Starting? && !c.shuttingDown && !k.shutdownRequested
    requires Advance(c.stage, RecoveryPhase(p.stage)).Some? && Next(c.snapshot.sequence) < U64_MAX
    requires p.chainsTotal.Some? ==> p.chainsDone <= p.chainsTotal.value
    ensures var d := Run(c, [FailedCall("", k)]);
            var r := DoRecovery(d, p, k);
            && MovesStage(d, RecoveryCall(p, k)) && !r.ok && r.state != d
            && r.state.uds == c.uds && r.state.http == c.http && r.state.snapshot.chainsDone == Some(p.chainsDone)
  {
    BlankFailure(c, k);
    var d := DoFailed(c, "", k).state;
    assert Run(c, [FailedCall("", k)]) == d by { RunOfOne(c, FailedCall("", k)); }
    hide Publish, PublishAt, Advance, DoFailed, Run;
    var phase := RecoveryPhase(p.stage);
    var s := RecoverySnapshot(d.snapshot, p, k);
    assert s.phase == phase != d.snapshot.phase && ValidTransition(d.snapshot, s);
    var b := d.(snapshot := s, stage := Advance(d.stage, phase).value, phaseStarted := k.instant);
    PublishTogether(b, StartingResponse(d.identity, s));
    assert PublishAt(b.uds, StartingResponse(d.identity, s)).None? by { PoisonedIsRefused(b, s); }
  }

  lemma RunOfOne(c: Coordinator, call: Call)
    ensures Run(c, [call]) == Perform(c, call).state
  {
    assert [call][..0] == [];
  }

  /** A snapshot that carries a terminal time cannot be published as Starting. */
  lemma PoisonedIsRefused(c: Coordinator, s: Snapshot)
    requires s.readyAt.Some? || s.failedAt.Some?
    ensures PublishAt(c.uds, StartingResponse(c.identity, s)).None?
  {
  }

  lemma RunOfTwo(c: Coordinator, calls: seq<Call>)
    requires |calls| == 2
    ensures Run(c, calls) == Perform(Perform(c, calls[0]).state, calls[1]).state
  {
    hide Perform;
    assert calls[..1][..0] == [];
    assert Run(c, calls[..1]) == Perform(Run(c, []), calls[0]).state;
  }

  // ----- What the doors show -----

  /** A terminal response has been prepared and refused. */
  predicate Poisoned(c: Coordinator) {
    c.snapshot.readyAt.Some? || c.snapshot.failedAt.Some?
  }

  /** A progress update leaves the terminal times alone. */
  ghost predicate TimesKept(call: Call) {
    call.ProgressCall? ==>
      forall s: Snapshot :: call.update(s).readyAt == s.readyAt && call.update(s).failedAt == s.failedAt
  }

  /** The stage at which the lifecycle now published was published. */
  ghost function ShownStage(c: Coordinator, calls: seq<Call>): Stage {
    if calls == [] then c.stage
    else
      var pre := calls[..|calls| - 1];
      if Run(c, calls).uds.lifecycle == Run(c, pre).uds.lifecycle then ShownStage(c, pre) else Run(c, calls).stage
  }

  /**
   What is published as Starting belongs to its stage, and the private snapshot has moved on from it
   or is poisoned.
   */
  predicate Shown(c: Coordinator, at: Stage) {
    c.uds.lifecycle.status.Starting? ==>
      && c.uds.lifecycle.startup.phase == WirePhase(at) && Index(at) <= Index(c.stage)
      && (Poisoned(c)
          || (InStep(c) && (at == c.stage ==> CountersAdvance(c.uds.lifecycle.startup, c.snapshot))))
  }

  /** What a call may do to the published Starting counters. */
  predicate ShowsMore(c: Coordinator, at: Stage, d: Coordinator, next: Stage) {
    d.uds.lifecycle.status.Starting? ==>
      && c.uds.lifecycle.status.Starting? && Index(at) <= Index(next)
      && (at == next ==> CountersAdvance(c.uds.lifecycle.startup, d.uds.lifecycle.startup))
  }

  lemma TimesStay(c: Coordinator, call: Call)
    requires TimesKept(call) && (call.PhaseCall? || call.ProgressCall? || call.RecoveryCall?)
    ensures var d := Perform(c, call).state;
            d.snapshot.readyAt == c.snapshot.readyAt && d.snapshot.failedAt == c.snapshot.failedAt
  {
    hide Publish, PublishAt, Advance, ValidTransition;
    forall b: Coordinator, l: Lifecycle ensures Publish(b, l).state.snapshot == b.snapshot { PublishKeepsClock(b, l); }
  }

  /** A terminal call that changes nothing published leaves the snapshot alone or poisoned. */
  lemma TerminalPoisons(c: Coordinator, call: Call)
    requires Sound(c) && (call.ReadyCall? || call.FailedCall?)
    ensures var d := Perform(c, call).state; (d.snapshot == c.snapshot && d.stage == c.stage) || Poisoned(d)
  {
    hide Publish, PublishAt, WirePhase, ValidLifecycle;
    forall b: Coordinator, l: Lifecycle ensures Publish(b, l).state.snapshot == b.snapshot { PublishKeepsClock(b, l); }
    forall b: Coordinator, l: Lifecycle ensures Publish(b, l).state.stage == b.stage { PublishKeepsStage(b, l); }
  }

  lemma PublishedIsClean(c: Coordinator, d: Coordinator)
    requires Sound(d) && Publishes(c, d) && d.uds.lifecycle.status.Starting?
    ensures !Poisoned(d) && InStep(d)
  {
  }

  lemma OnlyTerminalsRefuse(c: Coordinator, call: Call)
    requires !call.ReadyCall? && !call.FailedCall?
    ensures !Refused(c, call)
  {
  }

  lemma SameStage(a: Stage, b: Stage, c: Stage)
    requires Index(a) <= Index(b) <= Index(c) && a == c
    ensures a == b
  {
  }

  lemma ShownStep(c: Coordinator, at: Stage, call: Call)
    requires Sound(c) && Shown(c, at) && TimesKept(call)
    ensures var d := Perform(c, call).state;
            var next := if d.uds.lifecycle == c.uds.lifecycle then at else d.stage;
            Shown(d, next) && ShowsMore(c, at, d, next)
  {
    var d := Perform(c, call).state;
    StepLaw(c, call);
    if !d.uds.lifecycle.status.Starting? { return; }
    if call.ReadyCall? || call.FailedCall? { TerminalPoisons(c, call); }
    if call.PhaseCall? || call.ProgressCall? || call.RecoveryCall? { TimesStay(c, call); }
    if call.ApplicationCall? || call.ShutdownCall? { assert d.snapshot == c.snapshot && d.stage == c.stage; }
    if InStep(c) { StepCounters(c, call); }
    if !call.ReadyCall? && !call.FailedCall? { OnlyTerminalsRefuse(c, call); }
    if Publishes(c, d) { PublishedIsClean(c, d); }
    hide Perform, Sound, InStep, CountersAdvance, Index, WirePhase, Refused, TimesKept;
    Reflexive(c.uds.lifecycle.startup);
    Reflexive(d.snapshot);
    if d.uds.lifecycle == c.uds.lifecycle {
      KeptStep(c, at, d);
    } else {
      NewStep(c, at, d, call);
    }
  }

  /** Nothing new is published. */
  lemma KeptStep(c: Coordinator, at: Stage, d: Coordinator)
    requires Shown(c, at) && StepOk(c, d) && d.uds.lifecycle == c.uds.lifecycle && c.uds.lifecycle.status.Starting?
    requires Poisoned(c) ==> Poisoned(d)
    requires !Poisoned(c) ==> Poisoned(d) || (InStep(d) && (d.stage == c.stage ==> CountersAdvance(c.snapshot,
        d.snapshot)))
    ensures Shown(d, at) && ShowsMore(c, at, d, at)
  {
    hide InStep, CountersAdvance, Index, WirePhase;
    Reflexive(c.uds.lifecycle.startup);
    if !Poisoned(d) && at == d.stage {
      SameStage(at, c.stage, d.stage);
      AdvanceTrans(c.uds.lifecycle.startup, c.snapshot, d.snapshot);
    }
  }

  /** The snapshot is published at the current stage. */
  lemma NewStep(c: Coordinator, at: Stage, d: Coordinator, call: Call)
    requires Shown(c, at) && StepOk(c, d) && Publishes(c, d) && d.uds.lifecycle.status.Starting? && !Poisoned(d)
        && InStep(d)
    requires Poisoned(c) ==> Poisoned(d)
    requires !Poisoned(c) && d.stage == c.stage ==> CountersAdvance(c.snapshot, d.snapshot)
    ensures Shown(d, d.stage) && ShowsMore(c, at, d, d.stage)
  {
    hide InStep, CountersAdvance, Index;
    Reflexive(d.snapshot);
    if at == d.stage {
      SameStage(at, c.stage, d.stage);
      AdvanceTrans(c.uds.lifecycle.startup, c.snapshot, d.snapshot);
    }
  }

  lemma ShownAt(c: Coordinator, calls: seq<Call>, i: nat)
    requires i < |calls|
    ensures var a, b := At(c, calls, i), At(c, calls, i + 1);
            ShownStage(c, calls[..i + 1]) ==
            if b.uds.lifecycle == a.uds.lifecycle then ShownStage(c, calls[..i]) else b.stage
  {
    hide Run;
    assert calls[..i + 1][..i] == calls[..i];
  }

  lemma {:induction false} ShownRun(c: Coordinator, calls: seq<Call>, i: nat, j: nat)
    requires i <= j <= |calls| && Sound(c) && Shown(c, c.stage) && forall k | 0 <= k < |calls| :: TimesKept(calls[k])
    ensures Sound(At(c, calls, j)) && Shown(At(c, calls, j), ShownStage(c, calls[..j]))
    ensures ShowsMore(At(c, calls, i), ShownStage(c, calls[..i]), At(c, calls, j), ShownStage(c, calls[..j]))
    decreases j
  {
    hide Perform, Sound, Shown, Index, TimesKept, CountersAdvance;
    if j == 0 {
      Reflexive(c.uds.lifecycle.startup);
    } else {
      var m := if i < j then i else i - 1;
      ShownRun(c, calls, m, j - 1);
      AtNext(c, calls, j - 1);
      ShownAt(c, calls, j - 1);
      hide Run, ShownStage, At;
      var x, y := At(c, calls, j - 1), At(c, calls, j);
      var at := ShownStage(c, calls[..j - 1]);
      StepLaw(x, calls[j - 1]);
      ShownStep(x, at, calls[j - 1]);
      Reflexive(y.uds.lifecycle.startup);
      if i < j { ShowsThrough(At(c, calls, i), ShownStage(c, calls[..i]), x, at, y, ShownStage(c, calls[..j])); }
    }
  }

  lemma ShowsThrough(a: Coordinator, p: Stage, b: Coordinator, q: Stage, c: Coordinator, r: Stage)
    requires ShowsMore(a, p, b, q) && ShowsMore(b, q, c, r)
    ensures ShowsMore(a, p, c, r)
  {
    hide CountersAdvance, Index;
    if c.uds.lifecycle.status.Starting? && p == r {
      SameStage(p, q, r);
      AdvanceTrans(a.uds.lifecycle.startup, b.uds.lifecycle.startup, c.uds.lifecycle.startup);
    }
  }

  /**
   What the doors show, on every run whose progress updates leave the terminal
   times alone: a published Starting lifecycle carries its stage's wire phase;
   and between two of them published at the same stage no counter decreases or
   vanishes, pending never grows, and done never exceeds total.  A refused
   terminal publication is no exception: nothing is shown after it but a
   terminal lifecycle.
   */
  lemma PublishedCountersAreMonotone(id: Identity, instant: nat, calls: seq<Call>, i: nat, j: nat)
    requires !Blank(id.startedAt) && i <= j <= |calls|
    requires forall k | 0 <= k < |calls| :: TimesKept(calls[k])
    ensures var c := Bootstrap(id, instant);
            var a, b := At(c, calls, i).uds.lifecycle, At(c, calls, j).uds.lifecycle;
            b.status.Starting? ==>
              && a.status.Starting?
              && a.startup.phase == WirePhase(ShownStage(c, calls[..i]))
                  && b.startup.phase == WirePhase(ShownStage(c, calls[..j]))
              && DoneWithinTotal(b.startup)
              && (ShownStage(c, calls[..i]) == ShownStage(c, calls[..j]) ==> CountersAdvance(a.startup, b.startup))
  {
    var c := Bootstrap(id, instant);
    BootstrapSound(id, instant);
    assert Shown(c, c.stage);
    hide Perform, TimesKept, CountersAdvance, Index, WirePhase, Run, Bootstrap;
    ShownRun(c, calls, i, i);
    ShownRun(c, calls, i, j);
    hide At;
  }

  /** A progress update that erases the failure time again. */
  function EraseFailure(s: Snapshot): Snapshot {
    s.(failedAt := None)
  }

  /**
   The condition on updates is needed: after a refused failure and a re-entry, an
   update that erases the failure time makes the doors show the same stage with
   every counter gone.
   */
  lemma ErasedFailureShowsDrop(c: Coordinator, k: Clock)
    requires Sound(c) && InStep(c) && c.uds.lifecycle.status.Starting? && !c.shuttingDown
    requires !k.shutdownRequested && !Blank(k.now) && c.snapshot.startedAt == c.identity.startedAt
    requires c.uds.lifecycle.startup.sequence <= c.snapshot.sequence && c.snapshot.sequence + 3 < U64_MAX
    ensures var e := Run(c, [FailedCall("", k), PhaseCall(WirePhase(c.stage), k)]);
            var r := DoProgress(e, EraseFailure, k);
            && r.ok && r.state.stage == c.stage && r.state.uds.lifecycle.status.Starting?
            && ClearCounters(r.state.uds.lifecycle.startup) == r.state.uds.lifecycle.startup
  {
    hide Publish, PublishAt, DoFailed, DoPhase, Run, Sound, DoProgress, PhaseSnapshot, ValidLifecycle, ValidTransition,
      InStep, WirePhase, ClearCounters, Refused, Blank;
    RefusalDropsCounters(c, k);
    var calls := [FailedCall("", k), PhaseCall(WirePhase(c.stage), k)];
    RunOfTwo(c, calls);
    BlankFailure(c, k);
    FailedFields(c, k);
    var d := DoFailed(c, "", k).state;
    ReenteredSnapshot(d, k);
    var e := DoPhase(d, WirePhase(d.stage), k).state;
    SoundIdentity(c);
    ReenteredFields(d, k);
    EraseShows(e, k);
  }

  lemma SoundIdentity(c: Coordinator)
    requires Sound(c)
    ensures c.uds == c.http && c.uds.lifecycle.identity == c.identity && !Blank(c.identity.startedAt)
  {
  }

  lemma ReenteredFields(d: Coordinator, k: Clock)
    requires d.snapshot.phase.Failed?
    ensures var s := PhaseSnapshot(d.snapshot, WirePhase(d.stage), k);
            && s.phase == WirePhase(d.stage) && s.error.None? && s.phaseStartedAt == k.now
            && s.startedAt == d.snapshot.startedAt && s.readyAt == d.snapshot.readyAt
            && s.sequence == Next(d.snapshot.sequence) && s.elapsedMs == k.elapsedMs
            && ClearCounters(s) == s
  {
  }

  lemma EraseShows(e: Coordinator, k: Clock)
    requires e.uds == e.http && e.uds.lifecycle.identity == e.identity && !Blank(e.identity.startedAt)
    requires e.uds.lifecycle.status.Starting? && !e.shuttingDown && !k.shutdownRequested && !Blank(k.now)
    requires e.snapshot.phase == WirePhase(e.stage) && e.snapshot.error.None? && e.snapshot.readyAt.None?
    requires e.snapshot.startedAt == e.identity.startedAt && e.snapshot.phaseStartedAt == k.now
    requires e.snapshot.elapsedMs == k.elapsedMs && ClearCounters(e.snapshot) == e.snapshot
    requires e.snapshot.recoveryThreads.None?
    requires e.uds.lifecycle.startup.sequence <= e.snapshot.sequence < U64_MAX
    ensures var r := DoProgress(e, EraseFailure, k);
            && r.ok && r.state.stage == e.stage && r.state.uds.lifecycle.status.Starting?
            && ClearCounters(r.state.uds.lifecycle.startup) == r.state.uds.lifecycle.startup
  {
    hide Publish, PublishAt, Blank;
    var s := EraseFailure(e.snapshot.(sequence := Next(e.snapshot.sequence), updatedAt := k.now,
        elapsedMs := k.elapsedMs));
    assert ValidTransition(e.snapshot, s);
    assert ValidLifecycle(StartingResponse(e.identity, s));
    Accepted(e.uds, StartingResponse(e.identity, s));
    PublishTogether(e.(snapshot := s), StartingResponse(e.identity, s));
  }

  lemma Accepted(d: Door, l: Lifecycle)
    requires ValidLifecycle(l) && l.identity == d.lifecycle.identity && d.lifecycle.status.Starting?
    requires d.lifecycle.startup.sequence < l.startup.sequence && !l.ready
    ensures PublishAt(d, l).Some?
  {
  }

  lemma FailedFields(c: Coordinator, k: Clock)
    requires c.uds.lifecycle.status.Starting?
    ensures var s := DoFailed(c, "", k).state.snapshot; s.startedAt == c.snapshot.startedAt && s.readyAt.None?
  {
    hide PublishAt;
  }

  lemma ReenteredSnapshot(d: Coordinator, k: Clock)
    requires d.uds.lifecycle.status.Starting? && !d.shuttingDown && !k.shutdownRequested
    ensures var e := DoPhase(d, WirePhase(d.stage), k).state;
            e.snapshot == PhaseSnapshot(d.snapshot, WirePhase(d.stage), k) && e.identity == d.identity
                && !e.shuttingDown
  {
    AdvanceMovesOn(d.stage, WirePhase(d.stage));
    hide PublishAt;
  }
}
