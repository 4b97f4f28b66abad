/**
 The startup publication coordinator: one monotone lifecycle stream mirrored to
 the HTTP and UDS front doors.  Each call holds the publication lock, so a call
 is one step of this model.
 */
module StartupCoordinator {
  import opened Prelude
  import opened StartupStages

  datatype Snapshot = Snapshot(
    sequence: nat, phase: Phase, startedAt: string, phaseStartedAt: string, updatedAt: string,
    readyAt: Option<string>, failedAt: Option<string>, elapsedMs: nat,
    chainsTotal: Option<nat>, chainsDone: Option<nat>, threadsRestored: Option<nat>,
    eventsProjected: Option<nat>, pendingHeads: Option<nat>, recoveryThreads: Option<nat>,
    error: Option<string>)

  datatype WireState = Starting | Running | FailedState

  datatype Identity = Identity(startedAt: string, rest: string)

  datatype Lifecycle = Lifecycle(
    status: WireState, ready: bool, identity: Identity, readyAt: Option<string>, failedAt: Option<string>,
    startup: Snapshot, error: Option<string>, projection: Option<string>)

  predicate White(c: char) {
    c == ' ' || c == '\t' || c == '\n' || c == '\r'
  }

  predicate Blank(s: string) {
    forall i | 0 <= i < |s| :: White(s[i])
  }

  predicate Trimmed(s: string) {
    s != [] ==> !White(s[0]) && !White(s[|s| - 1])
  }

  function TrimEnd(s: string): string {
    if s != [] && White(s[|s| - 1]) then TrimEnd(s[..|s| - 1]) else s
  }

  function Trim(s: string): string {
    if s != [] && White(s[0]) then Trim(s[1..]) else TrimEnd(s)
  }

  predicate DoneWithinTotal(s: Snapshot) {
    s.chainsDone.Some? && s.chainsTotal.Some? ==> s.chainsDone.value <= s.chainsTotal.value
  }

  predicate ValidSnapshot(s: Snapshot) {
    && !Blank(s.startedAt) && !Blank(s.phaseStartedAt) && !Blank(s.updatedAt)
    && DoneWithinTotal(s)
    && (s.error.Some? ==> !Blank(s.error.value) && Trimmed(s.error.value))
  }

  /** `LifecycleResponse::validate`. */
  predicate ValidLifecycle(l: Lifecycle) {
    && ValidSnapshot(l.startup) && l.startup.startedAt == l.identity.startedAt
    && match l.status
       case Starting =>
         && !l.ready && l.readyAt.None? && l.failedAt.None? && l.startup.readyAt.None? && l.startup.failedAt.None?
         && l.error.None? && l.startup.error.None? && !l.startup.phase.Ready? && !l.startup.phase.Failed?
       case Running =>
         && l.ready && l.readyAt.Some? && l.failedAt.None? && l.readyAt == l.startup.readyAt
         && l.startup.failedAt.None? && l.error.None? && l.startup.error.None? && l.startup.phase.Ready?
       case FailedState =>
         && !l.ready && l.readyAt.None? && l.failedAt.Some? && l.failedAt == l.startup.failedAt
         && l.startup.readyAt.None? && l.startup.phase.Failed? && l.error.Some? && l.error == l.startup.error
  }

  /** `u64::saturating_add(1)`. */
  function Next(sequence: nat): nat {
    if sequence >= U64_MAX then U64_MAX else sequence + 1
  }

  function StartingResponse(id: Identity, s: Snapshot): Lifecycle {
    Lifecycle(Starting, false, id, None, None, s, None, None)
  }

  function RunningResponse(id: Identity, at: string, s: Snapshot, projection: string): Lifecycle {
    Lifecycle(Running, true, id, Some(at), None,
              s.(sequence := Next(s.sequence), phase := Phase.Ready, phaseStartedAt := at, updatedAt := at,
                 readyAt := Some(at), failedAt := None, error := None),
              None, Some(projection))
  }

  function FailedResponse(id: Identity, at: string, error: string, s: Snapshot): Lifecycle {
    Lifecycle(FailedState, false, id, None, Some(at),
              s.(sequence := Next(s.sequence), phase := Phase.Failed, phaseStartedAt := at, updatedAt := at,
                 readyAt := None, failedAt := Some(at), error := Some(Trim(error))),
              Some(Trim(error)), None)
  }

  /** One front door: what it publishes, and whether its application pointer is set. */
  datatype Door = Door(lifecycle: Lifecycle, application: bool)

  /** `publish_lifecycle`; `None` when the door refuses. */
  function PublishAt(d: Door, l: Lifecycle): Option<Door> {
    if !ValidLifecycle(l) || l.identity != d.lifecycle.identity || !d.lifecycle.status.Starting?
       || l.startup.sequence <= d.lifecycle.startup.sequence || (l.ready && !d.application)
    then None else Some(d.(lifecycle := l))
  }

  datatype Coordinator = Coordinator(
    identity: Identity, snapshot: Snapshot, phaseStarted: nat, stage: Stage,
    shuttingDown: bool, uds: Door, http: Door, admission: bool, gatesReleased: bool)

  datatype Reply = Reply(state: Coordinator, ok: bool)

  function Bootstrap(id: Identity, instant: nat): Coordinator {
    var s := Snapshot(0, Phase.Bootstrapping, id.startedAt, id.startedAt, id.startedAt, None, None, 0,
                      None, None, None, None, None, None, None);
    var door := Door(StartingResponse(id, s), false);
    Coordinator(id, s, instant, Boot, false, door, door, false, false)
  }

  function Publish(c: Coordinator, l: Lifecycle): Reply {
    if c.uds.lifecycle != c.http.lifecycle then Reply(c, false)
    else
      match PublishAt(c.uds, l)
      case None => Reply(c, false)
      case Some(uds) =>
        match PublishAt(c.http, l)
        case None => Reply(c.(uds := uds), false)
        case Some(http) => Reply(c.(uds := uds, http := http), true)
  }

  function ClearCounters(s: Snapshot): Snapshot {
    s.(chainsTotal := None, chainsDone := None, threadsRestored := None, eventsProjected := None, pendingHeads := None)
  }

  predicate NonDecreasing(a: Option<nat>, b: Option<nat>) {
    a.Some? ==> b.Some? && a.value <= b.value
  }

  predicate NonIncreasing(a: Option<nat>, b: Option<nat>) {
    a.Some? ==> b.Some? && b.value <= a.value
  }

  /** No counter moves the wrong way or disappears. */
  predicate CountersAdvance(a: Snapshot, b: Snapshot) {
    && NonDecreasing(a.chainsTotal, b.chainsTotal) && NonDecreasing(a.chainsDone, b.chainsDone)
    && NonDecreasing(a.threadsRestored, b.threadsRestored) && NonDecreasing(a.eventsProjected, b.eventsProjected)
    && NonDecreasing(a.recoveryThreads, b.recoveryThreads) && NonIncreasing(a.pendingHeads, b.pendingHeads)
  }

  /** `validate_progress_transition`. */
  predicate ValidTransition(a: Snapshot, b: Snapshot) {
    && a.sequence < b.sequence && a.elapsedMs <= b.elapsedMs && DoneWithinTotal(b)
    && (b.phase != a.phase || (b.phaseStartedAt == a.phaseStartedAt && CountersAdvance(a, b)))
  }

  /** What a call reads from outside: wall clock, process clock, and the process-wide shutdown flag. */
  datatype Clock = Clock(now: string, elapsedMs: nat, instant: nat, shutdownRequested: bool)

  function PhaseSnapshot(s: Snapshot, phase: Phase, k: Clock): Snapshot {
    var t := s.(sequence := Next(s.sequence), phase := phase, updatedAt := k.now, elapsedMs := k.elapsedMs,
        error := None);
    if s.phase == phase then t else ClearCounters(t).(phaseStartedAt := k.now, recoveryThreads := None)
  }

  function DoPhase(c: Coordinator, phase: Phase, k: Clock): Reply {
    if c.shuttingDown || k.shutdownRequested || !c.uds.lifecycle.status.Starting? || Advance(c.stage, phase).None?
    then Reply(c, false)
    else
      var s := PhaseSnapshot(c.snapshot, phase, k);
      Publish(c.(snapshot := s, stage := Advance(c.stage, phase).value,
                 phaseStarted := if c.snapshot.phase == phase then c.phaseStarted else k.instant),
              StartingResponse(c.identity, s))
  }

  function DoProgress(c: Coordinator, update: Snapshot -> Snapshot, k: Clock): Reply {
    if c.shuttingDown || k.shutdownRequested || !c.uds.lifecycle.status.Starting? then Reply(c, true)
    else
      var s := update(c.snapshot.(sequence := Next(c.snapshot.sequence), updatedAt := k.now, elapsedMs := k.elapsedMs));
      if s.phase != c.snapshot.phase || !ValidTransition(c.snapshot, s) then Reply(c, false)
      else Publish(c.(snapshot := s), StartingResponse(c.identity, s))
  }

  datatype RecoveryStage = Opening | Rebuilding | ReplayingPending

  datatype Progress = Progress(
    stage: RecoveryStage, chainsTotal: Option<nat>, chainsDone: nat, threadsRestored: nat, eventsProjected: nat,
    pendingTotal: Option<nat>, pendingDone: nat)

  function RecoveryPhase(s: RecoveryStage): Phase {
    match s
    case Opening => OpeningProjection
    case Rebuilding => RebuildingProjection
    case ReplayingPending => ReplayingHeadChanges
  }

  function Most(old_: Option<nat>, n: nat): Option<nat> {
    Some(if old_.Some? && old_.value > n then old_.value else n)
  }

  function Remaining(p: Progress): nat
    requires p.pendingTotal.Some?
  {
    if p.pendingTotal.value >= p.pendingDone then p.pendingTotal.value - p.pendingDone else 0
  }

  function RecoverySnapshot(s: Snapshot, p: Progress, k: Clock): Snapshot {
    var phase := RecoveryPhase(p.stage);
    var t := if s.phase == phase then s else ClearCounters(s).(phase := phase, phaseStartedAt := k.now);
    t.(sequence := Next(t.sequence), updatedAt := k.now, elapsedMs := k.elapsedMs,
       chainsTotal := p.chainsTotal, chainsDone := Most(t.chainsDone, p.chainsDone),
       threadsRestored := Most(t.threadsRestored, p.threadsRestored),
       eventsProjected := Most(t.eventsProjected, p.eventsProjected),
       pendingHeads := if p.pendingTotal.None? then t.pendingHeads
                       else if t.pendingHeads.Some? && t.pendingHeads.value < Remaining(p) then t.pendingHeads
                       else Some(Remaining(p)))
  }

  function DoRecovery(c: Coordinator, p: Progress, k: Clock): Reply {
    var phase := RecoveryPhase(p.stage);
    if c.shuttingDown || k.shutdownRequested || !c.uds.lifecycle.status.Starting? then Reply(c, true)
    else if Advance(c.stage, phase).None? then Reply(c, false)
    else
      var s := RecoverySnapshot(c.snapshot, p, k);
      if !ValidTransition(c.snapshot, s) then Reply(c, false)
      else
        Publish(c.(snapshot := s, stage := Advance(c.stage, phase).value,
                   phaseStarted := if c.snapshot.phase == phase then c.phaseStarted else k.instant),
                StartingResponse(c.identity, s))
  }

  function DoPublishApplication(c: Coordinator, k: Clock): Reply {
    if c.shuttingDown || k.shutdownRequested || !c.uds.lifecycle.status.Starting?
       || c.uds.application || c.http.application
    then Reply(c, false)
    else Reply(c.(uds := c.uds.(application := true), http := c.http.(application := true)), true)
  }

  function DoReady(c: Coordinator, projection: string, k: Clock): Reply {
    if c.shuttingDown || k.shutdownRequested || !c.uds.lifecycle.status.Starting?
       || !c.uds.application || !c.http.application
       || !c.stage.Scheduler? || !c.snapshot.phase.ReconcilingScheduler?
    then Reply(c, false)
    else
      var l := RunningResponse(c.identity, k.now, c.snapshot.(elapsedMs := k.elapsedMs), projection);
      Publish(c.(snapshot := l.startup, gatesReleased := true, admission := true), l)
  }

  function DoBeginShutdown(c: Coordinator): Reply {
    Reply(c.(shuttingDown := true, admission := false,
             uds := c.uds.(application := false), http := c.http.(application := false)), true)
  }

  function DoFailed(c: Coordinator, error: string, k: Clock): Reply {
    if !c.uds.lifecycle.status.Starting? then Reply(c, true)
    else
      var l := FailedResponse(c.identity, k.now, error, c.snapshot.(elapsedMs := k.elapsedMs));
      Publish(c.(snapshot := l.startup), l)
  }

  datatype Call =
    | PhaseCall(phase: Phase, clock: Clock)
    | ProgressCall(update: Snapshot -> Snapshot, clock: Clock)
    | RecoveryCall(progress: Progress, clock: Clock)
    | ApplicationCall(clock: Clock)
    | ReadyCall(projection: string, clock: Clock)
    | ShutdownCall
    | FailedCall(error: string, clock: Clock)

  function Perform(c: Coordinator, call: Call): Reply {
    match call
    case PhaseCall(phase, k) => DoPhase(c, phase, k)
    case ProgressCall(update, k) => DoProgress(c, update, k)
    case RecoveryCall(p, k) => DoRecovery(c, p, k)
    case ApplicationCall(k) => DoPublishApplication(c, k)
    case ReadyCall(projection, k) => DoReady(c, projection, k)
    case ShutdownCall => DoBeginShutdown(c)
    case FailedCall(error, k) => DoFailed(c, error, k)
  }

  function Run(c: Coordinator, calls: seq<Call>): Coordinator {
    if calls == [] then c else Perform(Run(c, calls[..|calls| - 1]), calls[|calls| - 1]).state
  }
}
