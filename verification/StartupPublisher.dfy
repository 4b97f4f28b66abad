/** The coordinator object: its methods change fields one at a time and refine the call model. */
module StartupPublisher {
  import opened Prelude
  import opened StartupStages
  import opened StartupCoordinator

  class Publisher {
    const identity: Identity
    var snapshot: Snapshot
    var phaseStarted: nat
    var stage: Stage
    var shuttingDown: bool
    var uds: Door
    var http: Door
    var admission: bool
    var gatesReleased: bool

    function View(): Coordinator
      reads this
    {
      Coordinator(identity, snapshot, phaseStarted, stage, shuttingDown, uds, http, admission, gatesReleased)
    }

    constructor (id: Identity, instant: nat)
      ensures View() == Bootstrap(id, instant)
    {
      var c := Bootstrap(id, instant);
      identity, snapshot, phaseStarted, stage := id, c.snapshot, instant, Boot;
      shuttingDown, uds, http, admission, gatesReleased := false, c.uds, c.http, false, false;
    }

    method PublishResponse(l: Lifecycle) returns (ok: bool)
      modifies `uds, `http
      ensures Reply(View(), ok) == Publish(old(View()), l)
    {
      hide ValidLifecycle;
      if uds.lifecycle != http.lifecycle { return false; }
      var u := PublishAt(uds, l);
      if u.None? { return false; }
      uds := u.value;
      var h := PublishAt(http, l);
      if h.None? { return false; }
      http := h.value;
      return true;
    }

    method EnterPhase(phase: Phase, k: Clock) returns (ok: bool)
      modifies this
      ensures Reply(View(), ok) == DoPhase(old(View()), phase, k)
    {
      hide Publish, Advance;
      if shuttingDown || k.shutdownRequested || !uds.lifecycle.status.Starting? { return false; }
      var next := Advance(stage, phase);
      if next.None? { return false; }
      var changed := snapshot.phase != phase;
      snapshot := snapshot.(sequence := Next(snapshot.sequence), phase := phase, updatedAt := k.now,
                            elapsedMs := k.elapsedMs);
      if changed {
        snapshot := ClearCounters(snapshot).(phaseStartedAt := k.now, recoveryThreads := None);
        phaseStarted := k.instant;
      }
      stage := next.value;
      snapshot := snapshot.(error := None);
      ok := PublishResponse(StartingResponse(identity, snapshot));
    }

    method ReportProgress(update: Snapshot -> Snapshot, k: Clock) returns (ok: bool)
      modifies this
      ensures Reply(View(), ok) == DoProgress(old(View()), update, k)
    {
      hide Publish, ValidTransition;
      if shuttingDown || k.shutdownRequested || !uds.lifecycle.status.Starting? { return true; }
      var next := update(snapshot.(sequence := Next(snapshot.sequence), updatedAt := k.now, elapsedMs := k.elapsedMs));
      if next.phase != snapshot.phase || !ValidTransition(snapshot, next) { return false; }
      snapshot := next;
      ok := PublishResponse(StartingResponse(identity, next));
    }

    /** Writes the update in place, validates it, and rolls every field back on refusal. */
    method ProjectionRecoveryProgress(p: Progress, k: Clock) returns (ok: bool)
      modifies this
      ensures Reply(View(), ok) == DoRecovery(old(View()), p, k)
    {
      hide Publish, Advance, ValidTransition;
      if shuttingDown || k.shutdownRequested || !uds.lifecycle.status.Starting? { return true; }
      var phase := RecoveryPhase(p.stage);
      var previousStage, previousSnapshot, previousStarted := stage, snapshot, phaseStarted;
      var next := Advance(stage, phase);
      if next.None? { return false; }
      if snapshot.phase != phase {
        snapshot := ClearCounters(snapshot).(phase := phase, phaseStartedAt := k.now);
        phaseStarted := k.instant;
      }
      stage := next.value;
      snapshot := snapshot.(sequence := Next(snapshot.sequence), updatedAt := k.now, elapsedMs := k.elapsedMs,
                            chainsTotal := p.chainsTotal);
      snapshot := snapshot.(chainsDone := Most(snapshot.chainsDone, p.chainsDone),
                            threadsRestored := Most(snapshot.threadsRestored, p.threadsRestored),
                            eventsProjected := Most(snapshot.eventsProjected, p.eventsProjected));
      if p.pendingTotal.Some? {
        var remaining := Remaining(p);
        var observed := snapshot.pendingHeads;
        snapshot := snapshot.(pendingHeads := if observed.Some?
            && observed.value < remaining then observed else Some(remaining));
      }
      if !ValidTransition(previousSnapshot, snapshot) {
        snapshot, phaseStarted, stage := previousSnapshot, previousStarted, previousStage;
        return false;
      }
      ok := PublishResponse(StartingResponse(identity, snapshot));
    }

    method PublishApplication(k: Clock) returns (ok: bool)
      modifies this
      ensures Reply(View(), ok) == DoPublishApplication(old(View()), k)
    {
      if shuttingDown || k.shutdownRequested || !uds.lifecycle.status.Starting? { return false; }
      if uds.application || http.application { return false; }
      uds := uds.(application := true);
      http := http.(application := true);
      return true;
    }

    method PublishReady(projection: string, k: Clock) returns (ok: bool)
      modifies this
      ensures Reply(View(), ok) == DoReady(old(View()), projection, k)
    {
      hide Publish;
      if shuttingDown || k.shutdownRequested || !uds.lifecycle.status.Starting? { return false; }
      if !uds.application || !http.application { return false; }
      if !stage.Scheduler? || !snapshot.phase.ReconcilingScheduler? { return false; }
      snapshot := snapshot.(elapsedMs := k.elapsedMs);
      var response := RunningResponse(identity, k.now, snapshot, projection);
      snapshot := response.startup;
      gatesReleased := true;
      admission := true;
      ok := PublishResponse(response);
    }

    method BeginShutdown()
      modifies this
      ensures View() == DoBeginShutdown(old(View())).state
    {
      shuttingDown := true;
      admission := false;
      http := http.(application := false);
      uds := uds.(application := false);
    }

    method PublishFailed(error: string, k: Clock) returns (ok: bool)
      modifies this
      ensures Reply(View(), ok) == DoFailed(old(View()), error, k)
    {
      hide Publish, Trim;
      if !uds.lifecycle.status.Starting? { return true; }
      snapshot := snapshot.(elapsedMs := k.elapsedMs);
      var response := FailedResponse(identity, k.now, error, snapshot);
      snapshot := response.startup;
      ok := PublishResponse(response);
    }
  }
}
