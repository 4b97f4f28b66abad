/** From thread reconciliation to Ready: who owns every recovery target, and whether the projection is current. */
module ReadyBoundary {
  import opened Prelude
  import opened RecoveryListings
  import opened StartupTrace
  import RS = RecoveryStore
  import TR = ThreadRecovery
  import RP = RecoveryPass
  import FR = FollowRecovery
  import PH = ProjectionHealth
  import LW = LaunchWindows
  import ST = StartupStages
  import WR = WorkspaceRecovery
  import opened RecoveryService
  import opened StartupCoordinator
  import opened StartupCoordinatorLaws
  import opened StartupPublisher

  /** Liveness of the recorded leader and of its whole group. */
  datatype Probe = Probe(leader: RS.ProcessIdentity -> RS.Liveness, group: RS.ProcessIdentity -> RS.Liveness)

  /** A follow waiter is keyed by the thread's chain, its parent role or its successor role. */
  predicate FollowOwned(st: RS.Store, row: RS.ThreadRow, t: RS.ThreadId) {
    || RS.WaiterByChain(st, row.chainRoot).Some?
    || (exists key | key in st.waiters :: st.waiters[key].parent == t || st.waiters[key].successor == Some(t))
    || (row.upstream.Some? && (row.upstream.value, t) in st.followEdges)
  }

  /** Terminal, live and owned, claimed, waiting, or owned by a follow or window record. */
  predicate Classified(st: RS.Store, probe: Probe, t: RS.ThreadId) {
    && t in st.threads
    && var row := st.threads[t];
       || RS.Terminal(row.status)
       || (row.identity.Some? && probe.leader(row.identity.value).Alive? && probe.group(row.identity.value).Alive?)
       || t in st.claims || row.wait.Some? || FollowOwned(st, row, t) || row.chainRoot in st.windows
  }

  /** `ensure_recovery_targets_classified`: passes exactly when every target is classified. */
  method EnsureClassified(st: RS.Store, probe: Probe, targets: set<RS.ThreadId>) returns (ok: bool)
    ensures ok <==> forall t | t in targets :: Classified(st, probe, t)
  {
    var rest := targets;
    while rest != {}
      invariant rest <= targets && forall t | t in targets && t !in rest :: Classified(st, probe, t)
      decreases |rest|
    {
      var t :| t in rest;
      rest := rest - {t};
      if t !in st.threads { return false; }
      var row := st.threads[t];
      var live := row.identity.Some? && probe.leader(row.identity.value).Alive?
          && probe.group(row.identity.value).Alive?;
      if RS.Terminal(row.status) || live || t in st.claims || row.wait.Some? || FollowOwned(st, row, t)
         || row.chainRoot in st.windows
      {
        continue;
      }
      return false;
    }
    return true;
  }

  // ----- Targets -----

  /** The thread an action of the follow pass will wake or relaunch, as the store records it. */
  predicate TargetOf(st: RS.Store, a: FR.Action, t: RS.ThreadId) {
    match a
    case ResumeParent(key) => key in st.waiters && st.waiters[key].successor == Some(t)
    case RelaunchChild(child) => child == t
  }

  ghost predicate HasTarget(st: RS.Store, a: FR.Action) {
    exists t :: TargetOf(st, a, t)
  }

  /** The thread is the target of one of the first k actions. */
  ghost predicate FollowTarget(st: RS.Store, actions: seq<FR.Action>, k: nat, t: RS.ThreadId)
    requires k <= |actions|
  {
    exists i | 0 <= i < k :: TargetOf(st, actions[i], t)
  }

  lemma NextTarget(st: RS.Store, actions: seq<FR.Action>, k: nat, target: RS.ThreadId)
    requires k < |actions| && forall t :: TargetOf(st, actions[k], t) <==> t == target
    ensures forall t :: FollowTarget(st, actions, k + 1, t) <==> FollowTarget(st, actions, k, t) || t == target
    ensures HasTarget(st, actions[k])
  {
    hide TargetOf;
    assert TargetOf(st, actions[k], target);
    forall t ensures FollowTarget(st, actions, k + 1, t) <==> FollowTarget(st, actions, k, t) || t == target {
      if FollowTarget(st, actions, k + 1, t) {
        var i :| 0 <= i < k + 1 && TargetOf(st, actions[i], t);
      }
    }
  }

  /** Adds each action's thread; fails when a waiter or its successor has disappeared. */
  method AddFollowTargets(st: RS.Store, active: set<RS.ThreadId>, actions: seq<FR.Action>)
    returns (ok: bool, targets: set<RS.ThreadId>)
    ensures ok <==> forall i | 0 <= i < |actions| :: HasTarget(st, actions[i])
    ensures ok ==> forall t :: t in targets <==> t in active || FollowTarget(st, actions, |actions|, t)
  {
    targets := active;
    for k := 0 to |actions|
      invariant forall i | 0 <= i < k :: HasTarget(st, actions[i])
      invariant forall t :: t in targets <==> t in active || FollowTarget(st, actions, k, t)
    {
      var target: RS.ThreadId;
      match actions[k] {
        case ResumeParent(key) =>
          if key !in st.waiters || st.waiters[key].successor.None? { return false, targets; }
          target := st.waiters[key].successor.value;
        case RelaunchChild(child) => target := child;
      }
      NextTarget(st, actions, k, target);
      targets := targets + {target};
    }
    return true, targets;
  }

  // ----- The program -----

  /** What the sequence reads from outside: clocks by step, probes, room in windows. */
  datatype Inputs = Inputs(
    clock: nat -> Clock, passive: set<string>, threadProbe: nat -> TR.Probe, workspaceProbe: nat -> WR.WorkspaceProbe,
    probe: Probe, now: int, room: (string, nat) -> nat, projection: string)

  /** Which of the three projection repairs ran. */
  datatype Repairs = Repairs(first: bool, second: bool, third: bool)

  function Length(ran: bool): nat {
    if ran then 3 else 1
  }

  /** The active pass, the tombstone repair, the follow pass, and the first projection block. */
  function Reconciling(first: bool): seq<Kind> {
    [Active, Tombstones, Follow] + Block(first, 0)
  }

  /** Dispatch, window recovery, the second projection block, and what happens up to the ownership check. */
  function Checking(second: bool): seq<Kind> {
    [Outside, Windows, Outside] + Block(second, 1) + [Outside]
  }

  /** Every step of a startup that reaches Ready, in order. */
  function Plan(r: Repairs): seq<Kind> {
    Reconciling(r.first) + [Outside] + Checking(r.second) + Block(r.third, 2) + [Outside]
  }

  // Where the milestones of a plan lie, counted from the moment it starts at.

  function ReconciledAt(r: Repairs): nat { 3 + Length(r.first) }

  function CollectedAt(r: Repairs): nat { ReconciledAt(r) + 1 }

  function AdmittedAt(r: Repairs): nat { CollectedAt(r) + 1 }

  function DispatchedAt(r: Repairs): nat { AdmittedAt(r) + 2 + Length(r.second) }

  function CheckedAt(r: Repairs): nat { DispatchedAt(r) + 1 }

  function SeenAt(r: Repairs): nat { CheckedAt(r) + Length(r.third) }

  lemma PlanLength(r: Repairs)
    ensures |Plan(r)| == SeenAt(r) + 1
  {
  }

  /** The active pass was given these probes. */
  ghost predicate PassListed(step: Step, inp: Inputs) {
    && step.ActivePass? && step.passive == inp.passive
    && |step.open| == |step.wprobes| && |step.rows| == |step.probes|
    && (forall i | 0 <= i < |step.wprobes| :: step.wprobes[i] == inp.workspaceProbe(i))
    && (forall i | 0 <= i < |step.probes| :: step.probes[i] == inp.threadProbe(i))
  }

  /** The active pass ran over its store with the probes given, and reached its end. */
  ghost predicate PassGiven(st: RS.Store, step: Step, inp: Inputs) {
    PassListed(step, inp) && PassSucceeds(st, step.open, step.wprobes, step.rows, step.passive, step.probes)
  }

  /** The follow pass reached its end at the time given, with these actions. */
  ghost predicate FollowGiven(st: RS.Store, step: Step, now: int, actions: seq<FR.Action>) {
    && step.FollowPass? && step.now == now
    && var r := FR.WaiterTurns(st, step.waiters, now); !r.failed && actions == r.actions
  }

  /** The projection is current at moment i of the trace. */
  ghost predicate CurrentAt(trace: seq<Moment>, events: seq<PH.Event>, i: nat) {
    i < |trace| && trace[i].events <= |events| && PH.IsCurrent(HealthOf(events[..trace[i].events]))
  }

  lemma CurrentStays(t: seq<Moment>, e: seq<PH.Event>, t': seq<Moment>, e': seq<PH.Event>, i: nat)
    requires CurrentAt(t, e, i) && t <= t' && e <= e'
    ensures CurrentAt(t', e', i)
  {
    hide HealthOf;
    assert t'[i] == t[i] && e'[..t[i].events] == e[..t[i].events];
  }

  lemma CurrentNow(trace: seq<Moment>, events: seq<PH.Event>)
    requires trace != [] && trace[|trace| - 1].events == |events| && PH.IsCurrent(HealthOf(events))
    ensures CurrentAt(trace, events, |trace| - 1)
  {
    hide HealthOf;
    assert events[..|events|] == events;
  }

  /** A thread that readiness must account for, in a plan that starts at moment s. */
  ghost predicate Target(trace: seq<Moment>, s: nat, r: Repairs, passive: set<string>, actions: seq<FR.Action>,
      t: RS.ThreadId)
    requires s + SeenAt(r) < |trace|
  {
    || ActiveThread(trace[s].store, passive, t)
    || FollowTarget(trace[s + CollectedAt(r)].store, actions, |actions|, t)
    || (LW.Waits(trace[s + AdmittedAt(r)].store, t) && LW.Launched(trace[s + AdmittedAt(r) + 1].store, t))
  }

  /**
   Everything readiness promises, read off an explained trace: the steps taken
   are exactly the plan; the active pass and the follow pass ran on their own
   listings with the inputs given and succeeded; every target is classified at
   the check; and the projection is current after reconciliation, after dispatch
   and at the last snapshot.
   */
  ghost predicate ReadyIsJustified(trace: seq<Moment>, steps: seq<Step>, events: seq<PH.Event>, s: nat, r: Repairs,
                                   actions: seq<FR.Action>, inp: Inputs) {
    && |trace| == s + |Plan(r)| + 1 && |steps| == s + |Plan(r)| && s + SeenAt(r) < |trace| && s + 2 < |steps|
    && KindsOf(steps) == KindsOf(steps[..s]) + Plan(r)
    && PassGiven(trace[s].store, steps[s], inp)
    && FollowGiven(trace[s + 2].store, steps[s + 2], inp.now, actions)
    && CurrentAt(trace, events, s + ReconciledAt(r)) && CurrentAt(trace, events, s + DispatchedAt(r))
    && CurrentAt(trace, events, s + SeenAt(r))
    && forall t | Target(trace, s, r, inp.passive, actions, t) ::
         Classified(trace[s + CheckedAt(r)].store, inp.probe, t)
  }

  // ----- Why a startup stops short of Ready -----

  datatype Why = Done | Refused | PassFailed | FollowFailed | NotCurrent | NoTarget | Unclassified

  /** The recovery count as a progress update. */
  function CountUpdate(count: nat): Snapshot -> Snapshot {
    (s: Snapshot) => s.(recoveryThreads := Some(count))
  }

  /** The publisher's calls on the way to Ready, in order; the replay phase only when a repair is due. */
  function PlannedCalls(inp: Inputs, count: nat, replay: bool): seq<Call> {
    [PhaseCall(ST.ReconcilingThreads, inp.clock(0)), ProgressCall(CountUpdate(count), inp.clock(1)),
     PhaseCall(ST.ReconcilingFollow, inp.clock(2))]
    + (if replay then [PhaseCall(ST.ReplayingHeadChanges, inp.clock(3))] else [])
    + [PhaseCall(ST.ReconcilingScheduler, inp.clock(4)), ApplicationCall(inp.clock(5)),
       ReadyCall(inp.projection, inp.clock(6))]
  }

  /** The last of these calls was refused, or its clock reported a shutdown request. */
  ghost predicate Refuses(p0: Coordinator, calls: seq<Call>) {
    && calls != [] && !calls[|calls| - 1].ShutdownCall?
    && var last := calls[|calls| - 1];
       !Perform(Run(p0, calls[..|calls| - 1]), last).ok || last.clock.shutdownRequested
  }

  lemma RunMore(p0: Coordinator, calls: seq<Call>, call: Call)
    ensures Run(p0, calls + [call]) == Perform(Run(p0, calls), call).state
    ensures !call.ShutdownCall? ==>
              (Refuses(p0, calls + [call]) <==> !Perform(Run(p0, calls), call).ok || call.clock.shutdownRequested)
  {
    hide Perform;
    assert (calls + [call])[..|calls|] == calls;
  }

  /** The last step is the active pass with the given probes, and it does not reach its end. */
  ghost predicate PassStopped(trace: seq<Moment>, steps: seq<Step>, inp: Inputs) {
    && |trace| == |steps| + 1 && steps != []
    && var st, step := trace[|steps| - 1].store, steps[|steps| - 1];
       PassListed(step, inp) && !PassSucceeds(st, step.open, step.wprobes, step.rows, step.passive, step.probes)
  }

  /** The last step is the follow pass at the given time, and it fails. */
  ghost predicate FollowStopped(trace: seq<Moment>, steps: seq<Step>, now: int) {
    && |trace| == |steps| + 1 && steps != [] && steps[|steps| - 1].FollowPass? && steps[|steps| - 1].now == now
    && FR.WaiterTurns(trace[|steps| - 1].store, steps[|steps| - 1].waiters, now).failed
  }

  /** The projection is not current, or the repair that has just ended failed. */
  ghost predicate ProjectionStopped(steps: seq<Step>, events: seq<PH.Event>, outcomes: nat -> bool) {
    || !PH.IsCurrent(HealthOf(events))
    || exists k: nat :: !outcomes(k) && EndsWith(KindsOf(steps), End(k))
  }

  predicate EndsWith(kinds: seq<Kind>, kind: Kind) {
    kinds != [] && kinds[|kinds| - 1] == kind
  }

  lemma BrokenRepair(before: seq<Kind>, steps: seq<Step>, events: seq<PH.Event>, outcomes: nat -> bool, k: nat)
    requires KindsOf(steps) == before + Block(true, k) && !outcomes(k)
    ensures ProjectionStopped(steps, events, outcomes)
  {
    hide HealthOf, KindsOf;
    assert EndsWith(KindsOf(steps), End(k));
  }

  /** Some thread that readiness must account for has no owner in the last store. */
  ghost predicate TargetStopped(trace: seq<Moment>, c: nat, probe: Probe, known: set<RS.ThreadId>) {
    && c + 2 < |trace|
    && exists t :: (t in known || (LW.Waits(trace[c + 1].store, t) && LW.Launched(trace[c + 2].store, t)))
                   && !Classified(trace[|trace| - 1].store, probe, t)
  }

  // ----- Reconciliation -----

  /** Lists workspaces and threads from the store and runs the pass over them. */
  method RunActivePass(world: World, inp: Inputs) returns (ok: bool)
    requires world.Valid() && Keyed(world.service.store)
    modifies world`trace, world`steps, world.service
    ensures world.Valid() && Grown(old(world.trace), old(world.steps), old(world.events), world.trace, world.steps,
        world.events)
    ensures KindsOf(world.steps) == KindsOf(old(world.steps)) + [Active]
    ensures |world.steps| == |old(world.steps)| + 1
    ensures ok ==> PassGiven(old(world.service.store), world.steps[|old(world.steps)|], inp)
    ensures !ok ==> PassStopped(world.trace, world.steps, inp)
  {
    hide WorkspaceSweep, RP.ThreadPass, RP.PassLaw, IntentsOf, RS.ApplyAll, Explained, KindsOf, GapsUsed, AllOpen;
    ghost var was := world.service.store;
    var service := world.service;
    var listed := ListThreads(service.store);
    var attached := ListAttached(service.store);
    var rows := service.ListRunning(listed, attached);
    RowsAreAll(was, listed, attached, rows);
    hide AllRows;
    var open := ListOpen(service.store);
    var wprobes := seq(|open|, i requires 0 <= i => inp.workspaceProbe(i));
    var probes := seq(|rows|, i requires 0 <= i => inp.threadProbe(i));
    var log;
    ok, log := service.ReconcileActiveThreads(open, wprobes, rows, inp.passive, TR.Startup, probes);
    assert world.events == world.events + [];
    world.Note(ActivePass(open, wprobes, rows, inp.passive, probes), was, world.events, []);
  }

  lemma RowsAreAll(st: RS.Store, listed: seq<RS.ThreadRow>, attached: seq<RS.ThreadId>, rows: seq<RS.ThreadRow>)
    requires Keyed(st) && RP.DistinctIds(rows) && listed <= rows
    requires forall r | r in listed :: r.id in st.threads && st.threads[r.id] == r && !RS.Terminal(r.status)
    requires forall t | t in st.threads && !RS.Terminal(st.threads[t].status) :: st.threads[t] in listed
    requires forall t :: t in attached <==> t in st.threads && st.threads[t].identity.Some?
    requires forall t | t in attached && t in st.threads :: exists i | 0 <= i < |rows| :: rows[i].id == t
    requires forall i | |listed| <= i < |rows| ::
               rows[i].id in attached && rows[i].id in st.threads && rows[i] == st.threads[rows[i].id]
    ensures AllRows(st, rows)
  {
    forall r | r in rows ensures r.id in st.threads && st.threads[r.id] == r && Visits(r) {
      var i :| 0 <= i < |rows| && rows[i] == r;
      if i < |listed| { assert rows[i] == listed[i] && listed[i] in listed; }
    }
    forall t | t in st.threads && Visits(st.threads[t]) ensures st.threads[t] in rows {
      if !RS.Terminal(st.threads[t].status) {
        assert st.threads[t] in listed;
        var i :| 0 <= i < |listed| && listed[i] == st.threads[t];
        assert rows[i] == listed[i];
      } else {
        assert t in attached;
        var i :| 0 <= i < |rows| && rows[i].id == t;
        assert rows[i] in rows;
      }
    }
  }

  /** The active-thread pass between its phase and the published target count. */
  method ReconcileActive(world: World, publisher: Publisher, inp: Inputs)
    returns (ok: bool, active: set<RS.ThreadId>, why: Why, ghost calls: seq<Call>)
    requires world.Valid() && Keyed(world.service.store)
    modifies world`trace, world`steps, world.service, publisher
    ensures world.Valid() && Grown(old(world.trace), old(world.steps), old(world.events), world.trace, world.steps,
        world.events)
    ensures forall t :: t in active <==> ActiveThread(old(world.service.store), inp.passive, t)
    ensures Keeps(old(publisher.View()), publisher.View()) && publisher.View() == Run(old(publisher.View()), calls)
    ensures calls <= PlannedCalls(inp, |active|, false)[..2] && (ok ==> |calls| == 2)
    ensures ok ==>
              && KindsOf(world.steps) == KindsOf(old(world.steps)) + [Active] && |world.steps| == |old(world.steps)| + 1
              && PassGiven(old(world.service.store), world.steps[|old(world.steps)|], inp)
    ensures ok <==> why.Done?
    ensures !ok ==> if why.PassFailed? then PassStopped(world.trace, world.steps, inp)
                    else why.Refused? && Refuses(old(publisher.View()), calls)
    ensures ok ==> !inp.clock(0).shutdownRequested && !inp.clock(1).shutdownRequested
  {
    hide Keeps, DoPhase, DoProgress, Explained, KindsOf, GapsUsed, PassGiven, PassStopped, Refuses, Run;
    why := Done;
    active := set t | t in world.service.store.threads && ActiveThread(world.service.store, inp.passive, t);
    hide ActiveThread;
    ghost var p0 := publisher.View();
    ghost var plan := PlannedCalls(inp, |active|, false);
    KeepsSame(p0);
    RunNone(p0);
    RunMore(p0, [], plan[0]);
    calls := [plan[0]];
    assert [] + calls == calls && calls <= plan[..2];
    ok := publisher.EnterPhase(ST.ReconcilingThreads, inp.clock(0));
    PhaseKeeps(p0, p0, ST.ReconcilingThreads, inp.clock(0));
    PhaseHeeds(p0, ST.ReconcilingThreads, inp.clock(0));
    if !ok { why := Refused; return; }
    ok := RunActivePass(world, inp);
    if !ok { why := PassFailed; return; }
    ghost var p1 := publisher.View();
    RunMore(p0, calls, plan[1]);
    calls := calls + [plan[1]];
    assert calls == plan[..2];
    ok := publisher.ReportProgress(CountUpdate(|active|), inp.clock(1));
    ProgressKeeps(p0, p1, CountUpdate(|active|), inp.clock(1));
    if inp.clock(1).shutdownRequested { ok := false; }
    if !ok { why := Refused; }
  }

  lemma RunNone(p0: Coordinator)
    ensures Run(p0, []) == p0
  {
  }

  /** A phase call is refused once shutdown was requested. */
  lemma PhaseHeeds(c: Coordinator, phase: ST.Phase, k: Clock)
    ensures k.shutdownRequested ==> !DoPhase(c, phase, k).ok
  {
  }

  /** The follow pass over every stored waiter. */
  method RunFollowPass(world: World, now: int) returns (ok: bool)
    requires world.Valid()
    modifies world`trace, world`steps, world.service
    ensures world.Valid() && Grown(old(world.trace), old(world.steps), old(world.events), world.trace, world.steps,
        world.events)
    ensures KindsOf(world.steps) == KindsOf(old(world.steps)) + [Follow] && |world.steps| == |old(world.steps)| + 1
    ensures ok ==> FollowGiven(world.trace[|old(world.steps)|].store, world.steps[|old(world.steps)|], now,
                               world.service.actions)
    ensures !ok ==> FollowStopped(world.trace, world.steps, now)
  {
    hide FR.WaiterTurns, Explained, AllWaiters, KindsOf, GapsUsed;
    var waiters := ListWaiters(world.service.store);
    ghost var was := world.service.store;
    ok := world.service.ReconcileFollow(waiters, now);
    assert world.events == world.events + [];
    world.Note(FollowPass(waiters, now), was, world.events, []);
  }

  /** The tombstone repair, then the follow pass over every stored waiter. */
  method ReconcileFollowWaiters(world: World, publisher: Publisher, inp: Inputs, ghost p0: Coordinator,
                                ghost made: seq<Call>)
    returns (ok: bool, why: Why, ghost calls: seq<Call>)
    requires world.Valid() && publisher.View() == Run(p0, made)
    modifies world`trace, world`steps, world.service, publisher
    ensures world.Valid() && Grown(old(world.trace), old(world.steps), old(world.events), world.trace, world.steps,
        world.events)
    ensures Keeps(old(publisher.View()), publisher.View()) && publisher.View() == Run(p0, calls)
    ensures calls == made + [PhaseCall(ST.ReconcilingFollow, inp.clock(2))]
    ensures ok ==>
              && KindsOf(world.steps) == KindsOf(old(world.steps)) + [Tombstones, Follow]
              && |world.steps| == |old(world.steps)| + 2
              && FollowGiven(world.trace[|old(world.steps)| + 1].store, world.steps[|old(world.steps)| + 1], inp.now,
                             world.service.actions)
    ensures ok <==> why.Done?
    ensures !ok ==> if why.FollowFailed? then FollowStopped(world.trace, world.steps, inp.now)
                    else why.Refused? && Refuses(p0, calls)
    ensures ok ==> !inp.clock(2).shutdownRequested
  {
    hide Keeps, DoPhase, Explained, KindsOf, GapsUsed, Refuses, Run, FollowGiven, FollowStopped;
    why := Done;
    ghost var p, s0 := publisher.View(), world.steps;
    KeepsSame(p);
    world.RepairWindows();
    calls := made + [PhaseCall(ST.ReconcilingFollow, inp.clock(2))];
    RunMore(p0, made, PhaseCall(ST.ReconcilingFollow, inp.clock(2)));
    ok := publisher.EnterPhase(ST.ReconcilingFollow, inp.clock(2));
    PhaseKeeps(p, p, ST.ReconcilingFollow, inp.clock(2));
    PhaseHeeds(p, ST.ReconcilingFollow, inp.clock(2));
    if !ok { why := Refused; return; }
    assert |world.steps| == |s0| + 1 by { KindsLength(s0, world.steps); }
    ok := RunFollowPass(world, inp.now);
    assert KindsOf(s0) + [Tombstones] + [Follow] == KindsOf(s0) + [Tombstones, Follow];
    if !ok { why := FollowFailed; return; }
    if inp.clock(2).shutdownRequested { ok, why := false, Refused; }
  }

  /** What a successful reconciliation has recorded, from the moment s it started at. */
  ghost predicate Reconciled(trace: seq<Moment>, steps: seq<Step>, events: seq<PH.Event>, s: nat, first: bool,
                             actions: seq<FR.Action>, inp: Inputs) {
    && s + 2 < |steps| && s + 3 + Length(first) < |trace| && |trace| == |steps| + 1
    && PassGiven(trace[s].store, steps[s], inp)
    && FollowGiven(trace[s + 2].store, steps[s + 2], inp.now, actions)
    && CurrentAt(trace, events, s + 3 + Length(first))
  }

  lemma ReconciledStays(t: seq<Moment>, s: seq<Step>, e: seq<PH.Event>, t': seq<Moment>, s': seq<Step>,
      e': seq<PH.Event>,
                        at: nat, first: bool, actions: seq<FR.Action>, inp: Inputs)
    requires Reconciled(t, s, e, at, first, actions, inp) && Grown(t, s, e, t', s', e') && |t'| == |s'| + 1
    ensures Reconciled(t', s', e', at, first, actions, inp)
  {
    hide PassGiven, FollowGiven;
    CurrentStays(t, e, t', e', at + 3 + Length(first));
    assert t'[at] == t[at] && t'[at + 2] == t[at + 2] && s'[at] == s[at] && s'[at + 2] == s[at + 2];
  }

  /** One projection block: a repair if one is due, after which the projection must be current. */
  method Settle(world: World, k: nat) returns (ok: bool, ghost ran: bool)
    requires world.Valid()
    modifies world`gap, world`events, world`trace, world`steps, world.service`store
    ensures world.Valid() && Grown(old(world.trace), old(world.steps), old(world.events), world.trace, world.steps,
        world.events)
    ensures ok ==>
              && KindsOf(world.steps) == KindsOf(old(world.steps)) + Block(ran, k)
              && CurrentAt(world.trace, world.events, |world.trace| - 1)
    ensures !ok ==> ProjectionStopped(world.steps, world.events, world.outcomes)
  {
    hide HealthOf, KindsOf, GapsUsed, Explained, CurrentAt, ProjectionStopped;
    ghost var s0 := world.steps;
    ok, ran := world.RepairIfNeeded(k);
    if !ok {
      BrokenRepair(KindsOf(s0), world.steps, world.events, world.outcomes, k);
      return;
    }
    // The status test and the full test agree (`CurrentMeansNothingPending`).
    if !PH.IsCurrent(world.Health()) {
      NotCurrentNow(world.steps, world.events, world.outcomes);
      ok := false;
      return;
    }
    CurrentNow(world.trace, world.events);
  }

  /** The outcomes a stopped reconciliation can have. */
  ghost predicate ReconcileStopped(why: Why, p0: Coordinator, calls: seq<Call>, trace: seq<Moment>, steps: seq<Step>,
                                   events: seq<PH.Event>, outcomes: nat -> bool, inp: Inputs) {
    match why
    case PassFailed => PassStopped(trace, steps, inp)
    case FollowFailed => FollowStopped(trace, steps, inp.now)
    case NotCurrent => ProjectionStopped(steps, events, outcomes)
    case Refused => Refuses(p0, calls)
    case _ => false
  }

  /** The active pass, the tombstone repair and the follow pass. */
  method RunPasses(world: World, publisher: Publisher, inp: Inputs)
    returns (ok: bool, active: set<RS.ThreadId>, why: Why, ghost calls: seq<Call>)
    requires world.Valid() && Keyed(world.service.store)
    modifies world`trace, world`steps, world.service, publisher
    ensures world.Valid() && Grown(old(world.trace), old(world.steps), old(world.events), world.trace, world.steps,
        world.events)
    ensures forall t :: t in active <==> ActiveThread(old(world.service.store), inp.passive, t)
    ensures Keeps(old(publisher.View()), publisher.View()) && publisher.View() == Run(old(publisher.View()), calls)
    ensures calls <= PlannedCalls(inp, |active|, false)[..3]
    ensures ok ==>
              && calls == PlannedCalls(inp, |active|, false)[..3] && |calls| == 3
              && calls + [PhaseCall(ST.ReplayingHeadChanges, inp.clock(3))] == PlannedCalls(inp, |active|, true)[..4]
    ensures ok ==>
              && KindsOf(world.steps) == KindsOf(old(world.steps)) + [Active, Tombstones, Follow]
              && |world.steps| == |old(world.steps)| + 3
              && PassGiven(world.trace[|old(world.steps)|].store, world.steps[|old(world.steps)|], inp)
              && FollowGiven(world.trace[|old(world.steps)| + 2].store, world.steps[|old(world.steps)| + 2], inp.now,
                             world.service.actions)
    ensures ok <==> why.Done?
    ensures !ok ==> ReconcileStopped(why, old(publisher.View()), calls, world.trace, world.steps, world.events,
                                     world.outcomes, inp)
    ensures ok ==> forall k | 0 <= k < 3 :: !inp.clock(k).shutdownRequested
  {
    hide Keeps, ActiveThread, Explained, KindsOf, GapsUsed, PassGiven, FollowGiven, Run, Refuses, PassStopped;
    hide FollowStopped, PlannedCalls;
    ghost var p0, s0, t0 := publisher.View(), world.steps, world.trace;
    ok, active, why, calls := ReconcileActive(world, publisher, inp);
    PlanPrefix(inp, |active|, calls);
    if !ok { return; }
    ghost var p1, s1 := publisher.View(), world.steps;
    ok, why, calls := ReconcileFollowWaiters(world, publisher, inp, p0, calls);
    KeepsThrough(p0, p1, publisher.View());
    if !ok { return; }
    assert world.steps[|s0|] == s1[|s0|] && world.trace[|s0|] == t0[|s0|];
    assert KindsOf(s0) + [Active] + [Tombstones, Follow] == KindsOf(s0) + [Active, Tombstones, Follow];
  }

  /** Thread, window and follow reconciliation, then the first projection repair. */
  method Reconcile(world: World, publisher: Publisher, inp: Inputs)
    returns (ok: bool, active: set<RS.ThreadId>, why: Why, ghost ran: bool, ghost calls: seq<Call>, ghost replay: bool)
    requires world.Valid() && Keyed(world.service.store)
    modifies world`gap, world`events, world`trace, world`steps, world.service, publisher
    ensures world.Valid() && Grown(old(world.trace), old(world.steps), old(world.events), world.trace, world.steps,
        world.events)
    ensures forall t :: t in active <==> ActiveThread(old(world.service.store), inp.passive, t)
    ensures Keeps(old(publisher.View()), publisher.View()) && publisher.View() == Run(old(publisher.View()), calls)
    ensures calls <= PlannedCalls(inp, |active|, replay)[..if replay then 4 else 3]
    ensures ok ==> |calls| == if replay then 4 else 3
    ensures ok ==>
              && KindsOf(world.steps) == KindsOf(old(world.steps)) + Reconciling(ran)
              && |world.steps| == |old(world.steps)| + 3 + Length(ran)
              && Reconciled(world.trace, world.steps, world.events, |old(world.steps)|, ran, world.service.actions, inp)
    ensures ok <==> why.Done?
    ensures !ok ==> ReconcileStopped(why, old(publisher.View()), calls, world.trace, world.steps, world.events,
                                     world.outcomes, inp)
    ensures ok ==> forall k | 0 <= k < 3 :: !inp.clock(k).shutdownRequested
  {
    hide Keeps, DoPhase, ActiveThread, Explained, KindsOf, GapsUsed, PassGiven, FollowGiven, HealthOf, Run, Refuses;
    hide PassStopped, FollowStopped, ProjectionStopped, CurrentAt, Reconciled, PlannedCalls;
    ran, replay := false, false;
    ghost var p0, s0 := publisher.View(), world.steps;
    ok, active, why, calls := RunPasses(world, publisher, inp);
    if !ok { return; }
    ghost var s2, t2, actions := world.steps, world.trace, world.service.actions;
    if !PH.IsCurrent(world.Health()) {
      ghost var p2 := publisher.View();
      replay := true;
      RunMore(p0, calls, PhaseCall(ST.ReplayingHeadChanges, inp.clock(3)));
      calls := calls + [PhaseCall(ST.ReplayingHeadChanges, inp.clock(3))];
      ok := publisher.EnterPhase(ST.ReplayingHeadChanges, inp.clock(3));
      PhaseKeeps(p0, p2, ST.ReplayingHeadChanges, inp.clock(3));
      if !ok { why := Refused; return; }
    }
    ok, ran := Settle(world, 0);
    if !ok { why := NotCurrent; return; }
    KindsJoin(s0, s2, world.steps, ran);
    RecordReconciled(t2, s2, world.trace, world.steps, world.events, |s0|, ran, actions, inp);
  }

  lemma NotCurrentNow(steps: seq<Step>, events: seq<PH.Event>, outcomes: nat -> bool)
    requires !PH.IsCurrent(HealthOf(events))
    ensures ProjectionStopped(steps, events, outcomes)
  {
  }

  /** How the calls of the active pass continue. */
  lemma PlanPrefix(inp: Inputs, count: nat, calls: seq<Call>)
    requires calls <= PlannedCalls(inp, count, false)[..2]
    ensures var three := calls + [PhaseCall(ST.ReconcilingFollow, inp.clock(2))];
            var four := three + [PhaseCall(ST.ReplayingHeadChanges, inp.clock(3))];
            && calls <= PlannedCalls(inp, count, false)[..3]
            && (|calls| == 2 ==> three == PlannedCalls(inp, count, false)[..3])
            && (|calls| == 2 ==> four == PlannedCalls(inp, count, true)[..4])
  {
    var plan := PlannedCalls(inp, count, false);
    assert plan[..2] <= plan[..3];
  }

  lemma KindsJoin(s0: seq<Step>, s2: seq<Step>, s3: seq<Step>, ran: bool)
    requires KindsOf(s2) == KindsOf(s0) + [Active, Tombstones, Follow] && KindsOf(s3) == KindsOf(s2) + Block(ran, 0)
    ensures KindsOf(s3) == KindsOf(s0) + Reconciling(ran) && |s3| == |s0| + 3 + Length(ran)
  {
    assert KindsOf(s0) + [Active, Tombstones, Follow] + Block(ran, 0) == KindsOf(s0) + Reconciling(ran);
  }

  lemma RecordReconciled(t: seq<Moment>, s: seq<Step>, t': seq<Moment>, s': seq<Step>, e': seq<PH.Event>,
                         at: nat, ran: bool, actions: seq<FR.Action>, inp: Inputs)
    requires t <= t' && s <= s' && |t| == |s| + 1 && |s| == at + 3 && |t'| == |s'| + 1 && |s'| == at + 3 + Length(ran)
    requires PassGiven(t[at].store, s[at], inp) && FollowGiven(t[at + 2].store, s[at + 2], inp.now, actions)
    requires CurrentAt(t', e', |t'| - 1)
    ensures Reconciled(t', s', e', at, ran, actions, inp)
  {
    hide PassGiven, FollowGiven, CurrentAt;
    assert t'[at] == t[at] && t'[at + 2] == t[at + 2] && s'[at] == s[at] && s'[at + 2] == s[at + 2];
  }

  lemma KeepsThrough(a: Coordinator, b: Coordinator, c: Coordinator)
    requires Keeps(a, b) && Keeps(b, c)
    ensures Keeps(a, c)
  {
    hide Sound;
  }

  // ----- What the publisher keeps on the way -----

  /** Still sound if it was, and not Running unless it was. */
  ghost predicate Keeps(c: Coordinator, d: Coordinator) {
    Sound(c) ==> Sound(d) && (d.uds.lifecycle.status.Running? ==> c.uds.lifecycle.status.Running?)
  }

  lemma KeepsSame(c: Coordinator)
    ensures Keeps(c, c)
  {
  }

  lemma PhaseKeeps(c: Coordinator, d: Coordinator, phase: ST.Phase, k: Clock)
    requires Keeps(c, d)
    ensures Keeps(c, DoPhase(d, phase, k).state)
  {
    if Sound(c) {
      hide Sound, DoPhase;
      PhaseStep(d, phase, k);
      PhaseIsStarting(d, phase, k);
    }
  }

  lemma PhaseIsStarting(d: Coordinator, phase: ST.Phase, k: Clock)
    requires Sound(d)
    ensures DoPhase(d, phase, k).state.uds.lifecycle.status.Running? ==> d.uds.lifecycle.status.Running?
  {
    hide Publish, PublishAt, ST.Advance, ValidLifecycle, ST.WirePhase;
    if ST.Advance(d.stage, phase).Some? {
      var s := PhaseSnapshot(d.snapshot, phase, k);
      PublishTogether(d.(snapshot := s, stage := ST.Advance(d.stage, phase).value,
                         phaseStarted := if d.snapshot.phase == phase then d.phaseStarted else k.instant),
                      StartingResponse(d.identity, s));
    }
  }

  lemma ProgressKeeps(c: Coordinator, d: Coordinator, update: Snapshot -> Snapshot, k: Clock)
    requires Keeps(c, d)
    ensures Keeps(c, DoProgress(d, update, k).state)
  {
    if Sound(c) {
      hide Sound, DoProgress;
      ProgressStep(d, update, k);
      ProgressIsStarting(d, update, k);
    }
  }

  lemma ProgressIsStarting(d: Coordinator, update: Snapshot -> Snapshot, k: Clock)
    requires Sound(d)
    ensures DoProgress(d, update, k).state.uds.lifecycle.status.Running? ==> d.uds.lifecycle.status.Running?
  {
    hide Publish, PublishAt, ValidLifecycle, ST.WirePhase, ValidTransition;
    var s := update(d.snapshot.(sequence := Next(d.snapshot.sequence), updatedAt := k.now, elapsedMs := k.elapsedMs));
    PublishTogether(d.(snapshot := s), StartingResponse(d.identity, s));
  }

  lemma ApplicationKeeps(c: Coordinator, d: Coordinator, k: Clock)
    requires Keeps(c, d)
    ensures Keeps(c, DoPublishApplication(d, k).state)
  {
  }

  lemma ReadyPublishes(c: Coordinator, projection: string, k: Clock)
    requires Sound(c) && !c.uds.lifecycle.status.Running?
    ensures var r := DoReady(c, projection, k);
            && Sound(r.state)
            && (r.ok <==> r.state.uds.lifecycle.status.Running? && r.state.http.lifecycle.status.Running?)
            && (!r.ok ==> !r.state.uds.lifecycle.status.Running?)
            && (r.ok ==> r.state.gatesReleased && r.state.stage.Scheduler?)
  {
    ReadyStep(c, projection, k);
    hide Publish, PublishAt, ValidLifecycle;
    var l := RunningResponse(c.identity, k.now, c.snapshot.(elapsedMs := k.elapsedMs), projection);
    PublishTogether(c.(snapshot := l.startup, gatesReleased := true, admission := true), l);
    PublishKeepsStage(c.(snapshot := l.startup, gatesReleased := true, admission := true), l);
  }

  lemma KeepsMeans(c: Coordinator, d: Coordinator)
    requires Sound(c) && !c.uds.lifecycle.status.Running? && Keeps(c, d)
    ensures Sound(d) && !d.uds.lifecycle.status.Running? && d.uds == d.http
  {
  }

  // ----- Ready -----

  /** What the ownership check has recorded, from the moment c the targets were collected at. */
  ghost predicate Checked(trace: seq<Moment>, events: seq<PH.Event>, c: nat, second: bool, probe: Probe,
      known: set<RS.ThreadId>) {
    && c + 4 + Length(second) < |trace|
    && CurrentAt(trace, events, c + 3 + Length(second))
    && AllClassified(trace[c + 1].store, trace[c + 2].store, trace[c + 4 + Length(second)].store, probe, known)
  }

  /** Every known target, and every member admitted between two stores, is classified in the third. */
  ghost predicate AllClassified(a: RS.Store, b: RS.Store, st: RS.Store, probe: Probe, known: set<RS.ThreadId>) {
    forall t | t in known || (LW.Waits(a, t) && LW.Launched(b, t)) :: Classified(st, probe, t)
  }

  lemma CheckedStays(t: seq<Moment>, e: seq<PH.Event>, t': seq<Moment>, e': seq<PH.Event>,
                     c: nat, second: bool, probe: Probe, known: set<RS.ThreadId>)
    requires Checked(t, e, c, second, probe, known) && t <= t' && e <= e'
    ensures Checked(t', e', c, second, probe, known)
  {
    hide AllClassified;
    var n := c + 4 + Length(second);
    CurrentStays(t, e, t', e', c + 3 + Length(second));
    assert t'[c + 1] == t[c + 1] && t'[c + 2] == t[c + 2] && t'[n] == t[n];
  }

  lemma RecordChecked(t: seq<Moment>, t': seq<Moment>, e': seq<PH.Event>, c: nat, second: bool, probe: Probe,
                      known: set<RS.ThreadId>, admitted: seq<RS.ThreadId>, targets: set<RS.ThreadId>)
    requires t <= t' && |t| == c + 4 && |t'| == c + 5 + Length(second) && CurrentAt(t', e', c + 3 + Length(second))
    requires LW.Admits(t[c + 1].store, t[c + 2].store, admitted) && targets == known + (set x | x in admitted)
    requires forall x | x in targets :: Classified(t'[|t'| - 1].store, probe, x)
    ensures Checked(t', e', c, second, probe, known)
  {
    hide LW.Admits, AllClassified, CurrentAt, Classified;
    assert t'[c + 1] == t[c + 1] && t'[c + 2] == t[c + 2];
    AdmittedAreClassified(t[c + 1].store, t[c + 2].store, t'[|t'| - 1].store, probe, known, admitted, targets);
  }

  lemma AdmittedAreClassified(a: RS.Store, b: RS.Store, st: RS.Store, probe: Probe, known: set<RS.ThreadId>,
                              admitted: seq<RS.ThreadId>, targets: set<RS.ThreadId>)
    requires LW.Admits(a, b, admitted) && targets == known + (set x | x in admitted)
    requires forall x | x in targets :: Classified(st, probe, x)
    ensures AllClassified(a, b, st, probe, known)
  {
    hide Classified, LW.Waits, LW.Launched;
    forall t | t in known || (LW.Waits(a, t) && LW.Launched(b, t)) ensures Classified(st, probe, t) {
      assert t in known || t in admitted;
      assert t in targets;
    }
  }

  lemma CheckKinds(s0: seq<Step>, s3: seq<Step>, s4: seq<Step>, s5: seq<Step>, ran: bool)
    requires KindsOf(s3) == KindsOf(s0) + [Outside, Windows, Outside] && KindsOf(s4) == KindsOf(s3) + Block(ran, 1)
    requires KindsOf(s5) == KindsOf(s4) + [Outside]
    ensures KindsOf(s5) == KindsOf(s0) + Checking(ran)
    ensures |s4| == |s0| + 3 + Length(ran) && |s5| == |s0| + 4 + Length(ran)
  {
    assert KindsOf(s0) + [Outside, Windows, Outside] + Block(ran, 1) + [Outside] == KindsOf(s0) + Checking(ran);
  }

  /** Window recovery between two gaps of other tasks. */
  method AdmitWindows(world: World, inp: Inputs) returns (admitted: seq<RS.ThreadId>)
    requires world.Valid()
    modifies world`gap, world`events, world`trace, world`steps, world.service`store
    ensures world.Valid() && Grown(old(world.trace), old(world.steps), old(world.events), world.trace, world.steps,
        world.events)
    ensures KindsOf(world.steps) == KindsOf(old(world.steps)) + [Outside, Windows, Outside]
    ensures |world.steps| == |old(world.steps)| + 3
    ensures LW.Admits(world.trace[|old(world.steps)| + 1].store, world.trace[|old(world.steps)| + 2].store, admitted)
  {
    hide LW.Admits, Explained, KindsOf, GapsUsed;
    ghost var s0 := world.steps;
    world.LetOthersAct();
    ghost var s1, t1 := world.steps, world.trace;
    KindsLength(s0, s1);
    admitted := world.RecoverWindows(inp.room);
    ghost var s2, t2 := world.steps, world.trace;
    KindsLength(s1, s2);
    assert LW.Admits(t2[|s0| + 1].store, t2[|s0| + 2].store, admitted) by { assert t2[|s0| + 1] == t1[|s0| + 1]; }
    world.LetOthersAct();
    KindsLength(s2, world.steps);
    assert world.trace[|s0| + 1] == t2[|s0| + 1] && world.trace[|s0| + 2] == t2[|s0| + 2];
    assert KindsOf(s0) + [Outside] + [Windows] + [Outside] == KindsOf(s0) + [Outside, Windows, Outside];
  }

  /** Window recovery, the projection check after dispatch, and the ownership check. */
  method CheckTargets(world: World, known: set<RS.ThreadId>, inp: Inputs)
    returns (ok: bool, why: Why, ghost ran: bool)
    requires world.Valid()
    modifies world`gap, world`events, world`trace, world`steps, world.service`store
    ensures world.Valid() && Grown(old(world.trace), old(world.steps), old(world.events), world.trace, world.steps,
        world.events)
    ensures ok ==>
              && KindsOf(world.steps) == KindsOf(old(world.steps)) + Checking(ran)
              && |world.steps| == |old(world.steps)| + 4 + Length(ran)
              && Checked(world.trace, world.events, |old(world.steps)|, ran, inp.probe, known)
    ensures ok <==> why.Done?
    ensures !ok ==> if why.NotCurrent? then ProjectionStopped(world.steps, world.events, world.outcomes)
                    else why.Unclassified? && TargetStopped(world.trace, |old(world.steps)|, inp.probe, known)
  {
    hide Classified, LW.Admits, Explained, KindsOf, GapsUsed, CurrentAt, Checked, ProjectionStopped, TargetStopped;
    why := NotCurrent;
    ran := false;
    ghost var s0 := world.steps;
    var admitted := AdmitWindows(world, inp);
    var targets := known + (set t | t in admitted);
    ghost var s3, t3 := world.steps, world.trace;
    ok, ran := Settle(world, 1);
    if !ok { return; }
    ghost var s4, t4, e4 := world.steps, world.trace, world.events;
    world.LetOthersAct();
    ok := EnsureClassified(world.service.store, inp.probe, targets);
    if !ok {
      why := Unclassified;
      RecordStopped(t3, world.trace, |s0|, inp.probe, known, admitted, targets);
      return;
    }
    why := Done;
    CheckKinds(s0, s3, s4, world.steps, ran);
    CurrentStays(t4, e4, world.trace, world.events, |t4| - 1);
    RecordChecked(t3, world.trace, world.events, |s0|, ran, inp.probe, known, admitted, targets);
  }

  lemma RecordStopped(t: seq<Moment>, t': seq<Moment>, c: nat, probe: Probe, known: set<RS.ThreadId>,
                      admitted: seq<RS.ThreadId>, targets: set<RS.ThreadId>)
    requires t <= t' && |t| == c + 4 && LW.Admits(t[c + 1].store, t[c + 2].store, admitted)
    requires targets == known + (set x | x in admitted)
    requires !(forall x | x in targets :: Classified(t'[|t'| - 1].store, probe, x))
    ensures TargetStopped(t', c, probe, known)
  {
    hide Classified, LW.Waits, LW.Launched;
    assert t'[c + 1] == t[c + 1] && t'[c + 2] == t[c + 2];
    var x :| x in targets && !Classified(t'[|t'| - 1].store, probe, x);
    assert x in known || x in admitted;
  }

  /** The last repair and snapshot of the projection. */
  method CheckProjection(world: World) returns (ok: bool, ghost ran: bool)
    requires world.Valid()
    modifies world`gap, world`events, world`trace, world`steps, world.service`store
    ensures world.Valid() && Grown(old(world.trace), old(world.steps), old(world.events), world.trace, world.steps,
        world.events)
    ensures ok ==>
              && KindsOf(world.steps) == KindsOf(old(world.steps)) + Block(ran, 2) + [Outside]
              && |world.steps| == |old(world.steps)| + Length(ran) + 1
              && CurrentAt(world.trace, world.events, |old(world.steps)| + Length(ran))
    ensures !ok ==> ProjectionStopped(world.steps, world.events, world.outcomes)
  {
    hide HealthOf, KindsOf, GapsUsed, Explained, CurrentAt, ProjectionStopped;
    ghost var s0 := world.steps;
    ok, ran := Settle(world, 2);
    if !ok { return; }
    ghost var s1, t1, e1 := world.steps, world.trace, world.events;
    world.LetOthersAct();
    CurrentStays(t1, e1, world.trace, world.events, |t1| - 1);
    LastKinds(s0, s1, world.steps, ran);
  }

  lemma LastKinds(s0: seq<Step>, s1: seq<Step>, s2: seq<Step>, ran: bool)
    requires KindsOf(s1) == KindsOf(s0) + Block(ran, 2) && KindsOf(s2) == KindsOf(s1) + [Outside]
    ensures |s1| == |s0| + Length(ran) && |s2| == |s0| + Length(ran) + 1
  {
  }

  /** From the collected targets to Ready. */
  method Finish(world: World, publisher: Publisher, known: set<RS.ThreadId>, inp: Inputs, ghost p0: Coordinator,
                ghost made: seq<Call>)
    returns (ok: bool, why: Why, ghost second: bool, ghost third: bool, ghost calls: seq<Call>)
    requires world.Valid() && Sound(publisher.View()) && !publisher.uds.lifecycle.status.Running?
    requires publisher.View() == Run(p0, made)
    modifies world`gap, world`events, world`trace, world`steps, world.service`store, publisher
    ensures world.Valid() && Grown(old(world.trace), old(world.steps), old(world.events), world.trace, world.steps,
        world.events)
    ensures ok <==> publisher.uds.lifecycle.status.Running? && publisher.http.lifecycle.status.Running?
    ensures !ok ==> !publisher.uds.lifecycle.status.Running?
    ensures ok ==> publisher.gatesReleased && publisher.stage.Scheduler?
    ensures ok ==>
              && KindsOf(world.steps) == KindsOf(old(world.steps)) + Checking(second) + Block(third, 2) + [Outside]
              && |world.steps| == |old(world.steps)| + 5 + Length(second) + Length(third)
              && Checked(world.trace, world.events, |old(world.steps)|, second, inp.probe, known)
              && CurrentAt(world.trace, world.events, |old(world.steps)| + 4 + Length(second) + Length(third))
    ensures publisher.View() == Run(p0, calls)
    ensures calls == made || calls == made + [ReadyCall(inp.projection, inp.clock(6))]
    ensures ok ==> calls != made && !inp.clock(6).shutdownRequested
    ensures ok <==> why.Done?
    ensures !ok ==> match why
                    case NotCurrent => ProjectionStopped(world.steps, world.events, world.outcomes)
                    case Unclassified => TargetStopped(world.trace, |old(world.steps)|, inp.probe, known)
                    case Refused => calls != made && Refuses(p0, calls)
                    case _ => false
  {
    hide Sound, DoReady, Checked, CurrentAt, KindsOf, GapsUsed, Explained, Checking, Run, Refuses;
    hide ProjectionStopped, TargetStopped;
    third, calls := false, made;
    ghost var c := |world.steps|;
    SoundDoors(publisher.View());
    ok, why, second := CheckTargets(world, known, inp);
    if !ok { return; }
    ghost var t1, e1 := world.trace, world.events;
    ok, third := CheckProjection(world);
    if !ok { why := NotCurrent; return; }
    CheckedStays(t1, e1, world.trace, world.events, c, second, inp.probe, known);
    ReadyPublishes(publisher.View(), inp.projection, inp.clock(6));
    ReadyHeeds(publisher.View(), inp.projection, inp.clock(6));
    RunMore(p0, made, ReadyCall(inp.projection, inp.clock(6)));
    calls := made + [ReadyCall(inp.projection, inp.clock(6))];
    ok := publisher.PublishReady(inp.projection, inp.clock(6));
    if !ok { why := Refused; }
  }

  lemma ReadyHeeds(c: Coordinator, projection: string, k: Clock)
    ensures k.shutdownRequested ==> !DoReady(c, projection, k).ok
  {
  }

  lemma ApplicationHeeds(c: Coordinator, k: Clock)
    ensures k.shutdownRequested ==> !DoPublishApplication(c, k).ok
  {
  }

  lemma SoundDoors(c: Coordinator)
    requires Sound(c)
    ensures c.uds == c.http
  {
  }

  /** The outcomes a stopped collection can have. */
  ghost predicate CollectStopped(why: Why, p0: Coordinator, calls: seq<Call>, trace: seq<Moment>, steps: seq<Step>,
                                 events: seq<PH.Event>, outcomes: nat -> bool, actions: seq<FR.Action>, inp: Inputs) {
    if why.NoTarget? then
      trace != [] && exists i | 0 <= i < |actions| :: !HasTarget(trace[|trace| - 1].store, actions[i])
    else ReconcileStopped(why, p0, calls, trace, steps, events, outcomes, inp)
  }

  /** Reconciliation, scheduler phase, application publication, and the collected targets. */
  method Collect(world: World, publisher: Publisher, inp: Inputs)
    returns (ok: bool, active: set<RS.ThreadId>, known: set<RS.ThreadId>, why: Why, ghost first: bool,
             ghost calls: seq<Call>, ghost replay: bool)
    requires world.Valid() && Keyed(world.service.store)
    requires Sound(publisher.View()) && !publisher.uds.lifecycle.status.Running?
    modifies world`gap, world`events, world`trace, world`steps, world.service, publisher
    ensures world.Valid() && Grown(old(world.trace), old(world.steps), old(world.events), world.trace, world.steps,
        world.events)
    ensures Sound(publisher.View()) && !publisher.uds.lifecycle.status.Running? && publisher.uds == publisher.http
    ensures forall t :: t in active <==> ActiveThread(old(world.service.store), inp.passive, t)
    ensures publisher.View() == Run(old(publisher.View()), calls)
    ensures calls <= Before(PlannedCalls(inp, |active|, replay))
    ensures ok ==> calls == Before(PlannedCalls(inp, |active|, replay))
    ensures ok ==>
              && KindsOf(world.steps) == KindsOf(old(world.steps)) + Reconciling(first) + [Outside]
              && |world.steps| == |old(world.steps)| + 4 + Length(first)
              && Reconciled(world.trace, world.steps, world.events, |old(world.steps)|, first, world.service.actions,
                  inp)
              && forall t :: t in known <==>
                   (t in active || FollowTarget(world.service.store, world.service.actions, |world.service.actions|, t))
    ensures ok <==> why.Done?
    ensures !ok ==> CollectStopped(why, old(publisher.View()), calls, world.trace, world.steps, world.events,
                                   world.outcomes, world.service.actions, inp)
    ensures ok ==> forall k | 0 <= k < 6 && k != 3 :: !inp.clock(k).shutdownRequested
  {
    hide Sound, Keeps, ActiveThread, FollowTarget, HasTarget, DoPhase, DoPublishApplication, HealthOf, Explained,
      KindsOf, GapsUsed, Reconciled, Reconciling, Run, Refuses, PlannedCalls, ReconcileStopped;
    known := {};
    ghost var p0, s0 := publisher.View(), |world.steps|;
    ok, active, why, first, calls, replay := Reconcile(world, publisher, inp);
    ghost var plan := PlannedCalls(inp, |active|, replay);
    PlanParts(inp, |active|, replay, calls);
    ghost var p1 := publisher.View();
    KeepsMeans(p0, p1);
    if !ok {
      ReconcileStops(why, p0, calls, world.trace, world.steps, world.events, world.outcomes, world.service.actions,
                     inp);
      return;
    }
    ghost var scheduler := PhaseCall(ST.ReconcilingScheduler, inp.clock(4));
    RunMore(p0, calls, scheduler);
    calls := calls + [scheduler];
    RefusesMeans(p0, calls, world.trace, world.steps, world.events, world.outcomes, inp);
    ok := publisher.EnterPhase(ST.ReconcilingScheduler, inp.clock(4));
    PhaseHeeds(p1, ST.ReconcilingScheduler, inp.clock(4));
    ghost var p2 := publisher.View();
    PhaseKeeps(p0, p1, ST.ReconcilingScheduler, inp.clock(4));
    KeepsMeans(p0, p2);
    if !ok { why := Refused; return; }
    ghost var t1, s1, e1 := world.trace, world.steps, world.events;
    world.LetOthersAct();
    KindsLength(s1, world.steps);
    ReconciledStays(t1, s1, e1, world.trace, world.steps, world.events, s0, first, world.service.actions, inp);
    if inp.clock(4).shutdownRequested { ok := false; why := Refused; return; }
    RunMore(p0, calls, ApplicationCall(inp.clock(5)));
    calls := calls + [ApplicationCall(inp.clock(5))];
    RefusesMeans(p0, calls, world.trace, world.steps, world.events, world.outcomes, inp);
    ok := publisher.PublishApplication(inp.clock(5));
    ApplicationKeeps(p0, p2, inp.clock(5));
    ApplicationHeeds(p2, inp.clock(5));
    KeepsMeans(p0, publisher.View());
    if !ok { why := Refused; return; }
    ok, known := AddFollowTargets(world.service.store, active, world.service.actions);
    if !ok { why := NoTarget; }
  }

  lemma ReconcileStops(why: Why, p0: Coordinator, calls: seq<Call>, trace: seq<Moment>, steps: seq<Step>,
                       events: seq<PH.Event>, outcomes: nat -> bool, actions: seq<FR.Action>, inp: Inputs)
    requires ReconcileStopped(why, p0, calls, trace, steps, events, outcomes, inp)
    ensures CollectStopped(why, p0, calls, trace, steps, events, outcomes, actions, inp)
  {
    hide PassStopped, FollowStopped, ProjectionStopped, Refuses;
  }

  lemma RefusesMeans(p0: Coordinator, calls: seq<Call>, trace: seq<Moment>, steps: seq<Step>, events: seq<PH.Event>,
                     outcomes: nat -> bool, inp: Inputs)
    ensures Refuses(p0, calls) ==> ReconcileStopped(Refused, p0, calls, trace, steps, events, outcomes, inp)
  {
  }

  /** All but the last call. */
  function Before(calls: seq<Call>): seq<Call> {
    if calls == [] then [] else calls[..|calls| - 1]
  }

  /** How the calls of reconciliation continue to the application's publication. */
  lemma PlanParts(inp: Inputs, count: nat, replay: bool, calls: seq<Call>)
    requires calls <= PlannedCalls(inp, count, replay)[..if replay then 4 else 3]
    ensures var plan := PlannedCalls(inp, count, replay);
            var n := if replay then 4 else 3;
            var four := calls + [PhaseCall(ST.ReconcilingScheduler, inp.clock(4))];
            && calls <= Before(plan)
            && (|calls| == n ==> four <= Before(plan) && four + [ApplicationCall(inp.clock(5))] == Before(plan))
  {
  }

  /** The two halves of the record make the whole justification. */
  lemma Justified(trace: seq<Moment>, steps: seq<Step>, events: seq<PH.Event>, s: nat, r: Repairs, before: seq<Step>,
                  actions: seq<FR.Action>, inp: Inputs, active: set<RS.ThreadId>, known: set<RS.ThreadId>)
    requires |before| == s && before <= steps && |trace| == |steps| + 1
    requires KindsOf(steps) ==
             KindsOf(before) + Reconciling(r.first) + [Outside] + Checking(r.second) + Block(r.third, 2) + [Outside]
    requires Reconciled(trace, steps, events, s, r.first, actions, inp)
    requires Checked(trace, events, s + CollectedAt(r), r.second, inp.probe, known)
    requires CurrentAt(trace, events, s + SeenAt(r))
    requires forall t :: t in active <==> ActiveThread(trace[s].store, inp.passive, t)
    requires forall t :: t in known <==> (t in active || FollowTarget(trace[s + CollectedAt(r)].store, actions,
        |actions|, t))
    ensures ReadyIsJustified(trace, steps, events, s, r, actions, inp)
  {
    hide Classified, ActiveThread, FollowTarget, LW.Waits, LW.Launched, PassGiven, FollowGiven, CurrentAt, KindsOf,
      Reconciling, Checking, Block, Plan;
    assert steps[..s] == before;
    assert KindsOf(steps) == KindsOf(before) + Plan(r) by { PlanJoin(KindsOf(before), r); }
    PlanLength(r);
    KindsCount(steps, before, r);
  }

  lemma PlanJoin(kinds: seq<Kind>, r: Repairs)
    ensures kinds + Reconciling(r.first) + [Outside] + Checking(r.second) + Block(r.third, 2) + [Outside] ==
            kinds + Plan(r)
  {
    hide Reconciling, Checking, Block;
  }

  lemma KindsCount(steps: seq<Step>, before: seq<Step>, r: Repairs)
    requires KindsOf(steps) == KindsOf(before) + Plan(r)
    ensures |steps| == |before| + |Plan(r)|
  {
  }

  /** Why a startup that took these steps and calls is not Ready. */
  ghost predicate StoppedFor(why: Why, p0: Coordinator, calls: seq<Call>, trace: seq<Moment>, steps: seq<Step>,
                             events: seq<PH.Event>, outcomes: nat -> bool, s: nat, actions: seq<FR.Action>,
                             inp: Inputs) {
    if why.Unclassified? then exists first: bool, known :: TargetsMissed(trace, s, first, known, actions, inp)
    else CollectStopped(why, p0, calls, trace, steps, events, outcomes, actions, inp)
  }

  /** The threads known when the targets were collected, one of which, or an admitted member, lacks an owner. */
  ghost predicate TargetsMissed(trace: seq<Moment>, s: nat, first: bool, known: set<RS.ThreadId>,
                                actions: seq<FR.Action>, inp: Inputs) {
    var c := s + 4 + Length(first);
    && c < |trace|
    && (forall t :: t in known <==>
          ActiveThread(trace[s].store, inp.passive, t) || FollowTarget(trace[c].store, actions, |actions|, t))
    && TargetStopped(trace, c, inp.probe, known)
  }

  /** How a stopped end of the sequence explains the whole. */
  lemma FinishStops(why: Why, p0: Coordinator, calls: seq<Call>, trace: seq<Moment>, steps: seq<Step>,
                    events: seq<PH.Event>, outcomes: nat -> bool, s: nat, first: bool, known: set<RS.ThreadId>,
                    active: set<RS.ThreadId>, actions: seq<FR.Action>, inp: Inputs)
    requires match why
             case NotCurrent => ProjectionStopped(steps, events, outcomes)
             case Unclassified => TargetStopped(trace, s + 4 + Length(first), inp.probe, known)
             case Refused => Refuses(p0, calls)
             case _ => false
    requires s + 4 + Length(first) < |trace|
    requires forall t :: t in active <==> ActiveThread(trace[s].store, inp.passive, t)
    requires forall t :: t in known <==>
               t in active || FollowTarget(trace[s + 4 + Length(first)].store, actions, |actions|, t)
    ensures StoppedFor(why, p0, calls, trace, steps, events, outcomes, s, actions, inp)
  {
    hide ActiveThread, FollowTarget, TargetStopped, ProjectionStopped, Refuses;
    if why.Unclassified? { assert TargetsMissed(trace, s, first, known, actions, inp); }
  }

  /**
   The recovery sequence of startup, with other tasks acting in every gap.  If
   Ready becomes visible then the steps taken are exactly the plan, on the given
   script and inputs; at the ownership check every thread that was active and
   executable at the start, every child the follow pass relaunches, every
   successor it wakes and every window member admitted was classified; and the
   projection was current at the last snapshot, taken after that check.
   Otherwise Ready stays unpublished, and for a reason: a pass that does not
   reach its end, a projection that is not current, a target without a thread or
   an owner, or a publisher call that was refused.  The publisher's calls are
   those planned, in order.
   */
  method StartUp(world: World, publisher: Publisher, inp: Inputs)
    returns (ok: bool, why: Why, active: set<RS.ThreadId>, ghost r: Repairs, ghost calls: seq<Call>, ghost replay: bool)
    requires world.Valid() && Keyed(world.service.store)
    requires Sound(publisher.View()) && !publisher.uds.lifecycle.status.Running?
    modifies world`gap, world`events, world`trace, world`steps, world.service, publisher
    ensures world.Valid() && Grown(old(world.trace), old(world.steps), old(world.events), world.trace, world.steps,
        world.events)
    ensures ok <==> publisher.uds.lifecycle.status.Running? && publisher.http.lifecycle.status.Running?
    ensures !ok ==> !publisher.uds.lifecycle.status.Running?
    ensures ok ==> publisher.gatesReleased && publisher.stage.Scheduler?
    ensures ok ==> ReadyIsJustified(world.trace, world.steps, world.events, |old(world.steps)|, r,
        world.service.actions, inp)
    ensures publisher.View() == Run(old(publisher.View()), calls)
    ensures forall t :: t in active <==> ActiveThread(old(world.service.store), inp.passive, t)
    ensures calls <= PlannedCalls(inp, |active|, replay) && (ok ==> calls == PlannedCalls(inp, |active|, replay))
    ensures ok ==> forall k | 0 <= k < 7 && k != 3 :: !inp.clock(k).shutdownRequested
    ensures ok <==> why.Done?
    ensures !ok ==> StoppedFor(why, old(publisher.View()), calls, world.trace, world.steps, world.events,
                               world.outcomes, |old(world.steps)|, world.service.actions, inp)
  {
    hide Sound, ActiveThread, FollowTarget, HasTarget, Reconciled, Checked, CurrentAt, HealthOf, KindsOf, GapsUsed,
        Explained,
      Reconciling, Checking, ReadyIsJustified, Run, Refuses, PlannedCalls, CollectStopped, ProjectionStopped,
      TargetStopped, StoppedFor;
    ghost var t0, s0, p0 := world.trace, world.steps, publisher.View();
    r := Repairs(false, false, false);
    var known;
    ghost var first, second, third;
    ok, active, known, why, first, calls, replay := Collect(world, publisher, inp);
    PlanEnds(inp, |active|, replay, calls);
    if !ok {
      CollectStops(why, p0, calls, world.trace, world.steps, world.events, world.outcomes, |s0|, world.service.actions,
                   inp);
      return;
    }
    ghost var actions, t1, s1, e1 := world.service.actions, world.trace, world.steps, world.events;
    ok, why, second, third, calls := Finish(world, publisher, known, inp, p0, calls);
    assert world.trace[|s0|] == t0[|s0|] && world.trace[|s1|] == t1[|s1|];
    if ok {
      r := Repairs(first, second, third);
      ReconciledStays(t1, s1, e1, world.trace, world.steps, world.events, |s0|, first, actions, inp);
      Justified(world.trace, world.steps, world.events, |s0|, r, s0, actions, inp, active, known);
    } else {
      FinishStops(why, p0, calls, world.trace, world.steps, world.events, world.outcomes, |s0|, first, known, active,
                  actions, inp);
    }
  }

  lemma CollectStops(why: Why, p0: Coordinator, calls: seq<Call>, trace: seq<Moment>, steps: seq<Step>,
                     events: seq<PH.Event>, outcomes: nat -> bool, s: nat, actions: seq<FR.Action>, inp: Inputs)
    requires !why.Done? && CollectStopped(why, p0, calls, trace, steps, events, outcomes, actions, inp)
    ensures StoppedFor(why, p0, calls, trace, steps, events, outcomes, s, actions, inp)
  {
  }

  lemma PlanEnds(inp: Inputs, count: nat, replay: bool, calls: seq<Call>)
    requires calls <= Before(PlannedCalls(inp, count, replay))
    ensures calls <= PlannedCalls(inp, count, replay)
    ensures calls == Before(PlannedCalls(inp, count, replay)) ==>
              calls + [ReadyCall(inp.projection, inp.clock(6))] == PlannedCalls(inp, count, replay)
  {
  }
}
