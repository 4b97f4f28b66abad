/**
 The world around the startup sequence: what other tasks do in between, and a trace in which every
 moment is explained.
 */
module StartupTrace {
  import opened Prelude
  import opened RecoveryListings
  import RS = RecoveryStore
  import TR = ThreadRecovery
  import RP = RecoveryPass
  import FR = FollowRecovery
  import SR = StartupRecovery
  import PH = ProjectionHealth
  import LW = LaunchWindows
  import WR = WorkspaceRecovery
  import opened RecoveryService

  /** What other tasks do in one gap of the startup sequence: any new store, and any health events. */
  datatype Gap = Gap(store: RS.Store, events: seq<PH.Event>)

  /** The store at one moment, and how many health events had happened by then. */
  datatype Moment = Moment(store: RS.Store, events: nat)

  /** What led from one moment to the next. */
  datatype Step =
    | Others(gap: nat)
    | NoOthers
    | ActivePass(open: seq<RS.Workspace>, wprobes: seq<WR.WorkspaceProbe>, rows: seq<RS.ThreadRow>,
                 passive: set<string>, probes: seq<TR.Probe>)
    | WindowRepair(roots: seq<RS.ThreadId>)
    | FollowPass(waiters: seq<RS.Waiter>, now: int)
    | WindowRecovery
    | NoRepair
    | RepairBegins
    | RepairEnds(token: nat, k: nat)

  datatype Kind = Outside | Active | Tombstones | Follow | Windows | Current | Begin | End(k: nat)

  function KindOf(step: Step): Kind {
    match step
    case Others(_) => Outside
    case NoOthers => Outside
    case ActivePass(_, _, _, _, _) => Active
    case WindowRepair(_) => Tombstones
    case FollowPass(_, _) => Follow
    case WindowRecovery => Windows
    case NoRepair => Current
    case RepairBegins => Begin
    case RepairEnds(_, k) => End(k)
  }

  function KindsOf(steps: seq<Step>): (r: seq<Kind>)
    ensures |r| == |steps| && forall i | 0 <= i < |r| :: r[i] == KindOf(steps[i])
  {
    seq(|steps|, i requires 0 <= i < |steps| => KindOf(steps[i]))
  }

  lemma KindsGrow(steps: seq<Step>, step: Step)
    ensures KindsOf(steps + [step]) == KindsOf(steps) + [KindOf(step)]
  {
  }

  /** How many gaps other tasks have used so far. */
  function GapsUsed(steps: seq<Step>): nat {
    if steps == [] then 0
    else GapsUsed(steps[..|steps| - 1]) + if steps[|steps| - 1].Others? then 1 else 0
  }

  lemma GapsGrow(steps: seq<Step>, step: Step)
    ensures GapsUsed(steps + [step]) == GapsUsed(steps) + if step.Others? then 1 else 0
  {
    assert (steps + [step])[..|steps|] == steps;
  }

  /** The workspace sweep and the thread pass both reach their end. */
  predicate PassSucceeds(st: RS.Store, open: seq<RS.Workspace>, wprobes: seq<WR.WorkspaceProbe>,
      rows: seq<RS.ThreadRow>,
                         passive: set<string>, probes: seq<TR.Probe>)
    requires |open| == |wprobes| && |rows| == |probes|
  {
    var sweep := WorkspaceSweep(st, open, TR.Startup, wprobes);
    !sweep.failed && !RP.ThreadPass(sweep.store, rows, RP.Config(sweep.blocked, passive, TR.Startup), probes).failed
  }

  /** The store an active-thread pass leaves, whether or not it fails. */
  function AfterActivePass(st: RS.Store, open: seq<RS.Workspace>, wprobes: seq<WR.WorkspaceProbe>,
      rows: seq<RS.ThreadRow>,
                           passive: set<string>, probes: seq<TR.Probe>): RS.Store
    requires |open| == |wprobes| && |rows| == |probes|
  {
    var sweep := WorkspaceSweep(st, open, TR.Startup, wprobes);
    if sweep.failed then sweep.store
    else RS.ApplyAll(sweep.store, RP.ThreadPass(sweep.store, rows, RP.Config(sweep.blocked, passive, TR.Startup),
        probes).log)
  }

  /** The step explains the new store and the health events added with it; a pass runs over its own store's listings. */
  ghost predicate Explains(script: seq<Gap>, outcomes: nat -> bool, step: Step, a: RS.Store, b: RS.Store,
      added: seq<PH.Event>) {
    match step
    case Others(gap) => gap < |script| && b == script[gap].store && added == script[gap].events
    case NoOthers => b == a && added == []
    case ActivePass(open, wprobes, rows, passive, probes) =>
      && |open| == |wprobes| && |rows| == |probes| && AllOpen(a, open) && AllRows(a, rows) && added == []
      && b == AfterActivePass(a, open, wprobes, rows, passive, probes)
    case WindowRepair(roots) => AllCancelled(a, roots) && b == SR.RepairAll(a, roots) && added == []
    case FollowPass(ws, now) => AllWaiters(a, ws) && b == FR.WaiterTurns(a, ws, now).store && added == []
    case WindowRecovery => LW.OnlyReleases(a, b) && LW.AllReleased(a, b) && added == []
    case NoRepair => b == a && added == []
    case RepairBegins => b == a && added == [PH.Begin]
    case RepairEnds(token, k) => b == a && added == [PH.Finish(token, outcomes(k))]
  }

  /** The health after some events. */
  function HealthOf(events: seq<PH.Event>): PH.Health {
    PH.Run(events).health
  }

  /**
   The step may come next: gaps are used in the order of the script, none is
   skipped, a repair runs exactly when the projection is not current, and it ends
   under the token it began with.
   */
  ghost predicate MayFollow(script: seq<Gap>, trace: seq<Moment>, steps: seq<Step>, events: seq<PH.Event>, step: Step) {
    match step
    case Others(gap) => gap == GapsUsed(steps)
    case NoOthers => GapsUsed(steps) == |script|
    case NoRepair => PH.IsCurrent(HealthOf(events))
    case RepairBegins => !PH.IsCurrent(HealthOf(events))
    case RepairEnds(token, _) =>
      && |steps| >= 2 && |trace| == |steps| + 1 && steps[|steps| - 2].RepairBegins?
      && trace[|steps| - 2].events <= |events|
      && token == |PH.Run(events[..trace[|steps| - 2].events]).repairs|
    case _ => true
  }

  predicate Ordered(trace: seq<Moment>, events: seq<PH.Event>) {
    && (forall i | 0 <= i < |trace| :: trace[i].events <= |events|)
    && (forall i, j | 0 <= i < j < |trace| :: trace[i].events <= trace[j].events)
  }

  /** Moment i + 1 of the trace follows from moment i by step i, which may stand there. */
  ghost predicate LinkOk(script: seq<Gap>, outcomes: nat -> bool, trace: seq<Moment>, steps: seq<Step>,
                         events: seq<PH.Event>, i: nat)
    requires i + 1 < |trace| && i < |steps| && Ordered(trace, events)
  {
    && Explains(script, outcomes, steps[i], trace[i].store, trace[i + 1].store,
        events[trace[i].events..trace[i + 1].events])
    && MayFollow(script, trace[..i + 1], steps[..i], events[..trace[i].events], steps[i])
  }

  /** Every moment follows from the one before it. */
  ghost predicate Explained(script: seq<Gap>, outcomes: nat -> bool, trace: seq<Moment>, steps: seq<Step>,
      events: seq<PH.Event>) {
    && Ordered(trace, events) && |trace| == |steps| + 1
    && forall i | 0 <= i < |steps| :: LinkOk(script, outcomes, trace, steps, events, i)
  }

  lemma LinkStays(script: seq<Gap>, outcomes: nat -> bool, t: seq<Moment>, s: seq<Step>, e: seq<PH.Event>,
                  t': seq<Moment>, s': seq<Step>, e': seq<PH.Event>, i: nat)
    requires i + 1 < |t| && i < |s| && Ordered(t, e) && Ordered(t', e') && t <= t' && s <= s' && e <= e'
    requires LinkOk(script, outcomes, t, s, e, i)
    ensures LinkOk(script, outcomes, t', s', e', i)
  {
    hide Explains, MayFollow;
    assert t'[i] == t[i] && t'[i + 1] == t[i + 1] && s'[i] == s[i];
    assert t'[..i + 1] == t[..i + 1] && s'[..i] == s[..i];
    assert e'[..t[i].events] == e[..t[i].events];
    assert e'[t[i].events..t[i + 1].events] == e[t[i].events..t[i + 1].events];
  }

  lemma ExplainedGrows(script: seq<Gap>, outcomes: nat -> bool, trace: seq<Moment>, steps: seq<Step>,
                       events: seq<PH.Event>, step: Step, next: RS.Store, added: seq<PH.Event>)
    requires Explained(script, outcomes, trace, steps, events) && trace[|trace| - 1].events == |events|
    requires Explains(script, outcomes, step, trace[|trace| - 1].store, next, added)
    requires MayFollow(script, trace, steps, events, step)
    ensures Explained(script, outcomes, trace + [Moment(next, |events + added|)], steps + [step], events + added)
  {
    hide Explains, MayFollow, LinkOk;
    var t, s, e := trace + [Moment(next, |events + added|)], steps + [step], events + added;
    forall i | 0 <= i < |s| ensures LinkOk(script, outcomes, t, s, e, i) {
      if i < |steps| {
        LinkStays(script, outcomes, trace, steps, events, t, s, e, i);
      } else {
        NewLink(script, outcomes, trace, steps, events, step, next, added);
      }
    }
  }

  lemma NewLink(script: seq<Gap>, outcomes: nat -> bool, trace: seq<Moment>, steps: seq<Step>,
                events: seq<PH.Event>, step: Step, next: RS.Store, added: seq<PH.Event>)
    requires Ordered(trace, events) && |trace| == |steps| + 1 && trace[|trace| - 1].events == |events|
    requires Explains(script, outcomes, step, trace[|trace| - 1].store, next, added)
    requires MayFollow(script, trace, steps, events, step)
    ensures var t, s, e := trace + [Moment(next, |events + added|)], steps + [step], events + added;
            Ordered(t, e) && LinkOk(script, outcomes, t, s, e, |steps|)
  {
    hide Explains, MayFollow;
    var t, s, e := trace + [Moment(next, |events + added|)], steps + [step], events + added;
    assert t[..|trace|] == trace && s[..|steps|] == steps && e[..|events|] == events;
    assert e[|events|..|e|] == added;
  }

  /** The history has only grown. */
  predicate Grown(t: seq<Moment>, s: seq<Step>, e: seq<PH.Event>, t': seq<Moment>, s': seq<Step>, e': seq<PH.Event>) {
    t <= t' && s <= s' && e <= e'
  }

  /** One repair block of the sequence: it ran, or the projection was current. */
  function Block(ran: bool, k: nat): seq<Kind> {
    if ran then [Begin, Outside, End(k)] else [Current]
  }

  class World {
    const service: Service
    /** What other tasks do in each gap, and how each projection repair ends. */
    const script: seq<Gap>
    const outcomes: nat -> bool
    var gap: nat
    /** Every health event so far; the health is what they amount to. */
    var events: seq<PH.Event>
    /** Every moment the sequence has seen, in order, and what led to each. */
    ghost var trace: seq<Moment>
    ghost var steps: seq<Step>

    constructor (service: Service, script: seq<Gap>, outcomes: nat -> bool)
      ensures this.service == service && this.script == script && this.outcomes == outcomes
      ensures Valid() && events == [] && trace == [Moment(service.store, 0)] && steps == []
    {
      this.service, this.script, this.outcomes, gap, events := service, script, outcomes, 0, [];
      trace, steps := [Moment(service.store, 0)], [];
    }

    /** The trace is explained step by step, ends in the present, and has used the script's gaps in order. */
    ghost predicate Valid()
      reads this, service
    {
      && Explained(script, outcomes, trace, steps, events)
      && |trace| == |steps| + 1 && trace[|trace| - 1] == Moment(service.store, |events|)
      && gap == GapsUsed(steps) <= |script|
    }

    function Health(): PH.Health
      reads this
    {
      HealthOf(events)
    }

    /** Records the step that has just been taken. */
    ghost method Note(step: Step, was: RS.Store, before: seq<PH.Event>, added: seq<PH.Event>)
      requires Explained(script, outcomes, trace, steps, before)
      requires |trace| == |steps| + 1 && trace[|trace| - 1] == Moment(was, |before|)
      requires events == before + added && Explains(script, outcomes, step, was, service.store, added)
      requires MayFollow(script, trace, steps, before, step)
      modifies `trace, `steps
      ensures Explained(script, outcomes, trace, steps, events)
      ensures trace == old(trace) + [Moment(service.store, |events|)] && steps == old(steps) + [step]
      ensures KindsOf(steps) == KindsOf(old(steps)) + [KindOf(step)]
      ensures GapsUsed(steps) == GapsUsed(old(steps)) + if step.Others? then 1 else 0
    {
      hide Explains, Explained, MayFollow;
      ExplainedGrows(script, outcomes, trace, steps, before, step, service.store, added);
      KindsGrow(steps, step);
      GapsGrow(steps, step);
      trace, steps := trace + [Moment(service.store, |events|)], steps + [step];
    }

    method LetOthersAct()
      requires Valid()
      modifies `gap, `events, `trace, `steps, service`store
      ensures Valid() && Grown(old(trace), old(steps), old(events), trace, steps, events)
      ensures KindsOf(steps) == KindsOf(old(steps)) + [Outside]
    {
      hide Explained, GapsUsed, KindsOf;
      ghost var was, before := service.store, events;
      if gap < |script| {
        service.store := script[gap].store;
        events := events + script[gap].events;
        Note(Others(gap), was, before, script[gap].events);
        gap := gap + 1;
      } else {
        assert events == before + [];
        Note(NoOthers, was, before, []);
      }
    }

    /** Repair once when not current; other tasks may act while the repair runs. */
    method RepairIfNeeded(k: nat) returns (ok: bool, ghost ran: bool)
      requires Valid()
      modifies `gap, `events, `trace, `steps, service`store
      ensures Valid() && Grown(old(trace), old(steps), old(events), trace, steps, events)
      ensures KindsOf(steps) == KindsOf(old(steps)) + Block(ran, k)
      ensures ran == !PH.IsCurrent(old(Health())) && ok == (ran ==> outcomes(k))
      ensures !ran ==> events == old(events)
    {
      hide Explained, GapsUsed, KindsOf, PH.Run, HealthOf;
      ghost var before := events;
      if PH.IsCurrent(Health()) {
        assert events == before + [];
        Note(NoRepair, service.store, before, []);
        return true, false;
      }
      var token := |PH.Run(events).repairs|;
      events := events + [PH.Begin];
      Note(RepairBegins, service.store, before, [PH.Begin]);
      assert trace[|steps| - 1] == old(trace)[|old(steps)|] && events[..|before|] == before;
      EndRepair(token, k);
      assert KindsOf(old(steps)) + [Begin] + [Outside, End(k)] == KindsOf(old(steps)) + Block(true, k);
      return outcomes(k), true;
    }

    /** The second half of a repair that has just begun. */
    method EndRepair(token: nat, k: nat)
      requires Valid() && steps != [] && steps[|steps| - 1].RepairBegins?
      requires trace[|steps| - 1].events <= |events| && token == |PH.Run(events[..trace[|steps| - 1].events]).repairs|
      modifies `gap, `events, `trace, `steps, service`store
      ensures Valid() && Grown(old(trace), old(steps), old(events), trace, steps, events)
      ensures KindsOf(steps) == KindsOf(old(steps)) + [Outside, End(k)]
    {
      hide Explained, GapsUsed, KindsOf, PH.Run;
      ghost var s1, t1, e1, at := steps, trace, events, |steps| - 1;
      LetOthersAct();
      ghost var mid, s2 := events, steps;
      assert |s2| == |s1| + 1 by { KindsLength(s1, s2); }
      assert trace[at] == t1[at] && steps[|steps| - 2] == s1[|s1| - 1];
      assert mid[..trace[at].events] == e1[..t1[at].events];
      events := events + [PH.Finish(token, outcomes(k))];
      Note(RepairEnds(token, k), service.store, mid, [PH.Finish(token, outcomes(k))]);
      assert KindsOf(s1) + [Outside] + [End(k)] == KindsOf(s1) + [Outside, End(k)];
    }

    /** The repair of every cancelled window member, one tombstone at a time. */
    method RepairWindows()
      requires Valid()
      modifies `trace, `steps, service`store
      ensures Valid() && Grown(old(trace), old(steps), old(events), trace, steps, events)
      ensures KindsOf(steps) == KindsOf(old(steps)) + [Tombstones]
    {
      hide FR.RepairCancelled, Explained, GapsUsed, KindsOf, AllCancelled;
      ghost var st0 := service.store;
      var roots := ListCancelled(service.store);
      for i := 0 to |roots|
        invariant SR.RepairAll(st0, roots) == SR.RepairAll(service.store, roots[i..])
        invariant trace == old(trace) && steps == old(steps)
      {
        assert roots[i..][0] == roots[i] && roots[i..][1..] == roots[i + 1..];
        service.store := FR.RepairCancelled(service.store, roots[i]);
      }
      assert events == events + [];
      Note(WindowRepair(roots), st0, events, []);
    }

    /** Launch-window recovery on the current store. */
    method RecoverWindows(room: (string, nat) -> nat) returns (admitted: seq<RS.ThreadId>)
      requires Valid()
      modifies `trace, `steps, service`store
      ensures Valid() && Grown(old(trace), old(steps), old(events), trace, steps, events)
      ensures KindsOf(steps) == KindsOf(old(steps)) + [Windows]
      ensures LW.Admits(old(service.store), service.store, admitted)
    {
      hide LW.OnlyReleases, LW.Admits, LW.AllReleased, Explained, GapsUsed, KindsOf;
      ghost var was := service.store;
      var next;
      next, admitted := LW.RecoverWindows(service.store, room);
      service.store := next;
      assert events == events + [];
      Note(WindowRecovery, was, events, []);
    }
  }

  lemma KindsLength(a: seq<Step>, b: seq<Step>)
    requires |KindsOf(b)| == |KindsOf(a)| + 1
    ensures |b| == |a| + 1
  {
  }
}
