/**
 Request admission under concurrency.  Writers hold the publication lock, so at
 most one coordinator call is in flight, but its loads and stores are separate
 steps; requests read the lifecycle, the admission flag and the application
 pointer with three separate loads at any time in between.
 */
module RequestAdmission {

  datatype Status = Starting | Running | FailedState

  datatype Op = PublishApplication | Ready | BeginShutdown | Fail

  /** The lock holder and its next instruction. */
  datatype Writer = Idle | Holding(op: Op, pc: nat)

  /** The two doors' cells, the shutdown flag and the lock. */
  datatype Shared = Shared(
    uds: Status, http: Status, udsApp: bool, httpApp: bool, admission: bool, gates: bool,
    shuttingDown: bool, shutdownDone: bool, writer: Writer)

  /** A request after its first, second and third load. */
  datatype Request = SawLifecycle(seen: Status) | SawAdmission | Dispatched | Refused

  datatype System = System(cells: Shared, requests: map<nat, Request>)

  function Initial(): System {
    System(Shared(Starting, Starting, false, false, false, false, false, false, Idle), map[])
  }

  /**
   What a writer step reads outside the shared state: the process shutdown flag, stage check and
   response validity.
   */
  datatype Env = Env(shutdownRequested: bool, stageComplete: bool, responseAccepted: bool)

  function Goto(s: Shared, pc: nat): Shared
    requires s.writer.Holding?
  {
    s.(writer := Holding(s.writer.op, pc))
  }

  function Unlock(s: Shared): Shared {
    s.(writer := Idle)
  }

  /** `StartupCoordinator::publish_application`. */
  function ApplicationStep(s: Shared, e: Env): Shared
    requires s.writer.Holding?
  {
    match s.writer.pc
    case 0 => if s.shuttingDown || e.shutdownRequested then Unlock(s) else Goto(s, 1)
    case 1 => if s.uds != Starting then Unlock(s) else Goto(s, 2)
    case 2 => if s.udsApp then Unlock(s) else Goto(s, 3)
    case 3 => if s.httpApp then Unlock(s) else Goto(s, 4)
    case 4 => Goto(s.(udsApp := true), 5)
    case _ => Unlock(s.(httpApp := true))
  }

  /** `StartupCoordinator::ready`: the guards, then the stores. */
  function ReadyStep(s: Shared, e: Env): Shared
    requires s.writer.Holding?
  {
    if s.writer.pc < 5 then ReadyChecks(s, e) else ReadyStores(s, e)
  }

  function ReadyChecks(s: Shared, e: Env): Shared
    requires s.writer.Holding?
  {
    match s.writer.pc
    case 0 => if s.shuttingDown || e.shutdownRequested then Unlock(s) else Goto(s, 1)
    case 1 => if s.uds != Starting then Unlock(s) else Goto(s, 2)
    case 2 => if !s.udsApp then Unlock(s) else Goto(s, 3)
    case 3 => if !s.httpApp then Unlock(s) else Goto(s, 4)
    case _ => if !e.stageComplete then Unlock(s) else Goto(s, 5)
  }

  /** Release gates, open admission, then publish to UDS and HTTP. */
  function ReadyStores(s: Shared, e: Env): Shared
    requires s.writer.Holding?
  {
    match s.writer.pc
    case 5 => Goto(s.(gates := true), 6)
    case 6 => Goto(s.(admission := true), 7)
    case 7 => if s.uds != s.http then Unlock(s) else Goto(s, 8)
    case 8 => if s.uds != Starting || !s.udsApp || !e.responseAccepted then Unlock(s) else Goto(s.(uds := Running), 9)
    case _ => if s.http != Starting || !s.httpApp then Unlock(s) else Unlock(s.(http := Running))
  }

  /** `StartupCoordinator::begin_shutdown`. */
  function ShutdownStep(s: Shared): Shared
    requires s.writer.Holding?
  {
    match s.writer.pc
    case 0 => Goto(s.(shuttingDown := true), 1)
    case 1 => Goto(s.(admission := false), 2)
    case 2 => Goto(s.(httpApp := false), 3)
    case _ => Unlock(s.(udsApp := false, shutdownDone := true))
  }

  /** `StartupCoordinator::failed`. */
  function FailStep(s: Shared, e: Env): Shared
    requires s.writer.Holding?
  {
    if s.writer.pc == 0 then (if s.uds != Starting then Unlock(s) else Goto(s, 1))
    else if s.writer.pc == 1 then (if s.uds != s.http then Unlock(s) else Goto(s, 2))
    else FailStores(s, e)
  }

  function FailStores(s: Shared, e: Env): Shared
    requires s.writer.Holding?
  {
    match s.writer.pc
    case 2 => if s.uds != Starting || !e.responseAccepted then Unlock(s) else Goto(s.(uds := FailedState), 3)
    case _ => if s.http != Starting then Unlock(s) else Unlock(s.(http := FailedState))
  }

  function WriterStep(s: Shared, e: Env): Shared
    requires s.writer.Holding?
  {
    match s.writer.op
    case PublishApplication => ApplicationStep(s, e)
    case Ready => ReadyStep(s, e)
    case BeginShutdown => ShutdownStep(s)
    case Fail => FailStep(s, e)
  }

  datatype Event =
    | Lock(op: Op)
    | Write(env: Env)
    | LoadLifecycle(id: nat)
    | LoadAdmission(id: nat)
    | LoadApplication(id: nat)

  predicate Enabled(s: System, ev: Event) {
    match ev
    case Lock(_) => s.cells.writer.Idle?
    case Write(_) => s.cells.writer.Holding?
    case LoadLifecycle(id) => id !in s.requests
    case LoadAdmission(id) => id in s.requests && s.requests[id].SawLifecycle?
    case LoadApplication(id) => id in s.requests && s.requests[id].SawAdmission?
  }

  /** One atomic step; a step that is not enabled does nothing. */
  function Step(s: System, ev: Event): System {
    if !Enabled(s, ev) then s
    else
      match ev
      case Lock(op) => s.(cells := s.cells.(writer := Holding(op, 0)))
      case Write(e) => s.(cells := WriterStep(s.cells, e))
      case LoadLifecycle(id) =>
        s.(requests := s.requests[id := if s.cells.http != Running then Refused else SawLifecycle(s.cells.http)])
      case LoadAdmission(id) =>
        s.(requests := s.requests[id := if s.cells.admission then SawAdmission else Refused])
      case LoadApplication(id) =>
        s.(requests := s.requests[id := if s.cells.httpApp then Dispatched else Refused])
  }

  function Execute(s: System, events: seq<Event>): System {
    if events == [] then s else Step(Execute(s, events[..|events| - 1]), events[|events| - 1])
  }

  // ----- Invariants -----

  predicate Past(s: Shared, op: Op, pc: nat) {
    s.writer.Holding? && s.writer.op == op && s.writer.pc >= pc
  }

  /** The doors differ only between the two stores of one terminal publication. */
  predicate DoorsMatch(s: Shared) {
    && (s.uds == s.http || (s.http == Starting && (Past(s, Ready, 9) || Past(s, Fail, 3))))
    && (Past(s, Ready, 9) ==> s.uds == Running && s.http == Starting)
    && (Past(s, Fail, 3) ==> s.uds == FailedState && s.http == Starting)
    && (Past(s, Ready, 6) || s.uds == Running ==> s.gates)
    && (Past(s, Ready, 4) ==> s.httpApp)
  }

  /** While a writer past its shutdown guard holds the lock, no shutdown has begun. */
  predicate ShutdownIsFinal(s: Shared) {
    && (Past(s, Ready, 1) || Past(s, PublishApplication, 1) ==> !s.shuttingDown)
    && (s.shutdownDone ==> s.shuttingDown && !s.admission && !s.httpApp && !s.udsApp)
    && (Past(s, BeginShutdown, 1) ==> s.shuttingDown)
    && (Past(s, BeginShutdown, 2) ==> !s.admission)
    && (Past(s, BeginShutdown, 3) ==> !s.httpApp)
  }

  predicate SafeCells(s: Shared) {
    DoorsMatch(s) && ShutdownIsFinal(s)
  }

  /** Any request that got past its first load saw Ready. */
  predicate Safe(s: System) {
    && SafeCells(s.cells)
    && forall id | id in s.requests && !s.requests[id].Refused? :: s.cells.http == Running
  }

  /** Ready and completed shutdown are never taken back. */
  predicate Progress(s: Shared, d: Shared) {
    (s.http == Running ==> d.http == Running) && (s.shutdownDone ==> d.shutdownDone)
  }

  lemma ApplicationKeepsSafe(s: Shared, e: Env)
    requires SafeCells(s) && Past(s, PublishApplication, 0)
    ensures SafeCells(ApplicationStep(s, e)) && Progress(s, ApplicationStep(s, e))
  {
  }

  lemma ReadyChecksKeepSafe(s: Shared, e: Env)
    requires SafeCells(s) && Past(s, Ready, 0) && s.writer.pc < 5
    ensures SafeCells(ReadyChecks(s, e)) && Progress(s, ReadyChecks(s, e))
  {
    var r, pc := ReadyChecks(s, e), s.writer.pc;
    assert r == Unlock(s) || (r == Goto(s, pc + 1) && (pc == 0 ==> !s.shuttingDown) && (pc == 3 ==> s.httpApp));
    hide ReadyChecks;
  }

  lemma ReadyStoresKeepSafe(s: Shared, e: Env)
    requires SafeCells(s) && Past(s, Ready, 5)
    ensures SafeCells(ReadyStores(s, e)) && Progress(s, ReadyStores(s, e))
  {
  }

  lemma ShutdownKeepsSafe(s: Shared)
    requires SafeCells(s) && Past(s, BeginShutdown, 0)
    ensures SafeCells(ShutdownStep(s)) && Progress(s, ShutdownStep(s))
  {
  }

  lemma FailKeepsSafe(s: Shared, e: Env)
    requires SafeCells(s) && Past(s, Fail, 0)
    ensures SafeCells(FailStep(s, e)) && Progress(s, FailStep(s, e))
  {
    if s.writer.pc < 2 {
      hide FailStores;
      assert SafeCells(FailStep(s, e));
    } else {
      FailStoresKeepSafe(s, e);
      hide FailStores, SafeCells;
    }
  }

  lemma FailStoresKeepSafe(s: Shared, e: Env)
    requires SafeCells(s) && Past(s, Fail, 2)
    ensures SafeCells(FailStores(s, e)) && Progress(s, FailStores(s, e))
  {
  }

  lemma WriterKeepsSafe(s: Shared, e: Env)
    requires SafeCells(s) && s.writer.Holding?
    ensures SafeCells(WriterStep(s, e)) && Progress(s, WriterStep(s, e))
  {
    hide SafeCells, Progress, ApplicationStep, ReadyChecks, ReadyStores, ShutdownStep, FailStep;
    match s.writer.op {
      case PublishApplication => ApplicationKeepsSafe(s, e);
      case Ready => if s.writer.pc < 5 { ReadyChecksKeepSafe(s, e); } else { ReadyStoresKeepSafe(s, e); }
      case BeginShutdown => ShutdownKeepsSafe(s);
      case Fail => FailKeepsSafe(s, e);
    }
  }

  lemma StepKeepsSafe(s: System, ev: Event)
    requires Safe(s)
    ensures Safe(Step(s, ev)) && Progress(s.cells, Step(s, ev).cells)
  {
    if ev.Write? {
      if s.cells.writer.Holding? { WriterKeepsSafe(s.cells, ev.env); }
      hide SafeCells, WriterStep;
    } else if ev.Lock? {
      hide WriterStep;
    } else {
      hide SafeCells, WriterStep;
    }
  }

  lemma {:induction false} ReachableIsSafe(events: seq<Event>)
    ensures Safe(Execute(Initial(), events))
    decreases |events|
  {
    hide Step;
    if events != [] {
      ReachableIsSafe(events[..|events| - 1]);
      StepKeepsSafe(Execute(Initial(), events[..|events| - 1]), events[|events| - 1]);
    }
  }

  /**
   In every interleaving, a request reaches the route dispatcher only when Ready
   is published on both front doors and the internal gates are released.
   */
  lemma DispatchOnlyAfterReady(events: seq<Event>, id: nat)
    ensures var s := Execute(Initial(), events);
            id in s.requests && s.requests[id].Dispatched? ==>
              s.cells.http == Running && s.cells.uds == Running && s.cells.gates
  {
    ReachableIsSafe(events);
  }

  // ----- Shutdown -----

  /** Requests that exist keep their outcome, and a new dispatch needs the application pointer. */
  lemma DispatchStep(s: System, ev: Event, id: nat)
    ensures var d := Step(s, ev);
            id in d.requests && d.requests[id].Dispatched? ==>
              s.cells.httpApp || (id in s.requests && s.requests[id].Dispatched?)
  {
    hide WriterStep;
  }

  /** No request is dispatched after `begin_shutdown` has completed, whatever loads it made before. */
  lemma {:induction false} NoDispatchAfterShutdown(before: seq<Event>, after: seq<Event>, id: nat)
    ensures var s := Execute(Initial(), before); var d := Execute(Initial(), before + after);
            s.cells.shutdownDone ==>
              && d.cells.shutdownDone
              && (id in d.requests && d.requests[id].Dispatched? ==> id in s.requests && s.requests[id].Dispatched?)
    decreases |after|
  {
    hide Step;
    if after == [] {
      assert before + after == before;
    } else {
      var init, last := after[..|after| - 1], after[|after| - 1];
      NoDispatchAfterShutdown(before, init, id);
      assert (before + after)[..|before + after| - 1] == before + init;
      var m := Execute(Initial(), before + init);
      assert Execute(Initial(), before + after) == Step(m, last);
      ReachableIsSafe(before + init);
      StepKeepsSafe(m, last);
      DispatchStep(m, last, id);
    }
  }

  /** In particular, a request whose first load follows a completed shutdown never reaches the dispatcher. */
  lemma LateRequestsAreRefused(before: seq<Event>, after: seq<Event>, id: nat)
    requires Execute(Initial(), before).cells.shutdownDone && id !in Execute(Initial(), before).requests
    ensures var d := Execute(Initial(), before + after); id in d.requests ==> !d.requests[id].Dispatched?
  {
    NoDispatchAfterShutdown(before, after, id);
  }

  /** With no step in between, the three loads dispatch exactly when Ready, admission and application all hold. */
  lemma UndisturbedDispatch(s: System, id: nat)
    requires id !in s.requests
    ensures var a := Step(s, LoadLifecycle(id)); var b := Step(a, LoadAdmission(id)); var c := Step(b,
        LoadApplication(id));
            c.requests[id].Dispatched? <==> s.cells.http == Running && s.cells.admission && s.cells.httpApp
  {
    hide WriterStep;
  }

  // ----- Undisturbed calls -----

  /** The lock holder takes n steps with the same environment and nothing in between. */
  function Proceed(s: Shared, e: Env, n: nat): Shared
    decreases n
  {
    if n == 0 || s.writer.Idle? then s else Proceed(WriterStep(s, e), e, n - 1)
  }

  function Take(s: Shared, op: Op): Shared {
    s.(writer := Holding(op, 0))
  }

  /** No call is in flight, and the doors agree. */
  predicate Quiet(s: Shared) {
    s.writer.Idle? && s.uds == s.http
  }

  /**
   A Ready call that nothing disturbs ends Ready on both doors, with admission
   open and gates released, if and only if startup is live, its stages are
   complete, the application is published on both doors and the response is
   accepted; otherwise it publishes nothing.
   */
  lemma UndisturbedReady(s: Shared, e: Env)
    requires Quiet(s)
    ensures var r := Proceed(Take(s, Ready), e, 10);
            && Quiet(r)
            && (r.http == Running && s.http != Running <==>
                  && s.uds == Starting && !s.shuttingDown && !e.shutdownRequested && e.stageComplete
                  && s.udsApp && s.httpApp && e.responseAccepted)
            && (r.http == Running && s.http != Running ==> r.admission && r.gates && r.httpApp)
            && (r.http == s.http || r.http == Running)
  {
    hide WriterStep;
    var t := Take(s, Ready);
    if s.shuttingDown || e.shutdownRequested || s.uds != Starting || !s.udsApp || !s.httpApp || !e.stageComplete {
      ReadyRefuses(s, e);
    } else {
      ReadyGuards(s, e);
      ReadyStoresRun(s, e);
    }
  }

  lemma ReadyRefuses(s: Shared, e: Env)
    requires Quiet(s)
    requires s.shuttingDown || e.shutdownRequested || s.uds != Starting || !s.udsApp || !s.httpApp || !e.stageComplete
    ensures Proceed(Take(s, Ready), e, 10) == s
  {
    var t := Take(s, Ready);
    assert Proceed(t, e, 10) == Proceed(WriterStep(t, e), e, 9);
    if !s.shuttingDown && !e.shutdownRequested {
      ReadyHops(t, e, 0, 10);
      if s.uds == Starting {
        ReadyHops(t, e, 1, 9);
        if s.udsApp {
          ReadyHops(t, e, 2, 8);
          if s.httpApp { ReadyHops(t, e, 3, 7); }
        }
      }
    }
  }

  /** A Ready call at instruction pc whose guard holds goes on to the next. */
  lemma ReadyHops(t: Shared, e: Env, pc: nat, n: nat)
    requires t.writer == Holding(Ready, 0) && pc < 5 && 0 < n
    requires !t.shuttingDown && !e.shutdownRequested && (pc >= 1 ==> t.uds == Starting)
    requires (pc >= 2 ==> t.udsApp) && (pc >= 3 ==> t.httpApp) && (pc >= 4 ==> e.stageComplete)
    ensures Proceed(t.(writer := Holding(Ready, pc)), e, n) ==
            Proceed(t.(writer := Holding(Ready, pc + 1)), e, n - 1)
  {
  }

  lemma ReadyGuards(s: Shared, e: Env)
    requires Quiet(s) && !s.shuttingDown && !e.shutdownRequested && s.uds == Starting && s.udsApp && s.httpApp
    requires e.stageComplete
    ensures Proceed(Take(s, Ready), e, 10) == Proceed(s.(writer := Holding(Ready, 5)), e, 5)
  {
    var t := Take(s, Ready);
    ReadyHops(t, e, 0, 10);
    ReadyHops(t, e, 1, 9);
    ReadyHops(t, e, 2, 8);
    ReadyHops(t, e, 3, 7);
    ReadyHops(t, e, 4, 6);
  }

  lemma ReadyStoresRun(s: Shared, e: Env)
    requires Quiet(s) && s.uds == Starting && s.udsApp && s.httpApp
    ensures var open := s.(gates := true, admission := true);
            Proceed(s.(writer := Holding(Ready, 5)), e, 5) ==
            if e.responseAccepted then open.(uds := Running, http := Running) else open
  {
    var a := s.(writer := Holding(Ready, 5));
    var b := s.(gates := true, writer := Holding(Ready, 6));
    var c := s.(gates := true, admission := true, writer := Holding(Ready, 7));
    var d := c.(writer := Holding(Ready, 8));
    assert WriterStep(a, e) == b && WriterStep(b, e) == c && WriterStep(c, e) == d;
    assert Proceed(a, e, 5) == Proceed(b, e, 4) == Proceed(c, e, 3) == Proceed(d, e, 2);
    if e.responseAccepted {
      var x := d.(uds := Running, writer := Holding(Ready, 9));
      assert WriterStep(d, e) == x;
      assert Proceed(d, e, 2) == Proceed(x, e, 1) == Proceed(WriterStep(x, e), e, 0);
    } else {
      assert Proceed(d, e, 2) == Proceed(WriterStep(d, e), e, 1);
    }
  }
}
