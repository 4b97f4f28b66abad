/** The health of the thread projection, as readiness reads it. */
module ProjectionHealth {
  import opened Prelude

  datatype Status = Current | Stale | Repairing | Failed

  /** What the last degradation was about; `Other` is a projection write that asked for repair. */
  datatype Operation = Nothing | PendingTransition | PendingScan | Other(name: string)

  datatype Health = Health(status: Status, generation: nat, pending: nat, operation: Operation)

  function Initial(): Health {
    Health(Current, 0, 0, Nothing)
  }

  function Bumped(generation: nat): nat {
    if generation >= U64_MAX then U64_MAX else generation + 1
  }

  predicate IsCurrent(h: Health) {
    h.status == Current && h.pending == 0
  }

  function Requested(h: Health, operation: string): Health {
    h.(generation := Bumped(h.generation), status := Stale, operation := Other(operation))
  }

  function Begun(h: Health): Health {
    if h.status == Current then h else h.(status := Repairing)
  }

  function Finished(h: Health, generation: nat, ok: bool): Health {
    if h.generation != generation then h
    else if !ok then h.(status := Failed)
    else if h.pending == 0 then h.(status := Current, operation := Nothing)
    else h.(status := Stale, operation := PendingTransition)
  }

  function Observed(h: Health, pending: nat): Health {
    var scanFailed := h.status == Failed && h.operation == PendingScan;
    if pending != 0 then
      if h.status == Current then
        Health(Stale, Bumped(h.generation), pending, PendingTransition)
      else if scanFailed then h.(pending := pending, status := Stale, operation := PendingTransition)
      else h.(pending := pending)
    else if scanFailed || (h.status == Stale && h.operation == PendingTransition) then
      h.(pending := 0, status := Current, operation := Nothing)
    else h.(pending := 0)
  }

  function ScanRefused(h: Health): Health {
    h.(generation := Bumped(h.generation), status := Failed, operation := PendingScan)
  }

  // ----- Runs -----

  datatype Event =
    | Request(operation: string)
    | Observe(pending: nat)
    | ScanError
    | Begin
    | Finish(repair: nat, ok: bool)

  /** A repair that was begun: the generation it saw, and whether no request came since. */
  datatype Repair = Repair(generation: nat, untouched: bool)

  /**
   The health beside what really happened: `dirty` while the last repair request
   has not been followed by a successful repair begun after it, and `masked` once
   a failed journal scan has replaced that request's record.
   */
  datatype History = History(health: Health, dirty: bool, masked: bool, repairs: seq<Repair>)

  function Aged(repairs: seq<Repair>): (r: seq<Repair>)
    ensures |r| == |repairs| && forall i | 0 <= i < |r| :: r[i] == repairs[i].(untouched := false)
  {
    seq(|repairs|, i requires 0 <= i < |repairs| => repairs[i].(untouched := false))
  }

  function Step(h: History, e: Event): History {
    match e
    case Request(operation) => History(Requested(h.health, operation), true, false, Aged(h.repairs))
    case Observe(pending) => h.(health := Observed(h.health, pending))
    case ScanError => h.(health := ScanRefused(h.health), masked := h.masked || h.dirty)
    case Begin =>
      if h.health.status == Current then h
      else h.(health := Begun(h.health), repairs := h.repairs + [Repair(h.health.generation, true)])
    case Finish(k, ok) =>
      if k >= |h.repairs| then h
      else
        var r := h.repairs[k];
        var after := h.(health := Finished(h.health, r.generation, ok));
        if ok && r.untouched then after.(dirty := false, masked := false) else after
  }

  function Run(es: seq<Event>): History {
    if es == [] then History(Initial(), false, false, []) else Step(Run(es[..|es| - 1]), es[|es| - 1])
  }

  /** Events after which the generation counter is still below its ceiling. */
  predicate Unsaturated(es: seq<Event>) {
    es != [] ==> Run(es).health.generation < U64_MAX && Unsaturated(es[..|es| - 1])
  }

  predicate Consistent(h: History) {
    && (h.health.status == Current ==> h.health.pending == 0)
    && (h.health.operation == PendingScan ==> h.health.status == Failed || h.health.status == Repairing)
  }

  predicate Tracks(h: History) {
    && (h.dirty && !h.masked ==> h.health.status != Current && h.health.operation.Other?)
    && forall i | 0 <= i < |h.repairs| ::
         h.repairs[i].generation <= h.health.generation
         && (h.repairs[i].generation == h.health.generation ==> h.repairs[i].untouched)
  }

  lemma StepConsistent(h: History, e: Event)
    requires Consistent(h)
    ensures Consistent(Step(h, e))
  {
  }

  lemma StepTracks(h: History, e: Event)
    requires Consistent(h) && Tracks(h) && Step(h, e).health.generation < U64_MAX
    ensures Tracks(Step(h, e))
  {
  }

  lemma {:induction false} RunConsistent(es: seq<Event>)
    ensures Consistent(Run(es))
  {
    hide Step, Consistent;
    if es != [] {
      RunConsistent(es[..|es| - 1]);
      StepConsistent(Run(es[..|es| - 1]), es[|es| - 1]);
    } else {
      assert Consistent(History(Initial(), false, false, [])) by { InitialConsistent(); }
    }
  }

  lemma InitialConsistent()
    ensures Consistent(History(Initial(), false, false, [])) && Tracks(History(Initial(), false, false, []))
  {
  }

  lemma {:induction false} RunTracks(es: seq<Event>)
    requires Unsaturated(es)
    ensures Tracks(Run(es))
  {
    hide Step, Tracks, Consistent;
    if es != [] {
      var before := es[..|es| - 1];
      RunTracks(before);
      RunConsistent(before);
      StepTracks(Run(before), es[|es| - 1]);
    } else {
      InitialConsistent();
    }
  }

  /** The two readiness tests agree: a Current status never hides a pending transition. */
  lemma CurrentMeansNothingPending(es: seq<Event>)
    ensures Run(es).health.status == Current <==> IsCurrent(Run(es).health)
  {
    RunConsistent(es);
  }

  /**
   A Current projection has repaired its latest request, in every run in which no
   failed journal scan replaced that request and the generation has not saturated.
   */
  lemma CurrentMeansRepaired(es: seq<Event>)
    requires Unsaturated(es) && Run(es).health.status == Current
    ensures !Run(es).dirty || Run(es).masked
  {
    RunTracks(es);
  }

  lemma RunTwo(es: seq<Event>, a: Event, b: Event)
    ensures Run(es + [a, b]) == Step(Step(Run(es), a), b)
  {
    hide Step;
    var one, two := es + [a], es + [a, b];
    assert one[..|one| - 1] == es && two[..|two| - 1] == one;
  }

  /**
   The first exception, from every run with an unrepaired request: a failed scan
   and then a scan that finds the journal empty report Current all the same.
   */
  lemma ScanClearsUnrepairedRequest(es: seq<Event>)
    requires Run(es).dirty
    ensures var h := Run(es + [ScanError, Observe(0)]); h.health.status == Current && h.dirty && h.masked
  {
    RunTwo(es, ScanError, Observe(0));
  }

  /** The second: with the generation at its ceiling, an older repair clears a newer request. */
  lemma SaturatedRepairClearsNewerRequest(h: History, operation: string)
    requires h.health.generation == U64_MAX && h.health.status != Current && h.health.pending == 0
    ensures var begun := Step(h, Begin); var newer := Step(begun, Request(operation));
            var r := Step(newer, Finish(|h.repairs|, true));
            r.health.status == Current && r.dirty && !r.masked
  {
  }

  /** Below the ceiling an older repair never changes what a newer request recorded. */
  lemma OlderRepairIsIgnored(h: History, operation: string, ok: bool)
    requires Tracks(h) && h.health.generation < U64_MAX && h.health.status != Current
    ensures var newer := Step(Step(h, Begin), Request(operation));
            Step(newer, Finish(|h.repairs|, ok)).health == newer.health
  {
  }

  /**
   What a repair achieves: begun when not current and finished before anything
   else happened, it makes the projection current if and only if it succeeded
   and nothing is pending.
   */
  lemma RepairRestoresIff(es: seq<Event>, ok: bool)
    requires Run(es).health.status != Current
    ensures var h := Run(es + [Begin, Finish(|Run(es).repairs|, ok)]);
            && (h.health.status == Current <==> ok && Run(es).health.pending == 0)
            && h.health.generation == Run(es).health.generation && h.health.pending == Run(es).health.pending
            && (ok ==> !h.dirty)
  {
    RunTwo(es, Begin, Finish(|Run(es).repairs|, ok));
  }

  /** A request and a pending transition each make the projection other than current, whatever it was. */
  lemma WorkIsNoticed(es: seq<Event>, operation: string, pending: nat)
    ensures Run(es + [Request(operation)]).health.status != Current
    ensures pending != 0 ==> Run(es + [Observe(pending)]).health.status != Current
    ensures Run(es + [ScanError]).health.status != Current
  {
    hide Step;
    RunOne(es, Request(operation));
    RunOne(es, Observe(pending));
    RunOne(es, ScanError);
    NoticedStep(Run(es), operation, pending);
  }

  lemma NoticedStep(h: History, operation: string, pending: nat)
    ensures Step(h, Request(operation)).health.status != Current && Step(h, ScanError).health.status != Current
    ensures pending != 0 ==> Step(h, Observe(pending)).health.status != Current
  {
  }

  lemma RunOne(es: seq<Event>, e: Event)
    ensures Run(es + [e]) == Step(Run(es), e)
  {
    hide Step;
    assert (es + [e])[..|es|] == es;
  }
}
