/**
 When a live sweep may take a launch claim away from an owner that is still
 registered as active: over whole runs of sweeps, crashes and other writes.
 */
module OwnerRevocation {
  import opened Prelude
  import opened RecoveryStore
  import opened ThreadRecovery
  import opened ThreadRecoveryLaws
  import Runs = ThreadRecoveryRuns

  /** One durable observation: this claim's process was seen dead at this time. */
  datatype Sighting = Sighting(t: ThreadId, claimId: string, identity: ProcessIdentity, at: int)

  /** `stampedBy` is the claim that was current when the stored stamp was written. */
  datatype Log = Log(store: Store, sightings: set<Sighting>, stampedBy: map<ThreadId, string>)

  predicate Observes(st: Store, ev: Runs.Event)
    requires ev.Turn?
  {
    ev.claim.Some? && ev.row.identity.Some?
    && Observe(ev.row.id, ev.row.identity.value, ev.p.now) in Runs.Executed(st, ev)
  }

  function Step(g: Log, ev: Runs.Event): Log {
    match ev
    case Turn(row, claim, _, _, _, p, _) =>
      var st := ApplyAll(g.store, Runs.Executed(g.store, ev));
      if Observes(g.store, ev) then
        Log(st,
            g.sightings + {Sighting(row.id, claim.value.id, row.identity.value, p.now)},
            if row.id in g.store.threads && g.store.threads[row.id].deadSeenAt.None?
            then g.stampedBy[row.id := claim.value.id] else g.stampedBy)
      else g.(store := st)
    case ResetBudget(t) => g.(store := Apply(g.store, Reset(t)))
    case Other(next) => g.(store := next)
  }

  /** Only sweeps write the stamp: elsewhere it is kept with its identity, or cleared. */
  ghost predicate Enabled(g: Log, ev: Runs.Event) {
    ev.Other? ==>
      forall t | t in ev.next.threads && ev.next.threads[t].deadSeenAt.Some? ::
        && t in g.store.threads
        && g.store.threads[t].deadSeenAt == ev.next.threads[t].deadSeenAt
        && g.store.threads[t].identity == ev.next.threads[t].identity
  }

  function Run(g: Log, run: seq<Runs.Event>): Log {
    if run == [] then g else Step(Run(g, run[..|run| - 1]), run[|run| - 1])
  }

  ghost predicate ValidRun(g: Log, run: seq<Runs.Event>) {
    forall i | 0 <= i < |run| :: Enabled(Run(g, run[..i]), run[i])
  }

  /** The stamp of one row is backed by a recorded sighting of that row's identity. */
  predicate StampBacked(g: Log, t: ThreadId) {
    t in g.store.threads && g.store.threads[t].deadSeenAt.Some? ==>
      && g.store.threads[t].identity.Some?
      && t in g.stampedBy
      && Sighting(t, g.stampedBy[t], g.store.threads[t].identity.value,
          g.store.threads[t].deadSeenAt.value) in g.sightings
  }

  /** How a list of writes moves a row's stamp: only by observing, only by clearing with the process. */
  predicate StampMoves(before: Store, after: Store, t: ThreadId, seen: Option<Effect>) {
    t in after.threads && after.threads[t].deadSeenAt.Some? ==>
      && t in before.threads
      && after.threads[t].identity == before.threads[t].identity
      && (|| after.threads[t].deadSeenAt == before.threads[t].deadSeenAt
          || (&& before.threads[t].deadSeenAt.None? && seen.Some? && seen.value.Observe? && seen.value.t == t
              && before.threads[t].identity == Some(seen.value.identity)
              && after.threads[t].deadSeenAt == Some(seen.value.at)))
  }

  lemma ApplyStamp(st: Store, e: Effect, t: ThreadId)
    ensures StampMoves(st, Apply(st, e), t, Some(e))
    ensures !e.Observe? ==> StampMoves(st, Apply(st, e), t, None)
  {
    hide PutRow, Released;
    if e.t in st.threads {
      forall row
        ensures Get(PutRow(st, e.t, row).threads, t) == (if t == e.t then Some(row) else Get(st.threads, t))
      {
        PutMoves(st, e.t, row, t);
      }
    }
  }

  /** Writing one row leaves every other row alone. */
  lemma PutMoves(st: Store, at: ThreadId, row: ThreadRow, t: ThreadId)
    ensures Get(PutRow(st, at, row).threads, t) == if t == at then Some(row) else Get(st.threads, t)
  {
  }

  lemma {:induction false} SilentStamp(st: Store, es: seq<Effect>, t: ThreadId)
    requires forall i | 0 <= i < |es| :: !es[i].Observe?
    ensures StampMoves(st, ApplyAll(st, es), t, None)
    decreases |es|
  {
    hide Apply;
    if es != [] {
      SilentStamp(st, es[..|es| - 1], t);
      ApplyStamp(ApplyAll(st, es[..|es| - 1]), es[|es| - 1], t);
    }
  }

  /** A turn observes at most once, as its first write. */
  predicate ObservesFirst(row: ThreadRow, p: Probe, es: seq<Effect>) {
    && (forall i | 0 < i < |es| :: !es[i].Observe?)
    && (|es| > 0 && es[0].Observe? ==> row.identity.Some? && es[0] == Observe(row.id, row.identity.value, p.now))
  }

  predicate Silent(es: seq<Effect>) {
    forall i | 0 <= i < |es| :: !es[i].Observe?
  }

  lemma AuthorityIsSilent(st: Store, row: ThreadRow, p: Probe)
    ensures Silent(AuthorityStage(st, row, p).effects)
  {
    hide SatAdd, Refuse;
  }

  lemma ContinuationIsSilent(st: Store, row: ThreadRow, p: Probe)
    ensures Silent(ContinuationFrom(st, row, p).effects)
  {
    hide PendingFollowChild, PendingAdmittedRoot, DecideResume;
  }

  lemma ClassifyIsSilent(st: Store, row: ThreadRow, p: Probe)
    ensures Silent(Classify(st, row, p).effects)
  {
    hide ApplyAll, AuthorityStage, ContinuationFrom, Silent, Then;
    var a := AuthorityStage(st, row, p);
    AuthorityIsSilent(st, row, p);
    ContinuationIsSilent(ApplyAll(st, a.effects), row, p);
    ThenIsSilent(a, ContinuationFrom(ApplyAll(st, a.effects), row, p));
  }

  lemma RecoverIsSilent(st: Store, row: ThreadRow, claim: Option<Claim>, mode: Mode, p: Probe)
    ensures Silent(RecoverFrom(st, row, claim, mode, p).effects)
  {
    EarlyStagesAreSilent(st, row, claim, mode, p);
    hide ApplyAll, Classify, StopStage, TerminalStage, OrphanStage, ReleaseSnapshot, Then, Silent;
    if row.stop.Some? || Terminal(row.status) { return; }
    var o, released := OrphanStage(st, row, mode, p), ReleaseSnapshot(row, claim);
    var st1 := ApplyAll(st, o.effects);
    var c := Classify(ApplyAll(st1, released), row, p);
    ClassifyIsSilent(ApplyAll(st1, released), row, p);
    ThenIsSilent(Stage(released, Go), c);
    ThenIsSilent(o, Then(Stage(released, Go), c));
  }

  lemma EarlyStagesAreSilent(st: Store, row: ThreadRow, claim: Option<Claim>, mode: Mode, p: Probe)
    ensures row.stop.Some? ==> Silent(StopStage(st, row, claim, p).effects)
    ensures Silent(TerminalStage(st, row, claim, p).effects) && Silent(OrphanStage(st, row, mode, p).effects)
    ensures Silent(ReleaseSnapshot(row, claim))
  {
  }

  lemma ThenIsSilent(first: Stage, rest: Stage)
    requires Silent(first.effects) && Silent(rest.effects)
    ensures Silent(Then(first, rest).effects)
  {
  }

  lemma TurnObservesFirst(st: Store, row: ThreadRow, claim: Option<Claim>, blocked: bool,
                          passive: set<string>, mode: Mode, p: Probe)
    ensures ObservesFirst(row, p, ThreadTurn(st, row, claim, blocked, passive, mode, p).effects)
    ensures claim.None? ==>
              forall e | e in ThreadTurn(st, row, claim, blocked, passive, mode, p).effects :: !e.Observe?
  {
    hide RecoverFrom, ApplyAll;
    var g := LiveGate(st, row, claim, mode, p);
    RecoverIsSilent(ApplyAll(st, g.effects), row, claim, mode, p);
  }

  lemma StepKeepsStamps(g: Log, ev: Runs.Event, t: ThreadId)
    requires StampBacked(g, t) && Enabled(g, ev)
    ensures StampBacked(Step(g, ev), t)
  {
    hide ThreadTurn, Apply, ApplyAll;
    match ev
    case Other(_) =>
    case ResetBudget(u) =>
      ApplyStamp(g.store, Reset(u), t);
    case Turn(row, claim, blocked, passive, mode, p, cut) =>
      TurnObservesFirst(g.store, row, claim, blocked, passive, mode, p);
      var es := Runs.Executed(g.store, ev);
      TurnStamp(g.store, es, row, p, t);
      if Observes(g.store, ev) {
        var i :| 0 <= i < |es| && es[i] == Observe(row.id, row.identity.value, p.now);
        assert i == 0;
      }
  }

  lemma TurnStamp(st: Store, es: seq<Effect>, row: ThreadRow, p: Probe, t: ThreadId)
    requires ObservesFirst(row, p, es)
    ensures StampMoves(st, ApplyAll(st, es), t, if |es| > 0 then Some(es[0]) else None)
  {
    hide Apply;
    if es == [] { return; }
    var rest := es[1..];
    ApplyAllAppend(st, [es[0]], rest);
    assert es == [es[0]] + rest;
    assert ApplyAll(st, [es[0]]) == Apply(st, es[0]) by { ApplyShort(st, es[0], es[0], es[0]); }
    ApplyStamp(st, es[0], t);
    SilentStamp(Apply(st, es[0]), rest, t);
  }

  lemma {:induction false} RunKeepsStamps(g: Log, run: seq<Runs.Event>, t: ThreadId)
    requires StampBacked(g, t) && ValidRun(g, run)
    ensures StampBacked(Run(g, run), t)
    decreases |run|
  {
    hide Step, Enabled, StampBacked;
    if run == [] { return; }
    var pre := run[..|run| - 1];
    assert forall i | 0 <= i < |pre| :: pre[..i] == run[..i] && pre[i] == run[i];
    RunKeepsStamps(g, pre, t);
    StepKeepsStamps(Run(g, pre), run[|run| - 1], t);
  }

  /** The turn takes the snapshot claim away. */
  predicate Revokes(st: Store, ev: Runs.Event)
    requires ev.Turn?
  {
    && ev.claim.Some?
    && (ReleaseActive(ev.row.id, ev.claim.value) in Runs.Executed(st, ev)
        || ReleaseClaim(ev.row.id, ev.claim.value.id) in Runs.Executed(st, ev))
  }

  /** A live sweep that found the claim's owner still registered, and no stop request. */
  predicate SweepsActiveOwner(st: Store, ev: Runs.Event) {
    ev.Turn? && ev.mode.Live? && ev.row.stop.None? && ev.claim.Some? && ev.claim.value.owner in st.activeOwners
  }

  /** The gate opens for this claim: its last write takes the claim away. */
  predicate Opens(st: Store, row: ThreadRow, claim: Claim, p: Probe) {
    && row.identity.Some? && HasIdentity(st, row.id, row.identity.value) && Holds(st, row.id, claim.id)
    && p.target.DeadOrStale? && !p.group.Unavailable?
    && st.threads[row.id].deadSeenAt.Some?
    && SatSub(p.now, st.threads[row.id].deadSeenAt.value) >= SETTLEMENT_GRACE_MS
    && (p.group.Alive? ==> p.liveKill && p.groupAfterKill.DeadOrStale?)
  }

  lemma GateOpens(st: Store, row: ThreadRow, claim: Claim, p: Probe)
    requires claim.owner in st.activeOwners
    ensures var gate := OwnerGate(st, row, Some(claim), p);
            && (gate.flow.Go? <==> Opens(st, row, claim, p))
            && (gate.flow.Go? ==>
                  gate.effects == [Observe(row.id, row.identity.value, p.now), ReleaseActive(row.id, claim)])
            && (!gate.flow.Go? ==> forall e | e in gate.effects :: e.Observe?)
  {
  }

  /** A sweep of an active owner revokes exactly when the gate opens and both of its writes land. */
  lemma RevokesIff(st: Store, ev: Runs.Event)
    requires SweepsActiveOwner(st, ev)
    ensures Revokes(st, ev) <==> !ev.blocked && ev.cut >= 2 && Opens(st, ev.row, ev.claim.value, ev.p)
  {
    hide RecoverFrom, ApplyAll, Opens;
    GateOpens(st, ev.row, ev.claim.value, ev.p);
    OpensNeedsIdentity(st, ev.row, ev.claim.value, ev.p);
    hide OwnerGate;
    var gate := LiveGate(st, ev.row, ev.claim, Live, ev.p);
    var es := ThreadTurn(st, ev.row, ev.claim, ev.blocked, ev.passive, Live, ev.p).effects;
    var done := Runs.Executed(st, ev);
    if Opens(st, ev.row, ev.claim.value, ev.p) && !ev.blocked {
      assert gate.effects <= es && |gate.effects| == 2;
      assert es[1] == gate.effects[1] == ReleaseActive(ev.row.id, ev.claim.value);
      if ev.cut >= 2 {
        assert done[1] == es[1];
      } else {
        assert forall i | 0 <= i < |done| :: done[i] == gate.effects[i] && i == 0;
      }
    } else {
      assert es == [] || es == gate.effects;
    }
  }

  lemma OpensNeedsIdentity(st: Store, row: ThreadRow, claim: Claim, p: Probe)
    ensures Opens(st, row, claim, p) ==> row.identity.Some?
  {
  }

  // ----- The grace of a claim -----

  /** Whoever holds the claim on a stamped row is the one under whom it was stamped. */
  predicate HolderStamped(g: Log, t: ThreadId) {
    t in g.store.threads && g.store.threads[t].deadSeenAt.Some? && t in g.store.claims ==>
      t in g.stampedBy && g.stampedBy[t] == g.store.claims[t].id
  }

  /** The event installs no new claim on a row that carries a stamp. */
  predicate KeepsClaim(st: Store, ev: Runs.Event, t: ThreadId) {
    ev.Other? && t in ev.next.threads && ev.next.threads[t].deadSeenAt.Some? && t in ev.next.claims ==>
      t in st.claims && st.claims[t].id == ev.next.claims[t].id
  }

  ghost predicate ClaimsKept(g: Log, run: seq<Runs.Event>, t: ThreadId) {
    forall i | 0 <= i < |run| :: KeepsClaim(Run(g, run[..i]).store, run[i], t)
  }

  /** Writes of a turn never install a claim. */
  predicate ClaimsShrink(before: Store, after: Store, t: ThreadId) {
    t in after.claims ==> t in before.claims && after.claims[t] == before.claims[t]
  }

  lemma ApplyShrinks(st: Store, e: Effect, t: ThreadId)
    ensures ClaimsShrink(st, Apply(st, e), t)
  {
    hide PutRow;
    if e.t in st.threads {
      forall row ensures PutRow(st, e.t, row).claims == st.claims { PutKeepsClaims(st, e.t, row); }
    }
  }

  lemma PutKeepsClaims(st: Store, t: ThreadId, row: ThreadRow)
    ensures PutRow(st, t, row).claims == st.claims
  {
  }

  lemma {:induction false} TurnShrinks(st: Store, es: seq<Effect>, t: ThreadId)
    ensures ClaimsShrink(st, ApplyAll(st, es), t)
    decreases |es|
  {
    hide Apply;
    if es != [] {
      TurnShrinks(st, es[..|es| - 1], t);
      ApplyShrinks(ApplyAll(st, es[..|es| - 1]), es[|es| - 1], t);
    }
  }

  /** A turn that observes does so while its claim is held. */
  lemma ObservesWhileHeld(st: Store, ev: Runs.Event)
    requires ev.Turn? && Observes(st, ev)
    ensures Holds(st, ev.row.id, ev.claim.value.id)
  {
    hide RecoverFrom, ApplyAll;
    var g := LiveGate(st, ev.row, ev.claim, ev.mode, ev.p);
    RecoverIsSilent(ApplyAll(st, g.effects), ev.row, ev.claim, ev.mode, ev.p);
  }

  lemma StepKeepsHolder(g: Log, ev: Runs.Event, t: ThreadId)
    requires StampBacked(g, t) && HolderStamped(g, t) && Enabled(g, ev) && KeepsClaim(g.store, ev, t)
    ensures HolderStamped(Step(g, ev), t)
  {
    hide ThreadTurn, Apply, ApplyAll;
    match ev
    case Other(_) =>
    case ResetBudget(u) =>
      ApplyStamp(g.store, Reset(u), t);
      ApplyShrinks(g.store, Reset(u), t);
    case Turn(row, claim, blocked, passive, mode, p, cut) =>
      TurnObservesFirst(g.store, row, claim, blocked, passive, mode, p);
      var es := Runs.Executed(g.store, ev);
      TurnStamp(g.store, es, row, p, t);
      TurnShrinks(g.store, es, t);
      if Observes(g.store, ev) { ObservesWhileHeld(g.store, ev); }
  }

  lemma {:induction false} RunKeepsHolder(g: Log, run: seq<Runs.Event>, t: ThreadId)
    requires StampBacked(g, t) && HolderStamped(g, t) && ValidRun(g, run) && ClaimsKept(g, run, t)
    ensures StampBacked(Run(g, run), t) && HolderStamped(Run(g, run), t)
    decreases |run|
  {
    hide Step, Enabled, StampBacked, HolderStamped, KeepsClaim;
    if run == [] { return; }
    var pre := run[..|run| - 1];
    assert forall i | 0 <= i < |pre| :: pre[..i] == run[..i] && pre[i] == run[i];
    RunKeepsHolder(g, pre, t);
    StepKeepsStamps(Run(g, pre), run[|run| - 1], t);
    StepKeepsHolder(Run(g, pre), run[|run| - 1], t);
  }

  /** The sweep's own claim and process were seen dead at some time at least the grace before. */
  predicate SightedLongAgo(g: Log, ev: Runs.Event)
    requires ev.Turn? && ev.claim.Some?
  {
    ev.row.identity.Some? && exists s | s in g.sightings ::
      s.t == ev.row.id && s.claimId == ev.claim.value.id && s.identity == ev.row.identity.value
      && SatSub(ev.p.now, s.at) >= SETTLEMENT_GRACE_MS
  }

  /**
   Over any run, an active owner loses its claim only when the stored stamp for
   the exact attached identity was written by an earlier sweep at least 5000 ms
   before, the target is dead, and the group leader is dead or was killed and
   re-probed dead.  If no event of the run installed a claim on the row while it
   carried a stamp, that sighting is of the very claim that is revoked.
   */
  lemma RevokedOnlyAfterGrace(g: Log, run: seq<Runs.Event>, ev: Runs.Event)
    requires ValidRun(g, run) && SweepsActiveOwner(Run(g, run).store, ev)
    requires StampBacked(g, ev.row.id)
    ensures var r := Run(g, run);
            Revokes(r.store, ev) ==>
            && ev.row.identity.Some? && Holds(r.store, ev.row.id, ev.claim.value.id)
            && HasIdentity(r.store, ev.row.id, ev.row.identity.value)
            && r.store.threads[ev.row.id].deadSeenAt.Some? && ev.row.id in r.stampedBy
            && var at := r.store.threads[ev.row.id].deadSeenAt.value;
               && SatSub(ev.p.now, at) >= SETTLEMENT_GRACE_MS
               && Sighting(ev.row.id, r.stampedBy[ev.row.id], ev.row.identity.value, at) in r.sightings
               && ev.p.target.DeadOrStale?
               && (ev.p.group.DeadOrStale? || (ev.p.liveKill && ev.p.groupAfterKill.DeadOrStale?))
               && (HolderStamped(g, ev.row.id) && ClaimsKept(g, run, ev.row.id) ==>
                     && Sighting(ev.row.id, ev.claim.value.id, ev.row.identity.value, at) in r.sightings
                     && SightedLongAgo(r, ev))
  {
    RunKeepsStamps(g, run, ev.row.id);
    if HolderStamped(g, ev.row.id) && ClaimsKept(g, run, ev.row.id) { RunKeepsHolder(g, run, ev.row.id); }
    hide Run, ClaimsKept;
    RevokesIff(Run(g, run).store, ev);
  }

  /** The claim was seen on this process no later than the stored stamp. */
  predicate SeenByStamp(g: Log, t: ThreadId, claimId: string) {
    t in g.store.threads && g.store.threads[t].identity.Some? && g.store.threads[t].deadSeenAt.Some?
    && exists s | s in g.sightings ::
         s.t == t && s.claimId == claimId && s.identity == g.store.threads[t].identity.value
         && s.at <= g.store.threads[t].deadSeenAt.value
  }

  /** The grace is the claim's own: no sweep, whatever it probes, can revoke it without having seen it long ago. */
  ghost predicate GraceIsOwn(g: Log, t: ThreadId, claim: Claim) {
    forall ev: Runs.Event | SweepsActiveOwner(g.store, ev) && ev.row.id == t && ev.claim.value == claim
                            && Revokes(g.store, ev) :: SightedLongAgo(g, ev)
  }

  /** A live probe that finds the process dead, at a given time and with the given rest of its group. */
  function DeadProbe(now: int, presence: Liveness): Probe {
    Probe(DeadOrStale, DeadOrStale, false, DeadOrStale, false, SameBoot, presence, true, true, true, true,
          Available, false, now)
  }

  /** A sweep that takes a stamped row's claim as soon as the stamp is old enough, whoever else is in the group. */
  lemma StampedRowIsRevoked(st: Store, t: ThreadId, claim: Claim, presence: Liveness)
    returns (ev: Runs.Event)
    requires t in st.threads && st.threads[t].id == t && st.threads[t].identity.Some? && st.threads[t].stop.None?
    requires st.threads[t].deadSeenAt.Some?
    requires I64_MIN <= st.threads[t].deadSeenAt.value <= I64_MAX - SETTLEMENT_GRACE_MS
    requires t in st.claims && st.claims[t] == claim && claim.owner in st.activeOwners
    ensures SweepsActiveOwner(st, ev) && Revokes(st, ev) && ev.row == st.threads[t] && ev.claim == Some(claim)
    ensures ev.p.presence == presence && ev.p.now == st.threads[t].deadSeenAt.value + SETTLEMENT_GRACE_MS
  {
    hide Revokes, ThreadTurn;
    var p := DeadProbe(st.threads[t].deadSeenAt.value + SETTLEMENT_GRACE_MS, presence);
    ev := Runs.Turn(st.threads[t], Some(claim), false, {}, Live, p, 2);
    RevokesIff(st, ev);
  }

  /**
   Exactly when the grace is the claim's own.  On a stamped row whose claim is
   held by an active owner, no sweep can revoke that claim early if and only if
   the claim had been seen on this process by the time of the stamp.
   */
  lemma GraceIsOwnIffSeen(g: Log, t: ThreadId, claim: Claim)
    requires t in g.store.threads && g.store.threads[t].id == t
    requires g.store.threads[t].identity.Some? && g.store.threads[t].stop.None?
    requires g.store.threads[t].deadSeenAt.Some?
    requires I64_MIN <= g.store.threads[t].deadSeenAt.value <= I64_MAX - SETTLEMENT_GRACE_MS
    requires t in g.store.claims && g.store.claims[t] == claim && claim.owner in g.store.activeOwners
    ensures GraceIsOwn(g, t, claim) <==> SeenByStamp(g, t, claim.id)
  {
    hide Revokes, ThreadTurn;
    if GraceIsOwn(g, t, claim) {
      var ev := StampedRowIsRevoked(g.store, t, claim, Alive);
      assert SightedLongAgo(g, ev);
      var s :| s in g.sightings && s.t == t && s.claimId == claim.id && s.identity == ev.row.identity.value
               && SatSub(ev.p.now, s.at) >= SETTLEMENT_GRACE_MS;
      assert s.at <= g.store.threads[t].deadSeenAt.value;
    }
    if SeenByStamp(g, t, claim.id) {
      var s :| s in g.sightings && s.t == t && s.claimId == claim.id
               && s.identity == g.store.threads[t].identity.value && s.at <= g.store.threads[t].deadSeenAt.value;
      forall ev: Runs.Event | SweepsActiveOwner(g.store, ev) && ev.row.id == t && ev.claim.value == claim
          && Revokes(g.store, ev)
        ensures SightedLongAgo(g, ev)
      {
        RevokesIff(g.store, ev);
        assert SatSub(ev.p.now, s.at) >= SETTLEMENT_GRACE_MS;
      }
    }
  }

  lemma RunAppend(g: Log, run: seq<Runs.Event>, ev: Runs.Event)
    requires ValidRun(g, run) && Enabled(Run(g, run), ev)
    ensures ValidRun(g, run + [ev]) && Run(g, run + [ev]) == Step(Run(g, run), ev)
  {
    hide Step, Enabled;
    var all := run + [ev];
    assert all[..|run|] == run;
    assert forall i | 0 <= i < |run| :: all[..i] == run[..i] && all[i] == run[i];
  }

  /**
   The converse over runs: whatever ran before, if another task installs a claim
   never sighted on a row that carries a stamp, the run extends to a sweep that
   revokes that claim, even while other members of the group are present.
   */
  lemma ReplacedClaimLosesGrace(g: Log, run: seq<Runs.Event>, next: Store, t: ThreadId, claim: Claim,
      presence: Liveness)
    returns (ev: Runs.Event)
    requires ValidRun(g, run) && Enabled(Run(g, run), Runs.Other(next))
    requires t in next.threads && next.threads[t].id == t && next.threads[t].identity.Some?
        && next.threads[t].stop.None?
    requires next.threads[t].deadSeenAt.Some?
    requires I64_MIN <= next.threads[t].deadSeenAt.value <= I64_MAX - SETTLEMENT_GRACE_MS
    requires t in next.claims && next.claims[t] == claim && claim.owner in next.activeOwners
    requires forall s | s in Run(g, run).sightings :: !(s.t == t && s.claimId == claim.id)
    ensures var longer := run + [Runs.Other(next)];
            && ValidRun(g, longer) && SweepsActiveOwner(Run(g, longer).store, ev) && ev.claim == Some(claim)
            && Revokes(Run(g, longer).store, ev) && !SightedLongAgo(Run(g, longer), ev)
            && ev.p.presence == presence
  {
    hide Revokes, ThreadTurn, Run;
    RunAppend(g, run, Runs.Other(next));
    ev := StampedRowIsRevoked(next, t, claim, presence);
  }

  function Attached(identity: ProcessIdentity): ThreadRow {
    ThreadRow("t", "t", "tool", "ref", "detached", Running, None, None, Some(7), Some(7), Some(identity),
              None, false, false, None, None, None, 0)
  }

  function Claimed(row: ThreadRow, claim: Claim): Store {
    Store(map["t" := row], map["t" := claim], {claim.owner}, {}, {}, map[], map[], map[], map[], {})
  }

  /** A sweep that sees a dead process for the first time stamps it and leaves. */
  lemma FirstSweepStamps(g: Log, row: ThreadRow, claim: Claim, now: int)
    requires row.identity.Some? && HasIdentity(g.store, row.id, row.identity.value)
    requires Holds(g.store, row.id, claim.id) && claim.owner in g.store.activeOwners
    requires g.store.threads[row.id].deadSeenAt.None? && row.stop.None?
    ensures var r := Step(g, Runs.Turn(row, Some(claim), false, {}, Live, DeadProbe(now, Alive), 1));
            && r.store == g.store.(threads := g.store.threads[row.id :=
                            g.store.threads[row.id].(deadSeenAt := Some(now))])
            && r.sightings == g.sightings + {Sighting(row.id, claim.id, row.identity.value, now)}
  {
    hide RecoverFrom, ApplyAll;
    var e := Observe(row.id, row.identity.value, now);
    var ev := Runs.Turn(row, Some(claim), false, {}, Live, DeadProbe(now, Alive), 1);
    assert OwnerGate(g.store, row, Some(claim), DeadProbe(now, Alive)) == Stage([e], Leave);
    assert Runs.Executed(g.store, ev) == [e];
    ApplyShort(g.store, e, e, e);
  }

  /** Such a run: one sweep stamps under claim A, B replaces A, and the next sweep revokes B unseen. */
  lemma ReplacedClaimExample() returns (g: Log, run: seq<Runs.Event>, ev: Runs.Event)
    ensures ValidRun(g, run) && g.sightings == {} && StampBacked(g, "t") && HolderStamped(g, "t")
    ensures SweepsActiveOwner(Run(g, run).store, ev) && Revokes(Run(g, run).store, ev)
    ensures !SightedLongAgo(Run(g, run), ev) && ev.p.presence.Alive?
  {
    hide Revokes, ThreadTurn, ApplyAll, Run;
    var row := Attached(ProcessIdentity("boot", 7, 1, 7, 1));
    var a, b := Claim("A", "owner-a"), Claim("B", "owner-b");
    g := Log(Claimed(row, a), {}, map[]);
    var first := Runs.Turn(row, Some(a), false, {}, Live, DeadProbe(0, Alive), 1);
    FirstSweepStamps(g, row, a, 0);
    assert ValidRun(g, []) && Run(g, []) == g by { EmptyRun(g); }
    RunAppend(g, [], first);
    assert [] + [first] == [first];
    var next := Claimed(row.(deadSeenAt := Some(0)), b);
    ev := ReplacedClaimLosesGrace(g, [first], next, "t", b, Alive);
    run := [first] + [Runs.Other(next)];
  }

  lemma EmptyRun(g: Log)
    ensures ValidRun(g, []) && Run(g, []) == g
  {
  }

  // ----- What the sweep does about the rest of the group -----

  /** Whether an active owner is revoked does not depend on who else is in the process group. */
  lemma RevocationIgnoresPresence(st: Store, ev: Runs.Event, presence: Liveness)
    requires SweepsActiveOwner(st, ev)
    ensures var other := ev.(p := ev.p.(presence := presence));
            SweepsActiveOwner(st, other) && (Revokes(st, other) <==> Revokes(st, ev))
  {
    hide Revokes, ThreadTurn;
    RevokesIff(st, ev);
    RevokesIff(st, ev.(p := ev.p.(presence := presence)));
  }

  /**
   What the remaining members do decide: on a live thread, a revoking sweep goes
   on to clear the process (and so to settle or resume the thread) exactly when
   the leader was found dead without a kill and no member is left, or another
   boot is proven.  Otherwise it takes the claim and stops.
   */
  lemma MembersStopTheSweep(st: Store, ev: Runs.Event)
    requires SweepsActiveOwner(st, ev) && Revokes(st, ev) && !Terminal(ev.row.status)
    ensures var es := ThreadTurn(st, ev.row, ev.claim, ev.blocked, ev.passive, Live, ev.p).effects;
            var gone := ev.p.group.DeadOrStale? && SafeToClear(ev.p) && ev.p.clearIo;
            && (ClearProcess(ev.row.id, ev.row.identity.value) in es <==> gone)
            && (|es| > 2 <==> gone)
  {
    RevokesIff(st, ev);
    hide Revokes;
    GateOpens(st, ev.row, ev.claim.value, ev.p);
    hide OwnerGate, ReleaseFrom, Apply;
    var gate := LiveGate(st, ev.row, ev.claim, Live, ev.p);
    assert |gate.effects| == 2 && gate.flow.Go?;
    var s := ApplyAll(st, gate.effects);
    assert HasIdentity(s, ev.row.id, ev.row.identity.value) by { GateKeepsIdentity(st, ev.row, ev.claim.value, ev.p); }
    hide ApplyAll;
    var rest := RecoverFrom(s, ev.row, ev.claim, Live, ev.p).effects;
    var es := ThreadTurn(st, ev.row, ev.claim, ev.blocked, ev.passive, Live, ev.p).effects;
    assert es == gate.effects + rest;
    var gone := ev.p.group.DeadOrStale? && SafeToClear(ev.p) && ev.p.clearIo;
    if gone {
      assert rest[0] == ClearProcess(ev.row.id, ev.row.identity.value);
      assert es[2] == rest[0];
    } else {
      assert rest == [];
      assert es == gate.effects;
    }
  }

  lemma GateKeepsIdentity(st: Store, row: ThreadRow, claim: Claim, p: Probe)
    requires Opens(st, row, claim, p)
    ensures HasIdentity(ApplyAll(st, [Observe(row.id, row.identity.value, p.now), ReleaseActive(row.id, claim)]),
                        row.id, row.identity.value)
  {
    var seen, taken := Observe(row.id, row.identity.value, p.now), ReleaseActive(row.id, claim);
    ApplyShort(st, seen, taken, taken);
  }
}
