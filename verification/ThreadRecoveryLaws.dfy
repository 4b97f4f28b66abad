/** What every turn of the thread pass guarantees, for every store, snapshot, mode and probe. */
module ThreadRecoveryLaws {
  import opened Prelude
  import opened RecoveryStore
  import opened ThreadRecovery

  /** Writes that neither settle the thread nor touch its resume budget. */
  predicate Quiet(e: Effect) {
    e.Observe? || e.ReleaseActive? || e.ClearProcess? || e.ReleaseClaim? || e.ClearWait? || e.StartWait?
  }

  predicate AllQuiet(t: ThreadId, es: seq<Effect>) {
    forall i | 0 <= i < |es| :: Quiet(es[i]) && es[i].t == t
  }

  /**
   A turn settles its own thread at most once: one finalization, one budget
   re-arm or one intent, the intent comes last, and a native resume directly
   follows its own counter bump.
   */
  predicate SettlesOnce(t: ThreadId, es: seq<Effect>) {
    && (forall i | 0 <= i < |es| :: es[i].t == t)
    && (forall i, j | 0 <= i < j < |es| && !Quiet(es[i]) && !Quiet(es[j]) ::
          es[i] == Bump(t) && es[j] == Emit(t, NativeResume))
    && (forall i | 0 <= i < |es| && es[i].Emit? ::
          i == |es| - 1 && (es[i].kind.NativeResume? ==> FollowsBump(t, es, i)))
  }

  /** The write before position i is this thread's counter bump. */
  predicate FollowsBump(t: ThreadId, es: seq<Effect>, i: int)
    requires i < |es|
  {
    i > 0 && es[i - 1] == Bump(t)
  }

  lemma PrependQuiet(t: ThreadId, pre: seq<Effect>, es: seq<Effect>)
    requires AllQuiet(t, pre) && SettlesOnce(t, es)
    ensures SettlesOnce(t, pre + es)
  {
    var all := pre + es;
    forall i | 0 <= i < |all| ensures all[i].t == t {
      if i >= |pre| { assert all[i] == es[i - |pre|]; }
    }
    forall i, j | 0 <= i < j < |all| && !Quiet(all[i]) && !Quiet(all[j])
      ensures all[i] == Bump(t) && all[j] == Emit(t, NativeResume)
    {
      assert i >= |pre|;
      assert es[i - |pre|] == all[i] && es[j - |pre|] == all[j];
    }
    forall i | 0 <= i < |all| && all[i].Emit?
      ensures i == |all| - 1 && (all[i].kind.NativeResume? ==> FollowsBump(t, all, i))
    {
      assert i >= |pre|;
      var j := i - |pre|;
      assert es[j] == all[i];
      if all[i].kind.NativeResume? {
        assert FollowsBump(t, es, j);
        assert es[j - 1] == all[i - 1];
      }
    }
  }

  lemma AuthorityLaw(st: Store, row: ThreadRow, p: Probe)
    ensures SettlesOnce(row.id, AuthorityStage(st, row, p).effects)
    ensures AuthorityStage(st, row, p).flow.Go? ==> AllQuiet(row.id, AuthorityStage(st, row, p).effects)
  {
  }

  lemma ContinuationLaw(st: Store, row: ThreadRow, p: Probe)
    ensures SettlesOnce(row.id, ContinuationFrom(st, row, p).effects)
  {
    assert ContinuationStage(st, row).flow.Go? ==> ContinuationStage(st, row).effects == [];
    assert OwnershipStage(st, row).flow.Go? ==> OwnershipStage(st, row).effects == [];
  }

  lemma ClassifyLaw(st: Store, row: ThreadRow, p: Probe)
    ensures SettlesOnce(row.id, Classify(st, row, p).effects)
  {
    var a := AuthorityStage(st, row, p);
    AuthorityLaw(st, row, p);
    ContinuationLaw(ApplyAll(st, a.effects), row, p);
    if a.flow.Go? {
      PrependQuiet(row.id, a.effects, ContinuationFrom(ApplyAll(st, a.effects), row, p).effects);
    }
  }

  lemma ReleaseLaw(st: Store, row: ThreadRow, claim: Option<Claim>, p: Probe)
    ensures SettlesOnce(row.id, ReleaseFrom(st, row, claim, p).effects)
  {
    var released := ReleaseSnapshot(row, claim);
    ClassifyLaw(ApplyAll(st, released), row, p);
    PrependQuiet(row.id, released, Classify(ApplyAll(st, released), row, p).effects);
  }

  lemma OrphanLaw(st: Store, row: ThreadRow, claim: Option<Claim>, mode: Mode, p: Probe)
    ensures SettlesOnce(row.id, OrphanFrom(st, row, claim, mode, p).effects)
  {
    var o := OrphanStage(st, row, mode, p);
    ReleaseLaw(ApplyAll(st, o.effects), row, claim, p);
    if o.flow.Go? {
      PrependQuiet(row.id, o.effects, ReleaseFrom(ApplyAll(st, o.effects), row, claim, p).effects);
    }
  }

  lemma RecoverLaw(st: Store, row: ThreadRow, claim: Option<Claim>, mode: Mode, p: Probe)
    ensures SettlesOnce(row.id, RecoverFrom(st, row, claim, mode, p).effects)
  {
    if row.stop.Some? {
      StopLaw(st, row, claim, p);
    } else if Terminal(row.status) {
      TerminalLaw(st, row, claim, p);
    } else {
      OrphanLaw(st, row, claim, mode, p);
    }
    hide StopStage, TerminalStage, OrphanFrom, SettlesOnce;
  }

  lemma StopLaw(st: Store, row: ThreadRow, claim: Option<Claim>, p: Probe)
    requires row.stop.Some?
    ensures SettlesOnce(row.id, StopStage(st, row, claim, p).effects)
  {
    hide HasIdentity, ProvenGone;
  }

  lemma TerminalLaw(st: Store, row: ThreadRow, claim: Option<Claim>, p: Probe)
    ensures SettlesOnce(row.id, TerminalStage(st, row, claim, p).effects)
  {
    hide HasIdentity, ProvenGone;
  }

  lemma LiveGateLaw(st: Store, row: ThreadRow, claim: Option<Claim>, mode: Mode, p: Probe)
    ensures AllQuiet(row.id, LiveGate(st, row, claim, mode, p).effects)
  {
  }

  /** One turn settles its thread at most once: never two intents, never an intent and a finalization. */
  lemma TurnSettlesOnce(st: Store, row: ThreadRow, claim: Option<Claim>, blocked: bool,
                        passive: set<string>, mode: Mode, p: Probe)
    ensures SettlesOnce(row.id, ThreadTurn(st, row, claim, blocked, passive, mode, p).effects)
  {
    hide LiveGate, RecoverFrom;
    if !blocked && !DaemonOwned(passive, row) {
      LiveGateLaw(st, row, claim, mode, p);
      var g := LiveGate(st, row, claim, mode, p);
      RecoverLaw(ApplyAll(st, g.effects), row, claim, mode, p);
      PrependQuiet(row.id, g.effects, []);
      assert g.effects + [] == g.effects;
      PrependQuiet(row.id, g.effects, RecoverFrom(ApplyAll(st, g.effects), row, claim, mode, p).effects);
    }
  }

  /** A claim released anywhere in a list is not held after it. */
  lemma {:induction false} ReleasedStaysReleased(st: Store, es: seq<Effect>, t: ThreadId, c: string)
    requires ReleaseClaim(t, c) in es
    ensures !Holds(ApplyAll(st, es), t, c)
    decreases |es|
  {
    var n := |es| - 1;
    if es[n] != ReleaseClaim(t, c) {
      assert ReleaseClaim(t, c) in es[..n];
      ReleasedStaysReleased(st, es[..n], t, c);
    }
  }

  predicate Emits(es: seq<Effect>) {
    exists i | 0 <= i < |es| :: es[i].Emit?
  }

  /** The prerequisites of an intent that the stages before classification establish. */
  ghost predicate Prepared(row: ThreadRow, claim: Option<Claim>, mode: Mode, p: Probe, es: seq<Effect>) {
    && !Terminal(row.status) && row.stop.None?
    && (row.identity.Some? ==>
          && ClearProcess(row.id, row.identity.value) in es
          && ProvenGone(p)
          && (mode.Live? ==> p.group.DeadOrStale?))
    && (claim.Some? ==> ReleaseClaim(row.id, claim.value.id) in es)
  }

  lemma RecoverPrepares(st: Store, row: ThreadRow, claim: Option<Claim>, mode: Mode, p: Probe)
    ensures var es := RecoverFrom(st, row, claim, mode, p).effects;
            Emits(es) ==> Prepared(row, claim, mode, p, es)
  {
    hide OrphanFrom, StopStage, TerminalStage, Prepared, Emits;
    if row.stop.Some? {
      StopIsSilent(st, row, claim, p);
    } else if Terminal(row.status) {
      TerminalIsSilent(st, row, claim, p);
    } else {
      OrphanPrepares(st, row, claim, mode, p);
    }
  }

  lemma StopIsSilent(st: Store, row: ThreadRow, claim: Option<Claim>, p: Probe)
    requires row.stop.Some?
    ensures !Emits(StopStage(st, row, claim, p).effects)
  {
    hide HasIdentity, ProvenGone;
  }

  lemma TerminalIsSilent(st: Store, row: ThreadRow, claim: Option<Claim>, p: Probe)
    ensures !Emits(TerminalStage(st, row, claim, p).effects)
  {
    hide HasIdentity, ProvenGone;
  }

  lemma OrphanPrepares(st: Store, row: ThreadRow, claim: Option<Claim>, mode: Mode, p: Probe)
    requires row.stop.None? && !Terminal(row.status)
    ensures var es := OrphanFrom(st, row, claim, mode, p).effects;
            Emits(es) ==> Prepared(row, claim, mode, p, es)
  {
    hide Classify, ApplyAll, SafeToClear, HasIdentity;
    var o := OrphanStage(st, row, mode, p);
    var es := OrphanFrom(st, row, claim, mode, p).effects;
    if !o.flow.Go? {
      assert es == o.effects == [];
      return;
    }
    var released := ReleaseSnapshot(row, claim);
    var c := Classify(ApplyAll(ApplyAll(st, o.effects), released), row, p);
    assert es == o.effects + (released + c.effects);
    if row.identity.Some? { assert es[0] == ClearProcess(row.id, row.identity.value); }
    if claim.Some? { assert es[|o.effects|] == ReleaseClaim(row.id, claim.value.id); }
  }

  /**
   Every intent a turn emits is for an unblocked, non-terminal thread without a
   stop request, whose process identity was absent or was cleared earlier in
   the turn after its group was proven gone, and whose snapshot claim is no
   longer held; the intent is the last thing the turn does.
   */
  lemma IntentIsSafe(st: Store, row: ThreadRow, claim: Option<Claim>, blocked: bool,
                     passive: set<string>, mode: Mode, p: Probe)
    ensures var es := ThreadTurn(st, row, claim, blocked, passive, mode, p).effects;
            Emits(es) ==>
            && !blocked && !DaemonOwned(passive, row)
            && Prepared(row, claim, mode, p, es)
            && es[|es| - 1].Emit? && es[|es| - 1].t == row.id
            && (forall i | 0 <= i < |es| :: !es[i].Finalize?)
            && (claim.Some? ==> !Holds(ApplyAll(st, es), row.id, claim.value.id))
  {
    var es := ThreadTurn(st, row, claim, blocked, passive, mode, p).effects;
    TurnSettlesOnce(st, row, claim, blocked, passive, mode, p);
    hide LiveGate, RecoverFrom;
    if !Emits(es) { return; }
    var g := LiveGate(st, row, claim, mode, p);
    LiveGateLaw(st, row, claim, mode, p);
    var r := RecoverFrom(ApplyAll(st, g.effects), row, claim, mode, p);
    assert es == g.effects + r.effects;
    var i :| 0 <= i < |es| && es[i].Emit?;
    assert r.effects[i - |g.effects|] == es[i];
    RecoverPrepares(ApplyAll(st, g.effects), row, claim, mode, p);
    if claim.Some? {
      ReleasedStaysReleased(st, es, row.id, claim.value.id);
    }
  }

  /** The parts of the store that no write of a thread turn changes. */
  predicate SameOwnership(st: Store, r: Store) {
    && r.followEdges == st.followEdges && r.fingerprints == st.fingerprints
    && r.waiters == st.waiters && r.childChains == st.childChains && r.windows == st.windows
    && r.workspaces == st.workspaces && r.roots == st.roots
    && r.threads.Keys == st.threads.Keys
  }

  lemma PutKeepsOwnership(st: Store, t: ThreadId, row: ThreadRow)
    requires t in st.threads
    ensures SameOwnership(st, PutRow(st, t, row))
  {
  }

  lemma ApplyKeepsOwnership(st: Store, e: Effect)
    ensures SameOwnership(st, Apply(st, e))
  {
    if e.t in st.threads {
      forall row ensures SameOwnership(st, PutRow(st, e.t, row)) { PutKeepsOwnership(st, e.t, row); }
    }
    hide PutRow, Released;
  }

  lemma {:induction false} TurnKeepsOwnership(st: Store, es: seq<Effect>)
    ensures SameOwnership(st, ApplyAll(st, es))
    decreases |es|
  {
    hide Apply;
    if es != [] {
      ApplyKeepsOwnership(ApplyAll(st, es[..|es| - 1]), es[|es| - 1]);
      TurnKeepsOwnership(st, es[..|es| - 1]);
    }
  }

  /** The stored row is this non-terminal, unstopped thread and nobody holds its claim. */
  predicate Unowned(st: Store, row: ThreadRow) {
    && row.id in st.threads && row.id !in st.claims
    && st.threads[row.id].status == row.status && !Terminal(row.status)
    && st.threads[row.id].stop.None?
  }

  /** How a thread that lost its process is accounted for when its turn ends. */
  ghost predicate Accounted(st: Store, row: ThreadRow, es: seq<Effect>) {
    var r := ApplyAll(st, es);
    || Emits(es)
    || (row.id in r.threads && Terminal(r.threads[row.id].status))
    || (row.id in r.threads && r.threads[row.id].wait.Some?)
    || FollowSuccessor(st, row)
    || PendingFollowChild(st, row)
    || (row.status.Created? && Queued(st, row.chainRoot))
    || (exists i | 0 <= i < |es| :: es[i].Reset?)
  }

  lemma WaitKeepsUnowned(st: Store, row: ThreadRow, e: Effect)
    requires Unowned(st, row) && e.t == row.id && (e.ClearWait? || e.StartWait? || e.ClearProcess?)
    ensures Unowned(Apply(st, e), row)
    ensures e.StartWait? ==> Apply(st, e).threads[row.id].wait.Some?
  {
  }

  lemma FailedIsTerminal(st: Store, row: ThreadRow)
    requires Unowned(st, row)
    ensures var r := Apply(st, Finalize(row.id, Failed));
            && row.id in r.threads && Terminal(r.threads[row.id].status)
            && var w := Apply(r, ClearWait(row.id)); row.id in w.threads && Terminal(w.threads[row.id].status)
  {
  }

  /** One waiting write, then the refusal or finalization that settles the thread. */
  lemma WaitThenSettle(st: Store, row: ThreadRow, w: Effect, last: Effect)
    requires Unowned(st, row) && w.t == row.id && (w.ClearWait? || w.StartWait?)
    requires last == Finalize(row.id, Failed) || last == Reset(row.id)
    ensures Accounted(st, row, [w, last]) && Accounted(st, row, [w, last, ClearWait(row.id)])
  {
    ApplyShort(st, w, last, ClearWait(row.id));
    WaitKeepsUnowned(st, row, w);
    FailedIsTerminal(Apply(st, w), row);
    assert [w, last][1] == last && [w, last, ClearWait(row.id)][1] == last;
    hide Apply, ApplyAll;
  }

  lemma WaitAlone(st: Store, row: ThreadRow, deadline: int)
    requires Unowned(st, row)
    ensures Unowned(ApplyAll(st, []), row) && Unowned(ApplyAll(st, [ClearWait(row.id)]), row)
    ensures Accounted(st, row, [StartWait(row.id, deadline)])
  {
    var clear, start := ClearWait(row.id), StartWait(row.id, deadline);
    ApplyNothing(st);
    ApplyShort(st, clear, clear, clear);
    ApplyShort(st, start, clear, clear);
    WaitKeepsUnowned(st, row, clear);
    WaitKeepsUnowned(st, row, start);
    hide Unowned, Apply, ApplyAll, Emits, FollowSuccessor, PendingFollowChild, Queued;
    assert row.id in Apply(st, start).threads by { StartedIsThere(st, row, deadline); }
  }

  lemma StartedIsThere(st: Store, row: ThreadRow, deadline: int)
    requires Unowned(st, row)
    ensures row.id in Apply(st, StartWait(row.id, deadline)).threads
  {
  }

  lemma UnownedMeans(st: Store, row: ThreadRow)
    requires Unowned(st, row)
    ensures row.id !in st.claims && row.id in st.threads && !Terminal(st.threads[row.id].status)
  {
  }

  lemma AuthorityAccounts(st: Store, row: ThreadRow, p: Probe)
    requires Unowned(st, row)
    ensures var a := AuthorityStage(st, row, p);
            && (a.flow.Leave? ==> Accounted(st, row, a.effects))
            && (a.flow.Go? ==> Unowned(ApplyAll(st, a.effects), row))
  {
    hide Apply, ApplyAll, Accounted, Unowned;
    var clear, start := ClearWait(row.id), StartWait(row.id, SatAdd(p.now, PROJECT_AUTHORITY_WAIT_MS));
    var f, x := Finalize(row.id, Failed), Reset(row.id);
    WaitThenSettle(st, row, clear, f);
    WaitThenSettle(st, row, clear, x);
    WaitThenSettle(st, row, start, f);
    WaitThenSettle(st, row, start, x);
    WaitAlone(st, row, SatAdd(p.now, PROJECT_AUTHORITY_WAIT_MS));
    UnownedMeans(st, row);
    assert [clear] + [f] == [clear, f] && [clear] + [x] == [clear, x];
    assert [start] + [f] + [clear] == [start, f, clear] && [start] + [x] + [clear] == [start, x, clear];
  }

  lemma ContinuationAccounts(st: Store, row: ThreadRow, p: Probe)
    requires Unowned(st, row)
    ensures var c := ContinuationFrom(st, row, p);
            c.flow.Abort? || Accounted(st, row, c.effects)
  {
    var c := ContinuationFrom(st, row, p);
    ApplyShort(st, Finalize(row.id, Failed), Bump(row.id), Bump(row.id));
    assert |c.effects| == 1 ==> c.effects == [c.effects[0]];
    assert |c.effects| == 2 ==> c.effects[1].Emit?;
    assert c.effects != [Finalize(row.id, Failed)] && !c.flow.Abort? && |c.effects| > 0 ==>
        c.effects[|c.effects| - 1].Emit?;
  }

  lemma AccountedOwners(st: Store, r: Store, row: ThreadRow)
    requires SameOwnership(st, r)
    ensures FollowSuccessor(r, row) == FollowSuccessor(st, row)
    ensures PendingFollowChild(r, row) == PendingFollowChild(st, row)
    ensures Queued(r, row.chainRoot) == Queued(st, row.chainRoot)
  {
  }

  lemma AccountedAfter(st: Store, row: ThreadRow, pre: seq<Effect>, es: seq<Effect>)
    requires Accounted(ApplyAll(st, pre), row, es)
    ensures Accounted(st, row, pre + es)
  {
    ApplyAllAppend(st, pre, es);
    TurnKeepsOwnership(st, pre);
    AccountedOwners(st, ApplyAll(st, pre), row);
    hide ApplyAll, FollowSuccessor, PendingFollowChild, SameOwnership, Queued;
    if Emits(es) {
      var i :| 0 <= i < |es| && es[i].Emit?;
      assert (pre + es)[|pre| + i].Emit?;
    }
    if exists i | 0 <= i < |es| :: es[i].Reset? {
      var i :| 0 <= i < |es| && es[i].Reset?;
      assert (pre + es)[|pre| + i].Reset?;
    }
  }

  lemma ClassifyAccounts(st: Store, row: ThreadRow, p: Probe)
    requires Unowned(st, row)
    ensures var c := Classify(st, row, p);
            c.flow.Abort? || Accounted(st, row, c.effects)
  {
    AuthorityAccounts(st, row, p);
    hide AuthorityStage, ContinuationFrom;
    var a := AuthorityStage(st, row, p);
    if a.flow.Go? {
      var st1 := ApplyAll(st, a.effects);
      ContinuationAccounts(st1, row, p);
      if !ContinuationFrom(st1, row, p).flow.Abort? {
        AccountedAfter(st, row, a.effects, ContinuationFrom(st1, row, p).effects);
      }
    }
  }

  lemma ClearedIsUnowned(st: Store, row: ThreadRow, p: Probe)
    requires row.id in st.threads && st.threads[row.id] == row
    requires !Terminal(row.status) && row.stop.None?
    requires OrphanStage(st, row, Startup, p).flow.Go?
    ensures var st1 := ApplyAll(st, OrphanStage(st, row, Startup, p).effects);
            Unowned(ApplyAll(st1, ReleaseSnapshot(row, Get(st.claims, row.id))), row)
  {
    var o := OrphanStage(st, row, Startup, p);
    var nop := Emit(row.id, NativeResume);
    ApplyShort(st, if row.identity.Some? then o.effects[0] else nop, nop, nop);
    var st1 := ApplyAll(st, o.effects);
    ApplyShort(st1, if row.id in st.claims then ReleaseClaim(row.id, st.claims[row.id].id) else nop, nop, nop);
  }

  /**
   No gap at startup: a non-terminal, unstopped, unblocked executable thread is
   left untouched only when its process could not be proven gone and cleared;
   otherwise the turn emits its intent, settles it, records its authority wait,
   re-arms its budget for shutdown, or leaves it to its follow or window owner.
   */
  lemma StartupTurnAccounts(st: Store, row: ThreadRow, passive: set<string>, p: Probe)
    requires row.id in st.threads && st.threads[row.id] == row
    requires !Terminal(row.status) && row.stop.None? && !DaemonOwned(passive, row)
    ensures var s := ThreadTurn(st, row, Get(st.claims, row.id), false, passive, Startup, p);
            || s.flow.Abort?
            || Accounted(st, row, s.effects)
            || (row.identity.Some? && (!ProvenGone(p) || !p.clearIo) && s.effects == [])
  {
    var claim := Get(st.claims, row.id);
    var s := ThreadTurn(st, row, claim, false, passive, Startup, p);
    var o := OrphanStage(st, row, Startup, p);
    var released := ReleaseSnapshot(row, claim);
    assert ApplyAll(st, []) == st;
    if o.flow.Go? {
      var st1 := ApplyAll(st, o.effects);
      var st2 := ApplyAll(st1, released);
      ClearedIsUnowned(st, row, p);
      hide Classify, Accounted, ApplyAll;
      ClassifyAccounts(st2, row, p);
      var c := Classify(st2, row, p);
      assert [] + s.effects == s.effects;
      assert s.effects == o.effects + (released + c.effects);
      if !c.flow.Abort? {
        AccountedAfter(st1, row, released, c.effects);
        AccountedAfter(st, row, o.effects, released + c.effects);
      }
    }
  }
}
