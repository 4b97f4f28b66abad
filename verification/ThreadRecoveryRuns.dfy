/**
 Claims about whole runs: any interleaving of thread turns, each cut short by a
 crash after any number of its durable writes, with whatever the rest of the
 system does to the store in between.
 */
module ThreadRecoveryRuns {
  import opened Prelude
  import opened RecoveryStore
  import opened ThreadRecovery
  import opened ThreadRecoveryLaws

  datatype Event =
    | Turn(row: ThreadRow, claim: Option<Claim>, blocked: bool, passive: set<string>, mode: Mode, p: Probe, cut: nat)
    | ResetBudget(t: ThreadId)   // a shutdown drain or launcher re-arms the budget
    | Other(next: Store)         // any other task writes the store

  /** The durable store and, per thread, the native-resume intents since its last budget reset. */
  datatype History = History(store: Store, native: map<ThreadId, nat>)

  function Count(native: map<ThreadId, nat>, t: ThreadId): nat {
    if t in native then native[t] else 0
  }

  function Tally(native: map<ThreadId, nat>, e: Effect): map<ThreadId, nat> {
    match e
    case Emit(t, NativeResume) => native[t := Count(native, t) + 1]
    case Reset(t) => native[t := 0]
    case _ => native
  }

  function TallyAll(native: map<ThreadId, nat>, es: seq<Effect>): map<ThreadId, nat> {
    if es == [] then native else Tally(TallyAll(native, es[..|es| - 1]), es[|es| - 1])
  }

  /** The writes that land before the crash. */
  function Executed(st: Store, ev: Event): seq<Effect>
    requires ev.Turn?
  {
    var es := ThreadTurn(st, ev.row, ev.claim, ev.blocked, ev.passive, ev.mode, ev.p).effects;
    if ev.cut < |es| then es[..ev.cut] else es
  }

  function Step(h: History, ev: Event): History {
    match ev
    case Turn(_, _, _, _, _, _, _) =>
      History(ApplyAll(h.store, Executed(h.store, ev)), TallyAll(h.native, Executed(h.store, ev)))
    case ResetBudget(t) => History(Apply(h.store, Reset(t)), h.native[t := 0])
    case Other(next) => History(next, h.native)
  }

  /** Other tasks never lower a resume counter, and keep it within its u32 column. */
  ghost predicate Enabled(h: History, ev: Event) {
    ev.Other? ==> forall t :: Attempts(h.store, t) <= Attempts(ev.next, t) <= U32_MAX
  }

  function Run(h: History, run: seq<Event>): History {
    if run == [] then h else Step(Run(h, run[..|run| - 1]), run[|run| - 1])
  }

  ghost predicate ValidRun(h: History, run: seq<Event>) {
    forall i | 0 <= i < |run| :: Enabled(Run(h, run[..i]), run[i])
  }

  function PolicyMax(row: ThreadRow): nat {
    if row.metadata.Some? && row.metadata.value.nativeResume.Some? then row.metadata.value.nativeResume.value else 0
  }

  // ----- The resume budget -----

  /** A bump happens only below the policy maximum. */
  predicate Budgeted(st: Store, row: ThreadRow, es: seq<Effect>) {
    (exists i | 0 <= i < |es| :: es[i].Bump?) ==> row.id in st.threads && AttemptsRead(st, row.id) < PolicyMax(row)
  }

  lemma QuietKeepsAttempts(st: Store, es: seq<Effect>, t: ThreadId)
    requires AllQuiet(t, es)
    ensures Attempts(ApplyAll(st, es), t) == Attempts(st, t)
    ensures t in ApplyAll(st, es).threads <==> t in st.threads
  {
  }

  lemma PrependBudgeted(st: Store, row: ThreadRow, pre: seq<Effect>, es: seq<Effect>)
    requires AllQuiet(row.id, pre) && Budgeted(ApplyAll(st, pre), row, es)
    ensures Budgeted(st, row, pre + es)
  {
    QuietKeepsAttempts(st, pre, row.id);
    if exists i | 0 <= i < |pre + es| :: (pre + es)[i].Bump? {
      var i :| 0 <= i < |pre + es| && (pre + es)[i].Bump?;
      assert es[i - |pre|].Bump?;
    }
  }

  lemma ContinuationBudgeted(st: Store, row: ThreadRow, p: Probe)
    ensures Budgeted(st, row, ContinuationFrom(st, row, p).effects)
  {
  }

  lemma ClassifyBudgeted(st: Store, row: ThreadRow, p: Probe)
    ensures Budgeted(st, row, Classify(st, row, p).effects)
  {
    hide ApplyAll, ContinuationFrom;
    var a := AuthorityStage(st, row, p);
    AuthorityLaw(st, row, p);
    if a.flow.Go? {
      hide AuthorityStage;
      ContinuationBudgeted(ApplyAll(st, a.effects), row, p);
      PrependBudgeted(st, row, a.effects, ContinuationFrom(ApplyAll(st, a.effects), row, p).effects);
    }
  }

  lemma RecoverBudgeted(st: Store, row: ThreadRow, claim: Option<Claim>, mode: Mode, p: Probe)
    ensures Budgeted(st, row, RecoverFrom(st, row, claim, mode, p).effects)
  {
    hide Classify, ApplyAll;
    if row.stop.None? && !Terminal(row.status) {
      var o := OrphanStage(st, row, mode, p);
      var released := ReleaseSnapshot(row, claim);
      var st1 := ApplyAll(st, o.effects);
      ClassifyBudgeted(ApplyAll(st1, released), row, p);
      PrependBudgeted(st1, row, released, Classify(ApplyAll(st1, released), row, p).effects);
      if o.flow.Go? {
        PrependBudgeted(st, row, o.effects, released + Classify(ApplyAll(st1, released), row, p).effects);
      }
    }
  }

  lemma TurnBudgeted(st: Store, row: ThreadRow, claim: Option<Claim>, blocked: bool,
                     passive: set<string>, mode: Mode, p: Probe)
    ensures Budgeted(st, row, ThreadTurn(st, row, claim, blocked, passive, mode, p).effects)
  {
    hide LiveGate, RecoverFrom, ApplyAll;
    if !blocked && !DaemonOwned(passive, row) {
      LiveGateLaw(st, row, claim, mode, p);
      var g := LiveGate(st, row, claim, mode, p);
      RecoverBudgeted(ApplyAll(st, g.effects), row, claim, mode, p);
      PrependBudgeted(st, row, g.effects, RecoverFrom(ApplyAll(st, g.effects), row, claim, mode, p).effects);
    }
  }

  /** Emitted intents never outnumber the durable counter, nor the policy bound. */
  predicate WithinBudget(h: History, t: ThreadId, max: nat) {
    Count(h.native, t) <= Attempts(h.store, t) <= U32_MAX && Count(h.native, t) <= max
  }

  lemma OtherThread(st: Store, native: map<ThreadId, nat>, e: Effect, t: ThreadId)
    requires e.t != t || Quiet(e) || e.Finalize? || (e.Emit? && !e.kind.NativeResume?)
    ensures Attempts(Apply(st, e), t) == Attempts(st, t) && Count(Tally(native, e), t) == Count(native, t)
  {
  }

  lemma BudgetSteps(st: Store, native: map<ThreadId, nat>, t: ThreadId)
    ensures t in st.threads ==> Attempts(Apply(st, Bump(t)), t) == Attempts(st, t) + 1
    ensures Count(Tally(native, Bump(t)), t) == Count(native, t)
    ensures Apply(st, Emit(t, NativeResume)) == st
    ensures Count(Tally(native, Emit(t, NativeResume)), t) == Count(native, t) + 1
    ensures Attempts(Apply(st, Reset(t)), t) == 0 && Count(Tally(native, Reset(t)), t) == 0
  {
  }

  lemma UnfoldPrefix(st: Store, native: map<ThreadId, nat>, es: seq<Effect>, k: nat)
    requires 0 < k <= |es|
    ensures ApplyAll(st, es[..k]) == Apply(ApplyAll(st, es[..k - 1]), es[k - 1])
    ensures TallyAll(native, es[..k]) == Tally(TallyAll(native, es[..k - 1]), es[k - 1])
  {
    hide Apply, Tally;
    assert es[..k][..k - 1] == es[..k - 1];
  }

  /** The state a turn has reached after its first k writes. */
  function After(h: History, es: seq<Effect>, k: nat): History
    requires k <= |es|
  {
    History(ApplyAll(h.store, es[..k]), TallyAll(h.native, es[..k]))
  }

  lemma BumpKeepsBudget(h: History, row: ThreadRow, es: seq<Effect>, k: nat, max: nat)
    requires k < |es| && es[k] == Bump(row.id) && SettlesOnce(row.id, es) && Budgeted(h.store, row, es)
    requires WithinBudget(h, row.id, max) && WithinBudget(After(h, es, k), row.id, max)
    requires PolicyMax(row) <= max <= U32_MAX
    ensures WithinBudget(After(h, es, k + 1), row.id, max)
    ensures Count(After(h, es, k + 1).native, row.id) < Attempts(After(h, es, k + 1).store, row.id) <= max
  {
    hide Apply, ApplyAll, Tally, TallyAll, Attempts;
    UnfoldPrefix(h.store, h.native, es, k + 1);
    BudgetSteps(After(h, es, k).store, After(h, es, k).native, row.id);
    QuietKeepsAttempts(h.store, es[..k], row.id);
  }

  lemma NativeKeepsBudget(h: History, es: seq<Effect>, k: nat, t: ThreadId, max: nat)
    requires k < |es| && es[k] == Emit(t, NativeResume)
    requires Count(After(h, es, k).native, t) < Attempts(After(h, es, k).store, t) <= max <= U32_MAX
    ensures WithinBudget(After(h, es, k + 1), t, max)
  {
    hide Apply, ApplyAll, Tally, TallyAll, Attempts;
    UnfoldPrefix(h.store, h.native, es, k + 1);
    BudgetSteps(After(h, es, k).store, After(h, es, k).native, t);
  }

  lemma OtherKeepsBudget(h: History, es: seq<Effect>, k: nat, t: ThreadId, max: nat)
    requires k < |es| && WithinBudget(After(h, es, k), t, max)
    requires var e := es[k]; e.t != t || Quiet(e) || e.Finalize? || e.Reset? || (e.Emit? && !e.kind.NativeResume?)
    ensures WithinBudget(After(h, es, k + 1), t, max)
  {
    hide Apply, ApplyAll, Tally, TallyAll, Attempts;
    UnfoldPrefix(h.store, h.native, es, k + 1);
    if es[k].t == t && es[k].Reset? {
      BudgetSteps(After(h, es, k).store, After(h, es, k).native, t);
    } else {
      OtherThread(After(h, es, k).store, After(h, es, k).native, es[k], t);
    }
  }

  /** What a turn may write at one position. */
  lemma OwnWrite(t: ThreadId, es: seq<Effect>, i: nat)
    requires SettlesOnce(t, es) && i < |es|
    ensures es[i].t == t
  {
  }

  lemma NativeFollowsBump(t: ThreadId, es: seq<Effect>, i: nat)
    requires SettlesOnce(t, es) && i < |es| && es[i] == Emit(t, NativeResume)
    ensures i > 0 && es[i - 1] == Bump(t)
  {
  }

  /** Every prefix of a turn keeps the budget. */
  lemma {:induction false} PrefixKeepsBudget(h: History, row: ThreadRow, es: seq<Effect>, k: nat, t: ThreadId, max: nat)
    requires k <= |es| && SettlesOnce(row.id, es) && Budgeted(h.store, row, es)
    requires WithinBudget(h, t, max) && (row.id == t ==> PolicyMax(row) <= max) && max <= U32_MAX
    ensures WithinBudget(After(h, es, k), t, max)
    decreases k
  {
    if k == 0 { return; }
    hide After, WithinBudget, Budgeted;
    OwnWrite(row.id, es, k - 1);
    hide SettlesOnce;
    PrefixKeepsBudget(h, row, es, k - 1, t, max);
    var e := es[k - 1];
    if e == Bump(t) {
      BumpKeepsBudget(h, row, es, k - 1, max);
    } else if e == Emit(t, NativeResume) {
      NativeFollowsBump(row.id, es, k - 1);
      PrefixKeepsBudget(h, row, es, k - 2, t, max);
      BumpKeepsBudget(h, row, es, k - 2, max);
      NativeKeepsBudget(h, es, k - 1, t, max);
    } else {
      OtherKeepsBudget(h, es, k - 1, t, max);
    }
  }

  lemma StepKeepsBudget(g: History, ev: Event, t: ThreadId, max: nat)
    requires Enabled(g, ev) && WithinBudget(g, t, max) && max <= U32_MAX
    requires ev.Turn? && ev.row.id == t ==> PolicyMax(ev.row) <= max
    ensures WithinBudget(Step(g, ev), t, max)
  {
    hide ThreadTurn;
    if ev.Turn? {
      var es := ThreadTurn(g.store, ev.row, ev.claim, ev.blocked, ev.passive, ev.mode, ev.p).effects;
      TurnSettlesOnce(g.store, ev.row, ev.claim, ev.blocked, ev.passive, ev.mode, ev.p);
      TurnBudgeted(g.store, ev.row, ev.claim, ev.blocked, ev.passive, ev.mode, ev.p);
      PrefixKeepsBudget(g, ev.row, es, if ev.cut < |es| then ev.cut else |es|, t, max);
      assert es[..|es|] == es;
    }
  }

  /**
   The retry budget over whole runs.  Whatever passes, crashes between durable
   writes and other tasks do, the native-resume intents emitted for a thread
   since its budget was last reset never exceed a bound on its declared
   `max_auto_resume_attempts`.
   */
  lemma {:induction false} BudgetNeverExceeded(h: History, run: seq<Event>, t: ThreadId, max: nat)
    requires ValidRun(h, run) && max <= U32_MAX
    requires forall i | 0 <= i < |run| && run[i].Turn? && run[i].row.id == t :: PolicyMax(run[i].row) <= max
    requires Count(h.native, t) == 0 && Attempts(h.store, t) <= U32_MAX
    ensures Count(Run(h, run).native, t) <= max
    ensures WithinBudget(Run(h, run), t, max)
    decreases |run|
  {
    hide Step, Enabled;
    if run == [] { return; }
    var n := |run| - 1;
    var pre := run[..n];
    assert forall i | 0 <= i < n :: pre[..i] == run[..i] && pre[i] == run[i];
    BudgetNeverExceeded(h, pre, t, max);
    var g, ev := Run(h, pre), run[n];
    assert Run(h, run) == Step(g, ev);
    assert Enabled(g, ev);
    StepKeepsBudget(g, ev, t, max);
  }
}
