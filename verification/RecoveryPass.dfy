/** A whole active-thread pass: every listed thread takes its turn on the store the earlier ones left. */
module RecoveryPass {
  import opened Prelude
  import opened RecoveryStore
  import opened ThreadRecovery
  import opened ThreadRecoveryLaws

  /** The writes of a pass in order, and whether it failed before reaching the end. */
  datatype Pass = Pass(log: seq<Effect>, failed: bool)

  /** What a pass is run with: which threads are quarantined, which kinds never execute, the mode. */
  datatype Config = Config(blocked: set<ThreadId>, passive: set<string>, mode: Mode)

  function TurnOf(st: Store, row: ThreadRow, c: Config, p: Probe): Stage {
    ThreadTurn(st, row, Get(st.claims, row.id), row.id in c.blocked, c.passive, c.mode, p)
  }

  function ThreadPass(st: Store, rows: seq<ThreadRow>, c: Config, probes: seq<Probe>): Pass
    requires |probes| == |rows|
    decreases |rows|
  {
    if rows == [] then Pass([], false)
    else
      var turn := TurnOf(st, rows[0], c, probes[0]);
      if turn.flow.Abort? then Pass(turn.effects, true)
      else
        var rest := ThreadPass(ApplyAll(st, turn.effects), rows[1..], c, probes[1..]);
        Pass(turn.effects + rest.log, rest.failed)
  }

  predicate DistinctIds(rows: seq<ThreadRow>) {
    forall i, j | 0 <= i < j < |rows| :: rows[i].id != rows[j].id
  }

  /** Every write is about a listed, unquarantined thread, and each thread is settled at most once. */
  ghost predicate PassLaw(rows: seq<ThreadRow>, c: Config, log: seq<Effect>) {
    && (forall i | 0 <= i < |log| :: log[i].t !in c.blocked && exists r | 0 <= r < |rows| :: rows[r].id == log[i].t)
    && (forall i, j | 0 <= i < j < |log| && log[i].t == log[j].t && !Quiet(log[i]) && !Quiet(log[j]) ::
          log[i] == Bump(log[j].t) && log[j] == Emit(log[j].t, NativeResume))
  }

  lemma TurnLaw(st: Store, row: ThreadRow, c: Config, p: Probe)
    ensures SettlesOnce(row.id, TurnOf(st, row, c, p).effects)
    ensures row.id in c.blocked ==> TurnOf(st, row, c, p).effects == []
  {
    TurnSettlesOnce(st, row, Get(st.claims, row.id), row.id in c.blocked, c.passive, c.mode, p);
    hide LiveGate, RecoverFrom;
  }

  /** In one pass no thread gets two intents, or both an intent and a finalization. */
  lemma {:induction false} PassSettlesOnce(st: Store, rows: seq<ThreadRow>, c: Config, probes: seq<Probe>)
    requires |probes| == |rows| && DistinctIds(rows)
    ensures PassLaw(rows, c, ThreadPass(st, rows, c, probes).log)
    decreases |rows|
  {
    hide TurnOf;
    if rows == [] { return; }
    var turn := TurnOf(st, rows[0], c, probes[0]);
    TurnLaw(st, rows[0], c, probes[0]);
    if !turn.flow.Abort? {
      var rest := ThreadPass(ApplyAll(st, turn.effects), rows[1..], c, probes[1..]);
      PassSettlesOnce(ApplyAll(st, turn.effects), rows[1..], c, probes[1..]);
      JoinPasses(rows, c, turn.effects, rest.log);
    }
  }

  lemma JoinPasses(rows: seq<ThreadRow>, c: Config, first: seq<Effect>, rest: seq<Effect>)
    requires rows != [] && DistinctIds(rows) && SettlesOnce(rows[0].id, first) && PassLaw(rows[1..], c, rest)
    requires rows[0].id in c.blocked ==> first == []
    ensures PassLaw(rows, c, first + rest)
  {
    var log := first + rest;
    forall i | 0 <= i < |log| ensures log[i].t !in c.blocked && exists r | 0 <= r < |rows| :: rows[r].id == log[i].t {
      if i < |first| {
        assert log[i] == first[i] && rows[0].id == log[i].t;
      } else {
        assert log[i] == rest[i - |first|];
        var r :| 0 <= r < |rows[1..]| && rows[1..][r].id == log[i].t;
        assert rows[r + 1].id == log[i].t;
      }
    }
    forall j | 0 <= j < |rest| ensures rest[j].t != rows[0].id {
      var r :| 0 <= r < |rows[1..]| && rows[1..][r].id == rest[j].t;
      assert rows[r + 1].id == rest[j].t;
    }
    forall i, j | 0 <= i < j < |log| && log[i].t == log[j].t && !Quiet(log[i]) && !Quiet(log[j])
      ensures log[i] == Bump(log[j].t) && log[j] == Emit(log[j].t, NativeResume)
    {
      if j < |first| {
        assert first[i] == log[i] && first[j] == log[j];
      } else {
        assert rest[j - |first|] == log[j];
        assert i >= |first|;
        assert rest[i - |first|] == log[i];
      }
    }
  }

  /**
   The log holds one listed thread's whole turn at position k, taken on the store the log had
   reached, and e is in it.
   */
  ghost predicate FromTurn(st: Store, rows: seq<ThreadRow>, c: Config, probes: seq<Probe>, log: seq<Effect>,
                           e: Effect, r: nat, k: nat, es: seq<Effect>)
    requires |probes| == |rows|
  {
    && r < |rows| && k + |es| <= |log| && rows[r].id == e.t
    && es == TurnOf(ApplyAll(st, log[..k]), rows[r], c, probes[r]).effects
    && log[k..k + |es|] == es && e in es
  }

  lemma {:induction false} FindTurn(st: Store, rows: seq<ThreadRow>, c: Config, probes: seq<Probe>, e: Effect)
    returns (r: nat, k: nat, es: seq<Effect>)
    requires |probes| == |rows| && e in ThreadPass(st, rows, c, probes).log
    ensures FromTurn(st, rows, c, probes, ThreadPass(st, rows, c, probes).log, e, r, k, es)
    decreases |rows|
  {
    hide TurnOf, ApplyAll, FromTurn;
    var turn := TurnOf(st, rows[0], c, probes[0]).effects;
    var log := ThreadPass(st, rows, c, probes).log;
    assert turn <= log;
    if e in turn {
      FirstTurn(st, rows, c, probes, log, e);
      r, k, es := 0, 0, turn;
    } else {
      var st1 := ApplyAll(st, turn);
      var rest := ThreadPass(st1, rows[1..], c, probes[1..]).log;
      assert log == turn + rest;
      var r1, k1, es1 := FindTurn(st1, rows[1..], c, probes[1..], e);
      hide ThreadPass;
      LaterTurn(st, rows, c, probes, turn, rest, e, r1, k1, es1);
      r, k, es := r1 + 1, k1 + |turn|, es1;
    }
  }

  lemma FirstTurn(st: Store, rows: seq<ThreadRow>, c: Config, probes: seq<Probe>, log: seq<Effect>, e: Effect)
    requires |probes| == |rows| > 0
    requires var es := TurnOf(st, rows[0], c, probes[0]).effects; es <= log && e in es
    ensures FromTurn(st, rows, c, probes, log, e, 0, 0, TurnOf(st, rows[0], c, probes[0]).effects)
  {
    TurnLaw(st, rows[0], c, probes[0]);
    hide TurnOf;
    assert log[..0] == [] && ApplyAll(st, []) == st;
    hide ApplyAll;
  }

  /** A turn found in the rest of a pass stands, shifted, in the whole log. */
  lemma LaterTurn(st: Store, rows: seq<ThreadRow>, c: Config, probes: seq<Probe>, first: seq<Effect>, rest: seq<Effect>,
                  e: Effect, r: nat, k: nat, es: seq<Effect>)
    requires |probes| == |rows| > 0
    requires FromTurn(ApplyAll(st, first), rows[1..], c, probes[1..], rest, e, r, k, es)
    ensures FromTurn(st, rows, c, probes, first + rest, e, r + 1, k + |first|, es)
  {
    hide TurnOf, ApplyAll;
    Shifted(first, rest, k, |es|);
    ApplyAllAppend(st, first, rest[..k]);
    assert rows[1..][r] == rows[r + 1] && probes[1..][r] == probes[r + 1];
  }

  lemma Shifted(first: seq<Effect>, rest: seq<Effect>, k: nat, n: nat)
    requires k + n <= |rest|
    ensures var log := first + rest; var at := k + |first|;
            log[..at] == first + rest[..k] && log[at..at + n] == rest[k..k + n]
  {
    var log, at := first + rest, k + |first|;
    var a, b := log[at..at + n], rest[k..k + n];
    assert forall i | 0 <= i < n :: a[i] == b[i];
  }

  /** An identity cleared anywhere in a list is not attached after it. */
  lemma {:induction false} ClearedStaysCleared(st: Store, es: seq<Effect>, t: ThreadId, identity: ProcessIdentity)
    requires ClearProcess(t, identity) in es
    ensures !HasIdentity(ApplyAll(st, es), t, identity)
    decreases |es|
  {
    var n := |es| - 1;
    if es[n] != ClearProcess(t, identity) {
      assert ClearProcess(t, identity) in es[..n];
      ClearedStaysCleared(st, es[..n], t, identity);
      NoWriteAttaches(ApplyAll(st, es[..n]), es[n], t, identity);
    }
  }

  lemma NoWriteAttaches(st: Store, e: Effect, t: ThreadId, identity: ProcessIdentity)
    requires !HasIdentity(st, t, identity)
    ensures !HasIdentity(Apply(st, e), t, identity)
  {
  }

  /**
   Every intent of a pass is the end of one listed thread's turn, whole and in
   place in the pass's log.  The thread is unblocked, executable, non-terminal
   and without a stop request; its group was proven gone if it had an identity;
   and in the store the pass has reached at that point neither its listed
   identity nor the claim its turn read is held any more.
   */
  lemma PassIntentIsSafe(st: Store, rows: seq<ThreadRow>, c: Config, probes: seq<Probe>, e: Effect)
    returns (r: nat, k: nat, es: seq<Effect>)
    requires |probes| == |rows| && e.Emit? && e in ThreadPass(st, rows, c, probes).log
    ensures var log := ThreadPass(st, rows, c, probes).log;
            && FromTurn(st, rows, c, probes, log, e, r, k, es)
            && rows[r].id !in c.blocked && !DaemonOwned(c.passive, rows[r])
            && var claim := Get(ApplyAll(st, log[..k]).claims, rows[r].id);
               var after := ApplyAll(st, log[..k + |es|]);
               && Prepared(rows[r], claim, c.mode, probes[r], es)
               && es[|es| - 1] == e && log[k + |es| - 1] == e
               && (rows[r].identity.Some? ==> !HasIdentity(after, e.t, rows[r].identity.value))
               && (claim.Some? ==> !Holds(after, e.t, claim.value.id))
  {
    r, k, es := FindTurn(st, rows, c, probes, e);
    var log := ThreadPass(st, rows, c, probes).log;
    hide ThreadPass, TurnOf, ApplyAll, DaemonOwned, Prepared, HasIdentity, Holds, FromTurn;
    TurnInPlace(st, rows, c, probes, log, e, r, k, es);
    TurnIntent(ApplyAll(st, log[..k]), rows[r], c, probes[r], e);
  }

  lemma TurnInPlace(st: Store, rows: seq<ThreadRow>, c: Config, probes: seq<Probe>, log: seq<Effect>,
                    e: Effect, r: nat, k: nat, es: seq<Effect>)
    requires |probes| == |rows| && FromTurn(st, rows, c, probes, log, e, r, k, es)
    ensures r < |rows| && rows[r].id == e.t && e in es && 0 < |es| && k + |es| <= |log|
    ensures es == TurnOf(ApplyAll(st, log[..k]), rows[r], c, probes[r]).effects
    ensures ApplyAll(st, log[..k + |es|]) == ApplyAll(ApplyAll(st, log[..k]), es)
    ensures log[k + |es| - 1] == es[|es| - 1]
  {
    hide TurnOf, ApplyAll;
    Rejoined(log, k, |es|);
    ApplyAllAppend(st, log[..k], es);
  }

  lemma Rejoined(log: seq<Effect>, k: nat, n: nat)
    requires k + n <= |log|
    ensures log[..k + n] == log[..k] + log[k..k + n]
    ensures n > 0 ==> log[k + n - 1] == log[k..k + n][n - 1]
  {
  }

  /** What an intent says about the turn it ends and the store that turn leaves. */
  lemma TurnIntent(s: Store, row: ThreadRow, c: Config, p: Probe, e: Effect)
    requires e.Emit? && e in TurnOf(s, row, c, p).effects && e.t == row.id
    ensures var es := TurnOf(s, row, c, p).effects; var claim := Get(s.claims, row.id); var after := ApplyAll(s, es);
            && row.id !in c.blocked && !DaemonOwned(c.passive, row) && Prepared(row, claim, c.mode, p, es)
            && es[|es| - 1] == e
            && (row.identity.Some? ==> !HasIdentity(after, e.t, row.identity.value))
            && (claim.Some? ==> !Holds(after, e.t, claim.value.id))
  {
    hide ThreadTurn, ApplyAll, HasIdentity, Holds, DaemonOwned;
    var es, claim := TurnOf(s, row, c, p).effects, Get(s.claims, row.id);
    var i :| 0 <= i < |es| && es[i] == e;
    assert Emits(es);
    TurnLaw(s, row, c, p);
    IntentIsSafe(s, row, claim, row.id in c.blocked, c.passive, c.mode, p);
    if row.identity.Some? { ClearedStaysCleared(s, es, e.t, row.identity.value); }
  }
}
