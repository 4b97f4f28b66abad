/** Whom a whole active-thread pass resumes and finalizes: the table of one turn, lifted to every listed row. */
module PassDispositions {
  import opened Prelude
  import opened RecoveryStore
  import opened ThreadRecovery
  import opened ThreadRecoveryLaws
  import opened ThreadDispositions
  import opened RecoveryPass

  /** The rows are the listed part of the store. */
  ghost predicate Listed(st: Store, rows: seq<ThreadRow>) {
    forall r | 0 <= r < |rows| :: rows[r].id in st.threads && st.threads[rows[r].id] == rows[r]
  }

  /** No write of the list settles a thread as continued. */
  predicate NeverContinues(es: seq<Effect>) {
    forall i | 0 <= i < |es| && es[i].Finalize? :: es[i].status != Continued
  }

  lemma TurnNeverContinues(st: Store, row: ThreadRow, c: Config, p: Probe)
    ensures NeverContinues(TurnOf(st, row, c, p).effects)
  {
    hide LiveGate, RecoverFrom, ApplyAll, DaemonOwned;
    var claim := Get(st.claims, row.id);
    var g := LiveGate(st, row, claim, c.mode, p);
    LiveGateLaw(st, row, claim, c.mode, p);
    RecoverNeverContinues(ApplyAll(st, g.effects), row, claim, c.mode, p);
  }

  lemma RecoverNeverContinues(st: Store, row: ThreadRow, claim: Option<Claim>, mode: Mode, p: Probe)
    ensures NeverContinues(RecoverFrom(st, row, claim, mode, p).effects)
  {
    hide Classify, ApplyAll, ProvenGone, HasIdentity;
    if row.stop.None? && !Terminal(row.status) {
      var st1 := ApplyAll(st, OrphanStage(st, row, mode, p).effects);
      ClassifyNeverContinues(ApplyAll(st1, ReleaseSnapshot(row, claim)), row, p);
    }
  }

  lemma ClassifyNeverContinues(st: Store, row: ThreadRow, p: Probe)
    requires !Terminal(row.status)
    ensures NeverContinues(Classify(st, row, p).effects)
  {
    hide ContinuationFrom, ApplyAll;
    var st1 := ApplyAll(st, AuthorityStage(st, row, p).effects);
    ContinuationFinalizes(st1, row, p);
  }

  lemma {:induction false} PassNeverContinues(st: Store, rows: seq<ThreadRow>, c: Config, probes: seq<Probe>)
    requires |probes| == |rows|
    ensures NeverContinues(ThreadPass(st, rows, c, probes).log)
    decreases |rows|
  {
    hide TurnOf, ApplyAll;
    if rows == [] { return; }
    var turn := TurnOf(st, rows[0], c, probes[0]);
    TurnNeverContinues(st, rows[0], c, probes[0]);
    if !turn.flow.Abort? { PassNeverContinues(ApplyAll(st, turn.effects), rows[1..], c, probes[1..]); }
  }

  /** What a continuation reads of its upstream: whom it names, and that it settled as continued. */
  predicate SameSource(a: ThreadRow, b: ThreadRow) {
    b.successor == a.successor && (b.status.Continued? ==> a.status.Continued?)
  }

  lemma PutKeepsSource(st: Store, at: ThreadId, row: ThreadRow, u: ThreadId)
    requires at in st.threads && u in st.threads && SameSource(st.threads[at], row)
    ensures u in PutRow(st, at, row).threads && SameSource(st.threads[u], PutRow(st, at, row).threads[u])
  {
  }

  lemma ApplyKeepsSource(st: Store, e: Effect, u: ThreadId)
    requires u in st.threads && (e.Finalize? ==> e.status != Continued)
    ensures u in Apply(st, e).threads && SameSource(st.threads[u], Apply(st, e).threads[u])
  {
    hide PutRow, Released;
    if e.t !in st.threads { return; }
    var row := st.threads[e.t];
    match e {
      case Observe(_, _, at) => PutKeepsSource(st, e.t, row.(deadSeenAt := Some(at)), u);
      case ClearProcess(_, _) =>
        PutKeepsSource(st, e.t, row.(pid := None, pgid := None, identity := None, deadSeenAt := None), u);
      case ClearWait(_) => PutKeepsSource(st, e.t, row.(wait := None), u);
      case StartWait(_, deadline) => PutKeepsSource(st, e.t, row.(wait := Some(deadline)), u);
      case Finalize(_, status) =>
        PutKeepsSource(st, e.t, row.(status := if row.stop.Some? then StopStatus(row.stop.value) else status), u);
      case Bump(_) => PutKeepsSource(st, e.t, row.(attempts := row.attempts + 1), u);
      case Reset(_) => PutKeepsSource(st, e.t, row.(attempts := 0), u);
      case ReleaseActive(_, _) =>
      case ReleaseClaim(_, _) =>
      case Emit(_, _) =>
    }
  }

  lemma {:induction false} LogKeepsSource(st: Store, es: seq<Effect>, u: ThreadId)
    requires u in st.threads && NeverContinues(es)
    ensures u in ApplyAll(st, es).threads && SameSource(st.threads[u], ApplyAll(st, es).threads[u])
    decreases |es|
  {
    hide Apply;
    if es != [] {
      LogKeepsSource(st, es[..|es| - 1], u);
      ApplyKeepsSource(ApplyAll(st, es[..|es| - 1]), es[|es| - 1], u);
    }
  }

  /**
   Every intent of a pass is for a listed thread that the store its turn saw
   makes due for that kind.  What that means for a continuation can be read off
   the store the pass began with: its edge is not a follow edge, its upstream
   names it, and for a machine continuation had settled as continued; for an
   operator continuation the request's fingerprint is there.
   */
  lemma PassIntentIsDue(st: Store, rows: seq<ThreadRow>, c: Config, probes: seq<Probe>, t: ThreadId, kind: ResumeKind)
    returns (r: nat, k: nat)
    requires |probes| == |rows| && Listed(st, rows) && Emit(t, kind) in ThreadPass(st, rows, c, probes).log
    ensures var log := ThreadPass(st, rows, c, probes).log;
            && r < |rows| && rows[r].id == t && k <= |log|
            && Due(ApplyAll(st, log[..k]), rows[r], kind)
    ensures kind.Continuation? || kind.OperatorContinuation? ==>
              && st.threads[t].upstream.Some?
              && var u := st.threads[t].upstream.value;
                 && (u, t) !in st.followEdges && u in st.threads && st.threads[u].successor == Some(t)
                 && (kind.Continuation? ==> st.threads[u].status == Continued)
                 && (kind.OperatorContinuation? ==> u in st.fingerprints)
  {
    var log := ThreadPass(st, rows, c, probes).log;
    var es;
    r, k, es := FindTurn(st, rows, c, probes, Emit(t, kind));
    PassNeverContinues(st, rows, c, probes);
    hide ThreadPass, TurnOf, Due;
    var s := ApplyAll(st, log[..k]);
    TurnIsDue(s, rows[r], c, probes[r], kind);
    TurnKeepsOwnership(st, log[..k]);
    assert rows[r] == st.threads[t];
    if kind.Continuation? || kind.OperatorContinuation? {
      DueUpstream(s, rows[r], kind);
      LogKeepsSource(st, log[..k], rows[r].upstream.value);
    }
  }

  lemma DueUpstream(s: Store, row: ThreadRow, kind: ResumeKind)
    requires Due(s, row, kind) && (kind.Continuation? || kind.OperatorContinuation?)
    ensures row.upstream.Some?
    ensures var u := row.upstream.value;
            && (u, row.id) !in s.followEdges && u in s.threads && s.threads[u].successor == Some(row.id)
            && (kind.Continuation? ==> s.threads[u].status == Continued)
            && (kind.OperatorContinuation? ==> u in s.fingerprints)
  {
  }

  lemma TurnIsDue(s: Store, row: ThreadRow, c: Config, p: Probe, kind: ResumeKind)
    requires Emit(row.id, kind) in TurnOf(s, row, c, p).effects
    ensures Due(s, row, kind)
  {
    hide ThreadTurn, Due;
    var claim := Get(s.claims, row.id);
    IntentIsDue(s, row, claim, row.id in c.blocked, c.passive, c.mode, p);
    var es := TurnOf(s, row, c, p).effects;
    var i :| 0 <= i < |es| && es[i] == Emit(row.id, kind);
    assert es[i].Emit?;
  }

  /** Nothing in the list is about this thread. */
  predicate Silent(t: ThreadId, es: seq<Effect>) {
    forall i | 0 <= i < |es| :: es[i].t != t
  }

  lemma {:induction false} SilentKeeps(st: Store, es: seq<Effect>, t: ThreadId)
    requires Silent(t, es)
    ensures Get(ApplyAll(st, es).threads, t) == Get(st.threads, t)
    ensures Get(ApplyAll(st, es).claims, t) == Get(st.claims, t)
    decreases |es|
  {
    if es != [] {
      SilentKeeps(st, es[..|es| - 1], t);
      hide ApplyAll;
      ElsewhereKeeps(ApplyAll(st, es[..|es| - 1]), es[|es| - 1], t);
    }
  }

  lemma ElsewhereKeeps(st: Store, e: Effect, t: ThreadId)
    requires e.t != t
    ensures Get(Apply(st, e).threads, t) == Get(st.threads, t) && Get(Apply(st, e).claims, t) == Get(st.claims, t)
  {
  }

  /** A row's turn stands whole at position k of the log, and nothing outside it is about the row. */
  ghost predicate Stands(st: Store, row: ThreadRow, c: Config, p: Probe, log: seq<Effect>, k: nat, es: seq<Effect>) {
    && k + |es| <= |log| && log[k..k + |es|] == es
    && es == TurnOf(ApplyAll(st, log[..k]), row, c, p).effects
    && Silent(row.id, log[..k]) && Silent(row.id, log[k + |es|..])
  }

  /** A pass that reaches its end takes every listed row's turn, once. */
  lemma {:induction false} TurnStands(st: Store, rows: seq<ThreadRow>, c: Config, probes: seq<Probe>, r: nat)
    returns (k: nat, es: seq<Effect>)
    requires |probes| == |rows| && DistinctIds(rows) && !ThreadPass(st, rows, c, probes).failed && r < |rows|
    ensures Stands(st, rows[r], c, probes[r], ThreadPass(st, rows, c, probes).log, k, es)
    decreases |rows|
  {
    hide TurnOf, ApplyAll, Stands;
    var turn := TurnOf(st, rows[0], c, probes[0]).effects;
    var st1 := ApplyAll(st, turn);
    var rest := ThreadPass(st1, rows[1..], c, probes[1..]).log;
    TurnLaw(st, rows[0], c, probes[0]);
    if r == 0 {
      PassSettlesOnce(st1, rows[1..], c, probes[1..]);
      hide ThreadPass;
      FirstStands(st, rows, c, probes[0], turn, rest);
      k, es := 0, turn;
    } else {
      var k1, es1 := TurnStands(st1, rows[1..], c, probes[1..], r - 1);
      assert rows[1..][r - 1] == rows[r] && probes[1..][r - 1] == probes[r];
      hide ThreadPass;
      LaterStands(st, rows[r], c, probes[r], turn, rest, k1, es1);
      k, es := k1 + |turn|, es1;
    }
  }

  lemma FirstStands(st: Store, rows: seq<ThreadRow>, c: Config, p: Probe, turn: seq<Effect>, rest: seq<Effect>)
    requires rows != [] && DistinctIds(rows) && turn == TurnOf(st, rows[0], c, p).effects && PassLaw(rows[1..], c, rest)
    ensures Stands(st, rows[0], c, p, turn + rest, 0, turn)
  {
    hide TurnOf, ApplyAll;
    var log := turn + rest;
    ApplyNothing(st);
    assert log[..0] == [] && log[0..|turn|] == turn && log[|turn|..] == rest;
    forall i | 0 <= i < |rest| ensures rest[i].t != rows[0].id {
      var q :| 0 <= q < |rows[1..]| && rows[1..][q].id == rest[i].t;
      assert rows[q + 1].id == rest[i].t;
    }
  }

  lemma LaterStands(st: Store, row: ThreadRow, c: Config, p: Probe, turn: seq<Effect>, rest: seq<Effect>,
                    k: nat, es: seq<Effect>)
    requires Silent(row.id, turn) && Stands(ApplyAll(st, turn), row, c, p, rest, k, es)
    ensures Stands(st, row, c, p, turn + rest, k + |turn|, es)
  {
    hide TurnOf, ApplyAll;
    Shifted(turn, rest, k, |es|);
    ApplyAllAppend(st, turn, rest[..k]);
    assert (turn + rest)[k + |turn| + |es|..] == rest[k + |es|..];
  }

  lemma StandsHas(st: Store, row: ThreadRow, c: Config, p: Probe, log: seq<Effect>, k: nat, es: seq<Effect>, e: Effect)
    requires Stands(st, row, c, p, log, k, es) && e.t == row.id
    ensures e in log <==> e in es
  {
    hide TurnOf, ApplyAll;
    assert log == log[..k] + log[k..k + |es|] + log[k + |es|..];
  }

  /**
   A startup pass that reaches its end settles every listed live thread by the
   table: it resumes it as a kind if and only if that kind is due in the store
   its turn saw, and finalizes it if and only if it is lost there.  That store
   differs from the one the pass began with only in other threads' rows and
   claims.
   */
  lemma StartupPassDecides(st: Store, rows: seq<ThreadRow>, c: Config, probes: seq<Probe>, r: nat, kind: ResumeKind)
    returns (s: Store)
    requires |probes| == |rows| && DistinctIds(rows) && !ThreadPass(st, rows, c, probes).failed && r < |rows|
    requires c.mode.Startup? && rows[r].id !in c.blocked && Recovering(st, rows[r], c.passive)
    ensures var log := ThreadPass(st, rows, c, probes).log;
            var row := rows[r];
            var p := probes[r];
            && SameOwnership(st, s) && Get(s.threads, row.id) == Some(row)
            && (Emit(row.id, kind) in log <==>
                  Freed(row, p) && AuthorityStands(row, p) && Due(s, row, kind) && Counted(p, kind))
            && (Finalize(row.id, Failed) in log <==> Freed(row, p) && Lost(s, row, row.wait, p))
  {
    var row, p, log := rows[r], probes[r], ThreadPass(st, rows, c, probes).log;
    var k, es := TurnStands(st, rows, c, probes, r);
    hide ThreadPass, TurnOf, Due, Freed, Lost, AuthorityStands, Executable;
    StandsHas(st, row, c, p, log, k, es, Emit(row.id, kind));
    StandsHas(st, row, c, p, log, k, es, Finalize(row.id, Failed));
    s := ApplyAll(st, log[..k]);
    SilentKeeps(st, log[..k], row.id);
    TurnKeepsOwnership(st, log[..k]);
    hide ApplyAll, SameOwnership;
    StartupTurnDecides(s, row, c.passive, p, kind);
    TurnOfIs(s, row, c, p);
  }

  lemma TurnOfIs(s: Store, row: ThreadRow, c: Config, p: Probe)
    requires row.id !in c.blocked && c.mode.Startup?
    ensures TurnOf(s, row, c, p) == ThreadTurn(s, row, Get(s.claims, row.id), false, c.passive, Startup, p)
  {
    hide ThreadTurn;
  }

  /**
   A thread that was running when the daemon stopped is resumed, and not
   finalized, if and only if its process is gone, its authority stands, it
   declares a native resume with its context and driver, and its stored
   attempts are below the declared maximum.
   */
  lemma InterruptedIsResumedIff(st: Store, rows: seq<ThreadRow>, c: Config, probes: seq<Probe>, r: nat)
    requires |probes| == |rows| && DistinctIds(rows) && !ThreadPass(st, rows, c, probes).failed && r < |rows|
    requires c.mode.Startup? && rows[r].id !in c.blocked && Recovering(st, rows[r], c.passive)
    requires rows[r].status.Running? && probes[r].attemptsIo && probes[r].bumpIo
    ensures var log := ThreadPass(st, rows, c, probes).log;
            var row := rows[r];
            var free := Freed(row, probes[r]) && AuthorityStands(row, probes[r]);
            && (Emit(row.id, NativeResume) in log <==> free && Resumable(st, row) && row.metadata.value.driver.Some?)
            && (free && Resumable(st, row) ==> Finalize(row.id, Failed) !in log)
            && (free && !Resumable(st, row) ==> Finalize(row.id, Failed) in log)
  {
    hide ThreadPass, Freed, Executable;
    var s := StartupPassDecides(st, rows, c, probes, r, NativeResume);
  }
}
