/** The recovery passes as they run: loops over the listed rows that write the store one effect at a time. */
module RecoveryService {
  import opened Prelude
  import opened RecoveryStore
  import opened ThreadRecovery
  import opened ThreadRecoveryLaws
  import opened RecoveryPass
  import opened FollowRecovery
  import W = WorkspaceRecovery

  datatype Intent = Intent(t: ThreadId, kind: ResumeKind)

  /** The intents pushed by a list of writes. */
  function IntentsOf(log: seq<Effect>): seq<Intent> {
    if log == [] then []
    else IntentsOf(log[..|log| - 1]) +
         (if log[|log| - 1].Emit? then [Intent(log[|log| - 1].t, log[|log| - 1].kind)] else [])
  }

  lemma {:induction false} IntentsAppend(a: seq<Effect>, b: seq<Effect>)
    ensures IntentsOf(a + b) == IntentsOf(a) + IntentsOf(b)
    decreases |b|
  {
    if b == [] {
      assert a + b == a;
    } else {
      assert (a + b)[..|a + b| - 1] == a + b[..|b| - 1];
      IntentsAppend(a, b[..|b| - 1]);
    }
  }

  /** A pass over the open workspaces: final store, quarantined threads, and whether it failed. */
  datatype WorkspacePass = WorkspacePass(store: Store, blocked: set<ThreadId>, failed: bool)

  function BlockedBy(rec: Workspace, turn: W.WorkspaceTurn): set<ThreadId> {
    if turn.blocks && rec.thread.Some? then {rec.thread.value} else {}
  }

  function WorkspaceSweep(st: Store, open: seq<Workspace>, mode: Mode, probes: seq<W.WorkspaceProbe>): WorkspacePass
    requires |open| == |probes|
    decreases |open|
  {
    if open == [] then WorkspacePass(st, {}, false)
    else
      var turn := W.Turn(st, open[0], mode, probes[0]);
      var next := W.ApplyAllW(st, turn.effects);
      if turn.failed then WorkspacePass(next, BlockedBy(open[0], turn), true)
      else
        var rest := WorkspaceSweep(next, open[1..], mode, probes[1..]);
        rest.(blocked := BlockedBy(open[0], turn) + rest.blocked)
  }

  class Service {
    var store: Store
    var blocked: set<ThreadId>
    var intents: seq<Intent>
    var actions: seq<Action>

    constructor (store: Store)
      ensures this.store == store && blocked == {} && intents == [] && actions == []
    {
      this.store, blocked, intents, actions := store, {}, [], [];
    }

    /** Every open workspace takes its turn; unrecovered freezes quarantine their threads. */
    method ReconcileExecutionWorkspaces(open: seq<Workspace>, mode: Mode, probes: seq<W.WorkspaceProbe>)
      returns (ok: bool)
      requires |open| == |probes|
      modifies this`store, this`blocked
      ensures var pass := WorkspaceSweep(old(store), open, mode, probes);
              store == pass.store && blocked == pass.blocked && ok == !pass.failed
    {
      blocked := {};
      ghost var st0 := store;
      for i := 0 to |open|
        invariant var rest := WorkspaceSweep(store, open[i..], mode, probes[i..]);
                  WorkspaceSweep(st0, open, mode, probes) == rest.(blocked := blocked + rest.blocked)
      {
        var turn := W.Turn(store, open[i], mode, probes[i]);
        assert open[i..][0] == open[i] && open[i..][1..] == open[i + 1..];
        assert probes[i..][0] == probes[i] && probes[i..][1..] == probes[i + 1..];
        store := W.ApplyAllW(store, turn.effects);
        blocked := blocked + BlockedBy(open[i], turn);
        if turn.failed {
          return false;
        }
      }
      return true;
    }

    /** The created and running rows, then attached rows that are not among them. */
    method ListRunning(listed: seq<ThreadRow>, attached: seq<ThreadId>) returns (rows: seq<ThreadRow>)
      requires DistinctIds(listed) && forall t | t in store.threads :: store.threads[t].id == t
      ensures listed <= rows && DistinctIds(rows)
      ensures forall t | t in attached && t in store.threads :: exists i | 0 <= i < |rows| :: rows[i].id == t
      ensures forall i | |listed| <= i < |rows| ::
                rows[i].id in attached && rows[i].id in store.threads && rows[i] == store.threads[rows[i].id]
    {
      rows := listed;
      for k := 0 to |attached|
        invariant listed <= rows && DistinctIds(rows)
        invariant forall j | 0 <= j < k
            && attached[j] in store.threads :: exists i | 0 <= i < |rows| :: rows[i].id == attached[j]
        invariant forall i | |listed| <= i < |rows| ::
                    rows[i].id in attached && rows[i].id in store.threads && rows[i] == store.threads[rows[i].id]
      {
        var before := rows;
        var t := attached[k];
        var known := exists i | 0 <= i < |rows| :: rows[i].id == t;
        if !known && t in store.threads {
          rows := rows + [store.threads[t]];
          assert rows[|before|].id == t;
        }
        assert forall i | 0 <= i < |before| :: rows[i] == before[i];
      }
    }

    /** One durable write. */
    method Commit(e: Effect)
      modifies this`store, this`intents
      ensures store == Apply(old(store), e)
      ensures intents == old(intents) + (if e.Emit? then [Intent(e.t, e.kind)] else [])
    {
      store := Apply(store, e);
      if e.Emit? {
        intents := intents + [Intent(e.t, e.kind)];
      }
    }

    /** The writes of one turn, in order. */
    method CommitAll(es: seq<Effect>)
      modifies this`store, this`intents
      ensures store == ApplyAll(old(store), es)
      ensures intents == old(intents) + IntentsOf(es)
    {
      hide Apply;
      ghost var st0, had := store, intents;
      for k := 0 to |es|
        invariant store == ApplyAll(st0, es[..k]) && intents == had + IntentsOf(es[..k])
      {
        assert es[..k + 1][..k] == es[..k];
        Commit(es[k]);
      }
      assert es[..|es|] == es;
    }

    /** Each listed thread takes its turn; a failed turn ends the pass and drops its intents. */
    method ReconcileThreads(rows: seq<ThreadRow>, c: Config, probes: seq<Probe>) returns (ok: bool, log: seq<Effect>)
      requires |rows| == |probes|
      modifies this`store, this`intents
      ensures var pass := ThreadPass(old(store), rows, c, probes);
              && log == pass.log && ok == !pass.failed
              && store == ApplyAll(old(store), log)
              && intents == if ok then IntentsOf(log) else []
    {
      hide TurnOf, ApplyAll;
      intents := [];
      log := [];
      ghost var st0 := store;
      ApplyNothing(st0);
      assert IntentsOf([]) == [];
      hide IntentsOf;
      for i := 0 to |rows|
        invariant store == ApplyAll(st0, log) && intents == IntentsOf(log)
        invariant var rest := ThreadPass(store, rows[i..], c, probes[i..]);
                  ThreadPass(st0, rows, c, probes) == Pass(log + rest.log, rest.failed)
      {
        var turn := TurnOf(store, rows[i], c, probes[i]);
        assert rows[i..][0] == rows[i] && rows[i..][1..] == rows[i + 1..];
        assert probes[i..][0] == probes[i] && probes[i..][1..] == probes[i + 1..];
        CommitAll(turn.effects);
        ApplyAllAppend(st0, log, turn.effects);
        IntentsAppend(log, turn.effects);
        log := log + turn.effects;
        if turn.flow.Abort? {
          intents := [];
          return false, log;
        }
      }
      return true, log;
    }

    /** Every waiter takes its turn; the collected actions are driven later. */
    method ReconcileFollow(waiters: seq<Waiter>, now: int) returns (ok: bool)
      modifies this`store, this`actions
      ensures var pass := WaiterTurns(old(store), waiters, now);
              && ok == !pass.failed && store == pass.store
              && actions == if ok then pass.actions else []
    {
      hide WaiterTurn;
      actions := [];
      ghost var st0 := store;
      for i := 0 to |waiters|
        invariant var rest := WaiterTurns(store, waiters[i..], now);
                  WaiterTurns(st0, waiters, now) == Outcome(rest.store, actions + rest.actions, rest.failed)
      {
        var turn := WaiterTurn(store, waiters[i], now);
        assert waiters[i..][0] == waiters[i] && waiters[i..][1..] == waiters[i + 1..];
        store := turn.store;
        if turn.failed {
          actions := [];
          return false;
        }
        actions := actions + turn.actions;
      }
      return true;
    }

    /** `reconcile_active_threads_inner`: workspaces first, then the threads they do not quarantine. */
    method ReconcileActiveThreads(open: seq<Workspace>, wprobes: seq<W.WorkspaceProbe>, rows: seq<ThreadRow>,
                                  passive: set<string>, mode: Mode, probes: seq<Probe>)
      returns (ok: bool, log: seq<Effect>)
      requires |open| == |wprobes| && |rows| == |probes| && DistinctIds(rows)
      modifies this`store, this`blocked, this`intents
      ensures var first := WorkspaceSweep(old(store), open, mode, wprobes);
              && blocked == first.blocked
              && (first.failed ==> !ok && log == [] && intents == [] && store == first.store)
              && (!first.failed ==>
                    && ok == !ThreadPass(first.store, rows, Config(blocked, passive, mode), probes).failed
                    && log == ThreadPass(first.store, rows, Config(blocked, passive, mode), probes).log
                    && store == ApplyAll(first.store, log)
                    && intents == if ok then IntentsOf(log) else [])
      ensures PassLaw(rows, Config(blocked, passive, mode), log)
    {
      var swept := ReconcileExecutionWorkspaces(open, mode, wprobes);
      log := [];
      if !swept {
        intents := [];
        return false, log;
      }
      ghost var st1 := store;
      var c := Config(blocked, passive, mode);
      ok, log := ReconcileThreads(rows, c, probes);
      PassSettlesOnce(st1, rows, c, probes);
    }
  }

  /** Open rows are listed once, and no two share a root directory. */
  predicate DistinctWorkspaces(open: seq<Workspace>) {
    forall i, j | 0 <= i < j < |open| :: open[i].id != open[j].id && open[i].root != open[j].root
  }

  /** Owners, claims and thread rows are not touched by the sweep, so a held freeze stays held. */
  lemma HeldStaysHeld(st: Store, s: Store, rec: Workspace, p: W.WorkspaceProbe)
    requires s.threads == st.threads && s.claims == st.claims
    ensures W.FreezeHeld(s, rec) <==> W.FreezeHeld(st, rec)
    ensures W.GroupLiveness(s, rec, p) == W.GroupLiveness(st, rec, p) && W.OwnerClaims(s, rec) == W.OwnerClaims(st, rec)
  {
  }

  /** The row as it is left: still Freezing with its root on disk, and untouched or newly bound. */
  predicate FreezeKept(st: Store, r: Store, rec: Workspace) {
    && rec.id in st.workspaces && rec.id in r.workspaces
    && r.workspaces[rec.id].state.Freezing? && r.workspaces[rec.id].root == rec.root && rec.root in r.roots
    && r.workspaces[rec.id].(frozen := None) == st.workspaces[rec.id].(frozen := None)
  }

  /** The freeze was recovered on this store: group gone or quiesced, snapshot already or now bound. */
  predicate FreezeRecovered(st: Store, r: Store, rec: Workspace, p: W.WorkspaceProbe) {
    && !W.GroupLiveness(st, rec, p).Unavailable?
    && (W.GroupLiveness(st, rec, p).Alive? ==> p.quiesced && p.terminated)
    && (rec.frozen.Some? || (p.foldable && W.OwnerClaims(st, rec) && rec.id in r.workspaces
                             && r.workspaces[rec.id].frozen == Some(p.hash)))
  }

  /** Turns of workspaces with other ids and roots leave the row and its root alone, however the sweep ends. */
  lemma {:induction false} SweepKeepsOthers(st: Store, open: seq<Workspace>, mode: Mode,
      probes: seq<W.WorkspaceProbe>, rec: Workspace)
    requires |open| == |probes| && forall j | 0 <= j < |open| :: open[j].id != rec.id && open[j].root != rec.root
    ensures W.SameRow(st, WorkspaceSweep(st, open, mode, probes).store, rec.id, rec.root)
    decreases |open|
  {
    hide W.Turn, W.ApplyAllW;
    if open != [] {
      var turn := W.Turn(st, open[0], mode, probes[0]);
      W.TurnIsLocal(st, open[0], mode, probes[0]);
      W.LocalWritesKeepRow(st, turn.effects, rec.id, rec.root);
      if !turn.failed {
        SweepKeepsOthers(W.ApplyAllW(st, turn.effects), open[1..], mode, probes[1..], rec);
      }
    }
  }

  /** What the row's own turn leaves. */
  lemma OwnTurn(st: Store, rec: Workspace, p: W.WorkspaceProbe)
    requires W.FreezeHeld(st, rec) && rec.id in st.workspaces && st.workspaces[rec.id] == rec && rec.root in st.roots
    ensures var t := W.Turn(st, rec, Startup, p); var r := W.ApplyAllW(st, t.effects);
            && FreezeKept(st, r, rec)
            && (t.blocks || t.failed || FreezeRecovered(st, r, rec, p))
            && (t.blocks ==> !t.failed && !W.FreezeRecovers(st, rec, p))
  {
    W.FreezingTurn(st, rec, p);
    hide W.Turn;
    var es := W.RecoverFreeze(st, rec, p);
    if W.FreezeRecovers(st, rec, p) && rec.frozen.None? {
      var bind := W.BindFrozen(rec, p.hash);
      assert es.value == [bind] && es.value[1..] == [];
      assert W.ApplyAllW(st, [bind]) == W.ApplyAllW(W.ApplyW(st, bind), [bind][1..]);
    }
  }

  lemma KeptThrough(st: Store, a: Store, b: Store, rec: Workspace, p: W.WorkspaceProbe)
    requires FreezeKept(st, a, rec) && W.SameRow(a, b, rec.id, rec.root)
    ensures FreezeKept(st, b, rec) && (FreezeRecovered(st, a, rec, p) ==> FreezeRecovered(st, b, rec, p))
  {
  }

  /**
   Over a whole startup sweep, whatever the other workspaces do and however the
   sweep ends: a held Freezing row stays Freezing with its root on disk.  When
   the sweep succeeds, its freeze was recovered or its thread is quarantined.
   */
  lemma {:induction false} SweepKeepsFreeze(st: Store, open: seq<Workspace>, probes: seq<W.WorkspaceProbe>, i: nat)
    requires |open| == |probes| && i < |open| && DistinctWorkspaces(open) && W.FreezeHeld(st, open[i])
    requires open[i].id in st.workspaces && st.workspaces[open[i].id] == open[i] && open[i].root in st.roots
    ensures var pass := WorkspaceSweep(st, open, Startup, probes);
            && FreezeKept(st, pass.store, open[i])
            && (pass.failed || FreezeRecovered(st, pass.store, open[i],
                probes[i]) || open[i].thread.value in pass.blocked)
    decreases |open|
  {
    hide W.Turn, W.ApplyAllW, W.FreezeHeld, FreezeKept, FreezeRecovered, W.SameRow, W.FreezeRecovers;
    var turn := W.Turn(st, open[0], Startup, probes[0]);
    var next := W.ApplyAllW(st, turn.effects);
    if i == 0 {
      OwnTurn(st, open[0], probes[0]);
      HeldHasThread(st, open[0]);
      if !turn.failed {
        SweepKeepsOthers(next, open[1..], Startup, probes[1..], open[0]);
        KeptThrough(st, next, WorkspaceSweep(next, open[1..], Startup, probes[1..]).store, open[0], probes[0]);
      }
    } else {
      var rec, p := open[i], probes[i];
      W.TurnIsLocal(st, open[0], Startup, probes[0]);
      W.LocalWritesKeepRow(st, turn.effects, rec.id, rec.root);
      SweepKeepsThreads(st, turn.effects);
      HeldStaysHeld(st, next, rec, p);
      FreezeState(st, rec);
      RowStays(st, next, rec);
      if !turn.failed {
        assert open[1..][i - 1] == rec && probes[1..][i - 1] == p;
        SweepKeepsFreeze(next, open[1..], probes[1..], i - 1);
        SameFreeze(st, next, WorkspaceSweep(next, open[1..], Startup, probes[1..]).store, rec, p);
      }
    }
  }

  lemma HeldHasThread(st: Store, rec: Workspace)
    requires W.FreezeHeld(st, rec)
    ensures rec.thread.Some?
  {
  }

  lemma RowStays(st: Store, next: Store, rec: Workspace)
    requires rec.id in st.workspaces && st.workspaces[rec.id] == rec && rec.root in st.roots && rec.state.Freezing?
    requires W.SameRow(st, next, rec.id, rec.root)
    ensures rec.id in next.workspaces && next.workspaces[rec.id] == rec && rec.root in next.roots
    ensures FreezeKept(st, next, rec)
  {
  }

  lemma SameFreeze(st: Store, next: Store, r: Store, rec: Workspace, p: W.WorkspaceProbe)
    requires next.threads == st.threads && next.claims == st.claims
    requires rec.id in st.workspaces && rec.id in next.workspaces && st.workspaces[rec.id] == next.workspaces[rec.id]
    ensures FreezeKept(next, r, rec) ==> FreezeKept(st, r, rec)
    ensures FreezeRecovered(next, r, rec, p) ==> FreezeRecovered(st, r, rec, p)
  {
    HeldStaysHeld(st, next, rec, p);
  }

  /**
   The freeze property of a whole startup pass: the row and its root survive the
   sweep, and unless its freeze was recovered the thread pass that follows never
   writes about its thread, so gives it neither an intent nor a finalization.
   */
  lemma UnrecoveredFreezeQuarantines(st: Store, open: seq<Workspace>, wprobes: seq<W.WorkspaceProbe>, i: nat,
                                     rows: seq<ThreadRow>, passive: set<string>, probes: seq<Probe>)
    requires |open| == |wprobes| && i < |open| && DistinctWorkspaces(open) && W.FreezeHeld(st, open[i])
    requires open[i].id in st.workspaces && st.workspaces[open[i].id] == open[i] && open[i].root in st.roots
    requires |rows| == |probes| && DistinctIds(rows)
    ensures var sweep := WorkspaceSweep(st, open, Startup, wprobes);
            var log := ThreadPass(sweep.store, rows, Config(sweep.blocked, passive, Startup), probes).log;
            && FreezeKept(st, sweep.store, open[i])
            && (|| sweep.failed
                || FreezeRecovered(st, sweep.store, open[i], wprobes[i])
                || (open[i].thread.value in sweep.blocked
                    && forall k | 0 <= k < |log| :: log[k].t != open[i].thread.value))
  {
    hide W.FreezeHeld, FreezeKept, FreezeRecovered, WorkspaceSweep, ThreadPass;
    var sweep := WorkspaceSweep(st, open, Startup, wprobes);
    SweepKeepsFreeze(st, open, wprobes, i);
    PassSettlesOnce(sweep.store, rows, Config(sweep.blocked, passive, Startup), probes);
    HeldHasThread(st, open[i]);
  }

  /** The converse for one row: when its freeze does not recover, its own turn is what quarantines the thread. */
  lemma {:induction false} FailedFreezeBlocks(st: Store, open: seq<Workspace>, probes: seq<W.WorkspaceProbe>, i: nat)
    requires |open| == |probes| && i < |open| && DistinctWorkspaces(open) && W.FreezeHeld(st, open[i])
    requires open[i].id in st.workspaces && st.workspaces[open[i].id] == open[i] && open[i].root in st.roots
    requires !WorkspaceSweep(st, open, Startup, probes).failed && !W.FreezeRecovers(st, open[i], probes[i])
    ensures open[i].thread.value in WorkspaceSweep(st, open, Startup, probes).blocked
    decreases |open|
  {
    hide W.Turn, W.ApplyAllW, W.FreezeHeld, W.SameRow, W.FreezeRecovers;
    HeldHasThread(st, open[i]);
    if i == 0 {
      W.FreezingTurn(st, open[0], probes[0]);
    } else {
      var rec, p := open[i], probes[i];
      var turn := W.Turn(st, open[0], Startup, probes[0]);
      var next := W.ApplyAllW(st, turn.effects);
      W.TurnIsLocal(st, open[0], Startup, probes[0]);
      W.LocalWritesKeepRow(st, turn.effects, rec.id, rec.root);
      SweepKeepsThreads(st, turn.effects);
      HeldStaysHeld(st, next, rec, p);
      FreezeState(st, rec);
      RowStays(st, next, rec);
      SameRecovery(st, next, rec, p);
      assert open[1..][i - 1] == rec && probes[1..][i - 1] == p;
      FailedFreezeBlocks(next, open[1..], probes[1..], i - 1);
    }
  }

  lemma FreezeState(st: Store, rec: Workspace)
    requires W.FreezeHeld(st, rec)
    ensures rec.state.Freezing?
  {
  }

  lemma SameRecovery(st: Store, next: Store, rec: Workspace, p: W.WorkspaceProbe)
    requires next.threads == st.threads && next.claims == st.claims
    requires rec.id in st.workspaces && rec.id in next.workspaces && st.workspaces[rec.id] == next.workspaces[rec.id]
    ensures W.FreezeRecovers(next, rec, p) <==> W.FreezeRecovers(st, rec, p)
  {
    HeldStaysHeld(st, next, rec, p);
  }

  lemma {:induction false} SweepKeepsThreads(st: Store, es: seq<W.WorkspaceEffect>)
    ensures var r := W.ApplyAllW(st, es);
            r.threads == st.threads && r.claims == st.claims && r.activeOwners == st.activeOwners
    decreases |es|
  {
    if es != [] {
      SweepKeepsThreads(W.ApplyW(st, es[0]), es[1..]);
    }
  }
}
