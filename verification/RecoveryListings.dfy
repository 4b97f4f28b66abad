/** What the startup sequence reads off the store before it acts. */
module RecoveryListings {
  import opened RecoveryStore
  import TR = ThreadRecovery
  import RP = RecoveryPass

  /** Rows are stored under their own id. */
  predicate Keyed(st: Store) {
    forall t | t in st.threads :: st.threads[t].id == t
  }

  /** A created or running thread that executes. */
  predicate ActiveThread(st: Store, passive: set<string>, t: ThreadId) {
    t in st.threads && !Terminal(st.threads[t].status) && !TR.DaemonOwned(passive, st.threads[t])
  }

  /** A row the active-thread pass visits: not yet terminal, or still attached to a process. */
  predicate Visits(row: ThreadRow) {
    !Terminal(row.status) || row.identity.Some?
  }

  /** The rows are exactly the stored ones the pass visits, each once. */
  ghost predicate AllRows(st: Store, rows: seq<ThreadRow>) {
    && RP.DistinctIds(rows)
    && (forall r | r in rows :: r.id in st.threads && st.threads[r.id] == r && Visits(r))
    && (forall t | t in st.threads && Visits(st.threads[t]) :: st.threads[t] in rows)
  }

  /** The workspaces are exactly the stored open ones, each once. */
  ghost predicate AllOpen(st: Store, open: seq<Workspace>) {
    && (forall w :: w in open <==> exists id | id in st.workspaces :: st.workspaces[id] == w && !w.state.Closed?)
    && |open| == |set id | id in st.workspaces && !st.workspaces[id].state.Closed?|
  }

  /** The waiters are exactly the stored ones, each once. */
  ghost predicate AllWaiters(st: Store, ws: seq<Waiter>) {
    && (forall w :: w in ws <==> exists key | key in st.waiters :: st.waiters[key] == w)
    && |ws| == |st.waiters.Keys|
  }

  /** The chains are exactly the tombstoned window members, each once. */
  ghost predicate AllCancelled(st: Store, roots: seq<ThreadId>) {
    && (forall c :: c in roots <==> c in st.windows && st.windows[c].cancelled)
    && |roots| == |set c | c in st.windows && st.windows[c].cancelled|
  }

  method ListThreads(st: Store) returns (rows: seq<ThreadRow>)
    requires Keyed(st)
    ensures RP.DistinctIds(rows)
    ensures forall r | r in rows :: r.id in st.threads && st.threads[r.id] == r && !Terminal(r.status)
    ensures forall t | t in st.threads && !Terminal(st.threads[t].status) :: st.threads[t] in rows
  {
    rows := [];
    var rest := set t | t in st.threads && !Terminal(st.threads[t].status);
    while rest != {}
      invariant RP.DistinctIds(rows) && forall i | 0 <= i < |rows| :: rows[i].id !in rest
      invariant forall r | r in rows :: r.id in st.threads && st.threads[r.id] == r && !Terminal(r.status)
      invariant forall t | t in rest :: t in st.threads && !Terminal(st.threads[t].status)
      invariant forall t | t in st.threads && !Terminal(st.threads[t].status) && t !in rest :: st.threads[t] in rows
      decreases |rest|
    {
      var t :| t in rest;
      rows := rows + [st.threads[t]];
      rest := rest - {t};
    }
  }

  method ListAttached(st: Store) returns (ids: seq<ThreadId>)
    ensures forall t :: t in ids <==> t in st.threads && st.threads[t].identity.Some?
  {
    ids := [];
    var rest := set t | t in st.threads && st.threads[t].identity.Some?;
    while rest != {}
      invariant forall t :: t in ids <==> t in st.threads && st.threads[t].identity.Some? && t !in rest
      invariant forall t | t in rest :: t in st.threads && st.threads[t].identity.Some?
      decreases |rest|
    {
      var t :| t in rest;
      ids := ids + [t];
      rest := rest - {t};
    }
  }

  method ListWaiters(st: Store) returns (ws: seq<Waiter>)
    ensures AllWaiters(st, ws)
  {
    ws := [];
    var rest := st.waiters.Keys;
    while rest != {}
      invariant rest <= st.waiters.Keys && |ws| + |rest| == |st.waiters.Keys|
      invariant forall w :: w in ws <==> exists key | key in st.waiters && key !in rest :: st.waiters[key] == w
      decreases |rest|
    {
      var key :| key in rest;
      ws := ws + [st.waiters[key]];
      rest := rest - {key};
    }
  }

  method ListCancelled(st: Store) returns (roots: seq<ThreadId>)
    ensures AllCancelled(st, roots)
  {
    roots := [];
    var rest := set c | c in st.windows && st.windows[c].cancelled;
    ghost var all := rest;
    while rest != {}
      invariant |roots| + |rest| == |all|
      invariant forall c :: c in roots <==> c in st.windows && st.windows[c].cancelled && c !in rest
      invariant forall c | c in rest :: c in st.windows && st.windows[c].cancelled
      decreases |rest|
    {
      var c :| c in rest;
      roots := roots + [c];
      rest := rest - {c};
    }
  }

  method ListOpen(st: Store) returns (open: seq<Workspace>)
    ensures AllOpen(st, open)
  {
    open := [];
    var rest := set id | id in st.workspaces && !st.workspaces[id].state.Closed?;
    ghost var all := rest;
    while rest != {}
      invariant rest <= all && |open| + |rest| == |all|
      invariant forall w :: w in open <==> exists id | id in all && id !in rest :: st.workspaces[id] == w
      decreases |rest|
    {
      var id :| id in rest;
      open := open + [st.workspaces[id]];
      rest := rest - {id};
    }
    forall w ensures w in open <==> exists id | id in st.workspaces :: st.workspaces[id] == w && !w.state.Closed? {
      if exists id | id in st.workspaces :: st.workspaces[id] == w && !w.state.Closed? {
        var id :| id in st.workspaces && st.workspaces[id] == w && !w.state.Closed?;
        assert id in all;
      }
    }
  }
}
