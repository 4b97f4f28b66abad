/**
 Recovery of daemon-managed follow: what one pass does with one waiter, the
 repair of cancelled launch-window members that precedes it at startup, and the
 store each leaves behind.
 */
module FollowRecovery {
  import opened Prelude
  import opened RecoveryStore
  import opened ThreadRecovery

  datatype Action = ResumeParent(key: string) | RelaunchChild(child: ThreadId)

  /** Store, collected actions, and whether the pass failed. */
  datatype Outcome = Outcome(store: Store, actions: seq<Action>, failed: bool)

  /** One slot: also whether recording its terminal made the waiter ready. */
  datatype SlotOutcome = SlotOutcome(store: Store, actions: seq<Action>, flipped: bool, failed: bool)

  const STALE_MS: int := 15 * 60 * 1000
  const LINEAGE_LIMIT: nat := 1024

  predicate Stale(w: Waiter, now: int) {
    SatSub(now, w.updatedAt) >= STALE_MS
  }

  /** The terminal tip of a child's continuation lineage, if it has settled. */
  function LineageTip(st: Store, cursor: ThreadId, fuel: nat): Option<Status>
    decreases fuel
  {
    if fuel == 0 || cursor !in st.threads then None
    else
      var t := st.threads[cursor];
      if t.status.Continued? then
        if t.successor.None? then None else LineageTip(st, t.successor.value, fuel - 1)
      else if Terminal(t.status) then Some(t.status) else None
  }

  /** Record a terminal on the slot of one child chain. */
  function RecordSlot(children: seq<Slot>, chain: ThreadId, status: Status): (r: seq<Slot>)
    ensures |r| == |children|
    ensures forall i | 0 <= i < |children| ::
              r[i] == if children[i].chainRoot == chain then children[i].(terminal := Some(status)) else children[i]
  {
    if children == [] then []
    else
      [if children[0].chainRoot == chain then children[0].(terminal := Some(status)) else children[0]]
      + RecordSlot(children[1..], chain, status)
  }

  /** How many slots carry a terminal. */
  function Recorded(children: seq<Slot>): nat {
    if children == [] then 0 else (if children[0].terminal.Some? then 1 else 0) + Recorded(children[1..])
  }

  predicate Complete(w: Waiter) {
    |w.children| == w.expected && Recorded(w.children) == w.expected
  }

  /** The first slot of a child chain. */
  function SlotOfChain(children: seq<Slot>, chain: ThreadId): Option<Slot> {
    if children == [] then None
    else if children[0].chainRoot == chain then Some(children[0])
    else SlotOfChain(children[1..], chain)
  }

  predicate Indexed(w: Waiter) {
    |w.children| == w.expected && forall i | 0 <= i < |w.children| :: w.children[i].index == i
  }

  /** `mark_follow_child_terminal` through `recover_terminal_follow_child`. */
  function RecoverTerminal(st: Store, chain: ThreadId): SlotOutcome {
    var waiter := WaiterByChain(st, chain);
    var tip := LineageTip(st, chain, LINEAGE_LIMIT);
    if waiter.None? || !waiter.value.phase.Waiting? || tip.None? then SlotOutcome(st, [], false, false)
    else
      var w := waiter.value;
      var stored := SlotOfChain(w.children, chain);
      if stored.Some? && stored.value.terminal.Some? then
        // An equal recorded terminal is a no-op; a different one refuses the pass.
        SlotOutcome(st, [], false, stored.value.terminal != tip)
      else
      var next := w.(children := RecordSlot(w.children, chain, tip.value));
      var ready := Recorded(next.children) == next.expected;
      SlotOutcome(
        st.(waiters := st.waiters[st.childChains[chain] := if ready then next.(phase := Ready) else next]),
        [], ready, false)
  }

  /** The recovery of one slot of a waiting waiter. */
  function SlotTurn(st: Store, slot: Slot): SlotOutcome {
    if slot.terminal.Some? then SlotOutcome(st, [], false, false)
    else if slot.child !in st.threads then SlotOutcome(st, [], false, true)
    else
      var child := st.threads[slot.child];
      if !PendingFollowChild(st, child) then RecoverTerminal(st, slot.chainRoot)
      else if Queued(st, slot.chainRoot) then SlotOutcome(st, [], false, false)
      else if slot.chainRoot in st.windows then
        if st.windows[slot.chainRoot].cancelled then SlotOutcome(st, [], false, false)
        else SlotOutcome(st, [RelaunchChild(slot.child)], false, false)
      else if child.metadata.Some? && child.metadata.value.window.Some? then
        SlotOutcome(
          st.(windows := st.windows[slot.chainRoot := Window(child.metadata.value.window.value, false, false)]),
          [], false, false)
      else SlotOutcome(st, [RelaunchChild(slot.child)], false, false)
  }

  function SlotTurns(st: Store, slots: seq<Slot>): SlotOutcome
    decreases |slots|
  {
    if slots == [] then SlotOutcome(st, [], false, false)
    else
      var first := SlotTurn(st, slots[0]);
      if first.failed then first
      else
        var rest := SlotTurns(first.store, slots[1..]);
        SlotOutcome(rest.store, first.actions + rest.actions, first.flipped || rest.flipped, rest.failed)
  }

  function WaitingTurn(st: Store, w: Waiter): Outcome {
    if w.children == [] then Outcome(st, [], true)
    else
      var slots := SlotTurns(st, w.children);
      var reloaded := Get(slots.store.waiters, w.key);
      var resume := slots.flipped && reloaded.Some? && (reloaded.value.phase.Ready? || reloaded.value.phase.Resuming?);
      Outcome(slots.store, slots.actions + (if resume then [ResumeParent(w.key)] else []), slots.failed)
  }

  function ClearWaiter(st: Store, key: string): Store {
    st.(waiters := st.waiters - {key},
        childChains := map c | c in st.childChains && st.childChains[c] != key :: st.childChains[c])
  }

  /** Adopt the parent's follow-resume successor when the waiter has not recorded it. */
  function Adopt(st: Store, w: Waiter, parent: ThreadRow): Store {
    if w.successor.None? && parent.successor.Some? && (w.parent, parent.successor.value) in st.followEdges
       && w.key in st.waiters && st.waiters[w.key].successor.None?
    then st.(waiters := st.waiters[w.key := st.waiters[w.key].(successor := parent.successor)]) else st
  }

  function ReservedTurn(st: Store, w: Waiter): Outcome {
    if w.parent !in st.threads then Outcome(st, [], true)
    else
      var parent := st.threads[w.parent];
      if w.successor.None? && !parent.status.Continued? then Outcome(st, [], false)
      else if !Indexed(w) then Outcome(ClearWaiter(st, w.key), [], false)
      else
        var adopted := Adopt(st, w, parent);
        if w.key !in adopted.waiters then Outcome(adopted, [], true)
        else
          var cur := adopted.waiters[w.key];
          if cur.phase.Waiting? then WaitingTurn(adopted, cur)
          else if !cur.phase.Reserved? || cur.successor.None? || !Indexed(cur) then Outcome(adopted, [], true)
          else
            var next := cur.(phase := if Complete(cur) then Ready else Waiting);
            var marked := adopted.(waiters := adopted.waiters[w.key := next]);
            if next.phase.Ready? then Outcome(marked, [ResumeParent(w.key)], false) else WaitingTurn(marked, next)
  }

  /** The whole turn of one waiter, with the clearing of stale orphans. */
  function WaiterTurn(st: Store, w: Waiter, now: int): Outcome {
    var o := match w.phase
             case Ready => Outcome(st, [ResumeParent(w.key)], false)
             case Resuming => Outcome(st, [ResumeParent(w.key)], false)
             case Waiting => WaitingTurn(st, w)
             case Reserved => ReservedTurn(st, w);
    if !o.failed && o.actions == [] && Stale(w, now) && w.parent !in o.store.threads
    then o.(store := ClearWaiter(o.store, w.key)) else o
  }

  function WaiterTurns(st: Store, ws: seq<Waiter>, now: int): Outcome
    decreases |ws|
  {
    if ws == [] then Outcome(st, [], false)
    else
      var first := WaiterTurn(st, ws[0], now);
      if first.failed then first
      else
        var rest := WaiterTurns(first.store, ws[1..], now);
        Outcome(rest.store, first.actions + rest.actions, rest.failed)
  }

  /** `repair_cancelled_window_members` for one tombstoned chain root. */
  function RepairCancelled(st: Store, root: ThreadId): Store {
    if root !in st.windows || !st.windows[root].cancelled then st
    else if root !in st.threads then st.(windows := st.windows - {root})
    else
      var t := st.threads[root];
      var settled := if t.status.Created? && t.identity.None? then Apply(st, Finalize(root, Cancelled)) else st;
      if Terminal(t.status) || t.status.Created? then settled.(windows := settled.windows - {root}) else settled
  }

}
