/**
 Whom the follow pass wakes: exactly the waiters that are ready in the store it
 leaves, which are those listed ready and those whose whole cohort has settled.
 */
module FollowWaking {
  import opened Prelude
  import opened RecoveryStore
  import opened ThreadRecovery
  import opened FollowRecovery

  /** A stored child result waits to be delivered to the parent. */
  predicate Deliverable(w: Waiter) {
    w.phase == Ready || w.phase == Resuming
  }

  /** The unique index of child chains gives this slot's chain, if it has it, to this waiter. */
  predicate OwnsChain(st: Store, key: string, slot: Slot) {
    slot.chainRoot in st.childChains ==> st.childChains[slot.chainRoot] == key
  }

  ghost predicate OwnsChains(st: Store, key: string, slots: seq<Slot>) {
    forall j | 0 <= j < |slots| :: OwnsChain(st, key, slots[j])
  }

  /** A slot keeps its terminal or has recorded the settled tip of its child's lineage. */
  predicate SlotSettles(st: Store, a: Slot, b: Slot) {
    || b == a
    || (LineageTip(st, a.chainRoot, LINEAGE_LIMIT).Some?
        && b == a.(terminal := LineageTip(st, a.chainRoot, LINEAGE_LIMIT)))
  }

  ghost predicate SlotsSettle(st: Store, a: seq<Slot>, b: seq<Slot>) {
    |a| == |b| && forall j | 0 <= j < |a| :: SlotSettles(st, a[j], b[j])
  }

  /** Nothing but this waiter and the launch windows changed, and the chain index only lost its chains. */
  ghost predicate OthersKept(a: Store, b: Store, key: string) {
    && b.threads == a.threads && b.followEdges == a.followEdges
    && (forall k | k != key :: Get(b.waiters, k) == Get(a.waiters, k))
    && (forall c | c in b.childChains :: c in a.childChains && b.childChains[c] == a.childChains[c])
    && (forall c | c in a.childChains && a.childChains[c] != key :: c in b.childChains)
  }

  /** Recording slots of a waiting waiter leaves it waiting, or makes it ready with its cohort complete. */
  ghost predicate Records(st: Store, a: Waiter, b: Waiter, flipped: bool) {
    && b == a.(phase := b.phase, children := b.children) && SlotsSettle(st, a.children, b.children)
    && (!a.phase.Waiting? ==> b == a)
    && (if flipped then a.phase.Waiting? && b.phase.Ready? && Recorded(b.children) == b.expected
        else b.phase == a.phase)
  }

  ghost predicate SlotsRecord(st: Store, key: string, r: SlotOutcome) {
    && OthersKept(st, r.store, key) && key in st.waiters && key in r.store.waiters
    && Records(st, st.waiters[key], r.store.waiters[key], r.flipped)
    && (forall i | 0 <= i < |r.actions| :: r.actions[i].RelaunchChild?)
  }

  lemma NothingRecorded(st: Store, w: Waiter)
    ensures Records(st, w, w, false)
  {
  }

  lemma NothingHappens(st: Store, key: string, actions: seq<Action>, failed: bool)
    requires key in st.waiters && forall i | 0 <= i < |actions| :: actions[i].RelaunchChild?
    ensures SlotsRecord(st, key, SlotOutcome(st, actions, false, failed))
  {
    NothingRecorded(st, st.waiters[key]);
    hide Records;
  }

  lemma UpdateRecords(st: Store, key: string, next: Waiter, flipped: bool)
    requires key in st.waiters && Records(st, st.waiters[key], next, flipped)
    ensures SlotsRecord(st, key, SlotOutcome(st.(waiters := st.waiters[key := next]), [], flipped, false))
  {
    hide Records;
  }

  lemma InsertRecords(st: Store, key: string, chain: ThreadId, window: Window)
    requires key in st.waiters
    ensures SlotsRecord(st, key, SlotOutcome(st.(windows := st.windows[chain := window]), [], false, false))
  {
    NothingRecorded(st, st.waiters[key]);
    hide Records;
  }

  lemma RecordingIsRecords(st: Store, w: Waiter, chain: ThreadId)
    requires w.phase.Waiting? && LineageTip(st, chain, LINEAGE_LIMIT).Some?
    ensures var next := w.(children := RecordSlot(w.children, chain, LineageTip(st, chain, LINEAGE_LIMIT).value));
            if Recorded(next.children) == next.expected then Records(st, w, next.(phase := Ready), true)
            else Records(st, w, next, false)
  {
    hide Recorded, LineageTip, RecordSlot;
  }

  lemma RecoverTerminalRecords(st: Store, key: string, slot: Slot)
    requires key in st.waiters && OwnsChain(st, key, slot)
    ensures SlotsRecord(st, key, RecoverTerminal(st, slot.chainRoot))
  {
    hide Recorded, LineageTip, SlotOfChain, RecordSlot, SlotsRecord, Records;
    var chain := slot.chainRoot;
    var tip := LineageTip(st, chain, LINEAGE_LIMIT);
    var w := st.waiters[key];
    NothingHappens(st, key, [], false);
    NothingHappens(st, key, [], true);
    if w.phase.Waiting? && tip.Some? {
      var next := w.(children := RecordSlot(w.children, chain, tip.value));
      RecordingIsRecords(st, w, chain);
      if Recorded(next.children) == next.expected {
        UpdateRecords(st, key, next.(phase := Ready), true);
      } else {
        UpdateRecords(st, key, next, false);
      }
    }
  }

  /** A recorded terminal is never overwritten: an equal one is a no-op, a different one fails the pass. */
  lemma RecordedIsImmutable(st: Store, chain: ThreadId, w: Waiter, slot: Slot)
    requires WaiterByChain(st, chain) == Some(w) && w.phase.Waiting?
    requires SlotOfChain(w.children, chain) == Some(slot) && slot.terminal.Some?
    ensures var r, tip := RecoverTerminal(st, chain), LineageTip(st, chain, LINEAGE_LIMIT);
            r.store == st && (r.failed <==> tip.Some? && tip != slot.terminal)
  {
    hide LineageTip, SlotOfChain, Recorded, RecordSlot;
  }

  lemma SlotTurnRecords(st: Store, key: string, slot: Slot)
    requires key in st.waiters && OwnsChain(st, key, slot)
    ensures SlotsRecord(st, key, SlotTurn(st, slot))
  {
    RecoverTerminalRecords(st, key, slot);
    NothingHappens(st, key, [], false);
    NothingHappens(st, key, [], true);
    NothingHappens(st, key, [RelaunchChild(slot.child)], false);
    if slot.child in st.threads && st.threads[slot.child].metadata.Some?
       && st.threads[slot.child].metadata.value.window.Some?
    {
      var window := Window(st.threads[slot.child].metadata.value.window.value, false, false);
      InsertRecords(st, key, slot.chainRoot, window);
    }
    hide RecoverTerminal, PendingFollowChild, SlotsRecord;
  }

  lemma RecordsCompose(st: Store, s: Store, a: Waiter, b: Waiter, c: Waiter, x: bool, y: bool)
    requires s.threads == st.threads && Records(st, a, b, x) && Records(s, b, c, y)
    ensures Records(st, a, c, x || y)
  {
    hide Recorded;
    forall j | 0 <= j < |a.children| ensures SlotSettles(st, a.children[j], c.children[j]) {
      assert SlotSettles(st, a.children[j], b.children[j]) && SlotSettles(s, b.children[j], c.children[j]);
      SameTip(st, s, b.children[j].chainRoot, LINEAGE_LIMIT);
    }
  }

  /** The tip of a lineage is read from the threads alone. */
  lemma {:induction false} SameTip(a: Store, b: Store, cursor: ThreadId, fuel: nat)
    requires a.threads == b.threads
    ensures LineageTip(a, cursor, fuel) == LineageTip(b, cursor, fuel)
    decreases fuel
  {
    if fuel > 0 && cursor in a.threads && a.threads[cursor].successor.Some? {
      SameTip(a, b, a.threads[cursor].successor.value, fuel - 1);
    }
  }

  lemma {:induction false} SlotTurnsRecord(st: Store, key: string, slots: seq<Slot>)
    requires key in st.waiters && OwnsChains(st, key, slots)
    ensures SlotsRecord(st, key, SlotTurns(st, slots))
    decreases |slots|
  {
    hide SlotTurn, Records;
    if slots == [] {
      NothingRecorded(st, st.waiters[key]);
      return;
    }
    var first := SlotTurn(st, slots[0]);
    SlotTurnRecords(st, key, slots[0]);
    if !first.failed {
      assert OwnsChains(first.store, key, slots[1..]) by {
        forall j | 0 <= j < |slots[1..]| ensures OwnsChain(first.store, key, slots[1..][j]) {
          assert OwnsChain(st, key, slots[j + 1]);
        }
      }
      SlotTurnsRecord(first.store, key, slots[1..]);
      var rest := SlotTurns(first.store, slots[1..]);
      RecordsCompose(st, first.store, st.waiters[key], first.store.waiters[key], rest.store.waiters[key],
                     first.flipped, rest.flipped);
    }
  }

  /** How its own turn may change a waiter. */
  ghost predicate Advances(st: Store, a: Waiter, b: Waiter) {
    && b.key == a.key && b.parent == a.parent && b.expected == a.expected && SlotsSettle(st, a.children, b.children)
    && (Deliverable(a) ==> b == a)
    && (Deliverable(b) && !Deliverable(a) ==> Recorded(b.children) == b.expected)
    && (b.successor != a.successor ==>
          a.successor.None? && b.successor.Some? && (a.parent, b.successor.value) in st.followEdges)
  }

  /** The turn wakes its waiter's parent exactly when it leaves the waiter deliverable, and touches no other. */
  ghost predicate Wakes(st: Store, w: Waiter, r: Outcome) {
    && OthersKept(st, r.store, w.key)
    && (forall i | 0 <= i < |r.actions| && r.actions[i].ResumeParent? :: r.actions[i].key == w.key)
    && (ResumeParent(w.key) in r.actions <==> w.key in r.store.waiters && Deliverable(r.store.waiters[w.key]))
    && (w.key in r.store.waiters ==> Advances(st, w, r.store.waiters[w.key]))
    && (w.key !in r.store.waiters ==> Unindexed(r.store, w.key))
  }

  /** No child chain leads to the waiter any more. */
  ghost predicate Unindexed(st: Store, key: string) {
    forall c | c in st.childChains :: st.childChains[c] != key
  }

  lemma UntouchedWakes(st: Store, w: Waiter)
    requires Get(st.waiters, w.key) == Some(w)
    ensures Wakes(st, w, Outcome(st, if Deliverable(w) then [ResumeParent(w.key)] else [], false))
  {
    hide Recorded;
  }

  lemma WaitingWakes(st: Store, w: Waiter)
    requires Get(st.waiters, w.key) == Some(w) && w.phase.Waiting? && OwnsChains(st, w.key, w.children)
    ensures var r := WaitingTurn(st, w); !r.failed ==> Wakes(st, w, r)
  {
    hide SlotTurns, Recorded, OwnsChains;
    var slots := SlotTurns(st, w.children);
    SlotTurnsRecord(st, w.key, w.children);
    var r := WaitingTurn(st, w);
    if !r.failed {
      assert ResumeParent(w.key) in r.actions <==> slots.flipped by {
        if slots.flipped { assert r.actions[|slots.actions|] == ResumeParent(w.key); }
      }
    }
  }

  lemma ClearedWakes(st: Store, w: Waiter, s: Store, key: string)
    requires OthersKept(st, s, w.key) && key == w.key
    ensures Wakes(st, w, Outcome(ClearWaiter(s, key), [], false))
  {
    hide Advances;
  }

  /** Marking or adopting for a reserved waiter, before its slots are looked at. */
  ghost predicate Converges(st: Store, w: Waiter, s: Store, b: Waiter) {
    && s == st.(waiters := st.waiters[w.key := b])
    && b == w.(phase := b.phase, successor := b.successor)
    && (b.successor != w.successor ==>
          w.successor.None? && b.successor.Some? && (w.parent, b.successor.value) in st.followEdges)
    && (Deliverable(b) ==> Recorded(b.children) == b.expected)
  }

  lemma ConvergedWakes(st: Store, w: Waiter, s: Store, b: Waiter, r: Outcome)
    requires w.phase.Reserved? && w.key in st.waiters && Converges(st, w, s, b) && Wakes(s, b, r)
    ensures Wakes(st, w, r)
  {
    hide Recorded, LineageTip;
    if w.key in r.store.waiters {
      var c := r.store.waiters[w.key];
      forall j | 0 <= j < |w.children| ensures SlotSettles(st, w.children[j], c.children[j]) {
        assert SlotSettles(s, b.children[j], c.children[j]);
        SameTip(st, s, w.children[j].chainRoot, LINEAGE_LIMIT);
      }
    }
  }

  lemma AdoptConverges(st: Store, w: Waiter, parent: ThreadRow)
    requires Get(st.waiters, w.key) == Some(w) && w.phase.Reserved?
    ensures var s := Adopt(st, w, parent); w.key in s.waiters && Converges(st, w, s, s.waiters[w.key])
    ensures Adopt(st, w, parent).waiters[w.key].phase.Reserved?
  {
    hide Recorded;
    assert st.waiters[w.key := w] == st.waiters;
  }

  lemma ReservedWakes(st: Store, w: Waiter)
    requires Get(st.waiters, w.key) == Some(w) && w.phase.Reserved? && OwnsChains(st, w.key, w.children)
    ensures var r := ReservedTurn(st, w); !r.failed ==> Wakes(st, w, r)
  {
    hide WaitingTurn, Recorded, Adopt, ClearWaiter, Wakes;
    UntouchedWakes(st, w);
    ClearedWakes(st, w, st, w.key);
    if w.parent !in st.threads { return; }
    var s := Adopt(st, w, st.threads[w.parent]);
    AdoptConverges(st, w, st.threads[w.parent]);
    var cur := s.waiters[w.key];
    var next := cur.(phase := if Complete(cur) then Ready else Waiting);
    var marked := s.(waiters := s.waiters[w.key := next]);
    assert marked == st.(waiters := st.waiters[w.key := next]);
    assert Converges(st, w, marked, next);
    UntouchedWakes(marked, next);
    if next.phase.Waiting? { WaitingWakes(marked, next); }
    var r := ReservedTurn(st, w);
    if !r.failed && (w.successor.Some? || st.threads[w.parent].status.Continued?) && Indexed(w) {
      hide ReservedTurn, Converges;
      ConvergedWakes(st, w, marked, next, r);
    }
  }

  /** One waiter's turn. */
  lemma TurnWakes(st: Store, w: Waiter, now: int)
    requires Get(st.waiters, w.key) == Some(w) && OwnsChains(st, w.key, w.children)
    ensures var r := WaiterTurn(st, w, now); !r.failed ==> Wakes(st, w, r)
  {
    hide WaitingTurn, ReservedTurn, ClearWaiter, Wakes, Stale, OwnsChains;
    UntouchedWakes(st, w);
    if w.phase.Waiting? { WaitingWakes(st, w); }
    if w.phase.Reserved? { ReservedWakes(st, w); }
    var o := match w.phase
             case Ready => Outcome(st, [ResumeParent(w.key)], false)
             case Resuming => Outcome(st, [ResumeParent(w.key)], false)
             case Waiting => WaitingTurn(st, w)
             case Reserved => ReservedTurn(st, w);
    if !o.failed {
      WakesKeepsOthers(st, w, o);
      ClearedWakes(st, w, o.store, w.key);
      assert o.(store := ClearWaiter(o.store, w.key)) == Outcome(ClearWaiter(o.store, w.key), o.actions, false);
    }
  }

  lemma WakesKeepsOthers(st: Store, w: Waiter, r: Outcome)
    requires Wakes(st, w, r)
    ensures OthersKept(st, r.store, w.key)
  {
  }

  /** The waiters are stored ones, each once, and the chain index gives every slot's chain to its own waiter. */
  ghost predicate ListedWaiters(st: Store, ws: seq<Waiter>) {
    && (forall i, j | 0 <= i < j < |ws| :: ws[i].key != ws[j].key)
    && (forall i | 0 <= i < |ws| ::
          Get(st.waiters, ws[i].key) == Some(ws[i]) && OwnsChains(st, ws[i].key, ws[i].children))
  }

  lemma ListedAfter(st: Store, s: Store, ws: seq<Waiter>)
    requires ws != [] && ListedWaiters(st, ws) && OthersKept(st, s, ws[0].key)
    ensures ListedWaiters(s, ws[1..])
  {
    forall i | 0 <= i < |ws[1..]|
      ensures Get(s.waiters, ws[1..][i].key) == Some(ws[1..][i]) && OwnsChains(s, ws[1..][i].key, ws[1..][i].children)
    {
      var w := ws[i + 1];
      assert ws[0].key != w.key && OwnsChains(st, w.key, w.children);
      forall j | 0 <= j < |w.children| ensures OwnsChain(s, w.key, w.children[j]) {
        assert OwnsChain(st, w.key, w.children[j]);
      }
    }
  }

  /** Nobody outside the list is touched or woken. */
  ghost predicate PassKeeps(st: Store, ws: seq<Waiter>, r: Outcome) {
    && r.store.threads == st.threads && r.store.followEdges == st.followEdges
    && (forall c | c in r.store.childChains :: c in st.childChains && r.store.childChains[c] == st.childChains[c])
    && (forall k | k !in Keys(ws) :: Get(r.store.waiters, k) == Get(st.waiters, k) && ResumeParent(k) !in r.actions)
  }

  function Keys(ws: seq<Waiter>): set<string> {
    set i | 0 <= i < |ws| :: ws[i].key
  }

  lemma {:induction false} PassTouchesListed(st: Store, ws: seq<Waiter>, now: int)
    requires ListedWaiters(st, ws) && !WaiterTurns(st, ws, now).failed
    ensures PassKeeps(st, ws, WaiterTurns(st, ws, now))
    decreases |ws|
  {
    hide WaiterTurn;
    if ws == [] { return; }
    var first := WaiterTurn(st, ws[0], now);
    TurnWakes(st, ws[0], now);
    hide Advances;
    ListedAfter(st, first.store, ws);
    PassTouchesListed(first.store, ws[1..], now);
    var rest := WaiterTurns(first.store, ws[1..], now);
    var r := WaiterTurns(st, ws, now);
    hide ListedWaiters, WaiterTurns;
    forall k | k !in Keys(ws) ensures Get(r.store.waiters, k) == Get(st.waiters, k) && ResumeParent(k) !in r.actions {
      assert k != ws[0].key by { assert ws[0].key in Keys(ws); }
      assert k !in Keys(ws[1..]) by { KeysOfRest(ws); }
      assert ResumeParent(k) !in first.actions;
    }
  }

  lemma KeysOfRest(ws: seq<Waiter>)
    requires ws != []
    ensures Keys(ws[1..]) <= Keys(ws)
  {
    forall k | k in Keys(ws[1..]) ensures k in Keys(ws) {
      var i :| 0 <= i < |ws[1..]| && ws[1..][i].key == k;
      assert ws[i + 1].key == k;
    }
  }

  /** In a successful pass a listed waiter's fate is that of its own turn, on a store that still has it as listed. */
  lemma {:induction false} OwnTurn(st: Store, ws: seq<Waiter>, now: int, i: nat) returns (s: Store)
    requires ListedWaiters(st, ws) && !WaiterTurns(st, ws, now).failed && i < |ws|
    ensures s.threads == st.threads && s.followEdges == st.followEdges
    ensures Get(s.waiters, ws[i].key) == Some(ws[i]) && OwnsChains(s, ws[i].key, ws[i].children)
    ensures var turn := WaiterTurn(s, ws[i], now);
            var r := WaiterTurns(st, ws, now);
            && !turn.failed && Get(r.store.waiters, ws[i].key) == Get(turn.store.waiters, ws[i].key)
            && (Unindexed(turn.store, ws[i].key) ==> Unindexed(r.store, ws[i].key))
            && (ResumeParent(ws[i].key) in r.actions <==> ResumeParent(ws[i].key) in turn.actions)
    decreases |ws|
  {
    hide WaiterTurn, Advances;
    var first := WaiterTurn(st, ws[0], now);
    TurnWakes(st, ws[0], now);
    ListedAfter(st, first.store, ws);
    if i == 0 {
      s := st;
      PassTouchesListed(first.store, ws[1..], now);
      assert ws[0].key !in Keys(ws[1..]);
    } else {
      s := OwnTurn(first.store, ws[1..], now, i - 1);
      assert ws[1..][i - 1] == ws[i] && ws[0].key != ws[i].key;
      assert ResumeParent(ws[i].key) !in first.actions;
    }
  }

  /**
   A successful pass wakes exactly the waiters it leaves deliverable.  A waiter
   listed as deliverable stays so, and is woken.  A waiter woken without being
   listed so has its whole cohort recorded, each slot with the terminal it had
   or the settled tip of its child's lineage; and a successor it did not have
   was adopted over a follow edge from its parent.  A waiter that is gone has
   left the chain index too.
   */
  lemma WokenIffDeliverable(st: Store, ws: seq<Waiter>, now: int, i: nat)
    requires ListedWaiters(st, ws) && !WaiterTurns(st, ws, now).failed && i < |ws|
    ensures var r := WaiterTurns(st, ws, now);
            var key := ws[i].key;
            && (ResumeParent(key) in r.actions <==> key in r.store.waiters && Deliverable(r.store.waiters[key]))
            && (Deliverable(ws[i]) ==> ResumeParent(key) in r.actions)
            && (key in r.store.waiters ==> Advances(st, ws[i], r.store.waiters[key]))
            && (key !in r.store.waiters ==> Unindexed(r.store, key))
  {
    hide WaiterTurn, WaiterTurns, Advances, ListedWaiters, OwnsChains;
    var s := OwnTurn(st, ws, now, i);
    TurnWakes(s, ws[i], now);
    if Deliverable(ws[i]) { DeliverableIsWoken(s, ws[i], now); }
    var after := WaiterTurn(s, ws[i], now).store.waiters;
    if ws[i].key in after { AdvancesFrom(st, s, ws[i], after[ws[i].key]); }
  }

  lemma AdvancesFrom(a: Store, b: Store, w: Waiter, x: Waiter)
    requires a.threads == b.threads && a.followEdges == b.followEdges && Advances(b, w, x)
    ensures Advances(a, w, x)
  {
    hide Recorded, LineageTip;
    forall j | 0 <= j < |w.children| ensures SlotSettles(a, w.children[j], x.children[j]) {
      assert SlotSettles(b, w.children[j], x.children[j]);
      SameTip(a, b, w.children[j].chainRoot, LINEAGE_LIMIT);
    }
  }

  lemma DeliverableIsWoken(st: Store, w: Waiter, now: int)
    requires Deliverable(w)
    ensures ResumeParent(w.key) in WaiterTurn(st, w, now).actions
  {
    hide WaitingTurn, ReservedTurn;
  }

  /** All slots are recorded exactly when as many are recorded as there are. */
  lemma {:induction false} AllRecorded(children: seq<Slot>)
    ensures Recorded(children) <= |children|
    ensures Recorded(children) == |children| <==> forall j | 0 <= j < |children| :: children[j].terminal.Some?
    decreases |children|
  {
    if children != [] {
      AllRecorded(children[1..]);
      assert forall j | 0 <= j < |children[1..]| :: children[1..][j] == children[j + 1];
      assert (forall j | 0 <= j < |children| :: children[j].terminal.Some?) ==>
          forall j | 0 <= j < |children[1..]| :: children[1..][j].terminal.Some?;
    }
  }

  /** What the waiter has recorded so far are the settled tips of its children's lineages. */
  ghost predicate TipsRecorded(st: Store, w: Waiter) {
    forall j | 0 <= j < |w.children| && w.children[j].terminal.Some? ::
      w.children[j].terminal == LineageTip(st, w.children[j].chainRoot, LINEAGE_LIMIT)
  }

  /** A parent is woken only with the settled tip of every child of its cohort, if that was so of what was recorded. */
  lemma WokenCohortIsSettled(st: Store, ws: seq<Waiter>, now: int, i: nat)
    requires ListedWaiters(st, ws) && !WaiterTurns(st, ws, now).failed && i < |ws| && !Deliverable(ws[i])
    requires ResumeParent(ws[i].key) in WaiterTurns(st, ws, now).actions
    requires |ws[i].children| == ws[i].expected && TipsRecorded(st, ws[i])
    ensures var r := WaiterTurns(st, ws, now);
            && ws[i].key in r.store.waiters && |r.store.waiters[ws[i].key].children| == ws[i].expected
            && forall j | 0 <= j < ws[i].expected ::
                 var slot := r.store.waiters[ws[i].key].children[j];
                 slot.terminal.Some? && slot.terminal == LineageTip(st, ws[i].children[j].chainRoot, LINEAGE_LIMIT)
  {
    hide WaiterTurns, Recorded, LineageTip;
    WokenIffDeliverable(st, ws, now, i);
    var b := WaiterTurns(st, ws, now).store.waiters[ws[i].key];
    AllRecorded(b.children);
    forall j | 0 <= j < ws[i].expected
      ensures b.children[j].terminal.Some?
              && b.children[j].terminal == LineageTip(st, ws[i].children[j].chainRoot, LINEAGE_LIMIT)
    {
      assert SlotSettles(st, ws[i].children[j], b.children[j]);
    }
  }

  /** Every child has settled or was recorded, at least one was not recorded yet, and the chain index is complete. */
  ghost predicate SettledCohort(st: Store, w: Waiter) {
    && w.phase.Waiting? && |w.children| == w.expected
    && (exists j | 0 <= j < |w.children| :: w.children[j].terminal.None?)
    && (forall i, j | 0 <= i < j < |w.children| :: w.children[i].chainRoot != w.children[j].chainRoot)
    && (forall j | 0 <= j < |w.children| ::
          && w.children[j].chainRoot in st.childChains
          && (w.children[j].terminal.None? ==> SettledSlot(st, w.children[j])))
  }

  /** The child was launched and its lineage has settled. */
  predicate SettledSlot(st: Store, slot: Slot) {
    && slot.child in st.threads && st.threads[slot.child].status != Created
    && LineageTip(st, slot.chainRoot, LINEAGE_LIMIT).Some?
  }

  /** The stored waiter after the first n slots of the listed one. */
  ghost predicate Midway(w: Waiter, a: Waiter, n: nat) {
    && a.phase.Waiting? && a.key == w.key && a.expected == w.expected && |a.children| == |w.children|
    && (forall j | 0 <= j < |w.children| :: a.children[j].chainRoot == w.children[j].chainRoot)
    && (forall j | 0 <= j < n && j < |w.children| :: a.children[j].terminal.Some?)
    && (forall j | n <= j < |w.children| :: a.children[j] == w.children[j])
    && Recorded(a.children) < a.expected
  }

  lemma {:induction false} SlotOfChainAt(children: seq<Slot>, j: nat)
    requires j < |children|
    requires forall i | 0 <= i < j :: children[i].chainRoot != children[j].chainRoot
    ensures SlotOfChain(children, children[j].chainRoot) == Some(children[j])
    decreases |children|
  {
    if j > 0 {
      assert children[1..][j - 1] == children[j];
      SlotOfChainAt(children[1..], j - 1);
    }
  }

  lemma SettledSlotRecords(st: Store, w: Waiter, n: nat)
    requires SettledCohort(st, w) && n < |w.children| && w.key in st.waiters && Midway(w, st.waiters[w.key], n)
    requires OwnsChains(st, w.key, w.children)
    ensures var b := Get(SlotTurn(st, w.children[n]).store.waiters, w.key);
            b.Some? && (Deliverable(b.value) || Midway(w, b.value, n + 1))
  {
    hide LineageTip, Recorded, RecordSlot;
    var slot := w.children[n];
    var a := st.waiters[w.key];
    assert slot.chainRoot in st.childChains && OwnsChain(st, w.key, slot);
    if slot.terminal.None? {
      assert SettledSlot(st, slot);
      assert SlotTurn(st, slot) == RecoverTerminal(st, slot.chainRoot) by { hide RecoverTerminal; }
      hide SlotTurn, PendingFollowChild;
      SlotOfChainAt(a.children, n);
      hide SlotOfChain;
      var next := RecordSlot(a.children, slot.chainRoot, LineageTip(st, slot.chainRoot, LINEAGE_LIMIT).value);
      AllRecorded(next);
      forall j | 0 <= j < |a.children| && j != n ensures next[j] == a.children[j] {
        assert w.children[j].chainRoot != w.children[n].chainRoot;
      }
    }
  }

  lemma SettledStays(st: Store, s: Store, w: Waiter)
    requires SettledCohort(st, w) && s.threads == st.threads && s.childChains == st.childChains
    ensures SettledCohort(s, w)
  {
    hide LineageTip;
    forall j | 0 <= j < |w.children| && w.children[j].terminal.None? ensures SettledSlot(s, w.children[j]) {
      assert SettledSlot(st, w.children[j]);
      SameTip(st, s, w.children[j].chainRoot, LINEAGE_LIMIT);
    }
  }

  lemma SlotTurnKeepsIndex(st: Store, slot: Slot)
    ensures var r := SlotTurn(st, slot); r.store.threads == st.threads && r.store.childChains == st.childChains
  {
    hide PendingFollowChild, LineageTip, Recorded, SlotOfChain;
  }

  lemma {:induction false} SettledSlotsFlip(st: Store, w: Waiter, n: nat)
    requires SettledCohort(st, w) && OwnsChains(st, w.key, w.children) && n <= |w.children| && w.key in st.waiters
    requires Deliverable(st.waiters[w.key]) || Midway(w, st.waiters[w.key], n)
    ensures var r := SlotTurns(st, w.children[n..]);
            !r.failed ==> w.key in r.store.waiters && Deliverable(r.store.waiters[w.key])
    decreases |w.children| - n
  {
    hide SlotTurn, SettledCohort, Recorded;
    var slots := w.children[n..];
    var r := SlotTurns(st, slots);
    if n == |w.children| {
      AllRecorded(st.waiters[w.key].children);
      assert |w.children| == w.expected by { CohortIsWhole(st, w); }
    } else {
      assert slots[0] == w.children[n] && slots[1..] == w.children[n + 1..];
      var first := SlotTurn(st, slots[0]);
      SlotTurnKeepsIndex(st, slots[0]);
      assert OwnsChain(st, w.key, slots[0]);
      SlotTurnRecords(st, w.key, slots[0]);
      if !Deliverable(st.waiters[w.key]) { SettledSlotRecords(st, w, n); }
      if !first.failed {
        SettledStays(st, first.store, w);
        assert OwnsChains(first.store, w.key, w.children);
        SettledSlotsFlip(first.store, w, n + 1);
      }
    }
  }

  lemma CohortIsWhole(st: Store, w: Waiter)
    requires SettledCohort(st, w)
    ensures |w.children| == w.expected
  {
  }

  lemma SettledTurnWakes(st: Store, w: Waiter, now: int)
    requires Get(st.waiters, w.key) == Some(w) && OwnsChains(st, w.key, w.children) && SettledCohort(st, w)
    ensures var r := WaiterTurn(st, w, now); !r.failed ==> ResumeParent(w.key) in r.actions
  {
    AllRecorded(w.children);
    assert Midway(w, w, 0);
    hide SlotTurns, Recorded, Midway, OwnsChains;
    assert w.children[0..] == w.children;
    SettledSlotsFlip(st, w, 0);
    SlotTurnsRecord(st, w.key, w.children);
    var slots := SlotTurns(st, w.children);
    var r := WaitingTurn(st, w);
    if !r.failed {
      assert slots.flipped;
      assert r.actions[|slots.actions|] == ResumeParent(w.key);
    }
  }

  /** A waiting waiter whose whole cohort has settled is woken by the pass that finds it so. */
  lemma {:induction false} SettledCohortIsWoken(st: Store, ws: seq<Waiter>, now: int, i: nat)
    requires ListedWaiters(st, ws) && !WaiterTurns(st, ws, now).failed && i < |ws| && SettledCohort(st, ws[i])
    ensures ResumeParent(ws[i].key) in WaiterTurns(st, ws, now).actions
    decreases |ws|
  {
    hide WaiterTurn, SettledCohort, Advances;
    var first := WaiterTurn(st, ws[0], now);
    TurnWakes(st, ws[0], now);
    if i == 0 {
      SettledTurnWakes(st, ws[0], now);
    } else {
      ListedAfter(st, first.store, ws);
      assert ws[1..][i - 1] == ws[i] && ws[0].key != ws[i].key;
      SettledElsewhere(st, first.store, ws[0].key, ws[i]);
      SettledCohortIsWoken(first.store, ws[1..], now, i - 1);
    }
  }

  lemma SettledElsewhere(st: Store, s: Store, key: string, w: Waiter)
    requires SettledCohort(st, w) && OwnsChains(st, w.key, w.children) && OthersKept(st, s, key) && key != w.key
    ensures SettledCohort(s, w)
  {
    hide LineageTip;
    forall j | 0 <= j < |w.children|
      ensures w.children[j].chainRoot in s.childChains
              && (w.children[j].terminal.None? ==> SettledSlot(s, w.children[j]))
    {
      assert w.children[j].chainRoot in st.childChains && OwnsChain(st, w.key, w.children[j]);
      assert w.children[j].terminal.None? ==> SettledSlot(st, w.children[j]);
      SameTip(st, s, w.children[j].chainRoot, LINEAGE_LIMIT);
    }
  }

  /** A lineage that has settled: continued threads, each naming the next, up to a terminal one. */
  ghost predicate Lineage(st: Store, chain: seq<ThreadId>) {
    && chain != [] && (forall i | 0 <= i < |chain| :: chain[i] in st.threads)
    && (forall i | 0 <= i < |chain| - 1 :: Hands(st, chain[i], chain[i + 1]))
    && var last := st.threads[chain[|chain| - 1]].status; Terminal(last) && last != Continued
  }

  predicate Hands(st: Store, t: ThreadId, next: ThreadId) {
    t in st.threads && st.threads[t].status == Continued && st.threads[t].successor == Some(next)
  }

  /** The tip is the status at the end of the settled lineage that starts at the cursor, within the hop limit. */
  lemma {:induction false} TipOf(st: Store, chain: seq<ThreadId>, fuel: nat)
    requires Lineage(st, chain) && |chain| <= fuel
    ensures LineageTip(st, chain[0], fuel) == Some(st.threads[chain[|chain| - 1]].status)
    decreases fuel
  {
    if |chain| > 1 {
      assert Hands(st, chain[0], chain[1]);
      var rest := chain[1..];
      forall i | 0 <= i < |rest| - 1 ensures Hands(st, rest[i], rest[i + 1]) {
        assert Hands(st, chain[i + 1], chain[i + 2]);
      }
      TipOf(st, rest, fuel - 1);
    }
  }

  lemma {:induction false} TipHasLineage(st: Store, cursor: ThreadId, fuel: nat) returns (chain: seq<ThreadId>)
    requires LineageTip(st, cursor, fuel).Some?
    ensures Lineage(st, chain) && |chain| <= fuel && chain[0] == cursor
    ensures LineageTip(st, cursor, fuel) == Some(st.threads[chain[|chain| - 1]].status)
    decreases fuel
  {
    if st.threads[cursor].status.Continued? {
      var rest := TipHasLineage(st, st.threads[cursor].successor.value, fuel - 1);
      chain := [cursor] + rest;
      assert Hands(st, cursor, rest[0]);
      forall i | 0 <= i < |chain| - 1 ensures Hands(st, chain[i], chain[i + 1]) {
        if i > 0 { assert Hands(st, rest[i - 1], rest[i]); }
      }
    } else {
      chain := [cursor];
    }
  }

  /** The parent has moved past its follow node, so nobody else will drive the reserved waiter. */
  predicate Suspended(st: Store, w: Waiter) {
    w.successor.Some? || (w.parent in st.threads && st.threads[w.parent].status == Continued)
  }

  /** The slots are the expected ones, in order. */
  predicate WellFormed(w: Waiter) {
    |w.children| == w.expected && forall i | 0 <= i < |w.children| :: w.children[i].index == i
  }

  /** How a reserved waiter ends: left to its parent, cleared as malformed, or committed with its successor. */
  ghost predicate Committed(st: Store, w: Waiter, after: Option<Waiter>) {
    if !Suspended(st, w) then after == Some(w)
    else if !WellFormed(w) then after.None?
    else
      && after.Some? && after.value.phase != Reserved && after.value.successor.Some?
      && ((forall i | 0 <= i < |w.children| :: w.children[i].terminal.Some?) ==> Deliverable(after.value))
  }

  lemma ReservedTurnCommits(st: Store, w: Waiter)
    requires Get(st.waiters, w.key) == Some(w) && w.phase.Reserved? && OwnsChains(st, w.key, w.children)
    ensures var r := ReservedTurn(st, w);
            !r.failed ==> w.parent in st.threads && Committed(st, w, Get(r.store.waiters, w.key))
  {
    hide WaitingTurn, Recorded, Adopt;
    var r := ReservedTurn(st, w);
    if r.failed { return; }
    assert Indexed(w) <==> WellFormed(w);
    hide Indexed, WellFormed;
    if Suspended(st, w) && WellFormed(w) {
      var s := Adopt(st, w, st.threads[w.parent]);
      AdoptConverges(st, w, st.threads[w.parent]);
      var cur := s.waiters[w.key];
      assert cur.successor.Some?;
      AllRecorded(cur.children);
      CohortComplete(w, cur);
      var next := cur.(phase := if Complete(cur) then Ready else Waiting);
      var marked := s.(waiters := s.waiters[w.key := next]);
      if next.phase.Waiting? {
        assert r == WaitingTurn(marked, next);
        hide ReservedTurn, Converges, Complete;
        WaitingCommits(marked, next);
      }
    }
  }

  lemma CohortComplete(w: Waiter, cur: Waiter)
    requires WellFormed(w) && cur.children == w.children && cur.expected == w.expected
    ensures Complete(cur) <==> forall i | 0 <= i < |w.children| :: w.children[i].terminal.Some?
  {
    AllRecorded(cur.children);
    hide Recorded;
  }

  lemma WaitingCommits(st: Store, w: Waiter)
    requires Get(st.waiters, w.key) == Some(w) && w.phase.Waiting? && OwnsChains(st, w.key, w.children)
    ensures var b := Get(WaitingTurn(st, w).store.waiters, w.key);
            b.Some? && b.value.phase != Reserved && b.value.successor == w.successor
  {
    hide SlotTurns, Recorded, OwnsChains;
    SlotTurnsRecord(st, w.key, w.children);
    NothingRecorded(st, w);
  }

  /**
   A successful pass converges every reserved waiter: while its parent may still
   re-drive it, it is left as it is; otherwise it is cleared if its slots are
   not the expected ones, and else committed with its successor recorded, ready
   at once if its whole cohort was.  Any other waiter disappears only if it was stale, undeliverable and without its
   parent's row.
   */
  lemma ReservedConverges(st: Store, ws: seq<Waiter>, now: int, i: nat)
    requires ListedWaiters(st, ws) && !WaiterTurns(st, ws, now).failed && i < |ws|
    ensures var after := Get(WaiterTurns(st, ws, now).store.waiters, ws[i].key);
            if ws[i].phase.Reserved? then ws[i].parent in st.threads && Committed(st, ws[i], after)
            else after.None? ==>
              && !Deliverable(ws[i]) && ws[i].parent !in st.threads
              && SatSub(now, ws[i].updatedAt) >= 15 * 60 * 1000
  {
    hide WaiterTurns, ListedWaiters, OwnsChains, WaitingTurn, ReservedTurn, Committed;
    var s := OwnTurn(st, ws, now, i);
    var w := ws[i];
    if w.phase.Reserved? {
      ReservedTurnCommits(s, w);
      CommittedFrom(st, s, w, Get(WaiterTurn(s, w, now).store.waiters, w.key));
      ReservedFrames(s, w);
    } else if w.phase.Waiting? {
      WaitingCommits(s, w);
      WaitingFrames(s, w);
    }
  }

  lemma CommittedFrom(a: Store, b: Store, w: Waiter, after: Option<Waiter>)
    requires a.threads == b.threads
    ensures Committed(a, w, after) <==> Committed(b, w, after)
  {
  }

  lemma WaitingFrames(st: Store, w: Waiter)
    requires Get(st.waiters, w.key) == Some(w) && OwnsChains(st, w.key, w.children)
    ensures WaitingTurn(st, w).store.threads == st.threads
  {
    hide SlotTurns, Records;
    SlotTurnsRecord(st, w.key, w.children);
  }

  lemma ReservedFrames(st: Store, w: Waiter)
    requires Get(st.waiters, w.key) == Some(w) && w.phase.Reserved? && OwnsChains(st, w.key, w.children)
    ensures !ReservedTurn(st, w).failed ==> ReservedTurn(st, w).store.threads == st.threads
  {
    hide ReservedTurn, Advances;
    ReservedWakes(st, w);
  }

  // ----- Whom the pass may relaunch -----

  /** Windows only gain queued members, and no thread changes. */
  ghost predicate WindowsGrow(a: Store, b: Store) {
    && b.threads == a.threads
    && (forall c | c in a.windows :: c in b.windows && b.windows[c] == a.windows[c])
    && (forall c | c in b.windows && c !in a.windows :: !b.windows[c].launched)
  }

  lemma WindowsGrowOn(a: Store, b: Store, c: Store)
    requires WindowsGrow(a, b) && WindowsGrow(b, c)
    ensures WindowsGrow(a, c)
  {
  }

  /** The child may start now: its window has admitted it and not cancelled it, or it belongs to none. */
  predicate MayStart(st: Store, child: ThreadId) {
    && child in st.threads
    && var row := st.threads[child];
       if row.chainRoot in st.windows
       then st.windows[row.chainRoot].launched && !st.windows[row.chainRoot].cancelled
       else row.metadata.Some? ==> row.metadata.value.window.None?
  }

  ghost predicate StartsOnly(st: Store, actions: seq<Action>) {
    forall i | 0 <= i < |actions| && actions[i].RelaunchChild? :: MayStart(st, actions[i].child)
  }

  /** A slot names its child's chain. */
  ghost predicate ChainsMatch(st: Store, slots: seq<Slot>) {
    forall j | 0 <= j < |slots| && slots[j].child in st.threads ::
      st.threads[slots[j].child].chainRoot == slots[j].chainRoot
  }

  lemma MayStartBefore(a: Store, b: Store, actions: seq<Action>)
    requires WindowsGrow(a, b) && StartsOnly(b, actions)
    ensures StartsOnly(a, actions)
  {
    forall i | 0 <= i < |actions| && actions[i].RelaunchChild? ensures MayStart(a, actions[i].child) {
      assert MayStart(b, actions[i].child);
    }
  }

  lemma SlotTurnStarts(st: Store, slot: Slot)
    requires slot.child in st.threads ==> st.threads[slot.child].chainRoot == slot.chainRoot
    ensures var r := SlotTurn(st, slot); WindowsGrow(st, r.store) && StartsOnly(st, r.actions)
  {
    hide PendingFollowChild, LineageTip, Recorded, SlotOfChain, RecordSlot;
  }

  lemma {:induction false} SlotTurnsStart(st: Store, slots: seq<Slot>)
    requires ChainsMatch(st, slots)
    ensures var r := SlotTurns(st, slots); WindowsGrow(st, r.store) && StartsOnly(st, r.actions)
    decreases |slots|
  {
    hide SlotTurn, MayStart;
    if slots == [] { return; }
    var first := SlotTurn(st, slots[0]);
    SlotTurnStarts(st, slots[0]);
    if !first.failed {
      assert ChainsMatch(first.store, slots[1..]) by {
        assert forall j | 0 <= j < |slots[1..]| :: slots[1..][j] == slots[j + 1];
      }
      SlotTurnsStart(first.store, slots[1..]);
      var rest := SlotTurns(first.store, slots[1..]);
      WindowsGrowOn(st, first.store, rest.store);
      MayStartBefore(st, first.store, rest.actions);
    }
  }

  lemma WaitingStarts(st: Store, w: Waiter)
    requires ChainsMatch(st, w.children)
    ensures var r := WaitingTurn(st, w); WindowsGrow(st, r.store) && StartsOnly(st, r.actions)
  {
    hide SlotTurns, MayStart, ChainsMatch;
    SlotTurnsStart(st, w.children);
  }

  lemma ReservedStarts(st: Store, w: Waiter)
    requires Get(st.waiters, w.key) == Some(w) && w.phase.Reserved? && ChainsMatch(st, w.children)
    ensures var r := ReservedTurn(st, w); WindowsGrow(st, r.store) && StartsOnly(st, r.actions)
  {
    hide WaitingTurn, Recorded, Adopt, Complete, Indexed, MayStart;
    if w.parent !in st.threads { return; }
    var s := Adopt(st, w, st.threads[w.parent]);
    AdoptConverges(st, w, st.threads[w.parent]);
    var cur := s.waiters[w.key];
    var next := cur.(phase := if Complete(cur) then Ready else Waiting);
    var marked := s.(waiters := s.waiters[w.key := next]);
    assert ChainsMatch(marked, next.children);
    WaitingStarts(marked, next);
    WindowsGrowOn(st, marked, WaitingTurn(marked, next).store);
    MayStartBefore(st, marked, WaitingTurn(marked, next).actions);
  }

  lemma TurnStarts(st: Store, w: Waiter, now: int)
    requires Get(st.waiters, w.key) == Some(w) && ChainsMatch(st, w.children)
    ensures var r := WaiterTurn(st, w, now); WindowsGrow(st, r.store) && StartsOnly(st, r.actions)
  {
    hide WaitingTurn, ReservedTurn, MayStart, ChainsMatch, Stale;
    WaitingStarts(st, w);
    if w.phase.Reserved? { ReservedStarts(st, w); }
  }

  /**
   A successful pass relaunches a child only if it may start: it is not queued
   in a launch window, not cancelled there, and not waiting to be put into one.
   */
  lemma {:induction false} RelaunchesOnlyStartable(st: Store, ws: seq<Waiter>, now: int)
    requires ListedWaiters(st, ws) && forall i | 0 <= i < |ws| :: ChainsMatch(st, ws[i].children)
    requires !WaiterTurns(st, ws, now).failed
    ensures StartsOnly(st, WaiterTurns(st, ws, now).actions)
    decreases |ws|
  {
    hide WaiterTurn, MayStart, Wakes;
    if ws == [] { return; }
    var first := WaiterTurn(st, ws[0], now);
    TurnStarts(st, ws[0], now);
    TurnWakes(st, ws[0], now);
    WakesKeepsOthers(st, ws[0], first);
    ListedAfter(st, first.store, ws);
    forall i | 0 <= i < |ws[1..]| ensures ChainsMatch(first.store, ws[1..][i].children) {
      assert ChainsMatch(st, ws[i + 1].children);
    }
    RelaunchesOnlyStartable(first.store, ws[1..], now);
    MayStartBefore(st, first.store, WaiterTurns(first.store, ws[1..], now).actions);
  }
}
