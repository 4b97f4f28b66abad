/** What the follow pass preserves, whom it relaunches, and that it leaves no pending child behind. */
module FollowRecoveryLaws {
  import opened Prelude
  import opened RecoveryStore
  import opened ThreadRecovery
  import opened FollowRecovery

  /** Slots keep everything but a terminal that was not yet recorded. */
  predicate SlotsAdvance(a: seq<Slot>, b: seq<Slot>) {
    |a| == |b| && forall i | 0 <= i < |a| :: b[i] == a[i].(terminal := b[i].terminal)
  }

  predicate WaiterAdvances(a: Waiter, b: Waiter) {
    b.key == a.key && b.parent == a.parent && SlotsAdvance(a.children, b.children)
  }

  /** Threads untouched, windows only added, waiters only advanced or, for `cleared`, removed. */
  ghost predicate Frame(a: Store, b: Store, cleared: set<string>) {
    && b.threads == a.threads && b.claims == a.claims && b.followEdges == a.followEdges
    && (forall c | c in a.windows :: c in b.windows && b.windows[c] == a.windows[c])
    && b.waiters.Keys <= a.waiters.Keys <= b.waiters.Keys + cleared
    && (forall k | k in b.waiters :: WaiterAdvances(a.waiters[k], b.waiters[k]))
    && (forall c | c in b.childChains :: c in a.childChains && b.childChains[c] == a.childChains[c])
    && (forall c | c in a.childChains && c !in b.childChains :: a.childChains[c] in cleared)
  }

  lemma FrameTransitive(a: Store, b: Store, c: Store, x: set<string>, y: set<string>, z: set<string>)
    requires Frame(a, b, x) && Frame(b, c, y) && x <= z && y <= z
    ensures Frame(a, c, z)
  {
    forall k | k in c.waiters ensures WaiterAdvances(a.waiters[k], c.waiters[k]) {
      assert WaiterAdvances(a.waiters[k], b.waiters[k]) && WaiterAdvances(b.waiters[k], c.waiters[k]);
    }
  }

  lemma FrameReflexive(st: Store, x: set<string>)
    ensures Frame(st, st, x)
  {
  }

  lemma UpdateFrame(st: Store, key: string, next: Waiter)
    requires key in st.waiters && WaiterAdvances(st.waiters[key], next)
    ensures Frame(st, st.(waiters := st.waiters[key := next]), {})
  {
    var r := st.(waiters := st.waiters[key := next]);
    assert r.waiters.Keys == st.waiters.Keys;
  }

  lemma InsertFrame(st: Store, chain: ThreadId, window: Window)
    requires chain !in st.windows
    ensures Frame(st, st.(windows := st.windows[chain := window]), {})
  {
  }

  lemma RecoverTerminalFrame(st: Store, chain: ThreadId)
    ensures Frame(st, RecoverTerminal(st, chain).store, {})
  {
    var r := RecoverTerminal(st, chain).store;
    if r != st {
      var key := st.childChains[chain];
      hide Frame, Recorded, LineageTip;
      UpdateFrame(st, key, r.waiters[key]);
      assert st.(waiters := st.waiters[key := r.waiters[key]]) == r;
    }
  }

  lemma SlotTurnFrame(st: Store, slot: Slot)
    ensures Frame(st, SlotTurn(st, slot).store, {})
  {
    RecoverTerminalFrame(st, slot.chainRoot);
    hide PendingFollowChild, RecoverTerminal, Frame;
    FrameReflexive(st, {});
    if slot.chainRoot !in st.windows && slot.child in st.threads && st.threads[slot.child].metadata.Some?
       && st.threads[slot.child].metadata.value.window.Some? {
      InsertFrame(st, slot.chainRoot, Window(st.threads[slot.child].metadata.value.window.value, false, false));
    }
  }

  lemma {:induction false} SlotTurnsFrame(st: Store, slots: seq<Slot>)
    ensures Frame(st, SlotTurns(st, slots).store, {})
    decreases |slots|
  {
    hide SlotTurn;
    if slots == [] { return; }
    var first := SlotTurn(st, slots[0]);
    SlotTurnFrame(st, slots[0]);
    if !first.failed {
      SlotTurnsFrame(first.store, slots[1..]);
      FrameTransitive(st, first.store, SlotTurns(first.store, slots[1..]).store, {}, {}, {});
    }
  }

  lemma ClearFrame(st: Store, key: string)
    ensures Frame(st, ClearWaiter(st, key), {key})
  {
  }

  lemma AdoptFrame(st: Store, w: Waiter, parent: ThreadRow)
    ensures Frame(st, Adopt(st, w, parent), {})
  {
    FrameReflexive(st, {});
    if Adopt(st, w, parent) != st {
      var next := Adopt(st, w, parent).waiters[w.key];
      assert Adopt(st, w, parent) == st.(waiters := st.waiters[w.key := next]);
      assert WaiterAdvances(st.waiters[w.key], next);
      hide Frame, Adopt, WaiterAdvances;
      UpdateFrame(st, w.key, next);
    }
  }

  lemma WaitingFrame(st: Store, w: Waiter)
    ensures Frame(st, WaitingTurn(st, w).store, {})
  {
    hide SlotTurns;
    SlotTurnsFrame(st, w.children);
  }

  lemma ReservedFrame(st: Store, w: Waiter)
    ensures Frame(st, ReservedTurn(st, w).store, {w.key})
  {
    hide WaitingTurn, Adopt, ClearWaiter, Frame, Complete, Indexed;
    ClearFrame(st, w.key);
    FrameReflexive(st, {w.key});
    if w.parent !in st.threads { return; }
    AdoptFrame(st, w, st.threads[w.parent]);
    var adopted := Adopt(st, w, st.threads[w.parent]);
    FrameReflexive(adopted, {});
    FrameTransitive(st, adopted, adopted, {}, {}, {w.key});
    if w.key !in adopted.waiters { return; }
    var cur := adopted.waiters[w.key];
    WaitingFrame(adopted, cur);
    FrameTransitive(st, adopted, WaitingTurn(adopted, cur).store, {}, {}, {w.key});
    var next := cur.(phase := if Complete(cur) then Ready else Waiting);
    var marked := adopted.(waiters := adopted.waiters[w.key := next]);
    UpdateFrame(adopted, w.key, next);
    FrameTransitive(st, adopted, marked, {}, {}, {w.key});
    WaitingFrame(marked, next);
    FrameTransitive(st, marked, WaitingTurn(marked, next).store, {w.key}, {}, {w.key});
  }

  lemma WaiterFrame(st: Store, w: Waiter, now: int)
    ensures Frame(st, WaiterTurn(st, w, now).store, {w.key})
  {
    hide WaitingTurn, ReservedTurn, ClearWaiter, Frame;
    WaitingFrame(st, w);
    FrameReflexive(st, {w.key});
    FrameReflexive(WaitingTurn(st, w).store, {w.key});
    FrameTransitive(st, WaitingTurn(st, w).store, WaitingTurn(st, w).store, {}, {w.key}, {w.key});
    ReservedFrame(st, w);
    var o := match w.phase
             case Ready => Outcome(st, [ResumeParent(w.key)], false)
             case Resuming => Outcome(st, [ResumeParent(w.key)], false)
             case Waiting => WaitingTurn(st, w)
             case Reserved => ReservedTurn(st, w);
    ClearFrame(o.store, w.key);
    FrameTransitive(st, o.store, ClearWaiter(o.store, w.key), {w.key}, {w.key}, {w.key});
  }

  lemma {:induction false} WaitersFrame(st: Store, ws: seq<Waiter>, now: int)
    ensures Frame(st, WaiterTurns(st, ws, now).store, set w | w in ws :: w.key)
    decreases |ws|
  {
    hide WaiterTurn;
    if ws == [] { return; }
    var cleared := set w | w in ws :: w.key;
    assert ws[0] in ws && forall w | w in ws[1..] :: w in ws;
    WaiterFrame(st, ws[0], now);
    var first := WaiterTurn(st, ws[0], now);
    FrameTransitive(st, first.store, first.store, {ws[0].key}, {}, cleared);
    if !first.failed {
      WaitersFrame(first.store, ws[1..], now);
      FrameTransitive(st, first.store, WaiterTurns(first.store, ws[1..], now).store,
                      {ws[0].key}, set w | w in ws[1..] :: w.key, cleared);
    }
  }

  lemma {:induction false} SlotOfAdvances(a: seq<Slot>, b: seq<Slot>, child: ThreadId)
    requires SlotsAdvance(a, b)
    ensures SlotOf(a, child).Some? <==> SlotOf(b, child).Some?
    ensures SlotOf(a, child).Some? ==>
              SlotOf(b, child).value == SlotOf(a, child).value.(terminal := SlotOf(b, child).value.terminal)
    decreases |a|
  {
    if a != [] && a[0].child != child {
      assert b[0].child == a[0].child;
      SlotOfAdvances(a[1..], b[1..], child);
    }
  }

  /** While its waiter survives, a child is pending after the pass exactly if it was before. */
  lemma PendingIsStable(a: Store, b: Store, cleared: set<string>, row: ThreadRow)
    requires Frame(a, b, cleared) && WaiterByChain(b, row.chainRoot).Some?
    ensures PendingFollowChild(a, row) <==> PendingFollowChild(b, row)
  {
    var k := b.childChains[row.chainRoot];
    assert WaiterAdvances(a.waiters[k], b.waiters[k]);
    SlotOfAdvances(a.waiters[k].children, b.waiters[k].children, row.id);
  }

  lemma PendingHasWaiter(a: Store, row: ThreadRow)
    requires PendingFollowChild(a, row)
    ensures WaiterByChain(a, row.chainRoot).Some?
  {
  }

  /** Slot j is the first of the waiter that names the thread. */
  predicate FirstSlot(w: Waiter, t: ThreadId, j: nat) {
    j < |w.children| && w.children[j].child == t && forall i | 0 <= i < j :: w.children[i].child != t
  }

  /** The launch the thread was admitted for is the one its slot and waiter describe. */
  predicate AdmittedFor(row: ThreadRow, w: Waiter, slot: Slot) {
    && row.metadata.Some? && row.metadata.value.nativeResume == None
    && row.metadata.value.sealed == Some(slot.sealed) && row.metadata.value.followParent == Some(w.parent)
    && row.chainRoot == slot.chainRoot && row.itemRef == slot.itemRef == slot.sealed.itemRef
    && row.launchMode == "detached"
    && row.metadata.value.resume.Some?
    && var resume := row.metadata.value.resume.value;
       && resume.kind == row.kind && resume.itemRef == row.itemRef && resume.launchMode == row.launchMode
       && resume.executorRef == Some(slot.sealed.executorRef) && resume.runtimeRef == Some(slot.sealed.runtimeRef)
  }

  /** Created, without a process group, and admitted for the first slot that names it in its chain's waiter. */
  ghost predicate AwaitsLaunch(st: Store, row: ThreadRow) {
    && row.status == Created && row.pgid == None
    && row.chainRoot in st.childChains && st.childChains[row.chainRoot] in st.waiters
    && var w := st.waiters[st.childChains[row.chainRoot]];
       exists j: nat :: FirstSlot(w, row.id, j) && AdmittedFor(row, w, w.children[j])
  }

  lemma {:induction false} SlotOfIsFirst(children: seq<Slot>, w: Waiter, n: nat, t: ThreadId)
    requires n <= |w.children| && children == w.children[n..] && forall i | 0 <= i < n :: w.children[i].child != t
    ensures SlotOf(children, t).Some? <==> exists j: nat :: FirstSlot(w, t, j)
    ensures forall j: nat | FirstSlot(w, t, j) :: SlotOf(children, t) == Some(w.children[j])
    decreases |children|
  {
    if children != [] {
      assert children[0] == w.children[n];
      if children[0].child == t {
        assert FirstSlot(w, t, n);
      } else {
        SlotOfIsFirst(children[1..], w, n + 1, t);
      }
    }
  }

  /** A child is pending exactly when it awaits the launch its waiter's slot describes. */
  lemma PendingIff(st: Store, row: ThreadRow)
    ensures PendingFollowChild(st, row) <==> AwaitsLaunch(st, row)
  {
    if WaiterByChain(st, row.chainRoot).Some? {
      var w := st.waiters[st.childChains[row.chainRoot]];
      assert w.children[0..] == w.children;
      SlotOfIsFirst(w.children, w, 0, row.id);
      hide SlotOf;
      if SlotOf(w.children, row.id).Some? {
        var j: nat :| FirstSlot(w, row.id, j);
      }
    }
  }

  /** The pass relaunches a child only if it was a pending follow child when the pass began. */
  ghost predicate OnlyPending(st: Store, actions: seq<Action>) {
    forall i | 0 <= i < |actions| && actions[i].RelaunchChild? ::
      && actions[i].child in st.threads && PendingFollowChild(st, st.threads[actions[i].child])
  }

  lemma OnlyPendingBefore(a: Store, b: Store, cleared: set<string>, actions: seq<Action>)
    requires Frame(a, b, cleared) && OnlyPending(b, actions)
    ensures OnlyPending(a, actions)
  {
    hide PendingFollowChild;
    forall i | 0 <= i < |actions| && actions[i].RelaunchChild?
      ensures actions[i].child in a.threads && PendingFollowChild(a, a.threads[actions[i].child])
    {
      var row := b.threads[actions[i].child];
      PendingHasWaiter(b, row);
      PendingIsStable(a, b, cleared, row);
    }
  }

  lemma {:induction false} SlotTurnsOnlyPending(st: Store, slots: seq<Slot>)
    ensures OnlyPending(st, SlotTurns(st, slots).actions)
    decreases |slots|
  {
    if slots == [] { return; }
    var first := SlotTurn(st, slots[0]);
    assert OnlyPending(st, first.actions) by { hide PendingFollowChild; }
    hide SlotTurn, PendingFollowChild;
    if !first.failed {
      SlotTurnFrame(st, slots[0]);
      SlotTurnsOnlyPending(first.store, slots[1..]);
      OnlyPendingBefore(st, first.store, {}, SlotTurns(first.store, slots[1..]).actions);
    }
  }

  lemma WaitingOnlyPending(st: Store, w: Waiter)
    ensures OnlyPending(st, WaitingTurn(st, w).actions)
  {
    hide SlotTurns, PendingFollowChild;
    SlotTurnsOnlyPending(st, w.children);
  }

  lemma ReservedOnlyPending(st: Store, w: Waiter)
    ensures OnlyPending(st, ReservedTurn(st, w).actions)
  {
    hide WaitingTurn, OnlyPending, Frame, Adopt, ClearWaiter, Complete, Indexed;
    NothingPending(st, w.key);
    if w.parent !in st.threads { return; }
    var adopted := Adopt(st, w, st.threads[w.parent]);
    AdoptFrame(st, w, st.threads[w.parent]);
    if w.key !in adopted.waiters { return; }
    var cur := adopted.waiters[w.key];
    WaitingOnlyPending(adopted, cur);
    OnlyPendingBefore(st, adopted, {}, WaitingTurn(adopted, cur).actions);
    var next := cur.(phase := if Complete(cur) then Ready else Waiting);
    var marked := adopted.(waiters := adopted.waiters[w.key := next]);
    UpdateFrame(adopted, w.key, next);
    FrameTransitive(st, adopted, marked, {}, {}, {});
    WaitingOnlyPending(marked, next);
    OnlyPendingBefore(st, marked, {}, WaitingTurn(marked, next).actions);
  }

  /** Neither no action nor waking a parent relaunches anything. */
  lemma NothingPending(st: Store, key: string)
    ensures OnlyPending(st, []) && OnlyPending(st, [ResumeParent(key)])
  {
  }

  lemma WaiterOnlyPending(st: Store, w: Waiter, now: int)
    ensures OnlyPending(st, WaiterTurn(st, w, now).actions)
  {
    hide WaitingTurn, ReservedTurn, OnlyPending, ClearWaiter, Stale;
    NothingPending(st, w.key);
    WaitingOnlyPending(st, w);
    ReservedOnlyPending(st, w);
  }

  lemma {:induction false} RelaunchesOnlyPending(st: Store, ws: seq<Waiter>, now: int)
    ensures OnlyPending(st, WaiterTurns(st, ws, now).actions)
    decreases |ws|
  {
    hide WaiterTurn, PendingFollowChild;
    if ws == [] { return; }
    var first := WaiterTurn(st, ws[0], now);
    WaiterOnlyPending(st, ws[0], now);
    if !first.failed {
      WaiterFrame(st, ws[0], now);
      RelaunchesOnlyPending(first.store, ws[1..], now);
      OnlyPendingBefore(st, first.store, {ws[0].key}, WaiterTurns(first.store, ws[1..], now).actions);
    }
  }

  /** The child is relaunched, or its chain is queued, admitted for relaunch or cancelled in a launch window. */
  predicate Covered(st: Store, actions: seq<Action>, slot: Slot) {
    || RelaunchChild(slot.child) in actions
    || (slot.chainRoot in st.windows && (!st.windows[slot.chainRoot].launched || st.windows[slot.chainRoot].cancelled))
  }

  /** An unsettled slot whose child is still pending. */
  ghost predicate PendingSlot(st: Store, key: string, slot: Slot) {
    && slot.terminal.None? && slot.child in st.threads
    && st.threads[slot.child].chainRoot == slot.chainRoot
    && PendingFollowChild(st, st.threads[slot.child])
    && slot.chainRoot in st.childChains && st.childChains[slot.chainRoot] == key
  }

  lemma PendingSlotStable(a: Store, b: Store, cleared: set<string>, key: string, slot: Slot)
    requires Frame(a, b, cleared) && PendingSlot(a, key, slot) && key !in cleared
    ensures PendingSlot(b, key, slot)
  {
    PendingIsStable(a, b, cleared, a.threads[slot.child]);
  }

  lemma CoveredStays(a: Store, b: Store, cleared: set<string>, xs: seq<Action>, ys: seq<Action>, slot: Slot)
    requires Frame(a, b, cleared) && Covered(a, xs, slot)
    ensures Covered(b, xs + ys, slot)
  {
  }

  lemma CoveredAfter(st: Store, xs: seq<Action>, ys: seq<Action>, slot: Slot)
    requires Covered(st, ys, slot)
    ensures Covered(st, xs + ys, slot)
  {
  }

  lemma SlotTurnCovers(st: Store, slot: Slot, key: string)
    requires PendingSlot(st, key, slot)
    ensures var r := SlotTurn(st, slot); Covered(r.store, r.actions, slot)
  {
    hide PendingFollowChild;
  }

  lemma {:induction false} SlotTurnsCover(st: Store, slots: seq<Slot>, j: nat, key: string)
    requires j < |slots| && PendingSlot(st, key, slots[j])
    ensures var r := SlotTurns(st, slots); r.failed || Covered(r.store, r.actions, slots[j])
    decreases |slots|
  {
    hide SlotTurn, PendingSlot, Covered, Frame;
    var first := SlotTurn(st, slots[0]);
    SlotTurnFrame(st, slots[0]);
    if j == 0 { SlotTurnCovers(st, slots[0], key); }
    if first.failed { return; }
    var rest := SlotTurns(first.store, slots[1..]);
    SlotTurnsFrame(first.store, slots[1..]);
    if j == 0 {
      CoveredStays(first.store, rest.store, {}, first.actions, rest.actions, slots[0]);
    } else {
      PendingSlotStable(st, first.store, {}, key, slots[j]);
      SlotTurnsCover(first.store, slots[1..], j - 1, key);
      if !rest.failed { CoveredAfter(rest.store, first.actions, rest.actions, slots[j]); }
    }
  }

  lemma WaitingCovers(st: Store, w: Waiter, j: nat)
    requires j < |w.children| && PendingSlot(st, w.key, w.children[j])
    ensures var r := WaitingTurn(st, w); r.failed || Covered(r.store, r.actions, w.children[j])
  {
    hide SlotTurns, PendingFollowChild;
    SlotTurnsCover(st, w.children, j, w.key);
  }

  lemma WaiterCovers(st: Store, w: Waiter, now: int, j: nat)
    requires w.phase.Waiting? && j < |w.children| && PendingSlot(st, w.key, w.children[j])
    ensures var r := WaiterTurn(st, w, now); r.failed || Covered(r.store, r.actions, w.children[j])
  {
    hide WaitingTurn, PendingFollowChild;
    WaitingCovers(st, w, j);
  }

  /**
   The follow pass leaves no gap: every pending child in an unsettled slot of a
   waiting waiter is relaunched, queued, inserted into its launch window or
   cancelled by a pass that succeeds.
   */
  lemma {:induction false} FollowPassCovers(st: Store, ws: seq<Waiter>, now: int, i: nat, j: nat)
    requires forall a, b | 0 <= a < b < |ws| :: ws[a].key != ws[b].key
    requires i < |ws| && ws[i].phase.Waiting? && j < |ws[i].children|
    requires PendingSlot(st, ws[i].key, ws[i].children[j])
    ensures var r := WaiterTurns(st, ws, now); r.failed || Covered(r.store, r.actions, ws[i].children[j])
    decreases |ws|
  {
    hide WaiterTurn, PendingFollowChild;
    var first := WaiterTurn(st, ws[0], now);
    WaiterFrame(st, ws[0], now);
    if first.failed { return; }
    var rest := WaiterTurns(first.store, ws[1..], now);
    if i == 0 {
      WaiterCovers(st, ws[0], now, j);
      WaitersFrame(first.store, ws[1..], now);
      CoveredStays(first.store, rest.store, set w | w in ws[1..] :: w.key, first.actions, rest.actions,
          ws[0].children[j]);
    } else {
      assert ws[0].key != ws[i].key && ws[1..][i - 1] == ws[i];
      PendingSlotStable(st, first.store, {ws[0].key}, ws[i].key, ws[i].children[j]);
      FollowPassCovers(first.store, ws[1..], now, i - 1, j);
    }
  }
}
