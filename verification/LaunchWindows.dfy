/** Launch-window recovery: release members whose chain has settled, then admit queued ones. */
module LaunchWindows {
  import opened Prelude
  import opened RecoveryStore
  import opened FollowRecovery

  predicate Waits(st: Store, chain: ThreadId) {
    chain in st.windows && !st.windows[chain].launched && !st.windows[chain].cancelled
  }

  predicate Launched(st: Store, chain: ThreadId) {
    chain in st.windows && st.windows[chain].launched
  }

  /** A follow cohort is admitted only while its waiter is durably waiting. */
  predicate Open(st: Store, key: string) {
    |key| >= 7 && key[..7] == "follow:" ==> key[7..] in st.waiters && st.waiters[key[7..]].phase.Waiting?
  }

  /** Only windows change; none appears; a removed member was launched and its chain is settled. */
  ghost predicate OnlyReleases(st: Store, next: Store) {
    && next == st.(windows := next.windows) && next.windows.Keys <= st.windows.Keys
    && forall c | c in st.windows ::
         if c in next.windows then
           next.windows[c] == st.windows[c] || (Waits(st, c) && next.windows[c] == st.windows[c].(launched := true))
         else Launched(st, c) && LineageTip(st, c, LINEAGE_LIMIT).Some?
  }

  /** No member of the window is still queued. */
  ghost predicate NoneWaits(st: Store, key: string) {
    forall c | Waits(st, c) :: st.windows[c].key != key
  }

  /** Every launched member whose chain has settled is gone. */
  ghost predicate AllReleased(st: Store, next: Store) {
    forall c | Launched(st, c) && LineageTip(st, c, LINEAGE_LIMIT).Some? :: c !in next.windows
  }

  /** The window is never short of room, however many members there are. */
  ghost predicate Ample(st: Store, room: (string, nat) -> nat, key: string) {
    forall t: nat :: room(key, t) > |st.windows|
  }

  /** The chains listed are exactly those this recovery moved from queued to launched. */
  ghost predicate Admits(st: Store, next: Store, admitted: seq<ThreadId>) {
    forall c :: c in admitted <==> Waits(st, c) && Launched(next, c)
  }

  /** The window's members still to look at, and what has been admitted of it so far. */
  ghost predicate Admitting(st: Store, next: Store, key: string, queue: set<ThreadId>, admitted: seq<ThreadId>) {
    && OnlyReleases(st, next) && Admits(st, next, admitted) && next.windows.Keys == st.windows.Keys
    && (forall c | c in queue :: Waits(st, c) && st.windows[c].key == key && next.windows[c] == st.windows[c])
    && (forall c | Waits(next, c) && next.windows[c].key == key :: c in queue)
    && (forall c | c in admitted :: st.windows[c].key == key)
    && |admitted| + |queue| <= |st.windows|
  }

  lemma AdmittingStarts(st: Store, key: string)
    ensures Admitting(st, st, key, (set c | c in st.windows && Waits(st, c) && st.windows[c].key == key), [])
  {
    var queue := set c | c in st.windows && Waits(st, c) && st.windows[c].key == key;
    SubsetCount(queue, st.windows.Keys);
  }

  lemma AdmittingGoesOn(st: Store, mid: Store, key: string, queue: set<ThreadId>, admitted: seq<ThreadId>, c: ThreadId)
    requires Admitting(st, mid, key, queue, admitted) && c in queue
    ensures var next := mid.(windows := mid.windows[c := mid.windows[c].(launched := true)]);
            Admitting(st, next, key, queue - {c}, admitted + [c])
  {
    AdmitOne(st, mid, c);
    hide OnlyReleases;
    var next := mid.(windows := mid.windows[c := mid.windows[c].(launched := true)]);
    forall x ensures x in admitted + [c] <==> Waits(st, x) && Launched(next, x) {
      assert x in admitted <==> Waits(st, x) && Launched(mid, x);
    }
    assert |queue - {c}| == |queue| - 1;
  }

  /**
   `launch_window_admit`: members of one window while there is room.  Width and
   the global ceiling are the parameter `room`; age order is left open.
   */
  method Admit(st: Store, key: string, room: nat) returns (next: Store, admitted: seq<ThreadId>)
    ensures OnlyReleases(st, next) && Admits(st, next, admitted) && next.windows.Keys == st.windows.Keys
    ensures |admitted| <= room && |admitted| <= |st.windows|
    ensures forall c | c in admitted :: st.windows[c].key == key
    ensures !Open(st, key) ==> admitted == []
    ensures Open(st, key) && |admitted| < room ==> NoneWaits(next, key)
  {
    next, admitted := st, [];
    if !Open(st, key) { return; }
    var queue := set c | c in st.windows && Waits(st, c) && st.windows[c].key == key;
    AdmittingStarts(st, key);
    hide Open, OnlyReleases, Admits;
    while queue != {} && |admitted| < room
      invariant Admitting(st, next, key, queue, admitted) && |admitted| <= room
      decreases |queue|
    {
      var c :| c in queue;
      AdmittingGoesOn(st, next, key, queue, admitted, c);
      queue := queue - {c};
      next := next.(windows := next.windows[c := next.windows[c].(launched := true)]);
      admitted := admitted + [c];
    }
  }

  lemma {:induction false} SubsetCount<T>(a: set<T>, b: set<T>)
    requires a <= b
    ensures |a| <= |b|
  {
    if a != {} {
      var x :| x in a;
      SubsetCount(a - {x}, b - {x});
    }
  }

  /** Marking one waiting member launched is a permitted change. */
  lemma AdmitOne(st: Store, mid: Store, c: ThreadId)
    requires OnlyReleases(st, mid) && Waits(st, c) && c in mid.windows && mid.windows[c] == st.windows[c]
    ensures var next := mid.(windows := mid.windows[c := mid.windows[c].(launched := true)]);
            && OnlyReleases(st, next) && next.windows.Keys == mid.windows.Keys
            && forall x :: Launched(next, x) <==> Launched(mid, x) || x == c
  {
  }

  lemma AdmitAfter(st: Store, mid: Store, next: Store, first: seq<ThreadId>, more: seq<ThreadId>)
    requires OnlyReleases(st, mid) && Admits(st, mid, first)
    requires OnlyReleases(mid, next) && Admits(mid, next, more)
    requires forall c | c in first :: c in next.windows
    ensures OnlyReleases(st, next) && Admits(st, next, first + more)
  {
    forall c | c in st.windows && c !in next.windows
      ensures Launched(st, c) && LineageTip(st, c, LINEAGE_LIMIT).Some?
    {
      SameTip(st, mid, c, LINEAGE_LIMIT);
      assert c !in first;
    }
    forall c ensures c in first + more <==> Waits(st, c) && Launched(next, c) {
      if Waits(st, c) && Launched(next, c) {
        assert c in mid.windows;
        assert Launched(mid, c) || Waits(mid, c);
      }
    }
  }

  /** The launched members whose chain has settled, from the listing made before any release. */
  lemma ReleaseOne(st: Store, mid: Store, c: ThreadId, first: seq<ThreadId>)
    requires OnlyReleases(st, mid) && Admits(st, mid, first) && Launched(st, c) && c in mid.windows
    requires LineageTip(mid, c, LINEAGE_LIMIT).Some?
    ensures var next := mid.(windows := mid.windows - {c});
            OnlyReleases(st, next) && Admits(st, next, first)
  {
    SameTip(st, mid, c, LINEAGE_LIMIT);
  }

  lemma {:induction false} SameTip(st: Store, mid: Store, c: ThreadId, fuel: nat)
    requires mid.threads == st.threads
    ensures LineageTip(mid, c, fuel) == LineageTip(st, c, fuel)
    decreases fuel
  {
    if fuel > 0 && c in st.threads && st.threads[c].successor.Some? {
      SameTip(st, mid, st.threads[c].successor.value, fuel - 1);
    }
  }

  /** The launched members still to look at; every settled one before them is gone. */
  ghost predicate Releasing(st: Store, next: Store, admitted: seq<ThreadId>, rest: set<ThreadId>) {
    && OnlyReleases(st, next) && Admits(st, next, admitted)
    && (forall c | c in rest :: Launched(st, c) && c in next.windows)
    && (forall c | Launched(st, c) && c !in rest && LineageTip(st, c, LINEAGE_LIMIT).Some? :: c !in next.windows)
  }

  lemma ReleasingStarts(st: Store)
    ensures Releasing(st, st, [], set c | c in st.windows && st.windows[c].launched)
  {
    hide LineageTip;
  }

  lemma ReleasingSkips(st: Store, next: Store, admitted: seq<ThreadId>, rest: set<ThreadId>, c: ThreadId)
    requires Releasing(st, next, admitted, rest) && c in rest && LineageTip(next, c, LINEAGE_LIMIT).None?
    ensures Releasing(st, next, admitted, rest - {c})
  {
    SameTip(st, next, c, LINEAGE_LIMIT);
    hide OnlyReleases, Admits, LineageTip;
  }

  lemma ReleasingGoesOn(st: Store, mid: Store, next: Store, admitted: seq<ThreadId>, more: seq<ThreadId>,
                        rest: set<ThreadId>, c: ThreadId)
    requires Releasing(st, mid, admitted, rest) && c in rest && LineageTip(mid, c, LINEAGE_LIMIT).Some?
    requires var freed := mid.(windows := mid.windows - {c});
             OnlyReleases(freed, next) && Admits(freed, next, more) && next.windows.Keys == freed.windows.Keys
    ensures Releasing(st, next, admitted + more, rest - {c})
  {
    ReleaseOne(st, mid, c, admitted);
    var freed := mid.(windows := mid.windows - {c});
    AdmittedStay(st, freed, admitted);
    AdmitAfter(st, freed, next, admitted, more);
    hide OnlyReleases, Admits, LineageTip;
  }

  lemma AdmittedStay(st: Store, mid: Store, admitted: seq<ThreadId>)
    requires Admits(st, mid, admitted)
    ensures forall c | c in admitted :: c in mid.windows
  {
  }

  /** The windows still to fill; every other open window with ample room has nobody queued. */
  ghost predicate Filling(st: Store, next: Store, admitted: seq<ThreadId>, room: (string, nat) -> nat,
                          keys: set<string>)
  {
    && OnlyReleases(st, next) && Admits(st, next, admitted) && AllReleased(st, next)
    && forall key | Open(st, key) && Ample(st, room, key) && key !in keys :: NoneWaits(next, key)
  }

  lemma FillingGoesOn(st: Store, mid: Store, next: Store, admitted: seq<ThreadId>, more: seq<ThreadId>,
                      room: (string, nat) -> nat, keys: set<string>, key: string, turn: nat)
    requires Filling(st, mid, admitted, room, keys)
    requires OnlyReleases(mid, next) && Admits(mid, next, more) && next.windows.Keys == mid.windows.Keys
    requires |more| <= |mid.windows| && (Open(mid, key) && |more| < room(key, turn) ==> NoneWaits(next, key))
    ensures Filling(st, next, admitted + more, room, keys - {key})
  {
    AdmittedStay(st, mid, admitted);
    AdmitAfter(st, mid, next, admitted, more);
    assert mid.windows.Keys <= st.windows.Keys && mid.waiters == st.waiters;
    SubsetCount(mid.windows.Keys, st.windows.Keys);
    QueuedBefore(mid, next);
    hide OnlyReleases, Admits;
    forall k | Open(st, k) && Ample(st, room, k) && k !in keys - {key} ensures NoneWaits(next, k) {
      if k == key { assert room(key, turn) > |st.windows|; }
    }
  }

  lemma QueuedBefore(mid: Store, next: Store)
    requires OnlyReleases(mid, next)
    ensures forall c | Waits(next, c) :: Waits(mid, c) && next.windows[c].key == mid.windows[c].key
  {
  }

  /** `prepare_launch_window_recovery`. */
  method RecoverWindows(st: Store, room: (string, nat) -> nat) returns (next: Store, admitted: seq<ThreadId>)
    ensures OnlyReleases(st, next) && Admits(st, next, admitted)
    ensures AllReleased(st, next)
    ensures forall key | Open(st, key) && Ample(st, room, key) :: NoneWaits(next, key)
  {
    next, admitted := st, [];
    var rest := set c | c in st.windows && st.windows[c].launched;
    var turn: nat := 0;
    ReleasingStarts(st);
    hide OnlyReleases, Admits, Open, Ample, LineageTip;
    while rest != {}
      invariant Releasing(st, next, admitted, rest)
      decreases |rest|
    {
      var c :| c in rest;
      if LineageTip(next, c, LINEAGE_LIMIT).Some? {
        var key := next.windows[c].key;
        ghost var mid := next;
        next := next.(windows := next.windows - {c});
        var more;
        next, more := Admit(next, key, room(key, turn));
        ReleasingGoesOn(st, mid, next, admitted, more, rest, c);
        admitted := admitted + more;
      } else {
        ReleasingSkips(st, next, admitted, rest, c);
      }
      rest := rest - {c};
      turn := turn + 1;
    }
    var keys := set c | c in next.windows && Waits(next, c) :: next.windows[c].key;
    while keys != {}
      invariant Filling(st, next, admitted, room, keys)
      decreases |keys|
    {
      var key :| key in keys;
      ghost var mid := next;
      var more;
      next, more := Admit(next, key, room(key, turn));
      FillingGoesOn(st, mid, next, admitted, more, room, keys, key, turn);
      keys := keys - {key};
      admitted := admitted + more;
      turn := turn + 1;
    }
  }
}
