/**
 The ten-stage startup order.  The wire phase alone is ambiguous (head replay
 is visible at three points), so the coordinator keeps its own stage.
 */
module StartupStages {
  import opened Prelude

  datatype Phase =
    | Bootstrapping | OpeningProjection | RebuildingProjection | ReplayingHeadChanges
    | RecoveringSchedulerProjection | ReconcilingThreads | ReconcilingFollow | ReconcilingScheduler
    | Ready | Failed

  datatype Stage =
    | Boot | Open | Rebuild | InitialReplay | RecoverScheduler | TerminalReplay
    | Threads | Follow | PostReplay | Scheduler

  /** `advance_startup_stage`. */
  function Advance(current: Stage, phase: Phase): Option<Stage> {
    match (current, phase)
    case (Boot, Bootstrapping) => Some(Boot)
    case (Boot, OpeningProjection) => Some(Open)
    case (Open, OpeningProjection) => Some(Open)
    case (Open, RebuildingProjection) => Some(Rebuild)
    case (Open, ReplayingHeadChanges) => Some(InitialReplay)
    case (Open, RecoveringSchedulerProjection) => Some(RecoverScheduler)
    case (Rebuild, RebuildingProjection) => Some(Rebuild)
    case (Rebuild, ReplayingHeadChanges) => Some(InitialReplay)
    case (Rebuild, RecoveringSchedulerProjection) => Some(RecoverScheduler)
    case (InitialReplay, ReplayingHeadChanges) => Some(InitialReplay)
    case (InitialReplay, RecoveringSchedulerProjection) => Some(RecoverScheduler)
    case (RecoverScheduler, RecoveringSchedulerProjection) => Some(RecoverScheduler)
    case (RecoverScheduler, ReplayingHeadChanges) => Some(TerminalReplay)
    case (TerminalReplay, ReplayingHeadChanges) => Some(TerminalReplay)
    case (TerminalReplay, ReconcilingThreads) => Some(Threads)
    case (Threads, ReconcilingThreads) => Some(Threads)
    case (Threads, ReconcilingFollow) => Some(Follow)
    case (Follow, ReconcilingFollow) => Some(Follow)
    case (Follow, ReplayingHeadChanges) => Some(PostReplay)
    case (Follow, ReconcilingScheduler) => Some(Scheduler)
    case (PostReplay, ReplayingHeadChanges) => Some(PostReplay)
    case (PostReplay, ReconcilingScheduler) => Some(Scheduler)
    case (Scheduler, ReconcilingScheduler) => Some(Scheduler)
    case _ => None
  }

  /** The wire phase a stage publishes. */
  function WirePhase(s: Stage): Phase {
    match s
    case Boot => Bootstrapping
    case Open => OpeningProjection
    case Rebuild => RebuildingProjection
    case InitialReplay => ReplayingHeadChanges
    case RecoverScheduler => RecoveringSchedulerProjection
    case TerminalReplay => ReplayingHeadChanges
    case Threads => ReconcilingThreads
    case Follow => ReconcilingFollow
    case PostReplay => ReplayingHeadChanges
    case Scheduler => ReconcilingScheduler
  }

  /** A stage step publishes its own phase, and the phase changes exactly when the stage does. */
  lemma StageFixesPhase(s: Stage, phase: Phase)
    ensures var n := Advance(s, phase);
            n.Some? ==> WirePhase(n.value) == phase && (n.value != s <==> phase != WirePhase(s))
  {
  }

  function Accepts(s: Stage, phases: seq<Phase>): Option<Stage> {
    if phases == [] then Some(s)
    else
      var pre := Accepts(s, phases[..|phases| - 1]);
      if pre.None? then None else Advance(pre.value, phases[|phases| - 1])
  }

  // ----- The accepted language, as run lengths -----

  /** The stages in order, by number. */
  function Nth(k: nat): Stage
    requires k < 10
  {
    match k
    case 0 => Boot case 1 => Open case 2 => Rebuild case 3 => InitialReplay case 4 => RecoverScheduler
    case 5 => TerminalReplay case 6 => Threads case 7 => Follow case 8 => PostReplay case _ => Scheduler
  }

  function Index(s: Stage): (k: nat)
    ensures k < 10 && Nth(k) == s
  {
    match s
    case Boot => 0 case Open => 1 case Rebuild => 2 case InitialReplay => 3 case RecoverScheduler => 4
    case TerminalReplay => 5 case Threads => 6 case Follow => 7 case PostReplay => 8 case Scheduler => 9
  }

  /** Stages every startup publishes; Boot, Rebuild and the first and third head replay may be skipped. */
  predicate Mandatory(k: nat) {
    k == 1 || k == 4 || k == 5 || k == 6 || k == 7 || k == 9
  }

  function Times(phase: Phase, n: nat): (r: seq<Phase>)
    ensures |r| == n && forall i | 0 <= i < n :: r[i] == phase
  {
    seq(n, _ => phase)
  }

  /** The first k blocks: each stage's phase repeated as often as `counts` says. */
  function Blocks(counts: seq<nat>, k: nat): seq<Phase>
    requires |counts| == 10 && k <= 10
  {
    if k == 0 then [] else Blocks(counts, k - 1) + Times(WirePhase(Nth(k - 1)), counts[k - 1])
  }

  /** Boot^a Open^b Rebuild^c Replay^d RecoverScheduler^e Replay^f Threads^g Follow^h Replay^i Scheduler^j. */
  function Word(counts: seq<nat>): seq<Phase>
    requires |counts| == 10
  {
    Blocks(counts, 10)
  }

  /** Nothing published after stage k yet, and every mandatory stage up to it published. */
  predicate Reached(counts: seq<nat>, k: nat) {
    && |counts| == 10 && k < 10
    && (forall i | k < i < 10 :: counts[i] == 0)
    && (forall i | 0 <= i <= k && Mandatory(i) :: counts[i] > 0)
  }

  lemma {:induction false} AcceptsAppend(s: Stage, a: seq<Phase>, b: seq<Phase>)
    ensures Accepts(s, a + b) ==
            if Accepts(s, a).None? then None else Accepts(Accepts(s, a).value, b)
    decreases |b|
  {
    if b == [] {
      assert a + b == a;
    } else {
      assert (a + b)[..|a + b| - 1] == a + b[..|b| - 1];
      AcceptsAppend(s, a, b[..|b| - 1]);
    }
  }

  lemma {:induction false} AcceptsTimes(s: Stage, phase: Phase, n: nat)
    requires Advance(s, phase).Some? && Advance(Advance(s, phase).value, phase) == Advance(s, phase)
    ensures Accepts(s, Times(phase, n)) == if n == 0 then Some(s) else Advance(s, phase)
    decreases n
  {
    hide Advance;
    if n > 0 {
      assert Times(phase, n)[..n - 1] == Times(phase, n - 1);
      AcceptsTimes(s, phase, n - 1);
    }
  }

  /** The last stage published among the first k. */
  function Latest(counts: seq<nat>, k: nat): (j: nat)
    requires |counts| == 10 && 0 < k <= 10
    ensures j < k && (j == 0 || counts[j] > 0) && forall i | j < i < k :: counts[i] == 0
  {
    if k == 1 || counts[k - 1] > 0 then k - 1 else Latest(counts, k - 1)
  }

  /** With every mandatory stage in place, stage k follows the latest published one. */
  lemma Follows(counts: seq<nat>, k: nat)
    requires Reached(counts, 9) && 0 < k < 10 && counts[k] > 0
    ensures Advance(Nth(Latest(counts, k)), WirePhase(Nth(k))) == Some(Nth(k))
  {
    hide Advance, WirePhase, Nth;
    var j := Latest(counts, k);
    forall m | 0 <= m < k && Mandatory(m) ensures m <= j { assert counts[m] > 0; }
    assert Mandatory(1) && Mandatory(4) && Mandatory(5) && Mandatory(6) && Mandatory(7);
    StageTable(j, k);
  }

  /** From stage j, stage k is next when no mandatory stage lies between them. */
  lemma StageTable(j: nat, k: nat)
    requires j < k < 10
    requires (k > 1 ==> j >= 1) && (k > 4 ==> j >= 4) && (k > 5 ==> j >= 5) && (k > 6 ==> j >= 6) && (k > 7 ==> j >= 7)
    ensures Advance(Nth(j), WirePhase(Nth(k))) == Some(Nth(k))
  {
  }

  lemma {:induction false} BlocksAreAccepted(counts: seq<nat>, k: nat)
    requires Reached(counts, 9) && 0 < k <= 10
    ensures Accepts(Boot, Blocks(counts, k)) == Some(Nth(Latest(counts, k)))
    decreases k
  {
    hide Accepts;
    if k == 1 {
      AcceptsTimes(Boot, Bootstrapping, counts[0]);
      assert Blocks(counts, 0) + Times(Bootstrapping, counts[0]) == Times(Bootstrapping, counts[0]);
    } else {
      var phase := WirePhase(Nth(k - 1));
      BlocksAreAccepted(counts, k - 1);
      var at := Nth(Latest(counts, k - 1));
      AcceptsAppend(Boot, Blocks(counts, k - 1), Times(phase, counts[k - 1]));
      if counts[k - 1] > 0 {
        Follows(counts, k - 1);
        AcceptsTimes(at, phase, counts[k - 1]);
      } else {
        assert Times(phase, 0) == [];
        assert Blocks(counts, k) == Blocks(counts, k - 1);
      }
    }
  }

  lemma {:induction false} SameBlocks(a: seq<nat>, b: seq<nat>, k: nat)
    requires |a| == 10 && |b| == 10 && k <= 10 && a[..k] == b[..k]
    ensures Blocks(a, k) == Blocks(b, k)
    decreases k
  {
    if k > 0 {
      assert a[..k - 1] == a[..k][..k - 1] && b[..k - 1] == b[..k][..k - 1];
      assert a[k - 1] == a[..k][k - 1] && b[k - 1] == b[..k][k - 1];
      SameBlocks(a, b, k - 1);
    }
  }

  lemma {:induction false} TrailingZeros(a: seq<nat>, k: nat, m: nat)
    requires |a| == 10 && k <= m <= 10 && forall i | k <= i < m :: a[i] == 0
    ensures Blocks(a, m) == Blocks(a, k)
    decreases m
  {
    if k < m {
      TrailingZeros(a, k, m - 1);
      assert Times(WirePhase(Nth(m - 1)), 0) == [];
    }
  }

  /** Publishing the phase of the last reached stage once more appends it to the word. */
  lemma WordGrows(counts: seq<nat>, k: nat)
    requires |counts| == 10 && k < 10 && forall i | k < i < 10 :: counts[i] == 0
    ensures Word(counts[k := counts[k] + 1]) == Word(counts) + [WirePhase(Nth(k))]
  {
    var next := counts[k := counts[k] + 1];
    var phase := WirePhase(Nth(k));
    SameBlocks(counts, next, k);
    TrailingZeros(counts, k + 1, 10);
    TrailingZeros(next, k + 1, 10);
    assert Times(phase, counts[k] + 1) == Times(phase, counts[k]) + [phase];
  }

  lemma AdvanceKeepsReached(counts: seq<nat>, s: Stage, phase: Phase)
    requires Reached(counts, Index(s)) && Advance(s, phase).Some?
    ensures var k := Index(Advance(s, phase).value);
            Index(s) <= k && Reached(counts[k := counts[k] + 1], k) && WirePhase(Nth(k)) == phase
  {
  }

  lemma {:induction false} AcceptedAreWords(phases: seq<Phase>) returns (counts: seq<nat>)
    requires Accepts(Boot, phases).Some?
    ensures Reached(counts, Index(Accepts(Boot, phases).value)) && Word(counts) == phases
    decreases |phases|
  {
    if phases == [] {
      counts := seq(10, _ => 0);
      TrailingZeros(counts, 0, 10);
    } else {
      var pre, phase := phases[..|phases| - 1], phases[|phases| - 1];
      counts := AcceptedAreWords(pre);
      var s, next := Accepts(Boot, pre).value, Accepts(Boot, phases).value;
      AdvanceKeepsReached(counts, s, phase);
      var k := Index(next);
      WordGrows(counts, k);
      hide Word, Accepts;
      counts := counts[k := counts[k] + 1];
      assert phases == pre + [phase];
    }
  }

  /**
   The phase sequences accepted from Bootstrapping to the scheduler stage are
   exactly Boot* Open+ Rebuild* Replay* RecoverScheduler+ Replay+ Threads+
   Follow+ Replay* Scheduler+.
   */
  lemma AcceptedLanguage(phases: seq<Phase>)
    ensures Accepts(Boot, phases) == Some(Scheduler) <==>
            exists counts :: Reached(counts, 9) && Word(counts) == phases
  {
    hide Accepts;
    if Accepts(Boot, phases) == Some(Scheduler) {
      var counts := AcceptedAreWords(phases);
    }
    if exists counts :: Reached(counts, 9) && Word(counts) == phases {
      var counts :| Reached(counts, 9) && Word(counts) == phases;
      BlocksAreAccepted(counts, 10);
      assert Mandatory(9);
    }
  }
}
