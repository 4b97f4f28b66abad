/**
 What one reconciliation pass does to one non-terminal or attached thread, as
 the list of durable writes it performs, in order.  The snapshot `row` and
 `claim` are the values read at the start of the thread's turn; `st` is the
 store the writes land on, which other tasks may have changed since.  A crash,
 or an I/O error propagated by the pass, executes a prefix of the list.
 */
module ThreadRecovery {
  import opened Prelude
  import opened RecoveryStore

  datatype Mode = Startup | Live

  datatype BootProbe = SameBoot | OtherBoot | BootUnknown

  datatype Authority = Available | Permanent | Transient

  /** Everything the pass learns from outside the store while it handles one thread. */
  datatype Probe = Probe(
    target: Liveness, group: Liveness,
    liveKill: bool, groupAfterKill: Liveness,  // live-mode kill of a dead owner's group
    kill: bool,                                // every other `kill_by_action`
    boot: BootProbe, presence: Liveness,
    clearIo: bool, attemptsIo: bool, bumpIo: bool, finalizeIo: bool,
    authority: Authority, admissionClosed: bool,
    now: int)

  const SETTLEMENT_GRACE_MS: int := 5_000
  const PROJECT_AUTHORITY_WAIT_MS: int := 15 * 60 * 1_000

  /** How a stage ends: go on to the next stage, leave the thread, or fail the whole pass. */
  datatype Flow = Go | Leave | Abort

  datatype Stage = Stage(effects: seq<Effect>, flow: Flow)

  datatype Decision =
    | NoResumePolicy
    | MissingResumeContext
    | Resume(nextAttempt: nat, max: nat)
    | Exhausted(attempts: nat, max: nat)

  function DecideResume(metadata: Option<Metadata>, attempts: nat): Decision {
    if metadata.None? || metadata.value.nativeResume.None? then NoResumePolicy
    else if metadata.value.resume.None? then MissingResumeContext
    else if attempts >= metadata.value.nativeResume.value then Exhausted(attempts, metadata.value.nativeResume.value)
    else Resume(attempts + 1, metadata.value.nativeResume.value)
  }

  predicate ContinuationShape(row: ThreadRow) {
    row.status.Created? && row.upstream.Some? && row.metadata.Some? && row.metadata.value.resume.Some?
  }

  predicate MachineSuccessor(successor: ThreadRow, upstream: ThreadRow) {
    upstream.status.Continued? && upstream.successor == Some(successor.id)
  }

  predicate OperatorSuccessor(successor: ThreadRow, upstream: ThreadRow) {
    (upstream.status.Completed? || upstream.status.Failed?) && upstream.successor == Some(successor.id)
  }

  /** A follow child that provably never launched, with launch authority matching its slot. */
  predicate PendingFollowChild(st: Store, row: ThreadRow) {
    && row.status.Created?
    && row.pgid.None?
    && row.metadata.Some?
    && row.metadata.value.nativeResume.None?
    && var waiter := WaiterByChain(st, row.chainRoot);
       && waiter.Some?
       && var slot := SlotOf(waiter.value.children, row.id);
          && slot.Some?
          && AuthorityAgrees(row, row.metadata.value, waiter.value, slot.value)
  }

  /** The first slot naming this child thread. */
  function SlotOf(children: seq<Slot>, child: ThreadId): (r: Option<Slot>)
    ensures r.Some? ==> r.value in children && r.value.child == child
    ensures r.None? ==> forall s | s in children :: s.child != child
  {
    if children == [] then None
    else if children[0].child == child then Some(children[0])
    else SlotOf(children[1..], child)
  }

  predicate AuthorityAgrees(row: ThreadRow, m: Metadata, waiter: Waiter, slot: Slot) {
    && m.resume.Some? && m.sealed.Some? && m.followParent.Some?
    && var resume := m.resume.value;
       var sealed := m.sealed.value;
       && slot.chainRoot == row.chainRoot
       && resume.kind == row.kind
       && resume.itemRef == row.itemRef
       && resume.itemRef == slot.itemRef
       && resume.launchMode == row.launchMode
       && resume.launchMode == "detached"
       && resume.executorRef == Some(sealed.executorRef)
       && resume.runtimeRef == Some(sealed.runtimeRef)
       && sealed.itemRef == slot.itemRef
       && m.followParent.value == waiter.parent
       && sealed == slot.sealed
  }

  /** A created root whose admitted birth committed but whose process never attached. */
  predicate PendingAdmittedRoot(st: Store, row: ThreadRow) {
    && row.status.Created? && row.upstream.None? && row.pgid.None?
    && WaiterByChain(st, row.chainRoot).None?
    && row.capsule
    && row.metadata.Some?
    && row.metadata.value.resume.Some? && row.metadata.value.sealed.Some? && row.metadata.value.driver.Some?
  }

  /** A kind whose profile says it never executes, on a row with no process or launch state. */
  predicate DaemonOwned(passive: set<string>, row: ThreadRow) {
    && row.kind in passive
    && row.pid.None? && row.pgid.None? && row.identity.None? && row.metadata.None?
  }

  /** A dead leader's identity may be cleared: another boot, or no member of its group is left. */
  predicate SafeToClear(p: Probe) {
    p.boot.OtherBoot? || (p.boot.SameBoot? && p.presence.DeadOrStale?)
  }

  predicate FollowSuccessor(st: Store, row: ThreadRow) {
    row.upstream.Some? && (row.upstream.value, row.id) in st.followEdges
  }

  /** Live mode, active owner: observe the dead process, and revoke the owner after the grace. */
  function OwnerGate(st: Store, row: ThreadRow, claim: Option<Claim>, p: Probe): Stage {
    if claim.None? || claim.value.owner !in st.activeOwners then Stage([], Go)
    else if row.identity.None? then Stage([], Leave)
    else if !p.target.DeadOrStale? || p.group.Unavailable? then Stage([], Leave)
    else if !Holds(st, row.id, claim.value.id) || !HasIdentity(st, row.id, row.identity.value) then Stage([], Leave)
    else
      var seen := [Observe(row.id, row.identity.value, p.now)];
      var at := st.threads[row.id].deadSeenAt;
      var observedAt := if at.Some? then at.value else p.now;
      if SatSub(p.now, observedAt) < SETTLEMENT_GRACE_MS then Stage(seen, Leave)
      else if p.group.Alive? && !(p.liveKill && p.groupAfterKill.DeadOrStale?) then Stage(seen, Leave)
      else Stage(seen + [ReleaseActive(row.id, claim.value)], Go)
  }

  function LiveGate(st: Store, row: ThreadRow, claim: Option<Claim>, mode: Mode, p: Probe): Stage {
    if mode.Startup? || row.stop.Some? then Stage([], Go)
    else
      var gate := OwnerGate(st, row, claim, p);
      if gate.flow.Go? && row.status.Created? && row.identity.None? && FollowSuccessor(st, row)
      then Stage(gate.effects, Leave) else gate
  }

  function ReleaseSnapshot(row: ThreadRow, claim: Option<Claim>): seq<Effect> {
    if claim.Some? then [ReleaseClaim(row.id, claim.value.id)] else []
  }

  /** The group of the snapshot identity was proven gone by this turn's probes. */
  predicate ProvenGone(p: Probe) {
    || (p.group.Alive? && p.kill)
    || (p.group.DeadOrStale? && p.target.DeadOrStale? && SafeToClear(p))
  }

  /** A durable stop request: kill, clear, release and finalize; never resume. */
  function StopStage(st: Store, row: ThreadRow, claim: Option<Claim>, p: Probe): Stage
    requires row.stop.Some?
  {
    var settle := ReleaseSnapshot(row, claim) +
                  (if !Terminal(row.status) && p.finalizeIo then [Finalize(row.id,
                      StopStatus(row.stop.value))] else []);
    if row.identity.None? then Stage(settle, Leave)
    else if !ProvenGone(p) then Stage([], Leave)
    else if !p.clearIo || !HasIdentity(st, row.id, row.identity.value) then Stage([], Leave)
    else Stage([ClearProcess(row.id, row.identity.value)] + settle, Leave)
  }

  /** A terminal row that still carries a process: drain it and release its claim. */
  function TerminalStage(st: Store, row: ThreadRow, claim: Option<Claim>, p: Probe): Stage {
    if row.identity.None? then Stage(ReleaseSnapshot(row, claim), Leave)
    else if !ProvenGone(p) then Stage([], Leave)
    else if !p.clearIo then Stage([], Abort)
    else if !HasIdentity(st, row.id, row.identity.value) then Stage(ReleaseSnapshot(row, claim), Leave)
    else Stage([ClearProcess(row.id, row.identity.value)] + ReleaseSnapshot(row, claim), Leave)
  }

  /** Stop and forget the process of an interrupted generation before anything else may launch. */
  function OrphanStage(st: Store, row: ThreadRow, mode: Mode, p: Probe): Stage {
    if row.identity.None? then Stage([], Go)
    else if mode.Live? && p.group.Alive? then Stage([], Leave)
    else if !ProvenGone(p) then Stage([], Leave)
    else if !p.clearIo || !HasIdentity(st, row.id, row.identity.value) then Stage([], Leave)
    else Stage([ClearProcess(row.id, row.identity.value)], Go)
  }

  datatype Refusal = Finalized | AlreadyTerminal | AlreadyClaimed | PreservedForShutdown

  /** `settle_recovery_preparation_refusal`: finalize only as the exact launch owner. */
  function Refuse(st: Store, row: ThreadRow, p: Probe): Refusal {
    if row.id in st.claims then AlreadyClaimed
    else if row.id in st.threads && Terminal(st.threads[row.id].status) then AlreadyTerminal
    else if p.admissionClosed && row.id in st.threads && st.threads[row.id].stop.None? then PreservedForShutdown
    else Finalized
  }

  function RefusalEffects(row: ThreadRow, r: Refusal): seq<Effect> {
    match r
    case Finalized => [Finalize(row.id, Failed)]
    case PreservedForShutdown => [Reset(row.id)]
    case _ => []
  }

  /** Launch authority: incompatible or non-recoverable capsules finalize; a missing live project waits. */
  function AuthorityStage(st: Store, row: ThreadRow, p: Probe): Stage {
    if row.incompatible then Stage([ClearWait(row.id), Finalize(row.id, Failed)], Leave)
    else if row.metadata.None? || row.metadata.value.resume.None? then Stage([], Go)
    else
      var resume := row.metadata.value.resume.value;
      if !resume.restartRecoverable then Stage([ClearWait(row.id), Finalize(row.id, Failed)], Leave)
      else if !resume.liveProject || p.authority.Available? then
        Stage(if row.wait.Some? then [ClearWait(row.id)] else [], Go)
      else if p.authority.Permanent? then
        Stage([ClearWait(row.id)] + RefusalEffects(row, Refuse(st, row, p)), Leave)
      else
        var deadline := SatAdd(p.now, PROJECT_AUTHORITY_WAIT_MS);
        if deadline <= p.now then Stage([], Abort)
        else
          var stored := if row.id in st.threads && st.threads[row.id].wait.Some?
                        then st.threads[row.id].wait.value else deadline;
          var start := [StartWait(row.id, deadline)];
          if p.now < stored then Stage(start, Leave)
          else
            var r := Refuse(st, row, p);
            Stage(start + RefusalEffects(row, r) + (if r.AlreadyClaimed? then [] else [ClearWait(row.id)]), Leave)
  }

  /** A stranded continuation successor is launched as a continuation, never as a checkpoint resume. */
  function ContinuationStage(st: Store, row: ThreadRow): Stage {
    if !ContinuationShape(row) then Stage([], Go)
    else if row.metadata.value.driver.None? then Stage([], Abort)
    else if row.upstream.value !in st.threads then Stage([], Abort)
    else
      var source := st.threads[row.upstream.value];
      if FollowSuccessor(st, row) then Stage([], Leave)
      else if MachineSuccessor(row, source) then Stage([Emit(row.id, Continuation)], Leave)
      else if OperatorSuccessor(row, source) && row.upstream.value in st.fingerprints then
        Stage([Emit(row.id, OperatorContinuation)], Leave)
      else Stage([], Go)
  }

  /** Rows owned by the follow pass or a launch window, and roots that never began. */
  function OwnershipStage(st: Store, row: ThreadRow): Stage {
    if PendingFollowChild(st, row) then Stage([], Leave)
    else if PendingAdmittedRoot(st, row) then Stage([Emit(row.id, AdmittedRoot)], Leave)
    else if row.status.Created? && Queued(st, row.chainRoot) then Stage([], Leave)
    else Stage([], Go)
  }

  /** Checkpoint resume: the counter is bumped durably before the intent exists. */
  function ResumeStage(st: Store, row: ThreadRow, p: Probe): Stage {
    var dead := Stage([Finalize(row.id, Failed)], Leave);
    if !p.attemptsIo || row.id !in st.threads then dead
    else
      match DecideResume(row.metadata, AttemptsRead(st, row.id))
      case Resume(_, _) =>
        if !p.bumpIo then dead
        else if row.metadata.value.driver.None? then Stage([Bump(row.id)], Abort)
        else Stage([Bump(row.id), Emit(row.id, NativeResume)], Leave)
      case _ => dead
  }

  /** Stages run in order, each on the store the earlier ones left behind. */
  function Then(first: Stage, rest: Stage): Stage {
    if first.flow.Go? then Stage(first.effects + rest.effects, rest.flow) else first
  }

  function OwnershipFrom(st: Store, row: ThreadRow, p: Probe): Stage {
    Then(OwnershipStage(st, row), ResumeStage(st, row, p))
  }

  function ContinuationFrom(st: Store, row: ThreadRow, p: Probe): Stage {
    Then(ContinuationStage(st, row), OwnershipFrom(st, row, p))
  }

  /** Classification of a row that has no live process and no snapshot claim left. */
  function Classify(st: Store, row: ThreadRow, p: Probe): Stage {
    var a := AuthorityStage(st, row, p);
    Then(a, ContinuationFrom(ApplyAll(st, a.effects), row, p))
  }

  function ReleaseFrom(st: Store, row: ThreadRow, claim: Option<Claim>, p: Probe): Stage {
    var released := ReleaseSnapshot(row, claim);
    Then(Stage(released, Go), Classify(ApplyAll(st, released), row, p))
  }

  function OrphanFrom(st: Store, row: ThreadRow, claim: Option<Claim>, mode: Mode, p: Probe): Stage {
    var o := OrphanStage(st, row, mode, p);
    Then(o, ReleaseFrom(ApplyAll(st, o.effects), row, claim, p))
  }

  /** The stages after the live-owner gate. */
  function RecoverFrom(st: Store, row: ThreadRow, claim: Option<Claim>, mode: Mode, p: Probe): Stage {
    if row.stop.Some? then StopStage(st, row, claim, p)
    else if Terminal(row.status) then TerminalStage(st, row, claim, p)
    else OrphanFrom(st, row, claim, mode, p)
  }

  /** The whole turn of one thread. */
  function ThreadTurn(st: Store, row: ThreadRow, claim: Option<Claim>, blocked: bool,
                      passive: set<string>, mode: Mode, p: Probe): Stage
  {
    if blocked || DaemonOwned(passive, row) then Stage([], Leave)
    else
      var g := LiveGate(st, row, claim, mode, p);
      Then(g, RecoverFrom(ApplyAll(st, g.effects), row, claim, mode, p))
  }
}
