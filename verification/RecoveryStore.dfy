/**
 The durable store that crash recovery works on: thread rows, process
 identities, launch claims, stop tombstones, resume counters, follow waiters,
 launch windows and execution workspaces, with the primitive writes that the
 recovery passes perform on it.
 */
module RecoveryStore {
  import opened Prelude

  type ThreadId = string

  datatype Status = Created | Running | Completed | Failed | Cancelled | Killed | TimedOut | Continued

  predicate Terminal(s: Status) {
    !s.Created? && !s.Running?
  }

  datatype Liveness = Alive | DeadOrStale | Unavailable

  datatype StopIntent = Cancel | Kill

  function StopStatus(i: StopIntent): Status {
    match i case Cancel => Cancelled case Kill => Killed
  }

  datatype Driver = ManagedRuntime | DirectItemExecutor

  datatype ProcessIdentity =
    ProcessIdentity(bootId: string, targetPid: int, targetTicks: int, leaderPid: int, leaderTicks: int)

  datatype ResumeContext = ResumeContext(
    kind: string, itemRef: string, launchMode: string,
    executorRef: Option<string>, runtimeRef: Option<string>,
    restartRecoverable: bool, liveProject: bool)

  datatype SealedRoot = SealedRoot(itemRef: string, executorRef: string, runtimeRef: string, body: string)

  datatype Metadata = Metadata(
    nativeResume: Option<nat>,           // max_auto_resume_attempts
    resume: Option<ResumeContext>,
    sealed: Option<SealedRoot>,
    followParent: Option<ThreadId>,
    driver: Option<Driver>,
    window: Option<string>)

  datatype ThreadRow = ThreadRow(
    id: ThreadId, chainRoot: ThreadId, kind: string, itemRef: string, launchMode: string,
    status: Status, upstream: Option<ThreadId>, successor: Option<ThreadId>,
    pid: Option<int>, pgid: Option<int>, identity: Option<ProcessIdentity>,
    metadata: Option<Metadata>, incompatible: bool, capsule: bool,
    stop: Option<StopIntent>, wait: Option<int>, deadSeenAt: Option<int>, attempts: nat)

  datatype Claim = Claim(id: string, owner: string)

  datatype Phase = Reserved | Waiting | Ready | Resuming

  datatype Slot = Slot(
    index: nat, itemRef: string, child: ThreadId, chainRoot: ThreadId,
    sealed: SealedRoot, terminal: Option<Status>)

  datatype Waiter = Waiter(
    key: string, phase: Phase, parent: ThreadId, successor: Option<ThreadId>,
    expected: nat, children: seq<Slot>, updatedAt: int)

  datatype Window = Window(key: string, launched: bool, cancelled: bool)

  datatype WorkspaceState =
    | WReserved | Constructing | WReady | Active | Freezing | Destroying | Closing | Closed | Orphaned

  datatype Workspace = Workspace(
    id: string, thread: Option<ThreadId>, owner: Option<string>, state: WorkspaceState,
    root: string, identity: Option<ProcessIdentity>, created: bool, frozen: Option<string>)

  datatype Store = Store(
    threads: map<ThreadId, ThreadRow>,
    claims: map<ThreadId, Claim>,
    activeOwners: set<string>,
    followEdges: set<(ThreadId, ThreadId)>,
    fingerprints: set<ThreadId>,
    waiters: map<string, Waiter>,
    childChains: map<ThreadId, string>,  // unique index child chain -> follow key
    windows: map<ThreadId, Window>,
    workspaces: map<string, Workspace>,
    roots: set<string>)                  // workspace root directories on disk

  /** One durable write (or the in-memory push of an intent) of a thread pass. */
  datatype Effect =
    | Observe(t: ThreadId, identity: ProcessIdentity, at: int)
    | ReleaseActive(t: ThreadId, claim: Claim)
    | ClearProcess(t: ThreadId, identity: ProcessIdentity)
    | ReleaseClaim(t: ThreadId, claimId: string)
    | ClearWait(t: ThreadId)
    | StartWait(t: ThreadId, deadline: int)
    | Finalize(t: ThreadId, status: Status)
    | Bump(t: ThreadId)
    | Reset(t: ThreadId)
    | Emit(t: ThreadId, kind: ResumeKind)

  datatype ResumeKind = AdmittedRoot | NativeResume | Continuation | OperatorContinuation

  predicate HasIdentity(st: Store, t: ThreadId, identity: ProcessIdentity) {
    t in st.threads && st.threads[t].identity == Some(identity)
  }

  predicate Holds(st: Store, t: ThreadId, claimId: string) {
    t in st.claims && st.claims[t].id == claimId
  }

  function Attempts(st: Store, t: ThreadId): nat {
    if t in st.threads then st.threads[t].attempts else 0
  }

  /** The stored counter as `get_resume_attempts` returns it, cast to u32. */
  function AttemptsRead(st: Store, t: ThreadId): nat {
    Attempts(st, t) % (U32_MAX + 1)
  }

  /** `release_thread_launch_claim`: deletes the row only on the exact claim id. */
  function Released(claims: map<ThreadId, Claim>, t: ThreadId, claimId: string): map<ThreadId, Claim> {
    if t in claims && claims[t].id == claimId then claims - {t} else claims
  }

  function PutRow(st: Store, t: ThreadId, row: ThreadRow): Store {
    st.(threads := st.threads[t := row])
  }

  function Apply(st: Store, e: Effect): Store {
    match e
    case Observe(t, identity, at) =>
      if HasIdentity(st, t, identity) && st.threads[t].deadSeenAt.None?
      then PutRow(st, t, st.threads[t].(deadSeenAt := Some(at))) else st
    case ReleaseActive(t, claim) =>
      st.(activeOwners := st.activeOwners - {claim.owner}, claims := Released(st.claims, t, claim.id))
    case ClearProcess(t, identity) =>
      if HasIdentity(st, t, identity)
      then PutRow(st, t, st.threads[t].(pid := None, pgid := None, identity := None, deadSeenAt := None)) else st
    case ReleaseClaim(t, claimId) => st.(claims := Released(st.claims, t, claimId))
    case ClearWait(t) =>
      if t in st.threads then PutRow(st, t, st.threads[t].(wait := None)) else st
    case StartWait(t, deadline) =>
      if t in st.threads && st.threads[t].wait.None?
      then PutRow(st, t, st.threads[t].(wait := Some(deadline))) else st
    case Finalize(t, status) =>
      // A durable stop tombstone dominates every later finalizer.
      if t in st.threads && !Terminal(st.threads[t].status)
      then PutRow(st, t, st.threads[t].(status :=
                    if st.threads[t].stop.Some? then StopStatus(st.threads[t].stop.value) else status)) else st
    case Bump(t) =>
      if t in st.threads then PutRow(st, t, st.threads[t].(attempts := st.threads[t].attempts + 1)) else st
    case Reset(t) =>
      if t in st.threads then PutRow(st, t, st.threads[t].(attempts := 0)) else st
    case Emit(_, _) => st
  }

  function ApplyAll(st: Store, es: seq<Effect>): Store {
    if es == [] then st else Apply(ApplyAll(st, es[..|es| - 1]), es[|es| - 1])
  }

  lemma {:induction false} ApplyAllAppend(st: Store, a: seq<Effect>, b: seq<Effect>)
    ensures ApplyAll(st, a + b) == ApplyAll(ApplyAll(st, a), b)
    decreases |b|
  {
    if b == [] {
      assert a + b == a;
    } else {
      assert (a + b)[..|a + b| - 1] == a + b[..|b| - 1];
      ApplyAllAppend(st, a, b[..|b| - 1]);
    }
  }

  lemma ApplyNothing(st: Store)
    ensures ApplyAll(st, []) == st
  {
  }

  lemma ApplyShort(st: Store, a: Effect, b: Effect, c: Effect)
    ensures ApplyAll(st, [a]) == Apply(st, a)
    ensures ApplyAll(st, [a, b]) == Apply(Apply(st, a), b)
    ensures ApplyAll(st, [a, b, c]) == Apply(Apply(Apply(st, a), b), c)
  {
    hide Apply;
    assert [a][..0] == [];
    assert ApplyAll(st, [a]) == Apply(ApplyAll(st, []), a);
    assert [a, b][..1] == [a] && [a, b, c][..2] == [a, b];
  }

  /** The waiter whose slot table holds this child chain. */
  function WaiterByChain(st: Store, chain: ThreadId): Option<Waiter> {
    if chain in st.childChains then Get(st.waiters, st.childChains[chain]) else None
  }

  predicate Queued(st: Store, chain: ThreadId) {
    chain in st.windows && !st.windows[chain].launched
  }
}
