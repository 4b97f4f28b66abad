/**
 Reconciling bundle-authored maintenance declarations into the schedules
 directory: declared specs are created or refreshed, undeclared managed specs
 are removed, and specs owned by anyone else are left alone.
 */
module MaintenanceSchedules {
  import opened Prelude

  datatype Params = Mapping(text: string) | NotMapping

  datatype Settings = Settings(
    itemRef: string, refBindings: map<string, string>, scheduleType: string, expression: string, timezone: string,
    misfirePolicy: string, overlapPolicy: string, latenessGraceSecs: int, params: Params)

  datatype Declaration = Declaration(id: string, settings: Settings, enabled: bool, capabilities: seq<string>)

  datatype DeclarationFile = Absent | Unreadable | Declared(specVersion: nat, schedules: seq<Declaration>)

  datatype Owner = Owner(kind: string, source: string)

  const MAINTENANCE: Owner := Owner("node_maintenance_declaration", "maintenance/schedules.yaml")

  datatype Spec = Spec(
    id: string, settings: Settings, enabled: bool, registeredAt: int, requester: string,
    capabilities: seq<string>, projectRoot: Option<string>, owner: Option<Owner>)

  /** A directory entry; `Unverified` is a file whose signature or record is refused. */
  datatype Entry = Folder | Unverified | Source(spec: Spec)

  type Files = map<string, Entry>

  // ----- Names and validity -----

  predicate Alphanumeric(c: char) {
    'a' <= c <= 'z' || '0' <= c <= '9'
  }

  /** `validate_schedule_id`. */
  predicate ValidId(id: string) {
    && 1 <= |id| <= 128 && Alphanumeric(id[0]) && Alphanumeric(id[|id| - 1])
    && forall i | 0 <= i < |id| :: Alphanumeric(id[i]) || id[i] == '-' || id[i] == '_' || id[i] == '.'
  }

  function FileName(id: string): string {
    id + ".yaml"
  }

  function Stem(name: string): Option<string> {
    if |name| > 5 && name[|name| - 5..] == ".yaml" then Some(name[..|name| - 5]) else None
  }

  lemma FileNameInjective(a: string, b: string)
    ensures FileName(a) == FileName(b) <==> a == b
  {
    assert FileName(a)[..|a|] == a && FileName(b)[..|b|] == b;
  }

  predicate NonBlank(s: string) {
    exists i | 0 <= i < |s| :: s[i] !in " \t\n\r"
  }

  /** `validate_declaration`; `accepts` stands for the reference, cadence and policy parsers. */
  predicate ValidDeclaration(d: Declaration, accepts: Settings -> bool) {
    && ValidId(d.id) && accepts(d.settings)
    && d.capabilities != [] && (forall i | 0 <= i < |d.capabilities| :: NonBlank(d.capabilities[i]))
    && d.settings.params.Mapping? && d.settings.latenessGraceSecs > 0
  }

  predicate DistinctIds(ds: seq<Declaration>) {
    forall i, j | 0 <= i < j < |ds| :: ds[i].id != ds[j].id
  }

  predicate ValidDeclarations(ds: seq<Declaration>, accepts: Settings -> bool) {
    DistinctIds(ds) && forall i | 0 <= i < |ds| :: ValidDeclaration(ds[i], accepts)
  }

  function Schedules(file: DeclarationFile): seq<Declaration> {
    if file.Declared? then file.schedules else []
  }

  /** The declarations can be acted on at all. */
  predicate Acceptable(file: DeclarationFile, accepts: Settings -> bool) {
    !file.Unreadable? && (file.Declared? ==> file.specVersion == 1) && ValidDeclarations(Schedules(file), accepts)
  }

  /** The entry loads as a trusted schedule of its own file name. */
  predicate Loads(files: Files, name: string) {
    name in files && files[name].Source? && Stem(name) == Some(files[name].spec.id)
  }

  predicate Scans(files: Files, name: string) {
    name in files && !files[name].Folder? && Stem(name).Some? && ValidId(Stem(name).value)
  }

  predicate Readable(files: Files) {
    forall name | name in files :: Scans(files, name) && Loads(files, name)
  }

  /** `is_managed_maintenance_spec`. */
  predicate Managed(e: Entry) {
    e.Source? && e.spec.owner == Some(MAINTENANCE)
  }

  // ----- What reconciliation means -----

  /** `maintenance_spec_body`. */
  function Body(d: Declaration, enabled: bool, registeredAt: int, requester: string): Spec {
    Spec(d.id, d.settings, enabled, registeredAt, requester, d.capabilities, None, Some(MAINTENANCE))
  }

  /** The declared fields, with the operator's `enabled` and the first registration time kept. */
  function Desired(files: Files, d: Declaration, requester: string, now: int): Entry {
    var name := FileName(d.id);
    if name in files && files[name].Source? then
      Source(Body(d, files[name].spec.enabled, files[name].spec.registeredAt, requester))
    else Source(Body(d, d.enabled, now, requester))
  }

  /** The directory after the first k declarations. */
  function Applied(files: Files, ds: seq<Declaration>, k: nat, requester: string, clock: nat -> int): Files
    requires k <= |ds|
  {
    if k == 0 then files
    else Applied(files, ds, k - 1, requester, clock)[
        FileName(ds[k - 1].id) := Desired(files, ds[k - 1], requester, clock(k - 1))]
  }

  predicate Declares(ds: seq<Declaration>, name: string) {
    exists i | 0 <= i < |ds| :: FileName(ds[i].id) == name
  }

  predicate Stray(files: Files, ds: seq<Declaration>, name: string) {
    name in files && Managed(files[name]) && !Declares(ds, name)
  }

  function Reconciled(files: Files, ds: seq<Declaration>, requester: string, clock: nat -> int): Files {
    var all := Applied(files, ds, |ds|, requester, clock);
    map name | name in all && !Stray(files, ds, name) :: all[name]
  }

  /** The declaration's file is free or already managed. */
  predicate Unclaimed(files: Files, d: Declaration) {
    FileName(d.id) in files ==> Managed(files[FileName(d.id)])
  }

  /** How many declarations are written before the first conflict with an unowned spec. */
  function Writable(files: Files, ds: seq<Declaration>): (k: nat)
    ensures k <= |ds| && (forall i | 0 <= i < k :: Unclaimed(files, ds[i]))
    ensures k < |ds| ==> !Unclaimed(files, ds[k])
  {
    WritableFrom(files, ds, 0)
  }

  function WritableFrom(files: Files, ds: seq<Declaration>, from: nat): (k: nat)
    requires from <= |ds|
    ensures from <= k <= |ds| && (forall i | from <= i < k :: Unclaimed(files, ds[i]))
    ensures k < |ds| ==> !Unclaimed(files, ds[k])
    decreases |ds| - from
  {
    if from < |ds| && Unclaimed(files, ds[from]) then WritableFrom(files, ds, from + 1) else from
  }

  // ----- Laws of the specification -----

  /** What the first k declarations leave under each name. */
  lemma {:induction false} AppliedAt(files: Files, ds: seq<Declaration>, k: nat, requester: string, clock: nat -> int)
    requires k <= |ds| && DistinctIds(ds)
    ensures var a := Applied(files, ds, k, requester, clock);
            && (forall i | 0 <= i < k :: FileName(ds[i].id) in a
                                         && a[FileName(ds[i].id)] == Desired(files, ds[i], requester, clock(i)))
            && (forall name | !Declares(ds[..k], name) :: Get(a, name) == Get(files, name))
  {
    hide Desired, FileName, Declares;
    if k > 0 {
      AppliedAt(files, ds, k - 1, requester, clock);
      NamesDiffer(ds);
      forall name | !Declares(ds[..k], name) ensures !Declares(ds[..k - 1], name) && name != FileName(ds[k - 1].id) {
        DeclaresMore(ds, k, name);
      }
    }
  }

  lemma DeclaresMore(ds: seq<Declaration>, k: nat, name: string)
    requires 0 < k <= |ds|
    ensures Declares(ds[..k], name) <==> Declares(ds[..k - 1], name) || FileName(ds[k - 1].id) == name
  {
    assert forall i | 0 <= i < k :: ds[..k][i] == ds[i];
    assert forall i | 0 <= i < k - 1 :: ds[..k - 1][i] == ds[i];
    assert ds[..k][k - 1] == ds[k - 1];
  }

  lemma NamesDiffer(ds: seq<Declaration>)
    requires DistinctIds(ds)
    ensures forall i, j | 0 <= i < j < |ds| :: FileName(ds[i].id) != FileName(ds[j].id)
  {
    forall i, j | 0 <= i < j < |ds| ensures FileName(ds[i].id) != FileName(ds[j].id) {
      FileNameInjective(ds[i].id, ds[j].id);
    }
  }

  /** On every outcome the written prefix leaves every unowned spec as it was. */
  lemma UnownedUntouched(files: Files, ds: seq<Declaration>, k: nat, requester: string, clock: nat -> int, name: string)
    requires DistinctIds(ds) && k <= Writable(files, ds) && name in files && !Managed(files[name])
    ensures Get(Applied(files, ds, k, requester, clock), name) == Some(files[name])
    ensures Writable(files, ds) == |ds| ==> Get(Reconciled(files, ds, requester, clock), name) == Some(files[name])
  {
    AppliedAt(files, ds, k, requester, clock);
    AppliedAt(files, ds, |ds|, requester, clock);
    forall i | 0 <= i < Writable(files, ds) ensures FileName(ds[i].id) != name {
      assert Unclaimed(files, ds[i]);
    }
    assert ds[..|ds|] == ds;
  }

  /** A spec says what its declaration says, for this requester, owned by maintenance and bound to no project. */
  predicate Carries(s: Spec, d: Declaration, requester: string) {
    && s.id == d.id && s.settings == d.settings && s.capabilities == d.capabilities && s.requester == requester
    && s.projectRoot == None && s.owner == Some(Owner("node_maintenance_declaration", "maintenance/schedules.yaml"))
  }

  /**
   Success means: the unowned specs, plus exactly one managed spec per
   declaration, which carries what is declared, keeps the operator's choice and
   the registration time of the spec it replaces, and otherwise starts with the
   declared choice at the current time.
   */
  lemma ReconciledContents(files: Files, ds: seq<Declaration>, requester: string, clock: nat -> int, name: string)
    requires DistinctIds(ds) && Writable(files, ds) == |ds|
    ensures var r := Reconciled(files, ds, requester, clock);
            && (name in r && Managed(r[name]) <==> Declares(ds, name))
            && (name in r && !Managed(r[name]) <==> name in files && !Managed(files[name]))
            && (name in files && !Managed(files[name]) ==> Get(r, name) == Some(files[name]))
            && (forall i | 0 <= i < |ds| && FileName(ds[i].id) == name ::
                  && Get(r, name) == Some(Desired(files, ds[i], requester, clock(i)))
                  && r[name].Source? && Carries(r[name].spec, ds[i], requester)
                  && (name in files ==>
                        && files[name].Source? && r[name].spec.enabled == files[name].spec.enabled
                        && r[name].spec.registeredAt == files[name].spec.registeredAt)
                  && (name !in files ==>
                        r[name].spec.enabled == ds[i].enabled && r[name].spec.registeredAt == clock(i)))
  {
    AppliedAt(files, ds, |ds|, requester, clock);
    assert ds[..|ds|] == ds;
    if name in files && !Managed(files[name]) { UnownedUntouched(files, ds, |ds|, requester, clock, name); }
    if Declares(ds, name) {
      var i :| 0 <= i < |ds| && FileName(ds[i].id) == name;
      assert Unclaimed(files, ds[i]);
    }
  }

  /** The directory already is what the declarations ask for. */
  predicate Settled(files: Files, ds: seq<Declaration>, requester: string) {
    && (forall i | 0 <= i < |ds| ::
          FileName(ds[i].id) in files && Managed(files[FileName(ds[i].id)])
          && files[FileName(ds[i].id)] == Desired(files, ds[i], requester, 0))
    && forall name | name in files :: !Stray(files, ds, name)
  }

  /** Reconciling settles the directory, and a settled directory is a fixed point at every clock. */
  lemma ReconciledIsSettled(files: Files, ds: seq<Declaration>, requester: string, clock: nat -> int,
      clock': nat -> int)
    requires DistinctIds(ds) && Writable(files, ds) == |ds|
    ensures var r := Reconciled(files, ds, requester, clock);
            Settled(r, ds, requester) && Reconciled(r, ds, requester, clock') == r
  {
    var r := Reconciled(files, ds, requester, clock);
    forall i | 0 <= i < |ds|
      ensures FileName(ds[i].id) in r && Managed(r[FileName(ds[i].id)])
              && r[FileName(ds[i].id)] == Desired(r, ds[i], requester, 0)
    {
      ReconciledContents(files, ds, requester, clock, FileName(ds[i].id));
      assert Declares(ds, FileName(ds[i].id));
    }
    forall name | name in r ensures !Stray(r, ds, name) {
      ReconciledContents(files, ds, requester, clock, name);
    }
    SettledIsFixed(r, ds, |ds|, requester, clock');
  }

  lemma {:induction false} SettledIsFixed(files: Files, ds: seq<Declaration>, k: nat, requester: string,
      clock: nat -> int)
    requires k <= |ds| && Settled(files, ds, requester)
    ensures Applied(files, ds, k, requester, clock) == files
    ensures Reconciled(files, ds, requester, clock) == files || k < |ds|
    decreases k
  {
    if k > 0 { SettledIsFixed(files, ds, k - 1, requester, clock); }
  }

  // ----- Whole boots and whole runs -----

  predicate Succeeds(files: Files, file: DeclarationFile, accepts: Settings -> bool) {
    Acceptable(file, accepts) && Readable(files) && Writable(files, Schedules(file)) == |Schedules(file)|
  }

  /** The directory after one boot: all, a prefix before the first conflict, or nothing of the declarations. */
  function After(files: Files, file: DeclarationFile, accepts: Settings -> bool, requester: string,
      clock: nat -> int): Files {
    var ds := Schedules(file);
    if !Acceptable(file, accepts) || !Readable(files) then files
    else if Succeeds(files, file, accepts) then Reconciled(files, ds, requester, clock)
    else Applied(files, ds, Writable(files, ds), requester, clock)
  }

  datatype Event =
    | Boot(file: DeclarationFile, accepts: Settings -> bool, requester: string, clock: nat -> int)
    | SetEnabled(id: string, enabled: bool)
    | Elsewhere(files: Files)

  function Toggle(files: Files, id: string, enabled: bool): Files {
    var name := FileName(id);
    if name in files && files[name].Source? then files[name := Source(files[name].spec.(enabled := enabled))] else files
  }

  function Step(files: Files, e: Event): Files {
    match e
    case Boot(file, accepts, requester, clock) => After(files, file, accepts, requester, clock)
    case SetEnabled(id, enabled) => Toggle(files, id, enabled)
    case Elsewhere(other) => other
  }

  function Run(files: Files, es: seq<Event>): Files {
    if es == [] then files else Step(Run(files, es[..|es| - 1]), es[|es| - 1])
  }

  predicate DeclaresAt(ds: seq<Declaration>, id: string, i: nat) {
    i < |ds| && ds[i].id == id
  }

  /** The event keeps `id` declared and leaves its file to the scheduler. */
  ghost predicate KeepsDeclared(files: Files, e: Event, id: string) {
    match e
    case Boot(file, accepts, _, _) => Acceptable(file, accepts) ==> exists i: nat :: DeclaresAt(Schedules(file), id, i)
    case SetEnabled(_, _) => true
    case Elsewhere(other) => Get(other, FileName(id)) == Get(files, FileName(id))
  }

  ghost predicate AlwaysDeclared(files: Files, es: seq<Event>, id: string) {
    es != [] ==>
      var before := es[..|es| - 1];
      AlwaysDeclared(files, before, id) && KeepsDeclared(Run(files, before), es[|es| - 1], id)
  }

  /** The index at which a boot creates the schedule for the first time, if it gets that far. */
  predicate Creates(files: Files, e: Event, id: string, i: nat) {
    && e.Boot? && Acceptable(e.file, e.accepts) && Readable(files) && DeclaresAt(Schedules(e.file), id, i)
    && i < Writable(files, Schedules(e.file))
  }

  /**
   What the schedule's pair (enabled, registered at) should be, from the history
   alone: set by the boot that creates it, then only by the operator.
   */
  ghost function Choice(files: Files, es: seq<Event>, id: string): Option<(bool, int)> {
    if es == [] then None
    else
      var before, e := es[..|es| - 1], es[|es| - 1];
      var was := Choice(files, before, id);
      if was.Some? then
        if e.SetEnabled? && e.id == id then Some((e.enabled, was.value.1)) else was
      else if exists i: nat :: Creates(Run(files, before), e, id, i) then
        var i: nat :| Creates(Run(files, before), e, id, i);
        Some((Schedules(e.file)[i].enabled, e.clock(i)))
      else None
  }

  /** The directory holds the schedule, managed, with exactly this pair. */
  predicate Holds(files: Files, id: string, pair: Option<(bool, int)>) {
    var name := FileName(id);
    if pair.None? then name !in files
    else name in files && Managed(files[name])
         && files[name].spec.enabled == pair.value.0 && files[name].spec.registeredAt == pair.value.1
  }

  /** What a boot leaves under a declared name. */
  lemma AfterDeclared(files: Files, e: Event, i: nat)
    requires e.Boot? && Acceptable(e.file, e.accepts) && Readable(files) && i < |Schedules(e.file)|
    ensures var ds := Schedules(e.file); var name := FileName(ds[i].id);
            Get(Step(files, e), name) ==
            if i < Writable(files, ds) then Some(Desired(files, ds[i], e.requester, e.clock(i))) else Get(files, name)
  {
    hide Desired, ValidDeclaration, Loads, Scans;
    var ds := Schedules(e.file);
    var name, k := FileName(ds[i].id), Writable(files, ds);
    NamesDiffer(ds);
    if k == |ds| {
      AppliedAt(files, ds, |ds|, e.requester, e.clock);
      assert Declares(ds, name);
    } else {
      AppliedAt(files, ds, k, e.requester, e.clock);
      if k <= i {
        forall j | 0 <= j < k ensures FileName(ds[..k][j].id) != name { assert ds[..k][j] == ds[j]; }
      }
    }
  }

  /** A boot that declares the id keeps its pair, or creates it from the declaration. */
  lemma BootKeepsPair(files: Files, e: Event, id: string, pair: Option<(bool, int)>, i: nat)
    requires e.Boot? && Acceptable(e.file, e.accepts) && Readable(files)
    requires Holds(files, id, pair) && DeclaresAt(Schedules(e.file), id, i)
    ensures pair.Some? ==> Holds(Step(files, e), id, pair)
    ensures pair.None? && Creates(files, e, id, i) ==>
              Holds(Step(files, e), id, Some((Schedules(e.file)[i].enabled, e.clock(i))))
    ensures pair.None? && !Creates(files, e, id, i) ==> Holds(Step(files, e), id, None)
  {
    AfterDeclared(files, e, i);
    hide After, Step, Acceptable, Readable, Writable;
  }

  lemma OneIndex(ds: seq<Declaration>, id: string, i: nat, j: nat)
    requires DistinctIds(ds) && DeclaresAt(ds, id, i) && DeclaresAt(ds, id, j)
    ensures i == j
  {
  }

  lemma ToggleKeepsPair(files: Files, id: string, pair: Option<(bool, int)>, other: string, enabled: bool)
    requires Holds(files, id, pair)
    ensures Holds(Toggle(files, other, enabled), id,
                  if pair.Some? && other == id then Some((enabled, pair.value.1)) else pair)
  {
    FileNameInjective(other, id);
  }

  /**
   Over every sequence of boots, operator pauses and resumes and edits elsewhere
   that keeps the id declared: its `enabled` is the last operator choice or the
   first declared value, and its registration time never changes.
   */
  lemma {:induction false} OperatorChoiceSurvives(files: Files, es: seq<Event>, id: string)
    requires FileName(id) !in files && AlwaysDeclared(files, es, id)
    ensures Holds(Run(files, es), id, Choice(files, es, id))
    decreases |es|
  {
    if es != [] {
      var before, e := es[..|es| - 1], es[|es| - 1];
      OperatorChoiceSurvives(files, before, id);
      var mid, was := Run(files, before), Choice(files, before, id);
      hide Run, Choice, Holds, After, Creates;
      OneStep(files, before, e, id, mid, was);
      assert es == before + [e];
    }
  }

  lemma OneStep(files: Files, before: seq<Event>, e: Event, id: string, mid: Files, was: Option<(bool, int)>)
    requires mid == Run(files, before) && was == Choice(files, before, id)
    requires Holds(mid, id, was) && KeepsDeclared(mid, e, id)
    ensures Holds(Run(files, before + [e]), id, Choice(files, before + [e], id))
  {
    var es := before + [e];
    assert es[..|es| - 1] == before;
    assert Run(files, es) == Step(mid, e);
    ghost var now := Choice(files, es, id);
    assert was.Some? ==> now == if e.SetEnabled? && e.id == id then Some((e.enabled, was.value.1)) else was;
    assert was.None? && now.Some? ==>
        exists i: nat :: Creates(mid, e, id, i) && now == Some((Schedules(e.file)[i].enabled, e.clock(i)));
    assert was.None? && (exists i: nat :: Creates(mid, e, id, i)) ==> now.Some?;
    hide Run, Choice;
    if e.SetEnabled? {
      ToggleKeepsPair(mid, id, was, e.id, e.enabled);
    } else if e.Boot? {
      BootStep(mid, e, id, was, now);
    }
  }

  lemma BootStep(mid: Files, e: Event, id: string, was: Option<(bool, int)>, now: Option<(bool, int)>)
    requires e.Boot? && Holds(mid, id, was) && KeepsDeclared(mid, e, id) && (was.Some? ==> now == was)
    requires was.None? && now.Some? ==>
               exists i: nat :: Creates(mid, e, id, i) && now == Some((Schedules(e.file)[i].enabled, e.clock(i)))
    requires was.None? && (exists i: nat :: Creates(mid, e, id, i)) ==> now.Some?
    ensures Holds(Step(mid, e), id, now)
  {
    hide Readable, Writable, ValidDeclaration;
    if Acceptable(e.file, e.accepts) && Readable(mid) {
      var i: nat :| DeclaresAt(Schedules(e.file), id, i);
      BootKeepsPair(mid, e, id, was, i);
      forall j: nat | Creates(mid, e, id, j) ensures j == i { OneIndex(Schedules(e.file), id, i, j); }
      hide Step, Holds;
    }
  }
}
