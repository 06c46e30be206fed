/**
 * Signed self-update: the decision, and the breadcrumb / swap / probation / rollback protocol
 * as a transition system over every file operation, with a crash possible between any two.
 */
module SelfUpdate {
  import opened Common
  import opened Text
  import opened Version

  // ---------------------------------------------------------------- the decision

  datatype Catalog = Catalog(version: string, minVersion: string)

  datatype Decision = Skip | Refuse | Forced | AfterApply

  /** How a build compares versions. */
  type Order = (string, string) -> int

  /** What the protocol relies on in a comparator. */
  ghost predicate Lawful(order: Order) {
    && (forall a, b :: order(a, b) == -order(b, a))
    && (forall a, b, c :: order(a, b) <= 0 && order(b, c) <= 0 ==>
          order(a, c) <= 0 && (order(a, c) == 0 ==> order(a, b) == 0 && order(b, c) == 0))
    && (forall v :: order("", v) <= 0)
  }

  lemma CompareIsLawful()
    ensures Lawful(Compare)
  {
    forall a, b ensures Compare(a, b) == -Compare(b, a) { CompareIsAntisymmetric(a, b); }
    forall a, b, c | Compare(a, b) <= 0 && Compare(b, c) <= 0
      ensures Compare(a, c) <= 0 && (Compare(a, c) == 0 ==> Compare(a, b) == 0 && Compare(b, c) == 0)
    {
      CompareIsTransitive(a, b, c);
    }
    forall v ensures Compare("", v) <= 0 { EmptyIsLeast(v); }
  }

  lemma EmptyIsLeast(v: string)
    ensures Compare("", v) <= 0
  {
  }

  predicate SameVersion(order: Order, a: string, b: string) {
    order(a, b) == 0
  }

  predicate IsForced(order: Order, cat: Option<Catalog>, running: string) {
    cat.Some? && !IsBlank(cat.value.minVersion) && order(running, cat.value.minVersion) < 0
  }

  function DecideSelfUpdate(order: Order, cat: Option<Catalog>, running: string, floor: string, abandoned: string): Decision {
    if cat.None? || IsBlank(cat.value.version) then Skip
    else
      var desired := cat.value.version;
      var forced := IsForced(order, cat, running);
      if order(desired, running) == 0 && !forced then Skip
      else if abandoned != "" && order(desired, abandoned) == 0 then Refuse
      else if order(desired, running) < 0 then Refuse
      else if floor != "" && order(desired, floor) < 0 then Refuse
      else if forced then
        if order(desired, cat.value.minVersion) < 0 then Refuse else Forced
      else AfterApply
  }

  /** A target the running build may be swapped to. */
  predicate Upgrade(order: Order, running: string, to: string, floor: string, abandoned: string) {
    && order(running, to) < 0
    && (floor != "" ==> order(floor, to) <= 0)
    && (abandoned != "" ==> order(to, abandoned) != 0)
  }

  /** The catalog's target is at least the version it requires. */
  predicate ReachesMinimum(order: Order, cat: Catalog) {
    !IsBlank(cat.minVersion) ==> order(cat.minVersion, cat.version) <= 0
  }

  lemma DecisionByOrder(order: Order, cat: Option<Catalog>, running: string, floor: string, abandoned: string)
    requires Lawful(order)
    ensures var d := DecideSelfUpdate(order, cat, running, floor, abandoned);
            (d == Forced || d == AfterApply) <==>
            (cat.Some? && !IsBlank(cat.value.version)
             && Upgrade(order, running, cat.value.version, floor, abandoned)
             && ReachesMinimum(order, cat.value))
  {
  }

  /**
   * The agent swaps exactly for a strict upgrade that reaches the floor and the required
   * minimum and is not the abandoned target.
   */
  lemma DecisionIsExactlyUpgrade(cat: Option<Catalog>, running: string, floor: string, abandoned: string)
    ensures var d := DecideSelfUpdate(Compare, cat, running, floor, abandoned);
            (d == Forced || d == AfterApply) <==>
            (cat.Some? && !IsBlank(cat.value.version)
             && Upgrade(Compare, running, cat.value.version, floor, abandoned)
             && ReachesMinimum(Compare, cat.value))
  {
    CompareIsLawful();
    DecisionByOrder(Compare, cat, running, floor, abandoned);
  }

  // ---------------------------------------------------------------- the node

  /** A file by what it holds: nothing, a partial write, or a whole agent of some build. */
  datatype File = Missing | Torn | Whole(build: string)

  datatype Crumb = Crumb(from: string, to: string, attempts: nat, confirmed: bool)

  datatype Custody = Custody(floor: string, crumb: Option<Crumb>, abandoned: string)

  /**
   * What the controller-mode process is doing. `stale` is the record a forced update's run
   * loaded before it began; recordFailure rebuilds from it.
   */
  datatype Pc =
    | PhaseA
    | Abandoning
    | RolledBack(renamed: bool)
    | Setup
    | Daemon
    | DropBackup
    | Running(prev: Custody)
    | Updating(cat: Catalog, stale: Option<Custody>)
    | CrumbSaved(to: string, stale: Option<Custody>)
    | Copying(to: string, stale: Option<Custody>)
    | BackedUp(to: string, stale: Option<Custody>)
    | UpdateFailed(stale: Option<Custody>)
    | Swapped

  datatype Proc = Proc(build: string, pc: Pc)

  /**
   * The comparator it was built with, the executable and its .bak, the durable record, and the process if one is up. The last
   * three fields count, for the current breadcrumb, the boots that got past Phase A with it
   * unresolved, those of them running the target, and whether an abandonment save failed.
   */
  datatype Node = Node(
    order: Order,
    exe: File,
    bak: File,
    custody: Custody,
    proc: Option<Proc>,
    passes: nat,
    targetPasses: nat,
    abandonLost: bool)

  const MAX_ATTEMPTS := 3

  /** SaveState: not published, published with an error returned, or durable. */
  datatype Outcome = Lost | Published | Durable

  datatype Step =
    | Boot
    | BumpAttempt(outcome: Outcome)
    | Rollback
    | SaveAbandon(outcome: Outcome)
    | Promote(healthy: bool, outcome: Outcome)
    | FinalizeSave(outcome: Outcome)
    | RemoveBackup(ok: bool)
    | RunBegin
    | RunSave(outcome: Outcome)
    | RunEnd
    | BeginUpdate(cat: Catalog, forced: bool)
    | WriteCrumb(outcome: Outcome)
    | StartBackup
    | FinishBackup(ok: bool)
    | Swap(ok: bool, build: string)
    | RecordUpdateFailure(outcome: Outcome)
    | Exec(ok: bool)
    | Crash

  predicate At(n: Node, pc: Pc) {
    n.proc.Some? && n.proc.value.pc == pc
  }

  function Go(n: Node, pc: Pc): Node
    requires n.proc.Some?
  {
    n.(proc := Some(n.proc.value.(pc := pc)))
  }

  function Exit(n: Node): Node {
    n.(proc := None)
  }

  function Save(n: Node, c: Custody, o: Outcome): Node {
    if o == Lost then n else n.(custody := c)
  }

  predicate RunsTarget(n: Node) {
    n.proc.Some? && n.custody.crumb.Some? && SameVersion(n.order, n.proc.value.build, n.custody.crumb.value.to)
  }

  /** Phase A returned and the breadcrumb is still there. */
  function Pass(n: Node): Node
    requires n.proc.Some?
  {
    Go(n.(passes := n.passes + 1,
          targetPasses := if RunsTarget(n) then n.targetPasses + 1 else n.targetPasses), Setup)
  }

  predicate Enabled(n: Node, step: Step) {
    match step
    case Boot => n.proc.None? && n.exe.Whole?
    case BumpAttempt(_) => At(n, PhaseA)
    case Rollback => At(n, Abandoning)
    case SaveAbandon(_) => n.proc.Some? && n.proc.value.pc.RolledBack? && n.custody.crumb.Some?
    case Promote(_, _) => At(n, Setup)
    case FinalizeSave(_) => At(n, Daemon)
    case RemoveBackup(_) => At(n, DropBackup)
    case RunBegin => At(n, Daemon)
    case RunSave(_) => n.proc.Some? && n.proc.value.pc.Running?
    case RunEnd => n.proc.Some? && n.proc.value.pc.Running?
    case BeginUpdate(cat, forced) =>
      // A forced update interrupts a run and decides on the record that run loaded; a deferred
      // or retried one decides on the record as it is.
      && n.proc.Some?
      && (if forced then n.proc.value.pc.Running? else n.proc.value.pc == Daemon)
      && var c := if forced then n.proc.value.pc.prev else n.custody;
         var d := DecideSelfUpdate(n.order, Some(cat), n.proc.value.build, c.floor, c.abandoned);
         if forced then d == Forced else d == Forced || d == AfterApply
    case WriteCrumb(_) => n.proc.Some? && n.proc.value.pc.Updating?
    case StartBackup => n.proc.Some? && n.proc.value.pc.CrumbSaved?
    case FinishBackup(_) => n.proc.Some? && n.proc.value.pc.Copying?
    case Swap(ok, build) =>
      // The download reported the target's version when self-tested.
      n.proc.Some? && n.proc.value.pc.BackedUp? && (ok ==> SameVersion(n.order, build, n.proc.value.pc.to))
    case RecordUpdateFailure(_) => n.proc.Some? && n.proc.value.pc.UpdateFailed?
    case Exec(_) => At(n, Swapped)
    case Crash => n.proc.Some?
  }

  function Do(n: Node, step: Step): Node
    requires Enabled(n, step)
  {
    match step
    case Boot => n.(proc := Some(Proc(n.exe.build, PhaseA)))
    case BumpAttempt(o) =>
      if n.custody.crumb.None? then Go(n, Setup)
      else
        var c := n.custody.crumb.value;
        var n' := Save(n, n.custody.(crumb := Some(c.(attempts := c.attempts + 1))), o);
        if o != Durable then Exit(n')
        else if c.attempts + 1 > MAX_ATTEMPTS then Go(n', Abandoning)
        else Pass(n')
    case Rollback =>
      // Restore the old binary before the breadcrumb is cleared.
      if RunsTarget(n) && !n.bak.Missing?
      then Go(n.(exe := n.bak, bak := Missing), RolledBack(true))
      else Go(n, RolledBack(false))
    case SaveAbandon(o) =>
      var n' := Save(n, n.custody.(crumb := None, abandoned := n.custody.crumb.value.to), o);
      if n.proc.value.pc.renamed then Exit(n')
      else if o == Durable then Go(n'.(bak := Missing), Setup)
      else Pass(n'.(abandonLost := true))
    case Promote(healthy, o) =>
      if !RunsTarget(n) || n.custody.crumb.value.confirmed then Go(n, Daemon)
      else if !healthy then Exit(n)
      else
        var n' := Save(n, n.custody.(crumb := Some(n.custody.crumb.value.(confirmed := true))), o);
        if o == Durable then Go(n', Daemon) else Exit(n')
    case FinalizeSave(o) =>
      if !RunsTarget(n) || !n.custody.crumb.value.confirmed then n
      else
        var n' := Save(n, Custody(n.custody.crumb.value.to, None, ""), o);
        if o == Durable then Go(n', DropBackup) else n'
    case RemoveBackup(ok) => Go(if ok then n.(bak := Missing) else n, Daemon)
    case RunBegin => Go(n, Running(n.custody))
    case RunSave(o) => Save(n, n.proc.value.pc.prev, o)
    case RunEnd => Go(n, Daemon)
    case BeginUpdate(cat, forced) =>
      Go(n, Updating(cat, if forced then Some(n.proc.value.pc.prev) else None))
    case WriteCrumb(o) =>
      var Updating(cat, stale) := n.proc.value.pc;
      if n.custody.crumb.Some? then Go(n, UpdateFailed(stale))
      else
        var n' := Save(n, n.custody.(crumb := Some(Crumb(n.proc.value.build, cat.version, 0, false))), o);
        Go(if o == Lost then n' else n'.(passes := 0, targetPasses := 0, abandonLost := false),
           if o == Durable then CrumbSaved(cat.version, stale) else UpdateFailed(stale))
    case StartBackup => Go(n.(bak := Torn), Copying(n.proc.value.pc.to, n.proc.value.pc.stale))
    case FinishBackup(ok) =>
      var Copying(to, stale) := n.proc.value.pc;
      if ok then Go(n.(bak := n.exe), BackedUp(to, stale)) else Go(n.(bak := Missing), UpdateFailed(stale))
    case Swap(ok, build) =>
      if ok then Go(n.(exe := Whole(build)), Swapped)
      else Go(n.(bak := Missing), UpdateFailed(n.proc.value.pc.stale))
    case RecordUpdateFailure(o) =>
      // recordFailure rebuilds from the stale record; the other callers keep what is on disk.
      var stale := n.proc.value.pc.stale;
      Go(if stale.Some? then Save(n, stale.value, o) else n, Daemon)
    case Exec(ok) => if ok then Exit(n) else Go(n, Daemon)
    case Crash => Exit(n)
  }

  ghost predicate Init(n: Node) {
    n.order == Compare && n.exe.Whole? && n.custody.crumb.None? && n.proc.None? && n.passes == 0 && n.targetPasses == 0 && !n.abandonLost
  }

  ghost predicate Runs(n0: Node, steps: seq<Step>, n: Node)
    decreases |steps|
  {
    if steps == [] then n == n0
    else Enabled(n0, steps[0]) && Runs(Do(n0, steps[0]), steps[1..], n)
  }
}
