/** What every run of the self-update protocol keeps, and how every update ends. */
module SelfUpdateSafety {
  import opened Common
  import opened Version
  import opened SelfUpdate

  // ---------------------------------------------------------------- the invariant

  /** The executable is the old build, or the target with the old build backed up. */
  predicate Recoverable(n: Node, c: Crumb) {
    n.exe == Whole(c.from) ||
    (n.exe.Whole? && SameVersion(n.order, n.exe.build, c.to) && n.bak == Whole(c.from))
  }

  predicate Bounded(n: Node, c: Crumb) {
    && n.targetPasses <= c.attempts && n.targetPasses <= MAX_ATTEMPTS
    && (n.abandonLost ==> c.attempts > MAX_ATTEMPTS)
    && (!n.abandonLost ==> n.passes <= c.attempts && n.passes <= MAX_ATTEMPTS)
  }

  predicate CrumbInv(n: Node, c: Crumb) {
    Upgrade(n.order, c.from, c.to, n.custody.floor, n.custody.abandoned) && Recoverable(n, c) && Bounded(n, c)
  }

  /** The process runs what is on disk, unless its own swap could not be executed. */
  predicate RunsDisk(n: Node, build: string) {
    n.exe == Whole(build) || (n.custody.crumb.Some? && n.custody.crumb.value.from == build)
  }

  predicate NewCrumb(n: Node, build: string, to: string, stale: Option<Custody>) {
    && n.custody.crumb == Some(Crumb(build, to, 0, false))
    && n.exe == Whole(build)
    && (stale.Some? ==> stale.value == n.custody.(crumb := None))
  }

  ghost predicate PcInv(n: Node, build: string, pc: Pc) {
    match pc
    case PhaseA => n.exe == Whole(build)
    case Abandoning =>
      n.exe == Whole(build) && n.custody.crumb.Some? && n.custody.crumb.value.attempts > MAX_ATTEMPTS
    case RolledBack(renamed) =>
      && n.custody.crumb.Some? && n.custody.crumb.value.attempts > MAX_ATTEMPTS
      && n.exe == Whole(n.custody.crumb.value.from)
      && (!renamed ==> n.exe == Whole(build))
    case Setup => n.exe == Whole(build)
    case Daemon => RunsDisk(n, build)
    case DropBackup => n.custody.crumb.None?
    case Running(prev) => prev == n.custody && RunsDisk(n, build)
    case Updating(cat, stale) =>
      && RunsDisk(n, build)
      && (stale.Some? ==> stale.value == n.custody)
      && Upgrade(n.order, build, cat.version, n.custody.floor, n.custody.abandoned)
      && ReachesMinimum(n.order, cat)
    case CrumbSaved(to, stale) => NewCrumb(n, build, to, stale)
    case Copying(to, stale) => NewCrumb(n, build, to, stale)
    case BackedUp(to, stale) => NewCrumb(n, build, to, stale) && n.bak == Whole(build)
    case UpdateFailed(stale) =>
      && RunsDisk(n, build)
      && (stale.Some? ==>
            stale.value == n.custody ||
            (n.custody.crumb.Some? && NewCrumb(n, build, n.custody.crumb.value.to, stale)))
    case Swapped => n.custody.crumb.Some? && n.custody.crumb.value.from == build
  }

  ghost predicate Inv(n: Node) {
    && n.exe.Whole?
    && (n.custody.crumb.Some? ==> CrumbInv(n, n.custody.crumb.value))
    && (n.proc.Some? ==>
          && (n.custody.crumb.None? ==> n.exe == Whole(n.proc.value.build))
          && PcInv(n, n.proc.value.build, n.proc.value.pc))
  }

  // ---------------------------------------------------------------- one step

  lemma BootKeepsInv(n: Node, step: Step)
    requires step.Boot? || step.Crash?
    requires Inv(n) && Enabled(n, step)
    ensures Inv(Do(n, step))
  {
  }

  lemma ExitKeepsInv(n: Node)
    requires Inv(n)
    ensures Inv(Exit(n))
  {
  }

  lemma KeepsDiskKeepsInv(n: Node)
    requires Inv(n) && n.proc.Some? && RunsDisk(n, n.proc.value.build)
    ensures Inv(Go(n, Daemon))
  {
  }

  /** Before the daemon starts, the breadcrumb may be marked and its attempts counted. */
  lemma MarkKeepsInv(n: Node, c: Crumb, o: Outcome)
    requires Inv(n) && (At(n, PhaseA) || At(n, Setup)) && n.custody.crumb.Some?
    requires c.from == n.custody.crumb.value.from && c.to == n.custody.crumb.value.to && Bounded(n, c)
    ensures Inv(Save(n, n.custody.(crumb := Some(c)), o))
  {
    assert n.exe == Whole(n.proc.value.build);
    assert CrumbInv(n, n.custody.crumb.value);
  }

  lemma PassKeepsInv(n: Node)
    requires Inv(n) && At(n, PhaseA) && n.custody.crumb.Some?
    requires n.targetPasses < n.custody.crumb.value.attempts <= MAX_ATTEMPTS
    requires !n.abandonLost ==> n.passes < n.custody.crumb.value.attempts
    ensures Inv(Pass(n))
  {
    assert CrumbInv(n, n.custody.crumb.value);
  }

  lemma BumpAttemptKeepsInv(n: Node, o: Outcome)
    requires Inv(n) && Enabled(n, BumpAttempt(o))
    ensures Inv(Do(n, BumpAttempt(o)))
  {
    if n.custody.crumb.Some? {
      var c := n.custody.crumb.value;
      assert Bounded(n, c);
      var c' := c.(attempts := c.attempts + 1);
      MarkKeepsInv(n, c', o);
      var n' := Save(n, n.custody.(crumb := Some(c')), o);
      if o != Durable {
        ExitKeepsInv(n');
      } else if c'.attempts <= MAX_ATTEMPTS {
        PassKeepsInv(n');
      }
    }
  }

  lemma PromoteKeepsInv(n: Node, healthy: bool, o: Outcome)
    requires Inv(n) && Enabled(n, Promote(healthy, o))
    ensures Inv(Do(n, Promote(healthy, o)))
  {
    if !RunsTarget(n) || n.custody.crumb.value.confirmed {
      KeepsDiskKeepsInv(n);
    } else if !healthy {
      ExitKeepsInv(n);
    } else {
      var c := n.custody.crumb.value.(confirmed := true);
      MarkKeepsInv(n, c, o);
      var n' := Save(n, n.custody.(crumb := Some(c)), o);
      if o == Durable {
        KeepsDiskKeepsInv(n');
      } else {
        ExitKeepsInv(n');
      }
    }
  }

  /** A process running the target has the old build to go back to. */
  lemma TargetHasBackup(n: Node)
    requires Inv(n) && At(n, Abandoning) && RunsTarget(n)
    ensures n.bak == Whole(n.custody.crumb.value.from)
  {
  }

  lemma RollbackKeepsInv(n: Node)
    requires Inv(n) && Enabled(n, Rollback)
    ensures Inv(Do(n, Rollback))
  {
    if RunsTarget(n) { TargetHasBackup(n); }
  }

  lemma SaveAbandonKeepsInv(n: Node, o: Outcome)
    requires Inv(n) && Enabled(n, SaveAbandon(o))
    ensures Inv(Do(n, SaveAbandon(o)))
  {
  }

  /** A daemon running the target runs the binary on disk. */
  lemma TargetIsOnDisk(n: Node)
    requires Inv(n) && At(n, Daemon) && RunsTarget(n)
    ensures n.exe == Whole(n.proc.value.build)
  {
  }

  lemma FinalizeSaveKeepsInv(n: Node, o: Outcome)
    requires Inv(n) && Enabled(n, FinalizeSave(o))
    ensures Inv(Do(n, FinalizeSave(o)))
  {
    if Do(n, FinalizeSave(o)) != n {
      TargetIsOnDisk(n);
      assert Do(n, FinalizeSave(o)).custody.crumb.None?;
    }
  }

  lemma RemoveBackupKeepsInv(n: Node, ok: bool)
    requires Inv(n) && Enabled(n, RemoveBackup(ok))
    ensures Inv(Do(n, RemoveBackup(ok)))
  {
  }

  lemma RunStepsKeepInv(n: Node, step: Step)
    requires step.RunBegin? || step.RunSave? || step.RunEnd?
    requires Inv(n) && Enabled(n, step)
    ensures Inv(Do(n, step))
  {
  }

  lemma BeginUpdateKeepsInv(n: Node, cat: Catalog, forced: bool)
    requires Lawful(n.order) && Inv(n) && Enabled(n, BeginUpdate(cat, forced))
    ensures Inv(Do(n, BeginUpdate(cat, forced)))
  {
    DecisionByOrder(n.order, Some(cat), n.proc.value.build, n.custody.floor, n.custody.abandoned);
  }

  lemma WriteCrumbKeepsInv(n: Node, o: Outcome)
    requires Inv(n) && Enabled(n, WriteCrumb(o))
    ensures Inv(Do(n, WriteCrumb(o)))
  {
  }

  lemma SwapStepsKeepInv(n: Node, step: Step)
    requires step.StartBackup? || step.FinishBackup? || step.Swap? || step.Exec?
    requires Inv(n) && Enabled(n, step)
    ensures Inv(Do(n, step))
  {
  }

  lemma RecordUpdateFailureKeepsInv(n: Node, o: Outcome)
    requires Inv(n) && Enabled(n, RecordUpdateFailure(o))
    ensures Inv(Do(n, RecordUpdateFailure(o)))
  {
    var n', stale := Do(n, RecordUpdateFailure(o)), n.proc.value.pc.stale;
    if stale.None? || stale.value == n.custody || o == Lost {
      assert n' == Go(n, Daemon);
      KeepsDiskKeepsInv(n);
    } else {
      assert n'.custody.crumb.None?;
    }
  }

  lemma StepKeepsInv(n: Node, step: Step)
    requires Lawful(n.order) && Inv(n) && Enabled(n, step)
    ensures Inv(Do(n, step))
  {
    match step
    case Rollback => RollbackKeepsInv(n);
    case SaveAbandon(o) => SaveAbandonKeepsInv(n, o);
    case FinalizeSave(o) => FinalizeSaveKeepsInv(n, o);
    case RemoveBackup(ok) => RemoveBackupKeepsInv(n, ok);
    case RunBegin => RunStepsKeepInv(n, step);
    case RunSave(_) => RunStepsKeepInv(n, step);
    case RunEnd => RunStepsKeepInv(n, step);
    case BeginUpdate(cat, forced) => BeginUpdateKeepsInv(n, cat, forced);
    case WriteCrumb(o) => WriteCrumbKeepsInv(n, o);
    case RecordUpdateFailure(o) => RecordUpdateFailureKeepsInv(n, o);
    case Boot => BootKeepsInv(n, step);
    case BumpAttempt(o) => BumpAttemptKeepsInv(n, o);
    case Promote(healthy, o) => PromoteKeepsInv(n, healthy, o);
    case Crash => BootKeepsInv(n, step);
    case _ => SwapStepsKeepInv(n, step);
  }

  lemma StepKeepsOrder(n: Node, step: Step)
    requires Enabled(n, step)
    ensures Do(n, step).order == n.order
  {
  }

  // ---------------------------------------------------------------- every run

  lemma {:induction false} RunKeepsInv(n0: Node, steps: seq<Step>, n: Node)
    requires Lawful(n0.order) && Inv(n0) && Runs(n0, steps, n)
    ensures Inv(n) && n.order == n0.order
    decreases |steps|
  {
    if steps != [] {
      StepKeepsInv(n0, steps[0]);
      StepKeepsOrder(n0, steps[0]);
      RunKeepsInv(Do(n0, steps[0]), steps[1..], n);
    }
  }

  /**
   * At every point of every run, crashes included: the executable is whole; while a breadcrumb
   * exists it is the old build, or the target with the old build whole in .bak; the breadcrumb
   * is a strict upgrade at or above the floor and not the abandoned target.
   */
  lemma NeverBricked(n0: Node, steps: seq<Step>, n: Node)
    requires Init(n0) && Runs(n0, steps, n)
    ensures n.exe.Whole?
    ensures n.custody.crumb.Some? ==>
              && Recoverable(n, n.custody.crumb.value)
              && Upgrade(Compare, n.custody.crumb.value.from, n.custody.crumb.value.to, n.custody.floor, n.custody.abandoned)
  {
    CompareIsLawful();
    RunKeepsInv(n0, steps, n);
  }

  /**
   * Every breadcrumb is written with a strict upgrade of the running build that reaches the
   * floor and the catalog's minimum and is not the abandoned target.
   */
  lemma BreadcrumbsAreUpgrades(n: Node, step: Step)
    requires Inv(n) && Enabled(n, step)
    requires n.custody.crumb.None? && Do(n, step).custody.crumb.Some?
    ensures step.WriteCrumb? && n.proc.value.pc.Updating?
    ensures var c, cat := Do(n, step).custody.crumb.value, n.proc.value.pc.cat;
            && c == Crumb(n.proc.value.build, cat.version, 0, false)
            && n.exe == Whole(c.from)
            && Upgrade(n.order, c.from, c.to, n.custody.floor, n.custody.abandoned)
            && ReachesMinimum(n.order, cat)
  {
  }

  /**
   * The target gets past Phase A at most three times while its breadcrumb is unresolved, in
   * every run; so does any build, unless saving an abandonment failed.
   */
  lemma BootsAreBounded(n0: Node, steps: seq<Step>, n: Node)
    requires Init(n0) && Runs(n0, steps, n) && n.custody.crumb.Some?
    ensures n.targetPasses <= MAX_ATTEMPTS
    ensures !n.abandonLost ==> n.passes <= MAX_ATTEMPTS
  {
    CompareIsLawful();
    RunKeepsInv(n0, steps, n);
  }

  /** Finalized on the target; abandoned with the old build on disk; or dropped with nothing swapped. */
  predicate Ended(n: Node, step: Step)
    requires Enabled(n, step) && n.custody.crumb.Some?
  {
    var c, n' := n.custody.crumb.value, Do(n, step);
    match step
    case FinalizeSave(_) =>
      c.confirmed && n'.exe.Whole? && SameVersion(n.order, n'.exe.build, c.to) && n'.custody == Custody(c.to, None, "")
    case SaveAbandon(_) =>
      n'.exe == Whole(c.from) && n'.custody == Custody(n.custody.floor, None, c.to)
    case RecordUpdateFailure(_) =>
      && n'.exe == Whole(c.from) && n'.proc.Some? && n'.proc.value.build == c.from
      && n'.custody == n.custody.(crumb := None)
    case _ => false
  }

  /**
   * A breadcrumb disappears in exactly three ways: finalized on the target with the floor
   * raised to it; abandoned with the old build on disk, the target remembered and the floor
   * unchanged; or dropped by the run that wrote it when nothing was swapped.
   */
  lemma UpdateEnds(n: Node, step: Step)
    requires Inv(n) && Enabled(n, step)
    requires n.custody.crumb.Some? && Do(n, step).custody.crumb.None?
    ensures Ended(n, step)
  {
    OnlyTheseErase(n, step);
    match step
    case FinalizeSave(o) => FinalizeEnds(n, o);
    case SaveAbandon(o) => RolledBackIsOld(n);
    case RecordUpdateFailure(o) => DroppedIsOwn(n);
    case _ => RunHoldsDisk(n);
  }

  lemma FinalizeEnds(n: Node, o: Outcome)
    requires Inv(n) && Enabled(n, FinalizeSave(o)) && RunsTarget(n)
    requires Do(n, FinalizeSave(o)).custody.crumb.None?
    ensures Ended(n, FinalizeSave(o))
  {
    TargetIsOnDisk(n);
  }

  lemma OnlyTheseErase(n: Node, step: Step)
    requires Enabled(n, step) && n.custody.crumb.Some? && Do(n, step).custody.crumb.None?
    ensures step.FinalizeSave? || step.SaveAbandon? || step.RecordUpdateFailure? || step.RunSave?
    ensures step.FinalizeSave? ==> RunsTarget(n) && n.custody.crumb.value.confirmed
    ensures step.RecordUpdateFailure? ==>
              var stale := n.proc.value.pc.stale; stale.Some? && stale.value.crumb.None? && Do(n, step).custody == stale.value
    ensures step.RunSave? ==> n.proc.value.pc.prev.crumb.None?
  {
    match step
    case BeginUpdate(_, _) =>
    case _ =>
  }

  lemma RolledBackIsOld(n: Node)
    requires Inv(n) && n.proc.Some? && n.proc.value.pc.RolledBack?
    ensures n.custody.crumb.Some? && n.exe == Whole(n.custody.crumb.value.from)
  {
  }

  lemma DroppedIsOwn(n: Node)
    requires Inv(n) && n.proc.Some? && n.proc.value.pc.UpdateFailed? && n.custody.crumb.Some?
    requires n.proc.value.pc.stale.Some? && n.proc.value.pc.stale.value.crumb.None?
    ensures n.exe == Whole(n.custody.crumb.value.from) && n.proc.value.build == n.custody.crumb.value.from
    ensures n.proc.value.pc.stale.value == n.custody.(crumb := None)
  {
  }

  lemma RunHoldsDisk(n: Node)
    requires Inv(n) && n.proc.Some? && n.proc.value.pc.Running?
    ensures n.proc.value.pc.prev == n.custody
  {
  }

  /** No run of install bookkeeping erases the breadcrumb of a swapped binary. */
  lemma SwappedCrumbSurvivesRecords(n: Node, step: Step)
    requires Inv(n) && Enabled(n, step) && (step.RunSave? || step.RecordUpdateFailure?)
    requires n.custody.crumb.Some? && n.exe != Whole(n.custody.crumb.value.from)
    ensures Do(n, step).custody == n.custody
  {
  }

  /**
   * After three unresolved boots the next one, with durable saves, abandons: the old build is
   * back on disk, the target is remembered and the floor is unchanged.
   */
  lemma FourthBootAbandons(n: Node)
    requires Inv(n) && n.proc.None? && n.custody.crumb.Some? && n.custody.crumb.value.attempts >= MAX_ATTEMPTS
    ensures var c := n.custody.crumb.value;
            exists n' :: Runs(n, [Boot, BumpAttempt(Durable), Rollback, SaveAbandon(Durable)], n')
              && n'.exe == Whole(c.from) && n'.custody == Custody(n.custody.floor, None, c.to)
  {
    var n1 := Do(n, Boot);
    var n2 := Do(n1, BumpAttempt(Durable));
    BootKeepsInv(n, Boot);
    BumpAttemptKeepsInv(n1, Durable);
    var n3 := Do(n2, Rollback);
    RollbackKeepsInv(n2);
    var n4 := Do(n3, SaveAbandon(Durable));
    FourStepRun(n, Boot, BumpAttempt(Durable), Rollback, SaveAbandon(Durable));
    assert n4.exe == Whole(n.custody.crumb.value.from);
  }

  lemma FourStepRun(n: Node, a: Step, b: Step, c: Step, d: Step)
    requires Enabled(n, a) && Enabled(Do(n, a), b) && Enabled(Do(Do(n, a), b), c)
    requires Enabled(Do(Do(Do(n, a), b), c), d)
    ensures Runs(n, [a, b, c, d], Do(Do(Do(Do(n, a), b), c), d))
  {
    var n1 := Do(n, a);
    var n2 := Do(n1, b);
    var n3 := Do(n2, c);
    var n4 := Do(n3, d);
    assert Runs(n4, [], n4);
    assert [d][1..] == [] && [c, d][1..] == [d] && [b, c, d][1..] == [c, d] && [a, b, c, d][1..] == [b, c, d];
    assert Runs(n3, [d], n4);
    assert Runs(n2, [c, d], n4);
    assert Runs(n1, [b, c, d], n4);
  }

  // ---------------------------------------------------------------- the floor

  /** A record held in memory has the floor that is on disk. */
  predicate StaleAgrees(n: Node) {
    n.proc.Some? ==>
      match n.proc.value.pc
      case Running(prev) => prev.floor == n.custody.floor
      case UpdateFailed(stale) => stale.Some? ==> stale.value.floor == n.custody.floor
      case _ => true
  }

  /** Only finalization writes the floor, and it writes the breadcrumb's target. */
  lemma FloorMovesOnlyAtFinalize(n: Node, step: Step)
    requires StaleAgrees(n) && Enabled(n, step)
    ensures var f := Do(n, step).custody.floor;
            f == n.custody.floor || (step.FinalizeSave? && n.custody.crumb.Some? && f == n.custody.crumb.value.to)
  {
    match step
    case BeginUpdate(_, _) =>
    case _ =>
  }

  lemma StepKeepsFloor(n: Node, step: Step)
    requires Lawful(n.order) && Inv(n) && Enabled(n, step)
    ensures n.order(n.custody.floor, Do(n, step).custody.floor) <= 0
  {
    RunHoldsFloor(n);
    FloorMovesOnlyAtFinalize(n, step);
  }

  lemma RunHoldsFloor(n: Node)
    requires Inv(n)
    ensures StaleAgrees(n)
  {
  }

  /** The anti-downgrade floor never moves down, on the apply path or the retry path. */
  lemma {:induction false} FloorNeverDecreases(n0: Node, steps: seq<Step>, n: Node)
    requires Lawful(n0.order) && Inv(n0) && Runs(n0, steps, n)
    ensures n0.order(n0.custody.floor, n.custody.floor) <= 0
    decreases |steps|
  {
    if steps != [] {
      StepKeepsInv(n0, steps[0]);
      StepKeepsOrder(n0, steps[0]);
      StepKeepsFloor(n0, steps[0]);
      FloorNeverDecreases(Do(n0, steps[0]), steps[1..], n);
    }
  }
}
