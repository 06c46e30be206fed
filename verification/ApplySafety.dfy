/** Every run of the apply protocol keeps its invariant, and what follows from that. */
module ApplySafety {
  import opened Common
  import opened Text
  import opened ApplyGates
  import opened ApplyProtocol

  // ---------------------------------------------------------------- the gates against the log

  /** A candidate accepted on a protecting record never goes behind a logged start. */
  lemma GatesRespectLog(st: State, log: seq<Event>, cfg: Config, c: Candidate, epoch: int)
    requires Protects(st, log) && StartsWellFormed(log)
    requires LoadGates(cfg, st) && CandidateGates(cfg, st, c) == Some(epoch)
    ensures Above(log, StartOf(cfg, c, epoch))
  {
    var e := StartOf(cfg, c, epoch);
    forall i | 0 <= i < |log| && log[i].Started?
      ensures NotBehind(log[i].start, e)
    {
      assert Covers(st, log[i].start);
    }
  }

  /** A candidate accepted on a record bound to a start may follow that start. */
  lemma GatesRespectIntent(st: State, e: Start, cfg: Config, c: Candidate, epoch: int)
    requires BoundTo(st, e)
    requires LoadGates(cfg, st) && CandidateGates(cfg, st, c) == Some(epoch)
    ensures MayFollowUnresolved(e, StartOf(cfg, c, epoch))
  {
    var p := st.pending.value;
    assert Continues(p, e);
    SameLength(p.signingKey, e.signingKey);
  }

  lemma SameLength(a: string, b: string)
    ensures EqualFold(a, b) ==> |a| == |b|
  {
    assert |Lower(a)| == |a| && |Lower(b)| == |b|;
  }

  /** The saved intent covers the logged starts and the start it authorizes. */
  lemma IntentIsSafe(st: State, log: seq<Event>, cfg: Config, c: Candidate, epoch: int, now: Stamp)
    requires Safe(st, log) && StartsWellFormed(log)
    requires LoadGates(cfg, st) && CandidateGates(cfg, st, c) == Some(epoch)
    ensures Safe(IntentState(cfg, st, c, epoch, now), log)
    ensures Safe(IntentState(cfg, st, c, epoch, now), log + [Started(StartOf(cfg, c, epoch))])
  {
    var e := StartOf(cfg, c, epoch);
    var intent := IntentState(cfg, st, c, epoch, now);
    var log' := log + [Started(e)];
    GatesRespectLog(st, log, cfg, c, epoch);
    if !Wedged(intent) {
      IntentCoversItsStart(st, cfg, c, epoch, now);
      IntentContinuesItsStart(st, cfg, c, epoch, now);
      forall i | 0 <= i < |log'| && log'[i].Started?
        ensures Covers(intent, log'[i].start)
      {
        if i < |log| { CoverIsDownwardClosed(intent, log[i].start, e); }
      }
      assert forall i :: 0 <= i < |log| ==> log[i] == log'[i];
      if Open(log) { GatesRespectIntent(st, LastStart(log).value, cfg, c, epoch); }
    }
  }

  lemma IntentCoversItsStart(st: State, cfg: Config, c: Candidate, epoch: int, now: Stamp)
    requires LoadGates(cfg, st) && CandidateGates(cfg, st, c) == Some(epoch)
    requires !Wedged(IntentState(cfg, st, c, epoch, now))
    ensures Covers(IntentState(cfg, st, c, epoch, now), StartOf(cfg, c, epoch))
  {
  }

  lemma IntentContinuesItsStart(st: State, cfg: Config, c: Candidate, epoch: int, now: Stamp)
    requires LoadGates(cfg, st) && CandidateGates(cfg, st, c) == Some(epoch)
    requires !Wedged(IntentState(cfg, st, c, epoch, now))
    ensures IntentState(cfg, st, c, epoch, now).pending.Some?
    ensures Continues(IntentState(cfg, st, c, epoch, now).pending.value, StartOf(cfg, c, epoch))
  {
  }

  lemma CoverIsDownwardClosed(st: State, a: Start, b: Start)
    requires Covers(st, b) && NotBehind(a, b)
    ensures Covers(st, a)
  {
  }

  lemma FailureIsSafe(cfg: Config, base: State, log: seq<Event>)
    requires Safe(base, log)
    ensures Safe(RecordFailure(cfg, base), log)
  {
    var st := RecordFailure(cfg, base);
    forall i | 0 <= i < |log| && log[i].Started? && !Wedged(base)
      ensures Covers(st, log[i].start)
    {
      assert Covers(base, log[i].start);
    }
  }

  lemma SelfUpdateSaveIsSafe(a: State, b: State, log: seq<Event>)
    requires Safe(a, log) && SameCustody(a, b)
    ensures Safe(b, log)
  {
    forall i | 0 <= i < |log| && log[i].Started? && !Wedged(a)
      ensures Covers(b, log[i].start)
    {
      assert Covers(a, log[i].start);
    }
  }

  lemma SuccessIsSafe(cfg: Config, intent: State, c: Candidate, epoch: int, log: seq<Event>, durable: bool)
    requires c.compiledAt.Trimmed().Some?
    requires |log| > 0 && log[|log| - 1] == Started(StartOf(cfg, c, epoch))
    requires Monotone(log)
    ensures Safe(RecordSuccess(cfg, intent, c, epoch), log + [Committed(durable)])
    ensures Protects(RecordSuccess(cfg, intent, c, epoch), log)
  {
    var st := RecordSuccess(cfg, intent, c, epoch);
    var e := StartOf(cfg, c, epoch);
    assert Covers(st, e);
    forall i | 0 <= i < |log| && log[i].Started?
      ensures Covers(st, log[i].start)
    {
      if i < |log| - 1 { CoverIsDownwardClosed(st, log[i].start, e); }
    }
  }

  // ---------------------------------------------------------------- the log

  lemma CommitExtends(st: State, log: seq<Event>, durable: bool)
    requires Protects(st, log)
    ensures Safe(st, log + [Committed(durable)])
  {
    var log' := log + [Committed(durable)];
    forall i | 0 <= i < |log'| && log'[i].Started? && !Wedged(st)
      ensures Covers(st, log'[i].start)
    {
      assert log'[i] == log[i];
    }
  }

  lemma {:induction false} LastStartIndex(log: seq<Event>) returns (l: int)
    requires LastStart(log).Some?
    ensures 0 <= l < |log| && log[l] == Started(LastStart(log).value)
    ensures forall k :: l < k < |log| ==> !log[k].Started?
    decreases |log|
  {
    l := |log| - 1;
    if !log[l].Started? { l := LastStartIndex(log[..l]); }
  }

  lemma {:induction false} NoLastStart(log: seq<Event>, i: int)
    requires 0 <= i < |log| && log[i].Started?
    ensures LastStart(log).Some?
    decreases |log|
  {
    if i < |log| - 1 { NoLastStart(log[..|log| - 1], i); }
  }

  lemma LastStartOfMark(log: seq<Event>, mark: Event)
    ensures LastStart(log + [mark]) == if mark.Started? then Some(mark.start) else LastStart(log)
  {
    assert (log + [mark])[..|log|] == log;
  }

  /** What may follow `b` may follow what `b` may follow. */
  lemma MayFollowTransitive(a: Start, b: Start, c: Start)
    requires MayFollowUnresolved(a, b) && MayFollowUnresolved(b, c)
    requires a.credentialed ==> b.credentialed
    ensures MayFollowUnresolved(a, c)
  {
    SameLength(b.signingKey, a.signingKey);
  }

  /** An unresolved stretch stays one when it is cut at a start, or the log grows. */
  lemma UnresolvedShrinks(log: seq<Event>, log': seq<Event>, i: int, l: int, j: int)
    requires log <= log' && 0 <= i < l <= j <= |log'| && l <= |log| && Unresolved(log', i, j)
    requires l == j || log'[l].Started?
    ensures Unresolved(log, i, l)
  {
    forall k | i < k < l ensures !StandsAt(log, k, l) {
      assert !StandsAt(log', k, j);
    }
  }

  lemma UnresolvedIsOpen(log: seq<Event>, i: int)
    requires 0 <= i < |log| && log[i].Started? && Unresolved(log, i, |log|)
    ensures Open(log)
  {
    NoLastStart(log, i);
    var last := |log| - 1;
    if i < last { assert !StandsAt(log, last, |log|); }
  }

  lemma RecoveringExtends(log: seq<Event>, e: Start, i: int)
    requires Monotone(log) && Recovering(log) && 0 <= i < |log| && log[i].Started?
    requires Open(log) ==> MayFollowUnresolved(LastStart(log).value, e)
    requires Unresolved(log, i, |log|)
    ensures MayFollowUnresolved(log[i].start, e)
  {
    UnresolvedIsOpen(log, i);
    var l := LastStartIndex(log);
    if i < l {
      UnresolvedShrinks(log, log, i, l, |log|);
      assert NotBehind(log[i].start, log[l].start);
      MayFollowTransitive(log[i].start, log[l].start, e);
    }
  }

  lemma StartExtends(log: seq<Event>, e: Start)
    requires StartsWellFormed(log) && Monotone(log) && Recovering(log) && Above(log, e)
    requires e.compiledAt.Trimmed().Some? && (!e.credentialed ==> e.epoch == 0)
    requires Open(log) ==> MayFollowUnresolved(LastStart(log).value, e)
    ensures var log' := log + [Started(e)]; StartsWellFormed(log') && Monotone(log') && Recovering(log')
  {
    var log' := log + [Started(e)];
    assert forall k :: 0 <= k < |log| ==> log'[k] == log[k];
    forall i, j | 0 <= i < j < |log'| && log'[i].Started? && log'[j].Started? && Unresolved(log', i, j)
      ensures MayFollowUnresolved(log'[i].start, log'[j].start)
    {
      UnresolvedShrinks(log, log', i, j, j);
      if j == |log| { RecoveringExtends(log, e, i); }
    }
  }

  /** A commit, or the loss of one, adds no start. */
  lemma MarkExtends(log: seq<Event>, mark: Event)
    requires StartsWellFormed(log) && Monotone(log) && Recovering(log) && !mark.Started?
    ensures var log' := log + [mark]; StartsWellFormed(log') && Monotone(log') && Recovering(log')
  {
    var log' := log + [mark];
    assert forall k :: 0 <= k < |log| ==> log'[k] == log[k];
    forall i, j | 0 <= i < j < |log'| && log'[i].Started? && log'[j].Started? && Unresolved(log', i, j)
      ensures MayFollowUnresolved(log'[i].start, log'[j].start)
    {
      UnresolvedShrinks(log, log', i, j, j);
    }
  }

  // ---------------------------------------------------------------- one step

  lemma BeginKeepsInv(s: Sys, pid: nat, cfg: Config)
    requires Inv(s) && Enabled(s, Begin(pid, cfg))
    ensures Inv(Do(s, Begin(pid, cfg)))
  {
    var s' := Do(s, Begin(pid, cfg));
    assert forall p :: p in s.procs ==> Parent(p) in s.lease;
    assert forall i :: i in s.running ==> Guardian(i) in s.lease;
    assert s'.procs.Keys == {pid};
  }

  lemma LoadKeepsInv(s: Sys, pid: nat)
    requires Inv(s) && Enabled(s, Load(pid))
    ensures Inv(Do(s, Load(pid)))
  {
  }

  lemma VerifyKeepsInv(s: Sys, pid: nat, c: Candidate)
    requires Inv(s) && Enabled(s, Verify(pid, c))
    ensures Inv(Do(s, Verify(pid, c)))
  {
  }

  lemma GiveUpKeepsInv(s: Sys, pid: nat)
    requires Inv(s) && Enabled(s, GiveUp(pid))
    ensures Inv(Do(s, GiveUp(pid)))
  {
    assert PhaseInv(s, s.procs[pid]);
    assert Safe(s.visible, s.log);
    if s.procs[pid].phase.Swapping? {
      SelfUpdateSaveIsSafe(s.visible, s.procs[pid].phase.prev, s.log);
    }
  }

  /** Saving a safe record leaves the disk safe. */
  lemma SaveKeepsDisk(s: Sys, st: State, o: Outcome)
    requires DiskInv(s) && Safe(st, s.log)
    ensures DiskInv(Save(s, st, o))
  {
  }

  lemma SelfUpdateSaveKeepsInv(s: Sys, pid: nat, node: string, u: UpdateCustody, o: Outcome)
    requires Inv(s) && Enabled(s, SelfUpdateSave(pid, node, u, o))
    ensures Inv(Do(s, SelfUpdateSave(pid, node, u, o)))
  {
    assert PhaseInv(s, s.procs[pid]);
    var st := s.visible.(nodeId := node, update := u);
    SelfUpdateSaveIsSafe(s.visible, st, s.log);
    SaveKeepsDisk(s, st, o);
  }

  lemma PersistKeepsInv(s: Sys, pid: nat, now: Stamp, o: Outcome)
    requires Inv(s) && Enabled(s, Persist(pid, now, o))
    ensures Inv(Do(s, Persist(pid, now, o)))
  {
    var p := s.procs[pid];
    assert PhaseInv(s, p);
    var Verified(prev, c, epoch) := p.phase;
    assert Safe(prev, s.log);
    VerifiedMayStart(prev, s.log, p.cfg, c, epoch, now);
    MoveKeepsLease(s, pid, Do(s, Persist(pid, now, o)).procs[pid].phase);
    SaveKeepsDisk(s, IntentState(p.cfg, prev, c, epoch, now), o);
  }

  /** What a process needs in order to start the install it verified. */
  predicate MayStart(intent: State, log: seq<Event>, e: Start) {
    && Above(log, e) && Safe(intent, log) && Safe(intent, log + [Started(e)])
    && e.compiledAt.Trimmed().Some?
    && (Open(log) ==> MayFollowUnresolved(LastStart(log).value, e))
  }

  lemma VerifiedMayStart(prev: State, log: seq<Event>, cfg: Config, c: Candidate, epoch: int, now: Stamp)
    requires Safe(prev, log) && StartsWellFormed(log)
    requires LoadGates(cfg, prev) && CandidateGates(cfg, prev, c) == Some(epoch)
    ensures MayStart(IntentState(cfg, prev, c, epoch, now), log, StartOf(cfg, c, epoch))
  {
    IntentIsSafe(prev, log, cfg, c, epoch, now);
    GatesRespectLog(prev, log, cfg, c, epoch);
    if Open(log) { GatesRespectIntent(prev, LastStart(log).value, cfg, c, epoch); }
  }

  lemma StartInstallKeepsInv(s: Sys, pid: nat)
    requires Inv(s) && Enabled(s, StartInstall(pid))
    ensures Inv(Do(s, StartInstall(pid)))
  {
    var p := s.procs[pid];
    assert PhaseInv(s, p);
    StartExtends(s.log, StartOf(p.cfg, p.phase.c, p.phase.epoch));
  }

  lemma InstallEndsKeepsInv(s: Sys, i: nat)
    requires Inv(s) && Enabled(s, InstallEnds(i))
    ensures Inv(Do(s, InstallEnds(i)))
  {
  }

  lemma ReapKeepsInv(s: Sys, pid: nat, ok: bool)
    requires Inv(s) && Enabled(s, Reap(pid, ok))
    ensures Inv(Do(s, Reap(pid, ok)))
  {
    assert PhaseInv(s, s.procs[pid]);
  }

  lemma MoveKeepsLease(s: Sys, pid: nat, ph: Phase)
    requires LeaseInv(s) && pid in s.procs && !s.procs[pid].phase.Installing?
    ensures LeaseInv(SetPhase(s, pid, ph))
  {
    assert forall i :: i !in s.running;
  }

  /** A published commit: every record a power loss may leave protects the log it ends. */
  lemma CommitKeepsDisk(s: Sys, cfg: Config, intent: State, c: Candidate, epoch: int, o: Outcome)
    requires DiskInv(s) && IntentHeld(s, cfg, intent, c, epoch) && Monotone(s.log) && o != Lost
    requires |s.log| > 0 && s.log[|s.log| - 1] == Started(StartOf(cfg, c, epoch))
    ensures DiskInv(Save(s, RecordSuccess(cfg, intent, c, epoch), o).(log := s.log + [Committed(o == Durable)]))
  {
    SuccessIsSafe(cfg, intent, c, epoch, s.log, o == Durable);
    CommitExtends(intent, s.log, o == Durable);
  }

  lemma CommitKeepsInv(s: Sys, pid: nat, o: Outcome)
    requires Inv(s) && Enabled(s, Commit(pid, o))
    ensures Inv(Do(s, Commit(pid, o)))
  {
    var p := s.procs[pid];
    assert PhaseInv(s, p);
    MoveKeepsLease(s, pid, Finishing);
    if o != Lost {
      CommitKeepsDisk(s, p.cfg, p.phase.intent, p.phase.c, p.phase.epoch, o);
      MarkExtends(s.log, Committed(o == Durable));
    }
  }

  lemma SaveFailureKeepsInv(s: Sys, pid: nat, o: Outcome)
    requires Inv(s) && Enabled(s, SaveFailure(pid, o))
    ensures Inv(Do(s, SaveFailure(pid, o)))
  {
    var p := s.procs[pid];
    assert PhaseInv(s, p);
    FailureIsSafe(p.cfg, p.phase.base, s.log);
    SaveKeepsDisk(s, RecordFailure(p.cfg, p.phase.base), o);
  }

  lemma ExitKeepsInv(s: Sys, step: Step)
    requires step.Release? || step.Kill?
    requires Inv(s) && Enabled(s, step)
    ensures Inv(Do(s, step))
  {
  }

  /** The record a power loss leaves protects the log, and is bound again if it says so. */
  lemma FoundIsSafe(found: State, log: seq<Event>)
    requires Safe(found, log)
    ensures Safe(found, AfterPowerLoss(log, found))
  {
    var log' := AfterPowerLoss(log, found);
    assert forall i :: 0 <= i < |log| ==> log'[i] == log[i];
    LastStartOfMark(log, Rebound);
  }

  lemma PowerLossKeepsInv(s: Sys, found: State)
    requires Inv(s) && Enabled(s, PowerLoss(found))
    ensures Inv(Do(s, PowerLoss(found)))
  {
    MarkExtends(s.log, Rebound);
    FoundIsSafe(found, s.log);
  }

  lemma StepKeepsInv(s: Sys, step: Step)
    requires Inv(s) && Enabled(s, step)
    ensures Inv(Do(s, step))
  {
    match step
    case Begin(pid, cfg) => BeginKeepsInv(s, pid, cfg);
    case Load(pid) => LoadKeepsInv(s, pid);
    case Verify(pid, c) => VerifyKeepsInv(s, pid, c);
    case GiveUp(pid) => GiveUpKeepsInv(s, pid);
    case SelfUpdateSave(pid, node, u, o) => SelfUpdateSaveKeepsInv(s, pid, node, u, o);
    case Persist(pid, now, o) => PersistKeepsInv(s, pid, now, o);
    case StartInstall(pid) => StartInstallKeepsInv(s, pid);
    case InstallEnds(i) => InstallEndsKeepsInv(s, i);
    case Reap(pid, ok) => ReapKeepsInv(s, pid, ok);
    case Commit(pid, o) => CommitKeepsInv(s, pid, o);
    case SaveFailure(pid, o) => SaveFailureKeepsInv(s, pid, o);
    case PowerLoss(found) => PowerLossKeepsInv(s, found);
    case _ => ExitKeepsInv(s, step);
  }

  // ---------------------------------------------------------------- every run

  lemma {:induction false} RunKeepsInv(s0: Sys, steps: seq<Step>, s: Sys)
    requires Inv(s0) && Runs(s0, steps, s)
    ensures Inv(s)
    decreases |steps|
  {
    if steps != [] {
      StepKeepsInv(s0, steps[0]);
      RunKeepsInv(Do(s0, steps[0]), steps[1..], s);
    }
  }

  lemma InitHasInv(s: Sys)
    requires Init(s)
    ensures Inv(s)
  {
  }

  /**
   * From any initial record, under every interleaving of processes, crashes, failed saves and
   * power losses: installs never overlap, and started installs never regress in compiled_at,
   * membership epoch or use of the operator credential; an unresolved one is only followed by
   * the same action under its anchors with the same or newer content.
   */
  lemma InstallsAreOrdered(s0: Sys, steps: seq<Step>, s: Sys)
    requires Init(s0) && Runs(s0, steps, s)
    ensures AtMostOne(s.running)
    ensures Monotone(s.log)
    ensures Recovering(s.log)
  {
    InitHasInv(s0);
    RunKeepsInv(s0, steps, s);
  }

  /**
   * While an install executes, even one whose Go parent was killed, no process can take the
   * lease, none can start an install, and nothing but a power loss changes the record.
   */
  lemma RunningInstallExcludesOthers(s0: Sys, steps: seq<Step>, s: Sys, step: Step)
    requires Init(s0) && Runs(s0, steps, s) && s.running != {}
    requires Enabled(s, step) && !step.PowerLoss?
    ensures !step.Begin? && !step.StartInstall?
    ensures Do(s, step).visible == s.visible && Do(s, step).survivors == s.survivors
    ensures Do(s, step).running < s.running || Do(s, step).running == s.running
  {
    InitHasInv(s0);
    RunKeepsInv(s0, steps, s);
    var i :| i in s.running;
    assert Guardian(i) in s.lease;
  }

  // ---------------------------------------------------------------- last-good

  /** Only a published commit moves the last-good fields, to the content and policy last started. */
  lemma LastGoodMovesAtCommit(s: Sys, step: Step)
    requires Inv(s) && Enabled(s, step) && !step.PowerLoss?
    ensures Do(s, step).visible.lastGood == s.visible.lastGood ||
            (step.Commit? && step.outcome != Lost)
    ensures step.Commit? && step.outcome != Lost ==>
              && |s.log| > 0 && s.log[|s.log| - 1].Started?
              && var e := s.log[|s.log| - 1].start; var st := Do(s, step).visible;
                 && st.lastGood.compiledAt == e.compiledAt && st.lastGood.checksum == e.checksum
                 && st.lastGood.action == Some(e.action)
                 && st.lastGood.policy == (if e.action == Uninstall then None else e.policy)
                 && st.pending == None
  {
    match step
    case SaveFailure(pid, _) => assert PhaseInv(s, s.procs[pid]);
    case Commit(pid, _) => assert PhaseInv(s, s.procs[pid]);
    case Persist(pid, _, _) => assert PhaseInv(s, s.procs[pid]);
    case _ =>
  }

  /** Every record a power loss can leave has the visible last-good fields. */
  predicate SurvivorsAgree(s: Sys) {
    forall st :: st in s.survivors ==> st.lastGood == s.visible.lastGood
  }

  lemma StepKeepsAgreement(s: Sys, step: Step)
    requires Inv(s) && SurvivorsAgree(s) && Enabled(s, step)
    requires !(step.Commit? && step.outcome == Published)
    ensures SurvivorsAgree(Do(s, step))
  {
    if !step.PowerLoss? { LastGoodMovesAtCommit(s, step); }
  }

  lemma {:induction false} SurvivorsAgreeUnlessUnsynced(s0: Sys, steps: seq<Step>, s: Sys)
    requires Inv(s0) && SurvivorsAgree(s0) && Runs(s0, steps, s)
    requires forall i :: 0 <= i < |s.log| ==> s.log[i] != Committed(false)
    ensures SurvivorsAgree(s)
    decreases |steps|
  {
    if steps != [] {
      var s1 := Do(s0, steps[0]);
      StepKeepsInv(s0, steps[0]);
      LogGrows(s1, steps[1..], s);
      assert forall i :: 0 <= i < |s1.log| ==> s1.log[i] == s.log[i];
      assert steps[0].Commit? && steps[0].outcome != Lost ==> s1.log[|s0.log|] != Committed(false);
      StepKeepsAgreement(s0, steps[0]);
      SurvivorsAgreeUnlessUnsynced(s1, steps[1..], s);
    }
  }

  lemma {:induction false} LogGrows(s0: Sys, steps: seq<Step>, s: Sys)
    requires Runs(s0, steps, s)
    ensures |s0.log| <= |s.log| && s0.log == s.log[..|s0.log|]
    decreases |steps|
  {
    if steps != [] {
      LogGrows(Do(s0, steps[0]), steps[1..], s);
    }
  }

  /** If every commit was synced or lost, not even a power loss moves the last-good fields. */
  lemma PowerLossKeepsLastGood(s0: Sys, steps: seq<Step>, s: Sys, found: State)
    requires Init(s0) && Runs(s0, steps, s) && found in s.survivors
    requires forall i :: 0 <= i < |s.log| ==> s.log[i] != Committed(false)
    ensures Do(s, PowerLoss(found)).visible.lastGood == s.visible.lastGood
  {
    InitHasInv(s0);
    SurvivorsAgreeUnlessUnsynced(s0, steps, s);
  }

  // ---------------------------------------------------------------- where the promises stop

  const SAMPLE_CONFIG := Config("node", NoKey, NoKey, "", "", "", Install)

  const FRESH_RECORD :=
    State("", LastGood(Unreadable(""), "", None, None), Never, 0, false, None, UpdateCustody("", None, ""))

  function ZeroDigest(): Sha256Hex {
    seq(64, _ => '0')
  }

  function SampleBundle(at: Stamp): Candidate {
    Candidate("node", at, "1f0c", ZeroDigest(), true, None, None)
  }

  const SOME_TIME := Exact("2026-01-02T03:04:05Z", 1767323045)

  function Boot(): Sys {
    Sys(FRESH_RECORD, {FRESH_RECORD}, {}, map[], {}, [])
  }

  lemma {:induction false} RunConcat(s0: Sys, before: seq<Step>, s: Sys, after: seq<Step>, s': Sys)
    requires Runs(s0, before, s) && Runs(s, after, s')
    ensures Runs(s0, before + after, s')
    decreases |before|
  {
    if before == [] {
      assert before + after == after;
    } else {
      RunConcat(Do(s0, before[0]), before[1..], s, after, s');
      assert (before + after)[1..] == before[1..] + after;
    }
  }

  lemma RunOne(s: Sys, step: Step)
    requires Enabled(s, step)
    ensures Runs(s, [step], Do(s, step))
  {
    assert [step][1..] == [];
  }

  /** From any idle system whose record admits it, a run of `cfg` on `c` reaches its install. */
  lemma RunReachesInstall(s: Sys, pid: nat, cfg: Config, c: Candidate, epoch: int) returns (steps: seq<Step>, s': Sys)
    requires s.lease == {} && pid !in s.procs && !cfg.signingKey.BadKey?
    requires LoadGates(cfg, s.visible) && CandidateGates(cfg, s.visible, c) == Some(epoch)
    ensures Runs(s, steps, s') && forall i :: 0 <= i < |steps| ==> !steps[i].PowerLoss?
    ensures var intent := IntentState(cfg, s.visible, c, epoch, SOME_TIME);
            && s'.visible == intent && s'.survivors == {intent}
            && s'.log == s.log + [Started(StartOf(cfg, c, epoch))]
            && s'.lease == {Parent(pid), Guardian(|s.log|)}
            && s'.running == s.running + {|s.log|}
            && s'.procs == s.procs[pid := Proc(cfg, Installing(intent, c, epoch, |s.log|))]
  {
    var loaded := Do(Do(s, Begin(pid, cfg)), Load(pid));
    assert loaded == s.(lease := {Parent(pid)}, procs := s.procs[pid := Proc(cfg, Fetching(s.visible))]);
    RunOne(Do(s, Begin(pid, cfg)), Load(pid));
    RunOne(s, Begin(pid, cfg));
    RunConcat(s, [Begin(pid, cfg)], Do(s, Begin(pid, cfg)), [Load(pid)], loaded);
    var after, started := FetchReachesInstall(loaded, pid, c, epoch);
    RunConcat(s, [Begin(pid, cfg)] + [Load(pid)], loaded, after, started);
    steps, s' := [Begin(pid, cfg)] + [Load(pid)] + after, started;
  }

  lemma FetchReachesInstall(s: Sys, pid: nat, c: Candidate, epoch: int) returns (steps: seq<Step>, s': Sys)
    requires pid in s.procs && s.procs[pid].phase == Fetching(s.visible) && !s.procs[pid].cfg.signingKey.BadKey?
    requires CandidateGates(s.procs[pid].cfg, s.visible, c) == Some(epoch)
    ensures Runs(s, steps, s') && forall i :: 0 <= i < |steps| ==> !steps[i].PowerLoss?
    ensures var cfg := s.procs[pid].cfg;
            var intent := IntentState(cfg, s.visible, c, epoch, SOME_TIME);
            s' == s.(visible := intent, survivors := {intent}, lease := s.lease + {Guardian(|s.log|)},
                     procs := s.procs[pid := Proc(cfg, Installing(intent, c, epoch, |s.log|))],
                     running := s.running + {|s.log|}, log := s.log + [Started(StartOf(cfg, c, epoch))])
  {
    var s1 := Do(s, Verify(pid, c));
    var s2 := Do(s1, Persist(pid, SOME_TIME, Durable));
    s' := Do(s2, StartInstall(pid));
    RunOne(s, Verify(pid, c));
    RunOne(s1, Persist(pid, SOME_TIME, Durable));
    RunOne(s2, StartInstall(pid));
    RunConcat(s, [Verify(pid, c)], s1, [Persist(pid, SOME_TIME, Durable)], s2);
    steps := [Verify(pid, c)] + [Persist(pid, SOME_TIME, Durable)];
    RunConcat(s, steps, s2, [StartInstall(pid)], s');
    steps := steps + [StartInstall(pid)];
  }

  /** A started install may succeed, and its commit be published without being synced. */
  lemma InstallEndsUnsynced(s: Sys, pid: nat) returns (steps: seq<Step>, s': Sys)
    requires pid in s.procs && s.procs[pid].phase.Installing?
    requires s.lease == {Parent(pid), Guardian(s.procs[pid].phase.index)} && s.procs[pid].phase.index in s.running
    ensures Runs(s, steps, s')
    ensures var p := s.procs[pid];
            var done := RecordSuccess(p.cfg, p.phase.intent, p.phase.c, p.phase.epoch);
            s' == s.(visible := done, survivors := s.survivors + {done}, lease := {}, procs := s.procs - {pid},
                     running := s.running - {p.phase.index}, log := s.log + [Committed(false)])
  {
    var i := s.procs[pid].phase.index;
    var s1 := Do(s, InstallEnds(i));
    var s2 := Do(s1, Reap(pid, true));
    var s3 := Do(s2, Commit(pid, Published));
    s' := Do(s3, Release(pid));
    RunOne(s, InstallEnds(i));
    RunOne(s1, Reap(pid, true));
    RunOne(s2, Commit(pid, Published));
    RunOne(s3, Release(pid));
    RunConcat(s, [InstallEnds(i)], s1, [Reap(pid, true)], s2);
    RunConcat(s2, [Commit(pid, Published)], s3, [Release(pid)], s');
    steps := [InstallEnds(i)] + [Reap(pid, true)] + ([Commit(pid, Published)] + [Release(pid)]);
    RunConcat(s, [InstallEnds(i)] + [Reap(pid, true)], s2, [Commit(pid, Published)] + [Release(pid)], s');
  }

  /**
   * The intent binds until its commit is published, not until it is durable: a run in which a
   * commit's directory sync fails and the opposite action starts while no commit is durable.
   */
  lemma UnsyncedCommitAdmitsOtherAction() returns (steps: seq<Step>, s: Sys)
    ensures Runs(Boot(), steps, s)
    ensures |s.log| == 3 && s.log[0].Started? && s.log[1] == Committed(false) && s.log[2].Started?
    ensures s.log[0].start.action == Install && s.log[2].start.action == Uninstall
  {
    var cfg, c := SAMPLE_CONFIG, SampleBundle(SOME_TIME);
    assert cfg.nodeId[0] == 'n';
    var first, s1 := RunReachesInstall(Boot(), 1, cfg, c, 0);
    var second, s2 := InstallEndsUnsynced(s1, 1);
    var third, s3 := RunReachesInstall(s2, 2, cfg.(action := Uninstall), c, 0);
    RunConcat(Boot(), first, s1, second, s2);
    RunConcat(Boot(), first + second, s2, third, s3);
    steps, s := first + second + third, s3;
  }

  /** A padded compiled_at passes every gate, and a crash after its install leaves a stuck node. */
  lemma PaddedInstallThenCrashIsStuck() returns (steps: seq<Step>, s: Sys)
    ensures Runs(Boot(), steps, s)
    ensures |s.log| == 1 && Stuck(s)
  {
    assert SAMPLE_CONFIG.nodeId[0] == 'n';
    var before, installing :=
      RunReachesInstall(Boot(), 1, SAMPLE_CONFIG, SampleBundle(Padded(" 2026-01-02T03:04:05Z", 1767323045)), 0);
    RunOne(installing, PowerLoss(installing.visible));
    s := Do(installing, PowerLoss(installing.visible));
    RunConcat(Boot(), before, installing, [PowerLoss(installing.visible)], s);
    steps := before + [PowerLoss(installing.visible)];
  }

  /** An unresolved start made without a signing key admits one with any signing key. */
  lemma AnchorsMayBeAdded(cfg: Config, st: State, c: Candidate, key: Sha256Hex)
    requires LoadGates(cfg, st) && cfg.signingKey.NoKey?
    ensures LoadGates(cfg.(signingKey := Key(key)), st)
    ensures CandidateGates(cfg.(signingKey := Key(key)), st, c) == CandidateGates(cfg, st, c)
  {
  }

  /**
   * An interrupted apply is accepted again from its own record, under the same configuration,
   * exactly when the manifest's compiled_at carries no padding and its epoch is not negative.
   */
  lemma ExactRetryConverges(cfg: Config, prev: State, c: Candidate, epoch: int, now: Stamp)
    requires LoadGates(cfg, prev) && CandidateGates(cfg, prev, c) == Some(epoch)
    requires now.Exact? && !cfg.signingKey.BadKey?
    ensures var st := IntentState(cfg, prev, c, epoch, now);
            (LoadGates(cfg, st) && CandidateGates(cfg, st, c) == Some(epoch)) <==>
            (c.compiledAt.Exact? && epoch >= 0)
  {
  }

  /** No process has passed the load gates and every record on disk is wedged. */
  ghost predicate Stuck(s: Sys) {
    && s.visible in s.survivors
    && (forall st :: st in s.survivors ==> Wedged(st))
    && (forall p :: p in s.procs ==> s.procs[p].phase.Loading? || s.procs[p].phase.Finishing?)
  }

  /** An intent with a padded compiled_at, once left by a crash, blocks every later install. */
  lemma {:induction false} WedgedIntentBlocksForever(s0: Sys, steps: seq<Step>, s: Sys)
    requires Stuck(s0) && Runs(s0, steps, s)
    ensures Stuck(s) && s0.log <= s.log && forall k :: |s0.log| <= k < |s.log| ==> !s.log[k].Started?
    decreases |steps|
  {
    if steps != [] {
      var s1 := Do(s0, steps[0]);
      assert Stuck(s1) && (s1.log == s0.log || s1.log == s0.log + [Rebound]);
      WedgedIntentBlocksForever(s1, steps[1..], s);
    }
  }
}