/** What may start next: exactly when an unresolved install still binds the node. */
module ApplyBinding {
  import opened Common
  import opened Text
  import opened ApplyGates
  import opened ApplyProtocol
  import opened ApplySafety

  /** Install `b` can be the next to start, with no power loss before it. */
  ghost predicate StartsNext(s: Sys, b: Start) {
    exists steps, s' :: Runs(s, steps, s') && NoPowerLoss(steps) && s'.log == s.log + [Started(b)]
  }

  predicate NoPowerLoss(steps: seq<Step>) {
    forall i :: 0 <= i < |steps| ==> !steps[i].PowerLoss?
  }

  // ---------------------------------------------------------------- a bound record stays bound

  /** Whatever a process may save or start from now on is bound to `e`. */
  ghost predicate Held(s: Sys, e: Start) {
    && BoundTo(s.visible, e)
    && forall p :: p in s.procs ==> HeldBy(s.procs[p], e)
  }

  predicate HeldBy(p: Proc, e: Start) {
    match p.phase
    case Failing(base) => BoundTo(base, e)
    case Swapping(prev) => BoundTo(prev, e)
    case Ready(_, c, epoch) => MayFollowUnresolved(e, StartOf(p.cfg, c, epoch))
    case _ => true
  }

  ghost predicate PhasesInv(s: Sys) {
    forall p :: p in s.procs ==> PhaseInv(s, s.procs[p])
  }

  lemma IntentStaysBound(cfg: Config, prev: State, c: Candidate, epoch: int, now: Stamp, e: Start)
    requires BoundTo(prev, e) && LoadGates(cfg, prev) && CandidateGates(cfg, prev, c) == Some(epoch)
    ensures BoundTo(IntentState(cfg, prev, c, epoch, now), e)
    ensures MayFollowUnresolved(e, StartOf(cfg, c, epoch))
  {
    GatesRespectIntent(prev, e, cfg, c, epoch);
  }

  lemma PersistKeepsHeld(s: Sys, pid: nat, now: Stamp, o: Outcome, e: Start)
    requires PhasesInv(s) && Held(s, e) && Enabled(s, Persist(pid, now, o))
    ensures Held(Do(s, Persist(pid, now, o)), e)
  {
    var p := s.procs[pid];
    assert PhaseInv(s, p);
    IntentStaysBound(p.cfg, p.phase.prev, p.phase.c, p.phase.epoch, now, e);
  }

  lemma StepKeepsHeld(s: Sys, step: Step, e: Start)
    requires PhasesInv(s) && Held(s, e) && Enabled(s, step) && !step.PowerLoss?
    requires Do(s, step).log == s.log
    ensures Held(Do(s, step), e)
  {
    match step
    case Persist(pid, now, o) => PersistKeepsHeld(s, pid, now, o, e);
    case GiveUp(_) => EndKeepsHeld(s, step, e);
    case Reap(_, _) => EndKeepsHeld(s, step, e);
    case SelfUpdateSave(_, _, _, _) => SaveKeepsHeld(s, step, e);
    case SaveFailure(_, _) => SaveKeepsHeld(s, step, e);
    case _ =>
  }

  lemma EndKeepsHeld(s: Sys, step: Step, e: Start)
    requires step.GiveUp? || step.Reap?
    requires PhasesInv(s) && Held(s, e) && Enabled(s, step)
    ensures Held(Do(s, step), e)
  {
    assert PhaseInv(s, s.procs[step.pid]) && HeldBy(s.procs[step.pid], e);
  }

  lemma SaveKeepsHeld(s: Sys, step: Step, e: Start)
    requires step.SelfUpdateSave? || step.SaveFailure?
    requires PhasesInv(s) && Held(s, e) && Enabled(s, step)
    ensures Held(Do(s, step), e)
  {
    assert PhaseInv(s, s.procs[step.pid]) && HeldBy(s.procs[step.pid], e);
  }

  lemma {:induction false} HeldBindsNextStart(s: Sys, steps: seq<Step>, s': Sys, e: Start, b: Start)
    requires Inv(s) && Held(s, e) && Runs(s, steps, s') && NoPowerLoss(steps)
    requires s'.log == s.log + [Started(b)]
    ensures MayFollowUnresolved(e, b)
    decreases |steps|
  {
    assert steps != [];
    var step := steps[0];
    var s1 := Do(s, step);
    LogGrows(s1, steps[1..], s');
    if s1.log == s.log {
      StepKeepsInv(s, step);
      StepKeepsHeld(s, step, e);
      HeldBindsNextStart(s1, steps[1..], s', e, b);
    } else {
      assert s1.log[|s.log|] == s'.log[|s.log|];
      assert HeldBy(s.procs[step.pid], e);
    }
  }

  lemma IdleIsHeld(s: Sys, e: Start)
    requires Inv(s) && s.lease == {} && BoundTo(s.visible, e)
    ensures Held(s, e)
  {
    assert forall p :: p in s.procs ==> Parent(p) in s.lease;
  }

  // ---------------------------------------------------------------- an intent can be taken up again

  /** The fields validatePendingApply reads, apart from the configured keys. */
  predicate Readable(p: PendingApply) {
    && p.startedAt.Raw().Some? && (p.action == Install || p.action == Uninstall)
    && ValidSha256Hex(p.bundleSha256)
    && (p.signingKey == "" || ValidSha256Hex(p.signingKey))
    && (if p.membershipVerified then ValidSha256Hex(p.operator.fingerprint) else p.operator == NO_OPERATOR)
  }

  predicate NotBefore(log: seq<Event>, at: int) {
    forall i :: 0 <= i < |log| && log[i].Started? && log[i].start.compiledAt.Trimmed().Some? ==>
      log[i].start.compiledAt.Trimmed().value <= at
  }

  /** An intent that is not wedged is one the agent wrote after the logged starts. */
  predicate Formed(st: State, log: seq<Event>) {
    st.pending.Some? && !Wedged(st) ==>
      var p := st.pending.value;
      && Readable(p)
      && CheckRollback(EffectiveRollbackState(st), p.compiledAt)
      && NotBefore(log, p.compiledAt.at)
  }

  predicate FormedBy(p: Proc, log: seq<Event>) {
    match p.phase
    case Ready(intent, c, epoch) => Formed(intent, log + [Started(StartOf(p.cfg, c, epoch))])
    case Failing(base) => LastStart(log).Some? ==> Formed(base, log)
    case Swapping(prev) => LastStart(log).Some? ==> Formed(prev, log)
    case _ => true
  }

  /** Once an install has started, every record that may be found is formed. */
  ghost predicate FormInv(s: Sys) {
    && (LastStart(s.log).Some? ==> forall st :: st in s.survivors ==> Formed(st, s.log))
    && (forall p :: p in s.procs ==> FormedBy(s.procs[p], s.log))
  }

  lemma IntentIsFormed(cfg: Config, prev: State, c: Candidate, epoch: int, now: Stamp, log: seq<Event>)
    requires LoadGates(cfg, prev) && CandidateGates(cfg, prev, c) == Some(epoch)
    requires now.Exact? && !cfg.signingKey.BadKey? && Above(log, StartOf(cfg, c, epoch))
    ensures Formed(IntentState(cfg, prev, c, epoch, now), log + [Started(StartOf(cfg, c, epoch))])
    ensures Formed(IntentState(cfg, prev, c, epoch, now), log)
  {
    var intent := IntentState(cfg, prev, c, epoch, now);
    if intent.pending.Some? && !Wedged(intent) {
      IntentIsReadable(cfg, prev, c, epoch, now);
    }
  }

  lemma IntentIsReadable(cfg: Config, prev: State, c: Candidate, epoch: int, now: Stamp)
    requires LoadGates(cfg, prev) && CandidateGates(cfg, prev, c) == Some(epoch)
    requires now.Exact? && !cfg.signingKey.BadKey? && !Wedged(IntentState(cfg, prev, c, epoch, now))
    ensures var st := IntentState(cfg, prev, c, epoch, now);
            && st.pending.Some? && Readable(st.pending.value) && st.pending.value.compiledAt == c.compiledAt
            && CheckRollback(EffectiveRollbackState(st), st.pending.value.compiledAt)
  {
  }

  lemma MarkKeepsFormed(st: State, log: seq<Event>, mark: Event)
    requires Formed(st, log) && !mark.Started?
    ensures Formed(st, log + [mark])
  {
    assert forall i :: 0 <= i < |log| ==> (log + [mark])[i] == log[i];
  }

  lemma PersistKeepsForm(s: Sys, pid: nat, now: Stamp, o: Outcome)
    requires Inv(s) && FormInv(s) && Enabled(s, Persist(pid, now, o))
    ensures FormInv(Do(s, Persist(pid, now, o)))
  {
    var p := s.procs[pid];
    assert PhaseInv(s, p);
    var Verified(prev, c, epoch) := p.phase;
    assert Safe(prev, s.log);
    GatesRespectLog(prev, s.log, p.cfg, c, epoch);
    IntentIsFormed(p.cfg, prev, c, epoch, now, s.log);
    assert LastStart(s.log).Some? ==> Formed(prev, s.log);
  }

  lemma StartKeepsForm(s: Sys, pid: nat)
    requires Inv(s) && FormInv(s) && Enabled(s, StartInstall(pid))
    ensures FormInv(Do(s, StartInstall(pid)))
  {
    var p := s.procs[pid];
    assert PhaseInv(s, p) && FormedBy(p, s.log);
    assert forall q :: q in s.procs ==> q == pid;
  }

  lemma CommitKeepsForm(s: Sys, pid: nat, o: Outcome)
    requires Inv(s) && FormInv(s) && Enabled(s, Commit(pid, o))
    ensures FormInv(Do(s, Commit(pid, o)))
  {
    var p := s.procs[pid];
    assert forall q :: q in s.procs ==> q == pid;
    if o != Lost {
      var mark := Committed(o == Durable);
      LastStartOfMark(s.log, mark);
      var done := RecordSuccess(p.cfg, p.phase.intent, p.phase.c, p.phase.epoch);
      assert Formed(done, s.log);
      forall st | (LastStart(s.log).Some? && st in s.survivors) || st == done ensures Formed(st, s.log + [mark]) {
        MarkKeepsFormed(st, s.log, mark);
      }
    }
  }

  lemma PowerLossKeepsForm(s: Sys, found: State)
    requires FormInv(s) && Enabled(s, PowerLoss(found))
    ensures FormInv(Do(s, PowerLoss(found)))
  {
    LastStartOfMark(s.log, Rebound);
    if LastStart(s.log).Some? { MarkKeepsFormed(found, s.log, Rebound); }
  }

  /** Rebuilding a record from a formed one, without touching its intent, leaves it formed. */
  lemma SameIntentIsFormed(st: State, st': State, log: seq<Event>)
    requires Formed(st, log) && st'.pending == st.pending && st'.lastGood == st.lastGood
    ensures Formed(st', log)
  {
  }

  lemma SelfUpdateSaveKeepsForm(s: Sys, pid: nat, node: string, u: UpdateCustody, o: Outcome)
    requires Inv(s) && FormInv(s) && Enabled(s, SelfUpdateSave(pid, node, u, o))
    ensures FormInv(Do(s, SelfUpdateSave(pid, node, u, o)))
  {
    assert PhaseInv(s, s.procs[pid]);
    if LastStart(s.log).Some? {
      SameIntentIsFormed(s.visible, s.visible.(nodeId := node, update := u), s.log);
    }
  }

  lemma SaveFailureKeepsForm(s: Sys, pid: nat, o: Outcome)
    requires FormInv(s) && Enabled(s, SaveFailure(pid, o))
    ensures FormInv(Do(s, SaveFailure(pid, o)))
  {
    var p := s.procs[pid];
    assert FormedBy(p, s.log);
    if LastStart(s.log).Some? {
      SameIntentIsFormed(p.phase.base, RecordFailure(p.cfg, p.phase.base), s.log);
    }
  }

  lemma EndKeepsForm(s: Sys, step: Step)
    requires step.GiveUp? || step.Reap?
    requires Inv(s) && FormInv(s) && Enabled(s, step)
    ensures FormInv(Do(s, step))
  {
    var p := s.procs[step.pid];
    assert PhaseInv(s, p) && FormedBy(p, s.log);
    assert LastStart(s.log).Some? ==> Formed(s.visible, s.log);
  }

  lemma StepKeepsForm(s: Sys, step: Step)
    requires Inv(s) && FormInv(s) && Enabled(s, step)
    ensures FormInv(Do(s, step))
  {
    match step
    case Persist(pid, now, o) => PersistKeepsForm(s, pid, now, o);
    case StartInstall(pid) => StartKeepsForm(s, pid);
    case Commit(pid, o) => CommitKeepsForm(s, pid, o);
    case PowerLoss(found) => PowerLossKeepsForm(s, found);
    case SelfUpdateSave(pid, node, u, o) => SelfUpdateSaveKeepsForm(s, pid, node, u, o);
    case SaveFailure(pid, o) => SaveFailureKeepsForm(s, pid, o);
    case GiveUp(_) => EndKeepsForm(s, step);
    case Reap(_, _) => EndKeepsForm(s, step);
    case _ =>
  }

  lemma {:induction false} RunKeepsForm(s0: Sys, steps: seq<Step>, s: Sys)
    requires Inv(s0) && FormInv(s0) && Runs(s0, steps, s)
    ensures Inv(s) && FormInv(s)
    decreases |steps|
  {
    if steps != [] {
      StepKeepsInv(s0, steps[0]);
      StepKeepsForm(s0, steps[0]);
      RunKeepsForm(Do(s0, steps[0]), steps[1..], s);
    }
  }

  // ---------------------------------------------------------------- what an unbound record admits

  /** The agent checks its node id against this one; a blank one matches no configuration. */
  predicate UsableNode(st: State) {
    st.nodeId == "" || !IsBlank(st.nodeId)
  }

  function SomeNode(st: State): string {
    if st.nodeId == "" then "node" else st.nodeId
  }

  function OnesDigest(): Sha256Hex {
    seq(64, _ => '1')
  }

  /** The same instant written without padding; some instant when there is none. */
  function Unpadded(s: Stamp): Stamp {
    match s
    case Exact(_, _) => s
    case Padded(text, at) => Exact(Trim(text), at)
    case Unreadable(_) => SOME_TIME
  }

  /** Any action can follow a record without an intent. */
  lemma FreeRecordAdmits(st: State, action: Action) returns (cfg: Config, c: Candidate, epoch: int)
    requires UsableNode(st) && st.pending.None? && (action == Install || action == Uninstall)
    ensures LoadGates(cfg, st) && CandidateGates(cfg, st, c) == Some(epoch)
    ensures cfg.action == action && !cfg.signingKey.BadKey?
  {
    cfg := Config(SomeNode(st), NoKey, Key(ZeroDigest()), "", "", "", action);
    epoch := st.membershipEpoch;
    c := Candidate(cfg.nodeId, Unpadded(st.lastGood.compiledAt), "1f0c", ZeroDigest(), true, Some(epoch), None);
    assert cfg.nodeId[0] == 'n' || st.nodeId != "";
  }

  /** A credential other than the one `e` was started under. */
  function OtherKey(e: Start): Sha256Hex {
    if EqualFold(ZeroDigest(), e.operator.fingerprint) then OnesDigest() else ZeroDigest()
  }

  lemma OtherKeyDiffers(e: Start)
    ensures !EqualFold(OtherKey(e), e.operator.fingerprint)
  {
    assert Lower(ZeroDigest())[0] == '0' && Lower(OnesDigest())[0] == '1';
  }

  /** The configuration under which a formed intent is taken up again. */
  function RetryConfig(st: State, e: Start): Config
    requires st.pending.Some? && Readable(st.pending.value)
  {
    var p := st.pending.value;
    Config(SomeNode(st),
           if p.signingKey == "" then NoKey else Key(p.signingKey),
           if p.membershipVerified then Key(p.operator.fingerprint)
           else if KeystoneSticky(st) then Key(OtherKey(e)) else NoKey,
           p.operator.alg, p.operator.rpId, p.operator.origin, p.action)
  }

  function RetryBundle(st: State): Candidate
    requires st.pending.Some? && Readable(st.pending.value)
  {
    var p := st.pending.value;
    Candidate("", p.compiledAt, p.manifestChecksum, p.bundleSha256, true, Some(EffectiveMembershipFloor(st)), None)
  }

  lemma RetryIsAdmitted(st: State, e: Start, log: seq<Event>) returns (epoch: int)
    requires UsableNode(st) && st.pending.Some? && !Wedged(st) && Formed(st, log)
    ensures LoadGates(RetryConfig(st, e), st) && CandidateGates(RetryConfig(st, e), st, RetryBundle(st)) == Some(epoch)
  {
    var cfg := RetryConfig(st, e);
    epoch := if cfg.operatorKey.NoKey? then 0 else EffectiveMembershipFloor(st);
    assert cfg.nodeId[0] == 'n' || st.nodeId != "";
  }

  lemma RetryIsUnbound(st: State, e: Start, epoch: int)
    requires st.pending.Some? && Readable(st.pending.value) && !Continues(st.pending.value, e)
    requires e.credentialed ==> StickyKeystone(st)
    requires st.pending.value.compiledAt.Raw().Some?
    requires e.compiledAt.Raw().Some? ==> e.compiledAt.at <= st.pending.value.compiledAt.at
    ensures !MayFollowUnresolved(e, StartOf(RetryConfig(st, e), RetryBundle(st), epoch))
  {
    OtherKeyDiffers(e);
  }

  // ---------------------------------------------------------------- the exact condition

  lemma AdmittedStartsNext(s: Sys, cfg: Config, c: Candidate, epoch: int)
    requires Inv(s) && s.lease == {} && !cfg.signingKey.BadKey?
    requires LoadGates(cfg, s.visible) && CandidateGates(cfg, s.visible, c) == Some(epoch)
    ensures StartsNext(s, StartOf(cfg, c, epoch))
  {
    assert Parent(0) !in s.lease;
    var steps, s' := RunReachesInstall(s, 0, cfg, c, epoch);
  }

  lemma UnboundAdmitsOther(s: Sys, e: Start) returns (b: Start)
    requires Inv(s) && FormInv(s) && s.lease == {} && UsableNode(s.visible)
    requires LastStart(s.log) == Some(e) && !BoundTo(s.visible, e)
    ensures StartsNext(s, b) && !MayFollowUnresolved(e, b)
  {
    if s.visible.pending.None? {
      var cfg, c, epoch := FreeRecordAdmits(s.visible, if e.action == Install then Uninstall else Install);
      b := StartOf(cfg, c, epoch);
      AdmittedStartsNext(s, cfg, c, epoch);
    } else {
      var l := LastStartIndex(s.log);
      assert Formed(s.visible, s.log) && Covers(s.visible, s.log[l].start);
      var epoch := RetryIsAdmitted(s.visible, e, s.log);
      RetryIsUnbound(s.visible, e, epoch);
      b := StartOf(RetryConfig(s.visible, e), RetryBundle(s.visible), epoch);
      AdmittedStartsNext(s, RetryConfig(s.visible, e), RetryBundle(s.visible), epoch);
    }
  }

  /**
   * In every run: what starts next on an idle node may follow the last start, whatever it is,
   * exactly when the record the node reads still carries that start's intent, or is wedged.
   */
  lemma NextStartIsBoundIff(s0: Sys, steps: seq<Step>, s: Sys, e: Start)
    requires Init(s0) && Runs(s0, steps, s) && s.lease == {} && UsableNode(s.visible)
    requires LastStart(s.log) == Some(e)
    ensures (forall b :: StartsNext(s, b) ==> MayFollowUnresolved(e, b)) <==> BoundTo(s.visible, e)
  {
    InitHasInv(s0);
    RunKeepsForm(s0, steps, s);
    if BoundTo(s.visible, e) {
      IdleIsHeld(s, e);
      forall b | StartsNext(s, b) ensures MayFollowUnresolved(e, b) {
        var after, s' :| Runs(s, after, s') && NoPowerLoss(after) && s'.log == s.log + [Started(b)];
        HeldBindsNextStart(s, after, s', e, b);
      }
    } else {
      var b := UnboundAdmitsOther(s, e);
    }
  }

  /** The start an intent was written for. */
  function Intended(p: PendingApply): Start {
    Start(p.action, p.compiledAt, p.manifestChecksum, p.bundleSha256, p.membershipEpoch, p.membershipVerified,
          p.signingKey, p.operator, None)
  }

  lemma BoundHasAction(s: Sys, e: Start, b: Start)
    requires Inv(s) && s.lease == {} && BoundTo(s.visible, e) && StartsNext(s, b)
    ensures b.action == e.action
  {
    IdleIsHeld(s, e);
    var after, s' :| Runs(s, after, s') && NoPowerLoss(after) && s'.log == s.log + [Started(b)];
    HeldBindsNextStart(s, after, s', e, b);
  }

  lemma OtherActionStarts(s: Sys, e: Start) returns (b: Start)
    requires Inv(s) && FormInv(s) && s.lease == {} && UsableNode(s.visible) && LastStart(s.log) == Some(e)
    requires s.visible.pending.None? || (!Wedged(s.visible) && s.visible.pending.value.action != e.action)
    ensures StartsNext(s, b) && b.action != e.action
  {
    if s.visible.pending.None? {
      var cfg, c, epoch := FreeRecordAdmits(s.visible, if e.action == Install then Uninstall else Install);
      b := StartOf(cfg, c, epoch);
      AdmittedStartsNext(s, cfg, c, epoch);
    } else {
      assert Formed(s.visible, s.log);
      var epoch := RetryIsAdmitted(s.visible, e, s.log);
      b := StartOf(RetryConfig(s.visible, e), RetryBundle(s.visible), epoch);
      AdmittedStartsNext(s, RetryConfig(s.visible, e), RetryBundle(s.visible), epoch);
    }
  }

  /**
   * In every run: only the action last started can start next exactly when the record the node
   * reads holds an intent of that action, or one nothing can be made of.
   */
  lemma SameActionNextIff(s0: Sys, steps: seq<Step>, s: Sys, e: Start)
    requires Init(s0) && Runs(s0, steps, s) && s.lease == {} && UsableNode(s.visible)
    requires LastStart(s.log) == Some(e)
    ensures (forall b :: StartsNext(s, b) ==> b.action == e.action) <==>
            s.visible.pending.Some? && (Wedged(s.visible) || s.visible.pending.value.action == e.action)
  {
    InitHasInv(s0);
    RunKeepsForm(s0, steps, s);
    if s.visible.pending.Some? && (Wedged(s.visible) || s.visible.pending.value.action == e.action) {
      var bound := if Wedged(s.visible) then e else Intended(s.visible.pending.value);
      forall b | StartsNext(s, b) ensures b.action == e.action { BoundHasAction(s, bound, b); }
    } else {
      var b := OtherActionStarts(s, e);
    }
  }
}
