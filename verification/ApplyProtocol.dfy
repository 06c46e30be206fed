/**
 * The crash-durable apply as a transition system: any number of agent processes, one state
 * lease inherited by the install guardian, one state file, and a log of install starts.
 */
module ApplyProtocol {
  import opened Common
  import opened Text
  import opened ApplyGates

  // ---------------------------------------------------------------- the system

  /** An open descriptor on the lock file: a Go process, or the bash guardian of one install. */
  datatype Holder = Parent(pid: nat) | Guardian(install: nat)

  /** Where a process is between taking the lease and giving it back. */
  datatype Phase =
    | Loading
    | Fetching(prev: State)
    | Verified(prev: State, c: Candidate, epoch: int)
    | Swapping(prev: State)
    | Ready(intent: State, c: Candidate, epoch: int)
    | Installing(intent: State, c: Candidate, epoch: int, index: nat)
    | Installed(intent: State, c: Candidate, epoch: int)
    | Failing(base: State)
    | Finishing

  datatype Proc = Proc(cfg: Config, phase: Phase)

  /** One execution of install.sh as it was started. */
  datatype Start = Start(
    action: Action,
    compiledAt: Stamp,
    checksum: string,
    digest: string,
    epoch: int,
    credentialed: bool,
    signingKey: string,
    operator: Operator,
    policy: Option<string>)

  /** `Rebound`: a power loss took an unsynced commit back and left the intent of its start. */
  datatype Event = Started(start: Start) | Committed(durable: bool) | Rebound

  /**
   * `visible` is what LoadState reads; `survivors` are the records a power loss may leave,
   * because a published rename is not durable until its directory is synced. `running` holds
   * the log indices of the installs executing now.
   */
  datatype Sys = Sys(
    visible: State,
    survivors: set<State>,
    lease: set<Holder>,
    procs: map<nat, Proc>,
    running: set<nat>,
    log: seq<Event>)

  /** SaveState: failed before the rename, renamed but the sync failed, or durable. */
  datatype Outcome = Lost | Published | Durable

  datatype Step =
    | Begin(pid: nat, cfg: Config)
    | Load(pid: nat)
    | Verify(pid: nat, c: Candidate)
    | GiveUp(pid: nat)
    | SelfUpdateSave(pid: nat, node: string, update: UpdateCustody, outcome: Outcome)
    | Persist(pid: nat, now: Stamp, outcome: Outcome)
    | StartInstall(pid: nat)
    | InstallEnds(index: nat)
    | Reap(pid: nat, ok: bool)
    | Commit(pid: nat, outcome: Outcome)
    | SaveFailure(pid: nat, outcome: Outcome)
    | Release(pid: nat)
    | Kill(pid: nat)
    | PowerLoss(found: State)

  predicate Init(s: Sys) {
    s.survivors == {s.visible} && s.lease == {} && s.procs == map[] && s.running == {} && s.log == []
  }

  function Save(s: Sys, st: State, o: Outcome): Sys {
    match o
    case Lost => s
    case Published => s.(visible := st, survivors := s.survivors + {st})
    case Durable => s.(visible := st, survivors := {st})
  }

  function SetPhase(s: Sys, pid: nat, ph: Phase): Sys
    requires pid in s.procs
  {
    s.(procs := s.procs[pid := s.procs[pid].(phase := ph)])
  }

  function StartOf(cfg: Config, c: Candidate, epoch: int): Start {
    Start(cfg.action, c.compiledAt, c.checksum, c.digest, epoch, !cfg.operatorKey.NoKey?,
          Fingerprint(cfg.signingKey), ConfiguredOperator(cfg), c.policy)
  }

  /** The newest start in the log. */
  function LastStart(log: seq<Event>): Option<Start> {
    if log == [] then None
    else if log[|log| - 1].Started? then Some(log[|log| - 1].start)
    else LastStart(log[..|log| - 1])
  }

  /** The recorded intent is the logged start, or a legitimate successor that has not started. */
  predicate Continues(p: PendingApply, e: Start) {
    && p.action == e.action
    && (e.signingKey != "" ==> EqualFold(p.signingKey, e.signingKey))
    && (e.credentialed ==>
          && p.membershipVerified
          && EqualFold(p.operator.fingerprint, e.operator.fingerprint)
          && p.operator.(fingerprint := "") == e.operator.(fingerprint := ""))
    && e.compiledAt.Raw().Some? && p.compiledAt.Raw().Some?
    && e.compiledAt.Raw().value <= p.compiledAt.Raw().value
    && (e.compiledAt.Raw() == p.compiledAt.Raw() ==>
          EqualFold(p.bundleSha256, e.digest) && p.manifestChecksum == e.checksum)
  }

  /** No configuration passes LoadGates on a record whose intent cannot be read back. */
  predicate Wedged(st: State) {
    st.pending.Some? && (st.pending.value.compiledAt.Raw().None? || st.pending.value.membershipEpoch < 0)
  }

  /** The record admits nothing, or only what may follow the start `e`. */
  predicate BoundTo(st: State, e: Start) {
    Wedged(st) || (st.pending.Some? && Continues(st.pending.value, e))
  }

  /** What the log gains when a power loss leaves the record `found`. */
  function AfterPowerLoss(log: seq<Event>, found: State): seq<Event> {
    if |log| > 0 && log[|log| - 1] == Committed(false) && LastStart(log).Some? && BoundTo(found, LastStart(log).value)
    then log + [Rebound] else log
  }

  /** The state a failing run rebuilds its record from, in the phases that may fail. */
  function FailureBase(ph: Phase): Option<State> {
    match ph
    case Fetching(prev) => Some(prev)
    case Verified(prev, _, _) => Some(prev)
    case Swapping(prev) => Some(prev)
    case Ready(intent, _, _) => Some(intent)
    case _ => None
  }

  predicate Enabled(s: Sys, step: Step) {
    match step
    case Begin(pid, _) => pid !in s.procs && s.lease == {}
    case Load(pid) => pid in s.procs && s.procs[pid].phase.Loading?
    case Verify(pid, c) =>
      && pid in s.procs && s.procs[pid].phase.Fetching?
      && CandidateGates(s.procs[pid].cfg, s.procs[pid].phase.prev, c).Some?
    case GiveUp(pid) => pid in s.procs && FailureBase(s.procs[pid].phase).Some?
    case SelfUpdateSave(pid, _, _, _) =>
      && pid in s.procs
      && var ph := s.procs[pid].phase; ph.Loading? || ph.Verified? || ph.Swapping? || ph.Finishing?
    case Persist(pid, now, _) =>
      && pid in s.procs && s.procs[pid].phase.Verified? && now.Exact?
      && !s.procs[pid].cfg.signingKey.BadKey?
    case StartInstall(pid) => pid in s.procs && s.procs[pid].phase.Ready?
    case InstallEnds(i) => i in s.running
    case Reap(pid, _) =>
      pid in s.procs && s.procs[pid].phase.Installing? && Guardian(s.procs[pid].phase.index) !in s.lease
    case Commit(pid, _) => pid in s.procs && s.procs[pid].phase.Installed?
    case SaveFailure(pid, _) => pid in s.procs && s.procs[pid].phase.Failing?
    case Release(pid) => pid in s.procs && s.procs[pid].phase.Finishing?
    case Kill(pid) => pid in s.procs
    case PowerLoss(found) => found in s.survivors
  }

  function Do(s: Sys, step: Step): Sys
    requires Enabled(s, step)
  {
    match step
    case Begin(pid, cfg) =>
      s.(lease := {Parent(pid)}, procs := s.procs[pid := Proc(cfg, Loading)])
    case Load(pid) =>
      // A refusal here records nothing: the existing record is left intact.
      SetPhase(s, pid, if LoadGates(s.procs[pid].cfg, s.visible) then Fetching(s.visible) else Finishing)
    case Verify(pid, c) =>
      var p := s.procs[pid];
      SetPhase(s, pid, Verified(p.phase.prev, c, CandidateGates(p.cfg, p.phase.prev, c).value))
    case GiveUp(pid) => SetPhase(s, pid, Failing(FailureBase(s.procs[pid].phase).value))
    case SelfUpdateSave(pid, node, update, o) =>
      // Reload, change only the self-update fields, save. Before the intent this ends the run.
      var s' := Save(s, s.visible.(nodeId := node, update := update), o);
      if s.procs[pid].phase.Verified? then SetPhase(s', pid, Swapping(s.procs[pid].phase.prev)) else s'
    case Persist(pid, now, o) =>
      var p := s.procs[pid];
      var intent := IntentState(p.cfg, p.phase.prev, p.phase.c, p.phase.epoch, now);
      SetPhase(Save(s, intent, o), pid,
               if o == Durable then Ready(intent, p.phase.c, p.phase.epoch) else Failing(p.phase.prev))
    case StartInstall(pid) =>
      // fork: the guardian inherits the lease descriptor before install.sh runs.
      var p := s.procs[pid];
      var i := |s.log|;
      SetPhase(s, pid, Installing(p.phase.intent, p.phase.c, p.phase.epoch, i))
        .(lease := s.lease + {Guardian(i)}, running := s.running + {i},
          log := s.log + [Started(StartOf(p.cfg, p.phase.c, p.phase.epoch))])
    case InstallEnds(i) => s.(lease := s.lease - {Guardian(i)}, running := s.running - {i})
    case Reap(pid, ok) =>
      var ph := s.procs[pid].phase;
      SetPhase(s, pid, if ok then Installed(ph.intent, ph.c, ph.epoch) else Failing(ph.intent))
    case Commit(pid, o) =>
      var p := s.procs[pid];
      var s' := SetPhase(Save(s, RecordSuccess(p.cfg, p.phase.intent, p.phase.c, p.phase.epoch), o), pid, Finishing);
      if o == Lost then s' else s'.(log := s.log + [Committed(o == Durable)])
    case SaveFailure(pid, o) =>
      SetPhase(Save(s, RecordFailure(s.procs[pid].cfg, s.procs[pid].phase.base), o), pid, Finishing)
    case Release(pid) =>
      // An explicit LOCK_UN drops the lease for every descriptor of the open file.
      s.(lease := {}, procs := s.procs - {pid})
    case Kill(pid) => s.(lease := s.lease - {Parent(pid)}, procs := s.procs - {pid})
    case PowerLoss(found) =>
      s.(visible := found, survivors := {found}, lease := {}, procs := map[], running := {},
         log := AfterPowerLoss(s.log, found))
  }

  /** `s` is reached from `s0` by the given steps. */
  ghost predicate Runs(s0: Sys, steps: seq<Step>, s: Sys)
    decreases |steps|
  {
    if steps == [] then s == s0
    else Enabled(s0, steps[0]) && Runs(Do(s0, steps[0]), steps[1..], s)
  }

  // ---------------------------------------------------------------- what every run keeps

  /** `b` does not go behind `a` in time, membership epoch or use of an operator credential. */
  predicate NotBehind(a: Start, b: Start) {
    && a.compiledAt.Trimmed().Some? && b.compiledAt.Trimmed().Some?
    && a.compiledAt.Trimmed().value <= b.compiledAt.Trimmed().value
    && a.epoch <= b.epoch
    && (a.credentialed ==> b.credentialed)
  }

  predicate Monotone(log: seq<Event>) {
    forall i, j :: 0 <= i < j < |log| && log[i].Started? && log[j].Started? ==>
      NotBehind(log[i].start, log[j].start)
  }

  /** A start that may follow `a` while `a` is unresolved. */
  predicate MayFollowUnresolved(a: Start, b: Start) {
    && b.action == a.action
    && (a.signingKey != "" ==> EqualFold(b.signingKey, a.signingKey))
    && (a.credentialed ==>
          && EqualFold(b.operator.fingerprint, a.operator.fingerprint)
          && b.operator.(fingerprint := "") == a.operator.(fingerprint := ""))
    && a.compiledAt.Raw().Some? && b.compiledAt.Raw().Some?
    && a.compiledAt.Raw().value <= b.compiledAt.Raw().value
    && (a.compiledAt.Raw() == b.compiledAt.Raw() ==>
          EqualFold(a.digest, b.digest) && a.checksum == b.checksum)
  }

  /** No commit stands between the two events: each was taken back by a power loss. */
  predicate Unresolved(log: seq<Event>, i: int, j: int)
    requires 0 <= i < j <= |log|
  {
    forall k :: i < k < j ==> !StandsAt(log, k, j)
  }

  /** A commit that nothing takes back before event `j`. */
  predicate StandsAt(log: seq<Event>, k: int, j: int)
    requires 0 <= k < j <= |log|
  {
    log[k].Committed? && !(k + 1 < j && log[k + 1] == Rebound)
  }

  /** A start is followed by what may follow it for as long as no commit of it stands. */
  predicate Recovering(log: seq<Event>) {
    forall i, j :: 0 <= i < j < |log| && log[i].Started? && log[j].Started? && Unresolved(log, i, j) ==>
      MayFollowUnresolved(log[i].start, log[j].start)
  }

  predicate AtMostOne(xs: set<nat>) {
    forall i, j :: i in xs && j in xs ==> i == j
  }

  // ---------------------------------------------------------------- the invariant

  predicate StickyKeystone(st: State) {
    KeystoneSticky(st) || (st.pending.Some? && st.pending.value.membershipVerified)
  }

  predicate Covers(st: State, e: Start) {
    var floor := EffectiveRollbackState(st).lastGood.compiledAt.Trimmed();
    && e.compiledAt.Trimmed().Some?
    && floor.Some? && floor.value >= e.compiledAt.Trimmed().value
    && EffectiveMembershipFloor(st) >= e.epoch
    && (e.credentialed ==> StickyKeystone(st))
  }

  /** The record `st` lets no start go behind the logged ones. */
  predicate Protects(st: State, log: seq<Event>) {
    Wedged(st) || forall i :: 0 <= i < |log| && log[i].Started? ==> Covers(st, log[i].start)
  }

  /** The newest start is unresolved: it, or the loss of its commit, is the newest event. */
  predicate Open(log: seq<Event>) {
    |log| > 0 && !log[|log| - 1].Committed? && LastStart(log).Some?
  }

  /** While the newest start is unresolved, the record carries its intent on. */
  predicate Remembers(st: State, log: seq<Event>) {
    Open(log) ==> BoundTo(st, LastStart(log).value)
  }

  predicate Safe(st: State, log: seq<Event>) {
    Protects(st, log) && Remembers(st, log)
  }

  /** The fields a self-update save leaves alone. */
  predicate SameCustody(a: State, b: State) {
    a.(nodeId := "", update := b.update) == b.(nodeId := "")
  }

  predicate Above(log: seq<Event>, e: Start) {
    forall i :: 0 <= i < |log| && log[i].Started? ==> NotBehind(log[i].start, e)
  }

  /** The start about to be made, or made, and the durable record that covers it. */
  predicate IntentHeld(s: Sys, cfg: Config, intent: State, c: Candidate, epoch: int) {
    && s.visible == intent && s.survivors == {intent}
    && c.compiledAt.Trimmed().Some?
    && (cfg.operatorKey.NoKey? ==> epoch == 0)
  }

  ghost predicate PhaseInv(s: Sys, p: Proc) {
    match p.phase
    case Loading => true
    case Fetching(prev) => prev == s.visible && LoadGates(p.cfg, prev)
    case Verified(prev, c, epoch) =>
      prev == s.visible && LoadGates(p.cfg, prev) && CandidateGates(p.cfg, prev, c) == Some(epoch)
    case Swapping(prev) => SameCustody(prev, s.visible)
    case Ready(intent, c, epoch) =>
      && IntentHeld(s, p.cfg, intent, c, epoch)
      && var e := StartOf(p.cfg, c, epoch);
         && Above(s.log, e) && Safe(intent, s.log + [Started(e)])
         && (Open(s.log) ==> MayFollowUnresolved(LastStart(s.log).value, e))
    case Installing(intent, c, epoch, i) =>
      && IntentHeld(s, p.cfg, intent, c, epoch)
      && i == |s.log| - 1 && s.log[i] == Started(StartOf(p.cfg, c, epoch))
    case Installed(intent, c, epoch) =>
      && IntentHeld(s, p.cfg, intent, c, epoch)
      && |s.log| > 0 && s.log[|s.log| - 1] == Started(StartOf(p.cfg, c, epoch))
    case Failing(base) => Safe(base, s.log) && base.lastGood == s.visible.lastGood
    case Finishing => true
  }

  ghost predicate LeaseInv(s: Sys) {
    && (forall p :: p in s.procs <==> Parent(p) in s.lease)
    && (forall p, q :: p in s.procs && q in s.procs ==> p == q)
    && (forall i :: i in s.running <==> Guardian(i) in s.lease)
    && AtMostOne(s.running)
    && (forall p, i :: p in s.procs && i in s.running ==>
          s.procs[p].phase.Installing? && s.procs[p].phase.index == i)
  }

  predicate StartsWellFormed(log: seq<Event>) {
    forall i :: 0 <= i < |log| && log[i].Started? ==>
      && log[i].start.compiledAt.Trimmed().Some?
      && (!log[i].start.credentialed ==> log[i].start.epoch == 0)
  }

  ghost predicate DiskInv(s: Sys) {
    && s.visible in s.survivors
    && forall st :: st in s.survivors ==> Safe(st, s.log)
  }

  ghost predicate Inv(s: Sys) {
    && LeaseInv(s)
    && DiskInv(s)
    && StartsWellFormed(s.log)
    && Monotone(s.log)
    && Recovering(s.log)
    && forall p :: p in s.procs ==> PhaseInv(s, s.procs[p])
  }
}
