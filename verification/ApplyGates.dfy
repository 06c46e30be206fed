/**
 * The pure half of the crash-durable apply: the persisted State record, the gates a run
 * passes before root work may start, and the records written around it.
 */
module ApplyGates {
  import opened Common
  import opened Text

  /**
   * A compiled_at text as time.Parse reads it. `Exact` parses as written, `Padded` parses
   * only after surrounding space is trimmed, `Unreadable` never parses.
   */
  datatype Stamp =
    | Exact(text: string, at: int)
    | Padded(text: string, at: int)
    | Unreadable(text: string)
  {
    function Raw(): Option<int> {
      if Exact? then Some(at) else None
    }

    function Trimmed(): Option<int> {
      if Unreadable? then None else Some(at)
    }
  }

  datatype Action = Install | Uninstall | UnknownAction(text: string)

  datatype RunOutcome = Succeeded | Failed | Pending | Never

  /** The credential description a keystone-verified intent is pinned to. */
  datatype Operator = Operator(fingerprint: string, alg: string, rpId: string, origin: string)

  const NO_OPERATOR := Operator("", "", "", "")

  datatype PendingApply = PendingApply(
    compiledAt: Stamp,
    manifestChecksum: string,
    bundleSha256: string,
    action: Action,
    membershipEpoch: int,
    membershipVerified: bool,
    signingKey: string,
    operator: Operator,
    startedAt: Stamp)

  /** The self-update part of the record: floor, breadcrumb and abandoned target, opaque here. */
  datatype UpdateCustody = UpdateCustody(floor: string, breadcrumb: Option<string>, abandoned: string)

  /** What the last successful apply put on the host. */
  datatype LastGood = LastGood(compiledAt: Stamp, checksum: string, action: Option<Action>, policy: Option<string>)

  datatype State = State(
    nodeId: string,
    lastGood: LastGood,
    lastResult: RunOutcome,
    membershipEpoch: int,
    membershipVerified: bool,
    pending: Option<PendingApply>,
    update: UpdateCustody)

  /** A PEM argument: absent, present but unparsable, or a key with its canonical fingerprint. */
  datatype Pem = NoKey | BadKey | Key(fingerprint: Sha256Hex)

  datatype Config = Config(
    nodeId: string,
    signingKey: Pem,
    operatorKey: Pem,
    alg: string,
    rpId: string,
    origin: string,
    action: Action)

  /**
   * A fetched bundle, reduced to what the gates read. `intact` is the outcome of every check
   * that does not depend on persisted state (path preflight, VerifyBundle, policy parsing);
   * `signedEpoch` is the trust-list epoch when the off-host signature and digest binding hold.
   */
  datatype Candidate = Candidate(
    nodeId: string,
    compiledAt: Stamp,
    checksum: string,
    digest: Sha256Hex,
    intact: bool,
    signedEpoch: Option<int>,
    policy: Option<string>)

  // ---------------------------------------------------------------- gates

  predicate ValidatePendingApply(cfg: Config, s: State) {
    s.pending.None? ||
    var p := s.pending.value;
    && p.compiledAt.Raw().Some?
    && p.startedAt.Raw().Some?
    && (p.action == Install || p.action == Uninstall)
    && ValidSha256Hex(p.bundleSha256)
    && p.membershipEpoch >= 0
    && (p.signingKey != "" ==>
          && ValidSha256Hex(p.signingKey)
          && cfg.signingKey.Key?
          && EqualFold(cfg.signingKey.fingerprint, p.signingKey))
    && (if p.membershipVerified then
          && ValidSha256Hex(p.operator.fingerprint)
          && cfg.operatorKey.Key?
          && EqualFold(cfg.operatorKey.fingerprint, p.operator.fingerprint)
          && cfg.alg == p.operator.alg
          && cfg.rpId == p.operator.rpId
          && cfg.origin == p.operator.origin
        else
          p.operator == NO_OPERATOR)
  }

  function EffectiveMembershipFloor(s: State): int {
    if s.pending.Some? && s.pending.value.membershipEpoch > s.membershipEpoch
    then s.pending.value.membershipEpoch
    else s.membershipEpoch
  }

  function EffectiveRollbackState(s: State): State {
    if s.pending.None? then s
    else
      var pendingTime := s.pending.value.compiledAt.Raw();
      var lastTime := s.lastGood.compiledAt.Raw();
      if pendingTime.Some? && (lastTime.None? || pendingTime.value > lastTime.value)
      then s.(lastGood := s.lastGood.(compiledAt := s.pending.value.compiledAt))
      else s
  }

  predicate CheckRollback(s: State, candidate: Stamp) {
    && candidate.Trimmed().Some?
    && (s.lastGood.compiledAt.Trimmed().Some? ==>
          s.lastGood.compiledAt.Trimmed().value <= candidate.Trimmed().value)
  }

  predicate ValidateCandidateAgainstPending(s: State, c: Candidate, action: Action) {
    s.pending.None? ||
    var p := s.pending.value;
    && action == p.action
    && c.compiledAt.Raw().Some?
    && p.compiledAt.Raw().Some?
    && (c.compiledAt.Raw() == p.compiledAt.Raw() ==>
          EqualFold(c.digest, p.bundleSha256) && c.checksum == p.manifestChecksum)
  }

  /** VerifyMembership: no credential is a no-op, otherwise the signed epoch must reach the floor. */
  function VerifyMembership(cfg: Config, c: Candidate, floor: int): Option<int> {
    match cfg.operatorKey
    case NoKey => Some(0)
    case BadKey => None
    case Key(_) =>
      if c.signedEpoch.Some? && c.signedEpoch.value >= floor then c.signedEpoch else None
  }

  /** The keystone is sticky once a signed membership has been applied. */
  predicate KeystoneSticky(s: State) {
    s.membershipVerified || s.membershipEpoch > 0
  }

  /** Every check run makes on the loaded state before it fetches a bundle. */
  predicate LoadGates(cfg: Config, s: State) {
    && !IsBlank(cfg.nodeId)
    && (cfg.action == Install || cfg.action == Uninstall)
    && (s.nodeId == "" || s.nodeId == cfg.nodeId)
    && ValidatePendingApply(cfg, s)
    && (KeystoneSticky(s) ==> !cfg.operatorKey.NoKey?)
  }

  /** Every check run makes on the fetched candidate; the result is the verified epoch. */
  function CandidateGates(cfg: Config, s: State, c: Candidate): Option<int> {
    if !c.intact || (c.nodeId != "" && c.nodeId != cfg.nodeId) then None
    else if c.policy.Some? && cfg.operatorKey.NoKey? then None
    else
      var epoch := VerifyMembership(cfg, c, EffectiveMembershipFloor(s));
      if epoch.None? then None
      else if !CheckRollback(EffectiveRollbackState(s), c.compiledAt) then None
      else if !ValidateCandidateAgainstPending(s, c, cfg.action) then None
      else epoch
  }

  // ---------------------------------------------------------------- records

  predicate SamePendingApply(a: PendingApply, b: PendingApply) {
    && a.compiledAt == b.compiledAt
    && a.manifestChecksum == b.manifestChecksum
    && EqualFold(a.bundleSha256, b.bundleSha256)
    && a.action == b.action
    && a.membershipEpoch == b.membershipEpoch
    && a.membershipVerified == b.membershipVerified
    && EqualFold(a.signingKey, b.signingKey)
    && EqualFold(a.operator.fingerprint, b.operator.fingerprint)
    && a.operator.alg == b.operator.alg
    && a.operator.rpId == b.operator.rpId
    && a.operator.origin == b.operator.origin
  }

  /** credFingerprint of an optional key; an absent key has the empty fingerprint. */
  function Fingerprint(k: Pem): string {
    if k.Key? then k.fingerprint else ""
  }

  function ConfiguredOperator(cfg: Config): Operator {
    if cfg.operatorKey.NoKey? then NO_OPERATOR
    else Operator(Fingerprint(cfg.operatorKey), cfg.alg, cfg.rpId, cfg.origin)
  }

  function NewPending(cfg: Config, c: Candidate, epoch: int, now: Stamp): PendingApply {
    PendingApply(c.compiledAt, c.checksum, c.digest, cfg.action, epoch, !cfg.operatorKey.NoKey?,
                 Fingerprint(cfg.signingKey), ConfiguredOperator(cfg), now)
  }

  /** The record persistPendingApply saves: the old one on an exact retry, a fresh one otherwise. */
  function IntentState(cfg: Config, prev: State, c: Candidate, epoch: int, now: Stamp): State {
    var p := NewPending(cfg, c, epoch, now);
    if prev.pending.Some? && SamePendingApply(prev.pending.value, p) then prev
    else prev.(nodeId := cfg.nodeId, pending := Some(p), lastResult := Pending)
  }

  function RecordSuccess(cfg: Config, prev: State, c: Candidate, epoch: int): State {
    State(
      cfg.nodeId,
      LastGood(c.compiledAt, c.checksum, Some(cfg.action), if cfg.action == Uninstall then None else c.policy),
      Succeeded,
      if prev.membershipEpoch > epoch then prev.membershipEpoch else epoch,
      !cfg.operatorKey.NoKey? || KeystoneSticky(prev),
      None,
      prev.update)
  }

  function RecordFailure(cfg: Config, prev: State): State {
    State(
      if prev.nodeId == "" then cfg.nodeId else prev.nodeId,
      prev.lastGood,
      Failed,
      prev.membershipEpoch,
      KeystoneSticky(prev),
      prev.pending,
      prev.update)
  }
}
