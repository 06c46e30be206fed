/** The rolling window of completed probe attempts: reconcile, completion, snapshot, clear. */
module ProbeWindow {
  const MAX_RECENT := 64
  const HIGH_WATER := 32

  datatype Kind = Tcp | Icmp | Url

  /** A signed probe: where it goes, and how often and how long it tries. */
  datatype Probe = Probe(id: string, kind: Kind, host: string, port: int, url: string, expectedStatus: int,
                         intervalSeconds: int, timeoutMs: int)

  datatype Status = Pending | Success | Failure

  /** One attempt as reported. `serial` is its place in completion order. */
  datatype Attempt = Attempt(id: string, kind: Kind, host: string, port: int, url: string, expectedStatus: int,
                             status: Status, serial: nat)

  /** configuredProbeResult: only the destination fields of the probe's kind are filled in. */
  function Configured(p: Probe, status: Status, serial: nat): Attempt {
    if p.kind == Url then Attempt(p.id, p.kind, "", 0, p.url, p.expectedStatus, status, serial)
    else Attempt(p.id, p.kind, p.host, p.port, "", 0, status, serial)
  }

  /** probeResultMatchesProbe: same id, kind and executable destination. */
  predicate Matches(a: Attempt, p: Probe) {
    && a.id == p.id && a.kind == p.kind
    && (if p.kind == Url then a.url == p.url && a.expectedStatus == p.expectedStatus
        else a.host == p.host && a.port == p.port)
  }

  /** A scheduler entry; the token stands for the identity of the runtime object. */
  datatype Runtime = Runtime(token: nat, probe: Probe)

  predicate Authorized(a: Attempt, probes: map<string, Runtime>) {
    a.id in probes && Matches(a, probes[a.id].probe)
  }

  function Retained(samples: seq<Attempt>, probes: map<string, Runtime>): (r: seq<Attempt>)
    ensures |r| <= |samples|
  {
    if samples == [] then []
    else
      var rest := Retained(samples[..|samples| - 1], probes);
      if Authorized(samples[|samples| - 1], probes) then rest + [samples[|samples| - 1]] else rest
  }

  /** The scheduler map a policy produces: unchanged probes keep their runtime, others are new. */
  function Scheduled(prior: map<string, Runtime>, policy: seq<Probe>, token: nat): map<string, Runtime> {
    if policy == [] then map[]
    else
      var p := policy[|policy| - 1];
      var rest := Scheduled(prior, policy[..|policy| - 1], token);
      if p.id in prior && prior[p.id].probe == p then rest[p.id := prior[p.id]]
      else rest[p.id := Runtime(token + |policy| - 1, p)]
  }

  // ---------------------------------------------------------------- the sampler, as a value

  /**
   * The sampler's window state, with `running` the tokens of runtimes whose goroutine was
   * started, then history: the policy-filtered attempts completed since the last snapshot, the
   * kicks raised since then, every snapshot taken and every attempt accepted.
   */
  datatype Window = Window(
    probes: map<string, Runtime>,
    nextToken: nat,
    running: set<nat>,
    samples: seq<Attempt>,
    sinceSnapshot: nat,
    kickPending: bool,
    uncollected: seq<Attempt>,
    kicks: nat,
    snapshots: seq<seq<Attempt>>,
    accepted: seq<Attempt>)

  function Reconciled(w: Window, policy: seq<Probe>): Window {
    var probes := Scheduled(w.probes, policy, w.nextToken);
    w.(probes := probes, nextToken := w.nextToken + |policy|,
       samples := Retained(w.samples, probes), uncollected := Retained(w.uncollected, probes))
  }

  function Cleared(w: Window): Window {
    w.(probes := map[], samples := [], sinceSnapshot := 0, kickPending := false, uncollected := [])
  }

  function Snapshotted(w: Window): Window {
    w.(sinceSnapshot := 0, kickPending := false, uncollected := [], kicks := 0,
       snapshots := w.snapshots + [w.samples])
  }

  /** Sample's second lock region: due runtimes are marked running, and the window is collected. */
  function Collected(w: Window, due: set<string>): Window {
    Snapshotted(w.(running := w.running + set id | id in due && id in w.probes :: w.probes[id].token))
  }

  /** snapshot(), taken when the state file cannot be read: nothing without a policy. */
  function Frozen(w: Window): Window {
    if w.probes == map[] then w else Snapshotted(w)
  }

  /** markProbeRuntimeStopped: the goroutine of a still scheduled runtime has ended. */
  function Stopped(w: Window, r: Runtime): Window {
    if r.probe.id in w.probes && w.probes[r.probe.id] == r then w.(running := w.running - {r.token}) else w
  }

  function Pushed(samples: seq<Attempt>, a: Attempt): seq<Attempt> {
    (if |samples| < MAX_RECENT then samples else samples[1..]) + [a]
  }

  /** An attempt of runtime `r` finishes; it counts only while `r` is scheduled and running. */
  function Completed(w: Window, r: Runtime, ok: bool): Window {
    if r.probe.id !in w.probes || w.probes[r.probe.id] != r || r.token !in w.running then w
    else
      var a := Configured(r.probe, if ok then Success else Failure, |w.accepted|);
      var kick := !w.kickPending && w.sinceSnapshot + 1 >= HIGH_WATER;
      w.(samples := Pushed(w.samples, a), sinceSnapshot := w.sinceSnapshot + 1,
         kickPending := w.kickPending || kick, uncollected := w.uncollected + [a],
         kicks := if kick then w.kicks + 1 else w.kicks, accepted := w.accepted + [a])
  }

  // ---------------------------------------------------------------- the code's own form

  class ActiveProbeSampler {
    var samples: seq<Attempt>
    var completedSinceSnapshot: nat
    var completionKickPending: bool

    constructor ()
      ensures samples == [] && completedSinceSnapshot == 0 && !completionKickPending
    {
      samples, completedSinceSnapshot, completionKickPending := [], 0, false;
    }

    /** appendCompletedSampleLocked: push into the window, report the high-water kick. */
    method AppendCompletedSample(sample: Attempt) returns (kick: bool)
      requires |samples| <= MAX_RECENT
      modifies this
      ensures sample.status == Pending ==>
                !kick && samples == old(samples) && completedSinceSnapshot == old(completedSinceSnapshot)
                && completionKickPending == old(completionKickPending)
      ensures sample.status != Pending ==>
                && samples == Pushed(old(samples), sample)
                && completedSinceSnapshot == old(completedSinceSnapshot) + 1
                && kick == (!old(completionKickPending) && completedSinceSnapshot >= HIGH_WATER)
                && completionKickPending == (old(completionKickPending) || kick)
    {
      if sample.status == Pending { return false; }
      if |samples| < MAX_RECENT {
        samples := samples + [sample];
      } else {
        samples := samples[1..] + [sample];
      }
      completedSinceSnapshot := completedSinceSnapshot + 1;
      if !completionKickPending && completedSinceSnapshot >= HIGH_WATER {
        completionKickPending := true;
        return true;
      }
      return false;
    }

    /** The retention pass of reconcile. */
    method RetainAuthorized(probes: map<string, Runtime>)
      modifies this`samples
      ensures samples == Retained(old(samples), probes)
    {
      var retained: seq<Attempt> := [];
      var i := 0;
      while i < |samples|
        invariant 0 <= i <= |samples|
        invariant samples == old(samples)
        invariant retained == Retained(samples[..i], probes)
      {
        assert samples[..i + 1][..i] == samples[..i];
        if Authorized(samples[i], probes) { retained := retained + [samples[i]]; }
        i := i + 1;
      }
      assert samples[..i] == samples;
      samples := retained;
    }

    /** The sample half of snapshotLocked. */
    method Snapshot() returns (copied: seq<Attempt>)
      modifies this`completedSinceSnapshot, this`completionKickPending
      ensures copied == samples
      ensures completedSinceSnapshot == 0 && !completionKickPending
    {
      completedSinceSnapshot, completionKickPending := 0, false;
      copied := samples;
    }
  }

  // ---------------------------------------------------------------- runs

  datatype Step =
    | Reconcile(policy: seq<Probe>)
    | Clear
    | Collect(due: set<string>)
    | Freeze
    | Complete(runtime: Runtime, ok: bool)
    | Stop(runtime: Runtime)

  function Do(w: Window, step: Step): Window {
    match step
    case Reconcile(policy) => Reconciled(w, policy)
    case Clear => Cleared(w)
    case Collect(due) => Collected(w, due)
    case Freeze => Frozen(w)
    case Complete(r, ok) => Completed(w, r, ok)
    case Stop(r) => Stopped(w, r)
  }

  function Runs(w: Window, steps: seq<Step>): Window
    decreases |steps|
  {
    if steps == [] then w else Runs(Do(w, steps[0]), steps[1..])
  }

  predicate Init(w: Window) {
    && w.probes == map[] && w.running == {} && w.samples == [] && w.sinceSnapshot == 0 && !w.kickPending
    && w.uncollected == [] && w.kicks == 0 && w.snapshots == [] && w.accepted == []
  }

  // ---------------------------------------------------------------- the invariant

  predicate AllAuthorized(samples: seq<Attempt>, probes: map<string, Runtime>) {
    forall i :: 0 <= i < |samples| ==> Authorized(samples[i], probes)
  }

  /** Attempts in strict completion order, all of them accepted. */
  predicate InOrder(samples: seq<Attempt>, accepted: seq<Attempt>) {
    && (forall i :: 0 <= i < |samples| ==> samples[i].serial < |accepted| && samples[i] == accepted[samples[i].serial])
    && (forall i, j :: 0 <= i < j < |samples| ==> samples[i].serial < samples[j].serial)
  }

  predicate IsSuffix(s: seq<Attempt>, of: seq<Attempt>) {
    |s| <= |of| && of[|of| - |s|..] == s
  }

  predicate Scheduler(probes: map<string, Runtime>) {
    forall id :: id in probes ==> probes[id].probe.id == id
  }

  /** Tokens are given out once; a runtime not scheduled before is not running. */
  predicate TokensInv(w: Window) {
    && (forall t :: t in w.running ==> t < w.nextToken)
    && TokensBelow(w.probes, w.nextToken)
  }

  predicate TokensBelow(probes: map<string, Runtime>, bound: nat) {
    forall id :: id in probes ==> probes[id].token < bound
  }

  predicate NoneRunning(probes: map<string, Runtime>, running: set<nat>) {
    forall id :: id in probes ==> probes[id].token !in running
  }

  /**
   * One kick at most since the last snapshot. If `clear` has re-armed it since, no scheduled
   * runtime can complete before the next collection starts it, and that takes a snapshot.
   */
  predicate KickInv(w: Window) {
    && (w.kickPending <==> w.sinceSnapshot >= HIGH_WATER)
    && (if w.kickPending then w.kicks == 1
        else w.kicks == 0 || (w.kicks == 1 && w.sinceSnapshot == 0 && NoneRunning(w.probes, w.running)))
  }

  predicate Inv(w: Window) {
    && TokensInv(w) && KickInv(w)
    && |w.samples| <= MAX_RECENT
    && Scheduler(w.probes)
    && AllAuthorized(w.samples, w.probes)
    && InOrder(w.samples, w.accepted)
    && |w.uncollected| <= w.sinceSnapshot
    && (w.sinceSnapshot <= MAX_RECENT ==> IsSuffix(w.uncollected, w.samples))
  }

  lemma {:induction false} RetainedIsAuthorized(samples: seq<Attempt>, accepted: seq<Attempt>, probes: map<string, Runtime>)
    requires InOrder(samples, accepted)
    ensures AllAuthorized(Retained(samples, probes), probes)
    ensures InOrder(Retained(samples, probes), accepted)
    ensures forall a :: a in Retained(samples, probes) ==> a in samples
    decreases |samples|
  {
    if samples != [] {
      var init, last := samples[..|samples| - 1], samples[|samples| - 1];
      RetainedIsAuthorized(init, accepted, probes);
      var r := Retained(init, probes);
      forall i | 0 <= i < |r|
        ensures r[i].serial < last.serial
      {
        assert r[i] in init;
      }
    }
  }

  lemma RetainedSnoc(s: seq<Attempt>, x: Attempt, probes: map<string, Runtime>)
    ensures Retained(s + [x], probes) == Retained(s, probes) + (if Authorized(x, probes) then [x] else [])
  {
    assert (s + [x])[..|s + [x]| - 1] == s;
  }

  lemma {:induction false} RetainedSplits(a: seq<Attempt>, b: seq<Attempt>, probes: map<string, Runtime>)
    ensures Retained(a + b, probes) == Retained(a, probes) + Retained(b, probes)
    decreases |b|
  {
    if b == [] {
      assert a + b == a;
    } else {
      var front, x := b[..|b| - 1], b[|b| - 1];
      RetainedSplits(a, front, probes);
      assert b == front + [x] && a + b == (a + front) + [x];
      RetainedSnoc(a + front, x, probes);
      RetainedSnoc(front, x, probes);
      var kept := if Authorized(x, probes) then [x] else [];
      assert (Retained(a, probes) + Retained(front, probes)) + kept == Retained(a, probes) + (Retained(front, probes) + kept);
    }
  }

  lemma RetainedKeepsSuffix(s: seq<Attempt>, of: seq<Attempt>, probes: map<string, Runtime>)
    requires IsSuffix(s, of)
    ensures IsSuffix(Retained(s, probes), Retained(of, probes))
  {
    var front := of[..|of| - |s|];
    assert of == front + s;
    RetainedSplits(front, s, probes);
  }

  lemma {:induction false} ScheduledIsKeyed(prior: map<string, Runtime>, policy: seq<Probe>, token: nat)
    requires Scheduler(prior)
    ensures Scheduler(Scheduled(prior, policy, token))
    decreases |policy|
  {
    if policy != [] { ScheduledIsKeyed(prior, policy[..|policy| - 1], token); }
  }

  /** A new runtime is not running: its token was never given out. */
  lemma {:induction false} ScheduledIsFresh(prior: map<string, Runtime>, policy: seq<Probe>, token: nat, running: set<nat>)
    requires TokensBelow(prior, token) && forall t :: t in running ==> t < token
    ensures TokensBelow(Scheduled(prior, policy, token), token + |policy|)
    ensures NoneRunning(prior, running) ==> NoneRunning(Scheduled(prior, policy, token), running)
    decreases |policy|
  {
    if policy != [] {
      var front, p := policy[..|policy| - 1], policy[|policy| - 1];
      ScheduledIsFresh(prior, front, token, running);
      var rest, probes := Scheduled(prior, front, token), Scheduled(prior, policy, token);
      forall id | id in probes ensures probes[id].token < token + |policy| {
        if id != p.id { assert id in rest && probes[id] == rest[id]; }
      }
    }
  }

  lemma ReconcileKeepsInv(w: Window, policy: seq<Probe>)
    requires Inv(w)
    ensures Inv(Reconciled(w, policy))
  {
    var probes := Scheduled(w.probes, policy, w.nextToken);
    ScheduledIsKeyed(w.probes, policy, w.nextToken);
    ScheduledIsFresh(w.probes, policy, w.nextToken, w.running);
    RetainedIsAuthorized(w.samples, w.accepted, probes);
    if w.sinceSnapshot <= MAX_RECENT { RetainedKeepsSuffix(w.uncollected, w.samples, probes); }
  }

  lemma StepKeepsInv(w: Window, step: Step)
    requires Inv(w)
    ensures Inv(Do(w, step))
  {
    match step
    case Reconcile(policy) => ReconcileKeepsInv(w, policy);
    case Complete(r, ok) => CompleteKeepsInv(w, r, ok);
    case _ =>
  }

  lemma PushedKeepsOrder(samples: seq<Attempt>, accepted: seq<Attempt>, probes: map<string, Runtime>, a: Attempt)
    requires |samples| <= MAX_RECENT && AllAuthorized(samples, probes) && InOrder(samples, accepted)
    requires Authorized(a, probes) && a.serial == |accepted|
    ensures var s := Pushed(samples, a);
            |s| <= MAX_RECENT && AllAuthorized(s, probes) && InOrder(s, accepted + [a])
  {
  }

  lemma PushedKeepsSuffix(samples: seq<Attempt>, uncollected: seq<Attempt>, a: Attempt)
    requires |samples| <= MAX_RECENT && |uncollected| < MAX_RECENT && IsSuffix(uncollected, samples)
    ensures IsSuffix(uncollected + [a], Pushed(samples, a))
  {
  }

  lemma CompleteKeepsInv(w: Window, r: Runtime, ok: bool)
    requires Inv(w)
    ensures Inv(Completed(w, r, ok))
  {
    var w' := Completed(w, r, ok);
    if w' != w {
      var a := w'.accepted[|w.accepted|];
      PushedKeepsOrder(w.samples, w.accepted, w.probes, a);
      if w'.sinceSnapshot <= MAX_RECENT { PushedKeepsSuffix(w.samples, w.uncollected, a); }
    }
  }

  lemma {:induction false} RunKeepsInv(w: Window, steps: seq<Step>)
    requires Inv(w)
    ensures Inv(Runs(w, steps))
    decreases |steps|
  {
    if steps != [] {
      StepKeepsInv(w, steps[0]);
      RunKeepsInv(Do(w, steps[0]), steps[1..]);
    }
  }

  // ---------------------------------------------------------------- what every run shows

  /**
   * After any interleaving of reconciles, clears, collections, and runtimes that complete or
   * stop: the window holds at most 64 attempts, in completion order, each to a destination of
   * the current policy. At most one kick was raised since the last snapshot, whatever was
   * cleared in between, and one was if 32 attempts completed since.
   */
  lemma WindowIsAuthorizedAndOrdered(w0: Window, steps: seq<Step>)
    requires Init(w0)
    ensures var w := Runs(w0, steps);
            && |w.samples| <= MAX_RECENT
            && AllAuthorized(w.samples, w.probes)
            && InOrder(w.samples, w.accepted)
            && w.kicks <= 1 && (w.sinceSnapshot >= HIGH_WATER ==> w.kicks == 1)
  {
    RunKeepsInv(w0, steps);
  }

  /**
   * If at most 64 attempts completed since the last snapshot, the next snapshot contains every
   * one of them whose destination stayed authorized, in order and last.
   */
  lemma SnapshotMissesNothing(w0: Window, steps: seq<Step>)
    requires Init(w0) && Runs(w0, steps).sinceSnapshot <= MAX_RECENT
    ensures var w := Runs(w0, steps);
            |Snapshotted(w).snapshots| == |w.snapshots| + 1 &&
            IsSuffix(w.uncollected, Snapshotted(w).snapshots[|w.snapshots|])
  {
    RunKeepsInv(w0, steps);
  }

  /** `n` completions of one scheduled runtime. */
  function Burst(w: Window, r: Runtime, n: nat): Window {
    if n == 0 then w else Completed(Burst(w, r, n - 1), r, true)
  }

  lemma {:induction false} BurstWindow(w: Window, r: Runtime, n: nat)
    requires Inv(w) && w.uncollected == [] && w.sinceSnapshot == 0
    requires r.probe.id in w.probes && w.probes[r.probe.id] == r && r.token in w.running
    ensures var b := Burst(w, r, n);
            && Inv(b) && b.probes == w.probes && b.running == w.running && |b.accepted| == |w.accepted| + n
            && |b.uncollected| == n && b.sinceSnapshot == n
            && (n > 0 ==> b.uncollected[0].serial == |w.accepted|)
            && (n > 0 ==> |b.samples| > 0 && b.samples[|b.samples| - 1].serial == |w.accepted| + n - 1)
    decreases n
  {
    if n > 0 {
      BurstWindow(w, r, n - 1);
      CompleteKeepsInv(Burst(w, r, n - 1), r, true);
    }
  }

  /** The bound is exact: of `n` completions between snapshots the first survives iff n <= 64. */
  lemma FirstSurvivesIffWithinWindow(w: Window, r: Runtime, n: nat)
    requires Inv(w) && w.samples == [] && w.uncollected == [] && w.sinceSnapshot == 0 && n > 0
    requires r.probe.id in w.probes && w.probes[r.probe.id] == r && r.token in w.running
    ensures BurstFirst(w, r, n) <==> n <= MAX_RECENT
  {
    BurstWindow(w, r, n);
    var b := Burst(w, r, n);
    if n <= MAX_RECENT {
      assert b.uncollected[0] in b.samples;
    } else {
      BurstKeepsLast(w, r, n);
    }
  }

  /** The first attempt of the burst is still in the window. */
  predicate BurstFirst(w: Window, r: Runtime, n: nat) {
    exists i :: 0 <= i < |Burst(w, r, n).samples| && Burst(w, r, n).samples[i].serial == |w.accepted|
  }

  /** Serials that count up by one to just below `end`. */
  predicate EndsAt(samples: seq<Attempt>, end: nat) {
    forall i :: 0 <= i < |samples| ==> samples[i].serial == end - |samples| + i
  }

  lemma PushedEndsAt(samples: seq<Attempt>, a: Attempt, end: nat)
    requires |samples| <= MAX_RECENT && EndsAt(samples, end) && a.serial == end
    ensures EndsAt(Pushed(samples, a), end + 1)
    ensures |Pushed(samples, a)| == if |samples| < MAX_RECENT then |samples| + 1 else MAX_RECENT
  {
  }

  lemma {:induction false} BurstKeepsLast(w: Window, r: Runtime, n: nat)
    requires Inv(w) && w.samples == [] && w.uncollected == [] && w.sinceSnapshot == 0
    requires r.probe.id in w.probes && w.probes[r.probe.id] == r && r.token in w.running
    ensures var b := Burst(w, r, n);
            && |b.samples| == (if n <= MAX_RECENT then n else MAX_RECENT)
            && EndsAt(b.samples, |w.accepted| + n)
    decreases n
  {
    if n > 0 {
      BurstWindow(w, r, n - 1);
      BurstKeepsLast(w, r, n - 1);
      var b := Burst(w, r, n - 1);
      PushedEndsAt(b.samples, Configured(r.probe, Success, |b.accepted|), |b.accepted|);
    }
  }
}
