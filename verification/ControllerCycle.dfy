/** The poll / fetch / rekey-idle-or-apply cycle and the daemon loop around it. */
module ControllerCycle {
  import opened Common

  // ---------------------------------------------------------------- one cycle, as a value

  /** The /config answer: the bundle's own generation, its manifest checksum, the rekey flag. */
  datatype Served = Served(generation: int, manifestOk: bool, checksum: string, rekey: bool)

  datatype Poll = PollError | Timeout | Woke(generation: int)

  /** How agent.Run ended once it held the bundle. */
  datatype ApplyResult =
    | Refused(recorded: bool)
    | InstallFailed
    | CommitFailed(published: bool)
    | Applied

  /** Everything one cycle learns from outside. `refetched` is the fetch inside agent.Run. */
  datatype Inputs = Inputs(
    poll: Poll,
    fetched: Option<Served>,
    leaseFree: bool,
    rekeyOk: bool,
    refetched: Option<Served>,
    apply: ApplyResult)

  /** The persisted outcome the idle check reads, and how often install.sh has run. */
  datatype Host = Host(lastOk: bool, lastChecksum: string, installs: nat)

  /** The client's post-fetch signals. */
  datatype Signals = Signals(lastFetched: int, lastRekey: bool, prior: int)

  datatype Outcome = Outcome(resume: int, applied: bool, failed: bool, host: Host, signals: Signals)

  /** The served bundle is the one already applied successfully. */
  predicate AlreadyApplied(h: Host, b: Served) {
    b.manifestOk && b.checksum != "" && h.lastOk && h.lastChecksum == b.checksum
  }

  function ApplyTo(h: Host, b: Served, r: ApplyResult): Host {
    match r
    case Refused(recorded) => if recorded then h.(lastOk := false) else h
    case InstallFailed => Host(false, h.lastChecksum, h.installs + 1)
    case CommitFailed(published) =>
      Host(published, if published then b.checksum else h.lastChecksum, h.installs + 1)
    case Applied => Host(true, b.checksum, h.installs + 1)
  }

  function CycleSpec(after: int, h: Host, s: Signals, i: Inputs): Outcome {
    match i.poll
    case PollError => Outcome(after, false, true, h, s)
    case Timeout => Outcome(after, false, false, h, s)
    case Woke(polled) =>
      if i.fetched.None? then Outcome(after, false, true, h, s)
      else
        var b := i.fetched.value;
        var s1 := s.(lastFetched := b.generation, lastRekey := b.rekey);
        if !i.leaseFree then Outcome(after, false, true, h, s1)
        else if b.rekey then
          if !i.rekeyOk then Outcome(after, false, true, h, s1)
          else Outcome(if b.generation > polled then b.generation else polled, false, false, h, s1)
        else if b.generation <= after && AlreadyApplied(h, b) then Outcome(polled, false, false, h, s1)
        else
          var s2 := s1.(prior := after);
          if i.refetched.None? then Outcome(after, false, true, h.(lastOk := false), s2)
          else
            var b' := i.refetched.value;
            var s3 := s2.(lastFetched := b'.generation, lastRekey := b'.rekey);
            var h' := ApplyTo(h, b', i.apply);
            if i.apply != Applied then Outcome(after, false, true, h', s3)
            else Outcome(b'.generation, true, false, h', s3)
  }

  // ---------------------------------------------------------------- the loop, as a value

  /** loopState plus what the injected seams observed: finalize calls, kicks, retry times. */
  datatype Loop = Loop(
    cursor: int,
    finalized: bool,
    lastRetry: int,
    host: Host,
    signals: Signals,
    finalizes: nat,
    kicks: nat,
    retries: seq<int>)

  function StepSpec(l: Loop, i: Inputs, now: int, interval: int): Loop {
    var o := CycleSpec(l.cursor, l.host, l.signals, i);
    var l1 := l.(host := o.host, signals := o.signals, finalized := true,
                 finalizes := if l.finalized then l.finalizes else l.finalizes + 1);
    if o.failed then l1
    else
      var l2 := l1.(cursor := o.resume, kicks := if o.applied then l.kicks + 1 else l.kicks);
      if interval > 0 && !o.applied && now - l.lastRetry >= interval
      then l2.(lastRetry := now, retries := l.retries + [now])
      else l2
  }

  // ---------------------------------------------------------------- the code's own form

  /** The controller client's cursor fields and the persisted host record, updated in place. */
  class Agent {
    var lastFetched: int
    var lastRekey: bool
    var prior: int
    var host: Host
    var cursor: int
    var finalized: bool
    var lastRetry: int
    var finalizes: nat
    var kicks: nat
    var retries: seq<int>

    constructor (after: int, host: Host, now: int)
      ensures View() == Loop(after, false, now, host, Signals(0, false, 0), 0, 0, [])
    {
      this.lastFetched, this.lastRekey, this.prior := 0, false, 0;
      this.host, this.cursor := host, after;
      this.finalized, this.lastRetry := false, now;
      this.finalizes, this.kicks, this.retries := 0, 0, [];
    }

    function View(): Loop
      reads this
    {
      Loop(cursor, finalized, lastRetry, host, Signals(lastFetched, lastRekey, prior), finalizes, kicks, retries)
    }

    method Fetch(served: Option<Served>) returns (b: Option<Served>)
      modifies this`lastFetched, this`lastRekey
      ensures b == served
      ensures served.Some? ==> lastFetched == served.value.generation && lastRekey == served.value.rekey
      ensures served.None? ==> lastFetched == old(lastFetched) && lastRekey == old(lastRekey)
    {
      if served.Some? { lastFetched, lastRekey := served.value.generation, served.value.rekey; }
      b := served;
    }

    /** RunControllerCycle from the given resume cursor. */
    method RunControllerCycle(after: int, i: Inputs) returns (resume: int, applied: bool, failed: bool)
      modifies this`lastFetched, this`lastRekey, this`prior, this`host
      ensures Outcome(resume, applied, failed, host, Signals(lastFetched, lastRekey, prior)) ==
              CycleSpec(after, old(host), old(Signals(lastFetched, lastRekey, prior)), i)
    {
      if i.poll.PollError? { return after, false, true; }
      if i.poll.Timeout? { return after, false, false; }
      var polled := i.poll.generation;
      var b := Fetch(i.fetched);
      if b.None? || !i.leaseFree { return after, false, true; }
      if lastRekey {
        if !i.rekeyOk { return after, false, true; }
        resume := polled;
        if lastFetched > resume { resume := lastFetched; }
        return resume, false, false;
      }
      if lastFetched <= after {
        if AlreadyApplied(host, b.value) { return polled, false, false; }
      }
      prior := after;
      var b' := Fetch(i.refetched);
      if b'.None? {
        host := host.(lastOk := false);
        return after, false, true;
      }
      host := ApplyTo(host, b'.value, i.apply);
      if i.apply != Applied { return after, false, true; }
      return lastFetched, true, false;
    }

    /** ControllerLoop.step: one iteration over the mutable loop state. */
    method Step(i: Inputs, now: int, interval: int)
      modifies this
      ensures View() == StepSpec(old(View()), i, now, interval)
    {
      var resume, applied, failed := RunControllerCycle(cursor, i);
      if !finalized {
        finalizes := finalizes + 1;
        finalized := true;
      }
      if failed { return; }
      cursor := resume;
      if applied { kicks := kicks + 1; }
      if interval > 0 && !applied && now - lastRetry >= interval {
        lastRetry := now;
        retries := retries + [now];
      }
    }
  }

  // ---------------------------------------------------------------- runs

  datatype Tick = Tick(inputs: Inputs, now: int)

  function Runs(l: Loop, ticks: seq<Tick>, interval: int): Loop
    decreases |ticks|
  {
    if ticks == [] then l else Runs(StepSpec(l, ticks[0].inputs, ticks[0].now, interval), ticks[1..], interval)
  }

  /** The controller serves exactly `b`, or the request fails; polls report a real advance. */
  predicate Serves(b: Served, l: Loop, i: Inputs) {
    && (i.fetched == Some(b) || i.fetched == None)
    && (i.refetched == Some(b) || i.refetched == None)
    && (i.poll.Woke? ==> i.poll.generation > l.cursor)
  }

  predicate AlwaysServes(b: Served, l: Loop, ticks: seq<Tick>, interval: int)
    decreases |ticks|
  {
    ticks == [] ||
    (Serves(b, l, ticks[0].inputs) &&
     AlwaysServes(b, StepSpec(l, ticks[0].inputs, ticks[0].now, interval), ticks[1..], interval))
  }

  /** Ticks in which agent.Run would not have ended in a commit. */
  function Failures(ticks: seq<Tick>): nat {
    if ticks == [] then 0 else (if ticks[0].inputs.apply == Applied then 0 else 1) + Failures(ticks[1..])
  }

  /** The bundle is applied and the cursor has reached its generation. */
  predicate Settled(l: Loop, b: Served) {
    AlreadyApplied(l.host, b) && l.cursor >= b.generation
  }

  /** Once settled, no wake, bump, error or timeout ever runs install.sh again. */
  lemma {:induction false} SettledStays(b: Served, l: Loop, ticks: seq<Tick>, interval: int)
    requires !b.rekey && Settled(l, b) && AlwaysServes(b, l, ticks, interval)
    ensures Settled(Runs(l, ticks, interval), b)
    ensures Runs(l, ticks, interval).host.installs == l.host.installs
    decreases |ticks|
  {
    if ticks != [] {
      SettledStays(b, StepSpec(l, ticks[0].inputs, ticks[0].now, interval), ticks[1..], interval);
    }
  }

  /**
   * While one bundle with a checksum is served, from every cursor and record and under every
   * schedule, install.sh runs at most once more than the applies that failed.
   */
  lemma {:induction false} AtMostOneInstall(b: Served, l: Loop, ticks: seq<Tick>, interval: int)
    requires !b.rekey && b.manifestOk && b.checksum != "" && AlwaysServes(b, l, ticks, interval)
    ensures Runs(l, ticks, interval).host.installs <= l.host.installs + 1 + Failures(ticks)
    decreases |ticks|
  {
    if ticks != [] {
      var l1 := StepSpec(l, ticks[0].inputs, ticks[0].now, interval);
      if Settled(l1, b) {
        SettledStays(b, l1, ticks[1..], interval);
      } else {
        AtMostOneInstall(b, l1, ticks[1..], interval);
      }
    }
  }

  // ---------------------------------------------------------------- convergence

  /** A healthy controller at tenant generation `tenant`: everything asked for succeeds. */
  function Healthy(b: Served, tenant: int, cursor: int): Inputs {
    Inputs(if cursor < tenant then Woke(tenant) else Timeout, Some(b), true, true, Some(b), Applied)
  }

  function HealthyRun(b: Served, tenant: int, l: Loop, n: nat, interval: int): Loop
    decreases n
  {
    if n == 0 then l
    else HealthyRun(b, tenant, StepSpec(l, Healthy(b, tenant, l.cursor), 0, interval), n - 1, interval)
  }

  /** Two healthy cycles bring the cursor to the tenant generation with at most one install. */
  lemma ReachesTenantInTwoCycles(b: Served, tenant: int, l: Loop, interval: int)
    requires !b.rekey && b.manifestOk && b.checksum != ""
    ensures var l2 := HealthyRun(b, tenant, l, 2, interval);
            && l2.cursor >= tenant
            && l2.host.installs <= l.host.installs + 1
            && (l.cursor < tenant ==> AlreadyApplied(l2.host, b))
  {
    var l1 := StepSpec(l, Healthy(b, tenant, l.cursor), 0, interval);
    assert HealthyRun(b, tenant, l, 2, interval) == HealthyRun(b, tenant, l1, 1, interval);
    assert HealthyRun(b, tenant, l1, 1, interval) ==
           HealthyRun(b, tenant, StepSpec(l1, Healthy(b, tenant, l1.cursor), 0, interval), 0, interval);
  }

  /** Without a manifest checksum a lagging bundle is reinstalled on every wake, forever. */
  lemma {:induction false} NoChecksumNeverSettles(b: Served, tenant: int, l: Loop, n: nat, interval: int)
    requires !b.rekey && b.checksum == "" && b.generation < tenant && l.cursor < tenant
    ensures HealthyRun(b, tenant, l, n, interval).host.installs == l.host.installs + n
    decreases n
  {
    if n > 0 {
      NoChecksumNeverSettles(b, tenant, StepSpec(l, Healthy(b, tenant, l.cursor), 0, interval), n - 1, interval);
    }
  }

  lemma {:induction false} HealthyInstallsOnce(b: Served, tenant: int, l: Loop, n: nat, interval: int)
    requires !b.rekey && b.manifestOk && b.checksum != ""
    ensures HealthyRun(b, tenant, l, n, interval).host.installs <= l.host.installs + 1
    ensures Settled(l, b) || l.cursor >= tenant ==>
              HealthyRun(b, tenant, l, n, interval).host.installs == l.host.installs
    decreases n
  {
    if n > 0 {
      HealthyInstallsOnce(b, tenant, StepSpec(l, Healthy(b, tenant, l.cursor), 0, interval), n - 1, interval);
    }
  }

  /** A lagging bundle is installed at most once, however long it is served, iff it has a checksum. */
  lemma InstallsOnceIffChecksummed(b: Served, tenant: int, l: Loop, interval: int)
    requires !b.rekey && b.manifestOk && b.generation < tenant && l.cursor < tenant
    ensures (forall n: nat :: HealthyRun(b, tenant, l, n, interval).host.installs <= l.host.installs + 1) <==>
            b.checksum != ""
  {
    if b.checksum == "" {
      NoChecksumNeverSettles(b, tenant, l, 2, interval);
    } else {
      forall n: nat
        ensures HealthyRun(b, tenant, l, n, interval).host.installs <= l.host.installs + 1
      {
        HealthyInstallsOnce(b, tenant, l, n, interval);
      }
    }
  }

  // ---------------------------------------------------------------- rekey

  /**
   * After a rekey wake the pre-rekey bundle is served again at the next tenant bump. It is
   * reinstalled exactly when it was not the last bundle applied successfully.
   */
  lemma StaleBundleAfterRekey(b: Served, l: Loop, wake: int, bump: int, interval: int)
    requires b.rekey && wake > l.cursor
    requires bump > (if b.generation > wake then b.generation else wake)
    ensures var i := Inputs(Woke(wake), Some(b), true, true, Some(b), Applied);
            var l1 := StepSpec(l, i, 0, interval);
            var b' := b.(rekey := false);
            var l2 := StepSpec(l1, Inputs(Woke(bump), Some(b'), true, true, Some(b'), Applied), 0, interval);
            && l1.cursor >= wake && l1.cursor >= b.generation && l1.host == l.host
            && (l2.host.installs == l1.host.installs + 1 <==> !AlreadyApplied(l.host, b'))
            && (l2.host.installs == l1.host.installs <==> AlreadyApplied(l.host, b'))
  {
  }

  // ---------------------------------------------------------------- the seams

  ghost predicate Spaced(times: seq<int>, interval: int) {
    forall i, j :: 0 <= i < j < |times| && j == i + 1 ==> times[j] - times[i] >= interval
  }

  /** Finalize runs with the first cycle; each retry waits an interval, the first from loop start. */
  ghost predicate SeamsInv(l: Loop, start: int, interval: int) {
    && l.finalizes == (if l.finalized then 1 else 0)
    && Spaced([start] + l.retries, interval)
    && l.lastRetry == ([start] + l.retries)[|l.retries|]
  }

  lemma SpacedExtends(times: seq<int>, next: int, interval: int)
    requires Spaced(times, interval) && |times| > 0 && next - times[|times| - 1] >= interval
    ensures Spaced(times + [next], interval)
  {
  }

  lemma StepKeepsPace(l: Loop, start: int, tick: Tick, interval: int)
    requires SeamsInv(l, start, interval)
    ensures SeamsInv(StepSpec(l, tick.inputs, tick.now, interval), start, interval)
  {
    var l1 := StepSpec(l, tick.inputs, tick.now, interval);
    if l1.retries != l.retries {
      SpacedExtends([start] + l.retries, tick.now, interval);
      assert [start] + l1.retries == [start] + l.retries + [tick.now];
    }
  }

  /** Over any run from loop start, retries are an interval apart and the first waits a whole one. */
  lemma {:induction false} SeamsKeepPace(l: Loop, start: int, ticks: seq<Tick>, interval: int)
    requires SeamsInv(l, start, interval)
    ensures SeamsInv(Runs(l, ticks, interval), start, interval)
    decreases |ticks|
  {
    if ticks != [] {
      StepKeepsPace(l, start, ticks[0], interval);
      SeamsKeepPace(StepSpec(l, ticks[0].inputs, ticks[0].now, interval), start, ticks[1..], interval);
    }
  }

  /** Finalize has run exactly once after any cycle, whatever its outcome. */
  lemma {:induction false} FinalizesOnce(l: Loop, start: int, ticks: seq<Tick>, interval: int)
    requires SeamsInv(l, start, interval) && (ticks != [] || l.finalized)
    ensures Runs(l, ticks, interval).finalized && Runs(l, ticks, interval).finalizes == 1
    decreases |ticks|
  {
    if ticks != [] {
      StepKeepsPace(l, start, ticks[0], interval);
      FinalizesOnce(StepSpec(l, ticks[0].inputs, ticks[0].now, interval), start, ticks[1..], interval);
    }
  }

  lemma StepKicksForInstalls(l: Loop, tick: Tick, interval: int)
    ensures var l1 := StepSpec(l, tick.inputs, tick.now, interval);
            l1.host.installs - l.host.installs >= l1.kicks - l.kicks >= 0
  {
  }

  /** The heartbeat is kicked at most once for each install. */
  lemma {:induction false} KicksFollowInstalls(l: Loop, ticks: seq<Tick>, interval: int)
    ensures Runs(l, ticks, interval).host.installs - l.host.installs >= Runs(l, ticks, interval).kicks - l.kicks
    decreases |ticks|
  {
    if ticks != [] {
      StepKicksForInstalls(l, ticks[0], interval);
      KicksFollowInstalls(StepSpec(l, ticks[0].inputs, ticks[0].now, interval), ticks[1..], interval);
    }
  }
}
