/**
 * Automatic device telemetry: the policy-driven sampler and the one-worker collector behind
 * it, interleaved one lock region at a time. `era` counts removals of device authority, and
 * everything collected carries the era of the worker that asked for it.
 */
module DeviceFence {
  import opened Common

  // ---------------------------------------------------------------- data with provenance

  /** An inventory row: when its worker was authorized, and whether it is a collection_error. */
  datatype Entry = Entry(era: nat, errored: bool)

  /** Numeric values: the era they were read in and the era of the baseline rates came from. */
  datatype Numbers = Numbers(era: nat, baseline: Option<nat>)

  datatype Pair = Pair(inventory: set<Entry>, numbers: Option<Numbers>)

  const NOTHING := Pair({}, None)

  function Degraded(inventory: set<Entry>): Pair {
    Pair(set e | e in inventory :: Entry(e.era, true), None)
  }

  // ---------------------------------------------------------------- the two objects

  /** What one collectPlatform call produced. */
  datatype Answer = Answer(pair: Pair, complete: bool)

  /** A provider goroutine: the era and baseline it was started with, and the cached rows it read. */
  datatype Provider = Provider(era: nat, baselineGeneration: nat, previous: Option<nat>, known: set<Entry>)

  datatype WorkerAt = Waiting | Collecting(call: nat) | Holding(pair: Pair)

  /** A sampler worker goroutine, known by the generation it was started with. */
  datatype Worker = Worker(at: WorkerAt, era: nat, cancelled: bool)

  /** Sample runs on one goroutine; deactivate resets the baselines after it drops its lock. */
  datatype Heartbeat = Idle | Resetting

  datatype World = World(
    // deviceTelemetrySampler, under its mutex
    authorized: bool,
    active: bool,
    generation: nat,
    cancel: Option<nat>,
    ready: bool,
    shown: Pair,
    // deviceCollector, under its mutex
    inFlight: bool,
    baselineGeneration: nat,
    previous: Option<nat>,
    lastInventory: set<Entry>,
    // goroutines and channels
    heartbeat: Heartbeat,
    workers: map<nat, Worker>,
    providers: map<nat, Provider>,
    answers: map<nat, Answer>,
    nextCall: nat,
    // history
    era: nat,
    exposed: seq<(Pair, nat)>)

  datatype Step =
    | Activate
    | Deactivate
    | ResetBaselines
    | Expose
    | Enter(worker: nat, late: bool)
    | Recall(call: nat)
    | Partial(call: nat, inventory: set<Entry>)
    | Finish(call: nat, answer: Answer, counters: bool)
    | Receive(worker: nat, late: bool)
    | GiveUp(worker: nat)
    | Publish(worker: nat, valid: bool)
    | Leave(worker: nat, panicked: bool)

  /** Rows a provider may report: its own, or ones it read from the cache, marked as errors. */
  predicate ReportedBy(p: Provider, inventory: set<Entry>) {
    forall e :: e in inventory ==> e.era == p.era || (e.errored && exists k :: k in p.known && k.era == e.era)
  }

  predicate Enabled(w: World, step: Step) {
    match step
    case Activate => w.heartbeat == Idle
    case Deactivate => w.heartbeat == Idle
    case ResetBaselines => w.heartbeat == Resetting
    case Expose => w.heartbeat == Idle
    case Enter(g, _) => g in w.workers && w.workers[g].at == Waiting
    case Recall(c) => c in w.providers
    case Partial(c, inventory) =>
      c in w.providers && forall e :: e in inventory ==> e.era == w.providers[c].era || e in w.lastInventory
    case Finish(c, answer, _) =>
      && c in w.providers
      && ReportedBy(w.providers[c], answer.pair.inventory)
      && (answer.pair.numbers.Some? ==>
            answer.pair.numbers.value == Numbers(w.providers[c].era, w.providers[c].previous))
    case Receive(g, _) => g in w.workers && w.workers[g].at.Collecting? && w.workers[g].at.call in w.answers
    case GiveUp(g) => g in w.workers && w.workers[g].at.Collecting?
    case Publish(g, _) => g in w.workers && w.workers[g].at.Holding?
    case Leave(g, panicked) => g in w.workers && (panicked || w.workers[g].cancelled)
  }

  function MoveWorker(w: World, g: nat, at: WorkerAt): World
    requires g in w.workers
  {
    w.(workers := w.workers[g := w.workers[g].(at := at)])
  }

  /** The worker's deferred cleanup. */
  function Gone(w: World, g: nat, panicked: bool): World {
    var w1 := w.(workers := w.workers - {g});
    if w.generation != g then w1
    else
      var w2 := w1.(active := false, cancel := None);
      if panicked then w2.(ready := false, shown := NOTHING) else w2
  }

  function CancelWorker(ws: map<nat, Worker>, c: Option<nat>): map<nat, Worker> {
    if c.Some? && c.value in ws then ws[c.value := ws[c.value].(cancelled := true)] else ws
  }

  function Do(w: World, step: Step): World
    requires Enabled(w, step)
  {
    match step
    case Activate =>
      if w.active then w.(authorized := true)
      else
        var g := w.generation + 1;
        w.(authorized := true, active := true, generation := g, cancel := Some(g),
           workers := w.workers[g := Worker(Waiting, w.era, false)])
    case Deactivate =>
      if !w.authorized && !w.active && w.cancel.None? && !w.ready then w
      else
        w.(authorized := false, generation := w.generation + 1,
           workers := CancelWorker(w.workers, w.cancel),
           active := false, cancel := None, ready := false, shown := NOTHING,
           era := w.era + 1, heartbeat := if w.authorized then Resetting else Idle)
    case ResetBaselines =>
      w.(baselineGeneration := w.baselineGeneration + 1, previous := None, heartbeat := Idle)
    case Expose =>
      if w.active && w.ready then w.(exposed := w.exposed + [(w.shown, w.era)]) else w
    case Enter(g, late) =>
      // Collect, first lock region: `late` is its own deadline having passed.
      if w.inFlight || late || w.workers[g].cancelled then MoveWorker(w, g, Holding(Degraded(w.lastInventory)))
      else
        MoveWorker(w, g, Collecting(w.nextCall)).(
          inFlight := true, nextCall := w.nextCall + 1,
          providers := w.providers[w.nextCall := Provider(w.workers[g].era, w.baselineGeneration, w.previous, {})])
    case Recall(c) =>
      // previousInventoryForKind, for the rows the provider may fall back on.
      w.(providers := w.providers[c := w.providers[c].(known := w.providers[c].known + w.lastInventory)])
    case Partial(_, inventory) => w.(lastInventory := inventory)
    case Finish(c, answer, counters) =>
      var p := w.providers[c];
      w.(previous := if counters && p.baselineGeneration == w.baselineGeneration then Some(p.era) else w.previous,
         lastInventory := if answer.complete then answer.pair.inventory else w.lastInventory,
         inFlight := false, providers := w.providers - {c}, answers := w.answers[c := answer])
    case Receive(g, late) =>
      var a := w.answers[w.workers[g].at.call];
      MoveWorker(w, g, Holding(if !late && !w.workers[g].cancelled && a.complete
                               then a.pair else Degraded(w.lastInventory)))
    case GiveUp(g) => MoveWorker(w, g, Holding(Degraded(w.lastInventory)))
    case Publish(g, valid) =>
      if w.generation != g || !w.active || w.workers[g].cancelled then Gone(w, g, false)
      else if !valid then MoveWorker(w, g, Waiting).(ready := false, shown := NOTHING)
      else MoveWorker(w, g, Waiting).(ready := true, shown := w.workers[g].at.pair)
    case Leave(g, panicked) => Gone(w, g, panicked)
  }

  predicate Init(w: World) {
    && !w.authorized && !w.active && w.cancel.None? && !w.ready && w.shown == NOTHING
    && !w.inFlight && w.previous.None? && w.lastInventory == {} && w.heartbeat == Idle
    && w.workers == map[] && w.providers == map[] && w.answers == map[] && w.exposed == []
  }

  predicate Runs(w0: World, steps: seq<Step>, w: World)
    decreases |steps|
  {
    if steps == [] then w == w0
    else Enabled(w0, steps[0]) && Runs(Do(w0, steps[0]), steps[1..], w)
  }

  // ---------------------------------------------------------------- the invariant

  /** Fit to be shown in `era`: values and their baseline are of it, older rows are errors. */
  predicate Fits(p: Pair, era: nat) {
    && (p.numbers.Some? ==>
          && p.numbers.value.era == era
          && (p.numbers.value.baseline.Some? ==> p.numbers.value.baseline.value == era))
    && forall e :: e in p.inventory ==> e.errored || e.era == era
  }

  /** Exactly the current worker is not cancelled, and it belongs to the current era. */
  ghost predicate WorkersInv(w: World) {
    && (!w.authorized ==> !w.active && !w.ready)
    && (w.cancel.Some? <==> w.active)
    && (w.active ==> w.heartbeat == Idle && w.cancel == Some(w.generation))
    && (w.heartbeat == Resetting ==> !w.authorized)
    && (w.ready ==> w.active)
    && forall g :: g in w.workers ==>
         && g <= w.generation
         && (w.workers[g].cancelled ==> g < w.generation)
         && (!w.workers[g].cancelled ==> w.active && g == w.generation && w.workers[g].era == w.era)
  }

  /** A provider that could still write the baseline reads and writes only the current era's. */
  ghost predicate BaselineInv(w: World) {
    && (w.heartbeat == Idle && w.previous.Some? ==> w.previous.value == w.era)
    && forall c :: c in w.providers ==>
         && w.providers[c].baselineGeneration <= w.baselineGeneration
         && (w.heartbeat == Idle && w.providers[c].baselineGeneration == w.baselineGeneration ==>
               w.providers[c].era == w.era)
         && (w.providers[c].previous.Some? ==> w.providers[c].previous.value == w.providers[c].era)
  }

  ghost predicate ProvidersInv(w: World) {
    && (w.inFlight <==> w.providers != map[])
    && (forall c, d :: c in w.providers && d in w.providers ==> c == d)
    && (forall c :: c in w.providers ==> c < w.nextCall)
    && (forall c :: c in w.answers ==> c < w.nextCall)
    && (forall g :: g in w.workers && w.workers[g].at.Collecting? ==>
          var c := w.workers[g].at.call;
          && c < w.nextCall
          && (c in w.providers ==> w.providers[c].era == w.workers[g].era)
          && (c in w.answers ==> Fits(w.answers[c].pair, w.workers[g].era)))
  }

  ghost predicate DataInv(w: World) {
    && (forall g :: g in w.workers && w.workers[g].at.Holding? ==> Fits(w.workers[g].at.pair, w.workers[g].era))
    && (w.ready ==> Fits(w.shown, w.era))
    && (forall i :: 0 <= i < |w.exposed| ==> Fits(w.exposed[i].0, w.exposed[i].1))
  }

  ghost predicate Inv(w: World) {
    WorkersInv(w) && BaselineInv(w) && ProvidersInv(w) && DataInv(w)
  }

  // ---------------------------------------------------------------- one step

  lemma HeartbeatKeepsInv(w: World, step: Step)
    requires step.Activate? || step.Deactivate? || step.ResetBaselines? || step.Expose?
    requires Inv(w) && Enabled(w, step)
    ensures Inv(Do(w, step))
  {
  }

  /** A degraded snapshot fits every era: all its rows are errors and it has no values. */
  lemma DegradedFits(inventory: set<Entry>, era: nat)
    ensures Fits(Degraded(inventory), era)
  {
  }

  lemma HoldKeepsInv(w: World, g: nat, p: Pair)
    requires Inv(w) && g in w.workers && Fits(p, w.workers[g].era)
    ensures Inv(MoveWorker(w, g, Holding(p)))
  {
  }

  lemma EnterKeepsInv(w: World, g: nat, late: bool)
    requires Inv(w) && Enabled(w, Enter(g, late))
    ensures Inv(Do(w, Enter(g, late)))
  {
    if w.inFlight || late || w.workers[g].cancelled {
      DegradedFits(w.lastInventory, w.workers[g].era);
      HoldKeepsInv(w, g, Degraded(w.lastInventory));
    } else {
      var w' := Do(w, Enter(g, late));
      assert w.nextCall in w'.providers;
      assert w'.providers.Keys == {w.nextCall};
    }
  }

  lemma ProviderKeepsInv(w: World, step: Step)
    requires step.Partial? || step.Finish?
    requires Inv(w) && Enabled(w, step)
    ensures Inv(Do(w, step))
  {
    if step.Finish? {
      assert forall c :: c in w.providers ==> c == step.call;
      assert Do(w, step).providers == map[];
    }
  }

  lemma RecallKeepsInv(w: World, c: nat)
    requires Inv(w) && Enabled(w, Recall(c))
    ensures Inv(Do(w, Recall(c)))
  {
  }

  lemma ReceiveKeepsInv(w: World, step: Step)
    requires step.Receive? || step.GiveUp?
    requires Inv(w) && Enabled(w, step)
    ensures Inv(Do(w, step))
  {
    var g := step.worker;
    DegradedFits(w.lastInventory, w.workers[g].era);
    HoldKeepsInv(w, g, Degraded(w.lastInventory));
    if step.Receive? {
      HoldKeepsInv(w, g, w.answers[w.workers[g].at.call].pair);
    }
  }

  lemma GoneKeepsInv(w: World, g: nat, panicked: bool)
    requires Inv(w) && g in w.workers && (panicked || w.workers[g].cancelled)
    ensures Inv(Gone(w, g, panicked))
  {
  }

  lemma ShowKeepsInv(w: World, g: nat, p: Pair, ready: bool)
    requires Inv(w) && g in w.workers && !w.workers[g].cancelled
    requires ready ==> Fits(p, w.era)
    ensures Inv(MoveWorker(w, g, Waiting).(ready := ready, shown := p))
  {
  }

  lemma PublishKeepsInv(w: World, step: Step)
    requires step.Publish? || step.Leave?
    requires Inv(w) && Enabled(w, step)
    ensures Inv(Do(w, step))
  {
    var g := step.worker;
    if step.Leave? {
      GoneKeepsInv(w, g, step.panicked);
    } else if w.workers[g].cancelled {
      GoneKeepsInv(w, g, false);
    } else if step.valid {
      ShowKeepsInv(w, g, w.workers[g].at.pair, true);
    } else {
      ShowKeepsInv(w, g, NOTHING, false);
    }
  }

  lemma StepKeepsInv(w: World, step: Step)
    requires Inv(w) && Enabled(w, step)
    ensures Inv(Do(w, step))
  {
    match step
    case Enter(g, late) => EnterKeepsInv(w, g, late);
    case Recall(c) => RecallKeepsInv(w, c);
    case Partial(_, _) => ProviderKeepsInv(w, step);
    case Finish(_, _, _) => ProviderKeepsInv(w, step);
    case Receive(_, _) => ReceiveKeepsInv(w, step);
    case GiveUp(_) => ReceiveKeepsInv(w, step);
    case Publish(_, _) => PublishKeepsInv(w, step);
    case Leave(_, _) => PublishKeepsInv(w, step);
    case _ => HeartbeatKeepsInv(w, step);
  }

  lemma {:induction false} RunKeepsInv(w0: World, steps: seq<Step>, w: World)
    requires Inv(w0) && Runs(w0, steps, w)
    ensures Inv(w)
    decreases |steps|
  {
    if steps != [] {
      StepKeepsInv(w0, steps[0]);
      RunKeepsInv(Do(w0, steps[0]), steps[1..], w);
    }
  }

  // ---------------------------------------------------------------- what every run shows

  /**
   * Under every interleaving of heartbeat, workers and stuck providers: no value shown was
   * read, and no rate computed from a baseline taken, before the last removal of authority;
   * any row from before it is shown only as a collection error.
   */
  lemma NothingStaleIsExposed(w0: World, steps: seq<Step>, w: World)
    requires Init(w0) && Runs(w0, steps, w)
    ensures forall i :: 0 <= i < |w.exposed| ==> Fits(w.exposed[i].0, w.exposed[i].1)
  {
    RunKeepsInv(w0, steps, w);
  }

  /** At most one platform collection runs at any time, also across removals. */
  lemma OneProviderAtATime(w0: World, steps: seq<Step>, w: World)
    requires Init(w0) && Runs(w0, steps, w)
    ensures |w.providers| <= 1
  {
    RunKeepsInv(w0, steps, w);
    if c :| c in w.providers {
      assert w.providers.Keys == {c};
    }
  }

  /**
   * Nothing a worker from before the removal does reaches the shown snapshot, and nothing its
   * provider reports reaches the baseline once that was reset.
   */
  lemma OldWorkerIsFenced(w0: World, steps: seq<Step>, w: World, step: Step)
    requires Init(w0) && Runs(w0, steps, w) && Enabled(w, step)
    requires || ((step.Publish? || step.Leave?) && w.workers[step.worker].era < w.era)
             || (step.Finish? && w.providers[step.call].era < w.era)
    ensures Do(w, step).shown == w.shown && Do(w, step).ready == w.ready
    ensures w.heartbeat == Idle ==> Do(w, step).previous == w.previous
  {
    RunKeepsInv(w0, steps, w);
  }

  /** Between a removal and its reset an old provider may still write the baseline; nobody reads it. */
  lemma NothingStartsBeforeReset(w0: World, steps: seq<Step>, w: World, step: Step)
    requires Init(w0) && Runs(w0, steps, w) && Enabled(w, step) && w.heartbeat == Resetting
    ensures Do(w, step).providers.Keys <= w.providers.Keys
    ensures step.ResetBaselines? ==> Do(w, step).previous.None?
    ensures !step.ResetBaselines? ==> Do(w, step).heartbeat == Resetting
  {
    RunKeepsInv(w0, steps, w);
  }

  // ---------------------------------------------------------------- where the fence stops

  lemma {:induction false} RunExtends(w0: World, steps: seq<Step>, w: World, step: Step)
    requires Runs(w0, steps, w) && Enabled(w, step)
    ensures Runs(w0, steps + [step], Do(w, step))
    decreases |steps|
  {
    if steps == [] {
      assert (steps + [step])[1..] == [];
    } else {
      RunExtends(Do(w0, steps[0]), steps[1..], w, step);
      assert (steps + [step])[1..] == steps[1..] + [step];
    }
  }

  function Fresh(): World {
    World(false, false, 0, None, false, NOTHING, false, 0, None, {}, Idle, map[], map[], map[], 0, 0, [])
  }

  /** Authority removed while the first worker's provider is stuck after its first partial. */
  lemma RemovedWhileStuck() returns (steps: seq<Step>, w: World)
    ensures Runs(Fresh(), steps, w)
    ensures w.heartbeat == Idle && !w.active && w.inFlight && w.era == 1 && w.exposed == []
    ensures w.lastInventory == {Entry(0, false)}
  {
    steps, w := [], Fresh();
    RunExtends(Fresh(), steps, w, Activate);
    steps, w := steps + [Activate], Do(w, Activate);
    RunExtends(Fresh(), steps, w, Enter(1, false));
    steps, w := steps + [Enter(1, false)], Do(w, Enter(1, false));
    RunExtends(Fresh(), steps, w, Partial(0, {Entry(0, false)}));
    steps, w := steps + [Partial(0, {Entry(0, false)})], Do(w, Partial(0, {Entry(0, false)}));
    RunExtends(Fresh(), steps, w, Deactivate);
    steps, w := steps + [Deactivate], Do(w, Deactivate);
    RunExtends(Fresh(), steps, w, ResetBaselines);
    steps, w := steps + [ResetBaselines], Do(w, ResetBaselines);
  }

  // ---------------------------------------------------------------- when a removed row can return

  predicate HasOld(inventory: set<Entry>, era: nat) {
    exists e :: e in inventory && e.era < era
  }

  /** A provider from before the removal, or one that read a row from before it. */
  predicate BringsOld(p: Provider, era: nat) {
    p.era < era || HasOld(p.known, era)
  }

  /** A row from before the last removal is still cached, or a provider in flight can bring one. */
  predicate OldWithin(w: World) {
    HasOld(w.lastInventory, w.era) || exists c :: c in w.providers && BringsOld(w.providers[c], w.era)
  }

  predicate NoRemoval(steps: seq<Step>) {
    forall i :: 0 <= i < |steps| ==> !steps[i].Deactivate?
  }

  /** Some exposure after the first `n` contains a row from before `era`. */
  predicate ShowsOld(w: World, n: nat, era: nat) {
    exists i :: n <= i < |w.exposed| && HasOld(w.exposed[i].0.inventory, era)
  }

  ghost predicate OldRowReturns(w: World) {
    exists steps, w' :: Runs(w, steps, w') && NoRemoval(steps) && ShowsOld(w', |w.exposed|, w.era)
  }

  /** Nothing from before the removal is on its way to the snapshot. */
  ghost predicate Clean(w: World) {
    && !OldWithin(w)
    && (w.ready ==> !HasOld(w.shown.inventory, w.era))
    && (forall g :: g in w.workers && !w.workers[g].cancelled ==> CleanWorker(w, w.workers[g]))
  }

  predicate CleanWorker(w: World, k: Worker) {
    match k.at
    case Waiting => true
    case Collecting(c) => c in w.answers ==> !HasOld(w.answers[c].pair.inventory, w.era)
    case Holding(pair) => !HasOld(pair.inventory, w.era)
  }

  lemma DegradedIsAsOld(inventory: set<Entry>, era: nat)
    ensures HasOld(Degraded(inventory).inventory, era) <==> HasOld(inventory, era)
  {
    if HasOld(inventory, era) {
      var e :| e in inventory && e.era < era;
      assert Entry(e.era, true) in Degraded(inventory).inventory;
    }
  }

  lemma ProviderKeepsClean(w: World, step: Step)
    requires step.Recall? || step.Partial? || step.Finish?
    requires Inv(w) && Clean(w) && Enabled(w, step)
    ensures Clean(Do(w, step))
  {
    var p := w.providers[step.call];
    assert !BringsOld(p, w.era);
  }

  /** Putting a clean pair into a worker's hands keeps the world clean. */
  lemma HoldKeepsClean(w: World, g: nat, p: Pair)
    requires Clean(w) && g in w.workers && (!w.workers[g].cancelled ==> !HasOld(p.inventory, w.era))
    ensures Clean(MoveWorker(w, g, Holding(p)))
  {
  }

  lemma EnterKeepsClean(w: World, g: nat, late: bool)
    requires Inv(w) && Clean(w) && Enabled(w, Enter(g, late))
    ensures Clean(Do(w, Enter(g, late)))
  {
    DegradedIsAsOld(w.lastInventory, w.era);
    HoldKeepsClean(w, g, Degraded(w.lastInventory));
  }

  lemma ReceiveKeepsClean(w: World, step: Step)
    requires step.Receive? || step.GiveUp?
    requires Inv(w) && Clean(w) && Enabled(w, step)
    ensures Clean(Do(w, step))
  {
    var g := step.worker;
    DegradedIsAsOld(w.lastInventory, w.era);
    HoldKeepsClean(w, g, Degraded(w.lastInventory));
    if step.Receive? { HoldKeepsClean(w, g, w.answers[w.workers[g].at.call].pair); }
  }

  lemma GoneKeepsClean(w: World, g: nat, panicked: bool)
    requires Clean(w)
    ensures Clean(Gone(w, g, panicked))
  {
  }

  lemma ShowKeepsClean(w: World, g: nat, p: Pair, ready: bool)
    requires Clean(w) && g in w.workers && (ready ==> !HasOld(p.inventory, w.era))
    ensures Clean(MoveWorker(w, g, Waiting).(ready := ready, shown := p))
  {
  }

  lemma PublishKeepsClean(w: World, step: Step)
    requires step.Publish? || step.Leave?
    requires Inv(w) && Clean(w) && Enabled(w, step)
    ensures Clean(Do(w, step))
  {
    var g := step.worker;
    if step.Leave? {
      GoneKeepsClean(w, g, step.panicked);
    } else if w.workers[g].cancelled || w.generation != g || !w.active {
      GoneKeepsClean(w, g, false);
    } else if step.valid {
      ShowKeepsClean(w, g, w.workers[g].at.pair, true);
    } else {
      ShowKeepsClean(w, g, NOTHING, false);
    }
  }

  lemma StepKeepsClean(w: World, step: Step)
    requires Inv(w) && Clean(w) && Enabled(w, step) && !step.Deactivate?
    ensures Clean(Do(w, step)) && Do(w, step).era == w.era
    ensures w.exposed <= Do(w, step).exposed && !ShowsOld(Do(w, step), |w.exposed|, w.era)
  {
    match step
    case Recall(_) => ProviderKeepsClean(w, step);
    case Partial(_, _) => ProviderKeepsClean(w, step);
    case Finish(_, _, _) => ProviderKeepsClean(w, step);
    case Enter(g, late) => EnterKeepsClean(w, g, late);
    case Receive(_, _) => ReceiveKeepsClean(w, step);
    case GiveUp(_) => ReceiveKeepsClean(w, step);
    case Publish(_, _) => PublishKeepsClean(w, step);
    case Leave(_, _) => PublishKeepsClean(w, step);
    case _ =>
  }

  lemma {:induction false} CleanShowsNothingOld(w: World, steps: seq<Step>, w': World)
    requires Inv(w) && Clean(w) && Runs(w, steps, w') && NoRemoval(steps)
    ensures w.exposed <= w'.exposed && !ShowsOld(w', |w.exposed|, w.era)
    decreases |steps|
  {
    if steps != [] {
      var w1 := Do(w, steps[0]);
      StepKeepsInv(w, steps[0]);
      StepKeepsClean(w, steps[0]);
      CleanShowsNothingOld(w1, steps[1..], w');
      forall i | |w.exposed| <= i < |w'.exposed| ensures !HasOld(w'.exposed[i].0.inventory, w.era) {
        if i < |w1.exposed| { assert w'.exposed[i] == w1.exposed[i]; }
      }
    }
  }

  lemma InactiveIsClean(w: World)
    requires Inv(w) && w.heartbeat == Idle && !w.active && !OldWithin(w)
    ensures Clean(w)
  {
  }

  lemma RunOne(w: World, step: Step)
    requires Enabled(w, step)
    ensures Runs(w, [step], Do(w, step))
  {
    assert [step][1..] == [];
  }

  /** A cached row is shown by the next worker whose collection is late. */
  lemma CachedRowReturns(w: World) returns (steps: seq<Step>, w': World)
    requires Inv(w) && w.heartbeat == Idle && !w.active && HasOld(w.lastInventory, w.era)
    ensures Runs(w, steps, w') && NoRemoval(steps) && ShowsOld(w', |w.exposed|, w.era)
    ensures w'.exposed == w.exposed + [(Degraded(w.lastInventory), w.era)]
  {
    var g := w.generation + 1;
    var w1 := Do(w, Activate);
    var w2 := Do(w1, Enter(g, true));
    var w3 := Do(w2, Publish(g, true));
    w' := Do(w3, Expose);
    RunOne(w, Activate);
    RunExtends(w, [Activate], w1, Enter(g, true));
    RunExtends(w, [Activate] + [Enter(g, true)], w2, Publish(g, true));
    steps := [Activate] + [Enter(g, true)] + [Publish(g, true)];
    RunExtends(w, steps, w3, Expose);
    steps := steps + [Expose];
    DegradedIsAsOld(w.lastInventory, w.era);
    assert w'.exposed[|w.exposed|] == (Degraded(w.lastInventory), w.era);
  }

  /**
   * The inventory cache is deliberately kept across a removal, so a row collected before it
   * can be shown again afterwards, as a collection error: a run with a stuck provider does.
   */
  lemma OldInventoryIsShownAsError() returns (steps: seq<Step>, w: World)
    ensures Runs(Fresh(), steps, w)
    ensures |w.exposed| == 1 && w.exposed[0].1 == 1 && Entry(0, true) in w.exposed[0].0.inventory
  {
    var before, stuck := RemovedWhileStuck();
    RunKeepsInv(Fresh(), before, stuck);
    assert Entry(0, false) in stuck.lastInventory;
    var after, shown := CachedRowReturns(stuck);
    RunConcat(Fresh(), before, stuck, after, shown);
    steps, w := before + after, shown;
  }

  lemma {:induction false} RunConcat(w0: World, before: seq<Step>, w: World, after: seq<Step>, w': World)
    requires Runs(w0, before, w) && Runs(w, after, w')
    ensures Runs(w0, before + after, w')
    decreases |before|
  {
    if before == [] {
      assert before + after == after;
    } else {
      RunConcat(Do(w0, before[0]), before[1..], w, after, w');
      assert (before + after)[1..] == before[1..] + after;
    }
  }

  /** What a provider can bring, it can put into the cache. */
  lemma BroughtRowIsCached(w: World, c: nat) returns (step: Step)
    requires Inv(w) && w.heartbeat == Idle && !w.active && c in w.providers && BringsOld(w.providers[c], w.era)
    ensures Enabled(w, step) && !step.Deactivate?
    ensures var w' := Do(w, step);
            && HasOld(w'.lastInventory, w.era) && w'.era == w.era && w'.exposed == w.exposed
            && w'.heartbeat == Idle && !w'.active
  {
    var p := w.providers[c];
    if p.era < w.era {
      var row := Entry(p.era, false);
      step := Partial(c, {row});
      assert row in Do(w, step).lastInventory;
    } else {
      var k :| k in p.known && k.era < w.era;
      var row := Entry(k.era, true);
      step := Finish(c, Answer(Pair({row}, None), true), false);
      assert row in Do(w, step).lastInventory;
    }
  }

  /**
   * In every run: after a removal, while nothing is active, a row from before it can be shown
   * again without another removal exactly when one is still cached or a provider in flight can
   * bring one. It is then shown as a collection error.
   */
  lemma OldRowReturnsIff(w0: World, steps: seq<Step>, w: World)
    requires Init(w0) && Runs(w0, steps, w) && w.heartbeat == Idle && !w.active
    ensures OldRowReturns(w) <==> OldWithin(w)
  {
    RunKeepsInv(w0, steps, w);
    if OldWithin(w) {
      OldWithinReturns(w);
    } else {
      InactiveIsClean(w);
      forall after, w' | Runs(w, after, w') && NoRemoval(after) ensures !ShowsOld(w', |w.exposed|, w.era) {
        CleanShowsNothingOld(w, after, w');
      }
    }
  }

  lemma OldWithinReturns(w: World)
    requires Inv(w) && w.heartbeat == Idle && !w.active && OldWithin(w)
    ensures OldRowReturns(w)
  {
    if HasOld(w.lastInventory, w.era) {
      var after, w' := CachedRowReturns(w);
    } else {
      var c :| c in w.providers && BringsOld(w.providers[c], w.era);
      var step := BroughtRowIsCached(w, c);
      StepKeepsInv(w, step);
      var after, w' := CachedRowReturns(Do(w, step));
      RunOne(w, step);
      RunConcat(w, [step], Do(w, step), after, w');
      assert NoRemoval([step] + after);
    }
  }
}
