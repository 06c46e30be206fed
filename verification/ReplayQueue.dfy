/** The bounded telemetry replay queue and its producer and uploader, interleaved. */
module ReplayQueue {
  import opened Common

  const CAPACITY := 32

  datatype Sample = Sample(bootId: string, sequence: nat, payload: string)

  predicate SameSample(a: Sample, b: Sample) {
    a.bootId == b.bootId && a.sequence == b.sequence
  }

  // ---------------------------------------------------------------- the queue, as a value

  /** The retained samples, oldest first, and whether the one-slot `changed` channel is full. */
  datatype Queue = Queue(pending: seq<Sample>, changed: bool)

  predicate IsFront(q: Queue, s: Sample) {
    |q.pending| > 0 && SameSample(q.pending[0], s)
  }

  function Enqueued(q: Queue, s: Sample): Queue {
    Queue((if |q.pending| == CAPACITY then q.pending[1..] else q.pending) + [s], true)
  }

  function FrontRemoved(q: Queue, s: Sample): Queue {
    if IsFront(q, s) then Queue(q.pending[1..], true) else q
  }

  // ---------------------------------------------------------------- the queue, as the code keeps it

  class TelemetryReplayQueue {
    var pending: seq<Sample>
    var changed: bool

    constructor ()
      ensures View() == Queue([], false)
    {
      pending, changed := [], false;
    }

    function View(): Queue
      reads this
    {
      Queue(pending, changed)
    }

    method Enqueue(sample: Sample) returns (dropped: bool)
      modifies this
      ensures View() == Enqueued(old(View()), sample)
      ensures dropped == (|old(pending)| == CAPACITY)
    {
      dropped := false;
      if |pending| == CAPACITY {
        pending := pending[1..];
        dropped := true;
      }
      pending := pending + [sample];
      Signal();
    }

    method Front() returns (sample: Option<Sample>)
      ensures sample == if pending == [] then None else Some(pending[0])
    {
      if |pending| == 0 { return None; }
      return Some(pending[0]);
    }

    method RemoveFront(sample: Sample) returns (removed: bool)
      modifies this
      ensures View() == FrontRemoved(old(View()), sample)
      ensures removed == old(IsFront(View(), sample))
    {
      if |pending| == 0 || !SameSample(pending[0], sample) { return false; }
      pending := pending[1..];
      Signal();
      return true;
    }

    method Signal()
      modifies this`changed
      ensures changed
    {
      if !changed { changed := true; }
    }
  }

  // ---------------------------------------------------------------- producer and uploader

  datatype Fate = Acknowledged | Rejected | Evicted

  datatype Reply = Ack | Permanent | Retry

  /** Where the uploader goroutine is between two lock regions. */
  datatype Uploader =
    | Top
    | Parked
    | Posting(sample: Sample)
    | Answered(sample: Sample, reply: Reply)
    | Waiting(sample: Sample)
    | Rechecking(sample: Sample)
    | Stopped

  /**
   * The whole heartbeat: the sequencer, a sample snapshotted but not yet enqueued, the queue,
   * the uploader, and the history of samples enqueued, fates met and sequences posted.
   */
  datatype World = World(
    bootId: string,
    nextSequence: nat,
    held: Option<Sample>,
    queue: Queue,
    uploader: Uploader,
    enqueued: seq<Sample>,
    fates: seq<Fate>,
    posts: seq<nat>)

  datatype Step =
    | Snapshot(payload: string)
    | Enqueue
    | TakeFront
    | Wake
    | Post(reply: Reply)
    | Settle
    | TimerFires
    | TakeChanged
    | Recheck
    | Stop

  predicate Enabled(w: World, step: Step) {
    match step
    case Snapshot(_) => w.held.None?
    case Enqueue => w.held.Some?
    case TakeFront => w.uploader.Top?
    case Wake => w.uploader.Parked? && w.queue.changed
    case Post(_) => w.uploader.Posting?
    case Settle => w.uploader.Answered?
    case TimerFires => w.uploader.Waiting?
    case TakeChanged => w.uploader.Waiting? && w.queue.changed
    case Recheck => w.uploader.Rechecking?
    case Stop => w.uploader.Parked? || w.uploader.Waiting?
  }

  function Settled(w: World, s: Sample, fate: Fate): World {
    w.(queue := FrontRemoved(w.queue, s), uploader := Top,
       fates := if IsFront(w.queue, s) then w.fates + [fate] else w.fates)
  }

  function Do(w: World, step: Step): World
    requires Enabled(w, step)
  {
    match step
    case Snapshot(payload) =>
      w.(nextSequence := w.nextSequence + 1, held := Some(Sample(w.bootId, w.nextSequence + 1, payload)))
    case Enqueue =>
      w.(held := None, queue := Enqueued(w.queue, w.held.value), enqueued := w.enqueued + [w.held.value],
         fates := if |w.queue.pending| == CAPACITY then w.fates + [Evicted] else w.fates)
    case TakeFront =>
      w.(uploader := if w.queue.pending == [] then Parked else Posting(w.queue.pending[0]))
    case Wake => w.(queue := w.queue.(changed := false), uploader := Top)
    case Post(reply) =>
      w.(uploader := Answered(w.uploader.sample, reply), posts := w.posts + [w.uploader.sample.sequence])
    case Settle =>
      var s := w.uploader.sample;
      match w.uploader.reply {
        case Ack => Settled(w, s, Acknowledged)
        case Permanent => Settled(w, s, Rejected)
        case Retry => w.(uploader := if IsFront(w.queue, s) then Waiting(s) else Top)
      }
    case TimerFires => w.(uploader := Posting(w.uploader.sample))
    case TakeChanged => w.(queue := w.queue.(changed := false), uploader := Rechecking(w.uploader.sample))
    case Recheck =>
      w.(uploader := if IsFront(w.queue, w.uploader.sample) then Waiting(w.uploader.sample) else Top)
    case Stop => w.(uploader := Stopped)
  }

  predicate Init(w: World) {
    && w.nextSequence == 0 && w.held.None? && w.queue == Queue([], false) && w.uploader == Top
    && w.enqueued == [] && w.fates == [] && w.posts == []
  }

  predicate Runs(w0: World, steps: seq<Step>, w: World)
    decreases |steps|
  {
    if steps == [] then w == w0
    else Enabled(w0, steps[0]) && Runs(Do(w0, steps[0]), steps[1..], w)
  }

  // ---------------------------------------------------------------- the invariant

  /** The queue is what is left of the enqueued samples after the settled ones, in order. */
  predicate Conserved(w: World) {
    && |w.fates| <= |w.enqueued|
    && w.queue.pending == w.enqueued[|w.fates|..]
    && |w.queue.pending| <= CAPACITY
  }

  predicate Numbered(w: World) {
    && w.nextSequence == |w.enqueued| + (if w.held.Some? then 1 else 0)
    && (w.held.Some? ==> w.held.value.bootId == w.bootId && w.held.value.sequence == |w.enqueued| + 1)
    && forall i :: 0 <= i < |w.enqueued| ==>
         w.enqueued[i].bootId == w.bootId && w.enqueued[i].sequence == i + 1
  }

  /** The sample an uploader state is working on. */
  function InHand(u: Uploader): Option<Sample> {
    match u
    case Posting(s) => Some(s)
    case Answered(s, _) => Some(s)
    case Waiting(s) => Some(s)
    case Rechecking(s) => Some(s)
    case _ => None
  }

  /** The sequence below which nothing will be posted any more. */
  function Horizon(w: World): nat {
    if InHand(w.uploader).Some? then InHand(w.uploader).value.sequence else |w.fates| + 1
  }

  predicate Ascending(xs: seq<nat>) {
    forall i, j :: 0 <= i < j < |xs| ==> xs[i] <= xs[j]
  }

  predicate PostsInv(w: World) {
    && (var s := InHand(w.uploader);
        s.Some? ==>
          && 1 <= s.value.sequence <= |w.fates| + 1 && s.value.sequence <= |w.enqueued|
          && s.value == w.enqueued[s.value.sequence - 1])
    && Ascending(w.posts)
    && (forall i :: 0 <= i < |w.posts| ==> w.posts[i] <= Horizon(w))
    && (w.uploader.Answered? ==> w.uploader.sample.sequence in w.posts)
    && (forall i :: 0 <= i < |w.fates| && w.fates[i] != Evicted ==> i + 1 in w.posts)
  }

  /** An uploader that sleeps on a stale observation has a token waiting for it. */
  predicate NoLostWakeup(w: World) {
    && (w.uploader.Parked? && w.queue.pending != [] ==> w.queue.changed)
    && (w.uploader.Waiting? && !IsFront(w.queue, w.uploader.sample) ==> w.queue.changed)
  }

  predicate Inv(w: World) {
    Conserved(w) && Numbered(w) && PostsInv(w) && NoLostWakeup(w)
  }

  lemma EnqueueKeepsConserved(w: World)
    requires Conserved(w) && Numbered(w) && Enabled(w, Enqueue)
    ensures Conserved(Do(w, Enqueue)) && Numbered(Do(w, Enqueue))
  {
    var n, all := |w.fates|, w.enqueued + [w.held.value];
    assert all[n..] == w.queue.pending + [w.held.value];
    assert all[n..][1..] == all[n + 1..];
  }

  lemma StepKeepsConserved(w: World, step: Step)
    requires Conserved(w) && Numbered(w) && Enabled(w, step)
    ensures Conserved(Do(w, step)) && Numbered(Do(w, step))
  {
    if step.Enqueue? { EnqueueKeepsConserved(w); }
  }

  lemma SettleKeepsPosts(w: World)
    requires Inv(w) && Enabled(w, Settle)
    ensures PostsInv(Do(w, Settle))
  {
    if IsFront(w.queue, w.uploader.sample) {
      assert w.queue.pending[0] == w.enqueued[|w.fates|];
    }
  }

  lemma PostKeepsPosts(w: World, reply: Reply)
    requires Inv(w) && Enabled(w, Post(reply))
    ensures PostsInv(Do(w, Post(reply)))
  {
    var posts, next := w.posts, Do(w, Post(reply)).posts;
    assert forall x :: x in posts ==> x in next;
    assert next[|posts|] == w.uploader.sample.sequence;
  }

  lemma StepKeepsPosts(w: World, step: Step)
    requires Inv(w) && Enabled(w, step)
    ensures PostsInv(Do(w, step))
  {
    if step.Settle? {
      SettleKeepsPosts(w);
    } else if step.Post? {
      PostKeepsPosts(w, step.reply);
    } else if step.TakeFront? && w.queue.pending != [] {
      assert w.queue.pending[0] == w.enqueued[|w.fates|];
    }
  }

  lemma StepKeepsWakeup(w: World, step: Step)
    requires Inv(w) && Enabled(w, step)
    ensures NoLostWakeup(Do(w, step))
  {
  }

  lemma {:induction false} RunKeepsInv(w0: World, steps: seq<Step>, w: World)
    requires Inv(w0) && Runs(w0, steps, w)
    ensures Inv(w)
    decreases |steps|
  {
    if steps != [] {
      StepKeepsConserved(w0, steps[0]);
      StepKeepsPosts(w0, steps[0]);
      StepKeepsWakeup(w0, steps[0]);
      RunKeepsInv(Do(w0, steps[0]), steps[1..], w);
    }
  }

  // ---------------------------------------------------------------- what every run shows

  /**
   * Under every interleaving: the queue is exactly the suffix of enqueued samples without a
   * fate, at most 32 of them with consecutive sequences; every other sample met one fate, and
   * a delivered or rejected one was posted.
   */
  lemma EverySampleLeavesOnce(w0: World, steps: seq<Step>, w: World)
    requires Init(w0) && Runs(w0, steps, w)
    ensures |w.queue.pending| <= CAPACITY
    ensures |w.fates| + |w.queue.pending| == |w.enqueued|
    ensures w.enqueued[|w.fates|..] == w.queue.pending
    ensures forall i :: 0 <= i < |w.queue.pending| ==> w.queue.pending[i].sequence == |w.fates| + i + 1
    ensures forall i :: 0 <= i < |w.fates| && w.fates[i] != Evicted ==> w.enqueued[i].sequence in w.posts
  {
    RunKeepsInv(w0, steps, w);
    forall i | 0 <= i < |w.queue.pending|
      ensures w.queue.pending[i].sequence == |w.fates| + i + 1
    {
      assert w.queue.pending[i] == w.enqueued[|w.fates| + i];
    }
  }

  /** Post attempts never go back in sequence. */
  lemma PostsAscend(w0: World, steps: seq<Step>, w: World)
    requires Init(w0) && Runs(w0, steps, w)
    ensures Ascending(w.posts)
  {
    RunKeepsInv(w0, steps, w);
  }

  /** An uploader asleep while there is other work always has its wake-up step enabled. */
  lemma SleeperCanWake(w0: World, steps: seq<Step>, w: World)
    requires Init(w0) && Runs(w0, steps, w)
    ensures w.uploader.Parked? && w.queue.pending != [] ==> Enabled(w, Wake)
    ensures w.uploader.Waiting? && !IsFront(w.queue, w.uploader.sample) ==> Enabled(w, TakeChanged)
  {
    RunKeepsInv(w0, steps, w);
  }

  /** Settling one sample never removes another: an evicted sample's late answer is ignored. */
  lemma LateAnswerIsHarmless(w0: World, steps: seq<Step>, w: World)
    requires Init(w0) && Runs(w0, steps, w) && w.uploader.Answered?
    ensures var s, w' := w.uploader.sample, Do(w, Settle);
            && (s.sequence == |w.fates| + 1 && w.uploader.reply != Retry ==>
                  |w.queue.pending| > 0 && w'.queue.pending == w.queue.pending[1..] && |w'.fates| == |w.fates| + 1)
            && (s.sequence <= |w.fates| || w.uploader.reply == Retry ==>
                  w'.queue == w.queue && w'.fates == w.fates)
  {
    RunKeepsInv(w0, steps, w);
    if w.queue.pending != [] { assert w.queue.pending[0] == w.enqueued[|w.fates|]; }
  }
}
