/** Heimdall's bounded, drop-oldest queue between the alert drain and the publisher, woken through a
    one-slot channel.  Producers and the publisher interleave freely; one step is one critical section
    or one channel operation. */
module DriftSink {
  /** Where the publisher loop stands. */
  datatype Publisher<R> = Looking | Waiting | Publishing(record: R) | Stopped

  /** How a record left the queue. */
  datatype Departure<R> = Dropped(record: R) | Taken(record: R)

  /** signals counts the Enqueue calls that have appended and not yet signalled; arrived, left and settled
      are the history of the records. */
  datatype State<R> = State(
    size: nat, queue: seq<R>, wake: bool, signals: nat, pub: Publisher<R>,
    published: nat, failed: nat, dropped: nat,
    arrived: seq<R>, left: seq<Departure<R>>, settled: seq<R>)

  datatype Step<R> =
    | Append(record: R)  // the locked half of Enqueue
    | Signal             // its non-blocking send
    | Look               // next
    | Wake               // the receive from the wake channel
    | Publish            // PublishSigned succeeded
    | Fail               // marshalling or publishing failed, the context still alive
    | FailAndStop        // publishing failed because the context ended
    | Cancel             // the context ended while waiting

  function Init<R>(size: int): State<R> {
    State(if size < 1 then 1 else size, [], false, 0, Looking, 0, 0, 0, [], [], [])
  }

  predicate Enabled<R(==)>(s: State<R>, step: Step<R>) {
    match step
    case Append(_) => true
    case Signal => s.signals > 0
    case Look => s.pub.Looking?
    case Wake => s.pub.Waiting? && s.wake
    case Publish => s.pub.Publishing?
    case Fail => s.pub.Publishing?
    case FailAndStop => s.pub.Publishing?
    case Cancel => s.pub.Waiting?
  }

  function Appended<R>(s: State<R>, r: R): State<R> {
    var s1 := if |s.queue| >= s.size && s.queue != [] then
                s.(queue := s.queue[1..], dropped := s.dropped + 1, left := s.left + [Dropped(s.queue[0])])
              else s;
    s1.(queue := s1.queue + [r], arrived := s1.arrived + [r], signals := s1.signals + 1)
  }

  function Looked<R>(s: State<R>): State<R> {
    if s.queue == [] then s.(pub := Waiting)
    else s.(pub := Publishing(s.queue[0]), queue := s.queue[1..], left := s.left + [Taken(s.queue[0])])
  }

  function Settled<R>(s: State<R>): State<R>
    requires s.pub.Publishing?
  {
    s.(settled := s.settled + [s.pub.record], pub := Looking)
  }

  function Apply<R>(s: State<R>, step: Step<R>): State<R>
    requires Enabled(s, step)
  {
    match step
    case Append(r) => Appended(s, r)
    case Signal => s.(signals := s.signals - 1, wake := true)
    case Look => Looked(s)
    case Wake => s.(wake := false, pub := Looking)
    case Publish => Settled(s).(published := s.published + 1)
    case Fail => Settled(s).(failed := s.failed + 1)
    case FailAndStop => Settled(s).(failed := s.failed + 1, pub := Stopped)
    case Cancel => s.(pub := Stopped)
  }

  // ---- What every reachable state keeps ----

  function Records<R>(ds: seq<Departure<R>>): (rs: seq<R>)
    ensures |rs| == |ds|
  {
    if ds == [] then [] else Records(ds[..|ds| - 1]) + [ds[|ds| - 1].record]
  }

  function TakenOnly<R>(ds: seq<Departure<R>>): seq<R> {
    if ds == [] then []
    else TakenOnly(ds[..|ds| - 1]) + if ds[|ds| - 1].Taken? then [ds[|ds| - 1].record] else []
  }

  function InFlight<R>(s: State<R>): seq<R> {
    if s.pub.Publishing? then [s.pub.record] else []
  }

  /** Records leave in arrival order, what is left is the newest suffix of the arrivals, and the publisher
      settles what it took in that same order. */
  ghost predicate Fifo<R>(s: State<R>) {
    && s.arrived == Records(s.left) + s.queue
    && TakenOnly(s.left) == s.settled + InFlight(s)
  }

  ghost predicate Counted<R>(s: State<R>) {
    && |s.arrived| == s.published + s.failed + s.dropped + |s.queue| + |InFlight(s)|
    && |s.settled| == s.published + s.failed
    && 1 <= s.size && |s.queue| <= s.size
  }

  /** A publisher that waits beside a non-empty queue has a token coming. */
  ghost predicate NoLostWakeUp<R>(s: State<R>) {
    s.pub.Waiting? && s.queue != [] ==> s.wake || s.signals > 0
  }

  ghost predicate Inv<R>(s: State<R>) {
    Fifo(s) && Counted(s) && NoLostWakeUp(s)
  }

  /** The steps can be taken one after the other from s. */
  predicate Runs<R(==)>(s: State<R>, steps: seq<Step<R>>)
    decreases |steps|
  {
    steps == [] || (Enabled(s, steps[0]) && Runs(Apply(s, steps[0]), steps[1..]))
  }

  function After<R>(s: State<R>, steps: seq<Step<R>>): State<R>
    requires Runs(s, steps)
    decreases |steps|
  {
    if steps == [] then s else After(Apply(s, steps[0]), steps[1..])
  }

  lemma RecordsSnoc<R>(ds: seq<Departure<R>>, d: Departure<R>)
    ensures Records(ds + [d]) == Records(ds) + [d.record]
    ensures TakenOnly(ds + [d]) == TakenOnly(ds) + if d.Taken? then [d.record] else []
  {
    assert (ds + [d])[..|ds|] == ds;
  }

  lemma FifoAppended<R>(s: State<R>, r: R)
    requires Fifo(s)
    ensures Fifo(Appended(s, r))
  {
    if |s.queue| >= s.size && s.queue != [] {
      RecordsSnoc(s.left, Dropped(s.queue[0]));
      assert s.queue == [s.queue[0]] + s.queue[1..];
    }
  }

  lemma FifoLooked<R>(s: State<R>)
    requires Fifo(s) && s.pub.Looking?
    ensures Fifo(Looked(s))
  {
    if s.queue != [] {
      RecordsSnoc(s.left, Taken(s.queue[0]));
      assert s.queue == [s.queue[0]] + s.queue[1..];
    }
  }

  lemma StepKeeps<R>(s: State<R>, step: Step<R>)
    requires Inv(s) && Enabled(s, step)
    ensures Inv(Apply(s, step))
  {
    match step {
      case Append(r) => FifoAppended(s, r);
      case Look => FifoLooked(s);
      case _ =>
    }
  }

  lemma {:induction false} InvAlong<R>(s: State<R>, steps: seq<Step<R>>)
    requires Inv(s) && Runs(s, steps)
    ensures Inv(After(s, steps))
    decreases |steps|
  {
    if steps != [] {
      StepKeeps(s, steps[0]);
      InvAlong(Apply(s, steps[0]), steps[1..]);
    }
  }

  /** Under every interleaving of producers and publisher. */
  lemma EveryRun<R>(size: int, steps: seq<Step<R>>)
    requires Runs(Init(size), steps)
    ensures Inv(After(Init(size), steps))
  {
    InvAlong(Init(size), steps);
  }

  // ---- Exactly what is dropped, published and failed, told from the steps alone ----

  /** The queue's length and the records dropped, counted without the records: an append drops one exactly when
      size are queued, a look takes one if there is one. */
  datatype Tally = Tally(queued: nat, dropped: nat, published: nat, failed: nat, stopped: bool)

  function Told<R>(size: nat, t: Tally, step: Step<R>): Tally {
    match step
    case Append(_) => if t.queued == size then t.(dropped := t.dropped + 1) else t.(queued := t.queued + 1)
    case Look => if t.queued == 0 then t else t.(queued := t.queued - 1)
    case Publish => t.(published := t.published + 1)
    case Fail => t.(failed := t.failed + 1)
    case FailAndStop => t.(failed := t.failed + 1, stopped := true)
    case Cancel => t.(stopped := true)
    case Signal => t
    case Wake => t
  }

  function ToldAll<R>(size: nat, t: Tally, steps: seq<Step<R>>): Tally
    decreases |steps|
  {
    if steps == [] then t else ToldAll(size, Told(size, t, steps[0]), steps[1..])
  }

  function TallyOf<R>(s: State<R>): Tally {
    Tally(|s.queue|, s.dropped, s.published, s.failed, s.pub.Stopped?)
  }

  lemma StepTells<R>(s: State<R>, step: Step<R>)
    requires Counted(s) && Enabled(s, step)
    ensures TallyOf(Apply(s, step)) == Told(s.size, TallyOf(s), step) && Apply(s, step).size == s.size
  {
  }

  lemma {:induction false} TallyAlong<R>(s: State<R>, steps: seq<Step<R>>)
    requires Inv(s) && Runs(s, steps)
    ensures TallyOf(After(s, steps)) == ToldAll(s.size, TallyOf(s), steps)
    decreases |steps|
  {
    if steps != [] {
      StepKeeps(s, steps[0]);
      StepTells(s, steps[0]);
      TallyAlong(Apply(s, steps[0]), steps[1..]);
    }
  }

  /** In every run, from a sink of the given size (at least one): records are dropped only when the queue is full,
      one for each append, and the counters count the outcomes. */
  lemma RunTally<R>(size: int, steps: seq<Step<R>>)
    requires Runs(Init(size), steps)
    ensures TallyOf(After(Init(size), steps))
         == ToldAll(if size < 1 then 1 else size, Tally(0, 0, 0, 0, false), steps)
  {
    InitStarts<R>(size);
    TallyAlong(Init<R>(size), steps);
  }

  lemma InitStarts<R>(size: int)
    ensures var s: State<R> := Init(size);
      Inv(s) && s.size == (if size < 1 then 1 else size) && TallyOf(s) == Tally(0, 0, 0, 0, false)
  {
  }

  // ---- Nothing gets stuck ----

  /** Steps the system takes by itself: no new record, no cancellation. */
  predicate Internal<R(==)>(step: Step<R>) {
    step.Signal? || step.Look? || step.Wake? || step.Publish? || step.Fail?
  }

  function Work<R>(s: State<R>): nat {
    2 * |s.queue| + 3 * s.signals + (if s.wake then 2 else 0)
    + match s.pub case Publishing(_) => 2 case Looking => 1 case _ => 0
  }

  /** Without new records the steps run out... */
  lemma {:induction false} InternalRunsEnd<R>(s: State<R>, steps: seq<Step<R>>)
    requires Runs(s, steps) && forall i :: 0 <= i < |steps| ==> Internal(steps[i])
    ensures |steps| <= Work(s)
    decreases |steps|
  {
    if steps != [] {
      assert Work(Apply(s, steps[0])) < Work(s);
      InternalRunsEnd(Apply(s, steps[0]), steps[1..]);
    }
  }

  /** ...and they run out only when every record has been published, has failed or was dropped. */
  lemma QuietMeansDrained<R(!new)>(size: int, steps: seq<Step<R>>)
    requires Runs(Init(size), steps)
    ensures var s := After(Init(size), steps);
            !s.pub.Stopped? && (forall step: Step<R> :: Internal(step) ==> !Enabled(s, step)) ==>
              s.queue == [] && |s.arrived| == s.published + s.failed + s.dropped
  {
    EveryRun(size, steps);
    var s := After(Init(size), steps);
    assert Internal<R>(Signal) && Internal<R>(Look) && Internal<R>(Wake) && Internal<R>(Publish);
  }

  // ---- The sink itself ----

  class Sink<R> {
    const size: nat
    var queue: seq<R>
    var wake: bool
    var published: nat
    var failed: nat
    var dropped: nat

    // where the threads stand, and what went by
    ghost var signals: nat
    ghost var pub: Publisher<R>
    ghost var arrived: seq<R>
    ghost var left: seq<Departure<R>>
    ghost var settled: seq<R>

    constructor (size: int)
      ensures St() == Init(size) && this.size == (if size < 1 then 1 else size) && queue == []
    {
      this.size := if size < 1 then 1 else size;
      queue, wake, published, failed, dropped := [], false, 0, 0, 0;
      signals, pub, arrived, left, settled := 0, Looking, [], [], [];
    }

    ghost function St(): State<R>
      reads this
    {
      State(size, queue, wake, signals, pub, published, failed, dropped, arrived, left, settled)
    }

    method AppendLocked(r: R)
      requires Inv(St())
      modifies this
      ensures St() == Apply(old(St()), Append(r)) && Inv(St())
      ensures old(|queue|) < size ==> queue == old(queue) + [r] && dropped == old(dropped)
      ensures old(|queue|) == size ==> queue == old(queue)[1..] + [r] && dropped == old(dropped) + 1
    {
      StepKeeps(St(), Append(r));
      if |queue| >= size {
        left := left + [Dropped(queue[0])];
        queue := queue[1..];
        dropped := dropped + 1;
      }
      queue := queue + [r];
      arrived := arrived + [r];
      signals := signals + 1;
    }

    method SignalWake()
      requires Inv(St()) && signals > 0
      modifies this
      ensures St() == Apply(old(St()), Signal) && Inv(St())
    {
      StepKeeps(St(), Signal);
      if !wake {
        wake := true;
      }
      signals := signals - 1;
    }

    /** One call with nothing in between. */
    method Enqueue(r: R)
      requires Inv(St())
      modifies this
      ensures St() == Apply(Apply(old(St()), Append(r)), Signal) && Inv(St())
      ensures old(|queue|) < size ==> queue == old(queue) + [r] && dropped == old(dropped)
      ensures old(|queue|) == size ==> queue == old(queue)[1..] + [r] && dropped == old(dropped) + 1
      ensures |queue| <= size && wake
    {
      AppendLocked(r);
      SignalWake();
    }

    method Len() returns (n: nat)
      requires Inv(St())
      ensures n == |queue| <= size
    {
      n := |queue|;
    }

    method Next() returns (ok: bool, r: seq<R>)
      requires Inv(St()) && pub.Looking?
      modifies this
      ensures St() == Apply(old(St()), Look) && Inv(St())
      ensures ok <==> old(queue) != []
      ensures r == (if ok then [old(queue)[0]] else []) && InFlight(St()) == r
      ensures queue == if ok then old(queue)[1..] else []
    {
      StepKeeps(St(), Look);
      if |queue| == 0 {
        pub := Waiting;
        return false, [];
      }
      r := [queue[0]];
      left := left + [Taken(queue[0])];
      pub := Publishing(queue[0]);
      queue := queue[1..];
      return true, r;
    }

    /** Counts the outcome of the record in flight; stop says the context ended under it. */
    method Finish(ok: bool, stop: bool)
      requires Inv(St()) && pub.Publishing?
      modifies this
      ensures St() == Apply(old(St()), if ok then Publish else if stop then FailAndStop else Fail) && Inv(St())
      ensures published == old(published) + (if ok then 1 else 0) && failed == old(failed) + (if ok then 0 else 1)
      ensures queue == old(queue) && (pub.Stopped? <==> !ok && stop)
    {
      StepKeeps(St(), if ok then Publish else if stop then FailAndStop else Fail);
      settled := settled + [pub.record];
      if !ok {
        failed := failed + 1;
        pub := if stop then Stopped else Looking;
        return;
      }
      published := published + 1;
      pub := Looking;
    }
  }
}
