/**
 The prefetching random source: a results queue fed by background draw
 tasks, and a `get` that tops the queue up before it takes a value.

 Threads are not modelled. A source is an immutable record of what can be
 observed about it: the values waiting in the FIFO queue, the number of
 draw tasks started and not yet finished, and the handles of the latest
 batch of tasks. A task finishing is an explicit step (`Complete`, or
 `Fault` when the generator raised), so every interleaving of tasks with
 the consumer is a sequence of steps. The generator and its values are
 opaque: a step that finishes a task is given the value it drew, and the
 conversion to the source's element type is a function passed to `Get`.
 */
module AsyncRandom {
  import opened Wrappers
  import opened Combinators

  /** One draw task: the arguments it hands to the generator. The generator
      and the queue a task uses are always those of its source. */
  datatype Task<A> = Task(args: A)

  /** What can be observed about a source: its queue (oldest value first),
      how many draw tasks are in flight, and the latest batch of handles. */
  datatype Source<A, V> = Source(queue: seq<V>, inflight: nat, threads: seq<Task<A>>)

  /** Values the consumer can still obtain: those queued plus those owed by
      tasks in flight. */
  function Total<A, V>(s: Source<A, V>): nat
  {
    |s.queue| + s.inflight
  }

  /** A value taken from a source, with the source that remains. */
  datatype Reply<A, V, W> = Reply(next: Source<A, V>, value: W)

  /** A freshly constructed source: an empty queue and no draws in flight.
      The handle list does not exist before the first spawn; it is empty here. */
  function Init<A, V>(): (s: Source<A, V>)
    ensures s.queue == [] && s.inflight == 0
    ensures Total(s) == 0
  {
    Source([], 0, [])
  }

  /** The length of Python's `range(n)`: the larger of `n` and 0, so a
      negative count gives no iterations. */
  function RangeLength(n: int): (r: nat)
    ensures r >= n
    ensures r == 0 || r == n
  {
    if n <= 0 then 0 else n
  }

  /** The handle list `spawn` builds: `n` tasks, all with the same arguments. */
  function Batch<A>(args: A, n: int): (b: seq<Task<A>>)
    ensures |b| == RangeLength(n)
    ensures forall i :: 0 <= i < |b| ==> b[i] == Task(args)
    decreases n
  {
    if n <= 0 then [] else Batch(args, n - 1) + [Task(args)]
  }

  /** `spawn(*args, num_threads=n)`: starts `n` draw tasks with the same
      arguments, does not wait for them, and keeps only this batch's handles. */
  function Spawn<A, V>(s: Source<A, V>, args: A, n: int): (t: Source<A, V>)
    ensures t.queue == s.queue
    ensures t.inflight == s.inflight + RangeLength(n)
    ensures |t.threads| == RangeLength(n)
    ensures forall i :: 0 <= i < |t.threads| ==> t.threads[i].args == args
  {
    s.(inflight := s.inflight + RangeLength(n), threads := Batch(args, n))
  }

  /** A draw task running to completion: its one value goes to the back of
      the queue. Only a task in flight can complete. */
  function Complete<A, V>(s: Source<A, V>, v: V): (t: Source<A, V>)
    requires s.inflight > 0
    ensures t.queue == s.queue + [v]
    ensures t.inflight == s.inflight - 1
    ensures Total(t) == Total(s)
  {
    s.(queue := s.queue + [v], inflight := s.inflight - 1)
  }

  /** A draw task whose generator call raised: the task ends and nothing is
      queued, so the value it owed is lost. */
  function Fault<A, V>(s: Source<A, V>): (t: Source<A, V>)
    requires s.inflight > 0
    ensures t.queue == s.queue
    ensures Total(t) == Total(s) - 1
  {
    s.(inflight := s.inflight - 1)
  }

  /** Several draw tasks completing in the order given. */
  function Deliver<A, V>(s: Source<A, V>, vs: seq<V>): (t: Source<A, V>)
    requires |vs| <= s.inflight
    ensures t.queue == s.queue + vs
    ensures t.inflight == s.inflight - |vs|
    ensures t.threads == s.threads
    decreases |vs|
  {
    if vs == [] then s else Deliver(Complete(s, vs[0]), vs[1..])
  }

  /** The first half of `get`: two draws when the queue is seen empty, one
      otherwise. Afterwards at least one task is in flight, so the dequeue
      that follows always has a producer behind it. */
  function Refill<A, V>(s: Source<A, V>, args: A): (t: Source<A, V>)
    ensures t.queue == s.queue
    ensures s.queue == [] ==> t.inflight == s.inflight + 2
    ensures s.queue != [] ==> t.inflight == s.inflight + 1
    ensures t.inflight >= 1 && Total(t) >= 2
  {
    if s.queue == [] then Spawn(s, args, 2) else Spawn(s, args, 1)
  }

  /** The blocking dequeue: removes and returns the oldest queued value. */
  function Take<A, V>(s: Source<A, V>): (r: Reply<A, V, V>)
    requires s.queue != []
    ensures [r.value] + r.next.queue == s.queue
    ensures r.next.inflight == s.inflight
    ensures r.next.threads == s.threads
  {
    Reply(s.(queue := s.queue[1..]), s.queue[0])
  }

  /** The dequeue after a refill can finish when the tasks that complete
      while the consumer waits were in flight and leave something to take. */
  predicate CanFinish<A, V>(s: Source<A, V>, arrivals: seq<V>)
    ensures |arrivals| <= s.inflight ==> (CanFinish(s, arrivals) <==> Deliver(s, arrivals).queue != [])
    ensures CanFinish(s, arrivals) ==> |arrivals| <= s.inflight
  {
    |arrivals| <= s.inflight && |s.queue| + |arrivals| > 0
  }

  /** `get(*args)`: refill, let the tasks `arrivals` complete while the
      consumer waits, take the oldest value and convert it with `dtype`. */
  function Get<A, V, W>(s: Source<A, V>, args: A, arrivals: seq<V>, dtype: V -> W): (r: Reply<A, V, W>)
    requires CanFinish(Refill(s, args), arrivals)
    ensures r.value == dtype((s.queue + arrivals)[0])
    ensures r.next.queue == (s.queue + arrivals)[1..]
    ensures |r.next.queue| == |s.queue| + |arrivals| - 1
    ensures s.queue == [] ==> Total(r.next) == Total(s) + 1
    ensures s.queue != [] ==> Total(r.next) == Total(s)
    ensures r.next.threads == Batch(args, if s.queue == [] then 2 else 1)
  {
    var observed := Refill(s, args);
    var filled := Deliver(observed, arrivals);
    var taken := Take(filled);
    Reply(taken.next, dtype(taken.value))
  }

  // ----- properties of single steps -----

  /** The first `get` on a fresh source starts two draws. */
  lemma FirstGetSpawnsTwo<A, V>(args: A)
    ensures Refill(Init<A, V>(), args).inflight == 2
  {
  }

  /** Each `spawn` adds its tasks to those in flight, but only the latest
      batch of handles is kept. */
  lemma SpawnKeepsLatestBatch<A, V>(s: Source<A, V>, a1: A, n1: int, a2: A, n2: int)
    ensures Spawn(Spawn(s, a1, n1), a2, n2).inflight == s.inflight + RangeLength(n1) + RangeLength(n2)
    ensures Spawn(Spawn(s, a1, n1), a2, n2).threads == Batch(a2, n2)
  {
  }

  /** Without a task completing, a `get` can finish exactly when it sees a
      non-empty queue; with one completion it always can. */
  lemma GetCanFinish<A, V>(s: Source<A, V>, args: A, v: V)
    ensures CanFinish(Refill(s, args), []) <==> s.queue != []
    ensures CanFinish(Refill(s, args), [v])
  {
  }

  // ----- runs of steps -----

  /** What happens to a source: a task completes with a value, a task
      faults, or the consumer calls `get`, during which the tasks `arrivals`
      complete. */
  datatype Event<A, V> = Arrive(v: V) | Drop | Call(args: A, arrivals: seq<V>)

  /** One event, or `None` when it cannot happen in `s`: a task can only
      finish while one is in flight, and a `get` only returns once its
      dequeue is served. A `get` returns one value, other events none. */
  function Step<A, V, W>(s: Source<A, V>, e: Event<A, V>, dtype: V -> W): (r: Option<Reply<A, V, seq<W>>>)
    ensures !e.Call? ==> (r.Some? <==> s.inflight > 0)
    ensures e.Call? ==> (r.Some? <==> CanFinish(Refill(s, e.args), e.arrivals))
    ensures r.Some? ==> |r.value.value| == Takes(e)
  {
    match e
    case Arrive(v) => if s.inflight > 0 then Some(Reply(Complete(s, v), [])) else None
    case Drop => if s.inflight > 0 then Some(Reply(Fault(s), [])) else None
    case Call(args, arrivals) =>
      if CanFinish(Refill(s, args), arrivals) then
        var r := Get(s, args, arrivals, dtype);
        Some(Reply(r.next, [r.value]))
      else None
  }

  /** The end of a run and the values its `get` calls returned, in order. */
  datatype Run<A, V, W> = Run(final: Source<A, V>, values: seq<W>)

  /** The events of a run in order, or `None` when one of them cannot
      happen. A run that happens returns exactly one value per `get`. */
  function Execute<A, V, W>(s: Source<A, V>, evs: seq<Event<A, V>>, dtype: V -> W): (r: Option<Run<A, V, W>>)
    ensures evs == [] ==> r == Some(Run(s, []))
    ensures r.Some? ==> |r.value.values| == Calls(evs)
    decreases |evs|
  {
    if evs == [] then Some(Run(s, []))
    else
      match Step(s, evs[0], dtype)
      case None => None
      case Some(r) =>
        match Execute(r.next, evs[1..], dtype)
        case None => None
        case Some(rest) => Some(Run(rest.final, r.value + rest.values))
  }

  /** The values an event puts on the queue, in completion order. */
  function Arrivals<A, V>(e: Event<A, V>): seq<V>
  {
    match e
    case Arrive(v) => [v]
    case Drop => []
    case Call(_, arrivals) => arrivals
  }

  /** The values that reach the queue during a run, in completion order. */
  function Arrived<A, V>(evs: seq<Event<A, V>>): seq<V>
    decreases |evs|
  {
    if evs == [] then [] else Arrivals(evs[0]) + Arrived(evs[1..])
  }

  /** The number of values an event takes off the queue. */
  function Takes<A, V>(e: Event<A, V>): nat
  {
    if e.Call? then 1 else 0
  }

  /** The number of `get` calls in a run. */
  function Calls<A, V>(evs: seq<Event<A, V>>): nat
    decreases |evs|
  {
    if evs == [] then 0 else Takes(evs[0]) + Calls(evs[1..])
  }

  lemma SeqAssoc<V>(p: seq<V>, q: seq<V>, u: seq<V>)
    ensures p + (q + u) == (p + q) + u
  {
  }

  lemma Regroup<V>(p: seq<V>, q: seq<V>, k: nat)
    requires k <= |q|
    ensures (p + q)[..|p| + k] == p + q[..k]
    ensures (p + q)[|p| + k..] == q[k..]
  {
  }

  /** The bookkeeping of one step of a run: the step takes `taken` and
      leaves `q1` of `q0 + a`; the rest of the run arrives `r` and takes `k`. */
  lemma StreamGlue<V, W>(dtype: V -> W, q0: seq<V>, a: seq<V>, r: seq<V>, taken: seq<V>, q1: seq<V>, k: nat)
    requires q0 + a == taken + q1
    requires k <= |q1 + r|
    ensures |taken| + k <= |q0 + (a + r)|
    ensures Apply(dtype, taken) + Apply(dtype, (q1 + r)[..k]) == Apply(dtype, (q0 + (a + r))[..|taken| + k])
    ensures (q1 + r)[k..] == (q0 + (a + r))[|taken| + k..]
  {
    SeqAssoc(q0, a, r);
    SeqAssoc(taken, q1, r);
    Regroup(taken, q1 + r, k);
    ApplyConcat(dtype, taken, (q1 + r)[..k]);
  }

  /** A run that succeeds takes its first step and then runs the rest. */
  lemma ExecuteCons<A, V, W>(s: Source<A, V>, evs: seq<Event<A, V>>, dtype: V -> W)
    requires evs != [] && Execute(s, evs, dtype).Some?
    ensures Step(s, evs[0], dtype).Some?
    ensures Execute(Step(s, evs[0], dtype).value.next, evs[1..], dtype).Some?
    ensures Execute(s, evs, dtype).value.final
         == Execute(Step(s, evs[0], dtype).value.next, evs[1..], dtype).value.final
    ensures Execute(s, evs, dtype).value.values
         == Step(s, evs[0], dtype).value.value + Execute(Step(s, evs[0], dtype).value.next, evs[1..], dtype).value.values
  {
  }

  /** One event is FIFO: the queue followed by what the event delivers is
      what the event takes, converted, followed by the queue it leaves. */
  lemma StepIsFifo<A, V, W>(s: Source<A, V>, e: Event<A, V>, dtype: V -> W)
    requires Step(s, e, dtype).Some?
    ensures Takes(e) <= |s.queue + Arrivals(e)|
    ensures Step(s, e, dtype).value.value == Apply(dtype, (s.queue + Arrivals(e))[..Takes(e)])
    ensures Step(s, e, dtype).value.next.queue == (s.queue + Arrivals(e))[Takes(e)..]
  {
    var stream := s.queue + Arrivals(e);
    match e
    case Arrive(v) =>
    case Drop =>
    case Call(args, arrivals) =>
      var g := Get(s, args, arrivals, dtype);
      assert stream[..1] == [stream[0]];
      assert Apply(dtype, [stream[0]]) == [dtype(stream[0])];
  }

  /** A run is FIFO and loses or duplicates nothing: the values queued at
      the start followed by every value that arrived form one stream; the
      `get` calls return its first values, one per call, converted, and the
      rest is what stays queued. */
  lemma {:induction false} ExecuteIsFifo<A, V, W>(s: Source<A, V>, evs: seq<Event<A, V>>, dtype: V -> W)
    requires Execute(s, evs, dtype).Some?
    ensures Calls(evs) <= |s.queue + Arrived(evs)|
    ensures Execute(s, evs, dtype).value.values == Apply(dtype, (s.queue + Arrived(evs))[..Calls(evs)])
    ensures Execute(s, evs, dtype).value.final.queue == (s.queue + Arrived(evs))[Calls(evs)..]
    decreases |evs|
  {
    if evs == [] {
      assert s.queue + Arrived(evs) == s.queue;
    } else {
      var e := evs[0];
      var rest := evs[1..];
      ExecuteCons(s, evs, dtype);
      var r := Step(s, e, dtype).value;
      StepIsFifo(s, e, dtype);
      ExecuteIsFifo(r.next, rest, dtype);
      var here := s.queue + Arrivals(e);
      assert Arrived(evs) == Arrivals(e) + Arrived(rest);
      assert Calls(evs) == Takes(e) + Calls(rest);
      assert here == here[..Takes(e)] + r.next.queue;
      StreamGlue(dtype, s.queue, Arrivals(e), Arrived(rest), here[..Takes(e)], r.next.queue, Calls(rest));
    }
  }

  /** `get` calls that each find the queue empty and are each served by one
      completion. */
  function Starved<A, V>(args: A, v: V, n: nat): (evs: seq<Event<A, V>>)
    ensures |evs| == n
    decreases n
  {
    if n == 0 then [] else [Call(args, [v])] + Starved(args, v, n - 1)
  }

  /** Outstanding work has no bound: every `get` that finds the queue empty
      and is served by one completion leaves one more task in flight. */
  lemma {:induction false} StarvedGetsPileUpWork<A, V, W>(s: Source<A, V>, args: A, v: V, dtype: V -> W, n: nat)
    requires s.queue == []
    ensures Execute(s, Starved(args, v, n), dtype).Some?
    ensures Execute(s, Starved(args, v, n), dtype).value.final.queue == []
    ensures Execute(s, Starved(args, v, n), dtype).value.final.inflight == s.inflight + n
    decreases n
  {
    var evs := Starved(args, v, n);
    if n > 0 {
      assert evs[0] == Call(args, [v]);
      assert evs[1..] == Starved(args, v, n - 1);
      assert CanFinish(Refill(s, args), [v]);
      var g := Get(s, args, [v], dtype);
      assert g.next.queue == [];
      assert Total(g.next) == Total(s) + 1;
      assert Step(s, evs[0], dtype) == Some(Reply(g.next, [g.value]));
      StarvedGetsPileUpWork(g.next, args, v, dtype, n - 1);
    }
  }
}
