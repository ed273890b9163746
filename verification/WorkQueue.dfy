/**
 * The double-buffered queue between a producer and a worker thread, as both worker classes have it: items are
 * pushed into a shared vector under a lock; the worker swaps the vector out, processes its batch without the
 * lock, and after it has been told to stop drains the shared vector while holding the lock.
 */
module WorkQueues {
  import opened Text

  /** Where the worker is in its loop. */
  datatype At = Checking | Waiting | Processing | Draining | Finished

  datatype Queue<T> = Queue(
    shared: seq<T>,       // the vector guarded by the lock
    batch: seq<T>,        // what is left to do of the vector swapped out
    at: At,
    run: bool,            // thread_run_
    arrived: seq<T>,      // history: everything ever added
    processed: seq<T>,    // history: everything handed to the processing function
    cut: nat              // history: how much had arrived when the final drain took the lock
  )

  datatype Act<T> =
    | Add(item: T)        // producer
    | Stop                // owner: clear the run flag
    | Enter               // worker: loop test says run
    | Swap                // worker: woken by the flag or by an item, swaps under the lock
    | Take                // worker: processes the next item of its batch
    | Clear               // worker: batch done, back to the loop test
    | Lock                // worker: loop test says stop, takes the lock for good
    | Drain               // worker: processes the next item of the shared vector
    | Finish              // worker: shared vector done

  predicate Enabled<T>(q: Queue<T>, a: Act<T>) {
    match a
    case Add(_) => q.at != Draining
    case Stop => true
    case Enter => q.at == Checking && q.run
    case Swap => q.at == Waiting && (!q.run || |q.shared| > 0)
    case Take => q.at == Processing && |q.batch| > 0
    case Clear => q.at == Processing && |q.batch| == 0
    case Lock => q.at == Checking && !q.run
    case Drain => q.at == Draining && |q.shared| > 0
    case Finish => q.at == Draining && |q.shared| == 0
  }

  function Next<T>(q: Queue<T>, a: Act<T>): Queue<T>
    requires Enabled(q, a)
  {
    match a
    case Add(x) => q.(shared := q.shared + [x], arrived := q.arrived + [x])
    case Stop => q.(run := false)
    case Enter => q.(at := Waiting)
    case Swap => q.(shared := q.batch, batch := q.shared, at := Processing)
    case Take => q.(batch := q.batch[1..], processed := q.processed + [q.batch[0]])
    case Clear => q.(at := Checking)
    case Lock => q.(at := Draining, cut := |q.arrived|)
    case Drain => q.(shared := q.shared[1..], processed := q.processed + [q.shared[0]])
    case Finish => q.(at := Finished)
  }

  function New<T>(): Queue<T> {
    Queue([], [], Checking, true, [], [], 0)
  }

  /** What was processed, what is left of the batch and what is shared make up the arrivals, in that order. */
  ghost predicate Ordered<T>(q: Queue<T>) {
    && q.processed + q.batch + q.shared == q.arrived
    && (q.at != Processing ==> q.batch == [])
    && (q.at in {Draining, Finished} ==> !q.run)
    && (q.at == Draining ==> q.cut == |q.arrived|)
    && (q.at == Finished ==> q.cut <= |q.arrived| && q.processed == q.arrived[..q.cut])
  }

  lemma {:induction false} OrderedStep<T>(q: Queue<T>, a: Act<T>)
    requires Ordered(q) && Enabled(q, a)
    ensures Ordered(Next(q, a))
  {
    match a
    case Add(x) =>
      Assoc(q.processed + q.batch, q.shared, [x]);
      if q.at == Finished {
        assert (q.arrived + [x])[..q.cut] == q.arrived[..q.cut];
      }
    case Stop =>
    case Enter =>
    case Swap => SwapOrder(q.processed, q.shared);
    case Take => TakeOrder(q.processed, q.batch, q.shared);
    case Clear =>
    case Lock =>
    case Drain => DrainOrder(q.processed, q.batch, q.shared);
    case Finish => FinishOrder(q.processed, q.batch, q.shared);
  }

  lemma {:induction false} SwapOrder<T>(p: seq<T>, s: seq<T>)
    ensures p + [] + s == p + s + []
  {
  }

  lemma {:induction false} TakeOrder<T>(p: seq<T>, b: seq<T>, s: seq<T>)
    requires |b| > 0
    ensures p + [b[0]] + b[1..] + s == p + b + s
  {
    assert [b[0]] + b[1..] == b;
    Assoc(p, [b[0]], b[1..]);
  }

  lemma {:induction false} DrainOrder<T>(p: seq<T>, b: seq<T>, s: seq<T>)
    requires b == [] && |s| > 0
    ensures p + [s[0]] + b + s[1..] == p + b + s
  {
    EmptyUnit(b, p + [s[0]]);
    EmptyUnit(b, p);
    Assoc(p, [s[0]], s[1..]);
    assert [s[0]] + s[1..] == s;
  }

  lemma {:induction false} FinishOrder<T>(p: seq<T>, b: seq<T>, s: seq<T>)
    requires b == [] && s == []
    ensures (p + b + s)[..|p + b + s|] == p
  {
  }

  /** The states reached by a sequence of acts, each enabled when it happens. */
  function Exec<T>(acts: seq<Act<T>>): Option<Queue<T>> {
    if |acts| == 0 then Some(New())
    else
      match Exec(acts[..|acts| - 1])
      case None => None
      case Some(q) => if Enabled(q, acts[|acts| - 1]) then Some(Next(q, acts[|acts| - 1])) else None
  }

  /**
   * Under any interleaving of producers, worker and stop: nothing is lost, repeated or reordered, and once the
   * worker has finished everything added before its final drain took the lock has been processed.
   */
  lemma {:induction false} DoubleBuffer<T>(acts: seq<Act<T>>)
    requires Exec(acts).Some?
    ensures var q := Exec(acts).value;
            && Ordered(q)
            && q.processed <= q.arrived
            && (q.at == Finished ==> q.processed == q.arrived[..q.cut])
  {
    if |acts| > 0 {
      DoubleBuffer(acts[..|acts| - 1]);
      OrderedStep(Exec(acts[..|acts| - 1]).value, acts[|acts| - 1]);
    }
    var q := Exec(acts).value;
    Assoc(q.processed, q.batch, q.shared);
  }

  // ---------- a running worker takes everything up ----------

  predicate ByWorker<T>(a: Act<T>) {
    !a.Add? && !a.Stop?
  }

  /** The worker's next act while it has something to do. */
  function Forward<T>(q: Queue<T>): Act<T>
    requires q.at != Finished
  {
    match q.at
    case Checking => if q.run then Enter else Lock
    case Waiting => Swap
    case Processing => if |q.batch| > 0 then Take else Clear
    case Draining => if |q.shared| > 0 then Drain else Finish
  }

  /** The worker rests only when it has finished, or waits in a running system with nothing to do. */
  lemma {:induction false} RestsOnlyWhenIdle<T>(acts: seq<Act<T>>, a: Act<T>)
    requires Exec(acts).Some?
    ensures var q := Exec(acts).value;
            ((forall b: Act<T> :: ByWorker(b) ==> !Enabled(q, b)) <==>
               q.at == Finished || (q.at == Waiting && q.run && q.shared == []))
            && (a.Add? ==> (Exec(acts + [a]).Some? <==> q.at != Draining))
            && (a.Stop? ==> Exec(acts + [a]).Some?)
  {
    var q := Exec(acts).value;
    assert (acts + [a])[..|acts|] == acts;
    if q.at != Finished && !(q.at == Waiting && q.run && q.shared == []) {
      assert Enabled(q, Forward(q)) && ByWorker(Forward(q));
    }
  }

  /** How far a running worker is from having something in its batch. */
  function Turn<T>(q: Queue<T>): nat {
    match q.at
    case Processing => if |q.batch| > 0 then 0 else 3
    case Checking => 2
    case Waiting => 1
    case _ => 0
  }

  lemma {:induction false} ForwardStep<T>(q: Queue<T>)
    requires Ordered(q) && q.run && |q.shared| + |q.batch| > 0
    ensures Enabled(q, Forward(q)) && ByWorker(Forward(q))
    ensures var n := Next(q, Forward(q));
            && n.run && n.arrived == q.arrived
            && (|n.shared| + |n.batch| < |q.shared| + |q.batch| ||
                (|n.shared| + |n.batch| == |q.shared| + |q.batch| && Turn(n) < Turn(q)))
  {
  }

  /** While it has not been told to stop, a worker by itself can always get everything done that has been added. */
  lemma {:induction false} CatchesUp<T>(acts: seq<Act<T>>) returns (more: seq<Act<T>>)
    requires Exec(acts).Some? && Exec(acts).value.run
    ensures forall i :: 0 <= i < |more| ==> ByWorker(more[i])
    ensures Exec(acts + more).Some?
    ensures var q := Exec(acts + more).value;
            q.run && q.arrived == Exec(acts).value.arrived && q.processed == q.arrived
    decreases |Exec(acts).value.shared| + |Exec(acts).value.batch|, Turn(Exec(acts).value)
  {
    var q := Exec(acts).value;
    DoubleBuffer(acts);
    if |q.shared| + |q.batch| == 0 {
      more := [];
      EmptyUnit(more, acts);
      EmptyUnit(q.batch, q.processed);
      EmptyUnit(q.shared, q.processed);
    } else {
      ForwardStep(q);
      var a := Forward(q);
      assert (acts + [a])[..|acts|] == acts;
      more := CatchesUp(acts + [a]);
      Assoc(acts, [a], more);
      more := [a] + more;
    }
  }
}
