/**
 * Callers of invoke racing with the dispatcher. A call registers its pipe, writes its action, waits (with or
 * without a time limit), and gets the outcome; the server answers what has been written.
 */
module Invocation {
  import opened Text
  import opened Messages
  import opened EventLists
  import opened Dispatch

  datatype Phase =
    | Registered                    // get_event_pipe done, action not yet written
    | Waiting                       // action written, waiting on the future
    | Expired                       // wait_for returned timeout, the pipe not yet closed
    | Ready                         // about to call get
    | Returned(outcome: Outcome)

  datatype Call = Call(id: string, timed: bool, pipe: nat, phase: Phase)

  datatype World = World(
    disp: State,
    calls: map<nat, Call>,
    written: set<string>,           // identifiers of actions on the wire
    async: set<string>,             // of these, the ones written by async_invoke
    inFlight: seq<Dict>,            // emitted by the server, not yet routed; delivered in order
    called: seq<Dict>               // calls of the notification callback, made without a lock
  )

  datatype Step =
    | Begin(c: nat, id: string, timed: bool)
    | Write(c: nat)
    | Async(id: string)
    | Emit(event: Dict)
    | Deliver                       // dispatcher thread, under its locks: route the next event
    | CallBack                      // dispatcher thread, without a lock: hand over an event nobody waited for
    | Expire(c: nat)
    | Abort(c: nat)
    | Notice(c: nat)
    | Get(c: nat)

  const IDLE := World(INIT, map[], {}, {}, [], [])

  function TimeoutText(id: string): string {
    "Event timeout: Timeout waiting for event; ActionID=" + id
  }

  predicate InPhase(w: World, c: nat, ph: Phase) {
    c in w.calls && w.calls[c].phase == ph
  }

  /** What the future of a call holds, if anything yet. */
  function OutcomeOf(w: World, c: nat): Option<Outcome> {
    if c in w.calls && w.calls[c].pipe < |w.disp.pipes| then w.disp.pipes[w.calls[c].pipe].outcome else None
  }

  predicate IsSettled(w: World, c: nat) {
    OutcomeOf(w, c).Some?
  }

  predicate CanHappen(w: World, st: Step) {
    match st
    case Begin(c, _, _) => c !in w.calls
    case Write(c) => InPhase(w, c, Registered)
    case Async(_) => true
    case Emit(e) => IdOf(e).None? || IdOf(e).value in w.written
    case Deliver => |w.inFlight| > 0 && |w.called| == |w.disp.unclaimed|
    case CallBack => |w.called| < |w.disp.unclaimed|
    case Expire(c) => InPhase(w, c, Waiting) && w.calls[c].timed && !IsSettled(w, c)
    case Abort(c) => InPhase(w, c, Expired)
    case Notice(c) => InPhase(w, c, Waiting) && w.calls[c].timed && IsSettled(w, c)
    case Get(c) => IsSettled(w, c) && (InPhase(w, c, Ready) || (InPhase(w, c, Waiting) && !w.calls[c].timed))
  }

  function Advance(w: World, c: nat, ph: Phase): World
    requires c in w.calls
  {
    w.(calls := w.calls[c := w.calls[c].(phase := ph)])
  }

  function After(w: World, st: Step): World
    requires Settlement(w.disp) && CanHappen(w, st)
  {
    match st
    case Begin(c, id, timed) =>
      w.(disp := Apply(w.disp, Register(id)),
         calls := w.calls[c := Call(id, timed, |w.disp.pipes|, Registered)])
    case Write(c) => Advance(w, c, Waiting).(written := w.written + {w.calls[c].id})
    case Async(id) => w.(written := w.written + {id}, async := w.async + {id})
    case Emit(e) => w.(inFlight := w.inFlight + [e])
    case Deliver => w.(disp := Apply(w.disp, Arrive(w.inFlight[0])), inFlight := w.inFlight[1..])
    case CallBack => w.(called := w.called + [w.disp.unclaimed[|w.called|]])
    case Expire(c) => Advance(w, c, Expired)
    case Abort(c) =>
      Advance(w, c, Ready).(disp := Apply(w.disp, Fail(w.calls[c].id, TimeoutText(w.calls[c].id))))
    case Notice(c) => Advance(w, c, Ready)
    case Get(c) => Advance(w, c, Returned(w.disp.pipes[w.calls[c].pipe].outcome.value))
  }

  // ---------- what holds whatever the identifiers ----------

  ghost predicate CallInv(w: World, c: nat)
    requires c in w.calls
  {
    var call := w.calls[c];
    && call.pipe < |w.disp.pipes| && w.disp.pipes[call.pipe].id == call.id
    && (call.phase == Ready ==> w.disp.pipes[call.pipe].outcome.Some?)
    && (call.phase.Returned? ==> w.disp.pipes[call.pipe].outcome == Some(call.phase.outcome))
    && (call.phase == Expired ==> call.timed)
  }

  /** The one dispatcher thread calls back in order, and routes nothing before the call for the last event is made. */
  predicate CallbackInv(w: World) {
    w.called <= w.disp.unclaimed && |w.disp.unclaimed| <= |w.called| + 1
  }

  /** The event, if any, that has been left to the callback but not handed to it yet. */
  function Outstanding(w: World): seq<Dict>
    requires CallbackInv(w)
  {
    w.disp.unclaimed[|w.called|..]
  }

  ghost predicate Inv(w: World) {
    Valid(w.disp) && CallbackInv(w) && forall c :: c in w.calls ==> CallInv(w, c)
  }

  ghost predicate HasCall(w: World, k: nat) {
    exists c :: c in w.calls && w.calls[c].pipe == k
  }

  /** The identifier was written by async_invoke or by a call that is past registration. */
  ghost predicate HasWriter(w: World, id: string) {
    id in w.async || exists c :: c in w.calls && w.calls[c].id == id && w.calls[c].phase != Registered
  }

  /** Every pipe is some call's, and events are only of identifiers on the wire. */
  ghost predicate Traceable(w: World) {
    && (forall k :: 0 <= k < |w.disp.pipes| ==> HasCall(w, k))
    && (forall id :: id in w.written ==> HasWriter(w, id))
    && (forall i :: 0 <= i < |w.inFlight| ==> IdOf(w.inFlight[i]).Some? ==> IdOf(w.inFlight[i]).value in w.written)
    && (forall i :: 0 <= i < |w.disp.unclaimed| ==>
          IdOf(w.disp.unclaimed[i]).Some? ==> IdOf(w.disp.unclaimed[i]).value in w.written)
  }

  /** The dispatcher's step in a step of the world, if it has one. */
  function OpOf(w: World, st: Step): Option<Op>
    requires CanHappen(w, st)
  {
    match st
    case Begin(_, id, _) => Some(Register(id))
    case Deliver => Some(Arrive(w.inFlight[0]))
    case Abort(c) => Some(Fail(w.calls[c].id, TimeoutText(w.calls[c].id)))
    case _ => None
  }

  /** Pipes stay whose they are, and settled ones stay as they are. */
  ghost predicate Extends(s: State, t: State) {
    |s.pipes| <= |t.pipes| &&
    forall k :: 0 <= k < |s.pipes| ==>
      t.pipes[k].id == s.pipes[k].id && (s.pipes[k].outcome.Some? ==> t.pipes[k] == s.pipes[k])
  }

  lemma {:induction false} DispatcherMoves(w: World, st: Step)
    requires Inv(w) && CanHappen(w, st)
    ensures var o := OpOf(w, st);
            After(w, st).disp == if o.Some? then Apply(w.disp, o.value) else w.disp
    ensures Valid(After(w, st).disp) && Extends(w.disp, After(w, st).disp)
  {
    hide Apply, WellFormed, Assembling;
    var o := OpOf(w, st);
    if o.Some? {
      StepKeeps(w.disp, o.value);
      forall k: nat | k < |w.disp.pipes|
        ensures k < |Apply(w.disp, o.value).pipes|
        ensures Apply(w.disp, o.value).pipes[k].id == w.disp.pipes[k].id
        ensures w.disp.pipes[k].outcome.Some? ==> Apply(w.disp, o.value).pipes[k] == w.disp.pipes[k]
      {
        SettledForever(w.disp, o.value, k);
      }
      if |w.disp.pipes| > 0 {
        SettledForever(w.disp, o.value, |w.disp.pipes| - 1);
      }
    }
  }

  lemma {:induction false} InvStep(w: World, st: Step)
    requires Inv(w) && CanHappen(w, st)
    ensures Inv(After(w, st))
  {
    hide Assembly, Settlement, Apply, CallbackInv, TimeoutText;
    DispatcherMoves(w, st);
    CallbackStep(w, st);
    match st
    case Begin(c, id, _) => NewPipe(w.disp, id);
    case Abort(c) =>
      assert CallInv(w, c);
      CloseSettlesAll(w.disp, w.calls[c].id, Error(TimeoutText(w.calls[c].id)), w.calls[c].pipe);
      ApplyFail(w.disp, w.calls[c].id, TimeoutText(w.calls[c].id));
    case _ =>
  }

  /** Neither what is left to the callback nor what was handed to it is ever taken back. */
  lemma {:induction false} CallbackStep(w: World, st: Step)
    requires Valid(w.disp) && CallbackInv(w) && CanHappen(w, st)
    ensures CallbackInv(After(w, st))
    ensures w.called <= After(w, st).called && w.disp.unclaimed <= After(w, st).disp.unclaimed
  {
    hide Assembly, Settlement, Apply, TimeoutText;
    match st
    case Begin(_, id, _) => NewPipe(w.disp, id);
    case Deliver => ArrivalEffect(w.disp, w.inFlight[0]);
    case Abort(c) => FailEffect(w.disp, w.calls[c].id, TimeoutText(w.calls[c].id));
    case _ =>
  }

  lemma {:induction false} NewPipe(s: State, id: string)
    requires Settlement(s)
    ensures var t := Apply(s, Register(id));
            t.pipes == s.pipes + [Pipe(id, if id in s.promises then Some(Broken) else None)] &&
            t.unclaimed == s.unclaimed && t.lists == s.lists
  {
  }

  lemma {:induction false} ApplyFail(s: State, id: string, what: string)
    requires Settlement(s)
    ensures Apply(s, Fail(id, what)) == Close(s, id, Error(what))
  {
  }

  /** The states reached by a sequence of steps, each possible when it happens. */
  ghost function Exec(steps: seq<Step>): Option<World> {
    if |steps| == 0 then Some(IDLE)
    else
      match Exec(steps[..|steps| - 1])
      case None => None
      case Some(w) =>
        var st := steps[|steps| - 1];
        if Settlement(w.disp) && CanHappen(w, st) then Some(After(w, st)) else None
  }

  /**
   * In every reachable state a call's pipe is its own, a call about to get is settled, and one that has
   * returned returned what its pipe holds.
   */
  lemma {:induction false} Reachable(steps: seq<Step>)
    requires Exec(steps).Some?
    ensures Inv(Exec(steps).value)
  {
    hide CallInv, After, Assembly, Settlement;
    if |steps| == 0 {
      StartInv();
    } else {
      var n := |steps| - 1;
      Reachable(steps[..n]);
      InvStep(Exec(steps[..n]).value, steps[n]);
    }
  }

  lemma {:induction false} StartInv()
    ensures Inv(IDLE)
  {
  }

  /** A step that is possible can be taken: the dispatcher's operations are always defined. */
  lemma {:induction false} PossibleIsTaken(steps: seq<Step>, st: Step) returns (w: World)
    requires Exec(steps).Some? && CanHappen(Exec(steps).value, st)
    ensures Settlement(Exec(steps).value.disp)
    ensures Exec(steps + [st]) == Some(w) && w == After(Exec(steps).value, st)
  {
    Reachable(steps);
    hide CanHappen, After, CallInv, Assembly;
    assert (steps + [st])[..|steps|] == steps;
    w := After(Exec(steps).value, st);
  }

  /** Once wait_for has given up and the pipe has been closed, or has seen the result, get does not block. */
  lemma {:induction false} GetNeverBlocks(steps: seq<Step>, c: nat)
    requires Exec(steps).Some? && InPhase(Exec(steps).value, c, Ready)
    ensures CanHappen(Exec(steps).value, Get(c))
  {
    Reachable(steps);
    assert CallInv(Exec(steps).value, c);
  }

  /** Closing on timeout settles every pipe issued so far under the identifier, whoever issued it. */
  lemma {:induction false} AbortSettlesAll(steps: seq<Step>, c: nat, k: nat)
    requires Exec(steps).Some? && CanHappen(Exec(steps).value, Abort(c))
    requires var w := Exec(steps).value; k < |w.disp.pipes| && w.disp.pipes[k].id == w.calls[c].id
    ensures var v := Exec(steps + [Abort(c)]);
            v.Some? && k < |v.value.disp.pipes| && v.value.disp.pipes[k].outcome.Some?
  {
    hide Exec, Apply, TimeoutText, Assembly;
    Reachable(steps);
    var w := Exec(steps).value;
    var v := PossibleIsTaken(steps, Abort(c));
    CloseSettlesAll(w.disp, w.calls[c].id, Error(TimeoutText(w.calls[c].id)), k);
    FailEffect(w.disp, w.calls[c].id, TimeoutText(w.calls[c].id));
    ApplyFail(w.disp, w.calls[c].id, TimeoutText(w.calls[c].id));
  }

  /** Whichever of reply and timeout settles the pipe first decides: the outcome never changes afterwards. */
  lemma {:induction false} FirstSettlementWins(steps: seq<Step>, more: seq<Step>)
    requires Exec(steps + more).Some?
    ensures Exec(steps).Some? && Extends(Exec(steps).value.disp, Exec(steps + more).value.disp)
  {
    hide Inv, After, CanHappen, Settlement;
    if |more| == 0 {
      EmptyUnit(more, steps);
    } else {
      var n := |more| - 1;
      assert (steps + more)[..|steps + more| - 1] == steps + more[..n];
      FirstSettlementWins(steps, more[..n]);
      Reachable(steps + more[..n]);
      DispatcherMoves(Exec(steps + more[..n]).value, more[n]);
    }
  }

  // ---------- tracing pipes and events to calls ----------

  /** A step keeps every call, its identifier and its pipe, and never takes it back to registration. */
  ghost predicate KeepsCalls(w: World, v: World) {
    && w.async <= v.async && w.written <= v.written
    && forall c :: c in w.calls ==>
         c in v.calls && v.calls[c].id == w.calls[c].id && v.calls[c].pipe == w.calls[c].pipe &&
         (w.calls[c].phase != Registered ==> v.calls[c].phase != Registered)
  }

  lemma {:induction false} CallsKept(w: World, st: Step)
    requires Settlement(w.disp) && CanHappen(w, st)
    ensures KeepsCalls(w, After(w, st))
  {
    hide Settlement, Apply;
  }

  lemma {:induction false} TracesKept(w: World, v: World)
    requires KeepsCalls(w, v)
    ensures forall k :: HasCall(w, k) ==> HasCall(v, k)
    ensures forall id :: HasWriter(w, id) ==> HasWriter(v, id)
  {
    forall k | HasCall(w, k) ensures HasCall(v, k) {
      var c :| c in w.calls && w.calls[c].pipe == k;
      assert v.calls[c].pipe == k;
    }
    forall id | HasWriter(w, id) && id !in w.async ensures HasWriter(v, id) {
      var c :| c in w.calls && w.calls[c].id == id && w.calls[c].phase != Registered;
      assert v.calls[c].id == id;
    }
  }

  lemma {:induction false} TraceableStep(w: World, st: Step)
    requires Inv(w) && Traceable(w) && CanHappen(w, st)
    ensures Traceable(After(w, st))
  {
    hide Assembly, Settlement, Apply, HasCall, HasWriter, KeepsCalls;
    CallsKept(w, st);
    var v := After(w, st);
    TracesKept(w, v);
    match st
    case Begin(c, id, _) =>
      NewPipe(w.disp, id);
      CallOfNewPipe(v, c);
    case Write(c) => WriterOfWritten(v, c);
    case Async(id) => AsyncWriter(v, id);
    case Deliver => ArrivalEffect(w.disp, w.inFlight[0]);
    case Abort(c) => FailEffect(w.disp, w.calls[c].id, TimeoutText(w.calls[c].id));
    case _ =>
  }

  lemma {:induction false} CallOfNewPipe(v: World, c: nat)
    requires c in v.calls
    ensures HasCall(v, v.calls[c].pipe)
  {
  }

  lemma {:induction false} WriterOfWritten(v: World, c: nat)
    requires c in v.calls && v.calls[c].phase != Registered
    ensures HasWriter(v, v.calls[c].id)
  {
  }

  lemma {:induction false} AsyncWriter(v: World, id: string)
    requires id in v.async
    ensures HasWriter(v, id)
  {
  }

  lemma {:induction false} ArrivalEffect(s: State, e: Dict)
    requires Valid(s)
    ensures var t := Apply(s, Arrive(e));
            && |t.pipes| == |s.pipes|
            && (IdOf(e).Some? && IdOf(e).value in s.promises ==>
                  t.unclaimed == s.unclaimed &&
                  forall k :: 0 <= k < |s.pipes| && t.pipes[k] != s.pipes[k] ==>
                    k == s.promises[IdOf(e).value] && t.pipes[k].outcome.Some? && t.pipes[k].outcome.value.Value?)
            && (IdOf(e).None? || IdOf(e).value !in s.promises ==>
                  t.pipes == s.pipes && t.unclaimed == s.unclaimed + [e])
  {
  }

  lemma {:induction false} FailEffect(s: State, id: string, what: string)
    requires Valid(s)
    ensures var t := Apply(s, Fail(id, what));
            && |t.pipes| == |s.pipes| && t.unclaimed == s.unclaimed
            && forall k :: 0 <= k < |s.pipes| && t.pipes[k] != s.pipes[k] ==>
                 id in s.promises && k == s.promises[id] && t.pipes[k].outcome == Some(Error(what))
  {
  }

  lemma {:induction false} CallOfPromise(w: World, id: string) returns (d: nat)
    requires Inv(w) && Traceable(w) && id in w.disp.promises
    ensures d in w.calls && w.calls[d].id == id && w.calls[d].pipe == w.disp.promises[id]
  {
    var k := w.disp.promises[id];
    assert HasCall(w, k);
    d :| d in w.calls && w.calls[d].pipe == k;
    assert CallInv(w, d);
  }

  lemma {:induction false} UnsettledIsPending(s: State, k: nat)
    requires Valid(s) && k < |s.pipes| && s.pipes[k].outcome.None?
    ensures s.pipes[k].id in s.promises && s.promises[s.pipes[k].id] == k
  {
  }

  lemma {:induction false} TraceableRun(steps: seq<Step>)
    requires Exec(steps).Some?
    ensures Traceable(Exec(steps).value)
  {
    hide After, CallInv, Traceable, Assembly, Settlement;
    if |steps| == 0 {
      StartTraceable();
    } else {
      var n := |steps| - 1;
      TraceableRun(steps[..n]);
      Reachable(steps[..n]);
      TraceableStep(Exec(steps[..n]).value, steps[n]);
    }
  }

  lemma {:induction false} StartTraceable()
    ensures Traceable(IDLE)
  {
  }
}
