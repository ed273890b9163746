/**
 * Response correlation as a state machine. Every operation below is what happens under the locks, so a run of the
 * dispatcher is a sequence of them, in whatever order the threads got the locks. An event that nobody waits for is
 * handed to the notification callback later, without a lock; what is decided under the lock is that it will be.
 */
module Dispatch {
  import opened Text
  import opened Messages
  import opened EventLists

  /** What a future can be settled with. Broken: its promise was destroyed unsettled. */
  datatype Outcome = Value(reaction: Reaction) | Null | Error(what: string) | Broken

  /** The shared state of one promise/future pair ("pipe"), in order of issue. */
  datatype Pipe = Pipe(id: string, outcome: Option<Outcome>)

  datatype State = State(
    promises: map<string, nat>,       // promise_map_: identifier to index of the pending pipe
    lists: map<string, Listing>,      // event_map_: identifier to the list being assembled
    pipes: seq<Pipe>,                 // every pipe ever issued
    unclaimed: seq<Dict>,             // events routing has left to the notification callback
    discarded: seq<Listing>           // history: working lists thrown away
  )

  datatype Op =
    | Register(id: string)
    | Arrive(event: Dict)
    | Fail(id: string, what: string)
    | Nullify(id: string)

  const INIT := State(map[], map[], [], [], [])

  // ---------- invariant ----------

  /** An identifier is in the promise map exactly for its unsettled pipe. */
  ghost predicate Settlement(s: State) {
    && (forall id :: id in s.promises ==>
          s.promises[id] < |s.pipes| && s.pipes[s.promises[id]] == Pipe(id, None))
    && (forall k :: 0 <= k < |s.pipes| && s.pipes[k].outcome.None? ==>
          s.pipes[k].id in s.promises && s.promises[s.pipes[k].id] == k)
  }

  /** Lists are assembled only for pending pipes, and only well-formed reactions have been delivered. */
  ghost predicate Assembly(s: State) {
    && (forall id :: id in s.lists ==> id in s.promises && Assembling(id, s.lists[id]))
    && (forall k :: 0 <= k < |s.pipes| && s.pipes[k].outcome.Some? && s.pipes[k].outcome.value.Value? ==>
          WellFormed(s.pipes[k].id, s.pipes[k].outcome.value.reaction))
  }

  ghost predicate Valid(s: State) {
    Settlement(s) && Assembly(s)
  }

  // ---------- operations ----------

  function Settle(s: State, id: string, o: Outcome): State
    requires id in s.promises && s.promises[id] < |s.pipes|
  {
    s.(pipes := s.pipes[s.promises[id] := Pipe(id, Some(o))], promises := s.promises - {id})
  }

  /** The new pipe takes the free slot, or dies at once because the identifier is taken. */
  function RegisterPipe(s: State, id: string): State {
    if id in s.promises then s.(pipes := s.pipes + [Pipe(id, Some(Broken))])
    else s.(pipes := s.pipes + [Pipe(id, None)], promises := s.promises[id := |s.pipes|])
  }

  /** An event of an identifier somebody waits for. */
  function Route(s: State, id: string, e: Dict): State
    requires id in s.promises && s.promises[id] < |s.pipes|
  {
    if id !in s.lists then
      if !e.HasKey(EVENT_LIST) then Settle(s, id, Value(Single(e)))
      else if ListSucceeds(e) then s.(lists := s.lists[id := Listing(e, [], None)])
      else Settle(s, id, Value(Many(Listing(e, [], None))))
    else if Completes(e) then
      var l := s.lists[id].(tail := Some(e));
      Settle(s, id, Value(Many(l))).(lists := s.lists - {id})
    else
      s.(lists := s.lists[id := s.lists[id].(members := s.lists[id].members + [e])])
  }

  /** An event nobody waits for is left to the notification callback. */
  function DispatchEvent(s: State, e: Dict): State
    requires Settlement(s)
  {
    var id := IdOf(e);
    if id.Some? && id.value in s.promises then Route(s, id.value, e)
    else s.(unclaimed := s.unclaimed + [e])
  }

  /** Close the pipe of an identifier, if any is pending, and drop its working list. */
  function Close(s: State, id: string, o: Outcome): State
    requires Settlement(s)
  {
    var t := if id in s.promises then Settle(s, id, o) else s;
    if id in s.lists then t.(lists := s.lists - {id}, discarded := s.discarded + [s.lists[id]]) else t
  }

  function Apply(s: State, op: Op): State
    requires Settlement(s)
  {
    match op
    case Register(id) => RegisterPipe(s, id)
    case Arrive(e) => DispatchEvent(s, e)
    case Fail(id, what) => Close(s, id, Error(what))
    case Nullify(id) => Close(s, id, Null)
  }

  /** Teardown settles whatever is still pending with a null reaction. */
  function Teardown(pipes: seq<Pipe>): (r: seq<Pipe>)
    ensures |r| == |pipes|
    ensures forall k :: 0 <= k < |r| ==> r[k].outcome.Some? && r[k].id == pipes[k].id
    ensures forall k :: 0 <= k < |r| ==> r[k] == pipes[k] || (pipes[k].outcome.None? && r[k].outcome == Some(Null))
  {
    seq(|pipes|, k requires 0 <= k < |pipes| =>
      if pipes[k].outcome.None? then Pipe(pipes[k].id, Some(Null)) else pipes[k])
  }

  // ---------- every step keeps the invariant ----------

  lemma {:induction false} RegisterKeeps(s: State, id: string)
    requires Valid(s)
    ensures Valid(RegisterPipe(s, id))
  {
    hide WellFormed, Assembling;
    var t := RegisterPipe(s, id);
    assert forall k :: 0 <= k < |s.pipes| ==> t.pipes[k] == s.pipes[k];
  }

  /** Settling a pending pipe keeps the invariant if its list goes too and any reaction delivered is well formed. */
  lemma {:induction false} SettleKeeps(s: State, id: string, o: Outcome, discarded: seq<Listing>)
    requires Valid(s) && id in s.promises
    requires o.Value? ==> WellFormed(id, o.reaction)
    ensures Valid(Settle(s, id, o).(lists := s.lists - {id}, discarded := discarded))
    ensures id !in s.lists ==> s.lists - {id} == s.lists
  {
    hide WellFormed, Assembling;
    var t := Settle(s, id, o);
    var p := s.promises[id];
    assert forall k :: 0 <= k < |s.pipes| && k != p ==> t.pipes[k] == s.pipes[k];
  }

  lemma {:induction false} RouteKeeps(s: State, id: string, e: Dict)
    requires Valid(s) && id in s.promises && IdOf(e) == Some(id)
    ensures Valid(Route(s, id, e))
  {
    if id !in s.lists {
      if !e.HasKey(EVENT_LIST) {
        SettleKeeps(s, id, Value(Single(e)), s.discarded);
      } else if !ListSucceeds(e) {
        SettleKeeps(s, id, Value(Many(Listing(e, [], None))), s.discarded);
      }
    } else {
      ListGrows(id, s.lists[id], e);
      if Completes(e) {
        SettleKeeps(s, id, Value(Many(s.lists[id].(tail := Some(e)))), s.discarded);
      }
    }
  }

  lemma {:induction false} CloseKeeps(s: State, id: string, o: Outcome)
    requires Valid(s) && !o.Value?
    ensures Valid(Close(s, id, o))
  {
    if id in s.promises {
      SettleKeeps(s, id, o, s.discarded);
    }
  }

  lemma {:induction false} StepKeeps(s: State, op: Op)
    requires Valid(s)
    ensures Valid(Apply(s, op))
  {
    match op
    case Register(id) => RegisterKeeps(s, id);
    case Arrive(e) =>
      if IdOf(e).Some? && IdOf(e).value in s.promises {
        RouteKeeps(s, IdOf(e).value, e);
      }
    case Fail(id, what) => CloseKeeps(s, id, Error(what));
    case Nullify(id) => CloseKeeps(s, id, Null);
  }

  lemma {:induction false} ListGrows(id: string, l: Listing, e: Dict)
    requires Assembling(id, l) && IdOf(e) == Some(id)
    ensures !Completes(e) ==> Assembling(id, l.(members := l.members + [e]))
    ensures Completes(e) ==> WellFormed(id, Many(l.(tail := Some(e))))
  {
    ListingGrows(l, e);
  }

  lemma {:induction false} PendingInRange(s: State, id: string)
    requires Settlement(s) && id in s.promises
    ensures s.promises[id] < |s.pipes| && s.pipes[s.promises[id]] == Pipe(id, None)
  {
  }

  /** An event nobody waits for is only left to the callback. */
  lemma {:induction false} Unclaimed(s: State, e: Dict)
    requires Settlement(s) && (IdOf(e).None? || IdOf(e).value !in s.promises)
    ensures Apply(s, Arrive(e)) == s.(unclaimed := s.unclaimed + [e])
  {
  }

  /**
   * Routing by what the message says. The first event for a pending identifier opens a list if it lists a key EventList
   * and has a successful Response, and settles the pipe otherwise; a later one settles it, with the list and itself as
   * the tail, if its EventList says Complete or cancelled, and joins the list otherwise. Nothing else changes.
   */
  lemma {:induction false} ArrivalByText(s: State, e: Dict, id: string)
    requires Valid(s) && "ActionID" in e.vals && e.vals["ActionID"] == id && id in s.promises
    ensures var t, k := Apply(s, Arrive(e)), s.promises[id];
            var opens := "EventList" in e.keys && "Response" in e.vals &&
                         (e.vals["Response"] == "Success" || e.vals["Response"] == "Goodbye");
            var closes := "EventList" in e.vals &&
                          (e.vals["EventList"] == "Complete" || e.vals["EventList"] == "cancelled");
            && k < |s.pipes| && t.unclaimed == s.unclaimed && t.discarded == s.discarded
            && (id !in s.lists && opens ==> t == s.(lists := s.lists[id := Listing(e, [], None)]))
            && (id in s.lists && !closes ==>
                  t == s.(lists := s.lists[id := Listing(s.lists[id].head, s.lists[id].members + [e], None)]))
            && ((if id in s.lists then closes else !opens) ==>
                  && t.promises == s.promises - {id} && t.lists == s.lists - {id}
                  && t.pipes == s.pipes[k := Pipe(id, Some(Value(
                       if id in s.lists then Many(Listing(s.lists[id].head, s.lists[id].members, Some(e)))
                       else if "EventList" in e.keys then Many(Listing(e, [], None))
                       else Single(e))))])
  {
    hide WellFormed;
    assert IdOf(e) == Some(id);
    assert id !in s.lists ==> s.lists - {id} == s.lists;
  }

  /** An event without an identifier, or of one nobody waits for, is left to the callback; nothing else changes. */
  lemma {:induction false} UnclaimedByText(s: State, e: Dict)
    requires Settlement(s) && ("ActionID" !in e.vals || e.vals["ActionID"] !in s.promises)
    ensures Apply(s, Arrive(e)) == s.(unclaimed := s.unclaimed + [e])
  {
    Unclaimed(s, e);
  }

  /** A failure or a null settles the pending pipe of its identifier, if any, with just that, and drops its list. */
  lemma {:induction false} CloseByOp(s: State, op: Op, id: string)
    requires Valid(s) && ((op.Fail? && op.id == id) || op == Nullify(id))
    ensures var t := Apply(s, op);
            && t.promises == s.promises - {id} && t.lists == s.lists - {id} && t.unclaimed == s.unclaimed
            && t.discarded == (if id in s.lists then s.discarded + [s.lists[id]] else s.discarded)
            && (id !in s.promises ==> t.pipes == s.pipes)
            && (id in s.promises ==>
                  && s.promises[id] < |s.pipes|
                  && t.pipes == s.pipes[s.promises[id] := Pipe(id, Some(if op.Fail? then Error(op.what) else Null))])
  {
    hide WellFormed, Assembling;
    assert id !in s.promises ==> s.promises - {id} == s.promises;
    assert id !in s.lists ==> s.lists - {id} == s.lists;
  }

  /** Only arrivals leave anything to the callback. */
  lemma {:induction false} UnclaimedGrows(s: State, op: Op)
    requires Settlement(s)
    ensures Apply(s, op).unclaimed == s.unclaimed ||
            (op.Arrive? && Apply(s, op).unclaimed == s.unclaimed + [op.event])
  {
  }

  // ---------- runs ----------

  function Run(ops: seq<Op>): (s: State)
    ensures Valid(s)
  {
    if |ops| == 0 then INIT
    else
      var s := Run(ops[..|ops| - 1]);
      var op := ops[|ops| - 1];
      StepKeeps(s, op);
      Apply(s, op)
  }

  lemma {:induction false} RunSnoc(ops: seq<Op>, op: Op)
    ensures Run(ops + [op]) == Apply(Run(ops), op)
  {
    assert (ops + [op])[..|ops|] == ops;
  }

  /** No step settles a settled pipe, changes whose pipe it is, or forgets one. */
  lemma {:induction false} SettledForever(s: State, op: Op, k: nat)
    requires Settlement(s) && k < |s.pipes|
    ensures var t := Apply(s, op);
            && k < |t.pipes| && t.pipes[k].id == s.pipes[k].id
            && (s.pipes[k].outcome.Some? ==> t.pipes[k] == s.pipes[k])
  {
    hide WellFormed, Assembling;
  }

  lemma {:induction false} SettledForeverRun(ops: seq<Op>, more: seq<Op>, k: nat)
    requires k < |Run(ops).pipes|
    ensures var s, t := Run(ops), Run(ops + more);
            && k < |t.pipes| && t.pipes[k].id == s.pipes[k].id
            && (s.pipes[k].outcome.Some? ==> t.pipes[k] == s.pipes[k])
  {
    if |more| == 0 {
      EmptyUnit(more, ops);
    } else {
      var n := |more| - 1;
      SettledForeverRun(ops, more[..n], k);
      RunSnoc(ops + more[..n], more[n]);
      TakeNext(ops, more, n);
      TakeAll(ops, more);
      SettledForever(Run(ops + more[..n]), more[n], k);
    }
  }

  /**
   * Exactly-once settlement. Take any pipe of any reachable state and any continuation of the run: the pipe is
   * pending iff it is unsettled, it is the only unsettled one of its identifier, once settled it stays as it
   * is, and teardown settles it if nothing else did.
   */
  lemma {:induction false} ExactlyOnce(ops: seq<Op>, more: seq<Op>, k: nat)
    requires k < |Run(ops).pipes|
    ensures var s, t := Run(ops), Run(ops + more);
            && (s.pipes[k].outcome.None? <==> s.pipes[k].id in s.promises && s.promises[s.pipes[k].id] == k)
            && (forall j | 0 <= j < |s.pipes| && s.pipes[j].id == s.pipes[k].id ::
                  s.pipes[j].outcome.None? && s.pipes[k].outcome.None? ==> j == k)
            && k < |t.pipes| && t.pipes[k].id == s.pipes[k].id
            && (s.pipes[k].outcome.Some? ==> t.pipes[k] == s.pipes[k])
            && Teardown(t.pipes)[k].outcome.Some?
            && (t.pipes[k].outcome.Some? ==> Teardown(t.pipes)[k] == t.pipes[k])
  {
    SettledForeverRun(ops, more, k);
  }

  /** After a close no pipe issued so far under that identifier is unsettled, and no list is left. */
  lemma {:induction false} CloseSettlesAll(s: State, id: string, o: Outcome, k: nat)
    requires Valid(s) && k < |s.pipes| && s.pipes[k].id == id
    ensures var t := Close(s, id, o);
            && t.pipes[k].outcome.Some? && id !in t.promises && id !in t.lists
            && (s.pipes[k].outcome.None? ==> t.pipes[k].outcome == Some(o))
  {
    hide WellFormed, Assembling;
  }
}
