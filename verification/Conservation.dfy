/** Where every routed event is: nothing is lost, nothing is held twice, every place keeps arrival order. */
module Conservation {
  import opened Text
  import opened Messages
  import opened EventLists
  import opened Dispatch
  import opened Independence
  import opened Framing
  import Wire

  datatype Place =
    | ToCallback                    // left to the notification callback
    | Delivered(pipe: nat)          // part of the reaction a pipe was settled with
    | Working(id: string)           // part of a list being assembled
    | Discarded(index: nat)         // part of a list thrown away by an exception or a null

  /** The events a state holds in a place, in the order in which it holds them. */
  function Held(s: State, p: Place): seq<Dict> {
    match p
    case ToCallback => s.unclaimed
    case Delivered(k) =>
      if k < |s.pipes| && s.pipes[k].outcome.Some? && s.pipes[k].outcome.value.Value?
      then s.pipes[k].outcome.value.reaction.Events() else []
    case Working(id) => if id in s.lists then s.lists[id].Events() else []
    case Discarded(i) => if i < |s.discarded| then s.discarded[i].Events() else []
  }

  /** The events that a labelling puts into a place, in order of arrival. */
  function Pick(es: seq<Dict>, w: seq<Place>, p: Place): seq<Dict>
    requires |es| == |w|
  {
    if |es| == 0 then []
    else
      var n := |es| - 1;
      var init := Pick(es[..n], w[..n], p);
      if w[n] == p then init + [es[n]] else init
  }

  /** w gives each arrived event its one place, and each place holds just the events labelled with it. */
  ghost predicate Partition(es: seq<Dict>, w: seq<Place>, s: State) {
    |w| == |es| && forall p :: Pick(es, w, p) == Held(s, p)
  }

  function Move(w: seq<Place>, a: Place, b: Place): seq<Place> {
    seq(|w|, i requires 0 <= i < |w| => if w[i] == a then b else w[i])
  }

  lemma {:induction false} PickSnoc(es: seq<Dict>, w: seq<Place>, e: Dict, q: Place, p: Place)
    requires |es| == |w|
    ensures Pick(es + [e], w + [q], p) == if p == q then Pick(es, w, p) + [e] else Pick(es, w, p)
  {
    assert (es + [e])[..|es|] == es && (w + [q])[..|w|] == w;
  }

  /** Moving everything from one place to an empty one moves the events as they stand. */
  lemma {:induction false} PickMove(es: seq<Dict>, w: seq<Place>, a: Place, b: Place, p: Place)
    requires |es| == |w| && a != b && Pick(es, w, b) == []
    ensures Pick(es, Move(w, a, b), p) ==
            if p == b then Pick(es, w, a) else if p == a then [] else Pick(es, w, p)
  {
    if |es| > 0 {
      var n := |es| - 1;
      PickMove(es[..n], w[..n], a, b, p);
      assert Move(w, a, b)[..n] == Move(w[..n], a, b);
    }
  }

  lemma {:induction false} ConserveArrival(s: State, e: Dict, es: seq<Dict>, w: seq<Place>) returns (v: seq<Place>)
    requires Valid(s) && Partition(es, w, s)
    ensures Partition(es + [e], v, DispatchEvent(s, e))
  {
    hide Pick, WellFormed, Assembling;
    var t := DispatchEvent(s, e);
    if IdOf(e).None? || IdOf(e).value !in s.promises {
      v := w + [ToCallback];
      forall p ensures Pick(es + [e], v, p) == Held(t, p) {
        PickSnoc(es, w, e, ToCallback, p);
      }
    } else {
      v := ConserveRoute(s, IdOf(e).value, e, es, w);
    }
  }

  lemma {:induction false} ConserveRoute(s: State, id: string, e: Dict, es: seq<Dict>, w: seq<Place>)
      returns (v: seq<Place>)
    requires Valid(s) && Partition(es, w, s) && id in s.promises
    ensures Partition(es + [e], v, Route(s, id, e))
  {
    if id !in s.lists {
      v := ConserveStart(s, id, e, es, w);
    } else if Completes(e) {
      v := ConserveCompletion(s, id, e, es, w);
    } else {
      v := ConserveMember(s, id, e, es, w);
    }
  }

  lemma {:induction false} ConserveStart(s: State, id: string, e: Dict, es: seq<Dict>, w: seq<Place>)
      returns (v: seq<Place>)
    requires Valid(s) && Partition(es, w, s) && id in s.promises && id !in s.lists
    ensures Partition(es + [e], v, Route(s, id, e))
  {
    hide Pick, WellFormed, Assembling;
    var t := Route(s, id, e);
    var pipe := Delivered(s.promises[id]);
    assert Held(s, pipe) == [];
    var q := if e.HasKey(EVENT_LIST) && ListSucceeds(e) then Working(id) else pipe;
    v := w + [q];
    assert Listing(e, [], None).Events() == [e];
    forall p ensures Pick(es + [e], v, p) == Held(t, p) {
      PickSnoc(es, w, e, q, p);
    }
  }

  lemma {:induction false} ConserveMember(s: State, id: string, e: Dict, es: seq<Dict>, w: seq<Place>)
      returns (v: seq<Place>)
    requires Valid(s) && Partition(es, w, s) && id in s.promises && id in s.lists && !Completes(e)
    ensures Partition(es + [e], v, Route(s, id, e))
  {
    hide Pick, WellFormed, Completes;
    var t := Route(s, id, e);
    v := w + [Working(id)];
    ListingGrows(s.lists[id], e);
    forall p ensures Pick(es + [e], v, p) == Held(t, p) {
      PickSnoc(es, w, e, Working(id), p);
    }
  }

  /** The whole working list moves to the pipe, and the completing event follows it there. */
  lemma {:induction false} ConserveCompletion(s: State, id: string, e: Dict, es: seq<Dict>, w: seq<Place>)
      returns (v: seq<Place>)
    requires Valid(s) && Partition(es, w, s) && id in s.promises && id in s.lists && Completes(e)
    ensures Partition(es + [e], v, Route(s, id, e))
  {
    hide Pick, WellFormed, Completes;
    var t := Route(s, id, e);
    var pipe := Delivered(s.promises[id]);
    assert Held(s, pipe) == [];
    var m := Move(w, Working(id), pipe);
    v := m + [pipe];
    ListingGrows(s.lists[id], e);
    forall p ensures Pick(es + [e], v, p) == Held(t, p) {
      PickMove(es, w, Working(id), pipe, p);
      PickSnoc(es, m, e, pipe, p);
    }
  }

  lemma {:induction false} ConserveClose(s: State, id: string, o: Outcome, es: seq<Dict>, w: seq<Place>)
      returns (v: seq<Place>)
    requires Valid(s) && Partition(es, w, s) && !o.Value?
    ensures Partition(es, v, Close(s, id, o))
  {
    hide Pick, WellFormed, Assembling;
    var t := Close(s, id, o);
    var d := Discarded(|s.discarded|);
    v := if id in s.lists then Move(w, Working(id), d) else w;
    assert Held(s, d) == [];
    forall p ensures Pick(es, v, p) == Held(t, p) {
      PickMove(es, w, Working(id), d, p);
    }
  }

  lemma {:induction false} ConserveRegister(s: State, id: string, es: seq<Dict>, w: seq<Place>)
    requires Valid(s) && Partition(es, w, s)
    ensures Partition(es, w, RegisterPipe(s, id))
  {
    hide Pick, WellFormed, Assembling;
    var t := RegisterPipe(s, id);
    assert forall k :: 0 <= k < |s.pipes| ==> t.pipes[k] == s.pipes[k];
    assert forall p :: Held(t, p) == Held(s, p);
  }

  lemma {:induction false} ConserveStep(s: State, op: Op, es: seq<Dict>, w: seq<Place>) returns (v: seq<Place>)
    requires Valid(s) && Partition(es, w, s)
    ensures Partition(if op.Arrive? then es + [op.event] else es, v, Apply(s, op))
  {
    hide Pick, Held, Route, Close, RegisterPipe;
    match op
    case Register(id) => ConserveRegister(s, id, es, w); v := w;
    case Arrive(e) => v := ConserveArrival(s, e, es, w);
    case Fail(id, what) => v := ConserveClose(s, id, Error(what), es, w);
    case Nullify(id) => v := ConserveClose(s, id, Null, es, w);
  }

  /**
   * Conservation and order, for every run: the events routed so far can be labelled so that each is in exactly
   * one place, and what each place holds (what is left to the callback, a delivered reaction, a working list, a
   * discarded list) is exactly the subsequence of arrivals labelled with it.
   */
  lemma {:induction false} Conserved(ops: seq<Op>) returns (w: seq<Place>)
    ensures Partition(Arrivals(ops), w, Run(ops))
  {
    hide Apply;
    if |ops| == 0 {
      w := [];
    } else {
      var n := |ops| - 1;
      w := Conserved(ops[..n]);
      w := ConserveStep(Run(ops[..n]), ops[n], Arrivals(ops[..n]), w);
    }
  }

  lemma {:induction false} PickedArrived(es: seq<Dict>, w: seq<Place>, p: Place, i: nat)
    requires |es| == |w| && i < |Pick(es, w, p)|
    ensures Pick(es, w, p)[i] in es
  {
    var n := |es| - 1;
    if i < |Pick(es[..n], w[..n], p)| {
      PickedArrived(es[..n], w[..n], p, i);
    }
  }

  /** Whatever a place holds has arrived. */
  lemma {:induction false} HeldArrived(ops: seq<Op>, p: Place)
    ensures forall e :: e in Held(Run(ops), p) ==> e in Arrivals(ops)
  {
    hide Run, Held, Pick;
    var w := Conserved(ops);
    forall e | e in Held(Run(ops), p) ensures e in Arrivals(ops) {
      assert Pick(Arrivals(ops), w, p) == Held(Run(ops), p);
      var i: nat :| i < |Held(Run(ops), p)| && Held(Run(ops), p)[i] == e;
      PickedArrived(Arrivals(ops), w, p, i);
    }
  }

  /** When all arrivals came from the wire, printing a delivered list, framing and parsing gives back its events. */
  lemma {:induction false} DeliveredListRoundTrip(ops: seq<Op>, k: nat, l: Listing)
    requires forall e :: e in Arrivals(ops) ==> FromWire(e)
    requires k < |Run(ops).pipes| && Run(ops).pipes[k].outcome == Some(Value(Many(l)))
    ensures Split(PrintEvents(l.Events())).rest == ""
    ensures Wire.ParseAll(Split(PrintEvents(l.Events())).msgs) == l.Events()
  {
    hide Run, FromWire, Split, Wire.ParseAll, IsFrame;
    HeldArrived(ops, Delivered(k));
    assert WellFormed(Run(ops).pipes[k].id, Many(l));
    assert Many(l).Events() == l.Events();
    forall i | 0 <= i < |l.Events()| ensures FromWire(l.Events()[i]) && IdOf(l.Events()[i]).Some? {
      assert l.Events()[i] in Held(Run(ops), Delivered(k));
    }
    WireListRoundTrip(l);
  }
}
