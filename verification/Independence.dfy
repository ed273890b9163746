/**
 * The dispatcher serves any number of identifiers at once. Seen from one identifier it is a small automaton
 * that reacts to the operations about that identifier and to nothing else.
 */
module Independence {
  import opened Text
  import opened Messages
  import opened EventLists
  import opened Dispatch

  // ---------- the view of one identifier ----------

  datatype Phase = Idle | Waiting(pipe: nat) | Collecting(pipe: nat, list: Listing)

  /** outcomes: those of the pipes issued under the identifier, in order; unclaimed: its events left to the callback. */
  datatype Local = Local(phase: Phase, outcomes: seq<Option<Outcome>>, unclaimed: seq<Dict>)

  predicate Sound(l: Local) {
    l.phase.Idle? || l.phase.pipe < |l.outcomes|
  }

  predicate Concerns(op: Op, id: string) {
    match op
    case Register(i) => i == id
    case Arrive(e) => IdOf(e) == Some(id)
    case Fail(i, _) => i == id
    case Nullify(i) => i == id
  }

  function Finish(l: Local, o: Outcome): Local
    requires Sound(l) && !l.phase.Idle?
  {
    Local(Idle, l.outcomes[l.phase.pipe := Some(o)], l.unclaimed)
  }

  /** The automaton: idle, waiting for a reply, or collecting a list. */
  function LocalStep(l: Local, op: Op): (r: Local)
    requires Sound(l)
    ensures Sound(r)
  {
    match (l.phase, op)
    case (Idle, Register(_)) => Local(Waiting(|l.outcomes|), l.outcomes + [None], l.unclaimed)
    case (Idle, Arrive(e)) => l.(unclaimed := l.unclaimed + [e])
    case (Idle, _) => l
    case (_, Register(_)) => l.(outcomes := l.outcomes + [Some(Broken)])
    case (_, Fail(_, what)) => Finish(l, Error(what))
    case (_, Nullify(_)) => Finish(l, Null)
    case (Waiting(p), Arrive(e)) =>
      if !e.HasKey(EVENT_LIST) then Finish(l, Value(Single(e)))
      else if ListSucceeds(e) then l.(phase := Collecting(p, Listing(e, [], None)))
      else Finish(l, Value(Many(Listing(e, [], None))))
    case (Collecting(p, list), Arrive(e)) =>
      if Completes(e) then Finish(l, Value(Many(list.(tail := Some(e)))))
      else l.(phase := Collecting(p, list.(members := list.members + [e])))
  }

  function LocalRun(ops: seq<Op>): (l: Local)
    ensures Sound(l)
  {
    if |ops| == 0 then Local(Idle, [], [])
    else LocalStep(LocalRun(ops[..|ops| - 1]), ops[|ops| - 1])
  }

  // ---------- projecting the dispatcher ----------

  function Only(ops: seq<Op>, id: string): seq<Op> {
    if |ops| == 0 then []
    else
      var init, op := Only(ops[..|ops| - 1], id), ops[|ops| - 1];
      if Concerns(op, id) then init + [op] else init
  }

  function OutcomesOf(ps: seq<Pipe>, id: string): seq<Option<Outcome>> {
    if |ps| == 0 then []
    else
      var init, p := OutcomesOf(ps[..|ps| - 1], id), ps[|ps| - 1];
      if p.id == id then init + [p.outcome] else init
  }

  function EventsOf(es: seq<Dict>, id: string): seq<Dict> {
    if |es| == 0 then []
    else
      var init, e := EventsOf(es[..|es| - 1], id), es[|es| - 1];
      if IdOf(e) == Some(id) then init + [e] else init
  }

  function Rank(ps: seq<Pipe>, id: string, p: nat): nat
    requires p <= |ps|
  {
    |OutcomesOf(ps[..p], id)|
  }

  function PhaseOf(s: State, id: string): Phase
    requires Settlement(s)
  {
    if id !in s.promises then Idle
    else if id in s.lists then Collecting(Rank(s.pipes, id, s.promises[id]), s.lists[id])
    else Waiting(Rank(s.pipes, id, s.promises[id]))
  }

  function Project(s: State, id: string): Local
    requires Settlement(s)
  {
    Local(PhaseOf(s, id), OutcomesOf(s.pipes, id), EventsOf(s.unclaimed, id))
  }

  // ---------- lemmas about the filters ----------

  lemma {:induction false} OutcomesSnoc(ps: seq<Pipe>, p: Pipe, id: string)
    ensures OutcomesOf(ps + [p], id) == if p.id == id then OutcomesOf(ps, id) + [p.outcome] else OutcomesOf(ps, id)
  {
    assert (ps + [p])[..|ps|] == ps;
  }

  lemma {:induction false} EventsSnoc(es: seq<Dict>, e: Dict, id: string)
    ensures EventsOf(es + [e], id) == if IdOf(e) == Some(id) then EventsOf(es, id) + [e] else EventsOf(es, id)
  {
    assert (es + [e])[..|es|] == es;
  }

  lemma {:induction false} OnlySnoc(ops: seq<Op>, op: Op, id: string)
    ensures Only(ops + [op], id) == if Concerns(op, id) then Only(ops, id) + [op] else Only(ops, id)
  {
    assert (ops + [op])[..|ops|] == ops;
  }

  /** A pipe keeps its rank among the pipes of its identifier, and settling it changes just that entry. */
  lemma {:induction false} OutcomesUpdate(ps: seq<Pipe>, p: nat, o: Option<Outcome>, id: string)
    requires p < |ps|
    ensures var qs := ps[p := Pipe(ps[p].id, o)];
            if ps[p].id == id
            then Rank(ps, id, p) < |OutcomesOf(ps, id)| &&
                 OutcomesOf(ps, id)[Rank(ps, id, p)] == ps[p].outcome &&
                 OutcomesOf(qs, id) == OutcomesOf(ps, id)[Rank(ps, id, p) := o]
            else OutcomesOf(qs, id) == OutcomesOf(ps, id)
  {
    var n := |ps| - 1;
    var qs := ps[p := Pipe(ps[p].id, o)];
    if p < n {
      OutcomesUpdate(ps[..n], p, o, id);
      assert qs[..n] == ps[..n][p := Pipe(ps[p].id, o)];
      assert ps[..n][..p] == ps[..p];
    } else {
      assert qs[..n] == ps[..n];
    }
  }

  /** Settling another identifier's pipe leaves ranks alone. */
  lemma {:induction false} RankUpdate(ps: seq<Pipe>, p: nat, o: Option<Outcome>, id: string, q: nat)
    requires p < |ps| && ps[p].id != id && q <= |ps|
    ensures Rank(ps[p := Pipe(ps[p].id, o)], id, q) == Rank(ps, id, q)
  {
    var qs := ps[p := Pipe(ps[p].id, o)];
    if p < q {
      assert qs[..q] == ps[..q][p := Pipe(ps[p].id, o)];
      OutcomesUpdate(ps[..q], p, o, id);
    } else {
      assert qs[..q] == ps[..q];
    }
  }

  // ---------- the dispatcher is the product of the automata ----------

  lemma {:induction false} ProjectSettle(s: State, own: string, o: Outcome, id: string)
    requires Valid(s) && own in s.promises
    ensures Settlement(Settle(s, own, o))
    ensures var t := Settle(s, own, o);
            if id == own then Sound(Project(s, id)) && Project(t, id) == Finish(Project(s, id), o)
            else Project(t, id) == Project(s, id)
  {
    hide OutcomesOf, EventsOf, WellFormed, Assembling;
    SettleKeeps(s, own, if o.Value? then Null else o, s.discarded);
    var p := s.promises[own];
    OutcomesUpdate(s.pipes, p, Some(o), id);
    if id != own && id in s.promises {
      RankUpdate(s.pipes, p, Some(o), id, s.promises[id]);
    }
  }

  lemma {:induction false} ProjectRegister(s: State, own: string, id: string)
    requires Valid(s)
    ensures Settlement(RegisterPipe(s, own))
    ensures var t := RegisterPipe(s, own);
            if id == own then Sound(Project(s, id)) && Project(t, id) == LocalStep(Project(s, id), Register(own))
            else Project(t, id) == Project(s, id)
  {
    hide OutcomesOf, EventsOf, WellFormed, Assembling;
    RegisterKeeps(s, own);
    var t := RegisterPipe(s, own);
    OutcomesSnoc(s.pipes, t.pipes[|s.pipes|], id);
    assert t.pipes[..|s.pipes|] == s.pipes;
    if id in s.promises {
      var p := s.promises[id];
      assert t.pipes[..p] == s.pipes[..p];
      OutcomesUpdate(s.pipes, p, None, id);
    }
  }

  /** One step, seen from one identifier: the automaton's step if the operation is about it, nothing if not. */
  lemma {:induction false} ProjectStep(s: State, op: Op, id: string)
    requires Valid(s)
    ensures Settlement(Apply(s, op)) && Sound(Project(s, id))
    ensures Project(Apply(s, op), id) ==
            if Concerns(op, id) then LocalStep(Project(s, id), op) else Project(s, id)
  {
    hide OutcomesOf, EventsOf, WellFormed, Assembling, Route, Close, RegisterPipe;
    StepKeeps(s, op);
    if id in s.promises {
      OutcomesUpdate(s.pipes, s.promises[id], None, id);
    }
    match op
    case Register(own) => ProjectRegister(s, own, id);
    case Arrive(e) =>
      EventsSnoc(s.unclaimed, e, id);
      if IdOf(e).Some? && IdOf(e).value in s.promises {
        ProjectRoute(s, IdOf(e).value, e, id);
      }
    case Fail(own, what) => ProjectClose(s, own, Error(what), id);
    case Nullify(own) => ProjectClose(s, own, Null, id);
  }

  lemma {:induction false} ProjectRoute(s: State, own: string, e: Dict, id: string)
    requires Valid(s) && own in s.promises && IdOf(e) == Some(own)
    ensures Settlement(Route(s, own, e))
    ensures var t := Route(s, own, e);
            if id == own then Sound(Project(s, id)) && Project(t, id) == LocalStep(Project(s, id), Arrive(e))
            else Project(t, id) == Project(s, id)
  {
    hide OutcomesOf, EventsOf, WellFormed, Assembling;
    RouteKeeps(s, own, e);
    OutcomesUpdate(s.pipes, s.promises[own], None, own);
    if own !in s.lists {
      ProjectSettle(s, own, Value(Single(e)), id);
      ProjectSettle(s, own, Value(Many(Listing(e, [], None))), id);
    } else {
      ProjectSettle(s, own, Value(Many(s.lists[own].(tail := Some(e)))), id);
    }
  }

  lemma {:induction false} ProjectClose(s: State, own: string, o: Outcome, id: string)
    requires Valid(s) && !o.Value?
    ensures Settlement(Close(s, own, o))
    ensures var t := Close(s, own, o);
            if id == own then
              Sound(Project(s, id)) &&
              Project(t, id) == if Project(s, id).phase.Idle? then Project(s, id) else Finish(Project(s, id), o)
            else Project(t, id) == Project(s, id)
  {
    hide OutcomesOf, EventsOf, WellFormed, Assembling;
    CloseKeeps(s, own, o);
    if own in s.promises {
      ProjectSettle(s, own, o, id);
    }
  }

  /** For every run: the view of an identifier is the automaton run on the operations about it. */
  lemma {:induction false} Independent(ops: seq<Op>, id: string)
    ensures Project(Run(ops), id) == LocalRun(Only(ops, id))
  {
    if |ops| > 0 {
      var n := |ops| - 1;
      Independent(ops[..n], id);
      ProjectStep(Run(ops[..n]), ops[n], id);
      if Concerns(ops[n], id) {
        assert (Only(ops[..n], id) + [ops[n]])[..|Only(ops[..n], id)|] == Only(ops[..n], id);
      }
    }
  }

  lemma {:induction false} OnlyTwice(ops: seq<Op>, id: string)
    ensures Only(Only(ops, id), id) == Only(ops, id)
  {
    if |ops| > 0 {
      var n := |ops| - 1;
      OnlyTwice(ops[..n], id);
      if Concerns(ops[n], id) {
        OnlySnoc(Only(ops[..n], id), ops[n], id);
      }
    }
  }

  /**
   * Non-interference: pending pipe, working list, outcomes and unclaimed events of an identifier are what they
   * would have been had only the operations about that identifier taken place.
   */
  lemma {:induction false} NonInterference(ops: seq<Op>, id: string)
    ensures Project(Run(ops), id) == Project(Run(Only(ops, id)), id)
  {
    Independent(ops, id);
    Independent(Only(ops, id), id);
    OnlyTwice(ops, id);
  }

  // ---------- list assembly ----------

  function Arrivals(ops: seq<Op>): seq<Dict> {
    if |ops| == 0 then []
    else
      var init, op := Arrivals(ops[..|ops| - 1]), ops[|ops| - 1];
      if op.Arrive? then init + [op.event] else init
  }

  lemma {:induction false} ArrivalsSnoc(ops: seq<Op>, op: Op)
    ensures Arrivals(ops + [op]) == if op.Arrive? then Arrivals(ops) + [op.event] else Arrivals(ops)
  {
    assert (ops + [op])[..|ops|] == ops;
  }

  predicate Closes(op: Op) {
    op.Fail? || op.Nullify?
  }

  /** From operation i on, the events are exactly es, the first of them arrives at i, and nothing closes the pipe. */
  ghost predicate Since(ops: seq<Op>, i: nat, es: seq<Dict>) {
    && i < |ops| && ops[i].Arrive?
    && Arrivals(ops[i..]) == es
    && (forall j :: i <= j < |ops| ==> !Closes(ops[j]))
  }

  lemma {:induction false} SinceSnoc(ops: seq<Op>, i: nat, es: seq<Dict>, op: Op)
    requires Since(ops, i, es) && !Closes(op)
    ensures Since(ops + [op], i, if op.Arrive? then es + [op.event] else es)
  {
    assert (ops + [op])[i..] == ops[i..] + [op];
    assert (ops[i..] + [op])[..|ops[i..]|] == ops[i..];
  }

  lemma {:induction false} SinceStart(ops: seq<Op>, e: Dict)
    ensures Since(ops + [Arrive(e)], |ops|, [e])
  {
    assert (ops + [Arrive(e)])[|ops|..] == [Arrive(e)];
    assert [Arrive(e)][..0] == [];
  }

  /** A list being collected is the uninterrupted stretch of the identifier's events since its head. */
  lemma {:induction false} CollectedSoFar(ops: seq<Op>) returns (i: nat)
    requires LocalRun(ops).phase.Collecting?
    ensures LocalRun(ops).phase.list.tail.None?
    ensures Since(ops, i, LocalRun(ops).phase.list.Events())
  {
    var n := |ops| - 1;
    var init, op := ops[..n], ops[n];
    var l := LocalRun(init);
    assert ops == init + [op];
    if l.phase.Collecting? {
      i := CollectedSoFar(init);
      SinceSnoc(init, i, l.phase.list.Events(), op);
      if op.Arrive? {
        ListingGrows(l.phase.list, op.event);
      }
    } else {
      i := n;
      SinceStart(init, op.event);
      assert Listing(op.event, [], None).Events() == [op.event];
    }
  }

  /**
   * A reaction delivered to a pipe consists of the identifier's events from the one that opened it to the one
   * just routed, all of them, in order, with no other event of the identifier and no close in between.
   */
  lemma {:induction false} DeliveredReaction(ops: seq<Op>, op: Op, k: nat) returns (i: nat)
    requires var l, t := LocalRun(ops), LocalStep(LocalRun(ops), op);
             && k < |l.outcomes| && l.outcomes[k].None?
             && t.outcomes[k].Some? && t.outcomes[k].value.Value?
    ensures op.Arrive?
    ensures Since(ops + [op], i, LocalStep(LocalRun(ops), op).outcomes[k].value.reaction.Events())
  {
    var l := LocalRun(ops);
    if l.phase.Collecting? {
      i := CollectedSoFar(ops);
      var list := l.phase.list;
      SinceSnoc(ops, i, list.Events(), op);
      ListingGrows(list, op.event);
    } else {
      i := |ops|;
      SinceStart(ops, op.event);
      assert Listing(op.event, [], None).Events() == [op.event];
    }
  }

  lemma {:induction false} RankById(ps: seq<Pipe>, qs: seq<Pipe>, id: string, p: nat)
    requires p <= |ps| && p <= |qs| && forall i :: 0 <= i < p ==> ps[i].id == qs[i].id
    ensures Rank(ps, id, p) == Rank(qs, id, p)
  {
    if p > 0 {
      RankById(ps, qs, id, p - 1);
      assert ps[..p][..p - 1] == ps[..p - 1] && qs[..p][..p - 1] == qs[..p - 1];
    }
  }

  /**
   * The same for the whole dispatcher: when a step delivers a reaction to a pipe, its events are all events of
   * the pipe's identifier that arrived from a certain operation on, in order, up to and including this step;
   * and a list reports success exactly when it was completed.
   */
  lemma {:induction false} AssembledReaction(ops: seq<Op>, op: Op, k: nat) returns (i: nat)
    requires k < |Run(ops).pipes| && Run(ops).pipes[k].outcome.None?
    requires var o := Apply(Run(ops), op).pipes[k].outcome; o.Some? && o.value.Value?
    ensures var r := Apply(Run(ops), op).pipes[k].outcome.value.reaction;
            var id := Run(ops).pipes[k].id;
            && Concerns(op, id) && WellFormed(id, r) && Since(Only(ops, id) + [op], i, r.Events())
            && (r.Many? ==> (r.IsSuccess() <==> r.list.tail.Some?))
  {
    hide OutcomesOf, Apply, Run, Only, LocalStep, LocalRun;
    var s, t := Run(ops), Apply(Run(ops), op);
    var id := s.pipes[k].id;
    StepKeeps(s, op);
    forall j: nat | j < |s.pipes| ensures j < |t.pipes| && t.pipes[j].id == s.pipes[j].id {
      SettledForever(s, op, j);
    }
    RankById(s.pipes, t.pipes, id, k);
    OutcomesUpdate(s.pipes, k, None, id);
    OutcomesUpdate(t.pipes, k, None, id);
    Independent(ops, id);
    ProjectStep(s, op, id);
    assert Concerns(op, id);
    i := DeliveredReaction(Only(ops, id), op, Rank(s.pipes, id, k));
  }
}
