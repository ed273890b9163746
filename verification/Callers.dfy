/** What callers can rely on: exactly when a call gets its due, and what its reaction is made of. */
module Callers {
  import opened Text
  import opened Messages
  import opened EventLists
  import opened Dispatch
  import opened Invocation
  import I = Independence
  import P = Pipeline
  import Wire
  import opened Framing

  // ---------- a run, step by step ----------

  lemma {:induction false} PrefixRuns(run: seq<Step>, j: nat)
    requires Exec(run).Some? && j <= |run|
    ensures Exec(run[..j]).Some?
  {
    hide After, CanHappen, Settlement;
    if j < |run| {
      PrefixRuns(run[..|run| - 1], j);
      assert run[..|run| - 1][..j] == run[..j];
    } else {
      assert run[..j] == run;
    }
  }

  /** The world in which step j of a run is taken; for j at the end of the run, its last world. */
  ghost function WorldAt(run: seq<Step>, j: nat): (w: World)
    requires Exec(run).Some? && j <= |run|
    ensures Exec(run[..j]) == Some(w) && Inv(w) && Traceable(w)
    ensures j == |run| ==> w == Exec(run).value
  {
    PrefixRuns(run, j);
    Reachable(run[..j]);
    TraceableRun(run[..j]);
    assert j == |run| ==> run[..j] == run;
    Exec(run[..j]).value
  }

  lemma {:induction false} StepAt(run: seq<Step>, j: nat)
    requires Exec(run).Some? && j < |run|
    ensures CanHappen(WorldAt(run, j), run[j]) && WorldAt(run, j + 1) == After(WorldAt(run, j), run[j])
  {
    hide WorldAt, After, CanHappen, Traceable, CallInv, Assembly;
    var next := run[..j + 1];
    assert next[..|next| - 1] == run[..j];
    assert Exec(next) == Some(WorldAt(run, j + 1)) && Exec(run[..j]) == Some(WorldAt(run, j));
  }

  lemma {:induction false} PrefixWorlds(run: seq<Step>, j: nat, k: nat)
    requires Exec(run).Some? && k <= j <= |run|
    ensures Exec(run[..j]) == Some(WorldAt(run, j)) && WorldAt(run[..j], k) == WorldAt(run, k)
  {
    assert run[..j][..k] == run[..k];
  }

  /** Calls keep identifier and pipe, and a settled call its outcome. */
  lemma {:induction false} Later(run: seq<Step>, j: nat, k: nat, c: nat)
    requires Exec(run).Some? && j <= k <= |run| && c in WorldAt(run, j).calls
    ensures c in WorldAt(run, k).calls && WorldAt(run, k).calls[c].id == WorldAt(run, j).calls[c].id
    ensures IsSettled(WorldAt(run, j), c) ==> OutcomeOf(WorldAt(run, k), c) == OutcomeOf(WorldAt(run, j), c)
  {
    hide Exec, WorldAt, After, CanHappen, Settlement, Assembly, Traceable;
    if j < k {
      Later(run, j, k - 1, c);
      var w := WorldAt(run, k - 1);
      StepAt(run, k - 1);
      CallsKept(w, run[k - 1]);
      DispatcherMoves(w, run[k - 1]);
    }
  }

  lemma {:induction false} StartAt(run: seq<Step>)
    requires Exec(run).Some?
    ensures WorldAt(run, 0) == IDLE
  {
    assert run[..0] == [];
  }

  /** Every call began at some step. */
  lemma {:induction false} BeginOf(run: seq<Step>, j: nat, c: nat) returns (i: nat)
    requires Exec(run).Some? && j <= |run| && c in WorldAt(run, j).calls
    ensures i < j && run[i].Begin? && run[i].c == c && run[i].id == WorldAt(run, j).calls[c].id
  {
    hide Exec, WorldAt, Apply, CallInv, Settlement, Assembly, Traceable;
    if j == 0 {
      StartAt(run);
    } else {
      StepAt(run, j - 1);
      if c in WorldAt(run, j - 1).calls {
        i := BeginOf(run, j - 1, c);
        Later(run, j - 1, j, c);
      } else {
        i := j - 1;
      }
    }
  }

  // ---------- what can become of a call ----------

  /** Another call is waiting under the identifier, whose promise a new one cannot replace. */
  ghost predicate Taken(w: World, id: string) {
    exists d :: d in w.calls && w.calls[d].id == id && !IsSettled(w, d)
  }

  /** The step closes the pending pipe of call c: the timeout of c itself or of a call with the same identifier. */
  ghost predicate ClosesCall(w: World, st: Step, c: nat) {
    && st.Abort? && st.c in w.calls && c in w.calls
    && w.calls[st.c].id == w.calls[c].id && !IsSettled(w, c)
  }

  /** The pipe of a call is pending under its identifier exactly while the call is unsettled. */
  lemma {:induction false} TakenIsPending(w: World, id: string)
    requires Inv(w) && Traceable(w)
    ensures Taken(w, id) <==> id in w.disp.promises
  {
    hide Traceable, Assembly;
    if id in w.disp.promises {
      var d := CallOfPromise(w, id);
    }
    forall d | d in w.calls && w.calls[d].id == id && !IsSettled(w, d) ensures id in w.disp.promises {
      assert CallInv(w, d);
      UnsettledIsPending(w.disp, w.calls[d].pipe);
    }
  }

  /** A new call is broken at once iff its identifier is taken. */
  lemma {:induction false} BeginOutcome(run: seq<Step>, i: nat)
    requires Exec(run).Some? && i < |run| && run[i].Begin?
    ensures var w, v, c := WorldAt(run, i), WorldAt(run, i + 1), run[i].c;
            && c !in w.calls && c in v.calls && InPhase(v, c, Registered) && v.calls[c].id == run[i].id
            && OutcomeOf(v, c) == if Taken(w, run[i].id) then Some(Broken) else None
  {
    hide Exec, WorldAt, Apply, CallInv, Assembly, Settlement, Traceable, Taken;
    StepAt(run, i);
    TakenIsPending(WorldAt(run, i), run[i].id);
    NewPipe(WorldAt(run, i).disp, run[i].id);
  }

  /** What a step delivers under an identifier: one event or none. */
  function Fresh(w: World, st: Step, id: string): seq<Dict>
    requires CanHappen(w, st)
  {
    if st == Deliver && IdOf(w.inFlight[0]) == Some(id) then [w.inFlight[0]] else []
  }

  /** A step leaves a pending call pending, gives it a reaction, or closes it on a timeout. */
  lemma {:induction false} PendingStep(w: World, st: Step, c: nat)
    requires Inv(w) && CanHappen(w, st) && c in w.calls && !IsSettled(w, c)
    ensures var o := OutcomeOf(After(w, st), c);
            if ClosesCall(w, st, c) then o == Some(Error(TimeoutText(w.calls[c].id)))
            else o.Some? ==> Fresh(w, st, w.calls[c].id) != [] && o.value.Value?
  {
    hide Apply, Assembly, Settlement, TimeoutText;
    assert CallInv(w, c);
    var k := w.calls[c].pipe;
    UnsettledIsPending(w.disp, k);
    match st
    case Begin(_, id, _) => NewPipe(w.disp, id);
    case Deliver =>
      var e := w.inFlight[0];
      ArrivalEffect(w.disp, e);
      if IdOf(e).Some? && IdOf(e).value in w.disp.promises {
        PendingInRange(w.disp, IdOf(e).value);
      }
    case Abort(d) =>
      var id := w.calls[d].id;
      FailEffect(w.disp, id, TimeoutText(id));
      if id in w.disp.promises {
        PendingInRange(w.disp, id);
      }
      if id == w.calls[c].id {
        CloseSettlesAll(w.disp, id, Error(TimeoutText(id)), k);
        ApplyFail(w.disp, id, TimeoutText(id));
      }
    case _ =>
  }

  /** Only an expired wait takes a pending call past its time limit, and it stays there while it is pending. */
  lemma {:induction false} PhaseStep(w: World, st: Step, c: nat)
    requires Inv(w) && CanHappen(w, st) && c in w.calls && !IsSettled(w, c) && !IsSettled(After(w, st), c)
    ensures InPhase(After(w, st), c, Expired) <==> InPhase(w, c, Expired) || st == Expire(c)
  {
    hide Apply, Assembly, Settlement, TimeoutText, Valid;
    PendingStep(w, st, c);
  }

  lemma {:induction false} ExpiredIff(run: seq<Step>, i: nat, j: nat, c: nat)
    requires Exec(run).Some? && i <= j <= |run| && InPhase(WorldAt(run, i), c, Registered)
    requires !IsSettled(WorldAt(run, j), c)
    ensures InPhase(WorldAt(run, j), c, Expired) <==> exists k :: i <= k < j && run[k] == Expire(c)
  {
    hide Exec, WorldAt, Inv, Traceable, After, CanHappen, IsSettled;
    if i < j {
      var w := WorldAt(run, j - 1);
      Later(run, i, j - 1, c);
      StepAt(run, j - 1);
      if IsSettled(w, c) {
        SettledStays(run, j - 1, c);
      } else {
        ExpiredIff(run, i, j - 1, c);
        PhaseStep(w, run[j - 1], c);
      }
    }
  }

  lemma {:induction false} SettledStays(run: seq<Step>, j: nat, c: nat)
    requires Exec(run).Some? && j < |run| && IsSettled(WorldAt(run, j), c)
    ensures IsSettled(WorldAt(run, j + 1), c)
  {
    hide Exec, WorldAt, Inv, Traceable;
    Later(run, j, j + 1, c);
  }

  /** The step that settles a call, if it is settled later than at registration. */
  lemma {:induction false} SettlingStep(run: seq<Step>, i: nat, j: nat, c: nat) returns (k: nat)
    requires Exec(run).Some? && i <= j <= |run|
    requires !IsSettled(WorldAt(run, i), c) && IsSettled(WorldAt(run, j), c)
    ensures i <= k < j && !IsSettled(WorldAt(run, k), c) && IsSettled(WorldAt(run, k + 1), c)
  {
    hide Exec, WorldAt, Inv, Traceable, IsSettled;
    if IsSettled(WorldAt(run, j - 1), c) {
      k := SettlingStep(run, i, j - 1, c);
    } else {
      k := j - 1;
    }
  }

  /** A call that is closed stays so. */
  lemma {:induction false} ClosedForGood(run: seq<Step>, k: nat, c: nat)
    requires Exec(run).Some? && k < |run| && ClosesCall(WorldAt(run, k), run[k], c)
    ensures OutcomeOf(Exec(run).value, c) == Some(Error(TimeoutText(WorldAt(run, k).calls[c].id)))
    ensures c in Exec(run).value.calls && Exec(run).value.calls[c].id == WorldAt(run, k).calls[c].id
  {
    hide Exec, WorldAt, Inv, Traceable, After, TimeoutText;
    StepAt(run, k);
    PendingStep(WorldAt(run, k), run[k], c);
    Later(run, k, k + 1, c);
    Later(run, k + 1, |run|, c);
    assert WorldAt(run, |run|) == Exec(run).value;
  }

  /**
   * Everything that can become of the call that begins at step i, whatever identifiers are in use: its promise is
   * broken iff the identifier was taken; it gets a timeout error, always with its own text, iff some timeout
   * under its identifier found it pending; and otherwise it is pending still or has a reaction.
   */
  lemma {:induction false} Outcomes(run: seq<Step>, i: nat)
    requires Exec(run).Some? && i < |run| && run[i].Begin?
    ensures var c, id := run[i].c, run[i].id;
            var o := OutcomeOf(Exec(run).value, c);
            && (o == Some(Broken) <==> Taken(WorldAt(run, i), id))
            && (o == Some(Error(TimeoutText(id))) <==>
                  exists k :: i < k < |run| && ClosesCall(WorldAt(run, k), run[k], c))
            && (o.Some? ==> o.value in {Broken, Error(TimeoutText(id))} || o.value.Value?)
  {
    hide Exec, WorldAt, Inv, Traceable, After, Taken, TimeoutText, CanHappen, ClosesCall;
    var c, id, n := run[i].c, run[i].id, |run|;
    BeginOutcome(run, i);
    Later(run, i + 1, n, c);
    assert WorldAt(run, n) == Exec(run).value;
    if !IsSettled(WorldAt(run, i + 1), c) && IsSettled(WorldAt(run, n), c) {
      var k := SettlingStep(run, i + 1, n, c);
      Later(run, i + 1, k, c);
      Later(run, k + 1, n, c);
      StepAt(run, k);
      PendingStep(WorldAt(run, k), run[k], c);
    }
    forall k | i < k < n && ClosesCall(WorldAt(run, k), run[k], c)
      ensures OutcomeOf(WorldAt(run, n), c) == Some(Error(TimeoutText(id)))
    {
      ClosedForGood(run, k, c);
      Later(run, i + 1, k, c);
    }
  }

  /** Some timeout, before the call's own wait expired, closed the call's pending pipe. */
  ghost predicate CutShort(run: seq<Step>, i: nat)
    requires Exec(run).Some? && i < |run| && run[i].Begin?
  {
    exists k :: i < k < |run| && ClosesCall(WorldAt(run, k), run[k], run[i].c) &&
                !InPhase(WorldAt(run, k), run[i].c, Expired)
  }

  /** A call gets its due: a reaction, or a timeout error after its own wait has expired. */
  ghost predicate GetsItsDue(run: seq<Step>, c: nat)
    requires Exec(run).Some? && c in Exec(run).value.calls
  {
    match OutcomeOf(Exec(run).value, c)
    case Some(Value(_)) => true
    case Some(Error(what)) => what == TimeoutText(Exec(run).value.calls[c].id) && Expire(c) in run
    case _ => false
  }

  /**
   * The same seen from the end of a run, for every call of every run: once settled, a call has got its due iff its
   * identifier was free when it registered, and no other call's timeout under the
   * same identifier closed its pipe before its own wait had expired.
   */
  lemma {:induction false} SettledFairly(run: seq<Step>, i: nat)
    requires Exec(run).Some? && i < |run| && run[i].Begin? && IsSettled(Exec(run).value, run[i].c)
    ensures run[i].c in Exec(run).value.calls
    ensures GetsItsDue(run, run[i].c) <==> !Taken(WorldAt(run, i), run[i].id) && !CutShort(run, i)
  {
    hide Exec, WorldAt, Inv, Traceable, After, Taken, TimeoutText, CanHappen, ClosesCall, InPhase;
    var c, id, n := run[i].c, run[i].id, |run|;
    BeginOutcome(run, i);
    Later(run, i + 1, n, c);
    assert WorldAt(run, n) == Exec(run).value;
    Outcomes(run, i);
    forall k | i < k < n && ClosesCall(WorldAt(run, k), run[k], c)
      ensures InPhase(WorldAt(run, k), c, Expired) <==> Expire(c) in run
    {
      ClosedWhenExpired(run, i, k);
    }
  }

  /** A call that was closed had expired by then iff it ever expires. */
  lemma {:induction false} ClosedWhenExpired(run: seq<Step>, i: nat, k: nat)
    requires Exec(run).Some? && i < k < |run| && run[i].Begin? && ClosesCall(WorldAt(run, k), run[k], run[i].c)
    ensures InPhase(WorldAt(run, k), run[i].c, Expired) <==> Expire(run[i].c) in run
  {
    hide Exec, WorldAt, Inv, Traceable, After, Apply, TimeoutText;
    var c := run[i].c;
    BeginOutcome(run, i);
    ExpiredIff(run, i + 1, k, c);
    forall j: nat | j < |run| && run[j] == Expire(c) ensures i < j < k {
      StepAt(run, j);
      if j < i {
        Later(run, j, i, c);
      } else if j > k {
        PrefixWorlds(run, j, k);
        ClosedForGood(run[..j], k, c);
      }
    }
  }

  // ---------- what a caller can see when it registers ----------

  /** Another call with the identifier has given up waiting and is about to close whatever pipe is then pending. */
  ghost predicate Closing(w: World, id: string) {
    exists d :: d in w.calls && w.calls[d].id == id && InPhase(w, d, Expired)
  }

  /** The world in which the last step of a run is a call's registration, seen from the run and its continuations. */
  lemma {:induction false} Registering(run: seq<Step>, begun: seq<Step>) returns (w: World)
    requires |begun| > 0 && begun[..|begun| - 1] == run && begun[|run|].Begin? && Exec(begun).Some?
    ensures Exec(run) == Some(w) && Inv(w) && w == WorldAt(begun, |run|)
  {
    w := WorldAt(begun, |run|);
  }

  lemma {:induction false} Continued(run: seq<Step>, more: seq<Step>, j: nat)
    requires Exec(run + more).Some? && j <= |run|
    ensures Exec(run).Some? && WorldAt(run + more, j) == WorldAt(run, j)
  {
    FirstSettlementWins(run, more);
    assert (run + more)[..j] == run[..j];
  }

  /** Every other call with the identifier of call c is settled and not about to close a pipe. */
  ghost predicate Alone(w: World, c: nat) {
    c in w.calls && forall d :: d in w.calls && d != c && w.calls[d].id == w.calls[c].id ==>
      IsSettled(w, d) && !InPhase(w, d, Expired)
  }

  lemma {:induction false} AloneStep(w: World, st: Step, c: nat)
    requires Inv(w) && Traceable(w) && CanHappen(w, st) && Alone(w, c) && !IsSettled(w, c)
    ensures Alone(After(w, st), c)
  {
    hide Apply, Assembly, Settlement, TimeoutText, Traceable, CallInv, OutcomeOf;
    var v := After(w, st);
    KeptSettled(w, st);
    if st.Begin? && st.id == w.calls[c].id {
      NewcomerBroken(w, st, c);
    }
    forall d | d in v.calls && d != c && v.calls[d].id == v.calls[c].id
      ensures IsSettled(v, d) && !InPhase(v, d, Expired)
    {
      assert d in w.calls ==> IsSettled(w, d);
    }
  }

  /** A step keeps calls, their identifiers and their outcomes. */
  lemma {:induction false} KeptSettled(w: World, st: Step)
    requires Inv(w) && CanHappen(w, st)
    ensures forall d :: d in w.calls ==>
              && d in After(w, st).calls && After(w, st).calls[d].id == w.calls[d].id
              && (IsSettled(w, d) ==> IsSettled(After(w, st), d))
  {
    hide Apply, Assembly, Settlement, After, CallInv;
    CallsKept(w, st);
    DispatcherMoves(w, st);
  }

  lemma {:induction false} NewcomerBroken(w: World, st: Step, c: nat)
    requires Inv(w) && Traceable(w) && CanHappen(w, st) && c in w.calls && !IsSettled(w, c)
    requires st.Begin? && st.id == w.calls[c].id
    ensures IsSettled(After(w, st), st.c)
  {
    hide Apply, Assembly, Settlement, CallInv, Traceable, Taken;
    assert Taken(w, st.id) by {
      TakenBy(w, c);
    }
    TakenIsPending(w, st.id);
    NewPipe(w.disp, st.id);
  }

  lemma {:induction false} TakenBy(w: World, c: nat)
    requires c in w.calls && !IsSettled(w, c)
    ensures Taken(w, w.calls[c].id)
  {
  }

  lemma {:induction false} AloneAtFirst(run: seq<Step>, i: nat)
    requires Exec(run).Some? && i < |run| && run[i].Begin?
    requires !Taken(WorldAt(run, i), run[i].id) && !Closing(WorldAt(run, i), run[i].id)
    ensures Alone(WorldAt(run, i + 1), run[i].c)
  {
    hide Exec, WorldAt, Traceable, CallInv, Apply, Assembly, Settlement;
    var w, c := WorldAt(run, i), run[i].c;
    BeginOutcome(run, i);
    StepAt(run, i);
    KeptSettled(w, run[i]);
    assert WorldAt(run, i + 1).calls == w.calls[c := WorldAt(run, i + 1).calls[c]];
  }

  lemma {:induction false} AloneWhilePending(run: seq<Step>, i: nat, j: nat)
    requires Exec(run).Some? && i < j <= |run| && run[i].Begin?
    requires !Taken(WorldAt(run, i), run[i].id) && !Closing(WorldAt(run, i), run[i].id)
    requires !IsSettled(WorldAt(run, j), run[i].c)
    ensures Alone(WorldAt(run, j), run[i].c)
  {
    hide Exec, WorldAt, Inv, Traceable, IsSettled, Taken, Closing, Alone, CanHappen;
    if i + 1 == j {
      AloneAtFirst(run, i);
    } else {
      if IsSettled(WorldAt(run, j - 1), run[i].c) {
        SettledStays(run, j - 1, run[i].c);
      }
      AloneWhilePending(run, i, j - 1);
      StepAt(run, j - 1);
      AloneStep(WorldAt(run, j - 1), run[j - 1], run[i].c);
    }
  }

  lemma {:induction false} NeverCutShort(run: seq<Step>, i: nat)
    requires Exec(run).Some? && i < |run| && run[i].Begin?
    requires !Taken(WorldAt(run, i), run[i].id) && !Closing(WorldAt(run, i), run[i].id)
    ensures !CutShort(run, i)
  {
    hide Exec, WorldAt, Inv, Traceable, Taken, Closing;
    forall k | i < k < |run| && ClosesCall(WorldAt(run, k), run[k], run[i].c)
      ensures InPhase(WorldAt(run, k), run[i].c, Expired)
    {
      AloneWhilePending(run, i, k);
      StepAt(run, k);
    }
  }

  /** However the run goes on, call c gets its due if it is settled at all. */
  ghost predicate Assured(run: seq<Step>, c: nat) {
    forall more :: Exec(run + more).Some? && IsSettled(Exec(run + more).value, c) ==> GetsItsDue(run + more, c)
  }

  /**
   * The guarantee for callers, and exactly when it holds. A call that registers is assured of its due, however the run
   * goes on, iff at that moment no call with the same identifier is pending, and none has given up waiting
   * without having closed the pipe yet.
   */
  lemma {:induction false} Guarantee(run: seq<Step>, c: nat, id: string, timed: bool)
    requires Exec(run + [Begin(c, id, timed)]).Some?
    ensures Exec(run).Some?
    ensures Assured(run + [Begin(c, id, timed)], c) <==> !Taken(Exec(run).value, id) && !Closing(Exec(run).value, id)
  {
    hide Exec, WorldAt, Inv, Traceable, Taken, Closing, GetsItsDue, CutShort;
    var begun, i := run + [Begin(c, id, timed)], |run|;
    var w := Registering(run, begun);
    if Taken(w, id) {
      TakenNotAssured(begun, i);
    } else if Closing(w, id) {
      ClosingNotAssured(begun, i);
    } else {
      forall more | Exec(begun + more).Some? && IsSettled(Exec(begun + more).value, c)
        ensures GetsItsDue(begun + more, c)
      {
        Continued(begun, more, i);
        NeverCutShort(begun + more, i);
        SettledFairly(begun + more, i);
      }
    }
  }

  lemma {:induction false} TakenNotAssured(begun: seq<Step>, i: nat)
    requires Exec(begun).Some? && i == |begun| - 1 && begun[i].Begin? && Taken(WorldAt(begun, i), begun[i].id)
    ensures !Assured(begun, begun[i].c)
  {
    hide Exec, WorldAt, Inv, Traceable, Taken, CutShort, GetsItsDue;
    BeginOutcome(begun, i);
    assert WorldAt(begun, i + 1) == Exec(begun).value;
    SettledFairly(begun, i);
    EmptyUnit([], begun);
    assert !GetsItsDue(begun + [], begun[i].c);
  }

  lemma {:induction false} ClosingNotAssured(begun: seq<Step>, i: nat)
    requires Exec(begun).Some? && i == |begun| - 1 && begun[i].Begin?
    requires !Taken(WorldAt(begun, i), begun[i].id) && Closing(WorldAt(begun, i), begun[i].id)
    ensures !Assured(begun, begun[i].c)
  {
    hide Exec, WorldAt, Inv, Traceable, Taken, GetsItsDue, TimeoutText, Apply;
    var w, v := WorldAt(begun, i), WorldAt(begun, i + 1);
    var d :| d in w.calls && w.calls[d].id == begun[i].id && InPhase(w, d, Expired);
    BeginOutcome(begun, i);
    StepAt(begun, i);
    assert v == Exec(begun).value && CanHappen(v, Abort(d)) && ClosesCall(v, Abort(d), begun[i].c);
    var u := PossibleIsTaken(begun, Abort(d));
    var more := [Abort(d)];
    Continued(begun, more, i);
    Continued(begun, more, i + 1);
    ClosedForGood(begun + more, i + 1, begun[i].c);
    assert CutShort(begun + more, i);
    SettledFairly(begun + more, i);
    assert !GetsItsDue(begun + more, begun[i].c);
  }

  // ---------- events that bypass a call ----------

  /** A step while a call is pending leaves no event of its identifier to the callback. */
  lemma {:induction false} UnclaimedStep(w: World, st: Step, c: nat)
    requires Inv(w) && CanHappen(w, st) && c in w.calls && !IsSettled(w, c)
    ensures I.EventsOf(After(w, st).disp.unclaimed, w.calls[c].id) == I.EventsOf(w.disp.unclaimed, w.calls[c].id)
  {
    hide Apply, Assembly, Settlement, TimeoutText, I.EventsOf;
    assert CallInv(w, c);
    UnsettledIsPending(w.disp, w.calls[c].pipe);
    match st
    case Begin(_, id, _) => NewPipe(w.disp, id);
    case Deliver =>
      ArrivalEffect(w.disp, w.inFlight[0]);
      I.EventsSnoc(w.disp.unclaimed, w.inFlight[0], w.calls[c].id);
    case Abort(d) => FailEffect(w.disp, w.calls[d].id, TimeoutText(w.calls[d].id));
    case _ =>
  }

  /** Whatever identifiers are in use, no event of a call is left to the callback while the call is pending. */
  lemma {:induction false} NothingBypasses(run: seq<Step>, i: nat, j: nat)
    requires Exec(run).Some? && i < j <= |run| && run[i].Begin? && !IsSettled(WorldAt(run, j), run[i].c)
    ensures I.EventsOf(WorldAt(run, j).disp.unclaimed, run[i].id) ==
            I.EventsOf(WorldAt(run, i).disp.unclaimed, run[i].id)
  {
    hide Exec, WorldAt, Inv, Traceable, CanHappen, IsSettled, I.EventsOf;
    var c := run[i].c;
    BeginOutcome(run, i);
    if i + 1 < j {
      var w := WorldAt(run, j - 1);
      Later(run, i + 1, j - 1, c);
      StepAt(run, j - 1);
      if IsSettled(w, c) {
        SettledStays(run, j - 1, c);
      }
      NothingBypasses(run, i, j - 1);
      UnclaimedStep(w, run[j - 1], c);
    } else {
      BeginUnclaimed(run, i);
    }
  }

  lemma {:induction false} BeginUnclaimed(run: seq<Step>, i: nat)
    requires Exec(run).Some? && i < |run| && run[i].Begin?
    ensures WorldAt(run, i + 1).disp.unclaimed == WorldAt(run, i).disp.unclaimed
    ensures WorldAt(run, i + 1).called == WorldAt(run, i).called
  {
    hide Exec, WorldAt, Traceable, Apply, Assembly, Settlement;
    StepAt(run, i);
    NewPipe(WorldAt(run, i).disp, run[i].id);
  }

  /** What has been left to the callback and what was handed to it only grow. */
  lemma {:induction false} CallbackLater(run: seq<Step>, j: nat, k: nat)
    requires Exec(run).Some? && j <= k <= |run|
    ensures WorldAt(run, j).called <= WorldAt(run, k).called
    ensures WorldAt(run, j).disp.unclaimed <= WorldAt(run, k).disp.unclaimed
  {
    hide Exec, WorldAt, After, CanHappen, CallInv, Settlement, Assembly, Traceable;
    if j < k {
      CallbackLater(run, j, k - 1);
      StepAt(run, k - 1);
      CallbackStep(WorldAt(run, k - 1), run[k - 1]);
    }
  }

  /** Filtering a prefix gives a prefix. */
  lemma {:induction false} EventsPrefix(a: seq<Dict>, b: seq<Dict>, id: string)
    requires a <= b
    ensures I.EventsOf(b, id) == I.EventsOf(a, id) + I.EventsOf(b[|a|..], id)
  {
    EventsConcat(a, b[|a|..], id);
    assert a + b[|a|..] == b;
  }

  lemma {:induction false} CalledIsUnclaimed(w: World, id: string)
    requires Inv(w)
    ensures I.EventsOf(w.disp.unclaimed, id) == I.EventsOf(w.called, id) + I.EventsOf(Outstanding(w), id)
  {
    EventsPrefix(w.called, w.disp.unclaimed, id);
  }

  /**
   * Whatever identifiers are in use, the only event of a call that can be handed to the callback between its
   * registration and its settlement is the one that had already been left to the callback when the call registered.
   */
  lemma {:induction false} OneStraggler(run: seq<Step>, i: nat, j: nat)
    requires Exec(run).Some? && i < j <= |run| && run[i].Begin? && !IsSettled(WorldAt(run, j), run[i].c)
    ensures var w, v, id := WorldAt(run, i), WorldAt(run, j), run[i].id;
            I.EventsOf(v.called, id) ==
            I.EventsOf(w.called, id) + if |v.called| > |w.called| then I.EventsOf(Outstanding(w), id) else []
  {
    hide Exec, WorldAt, CallInv, Valid, Traceable, I.EventsOf, IsSettled;
    var w, v, id := WorldAt(run, i), WorldAt(run, j), run[i].id;
    NothingBypasses(run, i, j);
    CallbackLater(run, i, j);
    CalledIsUnclaimed(w, id);
    if |v.called| > |w.called| {
      EventsPrefix(w.disp.unclaimed, v.called, id);
      EventsPrefix(v.called, v.disp.unclaimed, id);
    } else {
      assert v.called == w.called;
      EmptyUnit([], I.EventsOf(w.called, id));
    }
  }

  /** However the run goes on, no event of the identifier is handed to the callback while call c is pending. */
  ghost predicate Unbypassed(run: seq<Step>, c: nat, id: string)
    requires Exec(run).Some?
  {
    forall more :: Exec(run + more).Some? && !IsSettled(Exec(run + more).value, c) ==>
      I.EventsOf(Exec(run + more).value.called, id) == I.EventsOf(Exec(run).value.called, id)
  }

  /**
   * A call that registers can count on no event of its identifier being handed to the callback while it is pending,
   * iff the identifier is taken (and the call is not pending at all) or the dispatcher is not just then about to hand
   * over such an event, which it had found unclaimed.
   */
  lemma {:induction false} Bypass(run: seq<Step>, c: nat, id: string, timed: bool)
    requires Exec(run + [Begin(c, id, timed)]).Some?
    ensures Exec(run).Some? && CallbackInv(Exec(run).value)
    ensures Unbypassed(run + [Begin(c, id, timed)], c, id) <==>
            Taken(Exec(run).value, id) || I.EventsOf(Outstanding(Exec(run).value), id) == []
  {
    hide Exec, WorldAt, CallInv, Valid, Traceable, Taken, I.EventsOf, IsSettled, Outstanding;
    var begun, i := run + [Begin(c, id, timed)], |run|;
    var w := Registering(run, begun);
    BeginUnclaimed(begun, i);
    if Taken(w, id) {
      TakenUnbypassed(begun, i);
    } else if I.EventsOf(Outstanding(w), id) == [] {
      forall more | Exec(begun + more).Some? && !IsSettled(Exec(begun + more).value, c)
        ensures I.EventsOf(Exec(begun + more).value.called, id) == I.EventsOf(Exec(begun).value.called, id)
      {
        Continued(begun, more, i);
        OneStraggler(begun + more, i, |begun + more|);
        EmptyUnit([], I.EventsOf(w.called, id));
      }
    } else {
      StragglerBypasses(begun, i);
    }
  }

  lemma {:induction false} TakenUnbypassed(begun: seq<Step>, i: nat)
    requires Exec(begun).Some? && i == |begun| - 1 && begun[i].Begin? && Taken(WorldAt(begun, i), begun[i].id)
    ensures Unbypassed(begun, begun[i].c, begun[i].id)
  {
    hide Exec, WorldAt, Inv, Traceable, Taken, I.EventsOf;
    BeginOutcome(begun, i);
    forall more | Exec(begun + more).Some? ensures IsSettled(Exec(begun + more).value, begun[i].c) {
      Continued(begun, more, i + 1);
      Later(begun + more, i + 1, |begun + more|, begun[i].c);
    }
  }

  lemma {:induction false} StragglerBypasses(begun: seq<Step>, i: nat)
    requires Exec(begun).Some? && i == |begun| - 1 && begun[i].Begin?
    requires !Taken(WorldAt(begun, i), begun[i].id)
    requires I.EventsOf(Outstanding(WorldAt(begun, i)), begun[i].id) != []
    ensures !Unbypassed(begun, begun[i].c, begun[i].id)
  {
    hide Exec, WorldAt, CallInv, Valid, Traceable, Taken, Apply;
    var w, v, id := WorldAt(begun, i), WorldAt(begun, i + 1), begun[i].id;
    BeginOutcome(begun, i);
    BeginUnclaimed(begun, i);
    assert v == Exec(begun).value;
    var e := HandedOver(v, id);
    var u := PossibleIsTaken(begun, CallBack);
    I.EventsSnoc(v.called, e, id);
    assert !IsSettled(u, begun[i].c);
    assert Exec(begun + [CallBack]) == Some(u) && I.EventsOf(u.called, id) != I.EventsOf(v.called, id);
  }

  lemma {:induction false} HandedOver(w: World, id: string) returns (e: Dict)
    requires CallbackInv(w) && I.EventsOf(Outstanding(w), id) != []
    ensures CanHappen(w, CallBack) && e == w.disp.unclaimed[|w.called|] && IdOf(e) == Some(id)
  {
    e := w.disp.unclaimed[|w.called|];
    assert Outstanding(w) == [e];
    assert [e][..0] == [];
  }

  /**
   * An event with an identifier that is delivered next is left to the callback, and changes nothing else, iff every
   * call with that identifier is settled by then.
   */
  lemma {:induction false} LateEvents(run: seq<Step>, id: string)
    requires Exec(run).Some?
    requires CanHappen(Exec(run).value, Deliver) && IdOf(Exec(run).value.inFlight[0]) == Some(id)
    ensures var w := Exec(run).value;
            Exec(run + [Deliver]) ==
              Some(w.(inFlight := w.inFlight[1..],
                      disp := w.disp.(unclaimed := w.disp.unclaimed + [w.inFlight[0]])))
            <==> forall d :: d in w.calls && w.calls[d].id == id ==> IsSettled(w, d)
  {
    hide Exec, Apply, Assembly, Traceable;
    var w := Exec(run).value;
    Reachable(run);
    TraceableRun(run);
    TakenIsPending(w, id);
    var v := PossibleIsTaken(run, Deliver);
    if id in w.disp.promises {
      ArrivalEffect(w.disp, w.inFlight[0]);
    } else {
      Unclaimed(w.disp, w.inFlight[0]);
    }
  }

  // ---------- unique identifiers ----------

  /** No two calls share an identifier, and no action written by async_invoke carries one of theirs. */
  ghost predicate Unique(w: World) {
    && (forall c, d :: c in w.calls && d in w.calls && c != d ==> w.calls[c].id != w.calls[d].id)
    && (forall c :: c in w.calls ==> w.calls[c].id !in w.async)
  }

  /** The identifier is not in use: no call has it, and no action with it was written otherwise. */
  ghost predicate Unused(w: World, id: string) {
    id !in w.async && forall d :: d in w.calls ==> w.calls[d].id != id
  }

  /** Before a call with a unique identifier begins, its identifier is not in use. */
  lemma {:induction false} UnusedBefore(run: seq<Step>, i: nat)
    requires Exec(run).Some? && Unique(Exec(run).value) && i < |run| && run[i].Begin?
    ensures Unused(WorldAt(run, i), run[i].id)
    ensures run[i].c in Exec(run).value.calls && Exec(run).value.calls[run[i].c].id == run[i].id
  {
    hide Exec, WorldAt, Inv, Traceable, Taken;
    var n := |run|;
    BeginOutcome(run, i);
    Later(run, i + 1, n, run[i].c);
    AsyncLater(run, i, n);
    assert WorldAt(run, n) == Exec(run).value;
    forall d | d in WorldAt(run, i).calls ensures WorldAt(run, i).calls[d].id != run[i].id {
      Later(run, i, n, d);
    }
  }

  lemma {:induction false} AsyncLater(run: seq<Step>, j: nat, k: nat)
    requires Exec(run).Some? && j <= k <= |run|
    ensures WorldAt(run, j).async <= WorldAt(run, k).async
  {
    hide Exec, WorldAt, After, CanHappen, Settlement, Assembly, Traceable;
    if j < k {
      AsyncLater(run, j, k - 1);
      StepAt(run, k - 1);
      CallsKept(WorldAt(run, k - 1), run[k - 1]);
    }
  }

  /** A unique identifier is never taken, and its call is never cut short. */
  lemma {:induction false} UniqueIsFair(run: seq<Step>, i: nat)
    requires Exec(run).Some? && Unique(Exec(run).value) && i < |run| && run[i].Begin?
    ensures !Taken(WorldAt(run, i), run[i].id) && !CutShort(run, i)
  {
    hide Exec, WorldAt, Inv, Traceable;
    var c, n := run[i].c, |run|;
    UnusedBefore(run, i);
    assert WorldAt(run, n) == Exec(run).value;
    forall k | i < k < n && ClosesCall(WorldAt(run, k), run[k], c) ensures InPhase(WorldAt(run, k), c, Expired) {
      StepAt(run, k);
      Later(run, k, n, c);
      Later(run, k, n, run[k].c);
    }
  }

  /** Nothing of an identifier that is not in use has been left to the callback or is on its way. */
  lemma {:induction false} UnusedIsSilent(w: World, id: string)
    requires Traceable(w) && Unused(w, id)
    ensures id !in w.written && I.EventsOf(w.disp.unclaimed, id) == [] && I.EventsOf(w.inFlight, id) == []
  {
    assert id in w.written ==> HasWriter(w, id);
    NoEvents(w.disp.unclaimed, id);
    NoEvents(w.inFlight, id);
  }

  lemma {:induction false} NoEvents(es: seq<Dict>, id: string)
    requires forall i :: 0 <= i < |es| ==> IdOf(es[i]) != Some(id)
    ensures I.EventsOf(es, id) == []
  {
    if |es| > 0 {
      NoEvents(es[..|es| - 1], id);
    }
  }

  /**
   * Register before write. With a unique identifier, and a server that answers only what it was sent, no event
   * of a call reaches the notification callback while the call is unsettled.
   */
  lemma {:induction false} RegisterBeforeWrite(run: seq<Step>, c: nat)
    requires Exec(run).Some? && Unique(Exec(run).value) && c in Exec(run).value.calls
    requires !IsSettled(Exec(run).value, c)
    ensures I.EventsOf(Exec(run).value.disp.unclaimed, Exec(run).value.calls[c].id) == []
    ensures I.EventsOf(Exec(run).value.called, Exec(run).value.calls[c].id) == []
  {
    hide Exec, WorldAt, Inv, Traceable, Unique, IsSettled, I.EventsOf;
    var n := |run|;
    assert WorldAt(run, n) == Exec(run).value;
    var i := BeginOf(run, n, c);
    UnusedBefore(run, i);
    UnusedIsSilent(WorldAt(run, i), run[i].id);
    NothingBypasses(run, i, n);
    CalledIsUnclaimed(WorldAt(run, n), run[i].id);
  }

  // ---------- what a reaction is made of ----------

  /** The operations performed on the dispatcher in a run. */
  ghost function OpsOf(run: seq<Step>): seq<Op>
    requires Exec(run).Some?
  {
    if |run| == 0 then []
    else
      var n := |run| - 1;
      var o := OpOf(Exec(run[..n]).value, run[n]);
      if o.Some? then OpsOf(run[..n]) + [o.value] else OpsOf(run[..n])
  }

  /** What the server has sent. */
  function Emitted(run: seq<Step>): seq<Dict> {
    if |run| == 0 then []
    else
      var init, st := Emitted(run[..|run| - 1]), run[|run| - 1];
      if st.Emit? then init + [st.event] else init
  }

  /**
   * The dispatcher that callers race with is the state machine run on their operations and the arrivals, so all that
   * is proved of such runs holds of it; and what has arrived and what is on its way is what the server sent.
   */
  lemma {:induction false} DispatcherIsRun(run: seq<Step>)
    requires Exec(run).Some?
    ensures Exec(run).value.disp == Run(OpsOf(run))
    ensures Emitted(run) == I.Arrivals(OpsOf(run)) + Exec(run).value.inFlight
  {
    hide Apply, CallInv, Settlement, Assembly;
    if |run| > 0 {
      var n := |run| - 1;
      DispatcherIsRun(run[..n]);
      Reachable(run[..n]);
      var w := Exec(run[..n]).value;
      DispatcherMoves(w, run[n]);
      var o := OpOf(w, run[n]);
      if o.Some? {
        RunSnoc(OpsOf(run[..n]), o.value);
        I.ArrivalsSnoc(OpsOf(run[..n]), o.value);
      }
      if run[n].Emit? {
        Assoc(I.Arrivals(OpsOf(run[..n])), w.inFlight, [run[n].event]);
      } else if run[n].Deliver? {
        Assoc(I.Arrivals(OpsOf(run[..n])), [w.inFlight[0]], w.inFlight[1..]);
        HeadTail(w.inFlight, []);
        EmptyUnit([], w.inFlight);
        EmptyUnit([], w.inFlight[1..]);
      }
    }
  }

  /** The events of an identifier that have been delivered before step j. */
  ghost function Got(run: seq<Step>, j: nat, id: string): seq<Dict>
    requires Exec(run).Some? && j <= |run|
  {
    PrefixRuns(run, j);
    I.EventsOf(I.Arrivals(OpsOf(run[..j])), id)
  }

  lemma {:induction false} GotStep(run: seq<Step>, j: nat, id: string)
    requires Exec(run).Some? && j < |run|
    ensures CanHappen(WorldAt(run, j), run[j])
    ensures Got(run, j + 1, id) == Got(run, j, id) + Fresh(WorldAt(run, j), run[j], id)
  {
    hide WorldAt, Exec, After, I.EventsOf, I.Arrivals, Inv, Traceable;
    StepAt(run, j);
    PrefixRuns(run, j + 1);
    var next := run[..j + 1];
    assert next[..|next| - 1] == run[..j];
    assert Exec(run[..j]).value == WorldAt(run, j);
    var o := OpOf(WorldAt(run, j), run[j]);
    if o.Some? {
      I.ArrivalsSnoc(OpsOf(run[..j]), o.value);
      if o.value.Arrive? {
        I.EventsSnoc(I.Arrivals(OpsOf(run[..j])), o.value.event, id);
      }
    }
  }

  /** The events of a list being assembled under an identifier. */
  function Collected(s: State, id: string): seq<Dict> {
    if id in s.lists then s.lists[id].Events() else []
  }

  lemma {:induction false} RouteCollects(s: State, id: string, e: Dict)
    requires Valid(s) && id in s.promises && IdOf(e) == Some(id)
    ensures var t := Route(s, id, e);
            var o := t.pipes[s.promises[id]].outcome;
            if o.None? then Collected(t, id) == Collected(s, id) + [e]
            else o.value.Value? && o.value.reaction.Events() == Collected(s, id) + [e]
  {
    if id in s.lists {
      ListingGrows(s.lists[id], e);
    } else {
      assert Listing(e, [], None).Events() == [e];
    }
  }

  lemma {:induction false} OtherCollected(s: State, op: Op, id: string)
    requires Valid(s) && !I.Concerns(op, id)
    ensures Collected(Apply(s, op), id) == Collected(s, id)
  {
    hide WellFormed, Assembling, Settlement, Listing.Events;
  }

  /** A pending call collects the events delivered under its identifier, and gets all of them if it gets a reaction. */
  lemma {:induction false} CollectStep(w: World, st: Step, c: nat)
    requires Inv(w) && CanHappen(w, st) && c in w.calls && !IsSettled(w, c)
    ensures var id, v := w.calls[c].id, After(w, st);
            match OutcomeOf(v, c)
            case None => Collected(v.disp, id) == Collected(w.disp, id) + Fresh(w, st, id)
            case Some(Value(r)) => r.Events() == Collected(w.disp, id) + Fresh(w, st, id)
            case Some(_) => Fresh(w, st, id) == []
  {
    hide Apply, Assembly, Settlement, TimeoutText, Collected;
    var id := w.calls[c].id;
    assert CallInv(w, c);
    UnsettledIsPending(w.disp, w.calls[c].pipe);
    PendingStep(w, st, c);
    DispatcherMoves(w, st);
    EmptyUnit([], Collected(w.disp, id));
    var o := OpOf(w, st);
    if Fresh(w, st, id) != [] {
      RouteCollects(w.disp, id, w.inFlight[0]);
      RoutedArrival(w.disp, w.inFlight[0]);
    } else if o.Some? && !I.Concerns(o.value, id) {
      OtherCollected(w.disp, o.value, id);
    } else if st.Begin? {
      RegisterCollected(w.disp, id);
    }
  }

  lemma {:induction false} RoutedArrival(s: State, e: Dict)
    requires Settlement(s) && IdOf(e).Some? && IdOf(e).value in s.promises
    ensures Apply(s, Arrive(e)) == Route(s, IdOf(e).value, e)
  {
  }

  lemma {:induction false} RegisterCollected(s: State, id: string)
    requires Valid(s)
    ensures Collected(Apply(s, Register(id)), id) == Collected(s, id)
    ensures id !in s.promises ==> Collected(s, id) == []
  {
  }

  /** While a call is pending, the working list under its identifier is all that was delivered since it registered. */
  lemma {:induction false} PendingCollects(run: seq<Step>, i: nat, j: nat)
    requires Exec(run).Some? && i < j <= |run| && run[i].Begin? && !IsSettled(WorldAt(run, j), run[i].c)
    ensures Got(run, j, run[i].id) == Got(run, i, run[i].id) + Collected(WorldAt(run, j).disp, run[i].id)
  {
    hide Exec, WorldAt, Inv, Traceable, CanHappen, OutcomeOf, Got, Collected;
    var c, id := run[i].c, run[i].id;
    BeginOutcome(run, i);
    var w := WorldAt(run, j - 1);
    StepAt(run, j - 1);
    GotStep(run, j - 1, id);
    if i + 1 < j {
      Later(run, i + 1, j - 1, c);
      if IsSettled(w, c) {
        SettledStays(run, j - 1, c);
      }
      PendingCollects(run, i, j - 1);
      CollectStep(w, run[j - 1], c);
      Assoc(Got(run, i, id), Collected(w.disp, id), Fresh(w, run[j - 1], id));
    } else {
      BeginCollects(run, i);
      assert i + 1 == j && Fresh(w, run[i], id) == [];
      assert Got(run, j, id) == Got(run, i, id) + [];
    }
  }

  lemma {:induction false} BeginCollects(run: seq<Step>, i: nat)
    requires Exec(run).Some? && i < |run| && run[i].Begin? && !IsSettled(WorldAt(run, i + 1), run[i].c)
    ensures Collected(WorldAt(run, i + 1).disp, run[i].id) == []
  {
    hide Exec, WorldAt, Traceable, CallInv, Apply, Settlement, Assembly, Collected;
    var w := WorldAt(run, i);
    BeginOutcome(run, i);
    StepAt(run, i);
    TakenIsPending(w, run[i].id);
    RegisterCollected(w.disp, run[i].id);
  }

  /**
   * What the settling step means: a reaction is the events delivered under the identifier since the call
   * registered, all of them and in order; an error discards what had been collected. None was left to the callback.
   */
  lemma {:induction false} SettledAccount(run: seq<Step>, i: nat, k: nat)
    requires Exec(run).Some? && i < k < |run| && run[i].Begin?
    requires !IsSettled(WorldAt(run, k), run[i].c) && IsSettled(WorldAt(run, k + 1), run[i].c)
    ensures var id := run[i].id;
            && I.EventsOf(WorldAt(run, k + 1).disp.unclaimed, id) == I.EventsOf(WorldAt(run, i).disp.unclaimed, id)
            && var o := OutcomeOf(WorldAt(run, k + 1), run[i].c).value;
               Got(run, k + 1, id) == Got(run, i, id) +
                 if o.Value? then o.reaction.Events() else Collected(WorldAt(run, k).disp, id)
  {
    hide Exec, WorldAt, Inv, Traceable, CanHappen, OutcomeOf, Got, Collected, I.EventsOf;
    var c, id, w := run[i].c, run[i].id, WorldAt(run, k);
    BeginOutcome(run, i);
    Later(run, i + 1, k, c);
    StepAt(run, k);
    GotStep(run, k, id);
    NothingBypasses(run, i, k);
    UnclaimedStep(w, run[k], c);
    PendingCollects(run, i, k);
    CollectStep(w, run[k], c);
    Assoc(Got(run, i, id), Collected(w.disp, id), Fresh(w, run[k], id));
    EmptyUnit([], Got(run, k, id));
  }

  /**
   * For every call of every run, whatever identifiers are in use: a reaction it got is well formed and consists of
   * exactly the events delivered under its identifier from its registration to its settlement, in order, while none
   * of them was left to the notification callback.
   */
  lemma {:induction false} Reacted(run: seq<Step>, i: nat, r: Reaction) returns (k: nat)
    requires Exec(run).Some? && i < |run| && run[i].Begin?
    requires OutcomeOf(Exec(run).value, run[i].c) == Some(Value(r))
    ensures i < k < |run| && !IsSettled(WorldAt(run, k), run[i].c) && IsSettled(WorldAt(run, k + 1), run[i].c)
    ensures WellFormed(run[i].id, r) && Got(run, k + 1, run[i].id) == Got(run, i, run[i].id) + r.Events()
    ensures I.EventsOf(WorldAt(run, k + 1).disp.unclaimed, run[i].id) ==
            I.EventsOf(WorldAt(run, i).disp.unclaimed, run[i].id)
  {
    hide Exec, WorldAt, Inv, Traceable, Got, Collected, I.EventsOf, WellFormed, Taken;
    var c, n := run[i].c, |run|;
    BeginOutcome(run, i);
    Later(run, i + 1, n, c);
    assert WorldAt(run, n) == Exec(run).value;
    k := SettlingStep(run, i + 1, n, c);
    Later(run, i + 1, k + 1, c);
    Later(run, k + 1, n, c);
    SettledAccount(run, i, k);
    ValueWellFormed(WorldAt(run, n), c, r);
  }

  lemma {:induction false} ValueWellFormed(w: World, c: nat, r: Reaction)
    requires Inv(w) && c in w.calls && OutcomeOf(w, c) == Some(Value(r))
    ensures WellFormed(w.calls[c].id, r)
  {
    assert CallInv(w, c);
  }

  lemma {:induction false} LateStep(w: World, st: Step, id: string)
    requires Inv(w) && Traceable(w) && CanHappen(w, st) && !Taken(w, id)
    ensures I.EventsOf(After(w, st).disp.unclaimed, id) == I.EventsOf(w.disp.unclaimed, id) + Fresh(w, st, id)
  {
    hide Apply, Assembly, Settlement, TimeoutText, I.EventsOf, Traceable, Taken, CallInv;
    TakenIsPending(w, id);
    EmptyUnit([], I.EventsOf(w.disp.unclaimed, id));
    match st
    case Begin(_, own, _) => NewPipe(w.disp, own);
    case Deliver =>
      ArrivalEffect(w.disp, w.inFlight[0]);
      I.EventsSnoc(w.disp.unclaimed, w.inFlight[0], id);
    case Abort(d) => FailEffect(w.disp, w.calls[d].id, TimeoutText(w.calls[d].id));
    case _ =>
  }

  lemma {:induction false} FreeOnceSettled(run: seq<Step>, j: nat, c: nat)
    requires Exec(run).Some? && Unique(Exec(run).value) && j <= |run| && IsSettled(WorldAt(run, j), c)
    ensures !Taken(WorldAt(run, j), WorldAt(run, j).calls[c].id)
  {
    hide Exec, WorldAt, Inv, Traceable;
    var n := |run|;
    assert WorldAt(run, n) == Exec(run).value;
    forall d | d in WorldAt(run, j).calls && WorldAt(run, j).calls[d].id == WorldAt(run, j).calls[c].id ensures d == c {
      Later(run, j, n, d);
      Later(run, j, n, c);
    }
  }

  /** After settlement every further event of a unique identifier is left to the callback. */
  lemma {:induction false} LateAccount(run: seq<Step>, k: nat, j: nat, c: nat, own: seq<Dict>)
    requires Exec(run).Some? && Unique(Exec(run).value) && k <= j <= |run| && IsSettled(WorldAt(run, k), c)
    requires var w := WorldAt(run, k);
             Got(run, k, w.calls[c].id) == own + I.EventsOf(w.disp.unclaimed, w.calls[c].id)
    ensures var id := WorldAt(run, k).calls[c].id;
            Got(run, j, id) == own + I.EventsOf(WorldAt(run, j).disp.unclaimed, id)
  {
    hide Exec, WorldAt, Inv, Traceable, Unique, CanHappen, Got, I.EventsOf, Taken;
    if k < j {
      var id, w := WorldAt(run, k).calls[c].id, WorldAt(run, j - 1);
      LateAccount(run, k, j - 1, c, own);
      Later(run, k, j - 1, c);
      StepAt(run, j - 1);
      GotStep(run, j - 1, id);
      FreeOnceSettled(run, j - 1, c);
      LateStep(w, run[j - 1], id);
      Assoc(own, I.EventsOf(w.disp.unclaimed, id), Fresh(w, run[j - 1], id));
    }
  }

  /** Nothing has been delivered under an identifier that is not in use. */
  lemma {:induction false} UnusedGotNothing(run: seq<Step>, j: nat, id: string)
    requires Exec(run).Some? && j <= |run| && Unused(WorldAt(run, j), id)
    ensures Got(run, j, id) == []
  {
    hide Exec, WorldAt, Inv, Traceable, I.EventsOf;
    if j > 0 {
      StepAt(run, j - 1);
      GotStep(run, j - 1, id);
      UnusedEarlier(WorldAt(run, j - 1), run[j - 1], id);
      UnusedGotNothing(run, j - 1, id);
    } else {
      GotAtStart(run, id);
    }
  }

  lemma {:induction false} GotAtStart(run: seq<Step>, id: string)
    requires Exec(run).Some?
    ensures Got(run, 0, id) == []
  {
    assert run[..0] == [];
  }

  lemma {:induction false} UnusedEarlier(w: World, st: Step, id: string)
    requires Inv(w) && Traceable(w) && CanHappen(w, st) && Unused(After(w, st), id)
    ensures Unused(w, id) && Fresh(w, st, id) == []
  {
    hide Apply, After, Assembly, Settlement;
    CallsKept(w, st);
    assert id in w.written ==> HasWriter(w, id);
  }

  lemma {:induction false} EventsConcat(a: seq<Dict>, b: seq<Dict>, id: string)
    ensures I.EventsOf(a + b, id) == I.EventsOf(a, id) + I.EventsOf(b, id)
  {
    if |b| == 0 {
      EmptyUnit(b, a);
      EmptyUnit(I.EventsOf(b, id), I.EventsOf(a, id));
    } else {
      var n := |b| - 1;
      EventsConcat(a, b[..n], id);
      TakeNext(a, b, n);
      TakeAll(a, b);
      I.EventsSnoc(a + b[..n], b[n], id);
      Assoc(I.EventsOf(a, id), I.EventsOf(b[..n], id), [b[n]]);
    }
  }

  lemma {:induction false} SettledOwns(run: seq<Step>, i: nat) returns (own: seq<Dict>)
    requires Exec(run).Some? && Unique(Exec(run).value) && i < |run| && run[i].Begin?
    requires IsSettled(Exec(run).value, run[i].c)
    requires Got(run, i, run[i].id) == [] && I.EventsOf(WorldAt(run, i).disp.unclaimed, run[i].id) == []
    ensures Got(run, |run|, run[i].id) == own + I.EventsOf(Exec(run).value.disp.unclaimed, run[i].id)
    ensures Owns(Exec(run).value, run[i].c, own)
  {
    hide Exec, WorldAt, Inv, Traceable, Unique, CanHappen, Got, I.EventsOf, Taken, OutcomeOf, Owns, Collected, CutShort;
    var c, id, n := run[i].c, run[i].id, |run|;
    assert WorldAt(run, n) == Exec(run).value;
    UniqueIsFair(run, i);
    BeginOutcome(run, i);
    var k := SettlingStep(run, i + 1, n, c);
    Later(run, i + 1, k, c);
    Later(run, i + 1, k + 1, c);
    Later(run, k + 1, n, c);
    SettledAccount(run, i, k);
    own := Got(run, k + 1, id);
    EmptyUnit([], own);
    LateAccount(run, k + 1, n, c, own);
    CollectedAssembling(WorldAt(run, k), id);
    OwnsSettled(Exec(run).value, c, own, Collected(WorldAt(run, k).disp, id));
  }

  lemma {:induction false} CollectedAssembling(w: World, id: string)
    requires Inv(w)
    ensures Collected(w.disp, id) == [] || exists l :: Assembling(id, l) && Collected(w.disp, id) == l.Events()
  {
    hide CallInv;
  }

  lemma {:induction false} OwnsSettled(w: World, c: nat, own: seq<Dict>, lost: seq<Dict>)
    requires c in w.calls && IsSettled(w, c)
    requires match OutcomeOf(w, c)
             case Some(Value(r)) => own == r.Events()
             case _ => own == lost
    requires lost == [] || exists l :: Assembling(w.calls[c].id, l) && lost == l.Events()
    ensures Owns(w, c, own)
  {
  }

  /** What a call owns of the events delivered under its unique identifier; the rest was left to the callback. */
  lemma {:induction false} DeliveredAccount(run: seq<Step>, c: nat) returns (own: seq<Dict>)
    requires Exec(run).Some? && Unique(Exec(run).value) && c in Exec(run).value.calls
    ensures var w := Exec(run).value;
            Got(run, |run|, w.calls[c].id) == own + I.EventsOf(w.disp.unclaimed, w.calls[c].id)
    ensures Owns(Exec(run).value, c, own)
  {
    hide Exec, WorldAt, Inv, Traceable, Unique, CanHappen, Got, I.EventsOf, Taken, OutcomeOf, Owns, Collected;
    var n := |run|;
    var w := Exec(run).value;
    assert WorldAt(run, n) == w;
    var i := BeginOf(run, n, c);
    UnusedBefore(run, i);
    UnusedIsSilent(WorldAt(run, i), run[i].id);
    UnusedGotNothing(run, i, run[i].id);
    UniqueIsFair(run, i);
    BeginOutcome(run, i);
    if IsSettled(w, c) {
      own := SettledOwns(run, i);
    } else {
      PendingCollects(run, i, n);
      NothingBypasses(run, i, n);
      own := Collected(w.disp, run[i].id);
      EmptyUnit([], own);
      PendingOwns(w, c);
    }
  }

  /**
   * The part of its identifier's events that is a call's own: its reaction's events; while it is pending, those
   * collected so far; after an error, those of the working list that was thrown away, if there was one.
   */
  ghost predicate Owns(w: World, c: nat, own: seq<Dict>)
    requires c in w.calls
  {
    var id := w.calls[c].id;
    match OutcomeOf(w, c)
    case None => own == Collected(w.disp, id)
    case Some(Value(r)) => own == r.Events()
    case Some(_) => own == [] || exists l :: Assembling(id, l) && own == l.Events()
  }

  lemma {:induction false} PendingOwns(w: World, c: nat)
    requires c in w.calls && !IsSettled(w, c)
    ensures Owns(w, c, Collected(w.disp, w.calls[c].id))
  {
  }

  /**
   * With unique identifiers, at every moment: what the server has sent under a call's identifier is what the call
   * owns, then what was left to the notification callback, then what is still on its way, in this order.
   */
  lemma {:induction false} CallAccount(run: seq<Step>, c: nat) returns (own: seq<Dict>)
    requires Exec(run).Some? && Unique(Exec(run).value) && c in Exec(run).value.calls
    ensures var w := Exec(run).value;
            var id := w.calls[c].id;
            I.EventsOf(Emitted(run), id) == own + I.EventsOf(w.disp.unclaimed, id) + I.EventsOf(w.inFlight, id)
    ensures Owns(Exec(run).value, c, own)
  {
    hide Exec, I.EventsOf, I.Arrivals, Emitted, OpsOf, Unique, Owns, Run;
    var w := Exec(run).value;
    DispatcherIsRun(run);
    own := DeliveredAccount(run, c);
    assert run[..|run|] == run;
    EventsConcat(I.Arrivals(OpsOf(run)), w.inFlight, w.calls[c].id);
  }

  /**
   * Timeout race. With unique identifiers a caller that has returned got a whole reaction, made of the first events
   * the server sent under its identifier, with the others left to the callback or on their way; or it got its own
   * timeout error after its wait had expired. It never gets a null or a broken promise.
   */
  lemma {:induction false} TimeoutRace(run: seq<Step>, c: nat)
    requires Exec(run).Some? && Unique(Exec(run).value)
    requires c in Exec(run).value.calls && Exec(run).value.calls[c].phase.Returned?
    ensures var w := Exec(run).value;
            var id := w.calls[c].id;
            match w.calls[c].phase.outcome
            case Value(r) =>
              && WellFormed(id, r)
              && I.EventsOf(Emitted(run), id) ==
                   r.Events() + I.EventsOf(w.disp.unclaimed, id) + I.EventsOf(w.inFlight, id)
            case Error(what) => what == TimeoutText(id) && Expire(c) in run
            case _ => false
  {
    hide Exec, WorldAt, Traceable, Unique, Taken, CutShort, I.EventsOf, Emitted, WellFormed, TimeoutText;
    var w := Exec(run).value;
    Reachable(run);
    assert CallInv(w, c);
    assert WorldAt(run, |run|) == w;
    var i := BeginOf(run, |run|, c);
    UniqueIsFair(run, i);
    SettledFairly(run, i);
    var own := CallAccount(run, c);
    if w.calls[c].phase.outcome.Value? {
      ValueWellFormed(w, c, w.calls[c].phase.outcome.reaction);
    }
  }

  // ---------- every call can come to its end ----------

  /** Going on with the given steps is possible and ends with call c having returned the outcome. */
  ghost predicate EndsWith(run: seq<Step>, more: seq<Step>, c: nat, o: Outcome) {
    Exec(run + more).Some? && InPhase(Exec(run + more).value, c, Returned(o))
  }

  lemma {:induction false} Prepend(run: seq<Step>, st: Step, more: seq<Step>, c: nat, o: Outcome)
    requires EndsWith(run + [st], more, c, o)
    ensures EndsWith(run, [st] + more, c, o)
  {
    Assoc(run, [st], more);
  }

  lemma {:induction false} GetReturns(run: seq<Step>, w: World, c: nat)
    requires Exec(run) == Some(w) && CanHappen(w, Get(c))
    ensures EndsWith(run, [Get(c)], c, OutcomeOf(w, c).value)
  {
    hide Exec, Inv, Traceable, Settlement;
    var next, v := Take(run, w, Get(c));
  }

  lemma {:induction false} WaitReturns(run: seq<Step>, w: World, c: nat)
    requires Exec(run) == Some(w) && InPhase(w, c, Waiting) && IsSettled(w, c)
    ensures EndsWith(run, if w.calls[c].timed then [Notice(c), Get(c)] else [Get(c)], c, OutcomeOf(w, c).value)
  {
    hide Exec, Inv, Traceable, Settlement;
    if w.calls[c].timed {
      var next, v := Take(run, w, Notice(c));
      GetReturns(next, v, c);
      assert [Notice(c)] + [Get(c)] == [Notice(c), Get(c)];
      Prepend(run, Notice(c), [Get(c)], c, OutcomeOf(w, c).value);
    } else {
      GetReturns(run, w, c);
    }
  }

  lemma {:induction false} AbortReturns(run: seq<Step>, w: World, c: nat)
    requires Exec(run) == Some(w) && InPhase(w, c, Expired)
    ensures EndsWith(run, [Abort(c), Get(c)], c,
                     if IsSettled(w, c) then OutcomeOf(w, c).value else Error(TimeoutText(w.calls[c].id)))
  {
    hide Exec, Apply, Traceable, Settlement, Assembly, TimeoutText;
    Reachable(run);
    if IsSettled(w, c) {
      DispatcherMoves(w, Abort(c));
      assert CallInv(w, c);
    } else {
      PendingStep(w, Abort(c), c);
    }
    var next, v := Take(run, w, Abort(c));
    GetReturns(next, v, c);
    assert [Abort(c)] + [Get(c)] == [Abort(c), Get(c)];
    Prepend(run, Abort(c), [Get(c)], c, OutcomeOf(v, c).value);
  }

  /** A call that is settled returns, by steps of its own, exactly what its future holds. */
  lemma {:induction false} SettledReturns(run: seq<Step>, c: nat)
    requires Exec(run).Some? && IsSettled(Exec(run).value, c)
    ensures var w := Exec(run).value;
            var call, o := w.calls[c], OutcomeOf(w, c).value;
            match call.phase
            case Registered =>
              EndsWith(run, [Write(c)] + (if call.timed then [Notice(c), Get(c)] else [Get(c)]), c, o)
            case Waiting => EndsWith(run, if call.timed then [Notice(c), Get(c)] else [Get(c)], c, o)
            case Expired => EndsWith(run, [Abort(c), Get(c)], c, o)
            case Ready => EndsWith(run, [Get(c)], c, o)
            case Returned(p) => p == o
  {
    hide Exec, Apply, Traceable, Settlement, Assembly, EndsWith;
    Reachable(run);
    var w := Exec(run).value;
    assert CallInv(w, c);
    match w.calls[c].phase
    case Registered =>
      var next, v := Take(run, w, Write(c));
      WaitReturns(next, v, c);
      Prepend(run, Write(c), if w.calls[c].timed then [Notice(c), Get(c)] else [Get(c)], c, OutcomeOf(w, c).value);
    case Waiting => WaitReturns(run, w, c);
    case Expired => AbortReturns(run, w, c);
    case Ready => GetReturns(run, w, c);
    case Returned(_) =>
  }

  lemma {:induction false} ExpiryReturns(run: seq<Step>, w: World, c: nat)
    requires Exec(run) == Some(w) && CanHappen(w, Expire(c))
    ensures EndsWith(run, [Expire(c), Abort(c), Get(c)], c, Error(TimeoutText(w.calls[c].id)))
  {
    hide Exec, Inv, Traceable, Settlement, EndsWith, TimeoutText;
    var next, v := Take(run, w, Expire(c));
    AbortReturns(next, v, c);
    assert [Expire(c)] + [Abort(c), Get(c)] == [Expire(c), Abort(c), Get(c)];
    Prepend(run, Expire(c), [Abort(c), Get(c)], c, Error(TimeoutText(w.calls[c].id)));
  }

  /**
   * A call that is not settled cannot return. If it has a time limit it can give up waiting, close its pipe, and return
   * the timeout error; if not, nothing but its settlement lets it return.
   */
  lemma {:induction false} UnsettledTimesOut(run: seq<Step>, c: nat)
    requires Exec(run).Some? && c in Exec(run).value.calls && !IsSettled(Exec(run).value, c)
    ensures var w := Exec(run).value;
            var call := w.calls[c];
            var o := Error("Event timeout: Timeout waiting for event; ActionID=" + call.id);
            && !CanHappen(w, Get(c)) && !call.phase.Returned?
            && (call.phase == Registered ==> CanHappen(w, Write(c)))
            && (call.timed && call.phase == Registered ==>
                  EndsWith(run, [Write(c)] + [Expire(c), Abort(c), Get(c)], c, o))
            && (call.timed && call.phase == Waiting ==> EndsWith(run, [Expire(c), Abort(c), Get(c)], c, o))
            && (call.phase == Expired ==> EndsWith(run, [Abort(c), Get(c)], c, o))
            && (!call.timed ==> !CanHappen(w, Expire(c)) && !CanHappen(w, Abort(c)))
  {
    hide Exec, Apply, Traceable, Settlement, Assembly, EndsWith;
    Reachable(run);
    var w := Exec(run).value;
    assert CallInv(w, c);
    if w.calls[c].phase == Expired {
      AbortReturns(run, w, c);
    } else if w.calls[c].timed && w.calls[c].phase == Registered {
      var next, v := Take(run, w, Write(c));
      ExpiryReturns(next, v, c);
      Prepend(run, Write(c), [Expire(c), Abort(c), Get(c)], c, Error(TimeoutText(w.calls[c].id)));
    } else if w.calls[c].timed {
      ExpiryReturns(run, w, c);
    }
  }

  /** The action with this identifier is written to the wire at step k. */
  ghost predicate WritesAt(run: seq<Step>, k: nat, id: string)
    requires Exec(run).Some?
  {
    && k < |run|
    && (run[k] == Async(id) ||
        (run[k].Write? && run[k].c in WorldAt(run, k).calls && WorldAt(run, k).calls[run[k].c].id == id))
  }

  lemma {:induction false} WrittenStep(run: seq<Step>, j: nat, id: string)
    requires Exec(run).Some? && j < |run|
    ensures id in WorldAt(run, j + 1).written <==> id in WorldAt(run, j).written || WritesAt(run, j, id)
  {
    hide Exec, WorldAt, Apply, CallInv, Settlement, Assembly, Traceable;
    StepAt(run, j);
  }

  lemma {:induction false} WrittenIff(run: seq<Step>, j: nat, id: string)
    requires Exec(run).Some? && j <= |run|
    ensures id in WorldAt(run, j).written <==> exists k: nat :: k < j && WritesAt(run, k, id)
  {
    hide Exec, WorldAt, Inv, Traceable, WritesAt;
    if j == 0 {
      StartAt(run);
    } else {
      WrittenIff(run, j - 1, id);
      WrittenStep(run, j - 1, id);
    }
  }

  /**
   * A call can begin at any time, an action can be written without waiting at any time, and the server may send an
   * event iff it has no identifier or an action with its identifier has been written. What it has sent can be
   * delivered as soon as the dispatcher is done with the callback for the event before.
   */
  lemma {:induction false} OpenWorld(run: seq<Step>, c: nat, id: string, timed: bool, e: Dict)
    requires Exec(run).Some? && c !in Exec(run).value.calls
    ensures Exec(run + [Begin(c, id, timed)]).Some? && Exec(run + [Async(id)]).Some?
    ensures Exec(run + [Emit(e)]).Some? <==>
            "ActionID" !in e.vals || exists k: nat :: WritesAt(run, k, e.vals["ActionID"])
    ensures Exec(run).value.inFlight != [] ==>
              Exec(run + [Deliver]).Some? || Exec(run + [CallBack] + [Deliver]).Some?
  {
    hide Exec, WorldAt, Apply, CallInv, Settlement, Assembly, Traceable;
    Reachable(run);
    var w := Exec(run).value;
    assert WorldAt(run, |run|) == w;
    var next, v := Take(run, w, Begin(c, id, timed));
    next, v := Take(run, w, Async(id));
    if "ActionID" in e.vals {
      WrittenIff(run, |run|, e.vals["ActionID"]);
    }
    if CanHappen(w, Emit(e)) {
      next, v := Take(run, w, Emit(e));
    } else {
      NotTaken(run, w, Emit(e));
    }
    if w.inFlight != [] {
      next, v := run, w;
      if |w.called| < |w.disp.unclaimed| {
        next, v := Take(run, w, CallBack);
      }
      next, v := Take(next, v, Deliver);
    }
  }

  lemma {:induction false} NotTaken(run: seq<Step>, w: World, st: Step)
    requires Exec(run) == Some(w) && !CanHappen(w, st)
    ensures Exec(run + [st]).None?
  {
    assert (run + [st])[..|run|] == run;
  }

  // ---------- callers over the three actors ----------

  /**
   * Take a run of reader, parser and dispatcher up to teardown, and a run of callers that performed the same operations
   * on the dispatcher. Both saw the same dispatcher, so everything above holds of the actors' callers; what was
   * delivered to these is the parsed leading messages of the framed bytes, and the server's events are these
   * and the ones on their way.
   */
  lemma {:induction false} OverActors(run: seq<Step>, steps: seq<P.Step>)
    requires Exec(run).Some? && P.Exec(steps).Some? && P.Exec(steps).value.stage != P.Gone
    requires OpsOf(run) == P.Exec(steps).value.ops
    ensures var w, s := Exec(run).value, P.Exec(steps).value;
            && w.disp == s.disp
            && Emitted(run) == Wire.ParseAll(s.events.processed) + w.inFlight
            && s.events.processed <= FeedAll(START, s.chunks.arrived).msgs
  {
    hide Exec, P.Exec, Run, OpsOf, Emitted, FeedAll;
    DispatcherIsRun(run);
    P.InStreamOrder(steps);
  }

  // ---------- both ways of missing the guarantee do happen ----------

  lemma {:induction false} Take(run: seq<Step>, w: World, st: Step) returns (next: seq<Step>, v: World)
    requires Exec(run) == Some(w) && CanHappen(w, st)
    ensures Settlement(w.disp) && v == After(w, st) && Inv(v) && Traceable(v)
    ensures next == run + [st] && Exec(next) == Some(v)
  {
    v := PossibleIsTaken(run, st);
    next := run + [st];
    Reachable(next);
    TraceableRun(next);
  }

  /** A call that begins under a free identifier. */
  lemma {:induction false} TakeBegin(run: seq<Step>, w: World, c: nat, id: string, timed: bool)
      returns (next: seq<Step>, v: World)
    requires Exec(run) == Some(w) && c !in w.calls
    ensures next == run + [Begin(c, id, timed)] && Exec(next) == Some(v)
    ensures v.calls == w.calls[c := Call(id, timed, |w.disp.pipes|, Registered)]
    ensures v.written == w.written && v.inFlight == w.inFlight
    ensures v.disp.pipes == w.disp.pipes + [Pipe(id, if Taken(w, id) then Some(Broken) else None)]
    ensures v.disp.lists == w.disp.lists && v.disp.unclaimed == w.disp.unclaimed && v.called == w.called && Inv(v)
  {
    hide Exec, Taken, Apply;
    Reachable(run);
    TraceableRun(run);
    TakenIsPending(w, id);
    next, v := Take(run, w, Begin(c, id, timed));
    NewPipe(w.disp, id);
  }

  lemma {:induction false} ExecNil()
    ensures Exec([]) == Some(IDLE)
  {
  }

  /** Two calls at once under one identifier: the second finds it taken, and is broken. */
  lemma {:induction false} TakenExample() returns (run: seq<Step>)
    ensures run == [Begin(0, "a", false), Begin(1, "a", false), Write(1), Get(1)]
    ensures Exec(run).Some? && InPhase(Exec(run).value, 1, Returned(Broken))
  {
    hide Exec, Apply, Inv, Traceable, Settlement;
    ExecNil();
    var w;
    run, w := TakeBegin([], IDLE, 0, "a", false);
    assert !IsSettled(w, 0);
    run, w := TakeBegin(run, w, 1, "a", false);
    run, w := Take(run, w, Write(1));
    run, w := Take(run, w, Get(1));
  }

  /** A reply that is routed between the expiry of its call's wait and the closing of the pipe. */
  lemma {:induction false} LateReply() returns (run: seq<Step>, w: World)
    ensures var e := Dict([ACTION_ID], map[ACTION_ID := "a"]);
            run == [Begin(0, "a", true), Write(0), Expire(0), Emit(e), Deliver]
    ensures Exec(run) == Some(w) && w.calls == map[0 := Call("a", true, 0, Expired)]
    ensures |w.disp.pipes| == 1 && IsSettled(w, 0)
  {
    hide Exec, Apply, Traceable, Inv, Settlement, TimeoutText;
    ExecNil();
    var e := Dict([ACTION_ID], map[ACTION_ID := "a"]);
    run, w := TakeBegin([], IDLE, 0, "a", true);
    run, w := Take(run, w, Write(0));
    run, w := Take(run, w, Expire(0));
    run, w := Take(run, w, Emit(e));
    assert w.inFlight == [e];
    ReplyRouted(w, e);
    run, w := Take(run, w, Deliver);
  }

  lemma {:induction false} ReplyRouted(w: World, e: Dict)
    requires Inv(w) && 0 in w.calls && !IsSettled(w, 0) && IdOf(e) == Some(w.calls[0].id) && !e.HasKey(EVENT_LIST)
    requires forall l :: l in w.disp.lists ==> l != w.calls[0].id
    ensures Apply(w.disp, Arrive(e)).pipes ==
            w.disp.pipes[w.calls[0].pipe := Pipe(w.calls[0].id, Some(Value(Single(e))))]
  {
    assert CallInv(w, 0);
    UnsettledIsPending(w.disp, w.calls[0].pipe);
  }

  /** A pending call whose pipe another call is about to close. */
  lemma {:induction false} ClosedByOther(run: seq<Step>, w: World) returns (next: seq<Step>, v: World)
    requires Exec(run) == Some(w) && CanHappen(w, Abort(0)) && ClosesCall(w, Abort(0), 1)
    requires InPhase(w, 1, Registered) && !w.calls[1].timed
    ensures next == run + [Abort(0), Write(1), Get(1)] && Exec(next) == Some(v)
    ensures InPhase(v, 1, Returned(Error(TimeoutText(w.calls[1].id)))) && !v.calls[1].timed
  {
    hide Exec, Apply, TimeoutText, Inv, Traceable, Settlement;
    Reachable(run);
    PendingStep(w, Abort(0), 1);
    next, v := Take(run, w, Abort(0));
    next, v := Take(next, v, Write(1));
    next, v := Take(next, v, Get(1));
  }

  /**
   * One action invoked twice: the first call's wait expires just before its reply arrives, the second call registers,
   * and then the first call closes the pipe. The second call, which set no time limit, gets a timeout error.
   */
  lemma {:induction false} CutShortExample() returns (run: seq<Step>)
    ensures var e := Dict([ACTION_ID], map[ACTION_ID := "a"]);
            run == [Begin(0, "a", true), Write(0), Expire(0), Emit(e), Deliver,
                    Begin(1, "a", false), Abort(0), Write(1), Get(1)]
    ensures Exec(run).Some? && InPhase(Exec(run).value, 1, Returned(Error(TimeoutText("a"))))
    ensures !Exec(run).value.calls[1].timed
  {
    hide Exec, Apply, TimeoutText, Inv, Traceable, Settlement;
    var w;
    run, w := LateReply();
    run, w := TakeBegin(run, w, 1, "a", false);
    run, w := ClosedByOther(run, w);
  }
}
