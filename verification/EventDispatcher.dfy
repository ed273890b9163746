/** The dispatcher object: its maps and pipes are updated in place, and every operation is one step of Dispatch. */
module EventDispatchers {
  import opened Text
  import opened Messages
  import opened KeyValDicts
  import opened EventLists
  import opened Dispatch

  /** The operations the worker performs on a batch of message texts. */
  function ArriveAll(batch: seq<string>): seq<Op>
    requires forall i :: 0 <= i < |batch| ==> Parseable(batch[i])
  {
    seq(|batch|, i requires 0 <= i < |batch| => Arrive(Parse(batch[i])))
  }

  class EventDispatcher {
    var events: seq<string>
    var promiseMap: map<string, nat>         // promise_map_; a promise is the index of its pipe
    var eventMap: map<string, EventList>
    var pipes: seq<Pipe>                     // the shared states behind the promises
    var callbackLog: seq<Dict>               // calls of the notification callback, in order
    ghost var unclaimed: seq<Dict>           // events routing has left to that callback
    ghost var discarded: seq<Listing>
    ghost var trace: seq<Op>                 // operations performed so far

    ghost function Lists(): (lists: map<string, Listing>)
      reads this`eventMap, eventMap.Values
      ensures lists.Keys == eventMap.Keys
    {
      map id | id in eventMap :: eventMap[id].Value()
    }

    ghost function View(): State
      reads this, eventMap.Values
    {
      State(promiseMap, Lists(), pipes, unclaimed, discarded)
    }

    /** Each working list is owned by one identifier. */
    ghost predicate Owned()
      reads this`eventMap
    {
      forall a, b :: a in eventMap && b in eventMap && a != b ==> eventMap[a] != eventMap[b]
    }

    /** The object is the state machine after its trace. */
    ghost predicate Valid()
      reads this, eventMap.Values
    {
      && View() == Run(trace)
      && Owned()
      && callbackLog <= unclaimed && |unclaimed| <= |callbackLog| + 1
      && (forall i :: 0 <= i < |events| ==> events[i] != "" && Parseable(events[i]))
    }

    /** The worker is not between leaving an event to the callback and calling it. */
    ghost predicate Idle()
      reads this
    {
      callbackLog == unclaimed
    }

    constructor ()
      ensures Valid() && Idle() && fresh(eventMap.Values) && trace == [] && events == []
    {
      events, promiseMap, eventMap, pipes, callbackLog := [], map[], map[], [], [];
      unclaimed, discarded, trace := [], [], [];
    }

    method AddEvent(event: string)
      requires Valid() && event != "" && Parseable(event)
      modifies this`events
      ensures Valid() && events == old(events) + [event]
    {
      hide Run, Read, WellFormed, Assembling, Settlement, Assembly;
      events := events + [event];
    }

    /** Issues a pipe; when the identifier is taken the map keeps its promise and the new one dies. */
    method GetEventPipe(actionId: string) returns (future: nat)
      requires Valid()
      modifies this`pipes, this`promiseMap, this`trace
      ensures Valid() && trace == old(trace) + [Register(actionId)]
      ensures future == |old(pipes)| && |pipes| == future + 1
      ensures pipes[future].outcome == if actionId in old(promiseMap) then Some(Broken) else None
    {
      hide Lists, Owned, Run, Read, WellFormed, Assembling, Assembly, Parseable;
      RunSnoc(trace, Register(actionId));
      future := |pipes|;
      pipes := pipes + [Pipe(actionId, None)];
      if actionId !in promiseMap {
        promiseMap := promiseMap[actionId := future];
      } else {
        pipes := pipes[future := Pipe(actionId, Some(Broken))];
      }
      trace := trace + [Register(actionId)];
    }

    method SetPipe(actionId: string, o: Outcome)
      requires actionId in promiseMap && promiseMap[actionId] < |pipes|
      requires pipes[promiseMap[actionId]].outcome.None?
      modifies this`pipes, this`promiseMap
      ensures View() == Settle(old(View()), actionId, o)
    {
      hide Lists;
      pipes := pipes[promiseMap[actionId] := Pipe(actionId, Some(o))];
      promiseMap := promiseMap - {actionId};
    }

    method SetExceptionOnPipe(actionId: string, what: string)
      requires Valid()
      modifies this`pipes, this`promiseMap, this`eventMap, this`discarded, this`trace
      ensures Valid() && trace == old(trace) + [Fail(actionId, what)]
      ensures eventMap == old(eventMap) - {actionId} && promiseMap == old(promiseMap) - {actionId}
      ensures actionId !in old(promiseMap) ==> pipes == old(pipes)
      ensures actionId in old(promiseMap) ==>
                && old(promiseMap)[actionId] < |old(pipes)|
                && pipes == old(pipes)[old(promiseMap)[actionId] := Pipe(actionId, Some(Error(what)))]
    {
      hide Lists, Run, Read, WellFormed, Assembling, Assembly, Settlement, Close, Parseable;
      RunSnoc(trace, Fail(actionId, what));
      CloseByOp(View(), Fail(actionId, what), actionId);
      ClosePipe(actionId, Error(what));
      trace := trace + [Fail(actionId, what)];
    }

    method SetNullOnPipe(actionId: string)
      requires Valid()
      modifies this`pipes, this`promiseMap, this`eventMap, this`discarded, this`trace
      ensures Valid() && trace == old(trace) + [Nullify(actionId)]
      ensures eventMap == old(eventMap) - {actionId} && promiseMap == old(promiseMap) - {actionId}
      ensures actionId !in old(promiseMap) ==> pipes == old(pipes)
      ensures actionId in old(promiseMap) ==>
                && old(promiseMap)[actionId] < |old(pipes)|
                && pipes == old(pipes)[old(promiseMap)[actionId] := Pipe(actionId, Some(Null))]
    {
      hide Lists, Run, Read, WellFormed, Assembling, Assembly, Settlement, Close, Parseable;
      RunSnoc(trace, Nullify(actionId));
      CloseByOp(View(), Nullify(actionId), actionId);
      ClosePipe(actionId, Null);
      trace := trace + [Nullify(actionId)];
    }

    /** What the two methods above share: settle the pending pipe, if any, and erase the working list, if any. */
    method ClosePipe(actionId: string, o: Outcome)
      requires Settlement(View())
      modifies this`pipes, this`promiseMap, this`eventMap, this`discarded
      ensures View() == Close(old(View()), actionId, o)
      ensures eventMap == old(eventMap) - {actionId}
    {
      hide Lists, Owned, Settlement;
      if actionId in promiseMap {
        PendingInRange(View(), actionId);
      }
      if actionId in promiseMap {
        SetPipe(actionId, o);
      }
      if actionId in eventMap {
        ListAt(actionId);
        discarded := discarded + [eventMap[actionId].Value()];
      } else {
        EraseAbsent(Lists(), actionId);
      }
      EraseList(actionId);
    }

    lemma ListAt(actionId: string)
      requires actionId in eventMap
      ensures Lists()[actionId] == eventMap[actionId].Value()
    {
    }

    method EraseList(actionId: string)
      modifies this`eventMap
      ensures eventMap == old(eventMap) - {actionId} && (old(Owned()) ==> Owned())
      ensures View() == old(View()).(lists := old(Lists()) - {actionId})
    {
      eventMap := eventMap - {actionId};
      assert Lists() == old(Lists()) - {actionId};
    }

    method EmplaceList(actionId: string, eventList: EventList)
      requires Owned() && actionId !in eventMap && eventList !in eventMap.Values
      modifies this`eventMap
      ensures Owned() && eventMap.Values <= old(eventMap.Values) + {eventList}
      ensures View() == old(View()).(lists := old(Lists())[actionId := eventList.Value()])
    {
      eventMap := eventMap[actionId := eventList];
      assert eventMap.Values <= old(eventMap.Values) + {eventList};
      assert Lists() == old(Lists())[actionId := eventList.Value()];
    }

    /** Appends an event to a working list; the other lists stay as they are. */
    method AppendToList(actionId: string, dict: Dict) returns (complete: bool, list: Listing)
      requires Owned() && actionId in eventMap
      modifies eventMap.Values
      ensures complete <==> Completes(dict)
      ensures list == AppendEvent(old(Lists())[actionId], dict)
      ensures View() == old(View()).(lists := old(Lists())[actionId := list])
    {
      complete := eventMap[actionId].AddEvent(dict);
      list := eventMap[actionId].Value();
      assert forall id :: id in eventMap && id != actionId ==> eventMap[id].Value() == old(Lists())[id];
      assert Lists() == old(Lists())[actionId := list];
    }

    /** Routes an event to the pipe of its identifier; false if nobody waits, and then it is left to the callback. */
    method RouteEvent(actionId: string, dict: Dict) returns (handled: bool)
      requires Valid() && Idle() && IdOf(dict) == Some(actionId)
      modifies this`pipes, this`promiseMap, this`eventMap, this`unclaimed, this`trace, eventMap.Values
      ensures Valid() && fresh(eventMap.Values - old(eventMap.Values))
      ensures handled <==> actionId in old(promiseMap)
      ensures unclaimed == if handled then old(unclaimed) else old(unclaimed) + [dict]
      ensures trace == old(trace) + [Arrive(dict)]
    {
      hide Lists, Run, Read, WellFormed, Assembling, Assembly, Settlement, Route, Parseable;
      if actionId !in promiseMap {
        LeaveUnclaimed(dict);
        return false;
      }
      RunSnoc(trace, Arrive(dict));
      PendingInRange(View(), actionId);
      if actionId !in eventMap {
        StartReaction(actionId, dict);
      } else {
        ExtendList(actionId, dict);
      }
      trace := trace + [Arrive(dict)];
      return true;
    }

    /** First event for a pipe: deliver it, or open a list with it, or deliver a failed list. */
    method StartReaction(actionId: string, dict: Dict)
      requires Owned() && actionId in promiseMap && actionId !in eventMap
      requires promiseMap[actionId] < |pipes| && pipes[promiseMap[actionId]].outcome.None?
      modifies this`pipes, this`promiseMap, this`eventMap
      ensures Owned() && fresh(eventMap.Values - old(eventMap.Values))
      ensures View() == Route(old(View()), actionId, dict)
    {
      hide Lists, Owned, ListSucceeds, Listing.Events;
      if !dict.HasKey(EVENT_LIST) {
        SetPipe(actionId, Value(Single(dict)));
        return;
      }
      var eventList := new EventList(dict);
      var ok := eventList.IsSuccess();
      if ok {
        EmplaceList(actionId, eventList);
      } else {
        SetPipe(actionId, Value(Many(eventList.Value())));
      }
    }

    /** Later event for a pipe with a working list: append it, and deliver the list if that completes it. */
    method ExtendList(actionId: string, dict: Dict)
      requires Owned() && actionId in promiseMap && actionId in eventMap
      requires promiseMap[actionId] < |pipes| && pipes[promiseMap[actionId]].outcome.None?
      modifies this`pipes, this`promiseMap, this`eventMap, eventMap.Values
      ensures Owned() && eventMap.Values <= old(eventMap.Values)
      ensures View() == Route(old(View()), actionId, dict)
    {
      hide Lists, Owned, Completes, Listing.Events, Route;
      RouteLater(View(), actionId, dict);
      var complete, list := AppendToList(actionId, dict);
      if complete {
        SetPipe(actionId, Value(Many(list)));
        UpdateErase(old(Lists()), actionId, list);
        EraseList(actionId);
      }
    }

    /** Parses one message and hands it to whoever waits for it, or else to the callback. */
    method DispatchEvent(eventBuf: string)
      requires Valid() && Idle() && eventBuf != "" && Parseable(eventBuf)
      modifies this`pipes, this`promiseMap, this`eventMap, this`callbackLog, this`unclaimed, this`trace, eventMap.Values
      ensures Valid() && Idle() && fresh(eventMap.Values - old(eventMap.Values))
      ensures trace == old(trace) + [Arrive(Parse(eventBuf))]
    {
      hide Run, Read, WellFormed, Assembling, Settlement, Assembly, Apply, Entries, ToDict;
      var dict := new KeyValDict.FromMessage(eventBuf);
      var actionId := dict.GetValue(ACTION_ID);
      var event := dict.View();
      var handled := false;
      if actionId.Some? {
        handled := RouteEvent(actionId.value, event);
      } else {
        LeaveUnclaimed(event);
      }
      if !handled {
        Notify(event);
      }
    }

    /** The moment at which an event turns out to be nobody's: it is left to the callback, which is called later. */
    ghost method LeaveUnclaimed(event: Dict)
      requires Valid() && Idle() && (IdOf(event).None? || IdOf(event).value !in promiseMap)
      modifies this`unclaimed, this`trace
      ensures Valid() && unclaimed == old(unclaimed) + [event] && trace == old(trace) + [Arrive(event)]
    {
      hide Run, Read, WellFormed, Assembling, Settlement, Assembly, Apply, Lists;
      RunSnoc(trace, Arrive(event));
      Unclaimed(View(), event);
      unclaimed := unclaimed + [event];
      trace := trace + [Arrive(event)];
    }

    /** The notification callback. No lock is held, so by now somebody may be waiting for the event's identifier. */
    method Notify(event: Dict)
      requires Valid() && unclaimed == callbackLog + [event]
      modifies this`callbackLog
      ensures Valid() && Idle() && callbackLog == old(callbackLog) + [event]
    {
      hide Run, Read, WellFormed, Assembling, Settlement, Assembly, Apply, Lists, Parseable;
      callbackLog := callbackLog + [event];
    }

    /** One turn of the worker loop: swap the shared vector out, then dispatch every message of it. */
    method DispatchBatch()
      requires Valid() && Idle()
      modifies this, eventMap.Values
      ensures Valid() && Idle() && fresh(eventMap.Values - old(eventMap.Values)) && events == []
      ensures forall i :: 0 <= i < |old(events)| ==> Parseable(old(events)[i])
      ensures |trace| == |old(trace)| + |old(events)| && old(trace) <= trace
      ensures forall i :: 0 <= i < |old(events)| ==> trace[|old(trace)| + i] == Arrive(Parse(old(events)[i]))
    {
      hide Run, Read, WellFormed, Assembling, Settlement, Assembly;
      var batch := events;
      events := [];
      ghost var steps := ArriveAll(batch);
      TakeAll(trace, steps);
      for i := 0 to |batch|
        invariant Valid() && Idle() && fresh(eventMap.Values - old(eventMap.Values)) && events == []
        invariant trace == old(trace) + steps[..i]
      {
        DispatchEvent(batch[i]);
        TakeNext(old(trace), steps, i);
      }
    }

    /** After the loop: dispatch what is still in the shared vector, which is cleared only at the end. */
    method FinalDrain()
      requires Valid() && Idle()
      modifies this, eventMap.Values
      ensures Valid() && Idle() && fresh(eventMap.Values - old(eventMap.Values)) && events == []
      ensures forall i :: 0 <= i < |old(events)| ==> Parseable(old(events)[i])
      ensures |trace| == |old(trace)| + |old(events)| && old(trace) <= trace
      ensures forall i :: 0 <= i < |old(events)| ==> trace[|old(trace)| + i] == Arrive(Parse(old(events)[i]))
    {
      hide Run, Read, WellFormed, Assembling, Settlement, Assembly;
      ghost var batch := events;
      ghost var steps := ArriveAll(batch);
      TakeAll(trace, steps);
      for i := 0 to |events|
        invariant Valid() && Idle() && fresh(eventMap.Values - old(eventMap.Values)) && events == batch
        invariant trace == old(trace) + steps[..i]
      {
        DispatchEvent(events[i]);
        TakeNext(old(trace), steps, i);
      }
      events := [];
    }

    /** Destruction: every promise still in the map is settled with a null reaction, in whatever order. */
    method CleanupObject()
      requires Valid()
      modifies this`pipes
      ensures pipes == Teardown(old(pipes))
      ensures forall k :: 0 <= k < |pipes| ==> pipes[k].outcome.Some?
    {
      var left := promiseMap.Keys;
      while left != {}
        invariant left <= promiseMap.Keys
        invariant |pipes| == |old(pipes)|
        invariant forall k :: 0 <= k < |pipes| ==>
          pipes[k] == if old(pipes)[k].outcome.None? && old(pipes)[k].id !in left
                      then Pipe(old(pipes)[k].id, Some(Null)) else old(pipes)[k]
        decreases left
      {
        var id :| id in left;
        pipes := pipes[promiseMap[id] := Pipe(id, Some(Null))];
        left := left - {id};
      }
    }
  }

  /** Routing to a working list is appending to it, and delivering it if that completes it. */
  lemma {:induction false} RouteLater(s: State, id: string, e: Dict)
    requires id in s.promises && s.promises[id] < |s.pipes| && id in s.lists
    ensures var l := AppendEvent(s.lists[id], e);
            Route(s, id, e) == if Completes(e) then Settle(s, id, Value(Many(l))).(lists := s.lists - {id})
                               else s.(lists := s.lists[id := l])
  {
  }

  lemma {:induction false} EraseAbsent<T>(m: map<string, T>, k: string)
    requires k !in m
    ensures m - {k} == m
  {
  }

  lemma {:induction false} UpdateErase<T>(m: map<string, T>, k: string, v: T)
    ensures m[k := v] - {k} == m - {k}
  {
  }
}
