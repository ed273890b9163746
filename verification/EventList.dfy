/** Reactions: a single event, or a list assembled from head, members and tail. */
module EventLists {
  import opened Text
  import opened Messages
  import opened Framing
  import Wire

  const EVENT_LIST := "EventList"
  const RESPONSE := "Response"

  function IdOf(e: Dict): Option<string> {
    e.GetValue(ACTION_ID)
  }

  predicate SuccessStatus(status: string) {
    status == "Success" || status == "Goodbye"
  }

  predicate IsListComplete(eventListVal: string) {
    eventListVal == "Complete" || eventListVal == "cancelled"
  }

  /** The event ends the list it belongs to. */
  predicate Completes(e: Dict) {
    var v := e.GetValue(EVENT_LIST);
    v.Some? && IsListComplete(v.value)
  }

  /** A list head is successful only if it says so. */
  predicate ListSucceeds(head: Dict) {
    var r := head.GetValue(RESPONSE);
    r.Some? && SuccessStatus(r.value)
  }

  /** The value of an event list. */
  datatype Listing = Listing(head: Dict, members: seq<Dict>, tail: Option<Dict>) {
    function Events(): seq<Dict> {
      [head] + members + (if tail.Some? then [tail.value] else [])
    }
  }

  datatype Reaction = Single(event: Dict) | Many(list: Listing) {
    function Events(): seq<Dict> {
      if Single? then [event] else list.Events()
    }

    /** A single reaction without a Response field counts as a success, a list without one does not. */
    predicate IsSuccess() {
      match this
      case Single(e) => var r := e.GetValue(RESPONSE); r.None? || SuccessStatus(r.value)
      case Many(l) => ListSucceeds(l.head)
    }
  }

  /** A list still being assembled under an identifier. */
  ghost predicate Assembling(id: string, l: Listing) {
    && ListSucceeds(l.head) && l.head.HasKey(EVENT_LIST) && l.tail.None?
    && (forall i :: 0 <= i < |l.members| ==> !Completes(l.members[i]))
    && (forall i :: 0 <= i < |l.Events()| ==> IdOf(l.Events()[i]) == Some(id))
  }

  /** A reaction fit to be handed to the caller waiting under an identifier. */
  ghost predicate WellFormed(id: string, r: Reaction) {
    && (forall i :: 0 <= i < |r.Events()| ==> IdOf(r.Events()[i]) == Some(id))
    && match r
       case Single(e) => !e.HasKey(EVENT_LIST)
       case Many(l) =>
         && l.head.HasKey(EVENT_LIST)
         && (if ListSucceeds(l.head)
             then l.tail.Some? && Completes(l.tail.value) &&
                  forall i :: 0 <= i < |l.members| ==> !Completes(l.members[i])
             else l.members == [] && l.tail.None?)
  }

  /** A further member and the tail both extend the list's events by one. */
  lemma {:induction false} ListingGrows(l: Listing, e: Dict)
    requires l.tail.None?
    ensures l.(members := l.members + [e]).Events() == l.Events() + [e]
    ensures l.(tail := Some(e)).Events() == l.Events() + [e]
  {
    assert l.(members := l.members + [e]).Events() == l.Events() + [e];
    assert l.(tail := Some(e)).Events() == l.Events() + [e];
  }

  /** What adding an event makes of a list: it becomes the tail if it ends the list, and a member if not. */
  function AppendEvent(l: Listing, e: Dict): Listing {
    if Completes(e) then l.(tail := Some(e)) else l.(members := l.members + [e])
  }

  /** Success, by what the messages say: a single event need not have a status, the head of a list must. */
  lemma {:induction false} SuccessByText(r: Reaction)
    ensures var e := r.Events()[0];
            r.IsSuccess() <==>
              if "Response" in e.vals then e.vals["Response"] == "Success" || e.vals["Response"] == "Goodbye"
              else r.Single?
  {
  }

  function PrintEvents(es: seq<Dict>): string {
    Concat(Wire.PrintAll(es))
  }

  class EventList {
    const head: Dict
    var tail: Option<Dict>
    var events: seq<Dict>

    function Value(): Listing
      reads this
    {
      Listing(head, events, tail)
    }

    constructor (head: Dict)
      ensures Value() == Listing(head, [], None)
    {
      this.head, tail, events := head, None, [];
    }

    method IsSuccess() returns (ok: bool)
      ensures ok <==> Many(Value()).IsSuccess()
      ensures ok <==>
              "Response" in head.vals && (head.vals["Response"] == "Success" || head.vals["Response"] == "Goodbye")
    {
      var response := head.GetValue(RESPONSE);
      ok := response.Some? && SuccessStatus(response.value);
    }

    /** Appends a member, or closes the list: true means the list is complete. */
    method AddEvent(event: Dict) returns (complete: bool)
      modifies this
      ensures complete <==>
              "EventList" in event.vals &&
              (event.vals["EventList"] == "Complete" || event.vals["EventList"] == "cancelled")
      ensures complete <==> Completes(event)
      ensures complete ==> tail == Some(event) && events == old(events)
      ensures !complete ==> tail == old(tail) && events == old(events) + [event]
      ensures Value() == AppendEvent(old(Value()), event)
      ensures old(Value()).tail.None? ==> Value().Events() == old(Value()).Events() + [event]
    {
      var val := event.GetValue(EVENT_LIST);
      if val.Some? && IsListComplete(val.value) {
        tail := Some(event);
        return true;
      }
      events := events + [event];
      return false;
    }

    method ToString() returns (result: string)
      ensures result == PrintEvents(Value().Events())
    {
      PrintSnoc([], head);
      TakeAll([head], events);
      EmptyUnit([], [head]);
      EmptyUnit(PrintEvents([]), Print(head));
      result := Print(head);
      for i := 0 to |events|
        invariant result == PrintEvents([head] + events[..i])
      {
        PrintSnoc([head] + events[..i], events[i]);
        TakeNext([head], events, i);
        result := result + Print(events[i]);
      }
      if tail.Some? {
        PrintSnoc([head] + events, tail.value);
        result := result + Print(tail.value);
      } else {
        EmptyUnit([], [head] + events);
      }
    }
  }

  lemma {:induction false} PrintSnoc(es: seq<Dict>, e: Dict)
    ensures PrintEvents(es + [e]) == PrintEvents(es) + Print(e)
  {
    assert Wire.PrintAll(es + [e]) == Wire.PrintAll(es) + [Print(e)];
    ConcatSnoc(Wire.PrintAll(es), Print(e));
  }

  /** Framing the text of a list gives its events' texts back one by one iff each of these is one message. */
  lemma {:induction false} ListTextReframes(l: Listing)
    ensures Split(PrintEvents(l.Events())).msgs == Wire.PrintAll(l.Events()) &&
            Split(PrintEvents(l.Events())).rest == ""
            <==> forall i :: 0 <= i < |l.Events()| ==> IsFrame(Print(l.Events()[i]))
  {
    hide Split, IsFrame, Print;
    var texts := Wire.PrintAll(l.Events());
    var msgs := Split(PrintEvents(l.Events())).msgs;
    assert forall i :: 0 <= i < |msgs| ==> IsFrame(msgs[i]);
    if forall i :: 0 <= i < |texts| ==> IsFrame(texts[i]) {
      Wire.FramedStream(texts);
    }
  }

  /** The event was parsed from a framed message. */
  ghost predicate FromWire(e: Dict) {
    exists m: Frame :: Wire.ParseFrame(m) == e
  }

  /** An event that came from the wire with an identifier prints as one message, which is parsed back to it. */
  lemma {:induction false} WireEventReprints(e: Dict)
    requires FromWire(e) && IdOf(e).Some?
    ensures IsFrame(Print(e)) && Wire.ParseFrame(Print(e)) == e
  {
    hide Wire.ParseFrame, Print, IsFrame, Parse;
    var m: Frame :| Wire.ParseFrame(m) == e;
    Wire.ParsedIsSendable(m);
    assert ACTION_ID in Filled(e).vals;
    Wire.PrintIsFrame(e);
    RoundTrip(e, Print(e));
    ParseFrameIs(Print(e));
  }

  lemma {:induction false} ParseFrameIs(m: Frame)
    ensures Parseable(m) && Wire.ParseFrame(m) == Parse(m)
  {
    Wire.FrameIsParseable(m);
  }

  /** The text of a list of such events is their wire form: framing and parsing it gives them all back, in order. */
  lemma {:induction false} WireListRoundTrip(l: Listing)
    requires forall i :: 0 <= i < |l.Events()| ==> FromWire(l.Events()[i]) && IdOf(l.Events()[i]).Some?
    ensures Split(PrintEvents(l.Events())).rest == ""
    ensures Wire.ParseAll(Split(PrintEvents(l.Events())).msgs) == l.Events()
  {
    hide Split, IsFrame, Print, Wire.ParseFrame, FromWire;
    forall i | 0 <= i < |l.Events()|
      ensures IsFrame(Print(l.Events()[i])) && Wire.ParseFrame(Print(l.Events()[i])) == l.Events()[i]
    {
      WireEventReprints(l.Events()[i]);
    }
    ListTextReframes(l);
  }
}
