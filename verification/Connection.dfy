/** The connection's notification callbacks: added, removed, and called for every notification. */
module Connections {
  import opened Messages

  datatype Op = Add(key: string) | Remove(key: string) | Notify(event: Dict)

  function Notifications(ops: seq<Op>): seq<Dict> {
    if |ops| == 0 then []
    else
      var init, op := Notifications(ops[..|ops| - 1]), ops[|ops| - 1];
      if op.Notify? then init + [op.event] else init
  }

  /** What each registered callback has been called with. */
  function Apply(m: map<string, seq<Dict>>, op: Op): map<string, seq<Dict>> {
    match op
    case Add(k) => if k in m then m else m[k := []]
    case Remove(k) => m - {k}
    case Notify(e) => map k | k in m :: m[k] + [e]
  }

  function Run(ops: seq<Op>): map<string, seq<Dict>> {
    if |ops| == 0 then map[] else Apply(Run(ops[..|ops| - 1]), ops[|ops| - 1])
  }

  lemma {:induction false} NotificationsSnoc(ops: seq<Op>, op: Op)
    ensures Notifications(ops + [op]) == if op.Notify? then Notifications(ops) + [op.event] else Notifications(ops)
  {
    assert (ops + [op])[..|ops|] == ops;
  }

  lemma {:induction false} NoNotifications()
    ensures Notifications([]) == []
  {
  }

  /** Added by operation i and never removed since. */
  ghost predicate AddedAt(ops: seq<Op>, i: nat, k: string) {
    i < |ops| && ops[i] == Add(k) && forall j :: i <= j < |ops| ==> ops[j] != Remove(k)
  }

  /** A callback has seen exactly the notifications since it was registered, each once and in order. */
  lemma {:induction false} CalledWhileRegistered(ops: seq<Op>, k: string) returns (i: nat)
    requires k in Run(ops)
    ensures AddedAt(ops, i, k) && k !in Run(ops[..i]) && Run(ops)[k] == Notifications(ops[i..])
  {
    hide Notifications;
    var n := |ops| - 1;
    var init, op := ops[..n], ops[n];
    if k in Run(init) {
      i := CalledWhileRegistered(init, k);
      assert ops[..i] == init[..i];
      assert ops[i..] == init[i..] + [op];
      NotificationsSnoc(init[i..], op);
    } else {
      i := n;
      assert ops[n..] == [] + [op];
      NotificationsSnoc([], op);
      NoNotifications();
    }
  }

  lemma {:induction false} AddedStays(ops: seq<Op>, i: nat, k: string)
    requires AddedAt(ops, i, k)
    ensures k in Run(ops)
  {
    if i < |ops| - 1 {
      AddedStays(ops[..|ops| - 1], i, k);
    }
  }

  /** Registered exactly when added and not removed since. */
  lemma {:induction false} RegisteredIffAdded(ops: seq<Op>, k: string)
    ensures k in Run(ops) <==> exists i :: AddedAt(ops, i, k)
  {
    if k in Run(ops) {
      var i := CalledWhileRegistered(ops, k);
    }
    forall i | AddedAt(ops, i, k) ensures k in Run(ops) {
      AddedStays(ops, i, k);
    }
  }

  class Connection {
    var callbacks: map<string, seq<Dict>>    // key to the calls made so far
    ghost var trace: seq<Op>

    ghost predicate Valid()
      reads this
    {
      callbacks == Run(trace)
    }

    constructor ()
      ensures Valid() && trace == []
    {
      callbacks, trace := map[], [];
    }

    /** The program passes a fresh key each time; a key already present would keep its callback. */
    method AddCallback(key: string)
      requires Valid()
      modifies this
      ensures Valid() && trace == old(trace) + [Add(key)]
      ensures callbacks == if key in old(callbacks) then old(callbacks) else old(callbacks)[key := []]
    {
      RunSnoc(trace, Add(key));
      if key !in callbacks {
        callbacks := callbacks[key := []];
      }
      trace := trace + [Add(key)];
    }

    method RemoveCallback(key: string)
      requires Valid()
      modifies this
      ensures Valid() && trace == old(trace) + [Remove(key)]
      ensures callbacks == old(callbacks) - {key}
    {
      RunSnoc(trace, Remove(key));
      callbacks := callbacks - {key};
      trace := trace + [Remove(key)];
    }

    /** Calls every registered callback once, in whatever order the container yields them. */
    method DispatchHandler(event: Dict)
      requires Valid()
      modifies this
      ensures Valid() && trace == old(trace) + [Notify(event)]
      ensures callbacks.Keys == old(callbacks).Keys
      ensures forall k :: k in callbacks ==> callbacks[k] == old(callbacks)[k] + [event]
    {
      RunSnoc(trace, Notify(event));
      ghost var before := callbacks;
      var left := callbacks.Keys;
      while left != {}
        invariant left <= callbacks.Keys == before.Keys && trace == old(trace)
        invariant forall k :: k in before ==> callbacks[k] == if k in left then before[k] else before[k] + [event]
        decreases left
      {
        var k :| k in left;
        callbacks := callbacks[k := callbacks[k] + [event]];
        left := left - {k};
      }
      trace := trace + [Notify(event)];
    }
  }

  lemma {:induction false} RunSnoc(ops: seq<Op>, op: Op)
    ensures Run(ops + [op]) == Apply(Run(ops), op)
  {
    assert (ops + [op])[..|ops|] == ops;
  }
}
