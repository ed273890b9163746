/**
 * Reader, parser and dispatcher as three interleaved actors joined by two queues, together with client calls
 * and the teardown that stops the actors one after the other.
 */
module Pipeline {
  import opened Text
  import opened Framing
  import opened WorkQueues
  import M = Messages
  import Wire
  import E = EventLists
  import D = Dispatch
  import I = Independence
  import C = Conservation

  /** Progress of the destructor: reader, then parser, then dispatcher. */
  datatype Stage = Up | ReaderGone | ParserStopping | ParserGone | DispatcherStopping | Gone

  datatype System = System(
    chunks: Queue<string>,      // reader to parser
    parser: Parser,
    emitting: seq<Frame>,       // messages of the current chunk not yet handed over
    events: Queue<Frame>,       // parser to dispatcher
    disp: D.State,
    ops: seq<D.Op>,             // history: operations performed on the dispatcher
    called: seq<M.Dict>,        // calls of the notification callback
    stage: Stage
  )

  datatype Step =
    | Read(chunk: string)                   // reader hands a chunk to add_buf
    | ParserDoes(pact: Act<string>)         // parser worker
    | Emit                                  // parser worker, inside a chunk: add_event
    | DispatcherDoes(dact: Act<Frame>)      // dispatcher worker
    | CallBack                              // dispatcher worker, without a lock: hands over an event nobody waited for
    | Client(op: D.Op)                      // get_event_pipe, set_exception_on_pipe, set_null_on_pipe
    | JoinReader
    | StopParser
    | JoinParser
    | StopDispatcher
    | JoinDispatcher

  const START_UP := System(New(), START, [], New(), D.INIT, [], [], Up)

  predicate Ready(s: System, st: Step) {
    match st
    case Read(c) => s.stage == Up && Enabled(s.chunks, Add(c))
    case ParserDoes(a) => ByWorker(a) && |s.emitting| == 0 && Enabled(s.chunks, a)
    case Emit => |s.emitting| > 0 && Enabled(s.events, Add(s.emitting[0]))
    case DispatcherDoes(a) => ByWorker(a) && Enabled(s.events, a) && s.stage != Gone && |s.called| == |s.disp.unclaimed|
    case CallBack => |s.called| < |s.disp.unclaimed|
    case Client(op) => !op.Arrive? && s.stage != Gone
    case JoinReader => s.stage == Up
    case StopParser => s.stage == ReaderGone
    case JoinParser => s.stage == ParserStopping && s.chunks.at == Finished && |s.emitting| == 0
    case StopDispatcher => s.stage == ParserGone
    case JoinDispatcher =>
      s.stage == DispatcherStopping && s.events.at == Finished && |s.called| == |s.disp.unclaimed|
  }

  /** The item a worker's act hands to its processing function. */
  function Consumed<T>(q: Queue<T>, a: Act<T>): Option<T>
    requires Enabled(q, a)
  {
    if a.Take? then Some(q.batch[0]) else if a.Drain? then Some(q.shared[0]) else None
  }

  function Perform(s: System, op: D.Op): System
    requires D.Settlement(s.disp)
  {
    s.(disp := D.Apply(s.disp, op), ops := s.ops + [op])
  }

  function Process(s: System, c: Option<string>): System {
    if c.None? then s
    else
      var f := Feed(s.parser, c.value);
      s.(parser := f.parser, emitting := f.msgs)
  }

  function Route(s: System, m: Option<Frame>): System
    requires D.Settlement(s.disp)
  {
    if m.None? then s else Perform(s, D.Arrive(Wire.ParseFrame(m.value)))
  }

  /** The dispatcher's operations are defined. It is proved below that in reachable states they always are. */
  ghost predicate Defined(s: System) {
    s.stage != Gone ==> D.Settlement(s.disp)
  }

  function After(s: System, st: Step): System
    requires Ready(s, st) && Defined(s)
  {
    match st
    case Read(c) => s.(chunks := Next(s.chunks, Add(c)))
    case ParserDoes(a) => Process(s, Consumed(s.chunks, a)).(chunks := Next(s.chunks, a))
    case Emit => s.(events := Next(s.events, Add(s.emitting[0])), emitting := s.emitting[1..])
    case DispatcherDoes(a) => Route(s, Consumed(s.events, a)).(events := Next(s.events, a))
    case CallBack => s.(called := s.called + [s.disp.unclaimed[|s.called|]])
    case Client(op) => Perform(s, op)
    case JoinReader => s.(stage := ReaderGone)
    case StopParser => s.(stage := ParserStopping, chunks := Next(s.chunks, Stop))
    case JoinParser => s.(stage := ParserGone)
    case StopDispatcher => s.(stage := DispatcherStopping, events := Next(s.events, Stop))
    case JoinDispatcher => s.(stage := Gone, disp := s.disp.(pipes := D.Teardown(s.disp.pipes)))
  }

  // ---------- invariant ----------

  /** A queue whose producer is gone before its worker is told to stop loses nothing at the final drain. */
  ghost predicate Settled<T>(q: Queue<T>) {
    Ordered(q) && (q.at in {Draining, Finished} ==> q.cut == |q.arrived|)
  }

  /** Parser: what it framed is what it handed over and what it is about to hand over. */
  ghost predicate ParserInv(s: System) {
    && Settled(s.chunks)
    && FeedAll(START, s.chunks.processed) == Fed(s.parser, s.events.arrived + s.emitting)
    && (s.chunks.run <==> s.stage in {Up, ReaderGone})
    && (s.stage in {ParserGone, DispatcherStopping, Gone} ==> s.chunks.at == Finished && s.emitting == [])
  }

  /** Dispatcher: its state is that of a sequential run whose arrivals are the messages taken so far. */
  ghost predicate DispatcherInv(s: System) {
    && Settled(s.events)
    && I.Arrivals(s.ops) == Wire.ParseAll(s.events.processed)
    && s.disp == (if s.stage == Gone then D.Run(s.ops).(pipes := D.Teardown(D.Run(s.ops).pipes)) else D.Run(s.ops))
    && (s.events.run <==> s.stage !in {DispatcherStopping, Gone})
    && (s.stage == Gone ==> s.events.at == Finished)
  }

  /** Callback: called in order for every event left to it, with at most the last call still to come. */
  predicate CallbackInv(s: System) {
    && s.called <= s.disp.unclaimed && |s.disp.unclaimed| <= |s.called| + 1
    && (s.stage == Gone ==> s.called == s.disp.unclaimed)
  }

  ghost predicate Inv(s: System) {
    ParserInv(s) && DispatcherInv(s) && CallbackInv(s)
  }

  lemma {:induction false} SettledStep<T>(q: Queue<T>, a: Act<T>)
    requires Settled(q) && Enabled(q, a) && (a.Add? ==> q.run)
    ensures Settled(Next(q, a))
    ensures ByWorker(a) ==> Next(q, a).run == q.run && Next(q, a).arrived == q.arrived
    ensures var c := Consumed(q, a);
            Next(q, a).processed == if c.Some? then q.processed + [c.value] else q.processed
    ensures ByWorker(a) ==> q.at != Finished
  {
    OrderedStep(q, a);
  }

  lemma {:induction false} ParserStep(s: System, st: Step)
    requires Inv(s) && Ready(s, st)
    ensures ParserInv(After(s, st))
  {
    hide Ordered, FeedAll, D.Run, D.Apply, Feed, I.Arrivals;
    match st {
      case Read(c) => SettledStep(s.chunks, Add(c));
      case ParserDoes(a) =>
        SettledStep(s.chunks, a);
        var c := Consumed(s.chunks, a);
        if c.Some? {
          FeedSnoc(START, s.chunks.processed, c.value);
          EmptyUnit(s.emitting, s.events.arrived);
        }
      case Emit => Assoc(s.events.arrived, [s.emitting[0]], s.emitting[1..]);
                   assert [s.emitting[0]] + s.emitting[1..] == s.emitting;
      case DispatcherDoes(a) => SettledStep(s.events, a);
      case StopParser => SettledStep(s.chunks, Stop);
      case _ =>
    }
  }

  lemma {:induction false} RoutingStep(s: System, a: Act<Frame>)
    requires Inv(s) && Ready(s, DispatcherDoes(a))
    ensures DispatcherInv(After(s, DispatcherDoes(a)))
  {
    hide Ordered, FeedAll, D.Run, D.Apply, D.Settlement, D.Assembly, Feed, I.Arrivals, Wire.ParseFrame, ParserInv;
    SettledStep(s.events, a);
    var m := Consumed(s.events, a);
    if m.Some? {
      var op := D.Arrive(Wire.ParseFrame(m.value));
      D.RunSnoc(s.ops, op);
      I.ArrivalsSnoc(s.ops, op);
      ParseAllSnoc(s.events.processed, m.value);
    }
  }

  lemma {:induction false} ParseAllSnoc(ms: seq<Frame>, m: Frame)
    ensures Wire.ParseAll(ms + [m]) == Wire.ParseAll(ms) + [Wire.ParseFrame(m)]
  {
    hide Wire.ParseFrame;
  }

  lemma {:induction false} DispatcherStep(s: System, st: Step)
    requires Inv(s) && Ready(s, st)
    ensures DispatcherInv(After(s, st))
  {
    hide Ordered, FeedAll, D.Run, D.Apply, Feed, I.Arrivals, Wire.ParseFrame;
    match st {
      case Emit => SettledStep(s.events, Add(s.emitting[0]));
      case DispatcherDoes(a) => RoutingStep(s, a);
      case Client(op) =>
        D.RunSnoc(s.ops, op);
        I.ArrivalsSnoc(s.ops, op);
      case StopDispatcher => SettledStep(s.events, Stop);
      case _ =>
    }
  }

  lemma {:induction false} CallbackStep(s: System, st: Step)
    requires Inv(s) && Ready(s, st)
    ensures CallbackInv(After(s, st))
  {
    hide Ordered, FeedAll, D.Run, D.Apply, D.Settlement, D.Assembly, Feed, I.Arrivals, Wire.ParseFrame, ParserInv;
    match st {
      case DispatcherDoes(a) =>
        var m := Consumed(s.events, a);
        if m.Some? {
          D.UnclaimedGrows(s.disp, D.Arrive(Wire.ParseFrame(m.value)));
        }
      case Client(op) => D.UnclaimedGrows(s.disp, op);
      case _ =>
    }
  }

  // ---------- runs ----------

  /** The states reached by a sequence of steps of all actors, each possible when it happens. */
  ghost function Exec(steps: seq<Step>): Option<System> {
    if |steps| == 0 then Some(START_UP)
    else
      match Exec(steps[..|steps| - 1])
      case None => None
      case Some(s) =>
        var st := steps[|steps| - 1];
        if Defined(s) && Ready(s, st) then Some(After(s, st)) else None
  }

  /** Every reachable state satisfies the invariants of both queues, the parser and the dispatcher. */
  lemma {:induction false} Reachable(steps: seq<Step>)
    requires Exec(steps).Some?
    ensures Inv(Exec(steps).value)
  {
    if |steps| > 0 {
      var n := |steps| - 1;
      Reachable(steps[..n]);
      var s := Exec(steps[..n]).value;
      ParserStep(s, steps[n]);
      DispatcherStep(s, steps[n]);
      CallbackStep(s, steps[n]);
    }
  }

  /** A step that is ready can be taken: the dispatcher's operations are always defined. */
  lemma {:induction false} ReadyIsTaken(steps: seq<Step>, st: Step)
    requires Exec(steps).Some? && Ready(Exec(steps).value, st)
    ensures Defined(Exec(steps).value)
    ensures Exec(steps + [st]) == Some(After(Exec(steps).value, st))
  {
    Reachable(steps);
    hide D.Run, D.Apply, Ready, After, ParserInv;
    assert (steps + [st])[..|steps|] == steps;
    assert Exec(steps).value.stage != Gone ==> D.Settlement(Exec(steps).value.disp);
  }

  /** The pipeline refines sequential processing: at every moment, under every interleaving, what has been
   *  routed is an initial part of the messages of the chunks handed over, and the dispatcher is in the state
   *  of a sequential run with just these arrivals. */
  lemma {:induction false} InStreamOrder(steps: seq<Step>)
    requires Exec(steps).Some?
    ensures var s := Exec(steps).value;
            && s.events.processed <= FeedAll(START, s.chunks.arrived).msgs
            && I.Arrivals(s.ops) == Wire.ParseAll(s.events.processed)
            && (s.stage != Gone ==> s.disp == D.Run(s.ops))
  {
    Reachable(steps);
    hide FeedAll, Feed, D.Run, Exec;
    var s := Exec(steps).value;
    FeedAllGrows(START, s.chunks.processed, s.chunks.batch + s.chunks.shared);
    Assoc(s.chunks.processed, s.chunks.batch, s.chunks.shared);
    Assoc(s.events.processed, s.events.batch, s.events.shared);
  }

  /**
   * Shutdown. When teardown is over, every complete message in the bytes handed to the parser has been routed
   * exactly once and in stream order, only the bytes after the last one are left in the buffer, every future ever
   * issued is settled, and every event that nobody waited for has been handed to the callback, in order.
   */
  lemma {:induction false} Shutdown(steps: seq<Step>)
    requires Exec(steps).Some? && Exec(steps).value.stage == Gone
    ensures var s := Exec(steps).value;
            && Fed(s.parser, s.events.processed) == FeedAll(START, s.chunks.arrived)
            && I.Arrivals(s.ops) == Wire.ParseAll(FeedAll(START, s.chunks.arrived).msgs)
            && (forall k :: 0 <= k < |s.disp.pipes| ==> s.disp.pipes[k].outcome.Some?)
            && s.called == s.disp.unclaimed == D.Run(s.ops).unclaimed
    ensures var s := Exec(steps).value;
            |s.chunks.arrived| > 0 && !Clean(EOR, s.chunks.arrived[0]) ==>
              Fed(s.parser, s.events.processed) == Whole(Concat(s.chunks.arrived))
  {
    Reachable(steps);
    hide FeedAll, Feed, D.Run, Exec;
    var s := Exec(steps).value;
    TakeAll([], s.chunks.arrived);
    TakeAll([], s.events.arrived);
    EmptyUnit(s.emitting, s.events.arrived);
    DrainedAll(s.chunks);
    DrainedAll(s.events);
    if |s.chunks.arrived| > 0 && !Clean(EOR, s.chunks.arrived[0]) {
      BannerInPrefix(s.chunks.arrived[0], Concat(s.chunks.arrived[1..]));
      ChunkIndependence(s.chunks.arrived);
    }
  }

  lemma {:induction false} DrainedAll<T>(q: Queue<T>)
    requires Settled(q) && q.at == Finished
    ensures q.processed == q.arrived
  {
  }

  /**
   * End to end. If the bytes read are a banner line and then sendable clean dictionaries as they print, however
   * they were cut behind the banner, then after teardown the dispatcher has routed exactly these dictionaries,
   * once each and in order, and the parser holds nothing back.
   */
  lemma {:induction false} EndToEnd(steps: seq<Step>, banner: string, ds: seq<M.Dict>)
    requires Exec(steps).Some? && Exec(steps).value.stage == Gone
    requires Clean(EOR, banner)
    requires forall i :: 0 <= i < |ds| ==> M.CleanDict(ds[i]) && Wire.Sendable(ds[i])
    requires var chunks := Exec(steps).value.chunks.arrived;
             && |chunks| > 0 && !Clean(EOR, chunks[0])
             && Concat(chunks) == banner + (Chars(EOR) + Concat(Wire.PrintAll(ds)))
    ensures |I.Arrivals(Exec(steps).value.ops)| == |ds|
    ensures forall i :: 0 <= i < |ds| ==> I.Arrivals(Exec(steps).value.ops)[i] == M.Filled(ds[i])
    ensures Exec(steps).value.parser == Parser(false, "", Some(banner))
  {
    hide FeedAll, Feed, D.Run, Exec, M.Parse, M.Print;
    var s := Exec(steps).value;
    Shutdown(steps);
    Wire.WireRoundTrip(banner, ds, s.chunks.arrived);
    FeedAllNotFirst(s.chunks.arrived);
  }

  lemma {:induction false} FeedAllNotFirst(chunks: seq<string>)
    requires |chunks| > 0
    ensures !FeedAll(START, chunks).parser.first
  {
  }

  /**
   * Conservation through the whole pipeline: every message framed so far is waiting in the parser, in the
   * shared vector, in the dispatcher's batch, or has been routed; and every routed event has exactly one place.
   */
  lemma {:induction false} NothingLost(steps: seq<Step>) returns (w: seq<C.Place>)
    requires Exec(steps).Some?
    ensures var s := Exec(steps).value;
            && s.events.processed + s.events.batch + s.events.shared + s.emitting ==
               FeedAll(START, s.chunks.processed).msgs
            && s.chunks.processed + s.chunks.batch + s.chunks.shared == s.chunks.arrived
            && C.Partition(Wire.ParseAll(s.events.processed), w, D.Run(s.ops))
  {
    Reachable(steps);
    hide FeedAll, D.Run, C.Pick, Exec;
    w := C.Conserved(Exec(steps).value.ops);
  }

  /** A list handed to a caller prints as text that, sent over the wire, is received as the same events again. */
  lemma {:induction false} DeliveredListRoundTrip(steps: seq<Step>, k: nat, l: E.Listing)
    requires Exec(steps).Some? && k < |Exec(steps).value.disp.pipes|
    requires Exec(steps).value.disp.pipes[k].outcome == Some(D.Value(E.Many(l)))
    ensures Split(E.PrintEvents(l.Events())).rest == ""
    ensures Wire.ParseAll(Split(E.PrintEvents(l.Events())).msgs) == l.Events()
  {
    Reachable(steps);
    var s := Exec(steps).value;
    hide FeedAll, D.Run, Exec, Split, Wire.ParseFrame, IsFrame, E.PrintEvents;
    forall e | e in I.Arrivals(s.ops) ensures E.FromWire(e) {
      var i :| 0 <= i < |s.events.processed| && Wire.ParseFrame(s.events.processed[i]) == e;
    }
    C.DeliveredListRoundTrip(s.ops, k, l);
  }

  // ---------- the running system is open and catches up ----------

  /** Until the reader is joined every chunk can be handed over, and until the end every client operation performed. */
  lemma {:induction false} StaysOpen(steps: seq<Step>, chunk: string, op: D.Op)
    requires Exec(steps).Some? && !op.Arrive?
    ensures var s := Exec(steps).value;
            && (s.stage == Up ==>
                  var t := Exec(steps + [Read(chunk)]);
                  t.Some? && t.value.chunks.arrived == s.chunks.arrived + [chunk] && t.value.stage == Up)
            && (s.stage != Gone ==>
                  var t := Exec(steps + [Client(op)]);
                  t.Some? && D.Settlement(s.disp) && t.value.disp == D.Apply(s.disp, op))
  {
    hide Exec, FeedAll, D.Run, D.Apply, D.Settlement, D.Assembly;
    Reachable(steps);
    var s := Exec(steps).value;
    if s.stage == Up {
      ReadyIsTaken(steps, Read(chunk));
    }
    if s.stage != Gone {
      ReadyIsTaken(steps, Client(op));
    }
  }

  predicate CaughtUp(s: System) {
    && |s.chunks.shared| + |s.chunks.batch| == 0 && |s.emitting| == 0
    && |s.events.shared| + |s.events.batch| == 0 && |s.called| == |s.disp.unclaimed|
  }

  /** The next step by which the two workers of a running system get on with what has been read. */
  function WorkStep(s: System): Step
    requires s.chunks.at != Finished && s.events.at != Finished && !CaughtUp(s)
  {
    if |s.emitting| > 0 then Emit
    else if |s.chunks.shared| + |s.chunks.batch| > 0 then ParserDoes(Forward(s.chunks))
    else if |s.called| != |s.disp.unclaimed| then CallBack
    else DispatcherDoes(Forward(s.events))
  }

  /** How much work is left, compared like the distance from the end of teardown. */
  function Backlog(s: System): Distance {
    Distance(0, |s.chunks.shared| + |s.chunks.batch|, Turn(s.chunks), |s.emitting|,
             |s.events.shared| + |s.events.batch|, |s.disp.unclaimed| - |s.called|, Turn(s.events))
  }

  lemma {:induction false} WorkProgress(s: System)
    requires Inv(s) && s.stage == Up && !CaughtUp(s) && s.chunks.at != Finished && s.events.at != Finished
    ensures Ready(s, WorkStep(s)) && D.Settlement(s.disp)
    ensures var t := After(s, WorkStep(s));
            Closer(Backlog(t), Backlog(s)) && t.stage == Up && t.chunks.arrived == s.chunks.arrived
  {
    hide FeedAll, Feed, D.Run, D.Apply, I.Arrivals, D.Settlement, D.Assembly;
    if |s.chunks.shared| + |s.chunks.batch| > 0 {
      ForwardStep(s.chunks);
    }
    if |s.events.shared| + |s.events.batch| > 0 {
      ForwardStep(s.events);
    }
  }

  lemma {:induction false} WorkToEnd(steps: seq<Step>, s: System) returns (more: seq<Step>, e: System)
    requires Exec(steps) == Some(s) && s.stage == Up
    ensures Exec(steps + more) == Some(e) && e.stage == Up && CaughtUp(e) && e.chunks.arrived == s.chunks.arrived
    decreases Backlog(s).chunks, Backlog(s).parser, Backlog(s).emitting,
              Backlog(s).events, Backlog(s).callbacks, Backlog(s).dispatcher
  {
    if CaughtUp(s) {
      more, e := [], s;
      EmptyUnit([], steps);
    } else {
      Reachable(steps);
      UpWorks(s);
      var st := WorkStep(s);
      WorkProgress(s);
      hide Inv, After, WorkStep, Ready, Exec;
      ReadyIsTaken(steps, st);
      more, e := WorkToEnd(steps + [st], After(s, st));
      Assoc(steps, [st], more);
      more := [st] + more;
    }
  }

  lemma {:induction false} UpWorks(s: System)
    requires Inv(s) && s.stage == Up
    ensures s.chunks.at != Finished && s.events.at != Finished
  {
  }

  /**
   * A running system is never stuck: from every reachable state before teardown the workers can go on, with no further
   * input, until every complete message read so far has been routed and every unclaimed event handed over.
   */
  lemma {:induction false} CatchesUp(steps: seq<Step>) returns (more: seq<Step>)
    requires Exec(steps).Some? && Exec(steps).value.stage == Up
    ensures Exec(steps + more).Some? && Exec(steps + more).value.stage == Up
    ensures var t := Exec(steps + more).value;
            && t.chunks.arrived == Exec(steps).value.chunks.arrived
            && Fed(t.parser, t.events.processed) == FeedAll(START, t.chunks.arrived)
            && t.called == t.disp.unclaimed
  {
    var e;
    more, e := WorkToEnd(steps, Exec(steps).value);
    Reachable(steps + more);
    AllDone(e);
  }

  lemma {:induction false} AllDone(s: System)
    requires Inv(s) && CaughtUp(s)
    ensures Fed(s.parser, s.events.processed) == FeedAll(START, s.chunks.arrived) && s.called == s.disp.unclaimed
  {
    hide FeedAll, D.Run;
    EmptyUnit(s.chunks.batch, s.chunks.processed);
    EmptyUnit(s.chunks.shared, s.chunks.processed);
    EmptyUnit(s.events.batch, s.events.processed);
    EmptyUnit(s.events.shared, s.events.processed);
    EmptyUnit(s.emitting, s.events.arrived);
  }

  // ---------- teardown can always be completed ----------

  function Rank(at: At): nat {
    match at
    case Waiting => 4
    case Processing => 3
    case Checking => 2
    case Draining => 1
    case Finished => 0
  }

  function StagesLeft(stage: Stage): nat {
    match stage
    case Up => 5
    case ReaderGone => 4
    case ParserStopping => 3
    case ParserGone => 2
    case DispatcherStopping => 1
    case Gone => 0
  }

  lemma {:induction false} WindDownStep<T>(q: Queue<T>)
    requires !q.run && q.at != Finished
    ensures var a := Forward(q);
            && Enabled(q, a) && ByWorker(a)
            && var n := Next(q, a);
               (|n.shared| + |n.batch| < |q.shared| + |q.batch| ||
                (|n.shared| + |n.batch| == |q.shared| + |q.batch| && Rank(n.at) < Rank(q.at)))
  {
  }

  function TeardownStep(s: System): Step
    requires s.stage != Gone
  {
    match s.stage
    case Up => JoinReader
    case ReaderGone => StopParser
    case ParserStopping =>
      if |s.emitting| > 0 then Emit else if s.chunks.at == Finished then JoinParser else ParserDoes(Forward(s.chunks))
    case ParserGone => StopDispatcher
    case DispatcherStopping =>
      if |s.called| < |s.disp.unclaimed| then CallBack
      else if s.events.at == Finished then JoinDispatcher else DispatcherDoes(Forward(s.events))
  }

  /** How far a system is from the end of its teardown, compared lexicographically. */
  datatype Distance = Distance(stages: nat, chunks: nat, parser: nat, emitting: nat,
                               events: nat, callbacks: int, dispatcher: nat)

  function ToGo(s: System): Distance {
    Distance(StagesLeft(s.stage), |s.chunks.shared| + |s.chunks.batch|, Rank(s.chunks.at), |s.emitting|,
             |s.events.shared| + |s.events.batch|, |s.disp.unclaimed| - |s.called|, Rank(s.events.at))
  }

  predicate Closer(a: Distance, b: Distance) {
    if a.stages != b.stages then a.stages < b.stages
    else if a.chunks != b.chunks then a.chunks < b.chunks
    else if a.parser != b.parser then a.parser < b.parser
    else if a.emitting != b.emitting then a.emitting < b.emitting
    else if a.events != b.events then a.events < b.events
    else if a.callbacks != b.callbacks then a.callbacks < b.callbacks
    else a.dispatcher < b.dispatcher
  }

  lemma {:induction false} TeardownProgress(s: System)
    requires Inv(s) && s.stage != Gone
    ensures Ready(s, TeardownStep(s)) && D.Settlement(s.disp)
    ensures var t := After(s, TeardownStep(s)); Closer(ToGo(t), ToGo(s)) && t.chunks.arrived == s.chunks.arrived
  {
    hide FeedAll, Feed, D.Run, D.Apply, I.Arrivals, D.Settlement, D.Assembly;
    if s.stage == ParserStopping && s.chunks.at != Finished {
      WindDownStep(s.chunks);
    } else if s.stage == DispatcherStopping && s.events.at != Finished {
      WindDownStep(s.events);
    }
  }

  lemma {:induction false} WindToEnd(steps: seq<Step>, s: System) returns (more: seq<Step>, e: System)
    requires Exec(steps) == Some(s)
    ensures Exec(steps + more) == Some(e) && e.stage == Gone && e.chunks.arrived == s.chunks.arrived
    decreases ToGo(s).stages, ToGo(s).chunks, ToGo(s).parser, ToGo(s).emitting,
              ToGo(s).events, ToGo(s).callbacks, ToGo(s).dispatcher
  {
    if s.stage == Gone {
      more, e := [], s;
      EmptyUnit([], steps);
    } else {
      var st := TeardownStep(s);
      Reachable(steps);
      TeardownProgress(s);
      hide Inv, After, TeardownStep, Ready, Exec;
      ReadyIsTaken(steps, st);
      more, e := WindToEnd(steps + [st], After(s, st));
      Assoc(steps, [st], more);
      more := [st] + more;
    }
  }

  /**
   * No reachable state is a dead end: from each of them the actors can go on, with no more input, until teardown
   * is over. (That the scheduler lets them, and that no wake-up is missed, is not claimed.)
   */
  lemma {:induction false} TeardownPossible(steps: seq<Step>) returns (more: seq<Step>)
    requires Exec(steps).Some?
    ensures Exec(steps + more).Some? && Exec(steps + more).value.stage == Gone
    ensures Exec(steps + more).value.chunks.arrived == Exec(steps).value.chunks.arrived
  {
    var e;
    more, e := WindToEnd(steps, Exec(steps).value);
  }
}
