# Verified model of the Asterisk Manager Interface client

The client reads one byte stream from an Asterisk server, cuts it into messages, parses each message into a
dictionary, and hands it either to the caller that waits for the message's `ActionID` or to the notification
callbacks. This project models that path and proves what it promises.

| file | what it models |
|---|---|
| `Text.dfy` | the three delimiters and leftmost search |
| `Messages.dfy`, `KeyValDict.dfy` | parsing and printing of messages; the dictionary object with its cursor loop |
| `Framing.dfy`, `StreamParser.dfy` | splitting the stream; the incremental framer object with its back-off scan |
| `Wire.dfy`, `Action.dfy` | printing, framing, chunking and parsing together; actions |
| `EventList.dfy` | reactions and the list object assembled from head, members and tail |
| `Dispatch.dfy`, `Independence.dfy`, `Conservation.dfy`, `EventDispatcher.dfy` | response correlation: the state machine, its view from one identifier, where every event is, and the object |
| `WorkQueue.dfy`, `Pipeline.dfy` | the double-buffered queue; reader, parser and dispatcher as interleaved actors with teardown |
| `Invocation.dfy`, `Callers.dfy` | callers racing with replies and timeouts; what they can rely on, and exactly when |
| `Connection.dfy` | the callback registry |

Functions say what is computed, classes with fields, loops and ghost histories say how the program does it, and
each class is proved to be its function: a `StreamParser` object holds what `Framing.FeedAll` gives for the
chunks it was fed, an `EventDispatcher` object is `Dispatch.Run` of its trace, a `KeyValDict` object is
`Messages.Parse` of its message. The theorems about all runs are then proved on the functions. What a dispatcher
operation does to pipes and lists it does under its locks, so a run is a sequence of atomic operations in any order.
The notification callback is different: that nobody waits for an event is found out under the locks, but the callback is
called after they have been released (src/EventDispatcher.cpp:88-91). `unclaimed` is what routing has left to the
callback, `called` what has been handed to it; in `Invocation` and `Pipeline` the call is a step of its own.

## Results that have an exact condition

- Chunk independence holds iff the first chunk contains the banner's line end, or no byte follows it
  (`Framing.ChunkIndependence`). Without a line end there the program still behaves in a defined way: the search
  returns the largest unsigned value, adding two wraps round to one, and one character is cut off. The model does the
  same; `Framing.SplitBannerExample` is a stream that is then framed wrongly.
- Printing and parsing a dictionary is a round trip iff no key contains a separator and no shown value a line end
  (`Messages.RoundTrip`). Repeated keys do no harm.
- A clean dictionary prints as one message iff it is not empty, no key contains an empty line, and no key after the
  first begins with a line end (`Wire.PrintIsFrame`). Dictionaries arrive as sent and parse back iff every one is clean
  and sendable in this sense (`Wire.WireRoundTrip`); a dictionary that came from the wire with a key in it always
  is (`Wire.ParsedIsSendable`).
- Parse-then-print returns a text unchanged iff the text is canonical (`Messages.Lossless`).
- A call that registers is assured of its due (if it is ever settled, then with a reaction, or with a timeout error after
  its own wait has expired) iff at that moment no call with the same identifier is pending, and none has given up
  waiting without having closed the pipe yet (`Callers.Guarantee`). Both failures happen: `Callers.TakenExample` and
  `Callers.CutShortExample` are runs that end in a broken promise and in a timeout error for a caller without a
  time limit. With unique identifiers neither can happen (`Callers.UniqueIsFair`).
- While a call is pending no event of its identifier is left to the notification callback. One can still be handed to it:
  the one that had been left to it when the call registered. That never happens iff the identifier was taken, or no
  such event was outstanding at that moment (`Callers.Bypass`).
- An event is left to the notification callback iff every call with its identifier is settled (`Callers.LateEvents`).

## Assumptions

- The moved-from buffer at src/StreamParser.cpp:122 is empty afterwards, as the program relies on.
- A promise that finds its identifier taken (src/EventDispatcher.cpp:156) is destroyed, and its future is settled
  as broken.
- A found separator without a line end after it makes the parser read outside its buffer; `Messages.Parseable`
  excludes exactly that, and `Wire.FrameIsParseable` shows that framing never lets it happen.
- Teardown is modelled as in a build without assertions: the loop at src/EventDispatcher.cpp:34-36 is entered even
  when promises are left.
- Callbacks return, and only record what they are given. Delivery from the wire to the dispatcher in `Invocation` is
  in order, which is what `Pipeline.InStreamOrder` proves of the three actors.

## Where comments and code differ

The model follows the code.

- include/c++ami/reaction/EventList.hpp:24-28 speaks of a tail marked `completed` and of failed heads marked by a
  status or by `canceled`; the code ends a list at `Complete` or `cancelled` and judges a head by its `Response` only
  (src/reaction/EventList.cpp:35-44).
- include/c++ami/EventDispatcher.hpp:143-144 says that cleanup frees working lists; the code asserts that there are
  none and leaves them to the destructor of the map (src/EventDispatcher.cpp:38).

## Model

| member | source | states |
|---|---|---|
| Text.Find | include/c++ami/CppAmiDefs.h:11-13 | search returns the leftmost occurrence at or after the offset, and npos exactly when there is none |
| Text.AtIsSlice | include/c++ami/CppAmiDefs.h:11-13 | an occurrence is the delimiter's character sequence standing at the offset |
| Messages.RoundTrip | src/util/KeyValDict.cpp:73-109 | any dictionary's print can be parsed, and gives the dictionary back (missing values empty) iff keys hold no separator and shown values no line end |
| Messages.MissingComesBackEmpty | src/util/KeyValDict.cpp:101-109 | a listed key without a value is printed, and comes back with an empty value |
| Messages.PrintedForm | src/util/KeyValDict.cpp:101-109 | character by character: the line of the first key, its value empty if it has none, then the other keys, then a line end |
| Messages.ParsedIsClean | src/util/KeyValDict.cpp:80-98 | whatever is parsed has clean keys and values and a value for every key |
| Messages.ParseUnique | src/util/KeyValDict.cpp:80-98 | a text can be parsed with certain entries iff their lines and a rest without a separator make it up and they are clean; no other entries will do |
| Messages.ParsePrintIdempotent | src/util/KeyValDict.cpp:73-109 | parsing the print of a parsed message gives the same keys and values, so print-after-parse is idempotent |
| Messages.Lossless | src/util/KeyValDict.cpp:73-109 | a text that can be parsed survives parse-then-print iff it is clean entries closed by a line end, repeated keys agreeing |
| Messages.LosslessMessage | tests/src/ami_message_tests.cpp:10-16 | a message ending in an empty line survives iff it is one or more such entries |
| Messages.EndedIsParseable | src/util/KeyValDict.cpp:80-98 | in a message ending in an empty line every separator is followed by a line end |
| Messages.FirstWinsIs | src/util/KeyValDict.cpp:94-95 | the value kept for a key is that of its first entry |
| Messages.FirstUncleanLine | src/util/KeyValDict.cpp:81-97 | the first unclean line of a print is misread, all lines before it are read faithfully |
| Messages.ParsedLookup | src/util/KeyValDict.cpp:30-63 | a key of a parsed message is listed iff it has a value iff some entry carries it, and its value is that of the first such entry |
| KeyValDicts.ScanTurn | src/util/KeyValDict.cpp:80-98 | a turn of the cursor loop finds the line end, stays in range, moves at least four characters, and reads exactly the next entry |
| KeyValDicts.KeyValDict.SetMessage | src/util/KeyValDict.cpp:73-99 | the cursor loop terminates and leaves the keys and first-wins values of the message |
| KeyValDicts.KeyValDict.ToString | src/util/KeyValDict.cpp:101-109 | the accumulating loop prints every listed key in order, a missing value as empty, and the closing line end |
| KeyValDicts.KeyValDict.FromMessage | src/util/KeyValDict.cpp:15-18 | a dictionary constructed from a message holds its parse |
| KeyValDicts.KeyValDict.AtForUpdate | src/util/KeyValDict.cpp:35-41 | an unlisted key is an error and changes nothing, a listed key without value gets an empty one |
| KeyValDicts.KeyValDict.SetValue | src/util/KeyValDict.cpp:65-71 | an unlisted key is an error and changes nothing, otherwise just that value changes |
| KeyValDicts.EmptyValueIsInvisible | src/util/KeyValDict.cpp:35-41 | the empty value stored by the subscript cannot be seen in the print |
| Framing.SplitKeepsBytes | src/StreamParser.cpp:116-133 | messages and remainder together are the bytes, in order |
| Framing.SplitLeavesNoMark | src/StreamParser.cpp:116-133 | the remainder holds no end-of-message mark |
| Framing.SplitUnique | src/StreamParser.cpp:116-133 | the split is the only decomposition into messages with one mark, at their end, and a markless remainder |
| Framing.SplitAppend | src/StreamParser.cpp:103-114 | splitting with carry-over is splitting the concatenation |
| Framing.FeedFromFirst | src/StreamParser.cpp:77-134 | after the first chunk the result depends only on the bytes, whatever the first chunk was |
| Framing.FirstChunk | src/StreamParser.cpp:80-91 | the first chunk is its version, a line end and message text; without a line end all of it is the version and all but its first character is message text |
| Framing.ChunkIndependence | src/StreamParser.cpp:77-134 | for any chunks, version, messages and remainder are those of the whole stream iff the first chunk holds the banner's line end or nothing follows it |
| Framing.ChunkingsAgree | src/StreamParser.cpp:77-134 | two chunkings of a stream with whole banners cannot be told apart |
| Framing.SplitBannerExample | src/StreamParser.cpp:83-90 | a stream whose banner is cut is framed wrongly |
| Framing.BackOffExact | src/StreamParser.cpp:108-113 | searching from three characters before the chunk boundary finds what a search from the start finds |
| Framing.ProbesAll | src/StreamParser.cpp:105-132 | the log of a search holds every offset from the first to the last compared |
| StreamParsers.StreamParser.ProcessChunk | src/StreamParser.cpp:77-134 | after any chunk the object's version, buffer and dispatched messages are those of the specification, and no stream offset has been compared with the mark twice |
| StreamParsers.StreamParser.TakeBanner | src/StreamParser.cpp:80-91 | the version text is reported and the banner cut off, with the wrap-around when there is no line end |
| StreamParsers.StreamParser.TakeUp | src/StreamParser.cpp:94-114 | the chunk goes behind the carried-over bytes, and the search from the back-off point finds the leftmost mark |
| StreamParsers.StreamParser.DispatchMessages | src/StreamParser.cpp:116-133 | the loop dispatches every whole message of the buffer in order and keeps the rest |
| StreamParsers.StreamParser.Search | src/StreamParser.cpp:105-132 | a search compares only offsets not compared before, and logs them |
| StreamParsers.StreamParser.ProcessBatch | src/StreamParser.cpp:58-67 | a turn of the worker loop feeds all shared chunks, each once, in order |
| StreamParsers.StreamParser.FinalDrain | src/StreamParser.cpp:70-74 | the final drain feeds what is left and clears the vector |
| StreamParsers.StreamParser.AddBuf | src/StreamParser.cpp:25-30 | a chunk is appended to the shared vector |
| StreamParsers.FramingInvariant | src/StreamParser.cpp:93-133 | dispatched messages and buffer are all bytes after the banner, no mark is left in the buffer, comparisons never exceed the bytes |
| StreamParsers.ParserIsWhole | src/StreamParser.cpp:77-134 | an object whose first chunk held the banner is in the state given by the whole stream |
| Wire.FrameIsParseable | src/util/KeyValDict.cpp:75-98 | every framed message is non-empty and can be parsed |
| Wire.PrintIsFrame | src/util/KeyValDict.cpp:101-109 | a clean dictionary prints as exactly one message iff it is non-empty, no key holds an empty line and no later key begins with a line end |
| Wire.PlainKeysAreSendable | src/util/KeyValDict.cpp:101-109 | non-empty dictionaries without line ends in keys are among these |
| Wire.OneMarkKeys | src/util/KeyValDict.cpp:80-98 | in a text without an earlier mark no key read holds a mark, and no later key begins with a line end |
| Wire.ParsedIsSendable | src/util/KeyValDict.cpp:73-109 | what is parsed from a framed message is clean, and can be sent again iff it has a key |
| Wire.DeliveredAsFrames | src/StreamParser.cpp:77-134 | texts behind a banner arrive as sent with nothing left over iff each of them is one message |
| Wire.WireRoundTrip | src/StreamParser.cpp:77-134 | any dictionaries printed behind a banner and cut anywhere after it arrive as exactly those messages, each parsed back to its dictionary, iff all are clean and sendable |
| Actions.Correlation | src/action/Action.cpp:37-47 | looking up ActionID in a printed action gives its identifier, whatever its own dictionary holds |
| Actions.ActionForm | src/action/Action.cpp:37-47 | character by character: the Action line, the ActionID line with the identifier reported, the dictionary |
| Actions.ActionKeys | src/action/Action.cpp:42-47 | a printed action parses to Action, ActionID and its keys in order, with its values |
| Actions.ActionIsFrame | src/action/Action.cpp:42-47 | a clean action is one message iff no key holds an empty line or begins with a line end |
| EventLists.EventList.AddEvent | src/reaction/EventList.cpp:46-60 | a completing event becomes the tail and is reported, any other is appended; the list's events grow by that event |
| EventLists.EventList.ToString | src/reaction/EventList.cpp:62-72 | head, members and tail are printed in order |
| EventLists.SuccessByText | src/reaction/Event.cpp:13-24 | success is Response being Success or Goodbye; without a Response a single event succeeds and a list does not |
| EventLists.ListTextReframes | src/reaction/EventList.cpp:62-72 | framing the printed list gives its events' texts back one by one iff each is one message |
| EventLists.WireListRoundTrip | src/reaction/EventList.cpp:62-72 | for events that came from the wire, framing and parsing the printed list gives them all back in order |
| Dispatch.Run | src/EventDispatcher.cpp:85-187 | in every reachable state an identifier maps to its one unsettled pipe, working lists belong to pending pipes and are well formed, and so is every delivered reaction |
| Dispatch.ArrivalByText | src/EventDispatcher.cpp:95-139 | by the words of the message: when an event for a pending identifier opens a list, joins it, completes it or is delivered, with what, and that nothing else changes |
| Dispatch.UnclaimedByText | src/EventDispatcher.cpp:85-93 | an event without an ActionID, or whose ActionID nobody waits for, is left to the callback and changes nothing else |
| Dispatch.CloseByOp | src/EventDispatcher.cpp:161-187 | a failure or a null gives the pending pipe just that and drops the list; without a pending pipe no pipe changes |
| Dispatch.RouteKeeps | src/EventDispatcher.cpp:95-139 | routing keeps the invariant and delivers only well-formed reactions |
| Dispatch.ExactlyOnce | src/EventDispatcher.cpp:27-39 | over any run and continuation a pipe is pending iff unsettled, alone under its identifier, settled once for good, and settled at the latest by teardown |
| Dispatch.CloseSettlesAll | src/EventDispatcher.cpp:161-173 | after a close every pipe issued so far under the identifier is settled and its list is gone |
| Independence.ProjectStep | src/EventDispatcher.cpp:85-187 | an operation is, seen from one identifier, one step of a small automaton if it is about it and nothing otherwise |
| Independence.Independent | src/EventDispatcher.cpp:85-187 | for every run the view of an identifier is the automaton run on its own operations |
| Independence.NonInterference | src/EventDispatcher.cpp:85-187 | pipe, list, outcomes and unclaimed events of an identifier are as if only its operations had taken place |
| Independence.CollectedSoFar | src/EventDispatcher.cpp:117-138 | a list being assembled is the uninterrupted stretch of the identifier's events since its head |
| Independence.AssembledReaction | src/EventDispatcher.cpp:107-138 | a delivered reaction is well formed and is all of the identifier's events from the one that opened it to the one just routed, in order; a list reports success iff it was completed |
| Conservation.Conserved | src/EventDispatcher.cpp:85-187 | after every run each routed event is in exactly one place, and every place holds its events in arrival order |
| Conservation.HeldArrived | src/EventDispatcher.cpp:85-187 | whatever any place holds has arrived |
| EventDispatchers.EventDispatcher.RouteEvent | src/EventDispatcher.cpp:95-139 | the object takes the state machine's routing step, and reports whether somebody waited or the event is left to the callback |
| EventDispatchers.EventDispatcher.StartReaction | src/EventDispatcher.cpp:111-127 | the first event for a pipe is delivered, opens a list, or is delivered as a failed list |
| EventDispatchers.EventDispatcher.ExtendList | src/EventDispatcher.cpp:130-136 | a later event is appended, and a completed list is delivered and forgotten |
| EventDispatchers.EventDispatcher.DispatchEvent | src/EventDispatcher.cpp:85-93 | a message text is parsed and routed, or handed to the callback when it has no identifier or nobody waits |
| EventDispatchers.EventDispatcher.Notify | src/EventDispatcher.cpp:88-91 | the callback gets the event that was left to it, whoever may have registered since |
| EventDispatchers.EventDispatcher.GetEventPipe | src/EventDispatcher.cpp:148-159 | the new future is pending, or broken when the identifier is taken |
| EventDispatchers.EventDispatcher.SetExceptionOnPipe | src/EventDispatcher.cpp:161-173 | the pending pipe, if any, gets the error; the working list, if any, goes |
| EventDispatchers.EventDispatcher.SetNullOnPipe | src/EventDispatcher.cpp:175-187 | the pending pipe, if any, gets a null; the working list, if any, goes |
| EventDispatchers.EventDispatcher.ClosePipe | src/EventDispatcher.cpp:165-172 | both closes change only that identifier's pipe, promise and list |
| EventDispatchers.EventDispatcher.AppendToList | src/EventDispatcher.cpp:130-131 | the event becomes a member or the tail of its identifier's list, no other list changes |
| EventDispatchers.EventDispatcher.AddEvent | src/EventDispatcher.cpp:141-146 | a message is appended to the shared vector |
| EventDispatchers.EventDispatcher.DispatchBatch | src/EventDispatcher.cpp:65-75 | a turn of the worker loop dispatches all shared messages, each once, in order |
| EventDispatchers.EventDispatcher.FinalDrain | src/EventDispatcher.cpp:77-82 | the final drain dispatches what is left and clears the vector |
| EventDispatchers.EventDispatcher.CleanupObject | src/EventDispatcher.cpp:27-39 | whatever the order of the loop, every pending pipe is settled with a null, settled ones stay, none is left |
| WorkQueues.DoubleBuffer | src/StreamParser.cpp:51-75 | under any interleaving nothing is lost, repeated or reordered, and a finished worker has processed all that was added before its final drain |
| WorkQueues.RestsOnlyWhenIdle | src/EventDispatcher.cpp:60-83 | the worker cannot act iff it has finished or waits in a running system with nothing to do; items can be added except during the final drain, stop can always be called |
| WorkQueues.CatchesUp | src/EventDispatcher.cpp:60-75 | while it has not been stopped the worker by itself can get everything done that was added |
| Pipeline.Reachable | src/Connection.cpp:15-47 | every reachable state of the three actors satisfies the invariants of both queues, parser and dispatcher |
| Pipeline.ReadyIsTaken | src/Connection.cpp:15-47 | in a reachable state a step that is ready can be taken: the dispatcher's operations are always defined |
| Pipeline.InStreamOrder | src/Connection.cpp:15-38 | at every moment the routed messages are an initial part of the framed stream and the dispatcher is in the state of a sequential run on them |
| Pipeline.StaysOpen | src/Connection.cpp:15-38 | chunks can be handed over until the reader is joined, client operations performed until the end |
| Pipeline.CatchesUp | src/Connection.cpp:15-38 | from every reachable state before teardown the workers can go on until every complete message read is routed and every unclaimed event handed over |
| Pipeline.Shutdown | src/Connection.cpp:40-47 | when teardown is over every complete message has been routed exactly once in stream order, only the trailing partial one is left, every future is settled, and the callback has been called with every unclaimed event |
| Pipeline.EndToEnd | src/Connection.cpp:15-47 | sendable dictionaries printed behind a banner are, after teardown, routed as exactly those dictionaries |
| Pipeline.NothingLost | src/Connection.cpp:15-38 | at every moment each framed message is in one of the queues or routed, and each routed event in exactly one place |
| Pipeline.TeardownPossible | src/Connection.cpp:40-47 | from every reachable state the actors can complete teardown without further input |
| Pipeline.DeliveredListRoundTrip | src/reaction/EventList.cpp:62-72 | every list handed to a caller prints as text from which framing and parsing recover its events |
| Invocation.PossibleIsTaken | src/Connection.cpp:81-111 | in a reachable state a step that is possible can be taken |
| Invocation.Reachable | src/Connection.cpp:81-111 | in every reachable state a call's pipe is its own, ready calls are settled, and returned calls returned what their pipe holds |
| Invocation.GetNeverBlocks | src/Connection.cpp:105-110 | once the wait is over, by result or by closing on timeout, get does not block |
| Callers.SettledReturns | src/Connection.cpp:81-111 | from every reachable state a settled call returns, by its own next steps, exactly what its pipe holds |
| Callers.UnsettledTimesOut | src/Connection.cpp:92-111 | a call that is not settled cannot return, except that with a time limit it can give up, close its pipe and return the timeout error with its text |
| Callers.WrittenIff | src/Connection.cpp:76-87 | an identifier is on the wire iff a call or an action without waiting has written it |
| Callers.OpenWorld | src/Connection.cpp:76-111 | calls can begin and actions be written at any time; the server may answer exactly what was written; what it sent can be delivered |
| Invocation.AbortSettlesAll | src/Connection.cpp:105-107 | closing on timeout settles every pipe issued so far under the identifier |
| Invocation.FirstSettlementWins | src/Connection.cpp:105-110 | whichever of reply and timeout comes first decides, over any continuation |
| Callers.BeginOutcome | src/EventDispatcher.cpp:148-159 | a new call is broken at once iff another call is pending under its identifier |
| Callers.Outcomes | src/Connection.cpp:81-111 | whatever identifiers are in use: a call is broken iff its identifier was taken, has a timeout error iff some timeout under its identifier found it pending, and otherwise is pending or has a reaction |
| Callers.Guarantee | src/Connection.cpp:92-111 | a registering call is assured, over all continuations, of a reaction or its own elapsed limit's error iff no call with its identifier is pending or has given up waiting without having closed the pipe |
| Callers.SettledFairly | src/Connection.cpp:92-111 | seen from the end of a run: a settled call got its due iff its identifier was free and no timeout cut it short |
| Callers.UniqueIsFair | src/Connection.cpp:81-111 | with unique identifiers none is taken and no call is cut short |
| Callers.TakenExample | src/EventDispatcher.cpp:148-159 | a run in which the second of two calls sharing an identifier returns a broken promise |
| Callers.CutShortExample | src/Connection.cpp:105-107 | a run in which a call without a time limit returns another call's timeout error |
| Callers.DispatcherIsRun | src/Connection.cpp:81-111 | the dispatcher under racing callers is the state machine's run on their operations and the arrivals, and arrivals and events on their way are what the server sent |
| Callers.CollectStep | src/EventDispatcher.cpp:107-138 | a pending call collects each event delivered under its identifier, and a reaction holds all it collected |
| Callers.PendingCollects | src/EventDispatcher.cpp:107-138 | while a call is pending its working list is everything delivered under its identifier since it registered |
| Callers.Reacted | src/Connection.cpp:81-111 | whatever identifiers are in use, a reaction is exactly the events delivered under the identifier from the call's registration to its settlement, none of which was left to the callback |
| Callers.NothingBypasses | src/EventDispatcher.cpp:95-104 | whatever identifiers are in use, routing leaves no event of a call to the callback between its registration and its settlement |
| Callers.OneStraggler | src/EventDispatcher.cpp:85-93 | the callback gets at most one event of a pending call, the one already left to it when the call registered |
| Callers.Bypass | src/EventDispatcher.cpp:85-93 | over all continuations the callback gets no event of a call while it is pending iff the identifier was taken or no such event was outstanding at registration |
| Callers.RegisterBeforeWrite | src/Connection.cpp:81-90 | with unique identifiers no event of an unsettled call has ever been left or handed to the callback |
| Callers.LateEvents | src/EventDispatcher.cpp:95-104 | the next event of an identifier is left to the callback and changes nothing else iff every call with it is settled |
| Callers.CallAccount | src/Connection.cpp:81-111 | with unique identifiers, what the server sent under an identifier is the call's own events, then those left to the callback, then those on their way |
| Callers.OverActors | src/Connection.cpp:15-38 | callers and actors that perform the same dispatcher operations see the same dispatcher, and what is delivered to the callers is the parsed leading messages of the framed bytes |
| Callers.TimeoutRace | src/Connection.cpp:92-111 | with unique identifiers a caller gets a whole reaction, all of its identifier's events up to its last one, or its own timeout error after its wait expired, nothing else |
| Connections.CalledWhileRegistered | src/Connection.cpp:54-74 | a callback has been called with exactly the notifications since it was added, in order |
| Connections.RegisteredIffAdded | src/Connection.cpp:62-74 | a callback is registered iff it was added and not removed since |
| Connections.Connection.DispatchHandler | src/Connection.cpp:54-60 | whatever the order of the loop, every registered callback is called once with the event |
| Connections.Connection.AddCallback | src/Connection.cpp:62-68 | a new key is registered, a present one keeps its callback |
| Connections.Connection.RemoveCallback | src/Connection.cpp:70-74 | exactly that key is unregistered |

## Left out

- Sockets, polling and partial sends (src/net): a source of arbitrary chunks and an abstract written step stand for them.
- Identifier generation (src/action/Action.cpp:20-30): identifiers are given; freshness is assumed only where stated.
- The concrete actions (src/action/Login.cpp and its like): constant key lists, instances of `Actions.Action`.
- Thread creation, the memory model and wake-ups: steps are atomic because of the locks; a wake-up can be missed at stop
  (src/EventDispatcher.cpp:53-54), so no claim is made that a worker always finishes.
- The worker loops as one method: the classes have one method per turn and per drain; the interleaving with producers
  and stop is in `WorkQueues` and `Pipeline`.
- Promise and future objects: a pipe is an index into a table of shared states, so aliasing of futures is not modelled.
- The reference returned by the non-const subscript: `AtForUpdate` returns the value, and assigning through the reference is `SetValue`.
- `EventList` copies (src/reaction/EventList.cpp:10-33): not used by the pipeline.
- Teardown and set_null_on_pipe while a call is waiting: the race in `Invocation` is that of a live connection.
- Callbacks that throw or call back into the connection, and destruction of working lists that are still open at teardown.
- Integer widths other than the wrap-around at the banner: string lengths are unbounded.
