/** The framer object: accumulates chunks in place and rescans only the boundary. */
module StreamParsers {
  import opened Text
  import opened Framing

  class StreamParser {
    var firstEvent: bool
    var eventBuf: string
    var streamChunks: seq<string>
    var version: Option<string>    // last call of the version callback
    var dispatched: seq<Frame>     // calls of the message callback, in order

    ghost var fed: seq<string>     // chunks processed so far
    ghost var base: nat            // bytes dispatched, all of them no longer in eventBuf
    ghost var probes: seq<nat>     // stream offsets, after the banner, compared with the end-of-message mark

    ghost function State(): Parser
      reads this
    {
      Parser(firstEvent, eventBuf, version)
    }

    /** The bytes of the stream that this parser has taken over as message text. */
    ghost function Stream(): string
      reads this
    {
      Concat(dispatched) + eventBuf
    }

    ghost predicate Valid()
      reads this
    {
      && FeedAll(START, fed) == Fed(State(), dispatched)
      && Clean(EOM, eventBuf)
      && base == |Concat(dispatched)|
      && Increasing(probes) && Within(probes, 0, base + ScanStart(|eventBuf|))
    }

    constructor ()
      ensures Valid() && fed == [] && streamChunks == []
    {
      firstEvent, eventBuf, streamChunks := true, "", [];
      version, dispatched := None, [];
      fed, base, probes := [], 0, [];
    }

    method AddBuf(buf: string)
      requires Valid()
      modifies this`streamChunks
      ensures Valid() && streamChunks == old(streamChunks) + [buf]
    {
      streamChunks := streamChunks + [buf];
    }

    /** One turn of the worker loop: swap the shared vector out, then process every chunk of it. */
    method ProcessBatch()
      requires Valid()
      modifies this
      ensures Valid() && fed == old(fed) + old(streamChunks) && streamChunks == []
    {
      var batch := streamChunks;
      streamChunks := [];
      TakeAll(fed, batch);
      for i := 0 to |batch|
        invariant streamChunks == []
        invariant Valid() && fed == old(fed) + batch[..i]
      {
        ProcessChunk(batch[i]);
        TakeNext(old(fed), batch, i);
      }
    }

    /** After the loop: process what is still in the shared vector, which is cleared only at the end. */
    method FinalDrain()
      requires Valid()
      modifies this
      ensures Valid() && fed == old(fed) + old(streamChunks) && streamChunks == []
    {
      ghost var rest := streamChunks;
      TakeAll(fed, rest);
      for i := 0 to |streamChunks|
        invariant streamChunks == rest
        invariant Valid() && fed == old(fed) + rest[..i]
      {
        ProcessChunk(streamChunks[i]);
        TakeNext(old(fed), rest, i);
      }
      streamChunks := [];
    }

    /**
     * Framing one chunk. Whatever the chunk boundaries were, the object's state and everything it has
     * dispatched are those of the specification after the same chunks (Valid), and over the whole run no
     * stream offset has been compared with the end-of-message mark twice.
     */
    method ProcessChunk(chunk: string)
      requires Valid()
      modifies this`firstEvent, this`eventBuf, this`version, this`dispatched, this`fed, this`base, this`probes
      ensures Valid() && fed == old(fed) + [chunk]
      ensures !firstEvent && old(dispatched) <= dispatched
    {
      hide Find, Split, FeedAll, Concat, ScanEnd, Draining, AfterBanner, BannerText;
      ghost var goal := Goal(State(), dispatched, fed, chunk);
      fed := fed + [chunk];

      var streamChunk, done := chunk, false;
      if firstEvent {
        streamChunk, done := TakeBanner(chunk);
        EmptyUnit(eventBuf, streamChunk);
      }
      if done {
        DrainedEmpty(dispatched);
        return;
      }
      var eomLoc := TakeUp(streamChunk, goal);
      DispatchMessages(eomLoc, goal);
    }

    /** The first chunk opens with the version line; done means that it holds nothing else. */
    method TakeBanner(chunk: string) returns (rest: string, done: bool)
      modifies this`firstEvent, this`version
      ensures !firstEvent && version == Some(BannerText(chunk))
      ensures rest == AfterBanner(chunk) && (done ==> rest == "")
    {
      hide Find;
      firstEvent := false;
      var eorLoc := Find(EOR, chunk, 0);
      version := Some(if eorLoc == NPOS then chunk else chunk[..eorLoc]);
      var cut := BannerLength(eorLoc);
      done := |chunk| == cut;
      rest := if cut <= |chunk| then chunk[cut..] else "";
    }

    /** Puts the chunk behind what was carried over, and searches from the back-off point. */
    method TakeUp(streamChunk: string, ghost goal: Frames) returns (eomLoc: int)
      requires Clean(EOM, eventBuf)
      requires goal == Frames(dispatched + Split(eventBuf + streamChunk).msgs, Split(eventBuf + streamChunk).rest)
      requires base == |Concat(dispatched)|
      requires Increasing(probes) && Within(probes, 0, base + ScanStart(|eventBuf|))
      modifies this`eventBuf, this`probes
      ensures eventBuf == old(eventBuf) + streamChunk && eomLoc == Find(EOM, eventBuf, 0)
      ensures probes == old(probes) + Shifted(Probes(EOM, eventBuf, ScanStart(|old(eventBuf)|)), base)
      ensures Draining(eventBuf, dispatched, goal, probes, base, ScanEnd(eventBuf))
    {
      hide Find, Split, Concat;
      if eventBuf == "" {
        EmptyUnit(eventBuf, streamChunk);
        eventBuf := streamChunk;
        eomLoc := Search(0);
      } else {
        var scanPosStart := if |eventBuf| < 4 then 0 else |eventBuf| - 4 + 1;
        BackOffExact(eventBuf, streamChunk);
        eventBuf := eventBuf + streamChunk;
        eomLoc := Search(scanPosStart);
      }
    }

    /** A search of the buffer from offset i, which logs the offsets it compares. */
    method Search(i: nat) returns (loc: int)
      requires Increasing(probes) && Within(probes, 0, base + i)
      requires Find(EOM, eventBuf, i) == Find(EOM, eventBuf, 0) && i <= ScanStart(|eventBuf|)
      modifies this`probes
      ensures loc == Find(EOM, eventBuf, i)
      ensures probes == old(probes) + Shifted(Probes(EOM, eventBuf, i), base)
      ensures Increasing(probes) && Within(probes, 0, base + ScanEnd(eventBuf))
    {
      loc := Find(EOM, eventBuf, i);
      ProbesRange(EOM, eventBuf, i);
      probes := probes + Shifted(Probes(EOM, eventBuf, i), base);
    }

    /** The loop of ProcessChunk: dispatch every whole message in the buffer, the first of which ends at found + 4. */
    method DispatchMessages(found: int, ghost goal: Frames)
      requires found == Find(EOM, eventBuf, 0)
      requires Draining(eventBuf, dispatched, goal, probes, base, ScanEnd(eventBuf))
      modifies this`eventBuf, this`dispatched, this`base, this`probes
      ensures goal == Frames(dispatched, eventBuf) && Clean(EOM, eventBuf)
      ensures base == |Concat(dispatched)|
      ensures Increasing(probes) && Within(probes, 0, base + ScanStart(|eventBuf|))
      ensures old(dispatched) <= dispatched
    {
      hide Find, Split, Concat;
      var eomLoc := found;
      while eomLoc != NPOS
        invariant old(dispatched) <= dispatched
        invariant eomLoc == Find(EOM, eventBuf, 0)
        invariant Draining(eventBuf, dispatched, goal, probes, base, ScanEnd(eventBuf))
        decreases |eventBuf|
      {
        eomLoc := eomLoc + 4;
        ghost var m, rest := DispatchStep(eventBuf, dispatched, goal, probes, base);
        base := base + |m|;
        if eomLoc == |eventBuf| {
          assert m == eventBuf && rest == "";
          dispatched := dispatched + [eventBuf];
          eventBuf := "";
          DrainedEmpty(dispatched);
          break;
        }
        dispatched := dispatched + [eventBuf[..eomLoc]];
        eventBuf := eventBuf[eomLoc..];

        eomLoc := Search(0);
      }
      DrainingEnds(eventBuf, dispatched, goal, probes, base);
    }
  }

  /** What the message log and the buffer must be after one more chunk. */
  ghost function Goal(p: Parser, out: seq<Frame>, fed: seq<string>, chunk: string): (goal: Frames)
    requires FeedAll(START, fed) == Fed(p, out)
    ensures var total := if p.first then AfterBanner(chunk) else p.buf + chunk;
            goal == Frames(out + Split(total).msgs, Split(total).rest)
    ensures p.first ==> p.buf == ""
    ensures FeedAll(START, fed + [chunk]) ==
            Fed(Parser(false, goal.rest, if p.first then Some(BannerText(chunk)) else p.version), goal.msgs)
  {
    FeedSnoc(START, fed, chunk);
    var total := if p.first then AfterBanner(chunk) else p.buf + chunk;
    Frames(out + Split(total).msgs, Split(total).rest)
  }

  /** Offsets below this one, relative to the buffer, have been compared once the search has returned. */
  function ScanEnd(buf: string): nat {
    var e := Find(EOM, buf, 0);
    if e != NPOS then e + 1 else ScanStart(|buf|)
  }

  /** The goal is what was dispatched already and the split of the buffer; probes stop at scanned. */
  ghost predicate Draining(buf: string, out: seq<Frame>, goal: Frames, probes: seq<nat>, base: nat, scanned: nat) {
    && goal == Frames(out + Split(buf).msgs, Split(buf).rest)
    && base == |Concat(out)|
    && Increasing(probes) && Within(probes, 0, base + scanned)
  }

  /** Taking one message off the front of the buffer. */
  lemma {:induction false} DispatchStep(buf: string, out: seq<Frame>, goal: Frames, probes: seq<nat>, base: nat)
      returns (m: Frame, rest: string)
    requires Find(EOM, buf, 0) != NPOS
    requires Draining(buf, out, goal, probes, base, ScanEnd(buf))
    ensures m == buf[..Find(EOM, buf, 0) + 4] && rest == buf[Find(EOM, buf, 0) + 4..]
    ensures Draining(rest, out + [m], goal, probes, base + |m|, 0)
  {
    m, rest := SplitHead(buf);
    Assoc(out, [m], Split(rest).msgs);
    ConcatSnoc(out, m);
  }

  lemma {:induction false} DrainingEnds(buf: string, out: seq<Frame>, goal: Frames, probes: seq<nat>, base: nat)
    requires Draining(buf, out, goal, probes, base, ScanStart(|buf|)) && Clean(EOM, buf)
    ensures goal == Frames(out, buf)
  {
    EmptyUnit([], out);
  }

  lemma {:induction false} DrainedEmpty(out: seq<Frame>)
    ensures Clean(EOM, "") && Frames(out + Split("").msgs, Split("").rest) == Frames(out, "")
  {
    EmptyUnit([], out);
  }

  /** What Valid says of a parser, in terms of the bytes it was given: nothing lost, no mark left, linear work. */
  lemma {:induction false} FramingInvariant(p: StreamParser)
    requires p.Valid()
    ensures p.fed != [] ==> p.Stream() == AfterBanner(p.fed[0]) + Concat(p.fed[1..])
    ensures Clean(EOM, p.eventBuf)
    ensures |p.probes| <= |p.Stream()|
  {
    if p.fed != [] {
      FeedFromFirst(p.fed);
      SplitKeepsBytes(AfterBanner(p.fed[0]) + Concat(p.fed[1..]));
    }
    IncreasingBound(p.probes, |p.Stream()|);
  }

  /** A parser's observable history depends on its bytes only, provided the banner arrived whole. */
  lemma {:induction false} ParserIsWhole(p: StreamParser)
    requires p.Valid() && p.fed != [] && !Clean(EOR, p.fed[0])
    ensures Fed(p.State(), p.dispatched) == Whole(Concat(p.fed))
  {
    BannerInPrefix(p.fed[0], Concat(p.fed[1..]));
    ChunkIndependence(p.fed);
  }
}
