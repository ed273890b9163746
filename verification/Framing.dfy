/** The byte stream: a banner line, then messages that each end at the leftmost empty line. */
module Framing {
  import opened Text

  /** A message as the framer emits it: its only end-of-message mark is its last four characters. */
  predicate IsFrame(s: string) {
    Find(EOM, s, 0) != NPOS && Find(EOM, s, 0) + 4 == |s|
  }

  type Frame = s: string | IsFrame(s) witness Chars(EOM)

  datatype Frames = Frames(msgs: seq<Frame>, rest: string)

  /** Cut at the leftmost end-of-message mark, again and again; what follows the last mark is left over. */
  function Split(s: string): Frames
    decreases |s|
  {
    var e := Find(EOM, s, 0);
    if e == NPOS then Frames([], s)
    else
      FrameOfPrefix(s);
      var t := Split(s[e + 4..]);
      Frames([s[..e + 4]] + t.msgs, t.rest)
  }

  lemma {:induction false} FrameOfPrefix(s: string)
    requires Find(EOM, s, 0) != NPOS
    ensures IsFrame(s[..Find(EOM, s, 0) + 4])
  {
    var e := Find(EOM, s, 0);
    var m := s[..e + 4];
    assert m + s[e + 4..] == s;
    forall j: nat | j < e ensures !At(EOM, m, j) {
      AtPrefix(EOM, m, s[e + 4..], j);
    }
    AtPrefix(EOM, m, s[e + 4..], e);
    FindIs(EOM, m, 0, e);
  }

  /** Nothing is lost, added or reordered. */
  lemma {:induction false} SplitKeepsBytes(s: string)
    ensures Concat(Split(s).msgs) + Split(s).rest == s
    decreases |s|
  {
    hide Find;
    if Find(EOM, s, 0) == NPOS {
      EmptyUnit(Concat([]), s);
    } else {
      var m, t := SplitHead(s);
      hide Split;
      SplitKeepsBytes(t);
      assert Split(s).msgs[1..] == Split(t).msgs;
      Assoc(m, Concat(Split(t).msgs), Split(t).rest);
    }
  }

  /** No whole message is left behind. */
  lemma {:induction false} SplitLeavesNoMark(s: string)
    ensures Clean(EOM, Split(s).rest)
    decreases |s|
  {
    hide Find;
    if Find(EOM, s, 0) != NPOS {
      SplitLeavesNoMark(s[Find(EOM, s, 0) + 4..]);
    }
  }

  /** One step of the split. */
  lemma {:induction false} SplitHead(s: string) returns (m: Frame, t: string)
    requires Find(EOM, s, 0) != NPOS
    ensures m == s[..Find(EOM, s, 0) + 4] && t == s[Find(EOM, s, 0) + 4..] && m + t == s
    ensures Split(s) == Frames([m] + Split(t).msgs, Split(t).rest)
  {
    FrameOfPrefix(s);
    m, t := s[..Find(EOM, s, 0) + 4], s[Find(EOM, s, 0) + 4..];
  }

  lemma {:induction false} FirstFrame(m: Frame, t: string)
    ensures Find(EOM, m + t, 0) == |m| - 4
  {
    forall j: nat | j < |m| - 4 ensures !At(EOM, m + t, j) {
      AtPrefix(EOM, m, t, j);
    }
    AtPrefix(EOM, m, t, |m| - 4);
    FindIs(EOM, m + t, 0, |m| - 4);
  }

  lemma {:induction false} SplitStep(m: Frame, t: string)
    ensures Split(m + t) == Frames([m] + Split(t).msgs, Split(t).rest)
  {
    FirstFrame(m, t);
    assert (m + t)[..|m|] == m;
    assert (m + t)[|m|..] == t;
  }

  /** Any way of writing a stream as messages is found again by splitting, whatever follows. */
  lemma {:induction false} SplitFrames(ms: seq<Frame>, t: string, f: Frames)
    requires f == Split(t)
    ensures Split(Concat(ms) + t) == Frames(ms + f.msgs, f.rest)
  {
    if |ms| == 0 {
      EmptyUnit(Concat(ms), t);
      EmptyUnit(ms, f.msgs);
    } else {
      var u := Concat(ms[1..]) + t;
      SplitFrames(ms[1..], t, f);
      SplitStep(ms[0], u);
      Assoc(ms[0], Concat(ms[1..]), t);
      HeadTail(ms, f.msgs);
    }
  }

  /** The split is the only decomposition into messages with one mark each and a markless remainder. */
  lemma {:induction false} SplitUnique(s: string, f: Frames)
    ensures Split(s) == f <==> Concat(f.msgs) + f.rest == s && Clean(EOM, f.rest)
  {
    SplitKeepsBytes(s);
    SplitLeavesNoMark(s);
    if Clean(EOM, f.rest) {
      SplitFrames(f.msgs, f.rest, Split(f.rest));
      EmptyUnit([], f.msgs);
    }
  }

  /** Splitting piecewise with carry-over is splitting the whole. */
  lemma {:induction false} SplitAppend(a: string, b: string, f: Frames, g: Frames)
    requires f == Split(a) && g == Split(f.rest + b)
    ensures Split(a + b) == Frames(f.msgs + g.msgs, g.rest)
  {
    SplitKeepsBytes(a);
    SplitCarry(a, b, f, g);
  }

  lemma {:induction false} SplitCarry(a: string, b: string, f: Frames, g: Frames)
    requires Concat(f.msgs) + f.rest == a && g == Split(f.rest + b)
    ensures Split(a + b) == Frames(f.msgs + g.msgs, g.rest)
  {
    SplitFrames(f.msgs, f.rest + b, g);
    Assoc(Concat(f.msgs), f.rest, b);
  }

  // ---------- the incremental parser, one chunk at a time ----------

  /** The framer's own state between chunks. */
  datatype Parser = Parser(first: bool, buf: string, version: Option<string>)

  datatype Fed = Fed(parser: Parser, msgs: seq<Frame>)

  const START := Parser(true, "", None)

  /**
   * How many characters of the first chunk the banner takes, given the offset of its line end. When there is
   * no line end the offset is the largest unsigned value, and adding two to it wraps round to one.
   */
  function BannerLength(eor: int): nat
    requires eor >= NPOS
  {
    if eor == NPOS then 1 else eor + 2
  }

  /** The version text: substr(0, npos) is the whole chunk. */
  function BannerText(chunk: string): string {
    var e := Find(EOR, chunk, 0);
    if e == NPOS then chunk else chunk[..e]
  }

  /** The first chunk without its banner; erasing past the end erases up to the end. */
  function AfterBanner(chunk: string): string {
    var n := BannerLength(Find(EOR, chunk, 0));
    if n <= |chunk| then chunk[n..] else ""
  }

  /**
   * What becomes of the first chunk, by its characters: it is cut behind the leftmost line end, and what precedes that
   * is the version; without one, all of it is the version, and yet all but its first character is kept as message text.
   */
  lemma {:induction false} FirstChunk(chunk: string)
    ensures Feed(START, chunk).parser.version == Some(BannerText(chunk))
    ensures Concat(Feed(START, chunk).msgs) + Feed(START, chunk).parser.buf == AfterBanner(chunk)
    ensures !Clean(EOR, chunk) ==>
              Clean(EOR, BannerText(chunk)) && chunk == BannerText(chunk) + "\r\n" + AfterBanner(chunk)
    ensures Clean(EOR, chunk) ==>
              BannerText(chunk) == chunk && AfterBanner(chunk) == if chunk == "" then "" else chunk[1..]
  {
    SplitKeepsBytes(AfterBanner(chunk));
    hide Find, Split;
    if !Clean(EOR, chunk) {
      var e := Find(EOR, chunk, 0);
      CutAtLineEnd(chunk, e);
      PrefixClean(EOR, chunk, e);
    }
  }

  lemma {:induction false} CutAtLineEnd(chunk: string, e: nat)
    requires At(EOR, chunk, e)
    ensures chunk == chunk[..e] + "\r\n" + chunk[e + 2..]
  {
  }

  lemma {:induction false} PrefixClean(d: Delim, s: string, e: nat)
    requires e <= |s| && forall j :: 0 <= j < e ==> !At(d, s, j)
    ensures Clean(d, s[..e])
  {
    forall j: nat ensures !At(d, s[..e], j) {
      assert At(d, s[..e], j) ==> At(d, s, j);
    }
  }

  function Feed(p: Parser, chunk: string): Fed {
    var f := Split(if p.first then AfterBanner(chunk) else p.buf + chunk);
    Fed(Parser(false, f.rest, if p.first then Some(BannerText(chunk)) else p.version), f.msgs)
  }

  /** Feeding chunk after chunk. */
  function FeedAll(p: Parser, chunks: seq<string>): Fed {
    if |chunks| == 0 then Fed(p, [])
    else
      var f := FeedAll(p, chunks[..|chunks| - 1]);
      var g := Feed(f.parser, chunks[|chunks| - 1]);
      Fed(g.parser, f.msgs + g.msgs)
  }

  /** What a stream means, without reference to chunks. */
  function Whole(stream: string): Fed {
    var f := Split(AfterBanner(stream));
    Fed(Parser(false, f.rest, Some(BannerText(stream))), f.msgs)
  }

  lemma {:induction false} FeedSnoc(p: Parser, chunks: seq<string>, c: string)
    ensures var f := FeedAll(p, chunks);
            var g := Feed(f.parser, c);
            FeedAll(p, chunks + [c]) == Fed(g.parser, f.msgs + g.msgs)
  {
    assert (chunks + [c])[..|chunks|] == chunks;
  }

  /** More chunks only add messages. */
  lemma {:induction false} FeedAllGrows(p: Parser, xs: seq<string>, ys: seq<string>)
    ensures FeedAll(p, xs).msgs <= FeedAll(p, xs + ys).msgs
  {
    hide Feed, FeedAll;
    if |ys| == 0 {
      EmptyUnit(ys, xs);
    } else {
      var n := |ys| - 1;
      FeedAllGrows(p, xs, ys[..n]);
      FeedSnoc(p, xs + ys[..n], ys[n]);
      TakeNext(xs, ys, n);
      TakeAll(xs, ys);
    }
  }

  /** After the first chunk, chunking no longer matters. */
  lemma {:induction false} FeedFromFirst(chunks: seq<string>)
    requires |chunks| > 0
    ensures var f := Split(AfterBanner(chunks[0]) + Concat(chunks[1..]));
            FeedAll(START, chunks) == Fed(Parser(false, f.rest, Some(BannerText(chunks[0]))), f.msgs)
  {
    var n := |chunks| - 1;
    var c, init, last := chunks[0], chunks[..n], chunks[n];
    assert chunks == init + [last];
    FeedSnoc(START, init, last);
    if n == 0 {
      assert FeedAll(START, init) == Fed(START, []);
      EmptyUnit(Concat(chunks[1..]), AfterBanner(c));
      var g := Feed(START, c);
      EmptyUnit([], g.msgs);
    } else {
      FeedFromFirst(init);
      var sofar := AfterBanner(c) + Concat(init[1..]);
      var f := Split(sofar);
      SplitAppend(sofar, last, f, Split(f.rest + last));
      assert chunks[1..] == init[1..] + [last];
      ConcatSnoc(init[1..], last);
      Assoc(AfterBanner(c), Concat(init[1..]), last);
    }
  }

  lemma {:induction false} BannerInPrefix(a: string, b: string)
    requires !Clean(EOR, a)
    ensures AfterBanner(a + b) == AfterBanner(a) + b && BannerText(a + b) == BannerText(a)
  {
    var e := Find(EOR, a, 0);
    forall j: nat | j < e ensures !At(EOR, a + b, j) {
      AtPrefix(EOR, a, b, j);
    }
    AtPrefix(EOR, a, b, e);
    FindIs(EOR, a + b, 0, e);
    assert (a + b)[e + 2..] == a[e + 2..] + b;
    assert (a + b)[..e] == a[..e];
  }

  /** How many characters a run of the framer still accounts for. */
  function Kept(f: Fed): nat {
    |Concat(f.msgs)| + |f.parser.buf|
  }

  /**
   * Chunk independence, and exactly when it holds: feeding a stream in chunks gives the version, the messages and
   * the remainder of the whole stream iff the first chunk already contains the banner's line end, or there are
   * no bytes after it.
   */
  lemma {:induction false} ChunkIndependence(chunks: seq<string>)
    requires |chunks| > 0
    ensures FeedAll(START, chunks) == Whole(Concat(chunks)) <==>
            !Clean(EOR, chunks[0]) || Concat(chunks[1..]) == ""
  {
    var c, t := chunks[0], Concat(chunks[1..]);
    var s := c + t;
    assert Concat(chunks) == s;
    FeedFromFirst(chunks);
    if !Clean(EOR, c) {
      BannerInPrefix(c, t);
    } else if t == "" {
      EmptyUnit(t, c);
      EmptyUnit(t, AfterBanner(c));
    } else if Clean(EOR, s) {
      assert FeedAll(START, chunks).parser.version == Some(c) && Whole(s).parser.version == Some(s);
      assert |c| < |s|;
    } else {
      LateLineEnd(chunks, c, t);
    }
  }

  /** A line end after the first chunk: the whole stream loses more characters to its banner. */
  lemma {:induction false} LateLineEnd(chunks: seq<string>, c: string, t: string)
    requires |chunks| > 0 && c == chunks[0] && t == Concat(chunks[1..])
    requires Clean(EOR, c) && !Clean(EOR, c + t)
    ensures FeedAll(START, chunks) != Whole(c + t)
  {
    hide FeedAll, Split;
    FeedFromFirst(chunks);
    SplitKeepsBytes(AfterBanner(c) + t);
    SplitKeepsBytes(AfterBanner(c + t));
    assert Kept(FeedAll(START, chunks)) == |AfterBanner(c) + t|;
    assert Kept(Whole(c + t)) == |AfterBanner(c + t)| == |c + t| - Find(EOR, c + t, 0) - 2;
  }

  /** Two chunkings of one stream cannot be told apart if both leave the banner line in the first chunk. */
  lemma {:induction false} ChunkingsAgree(xs: seq<string>, ys: seq<string>)
    requires |xs| > 0 && |ys| > 0 && Concat(xs) == Concat(ys)
    requires !Clean(EOR, xs[0]) && !Clean(EOR, ys[0])
    ensures FeedAll(START, xs) == FeedAll(START, ys)
  {
    BannerInPrefix(xs[0], Concat(xs[1..]));
    ChunkIndependence(xs);
    ChunkIndependence(ys);
  }

  /** A stream whose banner is cut before its line end is framed wrongly. */
  lemma {:induction false} SplitBannerExample()
    ensures var chunks := ["Asterisk", "/5\r\nE: x\r\n\r\n"];
            FeedAll(START, chunks) != Whole(Concat(chunks))
  {
    var chunks := ["Asterisk", "/5\r\nE: x\r\n\r\n"];
    var s := "Asterisk/5\r\nE: x\r\n\r\n";
    assert chunks[1..] == ["/5\r\nE: x\r\n\r\n"];
    assert Concat(chunks[1..]) == chunks[1] + Concat([]);
    assert Concat(chunks) == s;
    assert At(EOR, s, 10);
    assert Concat(chunks[1..])[0] == '/';
    forall j: nat ensures !At(EOR, "Asterisk", j) {
    }
    ChunkIndependence(chunks);
  }

  // ---------- the back-off scan ----------

  /** The offsets at which a left-to-right search actually compares the delimiter. */
  function Probes(d: Delim, s: string, i: nat): seq<nat>
    decreases |s| - i
  {
    if i + Len(d) > |s| then []
    else if At(d, s, i) then [i]
    else [i] + Probes(d, s, i + 1)
  }

  /** Where a carried-over buffer of this length is rescanned from. */
  function ScanStart(len: nat): nat {
    if len < 4 then 0 else len - 3
  }

  /** A mark that straddles the chunk boundary starts no earlier than the back-off point. */
  lemma {:induction false} BackOffExact(buf: string, chunk: string)
    requires Clean(EOM, buf)
    ensures Find(EOM, buf + chunk, ScanStart(|buf|)) == Find(EOM, buf + chunk, 0)
  {
    var s := buf + chunk;
    var from := ScanStart(|buf|);
    forall j: nat | j < from ensures !At(EOM, s, j) {
      AtPrefix(EOM, buf, chunk, j);
    }
    var f := Find(EOM, s, 0);
    if f != NPOS {
      FindIs(EOM, s, from, f);
    }
  }

  ghost predicate Increasing(xs: seq<nat>) {
    forall i, j :: 0 <= i < j < |xs| ==> xs[i] < xs[j]
  }

  ghost predicate Within(xs: seq<nat>, lo: int, hi: int) {
    forall i :: 0 <= i < |xs| ==> lo <= xs[i] < hi
  }

  function Shifted(xs: seq<nat>, offset: nat): seq<nat> {
    seq(|xs|, i requires 0 <= i < |xs| => xs[i] + offset)
  }

  /** One past the last offset that a search from offset i compares. */
  function SearchEnd(d: Delim, s: string, i: nat): nat {
    var found := Find(d, s, i);
    if found != NPOS then found + 1 else if |s| < i + Len(d) then i else |s| - Len(d) + 1
  }

  /** Every offset from the first to the last one compared is in the log: none is skipped and none is left out. */
  lemma {:induction false} ProbesAll(d: Delim, s: string, i: nat)
    ensures i <= SearchEnd(d, s, i) && Probes(d, s, i) == Offsets(i, SearchEnd(d, s, i))
    decreases |s| - i
  {
    if i + Len(d) <= |s| && !At(d, s, i) {
      ProbesAll(d, s, i + 1);
      assert Find(d, s, i) == Find(d, s, i + 1);
      OffsetsCons(i, SearchEnd(d, s, i + 1));
    }
  }

  function Offsets(lo: nat, hi: nat): seq<nat>
    requires lo <= hi
  {
    seq(hi - lo, k requires 0 <= k < hi - lo => lo + k)
  }

  lemma {:induction false} OffsetsCons(lo: nat, hi: nat)
    requires lo < hi
    ensures Offsets(lo, hi) == [lo] + Offsets(lo + 1, hi)
  {
  }

  lemma {:induction false} ProbesRange(d: Delim, s: string, i: nat)
    ensures Increasing(Probes(d, s, i))
    ensures Within(Probes(d, s, i), i, if Find(d, s, i) == NPOS then |s| - Len(d) + 1 else Find(d, s, i) + 1)
    decreases |s| - i
  {
    if i + Len(d) <= |s| && !At(d, s, i) {
      ProbesRange(d, s, i + 1);
      var hi := if Find(d, s, i) == NPOS then |s| - Len(d) + 1 else Find(d, s, i) + 1;
      assert Find(d, s, i) == Find(d, s, i + 1);
      ProbesCons(i, Probes(d, s, i + 1), hi);
    }
  }

  lemma {:induction false} ProbesCons(i: nat, more: seq<nat>, hi: int)
    requires Increasing(more) && Within(more, i + 1, hi) && i < hi
    ensures Increasing([i] + more) && Within([i] + more, i, hi)
  {
  }

  /** Strictly increasing offsets below n are at most n many. */
  lemma {:induction false} IncreasingBound(xs: seq<nat>, n: nat)
    requires Increasing(xs) && Within(xs, 0, n)
    ensures |xs| <= n
  {
    if |xs| > 0 {
      var k := |xs| - 1;
      IncreasingBound(xs[..k], xs[k]);
    }
  }
}
