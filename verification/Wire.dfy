/** From dictionaries to bytes and back: printing, framing, chunking and parsing together. */
module Wire {
  import opened Text
  import opened Messages
  import opened Framing

  /** Every framed message can be parsed, and is not empty: framing discharges the parser's precondition. */
  lemma {:induction false} FrameIsParseable(m: Frame)
    ensures m != "" && Parseable(m)
  {
    EndedIsParseable(m);
  }

  function ParseFrame(m: Frame): Dict {
    FrameIsParseable(m);
    Parse(m)
  }

  function ParseAll(ms: seq<Frame>): seq<Dict> {
    seq(|ms|, i requires 0 <= i < |ms| => ParseFrame(ms[i]))
  }

  // ---------- when a printed dictionary is one message ----------

  /** Inside a line whose key holds no end-of-message mark, no mark starts before the line's own end. */
  lemma {:induction false} NoMarkInLine(e: Entry, t: string, j: nat)
    requires Clean(EOM, e.key) && Clean(EOR, e.val)
    requires j < |Line(e)| - 2
    ensures !At(EOM, Line(e) + t, j)
  {
    var k := |e.key|;
    var s := Line(e) + t;
    assert s[k] == ':' && s[k + 1] == ' ';
    if j + 4 <= k {
      assert At(EOM, s, j) <==> At(EOM, e.key, j);
    } else if k + 2 <= j && j + 2 <= k + 2 + |e.val| {
      assert At(EOR, s, j) <==> At(EOR, e.val, j - k - 2);
    }
  }

  /** The end of a line and the line after it make a mark exactly if that line begins with a line end. */
  lemma {:induction false} MarkAtLineEnd(e: Entry, t: string)
    ensures At(EOM, Line(e) + t, |Line(e)| - 2) <==> At(EOR, t, 0)
    ensures !At(EOM, Line(e) + t, |Line(e)| - 1)
  {
    var n := |Line(e)|;
    assert Line(e)[n - 2] == '\r' && Line(e)[n - 1] == '\n';
  }

  lemma {:induction false} LineStart(e: Entry, t: string)
    ensures At(EOR, Line(e) + t, 0) <==> At(EOR, e.key, 0)
  {
    var s := Line(e) + t;
    assert s[|e.key|] == ':' && s[|e.key| + 1] == ' ';
    assert forall i :: 0 <= i < |e.key| ==> s[i] == e.key[i];
  }

  lemma {:induction false} LinesShape(es: seq<Entry>, t: string)
    requires |es| > 0 && t == Lines(es[1..]) + Chars(EOR)
    ensures Lines(es) + Chars(EOR) == Line(es[0]) + t
    ensures |Line(es[0])| >= 4 && |Lines(es)| == |Line(es[0])| + |Lines(es[1..])|
    ensures |es| == 1 ==> t == Chars(EOR)
  {
    Assoc(Line(es[0]), Lines(es[1..]), Chars(EOR));
    EmptyUnit([], Chars(EOR));
  }

  /** No key holds a mark, and no key after the first begins with a line end. */
  ghost predicate Unbroken(es: seq<Entry>) {
    && (forall i :: 0 <= i < |es| ==> Clean(EOM, es[i].key))
    && (forall i :: 1 <= i < |es| ==> !At(EOR, es[i].key, 0))
  }

  lemma {:induction false} LinesFirstMark(es: seq<Entry>)
    requires |es| > 0 && Unbroken(es)
    requires forall i :: 0 <= i < |es| ==> Clean(EOR, es[i].val)
    ensures Find(EOM, Lines(es) + Chars(EOR), 0) == |Lines(es)| - 2
  {
    hide Find, Line, Lines;
    var t := Lines(es[1..]) + Chars(EOR);
    var s := Lines(es) + Chars(EOR);
    LinesShape(es, t);
    var n := |Line(es[0])|;
    forall j: nat | j < n - 2 ensures !At(EOM, s, j) {
      NoMarkInLine(es[0], t, j);
    }
    MarkAtLineEnd(es[0], t);
    if |es| == 1 {
      FindIs(EOM, s, 0, n - 2);
    } else {
      var u := Lines(es[1..][1..]) + Chars(EOR);
      LinesShape(es[1..], u);
      LineStart(es[1], u);
      LinesFirstMark(es[1..]);
      FindShift(EOM, Line(es[0]), t, 0);
      var r := n + Find(EOM, t, 0);
      assert forall j: nat :: n <= j < r ==> !At(EOM, s, j);
      FindIs(EOM, s, 0, r);
    }
  }

  /** A mark in a key, or a line end at the start of a later key, comes before the closing mark. */
  lemma {:induction false} BrokenLinesMark(es: seq<Entry>)
    requires !Unbroken(es)
    ensures 0 <= Find(EOM, Lines(es) + Chars(EOR), 0) < |Lines(es)| - 2
  {
    hide Find, Line, Lines;
    var i: nat :| i < |es| && (!Clean(EOM, es[i].key) || (i > 0 && At(EOR, es[i].key, 0)));
    var a, b := Lines(es[..i]), Lines(es[i..]) + Chars(EOR);
    var s := Lines(es) + Chars(EOR);
    LinesSplit(es, i);
    Assoc(a, Lines(es[i..]), Chars(EOR));
    var t := Lines(es[i..][1..]) + Chars(EOR);
    LinesShape(es[i..], t);
    KeyPrefix(es[i], t);
    if !Clean(EOM, es[i].key) {
      var p := Find(EOM, es[i].key, 0);
      AtPrefix(EOM, es[i].key, Chars(SEP) + es[i].val + Chars(EOR) + t, p);
      AtShift(EOM, a, b, p);
      assert At(EOM, s, |a| + p);
    } else {
      LineStart(es[i], t);
      LinesEnd(es[..i]);
      AtPrefix(EOR, a, b, |a| - 2);
      AtShift(EOR, a, b, 0);
      assert At(EOM, s, |a| - 2);
    }
  }

  lemma {:induction false} KeyPrefix(e: Entry, t: string)
    ensures Line(e) + t == e.key + (Chars(SEP) + e.val + Chars(EOR) + t)
    ensures |Line(e)| >= |e.key| + 4
  {
  }

  /** What a clean dictionary must satisfy for its printed form to be one message on the wire. */
  ghost predicate Sendable(d: Dict) {
    && |d.keys| > 0
    && (forall i :: 0 <= i < |d.keys| ==> Clean(EOM, d.keys[i]))
    && (forall i :: 1 <= i < |d.keys| ==> !At(EOR, d.keys[i], 0))
  }

  /** A clean dictionary prints as exactly one message iff it is sendable. */
  lemma {:induction false} PrintIsFrame(d: Dict)
    requires CleanDict(d)
    ensures IsFrame(Print(d)) <==> Sendable(d)
  {
    var es := Shows(d);
    forall i | 0 <= i < |es| ensures Clean(EOR, es[i].val) {
      assert d.keys[i] in d.keys;
    }
    assert Sendable(d) <==> |es| > 0 && Unbroken(es) by {
      assert forall i :: 0 <= i < |es| ==> es[i].key == d.keys[i];
    }
    if !Unbroken(es) {
      BrokenLinesMark(es);
    } else if |es| > 0 {
      LinesFirstMark(es);
    } else {
      EmptyUnit(Lines(es), Chars(EOR));
      assert Print(d) == Chars(EOR);
    }
  }

  /** In particular a non-empty dictionary without line ends in its keys is sendable. */
  lemma {:induction false} PlainKeysAreSendable(d: Dict)
    requires |d.keys| > 0 && forall k :: k in d.keys ==> Clean(EOR, k)
    ensures Sendable(d)
  {
    forall i | 0 <= i < |d.keys| ensures Clean(EOM, d.keys[i]) && !At(EOR, d.keys[i], 0) {
      var k := d.keys[i];
      assert k in d.keys;
      assert forall j: nat :: At(EOM, k, j) ==> At(EOR, k, j);
    }
  }

  // ---------- what comes from the wire can be sent again ----------

  /** Before the closing mark no key of a message can hold a mark or follow a line end with another one. */
  lemma {:induction false} OneMarkKeys(s: string)
    requires Parseable(s) && forall j :: 0 <= j < |s| - 4 ==> !At(EOM, s, j)
    ensures forall i :: 0 <= i < |Entries(s)| ==> Clean(EOM, Entries(s)[i].key)
    ensures forall i :: 1 <= i < |Entries(s)| ==> !At(EOR, Entries(s)[i].key, 0)
    decreases |s|
  {
    var e := Find(SEP, s, 0);
    if e != NPOS {
      ReadHasLineEnd(s, e);
      var v := Find(EOR, s, e + 2);
      ReadStep(s, e, v);
      hide Find, Read, Entries;
      var t := s[v + 2..];
      MarksInSuffix(s, v + 2);
      OneMarkKeys(t);
      NoMarkInPrefix(s, e);
      if |Entries(t)| > 0 {
        NoDoubleLineEnd(s, v, t);
      }
    }
  }

  lemma {:induction false} MarksInSuffix(s: string, i: nat)
    requires i <= |s| && forall j :: 0 <= j < |s| - 4 ==> !At(EOM, s, j)
    ensures forall j :: 0 <= j < |s[i..]| - 4 ==> !At(EOM, s[i..], j)
  {
    assert forall j: nat :: j < |s[i..]| - 4 ==> (At(EOM, s[i..], j) <==> At(EOM, s, i + j));
  }

  lemma {:induction false} NoMarkInPrefix(s: string, e: nat)
    requires e < |s| && forall j :: 0 <= j < |s| - 4 ==> !At(EOM, s, j)
    ensures Clean(EOM, s[..e])
  {
    forall j: nat ensures !At(EOM, s[..e], j) {
      assert At(EOM, s[..e], j) ==> At(EOM, s, j);
    }
  }

  lemma {:induction false} NoDoubleLineEnd(s: string, v: nat, t: string)
    requires At(EOR, s, v) && t == s[v + 2..] && Parseable(t) && |Entries(t)| > 0
    requires forall j :: 0 <= j < |s| - 4 ==> !At(EOM, s, j)
    ensures !At(EOR, Entries(t)[0].key, 0)
  {
    hide Find, Read, Entries;
    FirstKey(t);
    var k := Entries(t)[0].key;
    assert At(EOR, k, 0) ==> At(EOM, s, v);
  }

  lemma {:induction false} ReadHasLineEnd(s: string, e: nat)
    requires Parseable(s) && Find(SEP, s, 0) == e
    ensures Find(EOR, s, e + 2) != NPOS
  {
  }

  lemma {:induction false} FirstKey(t: string)
    requires Parseable(t) && |Entries(t)| > 0
    ensures var k := Entries(t)[0].key; |k| + 2 <= |t| && k == t[..|k|]
  {
  }

  /** The dictionary parsed from a framed message is clean, and can be sent again iff it has a key at all. */
  lemma {:induction false} ParsedIsSendable(m: Frame)
    ensures CleanDict(ParseFrame(m)) && Filled(ParseFrame(m)) == ParseFrame(m)
    ensures Sendable(ParseFrame(m)) <==> ParseFrame(m).keys != []
  {
    hide Find, Read, FirstWins;
    FrameIsParseable(m);
    ParsedIsClean(m);
    OneMarkKeys(m);
  }

  // ---------- wire round trip ----------

  function PrintAll(ds: seq<Dict>): (ms: seq<string>)
    ensures |ms| == |ds| && forall i :: 0 <= i < |ds| ==> ms[i] == Print(ds[i])
  {
    seq(|ds|, i requires 0 <= i < |ds| => Print(ds[i]))
  }

  /**
   * Dictionaries printed one after another behind a banner line and cut into chunks in any way that leaves the
   * banner line in the first chunk. They come out of the framer as exactly those messages, in order and with
   * nothing left over, and each of these is parsed back to its dictionary (keys without a value with an empty
   * one), iff every dictionary is clean and sendable.
   */
  lemma {:induction false} WireRoundTrip(banner: string, ds: seq<Dict>, chunks: seq<string>)
    requires Clean(EOR, banner)
    requires |chunks| > 0 && Concat(chunks) == banner + (Chars(EOR) + Concat(PrintAll(ds)))
    requires !Clean(EOR, chunks[0])
    ensures FeedAll(START, chunks).parser.version == Some(banner)
    ensures forall i :: 0 <= i < |ds| ==> Parseable(Print(ds[i]))
    ensures && FeedAll(START, chunks).msgs == PrintAll(ds) && FeedAll(START, chunks).parser.buf == ""
            && (forall i :: 0 <= i < |ds| ==> Parse(Print(ds[i])) == Filled(ds[i]))
            <==>
            forall i :: 0 <= i < |ds| ==> CleanDict(ds[i]) && Sendable(ds[i])
  {
    hide FeedAll, Split, Find, Print, Read, Parse, CleanDict, Sendable, IsFrame;
    forall i | 0 <= i < |ds|
      ensures CleanDict(ds[i]) ==> (IsFrame(PrintAll(ds)[i]) <==> Sendable(ds[i]))
      ensures Parseable(Print(ds[i])) && (Parse(Print(ds[i])) == Filled(ds[i]) <==> CleanDict(ds[i]))
    {
      if CleanDict(ds[i]) {
        PrintIsFrame(ds[i]);
      }
      RoundTrip(ds[i], Print(ds[i]));
    }
    DeliveredAsFrames(banner, PrintAll(ds), chunks);
  }

  /** Texts sent behind a banner line arrive as sent iff each of them is a message. */
  lemma {:induction false} DeliveredAsFrames(banner: string, ms: seq<string>, chunks: seq<string>)
    requires Clean(EOR, banner)
    requires |chunks| > 0 && Concat(chunks) == banner + (Chars(EOR) + Concat(ms))
    requires !Clean(EOR, chunks[0])
    ensures FeedAll(START, chunks).msgs == ms && FeedAll(START, chunks).parser.buf == "" <==>
            forall i :: 0 <= i < |ms| ==> IsFrame(ms[i])
    ensures FeedAll(START, chunks).parser.version == Some(banner)
  {
    hide FeedAll, Split, Find, Concat;
    BehindBanner(banner, Concat(ms), chunks);
    var msgs := FeedAll(START, chunks).msgs;
    assert forall i :: 0 <= i < |msgs| ==> IsFrame(msgs[i]);
    if forall i :: 0 <= i < |ms| ==> IsFrame(ms[i]) {
      FramedStream(ms);
    }
  }

  lemma {:induction false} BehindBanner(banner: string, t: string, chunks: seq<string>)
    requires Clean(EOR, banner)
    requires |chunks| > 0 && Concat(chunks) == banner + (Chars(EOR) + t)
    requires !Clean(EOR, chunks[0])
    ensures FeedAll(START, chunks) == Fed(Parser(false, Split(t).rest, Some(banner)), Split(t).msgs)
  {
    hide FeedAll, Split, Find;
    BannerOf(banner, t);
    ChunkIndependence(chunks);
  }

  lemma {:induction false} FramedStream(ms: seq<Frame>)
    ensures Split(Concat(ms)) == Frames(ms, "")
  {
    SplitFrames(ms, "", Frames([], ""));
    EmptyUnit("", Concat(ms));
    EmptyUnit([], ms);
  }

  lemma {:induction false} BannerOf(banner: string, t: string)
    requires Clean(EOR, banner)
    ensures var s := banner + (Chars(EOR) + t);
            !Clean(EOR, s) && BannerText(s) == banner && AfterBanner(s) == t
  {
    EndOfClean(EOR, banner, t);
  }
}
