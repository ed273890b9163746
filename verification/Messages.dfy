/** Message text: what the parser reads out of a message and what the printer writes back. */
module Messages {
  import opened Text

  /** The key under which a message names the action it answers. */
  const ACTION_ID := "ActionID"

  datatype Entry = Entry(key: string, val: string)

  /** A dictionary as its two containers: the key list keeps order and repeats, the value map does not. */
  datatype Dict = Dict(keys: seq<string>, vals: map<string, string>) {
    predicate HasKey(key: string) {
      key in keys
    }

    function GetValue(key: string): Option<string> {
      if key in vals then Some(vals[key]) else None
    }

    /** What the printer shows for a key: a key without a value prints as an empty one. */
    function Shown(key: string): string {
      if key in vals then vals[key] else ""
    }
  }

  // ---------- parsing ----------

  /**
   * The key runs to the leftmost separator, the value from there to the next line end, and so on.
   * None: a separator with no line end after it, which the parser may not be given.
   */
  function Read(s: string): Option<seq<Entry>>
    decreases |s|
  {
    var e := Find(SEP, s, 0);
    if e == NPOS then Some([])
    else
      var v := Find(EOR, s, e + 2);
      if v == NPOS then None
      else
        match Read(s[v + 2..])
        case None => None
        case Some(es) => Some([Entry(s[..e], s[e + 2..v])] + es)
  }

  /** Every separator the parser finds is followed by a line end. */
  predicate Parseable(s: string) {
    Read(s).Some?
  }

  function Entries(s: string): seq<Entry>
    requires Parseable(s)
  {
    Read(s).value
  }

  function KeysOf(es: seq<Entry>): seq<string> {
    seq(|es|, i requires 0 <= i < |es| => es[i].key)
  }

  /** Values by key, where an entry for a key already present is dropped. */
  function FirstWins(es: seq<Entry>): map<string, string> {
    if |es| == 0 then map[]
    else
      var m := FirstWins(es[..|es| - 1]);
      var e := es[|es| - 1];
      if e.key in m then m else m[e.key := e.val]
  }

  function ToDict(es: seq<Entry>): Dict {
    Dict(KeysOf(es), FirstWins(es))
  }

  function Parse(s: string): Dict
    requires Parseable(s)
  {
    ToDict(Entries(s))
  }

  // ---------- printing ----------

  function Line(e: Entry): string {
    e.key + Chars(SEP) + e.val + Chars(EOR)
  }

  function Lines(es: seq<Entry>): string {
    if |es| == 0 then "" else Line(es[0]) + Lines(es[1..])
  }

  function Shows(d: Dict): seq<Entry> {
    seq(|d.keys|, i requires 0 <= i < |d.keys| => Entry(d.keys[i], d.Shown(d.keys[i])))
  }

  function Print(d: Dict): string {
    Lines(Shows(d)) + Chars(EOR)
  }

  /** The dictionary with an explicit value for each listed key, and no other values. */
  function Filled(d: Dict): Dict {
    Dict(d.keys, map k | k in d.keys :: d.Shown(k))
  }

  // ---------- cleanliness ----------

  predicate CleanEntry(e: Entry) {
    Clean(SEP, e.key) && Clean(EOR, e.val)
  }

  ghost predicate AllClean(es: seq<Entry>) {
    forall i :: 0 <= i < |es| ==> CleanEntry(es[i])
  }

  /** No key contains a separator and no shown value contains a line end. */
  ghost predicate CleanDict(d: Dict) {
    forall k :: k in d.keys ==> Clean(SEP, k) && Clean(EOR, d.Shown(k))
  }

  lemma {:induction false} CleanDictShows(d: Dict)
    ensures CleanDict(d) <==> AllClean(Shows(d))
  {
    if AllClean(Shows(d)) {
      forall k | k in d.keys
        ensures Clean(SEP, k) && Clean(EOR, d.Shown(k))
      {
        var i :| 0 <= i < |d.keys| && d.keys[i] == k;
        assert CleanEntry(Shows(d)[i]);
      }
    }
  }

  // ---------- parseability ----------

  /** In a message that ends with an empty line no separator is left without a line end. */
  lemma {:induction false} EndedIsParseable(s: string)
    requires |s| >= 4 && At(EOM, s, |s| - 4)
    ensures Parseable(s)
    decreases |s|
  {
    var e := Find(SEP, s, 0);
    if e != NPOS {
      var v := EndedHasEor(s, e);
      ReadStep(s, e, v);
      hide Find, Read;
      if v == |s| - 4 {
        assert s[v + 2..] == Chars(EOR);
        EorHasNoSep();
        NoEntry(Chars(EOR));
      } else {
        EndedIsParseable(s[v + 2..]);
      }
    }
  }

  lemma {:induction false} EndedHasEor(s: string, e: nat) returns (v: nat)
    requires |s| >= 4 && At(EOM, s, |s| - 4) && At(SEP, s, e)
    ensures v == Find(EOR, s, e + 2) && (v == |s| - 4 || v <= |s| - 6)
  {
    hide Find;
    assert e + 2 <= |s| - 4;
    assert At(EOR, s, |s| - 4);
    assert !Free(EOR, s, e + 2);
    v := Find(EOR, s, e + 2);
    assert v <= |s| - 4 && v != |s| - 5;
  }

  lemma {:induction false} NoEntry(t: string)
    requires Find(SEP, t, 0) == NPOS
    ensures Parseable(t) && Entries(t) == []
  {
  }

  lemma {:induction false} LinesEnd(es: seq<Entry>)
    requires |es| > 0
    ensures |Lines(es)| >= 4 && At(EOR, Lines(es), |Lines(es)| - 2)
  {
    var n := |Line(es[0])|;
    assert At(EOR, Line(es[0]), n - 2);
    if |es| > 1 {
      LinesEnd(es[1..]);
      AtShift(EOR, Line(es[0]), Lines(es[1..]), |Lines(es[1..])| - 2);
    } else {
      assert Lines(es[1..]) == "";
      assert Lines(es) == Line(es[0]);
    }
  }

  lemma {:induction false} EorHasNoSep()
    ensures Find(SEP, Chars(EOR), 0) == NPOS
  {
  }

  /**
   * The printed form, character by character: an empty dictionary prints as a line end; any other as the line of its
   * first key, whose value is empty if it has none, followed by the printed form of the other keys.
   */
  lemma {:induction false} PrintedForm(d: Dict)
    ensures |d.keys| == 0 ==> Print(d) == "\r\n"
    ensures |d.keys| > 0 ==>
              Print(d) == d.keys[0] + ": " + (if d.keys[0] in d.vals then d.vals[d.keys[0]] else "") + "\r\n" +
                          Print(Dict(d.keys[1..], d.vals))
  {
    if |d.keys| == 0 {
      EmptyUnit(Lines(Shows(d)), Chars(EOR));
    } else {
      assert Shows(d)[1..] == Shows(Dict(d.keys[1..], d.vals));
      Assoc(Line(Shows(d)[0]), Lines(Shows(d)[1..]), Chars(EOR));
    }
  }

  /** Whatever is printed can be parsed. */
  lemma {:induction false} PrintedIsParseable(es: seq<Entry>)
    ensures Parseable(Lines(es) + Chars(EOR))
  {
    var s := Lines(es) + Chars(EOR);
    if |es| == 0 {
      assert s == Chars(EOR);
      EorHasNoSep();
    } else {
      LinesEnd(es);
      AtPrefix(EOR, Lines(es), Chars(EOR), |Lines(es)| - 2);
      assert At(EOM, s, |s| - 4);
      EndedIsParseable(s);
    }
  }

  // ---------- reading one line ----------

  /** Where the parser puts the end of the key. */
  lemma {:induction false} KeyEnd(e: Entry, rest: string)
    ensures Clean(SEP, e.key) ==> Find(SEP, Line(e) + rest, 0) == |e.key|
    ensures !Clean(SEP, e.key) ==> 0 <= Find(SEP, Line(e) + rest, 0) < |e.key|
  {
    EndOfClean(SEP, e.key, e.val + Chars(EOR) + rest);
    assert Line(e) + rest == e.key + (Chars(SEP) + (e.val + Chars(EOR) + rest));
  }

  /** Where the parser puts the end of the value, once the key ended in the right place. */
  lemma {:induction false} ValueEnd(e: Entry, rest: string)
    ensures Clean(EOR, e.val) ==> Find(EOR, Line(e) + rest, |e.key| + 2) == |e.key| + 2 + |e.val|
    ensures !Clean(EOR, e.val) ==>
              |e.key| + 2 <= Find(EOR, Line(e) + rest, |e.key| + 2) < |e.key| + 2 + |e.val|
  {
    var pre := e.key + Chars(SEP);
    var t := e.val + (Chars(EOR) + rest);
    EndOfClean(EOR, e.val, rest);
    FindShift(EOR, pre, t, 0);
    assert Line(e) + rest == pre + t;
  }

  /** A delimiter that follows x is the leftmost one exactly if x contains none: no overlap is possible. */
  lemma {:induction false} EndOfClean(d: Delim, x: string, rest: string)
    requires !d.EOM?
    ensures Clean(d, x) ==> Find(d, x + (Chars(d) + rest), 0) == |x|
    ensures !Clean(d, x) ==> 0 <= Find(d, x + (Chars(d) + rest), 0) < |x|
  {
    var s := x + (Chars(d) + rest);
    assert At(d, s, |x|);
    if Clean(d, x) {
      forall j: nat | j < |x| ensures !At(d, s, j) {
        if j + 2 <= |x| {
          AtPrefix(d, x, Chars(d) + rest, j);
        }
      }
      FindIs(d, s, 0, |x|);
    } else {
      AtPrefix(d, x, Chars(d) + rest, Find(d, x, 0));
    }
  }

  lemma {:induction false} LineSlices(e: Entry, rest: string)
    ensures var s := Line(e) + rest; var k := |e.key|; var v := k + 2 + |e.val|;
            v + 2 <= |s| && s[..k] == e.key && s[k + 2..v] == e.val && s[v + 2..] == rest
  {
  }

  lemma {:induction false} CleanLineParses(e: Entry, rest: string)
    requires CleanEntry(e)
    requires Parseable(rest)
    ensures Read(Line(e) + rest) == Some([e] + Entries(rest))
  {
    hide Find, Read, Line;
    KeyEnd(e, rest);
    ValueEnd(e, rest);
    LineSlices(e, rest);
    ReadStep(Line(e) + rest, |e.key|, |e.key| + 2 + |e.val|);
  }

  lemma {:induction false} ReadStep(s: string, k: nat, v: nat)
    requires Find(SEP, s, 0) == k && Find(EOR, s, k + 2) == v
    ensures Parseable(s) <==> Parseable(s[v + 2..])
    ensures Parseable(s) ==> Entries(s) == [Entry(s[..k], s[k + 2..v])] + Entries(s[v + 2..])
  {
  }

  lemma {:induction false} CleanLinesParse(es: seq<Entry>, rest: string)
    requires AllClean(es)
    requires Parseable(rest)
    ensures Read(Lines(es) + rest) == Some(es + Entries(rest))
  {
    if |es| == 0 {
      EmptyUnit(Lines(es), rest);
      EmptyUnit(es, Entries(rest));
    } else {
      var t := Lines(es[1..]) + rest;
      CleanLinesParse(es[1..], rest);
      CleanLineParses(es[0], t);
      Assoc(Line(es[0]), Lines(es[1..]), rest);
      HeadTail(es, Entries(rest));
    }
  }

  lemma {:induction false} LinesSplit(es: seq<Entry>, j: nat)
    requires j <= |es|
    ensures Lines(es) == Lines(es[..j]) + Lines(es[j..])
  {
    hide Line;
    if j > 0 {
      assert es[1..][..j - 1] == es[..j][1..];
      assert es[1..][j - 1..] == es[j..];
      LinesSplit(es[1..], j - 1);
      Assoc(Line(es[0]), Lines(es[..j][1..]), Lines(es[j..]));
    } else {
      assert es[0..] == es;
      EmptyUnit(Lines(es[..0]), Lines(es));
    }
  }

  lemma {:induction false} UncleanLineParses(e: Entry, rest: string)
    requires !CleanEntry(e) && Parseable(Line(e) + rest)
    ensures |Entries(Line(e) + rest)| > 0 && Entries(Line(e) + rest)[0] != e
  {
    KeyEnd(e, rest);
    if Clean(SEP, e.key) {
      ValueEnd(e, rest);
      assert |Entries(Line(e) + rest)[0].val| < |e.val|;
    } else {
      assert |Entries(Line(e) + rest)[0].key| < |e.key|;
    }
  }

  /** The first unclean line is read back differently, after all lines before it were read faithfully. */
  lemma {:induction false} FirstUncleanLine(es: seq<Entry>, j: nat)
    requires j < |es| && AllClean(es[..j]) && !CleanEntry(es[j])
    requires Parseable(Lines(es) + Chars(EOR))
    ensures var ps := Entries(Lines(es) + Chars(EOR));
            j < |ps| && ps[..j] == es[..j] && ps[j] != es[j]
  {
    var more := Lines(es[j..][1..]) + Chars(EOR);
    var rest := Line(es[j]) + more;
    LinesSplit(es, j);
    assert Lines(es[j..]) + Chars(EOR) == rest;
    PrintedIsParseable(es[j..]);
    UncleanLineParses(es[j], more);
    CleanLinesParse(es[..j], rest);
    assert Lines(es) + Chars(EOR) == Lines(es[..j]) + rest;
  }

  // ---------- first-wins maps ----------

  lemma {:induction false} FirstWinsKeys(es: seq<Entry>)
    ensures forall k :: k in FirstWins(es) <==> k in KeysOf(es)
  {
    if |es| > 0 {
      var init := es[..|es| - 1];
      FirstWinsKeys(init);
      assert KeysOf(es) == KeysOf(init) + [es[|es| - 1].key];
    }
  }

  /** The value of a key is that of its first entry. */
  lemma {:induction false} FirstWinsIs(es: seq<Entry>, i: nat)
    requires i < |es|
    requires forall j :: 0 <= j < i ==> es[j].key != es[i].key
    ensures es[i].key in FirstWins(es) && FirstWins(es)[es[i].key] == es[i].val
  {
    var n := |es| - 1;
    if i < n {
      FirstWinsIs(es[..n], i);
    } else {
      FirstWinsKeys(es[..n]);
    }
  }

  function FirstIndex(es: seq<Entry>, k: string): (i: nat)
    requires k in KeysOf(es)
    ensures i < |es| && es[i].key == k && forall j :: 0 <= j < i ==> es[j].key != k
  {
    if es[0].key == k then 0
    else
      assert KeysOf(es)[1..] == KeysOf(es[1..]);
      assert k in KeysOf(es)[1..];
      1 + FirstIndex(es[1..], k)
  }

  lemma {:induction false} FirstWinsFrom(es: seq<Entry>, k: string)
    requires k in KeysOf(es)
    ensures k in FirstWins(es) && es[FirstIndex(es, k)] == Entry(k, FirstWins(es)[k])
  {
    FirstWinsIs(es, FirstIndex(es, k));
  }

  /**
   * Looking a key up in a parsed message: it is listed iff it has a value iff some entry of the message carries
   * it, and the value is that of the first such entry.
   */
  lemma {:induction false} ParsedLookup(s: string, k: string, v: string)
    requires Parseable(s)
    ensures var d, es := Parse(s), Entries(s);
            && (d.HasKey(k) <==> d.GetValue(k).Some?)
            && (d.HasKey(k) <==> exists i :: 0 <= i < |es| && es[i].key == k)
            && (d.GetValue(k) == Some(v) <==>
                  exists i :: 0 <= i < |es| && es[i] == Entry(k, v) && forall j :: 0 <= j < i ==> es[j].key != k)
  {
    hide Read, FirstWins;
    var es := Entries(s);
    FirstWinsKeys(es);
    assert forall i :: 0 <= i < |es| ==> KeysOf(es)[i] == es[i].key;
    if k in KeysOf(es) {
      FirstWinsFrom(es, k);
      var i := FirstIndex(es, k);
      assert es[i] == Entry(k, FirstWins(es)[k]);
    }
    forall i | 0 <= i < |es| && es[i] == Entry(k, v) && forall j :: 0 <= j < i ==> es[j].key != k
      ensures k in FirstWins(es) && FirstWins(es)[k] == v
    {
      FirstWinsIs(es, i);
    }
  }

  /** Entries with the same key carry the same value. */
  ghost predicate Consistent(es: seq<Entry>) {
    forall i, j :: 0 <= i < |es| && 0 <= j < |es| && es[i].key == es[j].key ==> es[i].val == es[j].val
  }

  lemma {:induction false} ConsistentShows(es: seq<Entry>)
    ensures Shows(ToDict(es)) == es <==> Consistent(es)
  {
    var d := ToDict(es);
    forall i | 0 <= i < |es|
      ensures es[i].key in KeysOf(es) && es[i].key in d.vals
      ensures es[FirstIndex(es, es[i].key)] == Entry(es[i].key, d.Shown(es[i].key))
    {
      assert KeysOf(es)[i] == es[i].key;
      FirstWinsFrom(es, es[i].key);
    }
    if Shows(d) == es {
      forall i, j | 0 <= i < |es| && 0 <= j < |es| && es[i].key == es[j].key
        ensures es[i].val == es[j].val
      {
        assert es[i] == Shows(d)[i] && es[j] == Shows(d)[j];
      }
    }
  }

  // ---------- round trips ----------

  /**
   * Printing a dictionary and parsing the text gives it back (a key without a value comes back empty)
   * exactly when no key contains a separator and no shown value a line end. Repeated keys do no harm.
   */
  lemma {:induction false} RoundTrip(d: Dict, text: string)
    requires text == Print(d)
    ensures Parseable(text)
    ensures Parse(text) == Filled(d) <==> CleanDict(d)
  {
    var es := Shows(d);
    PrintedIsParseable(es);
    CleanDictShows(d);
    assert Consistent(es);
    if CleanDict(d) {
      CleanRoundTrip(d);
    } else {
      var j := FirstUnclean(es);
      FirstUncleanLine(es, j);
      var ps := Entries(Print(d));
      if Parse(Print(d)) == Filled(d) {
        assert KeysOf(ps)[j] == d.keys[j];
        forall i | 0 <= i < j ensures ps[i].key != ps[j].key {
          assert ps[i] == ps[..j][i] == es[i];
          assert CleanEntry(es[..j][i]);
        }
        FirstWinsIs(ps, j);
        assert false;
      }
    }
  }

  function FirstUnclean(es: seq<Entry>): (j: nat)
    requires !AllClean(es)
    ensures j < |es| && !CleanEntry(es[j]) && AllClean(es[..j])
  {
    if !CleanEntry(es[0]) then 0
    else
      assert forall i :: 0 < i < |es| ==> es[i] == es[1..][i - 1];
      var j := 1 + FirstUnclean(es[1..]);
      assert forall i :: 0 < i < j ==> es[..j][i] == es[1..][..j - 1][i - 1];
      j
  }

  /** Repeated keys show the same value, so keeping the first of each loses nothing. */
  lemma {:induction false} FirstWinsShows(d: Dict)
    ensures ToDict(Shows(d)) == Filled(d)
  {
    hide FirstWins;
    var es := Shows(d);
    assert KeysOf(es) == d.keys;
    FirstWinsKeys(es);
    forall k | k in d.keys ensures FirstWins(es)[k] == d.Shown(k) {
      FirstWinsFrom(es, k);
    }
    assert FirstWins(es) == Filled(d).vals;
  }

  lemma {:induction false} CleanRoundTrip(d: Dict)
    requires CleanDict(d)
    ensures Parseable(Print(d))
    ensures Entries(Print(d)) == Shows(d)
    ensures Parse(Print(d)) == Filled(d)
  {
    var es, end := Shows(d), Chars(EOR);
    CleanDictShows(d);
    EorHasNoSep();
    assert Read(end) == Some([]);
    hide Read, Lines, ToDict, AllClean, CleanDict, Shows, Filled;
    CleanLinesParse(es, end);
    EmptyUnit(Entries(end), es);
    FirstWinsShows(d);
  }

  /** In particular a key without a value comes back with an empty one. */
  lemma {:induction false} MissingComesBackEmpty(d: Dict, k: string)
    requires CleanDict(d) && k in d.keys
    ensures Parseable(Print(d))
    ensures Parse(Print(d)).GetValue(k) == Some(if k in d.vals then d.vals[k] else "")
  {
    CleanRoundTrip(d);
  }

  /** What the parser reads is always clean. */
  lemma {:induction false} EntriesClean(s: string)
    requires Parseable(s)
    ensures AllClean(Entries(s))
    decreases |s|
  {
    var e := Find(SEP, s, 0);
    if e != NPOS {
      var v := Find(EOR, s, e + 2);
      ReadStep(s, e, v);
      hide Find, Read;
      EntriesClean(s[v + 2..]);
      SliceClean(SEP, s, 0, e);
      SliceClean(EOR, s, e + 2, v);
    }
  }

  /**
   * What parsing means, without reference to a cursor: the entries read are the only clean ones whose lines, followed
   * by a rest without a separator, make up the text; and a text can be parsed iff it can be divided like that.
   */
  lemma {:induction false} ParseUnique(s: string, es: seq<Entry>)
    ensures Parseable(s) && Entries(s) == es <==> exists rest :: Divides(s, es, rest)
  {
    if Parseable(s) && Entries(s) == es {
      var rest := EntriesDivide(s);
    }
    forall rest | Divides(s, es, rest) ensures Parseable(s) && Entries(s) == es {
      NoEntry(rest);
      CleanLinesParse(es, rest);
      EmptyUnit(Entries(rest), es);
    }
  }

  ghost predicate Divides(s: string, es: seq<Entry>, rest: string) {
    AllClean(es) && Clean(SEP, rest) && s == Lines(es) + rest
  }

  lemma {:induction false} EntriesDivide(s: string) returns (rest: string)
    requires Parseable(s)
    ensures Divides(s, Entries(s), rest)
    decreases |s|
  {
    hide Line;
    EntriesClean(s);
    var e := Find(SEP, s, 0);
    if e == NPOS {
      rest := s;
      EmptyUnit(Lines([]), s);
    } else {
      var v := Find(EOR, s, e + 2);
      ReadStep(s, e, v);
      hide Find, Read;
      rest := EntriesDivide(s[v + 2..]);
      LineOfSlices(s, e, v);
      var x := Entry(s[..e], s[e + 2..v]);
      assert ([x] + Entries(s[v + 2..]))[1..] == Entries(s[v + 2..]);
      Assoc(Line(x), Lines(Entries(s[v + 2..])), rest);
    }
  }

  lemma {:induction false} LineOfSlices(s: string, e: nat, v: nat)
    requires At(SEP, s, e) && e + 2 <= v && At(EOR, s, v)
    ensures s == Line(Entry(s[..e], s[e + 2..v])) + s[v + 2..]
  {
    assert s[e..e + 2] == Chars(SEP) && s[v..v + 2] == Chars(EOR);
    assert s == s[..e] + s[e..e + 2] + s[e + 2..v] + s[v..v + 2] + s[v + 2..];
  }

  lemma {:induction false} SliceClean(d: Delim, s: string, i: nat, r: nat)
    requires Find(d, s, i) == r
    ensures Clean(d, s[i..r])
  {
    forall j: nat ensures !At(d, s[i..r], j) {
      assert At(d, s[i..r], j) ==> At(d, s, i + j);
    }
  }

  lemma {:induction false} ParsedIsClean(s: string)
    requires Parseable(s)
    ensures CleanDict(Parse(s)) && Filled(Parse(s)) == Parse(s)
  {
    var es := Entries(s);
    var d := Parse(s);
    EntriesClean(s);
    FirstWinsKeys(es);
    forall k | k in d.keys
      ensures Clean(SEP, k) && Clean(EOR, d.Shown(k))
    {
      FirstWinsFrom(es, k);
      assert CleanEntry(es[FirstIndex(es, k)]);
    }
    assert Filled(d).vals == d.vals;
  }

  /** Printing after parsing loses nothing that a second parse would still see. */
  lemma {:induction false} ParsePrintIdempotent(s: string)
    requires Parseable(s)
    ensures Parseable(Print(Parse(s)))
    ensures Parse(Print(Parse(s))) == Parse(s)
    ensures Print(Parse(Print(Parse(s)))) == Print(Parse(s))
  {
    ParsedIsClean(s);
    RoundTrip(Parse(s), Print(Parse(s)));
  }

  /** The text of a run of clean entries, closed by a line end, repeated keys agreeing. */
  ghost predicate Canonical(s: string, es: seq<Entry>) {
    AllClean(es) && Consistent(es) && s == Lines(es) + Chars(EOR)
  }

  /** A text that can be parsed survives parse-then-print exactly when it is canonical. */
  lemma {:induction false} Lossless(s: string)
    requires Parseable(s)
    ensures Print(Parse(s)) == s <==> exists es :: Canonical(s, es)
  {
    if Print(Parse(s)) == s {
      ParsedIsClean(s);
      CleanDictShows(Parse(s));
      assert Canonical(s, Shows(Parse(s)));
    }
    forall es | Canonical(s, es)
      ensures Print(Parse(s)) == s
    {
      EorHasNoSep();
      CleanLinesParse(es, Chars(EOR));
      assert Entries(s) == es;
      ConsistentShows(es);
    }
  }

  /** In particular a message, which ends with an empty line: then there is at least one entry. */
  lemma {:induction false} LosslessMessage(s: string)
    requires |s| >= 4 && At(EOM, s, |s| - 4)
    ensures Parseable(s)
    ensures Print(Parse(s)) == s <==> exists es :: Canonical(s, es) && |es| > 0
  {
    EndedIsParseable(s);
    Lossless(s);
    assert forall es :: Canonical(s, es) && |es| == 0 ==> s == Chars(EOR);
  }
}
