/** The dictionary object: parsed in place from a message, or built from a key list and filled in. */
module KeyValDicts {
  import opened Text
  import opened Messages

  /** A returned value, or the text of the runtime error thrown instead. */
  datatype Result<+T> = Success(value: T) | Failure(error: string)

  class KeyValDict {
    var orderedKeys: seq<string>
    var values: map<string, string>

    function View(): Dict
      reads this
    {
      Dict(orderedKeys, values)
    }

    constructor FromMessage(eventBuf: string)
      requires eventBuf != "" && Parseable(eventBuf)
      ensures View() == Parse(eventBuf)
    {
      new;
      SetMessage(eventBuf);
    }

    constructor FromKeys(keys: seq<string>)
      ensures orderedKeys == keys && values == map[]
    {
      orderedKeys, values := keys, map[];
    }

    method HasKey(key: string) returns (found: bool)
      ensures found <==> key in orderedKeys
      ensures found <==> View().HasKey(key)
    {
      found := key in orderedKeys;
    }

    method GetValue(key: string) returns (val: Option<string>)
      ensures val == View().GetValue(key)
      ensures val.Some? <==> key in values
      ensures key in values ==> val == Some(values[key])
    {
      val := if key in values then Some(values[key]) else None;
    }

    /** Const subscript: a listed key without a value reads as empty. */
    method At(key: string) returns (r: Result<string>)
      ensures key !in orderedKeys ==> r == Failure("unknown key " + key)
      ensures key in orderedKeys && key in values ==> r == Success(values[key])
      ensures key in orderedKeys && key !in values ==> r == Success("")
    {
      if key !in orderedKeys {
        return Failure("unknown key " + key);
      }
      r := Success(if key in values then values[key] else "");
    }

    /** Non-const subscript: a listed key without a value gets an empty one, to which the caller may assign. */
    method AtForUpdate(key: string) returns (r: Result<string>)
      modifies this
      ensures orderedKeys == old(orderedKeys)
      ensures key !in orderedKeys ==> r == Failure("unknown key " + key) && values == old(values)
      ensures key in orderedKeys && key in old(values) ==> r == Success(old(values)[key]) && values == old(values)
      ensures key in orderedKeys && key !in old(values) ==> r == Success("") && values == old(values)[key := ""]
    {
      if key !in orderedKeys {
        return Failure("unknown key " + key);
      }
      if key !in values {
        values := values[key := ""];
      }
      r := Success(values[key]);
    }

    method SetValue(key: string, val: string) returns (r: Result<()>)
      modifies this
      ensures orderedKeys == old(orderedKeys)
      ensures key !in orderedKeys ==> r == Failure("unknown key " + key) && values == old(values)
      ensures key in orderedKeys ==> r == Success(()) && values == old(values)[key := val]
    {
      if key !in orderedKeys {
        return Failure("unknown key " + key);
      }
      values := values[key := val];
      r := Success(());
    }

    /** The cursor loop. Each turn moves the cursor at least four characters and never past the end. */
    method SetMessage(eventBuf: string)
      requires eventBuf != "" && Parseable(eventBuf)
      modifies this
      ensures View() == Parse(eventBuf)
    {
      hide Find, Read, Entries, KeysOf, FirstWins;
      orderedKeys := [];
      values := map[];
      ghost var done: seq<Entry> := [];
      ScanStarts(eventBuf);

      var keyBeg := 0;
      while keyBeg < |eventBuf|
        invariant Scanned(eventBuf, keyBeg, done, View())
      {
        var keyEnd := Find(SEP, eventBuf, keyBeg);
        if keyEnd == NPOS {
          break;
        }
        ghost var before := View();
        var key := eventBuf[keyBeg..keyEnd];
        orderedKeys := orderedKeys + [key];

        var valBeg := keyEnd + 2;
        var valEnd := Find(EOR, eventBuf, valBeg);
        ScanTurn(eventBuf, keyBeg, done, before);
        var val := eventBuf[valBeg..valEnd];
        if key !in values {
          values := values[key := val];
        }
        done := done + [Entry(key, val)];
        keyBeg := valEnd + 2;
      }
      ScanEnds(eventBuf, keyBeg, done, View());
    }

    method ToString() returns (actionString: string)
      ensures actionString == Print(View())
    {
      actionString := "";
      ghost var shown := Shows(View());
      for i := 0 to |orderedKeys|
        invariant actionString == Lines(shown[..i])
      {
        var key := orderedKeys[i];
        var val := if key in values then values[key] else "";
        LinesSnoc(shown[..i], shown[i]);
        assert shown[..i + 1] == shown[..i] + [shown[i]];
        actionString := actionString + (key + Chars(SEP) + val + Chars(EOR));
      }
      assert shown[..|orderedKeys|] == shown;
      actionString := actionString + Chars(EOR);
    }
  }

  // ---------- the cursor loop ----------

  /** The cursor stands at i, the entries in done have been read, and d holds exactly those. */
  ghost predicate Scanned(s: string, i: nat, done: seq<Entry>, d: Dict) {
    && i <= |s| && Parseable(s) && Parseable(s[i..])
    && Entries(s) == done + Entries(s[i..])
    && d == ToDict(done)
  }

  lemma {:induction false} ScanStarts(s: string)
    requires Parseable(s)
    ensures Scanned(s, 0, [], Dict([], map[]))
  {
    assert s[0..] == s;
    EmptyUnit([], Entries(s));
    assert KeysOf([]) == [];
  }

  /** The next separator has its line end, the cursor moves at least four characters, one entry is read. */
  lemma {:induction false} ScanTurn(s: string, i: nat, done: seq<Entry>, d: Dict)
    requires Scanned(s, i, done, d) && Find(SEP, s, i) != NPOS
    ensures var e := Find(SEP, s, i);
            var v := Find(EOR, s, e + 2);
            && v != NPOS && i + 4 <= v + 2 <= |s|
            && var x := Entry(s[i..e], s[e + 2..v]);
            Scanned(s, v + 2, done + [x],
                    Dict(d.keys + [x.key], if x.key in d.vals then d.vals else d.vals[x.key := x.val]))
  {
    hide Find, Read;
    var x, v := TakeEntryAt(s, i);
    AddEntry(done, x);
    Assoc(done, [x], Entries(s[v + 2..]));
  }

  /** Reading at the cursor is reading the first entry of the remainder. */
  lemma {:induction false} TakeEntryAt(s: string, i: nat) returns (x: Entry, v: nat)
    requires i <= |s| && Parseable(s[i..]) && Find(SEP, s, i) != NPOS
    ensures var e := Find(SEP, s, i);
            && v == Find(EOR, s, e + 2) && i + 4 <= v + 2 <= |s|
            && x == Entry(s[i..e], s[e + 2..v])
    ensures Parseable(s[v + 2..]) && Entries(s[i..]) == [x] + Entries(s[v + 2..])
  {
    hide Find, Read;
    var t := s[i..];
    var k, w := FindsAt(s, t, i);
    ReadStep(t, k, w);
    v := i + w;
    x := Entry(s[i..i + k], s[i + k + 2..v]);
    SubSlices(s, i, i + k, v);
  }

  lemma {:induction false} FindsAt(s: string, t: string, i: nat) returns (k: nat, w: nat)
    requires i <= |s| && t == s[i..] && Parseable(t) && Find(SEP, s, i) != NPOS
    ensures Find(SEP, t, 0) == k && Find(SEP, s, i) == i + k
    ensures Find(EOR, t, k + 2) == w && Find(EOR, s, i + k + 2) == i + w
  {
    hide Find, Read;
    FindSuffix(SEP, s, i, 0);
    k := Find(SEP, t, 0);
    ReadHasEor(t, k);
    FindSuffix(EOR, s, i, k + 2);
    w := Find(EOR, t, k + 2);
  }

  lemma {:induction false} ScanEnds(s: string, i: nat, done: seq<Entry>, d: Dict)
    requires Scanned(s, i, done, d) && Find(SEP, s, i) == NPOS
    ensures d == Parse(s)
  {
    FindSuffix(SEP, s, i, 0);
    NoEntry(s[i..]);
    EmptyUnit([], done);
  }

  lemma {:induction false} ReadHasEor(t: string, k: nat)
    requires Parseable(t) && Find(SEP, t, 0) == k
    ensures Find(EOR, t, k + 2) != NPOS
  {
  }

  lemma {:induction false} LinesSnoc(es: seq<Entry>, e: Entry)
    ensures Lines(es + [e]) == Lines(es) + Line(e)
  {
    hide Line;
    var all := es + [e];
    LinesSplit(all, |es|);
    assert all[..|es|] == es && all[|es|..] == [e];
    EmptyUnit(Lines([e][1..]), Line(e));
  }

  /** Appending to the key list and emplacing the value is adding one entry. */
  lemma {:induction false} AddEntry(done: seq<Entry>, e: Entry)
    ensures KeysOf(done + [e]) == KeysOf(done) + [e.key]
    ensures FirstWins(done + [e]) ==
            if e.key in FirstWins(done) then FirstWins(done) else FirstWins(done)[e.key := e.val]
  {
    assert (done + [e])[..|done|] == done;
  }

  lemma {:induction false} SubSlices(s: string, a: nat, b: nat, c: nat)
    requires a <= b && b + 2 <= c && c + 2 <= |s|
    ensures s[a..][..b - a] == s[a..b] && s[a..][b - a + 2..c - a] == s[b + 2..c]
    ensures s[a..][c - a + 2..] == s[c + 2..]
  {
  }

  /** Reading a key through the mutable subscript may store an empty value; nobody who prints can tell. */
  lemma {:induction false} EmptyValueIsInvisible(d: Dict, k: string)
    requires d.HasKey(k)
    ensures Print(Dict(d.keys, d.vals[k := d.Shown(k)])) == Print(d)
  {
    assert Shows(Dict(d.keys, d.vals[k := d.Shown(k)])) == Shows(d);
  }
}
