/** Actions: a name and an identifier printed ahead of the dictionary. */
module Actions {
  import opened Text
  import opened Messages
  import Framing
  import Wire

  const ACTION := "Action"

  datatype Action = Action(name: string, id: string, dict: Dict) {
    function ToString(): string {
      ACTION + Chars(SEP) + name + Chars(EOR) + ACTION_ID + Chars(SEP) + id + Chars(EOR) + Print(dict)
    }

    function GetActionId(): string {
      id
    }
  }

  /** The printed form, character by character, and the identifier reported for it. */
  lemma {:induction false} ActionForm(a: Action)
    ensures a.ToString() == "Action: " + a.name + "\r\n" + ("ActionID: " + a.id + "\r\n") + Print(a.dict)
    ensures a.GetActionId() == a.id
  {
    var h := "Action: " + a.name + "\r\n";
    assert ACTION + Chars(SEP) == "Action: " && ACTION_ID + Chars(SEP) == "ActionID: ";
    assert h + ACTION_ID + Chars(SEP) == h + "ActionID: ";
    assert h + "ActionID: " + a.id + "\r\n" == h + ("ActionID: " + a.id + "\r\n");
  }

  /** What is put on the wire for an action, as entries. */
  function Header(a: Action): seq<Entry> {
    [Entry(ACTION, a.name), Entry(ACTION_ID, a.id)]
  }

  lemma {:induction false} ToStringIsLines(a: Action)
    ensures a.ToString() == Lines(Header(a)) + Print(a.dict)
  {
    var h := Header(a);
    assert Lines(h[1..][1..]) == "";
    EmptyUnit(Lines(h[1..][1..]), Line(h[1]));
    assert Lines(h) == Line(h[0]) + Line(h[1]);
  }

  lemma {:induction false} HeaderClean(a: Action)
    requires Clean(EOR, a.name) && Clean(EOR, a.id)
    ensures AllClean(Header(a))
    ensures Clean(EOM, ACTION) && Clean(EOM, ACTION_ID) && !At(EOR, ACTION_ID, 0)
  {
    assert forall j: nat :: !At(SEP, ACTION, j) && !At(SEP, ACTION_ID, j);
    assert forall j: nat :: !At(EOM, ACTION, j) && !At(EOM, ACTION_ID, j);
  }

  lemma {:induction false} ActionEntries(a: Action)
    requires Clean(EOR, a.name) && Clean(EOR, a.id)
    ensures Parseable(Print(a.dict)) && Parseable(a.ToString())
    ensures Entries(a.ToString()) == Header(a) + Entries(Print(a.dict))
  {
    hide Find, Read, Lines, Line;
    ToStringIsLines(a);
    HeaderClean(a);
    PrintedIsParseable(Shows(a.dict));
    CleanLinesParse(Header(a), Print(a.dict));
  }

  /**
   * The identifier under which a reply will be matched is the one written on the wire: whatever the
   * dictionary holds, even an ActionID key of its own, looking up ActionID in the printed action gives the
   * action's identifier, because the first entry wins.
   */
  lemma {:induction false} Correlation(a: Action)
    requires Clean(EOR, a.name) && Clean(EOR, a.id)
    ensures Parseable(a.ToString())
    ensures Parse(a.ToString()).GetValue("ActionID") == Some(a.GetActionId()) == Some(a.id)
    ensures Parse(a.ToString()).GetValue("Action") == Some(a.name)
  {
    hide Find, Read, Lines, FirstWins, Print;
    ActionEntries(a);
    var es := Header(a) + Entries(Print(a.dict));
    FirstWinsIs(es, 0);
    FirstWinsIs(es, 1);
  }

  /** With a clean dictionary the whole printed action is read back: Action, ActionID, then the keys in order. */
  lemma {:induction false} ActionKeys(a: Action)
    requires Clean(EOR, a.name) && Clean(EOR, a.id) && CleanDict(a.dict)
    ensures Parseable(a.ToString())
    ensures Parse(a.ToString()).keys == [ACTION, ACTION_ID] + a.dict.keys
    ensures forall k :: k in a.dict.keys && k != ACTION && k != ACTION_ID ==>
                          Parse(a.ToString()).GetValue(k) == Some(a.dict.Shown(k))
  {
    hide Find, Read, Lines, FirstWins, Print;
    ActionEntries(a);
    CleanRoundTrip(a.dict);
    var es := Header(a) + Shows(a.dict);
    assert KeysOf(es) == [ACTION, ACTION_ID] + a.dict.keys;
    forall k | k in a.dict.keys && k != ACTION && k != ACTION_ID
      ensures Parse(a.ToString()).GetValue(k) == Some(a.dict.Shown(k))
    {
      assert k in KeysOf(es);
      FirstWinsFrom(es, k);
      assert FirstIndex(es, k) >= 2;
    }
  }

  /** With a clean dictionary whose keys neither hold a mark nor begin with a line end, an action is one message. */
  lemma {:induction false} ActionIsFrame(a: Action)
    requires Clean(EOR, a.name) && Clean(EOR, a.id) && CleanDict(a.dict)
    ensures Framing.IsFrame(a.ToString()) <==>
            forall k :: k in a.dict.keys ==> Clean(EOM, k) && !At(EOR, k, 0)
  {
    hide Find, Lines, Line;
    var h, shown := Header(a), Shows(a.dict);
    ToStringIsLines(a);
    HeaderClean(a);
    var es := h + shown;
    assert forall i :: 2 <= i < |es| ==> es[i] == shown[i - 2];
    assert forall i :: 0 <= i < |shown| ==> shown[i].key == a.dict.keys[i] && a.dict.keys[i] in a.dict.keys;
    assert Wire.Unbroken(es) <==> forall k :: k in a.dict.keys ==> Clean(EOM, k) && !At(EOR, k, 0) by {
      if Wire.Unbroken(es) {
        forall k | k in a.dict.keys ensures Clean(EOM, k) && !At(EOR, k, 0) {
          var i :| 0 <= i < |a.dict.keys| && a.dict.keys[i] == k;
          assert es[i + 2].key == k;
        }
      }
    }
    LinesSplit(es, 2);
    assert es[..2] == h && es[2..] == shown;
    Assoc(Lines(h), Lines(shown), Chars(EOR));
    if Wire.Unbroken(es) {
      Wire.LinesFirstMark(es);
    } else {
      Wire.BrokenLinesMark(es);
    }
  }
}
