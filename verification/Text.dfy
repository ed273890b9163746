/** The three wire delimiters and leftmost substring search, as std::string::find performs it. */
module Text {

  datatype Option<+T> = None | Some(value: T)

  /** EOM ends a message, EOR ends a line, SEP separates a key from its value. */
  datatype Delim = EOM | EOR | SEP

  const NPOS: int := -1

  function Chars(d: Delim): string {
    match d
    case EOM => "\r\n\r\n"
    case EOR => "\r\n"
    case SEP => ": "
  }

  function Len(d: Delim): nat {
    match d
    case EOM => 4
    case EOR => 2
    case SEP => 2
  }

  /** The delimiter stands at offset i of s (stated by characters; AtIsSlice gives the slice form). */
  predicate At(d: Delim, s: string, i: int) {
    0 <= i <= |s| - Len(d) &&
    match d
    case EOM => s[i] == '\r' && s[i + 1] == '\n' && s[i + 2] == '\r' && s[i + 3] == '\n'
    case EOR => s[i] == '\r' && s[i + 1] == '\n'
    case SEP => s[i] == ':' && s[i + 1] == ' '
  }

  lemma {:induction false} AtIsSlice(s: string, i: nat)
    ensures At(EOM, s, i) <==> i + 4 <= |s| && s[i..i + 4] == "\r\n\r\n" == Chars(EOM)
    ensures At(EOR, s, i) <==> i + 2 <= |s| && s[i..i + 2] == "\r\n" == Chars(EOR)
    ensures At(SEP, s, i) <==> i + 2 <= |s| && s[i..i + 2] == ": " == Chars(SEP)
  {
    if i + 2 <= |s| {
      var t := s[i..i + 2];
      assert t[0] == s[i] && t[1] == s[i + 1];
      assert At(EOR, s, i) ==> t == "\r\n";
      assert At(SEP, s, i) ==> t == ": ";
    }
    if i + 4 <= |s| {
      var t := s[i..i + 4];
      assert t[0] == s[i] && t[1] == s[i + 1] && t[2] == s[i + 2] && t[3] == s[i + 3];
      assert At(EOM, s, i) ==> t == "\r\n\r\n";
    }
  }

  /** No occurrence of d starts at or after offset i. */
  ghost predicate Free(d: Delim, s: string, i: int) {
    forall j :: i <= j ==> !At(d, s, j)
  }

  /** Leftmost occurrence of d starting at or after offset i, or NPOS. */
  function Find(d: Delim, s: string, i: nat): (r: int)
    ensures r == NPOS <==> Free(d, s, i)
    ensures r != NPOS ==> i <= r <= |s| - Len(d) && At(d, s, r) && forall j :: i <= j < r ==> !At(d, s, j)
    decreases |s| - i
  {
    if i + Len(d) > |s| then NPOS
    else if At(d, s, i) then i
    else Find(d, s, i + 1)
  }

  /** A string that contains no occurrence of d. */
  predicate Clean(d: Delim, s: string) {
    Find(d, s, 0) == NPOS
  }

  lemma {:induction false} FindIs(d: Delim, s: string, i: nat, r: int)
    requires i <= r && At(d, s, r)
    requires forall j :: i <= j < r ==> !At(d, s, j)
    ensures Find(d, s, i) == r
  {
    var f := Find(d, s, i);
    assert f == NPOS ==> !At(d, s, r);
  }

  lemma {:induction false} AtShift(d: Delim, a: string, b: string, i: nat)
    ensures At(d, a + b, |a| + i) <==> At(d, b, i)
  {
  }

  lemma {:induction false} AtPrefix(d: Delim, a: string, b: string, i: nat)
    requires i + Len(d) <= |a|
    ensures At(d, a + b, i) <==> At(d, a, i)
  {
  }

  /** Searching behind a prefix is searching the remainder. */
  lemma {:induction false} FindShift(d: Delim, a: string, b: string, i: nat)
    ensures Find(d, b, i) == NPOS ==> Find(d, a + b, |a| + i) == NPOS
    ensures Find(d, b, i) != NPOS ==> Find(d, a + b, |a| + i) == |a| + Find(d, b, i)
    decreases |b| - i
  {
    AtShift(d, a, b, i);
    if i + Len(d) <= |b| && !At(d, b, i) {
      FindShift(d, a, b, i + 1);
    }
  }

  lemma {:induction false} FindSuffix(d: Delim, s: string, i: nat, k: nat)
    requires i <= |s|
    ensures Find(d, s[i..], k) == NPOS ==> Find(d, s, i + k) == NPOS
    ensures Find(d, s[i..], k) != NPOS ==> Find(d, s, i + k) == i + Find(d, s[i..], k)
  {
    FindShift(d, s[..i], s[i..], k);
    assert s[..i] + s[i..] == s;
  }

  lemma {:induction false} Assoc<T>(a: seq<T>, b: seq<T>, c: seq<T>)
    ensures a + (b + c) == (a + b) + c
  {
  }

  lemma {:induction false} HeadTail<T>(a: seq<T>, b: seq<T>)
    requires |a| > 0
    ensures [a[0]] + (a[1..] + b) == a + b
  {
  }

  lemma {:induction false} TakeNext<T>(a: seq<T>, b: seq<T>, i: nat)
    requires i < |b|
    ensures a + b[..i] + [b[i]] == a + b[..i + 1]
  {
  }

  lemma {:induction false} TakeAll<T>(a: seq<T>, b: seq<T>)
    ensures a + b[..0] == a && a + b[..|b|] == a + b
  {
  }

  lemma {:induction false} EmptyUnit<T>(a: seq<T>, b: seq<T>)
    requires |a| == 0
    ensures a + b == b && b + a == b
  {
  }

  function Concat(ss: seq<string>): string {
    if |ss| == 0 then "" else ss[0] + Concat(ss[1..])
  }

  lemma {:induction false} ConcatSnoc(ss: seq<string>, t: string)
    ensures Concat(ss + [t]) == Concat(ss) + t
  {
    if |ss| == 0 {
      assert ss + [t] == [t];
      assert Concat([t]) == t + Concat([]);
    } else {
      assert (ss + [t])[1..] == ss[1..] + [t];
      ConcatSnoc(ss[1..], t);
    }
  }
}
