/** Line and triangle index records and their textual form: a triangle
    prints as "A B C" and a list of triangles as those strings joined by
    single spaces. A parser for that form is the partner of the printer. */
module IndexRecords {
  import opened Results

  /** A line segment between two vertex-pool indices. */
  datatype LineSegmentIndices = LineSegmentIndices(a: nat, b: nat)

  /** A triangle over three vertex-pool indices, in winding order. */
  datatype TriangleIndices = TriangleIndices(a: nat, b: nat, c: nat)

  predicate IsDigit(ch: char) {
    '0' <= ch <= '9'
  }

  /** A non-empty string of decimal digits. */
  predicate IsNumeral(s: string) {
    |s| > 0 && forall i :: 0 <= i < |s| ==> IsDigit(s[i])
  }

  function DigitChar(d: nat): (ch: char)
    requires d < 10
    ensures IsDigit(ch) && ch as int - '0' as int == d
  {
    ('0' as int + d) as char
  }

  /** The decimal form of a non-negative integer, without leading zeros. */
  function NatToString(n: nat): (s: string)
    ensures IsNumeral(s)
    ensures s[0] == '0' ==> s == "0"
    decreases n
  {
    if n < 10 then [DigitChar(n)] else NatToString(n / 10) + [DigitChar(n % 10)]
  }

  /** The value of a string of decimal digits. */
  function NumeralValue(s: string): nat
    requires forall i :: 0 <= i < |s| ==> IsDigit(s[i])
    decreases |s|
  {
    if |s| == 0 then 0
    else 10 * NumeralValue(s[..|s| - 1]) + DigitValue(s[|s| - 1])
  }

  function DigitValue(ch: char): (d: nat)
    requires IsDigit(ch)
    ensures d < 10
  {
    ch as int - '0' as int
  }

  /** Reading back a printed number yields the number. */
  lemma {:induction false} NumeralRoundTrip(n: nat)
    ensures NumeralValue(NatToString(n)) == n
    decreases n
  {
    if n >= 10 {
      var s := NatToString(n);
      NumeralRoundTrip(n / 10);
      assert s[..|s| - 1] == NatToString(n / 10);
    }
  }

  /** string.Join(" ", parts): the pieces in order, a single space between
      each two; the result begins with the first piece. */
  function JoinSpaced(parts: seq<string>): (r: string)
    ensures |parts| > 0 ==> parts[0] <= r
    decreases |parts|
  {
    if |parts| == 0 then ""
    else if |parts| == 1 then parts[0]
    else parts[0] + " " + JoinSpaced(parts[1..])
  }

  /** string.Split(' '): the pieces between single spaces, empty ones included. */
  function SplitSpaces(s: string): (parts: seq<string>)
    ensures |parts| > 0
    decreases |s|
  {
    if |s| == 0 then [""]
    else
      var rest := SplitSpaces(s[1..]);
      if s[0] == ' ' then [""] + rest else [[s[0]] + rest[0]] + rest[1..]
  }

  predicate NoSpace(s: string) {
    forall i :: 0 <= i < |s| ==> s[i] != ' '
  }

  lemma {:induction false} SplitWord(w: string)
    requires NoSpace(w)
    ensures SplitSpaces(w) == [w]
    decreases |w|
  {
    if |w| > 0 {
      SplitWord(w[1..]);
      assert [w[0]] + w[1..] == w;
    }
  }

  lemma {:induction false} SplitWordThenSpace(w: string, rest: string)
    requires NoSpace(w)
    ensures SplitSpaces(w + " " + rest) == [w] + SplitSpaces(rest)
    decreases |w|
  {
    if |w| == 0 {
      assert w + " " + rest == " " + rest;
      assert (" " + rest)[1..] == rest;
    } else {
      var s := w + " " + rest;
      assert s[1..] == w[1..] + " " + rest;
      SplitWordThenSpace(w[1..], rest);
      assert [w[0]] + w[1..] == w;
    }
  }

  /** Splitting a join of space-free pieces gives the pieces back. */
  lemma {:induction false} SplitJoin(parts: seq<string>)
    requires |parts| > 0
    requires forall i :: 0 <= i < |parts| ==> NoSpace(parts[i])
    ensures SplitSpaces(JoinSpaced(parts)) == parts
    decreases |parts|
  {
    if |parts| == 1 {
      SplitWord(parts[0]);
    } else {
      SplitWordThenSpace(parts[0], JoinSpaced(parts[1..]));
      SplitJoin(parts[1..]);
    }
  }

  lemma {:induction false} JoinAppend(xs: seq<string>, ys: seq<string>)
    requires |xs| > 0 && |ys| > 0
    ensures JoinSpaced(xs + ys) == JoinSpaced(xs) + " " + JoinSpaced(ys)
    decreases |xs|
  {
    if |xs| > 1 {
      assert (xs + ys)[1..] == xs[1..] + ys;
      JoinAppend(xs[1..], ys);
    }
  }

  /** TriangleIndices.ToString: "A B C", which reads back as A, B and C in
      that order. */
  function TriangleString(t: TriangleIndices): (r: string)
    ensures ParseIndices(r) == Some([t.a, t.b, t.c])
  {
    var a, b, c := NatToString(t.a), NatToString(t.b), NatToString(t.c);
    assert ParseIndices(a + " " + b + " " + c) == Some([t.a, t.b, t.c]) by {
      assert Numerals([t.a, t.b, t.c]) == [a, b, c];
      JoinThree(a, b, c);
      PrintedNumeralsRoundTrip([t.a, t.b, t.c]);
    }
    a + " " + b + " " + c
  }

  /** The printed triangle is the join of its three printed indices. */
  lemma TriangleStringJoined(t: TriangleIndices)
    ensures TriangleString(t) == JoinSpaced(Numerals([t.a, t.b, t.c]))
  {
    assert Numerals([t.a, t.b, t.c]) == [NatToString(t.a), NatToString(t.b), NatToString(t.c)];
    JoinThree(NatToString(t.a), NatToString(t.b), NatToString(t.c));
  }

  lemma JoinThree(a: string, b: string, c: string)
    ensures JoinSpaced([a, b, c]) == a + " " + b + " " + c
  {
    assert [a, b, c][1..] == [b, c] && [b, c][1..] == [c];
    assert JoinSpaced([b, c]) == b + " " + c;
    assert JoinSpaced([a, b, c]) == a + " " + (b + " " + c);
  }

  /** The list of triangles, each printed, joined by single spaces: the
      canonical numerals of all their indices, three per triangle, joined. */
  function IndexString(tris: seq<TriangleIndices>): (r: string)
    ensures ParseIndices(r) == Some(Flatten(tris))
    ensures r == JoinSpaced(Numerals(Flatten(tris)))
  {
    if |tris| > 0 then
      TrianglesAreJoinedNumerals(tris);
      PrintedNumeralsRoundTrip(Flatten(tris));
      JoinSpaced(TriangleStrings(tris))
    else
      JoinSpaced(TriangleStrings(tris))
  }

  function TriangleStrings(tris: seq<TriangleIndices>): (r: seq<string>)
    ensures |r| == |tris|
    ensures forall i :: 0 <= i < |tris| ==> r[i] == TriangleString(tris[i])
    decreases |tris|
  {
    if |tris| == 0 then [] else [TriangleString(tris[0])] + TriangleStrings(tris[1..])
  }

  /** The indices of the triangles in recording order, three per triangle. */
  function Flatten(tris: seq<TriangleIndices>): (r: seq<nat>)
    ensures |r| == 3 * |tris|
    decreases |tris|
  {
    if |tris| == 0 then [] else [tris[0].a, tris[0].b, tris[0].c] + Flatten(tris[1..])
  }

  function Numerals(xs: seq<nat>): (r: seq<string>)
    ensures |r| == |xs|
    ensures forall i :: 0 <= i < |xs| ==> r[i] == NatToString(xs[i])
    decreases |xs|
  {
    if |xs| == 0 then [] else [NatToString(xs[0])] + Numerals(xs[1..])
  }

  /** Reads a string of space-separated decimal numbers; the empty string is
      the empty list, any other piece that is not a numeral is an error. */
  function ParseIndices(s: string): Option<seq<nat>> {
    if s == "" then Some([]) else ParseNumerals(SplitSpaces(s))
  }

  function ParseNumerals(parts: seq<string>): Option<seq<nat>>
    decreases |parts|
  {
    if |parts| == 0 then Some([])
    else if !IsNumeral(parts[0]) then None
    else
      match ParseNumerals(parts[1..])
      case None => None
      case Some(rest) => Some([NumeralValue(parts[0])] + rest)
  }

  lemma {:induction false} ParsePrintedNumerals(xs: seq<nat>)
    ensures ParseNumerals(Numerals(xs)) == Some(xs)
    decreases |xs|
  {
    if |xs| > 0 {
      NumeralRoundTrip(xs[0]);
      assert Numerals(xs)[1..] == Numerals(xs[1..]);
      ParsePrintedNumerals(xs[1..]);
      assert [xs[0]] + xs[1..] == xs;
    }
  }

  /** Reading a space-joined list of printed numbers gives the numbers back. */
  lemma PrintedNumeralsRoundTrip(xs: seq<nat>)
    requires |xs| > 0
    ensures ParseIndices(JoinSpaced(Numerals(xs))) == Some(xs)
  {
    var parts := Numerals(xs);
    assert forall i :: 0 <= i < |parts| ==> NoSpace(parts[i]);
    SplitJoin(parts);
    ParsePrintedNumerals(xs);
  }

  /** The joined triangle strings are the numerals of the flattened
      indices, joined. */
  lemma {:induction false} TrianglesAreJoinedNumerals(tris: seq<TriangleIndices>)
    requires |tris| > 0
    ensures JoinSpaced(TriangleStrings(tris)) == JoinSpaced(Numerals(Flatten(tris)))
    decreases |tris|
  {
    var t := tris[0];
    var head := Numerals([t.a, t.b, t.c]);
    TriangleStringJoined(t);
    if |tris| == 1 {
      assert Flatten(tris) == [t.a, t.b, t.c];
    } else {
      var rest := tris[1..];
      var tail := Numerals(Flatten(rest));
      assert JoinSpaced(TriangleStrings(tris)) == TriangleString(t) + " " + JoinSpaced(TriangleStrings(rest)) by {
        assert TriangleStrings(tris)[1..] == TriangleStrings(rest);
      }
      assert JoinSpaced(TriangleStrings(rest)) == JoinSpaced(tail) by {
        TrianglesAreJoinedNumerals(rest);
      }
      assert JoinSpaced(Numerals(Flatten(tris))) == JoinSpaced(head) + " " + JoinSpaced(tail) by {
        assert Numerals(Flatten(tris)) == head + tail;
        JoinAppend(head, tail);
      }
    }
  }

  lemma {:induction false} FlattenInjective(xs: seq<TriangleIndices>, ys: seq<TriangleIndices>)
    requires Flatten(xs) == Flatten(ys)
    ensures xs == ys
    decreases |xs|
  {
    if |xs| > 0 {
      var fx := Flatten(xs);
      var fy := Flatten(ys);
      assert fx[..3] == [xs[0].a, xs[0].b, xs[0].c];
      assert fy[..3] == [ys[0].a, ys[0].b, ys[0].c];
      assert fx[3..] == Flatten(xs[1..]);
      assert fy[3..] == Flatten(ys[1..]);
      FlattenInjective(xs[1..], ys[1..]);
      assert xs == [xs[0]] + xs[1..];
      assert ys == [ys[0]] + ys[1..];
    }
  }

  /** The printed form loses nothing: equal strings mean equal triangle lists. */
  lemma IndexStringInjective(xs: seq<TriangleIndices>, ys: seq<TriangleIndices>)
    requires IndexString(xs) == IndexString(ys)
    ensures xs == ys
  {
    FlattenInjective(xs, ys);
  }
}
