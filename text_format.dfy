/** The text of one saved line, "P<k>\t<x>\t<y>\n" or "D<i>\t<x>\t<y>\n", with
    numbers in decimal (GUI/imageviewer.cpp:116, 124), and a decoder that
    reads such a line back, so that each line is shown to determine its record. */
module TextFormat {
  import opened Annotation
  import opened Export

  datatype Option<T> = None | Some(value: T)

  predicate IsDigit(c: char)
  {
    '0' <= c <= '9'
  }

  predicate AllDigits(s: string)
  {
    forall k :: 0 <= k < |s| ==> IsDigit(s[k])
  }

  function DigitChar(d: nat): char
    requires d < 10
  {
    (d + '0' as int) as char
  }

  /** The decimal digits of n, most significant first, without leading zeros. */
  function NatToString(n: nat): string
    decreases n
  {
    if n < 10 then [DigitChar(n)] else NatToString(n / 10) + [DigitChar(n % 10)]
  }

  /** The decimal form of n, with a leading '-' when n is negative. */
  function IntToString(n: int): string
  {
    if n < 0 then "-" + NatToString(-n) else NatToString(n)
  }

  /** The value of a string of decimal digits. */
  function DigitsValue(s: string): nat
    requires AllDigits(s)
    decreases |s|
  {
    if s == [] then 0 else 10 * DigitsValue(s[..|s| - 1]) + (s[|s| - 1] as int - '0' as int)
  }

  function ParseNat(s: string): Option<nat>
  {
    if s != [] && AllDigits(s) then Some(DigitsValue(s)) else None
  }

  function ParseInt(s: string): Option<int>
  {
    if s != [] && s[0] == '-' then
      match ParseNat(s[1..])
      case Some(n) => Some(-(n as int))
      case None => None
    else
      match ParseNat(s)
      case Some(n) => Some(n)
      case None => None
  }

  /** The index of the first `c` in s, or |s| when there is none. */
  function IndexOf(s: string, c: char): (r: nat)
    ensures r <= |s|
    ensures forall k :: 0 <= k < r ==> s[k] != c
    ensures r < |s| ==> s[r] == c
    decreases |s|
  {
    if s == [] then 0 else if s[0] == c then 0 else 1 + IndexOf(s[1..], c)
  }

  function Tag(kind: Kind): char
  {
    match kind
    case PointKind => 'P'
    case DoorKind => 'D'
  }

  /** The number, x and y of a record, tab-separated. */
  function Fields(r: Record): string
  {
    NatToString(r.index) + "\t" + (IntToString(r.at.x) + "\t" + IntToString(r.at.y))
  }

  /** The text saveFile writes for one record. */
  function Line(r: Record): string
  {
    [Tag(r.kind)] + Fields(r) + "\n"
  }

  /** The text before and after the first tab of s, if s has one. */
  function SplitTab(s: string): Option<(string, string)>
  {
    var t := IndexOf(s, '\t');
    if t == |s| then None else Some((s[..t], s[t + 1..]))
  }

  /** Reads the part of a line between its tag and its newline: three
      tab-separated numbers. */
  function ParseFields(kind: Kind, body: string): Option<Record>
  {
    match SplitTab(body)
    case None => None
    case Some((f1, rest)) =>
      match SplitTab(rest)
      case None => None
      case Some((f2, f3)) =>
        match (ParseNat(f1), ParseInt(f2), ParseInt(f3))
        case (Some(i), Some(x), Some(y)) => Some(Record(kind, i, Point(x, y)))
        case _ => None
  }

  /** Reads one line back: a tag, then three tab-separated numbers, then a newline. */
  function ParseLine(s: string): Option<Record>
  {
    if |s| < 2 || s[|s| - 1] != '\n' || (s[0] != 'P' && s[0] != 'D') then None
    else ParseFields(if s[0] == 'P' then PointKind else DoorKind, s[1..|s| - 1])
  }

  lemma {:induction false} NatToStringDigits(n: nat)
    ensures NatToString(n) != [] && AllDigits(NatToString(n))
    ensures DigitsValue(NatToString(n)) == n
    decreases n
  {
    if n >= 10 {
      NatToStringDigits(n / 10);
      var s := NatToString(n);
      assert s[..|s| - 1] == NatToString(n / 10);
    }
  }

  /** Decimal rendering and parsing are inverse on all integers. */
  lemma IntRoundTrip(n: int)
    ensures ParseInt(IntToString(n)) == Some(n)
    ensures forall k :: 0 <= k < |IntToString(n)| ==> IntToString(n)[k] != '\t'
  {
    if n < 0 {
      NatToStringDigits(-n);
      assert IntToString(n)[1..] == NatToString(-n);
    } else {
      NatToStringDigits(n);
    }
  }

  /** Cutting a string at its first tab gives back the two parts it was joined from. */
  lemma SplitAtTab(a: string, rest: string)
    requires forall k :: 0 <= k < |a| ==> a[k] != '\t'
    ensures SplitTab(a + "\t" + rest) == Some((a, rest))
  {
    var s := a + "\t" + rest;
    assert forall k :: 0 <= k < |a| ==> s[k] == a[k];
    assert s[|a|] == '\t';
    assert s[..|a|] == a;
    assert s[|a| + 1..] == rest;
  }

  /** Three numbers joined by tabs read back as those numbers. */
  lemma FieldsRoundTrip(r: Record)
    ensures ParseFields(r.kind, Fields(r)) == Some(r)
  {
    NatToStringDigits(r.index);
    IntRoundTrip(r.at.x);
    IntRoundTrip(r.at.y);
    SplitAtTab(NatToString(r.index), IntToString(r.at.x) + "\t" + IntToString(r.at.y));
    SplitAtTab(IntToString(r.at.x), IntToString(r.at.y));
  }

  /** A tag, any text and a newline read back as that text's fields. */
  lemma ParseTagged(kind: Kind, m: string)
    ensures ParseLine([Tag(kind)] + m + "\n") == ParseFields(kind, m)
  {
  }

  /** Every saved line reads back as the record it was written from. */
  lemma LineRoundTrip(r: Record)
    ensures ParseLine(Line(r)) == Some(r)
  {
    ParseTagged(r.kind, Fields(r));
    FieldsRoundTrip(r);
  }

  /** Lines are injective: two records that give the same line are equal. */
  lemma LineInjective(r1: Record, r2: Record)
    requires Line(r1) == Line(r2)
    ensures r1 == r2
  {
    LineRoundTrip(r1);
    LineRoundTrip(r2);
  }
}
