/** The RGB colour value of 3_5_State_and_Motion/color.py: componentwise
    addition and the text of its representation. */
module Colors {
  import opened Outcomes

  /** A `Color` object: the constructor stores r, g and b unchanged. */
  datatype Color = Color(r: int, g: int, b: int)

  /** `a + b`: a new colour holding the componentwise sums. */
  function Add(a: Color, c: Color): (s: Color)
    ensures s.r - c.r == a.r && s.g - c.g == a.g && s.b - c.b == a.b
  {
    Color(a.r + c.r, a.g + c.g, a.b + c.b)
  }

  lemma AddCommutative(a: Color, c: Color)
    ensures Add(a, c) == Add(c, a)
  {
  }

  lemma AddAssociative(a: Color, c: Color, d: Color)
    ensures Add(Add(a, c), d) == Add(a, Add(c, d))
  {
  }

  /** Black is the neutral element, and adding its negation cancels a colour. */
  lemma AddNeutral(a: Color)
    ensures Add(a, Color(0, 0, 0)) == a == Add(Color(0, 0, 0), a)
    ensures Add(a, Color(-a.r, -a.g, -a.b)) == Color(0, 0, 0)
  {
  }

  // ---------------------------------------------------------------------
  // Decimal text of an int, as Python's `str(int)` / f-string writes it.

  predicate IsDigit(ch: char)
  {
    '0' <= ch <= '9'
  }

  function DigitChar(d: int): (ch: char)
    requires 0 <= d < 10
    ensures IsDigit(ch) && ch as int - '0' as int == d
  {
    ['0', '1', '2', '3', '4', '5', '6', '7', '8', '9'][d]
  }

  /** Decimal digits of n, most significant first. */
  function NatToString(n: nat): (s: string)
    ensures |s| > 0 && forall i :: 0 <= i < |s| ==> IsDigit(s[i])
  {
    if n < 10 then [DigitChar(n)] else NatToString(n / 10) + [DigitChar(n % 10)]
  }

  /** `str(n)`: a minus sign before the digits of a negative number. */
  function IntToString(n: int): (s: string)
    ensures IsIntText(s) && (s[0] == '-' <==> n < 0)
  {
    if n < 0 then "-" + NatToString(-n) else NatToString(n)
  }

  predicate AllDigits(s: string)
  {
    |s| > 0 && forall i :: 0 <= i < |s| ==> IsDigit(s[i])
  }

  /** Text a decimal int is read back from: digits, optionally after '-'. */
  predicate IsIntText(s: string)
  {
    |s| > 0 && (if s[0] == '-' then AllDigits(s[1..]) else AllDigits(s))
  }

  function ParseNat(s: string): nat
    requires AllDigits(s)
  {
    var d := s[|s| - 1] as int - '0' as int;
    if |s| == 1 then d else ParseNat(s[..|s| - 1]) * 10 + d
  }

  function ParseInt(s: string): int
    requires IsIntText(s)
  {
    if s[0] == '-' then -(ParseNat(s[1..]) as int) else ParseNat(s)
  }

  lemma {:induction false} ParseNatToString(n: nat)
    ensures ParseNat(NatToString(n)) == n
  {
    if n >= 10 {
      var s := NatToString(n);
      assert s[..|s| - 1] == NatToString(n / 10);
      ParseNatToString(n / 10);
    }
  }

  /** Reading back the text of an int gives the int. */
  lemma ParseIntToString(n: int)
    ensures IsIntText(IntToString(n)) && ParseInt(IntToString(n)) == n
  {
    if n < 0 {
      ParseNegative(n);
    } else {
      ParseNonNegative(n);
    }
  }

  lemma ParseNonNegative(n: int)
    requires n >= 0
    ensures IsIntText(IntToString(n)) && ParseInt(IntToString(n)) == n
  {
    var t := NatToString(n);
    assert IntToString(n) == t && IsDigit(t[0]);
    ParseNatToString(n);
  }

  lemma ParseNegative(n: int)
    requires n < 0
    ensures IsIntText(IntToString(n)) && ParseInt(IntToString(n)) == n
  {
    ParseNatToString(-n);
    NegativeText(n);
    ParseMinus(IntToString(n), NatToString(-n), n);
  }

  lemma NegativeText(n: int)
    requires n < 0
    ensures IntToString(n) == "-" + NatToString(-n)
  {
  }

  /** '-' before the digits of -v reads back as v. */
  lemma ParseMinus(s: string, t: string, v: int)
    requires s == "-" + t && AllDigits(t) && ParseNat(t) == -v
    ensures IsIntText(s) && ParseInt(s) == v
  {
    assert s[0] == '-' && s[1..] == t;
  }

  /** No text of an int holds a character other than a digit or '-'. */
  lemma IntTextChars(n: int, ch: char)
    requires !IsDigit(ch) && ch != '-'
    ensures ch !in IntToString(n)
  {
    if n < 0 {
      assert forall i :: 1 <= i < |IntToString(n)| ==> IntToString(n)[i] == NatToString(-n)[i - 1];
    }
  }

  // ---------------------------------------------------------------------
  // The representation and its reader.

  /** Position of the first ch in s, or |s| when there is none. */
  function IndexOf(s: string, ch: char): (k: nat)
    ensures k <= |s|
    ensures forall i :: 0 <= i < k ==> s[i] != ch
    ensures k < |s| ==> s[k] == ch
  {
    if |s| == 0 || s[0] == ch then 0 else 1 + IndexOf(s[1..], ch)
  }

  lemma {:induction false} IndexOfAfter(u: string, t: string, ch: char)
    requires ch !in u
    ensures IndexOf(u + t, ch) == |u| + IndexOf(t, ch)
  {
    if |u| > 0 {
      assert (u + t)[1..] == u[1..] + t;
      assert u[0] in u;
      IndexOfAfter(u[1..], t, ch);
    } else {
      assert u + t == t;
    }
  }

  /** The `"<key><int>"` field at the front of s, ending just before the
      first `stop`: its value and the text from `stop` on. */
  function Field(s: string, key: string, stop: char): Option<(int, string)>
  {
    if |s| < |key| || s[..|key|] != key then None
    else
      var rest := s[|key|..];
      var k := IndexOf(rest, stop);
      if k == |rest| || !IsIntText(rest[..k]) then None
      else Some((ParseInt(rest[..k]), rest[k..]))
  }

  /** `repr(c)` with the swatch drawing left aside: `Color(r=<r>, g=<g>, b=<b>)`. */
  function Repr(c: Color): (s: string)
    ensures |s| > 9 && s[..8] == "Color(r=" && s[|s| - 1] == ')'
  {
    "Color(r=" + IntToString(c.r) + ", g=" + IntToString(c.g) + ", b=" + IntToString(c.b) + ")"
  }

  /** Reads a colour back from its representation. */
  function ParseRepr(s: string): Option<Color>
  {
    match Field(s, "Color(r=", ',')
    case None => None
    case Some((r, s1)) =>
      match Field(s1, ", g=", ',')
      case None => None
      case Some((g, s2)) =>
        match Field(s2, ", b=", ')')
        case None => None
        case Some((b, s3)) => if s3 == ")" then Some(Color(r, g, b)) else None
  }

  lemma FieldOf(key: string, n: int, rest: string, stop: char)
    requires !IsDigit(stop) && stop != '-'
    requires |rest| > 0 && rest[0] == stop
    ensures Field(key + IntToString(n) + rest, key, stop) == Some((n, rest))
  {
    var t := IntToString(n);
    var s := key + t + rest;
    assert s[..|key|] == key;
    assert s[|key|..] == t + rest;
    IntTextChars(n, stop);
    SplitAtStop(t, rest, stop);
    ParseIntToString(n);
  }

  /** Text free of stop, followed by text starting with stop, splits at the
      first stop back into the two parts. */
  lemma SplitAtStop(t: string, rest: string, stop: char)
    requires stop !in t && |rest| > 0 && rest[0] == stop
    ensures IndexOf(t + rest, stop) == |t|
    ensures (t + rest)[..|t|] == t && (t + rest)[|t|..] == rest
  {
    IndexOfAfter(t, rest, stop);
    assert IndexOf(rest, stop) == 0;
  }

  /** The representation can be read back, so distinct colours print
      differently. */
  lemma ParseReprOfRepr(c: Color)
    ensures ParseRepr(Repr(c)) == Some(c)
  {
    var tail3 := ")";
    var tail2 := ", b=" + IntToString(c.b) + tail3;
    var tail1 := ", g=" + IntToString(c.g) + tail2;
    assert Repr(c) == "Color(r=" + IntToString(c.r) + tail1;
    FieldOf("Color(r=", c.r, tail1, ',');
    FieldOf(", g=", c.g, tail2, ',');
    FieldOf(", b=", c.b, tail3, ')');
  }

  lemma ReprInjective(c: Color, d: Color)
    requires Repr(c) == Repr(d)
    ensures c == d
  {
    ParseReprOfRepr(c);
    ParseReprOfRepr(d);
  }
}
