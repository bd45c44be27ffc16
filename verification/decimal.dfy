/**
 * How JavaScript turns the scraper's label strings into numbers: the unary
 * `+` (ToNumber on a string) and `parseFloat`. Both read a decimal literal
 *   sign? digits* ('.' digits*)?   with at least one digit,
 * and produce its exact real value; `parseFloat` reads the longest such
 * prefix after leading white space, while `+` needs the whole trimmed string
 * to be one literal and maps the empty string to 0.
 */
module Decimal {
  import opened Optional
  import opened JsString
  import opened JsNumber

  datatype Sign = Unsigned | Plus | Minus

  /** A decimal literal as written: its sign, the digits before the point,
      whether a point is written, and the digits after it. */
  datatype Literal = Literal(sign: Sign, whole: string, point: bool, fraction: string)

  predicate WellFormed(l: Literal) {
    && AllDigits(l.whole)
    && AllDigits(l.fraction)
    && |l.whole| + |l.fraction| > 0
    && (!l.point ==> l.fraction == [])
  }

  function SignText(sign: Sign): string {
    match sign
    case Unsigned => ""
    case Plus => "+"
    case Minus => "-"
  }

  /** The text of a literal. */
  function Render(l: Literal): string {
    SignText(l.sign) + l.whole + (if l.point then "." + l.fraction else "")
  }

  function DigitValue(c: char): nat
    requires IsDigit(c)
  {
    c as int - '0' as int
  }

  /** The value of a string of decimal digits, most significant first. */
  function DigitsValue(ds: string): nat
    requires AllDigits(ds)
  {
    if ds == [] then 0 else 10 * DigitsValue(ds[..|ds| - 1]) + DigitValue(ds[|ds| - 1])
  }

  /** The value of the digits after a decimal point: `0.d1d2...`. */
  function FractionValue(ds: string): real
    requires AllDigits(ds)
  {
    if ds == [] then 0.0 else (DigitValue(ds[0]) as real + FractionValue(ds[1..])) / 10.0
  }

  /** The exact value a well-formed literal denotes. */
  function Value(l: Literal): real
    requires WellFormed(l)
  {
    var magnitude := DigitsValue(l.whole) as real + FractionValue(l.fraction);
    if l.sign == Minus then -magnitude else magnitude
  }

  /** The literal `l` starts `s` and cannot be extended: no digit follows it,
      and no point follows a literal written without one. */
  predicate Maximal(s: string, l: Literal) {
    var n := |Render(l)|;
    && n <= |s|
    && s[..n] == Render(l)
    && (n < |s| ==> !IsDigit(s[n]) && (!l.point ==> s[n] != '.'))
  }

  /** The sign written at the start of `s`, if any. */
  function ReadSign(s: string): Sign {
    if s != [] && s[0] == '+' then Plus else if s != [] && s[0] == '-' then Minus else Unsigned
  }

  /** The longest decimal literal at the very start of `s`, read greedily. */
  function Scan(s: string): (r: Option<Literal>)
    ensures r.Some? ==> WellFormed(r.value) && Maximal(s, r.value)
  {
    var sign := ReadSign(s);
    var i := |SignText(sign)|;
    assert s[..i] == SignText(sign);
    var w := LeadingDigits(s[i..]);
    var j := i + w;
    assert s[i..j] == s[i..][..w];
    if j < |s| && s[j] == '.' then
      ScanPointed(s, sign, i, j)
    else
      var l := Literal(sign, s[i..j], false, []);
      assert j < |s| ==> s[j] == s[i..][w];
      assert s[..j] == s[..i] + s[i..j];
      if w == 0 then None else Some(l)
  }

  /** The rest of `Scan` once a point follows the integer digits `s[i..j]`. */
  function ScanPointed(s: string, sign: Sign, i: nat, j: nat): (r: Option<Literal>)
    requires i <= j < |s| && s[j] == '.'
    requires s[..i] == SignText(sign) && AllDigits(s[i..j])
    ensures r.Some? ==> WellFormed(r.value) && Maximal(s, r.value)
    ensures r.None? <==> i == j && LeadingDigits(s[j + 1..]) == 0
  {
    var f := LeadingDigits(s[j + 1..]);
    var k := j + 1 + f;
    assert s[j + 1..k] == s[j + 1..][..f];
    assert k < |s| ==> s[k] == s[j + 1..][f];
    var l := Literal(sign, s[i..j], true, s[j + 1..k]);
    assert s[..k] == s[..i] + s[i..j] + [s[j]] + s[j + 1..k];
    assert Render(l) == SignText(sign) + s[i..j] + ("." + s[j + 1..k]);
    if i == j && f == 0 then None else Some(l)
  }

  /** A digit string followed by a non-digit has exactly its own length of
      leading digits. */
  lemma {:induction false} LeadingDigitsOfDigits(ds: string, tail: string)
    requires AllDigits(ds)
    requires tail == [] || !IsDigit(tail[0])
    ensures LeadingDigits(ds + tail) == |ds|
  {
    if ds != [] {
      assert (ds + tail)[1..] == ds[1..] + tail;
      LeadingDigitsOfDigits(ds[1..], tail);
    }
  }

  /** Reading back: the scanner returns exactly the literal that starts `s`
      and cannot be extended. With the contract of `Scan`, this says `Scan`
      finds the unique maximal literal prefix. */
  lemma ScanReadsMaximalLiteral(s: string, l: Literal)
    requires WellFormed(l) && Maximal(s, l)
    ensures Scan(s) == Some(l)
  {
    var i := |SignText(l.sign)|;
    var j := i + |l.whole|;
    ReadSignOfLiteral(s, l);
    WholeDigitsOfLiteral(s, l);
    if l.point {
      assert s[j] == s[..|Render(l)|][j] == '.';
      ScanPointedReadsFraction(s, l, i, j);
    } else {
      assert |Render(l)| == j;
      assert l == Literal(l.sign, s[i..j], false, []);
    }
  }

  /** The integer digits of a maximal literal are exactly the leading digits
      after its sign. */
  lemma WholeDigitsOfLiteral(s: string, l: Literal)
    requires WellFormed(l) && Maximal(s, l)
    ensures var i := |SignText(l.sign)|;
            && i + |l.whole| <= |s|
            && s[i..i + |l.whole|] == l.whole
            && LeadingDigits(s[i..]) == |l.whole|
  {
    var i := |SignText(l.sign)|;
    var j := i + |l.whole|;
    assert s[..|Render(l)|] == Render(l);
    assert s[i..j] == l.whole;
    var tail := s[j..];
    assert s[i..] == l.whole + tail;
    LeadingDigitsOfDigits(l.whole, tail);
  }

  lemma ReadSignOfLiteral(s: string, l: Literal)
    requires WellFormed(l) && Render(l) <= s
    ensures ReadSign(s) == l.sign
  {
    assert s[0] == Render(l)[0];
    if l.sign == Unsigned && l.whole == [] {
      assert Render(l)[0] == '.';
    }
  }

  lemma ScanPointedReadsFraction(s: string, l: Literal, i: nat, j: nat)
    requires WellFormed(l) && Maximal(s, l) && l.point
    requires i == |SignText(l.sign)| && j == i + |l.whole|
    requires j < |s| && s[j] == '.' && s[..i] == SignText(l.sign) && s[i..j] == l.whole
    ensures ScanPointed(s, l.sign, i, j) == Some(l)
  {
    var k := j + 1 + |l.fraction|;
    assert s[..k] == Render(l);
    assert s[j + 1..k] == l.fraction;
    assert s[j + 1..] == l.fraction + s[k..];
    LeadingDigitsOfDigits(l.fraction, s[k..]);
  }

  /** If any literal starts `s`, the scanner finds one. */
  lemma ScanFindsLiteral(s: string, l: Literal)
    requires WellFormed(l) && Render(l) <= s
    ensures Scan(s).Some?
  {
    ReadSignOfLiteral(s, l);
    var i := |SignText(l.sign)|;
    assert s[..|Render(l)|] == Render(l);
    if |l.whole| == 0 {
      assert s[i] == Render(l)[i] == '.';
      assert s[i + 1..][0] == Render(l)[i + 1] == l.fraction[0];
    } else {
      assert s[i..][0] == Render(l)[i] == l.whole[0];
    }
  }

  /** `parseFloat(s)`: the longest literal after leading white space, or NaN. */
  function ParseFloat(s: string): Number {
    match Scan(TrimStart(s))
    case None => NaN
    case Some(l) => Finite(Value(l))
  }

  /** The unary `+` on a string: 0 for a blank string, the value when the
      trimmed string is one literal, NaN otherwise. */
  function ToNumber(s: string): (r: Number)
    ensures Trim(s) == [] ==> r == Finite(0.0)
  {
    var t := Trim(s);
    if t == [] then Finite(0.0)
    else
      match Scan(t)
      case Some(l) => if |Render(l)| == |t| then Finite(Value(l)) else NaN
      case None => NaN
  }

  /** A rendered literal neither starts nor ends with white space. */
  lemma RenderUnpadded(l: Literal)
    requires WellFormed(l)
    ensures var t := Render(l); t != [] && !IsSpace(t[0]) && !IsSpace(t[|t| - 1])
  {
    var t := Render(l);
    if l.sign == Unsigned && l.whole == [] {
      assert t[0] == '.';
    }
  }

  /** `parseFloat` reads a literal back, whatever non-numeric text follows it. */
  lemma ParseFloatReadsLiteral(l: Literal, rest: string)
    requires WellFormed(l)
    requires rest == [] || (!IsDigit(rest[0]) && (!l.point ==> rest[0] != '.'))
    ensures ParseFloat(Render(l) + rest) == Finite(Value(l))
  {
    var s := Render(l) + rest;
    RenderUnpadded(l);
    assert s[0] == Render(l)[0];
    assert TrimStart(s) == s;
    assert s[..|Render(l)|] == Render(l);
    ScanReadsMaximalLiteral(s, l);
  }

  /** `parseFloat` gives NaN exactly when no literal starts the string once
      leading white space is dropped. */
  lemma ParseFloatNaN(s: string)
    ensures ParseFloat(s).NaN? <==> forall l :: WellFormed(l) ==> !(Render(l) <= TrimStart(s))
  {
    if ParseFloat(s).Finite? {
      var l := Scan(TrimStart(s)).value;
      assert WellFormed(l) && Render(l) <= TrimStart(s);
    } else {
      forall l | WellFormed(l)
        ensures !(Render(l) <= TrimStart(s))
      {
        if Render(l) <= TrimStart(s) {
          ScanFindsLiteral(TrimStart(s), l);
        }
      }
    }
  }

  /** The unary `+` reads a literal back, with or without white space
      around it. */
  lemma ToNumberReadsLiteral(s: string, l: Literal)
    requires WellFormed(l) && Trim(s) == Render(l)
    ensures ToNumber(s) == Finite(Value(l))
  {
    RenderUnpadded(l);
    assert Render(l)[..|Render(l)|] == Render(l);
    ScanReadsMaximalLiteral(Render(l), l);
  }

  /** The unary `+` gives NaN exactly when the trimmed string is neither
      empty nor a literal. */
  lemma ToNumberNaN(s: string)
    ensures ToNumber(s).NaN? <==> Trim(s) != [] && forall l :: WellFormed(l) ==> Render(l) != Trim(s)
  {
    var t := Trim(s);
    if t != [] {
      if ToNumber(s).Finite? {
        var l := Scan(t).value;
        assert Render(l) == t[..|Render(l)|] == t;
      } else {
        forall l | WellFormed(l)
          ensures Render(l) != t
        {
          if Render(l) == t {
            ScanReadsMaximalLiteral(t, l);
          }
        }
      }
    }
  }
}
