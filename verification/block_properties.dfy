/**
 * How the labels of one project block read, and what `Step` then decides,
 * for the label shapes the site shows: a decimal comma in the interest and
 * the Graydon rating, a whole number as the CreditSafe score.
 */
module BlockProperties {
  import opened Optional
  import opened JsString
  import opened JsNumber
  import opened Decimal
  import opened Scraper

  /** Turning the first comma into a point, in `whole,fraction`. */
  lemma CommaBecomesPoint(whole: string, fraction: string)
    requires AllDigits(whole)
    ensures ReplaceFirst(whole + "," + fraction, ',', '.') == whole + "." + fraction
  {
    var s := whole + "," + fraction;
    assert s[|whole|] == ',';
    var i := IndexOf(s, ',');
    assert i == |whole|;
    assert s[i := '.'] == whole + "." + fraction;
  }

  /** The literal `whole.fraction`, unsigned. */
  function PointLiteral(whole: string, fraction: string): (l: Literal)
    requires AllDigits(whole) && AllDigits(fraction) && |whole| + |fraction| > 0
    ensures WellFormed(l) && Render(l) == whole + "." + fraction
    ensures Value(l) == DigitsValue(whole) as real + FractionValue(fraction)
  {
    Literal(Unsigned, whole, true, fraction)
  }

  /** An interest label `whole,fraction%` reads as the number it shows. */
  lemma {:induction false} InterestReadsDecimalComma(b: Block, whole: string, fraction: string)
    requires AllDigits(whole) && AllDigits(fraction) && |whole| + |fraction| > 0
    requires b.interest == whole + "," + fraction + "%"
    ensures Interest(b).Finite? && Interest(b).value == DigitsValue(whole) as real + FractionValue(fraction)
  {
    var dropped := DropLast(b.interest);
    assert dropped == whole + "," + fraction;
    CommaBecomesPoint(whole, fraction);
    var l := PointLiteral(whole, fraction);
    var text := ReplaceFirst(dropped, ',', '.');
    assert text == Render(l) + [];
    ParseFloatReadsLiteral(l, []);
    assert ParseFloat(text) == Finite(Value(l));
    assert Interest(b) == ParseFloat(text);
    assert Value(l) == DigitsValue(whole) as real + FractionValue(fraction);
  }

  /** A rating label `whole,fraction` reads as the number it shows. */
  lemma {:induction false} RatingReadsDecimalComma(b: Block, whole: string, fraction: string)
    requires AllDigits(whole) && AllDigits(fraction) && |whole| + |fraction| > 0
    requires b.rating == whole + "," + fraction
    ensures Rating(b).Finite? && Rating(b).value == DigitsValue(whole) as real + FractionValue(fraction)
  {
    CommaBecomesPoint(whole, fraction);
    var l := PointLiteral(whole, fraction);
    var text := ReplaceFirst(b.rating, ',', '.');
    assert text == Render(l);
    RenderUnpadded(l);
    TrimKeepsUnpadded(text);
    ToNumberReadsLiteral(text, l);
    assert ToNumber(text) == Finite(Value(l));
  }

  /** A CreditSafe label of digits reads as their value. */
  lemma {:induction false} CreditReadsWholeNumber(b: Block, digits: string)
    requires AllDigits(digits) && digits != []
    requires b.credit == digits
    ensures Credit(b).Finite? && Credit(b).value == DigitsValue(digits) as real
  {
    var l := Literal(Unsigned, digits, false, "");
    assert Render(l) == digits;
    RenderUnpadded(l);
    TrimKeepsUnpadded(digits);
    ToNumberReadsLiteral(digits, l);
  }

  /** Every literal shows at least one digit. */
  lemma LiteralHasDigit(l: Literal)
    requires WellFormed(l)
    ensures !NoDigits(Render(l))
  {
    var n := |SignText(l.sign)|;
    if l.whole != [] {
      assert Render(l)[n] == l.whole[0];
    } else {
      assert Render(l)[n + 1] == l.fraction[0];
    }
  }

  /** `parseFloat` of a string without a digit is NaN. */
  lemma ParseFloatWithoutDigits(s: string)
    requires NoDigits(s)
    ensures ParseFloat(s).NaN?
  {
    var t := TrimStart(s);
    assert NoDigits(t);
    forall l | WellFormed(l)
      ensures !(Render(l) <= t)
    {
      LiteralHasDigit(l);
    }
    ParseFloatNaN(s);
  }

  /** An interest label without a digit reads as NaN. */
  lemma {:induction false} InterestWithoutDigitsIsNaN(b: Block)
    requires NoDigits(b.interest)
    ensures Interest(b).NaN?
  {
    var dropped := DropLast(b.interest);
    assert NoDigits(dropped) by {
      if b.interest != [] {
        assert dropped == b.interest[..|b.interest| - 1];
      }
    }
    var replaced := ReplaceFirst(dropped, ',', '.');
    assert NoDigits(replaced);
    ParseFloatWithoutDigits(replaced);
  }

  /** An unreadable interest passes the yield gate: a new, low-risk block
      whose interest reads as NaN (as a label without a digit does, by
      `InterestWithoutDigitsIsNaN`) and that has month digits is accepted,
      with NaN as both its interest and its adjusted yield. */
  lemma NaNInterestIsAccepted(s: Store, b: Block, f: Fields)
    requires IsNew(s, f) && !HighDefaultRisk(f)
    requires f.interest.NaN? && f.months.Some?
    ensures var r := Step(s, b, f);
            && r.outcome.Accepted?
            && r.outcome.project.interest.NaN?
            && r.outcome.project.adjusted.NaN?
            && r.store == s[f.id.value := r.outcome.project]
  {
  }

  /** A blank CreditSafe label counts as 0 and so rejects a new block. */
  lemma BlankCreditIsHighRisk(s: Store, b: Block)
    requires ProjectId(b).Some? && ProjectId(b).value !in s
    requires AllSpace(b.credit)
    ensures Step(s, b, Read(b)).outcome == HighRisk
  {
    TrimAllSpace(b.credit);
    assert Credit(b) == Finite(0.0);
    assert HighDefaultRisk(Read(b));
  }

  /** Rounding to cents twice is rounding once: the stored yield is already
      a whole number of cents. */
  lemma CentsIsIdempotent(x: Number)
    ensures Cents(Cents(x)) == Cents(x)
  {
    var c := Cents(x);
    if c.Finite? {
      var n := (c.value * 100.0).Floor;
      assert c.value * 100.0 == n as real;
      assert Mul(c, 100.0) == Finite(n as real);
      assert (n as real + 0.5).Floor == n;
      assert Round(Finite(n as real)) == Finite(n as real);
    }
  }

  /** The label `6,50%` reads as 6.5. */
  lemma InterestSixFifty(b: Block)
    requires b.interest == "6,50%"
    ensures Interest(b).Finite? && Interest(b).value == 6.5
  {
    assert b.interest == "6" + "," + "50" + "%";
    InterestReadsDecimalComma(b, "6", "50");
    SixFiftyValue();
  }

  lemma SixFiftyValue()
    ensures DigitsValue("6") as real + FractionValue("50") == 6.5
  {
    assert "50"[1..] == "0";
  }

  lemma OneTwoValue()
    ensures "1,2" == "1" + "," + "2" && AllDigits("1") && AllDigits("2")
    ensures DigitsValue("1") as real + FractionValue("2") == 1.2
  {
  }

  lemma SeventyFiveValue()
    ensures AllDigits("75") && DigitsValue("75") == 75
  {
  }

  /** A new block with rating `1,2`, CreditSafe score `75` and interest
      `6,50%` passes both gates and is stored with an adjusted yield of
      6.5 - 0.9 - 2.0 = 3.6. */
  lemma SixFiftyIsAccepted(s: Store, b: Block)
    requires ProjectId(b).Some? && ProjectId(b).value !in s
    requires b.rating == "1,2" && b.credit == "75" && b.interest == "6,50%"
    requires !NoDigits(b.duration)
    ensures var r := Step(s, b, Read(b));
            && r.outcome.Accepted?
            && r.outcome.project.adjusted.Finite?
            && r.outcome.project.adjusted.value == 3.6
            && r.store == s[ProjectId(b).value := r.outcome.project]
  {
    InterestSixFifty(b);
    OneTwoValue();
    RatingReadsDecimalComma(b, "1", "2");
    SeventyFiveValue();
    CreditReadsWholeNumber(b, "75");
    StepAcceptsSixFifty(s, b, Read(b));
  }

  /** The gates and the rounding on the figures 1.2, 75 and 6.5. */
  lemma StepAcceptsSixFifty(s: Store, b: Block, f: Fields)
    requires f.id.Some? && f.id.value !in s && f.months.Some?
    requires f.rating.Finite? && f.rating.value == 1.2
    requires f.credit.Finite? && f.credit.value == 75.0
    requires f.interest.Finite? && f.interest.value == 6.5
    ensures var r := Step(s, b, f);
            && r.outcome.Accepted?
            && r.outcome.project.adjusted.Finite?
            && r.outcome.project.adjusted.value == 3.6
            && r.store == s[f.id.value := r.outcome.project]
  {
    assert !HighDefaultRisk(f);
    var adjusted := Adjusted(f.interest);
    assert adjusted.Finite? && adjusted.value == 3.6;
    var scaled := Mul(adjusted, 100.0);
    assert scaled.Finite? && scaled.value == 360.0;
    assert (scaled.value + 0.5).Floor == 360;
    assert Cents(adjusted).value == 3.6;
  }
}
