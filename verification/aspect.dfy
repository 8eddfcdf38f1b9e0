/**
 The aspect-ratio parser: text such as `"16:9"` becomes a pair of numbers,
 the first read as the long-side units and the second as the short-side
 units.
 */
module AspectRatio {
  import opened Optional
  import opened Text

  /** The parser's output. A component is `None` where the program would hold
      `NaN` (a field that is not a number) or `undefined` (a field that is not
      there at all). */
  datatype RawRatio = RawRatio(ratioLong: Option<real>, ratioShort: Option<real>)

  /** Split the text on `:`, convert every field to a number and keep the
      first two; the program's array destructuring ignores any further fields
      and leaves a missing second field undefined. */
  function ParseAspectRatio(text: string): (r: RawRatio)
    ensures ':' !in text ==> r == RawRatio(ToNumber(text), None)
    ensures ':' in text ==> r.ratioLong == ToNumber(text[..IndexOf(text, ':')])
  {
    var fields := Split(text, ':');
    RawRatio(ToNumber(fields[0]), if |fields| >= 2 then ToNumber(fields[1]) else None)
  }

  /** The long component is the text before the first `:` and the short one
      the text between the first and the second `:` (or the end); whatever
      follows a second `:` is ignored. Together with ParseAspectRatio's contract for
      text without `:` this
      covers every input text. */
  lemma {:induction false} ParseFirstTwoFields(long: string, short: string, tail: string)
    requires ':' !in long && ':' !in short
    ensures ParseAspectRatio(long + ":" + short) == RawRatio(ToNumber(long), ToNumber(short))
    ensures ParseAspectRatio(long + ":" + short + ":" + tail) == RawRatio(ToNumber(long), ToNumber(short))
  {
    var two := long + ":" + short;
    var three := long + ":" + short + ":" + tail;
    SplitFirst(long, ':', short);
    assert Split(short, ':') == [short];
    assert Split(two, ':') == [long, short];
    assert three == long + [':'] + (short + [':'] + tail);
    SplitFirst(long, ':', short + ":" + tail);
    SplitFirst(short, ':', tail);
    assert Split(three, ':')[..2] == [long, short];
  }

  /** An empty short field is not missing: `Number("")` is 0, so `16:` has
      short component 0. */
  lemma {:induction false} ParseEmptyShortField(long: string)
    requires ':' !in long
    ensures ParseAspectRatio(long + ":") == RawRatio(ToNumber(long), Some(0.0))
  {
    ParseFirstTwoFields(long, "", "");
    assert long + ":" + "" == long + ":";
  }

  /** Whole numbers written as `a:b` parse back to `a` and `b`. */
  lemma {:induction false} ParseRoundTrip(a: nat, b: nat)
    ensures ParseAspectRatio(NatToDecimal(a) + ":" + NatToDecimal(b)) == RawRatio(Some(a as real), Some(b as real))
  {
    ParseFirstTwoFields(NatToDecimal(a), NatToDecimal(b), "");
  }

  /** A decimal literal (whole digits, a point, fraction digits) holds no
      `:`. */
  lemma {:induction false} DecimalHasNoColon(whole: nat, fraction: string)
    requires AllDigits(fraction)
    ensures ':' !in NatToDecimal(whole) + "." + fraction
  {
    var s := NatToDecimal(whole) + "." + fraction;
    forall i | 0 <= i < |s|
      ensures s[i] != ':'
    {
      if i < |NatToDecimal(whole)| {
        assert IsDigit(NatToDecimal(whole)[i]);
      } else if i > |NatToDecimal(whole)| {
        assert IsDigit(fraction[i - |NatToDecimal(whole)| - 1]);
      }
    }
  }

  /** Decimal ratios written as `w1.f1:w2.f2` (such as `2.39:1.0`) parse back
      to their values. */
  lemma {:induction false} ParseDecimalRoundTrip(w1: nat, f1: string, w2: nat, f2: string)
    requires AllDigits(f1) && AllDigits(f2)
    ensures ParseAspectRatio(NatToDecimal(w1) + "." + f1 + ":" + NatToDecimal(w2) + "." + f2)
         == RawRatio(Some(w1 as real + (DigitsValue(f1) as real) / (Pow10(|f1|) as real)),
                     Some(w2 as real + (DigitsValue(f2) as real) / (Pow10(|f2|) as real)))
  {
    var a := NatToDecimal(w1) + "." + f1;
    var b := NatToDecimal(w2) + "." + f2;
    assert NatToDecimal(w1) + "." + f1 + ":" + NatToDecimal(w2) + "." + f2 == a + ":" + b;
    assert ParseAspectRatio(a + ":" + b) == RawRatio(ToNumber(a), ToNumber(b)) by {
      DecimalHasNoColon(w1, f1);
      DecimalHasNoColon(w2, f2);
      ParseFirstTwoFields(a, b, "");
    }
    ToNumberDecimal(w1, f1);
    ToNumberDecimal(w2, f2);
  }
}
