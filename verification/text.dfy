/** A value that may be missing. In the parser `None` stands for a field that
    is absent or that JavaScript's `Number` turns into `NaN`. */
module Optional {
  datatype Option<+T> = None | Some(value: T)
}

/**
 The two pieces of string handling the aspect-ratio parser relies on:
 `String.prototype.split` with a one-character separator, and `Number`
 applied to a field, restricted to unsigned decimal literals.
 */
module Text {
  import opened Optional

  /** The fields joined back together with `sep` between neighbours. */
  function Join(fields: seq<string>, sep: char): string
    requires |fields| >= 1
  {
    if |fields| == 1 then fields[0] else fields[0] + [sep] + Join(fields[1..], sep)
  }

  /** Position of the first `c` in `s`. */
  function IndexOf(s: string, c: char): (i: nat)
    requires c in s
    ensures i < |s| && s[i] == c
    ensures c !in s[..i]
  {
    if s[0] == c then 0 else 1 + IndexOf(s[1..], c)
  }

  /**
   `s.split(sep)`: the pieces between occurrences of `sep`, in order. There is
   always at least one piece (the empty string splits into one empty piece),
   no piece contains the separator, and joining the pieces gives `s` back.
   */
  function Split(s: string, sep: char): (fields: seq<string>)
    ensures |fields| >= 1
    ensures forall i :: 0 <= i < |fields| ==> sep !in fields[i]
    ensures Join(fields, sep) == s
    decreases |s|
  {
    if sep !in s then [s]
    else
      var i := IndexOf(s, sep);
      var rest := Split(s[i + 1..], sep);
      assert s == s[..i] + [sep] + s[i + 1..];
      [s[..i]] + rest
  }

  /** Split is the only way to cut `s` into separator-free pieces that join
      back to `s`. */
  lemma {:induction false} SplitUnique(s: string, sep: char, fields: seq<string>)
    requires |fields| >= 1
    requires forall i :: 0 <= i < |fields| ==> sep !in fields[i]
    requires Join(fields, sep) == s
    ensures Split(s, sep) == fields
    decreases |fields|
  {
    if |fields| == 1 {
      assert sep !in s;
    } else {
      var tail := Join(fields[1..], sep);
      assert s == fields[0] + [sep] + tail;
      assert sep in s by { assert s[|fields[0]|] == sep; }
      var i := IndexOf(s, sep);
      assert i == |fields[0]|;
      assert s[..i] == fields[0];
      assert s[i + 1..] == tail;
      SplitUnique(tail, sep, fields[1..]);
    }
  }

  /** Splitting after a separator-free first piece yields that piece followed
      by the split of the remainder. */
  lemma {:induction false} SplitFirst(first: string, sep: char, tail: string)
    requires sep !in first
    ensures Split(first + [sep] + tail, sep) == [first] + Split(tail, sep)
  {
    var rest := Split(tail, sep);
    assert Join([first] + rest, sep) == first + [sep] + tail by {
      assert ([first] + rest)[1..] == rest;
    }
    SplitUnique(first + [sep] + tail, sep, [first] + rest);
  }

  predicate IsDigit(c: char) {
    '0' <= c <= '9'
  }

  predicate AllDigits(s: string) {
    forall i :: 0 <= i < |s| ==> IsDigit(s[i])
  }

  /** Value of a string of decimal digits, most significant first. */
  function DigitsValue(s: string): (n: nat)
    requires AllDigits(s)
  {
    if s == [] then 0
    else DigitsValue(s[..|s| - 1]) * 10 + ((s[|s| - 1] as int) - ('0' as int))
  }

  function Pow10(k: nat): (p: nat)
    ensures p >= 1
  {
    if k == 0 then 1 else 10 * Pow10(k - 1)
  }

  /** The shortest decimal spelling of `n`. */
  function NatToDecimal(n: nat): (s: string)
    ensures |s| >= 1 && AllDigits(s)
    ensures DigitsValue(s) == n
  {
    var last := (('0' as int) + n % 10) as char;
    if n < 10 then
      [last]
    else
      var prefix := NatToDecimal(n / 10);
      var s := prefix + [last];
      assert s[..|s| - 1] == prefix;
      s
  }

  /**
   `Number(s)` for the unsigned decimal literals an aspect ratio is written
   in: digits, optionally followed by a point and more digits, with at least
   one digit overall (`"16"`, `"2.39"`, `"5."`, `".5"`). As in JavaScript the
   empty string converts to zero. Any other text converts to `None`, the
   model's `NaN`.
   */
  function ToNumber(s: string): (r: Option<real>)
    ensures r.Some? ==> r.value >= 0.0
    ensures r.Some? ==> forall i :: 0 <= i < |s| ==> IsDigit(s[i]) || s[i] == '.'
    ensures AllDigits(s) ==> r == Some(DigitsValue(s) as real)
  {
    if AllDigits(s) then
      Some(DigitsValue(s) as real)
    else if '.' in s then
      var i := IndexOf(s, '.');
      var whole := s[..i];
      var fraction := s[i + 1..];
      assert s == whole + ['.'] + fraction;
      if AllDigits(whole) && AllDigits(fraction) && |whole| + |fraction| >= 1 then
        Some(DigitsValue(whole) as real + (DigitsValue(fraction) as real) / (Pow10(|fraction|) as real))
      else
        None
    else
      None
  }

  /** Writing a whole number in decimal and converting it back gives the same
      number. */
  lemma {:induction false} ToNumberRoundTrip(n: nat)
    ensures ToNumber(NatToDecimal(n)) == Some(n as real)
  {
  }

  /** A decimal fraction written as whole digits, a point and fraction digits
      converts to the whole part plus the fraction digits scaled down by their
      count. */
  lemma {:induction false} ToNumberDecimal(whole: nat, fraction: string)
    requires AllDigits(fraction)
    ensures ToNumber(NatToDecimal(whole) + "." + fraction)
         == Some(whole as real + (DigitsValue(fraction) as real) / (Pow10(|fraction|) as real))
  {
    var w := NatToDecimal(whole);
    var s := w + "." + fraction;
    assert s[|w|] == '.';
    assert !AllDigits(s);
    assert '.' !in w;
    var i := IndexOf(s, '.');
    assert i == |w|;
    assert s[..i] == w;
    assert s[i + 1..] == fraction;
  }
}
