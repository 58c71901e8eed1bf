/** The pieces of the C library that decodeDate and encodeDate are written
    with: sscanf with `%Nd` conversions, ordinary characters and white space
    in the format, and snprintf's `%0Nd`. Only these directives are modelled;
    the values are small enough (at most four characters are read per field)
    that no C integer overflows. */
module CFormat {
  import opened VCardTypes

  /** isspace in the C locale. */
  predicate IsSpace(c: char)
  {
    c == ' ' || c == '\t' || c == '\n' || c == '\U{0B}' || c == '\U{0C}' || c == '\r'
  }

  predicate AllDigits(s: string)
  {
    forall i :: 0 <= i < |s| ==> IsDigit(s[i])
  }

  function Pow10(n: nat): (p: nat)
    ensures p >= 1
  {
    if n == 0 then 1 else 10 * Pow10(n - 1)
  }

  /** Powers of ten grow with the exponent; for the width bounds of FormatInt. */
  lemma {:induction false} Pow10Monotone(m: nat, n: nat)
    requires m <= n
    ensures Pow10(m) <= Pow10(n)
    decreases n
  {
    if m < n {
      Pow10Monotone(m, n - 1);
    }
  }

  /** The number of leading white-space characters. */
  function SpaceRun(s: string): (k: nat)
    ensures k <= |s|
    ensures forall i :: 0 <= i < k ==> IsSpace(s[i])
    ensures k < |s| ==> !IsSpace(s[k])
  {
    if |s| == 0 || !IsSpace(s[0]) then 0 else 1 + SpaceRun(s[1..])
  }

  /** The number of leading decimal digits, at most `max`. */
  function DigitRun(s: string, max: nat): (k: nat)
    ensures k <= max && k <= |s|
    ensures AllDigits(s[..k])
    ensures k < max && k < |s| ==> !IsDigit(s[k])
  {
    if max == 0 || |s| == 0 || !IsDigit(s[0]) then 0
    else
      var k := 1 + DigitRun(s[1..], max - 1);
      assert s[..k] == [s[0]] + s[1..][..k - 1];
      k
  }

  function DigitValue(c: char): (d: nat)
    requires IsDigit(c)
    ensures d < 10
  {
    (c as int) - ('0' as int)
  }

  function DigitChar(d: nat): (c: char)
    requires d < 10
    ensures IsDigit(c) && DigitValue(c) == d
  {
    ('0' as int + d) as char
  }

  /** The value of a string of decimal digits. */
  function DigitsValue(s: string): (v: nat)
    requires AllDigits(s)
    ensures v < Pow10(|s|)
  {
    if |s| == 0 then 0
    else
      assert AllDigits(s[..|s| - 1]);
      10 * DigitsValue(s[..|s| - 1]) + DigitValue(s[|s| - 1])
  }

  /** A `%Nd` conversion reads at most this many characters (N >= 1). */
  type Width = w: nat | w >= 1 witness 1

  /** A value read by a `%Nd` conversion fits in N characters. */
  predicate Fits(v: int, w: Width)
  {
    -(Pow10(w - 1) as int) < v < Pow10(w)
  }

  /** One `%Nd` conversion: white space is skipped, then at most N characters
      are read, an optional sign and at least one digit. The result is the
      value and the number of characters consumed; None is a matching
      failure. */
  function ScanInt(s: string, width: Width): (r: Option<(int, nat)>)
    ensures r.Some? ==> 0 < r.value.1 <= |s|
    ensures r.Some? ==> Fits(r.value.0, width)
  {
    var k := SpaceRun(s);
    var t := s[k..];
    var sign := if |t| > 0 && (t[0] == '+' || t[0] == '-') then 1 else 0;
    var n := DigitRun(t[sign..], width - sign);
    if n == 0 then None
    else
      var negative := sign == 1 && t[0] == '-';
      var v := DigitsValue(t[sign..][..n]);
      SignedFits(v, n, sign, negative, width);
      Some((if negative then 0 - v else v, k + sign + n))
  }

  /** `n` digits after `sign` sign characters, `n + sign <= width`, fit in the width. */
  lemma {:induction false} SignedFits(v: nat, n: nat, sign: nat, negative: bool, width: Width)
    requires sign <= 1 && n + sign <= width && v < Pow10(n) && (negative ==> sign == 1)
    ensures Fits(if negative then 0 - v else v, width)
  {
    Pow10Monotone(n, width - sign);
    Pow10Monotone(width - 1, width);
  }

  /** A directive of a scanf format: `%Nd`, an ordinary character, or white space. */
  datatype Directive = Conv(width: Width) | Literal(c: char) | Space

  /** The widths of a format's conversions, in order. */
  function Widths(fmt: seq<Directive>): (ws: seq<Width>)
    ensures |ws| <= |fmt|
  {
    if |fmt| == 0 then []
    else if fmt[0].Conv? then [fmt[0].width] + Widths(fmt[1..])
    else Widths(fmt[1..])
  }

  /** The widths of a concatenated format; for the pattern width lemmas. */
  lemma {:induction false} WidthsAppend(a: seq<Directive>, b: seq<Directive>)
    ensures Widths(a + b) == Widths(a) + Widths(b)
    decreases |a|
  {
    if |a| == 0 {
      assert a + b == b;
    } else {
      assert (a + b)[0] == a[0] && (a + b)[1..] == a[1..] + b;
      WidthsAppend(a[1..], b);
      if a[0].Conv? {
        assert [a[0].width] + (Widths(a[1..]) + Widths(b)) == ([a[0].width] + Widths(a[1..])) + Widths(b);
      }
    }
  }

  /** How far sscanf got: the values it assigned, in order; whether every
      directive matched; whether it stopped because the input ended. */
  datatype Run = Run(values: seq<int>, complete: bool, endOfInput: bool)

  /** sscanf's pass over the directives: white space in the format skips any
      white space in the input, an ordinary character must come next, a
      conversion reads a number. It stops at the first directive that fails. */
  function ScanRun(s: string, fmt: seq<Directive>): (r: Run)
    ensures |r.values| <= |Widths(fmt)|
    ensures forall i :: 0 <= i < |r.values| ==> Fits(r.values[i], Widths(fmt)[i])
    ensures r.complete ==> |r.values| == |Widths(fmt)| && !r.endOfInput
    decreases |fmt|
  {
    if |fmt| == 0 then Run([], true, false)
    else
      match fmt[0]
      case Space => ScanRun(s[SpaceRun(s)..], fmt[1..])
      case Literal(c) =>
        if |s| == 0 then Run([], false, true)
        else if s[0] == c then ScanRun(s[1..], fmt[1..])
        else Run([], false, false)
      case Conv(w) =>
        if SpaceRun(s) == |s| then Run([], false, true)
        else
          match ScanInt(s, w)
          case None => Run([], false, false)
          case Some((v, n)) =>
            var r := ScanRun(s[n..], fmt[1..]);
            Run([v] + r.values, r.complete, r.endOfInput)
  }

  /** sscanf's return value: the number of conversions assigned, or EOF (-1)
      when the input ended before the first conversion. */
  function Sscanf(s: string, fmt: seq<Directive>): (count: int)
    ensures count == -1 || 0 <= count <= |Widths(fmt)|
    ensures count >= 0 ==> count == |ScanRun(s, fmt).values|
  {
    var r := ScanRun(s, fmt);
    if r.endOfInput && |r.values| == 0 then -1 else |r.values|
  }

  /** The last `k` decimal digits of `n`, with leading zeros. */
  function FixedDigits(n: nat, k: nat): (s: string)
    ensures |s| == k && AllDigits(s)
  {
    if k == 0 then "" else FixedDigits(n / 10, k - 1) + [DigitChar(n % 10)]
  }

  /** The number of decimal digits of `n`. */
  function DigitCount(n: nat): (k: nat)
    ensures k >= 1
  {
    if n < 10 then 1 else 1 + DigitCount(n / 10)
  }

  function Max(a: nat, b: nat): nat
  {
    if a < b then b else a
  }

  /** snprintf's `%0Nd`: the decimal digits, after a `-` when negative, padded
      with zeros after the sign to N characters and never cut. */
  function FormatInt(n: int, width: Width): string
  {
    if n >= 0 then FixedDigits(n, Max(width, DigitCount(n)))
    else "-" + FixedDigits(-n, Max(width - 1, DigitCount(-n)))
  }

  // ---------------------------------------------------------------------
  // Properties
  // ---------------------------------------------------------------------

  /** A number below 10^k has at most k digits; for FormatIntWidth. */
  lemma {:induction false} DigitCountBound(n: nat, k: nat)
    requires k >= 1 && n < Pow10(k)
    ensures DigitCount(n) <= k
    decreases k
  {
    if n >= 10 {
      DigitCountBound(n / 10, k - 1);
    }
  }

  /** A value read by `%Nd` prints in exactly N characters with `%0Nd`. */
  lemma {:induction false} FormatIntWidth(n: int, width: Width)
    requires Fits(n, width)
    ensures |FormatInt(n, width)| == width
  {
    if n >= 0 {
      DigitCountBound(n, width);
    } else if -n >= 10 {
      DigitCountBound(-n, width - 1);
    }
  }

  /** Printing the value of `k` digits back in `k` digits gives the digits. */
  lemma {:induction false} FixedDigitsValue(s: string)
    requires AllDigits(s)
    ensures FixedDigits(DigitsValue(s), |s|) == s
    decreases |s|
  {
    if |s| > 0 {
      var init := s[..|s| - 1];
      assert AllDigits(init);
      var v := DigitsValue(s);
      assert v / 10 == DigitsValue(init) && v % 10 == DigitValue(s[|s| - 1]);
      FixedDigitsValue(init);
      assert DigitChar(DigitValue(s[|s| - 1])) == s[|s| - 1];
      assert s == init + [s[|s| - 1]];
    }
  }

  /** Round trip: `%0Nd` prints the value of N digits as those digits. */
  lemma {:induction false} FormatDigits(s: string)
    requires |s| >= 1 && AllDigits(s)
    ensures FormatInt(DigitsValue(s), |s|) == s
  {
    DigitCountBound(DigitsValue(s), |s|);
    FixedDigitsValue(s);
  }

  /** A two-digit field is zero exactly when it reads `00`. */
  lemma {:induction false} ZeroField(s: string)
    requires |s| == 2 && AllDigits(s)
    ensures DigitsValue(s) == 0 <==> s == "00"
  {
    assert s[..1][..0] == "";
    assert DigitsValue(s[..1]) == DigitValue(s[0]);
  }

  /** `%Nd` on N digits reads exactly those digits. */
  lemma {:induction false} ScanIntDigits(x: string, rest: string, width: Width)
    requires |x| == width && AllDigits(x)
    ensures ScanInt(x + rest, width) == Some((DigitsValue(x), width))
  {
    var s := x + rest;
    assert s[0] == x[0];
    assert SpaceRun(s) == 0;
    assert s[0..] == s;
    assert s[..width] == x;
  }

  /** What a run gives once `values` were assigned before it. */
  function Prepend(values: seq<int>, r: Run): Run
  {
    Run(values + r.values, r.complete, r.endOfInput)
  }

  /** Prepends compose; for the scan chaining lemmas. */
  lemma {:induction false} PrependPrepend(xs: seq<int>, ys: seq<int>, r: Run)
    ensures Prepend(xs, Prepend(ys, r)) == Prepend(xs + ys, r)
  {
    assert xs + (ys + r.values) == (xs + ys) + r.values;
  }

  /** One value in front of two in front of a run. */
  lemma {:induction false} PrependOneTwo(a: int, b: int, c: int, r: Run)
    ensures Prepend([a], Prepend([b, c], r)) == Prepend([a, b, c], r)
  {
    PrependPrepend([a], [b, c], r);
    assert [a] + [b, c] == [a, b, c];
  }

  /** A conversion over N digits assigns their value and goes on after them. */
  lemma {:induction false} ScanConv(x: string, rest: string, fmt: seq<Directive>)
    requires |fmt| > 0 && fmt[0].Conv? && |x| == fmt[0].width && AllDigits(x)
    ensures ScanRun(x + rest, fmt) == Prepend([DigitsValue(x)], ScanRun(rest, fmt[1..]))
  {
    var s := x + rest;
    assert s[0] == x[0] && !IsSpace(s[0]);
    ScanIntDigits(x, rest, fmt[0].width);
    assert s[|x|..] == rest;
  }

  /** The value a `%2d` conversion reads from a `-` and one digit. */
  function Negated(c: char): (r: int)
    requires IsDigit(c)
    ensures -9 <= r <= 0
  {
    0 - DigitValue(c)
  }

  /** `%2d` on a `-` and a digit reads the digit's negation and stops there. */
  lemma {:induction false} ScanMinusDigit(c: char, rest: string, fmt: seq<Directive>)
    requires |fmt| > 0 && fmt[0] == Conv(2) && IsDigit(c)
    ensures ScanRun("-" + [c] + rest, fmt) == Prepend([Negated(c)], ScanRun(rest, fmt[1..]))
  {
    var s := "-" + [c] + rest;
    ScanIntMinusDigit(c, rest, s);
    assert s[2..] == rest;
  }

  /** The `%2d` conversion itself on a `-` and a digit. */
  lemma {:induction false} ScanIntMinusDigit(c: char, rest: string, s: string)
    requires IsDigit(c) && s == "-" + [c] + rest
    ensures SpaceRun(s) < |s| && ScanInt(s, 2) == Some((Negated(c), 2))
  {
    assert s[0] == '-' && !IsSpace(s[0]) && s[0..] == s;
    assert s[1..] == [c] + rest && s[1..][0] == c;
    assert DigitRun(s[1..], 1) == 1;
    assert s[1..][..1] == [c];
    assert DigitsValue([c]) == DigitValue(c) by {
      assert [c][..0] == [];
    }
  }

  /** `%2d` on one digit before a non-digit reads that digit alone. */
  lemma {:induction false} ScanOneDigit(c: char, rest: string, fmt: seq<Directive>)
    requires |fmt| > 0 && fmt[0] == Conv(2) && IsDigit(c) && |rest| > 0 && !IsDigit(rest[0])
    ensures ScanRun([c] + rest, fmt) == Prepend([DigitValue(c)], ScanRun(rest, fmt[1..]))
  {
    var s := [c] + rest;
    assert s[0] == c && !IsSpace(s[0]) && s[0..] == s;
    assert s[1] == rest[0];
    assert DigitRun(s, 2) == 1;
    assert s[..1] == [c];
    assert DigitsValue([c]) == DigitValue(c) by {
      assert [c][..0] == [];
    }
    assert s[1..] == rest;
  }

  /** A conversion or an ordinary character finds the input ended. */
  lemma {:induction false} ScanAtEnd(fmt: seq<Directive>)
    requires |fmt| > 0 && !fmt[0].Space?
    ensures ScanRun("", fmt) == Run([], false, true)
  {
  }

  /** An ordinary character that does not come next stops the run. */
  lemma {:induction false} ScanMismatch(c: char, rest: string, fmt: seq<Directive>)
    requires |fmt| > 0 && fmt[0].Literal? && fmt[0].c != c
    ensures ScanRun([c] + rest, fmt) == Run([], false, false)
  {
  }

  /** A matching ordinary character is passed over. */
  lemma {:induction false} ScanLiteral(c: char, rest: string, fmt: seq<Directive>)
    requires |fmt| > 0 && fmt[0] == Literal(c)
    ensures ScanRun([c] + rest, fmt) == ScanRun(rest, fmt[1..])
  {
    assert ([c] + rest)[1..] == rest;
  }

  /** White space in the format passes over one blank before a non-blank. */
  lemma {:induction false} ScanSpace(rest: string, fmt: seq<Directive>)
    requires |fmt| > 0 && fmt[0] == Space && (rest == "" || !IsSpace(rest[0]))
    ensures ScanRun(" " + rest, fmt) == ScanRun(rest, fmt[1..])
  {
    var s := " " + rest;
    if rest != "" {
      assert s[1] == rest[0];
    }
    assert SpaceRun(s) == 1;
    assert s[1..] == rest;
  }
}
