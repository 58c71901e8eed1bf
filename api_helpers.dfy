/** The card and date helpers of ContactMS/src/VCAPIHelpers.c: decodeDate and
    encodeDate, which rewrite a date between the vCard form
    (`YYYYMMDDTHHMMSSZ`, `YYYYMMDD`) and the display form
    (`YYYY-MM-DD HH:MM:SS`), and newCard and updateName, which build or
    replace a card's FN and then validate and write the card. A NULL string
    is the empty string here; the date functions' NULL result is None. */
module VCAPIHelpers {
  import opened VCardTypes
  import opened CFormat
  import opened VCParser
  import opened VCValidate
  import opened VCCard

  // ---------------------------------------------------------------------
  // The sscanf formats
  // ---------------------------------------------------------------------

  /** `%4d%2d%2dT%2d%2d%2dZ` */
  const UtcPattern := [Conv(4), Conv(2), Conv(2), Literal('T'), Conv(2), Conv(2), Conv(2), Literal('Z')]

  /** `%4d%2d%2dT%2d%2d%2d` */
  const LocalPattern := [Conv(4), Conv(2), Conv(2), Literal('T'), Conv(2), Conv(2), Conv(2)]

  /** `%4d%2d%2d` */
  const DatePattern := [Conv(4), Conv(2), Conv(2)]

  /** `%4d-%2d-%2d`: the display date alone. */
  const DisplayDatePattern := [Conv(4), Literal('-'), Conv(2), Literal('-'), Conv(2)]

  /** ` %2d:%2d:%2d` */
  const DisplayTimePattern := [Space, Conv(2), Literal(':'), Conv(2), Literal(':'), Conv(2)]

  /** `%4d-%2d-%2d %2d:%2d:%2d` */
  const DisplayPattern := DisplayDatePattern + DisplayTimePattern

  /** The six int variables the sscanf calls assign, in argument order. */
  datatype Fields = Fields(year: int, month: int, day: int, hour: int, minute: int, second: int)

  /** The variables before any sscanf call. year, month and day are
      uninitialised in the source; they are only printed after a call that
      assigned all three, so 0 stands for them. */
  const Unset := Fields(0, 0, 0, 0, 0, 0)

  /** The variables after a sscanf call that assigned `values`, in argument
      order: those it did not reach keep what earlier calls left in them. */
  function Assign(f: Fields, values: seq<int>): (g: Fields)
    requires |values| <= 6
    ensures |values| == 0 ==> g == f
  {
    Fields(
      if |values| > 0 then values[0] else f.year,
      if |values| > 1 then values[1] else f.month,
      if |values| > 2 then values[2] else f.day,
      if |values| > 3 then values[3] else f.hour,
      if |values| > 4 then values[4] else f.minute,
      if |values| > 5 then values[5] else f.second)
  }

  /** Every variable holds a value a `%4d` (year) or `%2d` (the rest) can read. */
  predicate FieldsFit(f: Fields)
  {
    Fits(f.year, 4) && Fits(f.month, 2) && Fits(f.day, 2)
    && Fits(f.hour, 2) && Fits(f.minute, 2) && Fits(f.second, 2)
  }

  /** The widths of a format, one directive at a time. */
  lemma {:induction false} WidthsStep(fmt: seq<Directive>, i: nat)
    requires i < |fmt|
    ensures Widths(fmt[i..]) == (if fmt[i].Conv? then [fmt[i].width] else []) + Widths(fmt[i + 1..])
  {
    assert fmt[i..][0] == fmt[i] && fmt[i..][1..] == fmt[i + 1..];
  }

  /** The conversions of a date-time format: `%4d` and five `%2d`. */
  predicate DateTimeWidths(fmt: seq<Directive>)
  {
    Widths(fmt) == [4, 2, 2, 2, 2, 2]
  }

  /** The conversions of a date format: `%4d` and two `%2d`. */
  predicate DateWidths(fmt: seq<Directive>)
  {
    Widths(fmt) == [4, 2, 2]
  }

  /** The widths of `%4d%2d%2dT%2d%2d%2dZ`; for the field bounds of decodeDate and encodeDate. */
  lemma {:induction false} UtcWidths()
    ensures DateTimeWidths(UtcPattern)
  {
    var p := UtcPattern;
    assert p[8..] == [];
    WidthsStep(p, 7); WidthsStep(p, 6); WidthsStep(p, 5); WidthsStep(p, 4);
    WidthsStep(p, 3); WidthsStep(p, 2); WidthsStep(p, 1); WidthsStep(p, 0);
    assert p[0..] == p;
  }

  /** The widths of `%4d%2d%2dT%2d%2d%2d`; for the field bounds of decodeDate. */
  lemma {:induction false} LocalWidths()
    ensures DateTimeWidths(LocalPattern)
  {
    var p := LocalPattern;
    assert p[7..] == [];
    WidthsStep(p, 6); WidthsStep(p, 5); WidthsStep(p, 4);
    WidthsStep(p, 3); WidthsStep(p, 2); WidthsStep(p, 1); WidthsStep(p, 0);
    assert p[0..] == p;
  }

  /** The widths of `%4d%2d%2d`; for the field bounds of decodeDate and encodeDate. */
  lemma {:induction false} DateOnlyWidths()
    ensures DateWidths(DatePattern)
  {
    var p := DatePattern;
    assert p[3..] == [];
    WidthsStep(p, 2); WidthsStep(p, 1); WidthsStep(p, 0);
    assert p[0..] == p;
  }

  /** The widths of the display pattern; for the field bounds of encodeDate. */
  lemma {:induction false} DisplayWidths()
    ensures DateTimeWidths(DisplayPattern)
  {
    DisplayDateWidths();
    var p := DisplayTimePattern;
    assert p[6..] == [];
    WidthsStep(p, 5); WidthsStep(p, 4); WidthsStep(p, 3); WidthsStep(p, 2); WidthsStep(p, 1);
    WidthsStep(p, 0);
    assert p[0..] == p;
    WidthsAppend(DisplayDatePattern, p);
  }

  /** The widths of the display date pattern; for the field bounds of the corrected encodeDate. */
  lemma {:induction false} DisplayDateWidths()
    ensures DateWidths(DisplayDatePattern)
  {
    var p := DisplayDatePattern;
    assert p[5..] == [];
    WidthsStep(p, 4); WidthsStep(p, 3); WidthsStep(p, 2); WidthsStep(p, 1); WidthsStep(p, 0);
    assert p[0..] == p;
  }

  /** Assigning what a date or date-time format read keeps every variable
      printable in its width. */
  lemma {:induction false} AssignFits(f: Fields, fmt: seq<Directive>, s: string)
    requires FieldsFit(f)
    requires DateTimeWidths(fmt) || DateWidths(fmt)
    ensures |ScanRun(s, fmt).values| <= 6 && FieldsFit(Assign(f, ScanRun(s, fmt).values))
  {
    var vs := ScanRun(s, fmt).values;
    var ws := Widths(fmt);
    assert forall i :: 0 <= i < |vs| ==> Fits(vs[i], ws[i]);
  }

  /** The `%04d-%02d-%02d` date, the time after it as ` %02d:%02d:%02d` unless
      all three are zero, and ` (UTC)` after the time when `utc`. */
  function Display(f: Fields, utc: bool): string
  {
    var date := FormatInt(f.year, 4) + "-" + FormatInt(f.month, 2) + "-" + FormatInt(f.day, 2);
    if f.hour == 0 && f.minute == 0 && f.second == 0 then date
    else
      date + " " + FormatInt(f.hour, 2) + ":" + FormatInt(f.minute, 2) + ":" + FormatInt(f.second, 2)
      + (if utc then " (UTC)" else "")
  }

  /** The display text is 10, 19 or 25 characters long: it fits the 64-byte
      buffer of decodeDate, and without ` (UTC)` the 20-byte buffer of
      encodeDate, so snprintf never cuts it. */
  lemma {:induction false} DisplayLength(f: Fields, utc: bool)
    requires FieldsFit(f)
    ensures |Display(f, utc)| == 10 || |Display(f, utc)| == 19 || |Display(f, utc)| == 25
    ensures !utc ==> |Display(f, utc)| == 10 || |Display(f, utc)| == 19
  {
    FormatIntWidth(f.year, 4);
    FormatIntWidth(f.month, 2);
    FormatIntWidth(f.day, 2);
    FormatIntWidth(f.hour, 2);
    FormatIntWidth(f.minute, 2);
    FormatIntWidth(f.second, 2);
  }

  // ---------------------------------------------------------------------
  // decodeDate and encodeDate
  // ---------------------------------------------------------------------

  /** decodeDate, as written: the first format's trailing `Z` does not change
      sscanf's count, so every date-time with six fields is taken as UTC. */
  function DecodeDate(date: string): (r: Option<string>)
    ensures r.None? <==> date == ""
    ensures date != "" && !IsDigit(date[0]) ==> r == Some(date)
    ensures r.Some? && r.value != date ==> |r.value| == 10 || |r.value| == 19 || |r.value| == 25
  {
    if date == "" then None
    else if !IsDigit(date[0]) then Some(date)
    else
      UtcWidths();
      AssignFits(Unset, UtcPattern, date);
      var f1 := Assign(Unset, ScanRun(date, UtcPattern).values);
      if Sscanf(date, UtcPattern) == 6 then DisplayLength(f1, true); Some(Display(f1, true))
      else
        LocalWidths();
        AssignFits(f1, LocalPattern, date);
        var f2 := Assign(f1, ScanRun(date, LocalPattern).values);
        if Sscanf(date, LocalPattern) == 6 then DisplayLength(f2, false); Some(Display(f2, false))
        else
          DateOnlyWidths();
          AssignFits(f2, DatePattern, date);
          var f3 := Assign(f2, ScanRun(date, DatePattern).values);
          if Sscanf(date, DatePattern) == 3 then DisplayLength(f3, false); Some(Display(f3, false))
          else Some(date)
  }

  /** decodeDate as evidently intended: UTC only when the `Z` was there. */
  function DecodeDateCorrected(date: string): (r: Option<string>)
    ensures r.None? <==> date == ""
    ensures date != "" && !IsDigit(date[0]) ==> r == Some(date)
    ensures r.Some? && r.value != date ==> |r.value| == 10 || |r.value| == 19 || |r.value| == 25
  {
    if date == "" then None
    else if !IsDigit(date[0]) then Some(date)
    else
      UtcWidths();
      AssignFits(Unset, UtcPattern, date);
      var f1 := Assign(Unset, ScanRun(date, UtcPattern).values);
      if Sscanf(date, UtcPattern) == 6 && ScanRun(date, UtcPattern).complete then
        DisplayLength(f1, true); Some(Display(f1, true))
      else
        LocalWidths();
        AssignFits(f1, LocalPattern, date);
        var f2 := Assign(f1, ScanRun(date, LocalPattern).values);
        if Sscanf(date, LocalPattern) == 6 then DisplayLength(f2, false); Some(Display(f2, false))
        else
          DateOnlyWidths();
          AssignFits(f2, DatePattern, date);
          var f3 := Assign(f2, ScanRun(date, DatePattern).values);
          if Sscanf(date, DatePattern) == 3 then DisplayLength(f3, false); Some(Display(f3, false))
          else Some(date)
  }

  /** encodeDate, as written: the display form, then the vCard forms; "" when
      none matches. */
  function EncodeDate(date: string): (r: Option<string>)
    ensures r.None? <==> date == "" || !IsDigit(date[0])
    ensures r.Some? ==> |r.value| == 0 || |r.value| == 10 || |r.value| == 19
  {
    if date == "" || !IsDigit(date[0]) then None
    else
      DisplayWidths();
      AssignFits(Unset, DisplayPattern, date);
      var f1 := Assign(Unset, ScanRun(date, DisplayPattern).values);
      if Sscanf(date, DisplayPattern) == 6 then DisplayLength(f1, false); Some(Display(f1, false))
      else
        UtcWidths();
        AssignFits(f1, UtcPattern, date);
        var f2 := Assign(f1, ScanRun(date, UtcPattern).values);
        if Sscanf(date, UtcPattern) == 6 then DisplayLength(f2, false); Some(Display(f2, false))
        else
          DateOnlyWidths();
          AssignFits(f2, DatePattern, date);
          var f3 := Assign(f2, ScanRun(date, DatePattern).values);
          if Sscanf(date, DatePattern) == 3 then DisplayLength(f3, false); Some(Display(f3, false))
          else Some("")
  }

  /** encodeDate as evidently intended: a display date without a time is
      tried (as `%4d-%2d-%2d`) before the vCard forms. */
  function EncodeDateCorrected(date: string): (r: Option<string>)
    ensures r.None? <==> date == "" || !IsDigit(date[0])
    ensures r.Some? ==> |r.value| == 0 || |r.value| == 10 || |r.value| == 19
  {
    if date == "" || !IsDigit(date[0]) then None
    else
      DisplayWidths();
      AssignFits(Unset, DisplayPattern, date);
      var f1 := Assign(Unset, ScanRun(date, DisplayPattern).values);
      if Sscanf(date, DisplayPattern) == 6 then DisplayLength(f1, false); Some(Display(f1, false))
      else
        DisplayDateWidths();
        AssignFits(f1, DisplayDatePattern, date);
        var f0 := Assign(f1, ScanRun(date, DisplayDatePattern).values);
        if Sscanf(date, DisplayDatePattern) == 3 then DisplayLength(f0, false); Some(Display(f0, false))
        else
          UtcWidths();
          AssignFits(f0, UtcPattern, date);
          var f2 := Assign(f0, ScanRun(date, UtcPattern).values);
          if Sscanf(date, UtcPattern) == 6 then DisplayLength(f2, false); Some(Display(f2, false))
          else
            DateOnlyWidths();
            AssignFits(f2, DatePattern, date);
            var f3 := Assign(f2, ScanRun(date, DatePattern).values);
            if Sscanf(date, DatePattern) == 3 then DisplayLength(f3, false); Some(Display(f3, false))
            else Some("")
  }

  /** decodeDate returns a digit-led date unchanged when none of its three
      patterns matches, in both versions. */
  lemma {:induction false} DecodeUnmatched(date: string)
    requires date != "" && IsDigit(date[0])
    requires Sscanf(date, UtcPattern) != 6 && Sscanf(date, LocalPattern) != 6 && Sscanf(date, DatePattern) != 3
    ensures DecodeDate(date) == Some(date) && DecodeDateCorrected(date) == Some(date)
  {
  }

  /** Every text Display prints starts with a year and a `-`, so it is never
      the empty text encodeDate gives back when nothing matches. */
  lemma {:induction false} DisplayNotEmpty(f: Fields, utc: bool)
    ensures Display(f, utc) != ""
  {
    var date := FormatInt(f.year, 4) + "-" + FormatInt(f.month, 2) + "-" + FormatInt(f.day, 2);
    assert |date| > 0;
  }

  /** encodeDate gives the empty text exactly when none of its three patterns
      matches a digit-led date. */
  lemma {:induction false} EncodeUnmatched(date: string)
    requires date != "" && IsDigit(date[0])
    ensures EncodeDate(date) == Some("") <==>
      Sscanf(date, DisplayPattern) != 6 && Sscanf(date, UtcPattern) != 6 && Sscanf(date, DatePattern) != 3
  {
    DisplayWidths();
    UtcWidths();
    DateOnlyWidths();
    var f1 := Assign(Unset, ScanRun(date, DisplayPattern).values);
    if Sscanf(date, DisplayPattern) == 6 {
      DisplayNotEmpty(f1, false);
    } else {
      var f2 := Assign(f1, ScanRun(date, UtcPattern).values);
      if Sscanf(date, UtcPattern) == 6 {
        DisplayNotEmpty(f2, false);
      } else {
        DisplayNotEmpty(Assign(f2, ScanRun(date, DatePattern).values), false);
      }
    }
  }

  /** The corrected encodeDate gives the empty text exactly when none of its
      four patterns, the display date among them, matches. */
  lemma {:induction false} EncodeCorrectedUnmatched(date: string)
    requires date != "" && IsDigit(date[0])
    ensures EncodeDateCorrected(date) == Some("") <==>
      Sscanf(date, DisplayPattern) != 6 && Sscanf(date, DisplayDatePattern) != 3
      && Sscanf(date, UtcPattern) != 6 && Sscanf(date, DatePattern) != 3
  {
    DisplayWidths();
    DisplayDateWidths();
    UtcWidths();
    DateOnlyWidths();
    var f1 := Assign(Unset, ScanRun(date, DisplayPattern).values);
    if Sscanf(date, DisplayPattern) == 6 {
      DisplayNotEmpty(f1, false);
    } else {
      var f0 := Assign(f1, ScanRun(date, DisplayDatePattern).values);
      if Sscanf(date, DisplayDatePattern) == 3 {
        DisplayNotEmpty(f0, false);
      } else {
        var f2 := Assign(f0, ScanRun(date, UtcPattern).values);
        if Sscanf(date, UtcPattern) == 6 {
          DisplayNotEmpty(f2, false);
        } else {
          DisplayNotEmpty(Assign(f2, ScanRun(date, DatePattern).values), false);
        }
      }
    }
  }

  /** A four-digit conversion over a bare four-digit year assigns one field
      and then meets the end of the input. */
  lemma {:induction false} YearAlone(y: string, p: seq<Directive>)
    requires DigitField(y, 4) && |p| > 1 && p[0] == Conv(4) && !p[1].Space?
    ensures Sscanf(y, p) == 1
  {
    assert y + "" == y;
    ScanConv(y, "", p);
    ScanAtEnd(p[1..]);
  }

  /** A bare year `YYYY` matches no pattern: decodeDate returns it as it is,
      and encodeDate returns the empty text. */
  lemma {:induction false} BareYear(y: string)
    requires DigitField(y, 4)
    ensures DecodeDate(y) == Some(y) && DecodeDateCorrected(y) == Some(y)
    ensures EncodeDate(y) == Some("") && EncodeDateCorrected(y) == Some("")
  {
    YearAlone(y, UtcPattern);
    YearAlone(y, LocalPattern);
    YearAlone(y, DatePattern);
    YearAlone(y, DisplayPattern);
    YearAlone(y, DisplayDatePattern);
    DecodeUnmatched(y);
    EncodeUnmatched(y);
    EncodeCorrectedUnmatched(y);
  }

  // ---------------------------------------------------------------------
  // Scanning the two date forms
  // ---------------------------------------------------------------------

  /** A field of `n` decimal digits. */
  predicate DigitField(s: string, n: nat)
  {
    |s| == n && AllDigits(s)
  }

  /** Two prepends in a row are one; for the scan steps of the date round trips. */
  lemma {:induction false} ChainRuns(a: Run, b: Run, c: Run, xs: seq<int>, ys: seq<int>, zs: seq<int>)
    requires a == Prepend(xs, b) && b == Prepend(ys, c) && zs == xs + ys
    ensures a == Prepend(zs, c)
  {
    PrependPrepend(xs, ys, c);
  }

  /** A slice of a slice of a format; for the scan steps of the date round trips. */
  lemma {:induction false} SliceOfSlice(fmt: seq<Directive>, i: nat, j: nat)
    requires i + j <= |fmt|
    ensures fmt[i..][j..] == fmt[i + j..]
  {
  }

  /** Joining two three-field lists; for the date-time scans. */
  lemma {:induction false} ThreeAndThree(a: int, b: int, c: int, d: int, e: int, f: int)
    ensures [a, b, c] + [d, e, f] == [a, b, c, d, e, f]
  {
  }

  /** Two digit fields, side by side, read by two conversions of their widths. */
  lemma {:induction false} ScanTwoFields(b: string, c: string, rest: string, fmt: seq<Directive>)
    requires |fmt| >= 2 && fmt[0].Conv? && fmt[1].Conv?
    requires |b| == fmt[0].width && AllDigits(b) && |c| == fmt[1].width && AllDigits(c)
    ensures ScanRun(b + (c + rest), fmt) == Prepend([DigitsValue(b), DigitsValue(c)], ScanRun(rest, fmt[2..]))
  {
    var r2 := ScanRun(rest, fmt[2..]);
    ScanConv(c, rest, fmt[1..]);
    assert fmt[1..][1..] == fmt[2..];
    ScanConv(b, c + rest, fmt);
    PrependPrepend([DigitsValue(b)], [DigitsValue(c)], r2);
    assert [DigitsValue(b)] + [DigitsValue(c)] == [DigitsValue(b), DigitsValue(c)];
  }

  /** Three digit fields, side by side, read by three conversions of their widths. */
  lemma {:induction false} ScanThreeFields(a: string, b: string, c: string, rest: string, fmt: seq<Directive>)
    requires |fmt| >= 3 && fmt[0].Conv? && fmt[1].Conv? && fmt[2].Conv?
    requires |a| == fmt[0].width && AllDigits(a)
    requires |b| == fmt[1].width && AllDigits(b) && |c| == fmt[2].width && AllDigits(c)
    ensures ScanRun(a + (b + (c + rest)), fmt)
      == Prepend([DigitsValue(a), DigitsValue(b), DigitsValue(c)], ScanRun(rest, fmt[3..]))
  {
    var r3 := ScanRun(rest, fmt[3..]);
    ScanTwoFields(b, c, rest, fmt[1..]);
    assert fmt[1..][2..] == fmt[3..];
    ScanConv(a, b + (c + rest), fmt);
    var va, vb, vc := DigitsValue(a), DigitsValue(b), DigitsValue(c);
    PrependOneTwo(va, vb, vc, r3);
  }

  /** An ordinary character followed by a digit field, read by that character
      and a conversion of the field's width. */
  lemma {:induction false} ScanLiteralField(ch: char, x: string, rest: string, fmt: seq<Directive>)
    requires |fmt| >= 2 && fmt[0] == Literal(ch) && fmt[1].Conv? && |x| == fmt[1].width && AllDigits(x)
    ensures ScanRun([ch] + (x + rest), fmt) == Prepend([DigitsValue(x)], ScanRun(rest, fmt[2..]))
  {
    ScanLiteral(ch, x + rest, fmt);
    ScanConv(x, rest, fmt[1..]);
    assert fmt[1..][1..] == fmt[2..];
  }

  /** Two separated digit fields, such as `-MM-DD` or `:MM:SS`. */
  lemma {:induction false} ScanSeparatedPair(ch: char, x: string, ch2: char, x2: string, rest: string, fmt: seq<Directive>)
    requires |fmt| >= 4 && fmt[0] == Literal(ch) && fmt[2] == Literal(ch2)
    requires fmt[1].Conv? && |x| == fmt[1].width && AllDigits(x)
    requires fmt[3].Conv? && |x2| == fmt[3].width && AllDigits(x2)
    ensures ScanRun([ch] + (x + ([ch2] + (x2 + rest))), fmt)
      == Prepend([DigitsValue(x), DigitsValue(x2)], ScanRun(rest, fmt[4..]))
  {
    var r4 := ScanRun(rest, fmt[4..]);
    ScanLiteralField(ch2, x2, rest, fmt[2..]);
    assert fmt[2..][2..] == fmt[4..];
    ScanLiteralField(ch, x, [ch2] + (x2 + rest), fmt);
    PrependPrepend([DigitsValue(x)], [DigitsValue(x2)], r4);
    assert [DigitsValue(x)] + [DigitsValue(x2)] == [DigitsValue(x), DigitsValue(x2)];
  }

  /** `T` and the three time fields of a vCard date-time. */
  lemma {:induction false} ScanTimePart(h: string, mi: string, se: string, rest: string, fmt: seq<Directive>)
    requires DigitField(h, 2) && DigitField(mi, 2) && DigitField(se, 2)
    requires |fmt| >= 4 && fmt[0] == Literal('T') && fmt[1] == Conv(2) && fmt[2] == Conv(2) && fmt[3] == Conv(2)
    ensures ScanRun("T" + (h + (mi + (se + rest))), fmt)
      == Prepend([DigitsValue(h), DigitsValue(mi), DigitsValue(se)], ScanRun(rest, fmt[4..]))
  {
    ScanLiteral('T', h + (mi + (se + rest)), fmt);
    ScanThreeFields(h, mi, se, rest, fmt[1..]);
    assert fmt[1..][3..] == fmt[4..];
  }

  /** The time part read at position k of a format; for the date-time scans. */
  lemma {:induction false} ScanTimePartAt(h: string, mi: string, se: string, rest: string, fmt: seq<Directive>, k: nat)
    requires DigitField(h, 2) && DigitField(mi, 2) && DigitField(se, 2)
    requires k + 4 <= |fmt| && fmt[k] == Literal('T') && fmt[k + 1] == Conv(2) && fmt[k + 2] == Conv(2) && fmt[k + 3] == Conv(2)
    ensures ScanRun("T" + (h + (mi + (se + rest))), fmt[k..])
      == Prepend([DigitsValue(h), DigitsValue(mi), DigitsValue(se)], ScanRun(rest, fmt[k + 4..]))
  {
    SliceOfSlice(fmt, k, 4);
    ScanTimePart(h, mi, se, rest, fmt[k..]);
  }

  /** The vCard date-time `YYYYMMDDTHHMMSS` read by a format starting like
      `%4d%2d%2dT%2d%2d%2d`. */
  lemma {:induction false} ScanVCardDateTime(y: string, mo: string, d: string, h: string, mi: string, se: string,
                          rest: string, time: string, fmt: seq<Directive>)
    requires DigitField(y, 4) && DigitField(mo, 2) && DigitField(d, 2)
    requires DigitField(h, 2) && DigitField(mi, 2) && DigitField(se, 2)
    requires time == "T" + (h + (mi + (se + rest)))
    requires |fmt| >= 7 && fmt[..7] == LocalPattern
    ensures ScanRun(y + (mo + (d + time)), fmt)
      == Prepend([DigitsValue(y), DigitsValue(mo), DigitsValue(d), DigitsValue(h), DigitsValue(mi), DigitsValue(se)],
                 ScanRun(rest, fmt[7..]))
  {
    assert fmt[0] == Conv(4) && fmt[1] == Conv(2) && fmt[2] == Conv(2) && fmt[3] == Literal('T');
    assert fmt[4] == Conv(2) && fmt[5] == Conv(2) && fmt[6] == Conv(2);
    ScanThreeFields(y, mo, d, time, fmt);
    ScanTimePartAt(h, mi, se, rest, fmt, 3);
    var date := [DigitsValue(y), DigitsValue(mo), DigitsValue(d)];
    var clock := [DigitsValue(h), DigitsValue(mi), DigitsValue(se)];
    var all := [DigitsValue(y), DigitsValue(mo), DigitsValue(d), DigitsValue(h), DigitsValue(mi), DigitsValue(se)];
    ThreeAndThree(DigitsValue(y), DigitsValue(mo), DigitsValue(d), DigitsValue(h), DigitsValue(mi), DigitsValue(se));
    ChainRuns(ScanRun(y + (mo + (d + time)), fmt), ScanRun(time, fmt[3..]), ScanRun(rest, fmt[7..]), date, clock, all);
  }

  /** The vCard date `YYYYMMDD` read by a format starting like `%4d%2d%2d`. */
  lemma {:induction false} ScanVCardDate(y: string, mo: string, d: string, rest: string, fmt: seq<Directive>)
    requires DigitField(y, 4) && DigitField(mo, 2) && DigitField(d, 2)
    requires |fmt| >= 3 && fmt[..3] == DatePattern
    ensures ScanRun(y + (mo + (d + rest)), fmt)
      == Prepend([DigitsValue(y), DigitsValue(mo), DigitsValue(d)], ScanRun(rest, fmt[3..]))
  {
    assert fmt[0] == Conv(4) && fmt[1] == Conv(2) && fmt[2] == Conv(2);
    ScanThreeFields(y, mo, d, rest, fmt);
  }

  /** The display date `YYYY-MM-DD` read by a format starting like `%4d-%2d-%2d`. */
  lemma {:induction false} ScanDisplayDate(y: string, mo: string, d: string, rest: string, date: string, fmt: seq<Directive>)
    requires DigitField(y, 4) && DigitField(mo, 2) && DigitField(d, 2)
    requires date == y + ("-" + (mo + ("-" + (d + rest))))
    requires |fmt| >= 5 && fmt[..5] == DisplayDatePattern
    ensures ScanRun(date, fmt)
      == Prepend([DigitsValue(y), DigitsValue(mo), DigitsValue(d)], ScanRun(rest, fmt[5..]))
  {
    assert fmt[0] == Conv(4) && fmt[1] == Literal('-') && fmt[2] == Conv(2);
    assert fmt[3] == Literal('-') && fmt[4] == Conv(2);
    var r5 := ScanRun(rest, fmt[5..]);
    DashedPair(mo, d, rest, fmt[1..]);
    assert fmt[1..][4..] == fmt[5..];
    ScanConv(y, "-" + (mo + ("-" + (d + rest))), fmt);
    var va, vm, vd := DigitsValue(y), DigitsValue(mo), DigitsValue(d);
    PrependOneTwo(va, vm, vd, r5);
  }

  /** `-MM-DD` read by a format starting like `-%2d-%2d`. */
  lemma {:induction false} DashedPair(mo: string, d: string, rest: string, fmt: seq<Directive>)
    requires DigitField(mo, 2) && DigitField(d, 2)
    requires |fmt| >= 4 && fmt[0] == Literal('-') && fmt[1] == Conv(2) && fmt[2] == Literal('-') && fmt[3] == Conv(2)
    ensures ScanRun("-" + (mo + ("-" + (d + rest))), fmt)
      == Prepend([DigitsValue(mo), DigitsValue(d)], ScanRun(rest, fmt[4..]))
  {
    assert "-" == ['-'];
    ScanSeparatedPair('-', mo, '-', d, rest, fmt);
  }

  /** `HH:MM:SS` read by a format starting like `%2d:%2d:%2d`. */
  lemma {:induction false} ScanClock(h: string, mi: string, se: string, rest: string, clock: string, fmt: seq<Directive>)
    requires DigitField(h, 2) && DigitField(mi, 2) && DigitField(se, 2)
    requires clock == h + (":" + (mi + (":" + (se + rest))))
    requires |fmt| >= 5 && fmt[0] == Conv(2) && fmt[1] == Literal(':') && fmt[2] == Conv(2)
    requires fmt[3] == Literal(':') && fmt[4] == Conv(2)
    ensures ScanRun(clock, fmt)
      == Prepend([DigitsValue(h), DigitsValue(mi), DigitsValue(se)], ScanRun(rest, fmt[5..]))
  {
    ScanSeparatedPair(':', mi, ':', se, rest, fmt[1..]);
    SliceOfSlice(fmt, 1, 4);
    ScanConv(h, ":" + (mi + (":" + (se + rest))), fmt);
    ChainRuns(ScanRun(clock, fmt), ScanRun(":" + (mi + (":" + (se + rest))), fmt[1..]), ScanRun(rest, fmt[5..]),
              [DigitsValue(h)], [DigitsValue(mi), DigitsValue(se)], [DigitsValue(h), DigitsValue(mi), DigitsValue(se)]);
  }

  /** The display time ` HH:MM:SS` read by ` %2d:%2d:%2d`. */
  lemma {:induction false} ScanDisplayTime(h: string, mi: string, se: string, rest: string, clock: string)
    requires DigitField(h, 2) && DigitField(mi, 2) && DigitField(se, 2)
    requires clock == " " + (h + (":" + (mi + (":" + (se + rest)))))
    ensures ScanRun(clock, DisplayTimePattern) == Run([DigitsValue(h), DigitsValue(mi), DigitsValue(se)], true, false)
  {
    var p := DisplayTimePattern;
    assert p[1..][5..] == [];
    ScanClock(h, mi, se, rest, clock[1..], p[1..]);
    ScanSpace(clock[1..], p);
    PrependNothing([DigitsValue(h), DigitsValue(mi), DigitsValue(se)], true, false);
  }

  /** The display text of six digit fields: the date, then the time unless it
      is `00:00:00`, then ` (UTC)` when `utc`. */
  function DisplayText(y: string, mo: string, d: string, h: string, mi: string, se: string, utc: bool): string
  {
    if h == "00" && mi == "00" && se == "00" then y + "-" + mo + "-" + d
    else y + "-" + mo + "-" + d + " " + h + ":" + mi + ":" + se + (if utc then " (UTC)" else "")
  }

  /** The fields read from digits print back as the same digits. */
  lemma {:induction false} DisplayOfDigits(y: string, mo: string, d: string, h: string, mi: string, se: string, utc: bool)
    requires DigitField(y, 4) && DigitField(mo, 2) && DigitField(d, 2)
    requires DigitField(h, 2) && DigitField(mi, 2) && DigitField(se, 2)
    ensures Display(Fields(DigitsValue(y), DigitsValue(mo), DigitsValue(d),
                           DigitsValue(h), DigitsValue(mi), DigitsValue(se)), utc)
      == DisplayText(y, mo, d, h, mi, se, utc)
  {
    FormatDigits(y); FormatDigits(mo); FormatDigits(d);
    FormatDigits(h); FormatDigits(mi); FormatDigits(se);
    ZeroField(h); ZeroField(mi); ZeroField(se);
  }

  /** A date read from digits, with the time variables at zero, prints back
      as the same digits. */
  lemma {:induction false} DisplayOfDate(y: string, mo: string, d: string, utc: bool)
    requires DigitField(y, 4) && DigitField(mo, 2) && DigitField(d, 2)
    ensures Display(Fields(DigitsValue(y), DigitsValue(mo), DigitsValue(d), 0, 0, 0), utc) == y + "-" + mo + "-" + d
  {
    FormatDigits(y); FormatDigits(mo); FormatDigits(d);
  }

  // ---------------------------------------------------------------------
  // decodeDate and encodeDate on the forms they are written for
  // ---------------------------------------------------------------------

  /** A vCard date-time written out field by field, regrouped from the right. */
  lemma {:induction false} VCardDateTimeText(y: string, mo: string, d: string, h: string, mi: string, se: string, zone: string)
    ensures y + mo + d + "T" + h + mi + se + zone == y + (mo + (d + ("T" + (h + (mi + (se + zone))))))
  {
  }

  /** The trailing `Z` directive: matched by `Z`, and the input's end before it. */
  lemma {:induction false} ZoneRun(fmt: seq<Directive>)
    requires fmt == [Literal('Z')]
    ensures ScanRun("Z", fmt) == Run([], true, false)
    ensures ScanRun("", fmt) == Run([], false, true)
  {
    assert ("Z")[1..] == "";
    assert fmt[1..] == [];
  }

  /** Prepending to an empty run; for the scans that end at the input's end. */
  lemma {:induction false} PrependNothing(values: seq<int>, complete: bool, endOfInput: bool)
    ensures Prepend(values, Run([], complete, endOfInput)) == Run(values, complete, endOfInput)
  {
    assert values + [] == values;
  }

  /** A full UTC date-time is read by the first format of decodeDate, `Z` included. */
  lemma {:induction false} UtcRun(y: string, mo: string, d: string, h: string, mi: string, se: string, time: string, s: string)
    requires DigitField(y, 4) && DigitField(mo, 2) && DigitField(d, 2)
    requires DigitField(h, 2) && DigitField(mi, 2) && DigitField(se, 2)
    requires time == "T" + (h + (mi + (se + "Z"))) && s == y + (mo + (d + time))
    ensures ScanRun(s, UtcPattern)
      == Run([DigitsValue(y), DigitsValue(mo), DigitsValue(d), DigitsValue(h), DigitsValue(mi), DigitsValue(se)], true, false)
  {
    var p := UtcPattern;
    assert p[..7] == LocalPattern && p[7..] == [Literal('Z')];
    ScanVCardDateTime(y, mo, d, h, mi, se, "Z", time, p);
    ZoneRun(p[7..]);
    PrependNothing([DigitsValue(y), DigitsValue(mo), DigitsValue(d), DigitsValue(h), DigitsValue(mi), DigitsValue(se)], true, false);
  }

  /** A vCard date-time without the `Z`: the first format reads all six
      fields and then meets the end of the input. */
  lemma {:induction false} LocalRuns(y: string, mo: string, d: string, h: string, mi: string, se: string, time: string, s: string)
    requires DigitField(y, 4) && DigitField(mo, 2) && DigitField(d, 2)
    requires DigitField(h, 2) && DigitField(mi, 2) && DigitField(se, 2)
    requires time == "T" + (h + (mi + (se + ""))) && s == y + (mo + (d + time))
    ensures ScanRun(s, UtcPattern)
      == Run([DigitsValue(y), DigitsValue(mo), DigitsValue(d), DigitsValue(h), DigitsValue(mi), DigitsValue(se)], false, true)
    ensures ScanRun(s, LocalPattern)
      == Run([DigitsValue(y), DigitsValue(mo), DigitsValue(d), DigitsValue(h), DigitsValue(mi), DigitsValue(se)], true, false)
  {
    LocalUtcRun(y, mo, d, h, mi, se, time, s);
    LocalLocalRun(y, mo, d, h, mi, se, time, s);
  }

  /** The UTC format on a vCard date-time without the `Z`. */
  lemma {:induction false} LocalUtcRun(y: string, mo: string, d: string, h: string, mi: string, se: string, time: string, s: string)
    requires DigitField(y, 4) && DigitField(mo, 2) && DigitField(d, 2)
    requires DigitField(h, 2) && DigitField(mi, 2) && DigitField(se, 2)
    requires time == "T" + (h + (mi + (se + ""))) && s == y + (mo + (d + time))
    ensures ScanRun(s, UtcPattern)
      == Run([DigitsValue(y), DigitsValue(mo), DigitsValue(d), DigitsValue(h), DigitsValue(mi), DigitsValue(se)], false, true)
  {
    var p := UtcPattern;
    assert p[..7] == LocalPattern && p[7..] == [Literal('Z')];
    ScanVCardDateTime(y, mo, d, h, mi, se, "", time, p);
    ZoneRun(p[7..]);
    PrependNothing([DigitsValue(y), DigitsValue(mo), DigitsValue(d), DigitsValue(h), DigitsValue(mi), DigitsValue(se)], false, true);
  }

  /** The local format on a vCard date-time without the `Z`. */
  lemma {:induction false} LocalLocalRun(y: string, mo: string, d: string, h: string, mi: string, se: string, time: string, s: string)
    requires DigitField(y, 4) && DigitField(mo, 2) && DigitField(d, 2)
    requires DigitField(h, 2) && DigitField(mi, 2) && DigitField(se, 2)
    requires time == "T" + (h + (mi + (se + ""))) && s == y + (mo + (d + time))
    ensures ScanRun(s, LocalPattern)
      == Run([DigitsValue(y), DigitsValue(mo), DigitsValue(d), DigitsValue(h), DigitsValue(mi), DigitsValue(se)], true, false)
  {
    var q := LocalPattern;
    assert q[..7] == LocalPattern && q[7..] == [];
    ScanVCardDateTime(y, mo, d, h, mi, se, "", time, q);
    PrependNothing([DigitsValue(y), DigitsValue(mo), DigitsValue(d), DigitsValue(h), DigitsValue(mi), DigitsValue(se)], true, false);
  }

  /** A vCard date before a format that goes on with `T`: three fields, then
      the end of the input. */
  lemma {:induction false} DateThenEnd(y: string, mo: string, d: string, s: string, p: seq<Directive>)
    requires DigitField(y, 4) && DigitField(mo, 2) && DigitField(d, 2)
    requires s == y + (mo + (d + ""))
    requires |p| > 3 && p[..3] == DatePattern && p[3] == Literal('T')
    ensures ScanRun(s, p) == Run([DigitsValue(y), DigitsValue(mo), DigitsValue(d)], false, true)
  {
    ScanVCardDate(y, mo, d, "", p);
    ScanAtEnd(p[3..]);
    PrependNothing([DigitsValue(y), DigitsValue(mo), DigitsValue(d)], false, true);
  }

  /** A vCard date: the two date-time formats read its three fields and then
      meet the end of the input; the date format reads it whole. */
  lemma {:induction false} DateRuns(y: string, mo: string, d: string, s: string)
    requires DigitField(y, 4) && DigitField(mo, 2) && DigitField(d, 2)
    requires s == y + (mo + (d + ""))
    ensures ScanRun(s, UtcPattern) == Run([DigitsValue(y), DigitsValue(mo), DigitsValue(d)], false, true)
    ensures ScanRun(s, LocalPattern) == Run([DigitsValue(y), DigitsValue(mo), DigitsValue(d)], false, true)
    ensures ScanRun(s, DatePattern) == Run([DigitsValue(y), DigitsValue(mo), DigitsValue(d)], true, false)
  {
    assert UtcPattern[..3] == DatePattern && LocalPattern[..3] == DatePattern;
    DateThenEnd(y, mo, d, s, UtcPattern);
    DateThenEnd(y, mo, d, s, LocalPattern);
    var r := DatePattern;
    assert r[..3] == DatePattern && r[3..] == [];
    ScanVCardDate(y, mo, d, "", r);
    PrependNothing([DigitsValue(y), DigitsValue(mo), DigitsValue(d)], true, false);
  }

  /** What a run of six values leaves in the variables. */
  lemma {:induction false} AssignAll(f: Fields, a: int, b: int, c: int, d: int, e: int, g: int)
    ensures Assign(f, [a, b, c, d, e, g]) == Fields(a, b, c, d, e, g)
  {
  }

  /** What a run of three values leaves in the variables. */
  lemma {:induction false} AssignDate(f: Fields, a: int, b: int, c: int)
    ensures Assign(f, [a, b, c]) == f.(year := a, month := b, day := c)
  {
  }

  /** decodeDate on a UTC date-time `YYYYMMDDTHHMMSSZ`: the display form with
      ` (UTC)` after a time that is not midnight. */
  lemma {:induction false} DecodeUtc(y: string, mo: string, d: string, h: string, mi: string, se: string)
    requires DigitField(y, 4) && DigitField(mo, 2) && DigitField(d, 2)
    requires DigitField(h, 2) && DigitField(mi, 2) && DigitField(se, 2)
    ensures DecodeDate(y + mo + d + "T" + h + mi + se + "Z") == Some(DisplayText(y, mo, d, h, mi, se, true))
    ensures DecodeDateCorrected(y + mo + d + "T" + h + mi + se + "Z") == Some(DisplayText(y, mo, d, h, mi, se, true))
  {
    var time := "T" + (h + (mi + (se + "Z")));
    var s := y + (mo + (d + time));
    VCardDateTimeText(y, mo, d, h, mi, se, "Z");
    assert s[0] == y[0];
    UtcRun(y, mo, d, h, mi, se, time, s);
    AssignAll(Unset, DigitsValue(y), DigitsValue(mo), DigitsValue(d), DigitsValue(h), DigitsValue(mi), DigitsValue(se));
    DisplayOfDigits(y, mo, d, h, mi, se, true);
  }

  /** decodeDate, as written, on a local date-time `YYYYMMDDTHHMMSS`: sscanf
      returns 6 for the first format although its `Z` is missing, so the time
      is labelled ` (UTC)` all the same. */
  lemma {:induction false} DecodeLocalAsUtc(y: string, mo: string, d: string, h: string, mi: string, se: string)
    requires DigitField(y, 4) && DigitField(mo, 2) && DigitField(d, 2)
    requires DigitField(h, 2) && DigitField(mi, 2) && DigitField(se, 2)
    ensures DecodeDate(y + mo + d + "T" + h + mi + se) == Some(DisplayText(y, mo, d, h, mi, se, true))
  {
    var time := "T" + (h + (mi + (se + "")));
    var s := y + (mo + (d + time));
    VCardDateTimeText(y, mo, d, h, mi, se, "");
    assert y + mo + d + "T" + h + mi + se + "" == y + mo + d + "T" + h + mi + se;
    assert s[0] == y[0];
    LocalRuns(y, mo, d, h, mi, se, time, s);
    AssignAll(Unset, DigitsValue(y), DigitsValue(mo), DigitsValue(d), DigitsValue(h), DigitsValue(mi), DigitsValue(se));
    DisplayOfDigits(y, mo, d, h, mi, se, true);
  }

  /** decodeDate as intended, on a local date-time: no ` (UTC)`. */
  lemma {:induction false} DecodeLocal(y: string, mo: string, d: string, h: string, mi: string, se: string)
    requires DigitField(y, 4) && DigitField(mo, 2) && DigitField(d, 2)
    requires DigitField(h, 2) && DigitField(mi, 2) && DigitField(se, 2)
    ensures DecodeDateCorrected(y + mo + d + "T" + h + mi + se) == Some(DisplayText(y, mo, d, h, mi, se, false))
  {
    var time := "T" + (h + (mi + (se + "")));
    var s := y + (mo + (d + time));
    VCardDateTimeText(y, mo, d, h, mi, se, "");
    assert y + mo + d + "T" + h + mi + se + "" == y + mo + d + "T" + h + mi + se;
    assert s[0] == y[0];
    LocalRuns(y, mo, d, h, mi, se, time, s);
    var six := [DigitsValue(y), DigitsValue(mo), DigitsValue(d), DigitsValue(h), DigitsValue(mi), DigitsValue(se)];
    var f1 := Assign(Unset, six);
    AssignAll(Unset, DigitsValue(y), DigitsValue(mo), DigitsValue(d), DigitsValue(h), DigitsValue(mi), DigitsValue(se));
    AssignAll(f1, DigitsValue(y), DigitsValue(mo), DigitsValue(d), DigitsValue(h), DigitsValue(mi), DigitsValue(se));
    DisplayOfDigits(y, mo, d, h, mi, se, false);
  }

  /** decodeDate on a vCard date `YYYYMMDD`: `YYYY-MM-DD`. */
  lemma {:induction false} DecodeDateOnly(y: string, mo: string, d: string)
    requires DigitField(y, 4) && DigitField(mo, 2) && DigitField(d, 2)
    ensures DecodeDate(y + mo + d) == Some(y + "-" + mo + "-" + d)
    ensures DecodeDateCorrected(y + mo + d) == Some(y + "-" + mo + "-" + d)
  {
    var s := y + (mo + (d + ""));
    assert s == y + mo + d && s[0] == y[0];
    DateRuns(y, mo, d, s);
    var three := [DigitsValue(y), DigitsValue(mo), DigitsValue(d)];
    var f1 := Assign(Unset, three);
    AssignDate(Unset, DigitsValue(y), DigitsValue(mo), DigitsValue(d));
    AssignDate(f1, DigitsValue(y), DigitsValue(mo), DigitsValue(d));
    DisplayOfDate(y, mo, d, false);
  }

  /** A vCard date-time cut short after its minutes, `YYYYMMDDTHHMM`: a
      format starting like `%4d%2d%2dT%2d%2d%2d` reads five fields and then
      meets the end of the input. */
  lemma {:induction false} ShortTimeRun(y: string, mo: string, d: string, h: string, mi: string, s: string, p: seq<Directive>)
    requires DigitField(y, 4) && DigitField(mo, 2) && DigitField(d, 2)
    requires DigitField(h, 2) && DigitField(mi, 2)
    requires s == y + (mo + (d + ("T" + (h + (mi + "")))))
    requires |p| >= 7 && p[..7] == LocalPattern
    ensures ScanRun(s, p)
      == Run([DigitsValue(y), DigitsValue(mo), DigitsValue(d), DigitsValue(h), DigitsValue(mi)], false, true)
  {
    var time := "T" + (h + (mi + ""));
    ScanVCardDate(y, mo, d, time, p);
    LocalPatternTime(p);
    ScanLiteral('T', h + (mi + ""), p[3..]);
    SliceOfSlice(p, 3, 1);
    ScanTwoFields(h, mi, "", p[4..]);
    SliceOfSlice(p, 4, 2);
    ScanAtEnd(p[6..]);
    PrependNothing([DigitsValue(h), DigitsValue(mi)], false, true);
    PrependPrepend([DigitsValue(y), DigitsValue(mo), DigitsValue(d)], [DigitsValue(h), DigitsValue(mi)], Run([], false, true));
    assert [DigitsValue(y), DigitsValue(mo), DigitsValue(d)] + [DigitsValue(h), DigitsValue(mi)]
      == [DigitsValue(y), DigitsValue(mo), DigitsValue(d), DigitsValue(h), DigitsValue(mi)];
  }

  /** The directives after the date in a format starting like `%4d%2d%2dT%2d%2d%2d`. */
  lemma {:induction false} LocalPatternTime(p: seq<Directive>)
    requires |p| >= 7 && p[..7] == LocalPattern
    ensures p[3] == Literal('T') && p[4] == Conv(2) && p[5] == Conv(2) && p[6] == Conv(2)
  {
    assert p[3] == p[..7][3] && p[4] == p[..7][4] && p[5] == p[..7][5] && p[6] == p[..7][6];
  }

  /** The date format on a date followed by anything: three fields, complete. */
  lemma {:induction false} DateThenMore(y: string, mo: string, d: string, rest: string)
    requires DigitField(y, 4) && DigitField(mo, 2) && DigitField(d, 2)
    ensures ScanRun(y + (mo + (d + rest)), DatePattern)
      == Run([DigitsValue(y), DigitsValue(mo), DigitsValue(d)], true, false)
  {
    var r := DatePattern;
    assert r[..3] == DatePattern && r[3..] == [];
    ScanVCardDate(y, mo, d, rest, r);
    PrependNothing([DigitsValue(y), DigitsValue(mo), DigitsValue(d)], true, false);
  }

  /** decodeDate when neither date-time format reads six fields and the date
      format reads three: the variables as the three calls left them. */
  lemma {:induction false} DecodeByDatePattern(s: string)
    requires s != "" && IsDigit(s[0])
    requires Sscanf(s, UtcPattern) != 6 && Sscanf(s, LocalPattern) != 6 && Sscanf(s, DatePattern) == 3
    ensures DecodeDate(s) == Some(Display(Assign(Assign(Assign(Unset, ScanRun(s, UtcPattern).values),
                                                        ScanRun(s, LocalPattern).values),
                                                 ScanRun(s, DatePattern).values), false))
  {
  }

  /** decodeDate on `YYYYMMDDTHHMM`, a date-time without seconds: both
      date-time formats fail after the minutes, the date format then matches,
      and the hour and minute the failed calls assigned are printed all the
      same, with 00 seconds and no ` (UTC)`. */
  lemma {:induction false} DecodeLeftoverTime(y: string, mo: string, d: string, h: string, mi: string)
    requires DigitField(y, 4) && DigitField(mo, 2) && DigitField(d, 2)
    requires DigitField(h, 2) && DigitField(mi, 2)
    ensures DecodeDate(y + mo + d + "T" + h + mi) == Some(DisplayText(y, mo, d, h, mi, "00", false))
  {
    ShortText(y, mo, d, h, mi);
    LeftoverFields(y, mo, d, h, mi, y + mo + d + "T" + h + mi);
    DisplayAtZeroSeconds(y, mo, d, h, mi);
  }

  /** `YYYYMMDDTHHMM` regrouped from the right. */
  lemma {:induction false} ShortText(y: string, mo: string, d: string, h: string, mi: string)
    ensures y + mo + d + "T" + h + mi == y + (mo + (d + ("T" + (h + (mi + "")))))
  {
  }

  /** Fields read from digits, with 0 seconds, print as the digits with `00` seconds. */
  lemma {:induction false} DisplayAtZeroSeconds(y: string, mo: string, d: string, h: string, mi: string)
    requires DigitField(y, 4) && DigitField(mo, 2) && DigitField(d, 2)
    requires DigitField(h, 2) && DigitField(mi, 2)
    ensures Display(Fields(DigitsValue(y), DigitsValue(mo), DigitsValue(d), DigitsValue(h), DigitsValue(mi), 0), false)
      == DisplayText(y, mo, d, h, mi, "00", false)
  {
    assert DigitField("00", 2);
    ZeroField("00");
    DisplayOfDigits(y, mo, d, h, mi, "00", false);
  }

  /** The variables decodeDate prints for `YYYYMMDDTHHMM`. */
  lemma {:induction false} LeftoverFields(y: string, mo: string, d: string, h: string, mi: string, s: string)
    requires DigitField(y, 4) && DigitField(mo, 2) && DigitField(d, 2)
    requires DigitField(h, 2) && DigitField(mi, 2)
    requires s == y + (mo + (d + ("T" + (h + (mi + "")))))
    ensures DecodeDate(s)
      == Some(Display(Fields(DigitsValue(y), DigitsValue(mo), DigitsValue(d), DigitsValue(h), DigitsValue(mi), 0), false))
  {
    assert s[0] == y[0];
    ShortTimeRun(y, mo, d, h, mi, s, UtcPattern);
    ShortTimeRun(y, mo, d, h, mi, s, LocalPattern);
    DateThenMore(y, mo, d, "T" + (h + (mi + "")));
    var five := [DigitsValue(y), DigitsValue(mo), DigitsValue(d), DigitsValue(h), DigitsValue(mi)];
    var f := Fields(DigitsValue(y), DigitsValue(mo), DigitsValue(d), DigitsValue(h), DigitsValue(mi), 0);
    assert Assign(Unset, five) == f;
    assert Assign(f, five) == f;
    AssignDate(f, DigitsValue(y), DigitsValue(mo), DigitsValue(d));
    DecodeByDatePattern(s);
  }

  /** What a run of one value leaves in the variables. */
  lemma {:induction false} AssignYear(f: Fields, a: int)
    ensures Assign(f, [a]) == f.(year := a)
  {
  }

  /** A display date-time `YYYY-MM-DD HH:MM:SS`, followed by anything, is read
      whole by the first format of encodeDate. */
  lemma {:induction false} DisplayRun(y: string, mo: string, d: string, h: string, mi: string, se: string,
                                      rest: string, clock: string, s: string)
    requires DigitField(y, 4) && DigitField(mo, 2) && DigitField(d, 2)
    requires DigitField(h, 2) && DigitField(mi, 2) && DigitField(se, 2)
    requires clock == " " + (h + (":" + (mi + (":" + (se + rest)))))
    requires s == y + ("-" + (mo + ("-" + (d + clock))))
    ensures ScanRun(s, DisplayPattern)
      == Run([DigitsValue(y), DigitsValue(mo), DigitsValue(d), DigitsValue(h), DigitsValue(mi), DigitsValue(se)], true, false)
  {
    var p := DisplayPattern;
    assert p[..5] == DisplayDatePattern && p[5..] == DisplayTimePattern;
    ScanDisplayDate(y, mo, d, clock, s, p);
    ScanDisplayTime(h, mi, se, rest, clock);
    var date := [DigitsValue(y), DigitsValue(mo), DigitsValue(d)];
    var time := [DigitsValue(h), DigitsValue(mi), DigitsValue(se)];
    ThreeAndThree(DigitsValue(y), DigitsValue(mo), DigitsValue(d), DigitsValue(h), DigitsValue(mi), DigitsValue(se));
    PrependNothing(time, true, false);
    ChainRuns(ScanRun(s, p), ScanRun(clock, p[5..]), Run([], true, false), date, time, date + time);
  }

  /** A display date alone: the first format of encodeDate reads its three
      fields and meets the end of the input before the time. */
  lemma {:induction false} DisplayDateRuns(y: string, mo: string, d: string, s: string)
    requires DigitField(y, 4) && DigitField(mo, 2) && DigitField(d, 2)
    requires s == y + ("-" + (mo + ("-" + (d + ""))))
    ensures ScanRun(s, DisplayPattern) == Run([DigitsValue(y), DigitsValue(mo), DigitsValue(d)], false, true)
    ensures ScanRun(s, DisplayDatePattern) == Run([DigitsValue(y), DigitsValue(mo), DigitsValue(d)], true, false)
  {
    var three := [DigitsValue(y), DigitsValue(mo), DigitsValue(d)];
    var p := DisplayPattern;
    assert p[..5] == DisplayDatePattern && p[5..] == DisplayTimePattern;
    ScanDisplayDate(y, mo, d, "", s, p);
    var t := DisplayTimePattern;
    assert t[0] == Space && t[1..][0] == Conv(2) && ""[SpaceRun("")..] == "";
    ScanAtEnd(t[1..]);
    PrependNothing(three, false, true);
    var q := DisplayDatePattern;
    assert q[..5] == DisplayDatePattern && q[5..] == [];
    ScanDisplayDate(y, mo, d, "", s, q);
    PrependNothing(three, true, false);
  }

  /** A year followed by a digit, before a format that wants `-` there: one
      value, then a matching failure. */
  lemma {:induction false} YearThenDigit(y: string, t: string, s: string, p: seq<Directive>)
    requires DigitField(y, 4) && s == y + t && |t| > 0 && IsDigit(t[0])
    requires |p| >= 2 && p[0] == Conv(4) && p[1] == Literal('-')
    ensures ScanRun(s, p) == Run([DigitsValue(y)], false, false)
  {
    ScanConv(y, t, p);
    assert t == [t[0]] + t[1..];
    ScanMismatch(t[0], t[1..], p[1..]);
    PrependNothing([DigitsValue(y)], false, false);
  }


  /** A conversion over exactly its width of digits, with the rest of the
      format passed as `after`. */
  lemma {:induction false} ConvAt(x: string, rest: string, p: seq<Directive>, after: seq<Directive>)
    requires |p| > 0 && p[0].Conv? && |x| == p[0].width && AllDigits(x) && after == p[1..]
    ensures ScanRun(x + rest, p) == Prepend([DigitsValue(x)], ScanRun(rest, after))
  {
    ScanConv(x, rest, p);
  }

  /** `%2d` on a `-` and a digit, with the rest of the format passed as `after`. */
  lemma {:induction false} MinusDigitAt(c: char, rest: string, p: seq<Directive>, after: seq<Directive>)
    requires IsDigit(c) && |p| > 0 && p[0] == Conv(2) && after == p[1..]
    ensures ScanRun("-" + [c] + rest, p) == Prepend([Negated(c)], ScanRun(rest, after))
  {
    ScanMinusDigit(c, rest, p);
  }

  /** `%2d` on one digit before a non-digit, with the rest of the format
      passed as `after`. */
  lemma {:induction false} OneDigitAt(c: char, rest: string, p: seq<Directive>, after: seq<Directive>)
    requires IsDigit(c) && |rest| > 0 && !IsDigit(rest[0]) && |p| > 0 && p[0] == Conv(2) && after == p[1..]
    ensures ScanRun([c] + rest, p) == Prepend([DigitValue(c)], ScanRun(rest, after))
  {
    ScanOneDigit(c, rest, p);
  }

  /** Joining two one-field lists; for the misread display date. */
  lemma {:induction false} OneAndOne(a: int, b: int)
    ensures [a] + [b] == [a, b]
  {
  }

  /** Joining a one-field and a two-field list; for the misread display date. */
  lemma {:induction false} OneAndTwo(a: int, b: int, c: int)
    ensures [a] + [b, c] == [a, b, c]
  {
  }

  /** A display date read by a format starting like `%4d%2d%2d`: the
      month's `-` is taken as the sign of the month (`c0` its first digit),
      the day is the month's second digit `c1`, and reading goes on at the
      `-` before the day. */
  lemma {:induction false} MisreadDisplayDate(y: string, c0: char, c1: char, tail: string, p: seq<Directive>)
    requires DigitField(y, 4) && IsDigit(c0) && IsDigit(c1) && |tail| > 0 && !IsDigit(tail[0])
    requires |p| >= 3 && p[0] == Conv(4) && p[1] == Conv(2) && p[2] == Conv(2)
    ensures ScanRun(y + ("-" + [c0] + ([c1] + tail)), p)
      == Prepend([DigitsValue(y), Negated(c0), DigitValue(c1)], ScanRun(tail, p[3..]))
  {
    OneDigitAt(c1, tail, p[2..], p[3..]);
    MinusDigitAt(c0, [c1] + tail, p[1..], p[2..]);
    ConvAt(y, "-" + [c0] + ([c1] + tail), p, p[1..]);
    var vy, m1 := DigitsValue(y), DigitValue(c1);
    OneAndOne(Negated(c0), m1);
    OneAndTwo(vy, Negated(c0), m1);
    ChainRuns(ScanRun("-" + [c0] + ([c1] + tail), p[1..]), ScanRun([c1] + tail, p[2..]), ScanRun(tail, p[3..]),
      [Negated(c0)], [m1], [Negated(c0), m1]);
    ChainRuns(ScanRun(y + ("-" + [c0] + ([c1] + tail)), p), ScanRun("-" + [c0] + ([c1] + tail), p[1..]), ScanRun(tail, p[3..]),
      [vy], [Negated(c0), m1], [vy, Negated(c0), m1]);
  }

  /** A display date-time written out field by field, regrouped from the right. */
  lemma {:induction false} DisplayDateTimeText(y: string, mo: string, d: string, h: string, mi: string, se: string, rest: string)
    ensures y + "-" + mo + "-" + d + " " + h + ":" + mi + ":" + se + rest
         == y + ("-" + (mo + ("-" + (d + (" " + (h + (":" + (mi + (":" + (se + rest))))))))))
  {
  }

  /** encodeDate on a display date-time `YYYY-MM-DD HH:MM:SS`, whatever
      follows it (such as decodeDate's ` (UTC)`): the same date-time, without
      what followed. */
  lemma {:induction false} EncodeDisplay(y: string, mo: string, d: string, h: string, mi: string, se: string, rest: string)
    requires DigitField(y, 4) && DigitField(mo, 2) && DigitField(d, 2)
    requires DigitField(h, 2) && DigitField(mi, 2) && DigitField(se, 2)
    ensures EncodeDate(y + "-" + mo + "-" + d + " " + h + ":" + mi + ":" + se + rest)
      == Some(DisplayText(y, mo, d, h, mi, se, false))
    ensures EncodeDateCorrected(y + "-" + mo + "-" + d + " " + h + ":" + mi + ":" + se + rest)
      == Some(DisplayText(y, mo, d, h, mi, se, false))
  {
    var clock := " " + (h + (":" + (mi + (":" + (se + rest)))));
    var s := y + ("-" + (mo + ("-" + (d + clock))));
    DisplayDateTimeText(y, mo, d, h, mi, se, rest);
    assert s[0] == y[0];
    DisplayRun(y, mo, d, h, mi, se, rest, clock, s);
    AssignAll(Unset, DigitsValue(y), DigitsValue(mo), DigitsValue(d), DigitsValue(h), DigitsValue(mi), DigitsValue(se));
    DisplayOfDigits(y, mo, d, h, mi, se, false);
  }

  /** What encodeDate prints after a year alone and then six fields. */
  lemma {:induction false} YearThenSix(y: string, mo: string, d: string, h: string, mi: string, se: string)
    requires DigitField(y, 4) && DigitField(mo, 2) && DigitField(d, 2)
    requires DigitField(h, 2) && DigitField(mi, 2) && DigitField(se, 2)
    ensures Display(Assign(Assign(Unset, [DigitsValue(y)]),
                           [DigitsValue(y), DigitsValue(mo), DigitsValue(d), DigitsValue(h), DigitsValue(mi), DigitsValue(se)]), false)
      == DisplayText(y, mo, d, h, mi, se, false)
    ensures Display(Assign(Assign(Assign(Unset, [DigitsValue(y)]), [DigitsValue(y)]),
                           [DigitsValue(y), DigitsValue(mo), DigitsValue(d), DigitsValue(h), DigitsValue(mi), DigitsValue(se)]), false)
      == DisplayText(y, mo, d, h, mi, se, false)
  {
    var f := Assign(Unset, [DigitsValue(y)]);
    AssignYear(Unset, DigitsValue(y));
    AssignYear(f, DigitsValue(y));
    AssignAll(f, DigitsValue(y), DigitsValue(mo), DigitsValue(d), DigitsValue(h), DigitsValue(mi), DigitsValue(se));
    DisplayOfDigits(y, mo, d, h, mi, se, false);
  }

  /** What encodeDate prints after a year alone and then a date, read twice. */
  lemma {:induction false} YearThenDates(y: string, mo: string, d: string)
    requires DigitField(y, 4) && DigitField(mo, 2) && DigitField(d, 2)
    ensures Display(Assign(Assign(Assign(Unset, [DigitsValue(y)]),
                                  [DigitsValue(y), DigitsValue(mo), DigitsValue(d)]),
                           [DigitsValue(y), DigitsValue(mo), DigitsValue(d)]), false)
      == y + "-" + mo + "-" + d
    ensures Display(Assign(Assign(Assign(Assign(Unset, [DigitsValue(y)]), [DigitsValue(y)]),
                                  [DigitsValue(y), DigitsValue(mo), DigitsValue(d)]),
                           [DigitsValue(y), DigitsValue(mo), DigitsValue(d)]), false)
      == y + "-" + mo + "-" + d
  {
    var f := Assign(Unset, [DigitsValue(y)]);
    AssignYear(Unset, DigitsValue(y));
    AssignYear(f, DigitsValue(y));
    var g := Assign(f, [DigitsValue(y), DigitsValue(mo), DigitsValue(d)]);
    AssignDate(f, DigitsValue(y), DigitsValue(mo), DigitsValue(d));
    AssignDate(g, DigitsValue(y), DigitsValue(mo), DigitsValue(d));
    DisplayOfDate(y, mo, d, false);
  }

  /** What encodeDate prints after a run of three values starting with the
      year and then two runs of the year and two other values `m`, `dd`: the
      year and those two values, no time. */
  lemma {:induction false} DatesThenMisread(y: string, v1: seq<int>, v2: seq<int>, m: int, dd: int)
    requires DigitField(y, 4) && |v1| == 3 && v1[0] == DigitsValue(y)
    requires v2 == [DigitsValue(y), m, dd]
    ensures Display(Assign(Assign(Assign(Unset, v1), v2), v2), false)
      == y + "-" + FormatInt(m, 2) + "-" + FormatInt(dd, 2)
  {
    assert v1 == [v1[0], v1[1], v1[2]];
    var f := Assign(Unset, v1);
    AssignDate(Unset, v1[0], v1[1], v1[2]);
    var g := Assign(f, v2);
    AssignDate(f, DigitsValue(y), m, dd);
    AssignDate(g, DigitsValue(y), m, dd);
    FormatDigits(y);
  }

  /** encodeDate's second branch: the display format stopped after some but
      not all of its fields and the UTC format read all six. */
  lemma {:induction false} EncodeSecond(s: string, v1: seq<int>, v2: seq<int>)
    requires s != "" && IsDigit(s[0])
    requires ScanRun(s, DisplayPattern).values == v1 && 0 < |v1| < 6
    requires ScanRun(s, UtcPattern).values == v2 && |v2| == 6
    ensures EncodeDate(s) == Some(Display(Assign(Assign(Unset, v1), v2), false))
  {
  }

  /** encodeDate's third branch: neither date-time format read six fields
      (each read at least one), the date format read three. */
  lemma {:induction false} EncodeThird(s: string, v1: seq<int>, v2: seq<int>, v3: seq<int>)
    requires s != "" && IsDigit(s[0])
    requires ScanRun(s, DisplayPattern).values == v1 && 0 < |v1| < 6
    requires ScanRun(s, UtcPattern).values == v2 && 0 < |v2| < 6
    requires ScanRun(s, DatePattern).values == v3 && |v3| == 3
    ensures EncodeDate(s) == Some(Display(Assign(Assign(Assign(Unset, v1), v2), v3), false))
  {
  }

  /** The corrected encodeDate's third branch: the display formats stopped
      early, the UTC format read all six fields. */
  lemma {:induction false} EncodeCorrectedThird(s: string, v1: seq<int>, v0: seq<int>, v2: seq<int>)
    requires s != "" && IsDigit(s[0])
    requires ScanRun(s, DisplayPattern).values == v1 && 0 < |v1| < 6
    requires ScanRun(s, DisplayDatePattern).values == v0 && 0 < |v0| < 3
    requires ScanRun(s, UtcPattern).values == v2 && |v2| == 6
    ensures EncodeDateCorrected(s) == Some(Display(Assign(Assign(Assign(Unset, v1), v0), v2), false))
  {
  }

  /** The corrected encodeDate's fourth branch: only the date format read
      all its fields. */
  lemma {:induction false} EncodeCorrectedFourth(s: string, v1: seq<int>, v0: seq<int>, v2: seq<int>, v3: seq<int>)
    requires s != "" && IsDigit(s[0])
    requires ScanRun(s, DisplayPattern).values == v1 && 0 < |v1| < 6
    requires ScanRun(s, DisplayDatePattern).values == v0 && 0 < |v0| < 3
    requires ScanRun(s, UtcPattern).values == v2 && 0 < |v2| < 6
    requires ScanRun(s, DatePattern).values == v3 && |v3| == 3
    ensures EncodeDateCorrected(s) == Some(Display(Assign(Assign(Assign(Assign(Unset, v1), v0), v2), v3), false))
  {
  }

  /** The display formats read only the year `v[0]` of `s`, and the UTC
      format reads all six values `v`. */
  predicate ScannedAsUtc(s: string, v: seq<int>)
  {
    s != "" && IsDigit(s[0]) && |v| == 6
    && ScanRun(s, DisplayPattern).values == [v[0]]
    && ScanRun(s, DisplayDatePattern).values == [v[0]]
    && ScanRun(s, UtcPattern).values == v
  }

  /** The three formats encodeDate tries first, on a UTC date-time. */
  lemma {:induction false} UtcScans(y: string, mo: string, d: string, h: string, mi: string, se: string, s: string)
    requires DigitField(y, 4) && DigitField(mo, 2) && DigitField(d, 2)
    requires DigitField(h, 2) && DigitField(mi, 2) && DigitField(se, 2)
    requires s == y + mo + d + "T" + h + mi + se + "Z"
    ensures ScannedAsUtc(s, [DigitsValue(y), DigitsValue(mo), DigitsValue(d), DigitsValue(h), DigitsValue(mi), DigitsValue(se)])
  {
    var time := "T" + (h + (mi + (se + "Z")));
    var t := mo + (d + time);
    VCardDateTimeText(y, mo, d, h, mi, se, "Z");
    assert s == y + t && s[0] == y[0] && t[0] == mo[0];
    assert DisplayPattern[0] == Conv(4) && DisplayPattern[1] == Literal('-');
    YearThenDigit(y, t, s, DisplayPattern);
    YearThenDigit(y, t, s, DisplayDatePattern);
    UtcRun(y, mo, d, h, mi, se, time, s);
  }

  /** encodeDate, as written and as intended, on text scanned as a UTC
      date-time: the values of the UTC format, printed. */
  lemma {:induction false} EncodeScannedUtc(s: string, v: seq<int>)
    requires ScannedAsUtc(s, v)
    ensures EncodeDate(s) == Some(Display(Assign(Assign(Unset, [v[0]]), v), false))
    ensures EncodeDateCorrected(s) == Some(Display(Assign(Assign(Assign(Unset, [v[0]]), [v[0]]), v), false))
  {
    EncodeSecond(s, [v[0]], v);
    EncodeCorrectedThird(s, [v[0]], [v[0]], v);
  }

  /** encodeDate on a UTC date-time `YYYYMMDDTHHMMSSZ`: the display form,
      without a zone. */
  lemma {:induction false} EncodeUtc(y: string, mo: string, d: string, h: string, mi: string, se: string)
    requires DigitField(y, 4) && DigitField(mo, 2) && DigitField(d, 2)
    requires DigitField(h, 2) && DigitField(mi, 2) && DigitField(se, 2)
    ensures EncodeDate(y + mo + d + "T" + h + mi + se + "Z") == Some(DisplayText(y, mo, d, h, mi, se, false))
    ensures EncodeDateCorrected(y + mo + d + "T" + h + mi + se + "Z") == Some(DisplayText(y, mo, d, h, mi, se, false))
  {
    var s := y + mo + d + "T" + h + mi + se + "Z";
    var six := [DigitsValue(y), DigitsValue(mo), DigitsValue(d), DigitsValue(h), DigitsValue(mi), DigitsValue(se)];
    UtcScans(y, mo, d, h, mi, se, s);
    EncodeScannedUtc(s, six);
    YearThenSix(y, mo, d, h, mi, se);
  }

  /** encodeDate on a vCard date `YYYYMMDD`: `YYYY-MM-DD`. */
  lemma {:induction false} EncodeVCardDate(y: string, mo: string, d: string)
    requires DigitField(y, 4) && DigitField(mo, 2) && DigitField(d, 2)
    ensures EncodeDate(y + mo + d) == Some(y + "-" + mo + "-" + d)
    ensures EncodeDateCorrected(y + mo + d) == Some(y + "-" + mo + "-" + d)
  {
    var t := mo + (d + "");
    var s := y + t;
    assert s == y + mo + d && s[0] == y[0] && t[0] == mo[0];
    assert DisplayPattern[0] == Conv(4) && DisplayPattern[1] == Literal('-');
    YearThenDigit(y, t, s, DisplayPattern);
    YearThenDigit(y, t, s, DisplayDatePattern);
    DateRuns(y, mo, d, s);
    var three := [DigitsValue(y), DigitsValue(mo), DigitsValue(d)];
    EncodeThird(s, [DigitsValue(y)], three, three);
    EncodeCorrectedFourth(s, [DigitsValue(y)], [DigitsValue(y)], three, three);
    YearThenDates(y, mo, d);
  }

  /** A display date alone, read by the two vCard formats that encodeDate
      tries next: both take the month's `-` as a sign (see
      MisreadDisplayDate); the date-time format then stops at the `-` before
      the day, and the date format has nothing left to read. */
  lemma {:induction false} MisreadRuns(y: string, c0: char, c1: char, d: string, s: string)
    requires DigitField(y, 4) && IsDigit(c0) && IsDigit(c1) && s == y + ("-" + [c0] + ([c1] + (['-'] + d)))
    ensures ScanRun(s, UtcPattern) == Run([DigitsValue(y), Negated(c0), DigitValue(c1)], false, false)
    ensures ScanRun(s, DatePattern) == Run([DigitsValue(y), Negated(c0), DigitValue(c1)], true, false)
  {
    var p := UtcPattern;
    assert p[0] == Conv(4) && p[1] == Conv(2) && p[2] == Conv(2) && p[3..][0] == Literal('T');
    MisreadDisplayDate(y, c0, c1, ['-'] + d, p);
    ScanMismatch('-', d, p[3..]);
    PrependNothing([DigitsValue(y), Negated(c0), DigitValue(c1)], false, false);
    var q := DatePattern;
    assert q[0] == Conv(4) && q[1] == Conv(2) && q[2] == Conv(2) && q[3..] == [];
    MisreadDisplayDate(y, c0, c1, ['-'] + d, q);
    PrependNothing([DigitsValue(y), Negated(c0), DigitValue(c1)], true, false);
  }

  /** A display date written out, regrouped the two ways it is read. */
  lemma {:induction false} DisplayDateText(y: string, c0: char, c1: char, d: string)
    ensures y + "-" + [c0, c1] + "-" + d == y + ("-" + [c0] + ([c1] + (['-'] + d)))
    ensures y + "-" + [c0, c1] + "-" + d == y + ("-" + ([c0, c1] + ("-" + (d + ""))))
  {
  }

  /** The display format reads `s` as the year `y` and some month and day,
      and both vCard formats read it as that year and the values `m`, `dd`. */
  predicate Misread(s: string, y: string, m: int, dd: int)
  {
    DigitField(y, 4) && s != "" && IsDigit(s[0])
    && |ScanRun(s, DisplayPattern).values| == 3 && ScanRun(s, DisplayPattern).values[0] == DigitsValue(y)
    && ScanRun(s, UtcPattern).values == [DigitsValue(y), m, dd]
    && ScanRun(s, DatePattern).values == [DigitsValue(y), m, dd]
  }

  /** The three formats encodeDate tries, on a display date alone. */
  lemma {:induction false} DisplayDateAllRuns(y: string, c0: char, c1: char, d: string, s: string)
    requires DigitField(y, 4) && IsDigit(c0) && IsDigit(c1) && DigitField(d, 2)
    requires s == y + "-" + [c0, c1] + "-" + d
    ensures ScanRun(s, DisplayPattern).values == [DigitsValue(y), DigitsValue([c0, c1]), DigitsValue(d)]
    ensures Misread(s, y, Negated(c0), DigitValue(c1))
  {
    DisplayDateText(y, c0, c1, d);
    assert s[0] == y[0];
    DisplayDateRuns(y, [c0, c1], d, s);
    MisreadRuns(y, c0, c1, d, s);
  }

  /** encodeDate, as written, on a display date `YYYY-MM-DD` with no time:
      the display format reads three fields and stops, the vCard date-time
      format then reads the month as a negative number and its second digit
      as the day (see MisreadRuns), and the vCard date format does the same
      and succeeds, so those misread fields are printed. */
  lemma {:induction false} EncodeDisplayDateAsWritten(y: string, c0: char, c1: char, d: string)
    requires DigitField(y, 4) && IsDigit(c0) && IsDigit(c1) && DigitField(d, 2)
    ensures EncodeDate(y + "-" + [c0, c1] + "-" + d)
      == Some(y + "-" + FormatInt(Negated(c0), 2) + "-" + FormatInt(DigitValue(c1), 2))
  {
    var s := y + "-" + [c0, c1] + "-" + d;
    DisplayDateAllRuns(y, c0, c1, d, s);
    EncodeMisread(s, y, Negated(c0), DigitValue(c1));
  }

  /** encodeDate on any text that the display format reads as a date and
      both vCard formats read as the same three other values. */
  lemma {:induction false} EncodeMisread(s: string, y: string, m: int, dd: int)
    requires Misread(s, y, m, dd)
    ensures EncodeDate(s) == Some(y + "-" + FormatInt(m, 2) + "-" + FormatInt(dd, 2))
  {
    var v1 := ScanRun(s, DisplayPattern).values;
    var v2 := ScanRun(s, DatePattern).values;
    EncodeThird(s, v1, v2, v2);
    DatesThenMisread(y, v1, v2, m, dd);
  }

  /** encodeDate as intended, on a display date `YYYY-MM-DD` with no time:
      the same date. */
  lemma {:induction false} EncodeDisplayDate(y: string, mo: string, d: string)
    requires DigitField(y, 4) && DigitField(mo, 2) && DigitField(d, 2)
    ensures EncodeDateCorrected(y + "-" + mo + "-" + d) == Some(y + "-" + mo + "-" + d)
  {
    var s := y + "-" + mo + "-" + d;
    assert s == y + ("-" + (mo + ("-" + (d + "")))) && s[0] == y[0];
    DisplayDateRuns(y, mo, d, s);
    var three := [DigitsValue(y), DigitsValue(mo), DigitsValue(d)];
    var f1 := Assign(Unset, three);
    AssignDate(Unset, DigitsValue(y), DigitsValue(mo), DigitsValue(d));
    AssignDate(f1, DigitsValue(y), DigitsValue(mo), DigitsValue(d));
    DisplayOfDate(y, mo, d, false);
  }

  /** encodeDate on any text decodeDate prints from digit fields: the same
      date and time without ` (UTC)`. As written this holds only when the
      time is not midnight, as intended it always holds. */
  lemma {:induction false} EncodeDisplayText(y: string, mo: string, d: string, h: string, mi: string, se: string, utc: bool)
    requires DigitField(y, 4) && DigitField(mo, 2) && DigitField(d, 2)
    requires DigitField(h, 2) && DigitField(mi, 2) && DigitField(se, 2)
    ensures EncodeDateCorrected(DisplayText(y, mo, d, h, mi, se, utc)) == Some(DisplayText(y, mo, d, h, mi, se, false))
    ensures !(h == "00" && mi == "00" && se == "00")
      ==> EncodeDate(DisplayText(y, mo, d, h, mi, se, utc)) == Some(DisplayText(y, mo, d, h, mi, se, false))
  {
    if h == "00" && mi == "00" && se == "00" {
      EncodeDisplayDate(y, mo, d);
    } else {
      EncodeDisplay(y, mo, d, h, mi, se, if utc then " (UTC)" else "");
      assert y + "-" + mo + "-" + d + " " + h + ":" + mi + ":" + se + "" == y + "-" + mo + "-" + d + " " + h + ":" + mi + ":" + se;
    }
  }

  /** A vCard date-time or date, decoded for display and encoded again
      (as intended), comes back as the same display date and time, without
      ` (UTC)`. */
  lemma {:induction false} DecodeThenEncode(y: string, mo: string, d: string, h: string, mi: string, se: string)
    requires DigitField(y, 4) && DigitField(mo, 2) && DigitField(d, 2)
    requires DigitField(h, 2) && DigitField(mi, 2) && DigitField(se, 2)
    ensures DecodeDate(y + mo + d + "T" + h + mi + se + "Z").Some?
    ensures EncodeDateCorrected(DecodeDate(y + mo + d + "T" + h + mi + se + "Z").value)
      == Some(DisplayText(y, mo, d, h, mi, se, false))
    ensures DecodeDate(y + mo + d).Some?
    ensures EncodeDateCorrected(DecodeDate(y + mo + d).value) == DecodeDate(y + mo + d)
  {
    DecodeUtc(y, mo, d, h, mi, se);
    EncodeDisplayText(y, mo, d, h, mi, se, true);
    DecodeDateOnly(y, mo, d);
    EncodeDisplayDate(y, mo, d);
  }

  /** `%02d` of the values the misread gives for a month `0M`. */
  lemma {:induction false} MisreadFormats(c1: char)
    requires IsDigit(c1)
    ensures FormatInt(Negated('0'), 2) == "00"
    ensures FormatInt(DigitValue(c1), 2) == ['0', c1]
  {
    assert DigitsValue("00") == 0 by {
      assert "00"[..1] == "0" && "0"[..0] == "";
    }
    FormatDigits("00");
    assert DigitsValue(['0', c1]) == DigitValue(c1) by {
      assert ['0', c1][..1] == "0" && "0"[..0] == "";
    }
    FormatDigits(['0', c1]);
  }

  /** encodeDate, as written, does not give back a display date whose month
      is 01 to 09: the month it prints is 00. */
  lemma {:induction false} MisreadMonthDiffers(y: string, c1: char, d: string)
    requires DigitField(y, 4) && IsDigit(c1) && c1 != '0' && DigitField(d, 2)
    ensures EncodeDate(y + "-" + ['0', c1] + "-" + d).Some?
    ensures EncodeDate(y + "-" + ['0', c1] + "-" + d) != Some(y + "-" + ['0', c1] + "-" + d)
  {
    EncodeMonthBelowTen(y, c1, d);
    MonthDigitShown(y, c1, d);
  }

  /** `YYYY-0M-DD` and `YYYY-00-0M` differ at the month's second digit. */
  lemma {:induction false} MonthDigitShown(y: string, c1: char, d: string)
    requires |y| == 4 && c1 != '0'
    ensures y + "-" + ['0', c1] + "-" + d != y + "-" + "00" + "-" + ['0', c1]
  {
    var shown, encoded := y + "-" + ['0', c1] + "-" + d, y + "-" + "00" + "-" + ['0', c1];
    assert shown[6] == c1 && encoded[6] == '0';
  }

  /** encodeDate, as written, on a display date whose month is 01 to 09:
      the month comes out as 00 and the day as the month. */
  lemma {:induction false} EncodeMonthBelowTen(y: string, c1: char, d: string)
    requires DigitField(y, 4) && IsDigit(c1) && DigitField(d, 2)
    ensures EncodeDate(y + "-" + ['0', c1] + "-" + d) == Some(y + "-" + "00" + "-" + ['0', c1])
  {
    EncodeDisplayDateAsWritten(y, '0', c1, d);
    MisreadFormats(c1);
  }

  /** The round trip as written, on a vCard date whose month is 01 to 09:
      decodeDate prints `YYYY-0M-DD`, and encodeDate turns that into
      `YYYY-00-0M`, which is not the date it was given. */
  lemma {:induction false} DecodeThenEncodeAsWritten(y: string, c1: char, d: string)
    requires DigitField(y, 4) && IsDigit(c1) && c1 != '0' && DigitField(d, 2)
    ensures DecodeDate(y + ['0', c1] + d) == Some(y + "-" + ['0', c1] + "-" + d)
    ensures EncodeDate(DecodeDate(y + ['0', c1] + d).value) != DecodeDate(y + ['0', c1] + d)
  {
    DecodeDateOnly(y, ['0', c1], d);
    MisreadMonthDiffers(y, c1, d);
  }

  // ---------------------------------------------------------------------
  // newCard and updateName
  // ---------------------------------------------------------------------

  /** The card newCard builds: FN with no group, no parameters and `fn` as
      its one value; no optional properties, no dates. */
  function NewCardValue(fn: string): CardValue
  {
    CardValue(Some(Property("", "FN", [], [fn])), [], None, None)
  }

  /** The card after updateName: FN's values are replaced by `fn` alone. */
  function Renamed(v: CardValue, fn: string): CardValue
    requires v.fn.Some?
  {
    v.(fn := Some(v.fn.value.(values := [fn])))
  }

  /** The common tail of newCard and updateName: validateCard (whose error is
      returned before anything is written), then writeCard. The result is the
      error code, the lines written and the counters validateCard leaves. */
  function ValidateThenWrite(fileName: string, c: Counters, v: CardValue): (ErrorCode, seq<string>, Counters)
  {
    var (c', e) := ValidateCardSpec(c, Some(v));
    if e != Ok then (e, [], c')
    else
      var (w, lines) := WriteLines(fileName, Some(v));
      (w, lines, c')
  }

  /** newCard. A bad file name is returned at once, with no card. The
      allocation failures of the source (INV_CARD, OTHER_ERROR) are not
      modelled. */
  method NewCard(fileName: string, fn: string, checker: CardinalityChecker)
    returns (err: ErrorCode, card: Card?, out: seq<string>)
    modifies checker
    ensures ValidateFileName(fileName) != Ok ==>
      err == ValidateFileName(fileName) && card == null && out == [] && checker.State() == old(checker.State())
    ensures ValidateFileName(fileName) == Ok ==>
      card != null && fresh(card) && card.Value() == NewCardValue(fn)
      && (err, out, checker.State()) == ValidateThenWrite(fileName, old(checker.State()), NewCardValue(fn))
  {
    err := ValidateFileName(fileName);
    if err != Ok {
      return err, null, [];
    }
    card := new Card();
    card.fn := Some(Property("", "FN", [], [fn]));
    err := ValidateCard(card, checker);
    if err != Ok {
      return err, card, [];
    }
    err, out := WriteCard(fileName, card);
  }

  /** updateName: the FN value list is cleared and `fn` inserted, the rest
      of the card is left as it was, then the card is validated and written.
      The source dereferences the card and its FN, so both must exist. */
  method UpdateName(fileName: string, fn: string, card: Card, checker: CardinalityChecker)
    returns (err: ErrorCode, out: seq<string>)
    requires card.fn.Some?
    modifies card, checker
    ensures card.fn.Some? && old(card.Value()).fn.Some?
    ensures card.Value() == Renamed(old(card.Value()), fn)
    ensures (err, out, checker.State()) == ValidateThenWrite(fileName, old(checker.State()), card.Value())
  {
    card.fn := Some(card.fn.value.(values := [fn]));
    err := ValidateCard(card, checker);
    if err != Ok {
      return err, [];
    }
    err, out := WriteCard(fileName, card);
  }

  /** A new card always passes validateCard and leaves the counters as they
      were, so under a valid file name newCard writes the whole card and
      returns OK; when the name is not empty and holds no `;`, createCard
      reads the written card back as the same card. */
  lemma {:induction false} NewCardWritten(fileName: string, fn: string, c: Counters)
    requires ValidateFileName(fileName) == Ok
    ensures ValidateThenWrite(fileName, c, NewCardValue(fn)) == (Ok, CardLines(NewCardValue(fn)), c)
    ensures fn != "" && ';' !in fn ==>
      CreateCardSpec(fileName, CardLines(NewCardValue(fn))) == (Ok, Some(NewCardValue(fn)))
  {
    var v := NewCardValue(fn);
    assert PropertyError(v.fn.value) == Ok;
    assert CheckOptional(c, []) == (c, Ok);
    if fn != "" && ';' !in fn {
      assert Writable(v);
      WriteThenCreate(fileName, v);
    }
  }

  /** updateName changes nothing validateCard looks at, as long as FN had a
      value: the card after it passes or fails validateCard exactly as before. */
  lemma {:induction false} RenamedValidation(v: CardValue, fn: string, c: Counters)
    requires v.fn.Some? && v.fn.value.values != []
    ensures ValidateCardSpec(c, Some(Renamed(v, fn))) == ValidateCardSpec(c, Some(v))
  {
    assert PropertyError(Renamed(v, fn).fn.value) == PropertyError(v.fn.value);
  }

  /** updateName on a card createCard reads back, with a name that is not
      empty and holds no `;`: the renamed card is written and read back as
      itself, so its FN value is the new name. */
  lemma {:induction false} RenamedWritten(fileName: string, v: CardValue, fn: string)
    requires ValidateFileName(fileName) == Ok && Writable(v) && fn != "" && ';' !in fn
    ensures WriteLines(fileName, Some(Renamed(v, fn))) == (Ok, CardLines(Renamed(v, fn)))
    ensures CreateCardSpec(fileName, CardLines(Renamed(v, fn))) == (Ok, Some(Renamed(v, fn)))
    ensures Renamed(v, fn).fn.value.values == [fn]
  {
    var w := Renamed(v, fn);
    assert w.optionalProperties == v.optionalProperties;
    assert Writable(w);
    WriteThenCreate(fileName, w);
  }

  /** A card made by newCard and renamed by updateName is the card newCard
      would have made with the new name. */
  lemma {:induction false} RenameNewCard(a: string, b: string)
    ensures Renamed(NewCardValue(a), b) == NewCardValue(b)
  {
  }
}
