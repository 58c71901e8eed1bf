/** createCard, writeCard and validateCard of src/VCParser.c. A file is the
    sequence of its physical lines as fgets returns them (line ends
    included); what writeCard emits is the sequence of the strings it
    prints. Opening, closing and seeking the file are not part of this
    model: the file's lines are given, and reading starts again at the third
    line after validateFileCard, where the source seeks back to. */
module VCCard {
  import opened VCardTypes
  import opened VCParser
  import opened VCHelpers
  import opened VCValidate

  // ---------------------------------------------------------------------
  // createCard
  // ---------------------------------------------------------------------

  /** What one pass of createCard's main loop does with the line it reads. */
  datatype Step = Stop | Fail(error: ErrorCode) | Next(i: nat, card: CardValue)

  /** One pass of createCard's main loop on line `i`, `acc` being the card so
      far: `END:VCARD` stops the loop; `FN:` lines and lines led by a blank are
      skipped; `BDAY` and `ANNIVERSARY` lines are parsed as dates and replace
      the card's date; any other line, unfolded with the continuation lines
      after it, is parsed by createProperty as written (CreatePropertyAsWritten)
      and appended to the optional properties. */
  function ReadStep(lines: seq<string>, i: nat, acc: CardValue): (s: Step)
    requires i < |lines|
    ensures s.Fail? ==> s.error == InvProp || s.error == OtherError
    ensures s.Next? ==> i < s.i <= |lines| && s.card.fn == acc.fn
    ensures s.Next? ==> acc.optionalProperties <= s.card.optionalProperties
    ensures s.Next? && s.card.birthday.None? ==> acc.birthday.None?
    ensures s.Next? && s.card.anniversary.None? ==> acc.anniversary.None?
  {
    var buffer := StripLineEnd(lines[i]);
    if StartsWith(buffer, "END:VCARD") then Stop
    else if StartsWith(buffer, "FN:") || StartsWith(buffer, " ") || StartsWith(buffer, "\t") then
      Next(i + 1, acc)
    else if StartsWith(buffer, "BDAY") then
      match CreateDateTime(buffer)
      case Failure(e) => Fail(e)
      case Success(d) => Next(i + 1, acc.(birthday := Some(d)))
    else if StartsWith(buffer, "ANNIVERSARY") then
      match CreateDateTime(buffer)
      case Failure(e) => Fail(e)
      case Success(d) => Next(i + 1, acc.(anniversary := Some(d)))
    else
      var c := ContinuationEnd(lines, i + 1);
      CreatePropertyAsWrittenResult(buffer + Unfolded(lines, i + 1, c));
      match CreatePropertyAsWritten(buffer + Unfolded(lines, i + 1, c))
      case Failure(e) => Fail(e)
      case Success(p) => Next(c, acc.(optionalProperties := acc.optionalProperties + [p]))
  }

  /** createCard's main loop from line `i` on: passes run until the loop stops,
      a pass fails (leaving the card as it was then) or the file ends. */
  function ReadFrom(lines: seq<string>, i: nat, acc: CardValue): (r: (ErrorCode, CardValue))
    ensures r.0 == Ok || r.0 == InvProp || r.0 == OtherError
    ensures r.1.fn == acc.fn
    ensures acc.optionalProperties <= r.1.optionalProperties
    ensures r.1.birthday.None? ==> acc.birthday.None?
    ensures r.1.anniversary.None? ==> acc.anniversary.None?
    decreases |lines| - i
  {
    if i >= |lines| then (Ok, acc)
    else
      match ReadStep(lines, i, acc)
      case Stop => (Ok, acc)
      case Fail(e) => (e, acc)
      case Next(j, next) => ReadFrom(lines, j, next)
  }

  /** createCard: the file name is checked, a card is allocated, the envelope
      is checked (which stores FN), then the main loop runs from the third
      line. No card comes back when the name or the envelope is refused; when
      the main loop fails, the card filled so far comes back with the error. */
  function CreateCardSpec(fileName: string, lines: seq<string>): (r: (ErrorCode, Option<CardValue>))
    ensures r.1.None? <==> ValidateFileName(fileName) != Ok || FileCardCheck(lines).error != Ok
    ensures r.1.None? ==> r.0 != Ok
    ensures r.1.Some? ==> (r.0 == Ok || r.0 == InvProp || r.0 == OtherError)
    ensures r.1.Some? ==> r.1.value.fn.Some? && r.1.value.fn == FileCardCheck(lines).fn
  {
    var nameError := ValidateFileName(fileName);
    if nameError != Ok then (nameError, None)
    else
      var envelope := FileCardCheck(lines);
      if envelope.error != Ok then (envelope.error, None)
      else
        FileCardAccepted(lines);
        var (e, card) := ReadFrom(lines, 2, CardValue(envelope.fn, [], None, None));
        (e, Some(card))
  }

  /** createCard's unfolding loop: while the next line starts with a blank,
      fgetc takes the blank, fgets the rest of the line, and the rest is
      appended once removeCRLF and removeSpace have run on it. */
  method UnfoldAfterBlank(lines: seq<string>, first: string, j0: nat) returns (text: string, j: nat)
    requires j0 <= |lines|
    ensures j == ContinuationEnd(lines, j0)
    ensures text == first + Unfolded(lines, j0, j)
  {
    text := first;
    j := j0;
    while j < |lines| && IsContinuation(lines[j])
      invariant j0 <= j <= |lines|
      invariant ContinuationEnd(lines, j0) == ContinuationEnd(lines, j)
      invariant text == first + Unfolded(lines, j0, j)
      decreases |lines| - j
    {
      var rest := ReadContinuation(lines[j][1..]);
      UnindentedAfterFirstBlank(lines[j]);
      UnfoldedStep(lines, first, j0, j);
      text := text + rest;
      j := j + 1;
    }
  }

  /** Appending the next continuation line extends the unfolded text. */
  lemma {:induction false} UnfoldedStep(lines: seq<string>, first: string, j0: nat, j: nat)
    requires j0 <= j < |lines|
    ensures first + Unfolded(lines, j0, j + 1) == first + Unfolded(lines, j0, j) + Unindented(lines[j])
  {
  }

  /** One pass of createCard's main loop: the line is read through
      removeCRLF, and the card's fields are set as the pass says. */
  method ReadLineInto(lines: seq<string>, i: nat, card: Card) returns (s: Step)
    requires i < |lines|
    modifies card
    ensures s == ReadStep(lines, i, old(card.Value()))
    ensures card.Value() == if s.Next? then s.card else old(card.Value())
  {
    var buffer := ReadLine(lines[i]);
    if StartsWith(buffer, "END:VCARD") {
      return Stop;
    }
    if StartsWith(buffer, "FN:") || StartsWith(buffer, " ") || StartsWith(buffer, "\t") {
      return Next(i + 1, card.Value());
    }
    if StartsWith(buffer, "BDAY") {
      var bday := CreateDateTime(buffer);
      if bday.Failure? {
        return Fail(bday.error);
      }
      card.birthday := Some(bday.value);
      return Next(i + 1, card.Value());
    }
    if StartsWith(buffer, "ANNIVERSARY") {
      var ann := CreateDateTime(buffer);
      if ann.Failure? {
        return Fail(ann.error);
      }
      card.anniversary := Some(ann.value);
      return Next(i + 1, card.Value());
    }
    var text, j := UnfoldAfterBlank(lines, buffer, i + 1);
    var prop := CreatePropertyAsWritten(text);
    if prop.Failure? {
      return Fail(prop.error);
    }
    card.optionalProperties := card.optionalProperties + [prop.value];
    return Next(j, card.Value());
  }

  /** createCard. */
  method CreateCard(fileName: string, lines: seq<string>) returns (err: ErrorCode, card: Card?)
    ensures card != null ==> fresh(card)
    ensures (err, if card == null then None else Some(card.Value())) == CreateCardSpec(fileName, lines)
  {
    err := ValidateFileName(fileName);
    if err != Ok {
      return err, null;
    }
    card := new Card();
    err := ValidateFileCard(lines, card);
    if err != Ok {
      return err, null;
    }
    ghost var start := card.Value();
    assert start == CardValue(FileCardCheck(lines).fn, [], None, None);
    var i := 2;
    while i < |lines|
      invariant i <= |lines|
      invariant ReadFrom(lines, 2, start) == ReadFrom(lines, i, card.Value())
      decreases |lines| - i
    {
      var s := ReadLineInto(lines, i, card);
      match s
      case Stop =>
        return Ok, card;
      case Fail(e) =>
        return e, card;
      case Next(j, _) =>
        i := j;
    }
    return Ok, card;
  }

  // ---------------------------------------------------------------------
  // writeCard
  // ---------------------------------------------------------------------

  /** A printed line followed by CRLF, as fprintf writes it. */
  function Crlf(s: string): string
  {
    s + "\r\n"
  }

  /** The optional properties' lines, in list order. */
  function PropertyLines(ps: seq<Property>): (r: seq<string>)
    ensures |r| == |ps|
    ensures forall k :: 0 <= k < |ps| ==> r[k] == Crlf(PropertyToString(ps[k]))
  {
    if |ps| == 0 then [] else [Crlf(PropertyToString(ps[0]))] + PropertyLines(ps[1..])
  }

  /** The BDAY and ANNIVERSARY lines of a card, each when present, the birthday first. */
  function DateLines(card: CardValue): (r: seq<string>)
    ensures |r| == (if card.birthday.Some? then 1 else 0) + (if card.anniversary.Some? then 1 else 0)
    ensures card.birthday.Some? ==> r[0] == Crlf(BdayText(card.birthday))
    ensures card.anniversary.Some? ==> r[|r| - 1] == Crlf(AnnText(card.anniversary))
  {
    (if card.birthday.Some? then [Crlf(BdayText(card.birthday))] else [])
    + (if card.anniversary.Some? then [Crlf(AnnText(card.anniversary))] else [])
  }

  /** writeCard: what it returns and the lines it prints. A NULL card or a
      bad file name is refused before anything is printed; a card without FN
      is refused after BEGIN and VERSION are. */
  function WriteLines(fileName: string, card: Option<CardValue>): (r: (ErrorCode, seq<string>))
    ensures r.0 == Ok || r.0 == WriteError
    ensures r.0 == Ok <==> card.Some? && ValidateFileName(fileName) == Ok && card.value.fn.Some?
    ensures r.0 == Ok ==>
      |r.1| == 4 + |DateLines(card.value)| + |card.value.optionalProperties|
      && r.1[0] == "BEGIN:VCARD\r\n" && r.1[1] == "VERSION:4.0\r\n"
      && r.1[2] == Crlf(PropertyToString(card.value.fn.value))
      && r.1[|r.1| - 1] == "END:VCARD\r\n"
  {
    if card.None? || ValidateFileName(fileName) != Ok then (WriteError, [])
    else
      var header := ["BEGIN:VCARD\r\n", "VERSION:4.0\r\n"];
      match card.value.fn
      case None => (WriteError, header)
      case Some(fn) => (Ok, CardLines(card.value))
  }

  /** Everything writeCard prints for a card with FN: the header, FN, the
      dates, the optional properties in list order and END. */
  function CardLines(v: CardValue): seq<string>
    requires v.fn.Some?
  {
    ["BEGIN:VCARD\r\n", "VERSION:4.0\r\n", Crlf(PropertyToString(v.fn.value))] + DateLines(v)
    + PropertyLines(v.optionalProperties) + ["END:VCARD\r\n"]
  }

  /** writeCard. */
  method WriteCard(fileName: string, card: Card?) returns (err: ErrorCode, out: seq<string>)
    ensures (err, out) == WriteLines(fileName, if card == null then None else Some(card.Value()))
  {
    if card == null {
      return WriteError, [];
    }
    if ValidateFileName(fileName) != Ok {
      return WriteError, [];
    }
    out := ["BEGIN:VCARD\r\n", "VERSION:4.0\r\n"];
    if card.fn == None {
      return WriteError, out;
    }
    out := out + [Crlf(PropertyToString(card.fn.value))];
    if card.birthday != None {
      out := out + [Crlf(BdayText(card.birthday))];
    }
    if card.anniversary != None {
      out := out + [Crlf(AnnText(card.anniversary))];
    }
    assert out == ["BEGIN:VCARD\r\n", "VERSION:4.0\r\n", Crlf(PropertyToString(card.fn.value))]
                  + DateLines(card.Value());
    var printed := PrintProperties(card.optionalProperties);
    out := out + printed + ["END:VCARD\r\n"];
    return Ok, out;
  }

  /** writeCard's loop over the optional properties, one line each. */
  method PrintProperties(ps: seq<Property>) returns (out: seq<string>)
    ensures out == PropertyLines(ps)
  {
    out := [];
    var k := 0;
    while k < |ps|
      invariant 0 <= k <= |ps|
      invariant out == PropertyLines(ps[..k])
    {
      PropertyLinesPrefix(ps, k);
      out := out + [Crlf(PropertyToString(ps[k]))];
      k := k + 1;
    }
    assert ps[..k] == ps;
  }

  /** The lines of a list's first k + 1 properties are those of its first k and one more. */
  lemma {:induction false} PropertyLinesPrefix(ps: seq<Property>, k: nat)
    requires k < |ps|
    ensures PropertyLines(ps[..k + 1]) == PropertyLines(ps[..k]) + [Crlf(PropertyToString(ps[k]))]
  {
    assert ps[..k + 1] == ps[..k] + [ps[k]];
    PropertyLinesAppend(ps[..k], ps[k]);
  }

  /** Printing one more property prints one more line. */
  lemma {:induction false} PropertyLinesAppend(ps: seq<Property>, p: Property)
    ensures PropertyLines(ps + [p]) == PropertyLines(ps) + [Crlf(PropertyToString(p))]
  {
  }

  // ---------------------------------------------------------------------
  // validateCard
  // ---------------------------------------------------------------------

  /** validateCard's pass over the optional properties: validateProperty,
      then cardnalityCheck on the name, stopping at the first error. */
  function CheckOptional(c: Counters, ps: seq<Property>): (r: (Counters, ErrorCode))
    ensures r.1 == Ok || r.1 == InvProp || r.1 == InvCard || r.1 == InvDt
    ensures AtMostOne(c) ==> AtMostOne(r.0)
    decreases |ps|
  {
    if |ps| == 0 then (c, Ok)
    else if PropertyError(ps[0]) != Ok then (c, PropertyError(ps[0]))
    else
      var (c', e) := CardinalityStep(c, ps[0].name);
      if e != Ok then (c', e) else CheckOptional(c', ps[1..])
  }

  /** validateCard, with the counters cardnalityCheck keeps between calls. */
  function ValidateCardSpec(c: Counters, card: Option<CardValue>): (r: (Counters, ErrorCode))
    ensures AtMostOne(c) ==> AtMostOne(r.0)
  {
    if card.None? || card.value.fn.None? then (c, InvCard)
    else if PropertyError(card.value.fn.value) != Ok then (c, PropertyError(card.value.fn.value))
    else
      var (c', e) := CheckOptional(c, card.value.optionalProperties);
      if e != Ok then (c', e)
      else if card.value.birthday.Some? && ValidateDateTime(card.value.birthday.value) != Ok then
        (c', ValidateDateTime(card.value.birthday.value))
      else if card.value.anniversary.Some? && ValidateDateTime(card.value.anniversary.value) != Ok then
        (c', ValidateDateTime(card.value.anniversary.value))
      else (c', Ok)
  }

  /** validateCard. */
  method ValidateCard(card: Card?, checker: CardinalityChecker) returns (err: ErrorCode)
    modifies checker
    ensures (checker.State(), err)
            == ValidateCardSpec(old(checker.State()), if card == null then None else Some(card.Value()))
  {
    if card == null || card.fn == None {
      return InvCard;
    }
    err := ValidateProperty(card.fn.value);
    if err != Ok {
      return err;
    }
    var ps := card.optionalProperties;
    var k := 0;
    while k < |ps|
      invariant 0 <= k <= |ps|
      invariant CheckOptional(old(checker.State()), ps) == CheckOptional(checker.State(), ps[k..])
    {
      assert ps[k..][1..] == ps[k + 1..];
      err := ValidateProperty(ps[k]);
      if err != Ok {
        return err;
      }
      err := checker.Check(ps[k].name);
      if err != Ok {
        return err;
      }
      k := k + 1;
    }
    if card.birthday != None {
      err := ValidateDateTime(card.birthday.value);
      if err != Ok {
        return err;
      }
    }
    if card.anniversary != None {
      err := ValidateDateTime(card.anniversary.value);
      if err != Ok {
        return err;
      }
    }
    return Ok;
  }

  /** The counters persist between calls: a card with one KIND property
      passes on fresh counters, and the very same card fails with INV_PROP
      when validated again without resetting them. */
  lemma {:induction false} KindTwice(v: CardValue)
    requires v.fn.Some? && PropertyError(v.fn.value) == Ok
    requires |v.optionalProperties| == 1 && v.optionalProperties[0].name == "KIND"
    requires PropertyError(v.optionalProperties[0]) == Ok
    requires v.birthday.Some? ==> ValidateDateTime(v.birthday.value) == Ok
    requires v.anniversary.Some? ==> ValidateDateTime(v.anniversary.value) == Ok
    ensures ValidateCardSpec(NoCounts, Some(v)) == (NoCounts.(kind := 1), Ok)
    ensures ValidateCardSpec(NoCounts.(kind := 1), Some(v)) == (NoCounts, InvProp)
  {
    var ps := v.optionalProperties;
    assert ps[1..] == [];
    assert CheckOptional(NoCounts, ps) == (NoCounts.(kind := 1), Ok);
    assert CheckOptional(NoCounts.(kind := 1), ps) == (NoCounts, InvProp);
  }

  /** The verdict of validateCard is the first error in its order: FN first,
      then each optional property (validateProperty, then cardnalityCheck),
      then the birthday, then the anniversary. In particular a card with an
      invalid FN is refused for it, whatever follows, and no counter moves. */
  lemma {:induction false} ValidateCardFnFirst(c: Counters, v: CardValue)
    requires v.fn.Some? && PropertyError(v.fn.value) != Ok
    ensures ValidateCardSpec(c, Some(v)) == (c, InvProp)
  {
  }

  // ---------------------------------------------------------------------
  // Reading back what writeCard writes
  // ---------------------------------------------------------------------

  /** An optional property whose line createCard reads back as a property:
      it prints so that the source's createProperty parses it back (without a
      group, no `.` in its parameter), and its line is not
      one the main loop treats otherwise (a continuation, FN, a date or END). */
  predicate OptionalWritable(p: Property)
  {
    Printable(p) && AsWrittenReadable(p)
    && var s := PropertyToString(p);
    !StartsWith(s, " ") && !StartsWith(s, "\t") && !StartsWith(s, "FN:")
    && !StartsWith(s, "BDAY") && !StartsWith(s, "ANNIVERSARY") && !StartsWith(s, "END:VCARD")
  }

  /** A card writeCard writes so that createCard reads the same card back: an
      FN written as a bare `FN:` line that parses back, dates that reparse,
      and optional properties whose lines read back as properties. */
  predicate Writable(v: CardValue)
  {
    && v.fn.Some? && v.fn.value.group == "" && v.fn.value.name == "FN" && v.fn.value.parameters == []
    && Printable(v.fn.value)
    && (v.birthday.Some? ==> Reparsable(v.birthday.value))
    && (v.anniversary.Some? ==> Reparsable(v.anniversary.value))
    && forall k :: 0 <= k < |v.optionalProperties| ==> OptionalWritable(v.optionalProperties[k])
  }

  /** fprintf's CRLF is what removeCRLF takes off again. */
  lemma {:induction false} StripCrlf(s: string)
    ensures StripLineEnd(Crlf(s)) == s
  {
    var t := Crlf(s);
    assert t[..|t| - 2] == s;
  }

  /** A prefix without line-end characters is seen alike before and after the CRLF. */
  lemma {:induction false} StartsWithCrlf(s: string, prefix: string)
    requires '\r' !in prefix && '\n' !in prefix
    ensures StartsWith(Crlf(s), prefix) <==> StartsWith(s, prefix)
  {
    var t := Crlf(s);
    if |prefix| <= |s| {
      assert t[..|prefix|] == s[..|prefix|];
    } else if |prefix| <= |t| {
      assert t[..|prefix|][|s|] == '\r';
    }
  }

  /** A written line continues the one before it only if the printed text starts with a blank. */
  lemma {:induction false} ContinuationCrlf(s: string)
    ensures IsContinuation(Crlf(s)) <==> StartsWith(s, " ") || StartsWith(s, "\t")
  {
    var t := Crlf(s);
    if |s| > 0 {
      assert t[0] == s[0];
      assert s[..1] == [s[0]];
    }
  }

  /** The END search stops at the first raw line starting with `END:VCARD`. */
  lemma {:induction false} EndLineAt(lines: seq<string>, i: nat, k: nat)
    requires i <= k < |lines| && StartsWith(lines[k], "END:VCARD")
    requires forall m :: i <= m < k ==> !StartsWith(lines[m], "END:VCARD")
    ensures EndLine(lines, i) == k
    decreases k - i
  {
    if i < k {
      EndLineAt(lines, i + 1, k);
    }
  }

  /** The line kinds createCard's main loop tells apart by their first character. */
  lemma {:induction false} LeadingCharacter(s: string)
    requires |s| > 0
    ensures s[0] != 'E' ==> !StartsWith(s, "END:VCARD")
    ensures s[0] != 'F' ==> !StartsWith(s, "FN:")
    ensures s[0] != ' ' ==> !StartsWith(s, " ")
    ensures s[0] != '\t' ==> !StartsWith(s, "\t")
    ensures s[0] != 'B' ==> !StartsWith(s, "BDAY")
    ensures s[0] != 'A' ==> !StartsWith(s, "ANNIVERSARY")
  {
  }

  /** The pass on a written FN line skips it. */
  lemma {:induction false} ReadFnLine(lines: seq<string>, i: nat, acc: CardValue, fn: Property)
    requires i < |lines| && lines[i] == Crlf(PropertyToString(fn))
    requires fn.group == "" && fn.name == "FN" && fn.parameters == []
    ensures ReadStep(lines, i, acc) == Next(i + 1, acc)
  {
    var s := PropertyToString(fn);
    StripCrlf(s);
    assert s == "FN:" + DropTrailingSemicolon(ValuesText(fn.values));
    assert s[..3] == "FN:" && s[0] == 'F';
    assert !StartsWith(s, "END:VCARD") && StartsWith(s, "FN:");
  }

  /** The pass on a written BDAY line restores the birthday. */
  lemma {:induction false} ReadBdayLine(lines: seq<string>, i: nat, acc: CardValue, d: DateTime)
    requires i < |lines| && lines[i] == Crlf(BdayText(Some(d))) && Reparsable(d)
    ensures ReadStep(lines, i, acc) == Next(i + 1, acc.(birthday := Some(d)))
  {
    var s := BdayText(Some(d));
    StripCrlf(s);
    KeyedText("BDAY", DateToString(d), s);
    LeadingCharacter(s);
    ParsePrintedDate("BDAY", d);
  }

  /** The pass on a written ANNIVERSARY line restores the anniversary. */
  lemma {:induction false} ReadAnnLine(lines: seq<string>, i: nat, acc: CardValue, d: DateTime)
    requires i < |lines| && lines[i] == Crlf(AnnText(Some(d))) && Reparsable(d)
    ensures ReadStep(lines, i, acc) == Next(i + 1, acc.(anniversary := Some(d)))
  {
    var s := AnnText(Some(d));
    StripCrlf(s);
    KeyedText("ANNIVERSARY", DateToString(d), s);
    LeadingCharacter(s);
    ParsePrintedDate("ANNIVERSARY", d);
  }

  /** A key, a colon and a value: the text starts with the key and with its
      first character. */
  lemma {:induction false} KeyedText(key: string, value: string, s: string)
    requires |key| > 0 && s == key + ":" + value
    ensures |s| > 0 && s[0] == key[0] && StartsWith(s, key)
  {
    assert s[..|key|] == key;
  }

  /** The pass on a written optional property appends it, when the next line
      does not continue it. */
  lemma {:induction false} ReadPropertyLine(lines: seq<string>, i: nat, acc: CardValue, p: Property)
    requires i + 1 < |lines| && lines[i] == Crlf(PropertyToString(p)) && OptionalWritable(p)
    requires !IsContinuation(lines[i + 1])
    ensures ReadStep(lines, i, acc) == Next(i + 1, acc.(optionalProperties := acc.optionalProperties + [p]))
  {
    var s := PropertyToString(p);
    StripCrlf(s);
    ParsePrintedAsWritten(p);
    ReadPlainProperty(lines, i, acc, s, p);
  }

  /** The pass on a line whose text is none of the kinds the loop tells
      apart, not continued, and parses into `p`, appends `p`. */
  lemma {:induction false} ReadPlainProperty(lines: seq<string>, i: nat, acc: CardValue, s: string, p: Property)
    requires i + 1 < |lines| && StripLineEnd(lines[i]) == s && !IsContinuation(lines[i + 1])
    requires !StartsWith(s, " ") && !StartsWith(s, "\t") && !StartsWith(s, "FN:")
    requires !StartsWith(s, "BDAY") && !StartsWith(s, "ANNIVERSARY") && !StartsWith(s, "END:VCARD")
    requires CreatePropertyAsWritten(s) == Success(p)
    ensures ReadStep(lines, i, acc) == Next(i + 1, acc.(optionalProperties := acc.optionalProperties + [p]))
  {
    assert ContinuationEnd(lines, i + 1) == i + 1;
    assert s + Unfolded(lines, i + 1, i + 1) == s;
  }

  /** The pass on such a line that the source's createProperty refuses ends
      the main loop with createProperty's error. */
  lemma {:induction false} ReadRefusedProperty(lines: seq<string>, i: nat, acc: CardValue, s: string)
    requires i + 1 < |lines| && StripLineEnd(lines[i]) == s && !IsContinuation(lines[i + 1])
    requires !StartsWith(s, " ") && !StartsWith(s, "\t") && !StartsWith(s, "FN:")
    requires !StartsWith(s, "BDAY") && !StartsWith(s, "ANNIVERSARY") && !StartsWith(s, "END:VCARD")
    requires CreatePropertyAsWritten(s).Failure?
    ensures ReadStep(lines, i, acc) == Fail(CreatePropertyAsWritten(s).error)
  {
    assert ContinuationEnd(lines, i + 1) == i + 1;
    assert s + Unfolded(lines, i + 1, i + 1) == s;
  }

  /** writeCard prints the property TEL with parameter TYPE=a.b as
      `TEL;TYPE=a.b:1`, and createCard's main loop stops on that line with
      OTHER_ERROR: the source's createProperty refuses it. */
  lemma {:induction false} ReadDottedParameterLine(lines: seq<string>, i: nat, acc: CardValue, p: Property)
    requires p == Property("", "TEL", [Parameter("TYPE", "a.b")], ["1"])
    requires i + 1 < |lines| && lines[i] == Crlf(PropertyToString(p)) && !IsContinuation(lines[i + 1])
    ensures ReadStep(lines, i, acc) == Fail(OtherError)
  {
    DottedParameterPrinted(p);
    var s := "TEL;TYPE=a.b:1";
    StripCrlf(s);
    LeadingCharacter(s);
    AsWrittenDottedParameterExample();
    ReadRefusedProperty(lines, i, acc, s);
  }

  /** From line `i` on: the lines of the optional properties `ps`, then the END line. */
  predicate WrittenFrom(lines: seq<string>, i: nat, ps: seq<Property>)
    decreases |ps|
  {
    i < |lines|
    && if |ps| == 0 then lines[i] == "END:VCARD\r\n"
       else lines[i] == Crlf(PropertyToString(ps[0])) && WrittenFrom(lines, i + 1, ps[1..])
  }

  /** Every property of `ps` reads back as an optional property. */
  predicate AllOptionalWritable(ps: seq<Property>)
    decreases |ps|
  {
    |ps| > 0 ==> OptionalWritable(ps[0]) && AllOptionalWritable(ps[1..])
  }

  /** The recursive form of Writable's condition on the optional properties. */
  lemma {:induction false} AllOptionalWritableOf(ps: seq<Property>)
    requires forall k :: 0 <= k < |ps| ==> OptionalWritable(ps[k])
    ensures AllOptionalWritable(ps)
    decreases |ps|
  {
    if |ps| > 0 {
      var rest := ps[1..];
      assert forall k :: 0 <= k < |rest| ==> rest[k] == ps[k + 1];
      AllOptionalWritableOf(rest);
    }
  }

  /** Lines `i`, `i + 1`, ... hold the printed properties of `ps`. */
  predicate PrintedAt(lines: seq<string>, i: nat, ps: seq<Property>)
  {
    i + |ps| <= |lines| && forall k :: 0 <= k < |ps| ==> lines[i + k] == Crlf(PropertyToString(ps[k]))
  }

  /** The first of printed properties, and the rest one line further on. */
  lemma {:induction false} PrintedAtFirst(lines: seq<string>, i: nat, ps: seq<Property>)
    requires |ps| > 0 && PrintedAt(lines, i, ps)
    ensures i < |lines| && lines[i] == Crlf(PropertyToString(ps[0]))
    ensures PrintedAt(lines, i + 1, ps[1..])
  {
    assert lines[i + 0] == Crlf(PropertyToString(ps[0]));
    forall k | 0 <= k < |ps| - 1
      ensures lines[i + 1 + k] == Crlf(PropertyToString(ps[1..][k]))
    {
      assert i + 1 + k == i + (k + 1);
      assert ps[1..][k] == ps[k + 1];
    }
  }

  /** Lines that hold the properties' lines from `i` on and then the END
      line are such a run. */
  lemma {:induction false} WrittenFromIndexed(lines: seq<string>, i: nat, ps: seq<Property>)
    requires PrintedAt(lines, i, ps) && i + |ps| < |lines| && lines[i + |ps|] == "END:VCARD\r\n"
    ensures WrittenFrom(lines, i, ps)
    decreases |ps|
  {
    if |ps| > 0 {
      PrintedAtFirst(lines, i, ps);
      WrittenFromIndexed(lines, i + 1, ps[1..]);
    }
  }

  /** What writeCard prints after the dates is such a run of lines. */
  lemma {:induction false} WrittenFromPrinted(pre: seq<string>, ps: seq<Property>)
    ensures WrittenFrom(pre + PropertyLines(ps) + ["END:VCARD\r\n"], |pre|, ps)
  {
    var lines := pre + PropertyLines(ps) + ["END:VCARD\r\n"];
    PartsAt(lines, pre, PropertyLines(ps), "END:VCARD\r\n");
    WrittenFromIndexed(lines, |pre|, ps);
  }

  /** The written optional properties and END line are read back as the
      properties, in order. */
  lemma {:induction false} ReadProperties(lines: seq<string>, i: nat, ps: seq<Property>, acc: CardValue)
    requires WrittenFrom(lines, i, ps) && AllOptionalWritable(ps)
    ensures ReadFrom(lines, i, acc) == (Ok, acc.(optionalProperties := acc.optionalProperties + ps))
    decreases |ps|
  {
    if |ps| == 0 {
      ReadEndLine(lines, i, acc);
      assert acc.optionalProperties + ps == acc.optionalProperties;
    } else {
      var rest := ps[1..];
      var acc' := acc.(optionalProperties := acc.optionalProperties + [ps[0]]);
      ReadWrittenProperty(lines, i, ps, acc);
      ReadProperties(lines, i + 1, rest, acc');
      AppendFirst(acc, ps, acc');
    }
  }

  /** Appending the first of `ps` and then the rest appends all of `ps`. */
  lemma {:induction false} AppendFirst(acc: CardValue, ps: seq<Property>, acc': CardValue)
    requires |ps| > 0 && acc' == acc.(optionalProperties := acc.optionalProperties + [ps[0]])
    ensures acc'.(optionalProperties := acc'.optionalProperties + ps[1..])
      == acc.(optionalProperties := acc.optionalProperties + ps)
  {
    AppendAssoc(acc.optionalProperties, [ps[0]], ps[1..]);
    assert [ps[0]] + ps[1..] == ps;
  }

  /** The pass on the END line stops the loop. */
  lemma {:induction false} ReadEndLine(lines: seq<string>, i: nat, acc: CardValue)
    requires i < |lines| && lines[i] == "END:VCARD\r\n"
    ensures ReadFrom(lines, i, acc) == (Ok, acc)
  {
    StripCrlf("END:VCARD");
    assert StripLineEnd(lines[i]) == "END:VCARD";
    assert StartsWith("END:VCARD", "END:VCARD");
    assert ReadStep(lines, i, acc) == Stop;
  }

  /** The first of a run of written optional properties is read and appended. */
  lemma {:induction false} ReadWrittenProperty(lines: seq<string>, i: nat, ps: seq<Property>, acc: CardValue)
    requires |ps| > 0 && WrittenFrom(lines, i, ps) && AllOptionalWritable(ps)
    ensures WrittenFrom(lines, i + 1, ps[1..]) && AllOptionalWritable(ps[1..])
    ensures ReadFrom(lines, i, acc) == ReadFrom(lines, i + 1, acc.(optionalProperties := acc.optionalProperties + [ps[0]]))
  {
    var rest := ps[1..];
    if |rest| > 0 {
      ContinuationCrlf(PropertyToString(rest[0]));
    }
    ReadPropertyLine(lines, i, acc, ps[0]);
    ReadFromNext(lines, i, acc, i + 1, acc.(optionalProperties := acc.optionalProperties + [ps[0]]));
  }

  /** Where each part of a written card sits among its lines. */
  lemma {:induction false} CardLinesAt(v: CardValue)
    requires v.fn.Some?
    ensures var lines := CardLines(v);
      var dates := DateLines(v);
      var ps := v.optionalProperties;
      && |lines| == 4 + |dates| + |ps|
      && lines[0] == "BEGIN:VCARD\r\n" && lines[1] == "VERSION:4.0\r\n"
      && lines[2] == Crlf(PropertyToString(v.fn.value))
      && (forall j :: 0 <= j < |dates| ==> lines[3 + j] == dates[j])
      && (forall k :: 0 <= k < |ps| ==> lines[3 + |dates| + k] == Crlf(PropertyToString(ps[k])))
      && lines[|lines| - 1] == "END:VCARD\r\n"
      && lines == lines[..3 + |dates|] + PropertyLines(ps) + ["END:VCARD\r\n"]
  {
    var dates := DateLines(v);
    var head := ["BEGIN:VCARD\r\n", "VERSION:4.0\r\n", Crlf(PropertyToString(v.fn.value))] + dates;
    var lines := CardLines(v);
    var ps := v.optionalProperties;
    assert lines == head + PropertyLines(ps) + ["END:VCARD\r\n"];
    PartsAt(lines, head, PropertyLines(ps), "END:VCARD\r\n");
    forall j | 0 <= j < |dates|
      ensures lines[3 + j] == dates[j]
    {
      assert lines[3 + j] == head[3 + j];
    }
    forall k | 0 <= k < |ps|
      ensures lines[3 + |dates| + k] == Crlf(PropertyToString(ps[k]))
    {
      assert lines[|head| + k] == PropertyLines(ps)[k];
    }
  }

  /** Where each part of `head + middle + [last]` sits. */
  lemma {:induction false} PartsAt(lines: seq<string>, head: seq<string>, middle: seq<string>, last: string)
    requires lines == head + middle + [last]
    ensures |lines| == |head| + |middle| + 1
    ensures forall j :: 0 <= j < |head| ==> lines[j] == head[j]
    ensures forall k :: 0 <= k < |middle| ==> lines[|head| + k] == middle[k]
    ensures lines[|lines| - 1] == last
    ensures lines[..|head|] == head
  {
  }

  /** A printed line whose text starts with neither `E` nor a blank is
      neither an END line nor a continuation line. */
  lemma {:induction false} PlainText(s: string)
    requires |s| > 0 && s[0] != 'E' && !IsBlank(s[0])
    ensures PlainLine(Crlf(s))
  {
    assert Crlf(s)[0] == s[0];
  }

  /** Written date lines are neither END lines nor continuation lines. */
  lemma {:induction false} DateLinesPlain(v: CardValue)
    ensures AllPlain(DateLines(v))
  {
    if v.birthday.Some? {
      PlainText(BdayText(v.birthday));
    }
    if v.anniversary.Some? {
      PlainText(AnnText(v.anniversary));
    }
  }

  /** Written optional properties are neither END lines nor continuation lines. */
  lemma {:induction false} PropertyLinePlain(p: Property)
    requires OptionalWritable(p)
    ensures PlainLine(Crlf(PropertyToString(p)))
  {
    StartsWithCrlf(PropertyToString(p), "END:VCARD");
    ContinuationCrlf(PropertyToString(p));
  }

  /** A bare FN line that is not continued is where validateFileCard finds
      FN, and its text is the printed property. */
  lemma {:induction false} WrittenFnText(lines: seq<string>, fn: Property)
    requires |lines| >= 4 && lines[2] == Crlf(PropertyToString(fn)) && !IsContinuation(lines[3])
    requires fn.group == "" && fn.name == "FN" && fn.parameters == []
    ensures FnLine(lines, 2) == 2 && FnEnd(lines, 2) == 3
    ensures FnText(lines, 2) == PropertyToString(fn)
  {
    var s := PropertyToString(fn);
    StripCrlf(s);
    assert s == "FN:" + DropTrailingSemicolon(ValuesText(fn.values));
    assert StartsWith(s, "FN:");
    assert FnText(lines, 2) == s + "";
  }

  /** ... and it parses back into the FN property. */
  lemma {:induction false} WrittenFnParses(lines: seq<string>, fn: Property)
    requires |lines| >= 4 && lines[2] == Crlf(PropertyToString(fn)) && !IsContinuation(lines[3])
    requires fn.group == "" && fn.name == "FN" && fn.parameters == [] && Printable(fn)
    ensures FnLine(lines, 2) == 2 && FnEnd(lines, 2) == 3
    ensures CreateProperty(FnText(lines, 2)) == Success(fn)
  {
    WrittenFnText(lines, fn);
    ParsePrinted(fn);
  }

  /** validateFileCard accepts lines with the header, an FN line found on the
      third line that is not continued and parses, and an END line as the
      last line and the only one from the fourth on. */
  lemma {:induction false} WrittenEnvelope(lines: seq<string>, fn: Property)
    requires |lines| >= 4
    requires lines[0] == "BEGIN:VCARD\r\n" && lines[1] == "VERSION:4.0\r\n"
    requires FnLine(lines, 2) == 2 && FnEnd(lines, 2) == 3
    requires CreateProperty(FnText(lines, 2)) == Success(fn)
    requires lines[|lines| - 1] == "END:VCARD\r\n"
    requires forall m :: 3 <= m < |lines| - 1 ==> !StartsWith(lines[m], "END:VCARD")
    ensures FileCardCheck(lines) == Envelope(Ok, Some(fn))
  {
    WrittenLiterals();
    EndLineAt(lines, 3, |lines| - 1);
    FileCardVerdict(lines, 2, |lines| - 1);
  }

  /** The header and END lines a card is written with start with what
      validateFileCard looks for. */
  lemma {:induction false} WrittenLiterals()
    ensures StartsWith("BEGIN:VCARD\r\n", "BEGIN:VCARD")
    ensures StartsWith("VERSION:4.0\r\n", "VERSION:4.0")
    ensures StartsWith("END:VCARD\r\n", "END:VCARD")
  {
    PrefixOfCrlf("BEGIN:VCARD");
    PrefixOfCrlf("VERSION:4.0");
    PrefixOfCrlf("END:VCARD");
  }

  /** A line starts with its own text before the CRLF; for the write-then-read round trip. */
  lemma {:induction false} PrefixOfCrlf(s: string)
    ensures StartsWith(s + "\r\n", s)
  {
    assert (s + "\r\n")[..|s|] == s;
  }

  /** A line neither the END search nor the unfolding loop stops at or takes. */
  predicate PlainLine(line: string)
  {
    !StartsWith(line, "END:VCARD") && !IsContinuation(line)
  }

  /** Every line is plain. */
  predicate AllPlain(lines: seq<string>)
  {
    forall j :: 0 <= j < |lines| ==> PlainLine(lines[j])
  }

  /** Between three header lines and a last END line, only plain lines:
      the END search ends on the last line and the fourth does not continue
      the third. */
  lemma {:induction false} PlainMiddle(head: seq<string>, middle: seq<string>)
    requires |head| == 3 && AllPlain(middle)
    ensures var lines := head + middle + ["END:VCARD\r\n"];
      && (forall m :: 3 <= m < |lines| - 1 ==> !StartsWith(lines[m], "END:VCARD"))
      && !IsContinuation(lines[3])
  {
    var lines := head + middle + ["END:VCARD\r\n"];
    forall m | 3 <= m < |lines| - 1
      ensures !StartsWith(lines[m], "END:VCARD")
    {
      assert lines[m] == middle[m - 3];
    }
    if |middle| > 0 {
      assert lines[3] == middle[0];
    } else {
      assert lines[3] == "END:VCARD\r\n";
    }
  }

  /** The dates and optional properties of a writable card print as plain lines. */
  lemma {:induction false} WrittenMiddlePlain(v: CardValue)
    requires forall k :: 0 <= k < |v.optionalProperties| ==> OptionalWritable(v.optionalProperties[k])
    ensures AllPlain(DateLines(v) + PropertyLines(v.optionalProperties))
  {
    var dates := DateLines(v);
    var printed := PropertyLines(v.optionalProperties);
    DateLinesPlain(v);
    forall k | 0 <= k < |printed|
      ensures PlainLine(printed[k])
    {
      PropertyLinePlain(v.optionalProperties[k]);
    }
    PlainConcat(dates, printed);
  }

  /** Plain lines stay plain when concatenated; for WrittenCardEnvelope. */
  lemma {:induction false} PlainConcat(a: seq<string>, b: seq<string>)
    requires AllPlain(a) && AllPlain(b)
    ensures AllPlain(a + b)
  {
    forall j | 0 <= j < |a + b|
      ensures PlainLine((a + b)[j])
    {
      if j >= |a| {
        assert (a + b)[j] == b[j - |a|];
      }
    }
  }

  /** The header, a bare FN line that parses back, plain lines and the END
      line pass validateFileCard with that FN. */
  lemma {:induction false} PlainCardEnvelope(fn: Property, middle: seq<string>)
    requires fn.group == "" && fn.name == "FN" && fn.parameters == [] && Printable(fn)
    requires AllPlain(middle)
    ensures var head := ["BEGIN:VCARD\r\n", "VERSION:4.0\r\n", Crlf(PropertyToString(fn))];
      FileCardCheck(head + middle + ["END:VCARD\r\n"]) == Envelope(Ok, Some(fn))
  {
    var head := ["BEGIN:VCARD\r\n", "VERSION:4.0\r\n", Crlf(PropertyToString(fn))];
    var lines := head + middle + ["END:VCARD\r\n"];
    PlainMiddle(head, middle);
    assert lines[2] == Crlf(PropertyToString(fn));
    WrittenFnParses(lines, fn);
    WrittenEnvelope(lines, fn);
  }

  /** The lines of a writable card pass validateFileCard with its FN. */
  lemma {:induction false} WrittenCardEnvelope(v: CardValue)
    requires Writable(v)
    ensures FileCardCheck(CardLines(v)) == Envelope(Ok, v.fn)
  {
    WrittenMiddlePlain(v);
    PlainCardEnvelope(v.fn.value, DateLines(v) + PropertyLines(v.optionalProperties));
    CardLinesSplit(v);
  }

  /** A written card is its header and FN line, its middle lines and END. */
  lemma {:induction false} CardLinesSplit(v: CardValue)
    requires v.fn.Some?
    ensures CardLines(v)
      == ["BEGIN:VCARD\r\n", "VERSION:4.0\r\n", Crlf(PropertyToString(v.fn.value))]
         + (DateLines(v) + PropertyLines(v.optionalProperties)) + ["END:VCARD\r\n"]
  {
  }

  /** createCard's main loop passes over a written FN line and the written
      date lines after it, restoring the dates. */
  lemma {:induction false} ReadWrittenHead(lines: seq<string>, v: CardValue)
    requires v.fn.Some? && v.fn.value.group == "" && v.fn.value.name == "FN" && v.fn.value.parameters == []
    requires v.birthday.Some? ==> Reparsable(v.birthday.value)
    requires v.anniversary.Some? ==> Reparsable(v.anniversary.value)
    requires |lines| > 3 + |DateLines(v)| && lines[2] == Crlf(PropertyToString(v.fn.value))
    requires forall j :: 0 <= j < |DateLines(v)| ==> lines[3 + j] == DateLines(v)[j]
    ensures ReadFrom(lines, 2, CardValue(v.fn, [], None, None))
      == ReadFrom(lines, 3 + |DateLines(v)|, CardValue(v.fn, [], v.birthday, v.anniversary))
  {
    var acc0 := CardValue(v.fn, [], None, None);
    ReadFnLine(lines, 2, acc0, v.fn.value);
    ReadFromNext(lines, 2, acc0, 3, acc0);
    var dates := DateLines(v);
    if v.birthday.Some? {
      assert lines[3 + 0] == dates[0];
    }
    if v.anniversary.Some? {
      assert lines[3 + (|dates| - 1)] == dates[|dates| - 1];
    }
    ReadWrittenDates(lines, v);
  }

  /** The written date lines, read from the fourth line on. */
  lemma {:induction false} ReadWrittenDates(lines: seq<string>, v: CardValue)
    requires v.birthday.Some? ==> Reparsable(v.birthday.value) && 3 < |lines| && lines[3] == Crlf(BdayText(v.birthday))
    requires v.anniversary.Some? ==> Reparsable(v.anniversary.value)
    requires v.anniversary.Some? ==> var i := if v.birthday.Some? then 4 else 3;
      i < |lines| && lines[i] == Crlf(AnnText(v.anniversary))
    ensures ReadFrom(lines, 3, CardValue(v.fn, [], None, None))
      == ReadFrom(lines, 3 + |DateLines(v)|, CardValue(v.fn, [], v.birthday, v.anniversary))
  {
    var start := CardValue(v.fn, [], None, None);
    var dated := CardValue(v.fn, [], v.birthday, None);
    var i := if v.birthday.Some? then 4 else 3;
    ReadOptionalBday(lines, 3, start, v.birthday);
    assert ReadFrom(lines, 3, start) == ReadFrom(lines, i, dated);
    ReadOptionalAnn(lines, i, dated, v.anniversary);
    assert dated.(anniversary := v.anniversary) == CardValue(v.fn, [], v.birthday, v.anniversary);
    assert |DateLines(v)| == i - 3 + (if v.anniversary.Some? then 1 else 0);
  }

  /** A pass that moves on to line `j` leaves the rest of the loop from `j`. */
  lemma {:induction false} ReadFromNext(lines: seq<string>, i: nat, acc: CardValue, j: nat, next: CardValue)
    requires i < |lines| && ReadStep(lines, i, acc) == Next(j, next)
    ensures ReadFrom(lines, i, acc) == ReadFrom(lines, j, next)
  {
  }

  /** A written BDAY line, if the card has a birthday. */
  lemma {:induction false} ReadOptionalBday(lines: seq<string>, i: nat, acc: CardValue, b: Option<DateTime>)
    requires acc.birthday.None?
    requires b.Some? ==> i < |lines| && lines[i] == Crlf(BdayText(b)) && Reparsable(b.value)
    ensures ReadFrom(lines, i, acc) == ReadFrom(lines, if b.Some? then i + 1 else i, acc.(birthday := b))
  {
    if b.Some? {
      ReadBdayLine(lines, i, acc, b.value);
      ReadFromNext(lines, i, acc, i + 1, acc.(birthday := b));
    } else {
      assert acc.(birthday := b) == acc;
    }
  }

  /** A written ANNIVERSARY line, if the card has an anniversary. */
  lemma {:induction false} ReadOptionalAnn(lines: seq<string>, i: nat, acc: CardValue, a: Option<DateTime>)
    requires acc.anniversary.None?
    requires a.Some? ==> i < |lines| && lines[i] == Crlf(AnnText(a)) && Reparsable(a.value)
    ensures ReadFrom(lines, i, acc) == ReadFrom(lines, if a.Some? then i + 1 else i, acc.(anniversary := a))
  {
    if a.Some? {
      ReadAnnLine(lines, i, acc, a.value);
      ReadFromNext(lines, i, acc, i + 1, acc.(anniversary := a));
    } else {
      assert acc.(anniversary := a) == acc;
    }
  }

  /** createCard's main loop reads written optional properties and the END
      line back as those properties. */
  lemma {:induction false} ReadWrittenTail(pre: seq<string>, ps: seq<Property>, acc: CardValue)
    requires forall k :: 0 <= k < |ps| ==> OptionalWritable(ps[k])
    ensures ReadFrom(pre + PropertyLines(ps) + ["END:VCARD\r\n"], |pre|, acc)
      == (Ok, acc.(optionalProperties := acc.optionalProperties + ps))
  {
    WrittenFromPrinted(pre, ps);
    AllOptionalWritableOf(ps);
    ReadProperties(pre + PropertyLines(ps) + ["END:VCARD\r\n"], |pre|, ps, acc);
  }

  /** createCard's main loop reads the lines of a writable card back into
      that card. */
  lemma {:induction false} ReadWritten(v: CardValue)
    requires Writable(v)
    ensures ReadFrom(CardLines(v), 2, CardValue(v.fn, [], None, None)) == (Ok, v)
  {
    var lines := CardLines(v);
    var n := 3 + |DateLines(v)|;
    CardLinesAt(v);
    ReadWrittenHead(lines, v);
    var acc := CardValue(v.fn, [], v.birthday, v.anniversary);
    ReadWrittenTail(lines[..n], v.optionalProperties, acc);
    assert [] + v.optionalProperties == v.optionalProperties;
  }

  /** Round trip: a writable card that writeCard writes under a valid file
      name is read back by createCard as the same card, with no error. */
  lemma {:induction false} WriteThenCreate(fileName: string, v: CardValue)
    requires ValidateFileName(fileName) == Ok && Writable(v)
    ensures WriteLines(fileName, Some(v)) == (Ok, CardLines(v))
    ensures CreateCardSpec(fileName, CardLines(v)) == (Ok, Some(v))
  {
    WrittenCardEnvelope(v);
    ReadWritten(v);
  }
}
