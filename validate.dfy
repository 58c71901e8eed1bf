/** src/VCValidate.c: the file-name and value validators, the cardinality
    counters that persist between calls, and the envelope check a file must
    pass before createCard reads its properties. */
module VCValidate {
  import opened VCardTypes
  import opened VCHelpers

  // ---------------------------------------------------------------------
  // validateFileName
  // ---------------------------------------------------------------------

  /** validateFileName: OK for a name ending in `.vcf` or `.vcard`. */
  function ValidateFileName(name: string): (r: ErrorCode)
    ensures r == Ok || r == InvFile
  {
    if |name| >= 4 && name[|name| - 4..] == ".vcf" then Ok
    else if |name| >= 6 && name[|name| - 6..] == ".vcard" then Ok
    else InvFile
  }

  /** A file name is accepted exactly when it is some stem followed by one of the two extensions. */
  lemma {:induction false} ValidateFileNameIff(name: string)
    ensures ValidateFileName(name) == Ok <==>
      (exists stem :: name == stem + ".vcf") || (exists stem :: name == stem + ".vcard")
  {
    if ValidateFileName(name) == Ok {
      if |name| >= 4 && name[|name| - 4..] == ".vcf" {
        assert name == name[..|name| - 4] + ".vcf";
      } else {
        assert name == name[..|name| - 6] + ".vcard";
      }
    }
    if exists stem :: name == stem + ".vcf" {
      var stem :| name == stem + ".vcf";
      assert name[|name| - 4..] == ".vcf";
    }
    if exists stem :: name == stem + ".vcard" {
      var stem :| name == stem + ".vcard";
      assert name[|name| - 6..] == ".vcard";
    }
  }

  /** The check looks at the end of the name only: `.vcf.txt` is refused, `x.txt.vcf` accepted. */
  lemma {:induction false} ValidateFileNameExtensionLast(stem: string)
    ensures ValidateFileName(stem + ".vcf" + ".txt") == InvFile
    ensures ValidateFileName(stem + ".txt" + ".vcf") == Ok
  {
    var a := stem + ".vcf" + ".txt";
    assert a[|a| - 4..] == ".txt";
    assert a[|a| - 6..] == "cf.txt";
    ValidateFileNameIff(stem + ".txt" + ".vcf");
  }

  // ---------------------------------------------------------------------
  // validateDateTime and validateParameter
  // ---------------------------------------------------------------------

  /** validateDateTime: free text must be non-empty, local and alone; a
      structured value must have no text. Date and time are not inspected. */
  function ValidateDateTime(d: DateTime): (r: ErrorCode)
    ensures r == Ok || r == InvDt
  {
    if d.isText then
      if d.utc then InvDt
      else if d.date != "" || d.time != "" then InvDt
      else if d.text == "" then InvDt
      else Ok
    else if d.text != "" then InvDt
    else Ok
  }

  /** What createDateTime produces passes validateDateTime exactly when it is
      not free text ending in `Z`. */
  lemma {:induction false} CreatedDateValid(line: string)
    requires CreateDateTime(line).Success?
    ensures ValidateDateTime(CreateDateTime(line).value) == Ok <==>
      !(CreateDateTime(line).value.isText && CreateDateTime(line).value.utc)
  {
    var d := CreateDateTime(line).value;
    if d.isText && d.text == "" {
      NoCircaInEmpty();
    }
  }

  /** A date that reads back unchanged after dateToString is also valid. */
  lemma {:induction false} ReparsableIsValid(d: DateTime)
    requires Reparsable(d)
    ensures ValidateDateTime(d) == Ok
  {
    if d.isText && d.text == "" {
      NoCircaInEmpty();
    }
  }

  /** validateParameter: both name and value must be non-empty. */
  function ValidateParameter(p: Parameter): (r: ErrorCode)
    ensures r == Ok || r == InvProp
  {
    if p.name == "" || p.value == "" then InvProp else Ok
  }

  /** The parameter createParameterList reads from `name=value` (no `;` or `=`
      in the name) is valid exactly when neither side is empty. */
  lemma {:induction false} ParsedParameterValid(name: string, value: string)
    requires '=' !in name && ';' !in name
    ensures ParameterList(name + "=" + value).Success?
    ensures ValidateParameter(ParameterList(name + "=" + value).value[0]) == Ok <==> name != "" && value != ""
  {
    ParameterListNoSemicolon(name + "=" + value, name, value);
  }

  // ---------------------------------------------------------------------
  // validateProperty
  // ---------------------------------------------------------------------

  /** The parameter check of validateProperty: the iterator is advanced twice
      per pass, so only positions 0, 2, 4, ... are validated. */
  function EvenParameterError(ps: seq<Parameter>): (r: ErrorCode)
    ensures r == Ok || r == InvProp
  {
    if |ps| == 0 then Ok
    else if ValidateParameter(ps[0]) != Ok then ValidateParameter(ps[0])
    else if |ps| == 1 then Ok
    else EvenParameterError(ps[2..])
  }

  /** validateProperty */
  function PropertyError(p: Property): (r: ErrorCode)
    ensures r == Ok || r == InvProp
  {
    if p.name == "" then InvProp
    else if |p.values| == 0 then InvProp
    else EvenParameterError(p.parameters)
  }

  /** validateProperty: the name, the values, then the parameter loop. */
  method ValidateProperty(p: Property) returns (err: ErrorCode)
    ensures err == PropertyError(p)
  {
    if p.name == "" {
      return InvProp;
    }
    if |p.values| == 0 {
      return InvProp;
    }
    var ps := p.parameters;
    var i := 0;
    while i < |ps|
      invariant i % 2 == 0
      invariant EvenParameterError(ps) == if i < |ps| then EvenParameterError(ps[i..]) else Ok
      decreases |ps| - i
    {
      err := ValidateParameter(ps[i]);
      if err != Ok {
        return err;
      }
      if i + 2 < |ps| {
        assert ps[i..][2..] == ps[i + 2..];
      }
      i := i + 2;
    }
    return Ok;
  }

  /** The parameter check fails exactly when a parameter at an even position is invalid. */
  lemma {:induction false} EvenParameterErrorIff(ps: seq<Parameter>)
    ensures EvenParameterError(ps) == Ok <==>
      forall i :: 0 <= i < |ps| && i % 2 == 0 ==> ValidateParameter(ps[i]) == Ok
    ensures EvenParameterError(ps) == Ok || EvenParameterError(ps) == InvProp
    decreases |ps|
  {
    if |ps| >= 2 && ValidateParameter(ps[0]) == Ok {
      EvenParameterErrorIff(ps[2..]);
      forall i | 2 <= i < |ps| && i % 2 == 0
        ensures ps[i] == ps[2..][i - 2]
      {
      }
    }
  }

  /** validateProperty accepts exactly a named property with values whose
      even-positioned parameters are all valid; its only error is INV_PROP. */
  lemma {:induction false} PropertyErrorIff(p: Property)
    ensures PropertyError(p) == Ok <==>
      p.name != "" && |p.values| > 0
      && forall i :: 0 <= i < |p.parameters| && i % 2 == 0 ==> ValidateParameter(p.parameters[i]) == Ok
    ensures PropertyError(p) == Ok || PropertyError(p) == InvProp
  {
    EvenParameterErrorIff(p.parameters);
  }

  /** An invalid parameter at an odd position goes unnoticed. */
  lemma {:induction false} OddParameterUnchecked(p: Property, good: Parameter, bad: Parameter)
    requires p.name != "" && |p.values| > 0 && p.parameters == [good, bad]
    requires ValidateParameter(good) == Ok
    ensures PropertyError(p) == Ok
  {
    var ps := p.parameters;
    assert ps[0] == good && |ps| == 2;
    assert ps[2..] == [];
    assert EvenParameterError(ps[2..]) == Ok;
  }

  /** Everything createProperty accepts with a value and valid parameter text
      passes validateProperty: it holds at most one parameter. */
  lemma {:induction false} ParsedPropertyValid(line: string)
    requires CreateProperty(line).Success?
    requires |CreateProperty(line).value.values| > 0
    requires forall i :: 0 <= i < |CreateProperty(line).value.parameters| ==>
      ValidateParameter(CreateProperty(line).value.parameters[i]) == Ok
    ensures PropertyError(CreateProperty(line).value) == Ok
  {
    PropertyErrorIff(CreateProperty(line).value);
  }

  /** The empty-name property that the source's createProperty accepts from a
      head ending in its only `.` (such as `G.:x`) is refused by
      validateProperty. */
  lemma {:induction false} AsWrittenEmptyNameInvalid(line: string)
    requires EmptyNameAfterGroup(line)
    ensures CreatePropertyAsWritten(line).Success?
    ensures PropertyError(CreatePropertyAsWritten(line).value) == InvProp
  {
    AsWrittenEmptyNameAfterGroup(line);
  }

  // ---------------------------------------------------------------------
  // cardnalityCheck: six counters kept in `static` variables.
  // ---------------------------------------------------------------------

  /** The six counters. */
  datatype Counters = Counters(kind: int, n: int, gender: int, prodid: int, rev: int, uid: int)

  /** Their value before the first call. */
  const NoCounts := Counters(0, 0, 0, 0, 0, 0)

  /** The names whose occurrences are counted. */
  predicate Tracked(name: string)
  {
    name == "KIND" || name == "N" || name == "GENDER" || name == "PRODID" || name == "REV" || name == "UID"
  }

  /** The counter a tracked name uses. */
  function Count(c: Counters, name: string): int
    requires Tracked(name)
  {
    match name
    case "KIND" => c.kind
    case "N" => c.n
    case "GENDER" => c.gender
    case "PRODID" => c.prodid
    case "REV" => c.rev
    case _ => c.uid
  }

  /** Every counter is 0 or 1. */
  predicate AtMostOne(c: Counters)
  {
    0 <= c.kind <= 1 && 0 <= c.n <= 1 && 0 <= c.gender <= 1
    && 0 <= c.prodid <= 1 && 0 <= c.rev <= 1 && 0 <= c.uid <= 1
  }

  /** One counter incremented; past 1 it is reset to 0 and the call fails. */
  function Bump(v: int): (int, ErrorCode)
  {
    if v + 1 > 1 then (0, InvProp) else (v + 1, Ok)
  }

  /** cardnalityCheck: the counters after the call and its result. */
  function CardinalityStep(c: Counters, name: string): (Counters, ErrorCode)
  {
    if name == "VERSION" || name == "FN" then (NoCounts, InvCard)
    else if name == "BDAY" || name == "ANN" then (NoCounts, InvDt)
    else if name == "KIND" then var (v, e) := Bump(c.kind); (c.(kind := v), e)
    else if name == "N" then var (v, e) := Bump(c.n); (c.(n := v), e)
    else if name == "GENDER" then var (v, e) := Bump(c.gender); (c.(gender := v), e)
    else if name == "PRODID" then var (v, e) := Bump(c.prodid); (c.(prodid := v), e)
    else if name == "REV" then var (v, e) := Bump(c.rev); (c.(rev := v), e)
    else if name == "UID" then var (v, e) := Bump(c.uid); (c.(uid := v), e)
    else (c, Ok)
  }

  /** The counters of cardnalityCheck, an object whose fields persist between calls. */
  class CardinalityChecker {
    var kind: int
    var n: int
    var gender: int
    var prodid: int
    var rev: int
    var uid: int

    function State(): Counters
      reads this
    {
      Counters(kind, n, gender, prodid, rev, uid)
    }

    /** The static counters start at zero. */
    constructor()
      ensures State() == NoCounts
    {
      kind, n, gender, prodid, rev, uid := 0, 0, 0, 0, 0, 0;
    }

    /** Clears all six counters. */
    method Reset()
      modifies this
      ensures State() == NoCounts
    {
      kind, n, gender, prodid, rev, uid := 0, 0, 0, 0, 0, 0;
    }

    /** cardnalityCheck */
    method Check(name: string) returns (err: ErrorCode)
      modifies this
      ensures (State(), err) == CardinalityStep(old(State()), name)
    {
      if name == "VERSION" || name == "FN" {
        Reset();
        return InvCard;
      }
      if name == "BDAY" || name == "ANN" {
        Reset();
        return InvDt;
      }
      if name == "KIND" {
        kind := kind + 1;
        if kind > 1 {
          kind := 0;
          return InvProp;
        }
      }
      if name == "N" {
        n := n + 1;
        if n > 1 {
          n := 0;
          return InvProp;
        }
      }
      if name == "GENDER" {
        gender := gender + 1;
        if gender > 1 {
          gender := 0;
          return InvProp;
        }
      }
      if name == "PRODID" {
        prodid := prodid + 1;
        if prodid > 1 {
          prodid := 0;
          return InvProp;
        }
      }
      if name == "REV" {
        rev := rev + 1;
        if rev > 1 {
          rev := 0;
          return InvProp;
        }
      }
      if name == "UID" {
        uid := uid + 1;
        if uid > 1 {
          uid := 0;
          return InvProp;
        }
      }
      return Ok;
    }
  }

  /** After any call every counter is 0 or 1, whatever the counters were. */
  lemma {:induction false} CardinalityStepAtMostOne(c: Counters, name: string)
    requires AtMostOne(c)
    ensures AtMostOne(CardinalityStep(c, name).0)
  {
  }

  /** The first occurrence of a tracked name is accepted and counted; the
      second is refused with INV_PROP and resets that counter alone. */
  lemma {:induction false} CardinalityOccurrences(c: Counters, name: string)
    requires Tracked(name) && AtMostOne(c)
    ensures var (c', e) := CardinalityStep(c, name);
      && (Count(c, name) == 0 ==> e == Ok && Count(c', name) == 1)
      && (Count(c, name) == 1 ==> e == InvProp && Count(c', name) == 0)
      && (forall other :: Tracked(other) && other != name ==> Count(c', other) == Count(c, other))
  {
  }

  /** VERSION and FN reset every counter and give INV_CARD; BDAY and ANN reset
      them and give INV_DT; any other untracked name changes nothing. */
  lemma {:induction false} CardinalityOtherNames(c: Counters, name: string)
    requires !Tracked(name)
    ensures name == "VERSION" || name == "FN" ==> CardinalityStep(c, name) == (NoCounts, InvCard)
    ensures name == "BDAY" || name == "ANN" ==> CardinalityStep(c, name) == (NoCounts, InvDt)
    ensures name !in ["VERSION", "FN", "BDAY", "ANN"] ==> CardinalityStep(c, name) == (c, Ok)
  {
  }

  // ---------------------------------------------------------------------
  // validateFileCard: the envelope of the file, read as a sequence of
  // physical lines (each as fgets returns it, line end included).
  // ---------------------------------------------------------------------

  /** The first line at or after `i` that starts with `FN:` once its line end is removed. */
  function FnLine(lines: seq<string>, i: nat): (k: nat)
    requires i <= |lines|
    ensures i <= k <= |lines|
    ensures k < |lines| ==> StartsWith(StripLineEnd(lines[k]), "FN:")
    ensures forall m :: i <= m < k ==> !StartsWith(StripLineEnd(lines[m]), "FN:")
    decreases |lines| - i
  {
    if i == |lines| || StartsWith(StripLineEnd(lines[i]), "FN:") then i else FnLine(lines, i + 1)
  }

  /** The first line at or after `i` that starts with `END:VCARD`. */
  function EndLine(lines: seq<string>, i: nat): (k: nat)
    requires i <= |lines|
    ensures i <= k <= |lines|
    ensures k < |lines| ==> StartsWith(lines[k], "END:VCARD")
    ensures forall m :: i <= m < k ==> !StartsWith(lines[m], "END:VCARD")
    decreases |lines| - i
  {
    if i == |lines| || StartsWith(lines[i], "END:VCARD") then i else EndLine(lines, i + 1)
  }

  /** No line from `i` on is longer than one character. */
  predicate OnlyShortLines(lines: seq<string>, i: nat)
  {
    forall k :: i <= k < |lines| ==> |lines[k]| <= 1
  }

  /** What validateFileCard returns and the FN it stores in the card. */
  datatype Envelope = Envelope(error: ErrorCode, fn: Option<Property>)

  /** The first line after the FN line at `f` that does not continue it. */
  function FnEnd(lines: seq<string>, f: nat): (k: nat)
    requires f < |lines|
    ensures f < k <= |lines|
  {
    ContinuationEnd(lines, f + 1)
  }

  /** No line after line `e` is longer than one character. */
  predicate ShortAfter(lines: seq<string>, e: nat)
  {
    OnlyShortLines(lines, e + 1)
  }

  /** The FN line at `f` with its continuation lines unfolded onto it. */
  function FnText(lines: seq<string>, f: nat): string
    requires f < |lines|
  {
    StripLineEnd(lines[f]) + Unfolded(lines, f + 1, FnEnd(lines, f))
  }

  /** validateFileCard: BEGIN and VERSION lines, the first FN line (unfolded
      and parsed), an END line after it, and nothing but one-character lines
      after that. */
  function FileCardCheck(lines: seq<string>): Envelope
  {
    if |lines| < 2 || !StartsWith(lines[0], "BEGIN:VCARD") || !StartsWith(lines[1], "VERSION:4.0") then
      Envelope(InvCard, None)
    else
      var f := FnLine(lines, 2);
      if f == |lines| then Envelope(InvProp, None)
      else
        match CreateProperty(FnText(lines, f))
        case Failure(e) => Envelope(e, None)
        case Success(p) =>
          var e := EndLine(lines, FnEnd(lines, f));
          if e == |lines| || !ShortAfter(lines, e) then Envelope(InvCard, Some(p))
          else Envelope(Ok, Some(p))
  }

  /** validateFileCard and createCard call the source's createProperty; on the
      text of an FN line it gives what CreateProperty gives, since `FN` holds
      neither `;` nor `.`. */
  lemma {:induction false} FnLineParsesAlike(s: string)
    requires StartsWith(s, "FN:")
    ensures CreatePropertyAsWritten(s) == CreateProperty(s)
  {
    assert s[..3] == "FN:";
    assert s[..2] == "FN";
    FindSplit(s, ':', 2);
    assert Mixed(s) == "FN";
    FindSplit("FN", ';', 2);
    FindSplit("FN", '.', 2);
    CreatePropertyAsWrittenAgrees(s);
  }

  /** The FN search of validateFileCard: each line from the third on is read
      through removeCRLF until one starts with `FN:`. */
  method FindFnLine(lines: seq<string>) returns (i: nat, buffer: string)
    requires |lines| >= 2
    ensures i == FnLine(lines, 2)
    ensures i < |lines| ==> buffer == StripLineEnd(lines[i])
  {
    i := 2;
    buffer := "";
    while i < |lines|
      invariant 2 <= i <= |lines|
      invariant FnLine(lines, 2) == FnLine(lines, i)
      decreases |lines| - i
    {
      buffer := ReadLine(lines[i]);
      if StartsWith(buffer, "FN:") {
        return;
      }
      i := i + 1;
    }
  }

  /** The unfolding loop: while the next line starts with a blank, it is read,
      stripped and appended. */
  method UnfoldFrom(lines: seq<string>, first: string, j0: nat) returns (text: string, j: nat)
    requires j0 <= |lines|
    ensures j == ContinuationEnd(lines, j0)
    ensures text == first + Unfolded(lines, j0, j)
  {
    text := first;
    j := j0;
    while j < |lines| && IsContinuation(lines[j])
      invariant j0 <= j <= |lines|
      invariant ContinuationEnd(lines, j0) == ContinuationEnd(lines, j)
      invariant text == first + Unfolded(lines, j0, j)
      decreases |lines| - j
    {
      var more := ReadContinuation(lines[j]);
      text := text + more;
      j := j + 1;
    }
  }

  /** The END search: raw lines are compared with `END:VCARD`. */
  method FindEndLine(lines: seq<string>, j: nat) returns (k: nat)
    requires j <= |lines|
    ensures k == EndLine(lines, j)
  {
    k := j;
    while k < |lines| && !StartsWith(lines[k], "END:VCARD")
      invariant j <= k <= |lines|
      invariant EndLine(lines, j) == EndLine(lines, k)
      decreases |lines| - k
    {
      k := k + 1;
    }
  }

  /** The last pass: any remaining line longer than one character is an error. */
  method CheckTrailingLines(lines: seq<string>, from: nat) returns (ok: bool)
    ensures ok == OnlyShortLines(lines, from)
  {
    var k := from;
    while k < |lines|
      invariant forall m :: from <= m < k && m < |lines| ==> |lines[m]| <= 1
      decreases |lines| - k
    {
      if |lines[k]| > 1 {
        return false;
      }
      k := k + 1;
    }
    return true;
  }

  /** validateFileCard: the BEGIN and VERSION lines, the FN line (stored in
      the card once parsed), the END line, then what follows it. */
  method ValidateFileCard(lines: seq<string>, card: Card) returns (err: ErrorCode)
    modifies card
    ensures err == FileCardCheck(lines).error
    ensures card.Value() == old(card.Value()).(fn := match FileCardCheck(lines).fn
                                                      case Some(p) => Some(p)
                                                      case None => old(card.fn))
  {
    if |lines| < 1 || !StartsWith(lines[0], "BEGIN:VCARD") {
      return InvCard;
    }
    if |lines| < 2 || !StartsWith(lines[1], "VERSION:4.0") {
      return InvCard;
    }
    var i, buffer := FindFnLine(lines);
    if i == |lines| {
      return InvProp;
    }
    var text, j := UnfoldFrom(lines, buffer, i + 1);
    assert text == FnText(lines, i);
    var prop := CreateProperty(text);
    if prop.Failure? {
      return prop.error;
    }
    card.fn := Some(prop.value);
    var k := FindEndLine(lines, j);
    if k == |lines| {
      return InvCard;
    }
    var ok := CheckTrailingLines(lines, k + 1);
    if !ok {
      return InvCard;
    }
    return Ok;
  }

  /** What an accepted file looks like: BEGIN, VERSION, an FN line, an END
      line after it, and only one-character lines after that. */
  lemma {:induction false} FileCardAccepted(lines: seq<string>)
    requires FileCardCheck(lines).error == Ok
    ensures |lines| >= 2 && StartsWith(lines[0], "BEGIN:VCARD") && StartsWith(lines[1], "VERSION:4.0")
    ensures exists f, e ::
      (2 <= f < e < |lines| && StartsWith(StripLineEnd(lines[f]), "FN:")
       && StartsWith(lines[e], "END:VCARD") && ShortAfter(lines, e))
    ensures FileCardCheck(lines).fn.Some?
  {
    AcceptedHeader(lines);
    AcceptedFn(lines);
    AcceptedEnd(lines);
    var f := FnLine(lines, 2);
    var e := EndLine(lines, FnEnd(lines, f));
    assert 2 <= f < e < |lines| && StartsWith(StripLineEnd(lines[f]), "FN:")
      && StartsWith(lines[e], "END:VCARD") && ShortAfter(lines, e);
  }

  /** An accepted file starts with the BEGIN and VERSION lines. */
  lemma {:induction false} AcceptedHeader(lines: seq<string>)
    requires FileCardCheck(lines).error == Ok
    ensures |lines| >= 2 && StartsWith(lines[0], "BEGIN:VCARD") && StartsWith(lines[1], "VERSION:4.0")
  {
  }

  /** An accepted file has an FN line that parses, and its FN is stored. */
  lemma {:induction false} AcceptedFn(lines: seq<string>)
    requires FileCardCheck(lines).error == Ok
    ensures |lines| >= 2 && FnLine(lines, 2) < |lines|
    ensures CreateProperty(FnText(lines, FnLine(lines, 2))).Success?
    ensures FileCardCheck(lines).fn.Some?
  {
    AcceptedHeader(lines);
  }

  /** An accepted file has an END line after its FN line, and only short
      lines after that. */
  lemma {:induction false} AcceptedEnd(lines: seq<string>)
    requires FileCardCheck(lines).error == Ok
    ensures |lines| >= 2 && FnLine(lines, 2) < |lines|
    ensures EndLine(lines, FnEnd(lines, FnLine(lines, 2))) < |lines|
    ensures ShortAfter(lines, EndLine(lines, FnEnd(lines, FnLine(lines, 2))))
  {
    AcceptedHeader(lines);
    AcceptedFn(lines);
    FileCardFound(lines, FnLine(lines, 2), EndLine(lines, FnEnd(lines, FnLine(lines, 2))));
  }

  /** Once BEGIN, VERSION and an FN line that parses are found, the file is
      accepted exactly when an END line follows with only short lines after it. */
  lemma {:induction false} FileCardFound(lines: seq<string>, f: nat, e: nat)
    requires |lines| >= 2 && StartsWith(lines[0], "BEGIN:VCARD") && StartsWith(lines[1], "VERSION:4.0")
    requires f == FnLine(lines, 2) < |lines| && CreateProperty(FnText(lines, f)).Success?
    requires e == EndLine(lines, FnEnd(lines, f))
    ensures FileCardCheck(lines).error == Ok <==> e < |lines| && ShortAfter(lines, e)
    ensures FileCardCheck(lines).fn == Some(CreateProperty(FnText(lines, f)).value)
  {
  }

  /** The refusals before END: a missing BEGIN or VERSION line is INV_CARD,
      a header with no FN line after it is INV_PROP, and an FN line with no
      END line after it (and its continuation lines) is INV_CARD. */
  lemma {:induction false} FileCardRejected(lines: seq<string>)
    ensures |lines| < 2 || !StartsWith(lines[0], "BEGIN:VCARD") || !StartsWith(lines[1], "VERSION:4.0")
      ==> FileCardCheck(lines) == Envelope(InvCard, None)
    ensures |lines| >= 2 && StartsWith(lines[0], "BEGIN:VCARD") && StartsWith(lines[1], "VERSION:4.0")
      && (forall k :: 2 <= k < |lines| ==> !StartsWith(StripLineEnd(lines[k]), "FN:"))
      ==> FileCardCheck(lines) == Envelope(InvProp, None)
    ensures |lines| >= 2 && StartsWith(lines[0], "BEGIN:VCARD") && StartsWith(lines[1], "VERSION:4.0")
      && FnLine(lines, 2) < |lines| && CreateProperty(FnText(lines, FnLine(lines, 2))).Success?
      && (forall k :: FnEnd(lines, FnLine(lines, 2)) <= k < |lines| ==> !StartsWith(lines[k], "END:VCARD"))
      ==> FileCardCheck(lines).error == InvCard
  {
    if |lines| >= 2 && FnLine(lines, 2) < |lines| {
      var f := FnLine(lines, 2);
      assert StartsWith(StripLineEnd(lines[f]), "FN:");
      var e := EndLine(lines, FnEnd(lines, f));
      if e < |lines| {
        assert StartsWith(lines[e], "END:VCARD");
      }
    }
  }

  /** Once its BEGIN, VERSION, FN and END lines are found and its FN line
      parses, a file is accepted exactly when no line after END is longer
      than one character, and the parsed FN is stored either way. */
  lemma {:induction false} FileCardVerdict(lines: seq<string>, f: nat, e: nat)
    requires |lines| >= 2 && StartsWith(lines[0], "BEGIN:VCARD") && StartsWith(lines[1], "VERSION:4.0")
    requires f == FnLine(lines, 2) < |lines| && CreateProperty(FnText(lines, f)).Success?
    requires e == EndLine(lines, FnEnd(lines, f)) < |lines|
    ensures FileCardCheck(lines).error == Ok <==> forall k :: e < k < |lines| ==> |lines[k]| <= 1
    ensures FileCardCheck(lines).fn == Some(CreateProperty(FnText(lines, f)).value)
  {
  }

  /** A CRLF line after END:VCARD, blank as it is, makes the file invalid,
      where a bare `\n` line does not. */
  lemma {:induction false} FileCardTrailingCrlf(lines: seq<string>, f: nat, e: nat, k: nat)
    requires |lines| >= 2 && StartsWith(lines[0], "BEGIN:VCARD") && StartsWith(lines[1], "VERSION:4.0")
    requires f == FnLine(lines, 2) < |lines| && CreateProperty(FnText(lines, f)).Success?
    requires e == EndLine(lines, FnEnd(lines, f)) < k < |lines|
    ensures lines[k] == "\r\n" ==> FileCardCheck(lines).error == InvCard
    ensures (forall m :: e < m < |lines| ==> lines[m] == "\n") ==> FileCardCheck(lines).error == Ok
  {
    FileCardVerdict(lines, f, e);
  }
}
