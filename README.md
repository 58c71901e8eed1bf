# vCard engine core in Dafny

This project models the vCard 4.0 engine of the library: its parsers, serializers, validators, card reader and writer, and the two date display helpers of the contact manager. It proves properties of the model.

Each core file becomes one module.

- **`types.dfy` (`VCardTypes`).** Holds the shared data model:
  - the error codes;
  - `Parameter`, `Property` and `DateTime` as values;
  - the `Card` as a class whose fields `createCard` and `updateName` update in place;
  - the string primitives the C code uses (`strchr` as `Find`, `strncmp` as `StartsWith`).

  The linked lists of the source are sequences.
- **`helpers.dfy` (`VCHelpers`, src/VCHelpers.c).**
  - `removeCRLF` and `removeSpace` are methods that rewrite a `char` array in place.
  - `createValueList` and `createParameterList` are loops that are proved against the functions `ValueList` and `ParameterList`.
  - `createProperty` and `createDateTime` are functions.
  - Round trips with the serializers are proved here.
- **`parser.dfy` (`VCParser`, the serializers and comparisons of src/VCParser.c).** Holds `parameterToString`, `valueToString`, `propertyToString`, `dateToString` and the four `compare*` functions.
- **`validate.dfy` (`VCValidate`, src/VCValidate.c).**
  - `validateFileName`, `validateDateTime`, `validateParameter` and `validateProperty` are modelled as functions; `validateProperty` also has its loop as a method.
  - `cardnalityCheck` is the class `CardinalityChecker`, whose six counters persist between calls, as the `static` variables do.
  - `validateFileCard` is a method over the file's lines. It is proved against the function `FileCardCheck`.
- **`card.dfy` (`VCCard`, `createCard`, `writeCard` and `validateCard` of src/VCParser.c).**
  - A file is the sequence of its physical lines as `fgets` returns them. What `writeCard` prints is a sequence of strings.
  - `createCard` and `writeCard` are methods proved against `CreateCardSpec` and `WriteLines`.
  - `validateCard` calls the shared `CardinalityChecker`.
  - `WriteThenCreate` proves that a card `writeCard` writes is read back by `createCard` as the same card, for every card that `Writable` accepts: properties that print and parse back, dates that print and reread, and no property line that the reader would take for FN, a date, a continuation or END.
- **`cformat.dfy` (`CFormat`).** Models the part of C's `sscanf` and `snprintf` that the date helpers use:
  - `%Nd` with an optional sign;
  - ordinary characters;
  - white space;
  - `%0Nd`.
- **`api_helpers.dfy` (`VCAPIHelpers`, ContactMS/src/VCAPIHelpers.c).**
  - `decodeDate` and `encodeDate` are functions over the `sscanf` model, including the variables a failed pattern leaves set.
  - `newCard` and `updateName` are methods over the `Card` class.

Where the library's documented behaviour and its code differ, the model follows the code:
- `createParameterList` keeps at most one parameter. The loop looks for the next `;` only inside the text before the first `=`, because that `=` has become the string's end. So `A=b;C=d` is one parameter, `A` with value `b;C=d` (`ParameterListNoSemicolon`).
- `createProperty` as written (`CreatePropertyAsWritten`) accepts `G.:x` with an empty name. It refuses `TEL;TYPE=a.b:1` with OTHER_ERROR (see Findings). `CreateProperty` is the corrected parser. `CreatePropertyAsWrittenAgrees` proves the two agree on every other line.
- `createCard` calls `createProperty` as written, so the card reader uses `CreatePropertyAsWritten`. A property line `G.:x` is kept with an empty name. A line `TEL;TYPE=a.b:1` ends `createCard` with OTHER_ERROR (`ReadDottedParameterLine`). Among its other conditions, the write-then-read round trip therefore asks that each property have a group or keep `.` out of its parameter (`AsWrittenReadable`).
- `validateFileCard` also calls `createProperty` as written, but only on its `FN:` line, where the two parsers agree (`FnLineParsesAlike`).
- `decodeDate` labels a local date-time as UTC (see Findings).

`DateRoundTrip` proves that a date `createDateTime` reads is printed by `dateToString` and read back as itself. It needs a precondition for one input family. The value `2020ZT` reads as the local date `2020Z` with an empty time. That prints as `2020Z`, which reads back as the UTC date `2020`. `DateRoundTripCounterexample` shows this, and `DateRoundTrip`'s precondition excludes values ending in `ZT`.

## Model

| member | source | states |
|---|---|---|
| VCardTypes.Card.constructor | src/VCParser.c:23-35 | createCard's fresh card: no FN, no optional properties, no birthday, no anniversary |
| VCHelpers.RemoveCRLF | src/VCHelpers.c:355-374 | the buffer afterwards holds the old text without one trailing `\n` or `\r` and a `\r` before it, never longer; the result is always OK |
| VCHelpers.RemoveSpace | src/VCHelpers.c:376-384 | the buffer afterwards holds the old text without its whole leading run of spaces and tabs |
| VCHelpers.StripLeadingBlanksIdempotent | src/VCHelpers.c:376-384 | removeSpace applied twice leaves what it left once |
| VCHelpers.StripLineEndOfTerminated | src/VCHelpers.c:355-374 | removeCRLF takes off exactly the CRLF that writeCard puts after a line |
| VCHelpers.ContinuationEnd | src/VCParser.c:113-146 | every line the unfolding takes in is led by a space or tab, and the line it stops at, if any, is not |
| VCHelpers.UnindentedAfterFirstBlank | src/VCParser.c:115-136 | taking the first blank with fgetc and then running removeSpace on the rest leaves what removeSpace leaves on the whole line |
| VCHelpers.SplitJoinsBack | src/VCHelpers.c:253-284 | joining the `;`-separated spans with `;` gives back the text |
| VCHelpers.SplitSpansFree | src/VCHelpers.c:253-284 | no span holds a `;` |
| VCHelpers.CreateValueList | src/VCHelpers.c:245-288 | the strpbrk loop succeeds exactly when the specification does, with the same values; its only error is INV_PROP |
| VCHelpers.ValueListJoin | src/VCHelpers.c:245-288 | a non-empty value text not ending in `;` is accepted, and its values joined with `;` give it back |
| VCHelpers.SplitJoin | src/VCHelpers.c:253-284 | values without `;`, joined, split back into the same values, empty ones included |
| VCHelpers.ValueListOfJoin | src/VCHelpers.c:245-288 | values without `;` whose last one is not empty are read back from their joined text |
| VCHelpers.ParameterList | src/VCHelpers.c:192-243 | no `=` means INV_PROP; every failure is INV_PROP; a success is one parameter whose name, `=` and value rebuild the input, with no `=` in the name |
| VCHelpers.CreateParameterList | src/VCHelpers.c:192-243 | the do-while loop succeeds exactly when ParameterList does, with the same list and the same error |
| VCHelpers.ParameterListSingle | src/VCHelpers.c:192-243 | an accepted parameter text yields one parameter, which parameterToString writes as `;` and the text |
| VCHelpers.ParameterListNoSemicolon | src/VCHelpers.c:201-239 | with no `;` before the first `=`, the one parameter is named by the text before it and valued by everything after it |
| VCHelpers.ParameterListSecondPassFails | src/VCHelpers.c:201-239 | a `;` inside the name, not at its end, sends the loop on a second pass that finds no `=`: INV_PROP |
| VCHelpers.SplitHead | src/VCHelpers.c:41-60 | the group is the text before the first `.` and holds no `.`; group, `.` and name rebuild the head; without a `.` the group is empty |
| VCHelpers.CreateProperty | src/VCHelpers.c:7-111 | no `:` gives INV_PROP; every failure is INV_PROP; an accepted property has a non-empty name and at most one parameter |
| VCHelpers.CutAtColon | src/VCHelpers.c:23-40 | the line is cut at its first `:`: the text before it is parsed as the head, everything after it as the values |
| VCHelpers.CreatePropertyHead | src/VCHelpers.c:41-106 | group and name come from the text before the first `;`, the values from the text after `:` |
| VCHelpers.CreatePropertyFields | src/VCHelpers.c:41-106 | the group holds no `:`, `;` or `.`, the name no `:` or `;`; the values are createValueList's of the text after `:`; the line starts with `group.name`, or with the name when there is no group |
| VCHelpers.EmptyValueAccepted | src/VCHelpers.c:106 | createValueList's error is ignored: `X:` is a property with no values |
| VCHelpers.CreatePropertyAsWrittenResult | src/VCHelpers.c:7-111 | as written: no `:` gives INV_PROP; every failure is INV_PROP or OTHER_ERROR; an accepted property has at most one parameter |
| VCHelpers.CreatePropertyAsWrittenAgrees | src/VCHelpers.c:41-80 | except for the two anomalies under Findings, the source's name arithmetic gives the same property as CreateProperty |
| VCHelpers.AsWrittenDotAfterSemicolon | src/VCHelpers.c:62-80 | as written, a `.` after the first `;` makes the name size negative: OTHER_ERROR |
| VCHelpers.AsWrittenEmptyNameAfterGroup | src/VCHelpers.c:62-80 | as written, a head ending in its only `.` is accepted with an empty name, which CreateProperty refuses |
| VCHelpers.AsWrittenDottedParameterExample | src/VCHelpers.c:62-80 | as written, `TEL;TYPE=a.b:1` is refused with OTHER_ERROR |
| VCHelpers.DottedParameterExample | src/VCHelpers.c:7-111 | `TEL;TYPE=a.b:1` is property TEL with parameter TYPE=a.b and value 1 |
| VCHelpers.AsWrittenEmptyNameExample | src/VCHelpers.c:62-80 | as written, `G.:x` is accepted; CreateProperty gives INV_PROP |
| VCHelpers.PrintedParameters | src/VCParser.c:316-325 | zero parameters print as nothing, one as `;name=value`, once the trailing `;` is cut |
| VCHelpers.ValuesOfPrinted | src/VCParser.c:317-330 | the values propertyToString prints are split back into the same values |
| VCHelpers.ParsePrinted | src/VCParser.c:305-346 | the corrected createProperty reads back the line propertyToString prints for a property that Printable accepts: a group without `:`, `;` or `.`; a non-empty name without `:` or `;`, and without `.` when there is no group; at most one parameter, whose name has no `:`, `;` or `=` and whose value has no `:` and does not end in `;`; values without `;` whose last one, if any, is not empty |
| VCHelpers.PrintedNotAnomalous | src/VCParser.c:305-346 | a printable property without a group whose parameter has no `.` prints as a line on which the as-written createProperty does not go astray |
| VCHelpers.ParsePrintedAsWritten | src/VCHelpers.c:7-111 | the as-written createProperty reads back every such property propertyToString prints |
| VCHelpers.PrintParsed | src/VCParser.c:305-346 | propertyToString reprints an accepted line exactly, unless the line starts with `.` or ends its head or values with `;` |
| VCHelpers.DateOfRest | src/VCHelpers.c:146-186 | `circa` anywhere makes a text value with empty date and time; otherwise the value splits at its first `T` into date and time, the date taking everything when there is no `T`, and the text stays empty |
| VCHelpers.DateFrom | src/VCHelpers.c:140-186 | UTC exactly when the value ends in `Z`; the text, or the date, `T` and time (just the date when there is no `T`), followed by that `Z`, give the value back |
| VCHelpers.CreateDateTime | src/VCHelpers.c:113-190 | INV_PROP exactly when the line has no `:` or nothing after its first `:`; UTC exactly when the line ends in `Z`; text values hold `circa` and no date or time; structured values have no text and no `T` in the date |
| VCHelpers.CreateDateTimeAfterKey | src/VCHelpers.c:113-139 | the value is everything after the key's `:` |
| VCHelpers.ParsePrintedDate | src/VCParser.c:500-543 | createDateTime reads back, after any key, every date dateToString prints that it can represent |
| VCHelpers.ParsedDateReparsable | src/VCHelpers.c:113-190 | a date createDateTime reads, unless it is a UTC text value or ends in `ZT` or is bare `T`, can be reprinted and reread |
| VCHelpers.DateRoundTrip | src/VCParser.c:500-543 | printing a date createDateTime read and reading it again gives the same date, except for three kinds of value: a UTC text value, a bare `T`, and a value ending in `ZT` (DateRoundTripCounterexample shows the last); for the all-empty UTC value (`BDAY:Z`) this rests on the `""` the model takes for dateToString's unwritten buffer (see Left out) |
| VCHelpers.DateRoundTripCounterexample | src/VCParser.c:524-541 | a date value ending in `ZT` reads as a local date ending in `Z`, which prints without its `T` and reads back as UTC |
| VCHelpers.DateLineRoundTrip | src/VCHelpers.c:291-342 | the BDAY and ANNIVERSARY lines that bdayText and annText write give the date back to createDateTime; with no date both give the empty text |
| VCParser.ValuesTextJoin | src/VCParser.c:316-330 | the value list prints as its values joined with `;`, once the trailing `;` is cut |
| VCParser.ParameterToStringSplits | src/VCParser.c:386-403 | parameterToString writes `;`, the name, `=` and the value, so the first `=` after the `;` ends the name |
| VCParser.ValueToStringSplits | src/VCParser.c:431-448 | valueToString writes the value and then a `;`, which is the text's first `;` |
| VCParser.ParametersTextSemicolons | src/VCParser.c:316 | the parameter list prints one `;` per parameter when the parameters hold none |
| VCParser.ValuesTextSemicolons | src/VCParser.c:317 | the value list prints one `;` per value when the values hold none |
| VCParser.ParametersTextColonFree | src/VCParser.c:316-325 | parameters without `:` print without `:` |
| VCParser.PropertyToStringValues | src/VCParser.c:305-346 | propertyToString puts a `:` after the head, and after the first `:` come the values joined with `;` |
| VCParser.DateToStringParts | src/VCParser.c:500-543 | dateToString writes a structured date-time as the date, `T`, the time and `Z` when UTC, so the first `T` separates date and time |
| VCParser.CompareDatesIsEquality | src/VCParser.c:467-498 | compareDates holds exactly for equal dates |
| VCParser.CompareParametersIsEquality | src/VCParser.c:363-384 | compareParameters holds exactly for equal parameters |
| VCParser.CompareValues | src/VCParser.c:418-429 | strcmp equal to zero is equality of the two strings |
| VCParser.ComparePropertiesEquivalence | src/VCParser.c:270-303 | compareProperties is reflexive, symmetric and transitive |
| VCParser.ComparePropertiesIgnoresContents | src/VCParser.c:290-302 | compareProperties holds between two different properties that differ only in a value |
| VCValidate.ValidateFileName | src/VCValidate.c:6-13 | the result is OK or INV_FILE |
| VCValidate.ValidateFileNameIff | src/VCValidate.c:10-12 | OK exactly when the name ends in `.vcf` or `.vcard` |
| VCValidate.ValidateFileNameExtensionLast | src/VCValidate.c:10-12 | only the last extension counts |
| VCValidate.ValidateDateTime | src/VCValidate.c:137-153 | the result is OK or INV_DT |
| VCValidate.CreatedDateValid | src/VCValidate.c:137-153 | a date createDateTime reads is valid exactly when it is not a UTC text value |
| VCValidate.ReparsableIsValid | src/VCValidate.c:137-153 | every date that survives a print and reread is valid |
| VCValidate.ValidateParameter | src/VCValidate.c:285-294 | the result is OK or INV_PROP |
| VCValidate.ParsedParameterValid | src/VCValidate.c:285-294 | the parameter `name=value` is accepted, and is valid exactly when name and value are both non-empty |
| VCValidate.EvenParameterError | src/VCValidate.c:165-176 | the result is OK or INV_PROP |
| VCValidate.PropertyError | src/VCValidate.c:155-188 | the result is OK or INV_PROP |
| VCValidate.ValidateProperty | src/VCValidate.c:155-188 | the iterator loops return validateProperty's code |
| VCValidate.EvenParameterErrorIff | src/VCValidate.c:165-176 | OK exactly when the parameters at even positions are valid: the loop skips every second one |
| VCValidate.PropertyErrorIff | src/VCValidate.c:155-188 | OK exactly when the name is non-empty, there is a value and the even-position parameters are valid |
| VCValidate.OddParameterUnchecked | src/VCValidate.c:169-175 | an invalid second parameter goes unnoticed |
| VCValidate.ParsedPropertyValid | src/VCValidate.c:155-188 | a property the corrected parser CreateProperty accepts, with a value and valid parameters, passes validateProperty |
| VCValidate.AsWrittenEmptyNameInvalid | src/VCValidate.c:155-163 | the empty-name property that the as-written createProperty accepts from a head ending in its only `.` fails validateProperty with INV_PROP |
| VCValidate.CardinalityChecker.constructor | src/VCValidate.c:190-197 | all six counters start at zero |
| VCValidate.CardinalityChecker.Reset | src/VCValidate.c:200-209 | all six counters are zero afterwards |
| VCValidate.CardinalityChecker.Check | src/VCValidate.c:190-283 | the new counters and the result are CardinalityStep of the old counters and the name |
| VCValidate.CardinalityStepAtMostOne | src/VCValidate.c:222-280 | a call leaves every counter at most one if they were before |
| VCValidate.CardinalityOccurrences | src/VCValidate.c:222-280 | for KIND, N, GENDER, PRODID, REV and UID, the first occurrence is OK and counts one, and the second is INV_PROP and resets that counter; the other counters do not change |
| VCValidate.CardinalityOtherNames | src/VCValidate.c:200-220 | VERSION and FN reset everything with INV_CARD, BDAY and ANN with INV_DT, and any other name changes nothing |
| VCValidate.FnLine | src/VCValidate.c:45-52 | the first line, from the given one on, that starts with `FN:` once its line end is removed |
| VCValidate.EndLine | src/VCValidate.c:107-114 | the first line, from the given one on, that starts with `END:VCARD` |
| VCValidate.FnLineParsesAlike | src/VCValidate.c:84-95 | on a line starting with `FN:` the as-written createProperty gives what the corrected one gives |
| VCValidate.FindFnLine | src/VCValidate.c:44-55 | the reading loop stops at FnLine, holding that line without its line end |
| VCValidate.UnfoldFrom | src/VCValidate.c:56-79 | the unfolding loop stops at the first non-continuation line and appends each continuation line without its leading blanks |
| VCValidate.FindEndLine | src/VCValidate.c:106-118 | the loop stops at EndLine |
| VCValidate.CheckTrailingLines | src/VCValidate.c:120-126 | true exactly when no later line is longer than one character |
| VCValidate.ValidateFileCard | src/VCValidate.c:15-134 | the code is FileCardCheck's, and the card's FN is the parsed FN when there is one |
| VCValidate.FileCardAccepted | src/VCValidate.c:15-134 | an accepted file has BEGIN and VERSION first, then an FN line, an END line after it, only one-character lines after that, and a stored FN |
| VCValidate.AcceptedHeader | src/VCValidate.c:19-35 | an accepted file starts with BEGIN:VCARD and VERSION:4.0 |
| VCValidate.AcceptedFn | src/VCValidate.c:44-104 | an accepted file has an FN line that createProperty accepts |
| VCValidate.AcceptedEnd | src/VCValidate.c:106-126 | an accepted file has an END line after FN, with only short lines after it |
| VCValidate.FileCardRejected | src/VCValidate.c:19-118 | a bad header is INV_CARD, no FN line is INV_PROP, and no END line after FN is INV_CARD |
| VCValidate.FileCardFound | src/VCValidate.c:106-126 | once FN parses, the file is accepted exactly when END follows with only short lines after it, and FN is stored either way |
| VCValidate.FileCardVerdict | src/VCValidate.c:120-126 | once END is found, the file is accepted exactly when every later line has at most one character |
| VCValidate.FileCardTrailingCrlf | src/VCValidate.c:120-126 | a blank CRLF line after END makes the file invalid, while bare `\n` lines do not |
| VCCard.ReadStep | src/VCParser.c:49-166 | a pass fails only with createProperty's or createDateTime's INV_PROP, or with createProperty's OTHER_ERROR, moves forward, keeps FN, only appends to the optional properties and never clears a date |
| VCCard.ReadFrom | src/VCParser.c:49-166 | the loop ends with OK, INV_PROP or OTHER_ERROR, keeps FN and extends the optional properties |
| VCCard.CreateCardSpec | src/VCParser.c:7-169 | no card exactly when the name or the envelope is refused, with an error; otherwise a card whose FN is the envelope's, with OK, INV_PROP or OTHER_ERROR |
| VCCard.UnfoldAfterBlank | src/VCParser.c:110-146 | the unfolding loop stops at the first non-continuation line and appends each continuation line without its blanks |
| VCCard.ReadLineInto | src/VCParser.c:49-166 | one pass updates the card in place exactly as ReadStep says |
| VCCard.CreateCard | src/VCParser.c:7-169 | the code and the card are CreateCardSpec's, and the card is new |
| VCCard.PropertyLines | src/VCParser.c:584-593 | one CRLF-terminated propertyToString line per optional property, in list order |
| VCCard.DateLines | src/VCParser.c:569-581 | the BDAY line if there is a birthday, then the ANNIVERSARY line if there is an anniversary |
| VCCard.WriteLines | src/VCParser.c:547-600 | WRITE_ERROR unless there is a card with FN and a valid name; otherwise BEGIN, VERSION, FN, the dates, the properties and END |
| VCCard.WriteCard | src/VCParser.c:547-600 | the code and the lines printed are WriteLines' |
| VCCard.PrintProperties | src/VCParser.c:584-593 | the iterator loop prints PropertyLines |
| VCCard.PropertyLinesAppend | src/VCParser.c:584-593 | one more property prints one more line at the end |
| VCCard.CheckOptional | src/VCParser.c:614-627 | the result is OK, INV_PROP, INV_CARD or INV_DT, and counters that were at most one stay so |
| VCCard.ValidateCardSpec | src/VCParser.c:602-643 | counters that were at most one stay so |
| VCCard.ValidateCard | src/VCParser.c:602-643 | the code and the new counters are ValidateCardSpec's |
| VCCard.KindTwice | src/VCParser.c:616-627 | a card with one KIND passes on fresh counters, and the same card validated again fails with INV_PROP |
| VCCard.ValidateCardFnFirst | src/VCParser.c:606-611 | an invalid FN is reported before any optional property is looked at |
| VCCard.ReadFnLine | src/VCParser.c:61-64 | a written FN line is skipped |
| VCCard.ReadBdayLine | src/VCParser.c:69-88 | a written BDAY line sets the birthday, replacing any earlier one |
| VCCard.ReadAnnLine | src/VCParser.c:89-108 | a written ANNIVERSARY line sets the anniversary, replacing any earlier one |
| VCCard.ReadPropertyLine | src/VCParser.c:110-165 | a written property line that the as-written createProperty reads back, with no continuation line after it, appends that property |
| VCCard.ReadRefusedProperty | src/VCParser.c:148-165 | a property line createProperty refuses ends the loop with createProperty's code |
| VCCard.ReadDottedParameterLine | src/VCParser.c:148-165 | the written line of property TEL with parameter TYPE=a.b ends the loop with OTHER_ERROR |
| VCCard.ReadProperties | src/VCParser.c:49-166 | written property lines ending in END, each readable by the as-written createProperty, are read back as those properties, in order |
| VCCard.ReadEndLine | src/VCParser.c:57-60 | END:VCARD stops the loop with the card as it is |
| VCCard.WrittenCardEnvelope | src/VCParser.c:547-600 | validateFileCard accepts what writeCard prints and stores its FN |
| VCCard.ReadWritten | src/VCParser.c:49-166 | the main loop reads what writeCard prints back as the card, for a card Writable accepts: an FN with no group and no parameters that Printable accepts; a birthday and an anniversary, when present, that print and reread as themselves; optional properties that Printable accepts, where a property without a group has no `.` in its parameter, and whose lines do not start with a blank, `FN:`, `BDAY`, `ANNIVERSARY` or `END:VCARD` |
| VCCard.WriteThenCreate | src/VCParser.c:7-169 | writeCard succeeds, and createCard, with the as-written createProperty, reads the lines back as the same card, for a valid file name and a card Writable accepts: an FN with no group and no parameters that Printable accepts; a birthday and an anniversary, when present, that print and reread as themselves; optional properties that Printable accepts, where a property without a group has no `.` in its parameter, and whose lines do not start with a blank, `FN:`, `BDAY`, `ANNIVERSARY` or `END:VCARD` |
| VCAPIHelpers.DecodeDate | ContactMS/src/VCAPIHelpers.c:81-105 | no result exactly for the empty input; input led by a non-digit is returned as it is; any rewritten result is 10, 19 or 25 characters long |
| VCAPIHelpers.DecodeDateCorrected | ContactMS/src/VCAPIHelpers.c:90-93 | the same three properties, for the corrected decodeDate |
| VCAPIHelpers.EncodeDate | ContactMS/src/VCAPIHelpers.c:107-125 | no result exactly for empty or non-digit-led input; otherwise the result is empty or 10 or 19 characters long |
| VCAPIHelpers.EncodeDateCorrected | ContactMS/src/VCAPIHelpers.c:114-117 | the same two properties, for the corrected encodeDate |
| VCAPIHelpers.DecodeUnmatched | ContactMS/src/VCAPIHelpers.c:90-93 | a digit-led date that none of the three patterns matches is returned unchanged, by both versions |
| VCAPIHelpers.EncodeUnmatched | ContactMS/src/VCAPIHelpers.c:114-117 | a digit-led date encodes to the empty text exactly when none of the three patterns matches |
| VCAPIHelpers.EncodeCorrectedUnmatched | ContactMS/src/VCAPIHelpers.c:114-117 | the corrected encodeDate gives the empty text exactly when none of its four patterns, the display date included, matches |
| VCAPIHelpers.BareYear | ContactMS/src/VCAPIHelpers.c:81-125 | a bare `YYYY` matches no pattern: both decodeDates return it unchanged and both encodeDates return the empty text |
| VCAPIHelpers.DisplayLength | ContactMS/src/VCAPIHelpers.c:95-101 | the display text fits decodeDate's 64 bytes and, without ` (UTC)`, encodeDate's 20, so snprintf never cuts it |
| VCAPIHelpers.DecodeUtc | ContactMS/src/VCAPIHelpers.c:90-100 | `YYYYMMDDTHHMMSSZ` becomes `YYYY-MM-DD HH:MM:SS (UTC)`, or `YYYY-MM-DD` at midnight, where UTC is dropped |
| VCAPIHelpers.DecodeLocalAsUtc | ContactMS/src/VCAPIHelpers.c:90-91 | as written, `YYYYMMDDTHHMMSS` without `Z` is labelled ` (UTC)` as well |
| VCAPIHelpers.DecodeLocal | ContactMS/src/VCAPIHelpers.c:91-101 | as intended, `YYYYMMDDTHHMMSS` becomes the display form without ` (UTC)` |
| VCAPIHelpers.DecodeDateOnly | ContactMS/src/VCAPIHelpers.c:92-97 | `YYYYMMDD` becomes `YYYY-MM-DD` |
| VCAPIHelpers.DecodeLeftoverTime | ContactMS/src/VCAPIHelpers.c:87-97 | for `YYYYMMDDTHHMM`, the hour and minute that the failed date-time patterns assigned are still printed after the date pattern matches |
| VCAPIHelpers.EncodeUtc | ContactMS/src/VCAPIHelpers.c:115-122 | `YYYYMMDDTHHMMSSZ` becomes `YYYY-MM-DD HH:MM:SS`, or `YYYY-MM-DD` at midnight |
| VCAPIHelpers.EncodeVCardDate | ContactMS/src/VCAPIHelpers.c:116-121 | `YYYYMMDD` becomes `YYYY-MM-DD` |
| VCAPIHelpers.EncodeDisplay | ContactMS/src/VCAPIHelpers.c:114-122 | a display date-time, whatever follows it (` (UTC)` included), is encoded as the same date-time without the suffix |
| VCAPIHelpers.EncodeDisplayDate | ContactMS/src/VCAPIHelpers.c:114-117 | as intended, a display date `YYYY-MM-DD` encodes to itself |
| VCAPIHelpers.EncodeDisplayText | ContactMS/src/VCAPIHelpers.c:114-122 | every text decodeDate prints encodes back to itself without ` (UTC)`; as written, only when the time is not midnight |
| VCAPIHelpers.DecodeThenEncode | ContactMS/src/VCAPIHelpers.c:81-125 | a vCard date or UTC date-time, decoded and then encoded by the corrected encodeDate (EncodeDateCorrected), gives the same display date and time |
| VCAPIHelpers.MisreadMonthDiffers | ContactMS/src/VCAPIHelpers.c:114-116 | as written, every display date `YYYY-0M-DD` with M from 1 to 9 is encoded, but not to itself |
| VCAPIHelpers.EncodeMonthBelowTen | ContactMS/src/VCAPIHelpers.c:114-116 | as written, `YYYY-0M-DD` encodes to `YYYY-00-0M`: `%2d` reads `-0` as the month and the month digit as the day |
| VCAPIHelpers.DecodeThenEncodeAsWritten | ContactMS/src/VCAPIHelpers.c:81-125 | as written, decoding `YYYY0MDD` and encoding the result does not give it back |
| VCAPIHelpers.NewCard | ContactMS/src/VCAPIHelpers.c:40-79 | a bad file name is returned with no card and untouched counters; otherwise a new card with only FN, validated and then written |
| VCAPIHelpers.UpdateName | ContactMS/src/VCAPIHelpers.c:24-38 | FN's values become the new name alone and nothing else in the card changes; then the card is validated and written |
| VCAPIHelpers.NewCardWritten | ContactMS/src/VCAPIHelpers.c:40-79 | a new card always passes validation without touching the counters and is written whole; a non-empty name without `;` is read back by createCard as the same card |
| VCAPIHelpers.RenamedValidation | ContactMS/src/VCAPIHelpers.c:24-31 | renaming changes nothing validateCard checks |
| VCAPIHelpers.RenamedWritten | ContactMS/src/VCAPIHelpers.c:24-38 | a renamed card, whose properties the as-written createProperty reads back, is written and read back with the new non-empty name, free of `;`, as FN's only value |
| VCAPIHelpers.RenameNewCard | ContactMS/src/VCAPIHelpers.c:24-64 | renaming a new card gives the card newCard builds for the new name |

## Left out

- File I/O: `fopen`, `fgets`, `fgetc`/`ungetc`, `ftell`/`fseek` and `fprintf` are replaced by sequences of lines. An input file is the list of its physical lines, each with its line end, and what `writeCard` prints is a list of strings. A file that cannot be opened (INV_FILE, WRITE_ERROR) is not modelled.
- The fixed buffers are not modelled: 78 bytes in `validateFileCard`, 160 in `createCard`, 320 for unfolded properties. Lines are taken to fit, so truncation by `fgets` and the length guard before `strcat` are left out.
- malloc/realloc failures and their INV_CARD, INV_DT, INV_PROP and OTHER_ERROR returns are left out. Memory ownership, `delete*` and leaks are left out too. The model has no allocation failure.
- The linked-list library is not part of this model. Lists are sequences, and its `toString` is taken to be the in-order concatenation of the elements' strings.
- `sscanf` and `snprintf` are modelled only for the directives the date helpers use (`%Nd`, ordinary characters, white space, `%0Nd`), with unbounded integers. The date lemmas are stated for digit-field inputs.
- VCParser.DateToString: for a structured date whose date and time are both empty, the source prints into an uninitialised buffer. The model uses `""` for that text (and `Z` after it for UTC). The round trips DateRoundTrip and DateLineRoundTrip cover the UTC value of that kind (`BDAY:Z`) only through this choice.
- `getContact`, `errorToString`, `cardToString` and the `delete*` destructors are left out. They are a fixed-size copy, a code-to-text table, a concatenation for display, and memory release.
- The NULL guards of the `*ToString` and `compare*` functions are not modelled. A `Property`, `Parameter`, `DateTime` or value here is never NULL, so every comparison and every print takes the non-NULL path.
- VCCard.CreateCardSpec: after a failed envelope check the source frees the card but does not clear the caller's card variable. The model returns no card.
- VCCard.WriteLines: a card without FN makes `writeCard` return after printing BEGIN and VERSION, leaving those two lines in the file. The model returns them with WRITE_ERROR.
- VCValidate.FnLine: `validateFileCard` and `createCard` read the file in one pass. The model finds the lines by index instead, with the same first-match rule.

## Findings

| source | as written | input that shows it | evidently intended | confidence | as-written member | corrected member |
|---|---|---|---|---|---|---|
| src/VCHelpers.c:62-80 | the group's `.` and the parameters' `;` are both searched in the whole text before `:`, and the name's size is their difference | `TEL;TYPE=a.b:1` gives OTHER_ERROR: the size is negative and the realloc fails | property TEL with parameter TYPE=a.b and value 1 | not executed | VCHelpers.AsWrittenDottedParameterExample | VCHelpers.DottedParameterExample |
| src/VCHelpers.c:62-80 | without a `;` the name's size is `mixedSize - groupSize`, which counts the dot | `G.:x` is accepted with an empty name | INV_PROP, as for `:x` | not executed | VCHelpers.AsWrittenEmptyNameExample | VCHelpers.CreateProperty |
| ContactMS/src/VCAPIHelpers.c:90 | `sscanf` returns 6 once the sixth field is read, whether or not the `Z` after it matches | `20200101T120000` gives `2020-01-01 12:00:00 (UTC)` | ` (UTC)` only after a trailing `Z` | not executed | VCAPIHelpers.DecodeLocalAsUtc | VCAPIHelpers.DecodeLocal |
| ContactMS/src/VCAPIHelpers.c:114-116 | a display date without a time falls to `%4d%2d%2d…`, whose `%2d` reads `-0` | `2023-06-15` gives `2023-00-06` | `2023-06-15`, the inverse of decodeDate's date-only form | not executed | VCAPIHelpers.EncodeMonthBelowTen | VCAPIHelpers.EncodeDisplayDate |
