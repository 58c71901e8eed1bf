/** src/VCHelpers.c: the property tokenizer, the parameter and value list
    parsers, the BDAY/ANNIVERSARY parser and the line-unfolding helpers,
    with the round trips they complete against src/VCParser.c's serializers. */
module VCHelpers {
  import opened VCardTypes
  import opened VCParser

  // ---------------------------------------------------------------------
  // removeCRLF and removeSpace: in-place rewrites of a C string buffer.
  // The string held by `buf` is buf[..len]; writing a NUL shortens it.
  // ---------------------------------------------------------------------

  /** The text removeCRLF leaves: one trailing `\n` or `\r` goes, and a `\r` before it. */
  function StripLineEnd(s: string): string
  {
    if |s| > 0 && (s[|s| - 1] == '\n' || s[|s| - 1] == '\r') then
      if |s| > 1 && s[|s| - 2] == '\r' then s[..|s| - 2] else s[..|s| - 1]
    else s
  }

  /** The text removeSpace leaves: the whole leading run of spaces and tabs goes. */
  function StripLeadingBlanks(s: string): string
    decreases |s|
  {
    if |s| > 0 && IsBlank(s[0]) then StripLeadingBlanks(s[1..]) else s
  }

  /** removeCRLF: always returns OK. */
  method RemoveCRLF(buf: array<char>, len: nat) returns (err: ErrorCode, newLen: nat)
    requires len <= buf.Length
    modifies buf
    ensures err == Ok
    ensures newLen <= len && buf[..newLen] == StripLineEnd(old(buf[..len]))
  {
    err := Ok;
    newLen := len;
    if len > 0 && (buf[len - 1] == '\n' || buf[len - 1] == '\r') {
      buf[len - 1] := '\0';
      newLen := len - 1;
      if len > 1 && buf[len - 2] == '\r' {
        buf[len - 2] := '\0';
        newLen := len - 2;
      }
    }
  }

  /** removeSpace: counts the leading blanks, then moves the rest of the
      string (and its terminator) to the front of the buffer. */
  method RemoveSpace(buf: array<char>, len: nat) returns (newLen: nat)
    requires len <= buf.Length
    modifies buf
    ensures newLen <= len && buf[..newLen] == StripLeadingBlanks(old(buf[..len]))
  {
    ghost var s := buf[..len];
    var i := 0;
    while i < len && IsBlank(buf[i])
      invariant i <= len
      invariant StripLeadingBlanks(s[i..]) == StripLeadingBlanks(s)
    {
      assert s[i..][1..] == s[i + 1..];
      i := i + 1;
    }
    assert StripLeadingBlanks(s[i..]) == s[i..];
    if i > 0 {
      var k := 0;
      while k < len - i
        invariant k <= len - i
        invariant forall j :: 0 <= j < k ==> buf[j] == s[j + i]
        invariant forall j :: k <= j < len ==> buf[j] == s[j]
      {
        buf[k] := buf[k + i];
        k := k + 1;
      }
      buf[len - i] := '\0';
    }
    newLen := len - i;
    assert buf[..newLen] == s[i..];
  }

  /** Stripping the leading blanks twice strips nothing more. */
  lemma {:induction false} StripLeadingBlanksIdempotent(s: string)
    ensures StripLeadingBlanks(StripLeadingBlanks(s)) == StripLeadingBlanks(s)
    decreases |s|
  {
    if |s| > 0 && IsBlank(s[0]) {
      StripLeadingBlanksIdempotent(s[1..]);
    }
  }

  /** What removeSpace removes is a run of blanks, and what it keeps starts with a non-blank. */
  lemma {:induction false} StripLeadingBlanksSplit(s: string)
    ensures var r := StripLeadingBlanks(s);
            |r| <= |s| && r == s[|s| - |r|..]
            && (forall i :: 0 <= i < |s| - |r| ==> IsBlank(s[i]))
            && (|r| > 0 ==> !IsBlank(r[0]))
    decreases |s|
  {
    if |s| > 0 && IsBlank(s[0]) {
      StripLeadingBlanksSplit(s[1..]);
      var r := StripLeadingBlanks(s);
      forall i | 1 <= i < |s| - |r| ensures IsBlank(s[i]) {
        assert s[1..][i - 1] == s[i];
      }
    }
  }

  /** The CRLF writeCard puts after a line is exactly what removeCRLF takes away. */
  lemma {:induction false} StripLineEndOfTerminated(s: string)
    ensures StripLineEnd(s + "\r\n") == s
  {
    assert (s + "\r\n")[..|s|] == s;
  }

  /** removeCRLF keeps a prefix and takes away at most two line-end characters. */
  lemma {:induction false} StripLineEndPrefix(s: string)
    ensures var r := StripLineEnd(s);
            |s| - 2 <= |r| <= |s| && r == s[..|r|]
            && (forall i :: |r| <= i < |s| ==> s[i] == '\r' || s[i] == '\n')
  {
  }

  // ---------------------------------------------------------------------
  // Reading lines: a physical line is what fgets returns, its line end
  // included; a line that starts with a space or a tab continues the
  // logical line before it.
  // ---------------------------------------------------------------------

  /** A line that continues the logical line before it. */
  predicate IsContinuation(line: string)
  {
    |line| > 0 && IsBlank(line[0])
  }

  /** The first line at or after `j` that does not continue a logical line, or |lines|. */
  function ContinuationEnd(lines: seq<string>, j: nat): (k: nat)
    requires j <= |lines|
    ensures j <= k <= |lines|
    ensures k < |lines| ==> !IsContinuation(lines[k])
    ensures forall m :: j <= m < k ==> IsContinuation(lines[m])
    decreases |lines| - j
  {
    if j == |lines| || !IsContinuation(lines[j]) then j else ContinuationEnd(lines, j + 1)
  }

  /** A continuation line as it is appended: removeCRLF, then removeSpace. */
  function Unindented(line: string): string
  {
    StripLeadingBlanks(StripLineEnd(line))
  }

  /** The continuation lines j..k-1, each unindented, in order. */
  function Unfolded(lines: seq<string>, j: nat, k: nat): string
    requires j <= k <= |lines|
    decreases k - j
  {
    if k == j then "" else Unfolded(lines, j, k - 1) + Unindented(lines[k - 1])
  }

  /** A fresh buffer holding `line`. */
  method ToBuffer(line: string) returns (buf: array<char>)
    ensures fresh(buf) && buf[..] == line
  {
    buf := new char[|line|](i requires 0 <= i < |line| => line[i]);
  }

  /** A line read into a buffer and passed through removeCRLF. */
  method ReadLine(line: string) returns (s: string)
    ensures s == StripLineEnd(line)
  {
    var buf := ToBuffer(line);
    assert buf[..|line|] == line;
    var _, n := RemoveCRLF(buf, |line|);
    s := buf[..n];
  }

  /** A continuation line read into a buffer and passed through removeCRLF and removeSpace. */
  method ReadContinuation(line: string) returns (s: string)
    ensures s == Unindented(line)
  {
    var buf := ToBuffer(line);
    assert buf[..|line|] == line;
    var _, n := RemoveCRLF(buf, |line|);
    n := RemoveSpace(buf, n);
    s := buf[..n];
  }

  /** Reading a continuation line without its first blank (as fgetc then fgets
      do) appends the same text. */
  lemma {:induction false} UnindentedAfterFirstBlank(line: string)
    requires IsContinuation(line)
    ensures Unindented(line[1..]) == Unindented(line)
  {
    var r := line[1..];
    assert line == [line[0]] + r;
    if |r| > 0 && (r[|r| - 1] == '\n' || r[|r| - 1] == '\r') {
      if |r| > 1 && r[|r| - 2] == '\r' {
        assert StripLineEnd(line) == [line[0]] + r[..|r| - 2];
      } else {
        assert StripLineEnd(line) == [line[0]] + r[..|r| - 1];
      }
    }
    assert StripLineEnd(line) == [line[0]] + StripLineEnd(r);
    assert StripLineEnd(line)[1..] == StripLineEnd(r);
  }

  // ---------------------------------------------------------------------
  // createValueList
  // ---------------------------------------------------------------------

  /** Every span between `;` delimiters, the last one included even when empty. */
  function Split(s: string): (r: seq<string>)
    ensures |r| >= 1
    decreases |s|
  {
    var k := Find(s, ';');
    if k == |s| then [s] else [s[..k]] + Split(s[k + 1..])
  }

  /** One step of Split at its first `;`: the span before it, then the
      split of the rest. */
  lemma {:induction false} SplitStepOf(s: string, k: nat, x: string, y: string)
    requires k == Find(s, ';') < |s| && x == s[..k] && y == s[k + 1..]
    ensures Split(s) == [x] + Split(y)
  {
  }

  /** A text without `;` is one span. */
  lemma {:induction false} SplitLeaf(s: string)
    requires Find(s, ';') == |s|
    ensures Split(s) == [s]
  {
  }

  /** A split into a single span is the whole text. */
  lemma {:induction false} SplitSingle(s: string)
    requires |Split(s)| == 1
    ensures Split(s) == [s]
  {
    var k := Find(s, ';');
    if k < |s| {
      assert false;
    }
    SplitLeaf(s);
  }

  /** Join unfolds at its head; a step of the split/join round trips. */
  lemma {:induction false} JoinCons(a: string, r: seq<string>)
    requires |r| >= 1
    ensures Join([a] + r) == a + ";" + Join(r)
  {
    assert ([a] + r)[1..] == r;
  }

  /** A text cut around one of its `;`. */
  lemma {:induction false} CutAround(s: string, k: nat)
    requires k < |s| && s[k] == ';'
    ensures s == s[..k] + ";" + s[k + 1..]
    ensures s[k..] == ";" + s[k + 1..]
  {
    SplitAt(s, k);
    assert [s[k]] == ";";
    assert s[k..] == [s[k]] + s[k + 1..];
  }

  /** Joining the spans with `;` gives the input back. */
  lemma {:induction false} SplitJoinsBack(s: string)
    ensures Join(Split(s)) == s
    decreases |s|
  {
    var k := Find(s, ';');
    if k < |s| {
      var t := s[k + 1..];
      SplitJoinsBack(t);
      SplitStepOf(s, k, s[..k], t);
      JoinCons(s[..k], Split(t));
      CutAround(s, k);
    } else {
      SplitLeaf(s);
    }
  }

  /** `;`-freedom of a cons; a step of the split/join round trips. */
  lemma {:induction false} FreeCons(a: string, r: seq<string>)
    requires ';' !in a && forall i :: 0 <= i < |r| ==> ';' !in r[i]
    ensures forall i :: 0 <= i < |[a] + r| ==> ';' !in ([a] + r)[i]
  {
    forall i | 0 <= i < |[a] + r|
      ensures ';' !in ([a] + r)[i]
    {
      if i > 0 {
        assert ([a] + r)[i] == r[i - 1];
      }
    }
  }

  /** No span holds a `;`. */
  lemma {:induction false} SplitSpansFree(s: string)
    ensures forall i :: 0 <= i < |Split(s)| ==> ';' !in Split(s)[i]
    decreases |s|
  {
    var k := Find(s, ';');
    if k < |s| {
      var t := s[k + 1..];
      SplitSpansFree(t);
      SplitStepOf(s, k, s[..k], t);
      assert ';' !in s[..k];
      FreeCons(s[..k], Split(t));
    } else {
      SplitLeaf(s);
      assert ';' !in s[..k];
      assert s[..k] == s;
    }
  }

  /** Reassociating a concatenation; used by the unfolding loops. */
  lemma {:induction false} AppendAssoc<T>(a: seq<T>, b: seq<T>, c: seq<T>)
    ensures (a + b) + c == a + (b + c)
  {
  }

  /** Split of a suffix that starts at `last` and whose first `;` is at `token`. */
  lemma {:induction false} SplitFrom(s: string, last: nat, token: nat)
    requires last <= token < |s| && token == last + Find(s[last..], ';')
    ensures Split(s[last..]) == [s[last..token]] + Split(s[token + 1..])
  {
    SplitStepOf(s[last..], token - last, s[last..token], s[token + 1..]);
  }

  /** createValueList: INV_PROP for the empty string; otherwise every span, the
      final one only when it is non-empty. */
  function ValueList(s: string): Result<seq<string>>
  {
    if s == "" then Failure(InvProp)
    else
      var parts := Split(s);
      if parts[|parts| - 1] == "" then Success(parts[..|parts| - 1]) else Success(parts)
  }

  /** The values createProperty keeps: it ignores createValueList's code, so an
      empty value part leaves the list empty. */
  function ValuesOf(s: string): seq<string>
  {
    match ValueList(s)
    case Success(vs) => vs
    case Failure(_) => []
  }

  /** createValueList: the strpbrk loop, appending each span before a `;`. */
  method CreateValueList(s: string) returns (err: ErrorCode, values: seq<string>)
    ensures err == Ok <==> ValueList(s).Success?
    ensures err == Ok ==> values == ValueList(s).value
    ensures err != Ok ==> err == InvProp
  {
    if |s| == 0 {
      return InvProp, [];
    }
    values := [];
    var last := 0;
    var token := Find(s, ';');
    assert s[last..] == s;
    while token < |s|
      invariant last <= token <= |s|
      invariant token == last + Find(s[last..], ';')
      invariant values + Split(s[last..]) == Split(s)
      decreases |s| - last
    {
      var x := s[last..token];
      ghost var r1 := Split(s[last..]);
      ghost var r2 := Split(s[token + 1..]);
      assert values + r1 == Split(s);
      SplitFrom(s, last, token);
      assert r1 == [x] + r2;
      AppendAssoc(values, [x], r2);
      assert (values + [x]) + r2 == Split(s);
      values := values + [x];
      last := token + 1;
      assert s[last..] == s[token + 1..];
      assert Split(s[last..]) == r2;
      token := last + Find(s[last..], ';');
    }
    assert Split(s[last..]) == [s[last..]];
    if last < |s| {
      values := values + [s[last..]];
    } else {
      assert Split(s)[..|Split(s)| - 1] == values;
    }
    err := Ok;
  }

  /** Joining the values with `;` gives back the value part, unless it ended in `;`. */
  lemma {:induction false} ValueListJoin(s: string)
    requires s != "" && !EndsWith(s, ";")
    ensures ValueList(s).Success? && Join(ValueList(s).value) == s
  {
    SplitJoinsBack(s);
    LastSpanNonEmpty(s);
  }

  /** Text that does not end in `;` ends in a non-empty span. */
  lemma {:induction false} LastSpanNonEmpty(s: string)
    requires s != "" && !EndsWith(s, ";")
    ensures Split(s)[|Split(s)| - 1] != ""
  {
    var parts := Split(s);
    if |parts| == 1 {
      SplitSingle(s);
    } else {
      LastOfSplitIsSuffix(s);
      EndsWithLonger(s, ";", parts[|parts| - 1]);
    }
  }

  /** A text ending in `a + b` ends in `a` when `b` is empty. */
  lemma {:induction false} EndsWithLonger(s: string, a: string, b: string)
    requires EndsWith(s, a + b)
    ensures b == "" ==> EndsWith(s, a)
  {
    if b == "" {
      assert a + b == a;
    }
  }

  /** The last element of a non-empty sequence after one more in front. */
  lemma {:induction false} LastOfCons<T>(a: T, r: seq<T>)
    requires |r| >= 1
    ensures |[a] + r| > 1 && ([a] + r)[|[a] + r| - 1] == r[|r| - 1]
  {
  }

  /** The last span of a split is a suffix of the input. */
  lemma {:induction false} LastOfSplitIsSuffix(s: string)
    ensures var parts := Split(s); EndsWith(s, parts[|parts| - 1])
    ensures var parts := Split(s); |parts| > 1 ==> EndsWith(s, ";" + parts[|parts| - 1])
    decreases |s|
  {
    var k := Find(s, ';');
    if k < |s| {
      var t := s[k + 1..];
      LastOfSplitIsSuffix(t);
      var rest := Split(t);
      SplitStepOf(s, k, s[..k], t);
      LastOfCons(s[..k], rest);
      var last := rest[|rest| - 1];
      SuffixOfSuffix(s, t, last);
      if |rest| > 1 {
        SuffixOfSuffix(s, t, ";" + last);
      } else {
        SplitSingle(t);
        CutAround(s, k);
        SuffixOfSuffix(s, s[k..], ";" + last);
      }
    } else {
      SplitLeaf(s);
    }
  }

  /** A suffix of a suffix of s is a suffix of s. */
  lemma {:induction false} SuffixOfSuffix(s: string, t: string, u: string)
    requires |t| <= |s| && t == s[|s| - |t|..] && EndsWith(t, u)
    ensures EndsWith(s, u)
  {
    assert s[|s| - |u|..] == t[|t| - |u|..];
  }

  /** A `;`-free text, a `;` and anything: its first `;` and the pieces
      around it. */
  lemma {:induction false} FirstSemicolon(a: string, r: string)
    requires ';' !in a
    ensures Find(a + ";" + r, ';') == |a|
    ensures (a + ";" + r)[..|a|] == a && (a + ";" + r)[|a| + 1..] == r
  {
    FindAppend(a, ";" + r, ';');
    assert a + ";" + r == a + (";" + r);
    assert Find(";" + r, ';') == 0;
  }

  /** Splitting a `;`-join of `;`-free values gives them back. */
  lemma {:induction false} SplitJoin(vs: seq<string>)
    requires |vs| > 0
    requires forall i :: 0 <= i < |vs| ==> ';' !in vs[i]
    ensures Split(Join(vs)) == vs
    decreases |vs|
  {
    if |vs| == 1 {
      FindSplit(vs[0], ';', |vs[0]|);
      SplitLeaf(vs[0]);
    } else {
      var rest := Join(vs[1..]);
      assert Join(vs) == vs[0] + ";" + rest;
      FirstSemicolon(vs[0], rest);
      SplitStepOf(Join(vs), |vs[0]|, vs[0], rest);
      SplitJoin(vs[1..]);
      assert vs == [vs[0]] + vs[1..];
    }
  }

  /** createValueList after valueToString: a non-empty list of `;`-free values
      whose last value is non-empty comes back unchanged. */
  lemma {:induction false} ValueListOfJoin(vs: seq<string>)
    requires |vs| > 0 && vs[|vs| - 1] != ""
    requires forall i :: 0 <= i < |vs| ==> ';' !in vs[i]
    ensures ValueList(Join(vs)) == Success(vs)
  {
    SplitJoin(vs);
  }

  // ---------------------------------------------------------------------
  // createParameterList
  // ---------------------------------------------------------------------

  /** What createParameterList produces. It stores one parameter, named by the
      text before the first `=` and valued by everything after it. It then
      looks for the next `;` only inside that name (the `=` has become the
      string's end), so a second pass happens only when the name holds a `;`
      that is not its last character, and that pass finds no `=` and fails. */
  function ParameterList(s: string): (r: Result<seq<Parameter>>)
    ensures '=' !in s ==> r == Failure(InvProp)
    ensures r.Failure? ==> r.error == InvProp
    ensures r.Success? ==> |r.value| == 1 && r.value[0].name + "=" + r.value[0].value == s
    ensures r.Success? ==> '=' !in r.value[0].name
  {
    if s == "" then Failure(InvProp)
    else
      var eq := Find(s, '=');
      if eq == |s| then Failure(InvProp)
      else
        var name := s[..eq];
        var semi := Find(name, ';');
        if semi == |name| || semi + 1 == |name| then Success([Parameter(name, s[eq + 1..])])
        else Failure(InvProp)
  }

  /** createParameterList: the do-while over `token`. `end` is where the string
      that starts at `token` ends: the copy's end at first, then the `=` that
      the loop overwrote with a NUL. */
  method CreateParameterList(s: string) returns (err: ErrorCode, params: seq<Parameter>)
    ensures err == Ok <==> ParameterList(s).Success?
    ensures err == Ok ==> params == ParameterList(s).value
    ensures err != Ok ==> err == ParameterList(s).error
  {
    if |s| == 0 {
      return InvProp, [];
    }
    var token := 0;
    var end := |s|;
    params := [];
    while true
      invariant token <= end <= |s|
      invariant params == [] ==> token == 0 && end == |s|
      invariant params != [] ==>
        var e := Find(s, '=');
        e < |s| && end == e && params == [Parameter(s[..e], s[e + 1..])]
        && token == Find(s[..e], ';') + 1 && token < e
      decreases end
    {
      var eq := token + Find(s[token..end], '=');
      if eq == end {
        if params != [] {
          var name := s[..end];
          assert Find(name, ';') + 1 < |name|;
        } else {
          assert s[token..end] == s;
        }
        return InvProp, params;
      }
      if params == [] {
        assert s[token..end] == s;
      } else {
        assert false;
      }
      params := params + [Parameter(s[token..eq], s[eq + 1..end])];
      end := eq;
      var semi := token + Find(s[token..end], ';');
      assert s[token..end] == s[..eq];
      if semi == end {
        return Ok, params;
      }
      token := semi + 1;
      if token == end {
        return Ok, params;
      }
    }
  }

  /** createParameterList never stores more than one parameter, and the text
      it accepted is that parameter rendered without its leading `;`. */
  lemma {:induction false} ParameterListSingle(s: string)
    requires ParameterList(s).Success?
    ensures |ParameterList(s).value| == 1
    ensures ParametersText(ParameterList(s).value) == ";" + s
  {
    var eq := Find(s, '=');
    assert s == s[..eq] + "=" + s[eq + 1..];
    assert ParametersText(ParameterList(s).value[1..]) == "";
  }

  /** With no `;` before the first `=`, the text is one parameter: the name
      before the `=` and the value after it, later `;` and `=` included. */
  lemma {:induction false} ParameterListNoSemicolon(s: string, name: string, value: string)
    requires s == name + "=" + value && '=' !in name && ';' !in name
    ensures ParameterList(s) == Success([Parameter(name, value)])
  {
    FindAppend(name, "=" + value, '=');
    assert s == name + ("=" + value);
    assert s[..|name|] == name;
    assert s[|name| + 1..] == value;
    FindSplit(name, ';', |name|);
  }

  /** The text before the first `=` with a `;` inside it that is not its last
      character: the second pass fails. */
  lemma {:induction false} ParameterListSecondPassFails(s: string, k: nat)
    requires k + 1 < Find(s, '=') < |s|
    requires s[k] == ';' && ';' !in s[..k]
    ensures ParameterList(s) == Failure(InvProp)
  {
    var eq := Find(s, '=');
    assert s[..eq][..k] == s[..k];
    FindSplit(s[..eq], ';', k);
  }

  // ---------------------------------------------------------------------
  // createProperty
  // ---------------------------------------------------------------------

  /** The part of a property line before its first `:`. */
  function Mixed(line: string): string
  {
    line[..Find(line, ':')]
  }

  /** The part of a property line after its first `:` (empty without one). */
  function ValuePart(line: string): string
  {
    var c := Find(line, ':');
    if c < |line| then line[c + 1..] else ""
  }

  /** createProperty's group and name: the text before the first `;` cut at its first `.`. */
  function SplitHead(head: string): (r: (string, string))
    ensures '.' !in r.0
    ensures '.' in head ==> r.0 + "." + r.1 == head
    ensures '.' !in head ==> r == ("", head)
  {
    var dot := Find(head, '.');
    if dot < |head| then
      assert head == head[..dot] + "." + head[dot + 1..];
      (head[..dot], head[dot + 1..])
    else ("", head)
  }

  /** The text after the first `;` of the text before `:`, "" without a `;`. */
  function ParamText(mixed: string): string
  {
    var semi := Find(mixed, ';');
    if semi < |mixed| then mixed[semi + 1..] else ""
  }

  /** createProperty once the line is cut at its first `:`. */
  function PropertyFrom(mixed: string, valueText: string): Result<Property>
  {
    var (group, name) := SplitHead(mixed[..Find(mixed, ';')]);
    if name == "" then Failure(InvProp)
    else
      var pt := ParamText(mixed);
      var params := if pt == "" then Success([]) else ParameterList(pt);
      if params.Failure? then Failure(params.error)
      else Success(Property(group, name, params.value, ValuesOf(valueText)))
  }

  /** createProperty as intended (see DotAfterSemicolon and EmptyNameAfterGroup
      for the two inputs on which the source does otherwise): the group ends at
      the first `.` of the text before the first `;`. */
  function CreateProperty(line: string): (r: Result<Property>)
    ensures ':' !in line ==> r == Failure(InvProp)
    ensures r.Failure? ==> r.error == InvProp
    ensures r.Success? ==> r.value.name != "" && |r.value.parameters| <= 1
  {
    var colon := Find(line, ':');
    if colon == |line| then Failure(InvProp)
    else PropertyFrom(line[..colon], line[colon + 1..])
  }

  /** A line cut at its first `:`. */
  lemma {:induction false} CutAtColon(mixed: string, valueText: string)
    requires ':' !in mixed
    ensures Mixed(mixed + ":" + valueText) == mixed
    ensures ValuePart(mixed + ":" + valueText) == valueText
    ensures CreateProperty(mixed + ":" + valueText) == PropertyFrom(mixed, valueText)
  {
    var line := mixed + ":" + valueText;
    assert line == mixed + (":" + valueText);
    FindAppend(mixed, ":" + valueText, ':');
    assert line[..|mixed|] == mixed;
    assert line[|mixed| + 1..] == valueText;
  }

  /** The text before `:` cut at its first `;`. */
  lemma {:induction false} CutAtSemicolon(head: string, rest: string)
    requires ';' !in head
    ensures Find(head + ";" + rest, ';') == |head|
    ensures (head + ";" + rest)[..|head|] == head
    ensures ParamText(head + ";" + rest) == rest
  {
    var mixed := head + ";" + rest;
    assert mixed == head + (";" + rest);
    FindAppend(head, ";" + rest, ';');
    assert mixed[|head| + 1..] == rest;
  }

  /** A text before `:` without `;`. */
  lemma {:induction false} NoSemicolon(head: string)
    requires ';' !in head
    ensures Find(head, ';') == |head| && head[..|head|] == head && ParamText(head) == ""
  {
    FindSplit(head, ';', |head|);
  }

  /** The group, name and values createProperty finds. */
  lemma {:induction false} CreatePropertyHead(line: string)
    requires CreateProperty(line).Success?
    ensures var mixed := Mixed(line);
      var head := mixed[..Find(mixed, ';')];
      && CreateProperty(line).value.group == SplitHead(head).0
      && CreateProperty(line).value.name == SplitHead(head).1
      && CreateProperty(line).value.values == ValuesOf(ValuePart(line))
  {
    var colon := Find(line, ':');
    assert CreateProperty(line) == PropertyFrom(Mixed(line), ValuePart(line));
    PropertyFromFields(Mixed(line), ValuePart(line));
  }

  /** The group, name and values of a successful PropertyFrom. */
  lemma {:induction false} PropertyFromFields(mixed: string, valueText: string)
    requires PropertyFrom(mixed, valueText).Success?
    ensures var head := mixed[..Find(mixed, ';')];
      && PropertyFrom(mixed, valueText).value.group == SplitHead(head).0
      && PropertyFrom(mixed, valueText).value.name == SplitHead(head).1
      && PropertyFrom(mixed, valueText).value.values == ValuesOf(valueText)
  {
  }

  /** The text before the first `:` and `;` starts the line and holds neither. */
  lemma {:induction false} HeadOfLine(line: string)
    ensures var mixed := Mixed(line);
      var head := mixed[..Find(mixed, ';')];
      line[..|head|] == head && ':' !in head && ';' !in head
  {
  }

  /** Where createProperty's fields come from: the group holds no delimiter, the
      name no `:` or `;`, the line starts with `group.name` (or just the name
      when there is no dot), and the values are those of the text after `:`. */
  lemma {:induction false} CreatePropertyFields(line: string)
    requires CreateProperty(line).Success?
    ensures var p := CreateProperty(line).value;
      && ':' !in p.group && ';' !in p.group && '.' !in p.group
      && ':' !in p.name && ';' !in p.name
      && p.values == ValuesOf(ValuePart(line))
      && (StartsWith(line, p.group + "." + p.name) || (p.group == "" && StartsWith(line, p.name)))
  {
    CreatePropertyHead(line);
    HeadOfLine(line);
    var mixed := Mixed(line);
    var head := mixed[..Find(mixed, ';')];
    var p := CreateProperty(line).value;
    if '.' in head {
      assert p.group + "." + p.name == head;
    } else {
      assert p.name == head;
    }
  }

  /** createProperty does not look at createValueList's code: a property
      with nothing after its `:` is accepted with no values. */
  lemma {:induction false} EmptyValueAccepted(name: string)
    requires name != "" && ':' !in name && ';' !in name && '.' !in name
    ensures CreateProperty(name + ":") == Success(Property("", name, [], []))
  {
    CutAtColon(name, "");
    assert name + ":" + "" == name + ":";
    PropertyFromWithoutParameters(name, "");
  }

  /** createProperty as written at src/VCHelpers.c:41-80. Both `.` and `;` are
      searched in the whole text before `:`, and the name's size is
      `endOfName - nameStart`, or `mixedSize - groupSize` without a `;`. A `;`
      before the first `.` makes that size negative; as a size_t it is huge and
      the realloc fails (OTHER_ERROR). Without a `;` the size counts the dot as
      well, so a name left empty after `G.` gets past the `nameSize > 0` test. */
  function CreatePropertyAsWritten(line: string): Result<Property>
  {
    var colon := Find(line, ':');
    if colon == |line| then Failure(InvProp)
    else
      var mixed := line[..colon];
      var dot := Find(mixed, '.');
      var semi := Find(mixed, ';');
      var groupSize := if dot < |mixed| then dot else 0;
      var nameStart := if dot < |mixed| then dot + 1 else 0;
      var nameSize: int := if semi < |mixed| then semi - nameStart else |mixed| - groupSize;
      if nameSize < 0 then Failure(OtherError)
      else if nameSize == 0 then Failure(InvProp)
      else
        var nameEnd := if nameStart + nameSize <= |mixed| then nameStart + nameSize else |mixed|;
        var group := if dot < |mixed| then mixed[..dot] else "";
        var name := mixed[nameStart..nameEnd];
        var paramText := if semi < |mixed| then mixed[semi + 1..] else "";
        var params := if paramText == "" then Success([]) else ParameterList(paramText);
        if params.Failure? then Failure(params.error)
        else Success(Property(group, name, params.value, ValuesOf(line[colon + 1..])))
  }

  /** The source's createProperty fails without a `:`, fails only with
      INV_PROP or OTHER_ERROR, and keeps at most one parameter. */
  lemma {:induction false} CreatePropertyAsWrittenResult(line: string)
    ensures ':' !in line ==> CreatePropertyAsWritten(line) == Failure(InvProp)
    ensures CreatePropertyAsWritten(line).Failure? ==>
      CreatePropertyAsWritten(line).error == InvProp || CreatePropertyAsWritten(line).error == OtherError
    ensures CreatePropertyAsWritten(line).Success? ==> |CreatePropertyAsWritten(line).value.parameters| <= 1
  {
  }

  /** The text before `:` has a `;` and its first `.` comes after it. */
  predicate DotAfterSemicolon(line: string)
  {
    var mixed := Mixed(line);
    ':' in line && Find(mixed, ';') < Find(mixed, '.') < |mixed|
  }

  /** The text before `:` has no `;` and its first `.` is its last character. */
  predicate EmptyNameAfterGroup(line: string)
  {
    var mixed := Mixed(line);
    ':' in line && Find(mixed, ';') == |mixed| && Find(mixed, '.') + 1 == |mixed|
  }

  /** Away from the two anomalies the source's createProperty and CreateProperty agree. */
  lemma {:induction false} CreatePropertyAsWrittenAgrees(line: string)
    requires !DotAfterSemicolon(line) && !EmptyNameAfterGroup(line)
    ensures CreatePropertyAsWritten(line) == CreateProperty(line)
  {
    var colon := Find(line, ':');
    if colon < |line| {
      var mixed := line[..colon];
      var semi := Find(mixed, ';');
      var head := mixed[..semi];
      var dot := Find(mixed, '.');
      if dot < semi {
        FindSplit(head, '.', dot);
        assert head[..dot] == mixed[..dot];
        assert head[dot + 1..] == mixed[dot + 1..semi];
      } else {
        assert dot == |mixed|;
        FindSplit(head, '.', |head|);
        assert head == mixed[0..semi];
      }
    }
  }

  /** As written, a `.` after the first `;` (a parameter value such as
      `TYPE=a.b`) makes the name's size negative: OTHER_ERROR. */
  lemma {:induction false} AsWrittenDotAfterSemicolon(line: string)
    requires DotAfterSemicolon(line)
    ensures CreatePropertyAsWritten(line) == Failure(OtherError)
  {
  }

  /** As written, `G.:x` is accepted with an empty name. */
  lemma {:induction false} AsWrittenEmptyNameAfterGroup(line: string)
    requires EmptyNameAfterGroup(line)
    ensures CreatePropertyAsWritten(line).Success?
    ensures CreatePropertyAsWritten(line).value.name == ""
    ensures CreateProperty(line) == Failure(InvProp)
  {
    var mixed := Mixed(line);
    FindSplit(mixed[..Find(mixed, ';')], '.', Find(mixed, '.'));
  }

  /** Where the delimiters of `TEL;TYPE=a.b:1` are. */
  lemma {:induction false} DottedParameterDelimiters()
    ensures Find("TEL;TYPE=a.b:1", ':') == 12
    ensures Mixed("TEL;TYPE=a.b:1") == "TEL;TYPE=a.b"
    ensures Find("TEL;TYPE=a.b", ';') == 3
    ensures Find("TEL;TYPE=a.b", '.') == 10
  {
    DottedParameterColon();
    DottedParameterMixed();
    DottedParameterSemicolon();
    DottedParameterDot();
  }

  /** The head of `TEL;TYPE=a.b:1`; for the dotted-parameter examples. */
  lemma {:induction false} DottedParameterMixed()
    ensures Mixed("TEL;TYPE=a.b:1") == "TEL;TYPE=a.b"
  {
    ColonSplit("TEL;TYPE=a.b", "1", "TEL;TYPE=a.b:1");
  }

  /** The text before the first `:` of `a:b`, when `a` has none, is `a`. */
  lemma {:induction false} ColonSplit(a: string, b: string, line: string)
    requires ':' !in a && line == a + ":" + b
    ensures Mixed(line) == a
  {
    assert line[..|a|] == a;
    FindSplit(line, ':', |a|);
  }

  /** Where the `:` of `TEL;TYPE=a.b:1` is; for the dotted-parameter examples. */
  lemma {:induction false} DottedParameterColon()
    ensures Find("TEL;TYPE=a.b:1", ':') == 12
  {
    FindSplit("TEL;TYPE=a.b:1", ':', 12);
  }

  /** Where the `;` of its head is; for the dotted-parameter examples. */
  lemma {:induction false} DottedParameterSemicolon()
    ensures Find("TEL;TYPE=a.b", ';') == 3
  {
    FindSplit("TEL;TYPE=a.b", ';', 3);
  }

  /** Where the `.` of its head is; for the dotted-parameter examples. */
  lemma {:induction false} DottedParameterDot()
    ensures Find("TEL;TYPE=a.b", '.') == 10
  {
    FindSplit("TEL;TYPE=a.b", '.', 10);
  }

  /** A parameter value containing a dot is rejected as written. */
  lemma {:induction false} AsWrittenDottedParameterExample()
    ensures CreatePropertyAsWritten("TEL;TYPE=a.b:1") == Failure(OtherError)
  {
    DottedParameterDelimiters();
    AsWrittenDotAfterSemicolon("TEL;TYPE=a.b:1");
  }

  /** The same line is accepted once corrected: it is what propertyToString
      writes for a TEL property with one dotted parameter. */
  lemma {:induction false} DottedParameterExample()
    ensures CreateProperty("TEL;TYPE=a.b:1")
      == Success(Property("", "TEL", [Parameter("TYPE", "a.b")], ["1"]))
  {
    var p := Property("", "TEL", [Parameter("TYPE", "a.b")], ["1"]);
    DottedParameterPrinted(p);
    ParsePrinted(p);
  }

  /** The property TEL;TYPE=a.b prints as `TEL;TYPE=a.b:1`; for ReadDottedParameterLine. */
  lemma {:induction false} DottedParameterPrinted(p: Property)
    requires p == Property("", "TEL", [Parameter("TYPE", "a.b")], ["1"])
    ensures Printable(p) && PropertyToString(p) == "TEL;TYPE=a.b:1"
  {
    DottedParameterPrintable(p);
    DottedParameterLists(p);
  }

  /** That property is Printable; for ReadDottedParameterLine. */
  lemma {:induction false} DottedParameterPrintable(p: Property)
    requires p == Property("", "TEL", [Parameter("TYPE", "a.b")], ["1"])
    ensures Printable(p)
  {
  }

  /** Its parameter and value texts; for DottedParameterPrinted. */
  lemma {:induction false} DottedParameterLists(p: Property)
    requires p == Property("", "TEL", [Parameter("TYPE", "a.b")], ["1"])
    ensures DropTrailingSemicolon(ParametersText(p.parameters)) == ";TYPE=a.b"
    ensures DropTrailingSemicolon(ValuesText(p.values)) == "1"
  {
    assert ParametersText(p.parameters) == ";TYPE=a.b";
    assert ValuesText(p.values) == "1;";
  }

  /** A group with an empty name: accepted as written, rejected once corrected. */
  lemma {:induction false} AsWrittenEmptyNameExample()
    ensures CreatePropertyAsWritten("G.:x").Success?
    ensures CreateProperty("G.:x") == Failure(InvProp)
  {
    var l2 := "G.:x";
    FindSplit(l2, ':', 2);
    assert l2[..2] == "G.";
    FindSplit("G.", ';', 2);
    FindSplit("G.", '.', 1);
    AsWrittenEmptyNameAfterGroup(l2);
  }

  /** A parameter propertyToString writes so that createParameterList reads it back. */
  predicate PrintableParameter(prm: Parameter)
  {
    ':' !in prm.name && ';' !in prm.name && '=' !in prm.name
    && ':' !in prm.value && !EndsWith(prm.value, ";")
  }

  /** A property propertyToString writes so that createProperty reads it back:
      no delimiter where the line is cut, at most one parameter (all
      createParameterList keeps) and values createValueList splits back. */
  predicate Printable(p: Property)
  {
    && ':' !in p.group && ';' !in p.group && '.' !in p.group
    && p.name != "" && ':' !in p.name && ';' !in p.name
    && (p.group == "" ==> '.' !in p.name)
    && |p.parameters| <= 1
    && (forall i :: 0 <= i < |p.parameters| ==> PrintableParameter(p.parameters[i]))
    && (p.values == [] || (p.values[|p.values| - 1] != "" && forall i :: 0 <= i < |p.values| ==> ';' !in p.values[i]))
  }

  /** The `[group.]` prefix propertyToString writes. */
  function GroupPrefix(group: string): (r: string)
    ensures group == "" ==> r == ""
    ensures group != "" ==> r == group + "."
  {
    if group == "" then "" else group + "."
  }

  /** What propertyToString writes for at most one parameter. */
  lemma {:induction false} PrintedParameters(ps: seq<Parameter>)
    requires |ps| <= 1 && forall i :: 0 <= i < |ps| ==> PrintableParameter(ps[i])
    ensures |ps| == 0 ==> DropTrailingSemicolon(ParametersText(ps)) == ""
    ensures |ps| == 1 ==>
      DropTrailingSemicolon(ParametersText(ps)) == ";" + (ps[0].name + "=" + ps[0].value)
  {
    if |ps| == 1 {
      assert ParametersText(ps[1..]) == "";
      var t := ParametersText(ps);
      assert t == ";" + ps[0].name + "=" + ps[0].value;
      if ps[0].value == "" {
        assert t[|t| - 1] == '=';
      } else {
        assert t[|t| - 1] == ps[0].value[|ps[0].value| - 1];
        assert ps[0].value[|ps[0].value| - 1..] == [ps[0].value[|ps[0].value| - 1]];
      }
    }
  }

  /** createValueList gives back the values propertyToString joined, the empty list included. */
  lemma {:induction false} ValuesOfPrinted(vs: seq<string>)
    requires vs == [] || (vs[|vs| - 1] != "" && forall i :: 0 <= i < |vs| ==> ';' !in vs[i])
    ensures ValuesOf(DropTrailingSemicolon(ValuesText(vs))) == vs
  {
    ValuesTextJoin(vs);
    if vs != [] {
      ValueListOfJoin(vs);
    }
  }

  /** SplitHead undoes the `[group.]name` prefix propertyToString writes. */
  lemma {:induction false} SplitHeadOfPrefix(group: string, name: string)
    requires '.' !in group && (group == "" ==> '.' !in name)
    ensures SplitHead(GroupPrefix(group) + name) == (group, name)
  {
    var head := GroupPrefix(group) + name;
    if group != "" {
      assert head == group + ("." + name);
      FindAppend(group, "." + name, '.');
      assert head[..|group|] == group;
      assert head[|group| + 1..] == name;
    } else {
      assert head == name;
      assert head[..|head|] == name;
      FindSplit(head, '.', |head|);
    }
  }

  /** createProperty on a text before `:` that has a `;`. */
  lemma {:induction false} PropertyFromWithParameters(head: string, rest: string, v: string)
    requires ';' !in head && rest != ""
    ensures PropertyFrom(head + ";" + rest, v).Success? <==>
      SplitHead(head).1 != "" && ParameterList(rest).Success?
    ensures PropertyFrom(head + ";" + rest, v).Success? ==>
      PropertyFrom(head + ";" + rest, v).value
        == Property(SplitHead(head).0, SplitHead(head).1, ParameterList(rest).value, ValuesOf(v))
  {
    CutAtSemicolon(head, rest);
  }

  /** createProperty on a text before `:` without `;`. */
  lemma {:induction false} PropertyFromWithoutParameters(head: string, v: string)
    requires ';' !in head
    ensures PropertyFrom(head, v).Success? <==> SplitHead(head).1 != ""
    ensures PropertyFrom(head, v).Success? ==>
      PropertyFrom(head, v).value == Property(SplitHead(head).0, SplitHead(head).1, [], ValuesOf(v))
  {
    NoSemicolon(head);
  }

  /** ParsePrinted for a property with one parameter. */
  lemma {:induction false} ParsePrintedWithParameter(p: Property)
    requires Printable(p) && |p.parameters| == 1
    ensures CreateProperty(PropertyToString(p)) == Success(p)
  {
    var head := GroupPrefix(p.group) + p.name;
    var rest := p.parameters[0].name + "=" + p.parameters[0].value;
    var vals := DropTrailingSemicolon(ValuesText(p.values));
    PrintedWithParameter(p, head, rest, vals);
    CutAtColon(head + ";" + rest, vals);
    ReadWithParameter(p, head, rest, vals);
  }

  /** How propertyToString lays out a property with one parameter. */
  lemma {:induction false} PrintedWithParameter(p: Property, head: string, rest: string, vals: string)
    requires Printable(p) && |p.parameters| == 1
    requires head == GroupPrefix(p.group) + p.name
    requires rest == p.parameters[0].name + "=" + p.parameters[0].value
    requires vals == DropTrailingSemicolon(ValuesText(p.values))
    ensures PropertyToString(p) == head + ";" + rest + ":" + vals
    ensures ':' !in head + ";" + rest
  {
    assert PrintableParameter(p.parameters[0]);
    PrintedParameters(p.parameters);
    PrintedFromParts(p, head, ";" + rest, vals);
    AppendAssoc(head, ";", rest);
    assert ':' !in rest;
  }

  /** The parts of a printed property with one parameter read back as it. */
  lemma {:induction false} ReadWithParameter(p: Property, head: string, rest: string, vals: string)
    requires Printable(p) && |p.parameters| == 1
    requires head == GroupPrefix(p.group) + p.name
    requires rest == p.parameters[0].name + "=" + p.parameters[0].value
    requires vals == DropTrailingSemicolon(ValuesText(p.values))
    ensures PropertyFrom(head + ";" + rest, vals) == Success(p)
  {
    var prm := p.parameters[0];
    assert PrintableParameter(prm);
    ValuesOfPrinted(p.values);
    SplitHeadOfPrefix(p.group, p.name);
    ParameterListNoSemicolon(rest, prm.name, prm.value);
    PropertyFromWithParameters(head, rest, vals);
    assert p.parameters == [prm];
  }

  /** ParsePrinted for a property without parameters. */
  lemma {:induction false} ParsePrintedWithoutParameters(p: Property)
    requires Printable(p) && |p.parameters| == 0
    ensures CreateProperty(PropertyToString(p)) == Success(p)
  {
    var head := GroupPrefix(p.group) + p.name;
    var vals := DropTrailingSemicolon(ValuesText(p.values));
    PrintedParameters(p.parameters);
    ValuesOfPrinted(p.values);
    SplitHeadOfPrefix(p.group, p.name);
    PrintedFromParts(p, head, "", vals);
    assert head + "" == head;
    CutAtColon(head, vals);
    PropertyFromWithoutParameters(head, vals);
  }

  /** createProperty after propertyToString: a printable property comes back unchanged. */
  lemma {:induction false} ParsePrinted(p: Property)
    requires Printable(p)
    ensures CreateProperty(PropertyToString(p)) == Success(p)
  {
    if |p.parameters| == 1 {
      ParsePrintedWithParameter(p);
    } else {
      ParsePrintedWithoutParameters(p);
    }
  }

  /** A printable property that the source's createProperty reads back too:
      without a group, no `.` may come after the `;` of its parameter, or the
      name's size comes out negative. */
  predicate AsWrittenReadable(p: Property)
  {
    p.group == "" ==>
      forall i :: 0 <= i < |p.parameters| ==> '.' !in p.parameters[i].name && '.' !in p.parameters[i].value
  }

  /** The line propertyToString prints for such a property is neither of the
      two inputs on which the source's createProperty goes astray. */
  lemma {:induction false} PrintedNotAnomalous(p: Property)
    requires Printable(p) && AsWrittenReadable(p)
    ensures !DotAfterSemicolon(PropertyToString(p)) && !EmptyNameAfterGroup(PropertyToString(p))
  {
    var head := GroupPrefix(p.group) + p.name;
    var vals := DropTrailingSemicolon(ValuesText(p.values));
    var tail := if |p.parameters| == 1 then ";" + (p.parameters[0].name + "=" + p.parameters[0].value) else "";
    PrintedLine(p, head, tail, vals);
    NotAnomalous(p.group, p.name, tail, vals, PropertyToString(p));
  }

  /** propertyToString prints `[group.]name`, the parameter text and `:` before the values. */
  lemma {:induction false} PrintedLine(p: Property, head: string, tail: string, vals: string)
    requires Printable(p) && head == GroupPrefix(p.group) + p.name
    requires tail == if |p.parameters| == 1 then ";" + (p.parameters[0].name + "=" + p.parameters[0].value) else ""
    requires vals == DropTrailingSemicolon(ValuesText(p.values))
    ensures PropertyToString(p) == head + tail + ":" + vals && ':' !in head + tail
  {
    PrintedParameters(p.parameters);
    PrintedFromParts(p, head, tail, vals);
  }

  /** A line `[group.]name` + `tail` + `:` + values, with `tail` empty or led
      by `;`, is neither anomaly when the head is well formed and, without a
      group, no `.` stands before the `:`. */
  lemma {:induction false} NotAnomalous(group: string, name: string, tail: string, vals: string, line: string)
    requires ';' !in group && '.' !in group && ';' !in name && name != ""
    requires group == "" ==> '.' !in name && '.' !in tail
    requires tail == "" || tail[0] == ';'
    requires ':' !in GroupPrefix(group) + name + tail
    requires line == GroupPrefix(group) + name + tail + ":" + vals
    ensures !DotAfterSemicolon(line) && !EmptyNameAfterGroup(line)
  {
    var head := GroupPrefix(group) + name;
    ColonSplit(head + tail, vals, line);
    HeadSemicolon(head, tail);
    if tail != "" {
      assert Find(tail, ';') == 0;
    }
    if group != "" {
      assert head + tail == group + "." + (name + tail);
      GroupDot(group, name + tail);
    }
  }

  /** The first `;` after `[group.]name` is the first of `tail`. */
  lemma {:induction false} HeadSemicolon(head: string, tail: string)
    requires ';' !in head
    ensures Find(head + tail, ';') == |head| + Find(tail, ';')
  {
    FindAppend(head, tail, ';');
  }

  /** With a group, the first `.` is the one after it. */
  lemma {:induction false} GroupDot(group: string, rest: string)
    requires '.' !in group
    ensures Find(group + "." + rest, '.') == |group|
  {
    FindSplit(group + "." + rest, '.', |group|);
  }

  /** The source's createProperty reads back what propertyToString prints,
      when the property is printable and not one of the anomalies. */
  lemma {:induction false} ParsePrintedAsWritten(p: Property)
    requires Printable(p) && AsWrittenReadable(p)
    ensures CreatePropertyAsWritten(PropertyToString(p)) == Success(p)
  {
    PrintedNotAnomalous(p);
    CreatePropertyAsWrittenAgrees(PropertyToString(p));
    ParsePrinted(p);
  }

  /** The values part propertyToString writes back, unless it ended in `;`. */
  lemma {:induction false} PrintedValuePart(v: string)
    requires !EndsWith(v, ";")
    ensures DropTrailingSemicolon(ValuesText(ValuesOf(v))) == v
  {
    if v != "" {
      ValueListJoin(v);
    }
    ValuesTextJoin(ValuesOf(v));
  }

  /** The `[group.]name` propertyToString writes back, unless it starts with `.`. */
  lemma {:induction false} PrintedHead(head: string)
    requires !StartsWith(head, ".")
    ensures GroupPrefix(SplitHead(head).0) + SplitHead(head).1 == head
  {
  }

  /** A parameter text without a trailing `;` comes back from its rendering. */
  lemma {:induction false} PrintedParameterList(pt: string)
    requires ParameterList(pt).Success? && !EndsWith(pt, ";")
    ensures DropTrailingSemicolon(ParametersText(ParameterList(pt).value)) == ";" + pt
  {
    ParameterListSingle(pt);
    var t := ";" + pt;
    assert t[|t| - 1] == pt[|pt| - 1] by {
      assert |pt| > 0;
    }
    assert pt[|pt| - 1..] == [pt[|pt| - 1]];
  }

  /** propertyToString assembled from the texts of its parts. */
  lemma {:induction false} PrintedFromParts(p: Property, head: string, params: string, v: string)
    requires GroupPrefix(p.group) + p.name == head
    requires DropTrailingSemicolon(ParametersText(p.parameters)) == params
    requires DropTrailingSemicolon(ValuesText(p.values)) == v
    ensures PropertyToString(p) == head + params + ":" + v
  {
  }

  /** propertyToString after createProperty, on a line whose text before `:`
      has a `;` followed by a parameter text. */
  lemma {:induction false} PrintParsedWithParameters(head: string, rest: string, v: string)
    requires ';' !in head && ':' !in head && ':' !in rest
    requires rest != "" && !EndsWith(rest, ";") && !StartsWith(head, ".") && !EndsWith(v, ";")
    requires PropertyFrom(head + ";" + rest, v).Success?
    ensures PropertyToString(PropertyFrom(head + ";" + rest, v).value) == head + ";" + rest + ":" + v
  {
    PropertyFromWithParameters(head, rest, v);
    var p := PropertyFrom(head + ";" + rest, v).value;
    PrintedHead(head);
    PrintedParameterList(rest);
    PrintedValuePart(v);
    PrintedFromParts(p, head, ";" + rest, v);
    AppendAssoc(head, ";", rest);
  }

  /** propertyToString after createProperty, on a line without `;` before `:`. */
  lemma {:induction false} PrintParsedWithoutParameters(head: string, v: string)
    requires ';' !in head && ':' !in head && !StartsWith(head, ".") && !EndsWith(v, ";")
    requires PropertyFrom(head, v).Success?
    ensures PropertyToString(PropertyFrom(head, v).value) == head + ":" + v
  {
    PropertyFromWithoutParameters(head, v);
    var p := Property(SplitHead(head).0, SplitHead(head).1, [], ValuesOf(v));
    PrintedHead(head);
    PrintedValuePart(v);
    assert ParametersText([]) == "";
    PrintedFromParts(p, head, "", v);
    assert head + "" == head;
  }

  /** A property line is its text before `:`, the `:` and its value part. */
  lemma {:induction false} CutLine(line: string)
    requires ':' in line
    ensures ':' !in Mixed(line) && line == Mixed(line) + ":" + ValuePart(line)
  {
  }

  /** A text before `:` with a `;` is the text before it, the `;` and the parameter text. */
  lemma {:induction false} CutMixed(mixed: string)
    requires Find(mixed, ';') < |mixed|
    ensures var semi := Find(mixed, ';');
      mixed == mixed[..semi] + ";" + mixed[semi + 1..]
  {
    SplitAt(mixed, Find(mixed, ';'));
  }

  /** A sequence is what comes before an index, the element there, and what follows. */
  lemma {:induction false} SplitAt<T>(s: seq<T>, k: nat)
    requires k < |s|
    ensures s == s[..k] + [s[k]] + s[k + 1..]
  {
    var t := s[..k] + [s[k]] + s[k + 1..];
    assert |t| == |s|;
    forall i | 0 <= i < |s|
      ensures t[i] == s[i]
    {
    }
  }

  /** The pieces of a property line: the text before the first `;` (or `:`),
      the parameter text, and the value part. */
  lemma {:induction false} LinePieces(line: string)
    requires ':' in line
    ensures var mixed := Mixed(line);
      var semi := Find(mixed, ';');
      && ':' !in mixed && ';' !in mixed[..semi] && ':' !in mixed[..semi]
      && line == mixed + ":" + ValuePart(line)
      && (semi < |mixed| ==> mixed == mixed[..semi] + ";" + mixed[semi + 1..])
      && (semi < |mixed| ==> line == mixed[..semi] + ";" + mixed[semi + 1..] + ":" + ValuePart(line))
      && line[..|mixed[..semi]|] == mixed[..semi]
  {
    CutLine(line);
    HeadOfLine(line);
    var mixed := Mixed(line);
    var semi := Find(mixed, ';');
    if semi < |mixed| {
      CutMixed(mixed);
    }
  }

  /** The conditions of PrintParsed, moved onto the pieces of the line. */
  lemma {:induction false} PiecesConditions(line: string)
    requires ':' in line
    requires !StartsWith(line, ".") && !EndsWith(Mixed(line), ";") && !EndsWith(line, ";")
    ensures var mixed := Mixed(line);
      var semi := Find(mixed, ';');
      && !StartsWith(mixed[..semi], ".")
      && !EndsWith(ValuePart(line), ";")
      && (semi < |mixed| ==> mixed[semi + 1..] != "" && !EndsWith(mixed[semi + 1..], ";"))
  {
    LinePieces(line);
    var mixed := Mixed(line);
    var v := ValuePart(line);
    var semi := Find(mixed, ';');
    var head := mixed[..semi];
    assert !StartsWith(head, ".") by {
      if head != "" { assert line[..1] == head[..1]; }
    }
    assert !EndsWith(v, ";") by {
      if v != "" { assert v[|v| - 1..] == line[|line| - 1..]; }
    }
    if semi < |mixed| {
      var rest := mixed[semi + 1..];
      assert mixed[|mixed| - 1..] == rest[|rest| - 1..];
    }
  }

  /** propertyToString after createProperty: a line comes back unchanged unless
      it starts with `.` (an empty group), has nothing or a trailing `;` after
      its first `;` before `:`, or ends with `;` (createValueList drops an
      empty last value). */
  lemma {:induction false} PrintParsed(line: string)
    requires CreateProperty(line).Success?
    requires !StartsWith(line, ".") && !EndsWith(Mixed(line), ";") && !EndsWith(line, ";")
    ensures PropertyToString(CreateProperty(line).value) == line
  {
    LinePieces(line);
    PiecesConditions(line);
    var mixed := Mixed(line);
    var v := ValuePart(line);
    var semi := Find(mixed, ';');
    CutAtColon(mixed, v);
    if semi < |mixed| {
      PrintParsedWithParameters(mixed[..semi], mixed[semi + 1..], v);
    } else {
      PrintParsedWithoutParameters(mixed[..semi], v);
    }
  }

  // ---------------------------------------------------------------------
  // createDateTime, bdayText, annText
  // ---------------------------------------------------------------------

  /** createDateTime once the `Z` is taken off: free text when it contains
      `circa`, otherwise a date and a time cut at the first `T`. */
  function DateOfRest(utc: bool, rest: string): (r: DateTime)
    ensures r.utc == utc
    ensures r.isText <==> Contains(rest, "circa")
    ensures r.isText ==> r.date == "" && r.time == "" && r.text == rest
    ensures !r.isText ==> r.text == "" && 'T' !in r.date
    ensures !r.isText && 'T' in rest ==> r.date + "T" + r.time == rest
    ensures !r.isText && 'T' in rest ==>
      r.date == rest[..Find(rest, 'T')] && r.time == rest[Find(rest, 'T') + 1..]
    ensures !r.isText && 'T' !in rest ==> r.date == rest && r.time == ""
  {
    if Contains(rest, "circa") then DateTime(utc, true, "", "", rest)
    else
      var t := Find(rest, 'T');
      if t == |rest| then DateTime(utc, false, rest, "", "")
      else
        SplitAt(rest, t);
        DateTime(utc, false, rest[..t], rest[t + 1..], "")
  }

  /** createDateTime on the non-empty text after `:`: a final `Z` marks UTC
      and is taken off; the fields then give the text back with that `Z`. */
  function DateFrom(raw: string): (r: DateTime)
    requires raw != ""
    ensures r.utc == (raw[|raw| - 1] == 'Z')
    ensures r.isText ==> r.text + (if r.utc then "Z" else "") == raw
    ensures !r.isText && 'T' in raw ==> r.date + "T" + r.time + (if r.utc then "Z" else "") == raw
    ensures !r.isText && 'T' !in raw ==> r.date + (if r.utc then "Z" else "") == raw && r.time == ""
  {
    var utc := raw[|raw| - 1] == 'Z';
    var rest := if utc then raw[..|raw| - 1] else raw;
    assert raw == rest + (if utc then "Z" else "");
    assert 'T' in raw <==> 'T' in rest;
    DateOfRest(utc, rest)
  }

  /** createDateTime */
  function CreateDateTime(line: string): (r: Result<DateTime>)
    ensures r.Failure? <==> (Find(line, ':') + 1 >= |line|)
    ensures r.Failure? ==> r.error == InvProp
    ensures r.Success? ==> r.value.utc == EndsWith(line, "Z")
    ensures r.Success? && r.value.isText ==>
      r.value.date == "" && r.value.time == "" && Contains(r.value.text, "circa")
    ensures r.Success? && !r.value.isText ==> r.value.text == "" && 'T' !in r.value.date
  {
    if line == "" then Failure(InvProp)
    else
      var colon := Find(line, ':');
      if colon + 1 >= |line| then Failure(InvProp)
      else
        var raw := line[colon + 1..];
        assert line[|line| - 1..] == [raw[|raw| - 1]];
        Success(DateFrom(raw))
  }

  /** A line with a `:`-free key: createDateTime reads what follows the `:`. */
  lemma {:induction false} CreateDateTimeAfterKey(key: string, raw: string)
    requires ':' !in key && raw != ""
    ensures CreateDateTime(key + ":" + raw) == Success(DateFrom(raw))
  {
    var line := key + ":" + raw;
    assert line == key + (":" + raw);
    FindAppend(key, ":" + raw, ':');
    assert line[|key| + 1..] == raw;
  }

  /** A date dateToString writes so that createDateTime reads it back: free
      text that is not UTC (dateToString drops the `Z` of text) and does not
      end in `Z`, or a structured date without `T` in its date part, without
      `circa`, and non-empty or UTC, whose text does not end in `Z` unless it
      is UTC. */
  predicate Reparsable(d: DateTime)
  {
    if d.isText then
      !d.utc && d.date == "" && d.time == "" && Contains(d.text, "circa") && !EndsWith(d.text, "Z")
    else
      var s := StructuredText(d);
      d.text == "" && 'T' !in d.date && !Contains(s, "circa")
      && (d.utc || (s != "" && !EndsWith(s, "Z")))
  }

  /** The empty text holds no `circa`; for the date round trips. */
  lemma {:induction false} NoCircaInEmpty()
    ensures !Contains("", "circa")
  {
  }

  /** The structured text is cut back into date and time at its first `T`. */
  lemma {:induction false} StructuredTextSplit(d: DateTime)
    requires !d.isText && 'T' !in d.date
    ensures var s := StructuredText(d);
      && ('T' in s ==> d.date == s[..Find(s, 'T')] && d.time == s[Find(s, 'T') + 1..])
      && ('T' !in s ==> d.date == s && d.time == "")
  {
    var s := StructuredText(d);
    if d.date != "" && d.time != "" {
      assert s == d.date + ("T" + d.time);
      FindAppend(d.date, "T" + d.time, 'T');
      assert s[..|d.date|] == d.date;
      assert s[|d.date| + 1..] == d.time;
    } else if d.date != "" {
      FindSplit(s, 'T', |s|);
    } else if d.time != "" {
      assert s[0] == 'T';
      assert s[1..] == d.time;
    }
  }

  /** createDateTime after dateToString, for free text. */
  lemma {:induction false} ParsePrintedText(d: DateTime)
    requires d.isText && Reparsable(d)
    ensures d.text != "" && DateFrom(d.text) == d
  {
    var raw := d.text;
    assert raw != "" by {
      NoCircaInEmpty();
    }
    assert raw[|raw| - 1..] == [raw[|raw| - 1]];
  }

  /** dateToString of a structured date: the structured text, then `Z` exactly when UTC. */
  lemma {:induction false} StructuredRaw(d: DateTime)
    requires !d.isText && Reparsable(d)
    ensures var raw := DateToString(d);
      && raw != ""
      && (raw[|raw| - 1] == 'Z') == d.utc
      && (if d.utc then raw[..|raw| - 1] else raw) == StructuredText(d)
  {
    var raw := DateToString(d);
    var s := StructuredText(d);
    if d.utc {
      assert raw == s + "Z";
      assert raw[..|raw| - 1] == s;
    } else {
      assert s[|s| - 1..] == [s[|s| - 1]];
    }
  }

  /** Reading the structured text back gives the date. */
  lemma {:induction false} StructuredReread(d: DateTime)
    requires !d.isText && Reparsable(d)
    ensures DateOfRest(d.utc, StructuredText(d)) == d
  {
    StructuredTextSplit(d);
  }

  /** createDateTime after dateToString, for a structured date. */
  lemma {:induction false} ParsePrintedStructured(d: DateTime)
    requires !d.isText && Reparsable(d)
    ensures DateToString(d) != "" && DateFrom(DateToString(d)) == d
  {
    StructuredRaw(d);
    StructuredReread(d);
  }

  /** createDateTime after dateToString: a reparsable date comes back unchanged. */
  lemma {:induction false} ParsePrintedDate(key: string, d: DateTime)
    requires ':' !in key && Reparsable(d)
    ensures CreateDateTime(key + ":" + DateToString(d)) == Success(d)
  {
    if d.isText {
      ParsePrintedText(d);
    } else {
      ParsePrintedStructured(d);
    }
    CreateDateTimeAfterKey(key, DateToString(d));
  }

  /** A date whose `T` ends the text: only the date part is written back. */
  lemma {:induction false} DateBeforeFinalT(utc: bool, rest: string)
    requires var d := DateOfRest(utc, rest); !d.isText && 'T' in rest && d.time == "" && d.date != ""
    requires !utc ==> !EndsWith(rest, "ZT")
    ensures Reparsable(DateOfRest(utc, rest))
  {
    var d := DateOfRest(utc, rest);
    assert rest == d.date + "T";
    if Contains(d.date, "circa") {
      ContainsPrefix(d.date, "T", "circa");
    }
    if !utc {
      assert rest[|rest| - 2..] == [d.date[|d.date| - 1], 'T'];
      assert d.date[|d.date| - 1..] == [d.date[|d.date| - 1]];
    }
  }

  /** Which texts after the `Z` is taken off read as a reparsable date. */
  lemma {:induction false} RestReparsable(utc: bool, rest: string)
    requires !(utc && Contains(rest, "circa"))
    requires !utc ==> rest != "" && !EndsWith(rest, "Z") && rest != "T" && !EndsWith(rest, "ZT")
    ensures Reparsable(DateOfRest(utc, rest))
  {
    var d := DateOfRest(utc, rest);
    NoCircaInEmpty();
    if d.isText {
    } else if 'T' in rest && d.time == "" && d.date != "" {
      DateBeforeFinalT(utc, rest);
    } else if 'T' in rest && d.time == "" {
      assert rest == "T";
    } else if 'T' in rest && d.date == "" {
      assert rest == "T" + d.time;
    }
  }

  /** Which createDateTime results dateToString writes so that they read back:
      all but UTC free text, a value of just `T`, and a value ending in `ZT`
      (its empty time is dropped and the `Z` then reads as UTC). */
  lemma {:induction false} ParsedDateReparsable(line: string)
    requires CreateDateTime(line).Success?
    requires !(CreateDateTime(line).value.isText && CreateDateTime(line).value.utc)
    requires ValuePart(line) != "T" && !EndsWith(ValuePart(line), "ZT")
    ensures Reparsable(CreateDateTime(line).value)
  {
    var raw := ValuePart(line);
    var d := CreateDateTime(line).value;
    assert d == DateFrom(raw);
    if !d.utc {
      assert raw[|raw| - 1..] == [raw[|raw| - 1]];
    }
    RestReparsable(d.utc, if d.utc then raw[..|raw| - 1] else raw);
  }

  /** A date createDateTime read, once written by dateToString after a
      `:`-free key, is read back unchanged (within the limits of ParsedDateReparsable). */
  lemma {:induction false} DateRoundTrip(line: string, key: string)
    requires CreateDateTime(line).Success? && ':' !in key
    requires !(CreateDateTime(line).value.isText && CreateDateTime(line).value.utc)
    requires ValuePart(line) != "T" && !EndsWith(ValuePart(line), "ZT")
    ensures CreateDateTime(key + ":" + DateToString(CreateDateTime(line).value)) == CreateDateTime(line)
  {
    ParsedDateReparsable(line);
    ParsePrintedDate(key, CreateDateTime(line).value);
  }

  /** A date ending in `Z` followed by a `T` and no time, such as `BDAY:2020ZT`,
      does not survive a write and a re-read: the date `2020Z` is written
      without the `T` and then read as the UTC date `2020`. */
  lemma {:induction false} DateRoundTripCounterexample(key: string, date: string)
    requires ':' !in key && 'T' !in date && !Contains(date + "T", "circa")
    requires date != "" && date[|date| - 1] == 'Z'
    ensures CreateDateTime(key + ":" + date + "T") == Success(DateTime(false, false, date, "", ""))
    ensures DateToString(DateTime(false, false, date, "", "")) == date
    ensures CreateDateTime(key + ":" + date).Success?
    ensures CreateDateTime(key + ":" + date).value.utc
  {
    EmptyTimeDropped(key, date);
    CreateDateTimeAfterKey(key, date);
  }

  /** A date followed by a `T` and no time is read without the `T`. */
  lemma {:induction false} EmptyTimeDropped(key: string, date: string)
    requires ':' !in key && 'T' !in date && !Contains(date + "T", "circa")
    requires date != "" && date[|date| - 1] == 'Z'
    ensures CreateDateTime(key + ":" + date + "T") == Success(DateTime(false, false, date, "", ""))
    ensures DateToString(DateTime(false, false, date, "", "")) == date
  {
    var raw := date + "T";
    assert key + ":" + date + "T" == key + ":" + raw;
    CreateDateTimeAfterKey(key, raw);
    EmptyTimeRead(date, raw);
  }

  /** The text of a date followed by a `T` and no time, read. */
  lemma {:induction false} EmptyTimeRead(date: string, raw: string)
    requires 'T' !in date && !Contains(raw, "circa") && raw == date + "T"
    ensures DateFrom(raw) == DateTime(false, false, date, "", "")
  {
    assert raw[|raw| - 1] == 'T';
    assert DateFrom(raw) == DateOfRest(false, raw);
    FindSplit(raw, 'T', |date|);
    assert raw[..|date|] == date;
  }

  /** bdayText: `BDAY:` and the date's text; NULL gives "". */
  function BdayText(d: Option<DateTime>): string
  {
    match d
    case None => ""
    case Some(date) => "BDAY:" + DateToString(date)
  }

  /** annText: `ANNIVERSARY:` and the date's text; NULL gives "". */
  function AnnText(d: Option<DateTime>): string
  {
    match d
    case None => ""
    case Some(date) => "ANNIVERSARY:" + DateToString(date)
  }

  /** The BDAY and ANNIVERSARY lines of a date createDateTime can read back
      give that date back. */
  lemma {:induction false} DateLineRoundTrip(d: DateTime)
    requires Reparsable(d)
    ensures CreateDateTime(BdayText(Some(d))) == Success(d)
    ensures CreateDateTime(AnnText(Some(d))) == Success(d)
    ensures BdayText(None) == "" && AnnText(None) == ""
  {
    BdayKey();
    AnnKey();
    KeyedDate("BDAY", "BDAY:", d);
    KeyedDate("ANNIVERSARY", "ANNIVERSARY:", d);
  }

  /** The BDAY key holds no `:`; for DateLineRoundTrip. */
  lemma {:induction false} BdayKey()
    ensures ':' !in "BDAY" && "BDAY:" == "BDAY" + ":"
  {
    assert "BDAY" == ['B', 'D', 'A', 'Y'];
  }

  /** The ANNIVERSARY key holds no `:`; for DateLineRoundTrip. */
  lemma {:induction false} AnnKey()
    ensures ':' !in "ANNIVERSARY" && "ANNIVERSARY:" == "ANNIVERSARY" + ":"
  {
    assert "ANNIVERSARY" == ['A', 'N', 'N', 'I', 'V', 'E', 'R', 'S', 'A', 'R', 'Y'];
  }

  /** A keyed date line reads back its date; for DateLineRoundTrip. */
  lemma {:induction false} KeyedDate(key: string, prefix: string, d: DateTime)
    requires ':' !in key && prefix == key + ":" && Reparsable(d)
    ensures CreateDateTime(prefix + DateToString(d)) == Success(d)
  {
    ParsePrintedDate(key, d);
  }
}
