/** The serializers and equality predicates of src/VCParser.c. The linked
    list's own toString is not part of this model: it is taken to be the
    in-order concatenation of its elements' strings. */
module VCParser {
  import opened VCardTypes

  /** parameterToString */
  function ParameterToString(p: Parameter): string
  {
    ";" + p.name + "=" + p.value
  }

  /** valueToString */
  function ValueToString(v: string): string
  {
    v + ";"
  }

  /** toString of a parameter list. */
  function ParametersText(ps: seq<Parameter>): string
  {
    if |ps| == 0 then "" else ParameterToString(ps[0]) + ParametersText(ps[1..])
  }

  /** toString of a value list. */
  function ValuesText(vs: seq<string>): string
  {
    if |vs| == 0 then "" else ValueToString(vs[0]) + ValuesText(vs[1..])
  }

  /** propertyToString cuts one trailing `;` off each list's text. */
  function DropTrailingSemicolon(s: string): string
  {
    if |s| > 0 && s[|s| - 1] == ';' then s[..|s| - 1] else s
  }

  /** propertyToString: `[group.]name` then the parameters, `:` and the values. */
  function PropertyToString(p: Property): string
  {
    var params := DropTrailingSemicolon(ParametersText(p.parameters));
    var vals := DropTrailingSemicolon(ValuesText(p.values));
    (if p.group == "" then "" else p.group + ".") + p.name + params + ":" + vals
  }

  /** The structured part of dateToString; "" stands for the buffer the source
      leaves uninitialised when date and time are both empty. */
  function StructuredText(d: DateTime): string
  {
    if d.date != "" && d.time != "" then d.date + "T" + d.time
    else if d.date != "" then d.date
    else if d.time != "" then "T" + d.time
    else ""
  }

  /** dateToString: the free text verbatim (no `Z`), or the structured text and `Z` when UTC. */
  function DateToString(d: DateTime): string
  {
    if d.isText then d.text
    else StructuredText(d) + (if d.utc then "Z" else "")
  }

  /** compareParameters */
  predicate CompareParameters(a: Parameter, b: Parameter)
  {
    a.name == b.name && a.value == b.value
  }

  /** compareValues */
  predicate CompareValues(a: string, b: string)
  {
    a == b
  }

  /** compareProperties: name, group and only the NUMBER of parameters and values. */
  predicate CompareProperties(a: Property, b: Property)
  {
    a.name == b.name && a.group == b.group
    && |a.parameters| == |b.parameters| && |a.values| == |b.values|
  }

  /** compareDates: all five fields. */
  predicate CompareDates(a: DateTime, b: DateTime)
  {
    a.utc == b.utc && a.isText == b.isText
    && a.date == b.date && a.time == b.time && a.text == b.text
  }

  /** Rendering a non-empty value list and cutting its last `;` gives the values joined by `;`. */
  lemma {:induction false} ValuesTextJoin(vs: seq<string>)
    ensures |vs| > 0 ==> ValuesText(vs) == Join(vs) + ";"
    ensures DropTrailingSemicolon(ValuesText(vs)) == Join(vs)
  {
    if |vs| == 1 {
      assert ValuesText(vs[1..]) == "";
    } else if |vs| > 1 {
      ValuesTextJoin(vs[1..]);
      assert ValuesText(vs) == vs[0] + ";" + (Join(vs[1..]) + ";");
    }
    if |vs| > 0 {
      var t := ValuesText(vs);
      assert t[..|t| - 1] == Join(vs);
    }
  }

  /** parameterToString's text after its `;`, cut at its first `=`, gives
      back the name and the value. */
  lemma {:induction false} ParameterToStringSplits(p: Parameter)
    requires '=' !in p.name
    ensures var t := ParameterToString(p);
      && |t| == |p.name| + |p.value| + 2 && t[0] == ';'
      && Find(t[1..], '=') == |p.name| && t[1..|p.name| + 1] == p.name && t[|p.name| + 2..] == p.value
  {
    var t := ParameterToString(p);
    assert t[1..] == p.name + ("=" + p.value);
    FindAppend(p.name, "=" + p.value, '=');
  }

  /** valueToString's `;` ends the text and is its first `;` when the value holds none. */
  lemma {:induction false} ValueToStringSplits(v: string)
    requires ';' !in v
    ensures var t := ValueToString(v);
      Find(t, ';') == |v| == |t| - 1 && t[..|v|] == v
  {
    FindAppend(v, ";", ';');
  }

  /** The parameter list's text holds one `;` per parameter when no name or
      value holds one. */
  lemma {:induction false} ParametersTextSemicolons(ps: seq<Parameter>)
    requires forall i :: 0 <= i < |ps| ==> ';' !in ps[i].name && ';' !in ps[i].value
    ensures multiset(ParametersText(ps))[';'] == |ps|
  {
    if |ps| > 0 {
      ParametersTextSemicolons(ps[1..]);
      var p := ps[0];
      assert ParametersText(ps) == ";" + p.name + "=" + p.value + ParametersText(ps[1..]);
      assert multiset(p.name)[';'] == 0 && multiset(p.value)[';'] == 0;
    }
  }

  /** The value list's text holds one `;` per value when no value holds one. */
  lemma {:induction false} ValuesTextSemicolons(vs: seq<string>)
    requires forall i :: 0 <= i < |vs| ==> ';' !in vs[i]
    ensures multiset(ValuesText(vs))[';'] == |vs|
  {
    if |vs| > 0 {
      ValuesTextSemicolons(vs[1..]);
      assert ValuesText(vs) == vs[0] + ";" + ValuesText(vs[1..]);
      assert multiset(vs[0])[';'] == 0;
    }
  }

  /** No `:` in any parameter, none in the parameter list's text. */
  lemma {:induction false} ParametersTextColonFree(ps: seq<Parameter>)
    requires forall i :: 0 <= i < |ps| ==> ':' !in ps[i].name && ':' !in ps[i].value
    ensures ':' !in ParametersText(ps)
  {
    if |ps| > 0 {
      ParametersTextColonFree(ps[1..]);
      assert ParametersText(ps) == ";" + ps[0].name + "=" + ps[0].value + ParametersText(ps[1..]);
    }
  }

  /** When no `:` stands in the group, the name or a parameter, the values
      propertyToString prints are exactly what follows its first `:`. */
  lemma {:induction false} PropertyToStringValues(p: Property)
    requires ':' !in p.group && ':' !in p.name
    requires forall i :: 0 <= i < |p.parameters| ==> ':' !in p.parameters[i].name && ':' !in p.parameters[i].value
    ensures var t := PropertyToString(p);
      Find(t, ':') < |t| && t[Find(t, ':') + 1..] == DropTrailingSemicolon(ValuesText(p.values))
  {
    var text := ParametersText(p.parameters);
    ParametersTextColonFree(p.parameters);
    var params := DropTrailingSemicolon(text);
    assert params == text[..|params|];
    assert ':' !in params;
    var head := (if p.group == "" then "" else p.group + ".") + p.name + params;
    var vals := DropTrailingSemicolon(ValuesText(p.values));
    assert PropertyToString(p) == head + (":" + vals);
    FindAppend(head, ":" + vals, ':');
  }

  /** In a structured date with a time and no `T` in its date part,
      dateToString puts the date before its first `T` and the time, with `Z`
      when UTC, after it. */
  lemma {:induction false} DateToStringParts(d: DateTime)
    requires !d.isText && 'T' !in d.date && d.time != ""
    ensures var t := DateToString(d);
      && Find(t, 'T') == |d.date| && t[..|d.date|] == d.date
      && t[|d.date| + 1..] == d.time + (if d.utc then "Z" else "")
  {
    var zone := if d.utc then "Z" else "";
    var rest := "T" + (d.time + zone);
    if d.date != "" {
      assert StructuredText(d) == d.date + "T" + d.time;
    } else {
      assert StructuredText(d) == "T" + d.time;
    }
    assert DateToString(d) == d.date + rest;
    FindAppend(d.date, rest, 'T');
    assert Find(rest, 'T') == 0;
    var t := d.date + rest;
    assert t[..|d.date|] == d.date;
    assert t[|d.date| + 1..] == rest[1..];
  }

  /** compareDates is exactly structural equality of DateTime values. */
  lemma {:induction false} CompareDatesIsEquality(a: DateTime, b: DateTime)
    ensures CompareDates(a, b) <==> a == b
  {
  }

  /** compareParameters is exactly structural equality of Parameter values. */
  lemma {:induction false} CompareParametersIsEquality(a: Parameter, b: Parameter)
    ensures CompareParameters(a, b) <==> a == b
  {
  }

  /** compareProperties is implied by equality and is an equivalence relation. */
  lemma {:induction false} ComparePropertiesEquivalence(a: Property, b: Property, c: Property)
    ensures a == b ==> CompareProperties(a, b)
    ensures CompareProperties(a, b) ==> CompareProperties(b, a)
    ensures CompareProperties(a, b) && CompareProperties(b, c) ==> CompareProperties(a, c)
  {
  }

  /** compareProperties does not look at the contents of parameters or values:
      two properties that differ only in a value compare equal. */
  lemma {:induction false} ComparePropertiesIgnoresContents(p: Property, i: nat, v: string)
    requires i < |p.values| && p.values[i] != v
    ensures CompareProperties(p, p.(values := p.values[i := v]))
    ensures p != p.(values := p.values[i := v])
  {
    assert p.(values := p.values[i := v]).values[i] == v;
  }
}
