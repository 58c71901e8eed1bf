/** Shared data model of the vCard engine: the result codes, the value
    entities a card is made of (Parameter, Property, DateTime), a snapshot
    of a whole card, and the few C string primitives the engine is written
    with (strchr, strncmp against a literal, strstr). Strings are seq<char>
    and are assumed free of NUL characters, as C strings are. */
module VCardTypes {

  /** VCardErrorCode. */
  datatype ErrorCode = Ok | InvFile | InvCard | InvProp | InvDt | WriteError | OtherError

  /** A reference that may be NULL in the source. */
  datatype Option<T> = None | Some(value: T)

  /** An error code together with what the call filled in when it is OK. */
  datatype Result<T> = Success(value: T) | Failure(error: ErrorCode)

  /** `name=value` modifier of a property. */
  datatype Parameter = Parameter(name: string, value: string)

  /** `[group.]name[;parameters]:values`; the two lists are the source's linked lists. */
  datatype Property = Property(group: string, name: string, parameters: seq<Parameter>, values: seq<string>)

  /** BDAY / ANNIVERSARY value: structured (date, time) or free text. */
  datatype DateTime = DateTime(utc: bool, isText: bool, date: string, time: string, text: string)

  /** The fields of a Card; `fn`, `birthday` and `anniversary` may be NULL. */
  datatype CardValue = CardValue(
    fn: Option<Property>,
    optionalProperties: seq<Property>,
    birthday: Option<DateTime>,
    anniversary: Option<DateTime>)

  /** Card: the fields createCard, validateFileCard and updateName assign in place. */
  class Card {
    var fn: Option<Property>
    var optionalProperties: seq<Property>
    var birthday: Option<DateTime>
    var anniversary: Option<DateTime>

    /** The card's fields as one value. */
    function Value(): CardValue
      reads this
    {
      CardValue(fn, optionalProperties, birthday, anniversary)
    }

    /** createCard's initialisation: no FN, an empty property list, no dates. */
    constructor()
      ensures Value() == CardValue(None, [], None, None)
    {
      fn := None;
      optionalProperties := [];
      birthday := None;
      anniversary := None;
    }
  }

  predicate IsBlank(c: char) { c == ' ' || c == '\t' }

  predicate IsDigit(c: char) { '0' <= c <= '9' }

  /** strchr: the index of the first `c` in `s`, or |s| when there is none. */
  function Find(s: string, c: char): (k: nat)
    ensures k <= |s|
    ensures forall i :: 0 <= i < k ==> s[i] != c
    ensures k < |s| ==> s[k] == c
  {
    if |s| == 0 then 0
    else if s[0] == c then 0
    else 1 + Find(s[1..], c)
  }

  /** strncmp(s, prefix, |prefix|) == 0 */
  predicate StartsWith(s: string, prefix: string) {
    |prefix| <= |s| && s[..|prefix|] == prefix
  }

  /** strncmp(s + |s| - |suffix|, suffix, |suffix|) == 0 */
  predicate EndsWith(s: string, suffix: string) {
    |suffix| <= |s| && s[|s| - |suffix|..] == suffix
  }

  /** strstr(s, pattern) != NULL */
  predicate Contains(s: string, pattern: string)
    decreases |s|
  {
    StartsWith(s, pattern) || (|s| > 0 && Contains(s[1..], pattern))
  }

  /** Find is k when c is first met at k, or not at all before the end. */
  lemma {:induction false} FindSplit(s: string, c: char, k: nat)
    requires k <= |s| && c !in s[..k]
    requires k < |s| ==> s[k] == c
    ensures Find(s, c) == k
  {
  }

  /** Find skips a prefix that lacks c. */
  lemma {:induction false} FindAppend(a: string, b: string, c: char)
    requires c !in a
    ensures Find(a + b, c) == |a| + Find(b, c)
  {
    var k := |a| + Find(b, c);
    assert (a + b)[..k] == a + b[..Find(b, c)];
    assert c !in b[..Find(b, c)];
    FindSplit(a + b, c, k);
  }

  /** A text that contains a pattern still does after more is appended. */
  lemma {:induction false} ContainsPrefix(s: string, t: string, pattern: string)
    requires Contains(s, pattern)
    ensures Contains(s + t, pattern)
    decreases |s|
  {
    if StartsWith(s, pattern) {
      assert (s + t)[..|pattern|] == s[..|pattern|];
    } else {
      assert (s + t)[1..] == s[1..] + t;
      ContainsPrefix(s[1..], t, pattern);
    }
  }

  /** The values rejoined with `;`, the separator the value list is split on. */
  function Join(values: seq<string>): string
  {
    if |values| == 0 then ""
    else if |values| == 1 then values[0]
    else values[0] + ";" + Join(values[1..])
  }
}
