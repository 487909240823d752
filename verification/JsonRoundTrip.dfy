/** Parsing undoes printing: the vehicle reads back exactly the document the
    cloud printed, with keys in order and undefined fields gone. */
module JsonRoundTrip {
  import opened Wrappers
  import opened SortedEntries
  import opened JsonText

  // ------------------------------------------------------------------
  // Well-formed values and their canonical form
  // ------------------------------------------------------------------

  /** `undefined` only as an object field, and no key twice in one object. */
  predicate WellFormed(v: Json) {
    match v
    case Undefined => false
    case Arr(items) => forall i :: 0 <= i < |items| ==> WellFormed(items[i])
    case Obj(fields) =>
      && DistinctKeys(fields)
      && forall i :: 0 <= i < |fields| ==> fields[i].value.Undefined? || WellFormed(fields[i].value)
    case _ => true
  }

  predicate AllWellFormed(items: seq<Json>) {
    forall i :: 0 <= i < |items| ==> WellFormed(items[i])
  }

  predicate Members(fields: seq<Entry<Json>>) {
    forall i :: 0 <= i < |fields| ==> fields[i].value.Undefined? || WellFormed(fields[i].value)
  }

  /** Keys sorted and undefined fields dropped, at every depth. */
  function Canon(v: Json): Json
    decreases v, 1
  {
    match v
    case Arr(items) => Arr(CanonItems(items))
    case Obj(fields) => Obj(SortByKey(CanonFields(fields)))
    case _ => v
  }

  function CanonItems(items: seq<Json>): seq<Json>
    decreases items, 0
  {
    if items == [] then [] else [Canon(items[0])] + CanonItems(items[1..])
  }

  function CanonFields(fields: seq<Entry<Json>>): seq<Entry<Json>>
    decreases fields, 0
  {
    if fields == [] then []
    else
      var rest := CanonFields(fields[1..]);
      if fields[0].value.Undefined? then rest
      else [Entry(fields[0].key, Canon(fields[0].value))] + rest
  }

  /** A kept field is a defined one, canonicalised ... */
  lemma {:induction false} KeptWitness(fields: seq<Entry<Json>>, e: Entry<Json>) returns (i: nat)
    requires e in CanonFields(fields)
    ensures i < |fields| && !fields[i].value.Undefined? && e == Entry(fields[i].key, Canon(fields[i].value))
  {
    if e in CanonFields(fields[1..]) {
      var j := KeptWitness(fields[1..], e);
      i := j + 1;
    } else {
      i := 0;
    }
  }

  /** ... and every defined field is kept. */
  lemma {:induction false} KeptIn(fields: seq<Entry<Json>>, i: nat)
    requires i < |fields| && !fields[i].value.Undefined?
    ensures Entry(fields[i].key, Canon(fields[i].value)) in CanonFields(fields)
  {
    if i > 0 { KeptIn(fields[1..], i - 1); }
  }

  lemma {:induction false} CanonFieldsDistinct(fields: seq<Entry<Json>>)
    requires DistinctKeys(fields)
    ensures DistinctKeys(CanonFields(fields))
  {
    if fields != [] {
      var tail := fields[1..];
      assert forall i, j :: 0 <= i < j < |tail| ==> tail[i] == fields[i + 1] && tail[j] == fields[j + 1];
      CanonFieldsDistinct(tail);
      if !fields[0].value.Undefined? {
        var rest := CanonFields(tail);
        var cf := CanonFields(fields);
        forall i, j | 0 <= i < j < |cf| ensures cf[i].key != cf[j].key {
          assert cf[j] == rest[j - 1] && rest[j - 1] in rest;
          if i > 0 {
            assert cf[i] == rest[i - 1];
          } else {
            var m := KeptWitness(tail, rest[j - 1]);
            assert tail[m] == fields[m + 1];
          }
        }
      }
    }
  }

  // ------------------------------------------------------------------
  // Strings and numbers
  // ------------------------------------------------------------------

  lemma HexDigitValue(d: nat)
    requires d < 16
    ensures HexValue(HEX_DIGITS[d]) == Some(d)
  {
  }

  lemma ParseCharEscape(c: char, rest: string)
    ensures ParseChar(EscapeChar(c) + rest) == Ok(c, rest)
    ensures EscapeChar(c) != [] && EscapeChar(c)[0] != '"'
  {
    var e := EscapeChar(c);
    var text := e + rest;
    if |e| == 1 {
      assert text[1..] == rest;
    } else if |e| == 2 {
      assert text[2..] == rest;
    } else {
      HexDigitValue(c as int / 16);
      HexDigitValue(c as int % 16);
      HexDigitValue(0);
      assert text[2..6] == e[2..];
      assert text[6..] == rest;
      assert HexCode(text[2..6]) == Some(c as int);
    }
  }

  lemma {:induction false} ParseStringEscape(s: string, rest: string)
    ensures ParseString(Escape(s) + ['"'] + rest) == Ok(s, rest)
  {
    if s == [] {
      assert (Escape(s) + ['"'] + rest)[1..] == rest;
    } else {
      var tail := Escape(s[1..]) + ['"'] + rest;
      assert Escape(s) + ['"'] + rest == EscapeChar(s[0]) + tail;
      ParseCharEscape(s[0], tail);
      ParseStringEscape(s[1..], rest);
      CharStep(EscapeChar(s[0]), s[0], tail, s[1..], rest);
      assert s == [s[0]] + s[1..];
    }
  }

  lemma CharStep(e: string, c: char, tail: string, more: string, rest: string)
    requires e != [] && e[0] != '"' && ParseChar(e + tail) == Ok(c, tail) && ParseString(tail) == Ok(more, rest)
    ensures ParseString(e + tail) == Ok([c] + more, rest)
  {
  }

  lemma {:induction false} NatTextDigits(n: nat)
    ensures NatText(n) != []
    ensures forall i :: 0 <= i < |NatText(n)| ==> IsDigit(NatText(n)[i])
    ensures NatText(n)[0] == '0' ==> |NatText(n)| == 1
    ensures NatText(n)[0] == '0' <==> n == 0
    ensures DigitsValue(NatText(n)) == n
  {
    NatTextShape(n);
    NatTextValue(n);
  }

  lemma {:induction false} NatTextShape(n: nat)
    ensures NatText(n) != []
    ensures forall i :: 0 <= i < |NatText(n)| ==> IsDigit(NatText(n)[i])
    ensures NatText(n)[0] == '0' <==> n == 0
    ensures n == 0 ==> |NatText(n)| == 1
  {
    if n >= 10 { NatTextShape(n / 10); }
  }

  lemma {:induction false} NatTextValue(n: nat)
    ensures (forall i :: 0 <= i < |NatText(n)| ==> IsDigit(NatText(n)[i])) && DigitsValue(NatText(n)) == n
  {
    NatTextShape(n);
    if n < 10 {
      assert DigitsValue(NatText(n)[..0]) == 0;
    } else {
      NatTextValue(n / 10);
      assert NatText(n)[..|NatText(n)| - 1] == NatText(n / 10);
    }
  }

  /** What may follow a printed value. */
  predicate Delimited(rest: string) {
    rest == [] || rest[0] in {',', ']', '}'}
  }

  lemma {:induction false} CountDigitsExact(s: string, rest: string)
    requires forall i :: 0 <= i < |s| ==> IsDigit(s[i])
    requires Delimited(rest)
    ensures CountDigits(s + rest) == |s|
  {
    if s == [] {
      assert s + rest == rest;
    } else {
      assert (s + rest)[1..] == s[1..] + rest;
      CountDigitsExact(s[1..], rest);
    }
  }

  lemma ParseNatText(n: nat, rest: string)
    requires Delimited(rest)
    ensures ParseNat(NatText(n) + rest) == Ok(n, rest)
  {
    NatTextDigits(n);
    CountDigitsExact(NatText(n), rest);
    var text := NatText(n) + rest;
    assert text[..|NatText(n)|] == NatText(n) && text[|NatText(n)|..] == rest;
  }

  lemma ParseNumText(n: int, rest: string)
    requires Delimited(rest)
    ensures ParseNum(NumText(n) + rest) == Ok(n, rest)
  {
    var m := if n < 0 then -n else n;
    NatTextShape(m);
    ParseNatText(m, rest);
    ParseSigned(n < 0, NatText(m), m, rest);
  }

  lemma ParseSigned(minus: bool, digits: string, m: int, rest: string)
    requires digits != [] && IsDigit(digits[0]) && 0 <= m && ParseNat(digits + rest) == Ok(m, rest) && (minus ==> m > 0)
    ensures var text := (if minus then ['-'] + digits else digits) + rest;
            var n := if minus then -m else m;
            ParseNum(text) == Ok(n, rest)
  {
    assert (['-'] + digits + rest)[1..] == digits + rest;
  }

  lemma NumTextStart(n: int)
    ensures NumText(n) != [] && (if n < 0 then NumText(n)[0] == '-' else IsDigit(NumText(n)[0]))
  {
    if n >= 0 { NatTextDigits(n); }
  }

  // ------------------------------------------------------------------
  // Values
  // ------------------------------------------------------------------

  lemma FirstChar(v: Json)
    requires WellFormed(v)
    ensures Stringify(v) != [] && !IsSpace(Stringify(v)[0]) && Stringify(v)[0] !in {']', '}'}
  {
    if v.Num? { NumTextStart(v.n); }
  }

  // ParseValue on a text whose first character is known.

  lemma ValueOfString(t: string, s: string, rest: string)
    requires ParseString(t) == Ok(s, rest)
    ensures ParseValue(['"'] + t) == Ok(Str(s), rest)
  {
  }

  lemma ValueOfItems(t: string, items: seq<Json>, rest: string)
    requires t != [] && !IsSpace(t[0]) && t[0] != ']' && ParseItems(t) == Ok(items, rest)
    ensures ParseValue(['['] + t) == Ok(Arr(items), rest)
  {
  }

  lemma ValueOfMembers(t: string, fields: seq<Entry<Json>>, rest: string)
    requires t != [] && !IsSpace(t[0]) && t[0] != '}' && ParseMembers(t) == Ok(fields, rest)
    ensures ParseValue(['{'] + t) == Ok(Obj(BuildMap(fields)), rest)
  {
  }

  lemma ValueOfEmpty(rest: string)
    ensures ParseValue(['[', ']'] + rest) == Ok(Arr([]), rest)
    ensures ParseValue(['{', '}'] + rest) == Ok(Obj([]), rest)
  {
  }

  lemma ValueOfScalar(v: Json, rest: string)
    requires v.Null? || v.Bool? || v.Num?
    requires Delimited(rest)
    ensures ParseValue(Stringify(v) + rest) == Ok(v, rest)
  {
    if v.Num? {
      ValueOfNum(v.n, rest);
    } else {
      assert (Stringify(v) + rest)[|Stringify(v)|..] == rest;
    }
  }

  lemma ValueOfNum(n: int, rest: string)
    requires Delimited(rest)
    ensures ParseValue(NumText(n) + rest) == Ok(Num(n), rest)
  {
    NumTextStart(n);
    ParseNumText(n, rest);
    NumberDispatch(NumText(n) + rest);
  }

  lemma NumberDispatch(text: string)
    requires text != [] && (text[0] == '-' || IsDigit(text[0])) && ParseNum(text).Ok?
    ensures ParseValue(text) == Ok(Num(ParseNum(text).value), ParseNum(text).rest)
  {
  }

  lemma ParseQuoted(s: string, rest: string)
    ensures ParseValue(Quote(s) + rest) == Ok(Str(s), rest)
  {
    ParseStringEscape(s, rest);
    ValueOfString(Escape(s) + ['"'] + rest, s, rest);
    assert Quote(s) + rest == ['"'] + (Escape(s) + ['"'] + rest);
  }

  /** Printing then parsing, in any context a printed value can stand in. */
  lemma {:induction false} ParseStringify(v: Json, rest: string)
    requires WellFormed(v) && Delimited(rest)
    ensures ParseValue(Stringify(v) + rest) == Ok(Canon(v), rest)
    decreases v, 1
  {
    match v
    case Str(s) => ParseQuoted(s, rest);
    case Arr(items) => ParseArray(items, rest);
    case Obj(fields) => ParseObject(fields, rest);
    case _ => ValueOfScalar(v, rest);
  }

  lemma {:induction false} ParseArray(items: seq<Json>, rest: string)
    requires AllWellFormed(items) && Delimited(rest)
    ensures ParseValue(Stringify(Arr(items)) + rest) == Ok(Arr(CanonItems(items)), rest)
    decreases items, 1
  {
    var t := Join(ItemTexts(items)) + [']'] + rest;
    assert Stringify(Arr(items)) + rest == ['['] + t;
    if items == [] {
      ValueOfEmpty(rest);
      assert ['['] + t == ['[', ']'] + rest;
    } else {
      FirstChar(items[0]);
      ItemsSplit(items, rest);
      ParseItemTexts(items, rest);
      ValueOfItems(t, CanonItems(items), rest);
    }
  }

  lemma {:induction false} ParseObject(fields: seq<Entry<Json>>, rest: string)
    requires WellFormed(Obj(fields)) && Delimited(rest)
    ensures ParseValue(Stringify(Obj(fields)) + rest) == Ok(Canon(Obj(fields)), rest)
    decreases fields, 1
  {
    var body := Join(MemberTexts(fields));
    var t := body + ['}'] + rest;
    BraceText(body, rest);
    NoMembers(fields);
    if MemberTexts(fields) == [] {
      ValueOfEmpty(rest);
      assert ['{'] + t == ['{', '}'] + rest;
    } else {
      CanonFieldsDistinct(fields);
      BuildMapIsSort(CanonFields(fields));
      FirstMemberChar(fields);
      ParseMemberTexts(fields, rest);
      ValueOfMembers(t, CanonFields(fields), rest);
    }
  }

  lemma BraceText(body: string, rest: string)
    ensures ['{'] + body + ['}'] + rest == ['{'] + (body + ['}'] + rest)
  {
  }

  /** What follows the first printed item of an array. */
  function ItemsTail(items: seq<Json>, rest: string): string
    requires items != []
  {
    if |items| == 1 then [']'] + rest else [','] + Join(ItemTexts(items[1..])) + [']'] + rest
  }

  lemma ItemsSplit(items: seq<Json>, rest: string)
    requires items != []
    ensures Join(ItemTexts(items)) + [']'] + rest == Stringify(items[0]) + ItemsTail(items, rest)
  {
    var more := ItemTexts(items[1..]);
    assert ItemTexts(items) == [Stringify(items[0])] + more;
    JoinMore(Stringify(items[0]), more, [']'], rest);
  }

  lemma JoinMore(piece: string, more: seq<string>, close: string, rest: string)
    ensures Join([piece] + more) + close + rest ==
            piece + (if more == [] then close + rest else [','] + Join(more) + close + rest)
  {
    assert ([piece] + more)[1..] == more;
  }

  lemma ItemsStep(v: Json, first: string, tail: string, items: seq<Json>, rest: string)
    requires ParseValue(first + tail) == Ok(v, tail)
    requires tail != [] && tail[0] == ',' && ParseItems(tail[1..]) == Ok(items, rest)
    ensures ParseItems(first + tail) == Ok([v] + items, rest)
  {
  }

  lemma LastItem(v: Json, first: string, tail: string, rest: string)
    requires tail == [']'] + rest && ParseValue(first + tail) == Ok(v, tail)
    ensures ParseItems(first + tail) == Ok([v], rest)
  {
    assert SkipSpace(tail) == tail && tail[1..] == rest;
  }

  lemma MoreItems(text: string, rest: string)
    ensures var tail := [','] + text + [']'] + rest; tail[0] == ',' && tail[1..] == text + [']'] + rest
  {
  }

  lemma {:induction false} ParseItemTexts(items: seq<Json>, rest: string)
    requires items != [] && AllWellFormed(items)
    ensures ParseItems(Join(ItemTexts(items)) + [']'] + rest) == Ok(CanonItems(items), rest)
    decreases items, 0
  {
    var tail := ItemsTail(items, rest);
    ItemsSplit(items, rest);
    ParseStringify(items[0], tail);
    if |items| == 1 {
      LastItem(Canon(items[0]), Stringify(items[0]), tail, rest);
      assert CanonItems(items) == [Canon(items[0])];
    } else {
      MoreItems(Join(ItemTexts(items[1..])), rest);
      ParseItemTexts(items[1..], rest);
      ItemsStep(Canon(items[0]), Stringify(items[0]), tail, CanonItems(items[1..]), rest);
    }
  }

  lemma {:induction false} NoMembers(fields: seq<Entry<Json>>)
    ensures MemberTexts(fields) == [] <==> CanonFields(fields) == []
  {
    if fields != [] { NoMembers(fields[1..]); }
  }

  lemma {:induction false} FirstMemberChar(fields: seq<Entry<Json>>)
    requires MemberTexts(fields) != []
    ensures Join(MemberTexts(fields)) != [] && Join(MemberTexts(fields))[0] == '"'
  {
    if fields[0].value.Undefined? { FirstMemberChar(fields[1..]); }
  }

  function MembersTail(fields: seq<Entry<Json>>, rest: string): string
    requires fields != []
  {
    if MemberTexts(fields[1..]) == [] then ['}'] + rest
    else [','] + Join(MemberTexts(fields[1..])) + ['}'] + rest
  }

  lemma MembersSplit(fields: seq<Entry<Json>>, rest: string)
    requires fields != [] && !fields[0].value.Undefined?
    ensures Join(MemberTexts(fields)) + ['}'] + rest
         == MemberText(fields[0].key, Stringify(fields[0].value) + MembersTail(fields, rest))
  {
    var more := MemberTexts(fields[1..]);
    var key, value := fields[0].key, Stringify(fields[0].value);
    var piece := Quote(key) + [':'] + value;
    assert MemberTexts(fields) == [piece] + more;
    var tail := MembersTail(fields, rest);
    JoinMore(piece, more, ['}'], rest);
    AssocPiece(['"'], Escape(key), [':'], value, tail);
  }

  lemma AssocPiece(q: string, e: string, c: string, v: string, t: string)
    ensures ((q + e + q) + c + v) + t == q + (e + q + (c + (v + t)))
  {
  }

  /** A printed member: quoted key, colon, then `value`. */
  function MemberText(key: string, value: string): string {
    ['"'] + (Escape(key) + ['"'] + ([':'] + value))
  }

  /** Parsing one member whose value is followed by a comma or the closing brace. */
  lemma MemberStep(key: string, v: Json, value: string, tail: string, more: seq<Entry<Json>>, rest: string)
    requires ParseValue(value) == Ok(v, tail) && tail != []
    requires tail[0] == ',' ==> ParseMembers(tail[1..]) == Ok(more, rest)
    requires tail[0] != ',' ==> tail[0] == '}' && tail[1..] == rest && more == []
    ensures ParseMembers(MemberText(key, value)) == Ok([Entry(key, v)] + more, rest)
  {
    var text := MemberText(key, value);
    var afterKey := [':'] + value;
    assert text[1..] == Escape(key) + ['"'] + afterKey;
    ParseStringEscape(key, afterKey);
    assert SkipSpace(text) == text && SkipSpace(afterKey) == afterKey && SkipSpace(tail) == tail;
    assert afterKey[1..] == value;
    if tail[0] != ',' { assert [Entry(key, v)] + more == [Entry(key, v)]; }
  }

  lemma MembersTailShape(fields: seq<Entry<Json>>, rest: string)
    requires fields != []
    ensures var more, tail := MemberTexts(fields[1..]), MembersTail(fields, rest);
            && tail != []
            && if more == [] then tail[0] == '}' && tail[1..] == rest
               else tail[0] == ',' && tail[1..] == Join(more) + ['}'] + rest
  {
  }

  lemma {:induction false} ParseMemberTexts(fields: seq<Entry<Json>>, rest: string)
    requires Members(fields) && MemberTexts(fields) != []
    ensures ParseMembers(Join(MemberTexts(fields)) + ['}'] + rest) == Ok(CanonFields(fields), rest)
    decreases fields, 0
  {
    if fields[0].value.Undefined? {
      ParseMemberTexts(fields[1..], rest);
    } else {
      var tail := MembersTail(fields, rest);
      MembersSplit(fields, rest);
      ParseStringify(fields[0].value, tail);
      NoMembers(fields[1..]);
      MembersTailShape(fields, rest);
      if MemberTexts(fields[1..]) != [] { ParseMemberTexts(fields[1..], rest); }
      MemberStep(fields[0].key, Canon(fields[0].value), Stringify(fields[0].value) + tail, tail,
                 CanonFields(fields[1..]), rest);
    }
  }

  /** The wire round trip: parsing the printed document gives its canonical form. */
  lemma WireRoundTrip(v: Json)
    requires WellFormed(v)
    ensures ParseJson(Stringify(v)) == Some(Canon(v))
  {
    ParseStringify(v, []);
    assert Stringify(v) + [] == Stringify(v);
  }
}
