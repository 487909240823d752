/** JSON values as the cloud holds them (with `undefined` object fields, keys in
    insertion order), the compact printer both sides use, and the vehicle's
    parser (RFC 8259).  Numbers are integers. */
module JsonText {
  import opened Wrappers
  import opened SortedEntries

  datatype Json =
    | Undefined
    | Null
    | Bool(b: bool)
    | Num(n: int)
    | Str(s: string)
    | Arr(items: seq<Json>)
    | Obj(fields: seq<Entry<Json>>)

  // ------------------------------------------------------------------
  // Printing
  // ------------------------------------------------------------------

  const HEX_DIGITS := "0123456789abcdef"

  /** Section 7 of RFC 8259: quote, backslash and the control characters. */
  function EscapeChar(c: char): string {
    if c == '"' then ['\\', '"']
    else if c == '\\' then ['\\', '\\']
    else if c == 8 as char then ['\\', 'b']
    else if c == 9 as char then ['\\', 't']
    else if c == 10 as char then ['\\', 'n']
    else if c == 12 as char then ['\\', 'f']
    else if c == 13 as char then ['\\', 'r']
    else if c as int < 32 then ['\\', 'u', '0', '0', HEX_DIGITS[c as int / 16], HEX_DIGITS[c as int % 16]]
    else [c]
  }

  function Escape(s: string): string {
    if s == [] then [] else EscapeChar(s[0]) + Escape(s[1..])
  }

  function Quote(s: string): string {
    ['"'] + Escape(s) + ['"']
  }

  function DigitChar(d: nat): char
    requires d < 10
  {
    HEX_DIGITS[d]
  }

  function NatText(n: nat): string {
    if n < 10 then [DigitChar(n)] else NatText(n / 10) + [DigitChar(n % 10)]
  }

  function NumText(n: int): string {
    if n < 0 then ['-'] + NatText(-n) else NatText(n)
  }

  function Join(pieces: seq<string>): string {
    if |pieces| == 0 then []
    else if |pieces| == 1 then pieces[0]
    else pieces[0] + [','] + Join(pieces[1..])
  }

  /** JSON.stringify and serde_json::to_string: compact, fields in the order the
      value holds them, undefined fields dropped. */
  function Stringify(v: Json): string
    decreases v, 1
  {
    match v
    case Undefined => []
    case Null => "null"
    case Bool(b) => if b then "true" else "false"
    case Num(n) => NumText(n)
    case Str(s) => Quote(s)
    case Arr(items) => ['['] + Join(ItemTexts(items)) + [']']
    case Obj(fields) => ['{'] + Join(MemberTexts(fields)) + ['}']
  }

  function ItemTexts(items: seq<Json>): seq<string>
    decreases items, 0
  {
    if items == [] then [] else [Stringify(items[0])] + ItemTexts(items[1..])
  }

  function MemberTexts(fields: seq<Entry<Json>>): seq<string>
    decreases fields, 0
  {
    if fields == [] then []
    else
      var rest := MemberTexts(fields[1..]);
      if fields[0].value.Undefined? then rest
      else [Quote(fields[0].key) + [':'] + Stringify(fields[0].value)] + rest
  }

  // ------------------------------------------------------------------
  // Parsing
  // ------------------------------------------------------------------

  datatype Parsed<+T> = Failed | Ok(value: T, rest: string)

  predicate IsSpace(c: char) { c == ' ' || c == 9 as char || c == 10 as char || c == 13 as char }
  predicate IsDigit(c: char) { '0' <= c <= '9' }

  function SkipSpace(s: string): (r: string)
    ensures |r| <= |s|
  {
    if s != [] && IsSpace(s[0]) then SkipSpace(s[1..]) else s
  }

  function HexValue(c: char): Option<nat> {
    if '0' <= c <= '9' then Some(c as int - '0' as int)
    else if 'a' <= c <= 'f' then Some(c as int - 'a' as int + 10)
    else if 'A' <= c <= 'F' then Some(c as int - 'A' as int + 10)
    else None
  }

  function HexCode(s: string): Option<nat>
    requires |s| >= 4
  {
    var a, b, c, d := HexValue(s[0]), HexValue(s[1]), HexValue(s[2]), HexValue(s[3]);
    if a.Some? && b.Some? && c.Some? && d.Some?
    then Some(((a.value * 16 + b.value) * 16 + c.value) * 16 + d.value)
    else None
  }

  /** One possibly escaped character.  Surrogate escapes, which the cloud's printer emits
      for lone surrogates, are not modelled: texts are sequences of whole characters. */
  function ParseChar(s: string): (p: Parsed<char>)
    ensures p.Ok? ==> |p.rest| < |s|
  {
    if s == [] || s[0] as int < 32 || s[0] == '"' then Failed
    else if s[0] != '\\' then Ok(s[0], s[1..])
    else if |s| < 2 then Failed
    else if s[1] == '"' || s[1] == '\\' || s[1] == '/' then Ok(s[1], s[2..])
    else if s[1] == 'b' then Ok(8 as char, s[2..])
    else if s[1] == 't' then Ok(9 as char, s[2..])
    else if s[1] == 'n' then Ok(10 as char, s[2..])
    else if s[1] == 'f' then Ok(12 as char, s[2..])
    else if s[1] == 'r' then Ok(13 as char, s[2..])
    else if s[1] == 'u' && |s| >= 6 then
      var code := HexCode(s[2..6]);
      if code.Some? && code.value < 0xD800 then Ok(code.value as char, s[6..]) else
      if code.Some? && 0xE000 <= code.value < 0x10000 then Ok(code.value as char, s[6..]) else Failed
    else Failed
  }

  /** The body of a string up to and including the closing quote. */
  function ParseString(s: string): (p: Parsed<string>)
    ensures p.Ok? ==> |p.rest| < |s|
  {
    if s == [] then Failed
    else if s[0] == '"' then Ok([], s[1..])
    else
      var c := ParseChar(s);
      if c.Failed? then Failed
      else
        var more := ParseString(c.rest);
        if more.Failed? then Failed else Ok([c.value] + more.value, more.rest)
  }

  function CountDigits(s: string): (k: nat)
    ensures k <= |s|
  {
    if s != [] && IsDigit(s[0]) then 1 + CountDigits(s[1..]) else 0
  }

  function DigitsValue(s: string): nat
    requires forall i :: 0 <= i < |s| ==> IsDigit(s[i])
  {
    if s == [] then 0
    else
      assert IsDigit(s[|s| - 1]);
      DigitsValue(s[..|s| - 1]) * 10 + (s[|s| - 1] as int - '0' as int)
  }

  lemma CountDigitsAreDigits(s: string)
    ensures forall i :: 0 <= i < CountDigits(s) ==> IsDigit(s[i])
  {
  }

  /** Digits without a leading zero; fractions and exponents are refused. */
  function ParseNat(s: string): (p: Parsed<int>)
    ensures p.Ok? ==> |p.rest| < |s| && p.value >= 0
  {
    var k := CountDigits(s);
    CountDigitsAreDigits(s);
    if k == 0 || (k > 1 && s[0] == '0') || (k < |s| && s[k] in {'.', 'e', 'E'}) then Failed
    else Ok(DigitsValue(s[..k]), s[k..])
  }

  function ParseNum(s: string): (p: Parsed<int>)
    ensures p.Ok? ==> |p.rest| < |s|
  {
    if s != [] && s[0] == '-' then
      var p := ParseNat(s[1..]);
      if p.Failed? || p.value == 0 then Failed else Ok(-p.value, p.rest)
    else
      ParseNat(s)
  }

  function ParseWord(word: string, v: Json, s: string): (p: Parsed<Json>)
    requires word != []
    ensures p.Ok? ==> |p.rest| < |s|
  {
    if word <= s then Ok(v, s[|word|..]) else Failed
  }

  /** One value.  An object is an ordered map: keys sorted, the last of two equal
      keys wins. */
  function ParseValue(text: string): (p: Parsed<Json>)
    ensures p.Ok? ==> |p.rest| < |text|
    decreases |text|, 0
  {
    var s := SkipSpace(text);
    if s == [] then Failed
    else if s[0] == 'n' then ParseWord("null", Null, s)
    else if s[0] == 't' then ParseWord("true", Bool(true), s)
    else if s[0] == 'f' then ParseWord("false", Bool(false), s)
    else if s[0] == '"' then
      var p := ParseString(s[1..]);
      if p.Failed? then Failed else Ok(Str(p.value), p.rest)
    else if s[0] == '[' then
      var t := SkipSpace(s[1..]);
      if t != [] && t[0] == ']' then Ok(Arr([]), t[1..])
      else
        var p := ParseItems(s[1..]);
        if p.Failed? then Failed else Ok(Arr(p.value), p.rest)
    else if s[0] == '{' then
      var t := SkipSpace(s[1..]);
      if t != [] && t[0] == '}' then Ok(Obj([]), t[1..])
      else
        var p := ParseMembers(s[1..]);
        if p.Failed? then Failed else Ok(Obj(BuildMap(p.value)), p.rest)
    else
      var p := ParseNum(s);
      if p.Failed? then Failed else Ok(Num(p.value), p.rest)
  }

  function ParseItems(text: string): (p: Parsed<seq<Json>>)
    ensures p.Ok? ==> |p.rest| < |text|
    decreases |text|, 1
  {
    var v := ParseValue(text);
    if v.Failed? then Failed
    else
      var s := SkipSpace(v.rest);
      if s == [] then Failed
      else if s[0] == ']' then Ok([v.value], s[1..])
      else if s[0] == ',' then
        var more := ParseItems(s[1..]);
        if more.Failed? then Failed else Ok([v.value] + more.value, more.rest)
      else Failed
  }

  function ParseMembers(text: string): (p: Parsed<seq<Entry<Json>>>)
    ensures p.Ok? ==> |p.rest| < |text|
    decreases |text|, 1
  {
    var s := SkipSpace(text);
    if s == [] || s[0] != '"' then Failed
    else
      var key := ParseString(s[1..]);
      if key.Failed? then Failed
      else
        var t := SkipSpace(key.rest);
        if t == [] || t[0] != ':' then Failed
        else
          var v := ParseValue(t[1..]);
          if v.Failed? then Failed
          else
            var u := SkipSpace(v.rest);
            if u == [] then Failed
            else if u[0] == '}' then Ok([Entry(key.value, v.value)], u[1..])
            else if u[0] == ',' then
              var more := ParseMembers(u[1..]);
              if more.Failed? then Failed else Ok([Entry(key.value, v.value)] + more.value, more.rest)
            else Failed
  }

  function ParseJson(text: string): Option<Json> {
    var p := ParseValue(text);
    if p.Ok? && SkipSpace(p.rest) == [] then Some(p.value) else None
  }
}
