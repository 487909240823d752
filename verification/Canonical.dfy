/** The contract's canonical JSON: what the cloud signs, and why the vehicle can
    rebuild the same bytes. */
module Canonical {
  import opened Wrappers
  import opened SortedEntries
  import opened JsonText
  import opened JsonRoundTrip

  // ------------------------------------------------------------------
  // canonicalStringify
  // ------------------------------------------------------------------

  /** UTF-16 code units, the order JavaScript compares strings in. */
  function Utf16(s: string): seq<int> {
    if s == [] then []
    else
      var c := s[0] as int;
      (if c < 0x10000 then [c]
       else [0xD800 + (c - 0x10000) / 0x400, 0xDC00 + (c - 0x10000) % 0x400]) + Utf16(s[1..])
  }

  predicate UnitsLess(a: seq<int>, b: seq<int>) {
    if |b| == 0 then false
    else if |a| == 0 then true
    else a[0] < b[0] || (a[0] == b[0] && UnitsLess(a[1..], b[1..]))
  }

  predicate JsLess(a: string, b: string) {
    UnitsLess(Utf16(a), Utf16(b))
  }

  function JsInsert<T>(e: Entry<T>, es: seq<Entry<T>>): seq<Entry<T>> {
    if es == [] then [e]
    else if JsLess(es[0].key, e.key) then [es[0]] + JsInsert(e, es[1..])
    else [e] + es
  }

  /** Array.prototype.sort by key: stable, ascending. */
  function JsSort<T>(es: seq<Entry<T>>): seq<Entry<T>> {
    if es == [] then [] else JsInsert(es[0], JsSort(es[1..]))
  }

  /** The bytes the cloud signs.  Members are rendered, filtered, sorted and
      joined; rendering before sorting changes nothing, as only keys are compared. */
  function CanonicalStringify(v: Json): string
    decreases v, 1
  {
    match v
    case Arr(items) => ['['] + Join(CanonicalItems(items)) + [']']
    case Obj(fields) => ['{'] + Join(EntryTexts(JsSort(CanonicalEntries(fields)))) + ['}']
    case _ => Stringify(v)
  }

  function CanonicalItems(items: seq<Json>): seq<string>
    decreases items, 0
  {
    if items == [] then [] else [CanonicalStringify(items[0])] + CanonicalItems(items[1..])
  }

  function CanonicalEntries(fields: seq<Entry<Json>>): seq<Entry<string>>
    decreases fields, 0
  {
    if fields == [] then []
    else
      var rest := CanonicalEntries(fields[1..]);
      if fields[0].value.Undefined? then rest
      else [Entry(fields[0].key, CanonicalStringify(fields[0].value))] + rest
  }

  function EntryTexts(es: seq<Entry<string>>): seq<string> {
    if es == [] then [] else [Quote(es[0].key) + [':'] + es[0].value] + EntryTexts(es[1..])
  }

  // ------------------------------------------------------------------
  // Signable documents
  // ------------------------------------------------------------------

  predicate Ascii(s: string) {
    forall i :: 0 <= i < |s| ==> s[i] as int < 128
  }

  predicate AsciiKeys(v: Json) {
    match v
    case Arr(items) => forall i :: 0 <= i < |items| ==> AsciiKeys(items[i])
    case Obj(fields) => forall i :: 0 <= i < |fields| ==> Ascii(fields[i].key) && AsciiKeys(fields[i].value)
    case _ => true
  }

  /** The contract's documents: every key is a fixed ASCII name. */
  predicate Document(v: Json) {
    WellFormed(v) && AsciiKeys(v)
  }

  /** Equal up to key order and undefined fields, at every depth. */
  ghost predicate SameDocument(a: Json, b: Json)
    decreases a
  {
    match a
    case Arr(xs) =>
      && b.Arr? && |xs| == |b.items|
      && forall i :: 0 <= i < |xs| ==> SameDocument(xs[i], b.items[i])
    case Obj(fs) => b.Obj? && Covered(fs, b.fields) && Covering(fs, b.fields)
    case _ => a == b
  }

  /** Every defined field on the left has its counterpart on the right ... */
  ghost predicate Covered(fs: seq<Entry<Json>>, gs: seq<Entry<Json>>)
    decreases fs
  {
    forall i :: 0 <= i < |fs| && !fs[i].value.Undefined? ==>
      exists j :: 0 <= j < |gs| && SameField(fs[i], gs[j])
  }

  /** ... and the other way round. */
  ghost predicate Covering(fs: seq<Entry<Json>>, gs: seq<Entry<Json>>)
    decreases fs
  {
    forall j :: 0 <= j < |gs| && !gs[j].value.Undefined? ==>
      exists i :: 0 <= i < |fs| && SameField(fs[i], gs[j])
  }

  ghost predicate SameField(f: Entry<Json>, g: Entry<Json>)
    decreases f
  {
    f.key == g.key && !f.value.Undefined? && !g.value.Undefined? && SameDocument(f.value, g.value)
  }

  // ------------------------------------------------------------------
  // On ASCII keys the JavaScript sort is the vehicle's key order
  // ------------------------------------------------------------------

  lemma {:induction false} JsLessAscii(a: string, b: string)
    requires Ascii(a) && Ascii(b)
    ensures JsLess(a, b) == KeyLess(a, b)
  {
    if |a| > 0 && |b| > 0 {
      assert Utf16(a)[1..] == Utf16(a[1..]) && Utf16(b)[1..] == Utf16(b[1..]);
      JsLessAscii(a[1..], b[1..]);
    }
  }

  lemma {:induction false} JsInsertAscii<T(!new)>(e: Entry<T>, es: seq<Entry<T>>)
    requires Ascii(e.key) && forall x :: x in es ==> Ascii(x.key)
    ensures JsInsert(e, es) == Insert(e, es)
  {
    if es != [] {
      assert es[0] in es;
      JsLessAscii(es[0].key, e.key);
      JsInsertAscii(e, es[1..]);
    }
  }

  lemma {:induction false} JsSortAscii<T(!new)>(es: seq<Entry<T>>)
    requires forall x :: x in es ==> Ascii(x.key)
    ensures JsSort(es) == SortByKey(es)
  {
    if es != [] {
      assert es[0] in es;
      JsSortAscii(es[1..]);
      SortByKeyCorrect(es[1..]);
      assert forall x :: x in es[1..] ==> x in es;
      JsInsertAscii(es[0], SortByKey(es[1..]));
    }
  }

  // ------------------------------------------------------------------
  // Canonical text = printed canonical form
  // ------------------------------------------------------------------

  /** Each entry's value rendered. */
  function Rendered(es: seq<Entry<Json>>): seq<Entry<string>> {
    if es == [] then [] else [Entry(es[0].key, Stringify(es[0].value))] + Rendered(es[1..])
  }

  lemma {:induction false} InsertRendered(e: Entry<Json>, es: seq<Entry<Json>>)
    ensures Insert(Entry(e.key, Stringify(e.value)), Rendered(es)) == Rendered(Insert(e, es))
  {
    var r := Entry(e.key, Stringify(e.value));
    if es != [] {
      assert Rendered(es)[1..] == Rendered(es[1..]);
      if KeyLess(es[0].key, e.key) {
        InsertRendered(e, es[1..]);
        assert Insert(e, es)[1..] == Insert(e, es[1..]);
      } else {
        assert ([e] + es)[1..] == es;
      }
    }
  }

  lemma {:induction false} SortRendered(es: seq<Entry<Json>>)
    ensures SortByKey(Rendered(es)) == Rendered(SortByKey(es))
  {
    if es != [] {
      assert Rendered(es)[1..] == Rendered(es[1..]);
      SortRendered(es[1..]);
      InsertRendered(es[0], SortByKey(es[1..]));
    }
  }

  lemma {:induction false} MemberTextsRendered(es: seq<Entry<Json>>)
    requires forall x :: x in es ==> !x.value.Undefined?
    ensures MemberTexts(es) == EntryTexts(Rendered(es))
  {
    if es != [] {
      assert es[0] in es;
      assert forall x :: x in es[1..] ==> x in es;
      MemberTextsRendered(es[1..]);
      assert Rendered(es)[1..] == Rendered(es[1..]);
    }
  }

  /** The signed bytes are the compact print of the canonical form. */
  lemma {:induction false} CanonicalIsPrint(v: Json)
    requires Document(v)
    ensures CanonicalStringify(v) == Stringify(Canon(v))
    decreases v, 1
  {
    match v
    case Arr(items) => CanonicalItemsPrint(items);
    case Obj(fields) =>
      var kept := CanonFields(fields);
      CanonicalEntriesPrint(fields);
      SortByKeyCorrect(kept);
      forall x | x in kept ensures Ascii(x.key) && !x.value.Undefined? {
        var i := KeptWitness(fields, x);
      }
      RenderedAscii(kept);
      JsSortAscii(Rendered(kept));
      SortRendered(kept);
      MemberTextsRendered(SortByKey(kept));
    case _ =>
  }

  lemma {:induction false} RenderedAscii(es: seq<Entry<Json>>)
    requires forall x :: x in es ==> Ascii(x.key)
    ensures forall x :: x in Rendered(es) ==> Ascii(x.key)
  {
    if es != [] {
      assert es[0] in es;
      assert forall x :: x in es[1..] ==> x in es;
      RenderedAscii(es[1..]);
    }
  }

  lemma {:induction false} CanonicalItemsPrint(items: seq<Json>)
    requires Document(Arr(items))
    ensures CanonicalItems(items) == ItemTexts(CanonItems(items))
    decreases items, 0
  {
    if items != [] {
      CanonicalIsPrint(items[0]);
      CanonicalItemsPrint(items[1..]);
      assert CanonItems(items)[1..] == CanonItems(items[1..]);
    }
  }

  lemma {:induction false} CanonicalEntriesPrint(fields: seq<Entry<Json>>)
    requires Members(fields) && AsciiKeys(Obj(fields))
    ensures CanonicalEntries(fields) == Rendered(CanonFields(fields))
    decreases fields, 0
  {
    if fields != [] {
      CanonicalEntriesPrint(fields[1..]);
      if !fields[0].value.Undefined? {
        CanonicalIsPrint(fields[0].value);
        assert CanonFields(fields)[1..] == CanonFields(fields[1..]);
      }
    }
  }

  // ------------------------------------------------------------------
  // The canonical form is a normal form
  // ------------------------------------------------------------------

  /** No undefined field, keys strictly sorted, at every depth: what parsing yields. */
  predicate Normal(v: Json) {
    match v
    case Undefined => false
    case Arr(items) => forall i :: 0 <= i < |items| ==> Normal(items[i])
    case Obj(fields) =>
      && StrictlySorted(fields)
      && forall i :: 0 <= i < |fields| ==> Normal(fields[i].value)
    case _ => true
  }

  lemma {:induction false} CanonNormal(v: Json)
    requires WellFormed(v)
    ensures Normal(Canon(v))
    decreases v, 1
  {
    match v
    case Arr(items) => CanonItemsNormal(items);
    case Obj(fields) =>
      CanonFieldsDistinct(fields);
      SortByKeyCorrect(CanonFields(fields));
      var sorted := SortByKey(CanonFields(fields));
      forall i | 0 <= i < |sorted| ensures Normal(sorted[i].value) {
        assert sorted[i] in sorted;
        var j := KeptWitness(fields, sorted[i]);
        CanonNormal(fields[j].value);
      }
    case _ =>
  }

  lemma {:induction false} CanonItemsNormal(items: seq<Json>)
    requires AllWellFormed(items)
    ensures |CanonItems(items)| == |items|
    ensures forall i :: 0 <= i < |items| ==> CanonItems(items)[i] == Canon(items[i]) && Normal(Canon(items[i]))
    decreases items, 0
  {
    if items != [] {
      CanonNormal(items[0]);
      CanonItemsNormal(items[1..]);
    }
  }

  lemma {:induction false} NormalIsCanon(v: Json)
    requires Normal(v)
    ensures WellFormed(v) && Canon(v) == v
    decreases v, 1
  {
    match v
    case Arr(items) => NormalItems(items);
    case Obj(fields) =>
      SortedKeysDistinct(fields);
      NormalFields(fields);
      SortedFixpoint(fields);
    case _ =>
  }

  lemma {:induction false} NormalItems(items: seq<Json>)
    requires Normal(Arr(items))
    ensures AllWellFormed(items) && CanonItems(items) == items
    decreases items, 0
  {
    if items != [] {
      NormalIsCanon(items[0]);
      NormalItems(items[1..]);
      assert items == [items[0]] + items[1..];
    }
  }

  lemma {:induction false} NormalFields(fields: seq<Entry<Json>>)
    requires forall i :: 0 <= i < |fields| ==> Normal(fields[i].value)
    ensures Members(fields) && CanonFields(fields) == fields
    decreases fields, 0
  {
    if fields != [] {
      NormalIsCanon(fields[0].value);
      NormalFields(fields[1..]);
      assert fields == [fields[0]] + fields[1..];
    }
  }

  /** Canonical printing is undone by parsing. */
  lemma ParseCanonical(v: Json)
    requires Document(v)
    ensures ParseJson(CanonicalStringify(v)) == Some(Canon(v))
  {
    CanonicalIsPrint(v);
    CanonNormal(v);
    NormalIsCanon(Canon(v));
    WireRoundTrip(Canon(v));
  }

  /** Printing is injective on values the parser can yield. */
  lemma PrintInjective(a: Json, b: Json)
    requires Normal(a) && Normal(b) && Stringify(a) == Stringify(b)
    ensures a == b
  {
    NormalIsCanon(a);
    NormalIsCanon(b);
    WireRoundTrip(a);
    WireRoundTrip(b);
  }

  // ------------------------------------------------------------------
  // Two documents print alike exactly when they are the same document
  // ------------------------------------------------------------------

  lemma {:induction false} SameCanon(a: Json, b: Json)
    requires WellFormed(a) && WellFormed(b) && SameDocument(a, b)
    ensures Canon(a) == Canon(b)
    decreases a
  {
    match a
    case Arr(xs) =>
      CanonItemsNormal(xs);
      CanonItemsNormal(b.items);
      forall i | 0 <= i < |xs| ensures Canon(xs[i]) == Canon(b.items[i]) {
        SameCanon(xs[i], b.items[i]);
      }
      assert CanonItems(xs) == CanonItems(b.items);
    case Obj(fs) =>
      var gs := b.fields;
      forall i, j | 0 <= i < |fs| && 0 <= j < |gs| && SameField(fs[i], gs[j])
        ensures Canon(fs[i].value) == Canon(gs[j].value)
      {
        SameCanon(fs[i].value, gs[j].value);
      }
      MatchedFields(fs, gs);
      SortOfDistinct(fs, gs);
    case _ =>
  }

  /** Fields that match pairwise leave the same kept entries. */
  lemma MatchedFields(fs: seq<Entry<Json>>, gs: seq<Entry<Json>>)
    requires SameDocument(Obj(fs), Obj(gs))
    requires forall i, j :: 0 <= i < |fs| && 0 <= j < |gs| && SameField(fs[i], gs[j]) ==>
               Canon(fs[i].value) == Canon(gs[j].value)
    ensures forall e :: e in CanonFields(fs) <==> e in CanonFields(gs)
  {
    forall e | e in CanonFields(fs) ensures e in CanonFields(gs) {
      var i := KeptWitness(fs, e);
      var j :| 0 <= j < |gs| && SameField(fs[i], gs[j]);
      KeptIn(gs, j);
    }
    forall e | e in CanonFields(gs) ensures e in CanonFields(fs) {
      var j := KeptWitness(gs, e);
      var i :| 0 <= i < |fs| && SameField(fs[i], gs[j]);
      KeptIn(fs, i);
    }
  }

  lemma SortOfDistinct(fs: seq<Entry<Json>>, gs: seq<Entry<Json>>)
    requires DistinctKeys(fs) && DistinctKeys(gs)
    requires forall e :: e in CanonFields(fs) <==> e in CanonFields(gs)
    ensures SortByKey(CanonFields(fs)) == SortByKey(CanonFields(gs))
  {
    CanonFieldsDistinct(fs);
    CanonFieldsDistinct(gs);
    SortByKeyCorrect(CanonFields(fs));
    SortByKeyCorrect(CanonFields(gs));
    SortedUnique(SortByKey(CanonFields(fs)), SortByKey(CanonFields(gs)));
  }

  lemma {:induction false} CanonSame(a: Json, b: Json)
    requires WellFormed(a) && WellFormed(b) && Canon(a) == Canon(b)
    ensures SameDocument(a, b)
    decreases a
  {
    match a
    case Arr(xs) =>
      CanonItemsNormal(xs);
      CanonItemsNormal(b.items);
      forall i | 0 <= i < |xs| ensures SameDocument(xs[i], b.items[i]) {
        CanonSame(xs[i], b.items[i]);
      }
    case Obj(fs) =>
      var gs := b.fields;
      forall i, j | 0 <= i < |fs| && 0 <= j < |gs| && SameKept(fs[i], gs[j])
        ensures SameField(fs[i], gs[j])
      {
        CanonSame(fs[i].value, gs[j].value);
      }
      MatchedIsSame(fs, gs);
    case _ =>
  }

  /** The same sorted kept entries give every defined field a counterpart. */
  lemma {:induction false} MatchedIsSame(fs: seq<Entry<Json>>, gs: seq<Entry<Json>>)
    requires SortByKey(CanonFields(fs)) == SortByKey(CanonFields(gs))
    requires forall i, j :: 0 <= i < |fs| && 0 <= j < |gs| && SameKept(fs[i], gs[j]) ==> SameField(fs[i], gs[j])
    ensures SameDocument(Obj(fs), Obj(gs))
  {
    SortByKeyCorrect(CanonFields(fs));
    SortByKeyCorrect(CanonFields(gs));
    KeptCovered(fs, gs);
    KeptCovering(fs, gs);
  }

  lemma KeptCovered(fs: seq<Entry<Json>>, gs: seq<Entry<Json>>)
    requires forall e :: e in CanonFields(fs) ==> e in CanonFields(gs)
    requires forall i, j :: 0 <= i < |fs| && 0 <= j < |gs| && SameKept(fs[i], gs[j]) ==> SameField(fs[i], gs[j])
    ensures Covered(fs, gs)
  {
    forall i | 0 <= i < |fs| && !fs[i].value.Undefined?
      ensures exists j :: 0 <= j < |gs| && SameField(fs[i], gs[j])
    {
      KeptIn(fs, i);
      var j := KeptWitness(gs, Entry(fs[i].key, Canon(fs[i].value)));
      assert SameKept(fs[i], gs[j]);
    }
  }

  lemma KeptCovering(fs: seq<Entry<Json>>, gs: seq<Entry<Json>>)
    requires forall e :: e in CanonFields(gs) ==> e in CanonFields(fs)
    requires forall i, j :: 0 <= i < |fs| && 0 <= j < |gs| && SameKept(fs[i], gs[j]) ==> SameField(fs[i], gs[j])
    ensures Covering(fs, gs)
  {
    forall j | 0 <= j < |gs| && !gs[j].value.Undefined?
      ensures exists i :: 0 <= i < |fs| && SameField(fs[i], gs[j])
    {
      KeptIn(gs, j);
      var i := KeptWitness(fs, Entry(gs[j].key, Canon(gs[j].value)));
      assert SameKept(fs[i], gs[j]);
    }
  }

  predicate SameKept(f: Entry<Json>, g: Entry<Json>) {
    f.key == g.key && !f.value.Undefined? && !g.value.Undefined? && Canon(f.value) == Canon(g.value)
  }

  /** Equal signed bytes mean equal documents, and only then. */
  lemma SignedBytesDetermineDocument(a: Json, b: Json)
    requires Document(a) && Document(b)
    ensures CanonicalStringify(a) == CanonicalStringify(b) <==> SameDocument(a, b)
  {
    CanonicalIsPrint(a);
    CanonicalIsPrint(b);
    CanonNormal(a);
    CanonNormal(b);
    if CanonicalStringify(a) == CanonicalStringify(b) {
      PrintInjective(Canon(a), Canon(b));
      CanonSame(a, b);
    }
    if SameDocument(a, b) { SameCanon(a, b); }
  }

  /** Why the keys must be ASCII: two keys that JavaScript and the vehicle order
      differently (U+E000 and U+10000) make the signed and the rebuilt bytes differ. */
  lemma AstralKeysDisagree()
    ensures var low, high := [0xE000 as char], [0x10000 as char];
            var doc := Obj([Entry(low, Null), Entry(high, Null)]);
            WellFormed(doc) && CanonicalStringify(doc) != Stringify(Canon(doc))
  {
    var low, high := [0xE000 as char], [0x10000 as char];
    var fields := [Entry(low, Null), Entry(high, Null)];
    var tail := fields[1..];
    assert tail == [Entry(high, Null)] && tail[1..] == [];
    assert KeyLess(low, high) && !KeyLess(high, low);
    assert Utf16(low) == [0xE000] && Utf16(high) == [0xD800, 0xDC00];
    assert JsLess(high, low) && !JsLess(low, high);
    var kept := CanonFields(fields);
    assert CanonFields(tail[1..]) == [] && CanonFields(tail) == tail;
    assert kept == [Entry(low, Canon(Null))] + CanonFields(tail) == fields;
    assert SortByKey(tail) == tail;
    assert SortByKey(fields) == Insert(fields[0], SortByKey(tail)) == fields;
    assert CanonicalStringify(Null) == "null";
    var textsTail := CanonicalEntries(tail);
    assert CanonicalEntries(tail[1..]) == [];
    assert textsTail == [Entry(high, "null")];
    var texts := CanonicalEntries(fields);
    assert texts == [Entry(low, "null")] + textsTail && texts[1..] == textsTail;
    assert textsTail[1..] == [] && JsSort(textsTail) == textsTail;
    assert JsInsert(texts[0], textsTail) == [textsTail[0]] + JsInsert(texts[0], textsTail[1..]);
    var js, plain := EntryTexts(JsSort(texts)), MemberTexts(fields);
    assert js[0] == Quote(high) + [':'] + "null";
    assert Stringify(Null) == "null" && plain[0] == Quote(low) + [':'] + "null";
    assert Quote(high)[1] != Quote(low)[1];
    assert CanonicalStringify(Obj(fields))[2] != Stringify(Obj(fields))[2];
  }

  /** The two characters are ordered differently by code unit and by code point: one lies
      above the basic plane, the other in its top range. */
  predicate Swapped(x: char, y: char) {
    || (x as int >= 0x10000 && 0xE000 <= y as int < 0x10000)
    || (y as int >= 0x10000 && 0xE000 <= x as int < 0x10000)
  }

  /** The first place where two keys differ, if both go on there, holds swapped characters. */
  predicate PartsSwapped(a: string, b: string) {
    if a == [] || b == [] then false
    else if a[0] != b[0] then Swapped(a[0], b[0])
    else PartsSwapped(a[1..], b[1..])
  }

  function Units(c: char): seq<int> {
    if c as int < 0x10000 then [c as int]
    else [0xD800 + (c as int - 0x10000) / 0x400, 0xDC00 + (c as int - 0x10000) % 0x400]
  }

  lemma Utf16Front(a: string)
    requires a != []
    ensures Utf16(a) == Units(a[0]) + Utf16(a[1..]) && Utf16(a) != []
  {
  }

  lemma SameFrontUnits(u: seq<int>, a: seq<int>, b: seq<int>)
    ensures UnitsLess(u + a, u + b) == UnitsLess(a, b)
    decreases |u|
  {
    if u == [] {
      assert u + a == a && u + b == b;
    } else {
      assert (u + a)[1..] == u[1..] + a && (u + b)[1..] == u[1..] + b;
      SameFrontUnits(u[1..], a, b);
    }
  }

  /** Units of different characters differ at the first or second place and so decide. */
  lemma DifferentFront(x: char, y: char, a: seq<int>, b: seq<int>)
    requires x != y
    ensures UnitsLess(Units(x) + a, Units(y) + b) <==> ((x < y) <==> !Swapped(x, y))
  {
    var p, q := Units(x) + a, Units(y) + b;
    assert p[0] == Units(x)[0] && q[0] == Units(y)[0];
    if p[0] == q[0] {
      assert p[1..][0] == Units(x)[1] && q[1..][0] == Units(y)[1];
    }
  }

  /** Exactly when the signer's key order and the verifier's agree on two different keys:
      unless they part at a character above the basic plane against one of its top range. */
  lemma {:induction false} KeyOrdersAgreeIff(a: string, b: string)
    requires a != b
    ensures JsLess(a, b) == KeyLess(a, b) <==> !PartsSwapped(a, b)
    decreases |a|
  {
    if a == [] || b == [] {
      if a != [] { Utf16Front(a); }
      if b != [] { Utf16Front(b); }
    } else {
      Utf16Front(a);
      Utf16Front(b);
      if a[0] == b[0] {
        assert a == [a[0]] + a[1..] && b == [b[0]] + b[1..];
        SameFrontUnits(Units(a[0]), Utf16(a[1..]), Utf16(b[1..]));
        KeyOrdersAgreeIff(a[1..], b[1..]);
      } else {
        DifferentFront(a[0], b[0], Utf16(a[1..]), Utf16(b[1..]));
      }
    }
  }
}
