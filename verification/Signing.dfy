/** Signing on the cloud, verification on the vehicle.  Ed25519 (with its base64
    text form) is a pair of abstract functions on byte strings. */
module Signing {
  import opened Wrappers
  import opened SortedEntries
  import opened JsonText
  import opened JsonRoundTrip
  import opened Canonical

  const SIGNATURE := "signature"

  function Without(fields: seq<Entry<Json>>, key: string): seq<Entry<Json>> {
    if fields == [] then []
    else if fields[0].key == key then Without(fields[1..], key)
    else [fields[0]] + Without(fields[1..], key)
  }

  /** `{ ...fields, [key]: value }`: an existing key keeps its place. */
  function Assign(fields: seq<Entry<Json>>, key: string, value: Json): seq<Entry<Json>> {
    if fields == [] then [Entry(key, value)]
    else if fields[0].key == key then [Entry(key, value)] + fields[1..]
    else [fields[0]] + Assign(fields[1..], key, value)
  }

  /** The signed document: the signature covers the canonical text of everything else. */
  function SignDocument(fields: seq<Entry<Json>>, sign: string -> string): seq<Entry<Json>> {
    Assign(fields, SIGNATURE, Str(sign(CanonicalStringify(Obj(Without(fields, SIGNATURE))))))
  }

  function Get(fields: seq<Entry<Json>>, key: string): Option<Json> {
    if fields == [] then None
    else if fields[0].key == key then Some(fields[0].value)
    else Get(fields[1..], key)
  }

  datatype Claim = Claim(message: string, signature: string)

  /** The bytes and signature text the vehicle hands to the key: the parsed
      document reprinted without its signature. */
  function VerifyInput(raw: Json): Option<Claim> {
    if !raw.Obj? then None
    else
      var sig := Get(raw.fields, SIGNATURE);
      if sig.None? || !sig.value.Str? then None
      else Some(Claim(Stringify(Obj(Without(raw.fields, SIGNATURE))), sig.value.s))
  }

  predicate VerifySignature(raw: Json, verify: (string, string) -> bool) {
    VerifyInput(raw).Some? && verify(VerifyInput(raw).value.message, VerifyInput(raw).value.signature)
  }

  // ------------------------------------------------------------------
  // Field bookkeeping
  // ------------------------------------------------------------------

  lemma {:induction false} WithoutElements(fields: seq<Entry<Json>>, key: string)
    ensures forall e :: e in Without(fields, key) <==> e in fields && e.key != key
  {
    if fields != [] {
      WithoutElements(fields[1..], key);
      assert fields == [fields[0]] + fields[1..];
    }
  }

  lemma {:induction false} WithoutSorted(fields: seq<Entry<Json>>, key: string)
    requires StrictlySorted(fields)
    ensures StrictlySorted(Without(fields, key))
  {
    if fields != [] {
      TailAbove(fields);
      WithoutSorted(fields[1..], key);
      WithoutElements(fields[1..], key);
      if fields[0].key != key { PrependSorted(fields[0], Without(fields[1..], key)); }
    }
  }

  lemma {:induction false} WithoutDocument(fields: seq<Entry<Json>>, key: string)
    requires Document(Obj(fields))
    ensures Document(Obj(Without(fields, key)))
  {
    if fields != [] {
      var tail := fields[1..];
      assert Document(Obj(tail)) by { TailDocument(fields); }
      WithoutDocument(tail, key);
      WithoutElements(tail, key);
      if fields[0].key != key {
        forall x | x in tail ensures x.key != fields[0].key {
          var i :| 0 <= i < |tail| && tail[i] == x;
          assert fields[i + 1] == x;
        }
        PrependDocument(fields[0], Without(tail, key));
      }
    }
  }

  lemma TailDocument(fields: seq<Entry<Json>>)
    requires fields != [] && Document(Obj(fields))
    ensures Document(Obj(fields[1..]))
  {
  }

  lemma PrependDocument(e: Entry<Json>, fields: seq<Entry<Json>>)
    requires Document(Obj(fields))
    requires Ascii(e.key) && AsciiKeys(e.value) && (e.value.Undefined? || WellFormed(e.value))
    requires forall x :: x in fields ==> x.key != e.key
    ensures Document(Obj([e] + fields))
  {
  }

  lemma {:induction false} AssignElements(fields: seq<Entry<Json>>, key: string, value: Json)
    requires DistinctKeys(fields)
    ensures forall e :: e in Assign(fields, key, value) <==> e == Entry(key, value) || (e in fields && e.key != key)
  {
    if fields != [] {
      var tail := fields[1..];
      assert fields == [fields[0]] + tail;
      assert DistinctKeys(tail);
      forall x | x in tail ensures x.key != fields[0].key {
        var i :| 0 <= i < |tail| && tail[i] == x;
        assert fields[i + 1] == x;
      }
      AssignElements(tail, key, value);
    }
  }

  lemma {:induction false} AssignDocument(fields: seq<Entry<Json>>, key: string, s: string)
    requires Document(Obj(fields)) && Ascii(key)
    ensures Document(Obj(Assign(fields, key, Str(s))))
  {
    if fields == [] {
      PrependDocument(Entry(key, Str(s)), []);
      assert Assign(fields, key, Str(s)) == [Entry(key, Str(s))] + [];
    } else {
      var tail := fields[1..];
      TailDocument(fields);
      forall x | x in tail ensures x.key != fields[0].key {
        var i :| 0 <= i < |tail| && tail[i] == x;
        assert fields[i + 1] == x;
      }
      if fields[0].key == key {
        PrependDocument(Entry(key, Str(s)), tail);
      } else {
        AssignDocument(tail, key, s);
        AssignElements(tail, key, Str(s));
        PrependDocument(fields[0], Assign(tail, key, Str(s)));
      }
    }
  }

  lemma {:induction false} GetUnique(fields: seq<Entry<Json>>, e: Entry<Json>)
    requires DistinctKeys(fields) && e in fields
    ensures Get(fields, e.key) == Some(e.value)
  {
    var i :| 0 <= i < |fields| && fields[i] == e;
    if i > 0 {
      assert fields[1..][i - 1] == e;
      assert forall a, b :: 0 <= a < b < |fields[1..]| ==> fields[1..][a].key == fields[a + 1].key && fields[1..][b].key == fields[b + 1].key;
      GetUnique(fields[1..], e);
    }
  }

  lemma {:induction false} KeptWithout(fields: seq<Entry<Json>>, key: string, e: Entry<Json>)
    ensures e in CanonFields(Without(fields, key)) <==> e in CanonFields(fields) && e.key != key
  {
    if fields != [] { KeptWithout(fields[1..], key, e); }
  }

  lemma {:induction false} WithoutAssign(fields: seq<Entry<Json>>, key: string, value: Json)
    requires DistinctKeys(fields)
    ensures Without(Assign(fields, key, value), key) == Without(fields, key)
  {
    if fields != [] {
      var tail := fields[1..];
      assert forall a, b :: 0 <= a < b < |tail| ==> tail[a].key == fields[a + 1].key && tail[b].key == fields[b + 1].key;
      if fields[0].key == key {
        assert ([Entry(key, value)] + tail)[1..] == tail;
      } else {
        WithoutAssign(tail, key, value);
        assert Assign(fields, key, value)[1..] == Assign(tail, key, value);
      }
    }
  }

  /** Removing a member from the parsed object is parsing the object without it. */
  lemma CanonWithout(fields: seq<Entry<Json>>, key: string)
    requires DistinctKeys(fields)
    ensures Without(SortByKey(CanonFields(fields)), key) == SortByKey(CanonFields(Without(fields, key)))
  {
    var sorted := SortByKey(CanonFields(fields));
    CanonFieldsDistinct(fields);
    SortByKeyCorrect(CanonFields(fields));
    WithoutElements(sorted, key);
    WithoutSorted(sorted, key);
    WithoutDistinct(fields, key);
    CanonFieldsDistinct(Without(fields, key));
    SortByKeyCorrect(CanonFields(Without(fields, key)));
    forall e ensures e in Without(sorted, key) <==> e in SortByKey(CanonFields(Without(fields, key))) {
      KeptWithout(fields, key, e);
    }
    SortedUnique(Without(sorted, key), SortByKey(CanonFields(Without(fields, key))));
  }

  lemma {:induction false} WithoutDistinct(fields: seq<Entry<Json>>, key: string)
    requires DistinctKeys(fields)
    ensures DistinctKeys(Without(fields, key))
  {
    if fields != [] {
      var tail := fields[1..];
      assert forall a, b :: 0 <= a < b < |tail| ==> tail[a].key == fields[a + 1].key && tail[b].key == fields[b + 1].key;
      WithoutDistinct(tail, key);
      WithoutElements(tail, key);
      if fields[0].key != key {
        var rest := Without(tail, key);
        forall i, j | 0 <= i < j < |[fields[0]] + rest|
          ensures ([fields[0]] + rest)[i].key != ([fields[0]] + rest)[j].key
        {
          assert rest[j - 1] in rest;
          var m :| 0 <= m < |tail| && tail[m] == rest[j - 1];
          assert fields[m + 1] == rest[j - 1];
        }
      }
    }
  }

  // ------------------------------------------------------------------
  // Main results
  // ------------------------------------------------------------------

  /** Sign, send, re-verify: the vehicle parses the insertion-order wire text,
      drops the signature and reprints exactly the bytes the cloud signed, next to
      the very signature the cloud made; what it acts on is the canonical document. */
  lemma {:induction false} SignSendVerify(fields: seq<Entry<Json>>, sign: string -> string)
    requires Document(Obj(fields))
    ensures var unsigned := Obj(Without(fields, SIGNATURE));
            var message := CanonicalStringify(unsigned);
            var received := ParseJson(Stringify(Obj(SignDocument(fields, sign))));
            && received.Some? && received.value.Obj?
            && VerifyInput(received.value) == Some(Claim(message, sign(message)))
            && Obj(Without(received.value.fields, SIGNATURE)) == Canon(unsigned)
  {
    var unsigned := Obj(Without(fields, SIGNATURE));
    var sig := sign(CanonicalStringify(unsigned));
    var signed := Assign(fields, SIGNATURE, Str(sig));
    assert SignDocument(fields, sign) == signed;
    AssignDocument(fields, SIGNATURE, sig);
    WireRoundTrip(Obj(signed));
    SignatureFound(fields, sig);
    RestReprints(fields, sig);
    WithoutDocument(fields, SIGNATURE);
    CanonicalIsPrint(unsigned);
  }

  /** The parsed object yields the signature that was put in ... */
  lemma SignatureFound(fields: seq<Entry<Json>>, sig: string)
    requires Document(Obj(fields))
    ensures Get(SortByKey(CanonFields(Assign(fields, SIGNATURE, Str(sig)))), SIGNATURE) == Some(Str(sig))
  {
    var signed := Assign(fields, SIGNATURE, Str(sig));
    AssignDocument(fields, SIGNATURE, sig);
    AssignElements(fields, SIGNATURE, Str(sig));
    var at :| 0 <= at < |signed| && signed[at] == Entry(SIGNATURE, Str(sig));
    KeptIn(signed, at);
    CanonFieldsDistinct(signed);
    SortByKeyCorrect(CanonFields(signed));
    SortedKeysDistinct(SortByKey(CanonFields(signed)));
    GetUnique(SortByKey(CanonFields(signed)), Entry(SIGNATURE, Str(sig)));
  }

  /** ... and, without it, the unsigned document's own canonical members. */
  lemma RestReprints(fields: seq<Entry<Json>>, sig: string)
    requires Document(Obj(fields))
    ensures Without(SortByKey(CanonFields(Assign(fields, SIGNATURE, Str(sig)))), SIGNATURE) ==
            SortByKey(CanonFields(Without(fields, SIGNATURE)))
  {
    AssignDocument(fields, SIGNATURE, sig);
    CanonWithout(Assign(fields, SIGNATURE, Str(sig)), SIGNATURE);
    WithoutAssign(fields, SIGNATURE, Str(sig));
  }

  /** Whatever the parser accepts is in normal form. */
  lemma {:induction false} ParsedNormal(text: string)
    ensures ParseValue(text).Ok? ==> Normal(ParseValue(text).value)
    decreases |text|, 0
  {
    var s := SkipSpace(text);
    if s != [] && s[0] == '[' {
      ParsedItemsNormal(s[1..]);
    } else if s != [] && s[0] == '{' {
      ParsedMembersNormal(s[1..]);
      var p := ParseMembers(s[1..]);
      if p.Ok? {
        BuildMapCorrect(p.value);
        NormalMap(p.value);
      }
    }
  }

  lemma NormalMap(es: seq<Entry<Json>>)
    requires forall x :: x in es ==> Normal(x.value)
    ensures Normal(Obj(BuildMap(es)))
  {
    BuildMapCorrect(es);
    var m := BuildMap(es);
    forall i | 0 <= i < |m| ensures Normal(m[i].value) {
      assert m[i] in m;
    }
  }

  lemma {:induction false} ParsedItemsNormal(text: string)
    ensures ParseItems(text).Ok? ==> Normal(Arr(ParseItems(text).value))
    decreases |text|, 1
  {
    ParsedNormal(text);
    var v := ParseValue(text);
    if v.Ok? {
      var s := SkipSpace(v.rest);
      if s != [] && s[0] == ',' { ParsedItemsNormal(s[1..]); }
    }
  }

  lemma {:induction false} ParsedMembersNormal(text: string)
    ensures ParseMembers(text).Ok? ==> forall x :: x in ParseMembers(text).value ==> Normal(x.value)
    decreases |text|, 1
  {
    var p := ParseMembers(text);
    if p.Ok? {
      var key := ParseString(SkipSpace(text)[1..]);
      var t := SkipSpace(key.rest);
      var v := ParseValue(t[1..]);
      ParsedNormal(t[1..]);
      var u := SkipSpace(v.rest);
      if u[0] == ',' { ParsedMembersNormal(u[1..]); }
    }
  }

  /** Tamper evidence: if signatures verify only on messages the cloud signed, then
      any text at all that the vehicle accepts carries, outside its signature
      field, a document the cloud signed: same members, same values, at every depth. */
  lemma AcceptedWasSigned(text: string, issued: set<Json>, verify: (string, string) -> bool)
    requires forall u :: u in issued ==> Document(u)
    requires forall m, s :: verify(m, s) ==> exists u :: u in issued && m == CanonicalStringify(u)
    requires ParseJson(text).Some? && VerifySignature(ParseJson(text).value, verify)
    ensures exists u :: u in issued
              && Canon(u) == Obj(Without(ParseJson(text).value.fields, SIGNATURE))
              && SameDocument(Obj(Without(ParseJson(text).value.fields, SIGNATURE)), u)
  {
    var raw := ParseJson(text).value;
    var body := Obj(Without(raw.fields, SIGNATURE));
    var claim := VerifyInput(raw).value;
    var u :| u in issued && claim.message == CanonicalStringify(u);
    ParsedNormal(text);
    NormalWithout(raw.fields, SIGNATURE);
    CanonicalIsPrint(u);
    CanonNormal(u);
    PrintInjective(body, Canon(u));
    NormalIsCanon(body);
    CanonSame(body, u);
  }

  lemma NormalWithout(fields: seq<Entry<Json>>, key: string)
    requires Normal(Obj(fields))
    ensures Normal(Obj(Without(fields, key)))
  {
    WithoutElements(fields, key);
    WithoutSorted(fields, key);
    var rest := Without(fields, key);
    forall i | 0 <= i < |rest| ensures Normal(rest[i].value) {
      assert rest[i] in rest;
    }
  }
}
