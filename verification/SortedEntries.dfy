/** Key/value entries ordered by key.  The cloud sorts a list of entries before
    printing; the vehicle's JSON object is an ordered map filled entry by entry.
    Both end in the one strictly sorted sequence with the given elements. */
module SortedEntries {
  datatype Entry<+T> = Entry(key: string, value: T)

  predicate KeyLess(a: string, b: string) {
    if |b| == 0 then false
    else if |a| == 0 then true
    else a[0] < b[0] || (a[0] == b[0] && KeyLess(a[1..], b[1..]))
  }

  predicate StrictlySorted<T>(es: seq<Entry<T>>) {
    forall i, j :: 0 <= i < j < |es| ==> KeyLess(es[i].key, es[j].key)
  }

  predicate DistinctKeys<T>(es: seq<Entry<T>>) {
    forall i, j :: 0 <= i < j < |es| ==> es[i].key != es[j].key
  }

  /** Places `e` before the first entry whose key is not below its own (the
      stable position for a list built back to front). */
  function Insert<T>(e: Entry<T>, es: seq<Entry<T>>): seq<Entry<T>> {
    if es == [] then [e]
    else if KeyLess(es[0].key, e.key) then [es[0]] + Insert(e, es[1..])
    else [e] + es
  }

  /** The list sorted by key. */
  function SortByKey<T>(es: seq<Entry<T>>): seq<Entry<T>> {
    if es == [] then [] else Insert(es[0], SortByKey(es[1..]))
  }

  /** Ordered-map insertion: an existing key has its value replaced. */
  function Put<T>(e: Entry<T>, es: seq<Entry<T>>): seq<Entry<T>> {
    if es == [] then [e]
    else if es[0].key == e.key then [e] + es[1..]
    else if KeyLess(es[0].key, e.key) then [es[0]] + Put(e, es[1..])
    else [e] + es
  }

  /** The ordered map after inserting the entries first to last. */
  function BuildMap<T>(es: seq<Entry<T>>): seq<Entry<T>> {
    if es == [] then [] else Put(es[|es| - 1], BuildMap(es[..|es| - 1]))
  }

  // ---- the key order is a strict total order ----

  lemma {:induction false} KeyLessTotal(a: string, b: string)
    ensures KeyLess(a, b) || KeyLess(b, a) || a == b
  {
    if |a| > 0 && |b| > 0 && a[0] == b[0] {
      KeyLessTotal(a[1..], b[1..]);
      assert a == [a[0]] + a[1..] && b == [b[0]] + b[1..];
    }
  }

  lemma {:induction false} KeyLessTransitive(a: string, b: string, c: string)
    requires KeyLess(a, b) && KeyLess(b, c)
    ensures KeyLess(a, c)
  {
    if |a| > 0 && a[0] == b[0] && b[0] == c[0] {
      KeyLessTransitive(a[1..], b[1..], c[1..]);
    }
  }

  lemma {:induction false} KeyLessIrreflexive(a: string)
    ensures !KeyLess(a, a)
  {
    if |a| > 0 {
      KeyLessIrreflexive(a[1..]);
    }
  }

  // ---- membership and order of the two constructions ----

  lemma {:induction false} InsertElements<T(!new)>(e: Entry<T>, es: seq<Entry<T>>)
    ensures forall x :: x in Insert(e, es) <==> x == e || x in es
  {
    if es != [] && KeyLess(es[0].key, e.key) {
      InsertElements(e, es[1..]);
      assert es == [es[0]] + es[1..];
    }
  }

  lemma {:induction false} PutElements<T(!new)>(e: Entry<T>, es: seq<Entry<T>>)
    requires forall x :: x in es ==> x.key != e.key
    ensures forall x :: x in Put(e, es) <==> x == e || x in es
  {
    if es != [] {
      assert es[0] in es;
      if KeyLess(es[0].key, e.key) {
        PutElements(e, es[1..]);
        assert es == [es[0]] + es[1..];
      }
    }
  }

  lemma {:induction false} PutKeys<T(!new)>(e: Entry<T>, es: seq<Entry<T>>)
    ensures forall x :: x in Put(e, es) ==> x == e || x in es
  {
    if es != [] && es[0].key != e.key && KeyLess(es[0].key, e.key) {
      PutKeys(e, es[1..]);
    }
  }

  /** Prepending an entry below every other one keeps the order. */
  lemma PrependSorted<T(!new)>(e: Entry<T>, es: seq<Entry<T>>)
    requires StrictlySorted(es)
    requires forall x :: x in es ==> KeyLess(e.key, x.key)
    ensures StrictlySorted([e] + es)
  {
  }

  lemma TailAbove<T(!new)>(es: seq<Entry<T>>)
    requires es != [] && StrictlySorted(es)
    ensures StrictlySorted(es[1..])
    ensures forall x :: x in es[1..] ==> KeyLess(es[0].key, x.key)
  {
  }

  lemma {:induction false} InsertSorted<T(!new)>(e: Entry<T>, es: seq<Entry<T>>)
    requires StrictlySorted(es)
    requires forall x :: x in es ==> x.key != e.key
    ensures StrictlySorted(Insert(e, es))
  {
    if es == [] {
    } else if KeyLess(es[0].key, e.key) {
      InsertSorted(e, es[1..]);
      InsertElements(e, es[1..]);
      TailAbove(es);
      PrependSorted(es[0], Insert(e, es[1..]));
    } else {
      HeadIsLeast(e, es);
      PrependSorted(e, es);
    }
  }

  lemma HeadIsLeast<T(!new)>(e: Entry<T>, es: seq<Entry<T>>)
    requires es != [] && StrictlySorted(es) && es[0].key != e.key && !KeyLess(es[0].key, e.key)
    ensures forall x :: x in es ==> KeyLess(e.key, x.key)
  {
    KeyLessTotal(e.key, es[0].key);
    forall x | x in es ensures KeyLess(e.key, x.key) {
      var i :| 0 <= i < |es| && es[i] == x;
      if i > 0 { KeyLessTransitive(e.key, es[0].key, x.key); }
    }
  }

  lemma {:induction false} PutSorted<T(!new)>(e: Entry<T>, es: seq<Entry<T>>)
    requires StrictlySorted(es)
    ensures StrictlySorted(Put(e, es))
  {
    if es == [] {
    } else if es[0].key == e.key {
      TailAbove(es);
      PrependSorted(e, es[1..]);
    } else if KeyLess(es[0].key, e.key) {
      PutSorted(e, es[1..]);
      PutKeys(e, es[1..]);
      TailAbove(es);
      PrependSorted(es[0], Put(e, es[1..]));
    } else {
      HeadIsLeast(e, es);
      PrependSorted(e, es);
    }
  }

  /** Sorting keeps the elements and, on distinct keys, orders them strictly. */
  lemma {:induction false} SortByKeyCorrect<T(!new)>(es: seq<Entry<T>>)
    ensures forall x :: x in SortByKey(es) <==> x in es
    ensures DistinctKeys(es) ==> StrictlySorted(SortByKey(es))
  {
    if es != [] {
      SortByKeyCorrect(es[1..]);
      InsertElements(es[0], SortByKey(es[1..]));
      assert es == [es[0]] + es[1..];
      if DistinctKeys(es) {
        assert DistinctKeys(es[1..]);
        forall x | x in es[1..] ensures x.key != es[0].key {
          var i :| 0 <= i < |es[1..]| && es[1..][i] == x;
          assert es[i + 1] == x;
        }
        InsertSorted(es[0], SortByKey(es[1..]));
      }
    }
  }

  /** The ordered map is sorted whatever the input, and holds exactly the
      entries when no key repeats. */
  lemma {:induction false} BuildMapCorrect<T(!new)>(es: seq<Entry<T>>)
    ensures StrictlySorted(BuildMap(es))
    ensures forall x :: x in BuildMap(es) ==> x in es
    ensures DistinctKeys(es) ==> forall x :: x in BuildMap(es) <==> x in es
  {
    if es != [] {
      var front, last := es[..|es| - 1], es[|es| - 1];
      assert es == front + [last];
      BuildMapCorrect(front);
      PutSorted(last, BuildMap(front));
      PutKeys(last, BuildMap(front));
      if DistinctKeys(es) {
        assert DistinctKeys(front);
        PutElements(last, BuildMap(front));
      }
    }
  }

  /** A strictly sorted sequence is determined by its elements. */
  lemma {:induction false} SortedUnique<T(!new)>(xs: seq<Entry<T>>, ys: seq<Entry<T>>)
    requires StrictlySorted(xs) && StrictlySorted(ys)
    requires forall e :: e in xs <==> e in ys
    ensures xs == ys
  {
    assert ys == [] || ys[0] in ys;
    if xs != [] {
      assert xs[0] in ys;
      assert ys[0] in xs;
      SameLeast(xs, ys);
      forall e ensures e in xs[1..] <==> e in ys[1..] {
        TailElements(xs, e);
        TailElements(ys, e);
      }
      SortedUnique(xs[1..], ys[1..]);
      assert xs == [xs[0]] + xs[1..] && ys == [ys[0]] + ys[1..];
    }
  }

  lemma SameLeast<T(!new)>(xs: seq<Entry<T>>, ys: seq<Entry<T>>)
    requires StrictlySorted(xs) && StrictlySorted(ys)
    requires xs != [] && ys != [] && xs[0] in ys && ys[0] in xs
    ensures xs[0] == ys[0]
  {
    var i :| 0 <= i < |ys| && ys[i] == xs[0];
    var j :| 0 <= j < |xs| && xs[j] == ys[0];
    if i > 0 && j > 0 {
      KeyLessTransitive(xs[0].key, ys[0].key, xs[0].key);
      KeyLessIrreflexive(xs[0].key);
    }
  }

  lemma TailElements<T(!new)>(es: seq<Entry<T>>, e: Entry<T>)
    requires es != [] && StrictlySorted(es)
    ensures e in es[1..] <==> e in es && e != es[0]
  {
    assert es == [es[0]] + es[1..];
    if e in es[1..] {
      var i :| 0 <= i < |es[1..]| && es[1..][i] == e;
      KeyLessIrreflexive(es[0].key);
      assert KeyLess(es[0].key, es[i + 1].key);
    }
  }

  /** Filling the ordered map and sorting the list give the same sequence. */
  lemma BuildMapIsSort<T(!new)>(es: seq<Entry<T>>)
    requires DistinctKeys(es)
    ensures BuildMap(es) == SortByKey(es)
  {
    BuildMapCorrect(es);
    SortByKeyCorrect(es);
    SortedUnique(BuildMap(es), SortByKey(es));
  }

  lemma SortedKeysDistinct<T(!new)>(es: seq<Entry<T>>)
    requires StrictlySorted(es)
    ensures DistinctKeys(es)
  {
    forall i, j | 0 <= i < j < |es| ensures es[i].key != es[j].key {
      KeyLessIrreflexive(es[i].key);
    }
  }

  /** Sorting a sorted sequence changes nothing. */
  lemma SortedFixpoint<T(!new)>(es: seq<Entry<T>>)
    requires StrictlySorted(es)
    ensures SortByKey(es) == es
  {
    SortedKeysDistinct(es);
    SortByKeyCorrect(es);
    SortedUnique(SortByKey(es), es);
  }
}
