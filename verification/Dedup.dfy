/** The command de-duplication store: command id to the exact acknowledgement sent,
    bounded by a FIFO of ids. */
module Dedup {
  import opened Wrappers
  import opened Contract

  const DEDUP_CAP: nat := 4096

  datatype Store = Store(acks: map<string, Ack>, order: seq<string>)

  const EMPTY := Store(map[], [])

  function Remember(s: Store, cid: string, ack: Ack): Store {
    var acks := s.acks[cid := ack];
    if cid in s.acks then s.(acks := acks)
    else
      var order := s.order + [cid];
      if |order| > DEDUP_CAP then Store(acks - {order[0]}, order[1..]) else Store(acks, order)
  }

  // ---- the unbounded history the store approximates ----

  datatype Answer = Answer(cid: string, ack: Ack)

  function WindowStart(h: seq<Answer>): nat {
    if |h| > DEDUP_CAP then |h| - DEDUP_CAP else 0
  }

  /** The store is the last `DEDUP_CAP` answers of the history: same ids in the
      same order, same acknowledgements, no id twice. */
  ghost predicate Refines(s: Store, h: seq<Answer>) {
    var w := WindowStart(h);
    && |s.order| == |h| - w
    && (forall i :: 0 <= i < |s.order| ==> s.order[i] == h[w + i].cid)
    && (forall i, j :: 0 <= i < j < |s.order| ==> s.order[i] != s.order[j])
    && (forall cid :: cid in s.acks <==> cid in s.order)
    && (forall i :: 0 <= i < |s.order| ==> s.order[i] in s.acks && s.acks[s.order[i]] == h[w + i].ack)
  }

  lemma EmptyRefines()
    ensures Refines(EMPTY, [])
  {
  }

  /** Answering a command that is not in the store extends the history by one. */
  lemma RememberRefines(s: Store, h: seq<Answer>, cid: string, ack: Ack)
    requires Refines(s, h) && cid !in s.acks
    ensures Refines(Remember(s, cid, ack), h + [Answer(cid, ack)])
  {
    if |s.order| + 1 > DEDUP_CAP { RememberFull(s, h, cid, ack); } else { RememberRoom(s, h, cid, ack); }
  }

  lemma RememberRoom(s: Store, h: seq<Answer>, cid: string, ack: Ack)
    requires Refines(s, h) && cid !in s.acks && |s.order| < DEDUP_CAP
    ensures Refines(Remember(s, cid, ack), h + [Answer(cid, ack)])
  {
    assert Distinct(s.order);
    AppendDistinct(s.order, cid);
    InAppended(s.order, cid);
    RoomEntries(s, h, cid, ack);
  }

  /** A store with room keeps every answer and adds the new one. */
  lemma RoomEntries(s: Store, h: seq<Answer>, cid: string, ack: Ack)
    requires Refines(s, h) && cid !in s.acks && |s.order| < DEDUP_CAP
    ensures var t, h' := Remember(s, cid, ack), h + [Answer(cid, ack)];
            WindowStart(h') == WindowStart(h) == 0 && t.order == s.order + [cid] && t.acks == s.acks[cid := ack] &&
            forall i :: 0 <= i < |t.order| ==>
              && t.order[i] == h'[i].cid
              && t.order[i] in t.acks && t.acks[t.order[i]] == h'[i].ack
  {
  }

  lemma InAppended(order: seq<string>, cid: string)
    ensures forall id :: id in order + [cid] <==> id in order || id == cid
  {
  }

  lemma InTail(order: seq<string>)
    requires order != [] && forall i, j :: 0 <= i < j < |order| ==> order[i] != order[j]
    ensures forall id :: id in order[1..] <==> id in order && id != order[0]
  {
  }

  predicate Distinct(order: seq<string>) {
    forall i, j :: 0 <= i < j < |order| ==> order[i] != order[j]
  }

  lemma AppendDistinct(order: seq<string>, cid: string)
    requires Distinct(order) && cid !in order
    ensures Distinct(order + [cid])
  {
  }

  lemma RememberFull(s: Store, h: seq<Answer>, cid: string, ack: Ack)
    requires Refines(s, h) && cid !in s.acks && |s.order| >= DEDUP_CAP
    ensures Refines(Remember(s, cid, ack), h + [Answer(cid, ack)])
  {
    var t := Remember(s, cid, ack);
    var order := s.order + [cid];
    AppendDistinct(s.order, cid);
    InAppended(s.order, cid);
    InTail(order);
    assert t.acks == s.acks[cid := ack] - {order[0]} && t.order == order[1..];
    FullEntries(s, h, cid, ack);
  }

  /** A full store drops its oldest answer and keeps the others with their acks. */
  lemma FullEntries(s: Store, h: seq<Answer>, cid: string, ack: Ack)
    requires Refines(s, h) && cid !in s.acks && |s.order| >= DEDUP_CAP
    requires Distinct(s.order + [cid])
    ensures var t, h' := Remember(s, cid, ack), h + [Answer(cid, ack)];
            WindowStart(h') == WindowStart(h) + 1 &&
            forall i :: 0 <= i < |t.order| ==>
              && t.order[i] == h'[WindowStart(h') + i].cid
              && t.order[i] in t.acks && t.acks[t.order[i]] == h'[WindowStart(h') + i].ack
  {
  }

  /** Never more than the cap, and the map's keys are the queue's ids. */
  lemma StoreBounded(s: Store, h: seq<Answer>)
    requires Refines(s, h)
    ensures |s.order| <= DEDUP_CAP
    ensures s.acks.Keys == set i | 0 <= i < |s.order| :: s.order[i]
    ensures |s.acks| == |s.order|
  {
    DistinctCount(s.order);
    assert s.acks.Keys == set i | 0 <= i < |s.order| :: s.order[i];
  }

  lemma {:induction false} DistinctCount(ids: seq<string>)
    requires forall i, j :: 0 <= i < j < |ids| ==> ids[i] != ids[j]
    ensures |set i | 0 <= i < |ids| :: ids[i]| == |ids|
  {
    var all := set i | 0 <= i < |ids| :: ids[i];
    if ids == [] {
      assert all == {};
    } else {
      var front := ids[..|ids| - 1];
      DistinctCount(front);
      var rest := set i | 0 <= i < |front| :: front[i];
      assert all == rest + {ids[|ids| - 1]} by {
        forall x | x in all ensures x in rest + {ids[|ids| - 1]} {
          var i :| 0 <= i < |ids| && ids[i] == x;
          if i < |front| { assert front[i] == x; }
        }
        forall x | x in rest ensures x in all {
          var i :| 0 <= i < |front| && front[i] == x;
          assert ids[i] == x;
        }
      }
      assert ids[|ids| - 1] !in rest;
    }
  }

  /** Until `DEDUP_CAP` later ids have been answered, an answer is replayed byte for
      byte, and an id is replayed only if it was one of those answers. */
  lemma ReplayIsExact(s: Store, h: seq<Answer>, cid: string)
    requires Refines(s, h)
    ensures cid in s.acks <==> exists i :: WindowStart(h) <= i < |h| && h[i].cid == cid
    ensures forall i :: WindowStart(h) <= i < |h| ==> h[i].cid in s.acks && s.acks[h[i].cid] == h[i].ack
  {
    var w := WindowStart(h);
    forall i | w <= i < |h| ensures h[i].cid in s.acks && s.acks[h[i].cid] == h[i].ack {
      assert s.order[i - w] == h[i].cid;
    }
    if cid in s.acks {
      var j :| 0 <= j < |s.order| && s.order[j] == cid;
      assert h[w + j].cid == cid;
    }
  }

  class DedupStore {
    var acks: map<string, Ack>
    var order: seq<string>

    ghost function Value(): Store
      reads this
    {
      Store(acks, order)
    }

    constructor ()
      ensures Value() == EMPTY
    {
      acks, order := map[], [];
    }

    method RememberAck(cid: string, ack: Ack)
      modifies this
      ensures Value() == Remember(old(Value()), cid, ack)
    {
      var known := cid in acks;
      acks := acks[cid := ack];
      if !known {
        order := order + [cid];
        if |order| > DEDUP_CAP {
          var oldest := order[0];
          order := order[1..];
          acks := acks - {oldest};
        }
      }
    }
  }
}
