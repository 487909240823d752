/** The cloud side of the event log: evidence rows keyed by vehicle, boot and
    sequence number, appended once per key; and latch transitions from heartbeats. */
module EdgeLogIngest {
  import opened Wrappers
  import opened VehicleLog
  import JsonText
  import JsonRoundTrip

  // ------------------------------------------------------------------
  // Row keys
  // ------------------------------------------------------------------

  function VlogKey(vehicleId: string, bootId: string, number: nat): string {
    "vlog-" + vehicleId + "-" + bootId + "-" + JsonText.NatText(number)
  }

  function EventKey(e: Event): string {
    VlogKey(e.vehicleId, e.bootId, e.number)
  }

  predicate HyphenFree(s: string) {
    forall i :: 0 <= i < |s| ==> s[i] != '-'
  }

  /** The last hyphen of a text splits it in one way only. */
  lemma SplitAtLastHyphen(a: string, d: string, b: string, e: string)
    requires a + "-" + d == b + "-" + e && HyphenFree(d) && HyphenFree(e)
    ensures a == b && d == e
  {
    var x, y := a + "-" + d, b + "-" + e;
    assert x[|a|] == '-' && forall k :: |a| < k < |x| ==> x[k] == d[k - |a| - 1];
    assert y[|b|] == '-' && forall k :: |b| < k < |y| ==> y[k] == e[k - |b| - 1];
    assert |a| == |b|;
    assert a == x[..|a|] == y[..|b|] == b;
    assert d == x[|a| + 1..] == y[|b| + 1..] == e;
  }

  lemma NatTextInjective(m: nat, n: nat)
    requires JsonText.NatText(m) == JsonText.NatText(n)
    ensures m == n
  {
    JsonRoundTrip.NatTextDigits(m);
    JsonRoundTrip.NatTextDigits(n);
  }

  lemma NatTextHyphenFree(n: nat)
    ensures HyphenFree(JsonText.NatText(n))
  {
  }

  /** Exactly when two identities share a row key: equal numbers, and vehicle and
      boot that read alike once joined by a hyphen. */
  lemma SameKeyIff(v: string, b: string, m: nat, w: string, c: string, n: nat)
    ensures VlogKey(v, b, m) == VlogKey(w, c, n) <==> m == n && v + "-" + b == w + "-" + c
  {
    var left, right := "vlog-" + (v + "-" + b), "vlog-" + (w + "-" + c);
    assert VlogKey(v, b, m) == left + "-" + JsonText.NatText(m);
    assert VlogKey(w, c, n) == right + "-" + JsonText.NatText(n);
    if VlogKey(v, b, m) == VlogKey(w, c, n) {
      NatTextHyphenFree(m);
      NatTextHyphenFree(n);
      SplitAtLastHyphen(left, JsonText.NatText(m), right, JsonText.NatText(n));
      NatTextInjective(m, n);
      assert v + "-" + b == left[5..] == right[5..] == w + "-" + c;
    }
  }

  /** Boot ids are eight hex digits: without hyphens the key is injective. */
  lemma VlogKeyInjective(v: string, b: string, m: nat, w: string, c: string, n: nat)
    requires HyphenFree(b) && HyphenFree(c) && VlogKey(v, b, m) == VlogKey(w, c, n)
    ensures v == w && b == c && m == n
  {
    SameKeyIff(v, b, m, w, c, n);
    SplitAtLastHyphen(v, b, w, c);
  }

  /** With a hyphen allowed in boot ids two vehicles could share a key. */
  lemma HyphenatedBootCollides(number: nat)
    ensures VlogKey("VEH", "1-2", number) == VlogKey("VEH-1", "2", number)
  {
  }

  // ------------------------------------------------------------------
  // Ingestion
  // ------------------------------------------------------------------

  datatype Row = Row(commandId: string, event: Event)
  datatype Batch = Batch(vehicleId: string, events: seq<Event>)
  datatype SyncAck = SyncAck(vehicleId: string, bootId: string, upTo: nat)

  predicate Has(edr: seq<Row>, key: string) {
    exists i :: 0 <= i < |edr| && edr[i].commandId == key
  }

  function AppendNew(edr: seq<Row>, e: Event): seq<Row> {
    if Has(edr, EventKey(e)) then edr else edr + [Row(EventKey(e), e)]
  }

  function Ingest(edr: seq<Row>, events: seq<Event>): seq<Row> {
    if events == [] then edr else AppendNew(Ingest(edr, events[..|events| - 1]), events[|events| - 1])
  }

  function MaxNumber(events: seq<Event>): nat
    requires events != []
  {
    if |events| == 1 then events[0].number
    else Max(MaxNumber(events[..|events| - 1]), events[|events| - 1].number)
  }

  lemma {:induction false} MaxNumberIsMax(events: seq<Event>)
    requires events != []
    ensures forall i :: 0 <= i < |events| ==> events[i].number <= MaxNumber(events)
    ensures exists i :: 0 <= i < |events| && events[i].number == MaxNumber(events)
  {
    var n := |events| - 1;
    if n == 0 {
      assert events[0].number == MaxNumber(events);
    } else {
      var front := events[..n];
      MaxNumberIsMax(front);
      var j :| 0 <= j < |front| && front[j].number == MaxNumber(front);
      assert forall i :: 0 <= i < |front| ==> events[i] == front[i];
      var at := if MaxNumber(front) < events[n].number then n else j;
      assert events[at].number == MaxNumber(events);
    }
  }

  /** The batch and every event in it come from the publishing vehicle and one boot. */
  predicate Attributed(topicVehicle: string, b: Batch) {
    && 1 <= |b.events| <= BATCH_LIMIT
    && b.vehicleId == topicVehicle
    && forall i :: 0 <= i < |b.events| ==>
      b.events[i].vehicleId == topicVehicle && b.events[i].bootId == b.events[0].bootId
  }

  predicate UniqueKeys(edr: seq<Row>) {
    forall i, j :: 0 <= i < j < |edr| ==> edr[i].commandId != edr[j].commandId
  }

  lemma AppendNewFacts(edr: seq<Row>, e: Event)
    ensures var r := AppendNew(edr, e);
            && edr <= r && Has(r, EventKey(e))
            && (UniqueKeys(edr) ==> UniqueKeys(r))
            && forall key :: Has(r, key) <==> Has(edr, key) || key == EventKey(e)
  {
    var r := AppendNew(edr, e);
    if !Has(edr, EventKey(e)) {
      assert r[|edr|].commandId == EventKey(e);
      forall key ensures Has(r, key) <==> Has(edr, key) || key == EventKey(e) {
        if Has(edr, key) {
          var i :| 0 <= i < |edr| && edr[i].commandId == key;
          assert r[i].commandId == key;
        }
        if Has(r, key) && key != EventKey(e) {
          var i :| 0 <= i < |r| && r[i].commandId == key;
          assert edr[i].commandId == key;
        }
      }
    }
  }

  /** Some event has this key. */
  ghost predicate Names(events: seq<Event>, key: string) {
    exists e :: e in events && EventKey(e) == key
  }

  /** Ingesting appends only, keeps keys unique, and makes exactly the events' keys
      present beside the old ones. */
  lemma {:induction false} IngestFacts(edr: seq<Row>, events: seq<Event>)
    ensures var r := Ingest(edr, events);
            && edr <= r
            && (UniqueKeys(edr) ==> UniqueKeys(r))
            && forall key :: Has(r, key) <==> Has(edr, key) || Names(events, key)
  {
    if events != [] {
      var front, last := events[..|events| - 1], events[|events| - 1];
      IngestFacts(edr, front);
      AppendNewFacts(Ingest(edr, front), last);
      assert events == front + [last];
      forall key ensures Names(events, key) <==> Names(front, key) || key == EventKey(last) {
        if Names(events, key) {
          var e :| e in events && EventKey(e) == key;
          assert e in front || e == last;
        }
        if Names(front, key) {
          var e :| e in front && EventKey(e) == key;
          assert e in events;
        }
        assert last in events;
      }
    }
  }

  /** Events already evidenced add nothing. */
  lemma {:induction false} IngestKnown(edr: seq<Row>, events: seq<Event>)
    requires forall e :: e in events ==> Has(edr, EventKey(e))
    ensures Ingest(edr, events) == edr
  {
    if events != [] {
      var front := events[..|events| - 1];
      assert events == front + [events[|events| - 1]];
      IngestKnown(edr, front);
    }
  }

  /** Redelivery is idempotent: after a batch has been ingested, and whatever other
      batches follow, ingesting it again (or any part of it) changes nothing. */
  lemma RedeliveryAddsNothing(edr: seq<Row>, events: seq<Event>, others: seq<Event>, part: seq<Event>)
    requires forall e :: e in part ==> e in events
    ensures Ingest(Ingest(Ingest(edr, events), others), part) == Ingest(Ingest(edr, events), others)
  {
    var r := Ingest(edr, events);
    IngestFacts(edr, events);
    IngestFacts(r, others);
    forall e | e in part ensures Has(Ingest(r, others), EventKey(e)) {
      assert Has(r, EventKey(e));
    }
    IngestKnown(Ingest(r, others), part);
  }

  /** Row `i` records an event of this vehicle and boot under that event's key. */
  predicate Records(edr: seq<Row>, i: nat, vehicleId: string, bootId: string, events: seq<Event>) {
    && i < |edr| && edr[i].event in events && edr[i].commandId == EventKey(edr[i].event)
    && edr[i].event.vehicleId == vehicleId && edr[i].event.bootId == bootId
  }

  /** Whatever a vehicle publishes, an accepted batch adds rows of that vehicle and of one
      boot only, each an event of the batch under its own key. */
  lemma {:induction false} AddsOnlyOwnRows(topicVehicle: string, b: Batch, edr: seq<Row>, n: nat, i: nat)
    requires Attributed(topicVehicle, b) && n <= |b.events| && |edr| <= i < |Ingest(edr, b.events[..n])|
    ensures Records(Ingest(edr, b.events[..n]), i, topicVehicle, b.events[0].bootId, b.events)
  {
    if n > 0 {
      var front := b.events[..n - 1];
      assert b.events[..n][..n - 1] == front && b.events[..n][n - 1] == b.events[n - 1];
      var before := Ingest(edr, front);
      if i < |before| { AddsOnlyOwnRows(topicVehicle, b, edr, n - 1, i); }
    }
  }

  function IngestAll(edr: seq<Row>, batches: seq<seq<Event>>): seq<Row> {
    if batches == [] then edr else Ingest(IngestAll(edr, batches[..|batches| - 1]), batches[|batches| - 1])
  }

  /** Any sequence of overlapping, redelivered and partially written batches, with
      serialised handlers, leaves exactly one row for every event identity in it. */
  lemma {:induction false} OneRowPerIdentity(batches: seq<seq<Event>>)
    ensures UniqueKeys(IngestAll([], batches))
    ensures forall key :: Has(IngestAll([], batches), key) <==>
              exists b :: b in batches && Names(b, key)
  {
    var r := IngestAll([], batches);
    if batches != [] {
      var front, last := batches[..|batches| - 1], batches[|batches| - 1];
      OneRowPerIdentity(front);
      IngestFacts(IngestAll([], front), last);
      assert batches == front + [last];
      forall key ensures Has(r, key) <==> exists b :: b in batches && Names(b, key) {
        if exists b :: b in batches && Names(b, key) {
          var b :| b in batches && Names(b, key);
          assert b in front || b == last;
        }
        if exists b :: b in front && Names(b, key) {
          var b :| b in front && Names(b, key);
          assert b in batches;
        }
        assert last in batches;
      }
    }
  }

  // ------------------------------------------------------------------
  // Latch transitions from heartbeats
  // ------------------------------------------------------------------

  datatype LatchRow = LatchRow(vehicleId: string, engaged: bool)

  /** The row a heartbeat adds: on a change, or when first seen already latched. */
  predicate IsTransition(last: map<string, bool>, vehicleId: string, latched: bool) {
    if vehicleId in last then last[vehicleId] != latched else latched
  }

  /** A vehicle's rows alternate, starting with ENGAGED. */
  predicate Alternates(rows: seq<LatchRow>, vehicleId: string) {
    rows == [] ||
    var front, row := rows[..|rows| - 1], rows[|rows| - 1];
    Alternates(front, vehicleId) && (row.vehicleId == vehicleId ==> row.engaged != LastEngaged(front, vehicleId))
  }

  function LastEngaged(rows: seq<LatchRow>, vehicleId: string): bool {
    if rows == [] then false
    else if rows[|rows| - 1].vehicleId == vehicleId then rows[|rows| - 1].engaged
    else LastEngaged(rows[..|rows| - 1], vehicleId)
  }

  /** The rows alternate for every vehicle and end on the state last heard. */
  ghost predicate LatchTrail(rows: seq<LatchRow>, last: map<string, bool>) {
    forall v :: Alternates(rows, v) && LastEngaged(rows, v) == (if v in last then last[v] else false)
  }

  lemma LatchTrailKept(rows: seq<LatchRow>, last: map<string, bool>, vehicleId: string, latched: bool)
    requires LatchTrail(rows, last)
    ensures LatchTrail(if IsTransition(last, vehicleId, latched) then rows + [LatchRow(vehicleId, latched)] else rows,
                       last[vehicleId := latched])
  {
    var more := if IsTransition(last, vehicleId, latched) then rows + [LatchRow(vehicleId, latched)] else rows;
    var after := last[vehicleId := latched];
    forall v ensures Alternates(more, v) && LastEngaged(more, v) == (if v in after then after[v] else false) {
      assert Alternates(rows, v) && LastEngaged(rows, v) == (if v in last then last[v] else false);
      if IsTransition(last, vehicleId, latched) {
        assert more[..|more| - 1] == rows && more[|more| - 1] == LatchRow(vehicleId, latched);
      }
    }
  }

  // ------------------------------------------------------------------
  // The service
  // ------------------------------------------------------------------

  class MqttService {
    var edr: seq<Row>
    var latchRows: seq<LatchRow>
    var lastLatch: map<string, bool>

    ghost predicate Valid()
      reads this
    {
      UniqueKeys(edr) && LatchTrail(latchRows, lastLatch)
    }

    constructor ()
      ensures Valid() && edr == [] && latchRows == []
    {
      edr, latchRows, lastLatch := [], [], map[];
    }

    /** One batch, handled to completion.  `failsAt` is the event at which the
        database throws (past the end: never); what was written stays, no ack goes
        out.  `None` is a batch the schema refuses. */
    method RecordEdgeLogBatch(topicVehicle: string, parsed: Option<Batch>, failsAt: nat) returns (ack: Option<SyncAck>)
      requires Valid()
      modifies this`edr
      ensures Valid()
      ensures parsed.None? || !Attributed(topicVehicle, parsed.value) ==> edr == old(edr) && ack == None
      ensures parsed.Some? && Attributed(topicVehicle, parsed.value) ==>
                var events := parsed.value.events;
                if failsAt < |events| then edr == Ingest(old(edr), events[..failsAt]) && ack == None
                else edr == Ingest(old(edr), events)
                     && ack == Some(SyncAck(topicVehicle, events[0].bootId, MaxNumber(events)))
    {
      ack := None;
      if parsed.None? || !Attributed(topicVehicle, parsed.value) { return; }
      var events := parsed.value.events;
      var i := 0;
      while i < |events|
        invariant 0 <= i <= |events| && i <= failsAt
        invariant edr == Ingest(old(edr), events[..i])
        invariant UniqueKeys(edr)
      {
        if i == failsAt { return; }
        assert events[..i + 1][..i] == events[..i];
        AppendNewFacts(edr, events[i]);
        var key := EventKey(events[i]);
        if !Has(edr, key) {
          edr := edr + [Row(key, events[i])];
        }
        i := i + 1;
      }
      assert events[..|events|] == events;
      ack := Some(SyncAck(parsed.value.vehicleId, events[0].bootId, MaxNumber(events)));
    }

    /** One heartbeat's latch flag. */
    method RecordLatchTransition(topicVehicle: string, vehicleId: string, latched: bool)
      requires Valid()
      modifies this`lastLatch, this`latchRows
      ensures Valid()
      ensures vehicleId != topicVehicle ==> lastLatch == old(lastLatch) && latchRows == old(latchRows)
      ensures vehicleId == topicVehicle ==>
                && LastEngaged(latchRows, vehicleId) == latched
                && latchRows == old(latchRows) + (if IsTransition(old(lastLatch), vehicleId, latched)
                                                  then [LatchRow(vehicleId, latched)] else [])
    {
      if vehicleId != topicVehicle { return; }
      LatchTrailKept(latchRows, lastLatch, vehicleId, latched);
      var known := vehicleId in lastLatch;
      var prev := if known then lastLatch[vehicleId] else false;
      lastLatch := lastLatch[vehicleId := latched];
      if (known && prev == latched) || (!known && !latched) { return; }
      latchRows := latchRows + [LatchRow(vehicleId, latched)];
    }
  }
}
