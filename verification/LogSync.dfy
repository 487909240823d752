/** The lossless log-sync handshake as a distributed protocol: the vehicle's bounded
    buffer, a channel that may lose, duplicate and reorder batches and acks,
    interleaved cloud handlers that may die at any write, and vehicle reboots. */
module LogSync {
  import opened Wrappers
  import opened VehicleLog
  import opened EdgeLogIngest

  /** A running handler: events below `done` are evidenced; `creating` means the
      lookup for the next one came back empty, when there were `lookedAt` rows, and its
      own row is about to be written. */
  datatype Handler = Handler(batch: Batch, done: nat, creating: bool, lookedAt: nat)

  /** `sent` and `acks` are everything ever published: the channel may deliver any
      of it at any time, any number of times, or never.  `history` (every event
      recorded, per boot), `trimmed` and `evicted` are bookkeeping for the claims. */
  datatype Sys = Sys(
    vehicle: string,
    log: Log,
    history: map<string, seq<Event>>,
    trimmed: nat,
    evicted: set<nat>,
    sent: set<Batch>,
    acks: set<SyncAck>,
    handlers: map<nat, Handler>,
    edr: seq<Row>)

  function Start(vehicle: string, bootId: string): Sys {
    Sys(vehicle, Log(bootId, 0, [], 0), map[bootId := []], 0, {}, {}, {}, map[], [])
  }

  datatype Step =
    | Record(now: nat, kind: EventKind)
    | Upload
    | Deliver(batch: Batch, id: nat)
    | Find(id: nat)
    | Create(id: nat)
    | Die(id: nat)
    | Finish(id: nat)
    | AckArrives(ack: SyncAck)
    | Reboot(bootId: string)
    | OtherRow(row: Row)
    | OtherAck(ack: SyncAck)

  predicate Enabled(s: Sys, st: Step) {
    match st
    case Record(_, _) => true
    case Upload => s.log.unsynced != []
    case Deliver(b, id) => b in s.sent && id !in s.handlers
    case Find(id) => id in s.handlers && s.handlers[id].done < |s.handlers[id].batch.events| && !s.handlers[id].creating
    case Create(id) => id in s.handlers && s.handlers[id].done < |s.handlers[id].batch.events| && s.handlers[id].creating
    case Die(id) => id in s.handlers
    case Finish(id) => id in s.handlers && s.handlers[id].done == |s.handlers[id].batch.events| && s.handlers[id].batch.events != []
    case AckArrives(a) => a in s.acks
    case Reboot(b) => b !in s.history && HyphenFree(b)
    case OtherRow(r) => r.event.vehicleId != s.vehicle && HyphenFree(r.event.bootId) && r.commandId == EventKey(r.event)
    case OtherAck(a) => a.vehicleId != s.vehicle
  }

  function Do(s: Sys, st: Step): Sys
    requires Enabled(s, st)
  {
    match st
    case Record(now, kind) => DoRecord(s, now, kind)
    case Upload => s.(sent := s.sent + {Batch(s.vehicle, NextBatch(s.log.unsynced))})
    case Deliver(b, id) => s.(handlers := s.handlers[id := Handler(b, 0, false, 0)])
    case Find(id) => DoFind(s, id)
    case Create(id) => DoCreate(s, id)
    case Die(id) => s.(handlers := s.handlers - {id})
    case Finish(id) => DoFinish(s, id)
    case AckArrives(a) => DoAck(s, a)
    case Reboot(b) => s.(log := Log(b, 0, [], 0), history := s.history[b := []], trimmed := 0, evicted := {})
    case OtherRow(r) => s.(edr := s.edr + [r])
    case OtherAck(a) => s.(acks := s.acks + {a})
  }

  function DoRecord(s: Sys, now: nat, kind: EventKind): Sys {
    var ev := Event(s.vehicle, s.log.bootId, s.log.last + 1, now, kind);
    var recorded := if s.log.bootId in s.history then s.history[s.log.bootId] else [];
    s.(log := Append(s.log, s.vehicle, now, kind),
       history := s.history[s.log.bootId := recorded + [ev]],
       evicted := if |s.log.unsynced| >= EVENT_LOG_CAP then s.evicted + {s.log.unsynced[0].number} else s.evicted)
  }

  function DoFind(s: Sys, id: nat): Sys
    requires Enabled(s, Find(id))
  {
    var h := s.handlers[id];
    s.(handlers := s.handlers[id :=
         if Has(s.edr, EventKey(h.batch.events[h.done])) then h.(done := h.done + 1) else h.(creating := true, lookedAt := |s.edr|)])
  }

  function DoCreate(s: Sys, id: nat): Sys
    requires Enabled(s, Create(id))
  {
    var h := s.handlers[id];
    var e := h.batch.events[h.done];
    s.(edr := s.edr + [Row(EventKey(e), e)],
       handlers := s.handlers[id := h.(done := h.done + 1, creating := false)])
  }

  function DoFinish(s: Sys, id: nat): Sys
    requires Enabled(s, Finish(id))
  {
    var b := s.handlers[id].batch;
    s.(acks := s.acks + {SyncAck(b.vehicleId, b.events[0].bootId, MaxNumber(b.events))},
       handlers := s.handlers - {id})
  }

  function DoAck(s: Sys, a: SyncAck): Sys {
    if a.vehicleId != s.vehicle || a.bootId != s.log.bootId then s
    else
      var kept := Trim(s.log.unsynced, a.upTo);
      s.(log := s.log.(unsynced := kept), trimmed := s.trimmed + (|s.log.unsynced| - |kept|))
  }

  // ------------------------------------------------------------------
  // The invariant
  // ------------------------------------------------------------------

  predicate InEdr(edr: seq<Row>, e: Event) {
    exists i :: 0 <= i < |edr| && edr[i].event == e
  }

  /** Number of events of this boot that have left the buffer. */
  function Front(s: Sys): int { s.log.last - |s.log.unsynced| }

  ghost predicate HistoryOk(s: Sys) {
    && s.log.bootId in s.history && |s.history[s.log.bootId]| == s.log.last
    && (forall b :: b in s.history ==> HyphenFree(b))
    && (forall b, i :: b in s.history && 0 <= i < |s.history[b]| ==>
          s.history[b][i].number == i + 1 && s.history[b][i].bootId == b && s.history[b][i].vehicleId == s.vehicle)
  }

  ghost predicate BufferOk(s: Sys)
    requires HistoryOk(s)
  {
    && 0 <= Front(s)
    && s.log.unsynced == s.history[s.log.bootId][Front(s)..]
    && s.log.last == s.trimmed + |s.log.unsynced| + s.log.dropped
    && |s.evicted| == s.log.dropped
    && forall n :: n in s.evicted ==> 1 <= n <= Front(s)
  }

  /** The event is one this vehicle really recorded. */
  ghost predicate Genuine(s: Sys, e: Event) {
    && e.vehicleId == s.vehicle && e.bootId in s.history
    && 1 <= e.number <= |s.history[e.bootId]|
    && e == s.history[e.bootId][e.number - 1]
  }

  /** A slice of one boot's history; of the current boot, starting no later than the
      buffer does now. */
  ghost predicate BatchOk(s: Sys, b: Batch) {
    && b.vehicleId == s.vehicle && 1 <= |b.events| <= BATCH_LIMIT
    && (forall i :: 0 <= i < |b.events| ==>
          Genuine(s, b.events[i]) && b.events[i].bootId == b.events[0].bootId
          && b.events[i].number == b.events[0].number + i)
    && (b.events[0].bootId == s.log.bootId ==> b.events[0].number <= Front(s) + 1)
  }

  ghost predicate HandlerOk(s: Sys, h: Handler) {
    && h.batch in s.sent && h.done <= |h.batch.events|
    && (h.creating ==> h.done < |h.batch.events|)
    && forall i :: 0 <= i < h.done ==> InEdr(s.edr, h.batch.events[i])
  }

  ghost predicate RowOk(s: Sys, r: Row) {
    && r.commandId == EventKey(r.event) && HyphenFree(r.event.bootId)
    && (r.event.vehicleId == s.vehicle ==> Genuine(s, r.event))
  }

  /** An ack for the current boot confirms only evidenced events. */
  ghost predicate AckOk(s: Sys, a: SyncAck)
    requires HistoryOk(s)
  {
    && (a.vehicleId == s.vehicle ==> a.bootId in s.history)
    && (a.vehicleId == s.vehicle && a.bootId == s.log.bootId ==>
         && a.upTo <= s.log.last
         && forall i :: 0 <= Front(s) <= i < a.upTo ==> InEdr(s.edr, s.history[s.log.bootId][i]))
  }

  /** Everything that has left the buffer is evidenced or counted as evicted. */
  ghost predicate GoneOk(s: Sys)
    requires HistoryOk(s)
  {
    forall i :: 0 <= i < Front(s) ==>
      i + 1 in s.evicted || InEdr(s.edr, s.history[s.log.bootId][i])
  }

  ghost predicate Inv(s: Sys) {
    && HistoryOk(s) && BufferOk(s) && GoneOk(s)
    && (forall b :: b in s.sent ==> BatchOk(s, b))
    && (forall a :: a in s.acks ==> AckOk(s, a))
    && (forall id :: id in s.handlers ==> HandlerOk(s, s.handlers[id]))
    && (forall i :: 0 <= i < |s.edr| ==> RowOk(s, s.edr[i]))
  }

  lemma StartInv(vehicle: string, bootId: string)
    requires HyphenFree(bootId)
    ensures Inv(Start(vehicle, bootId))
  {
  }

  // ---- frames: what growing the evidence or the history preserves ----

  lemma InEdrGrows(edr: seq<Row>, more: seq<Row>, e: Event)
    requires InEdr(edr, e)
    ensures InEdr(edr + more, e)
  {
    var i :| 0 <= i < |edr| && edr[i].event == e;
    assert (edr + more)[i].event == e;
  }

  lemma GenuineStays(s: Sys, t: Sys, e: Event)
    requires Genuine(s, e) && t.vehicle == s.vehicle
    requires forall b :: b in s.history ==> b in t.history && s.history[b] <= t.history[b]
    ensures Genuine(t, e)
  {
  }

  // ---- one lemma per kind of step ----

  lemma {:induction false} RecordKeeps(s: Sys, now: nat, kind: EventKind)
    requires Inv(s)
    ensures Inv(DoRecord(s, now, kind))
  {
    var t := DoRecord(s, now, kind);
    var boot := s.log.bootId;
    RecordBuffer(s, now, kind);
    assert forall b :: b in s.history ==> b in t.history && s.history[b] <= t.history[b];
    forall b | b in t.sent ensures BatchOk(t, b) {
      forall i | 0 <= i < |b.events| ensures Genuine(t, b.events[i]) { GenuineStays(s, t, b.events[i]); }
    }
    forall i | 0 <= i < |t.edr| ensures RowOk(t, t.edr[i]) {
      if t.edr[i].event.vehicleId == s.vehicle { GenuineStays(s, t, t.edr[i].event); }
    }
    forall a | a in t.acks ensures AckOk(t, a) { RecordAck(s, now, kind, a); }
    forall id | id in t.handlers ensures HandlerOk(t, t.handlers[id]) { assert HandlerOk(s, s.handlers[id]); }
  }

  /** Acks of the current boot never name the future, so a new event is not confirmed by one. */
  lemma RecordAck(s: Sys, now: nat, kind: EventKind, a: SyncAck)
    requires Inv(s) && a in s.acks && HistoryOk(DoRecord(s, now, kind))
    requires Front(s) <= Front(DoRecord(s, now, kind))
    ensures AckOk(DoRecord(s, now, kind), a)
  {
  }

  lemma RecordBuffer(s: Sys, now: nat, kind: EventKind)
    requires Inv(s)
    ensures var t := DoRecord(s, now, kind);
            HistoryOk(t) && BufferOk(t) && GoneOk(t) && Front(s) <= Front(t)
  {
    RecordHistory(s, now, kind);
    var t := DoRecord(s, now, kind);
    var h := s.history[s.log.bootId];
    if |s.log.unsynced| >= EVENT_LOG_CAP {
      assert s.log.unsynced[0] == h[Front(s)];
      assert t.evicted == s.evicted + {Front(s) + 1};
    }
  }

  lemma RecordHistory(s: Sys, now: nat, kind: EventKind)
    requires HistoryOk(s)
    ensures var t := DoRecord(s, now, kind);
            && HistoryOk(t)
            && t.history[t.log.bootId] == s.history[s.log.bootId] + [Event(s.vehicle, s.log.bootId, s.log.last + 1, now, kind)]
  {
  }

  /** Events published as one batch: a slice of the current boot's history. */
  lemma UploadKeeps(s: Sys)
    requires Inv(s) && s.log.unsynced != []
    ensures Inv(Do(s, Upload))
  {
    var t := Do(s, Upload);
    var b := Batch(s.vehicle, NextBatch(s.log.unsynced));
    var h := s.history[s.log.bootId];
    forall i | 0 <= i < |b.events|
      ensures Genuine(s, b.events[i]) && b.events[i].bootId == s.log.bootId && b.events[i].number == Front(s) + 1 + i
    {
      assert b.events[i] == s.log.unsynced[i] == h[Front(s) + i];
    }
    assert BatchOk(s, b);
    forall x | x in t.sent ensures BatchOk(t, x) { assert BatchOk(s, x); }
    forall id | id in t.handlers ensures HandlerOk(t, t.handlers[id]) { assert HandlerOk(s, s.handlers[id]); }
    forall a | a in t.acks ensures AckOk(t, a) { assert AckOk(s, a); }
    forall i | 0 <= i < |t.edr| ensures RowOk(t, t.edr[i]) { assert RowOk(s, s.edr[i]); }
  }

  /** A key found in the evidence is the very event: the key is injective on
      hyphen-free boots, and a vehicle's rows are events it recorded. */
  lemma FoundIsEvidenced(s: Sys, e: Event)
    requires Inv(s) && Genuine(s, e) && Has(s.edr, EventKey(e))
    ensures InEdr(s.edr, e)
  {
    var i :| 0 <= i < |s.edr| && s.edr[i].commandId == EventKey(e);
    var r := s.edr[i];
    assert RowOk(s, r);
    assert HyphenFree(e.bootId);
    VlogKeyInjective(r.event.vehicleId, r.event.bootId, r.event.number, e.vehicleId, e.bootId, e.number);
    assert r.event == e;
  }

  lemma FindKeeps(s: Sys, id: nat)
    requires Inv(s) && Enabled(s, Find(id))
    ensures Inv(DoFind(s, id))
  {
    var t := DoFind(s, id);
    var h := s.handlers[id];
    var e := h.batch.events[h.done];
    assert HandlerOk(s, h) && BatchOk(s, h.batch) && Genuine(s, e);
    if Has(s.edr, EventKey(e)) { FoundIsEvidenced(s, e); }
    SameButHandlers(s, t);
    forall x | x in t.handlers ensures HandlerOk(t, t.handlers[x]) {
      if x != id { assert HandlerOk(s, s.handlers[x]); }
    }
  }

  /** The handler table is no part of the other clauses. */
  lemma SameButHandlers(s: Sys, t: Sys)
    requires Inv(s) && t == s.(handlers := t.handlers)
    ensures HistoryOk(t) && BufferOk(t) && GoneOk(t)
    ensures forall b :: b in t.sent ==> BatchOk(t, b)
    ensures forall a :: a in t.acks ==> AckOk(t, a)
    ensures forall i :: 0 <= i < |t.edr| ==> RowOk(t, t.edr[i])
  {
  }

  /** More rows keep every clause about evidence. */
  lemma RowAdded(s: Sys, r: Row)
    requires Inv(s) && RowOk(s, r)
    ensures Inv(s.(edr := s.edr + [r]))
  {
    var t := s.(edr := s.edr + [r]);
    forall i | 0 <= i < Front(t)
      ensures i + 1 in t.evicted || InEdr(t.edr, t.history[t.log.bootId][i])
    {
      if i + 1 !in s.evicted { InEdrGrows(s.edr, [r], s.history[s.log.bootId][i]); }
    }
    forall b | b in t.sent ensures BatchOk(t, b) { assert BatchOk(s, b); }
    forall a | a in t.acks ensures AckOk(t, a) {
      assert AckOk(s, a);
      if a.vehicleId == s.vehicle && a.bootId == s.log.bootId {
        forall i | Front(s) <= i < a.upTo ensures InEdr(t.edr, s.history[s.log.bootId][i]) {
          InEdrGrows(s.edr, [r], s.history[s.log.bootId][i]);
        }
      }
    }
    forall id | id in t.handlers ensures HandlerOk(t, t.handlers[id]) {
      var h := s.handlers[id];
      assert HandlerOk(s, h);
      forall i | 0 <= i < h.done ensures InEdr(t.edr, h.batch.events[i]) { InEdrGrows(s.edr, [r], h.batch.events[i]); }
    }
    forall i | 0 <= i < |t.edr| ensures RowOk(t, t.edr[i]) {
      if i < |s.edr| { assert RowOk(s, s.edr[i]); }
    }
  }

  lemma CreateKeeps(s: Sys, id: nat)
    requires Inv(s) && Enabled(s, Create(id))
    ensures Inv(DoCreate(s, id))
  {
    var t := DoCreate(s, id);
    var h := s.handlers[id];
    var e := h.batch.events[h.done];
    assert HandlerOk(s, h) && BatchOk(s, h.batch) && Genuine(s, e);
    assert HyphenFree(e.bootId);
    RowAdded(s, Row(EventKey(e), e));
    var u := s.(edr := s.edr + [Row(EventKey(e), e)]);
    SameButHandlers(u, t);
    assert InEdr(t.edr, e) by { assert t.edr[|s.edr|].event == e; }
    forall x | x in t.handlers ensures HandlerOk(t, t.handlers[x]) {
      assert HandlerOk(u, u.handlers[x]);
    }
  }

  lemma {:induction false} SliceMax(events: seq<Event>)
    requires events != [] && forall i :: 0 <= i < |events| ==> events[i].number == events[0].number + i
    ensures MaxNumber(events) == events[|events| - 1].number
  {
    if |events| > 1 { SliceMax(events[..|events| - 1]); }
  }

  lemma FinishKeeps(s: Sys, id: nat)
    requires Inv(s) && Enabled(s, Finish(id))
    ensures Inv(DoFinish(s, id))
  {
    var t := DoFinish(s, id);
    var h := s.handlers[id];
    var b := h.batch;
    assert HandlerOk(s, h) && BatchOk(s, b);
    SliceMax(b.events);
    var a := SyncAck(b.vehicleId, b.events[0].bootId, MaxNumber(b.events));
    assert Genuine(s, b.events[0]) && Genuine(s, b.events[|b.events| - 1]);
    assert AckOk(s, a) by {
      if a.bootId == s.log.bootId {
        forall k | Front(s) <= k < a.upTo
          ensures InEdr(s.edr, s.history[s.log.bootId][k])
        {
          var i := k + 1 - b.events[0].number;
          assert Genuine(s, b.events[i]) && InEdr(s.edr, b.events[i]);
        }
      }
    }
    SameButHandlers(s, s.(handlers := t.handlers));
    forall x | x in t.acks ensures AckOk(t, x) { assert AckOk(s, x); }
    forall x | x in t.sent ensures BatchOk(t, x) { assert BatchOk(s, x); }
    forall x | x in t.handlers ensures HandlerOk(t, t.handlers[x]) { assert HandlerOk(s, s.handlers[x]); }
    forall i | 0 <= i < |t.edr| ensures RowOk(t, t.edr[i]) { assert RowOk(s, s.edr[i]); }
  }

  /** How much an ack trims: a prefix of the buffer, all of it confirmed. */
  lemma AckTrims(s: Sys, a: SyncAck)
    requires Inv(s) && a in s.acks && a.vehicleId == s.vehicle && a.bootId == s.log.bootId
    ensures var t := DoAck(s, a);
            && Front(s) <= Front(t) <= s.log.last
            && t.log.unsynced == s.log.unsynced[Front(t) - Front(s)..]
            && Front(t) == (if a.upTo <= Front(s) then Front(s) else a.upTo)
  {
    assert AckOk(s, a);
    TrimIsFilter(s.log.unsynced, Front(s) + 1, a.upTo);
  }

  lemma AckKeeps(s: Sys, a: SyncAck)
    requires Inv(s) && a in s.acks
    ensures Inv(DoAck(s, a))
  {
    var t := DoAck(s, a);
    if a.vehicleId == s.vehicle && a.bootId == s.log.bootId {
      AckTrims(s, a);
      assert AckOk(s, a);
      var h := s.history[s.log.bootId];
      assert t.log.unsynced == h[Front(t)..];
      assert BufferOk(t);
      forall b | b in t.sent ensures BatchOk(t, b) { assert BatchOk(s, b); }
      forall x | x in t.acks ensures AckOk(t, x) { assert AckOk(s, x); }
      forall id | id in t.handlers ensures HandlerOk(t, t.handlers[id]) { assert HandlerOk(s, s.handlers[id]); }
      forall i | 0 <= i < |t.edr| ensures RowOk(t, t.edr[i]) { assert RowOk(s, s.edr[i]); }
    }
  }

  /** A fresh boot id makes every old batch and ack harmless. */
  lemma RebootKeeps(s: Sys, bootId: string)
    requires Inv(s) && Enabled(s, Reboot(bootId))
    ensures Inv(Do(s, Reboot(bootId)))
  {
    var t := Do(s, Reboot(bootId));
    assert forall b :: b in s.history ==> b in t.history && s.history[b] <= t.history[b];
    forall b | b in t.sent ensures BatchOk(t, b) {
      assert BatchOk(s, b) && Genuine(s, b.events[0]);
      forall i | 0 <= i < |b.events| ensures Genuine(t, b.events[i]) { GenuineStays(s, t, b.events[i]); }
    }
    forall a | a in t.acks ensures AckOk(t, a) { assert AckOk(s, a); }
    forall id | id in t.handlers ensures HandlerOk(t, t.handlers[id]) { assert HandlerOk(s, s.handlers[id]); }
    forall i | 0 <= i < |t.edr| ensures RowOk(t, t.edr[i]) {
      assert RowOk(s, s.edr[i]);
      if t.edr[i].event.vehicleId == s.vehicle { GenuineStays(s, t, t.edr[i].event); }
    }
  }

  lemma HandlersKeep(s: Sys, st: Step)
    requires Inv(s) && Enabled(s, st) && (st.Deliver? || st.Die?)
    ensures Inv(Do(s, st))
  {
    var t := Do(s, st);
    SameButHandlers(s, t);
    forall x | x in t.handlers ensures HandlerOk(t, t.handlers[x]) {
      if x in s.handlers { assert HandlerOk(s, s.handlers[x]); }
    }
  }

  lemma OtherAckKeeps(s: Sys, a: SyncAck)
    requires Inv(s) && a.vehicleId != s.vehicle
    ensures Inv(Do(s, OtherAck(a)))
  {
  }

  lemma {:induction false} StepKeeps(s: Sys, st: Step)
    requires Inv(s) && Enabled(s, st)
    ensures Inv(Do(s, st)) && Do(s, st).vehicle == s.vehicle
  {
    match st
    case Record(now, kind) => RecordKeeps(s, now, kind);
    case Upload => UploadKeeps(s);
    case Deliver(_, _) => HandlersKeep(s, st);
    case Find(id) => FindKeeps(s, id);
    case Create(id) => CreateKeeps(s, id);
    case Die(_) => HandlersKeep(s, st);
    case Finish(id) => FinishKeeps(s, id);
    case AckArrives(a) => AckKeeps(s, a);
    case Reboot(b) => RebootKeeps(s, b);
    case OtherRow(r) => RowAdded(s, r);
    case OtherAck(a) => OtherAckKeeps(s, a);
  }

  // ------------------------------------------------------------------
  // Runs
  // ------------------------------------------------------------------

  predicate Possible(s: Sys, steps: seq<Step>)
    decreases |steps|
  {
    steps == [] || (Enabled(s, steps[0]) && Possible(Do(s, steps[0]), steps[1..]))
  }

  function After(s: Sys, steps: seq<Step>): Sys
    requires Possible(s, steps)
    decreases |steps|
  {
    if steps == [] then s else After(Do(s, steps[0]), steps[1..])
  }

  lemma {:induction false} RunKeeps(s: Sys, steps: seq<Step>)
    requires Inv(s) && Possible(s, steps)
    ensures Inv(After(s, steps))
    decreases |steps|
  {
    if steps != [] {
      StepKeeps(s, steps[0]);
      RunKeeps(Do(s, steps[0]), steps[1..]);
    }
  }

  /** Where the current boot's events are: buffered, evidenced or evicted. */
  lemma Accounted(s: Sys)
    requires Inv(s)
    ensures forall e :: e in s.history[s.log.bootId] ==>
              e in s.log.unsynced || InEdr(s.edr, e) || e.number in s.evicted
  {
  }

  /** Lossless sync.  After any run of recordings, uploads, losses, duplications,
      reorderings, interleaved and dying handlers and reboots: every event of the
      current boot is still buffered, or in the evidence store, or one of the counted
      evictions; and the counts balance. */
  lemma Lossless(vehicle: string, bootId: string, steps: seq<Step>)
    requires HyphenFree(bootId) && Possible(Start(vehicle, bootId), steps)
    ensures var s := After(Start(vehicle, bootId), steps);
            && s.log.bootId in s.history && |s.history[s.log.bootId]| == s.log.last
            && s.log.last == s.trimmed + |s.log.unsynced| + s.log.dropped
            && |s.evicted| == s.log.dropped
            && forall e :: e in s.history[s.log.bootId] ==>
                 e in s.log.unsynced || InEdr(s.edr, e) || e.number in s.evicted
  {
    StartInv(vehicle, bootId);
    RunKeeps(Start(vehicle, bootId), steps);
    Accounted(After(Start(vehicle, bootId), steps));
  }

  lemma InFront<T>(x: seq<T>, k: nat, e: T)
    requires k <= |x| && e in x && e !in x[k..]
    ensures exists i :: 0 <= i < k && x[i] == e
  {
  }

  /** Whatever the vehicle uploads passes the cloud's attribution check, so a delivery is
      never dropped for naming another vehicle or mixing boots. */
  lemma UploadsAreAttributed(s: Sys, b: Batch)
    requires Inv(s) && b in s.sent
    ensures Attributed(s.vehicle, b)
  {
    assert BatchOk(s, b);
  }

  /** An ack discards only what is in the evidence store. */
  lemma TrimmedIsEvidenced(s: Sys, a: SyncAck)
    requires Inv(s) && a in s.acks
    ensures forall e :: e in s.log.unsynced && e !in DoAck(s, a).log.unsynced ==> InEdr(s.edr, e)
  {
    if a.vehicleId == s.vehicle && a.bootId == s.log.bootId {
      AckTrims(s, a);
      assert AckOk(s, a);
      var t := DoAck(s, a);
      forall e | e in s.log.unsynced && e !in t.log.unsynced ensures InEdr(s.edr, e) {
        InFront(s.log.unsynced, Front(t) - Front(s), e);
        var i :| 0 <= i < Front(t) - Front(s) && s.log.unsynced[i] == e;
        assert e == s.history[s.log.bootId][Front(s) + i];
      }
    }
  }
}
