/** What the log-sync handshake achieves over runs: a handler left alone is the
    ingestion loop, clean rounds drain the buffer, serialised handlers evidence every
    event exactly once, and overlapping ones may not. */
module LogSyncRuns {
  import opened Wrappers
  import opened VehicleLog
  import opened EdgeLogIngest
  import opened LogSync

  lemma {:induction false} RunsCompose(s: Sys, first: seq<Step>, second: seq<Step>)
    requires Possible(s, first) && Possible(After(s, first), second)
    ensures Possible(s, first + second) && After(s, first + second) == After(After(s, first), second)
    decreases |first|
  {
    if first == [] {
      assert first + second == second;
    } else {
      RunsCompose(Do(s, first[0]), first[1..], second);
      assert (first + second)[1..] == first[1..] + second;
    }
  }

  lemma OneMore(s: Sys, steps: seq<Step>, st: Step)
    requires Possible(s, steps) && Enabled(After(s, steps), st)
    ensures Possible(s, steps + [st]) && After(s, steps + [st]) == Do(After(s, steps), st)
  {
    var t := After(s, steps);
    assert [st][1..] == [];
    assert Possible(t, [st]) && After(t, [st]) == Do(t, st);
    RunsCompose(s, steps, [st]);
  }

  /** `states` are the states a run passes through. */
  predicate Linked(states: seq<Sys>, steps: seq<Step>) {
    && |states| == |steps| + 1
    && forall i :: 0 <= i < |steps| ==> Enabled(states[i], steps[i]) && Do(states[i], steps[i]) == states[i + 1]
  }

  lemma {:induction false} LinkedRuns(states: seq<Sys>, steps: seq<Step>)
    requires Linked(states, steps)
    ensures Possible(states[0], steps) && After(states[0], steps) == states[|steps|]
    decreases |steps|
  {
    if steps != [] {
      assert Enabled(states[0], steps[0]) && Do(states[0], steps[0]) == states[1];
      assert Linked(states[1..], steps[1..]);
      LinkedRuns(states[1..], steps[1..]);
    }
  }

  // ------------------------------------------------------------------
  // A handler left alone
  // ------------------------------------------------------------------

  predicate Runnable(s: Sys, id: nat) {
    && id in s.handlers && !s.handlers[id].creating
    && s.handlers[id].done <= |s.handlers[id].batch.events| && s.handlers[id].batch.events != []
  }

  /** The handler's remaining steps, with nothing in between. */
  function HandlerSteps(s: Sys, id: nat): seq<Step>
    requires Runnable(s, id)
    decreases |s.handlers[id].batch.events| - s.handlers[id].done
  {
    var h := s.handlers[id];
    if h.done == |h.batch.events| then [Finish(id)]
    else if Has(s.edr, EventKey(h.batch.events[h.done])) then [Find(id)] + HandlerSteps(DoFind(s, id), id)
    else [Find(id), Create(id)] + HandlerSteps(DoCreate(DoFind(s, id), id), id)
  }

  lemma {:induction false} IngestFromFront(edr: seq<Row>, e: Event, rest: seq<Event>)
    ensures Ingest(edr, [e] + rest) == Ingest(AppendNew(edr, e), rest)
  {
    var all := [e] + rest;
    if rest == [] {
      assert all[..|all| - 1] == [] && Ingest(edr, []) == edr;
    } else {
      IngestFromFront(edr, e, rest[..|rest| - 1]);
      assert all[..|all| - 1] == [e] + rest[..|rest| - 1];
    }
  }

  /** What a finished handler leaves behind. */
  function Handled(s: Sys, id: nat): Sys
    requires Runnable(s, id)
  {
    var h := s.handlers[id];
    s.(edr := Ingest(s.edr, h.batch.events[h.done..]),
       acks := s.acks + {SyncAck(h.batch.vehicleId, h.batch.events[0].bootId, MaxNumber(h.batch.events))},
       handlers := s.handlers - {id})
  }

  /** A handler that nothing interrupts ingests the rest of its batch and acks it. */
  lemma {:induction false} HandlerRefinesIngest(s: Sys, id: nat)
    requires Runnable(s, id)
    ensures Possible(s, HandlerSteps(s, id)) && After(s, HandlerSteps(s, id)) == Handled(s, id)
    decreases |s.handlers[id].batch.events| - s.handlers[id].done
  {
    var h := s.handlers[id];
    var events := h.batch.events;
    var steps := HandlerSteps(s, id);
    if h.done == |events| {
      assert events[h.done..] == [] && steps[1..] == [];
      assert After(s, steps) == DoFinish(s, id);
    } else {
      var e := events[h.done];
      assert events[h.done..] == [e] + events[h.done + 1..];
      IngestFromFront(s.edr, e, events[h.done + 1..]);
      if Has(s.edr, EventKey(e)) {
        HandlerFound(s, id);
      } else {
        HandlerCreates(s, id);
      }
    }
  }

  lemma HandlerFound(s: Sys, id: nat)
    requires Runnable(s, id) && s.handlers[id].done < |s.handlers[id].batch.events|
    requires Has(s.edr, EventKey(s.handlers[id].batch.events[s.handlers[id].done]))
    requires var h := s.handlers[id];
             Ingest(s.edr, h.batch.events[h.done..]) == Ingest(s.edr, h.batch.events[h.done + 1..])
    ensures Possible(s, HandlerSteps(s, id)) && After(s, HandlerSteps(s, id)) == Handled(s, id)
    decreases |s.handlers[id].batch.events| - s.handlers[id].done, 0
  {
    var t := DoFind(s, id);
    HandlerRefinesIngest(t, id);
    assert HandlerSteps(s, id)[1..] == HandlerSteps(t, id);
    assert t.handlers - {id} == s.handlers - {id};
  }

  lemma HandlerCreates(s: Sys, id: nat)
    requires Runnable(s, id) && s.handlers[id].done < |s.handlers[id].batch.events|
    requires var h := s.handlers[id];
             && !Has(s.edr, EventKey(h.batch.events[h.done]))
             && Ingest(s.edr, h.batch.events[h.done..]) ==
                Ingest(AppendNew(s.edr, h.batch.events[h.done]), h.batch.events[h.done + 1..])
    ensures Possible(s, HandlerSteps(s, id)) && After(s, HandlerSteps(s, id)) == Handled(s, id)
    decreases |s.handlers[id].batch.events| - s.handlers[id].done, 0
  {
    var t := DoFind(s, id);
    var u := DoCreate(t, id);
    HandledAfterCreate(s, id);
    HandlerRefinesIngest(u, id);
    TwoMore(s, Find(id), Create(id), HandlerSteps(u, id));
  }

  lemma HandledAfterCreate(s: Sys, id: nat)
    requires Runnable(s, id) && s.handlers[id].done < |s.handlers[id].batch.events|
    requires var h := s.handlers[id];
             && !Has(s.edr, EventKey(h.batch.events[h.done]))
             && Ingest(s.edr, h.batch.events[h.done..]) ==
                Ingest(AppendNew(s.edr, h.batch.events[h.done]), h.batch.events[h.done + 1..])
    ensures Enabled(s, Find(id)) && Enabled(DoFind(s, id), Create(id)) && Runnable(DoCreate(DoFind(s, id), id), id)
    ensures Handled(DoCreate(DoFind(s, id), id), id) == Handled(s, id)
    ensures HandlerSteps(s, id) == [Find(id), Create(id)] + HandlerSteps(DoCreate(DoFind(s, id), id), id)
  {
    var u := DoCreate(DoFind(s, id), id);
    assert u.handlers - {id} == s.handlers - {id};
  }

  lemma TwoMore(s: Sys, a: Step, b: Step, rest: seq<Step>)
    requires Enabled(s, a) && Enabled(Do(s, a), b) && Possible(Do(Do(s, a), b), rest)
    ensures Possible(s, [a, b] + rest) && After(s, [a, b] + rest) == After(Do(Do(s, a), b), rest)
  {
  }

  // ------------------------------------------------------------------
  // Draining the buffer
  // ------------------------------------------------------------------

  function Uploaded(s: Sys): Batch {
    Batch(s.vehicle, NextBatch(s.log.unsynced))
  }

  function Delivered(s: Sys, id: nat): Sys
    requires s.log.unsynced != [] && id !in s.handlers
  {
    Do(Do(s, Upload), Deliver(Uploaded(s), id))
  }

  /** One round in which nothing is lost: upload, handle, acknowledge. */
  function Round(s: Sys, id: nat): seq<Step>
    requires s.log.unsynced != [] && id !in s.handlers
  {
    var events := NextBatch(s.log.unsynced);
    [Upload, Deliver(Uploaded(s), id)] + HandlerSteps(Delivered(s, id), id)
    + [AckArrives(SyncAck(s.vehicle, events[0].bootId, MaxNumber(events)))]
  }

  lemma RoundRuns(s: Sys, id: nat)
    requires s.log.unsynced != [] && id !in s.handlers
    ensures Possible(s, Round(s, id))
    ensures After(s, Round(s, id)) == AfterRound(s, id)
  {
    var b := Uploaded(s);
    var d := Delivered(s, id);
    var ack := AckArrives(SyncAck(s.vehicle, b.events[0].bootId, MaxNumber(b.events)));
    HandlerRefinesIngest(d, id);
    OneMore(s, [], Upload);
    assert [] + [Upload] == [Upload];
    OneMore(s, [Upload], Deliver(b, id));
    assert [Upload] + [Deliver(b, id)] == [Upload, Deliver(b, id)];
    RunsCompose(s, [Upload, Deliver(b, id)], HandlerSteps(d, id));
    OneMore(s, [Upload, Deliver(b, id)] + HandlerSteps(d, id), ack);
  }

  function Rest(s: Sys, count: nat): seq<Event> {
    if count >= |s.log.unsynced| then [] else s.log.unsynced[count..]
  }

  /** The buffer holds consecutive events of one boot, ending at the newest. */
  predicate Numbered(l: Log) {
    && |l.unsynced| <= l.last
    && forall i :: 0 <= i < |l.unsynced| ==>
         l.unsynced[i].number == l.last - |l.unsynced| + 1 + i && l.unsynced[i].bootId == l.bootId
  }

  lemma BufferIsNumbered(s: Sys)
    requires Inv(s)
    ensures Numbered(s.log)
  {
    var h := s.history[s.log.bootId];
    forall i | 0 <= i < |s.log.unsynced|
      ensures s.log.unsynced[i].number == Front(s) + 1 + i && s.log.unsynced[i].bootId == s.log.bootId
    {
      assert s.log.unsynced[i] == h[Front(s) + i];
    }
  }

  /** The buffer after the ack of its own upload: the batch is gone, the rest stays. */
  lemma OwnAckTrims(s: Sys)
    requires Numbered(s.log) && s.log.unsynced != []
    ensures var events := NextBatch(s.log.unsynced);
            events[0].bootId == s.log.bootId && Trim(s.log.unsynced, MaxNumber(events)) == Rest(s, BATCH_LIMIT)
  {
    SliceMax(NextBatch(s.log.unsynced));
    TrimIsFilter(s.log.unsynced, s.log.last - |s.log.unsynced| + 1, MaxNumber(NextBatch(s.log.unsynced)));
  }

  /** What a clean round leaves behind. */
  function AfterRound(s: Sys, id: nat): (t: Sys)
    requires s.log.unsynced != [] && id !in s.handlers
    ensures id !in t.handlers
  {
    var events := NextBatch(s.log.unsynced);
    DoAck(Handled(Delivered(s, id), id), SyncAck(s.vehicle, events[0].bootId, MaxNumber(events)))
  }

  /** The system with `count` events drained, up to the evidence gathered on the way. */
  predicate DrainedBy(s: Sys, t: Sys, count: nat) {
    && t.log == s.log.(unsynced := Rest(s, count))
    && t.history == s.history && t.evicted == s.evicted
  }

  /** A clean round discards exactly the batch it evidenced and nothing else. */
  lemma RoundDrains(s: Sys, id: nat)
    requires Numbered(s.log) && s.log.unsynced != [] && id !in s.handlers
    ensures Numbered(AfterRound(s, id).log) && DrainedBy(s, AfterRound(s, id), BATCH_LIMIT)
  {
    OwnAckTrims(s);
  }

  /** A round in which nothing is lost, and where it leads; nothing when the buffer is
      empty. */
  function CleanRound(id: nat): Sys -> seq<Step> {
    (s: Sys) => if s.log.unsynced != [] && id !in s.handlers then Round(s, id) else []
  }

  function AfterCleanRound(id: nat): Sys -> Sys {
    (s: Sys) => if s.log.unsynced != [] && id !in s.handlers then AfterRound(s, id) else s
  }

  function Iterate(next: Sys -> Sys, s: Sys, n: nat): Sys {
    if n == 0 then s else next(Iterate(next, s, n - 1))
  }

  function Chain(round: Sys -> seq<Step>, next: Sys -> Sys, s: Sys, n: nat): seq<Step> {
    if n == 0 then [] else Chain(round, next, s, n - 1) + round(Iterate(next, s, n - 1))
  }

  /** The steps of `rounds` clean rounds. */
  function CleanRounds(s: Sys, id: nat, rounds: nat): seq<Step> {
    Chain(CleanRound(id), AfterCleanRound(id), s, rounds)
  }

  /** Where the steps lead, if they can be taken. */
  function Outcome(s: Sys, steps: seq<Step>): Option<Sys> {
    if Possible(s, steps) then Some(After(s, steps)) else None
  }

  /** Can start a round. */
  predicate Ready(s: Sys, id: nat) {
    Numbered(s.log) && id !in s.handlers
  }

  /** The round runs, drains one batch and can be followed by another. */
  predicate DrainsOne(s: Sys, id: nat, steps: seq<Step>, t: Sys) {
    Outcome(s, steps) == Some(t) && Ready(t, id) && DrainedBy(s, t, BATCH_LIMIT)
  }

  lemma RoundDrainsOne(s: Sys, id: nat)
    requires Ready(s, id)
    ensures DrainsOne(s, id, CleanRound(id)(s), AfterCleanRound(id)(s))
  {
    if s.log.unsynced != [] {
      RoundRuns(s, id);
      RoundDrains(s, id);
    }
  }

  lemma {:induction false} ChainDrains(round: Sys -> seq<Step>, next: Sys -> Sys, s: Sys, id: nat, n: nat)
    requires Ready(s, id) && forall x {:trigger round(x)} :: Ready(x, id) ==> DrainsOne(x, id, round(x), next(x))
    ensures var t := Iterate(next, s, n);
            Outcome(s, Chain(round, next, s, n)) == Some(t) && Ready(t, id) && DrainedBy(s, t, 100 * n)
  {
    if n > 0 {
      var u := Iterate(next, s, n - 1);
      ChainDrains(round, next, s, id, n - 1);
      assert DrainsOne(u, id, round(u), next(u));
      TwoLegs(s, Chain(round, next, s, n - 1), u, round(u), next(u));
      RestOfRest(s, u, 100 * (n - 1), 100);
    }
  }

  lemma TwoLegs(s: Sys, first: seq<Step>, u: Sys, second: seq<Step>, t: Sys)
    requires Outcome(s, first) == Some(u) && Outcome(u, second) == Some(t)
    ensures Outcome(s, first + second) == Some(t)
  {
    RunsCompose(s, first, second);
  }

  lemma RestOfRest(s: Sys, u: Sys, m: nat, n: nat)
    requires u.log.unsynced == Rest(s, m)
    ensures Rest(u, n) == Rest(s, m + n)
  {
  }

  /** After `rounds` clean rounds exactly the first 100 * rounds events are gone; with
      enough of them the buffer is empty and every event recorded since boot is in the
      evidence store or was evicted. */
  lemma {:induction false} DrainEmpties(s: Sys, id: nat, rounds: nat)
    requires Inv(s) && id !in s.handlers
    ensures Possible(s, CleanRounds(s, id, rounds))
    ensures var t := After(s, CleanRounds(s, id, rounds));
            && DrainedBy(s, t, 100 * rounds)
            && (100 * rounds >= |s.log.unsynced| ==>
                  forall e :: e in s.history[s.log.bootId] ==> InEdr(t.edr, e) || e.number in s.evicted)
  {
    BufferIsNumbered(s);
    forall x | Ready(x, id) ensures DrainsOne(x, id, CleanRound(id)(x), AfterCleanRound(id)(x)) {
      RoundDrainsOne(x, id);
    }
    ChainDrains(CleanRound(id), AfterCleanRound(id), s, id, rounds);
    RunKeeps(s, CleanRounds(s, id, rounds));
    Accounted(After(s, CleanRounds(s, id, rounds)));
  }

  /** The step delivers an ack that confirms the whole front batch of the buffer. */
  predicate FrontAck(s: Sys, st: Step) {
    && st.AckArrives? && s.log.unsynced != []
    && st.ack.vehicleId == s.vehicle && st.ack.bootId == s.log.bootId
    && var front := NextBatch(s.log.unsynced); front[|front| - 1].number <= st.ack.upTo
  }

  function FrontAcks(s: Sys, steps: seq<Step>): nat
    requires Possible(s, steps)
    decreases |steps|
  {
    if steps == [] then 0
    else (if FrontAck(s, steps[0]) then 1 else 0) + FrontAcks(Do(s, steps[0]), steps[1..])
  }

  lemma StepShrinks(s: Sys, st: Step)
    requires Inv(s) && Enabled(s, st) && !st.Record?
    ensures var t := Do(s, st);
            && |t.log.unsynced| <= |s.log.unsynced|
            && (FrontAck(s, st) ==> |t.log.unsynced| <= |Rest(s, BATCH_LIMIT)|)
  {
    if st.AckArrives? && st.ack.vehicleId == s.vehicle && st.ack.bootId == s.log.bootId {
      AckTrims(s, st.ack);
      if FrontAck(s, st) {
        var front := NextBatch(s.log.unsynced);
        assert s.log.unsynced[|front| - 1] == s.history[s.log.bootId][Front(s) + |front| - 1];
      }
    }
  }

  /** Draining under any faults.  While nothing new is recorded, the buffer never grows,
      whatever is lost, repeated, reordered or dies, and each delivered ack of a front
      batch shortens it by a full batch or empties it: after ceil(n / 100) of them in any
      run the buffer is empty and everything recorded since boot is evidenced or evicted. */
  lemma {:induction false} AcksDrain(s: Sys, steps: seq<Step>)
    requires Inv(s) && Possible(s, steps) && forall i :: 0 <= i < |steps| ==> !steps[i].Record?
    ensures var t := After(s, steps);
            && |t.log.unsynced| <= |Rest(s, 100 * FrontAcks(s, steps))|
            && (100 * FrontAcks(s, steps) >= |s.log.unsynced| ==>
                  && t.log.unsynced == [] && t.log.bootId in t.history
                  && forall e :: e in t.history[t.log.bootId] ==> InEdr(t.edr, e) || e.number in t.evicted)
    decreases |steps|
  {
    if steps != [] {
      var u := Do(s, steps[0]);
      StepKeeps(s, steps[0]);
      StepShrinks(s, steps[0]);
      assert forall i :: 0 <= i < |steps[1..]| ==> steps[1..][i] == steps[i + 1];
      AcksDrain(u, steps[1..]);
    }
    RunKeeps(s, steps);
    Accounted(After(s, steps));
  }

  // ------------------------------------------------------------------
  // When keys are unique
  // ------------------------------------------------------------------

  /** A row with the key about to be written has landed since the empty lookup. */
  predicate RowSince(edr: seq<Row>, h: Handler)
    requires h.done < |h.batch.events|
  {
    exists i :: h.lookedAt <= i < |edr| && edr[i].commandId == EventKey(h.batch.events[h.done])
  }

  /** The step writes a row that has become a duplicate: a handler's, because a row of the
      same key landed between its empty lookup and its write, or another vehicle's. */
  predicate Races(s: Sys, st: Step)
    requires Enabled(s, st)
  {
    match st
    case Create(id) => RowSince(s.edr, s.handlers[id])
    case OtherRow(r) => Has(s.edr, r.commandId)
    case _ => false
  }

  predicate NoRace(s: Sys, steps: seq<Step>)
    requires Possible(s, steps)
    decreases |steps|
  {
    steps == [] || (!Races(s, steps[0]) && NoRace(Do(s, steps[0]), steps[1..]))
  }

  /** An empty lookup was empty. */
  predicate LookedOk(s: Sys) {
    forall id :: id in s.handlers && s.handlers[id].creating ==>
      var h := s.handlers[id];
      && h.done < |h.batch.events| && h.lookedAt <= |s.edr|
      && !Has(s.edr[..h.lookedAt], EventKey(h.batch.events[h.done]))
  }

  lemma LookedKept(s: Sys, st: Step)
    requires LookedOk(s) && Enabled(s, st)
    ensures LookedOk(Do(s, st)) && s.edr <= Do(s, st).edr
  {
    var t := Do(s, st);
    assert s.edr[..|s.edr|] == s.edr;
    forall id | id in t.handlers && t.handlers[id].creating && id in s.handlers && s.handlers[id].creating
      ensures t.edr[..s.handlers[id].lookedAt] == s.edr[..s.handlers[id].lookedAt]
    {
    }
  }

  /** A handler writes a duplicate exactly when such a row has landed. */
  lemma DuplicateIffRace(s: Sys, id: nat)
    requires LookedOk(s) && Enabled(s, Create(id))
    ensures var h := s.handlers[id];
            Has(s.edr, EventKey(h.batch.events[h.done])) <==> Races(s, Create(id))
  {
    var h := s.handlers[id];
    var key := EventKey(h.batch.events[h.done]);
    HasSplit(s.edr, h.lookedAt, key);
  }

  lemma HasSplit(edr: seq<Row>, n: nat, key: string)
    requires n <= |edr| && !Has(edr[..n], key)
    ensures Has(edr, key) <==> exists i :: n <= i < |edr| && edr[i].commandId == key
  {
    assert forall i :: 0 <= i < n ==> edr[..n][i] == edr[i];
  }

  lemma DuplicateStays(edr: seq<Row>, more: seq<Row>)
    requires edr <= more && !UniqueKeys(edr)
    ensures !UniqueKeys(more)
  {
    var i, j :| 0 <= i < j < |edr| && edr[i].commandId == edr[j].commandId;
    assert more[i].commandId == more[j].commandId;
  }

  lemma AppendUniqueIff(edr: seq<Row>, r: Row)
    requires UniqueKeys(edr)
    ensures UniqueKeys(edr + [r]) <==> !Has(edr, r.commandId)
  {
    var more := edr + [r];
    if Has(edr, r.commandId) {
      var i :| 0 <= i < |edr| && edr[i].commandId == r.commandId;
      assert more[i].commandId == more[|edr|].commandId;
    }
  }

  lemma StepUniqueIff(s: Sys, st: Step)
    requires LookedOk(s) && UniqueKeys(s.edr) && Enabled(s, st)
    ensures UniqueKeys(Do(s, st).edr) <==> !Races(s, st)
  {
    match st
    case Create(id) =>
      var e := s.handlers[id].batch.events[s.handlers[id].done];
      DuplicateIffRace(s, id);
      AppendUniqueIff(s.edr, Row(EventKey(e), e));
    case OtherRow(r) => AppendUniqueIff(s.edr, r);
    case _ =>
  }

  lemma {:induction false} EdrGrows(s: Sys, steps: seq<Step>)
    requires LookedOk(s) && Possible(s, steps)
    ensures s.edr <= After(s, steps).edr
    decreases |steps|
  {
    if steps != [] {
      LookedKept(s, steps[0]);
      EdrGrows(Do(s, steps[0]), steps[1..]);
    }
  }

  /** After any run, evidence keys are unique if and only if no row of a key landed
      between a handler's empty lookup of it and that handler's write. */
  lemma {:induction false} UniqueIffNoRace(s: Sys, steps: seq<Step>)
    requires LookedOk(s) && UniqueKeys(s.edr) && Possible(s, steps)
    ensures UniqueKeys(After(s, steps).edr) <==> NoRace(s, steps)
    decreases |steps|
  {
    if steps != [] {
      var t := Do(s, steps[0]);
      StepUniqueIff(s, steps[0]);
      LookedKept(s, steps[0]);
      if Races(s, steps[0]) {
        EdrGrows(t, steps[1..]);
        DuplicateStays(t.edr, After(t, steps[1..]).edr);
      } else {
        UniqueIffNoRace(t, steps[1..]);
      }
    }
  }

  /** One row for every event of the current boot that has left the buffer unevicted, and
      no key twice. */
  ghost predicate OnceEach(s: Sys)
    requires s.log.bootId in s.history
  {
    && UniqueKeys(s.edr)
    && forall e :: e in s.history[s.log.bootId] && e !in s.log.unsynced && e.number !in s.evicted ==>
         exists i :: 0 <= i < |s.edr| && s.edr[i] == Row(EventKey(e), e)
  }

  /** Exactly once, for any run of losses, duplicates, reorderings, overlapping and dying
      handlers and reboots: if and only if no two writes of one key raced. */
  lemma {:induction false} ExactlyOnceIff(vehicle: string, bootId: string, steps: seq<Step>)
    requires HyphenFree(bootId) && Possible(Start(vehicle, bootId), steps)
    ensures var s := After(Start(vehicle, bootId), steps);
            s.log.bootId in s.history && (OnceEach(s) <==> NoRace(Start(vehicle, bootId), steps))
  {
    var s0 := Start(vehicle, bootId);
    StartInv(vehicle, bootId);
    RunKeeps(s0, steps);
    UniqueIffNoRace(s0, steps);
    var s := After(s0, steps);
    Accounted(s);
    forall e | e in s.history[s.log.bootId] && e !in s.log.unsynced && e.number !in s.evicted
      ensures exists i :: 0 <= i < |s.edr| && s.edr[i] == Row(EventKey(e), e)
    {
      var i :| 0 <= i < |s.edr| && s.edr[i].event == e;
      assert RowOk(s, s.edr[i]);
    }
  }

  // ------------------------------------------------------------------
  // Exactly once, with serialised handlers
  // ------------------------------------------------------------------

  /** At most one handler at a time, and other vehicles' rows are written by the same
      serialised service. */
  predicate Serial(s: Sys, steps: seq<Step>)
    requires Possible(s, steps)
    decreases |steps|
  {
    steps == [] || (SerialStep(s, steps[0]) && Serial(Do(s, steps[0]), steps[1..]))
  }

  predicate SerialStep(s: Sys, st: Step) {
    && (st.Deliver? ==> s.handlers == map[])
    && (st.OtherRow? ==> !Has(s.edr, st.row.commandId))
  }

  /** Keys are unique, there is one handler, and the row it is about to write is new. */
  ghost predicate One(s: Sys) {
    && UniqueKeys(s.edr)
    && (forall i, j :: i in s.handlers && j in s.handlers ==> i == j)
    && (forall id :: id in s.handlers ==> Fresh(s, s.handlers[id]))
  }

  predicate Fresh(s: Sys, h: Handler) {
    h.creating ==> h.done < |h.batch.events| && !Has(s.edr, EventKey(h.batch.events[h.done]))
  }

  lemma HasAppended(edr: seq<Row>, r: Row, key: string)
    ensures Has(edr + [r], key) <==> Has(edr, key) || r.commandId == key
  {
    var more := edr + [r];
    if Has(edr, key) {
      var i :| 0 <= i < |edr| && edr[i].commandId == key;
      assert more[i].commandId == key;
    } else if r.commandId == key {
      assert more[|edr|].commandId == key;
    }
  }

  lemma OtherVehicleOtherKey(s: Sys, h: Handler, r: Row)
    requires Inv(s) && HandlerOk(s, h) && Fresh(s, h) && h.creating
    requires r.event.vehicleId != s.vehicle && HyphenFree(r.event.bootId) && r.commandId == EventKey(r.event)
    ensures !Has(s.edr + [r], EventKey(h.batch.events[h.done]))
  {
    var e := h.batch.events[h.done];
    assert BatchOk(s, h.batch) && Genuine(s, e);
    if r.commandId == EventKey(e) {
      VlogKeyInjective(r.event.vehicleId, r.event.bootId, r.event.number, e.vehicleId, e.bootId, e.number);
    }
    HasAppended(s.edr, r, EventKey(e));
  }

  lemma SerialKeeps(s: Sys, st: Step)
    requires Inv(s) && One(s) && Enabled(s, st) && SerialStep(s, st)
    ensures One(Do(s, st))
  {
    var t := Do(s, st);
    if st.OtherRow? {
      forall id | id in t.handlers ensures Fresh(t, t.handlers[id]) {
        assert HandlerOk(s, s.handlers[id]) && Fresh(s, s.handlers[id]);
        if s.handlers[id].creating { OtherVehicleOtherKey(s, s.handlers[id], st.row); }
      }
      assert UniqueKeys(t.edr);
    } else if st.Create? {
      assert Fresh(s, s.handlers[st.id]);
    } else {
      forall id | id in t.handlers ensures Fresh(t, t.handlers[id]) {
        if id in s.handlers { assert Fresh(s, s.handlers[id]); }
      }
    }
  }

  lemma {:induction false} SerialNoRace(s: Sys, steps: seq<Step>)
    requires Inv(s) && One(s) && Possible(s, steps) && Serial(s, steps)
    ensures NoRace(s, steps)
    decreases |steps|
  {
    if steps != [] {
      if steps[0].Create? { assert Fresh(s, s.handlers[steps[0].id]); }
      StepKeeps(s, steps[0]);
      SerialKeeps(s, steps[0]);
      SerialNoRace(Do(s, steps[0]), steps[1..]);
    }
  }

  /** In particular with serialised handlers. */
  lemma {:induction false} ExactlyOnce(vehicle: string, bootId: string, steps: seq<Step>)
    requires HyphenFree(bootId) && Possible(Start(vehicle, bootId), steps) && Serial(Start(vehicle, bootId), steps)
    ensures var s := After(Start(vehicle, bootId), steps);
            s.log.bootId in s.history && OnceEach(s)
  {
    StartInv(vehicle, bootId);
    SerialNoRace(Start(vehicle, bootId), steps);
    ExactlyOnceIff(vehicle, bootId, steps);
  }

  /** The vehicle has recorded and uploaded one event; `handlers` work on that batch. */
  function OneUploaded(v: string, boot: string, kind: EventKind, handlers: map<nat, Handler>): Sys {
    var e := Event(v, boot, 1, 0, kind);
    Sys(v, Log(boot, 1, [e], 0), map[boot := [e]], 0, {}, {Batch(v, [e])}, {}, handlers, [])
  }

  lemma RecordAndUpload(v: string, boot: string, kind: EventKind)
    ensures var steps := [Record(0, kind), Upload];
            Possible(Start(v, boot), steps) && After(Start(v, boot), steps) == OneUploaded(v, boot, kind, map[])
  {
    var s0 := Start(v, boot);
    var s1 := Do(s0, Record(0, kind));
    var e := Event(v, boot, 1, 0, kind);
    assert s1.log == Log(boot, 1, [e], 0);
    assert s1.history == map[boot := [e]] by { assert s0.history[boot] + [e] == [e]; }
    assert NextBatch([e]) == [e];
    assert Do(s1, Upload) == OneUploaded(v, boot, kind, map[]);
    LinkedRuns([s0, s1, OneUploaded(v, boot, kind, map[])], [Record(0, kind), Upload]);
  }

  /** Two deliveries of the batch, each past its lookup. */
  lemma BothLookUp(v: string, boot: string, kind: EventKind)
    ensures var b := Batch(v, [Event(v, boot, 1, 0, kind)]);
            var steps := [Deliver(b, 0), Deliver(b, 1), Find(0), Find(1)];
            var s := OneUploaded(v, boot, kind, map[]);
            && Possible(s, steps)
            && After(s, steps) == OneUploaded(v, boot, kind, map[0 := Handler(b, 0, true, 0), 1 := Handler(b, 0, true, 0)])
  {
    var b := Batch(v, [Event(v, boot, 1, 0, kind)]);
    var s2 := OneUploaded(v, boot, kind, map[]);
    var s3 := Do(s2, Deliver(b, 0));
    var s4 := Do(s3, Deliver(b, 1));
    var s5 := Do(s4, Find(0));
    var s6 := OneUploaded(v, boot, kind, map[0 := Handler(b, 0, true, 0), 1 := Handler(b, 0, true, 0)]);
    assert Do(s5, Find(1)) == s6;
    LinkedRuns([s2, s3, s4, s5, s6], [Deliver(b, 0), Deliver(b, 1), Find(0), Find(1)]);
  }

  lemma BothCreate(v: string, boot: string, kind: EventKind)
    ensures var b := Batch(v, [Event(v, boot, 1, 0, kind)]);
            var s := OneUploaded(v, boot, kind, map[0 := Handler(b, 0, true, 0), 1 := Handler(b, 0, true, 0)]);
            Possible(s, [Create(0), Create(1)]) && !UniqueKeys(After(s, [Create(0), Create(1)]).edr)
  {
    var b := Batch(v, [Event(v, boot, 1, 0, kind)]);
    var s := OneUploaded(v, boot, kind, map[0 := Handler(b, 0, true, 0), 1 := Handler(b, 0, true, 0)]);
    var t := Do(s, Create(0));
    var u := Do(t, Create(1));
    LinkedRuns([s, t, u], [Create(0), Create(1)]);
    assert |u.edr| == 2 && u.edr[0].commandId == u.edr[1].commandId;
  }

  /** Without serialisation the promise fails: two deliveries of one batch whose
      lookups both come before either write leave two rows for the same event. */
  lemma OverlapDuplicates(v: string, boot: string, kind: EventKind)
    ensures exists steps :: Possible(Start(v, boot), steps) && !UniqueKeys(After(Start(v, boot), steps).edr)
  {
    var b := Batch(v, [Event(v, boot, 1, 0, kind)]);
    var first, second, third := [Record(0, kind), Upload], [Deliver(b, 0), Deliver(b, 1), Find(0), Find(1)], [Create(0), Create(1)];
    RecordAndUpload(v, boot, kind);
    BothLookUp(v, boot, kind);
    BothCreate(v, boot, kind);
    RunsCompose(Start(v, boot), first, second);
    RunsCompose(Start(v, boot), first + second, third);
  }
}
