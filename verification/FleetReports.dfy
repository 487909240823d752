/** The fleet workflow told by the requests alone: what operators reported on each item,
    who confirmed which checklist, and what was done with each mission. */
module FleetReports {
  import opened Wrappers
  import opened FleetSpec
  import opened FleetSafety

  // ------------------------------------------------------------------
  // Item reports
  // ------------------------------------------------------------------

  /** The three items self-diagnosis does not cover. */
  predicate OperatorItem(itemId: string) {
    itemId == "tires" || itemId == "lights-head" || itemId == "lights-turn"
  }

  /** The request reports on this item of this checklist and is accepted: the checklist is
      on file and not confirmed, and the item is the operator's to judge. */
  predicate Reports(f: Fleet, q: Request, c: string, itemId: string) {
    && q.CheckItem? && q.id == c && q.itemId == itemId && OperatorItem(itemId)
    && c in f.checklists && f.checklists[c].status != CONFIRMED
  }

  /** The status in the last accepted report on the item. */
  function LastReport(qs: seq<Request>, c: string, itemId: string): Option<ItemStatus> {
    if qs == [] then None
    else
      var front, q := qs[..|qs| - 1], qs[|qs| - 1];
      if Reports(Run(EMPTY, front), q, c, itemId) then Some(q.status) else LastReport(front, c, itemId)
  }

  /** The last remark made in an accepted report on the item. */
  function LastDetail(qs: seq<Request>, c: string, itemId: string): string {
    if qs == [] then ""
    else
      var front, q := qs[..|qs| - 1], qs[|qs| - 1];
      if Reports(Run(EMPTY, front), q, c, itemId) && q.detail != "" then q.detail else LastDetail(front, c, itemId)
  }

  /** The item as the reports tell it; the vehicle's own items are as it reported them. */
  function Told(qs: seq<Request>, c: string, template: Item): Item {
    if OperatorItem(template.itemId) then
      var last := LastReport(qs, c, template.itemId);
      template.(status := if last.Some? then last.value else PENDING, detail := LastDetail(qs, c, template.itemId))
    else template.(status := PASS, detail := "")
  }

  lemma TemplateSources(i: nat)
    requires i < |DEFAULT_CHECKLIST|
    ensures DEFAULT_CHECKLIST[i].source == OPERATOR <==> OperatorItem(DEFAULT_CHECKLIST[i].itemId)
    ensures DEFAULT_CHECKLIST[i].source == OPERATOR ==> DEFAULT_CHECKLIST[i].safetyCritical
    ensures DEFAULT_CHECKLIST[i].detail == ""
  {
  }

  lemma IdsDistinct(i: nat, j: nat)
    requires i < j < |DEFAULT_CHECKLIST|
    ensures DEFAULT_CHECKLIST[i].itemId != DEFAULT_CHECKLIST[j].itemId
  {
  }

  /** One request and the items of one checklist: a new checklist has the vehicle's
      results and open questions, an accepted report changes its own item alone. */
  lemma ItemAfter(f: Fleet, q: Request, c: string, i: nat)
    requires AllSummarised(f) && FreshIds(f, q) && i < |DEFAULT_CHECKLIST|
    requires c in Handle(f, q).checklists && |Handle(f, q).checklists[c].items| == |DEFAULT_CHECKLIST|
    ensures var item := Handle(f, q).checklists[c].items[i];
            var template := DEFAULT_CHECKLIST[i];
            if c !in f.checklists then item == template.(status := if template.source == SELF_DIAGNOSIS then PASS else PENDING)
            else
              && |f.checklists[c].items| == |DEFAULT_CHECKLIST|
              && var was := f.checklists[c].items[i];
                 item == if !Reports(f, q, c, template.itemId) then was
                         else was.(status := q.status, detail := if q.detail != "" then q.detail else was.detail)
  {
    if c in f.checklists { assert Summarised(f.checklists[c]); }
    match q
    case NewMission(id, checklistId, v, who, fate, now) => CreateMissionChecklists(f, id, checklistId, v, who, fate, now);
    case CheckItem(id, itemId, status, detail, who) =>
      if id == c && c in f.checklists { ItemUpdated(f, q, i); }
    case _ =>
  }

  lemma ItemUpdated(f: Fleet, q: Request, i: nat)
    requires AllSummarised(f) && q.CheckItem? && q.id in f.checklists && i < |DEFAULT_CHECKLIST|
    ensures |f.checklists[q.id].items| == |DEFAULT_CHECKLIST|
    ensures var g := Handle(f, q);
            && q.id in g.checklists && |g.checklists[q.id].items| == |DEFAULT_CHECKLIST|
            && var was := f.checklists[q.id].items[i];
               g.checklists[q.id].items[i] ==
                 if !Reports(f, q, q.id, DEFAULT_CHECKLIST[i].itemId) then was
                 else was.(status := q.status, detail := if q.detail != "" then q.detail else was.detail)
  {
    var items := f.checklists[q.id].items;
    assert Summarised(f.checklists[q.id]);
    assert Attributable(items[i], DEFAULT_CHECKLIST[i]);
    TemplateSources(i);
    var k := Find(items, q.itemId);
    if k < |items| {
      assert Attributable(items[k], DEFAULT_CHECKLIST[k]);
      TemplateSources(k);
      if k < i { IdsDistinct(k, i); }
    }
  }

  lemma AllFreshFront(qs: seq<Request>)
    requires qs != [] && AllFresh(EMPTY, qs)
    ensures AllFresh(EMPTY, qs[..|qs| - 1]) && FreshIds(Run(EMPTY, qs[..|qs| - 1]), qs[|qs| - 1])
  {
    var front := qs[..|qs| - 1];
    forall i | 0 <= i < |front| ensures FreshIds(Run(EMPTY, front[..i]), front[i]) {
      assert front[..i] == qs[..i];
    }
  }

  lemma StaysOnFile(f: Fleet, q: Request, c: string)
    ensures c in f.checklists ==> c in Handle(f, q).checklists
  {
    if q.NewMission? { CreateMissionChecklists(f, q.id, q.checklistId, q.vehicleId, q.issuer, q.fate, q.now); }
  }

  /** Nothing was reported on a checklist that is not on file. */
  lemma {:induction false} NothingReported(qs: seq<Request>, c: string, itemId: string)
    requires c !in Run(EMPTY, qs).checklists
    ensures LastReport(qs, c, itemId) == None && LastDetail(qs, c, itemId) == ""
  {
    if qs != [] {
      StaysOnFile(Run(EMPTY, qs[..|qs| - 1]), qs[|qs| - 1], c);
      NothingReported(qs[..|qs| - 1], c, itemId);
    }
  }

  /** What operators report is what is stored.  After any run of requests each checklist
      has the ten prescribed items; an operator's item has the status of the last accepted
      report on it, or is still open, and the last remark; the others are as the vehicle
      reported them. */
  lemma {:induction false} ReportsStand(qs: seq<Request>, c: string, i: nat)
    requires AllFresh(EMPTY, qs) && c in Run(EMPTY, qs).checklists && i < 10
    ensures |DEFAULT_CHECKLIST| == |Run(EMPTY, qs).checklists[c].items| == 10
    ensures Run(EMPTY, qs).checklists[c].items[i] == Told(qs, c, DEFAULT_CHECKLIST[i])
  {
    var n := |qs| - 1;
    var front := qs[..n];
    var f := Run(EMPTY, front);
    AllFreshFront(qs);
    VehicleResultsStand(front);
    VehicleResultsStand(qs);
    assert Summarised(Run(EMPTY, qs).checklists[c]);
    ItemAfter(f, qs[n], c, i);
    TemplateSources(i);
    if c in f.checklists {
      ReportsStand(front, c, i);
    } else {
      NothingReported(front, c, DEFAULT_CHECKLIST[i].itemId);
    }
  }

  // ------------------------------------------------------------------
  // Confirmation
  // ------------------------------------------------------------------

  predicate Settled(last: Option<ItemStatus>) { last.Some? && last.value != PENDING }

  /** Every item of the operator's has been settled. */
  predicate AllSettled(qs: seq<Request>, c: string) {
    && Settled(LastReport(qs, c, "tires")) && Settled(LastReport(qs, c, "lights-head"))
    && Settled(LastReport(qs, c, "lights-turn"))
  }

  predicate AnyFailed(qs: seq<Request>, c: string) {
    || LastReport(qs, c, "tires") == Some(FAIL) || LastReport(qs, c, "lights-head") == Some(FAIL)
    || LastReport(qs, c, "lights-turn") == Some(FAIL)
  }

  lemma OperatorItems()
    ensures |DEFAULT_CHECKLIST| == 10
    ensures DEFAULT_CHECKLIST[3].itemId == "tires" && DEFAULT_CHECKLIST[4].itemId == "lights-head"
            && DEFAULT_CHECKLIST[5].itemId == "lights-turn"
    ensures forall i :: 0 <= i < 10 && OperatorItem(DEFAULT_CHECKLIST[i].itemId) ==> i == 3 || i == 4 || i == 5
  {
  }

  lemma SummaryTold(qs: seq<Request>, c: string)
    requires AllFresh(EMPTY, qs) && c in Run(EMPTY, qs).checklists
    ensures var items := Run(EMPTY, qs).checklists[c].items;
            && (AnyPending(items) <==> !AllSettled(qs, c))
            && (AnyCriticalFail(items) <==> AnyFailed(qs, c))
  {
    var items := Run(EMPTY, qs).checklists[c].items;
    OperatorItems();
    forall i | 0 <= i < 10 ensures |items| == 10 && items[i] == Told(qs, c, DEFAULT_CHECKLIST[i]) {
      ReportsStand(qs, c, i);
      TemplateSources(i);
    }
    TemplateSources(3);
    TemplateSources(4);
    TemplateSources(5);
  }

  /** A confirmation is accepted if and only if the checklist is on file, not yet confirmed,
      every operator's item has been settled and none of them last reported failed. */
  lemma ConfirmsIffReported(qs: seq<Request>, c: string, who: string, now: nat)
    requires AllFresh(EMPTY, qs)
    ensures var (f, g) := (Run(EMPTY, qs), Handle(Run(EMPTY, qs), ConfirmChecklist(c, who, now)));
            if c in f.checklists && f.checklists[c].status != CONFIRMED && AllSettled(qs, c) && !AnyFailed(qs, c)
            then g.checklists == f.checklists[c := f.checklists[c].(status := CONFIRMED, confirmedBy := who, confirmedAt := Some(now))]
            else g.checklists == f.checklists
  {
    if c in Run(EMPTY, qs).checklists { SummaryTold(qs, c); }
  }

  /** Failed or unreported tires or lights keep the checklist from being confirmed and its
      mission from starting: in every reachable state. */
  lemma FailedReportBlocks(qs: seq<Request>, c: string, m: string)
    requires AllFresh(EMPTY, qs) && c in Run(EMPTY, qs).checklists
    requires !AllSettled(qs, c) || AnyFailed(qs, c)
    ensures Run(EMPTY, qs).checklists[c].status != CONFIRMED
    ensures m in Run(EMPTY, qs).missions && Run(EMPTY, qs).missions[m].checklistId == Some(c) ==>
              !Started(Run(EMPTY, qs).missions[m].status)
  {
    SummaryTold(qs, c);
    RunSafe(EMPTY, qs);
    assert CheckOk(Run(EMPTY, qs).checklists[c]);
    if m in Run(EMPTY, qs).missions { assert MissionOk(Run(EMPTY, qs), Run(EMPTY, qs).missions[m]); }
  }

  /** The accepted confirmation of a checklist, if there was one. */
  function Confirmation(qs: seq<Request>, c: string): Option<Request> {
    if qs == [] then None
    else
      var front, q := qs[..|qs| - 1], qs[|qs| - 1];
      var f := Run(EMPTY, front);
      if && q.ConfirmChecklist? && q.id == c && c in f.checklists && f.checklists[c].status != CONFIRMED
         && AllSettled(front, c) && !AnyFailed(front, c)
      then Some(q) else Confirmation(front, c)
  }

  /** The overall status as the requests tell it. */
  function StatusTold(qs: seq<Request>, c: string): CheckStatus {
    if Confirmation(qs, c).Some? then CONFIRMED
    else if !AllSettled(qs, c) then IN_PROGRESS
    else if AnyFailed(qs, c) then FAILED
    else PASSED
  }

  lemma {:induction false} NothingConfirmed(qs: seq<Request>, c: string)
    requires c !in Run(EMPTY, qs).checklists
    ensures Confirmation(qs, c) == None
  {
    if qs != [] {
      StaysOnFile(Run(EMPTY, qs[..|qs| - 1]), qs[|qs| - 1], c);
      NothingConfirmed(qs[..|qs| - 1], c);
    }
  }

  /** Who confirmed, and when, and for which vehicle, changes only by a confirmation. */
  lemma ConfirmerAfter(f: Fleet, q: Request, c: string)
    requires FreshIds(f, q) && c in Handle(f, q).checklists && !(q.ConfirmChecklist? && q.id == c)
    ensures var now := Handle(f, q).checklists[c];
            if c in f.checklists then
              && now.confirmedBy == f.checklists[c].confirmedBy && now.confirmedAt == f.checklists[c].confirmedAt
              && (now.status == CONFIRMED <==> f.checklists[c].status == CONFIRMED)
            else now.confirmedBy == "" && now.confirmedAt == None && now.status != CONFIRMED
  {
    match q
    case NewMission(id, checklistId, v, who, fate, now) => CreateMissionChecklists(f, id, checklistId, v, who, fate, now);
    case _ =>
  }

  /** In every reachable state a checklist's status, confirmer and time are those the
      requests tell: confirmed exactly if a confirmation was accepted, by whoever sent it
      and when; otherwise the summary of the last reports. */
  lemma {:induction false} ChecklistAsTold(qs: seq<Request>, c: string)
    requires AllFresh(EMPTY, qs) && c in Run(EMPTY, qs).checklists
    ensures var check := Run(EMPTY, qs).checklists[c];
            var sent := Confirmation(qs, c);
            && check.status == StatusTold(qs, c)
            && (if sent.Some? then sent.value.ConfirmChecklist? && check.confirmedBy == sent.value.issuer && check.confirmedAt == Some(sent.value.now)
                else check.confirmedBy == "" && check.confirmedAt == None)
  {
    var n := |qs| - 1;
    var front, q := qs[..n], qs[n];
    AllFreshFront(qs);
    SummaryTold(qs, c);
    VehicleResultsStand(qs);
    assert Summarised(Run(EMPTY, qs).checklists[c]);
    if c in Run(EMPTY, front).checklists { ChecklistAsTold(front, c); } else { NothingConfirmed(front, c); }
    if q.ConfirmChecklist? && q.id == c {
      ConfirmsIffReported(front, c, q.issuer, q.now);
    } else {
      ConfirmerAfter(Run(EMPTY, front), q, c);
    }
  }

  // ------------------------------------------------------------------
  // Missions
  // ------------------------------------------------------------------

  /** The mission's own checklist is on file and was confirmed at most 30 minutes ago (a
      confirmation at time zero counts as none). */
  predicate ChecksOut(f: Fleet, m: Mission, now: nat) {
    && m.checklistId.Some? && m.checklistId.value in f.checklists
    && var check := f.checklists[m.checklistId.value];
      && check.status == CONFIRMED && check.confirmedAt.Some? && check.confirmedAt.value > 0
      && now <= check.confirmedAt.value + 30 * 60 * 1000
  }

  /** The operation is accepted: a start needs its confirmed and recent checklist, the
      others their own states. */
  predicate Accepts(f: Fleet, q: Request) {
    && q.DoMission? && q.id in f.missions
    && var status := f.missions[q.id].status;
       match q.op
       case Start => status == PRE_CHECK && ChecksOut(f, f.missions[q.id], q.now)
       case Pause => status == ACTIVE
       case Resume => status == PAUSED
       case Complete => status == ACTIVE
       case Abort => status != COMPLETED && status != ABORTED
  }

  /** A mission of this vehicle is neither completed nor aborted. */
  predicate Busy(f: Fleet, vehicleId: string) {
    exists m :: m in f.missions && f.missions[m].vehicleId == vehicleId
                && f.missions[m].status != COMPLETED && f.missions[m].status != ABORTED
  }

  lemma BusyIsOpen(f: Fleet, vehicleId: string)
    ensures Busy(f, vehicleId) <==> HasOpen(f, vehicleId)
  {
    if Busy(f, vehicleId) {
      var m :| m in f.missions && f.missions[m].vehicleId == vehicleId
               && f.missions[m].status != COMPLETED && f.missions[m].status != ABORTED;
      assert Open(f.missions[m].status);
    }
    if HasOpen(f, vehicleId) {
      var m :| m in f.missions && f.missions[m].vehicleId == vehicleId && Open(f.missions[m].status);
    }
  }

  /** A mission as created: linked and waiting for its check, aborted by the clean-up, or
      left as it was when that failed too. */
  function Created(q: Request): Mission
    requires q.NewMission?
  {
    match q.fate
    case Succeeds => Mission(q.vehicleId, PRE_CHECK, Some(q.checklistId), None, None)
    case NoChecklist(cleaned) => if cleaned then Mission(q.vehicleId, ABORTED, None, None, Some(q.now)) else Mission(q.vehicleId, AWAITING, None, None, None)
    case NotLinked(cleaned) => if cleaned then Mission(q.vehicleId, ABORTED, None, None, Some(q.now)) else Mission(q.vehicleId, AWAITING, None, None, None)
  }

  function Done(m: Mission, op: MissionOp, now: nat): Mission {
    match op
    case Start => m.(status := ACTIVE, startedAt := Some(now))
    case Pause => m.(status := PAUSED)
    case Resume => m.(status := ACTIVE)
    case Complete => m.(status := COMPLETED, completedAt := Some(now))
    case Abort => m.(status := ABORTED, completedAt := Some(now))
  }

  /** A mission as the requests tell it. */
  function MissionTold(qs: seq<Request>, m: string): Option<Mission> {
    if qs == [] then None
    else
      var front, q := qs[..|qs| - 1], qs[|qs| - 1];
      var f, before := Run(EMPTY, front), MissionTold(front, m);
      if q.NewMission? && q.id == m && !Busy(f, q.vehicleId) then Some(Created(q))
      else if before.Some? && q.DoMission? && q.id == m && Accepts(f, q) then Some(Done(before.value, q.op, q.now))
      else before
  }

  lemma MissionAfter(f: Fleet, q: Request, m: string)
    requires Safe(f) && FreshIds(f, q)
    ensures var g := Handle(f, q);
            if q.NewMission? && q.id == m && !Busy(f, q.vehicleId) then m in g.missions && g.missions[m] == Created(q)
            else if m !in f.missions then m !in g.missions
            else m in g.missions && g.missions[m] ==
                   if q.DoMission? && q.id == m && Accepts(f, q) then Done(f.missions[m], q.op, q.now) else f.missions[m]
  {
    match q
    case NewMission(id, checklistId, v, who, fate, now) => NewMissionIs(f, q);
    case DoMission(id, op, who, now) => OperationIs(f, q);
    case _ =>
  }

  lemma OperationIs(f: Fleet, q: Request)
    requires Safe(f) && q.DoMission?
    ensures Handle(f, q).missions == if Accepts(f, q) then f.missions[q.id := Done(f.missions[q.id], q.op, q.now)] else f.missions
  {
    if q.id in f.missions { assert MissionOk(f, f.missions[q.id]); }
  }

  lemma NewMissionIs(f: Fleet, q: Request)
    requires q.NewMission? && FreshIds(f, q)
    ensures Handle(f, q).missions == if Busy(f, q.vehicleId) then f.missions else f.missions[q.id := Created(q)]
  {
    BusyIsOpen(f, q.vehicleId);
    if !HasOpen(f, q.vehicleId) {
      var a := Create(f, q.id, q.vehicleId, q.issuer).value;
      assert a.missions[q.id := Created(q)] == f.missions[q.id := Created(q)];
    }
  }

  /** In every reachable state each mission is what was done with it: created linked,
      cleaned up or waiting; started at the time of its accepted start, which resuming
      does not move; ended at the time of its completion or abort; and in the state of the
      last accepted operation. */
  lemma {:induction false} MissionsAsTold(qs: seq<Request>, m: string)
    requires AllFresh(EMPTY, qs)
    ensures var f := Run(EMPTY, qs);
            MissionTold(qs, m) == if m in f.missions then Some(f.missions[m]) else None
  {
    if qs != [] {
      var front := qs[..|qs| - 1];
      AllFreshFront(qs);
      MissionsAsTold(front, m);
      RunSafe(EMPTY, front);
      MissionAfter(Run(EMPTY, front), qs[|qs| - 1], m);
    }
  }

  // ------------------------------------------------------------------
  // Whose rows
  // ------------------------------------------------------------------

  /** The vehicle of a checklist or mission on file. */
  predicate Concerns(f: Fleet, id: string, vehicleId: string) {
    || (id in f.checklists && f.checklists[id].vehicleId == vehicleId)
    || (id in f.missions && f.missions[id].vehicleId == vehicleId)
  }

  /** The rows one request adds: they name who asked, or the clean-up, and the vehicle of
      the entity they are about. */
  predicate RowsSay(f: Fleet, q: Request, g: Fleet) {
    && f.events <= g.events
    && forall i :: |f.events| <= i < |g.events| ==>
         && (g.events[i].issuer == q.issuer || g.events[i].issuer == "SYSTEM-CLEANUP")
         && Concerns(g, g.events[i].correlationId, g.events[i].vehicleId)
  }

  /** Every audit row names who acted and the vehicle concerned. */
  lemma RowsNameTheActor(f: Fleet, q: Request)
    requires FreshIds(f, q)
    ensures RowsSay(f, q, Handle(f, q))
  {
    if q.NewMission? { NewMissionSays(f, q); }
  }

  lemma NewMissionSays(f: Fleet, q: Request)
    requires q.NewMission? && FreshIds(f, q)
    ensures RowsSay(f, q, CreateMission(f, q.id, q.checklistId, q.vehicleId, q.issuer, q.fate, q.now))
  {
    if !HasOpen(f, q.vehicleId) {
      var a := Create(f, q.id, q.vehicleId, q.issuer).value;
      var b := CreateChecklist(a, q.checklistId, q.vehicleId, q.issuer);
      match q.fate
      case NoChecklist(cleaned) => CleanUpSays(f, q, a, cleaned);
      case NotLinked(cleaned) => CleanUpSays(f, q, b, cleaned);
      case Succeeds =>
    }
  }

  lemma CleanUpSays(f: Fleet, q: Request, a: Fleet, cleaned: bool)
    requires q.NewMission? && RowsSay(f, q, a) && q.id in a.missions && a.missions[q.id].status == AWAITING
    ensures RowsSay(f, q, CleanUp(a, q.id, cleaned, q.now))
  {
    var g := CleanUp(a, q.id, cleaned, q.now);
    assert forall id, v :: Concerns(a, id, v) ==> Concerns(g, id, v);
    assert forall i :: 0 <= i < |a.events| ==> g.events[i] == a.events[i];
  }
}
