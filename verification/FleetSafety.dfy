/** Safety of the fleet workflow over every run of controller requests. */
module FleetSafety {
  import opened Wrappers
  import opened FleetSpec

  /** A confirmed checklist is complete and clean, and says when it was confirmed. */
  predicate CheckOk(c: Checklist) {
    c.status == CONFIRMED ==> !AnyPending(c.items) && !AnyCriticalFail(c.items) && c.confirmedAt.Some?
  }

  /** A started mission has its own vehicle's checklist, confirmed recently enough when
      it started; a linked one has its own vehicle's checklist. */
  predicate MissionOk(f: Fleet, m: Mission) {
    && (m.checklistId.Some? ==> CheckOf(f, m).Some? && CheckOf(f, m).value.vehicleId == m.vehicleId)
    && (Started(m.status) ==>
          && CheckOf(f, m).Some? && CheckOf(f, m).value.status == CONFIRMED
          && CheckOf(f, m).value.confirmedAt.Some? && m.startedAt.Some?
          && m.startedAt.value - CheckOf(f, m).value.confirmedAt.value <= CHECKLIST_MAX_AGE_MS)
  }

  predicate OneOpenPerVehicle(f: Fleet) {
    forall m, n :: m in f.missions && n in f.missions && m != n && Open(f.missions[m].status) && Open(f.missions[n].status) ==>
      f.missions[m].vehicleId != f.missions[n].vehicleId
  }

  ghost predicate Safe(f: Fleet) {
    && (forall c :: c in f.checklists ==> CheckOk(f.checklists[c]))
    && (forall m :: m in f.missions ==> MissionOk(f, f.missions[m]))
    && OneOpenPerVehicle(f)
  }

  /** What a request never undoes: confirmed checklists and finished missions stand as
      they are, everything else stays on file for the same vehicle. */
  ghost predicate Keeps(f: Fleet, g: Fleet) {
    && (forall c :: c in f.checklists ==> c in g.checklists && g.checklists[c].vehicleId == f.checklists[c].vehicleId)
    && (forall c :: c in f.checklists && f.checklists[c].status == CONFIRMED ==> c in g.checklists && g.checklists[c] == f.checklists[c])
    && (forall m :: m in f.missions ==> m in g.missions && g.missions[m].vehicleId == f.missions[m].vehicleId)
    && (forall m :: m in f.missions && Final(f.missions[m].status) ==> m in g.missions && g.missions[m] == f.missions[m])
    && f.events <= g.events
  }

  lemma MissionStaysOk(f: Fleet, g: Fleet, m: Mission)
    requires MissionOk(f, m) && Keeps(f, g)
    ensures MissionOk(g, m)
  {
  }

  // ---- one lemma per database operation ----

  lemma CreateChecklistSafe(f: Fleet, id: string, v: string, who: string)
    requires Safe(f) && id !in f.checklists
    ensures var g := CreateChecklist(f, id, v, who); Safe(g) && Keeps(f, g)
  {
    var g := CreateChecklist(f, id, v, who);
    assert Keeps(f, g);
    forall m | m in g.missions ensures MissionOk(g, g.missions[m]) { MissionStaysOk(f, g, f.missions[m]); }
  }

  lemma ChecklistChangeSafe(f: Fleet, id: string, c: Checklist, row: AuditRow)
    requires Safe(f) && id in f.checklists && f.checklists[id].status != CONFIRMED
    requires c.vehicleId == f.checklists[id].vehicleId && CheckOk(c)
    ensures var g := Log(f.(checklists := f.checklists[id := c]), row); Safe(g) && Keeps(f, g)
  {
    var g := Log(f.(checklists := f.checklists[id := c]), row);
    assert Keeps(f, g);
    forall m | m in g.missions ensures MissionOk(g, g.missions[m]) { MissionStaysOk(f, g, f.missions[m]); }
  }

  /** Replacing one mission, not finished, with another of the same vehicle; it may be
      open only if it was. */
  lemma MissionChangeSafe(f: Fleet, id: string, m: Mission, rows: seq<AuditRow>)
    requires Safe(f) && id in f.missions && !Final(f.missions[id].status)
    requires m.vehicleId == f.missions[id].vehicleId && MissionOk(f, m)
    ensures var g := f.(missions := f.missions[id := m], events := f.events + rows); Safe(g) && Keeps(f, g)
  {
    var g := f.(missions := f.missions[id := m], events := f.events + rows);
    assert Keeps(f, g);
    assert Open(f.missions[id].status);
    forall x | x in g.missions ensures MissionOk(g, g.missions[x]) {
      if x != id { MissionStaysOk(f, g, f.missions[x]); } else { MissionStaysOk(f, g, m); }
    }
  }

  lemma CreateSafe(f: Fleet, id: string, v: string, who: string)
    requires Safe(f) && id !in f.missions && Create(f, id, v, who).Some?
    ensures var g := Create(f, id, v, who).value;
            Safe(g) && Keeps(f, g) && id in g.missions && g.missions[id] == Mission(v, AWAITING, None, None, None)
  {
    var g := Create(f, id, v, who).value;
    assert Keeps(f, g);
    forall m | m in g.missions ensures MissionOk(g, g.missions[m]) {
      if m != id { MissionStaysOk(f, g, f.missions[m]); }
    }
    forall m, n | m in g.missions && n in g.missions && m != n && Open(g.missions[m].status) && Open(g.missions[n].status)
      ensures g.missions[m].vehicleId != g.missions[n].vehicleId
    {
      if m == id { assert n in f.missions && f.missions[n].vehicleId != v; }
      if n == id { assert m in f.missions && f.missions[m].vehicleId != v; }
    }
  }

  lemma LinkSafe(f: Fleet, id: string, checklistId: string)
    requires Safe(f) && id in f.missions && f.missions[id].status == AWAITING
    requires checklistId in f.checklists && f.checklists[checklistId].vehicleId == f.missions[id].vehicleId
    ensures var g := LinkChecklist(f, id, checklistId).value; Safe(g) && Keeps(f, g)
  {
    var m := f.missions[id].(checklistId := Some(checklistId), status := PRE_CHECK);
    MissionChangeSafe(f, id, m, []);
    assert f.events + [] == f.events;
    assert LinkChecklist(f, id, checklistId).value == f.(missions := f.missions[id := m], events := f.events + []);
  }

  lemma {:induction false} OperateSafe(f: Fleet, id: string, op: MissionOp, who: string, now: nat)
    requires Safe(f) && Operate(f, id, op, who, now).Some?
    ensures var g := Operate(f, id, op, who, now).value; Safe(g) && Keeps(f, g)
  {
    var g := Operate(f, id, op, who, now).value;
    assert MissionOk(f, f.missions[id]);
    var rows := [g.events[|f.events|]];
    MissionChangeSafe(f, id, g.missions[id], rows);
    assert g == f.(missions := f.missions[id := g.missions[id]], events := f.events + rows);
  }

  lemma RefusedSafe(f: Fleet, row: AuditRow)
    requires Safe(f)
    ensures Safe(Log(f, row)) && Keeps(f, Log(f, row))
  {
  }

  lemma KeepsTrans(f: Fleet, g: Fleet, h: Fleet)
    requires Keeps(f, g) && Keeps(g, h)
    ensures Keeps(f, h)
  {
  }

  lemma CleanUpSafe(f: Fleet, id: string, cleaned: bool, now: nat)
    requires Safe(f)
    ensures Safe(CleanUp(f, id, cleaned, now)) && Keeps(f, CleanUp(f, id, cleaned, now))
  {
    if cleaned && Operate(f, id, Abort, "SYSTEM-CLEANUP", now).Some? { OperateSafe(f, id, Abort, "SYSTEM-CLEANUP", now); }
  }

  lemma {:induction false} CreateMissionSafe(f: Fleet, id: string, checklistId: string, v: string, who: string, fate: Fate, now: nat)
    requires Safe(f) && id !in f.missions && checklistId !in f.checklists
    ensures var g := CreateMission(f, id, checklistId, v, who, fate, now); Safe(g) && Keeps(f, g)
  {
    var created := Create(f, id, v, who);
    if created.Some? {
      CreateSafe(f, id, v, who);
      var a := created.value;
      if fate.NoChecklist? {
        CleanUpSafe(a, id, fate.cleaned, now);
      } else {
        CreateChecklistSafe(a, checklistId, v, who);
        var b := CreateChecklist(a, checklistId, v, who);
        KeepsTrans(f, a, b);
        if fate.NotLinked? {
          CleanUpSafe(b, id, fate.cleaned, now);
          KeepsTrans(f, b, CleanUp(b, id, fate.cleaned, now));
        } else {
          LinkSafe(b, id, checklistId);
          KeepsTrans(f, b, LinkChecklist(b, id, checklistId).value);
        }
      }
      if fate.NoChecklist? { KeepsTrans(f, a, CleanUp(a, id, fate.cleaned, now)); }
    }
  }

  lemma {:induction false} HandleSafe(f: Fleet, q: Request)
    requires Safe(f) && FreshIds(f, q)
    ensures Safe(Handle(f, q)) && Keeps(f, Handle(f, q))
  {
    match q
    case NewChecklist(id, v, who) => CreateChecklistSafe(f, id, v, who);
    case CheckItem(id, itemId, status, detail, who) =>
      var r := UpdateItem(f, id, itemId, status, detail, who);
      if r.Some? { ChecklistChangeSafe(f, id, r.value.checklists[id], r.value.events[|f.events|]); }
    case ConfirmChecklist(id, who, now) =>
      if id in f.checklists {
        var r := Confirm(f, id, who, now);
        if r.Some? {
          ChecklistChangeSafe(f, id, r.value.checklists[id], r.value.events[|f.events|]);
        } else {
          RefusedSafe(f, AuditRow(id, f.checklists[id].vehicleId, who, AuditAction.ChecklistConfirm, true));
        }
      }
    case NewMission(id, checklistId, v, who, fate, now) => CreateMissionSafe(f, id, checklistId, v, who, fate, now);
    case DoMission(id, op, who, now) =>
      if id in f.missions {
        if Operate(f, id, op, who, now).Some? {
          OperateSafe(f, id, op, who, now);
        } else {
          RefusedSafe(f, AuditRow(id, f.missions[id].vehicleId, who, AttemptAction(op), true));
        }
      }
  }

  // ------------------------------------------------------------------
  // Runs
  // ------------------------------------------------------------------

  lemma {:induction false} RunSafe(f: Fleet, qs: seq<Request>)
    requires Safe(f) && AllFresh(f, qs)
    ensures Safe(Run(f, qs))
  {
    if qs != [] {
      var n := |qs| - 1;
      var front := qs[..n];
      forall i | 0 <= i < |front| ensures FreshIds(Run(f, front[..i]), front[i]) {
        assert front[..i] == qs[..i];
      }
      RunSafe(f, front);
      HandleSafe(Run(f, front), qs[n]);
    }
  }

  /** The legal core.  In every reachable state: a confirmed checklist has no open item
      and no failed safety-critical item; every active, paused or completed mission has
      such a checklist, of its own vehicle, confirmed at most 30 minutes before the
      start; and no vehicle has two open missions. */
  lemma {:induction false} WorkflowIsSafe(qs: seq<Request>)
    requires AllFresh(EMPTY, qs)
    ensures var f := Run(EMPTY, qs);
            && (forall c :: c in f.checklists && f.checklists[c].status == CONFIRMED ==>
                  forall i :: 0 <= i < |f.checklists[c].items| ==>
                    var item := f.checklists[c].items[i];
                    item.status != PENDING && !(item.safetyCritical && item.status == FAIL))
            && (forall m :: m in f.missions && Started(f.missions[m].status) ==>
                  var check := CheckOf(f, f.missions[m]);
                  && check.Some? && check.value.status == CONFIRMED && check.value.vehicleId == f.missions[m].vehicleId
                  && check.value.confirmedAt.Some? && f.missions[m].startedAt.Some?
                  && f.missions[m].startedAt.value - check.value.confirmedAt.value <= 30 * 60 * 1000)
            && OneOpenPerVehicle(f)
  {
    RunSafe(EMPTY, qs);
    var f := Run(EMPTY, qs);
    forall c | c in f.checklists && f.checklists[c].status == CONFIRMED
      ensures forall i :: 0 <= i < |f.checklists[c].items| ==>
                var item := f.checklists[c].items[i];
                item.status != PENDING && !(item.safetyCritical && item.status == FAIL)
    {
      assert CheckOk(f.checklists[c]);
    }
    forall m | m in f.missions && Started(f.missions[m].status)
      ensures CheckOf(f, f.missions[m]).Some? && MissionOk(f, f.missions[m])
    {
      assert MissionOk(f, f.missions[m]);
    }
  }

  /** Evidence is permanent: from any reachable state on, confirmed checklists and
      finished missions never change again, and audit rows are only ever appended. */
  lemma {:induction false} EvidenceIsPermanent(qs: seq<Request>, i: nat, j: nat)
    requires AllFresh(EMPTY, qs) && i <= j <= |qs|
    ensures Keeps(Run(EMPTY, qs[..i]), Run(EMPTY, qs[..j]))
    decreases j
  {
    if i < j {
      EvidenceIsPermanent(qs, i, j - 1);
      var before := qs[..j - 1];
      assert qs[..j][..j - 1] == before;
      assert AllFresh(EMPTY, before) by {
        forall k | 0 <= k < |before| ensures FreshIds(Run(EMPTY, before[..k]), before[k]) {
          assert before[..k] == qs[..k];
        }
      }
      RunSafe(EMPTY, before);
      HandleSafe(Run(EMPTY, before), qs[j - 1]);
      KeepsTrans(Run(EMPTY, qs[..i]), Run(EMPTY, before), Run(EMPTY, qs[..j]));
    }
  }

  /** A mission starts exactly when it awaits its check, the check is confirmed, and the
      confirmation is at most 30 minutes old; a refusal changes nothing but the trail. */
  lemma StartsIff(f: Fleet, id: string, who: string, now: nat)
    requires id in f.missions
    ensures var g := Handle(f, DoMission(id, Start, who, now));
            && (g.missions != f.missions <==> ReadyToStart(f, id, now))
            && (ReadyToStart(f, id, now) ==> g.missions == f.missions[id := f.missions[id].(status := ACTIVE, startedAt := Some(now))])
            && g.checklists == f.checklists && |g.events| == |f.events| + 1
            && (g.events[|f.events|].rejected <==> !ReadyToStart(f, id, now))
  {
  }

  // ------------------------------------------------------------------
  // Who established what
  // ------------------------------------------------------------------

  /** The item is the template's, and a vehicle-reported one still says what the vehicle
      reported. */
  predicate Attributable(item: Item, template: Item) {
    && item.itemId == template.itemId && item.safetyCritical == template.safetyCritical && item.source == template.source
    && (template.source == SELF_DIAGNOSIS ==> item == FreshItem(template))
  }

  /** The stored summary is the summary of the stored items. */
  predicate Summarised(c: Checklist) {
    && |c.items| == |DEFAULT_CHECKLIST|
    && (forall i :: 0 <= i < |c.items| ==> Attributable(c.items[i], DEFAULT_CHECKLIST[i]))
    && (c.status != CONFIRMED ==> c.status == Overall(c.items))
  }

  ghost predicate AllSummarised(f: Fleet) {
    forall c :: c in f.checklists ==> Summarised(f.checklists[c])
  }

  lemma FreshSummarised(vehicleId: string)
    ensures Summarised(Checklist(vehicleId, IN_PROGRESS, FreshItems(DEFAULT_CHECKLIST), "", None))
  {
    assert FreshItems(DEFAULT_CHECKLIST)[3].status == PENDING;
  }

  lemma CreateMissionChecklists(f: Fleet, id: string, checklistId: string, v: string, who: string, fate: Fate, now: nat)
    ensures var g := CreateMission(f, id, checklistId, v, who, fate, now);
            g.checklists == f.checklists ||
            g.checklists == f.checklists[checklistId := Checklist(v, IN_PROGRESS, FreshItems(DEFAULT_CHECKLIST), "", None)]
  {
  }

  lemma HandleSummarised(f: Fleet, q: Request)
    requires AllSummarised(f)
    ensures AllSummarised(Handle(f, q))
  {
    match q
    case NewChecklist(_, v, _) => FreshSummarised(v);
    case NewMission(id, checklistId, v, who, fate, now) =>
      FreshSummarised(v);
      CreateMissionChecklists(f, id, checklistId, v, who, fate, now);
    case CheckItem(id, itemId, status, detail, who) =>
      var r := UpdateItem(f, id, itemId, status, detail, who);
      if r.Some? { assert Summarised(r.value.checklists[id]); }
    case _ =>
  }

  /** Nobody but the vehicle sets a self-diagnosed item: in every reachable state each
      checklist has exactly the prescribed items, the vehicle's results stand as
      reported, and until confirmation the overall status is the items' summary. */
  lemma {:induction false} VehicleResultsStand(qs: seq<Request>)
    ensures AllSummarised(Run(EMPTY, qs))
  {
    if qs != [] {
      VehicleResultsStand(qs[..|qs| - 1]);
      HandleSummarised(Run(EMPTY, qs[..|qs| - 1]), qs[|qs| - 1]);
    }
  }

  /** The mission life cycle. */
  predicate Edge(before: MissionStatus, after: MissionStatus) {
    || before == after
    || (before == PRE_CHECK && after == ACTIVE)
    || (before == ACTIVE && (after == PAUSED || after == COMPLETED))
    || (before == PAUSED && after == ACTIVE)
    || (Open(before) && after == ABORTED)
  }

  /** A request moves at most one existing mission, along an edge of the life cycle,
      and only when it names that mission. */
  lemma MovesAlongEdges(f: Fleet, q: Request, m: string)
    requires FreshIds(f, q) && m in f.missions
    ensures m in Handle(f, q).missions
    ensures Edge(f.missions[m].status, Handle(f, q).missions[m].status)
    ensures Handle(f, q).missions[m] != f.missions[m] ==> q.DoMission? && q.id == m
  {
  }

  /** Each operation succeeds exactly from its own states. */
  lemma OperationAllowedIff(f: Fleet, id: string, op: MissionOp, who: string, now: nat)
    requires id in f.missions
    ensures var s := f.missions[id].status;
            var g := Handle(f, DoMission(id, op, who, now));
            !g.events[|f.events|].rejected <==>
            match op
            case Start => ReadyToStart(f, id, now)
            case Pause => s == ACTIVE
            case Resume => s == PAUSED
            case Abort => !Final(s)
            case Complete => s == ACTIVE
  {
  }

  /** A confirmation is accepted exactly on a complete and clean, not yet confirmed
      checklist; a refused one leaves a row and nothing else. */
  lemma ConfirmsIff(f: Fleet, id: string, who: string, now: nat)
    requires id in f.checklists
    ensures var c := f.checklists[id];
            var g := Handle(f, ConfirmChecklist(id, who, now));
            && |g.events| == |f.events| + 1 && g.missions == f.missions
            && (!g.events[|f.events|].rejected <==>
                  c.status != CONFIRMED && !AnyPending(c.items) && !AnyCriticalFail(c.items))
            && g.checklists == (if g.events[|f.events|].rejected then f.checklists
                                else f.checklists[id := c.(status := CONFIRMED, confirmedBy := who, confirmedAt := Some(now))])
  {
  }
}
