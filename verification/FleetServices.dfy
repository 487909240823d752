/** The fleet services over their shared database. */
module FleetServices {
  import opened Wrappers
  import opened FleetSpec

  class Database {
    var missions: map<string, Mission>
    var checklists: map<string, Checklist>
    var events: seq<AuditRow>

    constructor ()
      ensures Value() == EMPTY
    {
      missions, checklists, events := map[], map[], [];
    }

    ghost function Value(): Fleet
      reads this
    {
      Fleet(missions, checklists, events)
    }

    method Append(correlationId: string, vehicleId: string, issuer: string, action: AuditAction, rejected: bool)
      modifies this`events
      ensures Value() == Log(old(Value()), AuditRow(correlationId, vehicleId, issuer, action, rejected))
    {
      events := events + [AuditRow(correlationId, vehicleId, issuer, action, rejected)];
    }
  }

  class PreDepartureService {
    const db: Database

    constructor (db: Database)
      ensures this.db == db
    {
      this.db := db;
    }

    method CreateChecklist(id: string, vehicleId: string, createdBy: string)
      modifies db
      ensures db.Value() == FleetSpec.CreateChecklist(old(db.Value()), id, vehicleId, createdBy)
    {
      var items := FreshItems(DEFAULT_CHECKLIST);
      db.checklists := db.checklists[id := Checklist(vehicleId, IN_PROGRESS, items, "", None)];
      db.Append(id, vehicleId, createdBy, ChecklistCreated(items), false);
    }

    method UpdateItem(id: string, itemId: string, status: ItemStatus, detail: string, operatorId: string) returns (ok: bool)
      modifies db
      ensures var r := FleetSpec.UpdateItem(old(db.Value()), id, itemId, status, detail, operatorId);
              (ok <==> r.Some?) && db.Value() == if ok then r.value else old(db.Value())
    {
      if id !in db.checklists { return false; }
      var rec := db.checklists[id];
      if rec.status == CONFIRMED { return false; }
      var k := Find(rec.items, itemId);
      if k == |rec.items| || rec.items[k].source != OPERATOR { return false; }
      var items := rec.items[k := WithResult(rec.items[k], status, detail)];
      var allDone := !AnyPending(items);
      var anyFail := AnyCriticalFail(items);
      var checkStatus := if allDone then (if anyFail then FAILED else PASSED) else IN_PROGRESS;
      db.checklists := db.checklists[id := rec.(status := checkStatus, items := items)];
      db.Append(id, rec.vehicleId, operatorId, CheckItemSet(itemId, status, detail), false);
      ok := true;
    }

    method Confirm(id: string, operatorId: string, now: nat) returns (ok: bool)
      modifies db
      ensures var r := FleetSpec.Confirm(old(db.Value()), id, operatorId, now);
              (ok <==> r.Some?) && db.Value() == if ok then r.value else old(db.Value())
    {
      if id !in db.checklists { return false; }
      var rec := db.checklists[id];
      if rec.status == CONFIRMED { return false; }
      if AnyPending(rec.items) { return false; }
      if AnyCriticalFail(rec.items) { return false; }
      db.checklists := db.checklists[id := rec.(status := CONFIRMED, confirmedBy := operatorId, confirmedAt := Some(now))];
      db.Append(id, rec.vehicleId, operatorId, AuditAction.ChecklistConfirm, false);
      ok := true;
    }
  }

  class MissionService {
    const db: Database

    constructor (db: Database)
      ensures this.db == db
    {
      this.db := db;
    }

    method Create(id: string, vehicleId: string, createdBy: string) returns (ok: bool)
      modifies db
      ensures var r := FleetSpec.Create(old(db.Value()), id, vehicleId, createdBy);
              (ok <==> r.Some?) && db.Value() == if ok then r.value else old(db.Value())
    {
      var busy := exists m :: m in db.missions && db.missions[m].vehicleId == vehicleId && Open(db.missions[m].status);
      if busy { return false; }
      db.missions := db.missions[id := Mission(vehicleId, AWAITING, None, None, None)];
      db.Append(id, vehicleId, createdBy, MissionCreate, false);
      ok := true;
    }

    method LinkChecklist(id: string, checklistId: string) returns (ok: bool)
      modifies db`missions
      ensures var r := FleetSpec.LinkChecklist(old(db.Value()), id, checklistId);
              (ok <==> r.Some?) && db.Value() == if ok then r.value else old(db.Value())
    {
      if id !in db.missions { return false; }
      db.missions := db.missions[id := db.missions[id].(checklistId := Some(checklistId), status := PRE_CHECK)];
      ok := true;
    }

    method Start(id: string, startedBy: string, now: nat) returns (ok: bool)
      modifies db
      ensures var r := StartMission(old(db.Value()), id, startedBy, now);
              (ok <==> r.Some?) && db.Value() == if ok then r.value else old(db.Value())
    {
      if id !in db.missions { return false; }
      var m := db.missions[id];
      if m.status != PRE_CHECK { return false; }
      if m.checklistId.None? || m.checklistId.value !in db.checklists { return false; }
      var check := db.checklists[m.checklistId.value];
      if check.status != CONFIRMED { return false; }
      if check.confirmedAt.None? || check.confirmedAt.value == 0 { return false; }
      if now - check.confirmedAt.value > CHECKLIST_MAX_AGE_MS { return false; }
      db.missions := db.missions[id := m.(status := ACTIVE, startedAt := Some(now))];
      db.Append(id, m.vehicleId, startedBy, MissionStart(m.checklistId), false);
      ok := true;
    }

    method Transition(id: string, to: MissionStatus, fromAllowed: set<MissionStatus>, issuer: string, now: nat) returns (ok: bool)
      modifies db
      ensures var r := FleetSpec.Transition(old(db.Value()), id, to, fromAllowed, issuer, now);
              (ok <==> r.Some?) && db.Value() == if ok then r.value else old(db.Value())
    {
      if id !in db.missions { return false; }
      var m := db.missions[id];
      if m.status !in fromAllowed { return false; }
      var data := m.(status := to);
      if to == COMPLETED || to == ABORTED { data := data.(completedAt := Some(now)); }
      if to == ACTIVE && m.startedAt.None? { data := data.(startedAt := Some(now)); }
      db.missions := db.missions[id := data];
      db.Append(id, m.vehicleId, issuer, MissionMoved(to), false);
      ok := true;
    }

    method Operate(id: string, op: MissionOp, issuer: string, now: nat) returns (ok: bool)
      modifies db
      ensures var r := FleetSpec.Operate(old(db.Value()), id, op, issuer, now);
              (ok <==> r.Some?) && db.Value() == if ok then r.value else old(db.Value())
    {
      match op
      case Start => ok := Start(id, issuer, now);
      case Pause => ok := Transition(id, PAUSED, {ACTIVE}, issuer, now);
      case Resume => ok := Transition(id, ACTIVE, {PAUSED}, issuer, now);
      case Abort => ok := Transition(id, ABORTED, {AWAITING, PRE_CHECK, ACTIVE, PAUSED}, issuer, now);
      case Complete => ok := Transition(id, COMPLETED, {ACTIVE}, issuer, now);
    }
  }

  /** How a request ends. */
  datatype Reply = Ok | NotFound | Unauthorized | BadRequest

  /** `holds` is the session check: does the caller hold the vehicle's fencing lock? */
  class FleetController {
    const db: Database
    const preDeparture: PreDepartureService
    const missions: MissionService

    predicate Valid() {
      preDeparture.db == db && missions.db == db
    }

    constructor (db: Database, preDeparture: PreDepartureService, missions: MissionService)
      requires preDeparture.db == db && missions.db == db
      ensures Valid() && this.db == db
    {
      this.db, this.preDeparture, this.missions := db, preDeparture, missions;
    }

    method CreateChecklist(id: string, vehicleId: string, operatorId: string, holds: bool) returns (r: Reply)
      requires Valid()
      modifies db
      ensures r == if holds then Ok else Unauthorized
      ensures db.Value() == if holds then Handle(old(db.Value()), NewChecklist(id, vehicleId, operatorId)) else old(db.Value())
    {
      if !holds { return Unauthorized; }
      preDeparture.CreateChecklist(id, vehicleId, operatorId);
      r := Ok;
    }

    method UpdateCheckItem(id: string, itemId: string, status: ItemStatus, detail: string, operatorId: string, holds: bool)
      returns (r: Reply)
      requires Valid()
      modifies db
      ensures r == NotFound <==> id !in old(db.checklists)
      ensures r == Unauthorized <==> r != NotFound && !holds
      ensures r == Ok <==> holds && FleetSpec.UpdateItem(old(db.Value()), id, itemId, status, detail, operatorId).Some?
      ensures db.Value() == if r == NotFound || r == Unauthorized then old(db.Value())
                            else Handle(old(db.Value()), CheckItem(id, itemId, status, detail, operatorId))
    {
      if id !in db.checklists { return NotFound; }
      if !holds { return Unauthorized; }
      var ok := preDeparture.UpdateItem(id, itemId, status, detail, operatorId);
      r := if ok then Ok else BadRequest;
    }

    method ConfirmChecklist(id: string, operatorId: string, holds: bool, now: nat) returns (r: Reply)
      requires Valid()
      modifies db
      ensures r == NotFound <==> id !in old(db.checklists)
      ensures r == Unauthorized <==> r != NotFound && !holds
      ensures r == Ok <==> holds && FleetSpec.Confirm(old(db.Value()), id, operatorId, now).Some?
      ensures db.Value() == if r == NotFound || r == Unauthorized then old(db.Value())
                            else Handle(old(db.Value()), Request.ConfirmChecklist(id, operatorId, now))
    {
      if id !in db.checklists { return NotFound; }
      var vehicleId := db.checklists[id].vehicleId;
      if !holds { return Unauthorized; }
      var ok := preDeparture.Confirm(id, operatorId, now);
      if ok { return Ok; }
      db.Append(id, vehicleId, operatorId, AuditAction.ChecklistConfirm, true);
      r := BadRequest;
    }

    /** Mission, checklist, link; if the database fails part-way, the mission is aborted. */
    method CreateMission(id: string, checklistId: string, vehicleId: string, operatorId: string, holds: bool, fate: Fate, now: nat)
      returns (r: Reply)
      requires Valid()
      modifies db
      ensures r == Unauthorized <==> !holds
      ensures r == Ok <==> holds && !HasOpen(old(db.Value()), vehicleId) && fate == Succeeds
      ensures db.Value() == if holds then Handle(old(db.Value()), NewMission(id, checklistId, vehicleId, operatorId, fate, now))
                            else old(db.Value())
    {
      if !holds { return Unauthorized; }
      var created := missions.Create(id, vehicleId, operatorId);
      if !created { return BadRequest; }
      if !fate.NoChecklist? {
        preDeparture.CreateChecklist(checklistId, vehicleId, operatorId);
        if fate.Succeeds? {
          var linked := missions.LinkChecklist(id, checklistId);
          return Ok;
        }
      }
      if fate.cleaned {
        var aborted := missions.Operate(id, Abort, "SYSTEM-CLEANUP", now);
      }
      r := BadRequest;
    }

    method MissionOperation(id: string, op: MissionOp, operatorId: string, holds: bool, now: nat) returns (r: Reply)
      requires Valid()
      modifies db
      ensures r == NotFound <==> id !in old(db.missions)
      ensures r == Unauthorized <==> r != NotFound && !holds
      ensures r == Ok <==> holds && FleetSpec.Operate(old(db.Value()), id, op, operatorId, now).Some?
      ensures db.Value() == if r == NotFound || r == Unauthorized then old(db.Value())
                            else Handle(old(db.Value()), DoMission(id, op, operatorId, now))
    {
      if id !in db.missions { return NotFound; }
      var vehicleId := db.missions[id].vehicleId;
      if !holds { return Unauthorized; }
      var ok := missions.Operate(id, op, operatorId, now);
      if ok { return Ok; }
      db.Append(id, vehicleId, operatorId, AttemptAction(op), true);
      r := BadRequest;
    }
  }
}
