/** The fleet workflow: pre-departure checklists, missions and their append-only audit
    rows, as functions on the database. */
module FleetSpec {
  import opened Wrappers

  // ------------------------------------------------------------------
  // Entities
  // ------------------------------------------------------------------

  /** A status column holds any text; three texts mean something. */
  datatype ItemStatus = PENDING | PASS | FAIL | OtherStatus(text: string)
  datatype Source = SELF_DIAGNOSIS | OPERATOR
  datatype Item = Item(itemId: string, safetyCritical: bool, source: Source, status: ItemStatus, detail: string)

  datatype CheckStatus = IN_PROGRESS | PASSED | FAILED | CONFIRMED
  datatype Checklist = Checklist(
    vehicleId: string, status: CheckStatus, items: seq<Item>, confirmedBy: string, confirmedAt: Option<nat>)

  datatype MissionStatus = AWAITING | PRE_CHECK | ACTIVE | PAUSED | COMPLETED | ABORTED
  datatype Mission = Mission(
    vehicleId: string, status: MissionStatus, checklistId: Option<string>, startedAt: Option<nat>, completedAt: Option<nat>)

  datatype MissionOp = Start | Pause | Resume | Abort | Complete

  /** One row per action; a refused attempt is a row marked `rejected`. */
  datatype AuditAction =
    | ChecklistCreated(items: seq<Item>)
    | CheckItemSet(itemId: string, status: ItemStatus, detail: string)
    | ChecklistConfirm
    | MissionCreate
    | MissionStart(checklistId: Option<string>)
    | MissionMoved(to: MissionStatus)
    | MissionAttempt(op: MissionOp)

  datatype AuditRow = AuditRow(correlationId: string, vehicleId: string, issuer: string, action: AuditAction, rejected: bool)

  datatype Fleet = Fleet(missions: map<string, Mission>, checklists: map<string, Checklist>, events: seq<AuditRow>)

  const EMPTY := Fleet(map[], map[], [])
  const CHECKLIST_MAX_AGE_MS: nat := 30 * 60 * 1000

  const DEFAULT_CHECKLIST: seq<Item> := [
    Item("brakes-main", true, SELF_DIAGNOSIS, PENDING, ""),
    Item("brakes-park", true, SELF_DIAGNOSIS, PENDING, ""),
    Item("steering", true, SELF_DIAGNOSIS, PENDING, ""),
    Item("tires", true, OPERATOR, PENDING, ""),
    Item("lights-head", true, OPERATOR, PENDING, ""),
    Item("lights-turn", true, OPERATOR, PENDING, ""),
    Item("cam-front", true, SELF_DIAGNOSIS, PENDING, ""),
    Item("lidar", true, SELF_DIAGNOSIS, PENDING, ""),
    Item("motor", true, SELF_DIAGNOSIS, PENDING, ""),
    Item("connectivity", false, SELF_DIAGNOSIS, PENDING, "")
  ]

  /** Vehicle-reported items start passed, the operator's start open. */
  function FreshItem(t: Item): Item {
    t.(status := if t.source == SELF_DIAGNOSIS then PASS else PENDING)
  }

  function FreshItems(templates: seq<Item>): seq<Item> {
    seq(|templates|, i requires 0 <= i < |templates| => FreshItem(templates[i]))
  }

  function Log(f: Fleet, row: AuditRow): Fleet {
    f.(events := f.events + [row])
  }

  function Refused(f: Fleet, correlationId: string, vehicleId: string, issuer: string, action: AuditAction): Fleet {
    Log(f, AuditRow(correlationId, vehicleId, issuer, action, true))
  }

  // ------------------------------------------------------------------
  // Checklists
  // ------------------------------------------------------------------

  predicate AnyPending(items: seq<Item>) {
    exists i :: 0 <= i < |items| && items[i].status == PENDING
  }

  predicate AnyCriticalFail(items: seq<Item>) {
    exists i :: 0 <= i < |items| && items[i].safetyCritical && items[i].status == FAIL
  }

  function Overall(items: seq<Item>): CheckStatus {
    if AnyPending(items) then IN_PROGRESS else if AnyCriticalFail(items) then FAILED else PASSED
  }

  /** The first item with this id, or the number of items. */
  function Find(items: seq<Item>, itemId: string): (k: nat)
    ensures k <= |items|
    ensures k < |items| ==> items[k].itemId == itemId
    ensures forall i :: 0 <= i < k ==> items[i].itemId != itemId
  {
    if items == [] || items[0].itemId == itemId then 0
    else
      var k := Find(items[1..], itemId);
      assert forall i :: 1 <= i < k + 1 ==> items[i] == items[1..][i - 1];
      k + 1
  }

  function WithResult(item: Item, status: ItemStatus, detail: string): Item {
    item.(status := status, detail := if detail != "" then detail else item.detail)
  }

  function SetItem(items: seq<Item>, itemId: string, status: ItemStatus, detail: string): seq<Item> {
    var k := Find(items, itemId);
    if k == |items| then items else items[k := WithResult(items[k], status, detail)]
  }

  function CreateChecklist(f: Fleet, id: string, vehicleId: string, createdBy: string): Fleet {
    var items := FreshItems(DEFAULT_CHECKLIST);
    Log(f.(checklists := f.checklists[id := Checklist(vehicleId, IN_PROGRESS, items, "", None)]),
        AuditRow(id, vehicleId, createdBy, ChecklistCreated(items), false))
  }

  /** `None` is the thrown error: the transaction leaves no trace. */
  function UpdateItem(f: Fleet, id: string, itemId: string, status: ItemStatus, detail: string, operatorId: string): Option<Fleet> {
    if id !in f.checklists || f.checklists[id].status == CONFIRMED then None
    else
      var rec := f.checklists[id];
      var k := Find(rec.items, itemId);
      if k == |rec.items| || rec.items[k].source != OPERATOR then None
      else
        var items := SetItem(rec.items, itemId, status, detail);
        Some(Log(f.(checklists := f.checklists[id := rec.(status := Overall(items), items := items)]),
                 AuditRow(id, rec.vehicleId, operatorId, CheckItemSet(itemId, status, detail), false)))
  }

  function Confirm(f: Fleet, id: string, operatorId: string, now: nat): Option<Fleet> {
    if id !in f.checklists || f.checklists[id].status == CONFIRMED then None
    else
      var rec := f.checklists[id];
      if AnyPending(rec.items) || AnyCriticalFail(rec.items) then None
      else
        Some(Log(f.(checklists := f.checklists[id := rec.(status := CONFIRMED, confirmedBy := operatorId, confirmedAt := Some(now))]),
                 AuditRow(id, rec.vehicleId, operatorId, ChecklistConfirm, false)))
  }

  // ------------------------------------------------------------------
  // Missions
  // ------------------------------------------------------------------

  predicate Open(s: MissionStatus) { s == AWAITING || s == PRE_CHECK || s == ACTIVE || s == PAUSED }
  predicate Started(s: MissionStatus) { s == ACTIVE || s == PAUSED || s == COMPLETED }
  predicate Final(s: MissionStatus) { s == COMPLETED || s == ABORTED }

  predicate HasOpen(f: Fleet, vehicleId: string) {
    exists m :: m in f.missions && f.missions[m].vehicleId == vehicleId && Open(f.missions[m].status)
  }

  function Create(f: Fleet, id: string, vehicleId: string, createdBy: string): Option<Fleet> {
    if HasOpen(f, vehicleId) then None
    else Some(Log(f.(missions := f.missions[id := Mission(vehicleId, AWAITING, None, None, None)]),
                  AuditRow(id, vehicleId, createdBy, MissionCreate, false)))
  }

  function LinkChecklist(f: Fleet, id: string, checklistId: string): Option<Fleet> {
    if id !in f.missions then None
    else Some(f.(missions := f.missions[id := f.missions[id].(checklistId := Some(checklistId), status := PRE_CHECK)]))
  }

  /** The linked checklist, if the mission has one. */
  function CheckOf(f: Fleet, m: Mission): Option<Checklist> {
    if m.checklistId.Some? && m.checklistId.value in f.checklists then Some(f.checklists[m.checklistId.value]) else None
  }

  predicate ReadyToStart(f: Fleet, id: string, now: nat) {
    && id in f.missions && f.missions[id].status == PRE_CHECK
    && var check := CheckOf(f, f.missions[id]);
      && check.Some? && check.value.status == CONFIRMED
      && check.value.confirmedAt.Some? && check.value.confirmedAt.value != 0
      && now - check.value.confirmedAt.value <= CHECKLIST_MAX_AGE_MS
  }

  function StartMission(f: Fleet, id: string, startedBy: string, now: nat): Option<Fleet> {
    if !ReadyToStart(f, id, now) then None
    else
      var m := f.missions[id];
      Some(Log(f.(missions := f.missions[id := m.(status := ACTIVE, startedAt := Some(now))]),
               AuditRow(id, m.vehicleId, startedBy, MissionStart(m.checklistId), false)))
  }

  function Transition(f: Fleet, id: string, to: MissionStatus, fromAllowed: set<MissionStatus>, issuer: string, now: nat): Option<Fleet> {
    if id !in f.missions || f.missions[id].status !in fromAllowed then None
    else
      var m := f.missions[id];
      var moved := m.(status := to,
                      completedAt := if Final(to) then Some(now) else m.completedAt,
                      startedAt := if to == ACTIVE && m.startedAt.None? then Some(now) else m.startedAt);
      Some(Log(f.(missions := f.missions[id := moved]), AuditRow(id, m.vehicleId, issuer, MissionMoved(to), false)))
  }

  function Operate(f: Fleet, id: string, op: MissionOp, issuer: string, now: nat): Option<Fleet> {
    match op
    case Start => StartMission(f, id, issuer, now)
    case Pause => Transition(f, id, PAUSED, {ACTIVE}, issuer, now)
    case Resume => Transition(f, id, ACTIVE, {PAUSED}, issuer, now)
    case Abort => Transition(f, id, ABORTED, {AWAITING, PRE_CHECK, ACTIVE, PAUSED}, issuer, now)
    case Complete => Transition(f, id, COMPLETED, {ACTIVE}, issuer, now)
  }

  // ------------------------------------------------------------------
  // Controller requests
  // ------------------------------------------------------------------

  /** How far the database lets a mission creation get, and whether the clean-up abort
      then goes through. */
  datatype Fate = Succeeds | NoChecklist(cleaned: bool) | NotLinked(cleaned: bool)

  datatype Request =
    | NewChecklist(id: string, vehicleId: string, issuer: string)
    | CheckItem(id: string, itemId: string, status: ItemStatus, detail: string, issuer: string)
    | ConfirmChecklist(id: string, issuer: string, now: nat)
    | NewMission(id: string, checklistId: string, vehicleId: string, issuer: string, fate: Fate, now: nat)
    | DoMission(id: string, op: MissionOp, issuer: string, now: nat)

  function CleanUp(f: Fleet, id: string, cleaned: bool, now: nat): Fleet {
    if !cleaned then f
    else
      var aborted := Operate(f, id, Abort, "SYSTEM-CLEANUP", now);
      if aborted.Some? then aborted.value else f
  }

  function CreateMission(f: Fleet, id: string, checklistId: string, vehicleId: string, createdBy: string, fate: Fate, now: nat): Fleet {
    var created := Create(f, id, vehicleId, createdBy);
    if created.None? then f
    else
      match fate
      case NoChecklist(cleaned) => CleanUp(created.value, id, cleaned, now)
      case NotLinked(cleaned) => CleanUp(CreateChecklist(created.value, checklistId, vehicleId, createdBy), id, cleaned, now)
      case Succeeds =>
        var linked := LinkChecklist(CreateChecklist(created.value, checklistId, vehicleId, createdBy), id, checklistId);
        if linked.Some? then linked.value else f
  }

  /** The action column of a refused attempt: a refused start reads like an accepted one. */
  function AttemptAction(op: MissionOp): AuditAction {
    if op == Start then MissionStart(None) else MissionAttempt(op)
  }

  /** One authorised controller request, ids drawn fresh where something is created. */
  function Handle(f: Fleet, q: Request): Fleet {
    match q
    case NewChecklist(id, v, who) => CreateChecklist(f, id, v, who)
    case CheckItem(id, itemId, status, detail, who) =>
      var r := UpdateItem(f, id, itemId, status, detail, who);
      if r.Some? then r.value else f
    case ConfirmChecklist(id, who, now) =>
      if id !in f.checklists then f
      else
        var r := Confirm(f, id, who, now);
        if r.Some? then r.value else Refused(f, id, f.checklists[id].vehicleId, who, AuditAction.ChecklistConfirm)
    case NewMission(id, checklistId, v, who, fate, now) => CreateMission(f, id, checklistId, v, who, fate, now)
    case DoMission(id, op, who, now) =>
      if id !in f.missions then f
      else
        var r := Operate(f, id, op, who, now);
        if r.Some? then r.value else Refused(f, id, f.missions[id].vehicleId, who, AttemptAction(op))
  }

  /** Ids are never drawn twice. */
  predicate FreshIds(f: Fleet, q: Request) {
    && (q.NewChecklist? ==> q.id !in f.checklists)
    && (q.NewMission? ==> q.id !in f.missions && q.checklistId !in f.checklists)
  }

  function Run(f: Fleet, qs: seq<Request>): Fleet {
    if qs == [] then f else Handle(Run(f, qs[..|qs| - 1]), qs[|qs| - 1])
  }

  predicate AllFresh(f: Fleet, qs: seq<Request>) {
    forall i :: 0 <= i < |qs| ==> FreshIds(Run(f, qs[..i]), qs[i])
  }
}
