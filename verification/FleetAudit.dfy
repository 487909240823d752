/** The append-only audit rows determine the workflow's state. */
module FleetAudit {
  import opened Wrappers
  import opened FleetSpec

  // ------------------------------------------------------------------
  // Replaying the rows
  // ------------------------------------------------------------------

  /** A checklist as the rows tell it. */
  datatype CheckView = CheckView(items: seq<Item>, status: CheckStatus)

  function CheckRow(view: Option<CheckView>, row: AuditRow): Option<CheckView> {
    match row.action
    case ChecklistCreated(items) => Some(CheckView(items, IN_PROGRESS))
    case CheckItemSet(itemId, status, detail) =>
      if view.None? then None
      else
        var items := SetItem(view.value.items, itemId, status, detail);
        Some(CheckView(items, Overall(items)))
    case ChecklistConfirm => if view.None? then None else Some(view.value.(status := CONFIRMED))
    case _ => view
  }

  /** Folding the accepted rows of one checklist. */
  function ReplayCheck(rows: seq<AuditRow>, id: string): Option<CheckView> {
    if rows == [] then None
    else
      var before := ReplayCheck(rows[..|rows| - 1], id);
      var row := rows[|rows| - 1];
      if row.correlationId != id || row.rejected then before else CheckRow(before, row)
  }

  function MissionRow(view: Option<MissionStatus>, row: AuditRow): Option<MissionStatus> {
    match row.action
    case MissionCreate => Some(AWAITING)
    case MissionStart(_) => Some(ACTIVE)
    case MissionMoved(to) => Some(to)
    case _ => view
  }

  /** Folding the accepted rows of one mission. */
  function ReplayMission(rows: seq<AuditRow>, id: string): Option<MissionStatus> {
    if rows == [] then None
    else
      var before := ReplayMission(rows[..|rows| - 1], id);
      var row := rows[|rows| - 1];
      if row.correlationId != id || row.rejected then before else MissionRow(before, row)
  }

  lemma ReplayAppend(rows: seq<AuditRow>, row: AuditRow, id: string)
    ensures ReplayCheck(rows + [row], id) ==
              if row.correlationId != id || row.rejected then ReplayCheck(rows, id) else CheckRow(ReplayCheck(rows, id), row)
    ensures ReplayMission(rows + [row], id) ==
              if row.correlationId != id || row.rejected then ReplayMission(rows, id) else MissionRow(ReplayMission(rows, id), row)
  {
  }

  // ------------------------------------------------------------------
  // What the state shows
  // ------------------------------------------------------------------

  function CheckShown(f: Fleet, id: string): Option<CheckView> {
    if id in f.checklists then Some(CheckView(f.checklists[id].items, f.checklists[id].status)) else None
  }

  /** Linking a checklist writes no row: the rows cannot tell the two waiting states apart. */
  function Unlinked(s: MissionStatus): MissionStatus {
    if s == PRE_CHECK then AWAITING else s
  }

  function MissionShown(f: Fleet, id: string): Option<MissionStatus> {
    if id in f.missions then Some(Unlinked(f.missions[id].status)) else None
  }

  /** The rows of one entity tell its state. */
  predicate Told(f: Fleet, id: string) {
    ReplayCheck(f.events, id) == CheckShown(f, id) && ReplayMission(f.events, id) == MissionShown(f, id)
  }

  lemma CreateChecklistTold(f: Fleet, c: string, v: string, who: string, id: string)
    requires Told(f, id)
    ensures Told(CreateChecklist(f, c, v, who), id)
  {
  }

  lemma UpdateItemTold(f: Fleet, c: string, itemId: string, status: ItemStatus, detail: string, who: string, id: string)
    requires Told(f, id) && UpdateItem(f, c, itemId, status, detail, who).Some?
    ensures Told(UpdateItem(f, c, itemId, status, detail, who).value, id)
  {
  }

  lemma ConfirmTold(f: Fleet, c: string, who: string, now: nat, id: string)
    requires Told(f, id) && Confirm(f, c, who, now).Some?
    ensures Told(Confirm(f, c, who, now).value, id)
  {
  }

  lemma CreateTold(f: Fleet, m: string, v: string, who: string, id: string)
    requires Told(f, id) && Create(f, m, v, who).Some?
    ensures Told(Create(f, m, v, who).value, id)
  {
  }

  lemma LinkTold(f: Fleet, m: string, c: string, id: string)
    requires Told(f, id) && m in f.missions && f.missions[m].status == AWAITING
    ensures Told(LinkChecklist(f, m, c).value, id)
  {
  }

  lemma OperateTold(f: Fleet, m: string, op: MissionOp, who: string, now: nat, id: string)
    requires Told(f, id) && Operate(f, m, op, who, now).Some?
    ensures Told(Operate(f, m, op, who, now).value, id)
  {
    var g := Operate(f, m, op, who, now).value;
    var row := OperationRow(f, m, op, who, now);
    ReplayAppend(f.events, row, id);
    NoChecklistRow(row);
  }

  /** An operation writes one row, of its own mission and with the state it moves to. */
  lemma OperationRow(f: Fleet, m: string, op: MissionOp, who: string, now: nat) returns (row: AuditRow)
    requires Operate(f, m, op, who, now).Some?
    ensures var g := Operate(f, m, op, who, now).value;
            && g.events == f.events + [row] && row.correlationId == m && !row.rejected
            && g.checklists == f.checklists && m in f.missions && g.missions == f.missions[m := g.missions[m]]
            && g.missions[m].status != PRE_CHECK
            && (row.action.MissionStart? || row.action.MissionMoved?)
            && forall view :: MissionRow(view, row) == Some(g.missions[m].status)
  {
    var g := Operate(f, m, op, who, now).value;
    row := g.events[|f.events|];
  }

  lemma NoChecklistRow(row: AuditRow)
    requires row.action.MissionStart? || row.action.MissionMoved?
    ensures forall view :: CheckRow(view, row) == view
  {
  }

  /** A refused attempt is on the trail and changes no replay. */
  lemma RefusedTold(f: Fleet, correlationId: string, v: string, who: string, action: AuditAction, id: string)
    requires Told(f, id)
    ensures Told(Refused(f, correlationId, v, who, action), id)
  {
  }

  lemma CleanUpTold(f: Fleet, m: string, cleaned: bool, now: nat, id: string)
    requires Told(f, id)
    ensures Told(CleanUp(f, m, cleaned, now), id)
  {
  }

  lemma CreateMissionTold(f: Fleet, m: string, c: string, v: string, who: string, fate: Fate, now: nat, id: string)
    requires Told(f, id)
    ensures Told(CreateMission(f, m, c, v, who, fate, now), id)
  {
    if Create(f, m, v, who).Some? {
      CreateTold(f, m, v, who, id);
      var a := Create(f, m, v, who).value;
      if fate.NoChecklist? {
        CleanUpTold(a, m, fate.cleaned, now, id);
      } else {
        CreateChecklistTold(a, c, v, who, id);
        var b := CreateChecklist(a, c, v, who);
        if fate.NotLinked? { CleanUpTold(b, m, fate.cleaned, now, id); } else { LinkTold(b, m, c, id); }
      }
    }
  }

  lemma {:induction false} HandleTold(f: Fleet, q: Request, id: string)
    requires Told(f, id)
    ensures Told(Handle(f, q), id)
  {
    match q
    case NewChecklist(c, v, who) => CreateChecklistTold(f, c, v, who, id);
    case CheckItem(c, itemId, status, detail, who) =>
      if UpdateItem(f, c, itemId, status, detail, who).Some? { UpdateItemTold(f, c, itemId, status, detail, who, id); }
    case ConfirmChecklist(c, who, now) =>
      if c in f.checklists {
        if Confirm(f, c, who, now).Some? {
          ConfirmTold(f, c, who, now, id);
        } else {
          RefusedTold(f, c, f.checklists[c].vehicleId, who, AuditAction.ChecklistConfirm, id);
        }
      }
    case NewMission(m, c, v, who, fate, now) => CreateMissionTold(f, m, c, v, who, fate, now, id);
    case DoMission(m, op, who, now) =>
      if m in f.missions {
        if Operate(f, m, op, who, now).Some? {
          OperateTold(f, m, op, who, now, id);
        } else {
          RefusedTold(f, m, f.missions[m].vehicleId, who, AttemptAction(op), id);
        }
      }
  }

  /** The audit trail determines the state: after any run of requests, replaying the
      rows gives every checklist's items and status exactly, every mission's status up
      to whether its checklist is linked yet, and nothing for an id that was never used. */
  lemma {:induction false} TrailDeterminesState(qs: seq<Request>, id: string)
    ensures var f := Run(EMPTY, qs);
            && ReplayCheck(f.events, id) == CheckShown(f, id)
            && ReplayMission(f.events, id) == MissionShown(f, id)
  {
    if qs != [] {
      var front := qs[..|qs| - 1];
      TrailDeterminesState(front, id);
      HandleTold(Run(EMPTY, front), qs[|qs| - 1], id);
    }
  }

  /** And no more than that: a linked mission and one whose linking failed leave the
      very same rows. */
  lemma RowsHideLink(id: string, c: string, v: string, who: string, now: nat)
    requires id != c
    ensures var linked := Run(EMPTY, [NewMission(id, c, v, who, Succeeds, now)]);
            var stuck := Run(EMPTY, [NewMission(id, c, v, who, NotLinked(false), now)]);
            && linked.events == stuck.events
            && id in linked.missions && linked.missions[id].status == PRE_CHECK
            && id in stuck.missions && stuck.missions[id].status == AWAITING
  {
  }
}
