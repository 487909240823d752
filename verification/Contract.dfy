/** The shared command contract: modes, zones, the command catalogue, and the
    zone/mode policy both gates read.  Gate 1 (cloud) calls the `Is...` functions
    directly; Gate 2 (vehicle) evaluates the generated policy document. */
module Wrappers {
  datatype Option<+T> = None | Some(value: T)

  function Max(a: int, b: int): int { if a < b then b else a }
}

module Contract {
  import opened Wrappers

  datatype OperationMode = MODE1 | MODE2 | DIAG

  /** `UnlistedZone` is a zone label without a matrix row (the vehicle may be
      seeded with any string): both gates must fail closed on it. */
  datatype ZoneType =
    | PublicApprovedRoute | PublicTestPermit | Depot | PrivateSite | PermittedTest | OutOfTod
    | UnlistedZone(name: string)

  datatype Action =
    | SAFE_STOP | E_STOP | CLEAR_SAFE_STOP
    | CONFIRM_MANEUVER | REJECT_MANEUVER | SELECT_ALTERNATIVE
    | START_MISSION | PAUSE_MISSION | ABORT_MISSION
    | ACTIVATE_ADS | DEACTIVATE_ADS | RESUME_AUTONOMY
    | CONFIRM_PRE_DEPARTURE_CHECK | INTERCOM | PERSON_SAFETY | MARK_COMPLETED | HAZARD_LIGHTS
    | STEER | DRIVE | SELECT_DIRECTION | CREEP | TURN | PARK | LIGHTS | HORN | SPEAKER
    | RESTART_SERVICE | RESTART_COMPUTER | RESTART_SENSOR | UPDATE_CONFIG | PULL_LOGS

  datatype Direction = FORWARD | REVERSE | NEUTRAL
  datatype Turning = LEFT | RIGHT | STRAIGHT

  /** A schema-valid command payload.  The parameters of the actions that no
      gate and no actuator reads are not carried (`Plain`). */
  datatype Payload =
    | ConfirmManeuver(proposalId: string, confirmOption: Option<string>)
    | RejectManeuver(proposalId: string)
    | SelectAlternative(proposalId: string, optionId: string)
    | Steer(angle: real)
    | Drive(throttle: real, brake: real)
    | SelectDirection(direction: Direction)
    | Creep(speedKmh: real)
    | Turn(turning: Turning)
    | Park(engage: bool)
    | Plain(plain: PlainAction)
  {
    function Action(): Action {
      match this
      case ConfirmManeuver(_, _) => CONFIRM_MANEUVER
      case RejectManeuver(_) => REJECT_MANEUVER
      case SelectAlternative(_, _) => SELECT_ALTERNATIVE
      case Steer(_) => STEER
      case Drive(_, _) => DRIVE
      case SelectDirection(_) => SELECT_DIRECTION
      case Creep(_) => CREEP
      case Turn(_) => TURN
      case Park(_) => PARK
      case Plain(a) => a
    }
  }

  /** Actions whose parameters nothing in this model reads. */
  type PlainAction = a: Action |
    a !in {CONFIRM_MANEUVER, REJECT_MANEUVER, SELECT_ALTERNATIVE, STEER, DRIVE, SELECT_DIRECTION, CREEP, TURN, PARK}
    witness SAFE_STOP

  /** Payloads of direct remote driving. */
  predicate Drives(p: Payload) {
    p.Steer? || p.Drive? || p.SelectDirection? || p.Creep? || p.Turn? || p.Park? || p == Plain(LIGHTS)
  }

  datatype RejectReason =
    | UNAUTHORIZED | INVALID_TOKEN | GEOFENCE_VIOLATION | SCHEMA_INVALID | TTL_EXPIRED
    | MODE_MISMATCH | SAFE_STOP_LATCHED | DIAG_DEFERRED | PERMIT_SPEED_LIMIT

  /** The vehicle's answer to one command: an ACK, or a rejection with its reason.  The
      published text is a function of these two, so equal answers are equal bytes. */
  datatype Ack = Ack(commandId: string, reason: Option<RejectReason>)

  function Acked(commandId: string): Ack { Ack(commandId, None) }
  function Nacked(commandId: string, r: RejectReason): Ack { Ack(commandId, Some(r)) }

  datatype ZonePermissions = ZonePermissions(mode1: bool, mode2: bool, diagRead: bool, diagActions: bool)

  // ---- Gate 1: the contract's own tables and functions ----

  const ZONE_MODE_MATRIX: map<ZoneType, ZonePermissions> := map[
    PublicApprovedRoute := ZonePermissions(true, false, true, true),
    PublicTestPermit := ZonePermissions(true, true, true, true),
    Depot := ZonePermissions(true, true, true, true),
    PrivateSite := ZonePermissions(true, true, true, true),
    PermittedTest := ZonePermissions(true, true, true, true),
    OutOfTod := ZonePermissions(false, false, true, false)
  ]

  const MODE2_ACTIONS := [STEER, DRIVE, SELECT_DIRECTION, CREEP, TURN, PARK, LIGHTS]
  const DIAG_READ_ACTIONS := [PULL_LOGS]
  const DIAG_DISRUPTIVE_ACTIONS := [RESTART_SERVICE, RESTART_COMPUTER, RESTART_SENSOR, UPDATE_CONFIG]
  const DIAG_ACTIONS := DIAG_READ_ACTIONS + DIAG_DISRUPTIVE_ACTIONS
  const DIAG_RESTRICTED_ZONES: seq<ZoneType> := [PublicApprovedRoute]

  function InferMode(action: Action): OperationMode {
    if action in MODE2_ACTIONS then MODE2
    else if action in DIAG_ACTIONS then DIAG
    else MODE1
  }

  predicate IsModeAllowedInZone(zone: ZoneType, mode: OperationMode) {
    zone in ZONE_MODE_MATRIX &&
    match mode
    case MODE1 => ZONE_MODE_MATRIX[zone].mode1
    case MODE2 => ZONE_MODE_MATRIX[zone].mode2
    case DIAG => ZONE_MODE_MATRIX[zone].diagRead
  }

  predicate IsDiagDisruptiveAllowed(action: Action, zone: ZoneType, isStationary: bool) {
    if action !in DIAG_DISRUPTIVE_ACTIONS then true
    else if zone !in ZONE_MODE_MATRIX || !ZONE_MODE_MATRIX[zone].diagActions then false
    else if zone in DIAG_RESTRICTED_ZONES then isStationary
    else true
  }

  // ---- Gate 2: the policy document the vehicle loads at start-up ----

  datatype ZoneModePolicy = ZoneModePolicy(
    zoneModeMatrix: map<ZoneType, ZonePermissions>,
    mode2Actions: seq<Action>,
    diagReadActions: seq<Action>,
    diagDisruptiveActions: seq<Action>,
    diagRestrictedZones: seq<ZoneType>)
  {
    predicate ModeAllowedInZone(zone: ZoneType, mode: OperationMode) {
      if zone !in zoneModeMatrix then false
      else
        match mode
        case MODE1 => zoneModeMatrix[zone].mode1
        case MODE2 => zoneModeMatrix[zone].mode2
        case DIAG => zoneModeMatrix[zone].diagRead
    }

    function InferMode(action: Action): OperationMode {
      if action in mode2Actions then MODE2
      else if action in diagReadActions || action in diagDisruptiveActions then DIAG
      else MODE1
    }

    predicate DiagDisruptiveAllowed(action: Action, zone: ZoneType, isStationary: bool) {
      if action !in diagDisruptiveActions then true
      else if zone !in zoneModeMatrix then false
      else if !zoneModeMatrix[zone].diagActions then false
      else if zone in diagRestrictedZones then isStationary
      else true
    }
  }

  /** The document the contract build emits. */
  function GeneratedPolicy(): ZoneModePolicy {
    ZoneModePolicy(ZONE_MODE_MATRIX, MODE2_ACTIONS, DIAG_READ_ACTIONS, DIAG_DISRUPTIVE_ACTIONS, DIAG_RESTRICTED_ZONES)
  }

  /** The two gates cannot drift: on the generated document the vehicle's three
      policy functions are the contract's, for every action, zone and mode. */
  lemma PolicyMirrorsContract(action: Action, zone: ZoneType, mode: OperationMode, isStationary: bool)
    ensures GeneratedPolicy().InferMode(action) == InferMode(action)
    ensures GeneratedPolicy().ModeAllowedInZone(zone, mode) == IsModeAllowedInZone(zone, mode)
    ensures GeneratedPolicy().DiagDisruptiveAllowed(action, zone, isStationary)
         == IsDiagDisruptiveAllowed(action, zone, isStationary)
  {
  }
}
