/** The vehicle safety kernel (Gate 2) as a state machine: one pure step function
    per inbound message and per timer tick, each with one clock reading. */
module KernelSpec {
  import opened Wrappers
  import opened Contract
  import opened VehicleLog
  import Dedup

  // ------------------------------------------------------------------
  // Zone state
  // ------------------------------------------------------------------

  datatype ZoneState = ZoneState(
    zone: ZoneType,
    permitValidUntil: Option<nat>,
    permitValidFrom: Option<nat>,
    permitSpeedLimit: Option<real>,
    revision: nat)

  predicate InApprovedTerritory(lat: real, lng: real) {
    47.3700 <= lat <= 47.3800 && 8.5300 <= lng <= 8.5500
  }

  /** The configured zone, while its permit window is open. */
  function CurrentZoneType(zs: ZoneState, now: nat): ZoneType {
    if zs.permitValidUntil.Some? && now > zs.permitValidUntil.value then PublicApprovedRoute
    else if zs.permitValidFrom.Some? && now < zs.permitValidFrom.value then PublicApprovedRoute
    else zs.zone
  }

  function ActivePermitSpeedLimit(zs: ZoneState, now: nat): Option<real> {
    if CurrentZoneType(zs, now) == zs.zone then zs.permitSpeedLimit else None
  }

  function EffectiveZone(lat: real, lng: real, zs: ZoneState, now: nat): ZoneType {
    if InApprovedTerritory(lat, lng) then CurrentZoneType(zs, now) else OutOfTod
  }

  // ------------------------------------------------------------------
  // Messages and effects
  // ------------------------------------------------------------------

  datatype Topic = EstopTopic | CommandTopic

  datatype Envelope = Envelope(
    commandId: string, vehicleId: string, mode: OperationMode,
    tokenIssuedAt: nat, timestamp: nat, ttlMs: nat, payload: Payload)

  /** A publish on the estop or command topic, by how far validation gets. */
  datatype CommandMessage =
    | NotJson
    | SchemaInvalid(claimedId: string)
    | BadSignature(claimedId: string)
    | Signed(envelope: Envelope)

  datatype DeadmanMessage = DeadmanMessage(signed: bool, vehicleId: string, timestamp: Option<nat>)
  datatype LogAckMessage = LogAckMessage(signed: bool, vehicleId: string, bootId: string, upTo: Option<nat>)
  datatype ZoneMessage = ZoneMessage(schemaValid: bool, signed: bool, vehicleId: string, config: ZoneState)

  /** An event on the actuation channel to the bridge. */
  datatype Ipc =
    | StateEvent(latched: bool)
    | CommandEvent(commandId: string, action: Action, payload: Payload)

  datatype Outcome = PENDING | DECIDED | TIMED_OUT
  datatype ManeuverStatus = ManeuverStatus(proposalId: string, outcome: Outcome, selected: Option<string>, at: nat)
  datatype Offer = Offer(proposalId: string, optionIds: seq<string>, at: nat)

  /** Everything one step sends out: command acks, actuation events, log entries
      recorded, maneuver proposals and statuses, and a log-sync batch. */
  datatype Effects = Effects(
    acks: seq<Ack>, ipc: seq<Ipc>, logged: seq<Event>,
    offers: seq<Offer>, statuses: seq<ManeuverStatus>, batch: seq<Event>)

  const NOTHING := Effects([], [], [], [], [], [])

  // ------------------------------------------------------------------
  // Kernel state
  // ------------------------------------------------------------------

  datatype ActiveProposal = ActiveProposal(
    proposalId: string, defaultOnTimeout: string, deadlineMs: nat, optionIds: seq<string>)

  datatype InFlight = InFlight(upTo: nat, sentAt: nat)

  datatype Config = Config(vehicleId: string, policy: ZoneModePolicy)

  datatype Kernel = Kernel(
    latched: bool,
    newestToken: nat,
    dedup: Dedup.Store,
    zone: ZoneState,
    proposal: Option<ActiveProposal>,
    lastProposalAt: nat,
    log: Log,
    outstanding: Option<InFlight>,
    connected: bool,
    lastContact: nat,
    armed: bool,
    lastDeadman: nat,
    externalPose: bool,
    lastPose: nat,
    lat: real, lng: real, speed: real,
    simSpeed: real, simTicks: nat, simDir: real)

  function Boot(bootId: string, initialZone: ZoneType, now: nat): Kernel {
    Kernel(
      false, 0, Dedup.EMPTY, ZoneState(initialZone, None, None, None, 0),
      None, 0, Log(bootId, 0, [], 0), None, false,
      now, false, 0, false, 0,
      47.3769, 8.5417, 0.0, 10.0, 0, 1.0)
  }

  const WATCHDOG_MS: nat := 3000
  const DEADMAN_FRESH_MS: nat := 10_000
  const SYNC_RETRY_MS: nat := 5000
  const PROPOSAL_MIN_GAP_MS: nat := 120_000
  const VALIDITY_MS: nat := 30_000

  function Contact(k: Kernel, now: nat): Kernel {
    k.(lastContact := now, armed := true)
  }

  /** The kernel with one more event recorded. */
  function Record(c: Config, k: Kernel, now: nat, kind: EventKind): Kernel {
    k.(log := Append(k.log, c.vehicleId, now, kind))
  }

  function Recorded(c: Config, k: Kernel, now: nat, kind: EventKind): Event {
    Event(c.vehicleId, k.log.bootId, k.log.last + 1, now, kind)
  }

  // ------------------------------------------------------------------
  // The command pipeline
  // ------------------------------------------------------------------

  datatype Verdict =
    | Replay(ack: Ack)
    | Refuse(reason: RejectReason)
    | StopNow(estop: bool)
    | Release
    | AlreadyClear
    | LeftTerritory
    | Decide(selected: Option<string>)
    | Accept

  predicate IsEstop(topic: Topic, env: Envelope) { topic.EstopTopic? || env.payload.Action() == E_STOP }
  predicate IsStop(topic: Topic, env: Envelope) { IsEstop(topic, env) || env.payload.Action() == SAFE_STOP }

  predicate IsManeuverDecision(p: Payload) { p.ConfirmManeuver? || p.RejectManeuver? || p.SelectAlternative? }

  function DecisionProposal(p: Payload): string
    requires IsManeuverDecision(p)
  {
    p.proposalId
  }

  /** May this decision land on the proposal's options? */
  predicate OptionOffered(p: Payload, optionIds: seq<string>)
    requires IsManeuverDecision(p)
  {
    match p
    case SelectAlternative(_, o) => o in optionIds
    case ConfirmManeuver(_, o) => o.None? || o.value in optionIds
    case RejectManeuver(_) => true
  }

  /** The option a decision resolves to.  An empty option id counts as none, as the
      published status omits it. */
  function ResolvedOption(p: Payload, optionIds: seq<string>): Option<string>
    requires IsManeuverDecision(p)
  {
    var o :=
      match p
      case SelectAlternative(_, o) => o
      case ConfirmManeuver(_, o) => if o.Some? then o.value else if optionIds != [] then optionIds[0] else ""
      case RejectManeuver(_) => "";
    if o == "" then None else Some(o)
  }

  /** The first gate a signature-valid envelope fails, or what it achieves. */
  function Judge(c: Config, k: Kernel, topic: Topic, env: Envelope, now: nat): Verdict {
    var action := env.payload.Action();
    if env.commandId in k.dedup.acks then Replay(k.dedup.acks[env.commandId])
    else if env.vehicleId != c.vehicleId then Refuse(UNAUTHORIZED)
    else if !IsStop(topic, env) && now > env.timestamp + env.ttlMs then Refuse(TTL_EXPIRED)
    else if env.tokenIssuedAt < k.newestToken then Refuse(INVALID_TOKEN)
    else if IsStop(topic, env) then StopNow(IsEstop(topic, env))
    else if env.mode != c.policy.InferMode(action) then Refuse(MODE_MISMATCH)
    else if k.latched then (if action == CLEAR_SAFE_STOP then Release else Refuse(SAFE_STOP_LATCHED))
    else if action == CLEAR_SAFE_STOP then AlreadyClear
    else
      var zone := EffectiveZone(k.lat, k.lng, k.zone, now);
      var limit := ActivePermitSpeedLimit(k.zone, now);
      if zone == OutOfTod && (env.mode == MODE1 || env.mode == MODE2) then LeftTerritory
      else if !c.policy.ModeAllowedInZone(zone, env.mode) then Refuse(MODE_MISMATCH)
      else if limit.Some? && env.payload.Creep? && env.payload.speedKmh > limit.value then Refuse(PERMIT_SPEED_LIMIT)
      else if !c.policy.DiagDisruptiveAllowed(action, zone, k.speed < 0.5) then Refuse(DIAG_DEFERRED)
      else if IsManeuverDecision(env.payload) then JudgeDecision(k, env.payload, now)
      else Accept
  }

  function JudgeDecision(k: Kernel, p: Payload, now: nat): Verdict
    requires IsManeuverDecision(p)
  {
    if k.proposal.None? || k.proposal.value.proposalId != DecisionProposal(p) || now >= k.proposal.value.deadlineMs
    then Refuse(SCHEMA_INVALID)
    else if !OptionOffered(p, k.proposal.value.optionIds) then Refuse(SCHEMA_INVALID)
    else Decide(ResolvedOption(p, k.proposal.value.optionIds))
  }

  /** The newest-token register after an envelope that reached the token gate. */
  function SeeToken(k: Kernel, env: Envelope): Kernel {
    if env.tokenIssuedAt > k.newestToken then k.(newestToken := env.tokenIssuedAt) else k
  }

  /** Registering the token first changes neither the verdict nor its effect on an
      envelope that passes the token gate. */
  lemma JudgeAfterToken(c: Config, k: Kernel, topic: Topic, env: Envelope, now: nat)
    requires env.commandId !in k.dedup.acks && env.vehicleId == c.vehicleId
    requires IsStop(topic, env) || now <= env.timestamp + env.ttlMs
    requires env.tokenIssuedAt >= k.newestToken
    ensures SeeToken(k, env).newestToken == env.tokenIssuedAt
    ensures var v := Judge(c, k, topic, env, now);
            v == Judge(c, SeeToken(k, env), topic, env, now)
            && Apply(c, SeeToken(k, env), env, now, v) == Apply(c, k, env, now, v)
  {
    VerdictAfterToken(c, k, topic, env, now);
    RulingAfterToken(c, k, env, now, Judge(c, k, topic, env, now));
  }

  lemma VerdictAfterToken(c: Config, k: Kernel, topic: Topic, env: Envelope, now: nat)
    requires env.tokenIssuedAt >= k.newestToken
    ensures Judge(c, SeeToken(k, env), topic, env, now) == Judge(c, k, topic, env, now)
  {
  }

  lemma RulingAfterToken(c: Config, k: Kernel, env: Envelope, now: nat, v: Verdict)
    requires env.tokenIssuedAt >= k.newestToken && !v.Replay?
    requires v.Refuse? ==> v.reason != UNAUTHORIZED && v.reason != TTL_EXPIRED
    ensures Apply(c, SeeToken(k, env), env, now, v) == Apply(c, k, env, now, v)
  {
  }

  function StopTrigger(estop: bool): Trigger { if estop then EStopCommand else SafeStopCommand }
  function StopAction(estop: bool): Action { if estop then E_STOP else SAFE_STOP }

  /** What a verdict changes and sends: the five fields a command may touch, the event
      it records, the answer and whether it is stored. */
  datatype Ruling = Ruling(
    latched: bool, newestToken: nat, proposal: Option<ActiveProposal>, event: Option<EventKind>,
    answer: Ack, stored: bool, ipc: seq<Ipc>, statuses: seq<ManeuverStatus>)

  function Rule(k: Kernel, env: Envelope, now: nat, v: Verdict): Ruling {
    var cid := env.commandId;
    var token := SeeToken(k, env).newestToken;
    match v
    case Replay(ack) => Ruling(k.latched, k.newestToken, k.proposal, None, ack, false, [], [])
    case Refuse(r) =>
      Ruling(k.latched, if r == UNAUTHORIZED || r == TTL_EXPIRED then k.newestToken else token,
             k.proposal, None, Nacked(cid, r), true, [], [])
    case StopNow(estop) =>
      Ruling(true, token, k.proposal, Some(LatchEngaged(StopTrigger(estop), Some(cid))), Acked(cid), true,
             [StateEvent(true), CommandEvent(cid, StopAction(estop), env.payload)], [])
    case Release =>
      Ruling(false, token, k.proposal, Some(LatchReleased(cid)), Acked(cid), true,
             [StateEvent(false), CommandEvent(cid, CLEAR_SAFE_STOP, env.payload)], [])
    case AlreadyClear => Ruling(k.latched, token, k.proposal, None, Acked(cid), true, [], [])
    case LeftTerritory =>
      Ruling(true, token, k.proposal, Some(LatchEngaged(Geofence(k.lat, k.lng), Some(cid))),
             Nacked(cid, GEOFENCE_VIOLATION), true, [StateEvent(true)], [])
    case Decide(selected) =>
      var proposalId := if IsManeuverDecision(env.payload) then DecisionProposal(env.payload) else "";
      Ruling(k.latched, token, None, None, Acked(cid), true,
             [CommandEvent(cid, env.payload.Action(), env.payload)],
             [ManeuverStatus(proposalId, DECIDED, selected, now)])
    case Accept =>
      Ruling(k.latched, token, k.proposal, None, Acked(cid), true,
             [CommandEvent(cid, env.payload.Action(), env.payload)], [])
  }

  /** Carrying out the verdict. */
  function Apply(c: Config, k: Kernel, env: Envelope, now: nat, v: Verdict): (Kernel, Effects) {
    var r := Rule(k, env, now, v);
    (k.(latched := r.latched, newestToken := r.newestToken, proposal := r.proposal,
        log := if r.event.Some? then Append(k.log, c.vehicleId, now, r.event.value) else k.log,
        dedup := if r.stored then Dedup.Remember(k.dedup, env.commandId, r.answer) else k.dedup),
     Effects([r.answer], r.ipc, if r.event.Some? then [Recorded(c, k, now, r.event.value)] else [], [], r.statuses, []))
  }

  /** A publish on the estop or command topic.  Every signature-valid envelope is
      cloud contact, whatever becomes of it. */
  function CommandStep(c: Config, k: Kernel, topic: Topic, msg: CommandMessage, now: nat): (Kernel, Effects) {
    match msg
    case NotJson => (k, NOTHING)
    case SchemaInvalid(cid) => (k, NOTHING.(acks := [Nacked(cid, SCHEMA_INVALID)]))
    case BadSignature(cid) => (k, NOTHING.(acks := [Nacked(cid, SCHEMA_INVALID)]))
    case Signed(env) => Apply(c, Contact(k, now), env, now, Judge(c, Contact(k, now), topic, env, now))
  }

  // ------------------------------------------------------------------
  // The other inbound topics
  // ------------------------------------------------------------------

  /** A liveness ping counts when signed, ours, fresh and newer than every earlier one. */
  predicate PingAccepted(c: Config, k: Kernel, m: DeadmanMessage, now: nat) {
    && m.signed && m.vehicleId == c.vehicleId && m.timestamp.Some?
    && !(m.timestamp.value + DEADMAN_FRESH_MS < now || m.timestamp.value > now + DEADMAN_FRESH_MS)
    && m.timestamp.value > k.lastDeadman
  }

  function DeadmanStep(c: Config, k: Kernel, m: DeadmanMessage, now: nat): Kernel {
    if PingAccepted(c, k, m, now) then Contact(k.(lastDeadman := m.timestamp.value), now) else k
  }

  function LogAckStep(c: Config, k: Kernel, m: LogAckMessage, now: nat): Kernel {
    if m.signed && m.vehicleId == c.vehicleId && m.bootId == k.log.bootId && m.upTo.Some? then
      var upTo := m.upTo.value;
      Contact(k.(log := k.log.(unsynced := Trim(k.log.unsynced, upTo)),
                 outstanding := if k.outstanding.Some? && k.outstanding.value.upTo <= upTo then None else k.outstanding), now)
    else k
  }

  function ZoneStep(c: Config, k: Kernel, m: ZoneMessage, now: nat): (Kernel, Effects) {
    if !(m.schemaValid && m.signed && m.vehicleId == c.vehicleId) then (k, NOTHING)
    else if m.config.revision <= k.zone.revision then (Contact(k, now), NOTHING)
    else
      var kind := ZoneConfigApplied(m.config.zone, m.config.revision);
      (Record(c, Contact(k, now).(zone := m.config), now, kind), NOTHING.(logged := [Recorded(c, k, now, kind)]))
  }

  function PoseStep(k: Kernel, lat: real, lng: real, speed: Option<real>, now: nat): Kernel {
    k.(lat := lat, lng := lng, speed := if speed.Some? then speed.value else k.speed,
       lastPose := now, externalPose := true)
  }

  // ------------------------------------------------------------------
  // Timer ticks
  // ------------------------------------------------------------------

  /** Engaging the latch from a local safety monitor. */
  function EngageLocally(c: Config, k: Kernel, now: nat, trigger: Trigger): (Kernel, Effects) {
    (Record(c, k.(latched := true), now, LatchEngaged(trigger, None)),
     NOTHING.(ipc := [StateEvent(true)], logged := [Recorded(c, k, now, LatchEngaged(trigger, None))]))
  }

  function WatchdogTick(c: Config, k: Kernel, now: nat): (Kernel, Effects) {
    if k.armed && now > k.lastContact + WATCHDOG_MS && !k.latched
    then EngageLocally(c, k, now, Watchdog(now - k.lastContact))
    else (k, NOTHING)
  }

  function PoseTick(c: Config, k: Kernel, now: nat): (Kernel, Effects) {
    if k.externalPose && now > k.lastPose + WATCHDOG_MS && !k.latched
    then EngageLocally(c, k, now, PoseSilence)
    else (k, NOTHING)
  }

  /** The built-in motion model's speed for this tick, clamped to an active permit limit. */
  function SimSpeed(k: Kernel, ticks: nat, now: nat): real {
    var stepped := if ticks % 10 == 0 && !k.latched then (if k.simSpeed > 25.0 then 10.0 else k.simSpeed + 1.0) else k.simSpeed;
    var held := if k.latched then 0.0 else stepped;
    var limit := ActivePermitSpeedLimit(k.zone, now);
    if limit.Some? && held > limit.value then limit.value else held
  }

  const SIM_STEP: real := 0.00002

  /** The vehicle after the motion model's step; a fed pose switches the model off. */
  function SimMotion(k: Kernel, now: nat): Kernel {
    var ticks := k.simTicks + 1;
    if k.externalPose then k.(simTicks := ticks)
    else
      var speed := SimSpeed(k, ticks, now);
      var step := if k.latched then 0.0 else SIM_STEP * k.simDir;
      var lat, lng := k.lat + step, k.lng + step;
      var turns := !k.latched && (lat > 47.3795 || lat < 47.3705);
      k.(simTicks := ticks, simSpeed := speed, speed := speed, lat := lat, lng := lng,
         simDir := if turns then -k.simDir else k.simDir)
  }

  /** 10 Hz: motion model, then the geofence trigger. */
  function TelemetryTick(c: Config, k: Kernel, now: nat): (Kernel, Effects) {
    var m := SimMotion(k, now);
    if EffectiveZone(m.lat, m.lng, m.zone, now) == OutOfTod && !k.latched then
      var stopped := if k.externalPose then m else m.(speed := 0.0, simSpeed := 0.0);
      EngageLocally(c, stopped, now, Geofence(m.lat, m.lng))
    else (m, NOTHING)
  }

  function HeartbeatTick(k: Kernel): Effects {
    NOTHING.(ipc := [StateEvent(k.latched)])
  }

  /** 1 Hz: publish the oldest unconfirmed events unless a batch is in flight. */
  function SyncTick(k: Kernel, queued: bool, now: nat): (Kernel, Effects) {
    if !k.connected || (k.outstanding.Some? && now < k.outstanding.value.sentAt + SYNC_RETRY_MS) then (k, NOTHING)
    else
      var batch := NextBatch(k.log.unsynced);
      if batch == [] then (k.(outstanding := None), NOTHING)
      else if !queued then (k, NOTHING)
      else (k.(outstanding := Some(InFlight(batch[|batch| - 1].number, now))), NOTHING.(batch := batch))
  }

  function OptionA(id: string): string { "opt-" + Prefix8(id) + "-a" }
  function OptionB(id: string): string { "opt-" + Prefix8(id) + "-b" }
  function Prefix8(id: string): string { if |id| <= 8 then id else id[..8] }

  /** Every 2 s while unlatched: expire the active proposal, or offer a new one. */
  function ProposalTick(k: Kernel, freshId: string, now: nat): (Kernel, Effects) {
    if k.latched then (k, NOTHING)
    else if k.proposal.Some? then
      var ap := k.proposal.value;
      if now >= ap.deadlineMs
      then (k.(proposal := None),
            NOTHING.(statuses := [ManeuverStatus(ap.proposalId, TIMED_OUT, Some(ap.defaultOnTimeout), now)]))
      else (k, NOTHING)
    else if now < k.lastProposalAt + PROPOSAL_MIN_GAP_MS then (k, NOTHING)
    else
      var options := [OptionA(freshId), OptionB(freshId)];
      (k.(lastProposalAt := now, proposal := Some(ActiveProposal(freshId, options[1], now + VALIDITY_MS, options))),
       NOTHING.(offers := [Offer(freshId, options, now)],
                statuses := [ManeuverStatus(freshId, PENDING, None, now)]))
  }

  // ------------------------------------------------------------------
  // Steps and runs
  // ------------------------------------------------------------------

  datatype Step =
    | OnCommand(topic: Topic, command: CommandMessage, now: nat)
    | OnDeadman(ping: DeadmanMessage, now: nat)
    | OnLogAck(ack: LogAckMessage, now: nat)
    | OnZone(zoneMessage: ZoneMessage, now: nat)
    | OnPose(lat: real, lng: real, speed: Option<real>, now: nat)
    | OnLink(up: bool, now: nat)
    | Watchdog1Hz(now: nat)
    | Pose1Hz(now: nat)
    | Telemetry10Hz(now: nat)
    | Heartbeat1Hz(now: nat)
    | Sync1Hz(queued: bool, now: nat)
    | Proposal2s(freshId: string, now: nat)

  function Next(c: Config, k: Kernel, s: Step): (Kernel, Effects) {
    match s
    case OnCommand(topic, msg, now) => CommandStep(c, k, topic, msg, now)
    case OnDeadman(m, now) => (DeadmanStep(c, k, m, now), NOTHING)
    case OnLogAck(m, now) => (LogAckStep(c, k, m, now), NOTHING)
    case OnZone(m, now) => ZoneStep(c, k, m, now)
    case OnPose(lat, lng, speed, now) => (PoseStep(k, lat, lng, speed, now), NOTHING)
    case OnLink(up, now) => (k.(connected := up), NOTHING)
    case Watchdog1Hz(now) => WatchdogTick(c, k, now)
    case Pose1Hz(now) => PoseTick(c, k, now)
    case Telemetry10Hz(now) => TelemetryTick(c, k, now)
    case Heartbeat1Hz(now) => (k, HeartbeatTick(k))
    case Sync1Hz(queued, now) => SyncTick(k, queued, now)
    case Proposal2s(freshId, now) => ProposalTick(k, freshId, now)
  }

  /** The kernel after a run of steps. */
  function Run(c: Config, k: Kernel, steps: seq<Step>): Kernel {
    if steps == [] then k else Next(c, Run(c, k, steps[..|steps| - 1]), steps[|steps| - 1]).0
  }

  /** What step `i` of a run sends out. */
  function EffectsAt(c: Config, k: Kernel, steps: seq<Step>, i: nat): Effects
    requires i < |steps|
  {
    Next(c, Run(c, k, steps[..i]), steps[i]).1
  }

  lemma RunStep(c: Config, k: Kernel, steps: seq<Step>, i: nat)
    requires i < |steps|
    ensures Run(c, k, steps[..i + 1]) == Next(c, Run(c, k, steps[..i]), steps[i]).0
  {
    assert steps[..i + 1][..i] == steps[..i];
  }

  /** The clock never goes back. */
  predicate ClockOk(steps: seq<Step>, boot: nat) {
    && (forall i :: 0 <= i < |steps| ==> boot <= steps[i].now)
    && (forall i, j :: 0 <= i < j < |steps| ==> steps[i].now <= steps[j].now)
  }
}
