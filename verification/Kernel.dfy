/** The running safety kernel: shared mutable state, updated in place by the
    message handlers and timer loops.  Each method is proved to be one step of
    `KernelSpec`. */
module VehicleKernel {
  import opened Wrappers
  import opened Contract
  import opened VehicleLog
  import opened KernelSpec
  import Dedup

  class SafetyKernel {
    const config: Config
    const log: EventLog
    const seenCommands: Dedup.DedupStore

    var latched: bool
    var newestToken: nat
    var zone: ZoneState
    var activeProposal: Option<ActiveProposal>
    var lastProposalAt: nat
    var syncOutstanding: Option<InFlight>
    var brokerConnected: bool
    var lastContact: nat
    var watchdogArmed: bool
    var lastDeadman: nat
    var externalPose: bool
    var lastPose: nat
    var lat: real
    var lng: real
    var speed: real
    var simSpeed: real
    var simTicks: nat
    var simDir: real

    ghost function State(): Kernel
      reads this, log, seenCommands
    {
      Kernel(latched, newestToken, seenCommands.Value(), zone, activeProposal, lastProposalAt,
             log.Value(), syncOutstanding, brokerConnected, lastContact, watchdogArmed, lastDeadman,
             externalPose, lastPose, lat, lng, speed, simSpeed, simTicks, simDir)
    }

    constructor (config: Config, bootId: string, initialZone: ZoneType, now: nat)
      ensures this.config == config && fresh(log) && fresh(seenCommands)
      ensures State() == Boot(bootId, initialZone, now)
    {
      this.config := config;
      log := new EventLog(bootId);
      seenCommands := new Dedup.DedupStore();
      latched, newestToken := false, 0;
      zone := ZoneState(initialZone, None, None, None, 0);
      activeProposal, lastProposalAt := None, 0;
      syncOutstanding, brokerConnected := None, false;
      lastContact, watchdogArmed, lastDeadman := now, false, 0;
      externalPose, lastPose := false, 0;
      lat, lng, speed := 47.3769, 8.5417, 0.0;
      simSpeed, simTicks, simDir := 10.0, 0, 1.0;
    }

    method MarkCloudContact(now: nat)
      modifies this`lastContact, this`watchdogArmed
      ensures State() == Contact(old(State()), now)
    {
      lastContact := now;
      watchdogArmed := true;
    }

    /** Stores and returns the acknowledgement. */
    method Acknowledge(cid: string, ack: Ack) returns (e: Effects)
      modifies seenCommands
      ensures State() == old(State()).(dedup := Dedup.Remember(old(State()).dedup, cid, ack))
      ensures e == NOTHING.(acks := [ack])
    {
      seenCommands.RememberAck(cid, ack);
      e := NOTHING.(acks := [ack]);
    }

    /** The command pipeline. */
    method HandleCommand(topic: Topic, msg: CommandMessage, now: nat) returns (e: Effects)
      modifies this, log, seenCommands
      ensures (State(), e) == CommandStep(config, old(State()), topic, msg, now)
    {
      match msg
      case NotJson => e := NOTHING;
      case SchemaInvalid(cid) => e := NOTHING.(acks := [Nacked(cid, SCHEMA_INVALID)]);
      case BadSignature(cid) => e := NOTHING.(acks := [Nacked(cid, SCHEMA_INVALID)]);
      case Signed(env) =>
        MarkCloudContact(now);
        e := HandleEnvelope(topic, env, now);
    }

    method HandleEnvelope(topic: Topic, env: Envelope, now: nat) returns (e: Effects)
      modifies this, log, seenCommands
      ensures (State(), e) == Apply(config, old(State()), env, now, Judge(config, old(State()), topic, env, now))
    {
      var cid := env.commandId;
      if cid in seenCommands.acks {
        e := NOTHING.(acks := [seenCommands.acks[cid]]);
        return;
      }
      if env.vehicleId != config.vehicleId {
        e := Acknowledge(cid, Nacked(cid, UNAUTHORIZED));
        return;
      }
      var isEstop := topic == EstopTopic || env.payload.Action() == E_STOP;
      var isStop := isEstop || env.payload.Action() == SAFE_STOP;
      if !isStop && now > env.timestamp + env.ttlMs {
        e := Acknowledge(cid, Nacked(cid, TTL_EXPIRED));
        return;
      }
      if env.tokenIssuedAt < newestToken {
        e := Acknowledge(cid, Nacked(cid, INVALID_TOKEN));
        return;
      }
      ghost var before := State();
      RegisterToken(env);
      JudgeAfterToken(config, before, topic, env, now);
      if isStop {
        e := EngageStop(env, isEstop, now);
      } else {
        e := HandleNonStop(topic, env, now);
      }
    }

    method RegisterToken(env: Envelope)
      modifies this`newestToken
      ensures State() == SeeToken(old(State()), env)
    {
      if env.tokenIssuedAt > newestToken {
        newestToken := env.tokenIssuedAt;
      }
    }

    method EngageStop(env: Envelope, isEstop: bool, now: nat) returns (e: Effects)
      requires env.tokenIssuedAt == newestToken
      modifies this`latched, log, seenCommands
      ensures (State(), e) == Apply(config, old(State()), env, now, StopNow(isEstop))
    {
      latched := true;
      var action, trigger := SAFE_STOP, SafeStopCommand;
      if isEstop {
        action, trigger := E_STOP, EStopCommand;
      }
      var ev := log.LogEvent(config.vehicleId, now, LatchEngaged(trigger, Some(env.commandId)));
      e := Acknowledge(env.commandId, Acked(env.commandId));
      e := e.(ipc := [StateEvent(true), CommandEvent(env.commandId, action, env.payload)], logged := [ev]);
    }

    /** Gates 4b to 8, for a fresh, addressed, unexpired, unfenced non-stop envelope. */
    method HandleNonStop(topic: Topic, env: Envelope, now: nat) returns (e: Effects)
      requires env.commandId !in seenCommands.acks
      requires env.vehicleId == config.vehicleId && now <= env.timestamp + env.ttlMs
      requires env.tokenIssuedAt == newestToken && !IsStop(topic, env)
      modifies this, log, seenCommands
      ensures (State(), e) == Apply(config, old(State()), env, now, Judge(config, old(State()), topic, env, now))
    {
      var cid := env.commandId;
      var action := env.payload.Action();
      if env.mode != config.policy.InferMode(action) {
        e := Acknowledge(cid, Nacked(cid, MODE_MISMATCH));
        return;
      }
      if latched {
        if action == CLEAR_SAFE_STOP {
          e := ReleaseLatch(env, now);
        } else {
          e := Acknowledge(cid, Nacked(cid, SAFE_STOP_LATCHED));
        }
        return;
      }
      if action == CLEAR_SAFE_STOP {
        e := Acknowledge(cid, Acked(cid));
        return;
      }
      var here := EffectiveZone(lat, lng, zone, now);
      if here == OutOfTod && (env.mode == MODE1 || env.mode == MODE2) {
        e := RefuseOutside(env, now);
        return;
      }
      if !config.policy.ModeAllowedInZone(here, env.mode) {
        e := Acknowledge(cid, Nacked(cid, MODE_MISMATCH));
        return;
      }
      var limit := ActivePermitSpeedLimit(zone, now);
      if limit.Some? && env.payload.Creep? && env.payload.speedKmh > limit.value {
        e := Acknowledge(cid, Nacked(cid, PERMIT_SPEED_LIMIT));
        return;
      }
      var isStationary := speed < 0.5;
      if !config.policy.DiagDisruptiveAllowed(action, here, isStationary) {
        e := Acknowledge(cid, Nacked(cid, DIAG_DEFERRED));
        return;
      }
      if IsManeuverDecision(env.payload) {
        e := HandleDecision(env, now);
        return;
      }
      e := Acknowledge(cid, Acked(cid));
      e := e.(ipc := [CommandEvent(cid, action, env.payload)]);
    }

    method ReleaseLatch(env: Envelope, now: nat) returns (e: Effects)
      requires env.tokenIssuedAt == newestToken
      modifies this`latched, log, seenCommands
      ensures (State(), e) == Apply(config, old(State()), env, now, Release)
    {
      var cid := env.commandId;
      latched := false;
      var ev := log.LogEvent(config.vehicleId, now, LatchReleased(cid));
      e := Acknowledge(cid, Acked(cid));
      e := e.(ipc := [StateEvent(false), CommandEvent(cid, CLEAR_SAFE_STOP, env.payload)], logged := [ev]);
    }

    method RefuseOutside(env: Envelope, now: nat) returns (e: Effects)
      requires env.tokenIssuedAt == newestToken
      modifies this`latched, log, seenCommands
      ensures (State(), e) == Apply(config, old(State()), env, now, LeftTerritory)
    {
      var cid := env.commandId;
      latched := true;
      var ev := log.LogEvent(config.vehicleId, now, LatchEngaged(Geofence(lat, lng), Some(cid)));
      e := Acknowledge(cid, Nacked(cid, GEOFENCE_VIOLATION));
      e := e.(ipc := [StateEvent(true)], logged := [ev]);
    }

    /** Maneuver decisions against the active proposal. */
    method HandleDecision(env: Envelope, now: nat) returns (e: Effects)
      requires IsManeuverDecision(env.payload)
      requires env.tokenIssuedAt == newestToken
      modifies this`activeProposal, seenCommands
      ensures (State(), e) == Apply(config, old(State()), env, now, JudgeDecision(old(State()), env.payload, now))
    {
      var cid := env.commandId;
      var wanted := DecisionProposal(env.payload);
      if activeProposal.None? || activeProposal.value.proposalId != wanted || now >= activeProposal.value.deadlineMs {
        e := Acknowledge(cid, Nacked(cid, SCHEMA_INVALID));
        return;
      }
      var optionIds := activeProposal.value.optionIds;
      if !OptionOffered(env.payload, optionIds) {
        e := Acknowledge(cid, Nacked(cid, SCHEMA_INVALID));
        return;
      }
      activeProposal := None;
      var selected := ResolvedOption(env.payload, optionIds);
      e := Acknowledge(cid, Acked(cid));
      e := e.(ipc := [CommandEvent(cid, env.payload.Action(), env.payload)],
              statuses := [ManeuverStatus(wanted, DECIDED, selected, now)]);
    }

    method HandleDeadman(m: DeadmanMessage, now: nat)
      modifies this
      ensures State() == DeadmanStep(config, old(State()), m, now)
    {
      if !m.signed || m.vehicleId != config.vehicleId || m.timestamp.None? { return; }
      var ts := m.timestamp.value;
      if ts + DEADMAN_FRESH_MS < now || ts > now + DEADMAN_FRESH_MS { return; }
      if ts <= lastDeadman { return; }
      lastDeadman := ts;
      MarkCloudContact(now);
    }

    method HandleLogAck(m: LogAckMessage, now: nat)
      modifies this, log
      ensures State() == LogAckStep(config, old(State()), m, now)
    {
      if !m.signed || m.vehicleId != config.vehicleId || m.bootId != log.bootId || m.upTo.None? { return; }
      MarkCloudContact(now);
      log.TrimAcked(m.upTo.value);
      if syncOutstanding.Some? && syncOutstanding.value.upTo <= m.upTo.value {
        syncOutstanding := None;
      }
    }

    method HandleZoneConfig(m: ZoneMessage, now: nat) returns (e: Effects)
      modifies this, log
      ensures (State(), e) == ZoneStep(config, old(State()), m, now)
    {
      e := NOTHING;
      if !m.schemaValid || !m.signed || m.vehicleId != config.vehicleId { return; }
      MarkCloudContact(now);
      if m.config.revision <= zone.revision { return; }
      zone := m.config;
      var ev := log.LogEvent(config.vehicleId, now, ZoneConfigApplied(m.config.zone, m.config.revision));
      e := e.(logged := [ev]);
    }

    method HandlePose(lat: real, lng: real, speed: Option<real>, now: nat)
      modifies this
      ensures State() == PoseStep(old(State()), lat, lng, speed, now)
    {
      this.lat, this.lng := lat, lng;
      if speed.Some? {
        this.speed := speed.value;
      }
      lastPose := now;
      externalPose := true;
    }

    method OnLinkChange(up: bool)
      modifies this`brokerConnected
      ensures State() == old(State()).(connected := up)
    {
      brokerConnected := up;
    }

    /** Latches from a local monitor and tells the bridge. */
    method Engage(now: nat, trigger: Trigger) returns (e: Effects)
      modifies this`latched, log
      ensures (State(), e) == EngageLocally(config, old(State()), now, trigger)
    {
      latched := true;
      var ev := log.LogEvent(config.vehicleId, now, LatchEngaged(trigger, None));
      e := NOTHING.(ipc := [StateEvent(true)], logged := [ev]);
    }

    method TickWatchdog(now: nat) returns (e: Effects)
      modifies this`latched, log
      ensures (State(), e) == WatchdogTick(config, old(State()), now)
    {
      e := NOTHING;
      if !watchdogArmed { return; }
      if now > lastContact + WATCHDOG_MS {
        if !latched {
          e := Engage(now, Watchdog(now - lastContact));
        }
      }
    }

    method TickPose(now: nat) returns (e: Effects)
      modifies this`latched, log
      ensures (State(), e) == PoseTick(config, old(State()), now)
    {
      e := NOTHING;
      if !externalPose { return; }
      if now > lastPose + WATCHDOG_MS && !latched {
        e := Engage(now, PoseSilence);
      }
    }

    method AccelerateSimulated(ticks: nat, now: nat)
      modifies this`simSpeed, this`speed
      ensures simSpeed == SimSpeed(old(State()), ticks, now) && speed == simSpeed
    {
      if ticks % 10 == 0 && !latched {
        simSpeed := if simSpeed > 25.0 then 10.0 else simSpeed + 1.0;
      }
      if latched {
        simSpeed := 0.0;
      }
      var limit := ActivePermitSpeedLimit(zone, now);
      if limit.Some? && simSpeed > limit.value {
        simSpeed := limit.value;
      }
      speed := simSpeed;
    }

    /** The built-in motion model; off once a pose has been fed. */
    method MoveSimulated(now: nat)
      modifies this`simTicks, this`simSpeed, this`speed, this`lat, this`lng, this`simDir
      ensures State() == SimMotion(old(State()), now)
    {
      if !externalPose {
        AccelerateSimulated(simTicks + 1, now);
      }
      simTicks := simTicks + 1;
      if !latched && !externalPose {
        StepForward();
      }
    }

    /** One step along the track, turning round at either end. */
    method StepForward()
      modifies this`lat, this`lng, this`simDir
      ensures lat == old(lat) + SIM_STEP * old(simDir) && lng == old(lng) + SIM_STEP * old(simDir)
      ensures simDir == if lat > 47.3795 || lat < 47.3705 then -old(simDir) else old(simDir)
    {
      lat := lat + SIM_STEP * simDir;
      lng := lng + SIM_STEP * simDir;
      if lat > 47.3795 || lat < 47.3705 {
        simDir := -simDir;
      }
    }

    method TickTelemetry(now: nat) returns (e: Effects)
      modifies this, log
      ensures (State(), e) == TelemetryTick(config, old(State()), now)
    {
      MoveSimulated(now);
      e := NOTHING;
      if EffectiveZone(lat, lng, zone, now) == OutOfTod && !latched {
        if !externalPose {
          speed := 0.0;
          simSpeed := 0.0;
        }
        e := Engage(now, Geofence(lat, lng));
      }
    }

    method TickHeartbeat() returns (e: Effects)
      ensures e == HeartbeatTick(State())
    {
      e := NOTHING.(ipc := [StateEvent(latched)]);
    }

    method TickSync(queued: bool, now: nat) returns (e: Effects)
      modifies this`syncOutstanding
      ensures (State(), e) == SyncTick(old(State()), queued, now)
    {
      e := NOTHING;
      if !brokerConnected { return; }
      if syncOutstanding.Some? && now < syncOutstanding.value.sentAt + SYNC_RETRY_MS { return; }
      var batch := NextBatch(log.unsynced);
      if batch == [] {
        syncOutstanding := None;
        return;
      }
      if queued {
        syncOutstanding := Some(InFlight(batch[|batch| - 1].number, now));
        e := e.(batch := batch);
      }
    }

    method TickProposal(freshId: string, now: nat) returns (e: Effects)
      modifies this`activeProposal, this`lastProposalAt
      ensures (State(), e) == ProposalTick(old(State()), freshId, now)
    {
      e := NOTHING;
      if latched { return; }
      if activeProposal.Some? {
        var ap := activeProposal.value;
        if now >= ap.deadlineMs {
          activeProposal := None;
          e := e.(statuses := [ManeuverStatus(ap.proposalId, TIMED_OUT, Some(ap.defaultOnTimeout), now)]);
        }
        return;
      }
      if now < lastProposalAt + PROPOSAL_MIN_GAP_MS { return; }
      lastProposalAt := now;
      var options := [OptionA(freshId), OptionB(freshId)];
      activeProposal := Some(ActiveProposal(freshId, options[1], now + VALIDITY_MS, options));
      e := e.(offers := [Offer(freshId, options, now)], statuses := [ManeuverStatus(freshId, PENDING, None, now)]);
    }
  }
}
