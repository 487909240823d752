/** The command controller (Gate 1): lock, schema, zone and mode filter, evidence row,
    publish; and the permit gate in front of every zone change. */
module CommandGate {
  import opened Wrappers
  import opened Contract
  import opened KernelSpec
  import Session
  import Zone
  import Safety = KernelSafety

  // ------------------------------------------------------------------
  // Gate 1's decision
  // ------------------------------------------------------------------

  predicate AlwaysAllowed(a: Action) { a == E_STOP || a == SAFE_STOP || a == CLEAR_SAFE_STOP }

  predicate Gate1Accepts(rec: Zone.ZoneRecord, a: Action, now: nat) {
    AlwaysAllowed(a) ||
    (IsModeAllowedInZone(Zone.Gate1Zone(rec, now), InferMode(a)) &&
     IsDiagDisruptiveAllowed(a, Zone.Gate1Zone(rec, now), true))
  }

  // ------------------------------------------------------------------
  // Evidence and publishing
  // ------------------------------------------------------------------

  datatype RowStatus = Pending | Rejected | PublishFailed | PublishDegraded | Done
  datatype Act =
    | Logged(commandId: string, status: RowStatus)
    | Published(topic: Topic, envelope: Envelope)

  /** What a dispatch does, in order. */
  function DispatchActs(env: Envelope, dual: bool, viaEstop: bool, viaCommand: bool): seq<Act> {
    var first := [Logged(env.commandId, Pending)];
    if dual then
      first
      + (if viaEstop then [Published(EstopTopic, env)] else [])
      + (if viaCommand then [Published(CommandTopic, env)] else [])
      + (if !viaEstop && !viaCommand then [Logged(env.commandId, PublishFailed)]
         else if !viaEstop || !viaCommand then [Logged(env.commandId, PublishDegraded)]
         else [])
    else
      first + (if viaCommand then [Published(CommandTopic, env)] else [Logged(env.commandId, PublishFailed)])
  }

  /** A dispatch publishes its envelope on exactly the paths that took it, once each, and
      leaves a failure row exactly when none did, a degraded one when one of two did not. */
  lemma PublishesExactly(env: Envelope, dual: bool, viaEstop: bool, viaCommand: bool, topic: Topic, sent: Envelope)
    ensures var acts := DispatchActs(env, dual, viaEstop, viaCommand);
            && (Published(topic, sent) in acts <==>
                  sent == env && match topic case CommandTopic => viaCommand case EstopTopic => dual && viaEstop)
            && (forall i, j :: 0 <= i < j < |acts| && acts[i].Published? && acts[j].Published? ==> acts[i].topic != acts[j].topic)
            && (Logged(env.commandId, PublishFailed) in acts <==> !viaCommand && !(dual && viaEstop))
            && (Logged(env.commandId, PublishDegraded) in acts <==> dual && viaEstop != viaCommand)
            && acts[0] == Logged(env.commandId, Pending)
  {
  }

  /** Every published envelope has an earlier evidence row under its id. */
  predicate EvidenceFirst(acts: seq<Act>) {
    forall i :: 0 <= i < |acts| && acts[i].Published? ==> Logged(acts[i].envelope.commandId, Pending) in acts[..i]
  }

  lemma DispatchKeepsEvidence(acts: seq<Act>, env: Envelope, dual: bool, viaEstop: bool, viaCommand: bool)
    requires EvidenceFirst(acts)
    ensures EvidenceFirst(acts + DispatchActs(env, dual, viaEstop, viaCommand))
  {
    var more := DispatchActs(env, dual, viaEstop, viaCommand);
    var all := acts + more;
    assert more[0] == Logged(env.commandId, Pending);
    forall i | 0 <= i < |all| && all[i].Published?
      ensures Logged(all[i].envelope.commandId, Pending) in all[..i]
    {
      if i < |acts| {
        assert all[..i] == acts[..i];
      } else {
        assert all[i] == more[i - |acts|] && all[i].envelope == env;
        assert all[..i][|acts|] == more[0];
      }
    }
  }

  lemma LogKeepsEvidence(acts: seq<Act>, commandId: string, status: RowStatus)
    requires EvidenceFirst(acts)
    ensures EvidenceFirst(acts + [Logged(commandId, status)])
  {
    var all := acts + [Logged(commandId, status)];
    forall i | 0 <= i < |all| && all[i].Published? ensures Logged(all[i].envelope.commandId, Pending) in all[..i] {
      assert all[..i] == acts[..i];
    }
  }

  // ------------------------------------------------------------------
  // Zone changes
  // ------------------------------------------------------------------

  const MODE2_CAPABLE: seq<ZoneType> := [PublicTestPermit, Depot, PrivateSite, PermittedTest]

  /** The hand-written list is the matrix's Mode 2 column. */
  lemma Mode2CapableIsMatrixColumn(zone: ZoneType)
    ensures zone in MODE2_CAPABLE <==> IsModeAllowedInZone(zone, MODE2)
  {
  }

  /** A zone change request. */
  datatype ZoneRequest = ZoneRequest(
    zone: ZoneType, permitId: Option<string>, validUntil: Option<int>, validFrom: Option<int>, speedLimitKmh: Option<real>)

  predicate HasPermitId(q: ZoneRequest) { q.permitId.Some? && q.permitId.value != "" }

  function PermitOf(q: ZoneRequest, issuer: string): Option<Zone.ZonePermit> {
    if HasPermitId(q) then Some(Zone.ZonePermit(q.permitId.value, issuer, q.validUntil, q.validFrom, q.speedLimitKmh)) else None
  }

  datatype ZoneReply =
    | InvalidZone | PermitRequired | PermitExpired | PermitWindowInvalid
    | ZoneSet(delivered: bool, revision: nat)

  /** A zone record that opens Mode 2 names its authorisation and a real window. */
  predicate Authorised(rec: Zone.ZoneRecord) {
    && !rec.zone.UnlistedZone?
    && (IsModeAllowedInZone(rec.zone, MODE2) ==>
          && rec.permit.Some? && rec.permit.value.permitId != ""
          && rec.permit.value.validUntil.Some? && rec.permit.value.validUntil.value > 0
          && (rec.permit.value.validFrom.Some? ==> rec.permit.value.validFrom.value < rec.permit.value.validUntil.value))
  }

  predicate AllAuthorised(records: map<string, Zone.ZoneRecord>) {
    forall v :: v in records ==> Authorised(records[v])
  }

  // ------------------------------------------------------------------
  // The controller
  // ------------------------------------------------------------------

  datatype Reply =
    | Unauthorized | SchemaRejected | ModeMismatch | DiagDeferred | PublishFailure
    | Sent(viaEstop: bool, viaCommand: bool)

  /** Who asks: the claimed operator and fencing token for a vehicle. */
  datatype Caller = Caller(vehicleId: string, operatorId: string, token: string)

  /** The envelope a command goes out in: the derived mode, the living session's grant time
      or the present, and a time to live. */
  function EnvelopeOf(lock: Option<Session.Lock>, vehicleId: string, payload: Payload, commandId: string, now: nat): Envelope {
    Envelope(
      commandId, vehicleId, InferMode(payload.Action()),
      if Session.Live(lock, now) then lock.value.issuedAt else now,
      now, if payload.Action() == E_STOP then 5000 else 2000, payload)
  }

  class CommandController {
    const redis: Session.Redis
    const sessions: Session.SessionService
    const zones: Zone.ZoneService
    var acts: seq<Act>

    predicate Valid()
      reads this, zones
    {
      sessions.redis == redis && zones.Valid() && AllAuthorised(zones.vehicleZones) && EvidenceFirst(acts)
    }

    constructor (redis: Session.Redis, sessions: Session.SessionService, zones: Zone.ZoneService)
      requires sessions.redis == redis && zones.Valid() && zones.vehicleZones == map[]
      ensures Valid() && acts == []
      ensures this.redis == redis && this.sessions == sessions && this.zones == zones
    {
      this.redis, this.sessions, this.zones := redis, sessions, zones;
      acts := [];
    }

    function Lock(vehicleId: string): Option<Session.Lock>
      reads redis
    {
      redis.Slot(vehicleId)
    }

    /** The envelope this caller's command goes out in. */
    function EnvelopeFor(who: Caller, payload: Payload, commandId: string, now: nat): Envelope
      reads redis
    {
      EnvelopeOf(Lock(who.vehicleId), who.vehicleId, payload, commandId, now)
    }

    /** The generic command endpoint. */
    method SendCommand(who: Caller, parsed: Option<Payload>, commandId: string, connected: bool, now: nat) returns (r: Reply)
      requires Valid()
      modifies this`acts
      ensures Valid()
      ensures r == Unauthorized <==> !Session.Holds(Lock(who.vehicleId), who.operatorId, who.token, now)
      ensures r == SchemaRejected <==> r != Unauthorized && parsed.None?
      ensures r == Unauthorized || r == SchemaRejected ==> acts == old(acts)
      ensures r.Sent? || r.PublishFailure? <==>
                r != Unauthorized && parsed.Some? && Gate1Accepts(zones.Info(who.vehicleId), parsed.value.Action(), now)
      ensures r == ModeMismatch <==>
                && r != Unauthorized && parsed.Some? && !AlwaysAllowed(parsed.value.Action())
                && !IsModeAllowedInZone(Zone.Gate1Zone(zones.Info(who.vehicleId), now), InferMode(parsed.value.Action()))
      ensures r.ModeMismatch? || r.DiagDeferred? ==> acts == old(acts) + [Logged(commandId, Rejected)]
      ensures r.Sent? || r.PublishFailure? ==>
                && acts == old(acts) + DispatchActs(EnvelopeFor(who, parsed.value, commandId, now), false, false, connected)
                && (r.Sent? <==> connected)
    {
      var valid := sessions.ValidateToken(who.vehicleId, who.operatorId, who.token, now);
      if !valid { return Unauthorized; }
      if parsed.None? { return SchemaRejected; }
      var action := parsed.value.Action();
      var mode := InferMode(action);
      var allowed := zones.IsModeAllowed(who.vehicleId, mode, now);
      if !AlwaysAllowed(action) && !allowed {
        LogKeepsEvidence(acts, commandId, Rejected);
        acts := acts + [Logged(commandId, Rejected)];
        return ModeMismatch;
      }
      var zone := zones.GetZone(who.vehicleId, now);
      if !AlwaysAllowed(action) && !IsDiagDisruptiveAllowed(action, zone, true) {
        LogKeepsEvidence(acts, commandId, Rejected);
        acts := acts + [Logged(commandId, Rejected)];
        return DiagDeferred;
      }
      r := Dispatch(who, mode, parsed.value, commandId, false, false, connected, now);
    }

    /** E-STOP: past the lock, no zone or mode filter, on both message paths. */
    method TriggerEStop(who: Caller, commandId: string, viaEstop: bool, viaCommand: bool, now: nat) returns (r: Reply)
      requires Valid()
      modifies this`acts
      ensures Valid()
      ensures r == Unauthorized <==> !Session.Holds(Lock(who.vehicleId), who.operatorId, who.token, now)
      ensures r == Unauthorized ==> acts == old(acts)
      ensures r != Unauthorized ==>
                && acts == old(acts) + DispatchActs(EnvelopeFor(who, Plain(E_STOP), commandId, now), true, viaEstop, viaCommand)
                && r == (if viaEstop || viaCommand then Sent(viaEstop, viaCommand) else PublishFailure)
    {
      var valid := sessions.ValidateToken(who.vehicleId, who.operatorId, who.token, now);
      if !valid { return Unauthorized; }
      r := Dispatch(who, MODE1, Plain(E_STOP), commandId, true, viaEstop, viaCommand, now);
    }

    method ClearSafeStop(who: Caller, commandId: string, connected: bool, now: nat) returns (r: Reply)
      requires Valid()
      modifies this`acts
      ensures Valid()
      ensures r == Unauthorized <==> !Session.Holds(Lock(who.vehicleId), who.operatorId, who.token, now)
      ensures r == Unauthorized ==> acts == old(acts)
      ensures r != Unauthorized ==>
                && acts == old(acts) + DispatchActs(EnvelopeFor(who, Plain(CLEAR_SAFE_STOP), commandId, now), false, false, connected)
                && r == (if connected then Sent(false, true) else PublishFailure)
    {
      var valid := sessions.ValidateToken(who.vehicleId, who.operatorId, who.token, now);
      if !valid { return Unauthorized; }
      r := Dispatch(who, MODE1, Plain(CLEAR_SAFE_STOP), commandId, false, false, connected, now);
    }

    /** Envelope, evidence row, then publish; every failed path leaves a row. */
    method Dispatch(who: Caller, mode: OperationMode, payload: Payload, commandId: string,
                    dual: bool, viaEstop: bool, viaCommand: bool, now: nat) returns (r: Reply)
      requires Valid() && mode == InferMode(payload.Action())
      modifies this`acts
      ensures Valid()
      ensures acts == old(acts) + DispatchActs(EnvelopeFor(who, payload, commandId, now), dual, viaEstop, viaCommand)
      ensures r == if viaCommand || (dual && viaEstop) then Sent(dual && viaEstop, viaCommand) else PublishFailure
    {
      var issuedAt := sessions.GetTokenIssuedAt(who.vehicleId, now);
      var env := Envelope(commandId, who.vehicleId, mode, issuedAt, now, if payload.Action() == E_STOP then 5000 else 2000, payload);
      DispatchKeepsEvidence(acts, env, dual, viaEstop, viaCommand);
      ghost var before := acts;
      acts := acts + [Logged(commandId, Pending)];
      if dual {
        if viaEstop { acts := acts + [Published(EstopTopic, env)]; }
        if viaCommand { acts := acts + [Published(CommandTopic, env)]; }
        if !viaEstop && !viaCommand {
          acts := acts + [Logged(commandId, PublishFailed)];
          assert acts == before + DispatchActs(env, dual, viaEstop, viaCommand);
          return PublishFailure;
        }
        if !viaEstop || !viaCommand { acts := acts + [Logged(commandId, PublishDegraded)]; }
        assert acts == before + DispatchActs(env, dual, viaEstop, viaCommand);
        return Sent(viaEstop, viaCommand);
      }
      if !viaCommand {
        acts := acts + [Logged(commandId, PublishFailed)];
        assert acts == before + DispatchActs(env, dual, viaEstop, viaCommand);
        return PublishFailure;
      }
      acts := acts + [Published(CommandTopic, env)];
      assert acts == before + DispatchActs(env, dual, viaEstop, viaCommand);
      r := Sent(false, true);
    }

    /** A zone change: refused without a valid authorisation where Mode 2 would open;
        otherwise recorded and delivered, and every record stays authorised. */
    method SetZone(vehicleId: string, issuer: string, q: ZoneRequest, rowId: string, connected: bool, now: nat) returns (r: ZoneReply)
      requires Valid()
      modifies this`acts, zones
      ensures Valid()
      ensures r == InvalidZone <==> q.zone.UnlistedZone?
      ensures r == PermitRequired <==>
                q.zone in MODE2_CAPABLE && (!HasPermitId(q) || q.validUntil.None?)
      ensures r == PermitExpired <==>
                q.zone in MODE2_CAPABLE && HasPermitId(q) && q.validUntil.Some? && q.validUntil.value <= now
      ensures r == PermitWindowInvalid <==>
                && q.zone in MODE2_CAPABLE && HasPermitId(q) && q.validUntil.Some? && q.validUntil.value > now
                && q.validFrom.Some? && q.validFrom.value >= q.validUntil.value
      ensures !r.ZoneSet? ==>
                && zones.vehicleZones == old(zones.vehicleZones) && zones.published == old(zones.published)
                && acts == old(acts) + (if r == InvalidZone then [] else [Logged(rowId, Rejected)])
      ensures r.ZoneSet? ==>
                && zones.vehicleZones == old(zones.vehicleZones)[vehicleId := Zone.ZoneRecord(q.zone, PermitOf(q, issuer))]
                && acts == old(acts) + [Logged(rowId, Done)]
                && r.delivered == connected && r.revision >= now
    {
      if q.zone.UnlistedZone? { return InvalidZone; }
      if q.zone in MODE2_CAPABLE {
        if !HasPermitId(q) || q.validUntil.None? {
          LogKeepsEvidence(acts, rowId, Rejected);
          acts := acts + [Logged(rowId, Rejected)];
          return PermitRequired;
        }
        if q.validUntil.value <= now {
          LogKeepsEvidence(acts, rowId, Rejected);
          acts := acts + [Logged(rowId, Rejected)];
          return PermitExpired;
        }
        if q.validFrom.Some? && q.validFrom.value >= q.validUntil.value {
          LogKeepsEvidence(acts, rowId, Rejected);
          acts := acts + [Logged(rowId, Rejected)];
          return PermitWindowInvalid;
        }
      }
      Mode2CapableIsMatrixColumn(q.zone);
      assert Authorised(Zone.ZoneRecord(q.zone, PermitOf(q, issuer)));
      var delivered, revision := zones.SetZone(vehicleId, q.zone, PermitOf(q, issuer), connected, now);
      LogKeepsEvidence(acts, rowId, Done);
      acts := acts + [Logged(rowId, Done)];
      r := ZoneSet(delivered, revision);
    }
  }

  // ------------------------------------------------------------------
  // The two gates together
  // ------------------------------------------------------------------

  /** The vehicle runs on the record's document, with the generated policy. */
  predicate Synchronised(c: Config, k: Kernel, rec: Zone.ZoneRecord, d: Zone.Document) {
    && c.policy == GeneratedPolicy()
    && Zone.SchemaValid(d) && d == Zone.DocumentOf(d.vehicleId, rec, d.issuer, d.revision, d.issuedAt)
    && k.zone == Zone.Applied(d)
  }

  /** Whatever the vehicle lets through to the actuators, at whatever position and time,
      Gate 1 would have let through too. */
  lemma VehicleAcceptsOnlyWhatGate1Does(c: Config, k: Kernel, rec: Zone.ZoneRecord, d: Zone.Document,
                                        topic: Topic, env: Envelope, now: nat)
    requires Synchronised(c, k, rec, d) && Authorised(rec)
    requires Safety.MayActuate(c, k, topic, env, now)
    ensures Gate1Accepts(rec, env.payload.Action(), now)
  {
    var a := env.payload.Action();
    var here := EffectiveZone(k.lat, k.lng, k.zone, now);
    PolicyMirrorsContract(a, here, env.mode, k.speed < 0.5);
    Zone.GatesAgreeIff(rec, d.vehicleId, d.issuer, d.revision, d.issuedAt);
    if Zone.WindowCarried(rec) {
      assert Zone.Gate1Zone(rec, now) == CurrentZoneType(k.zone, now);
    }
  }

  /** A driving payload reaches the actuators only inside the territory, in a permit zone
      and while a named permit's window is open on the vehicle's own clock. */
  lemma Mode2OnlyInsidePermit(c: Config, k: Kernel, rec: Zone.ZoneRecord, d: Zone.Document,
                              topic: Topic, env: Envelope, now: nat)
    requires Synchronised(c, k, rec, d) && Authorised(rec)
    requires Safety.MayActuate(c, k, topic, env, now) && Drives(env.payload)
    ensures 47.37 <= k.lat && k.lat <= 47.38 && 8.53 <= k.lng && k.lng <= 8.55
    ensures rec.zone == PublicTestPermit || rec.zone == Depot || rec.zone == PrivateSite || rec.zone == PermittedTest
    ensures rec.permit.Some? && rec.permit.value.permitId != ""
    ensures rec.permit.value.validUntil.Some? && now <= rec.permit.value.validUntil.value
    ensures rec.permit.value.validFrom.Some? ==> rec.permit.value.validFrom.value <= now
    ensures env.payload.Creep? && rec.permit.value.speedLimitKmh.Some? && rec.permit.value.speedLimitKmh.value != 0.0 ==>
              env.payload.speedKmh <= rec.permit.value.speedLimitKmh.value
  {
  }

  /** A dispatched envelope declares the mode the vehicle derives, so it is never
      refused for a mislabelled mode: a mode refusal means the zone forbids the mode. */
  lemma DispatchedModeIsDerived(c: Config, k: Kernel, topic: Topic, env: Envelope, now: nat)
    requires c.policy == GeneratedPolicy() && env.mode == InferMode(env.payload.Action())
    requires Judge(c, k, topic, env, now) == Refuse(MODE_MISMATCH)
    ensures !k.latched && !IsModeAllowedInZone(EffectiveZone(k.lat, k.lng, k.zone, now), env.mode)
  {
  }
}
