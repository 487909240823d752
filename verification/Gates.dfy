/** Both gates named by what a command carries, not by the mode derived from it: the
    payloads that drive the vehicle, those that disrupt it, and the zones, positions and
    permits under which each gets through. */
module Gates {
  import opened Wrappers
  import opened Contract
  import opened VehicleLog
  import opened KernelSpec
  import opened KernelSafety
  import Zone
  import Session
  import Fencing
  import D = Deadman
  import Cloud = CommandGate

  /** Payloads that interrupt perception or control. */
  predicate Disrupts(p: Payload) {
    || p == Plain(RESTART_SERVICE) || p == Plain(RESTART_COMPUTER)
    || p == Plain(RESTART_SENSOR) || p == Plain(UPDATE_CONFIG)
  }

  /** The three latch commands. */
  predicate Latches(p: Payload) {
    p == Plain(E_STOP) || p == Plain(SAFE_STOP) || p == Plain(CLEAR_SAFE_STOP)
  }

  function ModeOf(p: Payload): OperationMode {
    if Drives(p) then MODE2 else if Disrupts(p) || p == Plain(PULL_LOGS) then DIAG else MODE1
  }

  predicate PermitZone(z: ZoneType) {
    z == PublicTestPermit || z == Depot || z == PrivateSite || z == PermittedTest
  }

  predicate Operates(z: ZoneType) { PermitZone(z) || z == PublicApprovedRoute }

  predicate Within(lat: real, lng: real) {
    47.37 <= lat && lat <= 47.38 && 8.53 <= lng && lng <= 8.55
  }

  predicate WindowOpen(from: Option<nat>, until: Option<nat>, now: nat) {
    (from.Some? ==> from.value <= now) && (until.Some? ==> now <= until.value)
  }

  /** The configured zone counts inside its window; outside it the vehicle is on a
      public route. */
  function InForce(z: ZoneState, now: nat): ZoneType {
    if WindowOpen(z.permitValidFrom, z.permitValidUntil, now) then z.zone else PublicApprovedRoute
  }

  lemma InForceIsCurrent(z: ZoneState, now: nat)
    ensures InForce(z, now) == CurrentZoneType(z, now)
  {
  }

  lemma ModeOfIsInferred(p: Payload)
    ensures GeneratedPolicy().InferMode(p.Action()) == InferMode(p.Action()) == ModeOf(p)
  {
    var a := p.Action();
    assert a in MODE2_ACTIONS <==> Drives(p);
    assert a in DIAG_ACTIONS <==> Disrupts(p) || p == Plain(PULL_LOGS);
    PolicyMirrorsContract(a, Depot, MODE1, true);
  }

  lemma ZonesByMode(z: ZoneType)
    ensures GeneratedPolicy().ModeAllowedInZone(z, MODE1) == IsModeAllowedInZone(z, MODE1) == Operates(z)
    ensures GeneratedPolicy().ModeAllowedInZone(z, MODE2) == IsModeAllowedInZone(z, MODE2) == PermitZone(z)
    ensures GeneratedPolicy().ModeAllowedInZone(z, DIAG) == IsModeAllowedInZone(z, DIAG) == (Operates(z) || z == OutOfTod)
  {
  }

  lemma DisruptiveByZone(p: Payload, z: ZoneType, still: bool)
    ensures GeneratedPolicy().DiagDisruptiveAllowed(p.Action(), z, still) ==
              IsDiagDisruptiveAllowed(p.Action(), z, still) ==
              (Disrupts(p) ==> PermitZone(z) || (z == PublicApprovedRoute && still))
  {
    assert p.Action() in DIAG_DISRUPTIVE_ACTIONS <==> Disrupts(p);
    PolicyMirrorsContract(p.Action(), z, DIAG, still);
  }

  // ------------------------------------------------------------------
  // The vehicle's gate
  // ------------------------------------------------------------------

  /** A check a command passes or is refused at. */
  datatype Gate = Gate(reason: RejectReason, open: bool)

  /** The checks on an operational command, in the order they are made. */
  function GatesOf(c: Config, k: Kernel, env: Envelope, now: nat): seq<Gate> {
    var p := env.payload;
    var zone := InForce(k.zone, now);
    var inside := Within(k.lat, k.lng) && zone != OutOfTod;
    [Gate(UNAUTHORIZED, env.vehicleId == c.vehicleId),
     Gate(TTL_EXPIRED, now <= env.timestamp + env.ttlMs),
     Gate(INVALID_TOKEN, k.newestToken <= env.tokenIssuedAt),
     Gate(MODE_MISMATCH, env.mode == ModeOf(p)),
     Gate(SAFE_STOP_LATCHED, !k.latched),
     Gate(GEOFENCE_VIOLATION, ModeOf(p) == DIAG || inside),
     Gate(MODE_MISMATCH, !inside || Operates(zone)),
     Gate(MODE_MISMATCH, Drives(p) ==> PermitZone(zone)),
     Gate(PERMIT_SPEED_LIMIT, p.Creep? && k.zone.permitSpeedLimit.Some? ==> p.speedKmh <= k.zone.permitSpeedLimit.value),
     Gate(DIAG_DEFERRED, Disrupts(p) ==> inside && (zone == PublicApprovedRoute ==> k.speed < 0.5)),
     Gate(SCHEMA_INVALID, IsManeuverDecision(p) ==> DecisionStands(k, p, now))]
  }

  predicate AllOpen(gates: seq<Gate>) {
    forall i :: 0 <= i < |gates| ==> gates[i].open
  }

  predicate FirstClosed(gates: seq<Gate>, i: nat) {
    i < |gates| && !gates[i].open && forall j :: 0 <= j < i ==> gates[j].open
  }

  /** The policy read as the tables above. */
  predicate ReadsAs(policy: ZoneModePolicy, p: Payload, here: ZoneType, still: bool) {
    && policy.InferMode(p.Action()) == ModeOf(p)
    && policy.ModeAllowedInZone(here, MODE1) == Operates(here)
    && policy.ModeAllowedInZone(here, MODE2) == PermitZone(here)
    && policy.ModeAllowedInZone(here, DIAG) == (Operates(here) || here == OutOfTod)
    && policy.DiagDisruptiveAllowed(p.Action(), here, still) ==
         (Disrupts(p) ==> PermitZone(here) || (here == PublicApprovedRoute && still))
  }

  /** Both gates read the generated tables alike, payload by payload and zone by zone. */
  lemma GeneratedReadsAs(p: Payload, here: ZoneType, still: bool)
    ensures ReadsAs(GeneratedPolicy(), p, here, still)
    ensures InferMode(p.Action()) == ModeOf(p)
    ensures IsModeAllowedInZone(here, MODE1) == Operates(here) && IsModeAllowedInZone(here, MODE2) == PermitZone(here)
    ensures IsModeAllowedInZone(here, DIAG) == (Operates(here) || here == OutOfTod)
    ensures IsDiagDisruptiveAllowed(p.Action(), here, still) ==
              (Disrupts(p) ==> PermitZone(here) || (here == PublicApprovedRoute && still))
  {
    ModeOfIsInferred(p);
    ZonesByMode(here);
    DisruptiveByZone(p, here, still);
  }

  function Answer(gates: seq<Gate>, n: nat): Verdict
    requires n < |gates|
  {
    if gates[n].reason == GEOFENCE_VIOLATION then LeftTerritory else Refuse(gates[n].reason)
  }

  /** The first five gates answer for the envelope and the latch, the others for place
      and payload. */
  predicate EarlyOpen(g: seq<Gate>)
    requires |g| == 11
  {
    g[0].open && g[1].open && g[2].open && g[3].open && g[4].open
  }

  predicate LateOpen(g: seq<Gate>)
    requires |g| == 11
  {
    g[5].open && g[6].open && g[7].open && g[8].open && g[9].open && g[10].open
  }

  lemma JudgedEarly(c: Config, k: Kernel, env: Envelope, now: nat)
    requires env.commandId !in k.dedup.acks && IsOperational(env.payload.Action())
    requires c.policy.InferMode(env.payload.Action()) == ModeOf(env.payload)
    requires !EarlyOpen(GatesOf(c, k, env, now))
    ensures var g := GatesOf(c, k, env, now);
            Judge(c, k, CommandTopic, env, now) ==
              if !g[0].open then Answer(g, 0) else if !g[1].open then Answer(g, 1)
              else if !g[2].open then Answer(g, 2) else if !g[3].open then Answer(g, 3) else Answer(g, 4)
  {
  }

  predicate PlaceOpen(g: seq<Gate>)
    requires |g| == 11
  {
    g[5].open && g[6].open && g[7].open
  }

  lemma JudgedPlace(c: Config, k: Kernel, env: Envelope, now: nat)
    requires env.commandId !in k.dedup.acks && IsOperational(env.payload.Action())
    requires ReadsAs(c.policy, env.payload, EffectiveZone(k.lat, k.lng, k.zone, now), k.speed < 0.5)
    requires CurrentZoneType(k.zone, now) == InForce(k.zone, now)
    requires EarlyOpen(GatesOf(c, k, env, now)) && !PlaceOpen(GatesOf(c, k, env, now))
    ensures var g := GatesOf(c, k, env, now);
            Judge(c, k, CommandTopic, env, now) ==
              if !g[5].open then Answer(g, 5) else if !g[6].open then Answer(g, 6) else Answer(g, 7)
  {
    var here := EffectiveZone(k.lat, k.lng, k.zone, now);
    assert here == if Within(k.lat, k.lng) then InForce(k.zone, now) else OutOfTod;
  }

  lemma JudgedPayload(c: Config, k: Kernel, env: Envelope, now: nat)
    requires env.commandId !in k.dedup.acks && IsOperational(env.payload.Action())
    requires ReadsAs(c.policy, env.payload, EffectiveZone(k.lat, k.lng, k.zone, now), k.speed < 0.5)
    requires CurrentZoneType(k.zone, now) == InForce(k.zone, now)
    requires EarlyOpen(GatesOf(c, k, env, now)) && PlaceOpen(GatesOf(c, k, env, now))
    ensures var g := GatesOf(c, k, env, now);
            var v := Judge(c, k, CommandTopic, env, now);
            if LateOpen(g) then v.Accept? || v.Decide?
            else v == if !g[8].open then Answer(g, 8) else if !g[9].open then Answer(g, 9) else Answer(g, 10)
  {
    var p, here := env.payload, EffectiveZone(k.lat, k.lng, k.zone, now);
    var limit := ActivePermitSpeedLimit(k.zone, now);
    assert c.policy.ModeAllowedInZone(here, env.mode) && (here == OutOfTod ==> env.mode == DIAG);
    SpeedGate(c, k, env, now);
  }

  lemma SpeedGate(c: Config, k: Kernel, env: Envelope, now: nat)
    requires PlaceOpen(GatesOf(c, k, env, now))
    ensures var limit := ActivePermitSpeedLimit(k.zone, now);
            GatesOf(c, k, env, now)[8].open <==> !(limit.Some? && env.payload.Creep? && env.payload.speedKmh > limit.value)
  {
  }

  lemma FirstOf(g: seq<Gate>, i: nat)
    requires |g| == 11
    ensures AllOpen(g) <==> EarlyOpen(g) && LateOpen(g)
    ensures var first :=
              if !g[0].open then 0 else if !g[1].open then 1 else if !g[2].open then 2
              else if !g[3].open then 3 else if !g[4].open then 4 else if !g[5].open then 5
              else if !g[6].open then 6 else if !g[7].open then 7 else if !g[8].open then 8
              else if !g[9].open then 9 else 10;
            FirstClosed(g, i) ==> i == first
  {
  }

  /** What the pipeline makes of an operational command: it passes when every gate is
      open and fails at the first that is closed. */
  lemma JudgedInOrder(c: Config, k: Kernel, env: Envelope, now: nat, i: nat)
    requires c.policy == GeneratedPolicy() && env.commandId !in k.dedup.acks && !Latches(env.payload)
    ensures var gates := GatesOf(c, k, env, now);
            var v := Judge(c, k, CommandTopic, env, now);
            && (v.Accept? || v.Decide? <==> AllOpen(gates))
            && (FirstClosed(gates, i) ==> v == Answer(gates, i))
  {
    GeneratedReadsAs(env.payload, EffectiveZone(k.lat, k.lng, k.zone, now), k.speed < 0.5);
    NotLatching(env.payload);
    InForceIsCurrent(k.zone, now);
    var g := GatesOf(c, k, env, now);
    FirstOf(g, i);
    if !EarlyOpen(g) {
      JudgedEarly(c, k, env, now);
    } else if !PlaceOpen(g) {
      JudgedPlace(c, k, env, now);
    } else {
      JudgedPayload(c, k, env, now);
    }
  }

  lemma NotLatching(p: Payload)
    ensures Latches(p) <==> !IsOperational(p.Action())
  {
  }

  /** The command got through: acknowledged, sent to the actuators, nothing recorded. */
  predicate Passed(env: Envelope, e: Effects) {
    && e.acks == [Acked(env.commandId)] && e.logged == []
    && e.ipc == [CommandEvent(env.commandId, env.payload.Action(), env.payload)]
  }

  /** The command was refused for this reason; leaving the territory also latches and is
      recorded with the position. */
  predicate Stopped(c: Config, k: Kernel, env: Envelope, now: nat, reason: RejectReason, latched: bool, e: Effects) {
    && e.acks == [Nacked(env.commandId, reason)]
    && if reason != GEOFENCE_VIOLATION then e.ipc == [] && e.logged == [] && latched == k.latched
       else
         && e.ipc == [StateEvent(true)] && latched
         && e.logged == [Event(c.vehicleId, k.log.bootId, k.log.last + 1, now,
                               LatchEngaged(Geofence(k.lat, k.lng), Some(env.commandId)))]
  }

  /** A fresh operational command gets through if every gate is open, and is refused for
      the reason of the first that is closed. */
  lemma AnsweredByFirstGate(c: Config, k: Kernel, env: Envelope, now: nat, i: nat)
    requires c.policy == GeneratedPolicy() && env.commandId !in k.dedup.acks && !Latches(env.payload)
    ensures var gates := GatesOf(c, k, env, now);
            var (k', e) := Next(c, k, OnCommand(CommandTopic, Signed(env), now));
            && (AllOpen(gates) ==> Passed(env, e))
            && (FirstClosed(gates, i) ==> Stopped(c, k, env, now, gates[i].reason, k'.latched, e))
  {
    var on := Contact(k, now);
    SameGates(c, k, env, now);
    JudgedInOrder(c, on, env, now, i);
    Carried(c, on, env, now, Judge(c, on, CommandTopic, env, now));
  }

  lemma SameGates(c: Config, k: Kernel, env: Envelope, now: nat)
    ensures GatesOf(c, Contact(k, now), env, now) == GatesOf(c, k, env, now)
  {
  }

  lemma Carried(c: Config, k: Kernel, env: Envelope, now: nat, v: Verdict)
    ensures var (k', e) := Apply(c, k, env, now, v);
            && (v.Accept? || v.Decide? ==> Passed(env, e))
            && (v.Refuse? && v.reason != GEOFENCE_VIOLATION ==> Stopped(c, k, env, now, v.reason, k'.latched, e))
            && (v.LeftTerritory? ==> Stopped(c, k, env, now, GEOFENCE_VIOLATION, k'.latched, e))
  {
  }

  /** An operational event means every gate stood open for the envelope it carries. */
  lemma EventMeansOpen(c: Config, k: Kernel, s: Step, ev: Ipc)
    requires c.policy == GeneratedPolicy()
    requires ev.CommandEvent? && IsOperational(ev.action) && ev in Next(c, k, s).1.ipc
    ensures s.OnCommand? && s.command.Signed? && s.topic == CommandTopic
    ensures ev.payload == s.command.envelope.payload && ev.action == ev.payload.Action()
    ensures AllOpen(GatesOf(c, k, s.command.envelope, s.now))
  {
    ActuatesIff(c, k, s, ev);
    var env := s.command.envelope;
    NotLatching(env.payload);
    JudgedInOrder(c, k, env, s.now, 0);
    JudgeAcceptsIff(c, k, CommandTopic, env, s.now);
  }

  // ------------------------------------------------------------------
  // The latch commands
  // ------------------------------------------------------------------

  /** Everything on the estop topic is an E-STOP, whatever it carries; on the command
      topic an E-STOP or SAFE-STOP payload stops. */
  predicate Stops(topic: Topic, p: Payload) {
    topic == EstopTopic || p == Plain(E_STOP) || p == Plain(SAFE_STOP)
  }

  /** A fresh stop engages if and only if it is for this vehicle and not fenced off, and
      then tells the bridge, records its kind and is acknowledged. */
  lemma StopsExactly(c: Config, k: Kernel, topic: Topic, env: Envelope, now: nat)
    requires Stops(topic, env.payload) && env.commandId !in k.dedup.acks
    ensures var (k', e) := Next(c, k, OnCommand(topic, Signed(env), now));
            var hard := topic == EstopTopic || env.payload == Plain(E_STOP);
            if env.vehicleId == c.vehicleId && env.tokenIssuedAt >= k.newestToken then
              && k'.latched && e.acks == [Acked(env.commandId)]
              && e.ipc == [StateEvent(true), CommandEvent(env.commandId, if hard then E_STOP else SAFE_STOP, env.payload)]
              && e.logged == [Event(c.vehicleId, k.log.bootId, k.log.last + 1, now,
                                    LatchEngaged(if hard then EStopCommand else SafeStopCommand, Some(env.commandId)))]
            else
              && k'.latched == k.latched && e.ipc == [] && e.logged == []
              && e.acks == [Nacked(env.commandId, if env.vehicleId != c.vehicleId then UNAUTHORIZED else INVALID_TOKEN)]
  {
    var on := Contact(k, now);
    var hard := topic == EstopTopic || env.payload == Plain(E_STOP);
    assert Judge(c, on, topic, env, now) ==
      if env.vehicleId != c.vehicleId then Refuse(UNAUTHORIZED)
      else if env.tokenIssuedAt < k.newestToken then Refuse(INVALID_TOKEN)
      else StopNow(hard);
  }

  /** A latched vehicle lets go on a fresh, addressed, timely, unfenced CLEAR_SAFE_STOP on
      the command topic that declares Mode 1, tells the bridge and records who cleared; an
      unlatched one acknowledges it and does nothing. */
  lemma ReleasesExactly(c: Config, k: Kernel, env: Envelope, now: nat)
    requires c.policy == GeneratedPolicy()
    requires env.payload == Plain(CLEAR_SAFE_STOP) && env.commandId !in k.dedup.acks
    ensures var (k', e) := Next(c, k, OnCommand(CommandTopic, Signed(env), now));
            var passes := && env.vehicleId == c.vehicleId && now <= env.timestamp + env.ttlMs
                          && env.tokenIssuedAt >= k.newestToken && env.mode == MODE1;
            && (e.acks == [Acked(env.commandId)] <==> passes)
            && if passes && k.latched then
                 && !k'.latched
                 && e.ipc == [StateEvent(false), CommandEvent(env.commandId, CLEAR_SAFE_STOP, env.payload)]
                 && e.logged == [Event(c.vehicleId, k.log.bootId, k.log.last + 1, now, LatchReleased(env.commandId))]
               else k'.latched == k.latched && e.ipc == [] && e.logged == []
  {
    ModeOfIsInferred(env.payload);
    var on := Contact(k, now);
    assert Judge(c, on, CommandTopic, env, now) ==
      if env.vehicleId != c.vehicleId then Refuse(UNAUTHORIZED)
      else if now > env.timestamp + env.ttlMs then Refuse(TTL_EXPIRED)
      else if env.tokenIssuedAt < k.newestToken then Refuse(INVALID_TOKEN)
      else if env.mode != MODE1 then Refuse(MODE_MISMATCH)
      else if k.latched then Release else AlreadyClear;
  }

  /** What is not a signed, schema-valid envelope changes nothing, not even contact, and is
      answered SCHEMA_INVALID under the id it claims, or not at all when it is no JSON. */
  lemma UnsignedMovesNothing(c: Config, k: Kernel, topic: Topic, m: CommandMessage, now: nat)
    requires !m.Signed?
    ensures Next(c, k, OnCommand(topic, m, now)) ==
              (k, NOTHING.(acks := if m.NotJson? then [] else [Nacked(m.claimedId, SCHEMA_INVALID)]))
  {
  }

  // ------------------------------------------------------------------
  // Driving and disrupting, over whole runs
  // ------------------------------------------------------------------

  /** The message is the document of an authorised zone record. */
  predicate Documents(c: Config, m: ZoneMessage, rec: Zone.ZoneRecord, d: Zone.Document) {
    && Cloud.Authorised(rec)
    && d == Zone.DocumentOf(c.vehicleId, rec, d.issuer, d.revision, d.issuedAt)
    && m == Zone.MessageOf(d)
  }

  /** Every zone message the vehicle takes was issued by the zone service. */
  ghost predicate FromZoneService(c: Config, steps: seq<Step>) {
    forall i :: 0 <= i < |steps| && Zone.Delivers(c, steps[i]) ==>
      exists rec, d :: Documents(c, steps[i].zoneMessage, rec, d)
  }

  /** The record opens Mode 2 here and now: a permit zone, a named permit, its window. */
  predicate Permits(rec: Zone.ZoneRecord, now: nat) {
    && PermitZone(rec.zone) && rec.permit.Some? && rec.permit.value.permitId != ""
    && rec.permit.value.validUntil.Some? && now <= rec.permit.value.validUntil.value
    && (rec.permit.value.validFrom.Some? ==> rec.permit.value.validFrom.value <= now)
  }

  predicate SlowEnough(rec: Zone.ZoneRecord, p: Payload) {
    p.Creep? && rec.permit.Some? && rec.permit.value.speedLimitKmh.Some? && rec.permit.value.speedLimitKmh.value != 0.0 ==>
      p.speedKmh <= rec.permit.value.speedLimitKmh.value
  }

  lemma PermitFromDocument(c: Config, m: ZoneMessage, rec: Zone.ZoneRecord, d: Zone.Document, now: nat, p: Payload)
    requires Documents(c, m, rec, d) && m.schemaValid && PermitZone(InForce(m.config, now))
    requires p.Creep? && m.config.permitSpeedLimit.Some? ==> p.speedKmh <= m.config.permitSpeedLimit.value
    ensures Permits(rec, now) && SlowEnough(rec, p)
  {
    ZonesByMode(rec.zone);
  }

  /** Driving needs a permit.  Over any run from boot: whenever an operational event
      carries a steering, drive, direction, creep, turn, park or lights payload, the
      vehicle is unlatched and inside the territory, and either it still runs on a seed
      that is a permit zone, or a document delivered before came from a record that
      names a permit, in whose window the event falls and whose speed limit it keeps. */
  lemma {:induction false} DrivenOnlyUnderPermit(c: Config, bootId: string, initial: ZoneType, boot: nat, steps: seq<Step>, j: nat, ev: Ipc)
    requires c.policy == GeneratedPolicy() && j < |steps| && FromZoneService(c, steps)
    requires ev.CommandEvent? && IsOperational(ev.action) && Drives(ev.payload)
    requires ev in EffectsAt(c, Boot(bootId, initial, boot), steps, j).ipc
    ensures var k := Run(c, Boot(bootId, initial, boot), steps[..j]);
            && !k.latched && Within(k.lat, k.lng) && PermitZone(InForce(k.zone, steps[j].now))
            && (|| (PermitZone(initial) && k.zone == ZoneState(initial, None, None, None, 0))
                || exists i, rec, d ::
                     && 0 <= i < j && Zone.Delivers(c, steps[i]) && Documents(c, steps[i].zoneMessage, rec, d)
                     && Permits(rec, steps[j].now) && SlowEnough(rec, ev.payload))
  {
    var k0 := Boot(bootId, initial, boot);
    var k := Run(c, k0, steps[..j]);
    EventMeansOpen(c, k, steps[j], ev);
    AllOpenSpelt(GatesOf(c, k, steps[j].command.envelope, steps[j].now));
    Zone.HoldsGreatest(c, k0, steps[..j]);
    if k.zone != k0.zone {
      var i :| 0 <= i < j && Zone.Delivers(c, steps[..j][i]) && steps[..j][i].zoneMessage.config == k.zone;
      assert Zone.Delivers(c, steps[i]);
      var rec, d :| Documents(c, steps[i].zoneMessage, rec, d);
      PermitFromDocument(c, steps[i].zoneMessage, rec, d, steps[j].now, ev.payload);
    }
  }

  lemma AllOpenSpelt(g: seq<Gate>)
    requires |g| == 11 && AllOpen(g)
    ensures EarlyOpen(g) && PlaceOpen(g) && LateOpen(g)
  {
  }

  /** Restarts and configuration updates reach the actuators only inside the territory,
      and on a public route only below 0.5 km/h. */
  lemma DisruptedOnlyWhenSafe(c: Config, k: Kernel, s: Step, ev: Ipc)
    requires c.policy == GeneratedPolicy()
    requires ev.CommandEvent? && IsOperational(ev.action) && Disrupts(ev.payload) && ev in Next(c, k, s).1.ipc
    ensures !k.latched && Within(k.lat, k.lng)
    ensures PermitZone(InForce(k.zone, s.now)) || (InForce(k.zone, s.now) == PublicApprovedRoute && k.speed < 0.5)
  {
    EventMeansOpen(c, k, s, ev);
    AllOpenSpelt(GatesOf(c, k, s.command.envelope, s.now));
  }

  // ------------------------------------------------------------------
  // The cloud's gate
  // ------------------------------------------------------------------

  /** The record's zone while its permit's window is open, a zero or missing bound being
      no bound; a public route otherwise. */
  function RecordInForce(rec: Zone.ZoneRecord, now: nat): ZoneType {
    if && rec.permit.Some?
       && (|| (rec.permit.value.validUntil.Some? && rec.permit.value.validUntil.value != 0 && now > rec.permit.value.validUntil.value)
           || (rec.permit.value.validFrom.Some? && rec.permit.value.validFrom.value != 0 && now < rec.permit.value.validFrom.value))
    then PublicApprovedRoute
    else rec.zone
  }

  /** What Gate 1 lets through, payload by payload. */
  lemma Gate1AcceptsIff(rec: Zone.ZoneRecord, p: Payload, now: nat)
    ensures var zone := RecordInForce(rec, now);
            Cloud.Gate1Accepts(rec, p.Action(), now) <==>
              || Latches(p)
              || (Drives(p) && PermitZone(zone))
              || (p == Plain(PULL_LOGS) && (Operates(zone) || zone == OutOfTod))
              || (!Drives(p) && Operates(zone))
  {
    var zone := RecordInForce(rec, now);
    assert zone == Zone.Gate1Zone(rec, now);
    ModeOfIsInferred(p);
    ZonesByMode(zone);
    DisruptiveByZone(p, zone, true);
    NotLatching(p);
  }

  /** Under an authorised record Gate 1 dispatches a driving payload exactly inside a
      named permit's window; under the default record never. */
  lemma Gate1DrivesIff(rec: Zone.ZoneRecord, p: Payload, now: nat)
    requires Cloud.Authorised(rec) && Drives(p)
    ensures Cloud.Gate1Accepts(rec, p.Action(), now) <==> Permits(rec, now)
    ensures !Cloud.Gate1Accepts(Zone.DEFAULT_RECORD, p.Action(), now)
  {
    Gate1AcceptsIff(rec, p, now);
    Gate1AcceptsIff(Zone.DEFAULT_RECORD, p, now);
    ZonesByMode(rec.zone);
  }

  // ------------------------------------------------------------------
  // From the cloud's gate to the vehicle's
  // ------------------------------------------------------------------

  /** The instant a dispatch names as its session's: the living grant's, or its own. */
  function GrantTime(lock: Option<Session.Lock>, now: nat): nat {
    if lock.Some? && now < lock.value.expiresAt then lock.value.issuedAt else now
  }

  /** A command dispatched at `sent` is refused for age exactly if it is no stop and arrives
      over 2 s later, for its session exactly if a later token was seen, and never for its
      mode label. */
  lemma DispatchedArrives(c: Config, k: Kernel, lock: Option<Session.Lock>, payload: Payload, commandId: string, sent: nat, topic: Topic, at: nat)
    requires c.policy == GeneratedPolicy() && commandId !in k.dedup.acks
    ensures var env := Cloud.EnvelopeOf(lock, c.vehicleId, payload, commandId, sent);
            var v := Judge(c, k, topic, env, at);
            var late := !Stops(topic, payload) && at > sent + 2000;
            && (v == Refuse(TTL_EXPIRED) <==> late)
            && (v == Refuse(INVALID_TOKEN) <==> !late && GrantTime(lock, sent) < k.newestToken)
            && v != Refuse(UNAUTHORIZED) && env.mode == ModeOf(payload)
  {
    ModeOfIsInferred(payload);
    var env := Cloud.EnvelopeOf(lock, c.vehicleId, payload, commandId, sent);
    assert IsStop(topic, env) <==> Stops(topic, payload);
    assert payload.Action() == E_STOP ==> payload == Plain(E_STOP);
  }

  /** The envelope of a request handled in one instant is the one the interleaved dispatch
      publishes when nothing comes between its steps. */
  lemma SameEnvelope(c: Config, w: D.World, draft: Fencing.Draft)
    ensures Cloud.EnvelopeOf(w.lock, c.vehicleId, draft.payload, draft.commandId, w.now) ==
              Fencing.CommandEnvelope(c, draft, Fencing.TokenTime(Fencing.LookUp(w), w.now), w.now)
  {
  }
}
