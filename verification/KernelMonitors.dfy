/** The kernel's own safety monitors over whole runs: what it knows of the vehicle's
    position, when the geofence and the pose watchdog latch, and what counts as contact. */
module KernelMonitors {
  import opened Wrappers
  import opened Contract
  import opened VehicleLog
  import opened KernelSpec
  import opened KernelSafety
  import opened KernelLiveness
  import Gates

  // ------------------------------------------------------------------
  // The fed pose
  // ------------------------------------------------------------------

  /** Step `i` is the last pose of the run. */
  predicate LastPose(steps: seq<Step>, i: nat) {
    i < |steps| && steps[i].OnPose? && forall j :: i < j < |steps| ==> !steps[j].OnPose?
  }

  /** Only a pose moves a vehicle whose pose is fed. */
  lemma StepPose(c: Config, k: Kernel, s: Step)
    requires k.externalPose && !s.OnPose?
    ensures var k' := Next(c, k, s).0;
            && k'.externalPose && k'.lastPose == k.lastPose
            && k'.lat == k.lat && k'.lng == k.lng && k'.speed == k.speed
  {
    if s.OnCommand? {
      if s.command.Signed? {
        var env := s.command.envelope;
        ApplyKeepsPose(c, Contact(k, s.now), env, s.now, Judge(c, Contact(k, s.now), s.topic, env, s.now));
      }
    } else {
      TickKeepsPose(c, k, s);
    }
  }

  lemma ApplyKeepsPose(c: Config, k: Kernel, env: Envelope, now: nat, v: Verdict)
    ensures var k' := Apply(c, k, env, now, v).0;
            && k'.externalPose == k.externalPose && k'.lastPose == k.lastPose
            && k'.lat == k.lat && k'.lng == k.lng && k'.speed == k.speed
  {
  }

  lemma TickKeepsPose(c: Config, k: Kernel, s: Step)
    requires k.externalPose && !s.OnPose? && !s.OnCommand?
    ensures var k' := Next(c, k, s).0;
            && k'.externalPose && k'.lastPose == k.lastPose
            && k'.lat == k.lat && k'.lng == k.lng && k'.speed == k.speed
  {
  }

  /** Once a pose has been fed, the kernel's position and pose time are those of the last
      pose, whatever else happened. */
  lemma {:induction false} PoseIsTruth(c: Config, bootId: string, initial: ZoneType, boot: nat, steps: seq<Step>, i: nat)
    requires LastPose(steps, i)
    ensures var k := Run(c, Boot(bootId, initial, boot), steps);
            && k.externalPose && k.lastPose == steps[i].now
            && k.lat == steps[i].lat && k.lng == steps[i].lng
  {
    var n := |steps| - 1;
    if i < n {
      var front := steps[..n];
      PoseIsTruth(c, bootId, initial, boot, front, i);
      StepPose(c, Run(c, Boot(bootId, initial, boot), front), steps[n]);
    }
  }

  /** Step `i` is the last pose of the run that came with a speed. */
  predicate LastSpeed(steps: seq<Step>, i: nat) {
    && i < |steps| && steps[i].OnPose? && steps[i].speed.Some?
    && forall j :: i < j < |steps| && steps[j].OnPose? ==> steps[j].speed.None?
  }

  /** The kernel's speed is the last one fed. */
  lemma {:induction false} SpeedIsTruth(c: Config, bootId: string, initial: ZoneType, boot: nat, steps: seq<Step>, i: nat)
    requires LastSpeed(steps, i)
    ensures var k := Run(c, Boot(bootId, initial, boot), steps);
            k.externalPose && k.speed == steps[i].speed.value
  {
    var n := |steps| - 1;
    if i < n {
      var front := steps[..n];
      SpeedIsTruth(c, bootId, initial, boot, front, i);
      if !steps[n].OnPose? { StepPose(c, Run(c, Boot(bootId, initial, boot), front), steps[n]); }
    }
  }

  // ------------------------------------------------------------------
  // The geofence
  // ------------------------------------------------------------------

  /** Off the approved rectangle, or in a zone configured as outside it. */
  predicate Astray(k: Kernel, now: nat) {
    !Gates.Within(k.lat, k.lng) || Gates.InForce(k.zone, now) == OutOfTod
  }

  /** The geofence fires on an unlatched vehicle exactly when it is astray: the latch, the
      bridge and the record with these coordinates; otherwise the tick only drives the
      built-in model, and a fed vehicle not even that. */
  lemma GeofenceFiresIff(c: Config, k: Kernel, now: nat)
    ensures var (k', e) := Next(c, k, Telemetry10Hz(now));
            && (e != NOTHING <==> !k.latched && Astray(k', now))
            && (e != NOTHING ==>
                  && k'.latched && e.ipc == [StateEvent(true)] && e.acks == [] && e.offers == [] && e.statuses == [] && e.batch == []
                  && e.logged == [Event(c.vehicleId, k.log.bootId, k.log.last + 1, now, LatchEngaged(Geofence(k'.lat, k'.lng), None))])
            && (e == NOTHING ==> k'.latched == k.latched && k'.log == k.log)
            && (k.externalPose ==>
                  k'.lat == k.lat && k'.lng == k.lng && k'.zone == k.zone && k' == k.(simTicks := k'.simTicks, latched := k'.latched, log := k'.log))
  {
    Gates.InForceIsCurrent(k.zone, now);
  }

  /** A latched vehicle without a fed pose stands still. */
  lemma LatchedModelStands(c: Config, k: Kernel, now: nat)
    requires k.latched && !k.externalPose && (k.zone.permitSpeedLimit.Some? ==> k.zone.permitSpeedLimit.value >= 0.0)
    ensures var k' := Next(c, k, Telemetry10Hz(now)).0;
            k'.speed == 0.0 && k'.lat == k.lat && k'.lng == k.lng
  {
  }

  /** The time of the last tick of this kind; boot counts as one. */
  function LastTelemetry(steps: seq<Step>, boot: nat): nat {
    if steps == [] then boot
    else if steps[|steps| - 1].Telemetry10Hz? then steps[|steps| - 1].now
    else LastTelemetry(steps[..|steps| - 1], boot)
  }

  lemma {:induction false} TelemetryInPast(steps: seq<Step>, boot: nat)
    requires ClockOk(steps, boot)
    ensures boot <= LastTelemetry(steps, boot)
    ensures steps != [] ==> LastTelemetry(steps, boot) <= steps[|steps| - 1].now
  {
    if steps != [] {
      assert ClockOk(steps[..|steps| - 1], boot);
      TelemetryInPast(steps[..|steps| - 1], boot);
    }
  }

  /** What can leave an unlatched vehicle off the rectangle: a pose, or a release there. */
  predicate Strays(c: Config, k: Kernel, s: Step) {
    s.OnPose? || (k.latched && IsAuthorisedClear(c, k, s))
  }

  /** Step `i` strays, and no telemetry tick has come since. */
  ghost predicate StraysAt(c: Config, k: Kernel, steps: seq<Step>, i: nat) {
    i < |steps| && Strays(c, Run(c, k, steps[..i]), steps[i]) && forall j :: i < j < |steps| ==> !steps[j].Telemetry10Hz?
  }

  lemma StepStray(c: Config, k: Kernel, s: Step)
    requires k.externalPose || OnTrack(k)
    ensures var k' := Next(c, k, s).0;
            !k'.latched && !Gates.Within(k'.lat, k'.lng) ==>
              !s.Telemetry10Hz? && (Strays(c, k, s) || (!k.latched && !Gates.Within(k.lat, k.lng)))
  {
    if k.latched { ReleasedIff(c, k, s); }
    if s.Telemetry10Hz? {
      GeofenceFiresIff(c, k, s.now);
    } else if !s.OnPose? {
      KeepsTrack(c, k, s);
    }
  }

  /** With telemetry ticks at most `period` apart, a vehicle cannot stay unlatched off
      the rectangle: if it is, at any instant up to the next tick, a pose or a release put
      it there at most one period ago, and no tick has come since. */
  lemma {:induction false} StrayIsCaught(c: Config, bootId: string, initial: ZoneType, boot: nat, steps: seq<Step>, period: nat, t: nat)
    requires ClockOk(steps, boot) && t <= LastTelemetry(steps, boot) + period
    ensures var k := Run(c, Boot(bootId, initial, boot), steps);
            !k.latched && !(47.37 <= k.lat && k.lat <= 47.38 && 8.53 <= k.lng && k.lng <= 8.55) ==>
              exists i: nat :: StraysAt(c, Boot(bootId, initial, boot), steps, i) && t <= steps[i].now + period
  {
    var k0 := Boot(bootId, initial, boot);
    var k := Run(c, k0, steps);
    if !k.latched && !Gates.Within(k.lat, k.lng) {
      forall m | 0 <= m <= |steps| ensures FedOrOnTrack(Run(c, k0, steps[..m])) {
        ModelStaysInside(c, bootId, initial, boot, steps[..m]);
      }
      var i := StrayFound(c, k0, steps);
      SinceTelemetry(steps, boot, i);
    }
  }

  predicate FedOrOnTrack(k: Kernel) { k.externalPose || OnTrack(k) }

  lemma {:induction false} StrayFound(c: Config, k0: Kernel, steps: seq<Step>) returns (i: nat)
    requires forall m :: 0 <= m <= |steps| ==> FedOrOnTrack(Run(c, k0, steps[..m]))
    requires Gates.Within(k0.lat, k0.lng)
    requires var k := Run(c, k0, steps); !k.latched && !Gates.Within(k.lat, k.lng)
    ensures StraysAt(c, k0, steps, i)
  {
    assert steps != [];
    var n := |steps| - 1;
    var front := steps[..n];
    forall m | 0 <= m <= n ensures front[..m] == steps[..m] { }
    assert FedOrOnTrack(Run(c, k0, steps[..n]));
    StepStray(c, Run(c, k0, front), steps[n]);
    if Strays(c, Run(c, k0, front), steps[n]) {
      i := n;
    } else {
      i := StrayFound(c, k0, front);
      StrayLasts(c, k0, steps, i);
    }
  }

  lemma StrayLasts(c: Config, k0: Kernel, steps: seq<Step>, i: nat)
    requires steps != [] && !steps[|steps| - 1].Telemetry10Hz? && StraysAt(c, k0, steps[..|steps| - 1], i)
    ensures StraysAt(c, k0, steps, i)
  {
    var front := steps[..|steps| - 1];
    assert front[..i] == steps[..i] && front[i] == steps[i];
    assert forall j :: i < j < |front| ==> front[j] == steps[j];
  }

  lemma {:induction false} SinceTelemetry(steps: seq<Step>, boot: nat, i: nat)
    requires ClockOk(steps, boot) && i < |steps| && forall j :: i < j < |steps| ==> !steps[j].Telemetry10Hz?
    ensures LastTelemetry(steps, boot) <= steps[i].now
  {
    var n := |steps| - 1;
    TelemetryInPast(steps, boot);
    if i < n {
      assert ClockOk(steps[..n], boot);
      SinceTelemetry(steps[..n], boot, i);
    }
  }

  // ------------------------------------------------------------------
  // Pose silence
  // ------------------------------------------------------------------

  /** The pose watchdog fires exactly on an unlatched vehicle whose fed pose has been
      silent for over 3 s. */
  lemma PoseSilenceFiresIff(c: Config, k: Kernel, now: nat)
    requires k.lastPose <= now
    ensures var (k', e) := Next(c, k, Pose1Hz(now));
            && (e != NOTHING <==> k.externalPose && !k.latched && now - k.lastPose > 3000)
            && (e != NOTHING ==>
                  && k' == k.(latched := true, log := k'.log) && e.ipc == [StateEvent(true)]
                  && e.logged == [Event(c.vehicleId, k.log.bootId, k.log.last + 1, now, LatchEngaged(PoseSilence, None))])
            && (e == NOTHING ==> k' == k)
  {
  }

  function LastPoseTick(steps: seq<Step>, boot: nat): nat {
    if steps == [] then boot
    else if steps[|steps| - 1].Pose1Hz? then steps[|steps| - 1].now
    else LastPoseTick(steps[..|steps| - 1], boot)
  }

  lemma {:induction false} PoseTickInPast(steps: seq<Step>, boot: nat)
    requires ClockOk(steps, boot)
    ensures boot <= LastPoseTick(steps, boot)
    ensures steps != [] ==> LastPoseTick(steps, boot) <= steps[|steps| - 1].now
  {
    if steps != [] {
      assert ClockOk(steps[..|steps| - 1], boot);
      PoseTickInPast(steps[..|steps| - 1], boot);
    }
  }

  /** A release at step `i`, with no pose tick since. */
  ghost predicate ReleasedAt(c: Config, k: Kernel, steps: seq<Step>, i: nat) {
    && i < |steps| && Run(c, k, steps[..i]).latched && IsAuthorisedClear(c, Run(c, k, steps[..i]), steps[i])
    && forall j :: i < j < |steps| ==> !steps[j].Pose1Hz?
  }

  lemma StepSilence(c: Config, k: Kernel, s: Step)
    requires k.lastPose <= s.now
    ensures var k' := Next(c, k, s).0;
            && (!k'.latched && k'.externalPose ==>
                  || s.OnPose?
                  || (k.externalPose && k'.lastPose == k.lastPose && !s.Pose1Hz? && k.latched && IsAuthorisedClear(c, k, s))
                  || (k.externalPose && k'.lastPose == k.lastPose && !k.latched && (s.Pose1Hz? ==> s.now <= k.lastPose + 3000)))
  {
    if k.latched { ReleasedIff(c, k, s); }
    if !s.OnPose? {
      if k.externalPose { StepPose(c, k, s); } else { StaysUnfed(c, k, s); }
    }
  }

  lemma StaysUnfed(c: Config, k: Kernel, s: Step)
    requires !k.externalPose && !s.OnPose?
    ensures !Next(c, k, s).0.externalPose
  {
    if s.OnCommand? && s.command.Signed? {
      var env := s.command.envelope;
      ApplyKeepsPose(c, Contact(k, s.now), env, s.now, Judge(c, Contact(k, s.now), s.topic, env, s.now));
    }
  }

  /** The last pose tick found a recent pose, or a release came after it. */
  ghost predicate Heard(c: Config, k0: Kernel, steps: seq<Step>, boot: nat, lastPose: nat) {
    || LastPoseTick(steps, boot) <= lastPose + 3000
    || exists i: nat :: ReleasedAt(c, k0, steps, i) && LastPoseTick(steps, boot) <= steps[i].now
  }

  lemma ReleaseLasts(c: Config, k0: Kernel, steps: seq<Step>, i: nat)
    requires steps != [] && !steps[|steps| - 1].Pose1Hz? && ReleasedAt(c, k0, steps[..|steps| - 1], i)
    ensures ReleasedAt(c, k0, steps, i) && steps[..|steps| - 1][i] == steps[i]
  {
    var front := steps[..|steps| - 1];
    assert front[..i] == steps[..i] && front[i] == steps[i];
    assert forall j :: i < j < |front| ==> front[j] == steps[j];
  }

  lemma HeardLasts(c: Config, k0: Kernel, steps: seq<Step>, boot: nat, lastPose: nat)
    requires steps != [] && !steps[|steps| - 1].Pose1Hz? && Heard(c, k0, steps[..|steps| - 1], boot, lastPose)
    ensures Heard(c, k0, steps, boot, lastPose)
  {
    var front := steps[..|steps| - 1];
    if LastPoseTick(front, boot) > lastPose + 3000 {
      var i: nat :| ReleasedAt(c, k0, front, i) && LastPoseTick(front, boot) <= front[i].now;
      ReleaseLasts(c, k0, steps, i);
    }
  }

  lemma {:induction false} SilenceFound(c: Config, k0: Kernel, boot: nat, steps: seq<Step>)
    requires ClockOk(steps, boot) && !k0.externalPose && k0.lastPose <= boot
    ensures var k := Run(c, k0, steps);
            k.lastPose <= LastNow(steps, boot) && (!k.latched && k.externalPose ==> Heard(c, k0, steps, boot, k.lastPose))
  {
    if steps != [] {
      var n := |steps| - 1;
      var front := steps[..n];
      assert ClockOk(front, boot);
      SilenceFound(c, k0, boot, front);
      PoseTickInPast(steps, boot);
      PoseTickInPast(front, boot);
      var before, s := Run(c, k0, front), steps[n];
      assert LastNow(front, boot) <= s.now;
      PoseTime(c, before, s);
      StepSilence(c, before, s);
      if before.latched && IsAuthorisedClear(c, before, s) {
        assert ReleasedAt(c, k0, steps, n);
      } else if !s.OnPose? && !s.Pose1Hz? && !before.latched && before.externalPose {
        HeardLasts(c, k0, steps, boot, before.lastPose);
      }
    }
  }

  function LastNow(steps: seq<Step>, boot: nat): nat {
    if steps == [] then boot else steps[|steps| - 1].now
  }

  lemma PoseTime(c: Config, k: Kernel, s: Step)
    ensures Next(c, k, s).0.lastPose == if s.OnPose? then s.now else k.lastPose
  {
    if s.OnCommand? && s.command.Signed? {
      var env := s.command.envelope;
      ApplyKeepsPose(c, Contact(k, s.now), env, s.now, Judge(c, Contact(k, s.now), s.topic, env, s.now));
    }
  }

  /** With pose ticks at most `period` apart, an unlatched vehicle on a fed pose has had
      one within 3000 ms plus that period, at every instant up to the next tick; or an
      operator released it within the last period. */
  lemma BoundedPoseSilence(c: Config, bootId: string, initial: ZoneType, boot: nat, steps: seq<Step>, i: nat, period: nat, t: nat)
    requires ClockOk(steps, boot) && LastPose(steps, i) && t <= LastPoseTick(steps, boot) + period
    requires !Run(c, Boot(bootId, initial, boot), steps).latched
    ensures || t <= steps[i].now + 3000 + period
            || exists r: nat :: ReleasedAt(c, Boot(bootId, initial, boot), steps, r) && t <= steps[r].now + period
  {
    PoseIsTruth(c, bootId, initial, boot, steps, i);
    SilenceFound(c, Boot(bootId, initial, boot), boot, steps);
  }

  // ------------------------------------------------------------------
  // Contact
  // ------------------------------------------------------------------

  /** What counts as hearing from the cloud: any signed envelope, a fresh and new ping, a
      log-sync ack for this boot, a zone document for this vehicle. */
  predicate IsContact(c: Config, k: Kernel, s: Step) {
    match s
    case OnCommand(_, m, _) => m.Signed?
    case OnDeadman(m, now) =>
      && m.signed && m.vehicleId == c.vehicleId && m.timestamp.Some?
      && now - 10_000 <= m.timestamp.value <= now + 10_000 && m.timestamp.value > k.lastDeadman
    case OnLogAck(m, _) => m.signed && m.vehicleId == c.vehicleId && m.bootId == k.log.bootId && m.upTo.Some?
    case OnZone(m, _) => m.signed && m.schemaValid && m.vehicleId == c.vehicleId
    case _ => false
  }

  lemma ContactStep(c: Config, k: Kernel, s: Step)
    ensures var k' := Next(c, k, s).0;
            if IsContact(c, k, s) then k'.armed && k'.lastContact == s.now
            else k'.armed == k.armed && k'.lastContact == k.lastContact
  {
    if s.OnCommand? && s.command.Signed? {
      var env := s.command.envelope;
      ApplyKeepsContact(c, Contact(k, s.now), env, s.now, Judge(c, Contact(k, s.now), s.topic, env, s.now));
    }
  }

  ghost predicate ContactAt(c: Config, k: Kernel, steps: seq<Step>, i: nat) {
    i < |steps| && IsContact(c, Run(c, k, steps[..i]), steps[i])
  }

  ghost predicate LastContactAt(c: Config, k: Kernel, steps: seq<Step>, i: nat) {
    ContactAt(c, k, steps, i) && forall j :: i < j < |steps| ==> !ContactAt(c, k, steps, j)
  }

  lemma ContactInFront(c: Config, k: Kernel, steps: seq<Step>, i: nat)
    requires i < |steps| - 1
    ensures ContactAt(c, k, steps, i) <==> ContactAt(c, k, steps[..|steps| - 1], i)
    ensures steps[..|steps| - 1][i] == steps[i]
  {
    assert steps[..|steps| - 1][..i] == steps[..i];
  }

  lemma LastContactLasts(c: Config, k: Kernel, steps: seq<Step>, i: nat)
    requires steps != [] && LastContactAt(c, k, steps[..|steps| - 1], i) && !ContactAt(c, k, steps, |steps| - 1)
    ensures LastContactAt(c, k, steps, i) && steps[..|steps| - 1][i] == steps[i]
  {
    forall j | i <= j < |steps| - 1 ensures ContactAt(c, k, steps, j) <==> ContactAt(c, k, steps[..|steps| - 1], j) {
      ContactInFront(c, k, steps, j);
    }
  }

  /** The watchdog is armed from the first contact on, and counts from the last. */
  lemma {:induction false} ArmedByContact(c: Config, bootId: string, initial: ZoneType, boot: nat, steps: seq<Step>)
    ensures var k0 := Boot(bootId, initial, boot);
            var k := Run(c, k0, steps);
            if k.armed then exists i: nat :: LastContactAt(c, k0, steps, i) && k.lastContact == steps[i].now
            else k.lastContact == boot && forall i: nat :: !ContactAt(c, k0, steps, i)
  {
    var k0 := Boot(bootId, initial, boot);
    if steps != [] {
      var n := |steps| - 1;
      var front := steps[..n];
      var before := Run(c, k0, front);
      ArmedByContact(c, bootId, initial, boot, front);
      ContactStep(c, before, steps[n]);
      if IsContact(c, before, steps[n]) {
        assert LastContactAt(c, k0, steps, n);
      } else if before.armed {
        var i: nat :| LastContactAt(c, k0, front, i) && before.lastContact == front[i].now;
        LastContactLasts(c, k0, steps, i);
      } else {
        forall i: nat ensures !ContactAt(c, k0, steps, i) {
          if i < n { ContactInFront(c, k0, steps, i); }
        }
      }
    }
  }

  /** The timestamps of the pings that counted, in order. */
  function Counted(c: Config, k: Kernel, steps: seq<Step>): seq<nat> {
    if steps == [] then []
    else
      var n := |steps| - 1;
      var s := steps[n];
      Counted(c, k, steps[..n]) + if PingCounts(c, Run(c, k, steps[..n]), s) then [s.ping.timestamp.value] else []
  }

  predicate BoundedBy(stamps: seq<nat>, bound: nat) {
    (forall t :: t in stamps ==> t <= bound) && (bound == 0 || bound in stamps)
  }

  lemma {:induction false} CountedBound(c: Config, k: Kernel, steps: seq<Step>)
    requires k.lastDeadman == 0
    ensures BoundedBy(Counted(c, k, steps), Run(c, k, steps).lastDeadman)
  {
    if steps != [] {
      var n := |steps| - 1;
      CountedBound(c, k, steps[..n]);
      StepDeadman(c, Run(c, k, steps[..n]), steps[n]);
    }
  }

  /** A ping counts as contact if and only if it is signed, for this vehicle, stamped
      within 10 s of now either way and later than every ping that counted before. */
  lemma {:induction false} PingCountsIff(c: Config, bootId: string, initial: ZoneType, boot: nat, steps: seq<Step>, j: nat)
    requires j < |steps| && steps[j].OnDeadman?
    ensures var k0 := Boot(bootId, initial, boot);
            var m := steps[j].ping;
            PingCounts(c, Run(c, k0, steps[..j]), steps[j]) <==>
              && m.signed && m.vehicleId == c.vehicleId && m.timestamp.Some? && m.timestamp.value > 0
              && steps[j].now - 10_000 <= m.timestamp.value <= steps[j].now + 10_000
              && forall t :: t in Counted(c, k0, steps[..j]) ==> t < m.timestamp.value
  {
    CountedBound(c, Boot(bootId, initial, boot), steps[..j]);
    var bound := Run(c, Boot(bootId, initial, boot), steps[..j]).lastDeadman;
    assert bound == 0 || bound in Counted(c, Boot(bootId, initial, boot), steps[..j]);
  }

  // ------------------------------------------------------------------
  // The zone on record
  // ------------------------------------------------------------------

  datatype ZoneMark = ZoneMark(zone: ZoneType, revision: nat)

  /** The last zone configuration the evidence trail records. */
  function LastZone(h: seq<Event>, seed: ZoneMark): ZoneMark {
    if h == [] then seed
    else if h[|h| - 1].kind.ZoneConfigApplied? then ZoneMark(h[|h| - 1].kind.zone, h[|h| - 1].kind.revision)
    else LastZone(h[..|h| - 1], seed)
  }

  lemma StepZoneRecord(c: Config, k: Kernel, s: Step)
    ensures var (k', e) := Next(c, k, s);
            && |e.logged| <= 1
            && ZoneMark(k'.zone.zone, k'.zone.revision) ==
                 if e.logged != [] && e.logged[0].kind.ZoneConfigApplied?
                 then ZoneMark(e.logged[0].kind.zone, e.logged[0].kind.revision)
                 else ZoneMark(k.zone.zone, k.zone.revision)
  {
    StepRecords(c, k, s);
    if s.OnCommand? {
      if s.command.Signed? {
        CommandKeepsZone(c, Contact(k, s.now), s.command.envelope, s.now, Judge(c, Contact(k, s.now), s.topic, s.command.envelope, s.now));
      }
    }
  }

  lemma CommandKeepsZone(c: Config, k: Kernel, env: Envelope, now: nat, v: Verdict)
    ensures var (k', e) := Apply(c, k, env, now, v);
            k'.zone == k.zone && forall ev :: ev in e.logged ==> !ev.kind.ZoneConfigApplied?
  {
  }

  /** In every reachable state the zone and revision in force are those the evidence trail
      last recorded, or the seed. */
  lemma {:induction false} ZoneMatchesLog(c: Config, bootId: string, initial: ZoneType, boot: nat, steps: seq<Step>)
    ensures var k0 := Boot(bootId, initial, boot);
            var k := Run(c, k0, steps);
            ZoneMark(k.zone.zone, k.zone.revision) == LastZone(History(c, k0, steps), ZoneMark(initial, 0))
  {
    var k0 := Boot(bootId, initial, boot);
    if steps != [] {
      var n := |steps| - 1;
      var front := steps[..n];
      ZoneMatchesLog(c, bootId, initial, boot, front);
      StepZoneRecord(c, Run(c, k0, front), steps[n]);
      var logged := Next(c, Run(c, k0, front), steps[n]).1.logged;
      var h := History(c, k0, front);
      assert History(c, k0, steps) == h + logged;
      if logged == [] {
        assert h + logged == h;
      } else {
        assert logged == [logged[0]];
        assert (h + logged)[..|h|] == h;
      }
    }
  }
}
