/** The watchdog and the deadman ping over whole runs, and the built-in motion model. */
module KernelLiveness {
  import opened Wrappers
  import opened Contract
  import opened VehicleLog
  import opened KernelSpec

  // ------------------------------------------------------------------
  // Bounded silence
  // ------------------------------------------------------------------

  /** When the watchdog last ran; boot counts as a run. */
  function LastTick(steps: seq<Step>, boot: nat): nat {
    if steps == [] then boot
    else if steps[|steps| - 1].Watchdog1Hz? then steps[|steps| - 1].now
    else LastTick(steps[..|steps| - 1], boot)
  }

  /** No step comes more than `period` after the watchdog tick before it. */
  predicate Paced(steps: seq<Step>, boot: nat, period: nat) {
    forall i :: 0 <= i < |steps| ==> steps[i].now <= LastTick(steps[..i], boot) + period
  }

  predicate Armed(k: Kernel) { k.armed && !k.latched }

  lemma ApplyKeepsContact(c: Config, k: Kernel, env: Envelope, now: nat, v: Verdict)
    ensures var k' := Apply(c, k, env, now, v).0;
            k'.lastContact == k.lastContact && k'.armed == k.armed
  {
  }

  /** Unlatching is contact: only a signed envelope can release. */
  lemma StepContact(c: Config, k: Kernel, s: Step)
    ensures var k' := Next(c, k, s).0;
            && (k'.lastContact == k.lastContact || k'.lastContact == s.now)
            && (Armed(k') && !Armed(k) ==> k'.lastContact == s.now)
            && (s.Watchdog1Hz? && Armed(k') ==> s.now <= k'.lastContact + WATCHDOG_MS)
            && (s.Watchdog1Hz? ==> k'.lastContact == k.lastContact)
  {
    if s.OnCommand? {
      if s.command.Signed? {
        var env := s.command.envelope;
        ApplyKeepsContact(c, Contact(k, s.now), env, s.now, Judge(c, Contact(k, s.now), s.topic, env, s.now));
      }
    } else {
      OtherStepContact(c, k, s);
    }
  }

  lemma OtherStepContact(c: Config, k: Kernel, s: Step)
    requires !s.OnCommand?
    ensures var k' := Next(c, k, s).0;
            && (k'.lastContact == k.lastContact || k'.lastContact == s.now)
            && (Armed(k') && !Armed(k) ==> k'.lastContact == s.now)
            && (s.Watchdog1Hz? && Armed(k') ==> s.now <= k'.lastContact + WATCHDOG_MS)
            && (s.Watchdog1Hz? ==> k'.lastContact == k.lastContact)
  {
  }

  lemma {:induction false} LastTickInPast(steps: seq<Step>, boot: nat)
    requires ClockOk(steps, boot)
    ensures boot <= LastTick(steps, boot)
    ensures steps != [] ==> LastTick(steps, boot) <= steps[|steps| - 1].now
  {
    if steps != [] {
      var front := steps[..|steps| - 1];
      assert ClockOk(front, boot);
      LastTickInPast(front, boot);
    }
  }

  lemma {:induction false} SilenceAtTick(c: Config, bootId: string, initial: ZoneType, boot: nat, steps: seq<Step>)
    requires ClockOk(steps, boot)
    ensures var k := Run(c, Boot(bootId, initial, boot), steps);
            Armed(k) ==> LastTick(steps, boot) <= k.lastContact + WATCHDOG_MS
  {
    if steps != [] {
      var n := |steps| - 1;
      var front := steps[..n];
      assert ClockOk(front, boot);
      SilenceAtTick(c, bootId, initial, boot, front);
      LastTickInPast(steps, boot);
      LastTickInPast(front, boot);
      assert front != [] ==> front[n - 1].now <= steps[n].now;
      StepContact(c, Run(c, Boot(bootId, initial, boot), front), steps[n]);
    }
  }

  /** With watchdog ticks at most `period` apart, an armed and unlatched vehicle has
      heard a signature-valid message within 3000 ms plus that period, at every
      instant up to the next tick. */
  lemma BoundedSilence(c: Config, bootId: string, initial: ZoneType, boot: nat, steps: seq<Step>, period: nat, t: nat)
    requires ClockOk(steps, boot) && Paced(steps, boot, period)
    requires t <= LastTick(steps, boot) + period
    ensures var k := Run(c, Boot(bootId, initial, boot), steps);
            k.armed && !k.latched ==> t <= k.lastContact + 3000 + period
  {
    SilenceAtTick(c, bootId, initial, boot, steps);
  }

  /** The watchdog fires exactly on an armed, unlatched vehicle silent for over 3 s,
      and the recorded event carries the length of the silence. */
  lemma WatchdogFiresIff(c: Config, k: Kernel, now: nat)
    requires k.lastContact <= now
    ensures var (k', e) := Next(c, k, Watchdog1Hz(now));
            && (e.logged != [] <==> Armed(k) && now - k.lastContact > 3000)
            && (e.logged != [] ==> k'.latched && e.ipc == [StateEvent(true)]
                                   && e.logged[0].kind == LatchEngaged(Watchdog(now - k.lastContact), None))
            && (e.logged == [] ==> k' == k && e.ipc == [])
  {
  }

  // ------------------------------------------------------------------
  // Deadman pings
  // ------------------------------------------------------------------

  predicate PingCounts(c: Config, k: Kernel, s: Step) {
    s.OnDeadman? && PingAccepted(c, k, s.ping, s.now)
  }

  lemma StepDeadman(c: Config, k: Kernel, s: Step)
    ensures Next(c, k, s).0.lastDeadman == if PingCounts(c, k, s) then s.ping.timestamp.value else k.lastDeadman
    ensures s.OnDeadman? && !PingCounts(c, k, s) ==> Next(c, k, s).0 == k
  {
  }

  lemma {:induction false} DeadmanMonotone(c: Config, k: Kernel, steps: seq<Step>, i: nat, j: nat)
    requires i <= j <= |steps|
    ensures Run(c, k, steps[..i]).lastDeadman <= Run(c, k, steps[..j]).lastDeadman
    decreases j
  {
    if i < j {
      DeadmanMonotone(c, k, steps, i, j - 1);
      RunStep(c, k, steps, j - 1);
      StepDeadman(c, Run(c, k, steps[..j - 1]), steps[j - 1]);
    }
  }

  /** The pings that count as contact have strictly increasing timestamps, so each
      signed ping counts at most once however often it is replayed. */
  lemma PingCountsOnce(c: Config, k: Kernel, steps: seq<Step>, i: nat, j: nat)
    requires i < j < |steps|
    requires PingCounts(c, Run(c, k, steps[..i]), steps[i]) && PingCounts(c, Run(c, k, steps[..j]), steps[j])
    ensures steps[i].ping.timestamp.value < steps[j].ping.timestamp.value
  {
    RunStep(c, k, steps, i);
    StepDeadman(c, Run(c, k, steps[..i]), steps[i]);
    DeadmanMonotone(c, k, steps, i + 1, j);
  }

  // ------------------------------------------------------------------
  // The built-in motion model
  // ------------------------------------------------------------------

  /** Latitude and longitude move together, inside the oscillation band. */
  predicate OnTrack(k: Kernel) {
    && k.lng - 8.5417 == k.lat - 47.3769
    && (k.simDir == 1.0 || k.simDir == -1.0)
    && 47.3705 - SIM_STEP <= k.lat <= 47.3795 + SIM_STEP
    && (k.lat > 47.3795 ==> k.simDir == -1.0)
    && (k.lat < 47.3705 ==> k.simDir == 1.0)
  }

  lemma MotionOnTrack(k: Kernel, now: nat)
    requires !k.externalPose && OnTrack(k)
    ensures OnTrack(SimMotion(k, now))
  {
  }

  lemma StepOnTrack(c: Config, k: Kernel, s: Step)
    requires !k.externalPose && OnTrack(k)
    ensures !Next(c, k, s).0.externalPose ==> OnTrack(Next(c, k, s).0)
  {
    if s.Telemetry10Hz? { MotionOnTrack(k, s.now); } else if !s.OnPose? { KeepsTrack(c, k, s); }
  }

  lemma ApplyKeepsPlace(c: Config, k: Kernel, env: Envelope, now: nat, v: Verdict)
    ensures var k' := Apply(c, k, env, now, v).0;
            k'.lat == k.lat && k'.lng == k.lng && k'.simDir == k.simDir
  {
  }

  lemma KeepsTrack(c: Config, k: Kernel, s: Step)
    requires !s.Telemetry10Hz? && !s.OnPose?
    ensures var k' := Next(c, k, s).0;
            k'.lat == k.lat && k'.lng == k.lng && k'.simDir == k.simDir
  {
    if s.OnCommand? {
      if s.command.Signed? {
        var env := s.command.envelope;
        ApplyKeepsPlace(c, Contact(k, s.now), env, s.now, Judge(c, Contact(k, s.now), s.topic, env, s.now));
      }
    }
  }

  /** Until a pose is fed, the built-in motion model never leaves the approved
      territory, however the latch and the zone configuration change. */
  lemma {:induction false} ModelStaysInside(c: Config, bootId: string, initial: ZoneType, boot: nat, steps: seq<Step>)
    ensures var k := Run(c, Boot(bootId, initial, boot), steps);
            !k.externalPose ==> OnTrack(k) && InApprovedTerritory(k.lat, k.lng)
  {
    if steps != [] {
      var n := |steps| - 1;
      ModelStaysInside(c, bootId, initial, boot, steps[..n]);
      var before := Run(c, Boot(bootId, initial, boot), steps[..n]);
      PoseSticks(c, before, steps[n]);
      if !before.externalPose { StepOnTrack(c, before, steps[n]); }
    }
  }

  lemma PoseSticks(c: Config, k: Kernel, s: Step)
    ensures k.externalPose ==> Next(c, k, s).0.externalPose
  {
  }

  /** While the model drives, an active permit's speed limit caps the road speed. */
  lemma ModelSpeedCapped(c: Config, k: Kernel, now: nat)
    requires !k.externalPose
    requires ActivePermitSpeedLimit(k.zone, now).Some? && ActivePermitSpeedLimit(k.zone, now).value >= 0.0
    ensures Next(c, k, Telemetry10Hz(now)).0.speed <= ActivePermitSpeedLimit(k.zone, now).value
  {
  }
}
