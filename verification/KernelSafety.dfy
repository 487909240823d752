/** Safety of the kernel over whole runs: what may actuate, when the latch opens,
    and what the fencing token guarantees. */
module KernelSafety {
  import opened Wrappers
  import opened Contract
  import opened VehicleLog
  import opened KernelSpec
  import Dedup

  // ------------------------------------------------------------------
  // Actuation
  // ------------------------------------------------------------------

  /** The actions that can set the vehicle in motion or change its state; the three
      latch commands are not among them. */
  predicate IsOperational(a: Action) {
    a != E_STOP && a != SAFE_STOP && a != CLEAR_SAFE_STOP
  }

  /** Every condition under which an operational command may reach the actuators. */
  predicate MayActuate(c: Config, k: Kernel, topic: Topic, env: Envelope, now: nat) {
    var action := env.payload.Action();
    var here := EffectiveZone(k.lat, k.lng, k.zone, now);
    && env.commandId !in k.dedup.acks
    && topic == CommandTopic && IsOperational(action)
    && env.vehicleId == c.vehicleId
    && now <= env.timestamp + env.ttlMs
    && k.newestToken <= env.tokenIssuedAt
    && env.mode == c.policy.InferMode(action)
    && !k.latched
    && (env.mode != DIAG ==> InApprovedTerritory(k.lat, k.lng) && here != OutOfTod)
    && c.policy.ModeAllowedInZone(here, env.mode)
    && (env.payload.Creep? ==> ActivePermitSpeedLimit(k.zone, now).None?
                               || env.payload.speedKmh <= ActivePermitSpeedLimit(k.zone, now).value)
    && c.policy.DiagDisruptiveAllowed(action, here, k.speed < 0.5)
    && (IsManeuverDecision(env.payload) ==> DecisionStands(k, env.payload, now))
  }

  predicate DecisionStands(k: Kernel, p: Payload, now: nat)
    requires IsManeuverDecision(p)
  {
    && k.proposal.Some?
    && k.proposal.value.proposalId == p.proposalId
    && now < k.proposal.value.deadlineMs
    && OptionOffered(p, k.proposal.value.optionIds)
  }

  /** An operational event leaves the kernel exactly when a signed envelope that
      meets every condition arrives, and it names that envelope's command. */
  lemma ActuatesIff(c: Config, k: Kernel, s: Step, ev: Ipc)
    requires ev.CommandEvent? && IsOperational(ev.action)
    ensures ev in Next(c, k, s).1.ipc <==>
            && s.OnCommand? && s.command.Signed?
            && MayActuate(c, k, s.topic, s.command.envelope, s.now)
            && ev == CommandEvent(s.command.envelope.commandId, s.command.envelope.payload.Action(), s.command.envelope.payload)
  {
    if s.OnCommand? && s.command.Signed? {
      var env := s.command.envelope;
      JudgeAcceptsIff(c, Contact(k, s.now), s.topic, env, s.now);
      assert MayActuate(c, Contact(k, s.now), s.topic, env, s.now) == MayActuate(c, k, s.topic, env, s.now);
    }
  }

  lemma JudgeAcceptsIff(c: Config, k: Kernel, topic: Topic, env: Envelope, now: nat)
    ensures var v := Judge(c, k, topic, env, now);
            (v.Accept? || v.Decide?) <==> MayActuate(c, k, topic, env, now)
    ensures Judge(c, k, topic, env, now).Decide? ==> IsManeuverDecision(env.payload)
  {
  }

  // ------------------------------------------------------------------
  // The latch
  // ------------------------------------------------------------------

  /** Everything recorded during a run, oldest first (including what was since
      trimmed or evicted from the buffer). */
  function History(c: Config, k: Kernel, steps: seq<Step>): seq<Event> {
    if steps == [] then []
    else History(c, k, steps[..|steps| - 1]) + EffectsAt(c, k, steps, |steps| - 1).logged
  }

  /** What the last latch event says; released if there never was one. */
  function LastLatch(h: seq<Event>): bool {
    if h == [] then false
    else
      match h[|h| - 1].kind
      case LatchEngaged(_, _) => true
      case LatchReleased(_) => false
      case ZoneConfigApplied(_, _) => LastLatch(h[..|h| - 1])
  }

  /** A step records at most one event, and the latch moves exactly as it says. */
  lemma StepRecords(c: Config, k: Kernel, s: Step)
    ensures var (k', e) := Next(c, k, s);
            LatchFollows(k.latched, e.logged, k'.latched)
  {
    if s.OnCommand? {
      if s.command.Signed? {
        CommandRecords(c, Contact(k, s.now), s.topic, s.command.envelope, s.now);
      }
    } else {
      TickRecords(c, k, s);
    }
  }

  /** The latch moves as the one recorded event, if any, says. */
  predicate LatchFollows(before: bool, logged: seq<Event>, after: bool) {
    && |logged| <= 1
    && if logged == [] then after == before
       else
         match logged[0].kind
         case LatchEngaged(_, _) => after
         case LatchReleased(_) => !after
         case ZoneConfigApplied(_, _) => after == before
  }

  lemma CommandRecords(c: Config, k: Kernel, topic: Topic, env: Envelope, now: nat)
    ensures var (k', e) := Apply(c, k, env, now, Judge(c, k, topic, env, now));
            LatchFollows(k.latched, e.logged, k'.latched)
  {
  }

  lemma TickRecords(c: Config, k: Kernel, s: Step)
    requires !s.OnCommand?
    ensures LatchFollows(k.latched, Next(c, k, s).1.logged, Next(c, k, s).0.latched)
  {
  }

  lemma LastLatchAppend(h: seq<Event>, ev: Event)
    ensures LastLatch(h + [ev]) ==
              match ev.kind
              case LatchEngaged(_, _) => true
              case LatchReleased(_) => false
              case ZoneConfigApplied(_, _) => LastLatch(h)
  {
  }

  lemma StepLatch(c: Config, k: Kernel, s: Step, h: seq<Event>)
    requires LastLatch(h) == k.latched
    ensures LastLatch(h + Next(c, k, s).1.logged) == Next(c, k, s).0.latched
  {
    StepRecords(c, k, s);
    var logged := Next(c, k, s).1.logged;
    if logged == [] {
      assert h + logged == h;
    } else {
      assert logged == [logged[0]];
      LastLatchAppend(h, logged[0]);
    }
  }

  /** In every reachable state the latch is what the evidence trail says it is. */
  lemma {:induction false} LatchMatchesLog(c: Config, bootId: string, initial: ZoneType, boot: nat, steps: seq<Step>)
    ensures var k := Boot(bootId, initial, boot);
            Run(c, k, steps).latched == LastLatch(History(c, k, steps))
  {
    var k := Boot(bootId, initial, boot);
    if steps != [] {
      var front := steps[..|steps| - 1];
      LatchMatchesLog(c, bootId, initial, boot, front);
      StepLatch(c, Run(c, k, front), steps[|steps| - 1], History(c, k, front));
    }
  }

  /** An authorised CLEAR_SAFE_STOP: past schema, signature, de-duplication, target,
      TTL, token and mode gates, and not sent on the estop topic. */
  predicate IsAuthorisedClear(c: Config, k: Kernel, s: Step) {
    && s.OnCommand? && s.command.Signed? && s.topic == CommandTopic
    && var env := s.command.envelope;
      && env.payload.Action() == CLEAR_SAFE_STOP
      && env.commandId !in k.dedup.acks
      && env.vehicleId == c.vehicleId
      && s.now <= env.timestamp + env.ttlMs
      && k.newestToken <= env.tokenIssuedAt
      && env.mode == c.policy.InferMode(CLEAR_SAFE_STOP)
  }

  /** A latched vehicle is released by an authorised clear and by nothing else. */
  lemma ReleasedIff(c: Config, k: Kernel, s: Step)
    requires k.latched
    ensures !Next(c, k, s).0.latched <==> IsAuthorisedClear(c, k, s)
  {
  }

  /** Over a run: between a latched and an unlatched state lies an authorised clear. */
  lemma {:induction false} LatchHolds(c: Config, k: Kernel, steps: seq<Step>, i: nat, j: nat)
    requires i <= j <= |steps|
    requires Run(c, k, steps[..i]).latched && !Run(c, k, steps[..j]).latched
    ensures exists m :: i <= m < j && IsAuthorisedClear(c, Run(c, k, steps[..m]), steps[m])
    decreases j
  {
    RunStep(c, k, steps, j - 1);
    var before := Run(c, k, steps[..j - 1]);
    if before.latched {
      ReleasedIff(c, before, steps[j - 1]);
    } else {
      LatchHolds(c, k, steps, i, j - 1);
    }
  }

  /** A signed, addressed, unfenced stop that is not a repeat always latches and is
      acknowledged, whatever its age, declared mode, zone or the vehicle's state. */
  lemma StopAlwaysEngages(c: Config, k: Kernel, topic: Topic, env: Envelope, now: nat)
    requires IsStop(topic, env) && env.commandId !in k.dedup.acks
    requires env.vehicleId == c.vehicleId && env.tokenIssuedAt >= k.newestToken
    ensures var (k', e) := Next(c, k, OnCommand(topic, Signed(env), now));
            && k'.latched && e.acks == [Acked(env.commandId)]
            && |e.ipc| == 2 && e.ipc[0] == StateEvent(true)
            && |e.logged| == 1 && e.logged[0].kind.LatchEngaged? && e.logged[0].kind.commandId == Some(env.commandId)
  {
  }

  /** Every signed envelope is answered exactly once.  A fresh one that is refused moves
      nothing: no actuation, no record, no maneuver outcome, and of the state only
      contact, the stored answer and the token register; refusing for territory also
      latches, records and tells the bridge. */
  lemma RefusalMovesNothing(c: Config, k: Kernel, topic: Topic, env: Envelope, now: nat)
    ensures var (k', e) := Next(c, k, OnCommand(topic, Signed(env), now));
            && |e.acks| == 1
            && (env.commandId !in k.dedup.acks ==> e.acks[0].commandId == env.commandId)
            && (env.commandId !in k.dedup.acks && e.acks[0].reason.Some? ==>
                  if e.acks[0].reason.value == GEOFENCE_VIOLATION then
                    k'.latched && e.ipc == [StateEvent(true)] && |e.logged| == 1 && e.statuses == []
                  else
                    && e.ipc == [] && e.logged == [] && e.statuses == []
                    && k' == Contact(k, now).(dedup := k'.dedup, newestToken := k'.newestToken))
  {
    var v := Judge(c, Contact(k, now), topic, env, now);
    assert v.Replay? <==> env.commandId in k.dedup.acks;
    RulingOfRefusal(Contact(k, now), env, now, v);
  }

  lemma RulingOfRefusal(k: Kernel, env: Envelope, now: nat, v: Verdict)
    requires v.Refuse? ==> v.reason != GEOFENCE_VIOLATION
    ensures var r := Rule(k, env, now, v);
            && (!v.Replay? ==> r.answer.commandId == env.commandId)
            && (!v.Replay? && r.answer.reason.Some? ==>
                  if r.answer.reason.value == GEOFENCE_VIOLATION then
                    r.latched && r.ipc == [StateEvent(true)] && r.event.Some? && r.statuses == []
                  else
                    r.ipc == [] && r.event.None? && r.statuses == [] && r.latched == k.latched && r.proposal == k.proposal)
  {
  }

  // ------------------------------------------------------------------
  // Fencing tokens
  // ------------------------------------------------------------------

  /** The step carries an envelope that reached and passed the token gate. */
  predicate TokenPassed(c: Config, k: Kernel, s: Step) {
    && s.OnCommand? && s.command.Signed?
    && var env := s.command.envelope;
      && env.commandId !in k.dedup.acks
      && env.vehicleId == c.vehicleId
      && (IsStop(s.topic, env) || s.now <= env.timestamp + env.ttlMs)
      && env.tokenIssuedAt >= k.newestToken
  }

  lemma StepToken(c: Config, k: Kernel, s: Step)
    ensures Next(c, k, s).0.newestToken ==
              if TokenPassed(c, k, s) then s.command.envelope.tokenIssuedAt else k.newestToken
  {
  }

  lemma {:induction false} TokenMonotone(c: Config, k: Kernel, steps: seq<Step>, i: nat, j: nat)
    requires i <= j <= |steps|
    ensures Run(c, k, steps[..i]).newestToken <= Run(c, k, steps[..j]).newestToken
    decreases j
  {
    if i < j {
      TokenMonotone(c, k, steps, i, j - 1);
      RunStep(c, k, steps, j - 1);
      StepToken(c, Run(c, k, steps[..j - 1]), steps[j - 1]);
    }
  }

  /** The tokens that pass the gate never decrease. */
  lemma TokensNeverDecrease(c: Config, k: Kernel, steps: seq<Step>, i: nat, j: nat)
    requires i < j < |steps|
    requires TokenPassed(c, Run(c, k, steps[..i]), steps[i]) && TokenPassed(c, Run(c, k, steps[..j]), steps[j])
    ensures steps[i].command.envelope.tokenIssuedAt <= steps[j].command.envelope.tokenIssuedAt
  {
    RunStep(c, k, steps, i);
    StepToken(c, Run(c, k, steps[..i]), steps[i]);
    TokenMonotone(c, k, steps, i + 1, j);
  }

  /** Once a token has passed, a fresh envelope with an older one is refused and
      changes nothing but the stored answer and the contact time. */
  lemma {:induction false} OlderTokenRefused(c: Config, k: Kernel, steps: seq<Step>, i: nat, j: nat)
    requires i < j < |steps|
    requires TokenPassed(c, Run(c, k, steps[..i]), steps[i])
    requires steps[j].OnCommand? && steps[j].command.Signed?
    requires steps[j].command.envelope.tokenIssuedAt < steps[i].command.envelope.tokenIssuedAt
    requires steps[j].command.envelope.commandId !in Run(c, k, steps[..j]).dedup.acks
    ensures var before := Run(c, k, steps[..j]);
            var (after, e) := Next(c, before, steps[j]);
            && e.ipc == [] && e.logged == [] && e.statuses == []
            && (exists r :: e.acks == [Nacked(steps[j].command.envelope.commandId, r)])
            && after == Contact(before, steps[j].now).(dedup := after.dedup)
  {
    RunStep(c, k, steps, i);
    StepToken(c, Run(c, k, steps[..i]), steps[i]);
    TokenMonotone(c, k, steps, i + 1, j);
    var before := Run(c, k, steps[..j]);
    var env := steps[j].command.envelope;
    var v := Judge(c, Contact(before, steps[j].now), steps[j].topic, env, steps[j].now);
    assert v.Refuse? && v.reason in {UNAUTHORIZED, TTL_EXPIRED, INVALID_TOKEN};
    assert Next(c, before, steps[j]).1.acks == [Nacked(env.commandId, v.reason)];
  }

  /** Actuation over whole runs: an operational event at step j means the evidence
      trail so far ends unlatched, every gate held at that very step, and no token
      that ever passed the gate was newer. */
  lemma {:induction false} ActuationSafety(c: Config, bootId: string, initial: ZoneType, boot: nat, steps: seq<Step>, j: nat, ev: Ipc)
    requires j < |steps| && ev.CommandEvent? && IsOperational(ev.action)
    requires ev in EffectsAt(c, Boot(bootId, initial, boot), steps, j).ipc
    ensures var k0 := Boot(bootId, initial, boot);
            && !LastLatch(History(c, k0, steps[..j]))
            && steps[j].OnCommand? && steps[j].command.Signed?
            && MayActuate(c, Run(c, k0, steps[..j]), CommandTopic, steps[j].command.envelope, steps[j].now)
            && forall i :: 0 <= i < j && TokenPassed(c, Run(c, k0, steps[..i]), steps[i]) ==>
                 steps[i].command.envelope.tokenIssuedAt <= steps[j].command.envelope.tokenIssuedAt
  {
    var k0 := Boot(bootId, initial, boot);
    ActuatesIff(c, Run(c, k0, steps[..j]), steps[j], ev);
    LatchMatchesLog(c, bootId, initial, boot, steps[..j]);
    forall i | 0 <= i < j && TokenPassed(c, Run(c, k0, steps[..i]), steps[i])
      ensures steps[i].command.envelope.tokenIssuedAt <= steps[j].command.envelope.tokenIssuedAt
    {
      TokensNeverDecrease(c, k0, steps, i, j);
    }
  }
}
