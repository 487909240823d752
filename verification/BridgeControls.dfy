/** What the bridge applies, told by the delivered events alone: for each control the last
    event that said anything about it. */
module BridgeControls {
  import opened Wrappers
  import opened Contract
  import opened KernelSpec
  import opened KernelSafety
  import opened Bridge
  import opened KernelBridge

  // ------------------------------------------------------------------
  // What one event says about each control
  // ------------------------------------------------------------------

  /** A percentage as a fraction, held to 0..1. */
  function Fraction(percent: real): real {
    if percent <= 0.0 then 0.0 else if percent >= 100.0 then 1.0 else percent / 100.0
  }

  /** A steering angle as a fraction of 45 degrees, held to -1..1. */
  function Steering(angle: real): real {
    if angle <= -45.0 then -1.0 else if angle >= 45.0 then 1.0 else angle / 45.0
  }

  /** A stop, or an engaged latch the bridge did not know of. */
  predicate Brakes(latched: bool, ev: Ipc) {
    match ev
    case StateEvent(l) => l && !latched
    case CommandEvent(_, a, p) => a == E_STOP || a == SAFE_STOP || (a == PARK && (p.Park? ==> p.engage))
  }

  predicate Unparks(ev: Ipc) {
    ev.CommandEvent? && ev.action == PARK && ev.payload.Park? && !ev.payload.engage
  }

  predicate Releases(ev: Ipc) { ev.CommandEvent? && ev.action == CLEAR_SAFE_STOP }
  predicate IsDrive(ev: Ipc) { ev.CommandEvent? && ev.action == DRIVE && ev.payload.Drive? }
  predicate IsCreep(ev: Ipc) { ev.CommandEvent? && ev.action == CREEP && ev.payload.Creep? }

  function BrakeSaid(latched: bool, ev: Ipc): Option<real> {
    if Brakes(latched, ev) then Some(1.0)
    else if IsDrive(ev) then Some(Fraction(ev.payload.brake))
    else if Releases(ev) || IsCreep(ev) || Unparks(ev) then Some(0.0)
    else None
  }

  function ThrottleSaid(latched: bool, ev: Ipc): Option<real> {
    if Brakes(latched, ev) || Releases(ev) then Some(0.0)
    else if IsDrive(ev) then Some(Fraction(ev.payload.throttle))
    else if IsCreep(ev) then Some(0.15)
    else if ev.CommandEvent? && ev.action == SELECT_DIRECTION && ev.payload == SelectDirection(NEUTRAL) then Some(0.0)
    else None
  }

  function SteerSaid(latched: bool, ev: Ipc): Option<real> {
    if ev.StateEvent? then None
    else if ev.action == STEER && ev.payload.Steer? then Some(Steering(ev.payload.angle))
    else if ev.action == TURN && ev.payload == Turn(LEFT) then Some(-0.5)
    else if ev.action == TURN && ev.payload == Turn(RIGHT) then Some(0.5)
    else if ev.action == TURN && ev.payload == Turn(STRAIGHT) then Some(0.0)
    else None
  }

  function ReverseSaid(latched: bool, ev: Ipc): Option<bool> {
    if ev.CommandEvent? && ev.action == SELECT_DIRECTION then Some(ev.payload == SelectDirection(REVERSE)) else None
  }

  function HandBrakeSaid(latched: bool, ev: Ipc): Option<bool> {
    if Brakes(latched, ev) then Some(true)
    else if IsDrive(ev) || Releases(ev) || IsCreep(ev) || Unparks(ev) then Some(false)
    else None
  }

  /** Any command but a creep ends the creep governor. */
  function CreepSaid(latched: bool, ev: Ipc): Option<Option<real>> {
    if ev.StateEvent? then None
    else if IsCreep(ev) then Some(Some(ev.payload.speedKmh))
    else Some(None)
  }

  /** Commands that move the vehicle carry their own payload, as everything the kernel
      sends does; a stop may carry any. */
  predicate Matched(ev: Ipc) {
    ev.CommandEvent? && IsOperational(ev.action) ==> ev.payload.Action() == ev.action
  }

  /** One event: each control is as it says, or stays. */
  lemma ConsumeSaid(b: Control, ev: Ipc)
    requires Matched(ev)
    ensures var r := Consume(b, ev);
            && r.brake == Or(BrakeSaid(b.latched, ev), b.brake)
            && r.throttle == Or(ThrottleSaid(b.latched, ev), b.throttle)
            && r.steer == Or(SteerSaid(b.latched, ev), b.steer)
            && r.reverse == Or(ReverseSaid(b.latched, ev), b.reverse)
            && r.handBrake == Or(HandBrakeSaid(b.latched, ev), b.handBrake)
            && r.creepTarget == Or(CreepSaid(b.latched, ev), b.creepTarget)
            && r.latched == (if ev.StateEvent? then ev.latched else b.latched)
  {
    BrakeAsSaid(b, ev);
    ThrottleAsSaid(b, ev);
    HandBrakeAsSaid(b, ev);
    SteerAsSaid(b, ev);
    RestAsSaid(b, ev);
  }

  lemma BrakeAsSaid(b: Control, ev: Ipc)
    requires Matched(ev)
    ensures Consume(b, ev).brake == Or(BrakeSaid(b.latched, ev), b.brake)
  {
    if IsDrive(ev) { FractionIsClamp(ev.payload.brake); }
  }

  lemma ThrottleAsSaid(b: Control, ev: Ipc)
    requires Matched(ev)
    ensures Consume(b, ev).throttle == Or(ThrottleSaid(b.latched, ev), b.throttle)
  {
    if IsDrive(ev) { FractionIsClamp(ev.payload.throttle); }
  }

  lemma HandBrakeAsSaid(b: Control, ev: Ipc)
    requires Matched(ev)
    ensures Consume(b, ev).handBrake == Or(HandBrakeSaid(b.latched, ev), b.handBrake)
  {
  }

  lemma SteerAsSaid(b: Control, ev: Ipc)
    requires Matched(ev)
    ensures Consume(b, ev).steer == Or(SteerSaid(b.latched, ev), b.steer)
  {
  }

  lemma RestAsSaid(b: Control, ev: Ipc)
    requires Matched(ev)
    ensures var r := Consume(b, ev);
            && r.reverse == Or(ReverseSaid(b.latched, ev), b.reverse)
            && r.creepTarget == Or(CreepSaid(b.latched, ev), b.creepTarget)
            && r.latched == (if ev.StateEvent? then ev.latched else b.latched)
  {
  }

  lemma FractionIsClamp(x: real)
    ensures Clamp(0.0, 1.0, x / 100.0) == Fraction(x)
  {
  }

  function Or<T>(said: Option<T>, otherwise: T): T {
    if said.Some? then said.value else otherwise
  }

  // ------------------------------------------------------------------
  // The last word
  // ------------------------------------------------------------------

  /** The last thing a stream says, or what stood before. */
  function LastSaid<T>(say: (bool, Ipc) -> Option<T>, latched: bool, events: seq<Ipc>, before: T): T {
    if events == [] then before
    else
      var front := events[..|events| - 1];
      Or(say(LatchAfter(latched, front), events[|events| - 1]), LastSaid(say, latched, front, before))
  }

  /** Event `i` says something and no later one does. */
  predicate LastWord<T>(say: (bool, Ipc) -> Option<T>, latched: bool, events: seq<Ipc>, i: nat) {
    && i < |events| && say(LatchAfter(latched, events[..i]), events[i]).Some?
    && forall j :: i < j < |events| ==> say(LatchAfter(latched, events[..j]), events[j]).None?
  }

  lemma {:induction false} LastWordStands<T>(say: (bool, Ipc) -> Option<T>, latched: bool, events: seq<Ipc>, before: T, i: nat)
    requires LastWord(say, latched, events, i)
    ensures LastSaid(say, latched, events, before) == say(LatchAfter(latched, events[..i]), events[i]).value
  {
    var n := |events| - 1;
    assert events[..n] == events[..|events| - 1];
    if i < n {
      var front := events[..n];
      assert forall j :: 0 <= j <= n ==> front[..j] == events[..j];
      assert forall j :: 0 <= j < n ==> front[j] == events[j];
      assert say(LatchAfter(latched, events[..n]), events[n]).None?;
      LastWordStands(say, latched, front, before, i);
    }
  }

  lemma {:induction false} SilenceKeeps<T>(say: (bool, Ipc) -> Option<T>, latched: bool, events: seq<Ipc>, before: T)
    requires forall j :: 0 <= j < |events| ==> say(LatchAfter(latched, events[..j]), events[j]).None?
    ensures LastSaid(say, latched, events, before) == before
  {
    if events != [] {
      var n := |events| - 1;
      var front := events[..n];
      assert forall j :: 0 <= j < n ==> front[..j] == events[..j] && front[j] == events[j];
      SilenceKeeps(say, latched, front, before);
    }
  }

  /** Whatever stream of events is delivered, each control is what the last event that
      said anything about it said. */
  lemma {:induction false} ControlsAsSaid(b: Control, events: seq<Ipc>)
    requires forall ev :: ev in events ==> Matched(ev)
    ensures ConsumeAll(b, events) == Control(
              LastSaid(ThrottleSaid, b.latched, events, b.throttle),
              LastSaid(BrakeSaid, b.latched, events, b.brake),
              LastSaid(SteerSaid, b.latched, events, b.steer),
              LastSaid(ReverseSaid, b.latched, events, b.reverse),
              LastSaid(HandBrakeSaid, b.latched, events, b.handBrake),
              LatchAfter(b.latched, events),
              LastSaid(CreepSaid, b.latched, events, b.creepTarget))
  {
    if events != [] {
      var front, ev := events[..|events| - 1], events[|events| - 1];
      assert forall e :: e in front ==> e in events;
      ControlsAsSaid(b, front);
      assert ev in events;
      ConsumeSaid(ConsumeAll(b, front), ev);
    }
  }

  // ------------------------------------------------------------------
  // What is applied
  // ------------------------------------------------------------------

  /** The actuation applied: full brake while latched; otherwise the last words, with the
      creep governor braking above the commanded speed. */
  lemma AppliedAsSaid(b: Control, events: seq<Ipc>, speedKmh: real)
    requires forall ev :: ev in events ==> Matched(ev)
    ensures var a := Governed(ConsumeAll(b, events), speedKmh);
            var (throttle, brake) := (LastSaid(ThrottleSaid, b.latched, events, b.throttle), LastSaid(BrakeSaid, b.latched, events, b.brake));
            var creep := LastSaid(CreepSaid, b.latched, events, b.creepTarget);
            && a.reverse == LastSaid(ReverseSaid, b.latched, events, b.reverse)
            && if LatchAfter(b.latched, events) then
                 a.throttle == 0.0 && a.brake == 1.0 && a.steer == 0.0 && a.handBrake
               else
                 && a.steer == LastSaid(SteerSaid, b.latched, events, b.steer)
                 && a.handBrake == LastSaid(HandBrakeSaid, b.latched, events, b.handBrake)
                 && if creep.Some? && throttle > 0.0 && speedKmh > creep.value
                    then a.throttle == 0.0 && a.brake >= 0.3 && a.brake >= brake && (a.brake == 0.3 || a.brake == brake)
                    else a.throttle == throttle && a.brake == brake
  {
    ControlsAsSaid(b, events);
  }

  /** Everything a kernel sends is matched. */
  lemma SentMatched(c: Config, k: Kernel, s: Step, ev: Ipc)
    requires ev in Next(c, k, s).1.ipc
    ensures Matched(ev)
  {
    if ev.CommandEvent? && IsOperational(ev.action) { ActuatesIff(c, k, s, ev); }
  }

  lemma {:induction false} ReceivedMatched(c: Config, k: Kernel, steps: seq<Step>, i: nat, j: nat, ev: Ipc)
    requires i <= j <= |steps| && |Ticks(c, k, steps)| == |steps|
    requires ev in Sent(Ticks(c, k, steps), i, j)
    ensures Matched(ev)
    decreases j
  {
    if ev in Sent(Ticks(c, k, steps), i, j - 1) {
      ReceivedMatched(c, k, steps, i, j - 1, ev);
    } else {
      TickAt(c, k, steps, j - 1);
      SentMatched(c, Run(c, k, steps[..j - 1]), steps[j - 1], ev);
    }
  }

  /** From operator to wheels: a DRIVE that meets every gate of the kernel at step `j` is
      what the bridge applies next, throttle and brake in hundredths, whatever the bridge
      had been told since it connected. */
  lemma DriveReachesWheels(c: Config, k: Kernel, steps: seq<Step>, i: nat, j: nat, b: Control, speedKmh: real)
    requires i <= j < |steps| && (b == START || exists before :: b == LinkLost(before))
    requires steps[j].OnCommand? && steps[j].command.Signed? && steps[j].command.envelope.payload.Drive?
    requires MayActuate(c, Run(c, k, steps[..j]), steps[j].topic, steps[j].command.envelope, steps[j].now)
    ensures |Ticks(c, k, steps)| == |steps|
    ensures var received := Received(Ticks(c, k, steps), Run(c, k, steps[..i]).latched, i, j + 1);
            var a := Governed(ConsumeAll(b, received), speedKmh);
            var p := steps[j].command.envelope.payload;
            a.throttle == Fraction(p.throttle) && a.brake == Fraction(p.brake) && !a.handBrake
  {
    var env := steps[j].command.envelope;
    var ev := CommandEvent(env.commandId, DRIVE, env.payload);
    BridgeFollowsKernel(c, k, steps, i, j, b, speedKmh);
    ReceivedEnds(c, k, steps, i, j, ev);
    var earlier := Received(Ticks(c, k, steps), Run(c, k, steps[..i]).latched, i, j);
    DriveApplies(b, earlier, ev, speedKmh);
  }

  lemma DriveApplies(b: Control, earlier: seq<Ipc>, ev: Ipc, speedKmh: real)
    requires IsDrive(ev) && !ConsumeAll(b, earlier).latched
    ensures var a := Governed(ConsumeAll(b, earlier + [ev]), speedKmh);
            a.throttle == Fraction(ev.payload.throttle) && a.brake == Fraction(ev.payload.brake) && !a.handBrake
  {
    assert (earlier + [ev])[..|earlier|] == earlier;
    FractionIsClamp(ev.payload.throttle);
    FractionIsClamp(ev.payload.brake);
  }

  lemma ReceivedEnds(c: Config, k: Kernel, steps: seq<Step>, i: nat, j: nat, ev: Ipc)
    requires i <= j < |steps| && steps[j].OnCommand? && steps[j].command.Signed?
    requires MayActuate(c, Run(c, k, steps[..j]), steps[j].topic, steps[j].command.envelope, steps[j].now)
    requires var env := steps[j].command.envelope; ev == CommandEvent(env.commandId, env.payload.Action(), env.payload)
    ensures |Ticks(c, k, steps)| == |steps| && !Run(c, k, steps[..j]).latched
    ensures var (ticks, snapshot) := (Ticks(c, k, steps), Run(c, k, steps[..i]).latched);
            Received(ticks, snapshot, i, j + 1) == Received(ticks, snapshot, i, j) + [ev]
  {
    ActuatesIff(c, Run(c, k, steps[..j]), steps[j], ev);
    OneEvent(c, Run(c, k, steps[..j]), steps[j], ev);
    TickAt(c, k, steps, j);
    ReceivedGrows(Ticks(c, k, steps), Run(c, k, steps[..i]).latched, i, j + 1);
  }

  lemma OneEvent(c: Config, k: Kernel, s: Step, ev: Ipc)
    requires ev in Next(c, k, s).1.ipc && ev.CommandEvent? && IsOperational(ev.action)
    ensures Next(c, k, s).1.ipc == [ev] && !k.latched
  {
    StepEvents(c, k, s);
    ActuatesIff(c, k, s, ev);
  }
}
