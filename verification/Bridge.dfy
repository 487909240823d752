/** The actuation bridge: control state overwritten by kernel events, with the
    kernel's latch always winning. */
module Bridge {
  import opened Wrappers
  import opened Contract
  import opened KernelSpec

  datatype Control = Control(
    throttle: real, brake: real, steer: real, reverse: bool, handBrake: bool,
    latched: bool, creepTarget: Option<real>)

  /** What is sent to the vehicle. */
  datatype Actuation = Actuation(throttle: real, brake: real, steer: real, reverse: bool, handBrake: bool)

  /** Fail-safe default: latched until the kernel says otherwise. */
  const START := Control(0.0, 0.0, 0.0, false, false, true, None)

  function Clamp(lo: real, hi: real, x: real): real {
    if x < lo then lo else if x > hi then hi else x
  }

  function Stop(c: Control): Control {
    c.(throttle := 0.0, brake := 1.0, handBrake := true)
  }

  function Effective(c: Control): Actuation {
    if c.latched then Actuation(0.0, 1.0, 0.0, c.reverse, true)
    else Actuation(c.throttle, c.brake, c.steer, c.reverse, c.handBrake)
  }

  /** The applied control: above the creep target the governor brakes instead. */
  function Governed(c: Control, speedKmh: real): Actuation {
    var a := Effective(c);
    if c.creepTarget.Some? && a.throttle > 0.0 && speedKmh > c.creepTarget.value
    then a.(throttle := 0.0, brake := if a.brake > 0.3 then a.brake else 0.3)
    else a
  }

  /** A verified command mapped onto the controls.  A stop may arrive with another
      action's payload, so fields are looked up with defaults. */
  function ApplyCommand(c0: Control, action: Action, p: Payload): Control {
    var c := if action == CREEP then c0 else c0.(creepTarget := None);
    match action
    case E_STOP => Stop(c)
    case SAFE_STOP => Stop(c)
    case CLEAR_SAFE_STOP => c.(brake := 0.0, handBrake := false, throttle := 0.0)
    case DRIVE =>
      c.(throttle := Clamp(0.0, 1.0, (if p.Drive? then p.throttle else 0.0) / 100.0),
         brake := Clamp(0.0, 1.0, (if p.Drive? then p.brake else 0.0) / 100.0),
         handBrake := false)
    case STEER => c.(steer := Clamp(-1.0, 1.0, (if p.Steer? then p.angle else 0.0) / 45.0))
    case SELECT_DIRECTION =>
      var direction := if p.SelectDirection? then p.direction else FORWARD;
      c.(reverse := direction == REVERSE, throttle := if direction == NEUTRAL then 0.0 else c.throttle)
    case CREEP =>
      c.(creepTarget := Some(if p.Creep? then p.speedKmh else 3.0), throttle := 0.15, brake := 0.0, handBrake := false)
    case TURN =>
      var turning := if p.Turn? then p.turning else STRAIGHT;
      c.(steer := if turning == LEFT then -0.5 else if turning == RIGHT then 0.5 else 0.0)
    case PARK => if p.Park? && !p.engage then c.(handBrake := false, brake := 0.0) else Stop(c)
    case _ => c
  }

  function OnState(c: Control, latched: bool): Control {
    (if latched && !c.latched then Stop(c) else c).(latched := latched)
  }

  function Consume(c: Control, ev: Ipc): Control {
    match ev
    case StateEvent(latched) => OnState(c, latched)
    case CommandEvent(_, action, p) => ApplyCommand(c, action, p)
  }

  /** Link loss: without the kernel a latch cannot be heard, so one is assumed. */
  function LinkLost(c: Control): Control {
    Stop(c.(latched := true))
  }

  function ConsumeAll(c: Control, events: seq<Ipc>): Control {
    if events == [] then c else Consume(ConsumeAll(c, events[..|events| - 1]), events[|events| - 1])
  }

  class ControlState {
    var throttle: real
    var brake: real
    var steer: real
    var reverse: bool
    var handBrake: bool
    var latched: bool
    var creepTarget: Option<real>

    ghost function Value(): Control
      reads this
    {
      Control(throttle, brake, steer, reverse, handBrake, latched, creepTarget)
    }

    constructor ()
      ensures Value() == START
    {
      throttle, brake, steer := 0.0, 0.0, 0.0;
      reverse, handBrake, latched := false, false, true;
      creepTarget := None;
    }

    method FullStop()
      modifies this
      ensures Value() == Stop(old(Value()))
    {
      throttle := 0.0;
      brake := 1.0;
      handBrake := true;
    }

    method Apply(action: Action, p: Payload)
      modifies this
      ensures Value() == ApplyCommand(old(Value()), action, p)
    {
      if action != CREEP {
        creepTarget := None;
      }
      assert ApplyCommand(Value(), action, p) == ApplyCommand(old(Value()), action, p);
      if action == E_STOP || action == SAFE_STOP {
        FullStop();
      } else if action == CLEAR_SAFE_STOP {
        brake, handBrake, throttle := 0.0, false, 0.0;
      } else if action == DRIVE || action == CREEP || action == SELECT_DIRECTION {
        ApplyLongitudinal(action, p);
      } else if action == STEER || action == TURN || action == PARK {
        ApplyOther(action, p);
      }
    }

    method ApplyOther(action: Action, p: Payload)
      requires action == STEER || action == TURN || action == PARK
      requires creepTarget == None
      modifies this
      ensures Value() == ApplyCommand(old(Value()), action, p)
    {
      if action == STEER {
        steer := Clamp(-1.0, 1.0, (if p.Steer? then p.angle else 0.0) / 45.0);
      } else if action == TURN {
        var turning := if p.Turn? then p.turning else STRAIGHT;
        steer := if turning == LEFT then -0.5 else if turning == RIGHT then 0.5 else 0.0;
      } else {
        if p.Park? && !p.engage {
          handBrake, brake := false, 0.0;
        } else {
          FullStop();
        }
      }
    }

    method ApplyLongitudinal(action: Action, p: Payload)
      requires action == DRIVE || action == CREEP || action == SELECT_DIRECTION
      requires action != CREEP ==> creepTarget == None
      modifies this
      ensures Value() == ApplyCommand(old(Value()), action, p)
    {
      if action == DRIVE {
        throttle := Clamp(0.0, 1.0, (if p.Drive? then p.throttle else 0.0) / 100.0);
        brake := Clamp(0.0, 1.0, (if p.Drive? then p.brake else 0.0) / 100.0);
        handBrake := false;
      } else if action == CREEP {
        creepTarget := Some(if p.Creep? then p.speedKmh else 3.0);
        throttle, brake, handBrake := 0.15, 0.0, false;
      } else {
        var direction := if p.SelectDirection? then p.direction else FORWARD;
        reverse := direction == REVERSE;
        if direction == NEUTRAL {
          throttle := 0.0;
        }
      }
    }

    /** The reader loop over the events received until the socket dies. */
    method ReadEvents(events: seq<Ipc>)
      modifies this
      ensures Value() == ConsumeAll(old(Value()), events)
    {
      var i := 0;
      while i < |events|
        invariant 0 <= i <= |events|
        invariant Value() == ConsumeAll(old(Value()), events[..i])
      {
        assert events[..i + 1][..i] == events[..i];
        match events[i] {
          case StateEvent(kernelLatched) =>
            if kernelLatched && !latched {
              FullStop();
            }
            latched := kernelLatched;
          case CommandEvent(_, action, p) =>
            Apply(action, p);
        }
        i := i + 1;
      }
      assert events[..i] == events;
    }

    method OnLinkLost()
      modifies this
      ensures Value() == LinkLost(old(Value()))
    {
      latched := true;
      FullStop();
    }

    /** One pass of the pose loop. */
    method Actuate(speedKmh: real) returns (a: Actuation)
      ensures a == Governed(Value(), speedKmh)
    {
      a := if latched then Actuation(0.0, 1.0, 0.0, reverse, true)
           else Actuation(throttle, brake, steer, reverse, handBrake);
      if creepTarget.Some? && a.throttle > 0.0 {
        if speedKmh > creepTarget.value {
          a := a.(throttle := 0.0, brake := if a.brake > 0.3 then a.brake else 0.3);
        }
      }
    }
  }
}
