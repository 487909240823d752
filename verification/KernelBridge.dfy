/** Kernel and bridge composed over the actuation channel. */
module KernelBridge {
  import opened Wrappers
  import opened Contract
  import opened KernelSpec
  import opened KernelSafety
  import opened Bridge

  /** What the actuation channel sees of one step. */
  datatype Tick = Tick(before: bool, ipc: seq<Ipc>, after: bool)

  function TickOf(c: Config, k: Kernel, s: Step): Tick {
    var (k', e) := Next(c, k, s);
    Tick(k.latched, e.ipc, k'.latched)
  }

  function Ticks(c: Config, k: Kernel, steps: seq<Step>): seq<Tick> {
    if steps == [] then []
    else Ticks(c, k, steps[..|steps| - 1]) + [TickOf(c, Run(c, k, steps[..|steps| - 1]), steps[|steps| - 1])]
  }

  /** The events sent during ticks i to j. */
  function Sent(ticks: seq<Tick>, i: nat, j: nat): seq<Ipc>
    requires i <= j <= |ticks|
    decreases j
  {
    if i == j then [] else Sent(ticks, i, j - 1) + ticks[j - 1].ipc
  }

  /** What a bridge that connects at tick i has received by tick j: the latch
      snapshot, then every event in order. */
  function Received(ticks: seq<Tick>, snapshot: bool, i: nat, j: nat): seq<Ipc>
    requires i <= j <= |ticks|
  {
    [StateEvent(snapshot)] + Sent(ticks, i, j)
  }

  /** The last latch value in a stream. */
  function LatchAfter(latched: bool, events: seq<Ipc>): bool {
    if events == [] then latched
    else
      match events[|events| - 1]
      case StateEvent(l) => l
      case CommandEvent(_, _, _) => LatchAfter(latched, events[..|events| - 1])
  }

  predicate SetsThrottle(ev: Ipc) {
    ev.CommandEvent? && (ev.action == DRIVE || ev.action == CREEP)
  }

  predicate Halts(ev: Ipc) {
    ev == StateEvent(true) ||
    (ev.CommandEvent? && (ev.action == E_STOP || ev.action == SAFE_STOP || ev.action == CLEAR_SAFE_STOP))
  }

  /** Throttle commands come only while the stream says unlatched. */
  predicate WellOrdered(latched: bool, events: seq<Ipc>) {
    forall i :: 0 <= i < |events| && SetsThrottle(events[i]) ==> !LatchAfter(latched, events[..i])
  }

  /** A DRIVE or CREEP arrived with nothing halting after it. */
  predicate UnderWay(events: seq<Ipc>) {
    exists i :: 0 <= i < |events| && SetsThrottle(events[i]) && forall j :: i < j < |events| ==> !Halts(events[j])
  }

  /** The four shapes of the events one step sends. */
  predicate Shaped(ipc: seq<Ipc>, before: bool, after: bool) {
    || (ipc == [] && after == before)
    || (ipc == [StateEvent(after)])
    || (|ipc| == 1 && ipc[0].CommandEvent? && !before && !after)
    || (|ipc| == 2 && ipc[0] == StateEvent(after) && ipc[1].CommandEvent? && Halts(ipc[1]))
  }

  lemma StepEvents(c: Config, k: Kernel, s: Step)
    ensures Shaped(Next(c, k, s).1.ipc, k.latched, Next(c, k, s).0.latched)
  {
    if s.OnCommand? {
      if s.command.Signed? { CommandEvents(c, Contact(k, s.now), s.topic, s.command.envelope, s.now); }
    } else {
      TickEvents(c, k, s);
    }
  }

  lemma CommandEvents(c: Config, k: Kernel, topic: Topic, env: Envelope, now: nat)
    ensures var (k', e) := Apply(c, k, env, now, Judge(c, k, topic, env, now));
            Shaped(e.ipc, k.latched, k'.latched)
  {
    JudgeAcceptsIff(c, k, topic, env, now);
  }

  lemma TickEvents(c: Config, k: Kernel, s: Step)
    requires !s.OnCommand?
    ensures Shaped(Next(c, k, s).1.ipc, k.latched, Next(c, k, s).0.latched)
  {
  }

  predicate Linked(ticks: seq<Tick>) {
    && (forall m :: 0 <= m < |ticks| ==> Shaped(ticks[m].ipc, ticks[m].before, ticks[m].after))
    && (forall m :: 0 < m < |ticks| ==> ticks[m - 1].after == ticks[m].before)
  }

  lemma {:induction false} TicksFollowRun(c: Config, k: Kernel, steps: seq<Step>)
    ensures |Ticks(c, k, steps)| == |steps| && Linked(Ticks(c, k, steps))
    ensures steps != [] ==> Ticks(c, k, steps)[|steps| - 1].after == Run(c, k, steps).latched
    ensures steps != [] ==> Ticks(c, k, steps)[0].before == k.latched
  {
    if steps != [] {
      var n := |steps| - 1;
      var front := steps[..n];
      TicksFollowRun(c, k, front);
      StepEvents(c, Run(c, k, front), steps[n]);
      var t := TickOf(c, Run(c, k, front), steps[n]);
      assert Ticks(c, k, steps) == Ticks(c, k, front) + [t];
      assert Shaped(t.ipc, t.before, t.after);
    }
  }

  lemma TicksGrow(c: Config, k: Kernel, steps: seq<Step>)
    requires steps != []
    ensures var n := |steps| - 1;
            Ticks(c, k, steps) == Ticks(c, k, steps[..n]) + [TickOf(c, Run(c, k, steps[..n]), steps[n])]
  {
  }

  lemma {:induction false} TicksLength(c: Config, k: Kernel, steps: seq<Step>)
    ensures |Ticks(c, k, steps)| == |steps|
  {
    if steps != [] {
      TicksGrow(c, k, steps);
      TicksLength(c, k, steps[..|steps| - 1]);
    }
  }

  lemma {:induction false} TickAt(c: Config, k: Kernel, steps: seq<Step>, m: nat)
    requires m < |steps|
    ensures |Ticks(c, k, steps)| == |steps|
    ensures Ticks(c, k, steps)[m] == TickOf(c, Run(c, k, steps[..m]), steps[m])
  {
    var n := |steps| - 1;
    var front := steps[..n];
    TicksLength(c, k, steps);
    TicksLength(c, k, front);
    TicksGrow(c, k, steps);
    if m < n {
      TickAt(c, k, front, m);
      assert front[..m] == steps[..m];
    }
  }

  /** The kernel's latch before tick m (after the last one when m is the length). */
  function LatchAt(ticks: seq<Tick>, latched: bool, m: nat): bool
    requires m <= |ticks|
  {
    if m == 0 then latched else ticks[m - 1].after
  }

  lemma LatchAtRun(c: Config, k: Kernel, steps: seq<Step>, m: nat)
    requires m <= |steps|
    ensures |Ticks(c, k, steps)| == |steps|
    ensures LatchAt(Ticks(c, k, steps), k.latched, m) == Run(c, k, steps[..m]).latched
  {
    TicksFollowRun(c, k, steps);
    if m > 0 {
      TickAt(c, k, steps, m - 1);
      RunStep(c, k, steps, m - 1);
    }
  }

  lemma LatchAfterOne(latched: bool, events: seq<Ipc>, ev: Ipc)
    ensures LatchAfter(latched, events + [ev]) == if ev.StateEvent? then ev.latched else LatchAfter(latched, events)
  {
  }

  lemma {:induction false} ExtendOrdered(latched: bool, events: seq<Ipc>, ev: Ipc)
    requires WellOrdered(latched, events)
    requires SetsThrottle(ev) ==> !LatchAfter(latched, events)
    ensures WellOrdered(latched, events + [ev])
  {
    var all := events + [ev];
    forall i | 0 <= i < |all| && SetsThrottle(all[i]) ensures !LatchAfter(latched, all[..i]) {
      assert all[..i] == events[..i];
      if i == |events| { assert events[..i] == events; }
    }
  }

  /** A step's events keep the stream ordered and end it on the new latch. */
  lemma StepExtends(q: seq<Ipc>, ipc: seq<Ipc>, before: bool, after: bool)
    requires WellOrdered(true, q) && LatchAfter(true, q) == before
    requires Shaped(ipc, before, after)
    ensures WellOrdered(true, q + ipc) && LatchAfter(true, q + ipc) == after
  {
    if ipc == [] {
      assert q + ipc == q;
    } else {
      var q1 := q + [ipc[0]];
      ExtendOrdered(true, q, ipc[0]);
      LatchAfterOne(true, q, ipc[0]);
      if |ipc| == 1 {
        assert q + ipc == q1;
      } else {
        ExtendOrdered(true, q1, ipc[1]);
        LatchAfterOne(true, q1, ipc[1]);
        assert q + ipc == q1 + [ipc[1]];
      }
    }
  }

  lemma {:induction false} ReceivedOrdered(ticks: seq<Tick>, latched: bool, i: nat, j: nat)
    requires i <= j <= |ticks| && Linked(ticks)
    requires ticks != [] ==> ticks[0].before == latched
    ensures var r := Received(ticks, LatchAt(ticks, latched, i), i, j);
            WellOrdered(true, r) && LatchAfter(true, r) == LatchAt(ticks, latched, j)
    decreases j
  {
    var snapshot := LatchAt(ticks, latched, i);
    if i == j {
      SnapshotOrdered(snapshot);
      assert Received(ticks, snapshot, i, j) == [StateEvent(snapshot)];
    } else {
      ReceivedOrdered(ticks, latched, i, j - 1);
      ReceivedGrows(ticks, snapshot, i, j);
      var t := ticks[j - 1];
      assert t.before == LatchAt(ticks, latched, j - 1);
      StepExtends(Received(ticks, snapshot, i, j - 1), t.ipc, t.before, t.after);
    }
  }

  lemma SnapshotOrdered(latched: bool)
    ensures WellOrdered(true, [StateEvent(latched)]) && LatchAfter(true, [StateEvent(latched)]) == latched
  {
  }

  lemma ReceivedGrows(ticks: seq<Tick>, snapshot: bool, i: nat, j: nat)
    requires i < j <= |ticks|
    ensures Received(ticks, snapshot, i, j) == Received(ticks, snapshot, i, j - 1) + ticks[j - 1].ipc
  {
  }

  /** A freshly connected bridge: assumed latched, throttle released. */
  predicate FailSafe(b: Control) { b.latched && b.throttle == 0.0 }

  /** One event never leaves throttle on a latched bridge, and throttle stays on
      only through events that do not halt. */
  lemma ConsumeThrottle(b: Control, ev: Ipc)
    requires b.latched ==> b.throttle == 0.0
    requires SetsThrottle(ev) ==> !b.latched
    ensures var r := Consume(b, ev);
            && r.latched == (if ev.StateEvent? then ev.latched else b.latched)
            && (r.latched ==> r.throttle == 0.0)
            && (r.throttle != 0.0 ==> SetsThrottle(ev) || (b.throttle != 0.0 && !Halts(ev)))
  {
  }

  lemma UnderWayExtends(events: seq<Ipc>, ev: Ipc)
    requires SetsThrottle(ev) || (UnderWay(events) && !Halts(ev))
    ensures UnderWay(events + [ev])
  {
    var all := events + [ev];
    if SetsThrottle(ev) {
      assert all[|events|] == ev;
    } else {
      var i :| 0 <= i < |events| && SetsThrottle(events[i]) && forall j :: i < j < |events| ==> !Halts(events[j]);
      assert SetsThrottle(all[i]);
    }
  }

  lemma {:induction false} ConsumeOrdered(b: Control, events: seq<Ipc>)
    requires FailSafe(b) && WellOrdered(true, events)
    ensures var r := ConsumeAll(b, events);
            && r.latched == LatchAfter(true, events)
            && (r.latched ==> r.throttle == 0.0)
            && (r.throttle != 0.0 ==> UnderWay(events))
  {
    if events != [] {
      var n := |events| - 1;
      var front, last := events[..n], events[n];
      FrontOrdered(events);
      ConsumeOrdered(b, front);
      ConsumeThrottle(ConsumeAll(b, front), last);
      assert events == front + [last];
      if ConsumeAll(b, events).throttle != 0.0 { UnderWayExtends(front, last); }
    }
  }

  lemma FrontOrdered(events: seq<Ipc>)
    requires events != [] && WellOrdered(true, events)
    ensures WellOrdered(true, events[..|events| - 1])
    ensures SetsThrottle(events[|events| - 1]) ==> !LatchAfter(true, events[..|events| - 1])
  {
    var front := events[..|events| - 1];
    forall i | 0 <= i < |front| && SetsThrottle(front[i]) ensures !LatchAfter(true, front[..i]) {
      assert front[..i] == events[..i] && front[i] == events[i];
    }
  }

  /** A latched bridge commands zero throttle, full brake and hand brake, whatever
      was commanded before and however fast the vehicle goes. */
  lemma LatchedBrakes(b: Control, speedKmh: real)
    requires b.latched
    ensures var a := Governed(b, speedKmh);
            a.throttle == 0.0 && a.brake == 1.0 && a.handBrake
  {
  }

  /** Kernel and bridge together: after consuming everything sent since it
      connected (or reconnected), the bridge's latch is the kernel's; while latched
      it brakes; and throttle is applied only when a DRIVE or CREEP came after the
      last connection, latch, stop and release. */
  lemma BridgeFollowsKernel(c: Config, k: Kernel, steps: seq<Step>, i: nat, j: nat, b: Control, speedKmh: real)
    requires i <= j <= |steps|
    requires b == START || exists before :: b == LinkLost(before)
    ensures |Ticks(c, k, steps)| == |steps|
    ensures var received := Received(Ticks(c, k, steps), Run(c, k, steps[..i]).latched, i, j);
            var after := ConsumeAll(b, received);
            && after.latched == Run(c, k, steps[..j]).latched
            && (Run(c, k, steps[..j]).latched ==>
                  Governed(after, speedKmh) == Actuation(0.0, 1.0, 0.0, after.reverse, true))
            && (Governed(after, speedKmh).throttle != 0.0 ==> UnderWay(received))
  {
    TicksFollowRun(c, k, steps);
    LatchAtRun(c, k, steps, i);
    LatchAtRun(c, k, steps, j);
    ReceivedOrdered(Ticks(c, k, steps), k.latched, i, j);
    ConsumeOrdered(b, Received(Ticks(c, k, steps), Run(c, k, steps[..i]).latched, i, j));
  }

  // ------------------------------------------------------------------
  // Lost events
  // ------------------------------------------------------------------

  lemma {:induction false} SameStateEvents(b: Control, events: seq<Ipc>, latched: bool)
    requires forall ev :: ev in events && ev.StateEvent? ==> ev.latched == latched
    requires b.latched == latched
    ensures ConsumeAll(b, events).latched == latched
  {
    if events != [] {
      var front := events[..|events| - 1];
      assert forall ev :: ev in front ==> ev in events;
      assert events[|events| - 1] in events;
      SameStateEvents(b, front, latched);
    }
  }

  lemma {:induction false} SentStates(ticks: seq<Tick>, i: nat, j: nat, latched: bool)
    requires i <= j <= |ticks| && Linked(ticks)
    requires forall m :: i <= m < j ==> ticks[m].after == latched
    ensures forall ev :: ev in Sent(ticks, i, j) && ev.StateEvent? ==> ev.latched == latched
    decreases j
  {
    if i < j {
      SentStates(ticks, i, j - 1, latched);
      assert Shaped(ticks[j - 1].ipc, ticks[j - 1].before, ticks[j - 1].after);
    }
  }

  /** A lagging bridge re-converges: whatever it missed and whatever state it is in,
      one heartbeat snapshot followed by any selection of the later events leaves it
      on the kernel's latch, as long as that latch has not changed since. */
  lemma SnapshotReconverges(c: Config, k: Kernel, steps: seq<Step>, h: nat, j: nat, b: Control, delivered: seq<Ipc>)
    requires h < j <= |steps| && steps[h].Heartbeat1Hz?
    requires |Ticks(c, k, steps)| == |steps|
    requires forall m :: h < m <= j ==> Run(c, k, steps[..m]).latched == Run(c, k, steps[..h]).latched
    requires forall ev :: ev in delivered ==> ev in Sent(Ticks(c, k, steps), h + 1, j)
    ensures var snapshot := Ticks(c, k, steps)[h].ipc;
            |snapshot| == 1 &&
            ConsumeAll(Consume(b, snapshot[0]), delivered).latched == Run(c, k, steps[..j]).latched
  {
    var latched := Run(c, k, steps[..h]).latched;
    HeartbeatSends(c, k, steps, h);
    LatchConstant(c, k, steps, h, j, latched);
    SentStates(Ticks(c, k, steps), h + 1, j, latched);
    SameStateEvents(Consume(b, StateEvent(latched)), delivered, latched);
  }

  lemma HeartbeatSends(c: Config, k: Kernel, steps: seq<Step>, h: nat)
    requires h < |steps| && steps[h].Heartbeat1Hz?
    ensures |Ticks(c, k, steps)| == |steps|
    ensures Ticks(c, k, steps)[h].ipc == [StateEvent(Run(c, k, steps[..h]).latched)]
  {
    TickAt(c, k, steps, h);
  }

  lemma LatchConstant(c: Config, k: Kernel, steps: seq<Step>, h: nat, j: nat, latched: bool)
    requires h < j <= |steps|
    requires forall m :: h < m <= j ==> Run(c, k, steps[..m]).latched == latched
    ensures |Ticks(c, k, steps)| == |steps| && Linked(Ticks(c, k, steps))
    ensures forall m :: h + 1 <= m < j ==> Ticks(c, k, steps)[m].after == latched
  {
    TicksFollowRun(c, k, steps);
    forall m | h + 1 <= m < j ensures Ticks(c, k, steps)[m].after == latched {
      LatchAtRun(c, k, steps, m + 1);
    }
  }

  // ------------------------------------------------------------------
  // Throttle, whatever was lost
  // ------------------------------------------------------------------

  /** The event sets throttle above zero. */
  predicate Powers(ev: Ipc) {
    && ev.CommandEvent?
    && ((ev.action == DRIVE && ev.payload.Drive? && ev.payload.throttle > 0.0) || ev.action == CREEP)
  }

  /** The event takes throttle to zero on a bridge whose latch is `latched`: a latch the
      bridge did not know of, a stop or a release command, a drive without throttle,
      neutral, or the parking brake. */
  predicate Cuts(latched: bool, ev: Ipc) {
    match ev
    case StateEvent(l) => l && !latched
    case CommandEvent(_, a, p) =>
      || a == E_STOP || a == SAFE_STOP || a == CLEAR_SAFE_STOP
      || (a == DRIVE && !Powers(ev))
      || (a == SELECT_DIRECTION && p.SelectDirection? && p.direction == NEUTRAL)
      || (a == PARK && !(p.Park? && !p.engage))
  }

  lemma ConsumeExactly(b: Control, ev: Ipc)
    ensures var r := Consume(b, ev);
            && r.latched == (if ev.StateEvent? then ev.latched else b.latched)
            && (r.throttle != 0.0 <==> Powers(ev) || (b.throttle != 0.0 && !Cuts(b.latched, ev)))
  {
  }

  /** Something set throttle, and nothing delivered after it cut it. */
  predicate Powered(latched: bool, events: seq<Ipc>) {
    exists i :: 0 <= i < |events| && Powers(events[i]) && Uncut(latched, events, i)
  }

  predicate Uncut(latched: bool, events: seq<Ipc>, i: nat) {
    forall j :: i < j < |events| ==> !Cuts(LatchAfter(latched, events[..j]), events[j])
  }

  lemma UncutStep(latched: bool, events: seq<Ipc>, ev: Ipc, i: nat)
    requires i < |events|
    ensures Uncut(latched, events + [ev], i) <==> Uncut(latched, events, i) && !Cuts(LatchAfter(latched, events), ev)
  {
    var all := events + [ev];
    assert all[..|events|] == events;
    assert forall j :: i < j < |events| ==> all[..j] == events[..j] && all[j] == events[j];
    if Uncut(latched, all, i) {
      assert all[|events|] == ev;
      forall j | i < j < |events| ensures !Cuts(LatchAfter(latched, events[..j]), events[j]) {
        assert !Cuts(LatchAfter(latched, all[..j]), all[j]);
      }
    }
  }

  lemma PoweredGrows(latched: bool, events: seq<Ipc>, ev: Ipc)
    requires Powers(ev) || (Powered(latched, events) && !Cuts(LatchAfter(latched, events), ev))
    ensures Powered(latched, events + [ev])
  {
    var all := events + [ev];
    if Powers(ev) {
      assert Powers(all[|events|]) && Uncut(latched, all, |events|);
    } else {
      var i :| 0 <= i < |events| && Powers(events[i]) && Uncut(latched, events, i);
      UncutStep(latched, events, ev, i);
      assert Powers(all[i]);
    }
  }

  lemma PoweredShrinks(latched: bool, events: seq<Ipc>, ev: Ipc)
    requires Powered(latched, events + [ev]) && !Powers(ev)
    ensures Powered(latched, events) && !Cuts(LatchAfter(latched, events), ev)
  {
    var all := events + [ev];
    var i :| 0 <= i < |all| && Powers(all[i]) && Uncut(latched, all, i);
    UncutStep(latched, events, ev, i);
    assert Powers(events[i]);
  }

  /** Whatever the kernel sent and whichever of it was delivered: a bridge that started
      without throttle has throttle if and only if a DRIVE or CREEP was delivered and
      nothing delivered after it cut it, and applies it if and only if moreover the last
      latch value delivered is unlatched. */
  lemma {:induction false} ThrottleIff(b: Control, events: seq<Ipc>)
    requires b.throttle == 0.0
    ensures var r := ConsumeAll(b, events);
            && r.latched == LatchAfter(b.latched, events)
            && (r.throttle != 0.0 <==> Powered(b.latched, events))
            && (Effective(r).throttle != 0.0 <==> !LatchAfter(b.latched, events) && Powered(b.latched, events))
  {
    if events != [] {
      var front, ev := events[..|events| - 1], events[|events| - 1];
      ThrottleIff(b, front);
      ConsumeExactly(ConsumeAll(b, front), ev);
      assert events == front + [ev];
      if Powers(ev) || (Powered(b.latched, front) && !Cuts(LatchAfter(b.latched, front), ev)) {
        PoweredGrows(b.latched, front, ev);
      } else if Powered(b.latched, events) {
        PoweredShrinks(b.latched, front, ev);
      }
      LatchAfterOne(b.latched, front, ev);
    }
  }

  /** A bridge that misses a stop and its release: told everything it ends without
      throttle; told only the next heartbeat it agrees with the kernel that nothing is
      latched and drives on with the old throttle. */
  lemma MissedStopKeepsThrottle(c: Config, k: Kernel, topic: Topic, stop: Envelope, clear: Step, at: nat, beat: nat, b: Control)
    requires IsStop(topic, stop) && stop.commandId !in k.dedup.acks
    requires stop.vehicleId == c.vehicleId && stop.tokenIssuedAt >= k.newestToken
    requires var k1 := Next(c, k, OnCommand(topic, Signed(stop), at)).0; IsAuthorisedClear(c, k1, clear)
    requires !b.latched && b.throttle != 0.0
    ensures var (k1, e1) := Next(c, k, OnCommand(topic, Signed(stop), at));
            var (k2, e2) := Next(c, k1, clear);
            var e3 := Next(c, k2, Heartbeat1Hz(beat)).1;
            && !k2.latched
            && ConsumeAll(b, e1.ipc + e2.ipc + e3.ipc).throttle == 0.0
            && ConsumeAll(b, e3.ipc) == b && Effective(b).throttle != 0.0
  {
    StopReleaseBeat(c, k, topic, stop, clear, at, beat);
    var (k1, e1) := Next(c, k, OnCommand(topic, Signed(stop), at));
    AfterRelease(b, e1.ipc, Next(c, k1, clear).1.ipc);
    OnlyTheBeat(b);
  }

  lemma StopReleaseBeat(c: Config, k: Kernel, topic: Topic, stop: Envelope, clear: Step, at: nat, beat: nat)
    requires IsStop(topic, stop) && stop.commandId !in k.dedup.acks
    requires stop.vehicleId == c.vehicleId && stop.tokenIssuedAt >= k.newestToken
    requires var k1 := Next(c, k, OnCommand(topic, Signed(stop), at)).0; IsAuthorisedClear(c, k1, clear)
    ensures var k1 := Next(c, k, OnCommand(topic, Signed(stop), at)).0;
            var (k2, e2) := Next(c, k1, clear);
            && !k2.latched && Next(c, k2, Heartbeat1Hz(beat)).1.ipc == [StateEvent(false)]
            && |e2.ipc| == 2 && e2.ipc[1].CommandEvent? && e2.ipc[1].action == CLEAR_SAFE_STOP
  {
    StopAlwaysEngages(c, k, topic, stop, at);
    ReleaseSends(c, Next(c, k, OnCommand(topic, Signed(stop), at)).0, clear);
  }

  lemma OnlyTheBeat(b: Control)
    requires !b.latched
    ensures ConsumeAll(b, [StateEvent(false)]) == b
  {
    assert ConsumeAll(b, [StateEvent(false)]) == Consume(ConsumeAll(b, []), StateEvent(false));
  }

  lemma AfterRelease(b: Control, first: seq<Ipc>, release: seq<Ipc>)
    requires |release| == 2 && release[1].CommandEvent? && release[1].action == CLEAR_SAFE_STOP
    ensures ConsumeAll(b, first + release + [StateEvent(false)]).throttle == 0.0
  {
    var sent := first + release;
    assert (sent + [StateEvent(false)])[..|sent|] == sent && sent[|sent| - 1] == release[1];
    ConsumeExactly(ConsumeAll(b, sent[..|sent| - 1]), release[1]);
    ConsumeExactly(ConsumeAll(b, sent), StateEvent(false));
  }

  lemma ReleaseSends(c: Config, k: Kernel, clear: Step)
    requires k.latched && IsAuthorisedClear(c, k, clear)
    ensures var (k', e) := Next(c, k, clear);
            !k'.latched && e.ipc == [StateEvent(false), CommandEvent(clear.command.envelope.commandId, CLEAR_SAFE_STOP, clear.command.envelope.payload)]
  {
  }
}
