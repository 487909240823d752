/** The vehicle kernel and the log-sync protocol composed: every kernel step is at most
    one step of the protocol, so the protocol's promises hold of the kernel's buffer. */
module KernelLogSync {
  import opened Wrappers
  import opened VehicleLog
  import opened EdgeLogIngest
  import opened KernelSpec
  import Contract
  import L = LogSync

  /** The ack a signed log-ack message carries. */
  function CarriedAck(m: LogAckMessage): SyncAck
    requires m.upTo.Some?
  {
    SyncAck(m.vehicleId, m.bootId, m.upTo.value)
  }

  /** What a kernel step is to the protocol. */
  function ProtocolStep(c: Config, k: Kernel, st: Step): Option<L.Step> {
    var e := Next(c, k, st).1;
    if e.logged != [] then Some(L.Record(st.now, e.logged[0].kind))
    else if e.batch != [] then Some(L.Upload)
    else if st.OnLogAck? && st.ack.signed && st.ack.upTo.Some? && st.ack.vehicleId == c.vehicleId
    then Some(L.AckArrives(CarriedAck(st.ack)))
    else None
  }

  function Advance(s: L.Sys, st: Option<L.Step>): L.Sys
    requires st.Some? ==> L.Enabled(s, st.value)
  {
    if st.None? then s else L.Do(s, st.value)
  }

  /** The protocol's vehicle is this kernel. */
  ghost predicate Mirrors(c: Config, k: Kernel, s: L.Sys) {
    s.vehicle == c.vehicleId && s.log == k.log
  }

  /** Only the cloud can sign an ack, so a signed one was published. */
  predicate Unforged(c: Config, s: L.Sys, st: Step) {
    st.OnLogAck? && st.ack.signed && st.ack.upTo.Some? && st.ack.vehicleId == c.vehicleId
    ==> CarriedAck(st.ack) in s.acks
  }

  /** A kernel step touches the log only by recording its one event, uploading the
      oldest events or obeying an ack. */
  lemma StepOnLog(c: Config, k: Kernel, st: Step)
    ensures var (k', e) := Next(c, k, st);
            && |e.logged| <= 1
            && (e.logged != [] ==>
                  e.batch == [] && e.logged[0] == Recorded(c, k, st.now, e.logged[0].kind)
                  && k'.log == Append(k.log, c.vehicleId, st.now, e.logged[0].kind))
            && (e.batch != [] ==> k'.log == k.log && e.batch == NextBatch(k.log.unsynced))
            && (e.logged == [] && e.batch == [] && !st.OnLogAck? ==> k'.log == k.log)
  {
    if st.OnCommand? {
      if st.command.Signed? {
        var env := st.command.envelope;
        ApplyOnLog(c, Contact(k, st.now), env, st.now, Judge(c, Contact(k, st.now), st.topic, env, st.now));
      }
    }
  }

  lemma ApplyOnLog(c: Config, k: Kernel, env: Envelope, now: nat, v: Verdict)
    ensures var (k', e) := Apply(c, k, env, now, v);
            && |e.logged| <= 1 && e.batch == []
            && (e.logged != [] ==>
                  e.logged[0] == Recorded(c, k, now, e.logged[0].kind)
                  && k'.log == Append(k.log, c.vehicleId, now, e.logged[0].kind))
            && (e.logged == [] ==> k'.log == k.log)
  {
  }

  /** Every kernel step is at most one enabled protocol step with the same effect. */
  lemma KernelStepRefines(c: Config, k: Kernel, s: L.Sys, st: Step)
    requires Mirrors(c, k, s) && L.HistoryOk(s) && Unforged(c, s, st)
    ensures var p := ProtocolStep(c, k, st);
            && (p.Some? ==> L.Enabled(s, p.value))
            && Mirrors(c, Next(c, k, st).0, Advance(s, p))
            && Advance(s, p).history[k.log.bootId] == s.history[k.log.bootId] + Next(c, k, st).1.logged
            && (Next(c, k, st).1.batch != [] ==>
                  Batch(c.vehicleId, Next(c, k, st).1.batch) in Advance(s, p).sent)
  {
    StepOnLog(c, k, st);
    var (k', e) := Next(c, k, st);
    if e.logged != [] {
      assert e.logged == [e.logged[0]];
    } else {
      assert s.history[k.log.bootId] + e.logged == s.history[k.log.bootId];
      if e.batch != [] {
        assert L.Do(s, L.Upload).sent == s.sent + {Batch(c.vehicleId, e.batch)};
      }
    }
  }

  // ------------------------------------------------------------------
  // Joint runs: kernel, cloud and channel
  // ------------------------------------------------------------------

  datatype Joint = Joint(kernel: Kernel, protocol: L.Sys)

  /** A kernel step, a step of the cloud or the channel, or a kernel restart. */
  datatype Move =
    | Vehicle(step: Step)
    | Cloud(cloud: L.Step)
    | Restart(bootId: string, zone: Contract.ZoneType, now: nat)

  predicate CloudSide(st: L.Step) {
    !st.Record? && !st.Upload? && !st.AckArrives? && !st.Reboot?
  }

  predicate CanMove(c: Config, j: Joint, m: Move) {
    match m
    case Vehicle(st) => Unforged(c, j.protocol, st)
    case Cloud(st) => CloudSide(st) && L.Enabled(j.protocol, st)
    case Restart(b, _, _) => b !in j.protocol.history && HyphenFree(b)
  }

  ghost predicate Agree(c: Config, j: Joint) {
    Mirrors(c, j.kernel, j.protocol) && L.Inv(j.protocol)
  }

  ghost function MoveOn(c: Config, j: Joint, m: Move): Joint
    requires Agree(c, j) && CanMove(c, j, m)
  {
    match m
    case Vehicle(st) =>
      KernelStepRefines(c, j.kernel, j.protocol, st);
      Joint(Next(c, j.kernel, st).0, Advance(j.protocol, ProtocolStep(c, j.kernel, st)))
    case Cloud(st) => Joint(j.kernel, L.Do(j.protocol, st))
    case Restart(b, z, now) => Joint(Boot(b, z, now), L.Do(j.protocol, L.Reboot(b)))
  }

  lemma CloudLeavesLog(s: L.Sys, st: L.Step)
    requires L.Enabled(s, st) && CloudSide(st)
    ensures L.Do(s, st).log == s.log && L.Do(s, st).vehicle == s.vehicle
  {
  }

  lemma MoveAgrees(c: Config, j: Joint, m: Move)
    requires Agree(c, j) && CanMove(c, j, m)
    ensures Agree(c, MoveOn(c, j, m))
  {
    match m
    case Vehicle(st) =>
      KernelStepRefines(c, j.kernel, j.protocol, st);
      var p := ProtocolStep(c, j.kernel, st);
      if p.Some? { L.StepKeeps(j.protocol, p.value); }
    case Cloud(st) =>
      CloudLeavesLog(j.protocol, st);
      L.StepKeeps(j.protocol, st);
    case Restart(b, z, now) =>
      L.StepKeeps(j.protocol, L.Reboot(b));
  }

  ghost predicate CanRun(c: Config, j: Joint, moves: seq<Move>)
    requires Agree(c, j)
    decreases |moves|
  {
    moves == [] ||
    (CanMove(c, j, moves[0]) && (MoveAgrees(c, j, moves[0]); CanRun(c, MoveOn(c, j, moves[0]), moves[1..])))
  }

  ghost function RunOn(c: Config, j: Joint, moves: seq<Move>): Joint
    requires Agree(c, j) && CanRun(c, j, moves)
    decreases |moves|
  {
    if moves == [] then j else (MoveAgrees(c, j, moves[0]); RunOn(c, MoveOn(c, j, moves[0]), moves[1..]))
  }

  lemma {:induction false} RunAgrees(c: Config, j: Joint, moves: seq<Move>)
    requires Agree(c, j) && CanRun(c, j, moves)
    ensures Agree(c, RunOn(c, j, moves))
    decreases |moves|
  {
    if moves != [] {
      MoveAgrees(c, j, moves[0]);
      RunAgrees(c, MoveOn(c, j, moves[0]), moves[1..]);
    }
  }

  /** A booted kernel and an empty cloud. */
  ghost function Origin(c: Config, bootId: string, zone: Contract.ZoneType, boot: nat): (j: Joint)
    requires HyphenFree(bootId)
    ensures Agree(c, j)
  {
    L.StartInv(c.vehicleId, bootId);
    Joint(Boot(bootId, zone, boot), L.Start(c.vehicleId, bootId))
  }

  /** No evidence is lost end to end: after any joint run of the kernel's own steps,
      the channel's faults, the cloud's handlers and kernel restarts, each event the
      kernel recorded since its boot is in its buffer, in the evidence store, or
      counted as dropped; and the kernel's counters balance. */
  lemma {:induction false} KernelLosesNothing(c: Config, bootId: string, zone: Contract.ZoneType, boot: nat, moves: seq<Move>)
    requires HyphenFree(bootId) && CanRun(c, Origin(c, bootId, zone, boot), moves)
    ensures var j := RunOn(c, Origin(c, bootId, zone, boot), moves);
            var k, s := j.kernel, j.protocol;
            && k.log.bootId in s.history && |s.history[k.log.bootId]| == k.log.last
            && k.log.last == s.trimmed + |k.log.unsynced| + k.log.dropped
            && |s.evicted| == k.log.dropped
            && forall e :: e in s.history[k.log.bootId] ==>
                 e in k.log.unsynced || L.InEdr(s.edr, e) || e.number in s.evicted
  {
    RunAgrees(c, Origin(c, bootId, zone, boot), moves);
    L.Accounted(RunOn(c, Origin(c, bootId, zone, boot), moves).protocol);
  }
}
