/** The kernel's upload tick over whole runs: what it uploads and when, that uploads keep
    coming however many are lost, and that confirmed uploads drain the kernel's buffer. */
module KernelUploads {
  import opened Wrappers
  import opened Contract
  import opened VehicleLog
  import opened KernelSpec
  import opened EdgeLogIngest
  import opened KernelLogSync
  import L = LogSync
  import R = LogSyncRuns

  // ------------------------------------------------------------------
  // One tick
  // ------------------------------------------------------------------

  /** Link up, something to confirm, and nothing in flight or the last upload at least
      5 s ago. */
  predicate Due(k: Kernel, now: nat) {
    && k.connected && k.log.unsynced != []
    && (k.outstanding.None? || now - k.outstanding.value.sentAt >= 5000)
  }

  /** A tick uploads exactly when due and taken by the queue: the oldest events, a hundred
      or as many as there are, which are then in flight. */
  lemma UploadsIff(c: Config, k: Kernel, queued: bool, now: nat)
    ensures var (k', e) := Next(c, k, Sync1Hz(queued, now));
            var n := if |k.log.unsynced| < 100 then |k.log.unsynced| else 100;
            && e == NOTHING.(batch := e.batch)
            && (e.batch != [] <==> queued && Due(k, now))
            && (e.batch != [] ==>
                  && e.batch == k.log.unsynced[..n]
                  && k' == k.(outstanding := Some(InFlight(k.log.unsynced[n - 1].number, now))))
            && (e.batch == [] ==> k' == k || (k.log.unsynced == [] && k' == k.(outstanding := None)))
  {
  }

  // ------------------------------------------------------------------
  // Uploads keep coming
  // ------------------------------------------------------------------

  function UploadAt(c: Config, k: Kernel, steps: seq<Step>, i: nat): seq<Event>
    requires i < |steps|
  {
    EffectsAt(c, k, steps, i).batch
  }

  /** The upload at step `m` accounts for what is in flight. */
  predicate SentAt(c: Config, k: Kernel, steps: seq<Step>, m: nat, f: InFlight) {
    && m < |steps| && UploadAt(c, k, steps, m) != []
    && f == InFlight(UploadAt(c, k, steps, m)[|UploadAt(c, k, steps, m)| - 1].number, steps[m].now)
  }

  lemma StepInFlight(c: Config, k: Kernel, s: Step)
    ensures var (k', e) := Next(c, k, s);
            && (e.batch != [] ==> k'.outstanding == Some(InFlight(e.batch[|e.batch| - 1].number, s.now)))
            && (e.batch == [] ==> k'.outstanding == k.outstanding || k'.outstanding.None?)
  {
    if s.OnCommand? {
      if s.command.Signed? {
        var env := s.command.envelope;
        ApplyKeepsInFlight(c, Contact(k, s.now), env, s.now, Judge(c, Contact(k, s.now), s.topic, env, s.now));
      }
    }
  }

  lemma ApplyKeepsInFlight(c: Config, k: Kernel, env: Envelope, now: nat, v: Verdict)
    ensures var (k', e) := Apply(c, k, env, now, v);
            e.batch == [] && k'.outstanding == k.outstanding
  {
  }

  lemma SentEarlier(c: Config, k: Kernel, steps: seq<Step>, n: nat, m: nat, f: InFlight)
    requires n <= |steps| && SentAt(c, k, steps[..n], m, f)
    ensures SentAt(c, k, steps, m, f)
  {
    assert steps[..n][..m] == steps[..m];
  }

  /** What is in flight was uploaded during the run. */
  lemma {:induction false} InFlightWasSent(c: Config, k: Kernel, steps: seq<Step>)
    requires k.outstanding.None?
    ensures var o := Run(c, k, steps).outstanding;
            o.Some? ==> exists m: nat :: SentAt(c, k, steps, m, o.value)
  {
    if steps != [] {
      var n := |steps| - 1;
      var front := steps[..n];
      InFlightWasSent(c, k, front);
      StepInFlight(c, Run(c, k, front), steps[n]);
      var o := Run(c, k, steps).outstanding;
      if UploadAt(c, k, steps, n) != [] {
        assert SentAt(c, k, steps, n, o.value);
      } else if o.Some? {
        var m: nat :| SentAt(c, k, front, m, o.value);
        SentEarlier(c, k, steps, n, m, o.value);
      }
    }
  }

  /** The last upload tick of the run is step `n - 1`, or there was none and `n` is 0. */
  predicate TicksEnd(steps: seq<Step>, n: nat) {
    && n <= |steps| && (n > 0 ==> steps[n - 1].Sync1Hz?)
    && forall j :: n <= j < |steps| ==> !steps[j].Sync1Hz?
  }

  function TimeAfter(steps: seq<Step>, n: nat, boot: nat): nat
    requires n <= |steps|
  {
    if n == 0 then boot else steps[n - 1].now
  }

  /** At step `m` the link is up and there is something to confirm, and a tick's upload is
      taken by the queue. */
  predicate PressingAt(c: Config, k: Kernel, steps: seq<Step>, m: nat)
    requires m < |steps|
  {
    var before := Run(c, k, steps[..m]);
    before.connected && before.log.unsynced != [] && (steps[m].Sync1Hz? ==> steps[m].queued)
  }

  /** And so at every step from `a` on. */
  ghost predicate Pressing(c: Config, k: Kernel, steps: seq<Step>, a: nat) {
    forall m: nat :: a <= m < |steps| ==> PressingAt(c, k, steps, m)
  }

  predicate UploadedSince(c: Config, k: Kernel, steps: seq<Step>, a: nat, m: nat) {
    a <= m < |steps| && UploadAt(c, k, steps, m) != []
  }

  /** An upload from step `a` on was made at most `margin` before `t`. */
  ghost predicate UploadedWithin(c: Config, k: Kernel, steps: seq<Step>, a: nat, t: nat, margin: nat) {
    exists m: nat :: UploadedSince(c, k, steps, a, m) && t <= steps[m].now + margin
  }

  /** Uploads keep coming, whatever is lost: while there is something to confirm and the
      link is up, then with upload ticks at most `period` apart, at any instant an upload
      was made in the last 5000 ms plus that period, or the buffer has not been pressing
      for that long. */
  lemma UploadsKeepComing(c: Config, bootId: string, initial: ZoneType, boot: nat, steps: seq<Step>, a: nat, n: nat, period: nat, t: nat)
    requires ClockOk(steps, boot) && a <= |steps| && Pressing(c, Boot(bootId, initial, boot), steps, a)
    requires TicksEnd(steps, n) && t <= TimeAfter(steps, n, boot) + period
    ensures || t <= TimeAfter(steps, a, boot) + 5000 + period
            || UploadedWithin(c, Boot(bootId, initial, boot), steps, a, t, 5000 + period)
  {
    if n > a { UploadedInTime(c, Boot(bootId, initial, boot), boot, steps, a, n, period, t); } else { TimesGrow(steps, boot, n, a); }
  }

  lemma Witnessed(c: Config, k: Kernel, steps: seq<Step>, a: nat, t: nat, margin: nat, m: nat)
    requires UploadedSince(c, k, steps, a, m) && t <= steps[m].now + margin
    ensures UploadedWithin(c, k, steps, a, t, margin)
  {
  }

  lemma UploadedInTime(c: Config, k: Kernel, boot: nat, steps: seq<Step>, a: nat, n: nat, period: nat, t: nat)
    requires k.outstanding.None? && ClockOk(steps, boot) && a < n <= |steps| && steps[n - 1].Sync1Hz?
    requires PressingAt(c, k, steps, n - 1) && t <= TimeAfter(steps, n, boot) + period
    ensures t <= TimeAfter(steps, a, boot) + 5000 + period || UploadedWithin(c, k, steps, a, t, 5000 + period)
  {
    var m := UploadedBy(c, k, steps, n - 1);
    if m < a {
      TimesGrow(steps, boot, m + 1, a);
    } else {
      Witnessed(c, k, steps, a, t, 5000 + period, m);
    }
  }

  /** A tick under pressure uploads, or an upload was made less than 5 s before it. */
  lemma UploadedBy(c: Config, k: Kernel, steps: seq<Step>, j: nat) returns (m: nat)
    requires k.outstanding.None? && j < |steps| && steps[j].Sync1Hz? && steps[j].queued
    requires Run(c, k, steps[..j]).connected && Run(c, k, steps[..j]).log.unsynced != []
    ensures m <= j && UploadAt(c, k, steps, m) != [] && steps[j].now < steps[m].now + 5000
  {
    var before := Run(c, k, steps[..j]);
    UploadsIff(c, before, true, steps[j].now);
    if UploadAt(c, k, steps, j) != [] {
      m := j;
    } else {
      InFlightWasSent(c, k, steps[..j]);
      m :| SentAt(c, k, steps[..j], m, before.outstanding.value);
      SentEarlier(c, k, steps, j, m, before.outstanding.value);
    }
  }

  lemma TimesGrow(steps: seq<Step>, boot: nat, n: nat, a: nat)
    requires ClockOk(steps, boot) && n <= a <= |steps|
    ensures TimeAfter(steps, n, boot) <= TimeAfter(steps, a, boot)
  {
  }

  // ------------------------------------------------------------------
  // Confirmed uploads drain the kernel's buffer
  // ------------------------------------------------------------------

  /** An ack for this boot takes what it confirms out of the buffer and frees the slot it
      covers, so that the rest is due at the very next tick. */
  lemma AckFreesSlot(c: Config, k: Kernel, upTo: nat, now: nat, next: nat)
    ensures var k' := Next(c, k, OnLogAck(LogAckMessage(true, c.vehicleId, k.log.bootId, Some(upTo)), now)).0;
            && k'.log == k.log.(unsynced := Trim(k.log.unsynced, upTo))
            && (k.outstanding.Some? && k.outstanding.value.upTo <= upTo ==>
                  (Due(k', next) <==> k.connected && Trim(k.log.unsynced, upTo) != []))
            && (k.outstanding.Some? && k.outstanding.value.upTo > upTo ==> k'.outstanding == k.outstanding)
  {
  }

  function AsProtocol(c: Config, k: Kernel, m: Move): seq<L.Step> {
    match m
    case Vehicle(st) => var p := ProtocolStep(c, k, st); if p.Some? then [p.value] else []
    case Cloud(st) => [st]
    case Restart(b, _, _) => [L.Reboot(b)]
  }

  /** A joint run as the protocol sees it. */
  ghost function Projected(c: Config, j: Joint, moves: seq<Move>): seq<L.Step>
    requires Agree(c, j) && CanRun(c, j, moves)
    decreases |moves|
  {
    if moves == [] then []
    else
      MoveAgrees(c, j, moves[0]);
      AsProtocol(c, j.kernel, moves[0]) + Projected(c, MoveOn(c, j, moves[0]), moves[1..])
  }

  lemma MoveProjects(c: Config, j: Joint, m: Move)
    requires Agree(c, j) && CanMove(c, j, m)
    ensures var p := AsProtocol(c, j.kernel, m);
            && |p| <= 1
            && (p != [] ==> L.Enabled(j.protocol, p[0]))
            && MoveOn(c, j, m).protocol == if p == [] then j.protocol else L.Do(j.protocol, p[0])
  {
    if m.Vehicle? { KernelStepRefines(c, j.kernel, j.protocol, m.step); }
  }

  /** The move delivers an ack that confirms the whole front batch of the buffer. */
  predicate ConfirmsFront(c: Config, k: Kernel, m: Move) {
    && m.Vehicle? && m.step.OnLogAck? && m.step.ack.signed && m.step.ack.upTo.Some?
    && m.step.ack.vehicleId == c.vehicleId && m.step.ack.bootId == k.log.bootId
    && k.log.unsynced != []
    && var n := if |k.log.unsynced| < 100 then |k.log.unsynced| else 100;
       k.log.unsynced[n - 1].number <= m.step.ack.upTo.value
  }

  ghost function Confirmations(c: Config, j: Joint, moves: seq<Move>): nat
    requires Agree(c, j) && CanRun(c, j, moves)
    decreases |moves|
  {
    if moves == [] then 0
    else
      MoveAgrees(c, j, moves[0]);
      (if ConfirmsFront(c, j.kernel, moves[0]) then 1 else 0) + Confirmations(c, MoveOn(c, j, moves[0]), moves[1..])
  }

  /** The kernel records nothing during the run. */
  ghost predicate Quiet(c: Config, j: Joint, moves: seq<Move>)
    requires Agree(c, j) && CanRun(c, j, moves)
    decreases |moves|
  {
    moves == [] ||
    (&& (moves[0].Vehicle? ==> Next(c, j.kernel, moves[0].step).1.logged == [])
     && (MoveAgrees(c, j, moves[0]); Quiet(c, MoveOn(c, j, moves[0]), moves[1..])))
  }

  lemma FrontIsFront(c: Config, j: Joint, m: Move)
    requires Agree(c, j) && CanMove(c, j, m) && (m.Vehicle? ==> Next(c, j.kernel, m.step).1.logged == [])
    ensures var p := AsProtocol(c, j.kernel, m);
            && (p != [] ==> !p[0].Record?)
            && (ConfirmsFront(c, j.kernel, m) <==> p != [] && R.FrontAck(j.protocol, p[0]))
  {
    if m.Vehicle? { StepOnLog(c, j.kernel, m.step); }
  }

  lemma Prepended(s: L.Sys, p: seq<L.Step>, rest: seq<L.Step>)
    requires |p| <= 1 && (p != [] ==> L.Enabled(s, p[0]) && !p[0].Record?)
    requires L.Possible(if p == [] then s else L.Do(s, p[0]), rest)
    requires forall i :: 0 <= i < |rest| ==> !rest[i].Record?
    ensures var t := if p == [] then s else L.Do(s, p[0]);
            && L.Possible(s, p + rest) && L.After(s, p + rest) == L.After(t, rest)
            && R.FrontAcks(s, p + rest) == (if p != [] && R.FrontAck(s, p[0]) then 1 else 0) + R.FrontAcks(t, rest)
            && forall i :: 0 <= i < |p + rest| ==> !(p + rest)[i].Record?
  {
    if p == [] {
      assert p + rest == rest;
    } else {
      assert (p + rest)[1..] == rest && (p + rest)[0] == p[0];
    }
  }

  lemma {:induction false} ProjectedRuns(c: Config, j: Joint, moves: seq<Move>)
    requires Agree(c, j) && CanRun(c, j, moves) && Quiet(c, j, moves)
    ensures var p := Projected(c, j, moves);
            && L.Possible(j.protocol, p) && L.After(j.protocol, p) == RunOn(c, j, moves).protocol
            && R.FrontAcks(j.protocol, p) == Confirmations(c, j, moves)
            && forall i :: 0 <= i < |p| ==> !p[i].Record?
    decreases |moves|
  {
    if moves != [] {
      var m := moves[0];
      MoveAgrees(c, j, m);
      MoveProjects(c, j, m);
      FrontIsFront(c, j, m);
      var next := MoveOn(c, j, m);
      ProjectedRuns(c, next, moves[1..]);
      Prepended(j.protocol, AsProtocol(c, j.kernel, m), Projected(c, next, moves[1..]));
    }
  }

  /** The kernel's own buffer drains, whatever the channel and the cloud do besides: while
      the kernel records nothing it never grows, and in any joint run in which ceil(n / 100)
      acks of a front batch reach the kernel it ends empty, with everything recorded since
      boot in the evidence store or counted as evicted. */
  lemma KernelDrains(c: Config, j: Joint, moves: seq<Move>)
    requires Agree(c, j) && CanRun(c, j, moves) && Quiet(c, j, moves)
    ensures var t := RunOn(c, j, moves);
            var (n, done) := (|j.kernel.log.unsynced|, 100 * Confirmations(c, j, moves));
            && |t.kernel.log.unsynced| <= (if done >= n then 0 else n - done)
            && (done >= n ==>
                  && t.kernel.log.unsynced == [] && t.kernel.log.bootId in t.protocol.history
                  && forall e :: e in t.protocol.history[t.kernel.log.bootId] ==>
                       L.InEdr(t.protocol.edr, e) || e.number in t.protocol.evicted)
  {
    ProjectedRuns(c, j, moves);
    R.AcksDrain(j.protocol, Projected(c, j, moves));
    RunAgrees(c, j, moves);
  }

  /** The ack the cloud sends for a tick's upload confirms the front batch, as long as the
      front of the buffer is still the one uploaded. */
  lemma UploadAckConfirms(c: Config, k: Kernel, queued: bool, now: nat, later: Kernel, upTo: nat, at: nat)
    requires R.Numbered(k.log) && Next(c, k, Sync1Hz(queued, now)).1.batch != []
    requires upTo == MaxNumber(Next(c, k, Sync1Hz(queued, now)).1.batch)
    requires later.log.bootId == k.log.bootId && k.log.unsynced <= later.log.unsynced
    requires |k.log.unsynced| >= 100 || later.log.unsynced == k.log.unsynced
    ensures ConfirmsFront(c, later, Vehicle(OnLogAck(LogAckMessage(true, c.vehicleId, k.log.bootId, Some(upTo)), at)))
  {
    UploadsIff(c, k, queued, now);
    L.SliceMax(Next(c, k, Sync1Hz(queued, now)).1.batch);
  }
}
