/** Fencing end to end: the session lock with every Redis operation its own step, the
    command dispatch with its two reads of the lock, the deadman's stops, the signed
    envelopes in flight and the token gate of the vehicle kernel. */
module Fencing {
  import opened Wrappers
  import opened Contract
  import opened KernelSpec
  import Session
  import D = Deadman
  import Safety = KernelSafety

  datatype Draft = Draft(commandId: string, payload: Payload)

  /** What the second read of the lock saw: a living grant (by its place in the order of
      writing, and its stamp), or no living lock after so many grants. */
  datatype Second = Found(grant: nat, stamp: nat) | Nothing(grants: nat)

  /** A command request between its steps: past the token check of grant `session`, and
      then past the read of the token's time. */
  datatype Dispatch =
    | Validated(draft: Draft, session: nat)
    | Stamped(draft: Draft, session: nat, second: Second)

  /** Where an envelope's token time comes from. */
  datatype Origin = Command(session: nat, second: Second) | DeadmanStop(grants: nat)

  datatype Issue = Issue(envelope: Envelope, origin: Origin)

  /** `alarms` are the deadman stops decided (with the number of grants written by
      then), `signed` those already signed.  The network may deliver anything in `sent`
      at any time and any number of times; `reached` is what passed the token gate. */
  datatype System = System(
    world: D.World, dispatches: map<nat, Dispatch>, alarms: seq<nat>, signed: set<nat>,
    sent: set<Issue>, reached: set<Issue>, kernel: Kernel)

  /** The timers' slack, the clocks and the vehicle's seed zone at the start. */
  datatype Setup = Setup(slack: nat, now: nat, bootId: string, zone: ZoneType, boot: nat)

  function Start(u: Setup): System {
    System(D.Start(u.slack, u.now), map[], [], {}, {}, {}, Boot(u.bootId, u.zone, u.boot))
  }

  datatype Step =
    | OnSession(session: D.Step)
    | Validate(id: nat, op: string, token: string, draft: Draft)
    | ReadStamp(id: nat)
    | Publish(id: nat)
    | SignStop(k: nat, commandId: string)
    | Deliver(topic: Topic, issue: Issue, at: nat)
    | OnVehicle(step: KernelSpec.Step)

  predicate Enabled(s: System, st: Step) {
    match st
    case OnSession(d) => D.Enabled(s.world, d)
    case Validate(id, _, _, _) => id !in s.dispatches
    case ReadStamp(id) => id in s.dispatches && s.dispatches[id].Validated?
    case Publish(id) => id in s.dispatches && s.dispatches[id].Stamped?
    case SignStop(k, _) => k < |s.alarms| && k !in s.signed
    case Deliver(_, i, _) => i in s.sent
    case OnVehicle(k) => !(k.OnCommand? && k.command.Signed?)
  }

  function CommandEnvelope(c: Config, d: Draft, stamp: nat, now: nat): Envelope {
    Envelope(d.commandId, c.vehicleId, InferMode(d.payload.Action()), stamp, now,
             if d.payload.Action() == E_STOP then 5000 else 2000, d.payload)
  }

  function StopEnvelope(c: Config, commandId: string, now: nat): Envelope {
    Envelope(commandId, c.vehicleId, MODE1, now, now, 5000, Plain(SAFE_STOP))
  }

  /** The place of the grant written last. */
  function Newest(w: D.World): nat {
    if w.grants == [] then 0 else |w.grants| - 1
  }

  function LookUp(w: D.World): Second {
    if Session.Live(w.lock, w.now) then Found(Newest(w), w.lock.value.issuedAt) else Nothing(|w.grants|)
  }

  /** Without a living lock the token time falls back to the present. */
  function TokenTime(second: Second, now: nat): nat {
    if second.Found? then second.stamp else now
  }

  function Do(c: Config, s: System, st: Step): System
    requires Enabled(s, st)
  {
    match st
    case OnSession(d) =>
      var w := D.Do(s.world, d);
      s.(world := w, alarms := if w.stops != s.world.stops then s.alarms + [|w.grants|] else s.alarms)
    case Validate(id, op, token, draft) =>
      if Session.Holds(s.world.lock, op, token, s.world.now)
      then s.(dispatches := s.dispatches[id := Validated(draft, Newest(s.world))])
      else s
    case ReadStamp(id) =>
      var d := s.dispatches[id];
      s.(dispatches := s.dispatches[id := Stamped(d.draft, d.session, LookUp(s.world))])
    case Publish(id) =>
      var d := s.dispatches[id];
      var env := CommandEnvelope(c, d.draft, TokenTime(d.second, s.world.now), s.world.now);
      s.(dispatches := s.dispatches - {id}, sent := s.sent + {Issue(env, Command(d.session, d.second))})
    case SignStop(k, commandId) =>
      s.(signed := s.signed + {k},
         sent := s.sent + {Issue(StopEnvelope(c, commandId, s.world.now), DeadmanStop(s.alarms[k]))})
    case Deliver(topic, i, at) =>
      var step := OnCommand(topic, Signed(i.envelope), at);
      s.(kernel := Next(c, s.kernel, step).0,
         reached := if Safety.TokenPassed(c, s.kernel, step) then s.reached + {i} else s.reached)
    case OnVehicle(k) => s.(kernel := Next(c, s.kernel, k).0)
  }

  // ------------------------------------------------------------------
  // The invariant
  // ------------------------------------------------------------------

  /** Nothing has lived since so many grants had been written. */
  predicate DeadSince(w: D.World, grants: nat) {
    grants <= |w.grants| && (grants == |w.grants| ==> !Session.Live(w.lock, w.now))
  }

  /** The second read came after the first and saw what it says. */
  predicate SecondOk(w: D.World, session: nat, second: Second) {
    match second
    case Found(g, stamp) => session <= g < |w.grants| && w.grants[g].stamp == stamp
    case Nothing(n) => session < n && DeadSince(w, n)
  }

  predicate DispatchOk(w: D.World, d: Dispatch) {
    match d
    case Validated(_, session) => session < |w.grants|
    case Stamped(_, session, second) => SecondOk(w, session, second)
  }

  predicate OriginOk(w: D.World, o: Origin, tokenTime: nat) {
    match o
    case Command(session, second) => SecondOk(w, session, second) && (second.Found? ==> tokenTime == second.stamp)
    case DeadmanStop(n) => DeadSince(w, n)
  }

  predicate IssueOk(c: Config, w: D.World, i: Issue) {
    && i.envelope.vehicleId == c.vehicleId && i.envelope.tokenIssuedAt <= w.now
    && OriginOk(w, i.origin, i.envelope.tokenIssuedAt)
  }

  /** The vehicle's newest token is the greatest that reached it. */
  predicate RegisterOk(s: System) {
    && (forall i :: i in s.reached ==> i in s.sent && i.envelope.tokenIssuedAt <= s.kernel.newestToken)
    && (s.kernel.newestToken == 0 || exists i :: i in s.reached && i.envelope.tokenIssuedAt == s.kernel.newestToken)
  }

  ghost predicate Inv(c: Config, s: System) {
    && D.Inv(s.world)
    && (forall id :: id in s.dispatches ==> DispatchOk(s.world, s.dispatches[id]))
    && (forall k :: 0 <= k < |s.alarms| ==> DeadSince(s.world, s.alarms[k]))
    && (forall i :: i in s.sent ==> IssueOk(c, s.world, i))
    && RegisterOk(s)
  }

  /** What later worlds keep: grants are only added, time does not go back, and without a
      new grant nothing comes back to life. */
  predicate Later(w: D.World, x: D.World) {
    && w.grants <= x.grants && w.now <= x.now
    && (x.grants == w.grants && !Session.Live(w.lock, w.now) ==> !Session.Live(x.lock, x.now))
  }

  lemma WorldStep(w: D.World, d: D.Step)
    requires D.Inv(w) && D.Enabled(w, d)
    ensures var x := D.Do(w, d);
            && D.Inv(x) && Later(w, x)
            && (x.stops != w.stops ==> x.grants == w.grants && !Session.Live(x.lock, x.now))
  {
    D.StepKeeps(w, d);
  }

  lemma DispatchStays(w: D.World, x: D.World, d: Dispatch)
    requires Later(w, x) && DispatchOk(w, d)
    ensures DispatchOk(x, d)
  {
  }

  lemma IssueStays(c: Config, w: D.World, x: D.World, i: Issue)
    requires Later(w, x) && IssueOk(c, w, i)
    ensures IssueOk(c, x, i)
  {
  }

  lemma SessionKeeps(c: Config, s: System, d: D.Step)
    requires Inv(c, s) && D.Enabled(s.world, d)
    ensures Inv(c, Do(c, s, OnSession(d)))
  {
    var t := Do(c, s, OnSession(d));
    WorldStep(s.world, d);
    forall id | id in t.dispatches ensures DispatchOk(t.world, t.dispatches[id]) {
      DispatchStays(s.world, t.world, s.dispatches[id]);
    }
    forall k | 0 <= k < |t.alarms| ensures DeadSince(t.world, t.alarms[k]) {
      if k < |s.alarms| { assert DeadSince(s.world, s.alarms[k]); }
    }
    forall i | i in t.sent ensures IssueOk(c, t.world, i) { IssueStays(c, s.world, t.world, i); }
    assert RegisterOk(t) by { SameRegister(s, t); }
  }

  lemma SameRegister(s: System, t: System)
    requires RegisterOk(s) && t.reached == s.reached && s.sent <= t.sent && t.kernel.newestToken == s.kernel.newestToken
    ensures RegisterOk(t)
  {
  }

  lemma DispatchKeeps(c: Config, s: System, st: Step)
    requires Inv(c, s) && Enabled(s, st) && (st.Validate? || st.ReadStamp? || st.Publish? || st.SignStop?)
    ensures Inv(c, Do(c, s, st))
  {
    var t := Do(c, s, st);
    if st.ReadStamp? { assert DispatchOk(s.world, s.dispatches[st.id]); }
    if st.Publish? { assert DispatchOk(s.world, s.dispatches[st.id]); }
    SameRegister(s, t);
  }

  lemma VehicleKeeps(c: Config, s: System, st: Step)
    requires Inv(c, s) && Enabled(s, st) && (st.Deliver? || st.OnVehicle?)
    ensures Inv(c, Do(c, s, st)) && s.kernel.newestToken <= Do(c, s, st).kernel.newestToken
  {
    var t := Do(c, s, st);
    if st.OnVehicle? {
      Safety.StepToken(c, s.kernel, st.step);
      SameRegister(s, t);
    } else {
      var step := OnCommand(st.topic, Signed(st.issue.envelope), st.at);
      Safety.StepToken(c, s.kernel, step);
      if Safety.TokenPassed(c, s.kernel, step) { assert st.issue in t.reached; } else { SameRegister(s, t); }
    }
  }

  lemma StepKeeps(c: Config, s: System, st: Step)
    requires Inv(c, s) && Enabled(s, st)
    ensures Inv(c, Do(c, s, st)) && s.kernel.newestToken <= Do(c, s, st).kernel.newestToken
  {
    match st
    case OnSession(d) => SessionKeeps(c, s, d);
    case Deliver(_, _, _) => VehicleKeeps(c, s, st);
    case OnVehicle(_) => VehicleKeeps(c, s, st);
    case _ => DispatchKeeps(c, s, st);
  }

  // ------------------------------------------------------------------
  // Runs
  // ------------------------------------------------------------------

  predicate Possible(c: Config, s: System, steps: seq<Step>)
    decreases |steps|
  {
    steps == [] || (Enabled(s, steps[0]) && Possible(c, Do(c, s, steps[0]), steps[1..]))
  }

  function After(c: Config, s: System, steps: seq<Step>): System
    requires Possible(c, s, steps)
    decreases |steps|
  {
    if steps == [] then s else After(c, Do(c, s, steps[0]), steps[1..])
  }

  lemma {:induction false} RunKeeps(c: Config, s: System, steps: seq<Step>)
    requires Inv(c, s) && Possible(c, s, steps)
    ensures Inv(c, After(c, s, steps)) && s.kernel.newestToken <= After(c, s, steps).kernel.newestToken
    decreases |steps|
  {
    if steps != [] {
      StepKeeps(c, s, steps[0]);
      RunKeeps(c, Do(c, s, steps[0]), steps[1..]);
    }
  }

  predicate RunsTo(c: Config, s: System, steps: seq<Step>, t: System) {
    Possible(c, s, steps) && t == After(c, s, steps)
  }

  /** The state is one the system can come to. */
  ghost predicate Reachable(c: Config, s: System) {
    exists u, steps :: RunsTo(c, Start(u), steps, s)
  }

  lemma StartInv(c: Config, u: Setup)
    ensures Inv(c, Start(u))
  {
    D.StartInv(u.slack, u.now);
  }

  lemma ReachableInv(c: Config, s: System)
    requires Reachable(c, s)
    ensures Inv(c, s)
  {
    var u, steps :| RunsTo(c, Start(u), steps, s);
    StartInv(c, u);
    RunKeeps(c, Start(u), steps);
  }

  // ------------------------------------------------------------------
  // The living holder
  // ------------------------------------------------------------------

  /** An issue that overtakes the living session: it carries the later stamp of a grant
      written before it; or its second read fell after an expiry and before the living
      grant was written, and its fallback is later than that grant's stamp; or it is a
      deadman stop decided before that grant was written and signed after its stamp. */
  predicate Overtakes(w: D.World, i: Issue) {
    var last := Newest(w);
    w.lock.Some? && last < |w.grants| &&
    match i.origin
    case Command(_, Found(g, _)) => g < last && w.grants[g].stamp > w.grants[last].stamp
    case Command(_, Nothing(n)) => n <= last && i.envelope.tokenIssuedAt > w.grants[last].stamp
    case DeadmanStop(n) => n <= last && i.envelope.tokenIssuedAt > w.grants[last].stamp
  }

  lemma OvertakesIff(c: Config, w: D.World, i: Issue)
    requires D.Inv(w) && IssueOk(c, w, i) && Session.Live(w.lock, w.now)
    ensures Overtakes(w, i) <==> i.envelope.tokenIssuedAt > w.lock.value.issuedAt
  {
  }

  /** What the vehicle answers. */
  function AnswerTo(c: Config, k: Kernel, topic: Topic, env: Envelope, at: nat): seq<Ack> {
    Next(c, k, OnCommand(topic, Signed(env), at)).1.acks
  }

  /** Fresh, for this vehicle and in time: only the token gate and what follows decide. */
  predicate Arrives(c: Config, k: Kernel, topic: Topic, env: Envelope, at: nat) {
    && env.vehicleId == c.vehicleId && env.commandId !in k.dedup.acks
    && (IsStop(topic, env) || at <= env.timestamp + env.ttlMs)
  }

  lemma FencedExactly(c: Config, k: Kernel, topic: Topic, env: Envelope, at: nat)
    requires Arrives(c, k, topic, env, at)
    ensures AnswerTo(c, k, topic, env, at) == [Nacked(env.commandId, INVALID_TOKEN)] <==> env.tokenIssuedAt < k.newestToken
  {
    var v := Judge(c, Contact(k, at), topic, env, at);
    assert v == Refuse(INVALID_TOKEN) <==> env.tokenIssuedAt < k.newestToken;
    TokenAnswerIff(Contact(k, at), env, at, v);
  }

  lemma TokenAnswerIff(k: Kernel, env: Envelope, at: nat, v: Verdict)
    requires !v.Replay?
    ensures Rule(k, env, at, v).answer == Nacked(env.commandId, INVALID_TOKEN) <==> v == Refuse(INVALID_TOKEN)
  {
  }

  /** The living holder is fenced off at the vehicle if and only if an issue that has
      reached the vehicle overtakes its session: over every run, every interleaving of
      the lock's operations and every delay between a request's steps. */
  lemma HolderFencedIff(c: Config, s: System, topic: Topic, env: Envelope, at: nat)
    requires Reachable(c, s) && Session.Live(s.world.lock, s.world.now)
    requires env.tokenIssuedAt == s.world.lock.value.issuedAt && Arrives(c, s.kernel, topic, env, at)
    ensures AnswerTo(c, s.kernel, topic, env, at) == [Nacked(env.commandId, INVALID_TOKEN)] <==>
            exists i :: i in s.reached && Overtakes(s.world, i)
  {
    ReachableInv(c, s);
    FencedExactly(c, s.kernel, topic, env, at);
    forall i | i in s.reached ensures Overtakes(s.world, i) <==> i.envelope.tokenIssuedAt > env.tokenIssuedAt {
      OvertakesIff(c, s.world, i);
    }
  }

  // ------------------------------------------------------------------
  // Earlier sessions
  // ------------------------------------------------------------------

  /** Once a later token has reached the vehicle, an envelope sent under an earlier
      session is let past the token gate if and only if its second read no longer saw
      that session and gave a time at least as new as the vehicle's token; everything
      sent with its own session's stamp is refused. */
  lemma EarlierSessionFencedIff(c: Config, s: System, i: Issue, topic: Topic, at: nat)
    requires Reachable(c, s) && i in s.sent && i.origin.Command?
    requires i.origin.session < |s.world.grants| && s.world.grants[i.origin.session].stamp < s.kernel.newestToken
    requires Arrives(c, s.kernel, topic, i.envelope, at)
    ensures AnswerTo(c, s.kernel, topic, i.envelope, at) != [Nacked(i.envelope.commandId, INVALID_TOKEN)] <==>
            !Own(i.origin.session, i.origin.second) && i.envelope.tokenIssuedAt >= s.kernel.newestToken
  {
    ReachableInv(c, s);
    assert IssueOk(c, s.world, i);
    FencedExactly(c, s.kernel, topic, i.envelope, at);
  }

  /** The run leaves dispatch `id` between its two reads. */
  predicate Spares(steps: seq<Step>, id: nat) {
    forall i :: 0 <= i < |steps| ==> steps[i] != ReadStamp(id)
  }

  lemma {:induction false} DispatchWaits(c: Config, s: System, steps: seq<Step>, id: nat)
    requires Inv(c, s) && Possible(c, s, steps) && Spares(steps, id)
    requires id in s.dispatches && s.dispatches[id].Validated?
    ensures var t := After(c, s, steps);
            && id in t.dispatches && t.dispatches[id] == s.dispatches[id] && Later(s.world, t.world)
    decreases |steps|
  {
    if steps != [] {
      var u := Do(c, s, steps[0]);
      assert steps[0] != ReadStamp(id);
      if steps[0].OnSession? { WorldStep(s.world, steps[0].session); }
      StepKeeps(c, s, steps[0]);
      assert forall i :: 0 <= i < |steps[1..]| ==> steps[1..][i] == steps[i + 1];
      DispatchWaits(c, u, steps[1..], id);
    }
  }

  /** Whatever happens between a command's two reads of the lock: the second one finds
      the session the first one checked if and only if no grant was written in between
      and the session still lives. */
  lemma OwnStampIff(c: Config, s: System, id: nat, op: string, token: string, draft: Draft, between: seq<Step>)
    requires Reachable(c, s) && Enabled(s, Validate(id, op, token, draft))
    requires Session.Holds(s.world.lock, op, token, s.world.now)
    requires var v := Do(c, s, Validate(id, op, token, draft)); Possible(c, v, between) && Spares(between, id)
    ensures var t := After(c, Do(c, s, Validate(id, op, token, draft)), between);
            && Enabled(t, ReadStamp(id))
            && var d := Do(c, t, ReadStamp(id)).dispatches[id];
               (Own(d.session, d.second) <==>
                t.world.grants == s.world.grants && Session.Live(t.world.lock, t.world.now))
  {
    ReachableInv(c, s);
    var v := Do(c, s, Validate(id, op, token, draft));
    StepKeeps(c, s, Validate(id, op, token, draft));
    DispatchWaits(c, v, between, id);
    RunKeeps(c, v, between);
    LookUpOwnIff(s.world, After(c, v, between).world);
  }

  lemma LookUpOwnIff(w: D.World, x: D.World)
    requires D.Inv(w) && D.Inv(x) && Later(w, x) && Session.Live(w.lock, w.now)
    ensures Own(Newest(w), LookUp(x)) <==> x.grants == w.grants && Session.Live(x.lock, x.now)
  {
  }

  /** Once the vehicle has seen a later token, an envelope with an earlier one is refused
      at once and after any further run of cloud and vehicle: it moves nothing but
      contact and the stored answer. */
  lemma FencedForever(c: Config, s: System, steps: seq<Step>, topic: Topic, env: Envelope, at: nat)
    requires Inv(c, s) && Possible(c, s, steps)
    requires env.tokenIssuedAt < s.kernel.newestToken
    requires env.commandId !in After(c, s, steps).kernel.dedup.acks
    ensures var k := After(c, s, steps).kernel;
            var (k', e) := Next(c, k, OnCommand(topic, Signed(env), at));
            && e.ipc == [] && e.logged == [] && e.statuses == []
            && k' == Contact(k, at).(dedup := k'.dedup)
            && (exists r :: e.acks == [Nacked(env.commandId, r)])
  {
    RunKeeps(c, s, steps);
    OldTokenMovesNothing(c, After(c, s, steps).kernel, topic, env, at);
  }

  lemma OldTokenMovesNothing(c: Config, k: Kernel, topic: Topic, env: Envelope, at: nat)
    requires env.tokenIssuedAt < k.newestToken && env.commandId !in k.dedup.acks
    ensures var (k', e) := Next(c, k, OnCommand(topic, Signed(env), at));
            && e.ipc == [] && e.logged == [] && e.statuses == []
            && k' == Contact(k, at).(dedup := k'.dedup)
            && (exists r :: e.acks == [Nacked(env.commandId, r)])
  {
    var v := Judge(c, Contact(k, at), topic, env, at);
    assert v.Refuse?;
    assert Next(c, k, OnCommand(topic, Signed(env), at)).1.acks == [Nacked(env.commandId, v.reason)];
  }

  /** After one envelope has passed, another is refused for its token if and only if its
      token is strictly older: grants of one millisecond are not told apart. */
  lemma FencedIff(c: Config, k: Kernel, st: KernelSpec.Step, topic: Topic, env: Envelope, at: nat)
    requires Safety.TokenPassed(c, k, st)
    requires Arrives(c, Next(c, k, st).0, topic, env, at)
    ensures AnswerTo(c, Next(c, k, st).0, topic, env, at) == [Nacked(env.commandId, INVALID_TOKEN)] <==>
            env.tokenIssuedAt < st.command.envelope.tokenIssuedAt
  {
    Safety.StepToken(c, k, st);
    FencedExactly(c, Next(c, k, st).0, topic, env, at);
  }

  // ------------------------------------------------------------------
  // Stops
  // ------------------------------------------------------------------

  /** A fresh stop latches the vehicle and is acknowledged if and only if nothing newer
      has reached it, whatever the stop's age, and whether an operator or the deadman
      sent it. */
  lemma StopEngagesIff(c: Config, s: System, i: Issue, topic: Topic, at: nat)
    requires Reachable(c, s) && i in s.sent && IsStop(topic, i.envelope) && i.envelope.commandId !in s.kernel.dedup.acks
    ensures var (k, e) := Next(c, s.kernel, OnCommand(topic, Signed(i.envelope), at));
            (k.latched && e.acks == [Acked(i.envelope.commandId)]) <==>
            forall r :: r in s.reached ==> r.envelope.tokenIssuedAt <= i.envelope.tokenIssuedAt
  {
    ReachableInv(c, s);
    assert IssueOk(c, s.world, i);
    FencedExactly(c, s.kernel, topic, i.envelope, at);
    if i.envelope.tokenIssuedAt >= s.kernel.newestToken {
      Safety.StopAlwaysEngages(c, s.kernel, topic, i.envelope, at);
    }
  }

  /** A deadman stop is newer than everything sent before it, so it engages unless
      something newer overtakes it on the way. */
  lemma DeadmanStopIsNewest(c: Config, s: System, k: nat, commandId: string)
    requires Reachable(c, s) && Enabled(s, SignStop(k, commandId))
    ensures var t := Do(c, s, SignStop(k, commandId));
            var i := Issue(StopEnvelope(c, commandId, s.world.now), DeadmanStop(s.alarms[k]));
            && i in t.sent && IsStop(CommandTopic, i.envelope)
            && (forall r :: r in t.sent ==> r.envelope.tokenIssuedAt <= i.envelope.tokenIssuedAt)
            && t.kernel.newestToken <= i.envelope.tokenIssuedAt
  {
    ReachableInv(c, s);
    StepKeeps(c, s, SignStop(k, commandId));
  }

  // ------------------------------------------------------------------
  // Requests that keep order
  // ------------------------------------------------------------------

  /** The second read still saw the session the first one checked. */
  predicate Own(session: nat, second: Second) {
    second.Found? && second.grant == session
  }

  /** A grant is written no older than any grant written or token sent before; a command
      is published with the stamp of the session it was checked against; a deadman stop
      is signed while nothing lives. */
  predicate KeepsOrder(s: System, st: Step) {
    match st
    case OnSession(d) =>
      && D.Enabled(s.world, d)
      && (d.Run? && D.Writes(s.world.pending[d.id]) && D.Do(s.world, d).grants != s.world.grants ==>
            NotOlder(s, s.world.pending[d.id].issuedAt))
    case Publish(id) =>
      id in s.dispatches && s.dispatches[id].Stamped? && Own(s.dispatches[id].session, s.dispatches[id].second)
    case SignStop(_, _) => !Session.Live(s.world.lock, s.world.now)
    case _ => true
  }

  predicate NotOlder(s: System, stamp: nat) {
    && (forall i :: 0 <= i < |s.world.grants| ==> s.world.grants[i].stamp <= stamp)
    && (forall i :: i in s.sent ==> i.envelope.tokenIssuedAt <= stamp)
  }

  /** A grant written in the millisecond it is stamped always is: uninterrupted cloud
      requests on one nondecreasing clock keep order. */
  lemma WrittenWhenStamped(c: Config, s: System)
    requires Inv(c, s)
    ensures NotOlder(s, s.world.now)
  {
  }

  predicate AllKeepOrder(c: Config, s: System, steps: seq<Step>)
    requires Possible(c, s, steps)
    decreases |steps|
  {
    steps == [] || (KeepsOrder(s, steps[0]) && AllKeepOrder(c, Do(c, s, steps[0]), steps[1..]))
  }

  predicate Sorted(grants: seq<D.Granted>) {
    forall i, j :: 0 <= i < j < |grants| ==> grants[i].stamp <= grants[j].stamp
  }

  /** Grants are written in the order of their stamps, and nothing sent is newer than the
      living session. */
  predicate InOrder(s: System) {
    && Sorted(s.world.grants)
    && (Session.Live(s.world.lock, s.world.now) ==>
          forall i :: i in s.sent ==> i.envelope.tokenIssuedAt <= s.world.lock.value.issuedAt)
    && (forall i :: i in s.sent && i.origin.Command? ==> Own(i.origin.session, i.origin.second))
  }

  lemma GrantsStep(w: D.World, d: D.Step)
    requires D.Enabled(w, d)
    ensures var x := D.Do(w, d);
            if x.grants == w.grants then Session.Live(x.lock, x.now) ==> w.lock.Some? && x.lock.value.issuedAt == w.lock.value.issuedAt
            else
              && d.Run? && d.id in w.pending && D.Writes(w.pending[d.id])
              && x.lock.Some? && x.lock.value.issuedAt == w.pending[d.id].issuedAt
              && |x.grants| == |w.grants| + 1 && x.grants[..|w.grants|] == w.grants
              && x.grants[|w.grants|].stamp == w.pending[d.id].issuedAt
  {
  }

  lemma OrderKept(c: Config, s: System, st: Step)
    requires Inv(c, s) && InOrder(s) && Enabled(s, st) && KeepsOrder(s, st)
    ensures InOrder(Do(c, s, st))
  {
    var t := Do(c, s, st);
    if st.OnSession? {
      WorldStep(s.world, st.session);
      GrantsStep(s.world, st.session);
    } else if st.Publish? {
      assert DispatchOk(s.world, s.dispatches[st.id]);
      PublishedInOrder(s, s.dispatches[st.id].second);
    }
  }

  lemma PublishedInOrder(s: System, second: Second)
    requires D.Inv(s.world) && Sorted(s.world.grants) && second.Found?
    requires second.grant < |s.world.grants| && s.world.grants[second.grant].stamp == second.stamp
    ensures Session.Live(s.world.lock, s.world.now) ==> second.stamp <= s.world.lock.value.issuedAt
  {
  }

  lemma {:induction false} OrderRun(c: Config, s: System, steps: seq<Step>)
    requires Inv(c, s) && InOrder(s) && Possible(c, s, steps) && AllKeepOrder(c, s, steps)
    ensures InOrder(After(c, s, steps))
    decreases |steps|
  {
    if steps != [] {
      StepKeeps(c, s, steps[0]);
      OrderKept(c, s, steps[0]);
      OrderRun(c, Do(c, s, steps[0]), steps[1..]);
    }
  }

  /** When every write, publish and stop of a run keeps order, which each can check when
      it happens, the living holder is never fenced off: nothing that was ever sent is
      newer than its session, a fresh grant is never older than the vehicle's token, and
      every command carries its own session's stamp. */
  lemma HolderNeverFenced(c: Config, u: Setup, steps: seq<Step>)
    requires Possible(c, Start(u), steps) && AllKeepOrder(c, Start(u), steps)
    ensures var s := After(c, Start(u), steps);
            && s.kernel.newestToken <= s.world.now
            && (Session.Live(s.world.lock, s.world.now) ==>
                  && s.kernel.newestToken <= s.world.lock.value.issuedAt
                  && forall i :: i in s.sent ==> i.envelope.tokenIssuedAt <= s.world.lock.value.issuedAt)
            && (forall i :: i in s.sent && i.origin.Command? ==>
                  i.origin.session < |s.world.grants|
                  && i.envelope.tokenIssuedAt == s.world.grants[i.origin.session].stamp)
  {
    StartInv(c, u);
    RunKeeps(c, Start(u), steps);
    OrderRun(c, Start(u), steps);
    var s := After(c, Start(u), steps);
    forall i | i in s.sent && i.origin.Command?
      ensures i.origin.session < |s.world.grants| && i.envelope.tokenIssuedAt == s.world.grants[i.origin.session].stamp
    {
      assert IssueOk(c, s.world, i);
    }
  }
}
