/** Runs in which overlapping cloud requests upset the fencing order, followed to what
    the vehicle answers. */
module FencingRaces {
  import opened Wrappers
  import opened Contract
  import opened KernelSpec
  import opened Fencing
  import Session
  import D = Deadman
  import Dedup
  import KernelDedup
  import Safety = KernelSafety

  lemma {:induction false} OneMore(c: Config, s: System, steps: seq<Fencing.Step>, st: Fencing.Step)
    requires Possible(c, s, steps) && Enabled(After(c, s, steps), st)
    ensures RunsTo(c, s, steps + [st], Do(c, After(c, s, steps), st))
    decreases |steps|
  {
    if steps == [] {
      assert steps + [st] == [st] && [st][1..] == [];
    } else {
      OneMore(c, Do(c, s, steps[0]), steps[1..], st);
      assert (steps + [st])[1..] == steps[1..] + [st];
    }
  }

  lemma ReachStart(c: Config, u: Setup)
    ensures Reachable(c, Start(u))
  {
    assert RunsTo(c, Start(u), [], Start(u));
  }

  lemma ReachStep(c: Config, s: System, st: Fencing.Step)
    requires Reachable(c, s) && Enabled(s, st)
    ensures Reachable(c, Do(c, s, st))
  {
    var u, steps :| RunsTo(c, Start(u), steps, s);
    OneMore(c, Start(u), steps, st);
  }

  /** A step of the session protocol that decides no stop. */
  lemma ReachSession(c: Config, s: System, d: D.Step, w: D.World)
    requires Reachable(c, s) && D.Enabled(s.world, d) && w == D.Do(s.world, d) && w.stops == s.world.stops
    ensures Reachable(c, s.(world := w))
  {
    ReachStep(c, s, OnSession(d));
    assert Do(c, s, OnSession(d)) == s.(world := w);
  }

  /** What a validated dispatch publishes when nothing intervenes any more. */
  function Finished(c: Config, s: System, d: Dispatch): Issue {
    var second := LookUp(s.world);
    Issue(CommandEnvelope(c, d.draft, TokenTime(second, s.world.now), s.world.now), Command(d.session, second))
  }

  lemma FinishDispatch(c: Config, s: System, id: nat)
    requires Reachable(c, s) && id in s.dispatches && s.dispatches[id].Validated?
    ensures Reachable(c, s.(dispatches := s.dispatches - {id}, sent := s.sent + {Finished(c, s, s.dispatches[id])}))
  {
    ReachStep(c, s, ReadStamp(id));
    var a := Do(c, s, ReadStamp(id));
    ReachStep(c, a, Publish(id));
    assert a.dispatches - {id} == s.dispatches - {id};
  }

  /** The E-STOP a session sends with its own stamp. */
  function OwnStop(c: Config, s: System, commandId: string): Issue
    requires s.world.lock.Some?
  {
    var stamp := s.world.lock.value.issuedAt;
    Issue(CommandEnvelope(c, Draft(commandId, Plain(E_STOP)), stamp, s.world.now),
          Command(Newest(s.world), Found(Newest(s.world), stamp)))
  }

  /** The holder's E-STOP, dispatched without interruption. */
  lemma SendStop(c: Config, s: System, id: nat, op: string, token: string, commandId: string)
    requires Reachable(c, s) && id !in s.dispatches && Session.Holds(s.world.lock, op, token, s.world.now)
    ensures Reachable(c, s.(sent := s.sent + {OwnStop(c, s, commandId)}))
  {
    var draft := Draft(commandId, Plain(E_STOP));
    ReachStep(c, s, Validate(id, op, token, draft));
    var a := Do(c, s, Validate(id, op, token, draft));
    FinishDispatch(c, a, id);
    assert a.dispatches - {id} == s.dispatches;
  }

  /** The first stop delivered to a kernel that has answered nothing yet. */
  lemma DeliverFirst(c: Config, s: System, i: Issue)
    requires Reachable(c, s) && i in s.sent && i.envelope.payload == Plain(E_STOP) && i.envelope.vehicleId == c.vehicleId
    requires s.kernel.dedup == Dedup.EMPTY && i.envelope.tokenIssuedAt >= s.kernel.newestToken
    ensures var t := Do(c, s, Deliver(CommandTopic, i, 0));
            && Reachable(c, t) && t.world == s.world && t.sent == s.sent && t.dispatches == s.dispatches
            && t.reached == s.reached + {i}
            && t.kernel.newestToken == i.envelope.tokenIssuedAt
            && (forall cid :: cid in t.kernel.dedup.acks ==> cid == i.envelope.commandId)
  {
    var step := OnCommand(CommandTopic, Signed(i.envelope), 0);
    ReachStep(c, s, Deliver(CommandTopic, i, 0));
    Safety.StepToken(c, s.kernel, step);
    KernelDedup.StepAnswers(c, s.kernel, step);
  }

  /** A stop sent by the living holder, with its own session's stamp, that the vehicle
      refuses for its token. */
  ghost predicate HolderRefused(c: Config, s: System, op: string, token: string, i: Issue, at: nat) {
    && Reachable(c, s) && Session.Holds(s.world.lock, op, token, s.world.now)
    && i in s.sent && i.envelope.payload == Plain(E_STOP)
    && i.origin == Command(Newest(s.world), Found(Newest(s.world), s.world.lock.value.issuedAt))
    && AnswerTo(c, s.kernel, CommandTopic, i.envelope, at) == [Nacked(i.envelope.commandId, INVALID_TOKEN)]
  }

  /** Two handovers written in the opposite order of their stamps: Ann's is stamped
      first and written last, Bob's E-STOP has reached the vehicle in between, and Ann,
      who holds the vehicle, has hers refused. */
  lemma ReorderedGrantsFenceHolder(c: Config, u: Setup, at: nat)
    ensures exists s, i :: HolderRefused(c, s, "ann", "a", i, at)
  {
    var s0 := Start(u);
    ReachStart(c, u);
    var w1 := D.Do(s0.world, D.BeginHandover(0, 0, "ann", "a"));
    ReachSession(c, s0, D.BeginHandover(0, 0, "ann", "a"), w1);
    var w2 := D.Do(w1, D.Tick(u.now + 1));
    ReachSession(c, s0.(world := w1), D.Tick(u.now + 1), w2);
    var w4 := BobHandedOver(c, s0.(world := w2));
    var s6 := BobIsHeard(c, s0.(world := w4));
    var w7 := D.Do(w4, D.Run(0));
    ReachSession(c, s6, D.Run(0), w7);
    RefuseHolder(c, s6.(world := w7), "ann", "a", at);
  }

  /** A handover to Bob, stamped and written at once. */
  lemma BobHandedOver(c: Config, s: System) returns (w: D.World)
    requires Reachable(c, s) && 1 !in s.world.pending && "b" !in s.world.minted
    ensures Reachable(c, s.(world := w))
    ensures w == HandedToBob(s.world)
  {
    var x := D.Do(s.world, D.BeginHandover(1, 0, "bob", "b"));
    w := HandedToBob(s.world);
    HandoverWrites(s.world);
    ReachSession(c, s, D.BeginHandover(1, 0, "bob", "b"), x);
    ReachSession(c, s.(world := x), D.Run(1), w);
  }

  function HandedToBob(w: D.World): D.World {
    w.(lock := Some(Session.Lock("bob", "b", w.now, w.now + 6000)), pending := w.pending[1 := D.ArmTimer(0)],
       minted := w.minted + {"b"}, written := w.written + {"b"},
       grants := w.grants + [D.Granted("bob", "b", w.now)], lastWrite := w.now)
  }

  lemma HandoverWrites(w: D.World)
    requires 1 !in w.pending && "b" !in w.minted
    ensures var x := D.Do(w, D.BeginHandover(1, 0, "bob", "b"));
            x.stops == w.stops && 1 in x.pending && D.Do(x, D.Run(1)) == HandedToBob(w)
  {
    var x := D.Do(w, D.BeginHandover(1, 0, "bob", "b"));
    assert x.pending[1 := D.ArmTimer(0)] == w.pending[1 := D.ArmTimer(0)];
  }

  /** Bob, who holds the vehicle, is the first to be heard by it. */
  lemma BobIsHeard(c: Config, s: System) returns (t: System)
    requires Reachable(c, s) && Session.Holds(s.world.lock, "bob", "b", s.world.now)
    requires s.kernel.dedup == Dedup.EMPTY && s.kernel.newestToken == 0 && 9 !in s.dispatches
    ensures Reachable(c, t) && t.world == s.world && t.dispatches == s.dispatches
    ensures t.kernel.newestToken == s.world.lock.value.issuedAt && "late" !in t.kernel.dedup.acks
  {
    SendStop(c, s, 9, "bob", "b", "first");
    var a := s.(sent := s.sent + {OwnStop(c, s, "first")});
    DeliverFirst(c, a, OwnStop(c, s, "first"));
    t := Do(c, a, Deliver(CommandTopic, OwnStop(c, s, "first"), 0));
  }

  /** The holder's E-STOP meets a vehicle that has seen a newer token. */
  lemma RefuseHolder(c: Config, s: System, op: string, token: string, at: nat)
    requires Reachable(c, s) && Session.Holds(s.world.lock, op, token, s.world.now) && 9 !in s.dispatches
    requires s.world.lock.value.issuedAt < s.kernel.newestToken && "late" !in s.kernel.dedup.acks
    ensures exists t, i :: HolderRefused(c, t, op, token, i, at)
  {
    SendStop(c, s, 9, op, token, "late");
    var t := s.(sent := s.sent + {OwnStop(c, s, "late")});
    FencedExactly(c, t.kernel, CommandTopic, OwnStop(c, s, "late").envelope, at);
    assert HolderRefused(c, t, op, token, OwnStop(c, s, "late"), at);
  }

  /** An expiry between a command's two reads: Ann's E-STOP passes the token check, her
      lock runs out, Bob's take-control is stamped, Ann's second read finds nothing and
      falls back to the present, and only then Bob's lock is written.  Once Ann's
      envelope has reached the vehicle, Bob, who holds it, has his E-STOP refused. */
  lemma ExpiredReadFencesHolder(c: Config, u: Setup, at: nat)
    ensures exists s, i :: HolderRefused(c, s, "bob", "b", i, at)
  {
    var s3 := AnnValidated(c, u, "first");
    var w4 := D.Do(s3.world, D.Tick(u.now + 5999));
    ReachSession(c, s3, D.Tick(u.now + 5999), w4);
    var w5 := D.Do(w4, D.BeginTake(1, 0, "bob", "b"));
    ReachSession(c, s3.(world := w4), D.BeginTake(1, 0, "bob", "b"), w5);
    var w6 := D.Do(w5, D.Tick(u.now + 6000));
    ReachSession(c, s3.(world := w5), D.Tick(u.now + 6000), w6);
    var s8 := AnnFallsBack(c, s3.(world := w6));
    var w9 := D.Do(w6, D.Run(1));
    ReachSession(c, s8, D.Run(1), w9);
    RefuseHolder(c, s8.(world := w9), "bob", "b", at);
  }

  /** Ann has taken control and her E-STOP has passed the token check. */
  lemma AnnValidated(c: Config, u: Setup, commandId: string) returns (t: System)
    ensures Reachable(c, t)
    ensures t == Start(u).(world := AnnHolds(u), dispatches := map[0 := Validated(Draft(commandId, Plain(E_STOP)), 0)])
  {
    var s0 := Start(u);
    ReachStart(c, u);
    var w1 := D.Do(s0.world, D.BeginTake(0, 0, "ann", "a"));
    ReachSession(c, s0, D.BeginTake(0, 0, "ann", "a"), w1);
    var w2 := D.Do(w1, D.Run(0));
    assert w2 == AnnHolds(u);
    ReachSession(c, s0.(world := w1), D.Run(0), w2);
    var s2 := s0.(world := w2);
    t := Do(c, s2, Validate(0, "ann", "a", Draft(commandId, Plain(E_STOP))));
    ReachStep(c, s2, Validate(0, "ann", "a", Draft(commandId, Plain(E_STOP))));
  }

  function AnnHolds(u: Setup): D.World {
    D.World(u.slack, u.now, Some(Session.Lock("ann", "a", u.now, u.now + 6000)), map[], map[0 := D.ArmTimer(0)],
            {"a"}, {"a"}, [D.Granted("ann", "a", u.now)], u.now, None, [])
  }

  /** Ann's second read finds nothing; her envelope carries the present and is heard. */
  lemma AnnFallsBack(c: Config, s: System) returns (t: System)
    requires Reachable(c, s) && s.dispatches == map[0 := Validated(Draft("first", Plain(E_STOP)), 0)]
    requires !Session.Live(s.world.lock, s.world.now) && s.kernel.dedup == Dedup.EMPTY && s.kernel.newestToken == 0
    ensures Reachable(c, t) && t.world == s.world && t.dispatches == map[]
    ensures t.kernel.newestToken == s.world.now && "late" !in t.kernel.dedup.acks
  {
    var i := Finished(c, s, s.dispatches[0]);
    FinishDispatch(c, s, 0);
    var b := s.(dispatches := s.dispatches - {0}, sent := s.sent + {i});
    DeliverFirst(c, b, i);
    t := Do(c, b, Deliver(CommandTopic, i, 0));
    assert t.dispatches == map[];
  }

  /** A command checked under a session older than the vehicle's token, and obeyed. */
  ghost predicate Borrowed(c: Config, s: System, i: Issue, at: nat) {
    && Reachable(c, s) && i in s.sent && i.origin.Command? && i.origin.session < |s.world.grants|
    && s.world.grants[i.origin.session].stamp < s.kernel.newestToken
    && AnswerTo(c, s.kernel, CommandTopic, i.envelope, at) == [Acked(i.envelope.commandId)]
  }

  /** A handover between the two reads: Ann's E-STOP, checked under her session, carries
      Bob's stamp and is obeyed after Bob has been heard. */
  lemma BorrowedStampPasses(c: Config, u: Setup, at: nat)
    ensures exists s, i :: Borrowed(c, s, i, at)
  {
    var s3 := AnnValidated(c, u, "late");
    var w4 := D.Do(s3.world, D.Tick(u.now + 1));
    ReachSession(c, s3, D.Tick(u.now + 1), w4);
    var w6 := BobHandedOver(c, s3.(world := w4));
    var s7 := BobIsHeard(c, s3.(world := w6));
    AnnBorrows(c, s7, at);
  }

  /** Ann's second read finds Bob's grant. */
  lemma AnnBorrows(c: Config, s: System, at: nat)
    requires Reachable(c, s) && s.dispatches == map[0 := Validated(Draft("late", Plain(E_STOP)), 0)]
    requires Session.Live(s.world.lock, s.world.now) && s.world.lock.value.issuedAt == s.kernel.newestToken
    requires s.world.grants != [] && s.world.grants[0].stamp < s.kernel.newestToken && "late" !in s.kernel.dedup.acks
    ensures exists t, i :: Borrowed(c, t, i, at)
  {
    var i := Finished(c, s, s.dispatches[0]);
    FinishDispatch(c, s, 0);
    var t := s.(dispatches := s.dispatches - {0}, sent := s.sent + {i});
    StopObeyed(c, t.kernel, i.envelope, at);
    assert Borrowed(c, t, i, at);
  }

  lemma StopObeyed(c: Config, k: Kernel, env: Envelope, at: nat)
    requires env.payload == Plain(E_STOP) && env.commandId !in k.dedup.acks
    requires env.vehicleId == c.vehicleId && env.tokenIssuedAt >= k.newestToken
    ensures AnswerTo(c, k, CommandTopic, env, at) == [Acked(env.commandId)]
  {
    Safety.StopAlwaysEngages(c, k, CommandTopic, env, at);
  }
}
