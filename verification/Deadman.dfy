/** One vehicle's session lock under concurrency: any number of service instances, each
    Redis operation and each timer its own step, arbitrary interleavings and delays. */
module Deadman {
  import opened Wrappers
  import opened Session

  /** What an awaiting request does next.  `CheckLock` is a fired deadman timer about
      to re-read the lock. */
  datatype Pending =
    | SetIfFree(inst: nat, op: string, token: string, issuedAt: nat)
    | SetLock(inst: nat, op: string, token: string, issuedAt: nat)
    | ExpireLock(inst: nat)
    | ArmTimer(inst: nat)
    | CheckLock(due: nat)
    | DeleteLock

  /** `timers` maps an instance to its due time; `slack` is how late a due timer may
      be served.  The rest is bookkeeping: tokens minted and written, the grants in the
      order they were written, the last write of the lock, the last arming, and the
      instants at which SAFE_STOP was decided. */
  datatype World = World(
    slack: nat, now: nat, lock: Option<Lock>, timers: map<nat, nat>, pending: map<nat, Pending>,
    minted: set<string>, written: set<string>, grants: seq<Granted>,
    lastWrite: nat, lastArm: Option<Arm>, stops: seq<nat>)

  /** A session as it was written: whose, under which token, stamped when. */
  datatype Granted = Granted(op: string, token: string, stamp: nat)

  datatype Arm = Arm(inst: nat, at: nat)

  function Start(slack: nat, now: nat): World {
    World(slack, now, None, map[], map[], {}, {}, [], 0, None, [])
  }

  datatype Step =
    | Tick(t: nat)
    | BeginTake(id: nat, inst: nat, op: string, token: string)
    | BeginHandover(id: nat, inst: nat, op: string, token: string)
    | BeginHeartbeat(id: nat, inst: nat, op: string, token: string)
    | BeginRevoke(id: nat, op: string)
    | Fire(id: nat, inst: nat)
    | Run(id: nat)

  /** Time may pass a due timer by at most the slack. */
  predicate Prompt(s: World, t: nat) {
    && (forall i :: i in s.timers ==> t <= s.timers[i] + s.slack)
    && (forall id :: id in s.pending && s.pending[id].CheckLock? ==> t <= s.pending[id].due + s.slack)
  }

  predicate Enabled(s: World, st: Step) {
    match st
    case Tick(t) => s.now <= t && Prompt(s, t)
    case BeginTake(id, _, _, token) => id !in s.pending && token !in s.minted
    case BeginHandover(id, _, _, token) => id !in s.pending && token !in s.minted
    case BeginHeartbeat(id, _, _, _) => id !in s.pending
    case BeginRevoke(id, _) => id !in s.pending
    case Fire(id, i) => id !in s.pending && i in s.timers && s.timers[i] <= s.now
    case Run(id) => id in s.pending
  }

  function Do(s: World, st: Step): World
    requires Enabled(s, st)
  {
    match st
    case Tick(t) => s.(now := t)
    case BeginTake(id, i, op, token) =>
      s.(minted := s.minted + {token}, pending := s.pending[id := SetIfFree(i, op, token, s.now)])
    case BeginHandover(id, i, op, token) =>
      s.(minted := s.minted + {token}, pending := s.pending[id := SetLock(i, op, token, s.now)])
    case BeginHeartbeat(id, i, op, token) =>
      if Holds(s.lock, op, token, s.now) then s.(pending := s.pending[id := ExpireLock(i)]) else s
    case BeginRevoke(id, op) =>
      if HeldBy(s.lock, op, s.now) then s.(pending := s.pending[id := DeleteLock]) else s
    case Fire(id, i) => s.(timers := s.timers - {i}, pending := s.pending[id := CheckLock(s.timers[i])])
    case Run(id) => DoRun(s, id, s.pending[id])
  }

  function DoRun(s: World, id: nat, p: Pending): World {
    var gone := s.pending - {id};
    match p
    case SetIfFree(i, op, token, issuedAt) =>
      if Live(s.lock, s.now) then s.(pending := gone)
      else s.(lock := Write(op, token, issuedAt, s.now), pending := s.pending[id := ArmTimer(i)],
              written := s.written + {token}, grants := s.grants + [Granted(op, token, issuedAt)], lastWrite := s.now)
    case SetLock(i, op, token, issuedAt) =>
      s.(lock := Write(op, token, issuedAt, s.now), pending := s.pending[id := ArmTimer(i)],
         written := s.written + {token}, grants := s.grants + [Granted(op, token, issuedAt)], lastWrite := s.now)
    case ExpireLock(i) =>
      s.(lock := Extend(s.lock, s.now), pending := s.pending[id := ArmTimer(i)], lastWrite := s.now)
    case ArmTimer(i) =>
      s.(timers := s.timers[i := s.now + DEADMAN_MS], pending := gone, lastArm := Some(Arm(i, s.now)))
    case CheckLock(_) => s.(pending := gone, stops := if Live(s.lock, s.now) then s.stops else s.stops + [s.now])
    case DeleteLock => s.(lock := None, pending := gone)
  }

  // ------------------------------------------------------------------
  // An uninterrupted call is the service's method
  // ------------------------------------------------------------------

  lemma UninterruptedTake(s: World, id: nat, i: nat, op: string, token: string)
    requires Enabled(s, BeginTake(id, i, op, token))
    ensures var a := Do(s, BeginTake(id, i, op, token));
            var b := Do(a, Run(id));
            && b.lock == WriteIfFree(s.lock, op, token, s.now, s.now)
            && (if Live(s.lock, s.now) then b.pending == s.pending && b.timers == s.timers
                else && id in b.pending
                     && Do(b, Run(id)).timers == s.timers[i := s.now + DEADMAN_MS]
                     && Do(b, Run(id)).pending == s.pending)
  {
  }

  lemma UninterruptedHeartbeat(s: World, id: nat, i: nat, op: string, token: string)
    requires Enabled(s, BeginHeartbeat(id, i, op, token))
    ensures var a := Do(s, BeginHeartbeat(id, i, op, token));
            if !Holds(s.lock, op, token, s.now) then a == s
            else
              && id in a.pending && id in Do(a, Run(id)).pending
              && var c := Do(Do(a, Run(id)), Run(id));
                 c.lock == Extend(s.lock, s.now) && c.timers == s.timers[i := s.now + DEADMAN_MS] && c.pending == s.pending
  {
  }

  lemma UninterruptedHandover(s: World, id: nat, i: nat, op: string, token: string)
    requires Enabled(s, BeginHandover(id, i, op, token))
    ensures var b := Do(Do(s, BeginHandover(id, i, op, token)), Run(id));
            && id in b.pending
            && var c := Do(b, Run(id));
               && c.lock == Write(op, token, s.now, s.now)
               && c.timers == s.timers[i := s.now + DEADMAN_MS] && c.pending == s.pending
  {
  }

  lemma UninterruptedRevoke(s: World, id: nat, op: string)
    requires Enabled(s, BeginRevoke(id, op))
    ensures var a := Do(s, BeginRevoke(id, op));
            if !HeldBy(s.lock, op, s.now) then a == s
            else id in a.pending && Do(a, Run(id)) == s.(lock := None)
  {
  }

  lemma UninterruptedTimer(s: World, id: nat, i: nat)
    requires Enabled(s, Fire(id, i))
    ensures var b := Do(Do(s, Fire(id, i)), Run(id));
            && b.timers == s.timers - {i} && b.lock == s.lock && b.pending == s.pending
            && b.stops == (if Live(s.lock, s.now) then s.stops else s.stops + [s.now])
  {
  }

  // ------------------------------------------------------------------
  // The invariant
  // ------------------------------------------------------------------

  predicate ArmPending(s: World) {
    exists id :: id in s.pending && s.pending[id].ArmTimer?
  }

  predicate CheckPending(s: World, due: nat) {
    exists id :: id in s.pending && s.pending[id] == CheckLock(due)
  }

  /** Some timer is due at least a second after the lock's expiry, or is about to be. */
  predicate Guarded(s: World) {
    Live(s.lock, s.now) ==>
      ArmPending(s) || exists i :: i in s.timers && s.timers[i] >= s.lock.value.expiresAt + 1000
  }

  predicate StoppedIn(s: World, from: nat, to: nat) {
    exists k :: 0 <= k < |s.stops| && from <= s.stops[k] <= to
  }

  /** What became of the last armed timer: waiting, being served, ended in a SAFE_STOP,
      or made moot by a later write whose own timer is still to be armed. */
  predicate Tracked(s: World) {
    s.lastArm.Some? ==>
      var due := s.lastArm.value.at + DEADMAN_MS;
      || (s.lastArm.value.inst in s.timers && s.timers[s.lastArm.value.inst] == due)
      || CheckPending(s, due)
      || StoppedIn(s, due, due + s.slack)
      || ArmPending(s)
  }

  predicate Writes(p: Pending) { p.SetIfFree? || p.SetLock? }

  ghost predicate TokensOk(s: World) {
    && s.written <= s.minted
    && (s.lock.Some? ==> s.lock.value.token in s.written)
    && (forall id :: id in s.pending && Writes(s.pending[id]) ==>
          s.pending[id].token in s.minted && s.pending[id].token !in s.written && s.pending[id].issuedAt <= s.now)
    && (forall i, j :: i in s.pending && j in s.pending && i != j && Writes(s.pending[i]) && Writes(s.pending[j]) ==>
          s.pending[i].token != s.pending[j].token)
  }

  ghost predicate TimesOk(s: World) {
    && (s.lock.Some? ==> s.lock.value.expiresAt <= s.lastWrite + LOCK_TTL_MS && s.lock.value.issuedAt <= s.now)
    && s.lastWrite <= s.now
    && (s.lock.Some? && !ArmPending(s) ==> s.lastArm.Some? && s.lastWrite <= s.lastArm.value.at)
    && (s.lastArm.Some? ==> s.lastArm.value.at <= s.now)
    && (forall i :: i in s.timers ==> s.now <= s.timers[i] + s.slack)
    && (forall id :: id in s.pending && s.pending[id].CheckLock? ==>
          s.pending[id].due <= s.now <= s.pending[id].due + s.slack)
  }

  /** A lock in Redis is the grant written last. */
  ghost predicate GrantsOk(s: World) {
    && (s.lock.Some? ==>
          && s.grants != []
          && s.grants[|s.grants| - 1] == Granted(s.lock.value.op, s.lock.value.token, s.lock.value.issuedAt))
    && (forall i :: 0 <= i < |s.grants| ==> s.grants[i].stamp <= s.now)
  }

  ghost predicate Inv(s: World) {
    TokensOk(s) && TimesOk(s) && GrantsOk(s) && Guarded(s) && Tracked(s)
  }

  lemma StartInv(slack: nat, now: nat)
    ensures Inv(Start(slack, now))
  {
  }

  // ---- existentials survive a step that keeps their witness ----

  lemma ArmStays(s: World, t: World)
    requires ArmPending(s)
    requires forall id :: id in s.pending && s.pending[id].ArmTimer? ==> id in t.pending && t.pending[id] == s.pending[id]
    ensures ArmPending(t)
  {
  }

  lemma CheckStays(s: World, t: World, due: nat)
    requires CheckPending(s, due)
    requires forall id :: id in s.pending && s.pending[id].CheckLock? ==> id in t.pending && t.pending[id] == s.pending[id]
    ensures CheckPending(t, due)
  {
  }

  /** Steps that only add a request, or drop one that is neither arming nor checking,
      and leave lock, timers and clock alone. */
  lemma QuietKeeps(s: World, t: World)
    requires TimesOk(s) && Guarded(s) && Tracked(s)
    requires t == s.(pending := t.pending, minted := t.minted)
    requires forall id :: id in s.pending && (s.pending[id].ArmTimer? || s.pending[id].CheckLock?) ==>
               id in t.pending && t.pending[id] == s.pending[id]
    requires forall id :: id in t.pending && (t.pending[id].ArmTimer? || t.pending[id].CheckLock?) ==>
               id in s.pending && s.pending[id] == t.pending[id]
    ensures TimesOk(t) && Guarded(t) && Tracked(t)
  {
  }

  lemma TickKeeps(s: World, t: nat)
    requires Inv(s) && Enabled(s, Tick(t))
    ensures Inv(Do(s, Tick(t)))
  {
  }

  /** The timer that guards a living lock is not due yet, so it is not the one firing. */
  lemma FireKeeps(s: World, id: nat, i: nat)
    requires Inv(s) && Enabled(s, Fire(id, i))
    ensures Inv(Do(s, Fire(id, i)))
  {
    var t := Do(s, Fire(id, i));
    assert t.pending[id] == CheckLock(s.timers[i]);
    if ArmPending(s) { ArmStays(s, t); }
    if ArmPending(t) {
      var x :| x in t.pending && t.pending[x].ArmTimer?;
      assert s.pending[x].ArmTimer?;
    }
    if s.lastArm.Some? {
      var due := s.lastArm.value.at + DEADMAN_MS;
      if CheckPending(s, due) { CheckStays(s, t, due); }
    }
    if Live(t.lock, t.now) && !ArmPending(s) {
      var g :| g in s.timers && s.timers[g] >= s.lock.value.expiresAt + 1000;
      assert g in t.timers && t.timers[g] == s.timers[g];
    }
  }

  lemma WriteKeeps(s: World, id: nat)
    requires Inv(s) && id in s.pending
    requires Writes(s.pending[id]) && (s.pending[id].SetIfFree? ==> !Live(s.lock, s.now))
    ensures Inv(Do(s, Run(id)))
  {
    var t := Do(s, Run(id));
    assert t.pending[id].ArmTimer?;
    assert ArmPending(t);
  }

  lemma ExtendKeeps(s: World, id: nat)
    requires Inv(s) && id in s.pending && s.pending[id].ExpireLock?
    ensures Inv(Do(s, Run(id)))
  {
    var t := Do(s, Run(id));
    assert t.pending[id].ArmTimer?;
    assert ArmPending(t);
  }

  lemma ArmKeeps(s: World, id: nat)
    requires Inv(s) && id in s.pending && s.pending[id].ArmTimer?
    ensures Inv(Do(s, Run(id)))
  {
    var t := Do(s, Run(id));
    var i := s.pending[id].inst;
    assert t.timers[i] == s.now + DEADMAN_MS;
    if t.lock.Some? { assert t.timers[i] >= t.lock.value.expiresAt + 1000; }
  }

  /** The check of the last armed timer: the lock is gone, or was written since. */
  lemma CheckKeeps(s: World, id: nat)
    requires Inv(s) && id in s.pending && s.pending[id].CheckLock?
    ensures Inv(Do(s, Run(id)))
  {
    var t := Do(s, Run(id));
    if ArmPending(s) { ArmStays(s, t); }
    if ArmPending(t) { ArmStays(t, s); }
    assert s.stops <= t.stops;
    if s.lastArm.Some? {
      var due := s.lastArm.value.at + DEADMAN_MS;
      if StoppedIn(s, due, due + s.slack) {
        var k :| 0 <= k < |s.stops| && due <= s.stops[k] <= due + s.slack;
        assert t.stops[k] == s.stops[k];
      } else if CheckPending(s, due) {
        var x :| x in s.pending && s.pending[x] == CheckLock(due);
        if x != id {
          assert x in t.pending && t.pending[x] == CheckLock(due);
        } else if !Live(s.lock, s.now) {
          assert t.stops[|s.stops|] == s.now;
        }
      }
    }
  }

  lemma DeleteKeeps(s: World, id: nat)
    requires Inv(s) && id in s.pending && s.pending[id].DeleteLock?
    ensures Inv(Do(s, Run(id)))
  {
    var t := Do(s, Run(id));
    if ArmPending(s) { ArmStays(s, t); }
    if s.lastArm.Some? && CheckPending(s, s.lastArm.value.at + DEADMAN_MS) {
      CheckStays(s, t, s.lastArm.value.at + DEADMAN_MS);
    }
  }

  lemma RefusedTakeKeeps(s: World, id: nat)
    requires Inv(s) && id in s.pending && s.pending[id].SetIfFree? && Live(s.lock, s.now)
    ensures Inv(Do(s, Run(id)))
  {
    QuietKeeps(s, Do(s, Run(id)));
  }

  lemma RunKeeps(s: World, id: nat)
    requires Inv(s) && id in s.pending
    ensures Inv(Do(s, Run(id)))
  {
    match s.pending[id]
    case SetIfFree(_, _, _, _) => if Live(s.lock, s.now) { RefusedTakeKeeps(s, id); } else { WriteKeeps(s, id); }
    case SetLock(_, _, _, _) => WriteKeeps(s, id);
    case ExpireLock(_) => ExtendKeeps(s, id);
    case ArmTimer(_) => ArmKeeps(s, id);
    case CheckLock(_) => CheckKeeps(s, id);
    case DeleteLock => DeleteKeeps(s, id);
  }

  lemma StepKeeps(s: World, st: Step)
    requires Inv(s) && Enabled(s, st)
    ensures Inv(Do(s, st)) && Do(s, st).slack == s.slack
  {
    match st
    case Tick(t) => TickKeeps(s, t);
    case Fire(id, i) => FireKeeps(s, id, i);
    case Run(id) => RunKeeps(s, id);
    case _ => BeginKeeps(s, st);
  }

  lemma BeginKeeps(s: World, st: Step)
    requires Inv(s) && Enabled(s, st)
    requires st.BeginTake? || st.BeginHandover? || st.BeginHeartbeat? || st.BeginRevoke?
    ensures Inv(Do(s, st))
  {
    QuietKeeps(s, Do(s, st));
  }

  // ------------------------------------------------------------------
  // Runs
  // ------------------------------------------------------------------

  predicate Possible(s: World, steps: seq<Step>)
    decreases |steps|
  {
    steps == [] || (Enabled(s, steps[0]) && Possible(Do(s, steps[0]), steps[1..]))
  }

  function After(s: World, steps: seq<Step>): World
    requires Possible(s, steps)
    decreases |steps|
  {
    if steps == [] then s else After(Do(s, steps[0]), steps[1..])
  }

  lemma {:induction false} RunsKeep(s: World, steps: seq<Step>)
    requires Inv(s) && Possible(s, steps)
    ensures Inv(After(s, steps)) && After(s, steps).slack == s.slack
    decreases |steps|
  {
    if steps != [] {
      StepKeeps(s, steps[0]);
      RunsKeep(Do(s, steps[0]), steps[1..]);
    }
  }

  /** In every reachable state a living lock is guarded: some instance holds a timer
      due at least one second after the lock's expiry, or is about to arm one. */
  lemma LockIsGuarded(slack: nat, now: nat, steps: seq<Step>)
    requires Possible(Start(slack, now), steps)
    ensures var s := After(Start(slack, now), steps);
            Live(s.lock, s.now) ==>
              || (exists id :: id in s.pending && s.pending[id].ArmTimer?)
              || (exists i :: i in s.timers && s.timers[i] >= s.lock.value.expiresAt + 1000)
  {
    StartInv(slack, now);
    RunsKeep(Start(slack, now), steps);
  }

  /** Seven seconds after the last grant or heartbeat armed its timer, and no later than
      the timers' slack, a SAFE_STOP has been decided: whether the lock ran out or was
      revoked, whichever instance held the timer, however requests interleaved. */
  lemma LapseStops(slack: nat, now: nat, steps: seq<Step>)
    requires Possible(Start(slack, now), steps)
    ensures var s := After(Start(slack, now), steps);
            s.lastArm.Some? && !ArmPending(s) && s.now > s.lastArm.value.at + 7000 + slack ==>
              exists k :: 0 <= k < |s.stops| && s.lastArm.value.at + 7000 <= s.stops[k] <= s.lastArm.value.at + 7000 + slack
  {
    StartInv(slack, now);
    RunsKeep(Start(slack, now), steps);
    var s := After(Start(slack, now), steps);
    if s.lastArm.Some? && !ArmPending(s) && s.now > s.lastArm.value.at + 7000 + slack {
      assert StoppedIn(s, s.lastArm.value.at + 7000, s.lastArm.value.at + 7000 + slack);
    }
  }

  /** A SAFE_STOP is decided exactly when a fired timer finds no living lock. */
  lemma StopsIff(s: World, st: Step)
    requires Enabled(s, st)
    ensures Do(s, st).stops != s.stops <==>
              st.Run? && s.pending[st.id].CheckLock? && !Live(s.lock, s.now)
    ensures Do(s, st).stops != s.stops ==> Do(s, st).stops == s.stops + [s.now]
  {
  }

  // ------------------------------------------------------------------
  // Tokens
  // ------------------------------------------------------------------

  lemma RefusedStep(s: World, st: Step, op: string, token: string)
    requires Inv(s) && Enabled(s, st) && token in s.written && !Holds(s.lock, op, token, s.now)
    ensures var t := Do(s, st); token in t.written && !Holds(t.lock, op, token, t.now)
  {
  }

  /** Once refused, always refused: a granted token that fails validation at one moment
      never validates again, under any interleaving of the lock operations. */
  lemma {:induction false} RefusedStaysRefused(s: World, steps: seq<Step>, op: string, token: string)
    requires Inv(s) && Possible(s, steps) && token in s.written && !Holds(s.lock, op, token, s.now)
    ensures var t := After(s, steps); !Holds(t.lock, op, token, t.now)
    decreases |steps|
  {
    if steps != [] {
      StepKeeps(s, steps[0]);
      RefusedStep(s, steps[0], op, token);
      RefusedStaysRefused(Do(s, steps[0]), steps[1..], op, token);
    }
  }

  // ------------------------------------------------------------------
  // Revocation
  // ------------------------------------------------------------------

  /** The run leaves request `id` waiting where it is. */
  predicate Spares(steps: seq<Step>, id: nat) {
    forall i :: 0 <= i < |steps| ==> steps[i] != Run(id)
  }

  lemma {:induction false} GrantsGrow(s: World, steps: seq<Step>)
    requires Possible(s, steps)
    ensures s.grants <= After(s, steps).grants
    decreases |steps|
  {
    if steps != [] {
      assert s.grants <= Do(s, steps[0]).grants;
      GrantsGrow(Do(s, steps[0]), steps[1..]);
    }
  }

  lemma {:induction false} RequestWaits(s: World, steps: seq<Step>, id: nat)
    requires Possible(s, steps) && Spares(steps, id) && id in s.pending
    ensures id in After(s, steps).pending && After(s, steps).pending[id] == s.pending[id]
    decreases |steps|
  {
    if steps != [] {
      assert steps[0] != Run(id);
      assert forall i :: 0 <= i < |steps[1..]| ==> steps[1..][i] == steps[i + 1];
      RequestWaits(Do(s, steps[0]), steps[1..], id);
    }
  }

  /** The newest grant written since `before`, if any, went to somebody else than `op`. */
  predicate GrantedAway(before: World, t: World, op: string) {
    |t.grants| > |before.grants| && t.grants[|t.grants| - 1].op != op
  }

  /** Revocation, over every run that leads to it and every run between its read and its
      delete: the delete removes whatever is there, and that is another operator's living
      session if and only if the last grant written between the two went to another
      operator and still lives at the delete. */
  lemma {:induction false} RevokeSeversAnotherIff(slack: nat, now: nat, first: seq<Step>, id: nat, op: string, between: seq<Step>)
    requires Possible(Start(slack, now), first)
    requires var s := After(Start(slack, now), first);
             && Enabled(s, BeginRevoke(id, op)) && HeldBy(s.lock, op, s.now)
             && Possible(Do(s, BeginRevoke(id, op)), between) && Spares(between, id)
    ensures var s := After(Start(slack, now), first);
            var t := After(Do(s, BeginRevoke(id, op)), between);
            && id in t.pending && t.pending[id] == DeleteLock && Do(t, Run(id)).lock == None
            && ((exists other :: other != op && HeldBy(t.lock, other, t.now)) <==>
                GrantedAway(s, t, op) && Live(t.lock, t.now))
  {
    var s := After(Start(slack, now), first);
    var u := Do(s, BeginRevoke(id, op));
    var t := After(u, between);
    StartInv(slack, now);
    RunsKeep(Start(slack, now), first);
    StepKeeps(s, BeginRevoke(id, op));
    RunsKeep(u, between);
    RequestWaits(u, between, id);
    GrantsGrow(u, between);
    if Live(t.lock, t.now) && t.lock.value.op != op { assert HeldBy(t.lock, t.lock.value.op, t.now); }
  }

  /** `states` are the states a run passes through. */
  predicate Linked(states: seq<World>, steps: seq<Step>) {
    && |states| == |steps| + 1
    && forall i :: 0 <= i < |steps| ==> Enabled(states[i], steps[i]) && Do(states[i], steps[i]) == states[i + 1]
  }

  lemma {:induction false} LinkedRuns(states: seq<World>, steps: seq<Step>)
    requires Linked(states, steps)
    ensures Possible(states[0], steps) && After(states[0], steps) == states[|steps|]
    decreases |steps|
  {
    if steps != [] {
      assert Enabled(states[0], steps[0]) && Do(states[0], steps[0]) == states[1];
      assert Linked(states[1..], steps[1..]);
      LinkedRuns(states[1..], steps[1..]);
    }
  }

  /** Ann holds the vehicle, her revocation has read the lock, Bob is handed the vehicle. */
  function BetweenReadAndDelete(slack: nat): World {
    World(slack, 0, Some(Lock("bob", "b", 0, 6000)), map[0 := 7000], map[1 := DeleteLock, 2 := ArmTimer(0)],
          {"a", "b"}, {"a", "b"}, [Granted("ann", "a", 0), Granted("bob", "b", 0)], 0, Some(Arm(0, 0)), [])
  }

  lemma ReachBetween(slack: nat) returns (steps: seq<Step>)
    ensures Possible(Start(slack, 0), steps) && After(Start(slack, 0), steps) == BetweenReadAndDelete(slack)
  {
    var s0 := Start(slack, 0);
    var s1 := Do(s0, BeginTake(0, 0, "ann", "a"));
    var s2 := Do(s1, Run(0));
    var s3 := Do(s2, Run(0));
    assert s3.pending == map[];
    var s4 := Do(s3, BeginRevoke(1, "ann"));
    var s5 := Do(s4, BeginHandover(2, 0, "bob", "b"));
    var s6 := Do(s5, Run(2));
    assert s6 == BetweenReadAndDelete(slack);
    steps := [BeginTake(0, 0, "ann", "a"), Run(0), Run(0), BeginRevoke(1, "ann"), BeginHandover(2, 0, "bob", "b"), Run(2)];
    LinkedRuns([s0, s1, s2, s3, s4, s5, s6], steps);
  }

  /** And a grant in between can happen: revoking Ann while Bob is handed the vehicle
      deletes Bob's session. */
  lemma RevokeCanSeverSuccessor(slack: nat)
    ensures exists steps ::
              && Possible(Start(slack, 0), steps)
              && var s := After(Start(slack, 0), steps);
                 HeldBy(s.lock, "bob", s.now) && Enabled(s, Run(1)) && Do(s, Run(1)).lock == None
  {
    var steps := ReachBetween(slack);
    assert After(Start(slack, 0), steps) == BetweenReadAndDelete(slack);
  }

  /** Grants are written in any order: a handover stamped first but written last leaves
      a living session older than one already granted. */
  lemma GrantsCanReorder(slack: nat)
    ensures exists earlier, later ::
              && Possible(Start(slack, 0), earlier) && Possible(After(Start(slack, 0), earlier), later)
              && var s := After(Start(slack, 0), earlier);
                 var t := After(s, later);
                 && HeldBy(s.lock, "bob", s.now) && HeldBy(t.lock, "ann", t.now)
                 && t.lock.value.issuedAt < s.lock.value.issuedAt
  {
    var s0 := Start(slack, 0);
    var s1 := Do(s0, BeginHandover(0, 0, "ann", "a"));
    var s2 := Do(s1, Tick(1));
    var s3 := Do(s2, BeginHandover(1, 0, "bob", "b"));
    var s4 := Do(s3, Run(1));
    var s5 := Do(s4, Run(0));
    var earlier := [BeginHandover(0, 0, "ann", "a"), Tick(1), BeginHandover(1, 0, "bob", "b"), Run(1)];
    LinkedRuns([s0, s1, s2, s3, s4], earlier);
    LinkedRuns([s4, s5], [Run(0)]);
    assert Possible(After(s0, earlier), [Run(0)]);
  }
}
