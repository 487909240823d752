/** What the session gates mean over the history of calls: who is valid, since when, with
    which token time, and who may take control. */
module SessionHistory {
  import opened Wrappers
  import opened Session

  // ------------------------------------------------------------------
  // Sessions
  // ------------------------------------------------------------------

  function LockAfter(calls: seq<Call>): Option<Lock> {
    if calls == [] then None else Effect(LockAfter(calls[..|calls| - 1]), calls[|calls| - 1])
  }

  predicate InTime(calls: seq<Call>, now: nat) {
    && (forall i, j :: 0 <= i < j < |calls| ==> calls[i].at <= calls[j].at)
    && (forall i :: 0 <= i < |calls| ==> calls[i].at <= now)
  }

  predicate IsGrant(c: Call) { c.Take? || c.Hand? }

  /** Tokens are drawn fresh. */
  predicate FreshTokens(calls: seq<Call>) {
    forall i, j :: 0 <= i < j < |calls| && IsGrant(calls[i]) && IsGrant(calls[j]) ==> calls[i].token != calls[j].token
  }

  /** Call `g` was a grant: a handover, or a take-control that found nothing living. */
  predicate Granted(calls: seq<Call>, g: nat) {
    && g < |calls| && IsGrant(calls[g])
    && (calls[g].Take? ==> !Live(LockAfter(calls[..g]), calls[g].at))
  }

  /** Grant `g` was neither replaced by a handover nor revoked. */
  predicate Undisturbed(calls: seq<Call>, g: nat)
    requires g < |calls| && IsGrant(calls[g])
  {
    forall j :: g < j < |calls| ==> !calls[j].Hand? && !(calls[j].Sever? && calls[j].op == calls[g].op)
  }

  /** The grant itself, or a heartbeat in its name. */
  predicate Touches(calls: seq<Call>, g: nat, i: nat)
    requires g < |calls| && IsGrant(calls[g])
  {
    g <= i < |calls| && (i == g || (calls[i].Beat? && calls[i].op == calls[g].op && calls[i].token == calls[g].token))
  }

  /** Time `t` is less than 6 s after a touch before call `n`. */
  predicate Fed(calls: seq<Call>, g: nat, n: nat, t: nat)
    requires g < |calls| && IsGrant(calls[g])
  {
    exists i :: g <= i < n && Touches(calls, g, i) && t < calls[i].at + 6000
  }

  /** No heartbeat came 6 s or more after the touch before it. */
  predicate Unbroken(calls: seq<Call>, g: nat)
    requires g < |calls| && IsGrant(calls[g])
  {
    forall j :: g < j < |calls| && Touches(calls, g, j) ==> Fed(calls, g, j, calls[j].at)
  }

  /** The session granted at call `g` is held by this operator under this token now:
      granted to them, neither replaced nor revoked since, and never left 6 s without a
      heartbeat. */
  predicate Held(calls: seq<Call>, g: nat, op: string, token: string, now: nat) {
    && Granted(calls, g) && calls[g].op == op && calls[g].token == token
    && Undisturbed(calls, g) && Unbroken(calls, g) && Fed(calls, g, |calls|, now)
  }

  function LastTouch(calls: seq<Call>, g: nat): (m: nat)
    requires g < |calls| && IsGrant(calls[g])
    ensures Touches(calls, g, m)
    ensures forall i :: m < i < |calls| ==> !Touches(calls, g, i)
    decreases |calls|
  {
    if |calls| - 1 == g then g
    else if Touches(calls, g, |calls| - 1) then |calls| - 1
    else
      var m := LastTouch(calls[..|calls| - 1], g);
      assert forall i :: 0 <= i < |calls| - 1 ==> (Touches(calls, g, i) <==> Touches(calls[..|calls| - 1], g, i));
      m
  }

  /** The lock while the session has not lapsed, and after. */
  predicate Traced(calls: seq<Call>, g: nat)
    requires g < |calls| && IsGrant(calls[g])
  {
    var l := LockAfter(calls);
    var latest := calls[|calls| - 1].at;
    var fedUntil := calls[LastTouch(calls, g)].at + 6000;
    var mine := l.Some? && l.value.token == calls[g].token;
    && (mine ==> l.value.op == calls[g].op && l.value.issuedAt == calls[g].at)
    && if Unbroken(calls, g) then (mine && l.value.expiresAt == fedUntil) || (!mine && fedUntil <= latest)
       else mine ==> l.value.expiresAt <= latest
  }

  lemma TouchesInFront(calls: seq<Call>, front: seq<Call>, g: nat)
    requires g < |front| <= |calls| && front == calls[..|front|] && IsGrant(calls[g])
    ensures forall i :: 0 <= i < |front| ==> (Touches(calls, g, i) <==> Touches(front, g, i))
  {
  }

  /** Being fed is being fed by the last touch. */
  lemma LastTouchFeeds(calls: seq<Call>, g: nat, t: nat)
    requires g < |calls| && IsGrant(calls[g])
    requires forall i, j :: 0 <= i < j < |calls| ==> calls[i].at <= calls[j].at
    ensures Fed(calls, g, |calls|, t) <==> t < calls[LastTouch(calls, g)].at + 6000
  {
    var m := LastTouch(calls, g);
    if Fed(calls, g, |calls|, t) {
      var i :| g <= i < |calls| && Touches(calls, g, i) && t < calls[i].at + 6000;
      assert i <= m && calls[i].at <= calls[m].at;
    } else {
      assert Touches(calls, g, m);
    }
  }

  lemma UnbrokenStep(calls: seq<Call>, front: seq<Call>, g: nat)
    requires g < |front| == |calls| - 1 && front == calls[..|front|] && IsGrant(calls[g])
    ensures Unbroken(calls, g) <==>
              Unbroken(front, g) && (Touches(calls, g, |front|) ==> Fed(front, g, |front|, calls[|front|].at))
  {
    var n := |front|;
    TouchesInFront(calls, front, g);
    forall j | g < j <= n ensures Fed(calls, g, j, calls[j].at) <==> Fed(front, g, j, calls[j].at) {
      FedInFront(calls, front, g, j, calls[j].at);
    }
    assert forall j :: g < j < n ==> front[j] == calls[j];
  }

  lemma FrontFacts(calls: seq<Call>, g: nat, now: nat)
    requires g < |calls| - 1 && IsGrant(calls[g]) && InTime(calls, now)
    ensures var front := calls[..|calls| - 1];
            && InTime(front, calls[|calls| - 1].at)
            && (Granted(calls, g) ==> Granted(front, g))
            && (Undisturbed(calls, g) ==> Undisturbed(front, g))
            && (Unbroken(calls, g) <==>
                  Unbroken(front, g) && (Touches(calls, g, |calls| - 1) ==>
                    calls[|calls| - 1].at < front[LastTouch(front, g)].at + 6000))
  {
    var front := calls[..|calls| - 1];
    assert calls[..g] == front[..g];
    UnbrokenStep(calls, front, g);
    LastTouchFeeds(front, g, calls[|front|].at);
  }

  lemma FedInFront(calls: seq<Call>, front: seq<Call>, g: nat, j: nat, t: nat)
    requires g < |front| <= |calls| && front == calls[..|front|] && IsGrant(calls[g]) && j <= |front|
    ensures Fed(calls, g, j, t) <==> Fed(front, g, j, t)
  {
    if Fed(calls, g, j, t) {
      var i :| g <= i < j && Touches(calls, g, i) && t < calls[i].at + 6000;
      assert Touches(front, g, i) && front[i] == calls[i];
    }
    if Fed(front, g, j, t) {
      var i :| g <= i < j && Touches(front, g, i) && t < front[i].at + 6000;
      assert Touches(calls, g, i) && front[i] == calls[i];
    }
  }

  lemma {:induction false} Trace(calls: seq<Call>, g: nat, now: nat)
    requires InTime(calls, now) && FreshTokens(calls) && Granted(calls, g) && Undisturbed(calls, g)
    ensures Traced(calls, g)
    decreases |calls|
  {
    var n := |calls| - 1;
    if n > g {
      var front := calls[..n];
      FrontFacts(calls, g, now);
      assert FreshTokens(front);
      Trace(front, g, calls[n].at);
      TraceStep(calls, g, now);
    } else {
      assert calls == calls[..g] + [calls[g]];
    }
  }

  lemma TraceStep(calls: seq<Call>, g: nat, now: nat)
    requires g < |calls| - 1 && InTime(calls, now) && FreshTokens(calls) && Granted(calls, g) && Undisturbed(calls, g)
    requires IsGrant(calls[g]) && Traced(calls[..|calls| - 1], g)
    ensures Traced(calls, g)
  {
    var n := |calls| - 1;
    var front, c := calls[..n], calls[n];
    FrontFacts(calls, g, now);
    assert LockAfter(calls) == Effect(LockAfter(front), c);
    assert front[n - 1].at <= c.at && front[g] == calls[g];
    if Touches(calls, g, n) {
      assert LastTouch(calls, g) == n;
    } else {
      assert LastTouch(calls, g) == LastTouch(front, g);
    }
  }

  /** A living lock goes back to a grant that nothing has disturbed. */
  lemma {:induction false} LivingWasGranted(calls: seq<Call>, now: nat) returns (g: nat)
    requires InTime(calls, now) && Live(LockAfter(calls), now)
    ensures Granted(calls, g) && Undisturbed(calls, g)
    ensures calls[g].op == LockAfter(calls).value.op && calls[g].token == LockAfter(calls).value.token
    decreases |calls|
  {
    var n := |calls| - 1;
    var front, c := calls[..n], calls[n];
    var before := LockAfter(front);
    if c.Hand? || (c.Take? && !Live(before, c.at)) {
      g := n;
    } else {
      assert InTime(front, c.at) && Live(before, c.at);
      g := LivingWasGranted(front, c.at);
      assert front[..g] == calls[..g] && front[g] == calls[g];
    }
  }

  /** Token validation over any history of calls: an operator's token is valid exactly
      when some grant of it is still held. */
  lemma ValidIff(calls: seq<Call>, op: string, token: string, now: nat)
    requires InTime(calls, now) && FreshTokens(calls)
    ensures Holds(LockAfter(calls), op, token, now) <==> exists g :: Held(calls, g, op, token, now)
  {
    if Holds(LockAfter(calls), op, token, now) {
      var g := LivingWasGranted(calls, now);
      Trace(calls, g, now);
      LastTouchFeeds(calls, g, now);
      assert Held(calls, g, op, token, now);
    }
    if exists g :: Held(calls, g, op, token, now) {
      var g :| Held(calls, g, op, token, now);
      HeldIsLocked(calls, g, op, token, now);
    }
  }

  /** The token time a dispatch gets for a held session is the instant of its grant. */
  lemma HeldIsLocked(calls: seq<Call>, g: nat, op: string, token: string, now: nat)
    requires InTime(calls, now) && FreshTokens(calls) && Held(calls, g, op, token, now)
    ensures Holds(LockAfter(calls), op, token, now) && LockAfter(calls).value.issuedAt == calls[g].at
  {
    Trace(calls, g, now);
    LastTouchFeeds(calls, g, now);
  }

  /** What `getTokenIssuedAt` gives after these calls. */
  function TokenTime(calls: seq<Call>, now: nat): nat {
    if Live(LockAfter(calls), now) then LockAfter(calls).value.issuedAt else now
  }

  lemma {:induction false} LockIsLatest(calls: seq<Call>, now: nat, g: nat)
    requires InTime(calls, now) && Granted(calls, g) && LockAfter(calls).Some?
    ensures calls[g].at <= LockAfter(calls).value.issuedAt <= now
    decreases |calls|
  {
    var n := |calls| - 1;
    var front := calls[..n];
    if g < n {
      assert front[..g] == calls[..g] && front[g] == calls[g];
      assert InTime(front, now);
      if LockAfter(front).Some? { LockIsLatest(front, now, g); }
    }
  }

  /** The time a dispatch gets is never older than any grant made before it, whether the
      session lives or the fall-back is used: an uninterrupted later request never
      carries an older token than an earlier one could. */
  lemma TokenTimeNeverOlder(calls: seq<Call>, now: nat, g: nat)
    requires InTime(calls, now) && Granted(calls, g)
    ensures calls[g].at <= TokenTime(calls, now) <= now
  {
    if LockAfter(calls).Some? { LockIsLatest(calls, now, g); }
  }

  // ------------------------------------------------------------------
  // Assignments
  // ------------------------------------------------------------------

  function RowsAfter(calls: seq<AdminCall>): seq<Assignment> {
    if calls == [] then [] else AdminEffect(RowsAfter(calls[..|calls| - 1]), calls[|calls| - 1])
  }

  /** Assigned at call `i` and not unassigned since. */
  predicate StandsAssigned(calls: seq<AdminCall>, i: nat, vehicleId: string, operatorId: string) {
    && i < |calls| && calls[i].Assigns? && calls[i].vehicleId == vehicleId && calls[i].operatorId == operatorId
    && forall j :: i < j < |calls| ==> calls[j] != Unassigns(vehicleId, operatorId)
  }

  lemma AdminStep(rows: seq<Assignment>, c: AdminCall, v: string, o: string)
    ensures Assigned(AdminEffect(rows, c), v, o) <==>
              (c.Assigns? && c.vehicleId == v && c.operatorId == o) || (Assigned(rows, v, o) && c != Unassigns(v, o))
  {
    var after := AdminEffect(rows, c);
    if Assigned(rows, v, o) && c != Unassigns(v, o) {
      var i :| 0 <= i < |rows| && Matches(rows[i], v, o);
      assert Matches(after[i], v, o);
    }
    if c.Assigns? && c.vehicleId == v && c.operatorId == o && !Assigned(rows, v, o) {
      assert Matches(after[|rows|], v, o);
    }
    if Assigned(after, v, o) {
      var i :| 0 <= i < |after| && Matches(after[i], v, o);
      if i < |rows| { assert Matches(rows[i], v, o); }
    }
  }

  /** The take-control gate over any history of assignments: with enforcement on, an
      operator may control a vehicle exactly when assigned to it and not unassigned since. */
  lemma {:induction false} CanControlIff(calls: seq<AdminCall>, v: string, o: string)
    ensures Assigned(RowsAfter(calls), v, o) <==> exists i: nat :: StandsAssigned(calls, i, v, o)
  {
    if calls != [] {
      var n := |calls| - 1;
      var front, c := calls[..n], calls[n];
      CanControlIff(front, v, o);
      AdminStep(RowsAfter(front), c, v, o);
      if c.Assigns? && c.vehicleId == v && c.operatorId == o { assert StandsAssigned(calls, n, v, o); }
      if Assigned(RowsAfter(front), v, o) && c != Unassigns(v, o) {
        var i: nat :| StandsAssigned(front, i, v, o);
        assert StandsAssigned(calls, i, v, o);
      }
      if exists i: nat :: StandsAssigned(calls, i, v, o) {
        var i: nat :| StandsAssigned(calls, i, v, o);
        if i < n { assert StandsAssigned(front, i, v, o); }
      }
    }
  }
}
