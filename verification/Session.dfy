/** The operator session: a fencing lock in Redis with a 6 s life and a 7 s deadman
    timer in the instance that last touched it. */
module Session {
  import opened Wrappers

  const LOCK_TTL_MS: nat := 6000
  const DEADMAN_MS: nat := 7000

  /** The value under `lock:vehicle:<id>`, with the instant Redis forgets it. */
  datatype Lock = Lock(op: string, token: string, issuedAt: nat, expiresAt: nat)
  datatype Grant = Grant(token: string, issuedAt: nat)

  // ------------------------------------------------------------------
  // One key
  // ------------------------------------------------------------------

  predicate Live(l: Option<Lock>, now: nat) {
    l.Some? && now < l.value.expiresAt
  }

  function Write(op: string, token: string, issuedAt: nat, now: nat): Option<Lock> {
    Some(Lock(op, token, issuedAt, now + LOCK_TTL_MS))
  }

  /** SET … NX: writes only when nothing lives there. */
  function WriteIfFree(l: Option<Lock>, op: string, token: string, issuedAt: nat, now: nat): Option<Lock> {
    if Live(l, now) then l else Write(op, token, issuedAt, now)
  }

  /** EXPIRE: a living key gets a full life again; a dead one stays dead. */
  function Extend(l: Option<Lock>, now: nat): Option<Lock> {
    if Live(l, now) then Some(l.value.(expiresAt := now + LOCK_TTL_MS)) else l
  }

  predicate Holds(l: Option<Lock>, op: string, token: string, now: nat) {
    Live(l, now) && l.value.op == op && l.value.token == token
  }

  predicate HeldBy(l: Option<Lock>, op: string, now: nat) {
    Live(l, now) && l.value.op == op
  }

  /** A call that concerns one vehicle's session, and what it does to the lock. */
  datatype Call =
    | Take(op: string, token: string, at: nat)
    | Hand(op: string, token: string, at: nat)
    | Beat(op: string, token: string, at: nat)
    | Sever(op: string, at: nat)

  function Effect(l: Option<Lock>, c: Call): Option<Lock> {
    match c
    case Take(op, token, at) => WriteIfFree(l, op, token, at, at)
    case Hand(op, token, at) => Write(op, token, at, at)
    case Beat(op, token, at) => if Holds(l, op, token, at) then Extend(l, at) else l
    case Sever(op, at) => if HeldBy(l, op, at) then None else l
  }

  // ------------------------------------------------------------------
  // The services, one uninterrupted call at a time
  // ------------------------------------------------------------------

  class Redis {
    var locks: map<string, Lock>

    constructor ()
      ensures locks == map[]
    {
      locks := map[];
    }

    function Slot(vehicleId: string): Option<Lock>
      reads this
    {
      if vehicleId in locks then Some(locks[vehicleId]) else None
    }
  }

  datatype EdrRow = EdrRow(commandId: string, vehicleId: string, status: string)
  datatype SafeStop = SafeStop(commandId: string, vehicleId: string, tokenIssuedAt: nat, timestamp: nat, ttlMs: nat)

  class SessionService {
    const redis: Redis
    var deadmanTimers: map<string, nat>
    var edr: seq<EdrRow>
    var published: seq<SafeStop>

    constructor (redis: Redis)
      ensures this.redis == redis && deadmanTimers == map[] && edr == [] && published == []
    {
      this.redis := redis;
      deadmanTimers, edr, published := map[], [], [];
    }

    /** Granted exactly when no session lives; the grant is the lock's content. */
    method TakeControl(vehicleId: string, operatorId: string, token: string, now: nat) returns (r: Option<Grant>)
      modifies redis, this`deadmanTimers
      ensures r.Some? <==> !Live(old(redis.Slot(vehicleId)), now)
      ensures r.Some? ==>
                && r.value == Grant(token, now)
                && redis.locks == old(redis.locks)[vehicleId := Lock(operatorId, token, now, now + LOCK_TTL_MS)]
                && deadmanTimers == old(deadmanTimers)[vehicleId := now + DEADMAN_MS]
      ensures r.None? ==> redis.locks == old(redis.locks) && deadmanTimers == old(deadmanTimers)
      ensures redis.Slot(vehicleId) == Effect(old(redis.Slot(vehicleId)), Take(operatorId, token, now))
    {
      if Live(redis.Slot(vehicleId), now) { return None; }
      redis.locks := redis.locks[vehicleId := Lock(operatorId, token, now, now + LOCK_TTL_MS)];
      ResetDeadmanTimer(vehicleId, now);
      r := Some(Grant(token, now));
    }

    /** Alive exactly for the holder of the living lock, whose life and timer restart. */
    method Heartbeat(vehicleId: string, operatorId: string, token: string, now: nat) returns (alive: bool)
      modifies redis, this`deadmanTimers
      ensures alive <==> Holds(old(redis.Slot(vehicleId)), operatorId, token, now)
      ensures alive ==>
                && redis.Slot(vehicleId) == Extend(old(redis.Slot(vehicleId)), now)
                && redis.locks.Keys == old(redis.locks.Keys)
                && deadmanTimers == old(deadmanTimers)[vehicleId := now + DEADMAN_MS]
      ensures forall v :: v != vehicleId ==> redis.Slot(v) == old(redis.Slot(v))
      ensures !alive ==> redis.locks == old(redis.locks) && deadmanTimers == old(deadmanTimers)
      ensures redis.Slot(vehicleId) == Effect(old(redis.Slot(vehicleId)), Beat(operatorId, token, now))
    {
      var lock := redis.Slot(vehicleId);
      if !Live(lock, now) { return false; }
      if lock.value.op != operatorId || lock.value.token != token { return false; }
      redis.locks := redis.locks[vehicleId := lock.value.(expiresAt := now + LOCK_TTL_MS)];
      ResetDeadmanTimer(vehicleId, now);
      alive := true;
    }

    /** Replacing the timer disarms the earlier one. */
    method ResetDeadmanTimer(vehicleId: string, now: nat)
      modifies this`deadmanTimers
      ensures deadmanTimers == old(deadmanTimers)[vehicleId := now + DEADMAN_MS]
    {
      deadmanTimers := deadmanTimers[vehicleId := now + DEADMAN_MS];
    }

    /** A new session whatever lived there. */
    method Handover(vehicleId: string, newOperatorId: string, token: string, now: nat) returns (r: Grant)
      modifies redis, this`deadmanTimers
      ensures r == Grant(token, now)
      ensures redis.locks == old(redis.locks)[vehicleId := Lock(newOperatorId, token, now, now + LOCK_TTL_MS)]
      ensures deadmanTimers == old(deadmanTimers)[vehicleId := now + DEADMAN_MS]
      ensures redis.Slot(vehicleId) == Effect(old(redis.Slot(vehicleId)), Hand(newOperatorId, token, now))
    {
      redis.locks := redis.locks[vehicleId := Lock(newOperatorId, token, now, now + LOCK_TTL_MS)];
      ResetDeadmanTimer(vehicleId, now);
      r := Grant(token, now);
    }

    /** A due timer: consumed, and a SAFE_STOP exactly if no session lives. */
    method TimerFires(vehicleId: string, commandId: string, connected: bool, now: nat)
      requires vehicleId in deadmanTimers && deadmanTimers[vehicleId] <= now
      modifies this`deadmanTimers, this`edr, this`published
      ensures deadmanTimers == old(deadmanTimers) - {vehicleId}
      ensures Live(redis.Slot(vehicleId), now) ==> edr == old(edr) && published == old(published)
      ensures !Live(redis.Slot(vehicleId), now) ==>
                && edr == old(edr) + [EdrRow(commandId, vehicleId, "PENDING")]
                                   + (if connected then [] else [EdrRow(commandId, vehicleId, "PUBLISH_FAILED")])
                && published == old(published) + (if connected then [SafeStop(commandId, vehicleId, now, now, 5000)] else [])
    {
      deadmanTimers := deadmanTimers - {vehicleId};
      var currentLock := redis.Slot(vehicleId);
      if Live(currentLock, now) { return; }
      TriggerSafeStop(vehicleId, commandId, connected, now);
    }

    /** The evidence row comes before the publish; a publish that fails is a row too. */
    method TriggerSafeStop(vehicleId: string, commandId: string, connected: bool, now: nat)
      modifies this`edr, this`published
      ensures edr == old(edr) + [EdrRow(commandId, vehicleId, "PENDING")]
                     + (if connected then [] else [EdrRow(commandId, vehicleId, "PUBLISH_FAILED")])
      ensures published == old(published) + (if connected then [SafeStop(commandId, vehicleId, now, now, 5000)] else [])
    {
      edr := edr + [EdrRow(commandId, vehicleId, "PENDING")];
      if connected {
        published := published + [SafeStop(commandId, vehicleId, now, now, 5000)];
      } else {
        edr := edr + [EdrRow(commandId, vehicleId, "PUBLISH_FAILED")];
      }
    }

    method ValidateToken(vehicleId: string, operatorId: string, token: string, now: nat) returns (valid: bool)
      ensures valid <==> Holds(redis.Slot(vehicleId), operatorId, token, now)
    {
      var lock := redis.Slot(vehicleId);
      valid := Live(lock, now) && lock.value.op == operatorId && lock.value.token == token;
    }

    /** The living session's grant time, or the present. */
    method GetTokenIssuedAt(vehicleId: string, now: nat) returns (issuedAt: nat)
      ensures issuedAt == if Live(redis.Slot(vehicleId), now) then redis.Slot(vehicleId).value.issuedAt else now
    {
      var lock := redis.Slot(vehicleId);
      issuedAt := if Live(lock, now) then lock.value.issuedAt else now;
    }
  }

  // ------------------------------------------------------------------
  // Assignments
  // ------------------------------------------------------------------

  datatype Assignment = Assignment(vehicleId: string, operatorId: string, assignedBy: string, active: bool)

  predicate Matches(a: Assignment, vehicleId: string, operatorId: string) {
    a.vehicleId == vehicleId && a.operatorId == operatorId && a.active
  }

  predicate Assigned(rows: seq<Assignment>, vehicleId: string, operatorId: string) {
    exists i :: 0 <= i < |rows| && Matches(rows[i], vehicleId, operatorId)
  }

  /** No two active rows for one operator and vehicle. */
  predicate SingleActive(rows: seq<Assignment>) {
    forall i, j :: 0 <= i < j < |rows| && rows[i].active && rows[j].active ==>
      rows[i].vehicleId != rows[j].vehicleId || rows[i].operatorId != rows[j].operatorId
  }

  function Deactivate(a: Assignment, vehicleId: string, operatorId: string): Assignment {
    if Matches(a, vehicleId, operatorId) then a.(active := false) else a
  }

  function DeactivateAll(rows: seq<Assignment>, vehicleId: string, operatorId: string): seq<Assignment> {
    seq(|rows|, i requires 0 <= i < |rows| => Deactivate(rows[i], vehicleId, operatorId))
  }

  /** An administrator's call, and what it does to the assignments. */
  datatype AdminCall =
    | Assigns(vehicleId: string, operatorId: string, assignedBy: string)
    | Unassigns(vehicleId: string, operatorId: string)

  function AdminEffect(rows: seq<Assignment>, c: AdminCall): seq<Assignment> {
    match c
    case Assigns(v, o, who) => if Assigned(rows, v, o) then rows else rows + [Assignment(v, o, who, true)]
    case Unassigns(v, o) => DeactivateAll(rows, v, o)
  }

  class AssignmentService {
    const redis: Redis
    const enforced: bool
    var rows: seq<Assignment>

    constructor (redis: Redis, enforced: bool)
      ensures this.redis == redis && this.enforced == enforced && rows == []
    {
      this.redis, this.enforced := redis, enforced;
      rows := [];
    }

    method CanControl(vehicleId: string, operatorId: string) returns (ok: bool)
      ensures ok <==> !enforced || Assigned(rows, vehicleId, operatorId)
    {
      ok := !enforced || Assigned(rows, vehicleId, operatorId);
    }

    /** Idempotent: an active assignment is found, not repeated. */
    method Assign(vehicleId: string, operatorId: string, assignedBy: string) returns (alreadyAssigned: bool)
      requires SingleActive(rows)
      modifies this
      ensures SingleActive(rows) && Assigned(rows, vehicleId, operatorId)
      ensures alreadyAssigned <==> Assigned(old(rows), vehicleId, operatorId)
      ensures rows == if alreadyAssigned then old(rows) else old(rows) + [Assignment(vehicleId, operatorId, assignedBy, true)]
      ensures rows == AdminEffect(old(rows), Assigns(vehicleId, operatorId, assignedBy))
    {
      alreadyAssigned := Assigned(rows, vehicleId, operatorId);
      if !alreadyAssigned {
        rows := rows + [Assignment(vehicleId, operatorId, assignedBy, true)];
        assert Matches(rows[|rows| - 1], vehicleId, operatorId);
      }
    }

    /** Ends the operator's authority and, when the living session is theirs, the
        session; nobody else's assignment or session is touched. */
    method Revoke(vehicleId: string, operatorId: string, now: nat) returns (sessionSevered: bool)
      modifies this, redis
      ensures !Assigned(rows, vehicleId, operatorId)
      ensures sessionSevered <==> HeldBy(old(redis.Slot(vehicleId)), operatorId, now)
      ensures redis.locks == if sessionSevered then old(redis.locks) - {vehicleId} else old(redis.locks)
      ensures rows == AdminEffect(old(rows), Unassigns(vehicleId, operatorId))
      ensures redis.Slot(vehicleId) == Effect(old(redis.Slot(vehicleId)), Sever(operatorId, now))
    {
      rows := DeactivateAll(rows, vehicleId, operatorId);
      sessionSevered := HeldBy(redis.Slot(vehicleId), operatorId, now);
      if sessionSevered {
        redis.locks := redis.locks - {vehicleId};
      }
    }
  }
}
