/** The on-vehicle event log: a bounded FIFO of events not yet confirmed by the
    cloud, recorded with zero connectivity. */
module VehicleLog {
  import opened Wrappers
  import opened Contract

  const EVENT_LOG_CAP: nat := 10_000
  const BATCH_LIMIT: nat := 100

  datatype Trigger =
    | Watchdog(silentMs: nat)
    | PoseSilence
    | Geofence(lat: real, lng: real)
    | EStopCommand
    | SafeStopCommand

  datatype EventKind =
    | LatchEngaged(trigger: Trigger, commandId: Option<string>)
    | LatchReleased(clearedBy: string)
    | ZoneConfigApplied(zone: ZoneType, revision: nat)

  datatype Event = Event(vehicleId: string, bootId: string, number: nat, timestamp: nat, kind: EventKind)

  /** `number` restarts at 1 on every boot; `bootId` tells boots apart. */
  datatype Log = Log(bootId: string, last: nat, unsynced: seq<Event>, dropped: nat)

  /** The log after recording one event: the oldest event makes room when full. */
  function Append(l: Log, vehicleId: string, now: nat, kind: EventKind): Log {
    var ev := Event(vehicleId, l.bootId, l.last + 1, now, kind);
    if |l.unsynced| >= EVENT_LOG_CAP
    then l.(last := l.last + 1, unsynced := l.unsynced[1..] + [ev], dropped := l.dropped + 1)
    else l.(last := l.last + 1, unsynced := l.unsynced + [ev])
  }

  /** The buffer after the cloud confirmed everything up to `upTo`. */
  function Trim(unsynced: seq<Event>, upTo: nat): (kept: seq<Event>)
    ensures |kept| <= |unsynced|
  {
    if unsynced != [] && unsynced[0].number <= upTo then Trim(unsynced[1..], upTo) else unsynced
  }

  /** The next upload: the oldest events, at most a batch. */
  function NextBatch(unsynced: seq<Event>): seq<Event> {
    if |unsynced| <= BATCH_LIMIT then unsynced else unsynced[..BATCH_LIMIT]
  }

  /** The buffer holds the consecutive sequence numbers ending at the newest. */
  predicate Window(l: Log) {
    && |l.unsynced| <= 10_000
    && |l.unsynced| + l.dropped <= l.last
    && forall i :: 0 <= i < |l.unsynced| ==>
      l.unsynced[i].number == l.last - |l.unsynced| + 1 + i && l.unsynced[i].bootId == l.bootId
  }

  /** Recording keeps the window, ends it with the new event and loses at most the
      oldest one, which is then counted as dropped. */
  lemma AppendKeepsWindow(l: Log, vehicleId: string, now: nat, kind: EventKind)
    requires Window(l)
    ensures var m := Append(l, vehicleId, now, kind);
            && Window(m) && m.last == l.last + 1
            && m.unsynced != [] && m.unsynced[|m.unsynced| - 1] == Event(vehicleId, l.bootId, m.last, now, kind)
            && m.unsynced[..|m.unsynced| - 1] == l.unsynced[m.dropped - l.dropped..]
            && l.dropped <= m.dropped <= l.dropped + 1
            && (m.dropped == l.dropped + 1 <==> |l.unsynced| == 10_000)
  {
  }

  /** Trimming a window removes exactly the confirmed sequence numbers. */
  lemma {:induction false} TrimIsFilter(unsynced: seq<Event>, first: nat, upTo: nat)
    requires forall i :: 0 <= i < |unsynced| ==> unsynced[i].number == first + i
    ensures var removed := if upTo < first then 0 else if upTo - first + 1 <= |unsynced| then upTo - first + 1 else |unsynced|;
            Trim(unsynced, upTo) == unsynced[removed..]
  {
    if unsynced != [] && unsynced[0].number <= upTo {
      TrimIsFilter(unsynced[1..], first + 1, upTo);
    }
  }

  class EventLog {
    const bootId: string
    var last: nat
    var unsynced: seq<Event>
    var dropped: nat

    ghost function Value(): Log
      reads this
    {
      Log(bootId, last, unsynced, dropped)
    }

    constructor (bootId: string)
      ensures Value() == Log(bootId, 0, [], 0)
    {
      this.bootId := bootId;
      last, unsynced, dropped := 0, [], 0;
    }

    method LogEvent(vehicleId: string, now: nat, kind: EventKind) returns (ev: Event)
      modifies this
      ensures Value() == Append(old(Value()), vehicleId, now, kind)
      ensures ev == Event(vehicleId, bootId, last, now, kind)
    {
      last := last + 1;
      ev := Event(vehicleId, bootId, last, now, kind);
      if |unsynced| >= EVENT_LOG_CAP {
        unsynced := unsynced[1..];
        dropped := dropped + 1;
      }
      unsynced := unsynced + [ev];
    }

    /** Pops confirmed events off the front, one by one. */
    method TrimAcked(upTo: nat)
      modifies this`unsynced
      ensures unsynced == Trim(old(unsynced), upTo)
    {
      while |unsynced| > 0 && unsynced[0].number <= upTo
        invariant Trim(unsynced, upTo) == Trim(old(unsynced), upTo)
        decreases |unsynced|
      {
        unsynced := unsynced[1..];
      }
    }
  }
}
