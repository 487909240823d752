/** Zone configuration in the cloud (Gate 1): the zone record per vehicle, its effective
    zone, and the signed, revision-monotonic document delivered to the vehicle. */
module Zone {
  import opened Wrappers
  import opened Contract
  import opened KernelSpec

  datatype ZonePermit = ZonePermit(
    permitId: string, changedBy: string,
    validUntil: Option<int>, validFrom: Option<int>, speedLimitKmh: Option<real>)

  datatype ZoneRecord = ZoneRecord(zone: ZoneType, permit: Option<ZonePermit>)

  const DEFAULT_RECORD := ZoneRecord(PublicApprovedRoute, None)

  /** An absent number and zero both read as "no bound". */
  predicate Truthy(n: Option<int>) { n.Some? && n.value != 0 }

  /** Gate 1's zone. */
  function Gate1Zone(rec: ZoneRecord, now: nat): ZoneType {
    if rec.permit.Some? && Truthy(rec.permit.value.validUntil) && now > rec.permit.value.validUntil.value
    then PublicApprovedRoute
    else if rec.permit.Some? && Truthy(rec.permit.value.validFrom) && now < rec.permit.value.validFrom.value
    then PublicApprovedRoute
    else rec.zone
  }

  // ------------------------------------------------------------------
  // The delivered document
  // ------------------------------------------------------------------

  datatype PermitConfig = PermitConfig(permitId: string, validUntil: int, validFrom: Option<int>, speedLimitKmh: Option<real>)
  datatype Document = Document(
    vehicleId: string, zone: ZoneType, permit: Option<PermitConfig>, issuedAt: nat, revision: nat, issuer: string)

  function DocumentOf(vehicleId: string, rec: ZoneRecord, issuer: string, revision: nat, now: nat): Document {
    Document(
      vehicleId, rec.zone,
      (if rec.permit.Some? && Truthy(rec.permit.value.validUntil) then
         var p := rec.permit.value;
         Some(PermitConfig(p.permitId, p.validUntil.value,
                           if Truthy(p.validFrom) then p.validFrom else None,
                           if p.speedLimitKmh.Some? && p.speedLimitKmh.value != 0.0 then p.speedLimitKmh else None))
       else None),
      now, revision, issuer)
  }

  /** The schema the vehicle validates against. */
  predicate SchemaValid(d: Document) {
    && d.vehicleId != "" && !d.zone.UnlistedZone? && d.issuedAt > 0 && d.revision > 0 && d.issuer != ""
    && (d.permit.Some? ==>
          && d.permit.value.permitId != "" && d.permit.value.validUntil > 0
          && (d.permit.value.validFrom.Some? ==> d.permit.value.validFrom.value > 0)
          && (d.permit.value.speedLimitKmh.Some? ==> d.permit.value.speedLimitKmh.value > 0.0))
  }

  /** The zone state the vehicle takes from a schema-valid document. */
  function Applied(d: Document): ZoneState
    requires SchemaValid(d)
  {
    if d.permit.None? then ZoneState(d.zone, None, None, None, d.revision)
    else
      var p := d.permit.value;
      ZoneState(d.zone, Some(p.validUntil), if p.validFrom.Some? then Some(p.validFrom.value) else None, p.speedLimitKmh, d.revision)
  }

  /** The document as the kernel receives it. */
  function MessageOf(d: Document): ZoneMessage {
    if SchemaValid(d) then ZoneMessage(true, true, d.vehicleId, Applied(d))
    else ZoneMessage(false, true, d.vehicleId, ZoneState(d.zone, None, None, None, d.revision))
  }

  /** A permit with an end, no permit, no opening time, or nothing to restrict. */
  predicate WindowCarried(rec: ZoneRecord) {
    || rec.permit.None?
    || Truthy(rec.permit.value.validUntil)
    || rec.permit.value.validFrom.None? || rec.permit.value.validFrom.value <= 0
    || rec.zone == PublicApprovedRoute
  }

  /** Gate 1's zone and the vehicle's configured zone agree at every clock reading if
      and only if the delivered document can carry the record's window. */
  lemma GatesAgreeIff(rec: ZoneRecord, vehicleId: string, issuer: string, revision: nat, issuedAt: nat)
    requires SchemaValid(DocumentOf(vehicleId, rec, issuer, revision, issuedAt))
    ensures var d := DocumentOf(vehicleId, rec, issuer, revision, issuedAt);
            (forall now: nat :: Gate1Zone(rec, now) == CurrentZoneType(Applied(d), now)) <==> WindowCarried(rec)
  {
    var d := DocumentOf(vehicleId, rec, issuer, revision, issuedAt);
    if !WindowCarried(rec) {
      assert Gate1Zone(rec, 0) != CurrentZoneType(Applied(d), 0);
    }
  }

  // ------------------------------------------------------------------
  // Revisions
  // ------------------------------------------------------------------

  /** The next revision never repeats or falls, whatever the clock reads. */
  function NextRevision(previous: nat, now: nat): (r: nat)
    ensures r > previous && r >= now
  {
    Max(now, previous + 1)
  }

  /** Documents of one vehicle carry strictly increasing revisions. */
  predicate Increasing(docs: seq<Document>) {
    forall i, j :: 0 <= i < j < |docs| && docs[i].vehicleId == docs[j].vehicleId ==> docs[i].revision < docs[j].revision
  }

  predicate CountersCover(docs: seq<Document>, revisions: map<string, nat>) {
    forall i :: 0 <= i < |docs| ==> docs[i].vehicleId in revisions && docs[i].revision <= revisions[docs[i].vehicleId]
  }

  class ZoneService {
    var vehicleZones: map<string, ZoneRecord>
    var revisions: map<string, nat>
    var published: seq<Document>

    predicate Valid()
      reads this
    {
      Increasing(published) && CountersCover(published, revisions)
    }

    constructor ()
      ensures Valid() && vehicleZones == map[] && published == []
    {
      vehicleZones, revisions, published := map[], map[], [];
    }

    function Info(vehicleId: string): ZoneRecord
      reads this
    {
      if vehicleId in vehicleZones then vehicleZones[vehicleId] else DEFAULT_RECORD
    }

    method GetZone(vehicleId: string, now: nat) returns (zone: ZoneType)
      ensures zone == Gate1Zone(Info(vehicleId), now)
    {
      if vehicleId !in vehicleZones { return PublicApprovedRoute; }
      var rec := vehicleZones[vehicleId];
      if rec.permit.Some? {
        var p := rec.permit.value;
        if Truthy(p.validUntil) && now > p.validUntil.value { return PublicApprovedRoute; }
        if Truthy(p.validFrom) && now < p.validFrom.value { return PublicApprovedRoute; }
      }
      zone := rec.zone;
    }

    method IsModeAllowed(vehicleId: string, mode: OperationMode, now: nat) returns (ok: bool)
      ensures ok == IsModeAllowedInZone(Gate1Zone(Info(vehicleId), now), mode)
    {
      var zone := GetZone(vehicleId, now);
      ok := IsModeAllowedInZone(zone, mode);
    }

    /** Reconfigures one vehicle and delivers the change. */
    method SetZone(vehicleId: string, zone: ZoneType, permit: Option<ZonePermit>, connected: bool, now: nat)
      returns (delivered: bool, revision: nat)
      requires Valid()
      modifies this
      ensures Valid()
      ensures vehicleZones == old(vehicleZones)[vehicleId := ZoneRecord(zone, permit)]
      ensures delivered == connected
      ensures revision >= now && (vehicleId in old(revisions) ==> revision > old(revisions)[vehicleId])
      ensures revisions == old(revisions)[vehicleId := revision]
      ensures published == old(published) +
                if connected
                then [DocumentOf(vehicleId, ZoneRecord(zone, permit), if permit.Some? then permit.value.changedBy else "ADMIN", revision, now)]
                else []
    {
      vehicleZones := vehicleZones[vehicleId := ZoneRecord(zone, permit)];
      delivered, revision := DeliverConfig(vehicleId, if permit.Some? then permit.value.changedBy else "ADMIN", connected, now);
    }

    /** A failed publish still uses up the revision. */
    method DeliverConfig(vehicleId: string, issuer: string, connected: bool, now: nat)
      returns (delivered: bool, revision: nat)
      requires Valid()
      modifies this`revisions, this`published
      ensures Valid()
      ensures delivered == connected
      ensures revision >= now && (vehicleId in old(revisions) ==> revision > old(revisions)[vehicleId])
      ensures revisions == old(revisions)[vehicleId := revision]
      ensures published == old(published) +
                if connected then [DocumentOf(vehicleId, Info(vehicleId), issuer, revision, now)] else []
    {
      var rec := Info(vehicleId);
      revision := NextRevision(if vehicleId in revisions then revisions[vehicleId] else 0, now);
      revisions := revisions[vehicleId := revision];
      if connected {
        published := published + [DocumentOf(vehicleId, rec, issuer, revision, now)];
      }
      delivered := connected;
    }
  }

  // ------------------------------------------------------------------
  // Convergence on the vehicle
  // ------------------------------------------------------------------

  /** Step `i` delivers a config the vehicle will consider. */
  predicate Delivers(c: Config, s: Step) {
    s.OnZone? && s.zoneMessage.schemaValid && s.zoneMessage.signed && s.zoneMessage.vehicleId == c.vehicleId
  }

  lemma StepZone(c: Config, k: Kernel, s: Step)
    ensures Next(c, k, s).0.zone ==
              if Delivers(c, s) && s.zoneMessage.config.revision > k.zone.revision then s.zoneMessage.config else k.zone
  {
    if s.OnCommand? {
      if s.command.Signed? {
        ApplyKeepsZone(c, Contact(k, s.now), s.command.envelope, s.now,
                       Judge(c, Contact(k, s.now), s.topic, s.command.envelope, s.now));
      }
    }
  }

  lemma ApplyKeepsZone(c: Config, k: Kernel, env: Envelope, now: nat, v: Verdict)
    ensures Apply(c, k, env, now, v).0.zone == k.zone
  {
  }

  /** Whatever is delivered, in whatever order, with losses and repeats, amid any other
      steps: the vehicle holds its seed or a delivered config, none newer was delivered,
      and the revision it holds never falls. */
  lemma {:induction false} HoldsGreatest(c: Config, k: Kernel, steps: seq<Step>)
    ensures var z := Run(c, k, steps).zone;
            && k.zone.revision <= z.revision
            && (z == k.zone || exists i :: 0 <= i < |steps| && Delivers(c, steps[i]) && steps[i].zoneMessage.config == z)
            && (forall i :: 0 <= i < |steps| && Delivers(c, steps[i]) ==> steps[i].zoneMessage.config.revision <= z.revision)
  {
    if steps != [] {
      var n := |steps| - 1;
      var front := steps[..n];
      HoldsGreatest(c, k, front);
      StepZone(c, Run(c, k, front), steps[n]);
      var y, z := Run(c, k, front).zone, Run(c, k, steps).zone;
      forall i | 0 <= i < |steps| && Delivers(c, steps[i]) ensures steps[i].zoneMessage.config.revision <= z.revision {
        if i < n { assert front[i] == steps[i]; }
      }
      if z != k.zone {
        if z == y {
          var i :| 0 <= i < |front| && Delivers(c, front[i]) && front[i].zoneMessage.config == z;
          assert steps[i].zoneMessage.config == z;
        } else {
          assert steps[n].zoneMessage.config == z;
        }
      }
    }
  }

  /** Every config the run delivers comes from a published document. */
  predicate DeliversOnly(c: Config, steps: seq<Step>, docs: seq<Document>) {
    forall i :: 0 <= i < |steps| && Delivers(c, steps[i]) ==>
      exists j :: 0 <= j < |docs| && docs[j].vehicleId == c.vehicleId && steps[i].zoneMessage == MessageOf(docs[j])
  }

  predicate Received(c: Config, steps: seq<Step>, z: ZoneState) {
    exists i :: 0 <= i < |steps| && Delivers(c, steps[i]) && steps[i].zoneMessage.config == z
  }

  /** The published document a received config came from. */
  lemma SourceOf(c: Config, steps: seq<Step>, docs: seq<Document>, y: ZoneState) returns (j: nat)
    requires DeliversOnly(c, steps, docs) && Received(c, steps, y)
    ensures j < |docs| && docs[j].vehicleId == c.vehicleId && SchemaValid(docs[j]) && y == Applied(docs[j])
  {
    var i :| 0 <= i < |steps| && Delivers(c, steps[i]) && steps[i].zoneMessage.config == y;
    j :| 0 <= j < |docs| && docs[j].vehicleId == c.vehicleId && steps[i].zoneMessage == MessageOf(docs[j]);
  }

  /** Published documents of one vehicle are told apart by their revisions. */
  lemma RevisionsIdentify(docs: seq<Document>, a: nat, b: nat)
    requires Increasing(docs) && a < |docs| && b < |docs|
    requires docs[a].vehicleId == docs[b].vehicleId && docs[a].revision == docs[b].revision
    ensures a == b
  {
  }

  /** Convergence: two vehicles with the same seed that received the same published
      documents, in any orders and multiplicities, end in the same zone state. */
  lemma {:induction false} SameDeliveriesSameZone(c: Config, k: Kernel, first: seq<Step>, l: Kernel, second: seq<Step>, docs: seq<Document>)
    requires Increasing(docs) && DeliversOnly(c, first, docs) && DeliversOnly(c, second, docs)
    requires k.zone == l.zone && k.zone.revision == 0
    requires forall z :: Received(c, first, z) <==> Received(c, second, z)
    ensures Run(c, k, first).zone == Run(c, l, second).zone
  {
    HoldsGreatest(c, k, first);
    HoldsGreatest(c, l, second);
    var y, z := Run(c, k, first).zone, Run(c, l, second).zone;
    SeedOrReceived(c, k, first, docs);
    SeedOrReceived(c, l, second, docs);
    if Received(c, first, y) {
      assert Received(c, second, y);
      assert y.revision <= z.revision;
    }
    if Received(c, second, z) {
      assert Received(c, first, z);
      assert z.revision <= y.revision;
    }
    if Received(c, first, y) && Received(c, second, z) {
      var a := SourceOf(c, first, docs, y);
      var b := SourceOf(c, second, docs, z);
      RevisionsIdentify(docs, a, b);
    }
  }

  /** The end state is a received config, whose revision is positive, or nothing was
      received and it is the seed. */
  lemma {:induction false} SeedOrReceived(c: Config, k: Kernel, steps: seq<Step>, docs: seq<Document>)
    requires DeliversOnly(c, steps, docs) && k.zone.revision == 0
    ensures var z := Run(c, k, steps).zone;
            && (Received(c, steps, z) || (z == k.zone && forall y :: !Received(c, steps, y)))
            && (forall y :: Received(c, steps, y) ==> 0 < y.revision <= z.revision)
  {
    HoldsGreatest(c, k, steps);
    var z := Run(c, k, steps).zone;
    forall y | Received(c, steps, y) ensures 0 < y.revision <= z.revision {
      var j := SourceOf(c, steps, docs, y);
    }
  }
}
