/** The provider client of `genCloudFlareApi`: zone and record lookup, record
    patch and create, and the upsert `updateDnsRecord` built from them. The
    remote provider is an in-memory table: its zones are fixed, a create appends
    a record under a fresh id, and a patch rewrites the record with the given id
    in place. */
module CloudFlareApi {
  import opened DnsTypes
  import opened ZoneRoots
  import opened Lookup

  /** Provider-side state: the zones, the records of all zones, and the counter
      the provider draws fresh record ids from. */
  datatype Table = Table(zones: seq<Zone>, records: seq<Record>, nextId: nat)

  /** Which of the two writes an upsert issued, and on which record. */
  datatype Outcome = Patched(recordId: string) | Created(recordId: string)

  function DigitChar(d: nat): char
    requires d < 10
  {
    (48 + d) as char
  }

  /** The decimal spelling of `n`, used as the id of the `n`-th record the provider creates. */
  function DecimalId(n: nat): (s: string)
    ensures |s| >= 1
    ensures n >= 10 ==> |s| >= 2
  {
    if n < 10 then [DigitChar(n)] else DecimalId(n / 10) + [DigitChar(n % 10)]
  }

  /** Distinct counters give distinct ids, so a created record never shares an id. */
  lemma {:induction false} DecimalIdInjective(a: nat, b: nat)
    requires DecimalId(a) == DecimalId(b)
    ensures a == b
  {
    if a >= 10 && b >= 10 {
      var sa, sb := DecimalId(a), DecimalId(b);
      assert sa[..|sa| - 1] == DecimalId(a / 10);
      assert sb[..|sb| - 1] == DecimalId(b / 10);
      DecimalIdInjective(a / 10, b / 10);
      assert sa[|sa| - 1] == DigitChar(a % 10);
      assert sb[|sb| - 1] == DigitChar(b % 10);
    } else if a < 10 && b < 10 {
      assert DecimalId(a)[0] == DigitChar(a);
      assert DecimalId(b)[0] == DigitChar(b);
    }
  }

  /** What the provider guarantees of its ids: present, unique, and never drawn
      from the counter's future values. */
  ghost predicate ValidTable(t: Table)
  {
    (forall i :: 0 <= i < |t.records| ==> t.records[i].id != "") &&
    (forall i, j :: 0 <= i < j < |t.records| ==> t.records[i].id != t.records[j].id) &&
    (forall i, k :: 0 <= i < |t.records| && t.nextId <= k ==> t.records[i].id != DecimalId(k))
  }

  /** The record holds exactly the fields of a request body. */
  predicate Carries(r: Record, c: CreateOptions)
  {
    r.name == c.name && r.recordType == c.recordType && r.content == c.content
    && r.ttl == c.ttl && r.proxied == c.proxied
  }

  /** A patch body written over a record; its id and zone stay. */
  function Rewrite(r: Record, body: CreateOptions): (r': Record)
    ensures Carries(r', body) && r'.id == r.id && r'.zoneId == r.zoneId
  {
    r.(name := body.name, recordType := body.recordType, content := body.content,
       ttl := body.ttl, proxied := body.proxied)
  }

  predicate HasId(r: Record, zoneId: string, recordId: string)
  {
    r.zoneId == zoneId && r.id == recordId
  }

  /** Index of the record of zone `zoneId` with id `recordId`, or -1. */
  function IdIndex(records: seq<Record>, zoneId: string, recordId: string): int
  {
    FirstWhere(records, (r: Record) => HasId(r, zoneId, recordId))
  }

  /** The provider's effect of `PATCH /zones/{zoneId}/dns_records/{recordId}`;
      an unknown id leaves the table as it is. */
  function PatchTable(t: Table, zoneId: string, recordId: string, body: CreateOptions): Table
  {
    var i := IdIndex(t.records, zoneId, recordId);
    if i < 0 then t else t.(records := t.records[i := Rewrite(t.records[i], body)])
  }

  /** The record `POST /zones/{zoneId}/dns_records` adds, under the next fresh id. */
  function NewRecord(t: Table, zoneId: string, o: UpdateOptions): Record
  {
    var c := WithDefaults(o);
    Record(DecimalId(t.nextId), zoneId, c.name, c.recordType, c.content, c.ttl, c.proxied)
  }

  /** The provider's effect of `postDnsRecord`. */
  function PostTable(t: Table, zoneId: string, o: UpdateOptions): Table
  {
    t.(records := t.records + [NewRecord(t, zoneId, o)], nextId := t.nextId + 1)
  }

  /** JavaScript truthiness of the looked-up id: present and not the empty string. */
  predicate Truthy(id: Option<string>)
  {
    id.Some? && id.value != ""
  }

  /** The zone `updateDnsRecord` works in: the zone named after the derived root. */
  function UpsertZone(t: Table, o: UpdateOptions): Result<string>
  {
    GetZoneId(t.zones, ZoneRoot(o.name))
  }

  /** `updateDnsRecord`: fill in the defaults, resolve the zone, look up the
      record, and patch it when the lookup gave a truthy id, else create it. */
  function Upsert(t: Table, o: UpdateOptions): (Result<Outcome>, Table)
  {
    var body := WithDefaults(o);
    match UpsertZone(t, o)
    case Err(e) => (Err(e), t)
    case Ok(zoneId) =>
      var recordId := GetDnsRecordId(t.records, zoneId, o.name, o.recordType);
      if Truthy(recordId) then (Ok(Patched(recordId.value)), PatchTable(t, zoneId, recordId.value, body))
      else (Ok(Created(DecimalId(t.nextId))), PostTable(t, zoneId, Supplied(body)))
  }

  /** Ids are unique, so the entry a patch finds is the only one with that id. */
  lemma IdIndexUnique(t: Table, zoneId: string, i: int)
    requires ValidTable(t) && 0 <= i < |t.records| && t.records[i].zoneId == zoneId
    ensures IdIndex(t.records, zoneId, t.records[i].id) == i
  {
  }

  /** A patch rewrites the one record with that id in that zone with the body,
      and leaves every other record, the zones and the id counter alone. */
  lemma PatchRewritesOne(t: Table, zoneId: string, recordId: string, body: CreateOptions)
    requires ValidTable(t)
    ensures var t' := PatchTable(t, zoneId, recordId, body);
      t'.zones == t.zones && t'.nextId == t.nextId && |t'.records| == |t.records|
      && forall i :: 0 <= i < |t.records| ==>
           t'.records[i] == if HasId(t.records[i], zoneId, recordId) then Rewrite(t.records[i], body) else t.records[i]
  {
    var i := IdIndex(t.records, zoneId, recordId);
    if i >= 0 {
      forall j | 0 <= j < |t.records| && j != i
        ensures !HasId(t.records[j], zoneId, recordId)
      {
        if j < i {
          assert !HasId(t.records[j], zoneId, recordId);
        } else {
          assert t.records[j].id != t.records[i].id;
        }
      }
    }
  }

  lemma PatchPreservesValid(t: Table, zoneId: string, recordId: string, body: CreateOptions)
    requires ValidTable(t)
    ensures ValidTable(PatchTable(t, zoneId, recordId, body))
  {
  }

  /** A create adds one record under an id no record had, carrying the request with defaults filled in. */
  lemma PostAppendsFresh(t: Table, zoneId: string, o: UpdateOptions)
    requires ValidTable(t)
    ensures var t' := PostTable(t, zoneId, o); var r := t'.records[|t.records|];
      t'.records == t.records + [r] && t'.zones == t.zones
      && Carries(r, WithDefaults(o)) && r.zoneId == zoneId && r.id != ""
      && (forall i :: 0 <= i < |t.records| ==> t.records[i].id != r.id)
      && ValidTable(t')
  {
    var t' := PostTable(t, zoneId, o);
    forall i, k | 0 <= i < |t'.records| && t'.nextId <= k
      ensures t'.records[i].id != DecimalId(k)
    {
      if i == |t.records| && DecimalId(t.nextId) == DecimalId(k) {
        DecimalIdInjective(t.nextId, k);
      }
    }
  }

  /** The defaults of `postDnsRecord` change nothing on the upsert path, whose
      request already carries the defaults of `updateDnsRecord`. */
  lemma PostDefaultsRedundant(t: Table, zoneId: string, o: UpdateOptions)
    ensures PostTable(t, zoneId, Supplied(WithDefaults(o))) == PostTable(t, zoneId, o)
  {
  }

  /** Which write the upsert issues: none when the root names no zone; a patch of
      exactly the looked-up id when the lookup is truthy; a create otherwise,
      including when the lookup is absent or the empty string. */
  lemma UpsertRoutes(t: Table, o: UpdateOptions)
    ensures var (r, t') := Upsert(t, o);
      (r.Ok? <==> exists i :: 0 <= i < |t.zones| && IsZoneNamed(t.zones[i], ZoneRoot(o.name)))
      && (r.Err? ==> t' == t && r.error == ZoneNotFound(ZoneRoot(o.name)))
      && (r.Ok? ==> var id := GetDnsRecordId(t.records, UpsertZone(t, o).value, o.name, o.recordType);
            (r.value.Patched? <==> Truthy(id))
            && (r.value.Patched? ==> id == Some(r.value.recordId)))
  {
  }

  /** When the zone resolves and no record of that name and type exists in it,
      the upsert is the provider's create under the next id. */
  lemma UpsertCreatesWhenNoneMatch(t: Table, o: UpdateOptions, zoneId: string)
    requires UpsertZone(t, o) == Ok(zoneId)
    requires forall i :: 0 <= i < |t.records| ==> !IsRecordFor(t.records[i], zoneId, o.name, o.recordType)
    ensures Upsert(t, o) == (Ok(Created(DecimalId(t.nextId))), PostTable(t, zoneId, o))
  {
    PostDefaultsRedundant(t, zoneId, o);
  }

  /** With the provider's ids, the upsert patches exactly when a record of that
      name and type already exists in the zone, and creates otherwise. */
  lemma UpsertCreatesOnlyWhenAbsent(t: Table, o: UpdateOptions)
    requires ValidTable(t)
    ensures var (r, _) := Upsert(t, o);
      r.Ok? ==> (r.value.Created? <==>
        forall i :: 0 <= i < |t.records| ==> !IsRecordFor(t.records[i], UpsertZone(t, o).value, o.name, o.recordType))
  {
    var (r, _) := Upsert(t, o);
    if r.Ok? {
      var zoneId := UpsertZone(t, o).value;
      var id := GetDnsRecordId(t.records, zoneId, o.name, o.recordType);
      if id.Some? {
        var i :| 0 <= i < |t.records| && IsRecordFor(t.records[i], zoneId, o.name, o.recordType) && id.value == t.records[i].id;
        assert t.records[i].id != "";
      }
    }
  }

  /** Exactly one provider write per successful call, with the defaults filled
      in: a patch rewrites the first matching record and nothing else; a create
      appends one record. A failed call writes nothing. */
  lemma UpsertWritesOnce(t: Table, o: UpdateOptions)
    requires ValidTable(t)
    ensures var (r, t') := Upsert(t, o);
      t'.zones == t.zones && ValidTable(t')
      && (r.Err? ==> t' == t)
      && (r.Ok? && r.value.Patched? ==>
            var i := RecordIndex(t.records, UpsertZone(t, o).value, o.name, o.recordType);
            0 <= i < |t.records| && t.records[i].id == r.value.recordId
            && |t'.records| == |t.records| && t'.nextId == t.nextId
            && t'.records[i] == Rewrite(t.records[i], WithDefaults(o))
            && forall j :: 0 <= j < |t.records| && j != i ==> t'.records[j] == t.records[j])
      && (r.Ok? && r.value.Created? ==>
            |t'.records| == |t.records| + 1 && t'.records[..|t.records|] == t.records
            && var n := t'.records[|t.records|];
            n.id == r.value.recordId && n.zoneId == UpsertZone(t, o).value && Carries(n, WithDefaults(o))
            && forall j :: 0 <= j < |t.records| ==> t.records[j].id != n.id)
  {
    var (r, t') := Upsert(t, o);
    if r.Ok? {
      var zoneId := UpsertZone(t, o).value;
      var body := WithDefaults(o);
      if r.value.Patched? {
        var i := RecordIndex(t.records, zoneId, o.name, o.recordType);
        IdIndexUnique(t, zoneId, i);
        PatchRewritesOne(t, zoneId, r.value.recordId, body);
        PatchPreservesValid(t, zoneId, r.value.recordId, body);
      } else {
        PostAppendsFresh(t, zoneId, Supplied(body));
      }
    }
  }

  /** Number of records of the zone with this name and type. */
  function Matching(records: seq<Record>, zoneId: string, name: string, recordType: string): nat
  {
    CountWhere(records, RecordTest(zoneId, name, recordType))
  }

  /** What the second of two equal upserts sees after the first one succeeded:
      the same zone, the written record first among the matches, and the match
      count the first one left. */
  predicate SecondUpsertFacts(t: Table, o: UpdateOptions, r1: Result<Outcome>, t1: Table, r2: Result<Outcome>, t2: Table)
    requires r1.Ok? && UpsertZone(t, o).Ok?
  {
    var zoneId := UpsertZone(t, o).value;
    r2 == Ok(Patched(r1.value.recordId)) && t2 == t1
    && Matching(t1.records, zoneId, o.name, o.recordType)
       == (if Matching(t.records, zoneId, o.name, o.recordType) == 0 then 1
           else Matching(t.records, zoneId, o.name, o.recordType))
    && var i := RecordIndex(t1.records, zoneId, o.name, o.recordType);
    0 <= i < |t1.records| && t1.records[i].id == r1.value.recordId
    && Carries(t1.records[i], WithDefaults(o))
  }

  /** Repeating an upsert that patched: the record stays first among the matches
      and already carries the body, so the repeat rewrites it with itself. */
  lemma UpsertTwiceAfterPatch(t: Table, o: UpdateOptions)
    requires ValidTable(t) && Upsert(t, o).0.Ok? && Upsert(t, o).0.value.Patched?
    ensures UpsertZone(t, o).Ok?
    ensures var (r1, t1) := Upsert(t, o); var (r2, t2) := Upsert(t1, o);
      SecondUpsertFacts(t, o, r1, t1, r2, t2)
  {
    var (r1, t1) := Upsert(t, o);
    UpsertWritesOnce(t, o);
    var zoneId := UpsertZone(t, o).value;
    var body := WithDefaults(o);
    var p := RecordTest(zoneId, o.name, o.recordType);
    assert UpsertZone(t1, o) == UpsertZone(t, o);
    var i := RecordIndex(t.records, zoneId, o.name, o.recordType);
    assert p(t1.records[i]);
    assert forall j :: 0 <= j < i ==> t1.records[j] == t.records[j];
    assert RecordIndex(t1.records, zoneId, o.name, o.recordType) == i;
    IdIndexUnique(t1, zoneId, i);
    assert Rewrite(t1.records[i], body) == t1.records[i];
    assert t1.records == t.records[i := t1.records[i]];
    CountWhereUpdate(t.records, i, t1.records[i], p);
    CountWhereZero(t.records, p);
    assert t1.records[i := Rewrite(t1.records[i], body)] == t1.records;
  }

  /** Repeating an upsert that created: the new record is the only match, and the
      repeat patches it with the body it already carries. */
  lemma UpsertTwiceAfterCreate(t: Table, o: UpdateOptions)
    requires ValidTable(t) && Upsert(t, o).0.Ok? && Upsert(t, o).0.value.Created?
    ensures UpsertZone(t, o).Ok?
    ensures var (r1, t1) := Upsert(t, o); var (r2, t2) := Upsert(t1, o);
      SecondUpsertFacts(t, o, r1, t1, r2, t2)
  {
    var (r1, t1) := Upsert(t, o);
    UpsertWritesOnce(t, o);
    var zoneId := UpsertZone(t, o).value;
    var body := WithDefaults(o);
    var p := RecordTest(zoneId, o.name, o.recordType);
    assert UpsertZone(t1, o) == UpsertZone(t, o);
    var n := |t.records|;
    UpsertCreatesOnlyWhenAbsent(t, o);
    assert t1.records == t.records + [t1.records[n]];
    assert forall j :: 0 <= j < n ==> t1.records[j] == t.records[j];
    assert RecordIndex(t1.records, zoneId, o.name, o.recordType) == n;
    IdIndexUnique(t1, zoneId, n);
    assert Rewrite(t1.records[n], body) == t1.records[n];
    assert t1.records[n := Rewrite(t1.records[n], body)] == t1.records;
    CountWhereZero(t.records, p);
    CountWhereAppend(t.records, t1.records[n], p);
  }

  /** Idempotence: a second upsert with the same request is a patch of the record
      the first one wrote and leaves the table exactly as the first left it. The
      first leaves one matching record if there was none, else as many as before;
      the record the lookup now finds carries the request with its defaults. A
      failed first upsert fails again the same way and writes nothing. */
  lemma UpsertTwice(t: Table, o: UpdateOptions)
    requires ValidTable(t)
    ensures var (r1, t1) := Upsert(t, o); var (r2, t2) := Upsert(t1, o);
      (r1.Err? ==> r2 == r1 && t2 == t)
      && (r1.Ok? ==> UpsertZone(t, o).Ok? && SecondUpsertFacts(t, o, r1, t1, r2, t2))
  {
    var (r1, t1) := Upsert(t, o);
    if r1.Ok? {
      if r1.value.Patched? {
        UpsertTwiceAfterPatch(t, o);
      } else {
        UpsertTwiceAfterCreate(t, o);
      }
    }
  }

  /** The provider as the client sees it: a mutable record table over fixed zones. */
  class Provider {
    const zones: seq<Zone>
    var records: seq<Record>
    var nextId: nat

    function State(): Table
      reads this
    {
      Table(zones, records, nextId)
    }

    ghost predicate Valid()
      reads this
    {
      ValidTable(State())
    }

    constructor (zones: seq<Zone>, records: seq<Record>, nextId: nat)
      requires ValidTable(Table(zones, records, nextId))
      ensures Valid() && State() == Table(zones, records, nextId)
    {
      this.zones := zones;
      this.records := records;
      this.nextId := nextId;
    }

    /** `patchDnsRecord`: rewrites the record with this id in this zone with the
        whole body. `ok` is the response status the caller receives and never checks. */
    method PatchDnsRecord(zoneId: string, recordId: string, body: CreateOptions) returns (ok: bool)
      requires Valid()
      modifies this
      ensures Valid()
      ensures State() == PatchTable(old(State()), zoneId, recordId, body)
      ensures ok <==> exists i :: 0 <= i < |old(records)| && HasId(old(records)[i], zoneId, recordId)
    {
      PatchPreservesValid(State(), zoneId, recordId, body);
      var i := IdIndex(records, zoneId, recordId);
      ok := i >= 0;
      if ok {
        records := records[i := Rewrite(records[i], body)];
      }
    }

    /** `postDnsRecord`: fills in the defaults and appends a record under a fresh id. */
    method PostDnsRecord(zoneId: string, o: UpdateOptions) returns (id: string)
      requires Valid()
      modifies this
      ensures Valid()
      ensures State() == PostTable(old(State()), zoneId, o)
      ensures id == DecimalId(old(nextId)) && id != ""
      ensures forall i :: 0 <= i < |old(records)| ==> old(records)[i].id != id
    {
      PostAppendsFresh(State(), zoneId, o);
      id := DecimalId(nextId);
      records := records + [NewRecord(State(), zoneId, o)];
      nextId := nextId + 1;
    }

    /** `updateDnsRecord`: the upsert, one lookup of the zone, one of the record,
        then exactly one of the two writes. */
    method UpdateDnsRecord(o: UpdateOptions) returns (r: Result<Outcome>)
      requires Valid()
      modifies this
      ensures Valid()
      ensures (r, State()) == Upsert(old(State()), o)
    {
      var body := WithDefaults(o);
      var zone := GetZoneId(zones, ZoneRoot(o.name));
      if zone.Err? {
        return Err(zone.error);
      }
      var recordId := GetDnsRecordId(records, zone.value, o.name, o.recordType);
      if recordId.Some? && recordId.value != "" {
        var _ := PatchDnsRecord(zone.value, recordId.value, body);
        r := Ok(Patched(recordId.value));
      } else {
        var id := PostDnsRecord(zone.value, Supplied(body));
        r := Ok(Created(id));
      }
    }
  }
}
