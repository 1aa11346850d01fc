/** The provider client's two read operations. Each takes the list the provider
    returns and keeps the first entry that satisfies an exact test, as
    `Array.prototype.find` does; they differ in what a miss means. */
module Lookup {
  import opened DnsTypes

  /** Index of the first element of `s` satisfying `p`, or -1 when none does. */
  function FirstWhere<T>(s: seq<T>, p: T -> bool, from: nat := 0): (i: int)
    requires from <= |s|
    ensures i == -1 || from <= i < |s|
    ensures i >= 0 ==> p(s[i]) && forall j :: from <= j < i ==> !p(s[j])
    ensures i == -1 ==> forall j :: from <= j < |s| ==> !p(s[j])
    decreases |s| - from
  {
    if from == |s| then -1
    else if p(s[from]) then from
    else FirstWhere(s, p, from + 1)
  }

  /** Number of elements of `s` satisfying `p`. */
  function CountWhere<T>(s: seq<T>, p: T -> bool): nat
  {
    if s == [] then 0 else (if p(s[0]) then 1 else 0) + CountWhere(s[1..], p)
  }

  predicate IsZoneNamed(z: Zone, name: string)
  {
    z.name == name
  }

  /** The record lookup's test: same zone, same name, same type. */
  predicate IsRecordFor(r: Record, zoneId: string, name: string, recordType: string)
  {
    r.zoneId == zoneId && r.name == name && r.recordType == recordType
  }

  /** The record lookup's test as a value, shared by every search and count over records. */
  function RecordTest(zoneId: string, name: string, recordType: string): Record -> bool
  {
    (r: Record) => IsRecordFor(r, zoneId, name, recordType)
  }

  /** `getZoneId`: the id of the first zone named exactly `name`; a miss fails
      (the source dereferences the missing entry and throws). */
  function GetZoneId(zones: seq<Zone>, name: string): (r: Result<string>)
    ensures r.Ok? <==> exists i :: 0 <= i < |zones| && IsZoneNamed(zones[i], name)
    ensures r.Ok? ==> exists i :: 0 <= i < |zones| && IsZoneNamed(zones[i], name) && r.value == zones[i].id
                               && forall j :: 0 <= j < i ==> !IsZoneNamed(zones[j], name)
    ensures r.Err? ==> r.error == ZoneNotFound(name)
  {
    var i := FirstWhere(zones, (z: Zone) => IsZoneNamed(z, name));
    if i < 0 then Err(ZoneNotFound(name)) else Ok(zones[i].id)
  }

  /** `getDnsRecordId`: the id of the first record of zone `zoneId` with this name
      and type; a miss is an absent value, not a failure. */
  function GetDnsRecordId(records: seq<Record>, zoneId: string, name: string, recordType: string): (r: Option<string>)
    ensures r.Some? <==> exists i :: 0 <= i < |records| && IsRecordFor(records[i], zoneId, name, recordType)
    ensures r.Some? ==> exists i :: 0 <= i < |records| && IsRecordFor(records[i], zoneId, name, recordType)
                                 && r.value == records[i].id
                                 && forall j :: 0 <= j < i ==> !IsRecordFor(records[j], zoneId, name, recordType)
  {
    var i := RecordIndex(records, zoneId, name, recordType);
    if i < 0 then None else Some(records[i].id)
  }

  /** The index `GetDnsRecordId` takes its answer from, -1 on a miss. */
  function RecordIndex(records: seq<Record>, zoneId: string, name: string, recordType: string): int
  {
    FirstWhere(records, RecordTest(zoneId, name, recordType))
  }

  lemma CountWhereAppend<T>(s: seq<T>, x: T, p: T -> bool)
    ensures CountWhere(s + [x], p) == CountWhere(s, p) + (if p(x) then 1 else 0)
  {
    if s != [] {
      assert (s + [x])[1..] == s[1..] + [x];
      CountWhereAppend(s[1..], x, p);
    }
  }

  /** Replacing an element by one that meets `p` exactly when it did keeps the count. */
  lemma {:induction false} CountWhereUpdate<T>(s: seq<T>, i: nat, x: T, p: T -> bool)
    requires i < |s| && p(x) == p(s[i])
    ensures CountWhere(s[i := x], p) == CountWhere(s, p)
  {
    if i > 0 {
      assert s[i := x][1..] == s[1..][i - 1 := x];
      CountWhereUpdate(s[1..], i - 1, x, p);
    }
  }

  /** Nothing found means nothing counted, and the other way round. */
  lemma {:induction false} CountWhereZero<T>(s: seq<T>, p: T -> bool)
    ensures CountWhere(s, p) == 0 <==> forall j :: 0 <= j < |s| ==> !p(s[j])
  {
    if s != [] {
      CountWhereZero(s[1..], p);
      assert forall j :: 1 <= j < |s| ==> s[j] == s[1..][j - 1];
    }
  }
}
