/** The updater's two entry points: `updateCloudFlareDnsRecord` decides, per
    address family, whether a configured domain gets an A or AAAA upsert, and
    `updateCloudFlareDnsRecords` runs that over every configured domain in
    order, against one pair of discovered addresses. */
module Updater {
  import opened DnsTypes
  import opened ZoneRoots
  import opened Lookup
  import opened CloudFlareApi

  /** An address family; also the keys of the per-domain result. */
  datatype Family = Ip4 | Ip6

  /** The addresses discovered once per run; one that was not found is the empty string. */
  datatype Ips = Ips(ip4: string, ip6: string)

  /** One configured domain (`DnsItem`): its credential, its record options, and
      the per-family switches, each absent, true or false. A `recordType` or
      `content` given in the configuration is always overridden. */
  datatype DnsItem = DnsItem(
    apiToken: string,
    name: string,
    recordType: Option<string>,
    content: Option<string>,
    ttl: Option<int>,
    proxied: Option<bool>,
    ip4: Option<bool>,
    ip6: Option<bool>)

  function Address(ips: Ips, f: Family): string
  {
    match f
    case Ip4 => ips.ip4
    case Ip6 => ips.ip6
  }

  function TypeOf(f: Family): string
  {
    match f
    case Ip4 => TypeA
    case Ip6 => TypeAAAA
  }

  function Switch(item: DnsItem, f: Family): Option<bool>
  {
    match f
    case Ip4 => item.ip4
    case Ip6 => item.ip6
  }

  /** The gate `ip && options.ip !== false`: the address is a non-empty string
      and the item has not set the family's switch to false. */
  predicate Gated(item: DnsItem, ips: Ips, f: Family)
  {
    Address(ips, f) != "" && Switch(item, f) != Some(false)
  }

  /** `{ ...options, type, content }`: the item's options with the family's
      record type and the discovered address written over its own. */
  function RequestFor(item: DnsItem, ips: Ips, f: Family): UpdateOptions
  {
    UpdateOptions(item.name, TypeOf(f), Address(ips, f), item.ttl, item.proxied)
  }

  /** The families an item updates, in the order it updates them. */
  function Families(item: DnsItem, ips: Ips): seq<Family>
  {
    (if Gated(item, ips, Ip4) then [Ip4] else []) + (if Gated(item, ips, Ip6) then [Ip6] else [])
  }

  /** The upsert requests one item issues, in order. */
  function ItemRequests(item: DnsItem, ips: Ips): seq<UpdateOptions>
  {
    (if Gated(item, ips, Ip4) then [RequestFor(item, ips, Ip4)] else [])
    + (if Gated(item, ips, Ip6) then [RequestFor(item, ips, Ip6)] else [])
  }

  /** The upsert requests of a batch: each item's requests, items in input order. */
  function BatchRequests(items: seq<DnsItem>, ips: Ips): seq<UpdateOptions>
  {
    if items == [] then [] else ItemRequests(items[0], ips) + BatchRequests(items[1..], ips)
  }

  /** Steps applied one after another to a state; the first failure stops the
      rest, as a thrown error leaves the remaining awaits unreached. */
  function Run<Q, R, S>(step: (S, Q) -> (Result<R>, S), s: S, reqs: seq<Q>): (Result<seq<R>>, S)
    decreases |reqs|
  {
    if reqs == [] then (Ok([]), s)
    else
      var (r, s1) := step(s, reqs[0]);
      match r
      case Err(e) => (Err(e), s1)
      case Ok(out) =>
        var (rest, s2) := Run(step, s1, reqs[1..]);
        match rest
        case Err(e) => (Err(e), s2)
        case Ok(outs) => (Ok([out] + outs), s2)
  }

  /** Running more steps after a finished run, unless that run failed. */
  function Continue<Q, R, S>(step: (S, Q) -> (Result<R>, S), run: (Result<seq<R>>, S), reqs: seq<Q>): (Result<seq<R>>, S)
  {
    match run.0
    case Err(_) => run
    case Ok(done) =>
      var (rest, s2) := Run(step, run.1, reqs);
      match rest
      case Err(e) => (Err(e), s2)
      case Ok(outs) => (Ok(done + outs), s2)
  }

  lemma {:induction false} RunConcat<Q, R, S>(step: (S, Q) -> (Result<R>, S), s: S, a: seq<Q>, b: seq<Q>)
    ensures Run(step, s, a + b) == Continue(step, Run(step, s, a), b)
    decreases |a|
  {
    if a == [] {
      assert a + b == b;
      var (rb, _) := Run(step, s, b);
      if rb.Ok? {
        assert [] + rb.value == rb.value;
      }
    } else {
      assert (a + b)[0] == a[0];
      assert (a + b)[1..] == a[1..] + b;
      var (r, s1) := step(s, a[0]);
      if r.Ok? {
        RunConcat(step, s1, a[1..], b);
        var (rest, s2) := Run(step, s1, a[1..]);
        if rest.Ok? {
          var (more, s3) := Run(step, s2, b);
          if more.Ok? {
            assert [r.value] + (rest.value + more.value) == ([r.value] + rest.value) + more.value;
          }
        }
      }
    }
  }

  /** The upserts of a list of requests, one after another, stopping at the first failure. */
  function ApplyAll(t: Table, reqs: seq<UpdateOptions>): (Result<seq<Outcome>>, Table)
  {
    Run(Upsert, t, reqs)
  }

  lemma FamiliesMatchRequests(item: DnsItem, ips: Ips)
    ensures var fs := Families(item, ips);
      |fs| == |ItemRequests(item, ips)|
      && (forall f :: f in fs <==> Gated(item, ips, f))
      && forall k :: 0 <= k < |fs| ==> Gated(item, ips, fs[k]) && ItemRequests(item, ips)[k] == RequestFor(item, ips, fs[k])
  {
  }

  lemma ItemRequestsGating(item: DnsItem, ips: Ips)
    ensures var reqs := ItemRequests(item, ips);
      |reqs| <= 2
      && ((exists k :: 0 <= k < |reqs| && reqs[k].recordType == TypeA) <==> ips.ip4 != "" && item.ip4 != Some(false))
      && ((exists k :: 0 <= k < |reqs| && reqs[k].recordType == TypeAAAA) <==> ips.ip6 != "" && item.ip6 != Some(false))
      && (forall k1, k2 :: 0 <= k1 < k2 < |reqs| ==> reqs[k1].recordType == TypeA && reqs[k2].recordType == TypeAAAA)
      && forall k :: 0 <= k < |reqs| ==>
           reqs[k].name == item.name && reqs[k].ttl == item.ttl && reqs[k].proxied == item.proxied
           && ((reqs[k].recordType == TypeA && reqs[k].content == ips.ip4)
               || (reqs[k].recordType == TypeAAAA && reqs[k].content == ips.ip6))
  {
    var reqs := ItemRequests(item, ips);
    if Gated(item, ips, Ip4) {
      assert reqs[0].recordType == TypeA;
    }
    if Gated(item, ips, Ip6) {
      assert reqs[|reqs| - 1].recordType == TypeAAAA;
    }
  }

  /** A run that failed is not continued: later steps are never taken. */
  lemma RunStops<Q, R, S>(step: (S, Q) -> (Result<R>, S), s: S, a: seq<Q>, b: seq<Q>)
    requires Run(step, s, a).0.Err?
    ensures Run(step, s, a + b) == Run(step, s, a)
  {
    RunConcat(step, s, a, b);
  }

  /** One more step after a successful run is that step on the state the run left. */
  lemma RunStep<Q, R, S>(step: (S, Q) -> (Result<R>, S), s: S, a: seq<Q>, q: Q)
    requires Run(step, s, a).0.Ok?
    ensures var (r, s') := step(Run(step, s, a).1, q);
      Run(step, s, a + [q]) == (if r.Ok? then Ok(Run(step, s, a).0.value + [r.value]) else Err(r.error), s')
  {
    RunConcat(step, s, a, [q]);
    assert [q][1..] == [];
    var (r, s') := step(Run(step, s, a).1, q);
    if r.Ok? {
      assert Run(step, s', []) == (Ok([]), s');
      assert [r.value] + [] == [r.value];
    }
  }

  /** The requests of a longer list of items are those of its parts, in order. */
  lemma {:induction false} BatchRequestsAppend(a: seq<DnsItem>, b: seq<DnsItem>, ips: Ips)
    ensures BatchRequests(a + b, ips) == BatchRequests(a, ips) + BatchRequests(b, ips)
  {
    if a == [] {
      assert a + b == b;
    } else {
      assert (a + b)[0] == a[0];
      assert (a + b)[1..] == a[1..] + b;
      BatchRequestsAppend(a[1..], b, ips);
    }
  }

  /** Every request of a batch is the request of one of its items for a family
      that item lets through: an address was found for it and it is not switched off. */
  lemma {:induction false} BatchRequestsGated(items: seq<DnsItem>, ips: Ips)
    ensures forall k :: 0 <= k < |BatchRequests(items, ips)| ==>
      exists i, f :: 0 <= i < |items| && Gated(items[i], ips, f) && BatchRequests(items, ips)[k] == RequestFor(items[i], ips, f)
    decreases |items|
  {
    if items == [] {
      assert BatchRequests(items, ips) == [];
    } else {
      BatchRequestsGated(items[1..], ips);
      FamiliesMatchRequests(items[0], ips);
      var reqs := BatchRequests(items, ips);
      var head := ItemRequests(items[0], ips);
      var rest := BatchRequests(items[1..], ips);
      assert reqs == head + rest;
      forall k | 0 <= k < |reqs|
        ensures exists i, f :: 0 <= i < |items| && Gated(items[i], ips, f) && reqs[k] == RequestFor(items[i], ips, f)
      {
        if k < |head| {
          var f := Families(items[0], ips)[k];
          assert reqs[k] == head[k];
          assert Gated(items[0], ips, f) && reqs[k] == RequestFor(items[0], ips, f);
        } else {
          assert reqs[k] == rest[k - |head|];
          var i, f :| 0 <= i < |items[1..]| && Gated(items[1..][i], ips, f) && rest[k - |head|] == RequestFor(items[1..][i], ips, f);
          assert items[1..][i] == items[i + 1];
          assert Gated(items[i + 1], ips, f) && reqs[k] == RequestFor(items[i + 1], ips, f);
        }
      }
    }
  }

  /** One family's turn in `updateCloudFlareDnsRecord`: after a failure, or when
      the family's gate is closed, nothing happens; otherwise the family's request
      is upserted and its outcome stored under the family's key. */
  function FamilyStep<S>(upsert: (S, UpdateOptions) -> (Result<Outcome>, S), run: (Result<map<Family, Outcome>>, S),
                         item: DnsItem, ips: Ips, f: Family): (Result<map<Family, Outcome>>, S)
  {
    if run.0.Err? || !Gated(item, ips, f) then run
    else
      var (r, s') := upsert(run.1, RequestFor(item, ips, f));
      match r
      case Err(e) => (Err(e), s')
      case Ok(out) => (Ok(run.0.value[f := out]), s')
  }

  /** One item's update over any upsert: the A turn, then the AAAA turn, from an empty result. */
  function ItemRunWith<S>(upsert: (S, UpdateOptions) -> (Result<Outcome>, S), s: S, item: DnsItem, ips: Ips)
    : (Result<map<Family, Outcome>>, S)
  {
    FamilyStep(upsert, FamilyStep(upsert, (Ok(map[]), s), item, ips, Ip4), item, ips, Ip6)
  }

  /** The item update as a step over items, all sharing the same addresses. */
  function ItemStep<S>(upsert: (S, UpdateOptions) -> (Result<Outcome>, S), ips: Ips)
    : (S, DnsItem) -> (Result<map<Family, Outcome>>, S)
  {
    (s: S, item: DnsItem) => ItemRunWith(upsert, s, item, ips)
  }

  /** Running one request after an empty run is that request's step. */
  lemma RunOne<Q, R, S>(step: (S, Q) -> (Result<R>, S), s: S, q: Q)
    ensures var (r, s') := step(s, q);
      Run(step, s, [q]) == (if r.Ok? then Ok([r.value]) else Err(r.error), s')
  {
    assert [q][1..] == [];
    var (r, s') := step(s, q);
    if r.Ok? {
      assert Run(step, s', []) == (Ok([]), s');
      assert [r.value] + [] == [r.value];
    }
  }

  /** The loop step of a run over a list: the step at position `i`, after the
      run of the prefix before it succeeded, extends that run by one, or ends the
      whole run when it fails. */
  lemma RunExtend<Q, R, S>(step: (S, Q) -> (Result<R>, S), s: S, qs: seq<Q>, i: nat, outs: seq<R>, si: S, r: Result<R>, s': S)
    requires i < |qs| && Run(step, s, qs[..i]) == (Ok(outs), si) && step(si, qs[i]) == (r, s')
    ensures r.Ok? ==> Run(step, s, qs[..i + 1]) == (Ok(outs + [r.value]), s')
    ensures r.Err? ==> Run(step, s, qs) == (Err(r.error), s')
  {
    RunStep(step, s, qs[..i], qs[i]);
    assert qs[..i + 1] == qs[..i] + [qs[i]];
    if r.Err? {
      RunStops(step, s, qs[..i + 1], qs[i + 1..]);
      assert qs[..i + 1] + qs[i + 1..] == qs;
    }
  }

  /** An item's update issues exactly its requests, in order: it leaves the state
      the run of those requests leaves, fails exactly when that run fails, and on
      success holds one entry per family let through, each the outcome of that
      family's request. */
  lemma ItemRunMatchesRequests<S>(upsert: (S, UpdateOptions) -> (Result<Outcome>, S), s: S, item: DnsItem, ips: Ips)
    ensures var (r, s1) := ItemRunWith(upsert, s, item, ips);
      var (res, s2) := Run(upsert, s, ItemRequests(item, ips));
      s1 == s2 && r.Ok? == res.Ok? && (r.Err? ==> r.error == res.error)
      && (r.Ok? ==> (forall f :: f in r.value <==> Gated(item, ips, f))
                    && |res.value| == |Families(item, ips)|
                    && forall k :: 0 <= k < |res.value| ==> r.value[Families(item, ips)[k]] == res.value[k])
  {
    var req4 := RequestFor(item, ips, Ip4);
    var req6 := RequestFor(item, ips, Ip6);
    var a4 := if Gated(item, ips, Ip4) then [req4] else [];
    var a6 := if Gated(item, ips, Ip6) then [req6] else [];
    assert ItemRequests(item, ips) == a4 + a6;
    RunConcat(upsert, s, a4, a6);
    var run4 := FamilyStep(upsert, (Ok(map[]), s), item, ips, Ip4);
    if Gated(item, ips, Ip4) {
      RunOne(upsert, s, req4);
    } else {
      assert Run(upsert, s, a4) == (Ok([]), s);
    }
    if run4.0.Ok? {
      if Gated(item, ips, Ip6) {
        RunOne(upsert, run4.1, req6);
      } else {
        assert Run(upsert, run4.1, a6) == (Ok([]), run4.1);
      }
    }
  }

  /** A batch issues exactly the concatenation of its items' requests: it leaves
      the state their run leaves, fails exactly when that run fails, and on success
      holds one result per item, keyed by the families that item lets through. */
  lemma {:induction false} BatchMatchesRequests<S>(upsert: (S, UpdateOptions) -> (Result<Outcome>, S), s: S,
                                                  items: seq<DnsItem>, ips: Ips)
    ensures var (r, s1) := Run(ItemStep(upsert, ips), s, items);
      var (res, s2) := Run(upsert, s, BatchRequests(items, ips));
      s1 == s2 && r.Ok? == res.Ok? && (r.Err? ==> r.error == res.error)
      && (r.Ok? ==> |r.value| == |items|
                    && forall i, f :: 0 <= i < |items| ==> (f in r.value[i] <==> Gated(items[i], ips, f)))
    decreases |items|
  {
    if items == [] {
    } else {
      var head := ItemRequests(items[0], ips);
      var tail := BatchRequests(items[1..], ips);
      ItemRunMatchesRequests(upsert, s, items[0], ips);
      RunConcat(upsert, s, head, tail);
      var (r0, s0) := ItemRunWith(upsert, s, items[0], ips);
      if r0.Ok? {
        BatchMatchesRequests(upsert, s0, items[1..], ips);
        var (rest, _) := Run(ItemStep(upsert, ips), s0, items[1..]);
        if rest.Ok? {
          var r := Run(ItemStep(upsert, ips), s, items).0;
          forall i, f | 0 <= i < |items|
            ensures f in r.value[i] <==> Gated(items[i], ips, f)
          {
            if i > 0 {
              assert r.value[i] == rest.value[i - 1] && items[i] == items[1..][i - 1];
            }
          }
        }
      }
    }
  }

  /** For the provider's upsert: a batch's writes are the upserts of
      `BatchRequests`, in order, and each item's result has a key exactly for the
      families it lets through. */
  lemma BatchIsRequestUpserts(t: Table, items: seq<DnsItem>, ips: Ips)
    ensures var (r, t1) := Run(ItemStep(Upsert, ips), t, items);
      var (res, t2) := ApplyAll(t, BatchRequests(items, ips));
      t1 == t2 && r.Ok? == res.Ok? && (r.Err? ==> r.error == res.error)
      && (r.Ok? ==> |r.value| == |items|
                    && forall i, f :: 0 <= i < |items| ==> (f in r.value[i] <==> Gated(items[i], ips, f)))
  {
    BatchMatchesRequests(Upsert, t, items, ips);
  }

  /** `updateCloudFlareDnsRecord`: upserts the item's A record, then its AAAA
      record, each only if its gate is open, and collects the outcomes under the
      families' keys; the first failure propagates. The provider stands for the
      client built from the item's credential. */
  method UpdateCloudFlareDnsRecord(api: Provider, item: DnsItem, ips: Ips) returns (r: Result<map<Family, Outcome>>)
    requires api.Valid()
    modifies api
    ensures api.Valid()
    ensures (r, api.State()) == ItemRunWith(Upsert, old(api.State()), item, ips)
  {
    ghost var t0 := api.State();
    var result: map<Family, Outcome> := map[];
    if ips.ip4 != "" && item.ip4 != Some(false) {
      var r4 := api.UpdateDnsRecord(RequestFor(item, ips, Ip4));
      if r4.Err? {
        return Err(r4.error);
      }
      result := result[Ip4 := r4.value];
    }
    assert FamilyStep(Upsert, (Ok(map[]), t0), item, ips, Ip4) == (Ok(result), api.State());
    if ips.ip6 != "" && item.ip6 != Some(false) {
      var r6 := api.UpdateDnsRecord(RequestFor(item, ips, Ip6));
      if r6.Err? {
        return Err(r6.error);
      }
      result := result[Ip6 := r6.value];
    }
    r := Ok(result);
  }

  /** `updateCloudFlareDnsRecords`: every item in input order, all against the
      same discovered addresses; the first failure ends the batch. The per-item
      results, which the source only prints in debug mode, are returned here so
      that they can be stated. */
  method UpdateCloudFlareDnsRecords(api: Provider, items: seq<DnsItem>, ips: Ips)
    returns (r: Result<seq<map<Family, Outcome>>>)
    requires api.Valid()
    modifies api
    ensures api.Valid()
    ensures (r, api.State()) == Run(ItemStep(Upsert, ips), old(api.State()), items)
  {
    ghost var t0 := api.State();
    var results: seq<map<Family, Outcome>> := [];
    for i := 0 to |items|
      invariant api.Valid()
      invariant Run(ItemStep(Upsert, ips), t0, items[..i]) == (Ok(results), api.State())
    {
      ghost var ti := api.State();
      var res := UpdateCloudFlareDnsRecord(api, items[i], ips);
      RunExtend(ItemStep(Upsert, ips), t0, items, i, results, ti, res, api.State());
      if res.Err? {
        return Err(res.error);
      }
      results := results + [res.value];
    }
    assert items[..|items|] == items;
    r := Ok(results);
  }

  /** A fresh deployment: one domain with both addresses found, and a provider
      holding the zone `example.com` and no records. */
  const HomeItem := DnsItem("T", "home.example.com", None, None, None, None, None, None)
  const HomeIps := Ips("1.2.3.4", "2001:db8::1")
  const FreshTable := Table([Zone("Z1", "example.com")], [], 0)
  const HomeA := Record("0", "Z1", "home.example.com", TypeA, "1.2.3.4", 120, true)
  const HomeAAAA := Record("1", "Z1", "home.example.com", TypeAAAA, "2001:db8::1", 120, true)

  /** The record name resolves to the zone `Z1` whatever records exist. */
  lemma HomeZone(t: Table, f: Family)
    requires t.zones == FreshTable.zones
    ensures UpsertZone(t, RequestFor(HomeItem, HomeIps, f)) == Ok("Z1")
  {
    ZoneRootOfHost();
  }

  /** The A upsert finds no record and creates one under id "0" with the defaults. */
  lemma HomeFirstUpsert()
    ensures Upsert(FreshTable, RequestFor(HomeItem, HomeIps, Ip4))
         == (Ok(Created("0")), Table(FreshTable.zones, [HomeA], 1))
  {
    var o := RequestFor(HomeItem, HomeIps, Ip4);
    HomeZone(FreshTable, Ip4);
    UpsertCreatesWhenNoneMatch(FreshTable, o, "Z1");
    assert DecimalId(0) == "0";
    assert NewRecord(FreshTable, "Z1", o) == HomeA;
    assert FreshTable.records + [HomeA] == [HomeA];
  }

  /** The AAAA upsert does not take the A record for its own and creates one under id "1". */
  lemma HomeSecondUpsert()
    ensures Upsert(Table(FreshTable.zones, [HomeA], 1), RequestFor(HomeItem, HomeIps, Ip6))
         == (Ok(Created("1")), Table(FreshTable.zones, [HomeA, HomeAAAA], 2))
  {
    var t1 := Table(FreshTable.zones, [HomeA], 1);
    var o := RequestFor(HomeItem, HomeIps, Ip6);
    HomeZone(t1, Ip6);
    assert !IsRecordFor(HomeA, "Z1", o.name, o.recordType);
    UpsertCreatesWhenNoneMatch(t1, o, "Z1");
    assert DecimalId(1) == "1";
    assert NewRecord(t1, "Z1", o) == HomeAAAA;
    assert [HomeA] + [HomeAAAA] == [HomeA, HomeAAAA];
  }

  /** The item's update: the A turn, then the AAAA turn, both creations. */
  lemma HomeItemRun()
    ensures ItemRunWith(Upsert, FreshTable, HomeItem, HomeIps)
         == (Ok(map[Ip4 := Created("0"), Ip6 := Created("1")]), Table(FreshTable.zones, [HomeA, HomeAAAA], 2))
  {
    HomeFirstUpsert();
    HomeSecondUpsert();
  }

  /** The batch over the fresh deployment creates an A record and then an AAAA
      record, both with the default TTL 120 and proxying on, and reports both
      creations under their families. */
  lemma EndToEndScenario()
    ensures Run(ItemStep(Upsert, HomeIps), FreshTable, [HomeItem])
         == (Ok([map[Ip4 := Created("0"), Ip6 := Created("1")]]), Table(FreshTable.zones, [HomeA, HomeAAAA], 2))
  {
    HomeItemRun();
    RunOne(ItemStep(Upsert, HomeIps), FreshTable, HomeItem);
  }
}
