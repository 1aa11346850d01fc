# ddns: the record reconciliation of `lib.mjs`, in Dafny

This project models the decision layer of a dynamic-DNS updater for Cloudflare. The updater:

- takes the host's discovered IPv4 and IPv6 addresses;
- derives, for every configured domain, the zone the domain lives in;
- looks up whether an A or AAAA record of that name already exists;
- patches the record if it does, or creates it if it does not.

The model has five modules:

| module | file | models |
|---|---|---|
| `DnsTypes` | `types.dfy` | the options a caller writes (`UpdateOptions`, with `ttl` and `proxied` optional), the filled-in body sent to the provider (`CreateOptions`), zones and records, and the default fill-in (TTL 120, proxying on) |
| `ZoneRoots` | `zone_root.dfy` | the regular expression `^.+?\.([^.]+\.[^.]+)$` that turns a record name into its zone root |
| `Lookup` | `lookup.dfy` | `getZoneId` and `getDnsRecordId`, two first-match searches that differ in what a miss means |
| `CloudFlareApi` | `cloudflare_api.dfy` | the provider client (`genCloudFlareApi`) |
| `Updater` | `updater.dfy` | `updateCloudFlareDnsRecord` and `updateCloudFlareDnsRecords` |

**Zone roots.** `MatchDot` finds where the regular expression matches, and `ZoneRoot` keeps the captured group or, with no match, the whole name.

- `P.L1.L2` becomes `L1.L2`. The prefix `P` must be non-empty and free of line terminators, since JavaScript's `.` does not match them. `L1` and `L2` must be non-empty and dot-free.
- Every other name is passed through unchanged.
- Multi-label public suffixes are not special-cased: `sub.host.example.co.uk` is looked up under `co.uk`.

**The provider.** The remote provider is a record table, the `Table` datatype. Its zones are fixed. A create appends a record under a fresh id, and a patch rewrites the record with the given id in place. The client is the class `Provider`:

- Its fields are the table's parts.
- Its methods `PatchDnsRecord`, `PostDnsRecord` and `UpdateDnsRecord` change those fields.
- Each method is proved against a pure function of the table: `PatchTable`, `PostTable` or `Upsert`.

The properties of the upsert are lemmas about `Upsert`:

- which write it issues;
- that it writes exactly once;
- that defaults are filled in on both paths;
- that repeating it is a patch that changes nothing.

**The updater.** The updater methods fill a result map family by family and loop over the items. They are proved against `ItemRunWith` and `Run`:

- `ItemRunWith` is one item's two family turns, over any upsert step.
- `Run` runs steps in order and stops at the first failure, as a thrown error ends the `await` chain.

Lemmas connect these to the flat request lists `ItemRequests` and `BatchRequests`:

- An item issues exactly its gated requests, A before AAAA.
- A batch issues the concatenation of its items' requests, in input order.
- The result map of each item has a key exactly for the families it lets through.

`EndToEndScenario` runs a whole batch on concrete data.

Two places where the description of the system and the code disagree; the model follows the code:

- **A zone miss.** The description calls it a typed not-found error. The code reads `.id` of `undefined`, which throws a `TypeError`. The model returns `Err(ZoneNotFound(root))` and propagates it, as the thrown error would propagate. The item and the batch stop at the first failure, with no per-item isolation.
- **The patch body.** The description says a patch updates content, TTL and proxying. The code also sends the name and the type. `Rewrite` writes all five fields.

An upsert patches only the first record that matches the name and type. So duplicates that existed before an upsert stay. `UpsertTwice` states this: after the first upsert the number of matching records is 1 if there were none before, and unchanged otherwise.

## Model

| member | source | states |
|---|---|---|
| DnsTypes.WithDefaults | lib.mjs:84 | an omitted `ttl` becomes 120 and an omitted `proxied` becomes true; supplied values, name, type and content are kept |
| ZoneRoots.MatchDotSplits | lib.mjs:85 | a position the derivation finds is a match of the regular expression: a non-empty, line-terminator-free prefix, a dot, then two dot-free non-empty labels |
| ZoneRoots.ZoneRootOfSplit | lib.mjs:85 | every match of the regular expression is the one the derivation finds, and the zone root is exactly the captured group after it |
| ZoneRoots.ZoneRootMatchesRegex | lib.mjs:85 | the derivation finds a match if and only if the regular expression matches the name |
| ZoneRoots.ZoneRootOfShape | lib.mjs:85 | a name `P.L1.L2` (P non-empty, L1 and L2 labels) has root `L1.L2` |
| ZoneRoots.ZoneRootOtherwise | lib.mjs:85 | a name the regular expression does not match is returned unchanged |
| ZoneRoots.ZoneRootOfTwoLabels | lib.mjs:85 | a name of two labels does not match and is its own root |
| ZoneRoots.ZoneRootIdempotent | lib.mjs:85 | deriving the root of a root changes nothing |
| ZoneRoots.ZoneRootOfHost | lib.mjs:85 | `home.example.com` is looked up under `example.com` |
| ZoneRoots.ZoneRootOfDeepName | lib.mjs:85 | `a.b.example.com` keeps only its last two labels |
| ZoneRoots.ZoneRootOfPublicSuffix | lib.mjs:85 | `sub.host.example.co.uk` is looked up under `co.uk`: public suffixes are not special-cased |
| ZoneRoots.ZoneRootOfBareDomain | lib.mjs:85 | `example.com` is passed through unchanged |
| ZoneRoots.ZoneRootUnmatchedExamples | lib.mjs:85 | a leading dot (empty prefix) or a trailing dot (empty label) leaves the name unchanged |
| Lookup.FirstWhere | lib.mjs:37 | `find`: the index of the first element passing the test, none before it passing, or -1 when none passes |
| Lookup.GetZoneId | lib.mjs:34-37 | succeeds if and only if some zone has exactly that name, with the id of the first such zone; otherwise fails with `ZoneNotFound` |
| Lookup.GetDnsRecordId | lib.mjs:45-48 | present if and only if some record of the zone has that name and type, with the id of the first such record; absent (not a failure) otherwise |
| CloudFlareApi.Rewrite | lib.mjs:57-61 | a patched record carries exactly the body's name, type, content, TTL and proxy flag, and keeps its id and zone |
| CloudFlareApi.PatchRewritesOne | lib.mjs:57-63 | a patch rewrites the record with that id in that zone and leaves every other record, the zones and the id counter as they were |
| CloudFlareApi.PatchPreservesValid | lib.mjs:57-63 | a patch keeps record ids present and unique |
| CloudFlareApi.PostAppendsFresh | lib.mjs:71-77 | a create appends one record in the zone, under an id no record had, carrying the request with the defaults filled in; ids stay unique |
| CloudFlareApi.PostDefaultsRedundant | lib.mjs:91 | the create's own defaults change nothing on the upsert path, whose request already has them |
| CloudFlareApi.UpsertRoutes | lib.mjs:84-93 | the upsert fails without writing exactly when no zone has the root's name; otherwise it patches exactly when the looked-up id is truthy, and then patches that id |
| CloudFlareApi.UpsertCreatesWhenNoneMatch | lib.mjs:87-91 | with the zone found and no record of that name and type in it, the upsert is a create under the next id |
| CloudFlareApi.UpsertCreatesOnlyWhenAbsent | lib.mjs:87-92 | with the provider's non-empty ids, a successful upsert creates exactly when no record of that name and type exists in the zone |
| CloudFlareApi.UpsertWritesOnce | lib.mjs:87-92 | one write per successful call: a patch rewrites the first matching record with the filled-in body and nothing else; a create appends one fresh record carrying it; a failure writes nothing |
| CloudFlareApi.UpsertTwiceAfterPatch | lib.mjs:84-93 | repeating an upsert that patched is a patch of the same id that leaves the table unchanged |
| CloudFlareApi.UpsertTwiceAfterCreate | lib.mjs:84-93 | repeating an upsert that created is a patch of the new record that leaves the table unchanged |
| CloudFlareApi.UpsertTwice | lib.mjs:84-93 | idempotence: the second of two equal upserts fails like the first or is a patch of the id the first wrote and leaves the table as the first left it; the first leaves one matching record if there was none, and that record carries the request with its defaults |
| CloudFlareApi.Provider.PatchDnsRecord | lib.mjs:57-63 | the table becomes `PatchTable` of the old one; `ok` says whether a record with that id existed in the zone |
| CloudFlareApi.Provider.PostDnsRecord | lib.mjs:71-77 | the table becomes `PostTable` of the old one; the returned id is fresh |
| CloudFlareApi.Provider.UpdateDnsRecord | lib.mjs:84-93 | result and new table are `Upsert` of the old table; ids stay present and unique |
| Updater.FamiliesMatchRequests | lib.mjs:114-117 | the families an item updates are exactly the gated ones, one request per family, in the same order |
| Updater.ItemRequestsGating | lib.mjs:115-116 | an A request is issued if and only if ip4 is non-empty and the item's `ip4` is not false, and likewise for AAAA; A comes before AAAA; type and content come from the family, name, TTL and proxy flag from the item |
| Updater.BatchRequestsAppend | lib.mjs:128-131 | the requests of a list of items are the requests of its parts, concatenated in order |
| Updater.BatchRequestsGated | lib.mjs:128-131 | every request of a batch is some item's request for a family that item lets through |
| Updater.ItemRunMatchesRequests | lib.mjs:112-118 | one item's update leaves the state the run of its requests leaves and fails exactly when that run fails; on success its map has a key exactly for each gated family, holding the outcome of that family's request |
| Updater.BatchMatchesRequests | lib.mjs:125-132 | a batch leaves the state the run of the concatenated item requests leaves and fails exactly when that run fails; on success there is one result per item, keyed by that item's gated families |
| Updater.BatchIsRequestUpserts | lib.mjs:125-132 | for the provider's upsert: the batch's writes are the upserts of `BatchRequests` in order |
| Updater.UpdateCloudFlareDnsRecord | lib.mjs:112-118 | result and new table are the A turn then the AAAA turn of `ItemRunWith` over `Upsert`; ids stay present and unique |
| Updater.UpdateCloudFlareDnsRecords | lib.mjs:125-132 | result and new table are the run of the item update over the items, in input order, with the same addresses, stopping at the first failure |
| Updater.HomeZone | lib.mjs:85-86 | the scenario's record name resolves to the zone `Z1` |
| Updater.HomeFirstUpsert | lib.mjs:84-93 | in an empty zone the A upsert creates record `0` with TTL 120 and proxying on |
| Updater.HomeSecondUpsert | lib.mjs:84-93 | the AAAA upsert does not take the A record for its own and creates record `1` |
| Updater.HomeItemRun | lib.mjs:112-118 | the scenario item's result maps both families to their creations |
| Updater.EndToEndScenario | lib.mjs:125-132 | a one-item batch against a fresh zone creates the A and then the AAAA record, with the defaults |

## Left out

- `getIp4`, `getIp6` and `getIp` (lib.mjs:97-103) are an HTTP fetch and a shell pipeline. The discovered addresses are the `Ips` parameter, with the empty string for an address that was not found.
- `fetch`, URL and query construction, the `Authorization` header, `JSON.stringify` and `res.json()` are transport. They are replaced by the in-memory `Table`.
- The provider's query filters by name, and by name and type, are folded into the exact `find` test. The provider is assumed to return every exact match, in its own order.
- The API token is not modelled. Every item's client (`genCloudFlareApi(item.apiToken)`) is the same `Provider`, so all items see one table.
- `async`/`await` and the `this`-bound closures become ordinary sequential calls.
- Debug logging (lib.mjs:127, lib.mjs:130) is not modelled. `Updater.UpdateCloudFlareDnsRecords` returns the per-item results that debug mode prints; the source itself resolves to `undefined`.
- HTTP statuses and the raw `Response` objects are not modelled. Patch and post return `Response` objects, which the code never checks. The model reports `Patched(id)` or `Created(id)`, and provider writes never fail.
- A zone miss throws a `TypeError` in the source. The model returns `Err(ZoneNotFound(root))` instead.
- The per-item error isolation recommended for a reimplementation is not modelled. The source has none.
- `ttl` is an integer rather than a JavaScript number.
- An explicit `null` TTL or proxy flag would not take the default in JavaScript. The model only distinguishes absent from present values.
- Strings are sequences of Unicode scalar values, not UTF-16 code units. The regular expression's `.` and `[^.]` only distinguish dots and line terminators, so this makes no difference to zone roots.
- Zones are fixed: the core never creates zones.
- Record ids are minted as decimal counters, where the real provider uses opaque strings.
- `CloudFlareApi.Provider.constructor` requires ids to be non-empty and unique. This is what the provider guarantees, and idempotence relies on it.
