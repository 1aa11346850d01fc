/** Values exchanged between the updater and the DNS provider: record options as a
    caller writes them, the filled-in options sent in a request body, and the
    provider's zones and records. */
module DnsTypes {

  datatype Option<+T> = None | Some(value: T)

  /** The one failure the core can raise itself: no zone carries the derived root name. */
  datatype Error = ZoneNotFound(name: string)

  datatype Result<+T> = Ok(value: T) | Err(error: Error)

  /** TTL in seconds used when a request omits it. */
  const DefaultTtl: int := 120

  /** Proxy flag used when a request omits it. */
  const DefaultProxied: bool := true

  /** Record types of IPv4 (RFC 1035 section 3.2.2) and IPv6 (RFC 3596 section 2.1) addresses. */
  const TypeA: string := "A"
  const TypeAAAA: string := "AAAA"

  /** Options of an update request; `ttl` and `proxied` may be left out. */
  datatype UpdateOptions = UpdateOptions(
    name: string,
    recordType: string,
    content: string,
    ttl: Option<int>,
    proxied: Option<bool>)

  /** Options with every field present, as written into a patch or create body. */
  datatype CreateOptions = CreateOptions(
    name: string,
    recordType: string,
    content: string,
    ttl: int,
    proxied: bool)

  datatype Zone = Zone(id: string, name: string)

  /** A record as the provider stores it, inside the zone `zoneId`. */
  datatype Record = Record(
    id: string,
    zoneId: string,
    name: string,
    recordType: string,
    content: string,
    ttl: int,
    proxied: bool)

  /** The default-parameter fill-in: an omitted TTL becomes 120 and an omitted
      proxy flag becomes true; everything given is kept. */
  function WithDefaults(o: UpdateOptions): (c: CreateOptions)
    ensures c.name == o.name && c.recordType == o.recordType && c.content == o.content
    ensures c.ttl == (if o.ttl.Some? then o.ttl.value else 120)
    ensures c.proxied == (o.proxied != Some(false))
  {
    var ttl := match o.ttl case Some(t) => t case None => DefaultTtl;
    var proxied := match o.proxied case Some(p) => p case None => DefaultProxied;
    CreateOptions(o.name, o.recordType, o.content, ttl, proxied)
  }

  /** The options object rebuilt from already filled-in values, every field present. */
  function Supplied(c: CreateOptions): UpdateOptions
  {
    UpdateOptions(c.name, c.recordType, c.content, Some(c.ttl), Some(c.proxied))
  }
}
