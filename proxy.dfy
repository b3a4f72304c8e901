/**
 * The proxy record, protocol dispatch, the proxy table handed to the HTTP
 * client, the liveness check, and `test_proxy`, which probes one proxy and
 * updates its `ping` and `works` fields in place.
 */
module Proxy {
  import opened Wrappers
  import opened Text
  import opened Handshake

  // ================================================================ data model

  datatype Geolocation = Geolocation(country: string, city: Option<string>)

  /** A latency: infinity for a proxy that never answered its handshake, else the elapsed time. */
  datatype Ping = Infinite | Measured(elapsed: nat)

  type Ipv4 = n: nat | n < 0x1_0000_0000

  /** The fields of one `ProxyInfo`, as a value. */
  datatype ProxyRecord = ProxyRecord(
    proxy: string,
    protocol: string,
    ip: Ipv4,
    port: nat,
    https: bool,
    anonymity: string,
    score: int,
    ping: Ping,
    geolocation: Geolocation,
    works: bool)

  /** How a record looks when it is first read from the proxy list. */
  predicate Unprobed(r: ProxyRecord) {
    r.ping == Infinite && !r.works
  }

  /** A record claims to work only when it also has a measured latency. */
  predicate Consistent(r: ProxyRecord) {
    r.works ==> r.ping.Measured?
  }

  /** The mutable dataclass `ProxyInfo`. */
  class ProxyInfo {
    var proxy: string
    var protocol: string
    var ip: Ipv4
    var port: nat
    var https: bool
    var anonymity: string
    var score: int
    var ping: Ping
    var geolocation: Geolocation
    var works: bool

    constructor (r: ProxyRecord)
      ensures Value() == r
    {
      proxy, protocol, ip, port, https := r.proxy, r.protocol, r.ip, r.port, r.https;
      anonymity, score, ping, geolocation, works := r.anonymity, r.score, r.ping, r.geolocation, r.works;
    }

    function Value(): ProxyRecord
      reads this
    {
      ProxyRecord(proxy, protocol, ip, port, https, anonymity, score, ping, geolocation, works)
    }
  }

  // ================================================================ protocols

  datatype Protocol = Socks5 | Socks4 | Http | Https

  function Name(p: Protocol): string {
    match p
    case Socks5 => "socks5"
    case Socks4 => "socks4"
    case Http => "http"
    case Https => "https"
  }

  /** Lower-case the protocol string and look it up among the four known names. */
  function ParseProtocol(s: string): (r: Option<Protocol>)
    ensures forall p: Protocol :: r == Some(p) <==> Lower(s) == Name(p)
  {
    var l := Lower(s);
    if l == "socks5" then Some(Socks5)
    else if l == "socks4" then Some(Socks4)
    else if l == "http" then Some(Http)
    else if l == "https" then Some(Https)
    else None
  }

  /** Matching ignores case: a protocol string and its lower-cased form select the same protocol. */
  lemma ParseProtocolIgnoresCase(s: string)
    ensures ParseProtocol(s) == ParseProtocol(Lower(s))
    ensures ParseProtocol(Upper(s)) == ParseProtocol(s)
  {
    LowerNormalises(s);
    assert Lower(Upper(s)) == Lower(s);
  }

  /**
   * The dispatch table of `test_proxy`: `http` and `https` share the HTTP
   * probe, and each SOCKS version gets the probe whose first byte is that
   * version number.
   */
  function Handler(p: Protocol): (probe: Probe)
    ensures probe == HttpProbe <==> p == Http || p == Https
    ensures probe == Socks4Probe <==> p == Socks4
    ensures probe == Socks5Probe <==> p == Socks5
    ensures p == Socks4 ==> probe.Request()[0] == SOCKS4_VERSION
    ensures p == Socks5 ==> probe.Request()[0] == SOCKS5_VERSION
  {
    match p
    case Socks5 => Socks5Probe
    case Socks4 => Socks4Probe
    case Http => HttpProbe
    case Https => HttpProbe
  }

  datatype ConfigError = UnsupportedProtocol(protocol: string)

  // ================================================================ get_url

  /** The four bytes of an address, most significant first. */
  function Octets(ip: Ipv4): (o: seq<nat>)
    ensures |o| == 4
  {
    var low24 := ip % 0x100_0000;
    var low16 := low24 % 0x1_0000;
    [ip / 0x100_0000, low24 / 0x1_0000, low16 / 0x100, low16 % 0x100]
  }

  lemma DivMod(x: nat, d: nat)
    requires d > 0
    ensures x == x / d * d + x % d && 0 <= x % d < d
  {
  }

  /** Each octet is below 256, and together, in base 256, they make the address. */
  lemma OctetsValue(ip: Ipv4)
    ensures var o := Octets(ip);
      && (forall k | 0 <= k < 4 :: o[k] < 0x100)
      && o[0] * 0x100_0000 + o[1] * 0x1_0000 + o[2] * 0x100 + o[3] == ip
  {
    var low24 := ip % 0x100_0000;
    DivMod(ip, 0x100_0000);
    DivMod(low24, 0x1_0000);
    DivMod(low24 % 0x1_0000, 0x100);
  }

  /** `str(ip)` for an IPv4 address: its octets in decimal, joined by dots. */
  function DottedQuad(ip: Ipv4): string {
    var o := Octets(ip);
    Decimal(o[0]) + "." + Decimal(o[1]) + "." + Decimal(o[2]) + "." + Decimal(o[3])
  }

  /** The address written as four dot-separated decimal octets; None if `s` is not one. */
  function ParseDottedQuad(s: string): Option<Ipv4> {
    var f := Split(s, '.');
    if |f| == 4 && forall k | 0 <= k < 4 :: ParseDecimal(f[k]).Some? && ParseDecimal(f[k]).value < 0x100 then
      Some(ParseDecimal(f[0]).value * 0x100_0000 + ParseDecimal(f[1]).value * 0x1_0000
        + ParseDecimal(f[2]).value * 0x100 + ParseDecimal(f[3]).value)
    else None
  }

  /** `f"{scheme}://{ip}:{port}"`. */
  function ProxyUri(scheme: string, ip: Ipv4, port: nat): (uri: string)
    ensures StartsWith(uri, scheme + "://")
  {
    scheme + "://" + DottedQuad(ip) + ":" + Decimal(port)
  }

  /** Scheme, address and port of a URI `scheme://a.b.c.d:port`; None for any other shape. */
  function ParseProxyUri(uri: string): Option<(string, Ipv4, nat)> {
    var f := Split(uri, ':');
    if |f| == 3 && StartsWith(f[1], "//") then
      match (ParseDottedQuad(f[1][2..]), ParseDecimal(f[2]))
      case (Some(ip), Some(port)) => Some((f[0], ip, port))
      case _ => None
    else None
  }

  lemma DecimalHasNo(n: nat, c: char)
    requires !IsDigit(c)
    ensures c !in Decimal(n)
  {
  }

  /** Four fields without dots, joined by dots, split back into those four fields. */
  lemma SplitFour(d0: string, d1: string, d2: string, d3: string)
    requires '.' !in d0 && '.' !in d1 && '.' !in d2 && '.' !in d3
    ensures Split(d0 + "." + d1 + "." + d2 + "." + d3, '.') == [d0, d1, d2, d3]
  {
    assert d0 + "." + d1 + "." + d2 + "." + d3 == d0 + ['.'] + (d1 + ['.'] + (d2 + ['.'] + d3));
    SplitAt(d0, '.', d1 + ['.'] + (d2 + ['.'] + d3));
    SplitAt(d1, '.', d2 + ['.'] + d3);
    SplitAt(d2, '.', d3);
    SplitPlain(d3, '.');
  }

  /** The dotted quad of an address reads back as that address. */
  lemma DottedQuadRoundTrip(ip: Ipv4)
    ensures ParseDottedQuad(DottedQuad(ip)) == Some(ip)
  {
    var o := Octets(ip);
    OctetsValue(ip);
    forall k | 0 <= k < 4
      ensures '.' !in Decimal(o[k])
      ensures ParseDecimal(Decimal(o[k])) == Some(o[k])
    {
      DecimalHasNo(o[k], '.');
      ParseDecimalOfDecimal(o[k]);
    }
    SplitFour(Decimal(o[0]), Decimal(o[1]), Decimal(o[2]), Decimal(o[3]));
    var f := Split(DottedQuad(ip), '.');
    assert f == [Decimal(o[0]), Decimal(o[1]), Decimal(o[2]), Decimal(o[3])];
    assert forall k | 0 <= k < 4 :: ParseDecimal(f[k]) == Some(o[k]);
  }

  /** A dotted quad holds no colon, so it cannot be mistaken for the port separator. */
  lemma DottedQuadNoColon(ip: Ipv4)
    ensures ':' !in DottedQuad(ip)
  {
    var o := Octets(ip);
    forall k | 0 <= k < 4 ensures ':' !in Decimal(o[k]) {
      DecimalHasNo(o[k], ':');
    }
  }

  /** A proxy URI reads back as the scheme, address and port it was built from. */
  lemma ProxyUriRoundTrip(scheme: string, ip: Ipv4, port: nat)
    requires ':' !in scheme
    ensures ParseProxyUri(ProxyUri(scheme, ip, port)) == Some((scheme, ip, port))
  {
    var quad, dec := DottedQuad(ip), Decimal(port);
    DottedQuadRoundTrip(ip);
    DottedQuadNoColon(ip);
    DecimalHasNo(port, ':');
    assert ProxyUri(scheme, ip, port) == scheme + [':'] + ("//" + quad + [':'] + dec);
    SplitAt(scheme, ':', "//" + quad + [':'] + dec);
    SplitAt("//" + quad, ':', dec);
    SplitPlain(dec, ':');
    var f := Split(ProxyUri(scheme, ip, port), ':');
    assert f == [scheme, "//" + quad, dec];
    assert f[1][2..] == quad;
    ParseDecimalOfDecimal(port);
  }

  const HTTP_TRAFFIC: string := "http"
  const HTTPS_TRAFFIC: string := "https"

  /**
   * The `proxies` table given to `requests.get`: traffic class to proxy URI.
   * None without a proxy; an unsupported protocol is a ValueError.
   */
  function ProxiesFor(proxy: Option<ProxyRecord>): (r: Result<Option<map<string, string>>, ConfigError>)
    ensures proxy.None? ==> r == Success(None)
    ensures proxy.Some? ==> (r.Failure? <==> ParseProtocol(proxy.value.protocol).None?)
    ensures r.Failure? ==> r.error == UnsupportedProtocol(proxy.value.protocol)
    ensures proxy.Some? && r.Success? ==>
      var rec := proxy.value;
      var uri := ProxyUri(Lower(rec.protocol), rec.ip, rec.port);
      r.value.Some? &&
      match ParseProtocol(rec.protocol).value
      case Socks4 => r.value.value == map[HTTP_TRAFFIC := uri, HTTPS_TRAFFIC := uri]
      case Socks5 => r.value.value == map[HTTP_TRAFFIC := uri, HTTPS_TRAFFIC := uri]
      case Http => r.value.value == map[HTTP_TRAFFIC := uri]
      case Https => r.value.value == map[HTTPS_TRAFFIC := uri]
  {
    match proxy
    case None => Success(None)
    case Some(rec) =>
      var proto := Lower(rec.protocol);
      if proto == "socks5" || proto == "socks4" then
        var uri := ProxyUri(proto, rec.ip, rec.port);
        Success(Some(map[HTTP_TRAFFIC := uri, HTTPS_TRAFFIC := uri]))
      else if proto == "http" then
        Success(Some(map[HTTP_TRAFFIC := ProxyUri("http", rec.ip, rec.port)]))
      else if proto == "https" then
        Success(Some(map[HTTPS_TRAFFIC := ProxyUri("https", rec.ip, rec.port)]))
      else
        Failure(UnsupportedProtocol(rec.protocol))
  }

  /** Every installed URI names the proxy's own protocol as its scheme; SOCKS proxies serve both traffic classes. */
  lemma ProxyTableShape(rec: ProxyRecord)
    requires ParseProtocol(rec.protocol).Some?
    ensures var table := ProxiesFor(Some(rec)).value.value;
      && (forall k | k in table :: StartsWith(table[k], Name(ParseProtocol(rec.protocol).value) + "://"))
      && (HTTP_TRAFFIC in table <==> ParseProtocol(rec.protocol).value != Https)
      && (HTTPS_TRAFFIC in table <==> ParseProtocol(rec.protocol).value != Http)
      && (HTTP_TRAFFIC in table && HTTPS_TRAFFIC in table ==> table[HTTP_TRAFFIC] == table[HTTPS_TRAFFIC])
  {
    var p := ParseProtocol(rec.protocol).value;
    assert Lower(rec.protocol) == Name(p);
  }

  /** Every URI in the table reads back as the proxy's own protocol, address and port. */
  lemma ProxyTableAddresses(rec: ProxyRecord)
    requires ParseProtocol(rec.protocol).Some?
    ensures var table := ProxiesFor(Some(rec)).value.value;
      forall k | k in table :: ParseProxyUri(table[k]) == Some((Name(ParseProtocol(rec.protocol).value), rec.ip, rec.port))
  {
    var p := ParseProtocol(rec.protocol).value;
    assert Lower(rec.protocol) == Name(p);
    assert ':' !in Name(p);
    ProxyUriRoundTrip(Name(p), rec.ip, rec.port);
  }

  /** The page `does_it_work` fetches, and the traffic class `requests` picks for it: the URL's scheme. */
  const TOR_URL: string := HTTPS_TRAFFIC + ":" + "//www.torproject.org/"

  function Scheme(url: string): string {
    Split(url, ':')[0]
  }

  /**
   * For a plain `http` proxy the table has no entry for the liveness page's
   * scheme, so that fetch is not routed through the proxy being tested.
   */
  lemma LivenessFetchBypassesHttpProxy(rec: ProxyRecord)
    requires ParseProtocol(rec.protocol) == Some(Http)
    ensures Scheme(TOR_URL) == HTTPS_TRAFFIC
    ensures Scheme(TOR_URL) !in ProxiesFor(Some(rec)).value.value
  {
    SplitAt(HTTPS_TRAFFIC, ':', "//www.torproject.org/");
    ProxyTableShape(rec);
  }

  /**
   * What `requests.get` did: it raised (any transport or proxy error), or a
   * response came back with a status code and body text.
   */
  datatype Response = Raised | Responded(status: nat, text: string)

  /**
   * `resp.ok`: false exactly when `raise_for_status` would raise, that is for
   * a client error (4xx) or a server error (5xx); any other status is ok.
   */
  predicate Ok(status: nat) {
    !(400 <= status < 600)
  }

  /** `get_url`: the body of an ok response, None on any error; it never raises. */
  function GetUrl(proxy: Option<ProxyRecord>, response: Response): (r: Option<string>)
    ensures r.Some? <==> ProxiesFor(proxy).Success? && response.Responded? && Ok(response.status)
    ensures r.Some? ==> r.value == response.text
  {
    match ProxiesFor(proxy)
    case Failure(_) => None
    case Success(_) =>
      if response.Responded? && Ok(response.status) then Some(response.text) else None
  }

  const TOR_MARKER: string := "Tor Project"

  /** `does_it_work`: fetch `TOR_URL` through the proxy and look for the marker. */
  function DoesItWork(proxy: ProxyRecord, response: Response): (works: bool)
    ensures works <==>
      && ParseProtocol(proxy.protocol).Some?
      && response.Responded? && Ok(response.status)
      && exists i: nat :: OccursAt(response.text, TOR_MARKER, i)
  {
    match GetUrl(Some(proxy), response)
    case None => false
    case Some(body) => ContainsIff(body, TOR_MARKER); Contains(body, TOR_MARKER)
  }

  // ================================================================ test_proxy

  /**
   * What the network does when a proxy is tested: whether the TCP connection
   * is accepted, what the proxy sends back to the handshake and whether it
   * then stalls, the time the handshake took, and the liveness fetch's result.
   */
  datatype Trial = Trial(reachable: bool, reply: seq<byte>, stalls: bool, elapsed: nat, liveness: Response)

  predicate HandshakeSucceeds(p: Protocol, t: Trial) {
    t.reachable && Exchange(Handler(p), t.reply, t.stalls) == Success(true)
  }

  /** The handshake succeeds exactly when the proxy was reached and its reply passes the protocol's byte test. */
  lemma HandshakeSucceedsIff(p: Protocol, t: Trial)
    ensures p == Socks4 ==> (HandshakeSucceeds(p, t) <==> t.reachable && |t.reply| >= 2 && t.reply[1] == SOCKS4_GRANTED)
    ensures p == Socks5 ==> (HandshakeSucceeds(p, t) <==> t.reachable && StartsWith(t.reply, [SOCKS5_VERSION, NO_AUTHENTICATION]))
    ensures p == Http || p == Https ==> (HandshakeSucceeds(p, t) <==> t.reachable && StartsWith(t.reply, Ascii(HTTP_STATUS_PREFIX)))
  {
    Socks4ExchangeIff(t.reply, t.stalls);
    Socks5ExchangeIff(t.reply, t.stalls);
    HttpExchangeIff(t.reply, t.stalls);
  }

  /** The record that `test_proxy` leaves behind, or the ValueError it raises. */
  function ProbeOutcome(rec: ProxyRecord, t: Trial): (r: Result<ProxyRecord, ConfigError>)
    ensures r.Failure? <==> ParseProtocol(rec.protocol).None?
    ensures r.Failure? ==> r.error == UnsupportedProtocol(rec.protocol)
    ensures r.Success? ==> r.value.(ping := rec.ping, works := rec.works) == rec
  {
    match ParseProtocol(rec.protocol)
    case None => Failure(UnsupportedProtocol(rec.protocol))
    case Some(p) =>
      if HandshakeSucceeds(p, t)
      then Success(rec.(ping := Measured(t.elapsed), works := DoesItWork(rec, t.liveness)))
      else Success(rec)
  }

  /**
   * The update rules: without a successful handshake ping and works are left
   * as they were; after one, ping is the elapsed time and works is the
   * liveness verdict.
   */
  lemma ProbeUpdateRules(rec: ProxyRecord, t: Trial)
    requires ParseProtocol(rec.protocol).Some?
    ensures var p := ParseProtocol(rec.protocol).value;
      var after := ProbeOutcome(rec, t).value;
      && (!HandshakeSucceeds(p, t) ==> after == rec)
      && (HandshakeSucceeds(p, t) ==> after.ping == Measured(t.elapsed))
      && (HandshakeSucceeds(p, t) ==>
            (after.works <==> t.liveness.Responded? && Ok(t.liveness.status) && Contains(t.liveness.text, TOR_MARKER)))
  {
    if t.liveness.Responded? {
      ContainsIff(t.liveness.text, TOR_MARKER);
    }
  }

  /** A record that was never probed gets a finite latency iff its handshake succeeds, and keeps works ==> finite. */
  lemma ProbeOfUnprobed(rec: ProxyRecord, t: Trial)
    requires Unprobed(rec) && ParseProtocol(rec.protocol).Some?
    ensures var after := ProbeOutcome(rec, t).value;
      && (after.ping.Measured? <==> HandshakeSucceeds(ParseProtocol(rec.protocol).value, t))
      && (after.ping == Infinite ==> !after.works)
      && Consistent(after)
  {
  }

  /** Probing keeps the "works implies a measured ping" rule. */
  lemma ProbeKeepsConsistent(rec: ProxyRecord, t: Trial)
    requires Consistent(rec)
    ensures ProbeOutcome(rec, t).Success? ==> Consistent(ProbeOutcome(rec, t).value)
  {
  }

  /**
   * `test_proxy`: dispatch on the lower-cased protocol (raising before any
   * connection for an unknown one), connect, time the handshake and, if it
   * succeeds, record the ping and the liveness verdict; the socket is closed
   * on every path out of the `with` block.
   */
  method TestProxy(proxy: ProxyInfo, sock: StubSocket, elapsed: nat, liveness: Response)
    returns (r: Result<ProxyInfo, ConfigError>)
    requires sock.state == Unopened
    modifies proxy, sock
    ensures var expected := ProbeOutcome(old(proxy.Value()), Trial(sock.reachable, old(sock.pending), sock.stalls, elapsed, liveness));
      && (expected.Failure? ==> r == Failure(expected.error) && proxy.Value() == old(proxy.Value()))
      && (expected.Success? ==> r == Success(proxy) && proxy.Value() == expected.value)
    ensures r.Failure? ==> sock.state == Unopened && sock.sent == old(sock.sent)
    ensures r.Success? ==> sock.state == if sock.reachable then Closed else Refused
    ensures r.Success? && sock.reachable ==>
      sock.sent == old(sock.sent) + Handler(ParseProtocol(proxy.protocol).value).Request()
  {
    var protocol := ParseProtocol(proxy.protocol);
    if protocol.None? {
      return Failure(UnsupportedProtocol(proxy.protocol));
    }
    var handshake := Handler(protocol.value);
    var connected := sock.Connect();
    if connected.Failure? {
      return Success(proxy);
    }
    var accepted := RunHandshake(handshake, sock);
    if accepted == Success(true) {
      proxy.ping := Measured(elapsed);
      proxy.works := DoesItWork(proxy.Value(), liveness);
    }
    sock.Close();
    r := Success(proxy);
  }
}
