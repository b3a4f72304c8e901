/** Worked cases: probing one proxy against scripted peers, and ranking a few records. */
module Scenarios {
  import opened Wrappers
  import opened Text
  import opened Handshake
  import opened Proxy
  import opened Ranking

  function Fresh(protocol: string): ProxyRecord {
    ProxyRecord("", protocol, 0x7F00_0001, 8080, false, "unknown", 0, Infinite, Geolocation("unknown", Some("unknown")), false)
  }

  /** An HTTP proxy that answers with a status line and forwards to the Tor Project page works. */
  method HttpProxyScenario() {
    var info := new ProxyInfo(Fresh("HTTP"));
    var reply := Ascii("HTTP/1.1 200 OK\r\n");
    var sock := new StubSocket(true, reply, false);
    var page := TOR_MARKER + " | Anonymity Online";
    assert page[0..|TOR_MARKER|] == TOR_MARKER;
    assert OccursAt(page, TOR_MARKER, 0);
    assert reply[..7] == Ascii(HTTP_STATUS_PREFIX);
    HttpExchangeIff(reply, false);
    var r := TestProxy(info, sock, 42, Responded(200, page));
    assert r == Success(info);
    assert info.ping == Measured(42) && info.works;
    assert sock.state == Closed && sock.sent == HttpProbeBytes();
  }

  /** A SOCKS 5 proxy that asks for a method other than "no authentication" keeps its infinite ping. */
  method Socks5RefusalScenario() {
    var info := new ProxyInfo(Fresh("socks5"));
    var sock := new StubSocket(true, [5, 0xFF], false);
    Socks5ExchangeIff([5, 0xFF], false);
    var r := TestProxy(info, sock, 42, Raised);
    assert r == Success(info);
    assert info.ping == Infinite && !info.works;
    assert sock.state == Closed;
  }

  /** An unknown protocol raises before any connection is made. */
  method UnknownProtocolScenario() {
    var info := new ProxyInfo(Fresh("ftp"));
    var sock := new StubSocket(true, [], false);
    var r := TestProxy(info, sock, 42, Raised);
    assert r == Failure(UnsupportedProtocol("ftp"));
    assert sock.state == Unopened && sock.sent == [];
  }

  /** Two copies of one record are probed independently: here only the first is reached. */
  lemma IndependentProbes()
    ensures var rec := Fresh("http");
      var r := ProbeAll([rec, rec], (i: nat) => Trial(i == 0, Ascii(HTTP_STATUS_PREFIX), false, 5, Raised));
      && r.Success?
      && r.value[0].ping == Measured(5)
      && r.value[1].ping == Infinite
  {
    var rec := Fresh("http");
    var env := (i: nat) => Trial(i == 0, Ascii(HTTP_STATUS_PREFIX), false, 5, Raised);
    assert ParseProtocol(rec.protocol) == Some(Http);
    HttpExchangeIff(Ascii(HTTP_STATUS_PREFIX), false);
    assert HandshakeSucceeds(Http, env(0));
    assert !HandshakeSucceeds(Http, env(1));
  }

  /** A probed HTTP proxy at `ip` that works with the given ping. */
  function Probed(ip: Ipv4, ping: Ping): ProxyRecord {
    ProxyRecord("", "http", ip, 8080, false, "", 0, ping, Geolocation("IT", None), true)
  }

  const A: ProxyRecord := Probed(1, Measured(300))
  const B: ProxyRecord := Probed(2, Measured(100))
  const C: ProxyRecord := Probed(3, Infinite)
  const D: ProxyRecord := Probed(4, Measured(200))

  lemma WorkingExample()
    ensures Working([A, B, C, D]) == [A, B, D]
  {
    var s := [A, B, C, D];
    assert s[..3] == [A, B, C] && s[..3][..2] == [A, B] && s[..3][..2][..1] == [A];
    assert [A][..0] == [];
    assert Filter([A], IsWorking) == [A];
    assert Filter([A, B], IsWorking) == [A, B];
    assert Filter([A, B, C], IsWorking) == [A, B];
    assert Filter(s, IsWorking) == [A, B, D];
  }

  lemma SortExample()
    ensures SortByPing([A, B, D]) == [B, D, A]
  {
    var w := [A, B, D];
    assert w[..2] == [A, B] && w[..2][..1] == [A];
    assert SortByPing([A]) == [A];
    assert SortByPing([A, B]) == [B, A];
    assert Insert([B, A], D) == [B, D, A];
  }

  /** Pings 0.3, 0.1, inf and 0.2 (as milliseconds) rank as B, D, A; the unreachable C is dropped. */
  lemma RankingExample()
    ensures Ranked([A, B, C, D], None) == [B, D, A]
  {
    WorkingExample();
    SortExample();
  }

  const TEN_0_0_1: Ipv4 := 0x0A00_0001
  const TEN_0_0_5: Ipv4 := 0x0A00_0005
  const TEN_0_1_1: Ipv4 := 0x0A00_0101

  /** Under /24, 10.0.0.5 shares 10.0.0.1's network and is dropped; 10.0.1.1 is kept. */
  lemma DedupExample()
    ensures var x, y, z := Probed(TEN_0_0_1, Measured(100)), Probed(TEN_0_0_5, Measured(200)), Probed(TEN_0_1_1, Measured(300));
      DedupByNetwork([x, y, z], 24) == [x, z]
  {
    var x, y, z := Probed(TEN_0_0_1, Measured(100)), Probed(TEN_0_0_5, Measured(200)), Probed(TEN_0_1_1, Measured(300));
    assert Pow2(8) == 256;
    assert Network(TEN_0_0_1, 24) == 0x0A00_0000;
    assert Network(TEN_0_0_5, 24) == 0x0A00_0000;
    assert Network(TEN_0_1_1, 24) == 0x0A00_0100;
    var s := [x, y, z];
    assert s[..2] == [x, y] && s[..2][..1] == [x];
    assert DedupByNetwork([x], 24) == [x];
    assert Networks([x], 24) == {0x0A00_0000};
    assert DedupByNetwork([x, y], 24) == [x];
    assert Networks([x, y], 24) == {0x0A00_0000};
  }
}
