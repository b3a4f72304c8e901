/**
 * The three handshake probes of the prober: the request each one sends, the
 * size of the reply it reads, and the test it applies to that reply.  The
 * socket is a stub whose peer has a fixed reply ready.
 */
module Handshake {
  import opened Wrappers
  import opened Text

  // ================================================================ SOCKS 4

  const SOCKS4_VERSION: byte := 4
  const SOCKS4_CONNECT: byte := 1
  /** The CD code of a SOCKS 4 reply meaning "request granted". */
  const SOCKS4_GRANTED: byte := 0x5A
  const SOCKS4_REPLY_WINDOW: nat := 8

  /** The fields of a SOCKS 4 request: CD, DSTPORT, DSTIP and USERID (VN is always 4). */
  datatype Socks4Request = Socks4Request(command: byte, port: nat, address: seq<byte>, userId: seq<byte>)
  {
    ghost predicate Valid() {
      port < 0x1_0000 && |address| == 4 && forall i | 0 <= i < |userId| :: userId[i] != 0
    }
  }

  /** `n.to_bytes(2, "big")`. */
  function BigEndian16(n: nat): (b: seq<byte>)
    requires n < 0x1_0000
    ensures |b| == 2 && b[0] as int * 0x100 + b[1] as int == n
  {
    [(n / 0x100) as byte, (n % 0x100) as byte]
  }

  /** VN, CD, DSTPORT in network order, DSTIP, USERID and the terminating NUL. */
  function EncodeSocks4(r: Socks4Request): (b: seq<byte>)
    requires r.Valid()
    ensures |b| == 9 + |r.userId|
  {
    [SOCKS4_VERSION, r.command] + BigEndian16(r.port) + r.address + r.userId + [0]
  }

  /** Reads a SOCKS 4 request back; None when the bytes are not one. */
  function DecodeSocks4(b: seq<byte>): (r: Option<Socks4Request>)
    ensures r.Some? ==> r.value.Valid()
  {
    if |b| < 9 || b[0] != SOCKS4_VERSION || b[|b| - 1] != 0 then None
    else
      var user := b[8..|b| - 1];
      if exists i | 0 <= i < |user| :: user[i] == 0 then None
      else Some(Socks4Request(b[1], b[2] as int * 0x100 + b[3] as int, b[4..8], user))
  }

  /** Decoding undoes encoding: the request bytes carry exactly the fields they were built from. */
  lemma Socks4RoundTrip(r: Socks4Request)
    requires r.Valid()
    ensures DecodeSocks4(EncodeSocks4(r)) == Some(r)
  {
    var b := EncodeSocks4(r);
    assert b[4..8] == r.address;
    assert b[8..|b| - 1] == r.userId;
  }

  /** The destination of the probe: CONNECT to 1.1.1.1 port 80, empty user id. */
  const SOCKS4_PROBE: Socks4Request := Socks4Request(SOCKS4_CONNECT, 80, [1, 1, 1, 1], [])

  function Socks4ProbeBytes(): seq<byte> {
    EncodeSocks4(SOCKS4_PROBE)
  }

  /** The SOCKS 4 probe is the nine bytes 04 01 00 50 01 01 01 01 00, and they decode to CONNECT 1.1.1.1:80. */
  lemma Socks4ProbeLayout()
    ensures Socks4ProbeBytes() == [4, 1, 0, 80, 1, 1, 1, 1, 0]
    ensures DecodeSocks4(Socks4ProbeBytes()) == Some(Socks4Request(1, 80, [1, 1, 1, 1], []))
  {
    Socks4RoundTrip(SOCKS4_PROBE);
  }

  /** A reply grants the request when it has at least two bytes and the second is 0x5A; VN is not read. */
  predicate Socks4Granted(reply: seq<byte>) {
    |reply| >= 2 && reply[1] == SOCKS4_GRANTED
  }

  // ================================================================ SOCKS 5

  const SOCKS5_VERSION: byte := 5
  /** Method 0x00 of section 3 of RFC 1928: no authentication required. */
  const NO_AUTHENTICATION: byte := 0
  const SOCKS5_REPLY_WINDOW: nat := 2

  /** The version identifier / method selection message of section 3 of RFC 1928. */
  function Socks5Greeting(methods: seq<byte>): (b: seq<byte>)
    requires 1 <= |methods| <= 255
    ensures |b| == 2 + |methods|
  {
    [SOCKS5_VERSION, |methods| as byte] + methods
  }

  function DecodeSocks5Greeting(b: seq<byte>): Option<seq<byte>> {
    if |b| < 2 || b[0] != SOCKS5_VERSION || b[1] == 0 || |b| != 2 + b[1] as int then None
    else Some(b[2..])
  }

  lemma Socks5GreetingRoundTrip(methods: seq<byte>)
    requires 1 <= |methods| <= 255
    ensures DecodeSocks5Greeting(Socks5Greeting(methods)) == Some(methods)
  {
    assert Socks5Greeting(methods)[2..] == methods;
  }

  function Socks5ProbeBytes(): seq<byte> {
    Socks5Greeting([NO_AUTHENTICATION])
  }

  /** The SOCKS 5 probe is 05 01 00: version 5 offering the single method "no authentication". */
  lemma Socks5ProbeLayout()
    ensures Socks5ProbeBytes() == [5, 1, 0]
    ensures DecodeSocks5Greeting(Socks5ProbeBytes()) == Some([NO_AUTHENTICATION])
  {
    Socks5GreetingRoundTrip([NO_AUTHENTICATION]);
  }

  /** The only accepted method-selection reply is exactly 05 00. */
  predicate Socks5Accepted(reply: seq<byte>) {
    reply == [SOCKS5_VERSION, NO_AUTHENTICATION]
  }

  // ================================================================ HTTP

  const HTTP_REPLY_WINDOW: nat := 1024

  datatype Header = Header(name: string, value: string)
  datatype HttpRequest = HttpRequest(verb: string, target: string, version: string, headers: seq<Header>)

  const CRLF: string := "\r\n"

  function SerializeHeaders(hs: seq<Header>): string {
    if |hs| == 0 then "" else hs[0].name + ": " + hs[0].value + CRLF + SerializeHeaders(hs[1..])
  }

  /** Request line, header fields, and the empty line that ends the header section (section 2.1 of RFC 9112). */
  function SerializeRequest(r: HttpRequest): string {
    r.verb + " " + r.target + " " + r.version + CRLF + SerializeHeaders(r.headers) + CRLF
  }

  /** An asterisk-form OPTIONS request for the proxy itself, with a Host field and Connection: close. */
  const OPTIONS_PROBE: HttpRequest :=
    HttpRequest("OPTIONS", "*", "HTTP/1.1", [Header("Host", "example.com"), Header("Connection", "close")])

  const HTTP_PROBE_TEXT: string :=
    "OPTIONS * HTTP/1.1\r\n"
    + "Host: example.com\r\n"
    + "Connection: close\r\n\r\n"

  function HttpProbeBytes(): seq<byte> {
    Ascii(HTTP_PROBE_TEXT)
  }

  lemma ProbeHeaderFields()
    ensures SerializeHeaders(OPTIONS_PROBE.headers) == "Host: example.com\r\n" + "Connection: close\r\n"
  {
    var hs := OPTIONS_PROBE.headers;
    assert SerializeHeaders(hs[1..][1..]) == "";
    assert SerializeHeaders(hs[1..]) == "Connection: close\r\n";
  }

  /** The HTTP probe's bytes are the serialisation of OPTIONS * HTTP/1.1 with Host and Connection: close. */
  lemma HttpProbeLayout()
    ensures HTTP_PROBE_TEXT == SerializeRequest(OPTIONS_PROBE)
    ensures |HttpProbeBytes()| == 60
  {
    ProbeHeaderFields();
    assert "OPTIONS" + " " + "*" + " " + "HTTP/1.1" + CRLF == "OPTIONS * HTTP/1.1\r\n";
    assert "Connection: close\r\n" + CRLF == "Connection: close\r\n\r\n";
  }

  const HTTP_STATUS_PREFIX: string := "HTTP/1."

  /** A reply is accepted when it begins with an HTTP/1.x status line prefix. */
  predicate HttpStatusLine(reply: seq<byte>) {
    StartsWith(reply, Ascii(HTTP_STATUS_PREFIX))
  }

  // ================================================================ probes

  /** The three handshake routines; the HTTP probe serves both `http` and `https`. */
  datatype Probe = Socks4Probe | Socks5Probe | HttpProbe
  {
    function Request(): seq<byte> {
      match this
      case Socks4Probe => Socks4ProbeBytes()
      case Socks5Probe => Socks5ProbeBytes()
      case HttpProbe => HttpProbeBytes()
    }

    /** The buffer size passed to `recv`. */
    function Window(): nat {
      match this
      case Socks4Probe => SOCKS4_REPLY_WINDOW
      case Socks5Probe => SOCKS5_REPLY_WINDOW
      case HttpProbe => HTTP_REPLY_WINDOW
    }

    predicate Accepts(reply: seq<byte>) {
      match this
      case Socks4Probe => Socks4Granted(reply)
      case Socks5Probe => Socks5Accepted(reply)
      case HttpProbe => HttpStatusLine(reply)
    }
  }

  // ================================================================ the stub socket

  datatype IoError = ConnectFailed | Timeout

  function Min(a: nat, b: nat): nat {
    if a <= b then a else b
  }

  /**
   * What one `recv(bufsize)` returns when `pending` bytes are waiting: as many
   * of them as fit; with nothing waiting, `b""` if the peer has closed and a
   * timeout if it stalls.
   */
  function Received(pending: seq<byte>, stalls: bool, bufsize: nat): (r: Result<seq<byte>, IoError>)
    ensures r.Success? ==> |r.value| <= bufsize && StartsWith(pending, r.value)
    ensures r.Failure? <==> pending == [] && stalls
  {
    if |pending| == 0 then (if stalls then Failure(Timeout) else Success([]))
    else Success(pending[..Min(bufsize, |pending|)])
  }

  /** The outcome of one probe against a peer that has `pending` ready to send. */
  function Exchange(probe: Probe, pending: seq<byte>, stalls: bool): (r: Result<bool, IoError>)
    ensures r.Failure? <==> pending == [] && stalls
    ensures r.Failure? ==> r.error == Timeout
    ensures r.Success? ==> (r.value <==> probe.Accepts(pending[..Min(probe.Window(), |pending|)]))
  {
    match Received(pending, stalls, probe.Window())
    case Failure(e) => Failure(e)
    case Success(reply) => Success(probe.Accepts(reply))
  }

  /** SOCKS 4 succeeds iff the peer's second byte is 0x5A, whatever its first byte. */
  lemma Socks4ExchangeIff(pending: seq<byte>, stalls: bool)
    ensures Exchange(Socks4Probe, pending, stalls) == Success(true) <==> |pending| >= 2 && pending[1] == SOCKS4_GRANTED
    ensures |pending| < 2 && !(pending == [] && stalls) ==> Exchange(Socks4Probe, pending, stalls) == Success(false)
  {
  }

  /** Every reply version byte is accepted by the SOCKS 4 check. */
  lemma Socks4AnyVersion(vn: byte, rest: seq<byte>)
    ensures Socks4Granted([vn, SOCKS4_GRANTED] + rest)
    ensures !Socks4Granted([vn, 0x5B] + rest)
  {
  }

  /** SOCKS 5 succeeds iff the peer's first two bytes are 05 00; a shorter or different reply fails. */
  lemma Socks5ExchangeIff(pending: seq<byte>, stalls: bool)
    ensures Exchange(Socks5Probe, pending, stalls) == Success(true) <==> StartsWith(pending, [SOCKS5_VERSION, NO_AUTHENTICATION])
    ensures |pending| == 2 && pending != [5, 0] ==> Exchange(Socks5Probe, pending, stalls) == Success(false)
    ensures 0 < |pending| < 2 ==> Exchange(Socks5Probe, pending, stalls) == Success(false)
  {
    if |pending| >= 2 {
      assert Received(pending, stalls, 2) == Success(pending[..2]);
    }
  }

  /** The HTTP probe succeeds iff the peer's reply starts with "HTTP/1."; an empty reply fails. */
  lemma HttpExchangeIff(pending: seq<byte>, stalls: bool)
    ensures Exchange(HttpProbe, pending, stalls) == Success(true) <==> StartsWith(pending, Ascii(HTTP_STATUS_PREFIX))
    ensures Exchange(HttpProbe, [], false) == Success(false)
  {
    var prefix := Ascii(HTTP_STATUS_PREFIX);
    assert |prefix| == 7;
    if |pending| > 0 {
      var reply := pending[..Min(HTTP_REPLY_WINDOW, |pending|)];
      assert Received(pending, stalls, HTTP_REPLY_WINDOW) == Success(reply);
      if StartsWith(pending, prefix) {
        assert reply[..7] == pending[..7];
      }
      if StartsWith(reply, prefix) {
        assert pending[..7] == reply[..7];
      }
    }
  }

  datatype SocketState = Unopened | Refused | Open | Closed

  /**
   * A TCP connection to the proxy, with a scripted peer: whether the
   * connection is accepted, the bytes its peer will send, and whether it then
   * stalls (so that `recv` times out) or closes.
   */
  class StubSocket {
    const reachable: bool
    const stalls: bool
    var state: SocketState
    var sent: seq<byte>
    var pending: seq<byte>

    constructor (reachable: bool, reply: seq<byte>, stalls: bool)
      ensures this.reachable == reachable && this.stalls == stalls
      ensures state == Unopened && sent == [] && pending == reply
    {
      this.reachable := reachable;
      this.stalls := stalls;
      state := Unopened;
      sent := [];
      pending := reply;
    }

    /** `socket.create_connection`. */
    method Connect() returns (r: Result<(), IoError>)
      requires state == Unopened
      modifies this
      ensures r == if reachable then Success(()) else Failure(ConnectFailed)
      ensures state == if reachable then Open else Refused
      ensures sent == old(sent) && pending == old(pending)
    {
      if reachable {
        state := Open;
        r := Success(());
      } else {
        state := Refused;
        r := Failure(ConnectFailed);
      }
    }

    /** `sock.sendall(data)`. */
    method SendAll(data: seq<byte>)
      requires state == Open
      modifies this
      ensures state == Open && sent == old(sent) + data && pending == old(pending)
    {
      sent := sent + data;
    }

    /** `sock.recv(bufsize)`. */
    method Recv(bufsize: nat) returns (r: Result<seq<byte>, IoError>)
      requires state == Open && bufsize > 0
      modifies this
      ensures r == Received(old(pending), stalls, bufsize)
      ensures pending == if r.Success? then old(pending)[|r.value|..] else old(pending)
      ensures state == Open && sent == old(sent)
    {
      if |pending| == 0 {
        r := if stalls then Failure(Timeout) else Success([]);
      } else {
        var n := Min(bufsize, |pending|);
        r := Success(pending[..n]);
        pending := pending[n..];
      }
    }

    /** Leaving the `with` block. */
    method Close()
      requires state == Open
      modifies this
      ensures state == Closed && sent == old(sent) && pending == old(pending)
    {
      state := Closed;
    }
  }

  /** `_socks4_handshake`: send the CONNECT request, read up to 8 bytes, test CD. */
  method Socks4Handshake(sock: StubSocket) returns (r: Result<bool, IoError>)
    requires sock.state == Open
    modifies sock
    ensures sock.state == Open && sock.sent == old(sock.sent) + Socks4ProbeBytes()
    ensures r == Exchange(Socks4Probe, old(sock.pending), sock.stalls)
    ensures sock.pending == old(sock.pending)[Min(Socks4Probe.Window(), |old(sock.pending)|)..]
  {
    sock.SendAll(Socks4ProbeBytes());
    var reply := sock.Recv(SOCKS4_REPLY_WINDOW);
    if reply.Failure? {
      return Failure(reply.error);
    }
    r := Success(Socks4Granted(reply.value));
  }

  /** `_socks5_handshake`: send the greeting, read up to 2 bytes, require 05 00. */
  method Socks5Handshake(sock: StubSocket) returns (r: Result<bool, IoError>)
    requires sock.state == Open
    modifies sock
    ensures sock.state == Open && sock.sent == old(sock.sent) + Socks5ProbeBytes()
    ensures r == Exchange(Socks5Probe, old(sock.pending), sock.stalls)
    ensures sock.pending == old(sock.pending)[Min(Socks5Probe.Window(), |old(sock.pending)|)..]
  {
    sock.SendAll(Socks5ProbeBytes());
    var reply := sock.Recv(SOCKS5_REPLY_WINDOW);
    if reply.Failure? {
      return Failure(reply.error);
    }
    r := Success(Socks5Accepted(reply.value));
  }

  /** `_http_probe`: send OPTIONS *, read up to 1 KiB, look for the status-line prefix. */
  method HttpHandshake(sock: StubSocket) returns (r: Result<bool, IoError>)
    requires sock.state == Open
    modifies sock
    ensures sock.state == Open && sock.sent == old(sock.sent) + HttpProbeBytes()
    ensures r == Exchange(HttpProbe, old(sock.pending), sock.stalls)
    ensures sock.pending == old(sock.pending)[Min(HttpProbe.Window(), |old(sock.pending)|)..]
  {
    sock.SendAll(HttpProbeBytes());
    var reply := sock.Recv(HTTP_REPLY_WINDOW);
    if reply.Failure? {
      return Failure(reply.error);
    }
    r := Success(HttpStatusLine(reply.value));
  }

  /** Calling the handler that the dispatch table selected. */
  method RunHandshake(probe: Probe, sock: StubSocket) returns (r: Result<bool, IoError>)
    requires sock.state == Open
    modifies sock
    ensures sock.state == Open && sock.sent == old(sock.sent) + probe.Request()
    ensures r == Exchange(probe, old(sock.pending), sock.stalls)
    ensures sock.pending == old(sock.pending)[Min(probe.Window(), |old(sock.pending)|)..]
  {
    match probe
    case Socks4Probe => r := Socks4Handshake(sock);
    case Socks5Probe => r := Socks5Handshake(sock);
    case HttpProbe => r := HttpHandshake(sock);
  }
}
