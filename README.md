# ClosestProxy in Dafny

ClosestProxy reads a public list of free proxies and keeps the ones located in
the requested countries (by default, the caller's own country).
It probes each proxy with a protocol handshake: a SOCKS 4 CONNECT, a SOCKS 5
no-authentication greeting, or an HTTP `OPTIONS *` request.
A proxy that answers has its handshake latency recorded as its ping.
Such a proxy is then checked with a real request to the Tor Project home page.
The program keeps the working proxies and sorts them by ping.
Given a CIDR mask length, it also keeps only the fastest proxy of each network.

The model has these modules:

- `Wrappers`: `Option` and `Result`.
- `Text`: bytes, ASCII case mapping, substring search, and decimal rendering.
- `Handshake`: the three probes.
  - The byte layout of each probe and its inverse, and the acceptance test on the reply.
  - What one exchange yields for a given peer behaviour.
  - A scripted `StubSocket` class, which the handshake methods drive.
- `Proxy`: the rest of probing one proxy.
  - The `ProxyInfo` record: a class, because `test_proxy` updates its fields in place.
  - Protocol dispatch and the `proxies` table given to the HTTP client.
  - `get_url`, `does_it_work`, and `test_proxy` (the method `TestProxy`).
  - `ProbeOutcome`, the specification function `TestProxy` is proved against.
- `Ranking`: the pipeline of `main`.
  - Country filter, probing of every record, and the working filter.
  - A stable sort by ping.
  - Network computation and the deduplication loop (the method `DedupBySubnet`, called by `FindClosest`).
- `Cli`: the two argument checks from the command-line entry point.
- `Scenarios`: worked cases.
  - `TestProxy` against scripted peers.
  - A ranking and a deduplication on concrete records.

The network is a parameter everywhere, so nothing here performs I/O:

- the TCP peer is a `StubSocket` with a scripted reply;
- the elapsed handshake time is a number;
- `requests.get` is a `Response` value, either `Raised` or `Responded(status, text)`;
- the network's behaviour in the pipeline is a function `env: nat -> Trial`.
  `env(i)` is what happens when the i-th proxy is tested, so two identical list entries can fare differently.

Details of the code that the model keeps:

- `resp.ok` in `requests` is false exactly for the error statuses 400 to 599.
  Any other status, a 3xx or a nonstandard 600 or above included, counts as ok (`Proxy.Ok`).
- `does_it_work` fetches an `https` URL.
  For a plain `http` proxy the table has no `https` entry, so that fetch does not go through the proxy (`LivenessFetchBypassesHttpProxy`).
- The SOCKS 4 reply's version byte is never checked (`Socks4AnyVersion`).
- The ranked list is not a subsequence of the probed list, because sorting reorders it.
  The working filter and the deduplication each give a subsequence, and the sort is a stable permutation.
  The model proves each of these separately.

## Model

| member | source | states |
|---|---|---|
| Handshake.Socks4RoundTrip | main.py:86-88 | decoding the encoding of any valid SOCKS 4 request gives back that request |
| Handshake.Socks4ProbeLayout | main.py:86-88 | the SOCKS 4 probe is exactly 04 01 00 50 01 01 01 01 00 (CONNECT to 1.1.1.1:80 with an empty user id) and decodes to that request |
| Handshake.Socks4ExchangeIff | main.py:89-91 | the SOCKS 4 exchange succeeds with true iff the reply has at least two bytes and the second is 0x5A; it fails only when the peer sends nothing and stalls |
| Handshake.Socks4AnyVersion | main.py:84-91 | a grant is accepted whatever the reply's version byte is |
| Handshake.Socks5GreetingRoundTrip | main.py:99 | decoding a SOCKS 5 greeting gives back its method list |
| Handshake.Socks5ProbeLayout | main.py:99 | the SOCKS 5 probe is exactly 05 01 00 (one method: no authentication) |
| Handshake.Socks5ExchangeIff | main.py:99-101 | the SOCKS 5 exchange is true iff the first two reply bytes are exactly 05 00; more bytes are not read |
| Handshake.HttpProbeLayout | main.py:109-113 | the HTTP probe text is the serialisation of `OPTIONS * HTTP/1.1` with the Host and Connection headers, and is 60 bytes long |
| Handshake.HttpExchangeIff | main.py:114-115 | the HTTP exchange is true iff the reply, truncated to 1024 bytes, starts with `HTTP/1.` |
| Handshake.Exchange | main.py:89-91 | an exchange fails, with a timeout, iff nothing is pending and the peer stalls; otherwise the verdict is the probe's test on the first bytes of the reply, up to the probe's receive window |
| Handshake.Received | main.py:90 | a receive returns a prefix of the pending bytes of at most `bufsize` bytes, and times out iff nothing is pending and the peer stalls |
| Handshake.StubSocket.constructor | main.py:135 | a new scripted socket is unopened, has received nothing, and holds the whole scripted reply as pending |
| Handshake.StubSocket.Connect | main.py:135 | connecting opens the socket iff the peer is reachable, else fails and leaves the state Refused |
| Handshake.StubSocket.SendAll | main.py:89 | sending appends exactly the data to what the peer has received |
| Handshake.StubSocket.Recv | main.py:90 | receiving consumes exactly the returned prefix of the pending bytes |
| Handshake.StubSocket.Close | main.py:135-139 | leaving the `with` block closes the socket and changes neither what was sent nor what is pending |
| Handshake.Socks4Handshake | main.py:81-91 | sends the SOCKS 4 probe, and the verdict equals the SOCKS 4 exchange on what the peer had pending; at most 8 reply bytes are consumed |
| Handshake.Socks5Handshake | main.py:94-101 | sends the SOCKS 5 greeting, and the verdict equals the SOCKS 5 exchange; at most 2 reply bytes are consumed |
| Handshake.HttpHandshake | main.py:104-115 | sends the OPTIONS request, and the verdict equals the HTTP exchange; at most 1024 reply bytes are consumed |
| Handshake.RunHandshake | main.py:137 | running the dispatched handshake sends that probe's bytes, yields its exchange, and consumes at most the probe's receive window of the reply |
| Text.LowerNormalises | main.py:45 | lower-casing gives lower case, leaves lower-case text unchanged, and is idempotent |
| Text.UpperNormalises | main.py:250 | upper-casing gives upper case of the same length and leaves upper-case text unchanged |
| Text.ContainsIff | main.py:78 | the substring test holds iff the marker occurs at some index |
| Text.DecimalRoundTrip | main.py:48 | the decimal port text reads back as the port and has no leading zero |
| Text.ParseDecimalOfDecimal | main.py:48 | reading the decimal text of a number back gives that number |
| Proxy.ProxyInfo.constructor | main.py:27-38 | a new record object holds exactly the given field values |
| Proxy.ParseProtocol | main.py:124-130 | a protocol is recognised iff its lower-cased name is one of socks5, socks4, http, https |
| Proxy.ParseProtocolIgnoresCase | main.py:130 | dispatch does not depend on the case of the protocol string |
| Proxy.Handler | main.py:124-129 | http and https map to the HTTP probe, socks4 maps to the SOCKS 4 probe and socks5 to the SOCKS 5 probe, in both directions; each SOCKS probe starts with its own version byte |
| Proxy.ProxyUri | main.py:48 | a proxy URI starts with its scheme followed by `://` |
| Proxy.OctetsValue | main.py:48 | the four octets of an address are each below 256 and make the address in base 256 |
| Proxy.DottedQuadRoundTrip | main.py:48 | the dotted quad of an address reads back as that address |
| Proxy.DottedQuadNoColon | main.py:48 | a dotted quad holds no colon |
| Proxy.ProxyUriRoundTrip | main.py:48-54 | a proxy URI reads back as the scheme, address and port it was built from, by splitting at its colons (`Text.Split`, with `SplitAt` and `SplitPlain`) |
| Proxy.ProxiesFor | main.py:43-57 | no proxy gives no table; SOCKS gives both traffic classes one URI; http and https each give their own class only; any other protocol is a ValueError carrying the protocol |
| Proxy.ProxyTableShape | main.py:47-55 | every URI names the proxy's protocol as the scheme; http traffic is routed unless the protocol is https, and https traffic unless it is http |
| Proxy.GetUrl | main.py:41-63 | gives the body iff the table is built and the response came back with a status outside 400..599, else None; it never raises |
| Proxy.DoesItWork | main.py:73-78 | a proxy works iff its protocol is supported, the fetch came back with a status outside 400..599, and the page contains `Tor Project` |
| Proxy.ProxyTableAddresses | main.py:47-55 | every URI in the table reads back as the proxy's own lower-cased protocol, address and port |
| Proxy.LivenessFetchBypassesHttpProxy | main.py:50-52 | for an http proxy, the scheme of the liveness URL of line 75 is `https`, which has no entry in the table |
| Proxy.HandshakeSucceedsIff | main.py:86-115 | a handshake succeeds iff the peer is reachable and its reply passes that protocol's byte test |
| Proxy.ProbeOutcome | main.py:118-142 | probing fails iff the protocol is unsupported, with that protocol in the error; otherwise only ping and works may change |
| Proxy.ProbeUpdateRules | main.py:134-141 | without a successful handshake the record is unchanged; after one, ping is the measured time and works is the liveness verdict |
| Proxy.ProbeOfUnprobed | main.py:118-142 | a freshly read record gets a finite ping iff its handshake succeeds, and works only with a finite ping |
| Proxy.ProbeKeepsConsistent | main.py:118-142 | probing keeps the rule that works implies a finite ping |
| Proxy.TestProxy | main.py:118-142 | updates the object in place to the outcome of `ProbeOutcome`; an unsupported protocol raises before connecting and leaves everything untouched; a reached peer is sent that protocol's probe and the socket is closed |
| Ranking.FilterCounts | main.py:211 | the working filter keeps every qualifying record as often as it occurs and drops every other |
| Ranking.FilterIsSubsequence | main.py:206-211 | a comprehension filter yields a subsequence of its input |
| Ranking.FilterAll | main.py:211 | filtering a list whose every element qualifies changes nothing |
| Ranking.PingOrder | main.py:212 | the ping order is a total preorder (reflexive, total, transitive) |
| Ranking.SortByPing | main.py:212 | sorting by ping gives a list ordered by ping that is a permutation of its input |
| Ranking.SortKeepsSorted | main.py:212 | sorting a list already ordered by ping leaves it unchanged |
| Ranking.SortStable | main.py:212 | the sort is stable: records with equal ping keep their input order |
| Ranking.MapAll | main.py:209-210 | mapping keeps input order and length; it fails iff some element fails, with the first failure |
| Ranking.SearchedCountries | main.py:203-204 | given codes are searched as they are; without codes the searched set holds exactly the caller's located country, and is empty if it is unknown |
| Ranking.InCountries | main.py:206 | the country filter keeps, in order, every record whose country is searched, as often as it occurs, and no other |
| Ranking.ProbeAll | main.py:209-210 | every record is probed with the trial of its own position and the results stay in input order; an unsupported protocol anywhere makes the whole run fail with the first such protocol |
| Scenarios.IndependentProbes | main.py:209-210 | two identical records can be probed with different outcomes, one answering and one not |
| Ranking.Working | main.py:211 | the working filter keeps every working record with a finite ping as often as it occurs, and drops every other |
| Ranking.Network | main.py:219 | the network of an address is never above the address |
| Ranking.NetworkBounds | main.py:219 | an address lies in its network, which spans 2^(32-m) addresses from its base |
| Ranking.SameNetworkIff | main.py:219-220 | two addresses give the same network iff they agree on their top m bits |
| Ranking.NetworkExtremes | main.py:219 | mask /32 gives the address itself and mask /0 puts everything in one network |
| Ranking.NetworksIff | main.py:216-221 | the set of seen networks holds exactly the networks of the records visited |
| Ranking.DedupByNetwork | main.py:215-224 | deduplication never makes the list longer |
| Ranking.DedupCount | main.py:215-224 | deduplication keeps exactly one record per network seen |
| Ranking.DedupKeepsFirstOccurrences | main.py:215-224 | deduplication keeps exactly the records whose network has not appeared earlier |
| Ranking.DedupNetworks | main.py:215-224 | deduplication loses no network |
| Ranking.DedupDistinct | main.py:215-224 | no two kept records share a network |
| Ranking.DedupElements | main.py:215-224 | deduplication keeps records of the input, one per network, and loses no network |
| Ranking.DedupSorted | main.py:212-224 | deduplicating a list sorted by ping keeps it sorted |
| Ranking.DedupKeepsLowestPing | main.py:212-224 | on a sorted list, each kept record has a ping no higher than any other record of its network |
| Ranking.DedupIdempotent | main.py:215-224 | deduplicating twice is deduplicating once |
| Ranking.DedupOfDistinct | main.py:215-224 | a list whose networks are already distinct is left unchanged |
| Ranking.Ranked | main.py:211-224 | the final list is as long as the working list without a mask, and has one entry per network of the working list with one |
| Ranking.RankedSortedWorking | main.py:211-224 | the final list is sorted by ping and holds only working proxies from the probed list |
| Ranking.RankedWithoutNetmask | main.py:211-212 | without a mask, every working proxy appears as often as it was probed, with ties in probing order |
| Ranking.RankedWithNetmask | main.py:211-224 | with a mask, the final list is the first proxy of each network of the sorted working list: a subsequence with distinct networks covering every working network |
| Ranking.RankedIdempotent | main.py:211-224 | ranking the ranked list again with the same mask gives it back |
| Ranking.DedupBySubnet | main.py:215-224 | the `seen`/`deduped` loop computes exactly the first-per-network deduplication |
| Ranking.FindClosest | main.py:202-224 | returns the ranking of the probed records of the searched countries, or the first ValueError of probing |
| Cli.ParseArguments | main.py:247-256 | arguments are accepted iff the mask is in 0..32 and every code has two letters, with the mask checked first, so a rejection is about the mask iff the mask is given and out of range; the accepted set is exactly the upper-cased codes, and no codes means using the caller's own location; a rejection lists exactly the upper-cased codes of the wrong length |

## Left out

- Sockets are the scripted `StubSocket`.
  - `recv` returns at once every pending byte, up to the buffer size.
  - `sendall` never fails.
  - The connect and receive timeouts of 8 seconds are the two outcomes `Refused` and a stall.
- Timing is not modelled.
  - `time.time()` and the floating-point ping are replaced by a whole elapsed time given by the caller.
  - Infinity is its own constructor.
- `requests.get` is left out: transport, proxy URLs, TLS, the 16-second timeout and the `url` argument.
  - The call is a given `Response`.
  - The table from `ProxiesFor` is computed but not interpreted.
- `eprint` and all logging of exceptions are left out, because they are output only.
- `geolocation_service` and its JSON parsing are left out, because they are I/O.
  - Its result is the `located` parameter of `FindClosest`.
  - If it yields None, `{None}` matches no country, so the model searches the empty set.
- `get_data` and `parse_data`, the download, cache and parse of the proxy list, are left out.
  - The records are given to `FindClosest`.
  - The initial `ping = inf` and `works = False` appear as `Proxy.Unprobed`.
- `pretty_print_results` and the progress messages of `main` are left out, because they are output only.
- Process parallelism is left out.
  - `multiprocessing.Pool.imap` and `tqdm` are modelled as a sequential map over copies of the records, and `imap` keeps input order.
  - A worker's ValueError is re-raised by the parent, at the first failing position.
- Only IPv4 addresses are modelled.
  - `ip` is a 32-bit number, written back as a dotted quad in proxy URIs.
  - IPv6 addresses, host names and malformed addresses in the list, and the errors `create_connection` and `ip_network` raise for them, are not modelled.
- Ranking.FindClosest: requires a mask of at most 32.
  - The command line guarantees this.
  - The ValueError `ip_network` raises for a larger mask is not modelled.
- Ports are natural numbers; the OverflowError for a port above 65535 is not modelled.
- Case mapping covers ASCII letters only.
  - Python's Unicode `lower()` and `upper()` can differ on other characters, and can even change the length of a string.
  - Cli.ParseArguments: the two-letter check is therefore on the code as given, which under ASCII case mapping equals the length of the upper-cased code.
- The text of the ValueError message, `repr` formatting included, is reduced to the protocol string it quotes.
- `parser.error` exits the process; the model returns a `UsageError` instead.
  - Only the first failing code is reported by the source; the model reports every code of the wrong length.
  - Argument syntax (`argparse` flags, `nargs`, integer conversion) is not modelled.
- `closest_proxy/try_me.py` is a usage example outside the core, and is not part of this model.
