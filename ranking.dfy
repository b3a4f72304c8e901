/**
 * The ranking pipeline of `main`: keep the proxies of the wanted countries,
 * probe each of them, keep the working ones with a finite ping, sort them by
 * ping (stably), and optionally keep only the first proxy of every IPv4
 * network of a given prefix length.
 */
module Ranking {
  import opened Wrappers
  import opened Proxy

  // ================================================================ sequences

  /** A list comprehension `[x for x in s if f(x)]`. */
  function Filter<T>(s: seq<T>, f: T -> bool): (r: seq<T>)
    ensures |r| <= |s|
  {
    if |s| == 0 then [] else Filter(s[..|s| - 1], f) + (if f(s[|s| - 1]) then [s[|s| - 1]] else [])
  }

  /** The elements of `s` whose flag in `keep` is set, in order. */
  function Select<T>(s: seq<T>, keep: seq<bool>): seq<T>
    requires |keep| == |s|
  {
    if |s| == 0 then []
    else Select(s[..|s| - 1], keep[..|s| - 1]) + (if keep[|s| - 1] then [s[|s| - 1]] else [])
  }

  /** `a` is obtained from `b` by deleting elements. */
  ghost predicate IsSubsequence<T>(a: seq<T>, b: seq<T>) {
    exists keep: seq<bool> | |keep| == |b| :: Select(b, keep) == a
  }

  lemma {:induction false} FilterIsSelect<T>(s: seq<T>, f: T -> bool)
    ensures Filter(s, f) == Select(s, seq(|s|, i requires 0 <= i < |s| => f(s[i])))
  {
    if |s| > 0 {
      var n := |s| - 1;
      FilterIsSelect(s[..n], f);
      var mask := seq(|s|, i requires 0 <= i < |s| => f(s[i]));
      assert mask[..n] == seq(n, i requires 0 <= i < n => f(s[..n][i]));
    }
  }

  lemma {:induction false} FilterAppend<T>(a: seq<T>, b: seq<T>, f: T -> bool)
    ensures Filter(a + b, f) == Filter(a, f) + Filter(b, f)
  {
    if |b| > 0 {
      var n := |b| - 1;
      assert (a + b)[..|a + b| - 1] == a + b[..n];
      FilterAppend(a, b[..n], f);
    } else {
      assert a + b == a;
    }
  }

  /** A filter's result is a subsequence of its input. */
  lemma FilterIsSubsequence<T>(s: seq<T>, f: T -> bool)
    ensures IsSubsequence(Filter(s, f), s)
  {
    var keep := seq(|s|, i requires 0 <= i < |s| => f(s[i]));
    FilterIsSelect(s, f);
    assert Select(s, keep) == Filter(s, f);
  }

  /** A filter changes nothing when every element passes. */
  lemma {:induction false} FilterAll<T>(s: seq<T>, f: T -> bool)
    requires forall i | 0 <= i < |s| :: f(s[i])
    ensures Filter(s, f) == s
  {
    if |s| > 0 {
      FilterAll(s[..|s| - 1], f);
      assert s[..|s| - 1] + [s[|s| - 1]] == s;
    }
  }

  /** A filter keeps every passing element as often as it occurs, and no other. */
  lemma {:induction false} FilterCounts<T>(s: seq<T>, f: T -> bool)
    ensures forall x :: multiset(Filter(s, f))[x] == if f(x) then multiset(s)[x] else 0
  {
    if |s| > 0 {
      var n := |s| - 1;
      FilterCounts(s[..n], f);
      assert s == s[..n] + [s[n]];
    }
  }

  // ================================================================ ping order

  /** `a < b` on latencies, infinity being the greatest (Python's float order with `inf`). */
  predicate PingLess(a: Ping, b: Ping) {
    match a
    case Infinite => false
    case Measured(x) => b.Infinite? || x < b.elapsed
  }

  predicate PingAtMost(a: Ping, b: Ping) {
    !PingLess(b, a)
  }

  /** The order on latencies is a total preorder. */
  lemma PingOrder(a: Ping, b: Ping, c: Ping)
    ensures PingAtMost(a, a)
    ensures PingAtMost(a, b) || PingAtMost(b, a)
    ensures PingLess(a, b) && PingAtMost(b, c) ==> PingLess(a, c)
    ensures PingAtMost(a, b) && PingAtMost(b, c) ==> PingAtMost(a, c)
  {
  }

  predicate SortedByPing(s: seq<ProxyRecord>) {
    forall i, j | 0 <= i < j < |s| :: PingAtMost(s[i].ping, s[j].ping)
  }

  function PingIs(k: Ping): ProxyRecord -> bool {
    (r: ProxyRecord) => r.ping == k
  }

  /** The records of `s` whose ping is exactly `k`, in order. */
  function WithPing(s: seq<ProxyRecord>, k: Ping): seq<ProxyRecord> {
    Filter(s, PingIs(k))
  }

  // ================================================================ stable sort

  /** Inserts `x` before the first element with a strictly greater ping, so after all its equals. */
  function Insert(s: seq<ProxyRecord>, x: ProxyRecord): (r: seq<ProxyRecord>)
    ensures multiset(r) == multiset(s) + multiset{x}
  {
    if |s| == 0 then [x]
    else if PingLess(x.ping, s[0].ping) then [x] + s
    else assert s == [s[0]] + s[1..]; [s[0]] + Insert(s[1..], x)
  }

  /** `results.sort(key=lambda x: x.ping)`: Python's sort is stable, as insertion sort is. */
  function SortByPing(s: seq<ProxyRecord>): (r: seq<ProxyRecord>)
    ensures SortedByPing(r)
    ensures multiset(r) == multiset(s)
  {
    if |s| == 0 then []
    else
      var n := |s| - 1;
      var sorted := SortByPing(s[..n]);
      InsertSorted(sorted, s[n]);
      assert s == s[..n] + [s[n]];
      Insert(sorted, s[n])
  }

  lemma {:induction false} InsertSorted(s: seq<ProxyRecord>, x: ProxyRecord)
    requires SortedByPing(s)
    ensures SortedByPing(Insert(s, x))
  {
    if |s| > 0 && !PingLess(x.ping, s[0].ping) {
      InsertSorted(s[1..], x);
      var t := Insert(s[1..], x);
      forall j | 0 <= j < |t| ensures PingAtMost(s[0].ping, t[j].ping) {
        assert t[j] in multiset(t);
        assert t[j] in s[1..] || t[j] == x;
      }
    }
  }

  lemma {:induction false} NoneWithPing(s: seq<ProxyRecord>, k: Ping)
    requires forall i | 0 <= i < |s| :: PingLess(k, s[i].ping)
    ensures WithPing(s, k) == []
  {
    if |s| > 0 {
      NoneWithPing(s[..|s| - 1], k);
    }
  }

  lemma WithPingSingle(x: ProxyRecord, k: Ping)
    ensures WithPing([x], k) == if x.ping == k then [x] else []
  {
    assert [x][..0] == [];
  }

  lemma WithPingCons(x: ProxyRecord, s: seq<ProxyRecord>, k: Ping)
    ensures WithPing([x] + s, k) == WithPing([x], k) + WithPing(s, k)
  {
    FilterAppend([x], s, PingIs(k));
  }

  lemma InsertStableFront(s: seq<ProxyRecord>, x: ProxyRecord, k: Ping)
    requires SortedByPing(s) && |s| > 0 && PingLess(x.ping, s[0].ping)
    ensures WithPing(Insert(s, x), k) == WithPing(s, k) + WithPing([x], k)
  {
    WithPingSingle(x, k);
    assert Insert(s, x) == [x] + s;
    WithPingCons(x, s, k);
    if x.ping == k {
      forall i | 0 <= i < |s| ensures PingLess(k, s[i].ping) {
        PingOrder(k, s[0].ping, s[i].ping);
      }
      NoneWithPing(s, k);
    }
  }

  lemma SortedTail(s: seq<ProxyRecord>)
    requires SortedByPing(s) && |s| > 0
    ensures SortedByPing(s[1..])
  {
    forall i, j | 0 <= i < j < |s| - 1 ensures PingAtMost(s[1..][i].ping, s[1..][j].ping) {
      assert s[1..][i] == s[i + 1] && s[1..][j] == s[j + 1];
    }
  }

  lemma {:induction false} InsertStable(s: seq<ProxyRecord>, x: ProxyRecord, k: Ping)
    requires SortedByPing(s)
    ensures WithPing(Insert(s, x), k) == WithPing(s, k) + WithPing([x], k)
    decreases |s|, 1
  {
    if |s| == 0 {
      assert Insert(s, x) == [x];
      assert WithPing(s, k) == [];
    } else if PingLess(x.ping, s[0].ping) {
      InsertStableFront(s, x, k);
    } else {
      InsertStableLater(s, x, k);
    }
  }

  lemma {:induction false} InsertStableLater(s: seq<ProxyRecord>, x: ProxyRecord, k: Ping)
    requires SortedByPing(s) && |s| > 0 && !PingLess(x.ping, s[0].ping)
    ensures WithPing(Insert(s, x), k) == WithPing(s, k) + WithPing([x], k)
    decreases |s|, 0
  {
    var t := s[1..];
    var u := Insert(t, x);
    var head := WithPing([s[0]], k);
    calc {
      WithPing(Insert(s, x), k);
    ==
      WithPing([s[0]] + u, k);
    == { WithPingCons(s[0], u, k); }
      head + WithPing(u, k);
    == { SortedTail(s); InsertStable(t, x, k); }
      head + (WithPing(t, k) + WithPing([x], k));
    ==
      (head + WithPing(t, k)) + WithPing([x], k);
    == { WithPingCons(s[0], t, k); assert [s[0]] + t == s; }
      WithPing(s, k) + WithPing([x], k);
    }
  }

  /** Sorting is stable: the records sharing any one ping value keep their input order. */
  lemma {:induction false} SortStable(s: seq<ProxyRecord>, k: Ping)
    ensures WithPing(SortByPing(s), k) == WithPing(s, k)
  {
    if |s| > 0 {
      var init, x := s[..|s| - 1], s[|s| - 1];
      calc {
        WithPing(SortByPing(s), k);
      ==
        WithPing(Insert(SortByPing(init), x), k);
      == { InsertStable(SortByPing(init), x, k); }
        WithPing(SortByPing(init), k) + WithPing([x], k);
      == { SortStable(init, k); }
        WithPing(init, k) + WithPing([x], k);
      == { FilterAppend(init, [x], PingIs(k)); assert init + [x] == s; }
        WithPing(s, k);
      }
    }
  }

  lemma {:induction false} InsertLast(s: seq<ProxyRecord>, x: ProxyRecord)
    requires forall i | 0 <= i < |s| :: PingAtMost(s[i].ping, x.ping)
    ensures Insert(s, x) == s + [x]
  {
    if |s| > 0 {
      InsertLast(s[1..], x);
    }
  }

  lemma SortedPrefix(init: seq<ProxyRecord>, x: ProxyRecord)
    requires SortedByPing(init + [x])
    ensures SortedByPing(init)
    ensures forall i | 0 <= i < |init| :: PingAtMost(init[i].ping, x.ping)
  {
    var t := init + [x];
    assert forall i | 0 <= i < |init| :: t[i] == init[i];
    forall i | 0 <= i < |init| ensures PingAtMost(init[i].ping, x.ping) {
      assert t[i] == init[i] && t[|init|] == x;
    }
  }

  lemma SortedSnoc(s: seq<ProxyRecord>, x: ProxyRecord)
    requires SortedByPing(s)
    requires forall k | 0 <= k < |s| :: PingAtMost(s[k].ping, x.ping)
    ensures SortedByPing(s + [x])
  {
    var t := s + [x];
    forall i, j | 0 <= i < j < |t| ensures PingAtMost(t[i].ping, t[j].ping) {
      assert t[i] == s[i];
      if j < |s| {
        assert t[j] == s[j];
      }
    }
  }

  /** Sorting a list that is already sorted by ping leaves it as it is. */
  lemma {:induction false} SortKeepsSorted(s: seq<ProxyRecord>)
    requires SortedByPing(s)
    ensures SortByPing(s) == s
  {
    if |s| > 0 {
      var n := |s| - 1;
      assert s[..n] + [s[n]] == s;
      SortedPrefix(s[..n], s[n]);
      SortKeepsSorted(s[..n]);
      InsertLast(s[..n], s[n]);
    }
  }

  // ================================================================ networks

  function Pow2(k: nat): (p: nat)
    ensures p >= 1
  {
    if k == 0 then 1 else 2 * Pow2(k - 1)
  }

  /**
   * The address of the `/m` network containing `ip` (what
   * `ip_network(f"{ip}/{m}", strict=False)` yields): the top m bits kept,
   * the host bits cleared.
   */
  function Network(ip: Ipv4, m: nat): (net: nat)
    requires m <= 32
    ensures net <= ip
  {
    var p := Pow2(32 - m);
    DivBounds(ip, p);
    ip / p * p
  }

  lemma DivBounds(a: nat, p: nat)
    requires p > 0
    ensures 0 <= a / p && a / p * p <= a
  {
    assert a == a / p * p + a % p;
  }

  lemma {:induction false} Pow2Add(a: nat, b: nat)
    ensures Pow2(a + b) == Pow2(a) * Pow2(b)
  {
    if a > 0 {
      Pow2Add(a - 1, b);
    }
  }

  lemma Pow2Of32()
    ensures Pow2(32) == 0x1_0000_0000
  {
    assert Pow2(8) == 0x100;
    Pow2Add(8, 8);
    Pow2Add(16, 16);
  }

  lemma DivMulBounds(a: nat, p: nat)
    requires p > 0
    ensures a / p * p <= a < a / p * p + p
  {
    assert a == a / p * p + a % p;
  }

  /** The network address is `ip` with its low 32-m bits cleared. */
  lemma NetworkBounds(a: Ipv4, m: nat)
    requires m <= 32
    ensures Network(a, m) <= a < Network(a, m) + Pow2(32 - m)
  {
    DivMulBounds(a, Pow2(32 - m));
  }

  /** Two addresses share a `/m` network iff their top m bits (the quotient by 2^(32-m)) agree. */
  lemma SameNetworkIff(a: Ipv4, b: Ipv4, m: nat)
    requires m <= 32
    ensures Network(a, m) == Network(b, m) <==> a / Pow2(32 - m) == b / Pow2(32 - m)
  {
    var p := Pow2(32 - m);
    assert Network(a, m) == a / p * p && Network(b, m) == b / p * p;
    if a / p * p == b / p * p {
      MultiplyCancel(a / p, b / p, p);
    }
  }

  /** A /32 network is the address itself; under /0 every address is in the one network 0.0.0.0. */
  lemma NetworkExtremes(a: Ipv4)
    ensures Network(a, 32) == a
    ensures Network(a, 0) == 0
  {
    Pow2Of32();
    assert a / Pow2(32) == 0;
  }

  lemma MultiplyCancel(x: nat, y: nat, p: nat)
    requires p > 0 && x * p == y * p
    ensures x == y
  {
    assert (x - y) * p == 0;
  }

  function NetOf(r: ProxyRecord, m: nat): nat
    requires m <= 32
  {
    Network(r.ip, m)
  }

  /** The set `seen` after visiting `s`. */
  function Networks(s: seq<ProxyRecord>, m: nat): (ns: set<nat>)
    requires m <= 32
    ensures |ns| <= |s|
  {
    if |s| == 0 then {} else Networks(s[..|s| - 1], m) + {NetOf(s[|s| - 1], m)}
  }

  lemma {:induction false} NetworksIff(s: seq<ProxyRecord>, m: nat, n: nat)
    requires m <= 32
    ensures n in Networks(s, m) <==> exists i | 0 <= i < |s| :: NetOf(s[i], m) == n
  {
    if |s| > 0 {
      NetworksIff(s[..|s| - 1], m, n);
      if n in Networks(s[..|s| - 1], m) {
        var i :| 0 <= i < |s| - 1 && NetOf(s[..|s| - 1][i], m) == n;
        assert NetOf(s[i], m) == n;
      }
    }
  }

  predicate DistinctNetworks(s: seq<ProxyRecord>, m: nat)
    requires m <= 32
  {
    forall i, j | 0 <= i < j < |s| :: NetOf(s[i], m) != NetOf(s[j], m)
  }

  // ================================================================ subnet dedup

  /** The `for` loop over `results` with its `seen` set and `deduped` list: the first proxy of each network wins. */
  function DedupByNetwork(s: seq<ProxyRecord>, m: nat): (r: seq<ProxyRecord>)
    requires m <= 32
    ensures |r| <= |s|
  {
    if |s| == 0 then []
    else
      var rest := s[..|s| - 1];
      if NetOf(s[|s| - 1], m) in Networks(rest, m) then DedupByNetwork(rest, m)
      else DedupByNetwork(rest, m) + [s[|s| - 1]]
  }

  /** The dedup keeps exactly one record per distinct network. */
  lemma {:induction false} DedupCount(s: seq<ProxyRecord>, m: nat)
    requires m <= 32
    ensures |DedupByNetwork(s, m)| == |Networks(s, m)|
  {
    if |s| > 0 {
      var rest, net := s[..|s| - 1], NetOf(s[|s| - 1], m);
      DedupCount(rest, m);
      if net in Networks(rest, m) {
        assert Networks(s, m) == Networks(rest, m);
      } else {
        assert |Networks(rest, m) + {net}| == |Networks(rest, m)| + 1;
      }
    }
  }

  /** Whether the record at position j is the first of its network. */
  function FirstOfNetwork(s: seq<ProxyRecord>, m: nat): (keep: seq<bool>)
    requires m <= 32
    ensures |keep| == |s|
  {
    seq(|s|, j requires 0 <= j < |s| => NetOf(s[j], m) !in Networks(s[..j], m))
  }

  /** The dedup keeps exactly the records that are the first of their network, in order. */
  lemma {:induction false} DedupKeepsFirstOccurrences(s: seq<ProxyRecord>, m: nat)
    requires m <= 32
    ensures DedupByNetwork(s, m) == Select(s, FirstOfNetwork(s, m))
  {
    if |s| > 0 {
      var n := |s| - 1;
      DedupKeepsFirstOccurrences(s[..n], m);
      assert FirstOfNetwork(s, m)[..n] == FirstOfNetwork(s[..n], m) by {
        forall j | 0 <= j < n ensures FirstOfNetwork(s, m)[j] == FirstOfNetwork(s[..n], m)[j] {
          assert s[..n][..j] == s[..j];
        }
      }
    }
  }

  lemma {:induction false} DedupMembers(s: seq<ProxyRecord>, m: nat)
    requires m <= 32
    ensures forall x | x in DedupByNetwork(s, m) :: x in s
  {
    if |s| > 0 {
      DedupMembers(s[..|s| - 1], m);
    }
  }

  /** The dedup loses no network. */
  lemma {:induction false} DedupNetworks(s: seq<ProxyRecord>, m: nat)
    requires m <= 32
    ensures Networks(DedupByNetwork(s, m), m) == Networks(s, m)
  {
    if |s| > 0 {
      var n := |s| - 1;
      var d := DedupByNetwork(s[..n], m);
      DedupNetworks(s[..n], m);
      if NetOf(s[n], m) !in Networks(s[..n], m) {
        assert (d + [s[n]])[..|d|] == d;
      }
    }
  }

  lemma DistinctSnoc(d: seq<ProxyRecord>, x: ProxyRecord, m: nat)
    requires m <= 32 && DistinctNetworks(d, m)
    requires NetOf(x, m) !in Networks(d, m)
    ensures DistinctNetworks(d + [x], m)
  {
    var t := d + [x];
    forall i, j | 0 <= i < j < |t| ensures NetOf(t[i], m) != NetOf(t[j], m) {
      assert t[i] == d[i];
      if j < |d| {
        assert t[j] == d[j];
      } else {
        NetworksIff(d, m, NetOf(d[i], m));
      }
    }
  }

  /** No two records the dedup keeps share a network. */
  lemma {:induction false} DedupDistinct(s: seq<ProxyRecord>, m: nat)
    requires m <= 32
    ensures DistinctNetworks(DedupByNetwork(s, m), m)
  {
    if |s| > 0 {
      var n := |s| - 1;
      DedupDistinct(s[..n], m);
      if NetOf(s[n], m) !in Networks(s[..n], m) {
        DedupNetworks(s[..n], m);
        DistinctSnoc(DedupByNetwork(s[..n], m), s[n], m);
      }
    }
  }

  /** The dedup keeps records of its input, loses no network, and keeps one record per network. */
  lemma DedupElements(s: seq<ProxyRecord>, m: nat)
    requires m <= 32
    ensures forall x | x in DedupByNetwork(s, m) :: x in s
    ensures Networks(DedupByNetwork(s, m), m) == Networks(s, m)
    ensures DistinctNetworks(DedupByNetwork(s, m), m)
  {
    DedupMembers(s, m);
    DedupNetworks(s, m);
    DedupDistinct(s, m);
  }

  /** Over a list sorted by ping, the dedup's output stays sorted. */
  lemma {:induction false} DedupSorted(s: seq<ProxyRecord>, m: nat)
    requires m <= 32 && SortedByPing(s)
    ensures SortedByPing(DedupByNetwork(s, m))
  {
    if |s| > 0 {
      var n := |s| - 1;
      var init, d := s[..n], DedupByNetwork(s[..n], m);
      assert init + [s[n]] == s;
      SortedPrefix(init, s[n]);
      DedupSorted(init, m);
      DedupMembers(init, m);
      forall k | 0 <= k < |d| ensures PingAtMost(d[k].ping, s[n].ping) {
        assert d[k] in init;
        var i :| 0 <= i < n && init[i] == d[k];
      }
      SortedSnoc(d, s[n]);
    }
  }

  /** Over a list sorted by ping, the record kept for a network has the lowest ping of all that network's records. */
  lemma {:induction false} DedupKeepsLowestPing(s: seq<ProxyRecord>, m: nat, k: nat, j: nat)
    requires m <= 32 && SortedByPing(s)
    requires k < |DedupByNetwork(s, m)| && j < |s|
    requires NetOf(s[j], m) == NetOf(DedupByNetwork(s, m)[k], m)
    ensures PingAtMost(DedupByNetwork(s, m)[k].ping, s[j].ping)
  {
    var n := |s| - 1;
    var init := s[..n];
    var d := DedupByNetwork(init, m);
    var x := DedupByNetwork(s, m)[k];
    assert init + [s[n]] == s;
    SortedPrefix(init, s[n]);
    if k < |d| {
      assert x == d[k];
      if j < n {
        assert init[j] == s[j];
        DedupKeepsLowestPing(init, m, k, j);
      } else {
        DedupMembers(init, m);
        assert x in init;
        var i :| 0 <= i < n && init[i] == x;
      }
    } else if j < n {
      // x is s[n], kept because no earlier record shares its network
      assert x == s[n] && NetOf(s[n], m) !in Networks(init, m);
      assert init[j] == s[j];
      NetworksIff(init, m, NetOf(s[n], m));
    }
  }

  /** A list whose networks are already distinct is left unchanged, so applying the dedup twice changes nothing more. */
  lemma {:induction false} DedupIdempotent(s: seq<ProxyRecord>, m: nat)
    requires m <= 32
    ensures DistinctNetworks(s, m) ==> DedupByNetwork(s, m) == s
    ensures DedupByNetwork(DedupByNetwork(s, m), m) == DedupByNetwork(s, m)
  {
    DedupElements(s, m);
    DedupOfDistinct(s, m);
    DedupOfDistinct(DedupByNetwork(s, m), m);
  }

  lemma {:induction false} DedupOfDistinct(s: seq<ProxyRecord>, m: nat)
    requires m <= 32
    ensures DistinctNetworks(s, m) ==> DedupByNetwork(s, m) == s
  {
    if |s| > 0 && DistinctNetworks(s, m) {
      var n := |s| - 1;
      assert DistinctNetworks(s[..n], m);
      DedupOfDistinct(s[..n], m);
      NetworksIff(s[..n], m, NetOf(s[n], m));
      assert s[..n] + [s[n]] == s;
    }
  }

  // ================================================================ the pipeline

  /** `r.works and r.ping != float('inf')`. */
  predicate IsWorking(r: ProxyRecord) {
    r.works && r.ping != Infinite
  }

  /** `[r for r in results if r.works and r.ping != float('inf')]`. */
  function Working(s: seq<ProxyRecord>): (r: seq<ProxyRecord>)
    ensures forall x :: multiset(r)[x] == if IsWorking(x) then multiset(s)[x] else 0
  {
    FilterCounts(s, IsWorking);
    Filter(s, IsWorking)
  }

  /** The proxies whose country is one of the wanted codes. */
  function InCountries(s: seq<ProxyRecord>, codes: set<string>): (r: seq<ProxyRecord>)
    ensures forall x :: multiset(r)[x] == if x.geolocation.country in codes then multiset(s)[x] else 0
    ensures IsSubsequence(r, s)
  {
    var inside := (rec: ProxyRecord) => rec.geolocation.country in codes;
    FilterCounts(s, inside);
    FilterIsSubsequence(s, inside);
    Filter(s, inside)
  }

  /** The codes given, or else the one country the geolocation service reports (none if it fails). */
  function SearchedCountries(countries: Option<set<string>>, located: Option<string>): (codes: set<string>)
    ensures countries.Some? ==> codes == countries.value
    ensures countries.None? ==> forall c :: c in codes <==> located == Some(c)
  {
    match countries
    case Some(codes) => codes
    case None => if located.Some? then {located.value} else {}
  }

  /**
   * Applies `f` to every element and its position, in order; the first
   * failure, if any, is the result.
   */
  function MapAll<T, U, E>(data: seq<T>, f: (nat, T) -> Result<U, E>): (r: Result<seq<U>, E>)
    ensures r.Failure? <==> exists i | 0 <= i < |data| :: f(i, data[i]).Failure?
    ensures r.Failure? ==> exists i | 0 <= i < |data| ::
      && f(i, data[i]) == Failure(r.error)
      && forall j | 0 <= j < i :: f(j, data[j]).Success?
    ensures r.Success? ==>
      && |r.value| == |data|
      && forall i | 0 <= i < |data| :: f(i, data[i]) == Success(r.value[i])
  {
    if |data| == 0 then Success([])
    else
      var n := |data| - 1;
      var init := data[..n];
      assert forall i | 0 <= i < n :: init[i] == data[i];
      match MapAll(init, f)
      case Failure(e) => Failure(e)
      case Success(done) =>
        match f(n, data[n])
        case Failure(e) => Failure(e)
        case Success(last) => Success(done + [last])
  }

  /**
   * `pool.imap(test_proxy, data)` collected into a list: every record is
   * probed, `env(i)` being what the network does when the record at position
   * `i` is tested; results come in input order, and the first ValueError, in
   * input order, escapes.
   */
  function ProbeAll(data: seq<ProxyRecord>, env: nat -> Trial): (r: Result<seq<ProxyRecord>, ConfigError>)
    ensures r.Failure? <==> exists i | 0 <= i < |data| :: ParseProtocol(data[i].protocol).None?
    ensures r.Failure? ==> exists i | 0 <= i < |data| ::
      && r.error == UnsupportedProtocol(data[i].protocol)
      && forall j | 0 <= j < i :: ParseProtocol(data[j].protocol).Some?
    ensures r.Success? ==>
      && |r.value| == |data|
      && forall i | 0 <= i < |data| :: ProbeOutcome(data[i], env(i)) == Success(r.value[i])
  {
    var probe := (i: nat, rec: ProxyRecord) => ProbeOutcome(rec, env(i));
    assert forall i | 0 <= i < |data| :: probe(i, data[i]) == ProbeOutcome(data[i], env(i));
    MapAll(data, probe)
  }

  /** The working proxies sorted by ping, then (with a netmask) deduplicated by network. */
  function Ranked(probed: seq<ProxyRecord>, netmask: Option<nat>): (r: seq<ProxyRecord>)
    requires netmask.Some? ==> netmask.value <= 32
    ensures netmask.None? ==> |r| == |Working(probed)|
    ensures netmask.Some? ==> |r| == |Networks(Working(probed), netmask.value)|
  {
    var sorted := SortByPing(Working(probed));
    assert |sorted| == |multiset(sorted)| == |Working(probed)|;
    if netmask.None? then sorted
    else
      SortNetworks(Working(probed), netmask.value);
      DedupCount(sorted, netmask.value);
      DedupByNetwork(sorted, netmask.value)
  }

  /** Sorting permutes: the sorted list holds the same records, so the same networks. */
  lemma SortedElements(s: seq<ProxyRecord>)
    ensures forall x | x in SortByPing(s) :: x in s
  {
    forall x | x in SortByPing(s) ensures x in s {
      assert x in multiset(SortByPing(s));
    }
  }

  lemma WorkingElements(s: seq<ProxyRecord>)
    ensures forall x | x in Working(s) :: x in s && IsWorking(x)
  {
    FilterCounts(s, IsWorking);
    forall x | x in Working(s) ensures x in s && IsWorking(x) {
      assert x in multiset(Working(s));
    }
  }

  /** Every ranked proxy is a working one from the probed list, and the list is sorted by ping. */
  lemma RankedSortedWorking(probed: seq<ProxyRecord>, netmask: Option<nat>)
    requires netmask.Some? ==> netmask.value <= 32
    ensures SortedByPing(Ranked(probed, netmask))
    ensures forall x | x in Ranked(probed, netmask) :: x in probed && IsWorking(x)
  {
    var sorted := SortByPing(Working(probed));
    SortedElements(Working(probed));
    WorkingElements(probed);
    if netmask.Some? {
      DedupSorted(sorted, netmask.value);
      DedupElements(sorted, netmask.value);
    }
  }

  /** Without a netmask, the ranking holds every working proxy as often as probed, ties in input order. */
  lemma RankedWithoutNetmask(probed: seq<ProxyRecord>)
    ensures forall x :: multiset(Ranked(probed, None))[x] == if IsWorking(x) then multiset(probed)[x] else 0
    ensures forall k :: WithPing(Ranked(probed, None), k) == WithPing(Working(probed), k)
  {
    FilterCounts(probed, IsWorking);
    forall k ensures WithPing(Ranked(probed, None), k) == WithPing(Working(probed), k) {
      SortStable(Working(probed), k);
    }
  }

  /**
   * With a netmask, the ranking is a subsequence of the sorted working list
   * with one proxy per network, every network of the working proxies still
   * represented, by the first (lowest-ping) proxy of that network.
   */
  lemma RankedWithNetmask(probed: seq<ProxyRecord>, m: nat)
    requires m <= 32
    ensures var sorted := SortByPing(Working(probed));
      var ranked := Ranked(probed, Some(m));
      && ranked == Select(sorted, FirstOfNetwork(sorted, m))
      && IsSubsequence(ranked, sorted)
      && DistinctNetworks(ranked, m)
      && Networks(ranked, m) == Networks(Working(probed), m)
  {
    var sorted := SortByPing(Working(probed));
    DedupElements(sorted, m);
    DedupKeepsFirstOccurrences(sorted, m);
    SortNetworks(Working(probed), m);
  }

  lemma SortNetworks(s: seq<ProxyRecord>, m: nat)
    requires m <= 32
    ensures Networks(SortByPing(s), m) == Networks(s, m)
  {
    var t := SortByPing(s);
    forall n ensures n in Networks(t, m) <==> n in Networks(s, m) {
      NetworksIff(t, m, n);
      NetworksIff(s, m, n);
      if n in Networks(t, m) {
        var i :| 0 <= i < |t| && NetOf(t[i], m) == n;
        assert t[i] in multiset(s);
        var j :| 0 <= j < |s| && s[j] == t[i];
      }
      if n in Networks(s, m) {
        var i :| 0 <= i < |s| && NetOf(s[i], m) == n;
        assert s[i] in multiset(t);
        var j :| 0 <= j < |t| && t[j] == s[i];
      }
    }
  }

  /** Ranking its own output again, with the same netmask, yields the same list. */
  lemma RankedIdempotent(probed: seq<ProxyRecord>, netmask: Option<nat>)
    requires netmask.Some? ==> netmask.value <= 32
    ensures Ranked(Ranked(probed, netmask), netmask) == Ranked(probed, netmask)
  {
    var ranked := Ranked(probed, netmask);
    RankedSortedWorking(probed, netmask);
    FilterAll(ranked, IsWorking);
    SortKeepsSorted(ranked);
    if netmask.Some? {
      RankedWithNetmask(probed, netmask.value);
      DedupOfDistinct(ranked, netmask.value);
    }
  }

  /** One turn of the dedup loop: visit `s[i]` after `s[..i]`. */
  lemma DedupStep(s: seq<ProxyRecord>, i: nat, m: nat)
    requires m <= 32 && i < |s|
    ensures Networks(s[..i + 1], m) == Networks(s[..i], m) + {NetOf(s[i], m)}
    ensures DedupByNetwork(s[..i + 1], m) ==
      if NetOf(s[i], m) in Networks(s[..i], m) then DedupByNetwork(s[..i], m)
      else DedupByNetwork(s[..i], m) + [s[i]]
  {
    assert s[..i + 1][..i] == s[..i];
  }

  /** The `if netmask is not None` block of `main`: keep the first proxy seen in each network. */
  method DedupBySubnet(results: seq<ProxyRecord>, m: nat) returns (deduped: seq<ProxyRecord>)
    requires m <= 32
    ensures deduped == DedupByNetwork(results, m)
  {
    var seen: set<nat> := {};
    deduped := [];
    for i := 0 to |results|
      invariant seen == Networks(results[..i], m)
      invariant deduped == DedupByNetwork(results[..i], m)
    {
      DedupStep(results, i, m);
      var subnet := Network(results[i].ip, m);
      if subnet !in seen {
        seen := seen + {subnet};
        deduped := deduped + [results[i]];
      }
    }
    assert results[..|results|] == results;
  }

  /**
   * `main` from the country filter to the final list: `env(i)` is what the
   * network does when the i-th proxy of the searched countries is tested.
   */
  method FindClosest(records: seq<ProxyRecord>, countries: Option<set<string>>, located: Option<string>,
              env: nat -> Trial, netmask: Option<nat>)
    returns (r: Result<seq<ProxyRecord>, ConfigError>)
    requires netmask.Some? ==> netmask.value <= 32
    ensures match ProbeAll(InCountries(records, SearchedCountries(countries, located)), env)
      case Failure(e) => r == Failure(e)
      case Success(probed) => r == Success(Ranked(probed, netmask))
  {
    var codes := SearchedCountries(countries, located);
    var data := InCountries(records, codes);
    var probed := ProbeAll(data, env);
    if probed.Failure? {
      return Failure(probed.error);
    }
    var results := SortByPing(Working(probed.value));
    if netmask.Some? {
      results := DedupBySubnet(results, netmask.value);
    }
    r := Success(results);
  }
}

