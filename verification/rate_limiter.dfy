/** The sliding-window rate limiter (shared/rate_limiter.py) against the full history of its admissions. */
module RateLimiting {
  /** Admissions in the half-open window (lo, hi]. */
  function InWindow(h: seq<real>, lo: real, hi: real): nat {
    if h == [] then 0 else (if lo < h[0] <= hi then 1 else 0) + InWindow(h[1..], lo, hi)
  }

  predicate Sorted(h: seq<real>) {
    forall i, j :: 0 <= i < j < |h| ==> h[i] <= h[j]
  }

  /** Any admission and the `n`-th one after it are at least a window apart. */
  ghost predicate Spaced(h: seq<real>, n: int, w: real) {
    if n <= 0 then h == [] else forall i, j :: 0 <= i && i + n == j && j < |h| ==> h[i] <= h[j] - w
  }

  function Ceil(x: real): int {
    -((-x).Floor)
  }

  /** The wait announced when `oldest` is the oldest admission still in the window. */
  function WaitFor(oldest: real, window: int, now: real): int {
    var c := Ceil(oldest + window as real - now);
    var m := if c < window then c else window;
    if m < 1 then 1 else m
  }

  /** Nothing in the window at most `lo`; everything later at most `hi`: then the window holds exactly the later
      part. */
  lemma {:induction false} CountsSuffix(h: seq<real>, n: nat, lo: real, hi: real)
    requires n <= |h|
    requires forall i :: 0 <= i < n ==> h[i] <= lo
    requires forall i :: n <= i < |h| ==> lo < h[i] <= hi
    ensures InWindow(h, lo, hi) == |h| - n
  {
    if h != [] {
      CountsSuffix(h[1..], if n > 0 then n - 1 else 0, lo, hi);
    }
  }

  lemma {:induction false} CountBound(h: seq<real>, lo: real, hi: real)
    ensures InWindow(h, lo, hi) <= |h|
  {
    if h != [] { CountBound(h[1..], lo, hi); }
  }

  lemma {:induction false} CountConcat(a: seq<real>, b: seq<real>, lo: real, hi: real)
    ensures InWindow(a + b, lo, hi) == InWindow(a, lo, hi) + InWindow(b, lo, hi)
  {
    if a == [] {
      assert a + b == b;
    } else {
      assert (a + b)[1..] == a[1..] + b;
      CountConcat(a[1..], b, lo, hi);
    }
  }

  lemma {:induction false} CountNone(h: seq<real>, lo: real, hi: real)
    requires forall i :: 0 <= i < |h| ==> !(lo < h[i] <= hi)
    ensures InWindow(h, lo, hi) == 0
  {
    if h != [] { CountNone(h[1..], lo, hi); }
  }

  /** No window of length `w`, wherever it lies, holds more than `n` admissions. */
  lemma {:induction false} NoWindowOverfull(h: seq<real>, n: int, w: real, lo: real, hi: real)
    requires Sorted(h) && Spaced(h, n, w) && hi - lo <= w
    ensures InWindow(h, lo, hi) <= if n < 0 then 0 else n
  {
    if h != [] {
      if lo < h[0] <= hi {
        if |h| > n {
          assert h == h[..n] + h[n..];
          CountConcat(h[..n], h[n..], lo, hi);
          assert h[0] <= h[n] - w;
          forall k | 0 <= k < |h[n..]| ensures h[n..][k] > hi || h[n..][k] <= lo {
            assert h[n..][k] == h[n + k] && (k == 0 || h[n] <= h[n + k]);
          }
          CountNone(h[n..], lo, hi);
          CountBound(h[..n], lo, hi);
        } else {
          CountBound(h, lo, hi);
        }
      } else {
        NoWindowOverfull(h[1..], n, w, lo, hi);
      }
    }
  }

  lemma CeilBounds(x: real)
    ensures Ceil(x) as real >= x > (Ceil(x) - 1) as real
  {}

  /** The wait is the least whole number of seconds that takes the oldest admission out of the window. */
  lemma WaitBounds(oldest: real, window: int, now: real)
    requires now - window as real < oldest <= now
    ensures var k := WaitFor(oldest, window, now);
            1 <= k <= window && oldest <= now + k as real - window as real
            && (k - 1) as real + now - window as real < oldest
  {
    CeilBounds(oldest + window as real - now);
    var k := WaitFor(oldest, window, now);
    assert k == Ceil(oldest + window as real - now);
  }

  /** Admissions in the window that ends at `now`. */
  function WindowAt(h: seq<real>, window: int, now: real): nat {
    InWindow(h, now - window as real, now)
  }

  /** The same, `seconds` later, if nothing is admitted meanwhile. */
  function WindowAfter(h: seq<real>, window: int, now: real, seconds: int): nat {
    WindowAt(h, window, now + seconds as real)
  }

  /** `k` is the least whole number of seconds after which a lone retry is admitted, and lies in [1, w]. */
  ghost predicate IsLeastWait(h: seq<real>, maxRequests: int, window: int, now: real, k: int) {
    && 1 <= k <= window
    && WindowAfter(h, window, now, k) < maxRequests
    && forall j: int :: 0 <= j < k ==> WindowAfter(h, window, now, j) >= maxRequests
  }

  /** After a denial at `now`, the announced wait lies in [1, w], and it is the least whole number of seconds after
      which a lone retry is admitted. `n` leading admissions have left the window. */
  lemma WaitIsLeast(h: seq<real>, n: nat, maxRequests: int, window: int, now: real)
    requires Sorted(h) && maxRequests >= 1 && n < |h|
    requires forall i :: 0 <= i < |h| ==> h[i] <= now
    requires forall i :: 0 <= i < n ==> h[i] <= now - window as real
    requires forall i :: n <= i < |h| ==> h[i] > now - window as real
    requires |h| - n == maxRequests
    ensures IsLeastWait(h, maxRequests, window, now, WaitFor(h[n], window, now))
  {
    var w := window as real;
    WaitBounds(h[n], window, now);
    var k := WaitFor(h[n], window, now);
    var later := now + k as real;
    assert h == h[..n + 1] + h[n + 1..];
    CountConcat(h[..n + 1], h[n + 1..], later - w, later);
    CountNone(h[..n + 1], later - w, later);
    CountBound(h[n + 1..], later - w, later);
    forall j: int | 0 <= j < k ensures WindowAfter(h, window, now, j) >= maxRequests {
      var t := now + j as real;
      assert j as real <= (k - 1) as real;
      assert h[n] > t - w;
      CountsSuffix(h, n, t - w, t);
    }
  }

  /** The deque is the end of the history; what it no longer holds has left the window for good. */
  ghost predicate Tracks(h: seq<real>, q: seq<real>, n: int, window: int, clock: real) {
    && Sorted(h) && Spaced(h, n, window as real)
    && (forall i :: 0 <= i < |h| ==> h[i] <= clock)
    && |q| <= |h| && (forall i :: 0 <= i < |q| ==> q[i] == h[|h| - |q| + i])
    && forall i :: 0 <= i < |h| - |q| ==> h[i] <= clock - window as real
  }

  predicate AllFresh(q: seq<real>, cutoff: real) {
    q == [] || q[0] > cutoff
  }

  lemma TrackCount(h: seq<real>, q: seq<real>, n: int, window: int, clock: real)
    requires Tracks(h, q, n, window, clock) && AllFresh(q, clock - window as real)
    ensures WindowAt(h, window, clock) == |q|
    ensures forall i :: |h| - |q| <= i < |h| ==> h[i] > clock - window as real
    ensures |q| <= if n < 0 then 0 else n
  {
    forall i | |h| - |q| <= i < |h| ensures h[i] > clock - window as real {
      assert q[0] == h[|h| - |q|];
    }
    CountsSuffix(h, |h| - |q|, clock - window as real, clock);
    NoWindowOverfull(h, n, window as real, clock - window as real, clock);
  }

  lemma TrackWait(h: seq<real>, q: seq<real>, maxRequests: int, window: int, now: real)
    requires Tracks(h, q, maxRequests, window, now) && q != [] && AllFresh(q, now - window as real)
    ensures WindowAt(h, window, now) > 0 && 1 <= WaitFor(q[0], window, now) <= window
    ensures WindowAt(h, window, now) >= maxRequests >= 1 ==>
      IsLeastWait(h, maxRequests, window, now, WaitFor(q[0], window, now))
  {
    TrackCount(h, q, maxRequests, window, now);
    assert q[0] == h[|h| - |q|];
    WaitBounds(q[0], window, now);
    if |q| >= maxRequests >= 1 { WaitIsLeast(h, |h| - |q|, maxRequests, window, now); }
  }

  // ----- a deque against its history -----

  lemma TrackLater(h: seq<real>, q: seq<real>, n: int, window: int, clock: real, later: real)
    requires Tracks(h, q, n, window, clock) && clock <= later
    ensures Tracks(h, q, n, window, later)
  {}

  lemma TrackPop(h: seq<real>, q: seq<real>, n: int, window: int, clock: real)
    requires Tracks(h, q, n, window, clock) && q != [] && q[0] <= clock - window as real
    ensures Tracks(h, q[1..], n, window, clock)
  {
    assert q[0] == h[|h| - |q|];
  }

  /** The newest entry is expired, so all are. */
  predicate Expired(q: seq<real>, cutoff: real) {
    q == [] || q[|q| - 1] <= cutoff
  }

  lemma TrackForget(h: seq<real>, q: seq<real>, n: int, window: int, clock: real)
    requires Tracks(h, q, n, window, clock)
    ensures Expired(q, clock - window as real) <==> WindowAt(h, window, clock) == 0
    ensures Expired(q, clock - window as real) ==> Tracks(h, [], n, window, clock)
  {
    var cutoff := clock - window as real;
    if Expired(q, cutoff) {
      forall i | 0 <= i < |h| ensures h[i] <= cutoff {
        if i >= |h| - |q| { assert h[|h| - 1] == q[|q| - 1] && (i == |h| - 1 || h[i] <= h[|h| - 1]); }
      }
      CountNone(h, cutoff, clock);
    } else {
      assert h == h[..|h| - 1] + [h[|h| - 1]];
      CountConcat(h[..|h| - 1], [h[|h| - 1]], cutoff, clock);
      assert h[|h| - 1] == q[|q| - 1];
    }
  }

  lemma TrackAdmit(h: seq<real>, q: seq<real>, n: int, window: int, clock: real)
    requires Tracks(h, q, n, window, clock) && AllFresh(q, clock - window as real) && |q| < n
    ensures Tracks(h + [clock], q + [clock], n, window, clock)
  {
    var g, p := h + [clock], q + [clock];
    forall i, j | 0 <= i < j < |g| ensures g[i] <= g[j] {
      if j < |h| { assert h[i] <= h[j]; }
    }
    forall i, j | 0 <= i && i + n == j && j < |g| ensures g[i] <= g[j] - window as real {
      if j < |h| { assert h[i] <= h[j] - window as real; } else { assert i < |h| - |q|; }
    }
    forall i | 0 <= i < |p| ensures p[i] == g[|g| - |p| + i] {
      if i < |q| { assert q[i] == h[|h| - |q| + i]; }
    }
  }

  lemma EndsWith(h: seq<real>, q: seq<real>)
    requires |q| <= |h| && forall i :: 0 <= i < |q| ==> q[i] == h[|h| - |q| + i]
    ensures h == h[..|h| - |q|] + q
  {}

  /** Counting the live part of a deque counts the window. */
  lemma TrackCountLive(h: seq<real>, q: seq<real>, n: int, window: int, clock: real, later: real)
    requires Tracks(h, q, n, window, clock) && clock <= later
    ensures WindowAt(h, window, later) == InWindow(q, later - window as real, later)
  {
    var gone := h[..|h| - |q|];
    EndsWith(h, q);
    CountConcat(gone, q, later - window as real, later);
    forall i | 0 <= i < |gone| ensures gone[i] <= later - window as real {
      assert gone[i] == h[i] && h[i] <= clock - window as real;
    }
    CountNone(gone, later - window as real, later);
  }

  function At(m: map<string, seq<real>>, ip: string): seq<real> {
    if ip in m then m[ip] else []
  }

  /** Every address is tracked. */
  ghost predicate AllTrack(history: map<string, seq<real>>, requests: map<string, seq<real>>, n: int, window: int,
                           clock: real) {
    forall ip {:trigger Tracks(At(history, ip), At(requests, ip), n, window, clock)} ::
      Tracks(At(history, ip), At(requests, ip), n, window, clock)
  }

  lemma AllLater(history: map<string, seq<real>>, requests: map<string, seq<real>>, n: int, window: int, clock: real,
                 later: real)
    requires AllTrack(history, requests, n, window, clock) && clock <= later
    ensures AllTrack(history, requests, n, window, later)
  {
    forall ip ensures Tracks(At(history, ip), At(requests, ip), n, window, later) {
      TrackLater(At(history, ip), At(requests, ip), n, window, clock, later);
    }
  }

  lemma AllSet(history: map<string, seq<real>>, requests: map<string, seq<real>>, n: int, window: int, clock: real,
               ip: string, h: seq<real>, q: seq<real>)
    requires AllTrack(history, requests, n, window, clock) && Tracks(h, q, n, window, clock)
    ensures AllTrack(history[ip := h], requests[ip := q], n, window, clock)
  {
    var history', requests' := history[ip := h], requests[ip := q];
    forall other ensures Tracks(At(history', other), At(requests', other), n, window, clock) {
      if other != ip { assert Tracks(At(history, other), At(requests, other), n, window, clock); }
    }
  }

  lemma AllDrop(history: map<string, seq<real>>, requests: map<string, seq<real>>, n: int, window: int, clock: real,
                ip: string, q: seq<real>)
    requires AllTrack(history, requests, n, window, clock) && Tracks(At(history, ip), q, n, window, clock)
    ensures AllTrack(history, requests[ip := q], n, window, clock)
  {
    var requests' := requests[ip := q];
    forall other ensures Tracks(At(history, other), At(requests', other), n, window, clock) {
      if other != ip { assert Tracks(At(history, other), At(requests, other), n, window, clock); }
    }
  }

  lemma AllSame(history: map<string, seq<real>>, history': map<string, seq<real>>, requests: map<string, seq<real>>,
                requests': map<string, seq<real>>, n: int, window: int, clock: real)
    requires AllTrack(history, requests, n, window, clock)
    requires forall ip :: At(history, ip) == At(history', ip) && At(requests, ip) == At(requests', ip)
    ensures AllTrack(history', requests', n, window, clock)
  {
    forall ip ensures Tracks(At(history', ip), At(requests', ip), n, window, clock) {
      assert Tracks(At(history, ip), At(requests, ip), n, window, clock);
    }
  }

  /** The address has nothing in the window. */
  predicate Idle(history: map<string, seq<real>>, ip: string, window: int, now: real) {
    WindowAt(At(history, ip), window, now) == 0
  }

  /** Forgetting expired deques loses nothing. */
  lemma AllForget(history: map<string, seq<real>>, requests: map<string, seq<real>>, n: int, window: int, clock: real,
                  gone: seq<string>, left: map<string, seq<real>>)
    requires AllTrack(history, requests, n, window, clock)
    requires forall ip :: ip in gone ==> ip in requests && Expired(requests[ip], clock - window as real)
    requires left == map ip | ip in requests && ip !in gone :: requests[ip]
    ensures AllTrack(history, left, n, window, clock)
    ensures forall ip :: ip in requests ==>
      (Expired(requests[ip], clock - window as real) <==> Idle(history, ip, window, clock))
  {
    forall ip ensures Tracks(At(history, ip), At(left, ip), n, window, clock) {
      assert Tracks(At(history, ip), At(requests, ip), n, window, clock);
      TrackForget(At(history, ip), At(requests, ip), n, window, clock);
    }
    forall ip | ip in requests ensures Expired(requests[ip], clock - window as real)
        <==> Idle(history, ip, window, clock) {
      assert Tracks(At(history, ip), At(requests, ip), n, window, clock);
      TrackForget(At(history, ip), requests[ip], n, window, clock);
    }
  }

  /** popleft while the front has left the window */
  method DropExpired(ghost history: map<string, seq<real>>, requests: map<string, seq<real>>, ip: string, ghost n: int,
                     window: int, now: real)
    returns (q: seq<real>)
    requires AllTrack(history, requests, n, window, now) && ip in requests
    ensures AllTrack(history, requests[ip := q], n, window, now) && AllFresh(q, now - window as real)
  {
    var cutoff := now - window as real;
    q := requests[ip];
    ghost var h := At(history, ip);
    assert Tracks(h, At(requests, ip), n, window, now);
    while q != [] && q[0] <= cutoff
      invariant Tracks(h, q, n, window, now)
      decreases |q|
    {
      TrackPop(h, q, n, window, now);
      q := q[1..];
    }
    AllDrop(history, requests, n, window, now, ip, q);
  }

  /** sum(1 for ts in q if ts > cutoff) */
  method CountLive(q: seq<real>, cutoff: real, ghost now: real) returns (valid: nat)
    requires forall i :: 0 <= i < |q| ==> q[i] <= now
    ensures valid == InWindow(q, cutoff, now)
  {
    valid := 0;
    for i := 0 to |q|
      invariant valid == InWindow(q[..i], cutoff, now)
    {
      assert q[..i + 1] == q[..i] + [q[i]];
      CountConcat(q[..i], [q[i]], cutoff, now);
      if q[i] > cutoff {
        valid := valid + 1;
      }
    }
    assert q[..|q|] == q;
  }

  /** The live part of an address's deque is what its history has in the window. */
  ghost predicate LiveIsWindow(h: seq<real>, q: seq<real>, window: int, now: real) {
    && InWindow(q, now - window as real, now) == WindowAt(h, window, now)
    && forall i :: 0 <= i < |q| ==> q[i] <= now
  }

  lemma TrackLive(h: seq<real>, q: seq<real>, n: int, window: int, now: real)
    requires Tracks(h, q, n, window, now)
    ensures LiveIsWindow(h, q, window, now)
  {
    TrackCountLive(h, q, n, window, now, now);
  }

  ghost predicate AllLive(history: map<string, seq<real>>, requests: map<string, seq<real>>, window: int, now: real) {
    forall ip :: ip in requests ==> LiveIsWindow(At(history, ip), requests[ip], window, now)
  }

  lemma AllTrackLive(history: map<string, seq<real>>, requests: map<string, seq<real>>, n: int, window: int, now: real)
    requires AllTrack(history, requests, n, window, now)
    ensures AllLive(history, requests, window, now)
  {
    forall ip | ip in requests ensures LiveIsWindow(At(history, ip), requests[ip], window, now) {
      assert Tracks(At(history, ip), At(requests, ip), n, window, now);
      TrackLive(At(history, ip), requests[ip], n, window, now);
    }
  }

  method CountAt(ghost h: seq<real>, q: seq<real>, window: int, now: real) returns (valid: nat)
    requires LiveIsWindow(h, q, window, now)
    ensures valid == WindowAt(h, window, now)
  {
    valid := CountLive(q, now - window as real, now);
  }

  function ActiveAmong(history: map<string, seq<real>>, ips: seq<string>, window: int, now: real): set<string> {
    set ip | ip in ips && !Idle(history, ip, window, now)
  }

  function TotalLive(history: map<string, seq<real>>, ips: seq<string>, window: int, now: real): nat {
    if ips == [] then 0
    else TotalLive(history, ips[..|ips| - 1], window, now) + WindowAt(At(history, ips[|ips| - 1]), window, now)
  }

  /** The counts over the first `i` addresses. */
  ghost function StatsOf(history: map<string, seq<real>>, order: seq<string>, i: nat, window: int, now: real)
    : (nat, nat)
    requires i <= |order|
  {
    (|ActiveAmong(history, order[..i], window, now)|, TotalLive(history, order[..i], window, now))
  }

  lemma StatsStart(history: map<string, seq<real>>, order: seq<string>, window: int, now: real)
    ensures StatsOf(history, order, 0, window, now) == (0, 0)
  {
    assert ActiveAmong(history, [], window, now) == {};
    assert order[..0] == [];
  }

  /** Every key once. */
  predicate Lists(order: seq<string>, keys: set<string>) {
    && (forall i :: 0 <= i < |order| ==> order[i] in keys)
    && (forall k :: k in keys ==> k in order)
    && forall i, j :: 0 <= i < j < |order| ==> order[i] != order[j]
  }

  lemma ActiveNext(history: map<string, seq<real>>, ips: seq<string>, ip: string, window: int, now: real)
    requires ip !in ips
    ensures |ActiveAmong(history, ips + [ip], window, now)|
         == |ActiveAmong(history, ips, window, now)| + if Idle(history, ip, window, now) then 0 else 1
    ensures TotalLive(history, ips + [ip], window, now)
         == TotalLive(history, ips, window, now) + WindowAt(At(history, ip), window, now)
  {
    var a := ActiveAmong(history, ips, window, now);
    assert ActiveAmong(history, ips + [ip], window, now) == a + if Idle(history, ip, window, now) then {} else {ip};
    assert (ips + [ip])[..|ips|] == ips;
  }

  lemma StatsNext(history: map<string, seq<real>>, order: seq<string>, keys: set<string>, i: nat, window: int,
                  now: real)
    requires Lists(order, keys) && i < |order|
    ensures var valid := WindowAt(At(history, order[i]), window, now);
      StatsOf(history, order, i + 1, window, now)
      == (StatsOf(history, order, i, window, now).0 + (if valid > 0 then 1 else 0),
          StatsOf(history, order, i, window, now).1 + valid)
  {
    assert order[..i + 1] == order[..i] + [order[i]];
    forall k | 0 <= k < i ensures order[..i][k] != order[i] { assert order[k] != order[i]; }
    ActiveNext(history, order[..i], order[i], window, now);
  }

  method CountStats(ghost history: map<string, seq<real>>, requests: map<string, seq<real>>, order: seq<string>,
                    window: int, now: real)
    returns (active: nat, total: nat)
    requires AllLive(history, requests, window, now) && Lists(order, requests.Keys)
    ensures (active, total) == StatsOf(history, order, |order|, window, now)
  {
    active, total := 0, 0;
    StatsStart(history, order, window, now);
    for i := 0 to |order|
      invariant (active, total) == StatsOf(history, order, i, window, now)
    {
      var ip := order[i];
      var valid := CountAt(At(history, ip), requests[ip], window, now);
      StatsNext(history, order, requests.Keys, i, window, now);
      if valid > 0 {
        active := active + 1;
        total := total + valid;
      }
    }
  }

  /** The bounded scan of cleanup. */
  method FindExpired(requests: map<string, seq<real>>, order: seq<string>, maxIps: int, cutoff: real)
    returns (expired: seq<string>)
    requires Lists(order, requests.Keys)
    ensures forall k :: 0 <= k < |order| ==>
      (order[k] in expired <==> k < maxIps && Expired(requests[order[k]], cutoff))
    ensures forall ip :: ip in expired ==> ip in order && Expired(requests[ip], cutoff)
  {
    expired := [];
    var i := 0;
    while i < |order| && i < maxIps
      invariant 0 <= i <= |order| && (i <= maxIps || i == 0)
      invariant forall k :: 0 <= k < |order| ==> (order[k] in expired <==> k < i && Expired(requests[order[k]], cutoff))
      invariant forall ip :: ip in expired ==> ip in order && Expired(requests[ip], cutoff)
    {
      var q := requests[order[i]];
      if q == [] || q[|q| - 1] <= cutoff {
        expired := expired + [order[i]];
      }
      i := i + 1;
    }
  }

  function Without(s: seq<string>, out: seq<string>): (r: seq<string>)
    ensures forall x :: x in r <==> x in s && x !in out
    ensures (forall i, j :: 0 <= i < j < |s| ==> s[i] != s[j]) ==> forall i, j :: 0 <= i < j < |r| ==> r[i] != r[j]
  {
    if s == [] then []
    else
      assert s == [s[0]] + s[1..];
      (if s[0] in out then [] else [s[0]]) + Without(s[1..], out)
  }

  lemma ListsWithout(order: seq<string>, keys: set<string>, gone: seq<string>, left: set<string>)
    requires Lists(order, keys) && forall k :: k in left <==> k in keys && k !in gone
    ensures Lists(Without(order, gone), left)
  {
    var r := Without(order, gone);
    forall i | 0 <= i < |r| ensures r[i] in left { assert r[i] in r; }
  }

  lemma OldestGone(history: map<string, seq<real>>, requests: map<string, seq<real>>, order: seq<string>, maxIps: int,
                   window: int, now: real, expired: seq<string>, left: map<string, seq<real>>)
    requires Lists(order, requests.Keys)
    requires forall k :: 0 <= k < |order| ==>
      (order[k] in expired <==> k < maxIps && Expired(requests[order[k]], now - window as real))
    requires forall ip :: ip in requests ==>
      (Expired(requests[ip], now - window as real) <==> Idle(history, ip, window, now))
    requires forall ip :: ip in left <==> ip in requests && ip !in expired
    ensures forall i :: 0 <= i < |order| ==> (order[i] !in left <==> i < maxIps && Idle(history, order[i], window, now))
  {}

  /** Scans, then deletes: what is left, and what of the first `maxIps` addresses is gone. */
  method Sweep(ghost history: map<string, seq<real>>, requests: map<string, seq<real>>, order: seq<string>, maxIps: int,
               ghost n: int, window: int, now: real)
    returns (left: map<string, seq<real>>, expired: seq<string>)
    requires AllTrack(history, requests, n, window, now)
    requires Lists(order, requests.Keys)
    ensures Lists(Without(order, expired), left.Keys)
    ensures AllTrack(history, left, n, window, now)
    ensures left == map ip | ip in requests && ip !in expired :: requests[ip]
    ensures forall i :: 0 <= i < |order| ==> (order[i] !in left <==> i < maxIps && Idle(history, order[i], window, now))
  {
    expired := FindExpired(requests, order, maxIps, now - window as real);
    left := map ip | ip in requests && ip !in expired :: requests[ip];
    AllForget(history, requests, n, window, now, expired, left);
    ListsWithout(order, requests.Keys, expired, left.Keys);
    OldestGone(history, requests, order, maxIps, window, now, expired, left);
  }

  function ActiveIps(history: map<string, seq<real>>, window: int, now: real): set<string> {
    set ip | ip in history && !Idle(history, ip, window, now)
  }

  lemma UnlistedAreIdle(history: map<string, seq<real>>, requests: map<string, seq<real>>, order: seq<string>,
                        n: int, window: int, now: real)
    requires AllTrack(history, requests, n, window, now) && Lists(order, requests.Keys)
    ensures forall ip :: ip !in order ==> Idle(history, ip, window, now)
    ensures ActiveAmong(history, order, window, now) == ActiveIps(history, window, now)
  {
    forall ip | ip !in order ensures Idle(history, ip, window, now) {
      assert Tracks(At(history, ip), At(requests, ip), n, window, now);
      TrackForget(At(history, ip), [], n, window, now);
    }
  }

  lemma FreshIsWindow(history: map<string, seq<real>>, requests: map<string, seq<real>>, n: int, window: int, now: real,
                      ip: string, q: seq<real>)
    requires AllTrack(history, requests, n, window, now) && ip in requests && requests[ip] == q
    requires AllFresh(q, now - window as real)
    ensures WindowAt(At(history, ip), window, now) == |q|
  {
    assert Tracks(At(history, ip), At(requests, ip), n, window, now);
    TrackCount(At(history, ip), q, n, window, now);
  }

  /** Admitting now, when the trimmed deque has room, keeps every address tracked. */
  lemma AllAdmit(history: map<string, seq<real>>, requests: map<string, seq<real>>, order: seq<string>,
                 n: int, window: int, now: real, ip: string, q: seq<real>)
    requires AllTrack(history, requests, n, window, now) && Lists(order, requests.Keys)
    requires ip in requests && requests[ip] == q && AllFresh(q, now - window as real) && |q| < n
    ensures AllTrack(history[ip := At(history, ip) + [now]], requests[ip := q + [now]], n, window, now)
    ensures Lists(order, requests[ip := q + [now]].Keys)
  {
    var h := At(history, ip);
    assert Tracks(h, At(requests, ip), n, window, now);
    TrackAdmit(h, q, n, window, now);
    AllSet(history, requests, n, window, now, ip, h + [now], q + [now]);
    assert requests[ip := q + [now]].Keys == requests.Keys;
  }

  class RateLimiter {
    const maxRequests: int
    const window: int
    var requests: map<string, seq<real>>   // a deque of admission times per address
    var order: seq<string>                 // the dictionary's iteration order
    ghost var history: map<string, seq<real>>
    ghost var clock: real

    ghost predicate Valid()
      reads this
    {
      && AllTrack(history, requests, maxRequests, window, clock)
      && Lists(order, requests.Keys)
    }

    constructor (maxRequests: int, window: int)
      ensures Valid() && this.maxRequests == maxRequests && this.window == window
      ensures history == map[] && clock == 0.0
    {
      this.maxRequests, this.window := maxRequests, window;
      requests, order, history, clock := map[], [], map[], 0.0;
    }

    /** Moves the clock on; reading the defaultdict creates the entry. */
    method Touch(ip: string, now: real)
      requires Valid() && now >= clock
      modifies this
      ensures Valid() && history == old(history) && clock == now && ip in requests
    {
      AllLater(history, requests, maxRequests, window, clock, now);
      clock := now;
      if ip !in requests {
        AllSame(history, history, requests, requests[ip := []], maxRequests, window, clock);
        requests := requests[ip := []];
        order := order + [ip];
      }
    }

    /** Drops what has left the window from the front of the deque. */
    method Expire(ip: string, now: real) returns (q: seq<real>)
      requires Valid() && now >= clock
      modifies this
      ensures Valid() && history == old(history) && clock == now
      ensures ip in requests && requests[ip] == q && AllFresh(q, now - window as real)
    {
      Touch(ip, now);
      q := DropExpired(history, requests, ip, maxRequests, window, now);
      assert requests[ip := q].Keys == requests.Keys;
      requests := requests[ip := q];
    }

    /** Admits exactly when the window (now - w, now] of the full admission history has room, and records only then. */
    method IsAllowed(ip: string, now: real) returns (allowed: bool)
      requires Valid() && now >= clock
      modifies this
      ensures Valid() && clock == now
      ensures allowed <==> WindowAt(At(old(history), ip), window, now) < maxRequests
      ensures history == if allowed then old(history)[ip := At(old(history), ip) + [now]] else old(history)
    {
      var q := Expire(ip, now);
      FreshIsWindow(history, requests, maxRequests, window, now, ip, q);
      allowed := |q| < maxRequests;
      if allowed {
        AllAdmit(history, requests, order, maxRequests, window, now, ip, q);
        requests := requests[ip := q + [now]];
        history := history[ip := At(history, ip) + [now]];
      }
    }

    method Remaining(ip: string, now: real) returns (n: nat)
      requires Valid() && now >= clock
      modifies this
      ensures Valid() && history == old(history) && clock == now
      ensures n == var used := WindowAt(At(history, ip), window, now);
                   if used < maxRequests then maxRequests - used else 0
    {
      Touch(ip, now);
      assert Tracks(At(history, ip), At(requests, ip), maxRequests, window, now);
      TrackLive(At(history, ip), requests[ip], maxRequests, window, now);
      var valid := CountAt(At(history, ip), requests[ip], window, now);
      n := if valid < maxRequests then maxRequests - valid else 0;
    }

    /** 0 when the window is empty. When a request would be denied now, and the limit is positive, the least wait
        after which a lone retry is admitted. */
    method RetryAfter(ip: string, now: real) returns (wait: int)
      requires Valid() && now >= clock
      modifies this
      ensures Valid() && history == old(history) && clock == now
      ensures WindowAt(At(history, ip), window, now) == 0 ==> wait == 0
      ensures WindowAt(At(history, ip), window, now) > 0 ==> 1 <= wait <= window
      ensures WindowAt(At(history, ip), window, now) >= maxRequests >= 1 ==>
        IsLeastWait(At(history, ip), maxRequests, window, now, wait)
      ensures WindowAt(At(history, ip), window, now) >= maxRequests ==> (wait >= 1 <==> maxRequests >= 1)
    {
      var q := Expire(ip, now);
      ghost var h := At(history, ip);
      assert Tracks(h, At(requests, ip), maxRequests, window, now);
      if q == [] {
        TrackCount(h, q, maxRequests, window, now);
        return 0;
      }
      wait := WaitFor(q[0], window, now);
      TrackWait(h, q, maxRequests, window, now);
    }

    /** Forgets, among the first `maxIps` addresses, those with nothing in the window. The history, and with it every
        later decision, is as before. */
    method Cleanup(maxIps: int, now: real) returns (removed: nat)
      requires Valid() && now >= clock
      modifies this
      ensures Valid() && history == old(history) && clock == now
      ensures forall i :: 0 <= i < |old(order)| ==>
        (old(order)[i] !in requests <==> i < maxIps && Idle(history, old(order)[i], window, now))
      ensures forall ip :: ip in requests ==> ip in old(requests) && requests[ip] == old(requests)[ip]
    {
      AllLater(history, requests, maxRequests, window, clock, now);
      clock := now;
      var left, expired := Sweep(history, requests, order, maxIps, maxRequests, window, now);
      removed := |expired|;
      requests := left;
      order := Without(order, expired);
    }

    /** How many addresses have something in the window, and how much in all; whoever is not listed has nothing. */
    method GetStats(now: real) returns (active: nat, total: nat)
      requires Valid() && now >= clock
      ensures active == |ActiveIps(history, window, now)|
      ensures total == TotalLive(history, order, window, now)
      ensures forall ip :: ip !in order ==> Idle(history, ip, window, now)
    {
      AllLater(history, requests, maxRequests, window, clock, now);
      AllTrackLive(history, requests, maxRequests, window, now);
      active, total := CountStats(history, requests, order, window, now);
      assert order[..|order|] == order;
      UnlistedAreIdle(history, requests, order, maxRequests, window, now);
    }

    /** No window of the configured length, at any time, ever admitted more than the maximum. */
    lemma NeverOverLimit(ip: string, at: real)
      requires Valid()
      ensures WindowAt(At(history, ip), window, at) <= if maxRequests < 0 then 0 else maxRequests
    {
      assert Tracks(At(history, ip), At(requests, ip), maxRequests, window, clock);
      NoWindowOverfull(At(history, ip), maxRequests, window as real, at - window as real, at);
    }
  }
}
