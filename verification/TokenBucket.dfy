/** The rate limiter of internal/middleware/ratelimit.go: token buckets, one per client
    and tier.  Requests are single steps here and nothing is swept; IdleSweep takes lookup,
    call, idle check and deletion apart.  Times are seconds and levels are reals; the limiter
    reads the clock under the bucket's lock, so time never goes back.
  */
module TokenBucket {
  datatype Bucket = Bucket(tokens: real, max: real, rate: real, last: real)

  datatype Budget = Budget(rps: real, burst: int)

  datatype Answer = Answer(allowed: bool, remaining: real, retryAfter: real)

  datatype Tier = Tier(prefix: string, rps: real, burst: int)

  datatype Limits = Limits(api: Budget, auth: Budget)

  const IDLE_LIMIT: real := 600.0

  // ---------------------------------------------------------------------- one bucket

  // Tokens gained over a stretch of time.
  function Accrued(elapsed: real, rate: real): real {
    elapsed * rate
  }

  function Level(b: Bucket, now: real): real {
    var full := b.tokens + Accrued(now - b.last, b.rate);
    if full > b.max then b.max else full
  }

  predicate Sound(b: Bucket, now: real) {
    0.0 <= b.tokens <= b.max && 0.0 <= b.rate && b.last <= now
  }

  // The bucket after a call, and what the call is told.
  function Taken(b: Bucket, now: real): Bucket {
    b.(tokens := if Level(b, now) >= 1.0 then Level(b, now) - 1.0 else Level(b, now), last := now)
  }

  function Told(b: Bucket, now: real): Answer {
    Answer(Level(b, now) >= 1.0, Taken(b, now).tokens,
           if Level(b, now) < 1.0 && b.rate > 0.0 then (1.0 - Level(b, now)) / b.rate else 0.0)
  }

  /** The level grows with the time since the last call up to the burst; a call takes one token
      of it if there is one, and is told what is left and how long to wait. */
  lemma CallExactly(b: Bucket, now: real)
    ensures var full := b.tokens + (now - b.last) * b.rate;
            var level := if full > b.max then b.max else full;
            && (Told(b, now).allowed <==> level >= 1.0)
            && Taken(b, now) == Bucket(if level >= 1.0 then level - 1.0 else level, b.max, b.rate, now)
            && Told(b, now).remaining == Taken(b, now).tokens
            && (b.rate > 0.0 ==> Told(b, now).retryAfter * b.rate == if level >= 1.0 then 0.0 else 1.0 - level)
            && (b.rate <= 0.0 ==> Told(b, now).retryAfter == 0.0)
  {
  }

  lemma Scale(r: real, a: real, b: real)
    ensures r * (a + b) == r * a + r * b
    ensures 0.0 <= r && 0.0 <= a ==> 0.0 <= r * a
    ensures 0.0 <= r && a <= b ==> r * a <= r * b
  {
    if 0.0 <= r && a <= b {
      assert 0.0 <= r * (b - a);
      assert r * b == r * a + r * (b - a);
    }
  }

  /** Tokens stay between zero and the burst. */
  lemma CallKeepsSound(b: Bucket, now: real)
    requires Sound(b, now)
    ensures Sound(Taken(b, now), now) && 0.0 <= Level(b, now) <= b.max
  {
    Scale(b.rate, now - b.last, 0.0);
  }

  lemma AccruedAdds(x: real, y: real, rate: real)
    ensures Accrued(x + y, rate) == Accrued(x, rate) + Accrued(y, rate)
    ensures 0.0 <= rate && 0.0 <= y ==> 0.0 <= Accrued(y, rate)
    ensures Accrued(0.0, rate) == 0.0
  {
    Scale(rate, x, y);
  }

  // Level grows by at most the refill of the time that passes.
  lemma LevelGrows(b: Bucket, now: real, later: real)
    requires Sound(b, now) && now <= later
    ensures Level(b, now) <= Level(b, later) <= Level(b, now) + Accrued(later - now, b.rate)
  {
    AccruedAdds(now - b.last, later - now, b.rate);
    assert (now - b.last) + (later - now) == later - b.last;
    hide Accrued;
  }

  /** Retry-After is exact: with no call in between, the denied caller is allowed after
      waiting retryAfter and not sooner; if the bucket cannot hold a token, or never
      refills, no wait helps. */
  lemma RetryAfterIsExact(b: Bucket, now: real, wait: real)
    requires Sound(b, now) && !Told(b, now).allowed && 0.0 <= wait
    ensures Told(Taken(b, now), now + wait).allowed <==> b.max >= 1.0 && b.rate > 0.0 && wait >= Told(b, now).retryAfter
  {
    CallKeepsSound(b, now);
    var b' := Taken(b, now);
    assert b'.tokens == Level(b, now) < 1.0 && (now + wait) - b'.last == wait;
    if b.rate > 0.0 {
      RefillTime(b'.tokens, b.rate, wait);
    } else {
      assert wait * b.rate == 0.0;
    }
  }

  lemma RefillTime(level: real, rate: real, wait: real)
    requires rate > 0.0
    ensures level + wait * rate >= 1.0 <==> wait >= (1.0 - level) / rate
  {
    var retry := (1.0 - level) / rate;
    assert retry * rate == 1.0 - level;
    Scale(rate, retry, wait);
    if wait < retry {
      assert (retry - wait) * rate > 0.0;
      assert wait * rate == retry * rate - (retry - wait) * rate;
    }
  }

  function Ceiling(x: real): int {
    -(-x).Floor
  }

  // The header carries whole seconds, at least one.
  function RetrySeconds(retryAfter: real): int {
    if Ceiling(retryAfter) < 1 then 1 else Ceiling(retryAfter)
  }

  /** The header's whole seconds always suffice, and no smaller positive whole number does. */
  lemma RetryHeaderSuffices(b: Bucket, now: real, secs: nat)
    requires Sound(b, now) && !Told(b, now).allowed && b.max >= 1.0 && b.rate > 0.0
    ensures Told(Taken(b, now), now + RetrySeconds(Told(b, now).retryAfter) as real).allowed
    ensures 1 <= secs < RetrySeconds(Told(b, now).retryAfter) ==> !Told(Taken(b, now), now + secs as real).allowed
  {
    var retry := Told(b, now).retryAfter;
    RetryAfterIsExact(b, now, RetrySeconds(retry) as real);
    RetryAfterIsExact(b, now, secs as real);
    hide Level, Taken, Told;
    assert (-retry).Floor as real <= -retry < (-retry).Floor as real + 1.0;
  }

  // --------------------------------------------------------------------------- tiers

  function PerMinute(n: int): Budget {
    Budget(n as real / 60.0, n)
  }

  function Max(a: int, b: int): int {
    if a < b then b else a
  }

  // Go's integer division, which truncates.
  function Quo(a: int, b: int): int
    requires b > 0
  {
    if a >= 0 then a / b else -((-a) / b)
  }

  function TierOf(l: Limits, path: string): Tier {
    if "/api/v1/auth" <= path || "/api/v1/oauth" <= path then
      if l.auth.rps > 0.0 && l.auth.burst > 0 then Tier("auth:", l.auth.rps, l.auth.burst)
      else Tier("auth:", l.api.rps / 6.0, Max(1, Quo(l.api.burst, 6)))
    else if "/api/v1/search" <= path then Tier("expensive:", l.api.rps / 3.0, Max(1, Quo(l.api.burst, 3)))
    else if "/api/v1/dashboard" <= path then Tier("dashboard:", l.api.rps, l.api.burst)
    else Tier("api:", l.api.rps, l.api.burst)
  }

  function Key(l: Limits, path: string, ip: string): string {
    TierOf(l, path).prefix + ip
  }

  /** A key names one tier and one client, so a bucket is only ever asked under the budget
      it was made with. */
  lemma KeyNamesTier(l: Limits, path: string, ip: string, path': string, ip': string)
    ensures Key(l, path, ip) == Key(l, path', ip') <==> TierOf(l, path) == TierOf(l, path') && ip == ip'
  {
    if Key(l, path, ip) == Key(l, path', ip') {
      var p, p' := TierOf(l, path).prefix, TierOf(l, path').prefix;
      assert (p + ip)[0] == p[0] && (p' + ip')[0] == p'[0] && (p + ip)[1] == p[1] && (p' + ip')[1] == p'[1];
      assert p == p';
      assert (p + ip)[|p|..] == ip && (p' + ip')[|p'|..] == ip';
    }
  }

  // The paths of the login budget, whatever follows.
  ghost predicate LoginPath(path: string) {
    exists rest :: path == "/api/v1/auth" + rest || path == "/api/v1/oauth" + rest
  }

  ghost predicate SearchPath(path: string) {
    exists rest :: path == "/api/v1/search" + rest
  }

  ghost predicate DashboardPath(path: string) {
    exists rest :: path == "/api/v1/dashboard" + rest
  }

  lemma StartsWith(prefix: string, path: string)
    ensures prefix <= path <==> exists rest :: path == prefix + rest
  {
    if prefix <= path {
      assert path == prefix + path[|prefix|..];
    }
  }

  lemma PathsApart(path: string)
    ensures LoginPath(path) <==> "/api/v1/auth" <= path || "/api/v1/oauth" <= path
    ensures SearchPath(path) <==> "/api/v1/search" <= path
    ensures DashboardPath(path) <==> "/api/v1/dashboard" <= path
    ensures !(LoginPath(path) && SearchPath(path)) && !(LoginPath(path) && DashboardPath(path))
    ensures !(SearchPath(path) && DashboardPath(path))
  {
    StartsWith("/api/v1/auth", path);
    StartsWith("/api/v1/oauth", path);
    StartsWith("/api/v1/search", path);
    StartsWith("/api/v1/dashboard", path);
    assert "/api/v1/auth" <= path ==> path[8] == "/api/v1/auth"[8] == 'a';
    assert "/api/v1/oauth" <= path ==> path[8] == "/api/v1/oauth"[8] == 'o';
    assert "/api/v1/search" <= path ==> path[8] == "/api/v1/search"[8] == 's';
    assert "/api/v1/dashboard" <= path ==> path[8] == "/api/v1/dashboard"[8] == 'd';
  }

  /** The budgets as figures of the configuration: logins get the configured login budget, or
      without one a sixth of the general one; searches a third; the dashboard and everything
      else the general one.  A division never leaves less than one request of burst. */
  lemma BudgetOfPath(l: Limits, path: string)
    ensures var t := TierOf(l, path);
            && t.prefix == (if LoginPath(path) then "auth:" else if SearchPath(path) then "expensive:"
                            else if DashboardPath(path) then "dashboard:" else "api:")
            && (LoginPath(path) && l.auth.rps > 0.0 && l.auth.burst > 0 ==>
                  t.rps == l.auth.rps && t.burst == l.auth.burst)
            && (LoginPath(path) && !(l.auth.rps > 0.0 && l.auth.burst > 0) ==>
                  6.0 * t.rps == l.api.rps && Share(l.api.burst, 6, t.burst))
            && (SearchPath(path) ==> 3.0 * t.rps == l.api.rps && Share(l.api.burst, 3, t.burst))
            && (!LoginPath(path) && !SearchPath(path) ==> t.rps == l.api.rps && t.burst == l.api.burst)
  {
    PathsApart(path);
    hide LoginPath, SearchPath, DashboardPath;
  }

  // The n-th part of a burst, rounded down, but at least one.
  predicate Share(burst: int, n: int, part: int) {
    part >= 1 && if burst >= n then n * part <= burst < n * part + n else part == 1
  }

  /** Two requests draw on one bucket exactly when they come from one client and are both
      logins, both searches, both for the dashboard, or none of these. */
  lemma OneBucketExactly(l: Limits, path: string, ip: string, path': string, ip': string)
    ensures Key(l, path, ip) == Key(l, path', ip') <==>
              && ip == ip' && (LoginPath(path) <==> LoginPath(path')) && (SearchPath(path) <==> SearchPath(path'))
              && (DashboardPath(path) <==> DashboardPath(path'))
  {
    KeyNamesTier(l, path, ip, path', ip');
    PathsApart(path);
    PathsApart(path');
    hide LoginPath, SearchPath, DashboardPath, Key;
    assert "auth:"[0] == 'a' && "api:"[0] == 'a' && "auth:"[1] == 'u' && "api:"[1] == 'p';
    assert "expensive:"[0] == 'e' && "dashboard:"[0] == 'd';
  }

  // The idle limit is long enough to fill the tier's bucket.
  predicate Covers(t: Tier) {
    IDLE_LIMIT * t.rps >= t.burst as real
  }

  predicate Sane(l: Limits) {
    l.api.rps >= 0.0 && l.api.burst >= 0
  }

  lemma TierIsSane(l: Limits, path: string)
    requires Sane(l)
    ensures TierOf(l, path).rps >= 0.0 && TierOf(l, path).burst >= 0
  {
  }

  /** Every tier of a limiter built from requests-per-minute figures refills within the
      idle limit, fall-back budgets included. */
  lemma PerMinuteCovers(n: int, k: int, path: string)
    requires n >= 1
    ensures Sane(Limits(PerMinute(n), PerMinute(k)))
    ensures Covers(TierOf(Limits(PerMinute(n), PerMinute(k)), path))
  {
    assert n / 6 <= n && n / 3 <= n;
    var rps := n as real / 60.0;
    assert IDLE_LIMIT * rps == 10.0 * n as real;
    assert IDLE_LIMIT * (rps / 6.0) == (10.0 * n as real) / 6.0;
    assert IDLE_LIMIT * (rps / 3.0) == (10.0 * n as real) / 3.0;
    assert 6 * (n / 6) <= n && 3 * (n / 3) <= n;
  }

  // -------------------------------------------------------------- the limiter, by value

  type Buckets = map<string, Bucket>

  datatype Event = Request(path: string, ip: string, now: real)

  function NewBucket(t: Tier, now: real): Bucket {
    Bucket(t.burst as real, t.burst as real, t.rps, now)
  }

  function Find(l: Limits, m: Buckets, path: string, ip: string, now: real): Bucket {
    if Key(l, path, ip) in m then m[Key(l, path, ip)] else NewBucket(TierOf(l, path), now)
  }

  function After(l: Limits, m: Buckets, e: Event): Buckets {
    m[Key(l, e.path, e.ip) := Taken(Find(l, m, e.path, e.ip, e.now), e.now)]
  }

  function Answers(l: Limits, m: Buckets, events: seq<Event>): seq<Answer>
    decreases |events|
  {
    if events == [] then []
    else
      var e := events[0];
      [Told(Find(l, m, e.path, e.ip, e.now), e.now)] + Answers(l, After(l, m, e), events[1..])
  }

  ghost predicate Ordered(events: seq<Event>, from: real) {
    events == [] || (from <= events[0].now && Ordered(events[1..], events[0].now))
  }

  // Each bucket is sound and has the budget of the tier its key names.
  ghost predicate Good(l: Limits, m: Buckets, now: real) {
    && (forall k :: k in m ==> Sound(m[k], now))
    && (forall path, ip :: Key(l, path, ip) in m ==>
          m[Key(l, path, ip)].max == TierOf(l, path).burst as real && m[Key(l, path, ip)].rate == TierOf(l, path).rps)
  }

  lemma FindIsSound(l: Limits, m: Buckets, path: string, ip: string, now: real, from: real)
    requires Sane(l) && Good(l, m, from) && from <= now
    ensures var b := Find(l, m, path, ip, now);
            Sound(b, now) && b.max == TierOf(l, path).burst as real && b.rate == TierOf(l, path).rps
  {
    TierIsSane(l, path);
    hide TierOf, Sane;
    if Key(l, path, ip) in m { assert Sound(m[Key(l, path, ip)], from); }
  }

  lemma EventKeepsGood(l: Limits, m: Buckets, e: Event, from: real)
    requires Sane(l) && Good(l, m, from) && from <= e.now
    ensures Good(l, After(l, m, e), e.now)
  {
    var Request(path, ip, now) := e;
    FindIsSound(l, m, path, ip, now, from);
    CallKeepsSound(Find(l, m, path, ip, now), now);
    var m' := After(l, m, e);
    forall path', ip' | Key(l, path', ip') in m'
      ensures var b, t := m'[Key(l, path', ip')], TierOf(l, path'); b.max == t.burst as real && b.rate == t.rps
    {
      KeyNamesTier(l, path, ip, path', ip');
      hide TierOf, Sane, Key, Find, Level;
    }
    hide TierOf, Sane, Find, Level;
  }

  // ----------------------------------------------------------------- the window bound

  // What a client could still be granted at once.
  function LevelOf(l: Limits, m: Buckets, path: string, ip: string, now: real): real {
    Level(Find(l, m, path, ip, now), now)
  }

  predicate IsFor(l: Limits, e: Event, path: string, ip: string) {
    Key(l, e.path, e.ip) == Key(l, path, ip)
  }

  // How many of the requests under this key are allowed.
  function Allowed(l: Limits, m: Buckets, events: seq<Event>, path: string, ip: string): nat
    decreases |events|
  {
    if events == [] then 0
    else
      Grant(l, m, events[0], path, ip) + Allowed(l, After(l, m, events[0]), events[1..], path, ip)
  }

  function Grant(l: Limits, m: Buckets, e: Event, path: string, ip: string): nat {
    if IsFor(l, e, path, ip) && Told(Find(l, m, e.path, e.ip, e.now), e.now).allowed then 1 else 0
  }

  // One event takes from a key's level what it grants, and gives at most the refill.
  lemma EventBalance(l: Limits, m: Buckets, e: Event, from: real, path: string, ip: string)
    requires Sane(l) && Good(l, m, from) && from <= e.now
    ensures LevelOf(l, After(l, m, e), path, ip, e.now) + Grant(l, m, e, path, ip) as real
            <= LevelOf(l, m, path, ip, from) + Refill(TierOf(l, path), from, e.now)
  {
    Grows(l, m, path, ip, from, e.now);
    hide Refill;
    if IsFor(l, e, path, ip) {
      Granted(l, m, e.path, e.ip, from, e.now, path, ip);
    } else {
      assert Find(l, After(l, m, e), path, ip, e.now) == Find(l, m, path, ip, e.now);
      hide Find;
    }
    hide TierOf, Good, Level, Told, Taken, Covers;
  }

  lemma Granted(l: Limits, m: Buckets, path': string, ip': string, from: real, now: real, path: string, ip: string)
    requires Sane(l) && Good(l, m, from) && from <= now && Key(l, path', ip') == Key(l, path, ip)
    ensures LevelOf(l, After(l, m, Request(path', ip', now)), path, ip, now)
            + (if Told(Find(l, m, path', ip', now), now).allowed then 1.0 else 0.0) == LevelOf(l, m, path, ip, now)
  {
    FindIsSound(l, m, path, ip, now, from);
    KeyNamesTier(l, path, ip, path', ip');
    hide TierOf, Good;
    AfterTaking(Find(l, m, path, ip, now), now);
    assert Find(l, m, path', ip', now) == Find(l, m, path, ip, now);
    assert Find(l, After(l, m, Request(path', ip', now)), path, ip, now) == Taken(Find(l, m, path, ip, now), now);
    hide Find;
  }

  lemma AfterTaking(b: Bucket, now: real)
    requires Sound(b, now)
    ensures Level(Taken(b, now), now) == Taken(b, now).tokens
  {
    CallKeepsSound(b, now);
  }

  lemma Grows(l: Limits, m: Buckets, path: string, ip: string, from: real, now: real)
    requires Sane(l) && Good(l, m, from) && from <= now
    ensures LevelOf(l, m, path, ip, now) <= LevelOf(l, m, path, ip, from) + Refill(TierOf(l, path), from, now)
  {
    FindIsSound(l, m, path, ip, from, from);
    TierIsSane(l, path);
    AccruedAdds(0.0, now - from, TierOf(l, path).rps);
    hide TierOf, Good, Accrued;
    if Key(l, path, ip) in m {
      LevelGrows(m[Key(l, path, ip)], from, now);
    }
  }

  /** A bucket idle for longer than the limit is full again, whatever it held, exactly
      when the limit covers its tier. */
  lemma FullAfterIdle(t: Tier)
    requires t.rps >= 0.0 && t.burst >= 0
    ensures Covers(t) <==>
            forall b: Bucket, now: real :: IsOf(t, b) && now - b.last > IDLE_LIMIT ==> Level(b, now) == t.burst as real
  {
    if Covers(t) {
      forall b: Bucket, now: real | IsOf(t, b) && now - b.last > IDLE_LIMIT ensures Level(b, now) == t.burst as real {
        FullOnceCovered(b, now);
        hide Level;
      }
    } else {
      var now := JustOver(t);
      var b := Bucket(0.0, t.burst as real, t.rps, 0.0);
      assert IsOf(t, b) && Level(b, now) != t.burst as real;
    }
  }

  lemma FullOnceCovered(b: Bucket, now: real)
    requires 0.0 <= b.tokens && 0.0 <= b.rate && IDLE_LIMIT * b.rate >= b.max && now - b.last > IDLE_LIMIT
    ensures Level(b, now) == b.max
  {
    AccruedCovers(now - b.last, b.rate, b.max);
    hide Accrued;
  }

  lemma AccruedCovers(elapsed: real, rate: real, max: real)
    requires 0.0 <= rate && IDLE_LIMIT * rate >= max && elapsed > IDLE_LIMIT
    ensures Accrued(elapsed, rate) >= max
  {
    Scale(rate, IDLE_LIMIT, elapsed);
  }

  predicate IsOf(t: Tier, b: Bucket) {
    b.max == t.burst as real && b.rate == t.rps && 0.0 <= b.tokens <= b.max
  }

  // A moment past the idle limit at which an empty bucket of the tier is not yet full.
  lemma JustOver(t: Tier) returns (now: real)
    requires t.rps >= 0.0 && !Covers(t)
    ensures now > IDLE_LIMIT && now * t.rps < t.burst as real
  {
    if t.rps == 0.0 {
      now := IDLE_LIMIT + 1.0;
      assert now * t.rps == 0.0;
    } else {
      var gap := t.burst as real - IDLE_LIMIT * t.rps;
      now := IDLE_LIMIT + gap / (2.0 * t.rps);
      var extra := gap / (2.0 * t.rps);
      assert extra * (2.0 * t.rps) == gap;
      assert extra * t.rps == gap / 2.0;
      assert now * t.rps == IDLE_LIMIT * t.rps + extra * t.rps;
      assert extra > 0.0;
    }
  }

  /** The window bound: over any stretch of any run without sweeps, with every other client's
      requests in between, one client of one tier is allowed at most what its bucket could hold
      plus the refill of the elapsed time. */
  lemma {:induction false} WindowBound(l: Limits, m: Buckets, events: seq<Event>, from: real, path: string, ip: string)
    requires Sane(l) && Good(l, m, from) && Ordered(events, from)
    ensures Allowed(l, m, events, path, ip) as real
            <= LevelOf(l, m, path, ip, from) + Refill(TierOf(l, path), from, EndOf(events, from))
    ensures LevelOf(l, m, path, ip, from) <= TierOf(l, path).burst as real
    decreases |events|
  {
    LevelIsBounded(l, m, path, ip, from);
    AddRefills(TierOf(l, path), from, from, from);
    hide TierOf, Good, LevelOf, Grant, Covers, After, Sane, Refill;
    if events != [] {
      var e := events[0];
      EventKeepsGood(l, m, e, from);
      EventBalance(l, m, e, from, path, ip);
      var m' := After(l, m, e);
      WindowBound(l, m', events[1..], e.now, path, ip);
      AddRefills(TierOf(l, path), from, e.now, EndOf(events[1..], e.now));
    }
  }

  ghost predicate AllAt(events: seq<Event>, now: real) {
    forall i :: 0 <= i < |events| ==> events[i].now == now
  }

  // Both logins, both searches, both for the dashboard, or neither any of these.
  ghost predicate Alike(path: string, path': string) {
    && (LoginPath(path) <==> LoginPath(path')) && (SearchPath(path) <==> SearchPath(path'))
    && (DashboardPath(path) <==> DashboardPath(path'))
  }

  // How many requests of this client and this kind there are, and how many are allowed.
  ghost function Asked(events: seq<Event>, path: string, ip: string): nat {
    if events == [] then 0
    else (if Alike(events[0].path, path) && events[0].ip == ip then 1 else 0) + Asked(events[1..], path, ip)
  }

  ghost function AllowedAlike(l: Limits, m: Buckets, events: seq<Event>, path: string, ip: string): nat
    decreases |events|
  {
    if events == [] then 0
    else
      var e, answers := events[0], Answers(l, m, events);
      (if Alike(e.path, path) && e.ip == ip && answers[0].allowed then 1 else 0)
          + AllowedAlike(l, After(l, m, e), events[1..], path, ip)
  }

  /** At one moment a client is allowed exactly as many requests of a kind as it asks for, up
      to the whole tokens it has; whoever else asks in between. */
  lemma {:induction false} AllowedAtOneMoment(l: Limits, m: Buckets, events: seq<Event>, now: real, path: string,
                                             ip: string)
    requires Sane(l) && Good(l, m, now) && AllAt(events, now)
    ensures var asked, tokens := Asked(events, path, ip), LevelOf(l, m, path, ip, now).Floor;
            AllowedAlike(l, m, events, path, ip) == if asked < tokens then asked else tokens
    decreases |events|
  {
    LevelIsBounded(l, m, path, ip, now);
    if events != [] {
      var e := events[0];
      assert AllAt(events[1..], now);
      EventKeepsGood(l, m, e, now);
      AllowedAtOneMoment(l, After(l, m, e), events[1..], now, path, ip);
      OneBucketExactly(l, e.path, e.ip, path, ip);
      if IsFor(l, e, path, ip) {
        Granted(l, m, e.path, e.ip, now, now, path, ip);
        SameFound(l, m, e, path, ip);
      } else {
        assert Find(l, After(l, m, e), path, ip, now) == Find(l, m, path, ip, now);
      }
      hide Find, After, Good, Told, Taken, Level, Key, TierOf, LoginPath, SearchPath, DashboardPath;
      assert Answers(l, m, events)[0] == Told(Find(l, m, e.path, e.ip, now), now);
    }
  }

  lemma SameFound(l: Limits, m: Buckets, e: Event, path: string, ip: string)
    requires IsFor(l, e, path, ip)
    ensures Told(Find(l, m, e.path, e.ip, e.now), e.now).allowed <==> LevelOf(l, m, path, ip, e.now) >= 1.0
  {
    KeyNamesTier(l, e.path, e.ip, path, ip);
    hide TierOf;
  }

  /** So a client not seen before is allowed exactly its budget's burst at one moment, in the
      configuration's own figures. */
  lemma NewClientGetsTheBurst(l: Limits, m: Buckets, events: seq<Event>, now: real, path: string, ip: string)
    requires Sane(l) && Good(l, m, now) && AllAt(events, now) && Key(l, path, ip) !in m
    ensures var asked, allowed := Asked(events, path, ip), AllowedAlike(l, m, events, path, ip);
            && (LoginPath(path) && l.auth.rps > 0.0 && l.auth.burst > 0 ==>
                  allowed == if asked < l.auth.burst then asked else l.auth.burst)
            && (LoginPath(path) && !(l.auth.rps > 0.0 && l.auth.burst > 0) ==>
                  exists part :: Share(l.api.burst, 6, part) && allowed == if asked < part then asked else part)
            && (SearchPath(path) ==>
                  exists part :: Share(l.api.burst, 3, part) && allowed == if asked < part then asked else part)
            && (!LoginPath(path) && !SearchPath(path) ==>
                  allowed == if asked < l.api.burst then asked else l.api.burst)
  {
    AllowedAtOneMoment(l, m, events, now, path, ip);
    BudgetOfPath(l, path);
    LevelOfNewClient(l, m, path, ip, now);
    hide LoginPath, SearchPath, TierOf, Good, LevelOf, Share, Asked, AllowedAlike, Key;
  }

  lemma LevelOfNewClient(l: Limits, m: Buckets, path: string, ip: string, now: real)
    requires Sane(l) && Key(l, path, ip) !in m
    ensures LevelOf(l, m, path, ip, now) == TierOf(l, path).burst as real
  {
    AccruedAdds(0.0, 0.0, TierOf(l, path).rps);
    hide TierOf, Accrued;
  }

  /** However many requests of a kind a client sends at one moment, its burst bounds those allowed. */
  lemma BurstBoundsOneMoment(l: Limits, m: Buckets, events: seq<Event>, now: real, path: string, ip: string)
    requires Sane(l) && Good(l, m, now) && AllAt(events, now)
    ensures var allowed := AllowedAlike(l, m, events, path, ip);
            && (LoginPath(path) && l.auth.rps > 0.0 && l.auth.burst > 0 ==> allowed <= l.auth.burst)
            && (LoginPath(path) && !(l.auth.rps > 0.0 && l.auth.burst > 0) ==>
                  allowed <= 1 || 6 * allowed <= l.api.burst)
            && (SearchPath(path) ==> allowed <= 1 || 3 * allowed <= l.api.burst)
            && (!LoginPath(path) && !SearchPath(path) ==> allowed <= l.api.burst)
  {
    AllowedAtOneMoment(l, m, events, now, path, ip);
    LevelIsBounded(l, m, path, ip, now);
    BudgetOfPath(l, path);
    hide LoginPath, SearchPath, TierOf, Good, LevelOf, Asked, AllowedAlike, Key;
  }

  // What a tier's bucket gains over a stretch of time.
  function Refill(t: Tier, from: real, to: real): real {
    Accrued(to - from, t.rps)
  }

  lemma AddRefills(t: Tier, from: real, mid: real, to: real)
    ensures Refill(t, from, mid) + Refill(t, mid, to) == Refill(t, from, to)
    ensures Refill(t, from, from) == 0.0
  {
    AccruedAdds(mid - from, to - mid, t.rps);
    assert (mid - from) + (to - mid) == to - from;
    hide Accrued;
  }

  // When the last of the events happens.
  function EndOf(events: seq<Event>, from: real): real {
    if events == [] then from else EndOf(events[1..], events[0].now)
  }

  lemma LevelIsBounded(l: Limits, m: Buckets, path: string, ip: string, now: real)
    requires Sane(l) && Good(l, m, now)
    ensures 0.0 <= LevelOf(l, m, path, ip, now) <= TierOf(l, path).burst as real
  {
    FindIsSound(l, m, path, ip, now, now);
    CallKeepsSound(Find(l, m, path, ip, now), now);
  }

  ghost predicate AllCovered(l: Limits) {
    forall path :: Covers(TierOf(l, path))
  }

  lemma GoodLater(l: Limits, m: Buckets, from: real, now: real)
    requires Good(l, m, from) && from <= now
    ensures Good(l, m, now)
  {
    hide TierOf;
  }

  // --------------------------------------------------------------------- the objects

  class RateBucket {
    var tokens: real
    const maxTokens: real
    const refillRate: real
    var lastRefill: real

    ghost function Model(): Bucket
      reads this
    {
      Bucket(tokens, maxTokens, refillRate, lastRefill)
    }

    constructor (rps: real, burst: int, now: real)
      ensures Model() == Bucket(burst as real, burst as real, rps, now)
    {
      tokens, maxTokens, refillRate, lastRefill := burst as real, burst as real, rps, now;
    }

    method Allow(now: real) returns (allowed: bool, remaining: real, retryAfter: real)
      modifies this`tokens, this`lastRefill
      ensures Model() == Taken(old(Model()), now)
      ensures Answer(allowed, remaining, retryAfter) == Told(old(Model()), now)
    {
      var elapsed := now - lastRefill;
      tokens := tokens + elapsed * refillRate;
      if tokens > maxTokens {
        tokens := maxTokens;
      }
      lastRefill := now;
      if tokens >= 1.0 {
        tokens := tokens - 1.0;
        return true, tokens, 0.0;
      }
      retryAfter := 0.0;
      if refillRate > 0.0 {
        retryAfter := (1.0 - tokens) / refillRate;
      }
      return false, tokens, retryAfter;
    }
  }

  class RateLimiter {
    const limits: Limits
    var limiters: map<string, RateBucket>

    constructor (api: Budget, auth: Budget)
      ensures limits == Limits(api, auth) && Valid() && Model() == map[]
    {
      limits := Limits(api, auth);
      limiters := map[];
    }

    // No two keys share a bucket.
    ghost predicate Valid()
      reads this
    {
      forall j, k :: j in limiters && k in limiters && limiters[j] == limiters[k] ==> j == k
    }

    ghost function Model(): Buckets
      reads this, limiters.Values
    {
      map k | k in limiters :: limiters[k].Model()
    }

    method GetLimiter(key: string, rps: real, burst: int, now: real) returns (b: RateBucket)
      requires Valid()
      modifies this`limiters
      ensures Valid() && key in limiters && limiters[key] == b
      ensures key in old(limiters) ==> limiters == old(limiters)
      ensures key !in old(limiters) ==>
                fresh(b) && limiters == old(limiters)[key := b]
                    && b.Model() == Bucket(burst as real, burst as real, rps, now)
    {
      if key in limiters {
        return limiters[key];
      }
      b := new RateBucket(rps, burst, now);
      limiters := limiters[key := b];
    }

    /** One request through the middleware. */
    method Serve(path: string, ip: string, now: real) returns (allowed: bool, remaining: real, retryAfter: real)
      requires Valid()
      modifies this`limiters, limiters.Values
      ensures Valid() && Model() == After(limits, old(Model()), Request(path, ip, now))
      ensures Answers(limits, old(Model()), [Request(path, ip, now)]) == [Answer(allowed, remaining, retryAfter)]
      ensures forall b :: b in limiters.Values && b !in old(limiters.Values) ==> fresh(b)
      // a bucket made for a login has the configured login budget
      ensures LoginPath(path) && limits.auth.rps > 0.0 && limits.auth.burst > 0 ==>
                forall k :: k in limiters && k !in old(limiters) ==>
                    limiters[k].maxTokens == limits.auth.burst as real && limiters[k].refillRate == limits.auth.rps
    {
      BudgetOfPath(limits, path);
      var tier := TierOf(limits, path);
      ghost var before := Model();
      hide TierOf;
      var b := GetLimiter(tier.prefix + ip, tier.rps, tier.burst, now);
      assert b.Model() == Find(limits, before, path, ip, now);
      allowed, remaining, retryAfter := b.Allow(now);
      hide Taken, Told, Find;
      var key := Key(limits, path, ip);
      forall k | k in limiters ensures k in Model() && (k != key ==> k in before && Model()[k] == before[k]) {}
      assert Model() == before[key := Taken(Find(limits, before, path, ip, now), now)];
    }

    /** The idle check of the clean-up worker, and its deletion.  Requests may come between
        the two; IdleSweep says what that does. */
    method JudgeIdle(key: string, now: real) returns (idle: bool)
      ensures idle <==> key in limiters && now - limiters[key].lastRefill > IDLE_LIMIT
    {
      idle := key in limiters && now - limiters[key].lastRefill > IDLE_LIMIT;
    }

    method Delete(key: string)
      requires Valid()
      modifies this`limiters
      ensures Valid() && limiters == old(limiters) - {key}
    {
      limiters := limiters - {key};
    }

    /** One tick of the clean-up worker with no request in between: each bucket is judged at
        the time the clock then shows. */
    method CleanUp(clock: string -> real)
      requires Valid()
      modifies this`limiters
      ensures Valid()
      ensures forall k :: k in limiters <==> k in old(limiters) && clock(k) - old(limiters)[k].lastRefill <= IDLE_LIMIT
      ensures forall k :: k in limiters ==> limiters[k] == old(limiters)[k]
    {
      var todo := limiters.Keys;
      while todo != {}
        invariant todo <= old(limiters).Keys && Valid()
        invariant forall k :: k in limiters <==>
                    k in old(limiters) && (k in todo || clock(k) - old(limiters)[k].lastRefill <= IDLE_LIMIT)
        invariant forall k :: k in limiters ==> limiters[k] == old(limiters)[k]
      {
        var key :| key in todo;
        todo := todo - {key};
        var idle := JudgeIdle(key, clock(key));
        if idle {
          Delete(key);
        }
      }
    }
  }
}
