/** The enrollment rate limiter: one token bucket for everyone and one per source
    (crates/azihsm-ca/src/http.rs). Times are nanoseconds. */
module RateLimiting {

  const SECOND: nat := 1_000_000_000
  const GLOBAL_INTERVAL: nat := SECOND
  const GLOBAL_CAP: nat := 10
  const SOURCE_INTERVAL: nat := 6 * SECOND
  const SOURCE_CAP: nat := 3
  const MANY_SOURCES: nat := 1024
  const IDLE: nat := 60 * SECOND

  datatype Bucket = Bucket(tokens: nat, stamp: nat)
  datatype Limiter = Limiter(sources: map<nat, Bucket>, everyone: Bucket)
  datatype Request = Request(source: nat, time: nat)

  // ---------- specification ----------

  /** `refill`: whole intervals become tokens up to the cap; the remainder stays on the stamp. */
  function Refill(b: Bucket, now: nat, interval: nat, cap: nat): Bucket
    requires interval > 0
  {
    var elapsed := if now < b.stamp then 0 else now - b.stamp;
    var intervals := elapsed / interval;
    if intervals == 0 then b
    else
      var added := if intervals < cap then intervals else cap;
      var sum := if b.tokens + added < 256 then b.tokens + added else 255;
      Bucket(if sum < cap then sum else cap, now - elapsed % interval)
  }

  function SourceBucket(l: Limiter, source: nat, now: nat): Bucket {
    Refill(if source in l.sources then l.sources[source] else Bucket(SOURCE_CAP, now), now, SOURCE_INTERVAL, SOURCE_CAP)
  }

  predicate Recent(b: Bucket, now: nat) {
    (if now < b.stamp then 0 else now - b.stamp) < IDLE
  }

  function Evict(sources: map<nat, Bucket>, now: nat): map<nat, Bucket> {
    map s | s in sources && Recent(sources[s], now) :: sources[s]
  }

  /** `allow_at`: the limiter afterwards and the decision. */
  function Allow(l: Limiter, source: nat, now: nat): (Limiter, bool) {
    var everyone := Refill(l.everyone, now, GLOBAL_INTERVAL, GLOBAL_CAP);
    var mine := SourceBucket(l, source, now);
    if everyone.tokens == 0 || mine.tokens == 0 then (Limiter(l.sources[source := mine], everyone), false)
    else
      var sources := l.sources[source := mine.(tokens := mine.tokens - 1)];
      (Limiter(if |sources| > MANY_SOURCES then Evict(sources, now) else sources,
            everyone.(tokens := everyone.tokens - 1)), true)
  }

  // ---------- the object ----------

  method RefillInPlace(bucket: Bucket, now: nat, interval: nat, cap: nat) returns (r: Bucket)
    requires interval > 0 && cap < 256 && bucket.tokens <= cap
    ensures r == Refill(bucket, now, interval, cap)
  {
    r := bucket;
    var elapsed := if now < r.stamp then 0 else now - r.stamp;
    var intervals := elapsed / interval;
    if intervals == 0 {
      return;
    }
    var added := if intervals < cap then intervals else cap;
    var sum := if r.tokens + added < 256 then r.tokens + added else 255;
    r := r.(tokens := if sum < cap then sum else cap);
    var remainder := elapsed % interval;
    r := r.(stamp := now - remainder);
  }

  class RateLimiter {
    var sources: map<nat, Bucket>
    var everyone: Bucket

    constructor (now: nat)
      ensures View() == New(now)
    {
      sources, everyone := map[], Bucket(GLOBAL_CAP, now);
    }

    function View(): Limiter
      reads this
    {
      Limiter(sources, everyone)
    }

    /** The source's bucket, entered when missing and refilled. */
    method Entry(source: nat, now: nat) returns (entry: Bucket)
      requires Capped(View())
      modifies this`sources
      ensures entry == SourceBucket(old(View()), source, now) && entry.tokens <= SOURCE_CAP
      ensures sources == old(sources)[source := entry]
    {
      if source !in sources {
        sources := sources[source := Bucket(SOURCE_CAP, now)];
      }
      entry := RefillInPlace(sources[source], now, SOURCE_INTERVAL, SOURCE_CAP);
      sources := sources[source := entry];
    }

    method AllowAt(source: nat, now: nat) returns (ok: bool)
      requires Capped(View())
      modifies this
      ensures (View(), ok) == Allow(old(View()), source, now)
      ensures Capped(View())
    {
      everyone := RefillInPlace(everyone, now, GLOBAL_INTERVAL, GLOBAL_CAP);
      var entry := Entry(source, now);
      if everyone.tokens == 0 || entry.tokens == 0 {
        return false;
      }
      everyone := everyone.(tokens := everyone.tokens - 1);
      sources := sources[source := entry.(tokens := entry.tokens - 1)];
      assert sources == old(sources)[source := entry.(tokens := entry.tokens - 1)];
      if |sources| > MANY_SOURCES {
        sources := Evict(sources, now);
      }
      return true;
    }
  }

  function New(now: nat): Limiter {
    Limiter(map[], Bucket(GLOBAL_CAP, now))
  }

  predicate Capped(l: Limiter) {
    l.everyone.tokens <= GLOBAL_CAP && forall s <- l.sources :: l.sources[s].tokens <= SOURCE_CAP
  }

  // ---------- refilling loses no time ----------

  lemma Times(a: int, b: int, i: nat)
    ensures (a + b) * i == a * i + b * i
    ensures a <= b ==> a * i <= b * i
  {
  }

  lemma QuotientIs(x: nat, q: nat, r: nat, i: nat)
    requires i > 0 && x == q * i + r && r < i
    ensures x / i == q && x % i == r
  {
    var d := x / i;
    assert x == d * i + x % i;
    Times(q + 1, d, i);
    Times(d + 1, q, i);
    Times(q, 1, i);
    Times(d, 1, i);
  }

  lemma Divide(x: nat, i: nat) returns (q: nat, r: nat)
    requires i > 0
    ensures q == x / i && r == x % i && r < i && x == q * i + r
  {
    q, r := x / i, x % i;
  }

  lemma TwoParts(k: nat, y: nat, l: nat, q: nat, i: nat)
    requires i > 0 && y == l * i + q && q < i
    ensures (k * i + y) / i == k + l && k * i + l * i == (k + l) * i
  {
    Times(k, l, i);
    QuotientIs(k * i + y, k + l, q, i);
  }

  /** The stamp after k whole intervals. */
  function Later(stamp: nat, k: nat, interval: nat): nat {
    stamp + k * interval
  }

  function Whole(stamp: nat, now: nat, interval: nat): nat
    requires interval > 0 && stamp <= now
  {
    (now - stamp) / interval
  }

  /** What a refill comes to. */
  lemma RefillIs(b: Bucket, now: nat, interval: nat, cap: nat)
    requires interval > 0 && cap < 256 && b.tokens <= cap && b.stamp <= now
    ensures var k := Whole(b.stamp, now, interval);
            && Refill(b, now, interval, cap)
                == Bucket(if b.tokens + k < cap then b.tokens + k else cap, Later(b.stamp, k, interval))
            && Later(b.stamp, k, interval) <= now < Later(b.stamp, k, interval) + interval
  {
    var k, rest := Divide(now - b.stamp, interval);
  }

  /** Whole intervals up to `now`, counted in two parts. */
  lemma WholeIntervals(stamp: nat, t: nat, now: nat, interval: nat)
    requires interval > 0 && stamp <= t <= now
    ensures var k := Whole(stamp, t, interval);
            var mid := Later(stamp, k, interval);
            && mid <= now && Whole(stamp, now, interval) == k + Whole(mid, now, interval)
            && Later(mid, Whole(mid, now, interval), interval) == Later(stamp, Whole(stamp, now, interval), interval)
  {
    var k, r := Divide(t - stamp, interval);
    var mid := Later(stamp, k, interval);
    var l, q := Divide(now - mid, interval);
    TwoParts(k, now - mid, l, q, interval);
  }

  lemma RefillTwice(tokens: nat, k: nat, l: nat, cap: nat)
    ensures var first := if tokens + k < cap then tokens + k else cap;
            (if first + l < cap then first + l else cap) == if tokens + (k + l) < cap then tokens + (k + l) else cap
  {
  }

  /** Looking at the bucket in between changes nothing: no fraction of an interval is lost. */
  lemma RefillComposes(b: Bucket, t: nat, now: nat, interval: nat, cap: nat)
    requires interval > 0 && cap < 256 && b.tokens <= cap && b.stamp <= t <= now
    ensures Refill(Refill(b, t, interval, cap), now, interval, cap) == Refill(b, now, interval, cap)
  {
    RefillIs(b, t, interval, cap);
    RefillIs(b, now, interval, cap);
    WholeIntervals(b.stamp, t, now, interval);
    var mid := Refill(b, t, interval, cap);
    RefillIs(mid, now, interval, cap);
    RefillTwice(b.tokens, Whole(b.stamp, t, interval), Whole(mid.stamp, now, interval), cap);
  }

  // ---------- credit ----------

  /** Tokens and started intervals of a bucket, in nanoseconds, once refilled at `now`. */
  function Credit(b: Bucket, now: nat, interval: nat, cap: nat): int
    requires interval > 0
  {
    var r := Refill(b, now, interval, cap);
    r.tokens * interval + (now - r.stamp)
  }

  ghost predicate Sane(b: Bucket, now: nat, cap: nat) {
    b.tokens <= cap && b.stamp <= now
  }

  lemma CreditArithmetic(tokens: nat, k: nat, interval: nat, cap: nat, rest: nat)
    requires tokens <= cap && rest < interval
    ensures var later := if tokens + k < cap then tokens + k else cap;
            later * interval + rest <= tokens * interval + k * interval + rest
            && later * interval + rest < (cap + 1) * interval
  {
    var later := if tokens + k < cap then tokens + k else cap;
    Times(later, tokens + k, interval);
    Times(tokens, k, interval);
    Times(later, cap, interval);
    Times(cap, 1, interval);
  }

  /** Credit is bounded, and grows no faster than time passes. */
  lemma CreditGrows(b: Bucket, t: nat, now: nat, interval: nat, cap: nat)
    requires interval > 0 && cap < 256 && Sane(b, t, cap) && t <= now
    ensures 0 <= Credit(b, now, interval, cap) <= Credit(b, t, interval, cap) + (now - t)
    ensures Credit(b, now, interval, cap) < (cap + 1) * interval
  {
    RefillComposes(b, t, now, interval, cap);
    RefillIs(b, t, interval, cap);
    RefilledLater(Refill(b, t, interval, cap), now, interval, cap);
  }

  lemma RefilledLater(b: Bucket, now: nat, interval: nat, cap: nat)
    requires interval > 0 && cap < 256 && Sane(b, now, cap)
    ensures 0 <= Credit(b, now, interval, cap) <= b.tokens * interval + (now - b.stamp)
    ensures Credit(b, now, interval, cap) < (cap + 1) * interval
  {
    RefillIs(b, now, interval, cap);
    var k, rest := Divide(now - b.stamp, interval);
    CreditArithmetic(b.tokens, k, interval, cap, rest);
  }

  lemma RefilledCredit(b: Bucket, now: nat, interval: nat, cap: nat)
    requires interval > 0 && cap < 256 && Sane(b, now, cap)
    ensures var r := Refill(b, now, interval, cap);
            && Sane(r, now, cap) && Refill(r, now, interval, cap) == r
            && Credit(r, now, interval, cap) == Credit(b, now, interval, cap)
            && (r.tokens > 0 ==>
                Credit(r.(tokens := r.tokens - 1), now, interval, cap) == Credit(b, now, interval, cap) - interval)
  {
    RefillComposes(b, now, now, interval, cap);
    RefillIs(b, now, interval, cap);
    var r := Refill(b, now, interval, cap);
    if r.tokens > 0 {
      RefillIs(r.(tokens := r.tokens - 1), now, interval, cap);
      Times(r.tokens - 1, 1, interval);
    }
  }

  function GlobalCredit(l: Limiter, now: nat): int {
    Credit(l.everyone, now, GLOBAL_INTERVAL, GLOBAL_CAP)
  }

  /** A source that is not listed has a full bucket. */
  function SourceCredit(l: Limiter, source: nat, now: nat): int {
    if source in l.sources then Credit(l.sources[source], now, SOURCE_INTERVAL,
          SOURCE_CAP) else SOURCE_CAP * SOURCE_INTERVAL
  }

  ghost predicate SaneLimiter(l: Limiter, now: nat) {
    Sane(l.everyone, now, GLOBAL_CAP) && forall s <- l.sources :: Sane(l.sources[s], now, SOURCE_CAP)
  }

  /** An entry idle for a minute is worth at least a full bucket, so evicting it gives nothing. */
  lemma IdleIsFull(b: Bucket, now: nat)
    requires Sane(b, now, SOURCE_CAP) && !Recent(b, now)
    ensures Credit(b, now, SOURCE_INTERVAL, SOURCE_CAP) >= SOURCE_CAP * SOURCE_INTERVAL
  {
    RefillIs(b, now, SOURCE_INTERVAL, SOURCE_CAP);
    assert Whole(b.stamp, now, SOURCE_INTERVAL) >= 10;
  }

  lemma EvictionGivesNothing(sources: map<nat, Bucket>, everyone: Bucket, now: nat, s: nat)
    requires SaneLimiter(Limiter(sources, everyone), now)
    ensures SaneLimiter(Limiter(Evict(sources, now), everyone), now)
    ensures SourceCredit(Limiter(Evict(sources, now), everyone), s, now) <= SourceCredit(Limiter(sources, everyone), s,
          now)
  {
    if s in sources && !Recent(sources[s], now) {
      IdleIsFull(sources[s], now);
    }
  }

  lemma SourceBucketCredit(l: Limiter, source: nat, now: nat)
    requires SaneLimiter(l, now)
    ensures var mine := SourceBucket(l, source, now);
            && Sane(mine, now, SOURCE_CAP)
            && Credit(mine, now, SOURCE_INTERVAL, SOURCE_CAP) == SourceCredit(l, source, now)
            && (mine.tokens > 0 ==>
                Credit(mine.(tokens := mine.tokens - 1), now, SOURCE_INTERVAL, SOURCE_CAP)
                    == SourceCredit(l, source, now) - SOURCE_INTERVAL)
  {
    var b := if source in l.sources then l.sources[source] else Bucket(SOURCE_CAP, now);
    RefilledCredit(b, now, SOURCE_INTERVAL, SOURCE_CAP);
  }

  /** A request is accepted exactly when everyone and its source have a whole interval of credit. */
  lemma AcceptsExactlyWhen(l: Limiter, source: nat, now: nat)
    requires SaneLimiter(l, now)
    ensures Allow(l, source, now).1
            <==> GlobalCredit(l, now) >= GLOBAL_INTERVAL && SourceCredit(l, source, now) >= SOURCE_INTERVAL
  {
    TokensAreCredit(l.everyone, now, GLOBAL_INTERVAL, GLOBAL_CAP);
    SourceBucketCredit(l, source, now);
    var b := if source in l.sources then l.sources[source] else Bucket(SOURCE_CAP, now);
    TokensAreCredit(b, now, SOURCE_INTERVAL, SOURCE_CAP);
    RefillIs(Bucket(SOURCE_CAP, now), now, SOURCE_INTERVAL, SOURCE_CAP);
  }

  lemma TokensAreCredit(b: Bucket, now: nat, interval: nat, cap: nat)
    requires interval > 0 && cap < 256 && Sane(b, now, cap)
    ensures Refill(b, now, interval, cap).tokens > 0 <==> Credit(b, now, interval, cap) >= interval
  {
    RefillIs(b, now, interval, cap);
    Times(1, Refill(b, now, interval, cap).tokens, interval);
  }

  /** Another source's entry stays as it is, unless the request is accepted, more than 1024
      sources are then listed, and the entry has been idle for sixty seconds. */
  lemma OthersAreKept(l: Limiter, source: nat, now: nat, s: nat)
    requires s in l.sources && s != source
    ensures var r := Allow(l, source, now);
            && (s in r.0.sources ==> r.0.sources[s] == l.sources[s])
            && (s !in r.0.sources
                <==> r.1 && |l.sources.Keys + {source}| > 1024 && now >= l.sources[s].stamp + 60 * SECOND)
  {
    var mine := SourceBucket(l, source, now);
    assert l.sources[source := mine.(tokens := if mine.tokens > 0 then mine.tokens - 1 else 0)].Keys
        == l.sources.Keys + {source};
  }

  /** A clock that reads earlier than a bucket's stamp adds nothing to the bucket. */
  lemma EarlierAddsNothing(l: Limiter, source: nat, now: nat)
    requires source in l.sources && now <= l.sources[source].stamp && now <= l.everyone.stamp
    ensures var r := Allow(l, source, now);
            && (r.1 <==> l.everyone.tokens > 0 && l.sources[source].tokens > 0)
            && r.0.everyone == l.everyone.(tokens := l.everyone.tokens - One(r.1))
            && (!r.1 ==> r.0 == l)
  {
    assert !Allow(l, source, now).1 ==> l.sources[source := l.sources[source]] == l.sources;
  }

  /** One decision: an acceptance costs the source and everyone a full interval of credit,
      nothing ever gains any, and a refusal costs no one anything. */
  lemma AllowPays(l: Limiter, source: nat, now: nat, s: nat)
    requires SaneLimiter(l, now)
    ensures var r := Allow(l, source, now);
            && SaneLimiter(r.0, now)
            && SourceCredit(r.0, s, now) <= SourceCredit(l, s, now) - (if r.1 && s
                == source then SOURCE_INTERVAL else 0)
            && GlobalCredit(r.0, now) == GlobalCredit(l, now) - (if r.1 then GLOBAL_INTERVAL else 0)
            && (!r.1 ==> SourceCredit(r.0, s, now) == SourceCredit(l, s, now))
  {
    RefilledCredit(l.everyone, now, GLOBAL_INTERVAL, GLOBAL_CAP);
    SourceBucketCredit(l, source, now);
    var mine := SourceBucket(l, source, now);
    var r := Allow(l, source, now);
    if r.1 {
      var sources := l.sources[source := mine.(tokens := mine.tokens - 1)];
      assert SaneLimiter(Limiter(sources, r.0.everyone), now);
      EvictionGivesNothing(sources, r.0.everyone, now, s);
    }
  }

  /** A refused request changes no bucket as any later moment sees it. */
  lemma RefusalConsumesNothing(l: Limiter, source: nat, now: nat, s: nat, later: nat)
    requires SaneLimiter(l, now) && !Allow(l, source, now).1 && now <= later
    ensures var l' := Allow(l, source, now).0;
            && SourceBucket(l', s, later).tokens == SourceBucket(l, s, later).tokens
            && Refill(l'.everyone, later, GLOBAL_INTERVAL, GLOBAL_CAP)
                == Refill(l.everyone, later, GLOBAL_INTERVAL, GLOBAL_CAP)
  {
    RefillComposes(l.everyone, now, later, GLOBAL_INTERVAL, GLOBAL_CAP);
    var b := if source in l.sources then l.sources[source] else Bucket(SOURCE_CAP, now);
    RefillComposes(b, now, later, SOURCE_INTERVAL, SOURCE_CAP);
    RefillIs(Bucket(SOURCE_CAP, now), later, SOURCE_INTERVAL, SOURCE_CAP);
    RefillIs(Bucket(SOURCE_CAP, later), later, SOURCE_INTERVAL, SOURCE_CAP);
  }

  // ---------- whole runs ----------

  function Serve(l: Limiter, requests: seq<Request>): Limiter
    decreases |requests|
  {
    if requests == [] then l else Serve(Allow(l, requests[0].source, requests[0].time).0, requests[1..])
  }

  /** How many of the requests are accepted: all of them, or those of one source. */
  function Accepted(l: Limiter, requests: seq<Request>, source: int): nat
    decreases |requests|
  {
    if requests == [] then 0
    else
      var r := Allow(l, requests[0].source, requests[0].time);
      (if r.1 && (source < 0 || requests[0].source == source) then 1 else 0) + Accepted(r.0, requests[1..], source)
  }

  const ANYONE := -1

  ghost predicate InOrder(requests: seq<Request>, from: nat) {
    && (forall i :: 0 <= i < |requests| ==> from <= requests[i].time)
    && (forall i, j :: 0 <= i < j < |requests| ==> requests[i].time <= requests[j].time)
  }

  lemma LaterSane(l: Limiter, t: nat, now: nat)
    requires SaneLimiter(l, t) && t <= now
    ensures SaneLimiter(l, now)
  {
  }

  lemma LaterCredit(l: Limiter, t: nat, now: nat, s: nat)
    requires SaneLimiter(l, t) && t <= now
    ensures SaneLimiter(l, now)
    ensures SourceCredit(l, s, now) <= SourceCredit(l, s, t) + (now - t)
    ensures GlobalCredit(l, now) <= GlobalCredit(l, t) + (now - t)
    ensures 0 <= SourceCredit(l, s, now) < (SOURCE_CAP + 1) * SOURCE_INTERVAL
    ensures 0 <= GlobalCredit(l, now) < (GLOBAL_CAP + 1) * GLOBAL_INTERVAL
  {
    CreditGrows(l.everyone, t, now, GLOBAL_INTERVAL, GLOBAL_CAP);
    if s in l.sources {
      CreditGrows(l.sources[s], t, now, SOURCE_INTERVAL, SOURCE_CAP);
    }
  }

  function One(accepted: bool): nat { if accepted then 1 else 0 }

  lemma SourcePaysOnce(l: Limiter, request: Request, s: nat, t: nat, end: nat, budget: int)
    requires SaneLimiter(l, t) && t <= request.time <= end && SourceCredit(l, s, t) + (end - t) <= budget
    ensures var r := Allow(l, request.source, request.time);
            && SaneLimiter(r.0, request.time)
            && SourceCredit(r.0, s, request.time) + (end - request.time) <= budget - One(r.1 && request.source
                == s) * SOURCE_INTERVAL
  {
    LaterCredit(l, t, request.time, s);
    AllowPays(l, request.source, request.time, s);
  }

  lemma TailInOrder(requests: seq<Request>, t: nat, end: nat)
    requires requests != [] && InOrder(requests, t) && (forall i :: 0 <= i < |requests| ==> requests[i].time <= end)
    ensures t <= requests[0].time <= end && InOrder(requests[1..], requests[0].time)
    ensures forall i :: 0 <= i < |requests[1..]| ==> requests[1..][i].time <= end
  {
  }

  /** One request more. */
  lemma AcceptedOnce(l: Limiter, requests: seq<Request>, s: nat)
    requires requests != []
    ensures var r := Allow(l, requests[0].source, requests[0].time);
            Accepted(l, requests, s) == One(r.1 && requests[0].source == s) + Accepted(r.0, requests[1..], s)
  {
  }

  lemma AcceptedWithin(l: Limiter, requests: seq<Request>, s: nat, budget: int)
    requires requests != []
    requires var r := Allow(l, requests[0].source, requests[0].time);
             Accepted(r.0, requests[1..], s) * SOURCE_INTERVAL
                <= budget - One(r.1 && requests[0].source == s) * SOURCE_INTERVAL
    ensures Accepted(l, requests, s) * SOURCE_INTERVAL <= budget
  {
    AcceptedOnce(l, requests, s);
    var r := Allow(l, requests[0].source, requests[0].time);
    Times(One(r.1 && requests[0].source == s), Accepted(r.0, requests[1..], s), SOURCE_INTERVAL);
  }

  lemma {:induction false} SourcePays(l: Limiter, requests: seq<Request>, s: nat, t: nat, end: nat, budget: int)
    requires SaneLimiter(l, t) && InOrder(requests, t) && t <= end
    requires (forall i :: 0 <= i < |requests| ==> requests[i].time <= end)
    requires SourceCredit(l, s, t) + (end - t) <= budget
    ensures Accepted(l, requests, s) * SOURCE_INTERVAL <= budget
    decreases |requests|
  {
    if requests == [] {
      LaterCredit(l, t, t, s);
    } else {
      TailInOrder(requests, t, end);
      SourcePaysOnce(l, requests[0], s, t, end, budget);
      var r := Allow(l, requests[0].source, requests[0].time);
      var d := One(r.1 && requests[0].source == s);
      SourcePays(r.0, requests[1..], s, requests[0].time, end, budget - d * SOURCE_INTERVAL);
      AcceptedWithin(l, requests, s, budget);
    }
  }

  lemma EveryonePaysOnce(l: Limiter, request: Request, t: nat, end: nat, budget: int)
    requires SaneLimiter(l, t) && t <= request.time <= end && GlobalCredit(l, t) + (end - t) <= budget
    ensures var r := Allow(l, request.source, request.time);
            && SaneLimiter(r.0, request.time)
            && GlobalCredit(r.0, request.time) + (end - request.time) <= budget - One(r.1) * GLOBAL_INTERVAL
  {
    LaterCredit(l, t, request.time, 0);
    AllowPays(l, request.source, request.time, 0);
  }

  lemma {:induction false} EveryonePays(l: Limiter, requests: seq<Request>, t: nat, end: nat, budget: int)
    requires SaneLimiter(l, t) && InOrder(requests, t) && t <= end
    requires (forall i :: 0 <= i < |requests| ==> requests[i].time <= end)
    requires GlobalCredit(l, t) + (end - t) <= budget
    ensures Accepted(l, requests, ANYONE) * GLOBAL_INTERVAL <= budget
    decreases |requests|
  {
    if requests == [] {
      LaterCredit(l, t, t, 0);
    } else {
      TailInOrder(requests, t, end);
      EveryonePaysOnce(l, requests[0], t, end, budget);
      var r := Allow(l, requests[0].source, requests[0].time);
      EveryonePays(r.0, requests[1..], requests[0].time, end, budget - One(r.1) * GLOBAL_INTERVAL);
    }
  }

  lemma {:induction false} ServeSane(l: Limiter, requests: seq<Request>, t: nat, end: nat)
    requires SaneLimiter(l, t) && InOrder(requests, t) && t <= end
    requires (forall i :: 0 <= i < |requests| ==> requests[i].time <= end)
    ensures SaneLimiter(Serve(l, requests), end)
    decreases |requests|
  {
    if requests == [] {
      LaterSane(l, t, end);
    } else {
      TailInOrder(requests, t, end);
      LaterSane(l, t, requests[0].time);
      AllowPays(l, requests[0].source, requests[0].time, 0);
      ServeSane(Allow(l, requests[0].source, requests[0].time).0, requests[1..], requests[0].time, end);
    }
  }

  function CeilingOf(x: nat, y: nat): nat
    requires y > 0
  {
    (x + y - 1) / y
  }

  lemma WindowBound(n: nat, cap: nat, interval: nat, credit: int, window: nat)
    requires interval > 0 && n * interval <= credit + window && credit < (cap + 1) * interval
    ensures n <= cap + CeilingOf(window, interval)
  {
    var c := CeilingOf(window, interval);
    assert window + interval - 1 == c * interval + (window + interval - 1) % interval;
    Times(cap + 1, c, interval);
    Times(cap + c + 1, n, interval);
  }

  lemma SplitOrder(before: seq<Request>, within: seq<Request>, start: nat)
    requires InOrder(before + within, start) && within != []
    ensures InOrder(before, start) && InOrder(within, within[0].time) && start <= within[0].time
    ensures forall i :: 0 <= i < |before| ==> before[i].time <= within[0].time
    ensures forall i :: 0 <= i < |within| ==> within[i].time <= within[|within| - 1].time
  {
    var first, last := within[0].time, within[|within| - 1].time;
    var all := before + within;
    assert within[0] == all[|before|];
    forall i | 0 <= i < |before| ensures start <= before[i].time <= first {
      assert all[i] == before[i];
    }
    forall i, j | 0 <= i < j < |before| ensures before[i].time <= before[j].time {
      assert all[i] == before[i] && all[j] == before[j];
    }
    forall i | 0 <= i < |within| ensures first <= within[i].time <= last {
      assert all[|before| + i] == within[i] && all[|before| + |within| - 1] == within[|within| - 1];
    }
    forall i, j | 0 <= i < j < |within| ensures within[i].time <= within[j].time {
      assert all[|before| + i] == within[i] && all[|before| + j] == within[j];
    }
  }

  /** In any window of a run, however requests, refusals and evictions fall, one source is
      accepted at most 3 + ceil(window / 6 s) times and everyone together at most
      10 + ceil(window / 1 s) times. Times are in nanoseconds. */
  lemma RatesAreBounded(start: nat, before: seq<Request>, within: seq<Request>, source: nat, window: nat)
    requires InOrder(before + within, start) && within != []
    requires within[|within| - 1].time - within[0].time <= window
    ensures var l := Serve(New(start), before);
            && Accepted(l, within, source) <= 3 + CeilingOf(window, 6_000_000_000)
            && Accepted(l, within, ANYONE) <= 10 + CeilingOf(window, 1_000_000_000)
  {
    var first, last := within[0].time, within[|within| - 1].time;
    SplitOrder(before, within, start);
    var l := Serve(New(start), before);
    ServeSane(New(start), before, start, first);
    SourcePays(l, within, source, first, last, SourceCredit(l, source, first) + (last - first));
    EveryonePays(l, within, first, last, GlobalCredit(l, first) + (last - first));
    LaterCredit(l, first, first, source);
    WindowBound(Accepted(l, within, source), SOURCE_CAP, SOURCE_INTERVAL, SourceCredit(l, source, first), window);
    WindowBound(Accepted(l, within, ANYONE), GLOBAL_CAP, GLOBAL_INTERVAL, GlobalCredit(l, first), window);
  }

  // ---------- nothing is refused that has not been used up ----------

  function Least(a: int, b: int): int { if a < b then a else b }

  /** Short of the cap, credit grows as fast as time passes. */
  lemma CreditGrowsAtLeast(b: Bucket, t: nat, now: nat, interval: nat, cap: nat)
    requires interval > 0 && cap < 256 && Sane(b, t, cap) && t <= now
    ensures Credit(b, now, interval, cap) >= Least(cap * interval, Credit(b, t, interval, cap) + (now - t))
  {
    RefillComposes(b, t, now, interval, cap);
    RefillIs(b, t, interval, cap);
    var mid := Refill(b, t, interval, cap);
    RefillIs(mid, now, interval, cap);
    var k, rest := Divide(now - mid.stamp, interval);
    Times(mid.tokens, k, interval);
  }

  lemma LaterCreditAtLeast(l: Limiter, t: nat, now: nat, s: nat)
    requires SaneLimiter(l, t) && t <= now
    ensures SourceCredit(l, s, now) >= Least(SOURCE_CAP * SOURCE_INTERVAL, SourceCredit(l, s, t) + (now - t))
    ensures GlobalCredit(l, now) >= Least(GLOBAL_CAP * GLOBAL_INTERVAL, GlobalCredit(l, t) + (now - t))
  {
    CreditGrowsAtLeast(l.everyone, t, now, GLOBAL_INTERVAL, GLOBAL_CAP);
    if s in l.sources {
      CreditGrowsAtLeast(l.sources[s], t, now, SOURCE_INTERVAL, SOURCE_CAP);
    }
  }

  /** A decision takes from a source no more than it accepts of it, eviction aside, which leaves
      a full bucket. */
  lemma AllowTakesAtMost(l: Limiter, source: nat, now: nat, s: nat)
    requires SaneLimiter(l, now)
    ensures var r := Allow(l, source, now);
            SourceCredit(r.0, s, now) >= Least(SOURCE_CAP * SOURCE_INTERVAL,
                SourceCredit(l, s, now) - One(r.1 && source == s) * SOURCE_INTERVAL)
  {
    AllowPays(l, source, now, s);
    SourceBucketCredit(l, source, now);
  }

  lemma KeepsOn(full: int, before: int, now: int, after: int, last: int, spent: int, more: int, waited: int, rest: int)
    requires spent >= 0 && more >= 0 && rest >= 0
    requires now >= Least(full, before + waited) && after >= Least(full, now - spent)
    requires last + more >= Least(full, after + rest)
    ensures last + (spent + more) >= Least(full, before + (waited + rest))
  {
  }

  lemma KeepsTaken(full: int, interval: nat, before: int, now: int, after: int, last: int, d: nat, n: nat, waited: int,
          rest: int)
    requires rest >= 0 && now >= Least(full, before + waited) && after >= Least(full, now - d * interval)
    requires last + n * interval >= Least(full, after + rest)
    ensures last + (d + n) * interval >= Least(full, before + (waited + rest))
  {
    Times(0, d, interval);
    Times(0, n, interval);
    Times(d, n, interval);
    KeepsOn(full, before, now, after, last, d * interval, n * interval, waited, rest);
  }

  /** Credit and acceptances make up for what there was and the time since. */
  ghost predicate Keeps(l: Limiter, requests: seq<Request>, s: nat, t: nat, end: nat) {
    SourceCredit(Serve(l, requests), s, end) + Accepted(l, requests, s) * SOURCE_INTERVAL
    >= Least(SOURCE_CAP * SOURCE_INTERVAL, SourceCredit(l, s, t) + (end - t))
  }

  lemma FirstKeeps(l: Limiter, request: Request, s: nat, t: nat)
    requires SaneLimiter(l, t) && t <= request.time
    ensures var r := Allow(l, request.source, request.time);
            && SaneLimiter(r.0, request.time)
            && SourceCredit(l, s, request.time)
               >= Least(SOURCE_CAP * SOURCE_INTERVAL, SourceCredit(l, s, t) + (request.time - t))
            && SourceCredit(r.0, s, request.time) >= Least(SOURCE_CAP * SOURCE_INTERVAL,
                SourceCredit(l, s, request.time) - One(r.1 && request.source == s) * SOURCE_INTERVAL)
  {
    LaterSane(l, t, request.time);
    LaterCreditAtLeast(l, t, request.time, s);
    AllowPays(l, request.source, request.time, s);
    AllowTakesAtMost(l, request.source, request.time, s);
  }

  lemma KeepsOneMore(l: Limiter, requests: seq<Request>, s: nat, t: nat, end: nat)
    requires requests != [] && SaneLimiter(l, t) && t <= requests[0].time <= end
    requires Keeps(Allow(l, requests[0].source, requests[0].time).0, requests[1..], s, requests[0].time, end)
    ensures Keeps(l, requests, s, t, end)
  {
    var now := requests[0].time;
    FirstKeeps(l, requests[0], s, t);
    var r := Allow(l, requests[0].source, now);
    var d, n := One(r.1 && requests[0].source == s), Accepted(r.0, requests[1..], s);
    KeepsTaken(SOURCE_CAP * SOURCE_INTERVAL, SOURCE_INTERVAL, SourceCredit(l, s, t), SourceCredit(l, s, now),
               SourceCredit(r.0, s, now), SourceCredit(Serve(r.0, requests[1..]), s, end), d, n, now - t, end - now);
    ServedOnce(l, requests, s);
  }

  lemma {:induction false} SourceKeeps(l: Limiter, requests: seq<Request>, s: nat, t: nat, end: nat)
    requires SaneLimiter(l, t) && InOrder(requests, t) && t <= end
    requires (forall i :: 0 <= i < |requests| ==> requests[i].time <= end)
    ensures Keeps(l, requests, s, t, end)
    decreases |requests|
  {
    if requests == [] {
      LaterCreditAtLeast(l, t, end, s);
    } else {
      TailInOrder(requests, t, end);
      FirstKeeps(l, requests[0], s, t);
      SourceKeeps(Allow(l, requests[0].source, requests[0].time).0, requests[1..], s, requests[0].time, end);
      KeepsOneMore(l, requests, s, t, end);
    }
  }

  lemma ServedOnce(l: Limiter, requests: seq<Request>, s: nat)
    requires requests != []
    ensures var r := Allow(l, requests[0].source, requests[0].time);
            && Serve(l, requests) == Serve(r.0, requests[1..])
            && Accepted(l, requests, s) == One(r.1 && requests[0].source == s) + Accepted(r.0, requests[1..], s)
  {
  }

  lemma AcceptedOfAnyone(l: Limiter, requests: seq<Request>)
    requires requests != []
    ensures var r := Allow(l, requests[0].source, requests[0].time);
            Accepted(l, requests, ANYONE) == One(r.1) + Accepted(r.0, requests[1..], ANYONE)
  {
  }

  lemma {:induction false} EveryoneKeeps(l: Limiter, requests: seq<Request>, t: nat, end: nat)
    requires SaneLimiter(l, t) && InOrder(requests, t) && t <= end
    requires (forall i :: 0 <= i < |requests| ==> requests[i].time <= end)
    ensures GlobalCredit(Serve(l, requests), end) + Accepted(l, requests, ANYONE) * GLOBAL_INTERVAL
            >= Least(GLOBAL_CAP * GLOBAL_INTERVAL, GlobalCredit(l, t) + (end - t))
    decreases |requests|
  {
    if requests == [] {
      LaterCreditAtLeast(l, t, end, 0);
    } else {
      TailInOrder(requests, t, end);
      var now := requests[0].time;
      LaterSane(l, t, now);
      LaterCreditAtLeast(l, t, now, 0);
      AllowPays(l, requests[0].source, now, 0);
      var r := Allow(l, requests[0].source, now);
      EveryoneKeeps(r.0, requests[1..], now, end);
      AcceptedOfAnyone(l, requests);
      Times(One(r.1), Accepted(r.0, requests[1..], ANYONE), GLOBAL_INTERVAL);
    }
  }

  lemma NoRoom(credit: int, taken: int, interval: int, full: int, whole: int, later: int, below: bool, short: bool)
    requires credit < interval && credit + taken >= Least(full, later) && later >= whole
    requires below ==> taken + interval <= full
    requires short ==> taken + interval <= whole
    ensures !(below && short) && (later >= full ==> !below)
  {
  }

  /** Used up: with less than an interval of credit left, nearly all there was has been taken. */
  lemma UsedUp(n: nat, cap: nat, interval: nat, credit: int, earlier: int, window: nat)
    requires interval > 0 && 0 <= credit < interval && earlier >= 0
    requires credit + n * interval >= Least(cap * interval, earlier + window)
    ensures n >= Least(cap, window / interval)
    ensures earlier >= cap * interval ==> n >= cap
  {
    var k, rest := Divide(window, interval);
    Times(n, 1, interval);
    Times(n + 1, cap, interval);
    Times(n + 1, k, interval);
    NoRoom(credit, n * interval, interval, cap * interval, k * interval, earlier + window, n < cap, n < k);
    if earlier >= cap * interval {
      assert n >= cap;
    }
  }

  /** Enough has been accepted since `t`. */
  predicate Earned(l: Limiter, within: seq<Request>, source: nat, forSource: nat, forAll: nat) {
    Accepted(l, within, source) >= forSource || Accepted(l, within, ANYONE) >= forAll
  }

  lemma SourceIsSpent(l: Limiter, t: nat, within: seq<Request>, s: nat, end: nat)
    requires SaneLimiter(l, t) && InOrder(within, t) && t <= end
    requires forall i :: 0 <= i < |within| ==> within[i].time <= end
    requires 0 <= SourceCredit(Serve(l, within), s, end) < SOURCE_INTERVAL && 0 <= SourceCredit(l, s, t)
    ensures Accepted(l, within, s) >= Least(SOURCE_CAP, (end - t) / SOURCE_INTERVAL)
    ensures SourceCredit(l, s, t) >= SOURCE_CAP * SOURCE_INTERVAL ==> Accepted(l, within, s) >= SOURCE_CAP
  {
    SourceKeeps(l, within, s, t, end);
    UsedUp(Accepted(l, within, s), SOURCE_CAP, SOURCE_INTERVAL, SourceCredit(Serve(l, within), s, end),
           SourceCredit(l, s, t), end - t);
  }

  lemma EveryoneIsSpent(l: Limiter, t: nat, within: seq<Request>, end: nat)
    requires SaneLimiter(l, t) && InOrder(within, t) && t <= end
    requires forall i :: 0 <= i < |within| ==> within[i].time <= end
    requires 0 <= GlobalCredit(Serve(l, within), end) < GLOBAL_INTERVAL && 0 <= GlobalCredit(l, t)
    ensures Accepted(l, within, ANYONE) >= Least(GLOBAL_CAP, (end - t) / GLOBAL_INTERVAL)
    ensures GlobalCredit(l, t) >= GLOBAL_CAP * GLOBAL_INTERVAL ==> Accepted(l, within, ANYONE) >= GLOBAL_CAP
  {
    EveryoneKeeps(l, within, t, end);
    UsedUp(Accepted(l, within, ANYONE), GLOBAL_CAP, GLOBAL_INTERVAL, GlobalCredit(Serve(l, within), end),
           GlobalCredit(l, t), end - t);
  }

  /** Less than a whole interval of credit is left. */
  ghost predicate Spent(l: Limiter, s: nat, now: nat) {
    && 0 <= SourceCredit(l, s, now) && 0 <= GlobalCredit(l, now)
    && (SourceCredit(l, s, now) < SOURCE_INTERVAL || GlobalCredit(l, now) < GLOBAL_INTERVAL)
  }

  lemma RefusedIsSpent(now: Limiter, s: nat, end: nat)
    requires SaneLimiter(now, end) && !Allow(now, s, end).1
    ensures Spent(now, s, end)
  {
    LaterCredit(now, end, end, s);
    AcceptsExactlyWhen(now, s, end);
  }

  lemma SpentAfter(l: Limiter, t: nat, within: seq<Request>, s: nat, end: nat)
    requires SaneLimiter(l, t) && InOrder(within, t) && t <= end
    requires forall i :: 0 <= i < |within| ==> within[i].time <= end
    requires Spent(Serve(l, within), s, end) && 0 <= SourceCredit(l, s, t) && 0 <= GlobalCredit(l, t)
    ensures Earned(l, within, s, Least(SOURCE_CAP, (end - t) / SOURCE_INTERVAL),
                   Least(GLOBAL_CAP, (end - t) / GLOBAL_INTERVAL))
  {
    if SourceCredit(Serve(l, within), s, end) < SOURCE_INTERVAL {
      SourceIsSpent(l, t, within, s, end);
    } else {
      EveryoneIsSpent(l, t, within, end);
    }
  }

  lemma SpentFromFull(l: Limiter, t: nat, within: seq<Request>, s: nat, end: nat)
    requires SaneLimiter(l, t) && InOrder(within, t) && t <= end
    requires forall i :: 0 <= i < |within| ==> within[i].time <= end
    requires Spent(Serve(l, within), s, end)
    requires SourceCredit(l, s, t) >= SOURCE_CAP * SOURCE_INTERVAL && GlobalCredit(l, t) >= GLOBAL_CAP * GLOBAL_INTERVAL
    ensures Earned(l, within, s, SOURCE_CAP, GLOBAL_CAP)
  {
    if SourceCredit(Serve(l, within), s, end) < SOURCE_INTERVAL {
      SourceIsSpent(l, t, within, s, end);
    } else {
      EveryoneIsSpent(l, t, within, end);
    }
  }

  lemma RefusedLater(l: Limiter, t: nat, within: seq<Request>, refused: Request)
    requires SaneLimiter(l, t) && InOrder(within + [refused], t)
    ensures InOrder(within, t) && t <= refused.time
    ensures forall i :: 0 <= i < |within| ==> within[i].time <= refused.time
  {
    var all := within + [refused];
    assert all[|all| - 1] == refused;
    assert forall i :: 0 <= i < |within| ==> within[i] == all[i];
  }

  lemma RefusalAfter(l: Limiter, t: nat, within: seq<Request>, refused: Request)
    requires SaneLimiter(l, t) && InOrder(within + [refused], t)
    requires !Allow(Serve(l, within), refused.source, refused.time).1
    ensures t <= refused.time
    ensures Earned(l, within, refused.source, Least(SOURCE_CAP, (refused.time - t) / SOURCE_INTERVAL),
                   Least(GLOBAL_CAP, (refused.time - t) / GLOBAL_INTERVAL))
  {
    RefusedLater(l, t, within, refused);
    ServeSane(l, within, t, refused.time);
    LaterCredit(l, t, t, refused.source);
    RefusedIsSpent(Serve(l, within), refused.source, refused.time);
    SpentAfter(l, t, within, refused.source, refused.time);
  }

  /** A refusal is earned: up to a refused request, over any window of the run that ends with
      it, its source was accepted min(3, floor(window / 6 s)) times or everyone together
      min(10, floor(window / 1 s)) times. */
  lemma RefusalsAreEarned(start: nat, before: seq<Request>, within: seq<Request>, refused: Request)
    requires InOrder(before + (within + [refused]), start)
    requires !Allow(Serve(Serve(New(start), before), within), refused.source, refused.time).1
    ensures var l, window := Serve(New(start), before), refused.time - (within + [refused])[0].time;
            && window >= 0
            && Earned(l, within, refused.source, Least(3, window / 6_000_000_000), Least(10, window / 1_000_000_000))
  {
    var all := within + [refused];
    SplitOrder(before, all, start);
    ServeSane(New(start), before, start, all[0].time);
    RefusalAfter(Serve(New(start), before), all[0].time, within, refused);
  }

  lemma NewIsFull(start: nat, s: nat)
    ensures SourceCredit(New(start), s, start) >= SOURCE_CAP * SOURCE_INTERVAL
    ensures GlobalCredit(New(start), start) >= GLOBAL_CAP * GLOBAL_INTERVAL
  {
    RefillIs(New(start).everyone, start, GLOBAL_INTERVAL, GLOBAL_CAP);
  }

  /** From the start, nothing is refused before 3 requests of its source or 10 of everyone have
      been accepted. */
  lemma FirstRefusalIsEarned(start: nat, within: seq<Request>, refused: Request)
    requires InOrder(within + [refused], start)
    requires !Allow(Serve(New(start), within), refused.source, refused.time).1
    ensures Earned(New(start), within, refused.source, 3, 10)
  {
    RefusedLater(New(start), start, within, refused);
    ServeSane(New(start), within, start, refused.time);
    RefusedIsSpent(Serve(New(start), within), refused.source, refused.time);
    NewIsFull(start, refused.source);
    SpentFromFull(New(start), start, within, refused.source, refused.time);
  }
}
