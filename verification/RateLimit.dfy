/**
 The two-tier rate limiter: a bounded map of token buckets with lazy eviction.

 Time is in nanoseconds. Token counts are scaled by 60e9 so that they stay whole: one
 nanosecond refills `perMin` units and one request costs `TOKEN` units.
*/
module RateLimit {
  import opened Options

  const TOKEN := 60 * 1_000_000_000
  const IDLE_BUCKET_TTL := 15 * 60 * 1_000_000_000
  const SWEEP_INTERVAL := 5 * 60 * 1_000_000_000
  const DEFAULT_MAX_BUCKETS := 100_000

  datatype Config = Config(authPerMin: nat, healthzPerMin: nat, ipCeilingPerMin: nat, principalPerMin: nat)

  // === Keys ===================================================================

  function IPKey(path: string, ip: string): string {
    if path == "/healthz" then "h:" + ip
    else if "/api/v1/auth/" <= path then "a:" + ip
    else "g:" + ip
  }

  function PrincipalKey(tenant: string, user: string): string {
    "p:" + tenant + ":" + user
  }

  /** The budget a key is always used with: its first character names the class. */
  function Budget(cfg: Config, key: string): nat {
    if key == "" then cfg.principalPerMin
    else if key[0] == 'h' then cfg.healthzPerMin
    else if key[0] == 'a' then cfg.authPerMin
    else if key[0] == 'g' then cfg.ipCeilingPerMin
    else cfg.principalPerMin
  }

  /** No two classes, no two addresses of a class and no two principals share a bucket
      (a tenant id prints as 36 characters). */
  lemma KeysAreInjective(p: string, ip: string, q: string, ip': string, t: string, u: string, t': string, u': string)
    requires |t| == |t'| == 36
    ensures IPKey(p, ip) == IPKey(q, ip') ==>
              ip == ip' && (p == "/healthz" <==> q == "/healthz") && ("/api/v1/auth/" <= p <==> "/api/v1/auth/" <= q)
    ensures PrincipalKey(t, u) == PrincipalKey(t', u') ==> t == t' && u == u'
    ensures IPKey(p, ip) != PrincipalKey(t, u)
  {
    PrefixSplits(p, ip);
    PrefixSplits(q, ip');
    PrincipalSplits(t, u);
    PrincipalSplits(t', u');
  }

  lemma PrefixSplits(p: string, ip: string)
    ensures var k := IPKey(p, ip);
            && k[2..] == ip && k[0] != 'p' && (p == "/healthz" <==> k[0] == 'h') && ("/api/v1/auth/" <= p <==> k[0] == 'a')
  {
    var k := IPKey(p, ip);
    assert k == [k[0], ':'] + ip;
    assert p == "/healthz" ==> p[1] == 'h';
    assert "/api/v1/auth/" <= p ==> p[1] == "/api/v1/auth/"[1];
  }

  lemma PrincipalSplits(t: string, u: string)
    requires |t| == 36
    ensures var k := PrincipalKey(t, u); k[0] == 'p' && k[2..38] == t && k[39..] == u
  {
    var k := PrincipalKey(t, u);
    assert k == "p:" + (t + (":" + u));
  }

  // === One bucket =============================================================

  /** `last` is the time of the last admitted request, `lastSeen` of the last request. */
  datatype Bucket = Bucket(tokens: int, last: int, perMin: nat, lastSeen: int)

  function Cap(perMin: nat): int { perMin * TOKEN }

  function NewBucket(perMin: nat, now: int): Bucket { Bucket(Cap(perMin), now, perMin, now) }

  function Refill(b: Bucket, now: int): int {
    var elapsed := if now < b.last then 0 else now - b.last;
    var t := b.tokens + elapsed * b.perMin;
    if t > Cap(b.perMin) then Cap(b.perMin) else t
  }

  /** rate.Limiter.Allow: a refused request leaves the limiter as it was. */
  function Take(b: Bucket, now: int): (r: (Bucket, bool)) {
    var t := Refill(b, now);
    if t >= TOKEN then (Bucket(t - TOKEN, now, b.perMin, now), true)
    else (b.(lastSeen := now), false)
  }

  ghost predicate BucketOk(b: Bucket, now: int) {
    0 <= b.tokens <= Cap(b.perMin) && b.last <= b.lastSeen <= now
  }

  lemma RefillBounds(b: Bucket, now: int)
    requires BucketOk(b, now)
    ensures 0 <= Refill(b, now) <= Cap(b.perMin)
  {
    assert (now - b.last) * b.perMin >= 0;
  }

  /** Refilling in two goes is refilling in one. */
  lemma RefillSplits(b: Bucket, now: int, later: int)
    requires BucketOk(b, now) && now <= later
    ensures Refill(b, later) ==
            if Refill(b, now) + (later - now) * b.perMin > Cap(b.perMin) then Cap(b.perMin)
            else Refill(b, now) + (later - now) * b.perMin
  {
    assert (later - b.last) * b.perMin == (now - b.last) * b.perMin + (later - now) * b.perMin;
    assert (later - now) * b.perMin >= 0;
  }

  lemma BucketLater(b: Bucket, now: int, later: int)
    requires BucketOk(b, now) && now <= later
    ensures BucketOk(b, later)
    ensures Refill(b, now) == Cap(b.perMin) ==> Refill(b, later) == Cap(b.perMin)
  {
    RefillSplits(b, now, later);
    assert (later - now) * b.perMin >= 0;
  }

  lemma TwoBucketsLater(a: Bucket, b: Bucket, now: int, later: int)
    requires BucketOk(a, now) && BucketOk(b, now) && now <= later
    requires a.perMin == b.perMin && Refill(a, now) == Refill(b, now)
    ensures Refill(a, later) == Refill(b, later)
  {
    RefillSplits(a, now, later);
    RefillSplits(b, now, later);
  }

  /** Why evicting an idle bucket forgets nothing: it has been full for 14 minutes. */
  lemma IdleIsFull(b: Bucket, now: int)
    requires b.lastSeen <= now && now - b.lastSeen > IDLE_BUCKET_TTL && BucketOk(b, b.lastSeen)
    ensures Refill(b, now) == Cap(b.perMin)
  {
    MulMono(TOKEN, now - b.last, b.perMin);
  }

  lemma MulMono(a: int, b: int, c: nat)
    requires a <= b
    ensures a * c <= b * c
  {
    assert b * c == a * c + (b - a) * c;
    assert (b - a) * c >= 0;
  }

  // === The limiter's table ====================================================

  datatype Limiter = Limiter(buckets: map<string, Bucket>, lastSweep: Option<int>, maxBuckets: nat)

  function Swept(l: Limiter, now: int): Limiter {
    if l.lastSweep.Some? && now - l.lastSweep.value < SWEEP_INTERVAL then l
    else l.(buckets := map k | k in l.buckets && !(now - l.buckets[k].lastSeen > IDLE_BUCKET_TTL) :: l.buckets[k],
            lastSweep := Some(now))
  }

  predicate FailsOpen(l: Limiter, key: string, now: int) {
    key !in l.buckets && |Swept(l, now).buckets| >= l.maxBuckets
  }

  function Allowed(l: Limiter, key: string, perMin: nat, now: int): (Limiter, bool) {
    if key in l.buckets then
      var (b, ok) := Take(l.buckets[key], now);
      (l.(buckets := l.buckets[key := b]), ok)
    else
      var l1 := Swept(l, now);
      if |l1.buckets| >= l1.maxBuckets then (l1, true)
      else
        var (b, ok) := Take(NewBucket(perMin, now), now);
        (l1.(buckets := l1.buckets[key := b]), ok)
  }

  /** The reference: one bucket per key for ever, no cap, no eviction. */
  function Unbounded(u: map<string, Bucket>, key: string, perMin: nat, now: int): (map<string, Bucket>, bool) {
    var (b, ok) := Take(if key in u then u[key] else NewBucket(perMin, now), now);
    (u[key := b], ok)
  }

  // === Request sequences ======================================================

  datatype Request = Request(key: string, now: int)

  ghost predicate Monotone(reqs: seq<Request>) {
    forall i, j | 0 <= i <= j < |reqs| :: reqs[i].now <= reqs[j].now
  }

  /** The bounded limiter after the requests, from empty. */
  function Table(cfg: Config, max: nat, reqs: seq<Request>): Limiter {
    if reqs == [] then Limiter(map[], None, max)
    else
      var n := |reqs| - 1;
      Allowed(Table(cfg, max, reqs[..n]), reqs[n].key, Budget(cfg, reqs[n].key), reqs[n].now).0
  }

  /** What one more request does to the limiter, and to what is known about it. */
  lemma TableSnoc(cfg: Config, max: nat, reqs: seq<Request>, r: Request)
    ensures (Table(cfg, max, reqs + [r]), Decision(cfg, max, reqs + [r], |reqs|)) ==
            Allowed(Table(cfg, max, reqs), r.key, Budget(cfg, r.key), r.now)
    ensures Monotone(reqs) && (reqs != [] ==> reqs[|reqs| - 1].now <= r.now) ==> Monotone(reqs + [r])
  {
    assert (reqs + [r])[..|reqs|] == reqs;
  }

  function Reference(cfg: Config, reqs: seq<Request>): map<string, Bucket> {
    if reqs == [] then map[]
    else
      var n := |reqs| - 1;
      Unbounded(Reference(cfg, reqs[..n]), reqs[n].key, Budget(cfg, reqs[n].key), reqs[n].now).0
  }

  function Decision(cfg: Config, max: nat, reqs: seq<Request>, i: nat): bool
    requires i < |reqs|
  {
    Allowed(Table(cfg, max, reqs[..i]), reqs[i].key, Budget(cfg, reqs[i].key), reqs[i].now).1
  }

  function ReferenceDecision(cfg: Config, reqs: seq<Request>, i: nat): bool
    requires i < |reqs|
  {
    Unbounded(Reference(cfg, reqs[..i]), reqs[i].key, Budget(cfg, reqs[i].key), reqs[i].now).1
  }

  /** Request `i` met a full map and was admitted without a bucket. */
  ghost predicate FailedOpen(cfg: Config, max: nat, reqs: seq<Request>, i: int)
    requires 0 <= i < |reqs|
  {
    FailsOpen(Table(cfg, max, reqs[..i]), reqs[i].key, reqs[i].now)
  }

  /** Which requests are the key's and are failed open, admitted, or granted by the reference. */
  ghost function FailOpensOf(cfg: Config, max: nat, reqs: seq<Request>, key: string): seq<bool> {
    seq(|reqs|, i requires 0 <= i < |reqs| => OpenedFor(cfg, max, reqs, key, i))
  }

  function AdmissionsOf(cfg: Config, max: nat, reqs: seq<Request>, key: string): seq<bool> {
    seq(|reqs|, i requires 0 <= i < |reqs| => reqs[i].key == key && Decision(cfg, max, reqs, i))
  }

  function GrantsOf(cfg: Config, reqs: seq<Request>, key: string): seq<bool> {
    seq(|reqs|, i requires 0 <= i < |reqs| => reqs[i].key == key && ReferenceDecision(cfg, reqs, i))
  }

  /** Request `i` is the key's and was failed open. */
  ghost predicate OpenedFor(cfg: Config, max: nat, reqs: seq<Request>, key: string, i: int)
    requires 0 <= i < |reqs|
  {
    reqs[i].key == key && FailedOpen(cfg, max, reqs, i)
  }

  /** None of the key's requests s..n was. */
  ghost predicate NotFailedOpen(cfg: Config, max: nat, reqs: seq<Request>, s: nat, n: nat, key: string)
    requires s <= n <= |reqs|
    decreases n
  {
    n == s || (!OpenedFor(cfg, max, reqs, key, n - 1) && NotFailedOpen(cfg, max, reqs, s, n - 1, key))
  }

  lemma {:induction false} NotOpenAt(cfg: Config, max: nat, reqs: seq<Request>, s: nat, n: nat, key: string, i: nat)
    requires s <= i < n <= |reqs| && NotFailedOpen(cfg, max, reqs, s, n, key)
    ensures !OpenedFor(cfg, max, reqs, key, i) && NotFailedOpen(cfg, max, reqs, s, i, key)
    decreases n
  {
    if i < n - 1 { NotOpenAt(cfg, max, reqs, s, n - 1, key, i); }
  }

  lemma {:induction false} NotOpenJoins(cfg: Config, max: nat, reqs: seq<Request>, s: nat, i: nat, n: nat, key: string)
    requires s <= i <= n <= |reqs|
    requires NotFailedOpen(cfg, max, reqs, s, i, key) && NotFailedOpen(cfg, max, reqs, i, n, key)
    ensures NotFailedOpen(cfg, max, reqs, s, n, key)
    decreases n
  {
    if i < n { NotOpenJoins(cfg, max, reqs, s, i, n - 1, key); }
  }

  /** The position after the key's last failed-open request among the first n; 0 if there is none. */
  ghost function SinceFailOpen(cfg: Config, max: nat, reqs: seq<Request>, n: nat, key: string): (s: nat)
    requires n <= |reqs|
    ensures s <= n && NotFailedOpen(cfg, max, reqs, s, n, key)
    ensures s > 0 ==> OpenedFor(cfg, max, reqs, key, s - 1)
  {
    if n == 0 || OpenedFor(cfg, max, reqs, key, n - 1) then n else SinceFailOpen(cfg, max, reqs, n - 1, key)
  }

  // === The bounded limiter refines the reference ==============================

  ghost predicate KeyAgrees(cfg: Config, l: Limiter, u: map<string, Bucket>, key: string, now: int) {
    if key in l.buckets then
      && key in u && u[key].perMin == l.buckets[key].perMin == Budget(cfg, key)
      && BucketOk(u[key], now) && BucketOk(l.buckets[key], now)
      && Refill(l.buckets[key], now) == Refill(u[key], now)
    else if key in u then
      u[key].perMin == Budget(cfg, key) && BucketOk(u[key], now) && Refill(u[key], now) == Cap(u[key].perMin)
    else true
  }

  lemma AgreesLater(cfg: Config, l: Limiter, u: map<string, Bucket>, key: string, now: int, later: int)
    requires KeyAgrees(cfg, l, u, key, now) && now <= later
    ensures KeyAgrees(cfg, l, u, key, later)
  {
    if key in u { BucketLater(u[key], now, later); }
    if key in l.buckets {
      BucketLater(l.buckets[key], now, later);
      TwoBucketsLater(l.buckets[key], u[key], now, later);
    }
  }

  lemma SweepKeepsAgreement(cfg: Config, l: Limiter, u: map<string, Bucket>, key: string, now: int)
    requires KeyAgrees(cfg, l, u, key, now)
    ensures KeyAgrees(cfg, Swept(l, now), u, key, now)
  {
    if key in l.buckets && key !in Swept(l, now).buckets {
      IdleIsFull(l.buckets[key], now);
    }
  }

  lemma TakeAgrees(a: Bucket, b: Bucket, now: int)
    requires BucketOk(a, now) && BucketOk(b, now) && a.perMin == b.perMin && Refill(a, now) == Refill(b, now)
    ensures Take(a, now).1 == Take(b, now).1
    ensures BucketOk(Take(a, now).0, now) && BucketOk(Take(b, now).0, now)
    ensures Refill(Take(a, now).0, now) == Refill(Take(b, now).0, now)
    ensures Take(a, now).0.perMin == Take(b, now).0.perMin == a.perMin
  {
    RefillBounds(a, now);
  }

  /** One request that does not fail open: same decision, and the key still agrees. */
  lemma RequestAgrees(cfg: Config, l: Limiter, u: map<string, Bucket>, key: string, now: int)
    requires KeyAgrees(cfg, l, u, key, now) && !FailsOpen(l, key, now)
    ensures var p := Budget(cfg, key);
            && Allowed(l, key, p, now).1 == Unbounded(u, key, p, now).1
            && KeyAgrees(cfg, Allowed(l, key, p, now).0, Unbounded(u, key, p, now).0, key, now)
  {
    var p := Budget(cfg, key);
    var fresh' := NewBucket(p, now);
    assert BucketOk(fresh', now) && Refill(fresh', now) == Cap(p);
    TakeAgrees(if key in l.buckets then l.buckets[key] else fresh', if key in u then u[key] else fresh', now);
  }

  /** A request of another key can only evict this one's bucket. */
  lemma OtherRequestAgrees(cfg: Config, l: Limiter, u: map<string, Bucket>, key: string, other: string, now: int)
    requires KeyAgrees(cfg, l, u, key, now) && other != key
    ensures var p := Budget(cfg, other);
            KeyAgrees(cfg, Allowed(l, other, p, now).0, Unbounded(u, other, p, now).0, key, now)
  {
    SweepKeepsAgreement(cfg, l, u, key, now);
  }

  lemma TablesStep(cfg: Config, max: nat, reqs: seq<Request>, s: nat, n: nat)
    requires s < n <= |reqs|
    ensures var r := reqs[n - 1];
            && Table(cfg, max, reqs[..n]) == Allowed(Table(cfg, max, reqs[..n - 1]), r.key, Budget(cfg, r.key), r.now).0
            && Reference(cfg, reqs[s..n]) == Unbounded(Reference(cfg, reqs[s..n - 1]), r.key, Budget(cfg, r.key), r.now).0
  {
    assert reqs[..n][..n - 1] == reqs[..n - 1] && reqs[s..n][..n - 1 - s] == reqs[s..n - 1];
  }

  lemma AnyRequestAgrees(cfg: Config, l: Limiter, u: map<string, Bucket>, key: string, r: Request, later: int)
    requires KeyAgrees(cfg, l, u, key, r.now) && (r.key == key ==> !FailsOpen(l, key, r.now)) && r.now <= later
    ensures var p := Budget(cfg, r.key);
            KeyAgrees(cfg, Allowed(l, r.key, p, r.now).0, Unbounded(u, r.key, p, r.now).0, key, later)
  {
    var p := Budget(cfg, r.key);
    if r.key == key {
      RequestAgrees(cfg, l, u, key, r.now);
    } else {
      OtherRequestAgrees(cfg, l, u, key, r.key, r.now);
    }
    AgreesLater(cfg, Allowed(l, r.key, p, r.now).0, Unbounded(u, r.key, p, r.now).0, key, r.now, later);
  }

  /** From any moment on at which the key has no bucket, the limiter and a reference that starts
      at that moment agree on the key, until it is failed open. */
  lemma {:induction false} TablesAgree(cfg: Config, max: nat, reqs: seq<Request>, s: nat, n: nat, key: string, now: int)
    requires Monotone(reqs) && s <= n <= |reqs| && NotFailedOpen(cfg, max, reqs, s, n, key)
    requires key !in Table(cfg, max, reqs[..s]).buckets && (n > s ==> reqs[n - 1].now <= now)
    ensures KeyAgrees(cfg, Table(cfg, max, reqs[..n]), Reference(cfg, reqs[s..n]), key, now)
    decreases n
  {
    if n > s {
      var r := reqs[n - 1];
      TablesAgree(cfg, max, reqs, s, n - 1, key, r.now);
      TablesStep(cfg, max, reqs, s, n);
      var l, u := Table(cfg, max, reqs[..n - 1]), Reference(cfg, reqs[s..n - 1]);
      assert r.key == key ==> !FailsOpen(l, key, r.now);
      AnyRequestAgrees(cfg, l, u, key, r, now);
    }
  }

  lemma SegmentRefines(cfg: Config, max: nat, reqs: seq<Request>, s: nat, i: nat)
    requires Monotone(reqs) && s <= i < |reqs| && NotFailedOpen(cfg, max, reqs, s, i, reqs[i].key)
    requires reqs[i].key !in Table(cfg, max, reqs[..s]).buckets
    ensures !FailedOpen(cfg, max, reqs, i) ==> Decision(cfg, max, reqs, i) == ReferenceDecision(cfg, reqs[s..], i - s)
    ensures FailedOpen(cfg, max, reqs, i) ==>
              Decision(cfg, max, reqs, i) && (ReferenceDecision(cfg, reqs[s..], i - s) <==> Budget(cfg, reqs[i].key) > 0)
  {
    var key, now, l, u := reqs[i].key, reqs[i].now, Table(cfg, max, reqs[..i]), Reference(cfg, reqs[s..i]);
    assert reqs[s..][..i - s] == reqs[s..i];
    TablesAgree(cfg, max, reqs, s, i, key, now);
    if FailedOpen(cfg, max, reqs, i) {
      FailOpenAdmits(cfg, l, u, key, now);
    } else {
      RequestAgrees(cfg, l, u, key, now);
    }
  }

  /**
   Every decision for a key is the reference's, up to the first request on which that key
   is failed open; and at that request the limiter admits, where the reference admits
   exactly when the key's budget is not zero.
  */
  lemma BoundedRefinesUnbounded(cfg: Config, max: nat, reqs: seq<Request>, i: nat)
    requires Monotone(reqs) && i < |reqs|
    requires NotFailedOpen(cfg, max, reqs, 0, i, reqs[i].key)
    ensures !FailedOpen(cfg, max, reqs, i) ==> Decision(cfg, max, reqs, i) == ReferenceDecision(cfg, reqs, i)
    ensures FailedOpen(cfg, max, reqs, i) ==>
              Decision(cfg, max, reqs, i) && (ReferenceDecision(cfg, reqs, i) <==> Budget(cfg, reqs[i].key) > 0)
  {
    assert reqs[0..] == reqs;
    SegmentRefines(cfg, max, reqs, 0, i);
  }

  /** A request that is failed open leaves its key without a bucket. */
  lemma NoBucketAfter(cfg: Config, max: nat, reqs: seq<Request>, n: nat, key: string)
    requires n <= |reqs|
    ensures key !in Table(cfg, max, reqs[..SinceFailOpen(cfg, max, reqs, n, key)]).buckets
  {
    var s := SinceFailOpen(cfg, max, reqs, n, key);
    if s > 0 {
      assert reqs[..s][..s - 1] == reqs[..s - 1];
    }
  }

  /** Request `i` is admitted exactly when it is failed open or a reference that starts anew after
      its key's last fail-open admits it. */
  ghost predicate DecidedSinceFailOpen(cfg: Config, max: nat, reqs: seq<Request>, i: nat)
    requires i < |reqs|
  {
    var s := SinceFailOpen(cfg, max, reqs, i, reqs[i].key);
    Decision(cfg, max, reqs, i) <==> FailedOpen(cfg, max, reqs, i) || ReferenceDecision(cfg, reqs[s..], i - s)
  }

  /** And so it is with every request, whatever the history. */
  lemma DecidesAsSinceFailOpen(cfg: Config, max: nat, reqs: seq<Request>, i: nat)
    requires Monotone(reqs) && i < |reqs|
    ensures DecidedSinceFailOpen(cfg, max, reqs, i)
  {
    NoBucketAfter(cfg, max, reqs, i, reqs[i].key);
    SegmentRefines(cfg, max, reqs, SinceFailOpen(cfg, max, reqs, i, reqs[i].key), i);
  }

  lemma FailOpenAdmits(cfg: Config, l: Limiter, u: map<string, Bucket>, key: string, now: int)
    requires KeyAgrees(cfg, l, u, key, now) && FailsOpen(l, key, now)
    ensures Allowed(l, key, Budget(cfg, key), now).1
    ensures Unbounded(u, key, Budget(cfg, key), now).1 <==> Budget(cfg, key) > 0
  {
  }

  lemma {:induction false} MapNeverExceedsCap(cfg: Config, max: nat, reqs: seq<Request>)
    ensures Table(cfg, max, reqs).maxBuckets == max
    ensures |Table(cfg, max, reqs).buckets| <= max
  {
    if reqs != [] {
      var n := |reqs| - 1;
      MapNeverExceedsCap(cfg, max, reqs[..n]);
      var l := Table(cfg, max, reqs[..n]);
      SubmapIsSmaller(Swept(l, reqs[n].now).buckets, l.buckets);
      var key := reqs[n].key;
      assert key in l.buckets ==> (Table(cfg, max, reqs).buckets).Keys == l.buckets.Keys;
    }
  }

  lemma SubmapIsSmaller(a: map<string, Bucket>, b: map<string, Bucket>)
    requires a.Keys <= b.Keys
    ensures |a| <= |b|
  {
    SubsetIsSmaller(a.Keys, b.Keys);
  }

  lemma {:induction false} SubsetIsSmaller(a: set<string>, b: set<string>)
    requires a <= b
    ensures |a| <= |b|
  {
    if a != {} {
      var x :| x in a;
      SubsetIsSmaller(a - {x}, b - {x});
    }
  }

  // === Admissions in a window =================================================

  function Tally(f: seq<bool>, i: nat, j: nat): nat
    requires i <= j <= |f|
    decreases j
  {
    if i == j then 0 else Tally(f, i, j - 1) + (if f[j - 1] then 1 else 0)
  }

  lemma {:induction false} TallySplits(f: seq<bool>, i: nat, m: nat, j: nat)
    requires i <= m <= j <= |f|
    ensures Tally(f, i, j) == Tally(f, i, m) + Tally(f, m, j)
    decreases j
  {
    if m < j { TallySplits(f, i, m, j - 1); }
  }

  lemma {:induction false} TallyShifts(f: seq<bool>, g: seq<bool>, s: nat, i: nat, j: nat)
    requires s <= i <= j <= |f| && j - s <= |g|
    requires forall m | i <= m < j :: f[m] == g[m - s]
    ensures Tally(f, i, j) == Tally(g, i - s, j - s)
    decreases j
  {
    if i < j { TallyShifts(f, g, s, i, j - 1); }
  }

  lemma {:induction false} TallyOfNone(f: seq<bool>, i: nat, j: nat)
    requires i <= j <= |f| && forall m | i <= m < j :: !f[m]
    ensures Tally(f, i, j) == 0
    decreases j
  {
    if i < j { TallyOfNone(f, i, j - 1); }
  }

  /** How many of requests i..j of this key were admitted. */
  function Admitted(cfg: Config, max: nat, reqs: seq<Request>, key: string, i: nat, j: nat): nat
    requires i <= j <= |reqs|
  {
    Tally(AdmissionsOf(cfg, max, reqs, key), i, j)
  }

  /** How many the reference grants. */
  function Granted(cfg: Config, reqs: seq<Request>, key: string, i: nat, j: nat): nat
    requires i <= j <= |reqs|
  {
    Tally(GrantsOf(cfg, reqs, key), i, j)
  }

  /** How many were failed open. */
  ghost function FailOpens(cfg: Config, max: nat, reqs: seq<Request>, key: string, i: nat, j: nat): nat
    requires i <= j <= |reqs|
  {
    Tally(FailOpensOf(cfg, max, reqs, key), i, j)
  }

  /** What the reference would still grant this key at `now`. */
  function Available(cfg: Config, u: map<string, Bucket>, key: string, now: int): int {
    if key in u then Refill(u[key], now) else Cap(Budget(cfg, key))
  }

  ghost predicate ReferenceOk(cfg: Config, u: map<string, Bucket>, key: string, now: int) {
    key in u ==> BucketOk(u[key], now) && u[key].perMin == Budget(cfg, key)
  }

  lemma AvailableGrows(cfg: Config, u: map<string, Bucket>, key: string, now: int, later: int)
    requires ReferenceOk(cfg, u, key, now) && now <= later
    ensures ReferenceOk(cfg, u, key, later)
    ensures 0 <= Available(cfg, u, key, later) <= Cap(Budget(cfg, key))
    ensures Available(cfg, u, key, later) <= Available(cfg, u, key, now) + (later - now) * Budget(cfg, key)
  {
    assert (later - now) * Budget(cfg, key) >= 0;
    if key in u {
      RefillSplits(u[key], now, later);
      RefillBounds(u[key], later);
    }
  }

  /** And exactly: it refills at its rate up to the cap. */
  lemma AvailableLater(cfg: Config, u: map<string, Bucket>, key: string, now: int, later: int)
    requires ReferenceOk(cfg, u, key, now) && now <= later
    ensures ReferenceOk(cfg, u, key, later)
    ensures var p, x := Budget(cfg, key), Available(cfg, u, key, now) + (later - now) * Budget(cfg, key);
            Available(cfg, u, key, later) == if x > Cap(p) then Cap(p) else x
  {
    AvailableGrows(cfg, u, key, now, later);
    MulMono(0, later - now, Budget(cfg, key));
    if key in u { RefillSplits(u[key], now, later); }
  }

  lemma ReferenceRequest(cfg: Config, u: map<string, Bucket>, key: string, r: Request)
    requires ReferenceOk(cfg, u, key, r.now)
    ensures var (u', ok) := Unbounded(u, r.key, Budget(cfg, r.key), r.now);
            && ReferenceOk(cfg, u', key, r.now)
            && Available(cfg, u', key, r.now) + (if r.key == key && ok then TOKEN else 0) == Available(cfg, u, key, r.now)
  {
    AvailableGrows(cfg, u, key, r.now, r.now);
  }

  lemma {:induction false} ReferenceStaysOk(cfg: Config, reqs: seq<Request>, key: string, n: nat)
    requires Monotone(reqs) && 0 < n <= |reqs|
    ensures ReferenceOk(cfg, Reference(cfg, reqs[..n]), key, reqs[n - 1].now)
  {
    assert reqs[..n][..n - 1] == reqs[..n - 1];
    if n > 1 {
      ReferenceStaysOk(cfg, reqs, key, n - 1);
      AvailableGrows(cfg, Reference(cfg, reqs[..n - 1]), key, reqs[n - 2].now, reqs[n - 1].now);
    }
    ReferenceRequest(cfg, Reference(cfg, reqs[..n - 1]), key, reqs[n - 1]);
  }

  /** What `d` nanoseconds refill, counted nanosecond by nanosecond. */
  function Earned(p: nat, d: nat): nat {
    if d == 0 then 0 else Earned(p, d - 1) + p
  }

  lemma {:induction false} EarnedIsProduct(p: nat, d: nat)
    ensures Earned(p, d) == d * p
  {
    if d > 0 { EarnedIsProduct(p, d - 1); }
  }

  lemma {:induction false} EarnedAdds(p: nat, a: nat, b: nat)
    ensures Earned(p, a + b) == Earned(p, a) + Earned(p, b)
  {
    if b > 0 { EarnedAdds(p, a, b - 1); }
  }

  lemma OneMoreToken(a: nat)
    ensures (a + 1) * TOKEN == a * TOKEN + TOKEN
  {
  }

  /** One more request: what it costs and what is left come out of what there was, plus the
      refill since the request before it. */
  lemma RequestPotential(cfg: Config, reqs: seq<Request>, key: string, j: nat)
    requires Monotone(reqs) && j < |reqs|
    ensures var cost := if GrantsOf(cfg, reqs, key)[j] then TOKEN else 0;
            var left := Available(cfg, Reference(cfg, reqs[..j + 1]), key, reqs[j].now);
            && 0 <= left && cost + left <= Cap(Budget(cfg, key))
            && (j > 0 ==> cost + left <= Available(cfg, Reference(cfg, reqs[..j]), key, reqs[j - 1].now)
                                        + Earned(Budget(cfg, key), reqs[j].now - reqs[j - 1].now))
  {
    assert reqs[..j + 1][..j] == reqs[..j];
    if j > 0 {
      ReferenceStaysOk(cfg, reqs, key, j);
      AvailableGrows(cfg, Reference(cfg, reqs[..j]), key, reqs[j - 1].now, reqs[j].now);
      EarnedIsProduct(Budget(cfg, key), reqs[j].now - reqs[j - 1].now);
    }
    ReferenceRequest(cfg, Reference(cfg, reqs[..j]), key, reqs[j]);
    AvailableGrows(cfg, Reference(cfg, reqs[..j + 1]), key, reqs[j].now, reqs[j].now);
  }

  function Times(reqs: seq<Request>): seq<int> {
    seq(|reqs|, m requires 0 <= m < |reqs| => reqs[m].now)
  }

  /** What is left after each request, as plain numbers. */
  function LeftAfter(cfg: Config, reqs: seq<Request>, key: string): seq<int> {
    seq(|reqs|, m requires 0 <= m < |reqs| => Available(cfg, Reference(cfg, reqs[..m + 1]), key, reqs[m].now))
  }

  /** Each entry pays for its request out of the entry before it and the refill in between. */
  ghost predicate LedgerEntry(granted: seq<bool>, nows: seq<int>, p: nat, left: seq<int>, m: nat)
    requires m < |left| == |nows| == |granted|
  {
    var cost := if granted[m] then TOKEN else 0;
    && 0 <= left[m] && cost + left[m] <= Cap(p)
    && (m > 0 ==> nows[m - 1] <= nows[m] && cost + left[m] <= left[m - 1] + Earned(p, nows[m] - nows[m - 1]))
  }

  ghost predicate Ledger(granted: seq<bool>, nows: seq<int>, p: nat, left: seq<int>) {
    |left| == |nows| == |granted| && forall m | 0 <= m < |left| :: LedgerEntry(granted, nows, p, left, m)
  }

  lemma EntryFits(cfg: Config, reqs: seq<Request>, key: string, m: nat)
    requires Monotone(reqs) && m < |reqs|
    ensures LedgerEntry(GrantsOf(cfg, reqs, key), Times(reqs), Budget(cfg, key), LeftAfter(cfg, reqs, key), m)
  {
    RequestPotential(cfg, reqs, key, m);
  }

  lemma LedgerHolds(cfg: Config, reqs: seq<Request>, key: string)
    requires Monotone(reqs)
    ensures Ledger(GrantsOf(cfg, reqs, key), Times(reqs), Budget(cfg, key), LeftAfter(cfg, reqs, key))
  {
    var granted, nows, left := GrantsOf(cfg, reqs, key), Times(reqs), LeftAfter(cfg, reqs, key);
    forall m | 0 <= m < |left| ensures LedgerEntry(granted, nows, Budget(cfg, key), left, m) {
      EntryFits(cfg, reqs, key, m);
    }
  }

  lemma {:induction false} LedgerBound(granted: seq<bool>, nows: seq<int>, p: nat, left: seq<int>, i: nat, j: nat)
    requires Ledger(granted, nows, p, left) && i < j <= |left|
    ensures nows[i] <= nows[j - 1] && left[j - 1] >= 0
    ensures Tally(granted, i, j) * TOKEN + left[j - 1] <= Cap(p) + Earned(p, nows[j - 1] - nows[i])
    decreases j
  {
    assert LedgerEntry(granted, nows, p, left, j - 1);
    OneMoreToken(Tally(granted, i, j - 1));
    if i == j - 1 {
      assert Tally(granted, i, i) == 0;
    } else {
      LedgerBound(granted, nows, p, left, i, j - 1);
      EarnedAdds(p, nows[j - 2] - nows[i], nows[j - 1] - nows[j - 2]);
    }
  }

  lemma Distribute(p: nat, w: nat)
    ensures Cap(p) + Earned(p, w) == (TOKEN + w) * p
  {
    EarnedIsProduct(p, w);
  }

  /** The reference's own bound: a full bucket and what the window refills. */
  lemma ReferenceBound(cfg: Config, reqs: seq<Request>, key: string, i: nat, j: nat)
    requires Monotone(reqs) && i < j <= |reqs|
    ensures Granted(cfg, reqs, key, i, j) * TOKEN <= (TOKEN + (reqs[j - 1].now - reqs[i].now)) * Budget(cfg, key)
  {
    LedgerHolds(cfg, reqs, key);
    LedgerBound(GrantsOf(cfg, reqs, key), Times(reqs), Budget(cfg, key), LeftAfter(cfg, reqs, key), i, j);
    Distribute(Budget(cfg, key), reqs[j - 1].now - reqs[i].now);
  }

  lemma AdmittedIsGranted(cfg: Config, max: nat, reqs: seq<Request>, key: string, s: nat, i: nat, j: nat)
    requires Monotone(reqs) && s <= i <= j <= |reqs| && NotFailedOpen(cfg, max, reqs, s, j, key)
    requires key !in Table(cfg, max, reqs[..s]).buckets
    ensures Admitted(cfg, max, reqs, key, i, j) == Granted(cfg, reqs[s..], key, i - s, j - s)
  {
    var f, g := AdmissionsOf(cfg, max, reqs, key), GrantsOf(cfg, reqs[s..], key);
    forall m | i <= m < j ensures f[m] == g[m - s] {
      NotOpenAt(cfg, max, reqs, s, j, key, m);
      AdmissionIsGrant(cfg, max, reqs, key, s, m);
    }
    TallyShifts(f, g, s, i, j);
  }

  lemma AdmissionIsGrant(cfg: Config, max: nat, reqs: seq<Request>, key: string, s: nat, m: nat)
    requires Monotone(reqs) && s <= m < |reqs| && NotFailedOpen(cfg, max, reqs, s, m + 1, key)
    requires key !in Table(cfg, max, reqs[..s]).buckets
    ensures AdmissionsOf(cfg, max, reqs, key)[m] == GrantsOf(cfg, reqs[s..], key)[m - s]
  {
    if reqs[m].key == key {
      assert !OpenedFor(cfg, max, reqs, key, m);
      SegmentRefines(cfg, max, reqs, s, m);
    }
  }

  lemma SuffixIsMonotone(reqs: seq<Request>, s: nat)
    requires Monotone(reqs) && s <= |reqs|
    ensures Monotone(reqs[s..])
  {
  }

  lemma BoundSince(cfg: Config, max: nat, reqs: seq<Request>, key: string, s: nat, i: nat, j: nat)
    requires Monotone(reqs) && s <= i < j <= |reqs| && NotFailedOpen(cfg, max, reqs, s, j, key)
    requires key !in Table(cfg, max, reqs[..s]).buckets
    ensures Admitted(cfg, max, reqs, key, i, j) * TOKEN
            <= (TOKEN + (reqs[j - 1].now - reqs[i].now)) * Budget(cfg, key)
  {
    SuffixIsMonotone(reqs, s);
    AdmittedIsGranted(cfg, max, reqs, key, s, i, j);
    ReferenceBound(cfg, reqs[s..], key, i - s, j - s);
  }

  /**
   While a key is not failed open, whatever came before, its requests admitted from request `i`
   to request `j - 1`, `w` nanoseconds apart, are at most perMin + perMin * w / 60e9, across
   every eviction and re-creation of its bucket.
  */
  lemma WindowBound(cfg: Config, max: nat, reqs: seq<Request>, key: string, i: nat, j: nat)
    requires Monotone(reqs) && i < j <= |reqs| && NotFailedOpen(cfg, max, reqs, i, j, key)
    ensures Admitted(cfg, max, reqs, key, i, j) * TOKEN
            <= (TOKEN + (reqs[j - 1].now - reqs[i].now)) * Budget(cfg, key)
  {
    var s := SinceFailOpen(cfg, max, reqs, i, key);
    NoBucketAfter(cfg, max, reqs, i, key);
    NotOpenJoins(cfg, max, reqs, s, i, j, key);
    BoundSince(cfg, max, reqs, key, s, i, j);
  }

  /** The bound with `f` fail-opens: each admits one request and may start a full bucket. */
  function Allowance(p: nat, w: int, f: nat): int {
    (TOKEN + w) * p + f * (Cap(p) + TOKEN)
  }

  lemma AllowanceGrows(p: nat, w: int, w': int, f: nat)
    requires w <= w'
    ensures Allowance(p, w, f) <= Allowance(p, w', f)
    ensures Allowance(p, w, f) + TOKEN + Cap(p) == Allowance(p, w, f + 1)
  {
    MulMono(TOKEN + w, TOKEN + w', p);
    assert (f + 1) * (Cap(p) + TOKEN) == f * (Cap(p) + TOKEN) + (Cap(p) + TOKEN);
  }

  /** A window without fail-opens after one with `f` of them and one more. */
  lemma AllowanceJoins(p: nat, w1: int, w2: int, w: int, f: nat)
    requires w1 + w2 <= w
    ensures Allowance(p, w1, f) + TOKEN + (TOKEN + w2) * p <= Allowance(p, w, f + 1)
  {
    AllowanceGrows(p, w1 + w2, w, f + 1);
    AllowanceGrows(p, w1 + w2, w1 + w2, f);
    assert (TOKEN + w1) * p + (TOKEN + w2) * p == (TOKEN + (w1 + w2)) * p + Cap(p);
  }

  /** The time between the first and the last request of a window, and what an empty one earns. */
  function Span(nows: seq<int>, i: nat, j: nat): int
    requires i <= j <= |nows|
  {
    if i < j then nows[j - 1] - nows[i] else -TOKEN
  }

  ghost predicate NoneIn(f: seq<bool>, i: nat, j: nat)
    requires i <= j <= |f|
  {
    forall m | i <= m < j :: !f[m]
  }

  /** Every window in which nothing is open keeps the bound. */
  ghost predicate ClosedWindowsBound(a: seq<bool>, f: seq<bool>, nows: seq<int>, p: nat) {
    && |a| == |f| == |nows| && (forall i, j | 0 <= i <= j < |nows| :: nows[i] <= nows[j])
    && forall i, j | 0 <= i <= j <= |a| :: ClosedWindowOk(a, f, nows, p, i, j)
  }

  ghost predicate ClosedWindowOk(a: seq<bool>, f: seq<bool>, nows: seq<int>, p: nat, i: nat, j: nat)
    requires i <= j <= |a| == |f| == |nows|
  {
    NoneIn(f, i, j) ==> Tally(a, i, j) * TOKEN <= (TOKEN + Span(nows, i, j)) * p
  }

  /** The position after the last true entry among the first n; 0 if there is none. */
  function AfterLast(f: seq<bool>, n: nat): (s: nat)
    requires n <= |f|
    ensures s <= n && (forall i | s <= i < n :: !f[i]) && (s > 0 ==> f[s - 1])
  {
    if n == 0 || f[n - 1] then n else AfterLast(f, n - 1)
  }

  /** Both counts, split at the last opening. */
  lemma SplitAtLast(a: seq<bool>, f: seq<bool>, i: nat, s: nat, j: nat)
    requires i < s <= j <= |a| == |f| && f[s - 1] && NoneIn(f, s, j)
    ensures Tally(a, i, j) * TOKEN <= Tally(a, i, s - 1) * TOKEN + TOKEN + Tally(a, s, j) * TOKEN
    ensures Tally(f, i, j) == Tally(f, i, s - 1) + 1
  {
    TallySplits(a, i, s, j);
    TallySplits(f, i, s, j);
    TallyOfNone(f, s, j);
  }

  /** Then every window keeps it, with an allowance for each opening. */
  lemma {:induction false} WindowsAddUp(a: seq<bool>, f: seq<bool>, nows: seq<int>, p: nat, i: nat, j: nat)
    requires ClosedWindowsBound(a, f, nows, p) && i <= j <= |a|
    ensures Tally(a, i, j) * TOKEN <= Allowance(p, Span(nows, i, j), Tally(f, i, j))
    decreases j
  {
    var s := AfterLast(f, j);
    if s <= i {
      TallyOfNone(f, i, j);
      assert ClosedWindowOk(a, f, nows, p, i, j);
    } else {
      WindowsAddUp(a, f, nows, p, i, s - 1);
      assert ClosedWindowOk(a, f, nows, p, s, j);
      SplitAtLast(a, f, i, s, j);
      assert Span(nows, i, s - 1) + Span(nows, s, j) <= Span(nows, i, j);
      AllowanceJoins(p, Span(nows, i, s - 1), Span(nows, s, j), Span(nows, i, j), Tally(f, i, s - 1));
    }
  }

  /** The key's count stays within what its fail-opens and the time allow. */
  ghost predicate Within(cfg: Config, max: nat, reqs: seq<Request>, key: string, i: nat, j: nat)
    requires i < j <= |reqs|
  {
    Admitted(cfg, max, reqs, key, i, j) * TOKEN
    <= Allowance(Budget(cfg, key), reqs[j - 1].now - reqs[i].now, FailOpens(cfg, max, reqs, key, i, j))
  }

  lemma {:induction false} ClosedIsNotOpen(cfg: Config, max: nat, reqs: seq<Request>, key: string, i: nat, j: nat)
    requires i <= j <= |reqs| && NoneIn(FailOpensOf(cfg, max, reqs, key), i, j)
    ensures NotFailedOpen(cfg, max, reqs, i, j, key)
    decreases j
  {
    if i < j {
      ClosedIsNotOpen(cfg, max, reqs, key, i, j - 1);
      assert !FailOpensOf(cfg, max, reqs, key)[j - 1];
    }
  }

  /** In any window whatever, with `f` fail-opens of the key in it, the bound grows by one
      admission and one full bucket for each of them. */
  lemma AnyWindowBound(cfg: Config, max: nat, reqs: seq<Request>, key: string, i: nat, j: nat)
    requires Monotone(reqs) && i < j <= |reqs|
    ensures Within(cfg, max, reqs, key, i, j)
  {
    var a, f, nows, p := AdmissionsOf(cfg, max, reqs, key), FailOpensOf(cfg, max, reqs, key), Times(reqs), Budget(cfg, key);
    forall x, y | 0 <= x <= y <= |reqs| ensures ClosedWindowOk(a, f, nows, p, x, y) {
      if x < y && NoneIn(f, x, y) {
        ClosedIsNotOpen(cfg, max, reqs, key, x, y);
        WindowBound(cfg, max, reqs, key, x, y);
      }
    }
    WindowsAddUp(a, f, nows, p, i, j);
  }
}
