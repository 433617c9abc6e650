/**
 Histories after which the limiter and the reference answer differently, for every cap, every
 budget and every set of other keys that fills the map.
*/
module FailOpens {
  import opened Options
  import opened RateLimit

  function Crowd(names: seq<string>): seq<Request> {
    seq(|names|, i requires 0 <= i < |names| => Request(names[i], 0))
  }

  function Burst(key: string, n: nat, at: int): seq<Request> {
    seq(n, _ => Request(key, at))
  }

  lemma BurstSnoc(reqs: seq<Request>, key: string, n: nat, at: int)
    requires n > 0
    ensures reqs + Burst(key, n, at) == reqs + Burst(key, n - 1, at) + [Request(key, at)]
    ensures reqs + Burst(key, 0, at) == reqs
  {
  }

  /** In order, and all of it by the time `at`. */
  ghost predicate OrderedUntil(reqs: seq<Request>, at: int) {
    Monotone(reqs) && forall i | 0 <= i < |reqs| :: reqs[i].now <= at
  }

  lemma BurstIsOrdered(reqs: seq<Request>, before: int, key: string, n: nat, at: int)
    requires OrderedUntil(reqs, before) && before <= at
    ensures OrderedUntil(reqs + Burst(key, n, at), at)
  {
  }

  ghost predicate Distinct(names: seq<string>) {
    forall i, j | 0 <= i < j < |names| :: names[i] != names[j]
  }

  function KeysIn(names: seq<string>): set<string> {
    set k | k in names
  }

  lemma {:induction false} KeysInSize(names: seq<string>)
    requires Distinct(names)
    ensures |KeysIn(names)| == |names|
  {
    if names == [] {
      assert KeysIn(names) == {};
    } else {
      var n := |names| - 1;
      KeysInSize(names[..n]);
      assert names == names[..n] + [names[n]];
      assert KeysIn(names) == KeysIn(names[..n]) + {names[n]} && names[n] !in KeysIn(names[..n]);
    }
  }

  // === The full map ===========================================================

  /** The map holds one bucket, last seen at 0, for each of the names. */
  ghost predicate Holds(l: Limiter, names: seq<string>, max: nat) {
    && l.maxBuckets == max && l.buckets.Keys == KeysIn(names)
    && forall k | k in l.buckets :: l.buckets[k].lastSeen == 0
  }

  /** A request of a name that is not in the map, while there is room. */
  lemma NameIsAdded(l: Limiter, names: seq<string>, max: nat, name: string, perMin: nat)
    requires Holds(l, names, max) && |KeysIn(names)| < max && name !in names
    requires l.lastSweep.Some? ==> l.lastSweep == Some(0)
    ensures var l' := Allowed(l, name, perMin, 0).0; Holds(l', names + [name], max) && l'.lastSweep == Some(0)
  {
    assert Swept(l, 0).buckets == l.buckets;
    var l' := Allowed(l, name, perMin, 0).0;
    assert l'.buckets.Keys == l.buckets.Keys + {name};
  }

  lemma CrowdSnoc(cfg: Config, max: nat, names: seq<string>, name: string)
    ensures Table(cfg, max, Crowd(names + [name])) == Allowed(Table(cfg, max, Crowd(names)), name, Budget(cfg, name), 0).0
  {
    assert Crowd(names + [name]) == Crowd(names) + [Request(name, 0)];
    TableSnoc(cfg, max, Crowd(names), Request(name, 0));
  }

  lemma {:induction false} CrowdFills(cfg: Config, names: seq<string>, n: nat)
    requires Distinct(names) && n <= |names|
    ensures var l := Table(cfg, |names|, Crowd(names[..n]));
            Holds(l, names[..n], |names|) && l.lastSweep == if n == 0 then None else Some(0)
  {
    if n > 0 {
      var before, name := names[..n - 1], names[n - 1];
      CrowdFills(cfg, names, n - 1);
      assert names[..n] == before + [name];
      CrowdSnoc(cfg, |names|, before, name);
      KeysInSize(before);
      NameIsAdded(Table(cfg, |names|, Crowd(before)), before, |names|, name, Budget(cfg, name));
    }
  }

  lemma CrowdFillsTheMap(cfg: Config, names: seq<string>)
    requires Distinct(names)
    ensures var l := Table(cfg, |names|, Crowd(names));
            Holds(l, names, |names|) && l.lastSweep == if names == [] then None else Some(0)
  {
    CrowdFills(cfg, names, |names|);
    assert names[..|names|] == names;
  }

  /** As long as none of the names is idle, any other key is failed open. */
  lemma StaysFull(l: Limiter, names: seq<string>, key: string, perMin: nat, now: int)
    requires Distinct(names) && Holds(l, names, |names|) && key !in names && now <= IDLE_BUCKET_TTL
    ensures FailsOpen(l, key, now) && Allowed(l, key, perMin, now) == (Swept(l, now), true)
    ensures Holds(Swept(l, now), names, |names|)
  {
    KeysInSize(names);
    assert Swept(l, now).buckets == l.buckets;
  }

  lemma TableAfterBurst(cfg: Config, max: nat, reqs: seq<Request>, key: string, n: nat, at: int)
    requires n > 0
    ensures Table(cfg, max, reqs + Burst(key, n, at)) ==
            Allowed(Table(cfg, max, reqs + Burst(key, n - 1, at)), key, Budget(cfg, key), at).0
    ensures reqs + Burst(key, 0, at) == reqs
  {
    BurstSnoc(reqs, key, n, at);
    TableSnoc(cfg, max, reqs + Burst(key, n - 1, at), Request(key, at));
  }

  lemma {:induction false} BurstIsFailedOpen(cfg: Config, names: seq<string>, reqs: seq<Request>, key: string, n: nat, at: int)
    requires Distinct(names) && key !in names && at <= IDLE_BUCKET_TTL && Holds(Table(cfg, |names|, reqs), names, |names|)
    ensures var l, l' := Table(cfg, |names|, reqs), Table(cfg, |names|, reqs + Burst(key, n, at));
            && Holds(l', names, |names|)
            && l'.lastSweep == if n == 0 then l.lastSweep else Swept(l, at).lastSweep
  {
    if n == 0 {
      assert reqs + Burst(key, 0, at) == reqs;
    } else {
      BurstIsFailedOpen(cfg, names, reqs, key, n - 1, at);
      TableAfterBurst(cfg, |names|, reqs, key, n, at);
      StaysFull(Table(cfg, |names|, reqs + Burst(key, n - 1, at)), names, key, Budget(cfg, key), at);
    }
  }

  // === The reference ==========================================================

  /** What the reference would grant the key after these requests. */
  function Funds(cfg: Config, reqs: seq<Request>, key: string, now: int): int {
    Available(cfg, Reference(cfg, reqs), key, now)
  }

  ghost predicate FundsOk(cfg: Config, reqs: seq<Request>, key: string, now: int) {
    ReferenceOk(cfg, Reference(cfg, reqs), key, now)
  }

  lemma {:induction false} NoBucketYet(cfg: Config, reqs: seq<Request>, key: string)
    requires forall i | 0 <= i < |reqs| :: reqs[i].key != key
    ensures key !in Reference(cfg, reqs)
  {
    if reqs != [] { NoBucketYet(cfg, reqs[..|reqs| - 1], key); }
  }

  lemma FundsPay(cfg: Config, reqs: seq<Request>, key: string, now: int)
    requires FundsOk(cfg, reqs, key, now)
    ensures var reqs' := reqs + [Request(key, now)];
            && (ReferenceDecision(cfg, reqs', |reqs|) <==> Funds(cfg, reqs, key, now) >= TOKEN)
            && FundsOk(cfg, reqs', key, now)
            && Funds(cfg, reqs', key, now) == Funds(cfg, reqs, key, now) - if Funds(cfg, reqs, key, now) >= TOKEN then TOKEN else 0
  {
    assert (reqs + [Request(key, now)])[..|reqs|] == reqs;
    ReferenceRequest(cfg, Reference(cfg, reqs), key, Request(key, now));
  }

  lemma FundsLater(cfg: Config, reqs: seq<Request>, key: string, now: int, later: int)
    requires FundsOk(cfg, reqs, key, now) && now <= later
    ensures FundsOk(cfg, reqs, key, later)
    ensures var p, x := Budget(cfg, key), Funds(cfg, reqs, key, now) + (later - now) * Budget(cfg, key);
            Funds(cfg, reqs, key, later) == if x > Cap(p) then Cap(p) else x
  {
    AvailableLater(cfg, Reference(cfg, reqs), key, now, later);
  }

  function Drained(funds: int, n: nat): int {
    if n == 0 then funds
    else
      var x := Drained(funds, n - 1);
      if x >= TOKEN then x - TOKEN else x
  }

  lemma {:induction false} DrainedToNothing(p: nat, n: nat)
    requires n <= p
    ensures Drained(Cap(p), n) == Cap(p - n)
  {
    if n > 0 {
      DrainedToNothing(p, n - 1);
      assert Cap(p - (n - 1)) == Cap(p - n) + TOKEN;
    }
  }

  lemma {:induction false} NothingToDrain(funds: int, n: nat)
    requires funds < TOKEN
    ensures Drained(funds, n) == funds
  {
    if n > 0 { NothingToDrain(funds, n - 1); }
  }

  lemma {:induction false} BurstDrains(cfg: Config, reqs: seq<Request>, key: string, n: nat, at: int)
    requires FundsOk(cfg, reqs, key, at)
    ensures FundsOk(cfg, reqs + Burst(key, n, at), key, at)
    ensures Funds(cfg, reqs + Burst(key, n, at), key, at) == Drained(Funds(cfg, reqs, key, at), n)
  {
    if n == 0 {
      assert reqs + Burst(key, 0, at) == reqs;
    } else {
      BurstDrains(cfg, reqs, key, n - 1, at);
      BurstSnoc(reqs, key, n, at);
      FundsPay(cfg, reqs + Burst(key, n - 1, at), key, at);
    }
  }

  /** Before its first request a key is granted its whole budget. */
  lemma CrowdIsOthers(cfg: Config, names: seq<string>, key: string, now: int)
    requires key !in names
    ensures FundsOk(cfg, Crowd(names), key, now) && Funds(cfg, Crowd(names), key, now) == Cap(Budget(cfg, key))
  {
    NoBucketYet(cfg, Crowd(names), key);
  }

  // === More ===================================================================

  /** The map is full of the names; the key's budget is used up and one more request made. */
  function MoreRequests(cfg: Config, names: seq<string>, key: string): seq<Request> {
    Crowd(names) + Burst(key, Budget(cfg, key), 0) + [Request(key, 0)]
  }

  lemma MoreIsAdmitted(cfg: Config, names: seq<string>, key: string, n: nat)
    requires Distinct(names) && key !in names
    ensures var before := Crowd(names) + Burst(key, n, 0);
            Decision(cfg, |names|, before + [Request(key, 0)], |before|)
  {
    var before := Crowd(names) + Burst(key, n, 0);
    CrowdFillsTheMap(cfg, names);
    BurstIsFailedOpen(cfg, names, Crowd(names), key, n, 0);
    TableSnoc(cfg, |names|, before, Request(key, 0));
    StaysFull(Table(cfg, |names|, before), names, key, Budget(cfg, key), 0);
  }

  lemma MoreIsRefused(cfg: Config, names: seq<string>, key: string)
    requires key !in names
    ensures var before := Crowd(names) + Burst(key, Budget(cfg, key), 0);
            !ReferenceDecision(cfg, before + [Request(key, 0)], |before|)
  {
    var p := Budget(cfg, key);
    CrowdIsOthers(cfg, names, key, 0);
    BurstDrains(cfg, Crowd(names), key, p, 0);
    DrainedToNothing(p, p);
    FundsPay(cfg, Crowd(names) + Burst(key, p, 0), key, 0);
  }

  lemma MoreIsOrdered(cfg: Config, names: seq<string>, key: string)
    ensures Monotone(MoreRequests(cfg, names, key))
  {
    var reqs := Crowd(names) + Burst(key, Budget(cfg, key), 0);
    BurstIsOrdered(Crowd(names), 0, key, Budget(cfg, key), 0);
    BurstIsOrdered(reqs, 0, key, 1, 0);
    BurstSnoc(reqs, key, 1, 0);
  }

  /** Whatever the budget, the limiter admits the last request, and the reference refuses it. */
  lemma MayAdmitMore(cfg: Config, names: seq<string>, key: string)
    requires Distinct(names) && key !in names
    ensures var reqs, n := MoreRequests(cfg, names, key), |names| + Budget(cfg, key);
            Monotone(reqs) && n < |reqs| && Decision(cfg, |names|, reqs, n) && !ReferenceDecision(cfg, reqs, n)
  {
    MoreIsOrdered(cfg, names, key);
    MoreIsAdmitted(cfg, names, key, Budget(cfg, key));
    MoreIsRefused(cfg, names, key);
    assert |Crowd(names) + Burst(key, Budget(cfg, key), 0)| == |names| + Budget(cfg, key);
  }

  // === Less ===================================================================

  const T1 := 2 * SWEEP_INTERVAL + 1
  const T2 := IDLE_BUCKET_TTL
  const T3 := IDLE_BUCKET_TTL + 1

  /** Just too early for a token to have come back. */
  function T4(p: nat): int
    requires p > 0
  {
    T3 + (TOKEN - 1) / p
  }

  function Asked(names: seq<string>, key: string): seq<Request> {
    Crowd(names) + Burst(key, 1, T1)
  }

  function SpentOnce(names: seq<string>, key: string, p: nat): seq<Request> {
    Asked(names, key) + Burst(key, p, T2)
  }

  function SpentTwice(names: seq<string>, key: string, p: nat, n: nat): seq<Request> {
    SpentOnce(names, key, p) + Burst(key, n, T3)
  }

  /** The names are still in the map at T2, and no sweep has run since T1. */
  lemma FullUntilT2(cfg: Config, names: seq<string>, key: string, p: nat)
    requires Distinct(names) && names != [] && key !in names && p > 0
    ensures Holds(Table(cfg, |names|, SpentOnce(names, key, p)), names, |names|)
    ensures Table(cfg, |names|, SpentOnce(names, key, p)).lastSweep == Some(T1)
  {
    CrowdFillsTheMap(cfg, names);
    BurstIsFailedOpen(cfg, names, Crowd(names), key, 1, T1);
    BurstIsFailedOpen(cfg, names, Asked(names, key), key, p, T2);
  }

  lemma SweptAtT3(l: Limiter, names: seq<string>)
    requires names != [] && Holds(l, names, |names|) && l.lastSweep == Some(T1)
    ensures Swept(l, T3).buckets == map[]
  {
  }

  /** The map holds the key's bucket alone, after `n` of its requests at T3. */
  ghost predicate Solo(l: Limiter, key: string, p: nat, n: nat)
    requires n <= p
  {
    l.buckets.Keys == {key} && l.buckets[key] == Bucket(Cap(p - n), T3, p, T3)
  }

  lemma FirstTake(l: Limiter, max: nat, key: string, p: nat)
    requires key !in l.buckets && l.maxBuckets == max > 0 && Swept(l, T3).buckets == map[] && p > 0
    ensures Solo(Allowed(l, key, p, T3).0, key, p, 1)
  {
    assert Cap(p) == Cap(p - 1) + TOKEN && Cap(p - 1) >= 0;
    assert Refill(NewBucket(p, T3), T3) == Cap(p);
  }

  lemma NextTake(l: Limiter, key: string, p: nat, n: nat)
    requires 1 < n <= p && Solo(l, key, p, n - 1)
    ensures Solo(Allowed(l, key, p, T3).0, key, p, n)
  {
    assert Cap(p - (n - 1)) == Cap(p - n) + TOKEN && Cap(p - n) >= 0;
    MulMono(p - (n - 1), p, TOKEN);
  }

  /** At T3 the names are all swept and the key gets a bucket. */
  lemma BucketAtT3(cfg: Config, names: seq<string>, key: string)
    requires Distinct(names) && names != [] && key !in names && Budget(cfg, key) > 0
    ensures var p := Budget(cfg, key);
            Solo(Table(cfg, |names|, SpentTwice(names, key, p, 1)), key, p, 1)
  {
    var p := Budget(cfg, key);
    var l := Table(cfg, |names|, SpentOnce(names, key, p));
    FullUntilT2(cfg, names, key, p);
    SweptAtT3(l, names);
    FirstTake(l, |names|, key, p);
    TableAfterBurst(cfg, |names|, SpentOnce(names, key, p), key, 1, T3);
  }

  lemma {:induction false} BurstEmptiesBucket(cfg: Config, max: nat, reqs: seq<Request>, key: string, n: nat)
    requires 0 < n <= Budget(cfg, key) && Solo(Table(cfg, max, reqs + Burst(key, 1, T3)), key, Budget(cfg, key), 1)
    ensures Solo(Table(cfg, max, reqs + Burst(key, n, T3)), key, Budget(cfg, key), n)
  {
    if n > 1 {
      BurstEmptiesBucket(cfg, max, reqs, key, n - 1);
      TableAfterBurst(cfg, max, reqs, key, n, T3);
      NextTake(Table(cfg, max, reqs + Burst(key, n - 1, T3)), key, Budget(cfg, key), n);
    }
  }

  /** The reference, spent at T2, has had one nanosecond's refill at T3 and grants nothing then. */
  lemma ReferenceSpentAtT2(cfg: Config, names: seq<string>, key: string, n: nat)
    requires key !in names && 0 < Budget(cfg, key) < TOKEN
    ensures var p := Budget(cfg, key); var reqs := SpentTwice(names, key, p, n);
            FundsOk(cfg, reqs, key, T3) && Funds(cfg, reqs, key, T3) == p
  {
    var p := Budget(cfg, key);
    CrowdIsOthers(cfg, names, key, T1);
    BurstDrains(cfg, Crowd(names), key, 1, T1);
    assert Drained(Cap(p), 1) == Cap(p) - TOKEN by { DrainedToNothing(p, 1); }
    FundsLater(cfg, Asked(names, key), key, T1, T2);
    MulMono(1, p, T2 - T1);
    assert Funds(cfg, Asked(names, key), key, T2) == Cap(p);
    BurstDrains(cfg, Asked(names, key), key, p, T2);
    DrainedToNothing(p, p);
    FundsLater(cfg, SpentOnce(names, key, p), key, T2, T3);
    BurstDrains(cfg, SpentOnce(names, key, p), key, n, T3);
    NothingToDrain(p, n);
  }

  function LessRequests(cfg: Config, names: seq<string>, key: string): seq<Request>
    requires Budget(cfg, key) > 0
  {
    SpentTwice(names, key, Budget(cfg, key), Budget(cfg, key)) + [Request(key, T4(Budget(cfg, key)))]
  }

  lemma LessIsOrdered(cfg: Config, names: seq<string>, key: string)
    requires Budget(cfg, key) > 0
    ensures Monotone(LessRequests(cfg, names, key))
  {
    var p := Budget(cfg, key);
    BurstIsOrdered(Crowd(names), 0, key, 1, T1);
    BurstIsOrdered(Asked(names, key), T1, key, p, T2);
    BurstIsOrdered(SpentOnce(names, key, p), T2, key, p, T3);
    BurstIsOrdered(SpentTwice(names, key, p, p), T3, key, 1, T4(p));
    BurstSnoc(SpentTwice(names, key, p, p), key, 1, T4(p));
  }

  lemma LessIsRefused(cfg: Config, names: seq<string>, key: string)
    requires Distinct(names) && names != [] && key !in names && Budget(cfg, key) > 0
    ensures var p := Budget(cfg, key); var before := SpentTwice(names, key, p, p);
            !Decision(cfg, |names|, before + [Request(key, T4(p))], |before|)
  {
    var p := Budget(cfg, key);
    var before := SpentTwice(names, key, p, p);
    BucketAtT3(cfg, names, key);
    BurstEmptiesBucket(cfg, |names|, SpentOnce(names, key, p), key, p);
    TableSnoc(cfg, |names|, before, Request(key, T4(p)));
    RefilledTooLittle(p);
  }

  lemma RefilledTooLittle(p: nat)
    requires p > 0
    ensures Refill(Bucket(Cap(p - p), T3, p, T3), T4(p)) < TOKEN
  {
    DivisionBounds(p);
  }

  lemma LessIsGranted(cfg: Config, names: seq<string>, key: string)
    requires key !in names && 0 < Budget(cfg, key) < TOKEN
    ensures var p := Budget(cfg, key); var before := SpentTwice(names, key, p, p);
            ReferenceDecision(cfg, before + [Request(key, T4(p))], |before|)
  {
    var p := Budget(cfg, key);
    var before := SpentTwice(names, key, p, p);
    ReferenceSpentAtT2(cfg, names, key, p);
    FundsLater(cfg, before, key, T3, T4(p));
    DivisionBounds(p);
    MulMono(1, p, TOKEN);
    FundsPay(cfg, before, key, T4(p));
  }

  /**
   The key is failed open up to T2; at T3 the names are swept and it gets a bucket, full, which
   its requests empty, while the reference refuses them and charges nothing. At T4 the reference
   has a token again and the limiter has not.
  */
  lemma MayAdmitLess(cfg: Config, names: seq<string>, key: string)
    requires Distinct(names) && names != [] && key !in names && 0 < Budget(cfg, key) < TOKEN
    ensures var reqs, n := LessRequests(cfg, names, key), |names| + 1 + 2 * Budget(cfg, key);
            Monotone(reqs) && n < |reqs| && !Decision(cfg, |names|, reqs, n) && ReferenceDecision(cfg, reqs, n)
  {
    var p := Budget(cfg, key);
    LessIsOrdered(cfg, names, key);
    LessIsRefused(cfg, names, key);
    LessIsGranted(cfg, names, key);
    assert |SpentTwice(names, key, p, p)| == |names| + 1 + 2 * p;
  }

  lemma DivisionBounds(p: nat)
    requires p > 0
    ensures ((TOKEN - 1) / p) * p < TOKEN <= p + ((TOKEN - 1) / p) * p
  {
    var d := (TOKEN - 1) / p;
    assert TOKEN - 1 == d * p + (TOKEN - 1) % p;
  }

  // === At the service's own cap ===============================================

  function Hex(d: nat): char
    requires d < 16
  {
    "0123456789abcdef"[d]
  }

  /** The last n hexadecimal digits of a number. */
  function Hexes(x: nat, n: nat): (r: string)
    ensures |r| == n
  {
    if n == 0 then "" else Hexes(x / 16, n - 1) + [Hex(x % 16)]
  }

  function Sixteens(n: nat): nat {
    if n == 0 then 1 else 16 * Sixteens(n - 1)
  }

  lemma {:induction false} HexesDiffer(x: nat, y: nat, n: nat)
    requires x < Sixteens(n) && y < Sixteens(n) && Hexes(x, n) == Hexes(y, n)
    ensures x == y
  {
    if n > 0 {
      assert Hexes(x, n)[n - 1] == Hex(x % 16) && Hexes(y, n)[n - 1] == Hex(y % 16);
      assert Hexes(x, n)[..n - 1] == Hexes(x / 16, n - 1) && Hexes(y, n)[..n - 1] == Hexes(y / 16, n - 1);
      HexesDiffer(x / 16, y / 16, n - 1);
    }
  }

  const GROUPS := 0xF000

  /** Four digits, the first of them not zero. */
  function Group(x: nat): string
    requires x < GROUPS
  {
    Hexes(0x1000 + x, 4)
  }

  lemma GroupsDiffer(x: nat, y: nat)
    requires x < GROUPS && y < GROUPS && Group(x) == Group(y)
    ensures x == y
  {
    assert Sixteens(4) == 0x10000 by { assert Sixteens(2) == 0x100; }
    HexesDiffer(0x1000 + x, 0x1000 + y, 4);
  }

  /** Distinct addresses in 2001:db8::/32, each in its shortest spelling. */
  function Address(j: nat, k: nat): (r: string)
    requires j < GROUPS && k < GROUPS
    ensures |r| == 19
  {
    "2001:db8::" + Group(j) + ":" + Group(k)
  }

  lemma AddressesDiffer(j: nat, k: nat, j': nat, k': nat)
    requires j < GROUPS && k < GROUPS && j' < GROUPS && k' < GROUPS && Address(j, k) == Address(j', k')
    ensures j == j' && k == k'
  {
    assert Address(j, k)[10..14] == Group(j) && Address(j', k')[10..14] == Group(j');
    assert Address(j, k)[15..19] == Group(k) && Address(j', k')[15..19] == Group(k');
    GroupsDiffer(j, j');
    GroupsDiffer(k, k');
  }

  const ORDERS_PATH := "/api/v1/worker/orders"

  /** The key under which a client reaches some route outside /api/v1/auth/. */
  function ClientKey(ip: string): string {
    IPKey(ORDERS_PATH, ip)
  }

  lemma ClientKeyIsGeneral(cfg: Config, ip: string)
    ensures ClientKey(ip) == "g:" + ip && Budget(cfg, ClientKey(ip)) == cfg.ipCeilingPerMin
  {
    assert ORDERS_PATH[1] != "/healthz"[1] && ORDERS_PATH[8] != "/api/v1/auth/"[8];
  }

  function Clients(n: nat): seq<string>
    requires n <= GROUPS * GROUPS
  {
    seq(n, k requires 0 <= k < n => Client(k))
  }

  function Client(k: nat): string
    requires k < GROUPS * GROUPS
  {
    ClientKey(Address(k / GROUPS, k % GROUPS))
  }

  lemma ClientsAreDistinct(cfg: Config, n: nat)
    requires n <= GROUPS * GROUPS
    ensures Distinct(Clients(n)) && ClientKey("192.0.2.1") !in Clients(n)
  {
    forall i, j | 0 <= i < j < n ensures Clients(n)[i] != Clients(n)[j] {
      if Client(i) == Client(j) { ClientsDiffer(cfg, i, j); }
    }
    forall k | 0 <= k < n ensures Clients(n)[k] != ClientKey("192.0.2.1") {
      ClientKeyIsGeneral(cfg, Address(k / GROUPS, k % GROUPS));
      ClientKeyIsGeneral(cfg, "192.0.2.1");
      assert |Clients(n)[k]| == 21 && |ClientKey("192.0.2.1")| == 11;
    }
  }

  lemma ClientsDiffer(cfg: Config, i: nat, j: nat)
    requires i < GROUPS * GROUPS && j < GROUPS * GROUPS && Client(i) == Client(j)
    ensures i == j
  {
    var a, b := Address(i / GROUPS, i % GROUPS), Address(j / GROUPS, j % GROUPS);
    ClientKeyIsGeneral(cfg, a);
    ClientKeyIsGeneral(cfg, b);
    assert Client(i)[2..] == a && Client(j)[2..] == b;
    AddressesDiffer(i / GROUPS, i % GROUPS, j / GROUPS, j % GROUPS);
  }

  /** A flood of as many clients as the map has room for makes both happen to one more. */
  lemma FloodMayDiffer(cfg: Config, max: nat)
    requires 0 < max <= GROUPS * GROUPS && 0 < cfg.ipCeilingPerMin < TOKEN
    ensures var names, key := Clients(max), ClientKey("192.0.2.1");
            && Budget(cfg, key) > 0
            && (var more, m := MoreRequests(cfg, names, key), max + Budget(cfg, key);
                m < |more| && Decision(cfg, max, more, m) && !ReferenceDecision(cfg, more, m))
            && (var less, m := LessRequests(cfg, names, key), max + 1 + 2 * Budget(cfg, key);
                m < |less| && !Decision(cfg, max, less, m) && ReferenceDecision(cfg, less, m))
  {
    var names, key := Clients(max), ClientKey("192.0.2.1");
    ClientsAreDistinct(cfg, max);
    ClientKeyIsGeneral(cfg, "192.0.2.1");
    assert |names| == max;
    MayAdmitMore(cfg, names, key);
    MayAdmitLess(cfg, names, key);
  }
}
