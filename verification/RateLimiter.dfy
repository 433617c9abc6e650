/** The limiter as the service runs it: one table, updated in place by every request. */
module RateLimiter {
  import opened Options
  import opened RateLimit
  import opened RateLaws

  class Limits {
    const cfg: Config
    const maxBuckets: nat
    var buckets: map<string, Bucket>
    var lastSweep: Option<int>
    // Every request that reached `Allow`, oldest first.
    ghost var seen: seq<Request>

    ghost function Value(): Limiter
      reads this
    {
      Limiter(buckets, lastSweep, maxBuckets)
    }

    ghost predicate Valid()
      reads this
    {
      Monotone(seen) && Value() == Table(cfg, maxBuckets, seen)
    }

    /** The clock never runs backwards. */
    ghost predicate Since(now: int)
      reads this
    {
      seen != [] ==> seen[|seen| - 1].now <= now
    }

    constructor (cfg: Config)
      ensures Valid() && seen == [] && this.cfg == cfg && maxBuckets == DEFAULT_MAX_BUCKETS
    {
      this.cfg := cfg;
      maxBuckets := DEFAULT_MAX_BUCKETS;
      buckets := map[];
      lastSweep := None;
      seen := [];
    }

    method Sweep(now: int)
      modifies this`buckets, this`lastSweep
      ensures Value() == Swept(old(Value()), now)
      // Within 5 minutes of the last sweep nothing happens; else all idle for over 15 minutes go.
      ensures old(lastSweep.Some? && now - lastSweep.value < 300_000_000_000) ==> Value() == old(Value())
      ensures !old(lastSweep.Some? && now - lastSweep.value < 300_000_000_000) ==>
                && lastSweep == Some(now)
                && (forall k | k in buckets :: k in old(buckets) && buckets[k] == old(buckets)[k])
                && forall k | k in old(buckets) :: k in buckets <==> now - old(buckets)[k].lastSeen <= 900_000_000_000
    {
      if lastSweep.Some? && now - lastSweep.value < SWEEP_INTERVAL { return; }
      var todo := buckets.Keys;
      while todo != {}
        invariant todo <= old(buckets).Keys
        invariant forall k | k in buckets :: k in old(buckets) && buckets[k] == old(buckets)[k]
        invariant forall k | k in todo :: k in buckets
        invariant forall k | k in old(buckets) && k !in todo ::
                    k in buckets <==> !(now - old(buckets)[k].lastSeen > IDLE_BUCKET_TTL)
        decreases |todo|
      {
        var k :| k in todo;
        todo := todo - {k};
        if now - buckets[k].lastSeen > IDLE_BUCKET_TTL {
          buckets := buckets - {k};
        }
      }
      lastSweep := Some(now);
    }

    /** The limiter's critical section. */
    method Admit(key: string, perMin: nat, now: int) returns (ok: bool)
      modifies this`buckets, this`lastSweep
      ensures (Value(), ok) == Allowed(old(Value()), key, perMin, now)
    {
      if key !in buckets {
        Sweep(now);
        if |buckets| >= maxBuckets {
          return true;
        }
        buckets := buckets[key := NewBucket(perMin, now)];
      }
      var (b, admitted) := Take(buckets[key], now);
      buckets := buckets[key := b];
      assert key !in old(buckets) ==> buckets == Swept(old(Value()), now).buckets[key := b];
      return admitted;
    }

    method Allow(key: string, perMin: nat, now: int) returns (ok: bool)
      requires Valid() && Since(now) && perMin == Budget(cfg, key)
      modifies this
      ensures Valid() && seen == old(seen) + [Request(key, now)]
      ensures ok == Decision(cfg, maxBuckets, seen, |old(seen)|)
      ensures |buckets| <= maxBuckets
    {
      ok := Admit(key, perMin, now);
      OneMoreAnswer(cfg, maxBuckets, seen, Request(key, now), Value(), ok);
      seen := seen + [Request(key, now)];
    }

    /** What the critical section did is the next step of the history. */
    static lemma OneMoreAnswer(cfg: Config, max: nat, seen: seq<Request>, r: Request, l: Limiter, ok: bool)
      requires Monotone(seen) && (seen != [] ==> seen[|seen| - 1].now <= r.now)
      requires (l, ok) == Allowed(Table(cfg, max, seen), r.key, Budget(cfg, r.key), r.now)
      ensures Monotone(seen + [r]) && l == Table(cfg, max, seen + [r]) && |l.buckets| <= max
      ensures ok == Decision(cfg, max, seen + [r], |seen|)
    {
      TableSnoc(cfg, max, seen, r);
      MapNeverExceedsCap(cfg, max, seen + [r]);
    }

    /** Request `n` passes exactly if it is failed open or keeps the budget `perMin` in every window
        since its key's last fail-open; the first `perMin` requests of a key always do. */
    ghost predicate Answered(perMin: nat, n: nat, pass: bool)
      requires n < |seen|
      reads this
    {
      && (pass <==>
            || FailedOpen(cfg, maxBuckets, seen, n)
            || AllWindowsFit(cfg, maxBuckets, seen, perMin, SinceFailOpen(cfg, maxBuckets, seen, n, seen[n].key), n))
      && (Tally(OwnOf(seen, seen[n].key), 0, n) < perMin ==> pass)
      && (|KeysSeen(seen[..n])| < maxBuckets ==> !FailedOpen(cfg, maxBuckets, seen, n))
    }

    lemma AnsweredByWindows(perMin: nat, n: nat)
      requires Valid() && n < |seen| && perMin == Budget(cfg, seen[n].key)
      ensures Answered(perMin, n, Decision(cfg, maxBuckets, seen, n))
    {
      PassesExactly(cfg, maxBuckets, seen, n, perMin);
      if Tally(OwnOf(seen, seen[n].key), 0, n) < perMin { FirstRequestsPass(cfg, maxBuckets, seen, n, perMin); }
      if |KeysSeen(seen[..n])| < maxBuckets { RoomForAll(cfg, maxBuckets, seen, n); }
    }

    /** The tier in front of authentication. */
    method LimitByIP(path: string, ip: string, now: int) returns (pass: bool)
      requires Valid() && Since(now)
      modifies this
      ensures Valid() && seen == old(seen) + [Request(IPKey(path, ip), now)]
      ensures pass == Decision(cfg, maxBuckets, seen, |old(seen)|)
      ensures path == "/healthz" ==> Answered(cfg.healthzPerMin, |old(seen)|, pass)
      ensures "/api/v1/auth/" <= path ==> Answered(cfg.authPerMin, |old(seen)|, pass)
      ensures path != "/healthz" && !("/api/v1/auth/" <= path) ==> Answered(cfg.ipCeilingPerMin, |old(seen)|, pass)
    {
      var perMin := cfg.ipCeilingPerMin;
      if path == "/healthz" {
        perMin := cfg.healthzPerMin;
      } else if "/api/v1/auth/" <= path {
        perMin := cfg.authPerMin;
      }
      BudgetOfIP(cfg, path, ip);
      pass := Allow(IPKey(path, ip), perMin, now);
      AnsweredByWindows(perMin, |seen| - 1);
    }

    /** The tier behind it. A public operation, or a request with no principal, passes untouched. */
    method LimitByPrincipal(isPublic: bool, principal: Option<(string, string)>, now: int) returns (pass: bool)
      requires Valid() && Since(now)
      modifies this
      ensures Valid()
      ensures isPublic || principal.None? ==> pass && Value() == old(Value()) && seen == old(seen)
      ensures !isPublic && principal.Some? ==>
                && seen == old(seen) + [Request(PrincipalKey(principal.value.0, principal.value.1), now)]
                && pass == Decision(cfg, maxBuckets, seen, |old(seen)|)
                && Answered(cfg.principalPerMin, |old(seen)|, pass)
    {
      if isPublic || principal.None? { return true; }
      var (tenant, user) := principal.value;
      BudgetOfPrincipal(cfg, tenant, user);
      pass := Allow(PrincipalKey(tenant, user), cfg.principalPerMin, now);
      AnsweredByWindows(cfg.principalPerMin, |seen| - 1);
    }

    /** What the theorems say about the requests this limiter has answered: of each one, */
    lemma DecidesRightly(m: nat)
      requires Valid() && m < |seen|
      ensures DecidedSinceFailOpen(cfg, maxBuckets, seen, m)
    {
      DecidesAsSinceFailOpen(cfg, maxBuckets, seen, m);
    }

    /** and of any stretch of them. */
    lemma AdmitsWithinPath(path: string, ip: string, i: nat, j: nat)
      requires Valid() && i < j <= |seen| && NotFailedOpen(cfg, maxBuckets, seen, i, j, IPKey(path, ip))
      ensures var p := if path == "/healthz" then cfg.healthzPerMin
                       else if "/api/v1/auth/" <= path then cfg.authPerMin else cfg.ipCeilingPerMin;
              Admitted(cfg, maxBuckets, seen, IPKey(path, ip), i, j) * TOKEN <= (TOKEN + (seen[j - 1].now - seen[i].now)) * p
    {
      BudgetOfIP(cfg, path, ip);
      WindowBound(cfg, maxBuckets, seen, IPKey(path, ip), i, j);
    }

    lemma AdmitsWithin(key: string, i: nat, j: nat)
      requires Valid() && i < j <= |seen|
      ensures Within(cfg, maxBuckets, seen, key, i, j)
      ensures NotFailedOpen(cfg, maxBuckets, seen, i, j, key) ==>
                Admitted(cfg, maxBuckets, seen, key, i, j) * TOKEN
                <= (TOKEN + (seen[j - 1].now - seen[i].now)) * Budget(cfg, key)
    {
      AnyWindowBound(cfg, maxBuckets, seen, key, i, j);
      if NotFailedOpen(cfg, maxBuckets, seen, i, j, key) { WindowBound(cfg, maxBuckets, seen, key, i, j); }
    }
  }
}
