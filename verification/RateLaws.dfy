/**
 The limiter without buckets: which budget a path has, and that a request passes exactly when
 no window that ends with it would hold more than its budget allows.
*/
module RateLaws {
  import opened Options
  import opened RateLimit

  /** Which budget a request counts against. */
  lemma BudgetOfIP(cfg: Config, path: string, ip: string)
    ensures path == "/healthz" ==> Budget(cfg, IPKey(path, ip)) == cfg.healthzPerMin
    ensures "/api/v1/auth/" <= path ==> Budget(cfg, IPKey(path, ip)) == cfg.authPerMin
    ensures path != "/healthz" && !("/api/v1/auth/" <= path) ==> Budget(cfg, IPKey(path, ip)) == cfg.ipCeilingPerMin
  {
    PrefixSplits(path, ip);
    assert path == "/healthz" ==> path[1] == 'h';
    assert "/api/v1/auth/" <= path ==> path[1] == "/api/v1/auth/"[1];
  }

  lemma BudgetOfPrincipal(cfg: Config, tenant: string, user: string)
    ensures Budget(cfg, PrincipalKey(tenant, user)) == cfg.principalPerMin
  {
  }

  // === The reference, by windows ==============================================

  /** What the key's bucket holds right before each request, as plain numbers. */
  function Holdings(cfg: Config, reqs: seq<Request>, key: string): seq<int> {
    seq(|reqs|, m requires 0 <= m < |reqs| => Available(cfg, Reference(cfg, reqs[..m]), key, reqs[m].now))
  }

  /** It starts full, pays for each grant and refills up to the cap. */
  ghost predicate HoldingOk(granted: seq<bool>, nows: seq<int>, p: nat, holds: seq<int>, m: nat)
    requires m < |holds| == |nows| == |granted|
  {
    if m == 0 then holds[0] == Cap(p)
    else
      var x := holds[m - 1] - (if granted[m - 1] then TOKEN else 0) + (nows[m] - nows[m - 1]) * p;
      holds[m] == if x > Cap(p) then Cap(p) else x
  }

  ghost predicate HoldingsOk(granted: seq<bool>, nows: seq<int>, p: nat, holds: seq<int>) {
    |holds| == |nows| == |granted| && forall m | 0 <= m < |holds| :: HoldingOk(granted, nows, p, holds, m)
  }

  lemma ReferenceHolds(cfg: Config, reqs: seq<Request>, key: string, m: nat)
    requires Monotone(reqs) && m < |reqs|
    ensures HoldingOk(GrantsOf(cfg, reqs, key), Times(reqs), Budget(cfg, key), Holdings(cfg, reqs, key), m)
  {
    if m == 0 {
      assert reqs[..0] == [];
    } else {
      AfterOne(cfg, reqs, key, m);
      AvailableLater(cfg, Reference(cfg, reqs[..m]), key, reqs[m - 1].now, reqs[m].now);
    }
  }

  /** There is a request since which the bucket has not been full: what it holds now is a full
      bucket, less what was granted since, plus what was refilled since. */
  lemma {:induction false} FullSince(granted: seq<bool>, nows: seq<int>, p: nat, holds: seq<int>, i: nat) returns (j: nat)
    requires HoldingsOk(granted, nows, p, holds) && i < |holds|
    ensures j <= i && holds[i] == Cap(p) - Tally(granted, j, i) * TOKEN + (nows[i] - nows[j]) * p
  {
    assert HoldingOk(granted, nows, p, holds, i);
    if holds[i] == Cap(p) {
      j := i;
    } else {
      j := FullSince(granted, nows, p, holds, i - 1);
      OneMoreToken(Tally(granted, j, i - 1));
      SplitTime(nows[j], nows[i - 1], nows[i], p);
    }
  }

  lemma SplitTime(a: int, b: int, c: int, p: nat)
    ensures (c - a) * p == (b - a) * p + (c - b) * p
  {
  }

  lemma AfterOne(cfg: Config, reqs: seq<Request>, key: string, n: nat)
    requires Monotone(reqs) && 0 < n <= |reqs|
    ensures var now := reqs[n - 1].now;
            && ReferenceOk(cfg, Reference(cfg, reqs[..n]), key, now)
            && Available(cfg, Reference(cfg, reqs[..n]), key, now)
               == Available(cfg, Reference(cfg, reqs[..n - 1]), key, now) - if GrantsOf(cfg, reqs, key)[n - 1] then TOKEN else 0
  {
    assert reqs[..n][..n - 1] == reqs[..n - 1];
    ReferenceStaysOk(cfg, reqs, key, n);
    if n > 1 {
      ReferenceStaysOk(cfg, reqs, key, n - 1);
      AvailableGrows(cfg, Reference(cfg, reqs[..n - 1]), key, reqs[n - 2].now, reqs[n - 1].now);
    }
    ReferenceRequest(cfg, Reference(cfg, reqs[..n - 1]), key, reqs[n - 1]);
  }

  /** `granted` and one more fit into `w` nanoseconds at `p` a minute. */
  predicate Fits(granted: nat, w: int, p: nat) {
    (granted + 1) * TOKEN <= (TOKEN + w) * p
  }

  lemma GrantNeedsAToken(cfg: Config, reqs: seq<Request>, i: nat)
    requires Monotone(reqs) && i < |reqs|
    ensures ReferenceDecision(cfg, reqs, i) <==> Available(cfg, Reference(cfg, reqs[..i]), reqs[i].key, reqs[i].now) >= TOKEN
  {
    var key := reqs[i].key;
    if i > 0 {
      ReferenceStaysOk(cfg, reqs, key, i);
      AvailableGrows(cfg, Reference(cfg, reqs[..i]), key, reqs[i - 1].now, reqs[i].now);
    }
    ReferenceRequest(cfg, Reference(cfg, reqs[..i]), key, reqs[i]);
  }

  lemma GrantFits(cfg: Config, reqs: seq<Request>, j: nat, i: nat)
    requires Monotone(reqs) && j <= i < |reqs| && ReferenceDecision(cfg, reqs, i)
    ensures Fits(Granted(cfg, reqs, reqs[i].key, j, i), reqs[i].now - reqs[j].now, Budget(cfg, reqs[i].key))
  {
    ReferenceBound(cfg, reqs, reqs[i].key, j, i + 1);
    assert GrantsOf(cfg, reqs, reqs[i].key)[i];
  }

  lemma RefusalIsDue(cfg: Config, reqs: seq<Request>, i: nat) returns (j: nat)
    requires Monotone(reqs) && i < |reqs| && !ReferenceDecision(cfg, reqs, i)
    ensures j <= i && !Fits(Granted(cfg, reqs, reqs[i].key, j, i), reqs[i].now - reqs[j].now, Budget(cfg, reqs[i].key))
  {
    var key := reqs[i].key;
    var granted, nows, p, holds := GrantsOf(cfg, reqs, key), Times(reqs), Budget(cfg, key), Holdings(cfg, reqs, key);
    forall m | 0 <= m < |holds| ensures HoldingOk(granted, nows, p, holds, m) {
      ReferenceHolds(cfg, reqs, key, m);
    }
    GrantNeedsAToken(cfg, reqs, i);
    j := FullSince(granted, nows, p, holds, i);
    TooFew(Tally(granted, j, i), nows[i] - nows[j], p, holds[i]);
  }

  lemma TooFew(granted: nat, w: int, p: nat, holds: int)
    requires holds == Cap(p) - granted * TOKEN + w * p && holds < TOKEN
    ensures !Fits(granted, w, p)
  {
    OneMoreToken(granted);
    assert (TOKEN + w) * p == Cap(p) + w * p;
  }

  // === The limiter, by windows ================================================

  /** With request `i`, the window from request `j` on would still keep a budget of `p`. */
  ghost predicate WindowFits(cfg: Config, max: nat, reqs: seq<Request>, p: nat, j: nat, i: nat)
    requires j <= i < |reqs|
  {
    Fits(Admitted(cfg, max, reqs, reqs[i].key, j, i), reqs[i].now - reqs[j].now, p)
  }

  lemma WindowShifts(cfg: Config, max: nat, reqs: seq<Request>, s: nat, j: nat, i: nat, p: nat)
    requires Monotone(reqs) && s <= j <= i < |reqs| && NotFailedOpen(cfg, max, reqs, s, i, reqs[i].key)
    requires reqs[i].key !in Table(cfg, max, reqs[..s]).buckets
    ensures WindowFits(cfg, max, reqs, p, j, i) <==>
            Fits(Granted(cfg, reqs[s..], reqs[i].key, j - s, i - s), reqs[i].now - reqs[j].now, p)
  {
    AdmittedIsGranted(cfg, max, reqs, reqs[i].key, s, j, i);
  }

  lemma SuffixGrantFits(cfg: Config, reqs: seq<Request>, s: nat, j: nat, i: nat)
    requires Monotone(reqs) && s <= j <= i < |reqs| && ReferenceDecision(cfg, reqs[s..], i - s)
    ensures Fits(Granted(cfg, reqs[s..], reqs[i].key, j - s, i - s), reqs[i].now - reqs[j].now, Budget(cfg, reqs[i].key))
  {
    SuffixIsMonotone(reqs, s);
    GrantFits(cfg, reqs[s..], j - s, i - s);
  }

  lemma SuffixRefusalIsDue(cfg: Config, reqs: seq<Request>, s: nat, i: nat) returns (j: nat)
    requires Monotone(reqs) && s <= i < |reqs| && !ReferenceDecision(cfg, reqs[s..], i - s)
    ensures s <= j <= i
    ensures !Fits(Granted(cfg, reqs[s..], reqs[i].key, j - s, i - s), reqs[i].now - reqs[j].now, Budget(cfg, reqs[i].key))
  {
    SuffixIsMonotone(reqs, s);
    var k := RefusalIsDue(cfg, reqs[s..], i - s);
    j := s + k;
  }

  lemma GrantedFits(cfg: Config, max: nat, reqs: seq<Request>, s: nat, j: nat, i: nat, p: nat)
    requires Monotone(reqs) && s <= j <= i < |reqs| && p == Budget(cfg, reqs[i].key)
    requires NotFailedOpen(cfg, max, reqs, s, i, reqs[i].key) && reqs[i].key !in Table(cfg, max, reqs[..s]).buckets
    requires ReferenceDecision(cfg, reqs[s..], i - s)
    ensures WindowFits(cfg, max, reqs, p, j, i)
  {
    SuffixGrantFits(cfg, reqs, s, j, i);
    WindowShifts(cfg, max, reqs, s, j, i, p);
  }

  lemma RefusedIsOver(cfg: Config, max: nat, reqs: seq<Request>, s: nat, i: nat, p: nat) returns (j: nat)
    requires Monotone(reqs) && s <= i < |reqs| && p == Budget(cfg, reqs[i].key)
    requires NotFailedOpen(cfg, max, reqs, s, i, reqs[i].key) && reqs[i].key !in Table(cfg, max, reqs[..s]).buckets
    requires !ReferenceDecision(cfg, reqs[s..], i - s)
    ensures s <= j <= i && !WindowFits(cfg, max, reqs, p, j, i)
  {
    j := SuffixRefusalIsDue(cfg, reqs, s, i);
    WindowShifts(cfg, max, reqs, s, j, i, p);
  }

  /** Request `i` keeps the budget `p` in every window from request `s` or later on. */
  ghost predicate AllWindowsFit(cfg: Config, max: nat, reqs: seq<Request>, p: nat, s: nat, i: nat)
    requires s <= i < |reqs|
  {
    forall j | s <= j <= i :: WindowFits(cfg, max, reqs, p, j, i)
  }

  lemma ReferenceByWindows(cfg: Config, max: nat, reqs: seq<Request>, s: nat, i: nat, p: nat)
    requires Monotone(reqs) && s <= i < |reqs| && p == Budget(cfg, reqs[i].key)
    requires NotFailedOpen(cfg, max, reqs, s, i, reqs[i].key) && reqs[i].key !in Table(cfg, max, reqs[..s]).buckets
    ensures ReferenceDecision(cfg, reqs[s..], i - s) <==> AllWindowsFit(cfg, max, reqs, p, s, i)
  {
    if ReferenceDecision(cfg, reqs[s..], i - s) {
      forall j | s <= j <= i ensures WindowFits(cfg, max, reqs, p, j, i) {
        GrantedFits(cfg, max, reqs, s, j, i, p);
      }
    } else {
      var j := RefusedIsOver(cfg, max, reqs, s, i, p);
    }
  }

  /** A request passes exactly when it is failed open or keeps the budget it counts against in
      every window since its key's last fail-open. */
  lemma PassesExactly(cfg: Config, max: nat, reqs: seq<Request>, i: nat, p: nat)
    requires Monotone(reqs) && i < |reqs| && p == Budget(cfg, reqs[i].key)
    ensures Decision(cfg, max, reqs, i) <==>
            || FailedOpen(cfg, max, reqs, i)
            || AllWindowsFit(cfg, max, reqs, p, SinceFailOpen(cfg, max, reqs, i, reqs[i].key), i)
  {
    DecidesAsSinceFailOpen(cfg, max, reqs, i);
    NoBucketAfter(cfg, max, reqs, i, reqs[i].key);
    ReferenceByWindows(cfg, max, reqs, SinceFailOpen(cfg, max, reqs, i, reqs[i].key), i, p);
  }

  // === A fresh key ============================================================

  /** The key's own requests. */
  function OwnOf(reqs: seq<Request>, key: string): seq<bool> {
    seq(|reqs|, i requires 0 <= i < |reqs| => reqs[i].key == key)
  }

  lemma {:induction false} TallyAtMost(f: seq<bool>, g: seq<bool>, i: nat, j: nat)
    requires i <= j <= |f| && j <= |g| && forall m | i <= m < j :: f[m] ==> g[m]
    ensures Tally(f, i, j) <= Tally(g, 0, j)
    decreases j
  {
    if i < j {
      TallyAtMost(f, g, i, j - 1);
    }
  }

  /** The first requests of a key, as many as its budget, all pass. */
  lemma FirstRequestsPass(cfg: Config, max: nat, reqs: seq<Request>, i: nat, p: nat)
    requires Monotone(reqs) && i < |reqs| && p == Budget(cfg, reqs[i].key)
    requires Tally(OwnOf(reqs, reqs[i].key), 0, i) < p
    ensures Decision(cfg, max, reqs, i)
  {
    var s := SinceFailOpen(cfg, max, reqs, i, reqs[i].key);
    PassesExactly(cfg, max, reqs, i, p);
    forall j | s <= j <= i ensures WindowFits(cfg, max, reqs, p, j, i) {
      FewerThanBudget(cfg, max, reqs, j, i, p);
    }
    assert AllWindowsFit(cfg, max, reqs, p, s, i);
  }

  lemma FewerThanBudget(cfg: Config, max: nat, reqs: seq<Request>, j: nat, i: nat, p: nat)
    requires Monotone(reqs) && j <= i < |reqs| && Tally(OwnOf(reqs, reqs[i].key), 0, i) < p
    ensures WindowFits(cfg, max, reqs, p, j, i)
  {
    TallyAtMost(AdmissionsOf(cfg, max, reqs, reqs[i].key), OwnOf(reqs, reqs[i].key), j, i);
    FewFit(Admitted(cfg, max, reqs, reqs[i].key, j, i), reqs[i].now - reqs[j].now, p);
  }

  lemma FewFit(granted: nat, w: int, p: nat)
    requires granted < p && w >= 0
    ensures Fits(granted, w, p)
  {
    MulMono(granted + 1, p, TOKEN);
    MulMono(TOKEN, TOKEN + w, p);
  }

  function KeysSeen(reqs: seq<Request>): set<string> {
    set i | 0 <= i < |reqs| :: reqs[i].key
  }

  lemma {:induction false} BucketsAreOfKeysSeen(cfg: Config, max: nat, reqs: seq<Request>)
    ensures Table(cfg, max, reqs).buckets.Keys <= KeysSeen(reqs)
  {
    if reqs != [] {
      var n := |reqs| - 1;
      BucketsAreOfKeysSeen(cfg, max, reqs[..n]);
      assert KeysSeen(reqs[..n]) <= KeysSeen(reqs) && reqs[n].key in KeysSeen(reqs) by {
        forall k | k in KeysSeen(reqs[..n]) ensures k in KeysSeen(reqs) {
          var i :| 0 <= i < n && reqs[..n][i].key == k;
          assert reqs[i].key == k;
        }
      }
    }
  }

  /** As long as fewer keys than the cap have been seen, nothing is failed open. */
  lemma RoomForAll(cfg: Config, max: nat, reqs: seq<Request>, i: nat)
    requires i < |reqs| && |KeysSeen(reqs[..i])| < max
    ensures !FailedOpen(cfg, max, reqs, i)
  {
    var l := Table(cfg, max, reqs[..i]);
    BucketsAreOfKeysSeen(cfg, max, reqs[..i]);
    MapNeverExceedsCap(cfg, max, reqs[..i]);
    SubsetIsSmaller(Swept(l, reqs[i].now).buckets.Keys, KeysSeen(reqs[..i]));
  }
}
