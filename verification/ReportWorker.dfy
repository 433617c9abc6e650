/** The worker's loop over the queue: what one tick does, and why every report gets done. */
module ReportWorker {
  import opened Options
  import opened ReportQueue

  /** Everything outside the worker's control in one tick. */
  datatype Weather = Weather(sweep: Fate, claim: Fate, render: Rendered, ready: Fate, failed: Fate)
  datatype Rendered = RenderFails | Renders(pdf: Pdf, put: Fate)

  predicate HasClaimable(reports: seq<Report>) {
    exists i | 0 <= i < |reports| :: Claimable(reports[i])
  }

  predicate Fits(s: State, w: Weather, pick: nat)
    requires s.worker.Idle?
  {
    var swept := Apply(s, Sweep(w.sweep)).reports;
    HasClaimable(swept) ==> IsOldest(swept, pick)
  }

  function AfterPut(s: State, w: Weather): State
    requires s.worker.Rendering? && s.worker.id < |s.reports|
  {
    match w.render
    case RenderFails => Apply(s, RenderError)
    case Renders(pdf, put) => Apply(s, Put(pdf, put))
  }

  /** worker.go:131-188 from a claimed row on. */
  function AfterRender(s: State, w: Weather): State
    requires s.worker.Rendering? && s.worker.id < |s.reports|
  {
    var s1 := AfterPut(s, w);
    if s1.worker.Uploaded? then Apply(s1, MarkReady(w.ready)) else s1
  }

  /** worker.go:104-124: the last allowed attempt that failed is marked. */
  function AfterFailure(s: State, w: Weather): State
    requires s.worker.RenderFailed? ==> s.worker.id < |s.reports|
  {
    if !s.worker.RenderFailed? then s
    else if s.worker.attempts >= MAX_ATTEMPTS then Apply(s, MarkFailed(w.failed))
    else Apply(s, LeaveForRetry)
  }

  /** One uninterrupted tick and whether it reports a processed row. */
  function Tick(s: State, w: Weather, pick: nat): (State, bool)
    requires s.worker.Idle? && Fits(s, w, pick)
  {
    var s1 := Apply(s, Sweep(w.sweep));
    if !HasClaimable(s1.reports) then (Apply(s1, NothingToClaim), false)
    else
      var s2 := Apply(s1, Claim(pick, w.claim));
      if !w.claim.Landed? then (s2, false) else (AfterFailure(AfterRender(s2, w), w), true)
  }

  // === What a tick does to the rows ===========================================

  /** The render got as far as an upload that was answered. */
  predicate Uploads(w: Weather) {
    w.render.Renders? && w.render.put.Landed?
  }

  /** The row a tick has claimed, before and after it: ready under its own key once the upload and
      the mark are through; else one attempt poorer, and failed when that was the third and the
      failure could be marked. */
  ghost predicate RowRendered(r: Report, r': Report, i: nat, w: Weather) {
    if Uploads(w) && !w.ready.Lost? then
      r' == r.(attempts := r.attempts + 1, status := Ready, key := Some(ReportKey(r.tenant, i)))
    else if r.attempts + 1 == 3 && !w.failed.Lost? then r' == r.(attempts := 3, status := Failed)
    else r' == r.(attempts := r.attempts + 1)
  }

  /** Any other row: failed when its attempts were used up and the sweep went through, else as it was. */
  ghost predicate RowLeft(r: Report, r': Report, w: Weather) {
    if r.status == Generating && r.attempts >= 3 && !w.sweep.Lost? then r' == r.(status := Failed) else r' == r
  }

  /** The store: this tick's PDF under the claimed row's key, if its upload went through. */
  ghost predicate StoreAfter(s: State, s': State, i: nat, w: Weather)
    requires i < |s.reports|
  {
    if w.render.Renders? && !w.render.put.Lost? then s'.store == s.store[ReportKey(s.reports[i].tenant, i) := w.render.pdf]
    else s'.store == s.store
  }

  ghost predicate MayBeClaimed(s: State, j: int) {
    0 <= j < |s.reports| && s.reports[j].status == Generating && s.reports[j].attempts < 3
  }

  /** The rendered row right after the mark, and before any failure is marked. */
  ghost predicate RowMarked(r: Report, r': Report, i: nat, w: Weather) {
    if Uploads(w) && !w.ready.Lost? then r' == r.(status := Ready, key := Some(ReportKey(r.tenant, i))) else r' == r
  }

  lemma RenderWrites(s: State, w: Weather, i: nat)
    requires Inv(s) && s.worker.Rendering? && s.worker.id == i < |s.reports|
    ensures var s' := AfterRender(s, w);
            && |s'.reports| == |s.reports| && RowMarked(s.reports[i], s'.reports[i], i, w)
            && (forall j | 0 <= j < |s.reports| && j != i :: s'.reports[j] == s.reports[j])
            && StoreAfter(s, s', i, w)
            && (s'.worker.RenderFailed? <==> !(Uploads(w) && w.ready.Landed?))
  {
  }

  lemma RenderOutcome(s: State, w: Weather, i: nat)
    requires Inv(s) && s.worker.Rendering? && s.worker.id == i < |s.reports|
    ensures var r, s' := s.reports[i], AfterFailure(AfterRender(s, w), w);
            && |s'.reports| == |s.reports|
            && (forall j | 0 <= j < |s.reports| && j != i :: s'.reports[j] == s.reports[j])
            && StoreAfter(s, s', i, w)
            && s'.reports[i] == (if Uploads(w) && !w.ready.Lost? then r.(status := Ready, key := Some(ReportKey(r.tenant, i)))
                                 else if r.attempts >= 3 && !w.failed.Lost? then r.(status := Failed) else r)
  {
  }

  lemma ClaimOutcome(s: State, w: Weather, pick: nat)
    requires Inv(s) && s.worker.Idle? && Fits(s, w, pick) && HasClaimable(Apply(s, Sweep(w.sweep)).reports) && w.claim.Landed?
    ensures var s2 := Apply(Apply(s, Sweep(w.sweep)), Claim(pick, w.claim));
            && pick < |s.reports| == |s2.reports| && s2.worker == Rendering(pick, s.reports[pick].attempts + 1)
            && s.reports[pick].status == Generating && s.reports[pick].attempts < 3
            && s2.reports[pick] == s.reports[pick].(attempts := s.reports[pick].attempts + 1) && s2.store == s.store
            && (forall j | 0 <= j < |s.reports| && j != pick :: RowLeft(s.reports[j], s2.reports[j], w))
            && (forall j | 0 <= j < |s.reports| && s.reports[j].status == Generating && s.reports[j].attempts < 3 ::
                  s.reports[pick].createdAt <= s.reports[j].createdAt)
  {
    var s1 := Apply(s, Sweep(w.sweep));
    assert |s1.reports| == |s.reports|;
    forall j | 0 <= j < |s.reports| ensures s1.reports[j] == if w.sweep.Lost? then s.reports[j] else SweepRow(s.reports[j]) {
    }
  }

  /** The claimed row is an oldest one that may be claimed; it and every other row, and the store,
      end as said above. */
  lemma TickOutcome(s: State, w: Weather, pick: nat)
    requires Inv(s) && s.worker.Idle? && Fits(s, w, pick) && Tick(s, w, pick).1
    ensures var s' := Tick(s, w, pick).0;
            && pick < |s.reports| == |s'.reports| && s.reports[pick].status == Generating && s.reports[pick].attempts < 3
            && (forall j | 0 <= j < |s.reports| && s.reports[j].status == Generating && s.reports[j].attempts < 3 ::
                  s.reports[pick].createdAt <= s.reports[j].createdAt)
            && RowRendered(s.reports[pick], s'.reports[pick], pick, w)
            && (forall j | 0 <= j < |s.reports| && j != pick :: RowLeft(s.reports[j], s'.reports[j], w))
            && StoreAfter(s, s', pick, w)
  {
    var s1 := Apply(s, Sweep(w.sweep));
    var s2 := Apply(s1, Claim(pick, w.claim));
    StepKeepsInv(s, Sweep(w.sweep));
    StepKeepsInv(s1, Claim(pick, w.claim));
    ClaimOutcome(s, w, pick);
    RenderOutcome(s2, w, pick);
  }

  /** A tick that reports no progress writes nothing but what the sweep does, unless its claim
      landed and was not heard of: that costs an oldest claimable row one attempt. One whose sweep
      and claim go through makes progress whenever a row may be claimed. */
  lemma IdleOutcome(s: State, w: Weather, pick: nat)
    requires Inv(s) && s.worker.Idle? && Fits(s, w, pick) && !Tick(s, w, pick).1
    ensures var s' := Tick(s, w, pick).0;
            && |s'.reports| == |s.reports| && s'.store == s.store
            && (!w.claim.Misreported? || !(exists j :: MayBeClaimed(s, j)) ==>
                  forall j | 0 <= j < |s.reports| :: RowLeft(s.reports[j], s'.reports[j], w))
            && (w.claim.Misreported? && (exists j :: MayBeClaimed(s, j)) ==>
                  && MayBeClaimed(s, pick) && s'.reports[pick] == s.reports[pick].(attempts := s.reports[pick].attempts + 1)
                  && (forall j | MayBeClaimed(s, j) :: s.reports[pick].createdAt <= s.reports[j].createdAt)
                  && (forall j | 0 <= j < |s.reports| && j != pick :: RowLeft(s.reports[j], s'.reports[j], w)))
            && (w.claim.Landed? ==> forall j | 0 <= j < |s.reports| :: !(s.reports[j].status == Generating && s.reports[j].attempts < 3))
  {
    var s1 := Apply(s, Sweep(w.sweep));
    forall j | 0 <= j < |s.reports|
      ensures RowLeft(s.reports[j], s1.reports[j], w) && (Claimable(s1.reports[j]) <==> MayBeClaimed(s, j))
      ensures MayBeClaimed(s, j) ==> s1.reports[j] == s.reports[j]
    {
    }
    if w.claim.Landed? {
      forall j | 0 <= j < |s.reports| ensures !(s.reports[j].status == Generating && s.reports[j].attempts < 3) {
        assert !Claimable(s1.reports[j]);
      }
    }
  }

  // === Crashes ================================================================

  /** Where a crash ends a tick, if one does. */
  datatype Cut = BeforeClaim | BeforeRender | BeforeReady | BeforeFailed | Never

  /** From a claimed row on, up to the crash. */
  function CutRender(s: State, w: Weather, cut: Cut): State
    requires s.worker.Rendering? && s.worker.id < |s.reports|
  {
    match cut
    case BeforeReady => Apply(AfterPut(s, w), Crash)
    case BeforeFailed => Apply(AfterRender(s, w), Crash)
    case Never => AfterFailure(AfterRender(s, w), w)
    case _ => Apply(s, Crash)
  }

  /** A tick up to the crash, which puts the next process back to its start. */
  function CutTick(s: State, w: Weather, pick: nat, cut: Cut): State
    requires s.worker.Idle? && Fits(s, w, pick)
  {
    var s1 := Apply(s, Sweep(w.sweep));
    if cut.BeforeClaim? then Apply(s1, Crash)
    else if !HasClaimable(s1.reports) then Apply(s1, NothingToClaim)
    else
      var s2 := Apply(s1, Claim(pick, w.claim));
      if w.claim.Landed? then CutRender(s2, w, cut) else s2
  }

  /** The errors that would have done what the crash did. */
  function AsErrors(w: Weather, cut: Cut): Weather {
    match cut
    case BeforeClaim => w.(claim := Lost)
    case BeforeRender => w.(render := RenderFails, failed := Lost)
    case BeforeReady => w.(ready := Lost, failed := Lost)
    case BeforeFailed => w.(failed := Lost)
    case Never => w
  }

  lemma CutRenderIsErrors(s: State, w: Weather, cut: Cut)
    requires s.worker.Rendering? && s.worker.id < |s.reports| && !cut.BeforeClaim?
    ensures CutRender(s, w, cut) == AfterFailure(AfterRender(s, AsErrors(w, cut)), AsErrors(w, cut))
  {
  }

  /** A crashed tick leaves the queue as a whole tick with lost writes would. */
  lemma CrashIsErrors(s: State, w: Weather, pick: nat, cut: Cut)
    requires s.worker.Idle? && Fits(s, w, pick)
    ensures Fits(s, AsErrors(w, cut), pick)
    ensures CutTick(s, w, pick, cut) == Tick(s, AsErrors(w, cut), pick).0
  {
    var s1 := Apply(s, Sweep(w.sweep));
    if !cut.BeforeClaim? && HasClaimable(s1.reports) && w.claim.Landed? {
      CutRenderIsErrors(Apply(s1, Claim(pick, w.claim)), w, cut);
    }
  }

  // === The work that is left ==================================================

  /** Attempts a row may still use, for rows created no later than `bound` (all rows if None). */
  function Left(r: Report, bound: Option<int>): nat {
    if Claimable(r) && (bound.None? || r.createdAt <= bound.value) then MAX_ATTEMPTS - r.attempts else 0
  }

  function TotalLeft(reports: seq<Report>, bound: Option<int>): nat {
    if reports == [] then 0
    else TotalLeft(reports[..|reports| - 1], bound) + Left(reports[|reports| - 1], bound)
  }

  lemma {:induction false} TotalLeftMono(a: seq<Report>, b: seq<Report>, bound: Option<int>)
    requires |a| == |b| && forall i | 0 <= i < |a| :: Left(a[i], bound) <= Left(b[i], bound)
    ensures TotalLeft(a, bound) <= TotalLeft(b, bound)
    ensures (exists i :: 0 <= i < |a| && Left(a[i], bound) < Left(b[i], bound)) ==> TotalLeft(a, bound) < TotalLeft(b, bound)
  {
    if a != [] {
      var n := |a| - 1;
      TotalLeftMono(a[..n], b[..n], bound);
      if i :| 0 <= i < n && Left(a[i], bound) < Left(b[i], bound) {
        assert Left(a[..n][i], bound) < Left(b[..n][i], bound);
      }
    }
  }

  /** What one row goes through in a tick. */
  ghost predicate RowAdvances(r: Report, r': Report) {
    && r'.createdAt == r.createdAt && r'.attempts >= r.attempts
    && (r.status != Generating ==> r' == r)
  }

  lemma RenderAdvances(s: State, w: Weather, i: nat)
    requires Inv(s) && s.worker.Rendering? && i < |s.reports|
    ensures var s' := AfterRender(s, w);
            && |s'.reports| == |s.reports| && RowAdvances(s.reports[i], s'.reports[i])
            && s'.reports[i].attempts == s.reports[i].attempts
            && (s'.worker.RenderFailed? ==> s'.worker.id < |s.reports|)
  {
  }

  lemma FailureAdvances(s: State, w: Weather, i: nat)
    requires (s.worker.RenderFailed? ==> s.worker.id < |s.reports|) && i < |s.reports|
    ensures var s' := AfterFailure(s, w);
            && |s'.reports| == |s.reports| && RowAdvances(s.reports[i], s'.reports[i])
            && s'.reports[i].attempts == s.reports[i].attempts
  {
  }

  lemma RowsAdvance(s: State, w: Weather, pick: nat, i: nat)
    requires Inv(s) && s.worker.Idle? && Fits(s, w, pick) && i < |s.reports|
    ensures var s' := Tick(s, w, pick).0;
            && |s'.reports| == |s.reports| && RowAdvances(s.reports[i], s'.reports[i])
            && (Tick(s, w, pick).1 && i == pick ==> s'.reports[i].attempts == s.reports[i].attempts + 1)
  {
    var s1 := Apply(s, Sweep(w.sweep));
    if HasClaimable(s1.reports) && w.claim.Landed? {
      StepKeepsInv(s, Sweep(w.sweep));
      StepKeepsInv(s1, Claim(pick, w.claim));
      var s2 := Apply(s1, Claim(pick, w.claim));
      RenderAdvances(s2, w, i);
      FailureAdvances(AfterRender(s2, w), w, i);
    }
  }

  /** With a healthy sweep and claim, a tick reports progress when any report may be claimed. */
  lemma ClaimsIfPossible(s: State, w: Weather, pick: nat, i: nat)
    requires Inv(s) && s.worker.Idle? && Fits(s, w, pick) && w.claim.Landed?
    requires i < |s.reports| && Claimable(s.reports[i])
    ensures Tick(s, w, pick).1 && pick < |s.reports| && s.reports[pick].createdAt <= s.reports[i].createdAt
  {
    var swept := Apply(s, Sweep(w.sweep)).reports;
    assert Claimable(swept[i]) && HasClaimable(swept);
  }

  /** A report whose attempts are used up is failed by the sweep of the next healthy tick. */
  lemma SweptIfExhausted(s: State, w: Weather, pick: nat, i: nat)
    requires Inv(s) && s.worker.Idle? && Fits(s, w, pick) && w.sweep.Landed?
    requires i < |s.reports| && !Claimable(s.reports[i])
    ensures i < |Tick(s, w, pick).0.reports| && Tick(s, w, pick).0.reports[i].status != Generating
  {
    var s1 := Apply(s, Sweep(w.sweep));
    StepKeepsInv(s, Sweep(w.sweep));
    if HasClaimable(s1.reports) && w.claim.Landed? {
      StepKeepsInv(s1, Claim(pick, w.claim));
      var s2 := Apply(s1, Claim(pick, w.claim));
      RenderAdvances(s2, w, i);
      FailureAdvances(AfterRender(s2, w), w, i);
    }
  }

  lemma TickKeepsInv(s: State, w: Weather, pick: nat)
    requires Inv(s) && s.worker.Idle? && Fits(s, w, pick)
    ensures Inv(Tick(s, w, pick).0) && Tick(s, w, pick).0.worker.Idle?
  {
    var s1 := Apply(s, Sweep(w.sweep));
    StepKeepsInv(s, Sweep(w.sweep));
    if HasClaimable(s1.reports) {
      var s2 := Apply(s1, Claim(pick, w.claim));
      StepKeepsInv(s1, Claim(pick, w.claim));
      if w.claim.Landed? {
        RenderKeepsInv(s2, w);
        FailureKeepsInv(AfterRender(s2, w), w);
      }
    } else {
      StepKeepsInv(s1, NothingToClaim);
    }
  }

  lemma RenderKeepsInv(s: State, w: Weather)
    requires Inv(s) && s.worker.Rendering?
    ensures Inv(AfterRender(s, w)) && (AfterRender(s, w).worker.Idle? || AfterRender(s, w).worker.RenderFailed?)
  {
    match w.render
    case RenderFails => StepKeepsInv(s, RenderError);
    case Renders(pdf, put) =>
      StepKeepsInv(s, Put(pdf, put));
      if put.Landed? { StepKeepsInv(Apply(s, Put(pdf, put)), MarkReady(w.ready)); }
  }

  lemma FailureKeepsInv(s: State, w: Weather)
    requires Inv(s) && (s.worker.Idle? || s.worker.RenderFailed?)
    ensures Inv(AfterFailure(s, w)) && AfterFailure(s, w).worker.Idle?
  {
    if s.worker.RenderFailed? {
      StepKeepsInv(s, if s.worker.attempts >= MAX_ATTEMPTS then MarkFailed(w.failed) else LeaveForRetry);
    }
  }

  lemma TickKeepsRows(s: State, w: Weather, pick: nat)
    requires Inv(s) && s.worker.Idle? && Fits(s, w, pick)
    ensures |Tick(s, w, pick).0.reports| == |s.reports|
    ensures forall i | 0 <= i < |s.reports| :: RowAdvances(s.reports[i], Tick(s, w, pick).0.reports[i])
  {
    if s.reports != [] { RowsAdvance(s, w, pick, 0); }
    forall i | 0 <= i < |s.reports| ensures RowAdvances(s.reports[i], Tick(s, w, pick).0.reports[i]) {
      RowsAdvance(s, w, pick, i);
    }
  }

  lemma ProgressUsesAnAttempt(s: State, w: Weather, pick: nat)
    requires Inv(s) && s.worker.Idle? && Fits(s, w, pick) && Tick(s, w, pick).1
    ensures pick < |s.reports| && Claimable(s.reports[pick]) && pick < |Tick(s, w, pick).0.reports|
    ensures Tick(s, w, pick).0.reports[pick].attempts == s.reports[pick].attempts + 1
  {
    RowsAdvance(s, w, pick, pick);
  }

  /** No tick adds work, for any bound on the creation time. */
  lemma TickNeverAddsWork(s: State, w: Weather, pick: nat, bound: Option<int>)
    requires Inv(s) && s.worker.Idle? && Fits(s, w, pick)
    ensures |Tick(s, w, pick).0.reports| == |s.reports|
    ensures TotalLeft(Tick(s, w, pick).0.reports, bound) <= TotalLeft(s.reports, bound)
    ensures Tick(s, w, pick).1 && (bound.None? || s.reports[pick].createdAt <= bound.value) ==>
              TotalLeft(Tick(s, w, pick).0.reports, bound) < TotalLeft(s.reports, bound)
  {
    var after := Tick(s, w, pick).0.reports;
    TickKeepsRows(s, w, pick);
    forall i | 0 <= i < |s.reports| ensures Left(after[i], bound) <= Left(s.reports[i], bound) {
      assert RowAdvances(s.reports[i], after[i]);
    }
    TotalLeftMono(after, s.reports, bound);
    if Tick(s, w, pick).1 {
      ProgressUsesAnAttempt(s, w, pick);
      assert RowAdvances(s.reports[pick], after[pick]);
    }
  }

  /** Every tick that reports progress strictly decreases the attempts left over all rows. */
  lemma ProgressDecreasesWork(s: State, w: Weather, pick: nat)
    requires Inv(s) && s.worker.Idle? && Fits(s, w, pick) && Tick(s, w, pick).1
    ensures TotalLeft(Tick(s, w, pick).0.reports, None) < TotalLeft(s.reports, None)
  {
    TickNeverAddsWork(s, w, pick, None);
  }

  // === A report is terminal after a bounded number of ticks ===================

  /** Reports enqueued before a tick, then the tick, which a crash may cut. */
  datatype Round = Round(enqueued: seq<(TenantId, int)>, weather: Weather, pick: nat, cut: Cut)

  function EnqueueAll(s: State, e: seq<(TenantId, int)>): State
    ensures EnqueueAll(s, e).worker == s.worker
  {
    if e == [] then s else Apply(EnqueueAll(s, e[..|e| - 1]), Enqueue(e[|e| - 1].0, e[|e| - 1].1))
  }

  lemma {:induction false} EnqueueAllKeeps(s: State, e: seq<(TenantId, int)>, bound: int)
    requires Inv(s) && forall x | x in e :: x.1 > bound
    ensures Inv(EnqueueAll(s, e)) && s.reports <= EnqueueAll(s, e).reports
    ensures TotalLeft(EnqueueAll(s, e).reports, Some(bound)) == TotalLeft(s.reports, Some(bound))
  {
    if e != [] {
      var n := |e| - 1;
      EnqueueAllKeeps(s, e[..n], bound);
      var s1 := EnqueueAll(s, e[..n]);
      StepKeepsInv(s1, Enqueue(e[n].0, e[n].1));
      var r := Report(e[n].0, e[n].1, Generating, 0, None);
      assert (s1.reports + [r])[..|s1.reports|] == s1.reports;
    }
  }

  /** Each tick claims an oldest row, if it claims one, and only younger reports join the queue. */
  ghost predicate Possible(s: State, rounds: seq<Round>, bound: int)
    requires s.worker.Idle?
    decreases |rounds|
  {
    rounds == [] ||
    (var r := rounds[0]; var s1 := EnqueueAll(s, r.enqueued);
     && (forall x | x in r.enqueued :: x.1 > bound)
     && Fits(s1, r.weather, r.pick) && CutTick(s1, r.weather, r.pick, r.cut).worker.Idle?
     && Possible(CutTick(s1, r.weather, r.pick, r.cut), rounds[1..], bound))
  }

  function RunRounds(s: State, rounds: seq<Round>, bound: int): State
    requires s.worker.Idle? && Possible(s, rounds, bound)
    decreases |rounds|
  {
    if rounds == [] then s
    else
      var r := rounds[0];
      RunRounds(CutTick(EnqueueAll(s, r.enqueued), r.weather, r.pick, r.cut), rounds[1..], bound)
  }

  /** The tick's sweep and claim went through. */
  predicate Serves(r: Round) {
    r.weather.sweep.Landed? && r.weather.claim.Landed? && !r.cut.BeforeClaim?
  }

  function Serving(rounds: seq<Round>): nat {
    if rounds == [] then 0 else (if Serves(rounds[0]) then 1 else 0) + Serving(rounds[1..])
  }

  /** In a tick whose sweep and claim go through a generating report either ends, or work no younger than it is done. */
  lemma OlderWorkFirst(s: State, w: Weather, pick: nat, i: nat)
    requires Inv(s) && s.worker.Idle? && Fits(s, w, pick) && w.sweep.Landed? && w.claim.Landed?
    requires i < |s.reports|
    ensures var s' := Tick(s, w, pick).0;
            && |s'.reports| == |s.reports| && s'.reports[i].createdAt == s.reports[i].createdAt
            && (s'.reports[i].status != Generating
                || TotalLeft(s'.reports, Some(s.reports[i].createdAt)) < TotalLeft(s.reports, Some(s.reports[i].createdAt)))
  {
    RowsAdvance(s, w, pick, i);
    TickNeverAddsWork(s, w, pick, Some(s.reports[i].createdAt));
    if Claimable(s.reports[i]) {
      ClaimsIfPossible(s, w, pick, i);
    } else {
      SweptIfExhausted(s, w, pick, i);
    }
  }

  /** A tick, cut or not, keeps the invariant, adds no work, and leaves a report that has ended as
      it is; one that got through sweep and claim ends the report or does work no younger. */
  lemma CutTickAdvances(s: State, r: Round, i: nat)
    requires Inv(s) && s.worker.Idle? && Fits(s, r.weather, r.pick) && i < |s.reports|
    ensures var s', at := CutTick(s, r.weather, r.pick, r.cut), s.reports[i].createdAt;
            && Inv(s') && s'.worker.Idle? && i < |s'.reports| && s'.reports[i].createdAt == at
            && TotalLeft(s'.reports, Some(at)) <= TotalLeft(s.reports, Some(at))
            && (s.reports[i].status != Generating ==> s'.reports[i].status != Generating)
            && (Serves(r) ==> s'.reports[i].status != Generating
                              || TotalLeft(s'.reports, Some(at)) < TotalLeft(s.reports, Some(at)))
  {
    var w := AsErrors(r.weather, r.cut);
    CrashIsErrors(s, r.weather, r.pick, r.cut);
    TickKeepsInv(s, w, r.pick);
    RowsAdvance(s, w, r.pick, i);
    TickNeverAddsWork(s, w, r.pick, Some(s.reports[i].createdAt));
    if Serves(r) { OlderWorkFirst(s, w, r.pick, i); }
  }

  /** Whatever else fails or crashes, a report has ended when more ticks have got through sweep
      and claim than attempts were left for it and the reports no younger than it. */
  lemma {:induction false} TerminalAfter(s: State, rounds: seq<Round>, i: nat)
    requires Inv(s) && s.worker.Idle? && i < |s.reports|
    requires Possible(s, rounds, s.reports[i].createdAt)
    requires s.reports[i].status != Generating || Serving(rounds) > TotalLeft(s.reports, Some(s.reports[i].createdAt))
    ensures var s' := RunRounds(s, rounds, s.reports[i].createdAt);
            i < |s'.reports| && s'.reports[i].status != Generating
    decreases |rounds|
  {
    if rounds != [] {
      var r := rounds[0];
      var s1 := EnqueueAll(s, r.enqueued);
      EnqueueAllKeeps(s, r.enqueued, s.reports[i].createdAt);
      assert s1.reports[i] == s.reports[i];
      CutTickAdvances(s1, r, i);
      TerminalAfter(CutTick(s1, r.weather, r.pick, r.cut), rounds[1..], i);
    }
  }

  /** Rows still waiting that `ORDER BY created_at` may serve before row `i`. */
  function Ahead(reports: seq<Report>, i: nat, at: int): set<nat> {
    set j: nat | j < |reports| && j != i && Claimable(reports[j]) && reports[j].createdAt <= at
  }

  lemma {:induction false} WorkAheadBound(reports: seq<Report>, i: nat, at: int)
    ensures TotalLeft(reports, Some(at)) <= 3 * (|Ahead(reports, i, at)| + (if i < |reports| then 1 else 0))
  {
    if reports != [] {
      var n := |reports| - 1;
      WorkAheadBound(reports[..n], i, at);
      var small, big := Ahead(reports[..n], i, at), Ahead(reports, i, at);
      assert big == if n != i && Claimable(reports[n]) && reports[n].createdAt <= at then small + {n} else small;
    }
  }

  /**
   A report with k waiting reports no younger than it is ready or failed once 3(k + 1) + 1 ticks
   have got through their sweep and claim, whatever renders, uploads and marks do, wherever ticks
   crash, and however many others fail in between.
  */
  lemma DrainBound(s: State, rounds: seq<Round>, i: nat)
    requires Inv(s) && s.worker.Idle? && i < |s.reports|
    requires Possible(s, rounds, s.reports[i].createdAt)
    requires Serving(rounds) >= 3 * (|Ahead(s.reports, i, s.reports[i].createdAt)| + 1) + 1
    ensures var s' := RunRounds(s, rounds, s.reports[i].createdAt);
            i < |s'.reports| && s'.reports[i].status != Generating
  {
    WorkAheadBound(s.reports, i, s.reports[i].createdAt);
    TerminalAfter(s, rounds, i);
  }

  // === The worker itself ======================================================

  class RenderWorker {
    var db: State
    // Every state of the queue since it was empty.
    ghost var history: seq<State>

    ghost predicate Valid()
      reads this
    {
      IsRun(history) && history[|history| - 1] == db
    }

    constructor ()
      ensures Valid() && db.reports == [] && db.worker.Idle?
    {
      db := State([], map[], Idle, [], multiset{});
      history := [State([], map[], Idle, [], multiset{})];
    }

    method Do(st: Step)
      requires Valid() && Enabled(db, st)
      modifies this
      ensures Valid() && old(history) <= history && db == Apply(old(db), st)
    {
      assert Next(db, Apply(db, st));
      db := Apply(db, st);
      history := history + [db];
    }

    /** The subselect of ClaimNextReport: the first of the oldest claimable rows. */
    method FindOldest() returns (i: Option<nat>)
      ensures i.None? <==> !HasClaimable(db.reports)
      ensures i.Some? ==> IsOldest(db.reports, i.value)
    {
      i := None;
      for j := 0 to |db.reports|
        invariant i.None? ==> forall k | 0 <= k < j :: !Claimable(db.reports[k])
        invariant i.Some? ==>
                    && i.value < j && Claimable(db.reports[i.value])
                    && forall k | 0 <= k < j && Claimable(db.reports[k]) ::
                         db.reports[i.value].createdAt <= db.reports[k].createdAt
      {
        if Claimable(db.reports[j]) && (i.None? || db.reports[j].createdAt < db.reports[i.value].createdAt) {
          i := Some(j);
        }
      }
    }

    method Render(w: Weather)
      requires Valid() && db.worker.Rendering? && db.worker.id < |db.reports|
      modifies this
      ensures Valid() && old(history) <= history && db == AfterRender(old(db), w)
      ensures db.worker.RenderFailed? ==> db.worker.id < |db.reports|
      ensures var i := old(db).worker.id;
              && |db.reports| == |old(db).reports| && RowMarked(old(db).reports[i], db.reports[i], i, w) && StoreAfter(old(db), db, i, w)
              && (forall j | 0 <= j < |db.reports| && j != i :: db.reports[j] == old(db).reports[j])
      ensures db.worker.RenderFailed? <==> !(Uploads(w) && w.ready.Landed?)
    {
      RunKeepsInv(history, |history| - 1);
      RenderWrites(db, w, db.worker.id);
      match w.render
      case RenderFails => Do(RenderError);
      case Renders(pdf, put) =>
        Do(Put(pdf, put));
        if put.Landed? { Do(MarkReady(w.ready)); }
    }

    method Bookkeep(w: Weather)
      requires Valid() && (db.worker.RenderFailed? ==> db.worker.id < |db.reports|)
      modifies this
      ensures Valid() && old(history) <= history && db == AfterFailure(old(db), w)
      ensures |db.reports| == |old(db).reports| && db.store == old(db).store
      ensures forall j | 0 <= j < |db.reports| ::
                db.reports[j] == if old(db).worker.RenderFailed? && old(db).worker.id == j && old(db).worker.attempts >= 3
                                    && !w.failed.Lost? && old(db).reports[j].status == Generating
                                 then old(db).reports[j].(status := Failed) else old(db).reports[j]
    {
      if db.worker.RenderFailed? {
        Do(if db.worker.attempts >= MAX_ATTEMPTS then MarkFailed(w.failed) else LeaveForRetry);
      }
    }

    /** One tick; `pick` is the row it claimed, if it claimed one. */
    method TickOnce(w: Weather) returns (processed: bool, ghost pick: nat)
      requires Valid() && db.worker.Idle?
      modifies this
      ensures Valid() && old(history) <= history
      ensures Fits(old(db), w, pick) && (db, processed) == Tick(old(db), w, pick)
      // An oldest claimable row is rendered; no other row changes but by the sweep.
      ensures |db.reports| == |old(db).reports|
      ensures processed ==>
                && pick < |db.reports| && old(db).reports[pick].status == Generating && old(db).reports[pick].attempts < 3
                && (forall j | 0 <= j < |db.reports| && old(db).reports[j].status == Generating && old(db).reports[j].attempts < 3 ::
                      old(db).reports[pick].createdAt <= old(db).reports[j].createdAt)
                && RowRendered(old(db).reports[pick], db.reports[pick], pick, w) && StoreAfter(old(db), db, pick, w)
                && forall j | 0 <= j < |db.reports| && j != pick :: RowLeft(old(db).reports[j], db.reports[j], w)
      ensures !processed ==> db.store == old(db).store
      ensures !processed && w.claim.Landed? ==>
                forall j | 0 <= j < |db.reports| ::
                  && RowLeft(old(db).reports[j], db.reports[j], w)
                  && !(db.reports[j].status == Generating && db.reports[j].attempts < 3)
      ensures !processed && (w.claim.Lost? || !(exists j :: MayBeClaimed(old(db), j))) ==>
                forall j | 0 <= j < |db.reports| :: RowLeft(old(db).reports[j], db.reports[j], w)
      // A claim that landed unheard costs its row an attempt.
      ensures !processed && w.claim.Misreported? && (exists j :: MayBeClaimed(old(db), j)) ==>
                && MayBeClaimed(old(db), pick)
                && db.reports[pick] == old(db).reports[pick].(attempts := old(db).reports[pick].attempts + 1)
                && (forall j | MayBeClaimed(old(db), j) :: old(db).reports[pick].createdAt <= old(db).reports[j].createdAt)
                && (forall j | 0 <= j < |db.reports| && j != pick :: RowLeft(old(db).reports[j], db.reports[j], w))
    {
      ghost var before := db;
      RunKeepsInv(history, |history| - 1);
      processed, pick := RunTick(w);
      if processed { TickOutcome(before, w, pick); } else { IdleOutcome(before, w, pick); }
    }

    /** The statements of a tick. */
    method RunTick(w: Weather) returns (processed: bool, ghost pick: nat)
      requires Valid() && db.worker.Idle?
      modifies this
      ensures Valid() && old(history) <= history
      ensures Fits(old(db), w, pick) && (db, processed) == Tick(old(db), w, pick)
    {
      pick := 0;
      Do(Sweep(w.sweep));
      var i := FindOldest();
      if i.None? {
        Do(NothingToClaim);
        return false, 0;
      }
      pick := i.value;
      RunKeepsInv(history, |history| - 1);
      Do(Claim(i.value, w.claim));
      if !w.claim.Landed? { return false, pick; }
      Render(w);
      Bookkeep(w);
      return true, pick;
    }

    /** Run between two sleeps: tick until one reports an empty queue. It always stops. */
    method Drain(weather: nat -> Weather) returns (ticks: nat)
      requires Valid() && db.worker.Idle?
      modifies this
      ensures Valid() && old(history) <= history && db.worker.Idle?
      ensures 0 < ticks <= TotalLeft(old(db).reports, None) + 1
      ensures weather(ticks - 1).sweep.Landed? && weather(ticks - 1).claim.Landed? ==>
                forall i | 0 <= i < |db.reports| :: db.reports[i].status != Generating
    {
      ticks := 0;
      var processed := true;
      while processed
        invariant Valid() && old(history) <= history && db.worker.Idle?
        invariant ticks + TotalLeft(db.reports, None) <= TotalLeft(old(db).reports, None) + (if processed then 0 else 1)
        invariant processed || ticks > 0
        invariant !processed && weather(ticks - 1).sweep.Landed? && weather(ticks - 1).claim.Landed? ==>
                    forall i | 0 <= i < |db.reports| :: db.reports[i].status != Generating
        decreases processed, TotalLeft(db.reports, None)
      {
        ghost var before := db;
        RunKeepsInv(history, |history| - 1);
        ghost var w, pick := weather(ticks), 0;
        processed, pick := RunTick(weather(ticks));
        TickKeepsInv(before, w, pick);
        TickNeverAddsWork(before, w, pick, None);
        if !processed && w.sweep.Landed? && w.claim.Landed? {
          forall i | 0 <= i < |db.reports| ensures db.reports[i].status != Generating {
            if Claimable(before.reports[i]) { ClaimsIfPossible(before, w, pick, i); }
            SweptIfExhausted(before, w, pick, i);
          }
        }
        ticks := ticks + 1;
      }
    }
  }
}
