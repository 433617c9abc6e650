/**
 The report render queue: rows of `report` drained by one worker that may crash between any
 two steps, and whose writes may be lost or may land although an error came back.

 A report's id is its position in `reports`. `puts` and `claims` record what the worker did;
 the code reads neither.
*/
module ReportQueue {
  import opened Options

  type TenantId = nat
  type Pdf = nat

  const MAX_ATTEMPTS := 3

  datatype Status = Generating | Ready | Failed

  datatype Key = ReportKey(tenant: TenantId, id: nat)

  datatype Report = Report(tenant: TenantId, createdAt: int, status: Status, attempts: nat, key: Option<Key>)

  /** What happened to a write: it landed and said so, it never landed, or it landed and the
      caller saw an error. */
  datatype Fate = Landed | Lost | Misreported

  datatype Worker =
    | Idle
    | AtClaim
    | Rendering(id: nat, attempts: nat)
    | Uploaded(id: nat, attempts: nat)
    | RenderFailed(id: nat, attempts: nat)

  datatype State = State(
    reports: seq<Report>,
    store: map<Key, Pdf>,
    worker: Worker,
    puts: seq<Key>,
    claims: multiset<nat>)

  datatype Step =
    | Enqueue(tenant: TenantId, createdAt: int)
    | Sweep(fate: Fate)                   // FailExhaustedReports
    | Claim(pick: nat, fate: Fate)        // ClaimNextReport
    | NothingToClaim                      // it returned no row, or failed before running
    | RenderError                         // any error before the upload
    | Put(pdf: Pdf, fate: Fate)
    | MarkReady(fate: Fate)
    | MarkFailed(fate: Fate)
    | LeaveForRetry
    | Crash

  predicate Claimable(r: Report) {
    r.status == Generating && r.attempts < MAX_ATTEMPTS
  }

  /** A row `ORDER BY created_at LIMIT 1` may return. */
  predicate IsOldest(reports: seq<Report>, i: nat) {
    && i < |reports| && Claimable(reports[i])
    && forall j | 0 <= j < |reports| && Claimable(reports[j]) :: reports[i].createdAt <= reports[j].createdAt
  }

  function SweepRow(r: Report): Report {
    if r.status == Generating && r.attempts >= MAX_ATTEMPTS then r.(status := Failed) else r
  }

  function SweepAll(reports: seq<Report>): seq<Report> {
    seq(|reports|, i requires 0 <= i < |reports| => SweepRow(reports[i]))
  }

  predicate Enabled(s: State, st: Step) {
    match st
    case Enqueue(_, _) => true
    case Sweep(_) => s.worker.Idle?
    case Claim(i, _) => s.worker.AtClaim? && IsOldest(s.reports, i)
    case NothingToClaim => s.worker.AtClaim?
    case RenderError => s.worker.Rendering?
    case Put(_, _) => s.worker.Rendering? && s.worker.id < |s.reports|
    case MarkReady(_) => s.worker.Uploaded? && s.worker.id < |s.reports|
    case MarkFailed(_) => s.worker.RenderFailed? && s.worker.attempts >= MAX_ATTEMPTS && s.worker.id < |s.reports|
    case LeaveForRetry => s.worker.RenderFailed? && s.worker.attempts < MAX_ATTEMPTS
    case Crash => true
  }

  function KeyOf(s: State, i: nat): Key
    requires i < |s.reports|
  {
    ReportKey(s.reports[i].tenant, i)
  }

  function Apply(s: State, st: Step): State
    requires Enabled(s, st)
  {
    match st
    case Enqueue(t, at) => s.(reports := s.reports + [Report(t, at, Generating, 0, None)])
    case Sweep(f) => s.(reports := if f.Lost? then s.reports else SweepAll(s.reports), worker := AtClaim)
    case Claim(i, f) =>
      var n := s.reports[i].attempts + 1;
      if f.Lost? then s.(worker := Idle)
      else s.(reports := s.reports[i := s.reports[i].(attempts := n)],
              claims := s.claims + multiset{i},
              worker := if f.Landed? then Rendering(i, n) else Idle)
    case NothingToClaim => s.(worker := Idle)
    case RenderError => s.(worker := RenderFailed(s.worker.id, s.worker.attempts))
    case Put(pdf, f) =>
      var w, k := s.worker, KeyOf(s, s.worker.id);
      s.(store := if f.Lost? then s.store else s.store[k := pdf],
         puts := if f.Lost? then s.puts else s.puts + [k],
         worker := if f.Landed? then Uploaded(w.id, w.attempts) else RenderFailed(w.id, w.attempts))
    case MarkReady(f) =>
      var w, r := s.worker, s.reports[s.worker.id];
      s.(reports := if f.Lost? || r.status != Generating then s.reports
                    else s.reports[w.id := r.(status := Ready, key := Some(KeyOf(s, w.id)))],
         worker := if f.Landed? then Idle else RenderFailed(w.id, w.attempts))
    case MarkFailed(f) =>
      var w, r := s.worker, s.reports[s.worker.id];
      s.(reports := if f.Lost? || r.status != Generating then s.reports else s.reports[w.id := r.(status := Failed)],
         worker := Idle)
    case LeaveForRetry => s.(worker := Idle)
    case Crash => s.(worker := Idle)
  }

  ghost predicate Init(s: State) {
    s == State([], map[], Idle, [], multiset{})
  }

  ghost predicate Next(s: State, s': State) {
    exists st :: Enabled(s, st) && s' == Apply(s, st)
  }

  ghost predicate IsRun(b: seq<State>) {
    && |b| > 0 && Init(b[0])
    && forall i | 0 <= i < |b| - 1 :: Next(b[i], b[i + 1])
  }

  // === Safety =================================================================

  ghost predicate RowOk(s: State, i: nat)
    requires i < |s.reports|
  {
    var r := s.reports[i];
    && r.attempts <= MAX_ATTEMPTS && s.claims[i] == r.attempts
    && (r.status == Ready ==> r.key == Some(KeyOf(s, i)) && KeyOf(s, i) in s.store)
    && (r.status != Ready ==> r.key.None?) && (r.status == Failed ==> r.attempts == MAX_ATTEMPTS)
  }

  ghost predicate RowsOk(s: State) {
    && (forall i | 0 <= i < |s.reports| :: RowOk(s, i))
    && (forall i: nat | i >= |s.reports| :: s.claims[i] == 0)
  }

  /** The worker only ever renders and uploads for a row that is still generating. */
  ghost predicate WorkerOk(s: State) {
    var w := s.worker;
    (w.Rendering? || w.Uploaded? || w.RenderFailed?) ==>
      && w.id < |s.reports| && s.reports[w.id].attempts == w.attempts
      && (w.Rendering? || w.Uploaded? ==> s.reports[w.id].status == Generating)
      && (w.RenderFailed? ==> s.reports[w.id].status != Failed)
      && (w.Uploaded? ==> KeyOf(s, w.id) in s.store)
  }

  ghost predicate Inv(s: State) { RowsOk(s) && WorkerOk(s) }

  /** What no step does to a row that is ready or failed. */
  ghost predicate KeepsTerminal(s: State, s': State) {
    && |s.reports| <= |s'.reports| && s.puts <= s'.puts
    && forall i | 0 <= i < |s.reports| ::
         && s'.reports[i].tenant == s.reports[i].tenant && s'.reports[i].createdAt == s.reports[i].createdAt
         && (s.reports[i].status != Generating ==> s'.reports[i] == s.reports[i])
         && (s.reports[i].status == Ready ==>
               && KeyOf(s, i) in s.store && KeyOf(s, i) in s'.store && s'.store[KeyOf(s, i)] == s.store[KeyOf(s, i)]
               && forall p | |s.puts| <= p < |s'.puts| :: s'.puts[p] != KeyOf(s, i))
  }

  lemma StepKeepsRows(s: State, st: Step)
    requires Inv(s) && Enabled(s, st)
    ensures RowsOk(Apply(s, st))
  {
    var s' := Apply(s, st);
    forall i | 0 <= i < |s'.reports| ensures RowOk(s', i) {
      assert i < |s.reports| ==> RowOk(s, i);
    }
  }

  lemma StepKeepsWorker(s: State, st: Step)
    requires Inv(s) && Enabled(s, st)
    ensures WorkerOk(Apply(s, st))
  {
  }

  lemma ReadyIsStored(s: State)
    requires RowsOk(s)
    ensures forall i | 0 <= i < |s.reports| && s.reports[i].status == Ready :: KeyOf(s, i) in s.store
  {
    forall i | 0 <= i < |s.reports| && s.reports[i].status == Ready ensures KeyOf(s, i) in s.store {
      assert RowOk(s, i);
    }
  }

  lemma StepKeepsTerminal(s: State, st: Step)
    requires Inv(s) && Enabled(s, st)
    ensures KeepsTerminal(s, Apply(s, st))
  {
    ReadyIsStored(s);
  }

  lemma StepKeepsInv(s: State, st: Step)
    requires Inv(s) && Enabled(s, st)
    ensures Inv(Apply(s, st)) && KeepsTerminal(s, Apply(s, st))
  {
    StepKeepsRows(s, st);
    StepKeepsWorker(s, st);
    StepKeepsTerminal(s, st);
  }

  lemma {:induction false} RunKeepsInv(b: seq<State>, n: nat)
    requires IsRun(b) && n < |b|
    ensures Inv(b[n])
  {
    if n > 0 {
      RunKeepsInv(b, n - 1);
      assert Next(b[n - 1], b[n]);
      var st :| Enabled(b[n - 1], st) && b[n] == Apply(b[n - 1], st);
      StepKeepsInv(b[n - 1], st);
    }
  }

  /**
   Over every run, with crashes and lost or misreported writes anywhere: ready means the PDF
   is stored under the row's own key; ready and failed are final; and from the state where a
   row is ready on, nothing is ever written to its key again.
  */
  lemma TerminalIsFinal(b: seq<State>, m: nat, n: nat, i: nat)
    requires IsRun(b) && m <= n < |b| && i < |b[m].reports| && b[m].reports[i].status != Generating
    ensures i < |b[n].reports| && b[n].reports[i] == b[m].reports[i]
    ensures b[m].reports[i].status == Ready ==>
              && b[m].reports[i].key == Some(KeyOf(b[m], i))
              && KeyOf(b[m], i) in b[m].store && KeyOf(b[m], i) in b[n].store
              && b[n].store[KeyOf(b[m], i)] == b[m].store[KeyOf(b[m], i)]
              && b[m].puts <= b[n].puts
              && forall p | |b[m].puts| <= p < |b[n].puts| :: b[n].puts[p] != KeyOf(b[m], i)
  {
    RunKeepsInv(b, m);
    assert RowOk(b[m], i);
    RunKeepsTerminal(b, m, n);
  }

  /** A report fails only after its third claim, and none that is generating has a key. */
  lemma FailedAfterThree(b: seq<State>, n: nat, i: nat)
    requires IsRun(b) && n < |b| && i < |b[n].reports|
    ensures b[n].reports[i].status == Failed ==> b[n].reports[i].attempts == 3 && b[n].claims[i] == 3
    ensures b[n].reports[i].status != Ready ==> b[n].reports[i].key == None
  {
    RunKeepsInv(b, n);
    assert RowOk(b[n], i);
  }

  lemma KeepsTerminalTrans(s: State, s1: State, s2: State)
    requires KeepsTerminal(s, s1) && KeepsTerminal(s1, s2)
    ensures KeepsTerminal(s, s2)
  {
  }

  lemma {:induction false} RunKeepsTerminal(b: seq<State>, m: nat, n: nat)
    requires IsRun(b) && m <= n < |b|
    ensures KeepsTerminal(b[m], b[n])
  {
    if m == n {
      RunKeepsInv(b, m);
      ReadyIsStored(b[m]);
    } else {
      RunKeepsTerminal(b, m, n - 1);
      RunKeepsInv(b, n - 1);
      assert Next(b[n - 1], b[n]);
      var st :| Enabled(b[n - 1], st) && b[n] == Apply(b[n - 1], st);
      StepKeepsInv(b[n - 1], st);
      KeepsTerminalTrans(b[m], b[n - 1], b[n]);
    }
  }

  lemma ClaimedAtMostThreeTimes(b: seq<State>, n: nat, i: nat)
    requires IsRun(b) && n < |b|
    ensures b[n].claims[i] <= 3
  {
    RunKeepsInv(b, n);
    assert i < |b[n].reports| ==> RowOk(b[n], i);
  }
}
