/** Runs that show what a report read query by query does not promise. */
module ReportWitnesses {
  import opened Options
  import opened Tables
  import opened UpsertLaws
  import opened EvidenceState
  import opened EvidenceSystem
  import opened ReportQueries
  import opened ReportData
  import opened ReportLaws
  import opened ReportRuns
  import opened Witnesses
  import A = AdminSteps
  import U = UpsertSteps

  const PERIOD := Scope(0, 0, 10, None)
  const PLANNED_ROW := SummaryRow(0, "site", None, 1, 0, 0)
  const DONE_ROW := SummaryRow(0, "site", None, 1, 1, 0)
  const JOB_ROW := ExecRow(0, 1, 5, 3, "worker", 0, 0)

  function NoPhotos(): Loader {
    k => None
  }

  /** The small company with its order in some state, and perhaps the finished execution 1 of it. */
  function Site(order: Order, finished: bool): Db {
    var execs: map<Id, Exec> := if finished then map[1 := Exec(0, 0, 0, None, Some(3), Some(9), None)] else map[];
    Company(map[0 := order]).(execs := execs)
  }

  // === What the queries answer ================================================

  lemma OnlyOrder(db: Db, o: Id)
    requires db.orders.Keys <= {0} && 0 in db.orders && OrderInScope(db, PERIOD, 0) && db.orders[0].objectId == 0
    ensures OrdersOf(db, PERIOD, 0) == {0}
    ensures WithStatus(db, {0}, Done) == if db.orders[0].status == Done then {0} else {}
    ensures WithStatus(db, {0}, Missed) == if db.orders[0].status == Missed then {0} else {}
  {
  }

  lemma OneSummaryRow(order: Order, finished: bool)
    requires order == JOB.(status := order.status) && order.status != Missed
    ensures IsSummary(Site(order, finished), PERIOD, [if order.status == Done then DONE_ROW else PLANNED_ROW])
  {
    var db, rows := Site(order, finished), [if order.status == Done then DONE_ROW else PLANNED_ROW];
    OnlyOrder(db, 0);
    assert SummaryRowFits(db, PERIOD, rows[0]);
    assert HasRow(rows, 0) by { assert rows[0].objectId == 0; }
  }

  lemma NoSummaryRows()
    ensures IsSummary(Company(map[]), PERIOD, [])
  {
  }

  lemma OneExecRow(order: Order)
    requires order == JOB.(status := order.status)
    ensures IsExecutions(Site(order, true), PERIOD, [JOB_ROW]) && ExecInScope(Site(order, true), PERIOD, 1)
  {
    var db, rows := Site(order, true), [JOB_ROW];
    assert ItemsOfExec(db, 1, true) == {} && ItemsOfExec(db, 1, false) == {};
    assert ExecRowFits(db, PERIOD, rows[0]);
    assert HasExecRow(rows, 1) by { assert rows[0].exec == 1; }
  }

  lemma NoExecRows(order: Order, finished: bool)
    requires finished ==> order.due > PERIOD.to
    ensures IsExecutions(Site(order, finished), PERIOD, [])
  {
  }

  lemma NoPhotoRows(db: Db, execs: set<Id>)
    requires db.photos == map[]
    ensures IsPhotos(db, 0, execs, [])
  {
  }

  lemma NoMissedRows(order: Order, finished: bool)
    requires order.status != Missed
    ensures IsMissed(Site(order, finished), PERIOD, [])
  {
    assert ListsMissed(Site(order, finished), PERIOD, [], []);
  }

  lemma OneMissedRow()
    ensures IsMissed(Site(JOB.(status := Missed), false), PERIOD, [MissedRow("site", 5)])
  {
    assert MissedInScope(Site(JOB.(status := Missed), false), PERIOD, 0);
    assert ListsMissed(Site(JOB.(status := Missed), false), PERIOD, [0], [MissedRow("site", 5)]);
  }

  // === The reports ============================================================

  const EMPTY_REPORT := Report(SummaryData(0, 0, 0, 0, 0, []), [], [])

  lemma EmptyIsBuilt(execs: seq<ExecRow>)
    ensures Builds(EMPTY_REPORT, [], execs, [], [], NoPhotos())
  {
  }

  function OneLine(row: SummaryRow, missed: seq<MissedRow>): Report {
    var address := if row.address.Some? then row.address.value else "";
    Report(SummaryData(1, row.planned, row.done, row.missed, if row.planned > 0 then row.done * 100 / row.planned else 0,
                       [PerObject(row.name, address, row.planned, row.done, row.missed)]),
           [ObjectSection(row.name, address, [])], missed)
  }

  lemma OneLineIsBuilt(row: SummaryRow, missed: seq<MissedRow>)
    ensures Builds(OneLine(row, missed), [row], [], [], missed, NoPhotos())
  {
    assert [row][..0] == [];
    assert Jobs([], [], NoPhotos()) == [];
    if row.planned > 0 { QuotientIsPercent(row.done, row.planned); }
    assert SectionBuilt(OneLine(row, missed).objects[0], row, [], [], NoPhotos());
  }

  // === The runs ===============================================================

  /** The worker finishes execution 1 of the order. */
  lemma FinishRun(b: seq<State>) returns (c: seq<State>)
    requires IsRun(b) && Last(b) == Idle(Company(map[0 := JOB]))
    ensures Continues(b, c) && Last(c).db == Site(JOB.(status := Done), true) && Last(c).upserts == map[]
  {
    NoItems(map[]);
    c := UpsertRuns(b, 0, 0, 1, FINISHED, 9);
    assert Last(c).db.orders == map[0 := JOB.(status := Done)];
  }

  const MOVED := JOB.(status := Done, due := 50)

  /** Staff then move the finished order out of the period. */
  lemma MoveRun(b: seq<State>) returns (c: seq<State>)
    requires IsRun(b) && Last(b).db == Site(JOB.(status := Done), true) && Last(b).upserts == map[]
    ensures Continues(b, c) && |c| > |b| && Last(c).db == Site(MOVED, true)
  {
    c := Extend(b, Step.Admin(A.Patch(0, 0, None, Some(50))));
    assert Last(c).db.orders == map[0 := MOVED];
  }

  /**
   Evidence may be dropped: the summary is read, then the first order of an object is created and
   finished, then the executions are read. The finished execution is listed and in scope, and no
   section shows it.
  */
  lemma EvidenceMayBeDropped() returns (b: seq<State>, i: nat, j: nat)
    ensures Queried(b, i, j, j, j, PERIOD, [], [JOB_ROW], [], [])
    ensures Builds(EMPTY_REPORT, [], [JOB_ROW], [], [], NoPhotos())
    ensures ExecInScope(b[j].db, PERIOD, 1) && EMPTY_REPORT.objects == []
  {
    b := CompanyRun();
    i := |b| - 1;
    b := OrderRun(b);
    b := FinishRun(b);
    j := |b| - 1;
    NoSummaryRows();
    OneExecRow(JOB.(status := Done));
    NoPhotoRows(b[j].db, ExecsListed([JOB_ROW]));
    NoMissedRows(JOB.(status := Done), true);
    EmptyIsBuilt([JOB_ROW]);
  }

  /** The missed total may differ from the missed list: a sweep runs between the two queries. */
  lemma MissedMayDiffer() returns (b: seq<State>, i: nat, l: nat, data: Report)
    ensures Queried(b, i, i, i, l, PERIOD, [PLANNED_ROW], [], [], data.missed)
    ensures Builds(data, [PLANNED_ROW], [], [], data.missed, NoPhotos())
    ensures data.summary.missed == 0 && |data.missed| == 1
  {
    b := StagedRun();
    i := |b| - 1;
    b := Extend(b, Step.Admin(A.Sweep(0, 6)));
    l := |b| - 1;
    assert MarkMissed(map[0 := JOB], 0, 6) == map[0 := JOB.(status := Missed)];
    data := OneLine(PLANNED_ROW, [MissedRow("site", 5)]);
    OneSummaryRow(JOB, false);
    NoExecRows(JOB, false);
    NoPhotoRows(b[i].db, ExecsListed([]));
    OneMissedRow();
    OneLineIsBuilt(PLANNED_ROW, data.missed);
  }

  /** The done count may exceed the jobs listed: the order is moved out of the period between the
      two queries. */
  lemma DoneMayExceedJobs() returns (b: seq<State>, i: nat, j: nat, data: Report)
    ensures Queried(b, i, j, j, j, PERIOD, [DONE_ROW], [], [], [])
    ensures Builds(data, [DONE_ROW], [], [], [], NoPhotos())
    ensures data.summary.perObject[0].done == 1 && data.objects[0].jobs == []
  {
    b := StagedRun();
    b := FinishRun(b);
    i := |b| - 1;
    b := MoveRun(b);
    j := |b| - 1;
    data := OneLine(DONE_ROW, []);
    OneSummaryRow(JOB.(status := Done), true);
    NoExecRows(MOVED, true);
    NoPhotoRows(b[j].db, ExecsListed([]));
    NoMissedRows(MOVED, true);
    OneLineIsBuilt(DONE_ROW, []);
  }
}
