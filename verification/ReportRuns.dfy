/**
 The report of a running system. The service runs its queries one after the other outside any
 transaction, so each may see a later database than the one before.
*/
module ReportRuns {
  import opened Options
  import opened Tables
  import opened EvidenceState
  import opened ReportQueries
  import opened ReportData
  import opened ReportLaws
  import E = EvidenceSystem

  /** The summary is read in state i, the executions in j, their photos in k, the missed orders in l. */
  ghost predicate Queried(b: seq<State>, i: nat, j: nat, k: nat, l: nat, p: Scope, rows: seq<SummaryRow>,
                          execs: seq<ExecRow>, photos: seq<PhotoRow>, missed: seq<MissedRow>) {
    && E.IsRun(b) && i <= j <= k <= l < |b|
    && IsSummary(b[i].db, p, rows) && IsExecutions(b[j].db, p, execs)
    && IsPhotos(b[k].db, p.tenant, ExecsListed(execs), photos) && IsMissed(b[l].db, p, missed)
  }

  // === The branch for an unknown object =======================================

  lemma KnownHasOrders(db: Db, p: Scope, rows: seq<SummaryRow>, o: Id)
    requires IsSummary(db, p, rows)
    ensures o in Known(rows) <==> OrdersOf(db, p, o) != {}
  {
    if o in Known(rows) {
      var m :| 0 <= m < |rows| && rows[m].objectId == o;
      assert SummaryRowFits(db, p, rows[m]);
    }
    if OrdersOf(db, p, o) != {} {
      var x :| x in OrdersOf(db, p, o);
      assert HasRow(rows, db.orders[x].objectId);
      var m :| 0 <= m < |rows| && rows[m].objectId == o;
      assert rows[m] in rows;
    }
  }

  /** A listed execution is dropped exactly when its object had no order in scope at the time the
      summary was read. */
  lemma DroppedExactly(b: seq<State>, i: nat, j: nat, p: Scope, rows: seq<SummaryRow>, execs: seq<ExecRow>, r: ExecRow)
    requires E.IsRun(b) && i <= j < |b|
    requires IsSummary(b[i].db, p, rows) && IsExecutions(b[j].db, p, execs) && r in execs
    ensures r.exec in b[j].db.execs && b[j].db.execs[r.exec].order in b[j].db.orders
    ensures r.objectId == b[j].db.orders[b[j].db.execs[r.exec].order].objectId
    ensures r.objectId !in Known(rows) <==> OrdersOf(b[i].db, p, r.objectId) == {}
  {
    var m :| 0 <= m < |execs| && execs[m] == r;
    assert ExecRowFits(b[j].db, p, execs[m]);
    KnownHasOrders(b[i].db, p, rows, r.objectId);
  }

  lemma ScopedExecHasScopedOrder(b: seq<State>, j: nat, p: Scope, e: Id)
    requires E.IsRun(b) && j < |b| && ExecInScope(b[j].db, p, e)
    ensures OrderInScope(b[j].db, p, b[j].db.execs[e].order)
  {
    E.RunKeepsInv(b, j);
    assert OrderRowOk(b[j].db.orders[b[j].db.execs[e].order], b[j].db.objects, b[j].db.versions, b[j].db.users);
  }

  /** So when the summary and the executions are read in one state, nothing is dropped. */
  lemma NoUnknownObject(b: seq<State>, i: nat, p: Scope, rows: seq<SummaryRow>, execs: seq<ExecRow>, r: ExecRow)
    requires E.IsRun(b) && i < |b|
    requires IsSummary(b[i].db, p, rows) && IsExecutions(b[i].db, p, execs) && r in execs
    ensures r.objectId in Known(rows)
  {
    DroppedExactly(b, i, i, p, rows, execs, r);
    var m :| 0 <= m < |execs| && execs[m] == r;
    assert ExecRowFits(b[i].db, p, execs[m]);
    ScopedExecHasScopedOrder(b, i, p, r.exec);
    assert b[i].db.execs[r.exec].order in OrdersOf(b[i].db, p, r.objectId);
  }

  // === Later reads keep what earlier ones counted =============================

  lemma PhotosStayWithTenant(b: seq<State>, j: nat, k: nat, p: Scope, e: Id)
    requires E.IsRun(b) && j <= k < |b| && ExecInScope(b[j].db, p, e)
    ensures PhotosBelong(b[k].db, e, p.tenant)
  {
    E.RunGrows(b, j, k);
    E.RunKeepsInv(b, k);
    assert ExecGrows(b[j].db.execs[e], b[k].db.execs[e]);
    forall id | id in b[k].db.photos && b[k].db.photos[id].exec == e ensures b[k].db.photos[id].tenant == p.tenant {
      assert PhotoRowOk(id, b[k].db.photos[id], b[k].db.execs, b[k].store.Keys);
    }
  }

  lemma FinishedStays(b: seq<State>, i: nat, j: nat, o: Id) returns (e: Id)
    requires E.IsRun(b) && i <= j < |b| && o in b[i].db.orders && b[i].db.orders[o].status == Done
    ensures e in b[j].db.execs && b[j].db.execs[e].order == o && b[j].db.execs[e].deviceFinishedAt.Some?
    ensures o in b[j].db.orders && b[j].db.orders[o].objectId == b[i].db.orders[o].objectId
  {
    E.OrderStatusIsHonest(b, i, o);
    e :| E.IsExecOf(b[i].db.execs, e, o) && b[i].db.execs[e].deviceFinishedAt.Some?;
    E.RunGrows(b, i, j);
    assert ExecGrows(b[i].db.execs[e], b[j].db.execs[e]);
    assert OrderGrows(b[i].db.orders[o], b[j].db.orders[o]);
  }

  /** An order counted as done has a completed execution listed, if the order is still in scope
      when the executions are read. */
  lemma DoneOrderIsListed(b: seq<State>, i: nat, j: nat, p: Scope, o: Id) returns (e: Id)
    requires E.IsRun(b) && i <= j < |b|
    requires OrderInScope(b[i].db, p, o) && b[i].db.orders[o].status == Done && OrderInScope(b[j].db, p, o)
    ensures ScopedUnder(b[j].db, p, b[i].db.orders[o].objectId, e) && b[j].db.execs[e].order == o
  {
    e := FinishedStays(b, i, j, o);
    E.RunKeepsInv(b, j);
    assert ExecRowOk(b[j].db.execs[e], b[j].db.orders, b[j].db.users);
  }

  ghost predicate HasListedExec(db: Db, p: Scope, objectId: Id, o: Id) {
    exists e :: ScopedUnder(db, p, objectId, e) && db.execs[e].order == o
  }

  /** And exactly if it is. */
  lemma DoneOrderListedExactly(b: seq<State>, i: nat, j: nat, p: Scope, o: Id)
    requires E.IsRun(b) && i <= j < |b| && OrderInScope(b[i].db, p, o) && b[i].db.orders[o].status == Done
    ensures HasListedExec(b[j].db, p, b[i].db.orders[o].objectId, o) <==> OrderInScope(b[j].db, p, o)
  {
    var objectId := b[i].db.orders[o].objectId;
    if OrderInScope(b[j].db, p, o) {
      var e := DoneOrderIsListed(b, i, j, p, o);
    }
    if e :| ScopedUnder(b[j].db, p, objectId, e) && b[j].db.execs[e].order == o {
      ScopedExecHasScopedOrder(b, j, p, e);
    }
  }

  /** An order counted as missed is in the missed list read later, if it is still in scope, exactly
      when it has got no execution since. */
  lemma MissedStaysListed(b: seq<State>, i: nat, l: nat, p: Scope, o: Id)
    requires E.IsRun(b) && i <= l < |b| && MissedInScope(b[i].db, p, o) && OrderInScope(b[l].db, p, o)
    ensures MissedInScope(b[l].db, p, o) <==> !E.HasExec(b[l].db.execs, o)
  {
    E.RunGrows(b, i, l);
    E.OrderStatusIsHonest(b, l, o);
    assert OrderGrows(b[i].db.orders[o], b[l].db.orders[o]);
  }

  /** An order on the list that was in scope and not counted was scheduled then. */
  lemma ListedWasScheduled(b: seq<State>, i: nat, l: nat, p: Scope, o: Id)
    requires E.IsRun(b) && i <= l < |b| && MissedInScope(b[l].db, p, o)
    requires OrderInScope(b[i].db, p, o) && b[i].db.orders[o].status != Missed
    ensures b[i].db.orders[o].status == Scheduled
  {
    E.RunGrows(b, i, l);
    E.OrderStatusIsHonest(b, i, o);
    E.OrderStatusIsHonest(b, l, o);
    if E.HasExec(b[i].db.execs, o) {
      var e :| E.IsExecOf(b[i].db.execs, e, o);
      assert ExecGrows(b[i].db.execs[e], b[l].db.execs[e]);
      assert E.IsExecOf(b[l].db.execs, e, o);
    }
  }

  ghost function MissedIn(db: Db, p: Scope): set<Id> {
    WithStatus(db, ScopedOrders(db, p), Missed)
  }

  /** Orders counted as missed that are out of scope later, or have got an execution. */
  ghost function Leavers(at: Db, later: Db, p: Scope): set<Id> {
    set o | o in MissedIn(at, p) && (!OrderInScope(later, p, o) || E.HasExec(later.execs, o))
  }

  /** Orders missed later that were out of scope, or still scheduled. */
  ghost function Joiners(at: Db, later: Db, p: Scope): set<Id> {
    set o | o in MissedIn(later, p) && (!OrderInScope(at, p, o) || at.orders[o].status == Scheduled)
  }

  lemma LeaversLeft(b: seq<State>, i: nat, l: nat, p: Scope)
    requires E.IsRun(b) && i <= l < |b|
    ensures Leavers(b[i].db, b[l].db, p) == MissedIn(b[i].db, p) - MissedIn(b[l].db, p)
  {
    forall o | o in MissedIn(b[i].db, p) ensures o in Leavers(b[i].db, b[l].db, p) <==> o !in MissedIn(b[l].db, p) {
      if OrderInScope(b[l].db, p, o) { MissedStaysListed(b, i, l, p, o); }
    }
  }

  lemma JoinersJoined(b: seq<State>, i: nat, l: nat, p: Scope)
    requires E.IsRun(b) && i <= l < |b|
    ensures Joiners(b[i].db, b[l].db, p) == MissedIn(b[l].db, p) - MissedIn(b[i].db, p)
  {
    forall o | o in MissedIn(b[l].db, p) ensures o in Joiners(b[i].db, b[l].db, p) <==> o !in MissedIn(b[i].db, p) {
      if OrderInScope(b[i].db, p, o) && b[i].db.orders[o].status != Missed { ListedWasScheduled(b, i, l, p, o); }
    }
  }

  lemma SetsDiffer(a: set<Id>, b: set<Id>)
    ensures |a| + |b - a| == |b| + |a - b|
  {
    assert a + (b - a) == b + (a - b);
  }

  /** The missed total and the later missed list differ by exactly the orders that left and those
      that joined in between; so they agree iff as many left as joined. */
  lemma MissedTotalsBalance(b: seq<State>, i: nat, j: nat, k: nat, l: nat, p: Scope, rows: seq<SummaryRow>,
                            execs: seq<ExecRow>, photos: seq<PhotoRow>, missed: seq<MissedRow>, load: Loader, data: Report)
    requires Queried(b, i, j, k, l, p, rows, execs, photos, missed) && Builds(data, rows, execs, photos, missed, load)
    ensures data.summary.missed + |Joiners(b[i].db, b[l].db, p)| == |data.missed| + |Leavers(b[i].db, b[l].db, p)|
    ensures data.summary.missed == |data.missed| <==> |Joiners(b[i].db, b[l].db, p)| == |Leavers(b[i].db, b[l].db, p)|
  {
    TotalsAreHonest(b[i].db, p, rows);
    MissedAreListed(b[l].db, p, missed);
    LeaversLeft(b, i, l, p);
    JoinersJoined(b, i, l, p);
    SetsDiffer(MissedIn(b[i].db, p), MissedIn(b[l].db, p));
  }

  // === The whole report =======================================================

  /** Orders of the object that the summary counted as done and that are still in scope when the
      executions are read. */
  ghost function DoneAndListed(at: Db, later: Db, p: Scope, objectId: Id): set<Id> {
    set o | o in WithStatus(at, OrdersOf(at, p, objectId), Done) && OrderInScope(later, p, o)
  }

  /** And those that are not. */
  ghost function DoneAndGone(at: Db, later: Db, p: Scope, objectId: Id): set<Id> {
    WithStatus(at, OrdersOf(at, p, objectId), Done) - DoneAndListed(at, later, p, objectId)
  }

  /** The section shows exactly its object's completed executions as they were read; an order the
      summary counted as done has a job exactly if it was still in scope then. */
  ghost predicate FaithfulSection(summaryDb: Db, db: Db, photosDb: Db, p: Scope, objectId: Id, section: ObjectSection, load: Loader) {
    exists es :: && ShowsObject(db, photosDb, p, section, objectId, es, load)
                 && (forall o | o in WithStatus(summaryDb, OrdersOf(summaryDb, p, objectId), Done) ::
                       JobOfOrder(db, es, o) <==> OrderInScope(db, p, o))
                 && |DoneAndListed(summaryDb, db, p, objectId)| <= |section.jobs|
  }

  lemma JobIsListedExec(db: Db, photosDb: Db, p: Scope, section: ObjectSection, objectId: Id, es: seq<Id>, load: Loader, o: Id)
    requires ShowsObject(db, photosDb, p, section, objectId, es, load)
    ensures JobOfOrder(db, es, o) <==> HasListedExec(db, p, objectId, o)
  {
    if k :| 0 <= k < |es| && es[k] in db.execs && db.execs[es[k]].order == o {
      assert es[k] in es && ScopedUnder(db, p, objectId, es[k]);
    }
    if e :| ScopedUnder(db, p, objectId, e) && db.execs[e].order == o {
      assert e in es;
      var k :| 0 <= k < |es| && es[k] == e;
    }
  }

  lemma DoneHaveJobs(b: seq<State>, i: nat, j: nat, photosDb: Db, p: Scope, section: ObjectSection, objectId: Id, es: seq<Id>, load: Loader)
    requires E.IsRun(b) && i <= j < |b| && ShowsObject(b[j].db, photosDb, p, section, objectId, es, load)
    ensures forall o | o in WithStatus(b[i].db, OrdersOf(b[i].db, p, objectId), Done) ::
              JobOfOrder(b[j].db, es, o) <==> OrderInScope(b[j].db, p, o)
    ensures |DoneAndListed(b[i].db, b[j].db, p, objectId)| <= |section.jobs|
  {
    forall o | o in WithStatus(b[i].db, OrdersOf(b[i].db, p, objectId), Done)
      ensures JobOfOrder(b[j].db, es, o) <==> OrderInScope(b[j].db, p, o)
    {
      DoneOrderListedExactly(b, i, j, p, o);
      JobIsListedExec(b[j].db, photosDb, p, section, objectId, es, load, o);
    }
    JobsCoverOrders(b[j].db, photosDb, p, section, objectId, es, load, DoneAndListed(b[i].db, b[j].db, p, objectId));
  }

  lemma JobsCoverOrders(db: Db, photosDb: Db, p: Scope, section: ObjectSection, objectId: Id, es: seq<Id>, load: Loader, orders: set<Id>)
    requires ShowsObject(db, photosDb, p, section, objectId, es, load) && forall o | o in orders :: JobOfOrder(db, es, o)
    ensures |orders| <= |section.jobs|
  {
    forall x, y | 0 <= x < y < |es| ensures es[x] != es[y] {
      assert JobsInOrder(section.jobs, es, x, y);
    }
    forall e | e in es ensures e in db.execs {
      assert ScopedUnder(db, p, objectId, e);
    }
    JobsBoundOrders(db, es, orders);
  }

  lemma DoneSplits(at: Db, later: Db, p: Scope, row: SummaryRow)
    requires SummaryRowFits(at, p, row)
    ensures row.done == |DoneAndListed(at, later, p, row.objectId)| + |DoneAndGone(at, later, p, row.objectId)|
  {
    var d, x := WithStatus(at, OrdersOf(at, p, row.objectId), Done), DoneAndListed(at, later, p, row.objectId);
    assert d == x + (d - x);
  }

  lemma SectionIsFaithful(b: seq<State>, i: nat, j: nat, k: nat, p: Scope, row: SummaryRow, section: ObjectSection,
                          execs: seq<ExecRow>, photos: seq<PhotoRow>, load: Loader)
    requires E.IsRun(b) && i <= j <= k < |b|
    requires IsExecutions(b[j].db, p, execs) && IsPhotos(b[k].db, p.tenant, ExecsListed(execs), photos)
    requires SectionBuilt(section, row, execs, photos, load)
    ensures FaithfulSection(b[i].db, b[j].db, b[k].db, p, row.objectId, section, load)
  {
    var es := ExecIds(ExecsFor(execs, row.objectId));
    forall e | ExecInScope(b[j].db, p, e) ensures PhotosBelong(b[k].db, e, p.tenant) {
      PhotosStayWithTenant(b, j, k, p, e);
    }
    SectionShowsObject(b[j].db, b[k].db, p, row, section, execs, photos, load);
    DoneHaveJobs(b, i, j, b[k].db, p, section, row.objectId, es, load);
  }

  /** The object's line and section carry its own name and address and count its orders in scope. */
  ghost predicate HonestLine(db: Db, p: Scope, objectId: Id, line: PerObject, section: ObjectSection) {
    && objectId in db.objects
    && line.name == section.name == db.objects[objectId].name
    && IsAddress(line.address, db.objects[objectId].address) && IsAddress(section.address, db.objects[objectId].address)
    && line.planned == |set o | o in ScopedOrders(db, p) && db.orders[o].objectId == objectId|
    && line.done == |set o | o in ScopedOrders(db, p) && db.orders[o].objectId == objectId && db.orders[o].status == Done|
    && line.missed == |set o | o in ScopedOrders(db, p) && db.orders[o].objectId == objectId && db.orders[o].status == Missed|
  }

  lemma LineIsHonest(db: Db, p: Scope, rows: seq<SummaryRow>, execs: seq<ExecRow>, photos: seq<PhotoRow>, missed: seq<MissedRow>,
                     load: Loader, data: Report, m: nat)
    requires IsSummary(db, p, rows) && Builds(data, rows, execs, photos, missed, load) && m < |rows|
    ensures HonestLine(db, p, rows[m].objectId, data.summary.perObject[m], data.objects[m])
  {
    assert SummaryRowFits(db, p, rows[m]);
    assert SectionBuilt(data.objects[m], rows[m], execs, photos, load) && IsLine(data.summary.perObject[m], rows[m]);
    var x := rows[m].objectId;
    assert OrdersOf(db, p, x) == set o | o in ScopedOrders(db, p) && db.orders[o].objectId == x;
    assert WithStatus(db, OrdersOf(db, p, x), Done)
        == set o | o in ScopedOrders(db, p) && db.orders[o].objectId == x && db.orders[o].status == Done;
    assert WithStatus(db, OrdersOf(db, p, x), Missed)
        == set o | o in ScopedOrders(db, p) && db.orders[o].objectId == x && db.orders[o].status == Missed;
  }

  /** The headline percentage, in terms of the orders in scope. */
  ghost predicate HonestPercent(db: Db, p: Scope, pct: nat) {
    var all, done := ScopedOrders(db, p), WithStatus(db, ScopedOrders(db, p), Done);
    && pct <= 100
    && (all == {} ==> pct == 0)
    && (all != {} ==> pct * |all| <= |done| * 100 < (pct + 1) * |all|)
    && (pct == 100 <==> all != {} && forall o | o in all :: db.orders[o].status == Done)
  }

  lemma PercentIsHonest(db: Db, p: Scope, rows: seq<SummaryRow>, summary: SummaryData)
    requires IsSummary(db, p, rows) && SummaryBuilt(summary, rows)
    ensures HonestPercent(db, p, summary.completionPct)
  {
    var all, done := ScopedOrders(db, p), WithStatus(db, ScopedOrders(db, p), Done);
    TotalsAreHonest(db, p, rows);
    PartOfWhole(done, all);
    PercentBounds(summary.completionPct, |done|, |all|);
    assert done == all <==> forall o | o in all :: db.orders[o].status == Done;
  }

  lemma PartOfWhole(a: set<Id>, b: set<Id>)
    requires a <= b
    ensures |a| <= |b| && (|a| == |b| <==> a == b) && (|b| == 0 <==> b == {})
  {
    SubsetSize(a, b);
    if |a| == |b| && a != b {
      var x :| x in b && x !in a;
      SubsetSize(a, b - {x});
    }
  }

  lemma PercentBounds(pct: nat, done: nat, planned: nat)
    requires IsPercent(pct, done, planned) && done <= planned
    ensures pct <= 100 && (pct == 100 <==> planned > 0 && done == planned)
  {
    Products(101, pct, planned);
    Products(pct + 1, 100, planned);
  }

  lemma Products(a: nat, b: nat, n: nat)
    ensures a <= b ==> a * n <= b * n
  {
    assert b * n - a * n == (b - a) * n;
  }

  /**
   Whatever commits between the queries: each section shows exactly its object's completed
   executions in scope when these were read, once each and in completion order, with one cell for
   each photo there was when those were read; an order counted as done has a job exactly if it
   was still in scope then, so the done count exceeds the jobs by no more than the orders that
   were not; the totals, the percentage and each object's line count the orders in scope when
   the summary was read.
  */
  lemma ReportAcrossReads(b: seq<State>, i: nat, j: nat, k: nat, l: nat, p: Scope, rows: seq<SummaryRow>,
                          execs: seq<ExecRow>, photos: seq<PhotoRow>, missed: seq<MissedRow>, load: Loader, data: Report)
    requires Queried(b, i, j, k, l, p, rows, execs, photos, missed) && Builds(data, rows, execs, photos, missed, load)
    ensures |data.objects| == |rows| && Distinct(rows)
    ensures forall m | 0 <= m < |rows| ::
              && FaithfulSection(b[i].db, b[j].db, b[k].db, p, rows[m].objectId, data.objects[m], load)
              && rows[m].done <= |data.objects[m].jobs| + |DoneAndGone(b[i].db, b[j].db, p, rows[m].objectId)|
    ensures |data.summary.perObject| == |rows|
    ensures forall m | 0 <= m < |rows| ::
              HonestLine(b[i].db, p, rows[m].objectId, data.summary.perObject[m], data.objects[m])
    ensures HonestPercent(b[i].db, p, data.summary.completionPct)
    ensures data.summary.planned == |ScopedOrders(b[i].db, p)|
    ensures data.summary.done == |WithStatus(b[i].db, ScopedOrders(b[i].db, p), Done)|
    ensures data.summary.missed == |WithStatus(b[i].db, ScopedOrders(b[i].db, p), Missed)|
    ensures |data.missed| == |WithStatus(b[l].db, ScopedOrders(b[l].db, p), Missed)|
  {
    forall m | 0 <= m < |rows|
      ensures FaithfulSection(b[i].db, b[j].db, b[k].db, p, rows[m].objectId, data.objects[m], load)
      ensures rows[m].done <= |data.objects[m].jobs| + |DoneAndGone(b[i].db, b[j].db, p, rows[m].objectId)|
    {
      SectionIsFaithful(b, i, j, k, p, rows[m], data.objects[m], execs, photos, load);
      DoneSplits(b[i].db, b[j].db, p, rows[m]);
    }
    forall m | 0 <= m < |rows|
      ensures HonestLine(b[i].db, p, rows[m].objectId, data.summary.perObject[m], data.objects[m])
    {
      LineIsHonest(b[i].db, p, rows, execs, photos, missed, load, data, m);
    }
    PercentIsHonest(b[i].db, p, rows, data.summary);
    TotalsAreHonest(b[i].db, p, rows);
    MissedAreListed(b[l].db, p, missed);
  }

  /**
   Read in one snapshot, the report drops nothing: every completed execution in scope has its
   object's section, no object counts more done orders than jobs listed, and the missed total is
   the length of the missed list.
  */
  lemma ReportIsFaithful(b: seq<State>, i: nat, p: Scope, rows: seq<SummaryRow>, execs: seq<ExecRow>,
                         photos: seq<PhotoRow>, missed: seq<MissedRow>, load: Loader, data: Report)
    requires Queried(b, i, i, i, i, p, rows, execs, photos, missed) && Builds(data, rows, execs, photos, missed, load)
    ensures |data.objects| == |rows| && Distinct(rows)
    ensures forall m | 0 <= m < |rows| ::
              && FaithfulSection(b[i].db, b[i].db, b[i].db, p, rows[m].objectId, data.objects[m], load)
              && rows[m].done <= |data.objects[m].jobs|
    ensures forall e | ExecInScope(b[i].db, p, e) :: b[i].db.orders[b[i].db.execs[e].order].objectId in Known(rows)
    ensures data.summary.missed == |data.missed|
  {
    ReportAcrossReads(b, i, i, i, i, p, rows, execs, photos, missed, load, data);
    forall m | 0 <= m < |rows| ensures rows[m].done <= |data.objects[m].jobs| {
      NoneIsGone(b[i].db, p, rows[m].objectId);
    }
    forall e | ExecInScope(b[i].db, p, e) ensures b[i].db.orders[b[i].db.execs[e].order].objectId in Known(rows) {
      ScopedIsKnown(b, i, p, rows, e);
    }
  }

  lemma NoneIsGone(db: Db, p: Scope, objectId: Id)
    ensures DoneAndGone(db, db, p, objectId) == {}
  {
  }

  lemma ScopedIsKnown(b: seq<State>, i: nat, p: Scope, rows: seq<SummaryRow>, e: Id)
    requires E.IsRun(b) && i < |b| && IsSummary(b[i].db, p, rows) && ExecInScope(b[i].db, p, e)
    ensures b[i].db.orders[b[i].db.execs[e].order].objectId in Known(rows)
  {
    var objectId := b[i].db.orders[b[i].db.execs[e].order].objectId;
    ScopedExecHasScopedOrder(b, i, p, e);
    KnownHasOrders(b[i].db, p, rows, objectId);
    assert b[i].db.execs[e].order in OrdersOf(b[i].db, p, objectId);
  }
}
