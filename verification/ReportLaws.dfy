/** What a report built from query results shows, section by section and number by number. */
module ReportLaws {
  import opened Options
  import opened Tables
  import opened EvidenceState
  import opened ReportQueries
  import opened ReportData

  ghost function ExecsListed(execs: seq<ExecRow>): set<Id> {
    set r | r in execs :: r.exec
  }

  // === Filtering keeps order and contents =====================================

  ghost predicate RowBefore(a: ExecRow, b: ExecRow) {
    a.exec != b.exec && (a.objectId == b.objectId ==> a.deviceFinishedAt <= b.deviceFinishedAt)
  }

  lemma {:induction false} ExecsForKeeps(rows: seq<ExecRow>, o: Id)
    requires forall j, k | 0 <= j < k < |rows| :: RowBefore(rows[j], rows[k])
    ensures var es := ExecsFor(rows, o);
            && (forall r :: r in es <==> r in rows && r.objectId == o)
            && (forall j, k | 0 <= j < k < |es| :: RowBefore(es[j], es[k]))
  {
    if rows != [] {
      var n := |rows| - 1;
      var before := ExecsFor(rows[..n], o);
      ExecsForKeeps(rows[..n], o);
      assert rows == rows[..n] + [rows[n]];
      forall j | 0 <= j < |before| ensures RowBefore(before[j], rows[n]) {
        assert before[j] in rows[..n];
        var i :| 0 <= i < n && rows[..n][i] == before[j];
        assert RowBefore(rows[i], rows[n]);
      }
    }
  }

  lemma {:induction false} PhotosOfKeeps(rows: seq<PhotoRow>, e: Id)
    requires forall j, k | 0 <= j < k < |rows| :: PhotoRowBefore(rows[j], rows[k])
    ensures var ps := PhotosOf(rows, e);
            && (forall r :: r in ps <==> r in rows && r.exec == e)
            && (forall j, k | 0 <= j < k < |ps| :: PhotoRowBefore(ps[j], ps[k]))
  {
    if rows != [] {
      var n := |rows| - 1;
      var before := PhotosOf(rows[..n], e);
      PhotosOfKeeps(rows[..n], e);
      assert rows == rows[..n] + [rows[n]];
      forall j | 0 <= j < |before| ensures PhotoRowBefore(before[j], rows[n]) {
        assert before[j] in rows[..n];
        var i :| 0 <= i < n && rows[..n][i] == before[j];
        assert PhotoRowBefore(rows[i], rows[n]);
      }
    }
  }

  // === Photos of a job ========================================================

  ghost predicate ShowsPhoto(cell: PhotoCell, ph: Photo, load: Loader) {
    if ph.uploadedAt.None? then cell == Missing
    else load(ph.key).Some? && cell.Shown? && cell.dataUri == load(ph.key).value && cell.caption.time == ph.takenAt
         && cell.caption.coords == (if ph.lat.Some? && ph.lon.Some? then Some((ph.lat.value, ph.lon.value)) else None)
  }

  ghost predicate ShowsPhotoAt(db: Db, cell: PhotoCell, id: Id, load: Loader) {
    id in db.photos && ShowsPhoto(cell, db.photos[id], load)
  }

  /** Before, after, defect, resolution. */
  ghost predicate NotLater(a: PhotoKind, b: PhotoKind) {
    a == b || a.Before? || (a.After? && !b.Before?) || b.Resolution?
  }

  ghost predicate KindsInOrder(db: Db, a: Id, b: Id) {
    a in db.photos && b in db.photos && a != b && NotLater(db.photos[a].kind, db.photos[b].kind)
  }

  /** `ids` are the photos of execution `e`, each once, by kind, and the job shows one cell for each. */
  ghost predicate ShowsPhotos(db: Db, e: Id, cells: seq<PhotoCell>, ids: seq<Id>, load: Loader) {
    && |cells| == |ids|
    && (forall id :: id in ids <==> id in db.photos && db.photos[id].exec == e)
    && (forall k | 0 <= k < |ids| :: ShowsPhotoAt(db, cells[k], ids[k], load))
    && (forall j, k | 0 <= j < k < |ids| :: KindsInOrder(db, ids[j], ids[k]))
  }

  ghost function IdsOf(ps: seq<PhotoRow>): seq<Id> {
    seq(|ps|, k requires 0 <= k < |ps| => ps[k].id)
  }

  /** Every photo of the execution carries the execution's tenant. */
  ghost predicate PhotosBelong(db: Db, e: Id, tenant: Id) {
    forall id | id in db.photos && db.photos[id].exec == e :: db.photos[id].tenant == tenant
  }

  lemma PhotoAt(db: Db, tenant: Id, execs: set<Id>, photos: seq<PhotoRow>, e: Id, k: nat)
    requires IsPhotos(db, tenant, execs, photos) && k < |PhotosOf(photos, e)|
    ensures var r := PhotosOf(photos, e)[k];
            r.id in db.photos && db.photos[r.id].exec == e && r == RowOfPhoto(r.id, db.photos[r.id])
  {
    var r := PhotosOf(photos, e)[k];
    PhotosOfKeeps(photos, e);
    assert r in PhotosOf(photos, e);
    var j :| 0 <= j < |photos| && photos[j] == r;
  }

  lemma PhotosInOrder(db: Db, tenant: Id, execs: set<Id>, photos: seq<PhotoRow>, e: Id, j: nat, k: nat)
    requires IsPhotos(db, tenant, execs, photos) && j < k < |PhotosOf(photos, e)|
    ensures KindsInOrder(db, PhotosOf(photos, e)[j].id, PhotosOf(photos, e)[k].id)
  {
    PhotosOfKeeps(photos, e);
    PhotoAt(db, tenant, execs, photos, e, j);
    PhotoAt(db, tenant, execs, photos, e, k);
    assert PhotoRowBefore(PhotosOf(photos, e)[j], PhotosOf(photos, e)[k]);
  }

  lemma StoredPhotoIsListed(db: Db, tenant: Id, execs: set<Id>, photos: seq<PhotoRow>, e: Id, id: Id)
    requires PhotosBelong(db, e, tenant) && e in execs && IsPhotos(db, tenant, execs, photos)
    requires id in db.photos && db.photos[id].exec == e
    ensures id in IdsOf(PhotosOf(photos, e))
  {
    var ps := PhotosOf(photos, e);
    PhotosOfKeeps(photos, e);
    assert HasPhotoRow(photos, id);
    var j :| 0 <= j < |photos| && photos[j].id == id;
    assert photos[j] in photos && photos[j].exec == e;
    var k :| 0 <= k < |ps| && ps[k] == photos[j];
    assert IdsOf(ps)[k] == id;
  }

  lemma ListedPhotoIsStored(db: Db, tenant: Id, execs: set<Id>, photos: seq<PhotoRow>, e: Id, id: Id)
    requires IsPhotos(db, tenant, execs, photos) && id in IdsOf(PhotosOf(photos, e))
    ensures id in db.photos && db.photos[id].exec == e
  {
    var ids := IdsOf(PhotosOf(photos, e));
    var k :| 0 <= k < |ids| && ids[k] == id;
    PhotoAt(db, tenant, execs, photos, e, k);
  }

  lemma CellShowsPhoto(db: Db, tenant: Id, execs: set<Id>, photos: seq<PhotoRow>, e: Id, load: Loader, k: nat)
    requires IsPhotos(db, tenant, execs, photos) && k < |PhotosOf(photos, e)| && AllLoad(PhotosOf(photos, e), load)
    ensures ShowsPhotoAt(db, Cells(PhotosOf(photos, e), load)[k], PhotosOf(photos, e)[k].id, load)
  {
    var r := PhotosOf(photos, e)[k];
    PhotoAt(db, tenant, execs, photos, e, k);
    assert r in PhotosOf(photos, e) && Loads(r, load);
    assert Cells(PhotosOf(photos, e), load)[k] == CellOf(r, load);
  }

  lemma CellsShowPhotos(db: Db, tenant: Id, execs: set<Id>, photos: seq<PhotoRow>, e: Id, load: Loader)
    requires PhotosBelong(db, e, tenant) && e in execs && IsPhotos(db, tenant, execs, photos)
    requires AllLoad(PhotosOf(photos, e), load)
    ensures ShowsPhotos(db, e, Cells(PhotosOf(photos, e), load), IdsOf(PhotosOf(photos, e)), load)
  {
    var ids, cells := IdsOf(PhotosOf(photos, e)), Cells(PhotosOf(photos, e), load);
    forall id ensures id in ids <==> id in db.photos && db.photos[id].exec == e {
      if id in ids { ListedPhotoIsStored(db, tenant, execs, photos, e, id); }
      if id in db.photos && db.photos[id].exec == e { StoredPhotoIsListed(db, tenant, execs, photos, e, id); }
    }
    forall k | 0 <= k < |ids| ensures ShowsPhotoAt(db, cells[k], ids[k], load) {
      CellShowsPhoto(db, tenant, execs, photos, e, load, k);
    }
    forall j, k | 0 <= j < k < |ids| ensures KindsInOrder(db, ids[j], ids[k]) {
      PhotosInOrder(db, tenant, execs, photos, e, j, k);
    }
  }

  // === Jobs of a section ======================================================

  /** The job of execution `e`: its own date, completion, worker and checklist result as the
      executions were read, its photos as the photos were read. */
  ghost predicate ShowsExec(db: Db, photosDb: Db, job: JobRow, e: Id, load: Loader) {
    && e in db.execs && db.execs[e].order in db.orders && db.execs[e].worker in db.users
    && job.date == db.orders[db.execs[e].order].due && Some(job.finishedAt) == db.execs[e].deviceFinishedAt
    && job.worker == db.users[db.execs[e].worker].name
    && job.checked == |set i | i in db.items && db.items[i].exec == e && db.items[i].checked|
    && job.total == |set i | i in db.items && db.items[i].exec == e|
    && exists ids :: ShowsPhotos(photosDb, e, job.photos, ids, load)
  }

  ghost predicate JobsInOrder(jobs: seq<JobRow>, es: seq<Id>, j: int, k: int)
    requires 0 <= j < |jobs| == |es| && 0 <= k < |jobs|
  {
    es[j] != es[k] && jobs[j].finishedAt <= jobs[k].finishedAt
  }

  /** A finished execution of the tenant, for an order of this object that is due in the period
      and, if the report is for one contract, under it. */
  ghost predicate ScopedUnder(db: Db, p: Scope, objectId: Id, e: Id) {
    && e in db.execs && db.execs[e].tenant == p.tenant && db.execs[e].deviceFinishedAt.Some?
    && db.execs[e].worker in db.users && db.users[db.execs[e].worker].tenant == p.tenant
    && db.execs[e].order in db.orders
    && var o := db.orders[db.execs[e].order];
       && o.tenant == p.tenant && o.objectId == objectId && p.from <= o.due && o.due <= p.to
       && (p.contract.Some? ==> objectId in db.objects && db.objects[objectId].contract == p.contract)
  }

  /** `es` are the completed executions in scope of one object, each once, by completion time,
      and the section has one job for each. */
  ghost predicate ShowsObject(db: Db, photosDb: Db, p: Scope, section: ObjectSection, objectId: Id, es: seq<Id>, load: Loader) {
    && |section.jobs| == |es|
    && (forall e :: e in es <==> ScopedUnder(db, p, objectId, e))
    && (forall j, k | 0 <= j < k < |es| :: JobsInOrder(section.jobs, es, j, k))
    && (forall k | 0 <= k < |es| :: ShowsExec(db, photosDb, section.jobs[k], es[k], load))
  }

  ghost function ExecIds(rs: seq<ExecRow>): seq<Id> {
    seq(|rs|, k requires 0 <= k < |rs| => rs[k].exec)
  }

  lemma RowsAreOrdered(db: Db, p: Scope, execs: seq<ExecRow>, o: Id)
    requires IsExecutions(db, p, execs)
    ensures var rs := ExecsFor(execs, o);
            && (forall r :: r in rs <==> r in execs && r.objectId == o)
            && (forall j, k | 0 <= j < k < |rs| :: RowBefore(rs[j], rs[k]))
  {
    forall j, k | 0 <= j < k < |execs| ensures RowBefore(execs[j], execs[k]) {
    }
    ExecsForKeeps(execs, o);
  }

  lemma ExecAt(db: Db, p: Scope, execs: seq<ExecRow>, o: Id, k: nat)
    requires IsExecutions(db, p, execs) && k < |ExecsFor(execs, o)|
    ensures var r := ExecsFor(execs, o)[k]; ExecRowFits(db, p, r) && r in execs && r.objectId == o
  {
    var r := ExecsFor(execs, o)[k];
    RowsAreOrdered(db, p, execs, o);
    assert r in ExecsFor(execs, o);
    var j :| 0 <= j < |execs| && execs[j] == r;
    assert ExecRowFits(db, p, execs[j]);
  }

  lemma ListedExecIsScoped(db: Db, p: Scope, execs: seq<ExecRow>, o: Id, e: Id)
    requires IsExecutions(db, p, execs) && e in ExecIds(ExecsFor(execs, o))
    ensures ScopedUnder(db, p, o, e)
  {
    var ids := ExecIds(ExecsFor(execs, o));
    var k :| 0 <= k < |ids| && ids[k] == e;
    ExecAt(db, p, execs, o, k);
  }

  lemma ScopedExecIsListed(db: Db, p: Scope, execs: seq<ExecRow>, o: Id, e: Id)
    requires IsExecutions(db, p, execs) && ScopedUnder(db, p, o, e)
    ensures e in ExecIds(ExecsFor(execs, o))
  {
    var rs := ExecsFor(execs, o);
    RowsAreOrdered(db, p, execs, o);
    assert HasExecRow(execs, e);
    var j :| 0 <= j < |execs| && execs[j].exec == e;
    assert ExecRowFits(db, p, execs[j]) && execs[j] in execs;
    var k :| 0 <= k < |rs| && rs[k] == execs[j];
    assert ExecIds(rs)[k] == e;
  }

  lemma JobShowsExec(db: Db, photosDb: Db, p: Scope, execs: seq<ExecRow>, photos: seq<PhotoRow>, r: ExecRow, load: Loader)
    requires ExecRowFits(db, p, r) && r in execs && JobLoads(r, photos, load)
    requires PhotosBelong(photosDb, r.exec, p.tenant) && IsPhotos(photosDb, p.tenant, ExecsListed(execs), photos)
    ensures ShowsExec(db, photosDb, JobOf(r, photos, load), r.exec, load)
  {
    CellsShowPhotos(photosDb, p.tenant, ExecsListed(execs), photos, r.exec, load);
    assert ItemsOfExec(db, r.exec, true) == set i | i in db.items && db.items[i].exec == r.exec && db.items[i].checked;
    assert ItemsOfExec(db, r.exec, false) == set i | i in db.items && db.items[i].exec == r.exec;
  }

  lemma SectionShowsObject(db: Db, photosDb: Db, p: Scope, row: SummaryRow, section: ObjectSection, execs: seq<ExecRow>,
                           photos: seq<PhotoRow>, load: Loader)
    requires IsExecutions(db, p, execs) && IsPhotos(photosDb, p.tenant, ExecsListed(execs), photos)
    requires SectionBuilt(section, row, execs, photos, load)
    requires forall e | ExecInScope(db, p, e) :: PhotosBelong(photosDb, e, p.tenant)
    ensures ShowsObject(db, photosDb, p, section, row.objectId, ExecIds(ExecsFor(execs, row.objectId)), load)
  {
    var o, rs := row.objectId, ExecsFor(execs, row.objectId);
    var es := ExecIds(rs);
    forall e ensures e in es <==> ScopedUnder(db, p, o, e) {
      if e in es { ListedExecIsScoped(db, p, execs, o, e); }
      if ScopedUnder(db, p, o, e) { ScopedExecIsListed(db, p, execs, o, e); }
    }
    forall k | 0 <= k < |es| ensures ShowsExec(db, photosDb, section.jobs[k], es[k], load) {
      ExecAt(db, p, execs, o, k);
      assert section.jobs[k] == JobOf(rs[k], photos, load);
      JobShowsExec(db, photosDb, p, execs, photos, rs[k], load);
    }
    forall j, k | 0 <= j < k < |es| ensures JobsInOrder(section.jobs, es, j, k) {
      RowsAreOrdered(db, p, execs, o);
      ExecAt(db, p, execs, o, j);
      ExecAt(db, p, execs, o, k);
      assert RowBefore(rs[j], rs[k]);
      assert section.jobs[j] == JobOf(rs[j], photos, load) && section.jobs[k] == JobOf(rs[k], photos, load);
    }
  }

  // === Totals =================================================================

  ghost function Covered(db: Db, p: Scope, rows: seq<SummaryRow>): set<Id> {
    set o | o in db.orders && OrderInScope(db, p, o) && HasRow(rows, db.orders[o].objectId)
  }

  lemma CoveredSnoc(db: Db, p: Scope, rows: seq<SummaryRow>)
    requires rows != [] && Distinct(rows)
    ensures var n := |rows| - 1;
            && Covered(db, p, rows) == Covered(db, p, rows[..n]) + OrdersOf(db, p, rows[n].objectId)
            && Covered(db, p, rows[..n]) !! OrdersOf(db, p, rows[n].objectId)
  {
  }

  lemma StatusSplits(db: Db, a: set<Id>, b: set<Id>, st: OrderStatus)
    requires a !! b
    ensures |WithStatus(db, a + b, st)| == |WithStatus(db, a, st)| + |WithStatus(db, b, st)|
  {
    assert WithStatus(db, a + b, st) == WithStatus(db, a, st) + WithStatus(db, b, st);
    assert WithStatus(db, a, st) !! WithStatus(db, b, st);
  }

  /** How many orders of a set there are, are done and are missed. */
  ghost function CountsOf(db: Db, orders: set<Id>): Counts {
    Counts(|orders|, |WithStatus(db, orders, Done)|, |WithStatus(db, orders, Missed)|)
  }

  lemma CountsAdd(db: Db, a: set<Id>, b: set<Id>)
    requires a !! b
    ensures var x, y := CountsOf(db, a), CountsOf(db, b);
            CountsOf(db, a + b) == Counts(x.planned + y.planned, x.done + y.done, x.missed + y.missed)
  {
    StatusSplits(db, a, b, Done);
    StatusSplits(db, a, b, Missed);
  }

  lemma RowCounts(db: Db, p: Scope, r: SummaryRow)
    requires SummaryRowFits(db, p, r)
    ensures CountsOf(db, OrdersOf(db, p, r.objectId)) == Counts(r.planned, r.done, r.missed)
  {
  }

  lemma {:induction false} TotalsCount(db: Db, p: Scope, rows: seq<SummaryRow>)
    requires Distinct(rows) && forall k | 0 <= k < |rows| :: SummaryRowFits(db, p, rows[k])
    ensures Totals(rows) == CountsOf(db, Covered(db, p, rows))
  {
    if rows == [] {
      assert Covered(db, p, rows) == {};
    } else {
      var n := |rows| - 1;
      TotalsCount(db, p, rows[..n]);
      CoveredSnoc(db, p, rows);
      RowCounts(db, p, rows[n]);
      CountsAdd(db, Covered(db, p, rows[..n]), OrdersOf(db, p, rows[n].objectId));
    }
  }

  lemma {:induction false} DistinctLength(ids: seq<Id>)
    requires forall j, k | 0 <= j < k < |ids| :: ids[j] != ids[k]
    ensures |Elements(ids)| == |ids|
  {
    if ids == [] {
      assert Elements(ids) == {};
    } else {
      var n := |ids| - 1;
      DistinctLength(ids[..n]);
      assert ids == ids[..n] + [ids[n]];
      assert ids[n] !in Elements(ids[..n]);
      assert Elements(ids) == Elements(ids[..n]) + {ids[n]};
    }
  }

  /** The tenant's orders due in the period, for one of its objects and, if the report is for one
      contract, under that. */
  ghost function ScopedOrders(db: Db, p: Scope): set<Id> {
    set o | && o in db.orders && db.orders[o].tenant == p.tenant && p.from <= db.orders[o].due && db.orders[o].due <= p.to
            && db.orders[o].objectId in db.objects && db.objects[db.orders[o].objectId].tenant == p.tenant
            && (p.contract.Some? ==> db.objects[db.orders[o].objectId].contract == p.contract)
  }

  /** The headline numbers count each order in scope once. */
  lemma TotalsAreHonest(db: Db, p: Scope, rows: seq<SummaryRow>)
    requires IsSummary(db, p, rows)
    ensures Totals(rows) == CountsOf(db, ScopedOrders(db, p))
  {
    TotalsCount(db, p, rows);
    assert Covered(db, p, rows) == ScopedOrders(db, p);
  }

  /** And the missed list has one row for each missed order in scope. */
  lemma MissedAreListed(db: Db, p: Scope, missed: seq<MissedRow>)
    requires IsMissed(db, p, missed)
    ensures |WithStatus(db, ScopedOrders(db, p), Missed)| == |missed|
  {
    var ids :| ListsMissed(db, p, ids, missed);
    forall o ensures o in WithStatus(db, ScopedOrders(db, p), Missed) <==> o in Elements(ids) {
      ListedIsMissed(db, p, ids, missed, o);
    }
    assert WithStatus(db, ScopedOrders(db, p), Missed) == Elements(ids);
    DistinctLength(ids);
  }

  lemma ListedIsMissed(db: Db, p: Scope, ids: seq<Id>, missed: seq<MissedRow>, o: Id)
    requires ListsMissed(db, p, ids, missed)
    ensures o in ids <==> OrderInScope(db, p, o) && db.orders[o].status == Missed
  {
    if o in ids {
      var k :| 0 <= k < |ids| && ids[k] == o;
      assert MissedInScope(db, p, ids[k]);
    }
    assert MissedInScope(db, p, o) ==> o in ids;
  }

  // === Done orders have jobs ==================================================

  ghost function OrdersNamed(execs: map<Id, Exec>, es: set<Id>): set<Id>
    requires es <= execs.Keys
  {
    set e | e in es :: execs[e].order
  }

  lemma {:induction false} OrdersNamedSize(execs: map<Id, Exec>, es: set<Id>)
    requires es <= execs.Keys
    ensures |OrdersNamed(execs, es)| <= |es|
    decreases |es|
  {
    if es == {} {
      assert OrdersNamed(execs, es) == {};
    } else {
      var x :| x in es;
      OrdersNamedSize(execs, es - {x});
      assert OrdersNamed(execs, es) == OrdersNamed(execs, es - {x}) + {execs[x].order};
    }
  }

  lemma JobsBoundOrders(db: Db, es: seq<Id>, orders: set<Id>)
    requires forall j, k | 0 <= j < k < |es| :: es[j] != es[k]
    requires forall e | e in es :: e in db.execs
    requires forall o | o in orders :: JobOfOrder(db, es, o)
    ensures |orders| <= |es|
  {
    var ids := Elements(es);
    OrdersNamedSize(db.execs, ids);
    DistinctLength(es);
    forall o | o in orders ensures o in OrdersNamed(db.execs, ids) {
      assert JobOfOrder(db, es, o);
      var k :| 0 <= k < |es| && es[k] in db.execs && db.execs[es[k]].order == o;
      assert es[k] in ids;
    }
    SubsetSize(orders, OrdersNamed(db.execs, ids));
  }

  ghost predicate JobOfOrder(db: Db, es: seq<Id>, o: Id) {
    exists k :: 0 <= k < |es| && es[k] in db.execs && db.execs[es[k]].order == o
  }

  lemma {:induction false} SubsetSize(a: set<Id>, b: set<Id>)
    requires a <= b
    ensures |a| <= |b|
    decreases |a|
  {
    if a != {} {
      var x :| x in a;
      SubsetSize(a - {x}, b - {x});
      assert x in b && |b - {x}| == |b| - 1 && |a - {x}| == |a| - 1;
    }
  }
}
