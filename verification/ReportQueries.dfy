/**
 What the report's queries return for a tenant, a period and possibly one contract, as
 relations between one database snapshot and the rows. How the database collates names and
 addresses is left open: a listing may come in any order the query does not fix by ids or times.
*/
module ReportQueries {
  import opened Options
  import opened Tables

  datatype Scope = Scope(tenant: Id, from: Day, to: Day, contract: Option<Id>)

  datatype SummaryRow = SummaryRow(objectId: Id, name: string, address: Option<string>, planned: nat, done: nat, missed: nat)
  datatype ExecRow = ExecRow(objectId: Id, exec: Id, due: Day, deviceFinishedAt: Time, worker: string, checked: nat, total: nat)
  datatype PhotoRow = PhotoRow(exec: Id, id: Id, kind: PhotoKind, key: S3Key, takenAt: Option<Time>,
                               lat: Option<real>, lon: Option<real>, uploadedAt: Option<Time>)
  datatype MissedRow = MissedRow(name: string, due: Day)

  // === ReportSummaryRows ======================================================

  predicate ContractOk(db: Db, p: Scope, o: Id) {
    p.contract.None? || (o in db.objects && db.objects[o].contract == p.contract)
  }

  predicate OrderInScope(db: Db, p: Scope, o: Id) {
    && o in db.orders && db.orders[o].tenant == p.tenant && p.from <= db.orders[o].due <= p.to
    && db.orders[o].objectId in db.objects && db.objects[db.orders[o].objectId].tenant == p.tenant
    && ContractOk(db, p, db.orders[o].objectId)
  }

  function OrdersOf(db: Db, p: Scope, objectId: Id): set<Id> {
    set o | o in db.orders && OrderInScope(db, p, o) && db.orders[o].objectId == objectId
  }

  function WithStatus(db: Db, os: set<Id>, st: OrderStatus): set<Id> {
    set o | o in os && o in db.orders && db.orders[o].status == st
  }

  ghost predicate SummaryRowFits(db: Db, p: Scope, r: SummaryRow) {
    && r.objectId in db.objects && r.name == db.objects[r.objectId].name && r.address == db.objects[r.objectId].address
    && r.planned == |OrdersOf(db, p, r.objectId)| > 0
    && r.done == |WithStatus(db, OrdersOf(db, p, r.objectId), Done)|
    && r.missed == |WithStatus(db, OrdersOf(db, p, r.objectId), Missed)|
  }

  ghost predicate HasRow(rows: seq<SummaryRow>, objectId: Id) {
    exists k :: 0 <= k < |rows| && rows[k].objectId == objectId
  }

  /** One group per object that has an order in scope, and no other. */
  ghost predicate IsSummary(db: Db, p: Scope, rows: seq<SummaryRow>) {
    && (forall j, k | 0 <= j < k < |rows| :: rows[j].objectId != rows[k].objectId)
    && (forall k | 0 <= k < |rows| :: SummaryRowFits(db, p, rows[k]))
    && (forall o | OrderInScope(db, p, o) :: HasRow(rows, db.orders[o].objectId))
  }

  // === ReportObjectExecutions =================================================

  predicate ExecInScope(db: Db, p: Scope, e: Id) {
    && e in db.execs && db.execs[e].tenant == p.tenant && db.execs[e].deviceFinishedAt.Some?
    && db.execs[e].order in db.orders && db.orders[db.execs[e].order].tenant == p.tenant
    && db.execs[e].worker in db.users && db.users[db.execs[e].worker].tenant == p.tenant
    && p.from <= db.orders[db.execs[e].order].due <= p.to
    && ContractOk(db, p, db.orders[db.execs[e].order].objectId)
  }

  function ItemsOfExec(db: Db, e: Id, onlyChecked: bool): set<Id> {
    set i | i in db.items && db.items[i].exec == e && (onlyChecked ==> db.items[i].checked)
  }

  ghost predicate ExecRowFits(db: Db, p: Scope, r: ExecRow) {
    && ExecInScope(db, p, r.exec)
    && var e := db.execs[r.exec];
       && r.objectId == db.orders[e.order].objectId && r.due == db.orders[e.order].due
       && r.deviceFinishedAt == e.deviceFinishedAt.value && r.worker == db.users[e.worker].name
       && r.checked == |ItemsOfExec(db, r.exec, true)| && r.total == |ItemsOfExec(db, r.exec, false)|
  }

  ghost predicate HasExecRow(rows: seq<ExecRow>, e: Id) {
    exists k :: 0 <= k < |rows| && rows[k].exec == e
  }

  /** Ordered by object, then completion. */
  ghost predicate IsExecutions(db: Db, p: Scope, rows: seq<ExecRow>) {
    && (forall j, k | 0 <= j < k < |rows| :: rows[j].exec != rows[k].exec)
    && (forall j, k | 0 <= j < k < |rows| ::
          rows[j].objectId < rows[k].objectId
          || (rows[j].objectId == rows[k].objectId && rows[j].deviceFinishedAt <= rows[k].deviceFinishedAt))
    && (forall k | 0 <= k < |rows| :: ExecRowFits(db, p, rows[k]))
    && (forall e | ExecInScope(db, p, e) :: HasExecRow(rows, e))
  }

  // === ReportExecutionPhotos ==================================================

  function KindRank(k: PhotoKind): nat {
    match k case Before => 0 case After => 1 case Defect => 2 case Resolution => 3
  }

  function RowOfPhoto(id: Id, p: Photo): PhotoRow {
    PhotoRow(p.exec, id, p.kind, p.key, p.takenAt, p.lat, p.lon, p.uploadedAt)
  }

  ghost predicate HasPhotoRow(rows: seq<PhotoRow>, id: Id) {
    exists k :: 0 <= k < |rows| && rows[k].id == id
  }

  /** Ordered by execution, then kind in declaration order, then id. */
  ghost predicate IsPhotos(db: Db, tenant: Id, execs: set<Id>, rows: seq<PhotoRow>) {
    && (forall j, k | 0 <= j < k < |rows| :: PhotoRowBefore(rows[j], rows[k]))
    && (forall k | 0 <= k < |rows| ::
          && rows[k].id in db.photos && rows[k] == RowOfPhoto(rows[k].id, db.photos[rows[k].id])
          && db.photos[rows[k].id].tenant == tenant && rows[k].exec in execs)
    && (forall id | id in db.photos && db.photos[id].tenant == tenant && db.photos[id].exec in execs :: HasPhotoRow(rows, id))
  }

  predicate PhotoRowBefore(a: PhotoRow, b: PhotoRow) {
    a.exec < b.exec || (a.exec == b.exec && (KindRank(a.kind) < KindRank(b.kind) || (a.kind == b.kind && a.id < b.id)))
  }

  // === ReportMissedOrders =====================================================

  predicate MissedInScope(db: Db, p: Scope, o: Id) {
    OrderInScope(db, p, o) && db.orders[o].status == Missed
  }

  /** The rows carry no order id: `ids` says which order each row is. */
  ghost predicate ListsMissed(db: Db, p: Scope, ids: seq<Id>, rows: seq<MissedRow>) {
    && |ids| == |rows|
    && (forall j, k | 0 <= j < k < |ids| :: ids[j] != ids[k])
    && (forall k | 0 <= k < |ids| :: MissedInScope(db, p, ids[k])
          && rows[k] == MissedRow(db.objects[db.orders[ids[k]].objectId].name, db.orders[ids[k]].due))
    && (forall o | MissedInScope(db, p, o) :: o in ids)
  }

  ghost predicate IsMissed(db: Db, p: Scope, rows: seq<MissedRow>) {
    exists ids :: ListsMissed(db, p, ids, rows)
  }
}
