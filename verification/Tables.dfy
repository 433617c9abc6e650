/**
 The evidence tables and the statements that write them, each as a function from table to
 table. Times are instants, dates are day numbers in the tenant's calendar.
*/
module Tables {
  import opened Options

  type Id = nat
  type Time = int
  type Day = int

  datatype TenantStatus = Trial | Active | Suspended | Archived
  datatype Role = Admin | Manager | Worker
  datatype OrderStatus = Scheduled | InProgress | Done | Missed
  datatype PhotoKind = Before | After | Defect | Resolution

  datatype Tenant = Tenant(status: TenantStatus, suspendedAt: Option<Time>)
  datatype User = User(tenant: Id, role: Role, name: string, active: bool)
  datatype Object = Object(tenant: Id, name: string, address: Option<string>, active: bool, contract: Option<Id>)
  datatype Order = Order(tenant: Id, objectId: Id, version: Id, assignee: Option<Id>, due: Day, status: OrderStatus)
  datatype Exec = Exec(tenant: Id, order: Id, worker: Id, startedAt: Option<Time>, deviceFinishedAt: Option<Time>,
                       finishedAt: Option<Time>, note: Option<string>)
  datatype Item = Item(exec: Id, template: Id, checked: bool, checkedAt: Option<Time>)

  /** tenants/<tenant>/photos/<photo>.jpg */
  datatype S3Key = PhotoKey(tenant: Id, photo: Id)
  datatype Photo = Photo(tenant: Id, exec: Id, kind: PhotoKind, key: S3Key, takenAt: Option<Time>,
                         lat: Option<real>, lon: Option<real>, uploadedAt: Option<Time>, createdAt: Time)

  /** `versions` maps a checklist version to the tenant of its template, `templateItems` a
      template item to its version. */
  datatype Db = Db(
    tenants: map<Id, Tenant>,
    users: map<Id, User>,
    objects: map<Id, Object>,
    versions: map<Id, Id>,
    templateItems: map<Id, Id>,
    orders: map<Id, Order>,
    execs: map<Id, Exec>,
    items: map<Id, Item>,
    photos: map<Id, Photo>)

  function Elements(ids: seq<Id>): set<Id> {
    set i | i in ids
  }

  // === Worker: the execution upsert ===========================================

  datatype ItemInput = ItemInput(id: Id, template: Id, checked: bool, checkedAt: Option<Time>)

  /** The full-state snapshot a worker's device submits. */
  datatype Snapshot = Snapshot(order: Id, startedAt: Option<Time>, deviceFinishedAt: Option<Time>,
                               note: Option<string>, items: seq<ItemInput>)

  datatype UpsertError = NotAssigned | ExecutionIdConflict | InvalidChecklistItem | ItemConflict

  datatype Result<T> = Ok(value: T) | Err(error: UpsertError)

  /** GetWorkOrderForWorker and the assignee check. */
  predicate AssignedTo(db: Db, tenant: Id, worker: Id, order: Id) {
    order in db.orders && db.orders[order].tenant == tenant && db.orders[order].assignee == Some(worker)
  }

  /** UpsertWorkExecution: INSERT ... ON CONFLICT (id) DO UPDATE ... WHERE same tenant and worker. */
  function PutExec(execs: map<Id, Exec>, id: Id, tenant: Id, worker: Id, snap: Snapshot, now: Time): map<Id, Exec> {
    var stamp := if snap.deviceFinishedAt.Some? then Some(now) else None;
    if id !in execs then
      execs[id := Exec(tenant, snap.order, worker, snap.startedAt, snap.deviceFinishedAt, stamp, snap.note)]
    else if execs[id].tenant == tenant && execs[id].worker == worker then
      execs[id := execs[id].(startedAt := snap.startedAt,
                             deviceFinishedAt := Coalesce(execs[id].deviceFinishedAt, snap.deviceFinishedAt),
                             finishedAt := Coalesce(execs[id].finishedAt, stamp),
                             note := snap.note)]
    else execs
  }

  /** GetExecution and the ownership checks on what it returns. */
  predicate Owns(execs: map<Id, Exec>, id: Id, tenant: Id, worker: Id, order: Id) {
    id in execs && execs[id].tenant == tenant && execs[id].worker == worker && execs[id].order == order
  }

  /** `t` is among ListChecklistItemsByVersions of this one version, for this tenant. */
  predicate AllowedTemplate(templateItems: map<Id, Id>, versions: map<Id, Id>, tenant: Id, version: Id, t: Id) {
    t in templateItems && templateItems[t] == version && version in versions && versions[version] == tenant
  }

  predicate TemplatesOk(db: Db, tenant: Id, version: Id, its: seq<ItemInput>) {
    forall it | it in its :: AllowedTemplate(db.templateItems, db.versions, tenant, version, it.template)
  }

  /** DeleteExecutionItemsNotIn */
  function PruneItems(items: map<Id, Item>, exec: Id, keep: set<Id>): map<Id, Item> {
    map i | i in items && (items[i].exec != exec || i in keep) :: items[i]
  }

  /** UpsertWorkExecutionItem affects a row unless the id belongs to another execution. */
  predicate ItemWritable(items: map<Id, Item>, exec: Id, it: ItemInput) {
    it.id in items ==> items[it.id].exec == exec
  }

  function PutItem(items: map<Id, Item>, exec: Id, it: ItemInput): map<Id, Item>
    requires ItemWritable(items, exec, it)
  {
    if it.id in items then items[it.id := items[it.id].(checked := it.checked, checkedAt := it.checkedAt)]
    else items[it.id := Item(exec, it.template, it.checked, it.checkedAt)]
  }

  /** The item loop; None when one statement affects no row. */
  function PutItems(items: map<Id, Item>, exec: Id, its: seq<ItemInput>): Option<map<Id, Item>> {
    if its == [] then Some(items)
    else
      var n := |its| - 1;
      var before := PutItems(items, exec, its[..n]);
      if before.Some? && ItemWritable(before.value, exec, its[n]) then Some(PutItem(before.value, exec, its[n]))
      else None
  }

  /** An item loop that fails on a prefix has failed. */
  lemma {:induction false} PutItemsPrefix(items: map<Id, Item>, exec: Id, its: seq<ItemInput>, k: nat)
    requires k <= |its| && PutItems(items, exec, its[..k]).None?
    ensures PutItems(items, exec, its).None?
  {
    if k < |its| {
      assert its[..|its| - 1][..k] == its[..k];
      PutItemsPrefix(items, exec, its[..|its| - 1], k);
    } else {
      assert its[..k] == its;
    }
  }

  function ItemIds(its: seq<ItemInput>): set<Id> {
    set it | it in its :: it.id
  }

  /** SetWorkOrderStatus, to what the stored execution says. */
  function StatusFor(e: Exec): OrderStatus {
    if e.deviceFinishedAt.Some? then Done else InProgress
  }

  /** UpsertExecution as one transaction: the database it commits, or why it rolls back. */
  function Upsert(db: Db, tenant: Id, worker: Id, id: Id, snap: Snapshot, now: Time): Result<Db> {
    if !AssignedTo(db, tenant, worker, snap.order) then Err(NotAssigned)
    else
      var execs := PutExec(db.execs, id, tenant, worker, snap, now);
      if !Owns(execs, id, tenant, worker, snap.order) then Err(ExecutionIdConflict)
      else if !TemplatesOk(db, tenant, db.orders[snap.order].version, snap.items) then Err(InvalidChecklistItem)
      else
        var items := PutItems(PruneItems(db.items, id, ItemIds(snap.items)), id, snap.items);
        if items.None? then Err(ItemConflict)
        else Ok(db.(execs := execs, items := items.value,
                    orders := db.orders[snap.order := db.orders[snap.order].(status := StatusFor(execs[id]))]))
  }

  // === Staff: bulk create and patch ===========================================

  datatype NewOrder = NewOrder(id: Id, objectId: Id, version: Id, assignee: Option<Id>, due: Day)

  predicate ActiveObject(db: Db, tenant: Id, o: Id) {
    o in db.objects && db.objects[o].tenant == tenant && db.objects[o].active
  }

  predicate VersionOf(db: Db, tenant: Id, v: Id) {
    v in db.versions && db.versions[v] == tenant
  }

  predicate ActiveWorker(db: Db, tenant: Id, u: Id) {
    u in db.users && db.users[u].tenant == tenant && db.users[u].role == Worker && db.users[u].active
  }

  predicate ReferencesOk(db: Db, tenant: Id, n: NewOrder) {
    && ActiveObject(db, tenant, n.objectId) && VersionOf(db, tenant, n.version)
    && (n.assignee.Some? ==> ActiveWorker(db, tenant, n.assignee.value))
  }

  function InsertOrder(orders: map<Id, Order>, tenant: Id, n: NewOrder): map<Id, Order> {
    orders[n.id := Order(tenant, n.objectId, n.version, n.assignee, n.due, Scheduled)]
  }

  function InsertOrders(orders: map<Id, Order>, tenant: Id, batch: seq<NewOrder>): map<Id, Order> {
    if batch == [] then orders
    else InsertOrder(InsertOrders(orders, tenant, batch[..|batch| - 1]), tenant, batch[|batch| - 1])
  }

  ghost predicate CameFrom(batch: seq<NewOrder>, n: NewOrder, tenant: Id, o: Id, row: Order) {
    n in batch && n.id == o && row == Order(tenant, n.objectId, n.version, n.assignee, n.due, Scheduled)
  }

  /** Every order afterwards was there before, or is one of the batch. */
  lemma {:induction false} InsertOrdersRows(orders: map<Id, Order>, tenant: Id, batch: seq<NewOrder>)
    requires forall i | 0 <= i < |batch| :: batch[i].id !in orders
    ensures var orders' := InsertOrders(orders, tenant, batch);
            && (forall o | o in orders :: o in orders' && orders'[o] == orders[o])
            && (forall o | o in orders' && o !in orders ::
                  exists n :: CameFrom(batch, n, tenant, o, orders'[o]))
  {
    if batch != [] {
      var k := |batch| - 1;
      InsertOrdersRows(orders, tenant, batch[..k]);
      forall o | o in InsertOrders(orders, tenant, batch) && o !in orders
        ensures exists n :: CameFrom(batch, n, tenant, o, InsertOrders(orders, tenant, batch)[o])
      {
        if o == batch[k].id {
          assert CameFrom(batch, batch[k], tenant, o, InsertOrders(orders, tenant, batch)[o]);
        } else {
          var n :| CameFrom(batch[..k], n, tenant, o, InsertOrders(orders, tenant, batch[..k])[o]);
          assert CameFrom(batch, n, tenant, o, InsertOrders(orders, tenant, batch)[o]);
        }
      }
    }
  }

  /** Ids are fresh random UUIDs. */
  predicate FreshIds(orders: map<Id, Order>, batch: seq<NewOrder>) {
    && (forall i | 0 <= i < |batch| :: batch[i].id !in orders)
    && (forall i, j | 0 <= i < j < |batch| :: batch[i].id != batch[j].id)
  }

  function BulkCreate(db: Db, tenant: Id, batch: seq<NewOrder>): Option<Db> {
    if exists n | n in batch :: !ReferencesOk(db, tenant, n) then None
    else Some(db.(orders := InsertOrders(db.orders, tenant, batch)))
  }

  /** What of the reference checks still holds whenever the write comes: the rows exist and are
      the tenant's. A worker or an object may have been deactivated since. */
  predicate WorkerOf(db: Db, tenant: Id, u: Id) {
    u in db.users && db.users[u].tenant == tenant
  }

  predicate ReferencesInTenant(db: Db, tenant: Id, n: NewOrder) {
    && n.objectId in db.objects && db.objects[n.objectId].tenant == tenant && VersionOf(db, tenant, n.version)
    && (n.assignee.Some? ==> WorkerOf(db, tenant, n.assignee.value))
  }

  /** UpdateWorkOrder: a null keeps the column. */
  function UpdateOrder(orders: map<Id, Order>, tenant: Id, id: Id, assignee: Option<Id>, due: Option<Day>): map<Id, Order> {
    if id in orders && orders[id].tenant == tenant then
      var o := orders[id];
      orders[id := o.(assignee := Coalesce(assignee, o.assignee), due := if due.Some? then due.value else o.due)]
    else orders
  }

  /** patchStaffWorkOrder */
  function PatchOrder(db: Db, tenant: Id, id: Id, assignee: Option<Id>, due: Option<Day>): Option<Db> {
    if assignee.Some? && !ActiveWorker(db, tenant, assignee.value) then None
    else if id !in db.orders || db.orders[id].tenant != tenant then None
    else Some(db.(orders := UpdateOrder(db.orders, tenant, id, assignee, due)))
  }

  // === Scheduler ==============================================================

  predicate Overdue(o: Order, tenant: Id, today: Day) {
    o.tenant == tenant && o.status == Scheduled && o.due < today
  }

  /** MarkTenantOverdueOrdersMissed */
  function MarkMissed(orders: map<Id, Order>, tenant: Id, today: Day): map<Id, Order> {
    map o | o in orders :: if Overdue(orders[o], tenant, today) then orders[o].(status := Missed) else orders[o]
  }

  // === Photos =================================================================

  function S3KeyOf(tenant: Id, photo: Id): S3Key {
    PhotoKey(tenant, photo)
  }

  /** InsertPhotoPresign: ON CONFLICT (id) DO NOTHING */
  function PresignRow(photos: map<Id, Photo>, id: Id, tenant: Id, exec: Id, kind: PhotoKind, now: Time): map<Id, Photo> {
    if id in photos then photos
    else photos[id := Photo(tenant, exec, kind, S3KeyOf(tenant, id), None, None, None, None, now)]
  }

  /** The checks on the row that presign reads back. */
  predicate PresignStands(photos: map<Id, Photo>, id: Id, tenant: Id, exec: Id, kind: PhotoKind) {
    && id in photos && photos[id].tenant == tenant && photos[id].exec == exec && photos[id].kind == kind
    && photos[id].uploadedAt.None?
  }

  /** ConfirmPhoto */
  function ConfirmRow(photos: map<Id, Photo>, id: Id, tenant: Id, takenAt: Option<Time>, lat: Option<real>,
                      lon: Option<real>, now: Time): map<Id, Photo> {
    if id in photos && photos[id].tenant == tenant then
      var p := photos[id];
      photos[id := p.(uploadedAt := Coalesce(p.uploadedAt, Some(now)), takenAt := Coalesce(p.takenAt, takenAt),
                      lat := Coalesce(p.lat, lat), lon := Coalesce(p.lon, lon))]
    else photos
  }

  /** DeletePhotoRow: ... AND uploaded_at IS NULL */
  function DeleteOrphan(photos: map<Id, Photo>, id: Id): map<Id, Photo> {
    if id in photos && photos[id].uploadedAt.None? then photos - {id} else photos
  }

  // === The suspension gate ====================================================

  /** evidenceSuspensionGate, on the suspended_at it read. */
  predicate GateAllows(suspendedAt: Option<Time>, deviceFinishedAt: Option<Time>) {
    suspendedAt.Some? ==> deviceFinishedAt.Some? && deviceFinishedAt.value < suspendedAt.value
  }
}
