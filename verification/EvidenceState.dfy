/**
 The evidence system as concurrent transactions: worker upserts, photo presign and confirm,
 the garbage collector, staff writes, the missed sweep and the operator's suspensions.

 `db` holds committed rows. An upsert holds its order row FOR UPDATE from the moment it has
 read it until it ends. `history` is read by no step: it is what the theorems talk about.
*/
module EvidenceState {
  import opened Options
  import opened Tables
  import opened UpsertLaws

  type Bytes = seq<bv8>

  /** `gate` is the suspended_at that the request's gate read. */
  datatype UpsertCall = UpsertCall(tenant: Id, worker: Id, id: Id, snap: Snapshot, gate: Option<Time>, locked: bool)

  /** How far a presign, a confirm or one photo of a garbage collection has got. */
  datatype PhotoCall =
    | PresignLoaded(tenant: Id, worker: Id, photo: Id, exec: Id, kind: PhotoKind, device: Option<Time>)   // owner checked
    | PresignAllowed(tenant: Id, worker: Id, photo: Id, exec: Id, kind: PhotoKind)            // gate passed
    | PresignInserted(tenant: Id, worker: Id, photo: Id, exec: Id, kind: PhotoKind)
    | PresignVerified(tenant: Id, worker: Id, photo: Id, exec: Id, kind: PhotoKind)   // row re-read: ours and unconfirmed
    | ConfirmLoaded(tenant: Id, worker: Id, photo: Id, row: Photo)
    | ConfirmOwned(tenant: Id, worker: Id, photo: Id, exec: Id, key: S3Key, device: Option<Time>)
    | ConfirmAllowed(tenant: Id, worker: Id, photo: Id, exec: Id, key: S3Key)
    | ConfirmSeen(tenant: Id, worker: Id, photo: Id, exec: Id, key: S3Key)            // Exists said yes
    | GcListed(photo: Id, key: S3Key, cutoff: Time)
    | GcAbsent(photo: Id, key: S3Key, cutoff: Time)           // Exists said no

  /**
   `accepted` lists, per execution, the snapshots committed so far; `last` names, per order,
   the execution of the last committed upsert; `firstSuspended` is the time a tenant was first
   suspended at and `clock` the latest time any suspension has used; `confirms` lists, per photo,
   what its confirms were told.
  */
  datatype History = History(accepted: map<Id, seq<Submission>>, last: map<Id, Id>,
                             firstSuspended: map<Id, Time>, clock: Time, confirms: map<Id, seq<Confirmation>>)

  datatype Confirmation = Confirmation(takenAt: Option<Time>, lat: Option<real>, lon: Option<real>, at: Time)

  datatype State = State(
    db: Db,
    upserts: map<Id, UpsertCall>,
    photoCalls: map<Id, PhotoCall>,
    store: map<S3Key, Bytes>,
    grants: set<S3Key>,
    history: History)

  // === Invariant ==============================================================

  ghost predicate OrderRowOk(o: Order, objects: map<Id, Object>, versions: map<Id, Id>, users: map<Id, User>) {
    && o.objectId in objects && objects[o.objectId].tenant == o.tenant
    && o.version in versions && versions[o.version] == o.tenant
    && (o.assignee.Some? ==> o.assignee.value in users && users[o.assignee.value].tenant == o.tenant)
  }

  /** An order's object, checklist version and assignee belong to the order's tenant. */
  ghost predicate OrdersOk(orders: map<Id, Order>, objects: map<Id, Object>, versions: map<Id, Id>, users: map<Id, User>) {
    forall o | o in orders :: OrderRowOk(orders[o], objects, versions, users)
  }

  ghost predicate ExecRowOk(e: Exec, orders: map<Id, Order>, users: map<Id, User>) {
    && e.order in orders && orders[e.order].tenant == e.tenant
    && e.worker in users && users[e.worker].tenant == e.tenant
  }

  ghost predicate ExecsOk(execs: map<Id, Exec>, orders: map<Id, Order>, users: map<Id, User>) {
    forall e | e in execs :: ExecRowOk(execs[e], orders, users)
  }

  ghost predicate ItemRowOk(i: Item, execs: map<Id, Exec>, orders: map<Id, Order>, templateItems: map<Id, Id>) {
    && i.exec in execs && execs[i.exec].order in orders
    && i.template in templateItems && templateItems[i.template] == orders[execs[i.exec].order].version
  }

  /** Every stored item refers to a template item of the version its execution's order pins. */
  ghost predicate ItemsOk(items: map<Id, Item>, execs: map<Id, Exec>, orders: map<Id, Order>, templateItems: map<Id, Id>) {
    forall i | i in items :: ItemRowOk(items[i], execs, orders, templateItems)
  }

  ghost predicate OrderStatusOk(o: Id, status: OrderStatus, execs: map<Id, Exec>, last: map<Id, Id>) {
    if o in last then last[o] in execs && execs[last[o]].order == o && status == StatusFor(execs[last[o]])
    else status == Scheduled || status == Missed
  }

  /** An order's status is that of its last upserted execution; without one it is untouched. */
  ghost predicate StatusOk(orders: map<Id, Order>, execs: map<Id, Exec>, last: map<Id, Id>) {
    && last.Keys <= orders.Keys
    && (forall o | o in orders :: OrderStatusOk(o, orders[o].status, execs, last))
    && (forall e | e in execs :: execs[e].order in last)
  }

  ghost predicate ViewOk(execs: map<Id, Exec>, items: map<Id, Item>, e: Id, subs: seq<Submission>)
    requires e in execs
  {
    subs != [] && FoldView(subs) == Some(ViewIn(execs, items, e))
  }

  /** What is stored for an execution is the fold of the snapshots accepted for it. */
  ghost predicate ViewsOk(execs: map<Id, Exec>, items: map<Id, Item>, accepted: map<Id, seq<Submission>>) {
    && execs.Keys == accepted.Keys
    && forall e | e in execs :: ViewOk(execs, items, e, accepted[e])
  }

  ghost predicate CallOk(k: UpsertCall, orders: map<Id, Order>, users: map<Id, User>) {
    && k.worker in users && users[k.worker].tenant == k.tenant
    && GateAllows(k.gate, k.snap.deviceFinishedAt)
    && (k.locked ==> k.snap.order in orders && orders[k.snap.order].tenant == k.tenant
                     && orders[k.snap.order].assignee == Some(k.worker))
  }

  ghost predicate UpsertsOk(upserts: map<Id, UpsertCall>, orders: map<Id, Order>, users: map<Id, User>) {
    && (forall c | c in upserts :: CallOk(upserts[c], orders, users))
    && (forall c, d | c in upserts && d in upserts && c != d ::
          !(upserts[c].locked && upserts[d].locked && upserts[c].snap.order == upserts[d].snap.order))
  }

  ghost predicate PhotoRowOk(id: Id, p: Photo, execs: map<Id, Exec>, stored: set<S3Key>) {
    && p.exec in execs && execs[p.exec].tenant == p.tenant
    && p.key == PhotoKey(p.tenant, id)
    && (p.uploadedAt.Some? ==> p.key in stored)
  }

  ghost predicate PhotosOk(photos: map<Id, Photo>, execs: map<Id, Exec>, stored: set<S3Key>) {
    forall p | p in photos :: PhotoRowOk(p, photos[p], execs, stored)
  }

  ghost predicate PhotoCallOk(k: PhotoCall, execs: map<Id, Exec>, stored: set<S3Key>) {
    match k
    case PresignLoaded(t, _, _, e, _, _) => e in execs && execs[e].tenant == t
    case PresignAllowed(t, _, _, e, _) => e in execs && execs[e].tenant == t
    case ConfirmLoaded(t, _, p, row) => row.key == PhotoKey(t, p)
    case ConfirmOwned(t, _, p, _, key, _) => key == PhotoKey(t, p)
    case ConfirmAllowed(t, _, p, _, key) => key == PhotoKey(t, p)
    case ConfirmSeen(t, _, p, _, key) => key == PhotoKey(t, p) && key in stored
    case _ => true
  }

  ghost predicate PhotoCallsOk(calls: map<Id, PhotoCall>, execs: map<Id, Exec>, stored: set<S3Key>) {
    forall c | c in calls :: PhotoCallOk(calls[c], execs, stored)
  }

  ghost predicate TenantOk(t: Id, row: Tenant, firstSuspended: map<Id, Time>) {
    && (row.status == Suspended <==> row.suspendedAt.Some?)
    && (row.suspendedAt.Some? ==> t in firstSuspended && firstSuspended[t] <= row.suspendedAt.value)
  }

  ghost predicate TenantsOk(tenants: map<Id, Tenant>, users: map<Id, User>, h: History) {
    && (forall t | t in tenants :: TenantOk(t, tenants[t], h.firstSuspended))
    && (forall t | t in h.firstSuspended :: h.firstSuspended[t] <= h.clock)
    && (forall u | u in users :: users[u].tenant in tenants)
  }

  ghost predicate Inv(s: State) {
    && OrdersOk(s.db.orders, s.db.objects, s.db.versions, s.db.users)
    && ExecsOk(s.db.execs, s.db.orders, s.db.users)
    && ItemsOk(s.db.items, s.db.execs, s.db.orders, s.db.templateItems)
    && StatusOk(s.db.orders, s.db.execs, s.history.last)
    && ViewsOk(s.db.execs, s.db.items, s.history.accepted)
    && UpsertsOk(s.upserts, s.db.orders, s.db.users)
    && PhotosOk(s.db.photos, s.db.execs, s.store.Keys)
    && PhotoCallsOk(s.photoCalls, s.db.execs, s.store.Keys)
    && TenantsOk(s.db.tenants, s.db.users, s.history)
  }

  // === What only grows ========================================================

  ghost predicate WriteOnce<T>(a: Option<T>, b: Option<T>) {
    a.Some? ==> b == a
  }

  /** An execution row stays, bound to the same tenant, order and worker; its completion and
      the server's stamp are written at most once. */
  ghost predicate ExecGrows(e: Exec, e': Exec) {
    && e'.tenant == e.tenant && e'.order == e.order && e'.worker == e.worker
    && WriteOnce(e.deviceFinishedAt, e'.deviceFinishedAt) && WriteOnce(e.finishedAt, e'.finishedAt)
  }

  ghost predicate ExecsGrow(a: map<Id, Exec>, b: map<Id, Exec>) {
    forall e | e in a :: e in b && ExecGrows(a[e], b[e])
  }

  /** An order keeps its tenant, object and version for good and never returns to scheduled. */
  ghost predicate OrderGrows(o: Order, o': Order) {
    && o'.tenant == o.tenant && o'.objectId == o.objectId && o'.version == o.version
    && (o.status != Scheduled ==> o'.status != Scheduled)
  }

  ghost predicate OrdersGrow(a: map<Id, Order>, b: map<Id, Order>) {
    forall o | o in a :: o in b && OrderGrows(a[o], b[o])
  }

  /** Of a confirmed photo nothing that is set ever changes. */
  ghost predicate PhotoGrows(p: Photo, p': Photo) {
    && p'.exec == p.exec && p'.kind == p.kind && p'.key == p.key && p'.tenant == p.tenant
    && WriteOnce(p.uploadedAt, p'.uploadedAt) && WriteOnce(p.takenAt, p'.takenAt)
    && WriteOnce(p.lat, p'.lat) && WriteOnce(p.lon, p'.lon)
  }

  ghost predicate PhotosGrow(a: map<Id, Photo>, b: map<Id, Photo>) {
    && (forall p | p in a && a[p].uploadedAt.Some? :: p in b)
    && (forall p | p in a && p in b && a[p].uploadedAt.Some? :: PhotoGrows(a[p], b[p]))
  }

  ghost predicate HistoryGrows(a: History, b: History) {
    && (forall e | e in a.accepted :: e in b.accepted && a.accepted[e] <= b.accepted[e])
    && (forall t | t in a.firstSuspended :: t in b.firstSuspended && b.firstSuspended[t] == a.firstSuspended[t])
    && a.clock <= b.clock
  }

  /** A user, an object, a checklist version and its items stay with their tenant for good. */
  ghost predicate CatalogueGrows(a: Db, b: Db) {
    && (forall u | u in a.users :: u in b.users && b.users[u].tenant == a.users[u].tenant)
    && (forall o | o in a.objects :: o in b.objects && b.objects[o].tenant == a.objects[o].tenant)
    && (forall v | v in a.versions :: v in b.versions && b.versions[v] == a.versions[v])
    && (forall t | t in a.templateItems :: t in b.templateItems && b.templateItems[t] == a.templateItems[t])
  }

  ghost predicate Grows(s: State, s': State) {
    && CatalogueGrows(s.db, s'.db)
    && ExecsGrow(s.db.execs, s'.db.execs)
    && OrdersGrow(s.db.orders, s'.db.orders)
    && PhotosGrow(s.db.photos, s'.db.photos)
    && s.store.Keys <= s'.store.Keys
    && s.db.tenants.Keys <= s'.db.tenants.Keys
    && HistoryGrows(s.history, s'.history)
  }

  lemma GrowsTransitive(a: State, b: State, c: State)
    requires Grows(a, b) && Grows(b, c)
    ensures Grows(a, c)
  {
  }
}
