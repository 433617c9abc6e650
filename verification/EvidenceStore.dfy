/** The evidence tables as the handlers work on them: statements in order, early returns, rollback. */
module EvidenceStore {
  import opened Options
  import opened Tables
  import opened UpsertLaws

  // === The missed sweep over all tenants ========================================

  function SweepAll(orders: map<Id, Order>, todays: seq<(Id, Option<Day>)>): map<Id, Order> {
    if todays == [] then orders
    else
      var n := |todays| - 1;
      var before := SweepAll(orders, todays[..n]);
      if todays[n].1.Some? then MarkMissed(before, todays[n].0, todays[n].1.value) else before
  }

  /** Some tenant's statement that did run finds the order overdue on that tenant's date. */
  ghost predicate Hit(todays: seq<(Id, Option<Day>)>, o: Order) {
    && o.status == Scheduled
    && exists k :: 0 <= k < |todays| && todays[k].1.Some? && todays[k].0 == o.tenant && o.due < todays[k].1.value
  }

  lemma HitSnoc(todays: seq<(Id, Option<Day>)>, o: Order)
    requires todays != []
    ensures var n := |todays| - 1;
            Hit(todays, o) <==> Hit(todays[..n], o) || (todays[n].1.Some? && Overdue(o, todays[n].0, todays[n].1.value))
  {
  }

  /** A sweep marks exactly the orders that were scheduled and overdue for their own tenant. */
  lemma {:induction false} SweepHits(orders: map<Id, Order>, todays: seq<(Id, Option<Day>)>)
    ensures var swept := SweepAll(orders, todays);
            && swept.Keys == orders.Keys
            && forall o | o in orders :: swept[o] == if Hit(todays, orders[o]) then orders[o].(status := Missed) else orders[o]
  {
    if todays != [] {
      var n := |todays| - 1;
      SweepHits(orders, todays[..n]);
      forall o | o in orders
        ensures SweepAll(orders, todays)[o] == if Hit(todays, orders[o]) then orders[o].(status := Missed) else orders[o]
      {
        HitSnoc(todays, orders[o]);
      }
    }
  }

  ghost function Changed(before: map<Id, Order>, after: map<Id, Order>): set<Id> {
    set o | o in before && o in after && after[o] != before[o]
  }

  lemma MarkAddsChanges(start: map<Id, Order>, mid: map<Id, Order>, tenant: Id, today: Day)
    requires mid.Keys == start.Keys
    requires forall o | o in mid :: mid[o] == start[o] || mid[o] == start[o].(status := Missed)
    ensures var end := MarkMissed(mid, tenant, today);
            |Changed(start, end)| == |Changed(start, mid)| + |Changed(mid, end)|
  {
    var end := MarkMissed(mid, tenant, today);
    assert Changed(start, end) == Changed(start, mid) + Changed(mid, end);
    assert Changed(start, mid) !! Changed(mid, end);
  }

  // === Replies and collection =================================================

  /** The first query or store call of a presign that comes back with an error, if one does; an
      insert that does may have landed all the same. */
  datatype PresignFault = NoFault | AtExecution | AtSuspension | AtInsert(landed: bool) | AtReload | AtSigning

  predicate InsertLands(f: PresignFault) {
    f.NoFault? || f == AtInsert(true) || f.AtReload? || f.AtSigning?
  }

  datatype PresignReply =
    | Url(key: S3Key)
    | ExecutionNotFound
    | WrongWorker
    | TenantSuspended
    | PhotoIdConflict
    | PhotoAlreadyUploaded
    | PresignError

  /** The same for a confirm. */
  datatype ConfirmFault = NoError | AtPhoto | AtOwner | AtGate | AtStore | AtWrite(landed: bool) | AtReread

  predicate WriteLands(f: ConfirmFault) {
    f.NoError? || f == AtWrite(true) || f.AtReread?
  }

  datatype ConfirmReply =
    | Confirmed(view: Photo)
    | PhotoNotFound
    | ExecutionMissing
    | NotYours
    | SuspendedTenant
    | NotUploaded
    | ConfirmError

  datatype AuditAction = TenantSuspend | TenantActivate
  datatype AuditRow = AuditRow(action: AuditAction, tenant: Id)

  /** The worker may write evidence for this execution: it is theirs and the gate is open. */
  ghost predicate MayWrite(db: Db, tenant: Id, worker: Id, e: Id) {
    && e in db.execs && db.execs[e].tenant == tenant && db.execs[e].worker == worker
    && tenant in db.tenants
    && (db.tenants[tenant].suspendedAt.Some? ==>
          && db.execs[e].deviceFinishedAt.Some?
          && db.execs[e].deviceFinishedAt.value < db.tenants[tenant].suspendedAt.value)
  }

  // What an upsert checks, in terms of the rows.
  ghost predicate Assigned(db: Db, tenant: Id, worker: Id, order: Id) {
    order in db.orders && db.orders[order].tenant == tenant && db.orders[order].assignee == Some(worker)
  }

  ghost predicate OwnRow(e: Exec, tenant: Id, worker: Id, order: Id) {
    e.tenant == tenant && e.worker == worker && e.order == order
  }

  ghost predicate TemplatesPinned(db: Db, tenant: Id, snap: Snapshot)
    requires snap.order in db.orders
  {
    forall it | it in snap.items ::
      && it.template in db.templateItems && db.templateItems[it.template] == db.orders[snap.order].version
      && db.orders[snap.order].version in db.versions && db.versions[db.orders[snap.order].version] == tenant
  }

  ghost predicate ForeignItem(items: map<Id, Item>, exec: Id, its: seq<ItemInput>) {
    exists it :: it in its && it.id in items && items[it.id].exec != exec
  }

  /** The first thing found wrong with an upsert, if anything is. */
  ghost function FirstWrong(db: Db, tenant: Id, worker: Id, id: Id, snap: Snapshot): Option<UpsertError> {
    if !Assigned(db, tenant, worker, snap.order) then Some(NotAssigned)
    else if id in db.execs && !OwnRow(db.execs[id], tenant, worker, snap.order) then Some(ExecutionIdConflict)
    else if !TemplatesPinned(db, tenant, snap) then Some(InvalidChecklistItem)
    else if ForeignItem(db.items, id, snap.items) then Some(ItemConflict)
    else None
  }

  lemma WrongIsReported(db: Db, tenant: Id, worker: Id, id: Id, snap: Snapshot, now: Time)
    ensures Upsert(db, tenant, worker, id, snap, now).Ok? ==> FirstWrong(db, tenant, worker, id, snap) == None
    ensures Upsert(db, tenant, worker, id, snap, now).Err? ==>
              FirstWrong(db, tenant, worker, id, snap) == Some(Upsert(db, tenant, worker, id, snap, now).error)
  {
    AcceptedExactly(db, tenant, worker, id, snap, now);
    assert ForeignItem(db.items, id, snap.items) <==> !forall it | it in snap.items :: ItemWritable(db.items, id, it);
  }

  /** It is theirs and the gate is closed: suspended, and not finished before that. */
  ghost predicate GateShut(db: Db, tenant: Id, worker: Id, e: Id) {
    && e in db.execs && db.execs[e].tenant == tenant && db.execs[e].worker == worker
    && tenant in db.tenants && db.tenants[tenant].suspendedAt.Some?
    && (db.execs[e].deviceFinishedAt.None? || db.execs[e].deviceFinishedAt.value >= db.tenants[tenant].suspendedAt.value)
  }

  /** A column that a statement stamps at most once. */
  ghost predicate StampedOnce<T>(before: Option<T>, given: Option<T>, after: Option<T>) {
    after == if before.Some? then before else given
  }

  /** One photo row is confirmed: what it was told is kept where nothing was stored yet. */
  ghost predicate PhotoConfirmed(before: map<Id, Photo>, after: map<Id, Photo>, id: Id, takenAt: Option<Time>,
                                 lat: Option<real>, lon: Option<real>, now: Time) {
    && id in before && after.Keys == before.Keys
    && (forall p | p in before && p != id :: after[p] == before[p])
    && var a, b := before[id], after[id];
       && StampedOnce(a.takenAt, takenAt, b.takenAt) && StampedOnce(a.lat, lat, b.lat) && StampedOnce(a.lon, lon, b.lon)
       && StampedOnce(a.uploadedAt, Some(now), b.uploadedAt)
       && b.tenant == a.tenant && b.exec == a.exec && b.kind == a.kind && b.key == a.key && b.createdAt == a.createdAt
  }

  /** One unconfirmed photo row is added, unless the id is taken. */
  ghost predicate PhotoPresigned(before: map<Id, Photo>, after: map<Id, Photo>, id: Id, tenant: Id, exec: Id, kind: PhotoKind, now: Time) {
    if id in before then after == before
    else
      && after.Keys == before.Keys + {id} && (forall p | p in before :: after[p] == before[p])
      && var b := after[id];
         && b.tenant == tenant && b.exec == exec && b.kind == kind && b.key == PhotoKey(tenant, id) && b.createdAt == now
         && b.takenAt.None? && b.lat.None? && b.lon.None? && b.uploadedAt.None?
  }

  /** The row is still this photo's, and unconfirmed. */
  ghost predicate IsUnconfirmed(photos: map<Id, Photo>, id: Id, tenant: Id, exec: Id, kind: PhotoKind) {
    && id in photos && photos[id].tenant == tenant && photos[id].exec == exec && photos[id].kind == kind
    && photos[id].uploadedAt.None?
  }

  const ORPHAN_LIMIT := 100

  predicate Orphan(photos: map<Id, Photo>, cutoff: Time, p: Id) {
    p in photos && photos[p].uploadedAt.None? && photos[p].createdAt < cutoff
  }

  /** ListOrphanPhotos: the oldest unconfirmed rows from before the cutoff, at most 100. */
  ghost predicate OrphanPage(photos: map<Id, Photo>, cutoff: Time, rows: seq<Id>) {
    && |rows| <= ORPHAN_LIMIT && (forall j, k | 0 <= j < k < |rows| :: rows[j] != rows[k])
    && (forall k | 0 <= k < |rows| :: Orphan(photos, cutoff, rows[k]))
    && (forall j, k | 0 <= j < k < |rows| :: photos[rows[j]].createdAt <= photos[rows[k]].createdAt)
    && forall p | Orphan(photos, cutoff, p) && p !in rows ::
         |rows| == ORPHAN_LIMIT && forall k | 0 <= k < |rows| :: photos[rows[k]].createdAt <= photos[p].createdAt
  }

  /** A listed row that goes: the store said there is no object, and the delete took effect. */
  ghost predicate Goes(rows: seq<Id>, answers: seq<Option<bool>>, lands: seq<bool>, p: Id)
    requires |answers| == |rows| == |lands|
  {
    exists k :: 0 <= k < |rows| && rows[k] == p && answers[k] == Some(false) && lands[k]
  }

  ghost function ActiveObjectsIn(db: Db, tenant: Id, ids: set<Id>): set<Id> {
    set o | o in ids && ActiveObject(db, tenant, o)
  }

  ghost function VersionsIn(db: Db, tenant: Id, ids: set<Id>): set<Id> {
    set v | v in ids && VersionOf(db, tenant, v)
  }

  ghost function ActiveWorkersIn(db: Db, tenant: Id, ids: set<Id>): set<Id> {
    set u | u in ids && ActiveWorker(db, tenant, u)
  }

  /** An active object, a checklist version and, if there is one, an active worker, of the tenant. */
  ghost predicate OrderPlaceable(db: Db, tenant: Id, n: NewOrder) {
    && n.objectId in db.objects && db.objects[n.objectId].tenant == tenant && db.objects[n.objectId].active
    && n.version in db.versions && db.versions[n.version] == tenant
    && (n.assignee.Some? ==>
          && n.assignee.value in db.users && db.users[n.assignee.value].tenant == tenant
          && db.users[n.assignee.value].role == Worker && db.users[n.assignee.value].active)
  }

  class Store {
    var tenants: map<Id, Tenant>
    var users: map<Id, User>
    var objects: map<Id, Object>
    var versions: map<Id, Id>
    var templateItems: map<Id, Id>
    var orders: map<Id, Order>
    var execs: map<Id, Exec>
    var items: map<Id, Item>
    var photos: map<Id, Photo>
    var audit: seq<AuditRow>

    ghost function Value(): Db
      reads this
    {
      Db(tenants, users, objects, versions, templateItems, orders, execs, items, photos)
    }

    constructor (db: Db)
      ensures Value() == db && audit == []
    {
      audit := [];
      tenants, users, objects, versions := db.tenants, db.users, db.objects, db.versions;
      templateItems, orders, execs, items, photos := db.templateItems, db.orders, db.execs, db.items, db.photos;
    }

    /** What a transaction goes back to when it does not commit. */
    method Rollback(savedOrders: map<Id, Order>, savedExecs: map<Id, Exec>, savedItems: map<Id, Item>)
      modifies this`orders, this`execs, this`items
      ensures orders == savedOrders && execs == savedExecs && items == savedItems
    {
      orders, execs, items := savedOrders, savedExecs, savedItems;
    }

    static lemma KeepIsItemIds(its: seq<ItemInput>, keep: seq<Id>)
      requires |keep| == |its| && forall j | 0 <= j < |its| :: keep[j] == its[j].id
      ensures Elements(keep) == ItemIds(its)
    {
    }

    // === Statements ===========================================================

    method UpsertWorkExecution(id: Id, tenant: Id, worker: Id, snap: Snapshot, now: Time)
      modifies this`execs
      ensures execs == PutExec(old(execs), id, tenant, worker, snap, now)
      ensures execs.Keys == old(execs).Keys + {id}
      ensures forall e | e in old(execs) && (e != id || old(execs)[id].tenant != tenant || old(execs)[id].worker != worker) ::
                execs[e] == old(execs)[e]
      ensures id !in old(execs) || (old(execs)[id].tenant == tenant && old(execs)[id].worker == worker) ==>
                var e, stamp := execs[id], if snap.deviceFinishedAt.Some? then Some(now) else None;
                && e.tenant == tenant && e.worker == worker && e.startedAt == snap.startedAt && e.note == snap.note
                && e.order == (if id in old(execs) then old(execs)[id].order else snap.order)
                && StampedOnce(if id in old(execs) then old(execs)[id].deviceFinishedAt else None, snap.deviceFinishedAt, e.deviceFinishedAt)
                && StampedOnce(if id in old(execs) then old(execs)[id].finishedAt else None, stamp, e.finishedAt)
    {
      var stamp := if snap.deviceFinishedAt.Some? then Some(now) else None;
      if id !in execs {
        execs := execs[id := Exec(tenant, snap.order, worker, snap.startedAt, snap.deviceFinishedAt, stamp, snap.note)];
      } else if execs[id].tenant == tenant && execs[id].worker == worker {
        var e := execs[id];
        var device := if e.deviceFinishedAt.None? then snap.deviceFinishedAt else e.deviceFinishedAt;
        var finished := if e.finishedAt.None? then stamp else e.finishedAt;
        execs := execs[id := Exec(e.tenant, e.order, e.worker, snap.startedAt, device, finished, snap.note)];
      }
    }

    method DeleteExecutionItemsNotIn(exec: Id, keep: seq<Id>)
      modifies this`items
      ensures items == PruneItems(old(items), exec, Elements(keep))
      ensures forall i :: i in items <==> i in old(items) && (old(items)[i].exec != exec || i in keep)
      ensures forall i | i in items :: items[i] == old(items)[i]
    {
      var doomed := set i | i in items && items[i].exec == exec && i !in keep;
      items := items - doomed;
    }

    /** Returns the number of rows the statement affected. */
    method UpsertWorkExecutionItem(exec: Id, it: ItemInput) returns (n: nat)
      modifies this`items
      ensures n == if ItemWritable(old(items), exec, it) then 1 else 0
      ensures items == if n == 1 then PutItem(old(items), exec, it) else old(items)
      ensures n == if it.id in old(items) && old(items)[it.id].exec != exec then 0 else 1
      ensures n == 1 ==>
                && items.Keys == old(items).Keys + {it.id}
                && (forall i | i in old(items) && i != it.id :: items[i] == old(items)[i])
                && items[it.id] == Item(exec, if it.id in old(items) then old(items)[it.id].template else it.template,
                                        it.checked, it.checkedAt)
    {
      if it.id !in items {
        items := items[it.id := Item(exec, it.template, it.checked, it.checkedAt)];
        return 1;
      }
      if items[it.id].exec != exec { return 0; }
      items := items[it.id := Item(exec, items[it.id].template, it.checked, it.checkedAt)];
      return 1;
    }

    // === UpsertExecution ======================================================

    method CheckTemplates(tenant: Id, version: Id, its: seq<ItemInput>) returns (ok: bool)
      ensures ok <==> TemplatesOk(Value(), tenant, version, its)
      ensures ok <==> forall it | it in its ::
                && it.template in templateItems && templateItems[it.template] == version
                && version in versions && versions[version] == tenant
    {
      var allowed := set t | t in templateItems && templateItems[t] == version && version in versions && versions[version] == tenant;
      for k := 0 to |its|
        invariant forall j | 0 <= j < k :: AllowedTemplate(templateItems, versions, tenant, version, its[j].template)
      {
        if its[k].template !in allowed { return false; }
      }
      return true;
    }

    method WriteItems(exec: Id, its: seq<ItemInput>) returns (ok: bool)
      modifies this`items
      ensures ok <==> PutItems(old(items), exec, its).Some?
      ensures ok ==> PutItems(old(items), exec, its) == Some(items)
    {
      for k := 0 to |its|
        invariant PutItems(old(items), exec, its[..k]) == Some(items)
      {
        assert its[..k + 1][..k] == its[..k];
        var n := UpsertWorkExecutionItem(exec, its[k]);
        if n == 0 {
          PutItemsPrefix(old(items), exec, its, k + 1);
          return false;
        }
      }
      assert its[..|its|] == its;
      return true;
    }

    /** Prunes the items the snapshot does not list, then writes the listed ones. */
    method ReplaceItems(exec: Id, its: seq<ItemInput>) returns (ok: bool)
      modifies this`items
      ensures var written := PutItems(PruneItems(old(items), exec, ItemIds(its)), exec, its);
              ok == written.Some? && (ok ==> items == written.value)
    {
      var keep := [];
      for k := 0 to |its|
        invariant |keep| == k && forall j | 0 <= j < k :: keep[j] == its[j].id
      {
        keep := keep + [its[k].id];
      }
      KeepIsItemIds(its, keep);
      DeleteExecutionItemsNotIn(exec, keep);
      ok := WriteItems(exec, its);
    }

    /** The statements of the transaction, and its rollback at each early return. */
    method RunUpsert(tenant: Id, worker: Id, id: Id, snap: Snapshot, now: Time) returns (err: Option<UpsertError>)
      modifies this`orders, this`execs, this`items
      ensures err.None? ==> Upsert(old(Value()), tenant, worker, id, snap, now) == Ok(Value())
      ensures err.Some? ==> Upsert(old(Value()), tenant, worker, id, snap, now) == Err(err.value) && Value() == old(Value())
      ensures err.None? ==>
                && id in execs && snap.order in old(orders)
                && orders == old(orders)[snap.order := old(orders)[snap.order].(
                     status := if execs[id].deviceFinishedAt.Some? then Done else InProgress)]
    {
      var savedOrders, savedExecs, savedItems := orders, execs, items;
      if snap.order !in orders || orders[snap.order].tenant != tenant { return Some(NotAssigned); }
      var wo := orders[snap.order];
      if wo.assignee.None? || wo.assignee.value != worker { return Some(NotAssigned); }

      UpsertWorkExecution(id, tenant, worker, snap, now);
      if id !in execs || execs[id].tenant != tenant || execs[id].worker != worker || execs[id].order != snap.order {
        Rollback(savedOrders, savedExecs, savedItems);
        return Some(ExecutionIdConflict);
      }
      var owner := execs[id];

      var ok := CheckTemplates(tenant, wo.version, snap.items);
      if !ok {
        Rollback(savedOrders, savedExecs, savedItems);
        return Some(InvalidChecklistItem);
      }

      ok := ReplaceItems(id, snap.items);
      if !ok {
        Rollback(savedOrders, savedExecs, savedItems);
        return Some(ItemConflict);
      }

      var status := InProgress;
      if owner.deviceFinishedAt.Some? { status := Done; }
      orders := orders[snap.order := orders[snap.order].(status := status)];
      return None;
    }

    /** All of it or nothing: a refusal, at whatever point, leaves every table as it was. */
    method UpsertExecution(tenant: Id, worker: Id, id: Id, snap: Snapshot, now: Time) returns (err: Option<UpsertError>)
      modifies this`orders, this`execs, this`items
      ensures err.None? ==> Upsert(old(Value()), tenant, worker, id, snap, now) == Ok(Value())
      ensures err.Some? ==> Upsert(old(Value()), tenant, worker, id, snap, now) == Err(err.value) && Value() == old(Value())
      ensures err == old(FirstWrong(Value(), tenant, worker, id, snap))
      ensures err.None? ==>
                && id in execs && snap.order in old(orders)
                && orders == old(orders)[snap.order := old(orders)[snap.order].(
                     status := if execs[id].deviceFinishedAt.Some? then Done else InProgress)]
    {
      WrongIsReported(Value(), tenant, worker, id, snap, now);
      err := RunUpsert(tenant, worker, id, snap, now);
    }

    // === Staff ================================================================

    method CountActiveObjects(tenant: Id, ids: set<Id>) returns (n: nat)
      ensures n == |ActiveObjectsIn(Value(), tenant, ids)|
    {
      n := |set o | o in ids && o in objects && objects[o].tenant == tenant && objects[o].active|;
      assert (set o | o in ids && o in objects && objects[o].tenant == tenant && objects[o].active)
          == ActiveObjectsIn(Value(), tenant, ids);
    }

    method CountVersions(tenant: Id, ids: set<Id>) returns (n: nat)
      ensures n == |VersionsIn(Value(), tenant, ids)|
    {
      n := |set v | v in ids && v in versions && versions[v] == tenant|;
      assert (set v | v in ids && v in versions && versions[v] == tenant) == VersionsIn(Value(), tenant, ids);
    }

    method CountActiveWorkers(tenant: Id, ids: set<Id>) returns (n: nat)
      ensures n == |ActiveWorkersIn(Value(), tenant, ids)|
    {
      n := |set u | u in ids && u in users && users[u].tenant == tenant && users[u].role == Worker && users[u].active|;
      assert (set u | u in ids && u in users && users[u].tenant == tenant && users[u].role == Worker && users[u].active)
          == ActiveWorkersIn(Value(), tenant, ids);
    }

    /** validateOrderReferences: three counts decide about every reference of the batch. */
    method ValidateReferences(tenant: Id, batch: seq<NewOrder>) returns (ok: bool)
      ensures ok <==> forall n | n in batch :: ReferencesOk(Value(), tenant, n)
      ensures ok <==> forall n | n in batch :: OrderPlaceable(Value(), tenant, n)
    {
      var objectIds, versionIds, assigneeIds := {}, {}, {};
      for k := 0 to |batch|
        invariant objectIds == set n | n in batch[..k] :: n.objectId
        invariant versionIds == set n | n in batch[..k] :: n.version
        invariant assigneeIds == set n | n in batch[..k] && n.assignee.Some? :: n.assignee.value
      {
        assert batch[..k + 1] == batch[..k] + [batch[k]];
        objectIds := objectIds + {batch[k].objectId};
        versionIds := versionIds + {batch[k].version};
        if batch[k].assignee.Some? { assigneeIds := assigneeIds + {batch[k].assignee.value}; }
      }
      assert batch[..|batch|] == batch;
      var n1 := CountActiveObjects(tenant, objectIds);
      var n2 := CountVersions(tenant, versionIds);
      var n3 := CountActiveWorkers(tenant, assigneeIds);
      ok := n1 == |objectIds| && n2 == |versionIds| && n3 == |assigneeIds|;
      CountMeansAll(objectIds, ActiveObjectsIn(Value(), tenant, objectIds));
      CountMeansAll(versionIds, VersionsIn(Value(), tenant, versionIds));
      CountMeansAll(assigneeIds, ActiveWorkersIn(Value(), tenant, assigneeIds));
      if ok {
        forall n | n in batch ensures ReferencesOk(Value(), tenant, n) {
          assert n.objectId in objectIds && n.version in versionIds;
          assert n.assignee.Some? ==> n.assignee.value in assigneeIds;
        }
      }
    }

    /** Counting as many good ids as there are ids means that every id is good. */
    static lemma {:induction false} CountMeansAll(ids: set<Id>, good: set<Id>)
      requires good <= ids
      ensures |good| <= |ids|
      ensures |good| == |ids| <==> good == ids
      decreases |ids|
    {
      if good != {} {
        var x :| x in good;
        CountMeansAll(ids - {x}, good - {x});
        assert good == (good - {x}) + {x} && ids == (ids - {x}) + {x};
      }
    }

    /** The inserts of a batch, up to the first whose id is taken. */
    method InsertAll(tenant: Id, batch: seq<NewOrder>) returns (ok: bool)
      modifies this`orders
      ensures ok <==> FreshIds(old(orders), batch)
      ensures ok ==> orders == InsertOrders(old(orders), tenant, batch)
    {
      for k := 0 to |batch|
        invariant orders == InsertOrders(old(orders), tenant, batch[..k]) && FreshIds(old(orders), batch[..k])
      {
        OneMoreId(old(orders), tenant, batch, k);
        assert batch[..k + 1][..k] == batch[..k];
        if batch[k].id in orders { return false; }
        orders := orders[batch[k].id := Order(tenant, batch[k].objectId, batch[k].version, batch[k].assignee, batch[k].due, Scheduled)];
      }
      assert batch[..|batch|] == batch;
      return true;
    }

    static lemma {:induction false} InsertedIds(orders: map<Id, Order>, tenant: Id, batch: seq<NewOrder>, o: Id)
      ensures o in InsertOrders(orders, tenant, batch) <==> o in orders || exists i :: 0 <= i < |batch| && batch[i].id == o
    {
      if batch != [] { InsertedIds(orders, tenant, batch[..|batch| - 1], o); }
    }

    /** The next id is taken exactly when the batch up to it is not fresh. */
    static lemma OneMoreId(orders: map<Id, Order>, tenant: Id, batch: seq<NewOrder>, k: nat)
      requires k < |batch| && FreshIds(orders, batch[..k])
      ensures batch[k].id in InsertOrders(orders, tenant, batch[..k]) ==> !FreshIds(orders, batch)
      ensures batch[k].id !in InsertOrders(orders, tenant, batch[..k]) ==> FreshIds(orders, batch[..k + 1])
    {
      InsertedIds(orders, tenant, batch[..k], batch[k].id);
      if batch[k].id !in InsertOrders(orders, tenant, batch[..k]) {
        forall i | 0 <= i < k ensures batch[i].id != batch[k].id {
          assert batch[..k][i] == batch[i];
        }
        var longer := batch[..k + 1];
        forall i | 0 <= i < k + 1 ensures longer[i].id !in orders {
          if i < k { assert longer[i] == batch[..k][i]; }
        }
        forall i, j | 0 <= i < j < k + 1 ensures longer[i].id != longer[j].id {
          assert longer[i] == batch[..k][i];
          if j < k { assert longer[j] == batch[..k][j]; }
        }
      }
    }

    /** A batch lands entirely, beside the orders already there, or not at all; an id that is
        taken fails its INSERT and with it the batch. */
    method CreateOrders(tenant: Id, batch: seq<NewOrder>) returns (ok: bool)
      modifies this`orders
      ensures ok <==> (forall n | n in batch :: OrderPlaceable(old(Value()), tenant, n)) && FreshIds(old(orders), batch)
      ensures ok ==> BulkCreate(old(Value()), tenant, batch) == Some(Value())
      ensures ok ==> forall o | o in old(orders) :: o in orders && orders[o] == old(orders)[o]
      ensures ok ==> forall o | o in orders && o !in old(orders) :: exists n :: CameFrom(batch, n, tenant, o, orders[o])
      ensures ok ==> forall k | 0 <= k < |batch| ::
                       batch[k].id in orders && CameFrom(batch, batch[k], tenant, batch[k].id, orders[batch[k].id])
      ensures !ok ==> Value() == old(Value())
    {
      ok := ValidateReferences(tenant, batch);
      if !ok { return; }
      var saved := orders;
      ok := InsertAll(tenant, batch);
      if !ok {
        orders := saved;
        return;
      }
      InsertOrdersRows(saved, tenant, batch);
      forall k | 0 <= k < |batch|
        ensures batch[k].id in orders && CameFrom(batch, batch[k], tenant, batch[k].id, orders[batch[k].id])
      {
        EachIsInserted(saved, tenant, batch, k);
      }
    }

    static lemma EachIsInserted(before: map<Id, Order>, tenant: Id, batch: seq<NewOrder>, k: nat)
      requires FreshIds(before, batch) && k < |batch|
      ensures var orders, id := InsertOrders(before, tenant, batch), batch[k].id;
              id in orders && CameFrom(batch, batch[k], tenant, id, orders[id])
    {
      InsertedIds(before, tenant, batch, batch[k].id);
      InsertOrdersRows(before, tenant, batch);
      var orders := InsertOrders(before, tenant, batch);
      var n :| CameFrom(batch, n, tenant, batch[k].id, orders[batch[k].id]);
      var i :| 0 <= i < |batch| && batch[i] == n;
      assert i == k;
    }

    /** patchStaffWorkOrder: a bad assignee or an unknown order changes nothing. */
    method PatchWorkOrder(tenant: Id, id: Id, assignee: Option<Id>, due: Option<Day>) returns (ok: bool)
      modifies this`orders
      ensures ok <==> PatchOrder(old(Value()), tenant, id, assignee, due).Some?
      ensures ok ==> PatchOrder(old(Value()), tenant, id, assignee, due) == Some(Value())
      ensures ok <==>
                && id in old(orders) && old(orders)[id].tenant == tenant
                && (assignee.Some? ==>
                      && assignee.value in users && users[assignee.value].tenant == tenant
                      && users[assignee.value].role == Worker && users[assignee.value].active)
      ensures ok ==>
                && orders.Keys == old(orders).Keys && (forall o | o in orders && o != id :: orders[o] == old(orders)[o])
                && orders[id].assignee == (if assignee.Some? then assignee else old(orders)[id].assignee)
                && orders[id].due == (if due.Some? then due.value else old(orders)[id].due)
                && orders[id] == old(orders)[id].(assignee := orders[id].assignee, due := orders[id].due)
      ensures !ok ==> Value() == old(Value())
    {
      if assignee.Some? {
        var n := CountActiveWorkers(tenant, {assignee.value});
        CountMeansAll({assignee.value}, ActiveWorkersIn(Value(), tenant, {assignee.value}));
        assert ActiveWorker(Value(), tenant, assignee.value) ==> ActiveWorkersIn(Value(), tenant, {assignee.value}) == {assignee.value};
        if n != 1 { return false; }
      }
      if id !in orders || orders[id].tenant != tenant { return false; }
      var o := orders[id];
      if assignee.Some? { o := o.(assignee := assignee); }
      if due.Some? { o := o.(due := due.value); }
      orders := orders[id := o];
      return true;
    }

    // === Scheduler ============================================================

    /** One tenant's statement; returns the rows it affected. */
    method MarkTenant(tenant: Id, today: Day) returns (n: nat)
      modifies this`orders
      ensures orders == MarkMissed(old(orders), tenant, today)
      ensures n == |Changed(old(orders), orders)|
      // Due before today: an order due today is still in time.
      ensures orders.Keys == old(orders).Keys
      ensures forall o | o in orders ::
                orders[o] == if old(orders)[o].tenant == tenant && old(orders)[o].status == Scheduled && old(orders)[o].due < today
                             then old(orders)[o].(status := Missed) else old(orders)[o]
    {
      var due := set o | o in orders && Overdue(orders[o], tenant, today);
      orders := map o | o in orders :: if o in due then orders[o].(status := Missed) else orders[o];
      assert due == Changed(old(orders), orders);
      n := |due|;
    }

    /**
     markOverdueMissed: one statement per tenant, with that tenant's own date; a tenant whose
     statement fails (None) is skipped and does not stop the rest.
    */
    method MarkOverdueMissed(todays: seq<(Id, Option<Day>)>) returns (total: nat)
      modifies this`orders
      ensures orders == SweepAll(old(orders), todays)
      ensures total == |Changed(old(orders), orders)|
      ensures orders.Keys == old(orders).Keys
      ensures forall o | o in orders ::
                orders[o] == if Hit(todays, old(orders)[o]) then old(orders)[o].(status := Missed) else old(orders)[o]
    {
      total := 0;
      for k := 0 to |todays|
        invariant orders == SweepAll(old(orders), todays[..k])
        invariant total == |Changed(old(orders), orders)|
      {
        assert todays[..k + 1][..k] == todays[..k];
        if todays[k].1.Some? {
          SweepHits(old(orders), todays[..k]);
          MarkAddsChanges(old(orders), orders, todays[k].0, todays[k].1.value);
          var n := MarkTenant(todays[k].0, todays[k].1.value);
          total := total + n;
        }
      }
      assert todays[..|todays|] == todays;
      SweepHits(old(orders), todays);
    }

    // === Photos ===============================================================

    /** InsertPhotoPresign */
    method InsertPhotoPresign(id: Id, tenant: Id, exec: Id, kind: PhotoKind, key: S3Key, now: Time)
      requires key == S3KeyOf(tenant, id)
      modifies this`photos
      ensures photos == PresignRow(old(photos), id, tenant, exec, kind, now)
      ensures PhotoPresigned(old(photos), photos, id, tenant, exec, kind, now)
    {
      if id !in photos {
        photos := photos[id := Photo(tenant, exec, kind, key, None, None, None, None, now)];
      }
    }

    /** A URL goes out exactly when nothing fails, for an own execution, an open gate, and a photo
        id that is new or already names this unconfirmed photo. Any other answer leaves the rows
        as they are, or with just the unconfirmed row when an error came at or after its insert. */
    method Presign(tenant: Id, worker: Id, photo: Id, exec: Id, kind: PhotoKind, now: Time, fault: PresignFault)
      returns (r: PresignReply)
      modifies this`photos
      ensures r.Url? <==> fault.NoFault? && old(MayWrite(Value(), tenant, worker, exec))
                          && (photo in old(photos) ==> IsUnconfirmed(old(photos), photo, tenant, exec, kind))
      ensures r.Url? ==> r.key == PhotoKey(tenant, photo) && IsUnconfirmed(photos, photo, tenant, exec, kind)
      ensures if InsertLands(fault) && old(MayWrite(Value(), tenant, worker, exec))
              then PhotoPresigned(old(photos), photos, photo, tenant, exec, kind, now) else photos == old(photos)
      ensures fault.NoFault? && !r.Url? ==> photos == old(photos)
      // Every other answer, each with the one thing it reports; an error is all that remains.
      ensures r.ExecutionNotFound? <==> !fault.AtExecution? && !(exec in execs && execs[exec].tenant == tenant)
      ensures r.WrongWorker? <==>
                !fault.AtExecution? && exec in execs && execs[exec].tenant == tenant && execs[exec].worker != worker
      ensures r.TenantSuspended? <==>
                !fault.AtExecution? && !fault.AtSuspension? && old(GateShut(Value(), tenant, worker, exec))
      ensures r.PhotoIdConflict? <==>
                && (fault.NoFault? || fault.AtSigning?) && old(MayWrite(Value(), tenant, worker, exec)) && photo in old(photos)
                && var p := old(photos)[photo]; !(p.tenant == tenant && p.exec == exec && p.kind == kind)
      ensures r.PhotoAlreadyUploaded? <==>
                && (fault.NoFault? || fault.AtSigning?) && old(MayWrite(Value(), tenant, worker, exec)) && photo in old(photos)
                && var p := old(photos)[photo]; p.tenant == tenant && p.exec == exec && p.kind == kind && p.uploadedAt.Some?
    {
      if fault.AtExecution? { return PresignError; }
      if exec !in execs || execs[exec].tenant != tenant { return ExecutionNotFound; }
      if execs[exec].worker != worker { return WrongWorker; }
      if fault.AtSuspension? || tenant !in tenants { return PresignError; }
      if !GateAllows(tenants[tenant].suspendedAt, execs[exec].deviceFinishedAt) { return TenantSuspended; }
      var key := S3KeyOf(tenant, photo);
      if fault != AtInsert(false) { InsertPhotoPresign(photo, tenant, exec, kind, key, now); }
      if fault.AtInsert? || fault.AtReload? { return PresignError; }
      var got := photos[photo];
      if got.tenant != tenant { return PhotoIdConflict; }
      if got.exec != exec { return PhotoIdConflict; }
      if got.kind != kind { return PhotoIdConflict; }
      if got.uploadedAt.Some? { return PhotoAlreadyUploaded; }
      if fault.AtSigning? { return PresignError; }
      return Url(key);
    }

    /** ConfirmPhoto */
    method ConfirmPhoto(id: Id, tenant: Id, takenAt: Option<Time>, lat: Option<real>, lon: Option<real>, now: Time)
      modifies this`photos
      ensures photos == ConfirmRow(old(photos), id, tenant, takenAt, lat, lon, now)
      ensures if id in old(photos) && old(photos)[id].tenant == tenant
              then PhotoConfirmed(old(photos), photos, id, takenAt, lat, lon, now) else photos == old(photos)
    {
      if id in photos && photos[id].tenant == tenant {
        var p := photos[id];
        var uploaded := if p.uploadedAt.None? then Some(now) else p.uploadedAt;
        var taken := if p.takenAt.None? then takenAt else p.takenAt;
        var la := if p.lat.None? then lat else p.lat;
        var lo := if p.lon.None? then lon else p.lon;
        photos := photos[id := Photo(p.tenant, p.exec, p.kind, p.key, taken, la, lo, uploaded, p.createdAt)];
      }
    }

    /** A confirm succeeds exactly when nothing fails, for an own photo, an open gate and an object
        in the store; what it was told is kept only where nothing was stored yet. Any other answer
        writes nothing, except that an error at or after the write may leave it done. */
    method Confirm(tenant: Id, worker: Id, photo: Id, stored: set<S3Key>, takenAt: Option<Time>, lat: Option<real>,
                   lon: Option<real>, now: Time, fault: ConfirmFault) returns (r: ConfirmReply)
      modifies this`photos
      ensures var good := photo in old(photos) && old(photos)[photo].tenant == tenant
                          && old(MayWrite(Value(), tenant, worker, photos[photo].exec)) && old(photos)[photo].key in stored;
              && (r.Confirmed? <==> fault.NoError? && good)
              && if good && WriteLands(fault) then PhotoConfirmed(old(photos), photos, photo, takenAt, lat, lon, now)
                 else photos == old(photos)
      ensures r.Confirmed? ==> photo in photos && r.view == photos[photo] && r.view.uploadedAt.Some?
      ensures r.PhotoNotFound? <==> !fault.AtPhoto? && !(photo in old(photos) && old(photos)[photo].tenant == tenant)
      ensures var known := !fault.AtPhoto? && !fault.AtOwner? && photo in old(photos) && old(photos)[photo].tenant == tenant;
              && (r.ExecutionMissing? <==>
                    known && !(old(photos)[photo].exec in execs && execs[old(photos)[photo].exec].tenant == tenant))
              && (r.NotYours? <==>
                    && known && old(photos)[photo].exec in execs && execs[old(photos)[photo].exec].tenant == tenant
                    && execs[old(photos)[photo].exec].worker != worker)
              && (r.SuspendedTenant? <==>
                    known && !fault.AtGate? && old(GateShut(Value(), tenant, worker, photos[photo].exec)))
              && (r.NotUploaded? <==>
                    && known && !fault.AtGate? && !fault.AtStore? && old(MayWrite(Value(), tenant, worker, photos[photo].exec))
                    && old(photos)[photo].key !in stored)
    {
      if fault.AtPhoto? { return ConfirmError; }
      if photo !in photos || photos[photo].tenant != tenant { return PhotoNotFound; }
      var ph := photos[photo];
      if fault.AtOwner? { return ConfirmError; }
      if ph.exec !in execs || execs[ph.exec].tenant != tenant { return ExecutionMissing; }
      if execs[ph.exec].worker != worker { return NotYours; }
      if fault.AtGate? || tenant !in tenants { return ConfirmError; }
      if !GateAllows(tenants[tenant].suspendedAt, execs[ph.exec].deviceFinishedAt) { return SuspendedTenant; }
      if fault.AtStore? { return ConfirmError; }
      if ph.key !in stored { return NotUploaded; }
      if fault != AtWrite(false) { ConfirmPhoto(photo, tenant, takenAt, lat, lon, now); }
      if fault.AtWrite? || fault.AtReread? { return ConfirmError; }
      return Confirmed(photos[photo]);
    }

    /** The collector's loop: `answers` is what the store answered for each row, None for an error,
        and `lands` whether its delete took effect, whatever that reported. An error of either
        kind, or a present object, does not stop the rest. */
    method CollectAll(rows: seq<Id>, answers: seq<Option<bool>>, lands: seq<bool>)
      requires |answers| == |rows| == |lands|
      modifies this`photos
      ensures forall p :: p in photos <==> p in old(photos) && !(old(photos)[p].uploadedAt.None? && Goes(rows, answers, lands, p))
      ensures forall p | p in photos :: photos[p] == old(photos)[p]
    {
      for k := 0 to |rows|
        invariant forall p :: p in photos <==>
                    p in old(photos) && !(old(photos)[p].uploadedAt.None? && Goes(rows[..k], answers[..k], lands[..k], p))
        invariant forall p | p in photos :: photos[p] == old(photos)[p]
      {
        forall p { GoesSnoc(rows, answers, lands, k, p); }
        if answers[k] == Some(false) && lands[k] {
          photos := DeleteOrphan(photos, rows[k]);
        }
      }
      assert rows[..|rows|] == rows && answers[..|rows|] == answers && lands[..|rows|] == lands;
    }

    /** gcOrphanPhotos over the rows its listing returned: exactly those of them go that the store
        does not have and whose delete took effect, so no more than 100, all of them unconfirmed
        and from before the cutoff. */
    method GcOrphanPhotos(cutoff: Time, rows: seq<Id>, answers: seq<Option<bool>>, lands: seq<bool>)
      requires |answers| == |rows| == |lands| && OrphanPage(photos, cutoff, rows)
      modifies this`photos
      ensures forall p :: p in photos <==> p in old(photos) && !Goes(rows, answers, lands, p)
      ensures forall p | p in photos :: photos[p] == old(photos)[p]
      ensures forall p | p in old(photos) && p !in photos ::
                p in rows && old(photos)[p].uploadedAt.None? && old(photos)[p].createdAt < cutoff
      ensures |old(photos).Keys - photos.Keys| <= ORPHAN_LIMIT
    {
      ghost var before := photos;
      forall p | Goes(rows, answers, lands, p) ensures Orphan(before, cutoff, p) {
        GoingIsOrphan(before, cutoff, rows, answers, lands, p);
      }
      CollectAll(rows, answers, lands);
      FewAreGone(before.Keys - photos.Keys, rows);
    }

    static lemma GoingIsOrphan(photos: map<Id, Photo>, cutoff: Time, rows: seq<Id>, answers: seq<Option<bool>>, lands: seq<bool>, p: Id)
      requires |answers| == |rows| == |lands| && OrphanPage(photos, cutoff, rows) && Goes(rows, answers, lands, p)
      ensures Orphan(photos, cutoff, p)
    {
    }

    static lemma FewAreGone(gone: set<Id>, rows: seq<Id>)
      requires forall p | p in gone :: p in rows
      ensures |gone| <= |rows|
    {
      ElementsSize(rows);
      CountMeansAll(Elements(rows), gone);
    }

    static lemma {:induction false} ElementsSize(rows: seq<Id>)
      ensures |Elements(rows)| <= |rows|
    {
      if rows == [] {
        assert Elements(rows) == {};
      } else {
        var n := |rows| - 1;
        ElementsSize(rows[..n]);
        assert rows == rows[..n] + [rows[n]];
        assert Elements(rows) == Elements(rows[..n]) + {rows[n]};
      }
    }

    static lemma GoesSnoc(rows: seq<Id>, answers: seq<Option<bool>>, lands: seq<bool>, k: nat, p: Id)
      requires |answers| == |rows| == |lands| && k < |rows|
      ensures Goes(rows[..k + 1], answers[..k + 1], lands[..k + 1], p) <==>
              Goes(rows[..k], answers[..k], lands[..k], p) || (rows[k] == p && answers[k] == Some(false) && lands[k])
    {
    }

    // === Operator =============================================================

    /** opsSetStatus: the flip and its audit row land together or not at all. `auditFails` is a
        database error on the second statement. */
    method OpsSetStatus(tenant: Id, status: TenantStatus, at: Option<Time>, action: AuditAction, auditFails: bool)
        returns (ok: bool)
      modifies this`tenants, this`audit
      ensures ok <==> tenant in old(tenants) && !auditFails
      ensures ok ==> tenants == old(tenants)[tenant := Tenant(status, at)] && audit == old(audit) + [AuditRow(action, tenant)]
      ensures !ok ==> tenants == old(tenants) && audit == old(audit)
    {
      if tenant !in tenants { return false; }
      var saved := tenants;
      tenants := tenants[tenant := Tenant(status, at)];
      if auditFails {
        tenants := saved;
        return false;
      }
      audit := audit + [AuditRow(action, tenant)];
      return true;
    }

    method OpsSuspend(tenant: Id, now: Time, auditFails: bool) returns (ok: bool)
      modifies this`tenants, this`audit
      ensures ok ==> tenant in tenants && tenants[tenant].status == Suspended && tenants[tenant].suspendedAt == Some(now)
                     && audit == old(audit) + [AuditRow(TenantSuspend, tenant)]
      ensures ok <==> tenant in old(tenants) && !auditFails
      ensures tenants.Keys == old(tenants).Keys && forall t | t in tenants && (!ok || t != tenant) :: tenants[t] == old(tenants)[t]
    {
      ok := OpsSetStatus(tenant, Suspended, Some(now), TenantSuspend, auditFails);
    }

    method OpsActivate(tenant: Id, auditFails: bool) returns (ok: bool)
      modifies this`tenants, this`audit
      ensures ok ==> tenant in tenants && tenants[tenant].status == Active && tenants[tenant].suspendedAt == None
                     && audit == old(audit) + [AuditRow(TenantActivate, tenant)]
      ensures ok <==> tenant in old(tenants) && !auditFails
      ensures tenants.Keys == old(tenants).Keys && forall t | t in tenants && (!ok || t != tenant) :: tenants[t] == old(tenants)[t]
    {
      ok := OpsSetStatus(tenant, Active, None, TenantActivate, auditFails);
    }
  }
}
