/**
 Staff, scheduler and operator steps, and what they keep. A staff request checks its references
 first and writes later: the step is the write, and all it relies on is what is left of the
 check by then (EvidenceSystem.CheckedReferencesStay).
*/
module AdminSteps {
  import opened Options
  import opened Tables
  import opened UpsertLaws
  import opened EvidenceState

  datatype AdminStep =
    | NewTenant(t: Id)                                    // OpsCreateTenant
    | NewUser(u: Id, user: User)
    | SetUser(u: Id, user: User)                          // anything but the tenant
    | NewObject(o: Id, row: Object)
    | SetObject(o: Id, row: Object)                       // anything but the tenant
    | NewVersion(v: Id, tenant: Id)
    | NewTemplateItem(t: Id, version: Id)
    | CreateOrders(tenant: Id, batch: seq<NewOrder>)      // the inserts of a checked batch
    | Patch(tenant: Id, order: Id, assignee: Option<Id>, due: Option<Day>)   // UpdateWorkOrder after its check
    | Sweep(tenant: Id, today: Day)                       // MarkTenantOverdueOrdersMissed
    | Suspend(tenant: Id, at: Time)                       // OpsSuspend
    | Activate(tenant: Id)                                // OpsActivate

  /** No upsert holds the row. */
  predicate Unlocked(upserts: map<Id, UpsertCall>, o: Id) {
    forall c | c in upserts :: !(upserts[c].locked && upserts[c].snap.order == o)
  }

  predicate Enabled(s: State, st: AdminStep) {
    match st
    case NewTenant(t) => t !in s.db.tenants
    case NewUser(u, user) => u !in s.db.users && user.tenant in s.db.tenants
    case SetUser(u, user) => u in s.db.users && user.tenant == s.db.users[u].tenant
    case NewObject(o, row) => o !in s.db.objects && row.tenant in s.db.tenants
    case SetObject(o, row) => o in s.db.objects && row.tenant == s.db.objects[o].tenant
    case NewVersion(v, tenant) => v !in s.db.versions && tenant in s.db.tenants
    case NewTemplateItem(t, version) => t !in s.db.templateItems && version in s.db.versions
    case CreateOrders(tenant, batch) => FreshIds(s.db.orders, batch) && forall n | n in batch :: ReferencesInTenant(s.db, tenant, n)
    case Patch(tenant, o, assignee, due) =>
      Unlocked(s.upserts, o) && (assignee.Some? ==> WorkerOf(s.db, tenant, assignee.value))
    case Sweep(tenant, today) =>
      forall o | o in s.db.orders && Overdue(s.db.orders[o], tenant, today) :: Unlocked(s.upserts, o)
    case Suspend(tenant, at) => tenant in s.db.tenants && s.history.clock <= at
    case Activate(tenant) => tenant in s.db.tenants
  }

  /** OpsSetTenantStatus */
  function SetTenantStatus(tenants: map<Id, Tenant>, t: Id, status: TenantStatus, at: Option<Time>): map<Id, Tenant> {
    if t in tenants then tenants[t := Tenant(status, at)] else tenants
  }

  function NoteSuspension(h: History, t: Id, at: Time): History {
    h.(firstSuspended := if t in h.firstSuspended then h.firstSuspended else h.firstSuspended[t := at], clock := at)
  }

  function Apply(s: State, st: AdminStep): State
    requires Enabled(s, st)
  {
    var db := s.db;
    match st
    case NewTenant(t) => s.(db := db.(tenants := db.tenants[t := Tenant(Trial, None)]))
    case NewUser(u, user) => s.(db := db.(users := db.users[u := user]))
    case SetUser(u, user) => s.(db := db.(users := db.users[u := user]))
    case NewObject(o, row) => s.(db := db.(objects := db.objects[o := row]))
    case SetObject(o, row) => s.(db := db.(objects := db.objects[o := row]))
    case NewVersion(v, tenant) => s.(db := db.(versions := db.versions[v := tenant]))
    case NewTemplateItem(t, version) => s.(db := db.(templateItems := db.templateItems[t := version]))
    case CreateOrders(tenant, batch) => s.(db := db.(orders := InsertOrders(db.orders, tenant, batch)))
    case Patch(tenant, o, assignee, due) => s.(db := db.(orders := UpdateOrder(db.orders, tenant, o, assignee, due)))
    case Sweep(tenant, today) => s.(db := db.(orders := MarkMissed(db.orders, tenant, today)))
    case Suspend(tenant, at) =>
      s.(db := db.(tenants := SetTenantStatus(db.tenants, tenant, Suspended, Some(at))),
         history := NoteSuspension(s.history, tenant, at))
    case Activate(tenant) => s.(db := db.(tenants := SetTenantStatus(db.tenants, tenant, Active, None)))
  }

  // === Preservation ===========================================================

  lemma Unchanged(s: State)
    ensures Grows(s, s)
  {
  }

  lemma TenantsReplaced(s: State, tenants: map<Id, Tenant>, history: History)
    requires Inv(s) && TenantsOk(tenants, s.db.users, history) && s.db.tenants.Keys <= tenants.Keys
    requires history == s.history.(firstSuspended := history.firstSuspended, clock := history.clock)
    requires HistoryGrows(s.history, history)
    ensures var s' := s.(db := s.db.(tenants := tenants), history := history); Inv(s') && Grows(s, s')
  {
    Unchanged(s);
  }

  lemma SuspendKeepsTenants(tenants: map<Id, Tenant>, users: map<Id, User>, h: History, t: Id, at: Time)
    requires TenantsOk(tenants, users, h) && t in tenants && h.clock <= at
    ensures TenantsOk(SetTenantStatus(tenants, t, Suspended, Some(at)), users, NoteSuspension(h, t, at))
    ensures HistoryGrows(h, NoteSuspension(h, t, at))
  {
  }

  lemma StatusKeepsTenants(tenants: map<Id, Tenant>, users: map<Id, User>, h: History, t: Id, status: TenantStatus)
    requires TenantsOk(tenants, users, h) && status != Suspended
    ensures TenantsOk(tenants[t := Tenant(status, None)], users, h)
  {
  }

  lemma TenantStepKeepsInv(s: State, st: AdminStep)
    requires Inv(s) && Enabled(s, st) && (st.NewTenant? || st.Suspend? || st.Activate?)
    ensures Inv(Apply(s, st)) && Grows(s, Apply(s, st))
  {
    var s' := Apply(s, st);
    Unchanged(s);
    match st {
      case NewTenant(t) => StatusKeepsTenants(s.db.tenants, s.db.users, s.history, t, Trial);
      case Activate(t) => StatusKeepsTenants(s.db.tenants, s.db.users, s.history, t, Active);
      case Suspend(t, at) => SuspendKeepsTenants(s.db.tenants, s.db.users, s.history, t, at);
    }
    TenantsReplaced(s, s'.db.tenants, s'.history);
    assert s' == s.(db := s.db.(tenants := s'.db.tenants), history := s'.history);
  }

  /** The user, object, version and template item writers: rows keep their tenant. */
  ghost predicate CatalogueWritten(a: Db, b: Db) {
    && b == a.(users := b.users, objects := b.objects, versions := b.versions, templateItems := b.templateItems)
    && CatalogueGrows(a, b)
    && (forall u | u in b.users :: b.users[u].tenant in a.tenants)
  }

  lemma CatalogueKeepsInv(s: State, db: Db)
    requires Inv(s) && CatalogueWritten(s.db, db)
    ensures Inv(s.(db := db)) && Grows(s, s.(db := db))
  {
    Unchanged(s);
    assert OrdersOk(db.orders, db.objects, db.versions, db.users) by {
      forall o | o in db.orders ensures OrderRowOk(db.orders[o], db.objects, db.versions, db.users) {
        assert OrderRowOk(s.db.orders[o], s.db.objects, s.db.versions, s.db.users);
      }
    }
    assert ExecsOk(db.execs, db.orders, db.users) by {
      forall e | e in db.execs ensures ExecRowOk(db.execs[e], db.orders, db.users) {
        assert ExecRowOk(s.db.execs[e], s.db.orders, s.db.users);
      }
    }
    assert ItemsOk(db.items, db.execs, db.orders, db.templateItems) by {
      forall i | i in db.items ensures ItemRowOk(db.items[i], db.execs, db.orders, db.templateItems) {
        assert ItemRowOk(s.db.items[i], s.db.execs, s.db.orders, s.db.templateItems);
      }
    }
    assert UpsertsOk(s.upserts, db.orders, db.users);
    assert TenantsOk(db.tenants, db.users, s.history);
  }

  lemma CatalogueStepKeepsInv(s: State, st: AdminStep)
    requires Inv(s) && Enabled(s, st)
    requires st.NewUser? || st.SetUser? || st.NewObject? || st.SetObject? || st.NewVersion? || st.NewTemplateItem?
    ensures Inv(Apply(s, st)) && Grows(s, Apply(s, st))
  {
    var db := Apply(s, st).db;
    CatalogueStepWrites(s, st);
    CatalogueKeepsInv(s, db);
  }

  lemma UserStepWrites(s: State, st: AdminStep)
    requires (forall u | u in s.db.users :: s.db.users[u].tenant in s.db.tenants) && Enabled(s, st) && (st.NewUser? || st.SetUser?)
    ensures CatalogueWritten(s.db, Apply(s, st).db)
  {
  }

  lemma CatalogueStepWrites(s: State, st: AdminStep)
    requires (forall u | u in s.db.users :: s.db.users[u].tenant in s.db.tenants) && Enabled(s, st)
    requires st.NewUser? || st.SetUser? || st.NewObject? || st.SetObject? || st.NewVersion? || st.NewTemplateItem?
    ensures CatalogueWritten(s.db, Apply(s, st).db)
  {
    if st.NewUser? || st.SetUser? { UserStepWrites(s, st); }
  }

  /** What staff and the sweep do to orders: add scheduled ones, reassign unlocked ones within
      the tenant, and turn scheduled ones missed. */
  ghost predicate OrderRewritten(o: Order, o': Order, users: map<Id, User>) {
    && o' == o.(assignee := o'.assignee, due := o'.due, status := o'.status)
    && (o'.status == o.status || (o.status == Scheduled && o'.status == Missed))
    && (o'.assignee.Some? ==> o'.assignee.value in users && users[o'.assignee.value].tenant == o.tenant)
  }

  ghost predicate Rewrites(s: State, orders: map<Id, Order>) {
    && (forall o | o in s.db.orders :: o in orders && OrderRewritten(s.db.orders[o], orders[o], s.db.users))
    && (forall o | o in s.db.orders && !Unlocked(s.upserts, o) :: orders[o] == s.db.orders[o])
    && (forall o | o in orders && o !in s.db.orders ::
          OrderRowOk(orders[o], s.db.objects, s.db.versions, s.db.users) && orders[o].status == Scheduled)
  }

  lemma RewriteKeepsOrders(s: State, orders: map<Id, Order>)
    requires OrdersOk(s.db.orders, s.db.objects, s.db.versions, s.db.users) && Rewrites(s, orders)
    ensures OrdersOk(orders, s.db.objects, s.db.versions, s.db.users) && OrdersGrow(s.db.orders, orders)
  {
  }

  lemma RewriteKeepsEvidence(s: State, orders: map<Id, Order>)
    requires ExecsOk(s.db.execs, s.db.orders, s.db.users) && Rewrites(s, orders)
    requires ItemsOk(s.db.items, s.db.execs, s.db.orders, s.db.templateItems)
    ensures ExecsOk(s.db.execs, orders, s.db.users) && ItemsOk(s.db.items, s.db.execs, orders, s.db.templateItems)
  {
  }

  lemma RewriteKeepsStatus(s: State, orders: map<Id, Order>)
    requires StatusOk(s.db.orders, s.db.execs, s.history.last) && Rewrites(s, orders)
    ensures StatusOk(orders, s.db.execs, s.history.last)
  {
  }

  lemma RewriteKeepsUpserts(s: State, orders: map<Id, Order>)
    requires UpsertsOk(s.upserts, s.db.orders, s.db.users) && Rewrites(s, orders)
    ensures UpsertsOk(s.upserts, orders, s.db.users)
  {
  }

  lemma RewriteKeepsInv(s: State, orders: map<Id, Order>)
    requires Inv(s) && Rewrites(s, orders)
    ensures var s' := s.(db := s.db.(orders := orders)); Inv(s') && Grows(s, s')
  {
    Unchanged(s);
    RewriteKeepsOrders(s, orders);
    RewriteKeepsEvidence(s, orders);
    RewriteKeepsStatus(s, orders);
    RewriteKeepsUpserts(s, orders);
  }

  lemma CreateOrdersRewrites(s: State, tenant: Id, batch: seq<NewOrder>)
    requires OrdersOk(s.db.orders, s.db.objects, s.db.versions, s.db.users)
    requires Enabled(s, CreateOrders(tenant, batch))
    ensures Rewrites(s, InsertOrders(s.db.orders, tenant, batch))
  {
    var orders := InsertOrders(s.db.orders, tenant, batch);
    InsertOrdersRows(s.db.orders, tenant, batch);
    forall o | o in orders && o !in s.db.orders
      ensures OrderRowOk(orders[o], s.db.objects, s.db.versions, s.db.users) && orders[o].status == Scheduled
    {
      var n :| CameFrom(batch, n, tenant, o, orders[o]);
      assert ReferencesInTenant(s.db, tenant, n);
    }
    forall o | o in s.db.orders ensures OrderRewritten(s.db.orders[o], orders[o], s.db.users) {
      assert OrderRowOk(s.db.orders[o], s.db.objects, s.db.versions, s.db.users);
    }
  }

  lemma PatchRewrites(s: State, tenant: Id, o: Id, assignee: Option<Id>, due: Option<Day>)
    requires OrdersOk(s.db.orders, s.db.objects, s.db.versions, s.db.users)
    requires Enabled(s, Patch(tenant, o, assignee, due))
    ensures Rewrites(s, UpdateOrder(s.db.orders, tenant, o, assignee, due))
  {
  }

  lemma SweepRewrites(s: State, tenant: Id, today: Day)
    requires OrdersOk(s.db.orders, s.db.objects, s.db.versions, s.db.users) && Enabled(s, Sweep(tenant, today))
    ensures Rewrites(s, MarkMissed(s.db.orders, tenant, today))
  {
  }

  lemma OrderStepKeepsInv(s: State, st: AdminStep)
    requires Inv(s) && Enabled(s, st) && (st.CreateOrders? || st.Patch? || st.Sweep?)
    ensures Inv(Apply(s, st)) && Grows(s, Apply(s, st))
  {
    match st {
      case CreateOrders(tenant, batch) => CreateOrdersRewrites(s, tenant, batch);
      case Patch(tenant, o, assignee, due) => PatchRewrites(s, tenant, o, assignee, due);
      case Sweep(tenant, today) => SweepRewrites(s, tenant, today);
    }
    RewriteKeepsInv(s, Apply(s, st).db.orders);
  }

  lemma AdminKeepsInv(s: State, st: AdminStep)
    requires Inv(s) && Enabled(s, st)
    ensures Inv(Apply(s, st)) && Grows(s, Apply(s, st))
  {
    match st
    case CreateOrders(_, _) => OrderStepKeepsInv(s, st);
    case Patch(_, _, _, _) => OrderStepKeepsInv(s, st);
    case Sweep(_, _) => OrderStepKeepsInv(s, st);
    case NewTenant(_) => TenantStepKeepsInv(s, st);
    case Suspend(_, _) => TenantStepKeepsInv(s, st);
    case Activate(_) => TenantStepKeepsInv(s, st);
    case _ => CatalogueStepKeepsInv(s, st);
  }
}
