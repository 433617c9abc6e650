/**
 A worker's upsert as the requests run it: the gate is read outside the transaction, the order
 row is locked, and what follows up to the commit is one step, since every row it writes stays
 locked until then (UpsertTransactions justifies the step).
*/
module UpsertSteps {
  import opened Options
  import opened Tables
  import opened UpsertLaws
  import opened EvidenceState
  import AdminSteps

  datatype UpsertStep =
    | Gate(c: Id, tenant: Id, worker: Id, id: Id, snap: Snapshot)   // evidenceSuspensionGate
    | Lock(c: Id)                                                    // GetWorkOrderForWorker
    | Finish(c: Id, now: Time)
    | Abort(c: Id)

  predicate Enabled(s: State, st: UpsertStep) {
    match st
    case Gate(c, tenant, worker, id, snap) =>
      c !in s.upserts && tenant in s.db.tenants && worker in s.db.users && s.db.users[worker].tenant == tenant
    case Lock(c) => c in s.upserts && !s.upserts[c].locked && AdminSteps.Unlocked(s.upserts, s.upserts[c].snap.order)
    case Finish(c, now) => c in s.upserts && s.upserts[c].locked
    case Abort(c) => c in s.upserts
  }

  function Outcome(s: State, c: Id, now: Time): Result<Db>
    requires c in s.upserts
  {
    var k := s.upserts[c];
    Upsert(s.db, k.tenant, k.worker, k.id, k.snap, now)
  }

  function AddAccepted(h: History, id: Id, snap: Snapshot, now: Time): History {
    var before := if id in h.accepted then h.accepted[id] else [];
    h.(accepted := h.accepted[id := before + [Submission(snap, now)]], last := h.last[snap.order := id])
  }

  function Apply(s: State, st: UpsertStep): State
    requires Enabled(s, st)
  {
    match st
    case Gate(c, tenant, worker, id, snap) =>
      var suspendedAt := s.db.tenants[tenant].suspendedAt;
      if GateAllows(suspendedAt, snap.deviceFinishedAt)
      then s.(upserts := s.upserts[c := UpsertCall(tenant, worker, id, snap, suspendedAt, false)])
      else s
    case Lock(c) =>
      var k := s.upserts[c];
      if AssignedTo(s.db, k.tenant, k.worker, k.snap.order) then s.(upserts := s.upserts[c := k.(locked := true)])
      else s.(upserts := s.upserts - {c})
    case Finish(c, now) =>
      var k := s.upserts[c];
      var r := Outcome(s, c, now);
      if r.Ok? then s.(db := r.value, upserts := s.upserts - {c}, history := AddAccepted(s.history, k.id, k.snap, now))
      else s.(upserts := s.upserts - {c})
    case Abort(c) => s.(upserts := s.upserts - {c})
  }

  // === Preservation ===========================================================

  lemma CallStepsKeepInv(s: State, st: UpsertStep)
    requires Inv(s) && Enabled(s, st) && !st.Finish?
    ensures Inv(Apply(s, st)) && Grows(s, Apply(s, st))
  {
    AdminSteps.Unchanged(s);
    assert Apply(s, st) == s.(upserts := Apply(s, st).upserts);
    assert UpsertsOk(Apply(s, st).upserts, s.db.orders, s.db.users) by { CallStepsKeepCalls(s, st); }
  }

  lemma CallStepsKeepCalls(s: State, st: UpsertStep)
    requires UpsertsOk(s.upserts, s.db.orders, s.db.users) && Enabled(s, st) && !st.Finish?
    ensures UpsertsOk(Apply(s, st).upserts, s.db.orders, s.db.users)
  {
  }

  /** The frame of an accepted upsert, as far as the invariant needs it. */
  ghost predicate Upserted(a: Db, b: Db, k: UpsertCall, now: Time) {
    && b == a.(execs := b.execs, items := b.items, orders := b.orders)
    && k.snap.order in a.orders
    && b.execs.Keys == a.execs.Keys + {k.id}
    && b.orders == a.orders[k.snap.order := a.orders[k.snap.order].(status := StatusFor(b.execs[k.id]))]
    && (forall e | e in a.execs && e != k.id :: b.execs[e] == a.execs[e])
    && b.execs[k.id].tenant == k.tenant && b.execs[k.id].worker == k.worker && b.execs[k.id].order == k.snap.order
    && (k.id in a.execs ==> ExecGrows(a.execs[k.id], b.execs[k.id]))
    && (k.snap.deviceFinishedAt.Some? ==> b.execs[k.id].deviceFinishedAt.Some?)
  }

  lemma OutcomeIsUpserted(s: State, c: Id, now: Time)
    requires c in s.upserts && Outcome(s, c, now).Ok?
    ensures Upserted(s.db, Outcome(s, c, now).value, s.upserts[c], now)
  {
  }

  lemma FinishKeepsOrders(a: Db, b: Db, k: UpsertCall, now: Time)
    requires Upserted(a, b, k, now) && OrdersOk(a.orders, a.objects, a.versions, a.users)
    ensures OrdersOk(b.orders, b.objects, b.versions, b.users)
    ensures OrdersGrow(a.orders, b.orders) && ExecsGrow(a.execs, b.execs)
  {
  }

  lemma FinishKeepsExecs(a: Db, b: Db, k: UpsertCall, now: Time)
    requires Upserted(a, b, k, now) && ExecsOk(a.execs, a.orders, a.users) && CallOk(k, a.orders, a.users) && k.locked
    ensures ExecsOk(b.execs, b.orders, b.users)
  {
  }

  lemma FinishKeepsStatus(a: Db, b: Db, k: UpsertCall, now: Time, last: map<Id, Id>)
    requires Upserted(a, b, k, now) && StatusOk(a.orders, a.execs, last)
    ensures StatusOk(b.orders, b.execs, last[k.snap.order := k.id])
  {
  }

  lemma FinishKeepsUpserts(a: Db, b: Db, c: Id, upserts: map<Id, UpsertCall>, now: Time)
    requires c in upserts && Upserted(a, b, upserts[c], now) && UpsertsOk(upserts, a.orders, a.users)
    ensures UpsertsOk(upserts - {c}, b.orders, b.users)
  {
  }

  ghost predicate TemplatesIn(items: map<Id, Item>, exec: Id, templateItems: map<Id, Id>, version: Id) {
    forall i | i in items && items[i].exec == exec ::
      items[i].template in templateItems && templateItems[items[i].template] == version
  }

  /** Writing items of one version into an execution that has only those leaves only those. */
  lemma {:induction false} PutItemsTemplates(items: map<Id, Item>, exec: Id, its: seq<ItemInput>, templateItems: map<Id, Id>, version: Id)
    requires PutItems(items, exec, its).Some? && TemplatesIn(items, exec, templateItems, version)
    requires forall it | it in its :: it.template in templateItems && templateItems[it.template] == version
    ensures TemplatesIn(PutItems(items, exec, its).value, exec, templateItems, version)
  {
    if its != [] {
      PutItemsTemplates(items, exec, its[..|its| - 1], templateItems, version);
    }
  }

  lemma FinishKeepsItems(s: State, c: Id, now: Time)
    requires c in s.upserts && Outcome(s, c, now).Ok?
    requires ItemsOk(s.db.items, s.db.execs, s.db.orders, s.db.templateItems)
    ensures var db := Outcome(s, c, now).value; ItemsOk(db.items, db.execs, db.orders, db.templateItems)
  {
    var k, a, b := s.upserts[c], s.db, Outcome(s, c, now).value;
    var kept := PruneItems(a.items, k.id, ItemIds(k.snap.items));
    var version := a.orders[k.snap.order].version;
    UpsertFrame(a, k.tenant, k.worker, k.id, k.snap, now);
    forall i | i in kept && kept[i].exec == k.id
      ensures kept[i].template in a.templateItems && a.templateItems[kept[i].template] == version
    {
      assert ItemRowOk(a.items[i], a.execs, a.orders, a.templateItems);
    }
    forall it | it in k.snap.items ensures it.template in a.templateItems && a.templateItems[it.template] == version {
      assert AllowedTemplate(a.templateItems, a.versions, k.tenant, version, it.template);
    }
    PutItemsTemplates(kept, k.id, k.snap.items, a.templateItems, version);
    forall i | i in b.items ensures ItemRowOk(b.items[i], b.execs, b.orders, b.templateItems) {
      if b.items[i].exec != k.id { assert ItemRowOk(a.items[i], a.execs, a.orders, a.templateItems); }
    }
  }

  lemma ItemsHaveTheirExecs(db: Db)
    requires ItemsOk(db.items, db.execs, db.orders, db.templateItems)
    ensures ItemsHaveExecs(db)
  {
  }

  lemma FinishKeepsOwnView(s: State, c: Id, now: Time)
    requires c in s.upserts && Outcome(s, c, now).Ok? && ItemsHaveExecs(s.db)
    requires ViewsOk(s.db.execs, s.db.items, s.history.accepted)
    ensures var k, db := s.upserts[c], Outcome(s, c, now).value;
            k.id in db.execs && ViewOk(db.execs, db.items, k.id, AddAccepted(s.history, k.id, k.snap, now).accepted[k.id])
  {
    var k := s.upserts[c];
    var before := if k.id in s.history.accepted then s.history.accepted[k.id] else [];
    var after := before + [Submission(k.snap, now)];
    UpsertIsNextView(s.db, k.tenant, k.worker, k.id, k.snap, now);
    assert FoldView(before) == ViewIfAny(s.db, k.id) by {
      if k.id in s.db.execs { assert ViewOk(s.db.execs, s.db.items, k.id, before); }
    }
    assert after[..|after| - 1] == before;
  }

  lemma OtherViewsStay(a: Db, b: Db, id: Id, e: Id)
    requires e in a.execs && e in b.execs && e != id && b.execs[e] == a.execs[e]
    requires forall i | i in a.items && a.items[i].exec != id :: i in b.items && b.items[i] == a.items[i]
    requires forall i | i in b.items && b.items[i].exec != id :: i in a.items && b.items[i] == a.items[i]
    ensures ViewIn(b.execs, b.items, e) == ViewIn(a.execs, a.items, e)
  {
  }

  lemma OthersKeepViews(a: Db, b: Db, id: Id, accepted: map<Id, seq<Submission>>)
    requires ViewsOk(a.execs, a.items, accepted)
    requires forall e | e in a.execs && e != id :: e in b.execs && b.execs[e] == a.execs[e]
    requires forall i | i in a.items && a.items[i].exec != id :: i in b.items && b.items[i] == a.items[i]
    requires forall i | i in b.items && b.items[i].exec != id :: i in a.items && b.items[i] == a.items[i]
    ensures forall e | e in a.execs && e != id :: ViewOk(b.execs, b.items, e, accepted[e])
  {
    forall e | e in a.execs && e != id ensures ViewOk(b.execs, b.items, e, accepted[e]) {
      assert ViewOk(a.execs, a.items, e, accepted[e]);
      OtherViewsStay(a, b, id, e);
    }
  }

  lemma ViewsAfter(a: Db, b: Db, id: Id, accepted: map<Id, seq<Submission>>, subs: seq<Submission>)
    requires ViewsOk(a.execs, a.items, accepted) && b.execs.Keys == a.execs.Keys + {id}
    requires ViewOk(b.execs, b.items, id, subs)
    requires forall e | e in a.execs && e != id :: b.execs[e] == a.execs[e]
    requires forall i | i in a.items && a.items[i].exec != id :: i in b.items && b.items[i] == a.items[i]
    requires forall i | i in b.items && b.items[i].exec != id :: i in a.items && b.items[i] == a.items[i]
    ensures ViewsOk(b.execs, b.items, accepted[id := subs])
  {
    OthersKeepViews(a, b, id, accepted);
  }

  lemma FinishKeepsViews(s: State, c: Id, now: Time)
    requires c in s.upserts && Outcome(s, c, now).Ok? && ItemsHaveExecs(s.db)
    requires ViewsOk(s.db.execs, s.db.items, s.history.accepted)
    ensures var db := Outcome(s, c, now).value;
            ViewsOk(db.execs, db.items, AddAccepted(s.history, s.upserts[c].id, s.upserts[c].snap, now).accepted)
  {
    var k, a, b := s.upserts[c], s.db, Outcome(s, c, now).value;
    FinishKeepsOwnView(s, c, now);
    UpsertFrame(a, k.tenant, k.worker, k.id, k.snap, now);
    ViewsAfter(a, b, k.id, s.history.accepted, AddAccepted(s.history, k.id, k.snap, now).accepted[k.id]);
  }

  lemma FinishKeepsPhotos(a: map<Id, Exec>, b: map<Id, Exec>, photos: map<Id, Photo>, calls: map<Id, PhotoCall>, stored: set<S3Key>)
    requires ExecsGrow(a, b) && PhotosOk(photos, a, stored) && PhotoCallsOk(calls, a, stored)
    ensures PhotosOk(photos, b, stored) && PhotoCallsOk(calls, b, stored)
  {
  }

  lemma FinishKeepsRows(s: State, c: Id, now: Time, b: Db)
    requires Inv(s) && Enabled(s, Finish(c, now)) && Outcome(s, c, now) == Ok(b)
    ensures Upserted(s.db, b, s.upserts[c], now)
    ensures OrdersOk(b.orders, b.objects, b.versions, b.users) && ExecsOk(b.execs, b.orders, b.users)
    ensures StatusOk(b.orders, b.execs, s.history.last[s.upserts[c].snap.order := s.upserts[c].id])
    ensures UpsertsOk(s.upserts - {c}, b.orders, b.users)
    ensures OrdersGrow(s.db.orders, b.orders) && ExecsGrow(s.db.execs, b.execs)
  {
    var a, k := s.db, s.upserts[c];
    OutcomeIsUpserted(s, c, now);
    FinishKeepsOrders(a, b, k, now);
    FinishKeepsExecs(a, b, k, now);
    FinishKeepsStatus(a, b, k, now, s.history.last);
    FinishKeepsUpserts(a, b, c, s.upserts, now);
  }

  lemma HistoryOnlyGrows(h: History, id: Id, snap: Snapshot, now: Time)
    ensures HistoryGrows(h, AddAccepted(h, id, snap, now))
  {
  }

  lemma FinishKeepsInv(s: State, c: Id, now: Time)
    requires Inv(s) && Enabled(s, Finish(c, now))
    ensures Inv(Apply(s, Finish(c, now))) && Grows(s, Apply(s, Finish(c, now)))
  {
    AdminSteps.Unchanged(s);
    var k, r := s.upserts[c], Outcome(s, c, now);
    if r.Ok? {
      FinishKeepsRows(s, c, now, r.value);
      FinishKeepsItems(s, c, now);
      ItemsHaveTheirExecs(s.db);
      FinishKeepsViews(s, c, now);
      FinishKeepsPhotos(s.db.execs, r.value.execs, s.db.photos, s.photoCalls, s.store.Keys);
      HistoryOnlyGrows(s.history, k.id, k.snap, now);
    }
  }

  lemma UpsertKeepsInv(s: State, st: UpsertStep)
    requires Inv(s) && Enabled(s, st)
    ensures Inv(Apply(s, st)) && Grows(s, Apply(s, st))
  {
    if st.Finish? { FinishKeepsInv(s, st.c, st.now); } else { CallStepsKeepInv(s, st); }
  }
}
