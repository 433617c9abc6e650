/** All evidence steps together, interleaved in any way, and the theorems about every run. */
module EvidenceSystem {
  import opened Options
  import opened Tables
  import opened UpsertLaws
  import opened EvidenceState
  import A = AdminSteps
  import U = UpsertSteps
  import P = PhotoSteps
  import R = Replays

  datatype Step = Admin(a: A.AdminStep) | Worker(w: U.UpsertStep) | Photos(p: P.PhotoStep)

  predicate Enabled(s: State, st: Step) {
    match st
    case Admin(a) => A.Enabled(s, a)
    case Worker(w) => U.Enabled(s, w)
    case Photos(p) => P.Enabled(s, p)
  }

  function Apply(s: State, st: Step): State
    requires Enabled(s, st)
  {
    match st
    case Admin(a) => A.Apply(s, a)
    case Worker(w) => U.Apply(s, w)
    case Photos(p) => P.Apply(s, p)
  }

  function Empty(): State {
    State(Db(map[], map[], map[], map[], map[], map[], map[], map[], map[]), map[], map[], map[], {},
          History(map[], map[], map[], 0, map[]))
  }

  ghost predicate Next(s: State, s': State) {
    exists st :: Enabled(s, st) && s' == Apply(s, st)
  }

  /** A finite behaviour from the empty database on. */
  ghost predicate IsRun(b: seq<State>) {
    && |b| > 0 && b[0] == Empty()
    && forall i | 0 < i < |b| :: StepAt(b, i)
  }

  ghost predicate StepAt(b: seq<State>, i: int)
    requires 0 < i < |b|
  {
    Next(b[i - 1], b[i])
  }

  lemma StepKeepsInv(s: State, st: Step)
    requires Inv(s) && Enabled(s, st)
    ensures Inv(Apply(s, st)) && Grows(s, Apply(s, st))
  {
    match st
    case Admin(a) => A.AdminKeepsInv(s, a);
    case Worker(w) => U.UpsertKeepsInv(s, w);
    case Photos(p) => P.PhotoKeepsInv(s, p);
  }

  lemma NextKeepsInv(s: State, s': State)
    requires Inv(s) && Next(s, s')
    ensures Inv(s') && Grows(s, s')
  {
    var st :| Enabled(s, st) && s' == Apply(s, st);
    StepKeepsInv(s, st);
  }

  lemma StepKeeps(b: seq<State>, j: nat)
    requires IsRun(b) && 0 < j < |b| && Inv(b[j - 1])
    ensures Inv(b[j])
  {
    assert StepAt(b, j);
    NextKeepsInv(b[j - 1], b[j]);
  }

  lemma EmptyIsOk()
    ensures Inv(Empty())
  {
  }

  lemma {:induction false} RunKeepsInv(b: seq<State>, i: nat)
    requires IsRun(b) && i < |b|
    ensures Inv(b[i])
  {
    if i == 0 {
      EmptyIsOk();
    } else {
      RunKeepsInv(b, i - 1);
      StepKeeps(b, i);
    }
  }

  lemma StepGrows(b: seq<State>, j: nat)
    requires IsRun(b) && 0 < j < |b|
    ensures Grows(b[j - 1], b[j])
  {
    RunKeepsInv(b, j - 1);
    assert StepAt(b, j);
    NextKeepsInv(b[j - 1], b[j]);
  }

  /** Along a run nothing that Grows protects is ever lost or overwritten. */
  lemma {:induction false} RunGrows(b: seq<State>, i: nat, j: nat)
    requires IsRun(b) && i <= j < |b|
    ensures Grows(b[i], b[j])
    decreases j
  {
    if i == j {
      A.Unchanged(b[i]);
    } else {
      RunGrows(b, i, j - 1);
      StepGrows(b, j);
      GrowsTransitive(b[i], b[j - 1], b[j]);
    }
  }

  // === Order status ===========================================================

  ghost predicate IsExecOf(execs: map<Id, Exec>, e: Id, o: Id) {
    e in execs && execs[e].order == o
  }

  ghost predicate HasExec(execs: map<Id, Exec>, o: Id) {
    exists e :: IsExecOf(execs, e, o)
  }

  ghost predicate HasFinished(execs: map<Id, Exec>, o: Id) {
    exists e :: IsExecOf(execs, e, o) && execs[e].deviceFinishedAt.Some?
  }

  ghost predicate HasUnfinished(execs: map<Id, Exec>, o: Id) {
    exists e :: IsExecOf(execs, e, o) && execs[e].deviceFinishedAt.None?
  }

  lemma StatusTellsExecutions(orders: map<Id, Order>, execs: map<Id, Exec>, last: map<Id, Id>, o: Id)
    requires StatusOk(orders, execs, last) && o in orders
    ensures orders[o].status == Scheduled || orders[o].status == Missed <==> !HasExec(execs, o)
    ensures orders[o].status == Done ==> HasFinished(execs, o)
    ensures orders[o].status == InProgress ==> HasUnfinished(execs, o)
  {
    assert OrderStatusOk(o, orders[o].status, execs, last);
    if o in last { assert IsExecOf(execs, last[o], o); }
  }

  /** Whatever upserts, patches, bulk creates and sweeps interleave, an order's status tells
      which executions it has. */
  lemma OrderStatusIsHonest(b: seq<State>, i: nat, o: Id)
    requires IsRun(b) && i < |b| && o in b[i].db.orders
    ensures var db := b[i].db;
            && (db.orders[o].status == Scheduled || db.orders[o].status == Missed <==> !HasExec(db.execs, o))
            && (db.orders[o].status == Done ==> HasFinished(db.execs, o))
            && (db.orders[o].status == InProgress ==> HasUnfinished(db.execs, o))
  {
    RunKeepsInv(b, i);
    StatusTellsExecutions(b[i].db.orders, b[i].db.execs, b[i].history.last, o);
  }

  /** Call `c` commits, from `s` to `s'`, an execution of order `o` that is still unfinished,
      while some other execution of the order is finished. */
  ghost predicate Reopens(s: State, s': State, c: Id, o: Id) {
    && c in s.upserts && s.upserts[c].snap.order == o
    && var e := s.upserts[c].id;
       && IsExecOf(s'.db.execs, e, o) && s'.db.execs[e].deviceFinishedAt.None?
       && exists x :: x != e && IsExecOf(s.db.execs, x, o) && s.db.execs[x].deviceFinishedAt.Some?
  }

  /** Only one thing takes an order out of done: an accepted upsert of another, unfinished
      execution of it. */
  lemma OnlyAnotherExecutionReopens(b: seq<State>, i: nat, o: Id) returns (c: Id, now: Time)
    requires IsRun(b) && 0 < i < |b|
    requires o in b[i - 1].db.orders && b[i - 1].db.orders[o].status == Done
    requires o in b[i].db.orders && b[i].db.orders[o].status != Done
    ensures Enabled(b[i - 1], Step.Worker(U.Finish(c, now))) && b[i] == Apply(b[i - 1], Step.Worker(U.Finish(c, now)))
    ensures Reopens(b[i - 1], b[i], c, o)
  {
    OrderStatusIsHonest(b, i - 1, o);
    assert StepAt(b, i);
    c, now := ReopeningStep(b[i - 1], b[i], o);
  }

  lemma ReopeningStep(s: State, s': State, o: Id) returns (c: Id, now: Time)
    requires Next(s, s') && o in s.db.orders && s.db.orders[o].status == Done && HasFinished(s.db.execs, o)
    requires o in s'.db.orders && s'.db.orders[o].status != Done
    ensures Enabled(s, Step.Worker(U.Finish(c, now))) && s' == Apply(s, Step.Worker(U.Finish(c, now)))
    ensures Reopens(s, s', c, o)
  {
    var st :| Enabled(s, st) && s' == Apply(s, st);
    c, now := 0, 0;
    match st
    case Admin(a) => AdminKeepsDone(s, a, o);
    case Photos(p) => P.PhotoStepShape(s, p);
    case Worker(w) =>
      UpsertReopens(s, w, o);
      c, now := w.c, w.now;
  }

  lemma UpsertReopens(s: State, w: U.UpsertStep, o: Id)
    requires U.Enabled(s, w) && o in s.db.orders && s.db.orders[o].status == Done && HasFinished(s.db.execs, o)
    requires o in U.Apply(s, w).db.orders && U.Apply(s, w).db.orders[o].status != Done
    ensures w.Finish? && Reopens(s, U.Apply(s, w), w.c, o)
  {
  }

  lemma AdminKeepsDone(s: State, a: A.AdminStep, o: Id)
    requires A.Enabled(s, a) && o in s.db.orders && s.db.orders[o].status == Done
    ensures o in A.Apply(s, a).db.orders ==> A.Apply(s, a).db.orders[o].status == Done
  {
    match a
    case CreateOrders(tenant, batch) => InsertOrdersRows(s.db.orders, tenant, batch);
    case _ =>
  }

  /** An order with a single execution is done exactly when that execution has a completion, so
      it then stays done for as long as it has no other. */
  lemma DoneIsPermanentWithOneExecution(b: seq<State>, i: nat, j: nat, o: Id, e: Id)
    requires IsRun(b) && i <= j < |b| && o in b[i].db.orders && b[i].db.orders[o].status == Done
    requires forall x :: IsExecOf(b[j].db.execs, x, o) ==> x == e
    ensures o in b[j].db.orders && b[j].db.orders[o].status == Done
  {
    RunGrows(b, i, j);
    OrderStatusIsHonest(b, i, o);
    OrderStatusIsHonest(b, j, o);
    var x :| IsExecOf(b[i].db.execs, x, o) && b[i].db.execs[x].deviceFinishedAt.Some?;
    assert ExecGrows(b[i].db.execs[x], b[j].db.execs[x]);
    assert IsExecOf(b[j].db.execs, x, o);
  }

  /** Exactly: an order is done iff its last upserted execution has a stored completion. */
  lemma DoneExactly(b: seq<State>, i: nat, o: Id)
    requires IsRun(b) && i < |b| && o in b[i].db.orders
    ensures var db, last := b[i].db, b[i].history.last;
            db.orders[o].status == Done <==>
            o in last && last[o] in db.execs && db.execs[last[o]].deviceFinishedAt.Some?
  {
    RunKeepsInv(b, i);
    assert OrderStatusOk(o, b[i].db.orders[o].status, b[i].db.execs, b[i].history.last);
  }

  /** Which accepted upserts reopen a done order can be told before the commit: those without a
      completion, of an execution that has none stored. */
  lemma DoneIsLeftExactly(b: seq<State>, i: nat, c: Id, now: Time)
    requires IsRun(b) && i < |b| && U.Enabled(b[i], U.Finish(c, now)) && U.Outcome(b[i], c, now).Ok?
    requires b[i].upserts[c].snap.order in b[i].db.orders && b[i].db.orders[b[i].upserts[c].snap.order].status == Done
    ensures var k, db, after := b[i].upserts[c], b[i].db, U.Outcome(b[i], c, now).value;
            && k.snap.order in after.orders
            && (after.orders[k.snap.order].status != Done <==>
                k.snap.deviceFinishedAt.None? && (k.id in db.execs ==> db.execs[k.id].deviceFinishedAt.None?))
  {
    U.OutcomeIsUpserted(b[i], c, now);
  }

  // === Upserts ================================================================

  /** In every run the stored execution is the closed form of the snapshots accepted for it. */
  lemma StoredEvidenceHasClosedForm(b: seq<State>, i: nat, e: Id)
    requires IsRun(b) && i < |b| && e in b[i].db.execs
    ensures var db := b[i].db;
            && e in b[i].history.accepted && b[i].history.accepted[e] != []
            && var subs := b[i].history.accepted[e];
               var row, last, first := db.execs[e], subs[|subs| - 1].snap, FirstCompletion(subs);
               && row.startedAt == last.startedAt && row.note == last.note && row.order == subs[0].snap.order
               && row.deviceFinishedAt == (if first.Some? then first.value.snap.deviceFinishedAt else None)
               && row.finishedAt == (if first.Some? then Some(first.value.at) else None)
               && ItemsOf(db.items, e).Keys == ItemIds(last.items)
               && forall id | id in ItemsOf(db.items, e) ::
                    Mentions(subs, |subs| - 1, id) && ItemsOf(db.items, e)[id] == PredictedItem(subs, id)
  {
    RunKeepsInv(b, i);
    var subs := b[i].history.accepted[e];
    assert ViewOk(b[i].db.execs, b[i].db.items, e, subs);
    ClosedForm(subs);
    ClosedFormRow(subs);
  }

  /** The replay leaves the order with another status. */
  ghost predicate ReplayMovesStatus(s: State, e: Id)
    requires e in s.db.execs
  {
    var last, o := s.history.last, s.db.execs[e].order;
    && o in last && last[o] != e && last[o] in s.db.execs
    && (s.db.execs[last[o]].deviceFinishedAt.Some? <==> s.db.execs[e].deviceFinishedAt.None?)
  }

  /**
   In any reachable state, whatever has happened since, replaying in one go all snapshots of an
   execution from some point on: it is accepted exactly when its order is still the worker's, no
   other execution has taken an item id it names, and ids and templates are as they were; then
   all tables stay as they are, but for the order's status, and that changes exactly when another
   execution of the order was upserted last and one of the two is completed and the other not.
  */
  lemma ReplayInState(b: seq<State>, i: nat, e: Id, h: seq<Submission>, a: seq<Submission>, again: seq<Submission>)
    requires IsRun(b) && i < |b| && e in b[i].db.execs && e in b[i].history.accepted
    requires b[i].history.accepted[e] == h + a && a != [] && SameSnaps(a, again)
    ensures var db, row := b[i].db, b[i].db.execs[e];
            var r := R.UpsertAll(db, row.tenant, row.worker, e, again);
            && (r.Ok? <==> R.AllAcceptable(db, row.tenant, row.worker, e, again))
            && row.order in db.orders
            && (r.Ok? ==> r.value == db.(orders := r.value.orders) && row.order in r.value.orders
                          && r.value.orders == db.orders[row.order := db.orders[row.order].(status := r.value.orders[row.order].status)]
                          && (r.value.orders[row.order].status != db.orders[row.order].status <==> ReplayMovesStatus(b[i], e)))
  {
    RunKeepsInv(b, i);
    var db, row := b[i].db, b[i].db.execs[e];
    assert ExecRowOk(row, db.orders, db.users);
    assert ViewOk(db.execs, db.items, e, h + a);
    U.ItemsHaveTheirExecs(db);
    R.ReplaySetsStatusOnly(db, row.tenant, row.worker, e, h, a, again);
    assert OrderStatusOk(row.order, db.orders[row.order].status, db.execs, b[i].history.last);
  }

  /** And if the replayed snapshots are sent one by one while anything else goes on, then once
      they have all been accepted the execution's row and items are what they were. */
  lemma ReplayInRun(b: seq<State>, i: nat, j: nat, e: Id, h: seq<Submission>, a: seq<Submission>, again: seq<Submission>)
    requires IsRun(b) && i <= j < |b| && e in b[i].db.execs && e in b[i].history.accepted && e in b[j].history.accepted
    requires a != [] && SameSnaps(a, again)
    requires b[i].history.accepted[e] == h + a && b[j].history.accepted[e] == h + a + again
    ensures e in b[j].db.execs && b[j].db.execs[e] == b[i].db.execs[e]
    ensures ItemsOf(b[j].db.items, e) == ItemsOf(b[i].db.items, e)
  {
    RunKeepsInv(b, i);
    RunKeepsInv(b, j);
    RunGrows(b, i, j);
    ReplayIsIdempotent(h, a, again);
    assert ViewOk(b[i].db.execs, b[i].db.items, e, h + a);
    assert ViewOk(b[j].db.execs, b[j].db.items, e, h + a + again);
    assert ExecGrows(b[i].db.execs[e], b[j].db.execs[e]);
  }

  /** The order lock keeps the assignment true up to the commit: nothing that happens between
      can make an upsert fail, or succeed, for a worker who lost the order. */
  lemma AssignmentHoldsAtCommit(b: seq<State>, i: nat, c: Id, now: Time)
    requires IsRun(b) && i < |b| && U.Enabled(b[i], U.Finish(c, now))
    ensures var k := b[i].upserts[c];
            && AssignedTo(b[i].db, k.tenant, k.worker, k.snap.order)
            && U.Outcome(b[i], c, now) != Err(NotAssigned)
  {
    RunKeepsInv(b, i);
    assert CallOk(b[i].upserts[c], b[i].db.orders, b[i].db.users);
  }

  /**
   A locked upsert is accepted exactly when its execution id is new or its own on this order, its
   templates are of the pinned version and its item ids are new or its own; each refusal names
   the first of these that fails, and then no table and no accepted snapshot changes.
  */
  lemma UpsertAcceptedExactly(b: seq<State>, i: nat, c: Id, now: Time)
    requires IsRun(b) && i < |b| && U.Enabled(b[i], U.Finish(c, now))
    ensures var k, db, r, s' := b[i].upserts[c], b[i].db, U.Outcome(b[i], c, now), U.Apply(b[i], U.Finish(c, now));
            var mine := k.id in db.execs ==> Owns(db.execs, k.id, k.tenant, k.worker, k.snap.order);
            && k.snap.order in db.orders
            && var templates := TemplatesOk(db, k.tenant, db.orders[k.snap.order].version, k.snap.items);
               && (r.Ok? <==> mine && templates && forall it | it in k.snap.items :: ItemWritable(db.items, k.id, it))
               && (r.Err? ==> r.error == if !mine then ExecutionIdConflict else if !templates then InvalidChecklistItem else ItemConflict)
               && (r.Err? ==> s'.db == db && s'.history == b[i].history)
  {
    var k := b[i].upserts[c];
    AssignmentHoldsAtCommit(b, i, c, now);
    AcceptedExactly(b[i].db, k.tenant, k.worker, k.id, k.snap, now);
  }

  /** Tenant and version boundaries hold for every stored order, execution and item. */
  lemma ReferencesStayInTenant(b: seq<State>, i: nat)
    requires IsRun(b) && i < |b|
    ensures var db := b[i].db;
            && (forall o | o in db.orders ::
                  && db.orders[o].objectId in db.objects && db.objects[db.orders[o].objectId].tenant == db.orders[o].tenant
                  && db.orders[o].version in db.versions && db.versions[db.orders[o].version] == db.orders[o].tenant)
            && (forall x | x in db.items ::
                  && db.items[x].exec in db.execs && db.execs[db.items[x].exec].order in db.orders
                  && db.items[x].template in db.templateItems
                  && db.templateItems[db.items[x].template] == db.orders[db.execs[db.items[x].exec].order].version)
  {
    RunKeepsInv(b, i);
    var db := b[i].db;
    forall o | o in db.orders
      ensures db.orders[o].objectId in db.objects && db.objects[db.orders[o].objectId].tenant == db.orders[o].tenant
      ensures db.orders[o].version in db.versions && db.versions[db.orders[o].version] == db.orders[o].tenant
    {
      assert OrderRowOk(db.orders[o], db.objects, db.versions, db.users);
    }
    forall x | x in db.items
      ensures db.items[x].exec in db.execs && db.execs[db.items[x].exec].order in db.orders
      ensures db.items[x].template in db.templateItems
      ensures db.templateItems[db.items[x].template] == db.orders[db.execs[db.items[x].exec].order].version
    {
      assert ItemRowOk(db.items[x], db.execs, db.orders, db.templateItems);
    }
  }

  /** A reference checked in state i may still be written in any later state j, whoever was
      deactivated in between; that is all the writing steps ask for. */
  lemma CheckedReferencesStay(b: seq<State>, i: nat, j: nat, tenant: Id, n: NewOrder)
    requires IsRun(b) && i <= j < |b| && ReferencesOk(b[i].db, tenant, n)
    ensures ReferencesInTenant(b[j].db, tenant, n)
  {
    RunGrows(b, i, j);
  }

  // === Suspension =============================================================

  /** suspended_at and the status always agree. */
  lemma SuspensionFieldsAgree(b: seq<State>, i: nat, t: Id)
    requires IsRun(b) && i < |b| && t in b[i].db.tenants
    ensures b[i].db.tenants[t].status == Suspended <==> b[i].db.tenants[t].suspendedAt.Some?
  {
    RunKeepsInv(b, i);
    assert TenantOk(t, b[i].db.tenants[t], b[i].history.firstSuspended);
  }

  /** An upsert accepted by a gate that saw a suspension carries work finished before it, and
      leaves its execution completed and its order done. */
  lemma SuspendedUpsertIsCompletion(b: seq<State>, i: nat, c: Id, now: Time)
    requires IsRun(b) && i < |b| && U.Enabled(b[i], U.Finish(c, now)) && U.Outcome(b[i], c, now).Ok?
    requires b[i].upserts[c].gate.Some?
    ensures var k, db := b[i].upserts[c], U.Outcome(b[i], c, now).value;
            && k.snap.deviceFinishedAt.Some? && k.snap.deviceFinishedAt.value < k.gate.value
            && k.id in db.execs && db.execs[k.id].deviceFinishedAt.Some?
            && k.snap.order in db.orders && db.orders[k.snap.order].status == Done
  {
    RunKeepsInv(b, i);
    assert CallOk(b[i].upserts[c], b[i].db.orders, b[i].db.users);
    U.OutcomeIsUpserted(b[i], c, now);
  }

  /**
   Evidence is never hostage to billing: a completion stored by state i and earlier than the
   tenant's first suspension passes the photo gates in every later state j, however often the
   operator (whose clock does not run backwards) suspends and activates.
  */
  lemma EarlyEvidenceAlwaysPasses(b: seq<State>, i: nat, j: nat, e: Id)
    requires IsRun(b) && i <= j < |b| && e in b[i].db.execs && b[i].db.execs[e].deviceFinishedAt.Some?
    requires var t, h := b[i].db.execs[e].tenant, b[j].history.firstSuspended;
             t in h ==> b[i].db.execs[e].deviceFinishedAt.value < h[t]
    ensures var t := b[i].db.execs[e].tenant;
            && t in b[j].db.tenants && e in b[j].db.execs
            && GateAllows(b[j].db.tenants[t].suspendedAt, b[j].db.execs[e].deviceFinishedAt)
  {
    RunKeepsInv(b, i);
    RunKeepsInv(b, j);
    RunGrows(b, i, j);
    assert ExecGrows(b[i].db.execs[e], b[j].db.execs[e]);
    assert ExecRowOk(b[j].db.execs[e], b[j].db.orders, b[j].db.users);
    var t := b[j].db.execs[e].tenant;
    assert TenantOk(t, b[j].db.tenants[t], b[j].history.firstSuspended);
  }

  // === Photos =================================================================

  /** A confirmed photo is kept: its row is never deleted, its object stays in the store, and
      its execution, kind, key and every stamp already set never change. */
  lemma ConfirmedPhotoIsKept(b: seq<State>, i: nat, j: nat, p: Id)
    requires IsRun(b) && i <= j < |b| && p in b[i].db.photos && b[i].db.photos[p].uploadedAt.Some?
    ensures p in b[j].db.photos && PhotoGrows(b[i].db.photos[p], b[j].db.photos[p])
    ensures b[j].db.photos[p].key in b[j].store
  {
    RunGrows(b, i, j);
    RunKeepsInv(b, j);
    assert PhotoGrows(b[i].db.photos[p], b[j].db.photos[p]);
    assert PhotoRowOk(p, b[j].db.photos[p], b[j].db.execs, b[j].store.Keys);
  }

  lemma StepKeepsColumns(b: seq<State>, n: nat, p: Id)
    requires IsRun(b) && 0 < n < |b| && P.PhotoConfirmsOk(b[n - 1].db.photos, b[n - 1].history.confirms, p)
    ensures P.PhotoConfirmsOk(b[n].db.photos, b[n].history.confirms, p)
  {
    assert StepAt(b, n);
    var st :| Enabled(b[n - 1], st) && b[n] == Apply(b[n - 1], st);
    match st
    case Photos(x) => P.StepKeepsConfirms(b[n - 1], x, p);
    case Admin(a) => AdminLeavesPhotos(b[n - 1], a);
    case Worker(w) => UpsertLeavesPhotos(b[n - 1], w);
  }

  /** In every state of every run a photo's time and coordinates are those of its first confirm
      that carried them, and its upload stamp is that of the first confirm there was. */
  lemma {:induction false} ColumnsComeFromFirstConfirms(b: seq<State>, n: nat, p: Id)
    requires IsRun(b) && n < |b|
    ensures P.PhotoConfirmsOk(b[n].db.photos, b[n].history.confirms, p)
  {
    if n > 0 {
      ColumnsComeFromFirstConfirms(b, n - 1, p);
      StepKeepsColumns(b, n, p);
    }
  }

  /** The step replaces the bytes stored under `key`. */
  ghost predicate Overwrites(s: State, st: Step, key: S3Key) {
    Enabled(s, st) && key in s.store && !(key in Apply(s, st).store && Apply(s, st).store[key] == s.store[key])
  }

  lemma OverwritesNeedUrl(s: State, st: Step, key: S3Key)
    requires Overwrites(s, st, key)
    ensures key in s.grants
  {
  }

  lemma LiveUrlOverwrites(s: State, key: S3Key)
    requires key in s.grants && key in s.store
    ensures Overwrites(s, Photos(P.Upload(key, s.store[key] + [0])), key)
  {
  }

  /** The bytes of a confirmed photo can still be replaced exactly while an upload URL for its
      key is live. */
  lemma OverwritableWhileUrlLive(s: State, p: Id)
    requires PhotosOk(s.db.photos, s.db.execs, s.store.Keys) && p in s.db.photos && s.db.photos[p].uploadedAt.Some?
    ensures (exists st :: Overwrites(s, st, s.db.photos[p].key)) <==> s.db.photos[p].key in s.grants
  {
    var key := s.db.photos[p].key;
    assert PhotoRowOk(p, s.db.photos[p], s.db.execs, s.store.Keys);
    if key in s.grants { LiveUrlOverwrites(s, key); }
    forall st | Overwrites(s, st, key) ensures key in s.grants {
      OverwritesNeedUrl(s, st, key);
    }
  }

  /** The photo is sealed before and after, with the same key and the same bytes under it. */
  ghost predicate SealKept(s: State, s': State, p: Id) {
    && P.Sealed(s, p) && P.Sealed(s', p) && s'.db.photos[p].key == s.db.photos[p].key
    && s.db.photos[p].key in s.store && s.db.photos[p].key in s'.store
    && s'.store[s.db.photos[p].key] == s.store[s.db.photos[p].key]
  }

  lemma NextKeepsSeal(s: State, s': State, p: Id)
    requires PhotosOk(s.db.photos, s.db.execs, s.store.Keys) && PhotoCallsOk(s.photoCalls, s.db.execs, s.store.Keys)
    requires Next(s, s') && P.Sealed(s, p)
    ensures SealKept(s, s', p)
  {
    var st :| Enabled(s, st) && s' == Apply(s, st);
    match st
    case Photos(x) => P.SealedStays(s, x, p);
    case Admin(a) =>
      AdminLeavesPhotos(s, a);
      SamePhotosKeepSeal(s, s', p);
    case Worker(w) =>
      UpsertLeavesPhotos(s, w);
      SamePhotosKeepSeal(s, s', p);
  }

  lemma SamePhotosKeepSeal(s: State, s': State, p: Id)
    requires PhotosOk(s.db.photos, s.db.execs, s.store.Keys) && P.Sealed(s, p) && SamePhotos(s, s')
    ensures SealKept(s, s', p)
  {
  }

  ghost predicate SamePhotos(s: State, s': State) {
    && s'.db.photos == s.db.photos && s'.photoCalls == s.photoCalls && s'.store == s.store && s'.grants == s.grants
    && s'.history.confirms == s.history.confirms
  }

  lemma AdminLeavesPhotos(s: State, a: A.AdminStep)
    requires A.Enabled(s, a)
    ensures SamePhotos(s, A.Apply(s, a))
  {
  }

  lemma UpsertLeavesPhotos(s: State, w: U.UpsertStep)
    requires U.Enabled(s, w)
    ensures SamePhotos(s, U.Apply(s, w))
  {
  }

  lemma StepSeals(b: seq<State>, j: nat, p: Id)
    requires IsRun(b) && 0 < j < |b| && P.Sealed(b[j - 1], p)
    ensures SealKept(b[j - 1], b[j], p)
  {
    RunKeepsInv(b, j - 1);
    assert StepAt(b, j);
    NextKeepsSeal(b[j - 1], b[j], p);
  }

  /** Once the last upload URL for a confirmed photo has expired and no presign for it is past
      its check, its bytes never change again. */
  lemma {:induction false} SealedBytesNeverChange(b: seq<State>, i: nat, j: nat, p: Id)
    requires IsRun(b) && i <= j < |b| && P.Sealed(b[i], p)
    ensures SealKept(b[i], b[j], p)
    decreases j
  {
    if i == j {
      RunKeepsInv(b, i);
      assert PhotoRowOk(p, b[i].db.photos[p], b[i].db.execs, b[i].store.Keys);
    } else {
      SealedBytesNeverChange(b, i, j - 1, p);
      StepSeals(b, j, p);
    }
  }
}
