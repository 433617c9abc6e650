/**
 Runs of the evidence system from the empty database on that show what the service does not
 promise: done may be left, replays may diverge, a confirmed photo may be overwritten, a confirm
 may stamp a row it did not read.
*/
module Witnesses {
  import opened Options
  import opened Tables
  import opened UpsertLaws
  import opened EvidenceState
  import opened EvidenceSystem
  import A = AdminSteps
  import U = UpsertSteps
  import P = PhotoSteps

  ghost function Last(b: seq<State>): State
    requires b != []
  {
    b[|b| - 1]
  }

  /** Run `c` goes on from run `b`. */
  ghost predicate Continues(b: seq<State>, c: seq<State>) {
    IsRun(c) && b != [] && b <= c
  }

  lemma Extend(b: seq<State>, st: Step) returns (c: seq<State>)
    requires IsRun(b) && Enabled(Last(b), st)
    ensures Continues(b, c) && |c| == |b| + 1 && Last(c) == Apply(Last(b), st)
  {
    c := b + [Apply(Last(b), st)];
    forall i | 0 < i < |c| ensures StepAt(c, i) {
      if i < |b| { assert StepAt(b, i); }
    }
  }

  // === Whole requests as runs =================================================

  /** An acceptable snapshot runs through gate, lock and commit. */
  lemma UpsertRuns(b: seq<State>, tenant: Id, worker: Id, id: Id, snap: Snapshot, now: Time) returns (c: seq<State>)
    requires IsRun(b) && Last(b).upserts == map[]
    requires var db := Last(b).db;
             && tenant in db.tenants && worker in db.users && db.users[worker].tenant == tenant
             && GateAllows(db.tenants[tenant].suspendedAt, snap.deviceFinishedAt)
             && Acceptable(db, tenant, worker, id, snap)
    ensures Continues(b, c) && Upsert(Last(b).db, tenant, worker, id, snap, now).Ok?
    ensures Last(c) == Last(b).(db := Upsert(Last(b).db, tenant, worker, id, snap, now).value,
                                history := U.AddAccepted(Last(b).history, id, snap, now))
  {
    var s := Last(b);
    AcceptedExactly(s.db, tenant, worker, id, snap, now);
    c := Extend(b, Step.Worker(U.Gate(0, tenant, worker, id, snap)));
    c := Extend(c, Step.Worker(U.Lock(0)));
    c := Extend(c, Step.Worker(U.Finish(0, now)));
    assert Last(c).upserts == map[];
  }

  /** The presign's reads: the execution's owner, then the gate. */
  lemma PresignReads(b: seq<State>, tenant: Id, worker: Id, photo: Id, exec: Id, kind: PhotoKind) returns (c: seq<State>)
    requires IsRun(b) && Last(b).photoCalls == map[]
    requires var db := Last(b).db;
             && P.ExecOf(db, exec, tenant, worker) && tenant in db.tenants
             && GateAllows(db.tenants[tenant].suspendedAt, db.execs[exec].deviceFinishedAt)
    ensures Continues(b, c)
    ensures Last(c) == Last(b).(photoCalls := map[0 := PresignAllowed(tenant, worker, photo, exec, kind)])
  {
    c := Extend(b, Photos(P.PresignLoad(0, tenant, worker, photo, exec, kind)));
    c := Extend(c, Photos(P.PresignGate(0)));
    assert Last(c).photoCalls.Keys == {0};
  }

  /** A presign of an own execution's photo runs through to its URL. */
  lemma PresignRuns(b: seq<State>, tenant: Id, worker: Id, photo: Id, exec: Id, kind: PhotoKind, now: Time) returns (c: seq<State>)
    requires IsRun(b) && Last(b).photoCalls == map[]
    requires var db := Last(b).db;
             && P.ExecOf(db, exec, tenant, worker) && tenant in db.tenants
             && GateAllows(db.tenants[tenant].suspendedAt, db.execs[exec].deviceFinishedAt) && photo !in db.photos
    ensures Continues(b, c)
    ensures Last(c) == Last(b).(db := Last(b).db.(photos := PresignRow(Last(b).db.photos, photo, tenant, exec, kind, now)),
                                grants := Last(b).grants + {S3KeyOf(tenant, photo)})
  {
    c := PresignReads(b, tenant, worker, photo, exec, kind);
    c := Extend(c, Photos(P.PresignInsert(0, now)));
    c := Extend(c, Photos(P.PresignVerify(0)));
    c := Extend(c, Photos(P.Grant(0)));
    assert Last(c).photoCalls == map[];
  }

  /** The confirm's reads: the photo, then its execution's owner. */
  lemma ConfirmReads(b: seq<State>, tenant: Id, worker: Id, photo: Id) returns (c: seq<State>)
    requires IsRun(b) && Last(b).photoCalls == map[]
    requires var db := Last(b).db;
             photo in db.photos && db.photos[photo].tenant == tenant && P.ExecOf(db, db.photos[photo].exec, tenant, worker)
    ensures Continues(b, c)
    ensures var ph := Last(b).db.photos[photo];
            Last(c) == Last(b).(photoCalls :=
              map[0 := ConfirmOwned(tenant, worker, photo, ph.exec, ph.key, Last(b).db.execs[ph.exec].deviceFinishedAt)])
  {
    c := Extend(b, Photos(P.ConfirmLoad(0, tenant, worker, photo)));
    c := Extend(c, Photos(P.ConfirmOwn(0)));
    assert Last(c).photoCalls.Keys == {0};
  }

  /** A confirm of an own uploaded photo runs through to its write. */
  lemma ConfirmRuns(b: seq<State>, tenant: Id, worker: Id, photo: Id, now: Time) returns (c: seq<State>)
    requires IsRun(b) && Last(b).photoCalls == map[]
    requires var db := Last(b).db;
             && photo in db.photos && db.photos[photo].tenant == tenant && db.photos[photo].key in Last(b).store
             && P.ExecOf(db, db.photos[photo].exec, tenant, worker) && tenant in db.tenants
             && GateAllows(db.tenants[tenant].suspendedAt, db.execs[db.photos[photo].exec].deviceFinishedAt)
    ensures Continues(b, c)
    ensures Last(c) == Last(b).(db := Last(b).db.(photos := ConfirmRow(Last(b).db.photos, photo, tenant, None, None, None, now)),
                                history := P.NoteConfirm(Last(b).history, Last(b).db.photos, photo, tenant,
                                                         Confirmation(None, None, None, now)))
  {
    c := ConfirmReads(b, tenant, worker, photo);
    c := Extend(c, Photos(P.ConfirmGate(0)));
    c := Extend(c, Photos(P.ConfirmExists(0)));
    c := Extend(c, Photos(P.ConfirmWrite(0, now, None, None, None)));
    assert Last(c).photoCalls == map[];
  }

  // === A small company ========================================================

  const PERSON := User(0, Tables.Worker, "worker", true)
  const SITE := Object(0, "site", None, true, None)
  const JOB := Order(0, 0, 0, Some(0), 5, Scheduled)

  /** One tenant, worker and object, and a checklist version with the template items 1 and 2. */
  function Company(orders: map<Id, Order>): Db {
    Db(map[0 := Tenant(Trial, None)], map[0 := PERSON], map[0 := SITE], map[0 := 0], map[1 := 0, 2 := 0], orders, map[], map[], map[])
  }

  function Idle(db: Db): State {
    State(db, map[], map[], map[], {}, History(map[], map[], map[], 0, map[]))
  }

  lemma TenantRun() returns (b: seq<State>)
    ensures IsRun(b)
    ensures Last(b) == Idle(Empty().db.(tenants := map[0 := Tenant(Trial, None)], users := map[0 := PERSON], objects := map[0 := SITE]))
  {
    b := [Empty()];
    b := Extend(b, Step.Admin(A.NewTenant(0)));
    b := Extend(b, Step.Admin(A.NewUser(0, PERSON)));
    b := Extend(b, Step.Admin(A.NewObject(0, SITE)));
  }

  lemma CompanyRun() returns (b: seq<State>)
    ensures IsRun(b) && Last(b) == Idle(Company(map[]))
  {
    b := TenantRun();
    b := Extend(b, Step.Admin(A.NewVersion(0, 0)));
    b := Extend(b, Step.Admin(A.NewTemplateItem(1, 0)));
    b := Extend(b, Step.Admin(A.NewTemplateItem(2, 0)));
    assert Last(b).db.templateItems == map[1 := 0, 2 := 0];
  }

  /** And one order for its worker, due on day 5. */
  lemma OrderRun(b: seq<State>) returns (c: seq<State>)
    requires IsRun(b) && Last(b) == Idle(Company(map[]))
    ensures Continues(b, c) && Last(c) == Idle(Company(map[0 := JOB]))
  {
    var batch := [NewOrder(0, 0, 0, Some(0), 5)];
    assert batch[..0] == [];
    assert InsertOrders(map[], 0, batch) == map[0 := JOB];
    c := Extend(b, Step.Admin(A.CreateOrders(0, batch)));
  }

  lemma StagedRun() returns (b: seq<State>)
    ensures IsRun(b) && Last(b) == Idle(Company(map[0 := JOB]))
  {
    b := CompanyRun();
    b := OrderRun(b);
  }

  // === Done may be left =======================================================

  const FINISHED := Snapshot(0, None, Some(3), None, [])
  const STARTED := Snapshot(0, None, None, None, [])

  /** A run that takes an order from done back to in progress: its worker finishes execution 1 of
      the order and then starts execution 2 of it. */
  lemma DoneMayBeLeft() returns (b: seq<State>, i: nat)
    ensures IsRun(b) && i < |b|
    ensures 0 in b[i].db.orders && b[i].db.orders[0].status == Done
    ensures 0 in Last(b).db.orders && Last(b).db.orders[0].status == InProgress
  {
    b := StagedRun();
    var c := UpsertRuns(b, 0, 0, 1, FINISHED, 9);
    UpsertFrame(Last(b).db, 0, 0, 1, FINISHED, 9);
    b, i := c, |c| - 1;
    c := UpsertRuns(b, 0, 0, 2, STARTED, 9);
    UpsertFrame(Last(b).db, 0, 0, 2, STARTED, 9);
    b := c;
  }

  // === A replay may change the order's status ================================

  /** The row a first snapshot leaves. */
  function FirstRow(snap: Snapshot): Exec {
    Exec(0, 0, 0, snap.startedAt, snap.deviceFinishedAt, if snap.deviceFinishedAt.Some? then Some(9) else None, snap.note)
  }

  /** The small company with these executions of its order and this history. */
  function Worked(status: OrderStatus, execs: map<Id, Exec>, accepted: map<Id, seq<Submission>>, last: map<Id, Id>): State {
    Idle(Company(map[0 := JOB.(status := status)]).(execs := execs)).(history := History(accepted, last, map[], 0, map[]))
  }

  /** A snapshot without items, the first of its execution or like the one before it. */
  lemma SendPlain(b: seq<State>, status: OrderStatus, execs: map<Id, Exec>, accepted: map<Id, seq<Submission>>, last: map<Id, Id>,
                  id: Id, snap: Snapshot) returns (c: seq<State>)
    requires IsRun(b) && Last(b) == Worked(status, execs, accepted, last)
    requires snap.order == 0 && snap.items == [] && (id in execs ==> execs[id] == FirstRow(snap))
    ensures Continues(b, c)
    ensures var before := if id in accepted then accepted[id] else [];
            Last(c) == Worked(StatusFor(FirstRow(snap)), execs[id := FirstRow(snap)],
                              accepted[id := before + [Submission(snap, 9)]], last[0 := id])
  {
    var s := Worked(status, execs, accepted, last);
    assert Acceptable(s.db, 0, 0, id, snap);
    c := UpsertRuns(b, 0, 0, id, snap, 9);
    PlainResult(s.db, execs, id, snap);
  }

  lemma PlainResult(db: Db, execs: map<Id, Exec>, id: Id, snap: Snapshot)
    requires 0 in db.orders && db.execs == execs && db.items == map[] && Upsert(db, 0, 0, id, snap, 9).Ok?
    requires snap.order == 0 && snap.items == [] && (id in execs ==> execs[id] == FirstRow(snap))
    ensures Upsert(db, 0, 0, id, snap, 9).value ==
            db.(execs := execs[id := FirstRow(snap)], orders := db.orders[0 := db.orders[0].(status := StatusFor(FirstRow(snap)))])
  {
    NoItems(map[]);
    assert PruneItems(map[], id, ItemIds([])) == map[];
  }

  /** Execution 1 of the order, then execution 2, then execution 1's only snapshot again. */
  lemma ReplayRun(first: Snapshot, second: Snapshot) returns (b: seq<State>, i: nat)
    requires first.order == second.order == 0 && first.items == second.items == []
    ensures IsRun(b) && i < |b| && 1 in b[i].history.accepted && 1 in Last(b).history.accepted
    ensures b[i].history.accepted[1] == [Submission(first, 9)]
    ensures Last(b).history.accepted[1] == [Submission(first, 9)] + [Submission(first, 9)]
    ensures 0 in b[i].db.orders && b[i].db.orders[0].status == StatusFor(FirstRow(second))
    ensures 0 in Last(b).db.orders && Last(b).db.orders[0].status == StatusFor(FirstRow(first))
  {
    var x, y := FirstRow(first), FirstRow(second);
    b := StagedRun();
    assert Last(b) == Worked(Scheduled, map[], map[], map[]);
    b := SendPlain(b, Scheduled, map[], map[], map[], 1, first);
    b := SendPlain(b, StatusFor(x), map[1 := x], map[1 := [] + [Submission(first, 9)]], map[0 := 1], 2, second);
    i := |b| - 1;
    b := SendPlain(b, StatusFor(y), map[1 := x][2 := y], map[1 := [] + [Submission(first, 9)]][2 := [] + [Submission(second, 9)]],
                   map[0 := 1][0 := 2], 1, first);
  }

  /** A run in which replaying all of a finished execution's snapshots takes its order from in
      progress to done. */
  lemma ReplayMayFinish() returns (b: seq<State>, i: nat)
    ensures IsRun(b) && i < |b| && 1 in b[i].history.accepted && 1 in Last(b).history.accepted
    ensures Last(b).history.accepted[1] == b[i].history.accepted[1] + b[i].history.accepted[1]
    ensures 0 in b[i].db.orders && b[i].db.orders[0].status == InProgress
    ensures 0 in Last(b).db.orders && Last(b).db.orders[0].status == Done
  {
    b, i := ReplayRun(FINISHED, STARTED);
  }

  /** And one in which replaying an unfinished execution's takes it from done to in progress. */
  lemma ReplayMayReopen() returns (b: seq<State>, i: nat)
    ensures IsRun(b) && i < |b| && 1 in b[i].history.accepted && 1 in Last(b).history.accepted
    ensures Last(b).history.accepted[1] == b[i].history.accepted[1] + b[i].history.accepted[1]
    ensures 0 in b[i].db.orders && b[i].db.orders[0].status == Done
    ensures 0 in Last(b).db.orders && Last(b).db.orders[0].status == InProgress
  {
    b, i := ReplayRun(STARTED, FINISHED);
  }

  // === Replays may diverge ====================================================

  /** The small company after its worker has sent the snapshots `subs` of execution 1. */
  function After(execs: map<Id, Exec>, items: map<Id, Item>, subs: seq<Submission>): State {
    var status := if 1 in execs then StatusFor(execs[1]) else Scheduled;
    Idle(Company(map[0 := JOB.(status := status)]).(execs := execs, items := items)).(
      history := if subs == [] then History(map[], map[], map[], 0, map[]) else History(map[1 := subs], map[0 := 1], map[], 0, map[]))
  }

  /** Execution 1 as a snapshot without a completion leaves it. */
  function Row(snap: Snapshot): map<Id, Exec> {
    map[1 := Exec(0, 0, 0, snap.startedAt, None, None, snap.note)]
  }

  /** One more unfinished snapshot of execution 1. */
  lemma Send(b: seq<State>, execs: map<Id, Exec>, items: map<Id, Item>, subs: seq<Submission>, snap: Snapshot,
             items': map<Id, Item>) returns (c: seq<State>)
    requires IsRun(b) && Last(b) == After(execs, items, subs) && (execs == map[] <==> subs == [])
    requires execs == map[] || exists old' :: execs == Row(old')
    requires snap.order == 0 && snap.deviceFinishedAt.None?
    requires forall it | it in snap.items :: (it.template == 1 || it.template == 2) && ItemWritable(items, 1, it)
    requires PutItems(PruneItems(items, 1, ItemIds(snap.items)), 1, snap.items) == Some(items')
    ensures Continues(b, c) && Last(c) == After(Row(snap), items', subs + [Submission(snap, 9)])
  {
    SendAccepted(Last(b).db, execs, items, subs, snap);
    c := UpsertRuns(b, 0, 0, 1, snap, 9);
    SendResult(execs, items, subs, snap, items');
  }

  lemma SendAccepted(db: Db, execs: map<Id, Exec>, items: map<Id, Item>, subs: seq<Submission>, snap: Snapshot)
    requires db == After(execs, items, subs).db && (execs == map[] || exists old' :: execs == Row(old'))
    requires snap.order == 0
    requires forall it | it in snap.items :: (it.template == 1 || it.template == 2) && ItemWritable(items, 1, it)
    ensures Acceptable(db, 0, 0, 1, snap)
  {
  }

  lemma SendResult(execs: map<Id, Exec>, items: map<Id, Item>, subs: seq<Submission>, snap: Snapshot, items': map<Id, Item>)
    requires (execs == map[] || exists old' :: execs == Row(old')) && (execs == map[] <==> subs == [])
    requires snap.order == 0 && snap.deviceFinishedAt.None?
    requires var s := After(execs, items, subs); Upsert(s.db, 0, 0, 1, snap, 9).Ok?
    requires PutItems(PruneItems(items, 1, ItemIds(snap.items)), 1, snap.items) == Some(items')
    ensures var s := After(execs, items, subs);
            s.(db := Upsert(s.db, 0, 0, 1, snap, 9).value, history := U.AddAccepted(s.history, 1, snap, 9))
            == After(Row(snap), items', subs + [Submission(snap, 9)])
  {
    var s, s' := After(execs, items, subs), After(Row(snap), items', subs + [Submission(snap, 9)]);
    assert PutExec(execs, 1, 0, 0, snap, 9) == Row(snap);
    assert U.AddAccepted(s.history, 1, snap, 9) == s'.history;
    assert Upsert(s.db, 0, 0, 1, snap, 9).value.orders == s'.db.orders;
  }

  lemma NothingSent(b: seq<State>)
    requires b != [] && Last(b) == Idle(Company(map[0 := JOB]))
    ensures Last(b) == After(map[], map[], [])
  {
    assert JOB.(status := Scheduled) == JOB;
  }

  lemma NoItems(items: map<Id, Item>)
    requires forall i | i in items :: items[i].exec == 1
    ensures PutItems(PruneItems(items, 1, ItemIds([])), 1, []) == Some(map[])
  {
  }

  /** A run in which a stale snapshot, sent again last, takes the note of its execution back. */
  lemma StaleReplayMayDiverge() returns (b: seq<State>, i: nat, old': Submission, new': Submission)
    ensures IsRun(b) && i < |b| && 1 in b[i].db.execs && 1 in Last(b).db.execs
    ensures b[i].history.accepted == map[1 := [old', new']] && Last(b).history.accepted == map[1 := [old', new', old']]
    ensures b[i].db.execs[1].note == Some("done") && Last(b).db.execs[1].note == None
  {
    var noted := STARTED.(note := Some("done"));
    old', new' := Submission(STARTED, 9), Submission(noted, 9);
    NoItems(map[]);
    b := StagedRun();
    NothingSent(b);
    b := Send(b, map[], map[], [], STARTED, map[]);
    assert [] + [old'] == [old'];
    b := Send(b, Row(STARTED), map[], [old'], noted, map[]);
    assert [old'] + [new'] == [old', new'];
    i := |b| - 1;
    b := Send(b, Row(noted), map[], [old', new'], STARTED, map[]);
    assert [old', new'] + [old'] == [old', new', old'];
  }

  function WithItem(template: Id): Snapshot {
    STARTED.(items := [ItemInput(7, template, true, None)])
  }

  /** What a snapshot with one item leaves of an empty item table, or of one with that item. */
  lemma OneItem(items: map<Id, Item>, template: Id)
    requires items.Keys <= {7} && (7 in items ==> items[7].exec == 1)
    ensures PutItems(PruneItems(items, 1, ItemIds(WithItem(template).items)), 1, WithItem(template).items)
            == Some(map[7 := Item(1, if 7 in items then items[7].template else template, true, None)])
  {
    var it := ItemInput(7, template, true, None);
    assert [it][..0] == [] && it in [it] && it.id in ItemIds([it]);
    assert PruneItems(items, 1, ItemIds([it])) == items;
    assert PutItems(items, 1, []) == Some(items);
    assert PutItem(items, 1, it) == map[7 := Item(1, if 7 in items then items[7].template else template, true, None)];
  }

  const FIRST := Submission(WithItem(1), 9)
  const NOTHING := Submission(STARTED, 9)
  const SECOND := Submission(WithItem(2), 9)

  /** A run in which item 7, written by execution 1 with template 1, keeps it when template 2 comes. */
  lemma TemplateIsKept() returns (b: seq<State>)
    ensures IsRun(b) && Last(b) == After(Row(STARTED), map[7 := Item(1, 1, true, None)], [FIRST, SECOND])
  {
    OneItem(map[], 1);
    OneItem(map[7 := Item(1, 1, true, None)], 2);
    b := StagedRun();
    NothingSent(b);
    b := Send(b, map[], map[], [], WithItem(1), map[7 := Item(1, 1, true, None)]);
    assert [] + [FIRST] == [FIRST];
    b := Send(b, Row(WithItem(1)), map[7 := Item(1, 1, true, None)], [FIRST], WithItem(2), map[7 := Item(1, 1, true, None)]);
    assert [FIRST] + [SECOND] == [FIRST, SECOND];
  }

  /** A run in which the item was pruned in between and comes back with template 2. */
  lemma TemplateIsReplaced() returns (b: seq<State>)
    ensures IsRun(b) && Last(b) == After(Row(STARTED), map[7 := Item(1, 2, true, None)], [FIRST, NOTHING, SECOND])
  {
    OneItem(map[], 1);
    NoItems(map[7 := Item(1, 1, true, None)]);
    OneItem(map[], 2);
    b := StagedRun();
    NothingSent(b);
    b := Send(b, map[], map[], [], WithItem(1), map[7 := Item(1, 1, true, None)]);
    assert [] + [FIRST] == [FIRST];
    b := Send(b, Row(WithItem(1)), map[7 := Item(1, 1, true, None)], [FIRST], STARTED, map[]);
    assert [FIRST] + [NOTHING] == [FIRST, NOTHING];
    b := Send(b, Row(STARTED), map[], [FIRST, NOTHING], WithItem(2), map[7 := Item(1, 2, true, None)]);
    assert [FIRST, NOTHING] + [SECOND] == [FIRST, NOTHING, SECOND];
  }

  /** Two runs whose replays end in the same snapshot, with the same completion, and yet leave
      different templates: the one pruned the item in between, the other did not. */
  lemma TemplateMayDiverge() returns (b: seq<State>, c: seq<State>)
    ensures IsRun(b) && IsRun(c) && 1 in Last(b).history.accepted && 1 in Last(c).history.accepted
    ensures SameEnds(Last(b).history.accepted[1], Last(c).history.accepted[1])
    ensures 7 in Last(b).db.items && 7 in Last(c).db.items
    ensures Last(b).db.items[7].exec == Last(c).db.items[7].exec == 1
    ensures Last(b).db.items[7].template != Last(c).db.items[7].template
  {
    b := TemplateIsKept();
    c := TemplateIsReplaced();
    NeverCompleted([FIRST, SECOND]);
    NeverCompleted([FIRST, NOTHING, SECOND]);
  }

  lemma {:induction false} NeverCompleted(subs: seq<Submission>)
    requires forall k | 0 <= k < |subs| :: subs[k].snap.deviceFinishedAt.None?
    ensures FirstCompletion(subs) == None
  {
    if subs != [] { NeverCompleted(subs[1..]); }
  }

  // === A confirmed photo may be overwritten ===================================

  const PHOTO := PhotoKey(0, 0)

  /** A run to a confirmed photo whose upload URL is still live. */
  lemma ConfirmedRun() returns (b: seq<State>)
    ensures IsRun(b) && 0 in Last(b).db.photos && Last(b).db.photos[0].uploadedAt.Some? && Last(b).db.photos[0].key == PHOTO
    ensures PHOTO in Last(b).grants && PHOTO in Last(b).store && Last(b).store[PHOTO] == []
  {
    NoItems(map[]);
    b := StagedRun();
    NothingSent(b);
    b := Send(b, map[], map[], [], STARTED, map[]);
    b := PresignRuns(b, 0, 0, 0, 1, Before, 9);
    b := Extend(b, Photos(P.Upload(PHOTO, [])));
    b := ConfirmRuns(b, 0, 0, 0, 9);
  }

  /** A run in which the bytes of a confirmed photo change. */
  lemma ConfirmedBytesMayChange() returns (b: seq<State>, i: nat)
    ensures IsRun(b) && i < |b| && 0 in b[i].db.photos && b[i].db.photos[0].uploadedAt.Some?
    ensures 0 in Last(b).db.photos && Last(b).db.photos[0] == b[i].db.photos[0]
    ensures b[i].db.photos[0].key in b[i].store && b[i].db.photos[0].key in Last(b).store
    ensures Last(b).store[b[i].db.photos[0].key] != b[i].store[b[i].db.photos[0].key]
  {
    b := ConfirmedRun();
    i := |b| - 1;
    b := Extend(b, Photos(P.Upload(PHOTO, [0])));
  }

  // === A confirm may stamp a row it did not read ===============================

  /** Two unfinished executions, and a URL for photo 0 of the first. */
  lemma TwoJobsRun() returns (b: seq<State>)
    ensures IsRun(b) && Last(b).photoCalls == map[] && Last(b).store == map[] && PHOTO in Last(b).grants
    ensures var db := Last(b).db;
            && 0 in db.tenants && db.tenants[0].suspendedAt.None? && P.ExecOf(db, 1, 0, 0) && P.ExecOf(db, 2, 0, 0)
            && db.photos == map[0 := Photo(0, 1, Before, PHOTO, None, None, None, None, 9)]
  {
    var x := FirstRow(STARTED);
    b := StagedRun();
    assert Last(b) == Worked(Scheduled, map[], map[], map[]);
    b := SendPlain(b, Scheduled, map[], map[], map[], 1, STARTED);
    b := SendPlain(b, StatusFor(x), map[1 := x], map[1 := [] + [Submission(STARTED, 9)]], map[0 := 1], 2, STARTED);
    assert Last(b).db.execs == map[1 := x][2 := x] && Last(b).db.photos == map[];
    b := PresignRuns(b, 0, 0, 0, 1, Before, 9);
  }

  /** One photo of a collection runs through to its deletion, other calls waiting. */
  lemma CollectRuns(b: seq<State>, call: Id, p: Id, cutoff: Time) returns (c: seq<State>)
    requires IsRun(b) && call !in Last(b).photoCalls
    requires var s := Last(b);
             && p in s.db.photos && s.db.photos[p].uploadedAt.None? && s.db.photos[p].createdAt < cutoff
             && s.db.photos[p].key !in s.store
    ensures Continues(b, c) && Last(c) == Last(b).(db := Last(b).db.(photos := Last(b).db.photos - {p}))
  {
    CollectSteps(Last(b), call, p, cutoff);
    c := Extend(b, Photos(P.GcList(call, p, cutoff)));
    c := Extend(c, Photos(P.GcExists(call)));
    c := Extend(c, Photos(P.GcDelete(call)));
  }

  lemma CollectSteps(s: State, call: Id, p: Id, cutoff: Time)
    requires call !in s.photoCalls
    requires p in s.db.photos && s.db.photos[p].uploadedAt.None? && s.db.photos[p].createdAt < cutoff && s.db.photos[p].key !in s.store
    ensures P.Enabled(s, P.GcList(call, p, cutoff))
    ensures var s1 := P.Apply(s, P.GcList(call, p, cutoff));
            P.Enabled(s1, P.GcExists(call))
            && var s2 := P.Apply(s1, P.GcExists(call));
               P.Enabled(s2, P.GcDelete(call)) && P.Apply(s2, P.GcDelete(call)) == s.(db := s.db.(photos := s.db.photos - {p}))
  {
    var s2 := P.Apply(P.Apply(s, P.GcList(call, p, cutoff)), P.GcExists(call));
    assert s2.photoCalls - {call} == s.photoCalls;
  }

  /** A presign that is given up after its insert, other calls waiting. */
  lemma InsertRuns(b: seq<State>, call: Id, tenant: Id, worker: Id, photo: Id, exec: Id, kind: PhotoKind, now: Time) returns (c: seq<State>)
    requires IsRun(b) && call !in Last(b).photoCalls
    requires var db := Last(b).db;
             && P.ExecOf(db, exec, tenant, worker) && tenant in db.tenants
             && GateAllows(db.tenants[tenant].suspendedAt, db.execs[exec].deviceFinishedAt)
    ensures Continues(b, c)
    ensures Last(c) == Last(b).(db := Last(b).db.(photos := PresignRow(Last(b).db.photos, photo, tenant, exec, kind, now)))
  {
    AllowSteps(Last(b), call, tenant, worker, photo, exec, kind);
    c := Extend(b, Photos(P.PresignLoad(call, tenant, worker, photo, exec, kind)));
    c := Extend(c, Photos(P.PresignGate(call)));
    InsertSteps(Last(c), Last(b).photoCalls, call, tenant, worker, photo, exec, kind, now);
    c := Extend(c, Photos(P.PresignInsert(call, now)));
    c := Extend(c, Photos(P.End(call)));
  }

  lemma AllowSteps(s: State, call: Id, tenant: Id, worker: Id, photo: Id, exec: Id, kind: PhotoKind)
    requires call !in s.photoCalls && P.ExecOf(s.db, exec, tenant, worker) && tenant in s.db.tenants
    requires GateAllows(s.db.tenants[tenant].suspendedAt, s.db.execs[exec].deviceFinishedAt)
    ensures var load := P.PresignLoad(call, tenant, worker, photo, exec, kind);
            P.Enabled(s, load)
            && var s1 := P.Apply(s, load);
               P.Enabled(s1, P.PresignGate(call))
               && P.Apply(s1, P.PresignGate(call))
                  == s.(photoCalls := s.photoCalls[call := PresignAllowed(tenant, worker, photo, exec, kind)])
  {
  }

  lemma InsertSteps(s: State, others: map<Id, PhotoCall>, call: Id, tenant: Id, worker: Id, photo: Id, exec: Id, kind: PhotoKind, now: Time)
    requires call !in others && s.photoCalls == others[call := PresignAllowed(tenant, worker, photo, exec, kind)]
    ensures P.Enabled(s, P.PresignInsert(call, now))
    ensures var s1 := P.Apply(s, P.PresignInsert(call, now));
            P.Enabled(s1, P.End(call))
            && P.Apply(s1, P.End(call))
               == s.(photoCalls := others, db := s.db.(photos := PresignRow(s.db.photos, photo, tenant, exec, kind, now)))
  {
    var s1 := P.Apply(s, P.PresignInsert(call, now));
    assert s1.photoCalls - {call} == others;
  }

  const LET_THROUGH := ConfirmAllowed(0, 0, 0, 1, PHOTO)

  /** A confirm for it gets past its gate; then the row is collected. */
  lemma CollectedRun() returns (b: seq<State>)
    ensures IsRun(b) && Last(b).photoCalls == map[0 := LET_THROUGH] && PHOTO in Last(b).grants
    ensures var db := Last(b).db;
            0 in db.tenants && db.tenants[0].suspendedAt.None? && P.ExecOf(db, 2, 0, 0) && db.photos == map[]
  {
    b := TwoJobsRun();
    b := ConfirmReads(b, 0, 0, 0);
    b := Extend(b, Photos(P.ConfirmGate(0)));
    assert Last(b).photoCalls == map[0 := LET_THROUGH];
    b := CollectRuns(b, 1, 0, 10);
  }

  lemma UploadedRun(b: seq<State>) returns (c: seq<State>)
    requires IsRun(b) && Last(b).photoCalls == map[0 := LET_THROUGH] && PHOTO in Last(b).grants
    ensures Continues(b, c) && Last(c).db == Last(b).db && Last(c).photoCalls == map[0 := ConfirmSeen(0, 0, 0, 1, PHOTO)]
  {
    c := Extend(b, Photos(P.Upload(PHOTO, [])));
    c := Extend(c, Photos(P.ConfirmExists(0)));
  }

  /** A run in which a confirm that was let through for execution 1 stamps a row of execution 2:
      its own was collected and the id presigned again, before the object came. */
  lemma ConfirmMayStampAnother() returns (b: seq<State>, i: nat)
    ensures IsRun(b) && i < |b| && b[i].photoCalls == map[0 := LET_THROUGH]
    ensures 0 in b[i].db.photos && b[i].db.photos[0].exec == 2 && b[i].db.photos[0].uploadedAt.None?
    ensures 0 in Last(b).db.photos && Last(b).db.photos[0].exec == 2 && Last(b).db.photos[0].uploadedAt.Some?
  {
    b := CollectedRun();
    b := InsertRuns(b, 1, 0, 0, 0, 2, Before, 11);
    i := |b| - 1;
    b := UploadedRun(b);
    b := Extend(b, Photos(P.ConfirmWrite(0, 12, None, None, None)));
  }
}
