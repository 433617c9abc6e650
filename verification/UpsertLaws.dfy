/** What replaying execution snapshots leaves behind: a closed form, convergence, and the frame. */
module UpsertLaws {
  import opened Options
  import opened Tables

  /** Everything stored for one execution. */
  datatype ItemView = ItemView(template: Id, checked: bool, checkedAt: Option<Time>)
  datatype View = View(order: Id, startedAt: Option<Time>, deviceFinishedAt: Option<Time>,
                       finishedAt: Option<Time>, note: Option<string>, items: map<Id, ItemView>)

  /** A snapshot and the server time it was applied at. */
  datatype Submission = Submission(snap: Snapshot, at: Time)

  function ItemsOf(items: map<Id, Item>, e: Id): map<Id, ItemView> {
    map i | i in items && items[i].exec == e :: ItemView(items[i].template, items[i].checked, items[i].checkedAt)
  }

  function ViewIn(execs: map<Id, Exec>, items: map<Id, Item>, e: Id): View
    requires e in execs
  {
    var r := execs[e];
    View(r.order, r.startedAt, r.deviceFinishedAt, r.finishedAt, r.note, ItemsOf(items, e))
  }

  function ViewIfAny(db: Db, e: Id): Option<View> {
    if e in db.execs then Some(ViewIn(db.execs, db.items, e)) else None
  }

  // === One submission, seen from its execution ================================

  function PutOne(m: map<Id, ItemView>, it: ItemInput): map<Id, ItemView> {
    m[it.id := ItemView(if it.id in m then m[it.id].template else it.template, it.checked, it.checkedAt)]
  }

  function PutAll(m: map<Id, ItemView>, its: seq<ItemInput>): map<Id, ItemView> {
    if its == [] then m else PutOne(PutAll(m, its[..|its| - 1]), its[|its| - 1])
  }

  function Keep(m: map<Id, ItemView>, ids: set<Id>): map<Id, ItemView> {
    map i | i in m && i in ids :: m[i]
  }

  function NextView(prev: Option<View>, s: Submission): View {
    var stamp := if s.snap.deviceFinishedAt.Some? then Some(s.at) else None;
    match prev
    case None => View(s.snap.order, s.snap.startedAt, s.snap.deviceFinishedAt, stamp, s.snap.note, PutAll(map[], s.snap.items))
    case Some(v) =>
      View(v.order, s.snap.startedAt, Coalesce(v.deviceFinishedAt, s.snap.deviceFinishedAt), Coalesce(v.finishedAt, stamp),
           s.snap.note, PutAll(Keep(v.items, ItemIds(s.snap.items)), s.snap.items))
  }

  lemma {:induction false} PutItemsIsPutAll(items: map<Id, Item>, e: Id, its: seq<ItemInput>)
    requires PutItems(items, e, its).Some?
    ensures var items' := PutItems(items, e, its).value;
            && ItemsOf(items', e) == PutAll(ItemsOf(items, e), its)
            && (forall i | i in items && items[i].exec != e :: i in items' && items'[i] == items[i])
            && (forall i | i in items' && items'[i].exec != e :: i in items && items'[i] == items[i])
  {
    if its != [] {
      var n := |its| - 1;
      PutItemsIsPutAll(items, e, its[..n]);
      var before := PutItems(items, e, its[..n]).value;
      assert ItemsOf(PutItem(before, e, its[n]), e) == PutOne(ItemsOf(before, e), its[n]);
    }
  }

  /** Items never outlive their execution (the foreign key). */
  ghost predicate ItemsHaveExecs(db: Db) {
    forall i | i in db.items :: db.items[i].exec in db.execs
  }

  /** An accepted upsert does to its execution what NextView says. */
  lemma UpsertIsNextView(db: Db, tenant: Id, worker: Id, id: Id, snap: Snapshot, now: Time)
    requires ItemsHaveExecs(db) && Upsert(db, tenant, worker, id, snap, now).Ok?
    ensures var db' := Upsert(db, tenant, worker, id, snap, now).value;
            && ViewIfAny(db', id) == Some(NextView(ViewIfAny(db, id), Submission(snap, now)))
            && ItemsHaveExecs(db')
  {
    var kept := PruneItems(db.items, id, ItemIds(snap.items));
    PutItemsIsPutAll(kept, id, snap.items);
    assert ItemsOf(kept, id) == Keep(ItemsOf(db.items, id), ItemIds(snap.items));
    if id !in db.execs {
      assert ItemsOf(db.items, id) == map[];
      assert Keep(map[], ItemIds(snap.items)) == map[];
    }
  }

  /**
   The frame: an accepted upsert by (tenant, worker) writes its own execution row, that
   execution's items and the status of the one order it names, and nothing else.
  */
  lemma UpsertFrame(db: Db, tenant: Id, worker: Id, id: Id, snap: Snapshot, now: Time)
    requires Upsert(db, tenant, worker, id, snap, now).Ok?
    ensures var db' := Upsert(db, tenant, worker, id, snap, now).value;
            && db' == db.(execs := db'.execs, items := db'.items, orders := db'.orders)
            && db'.execs.Keys == db.execs.Keys + {id}
            && (forall e | e in db.execs && e != id :: db'.execs[e] == db.execs[e])
            && (id in db.execs ==> db.execs[id].tenant == tenant && db.execs[id].worker == worker)
            && db'.execs[id].tenant == tenant && db'.execs[id].worker == worker && db'.execs[id].order == snap.order
            && (forall i | i in db.items && db.items[i].exec != id :: i in db'.items && db'.items[i] == db.items[i])
            && (forall i | i in db'.items && db'.items[i].exec != id :: i in db.items && db'.items[i] == db.items[i])
            && db'.orders.Keys == db.orders.Keys
            && (forall o | o in db.orders && o != snap.order :: db'.orders[o] == db.orders[o])
            && db'.orders[snap.order] == db.orders[snap.order].(status := db'.orders[snap.order].status)
  {
    PutItemsIsPutAll(PruneItems(db.items, id, ItemIds(snap.items)), id, snap.items);
  }

  // === When an upsert is accepted =============================================

  lemma {:induction false} PutItemsAccepts(items: map<Id, Item>, e: Id, its: seq<ItemInput>)
    ensures PutItems(items, e, its).Some? <==> forall it | it in its :: ItemWritable(items, e, it)
  {
    if its != [] {
      var n := |its| - 1;
      assert its == its[..n] + [its[n]];
      PutItemsAccepts(items, e, its[..n]);
      if PutItems(items, e, its[..n]).Some? {
        PutItemsIsPutAll(items, e, its[..n]);
        assert ItemWritable(PutItems(items, e, its[..n]).value, e, its[n]) <==> ItemWritable(items, e, its[n]);
      }
    }
  }

  /** The order is the caller's, the execution id is new or the caller's own on this order, every
      template is of the pinned version and every item id is new or this execution's. */
  predicate Acceptable(db: Db, tenant: Id, worker: Id, id: Id, snap: Snapshot) {
    && AssignedTo(db, tenant, worker, snap.order)
    && (id in db.execs ==> Owns(db.execs, id, tenant, worker, snap.order))
    && TemplatesOk(db, tenant, db.orders[snap.order].version, snap.items)
    && forall it | it in snap.items :: ItemWritable(db.items, id, it)
  }

  /** The first of the four that fails. */
  function Reason(db: Db, tenant: Id, worker: Id, id: Id, snap: Snapshot): UpsertError {
    if !AssignedTo(db, tenant, worker, snap.order) then NotAssigned
    else if id in db.execs && !Owns(db.execs, id, tenant, worker, snap.order) then ExecutionIdConflict
    else if !TemplatesOk(db, tenant, db.orders[snap.order].version, snap.items) then InvalidChecklistItem
    else ItemConflict
  }

  /** Whether an upsert is accepted, and if not why, can be told from the request and the rows
      before it. */
  lemma AcceptedExactly(db: Db, tenant: Id, worker: Id, id: Id, snap: Snapshot, now: Time)
    ensures Upsert(db, tenant, worker, id, snap, now).Ok? <==> Acceptable(db, tenant, worker, id, snap)
    ensures Upsert(db, tenant, worker, id, snap, now).Err? ==>
              Upsert(db, tenant, worker, id, snap, now).error == Reason(db, tenant, worker, id, snap)
    ensures Acceptable(db, tenant, worker, id, snap) <==>
              && snap.order in db.orders && db.orders[snap.order].tenant == tenant && db.orders[snap.order].assignee == Some(worker)
              && (id in db.execs ==> db.execs[id].tenant == tenant && db.execs[id].worker == worker && db.execs[id].order == snap.order)
              && (forall it | it in snap.items ::
                    && it.template in db.templateItems && db.templateItems[it.template] == db.orders[snap.order].version
                    && db.orders[snap.order].version in db.versions && db.versions[db.orders[snap.order].version] == tenant)
              && (forall it | it in snap.items :: it.id in db.items ==> db.items[it.id].exec == id)
  {
    var kept := PruneItems(db.items, id, ItemIds(snap.items));
    PutItemsAccepts(kept, id, snap.items);
    forall it | it in snap.items ensures ItemWritable(kept, id, it) <==> ItemWritable(db.items, id, it) {
      assert it.id in ItemIds(snap.items);
    }
  }

  // === Closed form ============================================================

  function FoldView(subs: seq<Submission>): Option<View> {
    if subs == [] then None else Some(NextView(FoldView(subs[..|subs| - 1]), subs[|subs| - 1]))
  }

  /** The first snapshot that carried a completion. */
  function FirstCompletion(subs: seq<Submission>): Option<Submission> {
    if subs == [] then None
    else if subs[0].snap.deviceFinishedAt.Some? then Some(subs[0])
    else FirstCompletion(subs[1..])
  }

  /** Index of the last, or first, entry of a snapshot with this item id. */
  function LastWith(its: seq<ItemInput>, id: Id): (k: nat)
    requires id in ItemIds(its)
    ensures k < |its| && its[k].id == id && forall j | k < j < |its| :: its[j].id != id
  {
    var n := |its| - 1;
    if its[n].id == id then n else
    assert forall it | it in its && it != its[n] :: it in its[..n];
    LastWith(its[..n], id)
  }

  function FirstWith(its: seq<ItemInput>, id: Id): (k: nat)
    requires id in ItemIds(its)
    ensures k < |its| && its[k].id == id && forall j | 0 <= j < k :: its[j].id != id
  {
    if its[0].id == id then 0 else
    assert forall it | it in its && it != its[0] :: it in its[1..];
    FirstWith(its[1..], id) + 1
  }

  ghost predicate Mentions(subs: seq<Submission>, j: int, id: Id) {
    0 <= j < |subs| && id in ItemIds(subs[j].snap.items)
  }

  /** Start of the unbroken run of snapshots, up to the last, that contain the item. */
  ghost function RunStart(subs: seq<Submission>, id: Id): (p: nat)
    requires Mentions(subs, |subs| - 1, id)
    ensures p < |subs| && forall j | p <= j < |subs| :: Mentions(subs, j, id)
    ensures p > 0 ==> !Mentions(subs, p - 1, id)
  {
    var n := |subs| - 1;
    if n > 0 && Mentions(subs, n - 1, id) then
      assert Mentions(subs[..n], n - 1, id);
      assert forall j | 0 <= j < n :: Mentions(subs[..n], j, id) <==> Mentions(subs, j, id);
      RunStart(subs[..n], id)
    else n
  }

  /** The first and the last entry with an id, when one more entry is appended. */
  lemma WithSnoc(its: seq<ItemInput>, id: Id)
    requires its != []
    ensures var n := |its| - 1;
            && (id in ItemIds(its) <==> id in ItemIds(its[..n]) || its[n].id == id)
            && (id in ItemIds(its) && its[n].id != id ==> its[LastWith(its, id)] == its[..n][LastWith(its[..n], id)])
            && (id in ItemIds(its[..n]) ==> its[FirstWith(its, id)] == its[..n][FirstWith(its[..n], id)])
            && (id in ItemIds(its) && id !in ItemIds(its[..n]) ==> FirstWith(its, id) == n)
            && (its[n].id == id ==> LastWith(its, id) == n)
  {
  }

  lemma {:induction false} PutAllClosed(m: map<Id, ItemView>, its: seq<ItemInput>, id: Id)
    ensures id in PutAll(m, its) <==> id in m || id in ItemIds(its)
    ensures id !in ItemIds(its) && id in m ==> PutAll(m, its)[id] == m[id]
    ensures id in ItemIds(its) ==>
              PutAll(m, its)[id] ==
              ItemView(if id in m then m[id].template else its[FirstWith(its, id)].template,
                       its[LastWith(its, id)].checked, its[LastWith(its, id)].checkedAt)
  {
    if its != [] {
      PutAllClosed(m, its[..|its| - 1], id);
      WithSnoc(its, id);
    }
  }

  lemma {:induction false} FirstCompletionAppend(subs: seq<Submission>, s: Submission)
    ensures FirstCompletion(subs + [s]) ==
            if FirstCompletion(subs).Some? then FirstCompletion(subs)
            else if s.snap.deviceFinishedAt.Some? then Some(s) else None
  {
    if subs != [] {
      assert (subs + [s])[1..] == subs[1..] + [s];
      FirstCompletionAppend(subs[1..], s);
    } else {
      assert subs + [s] == [s];
    }
  }

  lemma {:induction false} ClosedFormRow(subs: seq<Submission>)
    requires subs != []
    ensures var v, last, first := FoldView(subs).value, subs[|subs| - 1].snap, FirstCompletion(subs);
            && v.startedAt == last.startedAt && v.note == last.note && v.order == subs[0].snap.order
            && v.deviceFinishedAt == (if first.Some? then first.value.snap.deviceFinishedAt else None)
            && v.finishedAt == (if first.Some? then Some(first.value.at) else None)
            && (first.Some? ==> first.value.snap.deviceFinishedAt.Some?)
  {
    var n := |subs| - 1;
    FirstCompletionAppend(subs[..n], subs[n]);
    assert subs[..n] + [subs[n]] == subs;
    if n > 0 {
      ClosedFormRow(subs[..n]);
    }
  }

  /** The item view the closed form predicts. */
  ghost function PredictedItem(subs: seq<Submission>, id: Id): ItemView
    requires Mentions(subs, |subs| - 1, id)
  {
    var last := subs[|subs| - 1].snap.items;
    var supplier := subs[RunStart(subs, id)].snap.items;
    assert Mentions(subs, RunStart(subs, id), id);
    ItemView(supplier[FirstWith(supplier, id)].template, last[LastWith(last, id)].checked, last[LastWith(last, id)].checkedAt)
  }

  lemma {:induction false} ClosedFormItem(subs: seq<Submission>, id: Id)
    requires subs != []
    ensures id in FoldView(subs).value.items <==> Mentions(subs, |subs| - 1, id)
    ensures Mentions(subs, |subs| - 1, id) ==> FoldView(subs).value.items[id] == PredictedItem(subs, id)
  {
    var n := |subs| - 1;
    var prev := if n == 0 then map[] else FoldView(subs[..n]).value.items;
    var ids := ItemIds(subs[n].snap.items);
    PutAllClosed(Keep(prev, ids), subs[n].snap.items, id);
    if n == 0 {
      assert Keep(prev, ids) == map[];
    } else {
      ClosedFormItem(subs[..n], id);
      assert Mentions(subs[..n], n - 1, id) <==> Mentions(subs, n - 1, id);
      if id in ids && Mentions(subs, n - 1, id) {
        assert RunStart(subs, id) == RunStart(subs[..n], id);
      }
    }
  }

  /**
   After any non-empty sequence of accepted snapshots of one execution: start time, note,
   item ids and item checks are the last snapshot's, the completion and the server's stamp
   on it are those of the first snapshot that carried one, and an item's template comes from
   the first snapshot of the unbroken run that has kept the item.
  */
  lemma ClosedForm(subs: seq<Submission>)
    requires subs != []
    ensures var v, last, first := FoldView(subs).value, subs[|subs| - 1].snap, FirstCompletion(subs);
            && v.startedAt == last.startedAt && v.note == last.note
            && v.deviceFinishedAt == (if first.Some? then first.value.snap.deviceFinishedAt else None)
            && v.finishedAt == (if first.Some? then Some(first.value.at) else None)
            && v.items.Keys == ItemIds(last.items)
            && forall id | id in v.items :: Mentions(subs, |subs| - 1, id) && v.items[id] == PredictedItem(subs, id)
  {
    ClosedFormRow(subs);
    forall id { ClosedFormItem(subs, id); }
  }

  // === Convergence ============================================================

  function CompletionOf(subs: seq<Submission>): Option<Time> {
    var first := FirstCompletion(subs);
    if first.Some? then first.value.snap.deviceFinishedAt else None
  }

  /**
   What of two replays decides what they leave: the order named first, the first completion,
   and of the last snapshots the start, the note, the item ids and each item's check, together
   with the template each item came in with.
  */
  ghost predicate SameTrace(a: seq<Submission>, b: seq<Submission>)
    requires a != [] && b != []
  {
    var x, y := a[|a| - 1].snap, b[|b| - 1].snap;
    && a[0].snap.order == b[0].snap.order && CompletionOf(a) == CompletionOf(b)
    && x.startedAt == y.startedAt && x.note == y.note
    && forall id :: SameItem(a, b, id)
  }

  ghost predicate SameItem(a: seq<Submission>, b: seq<Submission>, id: Id)
    requires a != [] && b != []
  {
    && (Mentions(a, |a| - 1, id) <==> Mentions(b, |b| - 1, id))
    && (Mentions(a, |a| - 1, id) ==> PredictedItem(a, id) == PredictedItem(b, id))
  }

  lemma SameItemIsSameView(a: seq<Submission>, b: seq<Submission>, id: Id)
    requires a != [] && b != []
    ensures var x, y := FoldView(a).value.items, FoldView(b).value.items;
            SameItem(a, b, id) <==> (id in x <==> id in y) && (id in x ==> x[id] == y[id])
  {
    ClosedFormItem(a, id);
    ClosedFormItem(b, id);
  }

  /** Two replays leave the same evidence exactly when their traces agree. (The server's own
      stamp is when each replay happened.) */
  lemma ConvergenceCondition(a: seq<Submission>, b: seq<Submission>)
    requires a != [] && b != []
    ensures (FoldView(a).value.(finishedAt := None) == FoldView(b).value.(finishedAt := None)) <==> SameTrace(a, b)
  {
    ClosedFormRow(a);
    ClosedFormRow(b);
    var x, y := FoldView(a).value.items, FoldView(b).value.items;
    forall id ensures SameItem(a, b, id) <==> (id in x <==> id in y) && (id in x ==> x[id] == y[id]) {
      SameItemIsSameView(a, b, id);
    }
    assert x == y <==> forall id :: SameItem(a, b, id);
  }

  /** Two replays that end in the same snapshot and first learn the same completion. */
  ghost predicate SameEnds(a: seq<Submission>, b: seq<Submission>) {
    && a != [] && b != [] && a[|a| - 1].snap == b[|b| - 1].snap && a[0].snap.order == b[0].snap.order
    && CompletionOf(a) == CompletionOf(b)
  }

  /** An item id always comes with the same template item. */
  ghost predicate StableTemplates(subs: seq<Submission>, t: map<Id, Id>) {
    forall j, it | 0 <= j < |subs| && it in subs[j].snap.items :: it.id in t && t[it.id] == it.template
  }

  /** So with stable templates every two replays that end alike converge, whatever they
      repeated, dropped or reordered before. */
  lemma Convergence(a: seq<Submission>, b: seq<Submission>, t: map<Id, Id>)
    requires SameEnds(a, b) && StableTemplates(a, t) && StableTemplates(b, t)
    ensures FoldView(a).value.(finishedAt := None) == FoldView(b).value.(finishedAt := None)
  {
    ConvergenceCondition(a, b);
    forall id | Mentions(a, |a| - 1, id) ensures PredictedItem(a, id) == PredictedItem(b, id) {
      var x, y := a[RunStart(a, id)].snap.items, b[RunStart(b, id)].snap.items;
      assert Mentions(a, RunStart(a, id), id) && Mentions(b, RunStart(b, id), id);
      assert x[FirstWith(x, id)] in x && y[FirstWith(y, id)] in y;
    }
  }

  lemma {:induction false} FirstCompletionConcat(a: seq<Submission>, b: seq<Submission>)
    ensures FirstCompletion(a + b) == if FirstCompletion(a).Some? then FirstCompletion(a) else FirstCompletion(b)
  {
    if a == [] {
      assert a + b == b;
    } else {
      assert (a + b)[1..] == a[1..] + b;
      FirstCompletionConcat(a[1..], b);
    }
  }

  ghost predicate SameSnaps(a: seq<Submission>, again: seq<Submission>) {
    |again| == |a| && forall j | 0 <= j < |a| :: again[j].snap == a[j].snap
  }

  /** Replaying all snapshots from some point on, at any later times, changes nothing for the
      execution: not the completion, not the server's stamp on it, and not even a template. */
  lemma ReplayIsIdempotent(h: seq<Submission>, a: seq<Submission>, again: seq<Submission>)
    requires a != [] && SameSnaps(a, again)
    ensures FoldView(h + a + again) == FoldView(h + a)
  {
    var c, d := h + a, h + a + again;
    ReplayKeepsRow(h, a, again);
    var x, y := FoldView(c).value.items, FoldView(d).value.items;
    forall id
      ensures id in x <==> id in y
      ensures id in x ==> x[id] == y[id]
    {
      ReplayKeepsItem(h, a, again, id);
    }
    assert x == y;
  }

  lemma ReplayKeepsRow(h: seq<Submission>, a: seq<Submission>, again: seq<Submission>)
    requires a != [] && SameSnaps(a, again)
    ensures FoldView(h + a + again).value.(items := map[]) == FoldView(h + a).value.(items := map[])
  {
    var c := h + a;
    ClosedFormRow(c);
    ClosedFormRow(c + again);
    FirstCompletionConcat(h, a);
    FirstCompletionConcat(c, again);
    if FirstCompletion(a).None? { NoCompletionAgain(a, again); }
    assert (c + again)[0] == c[0];
  }

  lemma {:induction false} NoCompletionAgain(a: seq<Submission>, again: seq<Submission>)
    requires SameSnaps(a, again) && FirstCompletion(a).None?
    ensures FirstCompletion(again).None?
  {
    if a != [] { NoCompletionAgain(a[1..], again[1..]); }
  }

  lemma ReplayKeepsItem(h: seq<Submission>, a: seq<Submission>, again: seq<Submission>, id: Id)
    requires a != [] && SameSnaps(a, again)
    ensures var x, y := FoldView(h + a).value.items, FoldView(h + a + again).value.items;
            (id in x <==> id in y) && (id in x ==> x[id] == y[id])
  {
    var c, d := h + a, h + a + again;
    ClosedFormItem(c, id);
    ClosedFormItem(d, id);
    assert d[|d| - 1].snap == c[|c| - 1].snap;
    if Mentions(c, |c| - 1, id) { SameSupplier(h, a, again, id); }
  }

  /** In a replay of `a` each snapshot mentions what it mentioned before. */
  lemma MentionsAgain(h: seq<Submission>, a: seq<Submission>, again: seq<Submission>, id: Id, j: nat)
    requires SameSnaps(a, again) && j < |h + a|
    ensures Mentions(h + a + again, j, id) <==> Mentions(h + a, j, id)
    ensures j >= |h| ==> (Mentions(h + a + again, j + |a|, id) <==> Mentions(h + a, j, id))
  {
    assert (h + a + again)[j] == (h + a)[j];
    if j >= |h| { assert (h + a + again)[j + |a|] == again[j - |h|] && (h + a)[j] == a[j - |h|]; }
  }

  lemma SameSupplier(h: seq<Submission>, a: seq<Submission>, again: seq<Submission>, id: Id)
    requires a != [] && SameSnaps(a, again) && Mentions(h + a, |h + a| - 1, id)
    ensures Mentions(h + a + again, |h + a + again| - 1, id)
    ensures (h + a + again)[RunStart(h + a + again, id)].snap == (h + a)[RunStart(h + a, id)].snap
  {
    var c, d, k := h + a, h + a + again, |a|;
    MentionsAgain(h, a, again, id, |c| - 1);
    var p, q := RunStart(c, id), RunStart(d, id);
    if p > |h| {
      MentionsAgain(h, a, again, id, p - 1);
      forall j | p + k <= j < |d| ensures Mentions(d, j, id) { MentionsAgain(h, a, again, id, j - k); }
      assert q == p + k && d[q].snap == again[p - |h|].snap == c[p].snap;
    } else {
      if p > 0 { MentionsAgain(h, a, again, id, p - 1); }
      forall j | p <= j < |d| ensures Mentions(d, j, id) { MentionsAgain(h, a, again, id, if j < |c| then j else j - k); }
      assert q == p && d[q] == c[p];
    }
  }
}
