/**
 What replayed upserts do to the whole database: whether they are accepted, and that they leave
 every table as it is but for the status of their order.
*/
module Replays {
  import opened Options
  import opened Tables
  import opened UpsertLaws

  /** Upserts of one execution by its worker, one after the other, up to the first refusal. */
  function UpsertAll(db: Db, tenant: Id, worker: Id, id: Id, subs: seq<Submission>): Result<Db> {
    if subs == [] then Ok(db)
    else
      var n := |subs| - 1;
      var before := UpsertAll(db, tenant, worker, id, subs[..n]);
      if before.Err? then before else Upsert(before.value, tenant, worker, id, subs[n].snap, subs[n].at)
  }

  /** `b` differs from `a` in the execution's row, its items and the status of its order `o`,
      which is what the row says. */
  ghost predicate Replaces(a: Db, b: Db, tenant: Id, worker: Id, id: Id, o: Id) {
    && b == a.(execs := b.execs, items := b.items, orders := b.orders)
    && b.execs.Keys == a.execs.Keys + {id} && Owns(b.execs, id, tenant, worker, o)
    && (id in a.execs ==> Owns(a.execs, id, tenant, worker, o))
    && (forall e | e in a.execs && e != id :: b.execs[e] == a.execs[e])
    && (forall i | i in a.items && a.items[i].exec != id :: i in b.items && b.items[i] == a.items[i])
    && (forall i | i in b.items && b.items[i].exec != id :: i in a.items && b.items[i] == a.items[i])
    && o in a.orders && b.orders == a.orders[o := a.orders[o].(status := StatusFor(b.execs[id]))]
  }

  lemma UpsertReplaces(db: Db, tenant: Id, worker: Id, id: Id, snap: Snapshot, now: Time)
    requires Upsert(db, tenant, worker, id, snap, now).Ok?
    ensures Replaces(db, Upsert(db, tenant, worker, id, snap, now).value, tenant, worker, id, snap.order)
  {
    UpsertFrame(db, tenant, worker, id, snap, now);
  }

  lemma ReplacesTwice(a: Db, b: Db, c: Db, tenant: Id, worker: Id, id: Id, o: Id, o': Id)
    requires Replaces(a, b, tenant, worker, id, o) && Replaces(b, c, tenant, worker, id, o')
    ensures o' == o && Replaces(a, c, tenant, worker, id, o)
  {
  }

  lemma {:induction false} AllReplace(db: Db, tenant: Id, worker: Id, id: Id, subs: seq<Submission>)
    requires subs != [] && UpsertAll(db, tenant, worker, id, subs).Ok?
    ensures Replaces(db, UpsertAll(db, tenant, worker, id, subs).value, tenant, worker, id, subs[|subs| - 1].snap.order)
  {
    var n := |subs| - 1;
    var before := UpsertAll(db, tenant, worker, id, subs[..n]).value;
    UpsertReplaces(before, tenant, worker, id, subs[n].snap, subs[n].at);
    if n == 0 {
      assert before == db;
    } else {
      AllReplace(db, tenant, worker, id, subs[..n]);
      ReplacesTwice(db, before, UpsertAll(db, tenant, worker, id, subs).value, tenant, worker, id,
                    subs[n - 1].snap.order, subs[n].snap.order);
    }
  }

  // === Acceptance =============================================================

  /** Once an execution is stored, its own upserts change nothing that decides whether another
      one is accepted. */
  lemma AcceptableStays(a: Db, b: Db, tenant: Id, worker: Id, id: Id, o: Id, snap: Snapshot)
    requires Replaces(a, b, tenant, worker, id, o) && (id in a.execs || snap.order == o)
    ensures Acceptable(b, tenant, worker, id, snap) <==> Acceptable(a, tenant, worker, id, snap)
  {
    forall it | it in snap.items ensures ItemWritable(b.items, id, it) <==> ItemWritable(a.items, id, it) {
    }
  }

  ghost predicate AllAcceptable(db: Db, tenant: Id, worker: Id, id: Id, subs: seq<Submission>) {
    forall j | 0 <= j < |subs| :: Acceptable(db, tenant, worker, id, subs[j].snap)
  }

  /** Further upserts of a stored execution are all accepted exactly when each of them could be
      accepted at the start. */
  lemma {:induction false} AllAcceptedExactly(db: Db, tenant: Id, worker: Id, id: Id, subs: seq<Submission>)
    requires id in db.execs
    ensures UpsertAll(db, tenant, worker, id, subs).Ok? <==> AllAcceptable(db, tenant, worker, id, subs)
  {
    if subs != [] {
      var n := |subs| - 1;
      var before, snap := UpsertAll(db, tenant, worker, id, subs[..n]), subs[n].snap;
      AllAcceptedExactly(db, tenant, worker, id, subs[..n]);
      AllSnoc(db, tenant, worker, id, subs);
      if before.Ok? {
        AcceptedExactly(before.value, tenant, worker, id, snap, subs[n].at);
        if n == 0 {
          assert before.value == db;
        } else {
          AllReplace(db, tenant, worker, id, subs[..n]);
          AcceptableStays(db, before.value, tenant, worker, id, subs[n - 1].snap.order, snap);
        }
      }
    }
  }

  lemma AllSnoc(db: Db, tenant: Id, worker: Id, id: Id, subs: seq<Submission>)
    requires subs != []
    ensures var n := |subs| - 1;
            AllAcceptable(db, tenant, worker, id, subs) <==>
            AllAcceptable(db, tenant, worker, id, subs[..n]) && Acceptable(db, tenant, worker, id, subs[n].snap)
  {
    var n := |subs| - 1;
    forall j | 0 <= j < n ensures subs[..n][j] == subs[j] {
    }
  }

  lemma AllStay(a: Db, b: Db, tenant: Id, worker: Id, id: Id, o: Id, subs: seq<Submission>)
    requires Replaces(a, b, tenant, worker, id, o) && AllAcceptable(a, tenant, worker, id, subs) && (subs == [] || id in a.execs)
    ensures AllAcceptable(b, tenant, worker, id, subs)
  {
    forall j | 0 <= j < |subs| ensures Acceptable(b, tenant, worker, id, subs[j].snap) {
      AcceptableStays(a, b, tenant, worker, id, o, subs[j].snap);
    }
  }

  /** What has been accepted can be accepted again right away. */
  lemma {:induction false} AcceptedStaysAcceptable(db: Db, tenant: Id, worker: Id, id: Id, subs: seq<Submission>)
    requires UpsertAll(db, tenant, worker, id, subs).Ok?
    ensures AllAcceptable(UpsertAll(db, tenant, worker, id, subs).value, tenant, worker, id, subs)
  {
    if subs != [] {
      var n := |subs| - 1;
      var snap := subs[n].snap;
      var before, after := UpsertAll(db, tenant, worker, id, subs[..n]).value, UpsertAll(db, tenant, worker, id, subs).value;
      AcceptedStaysAcceptable(db, tenant, worker, id, subs[..n]);
      AcceptedExactly(before, tenant, worker, id, snap, subs[n].at);
      UpsertReplaces(before, tenant, worker, id, snap, subs[n].at);
      if n > 0 { AllReplace(db, tenant, worker, id, subs[..n]); }
      AllStay(before, after, tenant, worker, id, snap.order, subs[..n]);
      AcceptableStays(before, after, tenant, worker, id, snap.order, snap);
      AllSnoc(after, tenant, worker, id, subs);
    }
  }

  // === What a replay leaves ===================================================

  lemma {:induction false} AllFold(db: Db, tenant: Id, worker: Id, id: Id, h: seq<Submission>, subs: seq<Submission>)
    requires ItemsHaveExecs(db) && ViewIfAny(db, id) == FoldView(h) && UpsertAll(db, tenant, worker, id, subs).Ok?
    ensures var db' := UpsertAll(db, tenant, worker, id, subs).value;
            ItemsHaveExecs(db') && ViewIfAny(db', id) == FoldView(h + subs)
  {
    if subs == [] {
      assert h + subs == h;
    } else {
      var n := |subs| - 1;
      AllFold(db, tenant, worker, id, h, subs[..n]);
      var before := UpsertAll(db, tenant, worker, id, subs[..n]).value;
      UpsertIsNextView(before, tenant, worker, id, subs[n].snap, subs[n].at);
      assert (h + subs)[..|h + subs| - 1] == h + subs[..n] && (h + subs)[|h + subs| - 1] == subs[n];
      assert Submission(subs[n].snap, subs[n].at) == subs[n];
    }
  }

  /** The order takes the status that the execution's row gives it. */
  function WithStatusOf(db: Db, id: Id): Db
    requires id in db.execs && db.execs[id].order in db.orders
  {
    var o := db.execs[id].order;
    db.(orders := db.orders[o := db.orders[o].(status := StatusFor(db.execs[id]))])
  }

  lemma SameView(a: Db, b: Db, tenant: Id, worker: Id, id: Id, o: Id)
    requires Replaces(a, b, tenant, worker, id, o) && id in a.execs && ViewIfAny(a, id) == ViewIfAny(b, id)
    ensures b == WithStatusOf(a, id)
  {
    assert b.execs == a.execs;
    assert b.items == a.items by {
      forall i ensures i in a.items <==> i in b.items {
        assert i in ItemsOf(a.items, id) <==> i in ItemsOf(b.items, id);
      }
      forall i | i in a.items ensures b.items[i] == a.items[i] {
        if a.items[i].exec == id { assert ItemsOf(a.items, id)[i] == ItemsOf(b.items, id)[i]; }
      }
    }
  }

  /**
   Replaying all snapshots of an execution from some point on, in one go and at any later times:
   it is accepted exactly when each snapshot could be accepted at the start, and it then sets the
   order's status to what the execution's row says and changes nothing else in any table.
  */
  lemma ReplaySetsStatusOnly(db: Db, tenant: Id, worker: Id, id: Id, h: seq<Submission>, a: seq<Submission>, again: seq<Submission>)
    requires ItemsHaveExecs(db) && a != [] && SameSnaps(a, again) && ViewIfAny(db, id) == FoldView(h + a)
    ensures UpsertAll(db, tenant, worker, id, again).Ok? <==> AllAcceptable(db, tenant, worker, id, again)
    ensures UpsertAll(db, tenant, worker, id, again).Ok? ==>
              && id in db.execs && db.execs[id].order in db.orders
              && UpsertAll(db, tenant, worker, id, again).value == WithStatusOf(db, id)
  {
    assert id in db.execs;
    AllAcceptedExactly(db, tenant, worker, id, again);
    if UpsertAll(db, tenant, worker, id, again).Ok? {
      var after := UpsertAll(db, tenant, worker, id, again).value;
      AllReplace(db, tenant, worker, id, again);
      AllFold(db, tenant, worker, id, h + a, again);
      ReplayIsIdempotent(h, a, again);
      SameView(db, after, tenant, worker, id, again[|again| - 1].snap.order);
    }
  }

  lemma SameAcceptable(db: Db, tenant: Id, worker: Id, id: Id, a: seq<Submission>, again: seq<Submission>)
    requires SameSnaps(a, again) && AllAcceptable(db, tenant, worker, id, a)
    ensures AllAcceptable(db, tenant, worker, id, again)
  {
    forall j | 0 <= j < |again| ensures Acceptable(db, tenant, worker, id, again[j].snap) {
      assert again[j].snap == a[j].snap;
    }
  }

  lemma StatusIsSet(a: Db, b: Db, tenant: Id, worker: Id, id: Id, o: Id)
    requires Replaces(a, b, tenant, worker, id, o)
    ensures WithStatusOf(b, id) == b
  {
  }

  /** Right after the snapshots themselves, a replay is accepted and changes nothing at all. */
  lemma ImmediateReplay(db: Db, tenant: Id, worker: Id, id: Id, h: seq<Submission>, a: seq<Submission>, again: seq<Submission>)
    requires ItemsHaveExecs(db) && SameSnaps(a, again) && ViewIfAny(db, id) == FoldView(h)
    requires UpsertAll(db, tenant, worker, id, a).Ok?
    ensures var after := UpsertAll(db, tenant, worker, id, a); UpsertAll(after.value, tenant, worker, id, again) == after
  {
    if a != [] {
      var after := UpsertAll(db, tenant, worker, id, a).value;
      AllFold(db, tenant, worker, id, h, a);
      AllReplace(db, tenant, worker, id, a);
      AcceptedStaysAcceptable(db, tenant, worker, id, a);
      SameAcceptable(after, tenant, worker, id, a, again);
      ReplaySetsStatusOnly(after, tenant, worker, id, h, a, again);
      StatusIsSet(db, after, tenant, worker, id, a[|a| - 1].snap.order);
    }
  }

  // === One snapshot, on any database ==========================================

  lemma OwnItemIsListed(items: map<Id, Item>, id: Id, its: seq<ItemInput>, once: map<Id, Item>, i: Id)
    requires PutItems(PruneItems(items, id, ItemIds(its)), id, its) == Some(once) && i in once && once[i].exec == id
    ensures i in ItemIds(its)
  {
    var kept := PruneItems(items, id, ItemIds(its));
    PutItemsIsPutAll(kept, id, its);
    PutAllClosed(ItemsOf(kept, id), its, i);
    assert i in ItemsOf(once, id);
  }

  lemma PrunedAgain(items: map<Id, Item>, id: Id, its: seq<ItemInput>, once: map<Id, Item>)
    requires PutItems(PruneItems(items, id, ItemIds(its)), id, its) == Some(once)
    ensures PruneItems(once, id, ItemIds(its)) == once
  {
    forall i | i in once && once[i].exec == id ensures i in ItemIds(its) {
      OwnItemIsListed(items, id, its, once, i);
    }
  }

  lemma WrittenAgain(kept: map<Id, Item>, once: map<Id, Item>, id: Id, its: seq<ItemInput>)
    requires PutItems(kept, id, its) == Some(once)
    ensures PutItems(once, id, its) == Some(once)
  {
    WritableAgain(kept, once, id, its);
    PutItemsAccepts(once, id, its);
    var twice := PutItems(once, id, its).value;
    forall i ensures (i in once <==> i in twice) && (i in once ==> twice[i] == once[i]) {
      ItemAgain(kept, once, twice, id, its, i);
    }
    assert twice == once;
  }

  lemma ItemsAgain(items: map<Id, Item>, id: Id, its: seq<ItemInput>)
    requires PutItems(PruneItems(items, id, ItemIds(its)), id, its).Some?
    ensures var once := PutItems(PruneItems(items, id, ItemIds(its)), id, its).value;
            PutItems(PruneItems(once, id, ItemIds(its)), id, its) == Some(once)
  {
    var kept := PruneItems(items, id, ItemIds(its));
    var once := PutItems(kept, id, its).value;
    PrunedAgain(items, id, its, once);
    WrittenAgain(kept, once, id, its);
  }

  lemma WritableAgain(kept: map<Id, Item>, once: map<Id, Item>, id: Id, its: seq<ItemInput>)
    requires PutItems(kept, id, its) == Some(once)
    ensures forall it | it in its :: ItemWritable(once, id, it)
  {
    PutItemsAccepts(kept, id, its);
    PutItemsIsPutAll(kept, id, its);
    forall it | it in its ensures ItemWritable(once, id, it) {
      assert ItemWritable(kept, id, it);
    }
  }

  lemma ItemAgain(kept: map<Id, Item>, once: map<Id, Item>, twice: map<Id, Item>, id: Id, its: seq<ItemInput>, i: Id)
    requires PutItems(kept, id, its) == Some(once) && PutItems(once, id, its) == Some(twice)
    ensures i in once <==> i in twice
    ensures i in once ==> twice[i] == once[i]
  {
    PutItemsIsPutAll(kept, id, its);
    PutItemsIsPutAll(once, id, its);
    PutAllClosed(ItemsOf(kept, id), its, i);
    PutAllClosed(ItemsOf(once, id), its, i);
    assert i in ItemsOf(once, id) <==> i in ItemsOf(twice, id);
  }

  /** An accepted snapshot, sent again at any later time, is accepted and changes no table, not
      even by the server's stamp. */
  lemma UpsertIsIdempotent(db: Db, tenant: Id, worker: Id, id: Id, snap: Snapshot, now: Time, later: Time)
    requires Upsert(db, tenant, worker, id, snap, now).Ok?
    ensures var once := Upsert(db, tenant, worker, id, snap, now); Upsert(once.value, tenant, worker, id, snap, later) == once
  {
    var once := Upsert(db, tenant, worker, id, snap, now).value;
    UpsertReplaces(db, tenant, worker, id, snap, now);
    AcceptedExactly(db, tenant, worker, id, snap, now);
    AcceptableStays(db, once, tenant, worker, id, snap.order, snap);
    AcceptedExactly(once, tenant, worker, id, snap, later);
    ItemsAgain(db.items, id, snap.items);
    assert PutExec(once.execs, id, tenant, worker, snap, later) == once.execs;
    assert Upsert(once, tenant, worker, id, snap, later).value.orders == once.orders;
  }
}
