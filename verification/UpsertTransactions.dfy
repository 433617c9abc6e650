/**
 UpsertExecution statement by statement, any number of them at once under READ COMMITTED. A
 statement sees committed rows and its own transaction's writes, and waits for a row another
 transaction has written or locked. The theorem: what such a transaction commits is exactly
 what Upsert computes, in one go, from the database at the moment of the commit.
*/
module UpsertTransactions {
  import opened Options
  import opened Tables

  /** How far a transaction has got, with the rows it has read or written and not committed.
      In `writes` a None is a deleted item. */
  datatype Phase =
    | Begun
    | OrderRead(version: Id)                                        // GetWorkOrderForWorker, assignee checked
    | ExecPut(version: Id, row: Exec)                               // UpsertWorkExecution
    | Checked(version: Id, row: Exec)                               // GetExecution, ListChecklistItemsByVersions
    | Writing(version: Id, row: Exec, n: nat, writes: map<Id, Option<Item>>)   // pruned, n items written

  datatype Tx = Tx(tenant: Id, worker: Id, id: Id, snap: Snapshot, now: Time, phase: Phase)

  datatype State = State(db: Db, txs: map<Id, Tx>)

  /** `Others` is any commit of the rest of the service: it writes no execution and no item, and
      no order row that an upsert holds; checklist versions and template items are only added. */
  datatype Step =
    | Begin(c: Id, tx: Tx)
    | ReadOrder(c: Id)
    | PutExecution(c: Id)
    | Check(c: Id)
    | Prune(c: Id)
    | WriteItem(c: Id)
    | Commit(c: Id)
    | Rollback(c: Id)
    | Others(db: Db)

  predicate HoldsOrder(t: Tx, o: Id) {
    !t.phase.Begun? && t.snap.order == o
  }

  predicate HoldsExec(t: Tx, e: Id) {
    !t.phase.Begun? && !t.phase.OrderRead? && t.id == e
  }

  function Written(t: Tx): map<Id, Option<Item>> {
    if t.phase.Writing? then t.phase.writes else map[]
  }

  predicate OrderFree(txs: map<Id, Tx>, c: Id, o: Id) {
    forall d | d in txs && d != c :: !HoldsOrder(txs[d], o)
  }

  predicate ExecFree(txs: map<Id, Tx>, c: Id, e: Id) {
    forall d | d in txs && d != c :: !HoldsExec(txs[d], e)
  }

  predicate ItemFree(txs: map<Id, Tx>, c: Id, i: Id) {
    forall d | d in txs && d != c :: i !in Written(txs[d])
  }

  /** What this transaction sees of the item table. */
  function Overlay(items: map<Id, Item>, writes: map<Id, Option<Item>>): map<Id, Item> {
    map i | i in items.Keys + writes.Keys && (i in writes ==> writes[i].Some?) ::
      if i in writes then writes[i].value else items[i]
  }

  /** The items its DELETE matches. */
  function Pruned(items: map<Id, Item>, t: Tx): map<Id, Option<Item>> {
    map i | i in items && items[i].exec == t.id && i !in ItemIds(t.snap.items) :: None
  }

  predicate Enabled(s: State, st: Step) {
    match st
    case Begin(c, tx) => c !in s.txs && tx.phase.Begun?
    case ReadOrder(c) => c in s.txs && s.txs[c].phase.Begun? && OrderFree(s.txs, c, s.txs[c].snap.order)
    case PutExecution(c) => c in s.txs && s.txs[c].phase.OrderRead? && ExecFree(s.txs, c, s.txs[c].id)
    case Check(c) => c in s.txs && s.txs[c].phase.ExecPut?
    case Prune(c) =>
      c in s.txs && s.txs[c].phase.Checked? && forall i | i in Pruned(s.db.items, s.txs[c]) :: ItemFree(s.txs, c, i)
    case WriteItem(c) =>
      && c in s.txs && s.txs[c].phase.Writing? && s.txs[c].phase.n < |s.txs[c].snap.items|
      && ItemFree(s.txs, c, s.txs[c].snap.items[s.txs[c].phase.n].id)
    case Commit(c) => c in s.txs && s.txs[c].phase.Writing? && s.txs[c].phase.n == |s.txs[c].snap.items|
    case Rollback(c) => c in s.txs
    case Others(db) => OthersMay(s, db)
  }

  predicate OthersMay(s: State, db: Db) {
    && db.execs == s.db.execs && db.items == s.db.items
    && (forall c | c in s.txs && !s.txs[c].phase.Begun? && s.txs[c].snap.order in s.db.orders ::
          s.txs[c].snap.order in db.orders && db.orders[s.txs[c].snap.order] == s.db.orders[s.txs[c].snap.order])
    && (forall v | v in s.db.versions :: v in db.versions && db.versions[v] == s.db.versions[v])
    && (forall t | t in s.db.templateItems :: t in db.templateItems && db.templateItems[t] == s.db.templateItems[t])
  }

  /** Where a statement leads: on to a phase, or to a refusal and so to the rollback. */
  datatype Move = Go(phase: Phase) | Refuse(error: UpsertError)

  function Moved(s: State, st: Step): Move
    requires Enabled(s, st) && (st.ReadOrder? || st.PutExecution? || st.Check? || st.Prune? || st.WriteItem?)
  {
    var t := s.txs[st.c];
    var p := t.phase;
    match st
    case ReadOrder(_) =>
      if AssignedTo(s.db, t.tenant, t.worker, t.snap.order) then Go(OrderRead(s.db.orders[t.snap.order].version))
      else Refuse(NotAssigned)
    case PutExecution(_) => Go(ExecPut(p.version, PutExec(s.db.execs, t.id, t.tenant, t.worker, t.snap, t.now)[t.id]))
    case Check(_) =>
      if p.row.tenant != t.tenant || p.row.worker != t.worker || p.row.order != t.snap.order then Refuse(ExecutionIdConflict)
      else if !TemplatesOk(s.db, t.tenant, p.version, t.snap.items) then Refuse(InvalidChecklistItem)
      else Go(Checked(p.version, p.row))
    case Prune(_) => Go(Writing(p.version, p.row, 0, Pruned(s.db.items, t)))
    case WriteItem(_) =>
      var seen, it := Overlay(s.db.items, p.writes), t.snap.items[p.n];
      if ItemWritable(seen, t.id, it)
      then Go(Writing(p.version, p.row, p.n + 1, p.writes[it.id := Some(PutItem(seen, t.id, it)[it.id])]))
      else Refuse(ItemConflict)
  }

  function CommitDb(db: Db, t: Tx): Db
    requires t.phase.Writing? && t.snap.order in db.orders
  {
    db.(execs := db.execs[t.id := t.phase.row],
        items := Overlay(db.items, t.phase.writes),
        orders := db.orders[t.snap.order := db.orders[t.snap.order].(status := StatusFor(t.phase.row))])
  }

  function Apply(s: State, st: Step): State
    requires Enabled(s, st) && (st.Commit? ==> s.txs[st.c].snap.order in s.db.orders)
  {
    match st
    case Begin(c, tx) => s.(txs := s.txs[c := tx])
    case Commit(c) => State(CommitDb(s.db, s.txs[c]), s.txs - {c})
    case Rollback(c) => s.(txs := s.txs - {c})
    case Others(db) => s.(db := db)
    case _ =>
      var m := Moved(s, st);
      if m.Go? then s.(txs := s.txs[st.c := s.txs[st.c].(phase := m.phase)]) else s.(txs := s.txs - {st.c})
  }

  // === Invariant ==============================================================

  ghost predicate OrderOk(db: Db, t: Tx, version: Id) {
    AssignedTo(db, t.tenant, t.worker, t.snap.order) && db.orders[t.snap.order].version == version
  }

  ghost predicate RowOk(execs: map<Id, Exec>, t: Tx, row: Exec) {
    PutExec(execs, t.id, t.tenant, t.worker, t.snap, t.now)[t.id] == row
  }

  ghost predicate ChecksOk(db: Db, t: Tx, version: Id, row: Exec) {
    && row.tenant == t.tenant && row.worker == t.worker && row.order == t.snap.order
    && TemplatesOk(db, t.tenant, version, t.snap.items)
  }

  /** The statements run so far have done to the visible items what PruneItems and the first n
      PutItem do to the committed ones. */
  ghost predicate WritesOk(items: map<Id, Item>, t: Tx, n: nat, writes: map<Id, Option<Item>>) {
    && n <= |t.snap.items|
    && ItemIds(t.snap.items[..n]) <= writes.Keys
    && PutItems(PruneItems(items, t.id, ItemIds(t.snap.items)), t.id, t.snap.items[..n]) == Some(Overlay(items, writes))
    && forall i | i in writes :: OwnWrite(items, t.id, i, writes[i])
  }

  /** A write turns an own or absent row into an own or absent row. */
  ghost predicate OwnWrite(items: map<Id, Item>, e: Id, i: Id, w: Option<Item>) {
    (i in items ==> items[i].exec == e) && (w.Some? ==> w.value.exec == e)
  }

  ghost predicate TxOk(db: Db, t: Tx) {
    match t.phase
    case Begun => true
    case OrderRead(v) => OrderOk(db, t, v)
    case ExecPut(v, row) => OrderOk(db, t, v) && RowOk(db.execs, t, row)
    case Checked(v, row) => OrderOk(db, t, v) && RowOk(db.execs, t, row) && ChecksOk(db, t, v, row)
    case Writing(v, row, n, writes) =>
      OrderOk(db, t, v) && RowOk(db.execs, t, row) && ChecksOk(db, t, v, row) && WritesOk(db.items, t, n, writes)
  }

  ghost predicate Compatible(t: Tx, u: Tx) {
    && !(HoldsOrder(t, t.snap.order) && HoldsOrder(u, t.snap.order))
    && !(HoldsExec(t, t.id) && HoldsExec(u, t.id))
    && Written(t).Keys !! Written(u).Keys
  }

  ghost predicate LocksOk(txs: map<Id, Tx>) {
    forall c, d | c in txs && d in txs && c != d :: Compatible(txs[c], txs[d])
  }

  ghost predicate AllOk(db: Db, txs: map<Id, Tx>) {
    forall c | c in txs :: TxOk(db, txs[c])
  }

  ghost predicate Inv(s: State) {
    AllOk(s.db, s.txs) && LocksOk(s.txs)
  }

  // === One statement ==========================================================

  lemma PrunedIsPrune(items: map<Id, Item>, t: Tx)
    ensures WritesOk(items, t, 0, Pruned(items, t))
  {
    assert t.snap.items[..0] == [];
    assert Overlay(items, Pruned(items, t)) == PruneItems(items, t.id, ItemIds(t.snap.items));
  }

  lemma WriteIsPut(items: map<Id, Item>, t: Tx, n: nat, writes: map<Id, Option<Item>>)
    requires n < |t.snap.items| && WritesOk(items, t, n, writes)
    requires ItemWritable(Overlay(items, writes), t.id, t.snap.items[n])
    ensures var it, seen := t.snap.items[n], Overlay(items, writes);
            WritesOk(items, t, n + 1, writes[it.id := Some(PutItem(seen, t.id, it)[it.id])])
  {
    var it, seen := t.snap.items[n], Overlay(items, writes);
    var writes' := writes[it.id := Some(PutItem(seen, t.id, it)[it.id])];
    assert t.snap.items[..n + 1][..n] == t.snap.items[..n];
    assert Overlay(items, writes') == PutItem(seen, t.id, it);
    assert ItemIds(t.snap.items[..n + 1]) <= ItemIds(t.snap.items[..n]) + {it.id} by {
      assert t.snap.items[..n + 1] == t.snap.items[..n] + [it];
    }
    forall i | i in writes' ensures OwnWrite(items, t.id, i, writes'[i]) {
      if i != it.id {
        assert OwnWrite(items, t.id, i, writes[i]);
      } else if i in writes {
        assert OwnWrite(items, t.id, i, writes[i]);
      } else {
        assert i in items ==> i in seen && seen[i] == items[i];
      }
    }
  }

  lemma MovedIsOk(s: State, st: Step)
    requires Inv(s) && Enabled(s, st) && (st.ReadOrder? || st.PutExecution? || st.Check? || st.Prune? || st.WriteItem?)
    requires Moved(s, st).Go?
    ensures TxOk(s.db, s.txs[st.c].(phase := Moved(s, st).phase))
  {
    var t := s.txs[st.c];
    var u := t.(phase := Moved(s, st).phase);
    assert TxOk(s.db, t);
    if st.Prune? {
      PrunedIsPrune(s.db.items, t);
      assert WritesOk(s.db.items, u, 0, u.phase.writes) by { SameWrites(s.db.items, t, u, 0, u.phase.writes); }
    }
    if st.WriteItem? {
      WriteIsPut(s.db.items, t, t.phase.n, t.phase.writes);
      SameWrites(s.db.items, t, u, u.phase.n, u.phase.writes);
    }
  }

  lemma SameWrites(items: map<Id, Item>, t: Tx, u: Tx, n: nat, writes: map<Id, Option<Item>>)
    requires u == t.(phase := u.phase) && WritesOk(items, t, n, writes)
    ensures WritesOk(items, u, n, writes)
  {
  }

  lemma MoveKeepsLocks(s: State, st: Step)
    requires LocksOk(s.txs) && Enabled(s, st)
    requires st.ReadOrder? || st.PutExecution? || st.Check? || st.Prune? || st.WriteItem?
    requires Moved(s, st).Go?
    ensures LocksOk(s.txs[st.c := s.txs[st.c].(phase := Moved(s, st).phase)])
  {
  }

  // === A commit, seen by the other transactions ===============================

  /** Tables that differ only outside `its` give PutItems the same outcome on `its`. */
  lemma {:induction false} PutItemsElsewhere(m: map<Id, Item>, m': map<Id, Item>, e: Id, its: seq<ItemInput>)
    requires forall i | i in ItemIds(its) :: (i in m <==> i in m') && (i in m ==> m[i] == m'[i])
    requires PutItems(m, e, its).Some?
    ensures PutItems(m', e, its).Some?
    ensures var r, r' := PutItems(m, e, its).value, PutItems(m', e, its).value;
            && (forall i | i in ItemIds(its) :: i in r && i in r' && r[i] == r'[i])
            && (forall i | i !in ItemIds(its) :: (i in r' <==> i in m') && (i in r' ==> r'[i] == m'[i]))
            && (forall i | i !in ItemIds(its) :: (i in r <==> i in m) && (i in r ==> r[i] == m[i]))
  {
    if its != [] {
      var n := |its| - 1;
      assert its == its[..n] + [its[n]];
      assert ItemIds(its) == ItemIds(its[..n]) + {its[n].id};
      PutItemsElsewhere(m, m', e, its[..n]);
    }
  }

  /** Another transaction's effect on the item table: rows we have not written, of executions
      that are not ours. */
  ghost predicate Foreign(items: map<Id, Item>, items': map<Id, Item>, e: Id, touched: set<Id>) {
    forall i | i in items.Keys + items'.Keys ::
      (i in items && i in items' && items[i] == items'[i])
      || (i !in touched && (i in items ==> items[i].exec != e) && (i in items' ==> items'[i].exec != e))
  }

  lemma WritesSurvive(items: map<Id, Item>, items': map<Id, Item>, t: Tx, n: nat, writes: map<Id, Option<Item>>)
    requires WritesOk(items, t, n, writes) && Foreign(items, items', t.id, writes.Keys)
    ensures WritesOk(items', t, n, writes)
  {
    var keep, its := ItemIds(t.snap.items), t.snap.items[..n];
    var m, m' := PruneItems(items, t.id, keep), PruneItems(items', t.id, keep);
    forall i | i in ItemIds(its) ensures (i in m <==> i in m') && (i in m ==> m[i] == m'[i]) {
      assert i in writes.Keys;
    }
    PutItemsElsewhere(m, m', t.id, its);
    var r, r' := PutItems(m, t.id, its).value, PutItems(m', t.id, its).value;
    assert r == Overlay(items, writes);
    forall i ensures (i in r' <==> i in Overlay(items', writes)) && (i in r' ==> r'[i] == Overlay(items', writes)[i]) {
      SurvivesAt(items, items', t, n, writes, i);
    }
    assert r' == Overlay(items', writes);
    forall i | i in writes ensures OwnWrite(items', t.id, i, writes[i]) {
      assert OwnWrite(items, t.id, i, writes[i]);
    }
  }

  lemma SurvivesAt(items: map<Id, Item>, items': map<Id, Item>, t: Tx, n: nat, writes: map<Id, Option<Item>>, i: Id)
    requires WritesOk(items, t, n, writes) && Foreign(items, items', t.id, writes.Keys)
    requires PutItems(PruneItems(items', t.id, ItemIds(t.snap.items)), t.id, t.snap.items[..n]).Some?
    requires forall i | i in ItemIds(t.snap.items[..n]) ::
               var m, m' := PruneItems(items, t.id, ItemIds(t.snap.items)), PruneItems(items', t.id, ItemIds(t.snap.items));
               (i in m <==> i in m') && (i in m ==> m[i] == m'[i])
    ensures var r' := PutItems(PruneItems(items', t.id, ItemIds(t.snap.items)), t.id, t.snap.items[..n]).value;
            (i in r' <==> i in Overlay(items', writes)) && (i in r' ==> r'[i] == Overlay(items', writes)[i])
  {
    var keep, its := ItemIds(t.snap.items), t.snap.items[..n];
    var m, m' := PruneItems(items, t.id, keep), PruneItems(items', t.id, keep);
    PutItemsElsewhere(m, m', t.id, its);
    var r := PutItems(m, t.id, its).value;
    assert i in r <==> i in Overlay(items, writes);
    if i in writes {
      assert OwnWrite(items, t.id, i, writes[i]);
    }
  }

  lemma CommitIsForeign(items: map<Id, Item>, t: Tx, u: Tx)
    requires t.phase.Writing? && WritesOk(items, t, t.phase.n, t.phase.writes)
    requires t.id != u.id && t.phase.writes.Keys !! Written(u).Keys
    ensures Foreign(items, Overlay(items, t.phase.writes), u.id, Written(u).Keys)
  {
  }

  lemma CommitKeepsOther(db: Db, t: Tx, u: Tx)
    requires TxOk(db, t) && TxOk(db, u) && t.phase.Writing? && t.phase.n == |t.snap.items| && Compatible(t, u)
    ensures t.snap.order in db.orders && TxOk(CommitDb(db, t), u)
  {
    var db' := CommitDb(db, t);
    if !u.phase.Begun? { assert t.snap.order != u.snap.order; }
    if HoldsExec(u, u.id) { assert t.id != u.id; }
    if u.phase.Checked? || u.phase.Writing? {
      assert TemplatesOk(db', u.tenant, u.phase.version, u.snap.items);
    }
    if u.phase.Writing? {
      CommitIsForeign(db.items, t, u);
      WritesSurvive(db.items, db'.items, u, u.phase.n, u.phase.writes);
    }
  }

  lemma OthersKeep(s: State, db: Db, c: Id)
    requires OthersMay(s, db) && c in s.txs && TxOk(s.db, s.txs[c])
    ensures TxOk(db, s.txs[c])
  {
  }

  // === Runs ===================================================================

  /** A committing transaction still holds its order row. */
  lemma CommitHasOrder(s: State, st: Step)
    requires Inv(s) && Enabled(s, st) && st.Commit?
    ensures s.txs[st.c].snap.order in s.db.orders
  {
  }

  ghost predicate Next(s: State, s': State) {
    exists st :: Enabled(s, st) && (st.Commit? ==> s.txs[st.c].snap.order in s.db.orders) && s' == Apply(s, st)
  }

  ghost predicate StepAt(b: seq<State>, i: int)
    requires 0 < i < |b|
  {
    Next(b[i - 1], b[i])
  }

  /** Any number of transactions, statements and aborts interleaved in any way, from any
      database nobody is upserting into. */
  ghost predicate IsRun(b: seq<State>) {
    && |b| > 0 && b[0].txs == map[]
    && forall i | 0 < i < |b| :: StepAt(b, i)
  }

  lemma StepKeepsInv(s: State, st: Step)
    requires Inv(s) && Enabled(s, st)
    ensures st.Commit? ==> s.txs[st.c].snap.order in s.db.orders
    ensures Inv(Apply(s, st))
  {
    match st
    case Begin(c, tx) => {}
    case Rollback(c) => {}
    case Others(db) => forall c | c in s.txs { OthersKeep(s, db, c); }
    case Commit(c) =>
      CommitHasOrder(s, st);
      forall d | d in s.txs && d != c ensures TxOk(CommitDb(s.db, s.txs[c]), s.txs[d]) {
        assert Compatible(s.txs[c], s.txs[d]);
        CommitKeepsOther(s.db, s.txs[c], s.txs[d]);
      }
    case _ =>
      if Moved(s, st).Go? {
        MovedIsOk(s, st);
        MoveKeepsLocks(s, st);
      }
  }

  lemma {:induction false} RunKeepsInv(b: seq<State>, i: nat)
    requires IsRun(b) && i < |b|
    ensures Inv(b[i])
  {
    if i > 0 {
      RunKeepsInv(b, i - 1);
      assert StepAt(b, i);
      var st :| Enabled(b[i - 1], st) && (st.Commit? ==> b[i - 1].txs[st.c].snap.order in b[i - 1].db.orders)
                && b[i] == Apply(b[i - 1], st);
      StepKeepsInv(b[i - 1], st);
    }
  }

  function UpsertOf(db: Db, t: Tx): Result<Db> {
    Upsert(db, t.tenant, t.worker, t.id, t.snap, t.now)
  }

  lemma CommitIsUpsert(db: Db, t: Tx)
    requires TxOk(db, t) && t.phase.Writing? && t.phase.n == |t.snap.items|
    ensures t.snap.order in db.orders && UpsertOf(db, t) == Ok(CommitDb(db, t))
  {
    assert t.snap.items[..t.phase.n] == t.snap.items;
    var execs := PutExec(db.execs, t.id, t.tenant, t.worker, t.snap, t.now);
    assert execs == db.execs[t.id := t.phase.row];
  }

  /** However its statements were interleaved with others, a transaction commits exactly what
      Upsert makes of the database as it is when it commits. */
  lemma CommitsAreAtomic(b: seq<State>, i: nat, c: Id)
    requires IsRun(b) && i < |b| && Enabled(b[i], Commit(c))
    ensures b[i].txs[c].snap.order in b[i].db.orders
    ensures UpsertOf(b[i].db, b[i].txs[c]) == Ok(Apply(b[i], Commit(c)).db)
  {
    RunKeepsInv(b, i);
    assert TxOk(b[i].db, b[i].txs[c]);
    CommitIsUpsert(b[i].db, b[i].txs[c]);
  }

  lemma RefusalIsUpserts(s: State, st: Step)
    requires Inv(s) && Enabled(s, st)
    requires st.ReadOrder? || st.PutExecution? || st.Check? || st.Prune? || st.WriteItem?
    requires Moved(s, st).Refuse?
    ensures UpsertOf(s.db, s.txs[st.c]) == Err(Moved(s, st).error)
  {
    var db, t := s.db, s.txs[st.c];
    assert TxOk(db, t);
    if st.WriteItem? {
      var n := t.phase.n;
      assert t.snap.items[..n + 1][..n] == t.snap.items[..n];
      PutItemsPrefix(PruneItems(db.items, t.id, ItemIds(t.snap.items)), t.id, t.snap.items, n + 1);
    }
  }

  /** A refusal, at whatever statement, is the one Upsert gives on the database of that moment. */
  lemma RefusalsAreAtomic(b: seq<State>, i: nat, st: Step)
    requires IsRun(b) && i < |b| && Enabled(b[i], st)
    requires st.ReadOrder? || st.PutExecution? || st.Check? || st.Prune? || st.WriteItem?
    requires Moved(b[i], st).Refuse?
    ensures UpsertOf(b[i].db, b[i].txs[st.c]) == Err(Moved(b[i], st).error)
    ensures Apply(b[i], st).db == b[i].db
  {
    RunKeepsInv(b, i);
    RefusalIsUpserts(b[i], st);
  }
}
