/**
 The evidence system with every upsert run statement by statement. Each of its runs is, step for
 step or standing still, a run of EvidenceSystem, where what follows the order lock is one step:
 so what holds in every state EvidenceSystem can reach holds in every state here.
*/
module UpsertSimulation {
  import opened Options
  import opened Tables
  import opened EvidenceState
  import opened EvidenceSystem
  import A = AdminSteps
  import U = UpsertSteps
  import P = PhotoSteps
  import T = UpsertTransactions

  /** How far a call that holds its order has got, and the server time of its transaction. */
  datatype Mark = Mark(now: Time, phase: T.Phase)

  datatype Fine = Fine(s: State, marks: map<Id, Mark>)

  function TxOf(k: UpsertCall, m: Mark): T.Tx {
    T.Tx(k.tenant, k.worker, k.id, k.snap, m.now, m.phase)
  }

  /** The open transactions, as UpsertTransactions sees them. */
  function Txs(upserts: map<Id, UpsertCall>, marks: map<Id, Mark>): map<Id, T.Tx> {
    map c | c in marks && c in upserts :: TxOf(upserts[c], marks[c])
  }

  function Open(f: Fine): T.State {
    T.State(f.s.db, Txs(f.s.upserts, f.marks))
  }

  datatype FineStep =
    | Other(st: Step)                 // a staff, operator or photo step, a gate, an abort
    | Lock(c: Id, now: Time)          // GetWorkOrderForWorker
    | Statement(t: T.Step)            // one of the statements after it
    | Commit(c: Id)

  predicate IsOther(st: Step) {
    !(st.Worker? && (st.w.Lock? || st.w.Finish?))
  }

  predicate IsStatement(t: T.Step) {
    t.PutExecution? || t.Check? || t.Prune? || t.WriteItem?
  }

  predicate FineEnabled(f: Fine, fs: FineStep) {
    match fs
    case Other(st) => IsOther(st) && Enabled(f.s, st)
    case Lock(c, now) => U.Enabled(f.s, U.Lock(c))
    case Statement(t) => IsStatement(t) && T.Enabled(Open(f), t)
    case Commit(c) => T.Enabled(Open(f), T.Commit(c)) && f.s.upserts[c].snap.order in f.s.db.orders
  }

  function FineApply(f: Fine, fs: FineStep): Fine
    requires FineEnabled(f, fs)
  {
    match fs
    case Other(st) => Fine(Apply(f.s, st), if st.Worker? && st.w.Abort? then f.marks - {st.w.c} else f.marks)
    case Lock(c, now) =>
      var s' := U.Apply(f.s, U.Lock(c));
      Fine(s', if c in s'.upserts then f.marks[c := Mark(now, T.OrderRead(f.s.db.orders[f.s.upserts[c].snap.order].version))]
               else f.marks)
    case Statement(t) =>
      var m := T.Moved(Open(f), t);
      if m.Go? then f.(marks := f.marks[t.c := f.marks[t.c].(phase := m.phase)])
      else Fine(f.s.(upserts := f.s.upserts - {t.c}), f.marks - {t.c})
    case Commit(c) =>
      var k, m := f.s.upserts[c], f.marks[c];
      Fine(f.s.(db := T.CommitDb(f.s.db, TxOf(k, m)), upserts := f.s.upserts - {c},
                history := U.AddAccepted(f.s.history, k.id, k.snap, m.now)),
           f.marks - {c})
  }

  /** The calls with a mark are those that hold their order, and their reads and writes are good. */
  ghost predicate MarksOk(upserts: map<Id, UpsertCall>, marks: map<Id, Mark>) {
    && marks.Keys <= upserts.Keys
    && (forall c | c in upserts :: upserts[c].locked <==> c in marks)
    && (forall c | c in marks :: !marks[c].phase.Begun?)
  }

  ghost predicate FineInv(f: Fine) {
    MarksOk(f.s.upserts, f.marks) && T.Inv(Open(f))
  }

  // === Everything else is among what UpsertTransactions lets others do =========

  lemma PatchIsOthers(f: Fine, a: A.AdminStep)
    requires MarksOk(f.s.upserts, f.marks) && A.Enabled(f.s, a) && (a.Patch? || a.Sweep?)
    ensures T.OthersMay(Open(f), A.Apply(f.s, a).db)
  {
  }

  lemma AdminIsOthers(f: Fine, a: A.AdminStep)
    requires MarksOk(f.s.upserts, f.marks) && A.Enabled(f.s, a)
    ensures T.OthersMay(Open(f), A.Apply(f.s, a).db)
    ensures A.Apply(f.s, a).upserts == f.s.upserts
  {
    match a
    case CreateOrders(tenant, batch) => InsertOrdersRows(f.s.db.orders, tenant, batch);
    case Patch(_, _, _, _) => PatchIsOthers(f, a);
    case Sweep(_, _) => PatchIsOthers(f, a);
    case _ =>
  }

  lemma PhotoIsOthers(f: Fine, p: P.PhotoStep)
    requires P.Enabled(f.s, p)
    ensures T.OthersMay(Open(f), P.Apply(f.s, p).db)
    ensures P.Apply(f.s, p).upserts == f.s.upserts
  {
    P.PhotoStepShape(f.s, p);
  }

  // === One step ===============================================================

  /** The step stands still in the coarse system or is one of its steps. */
  ghost predicate Simulated(s: State, s': State) {
    s' == s || Next(s, s')
  }

  lemma OtherIsSimulated(f: Fine, st: Step)
    requires FineInv(f) && FineEnabled(f, Other(st))
    ensures FineInv(FineApply(f, Other(st))) && Simulated(f.s, FineApply(f, Other(st)).s)
  {
    var f' := FineApply(f, Other(st));
    match st
    case Admin(a) =>
      AdminIsOthers(f, a);
      T.StepKeepsInv(Open(f), T.Others(f'.s.db));
    case Photos(p) =>
      PhotoIsOthers(f, p);
      T.StepKeepsInv(Open(f), T.Others(f'.s.db));
    case Worker(w) => CallStepIsSimulated(f, w);
  }

  lemma CallStepIsSimulated(f: Fine, w: U.UpsertStep)
    requires FineInv(f) && U.Enabled(f.s, w) && (w.Gate? || w.Abort?)
    ensures FineInv(FineApply(f, Other(Step.Worker(w))))
  {
    if w.Gate? {
      GateKeepsTxs(f, w);
    } else if w.c in f.marks {
      T.StepKeepsInv(Open(f), T.Rollback(w.c));
      WithoutCall(f.s.upserts, f.marks, w.c);
    } else {
      WithoutCall(f.s.upserts, f.marks, w.c);
      assert f.marks - {w.c} == f.marks;
    }
  }

  lemma GateKeepsTxs(f: Fine, w: U.UpsertStep)
    requires MarksOk(f.s.upserts, f.marks) && U.Enabled(f.s, w) && w.Gate?
    ensures U.Apply(f.s, w).db == f.s.db && MarksOk(U.Apply(f.s, w).upserts, f.marks)
    ensures Txs(U.Apply(f.s, w).upserts, f.marks) == Txs(f.s.upserts, f.marks)
  {
  }

  lemma WithoutCall(upserts: map<Id, UpsertCall>, marks: map<Id, Mark>, c: Id)
    requires MarksOk(upserts, marks)
    ensures MarksOk(upserts - {c}, marks - {c}) && Txs(upserts - {c}, marks - {c}) == Txs(upserts, marks) - {c}
  {
  }

  lemma WithMark(upserts: map<Id, UpsertCall>, marks: map<Id, Mark>, c: Id, k: UpsertCall, m: Mark)
    requires MarksOk(upserts, marks) && c in upserts && k.locked && !m.phase.Begun?
    ensures MarksOk(upserts[c := k], marks[c := m])
    ensures Txs(upserts[c := k], marks[c := m]) == Txs(upserts, marks)[c := TxOf(k, m)]
  {
  }

  lemma OrderIsFree(f: Fine, c: Id)
    requires MarksOk(f.s.upserts, f.marks) && U.Enabled(f.s, U.Lock(c))
    ensures T.OrderFree(Txs(f.s.upserts, f.marks), c, f.s.upserts[c].snap.order)
  {
  }

  /** A transaction begins and reads its order. */
  lemma BeginsAndReads(t: T.State, c: Id, tx: T.Tx)
    requires T.Inv(t) && c !in t.txs && tx.phase.Begun? && T.OrderFree(t.txs, c, tx.snap.order)
    requires AssignedTo(t.db, tx.tenant, tx.worker, tx.snap.order)
    ensures T.Inv(t.(txs := t.txs[c := tx.(phase := T.OrderRead(t.db.orders[tx.snap.order].version))]))
  {
    T.StepKeepsInv(t, T.Begin(c, tx));
    var t1 := T.Apply(t, T.Begin(c, tx));
    T.StepKeepsInv(t1, T.ReadOrder(c));
    assert t1.txs[c := tx.(phase := T.OrderRead(t.db.orders[tx.snap.order].version))]
        == t.txs[c := tx.(phase := T.OrderRead(t.db.orders[tx.snap.order].version))];
  }

  lemma LockKeepsInv(f: Fine, c: Id, now: Time)
    requires FineInv(f) && FineEnabled(f, Lock(c, now))
    ensures FineInv(FineApply(f, Lock(c, now)))
  {
    var k := f.s.upserts[c];
    if AssignedTo(f.s.db, k.tenant, k.worker, k.snap.order) {
      var version := f.s.db.orders[k.snap.order].version;
      OrderIsFree(f, c);
      BeginsAndReads(Open(f), c, TxOf(k, Mark(now, T.Begun)));
      WithMark(f.s.upserts, f.marks, c, k.(locked := true), Mark(now, T.OrderRead(version)));
    } else {
      WithoutCall(f.s.upserts, f.marks, c);
      assert f.marks - {c} == f.marks && Txs(f.s.upserts, f.marks) - {c} == Txs(f.s.upserts, f.marks);
    }
  }

  lemma LockIsSimulated(f: Fine, c: Id, now: Time)
    requires FineInv(f) && FineEnabled(f, Lock(c, now))
    ensures FineInv(FineApply(f, Lock(c, now))) && Next(f.s, FineApply(f, Lock(c, now)).s)
  {
    LockKeepsInv(f, c, now);
    assert Enabled(f.s, Step.Worker(U.Lock(c))) && FineApply(f, Lock(c, now)).s == Apply(f.s, Step.Worker(U.Lock(c)));
  }

  /** A statement that goes on changes nothing another transaction can see. */
  lemma MoveStandsStill(f: Fine, t: T.Step)
    requires FineInv(f) && FineEnabled(f, Statement(t)) && T.Moved(Open(f), t).Go?
    ensures FineInv(FineApply(f, Statement(t))) && FineApply(f, Statement(t)).s == f.s
  {
    var c, m := t.c, f.marks[t.c].(phase := T.Moved(Open(f), t).phase);
    T.StepKeepsInv(Open(f), t);
    WithMark(f.s.upserts, f.marks, c, f.s.upserts[c], m);
    assert f.s.upserts[c := f.s.upserts[c]] == f.s.upserts;
  }

  /** One that refuses is the refusal of the whole rest. */
  lemma RefusalIsFinish(f: Fine, t: T.Step)
    requires FineInv(f) && FineEnabled(f, Statement(t)) && T.Moved(Open(f), t).Refuse?
    ensures FineInv(FineApply(f, Statement(t))) && Next(f.s, FineApply(f, Statement(t)).s)
  {
    var c := t.c;
    T.StepKeepsInv(Open(f), t);
    WithoutCall(f.s.upserts, f.marks, c);
    T.RefusalIsUpserts(Open(f), t);
    RefusedFinish(f.s, c, f.marks[c].now);
  }

  lemma RefusedFinish(s: State, c: Id, now: Time)
    requires c in s.upserts && s.upserts[c].locked && U.Outcome(s, c, now).Err?
    ensures Next(s, s.(upserts := s.upserts - {c}))
  {
    var finish := Step.Worker(U.Finish(c, now));
    assert Enabled(s, finish) && s.(upserts := s.upserts - {c}) == Apply(s, finish);
  }

  lemma AcceptedFinish(s: State, c: Id, now: Time, db: Db)
    requires c in s.upserts && s.upserts[c].locked && U.Outcome(s, c, now) == Ok(db)
    ensures var k := s.upserts[c];
            Next(s, s.(db := db, upserts := s.upserts - {c}, history := U.AddAccepted(s.history, k.id, k.snap, now)))
  {
    var k, finish := s.upserts[c], Step.Worker(U.Finish(c, now));
    assert Enabled(s, finish);
    assert s.(db := db, upserts := s.upserts - {c}, history := U.AddAccepted(s.history, k.id, k.snap, now)) == Apply(s, finish);
  }

  lemma CommitIsFinish(f: Fine, c: Id)
    requires FineInv(f) && FineEnabled(f, Commit(c))
    ensures FineInv(FineApply(f, Commit(c))) && Next(f.s, FineApply(f, Commit(c)).s)
  {
    var k, m := f.s.upserts[c], f.marks[c];
    T.StepKeepsInv(Open(f), T.Commit(c));
    WithoutCall(f.s.upserts, f.marks, c);
    assert T.TxOk(f.s.db, Open(f).txs[c]);
    T.CommitIsUpsert(f.s.db, TxOf(k, m));
    AcceptedFinish(f.s, c, m.now, T.CommitDb(f.s.db, TxOf(k, m)));
  }

  lemma StepIsSimulated(f: Fine, fs: FineStep)
    requires FineInv(f) && FineEnabled(f, fs)
    ensures FineInv(FineApply(f, fs)) && Simulated(f.s, FineApply(f, fs).s)
  {
    match fs
    case Other(st) => OtherIsSimulated(f, st);
    case Lock(c, now) => LockIsSimulated(f, c, now);
    case Statement(t) => if T.Moved(Open(f), t).Go? { MoveStandsStill(f, t); } else { RefusalIsFinish(f, t); }
    case Commit(c) => CommitIsFinish(f, c);
  }

  // === Runs ===================================================================

  ghost predicate FineNext(f: Fine, f': Fine) {
    exists fs :: FineEnabled(f, fs) && f' == FineApply(f, fs)
  }

  ghost predicate FineStepAt(r: seq<Fine>, i: int)
    requires 0 < i < |r|
  {
    FineNext(r[i - 1], r[i])
  }

  ghost predicate IsFineRun(r: seq<Fine>) {
    && |r| > 0 && r[0] == Fine(Empty(), map[])
    && forall i | 0 < i < |r| :: FineStepAt(r, i)
  }

  /** The states of `r` appear in `b`, in order, at the places `at`. */
  ghost predicate Embeds(r: seq<Fine>, b: seq<State>, at: seq<nat>) {
    && |at| == |r| && (forall i | 0 <= i < |r| :: at[i] < |b| && b[at[i]] == r[i].s)
    && (forall i, j | 0 <= i <= j < |r| :: at[i] <= at[j])
  }

  lemma NextIsSimulated(f: Fine, f': Fine)
    requires FineInv(f) && FineNext(f, f')
    ensures FineInv(f') && Simulated(f.s, f'.s)
  {
    var fs :| FineEnabled(f, fs) && f' == FineApply(f, fs);
    StepIsSimulated(f, fs);
  }

  lemma {:induction false} FineRunKeepsInv(r: seq<Fine>, i: nat)
    requires IsFineRun(r) && i < |r|
    ensures FineInv(r[i])
  {
    if i > 0 {
      FineRunKeepsInv(r, i - 1);
      assert FineStepAt(r, i);
      NextIsSimulated(r[i - 1], r[i]);
    }
  }

  /** Every run of the statements is, up to standing still, a run of the coarse system. */
  lemma {:induction false} StatementRunsAreRuns(r: seq<Fine>, n: nat) returns (b: seq<State>, at: seq<nat>)
    requires IsFineRun(r) && 0 < n <= |r|
    ensures IsRun(b) && Embeds(r[..n], b, at) && at[n - 1] == |b| - 1
    decreases n
  {
    if n == 1 {
      b, at := [Empty()], [0];
    } else {
      b, at := StatementRunsAreRuns(r, n - 1);
      assert r[..n] == r[..n - 1] + [r[n - 1]] && b[|b| - 1] == r[n - 2].s;
      FineRunKeepsInv(r, n - 2);
      assert FineStepAt(r, n - 1);
      NextIsSimulated(r[n - 2], r[n - 1]);
      b, at := EmbedsOneMore(r[..n - 1], b, at, r[n - 1]);
    }
  }

  lemma EmbedsOneMore(r: seq<Fine>, b: seq<State>, at: seq<nat>, f: Fine) returns (b': seq<State>, at': seq<nat>)
    requires IsRun(b) && r != [] && Embeds(r, b, at) && at[|r| - 1] == |b| - 1 && Simulated(b[|b| - 1], f.s)
    ensures IsRun(b') && Embeds(r + [f], b', at') && at'[|r|] == |b'| - 1
  {
    if f.s == b[|b| - 1] {
      b', at' := b, at + [|b| - 1];
    } else {
      NextExtends(b, f.s);
      b', at' := b + [f.s], at + [|b|];
    }
  }

  lemma NextExtends(b: seq<State>, s: State)
    requires IsRun(b) && Next(b[|b| - 1], s)
    ensures IsRun(b + [s])
  {
    forall i | 0 < i < |b| + 1 ensures StepAt(b + [s], i) {
      if i < |b| { assert StepAt(b, i); }
    }
  }
}
