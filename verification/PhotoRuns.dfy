/** What lies behind each URL, confirm and deletion of a run, however the calls interleave. */
module PhotoRuns {
  import opened Options
  import opened Tables
  import opened EvidenceState
  import opened EvidenceStore
  import E = EvidenceSystem
  import P = PhotoSteps

  /** The run's step from state i is this one. */
  ghost predicate Took(b: seq<State>, i: nat, st: P.PhotoStep) {
    i + 1 < |b| && P.Enabled(b[i], st) && b[i + 1] == P.Apply(b[i], st)
  }

  // === Presign ================================================================

  /** The call began with this request, and later, in one state, its worker might write for the
      execution. */
  ghost predicate PresignPassed(b: seq<State>, c: Id, t: Id, w: Id, p: Id, e: Id, kind: PhotoKind, i: nat, j: nat) {
    i < j < |b| && Took(b, i, P.PresignLoad(c, t, w, p, e, kind)) && MayWrite(b[j].db, t, w, e)
  }

  /** The photo row was read back as this execution's, of this kind and unconfirmed, too. */
  ghost predicate PresignChecked(b: seq<State>, c: Id, t: Id, w: Id, p: Id, e: Id, kind: PhotoKind, i: nat, j: nat, m: nat) {
    PresignPassed(b, c, t, w, p, e, kind, i, j) && j < m < |b| && IsUnconfirmed(b[m].db.photos, p, t, e, kind)
  }

  // === Confirm ================================================================

  /** The call began with this request, when the photo's row named the execution and the key; and
      later, in one state, its worker might write for the execution. */
  ghost predicate ConfirmBegan(b: seq<State>, c: Id, t: Id, w: Id, p: Id, e: Id, key: S3Key, i: nat) {
    && Took(b, i, P.ConfirmLoad(c, t, w, p))
    && p in b[i].db.photos && b[i].db.photos[p].tenant == t && b[i].db.photos[p].exec == e && b[i].db.photos[p].key == key
  }

  ghost predicate ConfirmPassed(b: seq<State>, c: Id, t: Id, w: Id, p: Id, e: Id, key: S3Key, i: nat, j: nat) {
    i < j < |b| && ConfirmBegan(b, c, t, w, p, e, key, i) && MayWrite(b[j].db, t, w, e)
  }

  // === Collection =============================================================

  /** The row was unconfirmed and older than the cutoff when it was listed. */
  ghost predicate Collectable(b: seq<State>, c: Id, p: Id, key: S3Key, cutoff: Time, i: nat) {
    && Took(b, i, P.GcList(c, p, cutoff))
    && p in b[i].db.photos && b[i].db.photos[p].uploadedAt.None? && b[i].db.photos[p].createdAt < cutoff && b[i].db.photos[p].key == key
  }

  /** And the store had nothing under its key when it was asked. */
  ghost predicate FoundAbsent(b: seq<State>, c: Id, p: Id, key: S3Key, cutoff: Time, i: nat, j: nat) {
    i < j < |b| && Collectable(b, c, p, key, cutoff, i) && key !in b[j].store
  }

  // === Every open call has its past ===========================================

  /** What the owner check read still holds: the execution is the worker's, and a completion that
      was read is the stored one. */
  ghost predicate StillOwned(execs: map<Id, Exec>, t: Id, w: Id, e: Id, device: Option<Time>) {
    e in execs && execs[e].tenant == t && execs[e].worker == w && (device.Some? ==> execs[e].deviceFinishedAt == device)
  }

  ghost predicate Past(b: seq<State>, n: nat, c: Id, k: PhotoCall)
    requires n < |b|
  {
    match k
    case PresignLoaded(t, w, p, e, kind, device) =>
      StillOwned(b[n].db.execs, t, w, e, device) && exists i: nat :: i < n && Took(b, i, P.PresignLoad(c, t, w, p, e, kind))
    case PresignAllowed(t, w, p, e, kind) => exists i: nat, j: nat :: j < n && PresignPassed(b, c, t, w, p, e, kind, i, j)
    case PresignInserted(t, w, p, e, kind) => exists i: nat, j: nat :: j < n && PresignPassed(b, c, t, w, p, e, kind, i, j)
    case PresignVerified(t, w, p, e, kind) =>
      exists i: nat, j: nat, m: nat :: m < n && PresignChecked(b, c, t, w, p, e, kind, i, j, m)
    case ConfirmLoaded(t, w, p, row) => exists i: nat :: i < n && ConfirmBegan(b, c, t, w, p, row.exec, row.key, i)
    case ConfirmOwned(t, w, p, e, key, device) =>
      StillOwned(b[n].db.execs, t, w, e, device) && exists i: nat :: i < n && ConfirmBegan(b, c, t, w, p, e, key, i)
    case ConfirmAllowed(t, w, p, e, key) => exists i: nat, j: nat :: j < n && ConfirmPassed(b, c, t, w, p, e, key, i, j)
    case ConfirmSeen(t, w, p, e, key) =>
      key in b[n].store && exists i: nat, j: nat :: j < n && ConfirmPassed(b, c, t, w, p, e, key, i, j)
    case GcListed(p, key, cutoff) => exists i: nat :: i < n && Collectable(b, c, p, key, cutoff, i)
    case GcAbsent(p, key, cutoff) => exists i: nat, j: nat :: j < n && FoundAbsent(b, c, p, key, cutoff, i, j)
  }

  /** A past stays one while the call waits. */
  lemma PastStays(b: seq<State>, n: nat, c: Id, k: PhotoCall)
    requires n + 1 < |b| && Past(b, n, c, k) && ExecsGrow(b[n].db.execs, b[n + 1].db.execs) && b[n].store.Keys <= b[n + 1].store.Keys
    ensures Past(b, n + 1, c, k)
  {
  }

  /** An open gate and an own execution, read in that order or the other, are both there when the
      gate is read. */
  lemma GateMeansMayWrite(db: Db, t: Id, w: Id, e: Id, device: Option<Time>)
    requires StillOwned(db.execs, t, w, e, device) && t in db.tenants && GateAllows(db.tenants[t].suspendedAt, device)
    ensures MayWrite(db, t, w, e)
  {
  }

  lemma PresignBegins(b: seq<State>, n: nat, st: P.PhotoStep)
    requires Took(b, n, st) && (st.PresignLoad? || st.PresignGate?)
    requires st.c in b[n].photoCalls ==> Past(b, n, st.c, b[n].photoCalls[st.c])
    ensures st.c in b[n + 1].photoCalls ==> Past(b, n + 1, st.c, b[n + 1].photoCalls[st.c]) || b[n + 1] == b[n]
  {
    var c := st.c;
    match st {
      case PresignLoad(_, t, w, p, e, kind) =>
      case PresignGate(_) =>
        var k := b[n].photoCalls[c];
        if GateAllows(b[n].db.tenants[k.tenant].suspendedAt, k.device) {
          GateMeansMayWrite(b[n].db, k.tenant, k.worker, k.exec, k.device);
          var i: nat :| i < n && Took(b, i, P.PresignLoad(c, k.tenant, k.worker, k.photo, k.exec, k.kind));
          assert PresignPassed(b, c, k.tenant, k.worker, k.photo, k.exec, k.kind, i, n);
        }
    }
  }

  lemma PresignGoesOn(b: seq<State>, n: nat, st: P.PhotoStep)
    requires Took(b, n, st) && (st.PresignInsert? || st.PresignVerify?)
    requires st.c in b[n].photoCalls ==> Past(b, n, st.c, b[n].photoCalls[st.c])
    ensures st.c in b[n + 1].photoCalls ==> Past(b, n + 1, st.c, b[n + 1].photoCalls[st.c])
  {
    var c, k := st.c, b[n].photoCalls[st.c];
    var i: nat, j: nat :| j < n && PresignPassed(b, c, k.tenant, k.worker, k.photo, k.exec, k.kind, i, j);
    assert PresignPassed(b, c, k.tenant, k.worker, k.photo, k.exec, k.kind, i, j);
    if st.PresignVerify? && PresignStands(b[n].db.photos, k.photo, k.tenant, k.exec, k.kind) {
      assert PresignChecked(b, c, k.tenant, k.worker, k.photo, k.exec, k.kind, i, j, n);
    }
  }

  lemma ConfirmBegins(b: seq<State>, n: nat, st: P.PhotoStep)
    requires Took(b, n, st) && (st.ConfirmLoad? || st.ConfirmOwn?)
    requires st.c in b[n].photoCalls ==> Past(b, n, st.c, b[n].photoCalls[st.c])
    ensures st.c in b[n + 1].photoCalls ==> Past(b, n + 1, st.c, b[n + 1].photoCalls[st.c]) || b[n + 1] == b[n]
  {
    var c := st.c;
    match st {
      case ConfirmLoad(_, t, w, p) =>
        if p in b[n].db.photos && b[n].db.photos[p].tenant == t {
          assert ConfirmBegan(b, c, t, w, p, b[n].db.photos[p].exec, b[n].db.photos[p].key, n);
        }
      case ConfirmOwn(_) =>
        var k := b[n].photoCalls[c];
        var i: nat :| i < n && ConfirmBegan(b, c, k.tenant, k.worker, k.photo, k.row.exec, k.row.key, i);
        assert ConfirmBegan(b, c, k.tenant, k.worker, k.photo, k.row.exec, k.row.key, i);
    }
  }

  lemma ConfirmPasses(b: seq<State>, n: nat, st: P.PhotoStep)
    requires Took(b, n, st) && (st.ConfirmGate? || st.ConfirmExists?)
    requires st.c in b[n].photoCalls ==> Past(b, n, st.c, b[n].photoCalls[st.c])
    ensures st.c in b[n + 1].photoCalls ==> Past(b, n + 1, st.c, b[n + 1].photoCalls[st.c])
  {
    var c, k := st.c, b[n].photoCalls[st.c];
    if st.ConfirmExists? {
      var i: nat, j: nat :| j < n && ConfirmPassed(b, c, k.tenant, k.worker, k.photo, k.exec, k.key, i, j);
      assert ConfirmPassed(b, c, k.tenant, k.worker, k.photo, k.exec, k.key, i, j);
    } else if GateAllows(b[n].db.tenants[k.tenant].suspendedAt, k.device) {
      GateMeansMayWrite(b[n].db, k.tenant, k.worker, k.exec, k.device);
      var i: nat :| i < n && ConfirmBegan(b, c, k.tenant, k.worker, k.photo, k.exec, k.key, i);
      assert ConfirmPassed(b, c, k.tenant, k.worker, k.photo, k.exec, k.key, i, n);
    }
  }

  lemma CollectionGoesOn(b: seq<State>, n: nat, st: P.PhotoStep)
    requires Took(b, n, st) && (st.GcList? || st.GcExists?)
    requires st.c in b[n].photoCalls ==> Past(b, n, st.c, b[n].photoCalls[st.c])
    ensures st.c in b[n + 1].photoCalls ==> Past(b, n + 1, st.c, b[n + 1].photoCalls[st.c])
  {
    var c := st.c;
    match st {
      case GcList(_, p, cutoff) =>
        assert Collectable(b, c, p, b[n].db.photos[p].key, cutoff, n);
      case GcExists(_) =>
        var k := b[n].photoCalls[c];
        var i: nat :| i < n && Collectable(b, c, k.photo, k.key, k.cutoff, i);
        if k.key !in b[n].store { assert FoundAbsent(b, c, k.photo, k.key, k.cutoff, i, n); }
    }
  }

  /** A photo step leaves every call but its own alone. */
  lemma OthersWait(s: State, st: P.PhotoStep, c: Id)
    requires P.Enabled(s, st) && c in P.Apply(s, st).photoCalls
    ensures || (c in s.photoCalls && P.Apply(s, st).photoCalls[c] == s.photoCalls[c])
            || (!st.Expire? && !st.Upload? && st.c == c
                && (st.PresignLoad? || st.PresignGate? || st.PresignInsert? || st.PresignVerify? || st.ConfirmLoad? || st.ConfirmOwn?
                    || st.ConfirmGate? || st.ConfirmExists? || st.GcList? || st.GcExists?))
  {
  }

  lemma PhotoStepKeepsPast(b: seq<State>, n: nat, x: P.PhotoStep, c: Id)
    requires Took(b, n, x) && c in b[n + 1].photoCalls
    requires ExecsGrow(b[n].db.execs, b[n + 1].db.execs) && b[n].store.Keys <= b[n + 1].store.Keys
    requires c in b[n].photoCalls ==> Past(b, n, c, b[n].photoCalls[c])
    ensures Past(b, n + 1, c, b[n + 1].photoCalls[c])
  {
    OthersWait(b[n], x, c);
    if c in b[n].photoCalls && b[n].photoCalls[c] == b[n + 1].photoCalls[c] {
      PastStays(b, n, c, b[n].photoCalls[c]);
    } else if x.PresignLoad? || x.PresignGate? {
      PresignBegins(b, n, x);
    } else if x.PresignInsert? || x.PresignVerify? {
      PresignGoesOn(b, n, x);
    } else if x.ConfirmLoad? || x.ConfirmOwn? {
      ConfirmBegins(b, n, x);
    } else if x.ConfirmGate? || x.ConfirmExists? {
      ConfirmPasses(b, n, x);
    } else {
      CollectionGoesOn(b, n, x);
    }
  }

  ghost predicate TakesPhotoStep(s: State, s': State, x: P.PhotoStep) {
    P.Enabled(s, x) && s' == P.Apply(s, x)
  }

  lemma NextIsPhotoStepOrNone(s: State, s': State)
    requires E.Next(s, s')
    ensures E.SamePhotos(s, s') || exists x :: TakesPhotoStep(s, s', x)
  {
    var st :| E.Enabled(s, st) && s' == E.Apply(s, st);
    match st
    case Admin(a) => E.AdminLeavesPhotos(s, a);
    case Worker(w) => E.UpsertLeavesPhotos(s, w);
    case Photos(x) => assert TakesPhotoStep(s, s', x);
  }

  lemma StepKeepsPast(b: seq<State>, n: nat, c: Id)
    requires E.IsRun(b) && n + 1 < |b| && c in b[n + 1].photoCalls
    requires c in b[n].photoCalls ==> Past(b, n, c, b[n].photoCalls[c])
    ensures Past(b, n + 1, c, b[n + 1].photoCalls[c])
  {
    E.StepGrows(b, n + 1);
    assert E.StepAt(b, n + 1);
    NextIsPhotoStepOrNone(b[n], b[n + 1]);
    if E.SamePhotos(b[n], b[n + 1]) {
      PastStays(b, n, c, b[n].photoCalls[c]);
    } else {
      var x :| TakesPhotoStep(b[n], b[n + 1], x);
      PhotoStepKeepsPast(b, n, x, c);
    }
  }

  lemma {:induction false} CallHasPast(b: seq<State>, n: nat, c: Id)
    requires E.IsRun(b) && n < |b| && c in b[n].photoCalls
    ensures Past(b, n, c, b[n].photoCalls[c])
  {
    if n > 0 {
      if c in b[n - 1].photoCalls { CallHasPast(b, n - 1, c); }
      StepKeepsPast(b, n - 1, c);
    }
  }

  // === What was earned ========================================================

  /** Behind every URL lies a request of its worker, then one state in which the execution was
      theirs and the gate open, then one in which the row was this execution's, of the requested
      kind and unconfirmed. */
  lemma UrlsAreEarned(b: seq<State>, n: nat, c: Id)
    requires E.IsRun(b) && Took(b, n, P.Grant(c))
    ensures var k := b[n].photoCalls[c];
            && b[n + 1].grants == b[n].grants + {PhotoKey(k.tenant, k.photo)}
            && exists i: nat, j: nat, m: nat :: m < n && PresignChecked(b, c, k.tenant, k.worker, k.photo, k.exec, k.kind, i, j, m)
  {
    CallHasPast(b, n, c);
    var k := b[n].photoCalls[c];
    assert Past(b, n, c, k);
  }

  /** One row at most is other than before. */
  ghost predicate OnlyRow(before: map<Id, Photo>, after: map<Id, Photo>, p: Id) {
    after.Keys == before.Keys && forall q | q in before && q != p :: after[q] == before[q]
  }

  lemma ConfirmWritesOne(s: State, st: P.PhotoStep)
    requires P.Enabled(s, st) && st.ConfirmWrite?
    ensures OnlyRow(s.db.photos, P.Apply(s, st).db.photos, s.photoCalls[st.c].photo)
  {
  }

  lemma OnlyOrphansGo(s: State, st: P.PhotoStep, p: Id)
    requires P.Enabled(s, st) && p in s.db.photos && p !in P.Apply(s, st).db.photos
    ensures st.GcDelete? && s.photoCalls[st.c].GcAbsent? && s.photoCalls[st.c].photo == p && s.db.photos[p].uploadedAt.None?
  {
  }

  /** A row keeps its tenant, execution and key as long as it is there. */
  ghost predicate SameRow(p: Photo, p': Photo) {
    p'.tenant == p.tenant && p'.exec == p.exec && p'.key == p.key
  }

  lemma PhotoStepKeepsRow(s: State, st: P.PhotoStep, p: Id)
    requires P.Enabled(s, st) && p in s.db.photos && p in P.Apply(s, st).db.photos
    ensures SameRow(s.db.photos[p], P.Apply(s, st).db.photos[p])
  {
  }

  lemma RowKept(s: State, s': State, p: Id)
    requires E.Next(s, s') && p in s.db.photos && p in s'.db.photos
    ensures SameRow(s.db.photos[p], s'.db.photos[p])
  {
    NextIsPhotoStepOrNone(s, s');
    if !E.SamePhotos(s, s') {
      var x :| TakesPhotoStep(s, s', x);
      PhotoStepKeepsRow(s, x, p);
    }
  }

  ghost predicate Present(b: seq<State>, i: nat, n: nat, p: Id) {
    n < |b| && forall m | i <= m <= n :: p in b[m].db.photos
  }

  lemma {:induction false} RowStays(b: seq<State>, i: nat, n: nat, p: Id)
    requires E.IsRun(b) && i <= n && Present(b, i, n, p)
    ensures SameRow(b[i].db.photos[p], b[n].db.photos[p])
    decreases n
  {
    if i < n {
      RowStays(b, i, n - 1, p);
      assert E.StepAt(b, n);
      RowKept(b[n - 1], b[n], p);
    }
  }

  /** Behind every confirm's write lies a request of its worker for a photo of an execution, then
      one state in which that was theirs and the gate open; and the object is in the store. No
      other photo's row is touched, and the one that is belongs to that execution unless it went
      away since the request read it (Witnesses.ConfirmMayStampAnother). */
  lemma ConfirmsAreEarned(b: seq<State>, n: nat, c: Id, now: Time, takenAt: Option<Time>, lat: Option<real>, lon: Option<real>)
    requires E.IsRun(b) && Took(b, n, P.ConfirmWrite(c, now, takenAt, lat, lon))
    ensures var k := b[n].photoCalls[c];
            && k.key in b[n].store && OnlyRow(b[n].db.photos, b[n + 1].db.photos, k.photo)
            && exists i: nat, j: nat ::
                 && j < n && ConfirmPassed(b, c, k.tenant, k.worker, k.photo, k.exec, k.key, i, j)
                 && (Present(b, i, n, k.photo) ==> b[n].db.photos[k.photo].exec == k.exec && b[n].db.photos[k.photo].key == k.key)
  {
    CallHasPast(b, n, c);
    var k := b[n].photoCalls[c];
    ConfirmWritesOne(b[n], P.ConfirmWrite(c, now, takenAt, lat, lon));
    assert Past(b, n, c, k);
    var i: nat, j: nat :| j < n && ConfirmPassed(b, c, k.tenant, k.worker, k.photo, k.exec, k.key, i, j);
    assert ConfirmPassed(b, c, k.tenant, k.worker, k.photo, k.exec, k.key, i, j);
    if Present(b, i, n, k.photo) { RowStays(b, i, n, k.photo); }
  }

  /** A photo's row goes only when it is unconfirmed, was so and older than the cutoff when it was
      listed, and the store was later found without its object. */
  lemma DeletionsAreEarned(b: seq<State>, n: nat, p: Id)
    requires E.IsRun(b) && n + 1 < |b| && p in b[n].db.photos && p !in b[n + 1].db.photos
    ensures b[n].db.photos[p].uploadedAt.None?
    ensures exists c, key, cutoff, i: nat, j: nat :: j < n && FoundAbsent(b, c, p, key, cutoff, i, j)
  {
    assert E.StepAt(b, n + 1);
    NextIsPhotoStepOrNone(b[n], b[n + 1]);
    var x :| TakesPhotoStep(b[n], b[n + 1], x);
    OnlyOrphansGo(b[n], x, p);
    CallHasPast(b, n, x.c);
    AbsentPast(b, n, x.c, b[n].photoCalls[x.c]);
  }

  lemma AbsentPast(b: seq<State>, n: nat, c: Id, k: PhotoCall)
    requires n < |b| && k.GcAbsent? && Past(b, n, c, k)
    ensures exists i: nat, j: nat :: j < n && FoundAbsent(b, c, k.photo, k.key, k.cutoff, i, j)
  {
  }
}
