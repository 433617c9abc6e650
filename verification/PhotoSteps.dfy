/**
 Presign, upload, confirm and orphan collection, one statement or store call per step. Nothing
 here holds a lock between steps, and any call may end at any point.
*/
module PhotoSteps {
  import opened Options
  import opened Tables
  import opened EvidenceState
  import AdminSteps

  datatype PhotoStep =
    | PresignLoad(c: Id, tenant: Id, worker: Id, photo: Id, exec: Id, kind: PhotoKind)   // GetExecutionForWorker
    | PresignGate(c: Id)
    | PresignInsert(c: Id, now: Time)
    | PresignVerify(c: Id)                                 // GetPhoto
    | Grant(c: Id)                                         // PresignPut
    | Expire(key: S3Key)
    | Upload(key: S3Key, bytes: Bytes)
    | ConfirmLoad(c: Id, tenant: Id, worker: Id, photo: Id)   // GetPhoto
    | ConfirmOwn(c: Id)                                    // GetExecutionForWorker
    | ConfirmGate(c: Id)
    | ConfirmExists(c: Id)
    | ConfirmWrite(c: Id, now: Time, takenAt: Option<Time>, lat: Option<real>, lon: Option<real>)
    | GcList(c: Id, photo: Id, cutoff: Time)               // one row of ListOrphanPhotos
    | GcExists(c: Id)
    | GcDelete(c: Id)
    | End(c: Id)

  predicate Enabled(s: State, st: PhotoStep) {
    match st
    case PresignLoad(c, _, _, _, _, _) => c !in s.photoCalls
    case PresignGate(c) => c in s.photoCalls && s.photoCalls[c].PresignLoaded? && s.photoCalls[c].tenant in s.db.tenants
    case PresignInsert(c, _) => c in s.photoCalls && s.photoCalls[c].PresignAllowed?
    case PresignVerify(c) => c in s.photoCalls && s.photoCalls[c].PresignInserted?
    case Grant(c) => c in s.photoCalls && s.photoCalls[c].PresignVerified?
    case Expire(_) => true
    case Upload(key, _) => key in s.grants
    case ConfirmLoad(c, _, _, _) => c !in s.photoCalls
    case ConfirmOwn(c) => c in s.photoCalls && s.photoCalls[c].ConfirmLoaded?
    case ConfirmGate(c) => c in s.photoCalls && s.photoCalls[c].ConfirmOwned? && s.photoCalls[c].tenant in s.db.tenants
    case ConfirmExists(c) => c in s.photoCalls && s.photoCalls[c].ConfirmAllowed?
    case ConfirmWrite(c, _, _, _, _) => c in s.photoCalls && s.photoCalls[c].ConfirmSeen?
    case GcList(c, p, cutoff) =>
      c !in s.photoCalls && p in s.db.photos && s.db.photos[p].uploadedAt.None? && s.db.photos[p].createdAt < cutoff
    case GcExists(c) => c in s.photoCalls && s.photoCalls[c].GcListed?
    case GcDelete(c) => c in s.photoCalls && s.photoCalls[c].GcAbsent?
    case End(c) => c in s.photoCalls
  }

  /** The call goes on in this phase, or (None) is over. */
  function Go(s: State, c: Id, k: Option<PhotoCall>): State {
    s.(photoCalls := if k.Some? then s.photoCalls[c := k.value] else s.photoCalls - {c})
  }

  function If(b: bool, k: PhotoCall): Option<PhotoCall> {
    if b then Some(k) else None
  }

  predicate ExecOf(db: Db, e: Id, tenant: Id, worker: Id) {
    e in db.execs && db.execs[e].tenant == tenant && db.execs[e].worker == worker
  }

  function ConfirmsOf(confirms: map<Id, seq<Confirmation>>, p: Id): seq<Confirmation> {
    if p in confirms then confirms[p] else []
  }

  /** A confirm that finds its row is noted. */
  function NoteConfirm(h: History, photos: map<Id, Photo>, p: Id, tenant: Id, c: Confirmation): History {
    if p in photos && photos[p].tenant == tenant then h.(confirms := h.confirms[p := ConfirmsOf(h.confirms, p) + [c]]) else h
  }

  function Apply(s: State, st: PhotoStep): State
    requires Enabled(s, st)
  {
    match st
    case PresignLoad(c, t, w, p, e, kind) =>
      if ExecOf(s.db, e, t, w) then Go(s, c, Some(PresignLoaded(t, w, p, e, kind, s.db.execs[e].deviceFinishedAt))) else s
    case PresignGate(c) =>
      var k := s.photoCalls[c];
      Go(s, c, If(GateAllows(s.db.tenants[k.tenant].suspendedAt, k.device), PresignAllowed(k.tenant, k.worker, k.photo, k.exec, k.kind)))
    case PresignInsert(c, now) =>
      var k := s.photoCalls[c];
      Go(s.(db := s.db.(photos := PresignRow(s.db.photos, k.photo, k.tenant, k.exec, k.kind, now))), c,
         Some(PresignInserted(k.tenant, k.worker, k.photo, k.exec, k.kind)))
    case PresignVerify(c) =>
      var k := s.photoCalls[c];
      Go(s, c, If(PresignStands(s.db.photos, k.photo, k.tenant, k.exec, k.kind),
                  PresignVerified(k.tenant, k.worker, k.photo, k.exec, k.kind)))
    case Grant(c) =>
      var k := s.photoCalls[c];
      Go(s.(grants := s.grants + {S3KeyOf(k.tenant, k.photo)}), c, None)
    case Expire(key) => s.(grants := s.grants - {key})
    case Upload(key, bytes) => s.(store := s.store[key := bytes])
    case ConfirmLoad(c, t, w, p) =>
      if p in s.db.photos && s.db.photos[p].tenant == t then Go(s, c, Some(ConfirmLoaded(t, w, p, s.db.photos[p]))) else s
    case ConfirmOwn(c) =>
      var k := s.photoCalls[c];
      Go(s, c, if ExecOf(s.db, k.row.exec, k.tenant, k.worker)
               then Some(ConfirmOwned(k.tenant, k.worker, k.photo, k.row.exec, k.row.key, s.db.execs[k.row.exec].deviceFinishedAt))
               else None)
    case ConfirmGate(c) =>
      var k := s.photoCalls[c];
      Go(s, c, If(GateAllows(s.db.tenants[k.tenant].suspendedAt, k.device), ConfirmAllowed(k.tenant, k.worker, k.photo, k.exec, k.key)))
    case ConfirmExists(c) =>
      var k := s.photoCalls[c];
      Go(s, c, If(k.key in s.store, ConfirmSeen(k.tenant, k.worker, k.photo, k.exec, k.key)))
    case ConfirmWrite(c, now, takenAt, lat, lon) =>
      var k := s.photoCalls[c];
      Go(s.(db := s.db.(photos := ConfirmRow(s.db.photos, k.photo, k.tenant, takenAt, lat, lon, now)),
            history := NoteConfirm(s.history, s.db.photos, k.photo, k.tenant, Confirmation(takenAt, lat, lon, now))), c, None)
    case GcList(c, p, cutoff) => Go(s, c, Some(GcListed(p, s.db.photos[p].key, cutoff)))
    case GcExists(c) =>
      var k := s.photoCalls[c];
      Go(s, c, If(k.key !in s.store, GcAbsent(k.photo, k.key, k.cutoff)))
    case GcDelete(c) => Go(s.(db := s.db.(photos := DeleteOrphan(s.db.photos, s.photoCalls[c].photo))), c, None)
    case End(c) => Go(s, c, None)
  }

  // === Preservation ===========================================================

  /** What a photo step may touch, and how. */
  lemma PhotoStepShape(s: State, st: PhotoStep)
    requires Enabled(s, st)
    ensures var s' := Apply(s, st);
            && s' == s.(db := s.db.(photos := s'.db.photos), photoCalls := s'.photoCalls, store := s'.store, grants := s'.grants,
                        history := s.history.(confirms := s'.history.confirms))
            && s.store.Keys <= s'.store.Keys
  {
  }

  lemma PhotoStepKeepsCalls(s: State, st: PhotoStep)
    requires Enabled(s, st) && PhotoCallsOk(s.photoCalls, s.db.execs, s.store.Keys)
    requires PhotosOk(s.db.photos, s.db.execs, s.store.Keys)
    ensures PhotoCallsOk(Apply(s, st).photoCalls, s.db.execs, Apply(s, st).store.Keys)
  {
    var s' := Apply(s, st);
    forall c | c in s'.photoCalls ensures PhotoCallOk(s'.photoCalls[c], s.db.execs, s'.store.Keys) {
      if c in s.photoCalls { assert PhotoCallOk(s.photoCalls[c], s.db.execs, s.store.Keys); }
      if st.ConfirmLoad? && c == st.c && c !in s.photoCalls {
        assert PhotoRowOk(st.photo, s.db.photos[st.photo], s.db.execs, s.store.Keys);
      }
    }
  }

  lemma PresignKeepsPhotos(photos: map<Id, Photo>, id: Id, tenant: Id, exec: Id, kind: PhotoKind, now: Time,
                           execs: map<Id, Exec>, stored: set<S3Key>)
    requires PhotosOk(photos, execs, stored) && exec in execs && execs[exec].tenant == tenant
    ensures var photos' := PresignRow(photos, id, tenant, exec, kind, now);
            PhotosOk(photos', execs, stored) && PhotosGrow(photos, photos')
  {
  }

  lemma ConfirmKeepsPhotos(photos: map<Id, Photo>, id: Id, tenant: Id, takenAt: Option<Time>, lat: Option<real>,
                           lon: Option<real>, now: Time, execs: map<Id, Exec>, stored: set<S3Key>)
    requires PhotosOk(photos, execs, stored) && PhotoKey(tenant, id) in stored
    ensures var photos' := ConfirmRow(photos, id, tenant, takenAt, lat, lon, now);
            PhotosOk(photos', execs, stored) && PhotosGrow(photos, photos')
  {
  }

  lemma DeleteKeepsPhotos(photos: map<Id, Photo>, id: Id, execs: map<Id, Exec>, stored: set<S3Key>)
    requires PhotosOk(photos, execs, stored)
    ensures PhotosOk(DeleteOrphan(photos, id), execs, stored) && PhotosGrow(photos, DeleteOrphan(photos, id))
  {
  }

  lemma UploadKeepsPhotos(photos: map<Id, Photo>, execs: map<Id, Exec>, stored: set<S3Key>, more: set<S3Key>)
    requires PhotosOk(photos, execs, stored) && stored <= more
    ensures PhotosOk(photos, execs, more) && PhotosGrow(photos, photos)
  {
  }

  lemma PhotoStepKeepsPhotos(s: State, st: PhotoStep)
    requires Enabled(s, st) && PhotoCallsOk(s.photoCalls, s.db.execs, s.store.Keys)
    requires PhotosOk(s.db.photos, s.db.execs, s.store.Keys)
    ensures PhotosOk(Apply(s, st).db.photos, s.db.execs, Apply(s, st).store.Keys)
    ensures PhotosGrow(s.db.photos, Apply(s, st).db.photos)
  {
    var photos, execs, stored := s.db.photos, s.db.execs, s.store.Keys;
    match st {
      case PresignInsert(c, now) =>
        var k := s.photoCalls[c];
        assert PhotoCallOk(k, execs, stored);
        PresignKeepsPhotos(photos, k.photo, k.tenant, k.exec, k.kind, now, execs, stored);
      case ConfirmWrite(c, now, takenAt, lat, lon) =>
        var k := s.photoCalls[c];
        assert PhotoCallOk(k, execs, stored);
        ConfirmKeepsPhotos(photos, k.photo, k.tenant, takenAt, lat, lon, now, execs, stored);
      case GcDelete(c) => DeleteKeepsPhotos(photos, s.photoCalls[c].photo, execs, stored);
      case Upload(key, bytes) => UploadKeepsPhotos(photos, execs, stored, s.store[key := bytes].Keys);
      case _ => UploadKeepsPhotos(photos, execs, stored, stored);
    }
  }

  // === Where a photo's columns come from ======================================

  /** `v` is the first value given; none when none was. */
  ghost predicate FirstGiven<T>(v: Option<T>, given: seq<Option<T>>) {
    if v.None? then forall k | 0 <= k < |given| :: given[k].None?
    else exists k :: 0 <= k < |given| && given[k] == v && forall j | 0 <= j < k :: given[j].None?
  }

  function TimesGiven(cs: seq<Confirmation>): seq<Option<Time>> {
    seq(|cs|, k requires 0 <= k < |cs| => cs[k].takenAt)
  }

  function LatsGiven(cs: seq<Confirmation>): seq<Option<real>> {
    seq(|cs|, k requires 0 <= k < |cs| => cs[k].lat)
  }

  function LonsGiven(cs: seq<Confirmation>): seq<Option<real>> {
    seq(|cs|, k requires 0 <= k < |cs| => cs[k].lon)
  }

  /** The upload stamp is the first confirm's, each of the others the first that was given. */
  ghost predicate ColumnsFrom(p: Photo, cs: seq<Confirmation>) {
    && p.uploadedAt == (if cs == [] then None else Some(cs[0].at))
    && FirstGiven(p.takenAt, TimesGiven(cs)) && FirstGiven(p.lat, LatsGiven(cs)) && FirstGiven(p.lon, LonsGiven(cs))
  }

  lemma OneMoreGiven<T>(v: Option<T>, given: seq<Option<T>>, x: Option<T>)
    requires FirstGiven(v, given)
    ensures FirstGiven(if v.Some? then v else x, given + [x])
  {
    var more := given + [x];
    if v.Some? {
      var k :| 0 <= k < |given| && given[k] == v && forall j | 0 <= j < k :: given[j].None?;
      assert more[k] == v;
    } else if x.Some? {
      assert more[|given|] == x;
    }
  }

  lemma OneMoreConfirm(p: Photo, p': Photo, cs: seq<Confirmation>, c: Confirmation)
    requires ColumnsFrom(p, cs)
    requires p'.uploadedAt == (if p.uploadedAt.Some? then p.uploadedAt else Some(c.at))
    requires p'.takenAt == (if p.takenAt.Some? then p.takenAt else c.takenAt)
    requires p'.lat == (if p.lat.Some? then p.lat else c.lat) && p'.lon == (if p.lon.Some? then p.lon else c.lon)
    ensures ColumnsFrom(p', cs + [c])
  {
    OneMoreGiven(p.takenAt, TimesGiven(cs), c.takenAt);
    OneMoreGiven(p.lat, LatsGiven(cs), c.lat);
    OneMoreGiven(p.lon, LonsGiven(cs), c.lon);
    assert TimesGiven(cs + [c]) == TimesGiven(cs) + [c.takenAt] && LatsGiven(cs + [c]) == LatsGiven(cs) + [c.lat]
        && LonsGiven(cs + [c]) == LonsGiven(cs) + [c.lon];
  }

  /** The row's columns come from its confirms; without a row there are none. */
  ghost predicate PhotoConfirmsOk(photos: map<Id, Photo>, confirms: map<Id, seq<Confirmation>>, p: Id) {
    if p in photos then ColumnsFrom(photos[p], ConfirmsOf(confirms, p)) else ConfirmsOf(confirms, p) == []
  }

  lemma ConfirmNotes(photos: map<Id, Photo>, h: History, id: Id, tenant: Id, c: Confirmation, p: Id)
    requires PhotoConfirmsOk(photos, h.confirms, p)
    ensures PhotoConfirmsOk(ConfirmRow(photos, id, tenant, c.takenAt, c.lat, c.lon, c.at), NoteConfirm(h, photos, id, tenant, c).confirms, p)
  {
    if id == p && p in photos && photos[p].tenant == tenant {
      OneMoreConfirm(photos[p], ConfirmRow(photos, id, tenant, c.takenAt, c.lat, c.lon, c.at)[p], ConfirmsOf(h.confirms, p), c);
    }
  }

  lemma PresignNotes(photos: map<Id, Photo>, confirms: map<Id, seq<Confirmation>>, id: Id, tenant: Id, exec: Id, kind: PhotoKind,
                     now: Time, p: Id)
    requires PhotoConfirmsOk(photos, confirms, p)
    ensures PhotoConfirmsOk(PresignRow(photos, id, tenant, exec, kind, now), confirms, p)
  {
  }

  lemma DeleteNotes(photos: map<Id, Photo>, confirms: map<Id, seq<Confirmation>>, id: Id, p: Id)
    requires PhotoConfirmsOk(photos, confirms, p)
    ensures PhotoConfirmsOk(DeleteOrphan(photos, id), confirms, p)
  {
  }

  lemma StepKeepsConfirms(s: State, st: PhotoStep, p: Id)
    requires Enabled(s, st) && PhotoConfirmsOk(s.db.photos, s.history.confirms, p)
    ensures PhotoConfirmsOk(Apply(s, st).db.photos, Apply(s, st).history.confirms, p)
  {
    match st
    case ConfirmWrite(c, now, takenAt, lat, lon) =>
      var k := s.photoCalls[c];
      ConfirmNotes(s.db.photos, s.history, k.photo, k.tenant, Confirmation(takenAt, lat, lon, now), p);
    case PresignInsert(c, now) =>
      var k := s.photoCalls[c];
      PresignNotes(s.db.photos, s.history.confirms, k.photo, k.tenant, k.exec, k.kind, now, p);
    case GcDelete(c) => DeleteNotes(s.db.photos, s.history.confirms, s.photoCalls[c].photo, p);
    case _ =>
  }

  lemma PhotoKeepsInv(s: State, st: PhotoStep)
    requires Inv(s) && Enabled(s, st)
    ensures Inv(Apply(s, st)) && Grows(s, Apply(s, st))
  {
    AdminSteps.Unchanged(s);
    PhotoStepShape(s, st);
    PhotoStepKeepsCalls(s, st);
    PhotoStepKeepsPhotos(s, st);
  }

  /**
   A confirmed photo is sealed once no upload URL for its key is live and no presign for it is
   past its check: no step opens it again, so its bytes never change.
  */
  ghost predicate Sealed(s: State, p: Id) {
    && p in s.db.photos && s.db.photos[p].uploadedAt.Some?
    && s.db.photos[p].key !in s.grants
    && forall c | c in s.photoCalls :: !Holds(s.photoCalls[c], s.db.photos[p].key)
  }

  ghost predicate Holds(k: PhotoCall, key: S3Key) {
    k.PresignVerified? && S3KeyOf(k.tenant, k.photo) == key
  }

  lemma NoNewGrant(s: State, st: PhotoStep, key: S3Key)
    requires Enabled(s, st) && key !in s.grants
    requires forall c | c in s.photoCalls :: !Holds(s.photoCalls[c], key)
    ensures key !in Apply(s, st).grants
    ensures key in s.store ==> key in Apply(s, st).store && Apply(s, st).store[key] == s.store[key]
  {
  }

  lemma NoNewHolder(s: State, st: PhotoStep, tenant: Id, p: Id)
    requires Enabled(s, st) && p in s.db.photos && s.db.photos[p].uploadedAt.Some?
    requires forall c | c in s.photoCalls :: !Holds(s.photoCalls[c], PhotoKey(tenant, p))
    ensures forall c | c in Apply(s, st).photoCalls :: !Holds(Apply(s, st).photoCalls[c], PhotoKey(tenant, p))
  {
    var s' := Apply(s, st);
    forall c | c in s'.photoCalls ensures !Holds(s'.photoCalls[c], PhotoKey(tenant, p)) {
      if c in s.photoCalls { assert !Holds(s.photoCalls[c], PhotoKey(tenant, p)); }
    }
  }

  lemma SealedStays(s: State, st: PhotoStep, p: Id)
    requires PhotosOk(s.db.photos, s.db.execs, s.store.Keys) && PhotoCallsOk(s.photoCalls, s.db.execs, s.store.Keys)
    requires Enabled(s, st) && Sealed(s, p)
    ensures var s', key := Apply(s, st), s.db.photos[p].key;
            Sealed(s', p) && s'.db.photos[p].key == key && key in s.store && key in s'.store && s'.store[key] == s.store[key]
  {
    var key := s.db.photos[p].key;
    assert PhotoRowOk(p, s.db.photos[p], s.db.execs, s.store.Keys);
    PhotoStepKeepsPhotos(s, st);
    NoNewGrant(s, st, key);
    NoNewHolder(s, st, s.db.photos[p].tenant, p);
    assert PhotoGrows(s.db.photos[p], Apply(s, st).db.photos[p]);
  }
}
