/** ClaimWorker, statement by statement, over the database of Invites. */
module InviteService {
  import opened Options
  import opened Invites

  datatype Reply = Device(token: DeviceId) | ErrInvalidInvite | ErrTenantArchived | ErrDatabase

  ghost predicate SameRows(before: State, after: State) {
    after.invites == before.invites && after.devices == before.devices && after.claims == before.claims
  }

  /** The claim and the device token land together. */
  ghost predicate ClaimedIn(before: State, after: State, i: InviteId, d: DeviceId) {
    && i in before.invites && d !in before.devices
    && after.invites == before.invites[i := before.invites[i].(usedAt := Some(before.now))]
    && after.devices == before.devices[d := before.invites[i].user]
    && after.claims == before.claims + [Claim(i, d)]
  }

  ghost predicate FreshDevice(s: State, d: DeviceId) {
    d !in s.devices && forall e | e in s.calls :: !(s.calls[e].phase.Minting? && s.calls[e].phase.device == d)
  }

  class Service {
    var db: State
    // Every state the database went through, first to last.
    ghost var history: seq<State>

    ghost predicate Valid()
      reads this
    {
      IsRun(history) && history[|history| - 1] == db
    }

    constructor (invites: map<InviteId, Invite>, active: set<UserId>, now: int)
      ensures Valid() && db == State(invites, map[], active, map[], now, [])
    {
      db := State(invites, map[], active, map[], now, []);
      history := [State(invites, map[], active, map[], now, [])];
    }

    method Do(st: Step)
      requires Valid() && Enabled(db, st)
      modifies this
      ensures Valid() && old(history) <= history && db == Apply(old(db), st)
    {
      assert Next(db, Apply(db, st));
      ghost var longer := history + [Apply(db, st)];
      forall i | 0 < i < |longer| ensures StepAt(longer, i) {
        if i < |history| { assert StepAt(history, i); }
      }
      db := Apply(db, st);
      history := longer;
    }

    static function CallOf(st: Step): Option<CallId> {
      match st
      case Tick(_) => None
      case SetActive(_, _) => None
      case Issue(_, _, _) => None
      case _ => Some(st.c)
    }

    /** What other calls get done while call `c` is between two statements. */
    method Others(c: CallId, steps: seq<Step>)
      requires Valid() && c in db.calls
      modifies this
      ensures Valid() && old(history) <= history && c in db.calls && db.calls[c] == old(db.calls[c])
    {
      for i := 0 to |steps|
        invariant Valid() && old(history) <= history && c in db.calls && db.calls[c] == old(db.calls[c])
      {
        if CallOf(steps[i]) != Some(c) && Enabled(db, steps[i]) { Do(steps[i]); }
      }
    }

    /** Runs one statement of call `c`, or rolls back when it cannot run. */
    method Try(c: CallId, st: Step) returns (ok: bool)
      requires Valid() && c in db.calls && !db.calls[c].phase.Done?
      modifies this
      ensures Valid() && old(history) <= history && ok == old(Enabled(db, st))
      ensures db == if ok then Apply(old(db), st) else Apply(old(db), Abort(c))
    {
      ok := Enabled(db, st);
      if ok { Do(st); } else { Do(Abort(c)); }
    }

    /** The transaction: claim the row if it is still unused, then mint. */
    method Redeem(c: CallId, i: InviteId, d: DeviceId) returns (r: Reply)
      requires Valid() && c in db.calls && db.calls[c].phase == Found(i) && i in db.invites && db.calls[c].stamped == {}
      modifies this
      ensures Valid() && old(history) <= history
      ensures r == (if !old(RowFree(db, c, i)) then ErrDatabase
                    else if old(db.invites[i].usedAt).Some? then ErrInvalidInvite
                    else if old(FreshDevice(db, d)) then Device(d) else ErrDatabase)
      ensures if r.Device? then ClaimedIn(old(db), db, i, d) else SameRows(old(db), db)
    {
      ghost var before := db;
      var ok := Try(c, ClaimRow(c));
      if !ok { return ErrDatabase; }
      SameFresh(before, db, c, d);
      if db.calls[c].phase.Done? { return ErrInvalidInvite; }
      ok := Try(c, Mint(c, d));
      if !ok { return ErrDatabase; }
      StampOne(db.invites, i, db.now);
      Do(Commit(c));
      return Device(d);
    }

    static lemma SameFresh(s: State, s': State, c: CallId, d: DeviceId)
      requires s'.devices == s.devices && c in s.calls && s'.calls.Keys == s.calls.Keys
      requires forall e | e in s.calls && e != c :: s'.calls[e] == s.calls[e]
      requires !s.calls[c].phase.Minting? && !s'.calls[c].phase.Minting?
      ensures FreshDevice(s', d) <==> FreshDevice(s, d)
    {
    }

    static lemma StampOne(invites: map<InviteId, Invite>, i: InviteId, now: int)
      requires i in invites
      ensures Stamp(invites, {i}, now) == invites[i := invites[i].(usedAt := Some(now))]
    {
    }

    static lemma FoundIsThere(s: State, c: CallId)
      requires Inv(s) && c in s.calls && s.calls[c].phase.Found?
      ensures s.calls[c].phase.invite in s.invites && s.calls[c].stamped == {}
    {
      assert CallOk(s, s.calls[c]);
    }

    /**
     ClaimWorker, with any work of others between its lookup and its transaction. `archived` is
     what the tenant's status said, `atClaim` the database the transaction works on.
    */
    method ClaimWorker(c: CallId, i: InviteId, d: DeviceId, archived: bool, during: seq<Step>)
        returns (r: Reply, ghost atClaim: State)
      requires Valid() && c !in db.calls
      modifies this
      ensures Valid() && old(history) <= history
      // Unknown, used, expired, or of an inactive user.
      ensures !(i in old(db.invites) && old(db.invites[i].usedAt).None? && old(db.now) < old(db.invites[i].expires)
                && old(db.invites[i].user in db.active))
              ==> r == ErrInvalidInvite && SameRows(old(db), db)
      ensures i in old(db.invites) && old(db.invites[i].usedAt).None? && old(db.now) < old(db.invites[i].expires)
              && old(db.invites[i].user in db.active)
              ==> if archived then r == ErrTenantArchived && SameRows(old(db), db)
                  else
                    && i in atClaim.invites
                    && r == (if !RowFree(atClaim, c, i) then ErrDatabase
                             else if atClaim.invites[i].usedAt.Some? then ErrInvalidInvite
                             else if FreshDevice(atClaim, d) then Device(d) else ErrDatabase)
                    && (if r.Device? then ClaimedIn(atClaim, db, i, d) else SameRows(atClaim, db))
    {
      Do(Find(c, i));
      if db.calls[c].phase.Done? { return ErrInvalidInvite, db; }
      if archived {
        Do(Abort(c));
        return ErrTenantArchived, db;
      }
      Others(c, during);
      atClaim := db;
      RunKeepsInv(history, |history| - 1);
      FoundIsThere(db, c);
      r := Redeem(c, i, d);
    }
  }
}
