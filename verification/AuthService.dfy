/** The auth service's calls, statement by statement, over the database of RefreshTokens. */
module AuthService {
  import opened Options
  import opened RefreshTokens
  import opened RefreshSafety

  datatype Reply = Pair(refresh: TokenId) | ErrInvalidRefresh | ErrTenantArchived | ErrDatabase

  /** Database `after` is `before` with the whole chain of user `u` revoked by call `c`. */
  ghost predicate ChainRevokedIn(before: State, after: State, u: UserId, c: CallId) {
    && after.tokens.Keys == before.tokens.Keys
    && (forall x | x in before.tokens && before.tokens[x].user == u && before.tokens[x].revokedAt.None? ::
          after.tokens[x] == before.tokens[x].(revokedAt := Some(before.now)))
    && (forall x | x in before.tokens && !(before.tokens[x].user == u && before.tokens[x].revokedAt.None?) ::
          after.tokens[x] == before.tokens[x])
    && after.log == before.log + [ChainRevoked(u, c)]
  }

  /** Database `after` is `before` with live token `t` spent and its successor `next` inserted. */
  ghost predicate RotatedIn(before: State, after: State, t: TokenId, u: UserId, next: TokenId, c: CallId) {
    && t in before.tokens && Live(before.tokens[t]) && next !in before.tokens
    && after.tokens == before.tokens[t := before.tokens[t].(usedAt := Some(before.now))]
                                    [next := Token(before.tokens[t].user, before.now + REFRESH_TTL, None, None)]
    && after.log == before.log + [Rotated(u, t, next, c)]
  }

  ghost predicate SameRows(before: State, after: State) {
    after.tokens == before.tokens && after.log == before.log
  }

  // === What a statement may have to wait for ==================================

  /** Nobody else holds the user's row, and no login of the user is about to commit. */
  ghost predicate LockFree(s: State, u: UserId) {
    UserUnlocked(s, u) && NoLoginPending(s, u)
  }

  /** No other open transaction has written a row that revoking the user's chain would. */
  ghost predicate ChainFree(s: State, c: CallId, u: UserId) {
    forall x | x in s.tokens && s.tokens[x].user == u && s.tokens[x].revokedAt.None? :: RowFree(s, c, x)
  }

  // === What a refresh must answer =============================================

  /** The token is there, neither revoked nor expired, and its user active. Whether it is spent
      does not matter here. */
  ghost predicate Presentable(s: State, t: TokenId) {
    && t in s.tokens && s.tokens[t].user in s.users
    && s.tokens[t].revokedAt.None? && s.tokens[t].expires >= s.now && s.users[s.tokens[t].user].active
  }

  /** Under the lock, with the row as it was read and as it is now: reuse of a spent token costs
      the whole chain, a live one is rotated, and only a statement that cannot run is an error. */
  ghost function Verdict(s: State, c: CallId, t: TokenId, seen: Token, next: TokenId): Reply
    requires t in s.tokens
  {
    if seen.usedAt.None? && !RowFree(s, c, t) then ErrDatabase
    else if seen.usedAt.Some? || s.tokens[t].usedAt.Some? || s.tokens[t].revokedAt.Some? then
      if ChainFree(s, c, seen.user) then ErrInvalidRefresh else ErrDatabase
    else if FreshToken(s, next) then Pair(next)
    else ErrDatabase
  }

  /** What each answer leaves in the tables. */
  ghost predicate Leaves(before: State, after: State, r: Reply, t: TokenId, u: UserId, next: TokenId, c: CallId) {
    match r
    case ErrInvalidRefresh => ChainRevokedIn(before, after, u, c)
    case Pair(x) => x == next && RotatedIn(before, after, t, u, next, c)
    case _ => SameRows(before, after)
  }

  class Service {
    var db: State
    // Every state the database went through, first to last.
    ghost var history: seq<State>

    ghost predicate Valid()
      reads this
    {
      IsRun(history) && history[|history| - 1] == db
    }

    constructor (users: map<UserId, User>, now: int)
      ensures Valid() && db == State(map[], map[], users, {}, now, [])
    {
      db := State(map[], map[], users, {}, now, []);
      history := [State(map[], map[], users, {}, now, [])];
    }

    /** One statement, commit, rollback or clock tick, of any call. */
    method Do(st: Step)
      requires Valid() && Enabled(db, st)
      modifies this
      ensures Valid() && old(history) <= history
      ensures db == Apply(old(db), st)
    {
      assert Next(db, Apply(db, st));
      db := Apply(db, st);
      history := history + [db];
    }

    /** What other calls get done while call `c` is between two statements. A step that has
        to wait for a lock is left out. */
    method Others(c: CallId, steps: seq<Step>)
      requires Valid()
      modifies this
      ensures Valid() && old(history) <= history
      ensures c in old(db.calls) ==> c in db.calls && db.calls[c] == old(db.calls[c])
      ensures c !in old(db.calls) ==> c !in db.calls
      ensures db.users.Keys == old(db.users.Keys)
    {
      for i := 0 to |steps|
        invariant Valid() && old(history) <= history
        invariant c in old(db.calls) ==> c in db.calls && db.calls[c] == old(db.calls[c])
        invariant c !in old(db.calls) ==> c !in db.calls
        invariant db.users.Keys == old(db.users.Keys)
      {
        if CallOf(steps[i]) != Some(c) && Enabled(db, steps[i]) {
          Do(steps[i]);
        }
      }
    }

    static function CallOf(st: Step): Option<CallId> {
      match st
      case Tick(_) => None
      case SetActive(_, _) => None
      case Archive(_) => None
      case _ => Some(st.c)
    }

    /** Runs one statement of call `c`, or gives up and rolls back when it cannot run (the
        context expires while it waits for a lock, or the insert collides). */
    method Try(c: CallId, st: Step) returns (ok: bool)
      requires Valid() && c in db.calls && Open(db.calls[c].phase)
      modifies this
      ensures Valid() && old(history) <= history
      ensures ok == old(Enabled(db, st))
      ensures db == if ok then Apply(old(db), st) else Apply(old(db), Abort(c))
    {
      ok := Enabled(db, st);
      if ok {
        Do(st);
      } else {
        Do(Abort(c));
      }
    }

    /** The end of both reuse branches: revoke the chain and commit. */
    method RevokeAndCommit(c: CallId) returns (r: Reply)
      requires Valid() && c in db.calls && MustRevoke(db.calls[c].phase)
      modifies this
      ensures Valid() && old(history) <= history
      ensures r == if old(ChainFree(db, c, db.calls[c].phase.seen.user)) then ErrInvalidRefresh else ErrDatabase
      ensures c in db.calls && db.calls[c].phase.Finished?
      ensures r == ErrInvalidRefresh ==> ChainRevokedIn(old(db), db, old(db.calls[c].phase.seen.user), c)
      ensures r == ErrDatabase ==> SameRows(old(db), db)
    {
      var ok := Try(c, RevokeChain(c));
      if !ok { return ErrDatabase; }
      Do(Commit(c));
      return ErrInvalidRefresh;
    }

    /** The successful end: insert the successor of the row just marked, and commit. `locked` is
        the database as it was before the mark. */
    method InsertAndCommit(c: CallId, next: TokenId, ghost locked: State) returns (r: Reply)
      requires Valid() && c in db.calls && db.calls[c].phase.Marked? && CallOk(db.tokens, db.calls[c])
      requires SameRows(locked, db) && db.now == locked.now
      requires db.calls[c].writes == map[db.calls[c].phase.token := db.tokens[db.calls[c].phase.token].(usedAt := Some(db.now))]
      modifies this
      ensures Valid() && old(history) <= history
      ensures c in db.calls && db.calls[c].phase.Finished?
      ensures r == if old(FreshToken(db, next)) then Pair(next) else ErrDatabase
      ensures r == Pair(next) ==>
                var p := old(db.calls[c].phase);
                RotatedIn(locked, db, p.token, p.seen.user, next, c)
      ensures r == ErrDatabase ==> SameRows(locked, db)
    {
      var ok := Try(c, InsertNext(c, next));
      if !ok { return ErrDatabase; }
      Do(Commit(c));
      return Pair(next);
    }

    /** Refresh from the moment it holds the user lock (service.go:142-188). Whether it
        rotates or revokes depends on the row as it is now, not only as it was read. */
    method UnderLock(c: CallId, next: TokenId) returns (r: Reply)
      requires Valid() && c in db.calls && db.calls[c].phase.Locked? && CallsOk(db.tokens, db.calls)
      modifies this
      ensures Valid() && old(history) <= history
      ensures c in db.calls && db.calls[c].phase.Finished?
      ensures var p := old(db.calls[c].phase);
              && p.token in old(db.tokens)
              && r == Verdict(old(db), c, p.token, p.seen, next)
              && Leaves(old(db), db, r, p.token, p.seen.user, next, c)
    {
      assert CallOk(db.tokens, db.calls[c]);
      if db.calls[c].phase.seen.usedAt.Some? {
        r := RevokeAndCommit(c);
      } else {
        r := MarkAndFinish(c, next);
      }
    }

    /** The token was unspent when read: spend it, unless somebody else did meanwhile. */
    method MarkAndFinish(c: CallId, next: TokenId) returns (r: Reply)
      requires Valid() && c in db.calls && db.calls[c].phase.Locked? && db.calls[c].phase.seen.usedAt.None?
      requires CallOk(db.tokens, db.calls[c])
      modifies this
      ensures Valid() && old(history) <= history
      ensures c in db.calls && db.calls[c].phase.Finished?
      ensures var p := old(db.calls[c].phase);
              && p.token in old(db.tokens)
              && r == Verdict(old(db), c, p.token, p.seen, next)
              && Leaves(old(db), db, r, p.token, p.seen.user, next, c)
    {
      ghost var locked := db;
      var ok := Try(c, Mark(c));
      if !ok { return ErrDatabase; }
      OnlyOwnCall(locked, db, c, db.calls[c].phase.seen.user, next);
      if db.calls[c].phase.MarkMissed? {
        r := RevokeAndCommit(c);
        return;
      }
      r := InsertAndCommit(c, next, locked);
    }

    /** What call `c` has itself done so far never makes it wait. */
    static lemma OnlyOwnCall(s: State, s': State, c: CallId, u: UserId, next: TokenId)
      requires s'.tokens == s.tokens && c in s.calls && s'.calls.Keys == s.calls.Keys
      requires forall d | d in s.calls && d != c :: s'.calls[d] == s.calls[d]
      requires s'.calls[c].writes.Keys <= s.tokens.Keys && s.calls[c].writes.Keys <= s.tokens.Keys
      ensures ChainFree(s', c, u) <==> ChainFree(s, c, u)
      ensures FreshToken(s', next) <==> FreshToken(s, next)
      ensures forall x :: RowFree(s', c, x) <==> RowFree(s, c, x)
    {
      forall x ensures RowFree(s', c, x) <==> RowFree(s, c, x) {
      }
    }

    /** What comes before the transaction: read the token and check it, let others do `between`,
        then check its tenant. `atCheck` is the database that check sees. */
    method Enter(c: CallId, t: TokenId, between: seq<Step>) returns (refused: Option<Reply>, ghost atCheck: State)
      requires Valid() && c !in db.calls
      modifies this
      ensures Valid() && old(history) <= history && c in db.calls && SameRows(atCheck, db)
      ensures !Presentable(old(db), t) ==> refused == Some(ErrInvalidRefresh) && SameRows(old(db), db)
      ensures Presentable(old(db), t) ==>
                var u := old(db.tokens[t].user);
                && u in atCheck.users
                && refused == (if atCheck.users[u].tenant in atCheck.archived then Some(ErrTenantArchived) else None)
                && (refused.None? ==> db.calls[c].phase == Cleared(t, old(db.tokens[t])) && db.calls[c].writes == map[])
      ensures refused.Some? ==> db.calls[c].phase.Finished?
    {
      Do(Present(c, t));
      if db.calls[c].phase.Finished? { return Some(ErrInvalidRefresh), db; }
      Others(c, between);
      atCheck := db;
      Do(CheckTenant(c));
      if db.calls[c].phase.Finished? { return Some(ErrTenantArchived), atCheck; }
      return None, atCheck;
    }

    /** The transaction: lock the user, then decide. */
    method Transact(c: CallId, next: TokenId) returns (r: Reply)
      requires Valid() && c in db.calls && db.calls[c].phase.Cleared?
      modifies this
      ensures Valid() && old(history) <= history
      ensures c in db.calls && db.calls[c].phase.Finished?
      ensures var p := old(db.calls[c].phase);
              && p.token in old(db.tokens)
              && r == (if LockFree(old(db), p.seen.user) then Verdict(old(db), c, p.token, p.seen, next) else ErrDatabase)
              && Leaves(old(db), db, r, p.token, p.seen.user, next, c)
    {
      ghost var before := db;
      RunKeepsCalls(history, |history| - 1);
      CallIsOk(before, c);
      var ok := Try(c, Lock(c));
      if !ok { return ErrDatabase; }
      RunKeepsCalls(history, |history| - 1);
      LockedVerdict(before, db, c, before.calls[c].phase.token, before.calls[c].phase.seen, next);
      r := UnderLock(c, next);
      SameBefore(before, Apply(before, Lock(c)), db, r, before.calls[c].phase.token, before.calls[c].phase.seen.user, next, c);
    }

    static lemma CallIsOk(s: State, c: CallId)
      requires CallsOk(s.tokens, s.calls) && c in s.calls && s.calls[c].phase.Cleared?
      ensures s.calls[c].writes == map[] && OwnedBy(s.tokens, s.calls[c].phase.token, s.calls[c].phase.seen.user)
    {
      assert CallOk(s.tokens, s.calls[c]);
    }

    static lemma LockedVerdict(s: State, s': State, c: CallId, t: TokenId, seen: Token, next: TokenId)
      requires t in s.tokens && c in s.calls && s.calls[c].writes == map[] && Enabled(s, Lock(c)) && s' == Apply(s, Lock(c))
      ensures Verdict(s', c, t, seen, next) == Verdict(s, c, t, seen, next)
    {
      OnlyOwnCall(s, s', c, seen.user, next);
    }

    static lemma SameBefore(s: State, s': State, after: State, r: Reply, t: TokenId, u: UserId, next: TokenId, c: CallId)
      requires s'.tokens == s.tokens && s'.log == s.log && s'.now == s.now && Leaves(s', after, r, t, u, next, c)
      ensures Leaves(s, after, r, t, u, next, c)
    {
    }

    /**
     Refresh, with any work of other calls between its read, its tenant check and its lock;
     `atCheck` and `atLock` are the database at the latter two. Refused on the row read, it
     revokes nothing. Past that it is the tenant's turn, then the lock's, then the row's.
    */
    method Refresh(c: CallId, t: TokenId, next: TokenId, between: seq<Step>, during: seq<Step>)
        returns (r: Reply, ghost atCheck: State, ghost atLock: State)
      requires Valid() && c !in db.calls
      modifies this
      ensures Valid() && old(history) <= history
      ensures c in db.calls && db.calls[c].phase.Finished?
      ensures !Presentable(old(db), t) ==> r == ErrInvalidRefresh && SameRows(old(db), db)
      ensures Presentable(old(db), t) ==>
                var u := old(db.tokens[t].user);
                && u in atCheck.users
                && (if atCheck.users[u].tenant in atCheck.archived then r == ErrTenantArchived && SameRows(atCheck, db)
                    else
                      && t in atLock.tokens
                      && r == (if LockFree(atLock, u) then Verdict(atLock, c, t, old(db.tokens[t]), next) else ErrDatabase)
                      && Leaves(atLock, db, r, t, u, next, c))
    {
      var refused;
      refused, atCheck := Enter(c, t, between);
      if refused.Some? { return refused.value, atCheck, db; }
      Others(c, during);
      atLock := db;
      r := Transact(c, next);
    }

    /** issueRefresh for a user whose password was accepted: one statement, its own transaction.
        It waits while others do `during`; `atLock` is the database it then works on. */
    method IssueRefresh(c: CallId, u: UserId, next: TokenId, during: seq<Step>) returns (ok: bool, ghost atLock: State)
      requires Valid() && c !in db.calls
      modifies this
      ensures Valid() && old(history) <= history
      ensures ok <==> u in atLock.users && FreshToken(atLock, next) && UserUnlocked(atLock, u)
      ensures ok ==> db.tokens == atLock.tokens[next := Token(u, atLock.now + REFRESH_TTL, None, None)]
                     && db.log == atLock.log + [LoggedIn(u, next)]
      ensures !ok ==> db == atLock
    {
      Others(c, during);
      atLock := db;
      ok := Enabled(db, Login(c, u, next));
      if ok {
        Do(Login(c, u, next));
        Do(Commit(c));
        assert db.tokens == atLock.tokens[next := Token(u, atLock.now + REFRESH_TTL, None, None)];
      }
    }

    /** Logout revokes exactly the presented token, once no other transaction holds its row; an
        unknown or revoked one changes nothing. */
    method LogoutCall(c: CallId, t: TokenId, during: seq<Step>) returns (ok: bool, ghost atLock: State)
      requires Valid() && c !in db.calls
      modifies this
      ensures Valid() && old(history) <= history
      ensures ok <==> RowFree(atLock, c, t)
      ensures ok ==> db.tokens.Keys == atLock.tokens.Keys && db.log == atLock.log + [LoggedOut(t)]
      ensures ok ==> forall x | x in db.tokens ::
                       db.tokens[x] == if x == t && atLock.tokens[x].revokedAt.None?
                                       then atLock.tokens[x].(revokedAt := Some(atLock.now)) else atLock.tokens[x]
      ensures !ok ==> db == atLock
    {
      Others(c, during);
      atLock := db;
      ok := RowFree(db, c, t);
      if ok {
        Do(Logout(c, t));
        Do(Commit(c));
      }
    }
  }
}
