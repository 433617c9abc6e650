/**
 Refresh-token rotation and reuse revocation, as concurrent transactions.

 The committed rows of `refresh_token` are `tokens`. Every call carries the rows its
 transaction has written but not committed; no other call can see them, and while a call
 holds an uncommitted version of a row nobody else can write that row. The per-user lock
 (`SELECT ... FOR UPDATE` on app_user) is held by a call from `Lock` to its end. An insert
 into refresh_token needs a key-share lock on the same app_user row, so a login's insert
 and the exclusive lock shut each other out.

 `log` records each commit, in commit order. Nothing in the service reads it: it is what
 the theorems talk about.
*/
module RefreshTokens {
  import opened Options

  type UserId = nat
  type TokenId = nat
  type CallId = nat
  type TenantId = nat

  // 30 days in nanoseconds.
  const REFRESH_TTL := 30 * 24 * 3600 * 1_000_000_000

  datatype User = User(tenant: TenantId, active: bool)

  datatype Token = Token(user: UserId, expires: int, usedAt: Option<int>, revokedAt: Option<int>)

  datatype Outcome =
    | Refused                              // ErrInvalidRefresh before any transaction
    | TenantArchived
    | RotatedTo(token: TokenId, next: TokenId)
    | ReuseDetected(token: TokenId)        // the chain was revoked, then ErrInvalidRefresh
    | LoggedInWith(next: TokenId)
    | LoggedOutOf(token: TokenId)
    | Aborted                              // an error, a crash or a lost connection

  datatype Phase =
    | Presented(token: TokenId, seen: Token)
    | Cleared(token: TokenId, seen: Token)
    | Locked(token: TokenId, seen: Token)
    | Marked(token: TokenId, seen: Token)
    | MarkMissed(token: TokenId, seen: Token)
    | Rotating(token: TokenId, seen: Token, next: TokenId)
    | Revoking(token: TokenId, seen: Token)
    | LoginInserted(user: UserId, next: TokenId)
    | LogoutUpdated(token: TokenId)
    | Finished(outcome: Outcome)

  datatype Call = Call(phase: Phase, writes: map<TokenId, Token>)

  datatype Event =
    | LoggedIn(user: UserId, token: TokenId)
    | Rotated(user: UserId, from: TokenId, to: TokenId, call: CallId)
    | ChainRevoked(user: UserId, call: CallId)
    | LoggedOut(token: TokenId)

  datatype State = State(
    tokens: map<TokenId, Token>,
    calls: map<CallId, Call>,
    users: map<UserId, User>,
    archived: set<TenantId>,
    now: int,
    log: seq<Event>)

  // === Locks ==================================================================

  /** The user whose row a call in this phase holds FOR UPDATE. */
  function LockedUser(p: Phase): Option<UserId> {
    match p
    case Locked(_, r) => Some(r.user)
    case Marked(_, r) => Some(r.user)
    case MarkMissed(_, r) => Some(r.user)
    case Rotating(_, r, _) => Some(r.user)
    case Revoking(_, r) => Some(r.user)
    case _ => None
  }

  predicate UserUnlocked(s: State, u: UserId) {
    forall d | d in s.calls :: LockedUser(s.calls[d].phase) != Some(u)
  }

  predicate NoLoginPending(s: State, u: UserId) {
    forall d | d in s.calls :: !(s.calls[d].phase.LoginInserted? && s.calls[d].phase.user == u)
  }

  /** No other open transaction holds an uncommitted version of row `t`. */
  predicate RowFree(s: State, c: CallId, t: TokenId) {
    forall d | d in s.calls && d != c :: t !in s.calls[d].writes
  }

  predicate FreshToken(s: State, t: TokenId) {
    t !in s.tokens && forall d | d in s.calls :: t !in s.calls[d].writes
  }

  // === Steps ==================================================================

  datatype Step =
    | Tick(elapsed: nat)
    | SetActive(user: UserId, active: bool)
    | Archive(tenant: TenantId)
    | Present(c: CallId, token: TokenId)      // GetRefreshToken and the checks on its row
    | CheckTenant(c: CallId)                  // assertTenantNotArchived
    | Lock(c: CallId)                         // Begin, LockUser
    | Mark(c: CallId)                         // MarkRefreshTokenUsed
    | InsertNext(c: CallId, next: TokenId)    // InsertRefreshToken
    | RevokeChain(c: CallId)                  // RevokeUserRefreshTokens
    | Login(c: CallId, user: UserId, next: TokenId)
    | Logout(c: CallId, token: TokenId)
    | Commit(c: CallId)
    | Abort(c: CallId)

  predicate Open(p: Phase) { !p.Finished? }

  predicate Committable(p: Phase) {
    p.Rotating? || p.Revoking? || p.LoginInserted? || p.LogoutUpdated?
  }

  /** True where the code goes on to revoke: the row was already spent when read, or the
      conditional mark affected no row. */
  predicate MustRevoke(p: Phase) {
    p.MarkMissed? || (p.Locked? && p.seen.usedAt.Some?)
  }

  predicate Enabled(s: State, st: Step) {
    match st
    case Tick(_) => true
    case SetActive(u, _) => u in s.users
    case Archive(_) => true
    case Present(c, _) => c !in s.calls
    case CheckTenant(c) => c in s.calls && s.calls[c].phase.Presented? && s.calls[c].phase.seen.user in s.users
    case Lock(c) =>
      && c in s.calls && s.calls[c].phase.Cleared?
      && UserUnlocked(s, s.calls[c].phase.seen.user)
      && NoLoginPending(s, s.calls[c].phase.seen.user)
    case Mark(c) =>
      && c in s.calls && s.calls[c].phase.Locked? && s.calls[c].phase.seen.usedAt.None?
      && RowFree(s, c, s.calls[c].phase.token)
    case InsertNext(c, next) => c in s.calls && s.calls[c].phase.Marked? && FreshToken(s, next)
    case RevokeChain(c) =>
      && c in s.calls && MustRevoke(s.calls[c].phase)
      && forall t | t in s.tokens && s.tokens[t].user == s.calls[c].phase.seen.user && s.tokens[t].revokedAt.None? ::
           RowFree(s, c, t)
    case Login(c, u, next) => c !in s.calls && u in s.users && FreshToken(s, next) && UserUnlocked(s, u)
    case Logout(c, t) => c !in s.calls && RowFree(s, c, t)
    case Commit(c) => c in s.calls && Committable(s.calls[c].phase)
    case Abort(c) => c in s.calls && Open(s.calls[c].phase)
  }

  /** service.go:111-120: an unknown, revoked, inactive or expired token is refused here. */
  function PresentPhase(s: State, t: TokenId): Phase {
    if t !in s.tokens || s.tokens[t].user !in s.users then Finished(Refused)
    else
      var r := s.tokens[t];
      if r.revokedAt.Some? || !s.users[r.user].active || r.expires < s.now then Finished(Refused)
      else Presented(t, r)
  }

  function MarkCall(s: State, p: Phase): Call
    requires p.Locked?
  {
    var t := p.token;
    if t in s.tokens && s.tokens[t].usedAt.None? && s.tokens[t].revokedAt.None? then
      Call(Marked(t, p.seen), map[t := s.tokens[t].(usedAt := Some(s.now))])
    else
      Call(MarkMissed(t, p.seen), map[])
  }

  /** The rows RevokeUserRefreshTokens writes: every committed unrevoked row of the user. */
  function RevokedRows(tokens: map<TokenId, Token>, u: UserId, now: int): map<TokenId, Token> {
    map t | t in tokens && tokens[t].user == u && tokens[t].revokedAt.None? :: tokens[t].(revokedAt := Some(now))
  }

  function LogoutRows(tokens: map<TokenId, Token>, t: TokenId, now: int): map<TokenId, Token> {
    if t in tokens && tokens[t].revokedAt.None? then map[t := tokens[t].(revokedAt := Some(now))] else map[]
  }

  function CommitOutcome(p: Phase): Outcome
    requires Committable(p)
  {
    match p
    case Rotating(t, _, next) => RotatedTo(t, next)
    case Revoking(t, _) => ReuseDetected(t)
    case LoginInserted(_, next) => LoggedInWith(next)
    case LogoutUpdated(t) => LoggedOutOf(t)
  }

  function CommitEvent(p: Phase, c: CallId): Event
    requires Committable(p)
  {
    match p
    case Rotating(t, r, next) => Rotated(r.user, t, next, c)
    case Revoking(_, r) => ChainRevoked(r.user, c)
    case LoginInserted(u, next) => LoggedIn(u, next)
    case LogoutUpdated(t) => LoggedOut(t)
  }

  function WithCall(s: State, c: CallId, p: Phase, writes: map<TokenId, Token>): State {
    s.(calls := s.calls[c := Call(p, writes)])
  }

  function Apply(s: State, st: Step): State
    requires Enabled(s, st)
  {
    match st
    case Tick(d) => s.(now := s.now + d)
    case SetActive(u, a) => s.(users := s.users[u := s.users[u].(active := a)])
    case Archive(t) => s.(archived := s.archived + {t})
    case Present(c, t) => WithCall(s, c, PresentPhase(s, t), map[])
    case CheckTenant(c) =>
      var p := s.calls[c].phase;
      WithCall(s, c, if s.users[p.seen.user].tenant in s.archived then Finished(TenantArchived) else Cleared(p.token, p.seen), map[])
    case Lock(c) => var p := s.calls[c].phase; WithCall(s, c, Locked(p.token, p.seen), map[])
    case Mark(c) => s.(calls := s.calls[c := MarkCall(s, s.calls[c].phase)])
    case InsertNext(c, next) =>
      var p := s.calls[c].phase;
      WithCall(s, c, Rotating(p.token, p.seen, next),
               s.calls[c].writes[next := Token(p.seen.user, s.now + REFRESH_TTL, None, None)])
    case RevokeChain(c) =>
      var p := s.calls[c].phase;
      WithCall(s, c, Revoking(p.token, p.seen), RevokedRows(s.tokens, p.seen.user, s.now))
    case Login(c, u, next) =>
      WithCall(s, c, LoginInserted(u, next), map[next := Token(u, s.now + REFRESH_TTL, None, None)])
    case Logout(c, t) => WithCall(s, c, LogoutUpdated(t), LogoutRows(s.tokens, t, s.now))
    case Commit(c) =>
      var p := s.calls[c].phase;
      s.(tokens := s.tokens + s.calls[c].writes,
         calls := s.calls[c := Call(Finished(CommitOutcome(p)), map[])],
         log := s.log + [CommitEvent(p, c)])
    case Abort(c) => WithCall(s, c, Finished(Aborted), map[])
  }

  ghost predicate Init(s: State) {
    s.tokens == map[] && s.calls == map[] && s.log == []
  }

  ghost predicate Next(s: State, s': State) {
    exists st :: Enabled(s, st) && s' == Apply(s, st)
  }

  /** A finite behaviour: any number of calls, interleaved in any way. */
  ghost predicate IsRun(b: seq<State>) {
    && |b| > 0 && Init(b[0])
    && forall i | 0 <= i < |b| - 1 :: Next(b[i], b[i + 1])
  }

  // === Lineage ================================================================

  /** Index in the log of the login that `t` descends from, or -1 for a token no commit made. */
  function LoginIndex(log: seq<Event>, t: TokenId): (k: int)
    ensures -1 <= k < |log|
    ensures k >= 0 ==> log[k].LoggedIn?
  {
    if log == [] then -1
    else
      var n := |log| - 1;
      match log[n]
      case LoggedIn(_, x) => if x == t then n else LoginIndex(log[..n], t)
      case Rotated(_, p, x, _) => LoginIndex(log[..n], if x == t then p else t)
      case _ => LoginIndex(log[..n], t)
  }

  /** `t` is `r`, or was rotated in from a token that descends from `r`. */
  ghost predicate Descends(log: seq<Event>, t: TokenId, r: TokenId)
    decreases |log|
  {
    t == r || exists i | 0 <= i < |log| :: log[i].Rotated? && log[i].to == t && Descends(log[..i], log[i].from, r)
  }

  lemma LoginIndexAppend(log: seq<Event>, e: Event, t: TokenId)
    ensures LoginIndex(log + [e], t) ==
            match e
            case LoggedIn(_, x) => if x == t then |log| else LoginIndex(log, t)
            case Rotated(_, p, x, _) => LoginIndex(log, if x == t then p else t)
            case _ => LoginIndex(log, t)
  {
  }

  lemma {:induction false} DescendsMono(log: seq<Event>, n: nat, t: TokenId, r: TokenId)
    requires n <= |log| && Descends(log[..n], t, r)
    ensures Descends(log, t, r)
  {
    if t != r {
      var i :| 0 <= i < n && log[..n][i].Rotated? && log[..n][i].to == t && Descends(log[..n][..i], log[..n][i].from, r);
      assert log[..n][..i] == log[..i];
      assert log[i].Rotated? && log[i].to == t;
    }
  }

  /** The index really names an ancestor: the login it points at created a token from which
      `t` was reached by rotations alone. */
  lemma {:induction false} LoginIndexIsAncestor(log: seq<Event>, t: TokenId)
    requires LoginIndex(log, t) >= 0
    ensures Descends(log, t, log[LoginIndex(log, t)].token)
    decreases |log|
  {
    var n := |log| - 1;
    match log[n] {
      case LoggedIn(_, x) =>
        if x != t {
          LoginIndexIsAncestor(log[..n], t);
          DescendsMono(log, n, t, log[LoginIndex(log, t)].token);
        }
      case Rotated(_, p, x, _) =>
        if x == t {
          LoginIndexIsAncestor(log[..n], p);
        } else {
          LoginIndexIsAncestor(log[..n], t);
          DescendsMono(log, n, t, log[LoginIndex(log, t)].token);
        }
      case _ =>
        LoginIndexIsAncestor(log[..n], t);
        DescendsMono(log, n, t, log[LoginIndex(log, t)].token);
    }
  }
}
