/** What every interleaving of Refresh, Login and Logout keeps, and what follows from it. */
module RefreshSafety {
  import opened Options
  import opened RefreshTokens

  type Table = map<TokenId, Token>

  // === Invariant ==============================================================

  /** An uncommitted mark on row `t`: the committed row is still live, and only this call's
      version of it is spent. */
  ghost predicate Spending(tokens: Table, w: Table, t: TokenId, u: UserId) {
    && t in tokens && tokens[t].user == u
    && tokens[t].usedAt.None? && tokens[t].revokedAt.None?
    && t in w && w[t].usedAt.Some? && w[t] == tokens[t].(usedAt := w[t].usedAt)
  }

  ghost predicate Inserting(tokens: Table, w: Table, t: TokenId, u: UserId) {
    t !in tokens && t in w && w[t].user == u && w[t].usedAt.None? && w[t].revokedAt.None?
  }

  ghost predicate RevokesRow(tokens: Table, w: Table, t: TokenId) {
    t in w && t in tokens && w[t].revokedAt.Some? && w[t] == tokens[t].(revokedAt := w[t].revokedAt)
  }

  ghost predicate OwnedBy(tokens: Table, t: TokenId, u: UserId) {
    t in tokens && tokens[t].user == u
  }

  ghost predicate RevokesChain(tokens: Table, w: Table, u: UserId) {
    && (forall x | x in w :: RevokesRow(tokens, w, x) && OwnedBy(tokens, x, u))
    && (forall x | OwnedBy(tokens, x, u) && tokens[x].revokedAt.None? :: x in w)
  }

  ghost predicate CallOk(tokens: Table, k: Call) {
    var w := k.writes;
    match k.phase
    case Presented(t, r) => w == map[] && OwnedBy(tokens, t, r.user)
    case Cleared(t, r) => w == map[] && OwnedBy(tokens, t, r.user)
    case Locked(t, r) => w == map[] && OwnedBy(tokens, t, r.user)
    case MarkMissed(t, r) => w == map[] && OwnedBy(tokens, t, r.user)
    case Marked(t, r) => w.Keys == {t} && Spending(tokens, w, t, r.user)
    case Rotating(t, r, next) =>
      w.Keys == {t, next} && Spending(tokens, w, t, r.user) && Inserting(tokens, w, next, r.user)
    case Revoking(t, r) => OwnedBy(tokens, t, r.user) && RevokesChain(tokens, w, r.user)
    case LoginInserted(u, next) => w.Keys == {next} && Inserting(tokens, w, next, u)
    case LogoutUpdated(t) => forall x | x in w :: RevokesRow(tokens, w, x)
    case Finished(_) => w == map[]
  }

  ghost predicate CallsOk(tokens: Table, calls: map<CallId, Call>) {
    forall c | c in calls :: CallOk(tokens, calls[c])
  }

  /** An exclusive lock shuts out another lock, and an insert, for the same user. */
  ghost predicate Compatible(p: Phase, q: Phase) {
    LockedUser(p).Some? ==>
      && LockedUser(q) != LockedUser(p)
      && !(q.LoginInserted? && Some(q.user) == LockedUser(p))
  }

  /** No two calls hold incompatible user locks, and no row has two uncommitted versions. */
  ghost predicate LocksOk(calls: map<CallId, Call>) {
    forall c, d | c in calls && d in calls && c != d ::
      Compatible(calls[c].phase, calls[d].phase) && calls[c].writes.Keys !! calls[d].writes.Keys
  }

  /** Every committed token, and no other, descends from a login of its own user. */
  ghost predicate LineageOk(tokens: Table, log: seq<Event>) {
    && (forall t | t in tokens ::
          LoginIndex(log, t) >= 0 && log[LoginIndex(log, t)].user == tokens[t].user)
    && (forall t | t !in tokens :: LoginIndex(log, t) == -1)
  }

  ghost predicate RevokedAtIndex(log: seq<Event>, i: int, u: UserId) {
    0 <= i < |log| && log[i].ChainRevoked? && log[i].user == u
  }

  /** The core of the theorem: an unrevoked token's login is later than every chain
      revocation of its user. */
  ghost predicate NoOldChain(tokens: Table, log: seq<Event>) {
    forall t, i | t in tokens && tokens[t].revokedAt.None? && RevokedAtIndex(log, i, tokens[t].user) ::
      i < LoginIndex(log, t)
  }

  ghost predicate RotatedAtIndex(log: seq<Event>, i: int, t: TokenId) {
    0 <= i < |log| && log[i].Rotated? && log[i].from == t
  }

  ghost predicate RotatedOnce(tokens: Table, log: seq<Event>) {
    && (forall i, t | RotatedAtIndex(log, i, t) :: t in tokens && tokens[t].usedAt.Some?)
    && (forall i, j, t | RotatedAtIndex(log, i, t) && RotatedAtIndex(log, j, t) :: i == j)
  }

  predicate Live(r: Token) { r.usedAt.None? && r.revokedAt.None? }

  /** A login's chain of rotations has at most one live token at a time. */
  ghost predicate OneLivePerLogin(tokens: Table, log: seq<Event>) {
    forall t, x | t in tokens && x in tokens && Live(tokens[t]) && Live(tokens[x])
                  && LoginIndex(log, t) == LoginIndex(log, x) :: t == x
  }

  ghost predicate OutcomeLogged(tokens: Table, log: seq<Event>, c: CallId, p: Phase) {
    match p
    case Finished(RotatedTo(t, next)) =>
      exists i :: RotatedAtIndex(log, i, t) && log[i].call == c && log[i].to == next
    case Finished(ReuseDetected(t)) =>
      t in tokens && exists i :: RevokedAtIndex(log, i, tokens[t].user) && log[i].call == c
    case _ => true
  }

  ghost predicate OutcomesLogged(s: State) {
    forall c | c in s.calls :: OutcomeLogged(s.tokens, s.log, c, s.calls[c].phase)
  }

  ghost predicate Inv(s: State) {
    && CallsOk(s.tokens, s.calls) && LocksOk(s.calls)
    && LineageOk(s.tokens, s.log) && NoOldChain(s.tokens, s.log) && RotatedOnce(s.tokens, s.log)
    && OneLivePerLogin(s.tokens, s.log) && OutcomesLogged(s)
  }

  // === Statements inside a call ===============================================

  ghost predicate MayWrite(s: State, c: CallId, k: Call) {
    && (forall d | d in s.calls && d != c ::
          && s.calls[d].writes.Keys !! k.writes.Keys
          && Compatible(k.phase, s.calls[d].phase) && Compatible(s.calls[d].phase, k.phase))
    && (k.phase.Finished? ==> !k.phase.outcome.RotatedTo? && !k.phase.outcome.ReuseDetected?)
  }

  lemma LocalStepKeepsInv(s: State, c: CallId, k: Call)
    requires Inv(s) && CallOk(s.tokens, k) && MayWrite(s, c, k)
    ensures Inv(s.(calls := s.calls[c := k]))
  {
  }

  lemma LockKeepsInv(s: State, c: CallId)
    requires Inv(s) && Enabled(s, Lock(c))
    ensures Inv(Apply(s, Lock(c)))
  {
    var k := Apply(s, Lock(c)).calls[c];
    assert MayWrite(s, c, k);
    LocalStepKeepsInv(s, c, k);
  }

  lemma MarkKeepsInv(s: State, c: CallId)
    requires Inv(s) && Enabled(s, Mark(c))
    ensures Inv(Apply(s, Mark(c)))
  {
    var k := MarkCall(s, s.calls[c].phase);
    assert CallOk(s.tokens, s.calls[c]);
    LocalStepKeepsInv(s, c, k);
  }

  lemma InsertKeepsInv(s: State, c: CallId, next: TokenId)
    requires Inv(s) && Enabled(s, InsertNext(c, next))
    ensures Inv(Apply(s, InsertNext(c, next)))
  {
    var k := Apply(s, InsertNext(c, next)).calls[c];
    assert CallOk(s.tokens, s.calls[c]);
    LocalStepKeepsInv(s, c, k);
  }

  lemma RevokedRowsRevoke(tokens: Table, u: UserId, now: int)
    ensures RevokesChain(tokens, RevokedRows(tokens, u, now), u)
  {
  }

  lemma RevokeMayWrite(s: State, c: CallId)
    requires LocksOk(s.calls) && Enabled(s, RevokeChain(c))
    ensures MayWrite(s, c, Apply(s, RevokeChain(c)).calls[c])
  {
  }

  lemma RevokeKeepsInv(s: State, c: CallId)
    requires Inv(s) && Enabled(s, RevokeChain(c))
    ensures Inv(Apply(s, RevokeChain(c)))
  {
    var k := Apply(s, RevokeChain(c)).calls[c];
    assert CallOk(s.tokens, s.calls[c]);
    RevokedRowsRevoke(s.tokens, s.calls[c].phase.seen.user, s.now);
    RevokeMayWrite(s, c);
    LocalStepKeepsInv(s, c, k);
  }

  lemma LoginKeepsInv(s: State, c: CallId, u: UserId, next: TokenId)
    requires Inv(s) && Enabled(s, Login(c, u, next))
    ensures Inv(Apply(s, Login(c, u, next)))
  {
    LocalStepKeepsInv(s, c, Apply(s, Login(c, u, next)).calls[c]);
  }

  lemma PresentKeepsInv(s: State, c: CallId, t: TokenId)
    requires Inv(s) && Enabled(s, Present(c, t))
    ensures Inv(Apply(s, Present(c, t)))
  {
    LocalStepKeepsInv(s, c, Call(PresentPhase(s, t), map[]));
  }

  lemma CheckTenantKeepsInv(s: State, c: CallId)
    requires Inv(s) && Enabled(s, CheckTenant(c))
    ensures Inv(Apply(s, CheckTenant(c)))
  {
    LocalStepKeepsInv(s, c, Apply(s, CheckTenant(c)).calls[c]);
  }

  lemma LogoutKeepsInv(s: State, c: CallId, t: TokenId)
    requires Inv(s) && Enabled(s, Logout(c, t))
    ensures Inv(Apply(s, Logout(c, t)))
  {
    LocalStepKeepsInv(s, c, Apply(s, Logout(c, t)).calls[c]);
  }

  lemma AbortKeepsInv(s: State, c: CallId)
    requires Inv(s) && Enabled(s, Abort(c))
    ensures Inv(Apply(s, Abort(c)))
  {
    LocalStepKeepsInv(s, c, Call(Finished(Aborted), map[]));
  }

  lemma StatementKeepsInv(s: State, st: Step)
    requires Inv(s) && Enabled(s, st) && !st.Commit?
    ensures Inv(Apply(s, st))
  {
    match st
    case Tick(_) =>
    case SetActive(_, _) =>
    case Archive(_) =>
    case Present(c, t) => PresentKeepsInv(s, c, t);
    case CheckTenant(c) => CheckTenantKeepsInv(s, c);
    case Lock(c) => LockKeepsInv(s, c);
    case Mark(c) => MarkKeepsInv(s, c);
    case InsertNext(c, next) => InsertKeepsInv(s, c, next);
    case RevokeChain(c) => RevokeKeepsInv(s, c);
    case Login(c, u, next) => LoginKeepsInv(s, c, u, next);
    case Logout(c, t) => LogoutKeepsInv(s, c, t);
    case Abort(c) => AbortKeepsInv(s, c);
  }

  // === Commits ================================================================

  /** What a commit does to the committed rows: it adds rows, spends rows and revokes rows,
      and never takes any of that back or moves a row to another user. */
  ghost predicate OnlyGrows(tokens: Table, tokens': Table) {
    forall t | t in tokens ::
      && t in tokens' && tokens'[t].user == tokens[t].user && tokens'[t].expires == tokens[t].expires
      && (tokens[t].usedAt.Some? ==> tokens'[t].usedAt == tokens[t].usedAt)
      && (tokens[t].revokedAt.Some? ==> tokens'[t].revokedAt.Some?)
  }

  lemma CommitOnlyGrows(tokens: Table, k: Call)
    requires CallOk(tokens, k)
    ensures OnlyGrows(tokens, tokens + k.writes)
  {
  }

  /** Another call's view survives the commit: the locks kept the two apart. */
  lemma OtherCallStaysOk(tokens: Table, k: Call, other: Call)
    requires CallOk(tokens, k) && CallOk(tokens, other) && Committable(k.phase)
    requires Compatible(k.phase, other.phase) && Compatible(other.phase, k.phase)
    requires k.writes.Keys !! other.writes.Keys
    ensures CallOk(tokens + k.writes, other)
  {
  }

  lemma CommitKeepsCalls(s: State, c: CallId)
    requires CallsOk(s.tokens, s.calls) && LocksOk(s.calls) && Enabled(s, Commit(c))
    ensures CallsOk(Apply(s, Commit(c)).tokens, Apply(s, Commit(c)).calls)
  {
    var tokens', calls' := Apply(s, Commit(c)).tokens, Apply(s, Commit(c)).calls;
    forall d | d in calls' ensures CallOk(tokens', calls'[d]) {
      if d != c {
        OtherCallStaysOk(s.tokens, s.calls[c], s.calls[d]);
      }
    }
  }

  lemma FinishKeepsLocks(calls: map<CallId, Call>, c: CallId, o: Outcome)
    requires LocksOk(calls)
    ensures LocksOk(calls[c := Call(Finished(o), map[])])
  {
  }

  lemma CommitKeepsLineage(s: State, c: CallId)
    requires CallsOk(s.tokens, s.calls) && LineageOk(s.tokens, s.log) && Enabled(s, Commit(c))
    ensures LineageOk(Apply(s, Commit(c)).tokens, Apply(s, Commit(c)).log)
  {
    var k, tokens, log := s.calls[c], s.tokens, s.log;
    var e := CommitEvent(k.phase, c);
    assert CallOk(tokens, k);
    CommitOnlyGrows(tokens, k);
    forall t
      ensures t in tokens + k.writes ==>
                LoginIndex(log + [e], t) >= 0 && (log + [e])[LoginIndex(log + [e], t)].user == (tokens + k.writes)[t].user
      ensures t !in tokens + k.writes ==> LoginIndex(log + [e], t) == -1
    {
      LoginIndexAppend(log, e, t);
    }
  }

  /** Where a rotation inherits the login of the token it spends, and a revocation leaves no
      unrevoked token of its user behind. */
  lemma CommitKeepsNoOldChain(tokens: Table, log: seq<Event>, k: Call, c: CallId)
    requires CallOk(tokens, k) && Committable(k.phase) && LineageOk(tokens, log) && NoOldChain(tokens, log)
    ensures NoOldChain(tokens + k.writes, log + [CommitEvent(k.phase, c)])
  {
    var e := CommitEvent(k.phase, c);
    var tokens', log' := tokens + k.writes, log + [e];
    forall t, i | t in tokens' && tokens'[t].revokedAt.None? && RevokedAtIndex(log', i, tokens'[t].user)
      ensures i < LoginIndex(log', t)
    {
      LoginIndexAppend(log, e, t);
      if t in tokens {
        assert i < |log| ==> RevokedAtIndex(log, i, tokens[t].user);
      } else if k.phase.Rotating? {
        assert t == k.phase.next && RevokedAtIndex(log, i, tokens[k.phase.token].user);
      }
    }
  }

  lemma CommitKeepsRotatedOnce(tokens: Table, log: seq<Event>, k: Call, c: CallId)
    requires CallOk(tokens, k) && Committable(k.phase) && RotatedOnce(tokens, log)
    ensures RotatedOnce(tokens + k.writes, log + [CommitEvent(k.phase, c)])
  {
    var log' := log + [CommitEvent(k.phase, c)];
    CommitOnlyGrows(tokens, k);
    assert forall i, t | RotatedAtIndex(log', i, t) && i < |log| :: RotatedAtIndex(log, i, t);
  }

  /** The token spent by a rotation and its successor swap roles in the chain. */
  lemma CommitKeepsOneLive(tokens: Table, log: seq<Event>, k: Call, c: CallId)
    requires CallOk(tokens, k) && Committable(k.phase) && LineageOk(tokens, log) && OneLivePerLogin(tokens, log)
    ensures OneLivePerLogin(tokens + k.writes, log + [CommitEvent(k.phase, c)])
  {
  }

  lemma OutcomeStaysLogged(tokens: Table, tokens': Table, log: seq<Event>, e: Event, c: CallId, p: Phase)
    requires OutcomeLogged(tokens, log, c, p) && OnlyGrows(tokens, tokens')
    ensures OutcomeLogged(tokens', log + [e], c, p)
  {
    match p
    case Finished(RotatedTo(t, next)) =>
      var i :| RotatedAtIndex(log, i, t) && log[i].call == c && log[i].to == next;
      assert RotatedAtIndex(log + [e], i, t);
    case Finished(ReuseDetected(t)) =>
      var i :| RevokedAtIndex(log, i, tokens[t].user) && log[i].call == c;
      assert RevokedAtIndex(log + [e], i, tokens'[t].user);
    case _ =>
  }

  lemma CommitKeepsOutcomes(s: State, c: CallId)
    requires Inv(s) && Enabled(s, Commit(c))
    ensures OutcomesLogged(Apply(s, Commit(c)))
  {
    var s', k := Apply(s, Commit(c)), s.calls[c];
    assert CallOk(s.tokens, k);
    CommitOnlyGrows(s.tokens, k);
    forall d | d in s'.calls ensures OutcomeLogged(s'.tokens, s'.log, d, s'.calls[d].phase) {
      if d != c {
        OutcomeStaysLogged(s.tokens, s'.tokens, s.log, CommitEvent(k.phase, c), d, s.calls[d].phase);
      } else if k.phase.Rotating? {
        assert RotatedAtIndex(s'.log, |s.log|, k.phase.token);
      } else if k.phase.Revoking? {
        assert RevokedAtIndex(s'.log, |s.log|, s'.tokens[k.phase.token].user);
      }
    }
  }

  lemma StepKeepsInv(s: State, st: Step)
    requires Inv(s) && Enabled(s, st)
    ensures Inv(Apply(s, st))
    ensures OnlyGrows(s.tokens, Apply(s, st).tokens) && s.log <= Apply(s, st).log
  {
    if st.Commit? {
      CommitKeepsCalls(s, st.c);
      FinishKeepsLocks(s.calls, st.c, CommitOutcome(s.calls[st.c].phase));
      CommitKeepsLineage(s, st.c);
      assert CallOk(s.tokens, s.calls[st.c]);
      CommitKeepsNoOldChain(s.tokens, s.log, s.calls[st.c], st.c);
      CommitKeepsRotatedOnce(s.tokens, s.log, s.calls[st.c], st.c);
      CommitKeepsOneLive(s.tokens, s.log, s.calls[st.c], st.c);
      CommitKeepsOutcomes(s, st.c);
      CommitOnlyGrows(s.tokens, s.calls[st.c]);
    } else {
      StatementKeepsInv(s, st);
    }
  }

  lemma {:induction false} RunKeepsInv(b: seq<State>, n: nat)
    requires IsRun(b) && n < |b|
    ensures Inv(b[n])
  {
    if n == 0 {
      assert forall t :: LoginIndex(b[0].log, t) == -1;
    } else {
      RunKeepsInv(b, n - 1);
      assert Next(b[n - 1], b[n]);
      var st :| Enabled(b[n - 1], st) && b[n] == Apply(b[n - 1], st);
      StepKeepsInv(b[n - 1], st);
    }
  }

  // === Theorems ===============================================================

  /**
   Once a reuse revocation of user `u` is committed (event `i` of the log), every unrevoked
   token of `u`, in every later state of every run, descends from a login that committed
   after it. No rotation that was in flight at the time revives the old chain.
  */
  lemma NoChainRevival(b: seq<State>, n: nat, i: int, u: UserId, t: TokenId)
    requires IsRun(b) && n < |b|
    requires RevokedAtIndex(b[n].log, i, u)
    requires OwnedBy(b[n].tokens, t, u) && b[n].tokens[t].revokedAt.None?
    ensures exists k :: i < k < |b[n].log| && b[n].log[k].LoggedIn? && b[n].log[k].user == u
                        && Descends(b[n].log, t, b[n].log[k].token)
  {
    RunKeepsInv(b, n);
    LoginIndexIsAncestor(b[n].log, t);
    var k := LoginIndex(b[n].log, t);
    assert i < k < |b[n].log| && b[n].log[k].LoggedIn? && Descends(b[n].log, t, b[n].log[k].token);
  }

  /** In every state of every run two live tokens never descend from the same login. */
  lemma ChainHasOneLiveToken(b: seq<State>, n: nat, t: TokenId, x: TokenId)
    requires IsRun(b) && n < |b| && t in b[n].tokens && x in b[n].tokens && t != x
    requires Live(b[n].tokens[t]) && Live(b[n].tokens[x])
    ensures LoginIndex(b[n].log, t) != LoginIndex(b[n].log, x)
  {
    RunKeepsInv(b, n);
  }

  /** The log of a run only grows, so event `i` stays where it was committed. */
  lemma {:induction false} LogIsAppendOnly(b: seq<State>, m: nat, n: nat)
    requires IsRun(b) && m <= n < |b|
    ensures b[m].log <= b[n].log && OnlyGrows(b[m].tokens, b[n].tokens)
  {
    if m < n {
      LogIsAppendOnly(b, m, n - 1);
      RunKeepsInv(b, n - 1);
      assert Next(b[n - 1], b[n]);
      var st :| Enabled(b[n - 1], st) && b[n] == Apply(b[n - 1], st);
      StepKeepsInv(b[n - 1], st);
    }
  }

  ghost predicate WentThroughLock(k: Call, t: TokenId) {
    k.phase.Finished? && (k.phase.outcome == ReuseDetected(t)
                          || (k.phase.outcome.RotatedTo? && k.phase.outcome.token == t))
  }

  /** Is `t` revoked, or from a login after event `i`? */
  ghost predicate DeadOrLater(s: State, t: TokenId, i: int) {
    t in s.tokens && (s.tokens[t].revokedAt.Some? || i < LoginIndex(s.log, t))
  }

  /**
   Two refreshes of one token that both commit under the lock: at most one rotated it, and
   the other (`loser`) left a revocation in the log before which no login's chain is alive.
  */
  lemma TwoRefreshesOneRotation(b: seq<State>, n: nat, c: CallId, d: CallId, t: TokenId)
      returns (loser: CallId, i: int)
    requires IsRun(b) && n < |b| && c != d
    requires c in b[n].calls && WentThroughLock(b[n].calls[c], t)
    requires d in b[n].calls && WentThroughLock(b[n].calls[d], t)
    ensures t in b[n].tokens
    ensures loser in {c, d} && b[n].calls[loser].phase.outcome == ReuseDetected(t)
    ensures RevokedAtIndex(b[n].log, i, b[n].tokens[t].user) && b[n].log[i].call == loser
    ensures forall m, x | n <= m < |b| && OwnedBy(b[m].tokens, x, b[n].tokens[t].user) :: DeadOrLater(b[m], x, i)
  {
    var s := b[n];
    RunKeepsInv(b, n);
    assert OutcomeLogged(s.tokens, s.log, c, s.calls[c].phase);
    assert OutcomeLogged(s.tokens, s.log, d, s.calls[d].phase);
    loser := if s.calls[c].phase.outcome.ReuseDetected? then c else d;
    var u := s.tokens[t].user;
    i :| RevokedAtIndex(s.log, i, u) && s.log[i].call == loser;
    forall m, x | n <= m < |b| && OwnedBy(b[m].tokens, x, u) ensures DeadOrLater(b[m], x, i) {
      RunKeepsInv(b, m);
      LogIsAppendOnly(b, n, m);
      assert RevokedAtIndex(b[m].log, i, u);
    }
  }

  lemma RunKeepsCalls(b: seq<State>, n: nat)
    requires IsRun(b) && n < |b|
    ensures CallsOk(b[n].tokens, b[n].calls)
  {
    RunKeepsInv(b, n);
  }
}
