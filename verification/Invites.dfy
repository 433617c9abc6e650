/**
 Claiming a worker invite, as concurrent transactions with row locks. Every write to
 `worker_invite` stamps used_at, so the rows a call has written but not committed are
 kept as a set of invite ids.
*/
module Invites {
  import opened Options

  type UserId = nat
  type InviteId = nat
  type DeviceId = nat
  type CallId = nat

  datatype Invite = Invite(user: UserId, expires: int, usedAt: Option<int>)

  datatype Phase =
    | Found(invite: InviteId)                         // GetActiveInvite returned the row
    | Claimed(invite: InviteId)                       // ClaimInvite affected it
    | Minting(invite: InviteId, device: DeviceId)     // InsertDeviceToken
    | Voiding(user: UserId)                           // VoidWorkerInvites of a re-invite
    | Done(minted: Option<DeviceId>)

  datatype Call = Call(phase: Phase, stamped: set<InviteId>)

  /** A committed claim. */
  datatype Claim = Claim(invite: InviteId, device: DeviceId)

  datatype State = State(
    invites: map<InviteId, Invite>,
    devices: map<DeviceId, UserId>,
    active: set<UserId>,
    calls: map<CallId, Call>,
    now: int,
    claims: seq<Claim>)

  datatype Step =
    | Tick(elapsed: nat)
    | SetActive(user: UserId, active: bool)
    | Issue(invite: InviteId, user: UserId, expires: int)
    | Find(c: CallId, invite: InviteId)
    | ClaimRow(c: CallId)
    | Mint(c: CallId, device: DeviceId)
    | Void(c: CallId, user: UserId)
    | Commit(c: CallId)
    | Abort(c: CallId)       // also a refusal for an archived tenant

  predicate RowFree(s: State, c: CallId, i: InviteId) {
    forall d | d in s.calls && d != c :: i !in s.calls[d].stamped
  }

  predicate Enabled(s: State, st: Step) {
    match st
    case Tick(_) => true
    case SetActive(_, _) => true
    case Issue(i, _, _) => i !in s.invites
    case Find(c, _) => c !in s.calls
    case ClaimRow(c) => c in s.calls && s.calls[c].phase.Found? && RowFree(s, c, s.calls[c].phase.invite)
    case Mint(c, d) =>
      && c in s.calls && s.calls[c].phase.Claimed? && d !in s.devices
      && forall e | e in s.calls :: !(s.calls[e].phase.Minting? && s.calls[e].phase.device == d)
    case Void(c, u) =>
      && c !in s.calls
      && forall i | i in s.invites && s.invites[i].user == u && s.invites[i].usedAt.None? :: RowFree(s, c, i)
    case Commit(c) => c in s.calls && (s.calls[c].phase.Minting? || s.calls[c].phase.Voiding?)
    case Abort(c) => c in s.calls && !s.calls[c].phase.Done?
  }

  predicate Claimable(s: State, i: InviteId) {
    i in s.invites && s.invites[i].usedAt.None? && s.invites[i].expires > s.now && s.invites[i].user in s.active
  }

  function Stamp(invites: map<InviteId, Invite>, ids: set<InviteId>, now: int): map<InviteId, Invite> {
    map i | i in invites :: if i in ids then invites[i].(usedAt := Some(now)) else invites[i]
  }

  function ClaimedCall(s: State, i: InviteId): Call {
    if i in s.invites && s.invites[i].usedAt.None? then Call(Claimed(i), {i}) else Call(Done(None), {})
  }

  function Apply(s: State, st: Step): State
    requires Enabled(s, st)
  {
    match st
    case Tick(d) => s.(now := s.now + d)
    case SetActive(u, a) => s.(active := if a then s.active + {u} else s.active - {u})
    case Issue(i, u, e) => s.(invites := s.invites[i := Invite(u, e, None)])
    case Find(c, i) => s.(calls := s.calls[c := Call(if Claimable(s, i) then Found(i) else Done(None), {})])
    case ClaimRow(c) => s.(calls := s.calls[c := ClaimedCall(s, s.calls[c].phase.invite)])
    case Mint(c, d) => s.(calls := s.calls[c := Call(Minting(s.calls[c].phase.invite, d), s.calls[c].stamped)])
    case Void(c, u) =>
      s.(calls := s.calls[c := Call(Voiding(u), set i | i in s.invites && s.invites[i].user == u && s.invites[i].usedAt.None?)])
    case Commit(c) =>
      var k := s.calls[c];
      var s1 := s.(invites := Stamp(s.invites, k.stamped, s.now));
      (match k.phase
       case Minting(i, d) =>
         s1.(devices := s.devices[d := if i in s.invites then s.invites[i].user else 0],
             calls := s.calls[c := Call(Done(Some(d)), {})],
             claims := s.claims + [Claim(i, d)])
       case _ => s1.(calls := s.calls[c := Call(Done(None), {})]))
    case Abort(c) => s.(calls := s.calls[c := Call(Done(None), {})])
  }

  // === Invariant ==============================================================

  /** An open call's stamped rows are committed and still unused. */
  ghost predicate CallOk(s: State, k: Call) {
    && (forall i | i in k.stamped :: i in s.invites && s.invites[i].usedAt.None?)
    && match k.phase
       case Found(i) => i in s.invites && k.stamped == {}
       case Claimed(i) => k.stamped == {i}
       case Minting(i, d) => k.stamped == {i} && d !in s.devices
       case Voiding(_) => true
       case Done(_) => k.stamped == {}
  }

  ghost predicate CallsOk(s: State) {
    forall c | c in s.calls :: CallOk(s, s.calls[c])
  }

  ghost predicate LocksOk(s: State) {
    && (forall c, d | c in s.calls && d in s.calls && c != d :: s.calls[c].stamped !! s.calls[d].stamped)
    && (forall c, d | c in s.calls && d in s.calls && c != d && s.calls[c].phase.Minting? && s.calls[d].phase.Minting? ::
          s.calls[c].phase.device != s.calls[d].phase.device)
  }

  ghost predicate ClaimsOk(s: State) {
    && (forall j | 0 <= j < |s.claims| ::
          && s.claims[j].invite in s.invites && s.invites[s.claims[j].invite].usedAt.Some?
          && s.claims[j].device in s.devices
          && s.devices[s.claims[j].device] == s.invites[s.claims[j].invite].user)
    && (forall j, k | 0 <= j < k < |s.claims| :: s.claims[j].invite != s.claims[k].invite)
    && (forall d | d in s.devices :: exists j :: 0 <= j < |s.claims| && s.claims[j].device == d)
  }

  ghost predicate Inv(s: State) { CallsOk(s) && LocksOk(s) && ClaimsOk(s) }

  lemma CommitKeepsClaims(s: State, c: CallId)
    requires Inv(s) && Enabled(s, Commit(c))
    ensures ClaimsOk(Apply(s, Commit(c)))
  {
    var s' := Apply(s, Commit(c));
    assert CallOk(s, s.calls[c]);
    forall d | d in s'.devices ensures exists j :: 0 <= j < |s'.claims| && s'.claims[j].device == d {
      if d in s.devices {
        var j :| 0 <= j < |s.claims| && s.claims[j].device == d;
        assert s'.claims[j].device == d;
      } else {
        assert s'.claims[|s.claims|].device == d;
      }
    }
  }

  lemma CommitKeepsCalls(s: State, c: CallId)
    requires Inv(s) && Enabled(s, Commit(c))
    ensures CallsOk(Apply(s, Commit(c))) && LocksOk(Apply(s, Commit(c)))
  {
    var s' := Apply(s, Commit(c));
    forall d | d in s'.calls ensures CallOk(s', s'.calls[d]) {
      assert d != c ==> CallOk(s, s.calls[d]);
    }
  }

  /** A statement of one call: nothing committed changes, and what it stamps nobody else holds. */
  lemma LocalStepKeepsInv(s: State, c: CallId, k: Call)
    requires Inv(s) && CallOk(s, k)
    requires forall d | d in s.calls && d != c :: k.stamped !! s.calls[d].stamped
    requires k.phase.Minting? ==>
               forall d | d in s.calls && d != c && s.calls[d].phase.Minting? :: s.calls[d].phase.device != k.phase.device
    ensures Inv(s.(calls := s.calls[c := k]))
  {
  }

  lemma ClaimKeepsInv(s: State, c: CallId)
    requires Inv(s) && Enabled(s, ClaimRow(c))
    ensures Inv(Apply(s, ClaimRow(c)))
  {
    LocalStepKeepsInv(s, c, ClaimedCall(s, s.calls[c].phase.invite));
  }

  lemma MintKeepsInv(s: State, c: CallId, d: DeviceId)
    requires Inv(s) && Enabled(s, Mint(c, d))
    ensures Inv(Apply(s, Mint(c, d)))
  {
    assert CallOk(s, s.calls[c]);
    LocalStepKeepsInv(s, c, Call(Minting(s.calls[c].phase.invite, d), s.calls[c].stamped));
  }

  lemma VoidKeepsInv(s: State, c: CallId, u: UserId)
    requires Inv(s) && Enabled(s, Void(c, u))
    ensures Inv(Apply(s, Void(c, u)))
  {
    LocalStepKeepsInv(s, c, Apply(s, Void(c, u)).calls[c]);
  }

  lemma FindKeepsInv(s: State, c: CallId, i: InviteId)
    requires Inv(s) && Enabled(s, Find(c, i))
    ensures Inv(Apply(s, Find(c, i)))
  {
    LocalStepKeepsInv(s, c, Apply(s, Find(c, i)).calls[c]);
  }

  lemma AbortKeepsInv(s: State, c: CallId)
    requires Inv(s) && Enabled(s, Abort(c))
    ensures Inv(Apply(s, Abort(c)))
  {
    LocalStepKeepsInv(s, c, Call(Done(None), {}));
  }

  lemma IssueKeepsInv(s: State, i: InviteId, u: UserId, expires: int)
    requires Inv(s) && Enabled(s, Issue(i, u, expires))
    ensures Inv(Apply(s, Issue(i, u, expires)))
  {
    var s' := Apply(s, Issue(i, u, expires));
    forall c | c in s.calls ensures CallOk(s', s.calls[c]) {
      assert CallOk(s, s.calls[c]);
    }
  }

  lemma StepKeepsInv(s: State, st: Step)
    requires Inv(s) && Enabled(s, st)
    ensures Inv(Apply(s, st))
  {
    match st
    case Tick(_) =>
    case SetActive(_, _) =>
    case Issue(i, u, expires) => IssueKeepsInv(s, i, u, expires);
    case Find(c, i) => FindKeepsInv(s, c, i);
    case ClaimRow(c) => ClaimKeepsInv(s, c);
    case Mint(c, d) => MintKeepsInv(s, c, d);
    case Void(c, u) => VoidKeepsInv(s, c, u);
    case Commit(c) =>
      CommitKeepsClaims(s, c);
      CommitKeepsCalls(s, c);
    case Abort(c) => AbortKeepsInv(s, c);
  }

  ghost predicate Next(s: State, s': State) {
    exists st :: Enabled(s, st) && s' == Apply(s, st)
  }

  ghost predicate IsRun(b: seq<State>) {
    && |b| > 0 && b[0].devices == map[] && b[0].calls == map[] && b[0].claims == []
    && forall i | 0 < i < |b| :: StepAt(b, i)
  }

  ghost predicate StepAt(b: seq<State>, i: int)
    requires 0 < i < |b|
  {
    Next(b[i - 1], b[i])
  }

  lemma {:induction false} RunKeepsInv(b: seq<State>, n: nat)
    requires IsRun(b) && n < |b|
    ensures Inv(b[n])
  {
    if n > 0 {
      RunKeepsInv(b, n - 1);
      assert StepAt(b, n);
      var st :| Enabled(b[n - 1], st) && b[n] == Apply(b[n - 1], st);
      StepKeepsInv(b[n - 1], st);
    }
  }

  /**
   In every state of every run, each device token was minted by a committed claim of an
   invite of its own user, that invite is spent, and no invite minted two of them.
  */
  lemma OneDevicePerInvite(b: seq<State>, n: nat, d: DeviceId) returns (j: nat)
    requires IsRun(b) && n < |b| && d in b[n].devices
    ensures j < |b[n].claims| && b[n].claims[j].device == d
    ensures b[n].claims[j].invite in b[n].invites
    ensures b[n].invites[b[n].claims[j].invite].usedAt.Some?
    ensures b[n].invites[b[n].claims[j].invite].user == b[n].devices[d]
    ensures forall k | 0 <= k < |b[n].claims| && b[n].claims[k].invite == b[n].claims[j].invite :: k == j
  {
    RunKeepsInv(b, n);
    j :| 0 <= j < |b[n].claims| && b[n].claims[j].device == d;
  }

  // === When an invite mints ===================================================

  /** There, unused, unexpired, and its user active. */
  ghost predicate Redeemable(s: State, i: InviteId) {
    && i in s.invites && s.invites[i].usedAt.None? && s.now < s.invites[i].expires
    && s.invites[i].user in s.active
  }

  ghost predicate WasRedeemable(b: seq<State>, n: int, i: InviteId) {
    exists k :: 0 <= k <= n < |b| && Redeemable(b[k], i)
  }

  function InviteOf(p: Phase): Option<InviteId> {
    match p
    case Found(i) => Some(i)
    case Claimed(i) => Some(i)
    case Minting(i, _) => Some(i)
    case _ => None
  }

  /** Every claim, made or under way, is of an invite that was redeemable at some point. */
  ghost predicate ClaimsFounded(b: seq<State>, n: int)
    requires 0 <= n < |b|
  {
    && (forall c | c in b[n].calls && InviteOf(b[n].calls[c].phase).Some? :: WasRedeemable(b, n, InviteOf(b[n].calls[c].phase).value))
    && (forall j | 0 <= j < |b[n].claims| :: WasRedeemable(b, n, b[n].claims[j].invite))
  }

  /** A step starts no claim but of a redeemable invite. */
  lemma StepFounds(s: State, st: Step)
    requires Enabled(s, st)
    ensures var s' := Apply(s, st);
            && (forall c | c in s'.calls && InviteOf(s'.calls[c].phase).Some? ::
                  || Redeemable(s, InviteOf(s'.calls[c].phase).value)
                  || (c in s.calls && InviteOf(s'.calls[c].phase) == InviteOf(s.calls[c].phase)))
            && |s.claims| <= |s'.claims|
            && (forall j | 0 <= j < |s.claims| :: s'.claims[j] == s.claims[j])
            && (forall j | |s.claims| <= j < |s'.claims| ::
                  exists c :: c in s.calls && InviteOf(s.calls[c].phase) == Some(s'.claims[j].invite))
  {
    var s' := Apply(s, st);
    forall j | |s.claims| <= j < |s'.claims|
      ensures exists c :: c in s.calls && InviteOf(s.calls[c].phase) == Some(s'.claims[j].invite)
    {
      assert st.Commit? && InviteOf(s.calls[st.c].phase) == Some(s'.claims[j].invite);
    }
  }

  lemma StillFounded(b: seq<State>, n: nat, i: InviteId)
    requires 0 < n < |b| && WasRedeemable(b, n - 1, i)
    ensures WasRedeemable(b, n, i)
  {
    var k :| 0 <= k <= n - 1 && Redeemable(b[k], i);
  }

  lemma {:induction false} RunIsFounded(b: seq<State>, n: nat)
    requires IsRun(b) && n < |b|
    ensures ClaimsFounded(b, n)
  {
    if n > 0 {
      RunIsFounded(b, n - 1);
      assert StepAt(b, n);
      var st :| Enabled(b[n - 1], st) && b[n] == Apply(b[n - 1], st);
      StepFounds(b[n - 1], st);
      forall c | c in b[n].calls && InviteOf(b[n].calls[c].phase).Some?
        ensures WasRedeemable(b, n, InviteOf(b[n].calls[c].phase).value)
      {
        var i := InviteOf(b[n].calls[c].phase).value;
        if !Redeemable(b[n - 1], i) { StillFounded(b, n, i); }
      }
      forall j | 0 <= j < |b[n].claims| ensures WasRedeemable(b, n, b[n].claims[j].invite) {
        StillFounded(b, n, b[n].claims[j].invite);
      }
    }
  }

  /** So no device token comes of an invite that was, whenever it was looked up, used, expired or
      of an inactive user. */
  lemma OnlyRedeemableInvitesMint(b: seq<State>, n: nat, d: DeviceId) returns (j: nat, k: nat)
    requires IsRun(b) && n < |b| && d in b[n].devices
    ensures j < |b[n].claims| && b[n].claims[j].device == d
    ensures k <= n && Redeemable(b[k], b[n].claims[j].invite)
  {
    j := OneDevicePerInvite(b, n, d);
    RunIsFounded(b, n);
    k :| 0 <= k <= n && Redeemable(b[k], b[n].claims[j].invite);
  }
}
