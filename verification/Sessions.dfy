/** Rotating refresh sessions with replay detection.
    A session's id, its raw token and its row index are one number: tokens are drawn fresh and fingerprints
    are unique, so presenting a token is presenting the index of its row. */
module Sessions {
  import opened Schema

  datatype Session = Session(
    user: nat,
    family: nat,
    expires: int,
    revoked: Option<int>,
    replacedBy: Option<nat>,
    lastUsed: int)

  datatype Rotation = Rotated(session: nat) | Unknown | Reused | Expired

  // ---- the steps on the session table ----

  /** Issue a session; without a family it founds one, named after its own id. */
  function Issue(ss: seq<Session>, user: nat, family: Option<nat>, now: int, lifetime: int): seq<Session> {
    ss + [Session(user, if family.Some? then family.value else |ss|, now + lifetime, None, None, now)]
  }

  function RevokeRow(s: Session, family: nat, now: int): Session {
    if s.family == family && s.revoked.None? then s.(revoked := Some(now)) else s
  }

  function RevokeFamily(ss: seq<Session>, family: nat, now: int): (ss': seq<Session>)
    ensures |ss'| == |ss| && forall i :: 0 <= i < |ss| ==> ss'[i] == RevokeRow(ss[i], family, now)
  {
    seq(|ss|, i requires 0 <= i < |ss| => RevokeRow(ss[i], family, now))
  }

  /** Present a refresh token. A spent one revokes its whole family; an expired one is revoked alone. */
  function Rotate(ss: seq<Session>, token: nat, now: int, lifetime: int): (Rotation, seq<Session>) {
    if token >= |ss| then (Unknown, ss)
    else
      var s := ss[token];
      if s.revoked.Some? then (Reused, RevokeFamily(ss, s.family, now))
      else if s.expires <= now then (Expired, ss[token := s.(revoked := Some(now))])
      else
        var spent := ss[token := s.(revoked := Some(now), lastUsed := now, replacedBy := Some(|ss|))];
        (Rotated(|ss|), Issue(spent, s.user, Some(s.family), now, lifetime))
  }

  function RevokeOne(ss: seq<Session>, token: nat, now: int): seq<Session> {
    if token < |ss| && ss[token].revoked.None? then ss[token := ss[token].(revoked := Some(now))] else ss
  }

  function RevokeFamilyForToken(ss: seq<Session>, token: nat, now: int): seq<Session> {
    if token < |ss| then RevokeFamily(ss, ss[token].family, now) else ss
  }

  predicate IsActive(ss: seq<Session>, id: nat, now: int) {
    id < |ss| && ss[id].revoked.None? && ss[id].expires > now
  }

  /** The calls of the routes and of the service. A refresh commits whether or not it raises, and revokes the
      family when the user is gone or disabled. */
  datatype Call =
    | Login(user: nat)
    | Refresh(token: nat, userActive: bool)
    | Logout(token: nat)
    | Revoke(token: nat)

  function Apply(ss: seq<Session>, call: Call, now: int, lifetime: int): seq<Session> {
    match call
    case Login(user) => Issue(ss, user, None, now, lifetime)
    case Refresh(token, userActive) =>
      var (rotation, ss') := Rotate(ss, token, now, lifetime);
      if rotation.Rotated? && !userActive then RevokeFamily(ss', ss'[token].family, now) else ss'
    case Logout(token) => RevokeFamilyForToken(ss, token, now)
    case Revoke(token) => RevokeOne(ss, token, now)
  }

  /** Any calls at any times; nothing is assumed about the clock. */
  function Run(ss: seq<Session>, calls: seq<(Call, int)>, lifetime: int): seq<Session> {
    if calls == [] then ss
    else
      var n := |calls| - 1;
      Apply(Run(ss, calls[..n], lifetime), calls[n].0, calls[n].1, lifetime)
  }

  // ---- the invariant ----

  /** j follows i: the next session of the same family. */
  ghost predicate Next(ss: seq<Session>, i: nat, j: nat) {
    && i < j < |ss| && ss[j].family == ss[i].family
    && forall k :: i < k < j ==> ss[k].family != ss[i].family
  }

  /** Each family: founded by the session it is named after, one user, every session but the last spent and
      linked to the next one, the last linked to nothing. */
  ghost predicate ChainsSound(ss: seq<Session>) {
    && (forall i :: 0 <= i < |ss| ==> ss[i].family <= i && ss[ss[i].family].family == ss[i].family)
    && (forall i :: 0 <= i < |ss| ==> ss[i].user == ss[ss[i].family].user)
    && LinksSound(ss)
    && (forall i: nat, j: nat :: i < j < |ss| && ss[i].family == ss[j].family ==> ss[i].replacedBy.Some?)
  }

  /** A linked session is spent, and its link leads to the next session of its family. */
  ghost predicate LinksSound(ss: seq<Session>) {
    && (forall i: nat :: i < |ss| && ss[i].replacedBy.Some? ==> ss[i].revoked.Some?)
    && (forall i: nat, j: nat {:trigger Next(ss, i, j)} :: i < |ss| && ss[i].replacedBy == Some(j) ==> Next(ss, i, j))
  }

  lemma IssueKeepsChains(ss: seq<Session>, user: nat, now: int, lifetime: int)
    requires ChainsSound(ss)
    ensures ChainsSound(Issue(ss, user, None, now, lifetime))
  {
    var ss' := Issue(ss, user, None, now, lifetime);
    forall i: nat, j: nat | i < |ss'| && ss'[i].replacedBy == Some(j)
      ensures Next(ss', i, j)
    {
      assert Next(ss, i, j);
    }
  }

  /** Changing only when rows were revoked keeps the chains, if no row is unrevoked. */
  lemma RevocationKeepsChains(ss: seq<Session>, ss': seq<Session>)
    requires ChainsSound(ss) && |ss'| == |ss|
    requires forall i :: 0 <= i < |ss| ==>
               ss'[i] == ss[i].(revoked := ss'[i].revoked) && (ss[i].revoked.Some? ==> ss'[i].revoked.Some?)
    ensures ChainsSound(ss')
  {
    forall i: nat, j: nat | i < |ss'| && ss'[i].replacedBy == Some(j)
      ensures Next(ss', i, j)
    {
      assert Next(ss, i, j);
    }
  }

  /** Only a session that nothing follows is unrevoked. */
  lemma LiveIsLast(ss: seq<Session>, i: nat, j: nat)
    requires ChainsSound(ss) && i < |ss| && ss[i].revoked.None? && j < |ss| && ss[j].family == ss[i].family
    ensures j <= i
  {
  }

  /** The table after a session was spent and its successor appended. */
  function Succeeded(ss: seq<Session>, token: nat, now: int, lifetime: int): seq<Session>
    requires token < |ss|
  {
    Issue(ss[token := ss[token].(revoked := Some(now), lastUsed := now, replacedBy := Some(|ss|))],
          ss[token].user, Some(ss[token].family), now, lifetime)
  }

  /** Spending the live end and appending its successor keeps every link sound. */
  lemma SuccessorKeepsLinks(ss: seq<Session>, token: nat, now: int, lifetime: int)
    requires ChainsSound(ss) && token < |ss| && ss[token].revoked.None?
    ensures LinksSound(Succeeded(ss, token, now, lifetime))
  {
    var ss' := Succeeded(ss, token, now, lifetime);
    forall i: nat, j: nat | i < |ss'| && ss'[i].replacedBy == Some(j)
      ensures Next(ss', i, j)
    {
      if i == token {
        forall k | token < k < |ss| ensures ss'[k].family != ss[token].family {
          assert ss[k].family != ss[token].family;
        }
      } else {
        assert Next(ss, i, j);
      }
    }
  }

  lemma SuccessorKeepsOwners(ss: seq<Session>, token: nat, now: int, lifetime: int, i: nat)
    requires ChainsSound(ss) && token < |ss| && i <= |ss|
    ensures var ss' := Succeeded(ss, token, now, lifetime);
            && |ss'| == |ss| + 1
            && ss'[i].family <= i && ss'[ss'[i].family].family == ss'[i].family && ss'[i].user == ss'[ss'[i].family].user
  {
  }

  lemma SuccessorIsOnlyEnd(ss: seq<Session>, token: nat, now: int, lifetime: int, i: nat, j: nat)
    requires ChainsSound(ss) && token < |ss| && ss[token].revoked.None? && i < j <= |ss|
    requires var ss' := Succeeded(ss, token, now, lifetime); ss'[i].family == ss'[j].family
    ensures Succeeded(ss, token, now, lifetime)[i].replacedBy.Some?
  {
    if j == |ss| && i != token { LiveIsLast(ss, token, i); }
  }

  lemma SuccessorKeepsChains(ss: seq<Session>, token: nat, now: int, lifetime: int)
    requires ChainsSound(ss) && token < |ss| && ss[token].revoked.None?
    ensures ChainsSound(Succeeded(ss, token, now, lifetime))
  {
    var ss' := Succeeded(ss, token, now, lifetime);
    SuccessorKeepsLinks(ss, token, now, lifetime);
    forall i: nat | i < |ss'|
      ensures ss'[i].family <= i && ss'[ss'[i].family].family == ss'[i].family && ss'[i].user == ss'[ss'[i].family].user
    {
      SuccessorKeepsOwners(ss, token, now, lifetime, i);
    }
    forall i: nat, j: nat | i < j < |ss'| && ss'[i].family == ss'[j].family ensures ss'[i].replacedBy.Some? {
      SuccessorIsOnlyEnd(ss, token, now, lifetime, i, j);
    }
  }

  lemma RotateKeepsChains(ss: seq<Session>, token: nat, now: int, lifetime: int)
    requires ChainsSound(ss)
    ensures ChainsSound(Rotate(ss, token, now, lifetime).1)
  {
    var (rotation, ss') := Rotate(ss, token, now, lifetime);
    if rotation.Rotated? {
      assert ss' == Succeeded(ss, token, now, lifetime);
      SuccessorKeepsChains(ss, token, now, lifetime);
    } else {
      RevocationKeepsChains(ss, ss');
    }
  }

  lemma RevokeFamilyKeepsChains(ss: seq<Session>, family: nat, now: int)
    requires ChainsSound(ss)
    ensures ChainsSound(RevokeFamily(ss, family, now))
  {
    RevocationKeepsChains(ss, RevokeFamily(ss, family, now));
  }

  lemma ApplyKeepsChains(ss: seq<Session>, call: Call, now: int, lifetime: int)
    requires ChainsSound(ss)
    ensures ChainsSound(Apply(ss, call, now, lifetime))
  {
    match call
    case Login(user) => IssueKeepsChains(ss, user, now, lifetime);
    case Refresh(token, userActive) =>
      var (rotation, ss') := Rotate(ss, token, now, lifetime);
      RotateKeepsChains(ss, token, now, lifetime);
      if rotation.Rotated? && !userActive { RevokeFamilyKeepsChains(ss', ss'[token].family, now); }
    case Logout(token) => if token < |ss| { RevokeFamilyKeepsChains(ss, ss[token].family, now); }
    case Revoke(token) => RevocationKeepsChains(ss, RevokeOne(ss, token, now));
  }

  lemma {:induction false} EveryRunKeepsChains(calls: seq<(Call, int)>, lifetime: int)
    ensures ChainsSound(Run([], calls, lifetime))
  {
    if calls != [] {
      var n := |calls| - 1;
      EveryRunKeepsChains(calls[..n], lifetime);
      ApplyKeepsChains(Run([], calls[..n], lifetime), calls[n].0, calls[n].1, lifetime);
    }
  }

  /** In every reachable state a family has one user and at most one unrevoked session, and that is its last. */
  lemma OneLiveSessionPerFamily(calls: seq<(Call, int)>, lifetime: int, i: nat, j: nat)
    requires var ss := Run([], calls, lifetime); i < |ss| && j < |ss| && ss[i].family == ss[j].family
    ensures var ss := Run([], calls, lifetime);
            && ss[i].user == ss[j].user
            && (ss[i].revoked.None? ==> j <= i)
            && (ss[i].revoked.None? && ss[j].revoked.None? ==> i == j)
  {
    EveryRunKeepsChains(calls, lifetime);
    var ss := Run([], calls, lifetime);
    assert ss[i].user == ss[ss[i].family].user && ss[j].user == ss[ss[j].family].user;
    if ss[i].revoked.None? { LiveIsLast(ss, i, j); }
    if ss[j].revoked.None? { LiveIsLast(ss, j, i); }
  }

  // ---- living sessions ----

  /** A login opens a new session of its user, in a family of its own, which is active until its lifetime is over and not beyond. */
  lemma LoginLives(ss: seq<Session>, user: nat, now: int, lifetime: int, later: int)
    ensures var ss' := Apply(ss, Login(user), now, lifetime);
            && |ss'| == |ss| + 1 && ss'[..|ss|] == ss
            && ss'[|ss|].user == user && ss'[|ss|].family == |ss|
            && (IsActive(ss', |ss|, later) <==> later < now + lifetime)
  {
  }

  /** A refresh that succeeds opens a new session of the same user and family, active for a whole lifetime from then on;
      the old one is spent and linked to it, and no other session changes. */
  lemma RefreshLives(ss: seq<Session>, token: nat, now: int, lifetime: int, later: int)
    requires IsActive(ss, token, now)
    ensures var ss' := Apply(ss, Refresh(token, true), now, lifetime);
            && |ss'| == |ss| + 1
            && ss'[|ss|].user == ss[token].user && ss'[|ss|].family == ss[token].family
            && (IsActive(ss', |ss|, later) <==> later < now + lifetime)
            && !IsActive(ss', token, later) && ss'[token].replacedBy == Some(|ss|)
            && forall i :: 0 <= i < |ss| && i != token ==> ss'[i] == ss[i]
  {
  }

  /** A row as a call at this moment leaves it: at most revoked, with the moment; what has been revoked is never changed
      again, and a session is linked to another, and last used, only as its token is spent. */
  predicate Stamped(s: Session, s': Session, now: int) {
    && s'.user == s.user && s'.family == s.family && s'.expires == s.expires
    && (s' == s || (s.revoked.None? && s'.revoked == Some(now)))
    && ((s'.replacedBy != s.replacedBy || s'.lastUsed != s.lastUsed) ==> s'.replacedBy.Some? && s'.lastUsed == now)
  }

  /** Every call stamps the rows it revokes, and the session it issues, with its own moment, and leaves the rest. */
  lemma EveryCallStamps(ss: seq<Session>, call: Call, now: int, lifetime: int)
    ensures var ss' := Apply(ss, call, now, lifetime);
            && |ss| <= |ss'| <= |ss| + 1
            && (forall i :: 0 <= i < |ss| ==> Stamped(ss[i], ss'[i], now))
            && (|ss'| > |ss| ==> ss'[|ss|].lastUsed == now && ss'[|ss|].expires == now + lifetime && ss'[|ss|].replacedBy.None?)
  {
  }

  /** Revoking one token ends its session at once and for all times, and touches no other. */
  lemma RevokeEndsOne(ss: seq<Session>, token: nat, now: int, lifetime: int, later: int)
    ensures var ss' := Apply(ss, Revoke(token), now, lifetime);
            && |ss'| == |ss| && !IsActive(ss', token, later)
            && forall i :: 0 <= i < |ss| && i != token ==> ss'[i] == ss[i]
  {
  }

  /** A token that has only run out is revoked alone: its family stays as it is. */
  lemma ExpiredIsRevokedAlone(ss: seq<Session>, token: nat, userActive: bool, now: int, lifetime: int)
    requires token < |ss| && ss[token].revoked.None? && ss[token].expires <= now
    ensures Rotate(ss, token, now, lifetime).0 == Expired
    ensures Apply(ss, Refresh(token, userActive), now, lifetime) == ss[token := ss[token].(revoked := Some(now))]
  {
  }

  /** A refresh for a user who is gone or disabled ends the family. */
  lemma InactiveUserEndsTheFamily(ss: seq<Session>, token: nat, now: int, lifetime: int, calls: seq<(Call, int)>, id: nat, later: int)
    requires IsActive(ss, token, now) && ss[token].family < |ss|
    ensures var after := Run(Apply(ss, Refresh(token, false), now, lifetime), calls, lifetime);
            id < |after| && after[id].family == ss[token].family ==> !IsActive(after, id, later)
  {
    var ss' := Apply(ss, Refresh(token, false), now, lifetime);
    assert Dead(ss', ss[token].family);
    DeadForever(ss', ss[token].family, calls, lifetime);
  }

  // ---- dead families ----

  /** No session of the family is unrevoked. */
  ghost predicate Dead(ss: seq<Session>, family: nat) {
    family < |ss| && forall i :: 0 <= i < |ss| && ss[i].family == family ==> ss[i].revoked.Some?
  }

  lemma DeadStays(ss: seq<Session>, family: nat, call: Call, now: int, lifetime: int)
    requires Dead(ss, family)
    ensures Dead(Apply(ss, call, now, lifetime), family)
  {
  }

  lemma {:induction false} DeadForever(ss: seq<Session>, family: nat, calls: seq<(Call, int)>, lifetime: int)
    requires Dead(ss, family)
    ensures Dead(Run(ss, calls, lifetime), family)
  {
    if calls != [] {
      var n := |calls| - 1;
      DeadForever(ss, family, calls[..n], lifetime);
      DeadStays(Run(ss, calls[..n], lifetime), family, calls[n].0, calls[n].1, lifetime);
    }
  }

  /** Presenting a spent token once ends its family: the request fails, and after any calls whatsoever, at any
      time, no session of the family is active again. */
  lemma ReplayKillsTheFamily(ss: seq<Session>, token: nat, userActive: bool, now: int, lifetime: int, calls: seq<(Call, int)>, id: nat, later: int)
    requires token < |ss| && ss[token].family < |ss| && ss[token].revoked.Some?
    ensures Rotate(ss, token, now, lifetime).0 == Reused
    ensures var after := Run(Apply(ss, Refresh(token, userActive), now, lifetime), calls, lifetime);
            id < |after| && after[id].family == ss[token].family ==> !IsActive(after, id, later)
  {
    var ss' := Apply(ss, Refresh(token, userActive), now, lifetime);
    assert Dead(ss', ss[token].family);
    DeadForever(ss', ss[token].family, calls, lifetime);
  }

  /** A logout ends the family the same way, whichever of its tokens is presented. */
  lemma LogoutKillsTheFamily(ss: seq<Session>, token: nat, now: int, lifetime: int, calls: seq<(Call, int)>, id: nat, later: int)
    requires token < |ss| && ss[token].family < |ss|
    ensures var after := Run(Apply(ss, Logout(token), now, lifetime), calls, lifetime);
            id < |after| && after[id].family == ss[token].family ==> !IsActive(after, id, later)
  {
    var ss' := Apply(ss, Logout(token), now, lifetime);
    assert Dead(ss', ss[token].family);
    DeadForever(ss', ss[token].family, calls, lifetime);
  }

  /** A family can only be renewed from its live end: of all tokens ever issued in it, a refresh succeeds for
      the one that is unrevoked and unexpired, and for no other. */
  lemma OnlyTheLiveEndRotates(ss: seq<Session>, token: nat, now: int, lifetime: int)
    requires ChainsSound(ss)
    ensures Rotate(ss, token, now, lifetime).0.Rotated? <==> IsActive(ss, token, now)
    ensures IsActive(ss, token, now) ==> forall j :: 0 <= j < |ss| && ss[j].family == ss[token].family ==> j <= token
  {
    if IsActive(ss, token, now) {
      forall j: nat | j < |ss| && ss[j].family == ss[token].family ensures j <= token { LiveIsLast(ss, token, j); }
    }
  }

  // ---- the service ----

  /** The service over its table: rows are stamped and linked in place. */
  class RefreshSessionService {
    var sessions: seq<Session>
    const lifetime: int

    constructor (lifetime: int)
      ensures sessions == [] && this.lifetime == lifetime
    {
      sessions := [];
      this.lifetime := lifetime;
    }

    method IssueSession(user: nat, family: Option<nat>, now: int) returns (id: nat)
      modifies this`sessions
      ensures id == |old(sessions)| && sessions == Issue(old(sessions), user, family, now, lifetime)
    {
      id := |sessions|;
      var familyId := if family.Some? then family.value else id;
      sessions := sessions + [Session(user, familyId, now + lifetime, None, None, now)];
    }

    method RevokeWholeFamily(family: nat, now: int)
      modifies this`sessions
      ensures sessions == RevokeFamily(old(sessions), family, now)
    {
      for i := 0 to |sessions|
        invariant |sessions| == |old(sessions)|
        invariant forall j :: 0 <= j < |sessions| ==>
                    sessions[j] == if j < i then RevokeRow(old(sessions)[j], family, now) else old(sessions)[j]
      {
        if sessions[i].family == family && sessions[i].revoked.None? {
          sessions := sessions[i := sessions[i].(revoked := Some(now))];
        }
      }
    }

    method RotateToken(token: nat, now: int) returns (rotation: Rotation)
      modifies this`sessions
      ensures (rotation, sessions) == Rotate(old(sessions), token, now, lifetime)
    {
      if token >= |sessions| {
        return Unknown;
      }
      var current := sessions[token];
      if current.revoked.Some? {
        RevokeWholeFamily(current.family, now);
        return Reused;
      }
      if current.expires <= now {
        sessions := sessions[token := current.(revoked := Some(now))];
        return Expired;
      }
      sessions := sessions[token := current.(revoked := Some(now), lastUsed := now)];
      var issued := IssueSession(current.user, Some(current.family), now);
      sessions := sessions[token := sessions[token].(replacedBy := Some(issued))];
      assert sessions == Rotate(old(sessions), token, now, lifetime).1;
      return Rotated(issued);
    }

    /** The refresh route: what the rotation wrote is kept even when the request fails. */
    method RefreshRoute(token: nat, userActive: bool, now: int) returns (issued: Option<nat>)
      modifies this`sessions
      ensures sessions == Apply(old(sessions), Refresh(token, userActive), now, lifetime)
      ensures issued.Some? <==> Rotate(old(sessions), token, now, lifetime).0.Rotated? && userActive
      ensures issued.Some? ==> issued.value == |old(sessions)|
    {
      var rotation := RotateToken(token, now);
      if !rotation.Rotated? {
        return None;
      }
      if !userActive {
        RevokeWholeFamily(sessions[token].family, now);
        return None;
      }
      return Some(rotation.session);
    }

    method LogoutRoute(token: nat, now: int)
      modifies this`sessions
      ensures sessions == Apply(old(sessions), Logout(token), now, lifetime)
    {
      if token < |sessions| {
        RevokeWholeFamily(sessions[token].family, now);
      }
    }
  }
}
