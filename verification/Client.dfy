/** The browser's single-flight refresh against the session server: one tab, every interleaving. */
module Client {
  import opened Schema
  import opened Sessions

  /** Where the one shared refresh request is: none pending, on its way with the cookie's token,
      or answered with the response on its way back. */
  datatype Flight = Idle | Posted(token: nat) | Answered(rotation: Rotation)

  datatype State = State(sessions: seq<Session>, cookie: nat, flight: Flight)

  /** One event anywhere: some request got a 401 and asks for a refresh; the server handles the pending refresh;
      its response arrives; or the server handles a call of somebody else. */
  datatype Event =
    | Unauthorized
    | ServerHandles(now: int)
    | ResponseArrives
    | Elsewhere(call: Call, now: int)

  /** A refresh is sent only when none is pending; further 401s join the pending one. */
  function Step(s: State, event: Event, lifetime: int): State {
    match event
    case Unauthorized => if s.flight.Idle? then s.(flight := Posted(s.cookie)) else s
    case ServerHandles(now) =>
      if s.flight.Posted? then
        var (rotation, sessions) := Rotate(s.sessions, s.flight.token, now, lifetime);
        s.(sessions := sessions, flight := Answered(rotation))
      else s
    case ResponseArrives =>
      if s.flight.Answered? then
        s.(cookie := if s.flight.rotation.Rotated? then s.flight.rotation.session else s.cookie, flight := Idle)
      else s
    case Elsewhere(call, now) => s.(sessions := Apply(s.sessions, call, now, lifetime))
  }

  function Run(s: State, events: seq<Event>, lifetime: int): State {
    if events == [] then s
    else Step(Run(s, events[..|events| - 1], lifetime), events[|events| - 1], lifetime)
  }

  /** The token the client stands on: the one in flight once answered, else the cookie. */
  function Held(s: State): nat {
    if s.flight.Answered? && s.flight.rotation.Rotated? then s.flight.rotation.session else s.cookie
  }

  /** The call concerns a session of another family, or founds a new one. */
  predicate Foreign(ss: seq<Session>, family: nat, call: Call) {
    match call
    case Login(_) => true
    case Refresh(token, _) => token < |ss| ==> ss[token].family != family
    case Logout(token) => token < |ss| ==> ss[token].family != family
    case Revoke(token) => token < |ss| ==> ss[token].family != family
  }

  /** When the session the client stands on was issued: with the last refresh the server handled, or at `since`. */
  function IssuedAt(s: State, events: seq<Event>, since: int, lifetime: int): int {
    if events == [] then since
    else
      var n := |events| - 1;
      if events[n].ServerHandles? && Run(s, events[..n], lifetime).flight.Posted? then events[n].now
      else IssuedAt(s, events[..n], since, lifetime)
  }

  /** Nobody else presents this family's tokens, and the server handles each refresh within a lifetime of the one before. */
  ghost predicate Fair(s: State, events: seq<Event>, family: nat, since: int, lifetime: int) {
    forall n: nat :: n < |events| ==>
      match events[n]
      case Elsewhere(call, now) => Foreign(Run(s, events[..n], lifetime).sessions, family, call)
      case ServerHandles(now) =>
        Run(s, events[..n], lifetime).flight.Posted? ==> now < IssuedAt(s, events[..n], since, lifetime) + lifetime
      case _ => true
  }

  ghost predicate GoodUntil(ss: seq<Session>, id: nat, end: int) {
    forall later :: IsActive(ss, id, later) <==> later < end
  }

  lemma GoodUntilFrame(ss: seq<Session>, ss': seq<Session>, id: nat, end: int)
    requires GoodUntil(ss, id, end) && id < |ss| && id < |ss'| && ss'[id] == ss[id]
    ensures GoodUntil(ss', id, end)
  {
    forall later ensures IsActive(ss', id, later) <==> later < end { assert IsActive(ss, id, later) <==> later < end; }
  }

  /** The client holds the family's live session, issued at `since` for a lifetime, and a request in flight carries that very token. */
  ghost predicate InStep(s: State, family: nat, since: int, lifetime: int) {
    && ChainsSound(s.sessions)
    && Held(s) < |s.sessions| && s.sessions[Held(s)].family == family && s.sessions[Held(s)].revoked.None?
    && GoodUntil(s.sessions, Held(s), since + lifetime)
    && (s.flight.Posted? ==> s.flight.token == s.cookie)
    && (s.flight.Answered? ==> s.flight.rotation.Rotated?)
  }

  lemma ForeignLeavesFamily(ss: seq<Session>, family: nat, call: Call, now: int, lifetime: int, i: nat)
    requires ChainsSound(ss) && Foreign(ss, family, call) && i < |ss| && ss[i].family == family
    ensures i < |Apply(ss, call, now, lifetime)| && Apply(ss, call, now, lifetime)[i] == ss[i]
  {
  }

  lemma StepKeepsInStep(s: State, event: Event, family: nat, since: int, lifetime: int)
    requires InStep(s, family, since, lifetime)
    requires event.Elsewhere? ==> Foreign(s.sessions, family, event.call)
    requires event.ServerHandles? && s.flight.Posted? ==> event.now < since + lifetime
    ensures InStep(Step(s, event, lifetime), family, if event.ServerHandles? && s.flight.Posted? then event.now else since, lifetime)
    ensures event.ServerHandles? && s.flight.Posted? ==> Rotate(s.sessions, s.flight.token, event.now, lifetime).0.Rotated?
  {
    match event
    case Elsewhere(call, now) => ForeignCallKeepsInStep(s, call, now, family, since, lifetime);
    case ServerHandles(now) => if s.flight.Posted? { RefreshKeepsInStep(s, now, family, since, lifetime); }
    case _ =>
  }

  lemma ForeignCallKeepsInStep(s: State, call: Call, now: int, family: nat, since: int, lifetime: int)
    requires InStep(s, family, since, lifetime) && Foreign(s.sessions, family, call)
    ensures InStep(s.(sessions := Apply(s.sessions, call, now, lifetime)), family, since, lifetime)
  {
    ApplyKeepsChains(s.sessions, call, now, lifetime);
    ForeignLeavesFamily(s.sessions, family, call, now, lifetime, Held(s));
    GoodUntilFrame(s.sessions, Apply(s.sessions, call, now, lifetime), Held(s), since + lifetime);
  }

  lemma RefreshKeepsInStep(s: State, now: int, family: nat, since: int, lifetime: int)
    requires InStep(s, family, since, lifetime) && s.flight.Posted? && now < since + lifetime
    ensures InStep(Step(s, ServerHandles(now), lifetime), family, now, lifetime)
    ensures Rotate(s.sessions, s.flight.token, now, lifetime).0.Rotated?
  {
    assert IsActive(s.sessions, s.flight.token, now);
    RotateKeepsChains(s.sessions, s.flight.token, now, lifetime);
    var ss' := Rotate(s.sessions, s.flight.token, now, lifetime).1;
    forall later ensures IsActive(ss', |s.sessions|, later) <==> later < now + lifetime {
      RefreshLives(s.sessions, s.flight.token, now, lifetime, later);
    }
  }

  /** Between login and logout, as long as refreshes are handled within a lifetime of each other, the honest client is
      never out of step: whatever the interleaving of 401s, server work, responses and other people's calls, every refresh
      it sends is answered with a new session, and its family always has a live session, which is the one it holds. */
  lemma {:induction false} HonestClientStaysInStep(s: State, events: seq<Event>, family: nat, since: int, lifetime: int)
    requires InStep(s, family, since, lifetime) && Fair(s, events, family, since, lifetime)
    ensures InStep(Run(s, events, lifetime), family, IssuedAt(s, events, since, lifetime), lifetime)
    decreases |events|
  {
    if events != [] {
      var n := |events| - 1;
      assert Fair(s, events[..n], family, since, lifetime) by {
        forall m: nat | m < n ensures events[..n][m] == events[m] && events[..n][..m] == events[..m] { }
      }
      HonestClientStaysInStep(s, events[..n], family, since, lifetime);
      StepKeepsInStep(Run(s, events[..n], lifetime), events[n], family, IssuedAt(s, events[..n], since, lifetime), lifetime);
    }
  }

  /** So no refresh of the honest client is ever taken for a replay. */
  lemma HonestClientIsNeverTakenForAReplay(s: State, events: seq<Event>, family: nat, since: int, lifetime: int, now: int)
    requires InStep(s, family, since, lifetime) && Fair(s, events, family, since, lifetime)
    requires Run(s, events, lifetime).flight.Posted? && now < IssuedAt(s, events, since, lifetime) + lifetime
    ensures var at := Run(s, events, lifetime); Rotate(at.sessions, at.flight.token, now, lifetime).0.Rotated?
  {
    HonestClientStaysInStep(s, events, family, since, lifetime);
    StepKeepsInStep(Run(s, events, lifetime), ServerHandles(now), family, IssuedAt(s, events, since, lifetime), lifetime);
  }

  /** A login puts the client in step. */
  lemma LoginStartsInStep(ss: seq<Session>, user: nat, now: int, lifetime: int)
    requires ChainsSound(ss)
    ensures InStep(State(Apply(ss, Login(user), now, lifetime), |ss|, Idle), |ss|, now, lifetime)
  {
    ApplyKeepsChains(ss, Login(user), now, lifetime);
    forall later ensures IsActive(Apply(ss, Login(user), now, lifetime), |ss|, later) <==> later < now + lifetime {
      LoginLives(ss, user, now, lifetime, later);
    }
  }

  /** A 401 while nothing is pending leads, once handled and answered, to a new cookie that is good for another lifetime;
      further 401s on the way change nothing. */
  lemma OneRound(s: State, family: nat, since: int, lifetime: int, now: int, later: int)
    requires InStep(s, family, since, lifetime) && s.flight.Idle? && now < since + lifetime
    ensures var asked := Step(s, Unauthorized, lifetime);
            var handled := Step(Step(asked, Unauthorized, lifetime), ServerHandles(now), lifetime);
            var done := Step(Step(handled, Unauthorized, lifetime), ResponseArrives, lifetime);
            && Step(asked, Unauthorized, lifetime) == asked && Step(handled, Unauthorized, lifetime) == handled
            && done.flight.Idle? && done.cookie == |s.sessions|
            && (IsActive(done.sessions, done.cookie, later) <==> later < now + lifetime)
  {
    assert IsActive(s.sessions, s.cookie, now);
    RefreshLives(s.sessions, s.cookie, now, lifetime, later);
  }

  /** Why the refresh is shared: two requests with the same cookie leave the family dead, for good. */
  lemma TwoFlightsKillTheFamily(ss: seq<Session>, token: nat, first: int, second: int, lifetime: int)
    requires ChainsSound(ss) && IsActive(ss, token, first)
    ensures var (one, ss1) := Rotate(ss, token, first, lifetime);
            var (two, ss2) := Rotate(ss1, token, second, lifetime);
            one.Rotated? && two == Reused && Dead(ss2, ss[token].family)
  {
  }
}
