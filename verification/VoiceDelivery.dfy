/** Events that arrive late. In `VoiceSystem` everybody has handled an event before the next step;
    here a client may lag behind by any number of events. */
module VoiceDelivery {
  import Lists
  import opened Options
  import opened VoiceServer
  import opened VoiceClient
  import opened VoiceSystem
  import opened CallHandlers

  /** Whose client takes part in a step beyond handling events. */
  function Actor(step: Step): Option<UserId> {
    match step
    case Timeout(_, _, _) => None
    case CreateChannel(_, _) => None
    case _ => Some(step.user)
  }

  /** The events of a step. */
  ghost function SentBy(s: System, step: Step): seq<Broadcast>
    requires JoinedListed(s.server) && Enabled(s, step)
  {
    match step
    case Call(u, c, muted, deafen, callId, now) =>
      if IsMember(s, u, c) then CallHandled(s.server, s.members[c], u, c, muted, deafen, callId, now).sent else []
    case JoinCall(u, c, muted, deafen, now) => JoinChannel(s.server, u, c, muted, deafen, now).sent
    case LeaveCall(u, now) => Leave(s.server, u, now).sent
    case SetVoiceState(u, muted, deafen) => SetState(s.server, u, muted, deafen).sent
    case Timeout(c, u, now) => Expire(s.server, c, u, now).sent
    case Login(_) => []
    case Load(_, _) => []
    case CreateChannel(_, _) => []
    case Logout(u, now) => Leave(s.server, u, now).sent
  }

  /** A client that does not act itself does nothing in a step but handle its events. */
  lemma StepDelivers(s: System, step: Step, x: UserId)
    requires JoinedListed(s.server) && Enabled(s, step) && x in s.clients && Actor(step) != Some(x)
    ensures x in Apply(s, step).clients && Apply(s, step).clients[x] == Receive(s.clients[x], x, SentBy(s, step))
  {
    match step
    case Call(u, c, muted, deafen, callId, now) =>
      if IsMember(s, u, c) {
        CallStepIsHandler(s, u, c, muted, deafen, callId, now);
        hide CallStep, CallHandled, Receive;
      }
    case JoinCall(u, c, muted, deafen, now) =>
      JoinStepIsHandler(s, u, c, muted, deafen, now);
      hide JoinCallStep, JoinChannel, ClearCurrentCall, Receive;
    case LeaveCall(u, now) => hide Leave, ClearCurrentCall, Receive;
    case SetVoiceState(u, muted, deafen) => hide SetState, Receive;
    case Timeout(c, u, now) => hide Expire, Receive;
    case Login(_) => hide Receive;
    case Load(_, _) => hide Receive;
    case CreateChannel(_, _) => hide Receive;
    case Logout(u, now) => hide Leave, ClearCurrentCall, Receive;
  }

  /** The user of `x` does nothing in the steps. */
  ghost predicate Idle(steps: seq<Step>, x: UserId) { forall i :: 0 <= i < |steps| ==> Actor(steps[i]) != Some(x) }

  ghost function SentOver(s: System, steps: seq<Step>): seq<Broadcast>
    requires Invariant(s) && Admissible(s, steps)
    decreases |steps|
  {
    if steps == [] then []
    else
      StepKeepsInvariant(s, steps[0]);
      SentBy(s, steps[0]) + SentOver(Apply(s, steps[0]), steps[1..])
  }

  lemma {:induction false} RunDelivers(s: System, steps: seq<Step>, x: UserId)
    requires Invariant(s) && Admissible(s, steps) && x in s.clients
    requires Idle(steps, x)
    ensures x in Run(s, steps).clients && Run(s, steps).clients[x] == Receive(s.clients[x], x, SentOver(s, steps))
    decreases |steps|
  {
    if steps != [] {
      var t := Apply(s, steps[0]);
      StepKeepsInvariant(s, steps[0]);
      StepDelivers(s, steps[0], x);
      assert JoinedListed(s.server);
      hide Invariant, Apply, Enabled, SentBy, Receive;
      RunDelivers(t, steps[1..], x);
      ReceiveAppend(s.clients[x], x, SentBy(s, steps[0]), SentOver(t, steps[1..]));
    }
  }

  /** However far a client lags behind, as long as its user does nothing in the meantime: having
      handled any prefix of the events, it agrees with the server once it has handled the rest. */
  lemma LaggingClientCatchesUp(s: System, steps: seq<Step>, x: UserId, k: nat)
    requires Invariant(s) && Admissible(s, steps) && x in s.clients
    requires Idle(steps, x)
    requires k <= |SentOver(s, steps)|
    ensures var sent, t := SentOver(s, steps), Run(s, steps); var lagging := Receive(s.clients[x], x, sent[..k]);
            x in t.clients && Receive(lagging, x, sent[k..]) == t.clients[x] && Agrees(t, x)
  {
    var sent := SentOver(s, steps);
    RunDelivers(s, steps, x);
    InvariantMeans(Run(s, steps), x);
    assert sent == sent[..k] + sent[k..];
    ReceiveAppend(s.clients[x], x, sent[..k], sent[k..]);
    hide *;
  }

  // --------------------------------------------- leaving while lagging behind

  /** None of the broadcasts ends the call in `c`. */
  ghost predicate Spares(sent: seq<Broadcast>, c: ChannelId) {
    forall i :: 0 <= i < |sent| ==> sent[i].event != CallEnded(c)
  }

  lemma LeaveStays(s: Server, u: UserId, x: UserId, now: int)
    requires JoinedListed(s) && u != x && x in s.joined
    ensures var t := Leave(s, u, now).server; x in t.joined && t.joined[x] == s.joined[x]
  {
    hide Occupied;
  }

  /** Whoever stays in a channel keeps its call from being ended by anybody's leaving. */
  lemma LeaveSpares(s: Server, u: UserId, x: UserId, now: int)
    requires JoinedListed(s) && u != x && x in s.joined
    ensures Spares(Leave(s, u, now).sent, s.joined[x])
  {
    if u in s.joined {
      var joined := Left(s, u, now).joined;
      assert x in joined && joined[x] == s.joined[x];
      assert s.joined[u] == s.joined[x] ==> Occupied(joined, s.joined[u]);
      hide Occupied, Left, JoinedListed, StateEvent, CloseCall;
    }
  }

  lemma EnterSpares(s: Server, u: UserId, c: ChannelId, muted: bool, deafen: bool, now: int, x: UserId)
    requires u != x && x in s.joined
    ensures var r := Enter(s, u, c, muted, deafen, now);
            x in r.server.joined && r.server.joined[x] == s.joined[x] && Spares(r.sent, s.joined[x])
  {
  }

  lemma SparesAppend(a: seq<Broadcast>, b: seq<Broadcast>, c: ChannelId)
    requires Spares(a, c) && Spares(b, c)
    ensures Spares(a + b, c)
  {
  }

  lemma CallSpares(s: Server, users: set<UserId>, u: UserId, c: ChannelId, muted: bool, deafen: bool, callId: CallId,
                   now: int, x: UserId)
    requires JoinedListed(s) && u != x && x in s.joined
    ensures var r := CallHandled(s, users, u, c, muted, deafen, callId, now);
            x in r.server.joined && r.server.joined[x] == s.joined[x] && Spares(r.sent, s.joined[x])
  {
    var left := Leave(s, u, now);
    LeaveStays(s, u, x, now);
    LeaveSpares(s, u, x, now);
    InitAnswers(left.server, u, c, users, callId, now);
    var started := InitChannel(left.server, u, c, users, callId, now);
    EnterSpares(started.server, u, c, muted, deafen, now, x);
    var entered := Enter(started.server, u, c, muted, deafen, now);
    SparesAppend(left.sent, entered.sent, s.joined[x]);
    SparesAppend(left.sent + entered.sent, [Broadcast(IncomingCall(callId, c), users - {u})], s.joined[x]);
    hide Leave, Enter, InitChannel, JoinedListed, Spares;
  }

  lemma JoinSpares(s: Server, u: UserId, c: ChannelId, muted: bool, deafen: bool, now: int, x: UserId)
    requires JoinedListed(s) && u != x && x in s.joined
    ensures var r := JoinChannel(s, u, c, muted, deafen, now);
            x in r.server.joined && r.server.joined[x] == s.joined[x] && Spares(r.sent, s.joined[x])
  {
    var left := Leave(s, u, now);
    LeaveStays(s, u, x, now);
    LeaveSpares(s, u, x, now);
    EnterSpares(left.server, u, c, muted, deafen, now, x);
    SparesAppend(left.sent, Enter(left.server, u, c, muted, deafen, now).sent, s.joined[x]);
    hide Leave, Enter, JoinedListed, Spares;
  }

  lemma StepSpares(s: System, step: Step, x: UserId)
    requires JoinedListed(s.server) && Enabled(s, step) && x in s.server.joined && Actor(step) != Some(x)
    ensures var t := Apply(s, step).server;
            x in t.joined && t.joined[x] == s.server.joined[x] && Spares(SentBy(s, step), s.server.joined[x])
  {
    hide JoinedListed, Leave, Enter, InitChannel, SetState, Expire;
    match step
    case Call(u, c, muted, deafen, callId, now) =>
      if IsMember(s, u, c) {
        CallSpares(s.server, s.members[c], u, c, muted, deafen, callId, now, x);
        CallStepIsHandler(s, u, c, muted, deafen, callId, now);
        hide CallStep, CallHandled;
      }
    case JoinCall(u, c, muted, deafen, now) =>
      JoinSpares(s.server, u, c, muted, deafen, now, x);
      hide JoinChannel;
    case LeaveCall(u, now) => LeaveStays(s.server, u, x, now); LeaveSpares(s.server, u, x, now);
    case Logout(u, now) => LeaveStays(s.server, u, x, now); LeaveSpares(s.server, u, x, now);
    case SetVoiceState(u, muted, deafen) => PutSpares(s.server, u, muted, deafen, s.server.joined[x]);
    case Timeout(c, u, now) => ExpireSpares(s.server, c, u, now, s.server.joined[x]);
    case _ =>
  }

  lemma PutSpares(s: Server, u: UserId, muted: bool, deafen: bool, c: ChannelId)
    requires JoinedListed(s)
    ensures var r := SetState(s, u, muted, deafen); r.server.joined == s.joined && Spares(r.sent, c)
  {
  }

  lemma ExpireSpares(s: Server, d: ChannelId, u: UserId, now: int, c: ChannelId)
    ensures var r := Expire(s, d, u, now); r.server.joined == s.joined && Spares(r.sent, c)
  {
  }

  lemma {:induction false} RunSpares(s: System, steps: seq<Step>, x: UserId)
    requires Invariant(s) && Admissible(s, steps) && x in s.server.joined && Idle(steps, x)
    ensures Stays(s, Run(s, steps), x) && Spares(SentOver(s, steps), s.server.joined[x])
    decreases |steps|
  {
    if steps != [] {
      var t := Apply(s, steps[0]);
      StepKeepsInvariant(s, steps[0]);
      assert JoinedListed(s.server) && Enabled(s, steps[0]) && Actor(steps[0]) != Some(x) && Idle(steps[1..], x);
      StepSpares(s, steps[0], x);
      assert Run(s, steps) == Run(t, steps[1..]);
      assert SentOver(s, steps) == SentBy(s, steps[0]) + SentOver(t, steps[1..]);
      hide Invariant, Apply, Enabled, SentBy, Spares, JoinedListed, Run, SentOver, Idle, Actor;
      RunSpares(t, steps[1..], x);
      SparesAppend(SentBy(s, steps[0]), SentOver(t, steps[1..]), s.server.joined[x]);
    }
  }

  ghost predicate Stays(s: System, t: System, x: UserId) {
    x in s.server.joined && x in t.server.joined && t.server.joined[x] == s.server.joined[x]
  }

  /** Events that spare a call leave it listed, and no event moves a client to another channel. */
  lemma {:induction false} SparedStaysListed(st: Client, x: UserId, sent: seq<Broadcast>, c: ChannelId)
    requires c in st.activeCalls && Spares(sent, c)
    ensures var t := Receive(st, x, sent); c in t.activeCalls && t.channelId == st.channelId
    decreases |sent|
  {
    if sent != [] {
      var next := if x in sent[0].targets then HandleEvent(st, sent[0].event) else st;
      if sent[0].event.CallEnded? {
        Lists.WithoutIs(st.activeCalls, sent[0].event.channelId);
      }
      SparedStaysListed(next, x, sent[1..], c);
    }
  }

  /** A client that leaves after handling any prefix of the events keeps or drops the call as the
      server does exactly when its unhandled events do not change whether it sees anybody connected.
      Up to then it has the call listed, whatever it has handled. */
  lemma LaggingLeaveAgreesIff(s: System, steps: seq<Step>, x: UserId, k: nat, now: int)
    requires Invariant(s) && Admissible(s, steps) && x in s.clients && x in s.server.joined
    requires Idle(steps, x)
    requires s.server.joined[x] in s.clients[x].activeCalls && k <= |SentOver(s, steps)|
    ensures var c, sent, t := s.server.joined[x], SentOver(s, steps), Run(s, steps);
            var lagging := Receive(s.clients[x], x, sent[..k]);
            JoinedListed(t.server) && c in lagging.activeCalls &&
            ((c in ClearCurrentCall(lagging).activeCalls <==> c in Leave(t.server, x, now).server.channels)
             <==> (AnyoneConnected(lagging.voiceStates)
                   <==> AnyoneConnected(Receive(lagging, x, sent[k..]).voiceStates)))
  {
    var c, sent, t := s.server.joined[x], SentOver(s, steps), Run(s, steps);
    var lagging := Receive(s.clients[x], x, sent[..k]);
    assert MirrorOk(s, x);
    RunSpares(s, steps, x);
    assert Spares(sent[..k], c);
    SparedStaysListed(s.clients[x], x, sent[..k], c);
    LaggingClientCatchesUp(s, steps, x, k);
    assert Mirrored(t) && JoinedListed(t.server);
    LeaveDecisionsAgree(t, x, now);
    Lists.WithoutIs(lagging.activeCalls, c);
    assert lagging.channelId == Some(c);
    hide Run, SentOver, Receive, Leave, AnyoneConnected, Invariant, Mirrored, Admissible, Spares;
    hide Lists.Without, JoinedListed;
  }

  // ----------------------------------------------------- the two last in a call

  ghost predicate ToldOfEnd(r: Result, c: ChannelId, u: UserId) {
    exists b :: b in r.sent && b.event == CallEnded(c) && u in b.targets
  }

  lemma FirstLeaves(s: Server, x: UserId, u: UserId, now: int)
    requires Consistent(s) && x != u && x in s.joined && u in s.joined && s.joined[x] == s.joined[u]
    ensures var t := Leave(s, x, now).server; Consistent(t) && t.joined == s.joined - {x}
  {
    LeaveKeeps(s, x, now);
    LeaveServer(s, x, now);
    hide *;
  }

  lemma NobodyElse(joined: map<UserId, ChannelId>, x: UserId, u: UserId, c: ChannelId)
    requires forall y :: y in joined && joined[y] == c ==> y == x || y == u
    ensures !Occupied(joined - {x} - {u}, c)
  {
  }

  lemma LastLeaves(s: Server, u: UserId, now: int)
    requires Consistent(s) && u in s.joined && !Occupied(s.joined - {u}, s.joined[u])
    ensures var c, r := s.joined[u], Leave(s, u, now);
            c !in r.server.channels && !ToldOfEnd(r, c, u)
  {
    hide Occupied;
  }

  /** The replica of a client in a call with somebody connected keeps the call when it is cleared. */
  lemma OthersKeepCall(s: System, x: UserId, u: UserId, c: ChannelId)
    requires Mirrored(s) && u in s.clients && x != u && c in s.clients[u].activeCalls
    requires x in s.server.joined && s.server.joined[x] == c && u in s.server.joined && s.server.joined[u] == c
    ensures c in ClearCurrentCall(s.clients[u]).activeCalls
  {
    assert MirrorOk(s, u);
    var mine := s.clients[u].voiceStates;
    assert x in mine && mine[x].kind == Connected;
    assert AnyoneConnected(mine);
  }

  /** Of the last two in a channel one leaves; if the other leaves before handling that event, their
      client takes the call to go on, but the server closes it and does not tell them. */
  lemma LaggingLeaveDisagrees(s: System, x: UserId, u: UserId, c: ChannelId, now: int)
    requires Invariant(s) && x in s.clients && u in s.clients && x != u && c in s.clients[u].activeCalls
    requires x in s.server.joined && s.server.joined[x] == c && u in s.server.joined && s.server.joined[u] == c
    requires forall y :: y in s.server.joined && s.server.joined[y] == c ==> y == x || y == u
    ensures JoinedListed(Leave(s.server, x, now).server)
    ensures var stale := ClearCurrentCall(s.clients[u]);
            var r := Leave(Leave(s.server, x, now).server, u, now);
            c in stale.activeCalls && c !in r.server.channels && !ToldOfEnd(r, c, u)
  {
    OthersKeepCall(s, x, u, c);
    assert Consistent(s.server) && JoinedListed(s.server);
    hide Leave, ClearCurrentCall, Consistent, Invariant, JoinedListed, ToldOfEnd, Occupied;
    FirstLeaves(s.server, x, u, now);
    var t := Leave(s.server, x, now).server;
    LookupsSucceed(t);
    NobodyElse(s.server.joined, x, u, c);
    LastLeaves(t, u, now);
    hide *;
  }
}
