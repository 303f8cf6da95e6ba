/** The server's handlers of the packets that start, join and leave a call, run on the manager
    object; the steps of `VoiceSystem` are these handlers with the clients' part added. */
module CallHandlers {
  import opened Options
  import opened VoiceServer
  import VM = VoiceManager
  import opened VoiceClient
  import opened VoiceSystem
  import VoiceHistory

  /** The reply: the states of the others in the channel, or why there are none. */
  datatype Reply = Refused(status: Status) | Approved(voiceStates: map<UserId, WireState>)

  function ReplyOf(r: Result, c: ChannelId, u: UserId): Reply {
    if r.status == Ok && c in r.server.channels then Approved(View(r.server.channels[c].states, u))
    else Refused(r.status)
  }

  function CallHandled(s: Server, users: set<UserId>, u: UserId, c: ChannelId, muted: bool, deafen: bool,
                       callId: CallId, now: int)
    : Result
    requires JoinedListed(s)
  {
    var left := Leave(s, u, now);
    var started := InitChannel(left.server, u, c, users, callId, now);
    if started.status != Ok then Result(started.server, left.sent, started.status)
    else
      var entered := Enter(started.server, u, c, muted, deafen, now);
      entered.(sent := left.sent + entered.sent + [Broadcast(IncomingCall(callId, c), users - {u})])
  }

  /** The tail of both handlers: fetch the states, drop the caller's own, encode the rest. */
  method EncodeStates(m: VM.VoiceManager, channelId: ChannelId, userId: UserId) returns (reply: Reply)
    ensures reply == if channelId in m.voiceChannels then Approved(View(m.voiceChannels[channelId].states, userId))
                     else Refused(ChannelNotFound)
  {
    var found := m.GetVoiceStates(channelId);
    if found == None {
      return Refused(ChannelNotFound);
    }
    var states := found.value - {userId};
    var encoded := map x | x in states :: Wire(states[x]);
    assert encoded == View(found.value, userId);
    reply := Approved(encoded);
  }

  /** A join by a user who has just left. */
  lemma JoinAfterLeave(s: Server, u: UserId, c: ChannelId, muted: bool, deafen: bool, now: int)
    requires Consistent(s) && u !in s.joined
    ensures JoinedListed(s) && JoinChannel(s, u, c, muted, deafen, now) == Enter(s, u, c, muted, deafen, now)
  {
    var r := Enter(s, u, c, muted, deafen, now);
    assert [] + r.sent == r.sent;
    hide Enter;
  }

  lemma EnterAnswers(s: Server, u: UserId, c: ChannelId, muted: bool, deafen: bool, now: int)
    ensures var r := Enter(s, u, c, muted, deafen, now);
            (r.status == Ok <==> c in s.channels) && (r.status == Ok <==> c in r.server.channels) &&
            (r.status != Ok ==> r == Result(s, [], ChannelNotFound))
  {
  }

  method HandleJoinCall(m: VM.VoiceManager, userId: UserId, channelId: ChannelId, muted: bool, deafen: bool, now: int)
    returns (reply: Reply)
    requires m.Valid()
    modifies m
    ensures m.Valid()
    ensures JoinedListed(old(m.State()))
    ensures var r := JoinChannel(old(m.State()), userId, channelId, muted, deafen, now);
            m.Did(old(m.outbox), r) && reply == ReplyOf(r, channelId, userId)
  {
    LookupsSucceed(m.State());
    ghost var left := Leave(m.State(), userId, now);
    var _ := m.LeaveVoiceChannel(userId, now);
    hide Consistent, Leave, Enter, JoinChannel, View, CloseCall;
    JoinAfterLeave(m.State(), userId, channelId, muted, deafen, now);
    EnterAnswers(m.State(), userId, channelId, muted, deafen, now);
    VM.SentAssoc(old(m.outbox), left.sent, Enter(left.server, userId, channelId, muted, deafen, now).sent);
    var joined := m.JoinVoiceChannel(userId, channelId, muted, deafen, now);
    if joined != Ok {
      return Refused(joined);
    }
    reply := EncodeStates(m, channelId, userId);
  }

  /** The answer of `get_channel_members`: everybody but the caller. */
  datatype Members = Others(others: seq<UserId>) | NoChannel | NotMember

  /** For a channel that is unknown or not the user's own nothing is left and nothing started. */
  method HandleCall(m: VM.VoiceManager, members: Members, userId: UserId, channelId: ChannelId,
                    muted: bool, deafen: bool, callId: CallId, now: int)
    returns (reply: Reply)
    requires m.Valid() && callId !in m.calls
    modifies m
    ensures m.Valid()
    ensures !members.Others? ==>
              m.State() == old(m.State()) && m.outbox == old(m.outbox) &&
              reply == Refused(if members.NoChannel? then ChannelNotFound else NotMemberOfChannel)
    ensures JoinedListed(old(m.State()))
    ensures members.Others? ==>
              var users := (set x | x in members.others) + {userId};
              var r := CallHandled(old(m.State()), users, userId, channelId, muted, deafen, callId, now);
              m.Did(old(m.outbox), r) && reply == ReplyOf(r, channelId, userId)
  {
    LookupsSucceed(m.State());
    if !members.Others? {
      return Refused(if members.NoChannel? then ChannelNotFound else NotMemberOfChannel);
    }
    var users := members.others + [userId];
    ghost var all := (set x | x in members.others) + {userId};
    assert (set x | x in users) == all;
    ghost var left := Leave(m.State(), userId, now);
    LeaveRows(m.State(), userId, now);
    var _ := m.LeaveVoiceChannel(userId, now);
    hide Consistent, Leave, Enter, JoinChannel, View, CloseCall, InitChannel;
    ghost var started := InitChannel(m.State(), userId, channelId, all, callId, now);
    InitAnswers(m.State(), userId, channelId, all, callId, now);
    var status := m.InitVoiceChannel(userId, channelId, users, callId, now);
    assert m.outbox == old(m.outbox) + left.sent + started.sent == old(m.outbox) + left.sent;
    if status != Ok {
      return Refused(status);
    }
    JoinAfterLeave(m.State(), userId, channelId, muted, deafen, now);
    EnterAnswers(m.State(), userId, channelId, muted, deafen, now);
    ghost var entered := Enter(m.State(), userId, channelId, muted, deafen, now);
    var _ := m.JoinVoiceChannel(userId, channelId, muted, deafen, now);
    reply := EncodeStates(m, channelId, userId);
    AnnounceCall(m, users, userId, callId, channelId);
    Chain(old(m.outbox), left.sent, entered.sent, [Broadcast(IncomingCall(callId, channelId), all - {userId})]);
  }

  /** The loop that tells everybody but the caller. */
  method AnnounceCall(m: VM.VoiceManager, users: seq<UserId>, userId: UserId, callId: CallId, channelId: ChannelId)
    modifies m`outbox
    ensures m.outbox == old(m.outbox) + [Broadcast(IncomingCall(callId, channelId), (set x | x in users) - {userId})]
  {
    var targets: set<UserId> := {};
    for i := 0 to |users|
      invariant targets == (set x | x in users[..i]) - {userId}
    {
      assert users[..i + 1] == users[..i] + [users[i]];
      if users[i] != userId {
        targets := targets + {users[i]};
      }
    }
    assert users[..|users|] == users;
    m.outbox := m.outbox + [Broadcast(IncomingCall(callId, channelId), targets)];
  }

  method HandleLeaveCall(m: VM.VoiceManager, userId: UserId, now: int) returns (status: Status)
    requires m.Valid()
    modifies m
    ensures m.Valid()
    ensures JoinedListed(old(m.State()))
    ensures var r := Leave(old(m.State()), userId, now); m.Did(old(m.outbox), r) && status == r.status
  {
    LookupsSucceed(m.State());
    status := m.LeaveVoiceChannel(userId, now);
  }

  lemma LeaveRows(s: Server, u: UserId, now: int)
    requires JoinedListed(s)
    ensures Leave(s, u, now).server.rows.Keys == s.rows.Keys
  {
  }

  lemma InitAnswers(s: Server, caller: UserId, c: ChannelId, users: set<UserId>, callId: CallId, now: int)
    ensures var r := InitChannel(s, caller, c, users, callId, now);
            r.sent == [] && r.server.joined == s.joined && (r.status == Ok ==> c in r.server.channels)
  {
  }

  lemma Chain(a: seq<Broadcast>, b: seq<Broadcast>, c: seq<Broadcast>, d: seq<Broadcast>)
    ensures a + b + c + d == a + (b + c + d)
  {
  }

  // ------------------------------------------------------ what the answers say

  /** The channel has a call that goes on when the user leaves it. */
  ghost predicate Lasts(s: Server, c: ChannelId, u: UserId) {
    c in s.channels && (u in s.joined && s.joined[u] == c ==> VoiceHistory.OthersIn(s, u, c))
  }

  /** A join is approved exactly if the channel has a call that goes on without the user; the reply
      holds everybody else's state as it was. */
  lemma JoinReplies(s: Server, u: UserId, c: ChannelId, muted: bool, deafen: bool, now: int)
    requires Consistent(s)
    ensures var reply := ReplyOf(JoinChannel(s, u, c, muted, deafen, now), c, u);
            if Lasts(s, c, u)
            then reply.Approved? && reply.voiceStates.Keys == s.channels[c].states.Keys - {u} &&
                 forall x :: x in reply.voiceStates ==> reply.voiceStates[x] == Wire(s.channels[c].states[x])
            else reply == Refused(ChannelNotFound)
  {
    JoinAnswer(s, u, c, muted, deafen, now);
    hide Consistent, JoinChannel, Lasts;
    if Lasts(s, c, u) {
      var states := JoinChannel(s, u, c, muted, deafen, now).server.channels[c].states;
      forall x | x != u
        ensures x in states <==> x in s.channels[c].states
        ensures x in states ==> states[x] == s.channels[c].states[x]
      {
        JoinSparesOthers(s, u, c, muted, deafen, now, x);
      }
    }
  }

  lemma JoinAnswer(s: Server, u: UserId, c: ChannelId, muted: bool, deafen: bool, now: int)
    requires Consistent(s)
    ensures var r := JoinChannel(s, u, c, muted, deafen, now);
            r.status == (if Lasts(s, c, u) then Ok else ChannelNotFound) &&
            (Lasts(s, c, u) ==> c in s.channels && c in r.server.channels)
  {
    VoiceHistory.LeaveChannels(s, u, now);
    EnterAnswers(Leave(s, u, now).server, u, c, muted, deafen, now);
    hide Consistent, Leave, Enter, VoiceHistory.OthersIn;
  }

  lemma JoinSparesOthers(s: Server, u: UserId, c: ChannelId, muted: bool, deafen: bool, now: int, x: UserId)
    requires Consistent(s) && c in s.channels && x != u
    requires c in JoinChannel(s, u, c, muted, deafen, now).server.channels
    ensures var states := JoinChannel(s, u, c, muted, deafen, now).server.channels[c].states;
            (x in states <==> x in s.channels[c].states) &&
            (x in states ==> states[x] == s.channels[c].states[x])
  {
    var op := JoinOp(u, c, muted, deafen, now);
    VoiceHistory.CellTurns(s, op, c, x);
    hide Consistent, JoinChannel;
    assert VoiceHistory.Cell(Perform(s, op).server, c, x) == VoiceHistory.Cell(s, c, x);
  }

  /** A call is refused exactly if the channel has one that goes on without the caller. Otherwise its
      row names caller and channel, the caller alone takes part, everybody else is pending, and hears
      of it last. */
  lemma CallReplies(s: Server, users: set<UserId>, u: UserId, c: ChannelId, muted: bool, deafen: bool,
                    callId: CallId, now: int)
    requires Consistent(s) && callId !in s.rows && u in users
    ensures var r := CallHandled(s, users, u, c, muted, deafen, callId, now); var reply := ReplyOf(r, c, u);
            if Lasts(s, c, u) then reply == Refused(CallAlreadyStarted) && r.server == Leave(s, u, now).server
            else
              reply.Approved? && reply.voiceStates.Keys == users - {u} &&
              (forall x :: x in reply.voiceStates ==> reply.voiceStates[x] == WireState(Pending, false, false)) &&
              c in r.server.channels && r.server.channels[c].callId == callId &&
              callId in r.server.rows && r.server.rows[callId] == CallRow(u, c, None, {u}) &&
              u in r.server.joined && r.server.joined[u] == c &&
              r.sent != [] && r.sent[|r.sent| - 1] == Broadcast(IncomingCall(callId, c), users - {u})
  {
    var left := Leave(s, u, now);
    VoiceHistory.LeaveChannels(s, u, now);
    LeaveRows(s, u, now);
    assert Lasts(s, c, u) <==> c in left.server.channels;
    hide Leave, Consistent, Lasts, InitChannel, Enter, Occupied;
    NewCall(left.server, users, u, c, muted, deafen, callId, now);
    CallParts(s, users, u, c, muted, deafen, callId, now);
    hide CallHandled;
  }

  lemma CallParts(s: Server, users: set<UserId>, u: UserId, c: ChannelId, muted: bool, deafen: bool, callId: CallId,
                  now: int)
    requires JoinedListed(s)
    ensures var left := Leave(s, u, now);
            var started := InitChannel(left.server, u, c, users, callId, now);
            var entered := Enter(started.server, u, c, muted, deafen, now);
            var r := CallHandled(s, users, u, c, muted, deafen, callId, now);
            r.server == (if started.status == Ok then entered.server else started.server) &&
            r.status == (if started.status == Ok then entered.status else started.status) &&
            (started.status == Ok ==>
               r.sent != [] && r.sent[|r.sent| - 1] == Broadcast(IncomingCall(callId, c), users - {u}))
  {
    hide Leave, InitChannel, Enter;
  }

  lemma NewCall(s: Server, users: set<UserId>, u: UserId, c: ChannelId, muted: bool, deafen: bool, callId: CallId,
                now: int)
    requires callId !in s.rows && u in users
    ensures var started := InitChannel(s, u, c, users, callId, now);
            var r := Enter(started.server, u, c, muted, deafen, now);
            if c in s.channels then started == Result(s, [], CallAlreadyStarted)
            else
              started.status == Ok && r.status == Ok && c in r.server.channels &&
              r.server.channels[c].callId == callId && r.server.channels[c].states.Keys == users &&
              (forall x :: x in users && x != u ==>
                 Wire(r.server.channels[c].states[x]) == WireState(Pending, false, false)) &&
              callId in r.server.rows && r.server.rows[callId] == CallRow(u, c, None, {u}) &&
              u in r.server.joined && r.server.joined[u] == c
  {
  }

  // --------------------------------------- the handlers are the system's steps

  /** A join step is its handler, with the events received and the reply taken up. */
  lemma JoinStepIsHandler(s: System, u: UserId, c: ChannelId, muted: bool, deafen: bool, now: int)
    requires JoinedListed(s.server) && u in s.clients
    ensures var r := JoinChannel(s.server, u, c, muted, deafen, now);
            var cleared := if s.clients[u].channelId.Some? then ClearCurrentCall(s.clients[u]) else s.clients[u];
            var clients := ReceiveAll(s.clients[u := cleared], r.sent);
            var t := JoinCallStep(s, u, c, muted, deafen, now);
            t.server == r.server &&
            t.clients == match ReplyOf(r, c, u)
                         case Refused(_) => clients
                         case Approved(states) => clients[u := JoinCallFulfilled(clients[u], c, states)]
  {
    var left := Leave(s.server, u, now);
    EnterAnswers(left.server, u, c, muted, deafen, now);
    hide Leave, Enter, View, ClearCurrentCall, Receive;
  }

  lemma CallStepIsHandler(s: System, u: UserId, c: ChannelId, muted: bool, deafen: bool, callId: CallId, now: int)
    requires JoinedListed(s.server) && u in s.clients && IsMember(s, u, c)
    ensures var r := CallHandled(s.server, s.members[c], u, c, muted, deafen, callId, now);
            var clients := ReceiveAll(s.clients, r.sent);
            var t := CallStep(s, u, c, muted, deafen, callId, now);
            t.server == r.server &&
            t.clients == match ReplyOf(r, c, u)
                         case Refused(_) => clients
                         case Approved(states) => clients[u := CallFulfilled(clients[u], c, states)]
  {
    var left := Leave(s.server, u, now);
    var started := InitChannel(left.server, u, c, s.members[c], callId, now);
    InitAnswers(left.server, u, c, s.members[c], callId, now);
    EnterAnswers(started.server, u, c, muted, deafen, now);
    hide Leave, Enter, InitChannel, View, Receive;
  }
}
