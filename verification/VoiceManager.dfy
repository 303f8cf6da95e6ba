/** The server's `voice_manager` as the object it is, each method tied to the state machine of
    `VoiceServer`. `outbox` records the events triggered. */
module VoiceManager {
  import opened Options
  import opened VoiceServer

  method MakePending(users: seq<UserId>, now: int) returns (states: map<UserId, VoiceState>)
    ensures states == PendingStates((set u | u in users), now)
  {
    states := map[];
    for i := 0 to |users|
      invariant forall u :: u in states <==> u in users[..i]
      invariant forall u :: u in states ==> states[u] == VoiceState(Pending, now, false, false)
    {
      states := states[users[i] := VoiceState(Pending, now, false, false)];
      assert users[..i + 1] == users[..i] + [users[i]];
    }
    assert users[..|users|] == users;
  }

  class VoiceManager {
    var voiceChannels: map<ChannelId, Call>
    var joinedVoiceChannels: map<UserId, ChannelId>
    var calls: map<CallId, CallRow>
    var outbox: seq<Broadcast>

    ghost function State(): Server
      reads this
    {
      Server(voiceChannels, joinedVoiceChannels, calls)
    }

    ghost predicate Valid()
      reads this
    {
      Consistent(State())
    }

    /** The state is that of `r`, whose events have followed those `before`. */
    ghost predicate Did(before: seq<Broadcast>, r: Result)
      reads this
    {
      State() == r.server && outbox == before + r.sent
    }

    constructor ()
      ensures Valid() && State() == EMPTY && outbox == []
    {
      voiceChannels, joinedVoiceChannels, calls, outbox := map[], map[], map[], [];
    }

    method TriggerVoiceStateEvent(channelId: ChannelId, userId: UserId)
      requires channelId in voiceChannels && userId in voiceChannels[channelId].states
      modifies this`outbox
      ensures outbox == old(outbox) + [StateEvent(voiceChannels[channelId].states, userId)]
    {
      var states := voiceChannels[channelId].states;
      var targets: set<UserId> := {};
      var todo := states.Keys;
      while todo != {}
        invariant todo <= states.Keys
        invariant targets == set u | u in states.Keys - todo && u != userId && states[u].kind == Connected
      {
        var u :| u in todo;
        if u != userId && states[u].kind == Connected {
          targets := targets + {u};
        }
        todo := todo - {u};
      }
      assert targets == Listeners(states, userId);
      outbox := outbox + [Broadcast(VoiceStateChanged(userId, Wire(states[userId])), targets)];
    }

    method InitVoiceChannel(callerId: UserId, channelId: ChannelId, users: seq<UserId>, callId: CallId, now: int)
      returns (status: Status)
      requires Valid() && callId !in calls
      modifies this
      ensures Valid()
      ensures var r := InitChannel(old(State()), callerId, channelId, (set u | u in users), callId, now);
              Did(old(outbox), r) && status == r.status
    {
      InitKeeps(State(), callerId, channelId, (set u | u in users), callId, now);
      hide Consistent, PendingStates;
      if channelId in voiceChannels {
        return CallAlreadyStarted;
      }
      var userStates := MakePending(users, now);
      calls := calls[callId := CallRow(callerId, channelId, None, {})];
      voiceChannels := voiceChannels[channelId := Call(callId, userStates)];
      status := Ok;
    }

    method LeaveVoiceChannel(userId: UserId, now: int) returns (status: Status)
      requires Valid()
      modifies this
      ensures Valid() && userId !in joinedVoiceChannels
      ensures var r := Leave(old(State()), userId, now); Did(old(outbox), r) && status == r.status
    {
      LeaveKeeps(State(), userId, now);
      LookupsSucceed(State());
      hide Consistent;
      if userId !in joinedVoiceChannels {
        return VoiceNotConnected;
      }
      var channelId := Disconnect(userId, now);
      hide Left, StateEvent;
      var others := SomeoneIn(channelId);
      if !others {
        EndCall(channelId, userId, now);
      }
      status := Ok;
    }

    /** First half of leaving: the user is off both tables' books and the others are told. */
    method Disconnect(userId: UserId, now: int) returns (channelId: ChannelId)
      requires JoinedListed(State()) && userId in joinedVoiceChannels
      modifies this
      ensures channelId == old(joinedVoiceChannels[userId]) && State() == Left(old(State()), userId, now)
      ensures channelId in voiceChannels && voiceChannels[channelId].callId == old(voiceChannels)[channelId].callId
      ensures userId in voiceChannels[channelId].states &&
              outbox == old(outbox) + [StateEvent(voiceChannels[channelId].states, userId)]
    {
      channelId := joinedVoiceChannels[userId];
      joinedVoiceChannels := joinedVoiceChannels - {userId};
      var call := voiceChannels[channelId];
      var left := call.states[userId].(kind := Disconnected, changed := now);
      voiceChannels := voiceChannels[channelId := call.(states := call.states[userId := left])];
      assert State() == Left(old(State()), userId, now);
      TriggerVoiceStateEvent(channelId, userId);
    }

    /** Second half, when nobody is left in the channel: everybody listed is told that the call has
        ended, its row is closed and the channel is removed. */
    method EndCall(channelId: ChannelId, userId: UserId, now: int)
      requires channelId in voiceChannels && voiceChannels[channelId].callId in calls
      modifies this
      ensures State() == CloseCall(old(State()), channelId, now)
      ensures outbox
              == old(outbox) + [Broadcast(CallEnded(channelId), old(voiceChannels)[channelId].states.Keys - {userId})]
    {
      outbox := outbox + [Broadcast(CallEnded(channelId), voiceChannels[channelId].states.Keys - {userId})];
      var callId := voiceChannels[channelId].callId;
      calls := calls[callId := calls[callId].(endDate := Some(now))];
      voiceChannels := voiceChannels - {channelId};
    }

    /** The search of the joined table for anybody left in the channel. */
    method SomeoneIn(channelId: ChannelId) returns (found: bool)
      ensures found <==> Occupied(joinedVoiceChannels, channelId)
    {
      var todo := joinedVoiceChannels.Keys;
      while todo != {}
        invariant todo <= joinedVoiceChannels.Keys
        invariant forall u :: u in joinedVoiceChannels.Keys - todo ==> joinedVoiceChannels[u] != channelId
      {
        var u :| u in todo;
        if joinedVoiceChannels[u] == channelId {
          return true;
        }
        todo := todo - {u};
      }
      found := false;
    }

    method JoinVoiceChannel(userId: UserId, channelId: ChannelId, muted: bool, deafen: bool, now: int)
      returns (status: Status)
      requires Valid()
      modifies this
      ensures Valid()
      ensures var r := JoinChannel(old(State()), userId, channelId, muted, deafen, now);
              Did(old(outbox), r) && status == r.status
    {
      ghost var left := Leave(State(), userId, now);
      JoinParts(State(), userId, channelId, muted, deafen, now);
      LookupsSucceed(left.server);
      hide Consistent, Leave, Enter, JoinChannel;
      if userId in joinedVoiceChannels {
        var _ := LeaveVoiceChannel(userId, now);
      }
      if channelId !in voiceChannels {
        return ChannelNotFound;
      }
      Connect(userId, channelId, muted, deafen, now);
      SentAssoc(old(outbox), left.sent, Enter(left.server, userId, channelId, muted, deafen, now).sent);
      status := Ok;
    }

    /** Puts the user on both tables' books and tells the others. */
    method Connect(userId: UserId, channelId: ChannelId, muted: bool, deafen: bool, now: int)
      requires channelId in voiceChannels && voiceChannels[channelId].callId in calls
      modifies this
      ensures Did(old(outbox), Enter(old(State()), userId, channelId, muted, deafen, now))
    {
      var callId := voiceChannels[channelId].callId;
      calls := calls[callId := calls[callId].(participants := calls[callId].participants + {userId})];
      joinedVoiceChannels := joinedVoiceChannels[userId := channelId];
      var call := voiceChannels[channelId];
      var state := VoiceState(Connected, now, muted, deafen);
      voiceChannels := voiceChannels[channelId := call.(states := call.states[userId := state])];
      assert State() == Enter(old(State()), userId, channelId, muted, deafen, now).server;
      TriggerVoiceStateEvent(channelId, userId);
    }

    method SetVoiceState(userId: UserId, muted: bool, deafen: bool) returns (status: Status)
      requires Valid()
      modifies this
      ensures Valid()
      ensures var r := SetState(old(State()), userId, muted, deafen); Did(old(outbox), r) && status == r.status
    {
      SetStateKeeps(State(), userId, muted, deafen);
      LookupsSucceed(State());
      hide Consistent;
      if userId !in joinedVoiceChannels {
        return VoiceNotConnected;
      }
      ghost var target := SetState(State(), userId, muted, deafen);
      var channelId := joinedVoiceChannels[userId];
      var call := voiceChannels[channelId];
      var state := call.states[userId];
      state := state.(muted := muted);
      state := state.(deafen := deafen);
      voiceChannels := voiceChannels[channelId := call.(states := call.states[userId := state])];
      assert State() == target.server;
      TriggerVoiceStateEvent(channelId, userId);
      status := Ok;
    }

    /** One turn of `handle_voice_states`: the result is a sweep over all listed users in some
        order; afterwards nobody is overdue. */
    method HandleVoiceStates(now: int) returns (ghost order: seq<(ChannelId, UserId)>)
      requires Valid()
      modifies this
      ensures Valid() && Did(old(outbox), Sweep(old(State()), order, now))
      ensures forall c, u :: !Overdue(State(), c, u, now)
    {
      hide Consistent, Sweep, Expire;
      order := [];
      SweepNothing(State(), now);
      var channels := voiceChannels.Keys;
      while channels != {}
        invariant Valid() && Did(old(outbox), Sweep(old(State()), order, now))
        invariant channels <= voiceChannels.Keys
        invariant forall c, u :: c !in channels ==> !Overdue(State(), c, u, now)
      {
        var c :| c in channels;
        ghost var before := State();
        ghost var part := SweepChannel(c, now);
        SweepConcat(old(State()), order, part, now);
        SentAssoc(old(outbox), Sweep(old(State()), order, now).sent, Sweep(before, part, now).sent);
        order := order + part;
        forall x, u | x !in channels - {c} ensures !Overdue(State(), x, u, now) {
          if x != c {
            assert !Overdue(before, x, u, now);
          }
        }
        channels := channels - {c};
      }
    }

    /** The inner loop: the users of one channel. */
    method SweepChannel(c: ChannelId, now: int) returns (ghost part: seq<(ChannelId, UserId)>)
      requires Valid() && c in voiceChannels
      modifies this
      ensures Valid() && Did(old(outbox), Sweep(old(State()), part, now)) && SameElsewhere(old(State()), State(), c)
      ensures forall u :: !Overdue(State(), c, u, now)
    {
      hide Consistent, Sweep, Expire;
      part := [];
      SweepNothing(State(), now);
      var users := voiceChannels[c].states.Keys;
      while users != {}
        invariant Valid() && Did(old(outbox), Sweep(old(State()), part, now)) && SameElsewhere(old(State()), State(), c)
        invariant users <= voiceChannels[c].states.Keys
        invariant forall u :: u !in users ==> !Overdue(State(), c, u, now)
      {
        var u :| u in users;
        SweepSnoc(old(State()), part, c, u, now);
        SentAssoc(old(outbox), Sweep(old(State()), part, now).sent, Expire(State(), c, u, now).sent);
        ExpireOne(c, u, now);
        part := part + [(c, u)];
        users := users - {u};
      }
    }

    method ExpireOne(c: ChannelId, u: UserId, now: int)
      requires Valid() && c in voiceChannels && u in voiceChannels[c].states
      modifies this
      ensures Valid() && Did(old(outbox), Expire(old(State()), c, u, now)) && SameElsewhere(old(State()), State(), c)
      ensures voiceChannels[c].states.Keys == old(voiceChannels[c].states.Keys)
      ensures !Overdue(State(), c, u, now)
      ensures forall x :: x != u ==> (Overdue(State(), c, x, now) <==> old(Overdue(State(), c, x, now)))
    {
      ghost var target := Expire(State(), c, u, now);
      ExpireKeeps(State(), c, u, now);
      hide Consistent;
      var call := voiceChannels[c];
      var state := call.states[u];
      if state.kind == Pending && now - state.changed > MAX_PENDING_SECONDS {
        state := state.(kind := Disconnected, changed := now);
        voiceChannels := voiceChannels[c := call.(states := call.states[u := state])];
        assert State() == target.server;
        TriggerVoiceStateEvent(c, u);
      }
    }

    /** For a consistent manager: refused exactly when no open call row names the channel, and whoever
        is connected in the answer is who has joined the channel. */
    method GetVoiceStates(channelId: ChannelId) returns (states: Option<map<UserId, VoiceState>>)
      ensures states == if channelId in voiceChannels then Some(voiceChannels[channelId].states) else None
      ensures Valid() ==>
                (states == None <==>
                 forall id :: id in calls && calls[id].endDate == None ==> calls[id].channelId != channelId)
      ensures Valid() && states.Some? ==>
                forall u :: u in states.value && states.value[u].kind == Connected
                            <==> u in joinedVoiceChannels && joinedVoiceChannels[u] == channelId
    {
      if Valid() {
        StatesTell(State(), channelId);
      }
      hide Consistent;
      states := if channelId in voiceChannels then Some(voiceChannels[channelId].states) else None;
    }
  }

  /** The same channels are active, and only `c` may have changed. */
  ghost predicate SameElsewhere(s: Server, t: Server, c: ChannelId) {
    t.channels.Keys == s.channels.Keys && forall x :: x in s.channels && x != c ==> t.channels[x] == s.channels[x]
  }

  /** A join is a leave followed by an entry. */
  lemma JoinParts(s: Server, u: UserId, c: ChannelId, muted: bool, deafen: bool, now: int)
    requires Consistent(s)
    ensures JoinedListed(s)
    ensures var left := Leave(s, u, now); var entered := Enter(left.server, u, c, muted, deafen, now);
            JoinChannel(s, u, c, muted, deafen, now) == entered.(sent := left.sent + entered.sent) &&
            Consistent(left.server) && Consistent(entered.server) &&
            (u !in s.joined ==> left == Result(s, [], VoiceNotConnected)) &&
            (if c in left.server.channels then entered.status == Ok
             else entered == Result(left.server, [], ChannelNotFound))
  {
    LeaveKeeps(s, u, now);
    EnterKeeps(Leave(s, u, now).server, u, c, muted, deafen, now);
  }

  lemma SentAssoc(a: seq<Broadcast>, b: seq<Broadcast>, c: seq<Broadcast>)
    ensures (a + b) + c == a + (b + c)
  {
  }

  lemma SweepNothing(s: Server, now: int)
    ensures Sweep(s, [], now) == Result(s, [], Ok)
  {
  }

  lemma SweepSnoc(s: Server, order: seq<(ChannelId, UserId)>, c: ChannelId, u: UserId, now: int)
    ensures var before := Sweep(s, order, now); var last := Expire(before.server, c, u, now);
            Sweep(s, order + [(c, u)], now) == Result(last.server, before.sent + last.sent, Ok)
  {
    assert (order + [(c, u)])[..|order|] == order;
  }

  /** Two sweeps in a row are one sweep. */
  lemma {:induction false} SweepConcat(s: Server, a: seq<(ChannelId, UserId)>, b: seq<(ChannelId, UserId)>, now: int)
    ensures var first := Sweep(s, a, now); var second := Sweep(first.server, b, now);
            Sweep(s, a + b, now) == Result(second.server, first.sent + second.sent, Ok)
  {
    hide Expire;
    if b == [] {
      assert a + b == a;
    } else {
      var init := b[..|b| - 1];
      var (c, u) := b[|b| - 1];
      SweepConcat(s, a, init, now);
      SweepSnoc(s, a + init, c, u, now);
      SweepSnoc(Sweep(s, a, now).server, init, c, u, now);
      assert a + b == (a + init) + [(c, u)] && b == init + [(c, u)];
    }
  }
}
