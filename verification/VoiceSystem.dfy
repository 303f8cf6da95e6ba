/** Server and clients together: every packet handler is one step that ends with its reply handled
    by the requester and its events handled by everyone they were triggered for. */
module VoiceSystem {
  import Lists
  import opened Options
  import opened VoiceServer
  import opened VoiceClient

  /** `clients` holds the logged-in users, `members` the rows of `channel_members` by channel. For
      the statement of the theorems only, `informed` holds who has heard of the call that a channel
      runs: all its members when it begins; whoever logs in later, once they load the channel. */
  datatype System = System(
    server: Server,
    clients: map<UserId, Client>,
    members: map<ChannelId, set<UserId>>,
    informed: map<ChannelId, set<UserId>>)

  predicate IsMember(s: System, u: UserId, c: ChannelId) { c in s.members && u in s.members[c] }

  predicate IsInformed(s: System, u: UserId, c: ChannelId) { c in s.informed && u in s.informed[c] }

  /** A voice-state map as the handlers send it to `u`: everybody's but their own. */
  function View(states: map<UserId, VoiceState>, u: UserId): map<UserId, WireState> {
    map x | x in states && x != u :: Wire(states[x])
  }

  // ------------------------------------------------------------ the steps

  /** The packet of `leave_call` or the clean-up of a session, with the client's own part. */
  function LeaveStep(s: System, u: UserId, now: int): System
    requires JoinedListed(s.server)
  {
    var r := Leave(s.server, u, now);
    var clients := ReceiveAll(s.clients, r.sent);
    if r.status == Ok && u in clients
    then s.(server := r.server, clients := clients[u := ClearCurrentCall(clients[u])])
    else s.(server := r.server, clients := clients)
  }

  /** Joining for a user without a call: the server's part, then the snapshot in the reply. */
  function EnterStep(s: System, u: UserId, c: ChannelId, muted: bool, deafen: bool, now: int): System {
    var r := Enter(s.server, u, c, muted, deafen, now);
    var clients := ReceiveAll(s.clients, r.sent);
    if r.status == Ok && u in clients
    then s.(server := r.server,
            clients := clients[u := JoinCallFulfilled(clients[u], c, View(r.server.channels[c].states, u))])
    else s.(server := r.server, clients := clients)
  }

  /** `joinCall`: the client drops its current call before it asks; the handler leaves before it
      joins, so that a refused join has still left the old channel. */
  function JoinCallStep(s: System, u: UserId, c: ChannelId, muted: bool, deafen: bool, now: int): System
    requires JoinedListed(s.server) && u in s.clients
  {
    var cleared := if s.clients[u].channelId.Some? then ClearCurrentCall(s.clients[u]) else s.clients[u];
    var r := JoinChannel(s.server, u, c, muted, deafen, now);
    var clients := ReceiveAll(s.clients[u := cleared], r.sent);
    s.(server := r.server,
       clients := if r.status == Ok
                  then clients[u := JoinCallFulfilled(clients[u], c, View(r.server.channels[c].states, u))]
                  else clients)
  }

  /** `call` by a client without a current call; `callId` is the fresh id of the new row. */
  function CallStep(s: System, u: UserId, c: ChannelId, muted: bool, deafen: bool, callId: CallId, now: int): System
    requires JoinedListed(s.server) && u in s.clients
  {
    if !IsMember(s, u, c) then s
    else
      var left := Leave(s.server, u, now);
      var started := InitChannel(left.server, u, c, s.members[c], callId, now);
      if started.status != Ok then s.(server := started.server, clients := ReceiveAll(s.clients, left.sent))
      else
        var entered := Enter(started.server, u, c, muted, deafen, now);
        var incoming := Broadcast(IncomingCall(callId, c), s.members[c] - {u});
        var clients := ReceiveAll(s.clients, left.sent + entered.sent + [incoming]);
        s.(server := entered.server,
           clients := clients[u := CallFulfilled(clients[u], c, View(entered.server.channels[c].states, u))],
           informed := s.informed[c := s.members[c]])
  }

  function SetStateStep(s: System, u: UserId, muted: bool, deafen: bool): System
    requires JoinedListed(s.server) && u in s.clients
  {
    var r := SetState(s.server, u, muted, deafen);
    var clients := ReceiveAll(s.clients, r.sent);
    s.(server := r.server, clients := clients[u := SetVoiceStateFulfilled(clients[u], muted, deafen)])
  }

  function ExpireStep(s: System, c: ChannelId, u: UserId, now: int): System {
    var r := Expire(s.server, c, u, now);
    s.(server := r.server, clients := ReceiveAll(s.clients, r.sent))
  }

  function Forget(informed: map<ChannelId, set<UserId>>, u: UserId): map<ChannelId, set<UserId>> {
    map c | c in informed :: informed[c] - {u}
  }

  /** A login starts from an empty store; what the client then knows, it loads. */
  function LoginStep(s: System, u: UserId): System {
    s.(clients := s.clients[u := INITIAL_STATE], informed := Forget(s.informed, u))
  }

  /** `updateUser`: the private channel with somebody is fetched, and marked if a call is active. It
      runs for friends and pending friends after a login, and again for whoever sends a request. */
  function LoadStep(s: System, u: UserId, c: ChannelId): System
    requires u in s.clients
  {
    if c !in s.server.channels then s
    else
      s.(clients := s.clients[u := AddActiveCall(s.clients[u], c)],
         informed := s.informed[c := (if c in s.informed then s.informed[c] else {}) + {u}])
  }

  function LogoutStep(s: System, u: UserId, now: int): System
    requires JoinedListed(s.server)
  {
    LeaveStep(s, u, now).(clients := LeaveStep(s, u, now).clients - {u})
  }

  datatype Step =
    | Call(user: UserId, channel: ChannelId, muted: bool, deafen: bool, callId: CallId, now: int)
    | JoinCall(user: UserId, channel: ChannelId, muted: bool, deafen: bool, now: int)
    | LeaveCall(user: UserId, now: int)
    | SetVoiceState(user: UserId, muted: bool, deafen: bool)
    | Timeout(channel: ChannelId, user: UserId, now: int)
    | Login(user: UserId)
    | Load(user: UserId, channel: ChannelId)
    | CreateChannel(channel: ChannelId, users: set<UserId>)
    | Logout(user: UserId, now: int)

  ghost predicate Enabled(s: System, step: Step) {
    match step
    case Call(u, _, _, _, callId, _) => u in s.clients && s.clients[u].channelId == None && callId !in s.server.rows
    case JoinCall(u, _, _, _, _) => u in s.clients
    case LeaveCall(u, _) => u in s.clients
    case SetVoiceState(u, _, _) => u in s.clients
    case Timeout(_, _, _) => true
    case Login(u) => u !in s.clients
    case Load(u, c) => u in s.clients && IsMember(s, u, c)
    case CreateChannel(c, _) => c !in s.members
    case Logout(u, _) => u in s.clients
  }

  ghost function Apply(s: System, step: Step): System
    requires JoinedListed(s.server) && Enabled(s, step)
  {
    match step
    case Call(u, c, muted, deafen, callId, now) => CallStep(s, u, c, muted, deafen, callId, now)
    case JoinCall(u, c, muted, deafen, now) => JoinCallStep(s, u, c, muted, deafen, now)
    case LeaveCall(u, now) => LeaveStep(s, u, now)
    case SetVoiceState(u, muted, deafen) => SetStateStep(s, u, muted, deafen)
    case Timeout(c, u, now) => ExpireStep(s, c, u, now)
    case Login(u) => LoginStep(s, u)
    case Load(u, c) => LoadStep(s, u, c)
    case CreateChannel(c, users) => s.(members := s.members[c := users])
    case Logout(u, now) => LogoutStep(s, u, now)
  }

  // ---------------------------------------------------------- invariants

  /** A client knows which channel it is in, and its map is the server's, without itself. */
  ghost predicate MirrorOk(s: System, u: UserId)
    requires JoinedListed(s.server) && u in s.clients
  {
    && s.clients[u].channelId == (if u in s.server.joined then Some(s.server.joined[u]) else None)
    && (u in s.server.joined ==> s.clients[u].voiceStates == View(s.server.channels[s.server.joined[u]].states, u))
  }

  ghost predicate Mirrored(s: System) {
    && Consistent(s.server)
    && s.server.joined.Keys <= s.clients.Keys
    && forall u :: u in s.clients ==> MirrorOk(s, u)
  }

  ghost predicate ListsCalls(list: seq<ChannelId>, active: set<ChannelId>, informed: map<ChannelId, set<UserId>>,
                             u: UserId) {
    forall c :: c in list <==> c in active && c in informed && u in informed[c]
  }

  /** A client lists exactly the active calls that it has heard of. */
  ghost predicate ActiveOk(s: System, u: UserId)
    requires u in s.clients
  {
    ListsCalls(s.clients[u].activeCalls, s.server.channels.Keys, s.informed, u)
  }

  /** Whoever has heard of a call is a member, and every member is in its table of states. */
  ghost predicate InformedOk(s: System, c: ChannelId)
    requires c in s.server.channels
  {
    c in s.members && c in s.informed && s.informed[c] <= s.members[c] <= s.server.channels[c].states.Keys
  }

  ghost predicate AllActiveOk(s: System) {
    && (forall c :: c in s.server.channels ==> InformedOk(s, c))
    && forall u :: u in s.clients ==> ActiveOk(s, u)
  }

  ghost predicate Invariant(s: System) { Mirrored(s) && AllActiveOk(s) }

  lemma MirroredIs(s: System)
    requires Consistent(s.server) && s.server.joined.Keys <= s.clients.Keys
    requires forall u :: u in s.clients ==> MirrorOk(s, u)
    ensures Mirrored(s)
  {
  }

  lemma AllActiveIs(s: System)
    requires forall c :: c in s.server.channels ==> InformedOk(s, c)
    requires forall u :: u in s.clients ==> ActiveOk(s, u)
    ensures AllActiveOk(s)
  {
  }

  // ------------------------------------------- what a state event does

  lemma ViewPut(states: map<UserId, VoiceState>, x: UserId, v: VoiceState, u: UserId)
    ensures View(states[x := v], u) == if x == u then View(states, u) else View(states, u)[x := Wire(v)]
  {
  }

  /** After a change of one user's state in `c` and its event, every other client in `c` has made
      the same change, and no other client has noticed. */
  lemma StateEventReaches(s: Server, c: ChannelId, x: UserId, u: UserId, st: Client)
    requires TablesAgree(s) && c in s.channels && x in s.channels[c].states && u != x
    ensures Receive(st, u, [StateEvent(s.channels[c].states, x)])
            == if u in s.joined && s.joined[u] == c
               then UpdateVoiceState(st, x, Wire(s.channels[c].states[x])) else st
  {
    var b := StateEvent(s.channels[c].states, x);
    assert [b][1..] == [];
  }

  lemma OwnEventIsSilent(states: map<UserId, VoiceState>, x: UserId, st: Client)
    requires x in states
    ensures Receive(st, x, [StateEvent(states, x)]) == st
  {
    var b := StateEvent(states, x);
    assert [b][1..] == [];
  }

  // -------------------------------------------------------------- put

  /** A state change of `x` in `c` that connects and disconnects nobody, with its event. */
  lemma PutMirrors(s: System, t: System, c: ChannelId, x: UserId, v: VoiceState)
    requires Mirrored(s) && c in s.server.channels && x in s.server.channels[c].states
    requires v.kind == Connected <==> s.server.channels[c].states[x].kind == Connected
    requires t.server == PutState(s.server, c, x, v)
    requires t.clients.Keys == s.clients.Keys
    requires forall u :: u in s.clients && u != x ==>
      t.clients[u] == Receive(s.clients[u], u, [StateEvent(t.server.channels[c].states, x)])
    requires x in s.clients ==>
      t.clients[x].channelId == s.clients[x].channelId && t.clients[x].voiceStates == s.clients[x].voiceStates
    ensures Mirrored(t)
  {
    PutKeeps(s.server, c, x, v);
    assert t.server.joined == s.server.joined && TablesAgree(t.server);
    forall u | u in t.clients ensures MirrorOk(t, u) {
      assert MirrorOk(s, u);
      if u != x {
        StateEventReaches(t.server, c, x, u, s.clients[u]);
      }
      hide Consistent, Receive, StateEvent, TablesAgree;
      PutMirrorsOne(s, t, c, x, v, u);
    }
    hide MirrorOk, StateEvent, Receive;
  }

  lemma PutMirrorsOne(s: System, t: System, c: ChannelId, x: UserId, v: VoiceState, u: UserId)
    requires JoinedListed(s.server) && JoinedListed(t.server) && u in s.clients && u in t.clients && MirrorOk(s, u)
    requires c in s.server.channels && x in s.server.channels[c].states && t.server == PutState(s.server, c, x, v)
    requires t.clients[u].channelId == s.clients[u].channelId
    requires t.clients[u].voiceStates
             == if u != x && u in s.server.joined && s.server.joined[u] == c
                then s.clients[u].voiceStates[x := Wire(v)] else s.clients[u].voiceStates
    ensures MirrorOk(t, u)
  {
    ViewPut(s.server.channels[c].states, x, v, u);
    hide View;
  }

  lemma NothingSent(clients: map<UserId, Client>)
    ensures ReceiveAll(clients, []) == clients
  {
  }

  lemma ReceiveAllAppend(clients: map<UserId, Client>, a: seq<Broadcast>, b: seq<Broadcast>)
    ensures ReceiveAll(clients, a + b) == ReceiveAll(ReceiveAll(clients, a), b)
  {
    forall u | u in clients ensures Receive(clients[u], u, a + b) == Receive(Receive(clients[u], u, a), u, b) {
      ReceiveAppend(clients[u], u, a, b);
    }
  }

  // ------------------------------------------------------------- leaving

  lemma EndedReaches(st: Client, x: UserId, c: ChannelId, targets: set<UserId>)
    ensures Receive(st, x, [Broadcast(CallEnded(c), targets)]) == if x in targets then RemoveActiveCall(st, c) else st
  {
    assert [Broadcast(CallEnded(c), targets)][1..] == [];
  }

  /** The client a leave event produces in `x`: changed like the server's state if `x` is in the
      channel, rid of the call if the leave has ended it and `x` is listed, else untouched. */
  function AfterLeaveOf(s: Server, u: UserId, x: UserId, st: Client, now: int): Client
    requires JoinedListed(s) && u in s.joined
  {
    var c, t := s.joined[u], Left(s, u, now);
    if x == u then st
    else if Occupied(t.joined, c)
    then (if x in s.joined && s.joined[x] == c then UpdateVoiceState(st, u, Wire(t.channels[c].states[u])) else st)
    else if x in t.channels[c].states then RemoveActiveCall(st, c) else st
  }

  lemma LeaveReceives(s: Server, u: UserId, x: UserId, st: Client, now: int)
    requires Consistent(s) && u in s.joined
    ensures Receive(st, x, Leave(s, u, now).sent) == AfterLeaveOf(s, u, x, st, now)
  {
    var c, t := s.joined[u], Left(s, u, now);
    LeftKeeps(s, u, now);
    var states := t.channels[c].states;
    var changed, ended := StateEvent(states, u), Broadcast(CallEnded(c), states.Keys - {u});
    if x == u {
      OwnEventIsSilent(states, u, st);
    } else {
      StateEventReaches(t, c, u, x, st);
    }
    hide Receive, StateEvent, Consistent;
    if !Occupied(t.joined, c) {
      ReceiveAppend(st, x, [changed], [ended]);
      assert [changed] + [ended] == [changed, ended];
      EndedReaches(Receive(st, x, [changed]), x, c, states.Keys - {u});
    }
  }

  /** The server's tables after a leave. */
  lemma LeaveServer(s: Server, u: UserId, now: int)
    requires Consistent(s) && u in s.joined
    ensures var c, left, t := s.joined[u], Left(s, u, now), Leave(s, u, now).server;
            t.joined == s.joined - {u} && left.joined == t.joined &&
            t.channels == (if Occupied(left.joined, c) then left.channels else left.channels - {c}) &&
            left.channels == s.channels[c := left.channels[c]] &&
            left.channels[c].states == s.channels[c].states[u := left.channels[c].states[u]]
  {
  }

  /** Every client after a leave. */
  lemma LeaveClient(s: System, u: UserId, x: UserId, now: int)
    requires Consistent(s.server) && u in s.server.joined && x in s.clients
    ensures LeaveStep(s, u, now).clients.Keys == s.clients.Keys
    ensures LeaveStep(s, u, now).clients[x]
            == if x == u then ClearCurrentCall(s.clients[u]) else AfterLeaveOf(s.server, u, x, s.clients[x], now)
  {
    LeaveReceives(s.server, u, x, s.clients[x], now);
    hide Receive, AfterLeaveOf, ClearCurrentCall, Consistent;
  }

  lemma LeaveMirrors(s: System, u: UserId, now: int)
    requires Mirrored(s)
    ensures Mirrored(LeaveStep(s, u, now))
  {
    LeaveKeeps(s.server, u, now);
    if u !in s.server.joined {
      NothingSent(s.clients);
      assert LeaveStep(s, u, now) == s;
      hide *;
    } else {
      var t := LeaveStep(s, u, now);
      LeaveServer(s.server, u, now);
      assert u in s.clients && JoinedListed(s.server) && JoinedListed(Leave(s.server, u, now).server);
      assert forall x :: x in s.clients ==> MirrorOk(s, x);
      assert t.server == Leave(s.server, u, now).server;
      assert t.server.joined.Keys <= s.clients.Keys;
      LeaveClient(s, u, u, now);
      hide *;
      forall x | x in s.clients ensures MirrorOk(t, x) {
        LeaveClient(s, u, x, now);
        LeaveMirrorsOne(s, t, u, x, now);
      }
      MirroredIs(t);
    }
  }

  lemma LeaveMirrorsOne(s: System, t: System, u: UserId, x: UserId, now: int)
    requires JoinedListed(s.server) && JoinedListed(t.server) && x in s.clients && x in t.clients && MirrorOk(s, x)
    requires u in s.server.joined
    requires var c, left := s.server.joined[u], Left(s.server, u, now);
             t.server.joined == s.server.joined - {u} && left.joined == t.server.joined &&
             t.server.channels == (if Occupied(left.joined, c) then left.channels else left.channels - {c}) &&
             left.channels == s.server.channels[c := left.channels[c]] &&
             left.channels[c].states == s.server.channels[c].states[u := left.channels[c].states[u]]
    requires t.clients[x] == if x == u then ClearCurrentCall(s.clients[u])
                             else AfterLeaveOf(s.server, u, x, s.clients[x], now)
    ensures MirrorOk(t, x)
  {
    var c, left := s.server.joined[u], Left(s.server, u, now);
    ViewPut(s.server.channels[c].states, u, left.channels[c].states[u], x);
    hide View, Left;
    if x != u && x in s.server.joined && s.server.joined[x] == c {
      assert x in left.joined && left.joined[x] == c;
    }
  }

  // ------------------------------------------------------------ entering

  lemma EnterReceives(s: Server, u: UserId, c: ChannelId, muted: bool, deafen: bool, now: int, x: UserId, st: Client)
    requires Consistent(s) && u !in s.joined && c in s.channels
    ensures var r := Enter(s, u, c, muted, deafen, now);
            Receive(st, x, r.sent)
            == if x != u && x in s.joined && s.joined[x] == c
               then UpdateVoiceState(st, u, Wire(r.server.channels[c].states[u])) else st
  {
    EnterTables(s, u, c, muted, deafen, now);
    var t := Enter(s, u, c, muted, deafen, now).server;
    if x == u {
      OwnEventIsSilent(t.channels[c].states, u, st);
    } else {
      StateEventReaches(t, c, u, x, st);
    }
  }

  /** Every client after an entry. */
  lemma EnterClient(s: System, u: UserId, c: ChannelId, muted: bool, deafen: bool, now: int, x: UserId)
    requires Consistent(s.server) && u !in s.server.joined && c in s.server.channels && u in s.clients && x in s.clients
    ensures var t := EnterStep(s, u, c, muted, deafen, now); var v := VoiceState(Connected, now, muted, deafen);
            c in t.server.channels && t.clients.Keys == s.clients.Keys &&
            t.clients[x]
            == if x == u then JoinCallFulfilled(s.clients[u], c, View(t.server.channels[c].states, u))
               else if x in s.server.joined && s.server.joined[x] == c
               then UpdateVoiceState(s.clients[x], u, Wire(v)) else s.clients[x]
  {
    EnterReceives(s.server, u, c, muted, deafen, now, x, s.clients[x]);
    hide Receive, View, Consistent;
  }

  lemma EnterMirrors(s: System, u: UserId, c: ChannelId, muted: bool, deafen: bool, now: int)
    requires Mirrored(s) && u in s.clients && u !in s.server.joined
    ensures Mirrored(EnterStep(s, u, c, muted, deafen, now))
  {
    var t := EnterStep(s, u, c, muted, deafen, now);
    EnterKeeps(s.server, u, c, muted, deafen, now);
    if c !in s.server.channels {
      NothingSent(s.clients);
    } else {
      EnterClient(s, u, c, muted, deafen, now, u);
      assert t.server == Enter(s.server, u, c, muted, deafen, now).server;
      assert JoinedListed(s.server) && JoinedListed(t.server);
      assert forall x :: x in s.clients ==> MirrorOk(s, x);
      var v := VoiceState(Connected, now, muted, deafen);
      assert t.server.joined == s.server.joined[u := c] && t.server.joined.Keys <= s.clients.Keys;
      assert t.server.channels == PutState(s.server, c, u, v).channels;
      hide *;
      forall x | x in s.clients ensures MirrorOk(t, x) {
        EnterClient(s, u, c, muted, deafen, now, x);
        EnterMirrorsOne(s, t, u, c, v, x);
      }
      MirroredIs(t);
    }
  }

  lemma EnterMirrorsOne(s: System, t: System, u: UserId, c: ChannelId, v: VoiceState, x: UserId)
    requires JoinedListed(s.server) && JoinedListed(t.server) && x in s.clients && x in t.clients && MirrorOk(s, x)
    requires c in s.server.channels && t.server.joined == s.server.joined[u := c]
    requires t.server.channels == PutState(s.server, c, u, v).channels
    requires t.clients[x]
             == if x == u then JoinCallFulfilled(s.clients[x], c, View(t.server.channels[c].states, u))
                else if x in s.server.joined && s.server.joined[x] == c
                then UpdateVoiceState(s.clients[x], u, Wire(v)) else s.clients[x]
    ensures MirrorOk(t, x)
  {
    ViewPut(s.server.channels[c].states, u, v, x);
    hide View;
  }

  // -------------------------------------------------------- who has ended

  /** The client's own test for "nobody else is connected" agrees with the server's decision to
      close the call, and exactly then everybody else who is listed is told that it has ended. */
  lemma LeaveDecisionsAgree(s: System, u: UserId, now: int)
    requires Mirrored(s) && u in s.clients && u in s.server.joined
    ensures var c := s.server.joined[u]; var r := Leave(s.server, u, now);
            (!AnyoneConnected(s.clients[u].voiceStates) <==> c !in r.server.channels) &&
            (c !in r.server.channels <==>
               |r.sent| == 2 && r.sent[1] == Broadcast(CallEnded(c), s.server.channels[c].states.Keys - {u})) &&
            (c in r.server.channels <==> |r.sent| == 1)
  {
    var c, left := s.server.joined[u], Left(s.server, u, now);
    assert MirrorOk(s, u);
    LeaveServer(s.server, u, now);
    var mine := s.clients[u].voiceStates;
    if Occupied(left.joined, c) {
      var x :| x in left.joined && left.joined[x] == c;
      assert x in mine && mine[x].kind == Connected;
    }
    if AnyoneConnected(mine) {
      var x :| x in mine && mine[x].kind == Connected;
      assert x in left.joined && left.joined[x] == c;
    }
  }

  lemma ListLosesCall(list: seq<ChannelId>, active: set<ChannelId>, informed: map<ChannelId, set<UserId>>, u: UserId,
                      c: ChannelId)
    requires ListsCalls(list, active, informed, u)
    ensures ListsCalls(Lists.Without(list, c), active - {c}, informed, u)
    ensures !(c in informed && u in informed[c]) ==> ListsCalls(list, active - {c}, informed, u)
  {
    Lists.WithoutIs(list, c);
  }

  lemma AfterLeaveList(s: Server, u: UserId, x: UserId, st: Client, now: int)
    requires JoinedListed(s) && u in s.joined && x != u
    ensures AfterLeaveOf(s, u, x, st, now).activeCalls
            == if !Occupied(s.joined - {u}, s.joined[u]) && x in s.channels[s.joined[u]].states
               then Lists.Without(st.activeCalls, s.joined[u]) else st.activeCalls
  {
    hide Occupied, Lists.Without;
  }

  lemma LeaveKeys(s: Server, u: UserId, now: int)
    requires JoinedListed(s) && u in s.joined
    ensures var c, t := s.joined[u], Leave(s, u, now).server;
            t.channels.Keys == (if Occupied(s.joined - {u}, c) then s.channels.Keys else s.channels.Keys - {c})
  {
    hide Occupied;
  }

  /** What a leave does to one client's list of calls. */
  lemma LeaveList(s: System, u: UserId, x: UserId, now: int)
    requires Mirrored(s) && u in s.clients && u in s.server.joined && x in s.clients
    ensures var c, t := s.server.joined[u], LeaveStep(s, u, now);
            x in t.clients &&
            t.clients[x].activeCalls == (if !Occupied(s.server.joined - {u}, c) && x in s.server.channels[c].states
                                         then Lists.Without(s.clients[x].activeCalls, c) else s.clients[x].activeCalls)
  {
    var c := s.server.joined[u];
    LeaveClient(s, u, x, now);
    assert u in s.server.channels[c].states;
    if x == u {
      LeaveKeys(s.server, u, now);
      LeaveDecisionsAgree(s, u, now);
      assert MirrorOk(s, u);
    } else {
      AfterLeaveList(s.server, u, x, s.clients[x], now);
    }
    hide *;
  }

  /** A channel that stays active stays listed for its members. */
  lemma LeaveMembers(s: System, u: UserId, d: ChannelId, now: int)
    requires JoinedListed(s.server) && u in s.server.joined
    requires d in Leave(s.server, u, now).server.channels
    ensures d in s.server.channels &&
            Leave(s.server, u, now).server.channels[d].states.Keys == s.server.channels[d].states.Keys
  {
  }

  lemma LeaveActiveOne(s: System, u: UserId, x: UserId, now: int)
    requires Invariant(s) && u in s.server.joined && x in s.clients
    ensures x in LeaveStep(s, u, now).clients && ActiveOk(LeaveStep(s, u, now), x)
  {
    var c, list, t := s.server.joined[u], s.clients[x].activeCalls, LeaveStep(s, u, now);
    assert u in s.clients && c in s.server.channels && InformedOk(s, c);
    assert t.informed == s.informed && t.server == Leave(s.server, u, now).server;
    assert ActiveOk(s, x);
    assert ListsCalls(list, s.server.channels.Keys, s.informed, x);
    LeaveList(s, u, x, now);
    LeaveKeys(s.server, u, now);
    ListLosesCall(list, s.server.channels.Keys, s.informed, x, c);
    assert c in s.informed && (x !in s.server.channels[c].states ==> x !in s.informed[c]);
    assert ActiveOk(t, x) by {
      assert ListsCalls(t.clients[x].activeCalls, t.server.channels.Keys, t.informed, x) by { hide *; }
    }
  }

  lemma LeaveInformed(s: System, u: UserId, d: ChannelId, now: int)
    requires JoinedListed(s.server) && u in s.server.joined && d in LeaveStep(s, u, now).server.channels
    requires d in s.server.channels ==> InformedOk(s, d)
    ensures InformedOk(LeaveStep(s, u, now), d)
  {
    LeaveMembers(s, u, d, now);
    hide Leave, ClearCurrentCall, ReceiveAll;
  }

  lemma LeaveActives(s: System, u: UserId, now: int)
    requires Invariant(s)
    ensures AllActiveOk(LeaveStep(s, u, now))
  {
    if u !in s.server.joined {
      NothingSent(s.clients);
      assert LeaveStep(s, u, now) == s;
      hide *;
    } else {
      var t := LeaveStep(s, u, now);
      assert JoinedListed(s.server) && u in s.clients;
      assert forall d :: d in s.server.channels ==> InformedOk(s, d);
      LeaveClient(s, u, u, now);
      hide *;
      forall d | d in t.server.channels ensures InformedOk(t, d) {
        LeaveInformed(s, u, d, now);
      }
      forall x | x in t.clients ensures ActiveOk(t, x) {
        LeaveActiveOne(s, u, x, now);
      }
      AllActiveIs(t);
    }
  }

  // ----------------------------------------------- changes of state only

  /** Steps that open and close nothing, and whose events change no list of calls. */
  lemma SameActives(s: System, t: System)
    requires AllActiveOk(s) && t.members == s.members && t.informed == s.informed && t.clients.Keys == s.clients.Keys
    requires t.server.channels.Keys == s.server.channels.Keys
    requires forall c :: c in s.server.channels ==>
      s.server.channels[c].states.Keys <= t.server.channels[c].states.Keys
    requires forall u :: u in s.clients ==> t.clients[u].activeCalls == s.clients[u].activeCalls
    ensures AllActiveOk(t)
  {
    forall c | c in t.server.channels ensures InformedOk(t, c) {
      assert InformedOk(s, c);
    }
    forall u | u in t.clients ensures ActiveOk(t, u) {
      assert ActiveOk(s, u);
    }
  }

  lemma StateEventKeepsList(states: map<UserId, VoiceState>, x: UserId, u: UserId, st: Client)
    requires x in states
    ensures Receive(st, u, [StateEvent(states, x)]).activeCalls == st.activeCalls
  {
    assert [StateEvent(states, x)][1..] == [];
  }

  lemma EnterList(s: System, u: UserId, c: ChannelId, muted: bool, deafen: bool, now: int, x: UserId)
    requires Consistent(s.server) && u !in s.server.joined && c in s.server.channels && u in s.clients && x in s.clients
    ensures var t := EnterStep(s, u, c, muted, deafen, now);
            t.clients.Keys == s.clients.Keys && t.members == s.members && t.informed == s.informed &&
            t.clients[x].activeCalls == s.clients[x].activeCalls
  {
    EnterClient(s, u, c, muted, deafen, now, x);
    hide Enter, Receive, View, Consistent;
  }

  lemma EnterKeys(s: Server, u: UserId, c: ChannelId, muted: bool, deafen: bool, now: int)
    requires c in s.channels
    ensures var t := Enter(s, u, c, muted, deafen, now).server;
            t.channels.Keys == s.channels.Keys &&
            forall d :: d in s.channels ==> s.channels[d].states.Keys <= t.channels[d].states.Keys
  {
  }

  lemma EnterKeepsInvariant(s: System, u: UserId, c: ChannelId, muted: bool, deafen: bool, now: int)
    requires Invariant(s) && u in s.clients && u !in s.server.joined
    ensures Invariant(EnterStep(s, u, c, muted, deafen, now))
  {
    var t := EnterStep(s, u, c, muted, deafen, now);
    if c !in s.server.channels {
      NothingSent(s.clients);
      assert t == s;
      hide *;
    } else {
      EnterMirrors(s, u, c, muted, deafen, now);
      EnterKeys(s.server, u, c, muted, deafen, now);
      EnterList(s, u, c, muted, deafen, now, u);
      assert t.server == Enter(s.server, u, c, muted, deafen, now).server;
      forall x | x in s.clients ensures t.clients[x].activeCalls == s.clients[x].activeCalls {
        EnterList(s, u, c, muted, deafen, now, x);
      }
      hide Mirrored, AllActiveOk, EnterStep, Enter;
      SameActives(s, t);
    }
  }

  lemma SetStateClient(s: System, u: UserId, muted: bool, deafen: bool, x: UserId)
    requires JoinedListed(s.server) && u in s.clients && x in s.clients && u in s.server.joined
    ensures var c, t := s.server.joined[u], SetStateStep(s, u, muted, deafen);
            var v := s.server.channels[c].states[u].(muted := muted, deafen := deafen);
            var sent := [StateEvent(PutState(s.server, c, u, v).channels[c].states, u)];
            t.server == PutState(s.server, c, u, v) && t.clients.Keys == s.clients.Keys &&
            t.members == s.members && t.informed == s.informed &&
            t.clients[x] == if x == u then SetVoiceStateFulfilled(s.clients[u], muted, deafen)
                            else Receive(s.clients[x], x, sent)
  {
    var c := s.server.joined[u];
    var v := s.server.channels[c].states[u].(muted := muted, deafen := deafen);
    OwnEventIsSilent(PutState(s.server, c, u, v).channels[c].states, u, s.clients[u]);
    hide Receive, StateEvent;
  }

  lemma SetStateKeepsInvariant(s: System, u: UserId, muted: bool, deafen: bool)
    requires Invariant(s) && u in s.clients
    ensures Invariant(SetStateStep(s, u, muted, deafen))
  {
    var t := SetStateStep(s, u, muted, deafen);
    if u in s.server.joined {
      var c := s.server.joined[u];
      var v := s.server.channels[c].states[u].(muted := muted, deafen := deafen);
      SetStateClient(s, u, muted, deafen, u);
      hide SetStateStep, Consistent, Receive, StateEvent, View, MirrorOk, ActiveOk;
      forall x | x in s.clients && x != u
        ensures t.clients[x] == Receive(s.clients[x], x, [StateEvent(t.server.channels[c].states, u)])
        ensures t.clients[x].activeCalls == s.clients[x].activeCalls
      {
        SetStateClient(s, u, muted, deafen, x);
        StateEventKeepsList(t.server.channels[c].states, u, x, s.clients[x]);
      }
      PutMirrors(s, t, c, u, v);
    } else {
      NothingSent(s.clients);
      QuietMirrors(s, t);
    }
    hide Mirrored, MirrorOk, ActiveOk, SetStateStep;
    SameActives(s, t);
  }

  /** Nothing that the mirror looks at has changed. */
  lemma QuietMirrors(s: System, t: System)
    requires Mirrored(s) && t.server == s.server && t.clients.Keys == s.clients.Keys
    requires forall u :: u in s.clients ==>
      t.clients[u].channelId == s.clients[u].channelId && t.clients[u].voiceStates == s.clients[u].voiceStates
    ensures Mirrored(t)
  {
    forall u | u in t.clients ensures MirrorOk(t, u) {
      assert MirrorOk(s, u);
    }
  }

  lemma ExpireKeepsInvariant(s: System, c: ChannelId, u: UserId, now: int)
    requires Invariant(s)
    ensures Invariant(ExpireStep(s, c, u, now))
  {
    var t := ExpireStep(s, c, u, now);
    if Overdue(s.server, c, u, now) {
      var v := s.server.channels[c].states[u].(kind := Disconnected, changed := now);
      var states := PutState(s.server, c, u, v).channels[c].states;
      if u in s.clients {
        OwnEventIsSilent(states, u, s.clients[u]);
      }
      forall x | x in s.clients ensures t.clients[x].activeCalls == s.clients[x].activeCalls {
        StateEventKeepsList(states, u, x, s.clients[x]);
      }
      hide Consistent, Receive, StateEvent, View, MirrorOk, ActiveOk;
      PutMirrors(s, t, c, u, v);
      SameActives(s, t);
    } else {
      NothingSent(s.clients);
    }
  }

  // --------------------------------------------------------- composite steps

  lemma ReceiveAllPut(clients: map<UserId, Client>, u: UserId, st: Client, sent: seq<Broadcast>)
    requires Receive(st, u, sent) == st
    ensures ReceiveAll(clients[u := st], sent) == ReceiveAll(clients, sent)[u := st]
  {
    hide Receive;
  }

  /** Clearing before the leave's events and clearing after them come to the same. */
  lemma ClearCommutes(s: System, u: UserId, now: int)
    requires Mirrored(s) && u in s.clients
    ensures var cleared := if s.clients[u].channelId.Some? then ClearCurrentCall(s.clients[u]) else s.clients[u];
            LeaveStep(s, u, now).clients == ReceiveAll(s.clients[u := cleared], Leave(s.server, u, now).sent)
  {
    var cleared := if s.clients[u].channelId.Some? then ClearCurrentCall(s.clients[u]) else s.clients[u];
    assert MirrorOk(s, u);
    var sent := Leave(s.server, u, now).sent;
    if u in s.server.joined {
      LeaveReceives(s.server, u, u, s.clients[u], now);
      LeaveReceives(s.server, u, u, cleared, now);
      ReceiveAllPut(s.clients, u, cleared, sent);
      assert cleared == ClearCurrentCall(ReceiveAll(s.clients, sent)[u]);
      assert Leave(s.server, u, now).status == Ok;
      hide Leave, Mirrored, Receive, ReceiveAll, ClearCurrentCall;
    } else {
      NothingSent(s.clients);
      assert s.clients[u := cleared] == s.clients;
    }
  }

  /** The client's and the handler's order of leaving and joining come to the same. */
  lemma JoinCallIsLeaveThenEnter(s: System, u: UserId, c: ChannelId, muted: bool, deafen: bool, now: int)
    requires Mirrored(s) && u in s.clients
    ensures JoinCallStep(s, u, c, muted, deafen, now) == EnterStep(LeaveStep(s, u, now), u, c, muted, deafen, now)
  {
    var cleared := if s.clients[u].channelId.Some? then ClearCurrentCall(s.clients[u]) else s.clients[u];
    var left := Leave(s.server, u, now);
    var entered := Enter(left.server, u, c, muted, deafen, now);
    ReceiveAllAppend(s.clients[u := cleared], left.sent, entered.sent);
    ClearCommutes(s, u, now);
    assert LeaveStep(s, u, now).server == left.server;
    assert u in ReceiveAll(s.clients[u := cleared], left.sent + entered.sent);
    assert JoinChannel(s.server, u, c, muted, deafen, now) == entered.(sent := left.sent + entered.sent);
    assert LeaveStep(s, u, now) == s.(server := left.server, clients := LeaveStep(s, u, now).clients);
    hide JoinChannel, JoinCallFulfilled, LeaveStep, ClearCurrentCall, Leave, Enter, View, Mirrored, ReceiveAll;
  }

  lemma JoinCallKeepsInvariant(s: System, u: UserId, c: ChannelId, muted: bool, deafen: bool, now: int)
    requires Invariant(s) && u in s.clients
    ensures Invariant(JoinCallStep(s, u, c, muted, deafen, now))
  {
    LeaveMirrors(s, u, now);
    LeaveActives(s, u, now);
    LeaveKeeps(s.server, u, now);
    JoinCallIsLeaveThenEnter(s, u, c, muted, deafen, now);
    EnterKeepsInvariant(LeaveStep(s, u, now), u, c, muted, deafen, now);
  }

  lemma IncomingReaches(st: Client, x: UserId, callId: CallId, c: ChannelId, targets: set<UserId>)
    ensures Receive(st, x, [Broadcast(IncomingCall(callId, c), targets)])
            == if x in targets then AddActiveCall(st, c) else st
  {
    assert [Broadcast(IncomingCall(callId, c), targets)][1..] == [];
  }

  /** The system between opening a channel and entering it. */
  function Started(s: System, u: UserId, c: ChannelId, callId: CallId, now: int): System
    requires c in s.members
  {
    s.(server := InitChannel(s.server, u, c, s.members[c], callId, now).server)
  }

  lemma InitMirrors(s: System, u: UserId, c: ChannelId, callId: CallId, now: int)
    requires Mirrored(s) && c in s.members && c !in s.server.channels && callId !in s.server.rows
    ensures Mirrored(Started(s, u, c, callId, now))
  {
    InitKeeps(s.server, u, c, s.members[c], callId, now);
    var t := Started(s, u, c, callId, now);
    forall x | x in t.clients ensures MirrorOk(t, x) {
      assert MirrorOk(s, x);
    }
  }

  /** A successful call is opening the channel, entering it, and the news of it. */
  lemma CallParts(s: System, u: UserId, c: ChannelId, muted: bool, deafen: bool, callId: CallId, now: int)
    requires JoinedListed(s.server) && u in s.clients && u !in s.server.joined && IsMember(s, u, c) &&
      c !in s.server.channels
    ensures var r := Enter(Started(s, u, c, callId, now).server, u, c, muted, deafen, now);
            var clients := ReceiveAll(ReceiveAll(s.clients, r.sent),
                                      [Broadcast(IncomingCall(callId, c), s.members[c] - {u})]);
            c in r.server.channels &&
            CallStep(s, u, c, muted, deafen, callId, now)
            == s.(server := r.server,
                  clients := clients[u := CallFulfilled(clients[u], c, View(r.server.channels[c].states, u))],
                  informed := s.informed[c := s.members[c]])
  {
    var r := Enter(Started(s, u, c, callId, now).server, u, c, muted, deafen, now);
    var incoming := Broadcast(IncomingCall(callId, c), s.members[c] - {u});
    ReceiveAllAppend(s.clients, r.sent, [incoming]);
    assert [] + r.sent + [incoming] == r.sent + [incoming];
    hide Receive, View;
  }

  /** Every client after a successful call: the entry of the caller, and a new active call for
      every member. */
  lemma CallClient(s: System, u: UserId, c: ChannelId, muted: bool, deafen: bool, callId: CallId, now: int, x: UserId)
    requires JoinedListed(s.server) && u in s.clients && u !in s.server.joined && x in s.clients
    requires IsMember(s, u, c) && c !in s.server.channels
    ensures var entered := EnterStep(Started(s, u, c, callId, now), u, c, muted, deafen, now);
            var t := CallStep(s, u, c, muted, deafen, callId, now);
            t.server == entered.server && t.members == s.members && t.informed == s.informed[c := s.members[c]] &&
            t.clients.Keys == s.clients.Keys == entered.clients.Keys &&
            t.clients[x] == if x in s.members[c] then AddActiveCall(entered.clients[x], c) else entered.clients[x]
  {
    CallParts(s, u, c, muted, deafen, callId, now);
    var r := Enter(Started(s, u, c, callId, now).server, u, c, muted, deafen, now);
    assert c in Started(s, u, c, callId, now).server.channels && r.status == Ok;
    IncomingReaches(Receive(s.clients[x], x, r.sent), x, callId, c, s.members[c] - {u});
    hide Receive, InitChannel, Enter, CallStep, View, JoinedListed;
  }

  /** The server's channels and every list of calls after a successful call. */
  lemma CallList(s: System, u: UserId, c: ChannelId, muted: bool, deafen: bool, callId: CallId, now: int, x: UserId)
    requires Mirrored(s) && u in s.clients && u !in s.server.joined && x in s.clients
    requires IsMember(s, u, c) && c !in s.server.channels && callId !in s.server.rows
    ensures var t := CallStep(s, u, c, muted, deafen, callId, now);
            t.members == s.members && t.informed == s.informed[c := s.members[c]] && t.clients.Keys == s.clients.Keys &&
            t.clients[x].activeCalls == s.clients[x].activeCalls + if x in s.members[c] then [c] else []
  {
    var started := Started(s, u, c, callId, now);
    InitMirrors(s, u, c, callId, now);
    assert c in started.server.channels && u !in started.server.joined && Consistent(started.server);
    CallClient(s, u, c, muted, deafen, callId, now, x);
    EnterList(started, u, c, muted, deafen, now, x);
    hide CallStep, EnterStep, InitChannel, Mirrored, Consistent;
  }

  lemma CallKeys(s: System, u: UserId, c: ChannelId, muted: bool, deafen: bool, callId: CallId, now: int)
    requires JoinedListed(s.server) && u in s.clients && u !in s.server.joined && IsMember(s, u, c) &&
      c !in s.server.channels
    ensures var t := CallStep(s, u, c, muted, deafen, callId, now).server;
            t.channels.Keys == s.server.channels.Keys + {c} && s.members[c] <= t.channels[c].states.Keys &&
            forall d :: d in s.server.channels ==> s.server.channels[d].states.Keys <= t.channels[d].states.Keys
  {
    CallParts(s, u, c, muted, deafen, callId, now);
    EnterKeys(Started(s, u, c, callId, now).server, u, c, muted, deafen, now);
    hide CallStep, Enter, ReceiveAll, View;
  }

  lemma ListGainsCall(list: seq<ChannelId>, active: set<ChannelId>, informed: map<ChannelId, set<UserId>>,
                      u: UserId, c: ChannelId, all: set<UserId>)
    requires ListsCalls(list, active, informed, u) && c !in active
    ensures ListsCalls(list + if u in all then [c] else [], active + {c}, informed[c := all], u)
  {
    Lists.AppendIs(list, c);
    assert list + [] == list;
  }

  lemma CallInformed(s: System, u: UserId, c: ChannelId, muted: bool, deafen: bool, callId: CallId, now: int,
                     d: ChannelId)
    requires JoinedListed(s.server) && u in s.clients && u !in s.server.joined
    requires IsMember(s, u, c) && c !in s.server.channels
    requires d in CallStep(s, u, c, muted, deafen, callId, now).server.channels
    requires d in s.server.channels ==> InformedOk(s, d)
    ensures InformedOk(CallStep(s, u, c, muted, deafen, callId, now), d)
  {
    var t := CallStep(s, u, c, muted, deafen, callId, now);
    CallKeys(s, u, c, muted, deafen, callId, now);
    CallClient(s, u, c, muted, deafen, callId, now, u);
    assert c in s.members;
    hide CallStep, EnterStep, Started, JoinedListed, AddActiveCall, IsMember;
  }

  lemma CallActiveOne(s: System, u: UserId, c: ChannelId, muted: bool, deafen: bool, callId: CallId, now: int,
                      x: UserId)
    requires Mirrored(s) && u in s.clients && u !in s.server.joined && x in s.clients && ActiveOk(s, x)
    requires IsMember(s, u, c) && c !in s.server.channels && callId !in s.server.rows
    ensures var t := CallStep(s, u, c, muted, deafen, callId, now); x in t.clients && ActiveOk(t, x)
  {
    CallKeys(s, u, c, muted, deafen, callId, now);
    CallList(s, u, c, muted, deafen, callId, now, x);
    hide CallStep, Mirrored, ListsCalls, JoinedListed;
    ListGainsCall(s.clients[x].activeCalls, s.server.channels.Keys, s.informed, x, c, s.members[c]);
  }

  lemma CallActives(s: System, u: UserId, c: ChannelId, muted: bool, deafen: bool, callId: CallId, now: int)
    requires Invariant(s) && u in s.clients && u !in s.server.joined
    requires IsMember(s, u, c) && c !in s.server.channels && callId !in s.server.rows
    ensures AllActiveOk(CallStep(s, u, c, muted, deafen, callId, now))
  {
    var t := CallStep(s, u, c, muted, deafen, callId, now);
    CallList(s, u, c, muted, deafen, callId, now, u);
    assert JoinedListed(s.server);
    assert forall d :: d in s.server.channels ==> InformedOk(s, d);
    assert forall x :: x in s.clients ==> ActiveOk(s, x);
    assert Mirrored(s);
    hide *;
    forall d | d in t.server.channels ensures InformedOk(t, d) {
      CallInformed(s, u, c, muted, deafen, callId, now, d);
    }
    forall x | x in t.clients ensures ActiveOk(t, x) {
      CallActiveOne(s, u, c, muted, deafen, callId, now, x);
    }
    AllActiveIs(t);
  }

  lemma CallMirrors(s: System, u: UserId, c: ChannelId, muted: bool, deafen: bool, callId: CallId, now: int)
    requires Mirrored(s) && u in s.clients && u !in s.server.joined
    requires IsMember(s, u, c) && c !in s.server.channels && callId !in s.server.rows
    ensures Mirrored(CallStep(s, u, c, muted, deafen, callId, now))
  {
    var started, t := Started(s, u, c, callId, now), CallStep(s, u, c, muted, deafen, callId, now);
    InitMirrors(s, u, c, callId, now);
    assert u in started.clients && u !in started.server.joined && started.clients == s.clients;
    EnterMirrors(started, u, c, muted, deafen, now);
    var entered := EnterStep(started, u, c, muted, deafen, now);
    CallClient(s, u, c, muted, deafen, callId, now, u);
    hide CallStep, EnterStep, Started, Mirrored;
    forall x | x in s.clients
      ensures x in t.clients && x in entered.clients
      ensures t.clients[x].channelId == entered.clients[x].channelId
      ensures t.clients[x].voiceStates == entered.clients[x].voiceStates
    {
      CallClient(s, u, c, muted, deafen, callId, now, x);
    }
    QuietMirrors(entered, t);
  }

  lemma CallKeepsInvariant(s: System, u: UserId, c: ChannelId, muted: bool, deafen: bool, callId: CallId, now: int)
    requires Invariant(s) && u in s.clients && s.clients[u].channelId == None && callId !in s.server.rows
    ensures Invariant(CallStep(s, u, c, muted, deafen, callId, now))
  {
    assert MirrorOk(s, u);
    if !IsMember(s, u, c) || c in s.server.channels {
      NothingSent(s.clients);
      assert CallStep(s, u, c, muted, deafen, callId, now) == s;
      hide *;
    } else {
      CallMirrors(s, u, c, muted, deafen, callId, now);
      CallActives(s, u, c, muted, deafen, callId, now);
      hide CallStep, Mirrored, AllActiveOk;
    }
  }

  lemma LoginKeepsInvariant(s: System, u: UserId)
    requires Invariant(s) && u !in s.clients
    ensures Invariant(LoginStep(s, u))
  {
    var t := LoginStep(s, u);
    forall c | c in t.server.channels ensures InformedOk(t, c) {
      assert InformedOk(s, c);
    }
    forall x | x in t.clients ensures MirrorOk(t, x) && ActiveOk(t, x) {
      if x != u {
        assert MirrorOk(s, x) && ActiveOk(s, x);
      }
    }
  }

  lemma LoadActive(s: System, u: UserId, c: ChannelId, x: UserId)
    requires u in s.clients && x in s.clients && c in s.server.channels && ActiveOk(s, x)
    ensures ActiveOk(LoadStep(s, u, c), x)
  {
    Lists.AppendIs(s.clients[x].activeCalls, c);
  }

  lemma LoadInformed(s: System, u: UserId, c: ChannelId, d: ChannelId)
    requires u in s.clients && IsMember(s, u, c) && c in s.server.channels && d in s.server.channels && InformedOk(s, d)
    ensures InformedOk(LoadStep(s, u, c), d)
  {
  }

  lemma LoadKeepsInvariant(s: System, u: UserId, c: ChannelId)
    requires Invariant(s) && u in s.clients && IsMember(s, u, c)
    ensures Invariant(LoadStep(s, u, c))
  {
    if c in s.server.channels {
      var t := LoadStep(s, u, c);
      QuietMirrors(s, t);
      assert forall d :: d in s.server.channels ==> InformedOk(s, d);
      assert forall x :: x in s.clients ==> ActiveOk(s, x);
      assert t.server == s.server && t.clients.Keys == s.clients.Keys;
      hide Mirrored, AllActiveOk, ActiveOk, InformedOk, LoadStep, IsMember;
      forall d | d in t.server.channels ensures InformedOk(t, d) {
        LoadInformed(s, u, c, d);
      }
      forall x | x in t.clients ensures ActiveOk(t, x) {
        LoadActive(s, u, c, x);
      }
      AllActiveIs(t);
    }
  }

  lemma CreateKeepsInvariant(s: System, c: ChannelId, users: set<UserId>)
    requires Invariant(s) && c !in s.members
    ensures Invariant(s.(members := s.members[c := users]))
  {
    var t := s.(members := s.members[c := users]);
    QuietMirrors(s, t);
    hide Mirrored;
    forall d | d in t.server.channels ensures InformedOk(t, d) {
      assert InformedOk(s, d);
    }
    forall x | x in t.clients ensures ActiveOk(t, x) {
      assert ActiveOk(s, x);
    }
  }

  lemma LogoutKeepsInvariant(s: System, u: UserId, now: int)
    requires Invariant(s)
    ensures Invariant(LogoutStep(s, u, now))
  {
    LeaveMirrors(s, u, now);
    LeaveActives(s, u, now);
    LeaveKeeps(s.server, u, now);
    var left, t := LeaveStep(s, u, now), LogoutStep(s, u, now);
    forall c | c in t.server.channels ensures InformedOk(t, c) {
      assert InformedOk(left, c);
    }
    forall x | x in t.clients ensures MirrorOk(t, x) && ActiveOk(t, x) {
      assert MirrorOk(left, x) && ActiveOk(left, x);
    }
  }

  // -------------------------------------------------------------- whole runs

  lemma StepKeepsInvariant(s: System, step: Step)
    requires Invariant(s) && Enabled(s, step)
    ensures Invariant(Apply(s, step))
  {
    match step
    case Call(u, c, muted, deafen, callId, now) => CallKeepsInvariant(s, u, c, muted, deafen, callId, now);
    case JoinCall(u, c, muted, deafen, now) => JoinCallKeepsInvariant(s, u, c, muted, deafen, now);
    case LeaveCall(u, now) => LeaveMirrors(s, u, now); LeaveActives(s, u, now);
    case SetVoiceState(u, muted, deafen) => SetStateKeepsInvariant(s, u, muted, deafen);
    case Timeout(c, u, now) => ExpireKeepsInvariant(s, c, u, now);
    case Login(u) => LoginKeepsInvariant(s, u);
    case Load(u, c) => LoadKeepsInvariant(s, u, c);
    case CreateChannel(c, users) => CreateKeepsInvariant(s, c, users);
    case Logout(u, now) => LogoutKeepsInvariant(s, u, now);
  }

  ghost predicate Admissible(s: System, steps: seq<Step>)
    requires Invariant(s)
    decreases |steps|
  {
    steps == [] ||
    (Enabled(s, steps[0]) && (StepKeepsInvariant(s, steps[0]); Admissible(Apply(s, steps[0]), steps[1..])))
  }

  ghost function Run(s: System, steps: seq<Step>): (t: System)
    requires Invariant(s) && Admissible(s, steps)
    ensures Invariant(t)
    decreases |steps|
  {
    if steps == [] then s else StepKeepsInvariant(s, steps[0]); Run(Apply(s, steps[0]), steps[1..])
  }

  /** Nobody is logged in and no call is active. */
  function Start(members: map<ChannelId, set<UserId>>): (s: System)
    ensures Invariant(s)
  {
    System(Initial(), map[], members, map[])
  }

  /** What the invariant says of one client, written out. */
  ghost predicate Agrees(t: System, u: UserId)
    requires u in t.clients
  {
    var client := t.clients[u];
    && (client.channelId == None <==> u !in t.server.joined)
    && (client.channelId.Some? ==>
          var c := client.channelId.value;
          u in t.server.joined && t.server.joined[u] == c && c in t.server.channels &&
          client.voiceStates.Keys == t.server.channels[c].states.Keys - {u} &&
          forall x :: x in client.voiceStates ==> client.voiceStates[x] == Wire(t.server.channels[c].states[x]))
    && forall c :: c in client.activeCalls <==> c in t.server.channels && IsMember(t, u, c) && IsInformed(t, u, c)
  }

  lemma InvariantMeans(t: System, u: UserId)
    requires Invariant(t) && u in t.clients
    ensures Agrees(t, u)
  {
    assert MirrorOk(t, u) && ActiveOk(t, u);
    assert JoinedListed(t.server);
    forall c | c in t.server.channels && IsInformed(t, u, c) ensures IsMember(t, u, c) {
      assert InformedOk(t, c);
    }
    hide Consistent, AllActiveOk, Mirrored;
  }

  /** In every run of calls, joins, leaves, mute changes, timeouts, logins, logouts, new channels and
      channels loaded: the map of a client in a call is the server's map of that channel without the
      client itself, entry by entry in state, mute and deafen; a client without a call is in none on
      the server either; and it lists the active calls of its channels that it has heard of. */
  lemma ReplicasAgree(members: map<ChannelId, set<UserId>>, steps: seq<Step>, u: UserId)
    requires Admissible(Start(members), steps)
    requires u in Run(Start(members), steps).clients
    ensures Agrees(Run(Start(members), steps), u)
  {
    InvariantMeans(Run(Start(members), steps), u);
  }
}
