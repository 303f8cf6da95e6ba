/** Mute and deafen from the user who sets them to everybody in the call. */
module VoiceFlags {
  import opened Options
  import opened VoiceServer
  import opened VoiceClient
  import opened VoiceSystem

  type Flags = (bool, bool)

  function FlagsOf(st: Client): Flags { (st.muted, st.deafen) }

  /** What a user last chose, told from the steps alone; a login starts with both off. */
  function Chosen(before: Flags, steps: seq<Step>, u: UserId): Flags
    decreases |steps|
  {
    if steps == [] then before else Chosen(Choice(before, steps[0], u), steps[1..], u)
  }

  function Choice(before: Flags, step: Step, u: UserId): Flags {
    match step
    case SetVoiceState(x, muted, deafen) => if x == u then (muted, deafen) else before
    case Login(x) => if x == u then (false, false) else before
    case _ => before
  }

  /** Whether a user is online, told from the steps alone. */
  function Online(before: bool, steps: seq<Step>, u: UserId): bool
    decreases |steps|
  {
    if steps == [] then before else Online(Presence(before, steps[0], u), steps[1..], u)
  }

  function Presence(before: bool, step: Step, u: UserId): bool {
    match step
    case Login(x) => before || x == u
    case Logout(x, _) => before && x != u
    case _ => before
  }

  // ----------------------------------------------------------- the client's flags

  lemma {:induction false} ReceiveKeepsFlags(st: Client, u: UserId, sent: seq<Broadcast>)
    ensures FlagsOf(Receive(st, u, sent)) == FlagsOf(st)
    decreases |sent|
  {
    if sent != [] {
      ReceiveKeepsFlags(if u in sent[0].targets then HandleEvent(st, sent[0].event) else st, u, sent[1..]);
    }
  }

  lemma AllKeepFlags(clients: map<UserId, Client>, sent: seq<Broadcast>)
    ensures forall u :: u in clients ==> FlagsOf(ReceiveAll(clients, sent)[u]) == FlagsOf(clients[u])
  {
    forall u | u in clients ensures FlagsOf(ReceiveAll(clients, sent)[u]) == FlagsOf(clients[u]) {
      ReceiveKeepsFlags(clients[u], u, sent);
    }
  }

  lemma LeaveStepFlags(s: System, x: UserId, now: int)
    requires JoinedListed(s.server)
    ensures var t := LeaveStep(s, x, now);
            t.clients.Keys == s.clients.Keys &&
            forall u :: u in s.clients ==> FlagsOf(t.clients[u]) == FlagsOf(s.clients[u])
  {
    AllKeepFlags(s.clients, Leave(s.server, x, now).sent);
    hide Leave, Receive;
  }

  lemma JoinStepFlags(s: System, x: UserId, c: ChannelId, muted: bool, deafen: bool, now: int)
    requires JoinedListed(s.server) && x in s.clients
    ensures var t := JoinCallStep(s, x, c, muted, deafen, now);
            t.clients.Keys == s.clients.Keys &&
            forall u :: u in s.clients ==> FlagsOf(t.clients[u]) == FlagsOf(s.clients[u])
  {
    var cleared := if s.clients[x].channelId.Some? then ClearCurrentCall(s.clients[x]) else s.clients[x];
    AllKeepFlags(s.clients[x := cleared], JoinChannel(s.server, x, c, muted, deafen, now).sent);
    hide JoinChannel, Receive, View;
  }

  lemma CallStepFlags(s: System, x: UserId, c: ChannelId, muted: bool, deafen: bool, callId: CallId, now: int)
    requires JoinedListed(s.server) && x in s.clients
    ensures var t := CallStep(s, x, c, muted, deafen, callId, now);
            t.clients.Keys == s.clients.Keys &&
            forall u :: u in s.clients ==> FlagsOf(t.clients[u]) == FlagsOf(s.clients[u])
  {
    if IsMember(s, x, c) {
      var left := Leave(s.server, x, now);
      var started := InitChannel(left.server, x, c, s.members[c], callId, now);
      if started.status != Ok {
        AllKeepFlags(s.clients, left.sent);
      } else {
        var entered := Enter(started.server, x, c, muted, deafen, now);
        AllKeepFlags(s.clients, left.sent + entered.sent + [Broadcast(IncomingCall(callId, c), s.members[c] - {x})]);
      }
    }
    hide Leave, InitChannel, Enter, Receive, View;
  }

  lemma StepFlags(s: System, step: Step, u: UserId)
    requires JoinedListed(s.server) && Enabled(s, step)
    ensures var t := Apply(s, step);
            (u in t.clients <==> Presence(u in s.clients, step, u)) &&
            (u in t.clients && u in s.clients ==> FlagsOf(t.clients[u]) == Choice(FlagsOf(s.clients[u]), step, u)) &&
            (u in t.clients && u !in s.clients ==> step == Login(u) && FlagsOf(t.clients[u]) == (false, false))
  {
    match step
    case Call(x, c, muted, deafen, callId, now) =>
      CallStepFlags(s, x, c, muted, deafen, callId, now);
      hide CallStep;
    case JoinCall(x, c, muted, deafen, now) => JoinStepFlags(s, x, c, muted, deafen, now); hide JoinCallStep;
    case LeaveCall(x, now) => LeaveStepFlags(s, x, now); hide LeaveStep;
    case Logout(x, now) => LeaveStepFlags(s, x, now); hide LeaveStep;
    case SetVoiceState(x, muted, deafen) =>
      AllKeepFlags(s.clients, SetState(s.server, x, muted, deafen).sent);
      hide SetState, Receive;
    case Timeout(c, x, now) =>
      AllKeepFlags(s.clients, Expire(s.server, c, x, now).sent);
      hide Expire, Receive;
    case _ =>
  }

  lemma {:induction false} RunFlags(s: System, steps: seq<Step>, u: UserId, before: Flags)
    requires Invariant(s) && Admissible(s, steps) && (u in s.clients ==> FlagsOf(s.clients[u]) == before)
    ensures var t := Run(s, steps);
            (u in t.clients <==> Online(u in s.clients, steps, u)) &&
            (u in t.clients ==> FlagsOf(t.clients[u]) == Chosen(before, steps, u))
    decreases |steps|
  {
    if steps != [] {
      assert JoinedListed(s.server);
      StepFlags(s, steps[0], u);
      StepKeepsInvariant(s, steps[0]);
      hide Invariant, Enabled, Apply;
      RunFlags(Apply(s, steps[0]), steps[1..], u, Choice(before, steps[0], u));
    }
  }

  // ----------------------------------------------------------- the server's flags

  /** The flags that the server has of whoever has joined a channel. */
  ghost function Held(s: Server, u: UserId): Option<Flags>
    requires JoinedListed(s)
  {
    if u in s.joined then
      var v := s.channels[s.joined[u]].states[u];
      Some((v.muted, v.deafen))
    else None
  }

  lemma LeaveHeld(s: Server, x: UserId, now: int, u: UserId)
    requires Consistent(s)
    ensures var t := Leave(s, x, now).server; JoinedListed(t) && Held(t, u) == if x == u then None else Held(s, u)
  {
    LeaveKeeps(s, x, now);
    assert JoinedListed(Leave(s, x, now).server);
    if x in s.joined {
      LeftHeld(s, x, now, u);
      var left := Left(s, x, now);
      hide Left, Consistent, Held, StateEvent;
      if !Occupied(left.joined, s.joined[x]) {
        CloseHeld(left, s.joined[x], now, u);
      }
    }
    hide Left, CloseCall, Consistent, StateEvent, Occupied;
  }

  lemma LeftHeld(s: Server, x: UserId, now: int, u: UserId)
    requires TablesAgree(s) && x in s.joined
    ensures var t := Left(s, x, now);
            JoinedListed(t) && s.joined[x] in t.channels && Held(t, u) == if x == u then None else Held(s, u)
  {
    LeftTables(s, x, now);
  }

  lemma CloseHeld(s: Server, c: ChannelId, now: int, u: UserId)
    requires JoinedListed(s) && c in s.channels && !Occupied(s.joined, c)
    ensures JoinedListed(CloseCall(s, c, now)) && Held(CloseCall(s, c, now), u) == Held(s, u)
  {
    assert forall y :: y in s.joined ==> s.joined[y] != c;
  }

  lemma InitHeld(s: Server, x: UserId, c: ChannelId, users: set<UserId>, callId: CallId, now: int, u: UserId)
    requires Consistent(s)
    ensures var t := InitChannel(s, x, c, users, callId, now).server; JoinedListed(t) && Held(t, u) == Held(s, u)
  {
    InitTables(s, x, c, users, callId, now);
    hide RowsMatch, OccupiedOrNew;
  }

  lemma EnterHeld(s: Server, x: UserId, c: ChannelId, muted: bool, deafen: bool, now: int, u: UserId)
    requires TablesAgree(s) && x !in s.joined
    ensures var t := Enter(s, x, c, muted, deafen, now).server;
            JoinedListed(t) &&
            Held(t, u) == if x == u then (if c in s.channels then Some((muted, deafen)) else None) else Held(s, u)
  {
    EnterTables(s, x, c, muted, deafen, now);
  }

  lemma SetStateHeld(s: Server, x: UserId, muted: bool, deafen: bool, u: UserId)
    requires Consistent(s)
    ensures var t := SetState(s, x, muted, deafen).server;
            JoinedListed(t) && Held(t, u) == if x == u && u in s.joined then Some((muted, deafen)) else Held(s, u)
  {
    SetStateKeeps(s, x, muted, deafen);
    hide RowsMatch, OccupiedOrNew;
  }

  lemma ExpireHeld(s: Server, c: ChannelId, x: UserId, now: int, u: UserId)
    requires Consistent(s)
    ensures var t := Expire(s, c, x, now).server; JoinedListed(t) && Held(t, u) == Held(s, u)
  {
    ExpireKeeps(s, c, x, now);
    hide RowsMatch, OccupiedOrNew;
  }

  // ---------------------------------------------------------------- together

  /** A client sends the flags that it shows. */
  ghost predicate Honest(s: System, step: Step)
    requires Enabled(s, step)
  {
    match step
    case Call(u, _, muted, deafen, _, _) => (muted, deafen) == FlagsOf(s.clients[u])
    case JoinCall(u, _, muted, deafen, _) => (muted, deafen) == FlagsOf(s.clients[u])
    case _ => true
  }

  ghost predicate AllHonest(s: System, steps: seq<Step>)
    requires Invariant(s) && Admissible(s, steps)
    decreases |steps|
  {
    steps == [] ||
    (Honest(s, steps[0]) && (StepKeepsInvariant(s, steps[0]); AllHonest(Apply(s, steps[0]), steps[1..])))
  }

  /** Of whoever is in a call the server has the flags that their client shows. */
  ghost predicate FlagsAgree(s: System, u: UserId)
    requires JoinedListed(s.server)
  {
    u in s.clients && Held(s.server, u).Some? ==> Held(s.server, u).value == FlagsOf(s.clients[u])
  }

  lemma CallHeld(s: System, x: UserId, c: ChannelId, muted: bool, deafen: bool, callId: CallId, now: int, u: UserId)
    requires Invariant(s) && Enabled(s, Step.Call(x, c, muted, deafen, callId, now))
    ensures var t := CallStep(s, x, c, muted, deafen, callId, now).server;
            JoinedListed(t) &&
            (x != u ==> Held(t, u) == Held(s.server, u)) &&
            (x == u ==> Held(t, u) == Held(s.server, u) || Held(t, u) == None || Held(t, u) == Some((muted, deafen)))
  {
    if IsMember(s, x, c) {
      var left := Leave(s.server, x, now).server;
      LeaveKeeps(s.server, x, now);
      LeaveHeld(s.server, x, now, u);
      var started := InitChannel(left, x, c, s.members[c], callId, now);
      InitHeld(left, x, c, s.members[c], callId, now, u);
      InitTables(left, x, c, s.members[c], callId, now);
      InitAnswer(left, x, c, s.members[c], callId, now);
      hide Invariant, Leave, InitChannel, Held;
      if started.status == Ok {
        EnterHeld(started.server, x, c, muted, deafen, now, u);
      }
      hide Enter, View, Receive, Consistent, TablesAgree;
    } else {
      hide Held;
    }
  }

  lemma InitAnswer(s: Server, x: UserId, c: ChannelId, users: set<UserId>, callId: CallId, now: int)
    ensures InitChannel(s, x, c, users, callId, now).server.joined == s.joined
    ensures InitChannel(s, x, c, users, callId, now).status != Ok ==>
              InitChannel(s, x, c, users, callId, now).server == s
  {
  }

  lemma JoinHeld(s: Server, x: UserId, c: ChannelId, muted: bool, deafen: bool, now: int, u: UserId)
    requires Consistent(s)
    ensures var t := JoinChannel(s, x, c, muted, deafen, now).server;
            JoinedListed(t) &&
            (x != u ==> Held(t, u) == Held(s, u)) &&
            (x == u ==> Held(t, u) == None || Held(t, u) == Some((muted, deafen)))
  {
    LeaveKeeps(s, x, now);
    LeaveHeld(s, x, now, u);
    EnterHeld(Leave(s, x, now).server, x, c, muted, deafen, now, u);
    hide Leave, Enter, Held;
  }

  lemma StepKeepsFlags(s: System, step: Step, u: UserId)
    requires Invariant(s) && Enabled(s, step) && Honest(s, step) && FlagsAgree(s, u)
    ensures JoinedListed(Apply(s, step).server) && FlagsAgree(Apply(s, step), u)
  {
    StepKeepsInvariant(s, step);
    StepFlags(s, step, u);
    assert JoinedListed(s.server) && JoinedListed(Apply(s, step).server);
    assert u in s.server.joined ==> u in s.clients;
    hide Invariant, Held, AllActiveOk;
    StepHeld(s, step, u);
    hide Apply;
  }

  lemma StepServer(s: System, step: Step)
    requires JoinedListed(s.server) && Enabled(s, step)
    ensures Apply(s, step).server
            == match step
               case Call(x, c, muted, deafen, callId, now) => CallStep(s, x, c, muted, deafen, callId, now).server
               case JoinCall(x, c, muted, deafen, now) => JoinChannel(s.server, x, c, muted, deafen, now).server
               case LeaveCall(x, now) => Leave(s.server, x, now).server
               case Logout(x, now) => Leave(s.server, x, now).server
               case SetVoiceState(x, muted, deafen) => SetState(s.server, x, muted, deafen).server
               case Timeout(c, x, now) => Expire(s.server, c, x, now).server
               case _ => s.server
  {
    hide CallStep, Leave, JoinChannel, SetState, Expire, ReceiveAll, View, ClearCurrentCall;
  }

  /** What a step makes of the flags that the server has of a user. */
  lemma StepHeld(s: System, step: Step, u: UserId)
    requires Invariant(s) && Enabled(s, step)
    ensures JoinedListed(Apply(s, step).server)
    ensures var held, after := Held(s.server, u), Held(Apply(s, step).server, u);
            match step
            case Call(x, _, muted, deafen, _, _) => after == held || (x == u && after in {None, Some((muted, deafen))})
            case JoinCall(x, _, muted, deafen, _) =>
              if x == u then after in {None, Some((muted, deafen))} else after == held
            case SetVoiceState(x, muted, deafen) =>
              after == if x == u && held.Some? then Some((muted, deafen)) else held
            case LeaveCall(x, _) => after == if x == u then None else held
            case Logout(x, _) => after == if x == u then None else held
            case _ => after == held
  {
    assert Consistent(s.server) && JoinedListed(s.server);
    StepServer(s, step);
    hide Mirrored, AllActiveOk, Consistent, CallStep, Apply, Leave, JoinChannel, SetState, Expire;
    match step
    case Call(x, c, muted, deafen, callId, now) => CallHeld(s, x, c, muted, deafen, callId, now, u); hide Held;
    case JoinCall(x, c, muted, deafen, now) => JoinHeld(s.server, x, c, muted, deafen, now, u); hide Held;
    case LeaveCall(x, now) => LeaveHeld(s.server, x, now, u); hide Held;
    case Logout(x, now) => LeaveHeld(s.server, x, now, u); hide Held;
    case SetVoiceState(x, muted, deafen) =>
      SetStateHeld(s.server, x, muted, deafen, u);
      assert Held(s.server, u).Some? <==> u in s.server.joined;
      hide Held;
    case Timeout(c, x, now) => ExpireHeld(s.server, c, x, now, u); hide Held;
    case _ => hide Held;
  }

  lemma {:induction false} RunKeepsFlags(s: System, steps: seq<Step>, u: UserId)
    requires Invariant(s) && Admissible(s, steps) && AllHonest(s, steps) && JoinedListed(s.server) && FlagsAgree(s, u)
    ensures JoinedListed(Run(s, steps).server) && FlagsAgree(Run(s, steps), u)
    decreases |steps|
  {
    if steps != [] {
      StepKeepsFlags(s, steps[0], u);
      StepKeepsInvariant(s, steps[0]);
      hide Invariant, Enabled, Apply, FlagsAgree, Honest;
      RunKeepsFlags(Apply(s, steps[0]), steps[1..], u);
    }
  }

  /** In every run in which clients call and join with the flags that they show: every client shows
      what its user has last chosen, the server has the same of whoever is in a call, and so does
      every other client in that call. */
  lemma ChosenIsSeen(members: map<ChannelId, set<UserId>>, steps: seq<Step>, u: UserId, x: UserId)
    requires Admissible(Start(members), steps) && AllHonest(Start(members), steps)
    requires var t := Run(Start(members), steps); u in t.clients && u in t.server.joined
    ensures var t, chosen := Run(Start(members), steps), Chosen((false, false), steps, u);
            JoinedListed(t.server) && FlagsOf(t.clients[u]) == chosen && Held(t.server, u) == Some(chosen) &&
            (x in t.clients && x != u && t.clients[x].channelId == t.clients[u].channelId ==>
               u in t.clients[x].voiceStates &&
               (t.clients[x].voiceStates[u].muted, t.clients[x].voiceStates[u].deafen) == chosen)
  {
    var t := Run(Start(members), steps);
    RunFlags(Start(members), steps, u, (false, false));
    RunKeepsFlags(Start(members), steps, u);
    InvariantMeans(t, u);
    if x in t.clients {
      InvariantMeans(t, x);
    }
    assert JoinedListed(t.server);
    hide Run, Admissible, AllHonest, Invariant, Chosen;
  }

  /** Who is online, and what their clients show, is as the steps have it, honest or not. */
  lemma ShownIsChosen(members: map<ChannelId, set<UserId>>, steps: seq<Step>, u: UserId)
    requires Admissible(Start(members), steps)
    ensures var t := Run(Start(members), steps);
            (u in t.clients <==> Online(false, steps, u)) &&
            (u in t.clients ==> FlagsOf(t.clients[u]) == Chosen((false, false), steps, u))
  {
    RunFlags(Start(members), steps, u, (false, false));
  }
}
