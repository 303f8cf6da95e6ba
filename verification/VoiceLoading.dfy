/** Which active calls a client lists: those that have begun since its login, and those of the
    channels that it has loaded since. */
module VoiceLoading {
  import opened Lists
  import opened Options
  import opened VoiceServer
  import opened VoiceClient
  import opened VoiceSystem

  ghost predicate RunsCall(s: System, c: ChannelId, id: CallId) {
    c in s.server.channels && s.server.channels[c].callId == id
  }

  // ------------------------------------------------------ how calls come and go

  /** Call rows stay, and a channel runs the call that it ran before, or a new one after none. */
  ghost predicate Continues(s: System, t: System) {
    && s.server.rows.Keys <= t.server.rows.Keys
    && forall c :: c in t.server.channels ==>
         t.server.channels[c].callId in t.server.rows &&
         (RunsCall(s, c, t.server.channels[c].callId) ||
          (c !in s.server.channels && t.server.channels[c].callId !in s.server.rows))
  }

  /** No channel has a new call. */
  ghost predicate OpensNone(s: System, t: System) {
    && s.server.rows.Keys <= t.server.rows.Keys
    && forall c :: c in t.server.channels ==>
         t.server.channels[c].callId in t.server.rows && RunsCall(s, c, t.server.channels[c].callId)
  }

  lemma LeaveCalls(s: Server, u: UserId, now: int)
    requires JoinedListed(s)
    ensures var t := Leave(s, u, now).server;
            t.rows.Keys == s.rows.Keys &&
            forall c :: c in t.channels ==> c in s.channels && t.channels[c].callId == s.channels[c].callId
  {
    hide Occupied;
  }

  lemma LeaveContinues(s: System, u: UserId, now: int)
    requires Consistent(s.server)
    ensures OpensNone(s, LeaveStep(s, u, now))
  {
    LookupsSucceed(s.server);
    LeaveCalls(s.server, u, now);
    hide Consistent, Leave, ReceiveAll, ClearCurrentCall;
  }

  lemma EnterContinues(s: System, u: UserId, c: ChannelId, muted: bool, deafen: bool, now: int)
    requires forall d :: d in s.server.channels ==> s.server.channels[d].callId in s.server.rows
    ensures OpensNone(s, EnterStep(s, u, c, muted, deafen, now))
  {
    hide ReceiveAll, View, JoinCallFulfilled;
  }

  lemma ContinuesThen(a: System, b: System, c: System)
    requires Continues(a, b) && OpensNone(b, c)
    ensures Continues(a, c)
  {
  }

  lemma OpensNoneContinues(s: System, t: System)
    requires OpensNone(s, t)
    ensures Continues(s, t)
  {
  }

  lemma CallContinues(s: System, u: UserId, c: ChannelId, muted: bool, deafen: bool, callId: CallId, now: int)
    requires Mirrored(s) && u in s.clients && s.clients[u].channelId == None && callId !in s.server.rows
    ensures Continues(s, CallStep(s, u, c, muted, deafen, callId, now))
  {
    assert MirrorOk(s, u) && JoinedListed(s.server);
    LookupsSucceed(s.server);
    if !IsMember(s, u, c) || c in s.server.channels {
      NothingSent(s.clients);
      assert CallStep(s, u, c, muted, deafen, callId, now) == s;
      hide CallStep, Mirrored, MirrorOk, JoinedListed;
    } else {
      var started := Started(s, u, c, callId, now);
      StartedContinues(s, u, c, callId, now);
      EnterContinues(started, u, c, muted, deafen, now);
      CallClient(s, u, c, muted, deafen, callId, now, u);
      hide Started, EnterStep, CallStep, Mirrored, MirrorOk, Consistent;
      ContinuesThen(s, started, EnterStep(started, u, c, muted, deafen, now));
    }
  }

  lemma StartedContinues(s: System, u: UserId, c: ChannelId, callId: CallId, now: int)
    requires c in s.members && c !in s.server.channels && callId !in s.server.rows
    requires forall d :: d in s.server.channels ==> s.server.channels[d].callId in s.server.rows
    ensures Continues(s, Started(s, u, c, callId, now))
  {
    hide PendingStates;
  }

  lemma SameServerContinues(s: System, t: System)
    requires Consistent(s.server) && t.server.rows == s.server.rows && t.server.channels.Keys == s.server.channels.Keys
    requires forall c :: c in s.server.channels ==> t.server.channels[c].callId == s.server.channels[c].callId
    ensures Continues(s, t)
  {
    LookupsSucceed(s.server);
    hide Consistent;
  }

  lemma JoinContinues(s: System, u: UserId, c: ChannelId, muted: bool, deafen: bool, now: int)
    requires Mirrored(s) && u in s.clients
    ensures Continues(s, JoinCallStep(s, u, c, muted, deafen, now))
  {
    assert Consistent(s.server) && JoinedListed(s.server);
    var left := LeaveStep(s, u, now);
    LeaveContinues(s, u, now);
    LeaveKeeps(s.server, u, now);
    LookupsSucceed(Leave(s.server, u, now).server);
    assert left.server == Leave(s.server, u, now).server;
    EnterContinues(left, u, c, muted, deafen, now);
    JoinCallIsLeaveThenEnter(s, u, c, muted, deafen, now);
    hide JoinCallStep, LeaveStep, EnterStep, Continues, OpensNone, Mirrored, Leave;
    OpensNoneContinues(s, left);
    ContinuesThen(s, left, EnterStep(left, u, c, muted, deafen, now));
  }

  lemma StepContinues(s: System, step: Step)
    requires Invariant(s) && Enabled(s, step)
    ensures Continues(s, Apply(s, step))
  {
    assert Mirrored(s) && Consistent(s.server) && JoinedListed(s.server);
    hide Invariant, Mirrored, Consistent, JoinedListed, LeaveStep, CallStep, JoinCallStep, Continues, OpensNone,
      ReceiveAll;
    match step
    case Call(u, c, muted, deafen, callId, now) => CallContinues(s, u, c, muted, deafen, callId, now);
    case JoinCall(u, c, muted, deafen, now) => JoinContinues(s, u, c, muted, deafen, now);
    case LeaveCall(u, now) =>
      LeaveContinues(s, u, now);
      OpensNoneContinues(s, LeaveStep(s, u, now));
    case Logout(u, now) => LogoutContinues(s, u, now);
    case SetVoiceState(u, muted, deafen) => SetStateContinues(s, u, muted, deafen);
    case Timeout(c, u, now) => ExpireContinues(s, c, u, now);
    case Load(u, c) => SameServerContinues(s, LoadStep(s, u, c));
    case _ => hide SetStateStep, ExpireStep; SameServerContinues(s, Apply(s, step));
  }

  lemma SetStateContinues(s: System, u: UserId, muted: bool, deafen: bool)
    requires Consistent(s.server) && u in s.clients
    ensures Continues(s, SetStateStep(s, u, muted, deafen))
  {
    LookupsSucceed(s.server);
    hide Consistent, ReceiveAll;
  }

  lemma ExpireContinues(s: System, c: ChannelId, u: UserId, now: int)
    requires Consistent(s.server)
    ensures Continues(s, ExpireStep(s, c, u, now))
  {
    LookupsSucceed(s.server);
    hide Consistent, ReceiveAll;
  }

  lemma LogoutContinues(s: System, u: UserId, now: int)
    requires Consistent(s.server)
    ensures Continues(s, LogoutStep(s, u, now))
  {
    LeaveContinues(s, u, now);
    hide LeaveStep, Consistent;
  }

  /** A call that a channel does not run any more it never runs again. */
  lemma {:induction false} NeverAgain(s: System, steps: seq<Step>, c: ChannelId, id: CallId)
    requires Invariant(s) && Admissible(s, steps) && id in s.server.rows && !RunsCall(s, c, id)
    ensures !RunsCall(Run(s, steps), c, id)
    decreases |steps|
  {
    if steps != [] {
      StepKeepsInvariant(s, steps[0]);
      StepContinues(s, steps[0]);
      assert JoinedListed(s.server);
      hide Invariant, Apply, Enabled;
      NeverAgain(Apply(s, steps[0]), steps[1..], c, id);
    }
  }

  // ------------------------------------------------------------ who has heard of it

  /** A step tells a user of a call that goes on only if they load the channel. */
  lemma StepInforms(s: System, step: Step, u: UserId, c: ChannelId)
    requires Invariant(s) && Enabled(s, step) && step != Login(u) && c in s.server.channels
    ensures IsInformed(Apply(s, step), u, c) <==> IsInformed(s, u, c) || step == Load(u, c)
  {
    assert JoinedListed(s.server);
    hide *;
    match step
    case Call(_, _, _, _, _, _) => CallStepInforms(s, step, u, c);
    case Login(_) => LoadStepInforms(s, step, u, c);
    case Load(_, _) => LoadStepInforms(s, step, u, c);
    case _ => OthersInformNobody(s, step, u, c);
  }

  lemma CallStepInforms(s: System, step: Step, u: UserId, c: ChannelId)
    requires Invariant(s) && Enabled(s, step) && step.Call? && c in s.server.channels
    ensures IsInformed(Apply(s, step), u, c) <==> IsInformed(s, u, c)
  {
    assert MirrorOk(s, step.user);
    CallInforms(s, step.user, step.channel, step.muted, step.deafen, step.callId, step.now, c);
    hide CallStep, Mirrored, AllActiveOk;
  }

  lemma LoadStepInforms(s: System, step: Step, u: UserId, c: ChannelId)
    requires JoinedListed(s.server) && Enabled(s, step) && c in s.server.channels
    requires step.Load? || (step.Login? && step != Login(u))
    ensures IsInformed(Apply(s, step), u, c) <==> IsInformed(s, u, c) || step == Load(u, c)
  {
    hide JoinedListed;
  }

  lemma OthersInformNobody(s: System, step: Step, u: UserId, c: ChannelId)
    requires JoinedListed(s.server) && Enabled(s, step) && !step.Call? && !step.Login? && !step.Load?
    ensures IsInformed(Apply(s, step), u, c) <==> IsInformed(s, u, c)
  {
    hide ReceiveAll, Leave, SetState, Expire, JoinChannel, View, ClearCurrentCall, JoinedListed;
  }

  lemma CallInforms(s: System, u: UserId, d: ChannelId, muted: bool, deafen: bool, callId: CallId, now: int,
                    c: ChannelId)
    requires JoinedListed(s.server) && u in s.clients && u !in s.server.joined && c in s.server.channels
    ensures var t := CallStep(s, u, d, muted, deafen, callId, now);
            forall x :: IsInformed(t, x, c) <==> IsInformed(s, x, c)
  {
    hide Enter, View, CallFulfilled, ReceiveAll;
  }

  /** A user hears of every call of their channels that begins while they are logged in. */
  lemma StepInformsOfNew(s: System, step: Step, u: UserId, c: ChannelId)
    requires Invariant(s) && Enabled(s, step) && step != Login(u)
    requires c in Apply(s, step).server.channels && c !in s.server.channels && IsMember(Apply(s, step), u, c)
    ensures IsInformed(Apply(s, step), u, c)
  {
    match step
    case Call(x, d, muted, deafen, callId, now) =>
      assert MirrorOk(s, x);
      CallInformsOfNew(s, x, d, muted, deafen, callId, now, u, c);
      hide *;
    case _ => StepOpensNone(s, step); hide *;
  }

  lemma CallInformsOfNew(s: System, u: UserId, d: ChannelId, muted: bool, deafen: bool, callId: CallId, now: int,
                         x: UserId, c: ChannelId)
    requires JoinedListed(s.server) && u in s.clients && u !in s.server.joined
    requires var t := CallStep(s, u, d, muted, deafen, callId, now);
             c in t.server.channels && c !in s.server.channels && IsMember(t, x, c)
    ensures IsInformed(CallStep(s, u, d, muted, deafen, callId, now), x, c)
  {
    hide View, CallFulfilled, ReceiveAll;
  }

  lemma StepOpensNone(s: System, step: Step)
    requires Invariant(s) && Enabled(s, step) && !step.Call?
    ensures Apply(s, step).server.channels.Keys <= s.server.channels.Keys
  {
    hide ReceiveAll, View, ClearCurrentCall;
    match step
    case JoinCall(u, c, muted, deafen, now) =>
      LeaveOpensNone(s.server, u, now);
      var left := Leave(s.server, u, now).server;
      if c in left.channels {
        EnterKeys(left, u, c, muted, deafen, now);
      }
      hide Leave, Enter, Invariant;
    case LeaveCall(u, now) => LeaveOpensNone(s.server, u, now); hide Leave, Invariant;
    case Logout(u, now) => LeaveOpensNone(s.server, u, now); hide Leave, Invariant;
    case _ => hide Invariant;
  }

  lemma LeaveOpensNone(s: Server, u: UserId, now: int)
    requires JoinedListed(s)
    ensures Leave(s, u, now).server.channels.Keys <= s.channels.Keys
  {
    if u in s.joined {
      LeaveKeys(s, u, now);
    }
    hide Leave, Occupied;
  }

  lemma StepMembers(s: System, step: Step, u: UserId, c: ChannelId)
    requires Invariant(s) && Enabled(s, step) && c in s.server.channels
    ensures IsMember(Apply(s, step), u, c) <==> IsMember(s, u, c)
  {
    assert InformedOk(s, c);
    hide ReceiveAll, Leave, Enter, InitChannel, SetState, Expire, JoinChannel, View, ClearCurrentCall, Mirrored,
      ActiveOk;
  }

  lemma MembersStep(s: System, step: Step)
    requires JoinedListed(s.server) && Enabled(s, step)
    ensures Apply(s, step).members
            == if step.CreateChannel? then s.members[step.channel := step.users] else s.members
  {
    hide ReceiveAll, Leave, Enter, InitChannel, SetState, Expire, JoinChannel, View, ClearCurrentCall;
  }

  /** The members of a channel are those it was created with, before the run or in it. */
  lemma {:induction false} MembersTellHistory(s: System, steps: seq<Step>, u: UserId, c: ChannelId)
    requires Invariant(s) && Admissible(s, steps)
    ensures IsMember(Run(s, steps), u, c)
            <==> IsMember(s, u, c) || exists users: set<UserId> :: CreateChannel(c, users) in steps && u in users
    decreases |steps|
  {
    if steps != [] {
      var step, rest := steps[0], steps[1..];
      assert JoinedListed(s.server);
      MembersStep(s, step);
      StepKeepsInvariant(s, step);
      var t := Apply(s, step);
      assert step.CreateChannel? ==> step.channel !in s.members;
      hide Invariant, Apply, Enabled;
      MembersTellHistory(t, rest, u, c);
      assert steps == [step] + rest;
      assert IsMember(t, u, c)
        <==> IsMember(s, u, c) || (step.CreateChannel? && step.channel == c && u in step.users);
    }
  }

  // --------------------------------------------------------------------- the runs

  /** What a user has heard of the calls of their channels, for call rows that are not in `known`:
      everything. */
  ghost predicate HeardOfNew(s: System, u: UserId, known: set<CallId>) {
    forall c :: c in s.server.channels && s.server.channels[c].callId !in known && IsMember(s, u, c) ==>
      IsInformed(s, u, c)
  }

  lemma StepKeepsHeard(s: System, step: Step, u: UserId, known: set<CallId>)
    requires Invariant(s) && Enabled(s, step) && step != Login(u) && known <= s.server.rows.Keys &&
      HeardOfNew(s, u, known)
    ensures HeardOfNew(Apply(s, step), u, known)
  {
    var t := Apply(s, step);
    StepContinues(s, step);
    assert JoinedListed(s.server);
    forall c | c in t.server.channels && t.server.channels[c].callId !in known && IsMember(t, u, c)
      ensures IsInformed(t, u, c)
    {
      if c in s.server.channels {
        StepMembers(s, step, u, c);
        StepInforms(s, step, u, c);
        assert RunsCall(s, c, t.server.channels[c].callId);
      } else {
        StepInformsOfNew(s, step, u, c);
      }
    }
  }

  lemma {:induction false} RunInforms(s: System, steps: seq<Step>, u: UserId, c: ChannelId, known: set<CallId>)
    requires Invariant(s) && Admissible(s, steps) && Login(u) !in steps
    requires known <= s.server.rows.Keys && HeardOfNew(s, u, known)
    requires c in Run(s, steps).server.channels && IsMember(Run(s, steps), u, c)
    ensures var t, id := Run(s, steps), Run(s, steps).server.channels[c].callId;
            IsInformed(t, u, c) <==> id !in known || (RunsCall(s, c, id) && IsInformed(s, u, c)) || Load(u, c) in steps
    decreases |steps|
  {
    var id := Run(s, steps).server.channels[c].callId;
    if steps != [] {
      var t := Apply(s, steps[0]);
      assert JoinedListed(s.server) && steps[0] != Login(u) && Login(u) !in steps[1..];
      StepKeepsInvariant(s, steps[0]);
      StepContinues(s, steps[0]);
      StepKeepsHeard(s, steps[0], u, known);
      assert steps == [steps[0]] + steps[1..];
      if c in s.server.channels {
        StepInforms(s, steps[0], u, c);
      }
      if id in known && !RunsCall(t, c, id) {
        NeverAgain(t, steps[1..], c, id);
      }
      hide Invariant, Apply, Enabled, HeardOfNew, IsInformed, IsMember;
      RunInforms(t, steps[1..], u, c, known);
    }
  }

  lemma {:induction false} StaysLoggedIn(s: System, steps: seq<Step>, u: UserId)
    requires Invariant(s) && Admissible(s, steps) && u in s.clients
    requires forall now :: Logout(u, now) !in steps
    ensures u in Run(s, steps).clients
    decreases |steps|
  {
    if steps != [] {
      StepKeepsInvariant(s, steps[0]);
      assert steps == [steps[0]] + steps[1..];
      assert forall now :: Logout(u, now) !in steps[1..];
      StepKeepsClient(s, steps[0], u);
      hide Invariant, Apply, Enabled;
      StaysLoggedIn(Apply(s, steps[0]), steps[1..], u);
    }
  }

  lemma StepKeepsClient(s: System, step: Step, u: UserId)
    requires JoinedListed(s.server) && Enabled(s, step) && u in s.clients && !(step.Logout? && step.user == u)
    ensures u in Apply(s, step).clients
  {
    hide Leave, Enter, InitChannel, SetState, Expire, JoinChannel, View, ClearCurrentCall, Receive;
  }

  /** The system just after a login. */
  function LoggedIn(s: System, u: UserId): (t: System)
    requires Invariant(s) && u !in s.clients
    ensures Invariant(t) && t == LoginStep(s, u)
  {
    LoginKeepsInvariant(s, u);
    LoginStep(s, u)
  }

  /** In every run from a login on: of the active calls of its channels the client lists exactly
      those that have begun since the login, and those whose channel it has loaded since. */
  lemma ListsWhatIsNewOrLoaded(s: System, u: UserId, steps: seq<Step>, c: ChannelId)
    requires Invariant(s) && u !in s.clients && Admissible(LoggedIn(s, u), steps)
    requires Login(u) !in steps && forall now :: Logout(u, now) !in steps
    requires var t := Run(LoggedIn(s, u), steps); c in t.server.channels && IsMember(t, u, c)
    ensures var t := Run(LoggedIn(s, u), steps);
            u in t.clients &&
            (c in t.clients[u].activeCalls
             <==> t.server.channels[c].callId !in s.server.rows || Load(u, c) in steps)
  {
    var login, t := LoggedIn(s, u), Run(LoggedIn(s, u), steps);
    assert Consistent(s.server) && Consistent(t.server);
    LookupsSucceed(s.server);
    assert login.server == s.server && !IsInformed(login, u, c);
    assert HeardOfNew(login, u, s.server.rows.Keys);
    StaysLoggedIn(login, steps, u);
    RunInforms(login, steps, u, c, s.server.rows.Keys);
    InvariantMeans(t, u);
    hide Run, Admissible, Invariant, LoginStep, LoggedIn, Consistent, HeardOfNew;
  }

  // ------------------------------------------------------------- once, or repeatedly

  /** Every client lists its calls once each. */
  ghost predicate Once(s: System) { forall u :: u in s.clients ==> NoDuplicates(s.clients[u].activeCalls) }

  /** A client loads a channel whose call it lists already. */
  ghost predicate Repeats(s: System, step: Step) {
    step.Load? && step.user in s.clients && step.channel in s.server.channels &&
    step.channel in s.clients[step.user].activeCalls
  }

  lemma LeaveOnce(s: System, u: UserId, now: int)
    requires Mirrored(s) && Once(s)
    ensures Once(LeaveStep(s, u, now)) && LeaveStep(s, u, now).clients.Keys == s.clients.Keys
  {
    if u !in s.server.joined {
      NothingSent(s.clients);
      assert LeaveStep(s, u, now) == s;
      hide LeaveStep;
    } else {
      var t, c := LeaveStep(s, u, now), s.server.joined[u];
      assert u in s.clients;
      assert JoinedListed(s.server);
      LeaveClient(s, u, u, now);
      hide LeaveStep, Mirrored, Without, NoDuplicates, JoinedListed, Occupied;
      forall x | x in t.clients ensures NoDuplicates(t.clients[x].activeCalls) {
        LeaveList(s, u, x, now);
        WithoutIs(s.clients[x].activeCalls, c);
      }
    }
  }

  lemma EnterOnce(s: System, u: UserId, c: ChannelId, muted: bool, deafen: bool, now: int)
    requires Mirrored(s) && Once(s) && u in s.clients && u !in s.server.joined
    ensures Once(EnterStep(s, u, c, muted, deafen, now))
  {
    var t := EnterStep(s, u, c, muted, deafen, now);
    if c !in s.server.channels {
      NothingSent(s.clients);
      assert t == s;
      hide EnterStep;
    } else {
      EnterList(s, u, c, muted, deafen, now, u);
      hide EnterStep, NoDuplicates;
      forall x | x in t.clients ensures NoDuplicates(t.clients[x].activeCalls) {
        EnterList(s, u, c, muted, deafen, now, x);
      }
    }
  }

  lemma JoinOnce(s: System, u: UserId, c: ChannelId, muted: bool, deafen: bool, now: int)
    requires Mirrored(s) && Once(s) && u in s.clients
    ensures Once(JoinCallStep(s, u, c, muted, deafen, now))
  {
    assert Consistent(s.server) && JoinedListed(s.server);
    LeaveOnce(s, u, now);
    LeaveMirrors(s, u, now);
    LeaveKeeps(s.server, u, now);
    assert LeaveStep(s, u, now).server == Leave(s.server, u, now).server;
    JoinCallIsLeaveThenEnter(s, u, c, muted, deafen, now);
    hide LeaveStep, EnterStep, JoinCallStep, Once, Mirrored, Consistent;
    EnterOnce(LeaveStep(s, u, now), u, c, muted, deafen, now);
  }

  lemma CallOnceFor(s: System, u: UserId, c: ChannelId, muted: bool, deafen: bool, callId: CallId, now: int, x: UserId)
    requires Mirrored(s) && u in s.clients && u !in s.server.joined && x in s.clients && ActiveOk(s, x)
    requires IsMember(s, u, c) && c !in s.server.channels && callId !in s.server.rows &&
      NoDuplicates(s.clients[x].activeCalls)
    ensures var t := CallStep(s, u, c, muted, deafen, callId, now);
            x in t.clients && NoDuplicates(t.clients[x].activeCalls)
  {
    CallList(s, u, c, muted, deafen, callId, now, x);
    assert c !in s.clients[x].activeCalls;
    AppendIs(s.clients[x].activeCalls, c);
    assert s.clients[x].activeCalls + [] == s.clients[x].activeCalls;
    hide *;
  }

  lemma CallOnce(s: System, u: UserId, c: ChannelId, muted: bool, deafen: bool, callId: CallId, now: int)
    requires Invariant(s) && Once(s) && u in s.clients && s.clients[u].channelId == None && callId !in s.server.rows
    ensures Once(CallStep(s, u, c, muted, deafen, callId, now))
  {
    assert MirrorOk(s, u) && JoinedListed(s.server);
    var t := CallStep(s, u, c, muted, deafen, callId, now);
    if !IsMember(s, u, c) || c in s.server.channels {
      NothingSent(s.clients);
      assert t == s;
      hide *;
    } else {
      assert forall x :: x in s.clients ==> ActiveOk(s, x);
      assert Mirrored(s) && u !in s.server.joined;
      CallList(s, u, c, muted, deafen, callId, now, u);
      hide CallStep, Mirrored, Invariant, NoDuplicates, JoinedListed, ActiveOk, IsMember, MirrorOk;
      forall x | x in t.clients ensures NoDuplicates(t.clients[x].activeCalls) {
        CallOnceFor(s, u, c, muted, deafen, callId, now, x);
      }
    }
  }

  lemma StateStepOnce(s: System, step: Step)
    requires Mirrored(s) && Once(s) && Enabled(s, step) && (step.SetVoiceState? || step.Timeout?)
    ensures JoinedListed(s.server) && Once(Apply(s, step))
  {
    var t := Apply(s, step);
    if step.SetVoiceState? {
      if step.user !in s.server.joined {
        NothingSent(s.clients);
      } else {
        var c := s.server.joined[step.user];
        var v := s.server.channels[c].states[step.user].(muted := step.muted, deafen := step.deafen);
        SetStateClient(s, step.user, step.muted, step.deafen, step.user);
        hide SetStateStep, Mirrored, Receive, StateEvent, NoDuplicates;
        forall x | x in t.clients ensures NoDuplicates(t.clients[x].activeCalls) {
          SetStateClient(s, step.user, step.muted, step.deafen, x);
          StateEventKeepsList(PutState(s.server, c, step.user, v).channels[c].states, step.user, x, s.clients[x]);
        }
      }
    } else if Overdue(s.server, step.channel, step.user, step.now) {
      var v := s.server.channels[step.channel].states[step.user].(kind := Disconnected, changed := step.now);
      var states := PutState(s.server, step.channel, step.user, v).channels[step.channel].states;
      hide Receive, StateEvent, NoDuplicates;
      forall x | x in t.clients ensures NoDuplicates(t.clients[x].activeCalls) {
        StateEventKeepsList(states, step.user, x, s.clients[x]);
      }
    } else {
      NothingSent(s.clients);
    }
  }

  lemma LoadOnceIff(s: System, u: UserId, c: ChannelId)
    requires Once(s) && u in s.clients
    ensures Once(LoadStep(s, u, c)) <==> !Repeats(s, Load(u, c))
  {
    var t := LoadStep(s, u, c);
    var list := s.clients[u].activeCalls;
    if c in s.server.channels {
      AppendIs(list, c);
      if c in list {
        var i :| 0 <= i < |list| && list[i] == c;
        assert t.clients[u].activeCalls[i] == t.clients[u].activeCalls[|list|];
      }
    }
  }

  /** A step keeps every list free of repetitions exactly when it is not the loading of a channel
      whose call is listed already. */
  lemma StepOnceIff(s: System, step: Step)
    requires Invariant(s) && Once(s) && Enabled(s, step)
    ensures Once(Apply(s, step)) <==> !Repeats(s, step)
  {
    assert Mirrored(s) && JoinedListed(s.server);
    hide Mirrored, JoinedListed, CallStep, JoinCallStep, LeaveStep, SetStateStep, ExpireStep, LoadStep;
    match step
    case Call(u, c, muted, deafen, callId, now) => CallOnce(s, u, c, muted, deafen, callId, now);
    case JoinCall(u, c, muted, deafen, now) => JoinOnce(s, u, c, muted, deafen, now);
    case LeaveCall(u, now) => LeaveOnce(s, u, now);
    case Logout(u, now) => LeaveOnce(s, u, now);
    case SetVoiceState(_, _, _) => StateStepOnce(s, step);
    case Timeout(_, _, _) => StateStepOnce(s, step);
    case Load(u, c) => LoadOnceIff(s, u, c);
    case _ =>
  }

  ghost predicate NeverRepeats(s: System, steps: seq<Step>)
    requires Invariant(s) && Admissible(s, steps)
    decreases |steps|
  {
    steps == [] ||
    (!Repeats(s, steps[0]) && (StepKeepsInvariant(s, steps[0]); NeverRepeats(Apply(s, steps[0]), steps[1..])))
  }

  /** So in every run in which no channel is loaded whose call is listed, calls are listed once each. */
  lemma {:induction false} RunListsOnce(s: System, steps: seq<Step>)
    requires Invariant(s) && Once(s) && Admissible(s, steps) && NeverRepeats(s, steps)
    ensures Once(Run(s, steps))
    decreases |steps|
  {
    if steps != [] {
      StepKeepsInvariant(s, steps[0]);
      StepOnceIff(s, steps[0]);
      assert JoinedListed(s.server);
      hide Invariant, Apply, Enabled, Once;
      RunListsOnce(Apply(s, steps[0]), steps[1..]);
    }
  }
}
