/** What the server's voice tables say, told from the operations of a run: who is ringing, connected or
    gone in a channel, and with what flags. */
module VoiceHistory {
  import opened Options
  import opened VoiceServer

  /** A run from the start. */
  ghost predicate IsRun(ops: seq<Op>) { AllFresh(Initial(), ops) }

  /** The server after the first `k` operations of a run from the start. */
  ghost function At(ops: seq<Op>, k: nat): Server
    requires IsRun(ops) && k <= |ops|
  {
    assert ops == ops[..k] + ops[k..];
    RunOpsAppend(Initial(), ops[..k], ops[k..]);
    RunOps(Initial(), ops[..k])
  }

  lemma AtStep(ops: seq<Op>, k: nat)
    requires IsRun(ops) && k < |ops|
    ensures Consistent(At(ops, k)) && Fresh(At(ops, k), ops[k])
    ensures At(ops, k + 1) == Perform(At(ops, k), ops[k]).server
  {
    assert ops == ops[..k] + ops[k..] && ops == ops[..k + 1] + ops[k + 1..];
    RunOpsAppend(Initial(), ops[..k], ops[k..]);
    RunOpsAppend(Initial(), ops[..k + 1], ops[k + 1..]);
    assert ops[..k + 1] == ops[..k] + [ops[k]];
    RunOpsAppend(Initial(), ops[..k], [ops[k]]);
    assert ops[k..][0] == ops[k] && [ops[k]][1..] == [];
    hide Consistent, Perform, Fresh;
    OneOp(RunOps(Initial(), ops[..k]), ops[k]);
  }

  lemma OneOp(s: Server, op: Op)
    requires Consistent(s) && AllFresh(s, [op])
    ensures Fresh(s, op) && RunOps(s, [op]) == Perform(s, op).server
  {
    assert [op][1..] == [];
    OpKeeps(s, op);
    hide Consistent, Perform, Fresh;
    var t := Perform(s, op).server;
    assert RunOps(t, []) == t;
  }

  lemma AtStart(ops: seq<Op>)
    requires IsRun(ops)
    ensures At(ops, 0) == EMPTY
  {
  }

  // ---------------------------------------------------------- the answers

  ghost predicate OthersIn(s: Server, u: UserId, c: ChannelId) {
    exists x :: x != u && x in s.joined && s.joined[x] == c
  }

  /** Every answer of the manager, in terms of its state before. */
  lemma OpAnswers(s: Server, op: Op)
    requires Consistent(s)
    ensures var status := Perform(s, op).status;
            match op
            case InitOp(_, c, _, _, _) => status == if c in s.channels then CallAlreadyStarted else Ok
            case JoinOp(u, c, _, _, _) =>
              status == if c in s.channels && (u in s.joined && s.joined[u] == c ==> OthersIn(s, u, c)) then Ok
                        else ChannelNotFound
            case LeaveOp(u, _) => status == if u in s.joined then Ok else VoiceNotConnected
            case SetStateOp(u, _, _) => status == if u in s.joined then Ok else VoiceNotConnected
            case ExpireOp(_, _, _) => status == Ok
  {
    match op
    case JoinOp(u, c, _, _, now) => LeaveChannels(s, u, now);
    case _ =>
  }

  /** A leave takes away the user's channel when nobody else is in it, and no other. */
  lemma LeaveChannels(s: Server, u: UserId, now: int)
    requires Consistent(s)
    ensures var t := Leave(s, u, now).server;
            forall c :: c in t.channels
                        <==> c in s.channels && (u in s.joined && s.joined[u] == c ==> OthersIn(s, u, c))
  {
    if u in s.joined {
      LeftOccupied(s, u, now);
    }
    hide TablesAgree, RowsMatch, OccupiedOrNew;
  }

  /** Whoever leaves is shown as disconnected, with mute and deafen as they were, to exactly the others
      who have joined the channel; if there are none, everybody else listed hears that the call is
      over. */
  lemma LeaveTells(s: Server, u: UserId, now: int)
    requires Consistent(s) && u in s.joined
    ensures var r, c := Leave(s, u, now), s.joined[u];
            c in s.channels && u in s.channels[c].states &&
            var v := s.channels[c].states[u];
            r.sent != [] &&
            r.sent[0].event == VoiceStateChanged(u, WireState(Disconnected, v.muted, v.deafen)) &&
            (forall x :: x in r.sent[0].targets <==> x != u && x in s.joined && s.joined[x] == c) &&
            r.sent[1..] == if OthersIn(s, u, c) then []
                           else [Broadcast(CallEnded(c), s.channels[c].states.Keys - {u})]
  {
    var left, c := Left(s, u, now), s.joined[u];
    LeaveSends(s, u, now);
    LeftListeners(s, u, now);
    LeftOccupied(s, u, now);
    assert left.channels[c].states[u] == s.channels[c].states[u].(kind := Disconnected, changed := now);
    hide Leave, Left, Consistent, Occupied, OthersIn, Listeners;
  }

  lemma LeftListeners(s: Server, u: UserId, now: int)
    requires Consistent(s) && u in s.joined
    ensures var c := s.joined[u];
            forall x :: x in Listeners(Left(s, u, now).channels[c].states, u)
                        <==> x != u && x in s.joined && s.joined[x] == c
  {
    LeftTables(s, u, now);
    hide RowsMatch, OccupiedOrNew;
  }

  lemma LeftOccupied(s: Server, u: UserId, now: int)
    requires JoinedListed(s) && u in s.joined
    ensures Occupied(Left(s, u, now).joined, s.joined[u]) <==> OthersIn(s, u, s.joined[u])
  {
    var joined, c := Left(s, u, now).joined, s.joined[u];
    assert joined == s.joined - {u};
    if x :| x != u && x in s.joined && s.joined[x] == c {
      assert x in joined;
    }
  }

  lemma LeaveSends(s: Server, u: UserId, now: int)
    requires JoinedListed(s) && u in s.joined
    ensures var left, c := Left(s, u, now), s.joined[u]; var states := left.channels[c].states;
            states.Keys == s.channels[c].states.Keys &&
            Leave(s, u, now).sent
            == [StateEvent(states, u)] +
               if Occupied(left.joined, c) then [] else [Broadcast(CallEnded(c), states.Keys - {u})]
  {
  }

  // ------------------------------------------------- one user in one channel

  ghost function Cell(s: Server, c: ChannelId, u: UserId): Option<VoiceState> {
    if c in s.channels && u in s.channels[c].states then Some(s.channels[c].states[u]) else None
  }

  function HungUp(cell: Option<VoiceState>, now: int): Option<VoiceState> {
    match cell
    case Some(VoiceState(Connected, _, muted, deafen)) => Some(VoiceState(Disconnected, now, muted, deafen))
    case _ => cell
  }

  function Adjusted(cell: Option<VoiceState>, muted: bool, deafen: bool): Option<VoiceState> {
    match cell
    case Some(VoiceState(Connected, changed, _, _)) => Some(VoiceState(Connected, changed, muted, deafen))
    case _ => cell
  }

  function RungOut(cell: Option<VoiceState>, now: int): Option<VoiceState> {
    match cell
    case Some(VoiceState(Pending, since, muted, deafen)) =>
      if now - since > 20 then Some(VoiceState(Disconnected, now, muted, deafen)) else cell
    case _ => cell
  }

  /** What an operation makes of one user's state in one channel, if the channel is active after it. */
  function Turned(cell: Option<VoiceState>, isNew: bool, op: Op, c: ChannelId, u: UserId): Option<VoiceState> {
    match op
    case InitOp(_, d, users, _, now) =>
      if d != c || !isNew then cell
      else if u in users then Some(VoiceState(Pending, now, false, false)) else None
    case JoinOp(x, d, muted, deafen, now) =>
      if x != u then cell else if d == c then Some(VoiceState(Connected, now, muted, deafen)) else HungUp(cell, now)
    case LeaveOp(x, now) => if x == u then HungUp(cell, now) else cell
    case SetStateOp(x, muted, deafen) => if x == u then Adjusted(cell, muted, deafen) else cell
    case ExpireOp(d, x, now) => if d == c && x == u then RungOut(cell, now) else cell
  }

  lemma LeaveTurns(s: Server, x: UserId, now: int, c: ChannelId, u: UserId)
    requires Consistent(s) && c in Leave(s, x, now).server.channels
    ensures c in s.channels
    ensures Cell(Leave(s, x, now).server, c, u) == if x == u then HungUp(Cell(s, c, u), now) else Cell(s, c, u)
  {
    hide RowsMatch, OccupiedOrNew, Occupied;
  }

  lemma EnterTurns(s: Server, x: UserId, d: ChannelId, muted: bool, deafen: bool, now: int, c: ChannelId, u: UserId)
    requires c in s.channels
    ensures Cell(Enter(s, x, d, muted, deafen, now).server, c, u)
            == if x == u && d == c then Some(VoiceState(Connected, now, muted, deafen)) else Cell(s, c, u)
  {
  }

  lemma JoinTurns(s: Server, op: Op, c: ChannelId, u: UserId)
    requires Consistent(s) && op.JoinOp? && c in Perform(s, op).server.channels
    ensures c in s.channels && Cell(Perform(s, op).server, c, u) == Turned(Cell(s, c, u), false, op, c, u)
  {
    var left := Leave(s, op.user, op.now).server;
    EnterChannels(left, op.user, op.channel, op.muted, op.deafen, op.now);
    assert c in left.channels;
    LeaveTurns(s, op.user, op.now, c, u);
    EnterTurns(left, op.user, op.channel, op.muted, op.deafen, op.now, c, u);
    hide Consistent, Leave, Enter, Cell;
  }

  lemma EnterChannels(s: Server, x: UserId, d: ChannelId, muted: bool, deafen: bool, now: int)
    ensures Enter(s, x, d, muted, deafen, now).server.channels.Keys == s.channels.Keys
  {
  }

  lemma CellTurns(s: Server, op: Op, c: ChannelId, u: UserId)
    requires Consistent(s) && c in Perform(s, op).server.channels
    ensures c !in s.channels ==> op.InitOp? && op.channel == c
    ensures Cell(Perform(s, op).server, c, u) == Turned(Cell(s, c, u), c !in s.channels, op, c, u)
  {
    match op
    case InitOp(caller, d, users, callId, now) => InitTurns(s, caller, d, users, callId, now, c, u);
    case JoinOp(_, _, _, _, _) => JoinTurns(s, op, c, u); hide Perform, Cell, Turned, Consistent;
    case LeaveOp(x, now) => LeaveTurns(s, x, now, c, u); hide Leave, Cell, Consistent;
    case SetStateOp(x, muted, deafen) => SetStateTurns(s, x, muted, deafen, c, u); hide SetState, Cell, Consistent;
    case ExpireOp(d, x, now) => ExpireTurns(s, d, x, now, c, u); hide Expire, Cell, Consistent;
  }

  lemma InitTurns(s: Server, caller: UserId, d: ChannelId, users: set<UserId>, callId: CallId, now: int,
                  c: ChannelId, u: UserId)
    ensures var t := InitChannel(s, caller, d, users, callId, now).server;
            (c in t.channels <==> c in s.channels || c == d) &&
            Cell(t, c, u) == if d != c || c in s.channels then Cell(s, c, u)
                             else if u in users then Some(VoiceState(Pending, now, false, false)) else None
  {
  }

  lemma SetStateTurns(s: Server, x: UserId, muted: bool, deafen: bool, c: ChannelId, u: UserId)
    requires Consistent(s)
    ensures var t := SetState(s, x, muted, deafen).server;
            t.channels.Keys == s.channels.Keys &&
            Cell(t, c, u) == if x == u then Adjusted(Cell(s, c, u), muted, deafen) else Cell(s, c, u)
  {
    hide RowsMatch, OccupiedOrNew;
  }

  lemma ExpireTurns(s: Server, d: ChannelId, x: UserId, now: int, c: ChannelId, u: UserId)
    ensures var t := Expire(s, d, x, now).server;
            t.channels.Keys == s.channels.Keys &&
            Cell(t, c, u) == if d == c && x == u then RungOut(Cell(s, c, u), now) else Cell(s, c, u)
  {
  }

  // ------------------------------------------------------------ since when

  /** The operation opens a call in the channel. */
  ghost predicate Opens(ops: seq<Op>, i: nat, c: ChannelId)
    requires IsRun(ops) && i < |ops|
  {
    ops[i].InitOp? && ops[i].channel == c && c !in At(ops, i).channels
  }

  predicate Answers(op: Op, c: ChannelId, u: UserId) { op.JoinOp? && op.channel == c && op.user == u }

  predicate TimesOut(op: Op, c: ChannelId, u: UserId, since: int) {
    op.ExpireOp? && op.channel == c && op.user == u && op.now - since > 20
  }

  /** The call that was opened in the channel by operation `i` has rung for the user ever since: it is
      the channel's last, they have not joined, and no check has found them to have been called more
      than 20 seconds before. */
  ghost predicate RingsSince(ops: seq<Op>, k: nat, i: nat, c: ChannelId, u: UserId)
    requires IsRun(ops) && k <= |ops|
  {
    && i < k && Opens(ops, i, c) && u in ops[i].users
    && forall j :: i < j < k ==> !Opens(ops, j, c) && !Answers(ops[j], c, u) && !TimesOut(ops[j], c, u, ops[i].now)
  }

  ghost predicate IsRinging(cell: Option<VoiceState>) { cell.Some? && cell.value.kind == Pending }

  ghost predicate RingingIs(ops: seq<Op>, k: nat, c: ChannelId, u: UserId)
    requires IsRun(ops) && k <= |ops|
  {
    var cell := Cell(At(ops, k), c, u);
    && (IsRinging(cell) <==> exists i: nat :: RingsSince(ops, k, i, c, u))
    && forall i: nat :: RingsSince(ops, k, i, c, u) ==> cell == Some(VoiceState(Pending, ops[i].now, false, false))
  }

  lemma RingsStep(ops: seq<Op>, n: nat, k: nat, c: ChannelId, u: UserId)
    requires IsRun(ops) && n < |ops| && k == n + 1
    ensures forall i: nat :: RingsSince(ops, k, i, c, u)
                             <==> if i == n then Opens(ops, n, c) && u in ops[n].users
                                  else RingsSince(ops, n, i, c, u) && !Opens(ops, n, c) && !Answers(ops[n], c, u) &&
                                       !TimesOut(ops[n], c, u, ops[i].now)
  {
    hide Opens, Answers, TimesOut, IsRun, Consistent;
  }

  /** A new call rings for those called, and for nobody else. */
  lemma NewCallRings(ops: seq<Op>, n: nat, k: nat, c: ChannelId, u: UserId)
    requires IsRun(ops) && n < |ops| && k == n + 1 && Opens(ops, n, c)
    requires Cell(At(ops, k), c, u) == Turned(Cell(At(ops, n), c, u), true, ops[n], c, u)
    ensures RingingIs(ops, k, c, u)
  {
    assert ops[n].InitOp? && ops[n].channel == c;
    RingsStep(ops, n, k, c, u);
    hide At, Cell, RingsSince, IsRun, Consistent, Opens;
    assert forall i: nat :: RingsSince(ops, k, i, c, u) <==> i == n && u in ops[n].users;
  }

  lemma OldCallRings(ops: seq<Op>, n: nat, k: nat, c: ChannelId, u: UserId)
    requires IsRun(ops) && n < |ops| && k == n + 1 && !Opens(ops, n, c) && RingingIs(ops, n, c, u)
    requires Cell(At(ops, k), c, u) == Turned(Cell(At(ops, n), c, u), false, ops[n], c, u)
    ensures RingingIs(ops, k, c, u)
  {
    var cell, op := Cell(At(ops, n), c, u), ops[n];
    RingsStep(ops, n, k, c, u);
    TurnedPending(cell, op, c, u);
    hide At, Cell, RingsSince, IsRun, Consistent, Opens, Turned, Answers, TimesOut;
    if i: nat :| RingsSince(ops, n, i, c, u) {
      assert cell == Some(VoiceState(Pending, ops[i].now, false, false));
      assert RingsSince(ops, k, i, c, u) <==> i != n && !Answers(op, c, u) && !TimesOut(op, c, u, ops[i].now);
    }
  }

  /** A call rings on for a user until they join or it has rung for too long, and begins to ring for
      nobody. */
  lemma TurnedPending(cell: Option<VoiceState>, op: Op, c: ChannelId, u: UserId)
    ensures var cell' := Turned(cell, false, op, c, u);
            (IsRinging(cell')
             <==> IsRinging(cell) && !Answers(op, c, u) && !TimesOut(op, c, u, cell.value.changed)) &&
            (IsRinging(cell') ==> cell' == cell)
  {
  }

  lemma {:induction false} PendingIsRinging(ops: seq<Op>, k: nat, c: ChannelId, u: UserId)
    requires IsRun(ops) && k <= |ops| && c in At(ops, k).channels
    ensures RingingIs(ops, k, c, u)
    decreases k
  {
    AtStart(ops);
    var n := k - 1;
    AtStep(ops, n);
    CellTurns(At(ops, n), ops[n], c, u);
    assert Opens(ops, n, c) <==> c !in At(ops, n).channels;
    hide At, Cell, RingingIs, Perform, IsRun, Consistent, Opens, Turned;
    if c in At(ops, n).channels {
      PendingIsRinging(ops, n, c, u);
      OldCallRings(ops, n, k, c, u);
    } else {
      NewCallRings(ops, n, k, c, u);
    }
  }

  // ------------------------------------------------------------- with what flags

  /** The operation settles the user's flags in the channel. */
  ghost predicate Settles(ops: seq<Op>, i: nat, c: ChannelId, u: UserId)
    requires IsRun(ops) && i < |ops|
  {
    match ops[i]
    case InitOp(_, _, users, _, _) => Opens(ops, i, c) && u in users
    case JoinOp(_, _, _, _, _) => Answers(ops[i], c, u)
    case SetStateOp(x, _, _) => x == u && u in At(ops, i).joined && At(ops, i).joined[u] == c
    case _ => false
  }

  function FlagsOf(op: Op): (bool, bool) {
    match op
    case JoinOp(_, _, muted, deafen, _) => (muted, deafen)
    case SetStateOp(_, muted, deafen) => (muted, deafen)
    case _ => (false, false)
  }

  /** Nothing has settled the flags since operation `i` did, and it is still the same call. */
  ghost predicate SettledBy(ops: seq<Op>, k: nat, i: nat, c: ChannelId, u: UserId)
    requires IsRun(ops) && k <= |ops|
  {
    i < k && Settles(ops, i, c, u) && forall j :: i < j < k ==> !Settles(ops, j, c, u) && !Opens(ops, j, c)
  }

  ghost predicate FlagsAre(ops: seq<Op>, k: nat, c: ChannelId, u: UserId)
    requires IsRun(ops) && k <= |ops|
  {
    var cell := Cell(At(ops, k), c, u);
    && (cell.Some? <==> exists i: nat :: SettledBy(ops, k, i, c, u))
    && forall i: nat :: SettledBy(ops, k, i, c, u) ==>
         cell.Some? && (cell.value.muted, cell.value.deafen) == FlagsOf(ops[i])
  }

  lemma SettledStep(ops: seq<Op>, n: nat, k: nat, c: ChannelId, u: UserId)
    requires IsRun(ops) && n < |ops| && k == n + 1
    ensures forall i: nat :: SettledBy(ops, k, i, c, u)
                             <==> if i == n then Settles(ops, n, c, u)
                                  else SettledBy(ops, n, i, c, u) && !Settles(ops, n, c, u) && !Opens(ops, n, c)
  {
    hide Opens, Settles, IsRun, Consistent;
  }

  lemma NewCallSettles(ops: seq<Op>, n: nat, k: nat, c: ChannelId, u: UserId)
    requires IsRun(ops) && n < |ops| && k == n + 1 && Opens(ops, n, c)
    requires Cell(At(ops, k), c, u) == Turned(Cell(At(ops, n), c, u), true, ops[n], c, u)
    ensures FlagsAre(ops, k, c, u)
  {
    assert ops[n].InitOp? && ops[n].channel == c;
    SettledStep(ops, n, k, c, u);
    hide At, Cell, SettledBy, IsRun, Consistent, Opens;
    assert forall i: nat :: SettledBy(ops, k, i, c, u) <==> i == n && u in ops[n].users;
    assert SettledBy(ops, k, n, c, u) <==> u in ops[n].users;
  }

  lemma OldCallSettles(ops: seq<Op>, n: nat, k: nat, c: ChannelId, u: UserId)
    requires IsRun(ops) && n < |ops| && k == n + 1 && !Opens(ops, n, c) && FlagsAre(ops, n, c, u)
    requires var s := At(ops, n);
             Cell(At(ops, k), c, u) == Turned(Cell(s, c, u), false, ops[n], c, u) &&
             (Cell(s, c, u).Some? && Cell(s, c, u).value.kind == Connected <==> u in s.joined && s.joined[u] == c)
    ensures FlagsAre(ops, k, c, u)
  {
    SettledStep(ops, n, k, c, u);
    TurnedFlags(Cell(At(ops, n), c, u), ops[n], c, u);
    hide At, Cell, SettledBy, IsRun, Consistent, Opens, Turned, FlagsOf;
    assert Settles(ops, n, c, u) <==> SettlesIn(Cell(At(ops, n), c, u), ops[n], c, u);
    hide Settles, SettlesIn;
    if Settles(ops, n, c, u) {
      assert SettledBy(ops, k, n, c, u);
    } else if i: nat :| SettledBy(ops, n, i, c, u) {
      assert SettledBy(ops, k, i, c, u) <==> i != n;
    }
  }

  predicate SettlesIn(cell: Option<VoiceState>, op: Op, c: ChannelId, u: UserId) {
    Answers(op, c, u) || (op.SetStateOp? && op.user == u && cell.Some? && cell.value.kind == Connected)
  }

  lemma TurnedFlags(cell: Option<VoiceState>, op: Op, c: ChannelId, u: UserId)
    ensures var cell' := Turned(cell, false, op, c, u);
            if SettlesIn(cell, op, c, u) then cell'.Some? && (cell'.value.muted, cell'.value.deafen) == FlagsOf(op)
            else (cell'.Some? <==> cell.Some?) &&
                 (cell.Some? ==> cell'.value.muted == cell.value.muted && cell'.value.deafen == cell.value.deafen)
  {
  }

  lemma {:induction false} FlagsAreSettled(ops: seq<Op>, k: nat, c: ChannelId, u: UserId)
    requires IsRun(ops) && k <= |ops| && c in At(ops, k).channels
    ensures FlagsAre(ops, k, c, u)
    decreases k
  {
    AtStart(ops);
    var n := k - 1;
    AtStep(ops, n);
    CellTurns(At(ops, n), ops[n], c, u);
    ConnectedIs(At(ops, n), c, u);
    assert Opens(ops, n, c) <==> c !in At(ops, n).channels;
    hide At, Cell, FlagsAre, Perform, IsRun, Consistent, Opens, Turned;
    if c in At(ops, n).channels {
      FlagsAreSettled(ops, n, c, u);
      OldCallSettles(ops, n, k, c, u);
    } else {
      NewCallSettles(ops, n, k, c, u);
    }
  }

  lemma ConnectedIs(s: Server, c: ChannelId, u: UserId)
    requires Consistent(s)
    ensures Cell(s, c, u).Some? && Cell(s, c, u).value.kind == Connected <==> u in s.joined && s.joined[u] == c
  {
  }

  /** In every run, of every active channel: a user is pending exactly while the call rings for them,
      connected exactly while the joined table has them there, and otherwise, if listed at all,
      disconnected; and mute and deafen are as the last operation has settled them that called,
      joined or set them. */
  lemma StatesTellHistory(ops: seq<Op>, c: ChannelId, u: UserId)
    requires IsRun(ops) && c in At(ops, |ops|).channels
    ensures var t := At(ops, |ops|); var cell := Cell(t, c, u);
            RingingIs(ops, |ops|, c, u) && FlagsAre(ops, |ops|, c, u) &&
            (cell.Some? && cell.value.kind == Connected <==> u in t.joined && t.joined[u] == c) &&
            (cell.Some? && cell.value.kind == Disconnected
             <==> cell.Some? && !(u in t.joined && t.joined[u] == c) &&
                  !exists i: nat :: RingsSince(ops, |ops|, i, c, u))
  {
    PendingIsRinging(ops, |ops|, c, u);
    FlagsAreSettled(ops, |ops|, c, u);
    AtConsistent(ops);
    ConnectedIs(At(ops, |ops|), c, u);
    hide Consistent, At, IsRun, RingsSince, FlagsAre;
  }

  lemma AtConsistent(ops: seq<Op>)
    requires IsRun(ops)
    ensures Consistent(At(ops, |ops|))
  {
    hide Consistent;
  }
}
