/** The server's voice channels as a state machine over values: the channel table, the redundant
    table of who has joined what, the call rows in the database, and the events triggered. */
module VoiceServer {
  import opened Options

  type UserId = string
  type ChannelId = string
  type CallId = string

  const MAX_PENDING_SECONDS: int := 20

  datatype Kind = Disconnected | Connected | Pending

  /** `voice::state`; `changed` is the time of the last change of kind. */
  datatype VoiceState = VoiceState(kind: Kind, changed: int, muted: bool, deafen: bool)

  /** What of a voice state goes over the wire. */
  datatype WireState = WireState(kind: Kind, muted: bool, deafen: bool)

  function Wire(v: VoiceState): WireState { WireState(v.kind, v.muted, v.deafen) }

  /** `call_details` of an active channel. */
  datatype Call = Call(callId: CallId, states: map<UserId, VoiceState>)

  /** A row of `calls` with its rows of `call_participants`. */
  datatype CallRow = CallRow(callerId: UserId, channelId: ChannelId, endDate: Option<int>, participants: set<UserId>)

  datatype Server = Server(
    channels: map<ChannelId, Call>,
    joined: map<UserId, ChannelId>,
    rows: map<CallId, CallRow>)

  datatype Event =
    | VoiceStateChanged(userId: UserId, state: WireState)
    | CallEnded(channelId: ChannelId)
    | IncomingCall(callId: CallId, channelId: ChannelId)

  /** One event triggered once for each of a set of users. */
  datatype Broadcast = Broadcast(event: Event, targets: set<UserId>)

  datatype Status = Ok | CallAlreadyStarted | ChannelNotFound | NotMemberOfChannel | VoiceNotConnected

  datatype Result = Result(server: Server, sent: seq<Broadcast>, status: Status)

  // ---------------------------------------------------------- operations

  function Listeners(states: map<UserId, VoiceState>, user: UserId): set<UserId> {
    set u | u in states && u != user && states[u].kind == Connected
  }

  /** `trigger_voice_state_event` for the current state of `user`. */
  function StateEvent(states: map<UserId, VoiceState>, user: UserId): Broadcast
    requires user in states
  {
    Broadcast(VoiceStateChanged(user, Wire(states[user])), Listeners(states, user))
  }

  function PutState(s: Server, c: ChannelId, u: UserId, v: VoiceState): Server
    requires c in s.channels
  {
    s.(channels := s.channels[c := s.channels[c].(states := s.channels[c].states[u := v])])
  }

  /** Everybody's state when a channel is opened. */
  function PendingStates(users: set<UserId>, now: int): map<UserId, VoiceState> {
    map u | u in users :: VoiceState(Pending, now, false, false)
  }

  function InitChannel(s: Server, caller: UserId, c: ChannelId, users: set<UserId>, callId: CallId, now: int): Result {
    if c in s.channels then Result(s, [], CallAlreadyStarted)
    else
      Result(s.(channels := s.channels[c := Call(callId, PendingStates(users, now))],
                rows := s.rows[callId := CallRow(caller, c, None, {})]), [], Ok)
  }

  /** Somebody has joined `c`. */
  predicate Occupied(joined: map<UserId, ChannelId>, c: ChannelId) {
    exists u :: u in joined && joined[u] == c
  }

  function CloseCall(s: Server, c: ChannelId, now: int): Server
    requires c in s.channels
  {
    var id := s.channels[c].callId;
    s.(rows := if id in s.rows then s.rows[id := s.rows[id].(endDate := Some(now))] else s.rows,
       channels := s.channels - {c})
  }

  /** Every joined channel is active and lists its user, as `leave_voice_channel` takes for granted. */
  ghost predicate JoinedListed(s: Server) {
    forall u :: u in s.joined ==> s.joined[u] in s.channels && u in s.channels[s.joined[u]].states
  }

  /** The user's state after leaving: only the kind and its time change. */
  function Left(s: Server, u: UserId, now: int): Server
    requires JoinedListed(s) && u in s.joined
  {
    var c := s.joined[u];
    PutState(s, c, u, s.channels[c].states[u].(kind := Disconnected, changed := now)).(joined := s.joined - {u})
  }

  function Leave(s: Server, u: UserId, now: int): Result
    requires JoinedListed(s)
  {
    if u !in s.joined then Result(s, [], VoiceNotConnected)
    else
      var c := s.joined[u];
      var s' := Left(s, u, now);
      var states := s'.channels[c].states;
      if Occupied(s'.joined, c) then Result(s', [StateEvent(states, u)], Ok)
      else Result(CloseCall(s', c, now), [StateEvent(states, u), Broadcast(CallEnded(c), states.Keys - {u})], Ok)
  }

  function AddParticipant(s: Server, id: CallId, u: UserId): Server {
    if id in s.rows then s.(rows := s.rows[id := s.rows[id].(participants := s.rows[id].participants + {u})]) else s
  }

  /** Joining for a user who is in no channel. */
  function Enter(s: Server, u: UserId, c: ChannelId, muted: bool, deafen: bool, now: int): Result {
    if c !in s.channels then Result(s, [], ChannelNotFound)
    else
      var s' := PutState(AddParticipant(s, s.channels[c].callId, u), c, u, VoiceState(Connected, now, muted, deafen));
      Result(s'.(joined := s.joined[u := c]), [StateEvent(s'.channels[c].states, u)], Ok)
  }

  /** `join_voice_channel`: a user who is in a channel leaves it first. */
  function JoinChannel(s: Server, u: UserId, c: ChannelId, muted: bool, deafen: bool, now: int): Result
    requires JoinedListed(s)
  {
    var left := Leave(s, u, now);
    var entered := Enter(left.server, u, c, muted, deafen, now);
    entered.(sent := left.sent + entered.sent)
  }

  function SetState(s: Server, u: UserId, muted: bool, deafen: bool): Result
    requires JoinedListed(s)
  {
    if u !in s.joined then Result(s, [], VoiceNotConnected)
    else
      var c := s.joined[u];
      var s' := PutState(s, c, u, s.channels[c].states[u].(muted := muted, deafen := deafen));
      Result(s', [StateEvent(s'.channels[c].states, u)], Ok)
  }

  predicate Overdue(s: Server, c: ChannelId, u: UserId, now: int) {
    c in s.channels && u in s.channels[c].states && s.channels[c].states[u].kind == Pending &&
    now - s.channels[c].states[u].changed > MAX_PENDING_SECONDS
  }

  /** What one turn of `handle_voice_states` does to one user of one channel. */
  function Expire(s: Server, c: ChannelId, u: UserId, now: int): Result {
    if !Overdue(s, c, u, now) then Result(s, [], Ok)
    else
      var s' := PutState(s, c, u, s.channels[c].states[u].(kind := Disconnected, changed := now));
      Result(s', [StateEvent(s'.channels[c].states, u)], Ok)
  }

  /** A whole turn, in the unspecified order of the unordered maps. */
  function Sweep(s: Server, order: seq<(ChannelId, UserId)>, now: int): Result {
    if order == [] then Result(s, [], Ok)
    else
      var before := Sweep(s, order[..|order| - 1], now);
      var (c, u) := order[|order| - 1];
      var last := Expire(before.server, c, u, now);
      Result(last.server, before.sent + last.sent, Ok)
  }

  // ----------------------------------------------------------- invariant

  /** The two tables agree: joined means connected, in exactly that channel. */
  ghost predicate TablesAgree(s: Server) {
    && JoinedListed(s)
    && (forall u :: u in s.joined ==> s.channels[s.joined[u]].states[u].kind == Connected)
    && (forall c, u :: c in s.channels && u in s.channels[c].states && s.channels[c].states[u].kind == Connected ==>
          u in s.joined && s.joined[u] == c)
  }

  /** Open call rows and active channels are one-to-one. */
  ghost predicate RowsMatch(s: Server) {
    && (forall c :: c in s.channels ==>
          s.channels[c].callId in s.rows && s.rows[s.channels[c].callId].channelId == c &&
          s.rows[s.channels[c].callId].endDate == None)
    && (forall id :: id in s.rows && s.rows[id].endDate == None ==>
          s.rows[id].channelId in s.channels && s.channels[s.rows[id].channelId].callId == id)
  }

  /** An active channel is occupied, or nobody has joined it since its call was opened; and whoever
      is in a channel is on record as a participant of its call. */
  ghost predicate OccupiedOrNew(s: Server)
    requires RowsMatch(s) && JoinedListed(s)
  {
    && (forall c :: c in s.channels ==> Occupied(s.joined, c) || s.rows[s.channels[c].callId].participants == {})
    && (forall u :: u in s.joined ==> u in s.rows[s.channels[s.joined[u]].callId].participants)
  }

  ghost predicate Consistent(s: Server) {
    TablesAgree(s) && RowsMatch(s) && OccupiedOrNew(s)
  }

  /** What the methods of the manager need of its consistency to look things up. */
  lemma LookupsSucceed(s: Server)
    requires Consistent(s)
    ensures JoinedListed(s) && forall c :: c in s.channels ==> s.channels[c].callId in s.rows
  {
  }

  /** What the states of a channel tell: there are none exactly when no open call names the channel,
      and whoever is connected in them is who has joined it. */
  lemma StatesTell(s: Server, c: ChannelId)
    requires Consistent(s)
    ensures c !in s.channels <==> forall id :: id in s.rows && s.rows[id].endDate == None ==> s.rows[id].channelId != c
    ensures c in s.channels ==>
              forall u :: u in s.channels[c].states && s.channels[c].states[u].kind == Connected
                          <==> u in s.joined && s.joined[u] == c
  {
    if c in s.channels {
      assert s.channels[c].callId in s.rows;
    }
  }

  lemma InitTables(s: Server, caller: UserId, c: ChannelId, users: set<UserId>, callId: CallId, now: int)
    requires TablesAgree(s)
    ensures TablesAgree(InitChannel(s, caller, c, users, callId, now).server)
  {
  }

  lemma InitRows(s: Server, caller: UserId, c: ChannelId, users: set<UserId>, callId: CallId, now: int)
    requires RowsMatch(s) && callId !in s.rows
    ensures RowsMatch(InitChannel(s, caller, c, users, callId, now).server)
  {
    hide PendingStates;
  }

  lemma InitOccupied(s: Server, caller: UserId, c: ChannelId, users: set<UserId>, callId: CallId, now: int)
    requires Consistent(s) && callId !in s.rows
    requires RowsMatch(InitChannel(s, caller, c, users, callId, now).server)
    requires JoinedListed(InitChannel(s, caller, c, users, callId, now).server)
    ensures OccupiedOrNew(InitChannel(s, caller, c, users, callId, now).server)
  {
    hide PendingStates;
  }

  lemma InitKeeps(s: Server, caller: UserId, c: ChannelId, users: set<UserId>, callId: CallId, now: int)
    requires Consistent(s) && callId !in s.rows
    ensures Consistent(InitChannel(s, caller, c, users, callId, now).server)
  {
    InitTables(s, caller, c, users, callId, now);
    InitRows(s, caller, c, users, callId, now);
    InitOccupied(s, caller, c, users, callId, now);
  }

  lemma LeftTables(s: Server, u: UserId, now: int)
    requires TablesAgree(s) && u in s.joined
    ensures TablesAgree(Left(s, u, now))
  {
  }

  /** A leaver may leave the channel empty; until it is closed only that is amiss. */
  lemma LeftKeeps(s: Server, u: UserId, now: int)
    requires Consistent(s) && u in s.joined
    ensures var s' := Left(s, u, now);
            TablesAgree(s') && RowsMatch(s') &&
            (forall c :: c in s'.channels && c != s.joined[u] ==>
               Occupied(s'.joined, c) || s'.rows[s'.channels[c].callId].participants == {}) &&
            (forall x :: x in s'.joined ==> x in s'.rows[s'.channels[s'.joined[x]].callId].participants)
  {
    var s' := Left(s, u, now);
    LeftTables(s, u, now);
    PutRows(s, s.joined[u], u, s.channels[s.joined[u]].states[u].(kind := Disconnected, changed := now));
    assert RowsMatch(s');
    assert JoinedListed(s');
    hide TablesAgree, RowsMatch;
    forall c | c in s'.channels && c != s.joined[u]
      ensures Occupied(s'.joined, c) || s'.rows[s'.channels[c].callId].participants == {}
    {
      if Occupied(s.joined, c) {
        var x :| x in s.joined && s.joined[x] == c;
        assert x in s'.joined && s'.joined[x] == c;
      }
    }
  }

  lemma CloseKeeps(s: Server, c: ChannelId, now: int)
    requires TablesAgree(s) && RowsMatch(s) && c in s.channels && !Occupied(s.joined, c)
    requires forall x :: x in s.channels && x != c ==>
      Occupied(s.joined, x) || s.rows[s.channels[x].callId].participants == {}
    requires forall x :: x in s.joined ==> x in s.rows[s.channels[s.joined[x]].callId].participants
    ensures Consistent(CloseCall(s, c, now))
  {
    var s' := CloseCall(s, c, now);
    assert forall u :: u in s.joined ==> s.joined[u] != c;
    assert TablesAgree(s');
    assert RowsMatch(s');
  }

  lemma LeaveKeeps(s: Server, u: UserId, now: int)
    requires Consistent(s)
    ensures Consistent(Leave(s, u, now).server) && u !in Leave(s, u, now).server.joined
  {
    if u in s.joined {
      LeftKeeps(s, u, now);
      var s' := Left(s, u, now);
      if !Occupied(s'.joined, s.joined[u]) {
        CloseKeeps(s', s.joined[u], now);
      }
    }
  }

  lemma EnterTables(s: Server, u: UserId, c: ChannelId, muted: bool, deafen: bool, now: int)
    requires TablesAgree(s) && u !in s.joined
    ensures TablesAgree(Enter(s, u, c, muted, deafen, now).server)
  {
  }

  lemma EnterRows(s: Server, u: UserId, c: ChannelId, muted: bool, deafen: bool, now: int)
    requires RowsMatch(s)
    ensures RowsMatch(Enter(s, u, c, muted, deafen, now).server)
  {
  }

  lemma EnterKeeps(s: Server, u: UserId, c: ChannelId, muted: bool, deafen: bool, now: int)
    requires Consistent(s) && u !in s.joined
    ensures Consistent(Enter(s, u, c, muted, deafen, now).server)
  {
    EnterTables(s, u, c, muted, deafen, now);
    EnterRows(s, u, c, muted, deafen, now);
    if c in s.channels {
      var s' := Enter(s, u, c, muted, deafen, now).server;
      hide TablesAgree;
      assert s'.joined[u] == c;
      forall x | x in s'.channels
        ensures Occupied(s'.joined, x) || s'.rows[s'.channels[x].callId].participants == {}
      {
        if x != c && Occupied(s.joined, x) {
          var y :| y in s.joined && s.joined[y] == x;
          assert s'.joined[y] == x;
        }
      }
    }
  }

  /** Replacing a listed user's state without connecting or disconnecting anybody. */
  lemma PutTables(s: Server, c: ChannelId, u: UserId, v: VoiceState)
    requires TablesAgree(s) && c in s.channels && u in s.channels[c].states
    requires v.kind == Connected <==> s.channels[c].states[u].kind == Connected
    ensures TablesAgree(PutState(s, c, u, v))
  {
  }

  lemma PutRows(s: Server, c: ChannelId, u: UserId, v: VoiceState)
    requires RowsMatch(s) && c in s.channels
    ensures RowsMatch(PutState(s, c, u, v))
  {
  }

  lemma PutKeeps(s: Server, c: ChannelId, u: UserId, v: VoiceState)
    requires Consistent(s) && c in s.channels && u in s.channels[c].states
    requires v.kind == Connected <==> s.channels[c].states[u].kind == Connected
    ensures Consistent(PutState(s, c, u, v))
  {
    PutTables(s, c, u, v);
    PutRows(s, c, u, v);
  }

  lemma SetStateKeeps(s: Server, u: UserId, muted: bool, deafen: bool)
    requires Consistent(s)
    ensures Consistent(SetState(s, u, muted, deafen).server)
  {
    if u in s.joined {
      var c := s.joined[u];
      PutKeeps(s, c, u, s.channels[c].states[u].(muted := muted, deafen := deafen));
    }
  }

  lemma ExpireKeeps(s: Server, c: ChannelId, u: UserId, now: int)
    requires Consistent(s)
    ensures Consistent(Expire(s, c, u, now).server)
  {
    if Overdue(s, c, u, now) {
      PutKeeps(s, c, u, s.channels[c].states[u].(kind := Disconnected, changed := now));
    }
  }

  // ------------------------------------------------------------- runs

  /** The manager's operations, each under its mutex, in any interleaving. */
  datatype Op =
    | InitOp(caller: UserId, channel: ChannelId, users: set<UserId>, callId: CallId, now: int)
    | JoinOp(user: UserId, channel: ChannelId, muted: bool, deafen: bool, now: int)
    | LeaveOp(user: UserId, now: int)
    | SetStateOp(user: UserId, muted: bool, deafen: bool)
    | ExpireOp(channel: ChannelId, user: UserId, now: int)

  /** Call ids are fresh UUIDs. */
  ghost predicate Fresh(s: Server, op: Op) { op.InitOp? ==> op.callId !in s.rows }

  ghost function Perform(s: Server, op: Op): Result
    requires JoinedListed(s)
  {
    match op
    case InitOp(caller, c, users, callId, now) => InitChannel(s, caller, c, users, callId, now)
    case JoinOp(u, c, muted, deafen, now) => JoinChannel(s, u, c, muted, deafen, now)
    case LeaveOp(u, now) => Leave(s, u, now)
    case SetStateOp(u, muted, deafen) => SetState(s, u, muted, deafen)
    case ExpireOp(c, u, now) => Expire(s, c, u, now)
  }

  lemma OpKeeps(s: Server, op: Op)
    requires Consistent(s) && Fresh(s, op)
    ensures Consistent(Perform(s, op).server)
  {
    match op
    case InitOp(caller, c, users, callId, now) => InitKeeps(s, caller, c, users, callId, now);
    case JoinOp(u, c, muted, deafen, now) =>
      LeaveKeeps(s, u, now);
      EnterKeeps(Leave(s, u, now).server, u, c, muted, deafen, now);
    case LeaveOp(u, now) => LeaveKeeps(s, u, now);
    case SetStateOp(u, muted, deafen) => SetStateKeeps(s, u, muted, deafen);
    case ExpireOp(c, u, now) => ExpireKeeps(s, c, u, now);
  }

  ghost predicate RowEvolves(a: CallRow, b: CallRow) {
    b.callerId == a.callerId && b.channelId == a.channelId && a.participants <= b.participants &&
    (a.endDate.Some? ==> b == a)
  }

  /** How call rows may change: none disappears or changes owner, an ended one stays as it is, and
      participants are only added. */
  ghost predicate RowsEvolve(a: map<CallId, CallRow>, b: map<CallId, CallRow>) {
    forall id :: id in a ==> id in b && RowEvolves(a[id], b[id])
  }

  lemma LeaveEvolves(s: Server, u: UserId, now: int)
    requires Consistent(s)
    ensures RowsEvolve(s.rows, Leave(s, u, now).server.rows)
  {
  }

  lemma EnterEvolves(s: Server, u: UserId, c: ChannelId, muted: bool, deafen: bool, now: int)
    requires RowsMatch(s)
    ensures RowsEvolve(s.rows, Enter(s, u, c, muted, deafen, now).server.rows)
  {
  }

  lemma InitEvolves(s: Server, caller: UserId, c: ChannelId, users: set<UserId>, callId: CallId, now: int)
    requires callId !in s.rows
    ensures RowsEvolve(s.rows, InitChannel(s, caller, c, users, callId, now).server.rows)
  {
  }

  lemma OtherRowsStay(s: Server, op: Op)
    requires JoinedListed(s) && (op.SetStateOp? || op.ExpireOp?)
    ensures Perform(s, op).server.rows == s.rows
  {
  }

  lemma OpEvolvesRows(s: Server, op: Op)
    requires Consistent(s) && Fresh(s, op)
    ensures RowsEvolve(s.rows, Perform(s, op).server.rows)
  {
    assert JoinedListed(s);
    hide TablesAgree, OccupiedOrNew, Leave;
    match op
    case InitOp(caller, c, users, callId, now) => InitEvolves(s, caller, c, users, callId, now);
    case JoinOp(u, c, muted, deafen, now) =>
      LeaveKeeps(s, u, now);
      LeaveEvolves(s, u, now);
      assert RowsMatch(Leave(s, u, now).server);
      EnterEvolves(Leave(s, u, now).server, u, c, muted, deafen, now);
    case LeaveOp(u, now) => LeaveEvolves(s, u, now);
    case _ => OtherRowsStay(s, op);
  }

  ghost predicate AllFresh(s: Server, ops: seq<Op>)
    requires Consistent(s)
    decreases |ops|
  {
    ops == [] || (Fresh(s, ops[0]) && (OpKeeps(s, ops[0]); AllFresh(Perform(s, ops[0]).server, ops[1..])))
  }

  ghost function RunOps(s: Server, ops: seq<Op>): (t: Server)
    requires Consistent(s) && AllFresh(s, ops)
    ensures Consistent(t)
    decreases |ops|
  {
    if ops == [] then s else OpKeeps(s, ops[0]); RunOps(Perform(s, ops[0]).server, ops[1..])
  }

  const EMPTY: Server := Server(map[], map[], map[])

  /** The server before its first operation. */
  function Initial(): (s: Server)
    ensures s == EMPTY && Consistent(s)
  {
    EMPTY
  }

  /** A user is connected in a channel exactly when the joined table sends them there. */
  ghost predicate ConnectedIsJoined(s: Server) {
    forall c, u :: (c in s.channels && u in s.channels[c].states && s.channels[c].states[u].kind == Connected)
                   <==> (u in s.joined && s.joined[u] == c)
  }

  /** From any consistent state on, every run keeps consistency, and rows only evolve. */
  lemma {:induction false} RunIsConsistent(s: Server, ops: seq<Op>)
    requires Consistent(s) && AllFresh(s, ops)
    ensures Consistent(RunOps(s, ops)) && RowsEvolve(s.rows, RunOps(s, ops).rows)
    ensures ConnectedIsJoined(RunOps(s, ops))
    decreases |ops|
  {
    if ops != [] {
      OpKeeps(s, ops[0]);
      OpEvolvesRows(s, ops[0]);
      RunIsConsistent(Perform(s, ops[0]).server, ops[1..]);
    }
  }

  lemma {:induction false} RunOpsAppend(s: Server, a: seq<Op>, b: seq<Op>)
    requires Consistent(s) && AllFresh(s, a + b)
    ensures AllFresh(s, a) && AllFresh(RunOps(s, a), b) && RunOps(s, a + b) == RunOps(RunOps(s, a), b)
    decreases |a|
  {
    if a == [] {
      assert a + b == b;
    } else {
      assert (a + b)[0] == a[0] && (a + b)[1..] == a[1..] + b;
      OpKeeps(s, a[0]);
      hide Consistent, Perform;
      RunOpsAppend(Perform(s, a[0]).server, a[1..], b);
    }
  }

  /** Safety over whole runs from the start, at the granularity of the manager's mutex: a user is
      connected in a channel exactly when the joined table sends them there, every active channel is
      occupied or not joined since its init, open rows are one-to-one with active channels, and from
      any moment to any later one rows only evolve, so that a call is opened once and closed at most
      once. */
  lemma EveryRunIsConsistent(earlier: seq<Op>, later: seq<Op>)
    requires AllFresh(Initial(), earlier + later)
    ensures AllFresh(Initial(), earlier)
    ensures var s, t := RunOps(Initial(), earlier), RunOps(Initial(), earlier + later);
            ConnectedIsJoined(t) && RowsMatch(t) && JoinedListed(t) && OccupiedOrNew(t) && RowsEvolve(s.rows, t.rows)
  {
    RunOpsAppend(Initial(), earlier, later);
    RunIsConsistent(RunOps(Initial(), earlier), later);
    hide RunOps, AllFresh, RowsEvolve, ConnectedIsJoined;
  }
}
