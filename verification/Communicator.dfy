/** Requests and replies over one connection. Nothing in a packet ties a reply to its request; any
    number of threads share the socket through two mutexes, a condition variable and a vector of
    responses. Every step below is one action of one thread, of the server's session, or of the
    wire; a request carries a number here only so that its reply can be told from others. */
module Communicator {
  import opened Options

  type Tid = nat
  type Body = string

  datatype Request = Request(tag: nat, body: Body)

  datatype Message = Response(tag: nat, body: Body) | Event(body: Body)

  /** Where a requester, or the keep-alive thread, is. */
  datatype Phase =
    | Idle
    | TryGet                  // inside std::lock, with the get mutex only
    | TrySend                 // inside std::lock, with the send mutex only
    | Both                    // both mutexes, nothing sent yet
    | Checking(tag: nat)      // sent, with both mutexes, about to look at the vector
    | Asleep(tag: nat)        // in the wait, without the get mutex
    | Woken(tag: nat)         // notified, about to take the get mutex again

  predicate HoldsGet(p: Phase) { p.TryGet? || p.Both? || p.Checking? }

  predicate Awaits(p: Phase) { p.Checking? || p.Asleep? || p.Woken? }

  predicate HoldsSend(p: Phase) { p.TrySend? || p.Both? || Awaits(p) }

  datatype Completion = Completion(thread: Tid, tag: nat, reply: Message)

  datatype Connection = Connection(
    phases: map<Tid, Phase>,
    getOwner: Option<Tid>,
    sendOwner: Option<Tid>,
    toServer: seq<Request>,        // requests on the wire
    busy: Option<Request>,         // the request that the session is handling
    toClient: seq<Message>,        // replies and events on the wire
    inHand: Option<Message>,       // what the receiver thread has read and not yet filed
    responses: seq<Message>,       // _response_packets
    events: seq<Body>,             // _event_packets
    handling: bool,                // the events thread has the events mutex
    next: nat,                     // the next unused request number
    answers: map<nat, Body>,       // what the server has answered so far
    log: seq<Completion>,          // the sends that have returned
    pushed: seq<Body>,             // events sent by the server
    filed: seq<Body>,              // events put in the vector of events
    handled: seq<Body>)            // events given to the handler

  datatype Step =
    | LockGet(t: Tid) | LockSend(t: Tid) | LockOther(t: Tid) | BackOff(t: Tid)
    | Transmit(t: Tid, body: Body) | Check(t: Tid) | Spurious(t: Tid) | Reacquire(t: Tid)
    | ServerRecv | ServerReply(body: Body) | ServerPush(body: Body)
    | Read | File(woken: Option<Tid>)
    | HandlerStart | HandlerPop | HandlerEnd

  predicate In(c: Connection, t: Tid, p: Phase) { t in c.phases && c.phases[t] == p }

  /** `notify_one` wakes a sleeping thread when there is one. */
  ghost predicate Notifies(c: Connection, woken: Option<Tid>) {
    match woken
    case Some(t) => t in c.phases && c.phases[t].Asleep?
    case None => forall t :: t in c.phases ==> !c.phases[t].Asleep?
  }

  ghost predicate Enabled(c: Connection, step: Step) {
    match step
    case LockGet(t) => In(c, t, Idle) && c.getOwner == None
    case LockSend(t) => In(c, t, Idle) && c.sendOwner == None
    case LockOther(t) => (In(c, t, TryGet) && c.sendOwner == None) || (In(c, t, TrySend) && c.getOwner == None)
    case BackOff(t) => (In(c, t, TryGet) && c.sendOwner.Some?) || (In(c, t, TrySend) && c.getOwner.Some?)
    case Transmit(t, _) => In(c, t, Both)
    case Check(t) => t in c.phases && c.phases[t].Checking?
    case Spurious(t) => t in c.phases && c.phases[t].Asleep?
    case Reacquire(t) => t in c.phases && c.phases[t].Woken? && c.getOwner == None
    case ServerRecv => c.busy == None && |c.toServer| > 0
    case ServerReply(_) => c.busy.Some?
    case ServerPush(_) => true
    case Read => c.inHand == None && |c.toClient| > 0
    case File(woken) =>
      c.inHand.Some? && (match c.inHand.value case Response(_, _) => c.getOwner == None && Notifies(c, woken)
                                              case Event(_) => !c.handling)
    case HandlerStart => !c.handling && |c.events| > 0
    case HandlerPop => c.handling && |c.events| > 0
    case HandlerEnd => c.handling && c.events == []
  }

  function To(c: Connection, t: Tid, p: Phase): Connection { c.(phases := c.phases[t := p]) }

  /** The receiver thread sorts what it has read by its type. */
  ghost function Filed(c: Connection, woken: Option<Tid>): Connection
    requires Enabled(c, File(woken))
  {
    match c.inHand.value
    case Event(body) => c.(inHand := None, events := c.events + [body], filed := c.filed + [body])
    case Response(_, _) =>
      var c' := c.(inHand := None, responses := c.responses + [c.inHand.value]);
      match woken
      case None => c'
      case Some(t) => To(c', t, Woken(c.phases[t].tag))
  }

  /** A look at the vector: take the newest response and return, or sleep. */
  function Checked(c: Connection, t: Tid): Connection
    requires t in c.phases && c.phases[t].Checking?
  {
    var tag, n := c.phases[t].tag, |c.responses|;
    if n == 0 then To(c, t, Asleep(tag)).(getOwner := None)
    else
      To(c, t, Idle).(getOwner := None, sendOwner := None, responses := c.responses[..n - 1],
                      log := c.log + [Completion(t, tag, c.responses[n - 1])])
  }

  ghost function Apply(c: Connection, step: Step): Connection
    requires Enabled(c, step)
  {
    match step
    case LockGet(t) => To(c, t, TryGet).(getOwner := Some(t))
    case LockSend(t) => To(c, t, TrySend).(sendOwner := Some(t))
    case LockOther(t) => To(c, t, Both).(getOwner := Some(t), sendOwner := Some(t))
    case BackOff(t) =>
      if c.phases[t].TryGet? then To(c, t, Idle).(getOwner := None) else To(c, t, Idle).(sendOwner := None)
    case Transmit(t, body) =>
      To(c, t, Checking(c.next)).(toServer := c.toServer + [Request(c.next, body)], next := c.next + 1)
    case Check(t) => Checked(c, t)
    case Spurious(t) => To(c, t, Woken(c.phases[t].tag))
    case Reacquire(t) => To(c, t, Checking(c.phases[t].tag)).(getOwner := Some(t))
    case ServerRecv => c.(busy := Some(c.toServer[0]), toServer := c.toServer[1..])
    case ServerReply(body) =>
      var tag := c.busy.value.tag;
      c.(busy := None, toClient := c.toClient + [Response(tag, body)], answers := c.answers[tag := body])
    case ServerPush(body) => c.(toClient := c.toClient + [Event(body)], pushed := c.pushed + [body])
    case Read => c.(inHand := Some(c.toClient[0]), toClient := c.toClient[1..])
    case File(woken) => Filed(c, woken)
    case HandlerStart => c.(handling := true)
    case HandlerPop =>
      var n := |c.events|;
      c.(events := c.events[..n - 1], handled := c.handled + [c.events[n - 1]])
    case HandlerEnd => c.(handling := false)
  }

  // ---------------------------------------------------------- invariants

  /** The mutexes are held by whom the phases say. */
  ghost predicate Locks(c: Connection) {
    && (forall t :: t in c.phases ==> (HoldsGet(c.phases[t]) <==> c.getOwner == Some(t)))
    && (forall t :: t in c.phases ==> (HoldsSend(c.phases[t]) <==> c.sendOwner == Some(t)))
    && (c.getOwner.Some? ==> c.getOwner.value in c.phases)
    && (c.sendOwner.Some? ==> c.sendOwner.value in c.phases)
  }

  /** The request whose reply is awaited, if any. */
  ghost function Awaited(c: Connection): Option<nat> {
    if c.sendOwner.Some? && c.sendOwner.value in c.phases && Awaits(c.phases[c.sendOwner.value])
    then Some(c.phases[c.sendOwner.value].tag) else None
  }

  ghost predicate NoReply(s: seq<Message>) { forall i :: 0 <= i < |s| ==> s[i].Event? }

  /** One reply among any number of events. */
  ghost predicate OneReply(s: seq<Message>, tag: nat) {
    exists k :: 0 <= k < |s| && IsReply(s[k], tag) && forall i :: 0 <= i < |s| && i != k ==> s[i].Event?
  }

  predicate IsReply(m: Message, tag: nat) { m.Response? && m.tag == tag }

  predicate EventInHand(m: Option<Message>) { m.Some? ==> m.value.Event? }

  datatype Place = OnWayOut | Served | OnWayBack | Received | Waiting

  /** The one outstanding request is in exactly one place. */
  ghost predicate IsAt(c: Connection, tag: nat, p: Place) {
    && (if p.OnWayOut? then |c.toServer| == 1 && c.toServer[0].tag == tag else c.toServer == [])
    && (if p.Served? then c.busy.Some? && c.busy.value.tag == tag else c.busy == None)
    && (if p.OnWayBack? then OneReply(c.toClient, tag) else NoReply(c.toClient))
    && (if p.Received? then c.inHand.Some? && IsReply(c.inHand.value, tag) else EventInHand(c.inHand))
    && (if p.Waiting? then |c.responses| == 1 && IsReply(c.responses[0], tag) else c.responses == [])
  }

  ghost predicate Quiet(c: Connection) {
    c.toServer == [] && c.busy == None && NoReply(c.toClient) && EventInHand(c.inHand) && c.responses == []
  }

  /** At most one request is outstanding, and exactly when a thread awaits its reply. */
  ghost predicate AtMostOne(c: Connection) {
    match Awaited(c)
    case None => Quiet(c)
    case Some(tag) => tag < c.next && exists p :: IsAt(c, tag, p)
  }

  /** No wake-up is lost: whoever sleeps has no response waiting. */
  ghost predicate NoLostWakeUp(c: Connection) {
    forall t :: t in c.phases && c.phases[t].Asleep? ==> c.responses == []
  }

  ghost predicate Answered(c: Connection, m: Message) {
    m.Response? ==> m.tag in c.answers && c.answers[m.tag] == m.body
  }

  /** Every reply under way is the server's answer, and answers are given to sent requests once. */
  ghost predicate Authentic(c: Connection) {
    && (forall m :: m in c.toClient ==> Answered(c, m))
    && (c.inHand.Some? ==> Answered(c, c.inHand.value))
    && (forall m :: m in c.responses ==> Answered(c, m))
    && (forall tag :: tag in c.answers ==> tag < c.next)
    && (forall r :: r in c.toServer ==> r.tag !in c.answers)
    && (c.busy.Some? ==> c.busy.value.tag !in c.answers)
  }

  /** Every send that has returned has returned the server's answer to its own request. */
  ghost predicate Paired(c: Connection) {
    forall e :: e in c.log ==> IsReply(e.reply, e.tag) && e.tag in c.answers && e.reply.body == c.answers[e.tag]
  }

  ghost predicate Invariant(c: Connection) {
    Locks(c) && AtMostOne(c) && NoLostWakeUp(c) && Authentic(c) && Paired(c)
  }

  /** A connection as `connect` leaves it, for the given threads, with what an earlier connection
      may have left in the vector of responses. */
  function Opened(threads: set<Tid>, next: nat, stale: seq<Message>): Connection {
    Connection(map t | t in threads :: Idle,
               None, None, [], None, [], None, stale, [], false, next, map[], [], [], [], [])
  }

  lemma OpenedIsInvariant(threads: set<Tid>, next: nat)
    ensures Invariant(Opened(threads, next, []))
  {
  }

  // ------------------------------------------------------------ preservation

  /** One thread changes its phase, and takes or gives up mutexes to match. */
  lemma LocksFollow(c: Connection, c': Connection, t: Tid)
    requires Locks(c) && t in c.phases && t in c'.phases && c'.phases == c.phases[t := c'.phases[t]]
    requires HoldsGet(c'.phases[t]) <==> c'.getOwner == Some(t)
    requires HoldsSend(c'.phases[t]) <==> c'.sendOwner == Some(t)
    requires c'.getOwner == c.getOwner || {c.getOwner, c'.getOwner} == {None, Some(t)}
    requires c'.sendOwner == c.sendOwner || {c.sendOwner, c'.sendOwner} == {None, Some(t)}
    ensures Locks(c')
  {
  }

  lemma LocksUntouched(c: Connection, c': Connection)
    requires Locks(c) && c'.phases == c.phases && c'.getOwner == c.getOwner && c'.sendOwner == c.sendOwner
    ensures Locks(c')
  {
  }

  /** The steps inside `std::lock`. */
  lemma LockingKeepsLocks(c: Connection, step: Step)
    requires Locks(c) && Enabled(c, step)
    requires step.LockGet? || step.LockSend? || step.LockOther? || step.BackOff?
    ensures Locks(Apply(c, step))
  {
    LocksFollow(c, Apply(c, step), step.t);
  }

  lemma FileKeepsLocks(c: Connection, woken: Option<Tid>)
    requires Locks(c) && Enabled(c, File(woken))
    ensures Locks(Apply(c, File(woken)))
  {
    var c' := Apply(c, File(woken));
    if c.inHand.value.Response? && woken.Some? {
      LocksFollow(c, c', woken.value);
    } else {
      LocksUntouched(c, c');
    }
  }

  lemma KeepsLocks(c: Connection, step: Step)
    requires Locks(c) && Enabled(c, step)
    ensures Locks(Apply(c, step))
  {
    match step
    case LockGet(_) => LockingKeepsLocks(c, step);
    case LockSend(_) => LockingKeepsLocks(c, step);
    case LockOther(_) => LockingKeepsLocks(c, step);
    case BackOff(_) => LockingKeepsLocks(c, step);
    case Transmit(t, _) => LocksFollow(c, Apply(c, step), t);
    case Check(t) => LocksFollow(c, Apply(c, step), t);
    case Spurious(t) => LocksFollow(c, Apply(c, step), t);
    case Reacquire(t) => LocksFollow(c, Apply(c, step), t);
    case File(woken) => FileKeepsLocks(c, woken);
    case _ => LocksUntouched(c, Apply(c, step));
  }

  lemma OnlyOwnerAwaits(c: Connection, t: Tid)
    requires Locks(c) && t in c.phases && Awaits(c.phases[t])
    ensures c.sendOwner == Some(t) && Awaited(c) == Some(c.phases[t].tag)
  {
  }

  /** Filing a response wakes the one thread that sleeps. */
  lemma FileLosesNoWakeUp(c: Connection, woken: Option<Tid>)
    requires Locks(c) && NoLostWakeUp(c) && Enabled(c, File(woken))
    ensures NoLostWakeUp(Apply(c, File(woken)))
  {
    if c.inHand.value.Response? && woken.Some? {
      OnlyOwnerAwaits(c, woken.value);
      forall t | t in c.phases && c.phases[t].Asleep? ensures t == woken.value {
        OnlyOwnerAwaits(c, t);
      }
    }
    hide Locks, Awaited;
  }

  lemma WakeUpFrame(c: Connection, c': Connection)
    requires NoLostWakeUp(c) && c'.responses == c.responses && c'.phases.Keys == c.phases.Keys
    requires forall t :: t in c.phases && c'.phases[t].Asleep? ==> c.phases[t].Asleep?
    ensures NoLostWakeUp(c')
  {
  }

  lemma KeepsNoLostWakeUp(c: Connection, step: Step)
    requires Locks(c) && NoLostWakeUp(c) && Enabled(c, step)
    ensures NoLostWakeUp(Apply(c, step))
  {
    hide Locks;
    match step
    case File(woken) => FileLosesNoWakeUp(c, woken);
    case Check(_) =>
    case _ => WakeUpFrame(c, Apply(c, step)); hide NoLostWakeUp;
  }

  /** A response in the vector is the answer to the request that is awaited. */
  lemma CheckPairs(c: Connection, t: Tid)
    requires Invariant(c) && t in c.phases && c.phases[t].Checking? && |c.responses| > 0
    ensures |c.responses| == 1 && IsReply(c.responses[0], c.phases[t].tag)
    ensures c.phases[t].tag in c.answers && c.answers[c.phases[t].tag] == c.responses[0].body
  {
    OnlyOwnerAwaits(c, t);
    var p :| IsAt(c, c.phases[t].tag, p);
    assert c.responses[0] in c.responses;
  }

  lemma BusyIsAwaited(c: Connection)
    requires AtMostOne(c) && c.busy.Some?
    ensures Awaited(c) == Some(c.busy.value.tag) && IsAt(c, c.busy.value.tag, Served) && c.busy.value.tag < c.next
  {
  }

  /** A step by which nothing comes onto the wires or into the receiver's hands, and nothing is
      answered. */
  lemma AuthenticFrame(c: Connection, c': Connection)
    requires Authentic(c) && c'.answers == c.answers && c'.next >= c.next
    requires forall m :: m in c'.toClient ==> m in c.toClient
    requires c'.inHand.Some? ==> c'.inHand == c.inHand
    requires forall m :: m in c'.responses ==> m in c.responses
    requires forall r :: r in c'.toServer ==> r in c.toServer
    requires c'.busy.Some? ==> c'.busy == c.busy
    ensures Authentic(c')
  {
  }

  lemma ReplyAuthentic(c: Connection, body: Body)
    requires AtMostOne(c) && Authentic(c) && c.busy.Some?
    ensures Authentic(Apply(c, ServerReply(body)))
  {
    BusyIsAwaited(c);
    hide AtMostOne;
  }

  lemma FileAuthentic(c: Connection, woken: Option<Tid>)
    requires Authentic(c) && Enabled(c, File(woken))
    ensures Authentic(Apply(c, File(woken)))
  {
  }

  lemma TransmitAuthentic(c: Connection, t: Tid, body: Body)
    requires Authentic(c) && In(c, t, Both)
    ensures Authentic(Apply(c, Transmit(t, body)))
  {
  }

  lemma WireAuthentic(c: Connection, step: Step)
    requires Authentic(c) && Enabled(c, step) && (step.Read? || step.ServerRecv? || step.ServerPush?)
    ensures Authentic(Apply(c, step))
  {
    if step.Read? {
      assert c.toClient[0] in c.toClient;
      assert forall m :: m in c.toClient[1..] ==> m in c.toClient;
    } else if step.ServerRecv? {
      assert c.toServer[0] in c.toServer;
    }
  }

  lemma KeepsAuthentic(c: Connection, step: Step)
    requires AtMostOne(c) && Authentic(c) && Enabled(c, step)
    ensures Authentic(Apply(c, step))
  {
    hide AtMostOne, Authentic;
    match step
    case ServerReply(body) => ReplyAuthentic(c, body);
    case Transmit(t, body) => TransmitAuthentic(c, t, body);
    case File(woken) => FileAuthentic(c, woken);
    case Read => WireAuthentic(c, step);
    case ServerRecv => WireAuthentic(c, step);
    case ServerPush(_) => WireAuthentic(c, step);
    case _ => AuthenticFrame(c, Apply(c, step));
  }

  lemma KeepsPaired(c: Connection, step: Step)
    requires Invariant(c) && Enabled(c, step)
    ensures Paired(Apply(c, step))
  {
    if step.Check? && |c.responses| > 0 {
      CheckPairs(c, step.t);
    }
    hide AtMostOne, Locks, NoLostWakeUp;
  }

  lemma AppendEvent(s: seq<Message>, body: Body)
    ensures NoReply(s) ==> NoReply(s + [Event(body)])
    ensures forall tag :: OneReply(s, tag) ==> OneReply(s + [Event(body)], tag)
  {
    forall tag | OneReply(s, tag) ensures OneReply(s + [Event(body)], tag) {
      var k :| 0 <= k < |s| && IsReply(s[k], tag) && forall i :: 0 <= i < |s| && i != k ==> s[i].Event?;
      assert (s + [Event(body)])[k] == s[k];
    }
  }

  lemma AppendReply(s: seq<Message>, tag: nat, body: Body)
    requires NoReply(s)
    ensures OneReply(s + [Response(tag, body)], tag)
  {
    assert IsReply((s + [Response(tag, body)])[|s|], tag);
  }

  lemma TakeHead(s: seq<Message>)
    requires |s| > 0
    ensures NoReply(s) ==> s[0].Event? && NoReply(s[1..])
    ensures forall tag :: OneReply(s, tag) ==>
      (s[0].Event? && OneReply(s[1..], tag)) || (IsReply(s[0], tag) && NoReply(s[1..]))
  {
    forall tag | OneReply(s, tag)
      ensures (s[0].Event? && OneReply(s[1..], tag)) || (IsReply(s[0], tag) && NoReply(s[1..]))
    {
      var k :| 0 <= k < |s| && IsReply(s[k], tag) && forall i :: 0 <= i < |s| && i != k ==> s[i].Event?;
      if k > 0 {
        assert s[1..][k - 1] == s[k];
      }
    }
  }

  /** Where a step takes the outstanding request. */
  function Moves(c: Connection, step: Step, p: Place): Place {
    match step
    case ServerRecv => Served
    case ServerReply(_) => OnWayBack
    case Read => if |c.toClient| > 0 && c.toClient[0].Response? then Received else p
    case File(_) => if p.Received? then Waiting else p
    case _ => p
  }

  /** The steps that leave the thread that awaits a reply waiting for the same one. */
  lemma StepMoves(c: Connection, step: Step, tag: nat, p: Place)
    requires Locks(c) && Enabled(c, step) && Awaited(c) == Some(tag) && IsAt(c, tag, p)
    requires !(step.Check? && |c.responses| > 0)
    ensures Awaited(Apply(c, step)) == Some(tag) && IsAt(Apply(c, step), tag, Moves(c, step, p))
  {
    match step
    case ServerReply(body) => AppendReply(c.toClient, c.busy.value.tag, body);
    case ServerPush(body) => AppendEvent(c.toClient, body);
    case Read => TakeHead(c.toClient);
    case Check(t) => OnlyOwnerAwaits(c, t);
    case _ =>
  }

  lemma KeepsAtMostOne(c: Connection, step: Step)
    requires Invariant(c) && Enabled(c, step)
    ensures AtMostOne(Apply(c, step))
  {
    var c' := Apply(c, step);
    if Awaited(c).Some? {
      var tag := Awaited(c).value;
      var p :| IsAt(c, tag, p);
      if step.Check? && |c.responses| > 0 {
        CheckPairs(c, step.t);
      } else {
        StepMoves(c, step, tag, p);
      }
    } else {
      QuietSteps(c, step);
    }
  }

  lemma QuietSteps(c: Connection, step: Step)
    requires Locks(c) && Awaited(c) == None && Quiet(c) && Enabled(c, step)
    ensures AtMostOne(Apply(c, step))
  {
    match step
    case ServerPush(body) => AppendEvent(c.toClient, body);
    case Read => TakeHead(c.toClient);
    case Check(t) => OnlyOwnerAwaits(c, t);
    case Spurious(t) => OnlyOwnerAwaits(c, t);
    case Reacquire(t) => OnlyOwnerAwaits(c, t);
    case Transmit(t, _) => assert IsAt(Apply(c, step), c.next, OnWayOut);
    case _ =>
  }

  lemma StepKeeps(c: Connection, step: Step)
    requires Invariant(c) && Enabled(c, step)
    ensures Invariant(Apply(c, step))
  {
    KeepsLocks(c, step);
    KeepsAtMostOne(c, step);
    KeepsNoLostWakeUp(c, step);
    KeepsAuthentic(c, step);
    KeepsPaired(c, step);
  }

  // ---------------------------------------------------------------- runs

  ghost predicate Legal(c: Connection, steps: seq<Step>)
    decreases |steps|
  {
    steps == [] || (Enabled(c, steps[0]) && Legal(Apply(c, steps[0]), steps[1..]))
  }

  ghost function Run(c: Connection, steps: seq<Step>): Connection
    requires Legal(c, steps)
    decreases |steps|
  {
    if steps == [] then c else Run(Apply(c, steps[0]), steps[1..])
  }

  lemma {:induction false} RunKeeps(c: Connection, steps: seq<Step>)
    requires Invariant(c) && Legal(c, steps)
    ensures Invariant(Run(c, steps))
    decreases |steps|
  {
    if steps != [] {
      StepKeeps(c, steps[0]);
      RunKeeps(Apply(c, steps[0]), steps[1..]);
    }
  }

  /** In every interleaving of any number of threads: no two threads await a reply, at most one
      response is in the vector, and every send that has returned has returned the server's answer
      to its own request, never an event. */
  lemma RepliesArePaired(threads: set<Tid>, next: nat, steps: seq<Step>)
    requires Legal(Opened(threads, next, []), steps)
    ensures var c := Run(Opened(threads, next, []), steps);
            (forall t, u :: t in c.phases && u in c.phases && Awaits(c.phases[t]) && Awaits(c.phases[u]) ==> t == u) &&
            |c.toServer| + |c.responses| <= 1 &&
            forall e :: e in c.log ==>
              e.reply.Response? && e.reply.tag == e.tag && e.tag in c.answers && e.reply.body == c.answers[e.tag]
  {
    OpenedIsInvariant(threads, next);
    RunKeeps(Opened(threads, next, []), steps);
    hide Run, Legal, Authentic, NoLostWakeUp;
  }

  // ------------------------------------------------- what a stale response does

  ghost predicate AlwaysPaired(c: Connection) {
    forall steps :: Legal(c, steps) ==> Paired(Run(c, steps))
  }

  lemma RunCons(c: Connection, step: Step, steps: seq<Step>)
    requires Enabled(c, step) && Legal(Apply(c, step), steps)
    ensures Legal(c, [step] + steps) && Run(c, [step] + steps) == Run(Apply(c, step), steps)
  {
    assert ([step] + steps)[1..] == steps;
    hide Enabled, Apply;
  }

  /** The shortest way to a reply: both locks, the request, and a look at the vector. */
  function Shortest(t: Tid): seq<Step> {
    [LockGet(t)] + ([LockOther(t)] + ([Transmit(t, [])] + ([Check(t)] + [])))
  }

  lemma Sends(c: Connection, t: Tid, body: Body)
    requires In(c, t, Idle) && c.getOwner == None && c.sendOwner == None
    ensures Enabled(c, LockGet(t))
    ensures var c1 := Apply(c, LockGet(t));
            Enabled(c1, LockOther(t)) &&
            var c2 := Apply(c1, LockOther(t));
            Enabled(c2, Transmit(t, body)) &&
            var c3 := Apply(c2, Transmit(t, body));
            c3.toServer == c.toServer + [Request(c.next, body)] && c3.busy == c.busy && c3.toClient == c.toClient &&
            c3.inHand == c.inHand && c3.responses == c.responses && c3.log == c.log && In(c3, t, Checking(c.next))
  {
  }

  /** A response left over from an earlier connection is handed to the next request. */
  lemma StaleIsTaken(c: Connection, t: Tid)
    requires t in c.phases && c.phases[t].Idle? && c.getOwner == None && c.sendOwner == None
    requires |c.responses| > 0 && c.log == []
    ensures Legal(c, Shortest(t))
    ensures Run(c, Shortest(t)).log == [Completion(t, c.next, c.responses[|c.responses| - 1])]
  {
    Sends(c, t, []);
    hide Enabled, Apply, Legal, Run;
    var c1 := Apply(c, LockGet(t));
    var c2 := Apply(c1, LockOther(t));
    var c3 := Apply(c2, Transmit(t, []));
    TakesNewest(c3, t);
    NoSteps(Apply(c3, Check(t)));
    RunCons(c3, Check(t), []);
    RunCons(c2, Transmit(t, []), [Check(t)] + []);
    RunCons(c1, LockOther(t), [Transmit(t, [])] + ([Check(t)] + []));
    RunCons(c, LockGet(t), [LockOther(t)] + ([Transmit(t, [])] + ([Check(t)] + [])));
  }

  lemma TakesNewest(c: Connection, t: Tid)
    requires t in c.phases && c.phases[t].Checking? && |c.responses| > 0 && c.log == []
    ensures Enabled(c, Check(t))
    ensures Apply(c, Check(t)).log == [Completion(t, c.phases[t].tag, c.responses[|c.responses| - 1])]
  {
  }

  /** Replies are paired in every run exactly when the vector of responses starts out empty, which
      a reconnection does not see to. */
  lemma PairedIffNothingStale(threads: set<Tid>, next: nat, stale: seq<Message>)
    requires threads != {} && forall m :: m in stale ==> m.Response? && m.tag < next
    ensures AlwaysPaired(Opened(threads, next, stale)) <==> stale == []
  {
    var c := Opened(threads, next, stale);
    if stale == [] {
      forall steps | Legal(c, steps) ensures Paired(Run(c, steps)) {
        OpenedIsInvariant(threads, next);
        RunKeeps(c, steps);
      }
    } else {
      var t :| t in threads;
      var e := Completion(t, next, stale[|stale| - 1]);
      StaleIsTaken(c, t);
      var steps := Shortest(t);
      assert e in Run(c, steps).log && stale[|stale| - 1] in stale;
      assert !IsReply(e.reply, e.tag);
      assert !Paired(Run(c, steps));
    }
  }

  lemma {:induction false} ThreadsStay(c: Connection, steps: seq<Step>)
    requires Legal(c, steps)
    ensures Run(c, steps).phases.Keys == c.phases.Keys
    decreases |steps|
  {
    if steps != [] {
      StepThreads(c, steps[0]);
      hide Apply, Enabled;
      ThreadsStay(Apply(c, steps[0]), steps[1..]);
    }
  }

  lemma StepThreads(c: Connection, step: Step)
    requires Enabled(c, step)
    ensures Apply(c, step).phases.Keys == c.phases.Keys
  {
    match step
    case File(woken) => FileThreads(c, woken);
    case _ =>
  }

  lemma FileThreads(c: Connection, woken: Option<Tid>)
    requires Enabled(c, File(woken))
    ensures Apply(c, File(woken)).phases.Keys == c.phases.Keys
  {
  }

  /** What `clean_connection` leaves in the vector: whoever waits gives up without taking a response,
      and the receiver files what it has in hand. */
  function Leftover(c: Connection): seq<Message> {
    c.responses + if c.inHand.Some? && c.inHand.value.Response? then [c.inHand.value] else []
  }

  /** The connection after `clean_connection` and `connect`, at any moment of an earlier one. */
  function Reconnected(c: Connection): Connection { Opened(c.phases.Keys, c.next, Leftover(c)) }

  lemma LeftoverIs(c: Connection)
    requires Invariant(c)
    ensures |Leftover(c)| <= 1 && (Leftover(c) != [] ==> Awaited(c).Some?)
    ensures forall m :: m in Leftover(c) ==> m.Response? && m.tag < c.next
  {
    if Awaited(c).Some? {
      var p :| IsAt(c, Awaited(c).value, p);
    }
    forall m | m in Leftover(c) ensures m.Response? && m.tag < c.next {
      assert Answered(c, m);
    }
  }

  /** A thread has sent its request, and the receiver has just read the reply. */
  function JustAnswered(t: Tid, body: Body, reply: Body): seq<Step> {
    [LockGet(t)] + ([LockOther(t)] + ([Transmit(t, body)] + ([ServerRecv] + ([ServerReply(reply)] + ([Read] + [])))))
  }

  /** A connection that is closed at that moment leaves the reply behind. */
  lemma RepliesAreLeftOver(threads: set<Tid>, next: nat, t: Tid, body: Body, reply: Body)
    requires t in threads
    ensures var c := Opened(threads, next, []);
            Legal(c, JustAnswered(t, body, reply)) &&
            Leftover(Run(c, JustAnswered(t, body, reply))) == [Response(next, reply)]
  {
    var c := Opened(threads, next, []);
    Sends(c, t, body);
    hide Enabled, Apply, Leftover, Legal, Run;
    var c1 := Apply(c, LockGet(t));
    var c2 := Apply(c1, LockOther(t));
    var c3 := Apply(c2, Transmit(t, body));
    assert c3.toServer == [Request(next, body)];
    Answers(c3, next, body, reply);
    var c4 := Apply(c3, ServerRecv);
    var c5 := Apply(c4, ServerReply(reply));
    NoSteps(Apply(c5, Read));
    RunCons(c5, Read, []);
    RunCons(c4, ServerReply(reply), [Read] + []);
    RunCons(c3, ServerRecv, [ServerReply(reply)] + ([Read] + []));
    RunCons(c2, Transmit(t, body), [ServerRecv] + ([ServerReply(reply)] + ([Read] + [])));
    RunCons(c1, LockOther(t), [Transmit(t, body)] + ([ServerRecv] + ([ServerReply(reply)] + ([Read] + []))));
    RunCons(c, LockGet(t),
            [LockOther(t)] + ([Transmit(t, body)] + ([ServerRecv] + ([ServerReply(reply)] + ([Read] + [])))));
  }

  lemma Answers(c: Connection, tag: nat, body: Body, reply: Body)
    requires c.toServer == [Request(tag, body)] && c.busy == None && c.toClient == [] && c.inHand == None
    requires c.responses == []
    ensures Enabled(c, ServerRecv)
    ensures var c1 := Apply(c, ServerRecv);
            Enabled(c1, ServerReply(reply)) &&
            var c2 := Apply(c1, ServerReply(reply));
            Enabled(c2, Read) && Leftover(Apply(c2, Read)) == [Response(tag, reply)]
  {
  }

  lemma NoSteps(c: Connection)
    ensures Legal(c, []) && Run(c, []) == c
  {
  }

  /** Whatever has happened on a connection, replies are paired in every run of the next one exactly
      when the first is closed with no reply received that nobody has taken. */
  lemma ReconnectionPairsIff(threads: set<Tid>, next: nat, steps: seq<Step>)
    requires threads != {} && Legal(Opened(threads, next, []), steps)
    ensures var c := Run(Opened(threads, next, []), steps);
            |Leftover(c)| <= 1 && (Leftover(c) != [] ==> Awaited(c).Some?) &&
            (AlwaysPaired(Reconnected(c)) <==> Leftover(c) == [])
  {
    var c := Run(Opened(threads, next, []), steps);
    OpenedIsInvariant(threads, next);
    RunKeeps(Opened(threads, next, []), steps);
    ThreadsStay(Opened(threads, next, []), steps);
    LeftoverIs(c);
    hide Run, Legal, Invariant, AlwaysPaired, Leftover;
    PairedIffNothingStale(c.phases.Keys, c.next, Leftover(c));
  }

  // -------------------------------------------------------------- events

  function EventsOf(s: seq<Message>): seq<Body> {
    if s == [] then [] else (if s[0].Event? then [s[0].body] else []) + EventsOf(s[1..])
  }

  function InHand(m: Option<Message>): seq<Body> {
    if m.Some? && m.value.Event? then [m.value.body] else []
  }

  /** Events are filed in the order in which the server sent them, and each is handled once. */
  ghost predicate EventsKept(c: Connection) {
    && c.pushed == c.filed + InHand(c.inHand) + EventsOf(c.toClient)
    && multiset(c.filed) == multiset(c.handled) + multiset(c.events)
  }

  lemma {:induction false} EventsOfAppend(s: seq<Message>, m: Message)
    ensures EventsOf(s + [m]) == EventsOf(s) + if m.Event? then [m.body] else []
  {
    if s == [] {
      assert s + [m] == [m] && [m][1..] == [];
    } else {
      EventsOfAppend(s[1..], m);
      assert (s + [m])[1..] == s[1..] + [m];
    }
  }

  lemma EventsFrame(c: Connection, c': Connection)
    requires EventsKept(c) && c'.pushed == c.pushed && c'.filed == c.filed && c'.handled == c.handled
    requires c'.toClient == c.toClient && c'.inHand == c.inHand && c'.events == c.events
    ensures EventsKept(c')
  {
  }

  lemma ReadKeepsEvents(c: Connection)
    requires EventsKept(c) && c.inHand == None && |c.toClient| > 0
    ensures EventsKept(Apply(c, Read))
  {
    assert EventsOf(c.toClient) == InHand(Some(c.toClient[0])) + EventsOf(c.toClient[1..]);
  }

  lemma FileKeepsEvents(c: Connection, woken: Option<Tid>)
    requires EventsKept(c) && Enabled(c, File(woken))
    ensures EventsKept(Apply(c, File(woken)))
  {
    var c' := Apply(c, File(woken));
    hide EventsOf;
    if c.inHand.value.Event? {
      var body, rest := c.inHand.value.body, EventsOf(c.toClient);
      assert c.filed + [body] + [] + rest == c.filed + [body] + rest;
      assert multiset(c.filed + [body]) == multiset(c.filed) + multiset{body};
      assert multiset(c.events + [body]) == multiset(c.events) + multiset{body};
    } else {
      EventsFrame(c.(inHand := None), c');
    }
  }

  lemma ServerKeepsEvents(c: Connection, step: Step)
    requires EventsKept(c) && Enabled(c, step) && (step.ServerReply? || step.ServerPush?)
    ensures EventsKept(Apply(c, step))
  {
    EventsOfAppend(c.toClient, if step.ServerReply? then Response(c.busy.value.tag, step.body) else Event(step.body));
    hide EventsOf;
  }

  lemma PopKeepsEvents(c: Connection)
    requires EventsKept(c) && Enabled(c, HandlerPop)
    ensures EventsKept(Apply(c, HandlerPop))
  {
    assert c.events == c.events[..|c.events| - 1] + [c.events[|c.events| - 1]];
    hide EventsOf, InHand;
  }

  lemma StepKeepsEvents(c: Connection, step: Step)
    requires EventsKept(c) && Enabled(c, step)
    ensures EventsKept(Apply(c, step))
  {
    match step
    case ServerReply(_) => ServerKeepsEvents(c, step);
    case ServerPush(_) => ServerKeepsEvents(c, step);
    case Read => ReadKeepsEvents(c);
    case File(woken) => FileKeepsEvents(c, woken);
    case HandlerPop => PopKeepsEvents(c);
    case _ => EventsFrame(c, Apply(c, step)); hide EventsKept;
  }

  lemma {:induction false} RunKeepsEvents(c: Connection, steps: seq<Step>)
    requires EventsKept(c) && Legal(c, steps)
    ensures EventsKept(Run(c, steps))
    decreases |steps|
  {
    if steps != [] {
      StepKeepsEvents(c, steps[0]);
      RunKeepsEvents(Apply(c, steps[0]), steps[1..]);
    }
  }

  /** Once nothing is under way, every event the server sent has been handled, exactly once. */
  lemma AllEventsHandled(threads: set<Tid>, next: nat, stale: seq<Message>, steps: seq<Step>)
    requires Legal(Opened(threads, next, stale), steps)
    ensures var c := Run(Opened(threads, next, stale), steps);
            c.filed <= c.pushed && multiset(c.handled) <= multiset(c.pushed) &&
            (c.toClient == [] && c.inHand == None && c.events == [] ==> multiset(c.handled) == multiset(c.pushed))
  {
    RunKeepsEvents(Opened(threads, next, stale), steps);
    KeptMeansHandled(Run(Opened(threads, next, stale), steps));
    hide *;
  }

  lemma KeptMeansHandled(c: Connection)
    requires EventsKept(c)
    ensures c.filed <= c.pushed && multiset(c.handled) <= multiset(c.pushed)
    ensures c.toClient == [] && c.inHand == None && c.events == [] ==> multiset(c.handled) == multiset(c.pushed)
  {
    var mid, rest := InHand(c.inHand), EventsOf(c.toClient);
    Prefixed(c.filed, mid, rest);
    if c.toClient == [] && c.inHand == None {
      assert mid == [] && rest == [];
      assert c.pushed == c.filed;
    }
    hide *;
  }

  lemma Prefixed(a: seq<Body>, b: seq<Body>, c: seq<Body>)
    ensures a <= a + b + c && multiset(a) <= multiset(a + b + c)
  {
    assert multiset(a + b + c) == multiset(a) + multiset(b) + multiset(c);
  }

  // ------------------------------------------------------------ progress

  /** What is bound to happen by itself: no new lock is tried, no request sent, no event pushed and
      nobody woken for no reason. */
  predicate Helpful(step: Step) {
    step.BackOff? || step.Check? || step.Reacquire? || step.ServerRecv? || step.ServerReply? || step.Read? ||
    step.File? || step.HandlerStart? || step.HandlerPop? || step.HandlerEnd?
  }

  /** While a thread awaits its reply there is no deadlock: somebody can make a helpful step. */
  lemma SomebodyCanHelp(c: Connection)
    requires Invariant(c) && Awaited(c).Some?
    ensures exists step :: Helpful(step) && Enabled(c, step)
  {
    var t, tag := c.sendOwner.value, Awaited(c).value;
    var p :| IsAt(c, tag, p);
    if c.getOwner.Some? && c.getOwner != Some(t) {
      assert Enabled(c, BackOff(c.getOwner.value));
    } else if c.phases[t].Checking? {
      assert Enabled(c, Check(t));
    } else if c.phases[t].Woken? {
      assert Enabled(c, Reacquire(t));
    } else {
      WireCanHelp(c, t, p);
    }
  }

  lemma WireCanHelp(c: Connection, t: Tid, p: Place)
    requires t in c.phases && c.phases[t].Asleep? && IsAt(c, c.phases[t].tag, p) && c.responses == [] &&
      c.getOwner == None
    ensures exists step :: Helpful(step) && Enabled(c, step)
  {
    if c.inHand.Some? {
      if c.inHand.value.Response? {
        assert Enabled(c, File(Some(t)));
      } else if !c.handling {
        assert Enabled(c, File(None));
      } else if c.events == [] {
        assert Enabled(c, HandlerEnd);
      } else {
        assert Enabled(c, HandlerPop);
      }
    } else if p.OnWayOut? {
      assert Enabled(c, ServerRecv);
    } else if p.Served? {
      assert Enabled(c, ServerReply([]));
    } else {
      assert Enabled(c, Read);
    }
  }

  function Rank(p: Phase): nat { if p.Woken? then 2 else if p.Checking? then 1 else 0 }

  /** How many helpful steps are left at most. */
  function Measure(c: Connection): nat {
    9 * |c.toServer| + (if c.busy.Some? then 8 else 0) + 7 * |c.toClient| + (if c.inHand.Some? then 6 else 0) +
    3 * |c.responses| + 3 * |c.events| + (if c.handling then 1 else if |c.events| > 0 then 2 else 0) +
    (if c.sendOwner.Some? && c.sendOwner.value in c.phases then Rank(c.phases[c.sendOwner.value]) else 0) +
    (if c.getOwner.Some? && c.getOwner != c.sendOwner then 1 else 0)
  }

  lemma ThreadHelpDecreases(c: Connection, step: Step)
    requires Locks(c) && Enabled(c, step) && Awaited(c).Some?
    requires step.BackOff? || step.Reacquire? || (step.Check? && c.responses == [])
    ensures Measure(Apply(c, step)) < Measure(c)
  {
  }

  lemma WireHelpDecreases(c: Connection, step: Step)
    requires Enabled(c, step) && (step.ServerRecv? || step.ServerReply? || step.Read?)
    ensures Measure(Apply(c, step)) < Measure(c)
  {
  }

  lemma FileDecreases(c: Connection, woken: Option<Tid>)
    requires Locks(c) && Enabled(c, File(woken))
    ensures Measure(Apply(c, File(woken))) < Measure(c)
  {
  }

  lemma HandlerDecreases(c: Connection, step: Step)
    requires Enabled(c, step) && (step.HandlerStart? || step.HandlerPop? || step.HandlerEnd?)
    ensures Measure(Apply(c, step)) < Measure(c)
  {
  }

  lemma HelpfulDecreases(c: Connection, step: Step)
    requires Invariant(c) && Enabled(c, step) && Helpful(step) && Awaited(c).Some?
    requires !(step.Check? && |c.responses| > 0)
    ensures Measure(Apply(c, step)) < Measure(c)
  {
    hide Enabled, Apply, Measure, Awaited;
    match step
    case File(woken) => FileDecreases(c, woken);
    case ServerRecv => WireHelpDecreases(c, step);
    case ServerReply(_) => WireHelpDecreases(c, step);
    case Read => WireHelpDecreases(c, step);
    case HandlerStart => HandlerDecreases(c, step);
    case HandlerPop => HandlerDecreases(c, step);
    case HandlerEnd => HandlerDecreases(c, step);
    case _ => ThreadHelpDecreases(c, step);
  }

  lemma {:induction false} LogGrows(c: Connection, steps: seq<Step>)
    requires Legal(c, steps)
    ensures |c.log| <= |Run(c, steps).log|
    decreases |steps|
  {
    if steps != [] {
      LogGrows(Apply(c, steps[0]), steps[1..]);
    }
  }

  /** However the helpful steps are scheduled, so many of them bring the awaited reply. */
  lemma {:induction false} HelpBringsReply(c: Connection, steps: seq<Step>)
    requires Invariant(c) && Awaited(c).Some? && Legal(c, steps)
    requires (forall step :: step in steps ==> Helpful(step)) && |steps| > Measure(c)
    ensures |Run(c, steps).log| > |c.log|
    decreases |steps|
  {
    var step, c' := steps[0], Apply(c, steps[0]);
    if step.Check? && |c.responses| > 0 {
      LogGrows(c', steps[1..]);
    } else {
      HelpfulDecreases(c, step);
      StepKeeps(c, step);
      StillAwaited(c, step);
      HelpBringsReply(c', steps[1..]);
    }
  }

  lemma StillAwaited(c: Connection, step: Step)
    requires Invariant(c) && Awaited(c).Some? && Enabled(c, step) && !(step.Check? && |c.responses| > 0)
    ensures Awaited(Apply(c, step)) == Awaited(c) && Apply(c, step).log == c.log
  {
    var p :| IsAt(c, Awaited(c).value, p);
    StepMoves(c, step, Awaited(c).value, p);
    hide AtMostOne, IsAt, Locks;
  }
}
