/** What the threads of a connection have sent, what the server has answered and pushed, and what
    came of it, told from the steps of a run alone. */
module Exchange {
  import opened Options
  import opened Communicator
  import Lists

  /** Who has sent what, in order. */
  function SendsIn(steps: seq<Step>): seq<(Tid, Body)> {
    if steps == [] then []
    else (if steps[0].Transmit? then [(steps[0].t, steps[0].body)] else []) + SendsIn(steps[1..])
  }

  /** What the server has answered, in order. */
  function RepliesIn(steps: seq<Step>): seq<Body> {
    if steps == [] then []
    else (if steps[0].ServerReply? then [steps[0].body] else []) + RepliesIn(steps[1..])
  }

  /** What the server has pushed, in order. */
  function EventsIn(steps: seq<Step>): seq<Body> {
    if steps == [] then []
    else (if steps[0].ServerPush? then [steps[0].body] else []) + EventsIn(steps[1..])
  }

  datatype Account = Account(sends: seq<(Tid, Body)>, replies: seq<Body>, pushed: seq<Body>)

  function Add(a: Account, step: Step): Account {
    match step
    case Transmit(t, body) => a.(sends := a.sends + [(t, body)])
    case ServerReply(body) => a.(replies := a.replies + [body])
    case ServerPush(body) => a.(pushed := a.pushed + [body])
    case _ => a
  }

  // ------------------------------------------------------ requests and replies

  /** Requests are numbered from `first`; whatever is not answered yet is the last one sent. */
  ghost predicate RequestsAre(c: Connection, first: nat, a: Account) {
    && c.next == first + |a.sends|
    && (forall r :: r in c.toServer ==> IsOpen(r, first, a))
    && (c.busy.Some? ==> IsOpen(c.busy.value, first, a))
    && (forall tag :: tag in c.answers <==> first <= tag < first + |a.replies|)
    && (forall i :: 0 <= i < |a.replies| ==> c.answers[first + i] == a.replies[i])
  }

  ghost predicate IsOpen(r: Request, first: nat, a: Account) {
    |a.sends| == |a.replies| + 1 && r == Request(first + |a.replies|, a.sends[|a.replies|].1)
  }

  /** Only the last send can be without its reply, and then its thread has the socket. */
  ghost predicate WaitsForLast(c: Connection, first: nat, a: Account) {
    match Awaited(c)
    case None => |c.log| == |a.replies| == |a.sends|
    case Some(tag) =>
      |c.log| + 1 == |a.sends| && |c.log| <= |a.replies| <= |a.sends| && tag == first + |c.log| &&
      c.sendOwner == Some(a.sends[|c.log|].0)
  }

  /** The sends that have returned are the first ones, each with the reply to it. */
  ghost predicate LogIs(log: seq<Completion>, first: nat, a: Account) {
    |log| <= |a.sends| && |log| <= |a.replies| &&
    forall i :: 0 <= i < |log| ==> log[i] == Completion(a.sends[i].0, first + i, Response(first + i, a.replies[i]))
  }

  ghost predicate Accounted(c: Connection, first: nat, a: Account) {
    RequestsAre(c, first, a) && WaitsForLast(c, first, a) && LogIs(c.log, first, a) && c.pushed == a.pushed
  }

  lemma TransmitAccounts(c: Connection, first: nat, a: Account, t: Tid, body: Body)
    requires Invariant(c) && Accounted(c, first, a) && Enabled(c, Transmit(t, body))
    ensures Accounted(Apply(c, Transmit(t, body)), first, Add(a, Transmit(t, body)))
  {
    assert Awaited(c) == None && Quiet(c);
    hide NoLostWakeUp, Authentic, Paired, NoReply;
  }

  lemma ReplyAccounts(c: Connection, first: nat, a: Account, body: Body)
    requires Invariant(c) && Accounted(c, first, a) && Enabled(c, ServerReply(body))
    ensures Accounted(Apply(c, ServerReply(body)), first, Add(a, ServerReply(body)))
  {
    BusyIsAwaited(c);
    hide Invariant, NoReply;
  }

  lemma CheckAccounts(c: Connection, first: nat, a: Account, t: Tid)
    requires Invariant(c) && Accounted(c, first, a) && Enabled(c, Check(t))
    ensures Accounted(Apply(c, Check(t)), first, Add(a, Check(t)))
  {
    OnlyOwnerAwaits(c, t);
    if |c.responses| > 0 {
      CheckPairs(c, t);
      hide Invariant;
    } else {
      hide Invariant;
    }
  }

  /** A step that neither sends, answers nor returns. */
  lemma OthersAccount(c: Connection, first: nat, a: Account, step: Step)
    requires Invariant(c) && Accounted(c, first, a) && Enabled(c, step)
    requires !step.Transmit? && !step.ServerReply? && !step.Check?
    ensures Accounted(Apply(c, step), first, Add(a, step))
  {
    StillOwned(c, step);
    RequestsStay(c, first, a, step);
    OthersKeepLog(c, step);
    hide Invariant, Awaited, LogIs, RequestsAre, Enabled, Apply;
  }

  lemma OthersKeepLog(c: Connection, step: Step)
    requires Enabled(c, step) && !step.Check?
    ensures Apply(c, step).log == c.log
    ensures Apply(c, step).pushed == c.pushed + if step.ServerPush? then [step.body] else []
  {
  }

  lemma RequestsFrame(c: Connection, c': Connection, first: nat, a: Account, a': Account)
    requires RequestsAre(c, first, a) && c'.next == c.next && c'.answers == c.answers
    requires a'.sends == a.sends && a'.replies == a.replies
    requires forall r :: r in c'.toServer ==> r in c.toServer
    requires c'.busy.Some? ==> c'.busy == c.busy || c'.busy.value in c.toServer
    ensures RequestsAre(c', first, a')
  {
  }

  lemma RequestsStay(c: Connection, first: nat, a: Account, step: Step)
    requires RequestsAre(c, first, a) && Enabled(c, step)
    requires !step.Transmit? && !step.ServerReply? && !step.Check?
    ensures RequestsAre(Apply(c, step), first, Add(a, step))
  {
    hide RequestsAre;
    if step.ServerRecv? {
      assert c.toServer[0] in c.toServer;
    }
    RequestsFrame(c, Apply(c, step), first, a, Add(a, step));
  }

  lemma StillOwned(c: Connection, step: Step)
    requires Locks(c) && Enabled(c, step) && !step.Transmit? && !step.ServerReply? && !step.Check?
    ensures Awaited(Apply(c, step)) == Awaited(c)
    ensures Awaited(c).Some? ==> Apply(c, step).sendOwner == c.sendOwner
  {
  }

  lemma StepAccounts(c: Connection, first: nat, a: Account, step: Step)
    requires Invariant(c) && Accounted(c, first, a) && Enabled(c, step)
    ensures Accounted(Apply(c, step), first, Add(a, step))
  {
    hide *;
    match step
    case Transmit(t, body) => TransmitAccounts(c, first, a, t, body);
    case ServerReply(body) => ReplyAccounts(c, first, a, body);
    case Check(t) => CheckAccounts(c, first, a, t);
    case _ => OthersAccount(c, first, a, step);
  }

  /** The account after some more steps. */
  function AddAll(a: Account, steps: seq<Step>): Account {
    Account(a.sends + SendsIn(steps), a.replies + RepliesIn(steps), a.pushed + EventsIn(steps))
  }

  lemma AddFirst(a: Account, steps: seq<Step>)
    requires steps != []
    ensures AddAll(a, steps) == AddAll(Add(a, steps[0]), steps[1..])
  {
    var step, rest := steps[0], steps[1..];
    Assoc(a.sends, if step.Transmit? then [(step.t, step.body)] else [], SendsIn(rest));
    Assoc(a.replies, if step.ServerReply? then [step.body] else [], RepliesIn(rest));
    Assoc(a.pushed, if step.ServerPush? then [step.body] else [], EventsIn(rest));
    AddIs(a, step);
    hide Add;
  }

  lemma AddIs(a: Account, step: Step)
    ensures Add(a, step)
            == Account(a.sends + (if step.Transmit? then [(step.t, step.body)] else []),
                       a.replies + (if step.ServerReply? then [step.body] else []),
                       a.pushed + (if step.ServerPush? then [step.body] else []))
  {
    assert a.sends + [] == a.sends && a.replies + [] == a.replies && a.pushed + [] == a.pushed;
  }

  lemma Assoc<T>(a: seq<T>, b: seq<T>, c: seq<T>)
    ensures a + (b + c) == (a + b) + c
  {
  }

  lemma {:induction false} RunAccounts(c: Connection, first: nat, a: Account, steps: seq<Step>)
    requires Invariant(c) && Accounted(c, first, a) && Legal(c, steps)
    ensures Accounted(Run(c, steps), first, AddAll(a, steps))
    decreases |steps|
  {
    if steps == [] {
      assert AddAll(a, steps) == a;
      hide Accounted;
    } else {
      StepAccounts(c, first, a, steps[0]);
      StepKeeps(c, steps[0]);
      AddFirst(a, steps);
      hide Invariant, Accounted, Enabled, Apply, Add, AddAll;
      RunAccounts(Apply(c, steps[0]), first, Add(a, steps[0]), steps[1..]);
    }
  }

  lemma OpenedIsAccounted(threads: set<Tid>, first: nat)
    ensures Accounted(Opened(threads, first, []), first, Account([], [], []))
  {
  }

  lemma AccountMeans(c: Connection, first: nat, a: Account)
    requires Accounted(c, first, a)
    ensures |c.log| <= |a.replies| <= |a.sends| <= |c.log| + 1
    ensures forall i :: 0 <= i < |c.log| ==>
              c.log[i].thread == a.sends[i].0 && c.log[i].reply == Response(c.log[i].tag, a.replies[i])
    ensures forall r :: r in c.toServer || c.busy == Some(r) ==>
              |a.replies| < |a.sends| && r.body == a.sends[|a.replies|].1
    ensures c.pushed == a.pushed
  {
    hide Awaited;
  }

  /** In every interleaving: the sends that have returned are the first ones made, in order, each to
      the thread that made it with the reply that the server gave to it, and at most one other is
      under way; the server is never handed anything but the first request that it has not answered,
      as it was sent; and what it has pushed is what the steps say. */
  lemma SendsAreAnswered(threads: set<Tid>, first: nat, steps: seq<Step>)
    requires Legal(Opened(threads, first, []), steps)
    ensures var c := Run(Opened(threads, first, []), steps);
            var sends, replies := SendsIn(steps), RepliesIn(steps);
            |c.log| <= |replies| <= |sends| <= |c.log| + 1 &&
            (forall i :: 0 <= i < |c.log| ==>
               c.log[i].thread == sends[i].0 && c.log[i].reply == Response(c.log[i].tag, replies[i])) &&
            (forall r :: r in c.toServer || c.busy == Some(r) ==>
               |replies| < |sends| && r.body == sends[|replies|].1) &&
            c.pushed == EventsIn(steps)
  {
    var c, a := Opened(threads, first, []), AddAll(Account([], [], []), steps);
    OpenedIsInvariant(threads, first);
    OpenedIsAccounted(threads, first);
    hide *;
    RunAccounts(c, first, Account([], [], []), steps);
    AccountMeans(Run(c, steps), first, a);
    NothingBefore(steps);
  }

  lemma NothingBefore(steps: seq<Step>)
    ensures AddAll(Account([], [], []), steps) == Account(SendsIn(steps), RepliesIn(steps), EventsIn(steps))
  {
    hide SendsIn, RepliesIn, EventsIn;
  }

  /** So whenever the server answers, it is the next request in order that it answers, and it has
      received it as it was sent. */
  lemma AnsweredAsSent(threads: set<Tid>, first: nat, steps: seq<Step>, reply: Body)
    requires Legal(Opened(threads, first, []), steps)
    requires Enabled(Run(Opened(threads, first, []), steps), ServerReply(reply))
    ensures var c, n := Run(Opened(threads, first, []), steps), |RepliesIn(steps)|;
            n < |SendsIn(steps)| && c.busy.Some? && c.busy.value.body == SendsIn(steps)[n].1
  {
    SendsAreAnswered(threads, first, steps);
    var c := Run(Opened(threads, first, []), steps);
    assert c.busy == Some(c.busy.value);
    hide Run, Legal, SendsIn, RepliesIn, EventsIn;
  }

  // ------------------------------------------------------- the order of events

  /** Between its turns the handler has handled what was filed first, and the vector holds the rest;
      during a turn nothing is filed. */
  ghost predicate Queued(c: Connection) {
    && |c.handled| + |c.events| == |c.filed|
    && (!c.handling ==> c.events == c.filed[|c.handled|..])
  }

  lemma StepQueues(c: Connection, step: Step)
    requires Queued(c) && Enabled(c, step) && !(step.HandlerEnd? || step.HandlerPop?)
    ensures Queued(Apply(c, step))
  {
    if step.File? && c.inHand.value.Event? {
      var body := c.inHand.value.body;
      assert (c.filed + [body])[|c.handled|..] == c.filed[|c.handled|..] + [body];
    }
  }

  lemma TurnQueues(c: Connection, step: Step)
    requires Queued(c) && Enabled(c, step) && (step.HandlerEnd? || step.HandlerPop?)
    ensures Queued(Apply(c, step))
  {
  }

  lemma {:induction false} RunQueues(c: Connection, steps: seq<Step>)
    requires Queued(c) && Legal(c, steps)
    ensures Queued(Run(c, steps))
    decreases |steps|
  {
    if steps != [] {
      if steps[0].HandlerEnd? || steps[0].HandlerPop? {
        TurnQueues(c, steps[0]);
      } else {
        StepQueues(c, steps[0]);
      }
      hide Queued, Enabled, Apply;
      RunQueues(Apply(c, steps[0]), steps[1..]);
    }
  }

  lemma StepInTurn(c: Connection, step: Step)
    requires c.handling && Enabled(c, step) && !step.HandlerEnd?
    ensures var t := Apply(c, step);
            t.handling && t.handled + Lists.Reverse(t.events) == c.handled + Lists.Reverse(c.events)
  {
  }

  /** From within a turn on: what is in the vector is handled from its end. */
  lemma {:induction false} RestOfTurn(c: Connection, steps: seq<Step>)
    requires c.handling && Legal(c, steps + [HandlerEnd]) && HandlerEnd !in steps
    ensures Run(c, steps + [HandlerEnd]).handled == c.handled + Lists.Reverse(c.events)
    ensures !Run(c, steps + [HandlerEnd]).handling
    decreases |steps|
  {
    if steps == [] {
      assert [HandlerEnd][1..] == [] && steps + [HandlerEnd] == [HandlerEnd];
      assert Run(c, [HandlerEnd]) == Run(Apply(c, HandlerEnd), []);
      assert c.handled + [] == c.handled;
    } else {
      StepInTurn(c, steps[0]);
      hide Enabled, Apply;
      assert (steps + [HandlerEnd])[0] == steps[0] && (steps + [HandlerEnd])[1..] == steps[1..] + [HandlerEnd];
      RestOfTurn(Apply(c, steps[0]), steps[1..]);
    }
  }

  /** Whenever the handler takes a turn, whatever else happens meanwhile: it handles exactly the events
      filed since its last turn, newest first. */
  lemma TurnsReverse(threads: set<Tid>, first: nat, stale: seq<Message>, before: seq<Step>, during: seq<Step>)
    requires Legal(Opened(threads, first, stale), before)
    requires var c := Run(Opened(threads, first, stale), before);
             Enabled(c, HandlerStart) && Legal(Apply(c, HandlerStart), during + [HandlerEnd])
    requires HandlerEnd !in during
    ensures var c := Run(Opened(threads, first, stale), before);
            |c.handled| <= |c.filed| &&
            Run(Apply(c, HandlerStart), during + [HandlerEnd]).handled
            == c.handled + Lists.Reverse(c.filed[|c.handled|..])
  {
    var c := Run(Opened(threads, first, stale), before);
    RunQueues(Opened(threads, first, stale), before);
    hide Run, Legal, Lists.Reverse;
    RestOfTurn(Apply(c, HandlerStart), during);
  }
}
