/** The order in which the client handles a batch of events: from its end. */
module EventBatches {
  import Lists
  import opened Options
  import opened VoiceServer
  import opened VoiceClient

  function Handle(st: Client, events: seq<Event>): Client {
    if events == [] then st else HandleEvent(Handle(st, events[..|events| - 1]), events[|events| - 1])
  }

  lemma {:induction false} HandleFirst(st: Client, e: Event, events: seq<Event>)
    ensures Handle(st, [e] + events) == Handle(HandleEvent(st, e), events)
  {
    if events == [] {
      assert [e] + events == [e] && [e][..0] == [];
    } else {
      HandleFirst(st, e, events[..|events| - 1]);
      assert ([e] + events)[..|events|] == [e] + events[..|events| - 1];
    }
  }

  /** `events_handler`: a batch is taken from its end. */
  method HandleBatch(st: Client, batch: seq<Event>) returns (client: Client)
    ensures client == Handle(st, Lists.Reverse(batch))
  {
    var packets := batch;
    client := st;
    while packets != []
      invariant Handle(client, Lists.Reverse(packets)) == Handle(st, Lists.Reverse(batch))
      decreases |packets|
    {
      var n := |packets|;
      var event := packets[n - 1];
      HandleFirst(client, event, Lists.Reverse(packets[..n - 1]));
      packets := packets[..n - 1];
      client := HandleEvent(client, event);
    }
  }

  // ---------------------------------------- what a batch says of users and channels

  /** What an event decides: the state of a user, or whether a channel has a call. */
  datatype Subject = User(id: UserId) | Channel(id: ChannelId)

  datatype Verdict = State(state: WireState) | Active | Over

  predicate Concerns(e: Event, x: Subject) {
    match e
    case VoiceStateChanged(u, _) => x == User(u)
    case CallEnded(c) => x == Channel(c)
    case IncomingCall(_, c) => x == Channel(c)
  }

  function VerdictOf(e: Event): Verdict {
    match e
    case VoiceStateChanged(_, state) => State(state)
    case CallEnded(_) => Over
    case IncomingCall(_, _) => Active
  }

  function Newest(events: seq<Event>, x: Subject): Option<Verdict> {
    if events == [] then None
    else
      var last := events[|events| - 1];
      if Concerns(last, x) then Some(VerdictOf(last)) else Newest(events[..|events| - 1], x)
  }

  function Oldest(events: seq<Event>, x: Subject): Option<Verdict> {
    if events == [] then None
    else
      var last, older := events[|events| - 1], Oldest(events[..|events| - 1], x);
      if older == None && Concerns(last, x) then Some(VerdictOf(last)) else older
  }

  lemma {:induction false} NewestFirst(e: Event, events: seq<Event>, x: Subject)
    ensures Newest([e] + events, x) == if Newest(events, x).Some? then Newest(events, x) else Newest([e], x)
  {
    if events == [] {
      assert [e] + events == [e];
    } else {
      NewestFirst(e, events[..|events| - 1], x);
      assert ([e] + events)[..|events|] == [e] + events[..|events| - 1];
    }
  }

  lemma {:induction false} ReverseSwaps(events: seq<Event>, x: Subject)
    ensures Newest(Lists.Reverse(events), x) == Oldest(events, x)
  {
    if events != [] {
      var init, last := events[..|events| - 1], events[|events| - 1];
      ReverseSwaps(init, x);
      NewestFirst(last, Lists.Reverse(init), x);
      assert [last][..0] == [];
    }
  }

  lemma {:induction false} BothOrNone(events: seq<Event>, x: Subject)
    ensures Newest(events, x).Some? <==> Oldest(events, x).Some?
    ensures Newest(events, x).Some? ==> Fits(x, Newest(events, x).value) && Fits(x, Oldest(events, x).value)
  {
    if events != [] {
      BothOrNone(events[..|events| - 1], x);
    }
  }

  predicate Fits(x: Subject, v: Verdict) { x.User? <==> v.State? }

  // ---------------------------------------------------------------- the effect

  /** What a client shows of a subject. */
  function Shown(st: Client, x: Subject): Option<Verdict> {
    match x
    case User(u) => if u in st.voiceStates then Some(State(st.voiceStates[u])) else None
    case Channel(c) => Some(if c in st.activeCalls then Active else Over)
  }

  lemma OneEventIs(st: Client, e: Event, x: Subject)
    ensures var t := HandleEvent(st, e);
            Shown(t, x) == (if Concerns(e, x) then Some(VerdictOf(e)) else Shown(st, x)) &&
            t == st.(voiceStates := t.voiceStates, activeCalls := t.activeCalls)
  {
    if e.CallEnded? {
      Lists.WithoutIs(st.activeCalls, e.channelId);
    } else if e.IncomingCall? {
      Lists.AppendIs(st.activeCalls, e.channelId);
    }
  }

  /** Of every subject a client shows what the event handled last says. */
  lemma {:induction false} HandleIs(st: Client, events: seq<Event>, x: Subject)
    ensures var t := Handle(st, events);
            Shown(t, x) == (if Newest(events, x).Some? then Newest(events, x) else Shown(st, x)) &&
            t == st.(voiceStates := t.voiceStates, activeCalls := t.activeCalls)
  {
    if events != [] {
      HandleIs(st, events[..|events| - 1], x);
      OneEventIs(Handle(st, events[..|events| - 1]), events[|events| - 1], x);
      hide HandleEvent, Shown;
    }
  }

  /** Two clients are the same to their users: the list of calls is only ever searched. */
  ghost predicate LookAlike(a: Client, b: Client) {
    a == b.(activeCalls := a.activeCalls) && forall c :: c in a.activeCalls <==> c in b.activeCalls
  }

  /** The batch leaves the subject as it first has it, or does not concern it. */
  ghost predicate Settled(events: seq<Event>, x: Subject) { Oldest(events, x) == Newest(events, x) }

  lemma LookAlikeIs(a: Client, b: Client)
    requires a == b.(voiceStates := a.voiceStates, activeCalls := a.activeCalls)
    ensures LookAlike(a, b) <==> forall x :: Shown(a, x) == Shown(b, x)
  {
    if forall x :: Shown(a, x) == Shown(b, x) {
      forall u ensures (u in a.voiceStates <==> u in b.voiceStates) &&
                       (u in a.voiceStates ==> a.voiceStates[u] == b.voiceStates[u])
      {
        assert Shown(a, User(u)) == Shown(b, User(u));
      }
      forall c ensures c in a.activeCalls <==> c in b.activeCalls {
        assert Shown(a, Channel(c)) == Shown(b, Channel(c));
      }
      assert a.voiceStates == b.voiceStates;
    } else {
      var x :| Shown(a, x) != Shown(b, x);
      match x
      case User(u) =>
      case Channel(c) => assert !(c in a.activeCalls <==> c in b.activeCalls);
    }
  }

  /** Taking a batch of voice events from its end comes to the same as taking them in order exactly
      when the batch leaves every user in the state and every channel with or without a call as the
      batch first has them. */
  lemma ReversedBatchAgreesIff(st: Client, events: seq<Event>)
    ensures LookAlike(Handle(st, Lists.Reverse(events)), Handle(st, events)) <==> forall x :: Settled(events, x)
  {
    var a, b := Handle(st, Lists.Reverse(events)), Handle(st, events);
    forall x ensures Settled(events, x) <==> Shown(a, x) == Shown(b, x) {
      ReverseSwaps(events, x);
      BothOrNone(events, x);
      HandleIs(st, Lists.Reverse(events), x);
      HandleIs(st, events, x);
    }
    HandleIs(st, Lists.Reverse(events), User([]));
    HandleIs(st, events, User([]));
    LookAlikeIs(a, b);
    hide *;
  }

  /** A call that begins and ends within one batch stays listed after it has ended. */
  lemma CallWithinBatchStaysListed(st: Client, callId: CallId, c: ChannelId)
    requires c !in st.activeCalls
    ensures var events := [IncomingCall(callId, c), CallEnded(c)];
            c !in Handle(st, events).activeCalls && c in Handle(st, Lists.Reverse(events)).activeCalls
  {
    var events := [IncomingCall(callId, c), CallEnded(c)];
    assert events[..1] == [IncomingCall(callId, c)] && events[..1][..0] == [];
    HandleIs(st, events, Channel(c));
    ReverseSwaps(events, Channel(c));
    HandleIs(st, Lists.Reverse(events), Channel(c));
    assert Newest(events, Channel(c)) == Some(Over);
    assert Oldest(events[..1], Channel(c)) == Some(Active);
    assert Shown(Handle(st, events), Channel(c)) == Some(Over);
    hide Handle, Lists.Reverse;
  }
}
