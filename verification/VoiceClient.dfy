/** The voice part of the client's store: `voiceReducer` and the events that feed it. The call logs
    that the same reducer keeps are not modelled. */
module VoiceClient {
  import Lists
  import opened Options
  import opened VoiceServer

  datatype Client = Client(
    channelId: Option<ChannelId>,
    voiceStates: map<UserId, WireState>,
    activeCalls: seq<ChannelId>,
    muted: bool,
    deafen: bool)

  const INITIAL_STATE: Client := Client(None, map[], [], false, false)

  /** CALL_FULFILLED. */
  function CallFulfilled(st: Client, channelId: ChannelId, voiceStates: map<UserId, WireState>): Client {
    st.(activeCalls := st.activeCalls + [channelId], voiceStates := voiceStates, channelId := Some(channelId))
  }

  /** JOIN_CALL_FULFILLED. */
  function JoinCallFulfilled(st: Client, channelId: ChannelId, voiceStates: map<UserId, WireState>): Client {
    st.(voiceStates := voiceStates, channelId := Some(channelId))
  }

  predicate AnyoneConnected(voiceStates: map<UserId, WireState>) {
    exists u :: u in voiceStates && voiceStates[u].kind == Connected
  }

  /** LEAVE_CALL_FULFILLED and CLEAR_CURRENT_CALL: the client decides by itself whether the call
      it leaves has ended. */
  function ClearCurrentCall(st: Client): Client {
    st.(voiceStates := map[], channelId := None,
        activeCalls := if !AnyoneConnected(st.voiceStates) && st.channelId.Some?
                       then Lists.Without(st.activeCalls, st.channelId.value) else st.activeCalls)
  }

  /** UPDATE_VOICE_STATE. */
  function UpdateVoiceState(st: Client, user: UserId, state: WireState): Client {
    st.(voiceStates := st.voiceStates[user := state])
  }

  /** SET_VOICE_STATE_FULFILLED. */
  function SetVoiceStateFulfilled(st: Client, muted: bool, deafen: bool): Client {
    st.(muted := muted, deafen := deafen)
  }

  /** ADD_INCOMING_CALL and SET_ACTIVE_CALL_IN_CHANNEL. */
  function AddActiveCall(st: Client, channelId: ChannelId): Client {
    st.(activeCalls := st.activeCalls + [channelId])
  }

  /** REMOVE_ACTIVE_CALL. */
  function RemoveActiveCall(st: Client, channelId: ChannelId): Client {
    st.(activeCalls := Lists.Without(st.activeCalls, channelId))
  }

  /** `voiceStateEvent`, `callEndedEvent`, `incomingCallEvent`. */
  function HandleEvent(st: Client, event: Event): Client {
    match event
    case VoiceStateChanged(user, state) => UpdateVoiceState(st, user, state)
    case CallEnded(channelId) => RemoveActiveCall(st, channelId)
    case IncomingCall(_, channelId) => AddActiveCall(st, channelId)
  }

  /** What reaches one user of a sequence of broadcasts, handled one at a time and in order. */
  function Receive(st: Client, user: UserId, sent: seq<Broadcast>): Client
    decreases |sent|
  {
    if sent == [] then st
    else
      Receive(if user in sent[0].targets then HandleEvent(st, sent[0].event) else st, user, sent[1..])
  }

  function ReceiveAll(clients: map<UserId, Client>, sent: seq<Broadcast>): map<UserId, Client> {
    map u | u in clients :: Receive(clients[u], u, sent)
  }

  lemma {:induction false} ReceiveAppend(st: Client, user: UserId, a: seq<Broadcast>, b: seq<Broadcast>)
    ensures Receive(st, user, a + b) == Receive(Receive(st, user, a), user, b)
    decreases |a|
  {
    if a == [] {
      assert a + b == b;
    } else {
      var st' := if user in a[0].targets then HandleEvent(st, a[0].event) else st;
      ReceiveAppend(st', user, a[1..], b);
      assert (a + b)[1..] == a[1..] + b;
    }
  }
}
