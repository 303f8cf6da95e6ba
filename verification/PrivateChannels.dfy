/** Private channels: two tables and a query that together stand in for a map from unordered pairs
    of users to channels. */
module PrivateChannels {
  import Lists

  type UserId = string
  type ChannelId = string

  /** `channels` by id with `is_private`, and the rows of `channel_members`. */
  datatype Tables = Tables(users: set<UserId>, channels: map<ChannelId, bool>, members: set<(ChannelId, UserId)>)

  function MembersOf(t: Tables, c: ChannelId): set<UserId> {
    set m | m in t.members && m.0 == c :: m.1
  }

  /** The procedure `get_private_channel`: the private channels with two member rows among the rows
      for the two given users. */
  function PrivateChannel(t: Tables, u: UserId, v: UserId): set<ChannelId> {
    set c | c in t.channels && t.channels[c] && |MembersOf(t, c) * {u, v}| == 2
  }

  datatype Error = NotAuthenticated | SelfPrivateChannel | UserNotFound | ChannelNotFound | AlreadyMember

  datatype Result<T> = Ok(value: T) | Err(error: Error)

  function Created(t: Tables, c: ChannelId, u: UserId, v: UserId): Tables {
    t.(channels := t.channels[c := true], members := t.members + {(c, u), (c, v)})
  }

  /** What a lookup may do: `id` is the new channel's UUID, should one be made; of several channels
      found it may return any. */
  ghost predicate Looks(t: Tables, authenticated: bool, u: UserId, v: UserId, id: ChannelId, t': Tables,
                        r: Result<ChannelId>) {
    if !authenticated then t' == t && r == Err(NotAuthenticated)
    else if u == v then t' == t && r == Err(SelfPrivateChannel)
    else if v !in t.users then t' == t && r == Err(UserNotFound)
    else if PrivateChannel(t, u, v) == {} then t' == Created(t, id, u, v) && r == Ok(id)
    else t' == t && r.Ok? && r.value in PrivateChannel(t, u, v)
  }

  class ChannelManager {
    var users: set<UserId>
    var channels: map<ChannelId, bool>
    var members: set<(ChannelId, UserId)>

    ghost function Contents(): Tables
      reads this
    {
      Tables(users, channels, members)
    }

    constructor ()
      ensures Contents() == Tables({}, map[], {})
    {
      users, channels, members := {}, map[], {};
    }

    method CreateChannel(id: ChannelId, isPrivate: bool)
      modifies this`channels
      ensures channels == old(channels)[id := isPrivate]
    {
      channels := channels[id := isPrivate];
    }

    method AddMemberToChannel(channel: ChannelId, member: UserId) returns (r: Result<()>)
      modifies this`members
      ensures r == if channel !in channels then Err(ChannelNotFound)
                   else if (channel, member) in old(members) then Err(AlreadyMember) else Ok(())
      ensures members == if r.Ok? then old(members) + {(channel, member)} else old(members)
    {
      if channel !in channels {
        return Err(ChannelNotFound);
      }
      if (channel, member) in members {
        return Err(AlreadyMember);
      }
      members := members + {(channel, member)};
      return Ok(());
    }

    /** Neither member is refused by a new channel: a channel is never left half made. */
    method GetPrivateChannel(authenticated: bool, user: UserId, other: UserId, id: ChannelId)
      returns (r: Result<ChannelId>)
      requires Consistent(Contents()) && id !in channels
      modifies this`channels, this`members
      ensures Looks(old(Contents()), authenticated, user, other, id, Contents(), r)
    {
      if !authenticated {
        return Err(NotAuthenticated);
      }
      if user == other {
        return Err(SelfPrivateChannel);
      }
      if other !in users {
        return Err(UserNotFound);
      }
      var found := PrivateChannel(Tables(users, channels, members), user, other);
      if found == {} {
        assert (id, user) !in members && (id, other) !in members;
        CreateChannel(id, true);
        var first := AddMemberToChannel(id, user);
        var second := AddMemberToChannel(id, other);
        assert first.Ok? && second.Ok?;
        assert members == old(members) + {(id, user), (id, other)};
        return Ok(id);
      } else {
        var c :| c in found;
        return Ok(c);
      }
    }
  }

  // ------------------------------------------------------------ the invariant

  /** Foreign keys hold, every channel is private with two members, and no two have the same. */
  ghost predicate Consistent(t: Tables) {
    && (forall m :: m in t.members ==> m.0 in t.channels)
    && (forall c :: c in t.channels ==> t.channels[c] && IsPair(MembersOf(t, c)))
    && (forall c, d :: c in t.channels && d in t.channels && c != d ==> MembersOf(t, c) != MembersOf(t, d))
  }

  ghost predicate IsPair(s: set<UserId>) { exists u, v :: u != v && s == {u, v} }

  lemma TwoOf(s: set<UserId>, u: UserId, v: UserId)
    requires IsPair(s)
    ensures |s * {u, v}| == 2 <==> u != v && s == {u, v}
  {
    var x, y :| x != y && s == {x, y};
    assert |{x, y}| == 2;
    if u != v && s == {u, v} {
      assert s * {u, v} == s;
    } else if |s * {u, v}| == 2 {
      Lists.SubsetSize(s * {u, v}, s);
      Lists.SubsetSize(s * {u, v}, {u, v});
    }
  }

  /** The query finds the channels whose members are exactly the two users. */
  lemma QueryIs(t: Tables, u: UserId, v: UserId)
    requires Consistent(t)
    ensures forall c :: c in PrivateChannel(t, u, v) <==> c in t.channels && u != v && MembersOf(t, c) == {u, v}
  {
    forall c | c in t.channels ensures |MembersOf(t, c) * {u, v}| == 2 <==> u != v && MembersOf(t, c) == {u, v} {
      TwoOf(MembersOf(t, c), u, v);
    }
  }

  lemma MembersCreated(t: Tables, id: ChannelId, u: UserId, v: UserId, c: ChannelId)
    requires Consistent(t) && id !in t.channels
    ensures MembersOf(Created(t, id, u, v), c) == if c == id then {u, v} else MembersOf(t, c)
  {
    var t' := Created(t, id, u, v);
    if c == id {
      assert (id, u) in t'.members && (id, v) in t'.members;
    } else {
      forall x | x in MembersOf(t, c) ensures x in MembersOf(t', c) {
        assert (c, x) in t'.members;
      }
    }
  }

  lemma CreatedPairs(t: Tables, u: UserId, v: UserId, id: ChannelId, c: ChannelId)
    requires Consistent(t) && id !in t.channels && u != v && c in Created(t, id, u, v).channels
    ensures Created(t, id, u, v).channels[c] && IsPair(MembersOf(Created(t, id, u, v), c))
  {
    MembersCreated(t, id, u, v, c);
    hide MembersOf;
    if c != id {
      assert IsPair(MembersOf(t, c));
    }
  }

  lemma CreatedDistinct(t: Tables, u: UserId, v: UserId, id: ChannelId, c: ChannelId, d: ChannelId)
    requires Consistent(t) && id !in t.channels && u != v && PrivateChannel(t, u, v) == {}
    requires c in Created(t, id, u, v).channels && d in Created(t, id, u, v).channels && c != d
    ensures MembersOf(Created(t, id, u, v), c) != MembersOf(Created(t, id, u, v), d)
  {
    MembersCreated(t, id, u, v, c);
    MembersCreated(t, id, u, v, d);
    QueryIs(t, u, v);
    hide MembersOf, IsPair, PrivateChannel;
    if c == id {
      assert d !in PrivateChannel(t, u, v);
    } else if d == id {
      assert c !in PrivateChannel(t, u, v);
    }
  }

  lemma CreatedKeeps(t: Tables, u: UserId, v: UserId, id: ChannelId)
    requires Consistent(t) && id !in t.channels && u != v && PrivateChannel(t, u, v) == {}
    ensures Consistent(Created(t, id, u, v))
  {
    var t' := Created(t, id, u, v);
    hide MembersOf, IsPair, PrivateChannel;
    forall c | c in t'.channels ensures t'.channels[c] && IsPair(MembersOf(t', c)) {
      CreatedPairs(t, u, v, id, c);
    }
    forall c, d | c in t'.channels && d in t'.channels && c != d ensures MembersOf(t', c) != MembersOf(t', d) {
      CreatedDistinct(t, u, v, id, c, d);
    }
  }

  lemma LookKeeps(t: Tables, authenticated: bool, u: UserId, v: UserId, id: ChannelId, t': Tables, r: Result<ChannelId>)
    requires Consistent(t) && id !in t.channels && Looks(t, authenticated, u, v, id, t', r)
    ensures Consistent(t') && t.channels.Keys <= t'.channels.Keys
    ensures forall c :: c in t.channels ==> MembersOf(t', c) == MembersOf(t, c)
  {
    if t' != t {
      CreatedKeeps(t, u, v, id);
      hide PrivateChannel, Consistent;
      forall c | c in t.channels ensures MembersOf(t', c) == MembersOf(t, c) {
        MembersCreated(t, id, u, v, c);
      }
    }
  }

  /** Every answer to a lookup. It is given exactly when a session that is authenticated asks for another
      registered user, and gives the private channel whose members are the two, a new one if there
      was none; a refusal changes nothing. */
  lemma LookAnswers(t: Tables, authenticated: bool, u: UserId, v: UserId, id: ChannelId, t': Tables,
                    r: Result<ChannelId>)
    requires Consistent(t) && id !in t.channels && Looks(t, authenticated, u, v, id, t', r)
    ensures r == Err(NotAuthenticated) <==> !authenticated
    ensures r == Err(SelfPrivateChannel) <==> authenticated && u == v
    ensures r == Err(UserNotFound) <==> authenticated && u != v && v !in t.users
    ensures r.Ok? <==> authenticated && u != v && v in t.users
    ensures r.Ok? ==> r.value in t'.channels && t'.channels[r.value] && MembersOf(t', r.value) == {u, v}
    ensures r.Ok? && (exists c :: c in t.channels && MembersOf(t, c) == {u, v}) ==> t' == t
    ensures r.Ok? && !(exists c :: c in t.channels && MembersOf(t, c) == {u, v}) ==>
              r.value == id && t'.channels.Keys == t.channels.Keys + {id}
    ensures !r.Ok? ==> t' == t
  {
    QueryIs(t, u, v);
    if t' != t {
      MembersCreated(t, id, u, v, id);
    }
    hide MembersOf, IsPair;
  }

  /** At most one channel for two users, in either order, and none for one user twice. */
  lemma PairsMapToChannels(t: Tables, u: UserId, v: UserId)
    requires Consistent(t)
    ensures PrivateChannel(t, u, v) == PrivateChannel(t, v, u)
    ensures forall c, d :: c in PrivateChannel(t, u, v) && d in PrivateChannel(t, u, v) ==> c == d
    ensures PrivateChannel(t, u, u) == {}
  {
    QueryIs(t, u, v);
    QueryIs(t, v, u);
    QueryIs(t, u, u);
    assert {u, v} == {v, u};
    hide PrivateChannel, MembersOf;
  }

  /** Different pairs never share a channel. */
  lemma PairsDoNotShare(t: Tables, u: UserId, v: UserId, x: UserId, y: UserId, c: ChannelId)
    requires Consistent(t) && c in PrivateChannel(t, u, v) && c in PrivateChannel(t, x, y)
    ensures (u == x && v == y) || (u == y && v == x)
  {
    QueryIs(t, u, v);
    QueryIs(t, x, y);
    assert {u, v} == {x, y};
    assert u in {x, y} && v in {x, y} && x in {u, v};
  }

  // ------------------------------------------------------------------- runs

  datatype Step =
    | Register(user: UserId)
    | Look(authenticated: bool, user: UserId, other: UserId, id: ChannelId, result: Result<ChannelId>)

  /** UUIDs are fresh, and a session is authenticated as a registered user. */
  ghost predicate Next(t: Tables, step: Step, t': Tables) {
    match step
    case Register(u) => t' == t.(users := t.users + {u})
    case Look(authenticated, u, v, id, r) =>
      id !in t.channels && (authenticated ==> u in t.users) && Looks(t, authenticated, u, v, id, t', r)
  }

  ghost predicate IsRun(states: seq<Tables>, steps: seq<Step>) {
    |states| == |steps| + 1 && forall i :: 0 <= i < |steps| ==> Next(states[i], steps[i], states[i + 1])
  }

  lemma NextKeeps(t: Tables, step: Step, t': Tables)
    requires Consistent(t) && Next(t, step, t')
    ensures Consistent(t') && t.channels.Keys <= t'.channels.Keys && t.users <= t'.users
    ensures forall c :: c in t.channels ==> MembersOf(t', c) == MembersOf(t, c)
  {
    match step
    case Register(u) => assert forall c :: MembersOf(t', c) == MembersOf(t, c);
    case Look(authenticated, u, v, id, r) => LookKeeps(t, authenticated, u, v, id, t', r);
  }

  lemma {:induction false} RunKeeps(states: seq<Tables>, steps: seq<Step>, i: nat, j: nat)
    requires IsRun(states, steps) && Consistent(states[0]) && i <= j < |states|
    ensures Consistent(states[i]) && Consistent(states[j])
    ensures states[i].channels.Keys <= states[j].channels.Keys
    ensures forall c :: c in states[i].channels ==> MembersOf(states[j], c) == MembersOf(states[i], c)
    decreases j
  {
    hide MembersOf, Consistent, Next;
    if j > 0 {
      RunKeeps(states, steps, if i < j then i else j - 1, j - 1);
      assert Next(states[j - 1], steps[j - 1], states[j]);
      NextKeeps(states[j - 1], steps[j - 1], states[j]);
    }
  }

  /** Once two users have been given a channel, every later lookup by either of them, after any
      registrations and lookups by anybody, gives the same one. */
  lemma LookupsAreStable(states: seq<Tables>, steps: seq<Step>, i: nat, j: nat)
    requires IsRun(states, steps) && Consistent(states[0]) && i < j < |steps|
    requires steps[i].Look? && steps[i].result.Ok? && steps[j].Look? && steps[j].authenticated
    requires (steps[j].user == steps[i].user && steps[j].other == steps[i].other) ||
             (steps[j].user == steps[i].other && steps[j].other == steps[i].user)
    ensures steps[j].result == steps[i].result
  {
    var u, v, c := steps[i].user, steps[i].other, steps[i].result.value;
    RunKeeps(states, steps, i, i + 1);
    RunKeeps(states, steps, i + 1, j);
    UsersStay(states, steps, i, j);
    FoundAfterLook(states[i], steps[i], states[i + 1]);
    QueryIs(states[i + 1], u, v);
    QueryIs(states[j], u, v);
    assert c in PrivateChannel(states[j], u, v);
    PairsMapToChannels(states[j], u, v);
    assert Next(states[j], steps[j], states[j + 1]);
    hide PrivateChannel, MembersOf, Consistent;
  }

  lemma {:induction false} UsersStay(states: seq<Tables>, steps: seq<Step>, i: nat, j: nat)
    requires IsRun(states, steps) && i <= j < |states|
    ensures states[i].users <= states[j].users
    decreases j - i
  {
    if i < j {
      assert Next(states[i], steps[i], states[i + 1]);
      UsersStay(states, steps, i + 1, j);
    }
  }

  /** A lookup that succeeds leaves its channel to be found. */
  lemma FoundAfterLook(t: Tables, step: Step, t': Tables)
    requires Consistent(t) && Next(t, step, t') && step.Look? && step.result.Ok?
    ensures step.user != step.other && {step.user, step.other} <= t.users
    ensures step.result.value in PrivateChannel(t', step.user, step.other)
  {
    var u, v, id := step.user, step.other, step.id;
    if PrivateChannel(t, u, v) == {} {
      LookKeeps(t, step.authenticated, u, v, id, t', step.result);
      MembersCreated(t, id, u, v, id);
      QueryIs(t', u, v);
    }
  }

  // -------------------------------------------------- what a run has brought

  const EMPTY: Tables := Tables({}, map[], {})

  ghost predicate Registered(steps: seq<Step>, k: nat, u: UserId)
    requires k <= |steps|
  {
    exists i :: 0 <= i < k && steps[i] == Register(u)
  }

  /** One of the two asks for the other. */
  predicate Asks(step: Step, u: UserId, v: UserId) {
    step.Look? && step.authenticated &&
    ((step.user == u && step.other == v) || (step.user == v && step.other == u))
  }

  /** Some lookup by one of the two for the other, who was registered by then. */
  ghost predicate HaveMet(steps: seq<Step>, k: nat, u: UserId, v: UserId)
    requires k <= |steps|
  {
    exists i :: 0 <= i < k && Asks(steps[i], u, v) && Registered(steps, i, steps[i].other)
  }

  ghost predicate Share(t: Tables, u: UserId, v: UserId) { exists c :: c in t.channels && MembersOf(t, c) == {u, v} }

  lemma {:induction false} UsersAre(states: seq<Tables>, steps: seq<Step>, k: nat, u: UserId)
    requires IsRun(states, steps) && states[0] == EMPTY && k < |states|
    ensures u in states[k].users <==> Registered(steps, k, u)
    decreases k
  {
    if k > 0 {
      UsersAre(states, steps, k - 1, u);
      assert Next(states[k - 1], steps[k - 1], states[k]);
    }
    hide PrivateChannel, MembersOf;
  }

  /** What a step does to two users' channel. */
  lemma StepShares(t: Tables, step: Step, t': Tables, u: UserId, v: UserId)
    requires Consistent(t) && Next(t, step, t') && u != v
    ensures Share(t', u, v) <==> Share(t, u, v) || (Asks(step, u, v) && step.other in t.users)
  {
    NextKeeps(t, step, t');
    assert Share(t, u, v) ==> Share(t', u, v);
    hide Consistent, PrivateChannel, Looks;
    if step.Look? {
      hide MembersOf;
      LookShares(t, step, t', u, v);
    } else {
      assert forall c :: MembersOf(t', c) == MembersOf(t, c);
    }
  }

  lemma LookShares(t: Tables, step: Step, t': Tables, u: UserId, v: UserId)
    requires Consistent(t) && Next(t, step, t') && step.Look? && u != v
    requires Share(t, u, v) ==> Share(t', u, v)
    requires forall c :: c in t.channels ==> MembersOf(t', c) == MembersOf(t, c)
    ensures Share(t', u, v) <==> Share(t, u, v) || (Asks(step, u, v) && step.other in t.users)
  {
    var x, y, r := step.user, step.other, step.result;
    LookAnswers(t, step.authenticated, x, y, step.id, t', r);
    hide MembersOf, Consistent, PrivateChannel, Looks;
    if r.Ok? {
      OnlyOne(x, y, u, v);
      assert MembersOf(t', r.value) == {x, y};
    }
  }

  lemma OnlyOne(x: UserId, y: UserId, u: UserId, v: UserId)
    requires x != y && u != v
    ensures {x, y} == {u, v} <==> (x == u && y == v) || (x == v && y == u)
  {
    if {x, y} == {u, v} {
      assert x in {u, v} && y in {u, v};
    }
  }

  /** Over every run from the start, two users share a channel exactly when one of them, in an
      authenticated session, has looked the other up, who was registered by then. */
  lemma {:induction false} ChannelsTellHistory(states: seq<Tables>, steps: seq<Step>, k: nat, u: UserId, v: UserId)
    requires IsRun(states, steps) && states[0] == EMPTY && k < |states| && u != v
    ensures Share(states[k], u, v) <==> HaveMet(steps, k, u, v)
    decreases k
  {
    if k > 0 {
      ChannelsTellHistory(states, steps, k - 1, u, v);
      assert Next(states[k - 1], steps[k - 1], states[k]);
      RunKeeps(states, steps, k - 1, k - 1);
      StepShares(states[k - 1], steps[k - 1], states[k], u, v);
      if Asks(steps[k - 1], u, v) {
        UsersAre(states, steps, k - 1, steps[k - 1].other);
      }
      hide Share, Registered, Next;
    }
  }
}
