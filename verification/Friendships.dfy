/** Friend requests and friendships: the server's table of ordered pairs, and the two lists that
    every online client keeps and patches by itself. The time at which a request was sent is not
    modelled. */
module Friendships {
  import opened Lists
  import opened Options

  type UserId = string

  /** A row of `friendships`. */
  datatype Row = Row(requester: UserId, recipient: UserId, approved: bool)

  predicate Links(r: Row, u: UserId, f: UserId) {
    (r.requester == u && r.recipient == f) || (r.requester == f && r.recipient == u)
  }

  /** The row between two users, whoever asked: what `fetchOne` yields. */
  function Link(rows: seq<Row>, u: UserId, f: UserId): Option<Row> {
    if rows == [] then None else if Links(rows[0], u, f) then Some(rows[0]) else Link(rows[1..], u, f)
  }

  function Delete(rows: seq<Row>, requester: UserId, recipient: UserId): seq<Row> {
    if rows == [] then []
    else
      (if rows[0].requester == requester && rows[0].recipient == recipient then [] else [rows[0]]) +
      Delete(rows[1..], requester, recipient)
  }

  function Approve(rows: seq<Row>, requester: UserId, recipient: UserId): seq<Row> {
    seq(|rows|, i requires 0 <= i < |rows| =>
      if rows[i].requester == requester && rows[i].recipient == recipient then rows[i].(approved := true) else rows[i])
  }

  datatype Status = Ok | UserNotFound | UnknownError | NotFriends | SelfApprove | AlreadyFriends | SelfFriendRequest

  datatype Event = FriendRequested(requesterId: UserId) | StatusChanged(friendId: UserId, status: bool)

  /** The new table, the answer, and the event triggered for the other user. */
  datatype Outcome = Outcome(rows: seq<Row>, status: Status, event: Option<Event>)

  /** That the two are linked already is reported as an unknown error: the handler that reports it
      is inside the block whose every exception is replaced by that one. */
  function SendRequest(rows: seq<Row>, users: set<UserId>, requester: UserId, recipient: UserId): Outcome {
    if recipient !in users then Outcome(rows, UserNotFound, None)
    else if Link(rows, requester, recipient).Some? then Outcome(rows, UnknownError, None)
    else Outcome(rows + [Row(requester, recipient, false)], Ok, Some(FriendRequested(requester)))
  }

  function SetStatus(rows: seq<Row>, users: set<UserId>, user: UserId, friend: UserId, status: bool): Outcome {
    if friend !in users then Outcome(rows, UserNotFound, None)
    else
      match Link(rows, user, friend)
      case None => Outcome(rows, NotFriends, None)
      case Some(row) =>
        if !status then
          Outcome(Delete(rows, row.requester, row.recipient), Ok, Some(StatusChanged(user, status)))
        else if row.requester == user && !row.approved then Outcome(rows, SelfApprove, None)
        else if row.approved then Outcome(rows, AlreadyFriends, None)
        else Outcome(Approve(rows, row.requester, row.recipient), Ok, Some(StatusChanged(user, status)))
  }

  lemma {:induction false} LinkExists(rows: seq<Row>, u: UserId, f: UserId)
    ensures Link(rows, u, f).Some? <==> exists r :: r in rows && Links(r, u, f)
  {
    if rows != [] {
      LinkExists(rows[1..], u, f);
      assert rows == [rows[0]] + rows[1..];
    }
  }

  /** Users who are linked already, by a request or as friends, are told of an unknown error, whatever
      else the table holds; nobody is ever told what the code means to tell them. */
  lemma LinkedIsUnknownError(rows: seq<Row>, users: set<UserId>, requester: UserId, recipient: UserId)
    ensures var status := SendRequest(rows, users, requester, recipient).status;
            (status == UnknownError
             <==> recipient in users && exists r :: r in rows && Links(r, requester, recipient)) &&
            status != AlreadyFriends
  {
    LinkExists(rows, requester, recipient);
    hide Link;
  }

  /** The packets refuse the user as their own friend before they ask the manager. */
  function SendRequestPacket(rows: seq<Row>, users: set<UserId>, user: UserId, friend: UserId): Outcome {
    if user == friend then Outcome(rows, SelfFriendRequest, None) else SendRequest(rows, users, user, friend)
  }

  function SetStatusPacket(rows: seq<Row>, users: set<UserId>, user: UserId, friend: UserId, status: bool): Outcome {
    if user == friend then Outcome(rows, SelfFriendRequest, None) else SetStatus(rows, users, user, friend, status)
  }

  /** Every answer to a request, whatever the table holds: it is made exactly when the two are different
      registered users between whom there is no row. */
  lemma SendAnswers(rows: seq<Row>, users: set<UserId>, requester: UserId, recipient: UserId)
    ensures var r := SendRequestPacket(rows, users, requester, recipient);
            var linked := exists x :: x in rows && Links(x, requester, recipient);
            (r.status == SelfFriendRequest <==> requester == recipient) &&
            (r.status == UserNotFound <==> requester != recipient && recipient !in users) &&
            (r.status == UnknownError <==> requester != recipient && recipient in users && linked) &&
            (r.status == Ok <==> requester != recipient && recipient in users && !linked) &&
            (r.status == Ok ==> r.rows == rows + [Row(requester, recipient, false)])
  {
    LinkExists(rows, requester, recipient);
    hide Link;
  }

  // ---------------------------------------------------------- the queries

  datatype FriendType = Requester | Recipient

  datatype FriendRequest = FriendRequest(friendId: UserId, friendType: FriendType)

  /** The rows of a user that are approved, or those that are not. */
  function Select(rows: seq<Row>, u: UserId, approved: bool): seq<Row> {
    if rows == [] then []
    else
      (if (rows[0].requester == u || rows[0].recipient == u) && rows[0].approved == approved then [rows[0]] else []) +
      Select(rows[1..], u, approved)
  }

  function Friend(r: Row, u: UserId): UserId { if r.requester == u then r.recipient else r.requester }

  function Request(r: Row, u: UserId): FriendRequest {
    if r.requester == u then FriendRequest(r.recipient, Recipient) else FriendRequest(r.requester, Requester)
  }

  function FriendsOf(rows: seq<Row>, u: UserId): seq<UserId> {
    var found := Select(rows, u, true);
    seq(|found|, i requires 0 <= i < |found| => Friend(found[i], u))
  }

  function RequestsOf(rows: seq<Row>, u: UserId): seq<FriendRequest> {
    var found := Select(rows, u, false);
    seq(|found|, i requires 0 <= i < |found| => Request(found[i], u))
  }

  class UserManager {
    var users: set<UserId>
    var friendships: seq<Row>

    constructor ()
      ensures users == {} && friendships == []
    {
      users, friendships := {}, [];
    }

    method GetFriends(user: UserId) returns (friends: seq<UserId>)
      ensures friends == FriendsOf(friendships, user)
    {
      var res := Select(friendships, user, true);
      friends := [];
      var i := 0;
      while i < |res|
        invariant 0 <= i <= |res| && |friends| == i
        invariant forall k :: 0 <= k < i ==> friends[k] == Friend(res[k], user)
      {
        if res[i].requester == user {
          friends := friends + [res[i].recipient];
        } else {
          friends := friends + [res[i].requester];
        }
        i := i + 1;
      }
    }

    method GetFriendRequests(user: UserId) returns (requests: seq<FriendRequest>)
      ensures requests == RequestsOf(friendships, user)
    {
      var res := Select(friendships, user, false);
      requests := [];
      var i := 0;
      while i < |res|
        invariant 0 <= i <= |res| && |requests| == i
        invariant forall k :: 0 <= k < i ==> requests[k] == Request(res[k], user)
      {
        if res[i].requester == user {
          requests := requests + [FriendRequest(res[i].recipient, Recipient)];
        } else {
          requests := requests + [FriendRequest(res[i].requester, Requester)];
        }
        i := i + 1;
      }
    }

    method SendFriendRequest(requester: UserId, recipient: UserId) returns (status: Status, event: Option<Event>)
      modifies this`friendships
      ensures Outcome(friendships, status, event) == SendRequest(old(friendships), users, requester, recipient)
    {
      if recipient !in users {
        return UserNotFound, None;
      }
      if Link(friendships, requester, recipient).Some? {
        return UnknownError, None;
      }
      friendships := friendships + [Row(requester, recipient, false)];
      return Ok, Some(FriendRequested(requester));
    }

    method SetFriendshipStatus(user: UserId, friend: UserId, status: bool)
      returns (result: Status, event: Option<Event>)
      modifies this`friendships
      ensures Outcome(friendships, result, event) == SetStatus(old(friendships), users, user, friend, status)
    {
      if friend !in users {
        return UserNotFound, None;
      }
      var row := Link(friendships, user, friend);
      if row == None {
        return NotFriends, None;
      }
      var requester, recipient, approved := row.value.requester, row.value.recipient, row.value.approved;
      if !status {
        friendships := Delete(friendships, requester, recipient);
        return Ok, Some(StatusChanged(user, status));
      } else if requester == user && !approved {
        return SelfApprove, None;
      } else if approved == status {
        return AlreadyFriends, None;
      } else {
        friendships := Approve(friendships, requester, recipient);
        return Ok, Some(StatusChanged(user, status));
      }
    }
  }

  // ------------------------------------------------------ the table's invariant

  /** At most one row for two users, whoever asked, and none for a user and themselves. */
  ghost predicate OneRowPerPair(rows: seq<Row>) {
    && (forall i, j :: 0 <= i < j < |rows| ==> !Links(rows[j], rows[i].requester, rows[i].recipient))
    && (forall i :: 0 <= i < |rows| ==> rows[i].requester != rows[i].recipient)
  }

  lemma {:induction false} LinkIs(rows: seq<Row>, u: UserId, f: UserId)
    requires OneRowPerPair(rows)
    ensures forall r :: Link(rows, u, f) == Some(r) <==> r in rows && Links(r, u, f)
  {
    if rows != [] {
      assert OneRowPerPair(rows[1..]);
      assert rows == [rows[0]] + rows[1..];
      LinkIs(rows[1..], u, f);
      forall r | r in rows[1..] ensures !Links(r, rows[0].requester, rows[0].recipient) {
        var j :| 0 <= j < |rows[1..]| && rows[1..][j] == r;
        assert rows[j + 1] == r;
      }
    }
  }

  lemma {:induction false} DeleteIs(rows: seq<Row>, a: UserId, b: UserId)
    ensures forall r :: r in Delete(rows, a, b) <==> r in rows && !(r.requester == a && r.recipient == b)
    ensures OneRowPerPair(rows) ==> OneRowPerPair(Delete(rows, a, b))
  {
    if rows != [] {
      DeleteIs(rows[1..], a, b);
      if OneRowPerPair(rows) {
        assert OneRowPerPair(rows[1..]);
        forall r | r in rows[1..] ensures !Links(r, rows[0].requester, rows[0].recipient) {
          var j :| 0 <= j < |rows[1..]| && rows[1..][j] == r;
          assert rows[j + 1] == r;
        }
      }
    }
  }

  lemma {:induction false} SelectIs(rows: seq<Row>, u: UserId, approved: bool)
    ensures forall r :: r in Select(rows, u, approved)
                        <==> r in rows && (r.requester == u || r.recipient == u) && r.approved == approved
    ensures OneRowPerPair(rows) ==> OneRowPerPair(Select(rows, u, approved))
  {
    if rows != [] {
      SelectIs(rows[1..], u, approved);
      if OneRowPerPair(rows) {
        assert OneRowPerPair(rows[1..]);
        forall r | r in rows[1..] ensures !Links(r, rows[0].requester, rows[0].recipient) {
          var j :| 0 <= j < |rows[1..]| && rows[1..][j] == r;
          assert rows[j + 1] == r;
        }
      }
    }
  }

  lemma ApproveIs(rows: seq<Row>, a: UserId, b: UserId)
    requires OneRowPerPair(rows) && Row(a, b, false) in rows
    ensures forall r :: r in Approve(rows, a, b) <==> (r in rows && r != Row(a, b, false)) || r == Row(a, b, true)
    ensures OneRowPerPair(Approve(rows, a, b))
  {
    var k :| 0 <= k < |rows| && rows[k] == Row(a, b, false);
    assert Approve(rows, a, b) == rows[k := Row(a, b, true)] by {
      forall i | 0 <= i < |rows| && i != k ensures !(rows[i].requester == a && rows[i].recipient == b) {
      }
    }
    forall r | r in rows && r != Row(a, b, false) ensures r in rows[k := Row(a, b, true)] {
      var i :| 0 <= i < |rows| && rows[i] == r;
      assert rows[k := Row(a, b, true)][i] == r;
    }
    assert rows[k := Row(a, b, true)][k] == Row(a, b, true);
  }

  /** The friends of a user, each once, are those with whom a row, of either direction, is approved. */
  lemma FriendsOfIs(rows: seq<Row>, u: UserId)
    requires OneRowPerPair(rows)
    ensures NoDuplicates(FriendsOf(rows, u))
    ensures forall f :: f in FriendsOf(rows, u) <==> Row(u, f, true) in rows || Row(f, u, true) in rows
  {
    var found, friends := Select(rows, u, true), FriendsOf(rows, u);
    SelectIs(rows, u, true);
    forall f | Row(u, f, true) in rows || Row(f, u, true) in rows ensures f in friends {
      var r := if Row(u, f, true) in rows then Row(u, f, true) else Row(f, u, true);
      assert r in found;
      var i :| 0 <= i < |found| && found[i] == r;
      assert friends[i] == f;
    }
    forall i | 0 <= i < |friends| ensures Row(u, friends[i], true) in rows || Row(friends[i], u, true) in rows {
      assert found[i] in rows;
    }
    forall i, j | 0 <= i < j < |friends| ensures friends[i] != friends[j] {
      assert found[i] in found && found[j] in found;
      assert !Links(found[j], found[i].requester, found[i].recipient);
    }
  }

  /** A user's requests are the unapproved rows; the type says which side the other one is. */
  lemma RequestsOfIs(rows: seq<Row>, u: UserId)
    requires OneRowPerPair(rows)
    ensures var requests := RequestsOf(rows, u);
            (forall i, j :: 0 <= i < j < |requests| ==> requests[i].friendId != requests[j].friendId) &&
            forall f :: (FriendRequest(f, Recipient) in requests <==> Row(u, f, false) in rows) &&
                        (FriendRequest(f, Requester) in requests <==> Row(f, u, false) in rows)
  {
    var found, requests := Select(rows, u, false), RequestsOf(rows, u);
    SelectIs(rows, u, false);
    forall r | r in rows && !r.approved && (r.requester == u || r.recipient == u) ensures Request(r, u) in requests {
      assert r in found;
      var i :| 0 <= i < |found| && found[i] == r;
      assert requests[i] == Request(r, u);
    }
    forall q | q in requests
      ensures (if q.friendType == Recipient then Row(u, q.friendId, false) else Row(q.friendId, u, false)) in rows
    {
      var i :| 0 <= i < |requests| && requests[i] == q;
      assert found[i] in found;
    }
    forall f | Row(u, f, false) in rows ensures FriendRequest(f, Recipient) in requests {
      assert Request(Row(u, f, false), u) == FriendRequest(f, Recipient);
    }
    forall f | Row(f, u, false) in rows ensures FriendRequest(f, Requester) in requests {
      assert f != u;
      assert Request(Row(f, u, false), u) == FriendRequest(f, Requester);
    }
    forall i, j | 0 <= i < j < |requests| ensures requests[i].friendId != requests[j].friendId {
      assert found[i] in found && found[j] in found;
      assert !Links(found[j], found[i].requester, found[i].recipient);
    }
  }

  lemma TypeOf(q: FriendRequest)
    ensures q == FriendRequest(q.friendId, Recipient) || q == FriendRequest(q.friendId, Requester)
  {
    match q.friendType
    case Recipient =>
    case Requester =>
  }

  // -------------------------------------------------------------- the client

  /** The user's own record in the client's store. */
  datatype Profile = Profile(friends: seq<UserId>, requests: seq<FriendRequest>)

  function WithoutRequest(requests: seq<FriendRequest>, f: UserId): seq<FriendRequest> {
    if requests == [] then []
    else (if requests[0].friendId != f then [requests[0]] else []) + WithoutRequest(requests[1..], f)
  }

  ghost predicate OnePerFriend(requests: seq<FriendRequest>) {
    forall i, j :: 0 <= i < j < |requests| ==> requests[i].friendId != requests[j].friendId
  }

  lemma {:induction false} WithoutRequestIs(requests: seq<FriendRequest>, f: UserId)
    ensures forall q :: q in WithoutRequest(requests, f) <==> q in requests && q.friendId != f
    ensures OnePerFriend(requests) ==> OnePerFriend(WithoutRequest(requests, f))
  {
    if requests != [] {
      WithoutRequestIs(requests[1..], f);
      if OnePerFriend(requests) {
        forall q | q in requests[1..] ensures q.friendId != requests[0].friendId {
        }
      }
    }
  }

  /** APPROVE_FRIEND_REQUEST_FULFILLED. */
  function ApproveFulfilled(p: Profile, f: UserId): Profile {
    Profile(p.friends + [f], WithoutRequest(p.requests, f))
  }

  /** REJECT_FRIEND_REQUEST_FULFILLED. */
  function RejectFulfilled(p: Profile, f: UserId): Profile { p.(requests := WithoutRequest(p.requests, f)) }

  /** SEND_FRIEND_REQUEST_FULFILLED. */
  function SendFulfilled(p: Profile, f: UserId): Profile {
    p.(requests := p.requests + [FriendRequest(f, Recipient)])
  }

  /** REMOVE_FRIEND_FULFILLED. */
  function RemoveFulfilled(p: Profile, f: UserId): Profile { p.(friends := Without(p.friends, f)) }

  ghost predicate Asks(p: Profile, f: UserId) { exists q :: q in p.requests && q.friendId == f }

  /** `friendRequestEvent` and `friendshipStatusEvent`. */
  ghost function HandleEvent(p: Profile, event: Event): Profile {
    match event
    case FriendRequested(f) => p.(requests := p.requests + [FriendRequest(f, Requester)])
    case StatusChanged(f, status) =>
      if Asks(p, f) then (if status then ApproveFulfilled(p, f) else RejectFulfilled(p, f))
      else if !status && f in p.friends then RemoveFulfilled(p, f)
      else p
  }

  // ------------------------------------------------------------- the system

  datatype System = System(users: set<UserId>, rows: seq<Row>, clients: map<UserId, Profile>)

  datatype Action = Approves | Rejects | Removes

  function Fulfilled(p: Profile, f: UserId, action: Action): Profile {
    match action
    case Approves => ApproveFulfilled(p, f)
    case Rejects => RejectFulfilled(p, f)
    case Removes => RemoveFulfilled(p, f)
  }

  ghost function Notify(clients: map<UserId, Profile>, f: UserId, event: Option<Event>): map<UserId, Profile> {
    if event.Some? && f in clients then clients[f := HandleEvent(clients[f], event.value)] else clients
  }

  ghost function SendStep(s: System, u: UserId, f: UserId): System
    requires u in s.clients
  {
    var r := SendRequestPacket(s.rows, s.users, u, f);
    var clients := Notify(s.clients, f, r.event);
    s.(rows := r.rows, clients := if r.status == Ok then clients[u := SendFulfilled(clients[u], f)] else clients)
  }

  /** The three actions share the packet; rejecting and removing differ only in the client. */
  ghost function StatusStep(s: System, u: UserId, f: UserId, action: Action): System
    requires u in s.clients
  {
    var r := SetStatusPacket(s.rows, s.users, u, f, action == Approves);
    var clients := Notify(s.clients, f, r.event);
    s.(rows := r.rows, clients := if r.status == Ok then clients[u := Fulfilled(clients[u], f, action)] else clients)
  }

  function LoginStep(s: System, u: UserId): System {
    s.(clients := s.clients[u := Profile(FriendsOf(s.rows, u), RequestsOf(s.rows, u))])
  }

  /** The client's lists are the server's for the user, as sets without repetition. */
  ghost predicate Mirrors(p: Profile, rows: seq<Row>, u: UserId) {
    && NoDuplicates(p.friends) && OnePerFriend(p.requests)
    && (forall f :: f in p.friends <==> Row(u, f, true) in rows || Row(f, u, true) in rows)
    && (forall f :: FriendRequest(f, Recipient) in p.requests <==> Row(u, f, false) in rows)
    && (forall f :: FriendRequest(f, Requester) in p.requests <==> Row(f, u, false) in rows)
  }

  ghost predicate Invariant(s: System) {
    && OneRowPerPair(s.rows)
    && (forall r :: r in s.rows ==> r.requester in s.users && r.recipient in s.users)
    && (forall u :: u in s.clients ==> u in s.users && Mirrors(s.clients[u], s.rows, u))
  }

  lemma OneRow(rows: seq<Row>, a: Row, b: Row)
    requires OneRowPerPair(rows) && a in rows && b in rows && Links(b, a.requester, a.recipient)
    ensures a == b
  {
    var i :| 0 <= i < |rows| && rows[i] == a;
    var j :| 0 <= j < |rows| && rows[j] == b;
  }

  // ---------------------------------------------------------- what requests do

  lemma SendRows(rows: seq<Row>, users: set<UserId>, u: UserId, f: UserId)
    requires OneRowPerPair(rows) && u != f
    ensures var r := SendRequest(rows, users, u, f);
            OneRowPerPair(r.rows) && (r.status == Ok <==> r.event == Some(FriendRequested(u))) &&
            (r.status != Ok <==> r.event == None) &&
            (r.status != Ok ==> r.rows == rows) &&
            (r.status == Ok ==>
               f in users && (forall x :: x in r.rows <==> x in rows || x == Row(u, f, false)) &&
               forall x :: x in rows ==> !Links(x, u, f))
  {
    LinkIs(rows, u, f);
    forall x | x in rows && Links(x, u, f) ensures Link(rows, u, f).Some? {
      assert Link(rows, u, f) == Some(x);
    }
    forall i | 0 <= i < |rows| && Links(Row(u, f, false), rows[i].requester, rows[i].recipient)
      ensures Link(rows, u, f).Some?
    {
      assert rows[i] in rows && Links(rows[i], u, f);
    }
  }

  lemma StatusRows(rows: seq<Row>, users: set<UserId>, u: UserId, f: UserId, status: bool)
    requires OneRowPerPair(rows) && u != f
    ensures var r := SetStatus(rows, users, u, f, status);
            OneRowPerPair(r.rows) && (r.status == Ok <==> r.event == Some(StatusChanged(u, status))) &&
            (r.status != Ok <==> r.event == None) &&
            (r.status != Ok ==> r.rows == rows) &&
            (r.status == Ok && status ==>
               f in users && Row(f, u, false) in rows &&
               forall x :: x in r.rows <==> (x in rows && x != Row(f, u, false)) || x == Row(f, u, true)) &&
            (r.status == Ok && !status ==>
               (exists x :: x in rows && Links(x, u, f)) &&
               forall x :: x in r.rows <==> x in rows && !Links(x, u, f))
  {
    LinkIs(rows, u, f);
    if f in users && Link(rows, u, f).Some? {
      var row := Link(rows, u, f).value;
      assert row in rows && Links(row, u, f);
      if !status {
        DeleteIs(rows, row.requester, row.recipient);
        forall x | x in rows && Links(x, u, f) ensures x == row {
          OneRow(rows, row, x);
        }
      } else if row == Row(f, u, false) {
        ApproveIs(rows, f, u);
      }
    }
  }

  /** Every answer to an approval or an ending, in terms of the row between the two users. */
  lemma StatusAnswers(rows: seq<Row>, users: set<UserId>, u: UserId, f: UserId, status: bool)
    requires OneRowPerPair(rows) && u != f
    ensures var answer := SetStatusPacket(rows, users, u, f, status).status;
            (answer == UserNotFound <==> f !in users) &&
            (answer == NotFriends <==> f in users && forall x :: x in rows ==> !Links(x, u, f)) &&
            (answer == SelfApprove <==> f in users && status && Row(u, f, false) in rows) &&
            (answer == AlreadyFriends
             <==> f in users && status && (Row(u, f, true) in rows || Row(f, u, true) in rows)) &&
            (answer == Ok
             <==> f in users && if status then Row(f, u, false) in rows else exists x :: x in rows && Links(x, u, f))
  {
    LinkIs(rows, u, f);
    if x :| x in rows && Links(x, u, f) {
      assert Link(rows, u, f) == Some(x);
      assert forall y :: y in rows && Links(y, u, f) ==> y == x;
      assert x in {Row(u, f, false), Row(f, u, false), Row(u, f, true), Row(f, u, true)};
      assert forall approved :: Links(Row(u, f, approved), u, f) && Links(Row(f, u, approved), u, f);
    } else {
      assert Link(rows, u, f) == None;
      assert forall approved :: Links(Row(u, f, approved), u, f) && Links(Row(f, u, approved), u, f);
    }
    hide Link, OneRowPerPair, Delete, Approve;
  }

  /** Somebody else's lists do not notice a change of the row between `u` and `f`. */
  lemma OthersMirror(p: Profile, rows: seq<Row>, rows': seq<Row>, x: UserId, u: UserId, f: UserId)
    requires Mirrors(p, rows, x) && x != u && x != f
    requires forall r :: !Links(r, u, f) ==> (r in rows <==> r in rows')
    ensures Mirrors(p, rows', x)
  {
  }

  lemma SendMirrors(p: Profile, rows: seq<Row>, rows': seq<Row>, u: UserId, f: UserId)
    requires u != f && Mirrors(p, rows, u)
    requires forall x :: x in rows' <==> x in rows || x == Row(u, f, false)
    requires forall x :: x in rows ==> !Links(x, u, f)
    ensures Mirrors(SendFulfilled(p, f), rows', u)
  {
    assert Row(u, f, false) !in rows && Row(f, u, false) !in rows;
    forall q | q in p.requests ensures q.friendId != f {
      TypeOf(q);
    }
  }

  lemma ReceiveMirrors(p: Profile, rows: seq<Row>, rows': seq<Row>, u: UserId, f: UserId)
    requires u != f && Mirrors(p, rows, f)
    requires forall x :: x in rows' <==> x in rows || x == Row(u, f, false)
    requires forall x :: x in rows ==> !Links(x, u, f)
    ensures Mirrors(HandleEvent(p, FriendRequested(u)), rows', f)
  {
    assert Row(u, f, false) !in rows && Row(f, u, false) !in rows;
    forall q | q in p.requests ensures q.friendId != u {
      TypeOf(q);
    }
  }

  lemma SendOne(s: System, u: UserId, f: UserId, x: UserId)
    requires Invariant(s) && u in s.clients && u != f && x in s.clients
    requires SendRequest(s.rows, s.users, u, f).status == Ok
    ensures var t := SendStep(s, u, f); x in t.clients && Mirrors(t.clients[x], t.rows, x)
  {
    SendRows(s.rows, s.users, u, f);
    var rows' := SendRequest(s.rows, s.users, u, f).rows;
    assert Mirrors(s.clients[x], s.rows, x);
    hide SendRequest, HandleEvent, SendFulfilled, Mirrors;
    if x == u {
      SendMirrors(s.clients[u], s.rows, rows', u, f);
    } else if x == f {
      ReceiveMirrors(s.clients[f], s.rows, rows', u, f);
    } else {
      OthersMirror(s.clients[x], s.rows, rows', x, u, f);
    }
  }

  lemma SendKeepsInvariant(s: System, u: UserId, f: UserId)
    requires Invariant(s) && u in s.clients
    ensures Invariant(SendStep(s, u, f))
  {
    var t := SendStep(s, u, f);
    if u == f || SendRequest(s.rows, s.users, u, f).status != Ok {
      assert t == s;
      hide *;
    } else {
      SendRows(s.rows, s.users, u, f);
      assert t.users == s.users && t.rows == SendRequest(s.rows, s.users, u, f).rows;
      assert OneRowPerPair(t.rows) && forall r :: r in t.rows ==> r.requester in t.users && r.recipient in t.users;
      assert t.clients.Keys == s.clients.Keys;
      hide Mirrors, SendStep, SendRequest, OneRowPerPair;
      forall x | x in t.clients ensures x in t.users && Mirrors(t.clients[x], t.rows, x) {
        SendOne(s, u, f, x);
      }
    }
  }

  // ------------------------------------------------------ approving and ending

  lemma ApproveMirrors(p: Profile, rows: seq<Row>, rows': seq<Row>, x: UserId, y: UserId, u: UserId, f: UserId)
    requires OneRowPerPair(rows) && u != f && Row(f, u, false) in rows && Mirrors(p, rows, x)
    requires (x == u && y == f) || (x == f && y == u)
    requires forall r :: r in rows' <==> (r in rows && r != Row(f, u, false)) || r == Row(f, u, true)
    ensures Mirrors(ApproveFulfilled(p, y), rows', x)
    ensures Asks(p, y)
  {
    var q := FriendRequest(y, if x == u then Requester else Recipient);
    assert q in p.requests;
    WithoutRequestIs(p.requests, y);
    if Row(x, y, true) in rows {
      OneRow(rows, Row(f, u, false), Row(x, y, true));
    }
    if Row(y, x, true) in rows {
      OneRow(rows, Row(f, u, false), Row(y, x, true));
    }
    if Row(u, f, false) in rows {
      OneRow(rows, Row(f, u, false), Row(u, f, false));
    }
    AppendIs(p.friends, y);
  }

  /** Ending: the row is gone, and so is the entry, in whichever of the two lists it was. */
  lemma EndMirrors(p: Profile, rows: seq<Row>, rows': seq<Row>, x: UserId, y: UserId)
    requires x != y && Mirrors(p, rows, x)
    requires forall r :: r in rows' <==> r in rows && !Links(r, x, y)
    ensures Mirrors(RejectFulfilled(p, y), rows', x) <==> y !in p.friends
    ensures Mirrors(RemoveFulfilled(p, y), rows', x) <==> !Asks(p, y)
  {
    WithoutRequestIs(p.requests, y);
    WithoutIs(p.friends, y);
    if Asks(p, y) {
      var q :| q in p.requests && q.friendId == y;
      TypeOf(q);
    }
    hide NoDuplicates, OnePerFriend;
  }

  lemma NotBoth(p: Profile, rows: seq<Row>, x: UserId, y: UserId)
    requires OneRowPerPair(rows) && Mirrors(p, rows, x)
    ensures !(y in p.friends && Asks(p, y))
  {
    if y in p.friends && Asks(p, y) {
      var q :| q in p.requests && q.friendId == y;
      TypeOf(q);
      var b := if q.friendType == Recipient then Row(x, y, false) else Row(y, x, false);
      OneRow(rows, b, if Row(x, y, true) in rows then Row(x, y, true) else Row(y, x, true));
    }
  }

  lemma EventEndsMirror(p: Profile, rows: seq<Row>, rows': seq<Row>, x: UserId, y: UserId)
    requires x != y && OneRowPerPair(rows) && Mirrors(p, rows, x)
    requires forall r :: r in rows' <==> r in rows && !Links(r, x, y)
    ensures Mirrors(HandleEvent(p, StatusChanged(y, false)), rows', x)
  {
    NotBoth(p, rows, x, y);
    EndMirrors(p, rows, rows', x, y);
    hide Mirrors, OneRowPerPair;
  }

  /** What the client may do by which button: rejecting is for requests, removing for friends. */
  ghost predicate Fits(p: Profile, f: UserId, action: Action) {
    match action
    case Approves => true
    case Rejects => f !in p.friends
    case Removes => !Asks(p, f)
  }

  lemma StatusNotified(p: Profile, rows: seq<Row>, rows': seq<Row>, u: UserId, f: UserId, status: bool)
    requires OneRowPerPair(rows) && u != f && Mirrors(p, rows, f)
    requires status ==>
               Row(f, u, false) in rows &&
               forall x :: x in rows' <==> (x in rows && x != Row(f, u, false)) || x == Row(f, u, true)
    requires !status ==> forall x :: x in rows' <==> x in rows && !Links(x, u, f)
    ensures Mirrors(HandleEvent(p, StatusChanged(u, status)), rows', f)
  {
    if status {
      ApproveMirrors(p, rows, rows', f, u, u, f);
      hide Mirrors;
    } else {
      EventEndsMirror(p, rows, rows', f, u);
    }
  }

  lemma StatusOthers(s: System, u: UserId, f: UserId, action: Action, x: UserId)
    requires Invariant(s) && u in s.clients && u != f && x in s.clients && x != u
    ensures var t := StatusStep(s, u, f, action); x in t.clients && Mirrors(t.clients[x], t.rows, x)
  {
    var status := action == Approves;
    StatusRows(s.rows, s.users, u, f, status);
    var r := SetStatus(s.rows, s.users, u, f, status);
    assert Mirrors(s.clients[x], s.rows, x);
    hide SetStatus, Mirrors, Fulfilled, HandleEvent;
    if r.status == Ok {
      if x == f {
        StatusNotified(s.clients[f], s.rows, r.rows, u, f, status);
      } else {
        OthersMirror(s.clients[x], s.rows, r.rows, x, u, f);
      }
    }
  }

  /** After approving, rejecting or removing, the user's own lists agree with the server's exactly
      when the button fitted the list in which the other user was. */
  lemma StatusAgreesIff(s: System, u: UserId, f: UserId, action: Action)
    requires Invariant(s) && u in s.clients
    ensures var t := StatusStep(s, u, f, action);
            Mirrors(t.clients[u], t.rows, u) <==> Fits(s.clients[u], f, action)
  {
    if u == f {
      SelfIsNoFriend(s, u);
    } else {
      var p, status := s.clients[u], action == Approves;
      StatusRows(s.rows, s.users, u, f, status);
      LinkedIsListed(s, u, f);
      var r := SetStatus(s.rows, s.users, u, f, status);
      EndedIfLinked(s.rows, s.users, u, f);
      hide SetStatus, Mirrors, HandleEvent;
      if r.status == Ok {
        if status {
          ApproveMirrors(p, s.rows, r.rows, u, f, u, f);
        } else {
          EndMirrors(p, s.rows, r.rows, u, f);
        }
      }
    }
  }

  lemma SelfIsNoFriend(s: System, u: UserId)
    requires Invariant(s) && u in s.clients
    ensures u !in s.clients[u].friends && !Asks(s.clients[u], u)
  {
    if Asks(s.clients[u], u) {
      var q :| q in s.clients[u].requests && q.friendId == u;
      TypeOf(q);
    }
  }

  lemma LinkedIsListed(s: System, u: UserId, f: UserId)
    requires Invariant(s) && u in s.clients
    ensures f in s.clients[u].friends || Asks(s.clients[u], f) ==>
              f in s.users && exists x :: x in s.rows && Links(x, u, f)
  {
    var p := s.clients[u];
    assert Mirrors(p, s.rows, u);
    if f in p.friends {
      var x := if Row(u, f, true) in s.rows then Row(u, f, true) else Row(f, u, true);
      assert x in s.rows && Links(x, u, f);
    } else if Asks(p, f) {
      var q :| q in p.requests && q.friendId == f;
      TypeOf(q);
      var x := if q.friendType == Recipient then Row(u, f, false) else Row(f, u, false);
      assert x in s.rows && Links(x, u, f);
    }
  }

  lemma EndedIfLinked(rows: seq<Row>, users: set<UserId>, u: UserId, f: UserId)
    requires OneRowPerPair(rows)
    ensures SetStatus(rows, users, u, f, false).status == Ok <==> f in users && exists x :: x in rows && Links(x, u, f)
  {
    LinkIs(rows, u, f);
    if x :| x in rows && Links(x, u, f) {
      assert Link(rows, u, f) == Some(x);
    }
  }

  lemma StatusKeepsInvariant(s: System, u: UserId, f: UserId, action: Action)
    requires Invariant(s) && u in s.clients && Fits(s.clients[u], f, action)
    ensures Invariant(StatusStep(s, u, f, action))
  {
    var t := StatusStep(s, u, f, action);
    StatusAgreesIff(s, u, f, action);
    if u != f {
      StatusRows(s.rows, s.users, u, f, action == Approves);
      hide Mirrors, SetStatus;
      forall x | x in t.clients ensures x in t.users && Mirrors(t.clients[x], t.rows, x) {
        if x != u {
          StatusOthers(s, u, f, action, x);
        }
      }
    }
  }

  lemma LoginKeepsInvariant(s: System, u: UserId)
    requires Invariant(s) && u in s.users
    ensures Invariant(LoginStep(s, u))
  {
    FriendsOfIs(s.rows, u);
    RequestsOfIs(s.rows, u);
  }

  // ------------------------------------------------------------------ runs

  datatype Step =
    | Register(user: UserId)
    | Login(user: UserId)
    | Logout(user: UserId)
    | Send(user: UserId, friend: UserId)
    | Set(user: UserId, friend: UserId, action: Action)

  ghost predicate Possible(s: System, step: Step) {
    match step
    case Register(_) => true
    case Login(u) => u in s.users && u !in s.clients
    case Logout(u) => u in s.clients
    case Send(u, _) => u in s.clients
    case Set(u, _, _) => u in s.clients
  }

  /** The buttons are used for what they are shown for. */
  ghost predicate Enabled(s: System, step: Step) {
    Possible(s, step) && (step.Set? ==> Fits(s.clients[step.user], step.friend, step.action))
  }

  ghost function Apply(s: System, step: Step): System
    requires Possible(s, step)
  {
    match step
    case Register(u) => s.(users := s.users + {u})
    case Login(u) => LoginStep(s, u)
    case Logout(u) => s.(clients := s.clients - {u})
    case Send(u, f) => SendStep(s, u, f)
    case Set(u, f, action) => StatusStep(s, u, f, action)
  }

  lemma StepKeepsInvariant(s: System, step: Step)
    requires Invariant(s) && Enabled(s, step)
    ensures Invariant(Apply(s, step))
  {
    match step
    case Register(_) =>
    case Login(u) => LoginKeepsInvariant(s, u);
    case Logout(_) =>
    case Send(u, f) => SendKeepsInvariant(s, u, f);
    case Set(u, f, action) => StatusKeepsInvariant(s, u, f, action);
  }

  ghost predicate Admissible(s: System, steps: seq<Step>)
    decreases |steps|
  {
    steps == [] || (Enabled(s, steps[0]) && Admissible(Apply(s, steps[0]), steps[1..]))
  }

  ghost function Run(s: System, steps: seq<Step>): System
    requires Admissible(s, steps)
    decreases |steps|
  {
    if steps == [] then s else Run(Apply(s, steps[0]), steps[1..])
  }

  lemma {:induction false} RunKeepsInvariant(s: System, steps: seq<Step>)
    requires Invariant(s) && Admissible(s, steps)
    ensures Invariant(Run(s, steps))
    decreases |steps|
  {
    if steps != [] {
      StepKeepsInvariant(s, steps[0]);
      RunKeepsInvariant(Apply(s, steps[0]), steps[1..]);
    }
  }

  /** In every run of registrations, logins, logouts, requests, approvals, rejections and removals:
      two users have at most one row and nobody is linked to themselves; and the lists of every
      online user are the server's, without repetition, and disjoint. */
  lemma ListsAgree(steps: seq<Step>)
    requires Admissible(System({}, [], map[]), steps)
    ensures var s := Run(System({}, [], map[]), steps);
            OneRowPerPair(s.rows) &&
            forall u :: u in s.clients ==> ListsAgreeFor(s, u)
  {
    RunKeepsInvariant(System({}, [], map[]), steps);
    var s := Run(System({}, [], map[]), steps);
    forall u | u in s.clients ensures ListsAgreeFor(s, u) {
      AgreesFor(s, u);
    }
  }

  ghost predicate ListsAgreeFor(s: System, u: UserId)
    requires u in s.clients
  {
    var p := s.clients[u];
    && multiset(p.friends) == multiset(FriendsOf(s.rows, u))
    && multiset(p.requests) == multiset(RequestsOf(s.rows, u))
    && NoDuplicates(p.friends) && OnePerFriend(p.requests)
    && forall q :: q in p.requests ==> q.friendId !in p.friends
  }

  lemma AgreesFor(s: System, u: UserId)
    requires Invariant(s) && u in s.clients
    ensures ListsAgreeFor(s, u)
  {
    var p := s.clients[u];
    assert Mirrors(p, s.rows, u);
    FriendsOfIs(s.rows, u);
    RequestsOfIs(s.rows, u);
    SameElements(p.friends, FriendsOf(s.rows, u));
    forall q ensures q in p.requests <==> q in RequestsOf(s.rows, u) {
      TypeOf(q);
    }
    SameElements(p.requests, RequestsOf(s.rows, u));
    forall q | q in p.requests ensures q.friendId !in p.friends {
      NotBoth(p, s.rows, u, q.friendId);
    }
  }

  lemma {:induction false} AtMostOnce<T(!new)>(s: seq<T>, x: T)
    requires NoDuplicates(s)
    ensures multiset(s)[x] == if x in s then 1 else 0
  {
    if s != [] {
      assert s == [s[0]] + s[1..];
      assert s[0] !in s[1..];
      AtMostOnce(s[1..], x);
    }
  }

  lemma SameElements<T(!new)>(a: seq<T>, b: seq<T>)
    requires NoDuplicates(a) && NoDuplicates(b) && forall x :: x in a <==> x in b
    ensures multiset(a) == multiset(b)
  {
    forall x ensures multiset(a)[x] == multiset(b)[x] {
      AtMostOnce(a, x);
      AtMostOnce(b, x);
    }
  }
}
