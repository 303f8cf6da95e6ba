/** Registration: two users may share a nickname as long as their tags differ, so every new user is
    given a random tag that nobody with the nickname has. */
module Tags {
  import Lists
  import opened Options

  const MAX_TAG: int := 9999

  datatype User = User(username: string, email: string, nickname: string, tag: int)

  datatype Status = Registered(tag: int) | UsernameInUse | EmailInUse | NicknameFull

  function TagsOf(users: seq<User>, nickname: string): seq<int> {
    if users == [] then []
    else (if users[0].nickname == nickname then [users[0].tag] else []) + TagsOf(users[1..], nickname)
  }

  predicate Matches(user: User, username: string, email: string) { user.username == username || user.email == email }

  /** The users found with the username or the email. */
  function Matching(users: seq<User>, username: string, email: string): seq<User> {
    if users == [] then []
    else (if Matches(users[0], username, email) then [users[0]] else []) + Matching(users[1..], username, email)
  }

  lemma {:induction false} MatchingIs(users: seq<User>, username: string, email: string)
    ensures forall user :: user in Matching(users, username, email) <==> user in users && Matches(user, username, email)
  {
    if users != [] {
      MatchingIs(users[1..], username, email);
      assert users == [users[0]] + users[1..];
    }
  }

  predicate IsTag(tag: int) { 0 <= tag <= MAX_TAG }

  /** The numbers drawn by `rand::num(0, MAX_TAG)`: all in range, and no number is missed for ever. */
  ghost predicate Fair(random: nat -> int) {
    && (forall n :: IsTag(random(n)))
    && (forall tag :: IsTag(tag) ==> exists n :: random(n) == tag)
  }

  function Span(n: nat): (s: set<int>)
    ensures |s| == n && forall x :: x in s <==> 0 <= x < n
  {
    if n == 0 then {} else Span(n - 1) + {n - 1}
  }

  lemma {:induction false} AsManyAsDistinct(tags: seq<int>)
    ensures |(set t | t in tags)| <= |tags|
  {
    if tags != [] {
      AsManyAsDistinct(tags[1..]);
      assert (set t | t in tags) == {tags[0]} + (set t | t in tags[1..]);
    }
  }

  ghost predicate HasFreeTag(tags: seq<int>) { exists tag :: IsTag(tag) && tag !in tags }

  /** Fewer users than tags leave a tag free. */
  lemma FreeTagExists(tags: seq<int>)
    requires |tags| <= MAX_TAG
    ensures HasFreeTag(tags)
  {
    if forall tag :: IsTag(tag) ==> tag in tags {
      var all, used := Span(MAX_TAG + 1), set t | t in tags;
      forall tag | tag in all ensures tag in used {
        assert IsTag(tag);
      }
      Lists.SubsetSize(all, used);
      AsManyAsDistinct(tags);
      assert false;
    }
  }

  /** `generate_tag`. Only the exact count is refused, so the caller's tables must never hold more. */
  method GenerateTag(tags: seq<int>, random: nat -> int) returns (tag: Option<int>)
    requires |tags| <= MAX_TAG && Fair(random)
    ensures tag == None <==> |tags| == MAX_TAG
    ensures tag.Some? ==> IsTag(tag.value) && tag.value !in tags
  {
    if |tags| == MAX_TAG {
      return None;
    }
    FreeTagExists(tags);
    ghost var free :| IsTag(free) && free !in tags;
    ghost var hit: nat :| random(hit) == free;
    var drawn, t := 1, random(0);
    while t in tags
      invariant t == random(drawn - 1) && 1 <= drawn && drawn - 1 <= hit
      decreases hit - drawn
    {
      assert drawn - 1 != hit;
      t := random(drawn);
      drawn := drawn + 1;
    }
    return Some(t);
  }

  /** What a registration may do: of several users found, any may be the one fetched, and which free
      tag is drawn is left to chance. */
  ghost predicate Registers(users: seq<User>, username: string, email: string, nickname: string, users': seq<User>,
                            status: Status) {
    if exists user :: user in users && Matches(user, username, email) then
      users' == users &&
      exists user :: user in users && Matches(user, username, email) &&
                     status == if user.username == username then UsernameInUse else EmailInUse
    else if |TagsOf(users, nickname)| == MAX_TAG then users' == users && status == NicknameFull
    else
      status.Registered? && IsTag(status.tag) && status.tag !in TagsOf(users, nickname) &&
      users' == users + [User(username, email, nickname, status.tag)]
  }

  /** The rows that a nickname's tags are read from. */
  ghost function Bearers(users: seq<User>, nickname: string): set<nat> {
    set i: nat | i < |users| && users[i].nickname == nickname
  }

  lemma {:induction false} TagsOfCounts(users: seq<User>, nickname: string)
    ensures |TagsOf(users, nickname)| == |Bearers(users, nickname)|
  {
    if users != [] {
      var n := |users| - 1;
      var init := users[..n];
      assert users == init + [users[n]];
      TagsOfCounts(init, nickname);
      TagsOfAppend(init, users[n], nickname);
      assert Bearers(users, nickname) == Bearers(init, nickname) + if users[n].nickname == nickname then {n} else {};
      hide TagsOf;
    }
  }

  /** Every answer to a registration: it is made exactly when nobody has the username or the email and
      the nickname has fewer than 9999 users; otherwise the answer names something that is in use, or
      the nickname, and the table stays as it is. */
  lemma RegisterAnswers(users: seq<User>, username: string, email: string, nickname: string, users': seq<User>,
                        status: Status)
    requires Registers(users, username, email, nickname, users', status)
    ensures var named := exists user :: user in users && user.username == username;
            var mailed := exists user :: user in users && user.email == email;
            var count := |Bearers(users, nickname)|;
            (status.Registered? <==> !named && !mailed && count != MAX_TAG) &&
            (status == NicknameFull <==> !named && !mailed && count == MAX_TAG) &&
            (status == UsernameInUse ==> named) && (status == EmailInUse ==> mailed) &&
            (named && !mailed ==> status == UsernameInUse) && (mailed && !named ==> status == EmailInUse) &&
            users' == if status.Registered? then users + [User(username, email, nickname, status.tag)] else users
  {
    TagsOfCounts(users, nickname);
    assert forall user :: user in users ==>
      (Matches(user, username, email) <==> user.username == username || user.email == email);
  }

  class UserManager {
    var users: seq<User>

    constructor ()
      ensures users == []
    {
      users := [];
    }

    method RegisterUser(username: string, email: string, nickname: string, random: nat -> int) returns (status: Status)
      requires WellTagged(users) && Fair(random)
      modifies this
      ensures Registers(old(users), username, email, nickname, users, status)
    {
      var found := Matching(users, username, email);
      MatchingIs(users, username, email);
      if found == [] {
        assert forall user :: user in users ==> user !in found;
        var tags := TagsOf(users, nickname);
        var tag := GenerateTag(tags, random);
        if tag == None {
          return NicknameFull;
        }
        users := users + [User(username, email, nickname, tag.value)];
        return Registered(tag.value);
      }
      var user := found[0];
      assert user in found;
      status := if user.username == username then UsernameInUse else EmailInUse;
    }
  }

  // ------------------------------------------------------------ the invariant

  ghost predicate Same(a: User, b: User) {
    a.username == b.username || a.email == b.email || (a.nickname == b.nickname && a.tag == b.tag)
  }

  /** No two users share a username, an email, or a nickname with its tag; and a nickname never has
      more users than the count at which it is refused. */
  ghost predicate WellTagged(users: seq<User>) {
    && (forall i, j :: 0 <= i < j < |users| ==> !Same(users[i], users[j]))
    && (forall i :: 0 <= i < |users| ==> IsTag(users[i].tag))
    && (forall nickname :: |TagsOf(users, nickname)| <= MAX_TAG)
  }

  lemma {:induction false} TagsOfAppend(users: seq<User>, user: User, nickname: string)
    ensures TagsOf(users + [user], nickname)
            == TagsOf(users, nickname) + if user.nickname == nickname then [user.tag] else []
  {
    if users == [] {
      assert users + [user] == [user] && [user][1..] == [];
    } else {
      TagsOfAppend(users[1..], user, nickname);
      assert (users + [user])[1..] == users[1..] + [user];
    }
  }

  lemma {:induction false} TagListed(users: seq<User>, i: nat)
    requires i < |users|
    ensures users[i].tag in TagsOf(users, users[i].nickname)
  {
    if i > 0 {
      TagListed(users[1..], i - 1);
    }
  }

  lemma RegisterKeeps(users: seq<User>, username: string, email: string, nickname: string, users': seq<User>,
                      status: Status)
    requires WellTagged(users) && Registers(users, username, email, nickname, users', status)
    ensures WellTagged(users') && users <= users'
  {
    if status.Registered? {
      var user := User(username, email, nickname, status.tag);
      forall i | 0 <= i < |users| ensures !Same(users[i], user) {
        assert users[i] in users;
        TagListed(users, i);
      }
      forall other ensures |TagsOf(users', other)| <= MAX_TAG {
        TagsOfAppend(users, user, other);
      }
    }
  }

  datatype Registration = Registration(username: string, email: string, nickname: string, status: Status)

  ghost predicate IsRun(states: seq<seq<User>>, steps: seq<Registration>) {
    && |states| == |steps| + 1 && states[0] == []
    && forall i :: 0 <= i < |steps| ==>
         Registers(states[i], steps[i].username, steps[i].email, steps[i].nickname, states[i + 1], steps[i].status)
  }

  /** Over every run of registrations (nickname, tag) pairs stay unique and a nickname is refused
      before its tags run out, so that every search for a tag that is begun has one to find. */
  lemma {:induction false} RunKeeps(states: seq<seq<User>>, steps: seq<Registration>, k: nat)
    requires IsRun(states, steps) && k < |states|
    ensures WellTagged(states[k])
    ensures forall nickname :: HasFreeTag(TagsOf(states[k], nickname))
    decreases k
  {
    if k > 0 {
      RunKeeps(states, steps, k - 1);
      var step := steps[k - 1];
      RegisterKeeps(states[k - 1], step.username, step.email, step.nickname, states[k], step.status);
    }
    forall nickname ensures HasFreeTag(TagsOf(states[k], nickname)) {
      FreeTagExists(TagsOf(states[k], nickname));
    }
  }
}
