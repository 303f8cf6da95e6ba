/** What a channel shows: messages and calls in order of date, with runs of messages by one sender
    gathered into one bubble. */
module ChannelContent {
  import opened Options

  type UserId = string

  const HOUR: int := 60 * 60

  /** An element is a message when it has a time of sending. */
  datatype Element = Message(id: string, senderId: UserId, sentAt: int) | Call(id: string, startDate: int)

  function Date(e: Element): int { if e.Message? then e.sentAt else e.startDate }

  datatype Group = Bubble(messages: seq<Element>) | Entry(call: Element)

  // ------------------------------------------------------------------ sorting

  /** A stable insertion from the right: after everything that is not later. */
  function Insert(s: seq<Element>, e: Element): seq<Element> {
    if s == [] || Date(s[|s| - 1]) <= Date(e) then s + [e] else Insert(s[..|s| - 1], e) + [s[|s| - 1]]
  }

  /** `content.sort` by date. */
  function SortByDate(s: seq<Element>): seq<Element> {
    if s == [] then [] else Insert(SortByDate(s[..|s| - 1]), s[|s| - 1])
  }

  /** A message counts by when it was sent, a call by when it began. */
  predicate NotLater(a: Element, b: Element) {
    match (a, b)
    case (Message(_, _, s), Message(_, _, t)) => s <= t
    case (Message(_, _, s), Call(_, t)) => s <= t
    case (Call(_, s), Message(_, _, t)) => s <= t
    case (Call(_, s), Call(_, t)) => s <= t
  }

  ghost predicate InOrder(s: seq<Element>) { forall i, j :: 0 <= i < j < |s| ==> NotLater(s[i], s[j]) }

  function OfDate(s: seq<Element>, d: int): seq<Element> {
    if s == [] then []
    else OfDate(s[..|s| - 1], d) + if Date(s[|s| - 1]) == d then [s[|s| - 1]] else []
  }

  lemma {:induction false} InsertIs(s: seq<Element>, e: Element)
    ensures multiset(Insert(s, e)) == multiset(s) + multiset{e}
    ensures forall x :: x in Insert(s, e) <==> x in s || x == e
  {
    if s == [] || Date(s[|s| - 1]) <= Date(e) {
    } else {
      var init, last := s[..|s| - 1], s[|s| - 1];
      assert s == init + [last];
      InsertIs(init, e);
    }
  }

  lemma {:induction false} InsertSorts(s: seq<Element>, e: Element)
    requires InOrder(s)
    ensures InOrder(Insert(s, e))
  {
    if s == [] || Date(s[|s| - 1]) <= Date(e) {
    } else {
      var init, last := s[..|s| - 1], s[|s| - 1];
      InsertSorts(init, e);
      InsertIs(init, e);
      var r := Insert(init, e);
      forall i | 0 <= i < |r| ensures Date(r[i]) <= Date(last) {
        assert r[i] in r;
        if r[i] in init {
          var j :| 0 <= j < |init| && init[j] == r[i];
          assert s[j] == r[i];
        }
      }
      AppendInOrder(r, last);
    }
  }

  lemma AppendInOrder(s: seq<Element>, e: Element)
    requires InOrder(s) && forall i :: 0 <= i < |s| ==> Date(s[i]) <= Date(e)
    ensures InOrder(s + [e])
  {
  }

  lemma {:induction false} InsertIsStable(s: seq<Element>, e: Element, d: int)
    requires InOrder(s)
    ensures OfDate(Insert(s, e), d) == OfDate(s + [e], d)
  {
    if s == [] || Date(s[|s| - 1]) <= Date(e) {
    } else {
      var init, last := s[..|s| - 1], s[|s| - 1];
      assert s == init + [last];
      InsertIsStable(init, e, d);
      OfDateStep(Insert(init, e), last, d);
      OfDateStep(init, e, d);
      OfDateStep(init, last, d);
      OfDateStep(s, e, d);
    }
  }

  lemma OfDateStep(s: seq<Element>, e: Element, d: int)
    ensures OfDate(s + [e], d) == OfDate(s, d) + if Date(e) == d then [e] else []
  {
    assert (s + [e])[..|s|] == s;
  }

  /** Sorting orders by date, loses and adds nothing, and leaves elements of one date in order. */
  lemma {:induction false} SortSorts(s: seq<Element>, d: int)
    ensures InOrder(SortByDate(s)) && multiset(SortByDate(s)) == multiset(s)
    ensures OfDate(SortByDate(s), d) == OfDate(s, d)
  {
    if s != [] {
      var init, last := s[..|s| - 1], s[|s| - 1];
      assert s == init + [last];
      SortSorts(init, d);
      InsertSorts(SortByDate(init), last);
      InsertIs(SortByDate(init), last);
      InsertIsStable(SortByDate(init), last, d);
      OfDateStep(SortByDate(init), last, d);
      OfDateStep(init, last, d);
    }
  }

  // ----------------------------------------------------------------- grouping

  function Flatten(groups: seq<Group>): seq<Element> {
    if groups == [] then [] else Flatten(groups[..|groups| - 1]) + Elements(groups[|groups| - 1])
  }

  function Elements(g: Group): seq<Element> { if g.Bubble? then g.messages else [g.call] }

  /** Whether `b` goes on where `a` has stopped. */
  predicate Continues(a: Element, b: Element) {
    a.Message? && b.Message? && a.senderId == b.senderId && b.sentAt - a.sentAt <= HOUR
  }

  /** A run of messages by one sender, none more than an hour after the one before. */
  ghost predicate IsRun(ms: seq<Element>) {
    && |ms| > 0
    && ms[0].Message?
    && (forall i :: 0 <= i < |ms| ==> ms[i].Message? && ms[i].senderId == ms[0].senderId)
    && (forall i :: 0 < i < |ms| ==> Continues(ms[i - 1], ms[i]))
  }

  ghost predicate GoodGroup(g: Group) { if g.Bubble? then IsRun(g.messages) else g.call.Call? }

  /** Two neighbours that could have been one bubble. */
  predicate Mergeable(a: Group, b: Group) {
    a.Bubble? && b.Bubble? && |a.messages| > 0 && |b.messages| > 0 &&
    Continues(a.messages[|a.messages| - 1], b.messages[0])
  }

  /** The grouping of `content`: it flattens to it, every bubble is a run, and no two neighbours
      could be merged. */
  ghost predicate Groups(groups: seq<Group>, content: seq<Element>) {
    && Flatten(groups) == content
    && (forall i :: 0 <= i < |groups| ==> GoodGroup(groups[i]))
    && (forall i :: 0 < i < |groups| ==> !Mergeable(groups[i - 1], groups[i]))
  }

  /** The last bubble, when the next message may still join it. */
  ghost predicate Joinable(groups: seq<Group>, sender: Option<UserId>, last: int) {
    if sender == None then groups == [] || groups[|groups| - 1].Entry?
    else
      |groups| > 0 && groups[|groups| - 1].Bubble? &&
      var ms := groups[|groups| - 1].messages;
      |ms| > 0 && ms[|ms| - 1].Message? && ms[|ms| - 1].senderId == sender.value && ms[|ms| - 1].sentAt == last
  }

  lemma Pushed(groups: seq<Group>, content: seq<Element>, g: Group, e: Element)
    requires Groups(groups, content) && GoodGroup(g) && Elements(g) == [e]
    requires groups == [] || !Mergeable(groups[|groups| - 1], g)
    ensures Groups(groups + [g], content + [e])
  {
    assert (groups + [g])[..|groups|] == groups;
  }

  lemma Joined(groups: seq<Group>, content: seq<Element>, e: Element)
    requires Groups(groups, content) && |groups| > 0 && groups[|groups| - 1].Bubble?
    requires var ms := groups[|groups| - 1].messages; |ms| > 0 && Continues(ms[|ms| - 1], e)
    ensures var n := |groups| - 1;
            Groups(groups[n := Bubble(groups[n].messages + [e])], content + [e])
  {
    var n := |groups| - 1;
    var ms := groups[n].messages;
    var groups' := groups[n := Bubble(ms + [e])];
    assert groups'[..n] == groups[..n];
    assert Flatten(groups') == Flatten(groups[..n]) + (ms + [e]);
    assert Flatten(groups[..n]) + (ms + [e]) == content + [e];
    assert GoodGroup(groups[n]);
    RunGrows(ms, e);
    assert n > 0 ==> !Mergeable(groups[n - 1], groups[n]);
    hide Flatten, IsRun;
  }

  lemma RunGrows(ms: seq<Element>, e: Element)
    requires IsRun(ms) && Continues(ms[|ms| - 1], e)
    ensures IsRun(ms + [e])
  {
  }

  lemma PushedCall(groups: seq<Group>, content: seq<Element>, e: Element)
    requires Groups(groups, content) && e.Call?
    ensures Groups(groups + [Entry(e)], content + [e]) && Joinable(groups + [Entry(e)], None, e.startDate)
  {
    Pushed(groups, content, Entry(e), e);
  }

  lemma PushedMessage(groups: seq<Group>, content: seq<Element>, sender: Option<UserId>, last: int, e: Element)
    requires Groups(groups, content) && Joinable(groups, sender, last) && e.Message?
    requires !(sender == Some(e.senderId) && e.sentAt - last <= HOUR)
    ensures Groups(groups + [Bubble([e])], content + [e])
    ensures Joinable(groups + [Bubble([e])], Some(e.senderId), e.sentAt)
  {
    Pushed(groups, content, Bubble([e]), e);
  }

  lemma JoinedMessage(groups: seq<Group>, content: seq<Element>, sender: Option<UserId>, last: int, e: Element)
    requires Groups(groups, content) && Joinable(groups, sender, last) && e.Message?
    requires sender == Some(e.senderId) && e.sentAt - last <= HOUR
    ensures |groups| > 0 && groups[|groups| - 1].Bubble?
    ensures var n := |groups| - 1; var groups' := groups[n := Bubble(groups[n].messages + [e])];
            Groups(groups', content + [e]) && Joinable(groups', sender, e.sentAt)
  {
    Joined(groups, content, e);
  }

  /** `getChannelContent`. Times of sending are never zero, which would pass for none. After a call
      `currentIdx` is past the end, but there is then no current sender to use it for. */
  method GetChannelContent(messages: seq<Element>, calls: seq<Element>) returns (groupedContent: seq<Group>)
    ensures Groups(groupedContent, SortByDate(messages + calls))
  {
    var content := SortByDate(messages + calls);
    var currentSender: Option<UserId>, lastDate, currentIdx := None, 0, 0;
    groupedContent := [];
    assert Groups([], content[..0]) && Joinable([], None, 0);
    hide Groups, Joinable, SortByDate;
    var i := 0;
    while i < |content|
      invariant 0 <= i <= |content|
      invariant Groups(groupedContent, content[..i])
      invariant Joinable(groupedContent, currentSender, lastDate)
      invariant currentSender.Some? ==> currentIdx == |groupedContent| - 1
    {
      var e := content[i];
      assert content[..i + 1] == content[..i] + [e];
      if e.Call? {
        PushedCall(groupedContent, content[..i], e);
        groupedContent := groupedContent + [Entry(e)];
        currentIdx := |groupedContent|;
        currentSender := None;
        lastDate := e.startDate;
      } else if currentSender == Some(e.senderId) && e.sentAt - lastDate <= HOUR {
        JoinedMessage(groupedContent, content[..i], currentSender, lastDate, e);
        groupedContent := groupedContent[currentIdx := Bubble(groupedContent[currentIdx].messages + [e])];
        lastDate := e.sentAt;
      } else {
        PushedMessage(groupedContent, content[..i], currentSender, lastDate, e);
        groupedContent := groupedContent + [Bubble([e])];
        currentIdx := |groupedContent| - 1;
        currentSender := Some(e.senderId);
        lastDate := e.sentAt;
      }
      i := i + 1;
    }
    assert content[..i] == content;
  }

  // ------------------------------------------------------------ where bubbles end

  /** Some group ends after the first `k` elements. */
  ghost predicate EndsAt(groups: seq<Group>, k: nat) { exists g: nat :: EndsAfter(groups, g, k) }

  ghost predicate EndsAfter(groups: seq<Group>, g: nat, k: nat) { g <= |groups| && |Flatten(groups[..g])| == k }

  /** The elements on either side of place `k` are messages by one sender at most an hour apart. */
  ghost predicate Together(content: seq<Element>, k: nat)
    requires 0 < k < |content|
  {
    match (content[k - 1], content[k])
    case (Message(_, a, s), Message(_, b, t)) => a == b && t - s <= 3600
    case _ => false
  }

  /** The last group begins where the others end. */
  lemma LastGroup(groups: seq<Group>, content: seq<Element>)
    requires Groups(groups, content) && groups != []
    ensures var n := |groups| - 1; var m := |Flatten(groups[..n])|;
            Groups(groups[..n], content[..m]) && m < |content| && content[m..] == Elements(groups[n])
  {
    var n := |groups| - 1;
    assert GoodGroup(groups[n]) && |Elements(groups[n])| > 0;
    forall i | 0 < i < n ensures !Mergeable(groups[..n][i - 1], groups[..n][i]) {
      assert !Mergeable(groups[i - 1], groups[i]);
    }
  }

  lemma EndsEarlier(groups: seq<Group>, k: nat)
    requires groups != []
    ensures EndsAt(groups, k) <==> EndsAt(groups[..|groups| - 1], k) || k == |Flatten(groups)|
  {
    var n := |groups| - 1;
    assert groups[..|groups|] == groups;
    assert k == |Flatten(groups)| <==> EndsAfter(groups, |groups|, k);
    forall g: nat | g <= n ensures EndsAfter(groups[..n], g, k) <==> EndsAfter(groups, g, k) {
      assert groups[..n][..g] == groups[..g];
    }
    assert forall g: nat :: EndsAfter(groups[..n], g, k) ==> g <= n;
    assert forall g: nat :: EndsAfter(groups, g, k) ==> g <= n || g == |groups|;
    hide EndsAfter, Flatten;
    if EndsAt(groups, k) {
      var g: nat :| EndsAfter(groups, g, k);
    }
  }

  lemma {:induction false} EndsWithin(groups: seq<Group>, k: nat)
    requires EndsAt(groups, k)
    ensures k <= |Flatten(groups)|
  {
    if groups != [] {
      EndsEarlier(groups, k);
      if EndsAt(groups[..|groups| - 1], k) {
        EndsWithin(groups[..|groups| - 1], k);
      }
    } else {
      var g: nat :| EndsAfter(groups, g, k);
    }
  }

  /** In the grouping of any content, two neighbours are shown in one bubble exactly when they are
      messages by one sender at most an hour apart. */
  lemma {:induction false} BubblesEndWhere(groups: seq<Group>, content: seq<Element>, k: nat)
    requires Groups(groups, content) && 0 < k < |content|
    ensures !EndsAt(groups, k) <==> Together(content, k)
    decreases |groups|
  {
    var n := |groups| - 1;
    LastGroup(groups, content);
    EndsEarlier(groups, k);
    var init, m := groups[..n], |Flatten(groups[..n])|;
    assert content[..m][..] == content[..m];
    if k < m {
      BubblesEndWhere(init, content[..m], k);
    } else if k == m {
      assert EndsAfter(init, n, m) by { assert init[..n] == init; }
      Boundary(groups, content);
    } else {
      if EndsAt(init, k) {
        EndsWithin(init, k);
      }
      Inside(groups, content, k);
    }
    hide Groups, Together;
  }

  /** Between the last two groups nothing could be merged. */
  lemma Boundary(groups: seq<Group>, content: seq<Element>)
    requires Groups(groups, content) && groups != []
    requires 0 < |Flatten(groups[..|groups| - 1])| < |content|
    ensures !Together(content, |Flatten(groups[..|groups| - 1])|)
  {
    var n := |groups| - 1;
    var m := |Flatten(groups[..n])|;
    LastGroup(groups, content);
    assert n > 0;
    LastOf(groups[..n], content[..m]);
    assert !Mergeable(groups[n - 1], groups[n]);
    assert GoodGroup(groups[n - 1]) && GoodGroup(groups[n]);
    assert content[m] == content[m..][0];
    hide Flatten, Groups;
  }

  lemma Inside(groups: seq<Group>, content: seq<Element>, k: nat)
    requires Groups(groups, content) && groups != []
    requires |Flatten(groups[..|groups| - 1])| < k < |content|
    ensures Together(content, k)
  {
    var n := |groups| - 1;
    var m := |Flatten(groups[..n])|;
    LastGroup(groups, content);
    assert GoodGroup(groups[n]);
    var es := content[m..];
    assert content[k - 1] == es[k - 1 - m] && content[k] == es[k - m];
    assert Continues(es[k - m - 1], es[k - m]);
    hide Flatten, Groups;
  }

  // --------------------------------------------------------------- uniqueness

  /** A grouping without its last element. */
  function Shorter(groups: seq<Group>): seq<Group>
    requires |groups| > 0
  {
    var n := |groups| - 1;
    if groups[n].Bubble? && |groups[n].messages| > 1
    then groups[n := Bubble(groups[n].messages[..|groups[n].messages| - 1])]
    else groups[..n]
  }

  lemma LastOf(groups: seq<Group>, content: seq<Element>)
    requires Groups(groups, content) && groups != []
    ensures |content| > 0
    ensures var g := groups[|groups| - 1];
            content[|content| - 1] == if g.Bubble? then g.messages[|g.messages| - 1] else g.call
  {
    assert GoodGroup(groups[|groups| - 1]);
  }

  lemma ShorterGroups(groups: seq<Group>, content: seq<Element>)
    requires Groups(groups, content) && groups != [] && |content| > 0
    ensures Groups(Shorter(groups), content[..|content| - 1])
  {
    var n, short := |groups| - 1, Shorter(groups);
    assert GoodGroup(groups[n]);
    if groups[n].Bubble? && |groups[n].messages| > 1 {
      var ms := groups[n].messages;
      var m := |ms| - 1;
      assert short[..n] == groups[..n];
      assert Flatten(short) == Flatten(groups[..n]) + ms[..m];
      assert content == Flatten(groups[..n]) + ms;
      assert content[..|content| - 1] == Flatten(groups[..n]) + ms[..m];
      assert IsRun(ms[..m]);
      assert n > 0 ==> !Mergeable(groups[n - 1], groups[n]);
      hide Flatten, IsRun;
    } else {
      assert |Elements(groups[n])| == 1;
      assert content[..|content| - 1] == Flatten(groups[..n]);
    }
  }

  /** The grouping of a content is unique: being a grouping determines the result. */
  lemma {:induction false} GroupingIsUnique(a: seq<Group>, b: seq<Group>, content: seq<Element>)
    requires Groups(a, content) && Groups(b, content)
    ensures a == b
    decreases |content|
  {
    if content == [] {
      if a != [] { LastOf(a, content); }
      if b != [] { LastOf(b, content); }
    } else {
      assert a != [] && b != [];
      LastOf(a, content);
      LastOf(b, content);
      ShorterGroups(a, content);
      ShorterGroups(b, content);
      GroupingIsUnique(Shorter(a), Shorter(b), content[..|content| - 1]);
      SameEnd(a, b, content);
    }
  }

  /** What the last group looks like is told by its last element and what is before it. */
  lemma SameEnd(a: seq<Group>, b: seq<Group>, content: seq<Element>)
    requires Groups(a, content) && Groups(b, content) && a != [] && b != [] && |content| > 0
    requires Shorter(a) == Shorter(b)
    ensures a == b
  {
    LastOf(a, content);
    LastOf(b, content);
    var e, m, n := content[|content| - 1], |a| - 1, |b| - 1;
    assert GoodGroup(a[m]) && GoodGroup(b[n]);
    assert a == a[..m] + [a[m]] && b == b[..n] + [b[n]];
    var grownA, grownB := a[m].Bubble? && |a[m].messages| > 1, b[n].Bubble? && |b[n].messages| > 1;
    if grownA == grownB {
      if grownA {
        GrownIs(a, b, e);
      } else {
        assert a[m] == if e.Message? then Bubble([e]) else Entry(e);
        assert b[n] == if e.Message? then Bubble([e]) else Entry(e);
      }
    } else if grownA {
      GrownIsMergeable(a, b, e);
      assert false;
    } else {
      GrownIsMergeable(b, a, e);
      assert false;
    }
  }

  lemma GrownIs(a: seq<Group>, b: seq<Group>, e: Element)
    requires |a| > 0 && |b| > 0 && a[|a| - 1].Bubble? && b[|b| - 1].Bubble? && Shorter(a) == Shorter(b)
    requires |a[|a| - 1].messages| > 1 && |b[|b| - 1].messages| > 1
    requires a[|a| - 1].messages[|a[|a| - 1].messages| - 1] == e == b[|b| - 1].messages[|b[|b| - 1].messages| - 1]
    ensures a == b
  {
    var n, s := |a| - 1, Shorter(a);
    assert |a| == |s| == |b|;
    var x, y := a[n].messages, b[n].messages;
    assert s[n] == Bubble(x[..|x| - 1]) == Bubble(y[..|y| - 1]);
    assert x == x[..|x| - 1] + [e] && y == y[..|y| - 1] + [e];
    forall i | 0 <= i < n ensures a[i] == b[i] {
      assert s[i] == a[i] && s[i] == b[i];
    }
  }

  /** A message that continues the last bubble would be mergeable in a bubble of its own. */
  lemma GrownIsMergeable(a: seq<Group>, b: seq<Group>, e: Element)
    requires |a| > 0 && a[|a| - 1].Bubble? && IsRun(a[|a| - 1].messages) && |a[|a| - 1].messages| > 1
    requires a[|a| - 1].messages[|a[|a| - 1].messages| - 1] == e
    requires |b| > 0 && b[|b| - 1] == Bubble([e]) && Shorter(a) == Shorter(b)
    ensures |b| > 1 && Mergeable(b[|b| - 2], b[|b| - 1])
  {
    var n, ms := |b| - 1, a[|a| - 1].messages;
    assert Shorter(b) == b[..n] && |a| == n;
    assert b[n - 1] == b[..n][n - 1] == Bubble(ms[..|ms| - 1]);
    assert Continues(ms[|ms| - 2], ms[|ms| - 1]);
  }
}
