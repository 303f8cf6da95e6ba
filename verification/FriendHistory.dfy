/** What the table of friendships stands for. Of any two users a run of the system is a walk through
    three relations, in which nothing but the two users' own steps counts. */
module FriendHistory {
  import opened Friendships

  /** How two users stand to each other. */
  datatype Relation = Strangers | Asked(asker: UserId) | Friends

  /** Who is registered, who is online, and how two given users stand to each other. */
  datatype Book = Book(registered: set<UserId>, online: set<UserId>, relation: Relation)

  const BLANK: Book := Book({}, {}, Strangers)

  const EMPTY: System := System({}, [], map[])

  /** The user who acts and the one acted upon are the two. */
  predicate Between(x: UserId, y: UserId, u: UserId, f: UserId) { (x == u && y == f) || (x == f && y == u) }

  /** What a step means: strangers may ask, whoever is asked may approve, and either may end it. */
  function Turn(b: Book, step: Step, u: UserId, f: UserId): Book {
    match step
    case Register(x) => b.(registered := b.registered + {x})
    case Login(x) => b.(online := b.online + {x})
    case Logout(x) => b.(online := b.online - {x})
    case Send(x, y) =>
      if Between(x, y, u, f) && y in b.registered && b.relation == Strangers then b.(relation := Asked(x)) else b
    case Set(x, y, action) =>
      if !Between(x, y, u, f) then b
      else if action.Approves? then (if b.relation == Asked(y) then b.(relation := Friends) else b)
      else b.(relation := Strangers)
  }

  function Walk(b: Book, steps: seq<Step>, u: UserId, f: UserId): Book
    decreases |steps|
  {
    if steps == [] then b else Walk(Turn(b, steps[0], u, f), steps[1..], u, f)
  }

  ghost function RelationOf(rows: seq<Row>, u: UserId, f: UserId): Relation {
    if Row(u, f, true) in rows || Row(f, u, true) in rows then Friends
    else if Row(u, f, false) in rows then Asked(u)
    else if Row(f, u, false) in rows then Asked(f) else Strangers
  }

  /** The table, the users and the clients say what the book says. */
  ghost predicate Tells(s: System, b: Book, u: UserId, f: UserId) {
    s.users == b.registered && s.clients.Keys == b.online && RelationOf(s.rows, u, f) == b.relation
  }

  /** A row between two users is one of the four. */
  lemma RowsBetween(rows: seq<Row>, u: UserId, f: UserId)
    requires OneRowPerPair(rows) && u != f
    ensures (exists x :: x in rows && Links(x, u, f)) <==> RelationOf(rows, u, f) != Strangers
    ensures RelationOf(rows, u, f) == Asked(u) <==> Row(u, f, false) in rows
    ensures RelationOf(rows, u, f) == Asked(f) <==> Row(f, u, false) in rows
  {
    assert forall approved :: Links(Row(u, f, approved), u, f) && Links(Row(f, u, approved), u, f);
    if x :| x in rows && Links(x, u, f) {
      forall y | y in rows && Links(y, u, f) ensures y == x {
        OneRow(rows, x, y);
      }
      assert x in {Row(u, f, false), Row(f, u, false), Row(u, f, true), Row(f, u, true)};
    }
    hide OneRowPerPair;
  }

  /** A change of other rows leaves the two as they are. */
  lemma RelationFrame(rows: seq<Row>, rows': seq<Row>, u: UserId, f: UserId)
    requires forall x :: Links(x, u, f) ==> (x in rows' <==> x in rows)
    ensures RelationOf(rows', u, f) == RelationOf(rows, u, f)
  {
    assert forall approved :: Links(Row(u, f, approved), u, f) && Links(Row(f, u, approved), u, f);
  }

  lemma SendStepIs(s: System, x: UserId, y: UserId)
    requires x in s.clients
    ensures var t := SendStep(s, x, y);
            t.rows == (if x == y then s.rows else SendRequest(s.rows, s.users, x, y).rows) &&
            t.users == s.users && t.clients.Keys == s.clients.Keys
  {
    hide SendRequest, HandleEvent, SendFulfilled;
  }

  lemma SendTurns(s: System, b: Book, x: UserId, y: UserId, u: UserId, f: UserId)
    requires TableOk(s) && x in s.clients && u != f && Tells(s, b, u, f)
    ensures Tells(SendStep(s, x, y), Turn(b, Send(x, y), u, f), u, f)
  {
    SendStepIs(s, x, y);
    hide SendStep, SendRequest, OneRowPerPair;
    if x != y {
      SendRelation(s, SendRequest(s.rows, s.users, x, y).rows, x, y, u, f);
    }
    hide RelationOf;
  }

  lemma SendRelation(s: System, rows': seq<Row>, x: UserId, y: UserId, u: UserId, f: UserId)
    requires OneRowPerPair(s.rows) && u != f && x != y
    requires rows' == SendRequest(s.rows, s.users, x, y).rows
    ensures var b := Book(s.users, {}, RelationOf(s.rows, u, f));
            RelationOf(rows', u, f) == Turn(b, Send(x, y), u, f).relation
  {
    SendAnswers(s.rows, s.users, x, y);
    SendRows(s.rows, s.users, x, y);
    hide SendRequest, OneRowPerPair;
    if Between(x, y, u, f) {
      RowsBetween(s.rows, u, f);
      RowsBetween(rows', u, f);
      assert forall r :: Links(r, x, y) <==> Links(r, u, f);
    } else {
      assert forall r :: Links(r, u, f) ==> r != Row(x, y, false);
      RelationFrame(s.rows, rows', u, f);
    }
  }

  lemma StatusStepIs(s: System, x: UserId, y: UserId, action: Action)
    requires x in s.clients
    ensures var t := StatusStep(s, x, y, action);
            t.rows == (if x == y then s.rows else SetStatus(s.rows, s.users, x, y, action == Approves).rows) &&
            t.users == s.users && t.clients.Keys == s.clients.Keys
  {
    hide SetStatus, HandleEvent, Fulfilled;
  }

  lemma SetTurns(s: System, b: Book, x: UserId, y: UserId, action: Action, u: UserId, f: UserId)
    requires TableOk(s) && x in s.clients && u != f && Tells(s, b, u, f)
    ensures Tells(StatusStep(s, x, y, action), Turn(b, Set(x, y, action), u, f), u, f)
  {
    StatusStepIs(s, x, y, action);
    hide StatusStep, SetStatus, OneRowPerPair;
    if x != y {
      SetRelation(s, SetStatus(s.rows, s.users, x, y, action == Approves).rows, x, y, action, u, f);
    }
    hide RelationOf;
  }

  lemma EitherWay(rows: seq<Row>, u: UserId, f: UserId)
    requires OneRowPerPair(rows) && u != f
    ensures RelationOf(rows, u, f) == RelationOf(rows, f, u)
  {
    RowsBetween(rows, u, f);
    RowsBetween(rows, f, u);
    hide OneRowPerPair;
  }

  lemma SetBetween(s: System, rows': seq<Row>, x: UserId, y: UserId, action: Action)
    requires OneRowPerPair(s.rows) && x != y
    requires forall r :: r in s.rows ==> r.requester in s.users && r.recipient in s.users
    requires rows' == SetStatus(s.rows, s.users, x, y, action == Approves).rows
    ensures var relation := RelationOf(s.rows, x, y);
            RelationOf(rows', x, y)
            == if !action.Approves? then Strangers else if relation == Asked(y) then Friends else relation
  {
    hide SetStatus, OneRowPerPair;
    StatusAnswers(s.rows, s.users, x, y, action == Approves);
    StatusRows(s.rows, s.users, x, y, action == Approves);
    RowsBetween(s.rows, x, y);
    RowsBetween(rows', x, y);
  }

  lemma SetRelation(s: System, rows': seq<Row>, x: UserId, y: UserId, action: Action, u: UserId, f: UserId)
    requires OneRowPerPair(s.rows) && u != f && x != y
    requires forall r :: r in s.rows ==> r.requester in s.users && r.recipient in s.users
    requires rows' == SetStatus(s.rows, s.users, x, y, action == Approves).rows
    ensures var b := Book({}, {}, RelationOf(s.rows, u, f));
            RelationOf(rows', u, f) == Turn(b, Set(x, y, action), u, f).relation
  {
    hide SetStatus, OneRowPerPair;
    if Between(x, y, u, f) {
      StatusRows(s.rows, s.users, x, y, action == Approves);
      SetBetween(s, rows', x, y, action);
      EitherWay(s.rows, u, f);
      EitherWay(rows', u, f);
      hide RelationOf;
    } else {
      StatusRows(s.rows, s.users, x, y, action == Approves);
      assert forall r :: Links(r, u, f) ==> !Links(r, x, y);
      assert Links(Row(y, x, false), x, y) && Links(Row(y, x, true), x, y);
      RelationFrame(s.rows, rows', u, f);
    }
  }

  /** The table's part of the invariant; it does not depend on which buttons are used. */
  ghost predicate TableOk(s: System) {
    && OneRowPerPair(s.rows)
    && s.clients.Keys <= s.users
    && forall r :: r in s.rows ==> r.requester in s.users && r.recipient in s.users
  }

  lemma StepKeepsTable(s: System, step: Step)
    requires TableOk(s) && Possible(s, step)
    ensures TableOk(Apply(s, step))
  {
    hide OneRowPerPair, SendRequest, SetStatus;
    match step
    case Send(x, y) =>
      SendStepIs(s, x, y);
      if x != y {
        SendRows(s.rows, s.users, x, y);
      }
      hide SendStep;
    case Set(x, y, action) =>
      StatusStepIs(s, x, y, action);
      if x != y {
        StatusRows(s.rows, s.users, x, y, action == Approves);
      }
      hide StatusStep;
    case _ =>
  }

  lemma StepTurns(s: System, b: Book, step: Step, u: UserId, f: UserId)
    requires TableOk(s) && Possible(s, step) && u != f && Tells(s, b, u, f)
    ensures Tells(Apply(s, step), Turn(b, step, u, f), u, f)
  {
    match step
    case Send(x, y) => SendTurns(s, b, x, y, u, f);
    case Set(x, y, action) => SetTurns(s, b, x, y, action, u, f);
    case _ =>
  }

  ghost predicate AllPossible(s: System, steps: seq<Step>)
    decreases |steps|
  {
    steps == [] || (Possible(s, steps[0]) && AllPossible(Apply(s, steps[0]), steps[1..]))
  }

  ghost function Play(s: System, steps: seq<Step>): System
    requires AllPossible(s, steps)
    decreases |steps|
  {
    if steps == [] then s else Play(Apply(s, steps[0]), steps[1..])
  }

  lemma {:induction false} RunWalks(s: System, b: Book, steps: seq<Step>, u: UserId, f: UserId)
    requires TableOk(s) && AllPossible(s, steps) && u != f && Tells(s, b, u, f)
    ensures Tells(Play(s, steps), Walk(b, steps, u, f), u, f)
    decreases |steps|
  {
    if steps != [] {
      StepTurns(s, b, steps[0], u, f);
      StepKeepsTable(s, steps[0]);
      hide TableOk, Possible, Apply, Turn, Tells;
      RunWalks(Apply(s, steps[0]), Turn(b, steps[0], u, f), steps[1..], u, f);
    }
  }

  /** In every run, whichever buttons are used, the table says of any two users what their own steps
      have led to, and who is registered and who is online is as the steps have it. */
  lemma TableTellsHistory(steps: seq<Step>, u: UserId, f: UserId)
    requires AllPossible(EMPTY, steps) && u != f
    ensures Tells(Play(EMPTY, steps), Walk(BLANK, steps, u, f), u, f)
  {
    RunWalks(EMPTY, BLANK, steps, u, f);
  }
}
