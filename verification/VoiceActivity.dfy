/** Who is speaking: the manager's activation table, the changes it hands out at every flush, and
    the map that the client builds from them. */
module VoiceActivity {
  import opened Options

  type UserId = string

  const DEACTIVATION_TIMEOUT_MS: nat := 250
  const UINT64: nat := 0x1_0000_0000_0000_0000

  datatype Activation = Activation(activated: bool, lastActivated: nat)

  datatype State = State(activation: map<UserId, Activation>, changed: map<UserId, bool>)

  /** Unsigned 64-bit subtraction, as the timeout test does it. */
  function Elapsed(now: nat, since: nat): nat { (now - since) % UINT64 }

  predicate Expired(a: Activation, now: nat) {
    a.activated && Elapsed(now, a.lastActivated) >= DEACTIVATION_TIMEOUT_MS
  }

  function Activate(s: State, u: UserId, now: nat): State {
    State(s.activation[u := Activation(true, now)],
          if u in s.activation && s.activation[u].activated then s.changed else s.changed[u := true])
  }

  function Timed(activation: map<UserId, Activation>, now: nat): map<UserId, Activation> {
    map u | u in activation :: if Expired(activation[u], now) then activation[u].(activated := false) else activation[u]
  }

  /** The changes with those that the timeout adds. */
  function WithTimeouts(s: State, now: nat): map<UserId, bool> {
    s.changed + map u | u in s.activation && Expired(s.activation[u], now) :: false
  }

  /** The users whom a flush has deactivated when those in `todo` are still to come. */
  predicate TimedOut(s: State, todo: set<UserId>, now: nat, u: UserId) {
    u in s.activation && u !in todo && Expired(s.activation[u], now)
  }

  lemma AllTimed(s: State, activation: map<UserId, Activation>, changed: map<UserId, bool>, now: nat)
    requires activation.Keys == s.activation.Keys
    requires forall u :: u in activation ==> activation[u] == Timed(s.activation, now)[u]
    requires forall u :: u in changed <==> u in s.changed || TimedOut(s, {}, now, u)
    requires forall u :: u in changed ==> changed[u] == (!TimedOut(s, {}, now, u) && s.changed[u])
    ensures activation == Timed(s.activation, now) && changed == WithTimeouts(s, now)
  {
    hide Expired;
  }

  class Manager {
    var activation: map<UserId, Activation>
    var changed: map<UserId, bool>

    ghost function Contents(): State
      reads this
    {
      State(activation, changed)
    }

    constructor ()
      ensures Contents() == State(map[], map[])
    {
      activation, changed := map[], map[];
    }

    method ActivateVoice(user: UserId, now: nat)
      modifies this
      ensures Contents() == Activate(old(Contents()), user, now)
    {
      if user in activation {
        if !activation[user].activated {
          activation := activation[user := Activation(true, now)];
          changed := changed[user := true];
        } else {
          activation := activation[user := activation[user].(lastActivated := now)];
        }
      } else {
        activation := activation[user := Activation(true, now)];
        changed := changed[user := true];
      }
    }

    /** One turn of the activation thread; the table is unordered, so users come in any order. */
    method Flush(now: nat) returns (event: Option<map<UserId, bool>>)
      modifies this
      ensures Contents() == State(Timed(old(activation), now), map[])
      ensures event == if WithTimeouts(old(Contents()), now) == map[] then None
                       else Some(WithTimeouts(old(Contents()), now))
    {
      hide Elapsed;
      ghost var before := Contents();
      var todo := activation.Keys;
      while todo != {}
        invariant todo <= activation.Keys == before.activation.Keys
        invariant forall u :: u in activation ==>
          activation[u] == if u in todo then before.activation[u] else Timed(before.activation, now)[u]
        invariant forall u :: u in changed <==> u in before.changed || TimedOut(before, todo, now, u)
        invariant forall u :: u in changed ==> changed[u] == (!TimedOut(before, todo, now, u) && before.changed[u])
        decreases |todo|
      {
        var u :| u in todo;
        todo := todo - {u};
        if activation[u].activated && Elapsed(now, activation[u].lastActivated) >= DEACTIVATION_TIMEOUT_MS {
          activation := activation[u := activation[u].(activated := false)];
          changed := changed[u := false];
        }
      }
      AllTimed(before, activation, changed, now);
      event := if changed == map[] then None else Some(changed);
      changed := map[];
    }
  }

  // ------------------------------------------------------------------ runs

  datatype Step =
    | Spoke(user: UserId, at: nat)     // activate_voice
    | Flushed(at: nat)                 // a turn of the activation thread, its event replayed
    | Cleared                          // the client leaves its call and empties its map

  datatype World = World(manager: State, shown: map<UserId, bool>)

  const START: World := World(State(map[], map[]), map[])

  function Take(w: World, step: Step): World {
    match step
    case Spoke(u, at) => w.(manager := Activate(w.manager, u, at))
    case Flushed(at) =>
      World(State(Timed(w.manager.activation, at), map[]), w.shown + WithTimeouts(w.manager, at))
    case Cleared => w.(shown := map[])
  }

  function Run(steps: seq<Step>): World {
    if steps == [] then START else Take(Run(steps[..|steps| - 1]), steps[|steps| - 1])
  }

  /** When a user last spoke. */
  function LastSpoke(steps: seq<Step>, u: UserId): Option<nat> {
    if steps == [] then None
    else
      var last := steps[|steps| - 1];
      if last.Spoke? && last.user == u then Some(last.at) else LastSpoke(steps[..|steps| - 1], u)
  }

  /** The clock does not go back, and fits its type. */
  ghost predicate Clocked(steps: seq<Step>) {
    && (forall i :: 0 <= i < |steps| && !steps[i].Cleared? ==> steps[i].at < UINT64)
    && (forall i, j :: 0 <= i < j < |steps| && !steps[i].Cleared? && !steps[j].Cleared? ==> steps[i].at <= steps[j].at)
  }

  predicate Active(shown: map<UserId, bool>, u: UserId) { u in shown && shown[u] }

  predicate Flag(activation: map<UserId, Activation>, u: UserId) { u in activation && activation[u].activated }

  /** What the client will show of a user once the pending changes are handed out. */
  predicate Due(w: World, u: UserId) { Active(w.shown + w.manager.changed, u) }

  ghost predicate FlagAfter(steps: seq<Step>, j: nat, u: UserId)
    requires j <= |steps|
  {
    Flag(Run(steps[..j]).manager.activation, u)
  }

  /** The client has emptied its map since it was told that the user's flag is up, and the flag has
      been up all the time. */
  ghost predicate Dropped(steps: seq<Step>, u: UserId) {
    exists i :: 0 <= i < |steps| && DroppedAt(steps, i, u) && forall j :: i <= j <= |steps| ==> FlagAfter(steps, j, u)
  }

  /** A clearing when the client had been told: the change is not one still to be handed out. */
  ghost predicate DroppedAt(steps: seq<Step>, i: nat, u: UserId)
    requires i < |steps|
  {
    steps[i].Cleared? && u !in Run(steps[..i]).manager.changed
  }

  lemma DroppedStep(steps: seq<Step>, u: UserId)
    requires steps != []
    ensures var before, last := steps[..|steps| - 1], steps[|steps| - 1];
            Dropped(steps, u) <==>
            Flag(Run(steps).manager.activation, u) &&
            (Dropped(before, u) ||
             (last.Cleared? && Flag(Run(before).manager.activation, u) && u !in Run(before).manager.changed))
  {
    var n := |steps| - 1;
    var before := steps[..n];
    assert steps[..n + 1] == steps;
    forall j | 0 <= j <= n ensures FlagAfter(steps, j, u) == FlagAfter(before, j, u) {
      assert steps[..j] == before[..j];
    }
    forall j | 0 <= j < n ensures DroppedAt(steps, j, u) == DroppedAt(before, j, u) {
      assert steps[..j] == before[..j];
    }
    assert FlagAfter(steps, n + 1, u) == Flag(Run(steps).manager.activation, u);
    assert before[..n] == before;
    assert FlagAfter(before, n, u) == Flag(Run(before).manager.activation, u);
    assert DroppedAt(steps, n, u) == (steps[n].Cleared? && u !in Run(before).manager.changed);
    hide Run, FlagAfter, DroppedAt;
    if Dropped(before, u) && Flag(Run(steps).manager.activation, u) {
      var i :| 0 <= i < n && DroppedAt(before, i, u) && forall j :: i <= j <= n ==> FlagAfter(before, j, u);
      assert DroppedAt(steps, i, u);
      assert forall j :: i <= j <= n + 1 ==> FlagAfter(steps, j, u);
    }
    if DroppedAt(steps, n, u) && Flag(Run(before).manager.activation, u) && Flag(Run(steps).manager.activation, u) {
      assert forall j :: n <= j <= n + 1 ==> FlagAfter(steps, j, u);
    }
    if Dropped(steps, u) {
      var i :| 0 <= i < n + 1 && DroppedAt(steps, i, u) && forall j :: i <= j <= n + 1 ==> FlagAfter(steps, j, u);
      assert FlagAfter(steps, n + 1, u);
      if i < n {
        assert DroppedAt(before, i, u);
        assert forall j :: i <= j <= n ==> FlagAfter(before, j, u);
      } else {
        assert FlagAfter(steps, n, u);
      }
    }
  }

  lemma DroppedIsUp(steps: seq<Step>, u: UserId)
    requires Dropped(steps, u)
    ensures Flag(Run(steps).manager.activation, u)
  {
    assert FlagAfter(steps, |steps|, u);
    assert steps[..|steps|] == steps;
  }

  /** What is still to be handed out is raised flags only. */
  lemma {:induction false} PendingIsRaised(steps: seq<Step>, u: UserId)
    ensures u in Run(steps).manager.changed ==>
              Run(steps).manager.changed[u] && Flag(Run(steps).manager.activation, u)
  {
    if steps != [] {
      PendingIsRaised(steps[..|steps| - 1], u);
    }
  }

  lemma {:induction false} FlagsAreDue(steps: seq<Step>, u: UserId)
    ensures Due(Run(steps), u) <==> Flag(Run(steps).manager.activation, u) && !Dropped(steps, u)
  {
    if steps != [] {
      var before := steps[..|steps| - 1];
      FlagsAreDue(before, u);
      PendingIsRaised(before, u);
      DroppedStep(steps, u);
      if Dropped(before, u) {
        DroppedIsUp(before, u);
      }
      TakenIsDue(Run(before), steps[|steps| - 1], u);
      assert Run(steps) == Take(Run(before), steps[|steps| - 1]);
      hide Dropped, Due, Flag, Take, Run;
    }
  }

  /** What a step does to what is due of a user: a clearing takes away what has been handed out, a
      raised flag brings it, a lowered one takes it back. */
  lemma TakenIsDue(w: World, step: Step, u: UserId)
    requires Due(w, u) ==> Flag(w.manager.activation, u)
    requires u in w.manager.changed ==> w.manager.changed[u] && Flag(w.manager.activation, u)
    ensures var t := Take(w, step);
            Due(t, u) <==> Flag(t.manager.activation, u) &&
                           (Due(w, u) || !Flag(w.manager.activation, u)) &&
                           !(step.Cleared? && Flag(w.manager.activation, u) && u !in w.manager.changed)
  {
    hide Elapsed;
  }

  /** After every flush the client shows exactly those users whose flag is up and whom it has not
      dropped, by emptying its map, since it was told. */
  lemma ReplayShowsFlags(steps: seq<Step>, u: UserId)
    requires |steps| > 0 && steps[|steps| - 1].Flushed?
    ensures Active(Run(steps).shown, u) <==> Flag(Run(steps).manager.activation, u) && !Dropped(steps, u)
  {
    FlagsAreDue(steps, u);
    assert Run(steps).shown + map[] == Run(steps).shown;
    hide Dropped;
  }

  /** The table remembers when a user last spoke, and a lowered flag means a timeout since. */
  lemma {:induction false} TableRemembers(steps: seq<Step>, u: UserId, now: nat)
    requires Clocked(steps) && now < UINT64 && forall i :: 0 <= i < |steps| && !steps[i].Cleared? ==> steps[i].at <= now
    ensures var a := Run(steps).manager.activation;
            (u in a <==> LastSpoke(steps, u).Some?) &&
            (u in a ==> LastSpoke(steps, u) == Some(a[u].lastActivated) && a[u].lastActivated <= now &&
                        (!a[u].activated ==> now - a[u].lastActivated >= DEACTIVATION_TIMEOUT_MS))
  {
    if steps != [] {
      var before, last := steps[..|steps| - 1], steps[|steps| - 1];
      TableRemembers(before, u, now);
      if last.Flushed? {
        TableRemembers(before, u, last.at);
        ElapsedIs(Run(before).manager, u, last.at);
      }
    }
  }

  /** With a clock that does not go back the unsigned difference is the plain one. */
  lemma ElapsedIs(s: State, u: UserId, now: nat)
    requires u in s.activation ==> s.activation[u].lastActivated <= now < UINT64
    ensures u in s.activation ==> Elapsed(now, s.activation[u].lastActivated) == now - s.activation[u].lastActivated
  {
  }

  /** Just after a flush at `t` exactly those are shown as speaking who have spoken less than 250 ms
      before and whom the client has not dropped, by emptying its map, since it was told. */
  lemma ShownSpokeRecently(steps: seq<Step>, u: UserId)
    requires Clocked(steps) && |steps| > 0 && steps[|steps| - 1].Flushed?
    ensures var t, spoke := steps[|steps| - 1].at, LastSpoke(steps, u);
            (spoke.Some? ==> spoke.value <= t) &&
            (Active(Run(steps).shown, u)
             <==> spoke.Some? && t < spoke.value + DEACTIVATION_TIMEOUT_MS && !Dropped(steps, u))
  {
    var before, t := steps[..|steps| - 1], steps[|steps| - 1].at;
    ReplayShowsFlags(steps, u);
    TableRemembers(steps, u, t);
    TableRemembers(before, u, t);
    ElapsedIs(Run(before).manager, u, t);
    hide Dropped;
  }

  /** The user's flag has gone up since the last flush. */
  predicate RaisedSinceFlush(steps: seq<Step>, u: UserId) {
    steps != [] &&
    var before, last := steps[..|steps| - 1], steps[|steps| - 1];
    match last
    case Flushed(_) => false
    case Spoke(x, _) => RaisedSinceFlush(before, u) || (x == u && !Flag(Run(before).manager.activation, u))
    case Cleared => RaisedSinceFlush(before, u)
  }

  lemma {:induction false} ChangedIsRaised(steps: seq<Step>, u: UserId)
    ensures u in Run(steps).manager.changed <==> RaisedSinceFlush(steps, u)
  {
    if steps != [] {
      ChangedIsRaised(steps[..|steps| - 1], u);
    }
  }

  /** A flush tells of exactly those users whose flag has gone up since the flush before, or goes down
      with this one, and of each what their flag now is: nothing is told twice. */
  lemma FlushTells(steps: seq<Step>, at: nat, u: UserId)
    ensures var told := WithTimeouts(Run(steps).manager, at);
            var was := Flag(Run(steps).manager.activation, u);
            var stays := Flag(Run(steps + [Flushed(at)]).manager.activation, u);
            (u in told <==> RaisedSinceFlush(steps, u) || (was && !stays)) &&
            (u in told ==> told[u] == stays)
  {
    ChangedIsRaised(steps, u);
    PendingIsRaised(steps, u);
    assert (steps + [Flushed(at)])[..|steps|] == steps;
    hide RaisedSinceFlush, Elapsed;
  }
}
