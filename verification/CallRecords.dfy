/** What the rows of `calls` and `call_participants` hold, told from the operations of a run. */
module CallRecords {
  import opened Options
  import opened VoiceServer
  import opened VoiceHistory

  ghost predicate Runs(s: Server, c: ChannelId, id: CallId) { c in s.channels && s.channels[c].callId == id }

  function TimeOf(op: Op): int { if op.SetStateOp? then 0 else op.now }

  /** What an operation does to a call's row. */
  ghost function RowTurned(s: Server, t: Server, op: Op, r: CallRow, id: CallId): CallRow {
    CallRow(r.callerId, r.channelId,
            if Runs(s, r.channelId, id) && !Runs(t, r.channelId, id) then Some(TimeOf(op)) else r.endDate,
            if op.JoinOp? && op.channel == r.channelId && Runs(t, r.channelId, id) then r.participants + {op.user}
            else r.participants)
  }

  lemma LeaveRow(s: Server, u: UserId, now: int, id: CallId)
    requires Consistent(s)
    ensures var t := Leave(s, u, now).server;
            t.rows.Keys == s.rows.Keys &&
            (id in s.rows ==>
               var c := s.rows[id].channelId;
               (Runs(t, c, id) ==> Runs(s, c, id)) &&
               t.rows[id]
               == if Runs(s, c, id) && !Runs(t, c, id) then s.rows[id].(endDate := Some(now)) else s.rows[id])
  {
    assert JoinedListed(s);
    hide TablesAgree, OccupiedOrNew, Occupied;
  }

  lemma EnterRow(s: Server, u: UserId, c: ChannelId, muted: bool, deafen: bool, now: int, id: CallId)
    requires RowsMatch(s)
    ensures var t := Enter(s, u, c, muted, deafen, now).server;
            t.rows.Keys == s.rows.Keys &&
            (forall d :: Runs(t, d, id) <==> Runs(s, d, id)) &&
            (id in s.rows ==>
               t.rows[id] == if c == s.rows[id].channelId && Runs(s, c, id)
                             then s.rows[id].(participants := s.rows[id].participants + {u}) else s.rows[id])
  {
  }

  lemma JoinRow(s: Server, op: Op, id: CallId)
    requires Consistent(s) && op.JoinOp?
    ensures var t := Perform(s, op).server;
            t.rows.Keys == s.rows.Keys &&
            (id in s.rows ==> t.rows[id] == RowTurned(s, t, op, s.rows[id], id))
  {
    var left := Leave(s, op.user, op.now).server;
    LeaveRow(s, op.user, op.now, id);
    LeaveKeeps(s, op.user, op.now);
    assert RowsMatch(left);
    EnterRow(left, op.user, op.channel, op.muted, op.deafen, op.now, id);
    hide Consistent, RowsMatch, Leave, Enter, Runs;
  }

  /** An operation that touches no call at all. */
  lemma SameRows(s: Server, op: Op, id: CallId)
    requires Consistent(s) && (op.SetStateOp? || op.ExpireOp?)
    ensures var t := Perform(s, op).server;
            t.rows == s.rows && forall c :: Runs(t, c, id) <==> Runs(s, c, id)
  {
    hide RowsMatch, OccupiedOrNew;
  }

  lemma InitRow(s: Server, op: Op, id: CallId)
    requires Consistent(s) && Fresh(s, op) && op.InitOp?
    ensures var t := Perform(s, op).server;
            (id in t.rows <==> id in s.rows || (op.callId == id && op.channel !in s.channels)) &&
            (id in s.rows ==> t.rows[id] == RowTurned(s, t, op, s.rows[id], id)) &&
            (id in t.rows && id !in s.rows ==> t.rows[id] == CallRow(op.caller, op.channel, None, {}))
  {
    hide TablesAgree, OccupiedOrNew, PendingStates;
  }

  lemma RowTurns(s: Server, op: Op, id: CallId)
    requires Consistent(s) && Fresh(s, op)
    ensures var t := Perform(s, op).server;
            (id in t.rows
             <==> id in s.rows || (op.InitOp? && op.callId == id && op.channel !in s.channels)) &&
            (id in s.rows ==> t.rows[id] == RowTurned(s, t, op, s.rows[id], id)) &&
            (id in t.rows && id !in s.rows ==> t.rows[id] == CallRow(op.caller, op.channel, None, {}))
  {
    hide Fresh;
    match op
    case InitOp(_, _, _, _, _) => InitRow(s, op, id); hide Consistent, Perform, Runs;
    case JoinOp(_, _, _, _, _) => JoinRow(s, op, id); hide Consistent, Perform, Runs;
    case LeaveOp(u, now) => LeaveRow(s, u, now, id); hide Consistent, Leave, Runs;
    case _ => SameRows(s, op, id); hide Consistent, Perform, Runs;
  }

  /** The operation starts the call. */
  ghost predicate Starts(ops: seq<Op>, i: nat, id: CallId)
    requires IsRun(ops) && i < |ops|
  {
    ops[i].InitOp? && ops[i].callId == id && ops[i].channel !in At(ops, i).channels
  }

  /** A join while the call runs. */
  ghost predicate TakesPart(ops: seq<Op>, k: nat, j: nat, u: UserId, c: ChannelId, id: CallId)
    requires IsRun(ops) && k <= |ops|
  {
    j < k && ops[j].JoinOp? && ops[j].user == u && ops[j].channel == c && Runs(At(ops, j + 1), c, id)
  }

  ghost predicate Ends(ops: seq<Op>, k: nat, j: nat, c: ChannelId, id: CallId)
    requires IsRun(ops) && k <= |ops|
  {
    j < k && Runs(At(ops, j), c, id) && !Runs(At(ops, j + 1), c, id)
  }

  ghost predicate RowIs(ops: seq<Op>, k: nat, id: CallId, r: CallRow)
    requires IsRun(ops) && k <= |ops|
  {
    && (forall u :: u in r.participants <==> exists j: nat :: TakesPart(ops, k, j, u, r.channelId, id))
    && (r.endDate.Some? <==> exists j: nat :: Ends(ops, k, j, r.channelId, id))
    && (forall j: nat :: Ends(ops, k, j, r.channelId, id) ==> r.endDate == Some(TimeOf(ops[j])))
  }

  ghost predicate RecordIs(ops: seq<Op>, k: nat, id: CallId)
    requires IsRun(ops) && k <= |ops|
  {
    var rows := At(ops, k).rows;
    && (id in rows <==> exists i: nat :: i < k && Starts(ops, i, id))
    && (forall i: nat :: i < k && Starts(ops, i, id) ==>
          id in rows && rows[id].callerId == ops[i].caller && rows[id].channelId == ops[i].channel)
    && (id in rows ==> RowIs(ops, k, id, rows[id]))
  }

  /** A call that runs has its row, and keeps it. */
  lemma {:induction false} RowStays(ops: seq<Op>, j: nat, k: nat, c: ChannelId, id: CallId)
    requires IsRun(ops) && j <= k <= |ops| && Runs(At(ops, j), c, id)
    ensures id in At(ops, k).rows
    decreases k
  {
    hide At, Perform, Consistent, IsRun, Runs;
    if k == j {
      AtIsConsistent(ops, k);
      RunsHasRow(At(ops, k), c, id);
    } else {
      RowStays(ops, j, k - 1, c, id);
      AtStep(ops, k - 1);
      RowTurns(At(ops, k - 1), ops[k - 1], id);
    }
  }

  lemma RunsHasRow(s: Server, c: ChannelId, id: CallId)
    requires Consistent(s) && Runs(s, c, id)
    ensures id in s.rows
  {
  }

  lemma AtIsConsistent(ops: seq<Op>, k: nat)
    requires IsRun(ops) && k <= |ops|
    ensures Consistent(At(ops, k))
  {
    hide Consistent;
  }

  lemma EndsStep(ops: seq<Op>, n: nat, k: nat, c: ChannelId, id: CallId)
    requires IsRun(ops) && n < |ops| && k == n + 1
    ensures forall j: nat ::
              Ends(ops, k, j, c, id)
              <==> Ends(ops, n, j, c, id) || (j == n && Runs(At(ops, n), c, id) && !Runs(At(ops, k), c, id))
  {
    hide Runs, At, IsRun, Consistent;
  }

  lemma TakesPartStep(ops: seq<Op>, n: nat, k: nat, u: UserId, c: ChannelId, id: CallId)
    requires IsRun(ops) && n < |ops| && k == n + 1
    ensures forall j: nat ::
              TakesPart(ops, k, j, u, c, id)
              <==> TakesPart(ops, n, j, u, c, id) ||
                   (j == n && ops[n].JoinOp? && ops[n].user == u && ops[n].channel == c && Runs(At(ops, k), c, id))
  {
    hide Runs, At, IsRun, Consistent;
  }

  lemma NewRowIs(ops: seq<Op>, n: nat, k: nat, id: CallId, r: CallRow)
    requires IsRun(ops) && n < |ops| && k == n + 1 && id !in At(ops, n).rows
    requires ops[n].InitOp? && r.participants == {} && r.endDate == None
    ensures RowIs(ops, k, id, r)
  {
    forall j: nat, u | TakesPart(ops, k, j, u, r.channelId, id) ensures false {
      RowStays(ops, j + 1, n, r.channelId, id);
    }
    forall j: nat | Ends(ops, k, j, r.channelId, id) ensures false {
      RowStays(ops, j, n, r.channelId, id);
    }
    hide At, IsRun, Consistent, TakesPart, Ends;
  }

  lemma OldRowIs(ops: seq<Op>, n: nat, k: nat, id: CallId, r: CallRow)
    requires IsRun(ops) && n < |ops| && k == n + 1 && RowIs(ops, n, id, r)
    requires Runs(At(ops, n), r.channelId, id) ==> r.endDate == None
    ensures RowIs(ops, k, id, RowTurned(At(ops, n), At(ops, k), ops[n], r, id))
  {
    hide At, IsRun, Consistent, TakesPart, Ends, Runs;
    OldRowPeople(ops, n, k, id, r);
    EndsStep(ops, n, k, r.channelId, id);
    assert Runs(At(ops, n), r.channelId, id) && !Runs(At(ops, k), r.channelId, id)
           ==> Ends(ops, k, n, r.channelId, id);
  }

  lemma OldRowPeople(ops: seq<Op>, n: nat, k: nat, id: CallId, r: CallRow)
    requires IsRun(ops) && n < |ops| && k == n + 1
    requires forall u :: u in r.participants <==> exists j: nat :: TakesPart(ops, n, j, u, r.channelId, id)
    ensures forall u :: u in RowTurned(At(ops, n), At(ops, k), ops[n], r, id).participants
                        <==> exists j: nat :: TakesPart(ops, k, j, u, r.channelId, id)
  {
    var r', c := RowTurned(At(ops, n), At(ops, k), ops[n], r, id), r.channelId;
    hide At, IsRun, Consistent, TakesPart, Ends, Runs;
    forall u ensures u in r'.participants <==> exists j: nat :: TakesPart(ops, k, j, u, c, id) {
      TakesPartStep(ops, n, k, u, c, id);
      assert TakesPart(ops, k, n, u, c, id) <==>
             TakesPart(ops, n, n, u, c, id) ||
             (ops[n].JoinOp? && ops[n].user == u && ops[n].channel == c && Runs(At(ops, k), c, id));
    }
  }

  lemma StartsStep(ops: seq<Op>, n: nat, k: nat, id: CallId)
    requires IsRun(ops) && n < |ops| && k == n + 1
    ensures forall i: nat ::
              i < k && Starts(ops, i, id) <==> (i < n && Starts(ops, i, id)) || (i == n && Starts(ops, n, id))
  {
    hide Starts, At, IsRun;
  }

  lemma RecordStep(ops: seq<Op>, n: nat, k: nat, id: CallId)
    requires IsRun(ops) && n < |ops| && k == n + 1 && RecordIs(ops, n, id)
    requires Fresh(At(ops, n), ops[n]) && Consistent(At(ops, n))
    requires At(ops, k) == Perform(At(ops, n), ops[n]).server
    ensures RecordIs(ops, k, id)
  {
    hide At, IsRun, Consistent, Perform, RowIs, Runs;
    var s, t, op := At(ops, n), At(ops, k), ops[n];
    RowTurns(s, op, id);
    StartsStep(ops, n, k, id);
    assert Starts(ops, n, id) <==> op.InitOp? && op.callId == id && op.channel !in s.channels;
    hide Starts;
    if id in s.rows {
      OpenRuns(s, id);
      OldRowIs(ops, n, k, id, s.rows[id]);
      assert !Starts(ops, n, id);
    } else if id in t.rows {
      NewRowIs(ops, n, k, id, t.rows[id]);
      assert Starts(ops, n, id);
    }
  }

  lemma RecordStart(ops: seq<Op>, id: CallId)
    requires IsRun(ops)
    ensures RecordIs(ops, 0, id)
  {
    AtStart(ops);
    hide At, IsRun, RowIs, Starts, Consistent;
  }

  lemma {:induction false} RecordsTellHistory(ops: seq<Op>, k: nat, id: CallId)
    requires IsRun(ops) && k <= |ops|
    ensures RecordIs(ops, k, id)
    decreases k
  {
    if k == 0 {
      RecordStart(ops, id);
    } else {
      AtStep(ops, k - 1);
      hide At, IsRun, Consistent, Perform, Fresh, RecordIs;
      RecordsTellHistory(ops, k - 1, id);
      RecordStep(ops, k - 1, k, id);
    }
  }

  lemma OpenRuns(s: Server, id: CallId)
    requires Consistent(s) && id in s.rows
    ensures Runs(s, s.rows[id].channelId, id) <==> s.rows[id].endDate == None
  {
  }

  /** In every run a call has a record exactly if some operation has started it; the record names the
      caller and the channel of that operation; its participants are exactly those who have joined
      the channel while the call was running; and it has an end exactly if the call does not run any
      more, which is the time of the operation that ended it. */
  lemma EveryCallIsRecorded(ops: seq<Op>, id: CallId)
    requires IsRun(ops)
    ensures RecordIs(ops, |ops|, id)
    ensures var t := At(ops, |ops|);
            id in t.rows ==> (t.rows[id].endDate == None <==> Runs(t, t.rows[id].channelId, id))
  {
    RecordsTellHistory(ops, |ops|, id);
    AtConsistent(ops);
    if id in At(ops, |ops|).rows {
      OpenRuns(At(ops, |ops|), id);
    }
    hide At, IsRun, Consistent, RecordIs, Runs;
  }
}
