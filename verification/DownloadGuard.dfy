/** When a file session refuses to start a download because it takes the file for being downloaded
    already. */
module DownloadGuard {
  import opened Options
  import opened FileChunks
  import opened Transfer
  import opened FileSessions
  import TransferSystem

  /** The session's table, and the chains of writes whose completion is still to come. */
  datatype Session = Session(progress: map<FileId, nat>, chains: map<FileId, Chain>)

  datatype Step =
    | Add(id: FileId, stored: Option<string>, garbage: nat -> Buffer)   // add_download_file
    | Sent(id: FileId)                                                  // a write has completed
    | Remove(id: FileId)                                                // remove_file

  /** A stopped download is not asked for again while a write of it is outstanding. */
  ghost predicate Enabled(s: Session, step: Step) {
    match step
    case Add(id, _, _) => id in s.chains ==> id in s.progress
    case Sent(id) => id in s.chains
    case Remove(_) => true
  }

  ghost function Apply(s: Session, step: Step): Session
    requires Enabled(s, step)
  {
    match step
    case Add(id, stored, garbage) =>
      var (progress, reply) := AddDownload(s.progress, id, stored);
      Session(progress,
              if reply == NoReply then s.chains[id := TransferSystem.NewChain(id, stored.value, garbage)] else s.chains)
    case Sent(id) =>
      var (progress, chain, next) := ChunkSent(s.progress, s.chains[id]);
      Session(progress, if next.Some? then s.chains[id := chain] else s.chains - {id})
    case Remove(id) => s.(progress := s.progress - {id})
  }

  ghost predicate Admissible(s: Session, steps: seq<Step>)
    decreases |steps|
  {
    steps == [] || (Enabled(s, steps[0]) && Admissible(Apply(s, steps[0]), steps[1..]))
  }

  ghost function Run(s: Session, steps: seq<Step>): Session
    requires Admissible(s, steps)
    decreases |steps|
  {
    if steps == [] then s else Run(Apply(s, steps[0]), steps[1..])
  }

  /** How many writes of a file have completed. */
  ghost function Completions(steps: seq<Step>, id: FileId): nat {
    if steps == [] then 0 else (if steps[0] == Sent(id) then 1 else 0) + Completions(steps[1..], id)
  }

  ghost predicate Refused(s: Session, id: FileId) {
    forall stored :: AddDownload(s.progress, id, stored).1 == ErrorReply(FileAlreadyDownloading)
  }

  lemma RefusedIs(s: Session, id: FileId)
    ensures Refused(s, id) <==> id in s.progress
  {
    assert Refused(s, id) ==> AddDownload(s.progress, id, None).1 == ErrorReply(FileAlreadyDownloading);
  }

  /** The file is being sent, and `sent` of its writes have completed. */
  ghost predicate Sending(s: Session, id: FileId, plan: seq<FileChunk>, sent: nat) {
    id in s.progress && s.progress[id] == sent && id in s.chains && s.chains[id].id == id &&
    OnTrack(s.chains[id], plan, sent)
  }

  /** The entry of a download that has never started. */
  ghost predicate LeftBehind(s: Session, id: FileId) { id in s.progress && id !in s.chains }

  lemma StepWhileSending(s: Session, step: Step, id: FileId, plan: seq<FileChunk>, sent: nat)
    requires Sending(s, id, plan, sent) && Enabled(s, step) && step != Remove(id) && ChainsOwn(s)
    ensures ChainsOwn(Apply(s, step))
    ensures step != Sent(id) ==> Sending(Apply(s, step), id, plan, sent)
    ensures step == Sent(id) && sent + 1 < |plan| ==> Sending(Apply(s, step), id, plan, sent + 1)
    ensures step == Sent(id) && sent + 1 == |plan| ==> id !in Apply(s, step).progress && id !in Apply(s, step).chains
  {
    if step == Sent(id) {
      ChunkSentKeepsTrack(s.progress, s.chains[id], plan);
      hide OnTrack;
    } else {
      hide OnTrack, TransferSystem.NewChain;
    }
  }

  ghost predicate ChainsOwn(s: Session) { forall id: FileId :: id in s.chains ==> s.chains[id].id == id }

  lemma StepKeepsOwn(s: Session, step: Step)
    requires ChainsOwn(s) && Enabled(s, step)
    ensures ChainsOwn(Apply(s, step))
  {
  }

  lemma {:induction false} SendingGoesOn(s: Session, steps: seq<Step>, id: FileId, plan: seq<FileChunk>, sent: nat)
    requires Sending(s, id, plan, sent) && ChainsOwn(s) && Admissible(s, steps) && Remove(id) !in steps
    requires sent + Completions(steps, id) < |plan|
    ensures Sending(Run(s, steps), id, plan, sent + Completions(steps, id)) && ChainsOwn(Run(s, steps))
    decreases |steps|
  {
    if steps != [] {
      assert steps == [steps[0]] + steps[1..];
      StepWhileSending(s, steps[0], id, plan, sent);
      hide Sending, Apply, Enabled, ChainsOwn;
      SendingGoesOn(Apply(s, steps[0]), steps[1..], id, plan, if steps[0] == Sent(id) then sent + 1 else sent);
    }
  }

  lemma {:induction false} LeftBehindStays(s: Session, steps: seq<Step>, id: FileId)
    requires LeftBehind(s, id) && ChainsOwn(s) && Admissible(s, steps) && Remove(id) !in steps
    ensures LeftBehind(Run(s, steps), id)
    decreases |steps|
  {
    if steps != [] {
      assert steps == [steps[0]] + steps[1..];
      StepLeavesBehind(s, steps[0], id);
      StepKeepsOwn(s, steps[0]);
      hide LeftBehind, Apply, Enabled, ChainsOwn;
      LeftBehindStays(Apply(s, steps[0]), steps[1..], id);
    }
  }

  lemma StepLeavesBehind(s: Session, step: Step, id: FileId)
    requires LeftBehind(s, id) && ChainsOwn(s) && Enabled(s, step) && step != Remove(id)
    ensures LeftBehind(Apply(s, step), id)
  {
    hide TransferSystem.NewChain;
  }

  lemma {:induction false} RunSnoc(s: Session, steps: seq<Step>, step: Step)
    requires Admissible(s, steps + [step])
    ensures Admissible(s, steps) && Enabled(Run(s, steps), step) && Run(s, steps + [step]) == Apply(Run(s, steps), step)
    decreases |steps|
  {
    if steps == [] {
      assert [] + [step] == [step] && [step][1..] == [];
    } else {
      assert (steps + [step])[0] == steps[0] && (steps + [step])[1..] == steps[1..] + [step];
      RunSnoc(Apply(s, steps[0]), steps[1..], step);
    }
  }

  lemma {:induction false} CompletionsSnoc(steps: seq<Step>, step: Step, id: FileId)
    ensures Completions(steps + [step], id) == Completions(steps, id) + if step == Sent(id) then 1 else 0
  {
    if steps == [] {
      assert [] + [step] == [step] && [step][1..] == [];
    } else {
      assert (steps + [step])[0] == steps[0] && (steps + [step])[1..] == steps[1..] + [step];
      CompletionsSnoc(steps[1..], step, id);
    }
  }

  ghost predicate Idle(s: Session, id: FileId) { ChainsOwn(s) && id !in s.progress && id !in s.chains }

  lemma AddedIs(s: Session, id: FileId, stored: Option<string>, garbage: nat -> Buffer)
    requires Idle(s, id)
    ensures Enabled(s, Add(id, stored, garbage)) && ChainsOwn(Apply(s, Add(id, stored, garbage)))
    ensures var t := Apply(s, Add(id, stored, garbage));
            if Fails(stored) then LeftBehind(t, id)
            else |stored.value| > 0 &&
                 |TransferSystem.PlanOf(stored.value, garbage)| == CalcAmountOfChunks(|stored.value|) &&
                 Sending(t, id, TransferSystem.PlanOf(stored.value, garbage), 0)
  {
    if !Fails(stored) {
      AmountIsCover(|stored.value|, CalcAmountOfChunks(|stored.value|));
    }
    hide ReadInto;
  }

  /** A download asked for while its id is idle. Afterwards the id is refused as already downloading:
      if the file was missing or empty, at every moment until `remove_file`; otherwise as long as
      fewer writes have completed than the file has chunks, and not any more with the last of them. */
  lemma RefusedUntil(s: Session, id: FileId, stored: Option<string>, garbage: nat -> Buffer, steps: seq<Step>)
    requires Idle(s, id) && Admissible(Apply(s, Add(id, stored, garbage)), steps) && Remove(id) !in steps
    ensures var t := Run(Apply(s, Add(id, stored, garbage)), steps);
            (Fails(stored) ==> Refused(t, id)) &&
            (!Fails(stored) && Completions(steps, id) < CalcAmountOfChunks(|stored.value|) ==> Refused(t, id)) &&
            ((!Fails(stored) && Completions(steps, id) == CalcAmountOfChunks(|stored.value|) &&
              steps != [] && steps[|steps| - 1] == Sent(id)) ==> !Refused(t, id)) &&
            !Refused(Apply(t, Remove(id)), id)
  {
    var added := Apply(s, Add(id, stored, garbage));
    var t := Run(added, steps);
    AddedIs(s, id, stored, garbage);
    RefusedIs(t, id);
    RefusedIs(Apply(t, Remove(id)), id);
    hide Refused, Apply, Run, Admissible, Completions, TransferSystem.PlanOf, CalcAmountOfChunks, OnTrack;
    if Fails(stored) {
      LeftBehindStays(added, steps, id);
    } else {
      var plan := TransferSystem.PlanOf(stored.value, garbage);
      if Completions(steps, id) < |plan| {
        SendingGoesOn(added, steps, id, plan, 0);
      } else if Completions(steps, id) == |plan| && steps != [] && steps[|steps| - 1] == Sent(id) {
        LastWriteFrees(added, steps, id, plan);
      }
    }
  }

  lemma LastWriteFrees(s: Session, steps: seq<Step>, id: FileId, plan: seq<FileChunk>)
    requires Sending(s, id, plan, 0) && ChainsOwn(s) && Admissible(s, steps) && Remove(id) !in steps
    requires steps != [] && steps[|steps| - 1] == Sent(id) && Completions(steps, id) == |plan|
    ensures id !in Run(s, steps).progress
  {
    var init := steps[..|steps| - 1];
    assert steps == init + [Sent(id)];
    RunSnoc(s, init, Sent(id));
    CompletionsSnoc(init, Sent(id), id);
    hide Run, Admissible, Completions, Apply, Enabled, Sending, ChainsOwn;
    SendingGoesOn(s, init, id, plan, 0);
    StepWhileSending(Run(s, init), Sent(id), id, plan, |plan| - 1);
  }

  /** The remaining writes of a file, one after the other. */
  ghost function Sends(id: FileId, n: nat): seq<Step> { if n == 0 then [] else [Sent(id)] + Sends(id, n - 1) }

  lemma {:induction false} SendsFree(s: Session, id: FileId, plan: seq<FileChunk>, sent: nat)
    requires Sending(s, id, plan, sent) && ChainsOwn(s)
    ensures Admissible(s, Sends(id, |plan| - sent)) && Remove(id) !in Sends(id, |plan| - sent)
    ensures id !in Run(s, Sends(id, |plan| - sent)).progress
    decreases |plan| - sent
  {
    var t := Apply(s, Sent(id));
    StepWhileSending(s, Sent(id), id, plan, sent);
    assert Sends(id, |plan| - sent)[1..] == Sends(id, |plan| - sent - 1);
    if sent + 1 < |plan| {
      SendsFree(t, id, plan, sent + 1);
    }
  }

  /** Refused for good, unless somebody stops the transmission of what is not being transmitted:
      that is what becomes of an id exactly when its file was missing or empty. */
  lemma RefusedForGoodIff(s: Session, id: FileId, stored: Option<string>, garbage: nat -> Buffer)
    requires Idle(s, id)
    ensures RefusedForGood(Apply(s, Add(id, stored, garbage)), id) <==> Fails(stored)
  {
    var added := Apply(s, Add(id, stored, garbage));
    AddedIs(s, id, stored, garbage);
    if Fails(stored) {
      forall steps | Admissible(added, steps) && Remove(id) !in steps ensures Refused(Run(added, steps), id) {
        LeftBehindStays(added, steps, id);
        RefusedIs(Run(added, steps), id);
      }
    } else {
      var plan := TransferSystem.PlanOf(stored.value, garbage);
      SendsFree(added, id, plan, 0);
      RefusedIs(Run(added, Sends(id, |plan|)), id);
      hide Run, Admissible, Sends, Apply, Refused;
    }
  }

  ghost predicate RefusedForGood(s: Session, id: FileId) {
    forall steps :: Admissible(s, steps) && Remove(id) !in steps ==> Refused(Run(s, steps), id)
  }
}
