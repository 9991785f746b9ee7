/** Any interleaving of calls that record episodes on the in-memory store, interrupted at any point. */
module EpisodeRecording {
  import opened Kernel
  import opened Text
  import opened EpisodeStore

  datatype Call = Call(episode: Episode, eventId: Uuid)

  datatype Stage =
    | Waiting
    | Entered(work: Committed)
    | Appended(work: Committed, result: AppendResult)
    | Evented(work: Committed, result: AppendResult)
    | Saved(result: AppendResult)
    | Answered(result: AppendResult)
    | Refused(error: MemoryError)
    | Interrupted

  /** `recorded` holds the calls whose episode was committed; no step looks at it. */
  datatype System = System(committed: Committed, holder: Option<nat>, stages: seq<Stage>, recorded: set<nat>)

  predicate FreshCalls(calls: seq<Call>) {
    forall p, q :: 0 <= p < q < |calls| ==> calls[p].episode.id != calls[q].episode.id
  }

  predicate Init(calls: seq<Call>, s: System) {
    && s.committed == Committed([], map[], []) && s.holder == None && s.recorded == {}
    && |s.stages| == |calls| && forall p :: 0 <= p < |calls| ==> s.stages[p] == Waiting
  }

  function To(s: System, p: nat, stage: Stage): System
    requires p < |s.stages|
  {
    s.(stages := s.stages[p := stage])
  }

  function Leave(s: System, p: nat, stage: Stage): System
    requires p < |s.stages|
  {
    To(s, p, stage).(holder := None)
  }

  predicate Enter(calls: seq<Call>, s: System, s': System, p: nat) {
    && p < |calls| == |s.stages| && s.stages[p] == Waiting && s.holder == None
    && s' == To(s, p, Entered(s.committed)).(holder := Some(p))
  }

  predicate DoAppend(calls: seq<Call>, s: System, s': System, p: nat) {
    && p < |calls| == |s.stages| && s.stages[p].Entered?
    && match Append(s.stages[p].work, calls[p].episode)
       case Err(error) => s' == Leave(s, p, Refused(error))
       case Ok((work, result)) => s' == To(s, p, Appended(work, result))
  }

  predicate DoPublish(calls: seq<Call>, s: System, s': System, p: nat) {
    && p < |calls| == |s.stages| && s.stages[p].Appended?
    && if !s.stages[p].result.created then s' == To(s, p, Evented(s.stages[p].work, s.stages[p].result))
       else
         match Publish(s.stages[p].work, RecordedEvent(calls[p].episode, calls[p].eventId))
         case Err(error) => s' == Leave(s, p, Refused(error))
         case Ok(work) => s' == To(s, p, Evented(work, s.stages[p].result))
  }

  predicate DoCommit(calls: seq<Call>, s: System, s': System, p: nat) {
    && p < |calls| == |s.stages| && s.stages[p].Evented?
    && s' == To(s, p, Stage.Saved(s.stages[p].result)).(committed := s.stages[p].work,
                 recorded := if s.stages[p].result.created then s.recorded + {p} else s.recorded)
  }

  predicate Exit(calls: seq<Call>, s: System, s': System, p: nat) {
    && p < |calls| == |s.stages| && s.stages[p].Saved?
    && s' == Leave(s, p, Answered(s.stages[p].result))
  }

  predicate Inside(stage: Stage) {
    stage.Entered? || stage.Appended? || stage.Evented? || stage.Saved?
  }

  /** An exception, a cancelled coroutine: a call that was inside leaves the transaction. */
  predicate Interrupt(calls: seq<Call>, s: System, s': System, p: nat) {
    && p < |calls| == |s.stages|
    && if Inside(s.stages[p]) then s' == Leave(s, p, Interrupted) else s.stages[p] == Waiting && s' == To(s, p, Interrupted)
  }

  ghost predicate Next(calls: seq<Call>, s: System, s': System) {
    exists p: nat :: NextBy(calls, s, s', p)
  }

  ghost predicate NextBy(calls: seq<Call>, s: System, s': System, p: nat) {
    || Enter(calls, s, s', p) || DoAppend(calls, s, s', p) || DoPublish(calls, s, s', p)
    || DoCommit(calls, s, s', p) || Exit(calls, s, s', p) || Interrupt(calls, s, s', p)
  }

  ghost predicate IsRun(calls: seq<Call>, run: seq<System>) {
    |run| > 0 && Init(calls, run[0]) && forall i :: 0 <= i < |run| - 1 ==> Next(calls, run[i], run[i + 1])
  }

  // ----- The invariant ----------------------------------------------------------------------------

  /** Where a call stands relative to the committed state. */
  ghost predicate StageHolds(call: Call, c: Committed, recorded: bool, stage: Stage) {
    var e := call.episode;
    match stage
    case Waiting => !recorded
    case Entered(work) => !recorded && work == c
    case Appended(work, result) => !recorded && Append(c, e) == Ok((work, result))
    case Evented(work, result) => !recorded && Record(c, e, call.eventId) == (work, Ok(result))
    case Saved(result) => AnswerHolds(e, c, recorded, result)
    case Answered(result) => AnswerHolds(e, c, recorded, result)
    case Refused(error) => error == IdempotencyConflict && !recorded
    case Interrupted => true
  }

  /** An answer names the committed episode of the call's tenant and key, and says `created` exactly to
      the call that recorded it. */
  ghost predicate AnswerHolds(e: Episode, c: Committed, recorded: bool, result: AppendResult) {
    KeyOf(e) in c.index && result.episode == c.index[KeyOf(e)]
    && (result.created <==> recorded) && (result.created <==> result.episode == e.id)
  }

  ghost predicate EpisodesRecorded(calls: seq<Call>, c: Committed, recorded: set<nat>) {
    && (forall p :: p in recorded ==> p < |calls| && calls[p].episode in c.episodes)
    && (forall e :: e in c.episodes ==> exists p :: p in recorded && p < |calls| && calls[p].episode == e)
  }

  ghost predicate Inv(calls: seq<Call>, s: System) {
    && |s.stages| == |calls| && Consistent(s.committed) && EpisodesRecorded(calls, s.committed, s.recorded)
    && (forall p :: 0 <= p < |calls| ==> StageHolds(calls[p], s.committed, p in s.recorded, s.stages[p]))
    && (forall p :: 0 <= p < |calls| ==> (Inside(s.stages[p]) <==> s.holder == Some(p)))
  }

  /** An episode that has not been recorded is new to the committed state. */
  lemma Unrecorded(calls: seq<Call>, c: Committed, recorded: set<nat>, p: nat)
    requires FreshCalls(calls) && EpisodesRecorded(calls, c, recorded) && p < |calls| && p !in recorded
    ensures FreshEpisode(c, calls[p].episode)
  {
    forall x | x in c.episodes ensures x.id != calls[p].episode.id {
      var q :| q in recorded && q < |calls| && calls[q].episode == x;
    }
  }

  lemma OneCallMoves(calls: seq<Call>, s: System, s': System, p: nat, stage: Stage)
    requires Inv(calls, s) && p < |calls| && s'.committed == s.committed && s'.recorded == s.recorded
    requires s'.stages == s.stages[p := stage] && StageHolds(calls[p], s.committed, p in s.recorded, stage)
    requires s.holder == None || s.holder == Some(p)
    requires s'.holder == if Inside(stage) then Some(p) else None
    ensures Inv(calls, s')
  {
    forall q | 0 <= q < |calls|
      ensures StageHolds(calls[q], s'.committed, q in s'.recorded, s'.stages[q])
      ensures Inside(s'.stages[q]) <==> s'.holder == Some(q)
    {
      assert Inside(s.stages[q]) <==> s.holder == Some(q);
      assert StageHolds(calls[q], s.committed, q in s.recorded, s.stages[q]);
    }
  }

  /** What a committing call makes of the committed state, and how its answer stands in it. */
  lemma CommitRecords(call: Call, c: Committed, work: Committed, result: AppendResult, after: Committed)
    requires Consistent(c) && FreshEpisode(c, call.episode) && Record(c, call.episode, call.eventId) == (work, Ok(result))
    requires after == work
    ensures Consistent(after) && (forall k :: k in c.index ==> k in after.index && after.index[k] == c.index[k])
    ensures c.episodes <= after.episodes && c.events <= after.events
    ensures after.episodes == if result.created then c.episodes + [call.episode] else c.episodes
    ensures AnswerHolds(call.episode, after, result.created, result)
  {
    RecordAnswers(c, call.episode, call.eventId);
    RecordKeeps(c, call.episode, call.eventId);
    if KeyOf(call.episode) in c.index {
      ForeignEpisode(c, call.episode);
    }
  }

  /** A call that is not inside keeps its standing when the index grows. */
  lemma OutsideKeeps(call: Call, c: Committed, after: Committed, recorded: bool, stage: Stage)
    requires StageHolds(call, c, recorded, stage) && !Inside(stage)
    requires forall k :: k in c.index ==> k in after.index && after.index[k] == c.index[k]
    ensures StageHolds(call, after, recorded, stage)
  {
  }

  lemma RecordedGrows(calls: seq<Call>, c: Committed, recorded: set<nat>, p: nat, after: Committed)
    requires EpisodesRecorded(calls, c, recorded) && p < |calls|
    requires after.episodes == c.episodes + [calls[p].episode]
    ensures EpisodesRecorded(calls, after, recorded + {p})
  {
    forall x | x in after.episodes ensures exists q :: q in recorded + {p} && q < |calls| && calls[q].episode == x {
      if x in c.episodes {
        var q :| q in recorded && q < |calls| && calls[q].episode == x;
        assert q in recorded + {p};
      } else {
        assert p in recorded + {p};
      }
    }
  }

  lemma CommitKeepsCall(calls: seq<Call>, s: System, s': System, p: nat, q: nat)
    requires Inv(calls, s) && DoCommit(calls, s, s', p) && q < |calls|
    requires forall k :: k in s.committed.index ==> k in s'.committed.index && s'.committed.index[k] == s.committed.index[k]
    requires AnswerHolds(calls[p].episode, s'.committed, s.stages[p].result.created, s.stages[p].result) && p !in s.recorded
    ensures StageHolds(calls[q], s'.committed, q in s'.recorded, s'.stages[q])
    ensures Inside(s'.stages[q]) <==> s'.holder == Some(q)
  {
    assert Inside(s.stages[q]) <==> s.holder == Some(q);
    assert Inside(s.stages[p]) <==> s.holder == Some(p);
    if q != p {
      assert StageHolds(calls[q], s.committed, q in s.recorded, s.stages[q]);
      OutsideKeeps(calls[q], s.committed, s'.committed, q in s.recorded, s.stages[q]);
    }
  }

  lemma CommitGrows(calls: seq<Call>, s: System, s': System, p: nat)
    requires FreshCalls(calls) && Inv(calls, s) && DoCommit(calls, s, s', p)
    ensures Consistent(s'.committed) && EpisodesRecorded(calls, s'.committed, s'.recorded) && p !in s.recorded
    ensures s.committed.episodes <= s'.committed.episodes && s.committed.events <= s'.committed.events
    ensures forall k :: k in s.committed.index ==> k in s'.committed.index && s'.committed.index[k] == s.committed.index[k]
    ensures AnswerHolds(calls[p].episode, s'.committed, s.stages[p].result.created, s.stages[p].result)
  {
    var result := s.stages[p].result;
    assert StageHolds(calls[p], s.committed, p in s.recorded, s.stages[p]);
    Unrecorded(calls, s.committed, s.recorded, p);
    CommitRecords(calls[p], s.committed, s.stages[p].work, result, s'.committed);
    if result.created {
      RecordedGrows(calls, s.committed, s.recorded, p, s'.committed);
    }
  }

  lemma CommitKeeps(calls: seq<Call>, s: System, s': System, p: nat)
    requires FreshCalls(calls) && Inv(calls, s) && DoCommit(calls, s, s', p)
    ensures Inv(calls, s') && s.committed.episodes <= s'.committed.episodes && s.committed.events <= s'.committed.events
  {
    CommitGrows(calls, s, s', p);
    forall q | 0 <= q < |calls|
      ensures StageHolds(calls[q], s'.committed, q in s'.recorded, s'.stages[q])
      ensures Inside(s'.stages[q]) <==> s'.holder == Some(q)
    {
      CommitKeepsCall(calls, s, s', p, q);
    }
  }

  lemma ForeignEpisode(c: Committed, e: Episode)
    requires Consistent(c) && FreshEpisode(c, e) && KeyOf(e) in c.index
    ensures c.index[KeyOf(e)] != e.id
  {
    var x :| x in c.episodes && KeyOf(x) == KeyOf(e) && x.id == c.index[KeyOf(e)];
  }

  lemma StepKeeps(calls: seq<Call>, s: System, s': System)
    requires FreshCalls(calls) && Inv(calls, s) && Next(calls, s, s')
    ensures Inv(calls, s') && s.committed.episodes <= s'.committed.episodes && s.committed.events <= s'.committed.events
  {
    var p: nat :| NextBy(calls, s, s', p);
    if DoCommit(calls, s, s', p) {
      CommitKeeps(calls, s, s', p);
    } else {
      OtherStepKeeps(calls, s, s', p);
    }
  }

  lemma OtherStepKeeps(calls: seq<Call>, s: System, s': System, p: nat)
    requires FreshCalls(calls) && Inv(calls, s) && NextBy(calls, s, s', p) && !DoCommit(calls, s, s', p)
    ensures Inv(calls, s') && s.committed == s'.committed
  {
    assert StageHolds(calls[p], s.committed, p in s.recorded, s.stages[p]);
    assert Inside(s.stages[p]) <==> s.holder == Some(p);
    if !s.stages[p].Saved? && p !in s.recorded {
      Unrecorded(calls, s.committed, s.recorded, p);
      RecordAnswers(s.committed, calls[p].episode, calls[p].eventId);
    }
    if s.stages[p] == Waiting && Interrupt(calls, s, s', p) {
      WaiterLeaves(calls, s, s', p);
    } else {
      OneCallMoves(calls, s, s', p, s'.stages[p]);
    }
  }

  lemma WaiterLeaves(calls: seq<Call>, s: System, s': System, p: nat)
    requires Inv(calls, s) && p < |calls| && s.stages[p] == Waiting && s' == To(s, p, Interrupted)
    ensures Inv(calls, s')
  {
    forall q | 0 <= q < |calls|
      ensures StageHolds(calls[q], s'.committed, q in s'.recorded, s'.stages[q])
      ensures Inside(s'.stages[q]) <==> s'.holder == Some(q)
    {
      assert Inside(s.stages[q]) <==> s.holder == Some(q);
      assert StageHolds(calls[q], s.committed, q in s.recorded, s.stages[q]);
    }
  }

  lemma {:induction false} RunKeeps(calls: seq<Call>, run: seq<System>, i: nat)
    requires FreshCalls(calls) && IsRun(calls, run) && i < |run|
    ensures Inv(calls, run[i])
  {
    if i > 0 {
      RunKeeps(calls, run, i - 1);
      assert Next(calls, run[i - 1], run[i]);
      StepKeeps(calls, run[i - 1], run[i]);
    }
  }

  // ----- What every run guarantees ------------------------------------------------------------------

  /** Committed episodes and events only grow. */
  lemma {:induction false} OnlyGrows(calls: seq<Call>, run: seq<System>, i: nat, j: nat)
    requires FreshCalls(calls) && IsRun(calls, run) && i <= j < |run|
    ensures run[i].committed.episodes <= run[j].committed.episodes && run[i].committed.events <= run[j].committed.events
  {
    if i < j {
      OnlyGrows(calls, run, i, j - 1);
      RunKeeps(calls, run, j - 1);
      assert Next(calls, run[j - 1], run[j]);
      StepKeeps(calls, run[j - 1], run[j]);
    }
  }

  /** The committed state stays consistent, only conflicts are refused, and of the calls with one tenant and
      key all that succeed answer with one id and at most one says `created`. */
  lemma AnswersAgree(calls: seq<Call>, run: seq<System>, i: nat, p: nat, q: nat)
    requires FreshCalls(calls) && IsRun(calls, run) && i < |run| && p < |calls| == |run[i].stages| && q < |calls|
    ensures Consistent(run[i].committed)
    ensures run[i].stages[p].Refused? ==> run[i].stages[p].error == IdempotencyConflict
    ensures run[i].stages[p].Answered? && run[i].stages[q].Answered? && KeyOf(calls[p].episode) == KeyOf(calls[q].episode) ==>
              && run[i].stages[p].result.episode == run[i].stages[q].result.episode
              && (run[i].stages[p].result.created && run[i].stages[q].result.created ==> p == q)
  {
    RunKeeps(calls, run, i);
    assert StageHolds(calls[p], run[i].committed, p in run[i].recorded, run[i].stages[p]);
    assert StageHolds(calls[q], run[i].committed, q in run[i].recorded, run[i].stages[q]);
  }
}
