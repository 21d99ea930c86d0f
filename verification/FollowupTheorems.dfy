/** The results about one follow-up attempt under any number of concurrent requests, for every run. */
module FollowupTheorems {
  import opened Common
  import opened FollowupModel
  import opened FollowupProtocol
  import opened FollowupInvariants

  /** A state some interleaving leads to from an attempt begun at `startedAt` with the given time multiplier. */
  ghost predicate Reachable(f: Followup, startedAt: int, halves: nat, s: System) {
    FollowupOk(f) && exists moves: seq<Move> :: s == Run(f, Opening(f, startedAt, halves), moves)
  }

  lemma ReachableInv(f: Followup, startedAt: int, halves: nat, s: System)
    requires Reachable(f, startedAt, halves, s)
    ensures FollowupOk(f) && Inv(f, s) && |s.log| > 0 && |s.clocks| > 0
    ensures s.log[0] == Begin(f, startedAt, halves) && s.clocks[0] == startedAt
  {
    hide Inv, Run;
    var moves: seq<Move> :| s == Run(f, Opening(f, startedAt, halves), moves);
    OpeningInv(f, startedAt, halves);
    RunKeepsInv(f, Opening(f, startedAt, halves), moves);
    RunKeepsFirst(f, Opening(f, startedAt, halves), moves);
  }

  lemma {:induction false} RunKeepsFirst(f: Followup, s: System, moves: seq<Move>)
    requires s.log != [] && s.clocks != []
    ensures Run(f, s, moves).log != [] && Run(f, s, moves).log[0] == s.log[0]
    ensures Run(f, s, moves).clocks != [] && Run(f, s, moves).clocks[0] == s.clocks[0]
    decreases |moves|
  {
    hide TaskTick;
    if moves != [] {
      RunKeepsFirst(f, Next(f, s, moves[0]), moves[1..]);
    }
  }

  // ---------------------------------------------------------------- version and position

  /**
   * However requests interleave, version `v` is always the same place of the script, the script is
   * never left, and each version differs from the one before by one legal move.
   */
  lemma VersionIsPosition(f: Followup, startedAt: int, halves: nat, s: System)
    requires Reachable(f, startedAt, halves, s)
    ensures s.record.attempt.version == VersionAt(f, PlaceOf(s.record.attempt)) <= VersionAt(f, Finished)
    ensures |s.log| == s.record.attempt.version + 1
    ensures forall v | 0 <= v < |s.log| :: ValidPlace(f, PlaceOf(s.log[v])) && PlaceOf(s.log[v]) == PlaceAt(f, v)
    ensures |s.clocks| == |s.log|
    ensures forall v | 0 < v < |s.log| :: LegalMove(f, s.log[v - 1], s.log[v], s.clocks[v])
  {
    hide LegalMove, OutcomesOk, AuthorsOk, TasksOk, Reachable, VersionAt, PlaceAt, ValidPlace;
    ReachableInv(f, startedAt, halves, s);
    assert AttemptOk(f, s.log[s.record.attempt.version]);
    forall v | 0 <= v < |s.log| ensures ValidPlace(f, PlaceOf(s.log[v])) && PlaceOf(s.log[v]) == PlaceAt(f, v) {
      assert AttemptOk(f, s.log[v]);
      VersionsAndPlacesCorrespond(f, PlaceOf(s.log[v]), 0);
    }
    VersionsAndPlacesCorrespond(f, PlaceOf(s.record.attempt), 0);
  }

  lemma {:induction false} HalvesNeverChange(f: Followup, log: seq<Attempt>, clocks: seq<int>, v: nat)
    requires v < |log| && MovesOk(f, log, clocks)
    ensures log[v].halves == log[0].halves
  {
    if v > 0 {
      HalvesNeverChange(f, log, clocks, v - 1);
      assert LegalMove(f, log[v - 1], log[v], clocks[v]);
    }
  }

  /** Every card of a frozen sequence is shown at exactly one version: between question 0 and the next. */
  lemma EveryCardIsShownOnce(f: Followup, startedAt: int, halves: nat, s: System, j: nat)
    requires Reachable(f, startedAt, halves, s) && j < CardCount(f) && 2 + CardCount(f) < |s.log|
    ensures PlaceOf(s.log[1]) == Reveal(0)
    ensures PlaceOf(s.log[2 + CardCount(f)]) == if |f.questions| == 1 then Finished else Open(1)
    ensures PlaceOf(s.log[2 + j]) == CardShown(j)
    ensures forall v | 0 <= v < |s.log| :: PlaceOf(s.log[v]) == CardShown(j) ==> v == 2 + j
  {
    hide Reachable, LegalMove;
    VersionIsPosition(f, startedAt, halves, s);
  }

  // ---------------------------------------------------------------- answers

  lemma {:induction false} AnswersComeFromOutcomes(outcomes: seq<Outcome>, answer: Answer)
    ensures answer in AnswersOf(outcomes) <==> exists i :: 0 <= i < |outcomes| && outcomes[i] == ByAnswer(answer)
  {
    if outcomes != [] {
      var n := |outcomes| - 1;
      AnswersComeFromOutcomes(outcomes[..n], answer);
      if i :| 0 <= i < |outcomes| && outcomes[i] == ByAnswer(answer) && i < n {
        assert outcomes[..n][i] == ByAnswer(answer);
      }
    }
  }

  /**
   * Every stored answer is to the question that was open when it was committed: a fenced answer to
   * question `i` carries exactly the version at which question `i` opens.
   */
  lemma FencedAnswersCarryTheOpeningVersion(f: Followup, startedAt: int, halves: nat, s: System, answer: Answer)
    requires Reachable(f, startedAt, halves, s) && answer in s.record.answers
    ensures exists i :: 0 <= i < |f.questions| && answer.checkpointId == f.questions[i].id
                        && (answer.submittedVersion.Some? ==> answer.submittedVersion.value == VersionAt(f, Open(i)))
  {
    hide Reachable, LegalMove, AuthorsOk, TasksOk, AttemptOk;
    ReachableInv(f, startedAt, halves, s);
    AnswersComeFromOutcomes(s.outcomes, answer);
    var i :| 0 <= i < |s.outcomes| && s.outcomes[i] == ByAnswer(answer);
    assert OutcomeOk(f, s.log, s.clocks, i, s.outcomes[i]);
  }

  predicate QuestionsDistinct(answers: seq<Answer>) {
    forall i, j | 0 <= i < j < |answers| :: answers[i].checkpointId != answers[j].checkpointId
  }

  lemma {:induction false} AnswersToDistinctQuestions(
    f: Followup, log: seq<Attempt>, clocks: seq<int>, outcomes: seq<Outcome>)
    requires FollowupOk(f) && forall i | 0 <= i < |outcomes| :: OutcomeOk(f, log, clocks, i, outcomes[i])
    ensures QuestionsDistinct(AnswersOf(outcomes))
  {
    if outcomes != [] {
      var n := |outcomes| - 1;
      assert forall i | 0 <= i < n :: OutcomeOk(f, log, clocks, i, outcomes[..n][i]);
      AnswersToDistinctQuestions(f, log, clocks, outcomes[..n]);
      assert OutcomeOk(f, log, clocks, n, outcomes[n]);
      var before, answers := AnswersOf(outcomes[..n]), AnswersOf(outcomes);
      forall i, j | 0 <= i < j < |answers| ensures answers[i].checkpointId != answers[j].checkpointId {
        if j == |before| {
          var a := before[i];
          AnswersComeFromOutcomes(outcomes[..n], a);
          var k :| 0 <= k < n && outcomes[..n][k] == ByAnswer(a);
          assert OutcomeOk(f, log, clocks, k, outcomes[k]);
        } else {
          assert answers[i] == before[i] && answers[j] == before[j];
        }
      }
    }
  }

  /** No question has two stored answers and no key stands for two. */
  lemma OneAnswerPerQuestion(f: Followup, startedAt: int, halves: nat, s: System)
    requires Reachable(f, startedAt, halves, s)
    ensures QuestionsDistinct(s.record.answers) && KeysDistinct(s.record.answers)
  {
    hide LegalMove, AuthorsOk, TasksOk, AttemptOk, OutcomeOk, Run;
    ReachableInv(f, startedAt, halves, s);
    AnswersToDistinctQuestions(f, s.log, s.clocks, s.outcomes);
  }

  lemma {:induction false} AllAnswered(outcomes: seq<Outcome>)
    requires forall i | 0 <= i < |outcomes| :: outcomes[i].ByAnswer?
    ensures |AnswersOf(outcomes)| == |outcomes|
    ensures forall i | 0 <= i < |outcomes| :: AnswersOf(outcomes)[i] == outcomes[i].answer
  {
    if outcomes != [] {
      AllAnswered(outcomes[..|outcomes| - 1]);
    }
  }

  /**
   * What an attempt looked like when question `i` opened: its clock starts at the beginning of the attempt for
   * the first question and at the "continue" that opened it for every other, and its deadline counts from there.
   */
  lemma OpeningOf(f: Followup, startedAt: int, halves: nat, s: System, i: nat)
    requires Reachable(f, startedAt, halves, s) && i < |f.questions| && VersionAt(f, Open(i)) < |s.log|
    ensures |s.clocks| == |s.log| && s.clocks[0] == startedAt
    ensures var start, clock := s.log[VersionAt(f, Open(i))], s.clocks[VersionAt(f, Open(i))];
            start.phase.QuestionOpen? && start.index == i && start.halves == halves && start.openedAt == clock
            && start.deadline == if f.timed then Some(clock + f.questions[i].timeLimitSeconds * halves * 500) else None
  {
    hide Reachable, LegalMove, OutcomesOk, AuthorsOk, TasksOk, PlaceAt;
    ReachableInv(f, startedAt, halves, s);
    VersionIsPosition(f, startedAt, halves, s);
    HalvesNeverChange(f, s.log, s.clocks, VersionAt(f, Open(i)));
    VersionsAndPlacesCorrespond(f, Open(i), 0);
    assert AttemptOk(f, s.log[VersionAt(f, Open(i))]);
    OpenedByTheClock(f, s.log, s.clocks, VersionAt(f, Open(i)));
  }

  lemma OpenedByTheClock(f: Followup, log: seq<Attempt>, clocks: seq<int>, v: nat)
    requires MovesOk(f, log, clocks) && v < |log| && log[v].phase.QuestionOpen?
    requires log[0].openedAt == clocks[0]
    ensures log[v].openedAt == clocks[v]
  {
    if v > 0 {
      assert LegalMove(f, log[v - 1], log[v], clocks[v]);
    }
  }

  /** A completed attempt carries the time of the "continue" that completed it; no other attempt carries one. */
  lemma CompletedByTheClock(f: Followup, startedAt: int, halves: nat, s: System)
    requires Reachable(f, startedAt, halves, s)
    ensures |s.clocks| == |s.log| == s.record.attempt.version + 1
    ensures s.record.attempt.completedAt
            == if s.record.attempt.status.Completed? then Some(s.clocks[|s.clocks| - 1]) else None
  {
    hide Reachable, LegalMove, OutcomesOk, AuthorsOk, TasksOk, AttemptOk;
    ReachableInv(f, startedAt, halves, s);
    CompletionTime(f, s.log, s.clocks, s.record.attempt.version);
  }

  lemma {:induction false} CompletionTime(f: Followup, log: seq<Attempt>, clocks: seq<int>, v: nat)
    requires MovesOk(f, log, clocks) && v < |log| && forall k | 0 <= k < |log| :: AttemptOk(f, log[k])
    requires log[0].completedAt.None? && log[0].phase.QuestionOpen?
    ensures log[v].completedAt == if log[v].status.Completed? then Some(clocks[v]) else None
  {
    hide SequenceOk, VersionAt;
    if v > 0 {
      CompletionTime(f, log, clocks, v - 1);
      assert LegalMove(f, log[v - 1], log[v], clocks[v]);
    }
    assert AttemptOk(f, log[v]);
  }

  /** A completed untimed attempt has exactly one answer per question, in the order of the questions. */
  lemma UntimedCompletionAnswersEverything(f: Followup, startedAt: int, halves: nat, s: System)
    requires Reachable(f, startedAt, halves, s) && !f.timed && s.record.attempt.status.Completed?
    ensures |s.record.answers| == |f.questions|
    ensures forall i | 0 <= i < |f.questions| :: s.record.answers[i].checkpointId == f.questions[i].id
  {
    hide Reachable, LegalMove, AuthorsOk, TasksOk, VersionAt;
    ReachableInv(f, startedAt, halves, s);
    assert AttemptOk(f, s.log[s.record.attempt.version]);
    forall i | 0 <= i < |s.outcomes|
      ensures s.outcomes[i].ByAnswer? && s.outcomes[i].answer.checkpointId == f.questions[i].id
    {
      assert OutcomeOk(f, s.log, s.clocks, i, s.outcomes[i]);
      OpeningOf(f, startedAt, halves, s, i);
    }
    AllAnswered(s.outcomes);
  }

  /**
   * In a timed attempt every question that was left behind was either answered no later than its
   * deadline or revealed strictly after it. The deadline is the scaled limit after the clock of the request
   * that opened the question, and the reveal is stamped with the clock of the request that made it.
   */
  lemma TimedQuestionsMeetTheirDeadline(f: Followup, startedAt: int, halves: nat, s: System, i: nat)
    requires Reachable(f, startedAt, halves, s) && f.timed && i < |s.outcomes|
    ensures i < |f.questions| && VersionAt(f, Open(i)) + 1 < |s.log| == |s.clocks|
    ensures s.clocks[0] == startedAt && |s.outcomes| == RevealCount(f, s.record.attempt)
    ensures var openTime, revealTime := s.clocks[VersionAt(f, Open(i))], s.clocks[VersionAt(f, Open(i)) + 1];
            var deadline := openTime + f.questions[i].timeLimitSeconds * halves * 500;
            match s.outcomes[i]
            case ByAnswer(answer) =>
              answer in s.record.answers && answer.checkpointId == f.questions[i].id
              && answer.acceptedAt == revealTime <= deadline
            case ByTimeout(at) => deadline < at == revealTime
  {
    hide Reachable, LegalMove, AuthorsOk, TasksOk, AttemptOk, VersionAt, TimedDeadline;
    ReachableInv(f, startedAt, halves, s);
    assert OutcomeOk(f, s.log, s.clocks, i, s.outcomes[i]);
    OpeningOf(f, startedAt, halves, s, i);
    if s.outcomes[i].ByAnswer? {
      AnswersComeFromOutcomes(s.outcomes, s.outcomes[i].answer);
    }
  }

  // ---------------------------------------------------------------- commands commit once, retries only echo

  /**
   * A continue command moves the attempt at most once, from the version its receipt names, never past an
   * open question.
   */
  lemma AdvanceKeysCommitOnce(f: Followup, startedAt: int, halves: nat, s: System, key: Key)
    requires Reachable(f, startedAt, halves, s) && key in s.record.attempt.receipts
    ensures var v := s.record.attempt.receipts[key];
            && v + 1 < |s.log| && |s.authors| == |s.log| && s.authors[v + 1] == Some(key)
            && (forall w | 0 <= w < |s.authors| && s.authors[w] == Some(key) :: w == v + 1)
  {
    hide Reachable, LegalMove, OutcomesOk, TasksOk, AttemptOk;
    ReachableInv(f, startedAt, halves, s);
  }

  lemma ReceiptsStay(f: Followup, s: System, move: Move, key: Key)
    requires key in s.record.attempt.receipts
    ensures key in Next(f, s, move).record.attempt.receipts
    ensures Next(f, s, move).record.attempt.receipts[key] == s.record.attempt.receipts[key]
  {
    hide Continued, AnswerWithKey, AnswerTo, AnswerChecked, AnswerLookedUp, SequenceOk;
  }

  predicate Barred(reply: Reply) {
    reply == Refused(Unauthorized) || reply == Refused(Unavailable)
  }

  /** A continue command that can only repeat what its receipt says. */
  predicate AdvanceEcho(s: System, i: nat, input: AdvanceInput) {
    && Keyed(input) && input.key.value in s.record.attempt.receipts
    && i < |s.tasks| && s.tasks[i].AdvanceTask? && s.tasks[i].advance == input
    && var same := Some(s.record.attempt.receipts[input.key.value]) == input.expectedVersion;
       match s.tasks[i].advance_stage
       case AdvanceArrived => true
       case AdvanceRereading => same
       case AdvanceDone(reply) => Barred(reply) || if same then reply.Snapshot? else reply == Refused(Conflict)
       case _ => false
  }

  lemma NextKeepsAdvanceEcho(f: Followup, s: System, move: Move, i: nat, input: AdvanceInput)
    requires AdvanceEcho(s, i, input)
    ensures AdvanceEcho(Next(f, s, move), i, input)
    ensures move.Tick? && move.task == i ==> Next(f, s, move).record == s.record
  {
    hide AdvanceAttempt, AnswerTick, ResumeTick, AdvanceTimed, AdvanceCommitted;
    ReceiptsStay(f, s, move, input.key.value);
  }

  /**
   * After a continue command has committed, a copy of it gets a snapshot and changes nothing; the
   * same key for another version is refused.
   */
  lemma {:induction false} AdvanceCopiesOnlyEcho(f: Followup, s: System, i: nat, input: AdvanceInput, moves: seq<Move>)
    requires AdvanceEcho(s, i, input)
    ensures AdvanceEcho(Run(f, s, moves), i, input)
    ensures Run(f, s, moves).record.attempt.receipts[input.key.value] == s.record.attempt.receipts[input.key.value]
    decreases |moves|
  {
    hide Next;
    if moves != [] {
      NextKeepsAdvanceEcho(f, s, moves[0], i, input);
      ReceiptsStay(f, s, moves[0], input.key.value);
      AdvanceCopiesOnlyEcho(f, Next(f, s, moves[0]), i, input, moves[1..]);
    }
  }

  lemma AdvanceRetryAfterCommit(f: Followup, s: System, input: AdvanceInput, moves: seq<Move>)
    requires Keyed(input) && input.key.value in s.record.attempt.receipts
    ensures var t := Run(f, Next(f, s, NewAdvance(input)), moves);
            AdvanceEcho(t, |s.tasks|, input)
            && (forall env: Env :: TaskTick(f, t.record, t.tasks[|s.tasks|], env).0 == t.record)
            && (t.tasks[|s.tasks|].advance_stage.AdvanceDone? ==>
                  var reply := t.tasks[|s.tasks|].advance_stage.reply;
                  Barred(reply)
                  || if Some(s.record.attempt.receipts[input.key.value]) == input.expectedVersion
                     then reply.Snapshot? else reply == Refused(Conflict))
  {
    hide Run, AdvanceAttempt, AnswerTick, ResumeTick;
    AdvanceCopiesOnlyEcho(f, Next(f, s, NewAdvance(input)), |s.tasks|, input, moves);
  }

  lemma {:induction false} FoundStaysFound(answers: seq<Answer>, more: Answer, key: Key)
    requires AnswerWithKey(answers, key).Some?
    ensures AnswerWithKey(answers + [more], key) == AnswerWithKey(answers, key)
  {
    assert (answers + [more])[0] == answers[0];
    if answers[0].key != key {
      FoundStaysFound(answers[1..], more, key);
      assert (answers + [more])[1..] == answers[1..] + [more];
    }
  }

  lemma AnswersStay(f: Followup, s: System, move: Move, key: Key)
    requires AnswerWithKey(s.record.answers, key).Some?
    ensures AnswerWithKey(Next(f, s, move).record.answers, key) == AnswerWithKey(s.record.answers, key)
  {
    hide Continued, AnswerWithKey, AnswerTo, AnswerChecked, AnswerLookedUp, SequenceOk;
    var after := Next(f, s, move).record;
    if after.answers != s.record.answers {
      FoundStaysFound(s.record.answers, after.answers[|s.record.answers|], key);
    }
  }

  /** A fenced answer that can only repeat what was stored under its key. */
  predicate AnswerEcho(s: System, i: nat, input: AnswerInput, stored: Answer) {
    && Fenced(input) && AnswerWithKey(s.record.answers, input.key) == Some(stored)
    && i < |s.tasks| && s.tasks[i].AnswerTask? && s.tasks[i].answer == input
    && match s.tasks[i].answer_stage
       case AnswerArrived => true
       case AnswerLoaded(_) => true
       case AnswerRereading => AnswerReceiptMatches(stored, input)
       case AnswerDone(reply) =>
         Barred(reply) || if AnswerReceiptMatches(stored, input) then reply.Snapshot? else reply == Refused(Conflict)
       case _ => false
  }

  lemma NextKeepsAnswerEcho(f: Followup, s: System, move: Move, i: nat, input: AnswerInput, stored: Answer)
    requires AnswerEcho(s, i, input, stored)
    ensures AnswerEcho(Next(f, s, move), i, input, stored)
    ensures move.Tick? && move.task == i ==> Next(f, s, move).record == s.record
  {
    hide AdvanceTick, ResumeTick, AnswerTimed, AnswerCommitted, AnswerChecked, AnswerWithKey, AnswerReceiptMatches;
    AnswersStay(f, s, move, input.key);
  }

  lemma {:induction false} AnswerCopiesOnlyEcho(
    f: Followup, s: System, i: nat, input: AnswerInput, stored: Answer, moves: seq<Move>)
    requires AnswerEcho(s, i, input, stored)
    ensures AnswerEcho(Run(f, s, moves), i, input, stored)
    decreases |moves|
  {
    hide Next, AnswerEcho;
    if moves != [] {
      NextKeepsAnswerEcho(f, s, moves[0], i, input, stored);
      AnswerCopiesOnlyEcho(f, Next(f, s, moves[0]), i, input, stored, moves[1..]);
    }
  }

  /**
   * A fenced answer retried after it was stored gets a snapshot and changes nothing, wherever the
   * attempt has moved to; the same key with anything else is refused.
   */
  lemma AnswerRetryAfterCommit(f: Followup, s: System, input: AnswerInput, stored: Answer, moves: seq<Move>)
    requires Fenced(input) && AnswerWithKey(s.record.answers, input.key) == Some(stored)
    ensures var t := Run(f, Next(f, s, NewAnswer(input)), moves);
            AnswerEcho(t, |s.tasks|, input, stored)
            && (forall env: Env :: TaskTick(f, t.record, t.tasks[|s.tasks|], env).0 == t.record)
            && (t.tasks[|s.tasks|].answer_stage.AnswerDone? ==>
                  var reply := t.tasks[|s.tasks|].answer_stage.reply;
                  || Barred(reply)
                  || if && Some(stored.checkpointId) == input.questionId
                        && stored.submittedVersion == input.expectedVersion
                        && stored.payload == input.payload && stored.confidence == input.confidence
                     then reply.Snapshot? else reply == Refused(Conflict))
  {
    hide Run, AdvanceTick, ResumeTick, AnswerWithKey;
    AnswerCopiesOnlyEcho(f, Next(f, s, NewAnswer(input)), |s.tasks|, input, stored, moves);
  }

  // ---------------------------------------------------------------- what a retry is shown

  /** The attempt a reply shows is one the record had, at version `since` or later. */
  predicate Shows(s: System, reply: Reply, since: nat) {
    reply.Snapshot? ==> ReadOk(s.log, reply.attempt) && since <= reply.attempt.version
  }

  function ReplyOf(task: Task): Option<Reply> {
    match task
    case AnswerTask(_, AnswerDone(reply)) => Some(reply)
    case AdvanceTask(_, AdvanceDone(reply)) => Some(reply)
    case ResumeTask(_, ResumeDone(reply)) => Some(reply)
    case _ => None
  }

  predicate ShownSince(s: System, i: nat, since: nat) {
    i < |s.tasks| && (ReplyOf(s.tasks[i]).Some? ==> Shows(s, ReplyOf(s.tasks[i]).value, since))
  }

  lemma LogExtends(f: Followup, s: System, move: Move)
    ensures s.log <= Next(f, s, move).log
  {
    hide TaskTick;
  }

  lemma DoneStays(f: Followup, r: Record, task: Task, env: Env)
    requires ReplyOf(task).Some?
    ensures TaskTick(f, r, task, env) == (r, task)
  {
  }

  /** An echoing task that ends with a snapshot shows the attempt as it is at that moment. */
  lemma AdvanceEchoShows(f: Followup, s: System, i: nat, input: AdvanceInput, env: Env)
    requires AdvanceEcho(s, i, input) && ReplyOf(s.tasks[i]).None?
    ensures var next := TaskTick(f, s.record, s.tasks[i], env).1;
            ReplyOf(next).Some? && ReplyOf(next).value.Snapshot? ==> ReplyOf(next).value.attempt == s.record.attempt
  {
    hide AdvanceAttempt, AdvanceTimed, AdvanceCommitted, AdvanceRechecked;
  }

  lemma AnswerEchoShows(f: Followup, s: System, i: nat, input: AnswerInput, stored: Answer, env: Env)
    requires AnswerEcho(s, i, input, stored) && ReplyOf(s.tasks[i]).None?
    ensures var next := TaskTick(f, s.record, s.tasks[i], env).1;
            ReplyOf(next).Some? && ReplyOf(next).value.Snapshot? ==> ReplyOf(next).value.attempt == s.record.attempt
  {
    hide AnswerTimed, AnswerCommitted, AnswerChecked, AnswerWithKey, AnswerReceiptMatches;
  }

  lemma TipIsRead(f: Followup, s: System)
    requires Inv(f, s)
    ensures ReadOk(s.log, s.record.attempt)
  {
    hide AttemptOk, LegalMove, TasksOk, OutcomesOk, AuthorsOk;
  }

  /** One move keeps what a task may show, if finishing shows no less than the record at that moment. */
  lemma NextKeepsShown(f: Followup, s: System, move: Move, i: nat, since: nat)
    requires Inv(f, s) && ShownSince(s, i, since) && since <= s.record.attempt.version
    requires move.Tick? && move.task == i && ReplyOf(s.tasks[i]).None? ==>
               var next := TaskTick(f, s.record, s.tasks[i], move.env).1;
               ReplyOf(next).Some? && ReplyOf(next).value.Snapshot? ==> ReplyOf(next).value.attempt == s.record.attempt
    ensures i < |Next(f, s, move).tasks| && ShownSince(Next(f, s, move), i, since)
  {
    hide Inv, TaskTick;
    LogExtends(f, s, move);
    TipIsRead(f, s);
    if move.Tick? && move.task == i && ReplyOf(s.tasks[i]).Some? {
      DoneStays(f, s.record, s.tasks[i], move.env);
    }
  }

  lemma VersionsGrow(f: Followup, s: System, move: Move)
    requires Inv(f, s)
    ensures s.record.attempt.version <= Next(f, s, move).record.attempt.version
  {
    hide AttemptOk, LegalMove, TasksOk, OutcomesOk, AuthorsOk, TaskTick;
    NextKeepsInv(f, s, move);
    LogExtends(f, s, move);
  }

  lemma {:induction false} AdvanceCopiesShowLater(
    f: Followup, s: System, i: nat, input: AdvanceInput, since: nat, moves: seq<Move>)
    requires i < |s.tasks|
    requires Inv(f, s) && AdvanceEcho(s, i, input) && ShownSince(s, i, since) && since <= s.record.attempt.version
    ensures ShownSince(Run(f, s, moves), i, since)
    decreases |moves|
  {
    hide Inv, Next, AdvanceEcho, ShownSince, TaskTick;
    if moves != [] {
      var move := moves[0];
      if move.Tick? && move.task == i {
        if ReplyOf(s.tasks[i]).None? {
          AdvanceEchoShows(f, s, i, input, move.env);
        }
      }
      NextKeepsShown(f, s, move, i, since);
      NextKeepsAdvanceEcho(f, s, move, i, input);
      NextKeepsInv(f, s, move);
      VersionsGrow(f, s, move);
      AdvanceCopiesShowLater(f, Next(f, s, move), i, input, since, moves[1..]);
    }
  }

  lemma {:induction false} AnswerCopiesShowLater(
    f: Followup, s: System, i: nat, input: AnswerInput, stored: Answer, since: nat, moves: seq<Move>)
    requires i < |s.tasks|
    requires Inv(f, s) && AnswerEcho(s, i, input, stored) && ShownSince(s, i, since)
             && since <= s.record.attempt.version
    ensures ShownSince(Run(f, s, moves), i, since)
    decreases |moves|
  {
    hide Inv, Next, AnswerEcho, ShownSince, TaskTick;
    if moves != [] {
      var move := moves[0];
      if move.Tick? && move.task == i {
        if ReplyOf(s.tasks[i]).None? {
          AnswerEchoShows(f, s, i, input, stored, move.env);
        }
      }
      NextKeepsShown(f, s, move, i, since);
      NextKeepsAnswerEcho(f, s, move, i, input, stored);
      NextKeepsInv(f, s, move);
      VersionsGrow(f, s, move);
      AnswerCopiesShowLater(f, Next(f, s, move), i, input, stored, since, moves[1..]);
    }
  }

  /** The attempt shown to a retried continue is one the record has had since that continue's own commit. */
  lemma AdvanceRetryShowsItsCommitOrLater(
    f: Followup, startedAt: int, halves: nat, s: System, input: AdvanceInput, moves: seq<Move>)
    requires Reachable(f, startedAt, halves, s) && Keyed(input) && input.key.value in s.record.attempt.receipts
    ensures ShownSince(Run(f, Next(f, s, NewAdvance(input)), moves), |s.tasks|,
                       s.record.attempt.receipts[input.key.value] + 1)
  {
    hide Reachable, Run, Inv;
    ReachableInv(f, startedAt, halves, s);
    NextKeepsInv(f, s, NewAdvance(input));
    AdvanceKeysCommitOnce(f, startedAt, halves, s, input.key.value);
    VersionIsPosition(f, startedAt, halves, s);
    AdvanceCopiesShowLater(f, Next(f, s, NewAdvance(input)), |s.tasks|, input,
                           s.record.attempt.receipts[input.key.value] + 1, moves);
  }

  lemma StoredBeforeNow(f: Followup, startedAt: int, halves: nat, s: System, stored: Answer)
    requires Reachable(f, startedAt, halves, s) && stored in s.record.answers && stored.submittedVersion.Some?
    ensures stored.submittedVersion.value < s.record.attempt.version
  {
    hide Reachable, LegalMove, AuthorsOk, TasksOk, AttemptOk, VersionAt;
    ReachableInv(f, startedAt, halves, s);
    AnswersComeFromOutcomes(s.outcomes, stored);
    var i :| 0 <= i < |s.outcomes| && s.outcomes[i] == ByAnswer(stored);
    assert OutcomeOk(f, s.log, s.clocks, i, s.outcomes[i]);
  }

  /** The attempt shown to a retried fenced answer is one the record has had since that answer's reveal. */
  lemma AnswerRetryShowsItsRevealOrLater(
    f: Followup, startedAt: int, halves: nat, s: System, input: AnswerInput, stored: Answer, moves: seq<Move>)
    requires Reachable(f, startedAt, halves, s)
    requires Fenced(input) && AnswerWithKey(s.record.answers, input.key) == Some(stored)
    requires AnswerReceiptMatches(stored, input)
    ensures ShownSince(Run(f, Next(f, s, NewAnswer(input)), moves), |s.tasks|, input.expectedVersion.value + 1)
  {
    hide Reachable, Run, Inv, AnswerWithKey;
    ReachableInv(f, startedAt, halves, s);
    NextKeepsInv(f, s, NewAnswer(input));
    StoredBeforeNow(f, startedAt, halves, s, stored);
    AnswerCopiesShowLater(f, Next(f, s, NewAnswer(input)), |s.tasks|, input, stored, input.expectedVersion.value + 1,
                          moves);
  }

  // ---------------------------------------------------------------- one request by itself

  /**
   * A request without a good token, or outside the dates of its follow-up, is refused at once; so is the
   * look at the attempt that ends a request, which otherwise shows it as it is.
   */
  lemma RequestsOutsideAreRefused(f: Followup, r: Record, task: Task, env: Env)
    requires JustArrived(task)
    ensures TaskTick(f, r, task, env).0 == r
    ensures ReplyOf(TaskTick(f, r, task, env).1) == Some(Refused(Unauthorized)) <==> !env.authorized
    ensures ReplyOf(TaskTick(f, r, task, env).1) == Some(Refused(Unavailable))
            <==> env.authorized && (env.closed || NowOf(task) < f.opensAt || f.closesAt <= NowOf(task))
    ensures var reply := if !env.authorized then Refused(Unauthorized)
                         else if env.closed || NowOf(task) < f.opensAt || f.closesAt <= NowOf(task)
                         then Refused(Unavailable) else Snapshot(r.attempt);
            match task
            case AnswerTask(input, _) => AnswerTick(f, r, input, AnswerRereading, env) == (r, AnswerDone(reply))
            case AdvanceTask(input, _) => AdvanceTick(f, r, input, AdvanceRereading, env) == (r, AdvanceDone(reply))
            case ResumeTask(_, _) => true
  {
    hide Continued, TimedOut;
  }

  function AnswerSteps(
    f: Followup, r: Record, input: AnswerInput, stage: AnswerStage, env: Env, n: nat): (Record, AnswerStage)
    decreases n
  {
    if n == 0 then (r, stage)
    else
      var (after, next) := AnswerTick(f, r, input, stage, env);
      AnswerSteps(f, after, input, next, env, n - 1)
  }

  /** What the service asks of an answer to the open question `q` at version `version`. */
  predicate Acceptable(f: Followup, answers: seq<Answer>, version: nat, q: Checkpoint, input: AnswerInput, env: Env) {
    && env.authorized && !env.closed && f.opensAt <= input.now < f.closesAt
    && (input.questionId.Some? <==> input.expectedVersion.Some?)
    && (f.fullSequence ==> input.questionId.Some?)
    && (input.questionId.Some? ==> input.questionId.value == q.id && input.expectedVersion == Some(version))
    && (forall a | a in answers :: a.key != input.key && a.checkpointId != q.id)
    && (q.confidence.ConfidenceRequired? ==> input.confidence.Some?)
    && (q.confidence.ConfidenceOff? && input.questionId.Some? ==> input.confidence.None?)
    && env.grade.Graded?
  }

  /** A question is open, and not overdue at `now`. */
  predicate Answerable(f: Followup, a: Attempt, now: int) {
    && a.status.InProgress? && a.phase.QuestionOpen? && a.index < |f.questions| && a.card.None?
    && !(a.deadline.Some? && a.deadline.value < now)
  }

  /** The outcome of a request: its answer and the reveal if it is acceptable, nothing new if it is not. */
  predicate StoredExactly(f: Followup, r: Record, input: AnswerInput, env: Env, after: Record, stage: AnswerStage)
    requires r.attempt.index < |f.questions|
  {
    var a, q := r.attempt, f.questions[r.attempt.index];
    && stage.AnswerDone?
    && if Acceptable(f, r.answers, a.version, q, input, env)
       then && after.attempt == a.(phase := AnswerReveal, version := a.version + 1)
            && after.answers
               == r.answers
                  + [Answer(q.id, input.payload, if q.confidence.ConfidenceOff? then None else input.confidence,
                            env.grade.correct, input.key, input.expectedVersion, input.now)]
            && stage.reply == Snapshot(after.attempt)
       else after == r
  }

  /**
   * An answer that nothing interrupts is stored exactly when it is acceptable, with the engine's grade, its
   * own payload, key and time, and the confidence and version where they apply; otherwise nothing changes.
   */
  lemma AnswerAloneIsStoredExactly(f: Followup, r: Record, input: AnswerInput, env: Env)
    requires Answerable(f, r.attempt, input.now)
    ensures var (after, stage) := AnswerSteps(f, r, input, AnswerArrived, env, 6);
            StoredExactly(f, r, input, env, after, stage)
  {
    hide AnswerSteps, AnswerTimed, AnswerLookedUp, AnswerChecked, AnswerCommitted, AnswerWithKey, AnswerTo;
    AnswerStep(f, r, input, AnswerArrived, env, 6);
    var stage := AnswerAuthorized(f, input, r.attempt, env);
    if stage.AnswerDone? {
      AnswerRests(f, r, input, stage, env, 5);
    } else if stage.AnswerLoaded? {
      LoadedAlone(f, r, input, env, 5);
    } else {
      CurrentAlone(f, r, input, env, 5);
    }
  }

  /** What a request has shown once it is past authorisation and, if fenced, past its lookup. */
  predicate PastLookup(f: Followup, r: Record, input: AnswerInput, env: Env) {
    && Answerable(f, r.attempt, input.now) && Access(f, env, input.now).None?
    && input.questionId.Some? == input.expectedVersion.Some? && (f.fullSequence ==> Fenced(input))
    && FenceOk(f, input, r.attempt)
  }

  lemma LoadedAlone(f: Followup, r: Record, input: AnswerInput, env: Env, n: nat)
    requires n > 4 && Answerable(f, r.attempt, input.now) && Fenced(input) && Access(f, env, input.now).None?
    ensures var (after, stage) := AnswerSteps(f, r, input, AnswerLoaded(r.attempt), env, n);
            StoredExactly(f, r, input, env, after, stage)
  {
    hide AnswerSteps, AnswerTimed, AnswerChecked, AnswerCommitted, AnswerWithKey, AnswerTo;
    AnswerStep(f, r, input, AnswerLoaded(r.attempt), env, n);
    var stage := AnswerLookedUp(f, r, input, r.attempt);
    if stage.AnswerCurrent? {
      CurrentAlone(f, r, input, env, n - 1);
    } else {
      AnswerRests(f, r, input, stage, env, n - 1);
    }
  }

  lemma CurrentAlone(f: Followup, r: Record, input: AnswerInput, env: Env, n: nat)
    requires n > 3 && PastLookup(f, r, input, env)
    ensures var (after, stage) := AnswerSteps(f, r, input, AnswerCurrent(r.attempt), env, n);
            StoredExactly(f, r, input, env, after, stage)
  {
    hide AnswerSteps, AnswerCommitted, AnswerWithKey, AnswerTo;
    AnswerStep(f, r, input, AnswerCurrent(r.attempt), env, n);
    AnswerStep(f, r, input, AnswerUntimed(r.attempt), env, n - 1);
    var stage := AnswerChecked(f, r, input, r.attempt, env.grade);
    if stage.AnswerReady? {
      ReadyAlone(f, r, input, env, n - 2);
    } else {
      AnswerRests(f, r, input, stage, env, n - 2);
    }
  }

  lemma ReadyAlone(f: Followup, r: Record, input: AnswerInput, env: Env, n: nat)
    requires n > 1 && PastLookup(f, r, input, env)
    requires AnswerChecked(f, r, input, r.attempt, env.grade).AnswerReady?
    ensures var (after, stage) :=
              AnswerSteps(f, r, input, AnswerChecked(f, r, input, r.attempt, env.grade), env, n);
            StoredExactly(f, r, input, env, after, stage)
  {
    hide AnswerSteps, AnswerWithKey, AnswerTo;
    var stage := AnswerChecked(f, r, input, r.attempt, env.grade);
    AnswerStep(f, r, input, stage, env, n);
    var (after, next) := AnswerTick(f, r, input, stage, env);
    AnswerRests(f, after, input, next, env, n - 1);
  }

  lemma AnswerStep(f: Followup, r: Record, input: AnswerInput, stage: AnswerStage, env: Env, n: nat)
    requires n > 0
    ensures AnswerSteps(f, r, input, stage, env, n)
            == var (after, next) := AnswerTick(f, r, input, stage, env); AnswerSteps(f, after, input, next, env, n - 1)
  {
  }

  /** A finished answer stays finished, and one that only rereads finishes next. */
  lemma AnswerRests(f: Followup, r: Record, input: AnswerInput, stage: AnswerStage, env: Env, n: nat)
    requires stage.AnswerDone? || (stage.AnswerRereading? && n > 0)
    ensures AnswerSteps(f, r, input, stage, env, n).0 == r
    ensures AnswerSteps(f, r, input, stage, env, n).1
            == if stage.AnswerDone? then stage else AnswerDone(Reread(f, r, env, input.now))
    decreases n
  {
    hide Reread;
    if n > 0 {
      AnswerStep(f, r, input, stage, env, n);
      AnswerRests(f, r, input, AnswerTick(f, r, input, stage, env).1, env, n - 1);
    }
  }
  function AdvanceSteps(
    f: Followup, r: Record, input: AdvanceInput, stage: AdvanceStage, env: Env, n: nat): (Record, AdvanceStage)
    decreases n
  {
    if n == 0 then (r, stage)
    else
      var (after, next) := AdvanceTick(f, r, input, stage, env);
      AdvanceSteps(f, after, input, next, env, n - 1)
  }

  /** When pressing "continue" moves an attempt on: it shows a reveal or a card, and the command is new. */
  predicate MayContinue(f: Followup, a: Attempt, input: AdvanceInput, env: Env) {
    && env.authorized && !env.closed && f.opensAt <= input.now < f.closesAt
    && (input.key.Some? <==> input.expectedVersion.Some?)
    && (f.fullSequence ==> input.key.Some? && CardCount(f) > 0)
    && (input.key.Some? ==>
          input.expectedVersion == Some(a.version) && input.key.value !in a.receipts && |a.receipts| < 256)
    && (a.phase.AnswerReveal? || a.phase.Intervention?)
  }

  /** The outcome of a "continue": the next place of the script if it may move on, nothing new if it may not. */
  predicate MovesExactly(f: Followup, r: Record, input: AdvanceInput, env: Env, after: Record, stage: AdvanceStage) {
    && stage.AdvanceDone?
    && if MayContinue(f, r.attempt, input, env)
       then && after.answers == r.answers && after.attempt.version == r.attempt.version + 1
            && PlaceOf(after.attempt) == PlaceAt(f, r.attempt.version + 1)
            && after.attempt.receipts
               == (if input.key.Some? then r.attempt.receipts[input.key.value := r.attempt.version]
                   else r.attempt.receipts)
            && stage.reply == Snapshot(after.attempt)
       else after == r
  }

  /**
   * A "continue" that nothing interrupts moves the attempt exactly when it may, to the place the next version
   * number stands for, under its own receipt; otherwise nothing changes.
   */
  lemma ContinueAloneMovesExactly(f: Followup, r: Record, input: AdvanceInput, env: Env)
    requires AttemptOk(f, r.attempt)
    requires r.attempt.phase.QuestionOpen? && r.attempt.deadline.Some? ==> input.now <= r.attempt.deadline.value
    ensures var (after, stage) := AdvanceSteps(f, r, input, AdvanceArrived, env, 4);
            MovesExactly(f, r, input, env, after, stage)
  {
    hide AdvanceSteps, AdvanceTimed, AdvanceCommitted;
    AdvanceStep(f, r, input, AdvanceArrived, env, 4);
    var stage := AdvanceAuthorized(f, input, r.attempt, env);
    if stage.AdvanceLoaded? {
      LoadedContinues(f, r, input, env);
    } else {
      AdvanceRests(f, r, input, stage, env, 3);
    }
  }

  lemma AdvanceStep(f: Followup, r: Record, input: AdvanceInput, stage: AdvanceStage, env: Env, n: nat)
    requires n > 0
    ensures AdvanceSteps(f, r, input, stage, env, n)
            == var (after, next) := AdvanceTick(f, r, input, stage, env);
               AdvanceSteps(f, after, input, next, env, n - 1)
  {
  }

  lemma AdvanceRests(f: Followup, r: Record, input: AdvanceInput, stage: AdvanceStage, env: Env, n: nat)
    requires stage.AdvanceDone? || (stage.AdvanceRereading? && n > 0)
    ensures AdvanceSteps(f, r, input, stage, env, n).0 == r
    ensures AdvanceSteps(f, r, input, stage, env, n).1
            == if stage.AdvanceDone? then stage else AdvanceDone(Reread(f, r, env, input.now))
    decreases n
  {
    hide Reread;
    if n > 0 {
      AdvanceStep(f, r, input, stage, env, n);
      AdvanceRests(f, r, input, AdvanceTick(f, r, input, stage, env).1, env, n - 1);
    }
  }

  lemma LoadedContinues(f: Followup, r: Record, input: AdvanceInput, env: Env)
    requires AttemptOk(f, r.attempt) && AdvanceAuthorized(f, input, r.attempt, env).AdvanceLoaded?
    requires r.attempt.phase.QuestionOpen? && r.attempt.deadline.Some? ==> input.now <= r.attempt.deadline.value
    ensures var (after, stage) := AdvanceSteps(f, r, input, AdvanceLoaded(r.attempt), env, 3);
            MovesExactly(f, r, input, env, after, stage)
  {
    hide AdvanceSteps, VersionAt, PlaceAt;
    AdvanceStep(f, r, input, AdvanceLoaded(r.attempt), env, 3);
    var (_, stage) := AdvanceTimed(f, r, input, r.attempt);
    if stage.AdvanceReady? {
      ContinuedOk(f, r.attempt, input.now);
      var next := stage.next;
      VersionsAndPlacesCorrespond(f, PlaceOf(next), 0);
      AdvanceStep(f, r, input, stage, env, 2);
      var (after, last) := AdvanceTick(f, r, input, stage, env);
      AdvanceStep(f, after, input, last, env, 1);
      AdvanceRests(f, after, input, AdvanceTick(f, after, input, last, env).1, env, 0);
    } else {
      AdvanceRests(f, r, input, stage, env, 2);
    }
  }

  /** Looking at an attempt again reveals a question exactly when its deadline has passed, and changes nothing else. */
  lemma ResumeAloneRevealsExactly(f: Followup, r: Record, now: int, env: Env)
    requires AttemptOk(f, r.attempt) && env.authorized && !env.closed && f.opensAt <= now < f.closesAt
    ensures var a := r.attempt;
            var (after, stage) := ResumeTick(f, r, now, ResumeLoaded(a), env);
            && ResumeTick(f, r, now, ResumeArrived, env) == (r, ResumeLoaded(a))
            && stage == ResumeDone(Snapshot(after.attempt)) && after.answers == r.answers
            && after.attempt
               == if a.phase.QuestionOpen? && a.deadline.Some? && a.deadline.value < now
                  then a.(phase := AnswerReveal, version := a.version + 1) else a
  {
  }

  /** A fenced request that somebody else's move has overtaken is told so, and changes nothing. */
  lemma OvertakenRequestsAreStale(
    f: Followup, r: Record, answer: AnswerInput, press: AdvanceInput, read: Attempt, record: Answer, next: Attempt,
    env: Env)
    requires read.version != r.attempt.version && env.authorized
    requires Fenced(answer) && record.key == answer.key && (forall a | a in r.answers :: a.key != answer.key)
    requires Keyed(press) && press.key.value !in r.attempt.receipts
    ensures AnswerSteps(f, r, answer, AnswerReady(read, record), env, 2) == (r, AnswerDone(Refused(StaleVersion)))
    ensures AdvanceSteps(f, r, press, AdvanceReady(read, next), env, 2) == (r, AdvanceDone(Refused(StaleVersion)))
  {
    hide AnswerSteps, AdvanceSteps;
    AnswerStep(f, r, answer, AnswerReady(read, record), env, 2);
    AnswerStep(f, r, answer, AnswerRechecking, env, 1);
    AnswerRests(f, r, answer, AnswerDone(Refused(StaleVersion)), env, 0);
    AdvanceStep(f, r, press, AdvanceReady(read, next), env, 2);
    AdvanceStep(f, r, press, AdvanceRechecking, env, 1);
    AdvanceRests(f, r, press, AdvanceDone(Refused(StaleVersion)), env, 0);
  }

  /**
   * A request by itself is told that its version is stale exactly when it is a well-formed, new and
   * admissible request fenced by another version than the attempt's.
   */
  lemma OtherVersionsAreStaleExactly(f: Followup, r: Record, answer: AnswerInput, press: AdvanceInput, env: Env)
    requires env.authorized && Answerable(f, r.attempt, answer.now) && AttemptOk(f, r.attempt)
    requires r.attempt.phase.QuestionOpen? && r.attempt.deadline.Some? ==> press.now <= r.attempt.deadline.value
    ensures AnswerSteps(f, r, answer, AnswerArrived, env, 6).1 == AnswerDone(Refused(StaleVersion))
            <==> && !env.closed && f.opensAt <= answer.now < f.closesAt
                 && answer.questionId.Some? && answer.expectedVersion.Some?
                 && (forall a | a in r.answers :: a.key != answer.key)
                 && answer.expectedVersion.value != r.attempt.version
    ensures |r.attempt.receipts| < 256 ==>
              (AdvanceSteps(f, r, press, AdvanceArrived, env, 4).1 == AdvanceDone(Refused(StaleVersion))
               <==> && !env.closed && f.opensAt <= press.now < f.closesAt
                    && press.key.Some? && press.expectedVersion.Some? && press.key.value !in r.attempt.receipts
                    && press.expectedVersion.value != r.attempt.version)
  {
    hide AnswerSteps, AdvanceSteps, AttemptOk, AnswerWithKey;
    StaleAnswers(f, r, answer, env);
    if |r.attempt.receipts| < 256 {
      StalePresses(f, r, press, env);
    }
  }

  lemma StaleAnswers(f: Followup, r: Record, input: AnswerInput, env: Env)
    requires env.authorized && Answerable(f, r.attempt, input.now)
    ensures AnswerSteps(f, r, input, AnswerArrived, env, 6).1 == AnswerDone(Refused(StaleVersion))
            <==> && Access(f, env, input.now).None? && Fenced(input) && AnswerWithKey(r.answers, input.key).None?
                 && input.expectedVersion.value != r.attempt.version
  {
    hide AnswerSteps, AnswerTimed, AnswerChecked, AnswerCommitted, AnswerWithKey, AnswerTo;
    AnswerStep(f, r, input, AnswerArrived, env, 6);
    var stage := AnswerAuthorized(f, input, r.attempt, env);
    if stage.AnswerDone? {
      AnswerRests(f, r, input, stage, env, 5);
    } else if stage.AnswerLoaded? {
      AnswerStep(f, r, input, stage, env, 5);
      var next := AnswerLookedUp(f, r, input, r.attempt);
      if next.AnswerCurrent? {
        CurrentIsNotStale(f, r, input, env, 4);
      } else {
        AnswerRests(f, r, input, next, env, 4);
      }
    } else {
      CurrentIsNotStale(f, r, input, env, 5);
    }
  }

  lemma CurrentIsNotStale(f: Followup, r: Record, input: AnswerInput, env: Env, n: nat)
    requires n > 3 && PastLookup(f, r, input, env)
    ensures AnswerSteps(f, r, input, AnswerCurrent(r.attempt), env, n).1 != AnswerDone(Refused(StaleVersion))
  {
    hide AnswerSteps, AnswerWithKey, AnswerTo, AnswerReceiptMatches;
    AnswerStep(f, r, input, AnswerCurrent(r.attempt), env, n);
    AnswerStep(f, r, input, AnswerUntimed(r.attempt), env, n - 1);
    var stage := AnswerChecked(f, r, input, r.attempt, env.grade);
    if stage.AnswerReady? {
      AnswerStep(f, r, input, stage, env, n - 2);
      var (after, next) := AnswerTick(f, r, input, stage, env);
      AnswerRests(f, after, input, next, env, n - 3);
    } else {
      AnswerRests(f, r, input, stage, env, n - 2);
    }
  }

  lemma StalePresses(f: Followup, r: Record, input: AdvanceInput, env: Env)
    requires env.authorized && AttemptOk(f, r.attempt) && |r.attempt.receipts| < 256
    requires r.attempt.phase.QuestionOpen? && r.attempt.deadline.Some? ==> input.now <= r.attempt.deadline.value
    ensures AdvanceSteps(f, r, input, AdvanceArrived, env, 4).1 == AdvanceDone(Refused(StaleVersion))
            <==> && Access(f, env, input.now).None? && Keyed(input) && input.key.value !in r.attempt.receipts
                 && input.expectedVersion.value != r.attempt.version
  {
    hide AdvanceSteps, AdvanceTimed, AdvanceCommitted, AttemptOk;
    AdvanceStep(f, r, input, AdvanceArrived, env, 4);
    var stage := AdvanceAuthorized(f, input, r.attempt, env);
    if stage.AdvanceLoaded? {
      LoadedIsNotStale(f, r, input, env);
    } else {
      AdvanceRests(f, r, input, stage, env, 3);
    }
  }

  lemma LoadedIsNotStale(f: Followup, r: Record, input: AdvanceInput, env: Env)
    requires AdvanceAuthorized(f, input, r.attempt, env).AdvanceLoaded? && |r.attempt.receipts| < 256
    requires r.attempt.phase.QuestionOpen? && r.attempt.deadline.Some? ==> input.now <= r.attempt.deadline.value
    ensures AdvanceSteps(f, r, input, AdvanceLoaded(r.attempt), env, 3).1 != AdvanceDone(Refused(StaleVersion))
  {
    hide AdvanceSteps, SequenceOk;
    AdvanceStep(f, r, input, AdvanceLoaded(r.attempt), env, 3);
    var (_, stage) := AdvanceTimed(f, r, input, r.attempt);
    if stage.AdvanceReady? {
      AdvanceStep(f, r, input, stage, env, 2);
      var (after, last) := AdvanceTick(f, r, input, stage, env);
      AdvanceRests(f, after, input, last, env, 1);
    } else {
      AdvanceRests(f, r, input, stage, env, 2);
    }
  }

  // ---------------------------------------------------------------- unfenced answers

  /**
   * An unfenced answer is told of the reveal it proposed. That is the stored attempt exactly when the
   * key was new, or the attempt had meanwhile been revealed from the very version the request read.
   */
  lemma UnfencedReplyIsTrueExactlyForNewKeys(f: Followup, startedAt: int, halves: nat, s: System, i: nat, env: Env)
    requires Reachable(f, startedAt, halves, s)
    requires i < |s.tasks| && s.tasks[i].AnswerTask? && s.tasks[i].answer_stage.AnswerReady?
    requires !Fenced(s.tasks[i].answer) && TaskTick(f, s.record, s.tasks[i], env).1.answer_stage.AnswerDone?
    requires TaskTick(f, s.record, s.tasks[i], env).1.answer_stage.reply.Snapshot?
    ensures var (after, next) := TaskTick(f, s.record, s.tasks[i], env);
            var read := s.tasks[i].answer_stage.read;
            next.answer_stage.reply == Snapshot(after.attempt)
            <==>
            AnswerWithKey(s.record.answers, s.tasks[i].answer.key).None? || s.record.attempt.version == read.version + 1
  {
    hide Reachable, OutcomesOk, AuthorsOk, AttemptOk, Continued, AnswerTo, AnswerWithKey;
    ReachableInv(f, startedAt, halves, s);
    assert TaskOk(f, s.log, s.tasks[i]);
    var read := s.tasks[i].answer_stage.read;
    if s.record.attempt.version == read.version + 1 {
      assert LegalMove(f, s.log[read.version], s.log[read.version + 1], s.clocks[read.version + 1]);
    }
  }

  /**
   * The failing case is real: whenever a question is open, an unfenced request that reuses a key
   * already stored for another question is told its answer was taken, and nothing is stored.
   */
  lemma ReusedKeyIsSilentlyDropped(f: Followup, s: System, input: AnswerInput, env: Env)
    requires FollowupOk(f) && !f.fullSequence && input.questionId.None? && input.expectedVersion.None?
    requires Access(f, env, input.now).None? && env.grade.Graded?
    requires var a := s.record.attempt;
             a.status.InProgress? && a.phase.QuestionOpen? && !TimedOut(a, input.now) && a.index < |f.questions|
             && AnswerTo(s.record.answers, f.questions[a.index].id).None?
             && (f.questions[a.index].confidence.ConfidenceRequired? ==> input.confidence.Some?)
    requires AnswerWithKey(s.record.answers, input.key).Some?
    ensures var i := |s.tasks|;
            Run(f, s, [NewAnswer(input), Tick(i, env), Tick(i, env), Tick(i, env), Tick(i, env)])
            == s.(tasks := s.tasks + [AnswerTask(input, AnswerDone(Snapshot(Revealed(s.record.attempt))))])
  {
    hide AnswerTo, AnswerWithKey;
    var i, r := |s.tasks|, s.record;
    assert AnswerTick(f, r, input, AnswerArrived, env) == (r, AnswerCurrent(r.attempt));
    assert AnswerTick(f, r, input, AnswerCurrent(r.attempt), env) == (r, AnswerUntimed(r.attempt));
    var answer := AnswerRecord(f.questions[r.attempt.index], input, r.attempt, env.grade.correct);
    assert AnswerTick(f, r, input, AnswerUntimed(r.attempt), env) == (r, AnswerReady(r.attempt, answer));
    assert AnswerTick(f, r, input, AnswerReady(r.attempt, answer), env)
           == (r, AnswerDone(Snapshot(Revealed(r.attempt))));
    RunAlone(f, s, input, env, AnswerCurrent(r.attempt), AnswerUntimed(r.attempt), AnswerReady(r.attempt, answer),
             AnswerDone(Snapshot(Revealed(r.attempt))));
  }

  /** Four steps of one new answer while nothing else happens and the record does not change. */
  lemma RunAlone(
    f: Followup, s: System, input: AnswerInput, env: Env, a: AnswerStage, b: AnswerStage, c: AnswerStage,
    d: AnswerStage)
    requires AnswerTick(f, s.record, input, AnswerArrived, env) == (s.record, a)
    requires AnswerTick(f, s.record, input, a, env) == (s.record, b)
    requires AnswerTick(f, s.record, input, b, env) == (s.record, c)
    requires AnswerTick(f, s.record, input, c, env) == (s.record, d)
    ensures var i := |s.tasks|;
            Run(f, s, [NewAnswer(input), Tick(i, env), Tick(i, env), Tick(i, env), Tick(i, env)])
            == s.(tasks := s.tasks + [AnswerTask(input, d)])
  {
    hide AnswerTick;
    var i := |s.tasks|;
    var tick := Tick(i, env);
    assert Next(f, s, NewAnswer(input)) == s.(tasks := s.tasks + [AnswerTask(input, AnswerArrived)]);
    TickAlone(f, s, input, env, AnswerArrived, a);
    TickAlone(f, s, input, env, a, b);
    TickAlone(f, s, input, env, b, c);
    TickAlone(f, s, input, env, c, d);
    RunTicks(f, s.(tasks := s.tasks + [AnswerTask(input, AnswerArrived)]), tick);
    assert [NewAnswer(input), tick, tick, tick, tick][1..] == [tick, tick, tick, tick];
  }

  lemma TickAlone(f: Followup, s: System, input: AnswerInput, env: Env, before: AnswerStage, after: AnswerStage)
    requires AnswerTick(f, s.record, input, before, env) == (s.record, after)
    ensures Next(f, s.(tasks := s.tasks + [AnswerTask(input, before)]), Tick(|s.tasks|, env))
            == s.(tasks := s.tasks + [AnswerTask(input, after)])
  {
    hide AnswerTick;
    assert (s.tasks + [AnswerTask(input, before)])[|s.tasks| := AnswerTask(input, after)]
           == s.tasks + [AnswerTask(input, after)];
  }

  lemma RunTicks(f: Followup, s: System, move: Move)
    ensures Run(f, s, [move, move, move, move]) == Next(f, Next(f, Next(f, Next(f, s, move), move), move), move)
  {
    hide Next;
    var s1 := Next(f, s, move);
    var s2 := Next(f, s1, move);
    var s3 := Next(f, s2, move);
    assert [move, move, move, move][1..] == [move, move, move];
    assert [move, move, move][1..] == [move, move];
    assert [move, move][1..] == [move];
    assert Run(f, s, [move, move, move, move]) == Run(f, s1, [move, move, move]);
    assert Run(f, s1, [move, move, move]) == Run(f, s2, [move, move]);
    assert Run(f, s2, [move, move]) == Run(f, s3, [move]);
    assert Run(f, s3, [move]) == Run(f, Next(f, s3, move), []);
  }
}
