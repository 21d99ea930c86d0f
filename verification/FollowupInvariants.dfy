/** What every interleaving of requests keeps true of a follow-up attempt and its history. */
module FollowupInvariants {
  import opened Common
  import opened FollowupModel
  import opened FollowupProtocol

  /** The attempt is somewhere on the script, at the version that place has. */
  predicate AttemptOk(f: Followup, a: Attempt) {
    && ValidPlace(f, PlaceOf(a)) && a.version == VersionAt(f, PlaceOf(a)) && SequenceOk(f, a)
    && (a.status.Completed? <==> a.phase.AllDone?) && a.index < |f.questions|
    && (a.phase.AllDone? ==> a.index + 1 == |f.questions|)
    && (a.phase.QuestionOpen? ==>
          a.deadline == if f.timed then Some(TimedDeadline(f.questions[a.index], a.openedAt, a.halves)) else None)
  }

  lemma RevealedOk(f: Followup, a: Attempt)
    requires AttemptOk(f, a) && a.phase.QuestionOpen?
    ensures AttemptOk(f, Revealed(a)) && PlaceOf(Revealed(a)) == Reveal(a.index)
  {
  }

  lemma ContinuedOk(f: Followup, a: Attempt, now: int)
    requires AttemptOk(f, a) && a.status.InProgress? && Continued(f, a, now).Success?
    ensures var b := Continued(f, a, now).value;
            AttemptOk(f, b) && b.version == a.version + 1 && !a.phase.QuestionOpen? && !b.phase.AnswerReveal?
  {
  }

  // ---------------------------------------------------------------- the log and the handlers

  /** `b` is what one reveal or one press of "continue" at `now` makes of `a`, up to the command receipts. */
  predicate LegalMove(f: Followup, a: Attempt, b: Attempt, now: int) {
    if a.phase.QuestionOpen? then b == Revealed(a)
    else Continued(f, a, now) == Success(b.(receipts := a.receipts))
  }

  /** Each version follows from the one before it, at the time of the request that made it. */
  predicate MovesOk(f: Followup, log: seq<Attempt>, clocks: seq<int>) {
    |clocks| == |log| && forall v | 0 < v < |log| :: LegalMove(f, log[v - 1], log[v], clocks[v])
  }

  predicate LogOk(f: Followup, r: Record, log: seq<Attempt>) {
    && |log| == r.attempt.version + 1 && log[r.attempt.version] == r.attempt
    && (forall v | 0 <= v < |log| :: log[v].version == v && AttemptOk(f, log[v]))
  }

  predicate ReadOk(log: seq<Attempt>, read: Attempt) {
    read.version < |log| && log[read.version] == read
  }

  predicate FenceOk(f: Followup, input: AnswerInput, read: Attempt) {
    Fenced(input) ==> input.expectedVersion == Some(read.version) && AsksFor(f, read, input)
  }

  predicate KeyOk(input: AdvanceInput, read: Attempt) {
    input.key.Some? ==> input.expectedVersion == Some(read.version)
  }

  /** The answer is this request's, for the question open in what it read, and in time. */
  predicate AnswerFits(f: Followup, input: AnswerInput, read: Attempt, answer: Answer) {
    && read.phase.QuestionOpen? && read.index < |f.questions| && !TimedOut(read, input.now)
    && answer == AnswerRecord(f.questions[read.index], input, read, answer.correct)
    && (Fenced(input) ==> AnswerReceiptMatches(answer, input))
  }

  predicate TaskOk(f: Followup, log: seq<Attempt>, task: Task) {
    match task
    case AnswerTask(input, AnswerLoaded(read)) => ReadOk(log, read) && Fenced(input)
    case AnswerTask(input, AnswerCurrent(read)) => ReadOk(log, read) && FenceOk(f, input, read)
    case AnswerTask(input, AnswerUntimed(read)) =>
      ReadOk(log, read) && FenceOk(f, input, read) && !TimedOut(read, input.now) && read.index < |f.questions|
    case AnswerTask(input, AnswerReady(read, answer)) => ReadOk(log, read) && AnswerFits(f, input, read, answer)
    case AdvanceTask(input, AdvanceLoaded(read)) => ReadOk(log, read) && KeyOk(input, read)
    case AdvanceTask(input, AdvanceReady(read, next)) =>
      ReadOk(log, read) && KeyOk(input, read) && read.status.InProgress?
        && Continued(f, read, input.now) == Success(next)
    case ResumeTask(_, ResumeLoaded(read)) => ReadOk(log, read)
    case _ => true
  }

  // ---------------------------------------------------------------- what one step can do

  predicate RevealsTo(r: Record, task: Task, after: Record) {
    && AuthorOf(task).None? && TimedOut(r.attempt, NowOf(task)) && after == Record(Revealed(r.attempt), r.answers)
  }

  predicate AnswersTo(f: Followup, r: Record, task: Task, after: Record) {
    && task.AnswerTask? && task.answer_stage.AnswerReady?
    && var answer := task.answer_stage.answer;
       && AnswerFits(f, task.answer, r.attempt, answer)
       && after == Record(Revealed(r.attempt), r.answers + [answer])
       && AnswerWithKey(r.answers, answer.key).None?
  }

  function WithReceipt(a: Attempt, key: Option<Key>, version: nat): Attempt {
    if key.Some? then a.(receipts := a.receipts[key.value := version]) else a
  }

  predicate ContinuesTo(f: Followup, r: Record, task: Task, after: Record) {
    && task.AdvanceTask? && task.advance_stage.AdvanceReady? && KeyOk(task.advance, r.attempt)
    && r.attempt.status.InProgress?
    && Continued(f, r.attempt, task.advance.now).Success?
    && after
       == Record(WithReceipt(Continued(f, r.attempt, task.advance.now).value, task.advance.key, r.attempt.version),
                 r.answers)
    && (task.advance.key.Some? ==> task.advance.key.value !in r.attempt.receipts)
  }

  lemma AnswerEffect(f: Followup, r: Record, log: seq<Attempt>, task: Task, env: Env)
    requires LogOk(f, r, log) && TaskOk(f, log, task) && task.AnswerTask?
    ensures var after := TaskTick(f, r, task, env).0;
            after == r || RevealsTo(r, task, after) || AnswersTo(f, r, task, after)
  {
    hide AttemptOk, AnswerWithKey, AnswerTo, AnswerFits, AnswerChecked;
  }

  lemma AdvanceEffect(f: Followup, r: Record, log: seq<Attempt>, task: Task, env: Env)
    requires LogOk(f, r, log) && TaskOk(f, log, task) && task.AdvanceTask?
    ensures var after := TaskTick(f, r, task, env).0;
            after == r || RevealsTo(r, task, after) || ContinuesTo(f, r, task, after)
  {
    hide AttemptOk;
    if task.advance_stage.AdvanceReady? {
      ContinuedReceipts(f, task.advance_stage.read, task.advance.now);
    }
  }

  lemma ContinuedReceipts(f: Followup, a: Attempt, now: int)
    requires Continued(f, a, now).Success?
    ensures Continued(f, a, now).value.receipts == a.receipts
  {
  }

  lemma ResumeEffect(f: Followup, r: Record, log: seq<Attempt>, task: Task, env: Env)
    requires LogOk(f, r, log) && TaskOk(f, log, task) && task.ResumeTask?
    ensures var after := TaskTick(f, r, task, env).0;
            after == r || RevealsTo(r, task, after)
  {
    hide AttemptOk;
  }

  /** A step leaves the record alone, reveals an overdue question, stores one answer, or continues once. */
  lemma TickEffect(f: Followup, r: Record, log: seq<Attempt>, task: Task, env: Env)
    requires LogOk(f, r, log) && TaskOk(f, log, task)
    ensures var after := TaskTick(f, r, task, env).0;
            after == r || RevealsTo(r, task, after) || AnswersTo(f, r, task, after) || ContinuesTo(f, r, task, after)
  {
    hide LogOk, TaskOk, AnswersTo, ContinuesTo, RevealsTo, TaskTick;
    match task
    case AnswerTask(_, _) => AnswerEffect(f, r, log, task, env);
    case AdvanceTask(_, _) => AdvanceEffect(f, r, log, task, env);
    case ResumeTask(_, _) => ResumeEffect(f, r, log, task, env);
  }

  lemma TickTaskOk(f: Followup, r: Record, log: seq<Attempt>, task: Task, env: Env)
    requires LogOk(f, r, log) && TaskOk(f, log, task)
    ensures TaskOk(f, log, TaskTick(f, r, task, env).1)
  {
    hide AttemptOk, AnswerWithKey, AnswerTo, AdvanceAttempt, CommitAnswer;
  }

  // ---------------------------------------------------------------- outcomes and answers

  function AnswersOf(outcomes: seq<Outcome>): seq<Answer> {
    if outcomes == [] then []
    else
      var last := outcomes[|outcomes| - 1];
      AnswersOf(outcomes[..|outcomes| - 1]) + if last.ByAnswer? then [last.answer] else []
  }

  /** How many questions have been revealed. */
  function RevealCount(f: Followup, a: Attempt): nat {
    match a.phase
    case QuestionOpen => a.index
    case AnswerReveal => a.index + 1
    case Intervention => 1
    case AllDone => |f.questions|
  }

  predicate AnswerOutcome(q: Checkpoint, start: Attempt, answer: Answer) {
    && answer.checkpointId == q.id
    && (answer.submittedVersion.Some? ==> answer.submittedVersion == Some(start.version))
    && (start.deadline.Some? ==> answer.acceptedAt <= start.deadline.value)
  }

  /** Question `i` was answered in time for its own opening, or revealed strictly after its deadline. */
  predicate OutcomeOk(f: Followup, log: seq<Attempt>, clocks: seq<int>, i: nat, outcome: Outcome) {
    && i < |f.questions| && VersionAt(f, Open(i)) + 1 < |log| && |clocks| == |log|
    && var start, at := log[VersionAt(f, Open(i))], clocks[VersionAt(f, Open(i)) + 1];
       match outcome
       case ByAnswer(answer) => AnswerOutcome(f.questions[i], start, answer) && answer.acceptedAt == at
       case ByTimeout(late) => start.deadline.Some? && start.deadline.value < late == at
  }

  predicate OutcomesOk(f: Followup, s: System) {
    && |s.outcomes| == RevealCount(f, s.record.attempt)
    && s.record.answers == AnswersOf(s.outcomes)
    && (forall i | 0 <= i < |s.outcomes| :: OutcomeOk(f, s.log, s.clocks, i, s.outcomes[i]))
  }

  /** A receipt for version v stands for the author of version v + 1, and the other way round. */
  predicate AuthorsMatch(receipts: map<Key, nat>, authors: seq<Option<Key>>) {
    && (forall key | key in receipts :: receipts[key] + 1 < |authors| && authors[receipts[key] + 1] == Some(key))
    && (forall v | 0 <= v < |authors| && authors[v].Some? ::
          authors[v].value in receipts && receipts[authors[v].value] + 1 == v)
  }

  predicate AuthorsOk(s: System) {
    |s.authors| == |s.log| && AuthorsMatch(s.record.attempt.receipts, s.authors)
  }

  predicate KeysDistinct(answers: seq<Answer>) {
    forall i, j | 0 <= i < j < |answers| :: answers[i].key != answers[j].key
  }

  predicate TasksOk(f: Followup, s: System) {
    forall i | 0 <= i < |s.tasks| :: TaskOk(f, s.log, s.tasks[i])
  }

  predicate Inv(f: Followup, s: System) {
    && LogOk(f, s.record, s.log) && MovesOk(f, s.log, s.clocks) && TasksOk(f, s) && OutcomesOk(f, s) && AuthorsOk(s)
    && KeysDistinct(s.record.answers)
  }

  lemma ReceiptsDoNotMatter(f: Followup, a: Attempt, key: Option<Key>, version: nat)
    requires AttemptOk(f, a)
    ensures AttemptOk(f, WithReceipt(a, key, version)) && WithReceipt(a, key, version).version == a.version
  {
  }

  /** Every change of the record moves exactly one version on, and along the script. */
  lemma MoveOk(f: Followup, r: Record, task: Task, after: Record)
    requires AttemptOk(f, r.attempt)
    requires RevealsTo(r, task, after) || AnswersTo(f, r, task, after) || ContinuesTo(f, r, task, after)
    ensures AttemptOk(f, after.attempt) && after.attempt.version == r.attempt.version + 1
    ensures LegalMove(f, r.attempt, after.attempt, NowOf(task))
  {
    hide AttemptOk, Continued;
    if ContinuesTo(f, r, task, after) {
      ContinuedOk(f, r.attempt, task.advance.now);
      ContinuedReceipts(f, r.attempt, task.advance.now);
      assert after.attempt.(receipts := r.attempt.receipts) == Continued(f, r.attempt, task.advance.now).value;
      ReceiptsDoNotMatter(f, Continued(f, r.attempt, task.advance.now).value, task.advance.key, r.attempt.version);
    } else {
      RevealedOk(f, r.attempt);
    }
  }

  lemma LogGrows(f: Followup, r: Record, log: seq<Attempt>, after: Record)
    requires LogOk(f, r, log) && AttemptOk(f, after.attempt) && after.attempt.version == r.attempt.version + 1
    ensures LogOk(f, after, log + [after.attempt])
  {
    hide AttemptOk;
  }

  lemma MovesGrow(f: Followup, log: seq<Attempt>, clocks: seq<int>, a: Attempt, now: int)
    requires log != [] && MovesOk(f, log, clocks) && LegalMove(f, log[|log| - 1], a, now)
    ensures MovesOk(f, log + [a], clocks + [now])
  {
      }

  lemma TaskOkGrows(f: Followup, log: seq<Attempt>, more: seq<Attempt>, task: Task)
    requires TaskOk(f, log, task)
    ensures TaskOk(f, log + more, task)
  {
    hide AnswerFits, FenceOk, KeyOk, Continued;
  }

  /** One step of task `i`, seen from its effect on the record. */
  predicate Stepped(f: Followup, s: System, i: nat, after: Record, next: Task, t: System) {
    && i < |s.tasks| && t == Recorded(s, i, after, next)
    && (RevealsTo(s.record, s.tasks[i], after) || AnswersTo(f, s.record, s.tasks[i], after)
        || ContinuesTo(f, s.record, s.tasks[i], after))
    && AttemptOk(f, after.attempt) && after.attempt.version == s.record.attempt.version + 1
  }

  lemma StepKeepsTasks(f: Followup, s: System, i: nat, after: Record, next: Task)
    requires LogOk(f, s.record, s.log) && TasksOk(f, s) && i < |s.tasks| && TaskOk(f, s.log, next)
    ensures TasksOk(f, Recorded(s, i, after, next))
  {
    hide TaskOk, LogOk;
    var t := Recorded(s, i, after, next);
    var more := if after.attempt.version != s.record.attempt.version then [after.attempt] else [];
    assert t.log == s.log + more;
    forall k | 0 <= k < |t.tasks| ensures TaskOk(f, t.log, t.tasks[k]) {
      TaskOkGrows(f, s.log, more, t.tasks[k]);
    }
  }

  lemma OutcomeOkGrows(
    f: Followup, log: seq<Attempt>, clocks: seq<int>, a: Attempt, now: int, i: nat, outcome: Outcome)
    requires OutcomeOk(f, log, clocks, i, outcome)
    ensures OutcomeOk(f, log + [a], clocks + [now], i, outcome)
  {
    hide AnswerOutcome;
  }

  lemma NewOutcomeOk(f: Followup, s: System, i: nat, after: Record, next: Task, t: System)
    requires LogOk(f, s.record, s.log) && Stepped(f, s, i, after, next, t) && s.record.attempt.phase.QuestionOpen?
    requires |s.clocks| == |s.log|
    ensures t.log == s.log + [after.attempt] && |t.outcomes| == |s.outcomes| + 1 && s.outcomes <= t.outcomes
    ensures OutcomeOk(f, t.log, t.clocks, s.record.attempt.index, t.outcomes[|s.outcomes|])
    ensures after.answers
            == s.record.answers + if t.outcomes[|s.outcomes|].ByAnswer? then [t.outcomes[|s.outcomes|].answer] else []
    ensures after.attempt.phase.AnswerReveal? && after.attempt.index == s.record.attempt.index
  {
        assert s.log[s.record.attempt.version] == s.record.attempt && AttemptOk(f, s.record.attempt);
  }

  lemma ContinueKeepsCount(f: Followup, s: System, i: nat, after: Record, next: Task, t: System)
    requires LogOk(f, s.record, s.log) && Stepped(f, s, i, after, next, t) && !s.record.attempt.phase.QuestionOpen?
    ensures t.log == s.log + [after.attempt] && t.outcomes == s.outcomes && after.answers == s.record.answers
    ensures RevealCount(f, after.attempt) == RevealCount(f, s.record.attempt)
  {
        assert s.log[s.record.attempt.version] == s.record.attempt && AttemptOk(f, s.record.attempt);
  }

  lemma StepKeepsOutcomes(f: Followup, s: System, i: nat, after: Record, next: Task, t: System)
    requires LogOk(f, s.record, s.log) && OutcomesOk(f, s) && Stepped(f, s, i, after, next, t)
    requires |s.clocks| == |s.log|
    ensures OutcomesOk(f, t)
  {
    hide LogOk, Stepped, OutcomeOk, Recorded;
    StepAuthors(f, s, i, after, next, t);
    if s.record.attempt.phase.QuestionOpen? {
      NewOutcomeOk(f, s, i, after, next, t);
      assert t.outcomes[..|t.outcomes| - 1] == s.outcomes;
    } else {
      ContinueKeepsCount(f, s, i, after, next, t);
    }
    forall k | 0 <= k < |s.outcomes| ensures OutcomeOk(f, t.log, t.clocks, k, s.outcomes[k]) {
      OutcomeOkGrows(f, s.log, s.clocks, after.attempt, NowOf(s.tasks[i]), k, s.outcomes[k]);
    }
  }

  lemma NobodyWrote(receipts: map<Key, nat>, authors: seq<Option<Key>>)
    requires AuthorsMatch(receipts, authors)
    ensures AuthorsMatch(receipts, authors + [None])
  {
  }

  lemma SomebodyWrote(receipts: map<Key, nat>, authors: seq<Option<Key>>, key: Key)
    requires AuthorsMatch(receipts, authors) && authors != [] && key !in receipts
    ensures AuthorsMatch(receipts[key := |authors| - 1], authors + [Some(key)])
  {
  }

  lemma StepAuthors(f: Followup, s: System, i: nat, after: Record, next: Task, t: System)
    requires LogOk(f, s.record, s.log) && Stepped(f, s, i, after, next, t)
    ensures i < |s.tasks| && t.record == after
    ensures t.log == s.log + [after.attempt] && t.authors == s.authors + [AuthorOf(s.tasks[i])]
    ensures t.clocks == s.clocks + [NowOf(s.tasks[i])]
    ensures if AuthorOf(s.tasks[i]).Some?
            then && AuthorOf(s.tasks[i]).value !in s.record.attempt.receipts
                 && after.attempt.receipts
                    == s.record.attempt.receipts[AuthorOf(s.tasks[i]).value := s.record.attempt.version]
            else after.attempt.receipts == s.record.attempt.receipts
  {
    hide AttemptOk, AnswerFits, Continued;
    if ContinuesTo(f, s.record, s.tasks[i], after) {
      ContinuedReceipts(f, s.record.attempt, s.tasks[i].advance.now);
    }
  }

  lemma StepKeepsAuthors(f: Followup, s: System, i: nat, after: Record, next: Task, t: System)
    requires LogOk(f, s.record, s.log) && AuthorsOk(s) && Stepped(f, s, i, after, next, t)
    ensures AuthorsOk(t)
  {
    hide AttemptOk, AuthorsMatch, Stepped, Recorded;
    StepAuthors(f, s, i, after, next, t);
    if AuthorOf(s.tasks[i]).Some? {
      SomebodyWrote(s.record.attempt.receipts, s.authors, AuthorOf(s.tasks[i]).value);
    } else {
      NobodyWrote(s.record.attempt.receipts, s.authors);
    }
  }

  lemma StepKeepsKeys(f: Followup, s: System, i: nat, after: Record, next: Task, t: System)
    requires KeysDistinct(s.record.answers) && Stepped(f, s, i, after, next, t)
    ensures KeysDistinct(after.answers)
  {
    hide AttemptOk, AnswerFits, Continued;
  }

  lemma TipOk(f: Followup, r: Record, log: seq<Attempt>)
    requires LogOk(f, r, log)
    ensures AttemptOk(f, r.attempt) && |log| > 0 && log[|log| - 1] == r.attempt
  {
    hide AttemptOk;
    assert AttemptOk(f, log[r.attempt.version]);
  }

  /** What the history says does not depend on the requests in flight. */
  lemma HistoryStays(f: Followup, s: System, t: System)
    requires OutcomesOk(f, s) && AuthorsOk(s) && t == s.(tasks := t.tasks)
    ensures OutcomesOk(f, t) && AuthorsOk(t)
  {
    hide OutcomeOk, AuthorsMatch, AnswersOf;
  }

  lemma IdleStep(s: System, i: nat, next: Task)
    requires i < |s.tasks|
    ensures Recorded(s, i, s.record, next) == s.(tasks := s.tasks[i := next])
  {
  }

  lemma MovedStep(s: System, i: nat, after: Record, next: Task)
    requires i < |s.tasks| && after.attempt.version == s.record.attempt.version + 1
    ensures Recorded(s, i, after, next).record == after
    ensures Recorded(s, i, after, next).log == s.log + [after.attempt]
    ensures Recorded(s, i, after, next).clocks == s.clocks + [NowOf(s.tasks[i])]
  {
  }

  lemma StepKeepsInv(f: Followup, s: System, i: nat, after: Record, next: Task)
    requires Inv(f, s) && i < |s.tasks| && TaskOk(f, s.log, next)
    requires RevealsTo(s.record, s.tasks[i], after) || AnswersTo(f, s.record, s.tasks[i], after)
             || ContinuesTo(f, s.record, s.tasks[i], after)
    ensures Inv(f, Recorded(s, i, after, next))
  {
    hide LogOk, TasksOk, OutcomesOk, AuthorsOk, KeysDistinct, LegalMove, AttemptOk, TaskOk, Recorded;
    assert |s.clocks| == |s.log|;
    hide MovesOk;
    hide AnswersTo, RevealsTo, ContinuesTo;
    var t := Recorded(s, i, after, next);
    TipOk(f, s.record, s.log);
    MoveOk(f, s.record, s.tasks[i], after);
    MovedStep(s, i, after, next);
    LogGrows(f, s.record, s.log, after);
    MovesGrow(f, s.log, s.clocks, after.attempt, NowOf(s.tasks[i]));
    StepKeepsTasks(f, s, i, after, next);
    StepKeepsOutcomes(f, s, i, after, next, t);
    StepKeepsAuthors(f, s, i, after, next, t);
    StepKeepsKeys(f, s, i, after, next, t);
  }

  lemma NextKeepsInv(f: Followup, s: System, move: Move)
    requires Inv(f, s)
    ensures Inv(f, Next(f, s, move))
  {
    hide LogOk, OutcomesOk, AuthorsOk, KeysDistinct, TaskOk, TaskTick, Recorded;
    hide AnswersTo, RevealsTo, ContinuesTo;
    if move.Tick? && move.task < |s.tasks| {
      var i, task := move.task, s.tasks[move.task];
      var (after, next) := TaskTick(f, s.record, task, move.env);
      TickEffect(f, s.record, s.log, task, move.env);
      TickTaskOk(f, s.record, s.log, task, move.env);
      if after != s.record {
        StepKeepsInv(f, s, i, after, next);
      } else {
        IdleStep(s, i, next);
        StepKeepsTasks(f, s, i, after, next);
        HistoryStays(f, s, Recorded(s, i, after, next));
      }
    } else {
      NewTaskKeepsInv(f, s, move);
    }
  }

  predicate JustArrived(task: Task) {
    match task
    case AnswerTask(_, stage) => stage.AnswerArrived?
    case AdvanceTask(_, stage) => stage.AdvanceArrived?
    case ResumeTask(_, stage) => stage.ResumeArrived?
  }

  lemma ArrivalKeepsTasks(f: Followup, s: System, task: Task)
    requires TasksOk(f, s) && JustArrived(task)
    ensures TasksOk(f, s.(tasks := s.tasks + [task]))
  {
    assert TaskOk(f, s.log, task);
    hide TaskOk;
    forall i | 0 <= i < |s.tasks + [task]| ensures TaskOk(f, s.log, (s.tasks + [task])[i]) {
    }
  }

  lemma NewTaskKeepsInv(f: Followup, s: System, move: Move)
    requires Inv(f, s) && !(move.Tick? && move.task < |s.tasks|)
    ensures Inv(f, Next(f, s, move))
  {
    hide LogOk, TasksOk, OutcomesOk, AuthorsOk, KeysDistinct, TaskTick;
    if !move.Tick? {
      var task := match move
                  case NewAnswer(input) => AnswerTask(input, AnswerArrived)
                  case NewAdvance(input) => AdvanceTask(input, AdvanceArrived)
                  case NewResume(now) => ResumeTask(now, ResumeArrived)
                  case Tick(_, _) => ResumeTask(0, ResumeArrived);
      ArrivalKeepsTasks(f, s, task);
      HistoryStays(f, s, Next(f, s, move));
    }
  }

  lemma {:induction false} RunKeepsInv(f: Followup, s: System, moves: seq<Move>)
    requires Inv(f, s)
    ensures Inv(f, Run(f, s, moves))
    decreases |moves|
  {
    hide Inv, Next;
    if moves != [] {
      NextKeepsInv(f, s, moves[0]);
      RunKeepsInv(f, Next(f, s, moves[0]), moves[1..]);
    }
  }

  lemma OpeningInv(f: Followup, now: int, halves: nat)
    requires FollowupOk(f)
    ensures Inv(f, Opening(f, now, halves))
  {
  }
}
