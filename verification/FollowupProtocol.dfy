/** Concurrent answers, advances and resumes of one follow-up attempt, one repository call per step. */
module FollowupProtocol {
  import opened Common
  import opened FollowupModel

  // ---------------------------------------------------------------- requests and handler states

  /** A fenced answer names the question and version it is for. */
  datatype AnswerInput = AnswerInput(
    questionId: Option<QuestionId>, expectedVersion: Option<nat>, key: Key, payload: Payload, confidence: Option<nat>,
    now: int)

  datatype AdvanceInput = AdvanceInput(expectedVersion: Option<nat>, key: Option<Key>, now: int)

  datatype Reply = Snapshot(attempt: Attempt) | Refused(trouble: Trouble)

  datatype AnswerStage =
    | AnswerArrived
    | AnswerLoaded(read: Attempt)
    | AnswerCurrent(read: Attempt)
    | AnswerUntimed(read: Attempt)
    | AnswerReady(read: Attempt, answer: Answer)
    | AnswerRechecking
    | AnswerRereading
    | AnswerDone(reply: Reply)

  datatype AdvanceStage =
    | AdvanceArrived
    | AdvanceLoaded(read: Attempt)
    | AdvanceReady(read: Attempt, next: Attempt)
    | AdvanceRechecking
    | AdvanceRereading
    | AdvanceDone(reply: Reply)

  datatype ResumeStage = ResumeArrived | ResumeLoaded(read: Attempt) | ResumeDone(reply: Reply)

  datatype Task =
    | AnswerTask(answer: AnswerInput, answer_stage: AnswerStage)
    | AdvanceTask(advance: AdvanceInput, advance_stage: AdvanceStage)
    | ResumeTask(now: int, resume_stage: ResumeStage)

  /** How the question engine takes an answer. */
  datatype Grade = Unreadable | Graded(correct: Option<bool>)

  /** What one step draws from outside: is the token still good, is the follow-up closed, and the grade. */
  datatype Env = Env(authorized: bool, closed: bool, grade: Grade)

  predicate Available(f: Followup, env: Env, now: int) {
    !env.closed && now < f.closesAt && f.opensAt <= now
  }

  /** Every read of the attempt passes through authorisation and availability. */
  function Access(f: Followup, env: Env, now: int): Option<Trouble> {
    if !env.authorized then Some(Unauthorized) else if !Available(f, env, now) then Some(Unavailable) else None
  }

  function Reread(f: Followup, r: Record, env: Env, now: int): Reply {
    if Access(f, env, now).Some? then Refused(Access(f, env, now).value) else Snapshot(r.attempt)
  }

  // ---------------------------------------------------------------- answering

  predicate Fenced(input: AnswerInput) {
    input.questionId.Some? && input.expectedVersion.Some?
  }

  /** Whether a stored answer is the one this request asks for. */
  predicate AnswerReceiptMatches(answer: Answer, input: AnswerInput) {
    && Some(answer.checkpointId) == input.questionId && answer.submittedVersion == input.expectedVersion
    && answer.payload == input.payload && answer.confidence == input.confidence
  }

  function Acknowledge(answer: Answer, input: AnswerInput): AnswerStage {
    if AnswerReceiptMatches(answer, input) then AnswerRereading else AnswerDone(Refused(Conflict))
  }

  function AnswerAuthorized(f: Followup, input: AnswerInput, read: Attempt, env: Env): AnswerStage {
    if Access(f, env, input.now).Some? then AnswerDone(Refused(Access(f, env, input.now).value))
    else if (f.fullSequence && !Fenced(input)) || input.questionId.None? != input.expectedVersion.None?
    then AnswerDone(Refused(AnswerInvalid))
    else if Fenced(input) then AnswerLoaded(read) else AnswerCurrent(read)
  }

  predicate AsksFor(f: Followup, a: Attempt, input: AnswerInput) {
    a.phase.QuestionOpen? && a.index < |f.questions| && Some(f.questions[a.index].id) == input.questionId
  }

  function AnswerLookedUp(f: Followup, r: Record, input: AnswerInput, read: Attempt): AnswerStage {
    var duplicate := AnswerWithKey(r.answers, input.key);
    if duplicate.Some? then Acknowledge(duplicate.value, input)
    else if input.expectedVersion != Some(read.version) then AnswerDone(Refused(StaleVersion))
    else if !AsksFor(f, read, input) then AnswerDone(Refused(Conflict))
    else AnswerCurrent(read)
  }

  /** Reveals an overdue question first; the answer that came too late only sees the reveal. */
  function AnswerTimed(f: Followup, r: Record, input: AnswerInput, read: Attempt): (Record, AnswerStage) {
    if TimedOut(read, input.now) then
      var (after, reply) := AdvanceAttempt(f, r, Revealed(read), read.version, None);
      (after, if reply.NotSaved? then AnswerDone(Refused(StaleVersion))
              else if reply.BadSequence? then AnswerDone(Refused(Internal))
              else if read.index >= |f.questions| then AnswerDone(Refused(Conflict))
              else AnswerDone(Snapshot(Revealed(read))))
    else (r, if read.status.Completed? then AnswerDone(Refused(AlreadyComplete))
             else if read.index >= |f.questions| then AnswerDone(Refused(Conflict))
             else AnswerUntimed(read))
  }

  function AnswerRecord(q: Checkpoint, input: AnswerInput, read: Attempt, correct: Option<bool>): Answer {
    Answer(q.id, input.payload, if q.confidence.ConfidenceOff? then None else input.confidence, correct, input.key,
           if Fenced(input) then Some(read.version) else None, input.now)
  }

  function AnswerChecked(f: Followup, r: Record, input: AnswerInput, read: Attempt, grade: Grade): AnswerStage
    requires read.index < |f.questions|
  {
    var q := f.questions[read.index];
    var existing := AnswerTo(r.answers, q.id);
    if existing.Some? && existing.value.key == input.key then
      if Fenced(input) then Acknowledge(existing.value, input) else AnswerDone(Snapshot(read))
    else if existing.Some? || !read.phase.QuestionOpen? then AnswerDone(Refused(Conflict))
    else if q.confidence.ConfidenceRequired? && input.confidence.None? then AnswerDone(Refused(AnswerInvalid))
    else if Fenced(input) && q.confidence.ConfidenceOff? && input.confidence.Some?
    then AnswerDone(Refused(AnswerInvalid))
    else match grade
      case Unreadable => AnswerDone(Refused(AnswerInvalid))
      case Graded(correct) => AnswerReady(read, AnswerRecord(q, input, read, correct))
  }

  /** An unfenced answer is told of the reveal it proposed, without looking at what was stored. */
  function AnswerCommitted(
    f: Followup, r: Record, input: AnswerInput, read: Attempt, answer: Answer): (Record, AnswerStage)
  {
    var (after, reply) := CommitAnswer(f, r, Revealed(read), answer, read.version);
    (after, match reply
            case Stored(accepted) =>
              if Fenced(input) then Acknowledge(accepted, input) else AnswerDone(Snapshot(Revealed(read)))
            case VersionConflict => if Fenced(input) then AnswerRechecking else AnswerDone(Refused(StaleVersion))
            case _ => AnswerDone(Refused(Internal)))
  }

  function AnswerTick(f: Followup, r: Record, input: AnswerInput, stage: AnswerStage, env: Env): (Record, AnswerStage) {
    match stage
    case AnswerArrived => (r, AnswerAuthorized(f, input, r.attempt, env))
    case AnswerLoaded(read) => (r, AnswerLookedUp(f, r, input, read))
    case AnswerCurrent(read) => AnswerTimed(f, r, input, read)
    case AnswerUntimed(read) =>
      (r, if read.index < |f.questions| then AnswerChecked(f, r, input, read, env.grade) else stage)
    case AnswerReady(read, answer) => AnswerCommitted(f, r, input, read, answer)
    case AnswerRechecking =>
      var duplicate := AnswerWithKey(r.answers, input.key);
      (r, if duplicate.Some? then Acknowledge(duplicate.value, input) else AnswerDone(Refused(StaleVersion)))
    case AnswerRereading => (r, AnswerDone(Reread(f, r, env, input.now)))
    case AnswerDone(_) => (r, stage)
  }

  // ---------------------------------------------------------------- advancing and resuming

  predicate Keyed(input: AdvanceInput) {
    input.key.Some? && input.expectedVersion.Some?
  }

  /** `None` when the key is new to the attempt. */
  function AdvanceReceipt(a: Attempt, input: AdvanceInput): Option<bool> {
    if input.key.None? || input.key.value !in a.receipts then None
    else Some(Some(a.receipts[input.key.value]) == input.expectedVersion)
  }

  function AdvanceAuthorized(f: Followup, input: AdvanceInput, read: Attempt, env: Env): AdvanceStage {
    if Access(f, env, input.now).Some? then AdvanceDone(Refused(Access(f, env, input.now).value))
    else if (f.fullSequence && !Keyed(input)) || input.expectedVersion.None? != input.key.None?
    then AdvanceDone(Refused(AnswerInvalid))
    else if Keyed(input) && AdvanceReceipt(read, input) == Some(false) then AdvanceDone(Refused(Conflict))
    else if Keyed(input) && AdvanceReceipt(read, input) == Some(true) then AdvanceRereading
    else if Keyed(input) && input.expectedVersion != Some(read.version) then AdvanceDone(Refused(StaleVersion))
    else AdvanceLoaded(read)
  }

  function AdvanceTimed(f: Followup, r: Record, input: AdvanceInput, read: Attempt): (Record, AdvanceStage) {
    if TimedOut(read, input.now) then
      var (after, reply) := AdvanceAttempt(f, r, Revealed(read), read.version, None);
      (after, if reply.NotSaved? then AdvanceDone(Refused(StaleVersion))
              else if reply.BadSequence? then AdvanceDone(Refused(Internal))
              else AdvanceDone(Snapshot(Revealed(read))))
    else if read.status.Completed? then (r, AdvanceDone(Snapshot(read)))
    else match Continued(f, read, input.now)
      case Failure(trouble) => (r, AdvanceDone(Refused(trouble)))
      case Success(next) => (r, AdvanceReady(read, next))
  }

  function AdvanceCommitted(
    f: Followup, r: Record, input: AdvanceInput, read: Attempt, next: Attempt): (Record, AdvanceStage)
  {
    var (after, reply) := AdvanceAttempt(f, r, next, read.version, input.key);
    (after, if reply.Saved? then AdvanceRereading
            else if reply.BadSequence? then AdvanceDone(Refused(Internal))
            else if Keyed(input) then AdvanceRechecking else AdvanceDone(Refused(StaleVersion)))
  }

  function AdvanceRechecked(f: Followup, r: Record, input: AdvanceInput, env: Env): AdvanceStage {
    if !env.authorized then AdvanceDone(Refused(Unauthorized))
    else match AdvanceReceipt(r.attempt, input)
      case Some(true) => AdvanceDone(Reread(f, r, env, input.now))
      case Some(false) => AdvanceDone(Refused(Conflict))
      case None => AdvanceDone(Refused(StaleVersion))
  }

  function AdvanceTick(
    f: Followup, r: Record, input: AdvanceInput, stage: AdvanceStage, env: Env): (Record, AdvanceStage)
  {
    match stage
    case AdvanceArrived => (r, AdvanceAuthorized(f, input, r.attempt, env))
    case AdvanceLoaded(read) => AdvanceTimed(f, r, input, read)
    case AdvanceReady(read, next) => AdvanceCommitted(f, r, input, read, next)
    case AdvanceRechecking => (r, AdvanceRechecked(f, r, input, env))
    case AdvanceRereading => (r, AdvanceDone(Reread(f, r, env, input.now)))
    case AdvanceDone(_) => (r, stage)
  }

  function ResumeTick(f: Followup, r: Record, now: int, stage: ResumeStage, env: Env): (Record, ResumeStage) {
    match stage
    case ResumeArrived =>
      (r, if Access(f, env, now).Some? then ResumeDone(Refused(Access(f, env, now).value)) else ResumeLoaded(r.attempt))
    case ResumeLoaded(read) =>
      if TimedOut(read, now) then
        var (after, reply) := AdvanceAttempt(f, r, Revealed(read), read.version, None);
        (after, ResumeDone(if reply.NotSaved? then Refused(StaleVersion)
                           else if reply.BadSequence? then Refused(Internal) else Snapshot(Revealed(read))))
      else (r, ResumeDone(Snapshot(read)))
    case ResumeDone(_) => (r, stage)
  }

  function TaskTick(f: Followup, r: Record, task: Task, env: Env): (Record, Task) {
    match task
    case AnswerTask(input, stage) =>
      var (after, next) := AnswerTick(f, r, input, stage, env);
      (after, AnswerTask(input, next))
    case AdvanceTask(input, stage) =>
      var (after, next) := AdvanceTick(f, r, input, stage, env);
      (after, AdvanceTask(input, next))
    case ResumeTask(now, stage) =>
      var (after, next) := ResumeTick(f, r, now, stage, env);
      (after, ResumeTask(now, next))
  }

  // ---------------------------------------------------------------- the whole system

  /** How a question came to be revealed. */
  datatype Outcome = ByAnswer(answer: Answer) | ByTimeout(at: int)

  /**
   * `log`, `authors`, `clocks` and `outcomes` are history: the attempt at each version, the command that made
   * it, the time of the request that made it, and the reveals.
   */
  datatype System = System(
    record: Record, tasks: seq<Task>, log: seq<Attempt>, authors: seq<Option<Key>>, clocks: seq<int>,
    outcomes: seq<Outcome>)

  datatype Move =
    | NewAnswer(answer: AnswerInput)
    | NewAdvance(advance: AdvanceInput)
    | NewResume(now: int)
    | Tick(task: nat, env: Env)

  function NowOf(task: Task): int {
    match task
    case AnswerTask(input, _) => input.now
    case AdvanceTask(input, _) => input.now
    case ResumeTask(now, _) => now
  }

  /** The command a step commits for: an advance that is past its timeout check. */
  function AuthorOf(task: Task): Option<Key> {
    if task.AdvanceTask? && task.advance_stage.AdvanceReady? then task.advance.key else None
  }

  function Recorded(s: System, i: nat, after: Record, next: Task): System
    requires i < |s.tasks|
  {
    var moved := after.attempt.version != s.record.attempt.version;
    var revealed := moved && s.record.attempt.phase.QuestionOpen?;
    System(after, s.tasks[i := next],
           if moved then s.log + [after.attempt] else s.log,
           if moved then s.authors + [AuthorOf(s.tasks[i])] else s.authors,
           if moved then s.clocks + [NowOf(s.tasks[i])] else s.clocks,
           if !revealed then s.outcomes
           else if |after.answers| > |s.record.answers| then s.outcomes + [ByAnswer(after.answers[|after.answers| - 1])]
           else s.outcomes + [ByTimeout(NowOf(s.tasks[i]))])
  }

  function Next(f: Followup, s: System, move: Move): System {
    match move
    case NewAnswer(input) => s.(tasks := s.tasks + [AnswerTask(input, AnswerArrived)])
    case NewAdvance(input) => s.(tasks := s.tasks + [AdvanceTask(input, AdvanceArrived)])
    case NewResume(now) => s.(tasks := s.tasks + [ResumeTask(now, ResumeArrived)])
    case Tick(i, env) =>
      if i < |s.tasks| then
        var (after, next) := TaskTick(f, s.record, s.tasks[i], env);
        Recorded(s, i, after, next)
      else s
  }

  function Run(f: Followup, s: System, moves: seq<Move>): System
    decreases |moves|
  {
    if moves == [] then s else Run(f, Next(f, s, moves[0]), moves[1..])
  }

  function Opening(f: Followup, now: int, halves: nat): System
    requires f.questions != []
  {
    System(Record(Begin(f, now, halves), []), [], [Begin(f, now, halves)], [None], [now], [])
  }
}
