/**
 * Concurrent request handlers over one room. Every read and every commit of a handler is its own
 * step, so a handler may compute its transition from a session that has since moved on; any number
 * of handlers interleave in any order.
 */
module LiveProtocol {
  import opened Common
  import opened SessionModel
  import opened SessionRuns
  import opened ResponsePolicy
  import opened SessionStore

  // ---------------------------------------------------------------- requests and handler states

  datatype Command = Command(id: Uuid, expectedRevision: nat, action: Action)

  datatype Submission = Submission(
    participantId: Uuid, blockId: Id, expectedRevision: nat, key: Uuid, answer: Answer, receivedAt: int)

  datatype CommandReply =
    | Snapshot(session: Session) | Stale(expected: nat, current: nat) | CommandConflict
    | Refused(refusal: Refusal) | InternalError

  datatype CommandStage =
    | CommandArrived
    | CommandLoaded(read: Session)
    | CommandChecked(read: Session)
    | CommandReady(read: Session, lib: Library, t: Transition)
    | CommandRechecking(otherwise: CommandReply)
    | CommandReplaying
    | CommandDone(reply: CommandReply)

  datatype AdvanceStage =
    | AdvanceArrived
    | AdvanceReady(read: Session, t: Transition)
    | AdvanceDone(reply: CommandReply)

  datatype SubmitReply =
    | Ack(responseId: Uuid, score: int, duplicate: bool)
    | Unauthorized | SubmitConflict | StaleQuestion | InvalidAnswer(why: Invalidity) | AlreadyAnswered
    | QuestionClosed | BrokenReceipt

  datatype SubmitStage =
    | SubmitArrived
    | SubmitLoaded(read: Session, prior: Option<Response>)
    | SubmitLooking(otherwise: SubmitReply)
    | SubmitReplaying(receipt: Response)
    | SubmitReady(read: Session, response: Response)
    | SubmitClosing
    | SubmitDone(reply: SubmitReply)

  /** `arrivedAt` records the room's revision when the submission reached the server. */
  datatype Task =
    | CommandTask(command: Command, command_stage: CommandStage)
    | AdvanceTask(expectedRevision: nat, advance_stage: AdvanceStage)
    | SubmitTask(submission: Submission, arrivedAt: nat, submit_stage: SubmitStage)

  /** What one step draws from outside: the library, the clock, the source check and a fresh id. */
  datatype Env = Env(lib: Library, now: int, sourceAvailable: bool, freshId: Uuid)

  function HashOf(c: Command): RequestHash {
    RequestHash(c.expectedRevision, c.action)
  }

  // ---------------------------------------------------------------- one step of a command

  predicate ReceiptIsFor(r: Receipt, c: Command) {
    r.expectedRevision == c.expectedRevision
    && if r.requestHash.Some? then r.requestHash.value == HashOf(c) else c.action.Advance?
  }

  /** A known receipt either matches, and the current session is fetched, or the id was used for something else. */
  function Replay(room: Room, c: Command): CommandStage
    requires c.id in room.receipts
  {
    if ReceiptIsFor(room.receipts[c.id], c) then CommandReplaying else CommandDone(CommandConflict)
  }

  ghost function Prepared(c: Command, read: Session, lib: Library): CommandStage {
    if c.expectedRevision != read.revision then CommandDone(Stale(c.expectedRevision, read.revision))
    else match Compute(read, c.action, c.id, lib)
      case Failure(refusal) =>
        if refusal.NotFound? && c.action.InsertPublished? then CommandRechecking(Refused(NotFound))
        else CommandDone(Refused(refusal))
      case Success(None) => CommandDone(Snapshot(read))
      case Success(Some(t)) => CommandReady(read, lib, t)
  }

  function AfterCommit(reply: TransitionReply): CommandStage {
    match reply
    case Updated(s) => CommandDone(Snapshot(s))
    case Replayed(s) => CommandDone(Snapshot(s))
    case ReceiptConflict => CommandDone(CommandConflict)
    case RevisionConflict(expected, current) => CommandDone(Stale(expected, current))
    case SourceUnavailable => CommandRechecking(Refused(NotFound))
    case Rejected => CommandDone(InternalError)
  }

  ghost function CommandTick(room: Room, c: Command, stage: CommandStage, env: Env): (Room, CommandStage) {
    match stage
    case CommandArrived => (room, CommandLoaded(room.session))
    case CommandLoaded(read) =>
      (room, if c.id in room.receipts then Replay(room, c) else CommandChecked(read))
    case CommandChecked(read) => (room, Prepared(c, read, env.lib))
    case CommandReady(_, _, t) =>
      var (after, reply) :=
        TransitionSessionCommand(room, c.id, HashOf(c), c.expectedRevision, t, env.now, env.sourceAvailable);
      (after, AfterCommit(reply))
    case CommandRechecking(otherwise) =>
      (room, if c.id in room.receipts then Replay(room, c) else CommandDone(otherwise))
    case CommandReplaying => (room, CommandDone(Snapshot(room.session)))
    case CommandDone(_) => (room, stage)
  }

  // ---------------------------------------------------------------- one step of a host's advance

  function AdvancePrepared(expectedRevision: nat, read: Session, now: int): AdvanceStage {
    if read.liveExpiresAt <= now then AdvanceDone(Refused(PhaseClosed))
    else if expectedRevision != read.revision then AdvanceDone(Stale(expectedRevision, read.revision))
    else match NextTransition(read)
      case Failure(_) => AdvanceDone(InternalError)
      case Success(None) => AdvanceDone(Snapshot(read))
      case Success(Some(t)) => AdvanceReady(read, t)
  }

  function AdvanceTick(room: Room, expectedRevision: nat, stage: AdvanceStage, env: Env): (Room, AdvanceStage) {
    match stage
    case AdvanceArrived => (room, AdvancePrepared(expectedRevision, room.session, env.now))
    case AdvanceReady(_, t) =>
      var (after, reply) := TransitionSession(room, expectedRevision, t, env.now);
      (after, match reply
              case Updated(s) => AdvanceDone(Snapshot(s))
              case RevisionConflict(expected, current) => AdvanceDone(Stale(expected, current))
              case _ => AdvanceDone(InternalError))
    case AdvanceDone(_) => (room, stage)
  }

  // ---------------------------------------------------------------- one step of a submission

  function FindBlock(blocks: seq<Block>, id: Id): (found: Option<Block>)
    ensures found.Some? ==> found.value in blocks && found.value.id == id
    ensures found.None? ==> forall b | b in blocks :: b.id != id
  {
    if blocks == [] then None
    else if blocks[0].id == id then Some(blocks[0])
    else FindBlock(blocks[1..], id)
  }

  function SubmissionHash(sub: Submission): Fingerprint {
    FingerprintOf(sub.blockId, sub.expectedRevision, sub.answer)
  }

  /** The answer as it will be stored, timed and scored against the session the handler read. */
  function RecordOf(sub: Submission, q: Question, read: Session, id: Uuid): Response {
    var correct := Correct(q, sub.answer);
    var timing := TimingOf(read, sub.receivedAt);
    Response(id, sub.participantId, sub.blockId, q.id, sub.answer, correct, Score(q, correct, timing.remaining),
             timing.responseMs, sub.receivedAt, Some(sub.key), Some(SubmissionHash(sub)))
  }

  function Acknowledge(sub: Submission, receipt: Response): SubmitStage {
    if receipt.requestHash.Some? && receipt.requestHash.value != SubmissionHash(sub)
    then SubmitDone(SubmitConflict) else SubmitReplaying(receipt)
  }

  function SubmitPrepared(sub: Submission, read: Session, prior: Option<Response>, freshId: Uuid): SubmitStage {
    if prior.Some? then Acknowledge(sub, prior.value)
    else match FindBlock(read.content.blocks, sub.blockId)
      case Some(QuestionBlock(_, q, _)) =>
        if Validate(q, sub.answer).Some? then SubmitLooking(InvalidAnswer(Validate(q, sub.answer).value))
        else SubmitReady(read, RecordOf(sub, q, read, freshId))
      case _ => SubmitLooking(StaleQuestion)
  }

  function SubmitTick(room: Room, sub: Submission, stage: SubmitStage, env: Env): (Room, SubmitStage) {
    match stage
    case SubmitArrived =>
      if !Joined(room.participants, sub.participantId) then (room, SubmitDone(Unauthorized))
      else (room.(participants := Touch(room.participants, sub.participantId, env.now)),
            if room.session.liveExpiresAt <= sub.receivedAt then SubmitDone(Unauthorized)
            else SubmitLoaded(room.session, FindByKey(room.responses, sub.participantId, sub.key)))
    case SubmitLoaded(read, prior) => (room, SubmitPrepared(sub, read, prior, env.freshId))
    case SubmitLooking(otherwise) =>
      (room, match FindByKey(room.responses, sub.participantId, sub.key)
             case Some(receipt) => Acknowledge(sub, receipt)
             case None => SubmitDone(otherwise))
    case SubmitReplaying(receipt) =>
      var (after, acceptance) := AcceptResponse(room, receipt, sub.expectedRevision);
      (after,
       SubmitDone(if acceptance.Duplicate? then Ack(acceptance.response.id, acceptance.response.score, true)
                  else BrokenReceipt))
    case SubmitReady(_, r) =>
      var (after, acceptance) := AcceptResponse(room, r, sub.expectedRevision);
      (after, match acceptance
              case Accepted(stored) => SubmitDone(Ack(stored.id, stored.score, false))
              case Duplicate(stored) => SubmitDone(Ack(stored.id, stored.score, true))
              case KeyConflict(_) => SubmitDone(SubmitConflict)
              case AlreadyResponded(_) => SubmitDone(AlreadyAnswered)
              case Closed => SubmitClosing)
    case SubmitClosing =>
      (room, SubmitDone(if room.session.revision != sub.expectedRevision
                           || CurrentBlock(room.session).None? || CurrentBlock(room.session).value.id != sub.blockId
                        then StaleQuestion else QuestionClosed))
    case SubmitDone(_) => (room, stage)
  }

  ghost function TaskTick(room: Room, task: Task, env: Env): (Room, Task) {
    match task
    case CommandTask(c, stage) => var (after, next) := CommandTick(room, c, stage, env); (after, CommandTask(c, next))
    case AdvanceTask(rev, stage) =>
      var (after, next) := AdvanceTick(room, rev, stage, env);
      (after, AdvanceTask(rev, next))
    case SubmitTask(sub, arrivedAt, stage) =>
      var (after, next) := SubmitTick(room, sub, stage, env); (after, SubmitTask(sub, arrivedAt, next))
  }

  // ---------------------------------------------------------------- the whole system

  /**
   * The revision a response was committed at, the one its handler had read the session at, and the one
   * its submission had reached the server at.
   */
  datatype Admission = Admission(revision: nat, readAt: nat, arrivedAt: nat)

  /**
   * The room and the handlers in flight. `log`, `clocks`, `authors` and `admissions` are history: every
   * session the room has had, the clock of the step that committed it (nothing for the first), the
   * command that did, and when each stored response was admitted.
   */
  datatype Protocol = Protocol(
    room: Room, tasks: seq<Task>, log: seq<Session>, clocks: seq<int>, authors: seq<Option<Uuid>>,
    admissions: seq<Admission>)

  datatype Move =
    | NewCommand(command: Command)
    | NewAdvance(expectedRevision: nat)
    | NewSubmission(submission: Submission)
    | Join(participant: Participant, limit: nat)
    | Tick(task: nat, env: Env)

  function AuthorOf(task: Task): Option<Uuid> {
    if task.CommandTask? then Some(task.command.id) else None
  }

  function ArrivalOf(task: Task): nat {
    if task.SubmitTask? then task.arrivedAt else 0
  }

  function ReadAt(task: Task): nat {
    if task.SubmitTask? && task.submit_stage.SubmitReady? then task.submit_stage.read.revision else 0
  }

  function Recorded(p: Protocol, i: nat, after: Room, next: Task, now: int): Protocol
    requires i < |p.tasks|
  {
    var committed := after.session.revision != p.room.session.revision;
    var admitted := |after.responses| != |p.room.responses|;
    Protocol(after, p.tasks[i := next],
             if committed then p.log + [after.session] else p.log,
             if committed then p.clocks + [now] else p.clocks,
             if committed then p.authors + [AuthorOf(p.tasks[i])] else p.authors,
             if admitted
             then p.admissions + [Admission(p.room.session.revision, ReadAt(p.tasks[i]), ArrivalOf(p.tasks[i]))]
             else p.admissions)
  }

  ghost function Next(p: Protocol, move: Move): Protocol {
    match move
    case NewCommand(c) => p.(tasks := p.tasks + [CommandTask(c, CommandArrived)])
    case NewAdvance(rev) => p.(tasks := p.tasks + [AdvanceTask(rev, AdvanceArrived)])
    case NewSubmission(sub) => p.(tasks := p.tasks + [SubmitTask(sub, p.room.session.revision, SubmitArrived)])
    case Join(participant, limit) => p.(room := JoinRoom(p.room, participant, limit))
    case Tick(i, env) =>
      if i < |p.tasks| then
        var (after, next) := TaskTick(p.room, p.tasks[i], env);
        Recorded(p, i, after, next, env.now)
      else p
  }

  ghost function Run(p: Protocol, moves: seq<Move>): Protocol
    decreases |moves|
  {
    if moves == [] then p else Run(Next(p, moves[0]), moves[1..])
  }

  function Opening(s: Session): Protocol {
    Protocol(Room(s, 0, [], map[], [], []), [], [s], [0], [None], [])
  }
}
