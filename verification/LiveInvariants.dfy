/**
 * What holds in every state the concurrent handlers can reach, whatever the interleaving: commits
 * are legal steps, commands commit once, and responses belong to the question they were given for.
 */
module LiveInvariants {
  import opened Common
  import opened SessionModel
  import opened SessionRuns
  import opened SessionSteps
  import opened ResponsePolicy
  import opened SessionStore
  import opened LiveProtocol

  // ---------------------------------------------------------------- the log of sessions

  ghost predicate IsStep(before: Session, step: Step, after: Session) {
    var r := Compute(before, step.action, step.commandId, step.lib);
    r.Success? && r.value.Some? && after == Commit(before, r.value.value, step.now)
  }

  /** `after` is what the pure machine makes of `before` in one step. */
  ghost predicate LegalStep(before: Session, after: Session) {
    exists step: Step :: IsStep(before, step, after)
  }

  predicate LogTip(p: Protocol) {
    && |p.log| == p.room.session.revision + 1
    && p.log[p.room.session.revision] == p.room.session
    && (forall k | 0 <= k < |p.log| :: p.log[k].revision == k)
  }

  ghost predicate LogLegal(log: seq<Session>) {
    forall k | 0 < k < |log| :: LegalStep(log[k - 1], log[k])
  }

  // ---------------------------------------------------------------- handlers in flight

  /** What a handler read was the room's session at the revision it carries. */
  predicate ReadOk(log: seq<Session>, read: Session) {
    read.revision < |log| && log[read.revision] == read
  }

  /** `r` is `sub` scored against the block it names in `read`. */
  predicate SubmissionRecord(sub: Submission, read: Session, r: Response) {
    var block := FindBlock(read.content.blocks, sub.blockId);
    && block.Some? && block.value.QuestionBlock? && r == RecordOf(sub, block.value.question, read, r.id)
    && Validate(block.value.question, sub.answer).None?
  }

  /** `r` is stored, under the submission's own key. */
  predicate StoredFor(responses: seq<Response>, sub: Submission, r: Response) {
    r in responses && HasKey(r, sub.participantId, sub.key)
  }

  ghost predicate TaskOk(log: seq<Session>, responses: seq<Response>, task: Task) {
    match task
    case CommandTask(c, CommandLoaded(read)) => ReadOk(log, read)
    case CommandTask(c, CommandChecked(read)) => ReadOk(log, read)
    case CommandTask(c, CommandReady(read, lib, t)) =>
      ReadOk(log, read) && read.revision == c.expectedRevision && Compute(read, c.action, c.id, lib) == Success(Some(t))
    case AdvanceTask(rev, AdvanceReady(read, t)) =>
      ReadOk(log, read) && read.revision == rev && NextTransition(read) == Success(Some(t))
    case SubmitTask(sub, arrivedAt, SubmitArrived) => arrivedAt < |log|
    case SubmitTask(sub, arrivedAt, SubmitLoaded(read, prior)) =>
      ReadOk(log, read) && arrivedAt <= read.revision && (prior.Some? ==> StoredFor(responses, sub, prior.value))
    case SubmitTask(sub, arrivedAt, SubmitReplaying(receipt)) => StoredFor(responses, sub, receipt)
    case SubmitTask(sub, arrivedAt, SubmitReady(read, r)) =>
      ReadOk(log, read) && arrivedAt <= read.revision && SubmissionRecord(sub, read, r)
    case _ => true
  }

  ghost predicate TasksOk(p: Protocol) {
    forall i | 0 <= i < |p.tasks| :: TaskOk(p.log, p.room.responses, p.tasks[i])
  }

  /** The step a handler is about to commit, as a step of the pure machine. */
  function CommittedStep(task: Task, env: Env): Step {
    match task
    case CommandTask(c, CommandReady(_, lib, _)) => Step(c.action, c.id, lib, env.now)
    case _ => Step(Advance, 0, env.lib, env.now)
  }

  /** How a committing tick changes the room: one legal step, one event, and the command's receipt. */
  ghost predicate CommitsTo(room: Room, task: Task, env: Env, after: Room) {
    var step := CommittedStep(task, env);
    && IsStep(room.session, step, after.session)
    && Take(Stage(room.session, room.timeline), step) == Stage(after.session, after.timeline)
    && after.session.revision == room.session.revision + 1
    && after.responses == room.responses && after.participants == room.participants
    && after.eventSeq == room.eventSeq + 1
    && (if task.CommandTask? then
          && task.command.id !in room.receipts && task.command.expectedRevision == room.session.revision
          && step.action == task.command.action && step.commandId == task.command.id
          && after.receipts == room.receipts[task.command.id :=
               Receipt(Some(HashOf(task.command)), task.command.expectedRevision, after.session.revision)]
        else after.receipts == room.receipts)
  }

  /** How an admitting tick changes the room: one response more, while its question was open. */
  ghost predicate AdmitsTo(room: Room, task: Task, after: Room) {
    && task.SubmitTask? && task.submit_stage.SubmitReady?
    && var r := task.submit_stage.response;
       && after == room.(eventSeq := room.eventSeq + 1, responses := room.responses + [r])
       && WindowOpen(room.session, r, task.submission.expectedRevision)
       && Joined(room.participants, r.participantId)
       && FindByBlock(room.responses, r.participantId, r.blockId).None?
       && (r.key.Some? ==> FindByKey(room.responses, r.participantId, r.key.value).None?)
  }

  lemma CommandEffect(p: Protocol, task: Task, env: Env)
    requires LogTip(p) && TaskOk(p.log, p.room.responses, task) && task.CommandTask?
    ensures var after := TaskTick(p.room, task, env).0;
            after == p.room || CommitsTo(p.room, task, env, after)
  {
  }

  lemma AdvanceEffect(p: Protocol, task: Task, env: Env)
    requires LogTip(p) && TaskOk(p.log, p.room.responses, task) && task.AdvanceTask?
    ensures var after := TaskTick(p.room, task, env).0;
            after == p.room || CommitsTo(p.room, task, env, after)
  {
  }

  lemma TouchIsPresenceOnly(room: Room, id: Uuid, now: int)
    ensures SameUpToPresence(room, room.(participants := Touch(room.participants, id, now)))
  {
  }

  lemma SubmitEffect(p: Protocol, task: Task, env: Env)
    requires LogTip(p) && TaskOk(p.log, p.room.responses, task) && task.SubmitTask?
    ensures var after := TaskTick(p.room, task, env).0;
            SameUpToPresence(p.room, after) || AdmitsTo(p.room, task, after)
  {
    TouchIsPresenceOnly(p.room, task.submission.participantId, env.now);
  }

  /** A tick does one of three things to the room: nothing but presence, one commit, or one admission. */
  lemma TickEffect(p: Protocol, task: Task, env: Env)
    requires LogTip(p) && TaskOk(p.log, p.room.responses, task)
    ensures var after := TaskTick(p.room, task, env).0;
            SameUpToPresence(p.room, after) || CommitsTo(p.room, task, env, after) || AdmitsTo(p.room, task, after)
  {
    match task
    case CommandTask(_, _) => CommandEffect(p, task, env);
    case AdvanceTask(_, _) => AdvanceEffect(p, task, env);
    case SubmitTask(_, _, _) => SubmitEffect(p, task, env);
  }

  // ---------------------------------------------------------------- log and handlers are kept

  lemma LegalLogGrows(log: seq<Session>, before: Session, step: Step, after: Session)
    requires LogLegal(log) && log != [] && log[|log| - 1] == before && IsStep(before, step, after)
    ensures LogLegal(log + [after])
  {
    hide IsStep;
    assert LegalStep(before, after);
  }

  lemma NextKeepsLog(p: Protocol, move: Move)
    requires LogTip(p) && LogLegal(p.log) && TasksOk(p)
    ensures LogTip(Next(p, move)) && LogLegal(Next(p, move).log)
  {
    hide Compute, ContentOk, TaskOk, TaskTick, IsStep, Take, LogLegal, WindowOpen, FindByKey, FindByBlock, Joined;
    if move.Tick? && move.task < |p.tasks| {
      var task := p.tasks[move.task];
      TickEffect(p, task, move.env);
      var after := TaskTick(p.room, task, move.env).0;
      if CommitsTo(p.room, task, move.env, after) {
        LegalLogGrows(p.log, p.room.session, CommittedStep(task, move.env), after.session);
      }
    }
  }

  lemma CommandTickOk(p: Protocol, task: Task, env: Env)
    requires LogTip(p) && TaskOk(p.log, p.room.responses, task) && task.CommandTask?
    ensures TaskOk(p.log, TaskTick(p.room, task, env).0.responses, TaskTick(p.room, task, env).1)
  {
    hide Compute, ContentOk;
  }

  lemma AdvanceTickOk(p: Protocol, task: Task, env: Env)
    requires LogTip(p) && TaskOk(p.log, p.room.responses, task) && task.AdvanceTask?
    ensures TaskOk(p.log, TaskTick(p.room, task, env).0.responses, TaskTick(p.room, task, env).1)
  {
    hide Compute, ContentOk;
  }

  lemma SubmitTickOk(p: Protocol, task: Task, env: Env)
    requires LogTip(p) && TaskOk(p.log, p.room.responses, task) && task.SubmitTask?
    ensures TaskOk(p.log, TaskTick(p.room, task, env).0.responses, TaskTick(p.room, task, env).1)
  {
    hide Compute, ContentOk, Joined, Validate, Correct, TimingOf, Score, SubmissionHash, WindowOpen, FindByBlock;
  }

  lemma TaskOkGrows(log: seq<Session>, more: seq<Session>, responses: seq<Response>, extra: seq<Response>, task: Task)
    requires TaskOk(log, responses, task)
    ensures TaskOk(log + more, responses + extra, task)
  {
  }

  lemma NextKeepsTasks(p: Protocol, move: Move)
    requires LogTip(p) && TasksOk(p)
    ensures TasksOk(Next(p, move))
  {
    hide Compute, TaskTick, IsStep, Take, SubmissionRecord;
    if move.Tick? && move.task < |p.tasks| {
      var task := p.tasks[move.task];
      match task {
        case CommandTask(_, _) => CommandTickOk(p, task, move.env);
        case AdvanceTask(_, _) => AdvanceTickOk(p, task, move.env);
        case SubmitTask(_, _, _) => SubmitTickOk(p, task, move.env);
      }
      TickEffect(p, task, move.env);
      var (after, next) := TaskTick(p.room, task, move.env);
      var q := Recorded(p, move.task, after, next, move.env.now);
      var more := if after.session.revision != p.room.session.revision then [after.session] else [];
      var extra := after.responses[|p.room.responses|..];
      assert q.log == p.log + more && after.responses == p.room.responses + extra;
      assert after.responses == after.responses + [];
      forall i | 0 <= i < |q.tasks| ensures TaskOk(q.log, after.responses, q.tasks[i]) {
        if i == move.task {
          TaskOkGrows(p.log, more, after.responses, [], next);
        } else {
          TaskOkGrows(p.log, more, p.room.responses, extra, p.tasks[i]);
        }
      }
    }
  }

  // ---------------------------------------------------------------- the room's own history

  function StageOf(room: Room): Stage {
    Stage(room.session, room.timeline)
  }

  ghost predicate StageOk(room: Room, originals: seq<Block>) {
    RunInvariant(StageOf(room), originals) && ContentOk(room.session.content)
  }

  lemma NextKeepsStage(p: Protocol, move: Move, originals: seq<Block>)
    requires LogTip(p) && TasksOk(p) && StageOk(p.room, originals)
    ensures StageOk(Next(p, move).room, originals)
  {
    hide Compute, ContentOk, RunInvariant, TaskOk, IsStep, TaskTick;
    if move.Tick? && move.task < |p.tasks| {
      var task := p.tasks[move.task];
      var after := TaskTick(p.room, task, move.env).0;
      TickEffect(p, task, move.env);
      if CommitsTo(p.room, task, move.env, after) {
        var step := CommittedStep(task, move.env);
        TakeKeepsInvariant(StageOf(p.room), step, originals);
        TakeKeepsContent(StageOf(p.room), step);
      }
    }
  }

  // ---------------------------------------------------------------- command receipts

  /** The revision a receipt names was committed by its own command, as that command's action. */
  ghost predicate ReceiptOk(p: Protocol, id: Uuid, r: Receipt)
    requires |p.authors| == |p.log|
  {
    && 0 < r.resultingRevision < |p.log| && r.resultingRevision == r.expectedRevision + 1
    && r.requestHash.Some? && r.requestHash.value.expectedRevision == r.expectedRevision
    && p.authors[r.resultingRevision] == Some(id)
    && CommitsAction(p.log[r.expectedRevision], r.requestHash.value.action, id, p.log[r.resultingRevision])
  }

  ghost predicate CommitsAction(before: Session, action: Action, id: Uuid, after: Session) {
    exists step: Step :: step.action == action && step.commandId == id && IsStep(before, step, after)
  }

  ghost predicate ReceiptsOk(p: Protocol) {
    && |p.authors| == |p.log|
    && (forall id | id in p.room.receipts :: ReceiptOk(p, id, p.room.receipts[id]))
    && (forall k | 0 <= k < |p.authors| && p.authors[k].Some? ::
          p.authors[k].value in p.room.receipts && p.room.receipts[p.authors[k].value].resultingRevision == k)
  }

  lemma ReceiptOkGrows(p: Protocol, q: Protocol, id: Uuid, r: Receipt)
    requires |p.authors| == |p.log| && |q.authors| == |q.log| && p.log <= q.log && p.authors <= q.authors
    requires ReceiptOk(p, id, r)
    ensures ReceiptOk(q, id, r)
  {
    hide CommitsAction;
  }

  lemma CommitKeepsReceipts(p: Protocol, i: nat, env: Env, q: Protocol)
    requires LogTip(p) && ReceiptsOk(p) && i < |p.tasks|
    requires CommitsTo(p.room, p.tasks[i], env, q.room)
    requires q.log == p.log + [q.room.session] && q.authors == p.authors + [AuthorOf(p.tasks[i])]
    ensures ReceiptsOk(q)
  {
    hide IsStep, Take, ReceiptOk;
    var task := p.tasks[i];
    forall id | id in q.room.receipts ensures ReceiptOk(q, id, q.room.receipts[id]) {
      if id in p.room.receipts {
        ReceiptOkGrows(p, q, id, p.room.receipts[id]);
      } else {
        NewReceiptOk(p, task, env, q);
      }
    }
    forall id | id in p.room.receipts ensures p.room.receipts[id].resultingRevision < |p.log| {
      ReceiptIsOld(p, id);
    }
  }

  lemma ReceiptIsOld(p: Protocol, id: Uuid)
    requires ReceiptsOk(p) && id in p.room.receipts
    ensures p.room.receipts[id].resultingRevision < |p.log|
  {
    assert ReceiptOk(p, id, p.room.receipts[id]);
  }

  lemma NewReceiptOk(p: Protocol, task: Task, env: Env, q: Protocol)
    requires LogTip(p) && |p.authors| == |p.log| && task.CommandTask?
    requires CommitsTo(p.room, task, env, q.room)
    requires q.log == p.log + [q.room.session] && q.authors == p.authors + [AuthorOf(task)]
    ensures ReceiptOk(q, task.command.id, q.room.receipts[task.command.id])
  {
    hide IsStep, Take;
    var step := CommittedStep(task, env);
    assert CommitsAction(p.room.session, task.command.action, task.command.id, q.room.session);
  }

  lemma NextKeepsReceipts(p: Protocol, move: Move)
    requires LogTip(p) && TasksOk(p) && ReceiptsOk(p)
    ensures ReceiptsOk(Next(p, move))
  {
    hide Compute, ContentOk, TaskOk, TaskTick, ReceiptOk;
    var q := Next(p, move);
    if move.Tick? && move.task < |p.tasks| {
      var task := p.tasks[move.task];
      TickEffect(p, task, move.env);
      if CommitsTo(p.room, task, move.env, q.room) {
        CommitKeepsReceipts(p, move.task, move.env, q);
      } else {
        SameReceiptsOk(p, q);
      }
    } else {
      SameReceiptsOk(p, q);
    }
  }

  lemma SameReceiptsOk(p: Protocol, q: Protocol)
    requires ReceiptsOk(p) && q.log == p.log && q.authors == p.authors && q.room.receipts == p.room.receipts
    ensures ReceiptsOk(q)
  {
    hide ReceiptOk;
    forall id | id in q.room.receipts ensures ReceiptOk(q, id, q.room.receipts[id]) {
      ReceiptOkGrows(p, q, id, q.room.receipts[id]);
    }
  }

  // ---------------------------------------------------------------- responses and participants

  /** Correctness, time and score of `r` come from the question open in `s`, and from its opening time. */
  predicate TimedAgainst(s: Session, r: Response) {
    && CurrentBlock(s).Some? && CurrentBlock(s).value.QuestionBlock?
    && var q := CurrentBlock(s).value.question;
       && r.correct == Correct(q, r.answer)
       && r.responseMs == TimingOf(s, r.submittedAt).responseMs
       && r.score == Score(q, r.correct, TimingOf(s, r.submittedAt).remaining)
  }

  /** `r` was validated, graded, timed and scored against its own block as it was in `s`. */
  predicate ScoredFrom(s: Session, r: Response) {
    var block := FindBlock(s.content.blocks, r.blockId);
    && block.Some? && block.value.QuestionBlock?
    && var q := block.value.question;
       && r.questionId == q.id && Validate(q, r.answer).None? && r.correct == Correct(q, r.answer)
       && r.responseMs == TimingOf(s, r.submittedAt).responseMs
       && r.score == Score(q, r.correct, TimingOf(s, r.submittedAt).remaining)
  }

  /** `r` was admitted while its own question was open, and scored from the session its handler had read. */
  ghost predicate AdmissionOk(log: seq<Session>, r: Response, adm: Admission) {
    && adm.arrivedAt <= adm.readAt <= adm.revision < |log|
    && WindowOpen(log[adm.revision], r, adm.revision)
    && ScoredFrom(log[adm.readAt], r)
    && r.key.Some? && r.requestHash == Some(FingerprintOf(r.blockId, adm.revision, r.answer))
  }

  ghost predicate AdmissionsOk(p: Protocol) {
    && |p.admissions| == |p.room.responses|
    && (forall k | 0 <= k < |p.admissions| :: AdmissionOk(p.log, p.room.responses[k], p.admissions[k]))
  }

  ghost predicate LogGrows(p: Protocol) {
    forall k, b | 0 <= k < |p.log| && b in p.log[k].content.blocks :: b in p.room.session.content.blocks
  }

  lemma JoinedStays(a: seq<Participant>, b: seq<Participant>, id: Uuid)
    requires |a| <= |b| && (forall i | 0 <= i < |a| :: a[i].id == b[i].id) && Joined(a, id)
    ensures Joined(b, id)
  {
    var i :| 0 <= i < |a| && a[i].id == id;
    assert b[i].id == id;
  }

  lemma PresenceKeepsRoom(a: Room, b: Room)
    requires SameUpToPresence(a, b) && RoomOk(a)
    ensures RoomOk(b)
  {
    hide ResponseFits;
    assert forall i | 0 <= i < |a.participants| :: a.participants[i].id == b.participants[i].id;
    forall k | 0 <= k < |b.responses| ensures Joined(b.participants, b.responses[k].participantId) {
      JoinedStays(a.participants, b.participants, b.responses[k].participantId);
    }
  }

  lemma JoinKeepsRoom(room: Room, participant: Participant, limit: nat)
    requires RoomOk(room)
    ensures RoomOk(JoinRoom(room, participant, limit))
  {
    hide ResponseFits;
    var after := JoinRoom(room, participant, limit);
    forall k | 0 <= k < |room.responses| ensures Joined(after.participants, room.responses[k].participantId) {
      JoinedStays(room.participants, after.participants, room.responses[k].participantId);
    }
  }

  lemma FitStays(a: seq<Block>, b: seq<Block>, r: Response)
    requires (forall x | x in a :: x in b) && ResponseFits(a, r)
    ensures ResponseFits(b, r)
  {
    var i :| 0 <= i < |a| && FitsBlock(a[i], r);
    assert a[i] in b;
  }

  lemma CommitKeepsRoom(room: Room, task: Task, env: Env, after: Room)
    requires WellPlaced(room.session) && CommitsTo(room, task, env, after) && RoomOk(room)
    ensures RoomOk(after) && (forall b | b in room.session.content.blocks :: b in after.session.content.blocks)
  {
    hide ResponseFits, IsStep, Take, WellPlaced;
    forall b | b in room.session.content.blocks ensures b in after.session.content.blocks {
      TakeKeepsBlocks(StageOf(room), CommittedStep(task, env), b);
    }
    forall k | 0 <= k < |room.responses| ensures ResponseFits(after.session.content.blocks, room.responses[k]) {
      FitStays(room.session.content.blocks, after.session.content.blocks, room.responses[k]);
    }
  }

  lemma RecordFits(blocks: seq<Block>, sub: Submission, read: Session, r: Response)
    requires SubmissionRecord(sub, read, r) && (forall b | b in read.content.blocks :: b in blocks)
    ensures ResponseFits(blocks, r)
  {
    var block := FindBlock(read.content.blocks, sub.blockId).value;
    ScoreIsNeverNegative(read, block.question, r.correct, sub.receivedAt);
    assert block in blocks && FitsBlock(block, r);
  }

  lemma AppendKeepsResponses(responses: seq<Response>, r: Response)
    requires OneAnswerEach(responses) && KeysUnique(responses)
    requires FindByBlock(responses, r.participantId, r.blockId).None?
    requires r.key.Some? ==> FindByKey(responses, r.participantId, r.key.value).None?
    ensures OneAnswerEach(responses + [r]) && KeysUnique(responses + [r])
  {
  }

  lemma AdmitKeepsRoom(p: Protocol, task: Task, after: Room)
    requires LogTip(p) && TaskOk(p.log, p.room.responses, task) && LogGrows(p) && RoomOk(p.room)
    requires AdmitsTo(p.room, task, after)
    ensures RoomOk(after)
  {
    hide SubmissionRecord, ResponseFits, Compute;
    var r := task.submit_stage.response;
    AppendKeepsResponses(p.room.responses, r);
    assert p.log[task.submit_stage.read.revision] == task.submit_stage.read;
    RecordFits(p.room.session.content.blocks, task.submission, task.submit_stage.read, r);
  }

  lemma AdmissionIsOk(p: Protocol, task: Task, after: Room)
    requires LogTip(p) && TaskOk(p.log, p.room.responses, task) && AdmitsTo(p.room, task, after)
    ensures AdmissionOk(p.log, task.submit_stage.response,
                        Admission(p.room.session.revision, ReadAt(task), ArrivalOf(task)))
  {
    hide Compute;
  }

  /** Everything about the room and its history that every step keeps. */
  ghost predicate Inv(p: Protocol, originals: seq<Block>) {
    && LogTip(p) && LogLegal(p.log) && TasksOk(p) && ReceiptsOk(p)
    && StageOk(p.room, originals) && RoomOk(p.room) && AdmissionsOk(p) && LogGrows(p) && ClocksOk(p)
  }

  /** Every session carries the times of the clock it was committed at, and the settings of the first. */
  predicate ClocksOk(p: Protocol) {
    && |p.clocks| == |p.log| > 0
    && (forall k | 0 <= k < |p.log| :: OnTime(p.log[k], p.clocks[k]) && SameSettings(p.log[k], p.log[0]))
  }

  lemma CommitIsOnTime(room: Room, task: Task, env: Env, after: Room, earlier: int)
    requires WellPlaced(room.session) && OnTime(room.session, earlier) && CommitsTo(room, task, env, after)
    ensures OnTime(after.session, env.now) && SameSettings(after.session, room.session)
  {
    hide Compute, Take, OnTime, WellPlaced;
    var step := CommittedStep(task, env);
    StepIsOnTime(room.session, step.action, step.commandId, step.lib, step.now, earlier);
  }

  lemma NextKeepsClocks(p: Protocol, move: Move, originals: seq<Block>)
    requires Inv(p, originals)
    ensures ClocksOk(Next(p, move))
  {
    hide Compute, ContentOk, TaskOk, TaskTick, ReceiptsOk, RunInvariant, IsStep, Take, LogLegal, RoomOk;
    hide LogGrows, AdmissionsOk;
    hide WellPlaced, WindowOpen, OnTime, SameSettings, Joined, FindByKey, FindByBlock;
    StagePlaced(p.room, originals);
    if move.Tick? && move.task < |p.tasks| {
      var task, q := p.tasks[move.task], Next(p, move);
      TickEffect(p, task, move.env);
      if CommitsTo(p.room, task, move.env, q.room) {
        CommitIsOnTime(p.room, task, move.env, q.room, p.clocks[p.room.session.revision]);
        SettingsChain(q.room.session, p.room.session, p.log[0]);
      }
    }
  }

  lemma SettingsChain(a: Session, b: Session, c: Session)
    requires SameSettings(a, b) && SameSettings(b, c)
    ensures SameSettings(a, c)
  {
  }

  lemma StagePlaced(room: Room, originals: seq<Block>)
    requires StageOk(room, originals)
    ensures WellPlaced(room.session) && BlockIdsUnique(room.session.content.blocks)
  {
  }

  lemma AdmissionOkGrows(log: seq<Session>, more: seq<Session>, r: Response, adm: Admission)
    requires AdmissionOk(log, r, adm)
    ensures AdmissionOk(log + more, r, adm)
  {
    hide WindowOpen, ScoredFrom;
  }

  lemma NextKeepsRoom(p: Protocol, move: Move, originals: seq<Block>)
    requires Inv(p, originals)
    ensures RoomOk(Next(p, move).room) && LogGrows(Next(p, move))
  {
    hide Compute, ContentOk, TaskOk, TaskTick, ReceiptsOk, AdmissionOk, RunInvariant, IsStep, Take, LogLegal;
    hide OneAnswerEach, KeysUnique, RosterOk, ResponsesFit, WellPlaced, JoinRoom;
    StagePlaced(p.room, originals);
    match move {
      case Join(participant, limit) =>
        JoinKeepsRoom(p.room, participant, limit);
        JoinKeepsSession(p.room, participant, limit);
      case Tick(i, env) =>
        if i < |p.tasks| {
          var task, q := p.tasks[i], Next(p, move);
          TickEffect(p, task, env);
          if SameUpToPresence(p.room, q.room) {
            PresenceKeepsRoom(p.room, q.room);
          } else if CommitsTo(p.room, task, env, q.room) {
            CommitKeepsRoom(p.room, task, env, q.room);
          } else {
            AdmitKeepsRoom(p, task, q.room);
          }
        }
      case _ =>
    }
  }

  lemma JoinKeepsSession(room: Room, participant: Participant, limit: nat)
    ensures var after := JoinRoom(room, participant, limit);
            after.session == room.session && after.timeline == room.timeline && after.receipts == room.receipts
            && after.responses == room.responses
  {
  }

  lemma NextKeepsAdmissions(p: Protocol, move: Move, originals: seq<Block>)
    requires Inv(p, originals)
    ensures AdmissionsOk(Next(p, move))
  {
    hide Compute, ContentOk, TaskOk, TaskTick, ReceiptsOk, AdmissionOk, RunInvariant, IsStep, Take, LogLegal;
    hide RoomOk, LogGrows;
    hide WellPlaced, WindowOpen;
    StagePlaced(p.room, originals);
    if move.Tick? && move.task < |p.tasks| {
      var task, q := p.tasks[move.task], Next(p, move);
      TickEffect(p, task, move.env);
      if AdmitsTo(p.room, task, q.room) {
        AdmissionIsOk(p, task, q.room);
      }
      var more := if q.room.session.revision != p.room.session.revision then [q.room.session] else [];
      assert q.log == p.log + more;
      forall k | 0 <= k < |p.admissions| ensures AdmissionOk(q.log, p.room.responses[k], p.admissions[k]) {
        AdmissionOkGrows(p.log, more, p.room.responses[k], p.admissions[k]);
      }
    }
  }

  lemma NextKeepsInv(p: Protocol, move: Move, originals: seq<Block>)
    requires Inv(p, originals)
    ensures Inv(Next(p, move), originals)
  {
    hide LogTip, LogLegal, TasksOk, ReceiptsOk, StageOk, RoomOk, AdmissionsOk, LogGrows, ClocksOk, Next;
    NextKeepsClocks(p, move, originals);
    NextKeepsLog(p, move);
    NextKeepsTasks(p, move);
    NextKeepsReceipts(p, move);
    NextKeepsStage(p, move, originals);
    NextKeepsRoom(p, move, originals);
    NextKeepsAdmissions(p, move, originals);
  }
}
