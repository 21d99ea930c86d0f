/** The results about one live room under any number of concurrent handlers, for every run. */
module LiveTheorems {
  import opened Common
  import opened SessionModel
  import opened SessionRuns
  import opened ResponsePolicy
  import opened SessionStore
  import opened LiveProtocol
  import opened LiveInvariants
  import opened ConsistentRead

  // ---------------------------------------------------------------- reachable states

  lemma OpeningInv(content: Content, cardsEnabled: bool, flex: bool, liveExpiresAt: int)
    requires ContentOk(content)
    ensures Inv(Opening(NewSession(content, cardsEnabled, flex, liveExpiresAt)), content.blocks)
  {
    hide ContentOk, RunInvariant;
    StartInvariant(content, cardsEnabled, flex, liveExpiresAt);
  }

  lemma {:induction false} RunKeepsInv(p: Protocol, moves: seq<Move>, originals: seq<Block>)
    requires Inv(p, originals)
    ensures Inv(Run(p, moves), originals)
    decreases |moves|
  {
    hide Inv, Next;
    if moves != [] {
      NextKeepsInv(p, moves[0], originals);
      RunKeepsInv(Next(p, moves[0]), moves[1..], originals);
    }
  }

  /** A state some interleaving leads to, from a fresh room with published content. */
  ghost predicate Reachable(p: Protocol, content: Content) {
    && ContentOk(content)
    && exists cardsEnabled: bool, flex: bool, liveExpiresAt: int, moves: seq<Move> ::
         p == Run(Opening(NewSession(content, cardsEnabled, flex, liveExpiresAt)), moves)
  }

  lemma ReachableInv(p: Protocol, content: Content)
    requires Reachable(p, content)
    ensures Inv(p, content.blocks)
  {
    hide ContentOk, Inv, Run;
    var cardsEnabled: bool, flex: bool, liveExpiresAt: int, moves: seq<Move> :|
      p == Run(Opening(NewSession(content, cardsEnabled, flex, liveExpiresAt)), moves);
    OpeningInv(content, cardsEnabled, flex, liveExpiresAt);
    RunKeepsInv(Opening(NewSession(content, cardsEnabled, flex, liveExpiresAt)), moves, content.blocks);
  }

  /**
   * Although handlers compute from sessions that may be out of date, the room only ever moves by a
   * legal step of the pure machine from the session it has when the commit happens.
   */
  lemma EveryCommitIsALegalStep(p: Protocol, content: Content)
    requires Reachable(p, content)
    ensures |p.log| == p.room.session.revision + 1 && p.log[|p.log| - 1] == p.room.session
    ensures forall k | 0 < k < |p.log| ::
            LegalStep(p.log[k - 1], p.log[k]) && p.log[k].revision == p.log[k - 1].revision + 1
  {
    hide TasksOk, ReceiptsOk, StageOk, RoomOk, AdmissionsOk, LogGrows, LegalStep;
    ReachableInv(p, content);
  }

  /** The properties of single runs survive concurrency: the trace is the prefix, published order is kept. */
  lemma ConcurrentRoomShowsAPrefix(p: Protocol, content: Content)
    requires Reachable(p, content)
    ensures var s := p.room.session;
            && WellPlaced(s) && ContentOk(s.content)
            && Presented(p.room.timeline) == BlockIds(s.content.blocks[..s.index + 1])
            && KeepsOriginals(s.content.blocks, content.blocks)
            && |p.room.timeline| == s.revision <= 3 * |s.content.blocks| + 1
  {
    hide TasksOk, ReceiptsOk, LogTip, LogLegal, RoomOk, AdmissionsOk, LogGrows, ContentOk, KeepsOriginals;
    ReachableInv(p, content);
    FitBoundsRevision(p.room.session);
  }

  // ---------------------------------------------------------------- a command commits at most once

  /** No two revisions were committed by the same command. */
  lemma CommandsCommitAtMostOnce(p: Protocol, content: Content, i: nat, j: nat)
    requires Reachable(p, content) && i < j < |p.log| == |p.authors| && p.authors[i].Some?
    ensures p.authors[i] != p.authors[j]
  {
    hide TasksOk, StageOk, LogLegal, RoomOk, AdmissionsOk, LogGrows, ReceiptOk, LogTip;
    ReachableInv(p, content);
  }

  /** A receipt stands for exactly one commit: the command's own action, from the revision it named. */
  lemma ReceiptStandsForItsCommit(p: Protocol, content: Content, id: Uuid)
    requires Reachable(p, content) && id in p.room.receipts
    ensures var r := p.room.receipts[id];
            && |p.authors| == |p.log| && 0 < r.resultingRevision < |p.log|
            && r.resultingRevision == r.expectedRevision + 1
            && p.authors[r.resultingRevision] == Some(id)
            && r.requestHash.Some? && r.requestHash.value.expectedRevision == r.expectedRevision
            && CommitsAction(p.log[r.expectedRevision], r.requestHash.value.action, id, p.log[r.resultingRevision])
            && (forall k | 0 <= k < |p.authors| && p.authors[k] == Some(id) :: k == r.resultingRevision)
  {
    hide TasksOk, StageOk, LogLegal, RoomOk, AdmissionsOk, LogGrows, CommitsAction, LogTip;
    ReachableInv(p, content);
    assert ReceiptOk(p, id, p.room.receipts[id]);
  }

  // ---------------------------------------------------------------- retrying a committed command

  predicate EchoReply(room: Room, c: Command, reply: CommandReply)
    requires c.id in room.receipts
  {
    if ReceiptIsFor(room.receipts[c.id], c) then reply.Snapshot? else reply.CommandConflict?
  }

  /** A handler that can only repeat what the receipt says. */
  predicate EchoStage(room: Room, c: Command, stage: CommandStage)
    requires c.id in room.receipts
  {
    || stage.CommandArrived? || stage.CommandLoaded?
    || (stage.CommandReplaying? && ReceiptIsFor(room.receipts[c.id], c))
    || (stage.CommandDone? && EchoReply(room, c, stage.reply))
  }

  predicate EchoTask(p: Protocol, i: nat, c: Command) {
    && c.id in p.room.receipts && i < |p.tasks| && p.tasks[i].CommandTask? && p.tasks[i].command == c
    && EchoStage(p.room, c, p.tasks[i].command_stage)
  }

  lemma ReceiptStays(p: Protocol, move: Move, id: Uuid)
    requires id in p.room.receipts
    ensures id in Next(p, move).room.receipts && Next(p, move).room.receipts[id] == p.room.receipts[id]
  {
    hide Compute, ContentOk, Commit, NextTransition, Prepared, SubmitPrepared, FindByKey, FindByBlock;
    hide WindowOpen, AdvancePrepared;
  }

  lemma NextKeepsEcho(p: Protocol, move: Move, i: nat, c: Command)
    requires EchoTask(p, i, c)
    ensures EchoTask(Next(p, move), i, c)
    ensures move.Tick? && move.task == i ==> Next(p, move).room == p.room
  {
    hide Compute, ContentOk;
    ReceiptStays(p, move, c.id);
  }

  /**
   * Once a command has committed, a later copy of it only ever answers from the receipt: an exact copy
   * gets a snapshot, anything else under that id is refused, and neither changes the room.
   */
  lemma {:induction false} LaterCopiesOnlyEcho(p: Protocol, i: nat, c: Command, moves: seq<Move>)
    requires EchoTask(p, i, c)
    ensures var q := Run(p, moves);
            && EchoTask(q, i, c)
            && q.room.receipts[c.id] == p.room.receipts[c.id]
            && (forall env: Env :: TaskTick(q.room, q.tasks[i], env).0 == q.room)
    decreases |moves|
  {
    hide Compute, ContentOk;
    if moves != [] {
      NextKeepsEcho(p, moves[0], i, c);
      ReceiptStays(p, moves[0], c.id);
      LaterCopiesOnlyEcho(Next(p, moves[0]), i, c, moves[1..]);
    }
  }

  lemma CopyAfterCommit(p: Protocol, c: Command, moves: seq<Move>)
    requires c.id in p.room.receipts
    ensures var q := Run(Next(p, NewCommand(c)), moves);
            && EchoTask(q, |p.tasks|, c)
            && (forall env: Env :: TaskTick(q.room, q.tasks[|p.tasks|], env).0 == q.room)
            && (q.tasks[|p.tasks|].command_stage.CommandDone? ==>
                  if ReceiptIsFor(p.room.receipts[c.id], c)
                  then q.tasks[|p.tasks|].command_stage.reply.Snapshot?
                  else q.tasks[|p.tasks|].command_stage.reply.CommandConflict?)
  {
    hide Run, TaskTick;
    LaterCopiesOnlyEcho(Next(p, NewCommand(c)), |p.tasks|, c, moves);
  }

  /** The session a finished copy was shown is one the room had, no earlier than the command's own commit. */
  predicate ShownSince(p: Protocol, i: nat, since: nat) {
    && i < |p.tasks| && p.tasks[i].CommandTask?
    && var stage := p.tasks[i].command_stage;
       stage.CommandDone? && stage.reply.Snapshot? ==>
         ReadOk(p.log, stage.reply.session) && since <= stage.reply.session.revision
  }

  lemma EchoShows(room: Room, c: Command, stage: CommandStage, env: Env)
    requires c.id in room.receipts && EchoStage(room, c, stage) && !stage.CommandDone?
    ensures var next := CommandTick(room, c, stage, env).1;
            next.CommandDone? && next.reply.Snapshot? ==> next.reply.session == room.session
  {
    hide Compute, ContentOk;
  }

  lemma NextKeepsShown(p: Protocol, move: Move, i: nat, c: Command, originals: seq<Block>)
    requires Inv(p, originals) && EchoTask(p, i, c) && ShownSince(p, i, p.room.receipts[c.id].resultingRevision)
    ensures ShownSince(Next(p, move), i, p.room.receipts[c.id].resultingRevision)
  {
    hide StageOk, LogLegal, RoomOk, AdmissionsOk, LogGrows, TasksOk, CommandTick, SubmitTick, AdvanceTick;
    hide EchoStage, JoinRoom;
    hide CommitsAction;
    assert ReceiptOk(p, c.id, p.room.receipts[c.id]);
    LogExtends(p, move, originals);
    if move.Tick? && move.task == i && !p.tasks[i].command_stage.CommandDone? {
      EchoShows(p.room, c, p.tasks[i].command_stage, move.env);
    } else if move.Tick? && move.task == i {
      DoneStays(p.room, c, p.tasks[i].command_stage, move.env);
    }
  }

  lemma DoneStays(room: Room, c: Command, stage: CommandStage, env: Env)
    requires stage.CommandDone?
    ensures CommandTick(room, c, stage, env) == (room, stage)
  {
  }

  lemma LogExtends(p: Protocol, move: Move, originals: seq<Block>)
    requires Inv(p, originals)
    ensures p.log <= Next(p, move).log
  {
    hide StageOk, LogLegal, RoomOk, AdmissionsOk, LogGrows, TasksOk, TaskTick, ReceiptsOk, JoinRoom;
  }

  lemma {:induction false} RunKeepsShown(p: Protocol, i: nat, c: Command, moves: seq<Move>, originals: seq<Block>)
    requires c.id in p.room.receipts
    requires Inv(p, originals) && EchoTask(p, i, c) && ShownSince(p, i, p.room.receipts[c.id].resultingRevision)
    ensures ShownSince(Run(p, moves), i, p.room.receipts[c.id].resultingRevision)
    decreases |moves|
  {
    hide Inv, Next, EchoTask, ShownSince;
    if moves != [] {
      NextKeepsShown(p, moves[0], i, c, originals);
      NextKeepsInv(p, moves[0], originals);
      NextKeepsEcho(p, moves[0], i, c);
      ReceiptStays(p, moves[0], c.id);
      RunKeepsShown(Next(p, moves[0]), i, c, moves[1..], originals);
    }
  }

  /**
   * In a room that handlers can reach, the session shown to a later copy is one the room has had since
   * the command's own commit, so the copy never goes back behind its own effect.
   */
  lemma CopyShowsItsCommitOrLater(p: Protocol, content: Content, c: Command, moves: seq<Move>)
    requires Reachable(p, content) && c.id in p.room.receipts
    ensures ShownSince(Run(Next(p, NewCommand(c)), moves), |p.tasks|, p.room.receipts[c.id].resultingRevision)
  {
    hide Reachable, Inv, Run;
    ReachableInv(p, content);
    NextKeepsInv(p, NewCommand(c), content.blocks);
    RunKeepsShown(Next(p, NewCommand(c)), |p.tasks|, c, moves, content.blocks);
  }

  /** The service and the repository agree on which receipts match, also for receipts without a hash. */
  lemma BothReceiptChecksAgree(r: Receipt, c: Command, read: Session, lib: Library)
    requires Compute(read, c.action, c.id, lib).Success? && Compute(read, c.action, c.id, lib).value.Some?
    ensures ReceiptIsFor(r, c)
            <==> ReceiptMatches(r, c.expectedRevision, HashOf(c), Compute(read, c.action, c.id, lib).value.value)
  {
    hide ContentOk, FrozenCards;
  }

  // ---------------------------------------------------------------- responses

  /** The block a stored response names is one and the same whenever it is looked up. */
  lemma BlockStaysTheSame(p: Protocol, content: Content, r: Response, early: nat, late: nat)
    requires Reachable(p, content) && early < |p.log| && late < |p.log|
    requires FindBlock(p.log[early].content.blocks, r.blockId).Some?
    requires CurrentBlock(p.log[late]).Some? && CurrentBlock(p.log[late]).value.id == r.blockId
    ensures FindBlock(p.log[early].content.blocks, r.blockId) == CurrentBlock(p.log[late])
  {
    hide Reachable, TasksOk, ReceiptsOk, LogLegal, RoomOk, AdmissionsOk, RunInvariant;
    ReachableInv(p, content);
    var blocks := p.room.session.content.blocks;
    var found, current := FindBlock(p.log[early].content.blocks, r.blockId).value, CurrentBlock(p.log[late]).value;
    assert found in blocks && current in p.log[late].content.blocks && current in blocks;
    SameIdSameBlock(blocks, found, current);
  }

  lemma SameIdSameBlock(blocks: seq<Block>, a: Block, b: Block)
    requires BlockIdsUnique(blocks) && a in blocks && b in blocks && a.id == b.id
    ensures a == b
  {
    var i :| 0 <= i < |blocks| && blocks[i] == a;
    var j :| 0 <= j < |blocks| && blocks[j] == b;
    assert i < j || i == j || j < i;
  }

  /** Two sessions give an answer to the question open in the second the same time and the same score. */
  predicate SameTiming(read: Session, open: Session, r: Response) {
    && CurrentBlock(open).Some? && CurrentBlock(open).value.QuestionBlock?
    && var q := CurrentBlock(open).value.question;
       var seen, due := TimingOf(read, r.submittedAt), TimingOf(open, r.submittedAt);
       seen.responseMs == due.responseMs && Score(q, r.correct, seen.remaining) == Score(q, r.correct, due.remaining)
  }

  lemma AdmissionFacts(p: Protocol, content: Content, k: nat)
    requires Reachable(p, content) && k < |p.room.responses|
    ensures |p.admissions| == |p.room.responses|
    ensures var r, adm := p.room.responses[k], p.admissions[k];
            && adm.arrivedAt <= adm.readAt <= adm.revision < |p.log|
            && WindowOpen(p.log[adm.revision], r, adm.revision) && ScoredFrom(p.log[adm.readAt], r)
            && ResponseFits(p.room.session.content.blocks, r)
  {
    hide TasksOk, ReceiptsOk, StageOk, LogTip, LogLegal, LogGrows, WindowOpen, ScoredFrom, ResponseFits, Reachable;
    ReachableInv(p, content);
    assert AdmissionOk(p.log, p.room.responses[k], p.admissions[k]);
  }

  /**
   * A stored response carries the time and score of its own question exactly when the session its
   * handler had read gives the same as the one it was committed against; in particular whenever the
   * two are one.
   */
  lemma TimingIsRightExactlyWhenTheReadAgrees(p: Protocol, content: Content, k: nat)
    requires Reachable(p, content) && k < |p.room.responses|
    ensures |p.admissions| == |p.room.responses| && p.admissions[k].revision < |p.log|
            && p.admissions[k].readAt < |p.log|
    ensures var r, adm := p.room.responses[k], p.admissions[k];
            && (TimedAgainst(p.log[adm.revision], r) <==> SameTiming(p.log[adm.readAt], p.log[adm.revision], r))
            && (adm.readAt == adm.revision ==> TimedAgainst(p.log[adm.revision], r))
  {
    hide Reachable, TimingOf, Score, Correct, Validate, ResponseFits;
    AdmissionFacts(p, content, k);
    var r, adm := p.room.responses[k], p.admissions[k];
    BlockStaysTheSame(p, content, r, adm.readAt, adm.revision);
  }

  /**
   * Over every interleaving a participant has one stored response per block and per key. Each was
   * admitted while that very question was open, from a session read no later than that and no earlier
   * than its arrival, and was graded, timed and scored from the session read; so it is timed right
   * whenever the client had seen the revision it named before it submitted.
   */
  lemma ResponsesBelongToTheirQuestion(p: Protocol, content: Content)
    requires Reachable(p, content)
    ensures OneAnswerEach(p.room.responses) && KeysUnique(p.room.responses) && |p.admissions| == |p.room.responses|
    ensures forall k | 0 <= k < |p.room.responses| ::
              var r, adm := p.room.responses[k], p.admissions[k];
              && adm.arrivedAt <= adm.readAt <= adm.revision < |p.log|
              && WindowOpen(p.log[adm.revision], r, adm.revision)
              && ResponseFits(p.room.session.content.blocks, r) && ScoredFrom(p.log[adm.readAt], r)
              && (adm.arrivedAt >= adm.revision ==> TimedAgainst(p.log[adm.revision], r))
  {
    hide TasksOk, ReceiptsOk, StageOk, LogTip, LogLegal, LogGrows, WindowOpen, TimedAgainst, ScoredFrom;
    hide ResponseFits, Reachable;
    hide AdmissionOk, SameTiming;
    ReachableInv(p, content);
    forall k | 0 <= k < |p.room.responses|
      ensures var r, adm := p.room.responses[k], p.admissions[k];
              && adm.arrivedAt <= adm.readAt <= adm.revision < |p.log|
              && WindowOpen(p.log[adm.revision], r, adm.revision)
              && ResponseFits(p.room.session.content.blocks, r) && ScoredFrom(p.log[adm.readAt], r)
              && (adm.arrivedAt >= adm.revision ==> TimedAgainst(p.log[adm.revision], r))
    {
      AdmissionFacts(p, content, k);
      TimingIsRightExactlyWhenTheReadAgrees(p, content, k);
    }
  }

  lemma {:induction false} FirstSessionStays(p: Protocol, moves: seq<Move>)
    requires p.log != []
    ensures Run(p, moves).log != [] && Run(p, moves).log[0] == p.log[0]
    decreases |moves|
  {
    hide TaskTick;
    if moves != [] {
      FirstSessionStays(Next(p, moves[0]), moves[1..]);
    }
  }

  predicate Unopened(s: Session) {
    s.openedAt.Some? ==> s.phase.QuestionOpen?
  }

  lemma StepKeepsUnopened(before: Session, after: Session)
    requires LegalStep(before, after)
    ensures Unopened(after)
  {
    hide Compute, ContentOk;
  }

  /** Only a session with an open question has an opening time. */
  lemma OpeningTimesBelongToOpenQuestions(p: Protocol, content: Content, k: nat)
    requires Reachable(p, content) && k < |p.log|
    ensures Unopened(p.log[k])
  {
    hide ContentOk, Run, LegalStep, Unopened;
    EveryCommitIsALegalStep(p, content);
    if k > 0 {
      StepKeepsUnopened(p.log[k - 1], p.log[k]);
    } else {
      var cardsEnabled: bool, flex: bool, liveExpiresAt: int, moves: seq<Move> :|
        p == Run(Opening(NewSession(content, cardsEnabled, flex, liveExpiresAt)), moves);
      FirstSessionStays(Opening(NewSession(content, cardsEnabled, flex, liveExpiresAt)), moves);
      NewIsUnopened(content, cardsEnabled, flex, liveExpiresAt);
    }
  }

  lemma NewIsUnopened(content: Content, cardsEnabled: bool, flex: bool, liveExpiresAt: int)
    ensures Unopened(NewSession(content, cardsEnabled, flex, liveExpiresAt))
  {
  }

  /** What a correct answer earns when its handler read the session before the question had opened. */
  function EarlyScore(read: Session, basePoints: nat): int {
    if read.flex && CurrentBlock(read).Some? && CurrentBlock(read).value.QuestionBlock? then basePoints
    else RoundHalfUp((basePoints as real) * 0.5)
  }

  lemma EarlyTiming(read: Session, q: Question, receivedAt: int)
    requires read.openedAt.None? && Scored(q.kind)
    ensures Score(q, Some(true), TimingOf(read, receivedAt).remaining) == EarlyScore(read, q.basePoints)
  {
    assert (q.basePoints as real) * (0.5 + 1.0 * 0.5) == q.basePoints as real;
    assert (q.basePoints as real) * (0.5 + 0.0 * 0.5) == (q.basePoints as real) * 0.5;
    RoundWhole(q.basePoints);
  }

  /**
   * An answer whose handler read a session with no open question earns, if correct, half the base
   * points rounded in a timed room, whenever it was submitted; untimed rooms give all of them if the
   * session read stood at a question, and half otherwise.
   */
  lemma EarlyReadEarnsHalf(p: Protocol, content: Content, k: nat)
    requires Reachable(p, content) && k < |p.room.responses|
    requires |p.admissions| == |p.room.responses| && p.admissions[k].readAt < |p.log|
    requires !p.log[p.admissions[k].readAt].phase.QuestionOpen?
    ensures var r, read := p.room.responses[k], p.log[p.admissions[k].readAt];
            var block := FindBlock(read.content.blocks, r.blockId);
            && block.Some? && block.value.QuestionBlock?
            && r.score == if r.correct == Some(true) && Scored(block.value.question.kind)
                          then EarlyScore(read, block.value.question.basePoints) else 0
  {
    hide Reachable, TimingOf, Correct, Validate, ResponseFits, EarlyScore, WindowOpen;
    AdmissionFacts(p, content, k);
    var r, read := p.room.responses[k], p.log[p.admissions[k].readAt];
    OpeningTimesBelongToOpenQuestions(p, content, p.admissions[k].readAt);
    var q := FindBlock(read.content.blocks, r.blockId).value.question;
    if r.correct == Some(true) && Scored(q.kind) {
      EarlyTiming(read, q, r.submittedAt);
    }
  }

  predicate HashMatches(sub: Submission, r: Response) {
    r.requestHash.Some? ==> r.requestHash.value == SubmissionHash(sub)
  }

  /** A submission that can only repeat the stored answer `r`. */
  predicate RetryStage(sub: Submission, r: Response, stage: SubmitStage) {
    match stage
    case SubmitArrived => true
    case SubmitLoaded(_, prior) => prior == Some(r)
    case SubmitReplaying(receipt) => receipt == r && HashMatches(sub, r)
    case SubmitDone(reply) =>
      reply == Unauthorized || reply == if HashMatches(sub, r) then Ack(r.id, r.score, true) else SubmitConflict
    case _ => false
  }

  predicate RetryTask(p: Protocol, i: nat, sub: Submission, r: Response) {
    && FindByKey(p.room.responses, sub.participantId, sub.key) == Some(r)
    && i < |p.tasks| && p.tasks[i].SubmitTask? && p.tasks[i].submission == sub
    && RetryStage(sub, r, p.tasks[i].submit_stage)
  }

  lemma {:induction false} FoundStaysFound(responses: seq<Response>, more: Response, participantId: Uuid, key: Uuid)
    requires FindByKey(responses, participantId, key).Some?
    ensures FindByKey(responses + [more], participantId, key) == FindByKey(responses, participantId, key)
  {
    assert (responses + [more])[0] == responses[0];
    if !HasKey(responses[0], participantId, key) {
      FoundStaysFound(responses[1..], more, participantId, key);
      assert (responses + [more])[1..] == responses[1..] + [more];
    }
  }

  lemma TickKeepsFound(room: Room, task: Task, env: Env, participantId: Uuid, key: Uuid)
    requires FindByKey(room.responses, participantId, key).Some?
    ensures FindByKey(TaskTick(room, task, env).0.responses, participantId, key)
            == FindByKey(room.responses, participantId, key)
  {
    hide Compute, ContentOk, FindByKey, FindByBlock, WindowOpen, NextTransition, Commit;
    var after := TaskTick(room, task, env).0;
    if after.responses != room.responses {
      FoundStaysFound(room.responses, after.responses[|room.responses|], participantId, key);
    }
  }

  lemma RetryTick(room: Room, sub: Submission, r: Response, stage: SubmitStage, env: Env)
    requires FindByKey(room.responses, sub.participantId, sub.key) == Some(r) && RetryStage(sub, r, stage)
    ensures var (after, next) := SubmitTick(room, sub, stage, env);
            RetryStage(sub, r, next) && SameUpToPresence(room, after)
  {
    hide FindByBlock, WindowOpen;
    TouchIsPresenceOnly(room, sub.participantId, env.now);
  }

  lemma NextKeepsRetry(p: Protocol, move: Move, i: nat, sub: Submission, r: Response)
    requires RetryTask(p, i, sub, r)
    ensures RetryTask(Next(p, move), i, sub, r)
  {
    hide SubmitTick, CommandTick, AdvanceTick, FindByKey, RetryStage;
    match move
    case Tick(k, env) =>
      if k < |p.tasks| {
        TickKeepsFound(p.room, p.tasks[k], env, sub.participantId, sub.key);
        if k == i {
          RetryTick(p.room, sub, r, p.tasks[i].submit_stage, env);
        }
      }
    case Join(participant, limit) => JoinKeepsSession(p.room, participant, limit);
    case _ =>
  }

  lemma {:induction false} RetriesKeepRetrying(p: Protocol, i: nat, sub: Submission, r: Response, moves: seq<Move>)
    requires RetryTask(p, i, sub, r)
    ensures RetryTask(Run(p, moves), i, sub, r)
    decreases |moves|
  {
    hide Next, RetryTask;
    if moves != [] {
      NextKeepsRetry(p, moves[0], i, sub, r);
      RetriesKeepRetrying(Next(p, moves[0]), i, sub, r, moves[1..]);
    }
  }

  /**
   * A retry that starts after its answer was stored, however far the host has moved on, gets that
   * answer's id and score back as a duplicate, or a conflict if it asks for something else.
   */
  lemma RetryReturnsTheStoredAnswer(p: Protocol, sub: Submission, r: Response, moves: seq<Move>)
    requires FindByKey(p.room.responses, sub.participantId, sub.key) == Some(r)
    ensures var q := Run(Next(p, NewSubmission(sub)), moves);
            var i := |p.tasks|;
            && RetryTask(q, i, sub, r)
            && (q.tasks[i].submit_stage.SubmitDone? ==>
                  || q.tasks[i].submit_stage.reply == Unauthorized
                  || q.tasks[i].submit_stage.reply
                     == if HashMatches(sub, r) then Ack(r.id, r.score, true) else SubmitConflict)
  {
    hide Run;
    RetriesKeepRetrying(Next(p, NewSubmission(sub)), |p.tasks|, sub, r, moves);
  }

  // ---------------------------------------------------------------- the event sequence fences every change

  ghost function Rooms(p: Protocol, moves: seq<Move>): (rooms: seq<Room>)
    ensures |rooms| == |moves| + 1 && rooms[0] == p.room
    decreases |moves|
  {
    if moves == [] then [p.room] else [p.room] + Rooms(Next(p, moves[0]), moves[1..])
  }

  lemma NextMovesSequence(p: Protocol, move: Move, originals: seq<Block>)
    requires Inv(p, originals)
    ensures Next(p, move).room.eventSeq == p.room.eventSeq + 1 || SameUpToPresence(p.room, Next(p, move).room)
  {
    hide StageOk, ReceiptsOk, LogLegal, RoomOk, AdmissionsOk, LogGrows, TaskOk, TaskTick, IsStep, Take, WindowOpen;
    if move.Tick? && move.task < |p.tasks| {
      TickEffect(p, p.tasks[move.task], move.env);
    }
  }

  /** The rooms along any run form a chronicle, so a projection read during it is never torn. */
  lemma {:induction false} RunsAreChronicles(p: Protocol, moves: seq<Move>, originals: seq<Block>)
    requires Inv(p, originals)
    ensures Chronicle(Rooms(p, moves))
    decreases |moves|
  {
    hide Inv, Next, SameUpToPresence;
    if moves != [] {
      NextMovesSequence(p, moves[0], originals);
      NextKeepsInv(p, moves[0], originals);
      var rest := Rooms(Next(p, moves[0]), moves[1..]);
      RunsAreChronicles(Next(p, moves[0]), moves[1..], originals);
      var all := Rooms(p, moves);
      assert all == [p.room] + rest;
      forall k | 0 < k < |all|
        ensures all[k].eventSeq == all[k - 1].eventSeq + 1 || SameUpToPresence(all[k - 1], all[k])
      {
        if k > 1 {
          assert all[k] == rest[k - 1] && all[k - 1] == rest[k - 2];
        }
      }
    }
  }
}
