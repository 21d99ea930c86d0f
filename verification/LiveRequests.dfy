/**
 * What becomes of one request to a live room that nothing interrupts: when a host's "next", a command
 * and an answer are carried out, and what each is told when they are not.
 */
module LiveRequests {
  import opened Common
  import opened SessionModel
  import opened SessionRuns
  import opened SessionSteps
  import opened ResponsePolicy
  import opened SessionStore
  import opened LiveProtocol
  import opened LiveWindows

  // ---------------------------------------------------------------- the host's "next"

  function AdvanceSteps(room: Room, expectedRevision: nat, stage: AdvanceStage, env: Env, n: nat): (Room, AdvanceStage)
    decreases n
  {
    if n == 0 then (room, stage)
    else
      var (after, next) := AdvanceTick(room, expectedRevision, stage, env);
      AdvanceSteps(after, expectedRevision, next, env, n - 1)
  }

  /**
   * "Next" is refused in a room that has expired, told the revision if it names another one, and shown
   * a finished session as it is; any other time it moves the session one revision on and shows that.
   */
  lemma NextAloneMovesExactly(room: Room, expectedRevision: nat, env: Env)
    requires WellPlaced(room.session)
    ensures var s := room.session;
            var (after, stage) := AdvanceSteps(room, expectedRevision, AdvanceArrived, env, 2);
            && stage.AdvanceDone?
            && (env.now >= s.liveExpiresAt ==> after == room && stage.reply == Refused(PhaseClosed))
            && (env.now < s.liveExpiresAt && expectedRevision != s.revision ==>
                  after == room && stage.reply == Stale(expectedRevision, s.revision))
            && (env.now < s.liveExpiresAt && expectedRevision == s.revision && s.phase == Done ==>
                  after == room && stage.reply == Snapshot(s))
            && (env.now < s.liveExpiresAt && expectedRevision == s.revision && s.phase != Done ==>
                  && stage.reply == Snapshot(after.session)
                  && after.session == Commit(s, NextTransition(s).value.value, env.now)
                  && after.session.revision == s.revision + 1 && after.eventSeq == room.eventSeq + 1
                  && after.responses == room.responses && after.participants == room.participants
                  && after.receipts == room.receipts)
  {
  }

  // ---------------------------------------------------------------- commands

  ghost function CommandSteps(room: Room, c: Command, stage: CommandStage, env: Env, n: nat): (Room, CommandStage)
    decreases n
  {
    if n == 0 then (room, stage)
    else
      var (after, next) := CommandTick(room, c, stage, env);
      CommandSteps(after, c, next, env, n - 1)
  }

  lemma CommandStep(room: Room, c: Command, stage: CommandStage, env: Env, n: nat)
    requires n > 0
    ensures CommandSteps(room, c, stage, env, n)
            == var (after, next) := CommandTick(room, c, stage, env); CommandSteps(after, c, next, env, n - 1)
  {
  }

  lemma {:induction false} CommandRests(room: Room, c: Command, reply: CommandReply, env: Env, n: nat)
    ensures CommandSteps(room, c, CommandDone(reply), env, n) == (room, CommandDone(reply))
    decreases n
  {
    if n > 0 {
      CommandRests(room, c, reply, env, n - 1);
    }
  }

  /**
   * A new command is carried out exactly when it names the current revision, the rules let it, and the
   * published source it copies from is still there; then the session is one revision on and shown.
   * Otherwise nothing changes and it is told why.
   */
  lemma CommandAloneIsCarriedOutExactly(room: Room, c: Command, env: Env)
    requires c.id !in room.receipts
    ensures var s := room.session;
            var computed := Compute(s, c.action, c.id, env.lib);
            var (after, stage) := CommandSteps(room, c, CommandArrived, env, 5);
            && stage.CommandDone?
            && (c.expectedRevision != s.revision ==>
                  after == room && stage.reply == Stale(c.expectedRevision, s.revision))
            && (c.expectedRevision == s.revision && computed.Failure? ==>
                  after == room && stage.reply == Refused(computed.error))
            && (c.expectedRevision == s.revision && computed == Success(None) ==>
                  after == room && stage.reply == Snapshot(s))
            && (c.expectedRevision == s.revision && computed.Success? && computed.value.Some? ==>
                  if computed.value.value.fromPublishedSource && !env.sourceAvailable
                  then after == room && stage.reply == Refused(NotFound)
                  else after.session == Commit(s, computed.value.value, env.now)
                       && after.session.revision == s.revision + 1 && stage.reply == Snapshot(after.session)
                       && c.id in after.receipts && after.receipts[c.id].resultingRevision == s.revision + 1)
  {
    hide Compute, Commit, CommandTick, CommandSteps, ContentOk, FrozenCards;
    var s := room.session;
    CommandStep(room, c, CommandArrived, env, 5);
    ArrivedCommand(room, c, env);
    CommandStep(room, c, CommandLoaded(s), env, 4);
    CommandStep(room, c, CommandChecked(s), env, 3);
    var stage := Prepared(c, s, env.lib);
    CommandStep(room, c, stage, env, 2);
    if stage.CommandDone? {
      CommandRests(room, c, stage.reply, env, 2);
    } else {
      var (after, last) := CommandTick(room, c, stage, env);
      CommandStep(after, c, last, env, 1);
      if stage.CommandReady? {
        ComputedIsAttributed(s, c.action, c.id, env.lib);
      }
      CommandSettles(room, c, stage, env);
      var (_, final) := CommandTick(after, c, last, env);
      CommandRests(after, c, final.reply, env, 0);
    }
  }

  lemma ArrivedCommand(room: Room, c: Command, env: Env)
    requires c.id !in room.receipts
    ensures CommandTick(room, c, CommandArrived, env) == (room, CommandLoaded(room.session))
    ensures CommandTick(room, c, CommandLoaded(room.session), env) == (room, CommandChecked(room.session))
    ensures CommandTick(room, c, CommandChecked(room.session), env)
            == (room, Prepared(c, room.session, env.lib))
  {
    hide Compute, Prepared;
  }

  /** The last two steps of a new command that was not refused outright. */
  lemma CommandSettles(room: Room, c: Command, stage: CommandStage, env: Env)
    requires c.id !in room.receipts && (stage.CommandReady? || stage.CommandRechecking?)
    requires stage.CommandReady? ==>
               c.expectedRevision == room.session.revision && AttributionOk(room.session, stage.t)
    ensures var (after, last) := CommandTick(room, c, stage, env);
            var (final, done) := CommandTick(after, c, last, env);
            && final == after && done.CommandDone?
            && (stage.CommandRechecking? ==> after == room && done.reply == stage.otherwise)
            && (stage.CommandReady? ==>
                  if stage.t.fromPublishedSource && !env.sourceAvailable
                  then after == room && done.reply == Refused(NotFound)
                  else after.session == Commit(room.session, stage.t, env.now)
                       && after.session.revision == room.session.revision + 1
                       && done.reply == Snapshot(after.session)
                       && c.id in after.receipts
                       && after.receipts[c.id].resultingRevision == room.session.revision + 1)
  {
    hide Compute, Prepared;
  }

  /** A command or "next" that somebody else's commit has overtaken is told so, and changes nothing. */
  lemma OvertakenStepsAreStale(
    room: Room, c: Command, read: Session, lib: Library, t: Transition, expectedRevision: nat, env: Env)
    requires c.id !in room.receipts && c.expectedRevision != room.session.revision
    requires expectedRevision != room.session.revision
    ensures CommandTick(room, c, CommandReady(read, lib, t), env)
            == (room, CommandDone(Stale(c.expectedRevision, room.session.revision)))
    ensures AdvanceTick(room, expectedRevision, AdvanceStage.AdvanceReady(read, t), env)
            == (room, AdvanceDone(Stale(expectedRevision, room.session.revision)))
  {
    hide Commit, Compute;
  }

  // ---------------------------------------------------------------- answers

  function SubmitSteps(room: Room, sub: Submission, stage: SubmitStage, env: Env, n: nat): (Room, SubmitStage)
    decreases n
  {
    if n == 0 then (room, stage)
    else
      var (after, next) := SubmitTick(room, sub, stage, env);
      SubmitSteps(after, sub, next, env, n - 1)
  }

  lemma SubmitStep(room: Room, sub: Submission, stage: SubmitStage, env: Env, n: nat)
    requires n > 0
    ensures SubmitSteps(room, sub, stage, env, n)
            == var (after, next) := SubmitTick(room, sub, stage, env); SubmitSteps(after, sub, next, env, n - 1)
  {
  }

  lemma {:induction false} SubmitRests(room: Room, sub: Submission, reply: SubmitReply, env: Env, n: nat)
    ensures SubmitSteps(room, sub, SubmitDone(reply), env, n) == (room, SubmitDone(reply))
    decreases n
  {
    if n > 0 {
      SubmitRests(room, sub, reply, env, n - 1);
    }
  }

  /** The room once the participant has been seen. */
  function Seen(room: Room, sub: Submission, now: int): Room {
    room.(participants := Touch(room.participants, sub.participantId, now))
  }

  lemma SeenStaysJoined(room: Room, sub: Submission, now: int)
    ensures Joined(Seen(room, sub, now).participants, sub.participantId)
            <==> Joined(room.participants, sub.participantId)
  {
    var touched := Seen(room, sub, now).participants;
    if i :| 0 <= i < |room.participants| && room.participants[i].id == sub.participantId {
      assert touched[i].id == sub.participantId;
    }
    if i :| 0 <= i < |touched| && touched[i].id == sub.participantId {
      assert room.participants[i].id == sub.participantId;
    }
  }

  /**
   * A submission is turned away at once exactly when its participant has not joined or the room
   * has expired; anybody who has joined has then been seen.
   */
  lemma StrangersAreTurnedAway(room: Room, sub: Submission, env: Env)
    ensures var (after, stage) := SubmitTick(room, sub, SubmitArrived, env);
            && after.session == room.session && after.responses == room.responses && after.eventSeq == room.eventSeq
            && (stage == SubmitDone(Unauthorized)
                <==> !(exists i :: 0 <= i < |room.participants| && room.participants[i].id == sub.participantId)
                     || room.session.liveExpiresAt <= sub.receivedAt)
            && (stage != SubmitDone(Unauthorized) ==>
                  && after == Seen(room, sub, env.now) && |after.participants| == |room.participants|
                  && (forall i | 0 <= i < |room.participants| ::
                        after.participants[i].lastSeenAt
                        == if room.participants[i].id == sub.participantId then env.now
                           else room.participants[i].lastSeenAt)
                  && stage == SubmitLoaded(room.session, FindByKey(room.responses, sub.participantId, sub.key)))
  {
    hide FindByKey;
  }

  /** The question a submission names, if the session has one under that id. */
  predicate Asks(s: Session, sub: Submission, q: Question) {
    exists i :: 0 <= i < |s.content.blocks| && s.content.blocks[i].id == sub.blockId
                && s.content.blocks[i].QuestionBlock? && s.content.blocks[i].question == q
  }

  /** The block of a submission is on show, at the revision it names. */
  predicate StillShown(s: Session, sub: Submission) {
    && s.revision == sub.expectedRevision && 0 <= s.index < |s.content.blocks|
    && s.content.blocks[s.index].id == sub.blockId
  }

  /** The window of a submission's question is open at the time it was received. */
  predicate InWindow(s: Session, sub: Submission) {
    && StillShown(s, sub) && s.status == Active && s.phase == QuestionOpen
    && s.openedAt.Some? && s.openedAt.value <= sub.receivedAt
    && (s.closesAt.Some? ==> sub.receivedAt <= s.closesAt.value)
  }

  predicate HasAnswered(responses: seq<Response>, sub: Submission) {
    exists r :: r in responses && r.participantId == sub.participantId && r.blockId == sub.blockId
  }

  /** What a submission under a new key from a participant comes to. */
  ghost predicate Settled(before: Room, sub: Submission, freshId: Uuid, after: Room, reply: SubmitReply) {
    var s := before.session;
    && (reply.Ack? ==> InWindow(s, sub) && !HasAnswered(before.responses, sub))
    && (after.responses == before.responses <==> !reply.Ack?)
    && ((forall q :: !Asks(s, sub, q)) ==> reply == StaleQuestion)
    && forall q | Asks(s, sub, q) ::
         if Validate(q, sub.answer).Some? then reply == InvalidAnswer(Validate(q, sub.answer).value)
         else if InWindow(s, sub) && HasAnswered(before.responses, sub) then reply == AlreadyAnswered
         else if InWindow(s, sub) then
           && reply == Ack(freshId, Score(q, Correct(q, sub.answer), TimingOf(s, sub.receivedAt).remaining), false)
           && after.responses
              == before.responses
                 + [Response(freshId, sub.participantId, sub.blockId, q.id, sub.answer, Correct(q, sub.answer),
                             Score(q, Correct(q, sub.answer), TimingOf(s, sub.receivedAt).remaining),
                             TimingOf(s, sub.receivedAt).responseMs, sub.receivedAt, Some(sub.key),
                             Some(SubmissionHash(sub)))]
         else if StillShown(s, sub) then reply == QuestionClosed
         else reply == StaleQuestion
  }

  /**
   * An answer under a new key from a participant of a room that has not expired is stored exactly when
   * it is a valid answer to the question on show, in its window, at its revision, and the first one;
   * then it is acknowledged with its points. Otherwise nothing is stored and the reply says which failed.
   */
  lemma AnswerAloneIsSettled(room: Room, sub: Submission, env: Env)
    requires BlockIdsUnique(room.session.content.blocks)
    requires Joined(room.participants, sub.participantId) && sub.receivedAt < room.session.liveExpiresAt
    requires forall r | r in room.responses :: !(r.participantId == sub.participantId && r.key == Some(sub.key))
    ensures var (after, stage) := SubmitSteps(room, sub, SubmitArrived, env, 4);
            && stage.SubmitDone? && after.session == room.session
            && Settled(room, sub, env.freshId, after, stage.reply)
  {
    hide SubmitSteps, SubmitTick, FindByKey, FindByBlock, Validate, Correct, Score, TimingOf, Settled, BlockIdsUnique;
    hide Asks, Joined, Touch;
    var s, seen := room.session, Seen(room, sub, env.now);
    ArrivedAnswer(room, sub, env);
    SubmitStep(room, sub, SubmitArrived, env, 4);
    SubmitStep(seen, sub, SubmitLoaded(s, None), env, 3);
    match FindBlock(s.content.blocks, sub.blockId)
    case Some(QuestionBlock(id, q, origin)) =>
      AsksOnly(s, sub, QuestionBlock(id, q, origin));
      if Validate(q, sub.answer).Some? {
        AnswerTurnedBack(room, sub, InvalidAnswer(Validate(q, sub.answer).value), env);
        SettledInvalid(room, sub, q, env.freshId, seen);
      } else {
        AnswerTaken(room, sub, q, env);
      }
    case _ =>
      AsksNothing(s, sub);
      AnswerTurnedBack(room, sub, StaleQuestion, env);
      SettledStale(room, sub, env.freshId, seen);
  }

  lemma ArrivedAnswer(room: Room, sub: Submission, env: Env)
    requires Joined(room.participants, sub.participantId) && sub.receivedAt < room.session.liveExpiresAt
    requires forall r | r in room.responses :: !HasKey(r, sub.participantId, sub.key)
    ensures var s, seen := room.session, Seen(room, sub, env.now);
            && SubmitTick(room, sub, SubmitArrived, env) == (seen, SubmitLoaded(s, None))
            && SubmitTick(seen, sub, SubmitLoaded(s, None), env) == (seen, SubmitPrepared(sub, s, None, env.freshId))
            && FindByKey(room.responses, sub.participantId, sub.key) == None
  {
    hide SubmitPrepared, Touch;
  }

  lemma AsksOnly(s: Session, sub: Submission, b: Block)
    requires BlockIdsUnique(s.content.blocks) && FindBlock(s.content.blocks, sub.blockId) == Some(b) && b.QuestionBlock?
    ensures Asks(s, sub, b.question) && forall q | Asks(s, sub, q) :: q == b.question
    ensures StillShown(s, sub) ==> CurrentBlock(s) == Some(b)
  {
    hide FindBlock;
    var i :| 0 <= i < |s.content.blocks| && s.content.blocks[i] == b;
  }

  lemma AsksNothing(s: Session, sub: Submission)
    requires FindBlock(s.content.blocks, sub.blockId).Some? ==>
               FindBlock(s.content.blocks, sub.blockId).value.ContentBlock?
    requires BlockIdsUnique(s.content.blocks)
    ensures forall q :: !Asks(s, sub, q)
  {
    hide FindBlock;
  }

  lemma AnswerTurnedBack(room: Room, sub: Submission, reply: SubmitReply, env: Env)
    requires FindByKey(room.responses, sub.participantId, sub.key) == None
    requires SubmitPrepared(sub, room.session, None, env.freshId) == SubmitLooking(reply)
    ensures var seen := Seen(room, sub, env.now);
            SubmitSteps(seen, sub, SubmitPrepared(sub, room.session, None, env.freshId), env, 2)
            == (seen, SubmitDone(reply))
  {
    hide FindByKey, SubmitPrepared, SubmitSteps, Touch;
    var seen := Seen(room, sub, env.now);
    SubmitStep(seen, sub, SubmitLooking(reply), env, 2);
    SubmitRests(seen, sub, reply, env, 1);
  }

  lemma AnswerTaken(room: Room, sub: Submission, q: Question, env: Env)
    requires Joined(room.participants, sub.participantId) && sub.receivedAt < room.session.liveExpiresAt
    requires FindByKey(room.responses, sub.participantId, sub.key) == None
    requires Validate(q, sub.answer).None?
    requires Asks(room.session, sub, q) && forall t | Asks(room.session, sub, t) :: t == q
    requires SubmitPrepared(sub, room.session, None, env.freshId)
             == SubmitReady(room.session, RecordOf(sub, q, room.session, env.freshId))
    requires StillShown(room.session, sub) ==>
               CurrentBlock(room.session).value.QuestionBlock? && CurrentBlock(room.session).value.question == q
    ensures var (after, stage) :=
              SubmitSteps(Seen(room, sub, env.now), sub, SubmitPrepared(sub, room.session, None, env.freshId), env, 2);
            stage.SubmitDone? && after.session == room.session && Settled(room, sub, env.freshId, after, stage.reply)
  {
    hide FindByKey, SubmitPrepared, SubmitSteps, Touch, Validate, Correct, Score, TimingOf, FindByBlock, Asks, Joined;
    hide Settled;
    var s, seen := room.session, Seen(room, sub, env.now);
    var r := RecordOf(sub, q, s, env.freshId);
    SeenStaysJoined(room, sub, env.now);
    SubmitStep(seen, sub, SubmitReady(s, r), env, 2);
    AcceptedExactly(seen, sub, r);
    var (after, last) := SubmitTick(seen, sub, SubmitReady(s, r), env);
    SubmitStep(after, sub, last, env, 1);
    var (final, done) := SubmitTick(after, sub, last, env);
    SubmitRests(final, sub, done.reply, env, 0);
    SettledAs(room, sub, q, env.freshId, final, done.reply);
  }

  /** How the store takes a new answer to the question `r` was recorded for. */
  lemma AcceptedExactly(room: Room, sub: Submission, r: Response)
    requires Joined(room.participants, sub.participantId) && sub.receivedAt < room.session.liveExpiresAt
    requires FindByKey(room.responses, sub.participantId, sub.key) == None
    requires r.participantId == sub.participantId && r.key == Some(sub.key) && r.blockId == sub.blockId
    requires r.submittedAt == sub.receivedAt
    requires StillShown(room.session, sub) ==>
               CurrentBlock(room.session).value.QuestionBlock?
               && CurrentBlock(room.session).value.question.id == r.questionId
    ensures AcceptResponse(room, r, sub.expectedRevision)
            == if !InWindow(room.session, sub) then (room, Closed)
               else if HasAnswered(room.responses, sub)
               then (room, AlreadyResponded(FindByBlock(room.responses, sub.participantId, sub.blockId).value))
               else (room.(eventSeq := room.eventSeq + 1, responses := room.responses + [r]), Accepted(r))
    ensures HasAnswered(room.responses, sub)
            <==> FindByBlock(room.responses, sub.participantId, sub.blockId).Some?
  {
    hide FindByKey, FindByBlock, Joined;
    if HasAnswered(room.responses, sub) {
      var t :| t in room.responses && t.participantId == sub.participantId && t.blockId == sub.blockId;
      assert AnswersBlock(t, sub.participantId, sub.blockId);
    }
  }

  lemma SettledStale(room: Room, sub: Submission, freshId: Uuid, after: Room)
    requires after.responses == room.responses && forall q :: !Asks(room.session, sub, q)
    ensures Settled(room, sub, freshId, after, StaleQuestion)
  {
    hide Asks;
  }

  lemma SettledInvalid(room: Room, sub: Submission, q: Question, freshId: Uuid, after: Room)
    requires Asks(room.session, sub, q) && forall t | Asks(room.session, sub, t) :: t == q
    requires after.responses == room.responses && Validate(q, sub.answer).Some?
    ensures Settled(room, sub, freshId, after, InvalidAnswer(Validate(q, sub.answer).value))
  {
    hide Asks, Validate, InWindow, HasAnswered, Correct, Score, TimingOf;
  }

  lemma SettledAs(room: Room, sub: Submission, q: Question, freshId: Uuid, after: Room, reply: SubmitReply)
    requires Asks(room.session, sub, q) && forall t | Asks(room.session, sub, t) :: t == q
    requires Validate(q, sub.answer).None?
    requires var s, r := room.session, RecordOf(sub, q, room.session, freshId);
             if !InWindow(s, sub) then
               && after.responses == room.responses
               && reply == if StillShown(s, sub) then QuestionClosed else StaleQuestion
             else if HasAnswered(room.responses, sub) then
               after.responses == room.responses && reply == AlreadyAnswered
             else after.responses == room.responses + [r] && reply == Ack(freshId, r.score, false)
    ensures Settled(room, sub, freshId, after, reply)
  {
    hide Validate, Correct, Score, TimingOf, Asks, InWindow, StillShown, HasAnswered, SubmissionHash;
    assert |room.responses + [RecordOf(sub, q, room.session, freshId)]| != |room.responses|;
  }
}
