/**
 * Concurrent rooms in the terms of clocks and requests: when answer windows open and close, which
 * answers get in, what a reveal leads to, and which repeated requests count as the same.
 */
module LiveWindows {
  import opened Common
  import opened SessionModel
  import opened SessionRuns
  import opened SessionSteps
  import opened ResponsePolicy
  import opened SessionStore
  import opened LiveProtocol
  import opened LiveInvariants
  import opened LiveTheorems
  import opened LiveRuns
  import opened FrozenCardRules

  // ---------------------------------------------------------------- windows

  /**
   * Every session of a room that handlers can reach opens its question at the clock of the step that
   * committed it; a timed room closes it its limit later, an untimed one never; nothing else has a
   * window, and the session is finished at the clock of its last step. Settings never change.
   */
  lemma WindowsFollowTheClock(p: Protocol, content: Content, k: nat)
    requires Reachable(p, content) && k < |p.log|
    ensures |p.clocks| == |p.log|
    ensures var s, now := p.log[k], p.clocks[k];
            && (s.phase == QuestionOpen ==>
                  && 0 <= s.index < |s.content.blocks| && s.content.blocks[s.index].QuestionBlock?
                  && s.openedAt == Some(now)
                  && (s.flex ==> s.closesAt == None)
                  && (!s.flex ==> s.closesAt == Some(now + 1000 * s.content.blocks[s.index].question.timeLimitSeconds)))
            && (s.phase != QuestionOpen ==> s.openedAt == None && s.closesAt == None)
            && (s.finishedAt == if s.status == Finished then Some(now) else None)
            && s.flex == p.log[0].flex && s.cardsEnabled == p.log[0].cardsEnabled
            && s.liveExpiresAt == p.log[0].liveExpiresAt
  {
    hide Reachable, LogTip, LogLegal, TasksOk, ReceiptsOk, StageOk, RoomOk, AdmissionsOk, LogGrows;
    ReachableInv(p, content);
    assert OnTime(p.log[k], p.clocks[k]) && SameSettings(p.log[k], p.log[0]);
  }

  /**
   * Every stored response was received while its own question was open: from the clock of the step
   * that opened it on, in a timed room no later than the limit after that, and before the room expired.
   */
  lemma AnswersAreInTime(p: Protocol, content: Content, k: nat)
    requires Reachable(p, content) && k < |p.room.responses|
    ensures |p.admissions| == |p.room.responses| && |p.clocks| == |p.log| && p.admissions[k].revision < |p.log|
    ensures var r, s := p.room.responses[k], p.log[p.admissions[k].revision];
            var opening := p.clocks[p.admissions[k].revision];
            && s.status == Active && s.phase == QuestionOpen && 0 <= s.index < |s.content.blocks|
            && var b := s.content.blocks[s.index];
               && b.QuestionBlock? && b.id == r.blockId && b.question.id == r.questionId
               && opening <= r.submittedAt < s.liveExpiresAt
               && (!s.flex ==> r.submittedAt <= opening + 1000 * b.question.timeLimitSeconds)
  {
    hide Reachable, ScoredFrom, ResponseFits;
    AdmissionFacts(p, content, k);
    WindowsFollowTheClock(p, content, p.admissions[k].revision);
  }

  /**
   * An answer is stored under exactly these conditions: its key and its block are new for the
   * participant, the participant has joined, and it names the question and the revision now open and
   * was received inside its window. Otherwise the room stays as it is.
   */
  lemma AnswersAreAcceptedExactly(room: Room, r: Response, expectedRevision: nat)
    ensures AcceptResponse(room, r, expectedRevision).1.Accepted?
            <==> var s := room.session;
                 && (forall t | t in room.responses && t.participantId == r.participantId ::
                       t.blockId != r.blockId && (r.key != None ==> t.key != r.key))
                 && (exists i :: 0 <= i < |room.participants| && room.participants[i].id == r.participantId)
                 && s.status == Active && s.phase == QuestionOpen && s.revision == expectedRevision
                 && 0 <= s.index < |s.content.blocks| && s.content.blocks[s.index].QuestionBlock?
                 && s.content.blocks[s.index].id == r.blockId && s.content.blocks[s.index].question.id == r.questionId
                 && s.openedAt != None && s.openedAt.value <= r.submittedAt < s.liveExpiresAt
                 && (s.closesAt != None ==> r.submittedAt <= s.closesAt.value)
    ensures AcceptResponse(room, r, expectedRevision).0
            == if AcceptResponse(room, r, expectedRevision).1.Accepted?
               then room.(eventSeq := room.eventSeq + 1, responses := room.responses + [r]) else room
  {
    hide FindByKey, FindByBlock;
  }

  lemma LimitIsPositive(c: Content, b: Block)
    requires ContentOk(c) && b in c.blocks && b.QuestionBlock?
    ensures 5 <= b.question.timeLimitSeconds <= 300
  {
    var i :| 0 <= i < |c.blocks| && c.blocks[i] == b;
  }

  /**
   * A response whose handler had read the session it was committed against took exactly the time since
   * its question opened, and if right earned the points that time leaves: in a timed room the nearest
   * whole number to the base points less half of them in proportion, in an untimed one all of them.
   */
  lemma StoredPointsFollowTheClock(p: Protocol, content: Content, k: nat)
    requires Reachable(p, content) && k < |p.room.responses|
    requires |p.admissions| == |p.room.responses| && p.admissions[k].readAt == p.admissions[k].revision
    ensures |p.clocks| == |p.log| && p.admissions[k].revision < |p.log|
    ensures var r, s := p.room.responses[k], p.log[p.admissions[k].revision];
            var e := r.submittedAt - p.clocks[p.admissions[k].revision];
            && 0 <= s.index < |s.content.blocks| && s.content.blocks[s.index].QuestionBlock?
            && var q := s.content.blocks[s.index].question;
               && r.responseMs == e && r.correct == Correct(q, r.answer)
               && (if q.kind == Poll || q.kind == Rating || r.correct != Some(true) then r.score == 0
                   else if s.flex then r.score == q.basePoints
                   else 0 <= e <= 1000 * q.timeLimitSeconds
                        && NearestPoints(r.score, q.basePoints, e, 1000 * q.timeLimitSeconds))
  {
    hide Reachable, ScoredFrom, ResponseFits, WindowOpen, Correct, Validate, TimingOf, Score, NearestPoints;
    hide ContentOk, SameTiming;
    var r, adm := p.room.responses[k], p.admissions[k];
    TimingIsRightExactlyWhenTheReadAgrees(p, content, k);
    AnswersAreInTime(p, content, k);
    WindowsFollowTheClock(p, content, adm.revision);
    LogContentIsOk(p, content, adm.revision);
    var s := p.log[adm.revision];
    LimitIsPositive(s.content, s.content.blocks[s.index]);
    OnlyRightAnswersEarn(s.content.blocks[s.index].question, r.answer, r.correct, TimingOf(s, r.submittedAt).remaining);
    if s.flex {
      UntimedPoints(s, p.clocks[adm.revision], r.submittedAt);
    } else {
      PointsFollowTheElapsedTime(s, p.clocks[adm.revision], r.submittedAt);
    }
  }

  // ---------------------------------------------------------------- reveals and interventions

  lemma {:induction false} LogContentIsOk(p: Protocol, content: Content, k: nat)
    requires Reachable(p, content) && k < |p.log|
    ensures ContentOk(p.log[k].content)
  {
    hide LegalStep, Take, ContentOk, Run;
    EveryCommitIsALegalStep(p, content);
    if k == 0 {
      var cardsEnabled: bool, flex: bool, liveExpiresAt: int, moves: seq<Move> :|
        p == Run(Opening(NewSession(content, cardsEnabled, flex, liveExpiresAt)), moves);
      FirstSessionStays(Opening(NewSession(content, cardsEnabled, flex, liveExpiresAt)), moves);
    } else {
      LogContentIsOk(p, content, k - 1);
      var step := LegalStepIsTake(p.log[k - 1], p.log[k]);
      TakeKeepsContent(Stage(p.log[k - 1], []), step);
    }
  }

  lemma RevealStep(before: Session, after: Session)
    requires LegalStep(before, after) && WellPlaced(before) && ContentOk(before.content)
    requires before.phase == QuestionReveal && LinkedDiagnostic(before.content.blocks[before.index])
    ensures after.phase == Intervention && after.index == before.index && after.content == before.content
  {
    hide ContentOk, Compute, WellPlaced;
    var step: Step :| IsStep(before, step, after);
    LinkedRevealOnlyIntervenes(before, step.action, step.commandId, step.lib);
  }

  /** A revealed linked diagnostic is never left except through an intervention at the same block. */
  lemma RevealedDiagnosticsIntervene(p: Protocol, content: Content, k: nat)
    requires Reachable(p, content) && k + 1 < |p.log|
    requires p.log[k].phase == QuestionReveal
    ensures 0 <= p.log[k].index < |p.log[k].content.blocks|
    ensures LinkedDiagnostic(p.log[k].content.blocks[p.log[k].index]) ==>
              p.log[k + 1].phase == Intervention && p.log[k + 1].index == p.log[k].index
              && p.log[k + 1].content == p.log[k].content
  {
    hide Reachable, LegalStep, ContentOk;
    EveryCommitIsALegalStep(p, content);
    LogIsPlaced(p, content, k);
    LogContentIsOk(p, content, k);
    assert LegalStep(p.log[k], p.log[k + 1]);
    if LinkedDiagnostic(p.log[k].content.blocks[p.log[k].index]) {
      RevealStep(p.log[k], p.log[k + 1]);
    }
  }

  lemma InterventionStep(before: Session, after: Session)
    requires LegalStep(before, after) && WellPlaced(before) && after.phase == Intervention
    ensures before.phase == QuestionReveal && after.index == before.index && 0 <= before.index < |before.content.blocks|
    ensures LinkedDiagnostic(before.content.blocks[before.index])
            || (after.intervention.Some? && after.intervention.value.reference in FrozenCards(before))
  {
    hide ContentOk, FrozenCards, Compute, QuickCheckInsertionTransition, PublishedInsertionTransition;
    hide PackInsertionTransition;
    var step: Step :| IsStep(before, step, after);
    CardOrNext(before, step.action, step.commandId, step.lib);
  }

  lemma CardOrNext(s: Session, action: Action, commandId: Uuid, lib: Library)
    requires WellPlaced(s) && Compute(s, action, commandId, lib).Success?
             && Compute(s, action, commandId, lib).value.Some?
    requires Compute(s, action, commandId, lib).value.value.phase == Intervention
    ensures var t := Compute(s, action, commandId, lib).value.value;
            && s.phase == QuestionReveal && t.index == s.index && 0 <= s.index < |s.content.blocks|
            && (LinkedDiagnostic(s.content.blocks[s.index])
                || (t.intervention.Some? && t.intervention.value.reference in FrozenCards(s)))
  {
    hide ContentOk, FrozenCards;
    if action.StartCard? {
      FoundIsOffered(FrozenCards(s), action.insertionId, action.cardId);
    }
  }

  lemma {:induction false} FoundIsOffered(refs: seq<CardReference>, insertionId: Uuid, cardId: Uuid)
    ensures FindReference(refs, insertionId, cardId).Some? ==> FindReference(refs, insertionId, cardId).value in refs
  {
    if refs != [] {
      FoundIsOffered(refs[1..], insertionId, cardId);
    }
  }

  /**
   * And an intervention only ever follows a reveal at the same block, of a linked diagnostic or with an
   * offered card.
   */
  lemma InterventionsFollowReveals(p: Protocol, content: Content, k: nat)
    requires Reachable(p, content) && k + 1 < |p.log| && p.log[k + 1].phase == Intervention
    ensures p.log[k].phase == QuestionReveal && p.log[k + 1].index == p.log[k].index
    ensures 0 <= p.log[k].index < |p.log[k].content.blocks|
    ensures LinkedDiagnostic(p.log[k].content.blocks[p.log[k].index])
            || (p.log[k + 1].intervention.Some? && p.log[k + 1].intervention.value.reference in FrozenCards(p.log[k]))
  {
    hide Reachable, LegalStep, FrozenCards;
    EveryCommitIsALegalStep(p, content);
    LogIsPlaced(p, content, k);
    assert LegalStep(p.log[k], p.log[k + 1]);
    InterventionStep(p.log[k], p.log[k + 1]);
  }

  // ---------------------------------------------------------------- fresh requests commit

  /** Whatever the rules compute passes the repository's own attribution check. */
  lemma ComputedIsAttributed(s: Session, action: Action, commandId: Uuid, lib: Library)
    requires Compute(s, action, commandId, lib).Success? && Compute(s, action, commandId, lib).value.Some?
    ensures AttributionOk(s, Compute(s, action, commandId, lib).value.value)
  {
    hide ContentOk, FrozenCards;
    if action.StartCard? {
      FoundIsOffered(FrozenCards(s), action.insertionId, action.cardId);
      if FrozenCards(s) != [] {
        NobodyElseOffersCards(s);
      }
    }
  }

  /**
   * A new command computed from the current session commits: one revision and one event on, with its
   * receipt, unless the published source it copies from has gone.
   */
  lemma CurrentCommandsCommit(room: Room, c: Command, lib: Library, now: int, sourceAvailable: bool)
    requires c.expectedRevision == room.session.revision && c.id !in room.receipts
    requires Compute(room.session, c.action, c.id, lib).Success?
             && Compute(room.session, c.action, c.id, lib).value.Some?
    requires Compute(room.session, c.action, c.id, lib).value.value.fromPublishedSource ==> sourceAvailable
    ensures var t := Compute(room.session, c.action, c.id, lib).value.value;
            var (after, reply) :=
              TransitionSessionCommand(room, c.id, HashOf(c), c.expectedRevision, t, now, sourceAvailable);
            && reply == Updated(after.session) && after.session == Commit(room.session, t, now)
            && after.session.revision == room.session.revision + 1 && after.eventSeq == room.eventSeq + 1
            && after.timeline == room.timeline + [t.event]
            && after.receipts == room.receipts[c.id := Receipt(Some(RequestHash(c.expectedRevision, c.action)),
                                                               room.session.revision, room.session.revision + 1)]
            && after.responses == room.responses && after.participants == room.participants
  {
    hide ContentOk, FrozenCards, Compute;
    ComputedIsAttributed(room.session, c.action, c.id, lib);
  }

  /** Which transitions carry a card the session may show, attributed alike in session and timeline. */
  predicate Attributed(s: Session, t: Transition) {
    && (t.intervention != None ==> t.phase == Intervention && t.status == Active && s.cardsEnabled)
    && (t.event.intervention != None ==>
          t.event.kind == InterventionPresented && t.event.intervention == t.intervention)
  }

  /**
   * The repository commits a transition exactly when it is fenced by the current revision and properly
   * attributed: one revision, one event and one step of the sequence, and nothing else of the room.
   */
  lemma TransitionsCommitExactly(room: Room, expectedRevision: nat, t: Transition, now: int)
    ensures var (after, reply) := TransitionSession(room, expectedRevision, t, now);
            && (reply.RevisionConflict? <==> expectedRevision != room.session.revision)
            && (reply == Rejected <==> expectedRevision == room.session.revision && !Attributed(room.session, t))
            && (reply.Updated? <==> expectedRevision == room.session.revision && Attributed(room.session, t))
            && (!reply.Updated? ==> after == room)
            && (reply.Updated? ==>
                  && reply.session == after.session && after.session.revision == room.session.revision + 1
                  && after.session.phase == t.phase && after.session.index == t.index
                  && after.session.status == t.status && after.session.intervention == t.intervention
                  && after.session.content == (if t.content == None then room.session.content else t.content.value)
                  && after.timeline == room.timeline + [t.event] && after.eventSeq == room.eventSeq + 1
                  && after.receipts == room.receipts && after.participants == room.participants
                  && after.responses == room.responses)
  {
  }

  // ---------------------------------------------------------------- what counts as the same request

  /** A copy matches a committed command exactly when it asks for the same action from the same revision. */
  lemma SameCommandExactly(p: Protocol, content: Content, c: Command)
    requires Reachable(p, content) && c.id in p.room.receipts
    ensures p.room.receipts[c.id].requestHash.Some?
    ensures ReceiptIsFor(p.room.receipts[c.id], c)
            <==> c.expectedRevision == p.room.receipts[c.id].expectedRevision
                 && c.action == p.room.receipts[c.id].requestHash.value.action
  {
    hide Reachable;
    ReceiptStandsForItsCommit(p, content, c.id);
  }

  /**
   * A submission repeats a stored response exactly when it is for the same block and the revision the
   * response was committed at, and picks the same choices, in any order, with the same other values.
   */
  lemma SameSubmissionExactly(p: Protocol, content: Content, k: nat, sub: Submission)
    requires Reachable(p, content) && k < |p.room.responses|
    ensures |p.admissions| == |p.room.responses|
    ensures var r := p.room.responses[k];
            HashMatches(sub, r)
            <==> sub.blockId == r.blockId && sub.expectedRevision == p.admissions[k].revision
                 && multiset(Selected(sub.answer)) == multiset(Selected(r.answer))
                 && sub.answer.numeric == r.answer.numeric && sub.answer.rating == r.answer.rating
                 && sub.answer.confidence == r.answer.confidence
  {
    hide TasksOk, ReceiptsOk, StageOk, LogTip, LogLegal, LogGrows, RoomOk, ClocksOk, Reachable, ScoredFrom, WindowOpen;
    ReachableInv(p, content);
    assert AdmissionOk(p.log, p.room.responses[k], p.admissions[k]);
  }

  // ---------------------------------------------------------------- seats

  predicate SeatsAtMost(moves: seq<Move>, limit: nat) {
    forall i | 0 <= i < |moves| && moves[i].Join? :: moves[i].limit <= limit
  }

  lemma NextKeepsSeats(p: Protocol, move: Move, limit: nat)
    requires move.Join? ==> move.limit <= limit
    requires |p.room.participants| <= limit
    ensures |Next(p, move).room.participants| <= limit
  {
    hide Compute, ContentOk, Commit, NextTransition, Prepared, SubmitPrepared, FindByKey, FindByBlock, WindowOpen;
    hide AdvancePrepared, Joined;
  }

  /** However handlers interleave, a room never seats more participants than the largest limit in force. */
  lemma {:induction false} SeatsAreLimited(p: Protocol, moves: seq<Move>, limit: nat)
    requires |p.room.participants| <= limit && SeatsAtMost(moves, limit)
    ensures |Run(p, moves).room.participants| <= limit
    decreases |moves|
  {
    hide Next;
    if moves != [] {
      NextKeepsSeats(p, moves[0], limit);
      SeatsAreLimited(Next(p, moves[0]), moves[1..], limit);
    }
  }
}
