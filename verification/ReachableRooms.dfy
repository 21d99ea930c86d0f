/** What snapshots and reports say about rooms that concurrent handlers can actually produce. */
module ReachableRooms {
  import opened Common
  import opened SessionModel
  import opened SessionRuns
  import opened ResponsePolicy
  import opened SessionStore
  import opened LiveProtocol
  import opened LiveInvariants
  import opened LiveTheorems
  import opened Leaderboards
  import opened Projections
  import opened Reporting

  lemma {:induction false} FoundReference(refs: seq<CardReference>, insertionId: Uuid, cardId: Uuid)
    ensures var found := FindReference(refs, insertionId, cardId);
            found.Some? ==>
              found.value in refs && found.value.insertionId == insertionId && found.value.cardId == cardId
  {
    if refs != [] {
      FoundReference(refs[1..], insertionId, cardId);
    }
  }

  lemma SameCards(before: Session, after: Session)
    requires after.content == before.content && after.index == before.index && after.cardsEnabled == before.cardsEnabled
    ensures FrozenCards(after) == FrozenCards(before)
  {
  }

  lemma CardStepPlaysItsCard(before: Session, step: Step, after: Session)
    requires IsStep(before, step, after) && after.phase.Intervention? && after.intervention.Some?
    ensures step.action.StartCard?
    ensures Playback(after) == after.intervention
    ensures var shown := after.intervention.value;
            shown.kind == step.action.kind && shown.reference.insertionId == step.action.insertionId
            && shown.reference.cardId == step.action.cardId
  {
    hide FrozenCards, ContentOk, CanInsertQuickCheck, CanInsertPublished, CanInsertPack;
    if step.action.StartCard? {
      FoundReference(FrozenCards(before), step.action.insertionId, step.action.cardId);
      SameCards(before, after);
    }
  }

  /** Whenever a reachable room is in an intervention that names a card, everyone is shown that card. */
  lemma StartedCardIsPlayed(p: Protocol, content: Content)
    requires Reachable(p, content) && p.room.session.phase.Intervention?
    ensures Playback(p.room.session) == p.room.session.intervention
  {
    hide Reachable, ContentOk, FrozenCards, IsStep, Compute;
    EveryCommitIsALegalStep(p, content);
    ReachableInv(p, content);
    StartsInLobby(p, content);
    var s := p.room.session;
    if s.intervention.Some? {
      assert LegalStep(p.log[s.revision - 1], p.log[s.revision]);
      var step: Step :| IsStep(p.log[s.revision - 1], step, p.log[s.revision]);
      CardStepPlaysItsCard(p.log[s.revision - 1], step, s);
    }
  }

  lemma StartsInLobby(p: Protocol, content: Content)
    requires Reachable(p, content)
    ensures p.room.session.revision == 0 ==> p.room.session.phase.Lobby?
  {
    hide ContentOk, Run;
    var cardsEnabled: bool, flex: bool, liveExpiresAt: int, moves: seq<Move> :|
      p == Run(Opening(NewSession(content, cardsEnabled, flex, liveExpiresAt)), moves);
    FirstSessionStays(Opening(NewSession(content, cardsEnabled, flex, liveExpiresAt)), moves);
    EveryCommitIsALegalStep(p, content);
  }

  lemma CardStepShows(before: Session, action: Action, id: Uuid, after: Session)
    requires CommitsAction(before, action, id, after) && action.StartCard?
    ensures after.phase == Intervention && after.intervention.Some? && Playback(after) == after.intervention
    ensures after.intervention.value.kind == action.kind
    ensures after.intervention.value.reference.insertionId == action.insertionId
    ensures after.intervention.value.reference.cardId == action.cardId
  {
    hide FrozenCards, ContentOk;
    var step: Step :| step.action == action && step.commandId == id && IsStep(before, step, after);
    CardStepPlaysItsCard(before, step, after);
  }

  /** A committed card command put exactly its card on everybody's screen. */
  lemma CommittedCardIsPlayed(p: Protocol, content: Content, id: Uuid)
    requires Reachable(p, content) && id in p.room.receipts
    requires p.room.receipts[id].requestHash.Some? && p.room.receipts[id].requestHash.value.action.StartCard?
    ensures p.room.receipts[id].resultingRevision < |p.log|
    ensures var action, s := p.room.receipts[id].requestHash.value.action, p.log[p.room.receipts[id].resultingRevision];
            && s.phase == Intervention && s.intervention.Some? && Playback(s) == s.intervention
            && s.intervention.value.kind == action.kind
            && s.intervention.value.reference.insertionId == action.insertionId
            && s.intervention.value.reference.cardId == action.cardId
  {
    hide Reachable, FrozenCards, CommitsAction;
    ReceiptStandsForItsCommit(p, content, id);
    var r := p.room.receipts[id];
    CardStepShows(p.log[r.expectedRevision], r.requestHash.value.action, id, p.log[r.resultingRevision]);
  }

  /** In every reachable room the points on the board are the points the blocks show. */
  lemma ReachablePointsAreConserved(p: Protocol, content: Content)
    requires Reachable(p, content)
    ensures var report := ReportOf(p.room);
            Total(report.leaderboard, BoardScore) == Total(report.evidence, EvidenceScore)
  {
    hide Reachable, TasksOk, ReceiptsOk, LogTip, LogLegal, AdmissionsOk, LogGrows, ReportOf, RunInvariant, ResponsesFit;
    ReachableInv(p, content);
    PointsAreConserved(p.room);
  }

  /** In every reachable room an acknowledgement agrees with the full snapshot exactly for the latest receipt. */
  lemma ReachableAcknowledgements(p: Protocol, content: Content, now: int, r: Response, data: ProjectionData)
    requires Reachable(p, content) && r in p.room.responses && r.key.Some?
    requires DataOk(data, p.room.session, ListParticipants(p.room), ListResponses(p.room))
    ensures var s := p.room.session;
            var small := SmallProjectionOf(p.room, r.participantId, CurrentBlockId(s), !s.phase.QuestionOpen?);
            && small.Some?
            && (AcknowledgedView(s, p.room.eventSeq, now, r.participantId, small.value, r, r.key.value)
                == ParticipantView(s, p.room.eventSeq, now, r.participantId, data)
                <==> LatestFor(p.room.responses, r.participantId) == Some(r))
  {
    hide Reachable, TasksOk, ReceiptsOk, LogTip, LogLegal, StageOk, AdmissionsOk, LogGrows, ResponseFits, DataOk;
    hide AcknowledgedView, ParticipantView, LatestFor, SmallProjectionOf;
    ReachableInv(p, content);
    var k :| 0 <= k < |p.room.responses| && p.room.responses[k] == r;
    assert Joined(p.room.participants, p.room.responses[k].participantId);
    AcknowledgementMatchesFullSnapshot(p.room, now, r.participantId, r, r.key.value, data);
  }
}
