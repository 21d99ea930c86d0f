/**
 * What the screens of a room say once a question has been answered: the key, everybody's own result,
 * the boards, the counts, and whether answers are still taken.
 */
module ShownAnswers {
  import opened Common
  import opened SessionModel
  import opened SessionRuns
  import opened SessionSteps
  import opened ResponsePolicy
  import opened SessionStore
  import opened Leaderboards
  import opened Projections

  // ---------------------------------------------------------------- the key

  /** What a reader of the shown key would say of an answer. */
  ghost function GradeBy(key: RevealedAnswer, a: Answer): Option<bool> {
    match key
    case UnscoredKey => None
    case NumericKey(value, tolerance) =>
      Some(a.numeric.Some? && a.numeric.value.value.Some?
           && value - tolerance <= a.numeric.value.value.value <= value + tolerance)
    case ChoiceKey(correct) => Some(forall id: Id :: id in Selected(a) <==> id in correct)
  }

  lemma {:induction false} MappedIds(choices: seq<Choice>, id: Id)
    ensures id in Map(choices, ChoiceId) <==> exists c :: c in choices && c.id == id
  {
    if id in Map(choices, ChoiceId) {
      var i :| 0 <= i < |choices| && Map(choices, ChoiceId)[i] == id;
      assert choices[i] in choices;
    }
    if c :| c in choices && c.id == id {
      var i :| 0 <= i < |choices| && choices[i] == c;
      assert Map(choices, ChoiceId)[i] == id;
    }
  }

  lemma KeyListsTheCorrectChoices(q: Question, id: Id)
    requires q.kind != Numeric && q.kind != Rating && q.kind != Poll
    ensures RevealedAnswerOf(q).ChoiceKey?
    ensures id in RevealedAnswerOf(q).correct <==> id in CorrectChoices(q.choices)
  {
    var right := (c: Choice) => c.isCorrect;
    MappedIds(Filter(q.choices, right), id);
    if c :| c in Filter(q.choices, right) && c.id == id {
      FilterMember(q.choices, right, c);
      var i :| 0 <= i < |q.choices| && q.choices[i] == c;
      assert q.choices[i].id in CorrectChoices(q.choices);
    }
    if id in CorrectChoices(q.choices) {
      var i :| 0 <= i < |q.choices| && q.choices[i].isCorrect && q.choices[i].id == id;
      FilterMember(q.choices, right, q.choices[i]);
    }
  }

  /** The key that is shown grades every answer the way the engine does. */
  lemma ShownKeyGradesLikeTheEngine(q: Question, a: Answer)
    ensures GradeBy(RevealedAnswerOf(q), a) == Correct(q, a)
  {
    if q.kind != Numeric && q.kind != Rating && q.kind != Poll {
      hide RevealedAnswerOf, CorrectChoices, Correct;
      CorrectMeansExactlyTheCorrectChoices(q, a);
      forall id: Id ensures id in RevealedAnswerOf(q).correct <==> id in CorrectChoices(q.choices) {
        KeyListsTheCorrectChoices(q, id);
      }
      KeyListsTheCorrectChoices(q, q.id);
      forall id: Id ensures id in Chosen(a) <==> id in Selected(a) {
      }
    }
  }

  /**
   * Facilitators see a question with its choices in order, and its key exactly from the reveal on; a
   * companion and the participants never get the key in the block itself.
   */
  lemma KeyIsShownExactlyFromTheReveal(
    s: Session, eventSeq: nat, now: int, viewer: Uuid, data: ProjectionData, connected: set<Uuid>,
    canInsert: (bool, bool, bool), participants: seq<Participant>, responses: seq<Response>)
    requires 0 <= s.index < |s.content.blocks| && s.content.blocks[s.index].QuestionBlock?
    ensures var b := s.content.blocks[s.index];
            var host := HostView(s, eventSeq, now, data, connected).block;
            && host.FacilitatorQuestion? && host.id == b.id && host.question.id == b.question.id
            && host.purpose == b.question.purpose && host.recheckAvailable == (b.question.linkedRecheck != None)
            && host.question.kind == b.question.kind && host.question.confidence == b.question.confidence
            && host.question.timeLimitSeconds == b.question.timeLimitSeconds
            && host.question.basePoints == b.question.basePoints && host.question.hasMedia == b.question.hasMedia
            && host.question.scale
               == (if b.question.kind == Rating then Some((b.question.min, b.question.max)) else None)
            && |host.question.choices| == |b.question.choices|
            && (forall i | 0 <= i < |b.question.choices| :: host.question.choices[i] == b.question.choices[i].id)
            && (host.revealed.Some? <==> s.phase == QuestionReveal || s.phase == Intervention || s.phase == Done)
            && (host.revealed.Some? ==> forall a: Answer :: GradeBy(host.revealed.value, a) == Correct(b.question, a))
            && ListView(s, eventSeq, now, participants, responses).block == host
            && ParticipantView(s, eventSeq, now, viewer, data).block == PublicQuestion(b.id, host.question)
            && CompanionView(s, eventSeq, now, data, connected, canInsert).block == PublicQuestion(b.id, host.question)
  {
    hide Correct, GradeBy, RevealedAnswerOf, Ranking, FrozenCards, ConnectedCount, ResponseCount, SummaryOf;
    hide OutcomeOf, StandingOf, HeaderOf;
    forall a: Answer
      ensures GradeBy(RevealedAnswerOf(s.content.blocks[s.index].question), a)
              == Correct(s.content.blocks[s.index].question, a)
    {
      ShownKeyGradesLikeTheEngine(s.content.blocks[s.index].question, a);
    }
  }

  // ---------------------------------------------------------------- one's own result

  predicate Listed(room: Room, data: ProjectionData) {
    && data.participants == ListParticipants(room) && data.responses == ListResponses(room)
    && data.leaderboard == Ranking(ListParticipants(room), ListResponses(room))
    && data.facilitatorLeaderboard
       == Ranking(ListParticipants(room), FacilitatorVisible(room.session, ListResponses(room)))
  }

  /**
   * A participant who answered the block on show is told so at once, and exactly from the reveal on
   * whether the stored answer was right and what it earned; one who did not is told neither.
   */
  lemma OwnResultIsShownExactlyFromTheReveal(room: Room, now: int, viewer: Uuid, data: ProjectionData, r: Response)
    requires OneAnswerEach(room.responses)
    requires DataOk(data, room.session, ListParticipants(room), ListResponses(room))
    requires 0 <= room.session.index < |room.session.content.blocks|
    ensures var s := room.session;
            var blockId := s.content.blocks[s.index].id;
            var view := ParticipantView(s, room.eventSeq, now, viewer, data);
            && (r in room.responses && r.participantId == viewer && r.blockId == blockId ==>
                  && view.submitted
                  && view.outcome == if s.phase == QuestionReveal || s.phase == Intervention || s.phase == Done
                                     then Some(Outcome(r.correct, r.score)) else None)
            && ((forall t | t in room.responses :: t.participantId == viewer ==> t.blockId != blockId) ==>
                  !view.submitted && view.outcome == None)
  {
    hide DataOk, Ranking, HeaderOf, ViewOf, StandingOf, LatestFor, ReceiptedOf, ReceiptIn, OneAnswerEach;
    hide LastFor, FindByBlock;
    var s := room.session;
    var blockId := s.content.blocks[s.index].id;
    ListedAnswer(room, viewer, data, blockId);
    if r in room.responses && r.participantId == viewer && r.blockId == blockId {
      CurrentAnswerIs(room.responses, viewer, blockId, r);
    }
  }

  lemma ListedAnswer(room: Room, viewer: Uuid, data: ProjectionData, blockId: Id)
    requires OneAnswerEach(room.responses)
    requires DataOk(data, room.session, ListParticipants(room), ListResponses(room))
    ensures AnswerIn(data, viewer, blockId) == FindByBlock(room.responses, viewer, blockId)
    ensures var found := FindByBlock(room.responses, viewer, blockId);
            found.Some? ==> found.value in room.responses && AnswersBlock(found.value, viewer, blockId)
  {
    hide Ranking, FacilitatorVisible, LatestFor, FindByBlock, LastFor;
    ListsArrange(room);
    FirstIsLast(room.responses, ListResponses(room), viewer, blockId);
  }

  /** Between questions a participant is shown their own points; while a question is open, no standing. */
  lemma StandingIsShownBetweenQuestions(
    s: Session, eventSeq: nat, now: int, participants: seq<Participant>, responses: seq<Response>,
    data: ProjectionData, p: Participant)
    requires DataOk(data, s, participants, responses) && RosterOk(participants) && p in participants
    ensures var view := ParticipantView(s, eventSeq, now, p.id, data);
            && view.participantCount == |participants|
            && (view.standing == None <==> s.phase == QuestionOpen)
            && (view.standing.Some? ==> view.standing.value.score == Collected(p.id, responses))
  {
    hide Ranking, HeaderOf, ViewOf, StandingOf, LastFor, LatestFor, ReceiptedOf, OutcomeOf, Collected, ScoreOf;
    StandingIsRankAndScore(participants, responses, p);
    CollectedIsScore(p.id, responses);
  }

  /**
   * The facilitator's board gives everyone the points of all their responses, but for those to the
   * question that is open.
   */
  lemma BoardCountsClosedQuestions(
    s: Session, eventSeq: nat, now: int, participants: seq<Participant>, responses: seq<Response>,
    data: ProjectionData, connected: set<Uuid>, p: Participant)
    requires DataOk(data, s, participants, responses) && RosterOk(participants) && p in participants
    ensures var board := HostView(s, eventSeq, now, data, connected).participants;
            var counted := if s.phase == QuestionOpen && 0 <= s.index < |s.content.blocks|
                              && s.content.blocks[s.index].QuestionBlock?
                           then CollectedElsewhere(p.id, s.content.blocks[s.index].id, responses)
                           else Collected(p.id, responses);
            && |board| == |participants|
            && StandingOf(board, p.id).Some? && StandingOf(board, p.id).value.score == counted
            && ListView(s, eventSeq, now, participants, responses).leaderboard == board
  {
    hide Ranking, HeaderOf, ViewOf, StandingOf, LastFor, LatestFor, Collected, ScoreOf, CollectedElsewhere, Filter;
    hide ConnectedCount, ResponseCount, FrozenCards;
    var visible := FacilitatorVisible(s, responses);
    BoardIds(participants, visible);
    StandingIsRankAndScore(participants, visible, p);
    CollectedIsScore(p.id, visible);
    if QuestionOnShow(s) {
      ElsewhereIsFiltered(p.id, CurrentBlock(s).value.id, responses);
    }
  }

  /** The points of a participant but for those of one block. */
  function CollectedElsewhere(participantId: Uuid, blockId: Id, responses: seq<Response>): int {
    if responses == [] then 0
    else (if responses[0].participantId == participantId && responses[0].blockId != blockId
          then responses[0].score else 0)
         + CollectedElsewhere(participantId, blockId, responses[1..])
  }

  lemma {:induction false} ElsewhereIsFiltered(participantId: Uuid, blockId: Id, responses: seq<Response>)
    ensures Collected(participantId, Filter(responses, Elsewhere(blockId)))
            == CollectedElsewhere(participantId, blockId, responses)
  {
    if responses != [] {
      var rest := Filter(responses[1..], Elsewhere(blockId));
      ElsewhereIsFiltered(participantId, blockId, responses[1..]);
      assert ([responses[0]] + rest)[1..] == rest && [] + rest == rest;
    }
  }

  // ---------------------------------------------------------------- counts

  /** The places of a sequence that hold an element to keep. */
  function Places<T>(xs: seq<T>, keep: T -> bool): set<int> {
    set i | 0 <= i < |xs| && keep(xs[i])
  }

  lemma {:induction false} FilterCountsPlaces<T>(xs: seq<T>, keep: T -> bool)
    ensures |Filter(xs, keep)| == |Places(xs, keep)|
  {
    if xs != [] {
      hide Filter;
      var n := |xs| - 1;
      var front, last := xs[..n], xs[n];
      assert xs == front + [last];
      FilterCountsPlaces(front, keep);
      FilterConcat(front, [last], keep);
      FilterOne(last, keep);
      assert Places(xs, keep) == Places(front, keep) + if keep(last) then {n} else {};
    }
  }

  lemma FilterOne<T>(x: T, keep: T -> bool)
    ensures Filter([x], keep) == if keep(x) then [x] else []
  {
    assert [x][1..] == [];
  }

  /** The places of the participants who are connected or were seen in the last fifteen seconds. */
  function Present(participants: seq<Participant>, connected: set<Uuid>, now: int): set<int> {
    set i | 0 <= i < |participants|
            && (participants[i].id in connected || now - 15000 <= participants[i].lastSeenAt)
  }

  /** The places of the responses to a block. */
  function AnswersTo(responses: seq<Response>, blockId: Id): set<int> {
    set i | 0 <= i < |responses| && responses[i].blockId == blockId
  }

  /** The places of the responses to a block that pick a choice. */
  function PicksOf(responses: seq<Response>, blockId: Id, choice: Id): set<int> {
    set i | 0 <= i < |responses| && responses[i].blockId == blockId && choice in Selected(responses[i].answer)
  }

  lemma PresentAreCounted(participants: seq<Participant>, connected: set<Uuid>, now: int)
    ensures ConnectedCount(participants, connected, now) == |Present(participants, connected, now)|
  {
    hide Filter;
    var present := (p: Participant) => p.id in connected || now - p.lastSeenAt <= PRESENCE_WINDOW_MS;
    FilterCountsPlaces(participants, present);
    assert Present(participants, connected, now) == Places(participants, present);
    assert ConnectedCount(participants, connected, now) == |Filter(participants, present)|;
  }

  lemma AnswersAreCounted(responses: seq<Response>, blockId: Id)
    ensures |Filter(responses, Here(blockId))| == |AnswersTo(responses, blockId)|
  {
    hide Filter;
    FilterCountsPlaces(responses, Here(blockId));
    assert AnswersTo(responses, blockId) == Places(responses, Here(blockId));
  }

  lemma {:induction false} FilterTwice<T>(xs: seq<T>, f: T -> bool, g: T -> bool, both: T -> bool)
    requires forall x :: both(x) <==> f(x) && g(x)
    ensures Filter(Filter(xs, f), g) == Filter(xs, both)
  {
    if xs != [] {
      FilterTwice(xs[1..], f, g, both);
      FilterHead(xs[0], Filter(xs[1..], f), g);
      assert [] + Filter(xs[1..], f) == Filter(xs[1..], f);
    }
  }

  lemma PicksAreCounted(responses: seq<Response>, blockId: Id, choice: Id)
    ensures |Filter(Filter(responses, Here(blockId)), Picks(choice))| == |PicksOf(responses, blockId, choice)|
  {
    hide Filter;
    var both := (r: Response) => r.blockId == blockId && choice in Selected(r.answer);
    FilterTwice(responses, Here(blockId), Picks(choice), both);
    FilterCountsPlaces(responses, both);
    assert PicksOf(responses, blockId, choice) == Places(responses, both);
  }

  /** The room status counts everybody, those present, and the answers to the question on show. */
  lemma RoomStatusCounts(s: Session, eventSeq: nat, now: int, data: ProjectionData, connected: set<Uuid>)
    ensures var status := HostView(s, eventSeq, now, data, connected).roomStatus;
            && status.joined == |data.participants|
            && status.connected == |Present(data.participants, connected, now)|
            && status.connected + status.notConnected == status.joined
            && (0 <= s.index < |s.content.blocks| && s.content.blocks[s.index].QuestionBlock? ==>
                  status.responseCount == |AnswersTo(data.responses, s.content.blocks[s.index].id)|)
            && var list := ListView(s, eventSeq, now, data.participants, data.responses);
               list.participantCount == status.joined && list.responseCount == status.responseCount
  {
    hide Filter, HeaderOf, ViewOf, FrozenCards, ConnectedCount, Present, AnswersTo, Ranking;
    PresentAreCounted(data.participants, connected, now);
    if 0 <= s.index < |s.content.blocks| && s.content.blocks[s.index].QuestionBlock? {
      AnswersAreCounted(data.responses, s.content.blocks[s.index].id);
    }
  }

  /**
   * A companion gets a result summary of the question on show exactly from the reveal on: how many
   * answered it, and for each choice in order how many of those picked it.
   */
  lemma SummaryCountsPicks(
    s: Session, eventSeq: nat, now: int, data: ProjectionData, connected: set<Uuid>, canInsert: (bool, bool, bool))
    requires 0 <= s.index < |s.content.blocks| && s.content.blocks[s.index].QuestionBlock?
    ensures var b := s.content.blocks[s.index];
            var summary := CompanionView(s, eventSeq, now, data, connected, canInsert).summary;
            && (summary.Some? <==> s.phase == QuestionReveal || s.phase == Intervention || s.phase == Done)
            && (summary.Some? ==>
                  && summary.value.blockId == b.id
                  && summary.value.responseCount == |AnswersTo(data.responses, b.id)|
                  && |summary.value.choiceCounts| == |b.question.choices|
                  && forall j | 0 <= j < |b.question.choices| ::
                       summary.value.choiceCounts[j]
                       == (b.question.choices[j].id, |PicksOf(data.responses, b.id, b.question.choices[j].id)|))
  {
    hide Filter, HeaderOf, ViewOf, FrozenCards, HostView, PicksOf, AnswersTo;
    var b := s.content.blocks[s.index];
    AnswersAreCounted(data.responses, b.id);
    forall j | 0 <= j < |b.question.choices|
      ensures |Filter(Filter(data.responses, Here(b.id)), Picks(b.question.choices[j].id))|
              == |PicksOf(data.responses, b.id, b.question.choices[j].id)|
    {
      PicksAreCounted(data.responses, b.id, b.question.choices[j].id);
    }
  }

  // ---------------------------------------------------------------- whether answers are taken

  /**
   * Every header says that answers are taken exactly when the store would take one: in an unexpired
   * active room, a first answer to the block on show, submitted at that moment under a new key.
   */
  lemma AcceptingExactlyWhenAnswersGetIn(room: Room, eventSeq: nat, now: int, r: Response)
    requires var s := room.session;
             && s.status == Active && now < s.liveExpiresAt && (s.phase == QuestionOpen ==> s.openedAt.Some?)
             && (s.openedAt.Some? ==> s.openedAt.value <= now)
             && r.submittedAt == now && Joined(room.participants, r.participantId)
             && (forall t | t in room.responses :: t.participantId != r.participantId)
    requires var s := room.session;
             0 <= s.index < |s.content.blocks| && s.content.blocks[s.index].QuestionBlock?
               && r.blockId == s.content.blocks[s.index].id && r.questionId == s.content.blocks[s.index].question.id
    ensures HeaderOf(room.session, eventSeq, now).accepting
            <==> AcceptResponse(room, r, room.session.revision).1 == Accepted(r)
    ensures var s, header := room.session, HeaderOf(room.session, eventSeq, now);
            && header.deadline == (if s.phase == QuestionOpen then s.closesAt else None)
            && header.openedAt == s.openedAt && header.finishedAt == s.finishedAt && header.now == now
            && header.status == s.status && header.phase == s.phase && header.index == s.index
            && header.blockCount == |s.content.blocks| && header.revision == s.revision
            && header.eventSeq == eventSeq && header.cardsEnabled == s.cardsEnabled && header.flex == s.flex
  {
    hide FindByKey, FindByBlock, FrozenCards;
  }

  // ---------------------------------------------------------------- what a host can do next

  /**
   * The host and the companion are offered exactly the cards that can be started, and the companion is
   * offered "next" exactly while it leads somewhere.
   */
  lemma OffersAreHonest(
    s: Session, eventSeq: nat, now: int, data: ProjectionData, connected: set<Uuid>, canInsert: (bool, bool, bool),
    insertionId: Uuid, cardId: Uuid, kind: InterventionKind)
    requires WellPlaced(s)
    ensures var cards := HostView(s, eventSeq, now, data, connected).cards;
            var companion := CompanionView(s, eventSeq, now, data, connected, canInsert);
            && companion.cards == cards
            && ((exists i :: 0 <= i < |cards| && cards[i].insertionId == insertionId && cards[i].cardId == cardId)
                <==> RecoveryCardTransition(s, insertionId, cardId, kind).Success?)
            && (companion.advanceOffered <==> NextTransition(s).Success? && NextTransition(s).value.Some?)
            && companion.canInsert == canInsert
  {
    hide FrozenCards, RecoveryCardTransition, NextTransition, HeaderOf, ViewOf, ConnectedCount, ResponseCount;
    hide SummaryOf;
    CardStartsExactlyWhenOffered(s, insertionId, cardId, kind);
    NextLeads(s);
  }
}
