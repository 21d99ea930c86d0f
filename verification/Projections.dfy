/**
 * What each role is shown of a room: the indexes a projection is built on, the host, companion,
 * participant and list snapshots, and the small snapshot that acknowledges a single response.
 */
module Projections {
  import opened Common
  import opened Sorting
  import opened SessionModel
  import opened ResponsePolicy
  import opened SessionStore
  import opened Leaderboards

  // ---------------------------------------------------------------- projection data

  datatype ProjectionData = ProjectionData(
    participants: seq<Participant>, responses: seq<Response>, leaderboard: seq<Ranked>,
    facilitatorLeaderboard: seq<Ranked>,
    byParticipantAndBlock: map<(Uuid, Id), Response>, latestReceipt: map<Uuid, Response>)

  function Elsewhere(blockId: Id): Response -> bool {
    (r: Response) => r.blockId != blockId
  }

  predicate QuestionOnShow(s: Session) {
    s.phase.QuestionOpen? && CurrentBlock(s).Some? && CurrentBlock(s).value.QuestionBlock?
  }

  /** While a question is open its own answers do not count for the facilitator's board. */
  function FacilitatorVisible(s: Session, responses: seq<Response>): seq<Response> {
    if QuestionOnShow(s) then Filter(responses, Elsewhere(CurrentBlock(s).value.id)) else responses
  }

  /** The last stored response of a participant to a block, by linear scan. */
  function LastFor(responses: seq<Response>, participantId: Uuid, blockId: Id): (found: Option<Response>)
    ensures found.Some? ==> found.value in responses && AnswersBlock(found.value, participantId, blockId)
    ensures found.None? ==> forall r | r in responses :: !AnswersBlock(r, participantId, blockId)
  {
    if responses == [] then None
    else
      var last := |responses| - 1;
      if AnswersBlock(responses[last], participantId, blockId) then Some(responses[last])
      else LastFor(responses[..last], participantId, blockId)
  }

  predicate Keyed(r: Response, participantId: Uuid) {
    r.participantId == participantId && r.key.Some?
  }

  /** Of an earlier receipt and the latest one after it, the one submitted later; the later one on a tie. */
  function LaterOf(r: Response, participantId: Uuid, rest: Option<Response>): Option<Response> {
    if Keyed(r, participantId) && (rest.None? || rest.value.submittedAt < r.submittedAt) then Some(r) else rest
  }

  /** A participant's latest receipt, by linear scan. */
  function LatestFor(responses: seq<Response>, participantId: Uuid): Option<Response> {
    if responses == [] then None
    else LaterOf(responses[0], participantId, LatestFor(responses[1..], participantId))
  }

  /** What the indexes built in one pass must say. */
  ghost predicate DataOk(data: ProjectionData, s: Session, participants: seq<Participant>, responses: seq<Response>) {
    && data.participants == participants && data.responses == responses
    && data.leaderboard == Ranking(participants, responses)
    && data.facilitatorLeaderboard == Ranking(participants, FacilitatorVisible(s, responses))
    && (forall id: Uuid, blockId: Id :: AnswerIn(data, id, blockId) == LastFor(responses, id, blockId))
    && (forall id: Uuid :: ReceiptIn(data, id) == LatestFor(responses, id))
  }

  function AnswerIn(data: ProjectionData, participantId: Uuid, blockId: Id): Option<Response> {
    if (participantId, blockId) in data.byParticipantAndBlock
    then Some(data.byParticipantAndBlock[(participantId, blockId)]) else None
  }

  function ReceiptIn(data: ProjectionData, participantId: Uuid): Option<Response> {
    if participantId in data.latestReceipt then Some(data.latestReceipt[participantId]) else None
  }

  lemma {:induction false} LatestAppend(responses: seq<Response>, r: Response, participantId: Uuid)
    ensures var before, after := LatestFor(responses, participantId), LatestFor(responses + [r], participantId);
            after == if Keyed(r, participantId) && (before.None? || before.value.submittedAt <= r.submittedAt)
                     then Some(r) else before
  {
    if responses == [] {
      assert [] + [r] == [r];
    } else {
      assert (responses + [r])[0] == responses[0] && (responses + [r])[1..] == responses[1..] + [r];
      LatestAppend(responses[1..], r, participantId);
    }
  }

  /** Fills both indexes in one pass over the responses. */
  method BuildProjectionData(
    s: Session, participants: seq<Participant>, responses: seq<Response>) returns (data: ProjectionData)
    ensures DataOk(data, s, participants, responses)
  {
    hide Ranking, FacilitatorVisible;
    var byBlock: map<(Uuid, Id), Response> := map[];
    var latest: map<Uuid, Response> := map[];
    var n := 0;
    while n < |responses|
      invariant 0 <= n <= |responses|
      invariant forall id: Uuid, blockId: Id ::
                  (if (id, blockId) in byBlock then Some(byBlock[(id, blockId)]) else None)
                    == LastFor(responses[..n], id, blockId)
      invariant forall id: Uuid :: (if id in latest then Some(latest[id]) else None) == LatestFor(responses[..n], id)
    {
      var r := responses[n];
      assert responses[..n + 1] == responses[..n] + [r] && responses[..n + 1][..n] == responses[..n];
      forall id: Uuid
        ensures var before := LatestFor(responses[..n], id);
                LatestFor(responses[..n + 1], id)
                == if Keyed(r, id) && (before.None? || before.value.submittedAt <= r.submittedAt)
                   then Some(r) else before
      {
        LatestAppend(responses[..n], r, id);
      }
      byBlock := byBlock[(r.participantId, r.blockId) := r];
      if r.key.Some? {
        if r.participantId !in latest || latest[r.participantId].submittedAt <= r.submittedAt {
          latest := latest[r.participantId := r];
        }
      }
      n := n + 1;
    }
    assert responses[..n] == responses;
    var leaderboard := RankedParticipants(participants, responses);
    var facilitatorLeaderboard := RankedParticipants(participants, FacilitatorVisible(s, responses));
    data := ProjectionData(participants, responses, leaderboard, facilitatorLeaderboard, byBlock, latest);
  }

  // ---------------------------------------------------------------- parts of a snapshot

  /** The fields every snapshot carries. */
  datatype Header = Header(
    status: Status, phase: Phase, index: int, blockCount: nat, revision: nat, eventSeq: nat, now: int,
    openedAt: Option<int>, deadline: Option<int>, accepting: bool, cardsEnabled: bool, flex: bool,
    playback: Option<PackIntervention>, finishedAt: Option<int>)

  datatype LiveQuestion = LiveQuestion(
    id: Id, kind: QuestionType, confidence: Confidence, choices: seq<Id>, scale: Option<(int, int)>,
    timeLimitSeconds: nat, basePoints: nat, hasMedia: bool)

  datatype RevealedAnswer = NumericKey(value: real, tolerance: real) | ChoiceKey(correct: seq<Id>) | UnscoredKey

  datatype BlockView =
    | NothingShown
    | ContentView(id: Id)
    | PublicQuestion(id: Id, question: LiveQuestion)
    | FacilitatorQuestion(
        id: Id, question: LiveQuestion, purpose: Purpose, recheckAvailable: bool, revealed: Option<RevealedAnswer>)

  predicate ResultVisible(s: Session) {
    s.phase.QuestionReveal? || s.phase.Intervention? || s.phase.Done?
  }

  /** The frozen card an intervention refers to, if the session still offers it. */
  function Playback(s: Session): Option<PackIntervention> {
    if s.phase.Intervention? && s.intervention.Some? && s.intervention.value.reference in FrozenCards(s)
    then s.intervention
    else None
  }

  function HeaderOf(s: Session, eventSeq: nat, now: int): Header {
    Header(s.status, s.phase, s.index, |s.content.blocks|, s.revision, eventSeq, now, s.openedAt,
           if QuestionOnShow(s) then s.closesAt else None,
           QuestionOnShow(s) && (s.closesAt.None? || s.closesAt.value >= now),
           s.cardsEnabled, s.flex, Playback(s), s.finishedAt)
  }

  function ChoiceId(c: Choice): Id { c.id }

  function LiveQuestionOf(q: Question): LiveQuestion {
    LiveQuestion(q.id, q.kind, q.confidence, Map(q.choices, ChoiceId),
                 if q.kind.Rating? then Some((q.min, q.max)) else None,
                 q.timeLimitSeconds, q.basePoints, q.hasMedia)
  }

  function RevealedAnswerOf(q: Question): RevealedAnswer {
    if q.kind.Numeric? then NumericKey(q.correctValue, q.tolerance)
    else if q.kind.Rating? || q.kind.Poll? then UnscoredKey
    else ChoiceKey(Map(Filter(q.choices, (c: Choice) => c.isCorrect), ChoiceId))
  }

  function ViewOf(b: Option<Block>, facilitator: bool, keyShown: bool): BlockView {
    match b
    case None => NothingShown
    case Some(ContentBlock(id)) => ContentView(id)
    case Some(QuestionBlock(id, q, _)) =>
      if facilitator
      then FacilitatorQuestion(id, LiveQuestionOf(q), q.purpose, q.linkedRecheck.Some?,
                               if keyShown then Some(RevealedAnswerOf(q)) else None)
      else PublicQuestion(id, LiveQuestionOf(q))
  }

  function ResponseCount(s: Session, responses: seq<Response>): nat {
    match CurrentBlock(s)
    case Some(QuestionBlock(id, _, _)) => |Filter(responses, Here(id))|
    case _ => 0
  }

  const PRESENCE_WINDOW_MS := 15000

  /** Who is connected right now, or was seen within the presence window. */
  function ConnectedCount(participants: seq<Participant>, connected: set<Uuid>, now: int): nat {
    |Filter(participants, (p: Participant) => p.id in connected || now - p.lastSeenAt <= PRESENCE_WINDOW_MS)|
  }

  // ---------------------------------------------------------------- snapshots

  datatype RoomStatus = RoomStatus(joined: nat, connected: nat, notConnected: int, responseCount: nat)

  datatype HostSnapshot = HostSnapshot(
    header: Header, block: BlockView, cards: seq<CardReference>, participants: seq<Ranked>, roomStatus: RoomStatus)

  function HostView(s: Session, eventSeq: nat, now: int, data: ProjectionData, connected: set<Uuid>): HostSnapshot {
    var count := ConnectedCount(data.participants, connected, now);
    HostSnapshot(HeaderOf(s, eventSeq, now), ViewOf(CurrentBlock(s), true, ResultVisible(s)),
                 if s.phase.QuestionReveal? then FrozenCards(s) else [], data.facilitatorLeaderboard,
                 RoomStatus(|data.participants|, count, |data.participants| - count, ResponseCount(s, data.responses)))
  }

  datatype Receipted = Receipted(responseId: Uuid, blockId: Id, key: Uuid, acceptedAt: int)
  datatype Outcome = Outcome(correct: Option<bool>, score: int)

  datatype ParticipantSnapshot = ParticipantSnapshot(
    header: Header, participantId: Uuid, block: BlockView, participantCount: nat, submitted: bool,
    receipt: Option<Receipted>, standing: Option<Standing>, outcome: Option<Outcome>)

  function OutcomeOf(s: Session, current: Option<Response>): Option<Outcome> {
    if ResultVisible(s) && current.Some? then Some(Outcome(current.value.correct, current.value.score)) else None
  }

  function ReceiptedOf(latest: Option<Response>): Option<Receipted> {
    if latest.Some? && latest.value.key.Some?
    then Some(Receipted(latest.value.id, latest.value.blockId, latest.value.key.value, latest.value.submittedAt))
    else None
  }

  function ParticipantView(
    s: Session, eventSeq: nat, now: int, participantId: Uuid, data: ProjectionData): ParticipantSnapshot
  {
    var current := if CurrentBlock(s).Some? then AnswerIn(data, participantId, CurrentBlock(s).value.id) else None;
    ParticipantSnapshot(HeaderOf(s, eventSeq, now), participantId, ViewOf(CurrentBlock(s), false, false),
                        |data.participants|,
                        current.Some?, ReceiptedOf(ReceiptIn(data, participantId)),
                        if s.phase.QuestionOpen? then None else StandingOf(data.leaderboard, participantId),
                        OutcomeOf(s, current))
  }

  datatype Summary = Summary(blockId: Id, responseCount: nat, choiceCounts: seq<(Id, nat)>)

  datatype CompanionSnapshot = CompanionSnapshot(
    header: Header, block: BlockView, roomStatus: RoomStatus, cards: seq<CardReference>, canInsert: (bool, bool, bool),
    summary: Option<Summary>, advanceOffered: bool)

  function Picks(choice: Id): Response -> bool {
    (r: Response) => choice in Selected(r.answer)
  }

  function Tallies(shown: seq<Response>): Choice -> (Id, nat) {
    (c: Choice) => (c.id, |Filter(shown, Picks(c.id))|)
  }

  /** The result summary: only once the answer is visible, and only of the block on show. */
  function SummaryOf(s: Session, responses: seq<Response>): Option<Summary> {
    match CurrentBlock(s)
    case Some(QuestionBlock(id, q, _)) =>
      if ResultVisible(s) then
        var shown := Filter(responses, Here(id));
        Some(Summary(id, |shown|, Map(q.choices, Tallies(shown))))
      else None
    case _ => None
  }

  function CompanionView(
    s: Session, eventSeq: nat, now: int, data: ProjectionData, connected: set<Uuid>,
    canInsert: (bool, bool, bool)): CompanionSnapshot
  {
    var host := HostView(s, eventSeq, now, data, connected);
    CompanionSnapshot(host.header, ViewOf(CurrentBlock(s), false, false), host.roomStatus, host.cards, canInsert,
                      SummaryOf(s, data.responses), s.status.Active?)
  }

  datatype ListSnapshot = ListSnapshot(
    header: Header, block: BlockView, participantCount: nat, responseCount: nat, leaderboard: seq<Ranked>)

  /** The list entry does not carry card playback. */
  function ListView(
    s: Session, eventSeq: nat, now: int, participants: seq<Participant>, responses: seq<Response>): ListSnapshot
  {
    ListSnapshot(HeaderOf(s, eventSeq, now).(playback := None), ViewOf(CurrentBlock(s), true, ResultVisible(s)),
                 |participants|, ResponseCount(s, responses), Ranking(participants, FacilitatorVisible(s, responses)))
  }

  // ---------------------------------------------------------------- an open question keeps its secrets

  /**
   * While a question is open nothing a facilitator sees depends on the answers to it, beyond how many
   * there are: any two response lists that agree elsewhere and in that number look the same.
   */
  lemma FacilitatorsSeeNoOpenAnswers(
    s: Session, eventSeq: nat, now: int, participants: seq<Participant>, connected: set<Uuid>,
    canInsert: (bool, bool, bool),
    a: seq<Response>, dataA: ProjectionData, b: seq<Response>, dataB: ProjectionData)
    requires QuestionOnShow(s) && DataOk(dataA, s, participants, a) && DataOk(dataB, s, participants, b)
    requires var open := CurrentBlock(s).value.id;
             Filter(a, Elsewhere(open)) == Filter(b, Elsewhere(open))
               && |Filter(a, Here(open))| == |Filter(b, Here(open))|
    ensures HostView(s, eventSeq, now, dataA, connected) == HostView(s, eventSeq, now, dataB, connected)
    ensures CompanionView(s, eventSeq, now, dataA, connected, canInsert)
            == CompanionView(s, eventSeq, now, dataB, connected, canInsert)
    ensures ListView(s, eventSeq, now, participants, a) == ListView(s, eventSeq, now, participants, b)
  {
    hide Ranking, HeaderOf, ViewOf, FrozenCards, ConnectedCount, LastFor, LatestFor;
  }

  function By(participantId: Uuid): Response -> bool {
    (r: Response) => r.participantId == participantId
  }

  /**
   * The same response but for what was answered to the open question, whether it was right, its score
   * and how long it took; someone else's may also have been submitted at another time.
   */
  predicate SameButAnswer(r: Response, t: Response, open: Id, viewer: Uuid) {
    || r == t
    || (r.blockId == open
        && r == t.(answer := r.answer, correct := r.correct, score := r.score, responseMs := r.responseMs,
                   requestHash := r.requestHash,
                   submittedAt := if t.participantId == viewer then t.submittedAt else r.submittedAt))
  }

  predicate Veiled(a: seq<Response>, b: seq<Response>, open: Id, viewer: Uuid) {
    |a| == |b| && forall i | 0 <= i < |a| :: SameButAnswer(a[i], b[i], open, viewer)
  }

  lemma {:induction false} VeiledLast(a: seq<Response>, b: seq<Response>, open: Id, viewer: Uuid, blockId: Id)
    requires Veiled(a, b, open, viewer)
    ensures LastFor(a, viewer, blockId).Some? == LastFor(b, viewer, blockId).Some?
  {
    if a != [] {
      assert SameButAnswer(a[|a| - 1], b[|b| - 1], open, viewer);
      VeiledLast(a[..|a| - 1], b[..|b| - 1], open, viewer, blockId);
    }
  }

  lemma {:induction false} VeiledLatest(a: seq<Response>, b: seq<Response>, open: Id, viewer: Uuid)
    requires Veiled(a, b, open, viewer)
    ensures var x, y := LatestFor(a, viewer), LatestFor(b, viewer);
            (x.None? && y.None?) || (x.Some? && y.Some? && SameButAnswer(x.value, y.value, open, viewer))
    ensures LatestFor(a, viewer).Some? ==> LatestFor(a, viewer).value.participantId == viewer
  {
    if a != [] {
      assert SameButAnswer(a[0], b[0], open, viewer);
      VeiledLatest(a[1..], b[1..], open, viewer);
    }
  }

  lemma {:induction false} OwnLast(responses: seq<Response>, viewer: Uuid, blockId: Id)
    ensures LastFor(Filter(responses, By(viewer)), viewer, blockId) == LastFor(responses, viewer, blockId)
  {
    if responses != [] {
      var front, last := responses[..|responses| - 1], responses[|responses| - 1];
      assert responses == front + [last];
      FilterConcat(front, [last], By(viewer));
      OwnLast(front, viewer, blockId);
      var kept := Filter(front, By(viewer));
      assert [last][1..] == [];
      if last.participantId == viewer {
        assert (kept + [last])[..|kept|] == kept;
      } else {
        assert kept + [] == kept;
      }
    }
  }

  lemma {:induction false} OwnLatest(responses: seq<Response>, viewer: Uuid)
    ensures LatestFor(Filter(responses, By(viewer)), viewer) == LatestFor(responses, viewer)
  {
    if responses != [] {
      OwnLatest(responses[1..], viewer);
      var kept := Filter(responses[1..], By(viewer));
      assert responses == [responses[0]] + responses[1..];
      FilterHead(responses[0], responses[1..], By(viewer));
      assert ([responses[0]] + kept)[1..] == kept;
    }
  }

  lemma {:induction false} VeiledFilters(a: seq<Response>, b: seq<Response>, open: Id, viewer: Uuid)
    requires Veiled(a, b, open, viewer)
    ensures Filter(a, Elsewhere(open)) == Filter(b, Elsewhere(open))
            && |Filter(a, Here(open))| == |Filter(b, Here(open))|
    ensures Veiled(Filter(a, By(viewer)), Filter(b, By(viewer)), open, viewer)
  {
    if a != [] {
      assert SameButAnswer(a[0], b[0], open, viewer);
      VeiledFilters(a[1..], b[1..], open, viewer);
    }
  }

  /**
   * While a question is open, a participant's snapshot depends on nobody else's responses at all, and
   * on the participant's own only without what they answered to it, how well and how fast.
   */
  lemma ParticipantsSeeNoOpenAnswers(
    s: Session, eventSeq: nat, now: int, participants: seq<Participant>, viewer: Uuid,
    a: seq<Response>, dataA: ProjectionData, b: seq<Response>, dataB: ProjectionData)
    requires QuestionOnShow(s) && DataOk(dataA, s, participants, a) && DataOk(dataB, s, participants, b)
    requires Veiled(Filter(a, By(viewer)), Filter(b, By(viewer)), CurrentBlock(s).value.id, viewer)
    ensures ParticipantView(s, eventSeq, now, viewer, dataA) == ParticipantView(s, eventSeq, now, viewer, dataB)
  {
    hide Ranking, HeaderOf, ViewOf, LastFor, LatestFor, Veiled, AnswerIn, ReceiptIn, StandingOf, Filter;
    var open := CurrentBlock(s).value.id;
    OwnLast(a, viewer, open);
    OwnLast(b, viewer, open);
    OwnLatest(a, viewer);
    OwnLatest(b, viewer);
    VeiledLast(Filter(a, By(viewer)), Filter(b, By(viewer)), open, viewer, open);
    VeiledLatest(Filter(a, By(viewer)), Filter(b, By(viewer)), open, viewer);
  }

  /** Two response lists an onlooker must not tell apart while the question in `open` is on show. */
  predicate Indistinct(a: seq<Response>, b: seq<Response>, open: Id, viewer: Uuid) {
    && Filter(a, Elsewhere(open)) == Filter(b, Elsewhere(open)) && |Filter(a, Here(open))| == |Filter(b, Here(open))|
    && Veiled(Filter(a, By(viewer)), Filter(b, By(viewer)), open, viewer)
  }

  /** All four snapshots, for one viewer and the facilitators. */
  predicate SameViews(
    s: Session, eventSeq: nat, now: int, participants: seq<Participant>, connected: set<Uuid>,
    canInsert: (bool, bool, bool),
    viewer: Uuid, a: seq<Response>, dataA: ProjectionData, b: seq<Response>, dataB: ProjectionData)
  {
    && HostView(s, eventSeq, now, dataA, connected) == HostView(s, eventSeq, now, dataB, connected)
    && CompanionView(s, eventSeq, now, dataA, connected, canInsert)
       == CompanionView(s, eventSeq, now, dataB, connected, canInsert)
    && ParticipantView(s, eventSeq, now, viewer, dataA) == ParticipantView(s, eventSeq, now, viewer, dataB)
    && ListView(s, eventSeq, now, participants, a) == ListView(s, eventSeq, now, participants, b)
  }

  /** While a question is open, host, companion, participant and list snapshots of such lists are the same. */
  lemma OpenAnswersStayHidden(
    s: Session, eventSeq: nat, now: int, participants: seq<Participant>, connected: set<Uuid>,
    canInsert: (bool, bool, bool),
    viewer: Uuid, a: seq<Response>, dataA: ProjectionData, b: seq<Response>, dataB: ProjectionData)
    requires QuestionOnShow(s) && DataOk(dataA, s, participants, a) && DataOk(dataB, s, participants, b)
    requires Indistinct(a, b, CurrentBlock(s).value.id, viewer)
    ensures SameViews(s, eventSeq, now, participants, connected, canInsert, viewer, a, dataA, b, dataB)
  {
    hide HostView, CompanionView, ParticipantView, ListView, DataOk, Veiled, Filter;
    FacilitatorsSeeNoOpenAnswers(s, eventSeq, now, participants, connected, canInsert, a, dataA, b, dataB);
    ParticipantsSeeNoOpenAnswers(s, eventSeq, now, participants, viewer, a, dataA, b, dataB);
  }

  lemma {:induction false} InsertKeepsVeiled(
    r: Response, t: Response, a: seq<Response>, b: seq<Response>, open: Id, viewer: Uuid)
    requires Veiled(a, b, open, viewer) && SameButAnswer(r, t, open, viewer)
    requires r.participantId == viewer && OwnedBy(a, viewer)
    ensures Veiled(Insert(r, a, SubmittedInOrder), Insert(t, b, SubmittedInOrder), open, viewer)
  {
    if a != [] {
      assert SameButAnswer(a[0], b[0], open, viewer) && a[0].participantId == viewer;
      if !SubmittedInOrder(r, a[0]) {
        InsertKeepsVeiled(r, t, a[1..], b[1..], open, viewer);
      }
    }
  }

  predicate OwnedBy(responses: seq<Response>, viewer: Uuid) {
    forall i | 0 <= i < |responses| :: responses[i].participantId == viewer
  }

  lemma OwnedArranged(a: seq<Response>, b: seq<Response>, viewer: Uuid)
    requires OwnedBy(a, viewer) && multiset(a) == multiset(b)
    ensures OwnedBy(b, viewer)
  {
    SameElements(a, b);
    forall i | 0 <= i < |b| ensures b[i].participantId == viewer {
      assert b[i] in a;
    }
  }

  /** One participant's responses come in the same order whatever they answered. */
  lemma {:induction false} SortKeepsVeiled(a: seq<Response>, b: seq<Response>, open: Id, viewer: Uuid)
    requires Veiled(a, b, open, viewer) && OwnedBy(a, viewer)
    ensures Veiled(Sort(a, SubmittedInOrder), Sort(b, SubmittedInOrder), open, viewer)
  {
    if a != [] {
      SortKeepsVeiled(a[1..], b[1..], open, viewer);
      SortArranges(a[1..], SubmittedInOrder);
      OwnedArranged(a[1..], Sort(a[1..], SubmittedInOrder), viewer);
      InsertKeepsVeiled(a[0], b[0], Sort(a[1..], SubmittedInOrder), Sort(b[1..], SubmittedInOrder), open, viewer);
    }
  }

  lemma OwnFilter(responses: seq<Response>, viewer: Uuid)
    ensures OwnedBy(Filter(responses, By(viewer)), viewer)
  {
    forall i | 0 <= i < |Filter(responses, By(viewer))|
      ensures Filter(responses, By(viewer))[i].participantId == viewer
    {
      FilterMember(responses, By(viewer), Filter(responses, By(viewer))[i]);
    }
  }

  /** Veiled answers stay indistinct when the room lists its responses by time. */
  lemma ListsStayIndistinct(a: seq<Response>, b: seq<Response>, open: Id, viewer: Uuid)
    requires Veiled(a, b, open, viewer)
    ensures Indistinct(Sort(a, SubmittedInOrder), Sort(b, SubmittedInOrder), open, viewer)
  {
    hide Veiled, Sort, Filter;
    VeiledFilters(a, b, open, viewer);
    FilterOfSort(a, SubmittedInOrder, Elsewhere(open));
    FilterOfSort(b, SubmittedInOrder, Elsewhere(open));
    FilterOfSort(a, SubmittedInOrder, Here(open));
    FilterOfSort(b, SubmittedInOrder, Here(open));
    FilterOfSort(a, SubmittedInOrder, By(viewer));
    FilterOfSort(b, SubmittedInOrder, By(viewer));
    SortArranges(Filter(a, Here(open)), SubmittedInOrder);
    SortArranges(Filter(b, Here(open)), SubmittedInOrder);
    SameElements(Filter(a, Here(open)), Sort(Filter(a, Here(open)), SubmittedInOrder));
    SameElements(Filter(b, Here(open)), Sort(Filter(b, Here(open)), SubmittedInOrder));
    OwnFilter(a, viewer);
    SortKeepsVeiled(Filter(a, By(viewer)), Filter(b, By(viewer)), open, viewer);
  }

  /**
   * Two rooms with the same open question, in which responses to it differ in payload, correctness,
   * score and time (the viewer's own submission time apart), show everybody the same.
   */
  lemma RoomsLookAlike(
    room: Room, other: Room, now: int, connected: set<Uuid>, canInsert: (bool, bool, bool), viewer: Uuid,
    dataA: ProjectionData, dataB: ProjectionData)
    requires QuestionOnShow(room.session) && other == room.(responses := other.responses)
    requires Veiled(room.responses, other.responses, CurrentBlock(room.session).value.id, viewer)
    requires DataOk(dataA, room.session, ListParticipants(room), ListResponses(room))
    requires DataOk(dataB, room.session, ListParticipants(room), ListResponses(other))
    ensures SameViews(room.session, room.eventSeq, now, ListParticipants(room), connected, canInsert, viewer,
                      ListResponses(room), dataA, ListResponses(other), dataB)
  {
    hide DataOk, Veiled, Indistinct, SameViews;
    ListsStayIndistinct(room.responses, other.responses, CurrentBlock(room.session).value.id, viewer);
    OpenAnswersStayHidden(room.session, room.eventSeq, now, ListParticipants(room), connected, canInsert, viewer,
                          ListResponses(room), dataA, ListResponses(other), dataB);
  }

  predicate SameButKey(q: Question, t: Question) {
    && q == t.(choices := q.choices, correctValue := q.correctValue, tolerance := q.tolerance)
    && |q.choices| == |t.choices| && forall i | 0 <= i < |q.choices| :: q.choices[i].id == t.choices[i].id
  }

  /** The session with another answer key for the block on show. */
  predicate Rekeyed(s: Session, t: Session) {
    && QuestionOnShow(s) && QuestionOnShow(t)
    && t == s.(content := t.content) && |t.content.blocks| == |s.content.blocks|
    && CurrentBlock(s).value.id == CurrentBlock(t).value.id
    && SameButKey(CurrentBlock(s).value.question, CurrentBlock(t).value.question)
  }

  /** Nor does anything shown before the reveal depend on which answer is right. */
  lemma AnswerKeyStaysHidden(
    s: Session, t: Session, eventSeq: nat, now: int, participants: seq<Participant>, responses: seq<Response>,
    data: ProjectionData, rekeyed: ProjectionData, connected: set<Uuid>, canInsert: (bool, bool, bool),
    participantId: Uuid)
    requires Rekeyed(s, t) && DataOk(data, s, participants, responses) && DataOk(rekeyed, t, participants, responses)
    ensures HostView(s, eventSeq, now, data, connected) == HostView(t, eventSeq, now, rekeyed, connected)
    ensures CompanionView(s, eventSeq, now, data, connected, canInsert)
            == CompanionView(t, eventSeq, now, rekeyed, connected, canInsert)
    ensures ParticipantView(s, eventSeq, now, participantId, data)
            == ParticipantView(t, eventSeq, now, participantId, rekeyed)
    ensures ListView(s, eventSeq, now, participants, responses) == ListView(t, eventSeq, now, participants, responses)
  {
    hide Ranking, FrozenCards, ConnectedCount, LastFor, LatestFor, StandingOf;
    assert LiveQuestionOf(CurrentBlock(s).value.question) == LiveQuestionOf(CurrentBlock(t).value.question);
  }

  // ---------------------------------------------------------------- acknowledging one response

  predicate SubmittedInOrder(a: Response, b: Response) { a.submittedAt <= b.submittedAt }
  predicate JoinedInOrder(a: Participant, b: Participant) { a.joinedAt <= b.joinedAt }

  predicate RosterOrder(a: Participant, b: Participant) {
    if a.joinedAt != b.joinedAt then a.joinedAt < b.joinedAt
    else if a.collation != b.collation then a.collation < b.collation
    else a.id <= b.id
  }

  function ListParticipants(room: Room): seq<Participant> { Sort(room.participants, JoinedInOrder) }
  function ListResponses(room: Room): seq<Response> { Sort(room.responses, SubmittedInOrder) }

  datatype SmallProjection = SmallProjection(
    participantCount: nat, standing: Option<Standing>, current: Option<Response>)

  /** The repository's own summary for one participant, without listing the room. */
  function SmallProjectionOf(
    room: Room, participantId: Uuid, blockId: Option<Id>, includeStanding: bool): Option<SmallProjection>
  {
    if !Joined(room.participants, participantId) then None
    else Some(SmallProjection(
                |room.participants|,
                if includeStanding
                then StandingOf(Ranking(Sort(room.participants, RosterOrder), room.responses), participantId) else None,
                if blockId.Some? then FindByBlock(room.responses, participantId, blockId.value) else None))
  }

  /** The snapshot built from that summary and the acknowledged response, with the response's receipt. */
  function AcknowledgedView(
    s: Session, eventSeq: nat, now: int, participantId: Uuid, small: SmallProjection, r: Response,
    key: Uuid): ParticipantSnapshot
  {
    var current := if CurrentBlock(s).Some? && CurrentBlock(s).value.id == r.blockId then Some(r) else small.current;
    ParticipantSnapshot(HeaderOf(s, eventSeq, now), participantId, ViewOf(CurrentBlock(s), false, false),
                        small.participantCount,
                        current.Some?, Some(Receipted(r.id, r.blockId, key, r.submittedAt)),
                        if s.phase.QuestionOpen? then None else small.standing,
                        OutcomeOf(s, current))
  }

  function CurrentBlockId(s: Session): Option<Id> {
    if CurrentBlock(s).Some? then Some(CurrentBlock(s).value.id) else None
  }

  lemma OneAnswerIsUnique(responses: seq<Response>, r: Response, t: Response)
    requires OneAnswerEach(responses) && r in responses && t in responses && AnswersBlock(r, t.participantId, t.blockId)
    ensures r == t
  {
    var i :| 0 <= i < |responses| && responses[i] == r;
    var j :| 0 <= j < |responses| && responses[j] == t;
    assert i < j || i == j || j < i;
  }

  lemma FirstIsLast(responses: seq<Response>, listed: seq<Response>, participantId: Uuid, blockId: Id)
    requires OneAnswerEach(responses) && multiset(listed) == multiset(responses)
    ensures LastFor(listed, participantId, blockId) == FindByBlock(responses, participantId, blockId)
  {
    SameElements(listed, responses);
    var last, first := LastFor(listed, participantId, blockId), FindByBlock(responses, participantId, blockId);
    if last.Some? && first.Some? {
      OneAnswerIsUnique(responses, last.value, first.value);
    }
  }

  lemma {:induction false} InsertKeepsLatest(r: Response, sorted: seq<Response>, participantId: Uuid)
    ensures LatestFor(Insert(r, sorted, SubmittedInOrder), participantId)
            == LaterOf(r, participantId, LatestFor(sorted, participantId))
  {
    if sorted != [] && sorted[0].submittedAt < r.submittedAt {
      InsertKeepsLatest(r, sorted[1..], participantId);
    }
  }

  /** Listing responses by time does not change which receipt is the latest, ties included. */
  lemma {:induction false} SortKeepsLatest(responses: seq<Response>, participantId: Uuid)
    ensures LatestFor(Sort(responses, SubmittedInOrder), participantId) == LatestFor(responses, participantId)
  {
    if responses != [] {
      SortKeepsLatest(responses[1..], participantId);
      InsertKeepsLatest(responses[0], Sort(responses[1..], SubmittedInOrder), participantId);
    }
  }

  lemma {:induction false} LatestIsStored(responses: seq<Response>, participantId: Uuid)
    ensures var latest := LatestFor(responses, participantId);
            && (latest.Some? ==> latest.value in responses && Keyed(latest.value, participantId))
            && (forall r | r in responses && Keyed(r, participantId) ::
                latest.Some? && r.submittedAt <= latest.value.submittedAt)
  {
    if responses != [] {
      LatestIsStored(responses[1..], participantId);
      assert responses == [responses[0]] + responses[1..];
    }
  }

  lemma ListsArrange(room: Room)
    ensures multiset(ListParticipants(room)) == multiset(room.participants)
            && |ListParticipants(room)| == |room.participants|
    ensures multiset(ListResponses(room)) == multiset(room.responses)
    ensures multiset(Sort(room.participants, RosterOrder)) == multiset(room.participants)
  {
    SortArranges(room.participants, JoinedInOrder);
    SortArranges(room.participants, RosterOrder);
    SortArranges(room.responses, SubmittedInOrder);
    SameElements(ListParticipants(room), room.participants);
  }

  function PersonId(p: Participant): Uuid { p.id }

  lemma RosterPermuted(a: seq<Participant>, b: seq<Participant>)
    requires RosterOk(a) && multiset(a) == multiset(b)
    ensures RosterOk(b)
  {
    assert KeyedApart(a, PersonId);
    KeysStayApart(a, b, PersonId);
    forall i, j | 0 <= i < j < |b| ensures b[i].id != b[j].id {
      assert PersonId(b[i]) != PersonId(b[j]);
    }
  }

  lemma RanksAgree(room: Room)
    requires RosterOk(room.participants)
    ensures Ranking(Sort(room.participants, RosterOrder), room.responses)
            == Ranking(ListParticipants(room), ListResponses(room))
  {
    ListsArrange(room);
    RosterPermuted(room.participants, Sort(room.participants, RosterOrder));
    RankingForgetsOrder(Sort(room.participants, RosterOrder), room.responses, ListParticipants(room),
                        ListResponses(room));
  }

  /**
   * An acknowledgement built from the small projection is field for field the snapshot built from
   * the whole room, exactly when the acknowledged response is the participant's latest receipt.
   */
  lemma AcknowledgementMatchesFullSnapshot(
    room: Room, now: int, participantId: Uuid, r: Response, key: Uuid, data: ProjectionData)
    requires RosterOk(room.participants) && OneAnswerEach(room.responses) && Joined(room.participants, participantId)
    requires r in room.responses && HasKey(r, participantId, key)
    requires DataOk(data, room.session, ListParticipants(room), ListResponses(room))
    ensures var s := room.session;
            var small := SmallProjectionOf(room, participantId, CurrentBlockId(s), !s.phase.QuestionOpen?);
            && small.Some?
            && (AcknowledgedView(s, room.eventSeq, now, participantId, small.value, r, key)
                == ParticipantView(s, room.eventSeq, now, participantId, data)
                <==> LatestFor(room.responses, participantId) == Some(r))
  {
    hide Ranking, HeaderOf, ViewOf, LastFor, FacilitatorVisible, LatestFor, StandingOf, FindByBlock;
    hide OneAnswerEach, Joined, RosterOk;
    ListsArrange(room);
    RanksAgree(room);
    SortKeepsLatest(room.responses, participantId);
    LatestIsStored(room.responses, participantId);
    var latest := LatestFor(room.responses, participantId).value;
    if latest.blockId == r.blockId {
      OneAnswerIsUnique(room.responses, latest, r);
    }
    if CurrentBlock(room.session).Some? {
      var blockId := CurrentBlock(room.session).value.id;
      FirstIsLast(room.responses, ListResponses(room), participantId, blockId);
      CurrentAnswerIs(room.responses, participantId, blockId, r);
    }
  }

  lemma CurrentAnswerIs(responses: seq<Response>, participantId: Uuid, blockId: Id, r: Response)
    requires OneAnswerEach(responses) && r in responses && r.participantId == participantId
    ensures r.blockId == blockId ==> FindByBlock(responses, participantId, blockId) == Some(r)
  {
    var found := FindByBlock(responses, participantId, blockId);
    if found.Some? && r.blockId == blockId {
      OneAnswerIsUnique(responses, found.value, r);
    }
  }

  /** For a response that was just accepted: unless an earlier one carries a later time, it is the latest. */
  lemma JustAcceptedIsLatest(before: Room, r: Response, expectedRevision: nat)
    requires AcceptResponse(before, r, expectedRevision).1.Accepted? && r.key.Some?
    ensures LatestFor(AcceptResponse(before, r, expectedRevision).0.responses, r.participantId) == Some(r)
            <==> forall t | t in before.responses && Keyed(t, r.participantId) :: t.submittedAt <= r.submittedAt
  {
    hide WindowOpen, FindByKey, FindByBlock, Joined;
    LatestAppend(before.responses, r, r.participantId);
    LatestIsStored(before.responses, r.participantId);
  }
}
