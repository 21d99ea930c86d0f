/**
 * The live Presentation session as a value, and the pure rules that compute its next step:
 * the host's advance, a Recovery Pack card, and the three live insertions.
 */
module SessionModel {
  import opened Common

  type Uuid = nat

  /** The seeds handed to the copy-id hash; distinct seeds give distinct ids. */
  datatype CopyRole =
    | DiagnosticBlock | RecheckBlock
    | DiagnosticQuestion | RecheckQuestion
    | PackChoice(recheck: bool, choice: Id)
    | PublishedBlock(source: Id) | PublishedQuestion(source: Id)
    | PublishedChoice(source: Id, index: nat, choice: Id)
    | QuickCheckBlock | QuickCheckQuestion | QuickCheckChoice(index: nat)

  /** An authored UUID, or one derived from a command, a role and a library version. */
  datatype Id = Authored(uuid: Uuid) | Copied(command: Uuid, role: CopyRole, version: Uuid)

  datatype QuestionType = SingleSelect | TrueFalse | MultiSelect | Numeric | Rating | Poll
  datatype Delivery = Main | Recheck
  datatype Purpose = Diagnostic | Practice | Opinion
  datatype Confidence = Off | Optional | Required

  datatype Choice = Choice(id: Id, isCorrect: bool)

  datatype Question = Question(
    id: Id, kind: QuestionType, delivery: Delivery, purpose: Purpose, confidence: Confidence,
    linkedRecheck: Option<Id>, timeLimitSeconds: nat, basePoints: nat,
    choices: seq<Choice>, correctValue: real, tolerance: real, min: int, max: int,
    hasMedia: bool, fromPack: bool)

  datatype Provenance = Provenance(versionId: Uuid, questionId: Id)

  datatype Block =
    | ContentBlock(id: Id)
    | QuestionBlock(id: Id, question: Question, provenance: Option<Provenance>)

  datatype Card = Card(id: Uuid, wellFormed: bool)

  /** A frozen Pack version: its identity and the intervention cards it carries. */
  datatype Baseline = Baseline(packVersionId: Uuid, packVersion: nat, contentHash: string, cards: seq<Card>)

  datatype PackInsertion = PackInsertion(
    id: Uuid, packId: Uuid, original: Baseline, update: Option<Baseline>,
    diagnosticQuestionId: Id, recheckQuestionId: Id)

  datatype QuickCheckMark = QuickCheckMark(commandId: Uuid, blockId: Id)
  datatype PublishedMark = PublishedMark(
    commandId: Uuid, blockId: Id, versionId: Uuid, questionId: Id)

  datatype Content = Content(
    blocks: seq<Block>, packInsertions: seq<PackInsertion>,
    quickCheck: Option<QuickCheckMark>, published: seq<PublishedMark>)

  datatype Status = Active | Finished
  datatype Phase = Lobby | ContentShown | QuestionOpen | QuestionReveal | Intervention | Done

  datatype CardReference = CardReference(
    insertionId: Uuid, packId: Uuid, packVersionId: Uuid, packVersion: nat, contentHash: string, cardId: Uuid)
  datatype InterventionKind = Explain | Example
  datatype PackIntervention = PackIntervention(kind: InterventionKind, reference: CardReference)

  /** A position in the block list; -1 until the host leaves the lobby. */
  type BlockIndex = i: int | -1 <= i witness -1

  /** The session record without its event sequence, which the room keeps beside it. */
  datatype Session = Session(
    status: Status, phase: Phase, index: BlockIndex, revision: nat, content: Content,
    cardsEnabled: bool, flex: bool, intervention: Option<PackIntervention>,
    openedAt: Option<int>, closesAt: Option<int>, finishedAt: Option<int>, liveExpiresAt: int)

  datatype EventKind =
    | ContentPresented | QuestionLaunched | QuestionRevealed | InterventionPresented | PresentationFinished

  datatype Event = Event(
    kind: EventKind, blockIndex: Option<nat>, blockId: Option<Id>, intervention: Option<PackIntervention>)

  /** What the service asks the repository to commit. */
  datatype Transition = Transition(
    content: Option<Content>, phase: Phase, index: BlockIndex, status: Status,
    intervention: Option<PackIntervention>, event: Event, fromPublishedSource: bool)

  /** The prompt and choice labels of a quick check as one text, and whether the input schema takes them. */
  datatype Wording = Wording(text: nat, acceptable: bool)
  datatype QuickCheckInput = QuickCheckInput(wording: Wording, choiceCount: nat, timeLimitSeconds: nat)

  datatype Action =
    | Advance
    | StartCard(insertionId: Uuid, cardId: Uuid, kind: InterventionKind)
    | InsertQuickCheck(input: QuickCheckInput)
    | InsertPublished(versionId: Uuid, questionId: Id, contentHash: string)
    | InsertPack(packVersionId: Uuid)

  datatype PackVersion = PackVersion(
    id: Uuid, packId: Uuid, version: nat, contentHash: string,
    diagnostic: Question, recheck: Question, probeHasMedia: bool, cards: seq<Card>)

  datatype QuizVersion = QuizVersion(
    id: Uuid, archived: bool, contentHash: string, questions: seq<Question>)

  /** Everything a handler reads from outside the session while computing one step. */
  datatype Library = Library(
    packsEnabled: bool, quickChecksEnabled: bool, publishedEnabled: bool,
    pack: Option<PackVersion>, quiz: Option<QuizVersion>, contentFits: bool)

  datatype Refusal =
    | BrokenSession | PhaseClosed | CardUnavailable | NotFound | Invalid | SchemaRejected | TooLarge

  const BLOCK_LIMIT := 100
  const INSERTION_LIMIT := 100
  const SCHEMA_BLOCK_LIMIT := 200

  function BlockAt(blocks: seq<Block>, i: int): Option<Block> {
    if 0 <= i < |blocks| then Some(blocks[i]) else None
  }

  function CurrentBlock(s: Session): Option<Block> {
    BlockAt(s.content.blocks, s.index)
  }

  function Prefix(blocks: seq<Block>, n: int): seq<Block> {
    if n <= 0 then [] else if n < |blocks| then blocks[..n] else blocks
  }

  function Suffix(blocks: seq<Block>, n: int): seq<Block> {
    if n <= 0 then blocks else if n < |blocks| then blocks[n..] else []
  }

  // ---------------------------------------------------------------- the host's advance

  function ToFinished(s: Session): Transition {
    Transition(None, Done, if s.index < 0 then 0 else s.index, Finished, None,
               Event(PresentationFinished, None, None, None), false)
  }

  function ToBlock(blocks: seq<Block>, i: nat): Transition
    requires i < |blocks|
  {
    if blocks[i].ContentBlock?
    then Transition(None, ContentShown, i, Active, None, Event(ContentPresented, Some(i), Some(blocks[i].id), None),
                    false)
    else Transition(None, QuestionOpen, i, Active, None, Event(QuestionLaunched, Some(i), Some(blocks[i].id), None),
                    false)
  }

  function ToIntervention(i: nat, blockId: Id, card: Option<PackIntervention>): Transition {
    Transition(None, Intervention, i, Active, card, Event(InterventionPresented, Some(i), Some(blockId), card), false)
  }

  predicate HasLinkedRecheck(b: Block) {
    b.QuestionBlock? && b.question.linkedRecheck.Some?
  }

  predicate OffersIntervention(b: Option<Block>) {
    b.Some? && HasLinkedRecheck(b.value) && b.value.question.delivery.Main?
  }

  /** One press of "next". `None` means the session is over and there is nothing to do. */
  function NextTransition(s: Session): Result<Option<Transition>, Refusal> {
    var blocks := s.content.blocks;
    if s.phase.Done? then Success(None)
    else if s.phase.QuestionOpen? then
      match CurrentBlock(s)
      case None => Failure(BrokenSession)
      case Some(b) =>
        Success(Some(Transition(None, QuestionReveal, s.index, Active, None,
                                Event(QuestionRevealed, Some(s.index), Some(b.id), None), false)))
    else if s.phase.QuestionReveal? && OffersIntervention(CurrentBlock(s)) then
      Success(Some(ToIntervention(s.index, CurrentBlock(s).value.id, None)))
    else
      var next := if s.phase.Lobby? then 0 else s.index + 1;
      Success(Some(if next < |blocks| then ToBlock(blocks, next) else ToFinished(s)))
  }

  // ---------------------------------------------------------------- Recovery Pack cards

  function CurrentBaseline(p: PackInsertion): Baseline {
    if p.update.Some? then p.update.value else p.original
  }

  predicate DistinctCards(cards: seq<Card>) {
    forall i, j | 0 <= i < j < |cards| :: cards[i].id != cards[j].id
  }

  function DestinationCount(insertions: seq<PackInsertion>, q: Id): nat {
    if insertions == [] then 0
    else (if insertions[0].diagnosticQuestionId == q then 1 else 0)
         + (if insertions[0].recheckQuestionId == q then 1 else 0)
         + DestinationCount(insertions[1..], q)
  }

  function References(p: PackInsertion, cards: seq<Card>): seq<CardReference> {
    var b := CurrentBaseline(p);
    if cards == [] then []
    else [CardReference(p.id, p.packId, b.packVersionId, b.packVersion, b.contentHash, cards[0].id)]
         + References(p, cards[1..])
  }

  /** The cards the current diagnostic may show: those of the one Pack insertion that owns it. */
  function FrozenCards(s: Session): seq<CardReference> {
    match CurrentBlock(s)
    case None => []
    case Some(ContentBlock(_)) => []
    case Some(QuestionBlock(_, q, _)) =>
      var insertions := s.content.packInsertions;
      var owners := Filter(insertions, (p: PackInsertion) => p.diagnosticQuestionId == q.id);
      if !s.cardsEnabled || !q.delivery.Main? || !q.purpose.Diagnostic?
         || |Filter(s.content.blocks, (b: Block) => b.QuestionBlock? && b.question.id == q.id)| != 1
         || |owners| != 1 then []
      else
        var owner := owners[0];
        var cards := CurrentBaseline(owner).cards;
        if |Filter(insertions, (p: PackInsertion) => p.id == owner.id)| != 1
           || DestinationCount(insertions, q.id) != 1
           || |cards| > 5 || !DistinctCards(cards)
           || exists i | 0 <= i < |cards| :: !cards[i].wellFormed then []
        else References(owner, cards)
  }

  function FindReference(refs: seq<CardReference>, insertionId: Uuid, cardId: Uuid): Option<CardReference> {
    if refs == [] then None
    else if refs[0].insertionId == insertionId && refs[0].cardId == cardId then Some(refs[0])
    else FindReference(refs[1..], insertionId, cardId)
  }

  function RecoveryCardTransition(s: Session, insertionId: Uuid, cardId: Uuid, kind: InterventionKind)
    : Result<Option<Transition>, Refusal>
  {
    if !s.status.Active? || !s.phase.QuestionReveal? then Failure(PhaseClosed)
    else match FindReference(FrozenCards(s), insertionId, cardId)
      case None => Failure(CardUnavailable)
      case Some(reference) =>
        match CurrentBlock(s)
        case None => Failure(BrokenSession)
        case Some(b) => Success(Some(ToIntervention(s.index, b.id, Some(PackIntervention(kind, reference)))))
  }

  // ---------------------------------------------------------------- what content may be stored

  predicate BlockIdsUnique(blocks: seq<Block>) {
    forall i, j | 0 <= i < j < |blocks| :: blocks[i].id != blocks[j].id
  }

  predicate QuestionIdsUnique(blocks: seq<Block>) {
    forall i, j | 0 <= i < j < |blocks| && blocks[i].QuestionBlock? && blocks[j].QuestionBlock? ::
      blocks[i].question.id != blocks[j].question.id
  }

  function ChoiceIds(blocks: seq<Block>): seq<Id> {
    if blocks == [] then []
    else (if blocks[0].QuestionBlock?
          then seq(|blocks[0].question.choices|, i requires 0 <= i < |blocks[0].question.choices| =>
                   blocks[0].question.choices[i].id)
          else [])
         + ChoiceIds(blocks[1..])
  }

  predicate Distinct(ids: seq<Id>) {
    forall i, j | 0 <= i < j < |ids| :: ids[i] != ids[j]
  }

  /** Block `i` is a diagnostic whose linked recheck is block `j`. */
  predicate LinkTo(blocks: seq<Block>, i: int, j: int) {
    && 0 <= i < |blocks| && 0 <= j < |blocks|
    && blocks[i].QuestionBlock? && blocks[j].QuestionBlock?
    && blocks[i].question.linkedRecheck == Some(blocks[j].question.id)
  }

  predicate IsRecheck(b: Block) {
    b.QuestionBlock? && b.question.delivery.Recheck?
  }

  ghost predicate LinksForward(blocks: seq<Block>) {
    forall i {:trigger HasLinkedRecheck(blocks[i])} | 0 <= i < |blocks| && HasLinkedRecheck(blocks[i]) ::
      exists j :: i < j && LinkTo(blocks, i, j) && IsRecheck(blocks[j])
  }

  ghost predicate RechecksOwned(blocks: seq<Block>) {
    && (forall j {:trigger IsRecheck(blocks[j])} | 0 <= j < |blocks| && IsRecheck(blocks[j]) ::
          exists i :: LinkTo(blocks, i, j))
    && (forall i, k, j | LinkTo(blocks, i, j) && LinkTo(blocks, k, j) :: i == k)
  }

  predicate PackRules(insertions: seq<PackInsertion>) {
    && |insertions| <= INSERTION_LIMIT
    && (forall i, j | 0 <= i < j < |insertions| :: insertions[i].id != insertions[j].id)
    && (forall i | 0 <= i < |insertions| :: DestinationCount(insertions, insertions[i].diagnosticQuestionId) == 1)
    && (forall i | 0 <= i < |insertions| :: DestinationCount(insertions, insertions[i].recheckQuestionId) == 1)
  }

  predicate PublishedMarkOk(c: Content, m: PublishedMark) {
    && (c.quickCheck.Some? ==> c.quickCheck.value.commandId != m.commandId && c.quickCheck.value.blockId != m.blockId)
    && (forall i | 0 <= i < |c.packInsertions| :: c.packInsertions[i].id != m.commandId)
    && (exists i :: 0 <= i < |c.blocks| && c.blocks[i].id == m.blockId && c.blocks[i].QuestionBlock?
                    && c.blocks[i].question.delivery.Main? && !c.blocks[i].question.hasMedia
                    && c.blocks[i].question.linkedRecheck.None? && !c.blocks[i].question.fromPack
                    && c.blocks[i].provenance == Some(Provenance(m.versionId, m.questionId)))
  }

  predicate PublishedRules(c: Content) {
    && |c.published| <= INSERTION_LIMIT
    && (forall i, j | 0 <= i < j < |c.published| ::
          c.published[i].commandId != c.published[j].commandId && c.published[i].blockId != c.published[j].blockId)
    && (forall i | 0 <= i < |c.published| :: PublishedMarkOk(c, c.published[i]))
  }

  predicate PlainOpinionPoll(b: Block) {
    && b.QuestionBlock? && b.question.kind.Poll? && b.question.purpose.Opinion? && b.question.confidence.Off?
    && b.question.delivery.Main? && b.question.basePoints == 0 && b.question.linkedRecheck.None?
    && !b.question.hasMedia && !b.question.fromPack && b.provenance.None?
    && 2 <= |b.question.choices| <= 6 && 10 <= b.question.timeLimitSeconds <= 300
    && (forall i | 0 <= i < |b.question.choices| :: !b.question.choices[i].isCorrect)
  }

  predicate QuickCheckRules(c: Content) {
    c.quickCheck.Some? ==>
      exists i :: 0 <= i < |c.blocks| && c.blocks[i].id == c.quickCheck.value.blockId && PlainOpinionPoll(c.blocks[i])
  }

  /** Every question has a positive, bounded time limit and bounded points. */
  predicate QuestionLimits(blocks: seq<Block>) {
    forall i | 0 <= i < |blocks| && blocks[i].QuestionBlock? ::
      5 <= blocks[i].question.timeLimitSeconds <= 300 && blocks[i].question.basePoints <= 10000
  }

  /** The content schema: what a published Presentation satisfies and every insertion must keep. */
  ghost predicate ContentOk(c: Content) {
    && 1 <= |c.blocks| <= SCHEMA_BLOCK_LIMIT
    && QuestionLimits(c.blocks)
    && BlockIdsUnique(c.blocks) && QuestionIdsUnique(c.blocks) && Distinct(ChoiceIds(c.blocks))
    && LinksForward(c.blocks) && RechecksOwned(c.blocks)
    && PackRules(c.packInsertions) && PublishedRules(c) && QuickCheckRules(c)
    && (exists i :: 0 <= i < |c.blocks| && c.blocks[i].QuestionBlock? && c.blocks[i].question.delivery.Main?)
  }

  // ---------------------------------------------------------------- live insertion

  /** Some diagnostic before position `p` still waits for a recheck at or after it. */
  predicate PendingLinkAcross(blocks: seq<Block>, p: int) {
    exists i, j :: 0 <= i < p <= j < |blocks| && LinkTo(blocks, i, j)
  }

  predicate ClosedInsertionBoundary(s: Session) {
    if !s.status.Active? then false
    else if s.phase.Lobby? then true
    else if !s.phase.ContentShown?
         && !(s.phase.QuestionReveal? && CurrentBlock(s).Some? && CurrentBlock(s).value.QuestionBlock?) then false
    else !PendingLinkAcross(s.content.blocks, s.index + 1)
  }

  function InsertionIndex(s: Session): nat {
    if s.phase.Lobby? then 0 else s.index + 1
  }

  /** `splice(at, 0, ...inserted)`: past the end it appends. */
  function Splice(blocks: seq<Block>, at: nat, inserted: seq<Block>): seq<Block> {
    Prefix(blocks, at) + inserted + Suffix(blocks, at)
  }

  predicate CanInsertPack(s: Session) {
    && s.status.Active? && s.cardsEnabled
    && |s.content.blocks| + 2 <= BLOCK_LIMIT
    && |s.content.packInsertions| + 1 <= INSERTION_LIMIT
    && ClosedInsertionBoundary(s)
  }

  predicate CanInsertPublished(s: Session) {
    && |s.content.blocks| + 1 <= BLOCK_LIMIT
    && |s.content.published| + 1 <= INSERTION_LIMIT
    && ClosedInsertionBoundary(s)
  }

  predicate CanInsertQuickCheck(s: Session) {
    && s.content.quickCheck.None?
    && |s.content.blocks| + 1 <= BLOCK_LIMIT
    && ClosedInsertionBoundary(s)
  }

  /** The checks and the transition shared by the three insertions, once the new content is built. */
  ghost function OpenInserted(s: Session, content: Content, first: Id, fits: bool, published: bool)
    : Result<Option<Transition>, Refusal>
  {
    if !ContentOk(content) then Failure(SchemaRejected)
    else if !fits then Failure(TooLarge)
    else
      var at := InsertionIndex(s);
      Success(Some(Transition(Some(content), QuestionOpen, at, Active, None,
                              Event(QuestionLaunched, Some(at), Some(first), None), published)))
  }

  function CopyPackChoices(choices: seq<Choice>, commandId: Uuid, recheck: bool): seq<Choice> {
    seq(|choices|, i requires 0 <= i < |choices| =>
          choices[i].(id := Copied(commandId, PackChoice(recheck, choices[i].id), 0)))
  }

  function PackBlocks(v: PackVersion, commandId: Uuid): seq<Block> {
    var diagnosticId := Copied(commandId, DiagnosticQuestion, v.id);
    var recheckId := Copied(commandId, RecheckQuestion, v.id);
    var diagnostic := v.diagnostic.(id := diagnosticId, linkedRecheck := Some(recheckId), fromPack := true,
                                    choices := CopyPackChoices(v.diagnostic.choices, commandId, false));
    var recheck := v.recheck.(id := recheckId, linkedRecheck := None, fromPack := true,
                              choices := CopyPackChoices(v.recheck.choices, commandId, true));
    [QuestionBlock(Copied(commandId, DiagnosticBlock, v.id), diagnostic, None),
     QuestionBlock(Copied(commandId, RecheckBlock, v.id), recheck, None)]
  }

  ghost function PackInsertionTransition(s: Session, v: PackVersion, commandId: Uuid, fits: bool)
    : Result<Option<Transition>, Refusal>
  {
    if v.diagnostic.hasMedia || v.recheck.hasMedia || v.probeHasMedia then Failure(Invalid)
    else
      var inserted := PackBlocks(v, commandId);
      var mark := PackInsertion(commandId, v.packId, Baseline(v.id, v.version, v.contentHash, v.cards), None,
                                inserted[0].question.id, inserted[1].question.id);
      var content := s.content.(blocks := Splice(s.content.blocks, InsertionIndex(s), inserted),
                                packInsertions := s.content.packInsertions + [mark]);
      OpenInserted(s, content, inserted[0].id, fits, false)
  }

  predicate StandaloneTextQuestion(q: Question, all: seq<Question>) {
    && !q.hasMedia && q.delivery.Main? && q.linkedRecheck.None? && !q.fromPack
    && (forall i | 0 <= i < |all| :: all[i].linkedRecheck != Some(q.id))
  }

  function PublishedBlockFor(v: QuizVersion, source: Question, commandId: Uuid): Block {
    var choices := seq(|source.choices|, i requires 0 <= i < |source.choices| =>
      source.choices[i].(id := Copied(commandId, PublishedChoice(source.id, i, source.choices[i].id), v.id)));
    var question := source.(id := Copied(commandId, PublishedQuestion(source.id), v.id),
                            delivery := Main, linkedRecheck := None, choices := choices);
    QuestionBlock(Copied(commandId, PublishedBlock(source.id), v.id), question, Some(Provenance(v.id, source.id)))
  }

  ghost function PublishedInsertionTransition(
    s: Session, v: QuizVersion, questionId: Id, contentHash: string, commandId: Uuid, fits: bool)
    : Result<Option<Transition>, Refusal>
  {
    var matches := Filter(v.questions, (q: Question) => q.id == questionId);
    if v.contentHash != contentHash then Failure(Invalid)
    else if |matches| != 1 || !StandaloneTextQuestion(matches[0], v.questions) then Failure(Invalid)
    else
      var block := PublishedBlockFor(v, matches[0], commandId);
      var mark := PublishedMark(commandId, block.id, v.id, matches[0].id);
      var content := s.content.(blocks := Splice(s.content.blocks, InsertionIndex(s), [block]),
                                published := s.content.published + [mark]);
      OpenInserted(s, content, block.id, fits, true)
  }

  function QuickCheckBlockFor(input: QuickCheckInput, commandId: Uuid): Block {
    QuestionBlock(
      Copied(commandId, QuickCheckBlock, 0),
      Question(Copied(commandId, QuickCheckQuestion, 0), Poll, Main, Opinion, Off, None,
               input.timeLimitSeconds, 0,
               seq(input.choiceCount, i requires 0 <= i < input.choiceCount =>
                 Choice(Copied(commandId, QuickCheckChoice(i), 0), false)),
               0.0, 0.0, 0, 0, false, false),
      None)
  }

  ghost function QuickCheckInsertionTransition(s: Session, input: QuickCheckInput, commandId: Uuid, fits: bool)
    : Result<Option<Transition>, Refusal>
  {
    if !input.wording.acceptable || !(2 <= input.choiceCount <= 6) || !(10 <= input.timeLimitSeconds <= 300)
    then Failure(SchemaRejected)
    else
      var block := QuickCheckBlockFor(input, commandId);
      var content := s.content.(blocks := Splice(s.content.blocks, InsertionIndex(s), [block]),
                                quickCheck := Some(QuickCheckMark(commandId, block.id)));
      OpenInserted(s, content, block.id, fits, false)
  }

  // ---------------------------------------------------------------- one action, one transition

  /** The step a handler computes from the session and the library it has read. */
  ghost function Compute(
    s: Session, action: Action, commandId: Uuid, lib: Library): Result<Option<Transition>, Refusal>
  {
    match action
    case Advance => NextTransition(s)
    case StartCard(insertionId, cardId, kind) => RecoveryCardTransition(s, insertionId, cardId, kind)
    case InsertQuickCheck(input) =>
      if !lib.quickChecksEnabled then Failure(NotFound)
      else if !CanInsertQuickCheck(s) then Failure(PhaseClosed)
      else QuickCheckInsertionTransition(s, input, commandId, lib.contentFits)
    case InsertPublished(versionId, questionId, contentHash) =>
      if !lib.publishedEnabled then Failure(NotFound)
      else if !CanInsertPublished(s) then Failure(PhaseClosed)
      else if lib.quiz.None? || lib.quiz.value.id != versionId || lib.quiz.value.archived then Failure(NotFound)
      else PublishedInsertionTransition(s, lib.quiz.value, questionId, contentHash, commandId, lib.contentFits)
    case InsertPack(packVersionId) =>
      if !lib.packsEnabled then Failure(NotFound)
      else if !CanInsertPack(s) then Failure(PhaseClosed)
      else if lib.pack.None? || lib.pack.value.id != packVersionId then Failure(NotFound)
      else PackInsertionTransition(s, lib.pack.value, commandId, lib.contentFits)
  }

  /** The answer window a commit opens: timed questions close after their limit, flex ones never. */
  function Window(s: Session, content: Content, t: Transition, now: int): (Option<int>, Option<int>) {
    if !t.phase.QuestionOpen? then (None, None)
    else if s.flex then (Some(now), None)
    else match BlockAt(content.blocks, t.index)
      case Some(QuestionBlock(_, q, _)) => (Some(now), Some(now + q.timeLimitSeconds * 1000))
      case _ => (Some(now), None)
  }

  /** The session record after the repository commits `t` at time `now`. */
  function Commit(s: Session, t: Transition, now: int): Session {
    var content := if t.content.Some? then t.content.value else s.content;
    var window := Window(s, content, t, now);
    Session(t.status, t.phase, t.index, s.revision + 1, content, s.cardsEnabled, s.flex, t.intervention,
            window.0, window.1,
            if !s.status.Finished? && t.status.Finished? then Some(now) else s.finishedAt,
            s.liveExpiresAt)
  }

  /** A new room: the published content, in the lobby, at revision 0. */
  function NewSession(content: Content, cardsEnabled: bool, flex: bool, liveExpiresAt: int): Session {
    Session(Active, Lobby, -1, 0, content, cardsEnabled, flex, None, None, None, None, liveExpiresAt)
  }
}
