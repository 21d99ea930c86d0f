/**
 * Runs of the live session: any mixture of advances, Pack cards and live insertions, in any order.
 * The timeline records what was shown; the lemmas relate it to the block list at every point.
 */
module SessionRuns {
  import opened Common
  import opened SessionModel

  datatype Stage = Stage(session: Session, timeline: seq<Event>)

  datatype Step = Step(action: Action, commandId: Uuid, lib: Library, now: int)

  /** A refused step, and any step after the end, leaves the stage alone. */
  ghost function Take(g: Stage, step: Step): Stage {
    match Compute(g.session, step.action, step.commandId, step.lib)
    case Success(Some(t)) => Stage(Commit(g.session, t, step.now), g.timeline + [t.event])
    case _ => g
  }

  ghost function Play(g: Stage, steps: seq<Step>): Stage
    decreases |steps|
  {
    if steps == [] then g else Play(Take(g, steps[0]), steps[1..])
  }

  function Start(content: Content, cardsEnabled: bool, flex: bool, liveExpiresAt: int): Stage {
    Stage(NewSession(content, cardsEnabled, flex, liveExpiresAt), [])
  }

  // ---------------------------------------------------------------- the invariant of one session

  predicate ShowsQuestion(s: Session) {
    0 <= s.index < |s.content.blocks| && s.content.blocks[s.index].QuestionBlock?
  }

  /** Status, phase and index agree with each other and with the block list. */
  predicate WellPlaced(s: Session) {
    && |s.content.blocks| >= 1
    && (s.status.Finished? <==> s.phase.Done?)
    && match s.phase
       case Lobby => s.index == -1
       case ContentShown => 0 <= s.index < |s.content.blocks| && s.content.blocks[s.index].ContentBlock?
       case QuestionOpen => ShowsQuestion(s)
       case QuestionReveal => ShowsQuestion(s)
       case Intervention => ShowsQuestion(s)
       case Done => s.index == |s.content.blocks| - 1
  }

  // ---------------------------------------------------------------- the five kinds of transition

  predicate IsReveal(s: Session, t: Transition) {
    && s.phase.QuestionOpen? && t.phase.QuestionReveal? && t.index == s.index && t.status.Active?
    && t.content.None? && t.event.kind.QuestionRevealed?
  }

  predicate IsIntervene(s: Session, t: Transition) {
    && s.phase.QuestionReveal? && t.phase.Intervention? && t.index == s.index && t.status.Active?
    && t.content.None? && t.event.kind.InterventionPresented?
  }

  predicate Resting(p: Phase) {
    p.Lobby? || p.ContentShown? || p.QuestionReveal? || p.Intervention?
  }

  predicate IsNext(s: Session, t: Transition) {
    Resting(s.phase) && s.index + 1 < |s.content.blocks| && t == ToBlock(s.content.blocks, s.index + 1)
  }

  predicate IsFinish(s: Session, t: Transition) {
    Resting(s.phase) && s.index + 1 >= |s.content.blocks| && t == ToFinished(s)
  }

  /** `inserted` goes in just after the current block and its first question opens at once. */
  predicate IsInsert(s: Session, t: Transition, inserted: seq<Block>) {
    && Resting(s.phase) && !s.phase.Intervention? && s.status.Active?
    && 1 <= |inserted| <= 2 && inserted[0].QuestionBlock?
    && s.index + 1 <= |s.content.blocks|
    && t.content.Some?
    && t.content.value.blocks == s.content.blocks[..s.index + 1] + inserted + s.content.blocks[s.index + 1..]
    && |t.content.value.blocks| <= BLOCK_LIMIT
    && !PendingLinkAcross(s.content.blocks, s.index + 1)
    && t.phase.QuestionOpen? && t.index == s.index + 1 && t.status.Active?
    && t.event == Event(QuestionLaunched, Some(s.index + 1), Some(inserted[0].id), None)
  }

  /** What the new content has right after the current block, by its extra length. */
  function InsertedBy(s: Session, t: Transition): seq<Block> {
    if t.content.None? then []
    else
      var start, extra := s.index + 1, |t.content.value.blocks| - |s.content.blocks|;
      if extra >= 0 && start + extra <= |t.content.value.blocks|
      then t.content.value.blocks[start..start + extra] else []
  }

  predicate InsertsSomething(s: Session, t: Transition) {
    IsInsert(s, t, InsertedBy(s, t))
  }

  lemma InsertIsFound(s: Session, t: Transition, inserted: seq<Block>)
    requires IsInsert(s, t, inserted)
    ensures InsertsSomething(s, t) && InsertedBy(s, t) == inserted
  {
    var blocks, start := t.content.value.blocks, s.index + 1;
    assert |blocks| == |s.content.blocks| + |inserted|;
    assert blocks[start..start + |inserted|] == inserted;
  }

  lemma OpenInsertedShape(s: Session, content: Content, inserted: seq<Block>, fits: bool, published: bool)
    requires WellPlaced(s) && ClosedInsertionBoundary(s)
    requires 1 <= |inserted| <= 2 && inserted[0].QuestionBlock?
    requires content.blocks == Splice(s.content.blocks, InsertionIndex(s), inserted)
    requires |s.content.blocks| + |inserted| <= BLOCK_LIMIT
    ensures OpenInserted(s, content, inserted[0].id, fits, published).Success? ==>
              IsInsert(s, OpenInserted(s, content, inserted[0].id, fits, published).value.value, inserted)
  {
    var blocks, p := s.content.blocks, s.index + 1;
    assert Prefix(blocks, p) == blocks[..p] && Suffix(blocks, p) == blocks[p..];
  }

  lemma QuickCheckShape(s: Session, input: QuickCheckInput, commandId: Uuid, fits: bool)
    requires WellPlaced(s) && CanInsertQuickCheck(s)
    requires QuickCheckInsertionTransition(s, input, commandId, fits).Success?
    ensures var r := QuickCheckInsertionTransition(s, input, commandId, fits).value;
            r.Some? && IsInsert(s, r.value, [QuickCheckBlockFor(input, commandId)])
  {
    hide ContentOk;
    var block := QuickCheckBlockFor(input, commandId);
    var t := QuickCheckInsertionTransition(s, input, commandId, fits).value.value;
    OpenInsertedShape(s, t.content.value, [block], fits, false);
  }

  lemma PublishedShape(s: Session, v: QuizVersion, questionId: Id, contentHash: string, commandId: Uuid, fits: bool)
    requires WellPlaced(s) && CanInsertPublished(s)
    requires PublishedInsertionTransition(s, v, questionId, contentHash, commandId, fits).Success?
    ensures var r := PublishedInsertionTransition(s, v, questionId, contentHash, commandId, fits).value;
            var matches := Filter(v.questions, (q: Question) => q.id == questionId);
            && r.Some? && v.contentHash == contentHash
            && |matches| == 1 && StandaloneTextQuestion(matches[0], v.questions)
            && IsInsert(s, r.value, [PublishedBlockFor(v, matches[0], commandId)])
  {
    hide ContentOk;
    var source := Filter(v.questions, (q: Question) => q.id == questionId)[0];
    var t := PublishedInsertionTransition(s, v, questionId, contentHash, commandId, fits).value.value;
    OpenInsertedShape(s, t.content.value, [PublishedBlockFor(v, source, commandId)], fits, true);
  }

  lemma PackShape(s: Session, v: PackVersion, commandId: Uuid, fits: bool)
    requires WellPlaced(s) && CanInsertPack(s)
    requires PackInsertionTransition(s, v, commandId, fits).Success?
    ensures var r := PackInsertionTransition(s, v, commandId, fits).value;
            r.Some? && IsInsert(s, r.value, PackBlocks(v, commandId))
  {
    hide ContentOk;
    var t := PackInsertionTransition(s, v, commandId, fits).value.value;
    OpenInsertedShape(s, t.content.value, PackBlocks(v, commandId), fits, false);
  }

  lemma NextShape(s: Session)
    requires WellPlaced(s)
    ensures NextTransition(s).Success? && (NextTransition(s).value.None? <==> s.phase.Done?)
    ensures NextTransition(s).value.Some? ==> IsMove(s, NextTransition(s).value.value)
  {
  }

  lemma CardShape(s: Session, insertionId: Uuid, cardId: Uuid, kind: InterventionKind)
    requires WellPlaced(s)
    ensures RecoveryCardTransition(s, insertionId, cardId, kind) != Failure(BrokenSession)
    ensures RecoveryCardTransition(s, insertionId, cardId, kind).Success? ==>
              var r := RecoveryCardTransition(s, insertionId, cardId, kind).value;
              r.Some? && IsIntervene(s, r.value)
  {
    hide FrozenCards;
  }

  predicate IsMove(s: Session, t: Transition) {
    IsReveal(s, t) || IsIntervene(s, t) || IsNext(s, t) || IsFinish(s, t)
  }

  /** Every transition any action can compute from a well-placed session is one of five. */
  lemma TransitionShape(s: Session, action: Action, commandId: Uuid, lib: Library)
    requires WellPlaced(s)
    ensures Compute(s, action, commandId, lib).Success? && Compute(s, action, commandId, lib).value.None?
            ==> s.phase.Done?
    ensures Compute(s, action, commandId, lib).Success? && Compute(s, action, commandId, lib).value.Some? ==>
              var t := Compute(s, action, commandId, lib).value.value;
              IsMove(s, t) || InsertsSomething(s, t)
  {
    hide ContentOk, FrozenCards, QuickCheckInsertionTransition, PublishedInsertionTransition, PackInsertionTransition;
    hide RecoveryCardTransition, NextTransition;
    hide IsInsert, StandaloneTextQuestion, QuickCheckBlockFor, PublishedBlockFor, PackBlocks, InsertsSomething;
    if Compute(s, action, commandId, lib).Success? {
      var r := Compute(s, action, commandId, lib).value;
      match action
      case Advance => NextShape(s);
      case StartCard(insertionId, cardId, kind) => CardShape(s, insertionId, cardId, kind);
      case InsertQuickCheck(input) =>
        QuickCheckShape(s, input, commandId, lib.contentFits);
        InsertIsFound(s, r.value, [QuickCheckBlockFor(input, commandId)]);
      case InsertPublished(_, questionId, contentHash) =>
        var source := Filter(lib.quiz.value.questions, (q: Question) => q.id == questionId);
        PublishedShape(s, lib.quiz.value, questionId, contentHash, commandId, lib.contentFits);
        InsertIsFound(s, r.value, [PublishedBlockFor(lib.quiz.value, source[0], commandId)]);
      case InsertPack(_) =>
        PackShape(s, lib.pack.value, commandId, lib.contentFits);
        InsertIsFound(s, r.value, PackBlocks(lib.pack.value, commandId));
    }
  }

  /** Content only ever changes to content that passed the schema. */
  lemma ComputedContentIsOk(s: Session, action: Action, commandId: Uuid, lib: Library)
    ensures Compute(s, action, commandId, lib).Success? && Compute(s, action, commandId, lib).value.Some?
            && Compute(s, action, commandId, lib).value.value.content.Some?
            ==> ContentOk(Compute(s, action, commandId, lib).value.value.content.value)
  {
    hide ContentOk, FrozenCards;
  }

  lemma MoveKeepsPlace(s: Session, t: Transition, now: int)
    requires WellPlaced(s) && IsMove(s, t)
    ensures WellPlaced(Commit(s, t, now))
  {
  }

  lemma InsertKeepsPlace(s: Session, t: Transition, inserted: seq<Block>, now: int)
    requires IsInsert(s, t, inserted)
    ensures WellPlaced(Commit(s, t, now))
  {
    assert t.content.value.blocks[s.index + 1] == inserted[0];
  }

  lemma CommitKeepsPlace(s: Session, t: Transition, now: int)
    requires WellPlaced(s)
    requires IsMove(s, t) || InsertsSomething(s, t)
    ensures WellPlaced(Commit(s, t, now))
  {
    if IsMove(s, t) {
      MoveKeepsPlace(s, t, now);
    } else {
      var inserted := InsertedBy(s, t);
      InsertKeepsPlace(s, t, inserted, now);
    }
  }

  // ---------------------------------------------------------------- what the timeline shows

  predicate Shows(e: Event) {
    (e.kind.ContentPresented? || e.kind.QuestionLaunched?) && e.blockId.Some?
  }

  /** The ids of the blocks put in front of the room, oldest first. */
  function Presented(timeline: seq<Event>): seq<Id> {
    if timeline == [] then []
    else
      var rest := Presented(timeline[..|timeline| - 1]);
      var last := timeline[|timeline| - 1];
      if Shows(last) then rest + [last.blockId.value] else rest
  }

  lemma PresentedAppend(timeline: seq<Event>, e: Event)
    ensures Presented(timeline + [e]) == Presented(timeline) + if Shows(e) then [e.blockId.value] else []
  {
    assert (timeline + [e])[..|timeline|] == timeline;
  }

  function BlockIds(blocks: seq<Block>): (ids: seq<Id>)
    ensures |ids| == |blocks|
    ensures forall i | 0 <= i < |blocks| :: ids[i] == blocks[i].id
  {
    seq(|blocks|, i requires 0 <= i < |blocks| => blocks[i].id)
  }

  /** The room has been shown exactly the blocks up to the current one, and one event was logged a revision. */
  predicate TraceOk(g: Stage) {
    && g.session.index < |g.session.content.blocks|
    && Presented(g.timeline) == BlockIds(g.session.content.blocks[..g.session.index + 1])
    && |g.timeline| == g.session.revision
  }

  lemma InsertedPrefix(s: Session, t: Transition, inserted: seq<Block>)
    requires IsInsert(s, t, inserted)
    ensures |t.content.value.blocks| == |s.content.blocks| + |inserted|
    ensures t.content.value.blocks[..s.index + 1] == s.content.blocks[..s.index + 1]
    ensures t.content.value.blocks[..s.index + 2] == s.content.blocks[..s.index + 1] + [inserted[0]]
  {
  }

  lemma MoveKeepsTrace(g: Stage, t: Transition, now: int)
    requires WellPlaced(g.session) && TraceOk(g) && IsMove(g.session, t)
    ensures TraceOk(Stage(Commit(g.session, t, now), g.timeline + [t.event]))
  {
    var s := g.session;
    PresentedAppend(g.timeline, t.event);
    if IsNext(s, t) {
      assert s.content.blocks[..s.index + 2] == s.content.blocks[..s.index + 1] + [s.content.blocks[s.index + 1]];
    }
  }

  lemma InsertKeepsTrace(g: Stage, t: Transition, inserted: seq<Block>, now: int)
    requires TraceOk(g) && IsInsert(g.session, t, inserted)
    ensures TraceOk(Stage(Commit(g.session, t, now), g.timeline + [t.event]))
  {
    PresentedAppend(g.timeline, t.event);
    InsertedPrefix(g.session, t, inserted);
  }

  lemma CommitKeepsTrace(g: Stage, t: Transition, now: int)
    requires WellPlaced(g.session) && TraceOk(g)
    requires IsMove(g.session, t) || InsertsSomething(g.session, t)
    ensures TraceOk(Stage(Commit(g.session, t, now), g.timeline + [t.event]))
  {
    if IsMove(g.session, t) {
      MoveKeepsTrace(g, t, now);
    } else {
      var inserted := InsertedBy(g.session, t);
      InsertKeepsTrace(g, t, inserted, now);
    }
  }

  // ---------------------------------------------------------------- published blocks keep their order

  predicate OneOf(b: Block, originals: seq<Block>) {
    exists i :: 0 <= i < |originals| && originals[i].id == b.id
  }

  /** Deleting every block that was not published gives back the published list. */
  ghost predicate KeepsOriginals(blocks: seq<Block>, originals: seq<Block>) {
    Filter(blocks, (b: Block) => OneOf(b, originals)) == originals
  }

  lemma InsertedIdIsNew(s: Session, t: Transition, inserted: seq<Block>, m: int, k: int)
    requires IsInsert(s, t, inserted) && BlockIdsUnique(t.content.value.blocks)
    requires 0 <= m < |inserted| && 0 <= k < |s.content.blocks|
    ensures s.content.blocks[k].id != inserted[m].id
  {
    var p, after := s.index + 1, t.content.value.blocks;
    var moved := if k < p then k else k + |inserted|;
    assert after[moved] == s.content.blocks[k] && after[p + m] == inserted[m];
    assert moved < p + m || p + m < moved;
  }

  lemma InsertedIsNotOriginal(s: Session, t: Transition, inserted: seq<Block>, originals: seq<Block>, m: int)
    requires IsInsert(s, t, inserted) && BlockIdsUnique(t.content.value.blocks)
    requires KeepsOriginals(s.content.blocks, originals) && 0 <= m < |inserted|
    ensures !OneOf(inserted[m], originals)
  {
    forall i | 0 <= i < |originals| ensures originals[i].id != inserted[m].id {
      assert originals[i] in originals;
      FilterMember(s.content.blocks, (b: Block) => OneOf(b, originals), originals[i]);
      var k :| 0 <= k < |s.content.blocks| && s.content.blocks[k] == originals[i];
      InsertedIdIsNew(s, t, inserted, m, k);
    }
  }

  lemma InsertionKeepsOriginals(s: Session, t: Transition, inserted: seq<Block>, originals: seq<Block>)
    requires IsInsert(s, t, inserted) && BlockIdsUnique(t.content.value.blocks)
    requires KeepsOriginals(s.content.blocks, originals)
    ensures KeepsOriginals(t.content.value.blocks, originals)
  {
    var keep := (b: Block) => OneOf(b, originals);
    var p := s.index + 1;
    forall b | b in inserted ensures !keep(b) {
      var m :| 0 <= m < |inserted| && inserted[m] == b;
      InsertedIsNotOriginal(s, t, inserted, originals, m);
    }
    FilterSplice(s.content.blocks[..p], inserted, s.content.blocks[p..], keep);
    assert s.content.blocks == s.content.blocks[..p] + s.content.blocks[p..];
  }

  // ---------------------------------------------------------------- linked pairs keep their distance

  /** `later` holds the pair `i, j` of `earlier`, moved by one common offset. */
  predicate PairMoved(earlier: seq<Block>, later: seq<Block>, i: int, j: int, offset: nat)
    requires 0 <= i < |earlier| && 0 <= j < |earlier|
  {
    i + offset < |later| && j + offset < |later| && later[i + offset] == earlier[i] && later[j + offset] == earlier[j]
  }

  ghost predicate PairKept(earlier: seq<Block>, later: seq<Block>, i: int, j: int)
    requires 0 <= i < |earlier| && 0 <= j < |earlier|
  {
    exists offset: nat :: PairMoved(earlier, later, i, j, offset)
  }

  lemma LinkIsForward(blocks: seq<Block>, i: int, j: int)
    requires QuestionIdsUnique(blocks) && LinksForward(blocks) && LinkTo(blocks, i, j)
    ensures i < j
  {
    assert HasLinkedRecheck(blocks[i]);
    var k :| i < k < |blocks| && LinkTo(blocks, i, k) && blocks[k].question.delivery.Recheck?;
    assert j == k || j < k || k < j;
  }

  lemma InsertionMovesPair(s: Session, t: Transition, inserted: seq<Block>, i: int, j: int)
    requires IsInsert(s, t, inserted) && LinkTo(s.content.blocks, i, j) && i < j
    ensures PairKept(s.content.blocks, t.content.value.blocks, i, j)
  {
    var p := s.index + 1;
    assert !(i < p <= j);
    assert PairMoved(s.content.blocks, t.content.value.blocks, i, j, if j < p then 0 else |inserted|);
  }

  lemma CommitKeepsPair(s: Session, t: Transition, now: int, i: int, j: int)
    requires LinkTo(s.content.blocks, i, j) && i < j
    requires IsMove(s, t) || InsertsSomething(s, t)
    ensures PairKept(s.content.blocks, Commit(s, t, now).content.blocks, i, j)
  {
    if InsertsSomething(s, t) {
      var inserted := InsertedBy(s, t);
      InsertionMovesPair(s, t, inserted, i, j);
    } else {
      assert PairMoved(s.content.blocks, s.content.blocks, i, j, 0);
    }
  }

  lemma TakeKeepsPlace(g: Stage, step: Step)
    requires WellPlaced(g.session)
    ensures WellPlaced(Take(g, step).session)
  {
    hide Compute;
    TransitionShape(g.session, step.action, step.commandId, step.lib);
    match Compute(g.session, step.action, step.commandId, step.lib)
    case Success(Some(t)) => CommitKeepsPlace(g.session, t, step.now);
    case _ =>
  }

  lemma TakeKeepsPair(g: Stage, step: Step, i: int, j: int)
    requires WellPlaced(g.session) && LinkTo(g.session.content.blocks, i, j) && i < j
    ensures PairKept(g.session.content.blocks, Take(g, step).session.content.blocks, i, j)
  {
    hide Compute;
    TransitionShape(g.session, step.action, step.commandId, step.lib);
    match Compute(g.session, step.action, step.commandId, step.lib)
    case Success(Some(t)) => CommitKeepsPair(g.session, t, step.now, i, j);
    case _ => assert PairMoved(g.session.content.blocks, g.session.content.blocks, i, j, 0);
  }

  lemma {:induction false} PlayKeepsPair(g: Stage, steps: seq<Step>, i: int, j: int)
    requires WellPlaced(g.session) && LinkTo(g.session.content.blocks, i, j) && i < j
    ensures PairKept(g.session.content.blocks, Play(g, steps).session.content.blocks, i, j)
    decreases |steps|
  {
    hide Compute;
    var blocks := g.session.content.blocks;
    if steps == [] {
      assert PairMoved(blocks, blocks, i, j, 0);
    } else {
      var h := Take(g, steps[0]);
      TakeKeepsPair(g, steps[0], i, j);
      var first: nat :| PairMoved(blocks, h.session.content.blocks, i, j, first);
      TakeKeepsPlace(g, steps[0]);
      PlayKeepsPair(h, steps[1..], i + first, j + first);
      var rest: nat :| PairMoved(h.session.content.blocks, Play(h, steps[1..]).session.content.blocks, i + first,
                                 j + first, rest);
      assert PairMoved(blocks, Play(g, steps).session.content.blocks, i, j, first + rest);
    }
  }

  /** Over every run a diagnostic and its recheck stay exactly as far apart as they are now. */
  lemma LinkDistanceNeverChanges(g: Stage, steps: seq<Step>, i: int, j: int)
    requires WellPlaced(g.session) && ContentOk(g.session.content) && LinkTo(g.session.content.blocks, i, j)
    ensures PairKept(g.session.content.blocks, Play(g, steps).session.content.blocks, i, j)
  {
    hide Compute, Play;
    LinkIsForward(g.session.content.blocks, i, j);
    PlayKeepsPair(g, steps, i, j);
  }

  predicate PackAt(blocks: seq<Block>, k: int, commandId: Uuid, versionId: Uuid) {
    && 0 <= k < |blocks| - 1 && LinkTo(blocks, k, k + 1)
    && blocks[k].id == Copied(commandId, DiagnosticBlock, versionId)
    && blocks[k + 1].id == Copied(commandId, RecheckBlock, versionId)
  }

  lemma PackSplice(blocks: seq<Block>, p: nat, v: PackVersion, commandId: Uuid)
    requires p <= |blocks|
    ensures PackAt(Splice(blocks, p, PackBlocks(v, commandId)), p, commandId, v.id)
  {
    var after, pair := Splice(blocks, p, PackBlocks(v, commandId)), PackBlocks(v, commandId);
    assert |Prefix(blocks, p)| == p;
    assert after[p] == pair[0] && after[p + 1] == pair[1];
  }

  lemma PackTransitionSplices(s: Session, v: PackVersion, commandId: Uuid, fits: bool)
    requires PackInsertionTransition(s, v, commandId, fits).Success?
    ensures var r := PackInsertionTransition(s, v, commandId, fits).value;
            r.Some? && r.value.content.Some?
            && r.value.content.value.blocks == Splice(s.content.blocks, InsertionIndex(s), PackBlocks(v, commandId))
  {
  }

  lemma PackGoesInAsAPair(g: Stage, step: Step)
    requires WellPlaced(g.session) && step.action.InsertPack?
    requires Compute(g.session, step.action, step.commandId, step.lib).Success?
    ensures PackAt(Take(g, step).session.content.blocks, g.session.index + 1, step.commandId, step.action.packVersionId)
  {
    hide ContentOk;
    PackTransitionSplices(g.session, step.lib.pack.value, step.commandId, step.lib.contentFits);
    PackSplice(g.session.content.blocks, InsertionIndex(g.session), step.lib.pack.value, step.commandId);
  }

  /** A Pack inserted live stays one adjacent diagnostic and recheck, whatever happens afterwards. */
  lemma PackPairStaysAdjacent(g: Stage, step: Step, later: seq<Step>)
    requires WellPlaced(g.session) && step.action.InsertPack?
    requires Compute(g.session, step.action, step.commandId, step.lib).Success?
    ensures exists k ::
            PackAt(Play(Take(g, step), later).session.content.blocks, k, step.commandId, step.action.packVersionId)
  {
    hide ContentOk;
    var h, p := Take(g, step), g.session.index + 1;
    PackGoesInAsAPair(g, step);
    TakeKeepsPlace(g, step);
    PlayKeepsPair(h, later, p, p + 1);
    var blocks := Play(h, later).session.content.blocks;
    var offset: nat :| PairMoved(h.session.content.blocks, blocks, p, p + 1, offset);
    assert PackAt(blocks, p + offset, step.commandId, step.action.packVersionId);
  }

  // ---------------------------------------------------------------- the invariant over whole runs

  ghost predicate RunInvariant(g: Stage, originals: seq<Block>) {
    && WellPlaced(g.session) && TraceOk(g) && RevisionFits(g.session)
    && KeepsOriginals(g.session.content.blocks, originals)
  }

  lemma TakeKeepsInvariant(g: Stage, step: Step, originals: seq<Block>)
    requires RunInvariant(g, originals)
    ensures RunInvariant(Take(g, step), originals)
  {
    hide Compute;
    TransitionShape(g.session, step.action, step.commandId, step.lib);
    match Compute(g.session, step.action, step.commandId, step.lib)
    case Success(Some(t)) =>
      CommitKeepsPlace(g.session, t, step.now);
      CommitKeepsTrace(g, t, step.now);
      CommitKeepsFit(g.session, t, step.now);
      if InsertsSomething(g.session, t) {
        var inserted := InsertedBy(g.session, t);
        ComputedIdsAreUnique(g.session, step.action, step.commandId, step.lib);
        InsertionKeepsOriginals(g.session, t, inserted, originals);
      }
    case _ =>
  }

  lemma ComputedIdsAreUnique(s: Session, action: Action, commandId: Uuid, lib: Library)
    requires Compute(s, action, commandId, lib).Success? && Compute(s, action, commandId, lib).value.Some?
    requires Compute(s, action, commandId, lib).value.value.content.Some?
    ensures BlockIdsUnique(Compute(s, action, commandId, lib).value.value.content.value.blocks)
  {
    ComputedContentIsOk(s, action, commandId, lib);
  }

  lemma TakeKeepsContent(g: Stage, step: Step)
    requires ContentOk(g.session.content)
    ensures ContentOk(Take(g, step).session.content)
  {
    hide ContentOk, Compute;
    ComputedContentIsOk(g.session, step.action, step.commandId, step.lib);
  }

  lemma {:induction false} PlayKeepsContent(g: Stage, steps: seq<Step>)
    requires ContentOk(g.session.content)
    ensures ContentOk(Play(g, steps).session.content)
    decreases |steps|
  {
    if steps != [] {
      TakeKeepsContent(g, steps[0]);
      PlayKeepsContent(Take(g, steps[0]), steps[1..]);
    }
  }

  lemma {:induction false} PlayKeepsInvariant(g: Stage, steps: seq<Step>, originals: seq<Block>)
    requires RunInvariant(g, originals)
    ensures RunInvariant(Play(g, steps), originals)
    decreases |steps|
  {
    hide Compute;
    if steps != [] {
      TakeKeepsInvariant(g, steps[0], originals);
      PlayKeepsInvariant(Take(g, steps[0]), steps[1..], originals);
    }
  }

  lemma StartInvariant(content: Content, cardsEnabled: bool, flex: bool, liveExpiresAt: int)
    requires ContentOk(content)
    ensures RunInvariant(Start(content, cardsEnabled, flex, liveExpiresAt), content.blocks)
  {
    var keep := (b: Block) => OneOf(b, content.blocks);
    forall b | b in content.blocks ensures keep(b) {
      var i :| 0 <= i < |content.blocks| && content.blocks[i] == b;
      assert content.blocks[i].id == b.id;
    }
    FilterEverything(content.blocks, keep);
  }

  /**
   * In every reachable session the room has seen exactly the blocks of the current list up to the index,
   * and the published blocks are still there in their published order.
   */
  lemma PresentedIsAPrefix(content: Content, cardsEnabled: bool, flex: bool, liveExpiresAt: int, steps: seq<Step>)
    requires ContentOk(content)
    ensures var g := Play(Start(content, cardsEnabled, flex, liveExpiresAt), steps);
            && g.session.index < |g.session.content.blocks|
            && Presented(g.timeline) == BlockIds(g.session.content.blocks[..g.session.index + 1])
            && KeepsOriginals(g.session.content.blocks, content.blocks)
            && ContentOk(g.session.content)
  {
    hide Compute;
    StartInvariant(content, cardsEnabled, flex, liveExpiresAt);
    PlayKeepsInvariant(Start(content, cardsEnabled, flex, liveExpiresAt), steps, content.blocks);
    PlayKeepsContent(Start(content, cardsEnabled, flex, liveExpiresAt), steps);
  }

  lemma WholeListShown(g: Stage)
    requires WellPlaced(g.session) && TraceOk(g) && g.session.status.Finished?
    ensures Presented(g.timeline) == BlockIds(g.session.content.blocks)
  {
    var blocks := g.session.content.blocks;
    assert blocks[..|blocks|] == blocks;
  }

  lemma UniqueIdsAreDistinct(blocks: seq<Block>)
    requires BlockIdsUnique(blocks)
    ensures Distinct(BlockIds(blocks))
  {
  }

  /** A finished run has shown every block, inserted ones included, exactly once and in order. */
  lemma FinishedRunShowsEveryBlockOnce(
    content: Content, cardsEnabled: bool, flex: bool, liveExpiresAt: int, steps: seq<Step>)
    requires ContentOk(content)
    requires Play(Start(content, cardsEnabled, flex, liveExpiresAt), steps).session.status.Finished?
    ensures var g := Play(Start(content, cardsEnabled, flex, liveExpiresAt), steps);
            Presented(g.timeline) == BlockIds(g.session.content.blocks) && Distinct(Presented(g.timeline))
  {
    hide Compute;
    var start := Start(content, cardsEnabled, flex, liveExpiresAt);
    PresentedIsAPrefix(content, cardsEnabled, flex, liveExpiresAt, steps);
    StartInvariant(content, cardsEnabled, flex, liveExpiresAt);
    PlayKeepsInvariant(start, steps, content.blocks);
    WholeListShown(Play(start, steps));
    UniqueIdsAreDistinct(Play(start, steps).session.content.blocks);
  }

  /** No step ever removes or alters a block. */
  lemma TakeKeepsBlocks(g: Stage, step: Step, b: Block)
    requires WellPlaced(g.session) && b in g.session.content.blocks
    ensures b in Take(g, step).session.content.blocks
  {
    hide Compute;
    TransitionShape(g.session, step.action, step.commandId, step.lib);
    match Compute(g.session, step.action, step.commandId, step.lib)
    case Success(Some(t)) =>
      if !IsMove(g.session, t) {
        var inserted := InsertedBy(g.session, t);
        InsertKeepsBlocks(g.session, t, inserted, b);
      }
    case _ =>
  }

  lemma InsertKeepsBlocks(s: Session, t: Transition, inserted: seq<Block>, b: Block)
    requires IsInsert(s, t, inserted) && b in s.content.blocks
    ensures b in t.content.value.blocks
  {
    var k :| 0 <= k < |s.content.blocks| && s.content.blocks[k] == b;
    assert t.content.value.blocks[if k < s.index + 1 then k else k + |inserted|] == b;
  }

  // ---------------------------------------------------------------- every run ends

  function PhaseRank(p: Phase): nat {
    match p
    case QuestionOpen => 3
    case QuestionReveal => 2
    case Lobby => 1
    case ContentShown => 1
    case Intervention => 1
    case Done => 0
  }

  function Growth(s: Session): nat {
    if |s.content.blocks| < BLOCK_LIMIT then BLOCK_LIMIT - |s.content.blocks| else 0
  }

  /** Smaller in (room left to grow, blocks still ahead, rank of the phase), read left to right. */
  predicate CloserToEnd(later: Session, earlier: Session) {
    || Growth(later) < Growth(earlier)
    || (Growth(later) == Growth(earlier)
        && (|| |later.content.blocks| - later.index < |earlier.content.blocks| - earlier.index
            || (|later.content.blocks| - later.index == |earlier.content.blocks| - earlier.index
                && PhaseRank(later.phase) < PhaseRank(earlier.phase))))
  }

  lemma MoveMakesProgress(s: Session, t: Transition, now: int)
    requires WellPlaced(s) && IsMove(s, t)
    ensures CloserToEnd(Commit(s, t, now), s)
  {
  }

  lemma InsertMakesProgress(s: Session, t: Transition, inserted: seq<Block>, now: int)
    requires IsInsert(s, t, inserted)
    ensures CloserToEnd(Commit(s, t, now), s)
  {
    InsertedPrefix(s, t, inserted);
  }

  /** Every accepted step, insertions included, brings the session strictly closer to its end. */
  lemma AcceptedStepMakesProgress(g: Stage, step: Step)
    requires WellPlaced(g.session) && Take(g, step) != g
    ensures CloserToEnd(Take(g, step).session, g.session)
    ensures Take(g, step).session.revision == g.session.revision + 1
  {
    hide Compute;
    TransitionShape(g.session, step.action, step.commandId, step.lib);
    var t := Compute(g.session, step.action, step.commandId, step.lib).value.value;
    if IsMove(g.session, t) {
      MoveMakesProgress(g.session, t, step.now);
    } else {
      var inserted := InsertedBy(g.session, t);
      InsertMakesProgress(g.session, t, inserted, step.now);
    }
  }

  /** Each block costs at most three commits before the index moves past it. */
  predicate RevisionFits(s: Session) {
    s.revision <= match s.phase
                  case Lobby => 0
                  case ContentShown => 3 * s.index + 1
                  case QuestionOpen => 3 * s.index + 1
                  case QuestionReveal => 3 * s.index + 2
                  case Intervention => 3 * s.index + 3
                  case Done => 3 * s.index + 4
  }

  lemma MoveKeepsFit(s: Session, t: Transition, now: int)
    requires WellPlaced(s) && RevisionFits(s) && IsMove(s, t)
    ensures RevisionFits(Commit(s, t, now))
  {
  }

  lemma InsertKeepsFit(s: Session, t: Transition, inserted: seq<Block>, now: int)
    requires WellPlaced(s) && RevisionFits(s) && IsInsert(s, t, inserted)
    ensures RevisionFits(Commit(s, t, now))
  {
  }

  lemma CommitKeepsFit(s: Session, t: Transition, now: int)
    requires WellPlaced(s) && RevisionFits(s)
    requires IsMove(s, t) || InsertsSomething(s, t)
    ensures RevisionFits(Commit(s, t, now))
  {
    if IsMove(s, t) {
      MoveKeepsFit(s, t, now);
    } else {
      var inserted := InsertedBy(s, t);
      InsertKeepsFit(s, t, inserted, now);
    }
  }

  /** The block list never shrinks, and an insertion leaves it at the cap or below. */
  predicate Capped(before: nat, after: nat) {
    before <= after && (after == before || after <= BLOCK_LIMIT)
  }

  lemma InsertIsCapped(s: Session, t: Transition, inserted: seq<Block>)
    requires IsInsert(s, t, inserted)
    ensures Capped(|s.content.blocks|, |t.content.value.blocks|)
  {
    InsertedPrefix(s, t, inserted);
  }

  lemma TakeIsCapped(g: Stage, step: Step)
    requires WellPlaced(g.session)
    ensures Capped(|g.session.content.blocks|, |Take(g, step).session.content.blocks|)
  {
    hide Compute;
    TransitionShape(g.session, step.action, step.commandId, step.lib);
    match Compute(g.session, step.action, step.commandId, step.lib)
    case Success(Some(t)) =>
      if !IsMove(g.session, t) {
        var inserted := InsertedBy(g.session, t);
        InsertIsCapped(g.session, t, inserted);
      }
    case _ =>
  }

  lemma {:induction false} GrowthIsCapped(g: Stage, steps: seq<Step>)
    requires WellPlaced(g.session)
    ensures Capped(|g.session.content.blocks|, |Play(g, steps).session.content.blocks|)
    decreases |steps|
  {
    hide Compute;
    if steps != [] {
      TakeIsCapped(g, steps[0]);
      TakeKeepsPlace(g, steps[0]);
      GrowthIsCapped(Take(g, steps[0]), steps[1..]);
    }
  }

  lemma FitBoundsRevision(s: Session)
    requires WellPlaced(s) && RevisionFits(s)
    ensures s.revision <= 3 * |s.content.blocks| + 1
  {
  }

  /** With N blocks at the end, a run never commits more than 3N + 1 times, and N never passes the cap by insertion. */
  lemma RunsAreShort(content: Content, cardsEnabled: bool, flex: bool, liveExpiresAt: int, steps: seq<Step>)
    requires ContentOk(content)
    ensures var g := Play(Start(content, cardsEnabled, flex, liveExpiresAt), steps);
            var n := |g.session.content.blocks|;
            && |g.timeline| == g.session.revision <= 3 * n + 1
            && (n == |content.blocks| || n <= BLOCK_LIMIT)
  {
    hide Compute;
    var g := Start(content, cardsEnabled, flex, liveExpiresAt);
    StartInvariant(content, cardsEnabled, flex, liveExpiresAt);
    PlayKeepsInvariant(g, steps, content.blocks);
    GrowthIsCapped(g, steps);
    FitBoundsRevision(Play(g, steps).session);
  }

  /** How many presses of "next" are certainly enough from here. */
  function PressesLeft(s: Session): nat
    requires WellPlaced(s)
  {
    if s.phase.Done? then 0 else 3 * (|s.content.blocks| - 1 - s.index) + PhaseRank(s.phase)
  }

  function Presses(n: nat, lib: Library, now: int): seq<Step> {
    if n == 0 then [] else [Step(Advance, 0, lib, now)] + Presses(n - 1, lib, now)
  }

  lemma PressCounts(g: Stage, lib: Library, now: int)
    requires WellPlaced(g.session) && PressesLeft(g.session) > 0
    ensures var h := Take(g, Step(Advance, 0, lib, now));
            WellPlaced(h.session) && PressesLeft(h.session) < PressesLeft(g.session)
  {
    var t := NextTransition(g.session).value.value;
    NextShape(g.session);
    MoveKeepsPlace(g.session, t, now);
  }

  lemma PlayPress(g: Stage, n: nat, lib: Library, now: int)
    requires n > 0
    ensures Play(g, Presses(n, lib, now)) == Play(Take(g, Step(Advance, 0, lib, now)), Presses(n - 1, lib, now))
  {
    hide Compute;
    assert Presses(n, lib, now)[1..] == Presses(n - 1, lib, now);
  }

  lemma PressAfterEnd(g: Stage, lib: Library, now: int)
    requires WellPlaced(g.session) && PressesLeft(g.session) == 0
    ensures g.session.status.Finished? && Take(g, Step(Advance, 0, lib, now)) == g
  {
  }

  /** The host is never stuck: from any reachable session enough presses finish it. */
  lemma {:induction false} PressingNextFinishes(g: Stage, n: nat, lib: Library, now: int)
    requires WellPlaced(g.session) && n >= PressesLeft(g.session)
    ensures Play(g, Presses(n, lib, now)).session.status.Finished?
    decreases n
  {
    hide Compute;
    if n == 0 {
      PressAfterEnd(g, lib, now);
    } else {
      PlayPress(g, n, lib, now);
      if PressesLeft(g.session) == 0 {
        PressAfterEnd(g, lib, now);
      } else {
        PressCounts(g, lib, now);
      }
      PressingNextFinishes(Take(g, Step(Advance, 0, lib, now)), n - 1, lib, now);
    }
  }
}
