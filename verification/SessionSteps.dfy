/**
 * What single steps of a live session do, said on the blocks and the clock themselves: where "next"
 * leads, when an answer window opens and closes, when content may be inserted, and what copies keep.
 */
module SessionSteps {
  import opened Common
  import opened SessionModel
  import opened SessionRuns

  // ---------------------------------------------------------------- where "next" leads

  /** A main question that names a recheck: the diagnostic of a linked pair. */
  predicate LinkedDiagnostic(b: Block) {
    b.QuestionBlock? && b.question.delivery == Main && b.question.linkedRecheck != None
  }

  /** Pressing "next" shows the next block if there is one and ends the session otherwise. */
  predicate LeadsOn(s: Session, t: Transition) {
    && t.content == None && t.intervention == None
    && if s.index + 1 < |s.content.blocks| then
         var b := s.content.blocks[s.index + 1];
         && t.index == s.index + 1 && t.status == Active
         && t.phase == (if b.ContentBlock? then ContentShown else QuestionOpen)
         && t.event
            == Event(if b.ContentBlock? then ContentPresented else QuestionLaunched,
                     Some(s.index + 1), Some(b.id), None)
       else t.phase == Done && t.status == Finished && t.index == s.index && t.event.kind == PresentationFinished
  }

  /**
   * "Next" closes an open question, shows the intervention of a revealed linked diagnostic in place,
   * and otherwise goes on to the next block or the end; a finished session does not move.
   */
  lemma NextLeads(s: Session)
    requires WellPlaced(s)
    ensures NextTransition(s).Success? && (NextTransition(s).value == None <==> s.phase == Done)
    ensures s.phase != Done ==>
              var t := NextTransition(s).value.value;
              && (t.phase == QuestionReveal && t.index == s.index && t.status == Active <==> s.phase == QuestionOpen)
              && (t.phase == Intervention && t.index == s.index && t.status == Active
                  <==> s.phase == QuestionReveal && LinkedDiagnostic(s.content.blocks[s.index]))
              && (s.phase != QuestionOpen && t.phase != Intervention ==> LeadsOn(s, t))
              && (t.phase == QuestionReveal || t.phase == Intervention ==>
                    && t.content == None && t.intervention == None
                    && t.event == Event(if t.phase == QuestionReveal then QuestionRevealed else InterventionPresented,
                                        Some(s.index), Some(s.content.blocks[s.index].id), None))
  {
  }

  /** Nothing but its intervention follows the reveal of a linked diagnostic: insertions wait for its recheck. */
  lemma LinkedRevealOnlyIntervenes(s: Session, action: Action, commandId: Uuid, lib: Library)
    requires WellPlaced(s) && ContentOk(s.content) && s.phase == QuestionReveal
    requires LinkedDiagnostic(s.content.blocks[s.index])
    requires Compute(s, action, commandId, lib).Success? && Compute(s, action, commandId, lib).value != None
    ensures var t := Compute(s, action, commandId, lib).value.value;
            t.phase == Intervention && t.index == s.index && t.status == Active && t.content == None
  {
    hide ContentOk, FrozenCards, QuickCheckInsertionTransition, PublishedInsertionTransition, PackInsertionTransition;
    LinkIsPending(s);
  }

  lemma LinkIsPending(s: Session)
    requires WellPlaced(s) && ContentOk(s.content) && s.phase == QuestionReveal
    requires LinkedDiagnostic(s.content.blocks[s.index])
    ensures !ClosedInsertionBoundary(s)
  {
    var blocks := s.content.blocks;
    assert HasLinkedRecheck(blocks[s.index]);
    var j :| s.index < j && LinkTo(blocks, s.index, j);
    assert 0 <= s.index < s.index + 1 <= j < |blocks| && LinkTo(blocks, s.index, j);
  }

  // ---------------------------------------------------------------- answer windows

  /** The session's times, given the clock of the step that made it. */
  predicate OnTime(s: Session, now: int) {
    && (if s.phase == QuestionOpen then
          && 0 <= s.index < |s.content.blocks| && s.content.blocks[s.index].QuestionBlock?
          && s.openedAt == Some(now)
          && s.closesAt == if s.flex then None
                           else Some(now + 1000 * s.content.blocks[s.index].question.timeLimitSeconds)
        else s.openedAt == None && s.closesAt == None)
    && s.finishedAt == if s.status == Finished then Some(now) else None
  }

  /**
   * A step leaves exactly the times of its own clock: a timed question closes its limit after it was
   * opened, an untimed one never, and no other phase has a window.
   */
  lemma StepIsOnTime(s: Session, action: Action, commandId: Uuid, lib: Library, now: int, earlier: int)
    requires WellPlaced(s) && OnTime(s, earlier)
    requires Compute(s, action, commandId, lib).Success? && Compute(s, action, commandId, lib).value.Some?
    ensures OnTime(Commit(s, Compute(s, action, commandId, lib).value.value, now), now)
  {
    hide Compute, OnTime;
    var t := Compute(s, action, commandId, lib).value.value;
    TransitionShape(s, action, commandId, lib);
    if IsMove(s, t) {
      MoveIsOnTime(s, t, now, earlier);
    } else {
      InsertIsOnTime(s, t, now, earlier);
    }
  }

  lemma MoveIsOnTime(s: Session, t: Transition, now: int, earlier: int)
    requires WellPlaced(s) && OnTime(s, earlier) && IsMove(s, t)
    ensures OnTime(Commit(s, t, now), now)
  {
  }

  lemma InsertIsOnTime(s: Session, t: Transition, now: int, earlier: int)
    requires WellPlaced(s) && OnTime(s, earlier) && InsertsSomething(s, t)
    ensures OnTime(Commit(s, t, now), now)
  {
    hide InsertedBy;
    var inserted := InsertedBy(s, t);
    assert t.content.value.blocks[s.index + 1] == inserted[0];
  }

  /** Settings and expiry are decided when the session is created. */
  predicate SameSettings(s: Session, t: Session) {
    s.flex == t.flex && s.cardsEnabled == t.cardsEnabled && s.liveExpiresAt == t.liveExpiresAt
  }

  // ---------------------------------------------------------------- when content may be inserted

  /** No diagnostic shown so far has its recheck still ahead. */
  ghost predicate NothingPending(blocks: seq<Block>, shown: int) {
    forall i, j | 0 <= i < shown && shown <= j < |blocks| && blocks[i].QuestionBlock? && blocks[j].QuestionBlock? ::
      blocks[i].question.linkedRecheck != Some(blocks[j].question.id)
  }

  /**
   * The three insertions are open under exactly these conditions: an active session in the lobby, on
   * a slide or at a revealed question with no recheck pending, room in the list, and for a Pack also
   * enabled cards, for a quick check none yet.
   */
  lemma InsertionsAreOpenExactly(s: Session)
    requires WellPlaced(s)
    ensures var boundary :=
              && s.status == Active
              && (s.phase == Lobby || s.phase == ContentShown || s.phase == QuestionReveal)
              && (s.phase == Lobby || NothingPending(s.content.blocks, s.index + 1));
            && (CanInsertPack(s)
                <==> boundary && s.cardsEnabled && |s.content.blocks| <= 98 && |s.content.packInsertions| <= 99)
            && (CanInsertPublished(s) <==> boundary && |s.content.blocks| <= 99 && |s.content.published| <= 99)
            && (CanInsertQuickCheck(s) <==> boundary && |s.content.blocks| <= 99 && s.content.quickCheck == None)
  {
    var blocks, p := s.content.blocks, s.index + 1;
    assert PendingLinkAcross(blocks, p) <==> !NothingPending(blocks, p) by {
      PendingIsPending(blocks, p);
    }
  }

  lemma PendingIsPending(blocks: seq<Block>, p: int)
    ensures PendingLinkAcross(blocks, p) <==> !NothingPending(blocks, p)
  {
    if !NothingPending(blocks, p) {
      var i, j :| 0 <= i < p && p <= j < |blocks| && blocks[i].QuestionBlock? && blocks[j].QuestionBlock?
                  && blocks[i].question.linkedRecheck == Some(blocks[j].question.id);
      assert LinkTo(blocks, i, j);
    }
  }

  /** A switched-off insertion, an archived or unknown source and a missing Pack are not found. */
  lemma UnavailableSourcesAreRefused(s: Session, action: Action, commandId: Uuid, lib: Library)
    ensures action.InsertQuickCheck? && !lib.quickChecksEnabled
            ==> Compute(s, action, commandId, lib) == Failure(NotFound)
    ensures action.InsertPublished? && !lib.publishedEnabled ==> Compute(s, action, commandId, lib) == Failure(NotFound)
    ensures action.InsertPack? && !lib.packsEnabled ==> Compute(s, action, commandId, lib) == Failure(NotFound)
    ensures action.InsertPublished? && Compute(s, action, commandId, lib).Success? ==>
              && lib.quiz.Some? && lib.quiz.value.id == action.versionId && !lib.quiz.value.archived
              && lib.quiz.value.contentHash == action.contentHash
    ensures action.InsertPack? && Compute(s, action, commandId, lib).Success? ==>
              lib.pack.Some? && lib.pack.value.id == action.packVersionId
  {
    hide ContentOk, FrozenCards;
  }

  /** Where an insertion goes: before everything in the lobby, right after the current block otherwise. */
  function Boundary(s: Session): nat
    requires WellPlaced(s)
    ensures Boundary(s) <= |s.content.blocks|
  {
    if s.phase.Lobby? then 0 else s.index + 1
  }

  function WithInserted(s: Session, inserted: seq<Block>): seq<Block>
    requires WellPlaced(s)
  {
    s.content.blocks[..Boundary(s)] + inserted + s.content.blocks[Boundary(s)..]
  }

  /** A new session waits in the lobby, with the content, settings and expiry it was asked for. */
  lemma StartsAsAsked(content: Content, cardsEnabled: bool, flex: bool, liveExpiresAt: int)
    ensures var s := Start(content, cardsEnabled, flex, liveExpiresAt).session;
            && s.status == Active && s.phase == Lobby && s.revision == 0 && s.content == content
            && s.cardsEnabled == cardsEnabled && s.flex == flex && s.liveExpiresAt == liveExpiresAt
            && s.openedAt == None && s.closesAt == None && s.finishedAt == None && s.intervention == None
  {
  }

  /** A Pack is taken exactly if it is text only and the content with its two blocks and its mark passes. */
  lemma PackIsTakenExactly(s: Session, v: PackVersion, commandId: Uuid, fits: bool)
    requires WellPlaced(s)
    ensures var pair := PackBlocks(v, commandId);
            var mark := PackInsertion(commandId, v.packId, Baseline(v.id, v.version, v.contentHash, v.cards), None,
                                      pair[0].question.id, pair[1].question.id);
            PackInsertionTransition(s, v, commandId, fits).Success?
            <==> && !v.diagnostic.hasMedia && !v.recheck.hasMedia && !v.probeHasMedia && fits
                 && ContentOk(s.content.(blocks := WithInserted(s, pair),
                                         packInsertions := s.content.packInsertions + [mark]))
    ensures var r := PackInsertionTransition(s, v, commandId, fits);
            r.Success? ==> r.value.Some? && !r.value.value.fromPublishedSource
  {
    hide ContentOk, PackBlocks;
    SpliceInserts(s, PackBlocks(v, commandId));
  }

  /** A quick check is taken exactly with two to six choices, ten seconds to five minutes, and passing content. */
  lemma QuickCheckIsTakenExactly(s: Session, input: QuickCheckInput, commandId: Uuid, fits: bool)
    requires WellPlaced(s)
    ensures var block := QuickCheckBlockFor(input, commandId);
            QuickCheckInsertionTransition(s, input, commandId, fits).Success?
            <==> && input.wording.acceptable && 2 <= input.choiceCount <= 6
                 && 10 <= input.timeLimitSeconds <= 300 && fits
                 && ContentOk(s.content.(blocks := WithInserted(s, [block]),
                                         quickCheck := Some(QuickCheckMark(commandId, block.id))))
  {
    hide ContentOk, QuickCheckBlockFor;
    SpliceInserts(s, [QuickCheckBlockFor(input, commandId)]);
  }

  /** A question that makes sense by itself: text only, not a recheck, linked to and from nothing, of no Pack. */
  predicate StandsAlone(v: QuizVersion, i: nat)
    requires i < |v.questions|
  {
    var q := v.questions[i];
    && !q.hasMedia && q.delivery == Main && q.linkedRecheck == None && !q.fromPack
    && (forall j | 0 <= j < |v.questions| :: v.questions[j].linkedRecheck != Some(q.id))
    && (forall j | 0 <= j < |v.questions| && j != i :: v.questions[j].id != q.id)
  }

  /**
   * A published question is taken exactly if the version is the one that was looked at, the only
   * question of that id stands alone, and the content with its copy and its mark passes.
   */
  lemma PublishedIsTakenExactly(
    s: Session, v: QuizVersion, questionId: Id, contentHash: string, commandId: Uuid, fits: bool)
    requires WellPlaced(s)
    ensures PublishedInsertionTransition(s, v, questionId, contentHash, commandId, fits).Success?
            <==> v.contentHash == contentHash && fits
                 && exists i :: 0 <= i < |v.questions| && v.questions[i].id == questionId && StandsAlone(v, i)
                                && PublishedPasses(s, v, v.questions[i], commandId)
    ensures var r := PublishedInsertionTransition(s, v, questionId, contentHash, commandId, fits);
            r.Success? ==> r.value.Some? && r.value.value.fromPublishedSource
  {
    hide ContentOk, PublishedBlockFor, PublishedPasses, Filter;
    var asked := (q: Question) => q.id == questionId;
    var matches := Filter(v.questions, asked);
    if |matches| == 1 {
      var i := MatchIsOnly(v.questions, asked);
      OnlyMatch(v.questions, asked, i);
      PublishedPassing(s, v, v.questions[i], commandId);
    }
    if i :| 0 <= i < |v.questions| && v.questions[i].id == questionId && StandsAlone(v, i) {
      OnlyMatch(v.questions, asked, i);
    }
  }

  ghost predicate PublishedPasses(s: Session, v: QuizVersion, source: Question, commandId: Uuid)
    requires WellPlaced(s)
  {
    var block := PublishedBlockFor(v, source, commandId);
    ContentOk(s.content.(blocks := WithInserted(s, [block]),
                         published := s.content.published + [PublishedMark(commandId, block.id, v.id, source.id)]))
  }

  lemma PublishedPassing(s: Session, v: QuizVersion, source: Question, commandId: Uuid)
    requires WellPlaced(s)
    ensures var block := PublishedBlockFor(v, source, commandId);
            PublishedPasses(s, v, source, commandId)
            <==> ContentOk(s.content.(blocks := Splice(s.content.blocks, InsertionIndex(s), [block]),
                                      published := s.content.published
                                                   + [PublishedMark(commandId, block.id, v.id, source.id)]))
  {
    hide ContentOk, PublishedBlockFor;
    SpliceInserts(s, [PublishedBlockFor(v, source, commandId)]);
  }

  lemma SpliceInserts(s: Session, inserted: seq<Block>)
    requires WellPlaced(s)
    ensures Splice(s.content.blocks, InsertionIndex(s), inserted) == WithInserted(s, inserted)
  {
  }

  predicate OnlyAt<T>(xs: seq<T>, keep: T -> bool, i: nat)
    requires i < |xs|
  {
    keep(xs[i]) && forall j | 0 <= j < |xs| && keep(xs[j]) :: j == i
  }

  lemma {:induction false} NoMatch<T>(xs: seq<T>, keep: T -> bool)
    ensures Filter(xs, keep) == [] <==> forall x | x in xs :: !keep(x)
  {
    if xs != [] {
      NoMatch(xs[1..], keep);
      assert xs == [xs[0]] + xs[1..];
    }
  }

  lemma {:induction false} OnlyMatch<T>(xs: seq<T>, keep: T -> bool, i: nat)
    requires i < |xs| && OnlyAt(xs, keep, i)
    ensures Filter(xs, keep) == [xs[i]]
  {
    assert forall j | 0 < j < |xs| :: xs[1..][j - 1] == xs[j];
    if i == 0 {
      NoMatch(xs[1..], keep);
    } else {
      assert keep(xs[1..][i - 1]);
      OnlyMatch(xs[1..], keep, i - 1);
      assert [] + [xs[i]] == [xs[i]];
    }
  }

  lemma {:induction false} MatchIsOnly<T>(xs: seq<T>, keep: T -> bool) returns (i: nat)
    requires |Filter(xs, keep)| == 1
    ensures i < |xs| && OnlyAt(xs, keep, i)
  {
    assert forall j | 0 < j < |xs| :: xs[1..][j - 1] == xs[j];
    if keep(xs[0]) {
      i := 0;
      NoMatch(xs[1..], keep);
      assert forall j | 0 < j < |xs| :: xs[j] in xs[1..];
    } else {
      assert [] + Filter(xs[1..], keep) == Filter(xs[1..], keep);
      i := MatchIsOnly(xs[1..], keep);
      i := i + 1;
    }
  }

  // ---------------------------------------------------------------- what copies keep

  /** The same question in every respect that scores or shows it, under new ids of its own. */
  predicate FaithfulCopy(source: Question, copy: Question) {
    && copy.kind == source.kind && copy.purpose == source.purpose && copy.confidence == source.confidence
    && copy.timeLimitSeconds == source.timeLimitSeconds && copy.basePoints == source.basePoints
    && copy.correctValue == source.correctValue && copy.tolerance == source.tolerance
    && copy.min == source.min && copy.max == source.max && copy.hasMedia == source.hasMedia
    && |copy.choices| == |source.choices|
    && (forall i | 0 <= i < |source.choices| :: copy.choices[i].isCorrect == source.choices[i].isCorrect)
    && (forall i, j | 0 <= i < j < |source.choices| && source.choices[i].id != source.choices[j].id ::
          copy.choices[i].id != copy.choices[j].id)
  }

  /** A Pack's two questions come in as faithful copies, linked to each other by their new ids. */
  lemma PackCopiesAreFaithful(v: PackVersion, commandId: Uuid)
    ensures var pair := PackBlocks(v, commandId);
            && |pair| == 2 && pair[0].QuestionBlock? && pair[1].QuestionBlock? && pair[0].id != pair[1].id
            && FaithfulCopy(v.diagnostic, pair[0].question) && FaithfulCopy(v.recheck, pair[1].question)
            && pair[0].question.delivery == v.diagnostic.delivery && pair[1].question.delivery == v.recheck.delivery
            && pair[0].question.linkedRecheck == Some(pair[1].question.id) && pair[1].question.linkedRecheck == None
            && pair[0].question.fromPack && pair[1].question.fromPack && pair[0].question.id != pair[1].question.id
            && (forall i, j | 0 <= i < |v.diagnostic.choices| && 0 <= j < |v.recheck.choices| ::
                  pair[0].question.choices[i].id != pair[1].question.choices[j].id)
  {
  }

  /** A published question comes in as a faithful, standalone copy that names where it came from. */
  lemma PublishedCopyIsFaithful(v: QuizVersion, source: Question, commandId: Uuid)
    ensures var b := PublishedBlockFor(v, source, commandId);
            && b.QuestionBlock? && FaithfulCopy(source, b.question)
            && b.question.delivery == Main && b.question.linkedRecheck == None && b.question.fromPack == source.fromPack
            && b.provenance == Some(Provenance(v.id, source.id))
  {
  }

  /** A quick check has the asked number of choices and the asked time, no right answer and no points. */
  lemma QuickCheckIsAsAsked(input: QuickCheckInput, commandId: Uuid)
    ensures var b := QuickCheckBlockFor(input, commandId);
            && b.QuestionBlock? && b.question.kind == Poll && b.question.basePoints == 0
            && b.question.linkedRecheck == None
            && |b.question.choices| == input.choiceCount && b.question.timeLimitSeconds == input.timeLimitSeconds
            && (forall i | 0 <= i < input.choiceCount :: !b.question.choices[i].isCorrect)
            && (forall i, j | 0 <= i < j < input.choiceCount :: b.question.choices[i].id != b.question.choices[j].id)
  {
  }

  // ---------------------------------------------------------------- cards

  lemma {:induction false} ReferenceIsFound(refs: seq<CardReference>, insertionId: Uuid, cardId: Uuid)
    ensures FindReference(refs, insertionId, cardId).Some?
            <==> exists i :: 0 <= i < |refs| && refs[i].insertionId == insertionId && refs[i].cardId == cardId
  {
    if refs != [] {
      ReferenceIsFound(refs[1..], insertionId, cardId);
      if i :| 0 <= i < |refs| && refs[i].insertionId == insertionId && refs[i].cardId == cardId && i > 0 {
        assert refs[1..][i - 1] == refs[i];
      }
      if i :| 0 <= i < |refs| - 1 && refs[1..][i].insertionId == insertionId && refs[1..][i].cardId == cardId {
        assert refs[i + 1] == refs[1..][i];
      }
    }
  }

  /** A card can be started exactly while its question is revealed and offers that card. */
  lemma CardStartsExactlyWhenOffered(s: Session, insertionId: Uuid, cardId: Uuid, kind: InterventionKind)
    requires WellPlaced(s)
    ensures RecoveryCardTransition(s, insertionId, cardId, kind).Success?
            <==> s.phase == QuestionReveal
                 && exists i :: 0 <= i < |FrozenCards(s)| && FrozenCards(s)[i].insertionId == insertionId
                                && FrozenCards(s)[i].cardId == cardId
  {
    hide FrozenCards;
    ReferenceIsFound(FrozenCards(s), insertionId, cardId);
  }
}
