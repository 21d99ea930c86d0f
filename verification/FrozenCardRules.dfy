/** Which Recovery Pack cards a session offers: exactly those of the one insertion behind the current diagnostic. */
module FrozenCardRules {
  import opened Common
  import opened SessionModel

  lemma {:induction false} FilterOnly<T>(xs: seq<T>, i: nat, keep: T -> bool)
    requires i < |xs| && forall k | 0 <= k < |xs| :: keep(xs[k]) <==> k == i
    ensures Filter(xs, keep) == [xs[i]]
  {
    if i > 0 {
      FilterOnly(xs[1..], i - 1, keep);
    } else {
      forall x | x in xs[1..] ensures !keep(x) {
        var k :| 0 <= k < |xs| - 1 && xs[1..][k] == x;
        assert xs[k + 1] == x;
      }
      FilterNothing(xs[1..], keep);
    }
  }

  lemma {:induction false} DestinationsCount(insertions: seq<PackInsertion>, k: nat, q: Id)
    requires k < |insertions|
    ensures DestinationCount(insertions, q)
            >= (if insertions[k].diagnosticQuestionId == q then 1 else 0)
              + (if insertions[k].recheckQuestionId == q then 1 else 0)
  {
    if k > 0 {
      DestinationsCount(insertions[1..], k - 1, q);
    }
  }

  lemma {:induction false} TwoOwnersCountTwice(insertions: seq<PackInsertion>, i: nat, j: nat, q: Id)
    requires i < j < |insertions| && insertions[i].diagnosticQuestionId == q && insertions[j].diagnosticQuestionId == q
    ensures DestinationCount(insertions, q) >= 2
  {
    if i > 0 {
      TwoOwnersCountTwice(insertions[1..], i - 1, j - 1, q);
    } else {
      DestinationsCount(insertions[1..], j - 1, q);
    }
  }

  lemma OwnerIsOnly(insertions: seq<PackInsertion>, k: nat, q: Id)
    requires PackRules(insertions) && k < |insertions| && insertions[k].diagnosticQuestionId == q
    ensures Filter(insertions, (p: PackInsertion) => p.diagnosticQuestionId == q) == [insertions[k]]
    ensures Filter(insertions, (p: PackInsertion) => p.id == insertions[k].id) == [insertions[k]]
  {
    forall i | 0 <= i < |insertions| ensures insertions[i].diagnosticQuestionId == q <==> i == k {
      if i < k && insertions[i].diagnosticQuestionId == q {
        TwoOwnersCountTwice(insertions, i, k, q);
      } else if k < i && insertions[i].diagnosticQuestionId == q {
        TwoOwnersCountTwice(insertions, k, i, q);
      }
    }
    FilterOnly(insertions, k, (p: PackInsertion) => p.diagnosticQuestionId == q);
    FilterOnly(insertions, k, (p: PackInsertion) => p.id == insertions[k].id);
  }

  lemma QuestionIsOnly(blocks: seq<Block>, i: nat)
    requires QuestionIdsUnique(blocks) && i < |blocks| && blocks[i].QuestionBlock?
    ensures Filter(blocks, (b: Block) => b.QuestionBlock? && b.question.id == blocks[i].question.id) == [blocks[i]]
  {
    FilterOnly(blocks, i, (b: Block) => b.QuestionBlock? && b.question.id == blocks[i].question.id);
  }

  lemma {:induction false} ReferencesAre(p: PackInsertion, cards: seq<Card>)
    ensures |References(p, cards)| == |cards|
    ensures forall i | 0 <= i < |cards| ::
              var b := CurrentBaseline(p);
              References(p, cards)[i]
                == CardReference(p.id, p.packId, b.packVersionId, b.packVersion, b.contentHash, cards[i].id)
  {
    if cards != [] {
      ReferencesAre(p, cards[1..]);
    }
  }

  /** The cards a Pack carries are fit to be shown: at most five, distinct and well formed. */
  predicate Showable(cards: seq<Card>) {
    |cards| <= 5 && DistinctCards(cards) && forall i | 0 <= i < |cards| :: cards[i].wellFormed
  }

  predicate OnDiagnostic(s: Session) {
    && CurrentBlock(s).Some? && CurrentBlock(s).value.QuestionBlock?
    && CurrentBlock(s).value.question.delivery.Main? && CurrentBlock(s).value.question.purpose.Diagnostic?
  }

  /**
   * In a session whose content passes the schema, the current diagnostic of a Pack insertion offers
   * exactly that insertion's cards, from its update if there is one, or nothing if they are not showable.
   */
  lemma OwnerOffersItsCards(s: Session, k: nat)
    requires ContentOk(s.content) && s.cardsEnabled && OnDiagnostic(s)
    requires k < |s.content.packInsertions|
             && s.content.packInsertions[k].diagnosticQuestionId == CurrentBlock(s).value.question.id
    ensures var owner := s.content.packInsertions[k];
            var baseline := if owner.update == None then owner.original else owner.update.value;
            && |FrozenCards(s)| == (if Showable(baseline.cards) then |baseline.cards| else 0)
            && forall i | 0 <= i < |FrozenCards(s)| ::
                 FrozenCards(s)[i]
                   == CardReference(owner.id, owner.packId, baseline.packVersionId, baseline.packVersion,
                                                    baseline.contentHash, baseline.cards[i].id)
  {
    hide LinksForward, RechecksOwned, PublishedRules, QuickCheckRules, QuestionLimits;
    OwnerIsOnly(s.content.packInsertions, k, CurrentBlock(s).value.question.id);
    QuestionIsOnly(s.content.blocks, s.index);
    ReferencesAre(s.content.packInsertions[k], CurrentBaseline(s.content.packInsertions[k]).cards);
  }

  /** Nothing is offered without such an insertion, off a main diagnostic, or with cards disabled. */
  lemma NobodyElseOffersCards(s: Session)
    requires FrozenCards(s) != []
    ensures s.cardsEnabled && OnDiagnostic(s)
    ensures exists k :: 0 <= k < |s.content.packInsertions|
                        && s.content.packInsertions[k].diagnosticQuestionId == CurrentBlock(s).value.question.id
  {
    var q := CurrentBlock(s).value.question.id;
    var owners := Filter(s.content.packInsertions, (p: PackInsertion) => p.diagnosticQuestionId == q);
    FilterMember(s.content.packInsertions, (p: PackInsertion) => p.diagnosticQuestionId == q, owners[0]);
  }
}
