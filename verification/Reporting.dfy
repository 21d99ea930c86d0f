/** The report of a finished room: its board, the evidence per block, and recovery after a linked recheck. */
module Reporting {
  import opened Common
  import opened Sorting
  import opened SessionModel
  import opened ResponsePolicy
  import opened SessionStore
  import opened Leaderboards

  // ---------------------------------------------------------------- evidence per block

  datatype Evidence =
    | ContentEvidence(blockId: Id, index: nat)
    | QuestionEvidence(
        blockId: Id, index: nat, quickCheck: bool, questionId: Id, respondents: nat,
        correct: Option<nat>, accuracyPercent: Option<int>, totalScore: int, averageMs: Option<int>)

  function ResponseScore(r: Response): int { r.score }
  function ResponseTime(r: Response): int { r.responseMs }
  function Graded(r: Response): bool { r.correct.Some? }
  function GradedRight(r: Response): bool { r.correct == Some(true) }

  function IsQuickCheck(c: Content, blockId: Id): bool {
    c.quickCheck.Some? && c.quickCheck.value.blockId == blockId
  }

  function Percent(part: nat, whole: nat): (percent: Option<int>)
    requires part <= whole
  {
    if whole == 0 then None else Some(RoundHalfUp((part as real) / (whole as real) * 100.0))
  }

  /** Quick checks are opinions: they are never assessed and carry no points. */
  function EvidenceOf(c: Content, index: nat, b: Block, answers: seq<Response>): Evidence {
    match b
    case ContentBlock(id) => ContentEvidence(id, index)
    case QuestionBlock(id, q, _) =>
      var quick := IsQuickCheck(c, id);
      var assessed := if quick then [] else Filter(answers, Graded);
      FilterShorter(assessed, GradedRight);
      var correct := |Filter(assessed, GradedRight)|;
      QuestionEvidence(
        id, index, quick, q.id, |answers|, if assessed == [] then None else Some(correct), Percent(correct, |assessed|),
        if quick then 0 else Total(answers, ResponseScore),
        if answers == [] then None
        else Some(RoundHalfUp((Total(answers, ResponseTime) as real) / (|answers| as real))))
  }

  function AllEvidence(c: Content, responses: seq<Response>): seq<Evidence> {
    seq(|c.blocks|, i requires 0 <= i < |c.blocks| =>
        EvidenceOf(c, i, c.blocks[i], Filter(responses, Here(c.blocks[i].id))))
  }

  function GroupOf(groups: map<Id, seq<Response>>, blockId: Id): seq<Response> {
    if blockId in groups then groups[blockId] else []
  }

  /** Groups the responses by block, each group in the order the responses came. */
  method GroupByBlock(responses: seq<Response>) returns (groups: map<Id, seq<Response>>)
    ensures forall blockId: Id :: GroupOf(groups, blockId) == Filter(responses, Here(blockId))
  {
    groups := map[];
    var n := 0;
    while n < |responses|
      invariant 0 <= n <= |responses|
      invariant forall blockId: Id :: GroupOf(groups, blockId) == Filter(responses[..n], Here(blockId))
    {
      var r := responses[n];
      assert responses[..n + 1] == responses[..n] + [r];
      forall blockId: Id
        ensures Filter(responses[..n + 1], Here(blockId))
                == Filter(responses[..n], Here(blockId)) + if r.blockId == blockId then [r] else []
      {
        FilterConcat(responses[..n], [r], Here(blockId));
      }
      groups := groups[r.blockId := GroupOf(groups, r.blockId) + [r]];
      n := n + 1;
    }
    assert responses[..n] == responses;
  }

  // ---------------------------------------------------------------- recovery

  datatype Recovery = Recovery(source: Id, recheck: Id, eligible: nat, recovered: nat, percent: Option<int>)

  predicate AnswersQuestion(r: Response, participantId: Uuid, questionId: Id) {
    r.participantId == participantId && r.questionId == questionId
  }

  /** The last response of a participant to a question. */
  function LastToQuestion(responses: seq<Response>, participantId: Uuid, questionId: Id): (found: Option<Response>)
    ensures found.Some? ==> found.value in responses && AnswersQuestion(found.value, participantId, questionId)
    ensures found.None? ==> forall r | r in responses :: !AnswersQuestion(r, participantId, questionId)
  {
    if responses == [] then None
    else
      var last := |responses| - 1;
      if AnswersQuestion(responses[last], participantId, questionId) then Some(responses[last])
      else LastToQuestion(responses[..last], participantId, questionId)
  }

  /** Answered the diagnostic wrong, and took the recheck. */
  ghost predicate Eligible(responses: seq<Response>, source: Id, recheck: Id, p: Participant) {
    && (exists r :: r in responses && AnswersQuestion(r, p.id, source) && r.correct == Some(false))
    && (exists t :: t in responses && AnswersQuestion(t, p.id, recheck))
  }

  ghost predicate Recovered(responses: seq<Response>, source: Id, recheck: Id, p: Participant) {
    && Eligible(responses, source, recheck, p)
    && (exists t :: t in responses && AnswersQuestion(t, p.id, recheck) && t.correct == Some(true))
  }

  function EligibleByLast(responses: seq<Response>, source: Id, recheck: Id): Participant -> bool {
    (p: Participant) =>
      var initial := LastToQuestion(responses, p.id, source);
      initial.Some? && initial.value.correct == Some(false) && LastToQuestion(responses, p.id, recheck).Some?
  }

  function RecoveredByLast(responses: seq<Response>, source: Id, recheck: Id): Participant -> bool {
    (p: Participant) =>
      && EligibleByLast(responses, source, recheck)(p)
      && LastToQuestion(responses, p.id, recheck).value.correct == Some(true)
  }

  function RecoveryOf(participants: seq<Participant>, responses: seq<Response>, source: Id, recheck: Id): Recovery {
    var eligible := |Filter(participants, EligibleByLast(responses, source, recheck))|;
    var recovered := |Filter(participants, RecoveredByLast(responses, source, recheck))|;
    RecoveredAreEligible(participants, responses, source, recheck);
    Recovery(source, recheck, eligible, recovered, Percent(recovered, eligible))
  }

  lemma {:induction false} RecoveredAreEligible(
    participants: seq<Participant>, responses: seq<Response>, source: Id, recheck: Id)
    ensures |Filter(participants, RecoveredByLast(responses, source, recheck))|
            <= |Filter(participants, EligibleByLast(responses, source, recheck))| <= |participants|
  {
    if participants != [] {
      RecoveredAreEligible(participants[1..], responses, source, recheck);
    }
  }

  /** Counts eligible and recovered participants in one pass. */
  method CountRecovery(
    participants: seq<Participant>, responses: seq<Response>, source: Id, recheck: Id) returns (entry: Recovery)
    ensures entry == RecoveryOf(participants, responses, source, recheck)
  {
    var eligible, recovered := 0, 0;
    var n := 0;
    while n < |participants|
      invariant 0 <= n <= |participants|
      invariant eligible == |Filter(participants[..n], EligibleByLast(responses, source, recheck))|
      invariant recovered == |Filter(participants[..n], RecoveredByLast(responses, source, recheck))|
      invariant 0 <= recovered <= eligible
    {
      var p := participants[n];
      var initial := LastToQuestion(responses, p.id, source);
      var second := LastToQuestion(responses, p.id, recheck);
      assert participants[..n + 1] == participants[..n] + [p];
      FilterConcat(participants[..n], [p], EligibleByLast(responses, source, recheck));
      FilterConcat(participants[..n], [p], RecoveredByLast(responses, source, recheck));
      if initial.Some? && initial.value.correct == Some(false) && second.Some? {
        eligible := eligible + 1;
        if second.value.correct == Some(true) {
          recovered := recovered + 1;
        }
      }
      n := n + 1;
    }
    assert participants[..n] == participants;
    entry := Recovery(source, recheck, eligible, recovered, Percent(recovered, eligible));
  }

  function Recoveries(blocks: seq<Block>, participants: seq<Participant>, responses: seq<Response>): seq<Recovery> {
    if blocks == [] then []
    else
      Recoveries(blocks[..|blocks| - 1], participants, responses)
      + var b := blocks[|blocks| - 1];
        if HasLinkedRecheck(b)
        then [RecoveryOf(participants, responses, b.question.id, b.question.linkedRecheck.value)] else []
  }

  // ---------------------------------------------------------------- the report

  datatype Report = Report(
    schemaVersion: nat, participantCount: nat, responseCount: nat,
    leaderboard: seq<Ranked>, evidence: seq<Evidence>, recovery: seq<Recovery>)

  function SchemaVersion(room: Room): nat {
    if room.session.content.quickCheck.Some? then 3
    else if exists i :: 0 <= i < |room.timeline| && room.timeline[i].intervention.Some? then 2 else 1
  }

  function ReportOf(room: Room): Report {
    Report(SchemaVersion(room), |room.participants|, |room.responses|, Ranking(room.participants, room.responses),
           AllEvidence(room.session.content, room.responses),
           Recoveries(room.session.content.blocks, room.participants, room.responses))
  }

  /** Goes through the blocks once and adds an entry for each linked diagnostic. */
  method CollectRecoveries(blocks: seq<Block>, participants: seq<Participant>, responses: seq<Response>)
    returns (recovery: seq<Recovery>)
    ensures recovery == Recoveries(blocks, participants, responses)
  {
    hide RecoveryOf;
    recovery := [];
    var n := 0;
    while n < |blocks|
      invariant 0 <= n <= |blocks|
      invariant recovery == Recoveries(blocks[..n], participants, responses)
    {
      assert blocks[..n + 1][..n] == blocks[..n] && blocks[..n + 1][n] == blocks[n];
      if HasLinkedRecheck(blocks[n]) {
        var source, recheck := blocks[n].question.id, blocks[n].question.linkedRecheck.value;
        var entry := CountRecovery(participants, responses, source, recheck);
        recovery := recovery + [entry];
      }
      n := n + 1;
    }
    assert blocks[..n] == blocks;
  }

  /** `None` unless the session is finished. */
  method GenerateReport(room: Room) returns (report: Option<Report>)
    ensures report == if room.session.status.Finished? then Some(ReportOf(room)) else None
  {
    hide EvidenceOf, Recoveries, Ranking, Filter;
    if !room.session.status.Finished? {
      return None;
    }
    var content, responses := room.session.content, room.responses;
    var blocks := content.blocks;
    var groups := GroupByBlock(responses);
    var evidence :=
      seq(|blocks|, i requires 0 <= i < |blocks| => EvidenceOf(content, i, blocks[i], GroupOf(groups, blocks[i].id)));
    assert evidence == AllEvidence(content, responses);
    var recovery := CollectRecoveries(blocks, room.participants, responses);
    var leaderboard := RankedParticipants(room.participants, responses);
    report := Some(Report(SchemaVersion(room), |room.participants|, |responses|, leaderboard, evidence, recovery));
  }

  // ---------------------------------------------------------------- points are conserved

  function BoardScore(r: Ranked): int { r.entry.score }
  function EvidenceScore(e: Evidence): int { if e.QuestionEvidence? then e.totalScore else 0 }
  function ByParticipant(r: Response): Uuid { r.participantId }
  function ByBlock(r: Response): Id { r.blockId }
  function ParticipantId(p: Participant): Uuid { p.id }
  function BlockId(b: Block): Id { b.id }
  function EntryScore(e: Entry): int { e.score }

  /** The points a block's evidence shows are the points its responses earned. */
  lemma BlockShare(room: Room, i: nat)
    requires i < |room.session.content.blocks| && ResponsesFit(room)
    requires BlockIdsUnique(room.session.content.blocks) && QuickCheckRules(room.session.content)
    ensures EvidenceScore(AllEvidence(room.session.content, room.responses)[i])
            == SharesOf(room.responses, ByBlock, ResponseScore)(room.session.content.blocks[i].id)
  {
    hide QuickCheckRules, ResponsesFit;
    var b := room.session.content.blocks[i];
    var share := Share(ByBlock, ResponseScore, b.id);
    forall r | r in room.responses ensures share(r) == if Here(b.id)(r) then ResponseScore(r) else 0 {
      assert ByBlock(r) == r.blockId;
    }
    TotalOfFilter(room.responses, Here(b.id), ResponseScore, share);
    if b.ContentBlock? || IsQuickCheck(room.session.content, b.id) {
      forall r | r in room.responses ensures share(r) == 0 {
        UnscoredBlock(room, i, r);
      }
      TotalConstant(room.responses, share, 0);
    }
  }

  lemma UnscoredBlock(room: Room, i: nat, r: Response)
    requires i < |room.session.content.blocks| && ResponsesFit(room) && r in room.responses
    requires BlockIdsUnique(room.session.content.blocks) && QuickCheckRules(room.session.content)
    requires var b := room.session.content.blocks[i]; b.ContentBlock? || IsQuickCheck(room.session.content, b.id)
    ensures r.blockId == room.session.content.blocks[i].id ==> r.score == 0
  {
    var blocks := room.session.content.blocks;
    var k :| 0 <= k < |room.responses| && room.responses[k] == r;
    assert ResponseFits(blocks, room.responses[k]);
    var j :| 0 <= j < |blocks| && FitsBlock(blocks[j], r);
    assert i < j || i == j || j < i;
    if IsQuickCheck(room.session.content, blocks[i].id) {
      var q :| 0 <= q < |blocks| && blocks[q].id == room.session.content.quickCheck.value.blockId
        && PlainOpinionPoll(blocks[q]);
      assert i < q || i == q || q < i;
    }
  }

  lemma BoardTotal(participants: seq<Participant>, responses: seq<Response>)
    requires RosterOk(participants) && forall r | r in responses :: Joined(participants, r.participantId)
    ensures Total(Ranking(participants, responses), BoardScore) == Total(responses, ResponseScore)
  {
    var entries := Map(participants, EntryFor(responses));
    var sorted := Sort(entries, Ahead);
    var ids := Map(participants, ParticipantId);
    var shares := SharesOf(responses, ByParticipant, ResponseScore);
    AheadIsPreorder();
    SortArranges(entries, Ahead);
    RanksKeepScores(sorted);
    TotalPermutes(entries, sorted, EntryScore);
    forall p | p in participants ensures shares(ParticipantId(p)) == EntryScore(EntryFor(responses)(p)) {
      forall r | r in responses ensures PointsOf(p.id)(r) == Share(ByParticipant, ResponseScore, p.id)(r) {
        assert ByParticipant(r) == r.participantId && ResponseScore(r) == r.score;
      }
      TotalAgrees(responses, PointsOf(p.id), Share(ByParticipant, ResponseScore, p.id));
    }
    TotalOfMap(participants, ParticipantId, shares, (p: Participant) => shares(ParticipantId(p)));
    TotalOfMap(participants, EntryFor(responses), EntryScore, (p: Participant) => shares(ParticipantId(p)));
    forall r | r in responses ensures ByParticipant(r) in ids {
      var i :| 0 <= i < |participants| && participants[i].id == r.participantId;
      assert ids[i] == r.participantId;
    }
    SharesAddUp(responses, ids, ByParticipant, ResponseScore);
  }

  lemma RanksKeepScores(sorted: seq<Entry>)
    ensures Total(WithRanks(sorted), BoardScore) == Total(sorted, EntryScore)
  {
    assert Map(WithRanks(sorted), (r: Ranked) => r.entry) == sorted;
    TotalOfMap(WithRanks(sorted), (r: Ranked) => r.entry, EntryScore, BoardScore);
  }

  lemma {:induction false} TotalsMatch<A, B>(xs: seq<A>, f: A -> int, ys: seq<B>, g: B -> int)
    requires |xs| == |ys| && forall i | 0 <= i < |xs| :: f(xs[i]) == g(ys[i])
    ensures Total(xs, f) == Total(ys, g)
  {
    if xs != [] {
      TotalsMatch(xs[1..], f, ys[1..], g);
    }
  }

  lemma EvidenceTotal(room: Room)
    requires ResponsesFit(room) && BlockIdsUnique(room.session.content.blocks) && QuickCheckRules(room.session.content)
    ensures Total(AllEvidence(room.session.content, room.responses), EvidenceScore)
            == Total(room.responses, ResponseScore)
  {
    hide QuickCheckRules, ResponseFits;
    var blocks := room.session.content.blocks;
    var ids := Map(blocks, BlockId);
    var shares := SharesOf(room.responses, ByBlock, ResponseScore);
    var evidence := AllEvidence(room.session.content, room.responses);
    forall i | 0 <= i < |blocks| ensures EvidenceScore(evidence[i]) == shares(ids[i]) {
      BlockShare(room, i);
    }
    TotalsMatch(evidence, EvidenceScore, ids, shares);
    forall r | r in room.responses ensures ByBlock(r) in ids {
      BlockOfResponse(room, r);
    }
    SharesAddUp(room.responses, ids, ByBlock, ResponseScore);
  }

  lemma BlockOfResponse(room: Room, r: Response)
    requires ResponsesFit(room) && r in room.responses
    ensures r.blockId in Map(room.session.content.blocks, BlockId)
  {
    var blocks := room.session.content.blocks;
    var k :| 0 <= k < |room.responses| && room.responses[k] == r;
    assert ResponseFits(blocks, room.responses[k]);
    var j :| 0 <= j < |blocks| && FitsBlock(blocks[j], r);
    assert Map(blocks, BlockId)[j] == r.blockId;
  }

  /** Every point on the board is accounted for by exactly one block, and the other way round. */
  lemma PointsAreConserved(room: Room)
    requires RosterOk(room.participants) && ResponsesFit(room)
    requires BlockIdsUnique(room.session.content.blocks) && QuickCheckRules(room.session.content)
    ensures var report := ReportOf(room);
            Total(report.leaderboard, BoardScore) == Total(report.evidence, EvidenceScore)
              == Total(room.responses, ResponseScore)
  {
    hide QuickCheckRules, ResponseFits, Ranking, AllEvidence, Recoveries, RosterOk;
    forall r | r in room.responses ensures Joined(room.participants, r.participantId) {
      var k :| 0 <= k < |room.responses| && room.responses[k] == r;
      assert ResponseFits(room.session.content.blocks, room.responses[k]);
    }
    BoardTotal(room.participants, room.responses);
    EvidenceTotal(room);
  }

  // ---------------------------------------------------------------- percentages and recovery

  lemma PercentOfRatio(ratio: real)
    requires 0.0 <= ratio <= 1.0
    ensures 0 <= RoundHalfUp(ratio * 100.0) <= 100
    ensures ratio == 1.0 ==> RoundHalfUp(ratio * 100.0) == 100
    ensures ratio == 0.0 ==> RoundHalfUp(ratio * 100.0) == 0
  {
    RoundWhole(0);
    RoundWhole(100);
    FloorMonotone(0.5, ratio * 100.0 + 0.5);
    FloorMonotone(ratio * 100.0 + 0.5, 100.5);
  }

  lemma PercentInRange(part: nat, whole: nat)
    requires part <= whole && whole > 0
    ensures 0 <= Percent(part, whole).value <= 100
    ensures Percent(part, whole).value == 100 <== part == whole
    ensures Percent(part, whole).value == 0 <== part == 0
  {
    hide RoundHalfUp;
    var ratio := (part as real) / (whole as real);
    RatioInUnit(part as real, whole as real);
    SelfRatio(whole as real);
    PercentOfRatio(ratio);
  }

  lemma {:induction false} RightAmongGraded(answers: seq<Response>)
    ensures Filter(Filter(answers, Graded), GradedRight) == Filter(answers, GradedRight)
  {
    if answers != [] {
      RightAmongGraded(answers[1..]);
      if Graded(answers[0]) {
        var rest := Filter(answers[1..], Graded);
        assert ([answers[0]] + rest)[1..] == rest;
      } else {
        assert [] + Filter(answers[1..], Graded) == Filter(answers[1..], Graded);
      }
    }
  }

  /** A rounded figure is the nearest whole number, the upper one half way. */
  predicate Nearest(rounded: int, exact: real) {
    -0.5 < (rounded as real) - exact <= 0.5
  }

  lemma RoundIsNearest(x: real)
    ensures Nearest(RoundHalfUp(x), x)
  {
  }

  /**
   * The counts of a block's evidence nest and the figures derived from them are the nearest whole
   * numbers: an accuracy of the graded answers, an average over all of them.
   */
  lemma EvidenceCountsNest(c: Content, index: nat, b: Block, answers: seq<Response>)
    requires b.QuestionBlock?
    ensures var e := EvidenceOf(c, index, b, answers);
            && e.respondents == |answers|
            && (e.correct.Some? <==> !e.quickCheck && exists r :: r in answers && r.correct.Some?)
            && e.accuracyPercent.Some? == e.correct.Some?
            && (e.correct.Some? ==>
                  && e.correct.value == |Filter(answers, GradedRight)| <= |Filter(answers, Graded)| <= e.respondents
                  && 0 <= e.accuracyPercent.value <= 100
                  && |Filter(answers, Graded)| > 0
                  && Nearest(e.accuracyPercent.value,
                             (e.correct.value as real) / (|Filter(answers, Graded)| as real) * 100.0))
            && (e.averageMs.Some? <==> answers != [])
            && (answers != []
                ==> Nearest(e.averageMs.value, (Total(answers, ResponseTime) as real) / (|answers| as real)))
  {
    var assessed := Filter(answers, Graded);
    FilterShorter(answers, Graded);
    FilterShorter(assessed, GradedRight);
    RightAmongGraded(answers);
    forall r ensures r in assessed <==> r in answers && r.correct.Some? {
      FilterMember(answers, Graded, r);
    }
    if assessed != [] {
      assert assessed[0] in assessed;
      PercentInRange(|Filter(assessed, GradedRight)|, |assessed|);
      RoundIsNearest((|Filter(assessed, GradedRight)| as real) / (|assessed| as real) * 100.0);
    }
    if answers != [] {
      RoundIsNearest((Total(answers, ResponseTime) as real) / (|answers| as real));
    }
  }

  /** How many responses to a block were graded with `verdict`, and the points and time all of them took. */
  function Verdicts(responses: seq<Response>, blockId: Id, verdict: bool): nat {
    if responses == [] then 0
    else (if responses[0].blockId == blockId && responses[0].correct == Some(verdict) then 1 else 0)
         + Verdicts(responses[1..], blockId, verdict)
  }

  function PointsFor(responses: seq<Response>, blockId: Id): int {
    if responses == [] then 0
    else (if responses[0].blockId == blockId then responses[0].score else 0) + PointsFor(responses[1..], blockId)
  }

  function TimeFor(responses: seq<Response>, blockId: Id): int {
    if responses == [] then 0
    else (if responses[0].blockId == blockId then responses[0].responseMs else 0) + TimeFor(responses[1..], blockId)
  }

  lemma {:induction false} BlockTallies(responses: seq<Response>, blockId: Id)
    ensures var answers := Filter(responses, Here(blockId));
            && |Filter(Filter(answers, Graded), GradedRight)| == Verdicts(responses, blockId, true)
            && |Filter(answers, Graded)| == Verdicts(responses, blockId, true) + Verdicts(responses, blockId, false)
            && Total(answers, ResponseScore) == PointsFor(responses, blockId)
            && Total(answers, ResponseTime) == TimeFor(responses, blockId)
  {
    if responses != [] {
      hide Filter, Total;
      var r, rest := responses[0], responses[1..];
      assert responses == [r] + rest;
      FilterHead(r, rest, Here(blockId));
      BlockTallies(rest, blockId);
      if r.blockId == blockId {
        var answers := Filter(rest, Here(blockId));
        FilterHead(r, answers, Graded);
        if Graded(r) {
          assert r.correct == Some(r.correct.value) && (r.correct.value == true || r.correct.value == false);
          FilterHead(r, Filter(answers, Graded), GradedRight);
        }
        TotalHead(r, answers, ResponseScore);
        TotalHead(r, answers, ResponseTime);
      }
    } else {
      assert Filter([], Here(blockId)) == [];
    }
  }

  lemma TotalHead<T>(x: T, xs: seq<T>, weight: T -> int)
    ensures Total([x] + xs, weight) == weight(x) + Total(xs, weight)
  {
    assert ([x] + xs)[1..] == xs;
  }

  /**
   * The report has the blocks in order. Each question's evidence counts its own responses that were
   * graded right, out of those graded at all, and adds up its own points and times; a quick check is
   * not assessed.
   */
  lemma EvidenceIsOfItsBlock(room: Room, i: nat)
    requires i < |room.session.content.blocks|
    ensures var c, responses := room.session.content, room.responses;
            var b, evidence := c.blocks[i], ReportOf(room).evidence;
            && |evidence| == |c.blocks| && evidence[i].blockId == b.id && evidence[i].index == i
            && (evidence[i].QuestionEvidence? <==> b.QuestionBlock?)
            && (b.QuestionBlock? ==>
                  var e := evidence[i];
                  var right, wrong := Verdicts(responses, b.id, true), Verdicts(responses, b.id, false);
                  && e.questionId == b.question.id
                  && (e.quickCheck <==> c.quickCheck.Some? && c.quickCheck.value.blockId == b.id)
                  && (e.quickCheck ==> e.correct == None && e.totalScore == 0)
                  && (!e.quickCheck ==>
                        && e.correct == (if right + wrong == 0 then None else Some(right))
                        && e.totalScore == PointsFor(responses, b.id)
                        && (right + wrong > 0 ==>
                              && e.accuracyPercent.Some?
                              && Nearest(e.accuracyPercent.value, (right as real) / ((right + wrong) as real) * 100.0)))
                  && (e.averageMs.Some? ==>
                        && e.respondents > 0
                        && Nearest(e.averageMs.value, (TimeFor(responses, b.id) as real) / (e.respondents as real))))
  {
    hide Filter, Total, Ranking, Recoveries, Nearest, Percent, RoundHalfUp;
    var b := room.session.content.blocks[i];
    if b.QuestionBlock? {
      var answers := Filter(room.responses, Here(b.id));
      BlockTallies(room.responses, b.id);
      EvidenceCountsNest(room.session.content, i, b, answers);
      RightAmongGraded(answers);
    }
  }

  /** Version 3 is for quick checks, version 2 for rooms that showed a card, version 1 for all others. */
  lemma VersionTellsWhatTheReportNeeds(room: Room)
    ensures ReportOf(room).schemaVersion == 3 <==> room.session.content.quickCheck != None
    ensures ReportOf(room).schemaVersion == 2
            <==> room.session.content.quickCheck == None && exists e :: e in room.timeline && e.intervention != None
    ensures 1 <= ReportOf(room).schemaVersion <= 3
    ensures ReportOf(room).participantCount == |room.participants|
    ensures ReportOf(room).responseCount == |room.responses|
  {
    hide Ranking, AllEvidence, Recoveries;
    if e :| e in room.timeline && e.intervention != None {
      var i :| 0 <= i < |room.timeline| && room.timeline[i] == e;
      assert room.timeline[i].intervention.Some?;
    }
  }

  predicate OneAnswerPerQuestion(responses: seq<Response>) {
    forall i, j | 0 <= i < |responses| && 0 <= j < |responses|
      && AnswersQuestion(responses[i], responses[j].participantId, responses[j].questionId) ::
         responses[i] == responses[j]
  }

  /** Responses that fit distinct questions in distinct blocks are one per participant and question. */
  lemma OneBlockPerQuestion(room: Room)
    requires RoomOk(room) && QuestionIdsUnique(room.session.content.blocks)
    ensures OneAnswerPerQuestion(room.responses)
  {
    var blocks, responses := room.session.content.blocks, room.responses;
    forall i, j | 0 <= i < |responses| && 0 <= j < |responses|
      && AnswersQuestion(responses[i], responses[j].participantId, responses[j].questionId)
      ensures responses[i] == responses[j]
    {
      assert ResponseFits(blocks, responses[i]) && ResponseFits(blocks, responses[j]);
      var x :| 0 <= x < |blocks| && FitsBlock(blocks[x], responses[i]);
      var y :| 0 <= y < |blocks| && FitsBlock(blocks[y], responses[j]);
      assert x < y || x == y || y < x;
      assert i < j || i == j || j < i;
    }
  }

  lemma LastIsOnly(responses: seq<Response>, participantId: Uuid, questionId: Id, grade: Option<bool>)
    requires OneAnswerPerQuestion(responses)
    ensures var last := LastToQuestion(responses, participantId, questionId);
            last.Some? && last.value.correct == grade
            <==> exists r :: r in responses && AnswersQuestion(r, participantId, questionId) && r.correct == grade
  {
    var last := LastToQuestion(responses, participantId, questionId);
    forall r | r in responses && AnswersQuestion(r, participantId, questionId) ensures last == Some(r) {
      var i :| 0 <= i < |responses| && responses[i] == r;
      var j :| 0 <= j < |responses| && responses[j] == last.value;
    }
  }

  /**
   * The recovery counters count what they say: participants with a wrong diagnostic answer and a
   * recheck, and among them those whose recheck is right.
   */
  lemma RecoveryCounts(room: Room, source: Id, recheck: Id)
    requires RoomOk(room) && QuestionIdsUnique(room.session.content.blocks)
    ensures var entry := RecoveryOf(room.participants, room.responses, source, recheck);
            && entry.recovered <= entry.eligible <= |room.participants|
            && (entry.percent.Some? <==> entry.eligible > 0)
            && (entry.percent.Some? ==> 0 <= entry.percent.value <= 100)
            && entry.eligible == |Filter(room.participants, EligibleByLast(room.responses, source, recheck))|
            && entry.recovered == |Filter(room.participants, RecoveredByLast(room.responses, source, recheck))|
    ensures forall p: Participant ::
              EligibleByLast(room.responses, source, recheck)(p) <==> Eligible(room.responses, source, recheck, p)
    ensures forall p: Participant ::
              RecoveredByLast(room.responses, source, recheck)(p) <==> Recovered(room.responses, source, recheck, p)
  {
    hide RoomOk;
    OneBlockPerQuestion(room);
    RecoveredAreEligible(room.participants, room.responses, source, recheck);
    var entry := RecoveryOf(room.participants, room.responses, source, recheck);
    if entry.eligible > 0 {
      PercentInRange(entry.recovered, entry.eligible);
    }
    forall p: Participant
      ensures EligibleByLast(room.responses, source, recheck)(p) <==> Eligible(room.responses, source, recheck, p)
      ensures RecoveredByLast(room.responses, source, recheck)(p) <==> Recovered(room.responses, source, recheck, p)
    {
      LastIsOnly(room.responses, p.id, source, Some(false));
      LastIsOnly(room.responses, p.id, recheck, Some(true));
    }
  }

  /** Exactly the questions linked to a recheck are followed up. */
  function IsLinked(b: Block): bool {
    match b
    case QuestionBlock(_, q, _) => q.linkedRecheck != None
    case _ => false
  }

  /**
   * A report has one recovery entry for each question linked to a recheck, in the order of the blocks:
   * the question is its source, and the question linked to it its recheck.
   */
  lemma {:induction false} RecoveriesFollowTheLinks(
    blocks: seq<Block>, participants: seq<Participant>, responses: seq<Response>)
    ensures var entries, linked := Recoveries(blocks, participants, responses), Filter(blocks, IsLinked);
            && |entries| == |linked|
            && forall k | 0 <= k < |linked| ::
                 && linked[k].QuestionBlock? && linked[k].question.linkedRecheck.Some?
                 && entries[k].source == linked[k].question.id
                 && entries[k].recheck == linked[k].question.linkedRecheck.value
                 && entries[k] == RecoveryOf(participants, responses, entries[k].source, entries[k].recheck)
  {
    if blocks != [] {
      hide EligibleByLast, RecoveredByLast, Filter;
      var n := |blocks| - 1;
      RecoveriesFollowTheLinks(blocks[..n], participants, responses);
      assert blocks == blocks[..n] + [blocks[n]];
      FilterConcat(blocks[..n], [blocks[n]], IsLinked);
      FilterLast(blocks[n]);
    }
  }

  lemma FilterLast(b: Block)
    ensures Filter([b], IsLinked) == if IsLinked(b) then [b] else []
  {
    assert [b][1..] == [];
  }
}
