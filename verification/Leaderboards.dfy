/** Ranking the participants of a room: the scores they collected and the order that follows. */
module Leaderboards {
  import opened Common
  import opened Sorting
  import opened SessionModel
  import opened SessionStore

  datatype Entry = Entry(id: Uuid, nickname: string, collation: int, joinedAt: int, score: int)
  datatype Ranked = Ranked(entry: Entry, rank: nat)
  datatype Standing = Standing(rank: nat, score: int)

  /** Higher scores first, then who joined earlier, then the nickname's place in the locale, then the id. */
  predicate Ahead(a: Entry, b: Entry) {
    if a.score != b.score then a.score > b.score
    else if a.joinedAt != b.joinedAt then a.joinedAt < b.joinedAt
    else if a.collation != b.collation then a.collation < b.collation
    else a.id <= b.id
  }

  function PointsOf(participantId: Uuid): Response -> int {
    (r: Response) => if r.participantId == participantId then r.score else 0
  }

  function ScoreOf(participantId: Uuid, responses: seq<Response>): int {
    Total(responses, PointsOf(participantId))
  }

  function EntryFor(responses: seq<Response>): Participant -> Entry {
    (p: Participant) => Entry(p.id, p.nickname, p.collation, p.joinedAt, ScoreOf(p.id, responses))
  }

  function WithRanks(entries: seq<Entry>): (ranked: seq<Ranked>)
    ensures |ranked| == |entries|
  {
    seq(|entries|, i requires 0 <= i < |entries| => Ranked(entries[i], i + 1))
  }

  function Ranking(participants: seq<Participant>, responses: seq<Response>): seq<Ranked> {
    WithRanks(Sort(Map(participants, EntryFor(responses)), Ahead))
  }

  /** Collects the scores in one pass over the responses, then sorts and numbers the participants. */
  method RankedParticipants(participants: seq<Participant>, responses: seq<Response>) returns (ranked: seq<Ranked>)
    ensures ranked == Ranking(participants, responses)
  {
    var scores: map<Uuid, int> := map[];
    var n := 0;
    while n < |responses|
      invariant 0 <= n <= |responses|
      invariant forall id :: (if id in scores then scores[id] else 0) == ScoreOf(id, responses[..n])
    {
      var r := responses[n];
      forall id: Uuid ensures ScoreOf(id, responses[..n + 1]) == ScoreOf(id, responses[..n]) + PointsOf(id)(r) {
        assert responses[..n + 1] == responses[..n] + [r];
        TotalConcat(responses[..n], [r], PointsOf(id));
      }
      scores := scores[r.participantId := (if r.participantId in scores then scores[r.participantId] else 0) + r.score];
      n := n + 1;
    }
    assert responses[..n] == responses;
    var entries := seq(|participants|, i requires 0 <= i < |participants| =>
      var p := participants[i];
      Entry(p.id, p.nickname, p.collation, p.joinedAt, if p.id in scores then scores[p.id] else 0));
    assert entries == Map(participants, EntryFor(responses));
    ranked := WithRanks(Sort(entries, Ahead));
  }

  function StandingOf(ranked: seq<Ranked>, participantId: Uuid): Option<Standing> {
    if ranked == [] then None
    else if ranked[0].entry.id == participantId then Some(Standing(ranked[0].rank, ranked[0].entry.score))
    else StandingOf(ranked[1..], participantId)
  }

  // ---------------------------------------------------------------- what the ranking means

  lemma AheadIsPreorder()
    ensures Preorder(Ahead)
  {
  }

  lemma EntriesSeparate(participants: seq<Participant>, responses: seq<Response>)
    requires RosterOk(participants)
    ensures Separates(Ahead, Map(participants, EntryFor(responses)))
  {
  }

  lemma ScoreForgetsOrder(participantId: Uuid, r1: seq<Response>, r2: seq<Response>)
    requires multiset(r1) == multiset(r2)
    ensures ScoreOf(participantId, r1) == ScoreOf(participantId, r2)
  {
    TotalPermutes(r1, r2, PointsOf(participantId));
  }

  lemma SameScoresSameEntries(participants: seq<Participant>, r1: seq<Response>, r2: seq<Response>)
    requires forall id :: ScoreOf(id, r1) == ScoreOf(id, r2)
    ensures Map(participants, EntryFor(r1)) == Map(participants, EntryFor(r2))
  {
  }

  /** Neither the order participants are listed in nor that of the responses affects any rank. */
  lemma RankingForgetsOrder(p1: seq<Participant>, r1: seq<Response>, p2: seq<Participant>, r2: seq<Response>)
    requires RosterOk(p1) && multiset(p1) == multiset(p2) && multiset(r1) == multiset(r2)
    ensures Ranking(p1, r1) == Ranking(p2, r2)
  {
    forall id ensures ScoreOf(id, r1) == ScoreOf(id, r2) {
      ScoreForgetsOrder(id, r1, r2);
    }
    SameScoresSameEntries(p2, r1, r2);
    MapPermutes(p1, p2, EntryFor(r1));
    EntriesSeparate(p1, r1);
    AheadIsPreorder();
    SortForgetsOrderOnly(Map(p1, EntryFor(r1)), Map(p2, EntryFor(r2)), Ahead);
  }

  predicate StrictlyAhead(a: Entry, b: Entry) {
    Ahead(a, b) && a != b
  }

  function Beats(b: Entry): Entry -> bool {
    (a: Entry) => StrictlyAhead(a, b)
  }

  lemma AllBefore(sorted: seq<Entry>, k: nat)
    requires Sorted(sorted, Ahead) && k < |sorted|
    requires forall i, j | 0 <= i < j < |sorted| :: sorted[i].id != sorted[j].id
    ensures Total(sorted[..k], Tally(Beats(sorted[k]))) == k
  {
    hide Ahead;
    TotalConstant(sorted[..k], Tally(Beats(sorted[k])), 1);
  }

  lemma NoneBefore(sorted: seq<Entry>, k: nat)
    requires Sorted(sorted, Ahead) && k < |sorted|
    requires forall i, j | 0 <= i < j < |sorted| :: sorted[i].id != sorted[j].id
    ensures Total(sorted[k..], Tally(Beats(sorted[k]))) == 0
  {
    forall e | e in sorted[k..] ensures !StrictlyAhead(e, sorted[k]) {
      var i :| k <= i < |sorted| && sorted[i] == e;
      assert i == k || Ahead(sorted[k], sorted[i]);
    }
    TotalConstant(sorted[k..], Tally(Beats(sorted[k])), 0);
  }

  lemma AheadInSorted(sorted: seq<Entry>, k: nat)
    requires Sorted(sorted, Ahead) && k < |sorted|
    requires forall i, j | 0 <= i < j < |sorted| :: sorted[i].id != sorted[j].id
    ensures Total(sorted, Tally(Beats(sorted[k]))) == k
  {
    hide Ahead, Sorted, StrictlyAhead;
    assert sorted == sorted[..k] + sorted[k..];
    TotalConcat(sorted[..k], sorted[k..], Tally(Beats(sorted[k])));
    AllBefore(sorted, k);
    NoneBefore(sorted, k);
  }

  /** A rank is one more than the number of participants who come strictly before. */
  lemma RankCountsThoseAhead(participants: seq<Participant>, responses: seq<Response>, k: nat)
    requires RosterOk(participants) && k < |Ranking(participants, responses)|
    ensures var r := Ranking(participants, responses)[k];
            r.rank == 1 + |Filter(Map(participants, EntryFor(responses)), Beats(r.entry))|
  {
    var entries := Map(participants, EntryFor(responses));
    var sorted := Sort(entries, Ahead);
    AheadIsPreorder();
    SortArranges(entries, Ahead);
    SortedIdsDistinct(entries, sorted);
    AheadInSorted(sorted, k);
    TotalPermutes(entries, sorted, Tally(Beats(sorted[k])));
    FilterCounts(entries, Beats(sorted[k]));
  }

  function IdOf(e: Entry): Uuid { e.id }

  lemma SortedIdsDistinct(entries: seq<Entry>, sorted: seq<Entry>)
    requires multiset(entries) == multiset(sorted)
    requires forall i, j | 0 <= i < j < |entries| :: entries[i].id != entries[j].id
    ensures forall i, j | 0 <= i < j < |sorted| :: sorted[i].id != sorted[j].id
  {
    assert KeyedApart(entries, IdOf);
    KeysStayApart(entries, sorted, IdOf);
    forall i, j | 0 <= i < j < |sorted| ensures sorted[i].id != sorted[j].id {
      assert IdOf(sorted[i]) != IdOf(sorted[j]);
    }
  }

  lemma {:induction false} StandingFound(ranked: seq<Ranked>, k: nat)
    requires k < |ranked| && forall i, j | 0 <= i < j < |ranked| :: ranked[i].entry.id != ranked[j].entry.id
    ensures StandingOf(ranked, ranked[k].entry.id) == Some(Standing(ranked[k].rank, ranked[k].entry.score))
  {
    if k > 0 {
      StandingFound(ranked[1..], k - 1);
    }
  }

  lemma BoardIds(participants: seq<Participant>, responses: seq<Response>)
    requires RosterOk(participants)
    ensures var ranked := Ranking(participants, responses);
            && |ranked| == |participants|
            && forall i, j | 0 <= i < j < |ranked| :: ranked[i].entry.id != ranked[j].entry.id
  {
    var entries := Map(participants, EntryFor(responses));
    AheadIsPreorder();
    SortArranges(entries, Ahead);
    SameElements(entries, Sort(entries, Ahead));
    SortedIdsDistinct(entries, Sort(entries, Ahead));
  }

  lemma PlaceOnBoard(participants: seq<Participant>, responses: seq<Response>, p: Participant) returns (k: nat)
    requires p in participants
    ensures k < |Ranking(participants, responses)|
            && Ranking(participants, responses)[k].entry == EntryFor(responses)(p)
  {
    var entries := Map(participants, EntryFor(responses));
    var i :| 0 <= i < |participants| && participants[i] == p;
    AheadIsPreorder();
    SortArranges(entries, Ahead);
    SameElements(entries, Sort(entries, Ahead));
    assert entries[i] in Sort(entries, Ahead);
    k :| 0 <= k < |entries| && Sort(entries, Ahead)[k] == entries[i];
  }

  /** Every participant stands on the board once: with their points, one place after those ahead of them. */
  lemma StandingIsRankAndScore(participants: seq<Participant>, responses: seq<Response>, p: Participant)
    requires RosterOk(participants) && p in participants
    ensures var e := EntryFor(responses)(p);
            StandingOf(Ranking(participants, responses), p.id)
            == Some(Standing(1 + |Filter(Map(participants, EntryFor(responses)), Beats(e))|, ScoreOf(p.id, responses)))
  {
    hide Ranking, ScoreOf;
    var k := PlaceOnBoard(participants, responses, p);
    BoardIds(participants, responses);
    RankCountsThoseAhead(participants, responses, k);
    StandingFound(Ranking(participants, responses), k);
  }

  // ---------------------------------------------------------------- who stands before whom

  /** The points of a participant, added up response by response. */
  function Collected(participantId: Uuid, responses: seq<Response>): int {
    if responses == [] then 0
    else (if responses[0].participantId == participantId then responses[0].score else 0)
         + Collected(participantId, responses[1..])
  }

  lemma {:induction false} CollectedIsScore(participantId: Uuid, responses: seq<Response>)
    ensures Collected(participantId, responses) == ScoreOf(participantId, responses)
  {
    if responses != [] {
      CollectedIsScore(participantId, responses[1..]);
    }
  }

  /** More points, then an earlier joining time, then an earlier nickname, then a smaller id. */
  predicate StandsBefore(p: Participant, q: Participant, responses: seq<Response>) {
    || Collected(p.id, responses) > Collected(q.id, responses)
    || (Collected(p.id, responses) == Collected(q.id, responses)
        && (|| p.joinedAt < q.joinedAt
            || (p.joinedAt == q.joinedAt
                && (p.collation < q.collation || (p.collation == q.collation && p.id < q.id)))))
  }

  lemma AheadIsBefore(p: Participant, q: Participant, responses: seq<Response>)
    requires p.id != q.id
    ensures Ahead(EntryFor(responses)(p), EntryFor(responses)(q)) <==> StandsBefore(p, q, responses)
  {
    CollectedIsScore(p.id, responses);
    CollectedIsScore(q.id, responses);
  }

  lemma EarlierPlace(participants: seq<Participant>, responses: seq<Response>, k: nat, l: nat)
    requires k < l < |Ranking(participants, responses)|
    ensures Ahead(Ranking(participants, responses)[k].entry, Ranking(participants, responses)[l].entry)
    ensures Ranking(participants, responses)[k].rank == k + 1 && Ranking(participants, responses)[l].rank == l + 1
  {
    AheadIsPreorder();
    SortArranges(Map(participants, EntryFor(responses)), Ahead);
  }

  /**
   * Of two participants the one with more points has the better rank; equal points go by who joined
   * first, then by nickname, then by id. Each has the points they collected.
   */
  lemma RanksFollowPoints(participants: seq<Participant>, responses: seq<Response>, p: Participant, q: Participant)
    requires RosterOk(participants) && p in participants && q in participants && p.id != q.id
    ensures var board := Ranking(participants, responses);
            var mine, theirs := StandingOf(board, p.id), StandingOf(board, q.id);
            && mine.Some? && theirs.Some?
            && mine.value.score == Collected(p.id, responses) && theirs.value.score == Collected(q.id, responses)
            && 1 <= mine.value.rank <= |participants| && mine.value.rank != theirs.value.rank
            && (mine.value.rank < theirs.value.rank <==> StandsBefore(p, q, responses))
  {
    hide Ranking, Ahead, StandsBefore, Collected, ScoreOf, RosterOk;
    var k := PlaceOnBoard(participants, responses, p);
    var l := PlaceOnBoard(participants, responses, q);
    BoardIds(participants, responses);
    StandingFound(Ranking(participants, responses), k);
    StandingFound(Ranking(participants, responses), l);
    CollectedIsScore(p.id, responses);
    CollectedIsScore(q.id, responses);
    AheadIsBefore(p, q, responses);
    AheadIsBefore(q, p, responses);
    BeforeOneWay(p, q, responses);
    if k < l {
      EarlierPlace(participants, responses, k, l);
    } else {
      EarlierPlace(participants, responses, l, k);
    }
  }

  lemma BeforeOneWay(p: Participant, q: Participant, responses: seq<Response>)
    ensures !(StandsBefore(p, q, responses) && StandsBefore(q, p, responses))
  {
  }
}
