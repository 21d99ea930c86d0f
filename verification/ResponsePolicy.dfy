/**
 * What a participant's answer is worth: validation, correctness, timing and score, and the
 * fingerprint that decides whether two submissions are the same request.
 */
module ResponsePolicy {
  import opened Common
  import opened SessionModel
  import opened Sorting

  /** The text of a numeric answer with the finite number it denotes, if it denotes one. */
  datatype NumericText = NumericText(text: string, value: Option<real>)

  datatype Answer = Answer(
    choiceIds: Option<seq<Id>>, numeric: Option<NumericText>, rating: Option<int>, confidence: Option<int>)

  datatype Invalidity = NeedsConfidence | NotANumber | OutOfScale | UnknownChoice | OneChoiceOnly

  datatype Timing = Timing(responseMs: int, remaining: real)

  function Selected(a: Answer): seq<Id> {
    if a.choiceIds.Some? then a.choiceIds.value else []
  }

  // ---------------------------------------------------------------- fingerprint

  /** The sorted form that is hashed. */
  datatype Canonical = Canonical(
    blockId: Id, expectedRevision: nat, choiceIds: seq<Id>,
    numeric: Option<NumericText>, rating: Option<int>, confidence: Option<int>)

  function Canonicalize(blockId: Id, expectedRevision: nat, a: Answer, leq: (Id, Id) -> bool): Canonical {
    Canonical(blockId, expectedRevision, Sort(Selected(a), leq), a.numeric, a.rating, a.confidence)
  }

  /** The same information without choosing an order: the choices as a multiset. */
  datatype Fingerprint = Fingerprint(
    blockId: Id, expectedRevision: nat, choices: multiset<Id>,
    numeric: Option<NumericText>, rating: Option<int>, confidence: Option<int>)

  function FingerprintOf(blockId: Id, expectedRevision: nat, a: Answer): Fingerprint {
    Fingerprint(blockId, expectedRevision, multiset(Selected(a)), a.numeric, a.rating, a.confidence)
  }

  /** Whatever total order the ids are sorted by, hashing the sorted form compares the multisets. */
  lemma SortedFormIsTheFingerprint(
    block1: Id, revision1: nat, a: Answer, block2: Id, revision2: nat, b: Answer, leq: (Id, Id) -> bool)
    requires TotalOrder(leq)
    ensures Canonicalize(block1, revision1, a, leq) == Canonicalize(block2, revision2, b, leq)
            <==> FingerprintOf(block1, revision1, a) == FingerprintOf(block2, revision2, b)
  {
    SortForgetsOrderOnly(Selected(a), Selected(b), leq);
  }

  // ---------------------------------------------------------------- validation and correctness

  function ChoiceSet(choices: seq<Choice>): set<Id> {
    set i | 0 <= i < |choices| :: choices[i].id
  }

  function CorrectChoices(choices: seq<Choice>): set<Id> {
    set i | 0 <= i < |choices| && choices[i].isCorrect :: choices[i].id
  }

  function Chosen(a: Answer): set<Id> {
    set i | 0 <= i < |Selected(a)| :: Selected(a)[i]
  }

  function Validate(q: Question, a: Answer): Option<Invalidity> {
    if q.confidence.Required? && a.confidence.None? then Some(NeedsConfidence)
    else if q.kind.Numeric? then
      if a.numeric.None? || a.numeric.value.value.None? then Some(NotANumber) else None
    else if q.kind.Rating? then
      if a.rating.None? || a.rating.value < q.min || a.rating.value > q.max then Some(OutOfScale) else None
    else if Selected(a) == [] || !(Chosen(a) <= ChoiceSet(q.choices)) then Some(UnknownChoice)
    else if !q.kind.MultiSelect? && |Selected(a)| != 1 then Some(OneChoiceOnly)
    else None
  }

  /** A valid choice answer picks known choices, at least one, and only one where several are not allowed. */
  lemma ValidChoicesAreOffered(q: Question, a: Answer)
    requires Validate(q, a).None? && !q.kind.Numeric? && !q.kind.Rating?
    ensures Chosen(a) != {} && Chosen(a) <= ChoiceSet(q.choices)
    ensures !q.kind.MultiSelect? ==> |Chosen(a)| == 1
    ensures q.confidence.Required? ==> a.confidence.Some?
  {
    assert Selected(a)[0] in Chosen(a);
    if !q.kind.MultiSelect? {
      assert Chosen(a) == {Selected(a)[0]};
    }
  }

  function Abs(x: real): real {
    if x < 0.0 then -x else x
  }

  /** `None` for questions that have no right answer. */
  function Correct(q: Question, a: Answer): Option<bool> {
    if q.kind.Poll? || q.kind.Rating? then None
    else if q.kind.Numeric? then
      Some(a.numeric.Some? && a.numeric.value.value.Some?
           && Abs(a.numeric.value.value.value - q.correctValue) <= q.tolerance)
    else
      Some(|Chosen(a)| == |CorrectChoices(q.choices)| && forall id | id in Chosen(a) :: id in CorrectChoices(q.choices))
  }

  lemma EqualSizedSubset<T>(a: set<T>, b: set<T>)
    requires a <= b && |a| == |b|
    ensures a == b
  {
    assert b == a + (b - a);
    assert |b| == |a| + |b - a|;
  }

  /** A choice answer is right exactly when it picks all the correct choices and no other. */
  lemma CorrectMeansExactlyTheCorrectChoices(q: Question, a: Answer)
    requires !q.kind.Poll? && !q.kind.Rating? && !q.kind.Numeric?
    ensures Correct(q, a) == Some(Chosen(a) == CorrectChoices(q.choices))
  {
    if Chosen(a) <= CorrectChoices(q.choices) && |Chosen(a)| == |CorrectChoices(q.choices)| {
      EqualSizedSubset(Chosen(a), CorrectChoices(q.choices));
    }
  }

  lemma SameMultisetSameSet(a: Answer, b: Answer)
    requires multiset(Selected(a)) == multiset(Selected(b))
    ensures Chosen(a) == Chosen(b) && |Selected(a)| == |Selected(b)|
  {
    assert |multiset(Selected(a))| == |Selected(a)| && |multiset(Selected(b))| == |Selected(b)|;
    forall id ensures id in Chosen(a) <==> id in Chosen(b) {
      assert id in Chosen(a) <==> id in multiset(Selected(a));
      assert id in Chosen(b) <==> id in multiset(Selected(b));
    }
  }

  /** Requests that count as the same are equally valid and equally correct, for every question. */
  lemma SameRequestSameMeaning(
    q: Question, block1: Id, revision1: nat, a: Answer, block2: Id, revision2: nat, b: Answer)
    requires FingerprintOf(block1, revision1, a) == FingerprintOf(block2, revision2, b)
    ensures Validate(q, a) == Validate(q, b) && Correct(q, a) == Correct(q, b)
  {
    SameMultisetSameSet(a, b);
  }

  // ---------------------------------------------------------------- timing and score

  function Max(x: int, y: int): int { if x < y then y else x }
  function Min(x: int, y: int): int { if x < y then x else y }

  /** How long the answer took, and how much of the question's time was left. */
  function TimingOf(s: Session, receivedAt: int): Timing {
    match CurrentBlock(s)
    case Some(QuestionBlock(_, q, _)) =>
      var durationMs := q.timeLimitSeconds * 1000;
      if s.openedAt.None? then Timing(if s.flex then 0 else durationMs, if s.flex then 1.0 else 0.0)
      else
        var elapsedMs := Max(0, receivedAt - s.openedAt.value);
        var responseMs := if s.flex then elapsedMs else Min(durationMs, elapsedMs);
        Timing(responseMs,
               if s.flex then 1.0
               else if durationMs == 0 then 0.0
               else 1.0 - (responseMs as real) / (durationMs as real))
    case _ => Timing(0, 0.0)
  }

  predicate Scored(kind: QuestionType) {
    !kind.Poll? && !kind.Rating?
  }

  function RoundHalfUp(x: real): int {
    (x + 0.5).Floor
  }

  function Score(q: Question, correct: Option<bool>, remaining: real): int {
    if correct != Some(true) || !Scored(q.kind) then 0
    else RoundHalfUp((q.basePoints as real) * (0.5 + remaining * 0.5))
  }

  lemma ScaleMonotone(base: real, x: real, y: real)
    requires base >= 0.0 && x <= y
    ensures base * x <= base * y
  {
  }

  lemma FloorMonotone(x: real, y: real)
    requires x <= y
    ensures x.Floor <= y.Floor
  {
  }

  lemma ScoreMonotone(q: Question, correct: Option<bool>, r1: real, r2: real)
    requires r1 <= r2
    ensures Score(q, correct, r1) <= Score(q, correct, r2)
  {
    ScaleMonotone(q.basePoints as real, 0.5 + r1 * 0.5, 0.5 + r2 * 0.5);
    FloorMonotone((q.basePoints as real) * (0.5 + r1 * 0.5) + 0.5, (q.basePoints as real) * (0.5 + r2 * 0.5) + 0.5);
  }

  lemma DivideMonotone(x: real, y: real, d: real)
    requires x <= y && d > 0.0
    ensures x / d <= y / d
  {
    var inverse := 1.0 / d;
    assert inverse > 0.0 && x / d == inverse * x && y / d == inverse * y;
    ScaleMonotone(inverse, x, y);
  }

  lemma SelfRatio(d: real)
    requires d > 0.0
    ensures d / d == 1.0
  {
  }

  lemma RatioInUnit(x: real, d: real)
    requires 0.0 <= x <= d && d > 0.0
    ensures 0.0 <= x / d <= 1.0
  {
    DivideMonotone(0.0, x, d);
    DivideMonotone(x, d, d);
    SelfRatio(d);
  }

  lemma RemainingInUnit(s: Session, receivedAt: int)
    ensures 0.0 <= TimingOf(s, receivedAt).remaining <= 1.0
  {
    match CurrentBlock(s)
    case Some(QuestionBlock(_, q, _)) =>
      if s.openedAt.Some? && !s.flex && q.timeLimitSeconds > 0 {
        var d := (q.timeLimitSeconds * 1000) as real;
        var ms := TimingOf(s, receivedAt).responseMs as real;
        RatioInUnit(ms, d);
      }
    case _ =>
  }

  /** An answer that arrives later never has more time left. */
  lemma LaterLeavesLess(s: Session, early: int, late: int)
    requires early <= late
    ensures TimingOf(s, late).remaining <= TimingOf(s, early).remaining
  {
    match CurrentBlock(s)
    case Some(QuestionBlock(_, q, _)) =>
      if s.openedAt.Some? && !s.flex && q.timeLimitSeconds > 0 {
        DivideMonotone(TimingOf(s, early).responseMs as real, TimingOf(s, late).responseMs as real,
                       (q.timeLimitSeconds * 1000) as real);
      }
    case _ =>
  }

  lemma RoundWhole(n: nat)
    ensures RoundHalfUp(n as real) == n
  {
    assert (n as real + 0.5).Floor == n;
  }

  /**
   * A correct scored answer earns between half (rounded) and all of the base points, never more
   * for arriving later, and exactly the base points when the session is not timed.
   */
  lemma ScoreIsBounded(s: Session, q: Question, early: int, late: int)
    requires Scored(q.kind) && early <= late
    ensures var first := Score(q, Some(true), TimingOf(s, early).remaining);
            var second := Score(q, Some(true), TimingOf(s, late).remaining);
            && RoundHalfUp((q.basePoints as real) * 0.5) <= second <= first <= q.basePoints
            && (s.flex && CurrentBlock(s).Some? && CurrentBlock(s).value.QuestionBlock? ==> second == q.basePoints)
  {
    RemainingInUnit(s, early);
    RemainingInUnit(s, late);
    LaterLeavesLess(s, early, late);
    ScoreMonotone(q, Some(true), TimingOf(s, late).remaining, TimingOf(s, early).remaining);
    ScoreMonotone(q, Some(true), 0.0, TimingOf(s, late).remaining);
    ScoreMonotone(q, Some(true), TimingOf(s, early).remaining, 1.0);
    assert (q.basePoints as real) * (0.5 + 1.0 * 0.5) == q.basePoints as real;
    RoundWhole(q.basePoints);
  }

  /** Only correct answers to scored questions earn anything, and no score is negative. */
  lemma ScoreIsNeverNegative(s: Session, q: Question, correct: Option<bool>, receivedAt: int)
    ensures Score(q, correct, TimingOf(s, receivedAt).remaining) >= 0
  {
    RemainingInUnit(s, receivedAt);
    ScoreMonotone(q, correct, 0.0, TimingOf(s, receivedAt).remaining);
    FloorMonotone(0.5, (q.basePoints as real) * (0.5 + 0.0 * 0.5) + 0.5);
  }

  // ---------------------------------------------------------------- validity, correctness and points in plain terms

  predicate ChoiceKind(kind: QuestionType) {
    kind != Numeric && kind != Rating
  }

  /**
   * A response is valid exactly when it gives a confidence where one is required and then, by kind, a
   * finite number, a rating on the scale, or offered choices: at least one, and only one unless several
   * are allowed.
   */
  lemma ValidExactly(q: Question, a: Answer)
    ensures Validate(q, a) == None
            <==> && (q.confidence == Required ==> a.confidence != None)
                 && (q.kind == Numeric ==> a.numeric != None && a.numeric.value.value != None)
                 && (q.kind == Rating ==> a.rating != None && q.min <= a.rating.value <= q.max)
                 && (ChoiceKind(q.kind) ==>
                       && |Selected(a)| >= 1 && (q.kind != MultiSelect ==> |Selected(a)| == 1)
                       && forall i | 0 <= i < |Selected(a)| :: Offers(q, Selected(a)[i]))
  {
    hide Selected, Chosen, ChoiceSet, Offers;
    ChosenAreOffered(q, a);
  }

  predicate Offers(q: Question, id: Id) {
    exists j :: 0 <= j < |q.choices| && q.choices[j].id == id
  }

  lemma ChosenAreOffered(q: Question, a: Answer)
    ensures Chosen(a) <= ChoiceSet(q.choices) <==> forall i | 0 <= i < |Selected(a)| :: Offers(q, Selected(a)[i])
  {
    forall id: Id ensures id in ChoiceSet(q.choices) <==> Offers(q, id) {
      if Offers(q, id) {
        var j :| 0 <= j < |q.choices| && q.choices[j].id == id;
        assert q.choices[j].id in ChoiceSet(q.choices);
      }
    }
    if Chosen(a) <= ChoiceSet(q.choices) {
      forall i | 0 <= i < |Selected(a)| ensures Offers(q, Selected(a)[i]) {
        assert Selected(a)[i] in Chosen(a);
      }
    }
    if forall i | 0 <= i < |Selected(a)| :: Offers(q, Selected(a)[i]) {
      forall id | id in Chosen(a) ensures id in ChoiceSet(q.choices) {
        var i :| 0 <= i < |Selected(a)| && Selected(a)[i] == id;
        assert Offers(q, Selected(a)[i]);
      }
    }
  }

  /** A numeric answer is right exactly when it is a number from expected minus to expected plus tolerance. */
  lemma NumericAnswersWithinTolerance(q: Question, a: Answer)
    requires q.kind == Numeric
    ensures Correct(q, a) != None
    ensures Correct(q, a) == Some(true)
            <==> a.numeric != None && a.numeric.value.value != None
                 && q.correctValue - q.tolerance <= a.numeric.value.value.value <= q.correctValue + q.tolerance
  {
  }

  /** Polls and ratings have no right answer, and neither they nor wrong answers earn anything. */
  lemma OnlyRightAnswersEarn(q: Question, a: Answer, correct: Option<bool>, remaining: real)
    ensures Correct(q, a) == None <==> q.kind == Poll || q.kind == Rating
    ensures q.kind == Poll || q.kind == Rating || correct != Some(true) ==> Score(q, correct, remaining) == 0
  {
  }

  /** The part of the limit, in milliseconds, that has passed when an answer is received. */
  function Elapsed(limitMs: int, openedAt: int, receivedAt: int): int {
    if receivedAt <= openedAt then 0 else if receivedAt >= openedAt + limitMs then limitMs else receivedAt - openedAt
  }

  lemma HalfLost(base: real, e: real, s: real)
    requires s > 0.0
    ensures s * (base * (0.5 + (1.0 - e / (s * 0.5)) * 0.5)) == s * base - base * e
  {
    var m := e / (s * 0.5);
    assert m * (s * 0.5) == e;
    assert base * (0.5 + (1.0 - m) * 0.5) == base - base * (m * 0.5);
    assert s * (base * (m * 0.5)) == base * (m * (s * 0.5));
    Difference(base, base * (m * 0.5), s);
  }

  function Times(s: real, x: real): real {
    s * x
  }

  lemma TimesMonotone(s: real, x: real, y: real)
    requires s > 0.0 && x <= y
    ensures Times(s, x) <= Times(s, y)
  {
    ScaleMonotone(s, x, y);
  }

  lemma TimesStrictly(s: real, x: real, y: real)
    requires s > 0.0 && x < y
    ensures Times(s, x) < Times(s, y)
  {
    ScaleStrictly(s, x, y);
  }

  lemma Halved(y: real, s: real)
    requires s > 0.0 && -0.5 < y <= 0.5
    ensures Times(s, -0.5) < Times(s, y) <= Times(s, 0.5)
  {
    hide Times;
    TimesMonotone(s, y, 0.5);
    TimesStrictly(s, -0.5, y);
  }

  lemma ScaleStrictly(base: real, x: real, y: real)
    requires base > 0.0 && x < y
    ensures base * x < base * y
  {
    assert base * (y - x) > 0.0;
    assert base * (y - x) == base * y - base * x;
  }

  lemma Difference(n: real, x: real, s: real)
    ensures Times(s, n - x) == Times(s, n) - Times(s, x)
  {
  }

  /** Rounding a number and then scaling it is off by at most half the scale. */
  lemma NearestScaled(x: real, s: real)
    requires s > 0.0
    ensures Times(s, -0.5) < Times(s, RoundHalfUp(x) as real) - Times(s, x) <= Times(s, 0.5)
  {
    hide Times;
    var n := RoundHalfUp(x) as real;
    assert -0.5 < n - x <= 0.5;
    Halved(n - x, s);
    Difference(n, x, s);
  }

  /** The integer inequality that says `score` is the nearest whole number, ties up, to base - base * e / (2 * d). */
  predicate NearestPoints(score: int, base: nat, e: int, d: int) {
    -d < 2 * d * score - (2 * d * base - base * e) <= d
  }

  lemma {:induction false} TimesAsReal(x: int, n: nat)
    ensures (x * n) as real == (n as real) * (x as real)
  {
    if n > 0 {
      TimesAsReal(x, n - 1);
      assert x * n == x * (n - 1) + x;
      assert (n as real) * (x as real) == ((n - 1) as real) * (x as real) + (x as real);
    }
  }

  /** Twice a number of milliseconds, as a scale that clears the halves of a score. */
  function Scale(d: nat): real {
    (2 * d) as real
  }

  /** The same inequality over the reals: `exact` is the scaled exact value. */
  lemma RealPoints(score: int, base: nat, e: int, d: nat, exact: real)
    requires d > 0 && exact == Times(Scale(d), base as real) - Times(base as real, e as real)
    requires Times(Scale(d), -0.5) < Times(Scale(d), score as real) - exact <= Times(Scale(d), 0.5)
    ensures NearestPoints(score, base, e, d)
  {
    TimesAsReal(score, 2 * d);
    TimesAsReal(base, 2 * d);
    TimesAsReal(e, base);
    assert 2 * d * score == score * (2 * d) && 2 * d * base == base * (2 * d) && base * e == e * base;
    assert ((2 * d) as real) * 0.5 == d as real && ((2 * d) as real) * -0.5 == -(d as real);
  }

  function Left(e: int, d: nat): real
    requires d > 0
  {
    1.0 - (e as real) / (d as real)
  }

  function PointsAt(base: nat, remaining: real): real {
    (base as real) * (0.5 + remaining * 0.5)
  }

  lemma ScaledPoints(base: nat, e: int, d: nat)
    requires d > 0
    ensures Times(Scale(d), PointsAt(base, Left(e, d)))
            == Times(Scale(d), base as real) - Times(base as real, e as real)
    ensures Scale(d) > 0.0
  {
    var scale := Scale(d);
    assert scale * 0.5 == d as real;
    HalfLost(base as real, e as real, scale);
  }

  lemma PointsOfElapsed(base: nat, e: int, d: nat)
    requires d > 0
    ensures NearestPoints(RoundHalfUp(PointsAt(base, Left(e, d))), base, e, d)
  {
    hide RoundHalfUp, PointsAt, NearestPoints, Scale, Left, Times;
    var s, x := Scale(d), PointsAt(base, Left(e, d));
    ScaledPoints(base, e, d);
    NearestScaled(x, s);
    RealPoints(RoundHalfUp(x), base, e, d, Times(s, x));
  }

  lemma ScoreIsPoints(q: Question, remaining: real)
    requires q.kind != Poll && q.kind != Rating
    ensures Score(q, Some(true), remaining) == RoundHalfUp(PointsAt(q.basePoints, remaining))
  {
  }

  lemma TimedTiming(s: Session, openedAt: int, receivedAt: int)
    requires CurrentBlock(s).Some? && CurrentBlock(s).value.QuestionBlock? && !s.flex && s.openedAt == Some(openedAt)
    requires CurrentBlock(s).value.question.timeLimitSeconds > 0
    ensures var d := 1000 * CurrentBlock(s).value.question.timeLimitSeconds;
            var e := Elapsed(d, openedAt, receivedAt);
            TimingOf(s, receivedAt) == Timing(e, Left(e, d))
  {
  }

  /**
   * In a timed room an answer to the open question takes the part of the limit that has passed, and
   * if right earns the nearest whole number to all of the base points less half of them in proportion.
   */
  lemma PointsFollowTheElapsedTime(s: Session, openedAt: int, receivedAt: int)
    requires CurrentBlock(s).Some? && CurrentBlock(s).value.QuestionBlock? && !s.flex && s.openedAt == Some(openedAt)
    requires CurrentBlock(s).value.question.timeLimitSeconds > 0
    ensures var q := CurrentBlock(s).value.question;
            var limitMs := 1000 * q.timeLimitSeconds;
            var e := Elapsed(limitMs, openedAt, receivedAt);
            && TimingOf(s, receivedAt).responseMs == e
            && (q.kind != Poll && q.kind != Rating ==>
                  NearestPoints(Score(q, Some(true), TimingOf(s, receivedAt).remaining), q.basePoints, e, limitMs))
  {
    hide NearestPoints, TimingOf, RoundHalfUp, Elapsed, Score, PointsAt, Left;
    var q := CurrentBlock(s).value.question;
    var d := 1000 * q.timeLimitSeconds;
    TimedTiming(s, openedAt, receivedAt);
    if q.kind != Poll && q.kind != Rating {
      ScoreIsPoints(q, TimingOf(s, receivedAt).remaining);
    }
    PointsOfElapsed(q.basePoints, Elapsed(d, openedAt, receivedAt), d);
  }

  /** In an untimed room an answer takes the time since the opening and earns all of the base points. */
  lemma UntimedPoints(s: Session, openedAt: int, receivedAt: int)
    requires CurrentBlock(s).Some? && CurrentBlock(s).value.QuestionBlock? && s.flex && s.openedAt == Some(openedAt)
    ensures var q := CurrentBlock(s).value.question;
            && TimingOf(s, receivedAt).responseMs == (if receivedAt <= openedAt then 0 else receivedAt - openedAt)
            && (q.kind != Poll && q.kind != Rating ==>
                  Score(q, Some(true), TimingOf(s, receivedAt).remaining) == q.basePoints)
  {
    var base := CurrentBlock(s).value.question.basePoints;
    assert (base as real) * (0.5 + 1.0 * 0.5) == base as real;
    RoundWhole(base);
  }
}
