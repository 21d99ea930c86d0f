/**
 * A self-paced follow-up attempt as a value: the rules that move it forward, and the repository
 * operations that store a move only if nobody else has moved first.
 */
module FollowupModel {
  import opened Common

  type Key = nat
  type QuestionId = nat

  datatype ConfidenceRule = ConfidenceOff | ConfidenceOptional | ConfidenceRequired

  datatype Checkpoint = Checkpoint(id: QuestionId, timeLimitSeconds: nat, confidence: ConfidenceRule)

  /** `cards` counts the frozen intervention cards, if a sequence was frozen at all. */
  datatype Followup = Followup(
    questions: seq<Checkpoint>, timed: bool, fullSequence: bool, cards: Option<nat>, opensAt: int, closesAt: int)

  datatype AttemptStatus = InProgress | Completed
  datatype AttemptPhase = QuestionOpen | AnswerReveal | Intervention | AllDone

  /** `halves` is the time multiplier in halves: 2, 3 or 4 for 1, 1.5 and 2. */
  datatype Attempt = Attempt(
    status: AttemptStatus, phase: AttemptPhase, index: nat, card: Option<nat>, receipts: map<Key, nat>, version: nat,
    halves: nat, openedAt: int, deadline: Option<int>, completedAt: Option<int>)

  /** The canonical form of an answer's payload: two payloads mean the same exactly when these are equal. */
  type Payload = nat

  datatype Answer = Answer(
    checkpointId: QuestionId, payload: Payload, confidence: Option<nat>, correct: Option<bool>, key: Key,
    submittedVersion: Option<nat>, acceptedAt: int)

  datatype Trouble =
    | Unauthorized | Unavailable | AnswerInvalid | StaleVersion | Conflict | AlreadyComplete | Internal

  /** Published questions have distinct ids and there is at least one. */
  predicate FollowupOk(f: Followup) {
    f.questions != [] && forall i, j | 0 <= i < j < |f.questions| :: f.questions[i].id != f.questions[j].id
  }

  function TimedDeadline(q: Checkpoint, openedAt: int, halves: nat): int {
    openedAt + q.timeLimitSeconds * halves * 500
  }

  /** A new attempt: the first question, just opened. */
  function Begin(f: Followup, now: int, halves: nat): Attempt
    requires f.questions != []
  {
    Attempt(InProgress, QuestionOpen, 0, None, map[], 0, halves, now,
            if f.timed then Some(TimedDeadline(f.questions[0], now, halves)) else None, None)
  }

  predicate TimedOut(a: Attempt, now: int) {
    a.status.InProgress? && a.phase.QuestionOpen? && a.deadline.Some? && a.deadline.value < now
  }

  function Revealed(a: Attempt): Attempt {
    a.(phase := AnswerReveal, version := a.version + 1)
  }

  /** One press of "continue" on an attempt that is still in progress. */
  function Continued(f: Followup, a: Attempt, now: int): Result<Attempt, Trouble> {
    if !a.phase.AnswerReveal? && !(f.fullSequence && a.phase.Intervention?) then Failure(Conflict)
    else if f.fullSequence && (f.cards.None? || f.cards.value == 0) then Failure(Conflict)
    else
      var card := if a.card.Some? then a.card.value else 0;
      if a.phase.Intervention? && (f.cards.None? || card >= f.cards.value) then Failure(Conflict)
      else
        var enters := f.fullSequence && a.phase.AnswerReveal? && a.index == 0;
        var continues := f.fullSequence && a.phase.Intervention? && card + 1 < f.cards.value;
        var shows := enters || continues;
        var last := !shows && a.index + 1 >= |f.questions|;
        var index := if last || shows then a.index else a.index + 1;
        Success(Attempt(
          if last then Completed else InProgress,
          if last then AllDone else if shows then Intervention else QuestionOpen,
          index, if shows then Some(if enters then 0 else card + 1) else None, a.receipts, a.version + 1, a.halves,
          if shows then a.openedAt else now,
          if !last && !shows && f.timed then Some(TimedDeadline(f.questions[index], now, a.halves)) else None,
          if last then Some(now) else None))
  }

  // ---------------------------------------------------------------- the repository

  const RECEIPT_LIMIT := 256

  datatype Record = Record(attempt: Attempt, answers: seq<Answer>)

  /** Only an intervention of a frozen sequence may carry a card index, and it must be one of its cards. */
  predicate SequenceOk(f: Followup, a: Attempt) {
    if !a.phase.Intervention? then a.card.None?
    else && f.fullSequence && f.cards.Some? && a.card.Some? && a.card.value < f.cards.value
         && a.index == 0 && a.status.InProgress?
  }

  function AnswerWithKey(answers: seq<Answer>, key: Key): (found: Option<Answer>)
    ensures found.Some? ==> found.value in answers && found.value.key == key
    ensures found.None? ==> forall a | a in answers :: a.key != key
  {
    if answers == [] then None else if answers[0].key == key then Some(answers[0]) else AnswerWithKey(answers[1..], key)
  }

  function AnswerTo(answers: seq<Answer>, id: QuestionId): (found: Option<Answer>)
    ensures found.Some? ==> found.value in answers && found.value.checkpointId == id
    ensures found.None? ==> forall a | a in answers :: a.checkpointId != id
  {
    if answers == [] then None
    else if answers[0].checkpointId == id then Some(answers[0])
    else AnswerTo(answers[1..], id)
  }

  datatype CommitReply = Stored(answer: Answer) | VersionConflict | AlreadyAnswered | Malformed

  /** An answer under a known key returns the old one, whatever it was for; otherwise the version decides. */
  function CommitAnswer(
    f: Followup, r: Record, next: Attempt, answer: Answer, expectedVersion: nat): (Record, CommitReply)
  {
    var earlier := AnswerWithKey(r.answers, answer.key);
    if earlier.Some? then (r, Stored(earlier.value))
    else if r.attempt.version != expectedVersion then (r, VersionConflict)
    else if AnswerTo(r.answers, answer.checkpointId).Some? then (r, AlreadyAnswered)
    else
      var stored := next.(receipts := r.attempt.receipts);
      if !SequenceOk(f, stored) then (r, Malformed)
      else (Record(stored, r.answers + [answer]), Stored(answer))
  }

  datatype AdvanceReply = Saved | NotSaved | BadSequence

  function AdvanceAttempt(
    f: Followup, r: Record, next: Attempt, expectedVersion: nat, key: Option<Key>): (Record, AdvanceReply)
  {
    if r.attempt.version != expectedVersion then (r, NotSaved)
    else if key.Some? && (key.value in r.attempt.receipts || |r.attempt.receipts| >= RECEIPT_LIMIT) then (r, NotSaved)
    else
      var receipts := if key.Some? then r.attempt.receipts[key.value := expectedVersion] else r.attempt.receipts;
      var stored := next.(receipts := receipts);
      if !SequenceOk(f, stored) then (r, BadSequence) else (Record(stored, r.answers), Saved)
  }

  /** One attempt and its answers, changed in place. */
  class AttemptStore {
    var attempt: Attempt
    var answers: seq<Answer>

    ghost function Value(): Record
      reads this
    {
      Record(attempt, answers)
    }

    constructor (attempt: Attempt)
      ensures Value() == Record(attempt, [])
    {
      this.attempt := attempt;
      answers := [];
    }

    method Commit(f: Followup, next: Attempt, answer: Answer, expectedVersion: nat) returns (reply: CommitReply)
      modifies this
      ensures (Value(), reply) == CommitAnswer(f, old(Value()), next, answer, expectedVersion)
    {
      var earlier := AnswerWithKey(answers, answer.key);
      if earlier.Some? {
        return Stored(earlier.value);
      }
      if attempt.version != expectedVersion {
        return VersionConflict;
      }
      if AnswerTo(answers, answer.checkpointId).Some? {
        return AlreadyAnswered;
      }
      var stored := next.(receipts := attempt.receipts);
      if !SequenceOk(f, stored) {
        return Malformed;
      }
      answers := answers + [answer];
      attempt := stored;
      reply := Stored(answer);
    }

    method Advance(f: Followup, next: Attempt, expectedVersion: nat, key: Option<Key>) returns (reply: AdvanceReply)
      modifies this
      ensures (Value(), reply) == AdvanceAttempt(f, old(Value()), next, expectedVersion, key)
    {
      if attempt.version != expectedVersion {
        return NotSaved;
      }
      var receipts := attempt.receipts;
      if key.Some? {
        if key.value in receipts || |receipts| >= RECEIPT_LIMIT {
          return NotSaved;
        }
        receipts := receipts[key.value := expectedVersion];
      }
      var stored := next.(receipts := receipts);
      if !SequenceOk(f, stored) {
        return BadSequence;
      }
      attempt := stored;
      reply := Saved;
    }
  }

  // ---------------------------------------------------------------- the script of an attempt

  /** Where an attempt stands. */
  datatype Place = Open(i: nat) | Reveal(i: nat) | CardShown(j: nat) | Finished

  function CardCount(f: Followup): nat {
    if f.fullSequence && f.cards.Some? then f.cards.value else 0
  }

  predicate ValidPlace(f: Followup, p: Place) {
    match p
    case Open(i) => i < |f.questions|
    case Reveal(i) => i < |f.questions|
    case CardShown(j) => j < CardCount(f)
    case Finished => true
  }

  function PlaceOf(a: Attempt): Place {
    match a.phase
    case QuestionOpen => Open(a.index)
    case AnswerReveal => Reveal(a.index)
    case Intervention => CardShown(if a.card.Some? then a.card.value else 0)
    case AllDone => Finished
  }

  /** The version every visit to a place has: question 0, its reveal, the cards, then the other questions. */
  function VersionAt(f: Followup, p: Place): nat {
    match p
    case Open(i) => 2 * i + if i > 0 then CardCount(f) else 0
    case Reveal(i) => 2 * i + 1 + if i > 0 then CardCount(f) else 0
    case CardShown(j) => 2 + j
    case Finished => 2 * |f.questions| + CardCount(f)
  }

  /** The place a version number stands for. */
  function PlaceAt(f: Followup, version: nat): Place {
    if version < 2 then if version == 0 then Open(0) else Reveal(0)
    else if version < 2 + CardCount(f) then CardShown(version - 2)
    else
      var past := version - CardCount(f);
      if past >= 2 * |f.questions| then Finished
      else if past % 2 == 0 then Open(past / 2) else Reveal(past / 2)
  }

  /** Versions and places correspond one to one: nothing is skipped, repeated or shared. */
  lemma VersionsAndPlacesCorrespond(f: Followup, p: Place, version: nat)
    requires f.questions != [] && ValidPlace(f, p) && version <= VersionAt(f, Finished)
    ensures PlaceAt(f, VersionAt(f, p)) == p && VersionAt(f, p) <= VersionAt(f, Finished)
    ensures ValidPlace(f, PlaceAt(f, version)) && VersionAt(f, PlaceAt(f, version)) == version
  {
  }
}
