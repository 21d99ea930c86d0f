/**
 * The session repository: one room, changed only by whole operations. `Room` is its value, the
 * functions say what each operation does to it, and the class carries them out field by field.
 */
module SessionStore {
  import opened Common
  import opened SessionModel
  import opened ResponsePolicy

  /** `collation` is where the nickname falls in the locale's ordering. */
  datatype Participant = Participant(id: Uuid, nickname: string, collation: int, joinedAt: int, lastSeenAt: int)

  datatype Response = Response(
    id: Uuid, participantId: Uuid, blockId: Id, questionId: Id, answer: Answer, correct: Option<bool>,
    score: int, responseMs: int, submittedAt: int, key: Option<Uuid>, requestHash: Option<Fingerprint>)

  /** The canonical intent of a command; hashing it is taken to be injective. */
  datatype RequestHash = RequestHash(expectedRevision: nat, action: Action)

  /** A receipt without a hash was written before commands were fingerprinted. */
  datatype Receipt = Receipt(requestHash: Option<RequestHash>, expectedRevision: nat, resultingRevision: nat)

  datatype Room = Room(
    session: Session, eventSeq: nat, timeline: seq<Event>, receipts: map<Uuid, Receipt>,
    participants: seq<Participant>, responses: seq<Response>)

  // ---------------------------------------------------------------- transitions

  datatype TransitionReply =
    | Updated(session: Session)
    | Replayed(session: Session)
    | ReceiptConflict
    | RevisionConflict(expected: nat, current: nat)
    | SourceUnavailable
    | Rejected

  predicate AttributionOk(s: Session, t: Transition) {
    && (t.intervention.Some? ==> t.phase.Intervention? && t.status.Active? && s.cardsEnabled)
    && (t.event.intervention.Some? ==> t.event.kind.InterventionPresented? && t.event.intervention == t.intervention)
  }

  function Moved(room: Room, t: Transition, now: int): Room {
    room.(session := Commit(room.session, t, now), eventSeq := room.eventSeq + 1, timeline := room.timeline + [t.event])
  }

  /** Compare-and-swap on the revision. */
  function TransitionSession(room: Room, expectedRevision: nat, t: Transition, now: int): (Room, TransitionReply) {
    if room.session.revision != expectedRevision
    then (room, RevisionConflict(expectedRevision, room.session.revision))
    else if !AttributionOk(room.session, t) then (room, Rejected)
    else (Moved(room, t, now), Updated(Commit(room.session, t, now)))
  }

  function ReceiptMatches(r: Receipt, expectedRevision: nat, hash: RequestHash, t: Transition): bool {
    r.expectedRevision == expectedRevision
    && if r.requestHash.None? then t.intervention.None? && t.content.None? else r.requestHash == Some(hash)
  }

  /** The receipt first, then the revision, then the source; the new receipt commits with the state. */
  function TransitionSessionCommand(
    room: Room, commandId: Uuid, hash: RequestHash, expectedRevision: nat, t: Transition, now: int,
    sourceAvailable: bool)
    : (Room, TransitionReply)
  {
    if commandId in room.receipts then
      (room, if ReceiptMatches(room.receipts[commandId], expectedRevision, hash, t) then Replayed(room.session)
       else ReceiptConflict)
    else if room.session.revision != expectedRevision
    then (room, RevisionConflict(expectedRevision, room.session.revision))
    else if t.fromPublishedSource && !sourceAvailable then (room, SourceUnavailable)
    else if !AttributionOk(room.session, t) then (room, Rejected)
    else
      var moved := Moved(room, t, now);
      (moved.(receipts := room.receipts[commandId := Receipt(Some(hash), expectedRevision, moved.session.revision)]),
       Updated(moved.session))
  }

  // ---------------------------------------------------------------- responses

  datatype Acceptance =
    | Accepted(response: Response)
    | Duplicate(response: Response)
    | KeyConflict(response: Response)
    | AlreadyResponded(response: Response)
    | Closed

  predicate HasKey(r: Response, participantId: Uuid, key: Uuid) {
    r.participantId == participantId && r.key == Some(key)
  }

  predicate AnswersBlock(r: Response, participantId: Uuid, blockId: Id) {
    r.participantId == participantId && r.blockId == blockId
  }

  function Here(blockId: Id): Response -> bool {
    (r: Response) => r.blockId == blockId
  }

  function FindByKey(responses: seq<Response>, participantId: Uuid, key: Uuid): (found: Option<Response>)
    ensures found.Some? ==> found.value in responses && HasKey(found.value, participantId, key)
    ensures found.None? ==> forall r | r in responses :: !HasKey(r, participantId, key)
  {
    if responses == [] then None
    else if HasKey(responses[0], participantId, key) then Some(responses[0])
    else FindByKey(responses[1..], participantId, key)
  }

  function FindByBlock(responses: seq<Response>, participantId: Uuid, blockId: Id): (found: Option<Response>)
    ensures found.Some? ==> found.value in responses && AnswersBlock(found.value, participantId, blockId)
    ensures found.None? ==> forall r | r in responses :: !AnswersBlock(r, participantId, blockId)
  {
    if responses == [] then None
    else if AnswersBlock(responses[0], participantId, blockId) then Some(responses[0])
    else FindByBlock(responses[1..], participantId, blockId)
  }

  predicate Joined(participants: seq<Participant>, id: Uuid) {
    exists i :: 0 <= i < |participants| && participants[i].id == id
  }

  /** The live window: this question, this revision, and received while it was open. */
  predicate WindowOpen(s: Session, r: Response, expectedRevision: nat) {
    && s.status.Active? && s.phase.QuestionOpen? && s.revision == expectedRevision && r.submittedAt < s.liveExpiresAt
    && CurrentBlock(s).Some? && CurrentBlock(s).value.QuestionBlock?
    && CurrentBlock(s).value.id == r.blockId && CurrentBlock(s).value.question.id == r.questionId
    && s.openedAt.Some? && s.openedAt.value <= r.submittedAt
    && (s.closesAt.Some? ==> r.submittedAt <= s.closesAt.value)
  }

  /** The receipt first, then the live window, then one answer per participant and block. */
  function AcceptResponse(room: Room, r: Response, expectedRevision: nat): (Room, Acceptance) {
    var receipt := if r.key.Some? then FindByKey(room.responses, r.participantId, r.key.value) else None;
    var existing := FindByBlock(room.responses, r.participantId, r.blockId);
    if receipt.Some? then
      (room, if receipt.value.requestHash.Some? && r.requestHash.Some? && receipt.value.requestHash != r.requestHash
             then KeyConflict(receipt.value) else Duplicate(receipt.value))
    else if !Joined(room.participants, r.participantId) || !WindowOpen(room.session, r, expectedRevision)
    then (room, Closed)
    else if existing.Some? then
      (room, if r.key.Some? then AlreadyResponded(existing.value) else Duplicate(existing.value))
    else (room.(eventSeq := room.eventSeq + 1, responses := room.responses + [r]), Accepted(r))
  }

  predicate OneAnswerEach(responses: seq<Response>) {
    forall i, j | 0 <= i < j < |responses| ::
      !AnswersBlock(responses[i], responses[j].participantId, responses[j].blockId)
  }

  predicate KeysUnique(responses: seq<Response>) {
    forall i, j | 0 <= i < j < |responses| && responses[j].key.Some? ::
      !HasKey(responses[i], responses[j].participantId, responses[j].key.value)
  }

  /** Participant ids are distinct. */
  predicate RosterOk(participants: seq<Participant>) {
    forall i, j | 0 <= i < j < |participants| :: participants[i].id != participants[j].id
  }

  // ---------------------------------------------------------------- participants

  /** A join with an id that is already taken cannot happen: ids are freshly generated. */
  function JoinRoom(room: Room, p: Participant, limit: nat): Room {
    if !room.session.status.Active? || p.joinedAt >= room.session.liveExpiresAt || |room.participants| >= limit
       || Joined(room.participants, p.id) then room
    else room.(eventSeq := room.eventSeq + 1, participants := room.participants + [p])
  }

  /** Looking a participant up refreshes its presence without moving the event sequence. */
  function Touch(participants: seq<Participant>, id: Uuid, now: int): (touched: seq<Participant>)
    ensures |touched| == |participants|
    ensures forall i | 0 <= i < |participants| ::
            touched[i].(lastSeenAt := participants[i].lastSeenAt) == participants[i]
  {
    seq(|participants|, i requires 0 <= i < |participants| =>
      if participants[i].id == id then participants[i].(lastSeenAt := now) else participants[i])
  }

  /** Two rooms that differ at most in when participants were last seen. */
  predicate SameUpToPresence(a: Room, b: Room) {
    && a.session == b.session && a.eventSeq == b.eventSeq && a.timeline == b.timeline && a.receipts == b.receipts
    && a.responses == b.responses && |a.participants| == |b.participants|
    && (forall i | 0 <= i < |a.participants| ::
        a.participants[i].(lastSeenAt := b.participants[i].lastSeenAt) == b.participants[i])
  }

  // ---------------------------------------------------------------- what a room's records satisfy

  /** A valid response to this very question; only scored questions earn points. */
  predicate FitsBlock(b: Block, r: Response) {
    && b.QuestionBlock? && b.id == r.blockId && b.question.id == r.questionId && Validate(b.question, r.answer).None?
    && r.score >= 0 && (Scored(b.question.kind) || r.score == 0)
  }

  predicate ResponseFits(blocks: seq<Block>, r: Response) {
    exists i :: 0 <= i < |blocks| && FitsBlock(blocks[i], r)
  }

  predicate ResponsesFit(room: Room) {
    forall k | 0 <= k < |room.responses| ::
      ResponseFits(room.session.content.blocks, room.responses[k])
        && Joined(room.participants, room.responses[k].participantId)
  }

  /** One answer per participant, block and key; one entry per participant; no stray responses. */
  predicate RoomOk(room: Room) {
    OneAnswerEach(room.responses) && KeysUnique(room.responses) && RosterOk(room.participants) && ResponsesFit(room)
  }

  // ---------------------------------------------------------------- the store itself

  class Store {
    var session: Session
    var eventSeq: nat
    var timeline: seq<Event>
    var receipts: map<Uuid, Receipt>
    var participants: seq<Participant>
    var responses: seq<Response>

    ghost function Value(): Room
      reads this
    {
      Room(session, eventSeq, timeline, receipts, participants, responses)
    }

    constructor (session: Session)
      ensures Value() == Room(session, 0, [], map[], [], [])
    {
      this.session := session;
      eventSeq, timeline, receipts, participants, responses := 0, [], map[], [], [];
    }

    /** The state changes every committed transition makes. */
    method Apply(t: Transition, now: int)
      modifies this
      ensures Value() == Moved(old(Value()), t, now)
    {
      session := Commit(session, t, now);
      eventSeq := eventSeq + 1;
      timeline := timeline + [t.event];
    }

    method Transition(expectedRevision: nat, t: Transition, now: int) returns (reply: TransitionReply)
      modifies this
      ensures (Value(), reply) == TransitionSession(old(Value()), expectedRevision, t, now)
    {
      if session.revision != expectedRevision {
        return RevisionConflict(expectedRevision, session.revision);
      }
      if !AttributionOk(session, t) {
        return Rejected;
      }
      Apply(t, now);
      reply := Updated(session);
    }

    method TransitionCommand(
      commandId: Uuid, hash: RequestHash, expectedRevision: nat, t: Transition, now: int, sourceAvailable: bool)
      returns (reply: TransitionReply)
      modifies this
      ensures (Value(), reply)
           == TransitionSessionCommand(old(Value()), commandId, hash, expectedRevision, t, now, sourceAvailable)
    {
      if commandId in receipts {
        if ReceiptMatches(receipts[commandId], expectedRevision, hash, t) {
          return Replayed(session);
        }
        return ReceiptConflict;
      }
      if session.revision != expectedRevision {
        return RevisionConflict(expectedRevision, session.revision);
      }
      if t.fromPublishedSource && !sourceAvailable {
        return SourceUnavailable;
      }
      if !AttributionOk(session, t) {
        return Rejected;
      }
      Apply(t, now);
      receipts := receipts[commandId := Receipt(Some(hash), expectedRevision, session.revision)];
      reply := Updated(session);
    }

    /** The first stored response under this participant's key. */
    method FindIdempotent(participantId: Uuid, key: Uuid) returns (found: Option<Response>)
      ensures found == FindByKey(responses, participantId, key)
    {
      var i := 0;
      while i < |responses|
        invariant 0 <= i <= |responses|
        invariant FindByKey(responses, participantId, key) == FindByKey(responses[i..], participantId, key)
      {
        if HasKey(responses[i], participantId, key) {
          return Some(responses[i]);
        }
        assert responses[i..][1..] == responses[i + 1..];
        i := i + 1;
      }
      found := None;
    }

    method Accept(r: Response, expectedRevision: nat) returns (acceptance: Acceptance)
      modifies this
      ensures (Value(), acceptance) == AcceptResponse(old(Value()), r, expectedRevision)
    {
      if r.key.Some? {
        var receipt := FindIdempotent(r.participantId, r.key.value);
        if receipt.Some? {
          if receipt.value.requestHash.Some? && r.requestHash.Some? && receipt.value.requestHash != r.requestHash {
            return KeyConflict(receipt.value);
          }
          return Duplicate(receipt.value);
        }
      }
      if !Joined(participants, r.participantId) || !WindowOpen(session, r, expectedRevision) {
        return Closed;
      }
      var existing := FindByBlock(responses, r.participantId, r.blockId);
      if existing.Some? {
        if r.key.Some? {
          return AlreadyResponded(existing.value);
        }
        return Duplicate(existing.value);
      }
      eventSeq := eventSeq + 1;
      responses := responses + [r];
      acceptance := Accepted(r);
    }

    method Join(p: Participant, limit: nat)
      modifies this
      ensures Value() == JoinRoom(old(Value()), p, limit)
    {
      if session.status.Active? && p.joinedAt < session.liveExpiresAt && |participants| < limit
        && !Joined(participants, p.id) {
        eventSeq := eventSeq + 1;
        participants := participants + [p];
      }
    }
  }
}
