/**
 * The optimistic projection read: a session, a participant list and a response list are fetched
 * separately while the room keeps changing, and kept only if the event sequence stood still.
 */
module ConsistentRead {
  import opened SessionModel
  import opened SessionStore

  /** Successive values of one room: each change either moves the sequence by one or only presence. */
  predicate Chronicle(history: seq<Room>) {
    forall k | 0 < k < |history| ::
      history[k].eventSeq == history[k - 1].eventSeq + 1 || SameUpToPresence(history[k - 1], history[k])
  }

  lemma PresenceIsTransitive(a: Room, b: Room, c: Room)
    requires SameUpToPresence(a, b) && SameUpToPresence(b, c)
    ensures SameUpToPresence(a, c)
  {
  }

  /** If the sequence reads the same at two times, nothing durable happened in between. */
  lemma {:induction false} EqualSequenceMeansNothingHappened(history: seq<Room>, i: nat, j: nat)
    requires Chronicle(history) && i <= j < |history|
    ensures history[i].eventSeq <= history[j].eventSeq
    ensures history[i].eventSeq == history[j].eventSeq ==> SameUpToPresence(history[i], history[j])
    decreases j - i
  {
    if i < j {
      EqualSequenceMeansNothingHappened(history, i, j - 1);
      if history[i].eventSeq == history[j].eventSeq {
        PresenceIsTransitive(history[i], history[j - 1], history[j]);
      }
    }
  }

  /** When one attempt's three reads took place; `gone` says the confirming read found no session. */
  datatype Attempt = Attempt(participantsAt: nat, responsesAt: nat, confirmedAt: nat, gone: bool, now: int)

  /** Reads happen in order: both lists after the session that precedes them and before the next one. */
  predicate InOrder(start: nat, schedule: seq<Attempt>, end: nat) {
    && start < end
    && (forall k | 0 <= k < |schedule| ::
          && SessionReadAt(start, schedule, k) <= schedule[k].participantsAt <= schedule[k].confirmedAt
          && SessionReadAt(start, schedule, k) <= schedule[k].responsesAt <= schedule[k].confirmedAt
          && schedule[k].confirmedAt < end)
  }

  /** When the session used by attempt `k` was read: by the attempt before it, or at the start. */
  function SessionReadAt(start: nat, schedule: seq<Attempt>, k: nat): nat
    requires k <= |schedule|
  {
    if k == 0 then start else schedule[k - 1].confirmedAt
  }

  datatype Projection =
    | Consistent(session: Session, eventSeq: nat, dataSession: Session, participants: seq<Participant>,
                 responses: seq<Response>)
    | Gone
    | Inconsistent

  predicate SameRoster(a: seq<Participant>, b: seq<Participant>) {
    |a| == |b| && forall i | 0 <= i < |a| :: a[i].(lastSeenAt := b[i].lastSeenAt) == b[i]
  }

  /** Everything in the projection is the room as it stood at one moment. */
  predicate Untorn(p: Projection, room: Room)
    requires p.Consistent?
  {
    && p.session == room.session && p.dataSession == room.session && p.eventSeq == room.eventSeq
    && p.responses == room.responses && SameRoster(p.participants, room.participants)
  }

  lemma OneAttemptIsUntorn(history: seq<Room>, sessionAt: nat, a: Attempt)
    requires Chronicle(history) && a.confirmedAt < |history|
    requires sessionAt <= a.participantsAt <= a.confirmedAt && sessionAt <= a.responsesAt <= a.confirmedAt
    requires history[sessionAt].eventSeq == history[a.confirmedAt].eventSeq
    ensures var confirmed := history[a.confirmedAt];
            Untorn(Consistent(confirmed.session, confirmed.eventSeq, history[sessionAt].session,
                              history[a.participantsAt].participants, history[a.responsesAt].responses), confirmed)
  {
    EqualSequenceMeansNothingHappened(history, sessionAt, a.confirmedAt);
    EqualSequenceMeansNothingHappened(history, sessionAt, a.participantsAt);
    EqualSequenceMeansNothingHappened(history, sessionAt, a.responsesAt);
    EqualSequenceMeansNothingHappened(history, a.participantsAt, a.confirmedAt);
    EqualSequenceMeansNothingHappened(history, a.responsesAt, a.confirmedAt);
  }

  /** The confirming read of attempt `k` finds no session, or an expired one. */
  predicate GoneAt(history: seq<Room>, schedule: seq<Attempt>, k: nat)
    requires k < |schedule| && schedule[k].confirmedAt < |history|
  {
    schedule[k].gone || history[schedule[k].confirmedAt].session.liveExpiresAt <= schedule[k].now
  }

  /** Something durable happened during attempt `k`. */
  predicate MovedDuring(history: seq<Room>, start: nat, schedule: seq<Attempt>, k: nat)
    requires k < |schedule| && InOrder(start, schedule, |history|)
  {
    history[SessionReadAt(start, schedule, k)].eventSeq < history[schedule[k].confirmedAt].eventSeq
  }

  /** Every attempt before `k` found the session, and found that it had moved. */
  predicate TriedUntil(history: seq<Room>, start: nat, schedule: seq<Attempt>, k: nat)
    requires k <= |schedule| && InOrder(start, schedule, |history|)
  {
    forall j | 0 <= j < k :: !GoneAt(history, schedule, j) && MovedDuring(history, start, schedule, j)
  }

  /**
   * Up to three attempts. The first during which nothing durable happened returns a projection that is one
   * moment of the room, although its parts were read at different times; the first that finds no session
   * gives up for good, and so does the third in vain.
   */
  method ConsistentProjection(history: seq<Room>, start: nat, startNow: int, schedule: seq<Attempt>)
    returns (result: Projection)
    requires Chronicle(history) && |schedule| == 3 && InOrder(start, schedule, |history|)
    ensures result.Consistent? ==>
              exists k :: 0 <= k < 3 && TriedUntil(history, start, schedule, k) && !GoneAt(history, schedule, k)
                          && !MovedDuring(history, start, schedule, k)
                          && Untorn(result, history[schedule[k].confirmedAt])
    ensures result.Inconsistent? <==>
              history[start].session.liveExpiresAt > startNow && TriedUntil(history, start, schedule, 3)
    ensures result.Gone? <==>
              || history[start].session.liveExpiresAt <= startNow
              || exists k :: 0 <= k < 3 && TriedUntil(history, start, schedule, k) && GoneAt(history, schedule, k)
  {
    var sessionAt := start;
    if history[sessionAt].session.liveExpiresAt <= startNow {
      return Gone;
    }
    var attempt := 0;
    while attempt < 3
      invariant 0 <= attempt <= 3
      invariant sessionAt == SessionReadAt(start, schedule, attempt) < |history|
      invariant TriedUntil(history, start, schedule, attempt)
    {
      var a := schedule[attempt];
      var participants := history[a.participantsAt].participants;
      var responses := history[a.responsesAt].responses;
      if a.gone {
        assert GoneAt(history, schedule, attempt);
        return Gone;
      }
      var confirmed := history[a.confirmedAt];
      if confirmed.session.liveExpiresAt <= a.now {
        assert GoneAt(history, schedule, attempt);
        return Gone;
      }
      EqualSequenceMeansNothingHappened(history, sessionAt, a.confirmedAt);
      if confirmed.eventSeq == history[sessionAt].eventSeq {
        OneAttemptIsUntorn(history, sessionAt, a);
        assert !GoneAt(history, schedule, attempt) && !MovedDuring(history, start, schedule, attempt);
        return Consistent(confirmed.session, confirmed.eventSeq, history[sessionAt].session, participants, responses);
      }
      sessionAt := a.confirmedAt;
      attempt := attempt + 1;
    }
    result := Inconsistent;
  }
}
