/**
 * Coalescing room broadcasts on one event loop: at most one runs per session, requests made
 * meanwhile are folded into one more, and others wait for a timer.
 */
module Broadcasts {
  type SessionId = nat

  const MIN_INTERVAL_MS := 250

  /**
   * `pending` maps a session to when its timer is due. `running` counts the broadcasts that have
   * actually started and not finished; it is bookkeeping the scheduler itself never reads.
   */
  datatype State = State(
    last: map<SessionId, int>, pending: map<SessionId, int>, inFlight: set<SessionId>, queued: set<SessionId>,
    closed: bool, running: multiset<SessionId>)

  const Idle := State(map[], map[], {}, {}, false, multiset{})

  /** How one broadcast ended. */
  datatype Ending = Sent | RoomEmpty | Inconsistent | Failed

  datatype Event =
    | Schedule(session: SessionId, immediate: bool, now: int)
    | TimerFires(session: SessionId, now: int)
    | Finishes(session: SessionId, ending: Ending, now: int)
    | Deleted(session: SessionId)
    | Close

  // ---------------------------------------------------------------- what each handler does

  function Cleared(s: State, session: SessionId): State {
    s.(pending := s.pending - {session}, last := s.last - {session}, queued := s.queued - {session})
  }

  /** Starts a broadcast, or leaves word for the one that is running. */
  function Broadcast(s: State, session: SessionId): State {
    if s.closed then s
    else if session in s.inFlight then s.(queued := s.queued + {session})
    else s.(inFlight := s.inFlight + {session}, queued := s.queued - {session},
            running := s.running + multiset{session})
  }

  /** Remembers when a broadcast was last asked for or due. */
  function Noted(s: State, session: SessionId, now: int): State {
    s.(last := s.last[session := now])
  }

  function LastBroadcast(s: State, session: SessionId): int {
    if session in s.last then s.last[session] else 0
  }

  function Scheduled(s: State, session: SessionId, immediate: bool, now: int): State {
    if s.closed then s
    else
      var s1 := if immediate then s.(pending := s.pending - {session}) else s;
      var elapsed := now - LastBroadcast(s, session);
      if immediate || elapsed >= MIN_INTERVAL_MS then Broadcast(Noted(s1, session, now), session)
      else if session in s.pending then s1
      else s1.(pending := s1.pending[session := now + MIN_INTERVAL_MS - elapsed])
  }

  function RetryScheduled(s: State, session: SessionId, now: int): State {
    if s.closed || session in s.pending then s else s.(pending := s.pending[session := now + MIN_INTERVAL_MS])
  }

  function TimerFired(s: State, session: SessionId, now: int): State {
    Broadcast(Noted(s.(pending := s.pending - {session}), session, now), session)
  }

  function AfterEnding(s: State, session: SessionId, ending: Ending, now: int): State {
    match ending
    case RoomEmpty => Cleared(s, session)
    case Inconsistent => RetryScheduled(s, session, now)
    case _ => s
  }

  /** The drain loop goes round again if word was left, and lets the session go otherwise. */
  function Drained(s: State, session: SessionId): State {
    if !s.closed && session in s.queued
    then s.(queued := s.queued - {session}, running := s.running + multiset{session})
    else s.(inFlight := s.inFlight - {session}, queued := s.queued - {session})
  }

  function Finished(s: State, session: SessionId, ending: Ending, now: int): State {
    Drained(AfterEnding(s.(running := s.running - multiset{session}), session, ending, now), session)
  }

  function Closed(s: State): State {
    State(map[], map[], s.inFlight, {}, true, s.running)
  }

  /** Timers fire only when they are due, and only running broadcasts finish. */
  predicate Enabled(s: State, e: Event) {
    match e
    case TimerFires(session, now) => session in s.pending && s.pending[session] <= now
    case Finishes(session, _, _) => s.running[session] > 0
    case Deleted(_) => !s.closed
    case _ => true
  }

  function Step(s: State, e: Event): State {
    if !Enabled(s, e) then s
    else match e
      case Schedule(session, immediate, now) => Scheduled(s, session, immediate, now)
      case TimerFires(session, now) => TimerFired(s, session, now)
      case Finishes(session, ending, now) => Finished(s, session, ending, now)
      case Deleted(session) => Cleared(s, session)
      case Close => Closed(s)
  }

  function Run(s: State, events: seq<Event>): State
    decreases |events|
  {
    if events == [] then s else Run(Step(s, events[0]), events[1..])
  }

  // ---------------------------------------------------------------- the scheduler itself

  class Scheduler {
    var last: map<SessionId, int>
    var pending: map<SessionId, int>
    var inFlight: set<SessionId>
    var queued: set<SessionId>
    var closed: bool
    ghost var running: multiset<SessionId>

    ghost function Value(): State
      reads this
    {
      State(last, pending, inFlight, queued, closed, running)
    }

    constructor ()
      ensures Value() == Idle
    {
      last, pending, inFlight, queued, closed, running := map[], map[], {}, {}, false, multiset{};
    }

    method ClearRoomBroadcasts(session: SessionId)
      modifies this
      ensures Value() == Cleared(old(Value()), session)
    {
      pending := pending - {session};
      last := last - {session};
      queued := queued - {session};
    }

    method BroadcastSession(session: SessionId)
      modifies this
      ensures Value() == Broadcast(old(Value()), session)
    {
      if closed {
        return;
      }
      if session in inFlight {
        queued := queued + {session};
        return;
      }
      inFlight := inFlight + {session};
      queued := queued - {session};
      running := running + multiset{session};
    }

    method ScheduleBroadcast(session: SessionId, immediate: bool, now: int)
      modifies this
      ensures Value() == Scheduled(old(Value()), session, immediate, now)
    {
      if closed {
        return;
      }
      var waiting := session in pending;
      if immediate && waiting {
        pending := pending - {session};
      }
      var elapsed := now - (if session in last then last[session] else 0);
      if immediate || elapsed >= MIN_INTERVAL_MS {
        last := last[session := now];
        assert immediate && !waiting ==> pending - {session} == pending;
        BroadcastSession(session);
        return;
      }
      if waiting {
        return;
      }
      pending := pending[session := now + MIN_INTERVAL_MS - elapsed];
    }

    method ScheduleBroadcastRetry(session: SessionId, now: int)
      modifies this
      ensures Value() == RetryScheduled(old(Value()), session, now)
    {
      if closed || session in pending {
        return;
      }
      pending := pending[session := now + MIN_INTERVAL_MS];
    }

    method OnTimer(session: SessionId, now: int)
      modifies this
      ensures Value() == TimerFired(old(Value()), session, now)
    {
      pending := pending - {session};
      last := last[session := now];
      BroadcastSession(session);
    }

    /** The running broadcast is over: what it leaves behind when the room was empty or would not stand still. */
    method EndBroadcast(session: SessionId, ending: Ending, now: int)
      modifies this
      ensures Value() == AfterEnding(old(Value()).(running := old(running) - multiset{session}), session, ending, now)
    {
      running := running - multiset{session};
      if ending.RoomEmpty? {
        ClearRoomBroadcasts(session);
      } else if ending.Inconsistent? {
        ScheduleBroadcastRetry(session, now);
      }
    }

    method Drain(session: SessionId)
      modifies this
      ensures Value() == Drained(old(Value()), session)
    {
      if !closed && session in queued {
        queued := queued - {session};
        running := running + multiset{session};
        return;
      }
      inFlight := inFlight - {session};
      queued := queued - {session};
    }

    /** What happens between one broadcast's end and the next one's start. */
    method OnFinished(session: SessionId, ending: Ending, now: int)
      modifies this
      ensures Value() == Finished(old(Value()), session, ending, now)
    {
      EndBroadcast(session, ending, now);
      Drain(session);
    }

    method CloseAll()
      modifies this
      ensures Value() == Closed(old(Value()))
    {
      closed := true;
      pending, last, queued := map[], map[], {};
    }
  }

  // ---------------------------------------------------------------- at most one in flight

  /** A session is marked in flight exactly while one broadcast of it runs; nothing waits once closed. */
  ghost predicate Valid(s: State) {
    && (forall session: SessionId :: s.running[session] == if session in s.inFlight then 1 else 0)
    && s.queued <= s.inFlight
    && (s.closed ==> s.pending == map[] && s.queued == {})
  }

  lemma BroadcastKeepsValid(s: State, session: SessionId)
    requires Valid(s)
    ensures Valid(Broadcast(s, session))
  {
  }

  lemma ScheduledKeepsValid(s: State, session: SessionId, immediate: bool, now: int)
    requires Valid(s)
    ensures Valid(Scheduled(s, session, immediate, now))
  {
    hide Broadcast;
    var s1 := if immediate then s.(pending := s.pending - {session}) else s;
    BroadcastKeepsValid(Noted(s1, session, now), session);
  }

  lemma TimerKeepsValid(s: State, session: SessionId, now: int)
    requires Valid(s)
    ensures Valid(TimerFired(s, session, now))
  {
    hide Broadcast;
    BroadcastKeepsValid(Noted(s.(pending := s.pending - {session}), session, now), session);
  }

  lemma FinishedKeepsValid(s: State, session: SessionId, ending: Ending, now: int)
    requires Valid(s) && s.running[session] > 0
    ensures Valid(Finished(s, session, ending, now))
  {
    var t := Finished(s, session, ending, now);
    forall other: SessionId ensures t.running[other] == if other in t.inFlight then 1 else 0 {
      assert s.running[other] == if other in s.inFlight then 1 else 0;
    }
  }

  lemma StepKeepsValid(s: State, e: Event)
    requires Valid(s)
    ensures Valid(Step(s, e))
  {
    hide Scheduled, TimerFired, Finished;
    if Enabled(s, e) {
      match e
      case Schedule(session, immediate, now) => ScheduledKeepsValid(s, session, immediate, now);
      case TimerFires(session, now) => TimerKeepsValid(s, session, now);
      case Finishes(session, ending, now) => FinishedKeepsValid(s, session, ending, now);
      case _ =>
    }
  }

  lemma {:induction false} RunKeepsValid(s: State, events: seq<Event>)
    requires Valid(s)
    ensures Valid(Run(s, events))
    decreases |events|
  {
    hide Valid, Step;
    if events != [] {
      StepKeepsValid(s, events[0]);
      RunKeepsValid(Step(s, events[0]), events[1..]);
    }
  }

  /** Starting and draining leave all timers and times alone. */
  lemma TimesStay(s: State, session: SessionId)
    ensures Broadcast(s, session).pending == s.pending && Broadcast(s, session).last == s.last
    ensures Drained(s, session).pending == s.pending && Drained(s, session).last == s.last
  {
  }

  /** After any events at all, no session has two broadcasts running. */
  lemma AtMostOneBroadcastRuns(events: seq<Event>, session: SessionId)
    ensures Run(Idle, events).running[session] <= 1
    ensures Run(Idle, events).running[session] == 1 <==> session in Run(Idle, events).inFlight
  {
    hide Run, Step;
    RunKeepsValid(Idle, events);
  }

  // ---------------------------------------------------------------- no broadcast is lost

  /** This event starts a broadcast of the session, from the drain loop or afresh. */
  predicate Starts(s: State, e: Event, session: SessionId) {
    && Enabled(s, e)
    && match e
       case Schedule(id, immediate, now) =>
         && id == session && !s.closed && session !in s.inFlight
         && (immediate || now - LastBroadcast(s, session) >= MIN_INTERVAL_MS)
       case TimerFires(id, _) => id == session && !s.closed && session !in s.inFlight
       case Finishes(id, ending, _) => id == session && !s.closed && session in s.queued && !ending.RoomEmpty?
       case _ => false
  }

  /** This event asks for a broadcast of its session now. */
  predicate Asks(s: State, e: Event) {
    && Enabled(s, e) && !s.closed
    && (e.TimerFires? || (e.Schedule? && (e.immediate || e.now - LastBroadcast(s, e.session) >= MIN_INTERVAL_MS)))
  }

  /** Queue, flight and count after a step that asks, and after one that ends a broadcast. */
  predicate AskedFlight(s: State, e: Event, t: State)
    requires e.Schedule? || e.TimerFires?
  {
    if !Asks(s, e) then t.queued == s.queued && t.inFlight == s.inFlight && t.running == s.running
    else if e.session in s.inFlight
    then t.queued == s.queued + {e.session} && t.inFlight == s.inFlight && t.running == s.running
    else && t.queued == s.queued - {e.session} && t.inFlight == s.inFlight + {e.session}
         && t.running == s.running + multiset{e.session}
  }

  predicate EndedFlight(s: State, e: Event, t: State)
    requires e.Finishes?
  {
    if !Enabled(s, e) then t.queued == s.queued && t.inFlight == s.inFlight && t.running == s.running
    else && t.queued == s.queued - {e.session}
         && if !s.closed && e.session in s.queued && !e.ending.RoomEmpty?
            then t.inFlight == s.inFlight && t.running == s.running - multiset{e.session} + multiset{e.session}
            else t.inFlight == s.inFlight - {e.session} && t.running == s.running - multiset{e.session}
  }

  lemma ScheduleFlight(s: State, e: Event)
    requires e.Schedule?
    ensures AskedFlight(s, e, Step(s, e))
  {
  }

  lemma TimerFlight(s: State, e: Event)
    requires e.TimerFires?
    ensures AskedFlight(s, e, Step(s, e)) || s.closed
  {
  }

  lemma FinishFlight(s: State, e: Event)
    requires e.Finishes?
    ensures EndedFlight(s, e, Step(s, e))
  {
    var t := AfterEnding(s.(running := s.running - multiset{e.session}), e.session, e.ending, e.now);
    assert t.inFlight == s.inFlight && t.running == s.running - multiset{e.session} && t.closed == s.closed;
    assert t.queued == if e.ending.RoomEmpty? then s.queued - {e.session} else s.queued;
  }

  /** Starting is what it says: the number of broadcasts begun goes up, net of the one that ended. */
  lemma StartsMeansOneMore(s: State, e: Event, session: SessionId)
    requires Valid(s)
    ensures Starts(s, e, session)
            <==> Enabled(s, e) && Step(s, e).running[session] > s.running[session] - EndsOne(e, session)
  {
    hide Step, Enabled;
    match e
    case Schedule(_, _, _) => AskCounts(s, e, session);
    case TimerFires(_, _) => AskCounts(s, e, session);
    case Finishes(_, _, _) => FinishCounts(s, e, session);
    case _ => QuietCounts(s, e, session);
  }

  function EndsOne(e: Event, session: SessionId): nat {
    if e.Finishes? && e.session == session then 1 else 0
  }

  lemma AskCounts(s: State, e: Event, session: SessionId)
    requires Valid(s) && (e.Schedule? || e.TimerFires?)
    ensures Starts(s, e, session) <==> Enabled(s, e) && Step(s, e).running[session] > s.running[session]
  {
    hide Step;
    if e.Schedule? { ScheduleFlight(s, e); } else { TimerFlight(s, e); }
  }

  lemma FinishCounts(s: State, e: Event, session: SessionId)
    requires Valid(s) && e.Finishes?
    ensures Starts(s, e, session)
            <==> Enabled(s, e) && Step(s, e).running[session] > s.running[session] - EndsOne(e, session)
  {
    hide Step;
    FinishFlight(s, e);
  }

  lemma QuietCounts(s: State, e: Event, session: SessionId)
    requires e.Deleted? || e.Close?
    ensures !Starts(s, e, session) && Step(s, e).running[session] == s.running[session]
  {
  }

  /** The session's waiting requests are dropped on purpose: its room was seen empty, deleted, or the service closed. */
  predicate Drops(s: State, e: Event, session: SessionId) {
    && Enabled(s, e)
    && match e
       case Finishes(id, ending, _) => id == session && ending.RoomEmpty?
       case Deleted(id) => id == session
       case Close => true
       case _ => false
  }

  /** A request is waiting: for its timer, or for the running broadcast to end. */
  predicate Waiting(s: State, session: SessionId) {
    session in s.pending || (session in s.queued && session in s.inFlight)
  }

  lemma RequestStartsOrWaits(s: State, e: Event)
    requires Valid(s) && e.Schedule? && !s.closed
    ensures Starts(s, e, e.session) || Waiting(Step(s, e), e.session)
  {
  }

  lemma InconsistencyIsRetried(s: State, e: Event)
    requires Valid(s) && Enabled(s, e) && e.Finishes? && e.ending.Inconsistent? && !s.closed
    ensures Waiting(Step(s, e), e.session)
  {
  }

  lemma PendingStays(s: State, e: Event, session: SessionId)
    requires Valid(s) && session in s.pending && !Starts(s, e, session) && !Drops(s, e, session)
    ensures Waiting(Step(s, e), session)
  {
  }

  lemma WaitingStays(s: State, e: Event, session: SessionId)
    requires Valid(s) && Waiting(s, session) && !Starts(s, e, session) && !Drops(s, e, session)
    ensures Waiting(Step(s, e), session)
  {
    hide Step, Valid, Starts, Drops;
    if session in s.pending {
      PendingStays(s, e, session);
    } else {
      QueuedStays(s, e, session);
    }
  }

  /** The request made at `events[i]` was later started, or dropped on purpose. */
  ghost predicate Answered(s: State, events: seq<Event>, session: SessionId) {
    exists j :: 0 <= j < |events|
      && (Starts(Run(s, events[..j]), events[j], session) || Drops(Run(s, events[..j]), events[j], session))
  }

  lemma AnsweredLater(s: State, events: seq<Event>, session: SessionId)
    requires events != [] && Answered(Step(s, events[0]), events[1..], session)
    ensures Answered(s, events, session)
  {
    hide Starts, Drops, Step;
    var rest := events[1..];
    var j :| 0 <= j < |rest|
      && (Starts(Run(Step(s, events[0]), rest[..j]), rest[j], session)
          || Drops(Run(Step(s, events[0]), rest[..j]), rest[j], session));
    assert events[..j + 1][1..] == rest[..j] && events[..j + 1][0] == events[0];
    assert Run(s, events[..j + 1]) == Run(Step(s, events[0]), rest[..j]);
    assert events[j + 1] == rest[j];
  }

  lemma AnsweredNow(s: State, events: seq<Event>, session: SessionId)
    requires events != [] && (Starts(s, events[0], session) || Drops(s, events[0], session))
    ensures Answered(s, events, session)
  {
    hide Starts, Drops, Step;
    assert events[..0] == [];
    assert Run(s, events[..0]) == s;
  }

  lemma {:induction false} WaitingIsAnswered(s: State, events: seq<Event>, session: SessionId)
    requires Valid(s) && Waiting(s, session)
    ensures Answered(s, events, session) || Waiting(Run(s, events), session)
    decreases |events|
  {
    hide Valid, Waiting, Starts, Drops, Step, Answered;
    if events != [] {
      if Starts(s, events[0], session) || Drops(s, events[0], session) {
        AnsweredNow(s, events, session);
      } else {
        WaitingStays(s, events[0], session);
        StepKeepsValid(s, events[0]);
        WaitingIsAnswered(Step(s, events[0]), events[1..], session);
        if Answered(Step(s, events[0]), events[1..], session) {
          AnsweredLater(s, events, session);
        }
      }
    }
  }

  /**
   * Whatever happened before and happens after, a request to an open service is followed by a
   * broadcast that starts with it or later, or by the room being seen empty, deleted, or the service
   * closing, or it is still waiting.
   */
  lemma NoBroadcastIsLost(before: seq<Event>, request: Event, after: seq<Event>)
    requires request.Schedule? && !Run(Idle, before).closed
    ensures var s := Run(Idle, before);
            Answered(s, [request] + after, request.session) || Waiting(Run(s, [request] + after), request.session)
  {
    hide Valid, Waiting, Starts, Drops, Step, Answered;
    var s, events := Run(Idle, before), [request] + after;
    assert events[0] == request && events[1..] == after;
    assert Valid(Idle) by { IdleIsValid(); }
    RunKeepsValid(Idle, before);
    if Starts(s, request, request.session) {
      AnsweredNow(s, events, request.session);
    } else {
      RequestStartsOrWaits(s, request);
      StepKeepsValid(s, request);
      WaitingIsAnswered(Step(s, request), after, request.session);
      if Answered(Step(s, request), after, request.session) {
        AnsweredLater(s, events, request.session);
      }
    }
  }

  /** A broadcast that could not get a consistent projection is followed by another, on the same terms. */
  lemma InconsistentBroadcastIsRepeated(before: seq<Event>, e: Event, after: seq<Event>)
    requires e.Finishes? && e.ending.Inconsistent? && Enabled(Run(Idle, before), e) && !Run(Idle, before).closed
    ensures var s := Step(Run(Idle, before), e);
            Answered(s, after, e.session) || Waiting(Run(s, after), e.session)
  {
    hide Valid, Waiting, Starts, Drops, Step, Answered, Enabled;
    var s := Run(Idle, before);
    IdleIsValid();
    RunKeepsValid(Idle, before);
    InconsistencyIsRetried(s, e);
    StepKeepsValid(s, e);
    WaitingIsAnswered(Step(s, e), after, e.session);
  }

  lemma IdleIsValid()
    ensures Valid(Idle)
  {
  }

  /** Word was left for the running broadcast. */
  predicate Queued(s: State, session: SessionId) {
    session in s.queued && session in s.inFlight
  }

  lemma QueuedStays(s: State, e: Event, session: SessionId)
    requires Valid(s) && Queued(s, session) && !Starts(s, e, session) && !Drops(s, e, session)
    ensures Queued(Step(s, e), session)
  {
    hide Step;
    match e
    case Schedule(_, _, _) => ScheduleFlight(s, e);
    case TimerFires(_, _) => TimerFlight(s, e);
    case Finishes(_, _, _) => FinishFlight(s, e);
    case _ => QuietQueue(s, e, session);
  }

  lemma QuietQueue(s: State, e: Event, session: SessionId)
    requires (e.Deleted? || e.Close?) && Queued(s, session) && !Drops(s, e, session)
    ensures Queued(Step(s, e), session)
  {
  }

  lemma QueuedFinishAnswers(s: State, e: Event, session: SessionId)
    requires Valid(s) && Queued(s, session) && Enabled(s, e) && e.Finishes? && e.session == session
    ensures Starts(s, e, session) || Drops(s, e, session)
  {
  }

  lemma {:induction false} QueuedIsAnswered(s: State, events: seq<Event>, session: SessionId)
    requires Valid(s) && Queued(s, session)
    ensures Answered(s, events, session) || Queued(Run(s, events), session)
    decreases |events|
  {
    hide Valid, Queued, Starts, Drops, Step, Answered;
    if events != [] {
      if Starts(s, events[0], session) || Drops(s, events[0], session) {
        AnsweredNow(s, events, session);
      } else {
        QueuedStays(s, events[0], session);
        StepKeepsValid(s, events[0]);
        QueuedIsAnswered(Step(s, events[0]), events[1..], session);
        if Answered(Step(s, events[0]), events[1..], session) {
          AnsweredLater(s, events, session);
        }
      }
    }
  }

  lemma {:induction false} RunConcat(s: State, before: seq<Event>, after: seq<Event>)
    ensures Run(s, before + after) == Run(Run(s, before), after)
    decreases |before|
  {
    hide Step;
    if before == [] {
      assert before + after == after;
    } else {
      assert (before + after)[0] == before[0] && (before + after)[1..] == before[1..] + after;
      RunConcat(Step(s, before[0]), before[1..], after);
    }
  }

  lemma AnsweredEarlier(s: State, before: seq<Event>, after: seq<Event>, session: SessionId)
    requires Answered(s, before, session)
    ensures Answered(s, before + after, session)
  {
    hide Starts, Drops, Step, Run;
    var j :| 0 <= j < |before|
      && (Starts(Run(s, before[..j]), before[j], session) || Drops(Run(s, before[..j]), before[j], session));
    assert (before + after)[..j] == before[..j] && (before + after)[j] == before[j];
  }

  lemma AnsweredAfter(s: State, before: seq<Event>, after: seq<Event>, session: SessionId)
    requires Answered(Run(s, before), after, session)
    ensures Answered(s, before + after, session)
  {
    hide Starts, Drops, Step, Run;
    var t := Run(s, before);
    var j :| 0 <= j < |after|
      && (Starts(Run(t, after[..j]), after[j], session) || Drops(Run(t, after[..j]), after[j], session));
    RunConcat(s, before, after[..j]);
    assert (before + after)[..|before| + j] == before + after[..j] && (before + after)[|before| + j] == after[j];
  }

  /** Word that was left is answered, whatever happens meanwhile, when the session's next broadcast ends. */
  lemma QueuedIsAnsweredByTheNextFinish(s: State, between: seq<Event>, finish: Event, session: SessionId)
    requires Valid(s) && Queued(s, session)
    requires finish.Finishes? && finish.session == session && Enabled(Run(s, between), finish)
    ensures Answered(s, between + [finish], session)
  {
    hide Valid, Queued, Starts, Drops, Step, Answered, Enabled, Run;
    QueuedIsAnswered(s, between, session);
    if Answered(s, between, session) {
      AnsweredEarlier(s, between, [finish], session);
    } else {
      RunKeepsValid(s, between);
      QueuedFinishAnswers(Run(s, between), finish, session);
      AnsweredNow(Run(s, between), [finish], session);
      AnsweredAfter(s, between, [finish], session);
    }
  }

  lemma TimerStartsOrQueues(s: State, e: Event, session: SessionId)
    requires Valid(s) && Enabled(s, e) && e.TimerFires? && e.session == session
    ensures Starts(s, e, session) || Queued(Step(s, e), session)
  {
  }

  /**
   * A request that waits for its timer is answered when the timer fires, or else, whatever happens
   * meanwhile, when the broadcast then running ends.
   */
  lemma PendingIsAnsweredByTimerAndFinish(
    s: State, before: seq<Event>, timer: Event, between: seq<Event>, finish: Event, session: SessionId)
    requires Valid(s)
    requires timer.TimerFires? && timer.session == session && Enabled(Run(s, before), timer)
    requires finish.Finishes? && finish.session == session && Enabled(Run(Step(Run(s, before), timer), between), finish)
    ensures Answered(Run(s, before), [timer], session)
            || Answered(s, before + ([timer] + (between + [finish])), session)
  {
    hide Valid, Queued, Starts, Drops, Step, Answered, Enabled, Run;
    var t := Run(s, before);
    RunKeepsValid(s, before);
    StepKeepsValid(t, timer);
    TimerStartsOrQueues(t, timer, session);
    if Starts(t, timer, session) {
      AnsweredNow(t, [timer], session);
    } else {
      QueuedIsAnsweredByTheNextFinish(Step(t, timer), between, finish, session);
      var rest := [timer] + (between + [finish]);
      assert rest[0] == timer && rest[1..] == between + [finish];
      AnsweredLater(t, rest, session);
      AnsweredAfter(s, before, rest, session);
    }
  }

  /** With no other event in between, the due timer and the end of the running broadcast lead to a start. */
  lemma WaitingIsTwoEventsFromAStart(s: State, session: SessionId, now: int)
    requires Valid(s) && Waiting(s, session) && (session in s.pending ==> s.pending[session] <= now)
    ensures var fire, end := TimerFires(session, now), Finishes(session, Sent, now);
            if session !in s.inFlight then Starts(s, fire, session)
            else if session in s.queued then Starts(s, end, session)
            else Starts(Step(s, fire), end, session)
  {
  }

  /** A second immediate request made while a broadcast runs changes nothing but its time. */
  lemma RequestsCoalesce(s: State, session: SessionId, first: int, second: int)
    requires !s.closed && session in s.inFlight
    ensures Scheduled(Scheduled(s, session, true, first), session, true, second)
            == Scheduled(s, session, true, second)
    ensures session in Scheduled(s, session, true, second).queued
    ensures Scheduled(s, session, true, second).running == s.running
  {
  }

  predicate RequestsFor(events: seq<Event>, session: SessionId) {
    forall i | 0 <= i < |events| :: events[i].Schedule? && events[i].session == session
  }

  lemma OneRequestInFlight(s: State, e: Event, session: SessionId)
    requires session in s.inFlight && e.Schedule? && e.session == session
    ensures var t := Step(s, e);
            && t.running == s.running && t.inFlight == s.inFlight && t.closed == s.closed
            && (t.queued == s.queued || t.queued == s.queued + {session})
            && t.pending - {session} == s.pending - {session}
  {
  }

  /**
   * However many requests of any kind arrive while a broadcast runs, they start nothing, leave word
   * once and keep one timer, so they cost at most one broadcast of each.
   */
  lemma {:induction false} AnyRequestsCoalesce(s: State, events: seq<Event>, session: SessionId)
    requires session in s.inFlight && RequestsFor(events, session)
    ensures var t := Run(s, events);
            && t.running == s.running && t.inFlight == s.inFlight
            && (t.queued == s.queued || t.queued == s.queued + {session})
            && t.pending - {session} == s.pending - {session}
    decreases |events|
  {
    hide Step;
    if events != [] {
      assert events[0].session == session;
      OneRequestInFlight(s, events[0], session);
      AnyRequestsCoalesce(Step(s, events[0]), events[1..], session);
    }
  }

  // ---------------------------------------------------------------- the interval between broadcasts
  //
  // Immediate requests, and restarts by the drain loop, are not spaced by design; timers and ordinary
  // requests are meant to keep the interval. They do, exactly as long as no due request finds a timer
  // that is about to fire, because such a request leaves the timer alone.

  /** No timer can fire within the interval after the last recorded broadcast. */
  ghost predicate TimersKeepInterval(s: State, session: SessionId) {
    forall now :: Enabled(s, TimerFires(session, now)) ==> now - LastBroadcast(s, session) >= MIN_INTERVAL_MS
  }

  predicate Spaced(s: State, session: SessionId) {
    session in s.pending ==> s.pending[session] >= LastBroadcast(s, session) + MIN_INTERVAL_MS
  }

  lemma SpacedMeansTimersKeepInterval(s: State, session: SessionId)
    ensures Spaced(s, session) <==> TimersKeepInterval(s, session)
  {
    if session in s.pending {
      assert Enabled(s, TimerFires(session, s.pending[session]));
    }
  }

  /** An ordinary request that is due, while the session's timer will fire within the interval. */
  predicate Crowds(s: State, e: Event, session: SessionId) {
    && e.Schedule? && e.session == session && !e.immediate && e.now - LastBroadcast(s, session) >= MIN_INTERVAL_MS
    && session in s.pending && s.pending[session] < e.now + MIN_INTERVAL_MS
  }

  // ---------------------------------------------------------------- what a step does to the times

  /** The last broadcasts after a step. */
  function LastAfter(s: State, e: Event): map<SessionId, int> {
    if !Enabled(s, e) then s.last
    else match e
      case Schedule(id, immediate, now) =>
        if !s.closed && (immediate || now - LastBroadcast(s, id) >= MIN_INTERVAL_MS) then s.last[id := now] else s.last
      case TimerFires(id, now) => s.last[id := now]
      case Finishes(id, ending, _) => if ending.RoomEmpty? then s.last - {id} else s.last
      case Deleted(id) => s.last - {id}
      case Close => map[]
  }

  /** The timers after a step. */
  function PendingAfter(s: State, e: Event): map<SessionId, int> {
    if !Enabled(s, e) then s.pending
    else match e
      case Schedule(id, immediate, now) =>
        if s.closed then s.pending
        else if immediate then s.pending - {id}
        else if now - LastBroadcast(s, id) >= MIN_INTERVAL_MS || id in s.pending then s.pending
        else s.pending[id := LastBroadcast(s, id) + MIN_INTERVAL_MS]
      case TimerFires(id, _) => s.pending - {id}
      case Finishes(id, ending, now) =>
        if ending.RoomEmpty? then s.pending - {id}
        else if ending.Inconsistent? && !s.closed && id !in s.pending then s.pending[id := now + MIN_INTERVAL_MS]
        else s.pending
      case Deleted(id) => s.pending - {id}
      case Close => map[]
  }

  lemma ScheduleTimes(s: State, session: SessionId, immediate: bool, now: int)
    ensures var e, t := Schedule(session, immediate, now), Scheduled(s, session, immediate, now);
            t.last == LastAfter(s, e) && t.pending == PendingAfter(s, e)
  {
    hide Broadcast;
    TimesStay(Noted(if immediate then s.(pending := s.pending - {session}) else s, session, now), session);
  }

  lemma TimerTimes(s: State, session: SessionId, now: int)
    requires Enabled(s, TimerFires(session, now))
    ensures var e, t := TimerFires(session, now), TimerFired(s, session, now);
            t.last == LastAfter(s, e) && t.pending == PendingAfter(s, e)
  {
    hide Broadcast;
    TimesStay(Noted(s.(pending := s.pending - {session}), session, now), session);
  }

  lemma FinishTimes(s: State, session: SessionId, ending: Ending, now: int)
    requires Enabled(s, Finishes(session, ending, now))
    ensures var e, t := Finishes(session, ending, now), Finished(s, session, ending, now);
            t.last == LastAfter(s, e) && t.pending == PendingAfter(s, e)
  {
    hide Drained;
    TimesStay(AfterEnding(s.(running := s.running - multiset{session}), session, ending, now), session);
  }

  lemma StepTimes(s: State, e: Event)
    ensures Step(s, e).last == LastAfter(s, e) && Step(s, e).pending == PendingAfter(s, e)
  {
    hide Scheduled, TimerFired, Finished;
    if Enabled(s, e) {
      match e
      case Schedule(session, immediate, now) => ScheduleTimes(s, session, immediate, now);
      case TimerFires(session, now) => TimerTimes(s, session, now);
      case Finishes(session, ending, now) => FinishTimes(s, session, ending, now);
      case _ =>
    }
  }

  // ---------------------------------------------------------------- clocks

  /** When an event happens; deletions and the end of the service carry no time of their own. */
  function TimeOf(e: Event, earlier: int): int {
    if e.Schedule? || e.TimerFires? || e.Finishes? then e.now else earlier
  }

  predicate InClockOrder(events: seq<Event>, from: int)
    decreases |events|
  {
    events == [] || (TimeOf(events[0], from) >= from && InClockOrder(events[1..], TimeOf(events[0], from)))
  }

  function EndTime(events: seq<Event>, from: int): int
    decreases |events|
  {
    if events == [] then from else EndTime(events[1..], TimeOf(events[0], from))
  }

  /** No recorded broadcast lies in the future. */
  predicate NotAhead(s: State, now: int) {
    0 <= now && forall session | session in s.last :: s.last[session] <= now
  }

  lemma AtMostNow(s: State, session: SessionId, now: int)
    requires NotAhead(s, now)
    ensures LastBroadcast(s, session) <= now
  {
  }

  lemma StepKeepsClock(s: State, e: Event, now: int)
    requires NotAhead(s, now) && TimeOf(e, now) >= now
    ensures NotAhead(Step(s, e), TimeOf(e, now))
  {
    hide Step;
    StepTimes(s, e);
  }

  // ---------------------------------------------------------------- when the interval is kept

  /** A step keeps the spacing exactly when it is not a crowding request. */
  lemma StepKeepsSpacingExactly(s: State, e: Event, session: SessionId, now: int)
    requires Valid(s) && Spaced(s, session) && NotAhead(s, now) && TimeOf(e, now) >= now
    ensures Spaced(Step(s, e), session) <==> !Crowds(s, e, session)
  {
    hide Step, NotAhead;
    AtMostNow(s, session, now);
    StepTimes(s, e);
  }

  predicate NeverCrowded(s: State, events: seq<Event>, session: SessionId)
    decreases |events|
  {
    events == [] || (!Crowds(s, events[0], session) && NeverCrowded(Step(s, events[0]), events[1..], session))
  }

  /** The timers keep the interval now and after every one of the events. */
  ghost predicate AlwaysKeepInterval(s: State, events: seq<Event>, session: SessionId)
    decreases |events|
  {
    && TimersKeepInterval(s, session)
    && (events == [] || AlwaysKeepInterval(Step(s, events[0]), events[1..], session))
  }

  lemma {:induction false} SpacingAlongRuns(s: State, events: seq<Event>, session: SessionId, now: int)
    requires Valid(s) && Spaced(s, session) && NotAhead(s, now) && InClockOrder(events, now)
    ensures AlwaysKeepInterval(s, events, session) <==> NeverCrowded(s, events, session)
    ensures NotAhead(Run(s, events), EndTime(events, now)) && Valid(Run(s, events))
    ensures NeverCrowded(s, events, session) ==> Spaced(Run(s, events), session)
    decreases |events|
  {
    hide Valid, Spaced, NotAhead, Crowds, Step, TimersKeepInterval, TimeOf;
    SpacedMeansTimersKeepInterval(s, session);
    if events != [] {
      var t, later := Step(s, events[0]), TimeOf(events[0], now);
      StepKeepsSpacingExactly(s, events[0], session, now);
      StepKeepsClock(s, events[0], now);
      StepKeepsValid(s, events[0]);
      if Crowds(s, events[0], session) {
        SpacedMeansTimersKeepInterval(t, session);
        RunKeepsClock(t, events[1..], later);
      } else {
        SpacingAlongRuns(t, events[1..], session, later);
      }
    }
  }

  lemma {:induction false} RunKeepsClock(s: State, events: seq<Event>, now: int)
    requires Valid(s) && NotAhead(s, now) && InClockOrder(events, now)
    ensures NotAhead(Run(s, events), EndTime(events, now)) && Valid(Run(s, events))
    decreases |events|
  {
    hide Valid, NotAhead, Step, TimeOf;
    if events != [] {
      StepKeepsClock(s, events[0], now);
      StepKeepsValid(s, events[0]);
      RunKeepsClock(Step(s, events[0]), events[1..], TimeOf(events[0], now));
    }
  }

  /**
   * Over every run of a clock that does not go back, the session's timers always fire at least the
   * interval after the last recorded broadcast if and only if no due request ever crowds a timer.
   */
  lemma IntervalHoldsExactlyWithoutCrowding(events: seq<Event>, session: SessionId)
    requires InClockOrder(events, 0)
    ensures AlwaysKeepInterval(Idle, events, session) <==> NeverCrowded(Idle, events, session)
  {
    IdleIsValid();
    SpacingAlongRuns(Idle, events, session, 0);
  }

  // ---------------------------------------------------------------- how far apart broadcasts start

  /** A broadcast begun by a request or a timer, not by the drain loop. */
  predicate FreshStart(s: State, e: Event, session: SessionId) {
    Starts(s, e, session) && !e.Finishes?
  }

  predicate NeverDropped(s: State, events: seq<Event>, session: SessionId)
    decreases |events|
  {
    events == [] || (!Drops(s, events[0], session) && NeverDropped(Step(s, events[0]), events[1..], session))
  }

  lemma StepKeepsLast(s: State, e: Event, session: SessionId, now: int)
    requires NotAhead(s, now) && TimeOf(e, now) >= now && session in s.last && !Drops(s, e, session)
    ensures session in Step(s, e).last && Step(s, e).last[session] >= s.last[session]
  {
    hide Step;
    StepTimes(s, e);
  }

  lemma {:induction false} LastNeverGoesBack(s: State, events: seq<Event>, session: SessionId, now: int)
    requires NotAhead(s, now) && InClockOrder(events, now) && session in s.last && NeverDropped(s, events, session)
    ensures session in Run(s, events).last && Run(s, events).last[session] >= s.last[session]
    decreases |events|
  {
    hide NotAhead, Step, TimeOf, Drops;
    if events != [] {
      StepKeepsLast(s, events[0], session, now);
      StepKeepsClock(s, events[0], now);
      LastNeverGoesBack(Step(s, events[0]), events[1..], session, TimeOf(events[0], now));
    }
  }

  lemma FreshStartIsRecorded(s: State, e: Event, session: SessionId)
    requires FreshStart(s, e, session)
    ensures session in Step(s, e).last && Step(s, e).last[session] == e.now
  {
  }

  lemma SpacedStart(s: State, e: Event, session: SessionId)
    requires Spaced(s, session) && FreshStart(s, e, session) && (e.Schedule? ==> !e.immediate)
    ensures e.now - LastBroadcast(s, session) >= MIN_INTERVAL_MS
  {
  }

  /**
   * Without crowding, a broadcast that a timer or an ordinary request starts begins at least the
   * interval after any earlier one begun by a request or a timer, unless the room was cleared between.
   */
  lemma FreshStartsAreApart(before: seq<Event>, first: Event, between: seq<Event>, second: Event, session: SessionId)
    requires InClockOrder(before, 0) && NeverCrowded(Idle, before, session)
    requires var s := Run(Idle, before);
             && FreshStart(s, first, session) && first.now >= EndTime(before, 0) && !Crowds(s, first, session)
             && InClockOrder(between, first.now)
             && NeverCrowded(Step(s, first), between, session) && NeverDropped(Step(s, first), between, session)
             && FreshStart(Run(Step(s, first), between), second, session) && (second.Schedule? ==> !second.immediate)
    ensures second.now - first.now >= MIN_INTERVAL_MS
  {
    hide Valid, Spaced, NotAhead, Crowds, Step, Run, FreshStart, NeverDropped, NeverCrowded, Drops;
    var s := Run(Idle, before);
    IdleIsValid();
    IdleIsSpaced(session);
    SpacingAlongRuns(Idle, before, session, 0);
    assert TimeOf(first, EndTime(before, 0)) == first.now by { FreshHasTime(s, first, session); }
    StepKeepsSpacingExactly(s, first, session, EndTime(before, 0));
    StepKeepsClock(s, first, EndTime(before, 0));
    StepKeepsValid(s, first);
    FreshStartIsRecorded(s, first, session);
    SpacingAlongRuns(Step(s, first), between, session, first.now);
    LastNeverGoesBack(Step(s, first), between, session, first.now);
    SpacedStart(Run(Step(s, first), between), second, session);
  }

  lemma IdleIsSpaced(session: SessionId)
    ensures Spaced(Idle, session) && NotAhead(Idle, 0)
  {
  }

  lemma FreshHasTime(s: State, e: Event, session: SessionId)
    requires FreshStart(s, e, session)
    ensures e.Schedule? || e.TimerFires?
  {
  }

  /** The excluded case is real: a due request leaves a timer alone, and two broadcasts start 10 ms apart. */
  lemma SpacingIsNotGuaranteed()
    ensures var busy := Run(Idle, [Schedule(1, false, 1000), Finishes(1, Sent, 1001), Schedule(1, false, 1100)]);
            var s := Step(busy, Schedule(1, false, 1260));
            && Crowds(busy, Schedule(1, false, 1260), 1) && Starts(busy, Schedule(1, false, 1260), 1)
            && Starts(Step(s, Finishes(1, Sent, 1265)), TimerFires(1, 1270), 1)
  {
    var s1 := Step(Idle, Schedule(1, false, 1000));
    var s2 := Step(s1, Finishes(1, Sent, 1001));
    var s3 := Step(s2, Schedule(1, false, 1100));
    var events := [Schedule(1, false, 1000), Finishes(1, Sent, 1001), Schedule(1, false, 1100)];
    assert events[1..] == [Finishes(1, Sent, 1001), Schedule(1, false, 1100)];
    assert events[1..][1..] == [Schedule(1, false, 1100)];
    assert Run(s2, [Schedule(1, false, 1100)]) == Run(s3, []);
    assert Run(Idle, events) == s3;
  }
}
