/**
 * Where an acknowledgement and the full snapshot part: a participant answers two questions, and the
 * first answer is then acknowledged again.
 */
module AcknowledgementExample {
  import opened Common
  import opened SessionModel
  import opened ResponsePolicy
  import opened SessionStore
  import opened LiveProtocol
  import opened LiveInvariants
  import opened LiveTheorems
  import opened Projections
  import opened ReachableRooms

  // ---------------------------------------------------------------- requests that run undisturbed

  lemma {:induction false} RunConcat(p: Protocol, early: seq<Move>, late: seq<Move>)
    ensures Run(p, early + late) == Run(Run(p, early), late)
    decreases |early|
  {
    hide Next;
    if early == [] {
      assert early + late == late;
    } else {
      assert (early + late)[0] == early[0] && (early + late)[1..] == early[1..] + late;
      RunConcat(Next(p, early[0]), early[1..], late);
    }
  }

  lemma OneMove(p: Protocol, move: Move)
    ensures Run(p, [move]) == Next(p, move)
  {
    hide Next;
    assert [move][1..] == [];
  }

  lemma NextIsReachable(p: Protocol, content: Content, move: Move)
    requires Reachable(p, content)
    ensures Reachable(Next(p, move), content)
  {
    hide ContentOk, Run, Next;
    var cardsEnabled: bool, flex: bool, liveExpiresAt: int, moves: seq<Move> :|
      p == Run(Opening(NewSession(content, cardsEnabled, flex, liveExpiresAt)), moves);
    OneMove(p, move);
    RunConcat(Opening(NewSession(content, cardsEnabled, flex, liveExpiresAt)), moves, [move]);
  }

  /** A press of "next" that nothing interrupts commits its transition. */
  lemma PressAlone(p: Protocol, content: Content, t: Transition, env: Env) returns (q: Protocol)
    requires Reachable(p, content) && NextTransition(p.room.session) == Success(Some(t))
    requires env.now < p.room.session.liveExpiresAt && AttributionOk(p.room.session, t)
    ensures Reachable(q, content) && q.room == Moved(p.room, t, env.now)
  {
    hide Reachable, NextTransition, Commit, SubmitTick, CommandTick;
    var i, rev := |p.tasks|, p.room.session.revision;
    var p1 := Next(p, NewAdvance(rev));
    NextIsReachable(p, content, NewAdvance(rev));
    assert p1.tasks[i] == AdvanceTask(rev, AdvanceArrived) && p1.room == p.room;
    var p2 := Next(p1, Tick(i, env));
    NextIsReachable(p1, content, Tick(i, env));
    assert p2.tasks[i] == AdvanceTask(rev, AdvanceReady(p.room.session, t)) && p2.room == p.room;
    q := Next(p2, Tick(i, env));
    NextIsReachable(p2, content, Tick(i, env));
  }

  function TouchedRoom(room: Room, sub: Submission, now: int): Room {
    room.(participants := Touch(room.participants, sub.participantId, now))
  }

  /** A valid, fresh answer to an open question that nothing interrupts is stored. */
  lemma AnswerAlone(p: Protocol, content: Content, sub: Submission, question: Question, env: Env) returns (q: Protocol)
    requires Reachable(p, content) && Joined(p.room.participants, sub.participantId)
    requires sub.receivedAt < p.room.session.liveExpiresAt
    requires FindByKey(p.room.responses, sub.participantId, sub.key).None?
    requires var block := FindBlock(p.room.session.content.blocks, sub.blockId);
             block.Some? && block.value.QuestionBlock? && block.value.question == question
    requires Validate(question, sub.answer).None?
    requires AcceptResponse(TouchedRoom(p.room, sub, env.now), RecordOf(sub, question, p.room.session, env.freshId),
                            sub.expectedRevision).1.Accepted?
    ensures Reachable(q, content)
    ensures var touched := TouchedRoom(p.room, sub, env.now);
            var r := RecordOf(sub, question, p.room.session, env.freshId);
            q.room == touched.(eventSeq := touched.eventSeq + 1, responses := touched.responses + [r])
  {
    hide Reachable, RecordOf, Validate, AdvanceTick, CommandTick, FindByKey, FindByBlock, FindBlock, Joined;
    hide WindowOpen, Touch;
    var i, s, touched := |p.tasks|, p.room.session, TouchedRoom(p.room, sub, env.now);
    var r := RecordOf(sub, question, s, env.freshId);
    var p1 := Next(p, NewSubmission(sub));
    NextIsReachable(p, content, NewSubmission(sub));
    assert p1.tasks[i] == SubmitTask(sub, s.revision, SubmitArrived) && p1.room == p.room;
    var p2 := Next(p1, Tick(i, env));
    NextIsReachable(p1, content, Tick(i, env));
    assert p2.tasks[i] == SubmitTask(sub, s.revision, SubmitLoaded(s, None)) && p2.room == touched;
    var p3 := Next(p2, Tick(i, env));
    NextIsReachable(p2, content, Tick(i, env));
    assert p3.tasks[i] == SubmitTask(sub, s.revision, SubmitReady(s, r)) && p3.room == touched;
    q := Next(p3, Tick(i, env));
    NextIsReachable(p3, content, Tick(i, env));
  }

  // ---------------------------------------------------------------- two questions, two answers

  function Quiz(id: Uuid): Question {
    Question(Authored(id), TrueFalse, Main, Diagnostic, Off, None, 10, 100,
             [Choice(Authored(id + 1), true), Choice(Authored(id + 2), false)], 0.0, 0.0, 0, 0, false, false)
  }

  const TwoQuestions := Content(
    [QuestionBlock(Authored(1), Quiz(10), None), QuestionBlock(Authored(2), Quiz(20), None)], [], None, [])
  const Guest := Participant(1, "guest", 0, 0, 0)
  const First := Submission(1, Authored(1), 1, 7, Answer(Some([Authored(11)]), None, None, None), 1500)
  const Second := Submission(1, Authored(2), 3, 8, Answer(Some([Authored(21)]), None, None, None), 3500)

  function At(now: nat): Env {
    Env(Library(false, false, false, None, None, true), now, true, now)
  }

  lemma TwoQuestionsOk()
    ensures ContentOk(TwoQuestions)
  {
    var blocks := TwoQuestions.blocks;
    assert blocks[1..] == [blocks[1]] && blocks[1..][1..] == [];
    assert ChoiceIds(blocks[1..]) == [Authored(21), Authored(22)];
    assert ChoiceIds(blocks) == [Authored(11), Authored(12), Authored(21), Authored(22)];
    assert blocks[0].question.delivery.Main?;
    assert LinksForward(blocks) && RechecksOwned(blocks) by { NoLinks(); }
  }

  lemma NoLinks()
    ensures LinksForward(TwoQuestions.blocks) && RechecksOwned(TwoQuestions.blocks)
  {
  }

  const Lobby := NewSession(TwoQuestions, false, false, 100000)
  const Opened1 := Commit(Lobby, ToBlock(TwoQuestions.blocks, 0), 1000)
  const Reveal :=
    Transition(None, QuestionReveal, 0, Active, None, Event(QuestionRevealed, Some(0), Some(Authored(1)), None), false)
  const Revealed1 := Commit(Opened1, Reveal, 2000)
  const Opened2 := Commit(Revealed1, ToBlock(TwoQuestions.blocks, 1), 3000)
  const Answer1 := RecordOf(First, Quiz(10), Opened1, 1500)
  const Answer2 := RecordOf(Second, Quiz(20), Opened2, 3500)

  lemma Steps()
    ensures NextTransition(Lobby) == Success(Some(ToBlock(TwoQuestions.blocks, 0)))
    ensures NextTransition(Opened1) == Success(Some(Reveal))
    ensures NextTransition(Revealed1) == Success(Some(ToBlock(TwoQuestions.blocks, 1)))
  {
  }

  lemma Sound(sub: Submission, id: Uuid, block: nat)
    requires block < 2 && id == (if block == 0 then 10 else 20)
    requires sub.answer == Answer(Some([Authored(id + 1)]), None, None, None) && sub.blockId == Authored(block + 1)
    ensures Validate(Quiz(id), sub.answer).None?
    ensures FindBlock(TwoQuestions.blocks, sub.blockId) == Some(TwoQuestions.blocks[block])
    ensures TwoQuestions.blocks[block] == QuestionBlock(Authored(block + 1), Quiz(id), None)
  {
    assert Quiz(id).choices[0].id == Authored(id + 1) && Authored(id + 1) in ChoiceSet(Quiz(id).choices);
    assert TwoQuestions.blocks[1..][0] == TwoQuestions.blocks[1];
  }

  lemma FirstAccepted(room: Room)
    requires room.session == Opened1 && room.responses == [] && Joined(room.participants, 1)
    ensures AcceptResponse(room, Answer1, 1).1.Accepted?
  {
  }

  lemma SecondAccepted(room: Room)
    requires room.session == Opened2 && room.responses == [Answer1] && Joined(room.participants, 1)
    ensures AcceptResponse(room, Answer2, 3).1.Accepted? && FindByKey(room.responses, 1, 8).None?
  {
    assert [Answer1][1..] == [];
  }

  lemma JoinedStays(participants: seq<Participant>, id: Uuid, now: int)
    requires Joined(participants, id)
    ensures Joined(Touch(participants, id, now), id)
  {
    var i :| 0 <= i < |participants| && participants[i].id == id;
    assert Touch(participants, id, now)[i].id == id;
  }

  lemma LobbyWithGuest() returns (p: Protocol)
    ensures Reachable(p, TwoQuestions)
    ensures p.room.session == Lobby && p.room.responses == [] && Joined(p.room.participants, 1)
  {
    hide ContentOk;
    TwoQuestionsOk();
    assert Run(Opening(Lobby), []) == Opening(Lobby);
    assert Reachable(Opening(Lobby), TwoQuestions);
    p := Next(Opening(Lobby), Join(Guest, 10));
    NextIsReachable(Opening(Lobby), TwoQuestions, Join(Guest, 10));
    assert p.room.participants[0].id == 1;
  }

  lemma FirstQuestionAnswered() returns (p: Protocol)
    ensures Reachable(p, TwoQuestions)
    ensures p.room.session == Opened1 && p.room.responses == [Answer1] && Joined(p.room.participants, 1)
  {
    hide Reachable, Touch, Joined, RecordOf, AcceptResponse, Validate, FindBlock;
    var lobby := LobbyWithGuest();
    Steps();
    var open := PressAlone(lobby, TwoQuestions, ToBlock(TwoQuestions.blocks, 0), At(1000));
    JoinedStays(open.room.participants, 1, 1500);
    Sound(First, 10, 0);
    FirstAccepted(TouchedRoom(open.room, First, 1500));
    p := AnswerAlone(open, TwoQuestions, First, Quiz(10), At(1500));
    assert [] + [Answer1] == [Answer1];
  }

  lemma BothQuestionsAnswered() returns (p: Protocol)
    ensures Reachable(p, TwoQuestions) && p.room.responses == [Answer1, Answer2]
  {
    hide Reachable, Touch, Joined, RecordOf, AcceptResponse, Validate, FindBlock;
    var first := FirstQuestionAnswered();
    Steps();
    var shown := PressAlone(first, TwoQuestions, Reveal, At(2000));
    var open := PressAlone(shown, TwoQuestions, ToBlock(TwoQuestions.blocks, 1), At(3000));
    JoinedStays(open.room.participants, 1, 3500);
    Sound(Second, 20, 1);
    SecondAccepted(open.room);
    SecondAccepted(TouchedRoom(open.room, Second, 3500));
    p := AnswerAlone(open, TwoQuestions, Second, Quiz(20), At(3500));
    assert [Answer1] + [Answer2] == [Answer1, Answer2];
  }

  lemma SecondIsLatest()
    ensures LatestFor([Answer1, Answer2], 1) == Some(Answer2) && Answer1 != Answer2 && Answer1.key.Some?
            && Answer1.participantId == 1
  {
    assert [Answer1, Answer2][1..] == [Answer2] && [Answer2][1..] == [];
    assert LatestFor([Answer2], 1) == Some(Answer2);
  }

  /** A reachable room and a stored answer whose acknowledgement is not what the full snapshot shows. */
  lemma AcknowledgementAndSnapshotCanDiffer(now: int)
    ensures exists p: Protocol, r: Response ::
              && Reachable(p, TwoQuestions) && r in p.room.responses && r.key.Some?
              && forall data: ProjectionData |
                   DataOk(data, p.room.session, ListParticipants(p.room), ListResponses(p.room)) ::
                   var s := p.room.session;
                   var small := SmallProjectionOf(p.room, r.participantId, CurrentBlockId(s), !s.phase.QuestionOpen?);
                   && small.Some?
                   && AcknowledgedView(s, p.room.eventSeq, now, r.participantId, small.value, r, r.key.value)
                      != ParticipantView(s, p.room.eventSeq, now, r.participantId, data)
  {
    hide Reachable, DataOk, AcknowledgedView, ParticipantView, SmallProjectionOf, RecordOf, LatestFor;
    var p := BothQuestionsAnswered();
    var r := Answer1;
    SecondIsLatest();
    forall data: ProjectionData | DataOk(data, p.room.session, ListParticipants(p.room), ListResponses(p.room))
      ensures var s := p.room.session;
              var small := SmallProjectionOf(p.room, r.participantId, CurrentBlockId(s), !s.phase.QuestionOpen?);
              && small.Some?
              && AcknowledgedView(s, p.room.eventSeq, now, r.participantId, small.value, r, r.key.value)
                 != ParticipantView(s, p.room.eventSeq, now, r.participantId, data)
    {
      ReachableAcknowledgements(p, TwoQuestions, now, r, data);
    }
    assert r in p.room.responses;
  }
}
