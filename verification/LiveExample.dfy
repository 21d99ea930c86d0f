/**
 * Why timing needs the client to have seen the revision it names: a submission that guesses the
 * revision a question is about to open at is scored from the moment before it opened.
 */
module LiveExample {
  import opened Common
  import opened SessionModel
  import opened ResponsePolicy
  import opened SessionStore
  import opened LiveProtocol
  import opened LiveInvariants
  import opened LiveTheorems

  const Q := Question(
    Authored(2), TrueFalse, Main, Diagnostic, Off, None, 10, 100,
    [Choice(Authored(3), true), Choice(Authored(4), false)],
    0.0, 0.0, 0, 0, false, false)
  const OneQuestion := Content([QuestionBlock(Authored(1), Q, None)], [], None, [])
  const Guest := Participant(1, "guest", 0, 0, 0)
  const Guess := Submission(1, Authored(1), 1, 9, Answer(Some([Authored(3)]), None, None, None), 1000)
  const Outside := Env(Library(false, false, false, None, None, true), 1000, true, 7)

  const Before := NewSession(OneQuestion, false, false, 100000)
  const After := Commit(Before, ToBlock(OneQuestion.blocks, 0), 1000)
  const Guessed := RecordOf(Guess, Q, Before, 7)

  const Room0 := Room(Before, 1, [], map[], [Guest], [])
  const Room1 := Room0.(participants := Touch([Guest], 1, 1000))
  const Room2 := Moved(Room1, ToBlock(OneQuestion.blocks, 0), 1000)
  const Room3 := Room2.(eventSeq := Room2.eventSeq + 1, responses := [Guessed])

  /** The room once the guessed answer is stored. */
  function End(): Protocol {
    Stop(Room3, Flight(SubmitDone(Ack(7, Guessed.score, false)), AdvanceDone(Snapshot(After))), [Before, After],
         [Admission(1, 0, 0)])
  }

  lemma OneQuestionOk()
    ensures ContentOk(OneQuestion)
  {
    var blocks := OneQuestion.blocks;
    assert ChoiceIds(blocks) == [Authored(3), Authored(4)] by { assert blocks[1..] == []; }
    assert blocks[0].question.delivery.Main?;
  }

  function Flight(answer: SubmitStage, press: AdvanceStage): seq<Task> {
    [SubmitTask(Guess, 0, answer), AdvanceTask(0, press)]
  }

  lemma Arrives()
    ensures SubmitTick(Room0, Guess, SubmitArrived, Outside) == (Room1, SubmitLoaded(Before, None))
    ensures SubmitTick(Room1, Guess, SubmitLoaded(Before, None), Outside) == (Room1, SubmitReady(Before, Guessed))
  {
    assert Room0.participants[0].id == 1;
    assert FindBlock(OneQuestion.blocks, Authored(1)) == Some(OneQuestion.blocks[0]);
    assert Validate(Q, Guess.answer).None? by {
      assert Q.choices[0].id == Authored(3) && Authored(3) in ChoiceSet(Q.choices);
    }
  }

  lemma Presses()
    ensures AdvanceTick(Room1, 0, AdvanceArrived, Outside)
            == (Room1, AdvanceReady(Before, ToBlock(OneQuestion.blocks, 0)))
    ensures AdvanceTick(Room1, 0, AdvanceReady(Before, ToBlock(OneQuestion.blocks, 0)), Outside)
            == (Room2, AdvanceDone(Snapshot(After)))
  {
  }

  lemma Admits()
    ensures SubmitTick(Room2, Guess, SubmitReady(Before, Guessed), Outside)
            == (Room3, SubmitDone(Ack(7, Guessed.score, false)))
  {
    assert Room2.participants[0].id == 1;
    assert [] + [Guessed] == [Guessed];
  }

  lemma ScoredTooLow()
    ensures Guessed.score == 50 && !TimedAgainst(After, Guessed)
  {
    CorrectMeansExactlyTheCorrectChoices(Q, Guess.answer);
    assert Selected(Guess.answer)[0] == Authored(3);
    assert Q.choices[0] == Choice(Authored(3), true) && Q.choices[1] == Choice(Authored(4), false);
    assert Chosen(Guess.answer) == {Authored(3)} == CorrectChoices(Q.choices);
    assert Guessed.correct == Some(true);
    assert TimingOf(Before, 1000).remaining == 0.0;
    assert (100.0 * 0.5 + 0.5).Floor == 50;
    var remaining := TimingOf(After, 1000).remaining;
    assert TimingOf(After, 1000).responseMs == 0 && remaining == 1.0;
    assert (100.0 * 1.0 + 0.5).Floor == 100;
  }

  lemma RunsOn(p: Protocol, move: Move, moves: seq<Move>)
    ensures Run(p, [move] + moves) == Run(Next(p, move), moves)
  {
    hide Next;
    assert ([move] + moves)[1..] == moves;
  }

  function Stop(room: Room, tasks: seq<Task>, log: seq<Session>, admissions: seq<Admission>): Protocol {
    Protocol(room, tasks, log, seq(|log|, i => 1000 * i), seq(|log|, i => None), admissions)
  }

  lemma Started()
    ensures Next(Opening(Before), Join(Guest, 10)) == Stop(Room0, [], [Before], [])
    ensures Next(Stop(Room0, [], [Before], []), NewSubmission(Guess))
            == Stop(Room0, [SubmitTask(Guess, 0, SubmitArrived)], [Before], [])
    ensures Next(Stop(Room0, [SubmitTask(Guess, 0, SubmitArrived)], [Before], []), NewAdvance(0))
            == Stop(Room0, Flight(SubmitArrived, AdvanceArrived), [Before], [])
  {
  }

  lemma Flies()
    ensures Next(Stop(Room0, Flight(SubmitArrived, AdvanceArrived), [Before], []), Tick(0, Outside))
            == Stop(Room1, Flight(SubmitLoaded(Before, None), AdvanceArrived), [Before], [])
    ensures Next(Stop(Room1, Flight(SubmitLoaded(Before, None), AdvanceArrived), [Before], []), Tick(0, Outside))
            == Stop(Room1, Flight(SubmitReady(Before, Guessed), AdvanceArrived), [Before], [])
  {
    hide SubmitTick;
    Arrives();
  }

  lemma Opens()
    ensures var t := ToBlock(OneQuestion.blocks, 0);
            && Next(Stop(Room1, Flight(SubmitReady(Before, Guessed), AdvanceArrived), [Before], []), Tick(1, Outside))
               == Stop(Room1, Flight(SubmitReady(Before, Guessed), AdvanceReady(Before, t)), [Before], [])
            && Next(Stop(Room1, Flight(SubmitReady(Before, Guessed), AdvanceReady(Before, t)), [Before], []),
                    Tick(1, Outside))
               == Stop(Room2, Flight(SubmitReady(Before, Guessed), AdvanceDone(Snapshot(After))), [Before, After], [])
  {
    hide AdvanceTick;
    Presses();
  }

  lemma Lands()
    ensures Next(Stop(Room2, Flight(SubmitReady(Before, Guessed), AdvanceDone(Snapshot(After))), [Before, After], []),
                 Tick(0, Outside))
            == End()
  {
    hide SubmitTick;
    Admits();
  }

  /** A reachable room in which a correct answer, admitted the instant its question opened, has half the points. */
  lemma GuessedRevisionIsTimedWrongly()
    ensures exists p: Protocol ::
              && Reachable(p, OneQuestion) && |p.admissions| == |p.room.responses| == 1
              && p.admissions[0].revision < |p.log|
              && p.admissions[0].arrivedAt < p.admissions[0].revision
              && !TimedAgainst(p.log[p.admissions[0].revision], p.room.responses[0])
  {
    hide Next, Run, TimedAgainst, ContentOk;
    var moves := Landing(End());
    OneQuestionOk();
    ScoredTooLow();
    assert Reachable(End(), OneQuestion);
  }

  lemma Landing(last: Protocol) returns (moves: seq<Move>)
    requires last == End()
    ensures Run(Opening(Before), moves) == last
  {
    hide Next, Stop, Flight;
    var t := ToBlock(OneQuestion.blocks, 0);
    var s0 := Stop(Room0, [], [Before], []);
    var s1 := Stop(Room0, [SubmitTask(Guess, 0, SubmitArrived)], [Before], []);
    var s2 := Stop(Room0, Flight(SubmitArrived, AdvanceArrived), [Before], []);
    var s3 := Stop(Room1, Flight(SubmitLoaded(Before, None), AdvanceArrived), [Before], []);
    var s4 := Stop(Room1, Flight(SubmitReady(Before, Guessed), AdvanceArrived), [Before], []);
    var s5 := Stop(Room1, Flight(SubmitReady(Before, Guessed), AdvanceReady(Before, t)), [Before], []);
    var s6 := Stop(Room2, Flight(SubmitReady(Before, Guessed), AdvanceDone(Snapshot(After))), [Before, After], []);
    Started(); Flies(); Opens(); Lands();
    var tail := [];
    RunEmpty(last);
    tail := BackUp(s6, Tick(0, Outside), tail, last);
    tail := BackUp(s5, Tick(1, Outside), tail, last);
    tail := BackUp(s4, Tick(1, Outside), tail, last);
    tail := BackUp(s3, Tick(0, Outside), tail, last);
    tail := BackUp(s2, Tick(0, Outside), tail, last);
    tail := BackUp(s1, NewAdvance(0), tail, last);
    tail := BackUp(s0, NewSubmission(Guess), tail, last);
    moves := BackUp(Opening(Before), Join(Guest, 10), tail, last);
  }

  lemma RunEmpty(p: Protocol)
    ensures Run(p, []) == p
  {
  }

  lemma BackUp(p: Protocol, move: Move, moves: seq<Move>, last: Protocol) returns (longer: seq<Move>)
    requires Run(Next(p, move), moves) == last
    ensures Run(p, longer) == last
  {
    hide Next;
    RunsOn(p, move, moves);
    longer := [move] + moves;
  }
}
