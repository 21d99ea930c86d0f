/** The dropped unfenced answer happens: a run to an open second question with the first question's key on file. */
module FollowupExample {
  import opened Common
  import opened FollowupModel
  import opened FollowupProtocol
  import opened FollowupTheorems

  const Two :=
    Followup([Checkpoint(10, 30, ConfidenceOff), Checkpoint(11, 30, ConfidenceOff)], false, false, None, 0, 100)
  const First := AnswerInput(None, None, 7, 5, None, 1)
  const Press := AdvanceInput(None, None, 2)
  const Outside := Env(true, false, Graded(Some(true)))

  const Fresh := Begin(Two, 0, 2)
  const Shown := Revealed(Fresh)
  const Opened := Fresh.(index := 1, version := 2, openedAt := 2)
  const Kept := AnswerRecord(Two.questions[0], First, Fresh, Some(true))

  const R0 := Record(Fresh, [])
  const R1 := Record(Shown, [Kept])
  const R2 := Record(Opened, [Kept])

  lemma Answers()
    ensures AnswerTick(Two, R0, First, AnswerArrived, Outside) == (R0, AnswerCurrent(Fresh))
    ensures AnswerTick(Two, R0, First, AnswerCurrent(Fresh), Outside) == (R0, AnswerUntimed(Fresh))
    ensures AnswerTick(Two, R0, First, AnswerUntimed(Fresh), Outside) == (R0, AnswerReady(Fresh, Kept))
    ensures AnswerTick(Two, R0, First, AnswerReady(Fresh, Kept), Outside) == (R1, AnswerDone(Snapshot(Shown)))
  {
    assert [] + [Kept] == [Kept];
  }

  lemma Continues()
    ensures AdvanceTick(Two, R1, Press, AdvanceArrived, Outside) == (R1, AdvanceLoaded(Shown))
    ensures AdvanceTick(Two, R1, Press, AdvanceLoaded(Shown), Outside) == (R1, AdvanceReady(Shown, Opened))
    ensures AdvanceTick(Two, R1, Press, AdvanceReady(Shown, Opened), Outside) == (R2, AdvanceRereading)
  {
  }

  function Flight(answer: AnswerStage, press: AdvanceStage): seq<Task> {
    [AnswerTask(First, answer), AdvanceTask(Press, press)]
  }

  function Stop(r: Record, tasks: seq<Task>, log: seq<Attempt>, outcomes: seq<Outcome>): System {
    System(r, tasks, log, seq(|log|, i => None), seq(|log|, i => i), outcomes)
  }

  const Begun := Stop(R0, Flight(AnswerArrived, AdvanceArrived), [Fresh], [])
  const Asked := Stop(R0, Flight(AnswerCurrent(Fresh), AdvanceArrived), [Fresh], [])
  const Checked := Stop(R0, Flight(AnswerUntimed(Fresh), AdvanceArrived), [Fresh], [])
  const Readied := Stop(R0, Flight(AnswerReady(Fresh, Kept), AdvanceArrived), [Fresh], [])
  const Answered := Stop(R1, Flight(AnswerDone(Snapshot(Shown)), AdvanceArrived), [Fresh, Shown], [ByAnswer(Kept)])
  const Pressed := Stop(R1, Flight(AnswerDone(Snapshot(Shown)), AdvanceLoaded(Shown)), [Fresh, Shown], [ByAnswer(Kept)])
  const Computed :=
    Stop(R1, Flight(AnswerDone(Snapshot(Shown)), AdvanceReady(Shown, Opened)), [Fresh, Shown], [ByAnswer(Kept)])
  const Moved :=
    Stop(R2, Flight(AnswerDone(Snapshot(Shown)), AdvanceRereading), [Fresh, Shown, Opened], [ByAnswer(Kept)])

  lemma StepsOfAnswer()
    ensures Next(Two, Next(Two, Opening(Two, 0, 2), NewAnswer(First)), NewAdvance(Press)) == Begun
    ensures Next(Two, Begun, Tick(0, Outside)) == Asked
    ensures Next(Two, Asked, Tick(0, Outside)) == Checked
    ensures Next(Two, Checked, Tick(0, Outside)) == Readied
    ensures Next(Two, Readied, Tick(0, Outside)) == Answered
  {
    hide AnswerTick;
    Answers();
  }

  lemma StepsOfPress()
    ensures Next(Two, Answered, Tick(1, Outside)) == Pressed
    ensures Next(Two, Pressed, Tick(1, Outside)) == Computed
    ensures Next(Two, Computed, Tick(1, Outside)) == Moved
  {
    hide AdvanceTick;
    Continues();
  }

  lemma BackUp(s: System, move: Move, moves: seq<Move>, last: System) returns (longer: seq<Move>)
    requires Run(Two, Next(Two, s, move), moves) == last
    ensures Run(Two, s, longer) == last
  {
    hide Next;
    assert ([move] + moves)[1..] == moves;
    longer := [move] + moves;
  }

  lemma RunTo() returns (moves: seq<Move>)
    ensures Run(Two, Opening(Two, 0, 2), moves) == Moved
  {
    hide Next, Stop;
    StepsOfAnswer();
    StepsOfPress();
    moves := [];
    assert Run(Two, Moved, moves) == Moved;
    moves := BackUp(Computed, Tick(1, Outside), moves, Moved);
    moves := BackUp(Pressed, Tick(1, Outside), moves, Moved);
    moves := BackUp(Answered, Tick(1, Outside), moves, Moved);
    moves := BackUp(Readied, Tick(0, Outside), moves, Moved);
    moves := BackUp(Checked, Tick(0, Outside), moves, Moved);
    moves := BackUp(Asked, Tick(0, Outside), moves, Moved);
    moves := BackUp(Begun, Tick(0, Outside), moves, Moved);
    moves := BackUp(Next(Two, Opening(Two, 0, 2), NewAnswer(First)), NewAdvance(Press), moves, Moved);
    moves := BackUp(Opening(Two, 0, 2), NewAnswer(First), moves, Moved);
  }

  /** A reachable attempt whose second question is answered without effect, and whose client is told otherwise. */
  lemma DroppedAnswerIsReachable()
    ensures exists s: System, moves: seq<Move> ::
              && Reachable(Two, 0, 2, s) && |s.tasks| == 2 && s.record.attempt.phase.QuestionOpen?
              && s.record.attempt.index == 1
              && Run(Two, s, moves).record == s.record
              && |Run(Two, s, moves).tasks| == 3
              && Run(Two, s, moves).tasks[2] == AnswerTask(First, AnswerDone(Snapshot(Revealed(s.record.attempt))))
  {
    hide Next, Run;
    var path := RunTo();
    assert Reachable(Two, 0, 2, Moved);
    var t := Tick(2, Outside);
    ReusedKeyIsSilentlyDropped(Two, Moved, First, Outside);
    var moves := [NewAnswer(First), t, t, t, t];
    assert Run(Two, Moved, moves).record == Moved.record;
  }
}
