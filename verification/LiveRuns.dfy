/** Every room that concurrent handlers reach is one that some sequence of single steps reaches. */
module LiveRuns {
  import opened Common
  import opened SessionModel
  import opened SessionRuns
  import opened SessionStore
  import opened LiveProtocol
  import opened LiveInvariants
  import opened LiveTheorems

  /** One move takes at most one step of the pure machine. */
  lemma MoveIsPlay(p: Protocol, move: Move, originals: seq<Block>) returns (steps: seq<Step>)
    requires Inv(p, originals)
    ensures Play(StageOf(p.room), steps) == StageOf(Next(p, move).room)
  {
    hide Compute, ContentOk, RunInvariant, TaskOk, TaskTick, IsStep, Take, WindowOpen, FindByKey, FindByBlock, Joined;
    hide ReceiptsOk, StageOk, LogLegal, RoomOk, AdmissionsOk, LogGrows;
    steps := [];
    if move.Tick? && move.task < |p.tasks| {
      var task := p.tasks[move.task];
      TickEffect(p, task, move.env);
      if CommitsTo(p.room, task, move.env, TaskTick(p.room, task, move.env).0) {
        steps := [CommittedStep(task, move.env)];
        PlayOne(StageOf(p.room), CommittedStep(task, move.env));
      }
    }
  }

  lemma PlayOne(g: Stage, step: Step)
    ensures Play(g, [step]) == Take(g, step)
  {
    hide Take;
    assert [step][1..] == [];
  }

  lemma {:induction false} PlayConcat(g: Stage, early: seq<Step>, late: seq<Step>)
    ensures Play(g, early + late) == Play(Play(g, early), late)
    decreases |early|
  {
    hide Take;
    if early == [] {
      assert early + late == late;
    } else {
      assert (early + late)[0] == early[0] && (early + late)[1..] == early[1..] + late;
      PlayConcat(Take(g, early[0]), early[1..], late);
    }
  }

  /** Any interleaving of any handlers does to the session and its timeline what some single steps do. */
  lemma {:induction false} RunIsPlay(p: Protocol, moves: seq<Move>, originals: seq<Block>) returns (steps: seq<Step>)
    requires Inv(p, originals)
    ensures Play(StageOf(p.room), steps) == StageOf(Run(p, moves).room)
    decreases |moves|
  {
    hide Inv, Next, Take;
    if moves == [] {
      steps := [];
    } else {
      var first := MoveIsPlay(p, moves[0], originals);
      NextKeepsInv(p, moves[0], originals);
      var rest := RunIsPlay(Next(p, moves[0]), moves[1..], originals);
      PlayConcat(StageOf(p.room), first, rest);
      steps := first + rest;
    }
  }

  /** Whatever handlers do next, a diagnostic and its recheck keep their distance. */
  lemma ConcurrentLinkDistanceNeverChanges(p: Protocol, content: Content, moves: seq<Move>, i: int, j: int)
    requires Reachable(p, content) && LinkTo(p.room.session.content.blocks, i, j)
    ensures PairKept(p.room.session.content.blocks, Run(p, moves).room.session.content.blocks, i, j)
  {
    hide Reachable, Inv, Run, ContentOk, WellPlaced, Play, PairKept;
    ReachableInv(p, content);
    ConcurrentRoomShowsAPrefix(p, content);
    var steps := RunIsPlay(p, moves, content.blocks);
    LinkDistanceNeverChanges(StageOf(p.room), steps, i, j);
  }

  /** Whatever handlers do next, the block list never shrinks and no insertion takes it past the cap. */
  lemma ConcurrentGrowthIsCapped(p: Protocol, content: Content, moves: seq<Move>)
    requires Reachable(p, content)
    ensures Capped(|p.room.session.content.blocks|, |Run(p, moves).room.session.content.blocks|)
  {
    hide Reachable, Inv, Run, ContentOk, WellPlaced, Play, Capped;
    ReachableInv(p, content);
    ConcurrentRoomShowsAPrefix(p, content);
    var steps := RunIsPlay(p, moves, content.blocks);
    GrowthIsCapped(StageOf(p.room), steps);
  }

  lemma PackStays(blocks: seq<Block>, later: seq<Block>, k: int, commandId: Uuid, versionId: Uuid)
    requires PackAt(blocks, k, commandId, versionId) && PairKept(blocks, later, k, k + 1)
    ensures exists m :: PackAt(later, m, commandId, versionId)
  {
    var offset: nat :| PairMoved(blocks, later, k, k + 1, offset);
    assert PackAt(later, k + offset, commandId, versionId);
  }

  /** A Pack pair that stands in the room together stays together, whatever handlers do next. */
  lemma ConcurrentPackPairStaysAdjacent(
    p: Protocol, content: Content, moves: seq<Move>, k: int, commandId: Uuid, versionId: Uuid)
    requires Reachable(p, content) && PackAt(p.room.session.content.blocks, k, commandId, versionId)
    ensures exists m :: PackAt(Run(p, moves).room.session.content.blocks, m, commandId, versionId)
  {
    hide Reachable, Run, PairKept;
    ConcurrentLinkDistanceNeverChanges(p, content, moves, k, k + 1);
    PackStays(p.room.session.content.blocks, Run(p, moves).room.session.content.blocks, k, commandId, versionId);
  }

  lemma LegalStepIsTake(before: Session, after: Session) returns (step: Step)
    requires LegalStep(before, after)
    ensures Take(Stage(before, []), step).session == after
  {
    hide Compute;
    step :| IsStep(before, step, after);
  }

  lemma {:induction false} LogIsPlaced(p: Protocol, content: Content, k: nat)
    requires Reachable(p, content) && k < |p.log|
    ensures WellPlaced(p.log[k])
  {
    hide WellPlaced, LegalStep, Take, ContentOk, Run;
    EveryCommitIsALegalStep(p, content);
    if k == 0 {
      var cardsEnabled: bool, flex: bool, liveExpiresAt: int, moves: seq<Move> :|
        p == Run(Opening(NewSession(content, cardsEnabled, flex, liveExpiresAt)), moves);
      FirstSessionStays(Opening(NewSession(content, cardsEnabled, flex, liveExpiresAt)), moves);
      NewIsPlaced(content, cardsEnabled, flex, liveExpiresAt);
    } else {
      LogIsPlaced(p, content, k - 1);
      var step := LegalStepIsTake(p.log[k - 1], p.log[k]);
      TakeKeepsPlace(Stage(p.log[k - 1], []), step);
    }
  }

  lemma NewIsPlaced(content: Content, cardsEnabled: bool, flex: bool, liveExpiresAt: int)
    requires ContentOk(content)
    ensures WellPlaced(NewSession(content, cardsEnabled, flex, liveExpiresAt))
  {
  }

  lemma {:induction false} PairKeptAlongLog(p: Protocol, content: Content, early: nat, late: nat, i: int, j: int)
    requires Reachable(p, content) && early <= late < |p.log| && LinkTo(p.log[early].content.blocks, i, j) && i < j
    ensures PairKept(p.log[early].content.blocks, p.log[late].content.blocks, i, j)
    decreases late
  {
    hide Reachable, LegalStep, Take, WellPlaced;
    EveryCommitIsALegalStep(p, content);
    if early == late {
      assert PairMoved(p.log[early].content.blocks, p.log[early].content.blocks, i, j, 0);
    } else {
      PairKeptAlongLog(p, content, early, late - 1, i, j);
      var first: nat :| PairMoved(p.log[early].content.blocks, p.log[late - 1].content.blocks, i, j, first);
      LogIsPlaced(p, content, late - 1);
      var step := LegalStepIsTake(p.log[late - 1], p.log[late]);
      TakeKeepsPair(Stage(p.log[late - 1], []), step, i + first, j + first);
      var last: nat :| PairMoved(p.log[late - 1].content.blocks, p.log[late].content.blocks, i + first, j + first,
                                 last);
      assert PairMoved(p.log[early].content.blocks, p.log[late].content.blocks, i, j, first + last);
    }
  }

  /** A Pack whose insertion a handler has committed is in the room as one adjacent, linked pair. */
  lemma CommittedPackStandsTogether(p: Protocol, content: Content, id: Uuid)
    requires Reachable(p, content) && id in p.room.receipts
    requires p.room.receipts[id].requestHash.Some? && p.room.receipts[id].requestHash.value.action.InsertPack?
    ensures exists k ::
            PackAt(p.room.session.content.blocks, k, id, p.room.receipts[id].requestHash.value.action.packVersionId)
  {
    hide Reachable, WellPlaced, Compute, LegalStep, Take, PairKept;
    ReceiptStandsForItsCommit(p, content, id);
    EveryCommitIsALegalStep(p, content);
    var r := p.room.receipts[id];
    var before, after := p.log[r.expectedRevision], p.log[r.resultingRevision];
    var step := CommittedPack(before, r.requestHash.value.action, id, after);
    LogIsPlaced(p, content, r.expectedRevision);
    PackGoesInAsAPair(Stage(before, []), step);
    var k := before.index + 1;
    PairKeptAlongLog(p, content, r.resultingRevision, |p.log| - 1, k, k + 1);
    PackStays(after.content.blocks, p.room.session.content.blocks, k, id, r.requestHash.value.action.packVersionId);
  }

  lemma CommittedPack(before: Session, action: Action, id: Uuid, after: Session) returns (step: Step)
    requires CommitsAction(before, action, id, after)
    ensures step.action == action && step.commandId == id
    ensures Compute(before, action, id, step.lib).Success? && Take(Stage(before, []), step).session == after
  {
    hide Compute;
    step :| step.action == action && step.commandId == id && IsStep(before, step, after);
  }
}
