# Verified models of the live room, the follow-up, and two text formats

OpenRound runs live Presentations: a host steps a session through a list of blocks, participants answer
questions, and several people may press buttons at once. Around that sit self-paced follow-ups, snapshots for
every role, a report, a spreadsheet and a QTI export, and a scheduler that broadcasts room changes. This project
models those parts in Dafny and proves what they are for.

`dafny verify dfyconfig.toml` checks everything.

## What is modelled

**A live session and its rules** (`SessionModel`, `SessionRuns`, `SessionSteps`, `FrozenCardRules`). A session is a
value: status, phase, current index, revision, content, answer window. The host's advance, a Recovery Pack card and
the three live insertions are functions from a session to a transition or a refusal, with the content schema every
insertion must pass. `SessionSteps` says when each step is possible and what it leads to, `FrozenCardRules` which
cards a session offers. Runs are arbitrary sequences of such steps from a freshly created session.

**The session store** (`SessionStore`). Three whole operations on one room: compare-and-swap on the revision; the
same with a command receipt checked first and stored with the state; and accepting a response, receipt first, then
the live window, then one answer per participant and block. Each is a function on the room's value; a class whose
methods change the room's fields in place is proved equal to those functions.

**Concurrent handlers** (`LiveProtocol`, `LiveInvariants`, `LiveTheorems`, `LiveWindows`, `LiveRuns`, `LiveRequests`,
`LiveExample`). Commands, advances and submissions are tasks; every repository read and every commit of a task is its
own step, so a task may compute its transition from a session that has since moved on. Any number of tasks interleave
in any order, with any clock readings. A history is kept beside the room: the sessions, the clock and the author of
each commit, and when each response was admitted. `LiveWindows` ties answer windows, times and points to those clocks,
and `LiveRequests` says what one undisturbed request comes to. What is proved of single steps is carried over: every
run of handlers does to the session what some sequence of steps does.

**Reading a room** (`ConsistentRead`, `Leaderboards`, `Projections`, `ShownAnswers`, `Reporting`, `ReachableRooms`,
`AcknowledgementExample`). The optimistic re-read loop; ranking, the two indexes, the host, companion, participant and
list snapshots, what they hide while a question is open and show afterwards; the small snapshot that acknowledges a
single response; and the finished room's report.

**Answers** (`ResponsePolicy`). Validation, correctness, timing, score, and the fingerprint that says when two
submissions are one request. Scores and time ratios are exact rationals rounded half up.

**Follow-ups** (`FollowupModel`, `FollowupProtocol`, `FollowupInvariants`, `FollowupTheorems`, `FollowupExample`).
One attempt and its answers, the version-fenced repository operations (functions and a class equal to them), and
concurrent answers, continues and resumes as tasks that read and commit in separate steps. A history keeps the
attempt at each version, the command and the clock of the request that made it. The time multiplier is kept in halves.

**Text formats** (`Text`, `Csv`, `XmlText`, `Decimals`, `DecimalValues`). The checkpoint-set CSV printer and parser
with the formula guard; XML escaping as six successive replacements and decoding in one pass (XML 1.0 Fifth Edition,
sections 2.2, 4.1 and 4.6); the decimal normal form, exact scaled arithmetic and tolerance bounds. What a decimal
text denotes is defined separately, as a real number read off its digits.

**Broadcasts** (`Broadcasts`). The coalescing scheduler: timers, one broadcast in flight per session, word left for
one more, retry, deletion and close, as a class and as a step function over events.

`Common` and `Sorting` hold lists, sums and sorting.

## Assumptions

* Question, block and choice ids are unique within published content (the content schema demands it); ids derived
  from a command, a role and a library version are distinct for distinct seeds, and hashes are injective.
* A nickname's place in the locale's ordering is a number, with ids deciding ties as in the comparator.
* How the question engine grades a follow-up answer, what the library holds, whether a published source still
  exists, whether content fits the size limit, the clock and fresh ids are inputs of the step that uses them. No
  clock is assumed to be monotone, except where spacing in time is the point (in `Broadcasts`).

## Where the code does not do what one might expect

* Looking a participant up refreshes `lastSeenAt` without moving the event sequence, so a consistent projection is
  one moment of the room up to presence times.
* A client that names a revision it has not seen yet can have its answer accepted at that revision but timed against
  the session its handler had read before. Timing is right exactly when the session read and the session committed
  against give the answer the same time and score (`LiveTheorems.TimingIsRightExactlyWhenTheReadAgrees`), in
  particular when they are one; an answer whose handler read too early earns half
  (`LiveTheorems.EarlyReadEarnsHalf`), and `LiveExample.GuessedRevisionIsTimedWrongly` shows such a run.
* An unfenced follow-up answer that reuses a stored key is told its answer was revealed although nothing is stored;
  `FollowupTheorems.UnfencedReplyIsTrueExactlyForNewKeys` says exactly when the reply is true, and
  `FollowupExample.DroppedAnswerIsReachable` shows a run in which it is not.
* The acknowledgement of a response shows that response as the receipt; the full snapshot shows the latest one. They
  agree exactly when the two are the same; `AcknowledgementExample` reaches a room in which they are not.
* The 250 ms between broadcasts is not guaranteed. Immediate requests and restarts by the drain loop are not spaced by
  design. Timers keep the interval exactly as long as no due ordinary request meets a timer that is about to fire
  (`Broadcasts.IntervalHoldsExactlyWithoutCrowding`), since such a request leaves the timer alone.
* Text that already looks guarded (an apostrophe before formula-like text) loses its apostrophe on import.

## Model

| member | source | states |
|---|---|---|
| SessionRuns.TransitionShape | apps/server/src/presentation-live-mutation-service.ts:138-236 | From a well-placed session every action that computes anything computes a reveal, an intervention in place, the next block, the finish, or an insertion right after the current block; nothing at all only when the session is over. When each is computed is stated by the SessionSteps rows |
| SessionSteps.NextLeads | apps/server/src/presentation-live-mutation-service.ts:138-198 | "Next" closes exactly an open question; it shows an intervention, at the same index, exactly when a main question with a linked recheck has been revealed; otherwise it opens the block after the current one, or finishes after the last; each with its own timeline event |
| SessionSteps.LinkedRevealOnlyIntervenes | apps/server/src/presentation-live-mutation-service.ts:154-162 | Once a linked diagnostic is revealed, whatever action is accepted leads to an intervention at that block |
| SessionSteps.StepIsOnTime | packages/db/src/presentation-session-rules.ts:115-138 | Every accepted step opens its question at the step's own clock and closes it 1000 ms per second of its limit later in a timed room, never in an untimed one; no other phase has a window; the finishing time is the clock of the finishing step |
| SessionSteps.InsertionsAreOpenExactly | apps/server/src/presentation-live-insertion.ts:18-42 | The three insertions are possible exactly in an active session in the lobby, on a slide or at a reveal with no shown diagnostic waiting for its recheck, and within the limits of 100 blocks and 100 insertions |
| SessionSteps.PackIsTakenExactly | apps/server/src/presentation-live-recovery-packs.ts:40-93 | A Pack is taken exactly if its three questions are text only and the content with its pair spliced in at the boundary and its mark passes the schema and the size limit |
| SessionSteps.PublishedIsTakenExactly | apps/server/src/presentation-live-published-questions.ts:19-101 | A published question is taken exactly if the version has the hash that was looked at, exactly one question of the id, which stands alone, and the content with its copy passes |
| SessionSteps.QuickCheckIsTakenExactly | apps/server/src/presentation-live-quick-checks.ts:14-68 | A quick check is taken exactly with acceptable wording, two to six choices, a limit from 10 to 300 seconds, and passing content |
| SessionSteps.UnavailableSourcesAreRefused | apps/server/src/presentation-live-mutation-service.ts:540-623 | A switched-off feature, an unknown, archived or different source are not found |
| SessionSteps.PackCopiesAreFaithful | apps/server/src/presentation-live-recovery-packs.ts:40-93 | A Pack comes in as its diagnostic, then its recheck: the same questions with the same right choices, linked to each other under new distinct ids |
| SessionSteps.PublishedCopyIsFaithful | apps/server/src/presentation-live-published-questions.ts:64-99 | A published question comes in with the same right choices, limit, points and scale, unlinked, under new distinct ids, with its origin |
| SessionSteps.QuickCheckIsAsAsked | apps/server/src/presentation-live-quick-checks.ts:14-68 | A quick check has the asked choices and limit, no right choice and no points |
| SessionSteps.CardStartsExactlyWhenOffered | apps/server/src/presentation-live-mutation-service.ts:200-236 | A card can be started exactly while its question is revealed and offers that card |
| SessionRuns.AcceptedStepMakesProgress | apps/server/src/presentation-live-mutation-service.ts:138-236 | Every accepted step lowers a lexicographic measure (room left to grow, blocks ahead, phase rank) and adds one revision |
| SessionRuns.RunsAreShort | apps/server/src/presentation-live-mutation-service.ts:138-236 | In every run with N blocks at the end the revision is the number of logged events and at most 3N+1 |
| SessionRuns.GrowthIsCapped | apps/server/src/presentation-live-recovery-packs.ts:29-38 | Over every run the block list never shrinks and no insertion takes it past 100 blocks |
| SessionRuns.PressingNextFinishes | apps/server/src/presentation-live-mutation-service.ts:138-198 | From every well-placed session enough presses of "next" finish it; the host is never stuck |
| SessionRuns.LinkDistanceNeverChanges | apps/server/src/presentation-live-insertion.ts:18-46 | Over every run a diagnostic and its linked recheck move by one common offset, so their distance never changes |
| SessionRuns.PackPairStaysAdjacent | apps/server/src/presentation-live-recovery-packs.ts:40-93 | A Pack's diagnostic and recheck inserted live stay adjacent and linked after any later steps |
| LiveRuns.RunIsPlay | apps/server/src/presentation-live-mutation-service.ts:263-538 | Whatever handlers interleave, the session and its timeline end as some sequence of single steps would leave them |
| LiveRuns.ConcurrentLinkDistanceNeverChanges | apps/server/src/presentation-live-insertion.ts:18-46 | From every reachable room, whatever handlers do next, a diagnostic and its recheck keep their distance |
| LiveRuns.CommittedPackStandsTogether | apps/server/src/presentation-live-recovery-packs.ts:40-93 | In every reachable room each Pack whose insertion was committed stands as one adjacent linked pair |
| LiveRuns.ConcurrentPackPairStaysAdjacent | apps/server/src/presentation-live-recovery-packs.ts:40-93 | An adjacent Pack pair stays adjacent whatever handlers do next |
| LiveRuns.ConcurrentGrowthIsCapped | apps/server/src/presentation-live-recovery-packs.ts:29-38 | Under concurrency too the block list never shrinks and no insertion takes it past 100 blocks |
| SessionRuns.InsertionKeepsOriginals | apps/server/src/presentation-live-published-questions.ts:64-99 | An insertion leaves the published blocks in place and order: deleting inserted blocks gives them back |
| SessionRuns.PublishedShape | apps/server/src/presentation-live-published-questions.ts:19-101 | An accepted published-question insertion matches the version's hash and is the one-block splice, at the insertion index, of the copy of the only question of that id, which may stand alone; it opens that block |
| SessionRuns.QuickCheckShape | apps/server/src/presentation-live-quick-checks.ts:14-68 | An accepted quick check is the one-block splice at the insertion index that opens the poll |
| SessionRuns.PresentedIsAPrefix | apps/server/src/presentation-live-mutation-service.ts:138-198 | In every reachable session the ids presented so far are exactly the current blocks up to the index, and the content still passes the schema |
| SessionRuns.FinishedRunShowsEveryBlockOnce | apps/server/src/presentation-live-mutation-service.ts:172-198 | A finished run has presented every block, inserted ones included, exactly once and in order |
| SessionRuns.StartInvariant | apps/server/src/presentation-session-service.ts:287-327 | A newly created session satisfies the invariant all runs keep |
| SessionSteps.StartsAsAsked | apps/server/src/presentation-session-service.ts:287-327 | A newly created session waits in the lobby at revision 0 with the settings and expiry asked for |
| SessionStore.Store.Transition | packages/db/src/presentation-session-memory.ts:342-420 | In place, the compare-and-swap operation on the revision: conflict and no change, or one commit, whose times SessionSteps.StepIsOnTime and LiveWindows.WindowsFollowTheClock state |
| SessionStore.Store.TransitionCommand | packages/db/src/presentation-session-memory.ts:426-439 | In place, receipt first, then the fence, and the receipt stored with the state |
| SessionStore.Store.Accept | packages/db/src/presentation-session-memory.ts:553-618 | In place, receipt first, then the live window, then one response per participant and block |
| SessionStore.Store.FindIdempotent | packages/db/src/presentation-session-memory.ts:627-640 | The search finds the first response stored under the participant's key |
| LiveTheorems.EveryCommitIsALegalStep | apps/server/src/presentation-live-mutation-service.ts:263-345 | Under every interleaving each committed session is a legal step of the pure machine from the session before it, one revision on |
| LiveTheorems.ConcurrentRoomShowsAPrefix | apps/server/src/presentation-live-mutation-service.ts:387-538 | The trace, published order and revision bound of single runs hold in every room concurrent handlers can reach |
| LiveTheorems.CommandsCommitAtMostOnce | apps/server/src/presentation-live-mutation-service.ts:414-438 | No two revisions were committed by one command id |
| LiveTheorems.ReceiptStandsForItsCommit | apps/server/src/presentation-live-mutation-service.ts:414-438 | A receipt names the one revision its command committed, from the revision and with the action it was asked for |
| LiveTheorems.CopyAfterCommit | apps/server/src/presentation-live-mutation-service.ts:347-385 | A copy begun after the commit gets a snapshot if exact, quick-check wording included, a conflict otherwise, and never changes the room |
| LiveTheorems.CopyShowsItsCommitOrLater | apps/server/src/presentation-live-mutation-service.ts:371-382 | The session such a copy is shown is one the room has had, at the command's own revision or later |
| LiveTheorems.BothReceiptChecksAgree | packages/db/src/presentation-session-rules.ts:60-73 | The service's and the repository's receipt checks accept the same receipts, with and without a stored hash |
| LiveTheorems.ResponsesBelongToTheirQuestion | apps/server/src/presentation-live-mutation-service.ts:625-779 | At most one response per participant and block and per key; each is valid for its question and was admitted at a revision at which that question was open; its handler read the session between arrival and that revision, and graded, timed and scored it from exactly that session; if it arrived no earlier than the revision it was timed against that question |
| LiveTheorems.TimingIsRightExactlyWhenTheReadAgrees | apps/server/src/presentation-live-mutation-service.ts:706-725 | Every stored response carries its own question's time and score if and only if the session read gives the same as the one committed against, and always when they are one |
| LiveTheorems.EarlyReadEarnsHalf | apps/server/src/presentation-session-response-policy.ts:41-71 | A correct scored answer whose handler read a session without an open question earns half the base points in a timed room, and in an untimed one all or half depending on the block then current |
| LiveExample.GuessedRevisionIsTimedWrongly | apps/server/src/presentation-live-mutation-service.ts:706-725 | Without that arrival condition the timing claim fails: a reachable room holds a correct answer with half its points |
| LiveTheorems.RetryReturnsTheStoredAnswer | apps/server/src/presentation-live-mutation-service.ts:645-677 | A retry begun after its answer was stored returns that answer's id and score as a duplicate, or a conflict if it asks for something else, however far the host has moved |
| LiveTheorems.RunsAreChronicles | packages/db/src/presentation-session-memory.ts:342-420 | Along every run each change of the room adds one to the event sequence or touches presence only |
| LiveWindows.WindowsFollowTheClock | packages/db/src/presentation-session-rules.ts:115-138 | In every reachable room each logged session opens its question at the clock of the step that committed it, and closes it exactly the limit of the block on show later if timed, never if not; no other phase has a window; the finish is timed by its own step; settings never change |
| LiveWindows.AnswersAreInTime | packages/db/src/presentation-session-rules.ts:140-166 | Every stored response was received no earlier than the clock of the commit that opened its own question, before the room expired, and in a timed room at most the limit later |
| LiveWindows.AnswersAreAcceptedExactly | packages/db/src/presentation-session-memory.ts:553-618 | A response is stored if and only if its key and its block are new for its participant, who has joined, and it names the block, question and revision now open and was received in the window |
| LiveWindows.StoredPointsFollowTheClock | apps/server/src/presentation-session-response-policy.ts:41-71 | A response whose handler had read the session it was committed against stores the time since the opening commit and, if right, the nearest whole number to base - base * e / (2 * D) |
| LiveWindows.RevealedDiagnosticsIntervene | apps/server/src/presentation-live-mutation-service.ts:138-198 | Under every interleaving the revision after the reveal of a linked diagnostic is an intervention at the same block |
| LiveWindows.InterventionsFollowReveals | apps/server/src/presentation-live-mutation-service.ts:138-198 | And an intervention only ever follows a reveal at the same block, of a linked diagnostic or with a card offered there |
| LiveWindows.TransitionsCommitExactly | packages/db/src/presentation-session-memory.ts:342-420 | A transition commits exactly when it names the current revision and any card in it is enabled, shown in an intervention and attributed alike in session and timeline: one revision, event and sequence step, and nothing else of the room |
| LiveWindows.CurrentCommandsCommit | packages/db/src/presentation-session-memory.ts:426-439 | A new command computed from the current session commits, with its receipt and its event, unless its published source has gone |
| LiveWindows.SameCommandExactly | packages/db/src/presentation-session-rules.ts:60-73 | A copy matches a committed command exactly when it asks for the same action from the same revision |
| LiveWindows.SameSubmissionExactly | apps/server/src/presentation-session-response-policy.ts:20-39 | A submission repeats a stored response exactly when it names its block and the revision it was committed at, and carries the same choices in any order and the same other values |
| LiveWindows.SeatsAreLimited | packages/db/src/presentation-session-memory.ts:457-490 | However requests interleave, a room never seats more participants than the limit in force |
| LiveRequests.NextAloneMovesExactly | apps/server/src/presentation-live-mutation-service.ts:263-325 | An undisturbed "next" is refused in an expired room, told of another revision, shown a finished session, and otherwise moves the session one revision on |
| LiveRequests.CommandAloneIsCarriedOutExactly | apps/server/src/presentation-live-mutation-service.ts:387-538 | An undisturbed new command is carried out exactly when it names the current revision, the rules compute a step and its source is still there; otherwise nothing changes and the reply says why |
| LiveRequests.OvertakenStepsAreStale | apps/server/src/presentation-live-mutation-service.ts:440-538 | A command or "next" overtaken by another commit is told both revisions and changes nothing |
| LiveRequests.StrangersAreTurnedAway | apps/server/src/presentation-live-mutation-service.ts:625-644 | A submission is turned away at once exactly when its participant has not joined or the room had expired when it was received |
| LiveRequests.AnswerAloneIsSettled | apps/server/src/presentation-live-mutation-service.ts:678-779 | An undisturbed answer under a new key is stored, with its grade, points and time, exactly when it is the first valid answer to the question on show, in its window and at its revision; otherwise nothing is stored and the reply is invalid, already answered, closed or stale, each in exactly its case |
| ConsistentRead.EqualSequenceMeansNothingHappened | apps/server/src/presentation-session-service.ts:1063-1072 | If the event sequence reads the same at two moments, the room is the same at both up to presence |
| ConsistentRead.ConsistentProjection | apps/server/src/presentation-session-service.ts:1058-1076 | The first attempt during which the sequence stood still returns a projection equal to the room at one moment although its parts were read separately; the answer is "gone" exactly when the first read or an attempt reached before that finds no live session, and "inconsistent" exactly when the sequence moved during all three |
| ResponsePolicy.SortedFormIsTheFingerprint | apps/server/src/presentation-session-response-policy.ts:20-39 | Sorting the choices before hashing compares exactly the multisets of choices, whatever the order |
| ResponsePolicy.SameRequestSameMeaning | apps/server/src/presentation-session-response-policy.ts:74-129 | Submissions with one fingerprint are equally valid and equally correct for every question |
| ResponsePolicy.ValidChoicesAreOffered | apps/server/src/presentation-session-response-policy.ts:74-111 | A valid choice answer picks only offered choices, at least one, exactly one unless several are allowed, and carries a confidence where one is required |
| ResponsePolicy.CorrectMeansExactlyTheCorrectChoices | apps/server/src/presentation-session-response-policy.ts:124-128 | A choice answer is right exactly when the chosen set is the set of correct choices |
| ResponsePolicy.NumericAnswersWithinTolerance | apps/server/src/presentation-session-response-policy.ts:113-129 | A numeric answer is right exactly when it is a number between expected minus and expected plus tolerance |
| ResponsePolicy.ValidExactly | apps/server/src/presentation-session-response-policy.ts:74-111 | An answer is valid exactly when it gives a confidence where required and, by kind, a number, a rating on the scale, or offered choices in an allowed number |
| ResponsePolicy.OnlyRightAnswersEarn | apps/server/src/presentation-session-response-policy.ts:64-71 | Polls and ratings have no right answer, and nothing but a right answer earns points |
| ResponsePolicy.PointsFollowTheElapsedTime | apps/server/src/presentation-session-response-policy.ts:41-71 | In a timed room, with D = 1000 ms per second of the limit and e the time since the opening cut to 0..D: the response time is e and a right answer earns the nearest whole number, ties up, to base - base * e / (2 * D), as an integer inequality |
| ResponsePolicy.UntimedPoints | apps/server/src/presentation-session-response-policy.ts:41-71 | In an untimed room the response time is the time since the opening and a right answer earns all points |
| ResponsePolicy.ScoreIsBounded | apps/server/src/presentation-session-response-policy.ts:41-71 | A correct scored answer earns between half (rounded) and all base points, never more for arriving later, and exactly all when untimed; the exact curve is ResponsePolicy.PointsFollowTheElapsedTime |
| ResponsePolicy.ScoreIsNeverNegative | apps/server/src/presentation-session-response-policy.ts:64-71 | No response scores below zero |
| Leaderboards.RankedParticipants | apps/server/src/presentation-session-projections.ts:57-74 | One pass over the responses collects every participant's points; the result is the numbered ranking, whose order Leaderboards.RanksFollowPoints states |
| Leaderboards.StandingIsRankAndScore | packages/db/src/presentation-session-types.ts:64-84 | Every participant stands on the board once, with the sum of their points, one place after the participants ahead of them |
| Leaderboards.RanksFollowPoints | packages/db/src/presentation-session-types.ts:64-84 | Of any two participants one has the smaller rank if and only if it collected more points, or as many and joined earlier, or at the same time with the nickname sorted first, or with the smaller id |
| Leaderboards.RankingForgetsOrder | packages/db/src/presentation-session-types.ts:70-84 | The ranking does not depend on the order participants and responses are listed in |
| Projections.BuildProjectionData | apps/server/src/presentation-session-projections.ts:223-250 | The two index maps agree with linear scans for every participant and block, and the boards with the rankings |
| Projections.LatestIsStored | apps/server/src/presentation-session-projections.ts:232-237 | The indexed receipt is a stored keyed response of that participant, and none was submitted later |
| Projections.SortKeepsLatest | packages/db/src/presentation-session-memory.ts:620-625 | Listing responses by time does not change which receipt is latest, ties included |
| Projections.OpenAnswersStayHidden | apps/server/src/presentation-session-projections.ts:252-548 | While a question is open, host, companion, participant and list snapshots are equal for response lists that agree elsewhere, hold as many answers to it, and for the viewer differ only in payload, correctness, score or response time |
| Projections.RoomsLookAlike | apps/server/src/presentation-session-projections.ts:223-548 | So two rooms whose answers to the open question differ in all these, and other people's in submission time too, look the same after listing by time |
| Projections.ParticipantsSeeNoOpenAnswers | apps/server/src/presentation-session-projections.ts:322-380 | While a question is open a participant's snapshot depends on nobody else's responses, and on their own answer to it only as to its being there and its receipt |
| Projections.FacilitatorsSeeNoOpenAnswers | apps/server/src/presentation-session-projections.ts:76-86 | For facilitators even less matters: only the responses to other blocks, and how many answers the open one has |
| Projections.AnswerKeyStaysHidden | apps/server/src/presentation-session-projections.ts:138-221 | Nor does any snapshot of an open question depend on which answer is right |
| Projections.AcknowledgementMatchesFullSnapshot | apps/server/src/presentation-session-projections.ts:322-427 | The acknowledgement built from the small projection equals the full participant snapshot field by field, exactly when the acknowledged response is the participant's latest receipt |
| Projections.JustAcceptedIsLatest | apps/server/src/presentation-live-mutation-service.ts:877-911 | A just accepted response is the latest receipt exactly when no earlier stored receipt of the participant carries a later time |
| Projections.RanksAgree | packages/db/src/presentation-session-memory.ts:641-685 | The repository's own ranking for one participant is the ranking of the whole room |
| ShownAnswers.ShownKeyGradesLikeTheEngine | apps/server/src/presentation-session-projections.ts:173-193 | The key that is shown grades every answer as the engine does: the right choices, the tolerance interval, or no verdict |
| ShownAnswers.KeyIsShownExactlyFromTheReveal | apps/server/src/presentation-session-projections.ts:195-221 | Facilitators see a question with its own settings and its choices in order, and its key exactly at the reveal, the intervention and the end; the block itself never shows it to participants or companions |
| ShownAnswers.OwnResultIsShownExactlyFromTheReveal | apps/server/src/presentation-session-projections.ts:322-380 | A participant who answered the block on show is told so, and exactly from the reveal on their stored verdict and points; one who did not is told neither |
| ShownAnswers.StandingIsShownBetweenQuestions | apps/server/src/presentation-session-projections.ts:322-380 | A standing, with all the points the participant collected, is shown exactly while no question is open |
| ShownAnswers.BoardCountsClosedQuestions | apps/server/src/presentation-session-projections.ts:76-86 | The facilitator's board and the list give everyone the points of all their responses but for those to the question that is open |
| ShownAnswers.RoomStatusCounts | apps/server/src/presentation-session-projections.ts:252-320 | The room status counts all participants, those connected or seen within 15 000 ms, and the answers to the question on show; the list entry counts alike |
| ShownAnswers.SummaryCountsPicks | apps/server/src/presentation-session-projections.ts:430-497 | A companion gets the number of answers and, choice by choice, of picks of the question on show exactly from the reveal on |
| ShownAnswers.AcceptingExactlyWhenAnswersGetIn | apps/server/src/presentation-session-projections.ts:42-55 | A header carries the session's own times, position and settings, and says that answers are taken exactly when the store would take a first one received at that moment |
| ShownAnswers.OffersAreHonest | apps/server/src/presentation-session-projections.ts:252-320 | The cards offered are exactly those that can be started, and "next" is offered exactly while it leads somewhere |
| FrozenCardRules.OwnerOffersItsCards | apps/server/src/presentation-recovery-pack-cards.ts:14-63 | With content that passes the schema, the current diagnostic of a Pack insertion offers exactly that insertion's cards, from its update if there is one, or none if they are too many, repeated or malformed |
| FrozenCardRules.NobodyElseOffersCards | apps/server/src/presentation-recovery-pack-cards.ts:14-63 | Cards are offered only when enabled, on a main diagnostic question, and by an insertion that names it |
| ReachableRooms.StartedCardIsPlayed | apps/server/src/presentation-recovery-pack-cards.ts:14-75 | In every reachable room in an intervention that names a card, playback finds and shows that very card |
| ReachableRooms.CommittedCardIsPlayed | apps/server/src/presentation-recovery-pack-cards.ts:65-76 | The revision a card command committed shows everyone an intervention with exactly the card and kind it asked for |
| ReachableRooms.ReachableAcknowledgements | apps/server/src/presentation-live-mutation-service.ts:877-911 | The exact agreement of acknowledgement and full snapshot holds in every room concurrent handlers can reach |
| AcknowledgementExample.AcknowledgementAndSnapshotCanDiffer | apps/server/src/presentation-live-mutation-service.ts:877-911 | A reachable room and a stored answer for which acknowledgement and full snapshot differ |
| Reporting.GroupByBlock | apps/server/src/presentation-reporting.ts:56-61 | Each group holds exactly the block's responses, in their order |
| Reporting.CountRecovery | apps/server/src/presentation-reporting.ts:106-119 | One pass counts the eligible and the recovered participants |
| Reporting.GenerateReport | apps/server/src/presentation-reporting.ts:41-160 | A report exists exactly for finished sessions and is the board, evidence and recovery of the whole room |
| Reporting.PointsAreConserved | apps/server/src/presentation-reporting.ts:19-101 | The leaderboard's points, the blocks' total scores and the responses' points have one sum, quick checks included |
| ReachableRooms.ReachablePointsAreConserved | apps/server/src/presentation-reporting.ts:19-101 | That balance holds for every room concurrent handlers can reach |
| Reporting.EvidenceCountsNest | apps/server/src/presentation-reporting.ts:62-101 | Correct ≤ graded ≤ respondents; an accuracy exists exactly when a graded answer does, never for a quick check, lies in 0..100 and is the nearest whole percentage; the average time is the nearest whole number of the exact average |
| Reporting.EvidenceIsOfItsBlock | apps/server/src/presentation-reporting.ts:62-101 | Entry by entry the report counts its own block's right and graded responses and adds up its points and times; a quick check is not assessed |
| Reporting.RecoveriesFollowTheLinks | apps/server/src/presentation-reporting.ts:103-129 | There is one recovery entry per question linked to a recheck, in block order: that question is the source and the linked one the recheck |
| Reporting.VersionTellsWhatTheReportNeeds | apps/server/src/presentation-reporting.ts:130-145 | The schema version is 3 exactly with a quick check, 2 exactly with a shown card and no quick check, and 1 otherwise |
| Reporting.RecoveryCounts | apps/server/src/presentation-reporting.ts:103-129 | Recovered ≤ eligible ≤ participants, percentages in 0..100, and the counters count exactly the participants with a wrong diagnostic and a recheck, and those whose recheck is right |
| FollowupModel.AttemptStore.Commit | packages/db/src/memory.ts:4436-4468 | In place: a known key returns the earlier answer, otherwise the version decides, then one answer per question |
| FollowupModel.AttemptStore.Advance | packages/db/src/memory.ts:4470-4490 | In place: the version fence, then a new command key below the receipt limit, stored with the state |
| FollowupModel.VersionsAndPlacesCorrespond | apps/server/src/followup-service.ts:586-604 | Versions 0 to 2q+n and the places of an attempt correspond one to one |
| FollowupTheorems.VersionIsPosition | apps/server/src/followup-service.ts:636-839 | Under every interleaving version v is always the same place: question i opens at 2i (plus n after the first), its reveal is one later, card j is at 2+j, completion at 2q+n; each version is one legal move from the last |
| FollowupTheorems.FencedAnswersCarryTheOpeningVersion | apps/server/src/followup-service.ts:656-740 | Every stored fenced answer to question i carries exactly the version at which question i opens |
| FollowupTheorems.OneAnswerPerQuestion | packages/db/src/memory.ts:4441-4452 | No question has two stored answers and no key two meanings |
| FollowupTheorems.UntimedCompletionAnswersEverything | apps/server/src/followup-service.ts:675-731 | A completed untimed attempt holds exactly one answer per question, in order |
| FollowupTheorems.TimedQuestionsMeetTheirDeadline | apps/server/src/followup-service.ts:884-904 | In a timed attempt each question left behind was answered no later than its deadline or revealed strictly after it, and stamped with the clock of the request that did so; the deadline is the clock of the request that opened the question, the start for the first and a continue for the others, plus the limit times the multiplier |
| FollowupTheorems.OpeningOf | apps/server/src/followup-service.ts:79-81 | Every question opens at the clock of the request that made its version, which is the starting time for the first, with its deadline counted from there and the multiplier the attempt was started with |
| FollowupTheorems.CompletedByTheClock | apps/server/src/followup-service.ts:815-839 | An attempt carries a completion time exactly when it is complete: the clock of the continue that completed it |
| FollowupTheorems.RequestsOutsideAreRefused | apps/server/src/followup-service.ts:869-882 | A request is refused as unauthorised or unavailable exactly without a good token, when the follow-up is closed, or outside its dates, and changes nothing; so is the look at the attempt that ends it |
| FollowupTheorems.AnswerAloneIsStoredExactly | apps/server/src/followup-service.ts:636-756 | An undisturbed answer to an open question is stored, with the engine's verdict and its own payload, confidence, key, version and time, exactly when it is acceptable; otherwise nothing changes |
| FollowupTheorems.ContinueAloneMovesExactly | apps/server/src/followup-service.ts:758-839 | An undisturbed continue moves the attempt to the place of the next version exactly from a reveal or a card, under a new key and its current version; otherwise nothing changes |
| FollowupTheorems.ResumeAloneRevealsExactly | apps/server/src/followup-service.ts:884-916 | Looking at an attempt reveals its question exactly when the deadline has passed |
| FollowupTheorems.OvertakenRequestsAreStale | apps/server/src/followup-service.ts:822-838 | A fenced answer or continue overtaken by another move is told that it is stale and changes nothing |
| FollowupTheorems.OtherVersionsAreStaleExactly | apps/server/src/followup-service.ts:656-674 | An undisturbed request is told that it is stale exactly when it is new, admissible and fenced by another version |
| FollowupTheorems.EveryCardIsShownOnce | apps/server/src/followup-service.ts:800-814 | In full-sequence mode every card is shown at exactly one version, between the reveal of question 0 and what follows |
| FollowupTheorems.AdvanceKeysCommitOnce | apps/server/src/followup-service.ts:758-839 | A continue command moves the attempt at most once, from the version its receipt names |
| FollowupTheorems.AdvanceRetryAfterCommit | apps/server/src/followup-service.ts:847-855 | A continue retried after its commit gets a snapshot and changes nothing; the same key for another version is refused |
| FollowupTheorems.AdvanceRetryShowsItsCommitOrLater | apps/server/src/followup-service.ts:774-777 | The attempt a retried continue is shown is one the record has had, at the version the continue made or later |
| FollowupTheorems.AnswerRetryAfterCommit | apps/server/src/followup-service.ts:857-867 | A fenced answer retried after its commit gets a snapshot and changes nothing; the same key for anything else is refused |
| FollowupTheorems.AnswerRetryShowsItsRevealOrLater | apps/server/src/followup-service.ts:656-664 | The attempt a retried fenced answer is shown is one the record has had, at that answer's reveal or later |
| FollowupTheorems.UnfencedReplyIsTrueExactlyForNewKeys | apps/server/src/followup-service.ts:727-755 | An unfenced answer's reply is the stored attempt exactly when its key was new or the attempt was revealed from the very version it read |
| FollowupTheorems.ReusedKeyIsSilentlyDropped | packages/db/src/memory.ts:4441-4446 | While a question is open, an unfenced request that reuses a key stored for another question is told of a reveal and nothing is stored |
| FollowupExample.DroppedAnswerIsReachable | apps/server/src/followup-service.ts:727-755 | Such a dropped answer happens in a reachable attempt |
| Csv.ParseCsv | apps/server/src/portability.ts:197-229 | The index loop computes the scanner's result, errors included |
| Csv.ParsePrinted | apps/server/src/portability.ts:68-229 | For every table, parsing the printed text returns exactly the guarded cells with blank rows dropped, or fails exactly when more than 201 rows remain |
| Csv.ParsedRowsHoldText | apps/server/src/portability.ts:197-229 | Whatever text is parsed, the result has at most 201 rows and no blank one |
| Csv.GuardIsUndone | apps/server/src/portability.ts:64-74 | Importing a guarded cell gives the original exactly when the original is not an apostrophe before formula-like text |
| Csv.FormulasAreGuardedExactly | apps/server/src/portability.ts:64-74 | A cell is printed with an apostrophe exactly when its first character past white space is one of = + - @, or its first is a tab or line end; no printed cell is formula-like |
| Csv.ExportImportRoundTrip | apps/server/src/portability.ts:231-235 | Export then import is the identity on the non-blank rows exactly when no cell of them already looks guarded |
| Csv.CheckpointSetCsv | apps/server/src/portability.ts:159-195 | The loop prints the header and one row per checkpoint |
| Csv.CellsStandUnderTheirHeaders | apps/server/src/portability.ts:159-195 | Every cell of an exported row stands under the header that names it |
| Csv.ExportedSetParses | apps/server/src/portability.ts:227-228 | An exported set parses back cell by cell exactly when it has at most 200 checkpoints |
| XmlText.SixPassesAreOneMap | apps/server/src/qti.ts:176-184 | The six successive replacements equal one map over the characters |
| XmlText.DecodingUndoesEscaping | apps/server/src/qti.ts:562-583 | Decoding an escaped text gives the text, for every text |
| XmlText.EscapingIsInjective | apps/server/src/qti.ts:562-583 | Twice escaped text is decoded once only, and different texts never escape alike |
| XmlText.EscapedTextIsInert | apps/server/src/qti.ts:176-184 | Escaped text holds no markup character, and every ampersand in it starts a reference to a permitted character |
| XmlText.NumbersAreDecoded | apps/server/src/qti.ts:562-583 | For every code, its hexadecimal reference in either case and its decimal one decode to that character if XML 1.0 allows it, and fail otherwise |
| Decimals.NormalizeDecimalString | packages/contracts/src/index.ts:868-911 | The three loops compute the normal form, and reject exactly what is no decimal numeral |
| DecimalValues.NormalizingKeepsTheValue | packages/contracts/src/index.ts:868-911 | Normalising succeeds exactly on decimals, keeps their value, and yields no superfluous zero, sign or point |
| DecimalValues.SameTextExactlyForSameValue | packages/contracts/src/index.ts:891-910 | Two decimals normalise to one text exactly when they denote one number |
| DecimalValues.NormalIsFixed | packages/contracts/src/index.ts:868-911 | A normal form is its own normal form |
| DecimalValues.PartsAreExact | apps/server/src/qti.ts:220-227 | Amount and scale of a text denote exactly its value |
| DecimalValues.ScaledDecimalIsExact | apps/server/src/qti.ts:229-235 | A printed scaled integer is the normal form of exactly amount / 10^scale: no trailing zeros, no minus zero, at least one integer digit |
| DecimalValues.BoundsAreExact | apps/server/src/qti.ts:237-247 | The printed bounds denote exactly expected minus and plus tolerance |
| DecimalValues.BoundsAgreeWithTheEngine | packages/game-engine/src/index.ts:933-949 | The engine's integer comparison accepts an answer exactly when it lies between the exported bounds |
| Broadcasts.Scheduler.ScheduleBroadcast | apps/server/src/presentation-realtime.ts:622-643 | In place: what a request does to timers, queue and flight |
| Broadcasts.Scheduler.EndBroadcast | apps/server/src/presentation-realtime.ts:522-600 | In place: what an ended broadcast leaves behind after an empty room or an inconsistent read |
| Broadcasts.Scheduler.Drain | apps/server/src/presentation-realtime.ts:615-619 | In place: the drain loop goes round again exactly if word was left and the service is open |
| Broadcasts.Scheduler.OnFinished | apps/server/src/presentation-realtime.ts:604-620 | In place: the two together, between one broadcast's end and the next one's start |
| Broadcasts.AtMostOneBroadcastRuns | apps/server/src/presentation-realtime.ts:604-620 | After any events no session has two broadcasts running |
| Broadcasts.StartsMeansOneMore | apps/server/src/presentation-realtime.ts:610-615 | An event counts as a start exactly when it begins one broadcast more than it ends |
| Broadcasts.NoBroadcastIsLost | apps/server/src/presentation-realtime.ts:622-643 | A request to an open service is followed by a broadcast that starts with it or later, or by the room being seen empty, deleted or the service closing, or is still waiting |
| Broadcasts.InconsistentBroadcastIsRepeated | apps/server/src/presentation-realtime.ts:453-462 | A broadcast without a consistent projection is followed by another on the same terms |
| Broadcasts.QueuedIsAnsweredByTheNextFinish | apps/server/src/presentation-realtime.ts:606-615 | A request left for a running broadcast is answered by the time that session's next broadcast ends, whatever happens in between |
| Broadcasts.PendingIsAnsweredByTimerAndFinish | apps/server/src/presentation-realtime.ts:636-642 | When a session's timer fires, its request is answered at once or by the end of the broadcast then running, whatever happens in between |
| Broadcasts.WaitingIsTwoEventsFromAStart | apps/server/src/presentation-realtime.ts:604-643 | With no other event between them, the due timer and the end of the running broadcast lead to a start |
| Broadcasts.RequestsCoalesce | apps/server/src/presentation-realtime.ts:604-609 | A second immediate request made while a broadcast runs changes nothing but its time |
| Broadcasts.AnyRequestsCoalesce | apps/server/src/presentation-realtime.ts:604-643 | Any number of requests of any kind made while a broadcast runs start nothing, leave word once and touch only the session's own timer |
| Broadcasts.StepKeepsSpacingExactly | apps/server/src/presentation-realtime.ts:622-643 | In a spaced state a step keeps every timer of the session at least 250 ms after its last recorded broadcast if and only if it is not a due ordinary request meeting a timer due within 250 ms |
| Broadcasts.IntervalHoldsExactlyWithoutCrowding | apps/server/src/presentation-realtime.ts:622-643 | Over every run of a clock that does not go back, timers always keep the interval if and only if no such request ever occurs |
| Broadcasts.FreshStartsAreApart | apps/server/src/presentation-realtime.ts:629-642 | Without such requests, a broadcast begun by a timer or an ordinary request starts at least 250 ms after any earlier one begun by a request or timer, unless the room was cleared in between |
| Broadcasts.SpacingIsNotGuaranteed | apps/server/src/presentation-realtime.ts:629-634 | A run with one such request in which two broadcasts start 10 ms apart |

## Left out

- Handlers are modelled as steps over values rather than as methods on shared objects, so that they can interleave; in-place update is modelled in the store, attempt and scheduler classes.
- The repository in memory is modelled, not the PostgreSQL engine behind the same interface.
- Credentials, tenancy, workspace deletion, retention, audit records, product events and metrics.
- Sessions and attempts of other rooms: one room and one attempt at a time; only the scheduler handles many.
- Explanations, media, card bodies and other text that no rule looks at, and the timeline's sequence numbers and times. A quick check's prompt and labels are one opaque text, compared whole by the command's fingerprint.
- The byte length of inserted content is a yes-or-no input; parsing of library questions is assumed to succeed.
- ResponsePolicy.ScoreIsBounded: is about exact rationals; binary floating-point rounding of the time ratio is not modelled.
- Reporting.EvidenceCountsNest: percentages and averages are exact rationals rounded half up.
- A question with a time limit of zero, which the content schema excludes, is given no remaining time.
- XmlText.DecodingUndoesEscaping: strings are sequences of Unicode scalar values, so unpaired surrogates are not modelled; neither are line-end normalisation and the XML parser around the decoder.
- The choice of follow-up questions from concepts: it may overwrite merged concept keys, and only easy claims are left.
- Starting an attempt again returns the stored one; the model starts from a fresh attempt.
- Version numbers and receipts are unbounded naturals; the 31-bit range check on stored versions is not modelled.
- REST downgrades of reports, legacy submissions without keys, home, library, group, question-health, chat and question-and-answer services.
- JSON, ZIP and QTI documents around the modelled text functions, and the import of a parsed spreadsheet into a draft.
- Transport, rate limits, join buckets and the contents of what a broadcast sends.
