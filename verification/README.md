# Verification of magicite's coordination core

magicite runs a fleet of coding agents over several repositories: a dispatcher puts sessions on
seats, a landing pipeline moves each seat's branch onto an integration branch, an event bus and two
resuming consumers tell users what happens, and a few algorithms and codecs hold this together. This
project models that core in Dafny and proves what tests cannot settle: safety of whole runs,
completeness of searches, round trips, conservation, and exactly when the known limits bite.

Check everything with `dafny verify dfyconfig.toml`.

## How the model is built

Code that changes things step by step is imperative here too: classes with the source's fields,
methods with its loops and branches. Each such method is tied by its contract to a function or a
relation on plain values, and the main theorems are lemmas about those values, over every input,
every run or every reachable state.

| file | source | what it holds |
|---|---|---|
| Text, Decimal, Sorting | standard library | white space, lines, words, decimal numbers, ordered permutations |
| Git, Repo | internal/land | commit graph, refs and runs of atomic commands; the git commands a landing uses |
| Replay, Land, Landing | internal/land | stamping with rollback; the landing pipeline; landings with provenance |
| Stamp, Provenance | internal/stamp | trailer parser and printer; the ten keys and the stamp |
| Dispatch | internal/dispatch | Fleet: live sessions as a value; Dispatch: the dispatcher |
| Bus, Tail, Transport, Delivery | internal/server, internal/cli, internal/tui/transport | ring buffer and subscriptions; resuming consumers; both together |
| Graph | internal/decomp | decomposition graph |
| Ready, Names, Trace, Scanner, Store, Snapshot, Gate | see the table | merge, naming, trace log, NDJSON scanner, handle store, snapshots, review gate |

Landings interleave by rely and guarantee. A run is a list of worlds with the seat and command of
each step; `Git.Step` says what one step may do. Every command method of `Repo.Repository` first lets
any number of steps of other seats happen (`Interfere`: its callers see only its contract, which is
what `Git.OthersKeepRely` proves of other seats' steps) and then takes one step itself. So the
pipeline is verified for every interleaving, and the safety theorems hold of every run.

Each step also appends the command and git's answer to its seat's history, with integration at that
moment and the branch tip afterwards; `Git.LogIsTheRun` proves that this history is what the run says,
and `Git.TallyIsTheLog` that a seat's counts of gates, fast-forwards and conflicts are those of its
commands. The contracts of the pipeline speak about this history: which commands a stage ran and in
what order, which outcome they amount to, that a rollback was refused, which commits this landing
listed for its stamp and where integration was when its fast-forward ran. A refused command, or one
whose answer cannot be read, is noted as not done (`Query(false)` when it left no other trace; `Nothing`
for a commit refused because there was nothing to commit) and counted, so a contract can say that a
stage fails if and only if one of its commands was refused or answered with no.

## Assumptions

- Git: a failed command leaves refs alone; a failed rebase may leave HEAD anywhere; `branch -f` is
  refused while the branch is checked out; `merge --ff-only` moves integration only to a descendant;
  commits are numbered in creation order and listed in that order by `rev-list --reverse`; a rebase
  that succeeds puts the branch on integration and neither adds, reorders nor reattributes commits,
  though it may drop some, and leaves a linear branch linear (of a branch with merges it takes the
  commits in creation order, where git goes by topology); identities are stored without surrounding space; the gate runs on the
  checked-out branch tip. One writer per seat branch.
- Bus: subscriptions have a buffer, as the daemon's do (64, internal/server/server.go:157). A
  subscription without one and without a replay has an unbuffered channel in the source, on which a
  waiting receiver takes the event; the model drops it (internal/server/bus.go:64-75).
- Dispatch: each handler is one step. `FallbackNeedsAtomicHandlers` shows that the seat invariant
  needs this. A runner never returns the handle of a registered session (the handle store guarantees
  it, see `Store.Add`). Releasing a claim succeeds. An explicit seat passed to `Repair` is free: after
  a conflict it is the seat just given up, and a repair asked for by hand takes one that
  `FreeSeat` has just found. The latter asks outside the admission lock
  (internal/daemon/core.go:359-360), so it is free only if no admission comes between;
  `RepairKeepsSeatsExactlyWhenFree` is the exact condition.
- Foreign results (git, the agent runtime, the task store, JSON, quoting, clocks, the file system) are
  parameters or nondeterministic choices. Counters that are 64-bit in the source are natural numbers
  unless the width decides something (`Decimal.Atoi`, `Store.Add`, `Transport.NextSequence`).

## Where the code falls short of its promises

- Stamping is not idempotent for a message whose kept text ends in a carriage return:
  `Stamp.Restamp` is the exact condition, `Stamp.RestampCounterexample` an input.
- A failed stamping restores the branch unless git refuses the rollback. `Replay.StampRange` proves that
  the branch is not at its entry tip if and only if the last four commands of this attempt are: the
  branch moved away, its checkout refused, moving it back refused, and one more checkout
  (`RollbackRefused`, read off the commands and their answers). `Replay.RefusedRollbackExample` is a
  run in which it happens.
- A claimed task is left claimed with nobody on it exactly when a designer's work landed, or when a
  landing conflicted and no repair got as far as claiming: `Dispatch.OrphanedExactly`, with
  `Dispatch.OrphanedByRefusedRepair` as an input.
- A reviewer's fallback notes a second session while the first is tracked, and a review asked for by
  hand notes one without a grant (internal/daemon/core.go:361-363). Noting keeps one review per
  repository exactly when none is in flight there (`Gate.NoteKeepsOneExactlyWhenIdle`) and keeps the
  attempt budget exactly when the epic has an attempt left (`Gate.NoteKeepsBudgetExactlyWithRoom`);
  `Gate.FallbackBreaksBoth` is an input that breaks both.
- A repair by hand can put a second session on a seat when an admission takes the seat first:
  `Dispatch.RepairKeepsSeatsExactlyWhenFree`, and `Dispatch.RepairOnTakenSeat` for an input.
- Taken alone, waves can be empty. On every graph the first wave is empty if and only if every child
  has a dependency that resolves (`Graph.FirstWaveEmptyExactly`); a plan is acyclic if and only if
  neither it nor any part of it has an empty wave (`Graph.AcyclicIffNoPartHasEmptyWave`).
  `Graph.CyclicWavesCounterexample` has an empty wave, `Graph.CyclicWithoutEmptyWave` a cycle and none.
  The check of a plan asks for waves only when no child is in a cycle (internal/decomp/graph.go:183-184),
  and then none is empty (`Graph.NoEmptyWave`).
- The transport subscription covers its stretch exactly when the daemon sends nothing at or below the
  position asked for: `Transport.CoverExactlyWhenAbove`. `Transport.BelowPositionCounterexample` is an
  event below it.
- A torn write loses only itself for a reader, but the next record is appended to the torn text and
  merges with it. `Trace.RecordAfterTornWrite` proves for every prefix of every log that the next
  record reads back if and only if the prefix is empty or ends in a newline;
  `Trace.TornWriteCounterexample` is an input.
- A tail that does not follow is to end with the event that was last, but the daemon reads which one
  that is after subscribing (internal/server/server.go:157-158). It ends if and only if the bus queued
  that event or a later one (`Delivery.FiniteTailEndsExactly`); when the replay fills the buffer and an
  event comes in between, it waits for the next (`Delivery.FiniteTailWaitsExample`).
- A tail that resumes above everything published, as after a restart of the daemon, says nothing about
  the events the bus queues up to that position: `Delivery.NothingUpToPosition` is the other side of
  `Delivery.GapsAreLosses`, and `Delivery.ResumedAboveExample` an input.

## Model

| member | source | states |
|---|---|---|
| Git.AncestorStable | internal/land/fastforward.go:12-14 | new commits never change the ancestry of old ones, on which every later claim about integration rests |
| Git.ChainIsRange | internal/land/replay.go:20-34 | a stack of single-parent commits is exactly what rev-list returns between its base and its tip, in order |
| Git.RangeStable | internal/land/replay.go:20-34 | commits made by others never change what a range lists |
| Git.NoMergesIsLinear | internal/land/rebase.go:39-50 | a merge count of zero means that every commit unique to the branch has at most one parent |
| Git.LinearLater | internal/land/rebase.go:39-50 | a branch found linear stays linear over whatever integration moves on to |
| Git.ReplacedTipIsLinear | internal/land/replay.go:111-129 | amending the tip of a linear branch keeps it linear |
| Git.OthersKeepRely | internal/land/landbranch.go:38-86 | steps of other seats, however many, leave this seat's branch and history alone and only move the world forward |
| Git.LogIsTheRun | internal/land/landbranch.go:38-86 | in every run a seat's history of commands and answers is the run's, entry by entry |
| Git.TallyIsTheLog | internal/land/landbranch.go:38-86 | in every run a seat's counts grow exactly by its gates, fast-forwards and conflicts, so equal counts mean that no gate and no fast-forward ran |
| Git.LastsForward | internal/land/rebase.go:17-37 | over a later integration tip a branch adds part of the same work, in the same order, by the same authors |
| Git.IntegrationOnlyMovesForward | internal/land/fastforward.go:12-14 | in every run integration only moves to descendants and commits are only added |
| Git.PassComesFromGate | internal/land/fastforward.go:22-31 | a recorded gate pass comes from a gate of this landing on this very commit, with no rewrite since |
| Git.EveryTipWasGated | internal/land/fastforward.go:22-62 | in every run each new integration tip is the exact commit the landing seat's gate passed on in that landing |
| Git.LandedStaysLanded | internal/land/landbranch.go:96-107 | in every run whatever a seat landed stays reachable from integration |
| Git.MergedStep | internal/land/fastforward.go:12-14 | an accepted fast-forward puts the seat tip into integration and is an allowed step |
| Git.AddedByFastForward | internal/land/fastforward.go:12-14 | what a fast-forward adds to integration is what the branch had and integration, as its record notes it, had not |
| Repo.Repository.MovedForward | internal/land/landbranch.go:38-86 | whatever a pipeline stage did, the world only moved forward |
| Repo.Repository.RebaseNow | internal/land/rebase.go:17-37 | a rebase that copies every commit in order is one that the assumption about git allows |
| Replay.RefusedRollbackExample | internal/land/replay.go:86-97 | a run in which the branch moves, its checkout fails, the way back is refused, and it stays away from its entry tip |
| Replay.StampHead | internal/land/replay.go:111-129 | an amend keeps parents, author and date; no amend only when the message carries its stamp; a failure changes nothing |
| Replay.ReplayCommits | internal/land/replay.go:131-156 | reads message and identity of every listed commit and reports a change exactly when stamping alters some message |
| Replay.ReplayOne | internal/land/replay.go:58-84 | one pick extends the chain by one commit with the stamped message and the original identity; failures keep the seat |
| Replay.Replay | internal/land/replay.go:58-84 | the loop ends with a chain of new commits on the detached base, one per original, in order |
| Replay.RestoreStamp | internal/land/replay.go:158-169 | exactly the source's commands in its order: a branch that moved is forced back before it is checked out, any other after; it ends at its entry tip unless it had moved and git refused |
| Replay.Publish | internal/land/replay.go:86-97 | the branch moves to the replayed HEAD and is checked out; otherwise it ends away from its entry tip if and only if git refused the rollback |
| Replay.RewrittenRange | internal/land/replay.go:54-99 | a published chain is a linear, stamped copy of the listed range: same commits, order, author and date, message restamped |
| Replay.UnchangedRange | internal/land/replay.go:46-52 | when no message changes the range already is its own stamped copy |
| Replay.StampMany | internal/land/replay.go:46-99 | a range of several commits is stamped as a whole; on an error the branch is at its entry tip if and only if git did not refuse the rollback |
| Replay.StampedWork | internal/land/replay.go:54-99 | stamping neither drops, adds, reorders nor reattributes commits |
| Replay.StampRange | internal/land/replay.go:20-99 | all or nothing: the first command lists the branch, and on success what it listed is stamped as a whole, as linear as before and with the same work; a single commit that git left alone was stamped already; it fails only when a command was refused, with nothing but the rollback after it, and then the branch is at its entry tip if and only if git did not refuse the rollback of this attempt |
| Replay.StampedStable | internal/land/fastforward.go:46-50 | later steps of others and the gate do not undo a stamped range |
| Replay.AmendedIsLinear | internal/land/replay.go:39-45 | stamping the single commit of a linear branch leaves it linear |
| Land.CommitWork | internal/land/commit.go:9-41 | it fails if and only if git refused or left unanswered one of its commands, and then nothing changed; otherwise the worktree was staged and then, as the third command says, there was nothing to commit, or a new commit stands on top of HEAD if and only if integration had the branch when asked, and otherwise one in its place with message and author kept |
| Land.Rebase | internal/land/rebase.go:17-37 | success puts the branch, checked out, on integration with its work in order, none added and no merge if it had none; any failure leaves the branch where it was and is a conflict exactly when git says so |
| Land.CheckLinear | internal/land/rebase.go:39-50 | only a merge count of zero goes on, and then the branch is linear; any other count is a conflict |
| Land.GateAndForward | internal/land/fastforward.go:22-34 | a fast-forward exactly when the gate passed; success means landed on the gated tip; the error is the one the last command stands for |
| Land.LandRebased | internal/land/fastforward.go:22-62 | one gate and fast-forward, and exactly when that diverged one rebase more; then, unless git refused that rebase or the stamp asked for, exactly one more gate and fast-forward, whose divergence is a conflict; success means the gated tip is in integration with the stamp of its last listing and as linear as before |
| Land.LandBranch | internal/land/landbranch.go:38-86 | for every ending: a landing ended at a command that was refused or answered with no, unless its first seven commands are the staging, the question, the record of the worktree or git's answer that there is nothing to commit, the checks, a rebase that succeeded and a merge count of zero; otherwise the gate follows at command k, at once when no stamp was asked for, and when one was unless git refused the stamping; from there one gated fast-forward and, exactly when it diverged, a rebase and, unless git refused it or the stamp, a second; the outcome is read off the commands: landed if the last one is an accepted fast-forward, gate failure if a failed gate, conflict if it diverged again or git spoke of a conflict in a rebase, merge count or pick, failed otherwise. Landed means: the tip its gate passed on, stamped as asked, is in integration, without a merge |
| Land.LandKnown | internal/land/landbranch.go:38-86 | of a seat that is known: on a checked-out branch the verified commit is the work on the old tip or an amend of it, and what the fast-forward adds is what the branch held then, in order and by the same authors |
| Land.OutcomeRead | internal/land/landbranch.go:96-107 | the errors a landing wraps and its history classify it the same way |
| Land.OutcomeExactly | internal/land/landbranch.go:96-107 | landed by an accepted fast-forward alone, a gate failure by a gate alone, a conflict by a diverged fast-forward or by a rebase, merge count or pick in which git spoke of one, failed otherwise |
| Landing.StampedReadsBack | internal/land/landbranch.go:44-49 | every commit of a stamped range parses back to exactly the stamp's trailers |
| Landing.AddedCommitsCarry | internal/land/landbranch.go:44-49 | whatever a stamped branch adds to a later integration tip carries the stamp |
| Landing.StampedCarries | internal/land/landbranch.go:44-49 | a stamped branch adds only commits that carry the stamp, unless it listed exactly one commit |
| Landing.LandBranch | internal/land/landbranch.go:38-86 | end to end: every commit that the fast-forward of this landing added to integration reads back the stamp with the repository's name, when the landing listed none or several commits; of a single one only the message changed, and it reads back the stamp unless git rewrote it |
| Stamp.MessageLines | internal/stamp/message.go:70-86 | the index loop splits into lines that keep their newline |
| Stamp.TrimTrailingBlankLines | internal/stamp/message.go:88-103 | the text without trailing blank lines and without the ending of its last line |
| Stamp.Parse | internal/stamp/message.go:14-22 | collects the trailers of the message, line by line |
| Stamp.Apply | internal/stamp/message.go:25-61 | the whole rewriting loop computes the specified stamped message |
| Stamp.ParseApply | internal/stamp/message.go:14-61 | parsing a stamped message gives the canonical trailers: fixed key order, last non-empty sanitized value per key, for every message |
| Stamp.ApplyKeepsBody | internal/stamp/message.go:25-61 | every line that is not a trailer survives in order, up to trailing blanks |
| Stamp.StampedExactly | internal/stamp/message.go:50-60 | a stamped message ends with one line of key, colon and value per canonical trailer, and before them stands the kept text with one blank line, or nothing |
| Stamp.CanonicalExactly | internal/stamp/message.go:38-56 | a trailer is canonical exactly when its key is known and its value is the sanitized one of the last trailer that gives this key a value; they come in key order |
| Stamp.LineTrailerExactly | internal/stamp/message.go:63-68 | a line is a trailer exactly when, without its ending, it is a known key, a colon with a space, and the value |
| Stamp.ContentExactly | internal/stamp/message.go:63-65 | the ending taken off a line is one newline, one carriage return or both, and no newline is left |
| Stamp.BodyTextIsPrefix | internal/stamp/message.go:88-103 | the kept text is the message without trailers, cut off in front of the ending of its last line that is not blank, and only blanks are cut off |
| Stamp.Restamp | internal/stamp/message.go:25-61 | a second stamp replaces the first if and only if the first was empty or the kept text does not end in a carriage return |
| Stamp.RestampCounterexample | internal/stamp/message.go:100-102 | a body line ending in two carriage returns loses one per pass |
| Stamp.UnchangedIsStamped | internal/land/replay.go:111-118 | a message that stamping leaves alone already carries the canonical trailers |
| Stamp.SanitizeIdempotent | internal/stamp/stamp.go:46-49 | sanitizing twice is sanitizing once |
| Stamp.SanitizeExactly | internal/stamp/stamp.go:46-49 | sanitizing keeps every word, in order, where line breaks and colons count as spaces, and puts single spaces between them |
| Provenance.Trailers | internal/stamp/stamp.go:51-71 | the non-empty sanitized fields in key order |
| Provenance.StampRoundTrip | internal/stamp/stamp.go:51-71 | a stamp's trailers are canonical and are read back from any stamped message |
| Provenance.FieldsReadBack | internal/stamp/stamp.go:51-71 | for every field: its own key carries its sanitized value in any stamped message |
| Provenance.MagiciteValid | internal/stamp/stamp.go:42-44 | the ten keys are distinct and printable, so the codec theorems apply to them |
| Fleet.AddKeepsSeatsExactlyWhenFree | internal/dispatch/spawn.go:89-94 | adding a session keeps seats distinct if and only if its seat is free |
| Fleet.AddKeepsCapsExactlyWithRoom | internal/dispatch/spawn.go:86-88 | adding a session keeps the role caps if and only if its role has room |
| Fleet.NextIsGood | internal/dispatch/outcome.go:15-46 | every handler keeps seats distinct and roles within their caps, including fallback and repair |
| Fleet.EveryRunIsGood | internal/dispatch/spawn.go:72-105 | in every run of handlers live sessions sit on pairwise distinct seats and no role exceeds its cap |
| Fleet.FallbackNeedsAtomicHandlers | internal/dispatch/fallback.go:38-40 | between the removal and the fallback another admission can take the seat, giving two sessions on it |
| Fleet.FollowersRankLower | internal/dispatch/outcome.go:144-161 | whoever a session hands over to ranks strictly lower |
| Fleet.CompletionLowersWeight | internal/dispatch/outcome.go:15-46 | a completion lowers the sum of rank plus one over live sessions |
| Fleet.CascadesEnd | internal/dispatch/outcome.go:15-46 | without admissions no run of completions is longer than that sum |
| Dispatch.FirstFreeIsFree | internal/dispatch/registry.go:82-99 | the seat found is configured and free; none is found exactly when all named seats are taken |
| Dispatch.FirstFreeSeat | internal/dispatch/registry.go:82-99 | the seat found is the first configured one on which no session sits |
| Dispatch.AdmissionExactly | internal/dispatch/spawn.go:72-105 | a session is started exactly when its repository is valid, its task is not for humans, its role has room, there is a seat and it is ready, it was claimed (an epic need not be), and the run started |
| Dispatch.FallbackExactly | internal/dispatch/fallback.go:11-49 | a completion is retried exactly when it did not complete, met a usage limit for the first time, and a fallback model was found and started; which session that is |
| Dispatch.RepairExactly | internal/dispatch/outcome.go:155-161 | a repairer takes over exactly when the work of an implementer or designer conflicted, nobody repairs, and the admission goes through; on that seat and task |
| Dispatch.ReviewExactly | internal/dispatch/outcome.go:117-142 | a reviewer starts exactly when the work of an implementer or repairer landed and its task was closed, the gate named an epic and had a plan for it, it is not for humans, nobody reviews, and a review seat is open, ready and started on |
| Dispatch.ReviewSession | internal/dispatch/spawn.go:37-48 | that reviewer works on the named epic, in the repository of the session, on the first open review seat |
| Dispatch.NobodyElse | internal/dispatch/outcome.go:51-161 | no other session is ever handed over to |
| Dispatch.ClaimsExactly | internal/dispatch/outcome.go:51-161 | for every outcome, whether the claim of a completed session is still held; claims of other tasks stay |
| Dispatch.RepairKeepsSeatsExactlyWhenFree | internal/daemon/core.go:357-360 | a repairer on a seat chosen earlier keeps seats distinct if and only if the seat is still free |
| Dispatch.RepairOnTakenSeat | internal/daemon/core.go:357-360 | an implementer admitted after the search leaves two sessions on the seat |
| Dispatch.SuccessorIsAllowed | internal/dispatch/outcome.go:15-161 | whatever the outcome and the answers, a completion is one of the allowed steps |
| Dispatch.OrphanedExactly | internal/dispatch/outcome.go:105-161 | a claim is left with nobody working on it in exactly two cases |
| Dispatch.OrphanedByRefusedRepair | internal/dispatch/outcome.go:105-161 | an implementer's landing that conflicts, with a refused repair, leaves the claim with nobody |
| Dispatch.Dispatcher.ActiveCount | internal/dispatch/registry.go:55-65 | the loop counts the live sessions of a role |
| Dispatch.Dispatcher.FreeSeat | internal/dispatch/registry.go:82-99 | the first configured seat on which no session of any role sits |
| Dispatch.Dispatcher.Remove | internal/dispatch/registry.go:43-52 | removes and returns one session, or nothing |
| Dispatch.Dispatcher.SetStatus | internal/dispatch/registry.go:129-139 | changes the status of one live session and nothing else |
| Dispatch.Dispatcher.MarkDecomposition | internal/dispatch/registry.go:155-165 | flags one live session and nothing else |
| Dispatch.Dispatcher.Spawn | internal/dispatch/spawn.go:72-181 | admits exactly when valid, not for humans, below the cap, seated, claimed and started; a claim is released when the start fails |
| Dispatch.Dispatcher.Repair | internal/dispatch/spawn.go:28-34 | a repairer on the given seat, marked repairing |
| Dispatch.Dispatcher.Review | internal/dispatch/spawn.go:37-48 | a reviewer on a free seat, without a claim |
| Dispatch.Dispatcher.Dispatch | internal/dispatch/spawn.go:18-25 | an implementer or designer on a free seat of its role; the run stays one of allowed handlers |
| Dispatch.Dispatcher.DispatchRepair | internal/daemon/core.go:357-360 | without an admission in between, a repair by hand starts only on a free repair seat, with the claims of an admission |
| Dispatch.Dispatcher.RepairAt | internal/daemon/core.go:357-360 | a repair by hand on a seat found earlier keeps seats distinct if and only if it starts nothing or the seat is still free |
| Dispatch.Dispatcher.DispatchReview | internal/daemon/core.go:361-363 | a review by hand starts only on a free review seat and claims nothing |
| Dispatch.Dispatcher.FallbackRetry | internal/dispatch/fallback.go:11-49 | one retry on the same seat, exactly when limited, not yet retried and startable |
| Dispatch.Dispatcher.Landed | internal/dispatch/outcome.go:105-142 | designers keep their claim; others release or close it; the sessions are those of `ReviewExactly` and `ReviewSession` |
| Dispatch.Dispatcher.Routed | internal/dispatch/outcome.go:51-98 | the sessions and claims after a completed session are those of `RepairExactly`, `ReviewExactly`, `NobodyElse` and `ClaimsExactly` |
| Dispatch.Dispatcher.OnComplete | internal/dispatch/outcome.go:15-46 | unknown handles change nothing; a live one goes, the sessions and claims become those of the exact lemmas above, the run stays one of allowed steps, and a waiting drain ends exactly when nobody is left |
| Dispatch.Dispatcher.CompleteDrain | internal/dispatch/lifecycle.go:204-214 | closes the drain channel exactly when idle and still open, never twice |
| Dispatch.Dispatcher.HandoffLive | internal/dispatch/lifecycle.go:179-195 | forgets every session, releases exactly the claims of sessions that are not reviewers, ends a waiting drain |
| Dispatch.Dispatcher.Stop | internal/dispatch/lifecycle.go:127-170 | the returned channel is closed exactly when idle or hard; a hard stop forgets every session and releases their claims, a soft one keeps both; repeated soft stops share one channel |
| Dispatch.DrainAll | internal/dispatch/lifecycle.go:127-214 | after a soft stop, whatever completions arrive, the drain channel is closed exactly when nobody is left; who is left is the fold of the completions, and no more of them are of live sessions than the initial weight |
| Dispatch.Dispatcher.ClearFreeze | internal/dispatch/lifecycle.go:107-124 | thaws the dispatcher and leaves a waiting drain waiting |
| Bus.Bus.constructor | internal/server/bus.go:36-46 | a non-positive capacity means 1024 |
| Bus.Bus.Append | internal/server/bus.go:153-162 | the ring holds exactly the last min(capacity, published) events of the log, oldest first |
| Bus.Bus.Publish | internal/server/bus.go:50-84 | the log grows by the event with its own body and time, stamped with the next sequence (`LogIsWhatWasPublished`), and every subscription is offered it (`OfferedExactly`); zero once closed |
| Bus.LogIsWhatWasPublished | internal/server/bus.go:50-84 | in every run the log has one event per publication before the first closing, in order: the body that was given, its time or the clock when it had none, sequence i + 1 and schema 1 |
| Bus.OfferedExactly | internal/server/bus.go:64-75 | a publication is queued by exactly the open subscriptions that hold fewer events than their buffer and counted as dropped by exactly the other open ones |
| Bus.Bus.OfferAll | internal/server/bus.go:64-75 | every open subscription takes or drops the event; the global count grows by the number that were full |
| Bus.Bus.Replay | internal/server/bus.go:164-186 | the modular scan returns exactly the retained events after the position, and the last lost sequence when retention has passed it |
| Bus.Bus.Subscribe | internal/server/bus.go:97-123 | replay first, then live, in a queue that holds at least the replay |
| Bus.OpenedExactly | internal/server/bus.go:97-123 | a new subscription finds queued exactly the events after its position that the ring still holds, learns of a miss exactly when the ring does not hold the first of them, and has room for what it asked for and for its replay |
| Bus.Bus.Receive | internal/server/bus.go:198-200 | events leave in order; a closed stream still delivers what it holds |
| Bus.Bus.Close | internal/server/bus.go:140-151 | closes every subscription once and for all |
| Bus.Bus.Unsubscribe | internal/server/bus.go:217-225 | ends one subscription; repeating it changes nothing |
| Bus.SoundNext | internal/server/bus.go:50-151 | every operation keeps the accounting of every subscription |
| Bus.EveryRunIsSound | internal/server/bus.go:50-151 | in every run each queue, drop count and missed mark accounts for the log, and the global drop count is the sum over all subscriptions ever made |
| Bus.Partition | internal/server/bus.go:97-123 | every sequence after the position is missed, queued or dropped, and only one of these |
| Bus.ReplayNeverDropped | internal/server/bus.go:103-115 | the replay is queued whole, however small the buffer asked for |
| Bus.Conservation | internal/server/bus.go:189-214 | missed, queued and dropped add up to everything offered; open subscriptions cover the whole log |
| Tiling.TilesAscend | internal/cli/tail.go:82-99 | reports ascend and stay inside the stretch they account for |
| Tiling.TilesCover | internal/cli/tail.go:82-99 | every sequence of the stretch lies in exactly one report and no other sequence in any |
| Client.DeliveredAscends | internal/client/client.go:190-230 | one connection delivers strictly increasing sequences |
| Client.IncreasingDelivered | internal/client/client.go:190-230 | a stream of increasing events is delivered whole and ends cleanly |
| Client.ReadExactly | internal/client/client.go:198-229 | delivered are the sequences of the leading frames that follow one another; the end is clean exactly when these are all, and otherwise the first frame that does not follow gives the error code |
| Tail.ReportsTile | internal/cli/tail.go:63-135 | over any number of reconnects, rendered events and reported gaps tile exactly the stretch from the position asked for to the resume position |
| Tail.LiveReportsTile | internal/cli/tail.go:63-135 | a live tail tiles from its first event on |
| Tail.RendersAll | internal/cli/tail.go:82-99 | of one increasing stream every event is rendered and nothing else |
| Tail.Follower.OnEvent | internal/cli/tail.go:82-99 | the callback does exactly the specified step; after a failed write at most the gap before the event is out |
| Tail.Follower.Stream | internal/client/client.go:136-230 | the connection delivers what the client accepts and ends the way the frames say |
| Tail.Connect | internal/cli/tail.go:82-116 | one connection delivers exactly what its frames bring, up to the event at which a write failed, ends as they say, decides the run as `Run` says, and is fruitful exactly when it ended cleanly or rendered something |
| Tail.SeenConcat | internal/cli/tail.go:87-102 | what is rendered depends only on the events delivered, not on how connections divide them |
| Tail.Pause | internal/cli/tail.go:119-133 | reset after a fruitful connection, then the budget, the wait, and the doubling up to 5 s |
| Tail.Run | internal/cli/tail.go:63-135 | over any connections: what was delivered is what their frames bring in order; a run goes on only following, uncancelled, after a clean end or for lack of a daemon; it ends finished only when it does not follow, with an error exactly when a connection that was not cancelled ended otherwise than cleanly without following, or following by a failed write or a code other than unavailable; every other connection reaches the pause, where it ends out of attempts or cancelled; the history of fruitful ones fixes every wait |
| Tail.EndsForReason | internal/cli/tail.go:104-129 | why a run that made its last connection ended, over follow, cancellation and the end of that connection |
| Tail.EndExactly | internal/cli/tail.go:87-103 | a refused connection finds no daemon; any other delivers its leading frames that follow one another and ends cleanly exactly when these are all |
| Tail.FruitExactly | internal/cli/tail.go:82-122 | a connection is fruitful exactly when it ended cleanly or brought an event above the position of the output then, or any event to one that still waits for its first |
| Tail.WaitsExactly | internal/cli/tail.go:119-133 | a wait is 100 ms after a fruitful connection and after the first, otherwise twice the wait before, up to 5 s |
| Tail.BudgetExactly | internal/cli/tail.go:119-126 | the budget is used up exactly when the last connections, as many as it allows, were all fruitless and there was one before them |
| Transport.CoverExactlyWhenAbove | internal/tui/transport/stream.go:63-119 | events and notices tile the stretch to the cursor if and only if nothing at or below the position arrives |
| Transport.BelowPositionCounterexample | internal/tui/transport/stream.go:63-119 | event 3 after position 5 is delivered outside the stretch |
| Transport.MissOnlyFirst | internal/tui/transport/stream.go:83-105 | gaps after the first event are gap notices, never misses |
| Transport.Subscription.OnEvent | internal/tui/transport/stream.go:83-105 | the notice for a gap, then the event; a cancellation leaves the cursor |
| Transport.Subscription.Run | internal/tui/transport/stream.go:63-119 | every event and notice, then one notice about the end, with the cursor at the last event |
| Transport.TerminalExactly | internal/tui/transport/stream.go:112-116 | the last notice for every connection: end of stream when all frames follow one another; otherwise the first that does not decides: out of order a gap, a foreign schema as such, anything else an unavailable daemon |
| Transport.NoticeExactly | internal/tui/transport/stream.go:83-98 | a notice goes before an event exactly when sequences are missing in between, and names them; a miss when nothing had arrived before, otherwise a gap |
| Delivery.GapsAreLosses | internal/server/server.go:139-206 | end to end over one connection, whatever the position asked for: from there to its resume position a tail renders exactly what the bus queued and reports missing exactly what the bus had lost or dropped |
| Delivery.NothingUpToPosition | internal/server/server.go:139-206 | at or below the position asked for, and beyond the resume position, it renders and reports nothing |
| Delivery.ResumedAboveExample | internal/server/server.go:139-206 | a tail resumed after 5 on a new bus is sent its first event and shows nothing |
| Delivery.GapsAreLossesOverReconnects | internal/server/server.go:139-206 | over any number of reconnects to one bus: rendered is exactly what some connection brought above the position it asked for, reported missing exactly what none did |
| Delivery.NotBroughtExactly | internal/server/server.go:139-206 | a connection does not bring an event exactly when the bus had lost it, dropped it, or queued it behind the last one received |
| Delivery.ServeFinite | internal/server/server.go:157-181 | the loop sends up to the first event at or above the one that was last, nothing when the position is there already, and otherwise waits |
| Delivery.FiniteTailEndsExactly | internal/server/server.go:157-181 | a tail that does not follow ends if and only if the bus queued the event that was last or a later one |
| Delivery.FiniteTailAccounts | internal/server/server.go:157-181 | when it ends it has accounted for everything from its position through that event |
| Delivery.FiniteTailReachesLast | internal/server/server.go:157-181 | when nothing was published between subscribing and reading which event was last, it ends with the last event replayed |
| Delivery.FiniteTailWaitsExample | internal/server/server.go:157-181 | 64 replayed events fill the buffer, the next is dropped, and the tail waits |
| Graph.Find | internal/decomp/graph.go:29-36 | the first child with the identifier |
| Graph.InCycle | internal/decomp/graph.go:70-98 | the search with a shared visited set finds a cycle through the child if and only if there is one |
| Graph.AncestorProvides | internal/decomp/graph.go:38-68 | without duplicates, exactly the symbols of everything reachable from the child |
| Graph.DepthSearch.Depth | internal/decomp/graph.go:100-128 | the recursion with its visiting set ends on every graph and restores the set |
| Graph.DepthIsLongestPath | internal/decomp/graph.go:100-128 | on acyclic graphs the depth is the length of the longest resolvable dependency path |
| Graph.DepthsOrderIffAcyclic | internal/decomp/graph.go:100-128 | every child is strictly deeper than its dependencies if and only if the graph is acyclic |
| Graph.Waves | internal/decomp/graph.go:130-140 | each wave counts the children of its depth, and the waves add up to the children |
| Graph.NoEmptyWave | internal/decomp/graph.go:130-140 | on acyclic graphs no wave is empty |
| Graph.FirstWaveEmptyExactly | internal/decomp/graph.go:100-140 | on every graph the first wave is empty if and only if every child has a dependency that resolves |
| Graph.AcyclicIffNoPartHasEmptyWave | internal/decomp/graph.go:100-140 | a plan is acyclic if and only if neither it nor any part of it has an empty wave |
| Graph.CyclicWithoutEmptyWave | internal/decomp/graph.go:130-140 | a child in a cycle beside a free one gives no empty wave |
| Graph.CyclicWavesCounterexample | internal/decomp/graph.go:130-140 | two children in a cycle give an empty first wave |
| Graph.CheckGraph | internal/decomp/graph.go:155-191 | the violations are those of `ViolationsExactly`: the budget, every unsupplied symbol, every child in a cycle and the width, in this order |
| Graph.ViolationsExactly | internal/decomp/graph.go:155-191 | for every violation, rule by rule, when a plan has it: more than 12 children, or fewer than 8 without a recorded verdict, and a median width below 3 without a cycle, both blamed on the lowest identifier; a needed symbol that no dependency offers; a child in a cycle |
| Graph.LowestIsLeast | internal/decomp/graph.go:155-157 | the identifier blamed is that of a child, and no other comes before it |
| Graph.MedianExactly | internal/decomp/graph.go:142-153 | the median is the mean of the widths that stand at the middle position, or at the two of them, by how many widths are below and at most each |
| Graph.CleanPlan | internal/decomp/graph.go:155-191 | a plan without symbol and cycle violations is acyclic and every needed symbol comes from a strictly shallower child |
| Ready.NormalizeReady | internal/dispatch/ready.go:15-29 | an entry is taken exactly when the repository is valid, the task is not blank and the entry names this repository or none; then it has this repository, its task, and its own priority when that is a number, otherwise 2 |
| Ready.NormalizeExactly | internal/dispatch/ready.go:15-29 | the same of the function the queues are specified by |
| Ready.AcceptedExactly | internal/dispatch/ready.go:37-50 | every entry that is taken stands behind those before it that are, in its ready form, and nothing else does |
| Ready.RoundRobin | internal/dispatch/ready.go:58-76 | one priority: every queue's entries in order, fair in every prefix |
| Ready.Collect | internal/dispatch/ready.go:37-50 | the queues hold every accepted entry of every group under its priority |
| Ready.MergeReady | internal/dispatch/ready.go:33-78 | every entry is the ready form of one that some group lists and their numbers ascend; every group's entries of a priority in their order and nothing else, groups taking turns in group order, no group more than one ahead of another that still has entries |
| Ready.MergeUnique | internal/dispatch/ready.go:31-78 | these properties leave exactly one result |
| Ready.MergeConserves | internal/dispatch/ready.go:33-78 | the result is exactly the multiset of valid normalized entries |
| Ready.TakeReady | internal/dispatch/ready.go:81-91 | a fresh slice with at most the first n entries |
| Names.SearchEnds | internal/repo/names.go:40-48 | pigeonhole: the suffix search ends |
| Names.Unused | internal/repo/names.go:39-49 | the stem, or the stem with the least free suffix from two on |
| Names.NameExactly | internal/repo/names.go:39-49 | in full: the stem, or the stem with a dash and the least number from two on that makes it new |
| Names.StemExactly | internal/repo/names.go:25-37 | a root is called by its base name exactly when no other root has the same; otherwise all of these are qualified |
| Names.PathBaseIs | internal/repo/names.go:61-71 | the base name is the part between the last two separators |
| Names.QualifiedIs | internal/repo/names.go:36-38 | a qualified name is the part before the base name, a dash, and the base name |
| Names.QualifiedAtTop | internal/repo/names.go:36-38 | directly under the file system root the separator stands for the part before |
| Names.MakeKeepsName | internal/repo/names.go:50-54 | the blank-name fallback never changes a name chosen here |
| Names.Records | internal/repo/names.go:11-59 | the loops compute the specified records |
| Names.RecordsAscend | internal/repo/names.go:55-58 | names are pairwise distinct and ascend |
| Names.RecordsCover | internal/repo/names.go:11-23 | exactly one record per distinct normalized root |
| Names.OrderDoesNotMatter | internal/repo/names.go:11-59 | the list depends only on which roots are given |
| Trace.Encode | internal/testenv/trace.go:96-103 | sequence and quoted fields joined by tabs and ended by a newline |
| Trace.EncodedExactly | internal/testenv/trace.go:96-103 | split at its tabs, a line is the number, the quoted directory, and every argument quoted, in order |
| Trace.Decode | internal/testenv/trace.go:105-124 | the loop decodes the complete lines and stops at a torn one |
| Trace.DecodeLine | internal/testenv/trace.go:126-144 | one line, with every error case |
| Trace.LineRoundTrip | internal/testenv/trace.go:96-144 | an encoded entry is read back and its line holds no newline |
| Trace.PrefixDecodes | internal/testenv/trace.go:105-124 | any prefix of a log decodes to exactly the entries whose lines are complete |
| Trace.WholeMeans | internal/testenv/trace.go:105-124 | which entries those are: all whose encoding fits, and no further one |
| Trace.LogRoundTrip | internal/testenv/trace.go:96-144 | a whole log decodes to its entries |
| Trace.RecordExtends | internal/testenv/trace.go:22-54 | recording to a complete log adds one entry with the next number |
| Trace.RecordAfterTornWrite | internal/testenv/trace.go:33-52 | for every prefix of every log: the complete entries are read, and the next record reads back after them if and only if the prefix is empty or ends in a newline |
| Trace.TornWriteCounterexample | internal/testenv/trace.go:33-52 | after a lone digit the first record reads back as number eleven |
| Trace.File.Record | internal/testenv/trace.go:22-54 | appends the encoding of the next entry, or nothing when the log is unreadable |
| Scanner.Scanner.Write | internal/agent/opencode/stream.go:78-86 | after any writes the state is one fold over the finished lines and pending is the text after the last newline |
| Scanner.Scanner.Flush | internal/agent/opencode/stream.go:89-98 | consumes the unfinished line, if any |
| Scanner.Scanner.ConsumeCompleteLines | internal/agent/opencode/stream.go:128-143 | consumes exactly the finished lines, in order |
| Scanner.Scanner.Consume | internal/agent/opencode/stream.go:145-164 | one line's effect on session, status and limit |
| Scanner.EventExactly | internal/agent/opencode/stream.go:37-50 | a line is an event exactly when it is not blank, can be decoded and has a kind; its session is the one it names itself, or else the one among its properties |
| Scanner.TerminalExactly | internal/agent/opencode/stream.go:51-58 | a line completes exactly when a step finished with a stop, and fails exactly when a step finished, or a tool ended, with an error |
| Scanner.CompleteConcat | internal/agent/opencode/stream.go:78-86 | only the unfinished line of what came before matters to the lines that follow |
| Scanner.CompleteRestIsText | internal/agent/opencode/stream.go:128-143 | the lines and the rest put together are the text |
| Scanner.ScanChunks | internal/agent/opencode/stream.go:78-98 | every way of cutting a stream into writes, then a flush, ends in the same state with the whole transcript |
| Scanner.StatusMeans | internal/agent/opencode/stream.go:145-164 | failed if and only if some line fails, else completed if and only if some line completes |
| Scanner.SessionIDMeans | internal/agent/opencode/stream.go:145-164 | the session id is the first non-empty one |
| Scanner.LimitedMeans | internal/agent/opencode/stream.go:145-148 | limited if and only if some line describes a usage limit |
| Store.Store.Add | internal/agent/store.go:31-58 | a handle never issued before, not live and not an alias, at the end of the order; its number is the first one from the counter on that makes it so |
| Store.Allocate | internal/agent/store.go:36-52 | the loop takes the first counter value whose name is neither live nor an alias, and fails only when none is left |
| Store.Store.Delete | internal/agent/store.go:84-107 | removes the handle and all its aliases and keeps the order of the others |
| Store.Store.Alias | internal/agent/store.go:120-135 | binds only to a live handle and never to the name of another one |
| Store.Store.Resolve | internal/agent/store.go:138-148 | live handles resolve to themselves and aliases to their live target, without ambiguity |
| Store.Store.Handles | internal/agent/store.go:110-117 | exactly the live handles, without duplicates, in allocation order |
| Store.Store.Get | internal/agent/store.go:61-67 | the state of a live handle, or nothing |
| Store.Store.Update | internal/agent/store.go:70-81 | changes one live state and nothing else |
| Store.NameInjective | internal/agent/store.go:41-43 | different counters give different handles |
| Store.SoundWithout | internal/agent/store.go:84-107 | forgetting a handle keeps order, liveness and aliases consistent |
| Store.Shift | internal/agent/store.go:99-105 | the shift removes the first occurrence and nothing else |
| Snapshot.Cache.Accept | internal/daemon/snapshot_cache.go:42-52 | replaces the value, starts its lifetime, and takes the next generation |
| Snapshot.Cache.Fresh | internal/daemon/snapshot_cache.go:56-65 | the value strictly before its expiry, and only while fresh |
| Snapshot.Merge | internal/daemon/snapshot.go:96-122 | records, failures and successes in requested order, failed reads retained |
| Snapshot.RecordsExactly | internal/daemon/snapshot.go:96-122 | a record is listed exactly when its repository is requested and has this value |
| Snapshot.RecordsInOrder | internal/daemon/snapshot.go:96-122 | records stand in requested order |
| Snapshot.FailuresExactly | internal/daemon/snapshot.go:96-122 | a repository is listed as failed exactly when it is requested and its last outcome is a failure |
| Snapshot.FailuresInOrder | internal/daemon/snapshot.go:96-122 | failures stand in requested order |
| Snapshot.FoundExactly | internal/daemon/snapshot.go:96-102 | the outcome that counts for a repository is the last one about it |
| Snapshot.LatestByRepo | internal/daemon/snapshot.go:124-130 | the map of a record list |
| Snapshot.ByRecordInOrder | internal/daemon/snapshot.go:124-149 | an ordered record list gives back the values it was made from |
| Snapshot.MostRecentGoodRead | internal/daemon/snapshot.go:56-94 | a repository has a value exactly when some refresh read it, and it is that of the last refresh that did |
| Snapshot.Coordinator.Snapshot | internal/daemon/snapshot.go:56-94 | over any run the accepted snapshot holds the most recent good read of every repository in order, and the generation counts refreshes with a success; hits and failures change neither |
| Snapshot.Coordinator.Refreshed | internal/daemon/snapshot.go:69-94 | fresh if and only if some read succeeded; stale if and only if none did and a complete earlier state exists; failures in list order |
| Gate.Gate.DueClosed | internal/gate/due.go:107-122 | grants exactly when no review is in flight, the budget is not used up and a start commit is known |
| Gate.Gate.InFlight | internal/gate/state.go:65-78 | whether some tracked session reviews the repository |
| Gate.Gate.NoteSession | internal/gate/review.go:20-35 | tracks a new handle and takes one attempt, or changes nothing |
| Gate.Gate.CompleteReview | internal/gate/review.go:38-106 | one verdict per tracked handle; approval that closes the epic clears its state |
| Gate.Gate.AbortReview | internal/gate/review.go:53-69 | drops the session and leaves the epic's state |
| Gate.Gate.Clear | internal/gate/state.go:113-124 | forgets attempts, latch, start and sessions of what is covered |
| Gate.Gate.constructor | internal/gate/gate.go:88-121 | a non-positive retry limit means three |
| Gate.KeysDiffer | internal/gate/state.go:12-26 | different repositories or epics never share a key, and only a blank one has none |
| Gate.GrantExactly | internal/gate/due.go:107-122 | a review is granted exactly when no session reviews in the repository, the epic was tried less often than allowed, and a start commit is recorded or can be read |
| Gate.AskExactly | internal/gate/due.go:107-122 | asking records a first start commit when granted and posts the exhaustion comment exactly when nobody reviews there, the budget is used up and it was not posted yet |
| Gate.CompleteExactly | internal/gate/review.go:38-106 | a completed review leaves its session and posts its verdict when the repository is known; what is recorded of an epic is forgotten exactly when it was approved and closed |
| Gate.ClearExactly | internal/gate/state.go:113-124 | a clearing forgets exactly what it covers |
| Gate.NextIsGood | internal/gate/review.go:20-106 | every handler keeps the invariants below |
| Gate.EveryRunIsGood | internal/gate/due.go:107-122 | in every run where each session follows a grant: one review per repository, attempts within budget, one exhaustion comment per clearing, one verdict per session |
| Gate.StartPersists | internal/gate/state.go:96-104 | in every run a recorded start commit stays for good unless a clearing posted after it covers its key |
| Gate.NoteKeepsOneExactlyWhenIdle | internal/dispatch/fallback.go:45-47 | noting a session keeps one review per repository if and only if none is in flight there |
| Gate.NoteKeepsBudgetExactlyWithRoom | internal/dispatch/fallback.go:45-47 | noting a session keeps every epic within its budget if and only if its own has an attempt left |
| Gate.FallbackBreaksBoth | internal/dispatch/fallback.go:45-47 | a reviewer's fallback gives two tracked sessions and exceeds a budget of one |
| Decimal.DigitsInFront | internal/testenv/trace.go:96-134 | digits in front of a printed number make it larger, which is why torn text changes it |
| Decimal.ItoaValue | internal/testenv/trace.go:96-99 | a printed number is read back |
| Decimal.AtoiItoa | internal/dispatch/ready.go:22-26 | so is a 64-bit one with the signed parser |

## Left out

- Repo.Repository.RebaseCommand: the messages of rebased commits and which of them git drops.
- Dispatch.Dispatcher.DispatchRepair: the seat search and the admission are one step here; `RepairAt` is the admission alone, on whatever seat was found earlier.
- Replay.StampHead: git itself writes the trailers of a single-commit range, so the new message is any message; parents, author and date are kept.
- Land.CommitWork: what the worktree contains; only commits and refs are modelled.
- Tail.Run: a live tail that reconnects before its first event asks for live events again; nothing is claimed about what it skips.
- Dispatch.Dispatcher.OnComplete: a panic inside the routing, which the source turns into a terminal failure; metrics, comments and log events.
- Store.Store.Delete: the shift is on a sequence, not on a shared backing array.
- Snapshot.Coordinator.Snapshot: one fixed repository list; deep copying of values, which have no identity here.
- Names.Records: symbolic links and the working directory; normalizing a path is a parameter that is idempotent on its results.
- Graph.CheckGraph: violation texts; the median is computed in reals.
- Process execution, sockets, YAML and JSON decoding, `bd` arguments.
- Resolving a repository, seat and worktree before a landing, beyond the refusal itself.
- The polling tick, epic passes and decomposition verdicts; `Stop` and `ClearFreeze` reset the tick flag by design, so ticks may overlap.
- Goroutine races between the start of a run and its registration.
- Logging of subscriber drops, `Bus.Log` and the projection of log records.
- Server requests on a streaming connection, and concurrent callers of one snapshot refresh.
- Gate plans, diffs, verdict parsing and drift-fix titles.
- Terminal user interface, configuration validation, fixtures other than the trace log.
