# Verified models of the activity service

Dafny models of the stateful cores of the activity service, with proofs of what those cores exist for.
`dafny verify dfyconfig.toml` checks everything. There is one module per component; where the source
mutates objects under a lock the model is a class whose methods are proved against functions on values,
and where coroutines interleave the model is a step system in which every await-free stretch is one step
and any enabled step may come next.

- **Attempt projection** (`AttemptOrder`, `AttemptHistory`, `AttemptProjection`). The lesson's rows in the
  database are the truth and `attempts.jsonl` a cache of them. A file is a version seal with a content, and
  every write makes a fresh seal. Between the numbered points of a projection other processes may commit
  rows, rewrite, remove or obstruct the file; a crash may fall at each point; the sidecar write may fail
  before or after its replace; the database may be put back to any table it once held. Row uuids are fresh
  values, so a row pins the table before it.
- **Attempt recording** (`AttemptRecording`). Any number of `record_attempt` calls, each advancing through
  early replay check, gate, re-check, locked check and transaction, with other processes between.
- **Rate limiter** (`RateWindow`). The sliding-window deque shared by attempts and artifact saves, over
  non-decreasing real clocks.
- **Artifact saves** (`ArtifactSave`). Compare-and-swap saves and run snapshots of one file whose every version
  has a fresh seal, with others editing between the points of a call, failing syncs and crashes.
- **Terminal session** (`TerminalRing`, `TerminalDelivery`, `TerminalWriter`, `TerminalRegistry`). The scrollback
  ring as a class; the pump, the attach section and `close` as one step system; `_write_all` with its parked
  futures as another; the table of live sessions with its cap and idle sweep as a third.
- **Runner service**. `RunnerJob` is one job with its drive coroutine, two readers, cancellation and waiters;
  `RunnerStreaming` adds any number of event-stream readers. `RunnerTable` holds the service's tables and
  the effect of each locked section, `RunnerInvariants` what they keep, `RunnerSystem` adds two-phase
  admission with rate charges, and `RunnerRuns` states the results about whole runs. `RunnerRank` and
  `RunnerPrune` are the retention rule and the list code that computes it. `RunnerService` is the
  service and its job objects as classes, each method proved to do what the table functions say. Job ids are
  numbered in the order of creation, which is also the order of the `_jobs` dictionary.
- **Calendar** (`DayLayout`, `Recurrence`). Day layout on minutes and recurrence expansion on day ordinals.
- **Bundle migration** (`BundleMigration`). Plans, rollback copies, ledger and manifests with a crash after
  every durable write and edits by others in between. SHA-256 is taken as injective.
- **Check-in replay** (`CheckinReplay`). The writers that change tables and append events in one transaction,
  and the replay that rebuilds the tables.
- **Sandbox mounts** (`SandboxMounts`). The argv of the sandbox as an ordered list of mounts in which the last
  mount at or above a path decides what the path shows.

Where the code and its comments differ the model follows the code.

## Model

| member | source | states |
|---|---|---|
| AttemptOrder.OrderBySorts | app/services/attempts.py:549-553 | The ordered SELECT is a permutation of the rows, strictly sorted by (created_at, attempt_id) |
| AttemptOrder.OrderByAscends | app/services/attempts.py:549-553 | In the columns: of two listed rows the first is not stamped later, and has the smaller uuid if the stamps are equal |
| AttemptOrder.SortedIsUnique | app/services/attempts.py:549-553 | That determines the listing, so the file has exactly one right content for a table |
| AttemptOrder.AppendIsReorder | app/services/attempts.py:669-675 | One line at the end equals re-sorting everything if and only if the table was empty or the new row sorts after the recorded tail: the guard of the fast path is exact |
| AttemptOrder.AfterTailIsLatest | app/services/attempts.py:669-675 | In the columns: the key test against the recorded tail passes if and only if every recorded row has an earlier stamp, or the same stamp and a smaller uuid |
| AttemptOrder.RenderedIsChronological | app/services/attempts.py:544-566 | Any listing of the rows by stamp and uuid renders to the one right text |
| AttemptOrder.AppendIsRebuild | app/services/attempts.py:669-713 | When the guard holds, the rendering of the longer table is the old rendering plus one line |
| AttemptHistory.CommitKeepsHistory | app/services/attempts.py:868-899 | A commit under a fresh uuid, in any table the database was ever put back to, keeps every row pinned to the rows before it |
| AttemptHistory.CursorAnchorPinsPrefix | app/services/attempts.py:489-520 | If the cursor row (id, attempt_id) still exists, the rows the file was rendered from are a prefix of the current table, across restores and different regrowth |
| AttemptHistory.AnchorsPinHistory | app/services/attempts.py:489-520 | Both anchors hold if and only if the rendered history is a prefix of the current one (and, rendered empty, the current one is empty) |
| AttemptHistory.UnseenAfterBasis | app/services/attempts.py:662-668 | Then the rows with a larger id than the cursor are exactly the rows the file lacks |
| AttemptHistory.FastPathIsRebuild | app/services/attempts.py:669-730 | The appended line and the advanced cursor are those a full rebuild would have published |
| AttemptProjection.MaxIdIsLast | app/services/attempts.py:555-564 | The largest id met while streaming the sorted listing is the last inserted row |
| AttemptProjection.ProjectionStore.Insert | app/services/attempts.py:868-899 | A committed row, from this or another process and with a stamp that may lie in the past, is added with the next id and keeps every certificate |
| AttemptProjection.ProjectionStore.Restore | app/services/attempts.py:489-520 | Putting the database back to any table it once held keeps every certificate while file and sidecar stay |
| AttemptProjection.ProjectionStore.LoseSidecar | app/services/attempts.py:356-425 | A lost or unreadable sidecar is no certificate |
| AttemptProjection.ProjectionStore.WriteOutside | app/services/attempts.py:328-353 | Any outside write carries a fresh seal, so no sidecar certifies it |
| AttemptProjection.ProjectionStore.Interfere | app/services/attempts.py:652-730 | Any run of commits and outside edits at one interruption point leaves exactly the table and the file those steps make, under fresh seals; it leaves the file alone if it is commits only |
| AttemptProjection.ProjectionStore.WriteState | app/services/attempts.py:426-466 | The sidecar is replaced atomically or not at all, whatever the call then answers, and may only be published for the table its file was rendered from |
| AttemptProjection.ProjectionStore.RenderRows | app/services/attempts.py:555-566 | The streaming loop yields the text, the largest id with its uuid and the last key of the listing |
| AttemptProjection.ProjectionStore.RenderTable | app/services/attempts.py:544-566 | Text and cursor of a rebuild are those of the whole table |
| AttemptProjection.ProjectionStore.Publish | app/services/attempts.py:575-617 | The sidecar is published only if the seal re-check finds the name still carrying the seal of what was written: True means exactly that content, whatever others did before the check, unless they edit between it and the sidecar |
| AttemptProjection.ProjectionStore.Rebuild | app/services/attempts.py:523-617 | A successful rebuild leaves the file equal to the rendering of the table it selected, under a matching sidecar, whatever others did to the file before the last seal check; without faults it succeeds |
| AttemptProjection.ProjectionStore.AppendLine | app/services/attempts.py:669-730 | A successful append leaves the old bytes plus the one line, which is the rendering of the old table plus the new row, whatever others did before the last seal check; undisturbed and sound it appends if and only if the recorded seal is still the file's; a short write leaves exactly the part written and no sidecar that certifies it |
| AttemptProjection.ProjectionStore.CursorMatches | app/services/attempts.py:489-520 | With commits between its two SELECTs, a positive answer still means that the rendered rows are a prefix |
| AttemptProjection.ProjectionStore.PickUnseen | app/services/attempts.py:662-675 | LIMIT 2 and the key test choose: nothing unseen, one row in order, or a rebuild, each if and only if |
| AttemptProjection.ProjectionStore.Consult | app/services/attempts.py:656-675 | What the locked section decides from sidecar, seal and unseen rows is true of the table at that moment; undisturbed it decides exactly as the certified rows and the table demand |
| AttemptProjection.ProjectionStore.UndisturbedChoice | app/services/attempts.py:489-520 | The two anchor checks together hold if and only if the certified rows begin the table and, when there are none, the table is empty; and the key test passes if and only if none of them sorts after the next row |
| AttemptProjection.ProjectionStore.NewestRowIsAppended | app/services/attempts.py:662-675 | Undisturbed, a single new row stamped later than every certified row is appended, and one stamped earlier than some of them goes through the rebuild |
| AttemptProjection.ProjectionStore.TryFastPath | app/services/attempts.py:652-730 | Nothing to do or one appended line leaves the file the rendering of a table of the call, up to edits after the last seal check; undisturbed it takes the way the certified rows and the table demand |
| AttemptProjection.ProjectionStore.ProjectLocked | app/services/attempts.py:652-730 | Whichever path is taken, True means the file is the rendering of a table seen during the call, whatever others did to it before the last seal check of that path; undisturbed the path is the one the table demands |
| AttemptProjection.ProjectionStore.ProjectAttempt | app/services/attempts.py:635-651 | Projection refinement: whenever the projection answers True and nobody edited the file after the last seal check of the path taken, the file is the sorted rendering of a table the lesson had during the call, with every row committed before it began and all rows if none was committed meanwhile; under crashes, busy locks, short writes, backdated stamps, rewrites before and during the call, and restores. Without faults it does answer True, by no write, one line or a rebuild exactly as the table demands |
| AttemptProjection.ProjectionStore.Reconcile | app/services/attempts.py:620-634 | The forced rebuild gives the same guarantee from any state, whatever others did to the file before its last seal check |
| AttemptRecording.Find | app/services/attempts.py:733-747 | The lookup answers a matching row, or none exists |
| AttemptRecording.FindIsUnique | app/services/attempts.py:733-747 | With unique keys the lookup finds the only row there is |
| AttemptRecording.StepKeepsInv | app/services/attempts.py:760-931 | Every step of every concurrent call keeps one row per (lesson, key), rows paired with ledger events, and every answer given true |
| AttemptRecording.RunKeepsInv | app/services/attempts.py:760-931 | Hence in every interleaving of any number of calls |
| AttemptRecording.CommitStep | app/services/attempts.py:866-914 | The insert transaction writes row and event together or collides with the unique index and writes nothing |
| AttemptRecording.KnownKeyIsAnswered | app/services/attempts.py:760-829 | A call whose key was committed before it began is told that attempt if and only if question and page are the same, and a conflict if and only if not; it is never refused and consumes no budget |
| AttemptRecording.AnswersAreTrue | app/services/attempts.py:733-758 | In every run: a call told that an attempt was recorded or is a duplicate finds it under its own lesson, key, question and page; a call told of a conflict finds its key taken by another question or page |
| AttemptRecording.AloneIsExact | app/services/attempts.py:760-914 | A call without others between its steps, from any state: the exact answer, budget, row and event in each case of key, gate and size |
| AttemptRecording.LostRaceIsAnswered | app/services/attempts.py:908-931 | A call whose key was taken before its transaction writes nothing, is answered from the row by question and page, and gets its slot back |
| AttemptRecording.OtherOutcomes | app/services/attempts.py:866-931 | A failed transaction, or a collision without a row, is a storage error; the ledger takes the events of others |
| AttemptRecording.OneWinnerPerKey | app/services/attempts.py:866-914 | Of all calls under one (lesson, key) at most one is told that it recorded the attempt |
| AttemptRecording.BudgetFollowsOutcome | app/services/attempts.py:122-135 | A recorded attempt and a refused new write keep their slot, a replay or conflict holds none, the limiter refusal took none |
| AttemptRecording.CollisionIsAnswered | app/services/attempts.py:908-931 | A lost insert race is answered with the winner and refunded |
| AttemptRecording.RefusalIsCurrent | app/services/attempts.py:786-818 | A gate refusal is reported if and only if at the re-check no row for the key exists |
| AttemptRecording.RowsAndEventsPair | app/services/attempts.py:866-914 | Exactly once: in every run each row has exactly one ledger event carrying its uuid and each attempt event exactly one row |
| AttemptRecording.AttemptTable.InsertWithEvent | app/services/attempts.py:866-899 | The transaction inserts if and only if the key is free, row and event together |
| AttemptRecording.AttemptTable.InsertOrAnswer | app/services/attempts.py:866-931 | Insert with its attempt number, or the except branch: a duplicate if question and page agree, a conflict if not, with a refund |
| AttemptRecording.AttemptTable.RecordLocked | app/services/attempts.py:832-931 | The locked section against a rival commit: the exact result, refund, appended row and attempt number in each case; a duplicate if and only if question and page of the key's row agree, a conflict if and only if not |
| RateWindow.SlidingWindowBound | app/services/attempts.py:105-119 | Spaced stamps bound every window: no closed interval of the window length holds more than the maximum |
| RateWindow.DequeCountsRecent | app/services/attempts.py:109-113 | After popping, the deque length is the number of unrefunded charges in the closed window ending now |
| RateWindow.RetryIsEnough | app/services/attempts.py:114-118 | A caller that waits at least the reported seconds finds a free slot |
| RateWindow.SlotsStayTaken | app/services/attempts.py:114-118 | Until the oldest stamp has left the window no slot is free |
| RateWindow.RetryAfter | app/services/attempts.py:114-118 | The reported whole seconds carry the oldest stamp past the window, and one second less would not, unless one is reported |
| RateWindow.RefundRestoresBudget | app/services/attempts.py:122-135 | Charge then refund leaves the deque as a multiset where it was |
| RateWindow.RemoveAtKeepsSpacing | app/services/attempts.py:122-135 | Removing any stamp keeps order and spacing of the rest |
| RateWindow.ChargeWindow | app/services/attempts.py:105-119 | Grants a slot if and only if fewer than the maximum were charged in the closed window; otherwise the wait it reports suffices and a second less does not |
| RateWindow.RefundWindow | app/services/attempts.py:122-135 | Exactly one slot goes back if the stamp is in the deque, none otherwise |
| RateWindow.RateLimiter.constructor | app/services/attempts.py:64-75 | No lesson has been charged |
| RateWindow.RateLimiter.LimiterBound | app/services/attempts.py:105-135 | What the limiter exists for: in every reachable state, for every lesson, no closed interval of the window length anywhere on the clock holds more unrefunded charges than the maximum |
| RateWindow.RateLimiter.Check | app/services/artifacts.py:99-111 | The same for the per-lesson table under either maximum (20 for attempts, 30 for artifacts); no other lesson is touched |
| RateWindow.RateLimiter.Refund | app/services/artifacts.py:114-123 | Gives back exactly one slot if the stamp is still in the window and nothing otherwise |
| ArtifactSave.ArtifactStore.constructor | app/services/artifacts.py:509-513 | A name without a file |
| ArtifactSave.ArtifactStore.SameBaseTwice | app/services/artifacts.py:529-551 | No lost update: two saves naming the same base are both published only if somebody brought that base back in between |
| ArtifactSave.ArtifactStore.Interfere | app/services/artifacts.py:538-548 | Edits by others add one version each, never a saver's, and leave what the last of them wrote |
| ArtifactSave.ArtifactStore.Open | app/services/artifacts.py:244-292 | The content is read between two checks of the identity; what is returned is the version the name had at the start and still has, and each refusal has its exact condition |
| ArtifactSave.ArtifactStore.Save | app/services/artifacts.py:498-594 | Compare and swap: at most one version is published, directly over the very content the client named and never otherwise; unchanged only if the file held the data, with a refund; and undisturbed the answer is exactly determined |
| ArtifactSave.ArtifactStore.SaveOver | app/services/artifacts.py:404-470 | Over a known content: unchanged, conflict or publication, with the refund for the first alone |
| ArtifactSave.ArtifactStore.Publish | app/services/artifacts.py:537-594 | Only the identity is compared before the replacement, and it suffices: at most one version is published, directly over the content the base names; the answer is exact in terms of that version and the faults |
| ArtifactSave.ArtifactStore.RunSnapshot | app/services/artifacts.py:371-430 | The bytes handed to a run are the current content of the file under the revision asked for; saves nothing |
| TerminalRing.TrimKeepsSuffix | app/terminal.py:426-430 | Dropping whole chunks keeps a suffix ending in the newest chunk, within the bound if that chunk is |
| TerminalRing.TrimIsMaximal | app/terminal.py:426-430 | No more is dropped than must be: with one chunk more the ring would exceed the bound |
| TerminalRing.RememberKeepsSuffix | app/terminal.py:426-430 | Remembering leaves the ring a suffix of the longer history |
| TerminalRing.TrimRing | app/terminal.py:426-430 | The loop computes that trimming and the exact size |
| TerminalRing.TermSession.Remember | app/terminal.py:426-430 | The ring is the newest whole chunks, the stored length its exact size, within the bound for chunks that fit |
| TerminalRing.TermSession.Snapshot | app/terminal.py:432-433 | The snapshot is the suffix of the history the ring holds |
| TerminalRing.TermSession.Reattach | app/terminal.py:918-921 | Snapshot and attach in one stretch: the snapshot is all the ring holds, and with any later output it is the newest bytes of the history, without gap or repetition |
| TerminalRing.TermSession.RemoveWriter | app/terminal.py:460-472 | No registration is left and exactly the registered unresolved future is resolved |
| TerminalRing.TermSession.Detach | app/terminal.py:439-446 | Only the attached socket is let go, and then its parked writer is told to give up |
| TerminalDelivery.StepKeepsInv | app/terminal.py:474-515 | Every step of pump, handlers and close keeps the delivery invariant |
| TerminalDelivery.RunKeepsInv | app/terminal.py:474-515 | Hence every state of every interleaving satisfies it |
| TerminalDelivery.AttachKeepsInv | app/terminal.py:904-922 | Snapshot and attach in one await-free stretch hand over exactly the end of the history |
| TerminalDelivery.SendKeepsInv | app/terminal.py:497-509 | A pump send that completes or breaks off after any number of bytes leaves one slice |
| TerminalDelivery.ReadKeepsInv | app/terminal.py:484-500 | Remember and capture in one stretch: the captured socket owes the chunk, nobody else is touched |
| TerminalDelivery.ContiguousDelivery | app/terminal.py:898-922 | For every socket, over all interleavings, what it was sent is one contiguous slice of the output history, and reaches the end once neither pump nor replay owes it a send |
| TerminalDelivery.AttachStartsAtRetained | app/terminal.py:904-922 | The slice starts at the oldest byte the ring still holds when the socket attaches, and nobody else is attached at that moment |
| TerminalDelivery.SendsAreExclusive | app/terminal.py:411-412 | Replay and pump sends never overlap and at most one handler is in the attach section |
| TerminalDelivery.RingIsBoundedSuffix | app/terminal.py:426-430 | The ring is a suffix of the history in every run and within its bound after every PTY read |
| TerminalDelivery.StepOnlyAppends | app/terminal.py:474-515 | Nothing sent is taken back, a fixed start stays, and only the holder of the send lock can be sending |
| TerminalDelivery.PageGetsIn | app/terminal.py:899-921 | With the section free a page that arrives boots the attached one, is sent all the ring holds, and is attached with both locks free |
| TerminalDelivery.OutputArrives | app/terminal.py:474-516 | Output read while a page is served reaches it whole, and the pump reads on |
| TerminalDelivery.OutputIsKept | app/terminal.py:474-516 | Output nobody is attached for is remembered; what was meant for a page that left is dropped by the pump |
| TerminalDelivery.FailuresLetGo | app/terminal.py:899-935 | However a handler or a send fails, its socket is let go and no lock stays taken |
| TerminalDelivery.DeadPumpStays | app/terminal.py:474-516 | A pump that has ended reads and sends nothing more |
| TerminalWriter.StepKeepsInv | app/terminal.py:733-770 | Every step of writers, fd callback, attach protocol and close keeps the writer invariant |
| TerminalWriter.NobodyIsOverwritten | app/terminal.py:756-762 | When a call parks, no other call is waiting: its registration overwrites none that is needed |
| TerminalWriter.FramesArriveInOrder | app/terminal.py:733-770 | What a call gave the shell is a prefix of its frame in order and once, all of it if it finished, and a call still waiting is registered with both the fd and the session |
| TerminalWriter.BootedWriterGivesUp | app/terminal.py:439-446 | Detaching a socket wakes the write parked for it, which then fails |
| TerminalWriter.ClosedWriterGivesUp | app/terminal.py:517-545 | Closing the session wakes whoever is parked, and that write then fails |
| TerminalWriter.OwnersChange | app/terminal.py:435-446 | A detach lets go its own socket only, an attach makes the page the owner, and a closed session is never written to again |
| TerminalWriter.WritableGoesOn | app/terminal.py:749-770 | A write parked on a full PTY goes on where it stopped as soon as the fd is writable |
| TerminalWriter.FrameGoesThrough | app/terminal.py:733-757 | A frame the PTY takes at once arrives whole and the call finishes |
| TerminalWriter.ReplacedCallFails | app/terminal.py:744-748 | A call whose socket was replaced or session closed fails at its next step without a byte |
| TerminalWriter.BlockedCallWaits | app/terminal.py:749-770 | A call that would block waits on a fresh watched future; without one, or cancelled, it fails and leaves no registration of its own |
| TerminalWriter.OnlyTheOwnerWrites | app/terminal.py:743-751 | Over every run each byte the shell was given went in at a step where the writing call's socket was the attached one and the session open, and it stays where it was put |
| TerminalWriter.SuccessorSurvives | app/terminal.py:763-770 | The cleanup of a woken predecessor leaves the registration of a successor in place |
| TerminalRegistry.StepKeepsInv | app/terminal.py:626-711 | Every step of creators, sweeps, closes and attaches keeps the cap, and the slot a creator found stays free until it inserts |
| TerminalRegistry.CapHolds | app/terminal.py:626-711 | In every run there are never more live sessions than the cap, although creation awaits between check and insertion |
| TerminalRegistry.SweepSpares | app/terminal.py:548-566 | No sweep, forced or not, touches a session that is attached, being attached, or detached for less than the grace |
| TerminalRegistry.SweepTakes | app/terminal.py:548-567 | Session by session what a sweep takes, if and only if: those left alone for an hour, or, forced and without any, the one left alone longest of those past five seconds |
| TerminalRegistry.OnlyUnusedLeave | app/terminal.py:548-567 | A session leaves the table only when closed, or swept while nobody uses it, and at creation only at the cap |
| TerminalRegistry.CreationIsExact | app/terminal.py:612-730 | With room nothing is swept and the creator spawns; at the cap it spawns if and only if some session may go, and is refused otherwise with the table as it was |
| TerminalRegistry.SpawnIsExact | app/terminal.py:612-730 | A spawn adds one fresh unattached session, or fails; either way the next creator may go |
| TerminalRegistry.UseIsExact | app/terminal.py:435-446 | Attaching, detaching and closing change one session, and only who uses it and since when nobody does |
| TerminalRegistry.ForcedSweepFreesOne | app/terminal.py:560-566 | At the cap a forced sweep frees a slot whenever one may be freed, and without stale sessions exactly the one detached longest |
| RunnerJob.Admits | app/runner.py:787-793 | A prefix that never takes the shared count past the cap, and the whole chunk unless the cap is reached |
| RunnerJob.TakeChunkKeepsCap | app/runner.py:787-803 | Counting a chunk keeps the shared cap exact and each accepted stream a prefix |
| RunnerJob.AppendKeepsLog | app/runner.py:826-834 | An appended event keeps the numbering and leaves nobody registered suspended |
| RunnerJob.BeginKeepsInv | app/runner.py:836-844 | The first cause wins: a job that has one is left as it is, one without takes it, and the job invariant is kept |
| RunnerJob.FinishKeepsInv | app/runner.py:858-898 | Finishing happens only terminated, reaped and at both EOFs, and closes the log with the one exit event |
| RunnerJob.StepKeepsInv | app/runner.py:708-824 | Every step of drive, readers, cancellation and waiters keeps the job invariant |
| RunnerJob.StepIsLater | app/runner.py:708-824 | Every step only advances the job: state, first cause, log; a finished job is frozen |
| RunnerJob.Lifecycle | app/runner.py:708-772 | Over any run: states only advance, the first cause is final, events are numbered 1..n, FINISHED means reaped, both EOFs and exactly one exit event, the last; the drive coroutine returns only then |
| RunnerJob.CauseIsTrue | app/runner.py:739-770 | Over any run: the exit code or signal reported is the return code of the process and none other, the cause is something that happened, everything that must end a job has begun its termination, and the exit event repeats the final facts |
| RunnerJob.StepTells | app/runner.py:708-898 | Which steps begin the termination of a job, if and only if, and with what cause |
| RunnerJob.OutputIsDelivered | app/runner.py:774-834 | Over any run the output events of a stream are exactly what was decoded from it, in order, nothing lost, repeated or given to the other stream |
| RunnerJob.PlainRun | app/runner.py:708-772 | A job nobody disturbs can take every step of its protocol and ends finished, with its return code, the decoded tails and its reservation back |
| RunnerJob.TroubledReaders | app/runner.py:774-825 | A stream reader past the cap goes on reading and discarding; one whose stream failed reads no more and ends it without a tail; the other stream is left alone |
| RunnerJob.GivenUpIsForgotten | app/runner.py:614-632 | A wait that is given up leaves nothing behind, and no other wait is touched |
| RunnerJob.OutputCap | app/runner.py:787-810 | Over any interleaving of the two readers output_bytes is min(limit, bytes read), truncated if and only if more was read, and each accepted stream is a prefix |
| RunnerJob.NoLostWakeup | app/runner.py:614-631 | A caller still suspended is registered, and there is neither a newer event nor an end it was not told of |
| RunnerStreaming.EventsAfterIsSuffix | app/runner.py:600-612 | Filtering by number is cutting the log at the cursor |
| RunnerStreaming.StreamStepKeepsInv | app/main.py:1665-1686 | Every step of any number of stream readers keeps what each was sent exact |
| RunnerStreaming.ExactResume | app/main.py:1665-1686 | A reader that came with a cursor is sent exactly the events numbered above it, in order, once each, and has all of them when it stops by itself or stays suspended |
| RunnerStreaming.EveryEventWakesReaders | app/runner.py:913-918 | The next event a suspended reader has not seen resolves its wait |
| RunnerStreaming.DueEventsGoOut | app/main.py:1665-1686 | With events due a poll gets them and the next goes out, and after the exit event nothing more |
| RunnerStreaming.NothingDueSuspends | app/runner.py:614-632 | With nothing due the reader of a finished job stops, and any other is suspended on a future registered for its cursor |
| RunnerStreaming.WaitsAreGivenUp | app/main.py:1665-1686 | Woken, timed out or gone, a reader gives its wait up, and polls again unless it left |
| RunnerRank.NewestFillSlots | app/runner.py:936-941 | Keeping those with fewer than n newer ones keeps exactly min(n, all) |
| RunnerRank.NewestAreNewer | app/runner.py:936-941 | Whatever is dropped is older than everything kept |
| RunnerPrune.TailIsNewest | app/runner.py:936-941 | Dropping the excess from the front of the sorted list keeps the newest |
| RunnerPrune.SortByFinish | app/runner.py:922-926 | The stable sort orders by finish time and then by admission |
| RunnerPrune.Split | app/runner.py:927-939 | Read, expired and unexpired jobs are told apart, the last in order |
| RunnerPrune.ChooseDropped | app/runner.py:920-942 | The list algorithm drops every finished job except those read and the newest unexpired others that fit |
| RunnerInvariants.PruneBoundsTerminal | app/runner.py:920-946 | After pruning no more finished jobs are held than the limit, whatever was held before |
| RunnerInvariants.PruneKeepsIndex | app/runner.py:920-946 | Pruning keeps every retained job named, and every forgotten key settled long enough |
| RunnerInvariants.PruneKeepsInv | app/runner.py:920-946 | Pruning keeps capacity, index, leases and bounds |
| RunnerInvariants.StoredKeepsCapacity | app/runner.py:836-856 | The first cause of a job gives back exactly its own reservation |
| RunnerInvariants.ApplyKeepsInv | app/runner.py:858-898 | A job that moves on, finishing or not, keeps the whole service invariant |
| RunnerInvariants.ReserveKeepsIndex | app/runner.py:505-549 | Without an entry for the key every earlier job under it finished at least the retention time ago |
| RunnerInvariants.ReserveKeepsInv | app/runner.py:541-551 | A fresh admission with room keeps the whole service invariant |
| RunnerInvariants.AttachKeepsInv | app/runner.py:575-588 | A lease granted keeps counts and both reader limits |
| RunnerInvariants.DetachKeepsInv | app/runner.py:590-598 | A lease ended, once, keeps counts and prunes |
| RunnerInvariants.ShutReleasesAll | app/runner.py:656-663 | After the locked section of shutdown no reservation is left |
| RunnerSystem.TableStepKeepsInv | app/runner.py:570-682 | Every service step that is not an admission keeps the service invariant |
| RunnerSystem.EarlyIsRight | app/runner.py:382-398 | A replay names the retained job of the very same request |
| RunnerSystem.SettleKeepsCharges | app/runner.py:566-568 | A call that ends without a job returns its charge once |
| RunnerSystem.GrantKeepsCharges | app/runner.py:528-555 | A fresh admission keeps its charge with its job |
| RunnerSystem.SecondCheckDecides | app/runner.py:500-555 | The second section of admit does exactly what its answer says to tables, refunds and kept charges |
| RunnerSystem.PreflightPermits | app/runner.py:400-426 | A preflight call ends with its answer, or holds a permit with exactly the charge the hook handed out; nothing else changes |
| RunnerSystem.FirstCheckDecides | app/runner.py:428-490 | The first section of admit goes on to the health probe if and only if there is no early answer and the request is well formed; otherwise it ends and gives the permit back |
| RunnerSystem.FailedProbeRefunds | app/runner.py:492-499 | A failed health probe ends the call and gives its charge back |
| RunnerRuns.SysStepKeepsInv | app/runner.py:400-568 | Every step, two-phase admission included, keeps all invariants and only moves the tables forward |
| RunnerRuns.CapacityIsExact | app/runner.py:836-856 | In every run the counters count exactly the jobs without a cause, in total and per lesson, within limits and without zero entries |
| RunnerRuns.ShutdownIsFinal | app/runner.py:656-663 | Once admission has stopped the total stays zero and no job is ever added |
| RunnerRuns.AtMostOncePerWindow | app/runner.py:428-555 | Of two jobs under one (lesson, key) the first had finished at least the retention time before the second was created, with racing two-phase admissions and count-based pruning |
| RunnerRuns.RetainedJobsAreNamed | app/runner.py:382-398 | Every retained job is the one its index entry names, so an identical request replays it |
| RunnerRuns.AdmissionIsExact | app/runner.py:501-555 | Each answer of admit if and only if, in terms of the jobs: repeat, conflict, gone, shutting down, rate limited, lesson busy, runner busy, or a fresh job |
| RunnerRuns.EarlyIsExact | app/runner.py:382-398 | Replay, conflict, job gone and shutting down, each if and only if, in terms of the jobs |
| RunnerRuns.FullIsExact | app/runner.py:533-539 | The capacity answers, each if and only if, in terms of the jobs whose termination has not begun |
| RunnerRuns.PreflightIsExact | app/runner.py:400-426 | Each answer of preflight if and only if, in terms of the jobs: a permit needs a free key, open admission, room in the lesson and in total, and a hook that does not refuse, and holds exactly the hook's charge |
| RunnerRuns.PreflightStep | app/runner.py:400-426 | The same of the step of a running service, which changes nothing but that call, the charge and what pruning drops |
| RunnerRuns.FirstStep | app/runner.py:428-490 | The first section of admit in a running service: on to the health probe if and only if the key is free, admission open and the request well formed, and otherwise the permit goes back |
| RunnerRuns.SecondStep | app/runner.py:500-555 | The second section of admit in a running service: answer and tables, with a fresh job if and only if there is a free key, open admission, a rate slot and room |
| RunnerRuns.SecondStepRefunds | app/runner.py:500-555 | A call refused there for want of room gives back its charge, one just taken included |
| RunnerRuns.AnswersAreRight | app/runner.py:505-555 | An answer names a job of exactly the request asked, and no two calls get the same fresh job |
| RunnerRuns.ChargesAreConserved | app/runner.py:400-568 | Every charge ever handed out is held by exactly one call in progress, or kept by exactly one fresh job, or refunded exactly once |
| RunnerRuns.RetentionIsBounded | app/runner.py:575-598 | Reader counts are the live leases, at most two; a leased job is never pruned; finished jobs held stay within the limit after every step |
| RunnerRuns.PruningKeepsNewest | app/runner.py:927-942 | An unread job is pruned only if it expired or newer ones fill every free place |
| RunnerRuns.JobsLiveByTheirProtocol | app/runner.py:708-898 | Inside the service every job keeps its own invariant and only moves on |
| RunnerRuns.StepsAreTheJobs | app/runner.py:708-898 | A step of a job inside the service is the step of its own protocol and touches no other job |
| RunnerRuns.ShutdownStopsAll | app/runner.py:656-663 | Shutting down stops every job held that has not finished, the first cause staying, and empties both counters |
| RunnerService.JobRecord.constructor | app/runner.py:272-299 | A new job is starting, holds its reservation, and has no events, readers or waiters |
| RunnerService.JobRecord.AppendEvent | app/runner.py:826-834 | An event carrying the next number is appended, the number advances and all waiters are resolved |
| RunnerService.JobRecord.NotifyWaiters | app/runner.py:912-918 | Exactly the registered futures are resolved and the set emptied |
| RunnerService.JobRecord.TakeCause | app/runner.py:836-844 | The job part of beginning a termination |
| RunnerService.JobRecord.Conclude | app/runner.py:865-886 | The job part of finishing: the exit event ends the log |
| RunnerService.JobRecord.CountChunk | app/runner.py:787-803 | The accepted prefix and the shared count are those of the cap |
| RunnerService.JobRecord.ReadChunk | app/runner.py:787-803 | One chunk under the output lock is the job step, and reports overflow |
| RunnerService.JobRecord.Register | app/runner.py:614-628 | A caller is suspended if and only if there is nothing newer and the job is not finished |
| RunnerService.JobRecord.NewerEvents | app/runner.py:606-611 | The loop returns the events above the cursor, in order |
| RunnerService.Service.constructor | app/runner.py:332-367 | A new service has no job, no entry and no reservation |
| RunnerService.Service.ReleaseLocked | app/runner.py:846-856 | One reservation less, and no zero entry left behind |
| RunnerService.Service.BeginTerminationLocked | app/runner.py:836-844 | Only the first cause wins, and it alone releases; one object changes |
| RunnerService.Service.CollectTerminal | app/runner.py:921-926 | The finished retained jobs with their times and reader counts |
| RunnerService.Service.ChooseLocked | app/runner.py:920-942 | The jobs to drop are exactly those that do not stay |
| RunnerService.Service.DropLapsed | app/runner.py:944-946 | Exactly the expired entries of jobs no longer held are popped |
| RunnerService.Service.PruneLocked | app/runner.py:920-946 | The sorted-list code prunes the tables as the rank specification says |
| RunnerService.Service.FinishLocked | app/runner.py:858-898 | Finishing a job object does to the tables what the job step does, expiry and pruning included |
| RunnerService.Service.ReplayLocked | app/runner.py:382-398 | Absent, conflicting, gone or the retained job, in that order |
| RunnerService.Service.EarlyLocked | app/runner.py:505-527 | Replay errors, a replay, then the shutdown refusal |
| RunnerService.Service.RoomLocked | app/runner.py:533-539 | The lesson limit is checked before the global one |
| RunnerService.Service.Preflight | app/runner.py:400-426 | The method answers as the service model says, after pruning, and asks the hook last |
| RunnerService.Service.ReserveLocked | app/runner.py:541-551 | A fresh object, its entry, and one reservation in total and for the lesson |
| RunnerService.Service.AdmitLocked | app/runner.py:503-555 | The whole second section of admit: the answer, the charge given back, and the new tables |
| RunnerService.Service.CountBeingRead | app/runner.py:583-585 | The number of retained jobs with a reader |
| RunnerService.Service.MayRead | app/runner.py:578-587 | Both reader limits |
| RunnerService.Service.AttachReader | app/runner.py:575-588 | Attaching is the step of the service model |
| RunnerService.Service.DetachReader | app/runner.py:590-598 | Detaching is the step of the service model, idempotent per lease |
| RunnerService.Service.EventsAfter | app/runner.py:600-612 | Prunes, then answers the events above the cursor and the state |
| RunnerService.Service.Cancel | app/runner.py:633-644 | Cancelling is the step of the service model: nothing once reaped, exited or finished |
| RunnerService.Service.ShutdownLocked | app/runner.py:656-662 | The loop of single releases ends with every job stopped, counters zero and the lesson table empty |
| DayLayout.BlockOf | app/services/calendar_events.py:183-187 | A timed occurrence is drawn from its start to its end if that is later, and for half an hour otherwise |
| DayLayout.TimedBlocksAre | app/services/calendar_events.py:182-187 | The blocks are the timed occurrences, each as often as given, drawn as given |
| DayLayout.SortedBlocks | app/services/calendar_events.py:182-188 | The sorted list is a permutation of the timed input in key order |
| DayLayout.Cluster | app/services/calendar_events.py:190-203 | The loop cuts the list into consecutive non-empty ranges, a new one exactly where every earlier block has ended |
| DayLayout.ClustersAreComponents | app/services/calendar_events.py:190-203 | Two blocks share a cluster if and only if a walk of overlapping blocks links them |
| DayLayout.BoundarySeparates | app/services/calendar_events.py:190-203 | Across a cluster boundary nothing overlaps |
| DayLayout.FirstFree | app/services/calendar_events.py:209-211 | The leftmost column whose last block has ended, or a new one |
| DayLayout.DepthWithinColumns | app/services/calendar_events.py:205-216 | No proper column assignment uses fewer columns than blocks are alive at one instant |
| DayLayout.NewColumnIsNeeded | app/services/calendar_events.py:209-212 | A column is opened only when one block of every column and the next block are alive together |
| DayLayout.AssignColumns | app/services/calendar_events.py:205-216 | Greedy first fit: overlapping blocks never share a column, each stands leftmost, and the number of columns is the maximum alive at one instant |
| DayLayout.Place | app/services/calendar_events.py:217-220 | A column is drawn inside the cluster |
| DayLayout.ColumnsFill | app/services/calendar_events.py:217-220 | The columns of a cluster are equally wide, fill the grid and stand in order |
| DayLayout.ColumnsAreDisjoint | app/services/calendar_events.py:217-220 | Different columns of one cluster are drawn side by side |
| DayLayout.DrawCluster | app/services/calendar_events.py:206-220 | Every block of a cluster is placed once, with the common number of columns |
| DayLayout.LayoutClusters | app/services/calendar_events.py:176-221 | Sorted blocks, cuts and columns fit together: every cluster is laid out properly and as narrow as possible |
| DayLayout.LayoutDay | app/services/calendar_events.py:176-221 | In terms of input and result only: each timed occurrence once, from its start to its later end or for half an hour, by start and end; every event in one of exactly as many columns as its connected component has events alive at its busiest minute; any two occurrences that share a minute at equal width side by side |
| DayLayout.NoLayoutIsNarrower | app/services/calendar_events.py:205-220 | Optimality: no column assignment that keeps overlapping events of the component apart has fewer columns |
| DayLayout.OverlapsAreApart | app/services/calendar_events.py:176-221 | Any two overlapping events of a finished layout share their number of columns and stand side by side in different ones |
| Recurrence.WeeklyRepeats | app/services/calendar_events.py:84-90 | The weekly rule repeats after interval weeks and not by calendar accident |
| Recurrence.DailyDays | app/services/calendar_events.py:76-90 | A daily series falls on its start and every interval-th day after it, inside its span and not skipped, and on no other day |
| Recurrence.OnceDays | app/services/calendar_events.py:76-90 | A one-off falls on its start alone |
| Recurrence.WeekdaysRun | app/services/calendar_events.py:84-90 | Weekdays run on from Monday, which ordinal 1 was |
| Recurrence.WeeklyDays | app/services/calendar_events.py:84-90 | A weekly series falls on the flagged weekdays of every interval-th week from the week of its start, and on no other day |
| Recurrence.AscendingIsChronological | app/services/calendar_events.py:143-145 | The sort key in its fields: day, all-day before timed, time, event |
| Recurrence.AscendingIsUnique | app/services/calendar_events.py:143-145 | The key order and membership determine the list |
| Recurrence.WindowsCompose | app/services/calendar_events.py:118-145 | The expansion of a window is that of its first part followed by that of the rest |
| Recurrence.WalkDays | app/services/calendar_events.py:136-142 | The day walk of one row adds exactly its occurrences in the window, and overflows if and only if the window ends on the last calendar day |
| Recurrence.OccurrencesBetween | app/services/calendar_events.py:118-145 | Despite the row prefilter the answer is exactly the (series, day) pairs of live series in the window, strictly sorted by day, all-day first, time and event; it fails if and only if the window ends on 9999-12-31 and some row is walked |
| Recurrence.LastDayOverflows | app/services/calendar_events.py:118-145 | A daily row without end has one occurrence on 9999-12-31, and asking for that day alone fails |
| Recurrence.EventTable.Skip | app/services/calendar_events.py:398-415 | A successful skip takes away exactly one pair; refusals change nothing |
| Recurrence.EventTable.Unskip | app/services/calendar_events.py:418-433 | Unskip takes the exclusion back and touches no other pair |
| Recurrence.EventTable.SkipThenUnskip | app/services/calendar_events.py:398-433 | Skip and unskip together restore the table |
| BundleMigration.RollbackOf | scripts/migrate_bundles.py:513-571 | For any ledger: a manifest becomes its copy if some entry recognises its bytes as migrated, and is left alone otherwise |
| BundleMigration.RollbackResumes | scripts/migrate_bundles.py:513-571 | A rollback cut short at any entry and started over ends where an uninterrupted one does |
| BundleMigration.RollbackIsIdempotent | scripts/migrate_bundles.py:513-571 | A second rollback changes nothing |
| BundleMigration.CopyKeepsSafe | scripts/migrate_bundles.py:472-476 | The rollback copy comes first and keeps every bundle restorable |
| BundleMigration.RecordKeepsSafe | scripts/migrate_bundles.py:472-487 | The ledger entry of a plan, written over its copy and before the manifest is touched, keeps every bundle at old or recorded planned bytes and restorable |
| BundleMigration.PublishKeepsSafe | scripts/migrate_bundles.py:489-490 | Replacing the manifest by the new bytes of a recorded plan keeps that |
| BundleMigration.CrashLeavesOldOrPlanned | scripts/migrate_bundles.py:445-511 | A crash at any point leaves an unedited manifest with its old bytes, or with the new bytes of a recorded plan made from exactly those old bytes, which its copy holds and its ledger entry names |
| BundleMigration.RollbackRestores | scripts/migrate_bundles.py:513-571 | After a crash at any point rollback gives every unedited bundle its exact bytes of planning time |
| BundleMigration.RollbackSparesEdits | scripts/migrate_bundles.py:557-570 | A manifest edited since migration is never overwritten |
| BundleMigration.Migration.constructor | scripts/migrate_bundles.py:629-645 | A fresh rollback directory with an empty ledger |
| BundleMigration.Migration.RestoreEntry | scripts/migrate_bundles.py:527-570 | One entry is refused if and only if its copy is bad or the manifest holds neither the old nor the migrated bytes |
| BundleMigration.Migration.RecordPlan | scripts/migrate_bundles.py:472-487 | Copy, then ledger entry, crash-safe after each; the manifest still holds its old bytes |
| BundleMigration.Migration.ApplyPlan | scripts/migrate_bundles.py:445-511 | One bundle: refused if and only if unsafe or stale, done only with new bytes, copy and ledger entry in place, and undisturbed done if and only if not refused and the later checks pass; crash-safe after each durable write, recording nothing but this plan |
| BundleMigration.Migration.TakePlan | scripts/migrate_bundles.py:647-692 | One round of the loop: undisturbed it fails if and only if the plan is a stop, its row or manifest is stale, the bundle is unsafe or a later check fails |
| BundleMigration.RunLeavesOldOrNew | scripts/migrate_bundles.py:647-692 | With only migrations of these plans recorded, every unedited manifest holds its old bytes or the new bytes of one of them |
| BundleMigration.Migration.Run | scripts/migrate_bundles.py:647-692 | At the end and at every crash each unedited manifest holds its old bytes or the new bytes of one of these plans made from those old bytes, with copy and ledger entry to undo it; success means every migration took effect, and an undisturbed run over one plan per bundle succeeds if and only if every plan says so beforehand |
| BundleMigration.Migration.Rollback | scripts/migrate_bundles.py:513-571 | The rollback loop computes that restoration and counts exactly the entries that cannot be restored at their turn; exit status zero means every recorded bundle is back, and for one entry a bundle holds if and only if each held its old or migrated bytes beforehand with its copy intact |
| BundleMigration.FailuresBeforehand | scripts/migrate_bundles.py:513-571 | With one entry a bundle the failures can be told before the rollback begins |
| CheckinReplay.ReplayConcat | scripts/restore_from_export.py:334-351 | Replaying a stream is replaying its parts in order |
| CheckinReplay.Restore | scripts/restore_from_export.py:318-358 | The restore loop is that replay, and keeps the events |
| CheckinReplay.Activity.SeedIfEmpty | app/services/checkins.py:32-52 | Seeds exactly the fixed habits into an empty table, in order, with exactly their creation events, and nothing otherwise |
| CheckinReplay.Activity.UpsertCheckin | app/services/checkins.py:118-167 | Every error case, and otherwise the exact new row and one event that replays to it |
| CheckinReplay.Activity.ClearCheckin | app/services/checkins.py:170-186 | Removes the row, with one event if and only if there was one |
| CheckinReplay.Activity.ApplyStatus | app/services/checkins.py:189-202 | Tapping the selected status clears it, any other is set; the exact new rows, and one event with its exact content unless the item is unknown |
| CheckinReplay.Activity.UpsertDailyNote | app/services/checkins.py:205-226 | The note is replaced, with one event |
| CheckinReplay.Activity.ExportAndRestore | scripts/restore_from_export.py:119-251 | Round trip: after any run of the writers, replaying the stream into empty tables never fails and yields the same items, check-ins and notes |
| CheckinReplay.Activity.TapTwice | app/services/checkins.py:189-202 | Two equal taps restore the tables if and only if there was no check-in, or it had that status and no note; a check-in with another status is gone after them, and a note is lost |
| CheckinReplay.PrefixReplays | scripts/restore_from_export.py:334-351 | Every prefix of a replayable stream is replayable |
| SandboxMounts.Dedup | app/sandbox.py:279-284 | The de-duplicated roots are exactly the given ones |
| SandboxMounts.BuildSandboxMounts | app/sandbox.py:247-377 | The refusals in their order, or the mounts in argv order |
| SandboxMounts.RefusalIsExact | app/sandbox.py:160-312 | A plan is built if and only if the bundle lies properly below a clean root, the private root properly above it, masks are clean and below the root, and cache, snapshot and name are as the profile demands |
| SandboxMounts.RootsAreBlank | app/sandbox.py:351-364 | Skipped masks are covered: under any mask root everything is blank before the bundle is bound |
| SandboxMounts.BlankWithoutMask | app/sandbox.py:226-244 | A root that needs no mask is blank already |
| SandboxMounts.EveryMaskIsNeeded | app/sandbox.py:226-244 | Below a root that does get a mask something other than a blank would show without it |
| SandboxMounts.MaskIsEmitted | app/sandbox.py:355-364 | A root whose mask is not skipped has its tmpfs |
| SandboxMounts.MaskedPathsAreBlank | app/sandbox.py:279-364 | For learner and runner every path under a mask root, outside bundle and snapshot, shows a tmpfs |
| SandboxMounts.BundleIsVisible | app/sandbox.py:366-376 | Every bundle path outside the snapshot shows the bundle bind, whatever was masked |
| SandboxMounts.MasksHideOnlyRoots | app/sandbox.py:351-364 | Outside the roots the plan is the one without masks |
| SandboxMounts.RunnerMasksAvoidBundle | app/sandbox.py:285-292 | A runner with a mask inside its bundle is refused, so none of its masks is |
| SandboxMounts.WritableBindsAreTheBundle | app/sandbox.py:297-377 | A learner can write through a bind only inside its bundle, a runner through none |
| SandboxMounts.AgentHomeIsExact | app/sandbox.py:119-148 | An agent's home is blank but for two writable Go caches and the listed read-only tools and files; outside home and bundle it can write through no bind |

## Findings

| what the proofs showed | source | member |
|---|---|---|
| `occurrences_between` raises on a window that ends on 9999-12-31 if and only if some row passes the row prefilter, because the day counter is advanced once past the window | app/services/calendar_events.py:136-142 | `Recurrence.OccurrencesBetween`; one input in `Recurrence.LastDayOverflows` |
| In `layout_day` the variable `cur_end` is not reset when a cluster is closed; it makes no difference, because a new cluster opens only when every earlier block has ended | app/services/calendar_events.py:190-203 | `DayLayout.Cluster` |
| Two equal taps do not always undo each other: a check-in with another status is cleared by the second tap, and a note is lost | app/services/checkins.py:189-202 | `CheckinReplay.Activity.TapTwice` |
| The first attempt of a lesson is always projected by a rebuild, since a cursor of an empty rendering anchors an empty table only | app/services/attempts.py:489-520 | `AttemptProjection.ProjectionStore.TryFastPath` |

## Left out

- Block resolution, directory walks and temporary names of `app/services/artifacts.py`: a save is eligible or not, and its directories can be opened.
- Roles, workspaces, sandboxing, window size and control frames of the terminal; the session table, the delivery and the writers are separate step systems, joined only by what they share (the attached socket and the attach lock).
- HTTP routes, templates, security middleware, and everything in `app/main.py` except the event-stream loop.
- The UTF-8 decoder: the text of an output event is an arbitrary string, and no event is appended when it is empty.
- JSON text and line splitting: events, rows and ledger entries are records; `splitlines()` in `scripts/restore_from_export.py` splits on more than newlines, so a text round trip is not claimed.
- Timestamps and autoincrement ids of check-ins and notes in the replay round trip, and every item writer other than the seed.
- Manifest eligibility, question lists, page digests and the stale flag of an attempt: inputs or refusals chosen freely.
- Real processes, PTYs, bubblewrap, systemd, `flock` and `fsync`: spawn failure, EOF, exit, lock busy and crash are free choices; that a killed process dies is not claimed.
- Spans between an identity check and the replacement or append it guards count as one step: a rewrite inside such a span is not something the code claims to see. This covers the `before` fstat to `written_st` of an append, and the stale-plan guard to the manifest replacement of a migration.
- Cancellation of the drive coroutine outside its wait for the process, and cancellation of a terminal handler inside a send; locks are never waited for cancellably, because no locked section of the runner awaits.
- Monotonic clocks with the value zero, which `or 0` and `or now` in `_prune_locked` would confuse with a missing one.
- Exceptions of the rate hook itself, a service with a rate hook but no refund hook, and `charge_validation_refusal`.
- `_notify_finish` and the finish hook: it only wakes waiters of a job that has none left.
- The number of jobs being terminated: their reservations are gone, so no limit bounds them and none is claimed.
- RunnerService.JobRecord.constructor: the spawned process object, the scope unit and the snapshot bytes are not part of a job.
- RunnerService.Service.AdmitLocked: the drive coroutine it starts is a step of `RunnerJob`, and the first section and the health probe between the two are steps of `RunnerSystem`.
- RunnerStreaming.ExactResume: the keep-alive comments between events are not part of what is emitted.
- DayLayout.SortedBlocks: the relative order of blocks with equal start and end is not stated, and the layout results do not depend on it.
- SandboxMounts.BuildSandboxMounts: paths that begin with two slashes, which `pathlib` keeps apart, the argv options that mount nothing, and optional binds whose source is missing.
- BundleMigration.Migration.Run: planning itself, the reading back of the manifest and the page hashes beyond a flag for either failing, and bundles without a database row.
