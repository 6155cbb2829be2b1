# Hellbox: a verified model

Hellbox is an unattended disc ripper. A Go daemon (`hellboxd`) watches optical drives, rips and
transcodes what is put into them, and publishes what happens as an event stream. A Rails
application (`slay`) follows that stream, identifies the discs, and files the results into a media
library as hardlinks. This project models the protocols between those pieces and proves what they
promise, for every input, every interleaving and every run.

`dafny verify dfyconfig.toml` checks the whole project.

| file | what it models |
|---|---|
| `Hub.dfy` | the event hub: a 4096-slot ring refining an unbounded log, and fanout into 256-slot buffers |
| `Release.dfy` | publishing against releasing, goroutine by goroutine |
| `EventStream.dfy` | any number of stream handlers over one hub, and the bridge across reconnects |
| `Sse.dfy` | the Server-Sent Events printer (Go) and incremental parser (Ruby) |
| `Ingest.dfy` | events into catalog rows, with crashes and repeats |
| `Catalog.dfy` | hub, stream, bridge and ingest in one machine |
| `RipStore.dfy`, `RipJobs.dfy` | the discs and jobs tables, and N workers sharing one slot and an attempt cap |
| `Worker.dfy` | one worker from insertion to its ending: an open tray means success |
| `Transcode.dfy` | the transcode queue and its attempt budget |
| `Filing.dfy`, `Confluence.dfy`, `Library.dfy` | filing and unfiling over an abstract filesystem, and encodes finishing in between |
| `Naming.dfy`, `Roles.dfy` | library names, when two titles want the same one, and which title is the film |
| `Identify.dfy` | merging identification proposals and confirming a disc with nobody looking |
| `Fingerprint.dfy`, `Sorting.dfy` | the text a disc's fingerprint hashes, and Blu-ray content |
| `Robot.dfy` | the quoted-field parser for MakeMKV's robot output |
| `Monitor.dfy` | the drive-state debouncer |
| `Text.dfy` | separators and decimal numbers |

Where the code works by changing things step by step, so does the model: the hub, the stream
parser, the transcode store, the drive worker, the filing services and the bridge are classes with
the code's own fields, and each method is proved against a function of the old state. Protocols
that interleave several parties are state machines (`Apply`/`Exec`) whose theorems hold for every
sequence of steps. The outside world (scans, ffmpeg, clocks, cancellation, crashes) comes in as
arbitrary parameters and actions.

## What the proofs found

Ten promises do not hold for every input. Each has a theorem that says exactly when the code keeps
it, and where the failure takes a whole run to show, a lemma that builds the run.

* **A resume id ahead of the hub silences a stream.** Event ids restart with the daemon while the
  bridge's cursor does not, and `Since` calls such an id complete (`EventStream.ResumeAheadRun`).
  With nothing dropped, everything published after the replay is written if and only if the resume
  id was not ahead of the hub, or nothing was published (`EventStream.ResumeAheadSilences`).
* **The bridge can skip events the ring still holds.** It advances its cursor to the reconcile
  frame's `last_event_id` before it has taken the replay that follows, so losing the connection in
  the middle of that replay skips the rest with no further notice
  (`EventStream.HastyBridgeSkipsHeldEvents`). In every run, there is no unannounced gap if and only if
  it never took an event, with no reconcile frame before it, first on a stream opened from elsewhere
  than the last id taken, or on a stream that had dropped the id in between
  (`EventStream.GaplessIff`).
* **An event the bridge died on can be given up half applied** (`Catalog.GivenUpStays`): it is
  evicted while the bridge is away, and the catalog keeps its saves. In every run the catalog is that
  of the events taken, each once, and of the saves of the events given up
  (`Catalog.CatalogIsAccountedFor`).
* **Re-queuing a title while it is being encoded, then restarting, loses its attempts**
  (`Transcode.RequeueWhileRunningStrands`): the row ends up pending, out of budget, and never
  encoded. `Transcode.LeakFreeIff` names the steps that lose an attempt, `Transcode.ClaimableIff` says
  when a pending row can still be claimed; both are exact.
* **An unreadable attempt count counts as zero**, so the cap can be passed
  (`RipJobs.UnreadableCountPassesTheCap`): a disc stays within it throughout if and only if no job was
  opened for it at the cap on such a count (`RipJobs.CapKeptIff`).
* **Encoding a filed title again breaks confluence** (`Confluence.ReencodeBreaksConfluence`): the new
  file is renamed over the old one, the library keeps the old one, and the title is in conflict from
  then on. So does an encode that brings back a recorded file after the title was filed from its
  mirror, though it replaces nothing (`Confluence.BringingBackBreaksConfluence`). The order of runs and
  encodes does not show if and only if no encode does either (`Confluence.ConfluentIff`,
  `Confluence.NamesConfluentIff`).
* **A stale placement stops a run half way** (`Confluence.StaleClaimBreaksConfluence`): placement paths
  are unique, and a second row for one raises out of the whole run after the file was linked. A run
  raises exactly when `Filing.RaisesIff` says. Running again is safe even then
  (`Filing.FilingIsIdempotent`), but unfiling leaves that link behind (`Library.UnfileUndoesFile`).
* **Titles without an ASCII letter or digit are all one title** (`Identify.WordlessTitlesMerge`): the
  normal form keeps nothing of them, so a disc can be confirmed as another such film. Two titles are
  taken for one if and only if their ASCII words are the same (`Identify.SameTitleIff`).
* **A carriage return at the end of a line is eaten, and several data lines run together**, so a
  frame survives the printer and the parser if and only if its body is one line and no part ends in
  a carriage return (`Sse.FaithfulIff`). JSON bodies meet this.
* **A backslash before a quote is ambiguous in robot output**: a list of fields comes back if and
  only if no field has a backslash directly before a quote or at its end (`Robot.SplitJoinedIff`).

Three smaller ones: an unnamed extra with index 5 and an extra named `t05` are sent to one path
(`Naming.LeafClashIff`), a film named `Dune (1984)` with no year set is sent to the path of `Dune` of
1984 (`Naming.YearInTheNameClashes`), and a drive read as Unknown that then fails to be read at all
is never reported as failing (`Monitor.FailureReported`).

## Model

| member | source | states |
|---|---|---|
| `Hub.Hub.Append` | internal/api/hub.go:105-113 | the ring, wrapped or not, holds exactly the newest 4096 (or fewer) events of a log that never forgets, in order |
| `Hub.Hub.Publish` | internal/api/hub.go:87-102 | the next id, one more log entry, and every subscriber (no one else) offered the event |
| `Hub.Hub.FanOut` | internal/api/hub.go:95-100 | whatever the order of the subscribers, each is offered the event once and no send is on a closed channel |
| `Hub.Hub.Since` | internal/api/hub.go:129-149 | the held events above the id, and the completeness flag, both as functions of the whole log |
| `Hub.Hub.LastID` | internal/api/hub.go:116-120 | the number of events ever published |
| `Hub.Hub.Subscribe` | internal/api/hub.go:166-171 | a channel never seen before, empty and open, is among the subscribers |
| `Hub.Hub.Release` | internal/api/hub.go:173-181 | releasing twice is releasing once: out of the subscribers, closed, buffer untouched |
| `Hub.RingStep` | internal/api/hub.go:110-112 | overwriting the oldest slot and moving the start on is dropping the oldest and appending |
| `Hub.FilterIsSlice` | internal/api/hub.go:143-148 | filtering the held events by id cuts a contiguous slice of the log |
| `Hub.CompleteMeansNothingEvicted` | internal/api/hub.go:138-141 | for an id that was handed out, complete if and only if no event above it was evicted |
| `Hub.ResumeIdWrapIsHarmless` | internal/api/hub.go:141-141 | the 64-bit wrap of id + 1 never changes the completeness flag |
| `Release.NoSendOnClosed` | internal/api/hub.go:70-102 | in every interleaving of publishers, subscribers and repeated releases no send hits a closed channel, no channel is closed twice, no buffer overflows |
| `Release.PublishFinishesAlone` | internal/api/hub.go:95-100 | from any point of a publish the publisher's own steps finish it and free the lock, however full the buffers are, and each channel left then has one event more waiting if it had room |
| `Release.SendingUnlockedPanics` | internal/api/hub.go:77-86 | the version that copies the subscribers and sends unlocked reaches a send on a closed channel |
| `EventStream.Reachable` | internal/api/server.go:164-221 | every reachable state: each stream's output is its replay plus what it received above it; everything offered is received, waiting or dropped |
| `EventStream.ExactDelivery` | internal/api/server.go:164-221 | a live stream has written, strictly increasing, exactly the ids it owes: held ones above the resume id, then later ones not dropped or waiting; it opens with a reconcile frame exactly when the ring no longer covers the resume id |
| `EventStream.ReceiveKeepsOut` | internal/api/server.go:203-214 | the overlap of replay and live stream is never sent twice and never holds a new event back |
| `EventStream.ReleasedIsSilent` | internal/api/server.go:164-221 | once a handler has released its subscription nothing is ever offered to its stream or written on it again |
| `EventStream.ResumeAheadSilences` | internal/api/server.go:170-213 | later events all get through if and only if the resume id was not ahead of the hub, or there were none |
| `EventStream.ResumeAheadRun` | internal/api/hub.go:138-141 | a run in which a client resuming ahead of the hub is told nothing is missing and is not given the next event |
| `EventStream.NeighbourGap` | internal/api/server.go:177-214 | between two events written next to each other there are only ids dropped past the replay; before the first, also evicted ones, and then a reconcile frame went out |
| `EventStream.BridgeNeverSkipsSilently` | slay/bin/bridge:17-60 | over all reconnects the ids taken strictly increase and every skipped one was dropped, announced by a reconcile frame, or below the id such a frame had moved the cursor to before its replay was given up half way |
| `EventStream.TakenNextIff` | slay/bin/bridge:17-60 | an unannounced event follows the last one taken if and only if its stream had carried one already or was opened from the last id taken, and did not drop the next id |
| `EventStream.GaplessIff` | slay/bin/bridge:17-60 | in every run the ids taken have no unannounced gap if and only if the bridge never took, without notice, an event first on a stream opened from elsewhere than the last id taken or past an id that stream had dropped |
| `EventStream.HastyBridgeSkipsHeldEvents` | slay/bin/bridge:27-36 | a run of the bridge as written that skips thousands of held events unannounced |
| `Sse.CutsWhole` | slay/lib/hellboxd/stream.rb:33-43 | cutting loses and invents nothing, and the tail holds no finished frame |
| `Sse.CutAppend` | slay/lib/hellboxd/stream.rb:34-43 | cutting what arrived and going on from the rest cuts the whole text |
| `Sse.Stream.Feed` | slay/lib/hellboxd/stream.rb:35-42 | one chunk yields the messages of the frames it finishes and leaves the unfinished tail in the buffer |
| `Sse.Stream.Each` | slay/lib/hellboxd/stream.rb:33-43 | any chunking yields the messages of the joined text, and the buffer is its unfinished tail |
| `Sse.WriteFrame` | internal/api/server.go:249-265 | the loop prints the item's frame |
| `Sse.ParseItem` | slay/lib/hellboxd/stream.rb:50-72 | parsing a printed frame gives its kind, id and flattened body; a keepalive gives nothing |
| `Sse.LineMeans` | slay/lib/hellboxd/stream.rb:54-63 | what any line at all adds: the value of the field it is of, and nothing if it is of none of the three; a colon without a space ends no key |
| `Sse.PrintedFrames` | internal/api/server.go:217-265 | the printed text of any items cuts into exactly their frames with nothing left over |
| `Sse.ChunkedRoundTrip` | slay/lib/hellboxd/stream.rb:23-72 | any list of frames and keepalives, printed and cut into any chunks, is received exactly, in order |
| `Sse.CutOffAnywhere` | slay/lib/hellboxd/stream.rb:33-43 | a stream cut off anywhere has yielded exactly the complete items and holds a beginning of the next |
| `Sse.FaithfulIff` | slay/lib/hellboxd/stream.rb:54-63 | a frame comes back as sent if and only if its body is one line and no part ends in a carriage return |
| `Sse.EventIdSurvives` | internal/api/server.go:244-246 | the decimal id of an event is read back as the same number |
| `Ingest.Bridge.Apply` | slay/app/services/ingest.rb:26-56 | the catalog after the first n saves of an event, for the n at which the process died |
| `Ingest.Bridge.SyncTitles` | slay/app/services/ingest.rb:57-70 | the title rows after the first n of their saves; rows not mentioned stay |
| `Ingest.Bridge.Advance` | slay/app/models/bridge_cursor.rb:12-15 | the cursor never moves back and reaches the id |
| `Ingest.SyncedAt` | slay/app/services/ingest.rb:57-70 | the last entry for an index is the one that shows, over the row that was there; others are left alone |
| `Ingest.CrashThenRepeat` | slay/app/services/ingest.rb:6-56 | an event cut off after any save and repeated in full later leaves the catalog of applying it once, when its disc was first saved |
| `Ingest.DecisionSurvives` | slay/app/services/ingest.rb:45-50 | a person's decision commutes with a replayed event |
| `Ingest.NothingIsTakenBack` | slay/app/services/ingest.rb:35-51 | no event takes back a status, name, directory, rip time, title or role |
| `Ingest.CountsIff` | slay/app/services/ingest.rb:18-27 | an event changes the catalog only if it is of kind disc with a fingerprint that is not blank, and then its disc is there |
| `Ingest.LastEventShows` | slay/app/services/ingest.rb:26-70 | whatever came before and was decided since, a disc's row and its titles' rows say what the last event about it said, a newly reported name and rip directory included |
| `Ingest.LastDecisionHolds` | slay/app/services/ingest.rb:45-50 | what a person decided last is what the catalog says, whatever events come after |
| `Ingest.EachEventOnce` | slay/app/models/bridge_cursor.rb:9-15 | however often the bridge dies, and whatever is decided meanwhile, the catalog is that of each event up to the cursor applied once, in order |
| `Ingest.CatalogShowsTheLog` | slay/app/services/ingest.rb:6-70 | over every run with crashes, repeats and decisions, between events each disc shows the last event about it up to the cursor |
| `Catalog.CatalogIsAccountedFor` | slay/bin/bridge:38-53 | in every run, with drops, reconcile frames, crashes and decisions, the catalog is that of each event taken applied exactly once, in the order taken, and of the saves of events given up half applied |
| `Catalog.GivenUpStays` | slay/bin/bridge:27-53 | a run that gives an event up: die on it after one save, have it evicted, reconnect, take another; the catalog keeps a disc no event taken accounts for |
| `Catalog.CatalogFollowsTheLog` | slay/bin/bridge:17-60 | end to end: as long as it tries no event after a reconcile frame and passes none over, then over any connections, crashes and decisions the bridge gives no event up, has taken exactly the first events published, and the catalog is that of each applied once |
| `Catalog.DecisionsStand` | slay/app/services/ingest.rb:45-50 | end to end: what a person decided stands, whatever is published afterwards and however often the bridge dies on it, until a person decides otherwise |
| `RipStore.CountUpdate` | internal/store/store.go:462-474 | changing one job's state moves an attempt count by that job alone |
| `RipStore.ForgetClearsAttempts` | internal/store/store.go:367-405 | forgetting a disc zeroes its attempts and clears its rip directory, keeping every job |
| `RipStore.StartupAttempts` | internal/store/store.go:494-533 | after reclaiming, a disc is charged with exactly its complete, failed or duplicate jobs since it was last forgotten, and never more than before |
| `RipJobs.SlotStep` | internal/daemon/worker.go:360-390 | a worker's step takes a free slot, keeps its own or gives its own back; one holder at most, and a token exactly when there is one |
| `RipJobs.ReleaseIsOwn` | internal/daemon/worker.go:382-390 | no step of one worker frees or changes another's hold, in any reachable state |
| `RipJobs.WorkerCharges` | internal/daemon/worker.go:308-322 | only opening a job charges a disc, only that disc, and by one |
| `RipJobs.ProtocolHolds` | internal/daemon/worker.go:218-355 | in every interleaving with forgets, cancels and restarts: one holder, and attempts at most the cap plus one per unreadable count |
| `RipJobs.PassesIff` | internal/daemon/worker.go:308-322 | a step takes a disc past the cap if and only if it opens a job for it at the cap on a count that could not be read |
| `RipJobs.CapKeptIff` | internal/daemon/bluray.go:101-140 | on both paths and in every interleaving, a disc is within the cap throughout if and only if there was no such step |
| `RipJobs.LookUpIff` | internal/daemon/worker.go:286-302 | a look-up lets a worker go on if and only if it got through, the context is alive and the disc has no recorded rip; otherwise the slot is given back with the store untouched |
| `RipJobs.RippedOnce` | internal/daemon/bluray.go:82-99 | on both paths, in every interleaving and across restarts, no job is opened for a disc with a recorded rip until someone forgets it |
| `RipJobs.OpenedJob` | internal/daemon/worker.go:308-322 | in every run a job is opened only by a worker that still finds no recorded rip of its disc, as that disc's next attempt: numbered within the cap and above what the disc is charged with, or as the first when the count could not be read |
| `RipJobs.SlotIsNeverStuck` | internal/daemon/worker.go:360-390 | whoever holds the slot can end its turn by a step of its own, and then any waiting worker can have it, or go without and leave everything as it was |
| `RipJobs.CancelledWritesNothing` | internal/daemon/worker.go:325-338 | once its context is cancelled a worker writes nothing but that its job was cancelled |
| `RipJobs.UnreadableCountPassesTheCap` | internal/daemon/worker.go:309-311 | a run with cap one that charges a disc twice |
| `RipJobs.EndedIsFinal` | internal/daemon/worker.go:325-355 | a job that has ended is never changed by anything later |
| `RipJobs.CancellationSticks` | internal/daemon/worker.go:665-673 | a cancellation noticed while decrypting or extracting, once the store took it, leaves the job cancelled for good, though a failure is recorded afterwards |
| `RipJobs.CancelledIff` | internal/daemon/worker.go:325-338 | a step cancels a job if and only if it is its own worker, stopped by a dead context, whose write the store takes, or a startup that reclaims it |
| `RipJobs.OutcomeSticks` | internal/daemon/worker.go:334-340 | an outcome recorded while the context is alive, once the store took it, is the job's for good, and the slot is free |
| `RipJobs.RecordedRipIsFound` | internal/daemon/worker.go:702-704 | a recorded rip directory is what the next look-up of that disc finds, and no other disc is touched |
| `RipJobs.ProgressShows` | internal/daemon/worker.go:645-647 | how far a job has got shows while its context is alive |
| `RipJobs.OtherInterruptionsAreReclaimed` | internal/daemon/worker.go:325-338 | any other interruption, and any cancellation or outcome whose write failed, leaves the job unfinished whatever happens meanwhile, until the next startup that reclaims cancels it, for good |
| `RipJobs.StartupIsExact` | internal/daemon/daemon.go:112-120 | after any startup that reclaims every job has ended and the charge is exactly the concluded jobs since the last forget; one whose reclaiming failed leaves jobs and charges as they were |
| `Worker.TotalSecsOf` | internal/daemon/worker.go:723-729 | the sum of the running times |
| `Worker.DedupedSecsOf` | internal/daemon/worker.go:736-748 | the sum of the distinct running times as a set, whatever the order and repetition |
| `Worker.Drive.Fail` | internal/daemon/worker.go:910-927 | a failure opens the tray only if both eject settings say so |
| `Worker.Drive.WriteTitles` | internal/daemon/worker.go:649-700 | every title is written, verified and marked in order; it stops, with the job cancelled, if and only if the context dies while a title is being extracted |
| `Worker.Drive.Rip` | internal/daemon/worker.go:554-710 | a rip succeeds if and only if the directory was made, there was a source, a rescanned copy did not hold too little, the files were written, every chosen title was extracted, verified and marked, and the directory was recorded before the context died; when it is cancelled and when stopped, exactly too; and the whole new store for each ending |
| `Worker.Drive.OpenAttempt` | internal/daemon/worker.go:286-322 | a disc is recognised if and only if its rip is recorded and the look-up got through; it gets a job, its own next attempt, if and only if it has no rip, attempts left and every call gets through; otherwise no job and no rip changes |
| `Worker.Drive.RunJob` | internal/daemon/worker.go:323-355 | how a job ends, for each ending if and only if: ripped, cancelled, stopped or failed; what its row says then; the tray; and the one disc row it may change |
| `Worker.Drive.HandleDisc` | internal/daemon/worker.go:218-355 | from insertion to ending, each ending if and only if, so a live, error-free run over an unripped, uncapped disc ends ripped and recorded; with eject-on-failure off the tray opens only for a disc already recorded as ripped or ripped and recorded in this run; every other ending leaves all rip directories as they were |
| `Transcode.QueueBuysNothing` | internal/store/transcode.go:44-61 | queuing makes a row claimable exactly when its budget is not used up, waiting from now on with the new source, and touches no other row |
| `Transcode.Store.NextTranscode` | internal/store/transcode.go:109-144 | the oldest claimable row, however ties fall, is claimed and charged; none means none was claimable |
| `Transcode.OutcomeRetires` | internal/store/transcode.go:147-168 | an outcome takes the row out of the queue with its charge; a failed title queued again is claimable exactly while it has attempts left |
| `Transcode.RecordingIsDone` | internal/store/transcode.go:75-103 | a Blu-ray encode recorded after the fact is complete and never claimable, with its files and the attempts and age of the row that was there |
| `Transcode.RequeueUndoesClaim` | internal/store/transcode.go:175-217 | cancelling gives back exactly what claiming took, and so does a restart when nothing else was running |
| `Transcode.Store.Drain` | internal/daemon/transcode.go:82-100 | without cancels or new work the drain runs every claimable row once, oldest first, charges each once, and ends |
| `Transcode.DrainedOldestFirst` | internal/store/transcode.go:116-124 | what was queued first runs first, and the titles of a disc queued at one moment run in order |
| `Transcode.OutcomeIsKept` | internal/store/transcode.go:147-168 | in every run, how an encode ended is what its row says, the new file included, through restarts and everything else, until the title is queued, recorded or reset again |
| `Transcode.AttemptsConserved` | internal/store/transcode.go:44-217 | in every run each charged attempt is an ended encode, an open claim or a leak, and attempts stay within the budget |
| `Transcode.EncodesWithinBudget` | internal/daemon/transcode.go:129-217 | encodes that ended since the last manual reset never outnumber the attempts, which never pass the budget |
| `Transcode.LeaksIff` | internal/store/transcode.go:44-217 | the attempts on a row beyond its ended encodes and open claim grow by one exactly on a restart or unwritten outcome that finds it no longer running, or a queue or record of a row claimed but not in hand; a manual reset clears them; no other step changes them |
| `Transcode.LeakFreeIff` | internal/store/transcode.go:44-217 | the attempt column of a row is exactly its ended encodes and its open claim if and only if no such step happened to it since its last manual reset |
| `Transcode.ClaimableIff` | internal/store/transcode.go:109-124 | a pending row can be claimed if and only if its ended encodes, lost attempts and open claim leave some of the budget |
| `Transcode.InterruptedJobStaysClaimable` | internal/daemon/transcode.go:196-206 | a pending job that lost no attempt and no encode of which ended is claimable, however often it was interrupted, unless the runner's own claim is the whole budget |
| `Transcode.RequeueWhileRunningStrands` | internal/store/transcode.go:48-55 | a run that leaves a row pending, out of budget, and never encoded |
| `Filing.JudgeSteady` | slay/app/services/file_disc.rb:74-105 | filing one title changes no other title's verdict, nor its own |
| `Filing.PlaceCommutes` | slay/app/services/file_disc.rb:74-161 | titles with different destinations can be filed in either order |
| `Filing.PlaceTwice` | slay/app/services/file_disc.rb:131-161 | filing a title twice is filing it once |
| `Filing.SomeTouchedBefore` | slay/app/services/file_disc.rb:56-57 | any titles filed, or half filed by a run that raised, beforehand, in any order and number, make no difference to filing the disc |
| `Confluence.EncodeAfterPlace` | internal/transcode/transcode.go:207-207 | an encode landing after a title was filed could as well have landed before, unless it replaces the file the title was linked from or brings back one its record named |
| `Filing.VerdictsAreJudgements` | slay/app/services/file_disc.rb:52-63 | what a run reports of each title is what would have been decided on the state before the run |
| `Filing.VerdictIff` | slay/app/services/file_disc.rb:74-153 | each verdict in terms of roles, files and records: waiting without an encoded file, refused without a destination, linked onto a free path or the very file, in conflict otherwise |
| `Filing.RunFiles` | slay/app/services/file_disc.rb:52-161 | a run that does not raise has filed every title that was ready, with its name, sidecar, directories and rows, has put every source found on record, and has changed no other file, note, directory or row but the series note |
| `Filing.SeriesNote` | slay/app/services/file_disc.rb:178-189 | the series note is written if and only if the disc is a series, some title got filed, nothing raised and nothing was there; what was there is left as it was |
| `Filing.FiledIff` | slay/app/services/file_disc.rb:62-62 | a disc becomes filed if and only if nothing raised, some title got filed and every title with a role to be filed did |
| `Confluence.FilingIsConfluent` | slay/app/services/file_disc.rb:52-189 | encodes and runs in any interleaving, raising runs included, then one run, end in the very links, notes, directories, placements, records and status of a single run after all encodes, if that one does not raise and no encode landed on the file of a linked title or on one a record had named before |
| `Confluence.RaisesOnlyIf` | slay/app/services/file_disc.rb:155-161 | a run after early runs raises only if one after the encodes alone would: early runs only take holders of a path away |
| `Confluence.ConfluentIff` | slay/app/services/file_disc.rb:52-189 | for a disc no title of which is linked yet: if and only if no encode did |
| `Confluence.NamesConfluentIff` | slay/app/services/file_disc.rb:94-153 | from any start, recorded files gone or not, when neither run raises the names of the library end the same if and only if no encode landed on the file a title newly linked was linked from or its record had named; and the run after the interleaving cannot raise alone unless a recorded file was brought back |
| `Confluence.BringingBackBreaksConfluence` | slay/app/services/file_disc.rb:94-105 | the run that shows the second case: recorded file gone, filed from the mirror, recorded file encoded again |
| `Confluence.ReencodeBreaksConfluence` | internal/daemon/transcode.go:283-330 | the run that shows it: encode, file, encode again, file ends in a conflict on the old file, where both encodes and one run end on the new one |
| `Filing.RaisesIff` | slay/app/services/file_disc.rb:155-161 | a run raises if and only if a title to be linked finds its path held by another title's placement that no title before it gives up |
| `Confluence.StaleClaimBreaksConfluence` | slay/app/models/placement.rb:14-14 | the run that shows what a stale placement does: a title filed before stays filed, one that comes after it is never reached |
| `Filing.FilingIsIdempotent` | slay/app/services/file_disc.rb:52-189 | safe to run again, always: one more run, after one that finished or one that raised half way, changes nothing |
| `Library.Service.FileDisc` | slay/app/services/file_disc.rb:52-66 | the run over the live tables is the specified one, raises exactly when that does, reports each title's verdict, and marks the disc filed exactly when something was linked and nothing else is owed |
| `Library.TallyTells` | slay/app/services/file_disc.rb:32-32 | a report is complete exactly when every title that was to be filed is linked, and there was one |
| `Library.TallyCounts` | slay/app/services/file_disc.rb:28-42 | the report counts the titles that wait, were refused and conflict, and lists the linked paths in order |
| `Library.UnfileOne` | slay/app/services/unfile_disc.rb:25-40 | unfiling one title removes an .mkv name if and only if it is that title's placement and inside the library |
| `Library.Service.PruneUp` | slay/app/services/unfile_disc.rb:64-88 | the walk up equals the function `UnfileTakes` and `PruneTidies` are about, and ends on shrinking depth |
| `Library.PruneTidies` | slay/app/services/unfile_disc.rb:64-88 | a walk up leaves its own directory tidy (gone, a root, outside the library, or with something in it besides a series note), and every directory that was |
| `Library.PruneAllPrunes` | slay/app/services/unfile_disc.rb:64-88 | a directory goes only with nothing left in it, below the roots, and the one above it is left tidy; no file goes but the series note of a directory that went |
| `Library.Service.UnfileDisc` | slay/app/services/unfile_disc.rb:22-46 | the whole undo as a function of the state before, and the disc is no longer filed |
| `Library.StepIsSafe` | slay/app/services/unfile_disc.rb:22-95 | no run of either service repoints a name, loses a file outside the library or removes a root |
| `Library.LibraryIsNeverClobbered` | slay/app/services/file_disc.rb:131-153 | over every sequence of filing, unfiling and encoding, files outside the library and the roots survive and no library name is ever repointed |
| `Library.UnfileRemoves` | slay/app/services/unfile_disc.rb:22-40 | an .mkv name is gone if and only if it was a placement, inside the library, of an unfiled title; all others stay as they were |
| `Library.UnfileTakes` | slay/app/services/unfile_disc.rb:22-88 | what the whole undo takes and leaves: files, sidecars and placements of the unfiled titles go, a directory with anything left in it stays, one a file or directory was taken out of is gone if nothing but a series note was left, and nothing else is touched |
| `Library.UnfileUndoesFile` | slay/app/services/unfile_disc.rb:22-46 | filing a never-filed disc onto free destinations and unfiling it, series note and emptied directories included, leaves every .mkv name as it was if and only if the run did not raise |
| `Naming.CleanIff` | slay/app/models/library/naming.rb:24-30 | a cleaned name has no separator or reserved character, no outer spaces, no double space and no final dot; exactly such names are left alone |
| `Naming.CleanTwice` | slay/app/models/library/naming.rb:28-30 | cleaning is idempotent |
| `Naming.CleanIsPortable` | slay/app/models/library/naming.rb:24-30 | no cleaned name holds a separator, a reserved character or a control character |
| `Naming.CleanKeeps` | slay/app/models/library/naming.rb:28-30 | cleaning keeps every other character, in order: only spaces, dots and reserved characters are ever lost |
| `Naming.DestinationStaysInside` | slay/app/models/library/naming.rb:34-86 | whatever was typed, every component below the library is a plain name, never empty, `.`, `..` or holding a separator |
| `Naming.ClashIff` | slay/app/services/file_disc.rb:107-129 | two titles go to one path if and only if both are the feature, or the same episode under the same title, or extras of one name |
| `Naming.LeafClashIff` | slay/app/models/library/naming.rb:82-86 | two extras share a name if and only if they are named alike or one is named as the other is numbered |
| `Naming.DestinationIff` | slay/app/services/file_disc.rb:107-129 | which titles have somewhere to go: a film's feature, an episode whose season and number are known, any extra |
| `Naming.FilmFolderIff` | slay/app/models/library/naming.rb:34-42 | two films share a folder if and only if name and year agree, or neither has a year, or the name of the one without a year ends in the year of the other |
| `Naming.DiscsClashIff` | slay/app/services/file_disc.rb:107-129 | titles of any two discs are sent to one path if and only if they are features of one film folder, the same episode of one series under one title, or extras of one name to one film or series |
| `Naming.YearInTheNameClashes` | slay/app/models/library/naming.rb:34-38 | a film named with its year in brackets and no year set is sent to the path of the film of that name and year |
| `Naming.FolderIsNamed` | slay/app/models/library/naming.rb:34-53 | no film or series folder has a blank name: the cleaned one, or Unsorted |
| `Naming.UntitledIff` | slay/app/models/library/naming.rb:62-66 | an episode goes where it would without a title if and only if nothing is left of its title |
| `Naming.RolesDecide` | slay/app/services/file_disc.rb:56-75 | a run passes a title over if and only if its role is ignored or unset, and only a series has a series note |
| `Naming.FileableIff` | slay/app/services/file_disc.rb:107-129 | the distinct destinations confluence needs are there if and only if no two titles of the disc clash |
| `Naming.ConfirmedDiscConverges` | slay/app/services/file_disc.rb:52-189 | a confirmed disc without clashes reaches one final state however encodes and runs interleave, if no encode replaces a file a title was linked from and the run after them all does not raise; and only if none does, when none was linked at the start |
| `Naming.FirstComeKeeps` | slay/app/services/file_disc.rb:131-142 | of two titles sent to one free path whichever is filed first keeps it and the other is a conflict, so with a clash the order shows |
| `Roles.For` | slay/app/models/library/roles.rb:30-41 | the map covers exactly the disc's titles, each with its resolved role |
| `Roles.OneFeature` | slay/app/models/library/roles.rb:30-41 | a role someone set is never changed, television is left alone, and at most one feature is inferred |
| `Roles.FeatureChosenIff` | slay/app/models/library/roles.rb:35-58 | a film disc without a chosen feature gets one if and only if it is shaped like a film and its longest title is still unset; every other unset title becomes an extra |
| `Roles.FeatureIsLopsided` | slay/app/models/library/roles.rb:44-64 | an inferred feature is the longest title, runs 45 minutes, and unless alone at least half the titles run half as long or less |
| `Roles.LopsidedIsFeature` | slay/app/models/library/roles.rb:44-64 | a lone title of 45 minutes is the feature, and so is the longest when more than half run half as long or less; with an odd number of titles the condition is exact |
| `Roles.MedianHalves` | slay/app/models/library/roles.rb:60-64 | at least half of any list is at most its rounded median |
| `Roles.MedianIs` | slay/app/models/library/roles.rb:60-64 | the middle of the sorted list, or half the sum of the two middles rounded half away from zero |
| `Identify.Lookup` | slay/app/models/identify/provider_net.rb:62-77 | the first of the most confident of the leading five film matches; rejected only if all five are |
| `Identify.ScoredIsProducible` | slay/app/models/identify/provider_net.rb:84-118 | the confidences a match can get, and rejection exactly on known running times that disagree |
| `Identify.ScoredIs` | slay/app/models/identify/provider_net.rb:84-118 | 85, 70 or 40 and rejected, by whether the running times are known and within 8 per cent of the provider's, and the match's own title, year and id |
| `Identify.MergeGroup` | slay/app/models/identify/resolver.rb:57-109 | the loop merges as specified |
| `Identify.MergeIs` | slay/app/models/identify/resolver.rb:57-109 | a merged group is its leader, with 15 hundredths for each further standing net up to 95; a year, season, disc number, kind, provider or id it has is kept, and one it lacks is that of the first standing follower that has it |
| `Identify.RejectedAddsNothing` | slay/app/models/identify/resolver.rb:57-109 | leaving every rejected follower out of a group changes nothing in the merged proposal |
| `Identify.RejectedLeaderStaysLow` | slay/app/models/identify/resolver.rb:57-109 | a group led by a rejected match keeps its low confidence, however ties fall |
| `Identify.IdComesFromStanding` | slay/app/models/identify/resolver.rb:57-109 | a merged provider id was brought by a provider match that was not rejected |
| `Identify.ConfirmedIff` | slay/app/models/identify/decision.rb:15-54 | a rough disc is confirmed if and only if its leading merged title has 70 or more, every other title at least 20 less, it is a film and it has a provider id; any other rough disc goes to review, and one that is not rough stays as it is |
| `Identify.AutoConfirmIsTrustworthy` | slay/app/models/identify/decision.rb:15-54 | for every producible proposal list, normal form and tie order, a rough disc is confirmed on its own only as a film under an id that an unrejected match for a title of the same normal form brought |
| `Identify.SameTitleIff` | slay/app/models/identify/candidate_proposal.rb:37-39 | two titles have the same normal form if and only if they have the same ASCII words in order |
| `Identify.NormalisedIff` | slay/app/models/identify/candidate_proposal.rb:37-39 | a normal form is lower-case ASCII words with single spaces between, and exactly such titles are their own |
| `Identify.CaseDoesNotCount` | slay/app/models/identify/candidate_proposal.rb:37-39 | titles that differ in the case of ASCII letters have one normal form |
| `Identify.WordlessTitlesMerge` | slay/app/models/identify/candidate_proposal.rb:37-39 | any two titles without an ASCII letter or digit merge, and a disc labelled with one is confirmed as the film of the other |
| `Identify.AgreementConfirms` | slay/app/models/identify/resolver.rb:22-109 | a film match whose running time agrees and a label that normalises to the same title are laid out as one group and confirm the disc, at the ceiling, under the match's id |
| `Fingerprint.ComputeHashInput` | internal/disc/disc.go:112-134 | the buffer holds the trimmed label, the count and the sorted entries |
| `Fingerprint.FingerprintIff` | internal/disc/disc.go:112-134 | for NUL-free labels, equal hash inputs if and only if equal trimmed labels and equal multisets of (duration, size) |
| `Fingerprint.TrimSpaceIs` | internal/disc/disc.go:129-129 | trimming takes the white space off both ends of the label and nothing else |
| `Fingerprint.ContentKeyIff` | internal/bluray/bluray.go:167-180 | the text key tells playlists apart exactly when their running time or stream counts differ |
| `Fingerprint.DedupeList` | internal/bluray/bluray.go:167-180 | the loop keeps the first playlist of each key |
| `Fingerprint.ContentRepresents` | internal/bluray/bluray.go:134-180 | every playlist worth ripping is represented once, by the lowest file name with its content |
| `Fingerprint.ContentIsReal` | internal/bluray/bluray.go:134-158 | all content was listed, runs at least 60 seconds or the given minimum and has audio, and is in the order of the file names |
| `Fingerprint.ContentIgnoresOrder` | internal/bluray/bluray.go:134-158 | with distinct names the content list, and so every title number, ignores enumeration order |
| `Fingerprint.BluRayFingerprintIgnoresOrder` | internal/bluray/bluray.go:227-235 | the fingerprint ignores enumeration order even when names repeat |
| `Fingerprint.BluRayFingerprintIff` | internal/bluray/bluray.go:227-235 | two Blu-rays hash the same text if and only if their trimmed labels agree and their content has the same running times, as multisets |
| `Robot.SplitFields` | internal/makemkv/robot.go:77-105 | the loop computes the recursive scan |
| `Robot.SplitJoinedIff` | internal/makemkv/robot.go:77-105 | writing texts in quotes and numbers bare, joining and splitting returns the same list if and only if no quoted field has a backslash before a quote or at its end |
| `Robot.AmbiguousListLoses` | internal/makemkv/robot.go:91-93 | with such a backslash the split always comes back with fewer backslashes |
| `Monitor.Run` | internal/drive/monitor.go:49-126 | the loop over `pending` and `pendingAt` reports exactly what a definition without them says |
| `Monitor.EventsChain` | internal/drive/monitor.go:66-73 | each event starts where the one before ended, the first reading always reports, and later events are real changes |
| `Monitor.TransientsLast` | internal/drive/monitor.go:111-119 | a transient status after the first reading is reported only if every reading over at least the settle time was that status without error |
| `Monitor.ShownAtOnce` | internal/drive/monitor.go:107-122 | what was read is shown at once if and only if it is first, failed, settled, already shown, or has lasted |
| `Monitor.SteadyIsShown` | internal/drive/monitor.go:107-122 | whatever the drive keeps saying for the settle time is shown |
| `Monitor.FlickerIsSilent` | internal/drive/monitor.go:107-119 | a flicker of transient readings, each spell too short, reports nothing |
| `Monitor.FailureReported` | internal/drive/monitor.go:82-91 | a failed reading is reported exactly when it is the first or something other than Unknown was showing, and a repeat never is |

## Left out

- Drive ioctls, SCSI decoding, and running ffmpeg, ffprobe, makemkvcon, dvdbackup and bd_info: arbitrary results in the model.
- SQL text, migrations and SQLite itself: tables are maps and sequences, each statement one atomic update; job rows are numbered from 1, transcode rows keyed by (disc, title), discs by fingerprint.
- JSON encoding of event bodies: a body is a string; JSON's is one line.
- The wrap of the 64-bit event counter after 2^64 publishes.
- The `hello` frame's `last_event_id` is read in the same step as the reconcile frame's; the code reads it a moment later and no reader acts on it.
- HTTP headers, flushing and the write errors of a vanished client: a stream that stops being read is a connection the bridge lost.
- Retrying scans and the decision between reading the drive and a decrypted copy: the scan's final outcome and the chosen source come from the world in `Worker`.
- Worker.Drive.HandleDisc: one worker's run in order, with the store to itself; interleaving with other workers is `RipJobs`, which in turn leaves out titles and the tray. A native title list may be empty, so "every title verified" can hold vacuously there, as in the code.
- Blu-ray copying and encoding: only the duplicate check, the cap and the job transitions, which `RipJobs` shares between both paths.
- An event whose ingest raises part way is logged and skipped by the bridge; `Ingest` covers events that can be applied and processes that die.
- Row timestamps (`created_at`, `linked_at`, `seen_at`) and the queue's displayed counts.
- `SystemCallError` and `EXDEV` while filing or unfiling, and races with other programs in the library tree.
- Sidecar texts: any text per title; `.nfo` files are rewritten by design, so never-clobber speaks of media files.
- Confluence.FilingIsConfluent: a title keeps its role, encoded files are not deleted in the middle of an interleaving (they may be gone at its start), and an encode's inode is one no other name has; when the single run after the encodes itself raises, only that the order can show (`Confluence.StaleClaimBreaksConfluence`).
- Confluence.ConfluentIff: the whole state, status and sidecars included, for a disc none of whose titles is linked yet; for any other start the exact condition is `Confluence.NamesConfluentIff`, about the names of the library.
- The regular expressions of the label, disc-name and menu nets: only the confidences and fields they can emit (`Identify.Producible`, which takes provider results to have titles); confidences are whole hundredths, and the explanation strings are left out. In binary floating point 0.85 - 0.65 falls just below 0.2, so the code calls that pair contested where the model does not: it confirms less, never more.
- Case folding in title normalisation goes as far as ASCII letters come of it; `Identify.AutoConfirmIsTrustworthy` holds for any normal form.
- SHA-256: the fingerprint is the text that is hashed.
- Terminal UI, controllers, views, health checks, Jellyfin and TMDB clients, progress and ETA display.
