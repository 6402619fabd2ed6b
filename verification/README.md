# Verified model of the coding-agent daemon

The daemon is a chain of durable logs. Hooks are captured into a session's
event journal; a translator turns events into span operations; these are
published in a span journal, from which one reader for each route delivers them
to a sink; a ledger shared by all processes remembers what was delivered; and a
registry finds the parent of a newly started agent. What the chain delivers
must not depend on crashes, retries, queues that drop records, or other
processes. This project models those logs and proves that it does not, or
states exactly when it does.

| file | what it models |
|---|---|
| `Store.dfy` | the tables of the span journal and its transactions, as values, with the invariant every transaction keeps |
| `SpanJournal.dfy`, `Live.dfy`, `Cursor.dfy` | the same operations in place, with the live queues, the weak replay cache and the route cursors |
| `Roots.dfy` | the stage that holds deferred session roots until a child needs them |
| `Publication.dfy`, `Source.dfy` | the publishing worker over every run of crashes and lost acknowledgements, as values and in place |
| `Consumer.dfy`, `Pipeline.dfy` | the delivery loop of a route over its cursor, and the source, the journal, the loop and other routes running together |
| `Heads.dfy`, `Readers.dfy` | route heads over every run with any readers, and the only reader of a route |
| `LedgerLog.dfy`, `Ledger.dfy`, `LedgerSink.dfy`, `LedgerRuns.dfy` | the ledger as bytes and as updates, one process's view of it, the sink in front of a backend, and any number of processes |
| `Correlation.dfy`, `Snapshots.dfy`, `OpenTools.dfy` | the registry and parent choice, restoring it from snapshots, and recovering open tools from the journal |
| `Parents.dfy` | who is answered as a parent and what it is told, from the registry's maps and a session's operations alone |
| `PiContext.dfy`, `PiFields.dfy` | the event journal and its delta codec for Pi contexts, and what is stored and read of each event field by field |
| `RawPaths.dfy`, `RawEscapes.dfy` | the repair of hook payloads with raw Windows paths, and what it does to each piece of a text |
| `TranscriptMirror.dfy` | mirrors of transcript files |
| `Spans.dfy`, `Wrappers.dfy` | span rows and operations, options and results |

Code that updates state in place is modelled by classes and loops whose
methods are proved equal to specification functions on values; the theorems
are about those functions. Each such function is in turn fixed by a theorem
that does not use it (named `...Exactly` where it goes both ways): what one
transaction changes table by table, what one record covers, which rows leave,
which bytes a reference stands for. What the environment decides (failures, dropped
records, where a chunk ends, which entry of a hash map comes first, whether a
weak reference is still alive) is left open in the methods and is an argument
or an event in the theorems.

Where the code does not do what it may be expected to do, the model follows the
code and says exactly when the two agree:

- `next_shared` continues right after `read` exactly while pruning has not passed
  that position (`Cursors.BatchContinuesExactly`, `Cursors.TableSkipsExactly`).
  For the only reader of a route it never has, in any run (`Readers.ReadAlone`);
  two readers of one route, which the code does not rule out, can see a gap
  (`Readers.SecondReaderSkips`).
- A registry restored from snapshots no longer knows processes whose sessions
  were all closed. Such a process is a boundary before the restart and not after
  it, so an answer can change (`Snapshots.RestartMovesBoundary`);
  `Snapshots.RestartKeepsAnswers` and `Snapshots.ClosedBoundary` say when.
- The recovery table keeps one birth for each span id, so a root task under
  the id of an open tool hides the tool (`OpenTools.RootTaskHidesTool`,
  `OpenTools.AgreeExactly`).
- `JournalWriter::append` advances its context before it writes, and the writer
  that the daemon shares for a session (`bt-daemon/src/server/sessions.rs:264-290`)
  is kept after a failed append. Such a writer can store a delta that no reader
  can expand (`PiContext.KeptWriterLosesList`, `PiContext.ReplayIsHistoryExactly`),
  and its position falls behind the file (`PiContext.PositionIsEndExactly`).
  Nothing repairs a torn line, so the record after it is lost too
  (`PiContext.ReopeningRepairsNothing`).
- A raw path is restored only if it contains something that strict parsing
  rejects and nothing that reads as another escape (`RawPaths.PathReadExactly`);
  a path like `c:\temp` is altered without notice (`RawPaths.SilentlyAltered`).
- The plain transcript capture starts its file over when the transcript got
  shorter, so only `capture_generation` keeps references for good
  (`TranscriptMirror.FollowKeepsExactly`). For an empty transcript it returns the
  old length (`TranscriptMirror.FollowHoldsExactly`).
- `resolve` tests the child against whichever open session comes first. The
  answer does not depend on the order for the prefixes its caller passes, which
  end with the separator (`Correlation.ResolveIsDeterministic`); for others
  `Correlation.OrderMattersExactly` says when it does.

## Model

| member | source | states |
|---|---|---|
| `Publication.PublishesExactlyOnce` | bt-daemon/src/pipeline/journal.rs:316-434 | Any interleaving of crashes, lost acknowledgements, chunk sizes, route registrations and head writes leaves as published history a prefix of what the run without failures publishes: each operation once, in order; once the last input is committed it is the whole of it |
| `Publication.HistoryIsPassed` | bt-daemon/src/pipeline/translation.rs:688-788 | What the failure-free run publishes: what the root stage passes of everything that all records translate to, taken in one piece, so a root held over several records is neither lost nor doubled; each record adds its own operations under its own input and flag |
| `Publication.RunRetains` | bt-daemon/src/pipeline/journal.rs:166-177 | In every such run the tables retain exactly the part of the published history above the floor |
| `Publication.RestartCompletes` | bt-daemon/src/pipeline/translation.rs:510-786 | After any run at all some continuation publishes exactly the failure-free history; that the worker loop takes such steps is `Sources.Source.Advance` |
| `Sources.Source.Advance` | bt-daemon/src/pipeline/translation.rs:581-684 | The loop over records, from any state that crashes and failed calls may leave: it only ever extends the published history, moves no head, and when it returns without an error exactly the failure-free history has been published |
| `Sources.Source.Publish` | bt-daemon/src/pipeline/translation.rs:688-788 | One record, with the translator drained into the root stage and journaled chunk by chunk: a failure keeps what was done, so the same call can be repeated, and success commits the record and no other |
| `Sources.Source.Write` | bt-daemon/src/pipeline/translation.rs:756-761 | A journaling call that fails half-way leaves in memory exactly what the tables do not have yet |
| `Sources.Source.Initialize` | bt-daemon/src/pipeline/translation.rs:510-541 | A restarted worker continues at a point of the failure-free run |
| `Publication.HeadsOnlySound` | bt-daemon/src/pipeline/journal.rs:1376-1404 | Head writes and the pruning they cause leave tables, history and worker at the same point of the failure-free run |
| `Publication.RunKeeps` | bt-daemon/src/pipeline/translation.rs:581-786 | At every point of every run the tables and the worker stand at some record and ordinal of the failure-free run |
| `Publication.WriteKeeps` | bt-daemon/src/pipeline/journal.rs:350-434 | Appending a chunk again, in part or not at all, keeps published history, receipts and worker in agreement, also when the operations of the open input were already pruned |
| `Publication.AppendFresh` | bt-daemon/src/pipeline/journal.rs:388-412 | Of a chunk, exactly the operations whose ordinal has no receipt are stored, in order |
| `Publication.CommitAt` | bt-daemon/src/pipeline/journal.rs:560-612 | Committing the current input makes it the last translated one, stores its held roots and leaves the next input without receipts |
| `Publication.BootKeeps` | bt-daemon/src/pipeline/translation.rs:510-541 | A restarted worker reloads the held roots and skips exactly the committed records |
| `Roots.Roots.ProcessOwned` | bt-daemon/src/pipeline/roots.rs:22-53 | The in-place stage computes the specification `Process` on its pending map and input |
| `Roots.OneOperation` | bt-daemon/src/pipeline/roots.rs:22-53 | The stage one operation at a time, in terms of rows and metadata only: an operation of a held span is held behind it; any other first sets free what its parents hold, in the order of its parents and each once, every freed operation with all its fields but the flag, and is then held itself exactly if it is an insertion with the flag set, and otherwise passed as it came |
| `Roots.HeldUntilChild` | bt-daemon/src/pipeline/roots.rs:22-53 | After any input a root is held exactly from an insertion that asks for it until an operation that is not held itself names it as a parent |
| `Roots.StripsAlikeExactly` | bt-daemon/src/pipeline/roots.rs:33-40 | Two operations look alike without the flag exactly when they differ in nothing else |
| `Roots.ProcessKeepsSpans` | bt-daemon/src/pipeline/roots.rs:22-53 | For each span, what was passed on followed by what is still held is what was held followed by the input: as many operations in the same order, each of the same kind with the same row, and with the same metadata under every key but the flag |
| `Roots.ProcessConserves` | bt-daemon/src/pipeline/roots.rs:22-53 | Emitted plus pending operations are a permutation of the input up to the removed flag |
| `Roots.ProcessClearsFlags` | bt-daemon/src/pipeline/roots.rs:31-40 | Nothing that is passed on still carries the defer flag |
| `Roots.ProcessSplits` | bt-daemon/src/pipeline/roots.rs:22-53 | Splitting an input into batches changes neither the output nor what is held |
| `Roots.PassedAfterParents` | bt-daemon/src/pipeline/roots.rs:31-53 | An operation that is passed straight through comes after every operation of each of its parents; one that is deferred is held instead |
| `Roots.PassesUndeferred` | bt-daemon/src/pipeline/roots.rs:22-53 | An input without deferred births passes unchanged |
| `Store.AppendKeeps` | bt-daemon/src/pipeline/journal.rs:378-416 | An append transaction extends the history by exactly the operations it stored and keeps the table invariant: retained positions are those above the floor, heads lie between floor and tail, recovery metadata is that of the whole history |
| `Store.PruneKeeps` | bt-daemon/src/pipeline/journal.rs:166-177 | Pruning keeps the invariant, moves the floor to the least head and keeps every receipt of an uncommitted input |
| `Store.CommitKeeps` | bt-daemon/src/pipeline/journal.rs:560-612 | A commit keeps the invariant, does not change the tail and never lowers the floor |
| `Store.CompleteKeeps` | bt-daemon/src/pipeline/journal.rs:1376-1404 | A head write keeps the invariant and sets the head to the greater of its value and the delivered position |
| `Store.BeginKeeps` | bt-daemon/src/pipeline/journal.rs:316-349 | Starting or restarting an input keeps the invariant and deletes no stored operation |
| `Store.BeginExactly` | bt-daemon/src/pipeline/journal.rs:316-349 | A committed input is refused and left alone; any other is open afterwards, and loses its stored operations exactly when no ordinal of it has a receipt; no other row or table changes |
| `Store.AppendFailsExactly` | bt-daemon/src/pipeline/journal.rs:378-416 | An append is refused exactly for an input that was not begun and for a committed one that would be added to; repeating a committed append changes nothing |
| `Store.PruneExactly` | bt-daemon/src/pipeline/journal.rs:166-177 | Without routes nothing is dropped; otherwise exactly the rows up to the least head go, and of the receipts exactly those of a committed input that keeps no row |
| `Store.CommitExactly` | bt-daemon/src/pipeline/journal.rs:560-612 | A commit succeeds exactly for a begun input with every earlier one committed and no later one; it marks that input and no other, and stores exactly the given roots |
| `Store.CompleteExactly` | bt-daemon/src/pipeline/journal.rs:1376-1404 | A head write succeeds exactly for a known route whose head has reached the expected or the delivered position; it changes that head only, and prunes |
| `Store.RegisterKeeps` | bt-daemon/src/pipeline/journal.rs:761-775 | Registering a route keeps the invariant |
| `Store.SubscribeKeeps` | bt-daemon/src/pipeline/journal.rs:643-658 | Subscribing a route keeps the invariant, whatever legacy position it names |
| `Store.RegisterMissesNothing` | bt-daemon/src/pipeline/journal.rs:761-775 | A registered route is given everything that is still stored |
| `Store.SubscribeSkips` | bt-daemon/src/pipeline/journal.rs:643-658 | A subscribed route skips exactly what lies at or below the last stored operation of an input that earlier checkpoints acknowledged |
| `Store.CommitIsOrdered` | bt-daemon/src/pipeline/journal.rs:560-612 | After a successful commit everything up to the input is committed and nothing beyond it |
| `Store.AllVisible` | bt-daemon/src/pipeline/journal.rs:463-463 | The visibility condition of the recovery query admits exactly the retained positions: no stored operation is hidden from a reader |
| `SpanJournal.Journal.Begin` | bt-daemon/src/pipeline/journal.rs:316-349 | The transaction in place: deletes rows only of an input without receipts, reports a committed input |
| `SpanJournal.Journal.AppendLive` | bt-daemon/src/pipeline/journal.rs:350-434 | Whatever fails, a whole number of operations is stored, exactly those before the returned rest; the ordinal says how many, and readers are told of the new tail |
| `SpanJournal.Journal.AppendChunk` | bt-daemon/src/pipeline/journal.rs:377-416 | One chunk in one transaction: all of it or nothing; the positions returned are those of the stored operations |
| `SpanJournal.Journal.CommitOutput` | bt-daemon/src/pipeline/journal.rs:560-612 | Commits in order only, never past an unfinished input; otherwise nothing changes |
| `SpanJournal.Journal.CompleteHead` | bt-daemon/src/pipeline/journal.rs:1376-1404 | The head moves to the delivered position if it reached the expected one, stays if it is past it, and nothing changes otherwise |
| `SpanJournal.Journal.Register` | bt-daemon/src/pipeline/journal.rs:761-775 | A new route starts at the floor; a known one keeps its head |
| `SpanJournal.Journal.Subscribe` | bt-daemon/src/pipeline/journal.rs:614-681 | A new route starts at the greater of the floor and the legacy position, and gets an empty live queue |
| `SpanJournal.Journal.RecoverAfter` | bt-daemon/src/pipeline/journal.rs:438-485 | Records from the weak cache or the table are published operations at consecutive positions, right after the given one unless the table has dropped what follows; a failed read changes nothing |
| `SpanJournal.Journal.ReadRows` | bt-daemon/src/pipeline/journal.rs:462-477 | One bounded read of the table starts exactly above the position or the floor, whichever is higher, is empty only if nothing is stored there, and has at most 262144 bytes unless it is a single record |
| `SpanJournal.PruneTables` | bt-daemon/src/pipeline/journal.rs:166-177 | The pruning statements in place compute `Store.Prune` |
| `SpanJournal.AppendSplits` | bt-daemon/src/pipeline/journal.rs:366-434 | Journaling in two chunks is journaling in one: same tables, positions and history |
| `SpanJournal.PositionsName` | bt-daemon/src/pipeline/journal.rs:382-430 | Each position that an append returns is that of the operation it was returned for |
| `Live.Route.Offer` | bt-daemon/src/pipeline/live.rs:60-80 | A paused feed gets nothing; a running one with a free slot and enough byte permits gets the record at its end; one without waits, and gets it or, if it is paused or resumed meanwhile, does not |
| `Live.RoomExactly` | bt-daemon/src/pipeline/live.rs:60-80 | A feed has room exactly with fewer than 32 records queued and at most 262144 permits taken, where a record takes its bytes, but at least one and at most all permits; so an empty feed has room for anything, and an oversized record only fits an empty one |
| `Live.Multiplexer.Publish` | bt-daemon/src/pipeline/live.rs:53-81 | Each route is offered the record exactly once under that rule, so every running route with room has it, and no pause flag changes |
| `Live.Route.TryRecv` | bt-daemon/src/pipeline/live.rs:100-102 | Takes the oldest queued record |
| `Cursors.Cursor.NextShared` | bt-daemon/src/pipeline/journal.rs:1135-1203 | A batch, whatever supplied it, is a stretch of published operations that starts right after `read`, or right above the floor when pruning has passed `read`; its completion names exactly that range, a failed read moves nothing, and a reader that has caught up takes nothing and resumes its feed |
| `Cursors.Cursor.Fetch` | bt-daemon/src/pipeline/journal.rs:1142-1182 | If the record that was put back, or else the first of the feed, comes next, the batch starts with it, and batch and what is left are what was there; otherwise storage is read and the feed is cleared. Either gives such a stretch |
| `Cursors.Cursor.TakeLive` | bt-daemon/src/pipeline/journal.rs:1155-1182 | Nothing that is read from the feed is lost: the batch, a record that was put back and the rest of the feed are what was there, in order; a batch of several records has at most 262144 bytes |
| `Cursors.Cursor.Receive` | bt-daemon/src/pipeline/journal.rs:1267-1340 | One pass of the receive loop: an abandoned delivery rewinds to the stored head, reading never continues below acknowledged progress, and as long as nobody else acknowledges the route every batch is exactly the next published operations |
| `Cursors.Cursor.Rewind` | bt-daemon/src/pipeline/journal.rs:1210-1227 | Everything read ahead is forgotten and reading restarts at the stored head |
| `Cursors.NextBatchMeans` | bt-daemon/src/pipeline/journal.rs:1135-1203 | Every published operation of the range that the table could still give is in the batch, at its own place |
| `Cursors.BatchContinuesExactly` | bt-daemon/src/pipeline/journal.rs:1135-1203 | A batch is exactly the next published operations, without gap, duplicate or reordering, if and only if it starts right after `read`; it does when the floor has not passed that |
| `Cursors.TableSkipsExactly` | bt-daemon/src/pipeline/journal.rs:462-477 | A batch that the table supplies has a gap before it if and only if the floor is above `read` |
| `Cursors.HeadCompletion.Complete` | bt-daemon/src/pipeline/journal.rs:1376-1404 | Only a stored head acknowledges a delivery; a failed write leaves head and obligation as they were |
| `Cursors.HeadCompletion.Drop` | bt-daemon/src/pipeline/journal.rs:1365-1373 | Dropping an open obligation pauses the feed and asks for a replay; an acknowledged one has no effect |
| `Readers.ReadAlone` | bt-daemon/src/pipeline/journal.rs:1135-1404 | Every run of the only reader of a route, with batches completed in any order, repeatedly, never or let go, failing reads and writes, and other routes pruning meanwhile: no batch has a gap |
| `Readers.Reader.Receive` | bt-daemon/src/pipeline/journal.rs:1267-1340 | The batch that is handed out starts where reading stood, whatever has been pruned since |
| `Readers.SecondReaderSkips` | bt-daemon/src/pipeline/journal.rs:462-477 | A reachable state in which a second reader of the same route is given a batch with a gap: the first reader has acknowledged what the second has not read |
| `Heads.HeadNeverSkips` | bt-daemon/src/pipeline/journal.rs:1376-1404 | In every run, every position between where a route started and its head was in some acknowledged batch of that route |
| `Heads.HeadNeverMovesBack` | bt-daemon/src/pipeline/journal.rs:1376-1404 | Over any continuation of a run a head stays or moves forward |
| `Heads.PruningLosesNothing` | bt-daemon/src/pipeline/journal.rs:166-177 | In every run, every position that some head has not passed is still stored, with the operation that was published there |
| `Heads.NewRouteStartsRetained` | bt-daemon/src/pipeline/journal.rs:614-681 | A route that is new in any reachable state starts at or above the floor, and everything above the floor is retained |
| `Heads.ExpectedHeadIsReached` | bt-daemon/src/pipeline/journal.rs:1381-1395 | A completion whose expected position the head has reached or passed always takes effect |
| `Heads.CursorBatchesIssuable` | bt-daemon/src/pipeline/journal.rs:1135-1203 | The batches that cursors hand out are among those the head theorems quantify over |
| `Pipeline.Run` | bt-daemon/src/pipeline/consumer.rs:191-343 | A source, its journal, other routes and one delivery loop, interleaved in any way with failures and restarts: the route's positions up to its head were acknowledged in consecutive ranges, each only after a sink took the very operations that the failure-free history has there and flushed them with nothing deferred; and if only ledger commits and head writes failed, what was submitted is that history from the start of the route to where reading stands, each operation once and in order |
| `Pipeline.Daemon.Delivers` | bt-daemon/src/pipeline/consumer.rs:191-343 | The same of any state in which source and loop agree |
| `Pipeline.Daemon.Drained` | bt-daemon/src/pipeline/consumer.rs:191-343 | A route whose head is at the end of the failure-free history was given all of it after its start, each operation taken and flushed clean; one read to that end with no other failures was given it once and in order; and then all of it is published |
| `Consumers.FineMeans` | bt-daemon/src/pipeline/consumer.rs:139-188 | What the account of a route says: completed ranges are consecutive from its start to its head, each taken by a sink first, and without other failures everything read was submitted once and in order |
| `Consumers.CompletedMeansTaken` | bt-daemon/src/pipeline/consumer.rs:159-186 | Every position that completed ranges cover was submitted with the operation published there, emitted, flushed clean and only then completed |
| `Consumers.ChainIsOrdered` | bt-daemon/src/pipeline/consumer.rs:181-186 | No position is in two completed ranges, and earlier ranges end before later ones begin |
| `Consumers.Completes` | bt-daemon/src/pipeline/consumer.rs:181-186 | Completing the oldest delivery moves the head to its end and keeps the account |
| `Consumers.Drops` | bt-daemon/src/pipeline/consumer.rs:150-158 | Giving up what waits loses no account: what was not completed is read again |
| `Consumers.Rereads` | bt-daemon/src/pipeline/journal.rs:1267-1290 | A replay resumes at the stored head, where the waiting deliveries began |
| `Consumers.FlushesClean` | bt-daemon/src/pipeline/consumer.rs:159-178 | A clean flush accepts every waiting delivery, because each was emitted to that very sink |
| `Consumers.Consumer.Turn` | bt-daemon/src/pipeline/consumer.rs:211-343 | One turn of the loop keeps the account, whatever fails in it, and changes the tables only by moving heads, with the pruning that this allows |
| `Consumers.Consumer.Finish` | bt-daemon/src/pipeline/consumer.rs:141-188 | Resubmission drops sink and waiting deliveries; a flush goes on to completion only if it succeeded with nothing deferred, and otherwise changes nothing that waits; completion ends with nothing waiting or stays |
| `Consumers.Consumer.AcknowledgeFirst` | bt-daemon/src/pipeline/consumer.rs:181-186 | A stored head completes the oldest delivery and no other; a failed head write puts it back at the front |
| `Consumers.Consumer.Submit` | bt-daemon/src/pipeline/consumer.rs:283-318 | A delivery is queued behind the earlier ones, and marked emitted only if the sink took exactly the operations that are recorded as submitted |
| `Consumers.Consumer.Restart` | bt-daemon/src/pipeline/consumer.rs:191-210 | A new loop starts at the stored head, with whatever waited read again |
| `LedgerLog.AppendKeepsRecords` | bt-daemon/src/delivery_ledger.rs:270-304 | Truncating the torn tail and writing any prefix of a line keeps the earlier complete records; a whole line adds exactly its record |
| `LedgerLog.LineIsRecord` | bt-daemon/src/delivery_ledger.rs:158-173 | The line at a record boundary is that record, however the file ends |
| `LedgerLog.WatermarkIsGreatest` | bt-daemon/src/delivery_ledger.rs:314-325 | The kept version never gets older and is the greatest seen |
| `LedgerLog.RereadIsRead` | bt-daemon/src/delivery_ledger.rs:180-196 | Reading some records twice after a failed refresh leaves the same watermarks |
| `LedgerLog.FoldsGrow` | bt-daemon/src/delivery_ledger.rs:58-117 | Appending records never removes a completion or late merge and never changes an origin |
| `LedgerLog.CompletedExactly` | bt-daemon/src/delivery_ledger.rs:163-196 | A span is completed exactly if the checkpoint or some record names it; late merges and versions likewise (`MergedExactly`, `ReachedLater`) |
| `LedgerLog.MergedExactly` | bt-daemon/src/delivery_ledger.rs:163-196 | A late merge is done exactly if the checkpoint or some record names its id |
| `LedgerRuns.FirstEntryDecides` | bt-daemon/src/delivery_ledger.rs:163-194 | The origin of a span is that of the checkpoint, else that of the first record naming it |
| `Ledger.OriginIndex.RebuildCompleted` | bt-daemon/src/delivery_ledger/origins.rs:34-81 | A rebuilt index holds exactly the completions and late merges of checkpoint and complete records; a failed rebuild changes nothing |
| `Ledger.OriginIndex.RememberCompleted` | bt-daemon/src/delivery_ledger/origins.rs:83-110 | Both kinds of ids are added together or not at all |
| `Ledger.OriginIndex.Completed` | bt-daemon/src/delivery_ledger/origins.rs:112-136 | Answers exactly the asked ids that are known |
| `Ledger.OriginIndex.Write` | bt-daemon/src/delivery_ledger/origins.rs:152-177 | Added origins replace or extend the table as a whole or not at all |
| `Ledger.OriginIndex.Find` | bt-daemon/src/delivery_ledger/origins.rs:179-203 | Finds exactly the asked spans that have an origin |
| `Ledger.SharedLog.WriteLine` | bt-daemon/src/delivery_ledger.rs:270-304 | A crash after any number of bytes keeps the earlier complete records as the beginning of the file |
| `Ledger.DeliveryLedger.Load` | bt-daemon/src/delivery_ledger.rs:58-117 | A new process sees an index equal to the fold of checkpoint and log, whatever an earlier crash left |
| `Ledger.DeliveryLedger.Refresh` | bt-daemon/src/delivery_ledger.rs:141-197 | After a refresh under the lock the process has read all complete records and the shared index is exactly their fold; candidates lose only spans that became durable |
| `Ledger.DeliveryLedger.ReadAll` | bt-daemon/src/delivery_ledger.rs:158-193 | The reading loop takes in every complete record once, from the length of this process |
| `Ledger.DeliveryLedger.Append` | bt-daemon/src/delivery_ledger.rs:270-304 | The record is durable and indexed, or the earlier log is as it was |
| `Ledger.DeliveryLedger.Commit` | bt-daemon/src/delivery_ledger.rs:233-268 | When it succeeds exactly one record was added, with the pending spans and late merges that were not durable yet and with every pending version, or none if that is nothing; every id that was pending is then named by a record, and every pending version is reached by the records. When it fails no pending version is forgotten |
| `Ledger.DeliveryLedger.RecordEmitted` | bt-daemon/src/delivery_ledger.rs:216-231 | Pending spans grow by exactly those that a row ends, late merges by the ids of exactly the rows that have one, and versions as `VersionsAreNewest` says |
| `Ledger.VersionsAreNewest` | bt-daemon/src/delivery_ledger.rs:216-231 | Each pending version was there before or is that of some row of its span, and none is older than any of them |
| `LedgerSinks.LedgerSink.EmitShared` | bt-daemon/src/delivery_ledger.rs:416-585 | The rows handed over are the kept ones of the batch (`LedgerRuns.ForwardedExactly`), each unchanged but for its origin: a birth of a span that was or became durable carries exactly that origin, which for a new span is the one of its first birth in the batch or else the captured versions, and no other row carries any; no completed span gets a new origin; ids become pending only if the backend took rows |
| `LedgerSinks.LedgerSink.Choose` | bt-daemon/src/delivery_ledger.rs:421-536 | Under the lock: rows suppressed by durable or pending ids stay, and every origin of the others is durable or a remaining candidate |
| `LedgerSinks.LedgerSink.Prepare` | bt-daemon/src/delivery_ledger.rs:416-566 | Every origin that a row carries is durable before the row can leave |
| `LedgerSinks.LedgerSink.Propose` | bt-daemon/src/delivery_ledger.rs:421-459 | Every birth of the batch gets a durable origin or a candidate; leftover candidates are kept, and a new one is the origin of the first birth itself, else the captured versions |
| `LedgerSinks.ProposeBirths` | bt-daemon/src/delivery_ledger.rs:428-459 | The loop over births: known origins and leftover candidates stay, and a new candidate is the origin of the first birth itself, else the captured versions |
| `LedgerSinks.FromBirthExactly` | bt-daemon/src/delivery_ledger.rs:428-459 | That is, the origin of the first row of the batch that creates the span, and the captured versions if that row has none; never for the span that the session is attached to |
| `LedgerSinks.LedgerSink.Reconcile` | bt-daemon/src/delivery_ledger.rs:460-482 | Origins that another process made durable replace the proposed ones |
| `LedgerSinks.LedgerSink.DropCompleted` | bt-daemon/src/delivery_ledger.rs:483-515 | A span that the records complete never gets a new origin; every other proposal stays |
| `LedgerSinks.LedgerSink.Filter` | bt-daemon/src/delivery_ledger.rs:516-532 | The loop keeps exactly the rows that `Keep` specifies |
| `LedgerSinks.LedgerSink.PersistCandidates` | bt-daemon/src/delivery_ledger.rs:548-564 | All remaining candidates become durable together, or remain candidates |
| `LedgerSinks.LedgerSink.Stage` | bt-daemon/src/delivery_ledger.rs:421-566 | The locked part of an emission: the rows that may be sent are the kept ones with their durable origins, chosen with the watermarks of everything durable |
| `LedgerSinks.LedgerSink.Send` | bt-daemon/src/delivery_ledger.rs:567-585 | After the lock is dropped, whatever other processes did meanwhile, the rows still carry durable origins; what the backend accepts becomes pending, what it refuses or only defers does not |
| `LedgerSinks.ClearedLater` | bt-daemon/src/delivery_ledger.rs:565-573 | Rows that were cleared under the lock stay cleared however the log grows |
| `LedgerSinks.LedgerSink.FlushBackend` | bt-daemon/src/delivery_ledger.rs:587-588 | Exactly the ids that the backend accepted count as delivered, and only if its flush succeeds |
| `LedgerSinks.LedgerSink.CommitFlushed` | bt-daemon/src/delivery_ledger.rs:589-599 | The locked part of a flush makes everything pending durable, and nothing that was not flushed: each row that was ever accepted is then covered by the records, with its end, its late merge and a version at least as new |
| `LedgerSinks.LedgerSink.CatchUp` | bt-daemon/src/delivery_ledger.rs:589-595 | Before the commit everything that others made durable is read, and leftover candidates that they decided are dropped |
| `LedgerSinks.LedgerSink.SaveAccepted` | bt-daemon/src/delivery_ledger.rs:596-599 | The commit covers every row that this sink's backend ever accepted |
| `LedgerSinks.AwaitsLater` | bt-daemon/src/delivery_ledger.rs:233-268 | Between flushes nothing that was accepted is forgotten: its end, late merge and version are pending or in the records |
| `LedgerSinks.LedgerSink.Flush` | bt-daemon/src/delivery_ledger.rs:587-601 | Only a successful inner flush is followed by a commit, which leaves nothing pending and every accepted row covered by the records |
| `LedgerSinks.StampedRowsLeave` | bt-daemon/src/delivery_ledger.rs:483-566 | The stamped rows of one call carry only durable origins, and none of their ids was durable when the call began |
| `LedgerRuns.RunFleet` | bt-daemon/src/delivery_ledger.rs:119-197 | Any number of processes that join, emit, flush, fail and die in any order, with the others acting between the locked sections and the backend calls, only ever append to the complete records, and keep the shared invariant on every row that left and every id that is durable |
| `LedgerRuns.Fleet.Act` | bt-daemon/src/delivery_ledger.rs:416-601 | One step of one process, a locked section or one call of its backend, leaves every other process valid wherever that one stands |
| `LedgerRuns.OneBirthOrigin` | bt-daemon/src/delivery_ledger.rs:416-573 | Rows of one span that left with an origin, from whatever process and call, carry the same one, that of the first durable entry |
| `LedgerRuns.SuppressedForGood` | bt-daemon/src/delivery_ledger.rs:199-214 | An id that was durable at some point is in no row of any later call |
| `LedgerRuns.ForwardedAreNewest` | bt-daemon/src/delivery_ledger.rs:516-532 | Watermarks of a batch never get older and cover every forwarded version |
| `LedgerRuns.ForwardedExactly` | bt-daemon/src/delivery_ledger.rs:199-231 | What an up-to-date process forwards, row by row: exactly the rows that were not delivered and whose version is current. A row with a late-merge key was delivered exactly if the id made of its span, the unit separator and the key is in the checkpoint, a record or the pending merges, whatever spans are completed; any other row exactly if its span is. A version is current if it is at least as new as, or a native continuation of, the newest of all versions of the span in the checkpoint, the records, the pending rows and the rows forwarded before it |
| `LedgerRuns.SettledHoldsBack` | bt-daemon/src/delivery_ledger.rs:516-532 | A version that any process's backend took before a flush that was made durable holds back every older version of its span, in every process that has caught up since, except for a native continuation of the newest one known |
| `LedgerRuns.MarkIsTop` | bt-daemon/src/delivery_ledger.rs:314-325 | The running watermark is the last of the greatest versions seen |
| `LedgerRuns.PendingIsMark` | bt-daemon/src/delivery_ledger.rs:216-231 | What waits for a flush of a span's versions is the last of the greatest, of the one that waited and those of all accepted rows |
| `Correlation.Registry.ObserveSession` | bt-daemon/src/correlation.rs:103-158 | The in-place steps compute the specification `Observed`, which `Parents.HookChangesExactly` pins, and keep the two maps inverse |
| `Correlation.AgentChanges` | bt-daemon/src/correlation.rs:103-158 | A hook changes no other session, and changes its own process only to a single valid process of its capture; a known one only after a native start |
| `Correlation.ConfirmedIsAncestor` | bt-daemon/src/correlation.rs:555-601 | A confirmed agent is a valid process of the latest capture |
| `Correlation.Registry.ObserveOps` | bt-daemon/src/correlation.rs:263-342 | The loop computes `ObserveAll`, keeps each tool filed under its own span id, and reports a change exactly if some operation was news; if it reports none the registry is as it was |
| `Correlation.NewsExactly` | bt-daemon/src/correlation.rs:276-338 | What counts as news: the session span opens or closes or is born, an open tool ends, or a tool opens. An operation that is none of these changes nothing, and one that is changes the session unless it opens a tool again as it was |
| `Correlation.NoNewsStays` | bt-daemon/src/correlation.rs:263-342 | A batch without news leaves the registry as it is, so that nothing has to be saved |
| `Correlation.Registry.RetireSession` | bt-daemon/src/correlation.rs:451-457 | The in-place steps compute the specification `Retired` |
| `Correlation.RetiredIsClosed` | bt-daemon/src/correlation.rs:451-457 | Retiring forgets tools, span and waiting captures of the session and of no other, leaves its processes mapped, and makes it one to forget once they exit |
| `Correlation.Registry.SelectRoute` | bt-daemon/src/correlation.rs:383-410 | Gives a route exactly when one open session has a compatible one, and then that one |
| `Correlation.Registry.ExitedSessions` | bt-daemon/src/correlation.rs:460-482 | Lists exactly the retired sessions none of whose processes is alive |
| `Correlation.Registry.ForgetExited` | bt-daemon/src/correlation.rs:483-490 | Whatever happened since the sessions were listed, forgets exactly those that are still retired, keeps every other one and keeps the maps inverse |
| `Correlation.Registry.RemoveMapping` | bt-daemon/src/correlation.rs:532-543 | The loop removes the session from both maps, and processes that own nothing else |
| `Correlation.Registry.Resolve` | bt-daemon/src/correlation.rs:344-421 | The loops give one of the answers that some iteration order gives; `Parents.AnswerIsNamed` and `Parents.NamedIsAnswer` say which those are |
| `Correlation.Registry.CompatibleRoute` | bt-daemon/src/correlation.rs:384-400 | The only open tool, else the active session span, if its route is compatible |
| `Correlation.AgentIsSharedAbove` | bt-daemon/src/correlation.rs:555-601 | The agent of a command hook is the nearest process that two hooks have above them |
| `Correlation.RepeatedHookConfirmsNothing` | bt-daemon/src/correlation.rs:573-587 | One hook that is seen twice never confirms an agent |
| `Correlation.ParentOfHistory` | bt-daemon/src/correlation.rs:263-342 | What an agent started after a session's operations attaches to: the tool that some operation left open if it is the only one, and otherwise the first task of the session's own while the last operation naming it leaves it open |
| `Correlation.OpenToolsAreLeftOpen` | bt-daemon/src/correlation.rs:312-339 | The open tools after a history are those with a birth that no later operation ended, as that birth reported them |
| `Correlation.SessionSpanIsFirst` | bt-daemon/src/correlation.rs:269-320 | The session span is that of the first task of its own, whatever tasks follow, and is open exactly while the last operation naming it leaves it open |
| `Correlation.NestedAgentsShareTrace` | bt-daemon/src/correlation.rs:622-677 | However deep agents are nested, all of them stay in the trace and object of the outermost one, each below its own parent span |
| `Correlation.ResolveIsDeterministic` | bt-daemon/src/correlation.rs:344-421 | All iteration orders give the same answer, for any child prefix that ends with the separator |
| `Correlation.OrderMattersExactly` | bt-daemon/src/correlation.rs:378-382 | For other prefixes two orders disagree exactly when the prefix splits the open routes of a session that would be named |
| `Correlation.ResolveIsSound` | bt-daemon/src/correlation.rs:344-421 | A named parent belongs to the nearest registered process, strictly above a known agent; all its open sessions are one native session, not the child's; exactly one has a compatible route |
| `Correlation.NearestIsNearest` | bt-daemon/src/correlation.rs:358-361 | The first registered process of the ancestry decides |
| `Correlation.AfterIsStrict` | bt-daemon/src/correlation.rs:603-620 | Only processes strictly above the agent are looked at |
| `Correlation.LinkKeeps` | bt-daemon/src/correlation.rs:148-157 | Registering a process adds that one entry to both maps and keeps them inverse |
| `Correlation.UnlinkKeeps` | bt-daemon/src/correlation.rs:532-543 | Removing a session keeps the two maps inverse, leaves no process pointing at it, and keeps every other session with its processes |
| `Parents.AnswerIsNamed` | bt-daemon/src/correlation.rs:344-421 | Any answer but standalone names, at the first registered real process of the ancestry (strictly above a known agent), one session with something open, whose open neighbours are all of its native session, none below the child, and alone in having a compatible route; the route is that of its only open tool or else of its own span, with the parent span in its destination, confirmed exactly if the agent is known |
| `Parents.NamedIsAnswer` | bt-daemon/src/correlation.rs:344-421 | Where there is such a session every iteration order answers with exactly that |
| `Parents.AnswerOfHistory` | bt-daemon/src/correlation.rs:263-421 | From a session's operations to the child's destination: it keeps the route's settings and names the span, root, parents and object of the one tool left open, or else of the session's own span |
| `Parents.ComponentsDescribe` | bt-daemon/src/correlation.rs:622-677 | What a span's children are told: its own id, and the trace and object of the destination it was observed with |
| `Parents.AgentExactly` | bt-daemon/src/correlation.rs:555-601 | When an agent is confirmed: for a source with command hooks exactly by two hooks, as the nearest process above both; for any other as the first process of its capture, if that is real |
| `Parents.HookChangesExactly` | bt-daemon/src/correlation.rs:103-158 | Everything one hook changes: which sessions may get an agent, what waits for a second hook, and that tools, spans and other sessions stay |
| `Parents.AncestorsExactly` | bt-daemon/src/correlation.rs:603-620 | Candidates are all processes, or those after the first place of the known agent |
| `Parents.NearestExactly` | bt-daemon/src/correlation.rs:358-361 | The nearest process is the first candidate that is real and registered |
| `Parents.OthersStay` | bt-daemon/src/correlation.rs:263-342 | The operations of one session change nothing that is known of another |
| `Parents.TableExactly` | bt-daemon/src/correlation.rs:321-336 | A session has a table of tools exactly if it had one or some operation opened a tool |
| `Snapshots.ActiveParentSnapshot` | bt-daemon/src/correlation.rs:160-196 | Saves exactly the sessions with something open: their processes, open tools and active session span, in any order |
| `Snapshots.RestoreActiveParent` | bt-daemon/src/correlation.rs:205-261 | The in-place steps compute the specification `Restore`, keep the maps inverse, and report success exactly when the snapshot was restorable and its session is registered |
| `Snapshots.RestoreExactly` | bt-daemon/src/correlation.rs:205-261 | A snapshot of another version, a dirty one, one with several processes and one with nothing open restore nothing; any other adds its process if that is real, and, if the session then has one, its saved tools and span; nothing else changes |
| `Snapshots.RefileExactly` | bt-daemon/src/correlation.rs:231-246 | Of the saved tools with one span id the last is filed, as an active one; other ids stay as they were |
| `Snapshots.RestoreAllRebuilds` | bt-daemon/src/correlation.rs:205-261 | Snapshots of open sessions, restored into an empty registry in any order, rebuild those sessions and nothing else |
| `Snapshots.RestoredAnswers` | bt-daemon/src/correlation.rs:344-421 | The rebuilt registry answers every question as the saved one would without the processes that have only closed sessions |
| `Snapshots.RestartKeepsAnswers` | bt-daemon/src/correlation.rs:344-421 | The answer is unchanged unless the nearest registered process has only closed sessions |
| `Snapshots.ClosedBoundary` | bt-daemon/src/correlation.rs:362-371 | Below such a process the answer is unchanged exactly when the next process up with an open session names nobody |
| `Snapshots.RestartMovesBoundary` | bt-daemon/src/correlation.rs:362-371 | A concrete registry whose answer changes: a retired session below an open one is no boundary after a restart |
| `Snapshots.ConfirmParent` | bt-daemon/src/correlation.rs:423-438 | A candidate becomes the parent exactly when its process is valid and strictly above the agent |
| `Snapshots.ConfirmsExactly` | bt-daemon/src/correlation.rs:423-438 | That is, when both are real processes and the candidate stands somewhere after the agent in the ancestry |
| `Snapshots.ConfirmedIsAnswer` | bt-daemon/src/correlation.rs:344-438 | A candidate confirmed by the same capture is the answer that a known agent would have got |
| `OpenTools.Observations` | bt-daemon/src/pipeline/journal.rs:736-759 | The rows of the recovery table, read in any order, as births and their ends |
| `OpenTools.RereadExactly` | bt-daemon/src/pipeline/journal.rs:736-759 | Every kept birth is read back, of tools and of roots, and an end for each that has one; nothing else is |
| `OpenTools.RecoveredToolsAreOpenTools` | bt-daemon/src/pipeline/journal.rs:123-165 | Feeding the recovered observations to a fresh registry opens exactly the tools that are open in a registry that saw every operation of the history as it was, if no root task took the id of an open tool |
| `OpenTools.BirthsExactly` | bt-daemon/src/pipeline/journal.rs:123-165 | What the recovery table holds of a history: for each span the last insertion that opened it, with every column but payload, merge key and end, and the end that the last operation of the span gave; a tool is left out exactly once an operation since that insertion ended it |
| `OpenTools.MetadataIsEnough` | bt-daemon/src/pipeline/journal.rs:101-122 | The registry learns as much from an operation without its payload as from the whole one |
| `OpenTools.AgreeExactly` | bt-daemon/src/pipeline/journal.rs:138-164 | The recovery table describes the open tools after every prefix of a history exactly when no open root task takes the id of an open tool |
| `OpenTools.OneTypeNeverDisplaces` | bt-daemon/src/pipeline/journal.rs:132-160 | That cannot happen when every insertion of a span id has the same span type |
| `OpenTools.RootTaskHidesTool` | bt-daemon/src/pipeline/journal.rs:138-154 | A concrete history where it does happen, and a tool is lost |
| `OpenTools.SaveBirthObserves` | bt-daemon/src/pipeline/journal.rs:123-165 | One saved operation keeps the table equal to the open tools exactly when it displaces none |
| `OpenTools.FirstOriginWins` | bt-daemon/src/pipeline/journal.rs:125-130 | The origin table holds for each span the first origin in the history |
| `PiContext.ReplayIsHistoryExactly` | bt-daemon/src/journal.rs:251-266 | For any run of appends, reopened writers, control records and failed writes that leave nothing, part of a line, a line without its newline or a whole line: replay returns every record that is in the file, as far as it is kept, exactly when no line is torn or run into the next, no event brings its own delta and no list leaves out more than it shares with the list stored before it |
| `PiContext.ReplayReturnsEveryList` | bt-daemon/src/journal.rs:251-266 | Without torn lines, writers that are discarded when an append fails always satisfy that |
| `PiContext.KeptWriterLosesList` | bt-daemon/src/journal.rs:256-266 | A writer that is kept after a failed append can store a list that no reader gets back |
| `PiContext.ReopeningRepairsNothing` | bt-daemon/src/journal.rs:228-242 | A torn line spoils the record after it, also when the writer is reopened in between |
| `PiContext.PositionIsEndExactly` | bt-daemon/src/journal.rs:262-265 | The position that a writer reports never passes the end of the file, and is the end exactly until a failed write leaves something behind |
| `PiContext.PlainReadsBack` | bt-daemon/src/journal.rs:509-530 | A reader at any context gets a stored list back exactly when the prefix that was left out is a prefix it has |
| `PiContext.KeptExactly` | bt-daemon/src/journal.rs:509-530 | A context event is kept whole exactly when it has an array of messages and no delta key, or no messages |
| `PiContext.ResumeContinues` | bt-daemon/src/journal.rs:341-354 | A reader resumed at the end of any record returns exactly the rest of the history |
| `PiContext.JournalWriter.CompactPayload` | bt-daemon/src/journal.rs:501-561 | The in-place steps compute the specification `Compact` and the new context |
| `PiContext.JournalWriter.Append` | bt-daemon/src/journal.rs:256-266 | A confirmed append adds one line and moves the position; a failed one may leave anything of the line in the file, does not move the position, and has already moved the context |
| `PiContext.JournalWriter.AppendControl` | bt-daemon/src/journal.rs:268-281 | The same for control records, which leave the context alone |
| `PiContext.JournalReader.ExpandPayload` | bt-daemon/src/journal.rs:563-603 | The in-place steps compute the specification `Expand`; on an error the context is unchanged |
| `PiContext.JournalReader.NextRecord` | bt-daemon/src/journal.rs:399-422 | Returns the next record of the replay, passing over blank lines only |
| `PiContext.JournalReader.Resume` | bt-daemon/src/journal.rs:341-354 | Succeeds exactly for a position that is the end of a record before which everything can be read |
| `PiFields.ContextExactly` | bt-daemon/src/journal.rs:513-533 | The stored form of a context event with a list, field by field: instead of `messages` it has `_bt_messages_delta` with the number of messages shared with the previous list, the greatest there is, and the others; every other field is there, and the list becomes the writer's context |
| `PiFields.DeltaExactly` | bt-daemon/src/journal.rs:563-603 | A stored delta is read exactly if its prefix is a number up to the length of the reader's list and its suffix an array; then the event comes back with that list as its messages and no delta, and otherwise the reader's list is unchanged |
| `PiFields.OtherEventsExactly` | bt-daemon/src/journal.rs:534-560 | What is stored of, and comes back from, any other event, field by field: an `agent_end` without its messages, a `message_update` with its type and the type of its inner event only, a provider request with its configuration, and everything else as it was |
| `PiFields.ContextWithoutList` | bt-daemon/src/journal.rs:514-519 | A context event whose messages are no array is stored without them and leaves the context alone |
| `PiFields.WholeContextExactly` | bt-daemon/src/journal.rs:577-582 | A context event without a delta is read as it is, and its list becomes the reader's context |
| `PiFields.ForeignEventsExactly` | bt-daemon/src/journal.rs:501-511 | Events of other sources, and those without a native event, are stored and read as they are |
| `RawPaths.EscapeInvalidBackslashes` | bt-daemon/src/hook.rs:388-420 | The scanner returns the repaired text, or nothing when every backslash in a string starts an escape |
| `RawPaths.UnchangedExactly` | bt-daemon/src/hook.rs:388-420 | Repair leaves a text alone exactly when every backslash inside its strings starts a valid escape |
| `RawPaths.FixIsIdempotent` | bt-daemon/src/hook.rs:388-420 | Repairing twice is repairing once |
| `RawPaths.RoundTripExactly` | bt-daemon/src/hook.rs:388-437 | Repairing, reading by the grammar of section 7 of RFC 8259, and restoring returns a raw path exactly when it has no quote, no control character, no doubled backslash, no escaped slash or code point and no backslash at its end |
| `RawPaths.PathReadExactly` | bt-daemon/src/hook.rs:372-386 | The whole payload gives the raw path back exactly when in addition it has no backslash, or one that makes strict parsing fail |
| `RawPaths.SilentlyAltered` | bt-daemon/src/hook.rs:372-386 | A path with backslashes that all start escapes by accident is lost without an error: the payload holds another text, from which restoring would have given the path back |
| `RawPaths.TempIsAltered` | bt-daemon/src/hook.rs:372-386 | A concrete payload, the directory `c:\temp`, read as `c:`, a tab and `emp` |
| `RawPaths.ParseHookPayload` | bt-daemon/src/hook.rs:372-386 | Text that parses strictly is never touched; otherwise the repaired text is parsed and the path field restored |
| `RawPaths.RestoreRawPathEscapes` | bt-daemon/src/hook.rs:422-437 | The loop puts the five accidental escapes back |
| `RawPaths.ReadShortens` | bt-daemon/src/hook.rs:388-437 | What is read and restored is never longer than what was written, and shorter if anything was lost |
| `RawPaths.ReadConsumes` | bt-daemon/src/hook.rs:372-376 | A strictly read string is its own text exactly when it has no escape, and shorter otherwise |
| `RawEscapes.FixExactly` | bt-daemon/src/hook.rs:388-420 | The repair piece by piece, for any text: quotes open and close strings; inside one, a backslash before one of the eight characters, or before `u` and four hexadecimal digits, stays with what follows it, and any other backslash is doubled; everything else stays |
| `RawEscapes.ValidExactly` | bt-daemon/src/hook.rs:388-420 | Nothing is repaired exactly when no backslash inside a string has to be doubled |
| `RawEscapes.RestoreExactly` | bt-daemon/src/hook.rs:422-437 | Exactly backspace, form feed, newline, carriage return and tab are replaced, each by a backslash and the letter of its escape |
| `RawEscapes.ReadExactly` | bt-daemon/src/hook.rs:372-376 | What strict parsing reads of a string, character by character, by section 7 of RFC 8259: the closing quote, control characters, ordinary characters, and escapes by their code points |
| `RawEscapes.ReadPairExactly` | bt-daemon/src/hook.rs:372-376 | Two escaped halves are read as the one code point of section 7 of RFC 8259, and a first half without a second one is an error |
| `RawEscapes.RepairedExactly` | bt-daemon/src/hook.rs:372-386 | Of a repaired object only the path field is restored, if it is there and is text; every other field stays |
| `RawEscapes.DigitsExactly` | bt-daemon/src/hook.rs:403-406 | Four hexadecimal digits in either case, and the code that they stand for |
| `TranscriptMirror.ReferencesAreImmutable` | bt-daemon/src/transcript_mirror.rs:87-164 | Over any history of appended, cut or rewritten transcripts, torn captures and changed pointers, every returned reference stands for the first bytes of the transcript that were observed at its capture, or all of it if there were not so many, for good |
| `TranscriptMirror.CaptureHolds` | bt-daemon/src/transcript_mirror.rs:92-164 | A capture refers to exactly what was observed: with a length no greater than the transcript, to so many first bytes, and otherwise to all of it. Its file becomes the current one; a file that it starts holds nothing beyond those bytes, and no other file or pointer changes |
| `TranscriptMirror.NewGenerationExactly` | bt-daemon/src/transcript_mirror.rs:116-146 | A new file is started exactly when the transcript is shorter than the mirror, or differs from it at some byte that was observed and is in both |
| `TranscriptMirror.GrowingIsStoredOnce` | bt-daemon/src/transcript_mirror.rs:92-164 | Over any number of captures of a transcript that only grows, some of which stop half-way, one file holds it, each byte once, no other file changes, and every completed capture refers to that file |
| `TranscriptMirror.MirrorStore.PrefixChanged` | bt-daemon/src/transcript_mirror.rs:116-134 | The buffered comparison decides whether the prefixes differ |
| `TranscriptMirror.MirrorStore.CaptureGeneration` | bt-daemon/src/transcript_mirror.rs:92-164 | The in-place steps compute the specification `Capture`, which `CaptureHolds` and `NewGenerationExactly` pin |
| `TranscriptMirror.MirrorStore.CaptureFollowing` | bt-daemon/src/transcript_mirror.rs:48-84 | The plain capture computes `Follow` on its one file |
| `TranscriptMirror.FollowCases` | bt-daemon/src/transcript_mirror.rs:48-84 | What a plain capture does: a longer transcript has what is missing appended, a shorter one replaces the file, and an empty one changes nothing |
| `TranscriptMirror.FollowHoldsExactly` | bt-daemon/src/transcript_mirror.rs:48-84 | A plain capture refers to the transcript exactly when that was appended to, or replaced by a shorter one that is not empty |
| `TranscriptMirror.FollowKeepsExactly` | bt-daemon/src/transcript_mirror.rs:62-67 | It keeps earlier references exactly when it does not start over |

## Left out

- SQLite and file system internals: transactions are atomic, positions are never reused, the lock is exclusive and a generated mirror name is new; torn writes are modelled for the ledger file, the event journal, transcript mirrors and mirror pointers. Power failures that undo a confirmed write are not.
- Encodings of operations, envelopes and ledger records: decoding inverts encoding, and an encoded ledger record has a newline at its end only. JSON numbers are unbounded; a stored prefix length beyond 64 bits is an error in the code and in the model, with another message.
- Timers and windows: where a chunk or batch ends is an arbitrary choice, except that a batch in `TakeLive` and `ReadRows` respects the byte budget and a live queue its slots and permits.
- The translator is any deterministic function from source records to operations, so `Publication` takes the operations of each record as given; origins added before the root stage, and source records that produce nothing on replay (retirement, other sources), are not distinguished.
- Profile-alias renaming in `subscribe`, `reconfigure_held`, `route_settings`, `bind` and the failure columns: side settings that do not move heads.
- Schema upgrades, released checkpoint formats, the legacy import of older ledgers and journals, and age-based cleanup: the journal starts fresh, and the ledger checkpoint is a fixed base.
- The sink path without a ledger, credentials, routing and plugins: the backend accepts, defers or refuses as it likes. A batch the consumer holds for configuration is held like any other.
- Waiting, wake-ups and shutdown: a receive or consumer turn that finds nothing to do ends, and another may follow.
- Thread interleavings inside one registry method that holds its lock throughout, and a transcript that changes while it is being captured.
- `span_processor.rs`, `pipeline/prepare.rs` and the choice of observers: operations reach the registry as `observe` gives them.
- A journal read whose byte bound cuts a line: readers are bounded by recorded lengths of the file. That a torn line and the line run into it cannot be decoded is taken from the grammar of section 2 of RFC 8259, not proved.
- Sessions' first-task spans after a restart: `OpenTools` is about tools; the journal keeps root births only, while the registry takes the first owned task as the session span.
- RawPaths.PathReadExactly: the rest of the JSON grammar is a parser that is only required to read an object with one text member by the string grammar, and paths with a quote are excluded because the text then has another shape.
- Publication.RestartCompletes: that missing operations can still be published; when a scheduler runs the worker is not modelled.
- Pipeline.Run: one delivery loop for a route, as the daemon runs it; the steps of source, loop and other routes are interleaved one call at a time, and two readers of one route are only in `Heads` and `Readers.SecondReaderSkips`.
- Sources.Source.Advance: the requested position is the end of the plan; asking for less is asking for a shorter plan.
- Readers.ReadAlone: says nothing of progress; when batches are handed out is the scheduler's choice.
- Sockets, pipes, process spawning, access control, command parsing, `pipeline/input.rs`, `process.rs`, `muse/usage.rs`: input and output, or simpler forms of what is proved here.
