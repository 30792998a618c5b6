# Verification of the fragment-delivery path of gst-kvs-sink

A Dafny model of how `rskvssink` gets H.264 fragments from the streaming thread to Kinesis Video Streams,
or to disk and from there to Kinesis later, with proofs of what it promises. `dafny verify dfyconfig.toml`
verifies all of it.

The sink cuts buffers into fragments at keyframes, writes each as an MKV cluster, and hands it through a
64-slot queue to an upload worker. The worker sends it over a persistent connection, or appends it to a
"mega-cluster" file. A network failure switches the sink to buffering and spawns a recovery task; triggers
upload what is on disk and may switch back to live.

## Files

| files | what they model |
|---|---|
| `Wrappers`, `Bytes` | an option type; fixed-width integers as bytes |
| `RecordLog` | the mega-cluster file format and its crash-tolerant reader |
| `FileNames` | file names and the order of the restart scan |
| `BufferEvents`, `BufferModel`, `BufferInvariant`, `BufferTrigger` | the buffered upload manager as functions on a state, the invariant of every operation, one trigger |
| `BufferEffects` | what one operation of it does, in numbers and as its caller sees it |
| `BufferLoss`, `BufferRuns` | exactly when an operation, and a run, loses data; whole runs on any directory |
| `BufferedUploadManager` | the manager as a class updated in place, method by method equal to those functions |
| `CrashRecovery` | a crash at any byte, a restart, a full upload |
| `AckStatus`, `AckFraming` | matching acknowledgments to fragments; cutting the acknowledgment stream into lines |
| `KvsModel`, `KvsConnection` | the persistent connection as functions, and as a class |
| `MkvWriter` | presentation times, absolute cluster times, block offsets, the timestamp bytes |
| `RenderThread` | cutting the buffer sequence into fragments |
| `Pipeline` | streaming thread, worker, triggers and recovery tasks over the buffer manager as one state machine; a step is one critical section, channel operation or completed call |
| `PipelineAccounting`, `PipelineSessions`, `PipelineRecovery`, `PipelineStranding` | invariants of that machine over every interleaving |
| `PipelineTrace`, `PipelineBoundary`, `PipelineFailure`, `PipelineDelivery` | what each actor makes of a keyframe, a refused put and a finished upload, over every run, by what its steps change |
| `PipelineClock` | what the clock has to do for nothing to be lost, over every interleaving |
| `PipelineWires` | the machine with the connection under it: what the wires carry |
| `KvsSink` | the sink's fields and methods, calling the manager and the connection; each method, with the other actors running between its critical sections, is a run of the machine |
| `Locks` | every actor as a program over the locks; deadlock freedom |

Values that a class of the source updates in place are fields of a class here. Each method is proved equal
to a function on the state, and the theorems are about runs of those functions.

What comes from outside is a parameter: the clock, the outcome of every put, reconnection attempt, channel
operation and file deletion, the age of every acknowledgment entry, and whether an error looks like a
network error.

## What the proofs found

- **A recovery can be cancelled for good.** `switch_mode` schedules the switch in one critical section and
  cancels the recovery task in another (src/kvssink/imp.rs:1351-1362). In between the streaming thread can
  execute the switch, the next fragment can fail, and the worker can store a new recovery task, which the
  second cancel then aborts. The sink stays in BufferOnly until somebody triggers an upload.
  `RecoveryCanBeLost` is the run, `StrandedIffLastRescuerCancelled` says that nothing else strands the sink,
  and `OnlyATriggerHelps` that it does not recover. `NeverStranded` gives the guard that would repair it.
- **Two files created in one millisecond share a name**, and creation truncates
  (src/buffered_upload_manager.rs:404-413). `SameMillisecondLosesFragment` loses a fragment this way.
  `CreationLosesIff` is exact: something is lost if and only if the name is that of a file on disk that holds a
  fragment and was not accepted in full. Once a name was reused, cleanup can also delete the new file through
  the old entry, and a push can go to a deleted file; `RunLosesIff` and `InterleavingLosesIff` are exact for
  whole runs. Names that no tracked file has exclude all of it, for the disk buffer alone (`FreshNamesSuffice`,
  with names that also sort last) and over every interleaving (`FreshNamesLoseNothing`), and stamps that grow
  give such names (`GrowingStampsAreFresh`).
  A file name that does not sort last costs the order after a restart (`RestartOrderIff`).
- **A chunk of the acknowledgment stream that splits a UTF-8 character is dropped whole**
  (src/kvs_client.rs:729); `ChunkIndependence` is exact.
- **A first keyframe without a presentation time stops fragmenting**: no boundary is ever due
  (`NoPtsNeverFragments`; `BoundaryIff` is exact).
- **An error acknowledgment without an error id marks nothing**, because the text it would store is `None`
  (src/kvs_client.rs:557-558).
- **A span over 32,767 ms wraps the 16-bit block offset** (src/mkv_writer.rs:321-322); `TimestampFidelity`
  is exact.

Where documentation and code disagree, the model follows the code:

- `put_fragment` is documented to return once the fragment is persisted (src/media_uploader.rs:22-27). It
  returns once the cluster is handed to the connection, so "accepted" means that.
- `trigger_upload_all` is documented to upload what arrives during the upload as well
  (src/buffered_upload_manager.rs:498-504). It holds the manager exclusively, so the file it opens for
  arriving fragments is always empty, is never tracked, and stays on disk as an empty file.
- The README of the repository calls the disk buffer bounded by retention. Cleanup removes only uploaded
  files, and stops at the first that is not (`CleanupExact`).
- A trigger returns Ok even when every file failed, and going live follows.

## Model

| member | source | states |
|---|---|---|
| `RecordLog.ReadCut` | src/buffered_upload_manager.rs:67-138 | For every fragment list and every cut point n, reading the first n bytes until the first `None` yields exactly the records lying wholly within n bytes, each with its bytes and with less than 1,000,000 ns lost of either time, and never panics; "wholly within" is characterised by the byte length of each prefix |
| `RecordLog.ReadWhole` | src/buffered_upload_manager.rs:335-368 | A whole file reads back every header and cluster, each time a multiple of 1,000,000 ns and less than that below the original, and writing what was read gives the same bytes |
| `RecordLog.ReadComplete` | src/buffered_upload_manager.rs:76-137 | A record that is wholly present at an offset is returned, and the offset moves just past it |
| `RecordLog.ReadTorn` | src/buffered_upload_manager.rs:72-124 | A record cut short anywhere is never returned: the reader answers `None` |
| `RecordLog.ReaderNotFused` | src/buffered_upload_manager.rs:101-127 | After a `None` the offset has moved past the metadata, so a further call can return a record made of bytes inside the torn one |
| `RecordLog.StoredOnce` | src/buffered_upload_manager.rs:338-344 | Storing what was read changes nothing: same record bytes, same fragment |
| `RecordLog.StoredFloors` | src/buffered_upload_manager.rs:338-344 | In numbers: storing keeps the bytes and loses less than 1,000,000 ns of either time; a time before the epoch becomes 0 |
| `RecordLog.RecordLayout` | src/buffered_upload_manager.rs:346-363 | A record is cluster size, timestamp in ms, duration in ms and header size as little-endian words, in this order, then the headers, then the cluster |
| `RecordLog.ReadAtIff` | src/buffered_upload_manager.rs:70-137 | On any bytes whatever, damaged ones included, exactly when the reader finds a fragment, and which; exactly when it panics; and where it stops otherwise |
| `RecordLog.ClusterFileReader.Next` | src/buffered_upload_manager.rs:70-137 | The iterator step, with its three outcomes and the moved offset, is the reader specification; index overflow and an out-of-range duration are explicit panics |
| `RecordLog.ClusterFileReader.constructor` | src/buffered_upload_manager.rs:59-64 | A reader starts at the beginning of the loaded bytes |
| `Bytes.LittleEndianRoundTrip` | src/buffered_upload_manager.rs:347-350 | A metadata word decodes to the number it was written from |
| `Bytes.BigEndianRoundTrip` | src/mkv_writer.rs:302-313 | Big-endian bytes decode to the number they were made from |
| `Bytes.LittleEndianDigits` | src/buffered_upload_manager.rs:347-350 | Byte i of the little-endian form is digit i in base 256, from the lowest |
| `Bytes.BigEndianDigits` | src/mkv_writer.rs:302-313 | Big-endian bytes are the same digits, highest first |
| `FileNames.FileNameOrder` | src/buffered_upload_manager.rs:259-260 | Names of one stream whose stamps have equally many digits sort character by character exactly as their stamps sort as numbers |
| `FileNames.DecimalOrder` | src/buffered_upload_manager.rs:404-407 | Among decimals of equal length, character order is numeric order, and equal strings are equal numbers |
| `FileNames.StampsOfOneLength` | src/buffered_upload_manager.rs:404-407 | Every millisecond stamp from 2001 to 2286 has 13 digits |
| `FileNames.CreatedNameIsScanned` | src/buffered_upload_manager.rs:236-241 | Every name the manager gives to a file passes the filter of the restart scan |
| `FileNames.DecimalValue` | src/buffered_upload_manager.rs:404-407 | A stamp is written in decimal digits without leading zeros, and reads back as itself |
| `FileNames.ScannedMeans` | src/buffered_upload_manager.rs:236-241 | The filter keeps exactly the names that begin with the stream name, contain `_clusters_` and end in `.dat` |
| `FileNames.LessMeans` | src/buffered_upload_manager.rs:259-260 | The order of names is by the first character in which they differ, a proper prefix coming first |
| `FileNames.SortedIsUnique` | src/buffered_upload_manager.rs:259-260 | A set of names has one listing in scan order |
| `FileNames.SortNames` | src/buffered_upload_manager.rs:259-260 | Sorting returns exactly the given names, in scan order |
| `BufferInvariant.PushKeeps` | src/buffered_upload_manager.rs:319-385 | A push, rotating or not, keeps the whole invariant (order, metadata, sizes, budget, accounting) and records the fragment as last pushed |
| `BufferInvariant.FinalizeKeeps` | src/buffered_upload_manager.rs:429-459 | Finalizing moves the current file to the back of the deque with metadata that agrees with its records, and keeps the invariant |
| `BufferInvariant.RecordPassKeeps` | src/buffered_upload_manager.rs:575-603 | Marking a file after one pass, complete or not, keeps the invariant, the retry budget included |
| `BufferInvariant.CleanupKeeps` | src/buffered_upload_manager.rs:462-490 | Cleanup keeps the invariant, so it forgets nothing that was not accepted in full |
| `BufferInvariant.CleanupExact` | src/buffered_upload_manager.rs:462-490 | Cleanup pops exactly the longest prefix of entries that are old and uploaded; an entry not uploaded stops it |
| `BufferTrigger.TriggerKeeps` | src/buffered_upload_manager.rs:509-664 | Whatever the uploader answers, a trigger keeps the invariant, leaves no file open, makes one in-order pass per selected file, and emits one error per failed file followed by exactly one completion carrying `end.is_none()` |
| `BufferTrigger.TriggerOrder` | src/buffered_upload_manager.rs:575-603 | What one trigger gets accepted is a subsequence of push order, and if every put is accepted it is everything in the selected files |
| `BufferTrigger.TriggerCompleteness` | src/buffered_upload_manager.rs:538-549 | If every put is accepted, a trigger delivers every fragment with timestamp in the range from every file of this run that is not uploaded and has retries left |
| `BufferTrigger.SelectedFacts` | src/buffered_upload_manager.rs:538-549 | The selection is exactly the wanted files, in deque order |
| `BufferModel.PutAll` | src/buffered_upload_manager.rs:687-698 | What is accepted of a file is a prefix of it, and the pass is complete exactly when it is all of it |
| `BufferModel.IndexOf` | src/buffered_upload_manager.rs:734-738 | Marking applies to the first entry with the path |
| `BufferEffects.PushRotatesIff` | src/buffered_upload_manager.rs:319-399 | A push closes the open file and writes to a new one named and timed by the clock if and only if none is open, or the open one is 1,800,000,000,000 ns old or holds 45,000,000 bytes; otherwise it appends to the open one |
| `BufferEffects.FailedPushRotatesIff` | src/buffered_upload_manager.rs:319-333 | A push that fails rotates in the same cases, writes nothing, and has a new file only if it could create one |
| `BufferEffects.PassEffect` | src/buffered_upload_manager.rs:733-777 | After a complete pass the file is marked and, if that works, deleted; after any other one attempt more is counted and the file is kept |
| `BufferEffects.PutAllExact` | src/buffered_upload_manager.rs:687-698 | A pass puts the records up to and including the first that is refused, and is complete if and only if none is |
| `BufferEffects.PassOfFile` | src/buffered_upload_manager.rs:668-706 | A pass is complete if and only if the file is there, reads to its end, and no put of it is refused |
| `BufferEffects.CleanupEffect` | src/buffered_upload_manager.rs:462-490 | Cleanup forgets the longest prefix of entries that are uploaded and whose start is more than the retention ago, deletes what is left of their files where that works, and touches nothing else |
| `BufferEffects.SelectedIff` | src/buffered_upload_manager.rs:538-549 | A path is selected if and only if an entry of it is not uploaded, was tried less than five times, ends no earlier than the start and begins no later than the end |
| `BufferEffects.UploadedIff` | src/buffered_upload_manager.rs:538-603 | A file of this run gets a pass from a trigger if and only if its first and last fragments do not put it wholly outside the range, no pass over it got through, and fewer than five failed |
| `BufferTrigger.DeletedOnlyAfterAcceptance` | src/buffered_upload_manager.rs:733-757 | A file gone from disk had every record accepted in one in-order pass |
| `BufferTrigger.UploadedMeansAccepted` | src/buffered_upload_manager.rs:733-777 | An entry is marked uploaded if and only if one pass accepted all of it, and at most five passes over it fail |
| `BufferTrigger.NothingIsLost` | src/buffered_upload_manager.rs:319-385 | Every pushed fragment is on disk in a file the manager will get to, or was accepted with its whole file |
| `BufferTrigger.FileSizeBound` | src/buffered_upload_manager.rs:388-399 | A file is under 45,000,000 bytes plus its last record, hence under 50 MB when no record exceeds 5,000,000 bytes |
| `BufferLoss.CreationLosesIff` | src/buffered_upload_manager.rs:402-426 | Under the invariant, creating a file loses records that were safe if and only if the name is in the directory, holds a fragment, and no pass over it got through |
| `BufferLoss.CreationLosesExactly` | src/buffered_upload_manager.rs:409-413 | The same from any state whatever: creation loses something if and only if the name is that of a tracked file whose records were not accepted in full |
| `BufferLoss.RestartOrderIff` | src/buffered_upload_manager.rs:259-280 | A restart lists the files in creation order if and only if the name of a new, unused file sorts after every file still in the directory |
| `BufferLoss.OpLosesExactly` | src/buffered_upload_manager.rs:300-664 | With any clock, a push, trigger or cleanup loses something if and only if it creates a file under the name of a live one, appends to a file deleted while open, or sweeps a live file |
| `BufferLoss.CleanupLosesExactly` | src/buffered_upload_manager.rs:462-490 | A cleanup loses something if and only if an entry it forgets names a file with records not accepted in full, which is deleted or no longer tracked |
| `BufferRuns.RunLosesIff` | src/buffered_upload_manager.rs:300-664 | On any directory and with any clock, a run loses something at some point if and only if one of its operations is harmful in that sense when its turn comes |
| `BufferRuns.HarmlessRunLosesNothing` | src/buffered_upload_manager.rs:300-706 | A run without a harmful operation ends with everything found at start or pushed still in a tracked file on disk, or accepted |
| `BufferRuns.FreshNamesSuffice` | src/buffered_upload_manager.rs:404-407 | A clock that gives every new file a fresh name makes every run harmless |
| `BufferTrigger.ClockGivesFreshNames` | src/buffered_upload_manager.rs:404-407 | One millisecond between creations gives such names |
| `BufferTrigger.SameMillisecondLosesFragment` | src/buffered_upload_manager.rs:409-413 | Without it data is lost: a push and a trigger within one millisecond truncate the only copy, and the empty file is then marked uploaded |
| `BufferRuns.FilesHoldPushesInOrder` | src/buffered_upload_manager.rs:319-459 | Over any run on any directory a manager can start on, the files in deque order followed by the current file hold what was recovered and then pushed, from some point on; paths are unique; and size, count, start and end times of the files of this run agree with their records |
| `BufferRuns.PushedIsKeptOrAccepted` | src/buffered_upload_manager.rs:300-385 | Over any such run every fragment recovered or pushed is on disk in a tracked file or was accepted in full |
| `BufferRuns.DeletedWasAccepted` | src/buffered_upload_manager.rs:733-757 | Over any such run a file no longer on disk, recovered or not, had every record accepted in order |
| `BufferRuns.FivePassesAtMost` | src/buffered_upload_manager.rs:538-549 | Over any such run a tracked file has at most 5 failed passes and is marked exactly when accepted in full |
| `BufferRuns.FilesStayUnderLimit` | src/buffered_upload_manager.rs:16-18 | Over any such run no file of the run reaches 50 MB when no record exceeds 5 MB |
| `BufferRuns.TriggerAfterRun` | src/buffered_upload_manager.rs:509-664 | A trigger after any such run delivers a subsequence of what was recovered and pushed, in that order, then one completion event |
| `BufferRuns.CompleteAfterRun` | src/buffered_upload_manager.rs:538-603 | After any such run, a trigger whose puts are all accepted delivers every unsent fragment of the range with retries left from the files of the run |
| `CrashRecovery.CrashRestart` | src/buffered_upload_manager.rs:208-297 | From any state, cut the current file at any byte, start a new manager and trigger a full upload that succeeds: what is accepted is exactly the complete records of all files still on disk, in push order |
| `CrashRecovery.CrashAfterRun` | src/buffered_upload_manager.rs:208-297 | The same after any run on any directory, so in every life of the manager: the files left by a crash are again a directory to start on |
| `CrashRecovery.CrashedCanStart` | src/buffered_upload_manager.rs:208-297 | Whatever the cut, what a crash leaves is a directory that a manager can start on |
| `CrashRecovery.RecoveredSelection` | src/buffered_upload_manager.rs:262-280 | After a restart a range selects exactly the recovered files that were last written in it |
| `CrashRecovery.ListedMeans` | src/buffered_upload_manager.rs:228-257 | Listed are exactly the files in the directory whose names pass the filter |
| `CrashRecovery.StartIsValid` | src/buffered_upload_manager.rs:172-199 | A manager started on any readable directory satisfies the invariant and would upload every listed file |
| `CrashRecovery.ListingIsCreationOrder` | src/buffered_upload_manager.rs:259-280 | The sorted listing found after a crash is the creation order of the files still there |
| `BufferedUploadManagers.BufferedUploadManager.constructor` | src/buffered_upload_manager.rs:173-199 | A new manager tracks the files of earlier runs in name order |
| `BufferedUploadManagers.BufferedUploadManager.ScanExistingMegaClusterFiles` | src/buffered_upload_manager.rs:208-297 | The scan keeps exactly the matching names, sorted, each timed by its modification time |
| `BufferedUploadManagers.BufferedUploadManager.PushFragment` | src/buffered_upload_manager.rs:300-385 | The new state is that of the push specification, errors of creating or writing included: rotated if and only if none is open or the open file is 30 minutes old or holds 45 MB, one record appended; the invariant holds again when the fragment fits in memory and the clock moved on |
| `BufferedUploadManagers.BufferedUploadManager.AppendToCurrent` | src/buffered_upload_manager.rs:335-368 | The bytes appended are the four words, headers and cluster; size, last time and count follow, also when the open file was deleted |
| `BufferedUploadManagers.BufferedUploadManager.StartNewMegaClusterFile` | src/buffered_upload_manager.rs:402-426 | The file named by the clock is created empty and becomes current |
| `BufferedUploadManagers.BufferedUploadManager.FinalizeCurrent` | src/buffered_upload_manager.rs:429-459 | The current file moves to the back of the deque with its times, size and count |
| `BufferedUploadManagers.BufferedUploadManager.UploadMegaClusterFile` | src/buffered_upload_manager.rs:668-706 | The upload loop puts the records of a file in order, stops at the first refusal, and succeeds only when all were accepted |
| `BufferedUploadManagers.BufferedUploadManager.UploadSelected` | src/buffered_upload_manager.rs:575-603 | The loop over the selected files does one pass each, in order |
| `BufferedUploadManagers.BufferedUploadManager.UploadNext` | src/buffered_upload_manager.rs:575-600 | After a pass the file is marked and deleted, or the failure counted and reported |
| `BufferedUploadManagers.BufferedUploadManager.TriggerUploadAll` | src/buffered_upload_manager.rs:509-664 | The new state is that of the trigger specification, the invariant holds again, and no file is open |
| `BufferedUploadManagers.BufferedUploadManager.FilesToUpload` | src/buffered_upload_manager.rs:538-549 | The selection loop returns exactly the paths of the uploadable entries, in deque order |
| `BufferedUploadManagers.BufferedUploadManager.MarkMegaClusterUploaded` | src/buffered_upload_manager.rs:733-757 | Marks the first entry with the path and deletes its file |
| `BufferedUploadManagers.BufferedUploadManager.MarkMegaClusterFailed` | src/buffered_upload_manager.rs:759-777 | Counts one attempt against the first entry with the path |
| `BufferedUploadManagers.BufferedUploadManager.FindFile` | src/buffered_upload_manager.rs:734-738 | The scan finds the first entry with the path |
| `BufferedUploadManagers.BufferedUploadManager.CleanupOldMegaClusterFiles` | src/buffered_upload_manager.rs:462-490 | The loop computes the cleanup specification, of which exactness is proved |
| `BufferedUploadManagers.BufferedUploadManager.Stats` | src/buffered_upload_manager.rs:780-797 | Totals over the finished files; the current file adds its bytes but not its clusters |
| `AckStatus.RefinesCounters` | src/kvs_client.rs:521-579 | Over any run of pushes, acknowledgments and retention sweeps the flags are nested prefixes of the list, so the list refines four counters |
| `AckStatus.FirstMatchIsCounter` | src/kvs_client.rs:534-544 | Each first-match scan stops exactly at the counter of its stage, if the stage before it is ahead |
| `AckStatus.ApplyCounts` | src/kvs_client.rs:546-566 | One acknowledgment is a guarded counter increment; an error without an id, or an event without a number, changes nothing |
| `AckStatus.OldestPending` | src/kvs_client.rs:534-544 | The scan stops at the first entry the event fits, and passes over none that it fits |
| `AckStatus.SweepCounts` | src/kvs_client.rs:573-578 | A sweep of a list longer than 150 drops the persisted prefix and what is too old, and prefixes stay prefixes |
| `AckStatus.SweepExact` | src/kvs_client.rs:573-578 | Up to 150 entries a list is left alone; of a longer one each entry stays, in its place, if and only if it is not persisted and at most 120 s old |
| `AckStatus.MarksOnlyGrow` | src/kvs_client.rs:534-566 | No acknowledgment takes a mark back, and one is persisted only by a persisted event after it was received |
| `AckStatus.PendingIsTail` | src/kvs_client.rs:505-509 | The pending count is the length less the larger of the persisted and the error prefix |
| `KvsModel.EveryRun` | src/kvs_client.rs:282-346 | Under any failures, reconnects and resets each connection carries nothing, one header, or one header followed by clusters beginning with that header's fragment; and all connections together carry exactly the clusters of the puts that returned Ok, in order, once each |
| `KvsModel.PutKeeps` | src/kvs_client.rs:841-866 | A put that returns Ok places its cluster once, on the connection in use, with the next number; one that returns Err places it on none |
| `KvsModel.PutIff` | src/kvs_client.rs:841-866 | A put is accepted if and only if its first send gets through, or some attempt to reconnect succeeds and the second send meets no obstacle |
| `KvsModel.SendIff` | src/kvs_client.rs:282-346 | A send gets through if and only if the connection is healthy and open and the channel closes neither before the headers it owes nor before the cluster |
| `KvsModel.ReconnectIff` | src/kvs_client.rs:387-473 | Reconnecting succeeds if and only if some attempt does, on a new open connection with nothing tracked; otherwise there is no connection |
| `KvsModel.ResetIff` | src/kvs_client.rs:355-384 | A reset starts numbers and tracking over whether it succeeds or not, which it does if and only if some attempt does |
| `KvsModel.SendKeeps` | src/kvs_client.rs:282-346 | A send touches the last connection only and adds its cluster exactly when it succeeds |
| `KvsModel.ReconnectKeeps` | src/kvs_client.rs:424-473 | Reconnecting adds at most one connection, an empty one, and changes no earlier one |
| `KvsModel.ResetKeeps` | src/kvs_client.rs:355-384 | A reset starts numbers over and changes no earlier connection |
| `KvsModel.NumbersAreConsecutive` | src/kvs_client.rs:286-343 | Numbers of the successful sends of a session are 1, 2, 3, ... across reconnects |
| `KvsModel.RunCounted` | src/kvs_client.rs:298-306 | In every reachable state of the connection the acknowledgment list is representable by the four counters |
| `KvsConnections.KvsConnection.ProcessAcknowledgments` | src/kvs_client.rs:521-579 | The loop gives each acknowledgment to the first fragment it fits and then sweeps; without a receiver nothing changes |
| `KvsConnections.KvsConnection.FindOldestPending` | src/kvs_client.rs:534-544 | The scan finds the first fragment an event fits |
| `KvsConnections.KvsConnection.RetainYoung` | src/kvs_client.rs:575-577 | The retain loop keeps, in order, what is neither persisted nor too old |
| `KvsConnections.KvsConnection.PendingCount` | src/kvs_client.rs:505-517 | The pending count and when it is warned about |
| `KvsConnections.KvsConnection.constructor` | src/kvs_client.rs:804-839 | After `initialize` there is one open, empty connection, and the first number is 1 |
| `KvsConnections.KvsConnection.SendMessage` | src/kvs_client.rs:322-334 | A message goes to the channel in use, or finds it closed, and it stays closed |
| `KvsConnections.KvsConnection.SendFragment` | src/kvs_client.rs:282-346 | The new state and the result are those of the send specification |
| `KvsConnections.KvsConnection.TryReconnect` | src/kvs_client.rs:424-473 | The new state is that of one reconnection attempt |
| `KvsConnections.KvsConnection.ReconnectWithBackoff` | src/kvs_client.rs:387-418 | The loop retries until an attempt succeeds or the attempts run out: it succeeds if and only if one does |
| `KvsConnections.KvsConnection.PutFragment` | src/kvs_client.rs:841-866 | One reconnection and one retry; the cluster is on exactly one connection iff the put returns Ok, and is numbered |
| `KvsConnections.KvsConnection.ResetSession` | src/kvs_client.rs:355-384 | Numbers start over on a new connection; earlier ones are unchanged |
| `AckFraming.ChunkIndependence` | src/kvs_client.rs:724-733 | Lines handled and leftover are those of the whole stream split once, if and only if every chunk is valid UTF-8 by itself |
| `AckFraming.SameForAnyChunking` | src/kvs_client.rs:724-733 | Two chunkings of one stream that split no character agree |
| `AckFraming.AsciiStreams` | src/kvs_client.rs:724-733 | An ASCII stream may be cut anywhere |
| `AckFraming.SplitCharacterIsLost` | src/kvs_client.rs:729-730 | A character split between two chunks loses both |
| `AckFraming.SplitJoins` | src/kvs_client.rs:687-689 | Draining adds and loses nothing: the lines and the leftover concatenate to the buffer |
| `AckFraming.RestHasNoLine` | src/kvs_client.rs:687 | What is left after draining holds no complete line |
| `AckFraming.LinesAreLines` | src/kvs_client.rs:687-689 | Each line handled ends in a newline and holds no other |
| `AckFraming.Utf8Means` | src/kvs_client.rs:729 | Text is exactly the encodings of sequences of Unicode scalar values (section 3 of RFC 3629) |
| `AckFraming.DrainIsSplit` | src/kvs_client.rs:683-706 | With a handler that always goes on, the drain loop is splitting at newlines |
| `AckFraming.AckBuffer.ProcessAckBuffer` | src/kvs_client.rs:683-706 | The loop terminates and takes out the lines the specification names, stopping early when the handler says so |
| `AckFraming.AckBuffer.Receive` | src/kvs_client.rs:727-733 | One chunk: text is appended and drained, anything else is ignored |
| `AckFraming.AckBuffer.constructor` | src/kvs_client.rs:725 | The text buffer starts empty |
| `AckFraming.FindNewline` | src/kvs_client.rs:687 | The position found is a newline with none before it, or the end |
| `MkvWriters.TimestampFidelity` | src/mkv_writer.rs:297-327 | For a frame not before its fragment's first and a fragment not before the session start, cluster time plus block offset is within (-2, +1) ms of wall start plus elapsed PTS if and only if the span fits 32,767 ms |
| `MkvWriters.EarlierFrameIsLate` | src/mkv_writer.rs:316-325 | A frame before its fragment's first gets offset 0 and is late by the difference, to within 1 ms |
| `MkvWriters.ClusterTimesAscend` | src/mkv_writer.rs:406-436 | Within a session cluster times never go back |
| `MkvWriters.FragmentsAbut` | src/mkv_writer.rs:193-205 | Contiguous frames give fragments whose durations abut, and cluster times that differ by the duration to within 1 ms |
| `MkvWriters.SessionStartsNow` | src/mkv_writer.rs:128-139 | After a reset the next cluster carries the wall-clock time of its call |
| `MkvWriters.WrittenIff` | src/mkv_writer.rs:170-243 | Exactly when a call writes, when it fails and how; the first call with frames starts the session even when it fails |
| `MkvWriters.WrittenExactly` | src/mkv_writer.rs:297-327 | In numbers: the cluster time in ms, its bytes, and each offset from times rebased to the reset |
| `MkvWriters.TimestampRoundTrip` | src/mkv_writer.rs:297-313 | The 1, 2, 4 or 8 timestamp bytes decode back for every u64 and no shorter of these lengths would do |
| `MkvWriters.MkvWriter.Reset` | src/mkv_writer.rs:128-139 | The writer's new state after a session reset |
| `MkvWriters.MkvWriter.constructor` | src/mkv_writer.rs:67-76 | A new writer has no session start |
| `MkvWriters.MkvWriter.FinalizeFragment` | src/mkv_writer.rs:170-243 | The new state and the output, errors included, are those of the specification |
| `MkvWriters.MkvWriter.WriteBlocks` | src/mkv_writer.rs:316-338 | The frame loop writes one offset per frame and fails exactly when some frame is empty |
| `RenderThread.FramePartition` | src/kvssink/imp.rs:725-827 | For every buffer sequence the finalized fragments and the frames being collected concatenate to the input less its leading non-keyframes; each starts with a keyframe; from its first frame to the keyframe that closed it is at least the duration then in force, and to no keyframe inside it is |
| `RenderThread.FragmentSpans` | src/kvssink/imp.rs:891-903 | In nanoseconds, over every run: a closed fragment spans at least the duration in force when the closing keyframe arrived, no interior keyframe was that late, and when time goes back only a duration of 0 closes |
| `RenderThread.RefusedExactly` | src/kvssink/imp.rs:758-827 | A buffer is refused exactly when it closes a fragment that cannot be handed over, and then the state is as before |
| `RenderThread.PartitionIsUnique` | src/kvssink/imp.rs:891-903 | These conditions leave no choice: no sequence has two such partitions |
| `RenderThread.NoPtsNeverFragments` | src/kvssink/imp.rs:891-903 | When the first keyframe has no presentation time nothing is ever finalized by a boundary |
| `RenderThread.BoundaryIff` | src/kvssink/imp.rs:891-903 | Some boundary is cut if and only if the first keyframe has a presentation time and some later keyframe has one that is later by at least the duration in force on its arrival |
| `RenderThread.StreamingThread.RenderBuffer` | src/kvssink/imp.rs:725-827 | One buffer: the new state and the answer are those of the specification, and the partition holds again |
| `RenderThread.StreamingThread.constructor` | src/kvssink/imp.rs:560 | The thread starts waiting for a keyframe |
| `RenderThread.StreamingThread.Collect` | src/kvssink/imp.rs:758-827 | A buffer of a started stream closes the collected fragment first when it is a keyframe that reached the duration |
| `RenderThread.StreamingThread.FinalizeCurrentFragment` | src/kvssink/imp.rs:908-915 | The collected frames become one fragment, if there are any |
| `RenderThread.StreamingThread.FlushAtEndOfStream` | src/kvssink/imp.rs:699-717 | After a flush at end of stream the finalized fragments alone partition the input |
| `PipelineAccounting.EveryFragmentAccountedFor` | src/kvssink/imp.rs:905-1109 | Over every interleaving, with any clock and on any directory, each finalized fragment is in exactly one place: counted as dropped, in the streaming thread's hand, queued, in the worker's hand, or handled |
| `PipelineAccounting.InterleavingLosesIff` | src/buffered_upload_manager.rs:402-490 | The condition is exact: an interleaving loses something at some step if and only if one of its steps creates a file over a live one, appends to a deleted one, or sweeps a live one |
| `PipelineAccounting.StepLosesExactly` | src/buffered_upload_manager.rs:402-490 | Step by step, for every step of every actor |
| `PipelineAccounting.StartIsNewManager` | src/kvssink/imp.rs:523-545 | A manager started on any directory will do for these runs |
| `PipelineAccounting.HandledInAcceptanceOrder` | src/kvssink/imp.rs:1028-1092 | The worker handles fragments in exactly the order the queue accepted them, and the queue never exceeds 64 |
| `PipelineAccounting.FinishedFileWasUploaded` | src/buffered_upload_manager.rs:575-592 | Over every interleaving, of a file about to be marked and deleted every record a reader finds in it was put and accepted |
| `PipelineAccounting.DeletedWasSent` | src/buffered_upload_manager.rs:733-757 | Over every interleaving, what a tracked file held before a step, not harmful, that deletes it or lets go of it was read from it and accepted |
| `PipelineAccounting.WorkerCanGoOn` | src/kvssink/imp.rs:1050-1084 | While a fragment is queued or in the worker's hand, the worker or the task holding the buffer manager can take a step |
| `PipelineClock.FreshNamesLoseNothing` | src/kvssink/imp.rs:1050-1109 | From any directory, over every interleaving whose new files get names that no tracked file has, failed pushes, aborted triggers and undeletable files included: each handled fragment was accepted live, met a counted write error, or is, as the disk stores it, found in a tracked file or was read from one and accepted |
| `PipelineClock.RecoveredIsOnDiskOrSent` | src/buffered_upload_manager.rs:208-297 | Over every such interleaving, a record found in a listed file at start is still found in a tracked file or was read from one and accepted |
| `PipelineClock.StepHarmless` | src/buffered_upload_manager.rs:402-490 | With an unused name for the file it creates, if it creates one, no step of any actor loses anything, and paths stay unique, the open file stays on disk and untracked, and what is left of an uploaded file stays covered by an accepted pass |
| `PipelineClock.GrowingStampsAreFresh` | src/buffered_upload_manager.rs:404-407 | Names are unused, and nothing is lost, when each file is created in a later millisecond than every file before it, however many digits the stamps have |
| `PipelineWires.HandledIsOnDiskOrOnTheWires` | src/kvssink/imp.rs:1050-1109 | End to end, under every interleaving with unused names and any network: the cluster of each handled fragment is on a connection, live or as it was stored, or is in a tracked file, or met a counted write error |
| `PipelineWires.WiresCarryWhatWasAccepted` | src/kvs_client.rs:841-866 | Under every interleaving and any network the clusters on all connections are exactly the accepted puts of the worker and of all triggers, in order, each once |
| `PipelineWires.AcceptedIsWhatIsCounted` | src/kvssink/imp.rs:1050-1063 | These puts are the fragments the machine counts as accepted live, in order, and the records it counts as read from files and accepted, in order |
| `PipelineWires.EachWireCarriesItsOwn` | src/kvs_client.rs:282-346 | Each connection carries exactly the puts that went to it, in order, and holds nothing, one header, or one header and clusters that begin with its fragment, whoever put them |
| `PipelineWires.OneLiveSessionPerWire` | src/kvssink/imp.rs:1035-1056 | No connection carries live clusters of two MKV sessions, whatever triggers and reconnections happen in between |
| `PipelineWires.PutsGoForward` | src/kvssink/imp.rs:1028-1056 | Across all connections live clusters go out in capture order, and no put goes to an earlier connection |
| `PipelineWires.CutGains` | src/kvs_client.rs:322-334 | A put cut off by an abort leaves the connection well formed and adds nothing to any wire |
| `PipelineWires.EveryRunHasANetwork` | src/kvs_client.rs:841-866 | The connection restricts no interleaving: for every run of the machine there are network outcomes with which the connection answers each step as the run says |
| `PipelineWires.MovesAreSteps` | src/kvssink/imp.rs:1050-1056 | With the network left out, a run of machine and connection is a run of the machine |
| `PipelineSessions.SessionsAreAligned` | src/kvssink/imp.rs:936-977 | Two accepted fragments are from one MKV session if and only if no fragment after the first up to the second is tagged; sessions never go back |
| `PipelineSessions.TaggedWhenSessionDiffers` | src/kvssink/imp.rs:872-888 | An accepted fragment is tagged if and only if its session differs from that of the fragment accepted before it, full queues or not |
| `PipelineSessions.GoingLiveRenewsSession` | src/kvssink/imp.rs:762-800 | An Immediate fragment accepted right after a BufferOnly one is tagged, whenever the worker flips the mode and whatever is dropped |
| `PipelineSessions.GuardIsBacked` | src/kvssink/imp.rs:931-975 | While the streaming thread is not halted, `session_reset_in_flight` implies a tag pending, in hand, queued, or being acted on by the worker |
| `PipelineSessions.OneTagPerReset` | src/kvssink/imp.rs:801-809 | In a run without mode switches the flag holds exactly when one tag is outstanding, and every writer reset is matched by exactly one tagged fragment |
| `PipelineSessions.AcceptedTagIsReached` | src/kvssink/imp.rs:1028-1043 | The worker resets the session for the fragment at place k of the queue on its receive number k + 1, and k is at most 63 |
| `PipelineBoundary.BoundaryOutcome` | src/kvssink/imp.rs:742-819 | Over every run, from the decision at a keyframe, or the end of the stream, to the end of the boundary: at most one fragment is made, with the session, tag and mode there were, queued if fewer than 64 were waiting and counted otherwise; the mode changes in one step to what was scheduled; and the session is renewed exactly when going live or, with no switch scheduled, when it had expired and no reset was under way |
| `PipelineFailure.NetworkErrorsRecover` | src/kvssink/imp.rs:1122-1271 | Over every run, after a refusal that looks like a network error the worker, before it pushes the fragment, has found a recovery task known and changed nothing, or found none and entered BufferOnly, spawned a recovery task and stored its handle, in this order |
| `PipelineFailure.OtherErrorsAreQuiet` | src/kvssink/imp.rs:1075-1083 | Over every run, after any other refusal the worker pushes the fragment next, and changes neither the mode nor the tasks nor the handle |
| `PipelineFailure.OnlyLiveIsPut` | src/kvssink/imp.rs:1050-1088 | Over every run, a fragment captured live is put before it can be buffered, and one captured buffering is never put |
| `PipelineDelivery.EventsAreActedOn` | src/kvssink/imp.rs:1278-1363 | Over every run, a task that finishes has acted on every event it took, in order: an error not at all, a completion with an end by scheduling buffering, one without by cancelling the recovery task, scheduling going live, and cancelling again |
| `PipelineDelivery.UploadIsReported` | src/kvssink/imp.rs:1224-1245 | Over every run, an upload that is through lets go of the open file, sends one completion that says to go live unless the trigger had an end, forgets the recovery handle if it is a recovery, and takes every event out of the channel |
| `PipelineDelivery.FailedTriggerRetries` | src/kvssink/imp.rs:1246-1262 | A trigger that fails has closed the open file and gives the buffer back; a recovery task will sleep and try again |
| `PipelineDelivery.SelectStep` | src/buffered_upload_manager.rs:509-566 | A recovery task and a call select without bounds; the open file is closed first, the paths are those of the uploadable entries, and a new empty file is opened exactly when there are any |
| `PipelineDelivery.OnePassPerFile` | src/buffered_upload_manager.rs:575-603 | Over every run, while a task uploads exactly the files it is through with got a pass, one each, in the order of the selection |
| `PipelineDelivery.FinishStep` | src/buffered_upload_manager.rs:575-592 | A file is marked only when it is there, was read to its end and every record of it was put, and is then deleted if that works |
| `PipelineRecovery.StrandedIffLastRescuerCancelled` | src/kvssink/imp.rs:1344-1363 | "Never stranded" exactly: a continuous run without bounded triggers visits a stranded state if and only if the second cancel of some `switch_mode` is taken when its switch is used up and aborts the last recovery task |
| `PipelineRecovery.StrandsExactly` | src/kvssink/imp.rs:1278-1363 | Step by step: no step strands the sink but that one |
| `PipelineRecovery.NeverStranded` | src/kvssink/imp.rs:1344-1363 | If at each second cancel the switch is still pending or no task is known, no interleaving strands the sink |
| `PipelineStranding.RecoveryCanBeLost` | src/kvssink/imp.rs:1344-1363 | The promise fails: a reachable state, after one trigger and one network failure, in BufferOnly with no recovery task, no pending switch and nobody delivering one |
| `PipelineStranding.OnlyATriggerHelps` | src/kvssink/imp.rs:1122-1148 | From such a state, as long as nobody triggers an upload, every run stays in BufferOnly and nothing more is accepted by the uploader |
| `KvsSinks.KvsSink.constructor` | src/kvssink/imp.rs:502-566 | The sink starts in the mode asked for, with nothing pending, a manager on the sorted listing of the buffer directory and a new connection |
| `KvsSinks.KvsSink.BeginSessionReset` | src/kvssink/imp.rs:872-888 | The critical section is the machine's reset step |
| `KvsSinks.KvsSink.FinalizeFragment` | src/kvssink/imp.rs:919-942 | The section that makes the item: the next number, the writer's session, the mode captured, the pending tag, which it takes |
| `KvsSinks.KvsSink.CountDropped` | src/kvssink/imp.rs:967-977 | A drop is counted once and re-arms the tag it carried |
| `KvsSinks.KvsSink.FinalizeAndEnqueue` | src/kvssink/imp.rs:908-1012 | Interleaved with all other actors its effect is a run; when it returns ok and there were frames, exactly one fragment, with this mode, session and tag, was queued or counted as dropped; it errs exactly when the writer fails or the queue is closed |
| `KvsSinks.KvsSink.FinalizeCaptured` | src/kvssink/imp.rs:918-1012 | The same from the second section on |
| `KvsSinks.KvsSink.Enqueue` | src/kvssink/imp.rs:951-1011 | The item is queued, if fewer than 64 are waiting, or else counted as dropped, or the thread halts when the queue is closed |
| `KvsSinks.KvsSink.KeyframeBoundary` | src/kvssink/imp.rs:742-819 | A whole boundary, with the others running between its sections, is a run; the fragment is queued or counted; the session is renewed exactly when going live or, with no switch pending, when it had expired and no reset was under way |
| `KvsSinks.KvsSink.Decide` | src/kvssink/imp.rs:749-760 | One section reads the pending switch, the expiry and the reset flag |
| `KvsSinks.KvsSink.SwitchAndReset` | src/kvssink/imp.rs:762-809 | Switch and reset, with the others running in between, end the boundary |
| `KvsSinks.KvsSink.ExecuteSwitch` | src/kvssink/imp.rs:768-800 | The decided switch takes effect, and a reset follows exactly when going live or when the session has expired |
| `KvsSinks.KvsSink.HandleItem` | src/kvssink/imp.rs:1028-1089 | One turn of the worker's loop, polled once, handles exactly the head of the queue, or is left waiting with it in hand because the buffer manager is held |
| `KvsSinks.KvsSink.ResetSession` | src/kvssink/imp.rs:1035-1047 | The connection's session is reset and the flag cleared, whatever the outcome |
| `KvsSinks.KvsSink.AllowResets` | src/kvssink/imp.rs:1041-1043 | The flag is cleared without a lock, in a step of its own |
| `KvsSinks.KvsSink.Dispatch` | src/kvssink/imp.rs:1050-1088 | A fragment captured live is uploaded, or buffered when that is refused; one captured buffering is buffered; a held buffer manager leaves the worker waiting with it |
| `KvsSinks.KvsSink.UploadFragment` | src/kvssink/imp.rs:1051-1084 | The fragment is put on the connection: accepted if and only if a send gets through, and then its cluster is the one added to the wires; refused, it stays in hand, and only a network error has consequences, as for `FinishPut` |
| `KvsSinks.KvsSink.FinishPut` | src/kvssink/imp.rs:1058-1084 | An answer is acted on: done, or the fragment kept; only a network error touches the mode, the tasks or the handle, and then a recovery task is known, found or spawned after BufferOnly was entered |
| `KvsSinks.KvsSink.HandleNetworkFailure` | src/kvssink/imp.rs:1122-1275 | A failure enters BufferOnly and spawns a recovery task unless one is known; the fragment stays in hand |
| `KvsSinks.KvsSink.StartRecovery` | src/kvssink/imp.rs:1142-1271 | BufferOnly is entered, then a recovery task spawned, then its handle stored |
| `KvsSinks.KvsSink.EnterBufferOnly` | src/kvssink/imp.rs:1142-1148 | The mode becomes BufferOnly before the recovery task exists |
| `KvsSinks.KvsSink.SpawnRecovery` | src/kvssink/imp.rs:1174-1271 | The recovery task is spawned first and its handle stored in a later section |
| `KvsSinks.KvsSink.StoreTaskHandle` | src/kvssink/imp.rs:1267-1271 | The handle of the spawned task becomes the known one, replacing whatever was there |
| `KvsSinks.KvsSink.BufferFragment` | src/kvssink/imp.rs:1095-1109 | One poll: the fragment is pushed when the buffer manager is free, and stays in hand, for the next poll, while it is not |
| `KvsSinks.KvsSink.PushToManager` | src/kvssink/imp.rs:1099-1108 | The manager's new state is that of the push, cleanup included; a failed push is counted against the fragment |
| `KvsSinks.KvsSink.PushAndSweep` | src/buffered_upload_manager.rs:300-316 | The calls to the manager compute the push and the cleanup after it |
| `KvsSinks.KvsSink.UploadWorkerLoop` | src/kvssink/imp.rs:1028-1092 | Polled any number of times, with everything else running in between, the worker's loop is a run of the machine that handles n fragments; every other poll left it waiting for a fragment or for the buffer manager |
| `KvsSinks.KvsSink.Poll` | src/kvssink/imp.rs:1028-1105 | One poll goes on with the fragment in hand, or takes the head of the queue, and is done with that fragment or left waiting |
| `KvsSinks.KvsSink.CancelRecoveryTask` | src/kvssink/imp.rs:836-848 | The handle is taken and the task aborted |
| `KvsSinks.KvsSink.SwitchMode` | src/kvssink/imp.rs:1344-1363 | Schedule and second cancel are two sections with the others running in between |
| `KvsSinks.KvsSink.ScheduleSwitch` | src/kvssink/imp.rs:1351-1356 | The first section: the switch is pending, for the next keyframe |
| `KvsSinks.KvsSink.ProcessBufferEvents` | src/kvssink/imp.rs:1278-1339 | Every event taken from the channel is acted on, in order, as a run of the machine |
| `KvsSinks.KvsSink.TakeEvents` | src/kvssink/imp.rs:1279-1289 | Every event the manager reported is taken, in one section |
| `KvsSinks.KvsSink.HandleEvent` | src/kvssink/imp.rs:1291-1337 | A completion that goes live cancels and schedules; a bounded one schedules buffering; an error changes nothing |
| `KvsSinks.KvsSink.ReportError` | src/kvssink/imp.rs:1329-1336 | An upload error is taken note of and changes nothing |
| `Locks.NeverDeadlocked` | src/kvssink/imp.rs:1050-1084 | Any number of workers, recovery tasks, triggers, boundaries and start-ups over the four locks: in every reachable state somebody can go on while anything is left, and all can still finish |
| `Locks.ActorKeeps` | src/kvssink/imp.rs:1224-1260 | Every actor's program waits only for locks above those it holds, in the order buffer manager, settings, state, uploader, and gives all back |
| `Locks.AllCanFinish` | src/kvssink/imp.rs:1050-1084 | From any set of orderly threads there is a schedule that finishes all |
| `Locks.LocksExclude` | src/kvssink/imp.rs:1050-1056 | No lock is ever held by two actors |
| `Locks.KeepingTheUploaderDeadlocks` | src/kvssink/imp.rs:1053-1056 | Had the worker kept the uploader while buffering, it would deadlock with a trigger |

## Left out

- PipelineRecovery.NeverStranded: needs its guard on the second cancel, because without it the promise is false; the exact condition is `StrandedIffLastRescuerCancelled`.
- MkvWriters.TimestampFidelity: for a clock below the year 2554, where the cluster time in nanoseconds fits the source's u64; what the source does beyond that is not modelled.
- CrashRecovery.CrashRestart: a write error that leaves a torn record in the middle of a file is outside the claim, and so is a crash after a trigger task was aborted halfway, which only the state machine has.
- BufferTrigger.TriggerCompleteness: for files of this run only, because files found at restart are timed by their modification time; timestamps must not go back within the file.
- PipelineSessions.AcceptedTagIsReached: counts receives and says nothing of how long an upload or a reset takes.
- PipelineSessions.GuardIsBacked: after a flow error the streaming thread can hold a tag that is never sent, so halted states are excluded.
- KvsSinks.KvsSink.HandleItem: runs up to where the source waits for the buffer manager, as one poll of its future does; `UploadWorkerLoop` polls again.
- KvsSinks.KvsSink.Dispatch: runs up to the same place.
- KvsSinks.KvsSink.BufferFragment: runs up to the same place.
- KvsSinks.KvsSink.UploadWorkerLoop: promises nothing about how often it is polled; `WorkerCanGoOn` says that somebody can go on.
- PipelineClock.FreshNamesLoseNothing: fragments are assumed to fit in memory together with a file, a failed push writes nothing, and a stored fragment is found by its value, so that two handled fragments stored as equal records may be found in the same place.
- PipelineWires.HandledIsOnDiskOrOnTheWires: finds a cluster by its value in the same way.
- PipelineWires.OneLiveSessionPerWire: is about live clusters; a trigger puts stored ones on the connection in use, whatever session they were captured in.
- PipelineWires.CutGains: a channel that still needs headers is empty and has 128 slots, so an abort between headers and their cluster is not modelled.
- CrashRecovery.StartIsValid: for a directory whose files all pass the filter of the scan; others are never looked at.
- Global order across triggers and live sends: the code does not keep it; order is proved within one trigger and for the worker.
- AWS configuration, signing, stream creation, HTTP bodies and responses; connecting and sending succeed or fail from outside.
- GStreamer properties, caps, events, bus messages and timestamp parsing; `stop` and restart of the element; `set_caps`.
- A buffer rendered after a flow error: the streaming thread is halted by one, although the source would try to finalize the same frames again.
- MKV headers and SimpleBlock bytes, which `webm_iterable` writes and which is not part of this model; headers and clusters are opaque.
- JSON decoding and trimming of acknowledgment lines, the error-text table, and the 100-slot acknowledgment channel dropping what does not fit.
- Backoff delays and the exponent that could overflow after some sixty consecutive failures; `consecutive_failures` itself.
- `last_upload_attempt`, `last_upload_error`, `last_fragment_time` and the static call counter: cleanup may follow any push.
- Errors of flushing a file when it is closed: the source then forgets the file, which stays on disk untracked until a restart.
- The runs of the disk buffer alone have no failed pushes and no aborted triggers; the state machine has both.
- A bounded trigger whose scheduled switch is overwritten by a later one; runs with bounded triggers are covered by the accounting and session theorems, not by `NeverStranded`.
- Panics of the reader on files that are not the manager's own are an outcome of `ReadAt`, not followed further.
- `KvsClient` before `initialize`, which answers every call with an error.
- The RwLock around the uploader handle, which is written during construction only.
