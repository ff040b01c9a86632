# MediaMinder retention cycle and pipe endpoints in Dafny

MediaMinder downloads photos from a camera into a holding directory. It shows them on a display and keeps a week of backups. This project models three parts of it and proves their properties:

- **The retention cycle** (`PhotoBackupCleanupService.ExecuteBackupAndCleanupAsync` and its helpers). One cycle runs these steps:
  1. It selects the top-level image files of the holding directory by extension.
  2. It creates `Backup_yyyyMMdd_HHmmss`.
  3. It copies every image into that directory. A name that is already taken gets a numeric suffix instead of being overwritten.
  4. It verifies every copy by length.
  5. Only then does it delete the originals.
  6. Finally it deletes subdirectories created more than 7 days ago.
- **The service's pipe endpoint** (`NamedPipeCommunicationService`). It accepts one client at a time and reads its messages. After every round it tears the pipe down and reports "disconnected". It waits 5 s only after an accept error.
- **The display's pipe endpoint** (`NamedPipeClient`). It connects and reads while connected. It waits 5 s after every attempt until it is stopped.

## Layout

- `wrappers.dfy` (`Wrappers`): `Option`.
- `paths.dfy` (`Paths`): `Path.GetExtension`, `Path.GetFileNameWithoutExtension`, ASCII lower-casing and the decimal text of counters.
- `clock.dfy` (`Clock`): calendar instants, their count of seconds and the `yyyyMMdd_HHmmss` stamp.
- `backup_spec.dfy` (`BackupSpec`): the reference semantics of one cycle, as values.
  - The holding directory is a map from file name to length plus a map of subdirectories. Each subdirectory records its creation time in seconds and its own files.
  - Every decision the filesystem makes comes from an `Environment`: a listing that throws, a copy that fails or writes a different length, a locked file or directory.
  - `now` is a parameter, and so is the order in which the directory listing returns the names.
- `backup_service.dfy` (`BackupService`): the service as the source writes it.
  - A `HoldingDirectory` object's fields are changed in place by the loop methods of `PhotoBackupCleanupService`.
  - Each loop method is proved to leave exactly the state that the `BackupSpec` function describes.
- `ipc.dfy` (`Ipc`): messages, the events an endpoint waits for, what an endpoint can be seen doing, and a small automaton over traces.
  - The operating system's pipe and the peer are a *script*: a sequence of events with one event consumed at every `await`.
  - `Stop` stands for a concurrent `StopListening`, and an exhausted script reads as `Stop`.
  - What the endpoint does is appended to a *trace*: status changes, callback calls, `MessageReceived` events, delays and writes.
- `pipe_server.dfy` (`PipeServer`) and `pipe_client.dfy` (`PipeClient`): each endpoint as a class whose fields are updated in place.
  - Each loop method is proved equal to a function on values.
  - Each file also holds the lemmas about those functions. The order of observations is stated as acceptance by an automaton (`Emits`).

## Model

| member | source | states |
|---|---|---|
| Paths.SplitAtLastDot | MediaMinder.Service/PhotoBackupCleanupService.cs:147-148 | for `stem.ext` with a non-empty, dot-free `ext`, the last dot is the one before `ext`, the name without extension is `stem` and the extension is `.ext` |
| Paths.StemAndExtension | MediaMinder.Service/PhotoBackupCleanupService.cs:147-149 | the extension is empty or starts with '.', and stem plus extension give back the name, except that a trailing '.' belongs to neither |
| Paths.ToLowerAscii | MediaMinder.Service/PhotoBackupCleanupService.cs:100 | lower-casing keeps the length and maps each character on its own: ASCII capitals to small letters, every other character to itself |
| Paths.ExtensionShape | MediaMinder.Service/PhotoBackupCleanupService.cs:147-148 | the extension ends the name and is empty or a '.' followed by at least one character that is not a '.'; the stem begins the name; a name without '.' has no extension and is its own stem |
| Paths.NatToStringDigits | MediaMinder.Service/PhotoBackupCleanupService.cs:149 | the counter is printed with decimal digits only |
| Paths.ZeroPadInjective | MediaMinder.Service/PhotoBackupCleanupService.cs:111 | two numbers below 10^w padded to w digits give the same text only when they are equal |
| Clock.Seconds | MediaMinder.Service/PhotoBackupCleanupService.cs:297 | the time of day of a valid instant adds less than one day to the count of its date's days since 0001-01-01 |
| Clock.SecondsKeepsOrder | MediaMinder.Service/PhotoBackupCleanupService.cs:297 | for valid instants, one is earlier than the other field by field exactly when its count of seconds is smaller, so comparing counts compares the instants |
| Clock.YearLength | MediaMinder.Service/PhotoBackupCleanupService.cs:297 | a year's days number 366 in a leap year and 365 otherwise |
| Clock.Stamp | MediaMinder.Service/PhotoBackupCleanupService.cs:111 | the stamp has 15 characters: digits everywhere except the '_' at position 8 |
| Clock.StampFields | MediaMinder.Service/PhotoBackupCleanupService.cs:111 | each field of the instant appears zero-padded at its fixed position of `yyyyMMdd_HHmmss` |
| Clock.StampInjective | MediaMinder.Service/PhotoBackupCleanupService.cs:111-112 | two valid instants with the same stamp are the same instant, so cycles in different seconds use different backup directories |
| BackupSpec.IsImageFile | MediaMinder.Service/PhotoBackupCleanupService.cs:97-100 | a name whose lower-cased extension is one of the 11 image extensions; a name without an extension is never an image |
| BackupSpec.ImageFiles | MediaMinder.Service/PhotoBackupCleanupService.cs:95-102 | a name is selected exactly when it is listed and its lower-cased extension is one of the 11 listed; the selection is no longer than the listing and, when the listing has no duplicates, has none |
| BackupSpec.ImageFilesOrder | MediaMinder.Service/PhotoBackupCleanupService.cs:99-101 | the selection keeps the listing's order: the selected names sit at increasing positions of the listing |
| BackupSpec.SuffixedGrows | MediaMinder.Service/PhotoBackupCleanupService.cs:147-149 | `stem_k.ext` is longer than the name it is built from |
| BackupSpec.SuffixedKeepsExtension | MediaMinder.Service/PhotoBackupCleanupService.cs:147-149 | suffixing a name that has an extension keeps that extension and puts `_k` at the end of the stem |
| BackupSpec.CandidateKeepsExtension | MediaMinder.Service/PhotoBackupCleanupService.cs:144-151 | every name the rename loop tries has the original's extension |
| BackupSpec.CandidateStrictlyGrows | MediaMinder.Service/PhotoBackupCleanupService.cs:144-152 | each candidate of the rename loop is strictly longer than every earlier one, so the loop ends |
| BackupSpec.FirstFreeIndex | MediaMinder.Service/PhotoBackupCleanupService.cs:144-152 | the first counter from k on whose candidate is not taken: it is at least k, its candidate is free, and it is k exactly when the k-th candidate is free |
| BackupSpec.FreeCandidate | MediaMinder.Service/PhotoBackupCleanupService.cs:144-152 | the name where the loop stops is not taken, and differs from the original name once a rename happened |
| BackupSpec.FreeCandidateIsFirstFree | MediaMinder.Service/PhotoBackupCleanupService.cs:144-152 | the loop stops at the candidate of the first free counter |
| BackupSpec.TakenBeforeFirstFree | MediaMinder.Service/PhotoBackupCleanupService.cs:145 | every candidate before the first free one is taken |
| BackupSpec.TargetName | MediaMinder.Service/PhotoBackupCleanupService.cs:140-152 | the copy target is not taken, and it is the source's own name exactly when that name is free |
| BackupSpec.TargetKeepsExtension | MediaMinder.Service/PhotoBackupCleanupService.cs:140-152 | a renamed copy of an image keeps its extension, so it is an image too |
| BackupSpec.TargetNameIsFirstFree | MediaMinder.Service/PhotoBackupCleanupService.cs:140-152 | the copy target is free and is the first free candidate: every earlier candidate is taken |
| BackupSpec.RenameExample | MediaMinder.Service/PhotoBackupCleanupService.cs:144-152 | `IMG_0001.JPG` into a directory holding it is copied as `IMG_0001_1.JPG` |
| BackupSpec.RenameChainExample | MediaMinder.Service/PhotoBackupCleanupService.cs:147-150 | with `IMG_0001_1.JPG` also taken, the copy goes to `IMG_0001_1_2.JPG`: the suffix is added to the suffixed name |
| BackupSpec.CopyStep | MediaMinder.Service/PhotoBackupCleanupService.cs:136-163 | one chosen name per source, and no more successes than sources |
| BackupSpec.CopyStepLast | MediaMinder.Service/PhotoBackupCleanupService.cs:140-162 | the last source's target was free before it and is its own name exactly when that was free; a successful copy writes that target with the copied length and counts once, and a failed one writes and counts nothing |
| BackupSpec.CopyKeepsExisting | MediaMinder.Service/PhotoBackupCleanupService.cs:154 | no file that was in the backup directory before the copy step is changed or removed (copy without overwrite) |
| BackupSpec.CopyWritesFreshTargets | MediaMinder.Service/PhotoBackupCleanupService.cs:140-155 | every successful copy goes to a name that did not exist before the step and still holds the bytes it wrote at the end |
| BackupSpec.CopyTargetsDistinct | MediaMinder.Service/PhotoBackupCleanupService.cs:145-154 | no two successful copies share a target |
| BackupSpec.CopyAddsOnlyTargets | MediaMinder.Service/PhotoBackupCleanupService.cs:136-163 | every file in the backup directory afterwards was there before or is the target of a successful copy |
| BackupSpec.CopyCount | MediaMinder.Service/PhotoBackupCleanupService.cs:155-166 | the step succeeds (success count equals source count) exactly when no copy failed |
| BackupSpec.CopiedNamesPresent | MediaMinder.Service/PhotoBackupCleanupService.cs:140-155 | after the step every successfully copied source's own name exists in the backup directory |
| BackupSpec.SearchNumbered | MediaMinder.Service/PhotoBackupCleanupService.cs:192-208 | the numbered search finds the first existing `stem_j.ext` of the original name with j in k..100, or reports none when none of them exists |
| BackupSpec.Locate | MediaMinder.Service/PhotoBackupCleanupService.cs:188-210 | a located backup exists, and it is the source's own name exactly when that name exists |
| BackupSpec.BackupMatches | MediaMinder.Service/PhotoBackupCleanupService.cs:188-222 | when a file of the source's own name exists in the backup, the source matches exactly when it still exists and that file has its length |
| BackupSpec.Verified | MediaMinder.Service/PhotoBackupCleanupService.cs:184-226 | verification of no sources passes, and a passing verification means every source still exists |
| BackupSpec.VerifiedFindsCopies | MediaMinder.Service/PhotoBackupCleanupService.cs:184-226 | every source that passes verification still exists and has a file of its length in the backup |
| BackupSpec.VerifiedComparesDirectNames | MediaMinder.Service/PhotoBackupCleanupService.cs:184-226 | when every copy succeeded, verification passes exactly when each source still exists and the file under its own name in the backup has its length |
| BackupSpec.CopiesVerifiedSound | MediaMinder.Service/PhotoBackupCleanupService.cs:178-248 | corrected verification: when it passes after a successful copy step, every source was copied in this cycle, with exactly its length, to a name that did not exist before |
| BackupSpec.FreshCopiesKeepNames | MediaMinder.Service/PhotoBackupCleanupService.cs:140-155 | distinct sources copied into a new backup directory are never renamed, and nothing else is written there |
| BackupSpec.FreshBackupVerifiesCopies | MediaMinder.Service/PhotoBackupCleanupService.cs:184-226 | with a new backup directory and every copy successful, verification as written passes exactly when each source's own copy has its length |
| BackupSpec.VerifiedAcceptsShortCopy | MediaMinder.Service/PhotoBackupCleanupService.cs:188-226 | as written, verification passes although the only copy of the source is short, because the backup directory already held a file of the source's name and length |
| BackupSpec.RemoveOriginals | MediaMinder.Service/PhotoBackupCleanupService.cs:267-281 | an original is gone afterwards exactly when it was an image to delete and not locked; every other file keeps its length |
| BackupSpec.Expire | MediaMinder.Service/PhotoBackupCleanupService.cs:297-319 | a subdirectory is gone afterwards exactly when listing did not throw, it was created before the cutoff and deleting it did not throw; the others are unchanged |
| BackupSpec.Cutoff | MediaMinder.Service/PhotoBackupCleanupService.cs:297 | the cutoff lies before now |
| BackupSpec.ExpiryExample | MediaMinder.Service/PhotoBackupCleanupService.cs:297-312 | a subdirectory created 8 days ago is deleted and one created 6 days ago is kept |
| BackupSpec.BackupFolder | MediaMinder.Service/PhotoBackupCleanupService.cs:111-114 | an existing directory of the backup name is used as it is; otherwise the new one is empty and created now |
| BackupSpec.Cycle | MediaMinder.Service/PhotoBackupCleanupService.cs:28-90 | the cycle neither creates nor removes the holding directory, and a failed cycle leaves the root files as they were |
| BackupSpec.CycleFrame | MediaMinder.Service/PhotoBackupCleanupService.cs:28-90 | the cycle never creates or changes a root file, and of the subdirectories it creates or changes only its backup directory; everything else it may only delete |
| BackupSpec.CycleWithoutDirectory | MediaMinder.Service/PhotoBackupCleanupService.cs:35-39 | a missing holding directory gives success and changes nothing |
| BackupSpec.CycleResultIff | MediaMinder.Service/PhotoBackupCleanupService.cs:28-90 | the cycle succeeds exactly when the directory is missing, or listing works and there were no images or creation, every copy and verification all succeeded; failed deletes and expiries never make it fail |
| BackupSpec.CycleSafety | MediaMinder.Service/PhotoBackupCleanupService.cs:52-76 | no original is deleted unless the backup was created, every copy succeeded and verification passed; a failed cycle keeps every root file and every existing subdirectory except its own backup directory |
| BackupSpec.CycleDeletes | MediaMinder.Service/PhotoBackupCleanupService.cs:41-80 | a successful cycle deletes exactly the unlocked images among the originals and exactly the unlocked subdirectories older than the cutoff, also when there were no images |
| BackupSpec.DeletedOriginalsAreBackedUp | MediaMinder.Service/PhotoBackupCleanupService.cs:59-76 | with a new backup directory, every deleted original is kept there under its own name with its own length |
| BackupService.FindFreeTarget | MediaMinder.Service/PhotoBackupCleanupService.cs:144-152 | the rename loop returns the first free candidate; it is not taken, and it is the name itself exactly when that is free |
| BackupService.LocateBackup | MediaMinder.Service/PhotoBackupCleanupService.cs:188-210 | the search loop returns the backup that `Locate` specifies |
| BackupService.VerifyBackupIntegrity | MediaMinder.Service/PhotoBackupCleanupService.cs:178-255 | the verification loop returns true exactly when every source has a located backup of its length |
| BackupService.PhotoBackupCleanupService.CreateTimestampedBackupDirectory | MediaMinder.Service/PhotoBackupCleanupService.cs:107-124 | succeeds exactly when creating does not throw and no file has the name; an existing directory of that name is kept, else an empty one is created now; nothing else changes |
| BackupService.PhotoBackupCleanupService.CopyFilesToBackupDirectory | MediaMinder.Service/PhotoBackupCleanupService.cs:129-173 | the backup directory ends as `CopyStep` describes, and the result is true exactly when every copy counted; nothing else changes |
| BackupService.PhotoBackupCleanupService.DeleteRootDirectoryImages | MediaMinder.Service/PhotoBackupCleanupService.cs:260-288 | the root files end as `RemoveOriginals` describes; the subdirectories do not change |
| BackupService.PhotoBackupCleanupService.CleanupExpiredDirectories | MediaMinder.Service/PhotoBackupCleanupService.cs:293-335 | the subdirectories end as `Expire` describes; the root files do not change |
| BackupService.PhotoBackupCleanupService.ExecuteBackupAndCleanup | MediaMinder.Service/PhotoBackupCleanupService.cs:28-90 | the result and the directory afterwards are exactly those of `Cycle` |
| Ipc.Deliver | MediaMinder.Service/NamedPipeCommunicationService.cs:163-164 | reading a message calls the callback with it first, when there is one, and raises `MessageReceived` last |
| PipeServer.Connected | MediaMinder.Service/NamedPipeCommunicationService.cs:21 | `IsConnected` is false without a pipe, and otherwise what the pipe reports |
| PipeServer.Started | MediaMinder.Service/NamedPipeCommunicationService.cs:55-68 | afterwards listening, with pipe and trace as before; while listening nothing changes; otherwise the new handler is stored and the token is fresh |
| PipeServer.SendResult | MediaMinder.Service/NamedPipeCommunicationService.cs:35-53 | a send is dropped exactly when not connected and written exactly when connected and the write does not throw; "not connected" is never thrown |
| PipeServer.Teardown | MediaMinder.Service/NamedPipeCommunicationService.cs:135-147 | after a round `IsConnected` is false and exactly one "disconnected" is added; listening, token and handler are kept |
| PipeServer.Stopped | MediaMinder.Service/NamedPipeCommunicationService.cs:70-89 | afterwards not listening, with trace and handler as before; when it was listening, the token is cancelled and `IsConnected` is false; otherwise nothing changes |
| PipeServer.ReadLoop | MediaMinder.Service/NamedPipeCommunicationService.cs:151-172 | the read loop keeps the handler and consumes part of the script |
| PipeServer.AcceptLoop | MediaMinder.Service/NamedPipeCommunicationService.cs:91-149 | the accept loop keeps the handler |
| PipeServer.DeliverInSession | MediaMinder.Service/NamedPipeCommunicationService.cs:163-164 | one delivery is a well-formed piece of a session: the callback with this handler, then the event for the same message |
| PipeServer.ReadLoopOrder | MediaMinder.Service/NamedPipeCommunicationService.cs:153-170 | the read loop observes only deliveries, each callback immediately followed by its event |
| PipeServer.AcceptLoopOrder | MediaMinder.Service/NamedPipeCommunicationService.cs:91-149 | the accept loop's observations are whole rounds: "connected" only after an accept and before the deliveries, a delay only after an accept error, and every round closed by one "disconnected" |
| PipeServer.ReadLoopCancels | MediaMinder.Service/NamedPipeCommunicationService.cs:153-170 | a read loop leaves listening and the token as they were unless it was stopped |
| PipeServer.AcceptLoopEnds | MediaMinder.Service/NamedPipeCommunicationService.cs:93-147 | once started, the accept loop returns only stopped, with no pipe and "disconnected" observed last; a send after that is dropped |
| PipeServer.StartTwice | MediaMinder.Service/NamedPipeCommunicationService.cs:55-62 | `StartListening` while listening changes nothing; after a stop, a start installs the new handler and a fresh token |
| PipeServer.StopTwice | MediaMinder.Service/NamedPipeCommunicationService.cs:70-73 | stopping twice is stopping once |
| PipeServer.ServerReads | MediaMinder.Service/NamedPipeCommunicationService.cs:153-165 | a run of messages read while connected is delivered in order, and the loop goes on with the rest of the script |
| PipeServer.ServerReadsUntilError | MediaMinder.Service/NamedPipeCommunicationService.cs:153-170 | a read error ends the read loop right after the messages before it, with only their deliveries observed |
| PipeServer.ServerRetries | MediaMinder.Service/NamedPipeCommunicationService.cs:121-147 | an accept error and the full delay are observed as one 5000 ms delay and a "disconnected", after which the loop accepts again |
| PipeServer.ServerCancelled | MediaMinder.Service/NamedPipeCommunicationService.cs:108-147 | a stop while waiting for a client ends the loop stopped, torn down, with one "disconnected" observed |
| PipeServer.SessionWithoutBackoff | MediaMinder.Service/NamedPipeCommunicationService.cs:108-147 | a session whose client hangs up is "connected", its deliveries and "disconnected", and the loop accepts again with no delay |
| PipeServer.SessionOrder | MediaMinder.Service/NamedPipeCommunicationService.cs:108-147 | one session, from "connected" through its deliveries to the teardown, is a whole round |
| PipeServer.NamedPipeServer.IsConnected | MediaMinder.Service/NamedPipeCommunicationService.cs:21 | the object's `IsConnected` is `Connected` of its state |
| PipeServer.NamedPipeServer.SendMessage | MediaMinder.Service/NamedPipeCommunicationService.cs:35-53 | not connected: dropped without a word; a write that throws is rethrown; anything but a write leaves the state unchanged |
| PipeServer.NamedPipeServer.StartListening | MediaMinder.Service/NamedPipeCommunicationService.cs:55-68 | the new state is `Started` |
| PipeServer.NamedPipeServer.StopListening | MediaMinder.Service/NamedPipeCommunicationService.cs:70-89 | the new state is `Stopped` |
| PipeServer.NamedPipeServer.ReleasePipe | MediaMinder.Service/NamedPipeCommunicationService.cs:135-147 | the pipe is disposed and "disconnected" reported |
| PipeServer.NamedPipeServer.HandleClientMessages | MediaMinder.Service/NamedPipeCommunicationService.cs:151-172 | the read loop leaves the state and the unread script that `ReadLoop` specifies |
| PipeServer.NamedPipeServer.ListenForConnections | MediaMinder.Service/NamedPipeCommunicationService.cs:91-149 | the accept loop leaves the state and the unread script that `AcceptLoop` specifies |
| PipeClient.Linked | MediaMinder.UI/NamedPipeClient.cs:19 | `IsConnected` holds exactly when the client's own flag is set, a pipe exists and the pipe reports connected; it is false without a pipe |
| PipeClient.Started | MediaMinder.UI/NamedPipeClient.cs:47-58 | afterwards listening, with pipe and trace as before; while listening nothing changes; otherwise the new handler is stored and the token is fresh |
| PipeClient.SendResult | MediaMinder.UI/NamedPipeClient.cs:30-45 | a send throws "not connected" exactly when `IsConnected` is false and is written exactly when connected and the write does not throw; it is never silently dropped |
| PipeClient.Stopped | MediaMinder.UI/NamedPipeClient.cs:60-80 | afterwards not listening with the handler kept; when it was listening, the token is cancelled, the pipe gone, the flag cleared and one "disconnected" reported; otherwise nothing changes |
| PipeClient.Connect | MediaMinder.UI/NamedPipeClient.cs:121-141 | the flag is set, and `IsConnected` true, exactly when the client connected; the handler is kept |
| PipeClient.ReadLoop | MediaMinder.UI/NamedPipeClient.cs:143-162 | the read loop keeps the handler and consumes part of the script |
| PipeClient.ConnectLoop | MediaMinder.UI/NamedPipeClient.cs:82-119 | the connect loop keeps the handler |
| PipeClient.DeliverWhileReading | MediaMinder.UI/NamedPipeClient.cs:153-154 | one delivery while reading is the callback with this handler, then the event for the same message |
| PipeClient.ReadLoopOrder | MediaMinder.UI/NamedPipeClient.cs:145-161 | the read loop observes deliveries, each callback immediately followed by its event, and when it was stopped, the stopping "disconnected" last; unless stopped, the token is as before |
| PipeClient.AfterConnect | MediaMinder.UI/NamedPipeClient.cs:89-117 | after "connected" come deliveries, then either the stop or one delay and further whole attempts, ending stopped |
| PipeClient.ConnectLoopOrder | MediaMinder.UI/NamedPipeClient.cs:82-119 | the connect loop's observations are whole attempts separated by exactly one 5000 ms delay each, with reads only after "connected", ending with the stop |
| PipeClient.ConnectLoopEnds | MediaMinder.UI/NamedPipeClient.cs:82-119 | once started, the connect loop returns only stopped, with the flag cleared, no pipe and "disconnected" observed last; a send after that throws |
| PipeClient.AttemptEnds | MediaMinder.UI/NamedPipeClient.cs:84-119 | every attempt observes something, and one that ends the loop leaves the client not listening, with the flag cleared, no pipe and "disconnected" last |
| PipeClient.ReadStops | MediaMinder.UI/NamedPipeClient.cs:145-160 | a read loop that ends not listening was stopped: the flag cleared, no pipe, "disconnected" last |
| PipeClient.StartTwice | MediaMinder.UI/NamedPipeClient.cs:47-54 | `StartListening` while listening changes nothing; after a stop, a start installs the new handler and a fresh token |
| PipeClient.StopTwice | MediaMinder.UI/NamedPipeClient.cs:60-63 | stopping twice is stopping once; the second stop reports nothing |
| PipeClient.ConnectReports | MediaMinder.UI/NamedPipeClient.cs:121-140 | a connection is reported as one "connected"; a failure or time-out as one "disconnected"; a stop during the wait as "disconnected" twice, once by the stop and once by the failed connect |
| PipeClient.ClientReads | MediaMinder.UI/NamedPipeClient.cs:145-155 | a run of messages read while connected is delivered in order, and the loop goes on |
| PipeClient.ClientReadsUntilError | MediaMinder.UI/NamedPipeClient.cs:145-160 | a read error ends the read loop right after the messages before it, with only their deliveries observed |
| PipeClient.AfterFailuresState | MediaMinder.UI/NamedPipeClient.cs:135-138 | after n > 0 failed attempts, the client holds an unconnected pipe, its flag is clear, and it has observed "disconnected" and a 5000 ms delay n times |
| PipeClient.ClientRetry | MediaMinder.UI/NamedPipeClient.cs:84-117 | a failed attempt and its full delay lead to the next attempt |
| PipeClient.ClientRetries | MediaMinder.UI/NamedPipeClient.cs:84-117 | n failed attempts with their delays lead to the next attempt from the state `AfterFailures` describes |
| PipeClient.ClientReconnects | MediaMinder.UI/NamedPipeClient.cs:84-118 | n failed attempts then a connection are observed as ("disconnected", delay) n times, then "connected", then a well-formed continuation ending with the stop |
| PipeClient.SilentDisconnect | MediaMinder.UI/NamedPipeClient.cs:89-117 | a read error is not reported: "connected" is followed directly by a delay, and the flag still says connected while the client waits |
| PipeClient.NamedPipeClient.IsConnected | MediaMinder.UI/NamedPipeClient.cs:19 | the object's `IsConnected` is `Linked` of its state |
| PipeClient.NamedPipeClient.SendMessage | MediaMinder.UI/NamedPipeClient.cs:30-45 | not connected: throws; a write that throws is rethrown; anything but a write leaves the state unchanged |
| PipeClient.NamedPipeClient.StartListening | MediaMinder.UI/NamedPipeClient.cs:47-58 | the new state is `Started` |
| PipeClient.NamedPipeClient.StopListening | MediaMinder.UI/NamedPipeClient.cs:60-80 | the new state is `Stopped` |
| PipeClient.NamedPipeClient.ConnectAsync | MediaMinder.UI/NamedPipeClient.cs:121-141 | the new state is `Connect` of the wait's outcome, and the method throws exactly when the client did not connect |
| PipeClient.NamedPipeClient.ListenForMessages | MediaMinder.UI/NamedPipeClient.cs:143-162 | the read loop leaves the state and the unread script that `ReadLoop` specifies |
| PipeClient.NamedPipeClient.ConnectAndListen | MediaMinder.UI/NamedPipeClient.cs:82-119 | the connect loop leaves the state and the unread script that `ConnectLoop` specifies |

## Left out

- Logging, and the `try`/`catch` around whole steps, are not modelled. Each step's catch only logs and returns what the model returns for that failure.
- Concurrency is left out. `async`/`await`, the `Task.Run` that starts a listening loop (the model's loop methods are called after `StartListening` instead), cancellation tokens (a `cancelled` flag) and wall-clock delays (a `Backoff(5000)` observation) are all abstractions of it.
- A concurrent `StopListening` takes effect only at an `await`, as a `Stop` event. A stop between two statements is not modelled.
- The length-prefix codec is not part of this model. Its source is not available, so a read simply yields a message, an error or a time-out, and a write succeeds or throws. The JSON payload, the GUIDs and the timestamps of `IPCMessage` are opaque fields.
- `ExecuteBackupAndCleanup`: the source reads `DateTime.Now` twice, for the backup name and for the expiry cutoff. The model uses one `now` for both.
- File names are compared case-sensitively, and lower-casing covers ASCII only. The Windows filesystem is case-insensitive.
- Directory paths are left out: names are file names within the holding directory.
- A file's length is read when the cycle starts. A source that changes during the cycle is not modelled.
- Times are whole seconds. `DateTime` counts 100 ns ticks and the source compares `CreationTime < oneWeekAgo` at that resolution. A subdirectory created within the same second as the cutoff, but earlier in it, is deleted by the source and kept by the model, which sees equal creation time and cutoff.
- A failed `File.Copy` writes nothing in the model. The real call may leave a partial target file before it throws. Such a file would take the name for later sources and could be found by verification.
- A failed recursive `Directory.Delete` deletes nothing in the model. The real call may delete part of a directory before it throws.
- Exceptions thrown by the message callback or by event subscribers are left out. The callback is identified by a number.
- After a read ends, the pipe's connectivity is observed only through `Receive(m, open)`. A read error leaves the connectivity as it was.
- `PhotoBackupCleanupProcess.cs` is not part of this model: it runs an external copy of the cycle. The display form, the file watcher, the hosting code and the mutex are not part of it either.
- The rename loop is followed as the code writes it: each attempt adds its suffix to the previous attempt's name, so the second collision gives `IMG_0001_1_2.JPG` (`BackupSpec.RenameChainExample`). A single suffix on the original stem, `IMG_0001_2.JPG`, reads as what was meant, and it would also match the names verification searches for. The model does not claim either reading as the intended one.
- The client is followed as the code writes it. When its read loop ends by a read error or a hang-up, nothing raises `ConnectionStatusChanged(false)` and `_isConnected` stays set until the next attempt (`PipeClient.SilentDisconnect`). The server, by contrast, reports every end of a session.
- PipeServer.ReadLoop: its own contract only says that the handler is kept and part of the script is consumed; what it observes is stated by `PipeServer.ReadLoopOrder` and `PipeServer.ReadLoopCancels`, and `PipeServer.NamedPipeServer.HandleClientMessages` is proved equal to it.
- PipeServer.AcceptLoop: its own contract only says that the handler is kept; its rounds are stated by `PipeServer.AcceptLoopOrder` and its end by `PipeServer.AcceptLoopEnds`, and `PipeServer.NamedPipeServer.ListenForConnections` is proved equal to it.
- PipeClient.ReadLoop: its own contract only says that the handler is kept and part of the script is consumed; what it observes is stated by `PipeClient.ReadLoopOrder` and `PipeClient.ReadStops`, and `PipeClient.NamedPipeClient.ListenForMessages` is proved equal to it.
- PipeClient.ConnectLoop: its own contract only says that the handler is kept; its attempts are stated by `PipeClient.ConnectLoopOrder` and its end by `PipeClient.ConnectLoopEnds`, and `PipeClient.NamedPipeClient.ConnectAndListen` is proved equal to it.
- PipeClient.Connect: its own contract states only the flag and the handler. The reports it makes are stated by `PipeClient.ConnectReports`.

## Findings

| source | as written | input that shows it | evidently intended | confidence | as-written member | corrected member |
|---|---|---|---|---|---|---|
| MediaMinder.Service/PhotoBackupCleanupService.cs:188-226 | Verification looks for each source's copy under the source's own name first. It searches the numbered names only when that name is absent, even if the copy step renamed the copy. | The backup directory `Backup_<stamp>` already exists (a second cycle in the same second) and holds `IMG.JPG` of 10 bytes. The root's `IMG.JPG` is 10 bytes, and its copy is written to `IMG_1.JPG` but short (3 bytes). Verification compares the root file with the older `IMG.JPG` and passes, so the original is deleted although its only copy is short. | Each source is compared with the file the copy step actually wrote for it (`CopiesVerified`). Then a passing verification means every source was copied in this cycle, with its exact length, to a name that did not exist before. The written and intended checks agree whenever the backup directory is new (`BackupSpec.FreshBackupVerifiesCopies`), so the cycle keeps the check as written. | not executed | BackupSpec.VerifiedAcceptsShortCopy | BackupSpec.CopiesVerifiedSound |
