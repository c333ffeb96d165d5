# MagisOperativos media server: load balancer, workers and file classifiers in Dafny

This project models the core of the MagisOperativos media server, a Node/Express application. Users upload audio and video, and conversion tasks are farmed out to worker processes. The model covers:

- **Node registry entry** (`NodeRegistry`, node.dfy). A registered worker's capabilities, capacity, live statistics and task list. Its status is derived from the statistics: online, or overloaded above 90 % cpu or memory. It is also derived from heartbeats: offline after 30 s of silence.
- **Load balancer** (`Balancer`, load_balancer.dfy). A registry kept in the insertion order of a JavaScript `Map`, plus a FIFO queue of tasks no node could take.
  - Selection picks the least loaded node that can handle the task. Ties go to the earliest registered node, because the sort is stable.
  - A distributed task is assigned to that node or queued.
  - The dashboard statistics summarise the registry.
- **Conversion worker #2** (`ConversionNode`, conversion_node.dfy). The worker's own counters and task map, changed by the handlers that accept, finish, fail and cancel tasks. The status and health handlers read them.
- **Format tables and classifiers**:
  - the ffmpeg format table (`MediaFormats`, media_formats.dfy);
  - the storage scanner (`StorageScanner`);
  - the S3 uploader (`AwsUploader`);
  - the local file scanner (`LocalFileScanner`);
  - the S3-to-database sync script (`S3Sync`).

  Each of them classifies file names in its own way: `path.extname`, `split('.').pop()` and `substring(lastIndexOf('.'))`. Each is modelled as written.

The layout follows the source:

- **Mutable objects are classes.** `Node`, `LoadBalancer` and `WorkerNode` have `modifies` clauses. Each method is proved equal to a pure transition function on a value snapshot (`AfterAssign`, `AfterExecute`, ...), and the lemmas are stated on those functions.
- **Loops are methods with invariants.** This covers `scanAndSync`, `syncFolderToS3`, `scanDirectory` and `syncFolder`. Each loop is tied to a recursive specification function of the prefix visited so far.
- **Table lookups and string logic are functions.**
- **Outside dependencies are parameters.** Clocks are a `now` argument in milliseconds. The file system, S3 answers and the `mediaFiles` collection are sequences and maps passed in and returned.

Shared helpers:

- `Wrappers`: `Option` and `Result`. `Result` stands for a thrown error.
- `Strings`: ASCII `toLowerCase`, `toUpperCase` and `lastIndexOf`.
- `Paths`: POSIX `path.basename` and `path.extname`.
- `Tables`: lookup in an object literal kept in declaration order.
- `FileSystem`: folder listings (missing, unreadable or listed) and `fs.stat` outcomes.
- `FileKinds`: the four file types.

Three behaviours of the code shape the model:

- **Status in `getSystemStats`.** `getSystemStats` counts nodes by their stored `status` (server/utils/loadBalancer.js:71-72). Only `getHealth` applies the 30 s staleness check.
- **No queue draining or completion bookkeeping in the balancer.** Tasks queued by `distributeTask` stay queued; server/utils/loadBalancer.js has no operation that takes them out, and no balancer-side completion or failure of a task.
- **Workers' capabilities.** Workers register with an array of capabilities (server/nodes/conversionNode2.js:15). A `Node` then has no `supportedTasks`, and `canHandleTask` throws once that node is online and below capacity. The model keeps this as an `Error` result, which makes the whole selection throw (`ArrayCapabilitiesBreakSelection`).

## Model

| member | source | states |
|---|---|---|
| NodeRegistry.Node.constructor | server/models/Node.js:3-22 | a new entry is online, with zero statistics, capacity `capabilities.maxTasks` (10 when absent or 0) and an empty task list |
| NodeRegistry.MergeStats | server/models/Node.js:25 | every field a report supplies takes the reported value; every other field keeps its old value |
| NodeRegistry.StatusFor | server/models/Node.js:29-33 | overloaded iff cpu > 90 or memory > 90, online otherwise, never offline |
| NodeRegistry.AfterUpdateStats | server/models/Node.js:24-34 | stats merged, heartbeat refreshed; overloaded iff cpu > 90 or memory > 90, online otherwise (also when it was offline); tasks untouched |
| NodeRegistry.Node.UpdateStats | server/models/Node.js:24-34 | the new state is `AfterUpdateStats` of the old one |
| NodeRegistry.CanHandleTask | server/models/Node.js:36-40 | true iff online, below capacity and the task type is listed; throws iff online and below capacity without `supportedTasks`; eligible implies capacity ≥ 1 |
| NodeRegistry.AfterAssign | server/models/Node.js:42-49 | activeTasks + 1; exactly one processing record for the task appended at the end; earlier records unchanged; nothing else in the node changes |
| NodeRegistry.Node.AssignTask | server/models/Node.js:42-49 | the new state is `AfterAssign` of the old one |
| NodeRegistry.FindTask | server/models/Node.js:52 | the first position holding the id, or -1 when no record has it |
| NodeRegistry.AfterComplete | server/models/Node.js:51-59 | only the first record with the id becomes completed; activeTasks decremented but never below 0; completedTasks + 1 even for an unknown id; nothing else in the node changes |
| NodeRegistry.Node.CompleteTask | server/models/Node.js:51-59 | the new state is `AfterComplete` of the old one |
| NodeRegistry.AfterFail | server/models/Node.js:61-70 | as completion, but the record becomes failed with the error, and failedTasks + 1; nothing else in the node changes |
| NodeRegistry.Node.FailTask | server/models/Node.js:61-70 | the new state is `AfterFail` of the old one |
| NodeRegistry.AfterHealthCheck | server/models/Node.js:73-76 | offline iff more than 30000 ms since the heartbeat (or already offline); otherwise nothing changes; only the status can change |
| NodeRegistry.Node.GetHealth | server/models/Node.js:72-88 | applies the staleness check; the returned snapshot equals the node's current status and counters |
| NodeRegistry.HealthOf | server/models/Node.js:79-87 | the snapshot carries the stored status and the six counters unchanged; `Node.GetHealth` returns it after the staleness check |
| NodeRegistry.AssignKeepsCounts | server/models/Node.js:42-49 | assignment keeps activeTasks equal to the number of processing records |
| NodeRegistry.FinishKeepsCounts | server/models/Node.js:51-70 | completing or failing a task still processing keeps that equality |
| NodeRegistry.CompleteUnknownBreaksCounts | server/models/Node.js:51-59 | completing an id the node does not hold lowers activeTasks anyway, breaking that equality |
| NodeRegistry.AssignWithinCapacity | server/models/Node.js:36-49 | a task assigned to an eligible node leaves 1 ≤ activeTasks ≤ maxTasks, and its type is supported |
| NodeRegistry.HeartbeatLifecycle | server/models/Node.js:24-76 | a report revives an offline node; a health check within 30 s keeps the derived status; a later one makes it offline, and it then accepts no task |
| NodeRegistry.UpdateStatsIdempotent | server/models/Node.js:24-34 | applying the same report twice equals applying it once |
| Balancer.LoadAtMostTransitive | server/utils/loadBalancer.js:37-42 | the cross-multiplied load order of the sort is transitive for positive capacities |
| Balancer.BestIsUnique | server/utils/loadBalancer.js:37-44 | at most one position is the least loaded, earliest eligible node, so the choice is determined |
| Balancer.FirstLeastLoaded | server/utils/loadBalancer.js:35-44 | none iff no node is eligible; otherwise an eligible node of minimal load, the first such in Map order |
| Balancer.FindBestIndex | server/utils/loadBalancer.js:34-45 | throws iff some node's `canHandleTask` throws; none iff every node declines; otherwise the least loaded, earliest eligible node |
| Balancer.BestIsOnlineWithRoom | server/utils/loadBalancer.js:35-44 | the chosen node is online, below capacity and lists the task type |
| Balancer.PrefersLessLoaded | server/utils/loadBalancer.js:37-42 | of two eligible nodes with equal capacity, the one with more active tasks is never chosen |
| Balancer.ArrayCapabilitiesBreakSelection | server/utils/loadBalancer.js:35-36 | one online node with room and no `supportedTasks` makes selection throw for every task type |
| Balancer.OnlineOfflineBounded | server/utils/loadBalancer.js:71-72 | online plus offline nodes never exceed the nodes counted |
| Balancer.SumActiveZero | server/utils/loadBalancer.js:73 | the summed active tasks are 0 iff every node has none |
| Balancer.SystemStatsOf | server/utils/loadBalancer.js:66-84 | totalNodes is the number of nodes; onlineNodes and offlineNodes count the stored statuses, and together never exceed it; totalTasks is the sum of activeTasks, 0 iff no node is busy; queuedTasks is the queue length; one summary per node in Map order |
| Balancer.SumActiveAssign | server/utils/loadBalancer.js:73 | an assignment raises the summed active tasks by exactly 1 |
| Balancer.DistributionShowsInStats | server/utils/loadBalancer.js:47-74 | an assigned task adds 1 to totalTasks with the queue unchanged; a queued task adds 1 to queuedTasks with totalTasks unchanged |
| Balancer.Without | server/utils/loadBalancer.js:23 | deleting a key from the Map's order keeps every other id, and only those |
| Balancer.WithoutKeepsDistinct | server/utils/loadBalancer.js:23 | the Map's order stays free of duplicates after a delete |
| Balancer.LoadBalancer.Infos | server/utils/loadBalancer.js:67 | the nodes' states in Map order, one per registered id |
| Balancer.LoadBalancer.constructor | server/utils/loadBalancer.js:5-8 | an empty registry and an empty queue |
| Balancer.LoadBalancer.RegisterNode | server/utils/loadBalancer.js:10-20 | the fresh node is stored under its id, replacing an existing entry in its old place or appended last; the registry grows by at most one; the queue is unchanged |
| Balancer.LoadBalancer.UnregisterNode | server/utils/loadBalancer.js:22-25 | only that key is removed; the other nodes and the queue are unchanged |
| Balancer.LoadBalancer.UpdateNodeStats | server/utils/loadBalancer.js:27-32 | a known node gets `AfterUpdateStats`; every other node is unchanged; an unknown id changes nothing |
| Balancer.LoadBalancer.FindBestNode | server/utils/loadBalancer.js:34-45 | the node at the position `FindBestIndex` picks; null and throwing exactly when it says so |
| Balancer.LoadBalancer.FindBestNodeNone | server/utils/loadBalancer.js:35-44 | null iff every registered node declines the task |
| Balancer.LoadBalancer.FindBestNodeIsLeastLoaded | server/utils/loadBalancer.js:35-44 | a returned node is registered and eligible, and no eligible node carries less load |
| Balancer.LoadBalancer.AssignAt | server/utils/loadBalancer.js:57 | only the chosen node changes, by `AfterAssign` |
| Balancer.LoadBalancer.DistributeTask | server/utils/loadBalancer.js:47-64 | null: the task is appended to the queue and no node changes; non-null: the chosen node gets the task and the queue is unchanged; a throwing selection changes nothing |
| Balancer.LoadBalancer.GetSystemStats | server/utils/loadBalancer.js:66-84 | the result is `SystemStatsOf` the registered nodes in Map order and the queue; totalNodes is the registry size; totalTasks is 0 iff no registered node is busy |
| Balancer.LoadBalancer.RegistrySize | server/utils/loadBalancer.js:70 | the Map's size equals the number of ids in its order |
| Balancer.TwoSlotScenario | server/utils/loadBalancer.js:47-64 | a node of capacity 2 takes the first two tasks; the third finds no node and is queued |
| ConversionNode.Initial | server/nodes/conversionNode2.js:22-33 | zero counters, no tasks, status starting |
| ConversionNode.AfterRegistration | server/nodes/conversionNode2.js:54-64 | online on success, registration_failed otherwise; nothing else changes |
| ConversionNode.Clamp | server/nodes/conversionNode2.js:74-75 | the result lies in the bounds and equals the input when it already does |
| ConversionNode.AfterSample | server/nodes/conversionNode2.js:74-76 | cpu in [15, 100], memory in [25, 100], heartbeat refreshed; counters and tasks untouched |
| ConversionNode.AfterExecute | server/nodes/conversionNode2.js:108-123 | saturated: nothing changes; otherwise activeTasks + 1 and the id stored as processing; other ids unchanged |
| ConversionNode.ExecuteReplyFor | server/nodes/conversionNode2.js:108-152 | accepted iff activeTasks < 2; the reply names the task, and the node when accepted |
| ConversionNode.AfterSuccess | server/nodes/conversionNode2.js:131-133 | activeTasks − 1, completedTasks + 1, the id removed |
| ConversionNode.AfterFailure | server/nodes/conversionNode2.js:138-140 | activeTasks − 1, failedTasks + 1, the id removed |
| ConversionNode.AfterCancel | server/nodes/conversionNode2.js:240-252 | unknown id: nothing changes; known id: activeTasks − 1 and the id removed |
| ConversionNode.CancelReplyFor | server/nodes/conversionNode2.js:242-260 | not found iff the id is unknown |
| ConversionNode.Progress | server/nodes/conversionNode2.js:223-229 | at most 95, non-negative for non-negative elapsed time, within half a step of elapsed/300 below the cap, 95 iff elapsed ≥ 28350 ms |
| ConversionNode.ProgressMonotone | server/nodes/conversionNode2.js:223-229 | progress never decreases as elapsed time grows |
| ConversionNode.StatusReplyFor | server/nodes/conversionNode2.js:211-233 | not found iff the id is unknown; otherwise the task's status and elapsed time, and a progress of at most 95 that is non-negative when the elapsed time is |
| ConversionNode.HealthReportFor | server/nodes/conversionNode2.js:266-283 | the counters as they stand, maxTasks 2, status healthy |
| ConversionNode.StatsReportFor | server/nodes/conversionNode2.js:78-85 | the posted statistics carry the sampled cpu and memory and the counters as they stand, with maxTasks 2 |
| ConversionNode.InitialConsistent | server/nodes/conversionNode2.js:22-33 | at start the counter matches the task map |
| ConversionNode.ExecuteFreshKeepsConsistent | server/nodes/conversionNode2.js:108-123 | accepting a fresh id keeps counter = map size ≤ 2 with every stored task processing |
| ConversionNode.FinishKnownKeepsConsistent | server/nodes/conversionNode2.js:129-143 | finishing, failing or cancelling a stored id keeps that consistency |
| ConversionNode.SampleKeepsConsistent | server/nodes/conversionNode2.js:71-96 | sampling metrics and registration keep it |
| ConversionNode.PostedCountAfterSuccess | server/nodes/conversionNode2.js:130-134 | after a stored task completes, the state stays consistent and the statistics posted count exactly the tasks still held, with one more completed |
| ConversionNode.SaturatedChangesNothing | server/nodes/conversionNode2.js:108-114 | a request at capacity is rejected and leaves the state as it was |
| ConversionNode.CancelThenStatusNotFound | server/nodes/conversionNode2.js:238-252 | after a cancel, a status query for the id is not found |
| ConversionNode.DuplicateIdBreaksCount | server/nodes/conversionNode2.js:117-123 | a duplicate id is counted again but overwrites its entry, so the counter runs one ahead of the map |
| ConversionNode.CancelThenFinishDecrementsTwice | server/nodes/conversionNode2.js:129-143 | a cancelled task's completion decrements the counter a second time |
| ConversionNode.CancelledCompletionOveradmits | server/nodes/conversionNode2.js:108-143 | on a fresh worker, after one task is accepted, cancelled and completed, three more are accepted and held at once despite capacity 2 |
| ConversionNode.WorkerNode.constructor | server/nodes/conversionNode2.js:22-33 | the state is `Initial` |
| ConversionNode.WorkerNode.RecordRegistration | server/nodes/conversionNode2.js:38-66 | returns whether registration succeeded; the state is `AfterRegistration` |
| ConversionNode.WorkerNode.UpdateNodeStats | server/nodes/conversionNode2.js:71-96 | the state is `AfterSample`; the statistics posted to the main server are `StatsReportFor` the sampled state |
| ConversionNode.WorkerNode.Execute | server/nodes/conversionNode2.js:101-162 | the reply is `ExecuteReplyFor`; saturated: nothing changes and nothing is posted; accepted: the state is `AfterSample` of `AfterExecute`, and its statistics are posted |
| ConversionNode.WorkerNode.CompleteTask | server/nodes/conversionNode2.js:130-136 | the state is `AfterSample` of `AfterSuccess`, and its statistics are posted |
| ConversionNode.WorkerNode.FailTask | server/nodes/conversionNode2.js:137-143 | the state is `AfterSample` of `AfterFailure`, and its statistics are posted |
| ConversionNode.WorkerNode.GetTaskStatus | server/nodes/conversionNode2.js:211-233 | not found iff unknown; otherwise status, elapsed time and `Progress` of it |
| ConversionNode.WorkerNode.Cancel | server/nodes/conversionNode2.js:238-261 | the reply is `CancelReplyFor`; an unknown id changes nothing and posts nothing; a known one leaves `AfterSample` of `AfterCancel` and posts its statistics |
| ConversionNode.WorkerNode.Health | server/nodes/conversionNode2.js:266-283 | the report carries the current counters, metrics and status, and maxTasks 2 |
| MediaFormats.CategoryKeys | server/utils/ffmpeg.js:11-27 | the keys of each category in declaration order |
| MediaFormats.HasKeyIffFormatKey | server/utils/ffmpeg.js:11-27 | a name is a key of some category iff it is one of the eleven keys |
| MediaFormats.ExtensionIsKey | server/utils/ffmpeg.js:11-27 | every entry's extension is its own key |
| MediaFormats.AudioKeysUnique | server/utils/ffmpeg.js:12-19 | no audio key appears twice |
| MediaFormats.VideoKeysUnique | server/utils/ffmpeg.js:20-26 | no video key appears twice |
| MediaFormats.CategoriesDisjoint | server/utils/ffmpeg.js:11-27 | no key is both audio and video |
| MediaFormats.KeysDistinct | server/utils/ffmpeg.js:11-27 | no key appears twice in the whole table |
| MediaFormats.GetSupportedFormats | server/utils/ffmpeg.js:31-37 | the category table for audio or video, the whole table otherwise |
| MediaFormats.FindByExtension | server/utils/ffmpeg.js:43-49 | a hit has the extension; none iff no entry has it |
| MediaFormats.FindByExtensionFirst | server/utils/ffmpeg.js:43-49 | the search returns the first entry with the extension |
| MediaFormats.GetMimeType | server/utils/ffmpeg.js:39-52 | the default type for any name that is not a key |
| MediaFormats.MimeTypeOfEntry | server/utils/ffmpeg.js:39-52 | each of the eleven extensions maps to its own entry's MIME type |
| MediaFormats.MimeTypeExamples | server/utils/ffmpeg.js:39-52 | mp3 → audio/mpeg, m4a → audio/mp4, mkv → video/x-matroska; ".mp3" and "MP3" get the default |
| MediaFormats.CanConvert | server/utils/ffmpeg.js:54-63 | true iff both names are keys of some category |
| MediaFormats.CanConvertIffConfigs | server/utils/ffmpeg.js:54-63 | convertible iff both configurations exist |
| MediaFormats.CanConvertSymmetric | server/utils/ffmpeg.js:54-63 | direction does not matter |
| MediaFormats.CanConvertExamples | server/utils/ffmpeg.js:54-63 | audio to video and back is allowed; an unknown format is not |
| MediaFormats.GetFormatConfig | server/utils/ffmpeg.js:141-149 | found iff the name is a key; the entry found is in the table and its extension is the name |
| MediaFormats.LookupAppend | server/utils/ffmpeg.js:143-147 | the audio category is searched before the video one |
| MediaFormats.MimeTypeOfConfig | server/utils/ffmpeg.js:141-149 | round trip: the MIME type found by a configuration's extension is the one it carries |
| MediaFormats.OptionFor | server/utils/ffmpeg.js:159-164 | the label is the upper-cased name; the description embeds it; recommended iff mp3, mp4, webm or flac |
| MediaFormats.GetFormatsForFrontend | server/utils/ffmpeg.js:154-174 | a known category gives one option per key in table order; anything else gives both key lists |
| MediaFormats.FrontendOptionsConvertible | server/utils/ffmpeg.js:154-174 | every offered option is a convertible format |
| Paths.BaseName | server/services/awsUploader.js:72 | the base name contains no '/' |
| Paths.ExtName | server/services/storageScanner.js:158 | empty iff the base name has no '.' after its first character or is ".."; otherwise a suffix of the base name that starts with '.' and holds no further '.', so it runs from the base name's last '.' |
| Paths.BaseNameOfJoin | server/services/awsUploader.js:121 | the base name of `folder/name` is `name` for a proper entry name |
| StorageScanner.FileTypeOf | server/services/storageScanner.js:151-175 | audio, video, images folders decide; in converted only four audio and four video extensions count; elsewhere the three longer lists decide |
| StorageScanner.GetFileType | server/services/storageScanner.js:151-175 | the audio, video and images folders fix the type whatever the name |
| StorageScanner.MimeTypeOf | server/services/storageScanner.js:177-195 | a non-default type iff the extension is one of the twelve listed |
| StorageScanner.GetMimeType | server/services/storageScanner.js:177-195 | a non-default type iff the lower-cased `path.extname` is listed, and then the listed type; properties in `ClassificationIgnoresCase`, `MimeTypeAgreesWithFileType` |
| StorageScanner.ExtensionIgnoresCase | server/services/storageScanner.js:165 | the lower-cased extension ignores the case of the name |
| StorageScanner.ClassificationIgnoresCase | server/services/storageScanner.js:151-195 | file type and MIME type ignore the case of the name |
| StorageScanner.OggClassified | server/services/storageScanner.js:156-170 | `.ogg` is other in converted and audio in uploads |
| StorageScanner.OggDependsOnFolder | server/services/storageScanner.js:156-170 | the same for any file name with that extension |
| StorageScanner.MimeTypeAgreesWithFileType | server/services/storageScanner.js:165-192 | outside the type folders, a listed extension's MIME type names the file type it gets |
| StorageScanner.FirstWithPath | server/services/storageScanner.js:78-80 | the first record with the path, or -1 iff none has it |
| StorageScanner.FileDataOf | server/services/storageScanner.js:82-96 | path `folder/filename`, size and modification time from the stat |
| StorageScanner.SyncRecord | server/services/storageScanner.js:98-148 | added iff no record has the path, with one record appended; updated iff size or modification time differ, refreshing the first record; unchanged otherwise, writing nothing |
| StorageScanner.ProcessFile | server/services/storageScanner.js:72-149 | the file is reported at `folder/filename` with its size; added iff that path was not recorded; afterwards the path is recorded and no earlier path is lost; idempotence in `ProcessFileIdempotent` |
| StorageScanner.SyncKeepsPaths | server/services/storageScanner.js:98-148 | no path is lost; the file's path is recorded; the collection grows only on added |
| StorageScanner.SyncIdempotent | server/services/storageScanner.js:120-147 | syncing the same data twice: the second time is unchanged and writes nothing |
| StorageScanner.ProcessFileIdempotent | server/services/storageScanner.js:72-149 | a second scan of an unchanged file reports it unchanged and writes nothing |
| StorageScanner.FolderEntries | server/services/storageScanner.js:29-37 | a missing or unreadable folder contributes nothing; a listed one its entries in order |
| StorageScanner.FirstUnreadable | server/services/storageScanner.js:29-37 | the position of the first folder `fs.readdir` cannot read, every folder before it being readable, or the number of folders |
| StorageScanner.AddedUpdatedBounded | server/services/storageScanner.js:49-53 | added + updated ≤ the number of results |
| StorageScanner.ScanEntry | server/services/storageScanner.js:40-59 | one entry keeps the scan's report invariant |
| StorageScanner.ScanFile | server/services/storageScanner.js:45-54 | a regular file is counted, pushed and recorded |
| StorageScanner.ReportsAfterFile | server/services/storageScanner.js:45-54 | counting one processed file keeps the report invariant |
| StorageScanner.ScanAndSync | server/services/storageScanner.js:12-70 | fails iff some folder cannot be read, with the first such folder's error; every regular file of the folders before it is recorded, and every earlier path kept; on success scanned and the results are the regular files in folder order, added/updated count their statuses, added + updated ≤ scanned, errors count failed stats, and every result's path is recorded |
| AwsUploader.ContentTypeOf | server/services/awsUploader.js:155-172 | a non-default type iff the extension is one of the fourteen listed |
| AwsUploader.GetContentType | server/services/awsUploader.js:153-173 | a non-default type iff the lower-cased extension is listed, and then the listed type; properties in `ContentTypeIgnoresCase`, `ContentTypesExtendScanner` |
| AwsUploader.ContentTypeIgnoresCase | server/services/awsUploader.js:153-154 | the content type ignores the case of the extension |
| AwsUploader.ContentTypesExtendScanner | server/services/awsUploader.js:155-170 | every extension the storage scanner knows has the same type here |
| AwsUploader.ContentTypeAgreesWithScanner | server/services/awsUploader.js:76 | a file the scanner types is uploaded with that same content type |
| AwsUploader.S3Key | server/services/awsUploader.js:72-73 | the key starts with the folder (`uploads` by default) and '/', and what follows its last '/' is the base name of the path |
| AwsUploader.UploadFile | server/services/awsUploader.js:21-56 | missing file or S3 error fail with their message; success keeps the key; the content type is the given one, or the key's extension's when none is given |
| AwsUploader.UploadLocalFile | server/services/awsUploader.js:58-95 | missing file fails; on success the key is `S3Key` and the content type that of the file name's extension |
| AwsUploader.UploadedKeepsName | server/services/awsUploader.js:72-76 | the uploaded key's base name is the file's; its content type is the one `uploadFile` would derive from the key |
| AwsUploader.DetailFor | server/services/awsUploader.js:119-125 | the detail names the file and succeeds iff S3 accepts it |
| AwsUploader.FirstStatError | server/services/awsUploader.js:115-118 | none iff every entry can be stat'ed |
| AwsUploader.SucceededPlusFailed | server/services/awsUploader.js:129-130 | successful + failed = the number of details |
| AwsUploader.DetailsBounded | server/services/awsUploader.js:115-127 | at most one detail per directory entry |
| AwsUploader.AllSucceedWithoutS3Errors | server/services/awsUploader.js:115-130 | when S3 rejects nothing, all details are successful |
| AwsUploader.DetailForKey | server/services/awsUploader.js:121 | a folder's file is uploaded to `<s3Folder>/<file>` |
| AwsUploader.DetailKeys | server/services/awsUploader.js:115-127 | every uploaded detail sits at `<s3Folder>/<file>` |
| AwsUploader.SyncFolderToS3 | server/services/awsUploader.js:97-151 | a missing folder, an unreadable folder or a failing stat fails with its message; otherwise total is the entry count, details one per regular file in order, successful + failed = details ≤ total |
| LocalFileScanner.Extension | server/services/localFileScanner.js:117 | never contains '.', is no longer than the name, and is the whole lower-cased name when the name has no '.' |
| LocalFileScanner.ExtensionIsLastSegment | server/services/localFileScanner.js:117 | the extension is the lower-cased text after the name's last '.': a '.'-free suffix of the name, preceded by a '.' when the name has one |
| LocalFileScanner.GetMimeType | server/services/localFileScanner.js:116-137 | always `<fileType>/...`; the audio and video tables answer for their own file type; on a miss the result is `fileType + "/" + ext` |
| LocalFileScanner.MimeFor | server/services/localFileScanner.js:118-136 | the audio or video table on a hit; `fileType/ext` otherwise, also for any other file type |
| LocalFileScanner.MimeTypeNamesFileType | server/services/localFileScanner.js:118-136 | every answer starts with the file type and '/' |
| LocalFileScanner.MimeTypeIgnoresCase | server/services/localFileScanner.js:117 | the MIME type ignores the case of the name |
| LocalFileScanner.MimeForExamples | server/services/localFileScanner.js:118-136 | mkv video → video/x-matroska, m4a audio → audio/mp4, mkv audio → audio/mkv, png image → image/png |
| LocalFileScanner.RegisterFile | server/services/localFileScanner.js:61-114 | nothing iff the user already has a file of that name; otherwise one record appended with owner, type, MIME type, size, path and URL `/api/files/local/<type>/<name>` |
| LocalFileScanner.RegisterTwiceSkips | server/services/localFileScanner.js:63-71 | registering the same file again registers nothing |
| LocalFileScanner.RegisterKeepsUnique | server/services/localFileScanner.js:63-71 | no user gets two records of the same name |
| LocalFileScanner.StatFailedAt | server/services/localFileScanner.js:42-44 | the first entry whose stat throws, or the length |
| LocalFileScanner.RegisterAllAppends | server/services/localFileScanner.js:42-58 | the collection is the old one plus exactly the returned records, each the user's, of the folder's type, at its URL |
| LocalFileScanner.RegisterAllKeepsUnique | server/services/localFileScanner.js:42-58 | a scan keeps names unique per user |
| LocalFileScanner.ScanDirectory | server/services/localFileScanner.js:30-59 | the outcome is `DirectoryScan`: missing folder: nothing; unreadable folder: its error, nothing registered; otherwise the files before the first failing stat are registered in order, and the result is that stat's error or, when none fails, the new records |
| LocalFileScanner.DirectoryScan | server/services/localFileScanner.js:30-59 | an error iff the folder or some entry of it cannot be read; an unreadable folder's error changes nothing; the collection only grows; on success it grows by exactly the returned records, and every regular file of the folder is registered for the user |
| LocalFileScanner.RegisterAllCovers | server/services/localFileScanner.js:42-56 | every regular file a scan passes is registered for the user afterwards, whether new or already there |
| LocalFileScanner.ScanDirectoryAppends | server/services/localFileScanner.js:30-59 | a directory scan only appends records of its type and keeps names unique |
| LocalFileScanner.ScanAndRegisterFiles | server/services/localFileScanner.js:10-28 | the audio folder's `DirectoryScan`, then the video folder's on the resulting collection; the first error is the result; otherwise audio and video are the two scans' records and total = audio + video; fails iff either folder or some entry of it cannot be read; on success every regular file of both folders is registered for the user; the collection only grows and keeps names unique |
| Strings.AfterLast | server/scripts/syncS3Files.js:59 | the suffix after the last separator, free of it; the whole string when there is none |
| S3Sync.TypeOfExtension | server/scripts/syncS3Files.js:102-112 | audio, video or image iff the extension is in that list |
| S3Sync.DetermineFileType | server/scripts/syncS3Files.js:101-113 | audio, video or image iff the key's extension is in that list, other otherwise; properties in `FileTypeIgnoresCase`, `NoDotIsOther`, `LastDotDecides` |
| S3Sync.KeyExtension | server/scripts/syncS3Files.js:106 | from the key's last '.' (a '.' and no further '.'), or the whole lower-cased key when it has none |
| S3Sync.FileTypeIgnoresCase | server/scripts/syncS3Files.js:106 | the type ignores the case of the key |
| S3Sync.NoDotIsOther | server/scripts/syncS3Files.js:106-112 | a key without '.' is other |
| S3Sync.LastDotDecides | server/scripts/syncS3Files.js:106 | only the text after the key's last '.' decides, in any case |
| S3Sync.InnerDotIgnored | server/scripts/syncS3Files.js:106 | `a.mp3.txt` is other |
| S3Sync.LastExtensionDecides | server/scripts/syncS3Files.js:106 | `x.tar.mp3` is audio |
| S3Sync.FileName | server/scripts/syncS3Files.js:59 | the segment after the key's last '/', the whole key when it has none |
| S3Sync.UploadedNameSurvives | server/scripts/syncS3Files.js:59 | an object the uploader stored is registered under its local file's base name |
| S3Sync.RecordFor | server/scripts/syncS3Files.js:59-93 | path and name from the key, type from `determineFileType`, MIME type and size from the metadata or their defaults |
| S3Sync.RegisterKey | server/scripts/syncS3Files.js:41-99 | a registered key or a failed metadata request adds nothing; otherwise one record is appended |
| S3Sync.RegisterKeyKeepsUnique | server/scripts/syncS3Files.js:44-51 | registering never duplicates a path |
| S3Sync.RegisterKeyExtends | server/scripts/syncS3Files.js:93 | registering only appends |
| S3Sync.RegisterKeyRecords | server/scripts/syncS3Files.js:44-93 | a key with metadata is recorded afterwards |
| S3Sync.RegisterKeysExtends | server/scripts/syncS3Files.js:26-31 | a sync only appends |
| S3Sync.RegisterKeysUnique | server/scripts/syncS3Files.js:26-31 | a sync never duplicates a path |
| S3Sync.RegisterKeysCovers | server/scripts/syncS3Files.js:26-31 | every listed file key with metadata is recorded after a sync |
| S3Sync.SyncFolder | server/scripts/syncS3Files.js:15-39 | folder keys are skipped; the count is the number of non-folder keys, registered already or not; the collection is the registration of the keys in order |
| S3Sync.SyncTwiceAddsNothing | server/scripts/syncS3Files.js:26-31 | syncing the same listing again adds nothing |
| S3Sync.SkipsRegistered | server/scripts/syncS3Files.js:44-51 | keys already recorded, without metadata, or folders, add nothing |

## Left out

- The node communicator (server/utils/nodeComm.js) is not part of this model: HTTP calls, heartbeat and polling timers. It calls balancer methods that server/utils/loadBalancer.js does not define.
- Queue draining, balancer-side task completion, weighted scoring and re-queueing on unregister are not modelled. None of them exists in the balancer's code.
- Floating point is not modelled:
  - cpu and memory are integer percentages;
  - the load ratio `activeTasks/maxTasks` is compared by cross-multiplication, which is exact for the positive capacities of eligible nodes;
  - progress rounding is integer arithmetic.
- Balancer.LoadBalancer.UpdateNodeStats: a report carrying a negative activeTasks, completedTasks or failedTasks is not modelled, because the counters are naturals.
- Random metrics and processing times (`Math.random`) are parameters (`cpuNoise`, `memoryNoise`) or left out.
  - The simulated conversion in `processTask` is left out.
  - Its completion or failure is an explicit call.
- ConversionNode.WorkerNode.Execute: the metrics sample is applied together with the acceptance. In the code it runs before the first `await` inside `updateNodeStats`, so no other handler can run in between. The handler's internal-error reply (status 500) is not modelled.
- ConversionNode.WorkerNode.UpdateNodeStats: the POST to the main server is represented by the statistics it sends. Whether they arrive is not modelled: a failed POST is caught and only logged, so no state depends on it.
- ConversionNode.WorkerNode.Cancel: the cancelled status written just before the entry is deleted cannot be observed afterwards, so the model does not keep it.
- HTTP registration with the main server and its retry are not modelled. Only the outcome (`RecordRegistration`) is.
- `convertFile`, `getSignedUrl`, `testConnection` and `getLocalFileStream` are not modelled. They are wrappers over ffmpeg, S3 and streams.
- I/O is abstracted:
  - Firestore, S3 and the file system are sequences and maps passed in and returned.
  - A record's generated id is its position in the collection.
  - Timestamps are integer milliseconds; `new Date()` is the `now` parameter.
  - Metadata fields the services only write (permissions, scan and sync dates, bucket URL) are not kept.
- Object-literal lookups are modelled as finite tables. Prototype keys such as `constructor`, which a JavaScript object literal also answers, are not modelled.
- Case mapping covers ASCII only. Extensions and format keys are ASCII.
- `getSupportedFormats` and `getFormatsForFrontend`: only the `audio` and `video` arguments select a category.
- The storage root `path.join(__dirname, '../../storage')` is the constant "storage". The `fs.ensureDir` calls before the scan are not modelled; a folder's listing may still be missing, as the `pathExists` check allows.
- StorageScanner.ScanAndSync: the exact collection after a scan is not stated. The contract says every processed file's path is recorded and no earlier path is lost. Per file, `SyncRecord` states the exact write.
- StorageScanner.ScanAndSync: a failing database call inside `processFile` is not modelled. It would be counted as an error by the same `catch` as a failing stat. Only failing stats are.
- LocalFileScanner.ScanDirectory: a failing database call inside `registerFile` is not modelled. The loop's `catch` would skip that file.
- AwsUploader.SyncFolderToS3: a listed file is assumed to still exist when it is uploaded. A file deleted between `readdir` and the upload is not modelled.
- AwsUploader.UploadFile: the location and ETag S3 returns are not modelled.
- S3Sync.SyncFolder: a failing S3 listing is not modelled. It is rethrown.
