# Models of Maelstrom's stateful cores

A Dafny model of the parts of Maelstrom in which several operations must agree over a whole run, with proofs that they
do. The files follow the program: mutable objects are classes, their methods are proved against pure specifications,
and the specifications have their own laws.

| files | what they model |
|---|---|
| `Integers`, `ByteStreams`, `DirectoryRecords`, `DirectoryStorage` | the directory contents file: records, their bytes, the append-and-overwrite store |
| `KeyOrder`, `SortedItems`, `AvlTrees`, `AvlTree`, `AvlTreeWalker` | the AVL tree kept in that store, down to each rewritten node, and its in-order walker |
| `Directory`, `DirectoryRuns` | readers and writers of a directory file, and whole runs from writes to bytes to reads |
| `ContainerSpecs`, `ContainerForms`, `CollapsedJobSpecs`, `CollapsedJobs`, `ContainerChains`, `EnvironmentEvaluation`, `FinishedEnvironments`, `FinishedJobs` | containers as written, converted, collapsed along their chain of parents, and their environment; and what becomes of each field in the finished job |
| `JobPreparation`, `PreparerStates`, `LayerBuilds`, `Preparer`, `PreparerRuns` | the preparer that shares image fetches and layer builds among jobs, refined to preparing each job alone |
| `TtyEncoding`, `TtyDecoding` | the escape codec of terminal input and the worker's loop around it |
| `Parsers`, `ImageNames`, `ImageNameLaws`, `ImageNameForms` | image names: grammar with ordered choice and commitment, printer, exact round trip, and all of it character by character |
| `QueueFrames`, `GithubQueues` | the message queue over a shared append blob |
| `CargoArtifacts`, `RingBuffers`, `Routers` | the stream of test binaries, the ring buffer, the client's router |
| `Wrappers`, `Sequences` | shared datatypes and sequence facts |

Concurrency appears as interleaving. The preparer takes its messages in any order; the queue's reader is run against a
script of everything the writer, its keep-alive task and the service may do between two reads; the terminal's socket
cuts its stream anywhere. Outside calls are recorded in fields (`started`, `prepared`, `sent`), so that a contract can
say what was asked for and how often.

What the model assumes about the outside world is a precondition of the method that hears from it: an image or a layer
is reported once, after it was asked for, and always with the same result (`World`); a broker or a worker speaks only
of jobs it holds; every new job brings a handle of its own.

What a definition shared by a method and its specification means is stated once more without it, in the terms of the
source's own values: the order of names, the bytes of records and frames, the characters of image names, the fields of a
finished job, the forms that are accepted.

No proof relies on automatic induction over the parameters of a lemma: every induction is written out.

One result runs against a promise of the code. An image name without a host and with a tag such as
`99999` does not survive printing and parsing: the tag is first tried as a port, and the conversion to sixteen bits is
unwrapped. `ImageNameLaws.RoundTripExactly` gives the exact condition, `PanicsExactly` the exact strings.

## Model

| member | source | states |
|---|---|---|
| `DirectoryRuns.WriteThenRead` | crates/maelstrom-layer-fs/src/dir.rs:60-88 | Reading back the bytes of a run of inserts and opaque-flag updates gives exactly the directory those writes describe, wherever the writer was dropped and the file opened again between them: the ordered stream lists it once each in dictionary order of the names' bytes, the unordered stream lists it once each, and a look-up of any name finds what the writes left there; the run succeeds exactly when every record it adds can be encoded and fits the file |
| `DirectoryRuns.WriteDirectory` | crates/maelstrom-layer-fs/src/dir.rs:195-259 | Any run of writes, the file being opened again before any of them, succeeds exactly when every record it adds can be encoded and fits the file; the file then has the size of its records, and its bindings are the abstract map |
| `DirectoryRuns.WriteOne` | crates/maelstrom-layer-fs/src/dir.rs:215-259 | One write does to the stored directory what it does to the map of names and grows the file by exactly the record it adds; it fails exactly on a free name whose record cannot be encoded or no longer fits, and then changes no byte |
| `DirectoryRuns.RoomIsEnough` | crates/maelstrom-layer-fs/src/dir.rs:173-178 | Entries that can be encoded and that fit the file all together can be stored in any order, with any updates between them |
| `DirectoryRuns.StreamLists` | crates/maelstrom-layer-fs/src/dir.rs:69-79 | The unordered stream of any file with a consistent tree lists every binding of the directory exactly once |
| `DirectoryRuns.DistinctRecords` | crates/maelstrom-layer-fs/src/dir.rs:173-178 | No two records of a file ever carry the same name |
| `AvlTreeOperations.AvlTree.InsertIfNotExists` | crates/maelstrom-layer-fs/src/avl.rs:120-137 | Answers true exactly for an absent key; then the stored tree holds the old items plus the new one in key order, at a fresh pointer, the record is last in the file, and no existing key or value changes; a refused or failed insertion changes nothing; balance, stored heights, sharing and order are kept |
| `AvlTreeOperations.AvlTree.Get` | crates/maelstrom-layer-fs/src/avl.rs:140-150 | Finds exactly the value bound to the key in the directory as a map, and changes only the cursor |
| `AvlTreeOperations.AvlTree.UpdateIfExists` | crates/maelstrom-layer-fs/src/avl.rs:155-171 | Given a replacement of the same encoded size, succeeds exactly on a bound key, rebinds that key only and leaves every other node as it was |
| `AvlTreeOperations.AvlTree.BinarySearch` | crates/maelstrom-layer-fs/src/avl.rs:173-205 | Walks at most the height of the tree and ends at the node of the key or at the free side where the key belongs, with the exact path of pointers |
| `AvlTreeOperations.AvlTree.AddChild` | crates/maelstrom-layer-fs/src/avl.rs:207-233 | Linking a new leaf at the searched position and retracing gives the tree with that one item added, or changes nothing if the node cannot be stored |
| `AvlTreeOperations.AvlTree.DoRetracing` | crates/maelstrom-layer-fs/src/avl.rs:293-305 | Walking the path back restores exact heights and balance everywhere, keeps the items in order and the set of nodes, moves the root if the top was rotated, and touches only links and heights |
| `AvlTreeOperations.AvlTree.RetraceOne` | crates/maelstrom-layer-fs/src/avl.rs:265-275 | Brings one subtree back into balance and reports the replaced root exactly when the subtree was rotated |
| `AvlTreeOperations.AvlTree.ReplaceChild` | crates/maelstrom-layer-fs/src/avl.rs:277-291 | Points the parent at the rotated subtree root on whichever side the old root was, and changes nothing else |
| `AvlTreeOperations.AvlTree.DoRebalance` | crates/maelstrom-layer-fs/src/avl.rs:321-334 | For a node off balance by two, the one of four rotations that applies leaves the stored nodes holding the rebalanced tree |
| `AvlTreeOperations.AvlTree.DoLeftRotation` | crates/maelstrom-layer-fs/src/avl.rs:344-356 | The stored nodes hold the left-rotated tree with exact heights; only the rotated nodes are rewritten |
| `AvlTreeOperations.AvlTree.DoRightLeftRotation` | crates/maelstrom-layer-fs/src/avl.rs:358-371 | The stored nodes hold the right-left-rotated tree with exact heights; only the rotated nodes are rewritten |
| `AvlTreeOperations.AvlTree.DoRightRotation` | crates/maelstrom-layer-fs/src/avl.rs:373-385 | The stored nodes hold the right-rotated tree with exact heights; only the rotated nodes are rewritten |
| `AvlTreeOperations.AvlTree.DoLeftRightRotation` | crates/maelstrom-layer-fs/src/avl.rs:387-400 | The stored nodes hold the left-right-rotated tree with exact heights; only the rotated nodes are rewritten |
| `AvlTreeOperations.AvlTree.BalanceFactor` | crates/maelstrom-layer-fs/src/avl.rs:312-319 | The casts from u32 to i32 and their difference never wrap: the result is the true difference of heights |
| `AvlTreeOperations.AvlTree.UpdateHeight` | crates/maelstrom-layer-fs/src/avl.rs:255-263 | Gives a node one more than the greater height of its children, without overflowing |
| `AvlTreeOperations.InsertionOutcome` | crates/maelstrom-layer-fs/src/avl.rs:120-137 | The steps of an insertion together give the outcome promised for it |
| `AvlTreeOperations.FreeSideFits` | crates/maelstrom-layer-fs/src/avl.rs:173-205 | The free side at which a search for an absent key ends is the only place where the key keeps the order |
| `AvlTreeOperations.SetAt` | crates/maelstrom-layer-fs/src/avl.rs:155-171 | Overwriting the value of one node keeps the tree consistent and rebinds exactly that key |
| `AvlTrees.RetraceEntries` | crates/maelstrom-layer-fs/src/avl.rs:265-275 | Retracing, rotations included, never changes the sequence of items or the set of nodes of a subtree |
| `AvlTrees.RetraceBalances` | crates/maelstrom-layer-fs/src/avl.rs:265-275 | Retracing a subtree that an insertion left at most two out of balance gives an AVL tree at most one higher than before |
| `AvlTrees.MinimalSize` | crates/maelstrom-layer-fs/src/avl.rs:428-447 | An AVL tree of height h has at least fib(h+2)-1 nodes |
| `AvlTrees.HeightBound` | crates/maelstrom-layer-fs/src/avl.rs:312-342 | With fewer than 2^64 nodes the height is at most 91, so no height cast can wrap and a search visits at most 91 nodes |
| `SortedItems.InsertItemSorted` | crates/maelstrom-layer-fs/src/avl.rs:120-137 | Inserting an absent key in key order keeps the keys strictly increasing |
| `SortedItems.FindAfterInsert` | crates/maelstrom-layer-fs/src/avl.rs:120-150 | After an insertion the new key finds its value and every other key what it found before |
| `SortedItems.FindAfterSet` | crates/maelstrom-layer-fs/src/avl.rs:140-171 | After an update the key finds its new value and every other key what it found before |
| `AvlTreeIteration.AvlTreeWalker.Next` | crates/maelstrom-layer-fs/src/avl.rs:530-548 | Yields the first of the entries still to come, in key order, and none exactly when there are none left; it terminates because every step shrinks the stack or the unvisited nodes |
| `AvlTreeIteration.AvlTreeWalker.Advance` | crates/maelstrom-layer-fs/src/avl.rs:509-528 | One step of the traversal leaves the sequence of entries still to come unchanged and makes progress |
| `AvlTreeIteration.ReadOrdered` | crates/maelstrom-layer-fs/src/avl.rs:246-253 | The in-order stream read to its end is every entry exactly once, in dictionary order of the names' bytes |
| `KeyOrder.LtIsDictionaryOrder` | crates/maelstrom-layer-fs/src/avl.rs:184-201 | One name comes before another exactly if it is a proper beginning of it or has the smaller byte where the two first differ |
| `DirectoryStorage.DirectoryEntryStorage.Insert` | crates/maelstrom-layer-fs/src/dir.rs:173-178 | Appends the record at the end of the file and returns its offset, a pointer no node had; fails exactly if the record cannot be encoded or the file would outgrow its limit, and then keeps every node |
| `DirectoryStorage.DirectoryEntryStorage.LookUp` | crates/maelstrom-layer-fs/src/dir.rs:132-138 | Returns the node last written at the pointer, whatever was written elsewhere since |
| `DirectoryStorage.DirectoryEntryStorage.Update` | crates/maelstrom-layer-fs/src/dir.rs:140-171 | A same-size overwrite replaces the node at its pointer and leaves the header and every other record, byte for byte |
| `DirectoryStorage.DirectoryEntryStorage.SetRoot` | crates/maelstrom-layer-fs/src/dir.rs:122-130 | Changes the root recorded in the header and no node |
| `DirectoryStorage.DirectoryEntryStorage.Root` | crates/maelstrom-layer-fs/src/dir.rs:115-120 | Returns the root last set |
| `DirectoryStorage.DecodeAt` | crates/maelstrom-layer-fs/src/dir.rs:132-138 | Decoding at the offset of a record gives that record and ends exactly at the next one |
| `DirectoryStorage.OverwriteRecord` | crates/maelstrom-layer-fs/src/dir.rs:140-171 | Overwriting a record by one of the same length in place is the same as encoding the changed list of records |
| `DirectoryStorage.AppendRecord` | crates/maelstrom-layer-fs/src/dir.rs:173-178 | Writing a record at the end is the same as encoding the longer list, and its offset is a new pointer |
| `DirectoryStorage.OffsetsAreNodes` | crates/maelstrom-layer-fs/src/dir.rs:132-178 | The pointers of the store are exactly the offsets of the records, each holding its record |
| `DirectoryStorage.NodeMapUpdate` | crates/maelstrom-layer-fs/src/dir.rs:140-171 | Replacing one record changes the pointer store at its own pointer only |
| `DirectoryRecords.DecodeRecordInverts` | crates/maelstrom-layer-fs/src/ty.rs:234-272 | Decoding undoes encoding for every node, whatever bytes follow, and leaves those bytes unread |
| `DirectoryRecords.DecodeHeaderInverts` | crates/maelstrom-layer-fs/src/dir.rs:92-120 | The root read from a header is the root it was written with |
| `DirectoryRecords.ReadPtrInverts` | crates/maelstrom-layer-fs/src/avl.rs:23-38 | The flattened optional pointer keeps its size and value: zero for none, the non-zero pointer otherwise |
| `DirectoryRecords.RecordLayout` | crates/maelstrom-layer-fs/src/avl.rs:39-53 | In a record the sizes, the name, the data with its tag and the numbered file kinds, the height and the two links stand at fixed places, numbers most significant byte first, zero for no link |
| `DirectoryRecords.HeaderLayout` | crates/maelstrom-layer-fs/src/dir.rs:91-130 | A header is its own size, version zero and the root, twenty bytes in all |
| `Directories.DirectoryDataReader.NextEntry` | crates/maelstrom-layer-fs/src/dir.rs:60-67 | With the cursor before a record: that record, and the offset just past it, or nothing exactly at the end of the file |
| `Directories.DirectoryDataReader.ReadFrom` | crates/maelstrom-layer-fs/src/dir.rs:69-79 | The stream from any yielded offset gives exactly the entries after it, in insertion order, each with the offset to resume after it |
| `Directories.Resume` | crates/maelstrom-layer-fs/src/dir.rs:69-79 | Resuming at the offset yielded with an entry continues exactly after that entry: nothing is repeated or skipped |
| `Directories.OffsetsIncrease` | crates/maelstrom-layer-fs/src/dir.rs:60-79 | Offsets of successive records strictly increase, so each names one position |
| `Directories.StreamsAgree` | crates/maelstrom-layer-fs/src/dir.rs:69-88 | The unordered and the ordered stream list the same entries, equally many |
| `Directories.DirectoryDataReader.ReadInOrder` | crates/maelstrom-layer-fs/src/dir.rs:81-88 | The ordered stream lists the directory in dictionary order of the names' bytes |
| `Directories.DirectoryDataReader.LookUp` | crates/maelstrom-layer-fs/src/dir.rs:48-53 | Finds the file id of a file entry; a missing name and a whiteout have none |
| `Directories.DirectoryDataReader.LookUpEntry` | crates/maelstrom-layer-fs/src/dir.rs:55-58 | Finds exactly the entry bound to the name |
| `Directories.DirectoryDataWriter.InsertEntry` | crates/maelstrom-layer-fs/src/dir.rs:251-259 | Adds the entry exactly if the name is free; a failed insertion leaves the entries and the bytes of the file as they were |
| `Directories.DirectoryDataWriter.SetOpaqueDir` | crates/maelstrom-layer-fs/src/dir.rs:215-232 | Sets the flag of an existing directory and of nothing else; a missing name, a whiteout and a non-directory are told apart and change nothing |
| `CollapsedJobSpecs.New` | crates/maelstrom-client-process/src/collapsed_job_spec.rs:184-333 | The single walk under a shrinking mask computes, for all inputs, the field-by-field meaning: each scalar from the nearest container along the prefix of references that all select it, each list with the furthest ancestor first, the image from whichever fields still want one, and the error of the first failing reference |
| `CollapsedJobSpecs.StepSoFar` | crates/maelstrom-client-process/src/collapsed_job_spec.rs:236-311 | One turn of the loop keeps, for every field, the inherited rest followed by what was gathered equal to the whole |
| `CollapsedJobSpecs.FinishSoFar` | crates/maelstrom-client-process/src/collapsed_job_spec.rs:211-333 | Where the walk ends, what was gathered is the collapsed specification |
| `ContainerChains.CollapseFails` | crates/maelstrom-client-process/src/collapsed_job_spec.rs:236-254 | Collapsing succeeds exactly when, for every field the job leaves open, the walk for that field alone ends; it reports a loop exactly when some such walk never ends, and a missing container exactly when some such walk comes to that name |
| `ContainerChains.RevisitNeverEnds` | crates/maelstrom-client-process/src/collapsed_job_spec.rs:244-254 | A walk that asks the same container twice for a field goes round for ever |
| `ContainerChains.LoopIsRevisit` | crates/maelstrom-client-process/src/collapsed_job_spec.rs:244-254 | A loop is only reported when some field still wanted asks a container it has already asked |
| `ContainerChains.DoneEnds` | crates/maelstrom-client-process/src/collapsed_job_spec.rs:184-333 | When no error is reported the walk of every field still wanted ends, at no missing container |
| `JobPreparation.CollapsedIsReady` | crates/maelstrom-client-process/src/collapsed_job_spec.rs:343-361 | A collapsed specification satisfies what integration asserts: if its image use selects the working directory none is set, and its image layers and initial environment are empty |
| `JobPreparation.NoScalarBelowImage` | crates/maelstrom-client-process/src/collapsed_job_spec.rs:354-357 | If the walk for the working directory ends at an image, no container on the way sets it |
| `CollapsedJobs.CollapsedJob.IntegrateImage` | crates/maelstrom-client-process/src/collapsed_job_spec.rs:343-361 | Going through the uses one by one fills exactly the selected fields from the image, each of them empty beforehand: one tar layer for each layer path, in order; each variable bound to what follows the first equals sign in the last assignment of it; the image's working directory. It fails exactly on a layer path that is not UTF-8 or a variable without equals sign among what is selected; the image is gone afterwards in any case |
| `JobPreparation.IntegrateMeans` | crates/maelstrom-client-base/src/spec.rs:1340-1379 | When integrating an image fails and with which error, and what each field of the job is afterwards |
| `ContainerSpecs.TarLayersAre` | crates/maelstrom-client-base/src/spec.rs:1340-1351 | An image's layer paths become tar layers one for one and in order; one path that is not UTF-8 fails them all |
| `ContainerSpecs.VariablesAre` | crates/maelstrom-client-base/src/spec.rs:1353-1371 | A variable's name goes up to its first equals sign; of several assignments of a name the last counts; one without equals sign fails them all |
| `CollapsedJobs.CollapsedJob.TakeEnvironment` | crates/maelstrom-client-process/src/collapsed_job_spec.rs:375-380 | Gives up both parts of the environment and nothing else |
| `CollapsedJobs.IntoSpec` | crates/maelstrom-client-process/src/preparer.rs:361-389 | A ready job finishes as evaluating its environment, checking and assembling would have it, with the environment taken out first; each field of the result is the collapsed specification's, with its default where it is not set |
| `JobPreparation.ResolveAll` | crates/maelstrom-client-process/src/preparer.rs:258-289 | A list of layers resolves to exactly the artifacts of its layers, in order, when all can be built |
| `JobPreparation.ResolveFails` | crates/maelstrom-client-process/src/preparer.rs:258-289 | One layer that cannot be built is enough for the list not to resolve |
| `JobPreparation.FailsExactly` | crates/maelstrom-client-process/src/preparer.rs:128-351 | A request fails exactly if something can go wrong with it: it does not collapse, a layer or its image or a layer of its image cannot be had, or it cannot be completed; the error of the sequential preparation is one of these |
| `FinishedJobs.FinishedFields` | crates/maelstrom-client-process/src/collapsed_job_spec.rs:402-460 | In a finished job options, mounts, network, user, group and root overlay are each what that one field inherits along the chain of containers, with the default network, user 0, group 0 and no overlay where nothing is set |
| `FinishedJobs.FinishedDirectory` | crates/maelstrom-client-process/src/collapsed_job_spec.rs:354-357 | The working directory of a finished job is the image's where that is selected, and otherwise the containers', with the root directory where there is none |
| `FinishedJobs.FinishedLayers` | crates/maelstrom-client-process/src/preparer.rs:361-389 | The artifacts of a finished job are those of its image's layers, one for one and in order, and then those of its own layers |
| `FinishedJobs.FinishesExactly` | crates/maelstrom-client-process/src/collapsed_job_spec.rs:382-400 | A job is finished exactly if its chain, its image, its layers and its environment can be had, it does not mount sys on the local network, and it has at least one layer; the last two have errors of their own, in that order |
| `PreparerRuns.Run` | crates/maelstrom-client-process/src/preparer.rs:64-334 | From the start, after any events in any order: the accepted requests are exactly those made, each with the containers known at the time; every request is either waiting or was answered exactly once, with the specification that preparing it alone and in sequence gives or with one of its own errors; with nothing outstanding none is waiting; in the trace every report that was due is recorded and no other, no image and no layer is asked for twice in the whole run, nothing known is forgotten, and queued builds start first come first served as others end; no panic or failed unwrap is reached |
| `PreparerRuns.Continue` | crates/maelstrom-client-process/src/preparer.rs:64-334 | From any reachable state, for any script of messages and of reports in whatever order: the same accounting and the same trace of requests, results and answers, and if the script leaves nothing outstanding every accepted request has been answered |
| `PreparerRuns.AnswerAll` | crates/maelstrom-client-process/src/preparer.rs:200-334 | Whatever has happened, reporting what is outstanding comes to an end with every accepted request answered exactly once and no job left waiting; no result and no answer is lost on the way |
| `PreparerRuns.SomeBuildInFlight` | crates/maelstrom-client-process/src/preparer.rs:64-96 | While some layer has no result, some build is in flight: the queue never stalls |
| `Preparers.Preparer.ReceivePrepareJob` | crates/maelstrom-client-process/src/preparer.rs:128-188 | Accepts the request and keeps every invariant, whether it is refused, answered at once or left waiting; asks for nothing if it does not collapse, and otherwise only for its own layers, its image and the layers of that image if it is already there; everything known stays known, and requests made are only added to |
| `Preparers.Preparer.ReceiveAddContainer` | crates/maelstrom-client-process/src/preparer.rs:190-198 | Rebinds the name, answers with the container it displaced, and disturbs no job |
| `Preparers.Preparer.ReceiveGotImage` | crates/maelstrom-client-process/src/preparer.rs:200-221 | Records the result and hands it to every job waiting for the image, answering those that fail or become ready; waiters of jobs already gone are left alone; only layers that the image brings are newly asked for, behind all earlier ones |
| `Preparers.Preparer.ReceiveGotLayer` | crates/maelstrom-client-process/src/preparer.rs:291-334 | Records the result, starts the longest-waiting build and no other, fills the slot of every waiter of the layer, and answers the jobs that fail or become ready |
| `Preparers.Preparer.EvaluateLayers` | crates/maelstrom-client-process/src/preparer.rs:258-289 | Each layer fills its slot at once if its artifact is known, and otherwise registers exactly one waiter for that slot; the layers not yet in the table are asked for once each, in order, up to one known to have failed, whose error is the result |
| `Preparers.Preparer.GotImageSuccess` | crates/maelstrom-client-process/src/preparer.rs:223-256 | Integrating an image into a waiting job keeps the record tied to the sequential preparation, and serves that job only |
| `Preparers.Preparer.StartJob` | crates/maelstrom-client-process/src/preparer.rs:336-339 | A ready job is answered as the sequential preparation of its request |
| `Preparers.Preparer.JobError` | crates/maelstrom-client-process/src/preparer.rs:341-351 | Answers a live job with this failure once; a job that is gone is not answered again |
| `Preparers.Preparer.QuietMeansAnswered` | crates/maelstrom-client-process/src/preparer.rs:128-334 | With nothing outstanding there are no waiting jobs, and every accepted request has been answered |
| `Preparers.Preparer.BuildAccounting` | crates/maelstrom-client-process/src/preparer.rs:64-96 | In every reachable state builds issued less results received are the builds in flight, at most the limit; builds wait only at the limit; layers without a result are those in flight plus the queue; the requests recorded name no layer and no image twice |
| `PreparerRuns.NothingForgotten` | crates/maelstrom-client-process/src/preparer.rs:128-334 | Between any two moments of a run: results stay as they are, requests made and answers given are only added to, and builds keep their order |
| `PreparerRuns.LaterRequestsAreNew` | crates/maelstrom-client-process/src/preparer.rs:64-96 | What is asked for, or started, after some moment of a run was not asked for, or started, before it |
| `PreparerRuns.FirstAskedFirstStarted` | crates/maelstrom-client-process/src/preparer.rs:64-96 | Builds start in the order in which they were asked for, at whatever moments of a run asking and starting are |
| `Preparers.OrderDoesNotMatter` | crates/maelstrom-client-process/src/preparer.rs:200-334 | Two preparers that hear of the same results in different orders answer the same request alike: both with the same specification or both with an error, and with the same error if the request has only one |
| `LayerBuilding.LayerBuilds.Push` | crates/maelstrom-client-process/src/preparer.rs:79-86 | A new build starts at once below the limit and otherwise joins the end of the queue |
| `LayerBuilding.LayerBuilds.Pop` | crates/maelstrom-client-process/src/preparer.rs:88-96 | A finished build lets the longest-waiting one start, or frees a place; builds start in the order of asking and the counter never underflows |
| `LayerBuilding.GettingCount` | crates/maelstrom-client-process/src/preparer.rs:64-96 | The layers without a result are counted by the builds in flight and the queue |
| `PreparerStates.ReadyAgrees` | crates/maelstrom-client-process/src/preparer.rs:353-396 | A job whose slots are all filled completes to exactly what the sequential preparation of its request gives, image layers before its own |
| `PreparerStates.LayerFailure` | crates/maelstrom-client-process/src/preparer.rs:291-334 | If a layer that a job waits for cannot be built, that is an error its request can fail with |
| `PreparerStates.ImageFailure` | crates/maelstrom-client-process/src/preparer.rs:200-221 | If the image a job waits for cannot be had or used, that is an error its request can fail with |
| `PreparerStates.FillSlot` | crates/maelstrom-client-process/src/preparer.rs:304-331 | Serving one waiter fills exactly the slot it names and keeps every other job and waiter |
| `PreparerStates.IntegratedJobFacts` | crates/maelstrom-client-process/src/preparer.rs:229-256 | After integration the job is what the sequential preparation makes of its image |
| `ContainerForms.TryFrom` | crates/maelstrom-client-base/src/spec.rs:451-740 | Accepts exactly the forms in which every field obeys one rule: given or added to but not both, added to only if the reference as written supplies it, given only if the reference does not name it, and not both image and parent; and converts to the reference without the given fields, and to everything given or added; a reference that names no uses means all of them, and a table of variables extends |
| `ContainerForms.AcceptedMeans` | crates/maelstrom-client-base/src/spec.rs:451-740 | The rule, written out for each field of a form |
| `ContainerForms.WrittenReference` | crates/maelstrom-client-base/src/spec.rs:97-110 | The reference as written, a left-out use meaning everything, and that reference without the fields that the form gives |
| `ContainerForms.CheckList` | crates/maelstrom-client-base/src/spec.rs:475-595 | The checks on layers and environment decide exactly that rule |
| `ContainerForms.CheckMounts` | crates/maelstrom-client-base/src/spec.rs:641-678 | The checks on mounts decide exactly that rule |
| `ContainerForms.CheckWorkingDirectory` | crates/maelstrom-client-base/src/spec.rs:597-622 | The checks on the working directory decide exactly that rule, for image and parent |
| `ContainerForms.RemovedIsGiven` | crates/maelstrom-client-base/src/spec.rs:719-730 | Dropping from the reference what the conversion collects is dropping every given field |
| `ContainerForms.WrittenMeaning` | crates/maelstrom-client-base/src/spec.rs:451-740 | From the written form to the collapsed specification, for any ancestor chain: given lists and scalars replace everything inherited, added lists come after the inherited ones, and fields neither given nor added are inherited as the written reference selects them |
| `ContainerForms.ImageMeaning` | crates/maelstrom-client-base/src/spec.rs:1252-1268 | Of an image parent exactly the selected fields that the form does not give itself are fetched |
| `EnvironmentEvaluation.EnvironmentEval` | crates/maelstrom-client-base/src/spec.rs:326-362 | The loop over the specifications computes their successive evaluation, failing exactly when some substitution fails, and gives one string for each variable in the order of the names |
| `EnvironmentEvaluation.FailsSomewhere` | crates/maelstrom-client-base/src/spec.rs:331-357 | Evaluation fails exactly if some value cannot be evaluated over the environment there is when its turn comes |
| `EnvironmentEvaluation.RenderLists` | crates/maelstrom-client-base/src/spec.rs:358-361 | The finished strings are name, equals sign and value for each variable, once each, in dictionary order of the names |
| `EnvironmentEvaluation.EvaluateAdded` | crates/maelstrom-client-base/src/spec.rs:344-357 | Evaluating inherited specifications followed by added ones is evaluating the added ones over the inherited result |
| `EnvironmentEvaluation.EvaluatedNames` | crates/maelstrom-client-base/src/spec.rs:344-357 | The variables set in the end are those named since the last specification that does not extend |
| `EnvironmentEvaluation.ValueComesFrom` | crates/maelstrom-client-base/src/spec.rs:331-357 | A value comes from the last specification naming the variable, evaluated over the environment just before it, or untouched from the initial environment |
| `EnvironmentEvaluation.InOrderIsSorted` | crates/maelstrom-client-base/src/spec.rs:358-361 | The finished strings come in strictly increasing order of the names, one for each variable that is set |
| `FinishedEnvironments.FinishedEnvironment` | crates/maelstrom-client-process/src/preparer.rs:372-375 | The environment strings of a finished job are the collapsed specifications evaluated over the initial environment, which is the image's if the image supplies one |
| `FinishedEnvironments.WrittenEnvironment` | crates/maelstrom-client-base/src/spec.rs:451-740 | In a finished job a written environment is evaluated over the initial one alone, and an added environment over what the inherited one evaluates to |
| `TtyEncoding.CutAnywhere` | crates/maelstrom-base/src/tty.rs:72-113 | A byte stream means the same wherever it is cut, as long as the bytes left over, at most five, are carried over |
| `TtyEncoding.InputMeans` | crates/maelstrom-base/src/tty.rs:4-18 | Any input, encoded, decodes to exactly the bytes typed, whatever follows it |
| `TtyEncoding.ResizeMeans` | crates/maelstrom-base/src/tty.rs:20-24 | Any window size, encoded, decodes to that size, whatever follows it |
| `TtyEncoding.ItemsMean` | crates/maelstrom-base/src/tty.rs:72-113 | A byte other than the escape is input; a doubled escape is one; an escape before anything but itself and zero is input like what follows it; an escape, zero and two 16-bit numbers, most significant byte first, are a window size |
| `TtyEncoding.BeginningsWait` | crates/maelstrom-base/src/tty.rs:84-104 | An unfinished item at the end means nothing yet and is kept whole |
| `TtyEncoding.SessionRoundTrip` | crates/maelstrom-base/src/tty.rs:4-118 | Every sequence of inputs and window sizes survives encoding and decoding with nothing left over |
| `TtyEncoding.SplitJoins` | crates/maelstrom-base/src/tty.rs:5-6 | Splitting at escapes loses nothing |
| `TtyEncoding.PiecesSent` | crates/maelstrom-base/src/tty.rs:8-17 | Every piece sent is a doubled escape or a non-empty run without escapes |
| `TtyDecoding.DecodeInputIterator.Next` | crates/maelstrom-base/src/tty.rs:74-113 | Yields the next chunk: a maximal run up to the next escape, an escaped item, or the unfinished rest, which always fits the five-byte remainder; ends exactly when the slice is empty |
| `TtyDecoding.DecodeInputRemainder.constructor` | crates/maelstrom-base/src/tty.rs:38-45 | Holds the bytes it is given, which must be at most five |
| `TtyDecoding.DecodeInputRemainder.MoveToSlice` | crates/maelstrom-base/src/tty.rs:47-52 | Copies the bytes to the front of the buffer, changes nothing behind them, and leaves the remainder empty |
| `TtyDecoding.Proxy` | crates/maelstrom-worker/src/executor.rs:1527-1555 | However the socket cuts the stream into reads, the terminal is asked to do the events of what was read, in order; the loop ends early only at a failing read or write, with a prefix of those events done; failing to set a size changes nothing |
| `TtyDecoding.Replay` | crates/maelstrom-worker/src/executor.rs:1527-1555 | On a working socket and terminal, a session encoded by the client is replayed event by event under any chunking |
| `ImageNameLaws.RoundTripExactly` | crates/maelstrom-container/src/image_name.rs:660-687 | Printing a name and parsing it gives the name back if and only if it is well formed: host with a dot, a port or localhost; path not starting with localhost; non-empty parts of their own alphabets; and without a host, a tag whose leading digits fit sixteen bits |
| `ImageNameLaws.ParsedIsWellFormed` | crates/maelstrom-container/src/image_name.rs:670-687 | Whatever the parser accepts is well formed |
| `ImageNameLaws.ParsedIsStable` | crates/maelstrom-container/src/image_name.rs:660-687 | Parsing, printing and parsing again changes nothing |
| `ImageNameLaws.PanicsExactly` | crates/maelstrom-container/src/image_name.rs:31-33 | The parser panics on exactly the strings that go on, after docker:// and a hostname, with a colon and a number of up to five digits above 65535 |
| `ImageNameLaws.LargeTagPanics` | crates/maelstrom-container/src/image_name.rs:31-33 | The round trip is false of a plain name with tag 99999: parsing its printed form panics |
| `ImageNameLaws.ReferenceReadBack` | crates/maelstrom-container/src/image_name.rs:212-256 | Every reference of the right shape is read back whole, except for a hostless one with too large a leading number in its tag, which panics |
| `ImageNameLaws.HostReadBack` | crates/maelstrom-container/src/image_name.rs:53-112 | Every well-formed host is read back, for both alternatives of the ordered choice |
| `ImageNameLaws.OtherIsNotDockerIo` | crates/maelstrom-container/src/image_name.rs:87-112 | A hostname with a dot or a port, or localhost, is never taken for a docker.io path |
| `ImageNameLaws.ComponentsOfPath` | crates/maelstrom-container/src/image_name.rs:90-110 | A well-formed path is read back component by component, up to the name |
| `ImageNameLaws.LocalPathReadBack` | crates/maelstrom-container/src/image_name.rs:594-615 | A non-empty local path without a colon and an optional non-empty reference are read back |
| `ImageNameLaws.ByScheme` | crates/maelstrom-container/src/image_name.rs:670-687 | The scheme a name starts with alone decides how the rest is read |
| `Parsers.DecimalRoundTrip` | crates/maelstrom-container/src/image_name.rs:31-33 | A printed port number is read as the same number |
| `ImageNameForms.ProperNamesSurvive` | crates/maelstrom-container/src/image_name.rs:660-687 | Printing and then parsing gives a name back exactly if it is proper, said character by character: which characters each part may have, no empty components, hosts that cannot be taken for paths, and no hostless tag that begins with a five-digit number above 65535 |
| `ImageNameForms.ParsedIsProper` | crates/maelstrom-container/src/image_name.rs:670-687 | Whatever is parsed is a proper name |
| `ImageNameForms.NameIsRead` | crates/maelstrom-container/src/image_name.rs:212-256 | A scheme, a name and perhaps an at-sign and a digest are read as just that |
| `ImageNameForms.TaggedNameIsRead` | crates/maelstrom-container/src/image_name.rs:212-256 | So is a name with a colon and a tag, as in docker://ubuntu:22.04, with or without a digest |
| `ImageNameForms.NameInPathIsRead` | crates/maelstrom-container/src/image_name.rs:87-112 | A name below a path is read with that path of docker.io, and then with any tag |
| `ImageNameForms.NameAtPortIsRead` | crates/maelstrom-container/src/image_name.rs:31-33 | A host with a port, a path and a name are read as these |
| `ImageNameForms.NameAtHostIsRead` | crates/maelstrom-container/src/image_name.rs:87-112 | A host with a dot, or localhost, is read as a host |
| `ImageNameForms.LocalImageIsRead` | crates/maelstrom-container/src/image_name.rs:594-615 | A local image is read as its path up to the first colon and its reference after it |
| `ImageNameForms.PanicsSpelledOut` | crates/maelstrom-container/src/image_name.rs:31-33 | The strings that make the parser panic, character by character |
| `GithubQueues.Converse` | crates/maelstrom-github/src/queue.rs:156-209 | For every script of writes, keep-alives, shutdowns, failures and re-authentications between the reads: the messages delivered are the first messages that the script sends, in order; if there are fewer than asked for, the script is over, the reader lost patience or the service failed, and everything sent up to the last turn in which the service answered has been delivered |
| `GithubQueues.Connection.Perform` | crates/maelstrom-github/src/queue.rs:212-284 | Each step of the writing side gets through exactly its own messages, or nothing while its writes fail |
| `GithubQueues.Connection.Pass` | crates/maelstrom-github/src/queue.rs:180-206 | A turn performs exactly its steps before the read is answered |
| `GithubQueues.NothingLost` | crates/maelstrom-github/src/queue.rs:156-209 | Delivered, pending and unread messages together are the messages of the log: none lost, doubled or reordered |
| `GithubQueues.GithubReadQueue.ReadMsg` | crates/maelstrom-github/src/queue.rs:174-209 | Delivers the next message in order; fails only with the service or by timeout, losing nothing that is pending or was delivered, and on a timeout has read everything unless the last read was refused; a pending message is delivered without reading |
| `GithubQueues.GithubReadQueue.MaybeReadMsg` | crates/maelstrom-github/src/queue.rs:156-172 | Reads exactly the frames appended since the last read, keeping the index between two frames; nothing comes back only if nothing is new or the read was refused; an error of the read or of connecting again changes neither index nor etag |
| `GithubQueues.GithubReadQueue.Absorb` | crates/maelstrom-github/src/queue.rs:182-197 | Files exactly the messages of the frames in a buffer, no keep-alive among them, and fails exactly where the buffer stops being frames |
| `GithubQueues.GithubReadQueue.Poll` | crates/maelstrom-github/src/queue.rs:180-206 | One read, with the other side acting before it, keeps the reader on a frame boundary and files what is new; it gives up exactly if the read was late and there was no keep-alive among the new frames; an error of the service changes nothing, and otherwise time passes or something is read |
| `GithubQueues.GithubWriteQueue.WriteMsg` | crates/maelstrom-github/src/queue.rs:242-253 | Appends one whole payload frame and restarts the one keep-alive task, or appends nothing and leaves the task alone |
| `GithubQueues.GithubWriteQueue.WriteManyMsgs` | crates/maelstrom-github/src/queue.rs:255-270 | Appends all the frames in one write, or nothing |
| `GithubQueues.GithubWriteQueue.ShutDown` | crates/maelstrom-github/src/queue.rs:272-278 | Stops the keep-alive task and then appends the shutdown frame |
| `GithubQueues.GithubWriteQueue.SendKeepAlive` | crates/maelstrom-github/src/queue.rs:212-219 | A keep-alive adds a frame that is no message; a failing one is ignored |
| `QueueFrames.ReadsCleanly` | crates/maelstrom-github/src/queue.rs:183-196 | A buffer is read to its end exactly when it is a sequence of whole frames |
| `QueueFrames.FramesReadBack` | crates/maelstrom-github/src/queue.rs:183-196 | Whole frames are read back as written, whatever follows |
| `QueueFrames.FrameBytes` | crates/maelstrom-github/src/queue.rs:113-118 | The bytes of each frame: a four-byte tag, and for a payload its size in eight bytes, least significant first, and then the data |
| `CargoArtifacts.Drain` | crates/cargo-maelstrom/src/cargo.rs:184-203 | Over a whole build, whatever errors occur on the way, a test is yielded exactly as often as the build reports it: anything but a macro crate, of one of the packages, that is an integration test or an executable built for testing; and nothing else is yielded |
| `CargoArtifacts.AcceptedExactly` | crates/cargo-maelstrom/src/cargo.rs:122-149 | Which artifacts are tests, and how often each is accepted |
| `CargoArtifacts.WaitForOneMore` | crates/cargo-maelstrom/src/cargo.rs:122-149 | At any time the binaries a package waits for are those it has, less those reported as built |
| `CargoArtifacts.TestArtifactStream.Next` | crates/cargo-maelstrom/src/cargo.rs:187-202 | An integration test is yielded only when every binary of its package was reported as built, or the build is over; the stream ends exactly when every accepted test was yielded |
| `CargoArtifacts.TestArtifactStream.ReceiveBuiltArtifact` | crates/cargo-maelstrom/src/cargo.rs:122-149 | Fails exactly on a plain binary of a known package that was not waited for; strikes off a binary that was; keeps every accepted test in exactly one place |
| `CargoArtifacts.TestArtifactStream.BuildCompleted` | crates/cargo-maelstrom/src/cargo.rs:151-167 | Lets everything held back through; a package holding tests back still waits for a binary, so the assertion holds |
| `CargoArtifacts.TestArtifactStream.ReadNextArtifact` | crates/cargo-maelstrom/src/cargo.rs:169-181 | Takes one message of the build, or its end, and keeps the accounting |
| `RingBuffers.ReadAll` | crates/maelstrom-base/src/ring_buffer.rs:63-211 | For any capacity and any pushes, reading by index and giving the elements away both yield the last elements pushed, oldest first |
| `RingBuffers.RingBuffer.Push` | crates/maelstrom-base/src/ring_buffer.rs:74-83 | The buffer holds the last elements pushed; a full buffer overwrites exactly the oldest, an initialised slot |
| `RingBuffers.RingBuffer.Get` | crates/maelstrom-base/src/ring_buffer.rs:97-109 | The i-th oldest element, or none past the end; the index arithmetic stays in range and the slot read is initialised |
| `RingBuffers.RingBuffer.Drop` | crates/maelstrom-base/src/ring_buffer.rs:38-47 | Visits each live slot exactly once, oldest first, and no other |
| `RingBuffers.RingBuffer.IntoIter` | crates/maelstrom-base/src/ring_buffer.rs:150-175 | Moves out exactly the elements, oldest first, and leaves the buffer empty |
| `RingBuffers.IntoIter.Next` | crates/maelstrom-base/src/ring_buffer.rs:199-211 | Moves out the next element, or ends exactly when none remain |
| `RingBuffers.IntoIter.Len` | crates/maelstrom-base/src/ring_buffer.rs:219-223 | The number of elements still to come |
| `RingBuffers.IntoIter.Drop` | crates/maelstrom-base/src/ring_buffer.rs:185-194 | After any number of elements were taken, drops each of the rest exactly once |
| `RingBuffers.FromIter` | crates/maelstrom-base/src/ring_buffer.rs:63-71 | Filling from a sequence keeps its last elements |
| `RingBuffers.Overwrite` | crates/maelstrom-base/src/ring_buffer.rs:78-82 | Overwriting at the cursor and moving it on drops the oldest element and adds the newest in order |
| `Routers.Router.ReceiveMessage` | crates/maelstrom-client-process/src/router.rs:99-165 | For every message a well-behaved peer may send: no assertion or unwrap fails; what is sent and what becomes of the jobs is exactly as specified; live jobs stay held by exactly one peer; live plus completed jobs are all jobs; only two kinds of message are refused, and these change nothing |
| `Routers.Run` | crates/maelstrom-client-process/src/router.rs:259-264 | For every sequence of messages that well-behaved peers send, up to the one that ends the router: the jobs left and everything sent are the messages taken one by one as specified, live jobs are held by exactly one peer, and every handle has seen running updates followed by at most one completion |
| `Routers.SentInRun` | crates/maelstrom-client-process/src/router.rs:83-165 | In any run a job goes to where it must run under the next number; a peer's outcome or status of the n-th job reaches, word for word, the handle that job was asked for with; and whoever asks for an artifact is told where it was last said to be, or that it is not known |
| `Routers.Router.ReceiveJobResponse` | crates/maelstrom-client-process/src/router.rs:83-97 | Ends the job with one completion to its own handle |
| `Routers.Router.AddJob` | crates/maelstrom-client-process/src/router.rs:104-110 | A new job gets a number that no live job has |
| `Routers.UpdateKeeps` | crates/maelstrom-client-process/src/router.rs:128-133 | A live job's handle sees running updates only, and the status kept is the last of them |
| `Routers.FinishKeeps` | crates/maelstrom-client-process/src/router.rs:83-97 | A finished job's handle has seen running updates followed by exactly one completion; no other handle hears of it |
| `Routers.Unheard` | crates/maelstrom-client-process/src/router.rs:99-165 | A message to anyone else reaches no handle |
| `Routers.TellOne` | crates/maelstrom-client-process/src/router.rs:83-133 | An update goes to the one handle of its job and changes what no other handle has seen |

## Left out

- Failing and partial input and output: a read or write either happens or, where the code has a branch for it, fails as a whole; `flush` and the caching of `BufferedStream` are not modelled.
- The storage interface of the tree is instantiated with the one implementation used in production; the in-memory one of its unit tests is not modelled.
- AvlTreeOperations.AvlTree.UpdateIfExists: the precondition that the new value has the old one's encoded size is what the storage's assertion demands; its only caller, `set_opaque_dir`, is shown to meet it.
- AvlTreeOperations.AvlTree.BalanceFactor: this and the rotations ask for heights far below the 32-bit limits, which `AvlTrees.HeightBound` gives for every tree that a file can hold.
- Names are byte sequences: that they are valid UTF-8 is not modelled, and the order is that of their bytes, as in the code.
- `FileId`, attributes and the file table (`file.rs`): the same append-and-overwrite argument in a simpler form.
- Job records of the preparer are values written back to the table after each change, where the code changes them through references; `CollapsedJobs` gives the in-place form of the steps on a collapsed specification, proved equal to the functions that the preparer uses.
- Preparers.Preparer.ReceivePrepareJob: excludes the 2^64th request, where the code's counter would overflow.
- Preparers.OrderDoesNotMatter: when several things go wrong with one request, the error reported is whichever the preparer notices first; the model says that it is one of the request's own errors (`JobPreparation.CanFailWith`), and which one only if there is just one.
- Texts of errors.
- Template substitution inside environment values and the variables of the client's own environment: a parameter of `EnvironmentEval`. A failing evaluation is one error without its text.
- Parsing of TOML and JSON text; the model starts from the parsed form. Mount paths are opaque values.
- ContainerForms.TryFrom: says that an unacceptable form is refused, not which of several complaints is made first.
- TtyDecoding.Terminal.WriteAll: a failing write counts as asked for; how much of it the terminal took is not modelled.
- ImageNameLaws.RoundTripExactly: holds for every alphabet of alphanumeric characters that contains the digits and not the separators; which characters Rust counts is left open. Local paths are strings, so equality is finer than that of path components.
- GithubQueues.Blob.Read: one read returns everything from the index on; a service that cut a long answer between two frames is not modelled, and `QueueFrames.ReadsCleanly` says what such a cut does to the reader.
- GithubQueues.GithubWriteQueue.ShutDown: aborting the keep-alive task takes effect at once; a write already under way is counted before it.
- GithubQueues.Blob.Write: a failing write appends nothing; one that appends and then reports failure is not modelled.
- Time: when the reader's patience runs out is part of the script, except that a keep-alive in the last read renews it. Indices and sizes are unbounded, a payload's size being below 2^64.
- Connecting and accepting queues, which look artifacts up by name and have no state of their own beyond a set of names.
- CargoArtifacts.TestArtifactStream.Next: the order among ready tests of one package set is that of the code's stack; the order in which packages are flushed at the end is arbitrary, as in a hash map.
- RingBuffers.RingBuffer.Drop: what dropping an element does; only which slots are dropped, and how often.
- Serialisation, cloning and comparison of ring buffers, which iterate over what is modelled.
- Routers.Router.ReceiveMessage: excludes the 2^32nd job, where the code's checked addition panics, and messages about jobs a peer does not hold, where it panics too.
- The broker, its scheduler and its HTTP side; registries, credentials and the image depot; FUSE dispatch; process spawning; protocol buffers, macros and command lines.
