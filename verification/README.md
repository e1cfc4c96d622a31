# RawDB verification

RawDB keeps a catalogue of raw camera samples in an S3 bucket, and every pod serves it from its own SQLite
cache. This project models the parts where that arrangement is delicate, and proves what they promise:

- the **scanner**, which reconciles the cache with the bucket by HEAD, GET, LIST and upsert steps while writers
  and other pods are at work and any read may fail;
- the **response cache**, whose entries are valid while a sum of domain counters is unchanged;
- the **inspection jobs**, shared between requests and published result by result;
- the **users file**, edited by compare-and-swap from any number of pods, and the **tick cells** that tell pods
  of each other's changes;
- the **admin file operations**: renames in an object store, approval with merge, deletion of one file,
  and the TOML text that carries a set's record from one handler to the next;
- the **exact loops**: the download limiter, the multipart plan, resumed transfers, LIKE escaping, the bulk
  export, and the sync client's pruning.

The bucket is a map from key to object; reads answer for one moment of its history, and a paginated listing
reports each key as it was at some moment between its first and last page. Protocols are state machines over
single reads and writes, and their theorems hold for every run. Code that updates state in place is a class or
a method with a loop, proved against a specification function or against the machine whose runs it makes.

## Modules

| file | models |
|---|---|
| `Wrappers`, `Sequences`, `Runs`, `Text` | option and result types, filters and orders, induction over runs, string splitting and trimming |
| `Catalogue`, `Bucket`, `Writes`, `Store`, `Safety` | sets and metas, the bucket with its keys and listings, single S3 writes and what sequences of them leave, metas whose files all have objects |
| `Toml`, `Meta` | the printer, the part of TOML it writes, validation, the round trip |
| `Pairing`, `Scanner`, `FastPath`, `Converge` | `pair_files`, the interleaved reconciliation protocol, the ETag fast path, clean scans and readiness |
| `Renames`, `Edit`, `Approve`, `InitialRecord`, `Inputs` | file renames and edits, approval and file deletion, the initial approval record, concrete inputs the checks accept |
| `Responses`, `Inspect`, `Users`, `Ticks` | the four concurrent components |
| `RateLimiter`, `Multipart`, `Transfer`, `Like`, `Export`, `Sync` | the exact loops |

## Findings

Some claims fail without a condition; each has a theorem with the exact condition and a concrete input.

- Renames are copied one after the other, so a destination that is the old path of a file renamed later
  destroys that file: a swap is accepted and loses one of the two objects (`Renames.MoveIsExactUnlessClobbered`,
  `Inputs.AcceptedSwapLosesAnObject`).
- Paths are validated and declared trimmed but copied as given, so a file renamed to an untrimmed path is not
  where its meta looks for it (`Edit.EditCarriesEveryFileUnless`, `Inputs.BlankPathIsAccepted`).
- The edit check accepts a `.` segment that `meta::validate` refuses, so an accepted edit may write a meta no
  scan can read (`Edit.AcceptedPathParsesBackUnlessDotted`, `Inputs.DotSegmentIsAccepted`).
- Validation and approval accept a slash in a maker or model, but no listing can name such a set: every pass
  deletes its row whatever the bucket holds (`Scanner.SweepKeepsOnlyNamedSets`, `Inputs.SlashInMakerIsValid`).
- A meta without an ETag is taken for unchanged while nothing is cached (`Scanner.EtaglessMetaIsNeverLoaded`).
- Metas whose strings hold control characters other than newline and tab are printed but cannot be read back
  (`Meta.PrintedDecodes`, `Inputs.CarriageReturnIsUnreadable`).
- An entry whose old and new path agree is never looked up in the bucket, and one that came untrimmed is declared
  where nothing was copied, so an accepted edit may declare a file without an object
  (`Edit.EditIsSafeIffBacked`, `Inputs.UnmovedFileNeedsNoObject`).
- An approval that finds no row takes an existing set for a new one. Whatever its
  mode, it drops the files it does not replace (`Approve.MergeKeepsFilesIffRowIsThere`,
  `Inputs.MergeWithoutRowDropsFiles`).
- The initial record follows the rows. It holds through a run exactly when every approval, edit and file deletion
  met the set as it was: with what was read from a meta written since the set was last created, or with no row
  when there was no set (`InitialRecord.RecordsHoldIffRowsFit`; write by write,
  `InitialRecord.RecordKeptIffSameOrigin` and `InitialRecord.CreationRecordIffNoRow`). Two approvals before a
  refresh break it (`InitialRecord.SecondApprovalRewritesRecord`), so does the row another pod kept of a set since
  deleted and approved anew (`InitialRecord.StaleRowRewritesRecord`), and a replacing approval that comes between
  a deletion and its refresh (`InitialRecord.DeleteThenReplaceRevivesRecord`).
- `delete_prefix` does not look at the keys a successful batch answer reports as refused. A replacing approval then
  starts from a bucket whose old meta may declare deleted files (`Approve.ReplacingIsSafeOnceCleared`,
  `Inputs.RefusedMetaLosesFiles`).
- Checksum verification lacks the guard of a download against a stream that breaks after its last byte: it reopens
  past the end of the object, is refused until its retries are used up, and the whole verification fails
  (`Transfer.HashObject`, whose contract has the exact condition and the input).
- A pod may report its own bump. A recorded one stays quiet until the next bump exactly when no other own bump
  waits to be recorded and no HEAD in flight saw another tick (`Ticks.QuietExactlyWhenNothingCrosses`): crossed
  records report it (`Ticks.CrossedRecordsReportOwnBump`), a HEAD in flight across a single bump does
  (`Ticks.HeadInFlightReportsOwnBump`), and the next bump can (`Ticks.NextBumpMayReportIt`).
- A change already written to a cell is lost when a later HEAD of the same poll fails
  (`Ticks.ChangeLostExactlyWhen`, `Ticks.HalfFailedPollLosesChange`).

## Model

| member | source | states |
|---|---|---|
| `Toml.SequentialReplacesAreOnePass` | backend/src/meta.rs:163-170 | the four replacements, made one after the other, equal one escaping pass |
| `Toml.UnquoteEscaped` | backend/src/meta.rs:163-170 | an escaped string reads back as itself whatever follows, exactly when it holds no control character but newline and tab |
| `Toml.EntriesReadBack` | backend/src/meta.rs:162-222 | printed entries read into the open table, in order, exactly when every value is clean |
| `Meta.Validate` | backend/src/meta.rs:123-138 | accepts exactly metas with non-blank names and valid, distinct paths; otherwise reports the first failure in file order |
| `Meta.ValidPathHasCategory` | backend/src/meta.rs:140-157 | a path is valid if and only if it has at least two segments, none of them empty, `.` or `..` |
| `Meta.PushSet` | backend/src/meta.rs:176-206 | the set's pushes onto `out` append exactly its present fields, in order |
| `Meta.PushFile` | backend/src/meta.rs:208-220 | likewise for one file under its own heading |
| `Meta.Print` | backend/src/meta.rs:162-222 | the loop over the files builds the whole printed document |
| `Meta.PrintedDecodes` | backend/src/meta.rs:117-121 | every printed meta decodes to itself without empty optional strings if and only if every printed string is clean |
| `Meta.ParseUndoesPrint` | backend/src/meta.rs:117-157 | parsing a printed meta succeeds exactly for clean valid metas, and gives the meta without empty optional strings |
| `Meta.PrintIsFixpoint` | backend/src/meta.rs:159-222 | printing what was parsed back gives the same text |
| `Bucket.PlaceRoundTrip` | backend/src/cache/scanner.rs:616-633 | a set or upload is read back from its own prefix if and only if its names are non-empty and slash-free |
| `Pairing.IndexListing` | backend/src/cache/scanner.rs:536-545 | the map holds exactly the listed paths below the prefix, without the meta file |
| `Pairing.PairFiles` | backend/src/cache/scanner.rs:531-565 | either every declared file in order with a size and ETag the listing shows, or exactly the missing paths, in order, and no list |
| `Pairing.PairingIsUnique` | backend/src/cache/scanner.rs:526-565 | a listing that names each key once determines the paired list |
| `Scanner.TaskStepInv` | backend/src/cache/scanner.rs:438-477 | every step of a scan task keeps the provenance of what it has read so far |
| `Scanner.PassStepInv` | backend/src/cache/scanner.rs:240-253 | every step of a pass keeps: a place it does not know was absent at some moment of its listing, whatever happens after the listing ended |
| `Scanner.StepInv` | backend/src/cache/scanner.rs:237-285 | every step of every task, pass or writer keeps the whole invariant |
| `Scanner.RowsListWholeMetas` | backend/src/cache/scanner.rs:14-19 | in every run, under any faults and writes, a cached row lists in order all files of one meta S3 held, each with a size and ETag S3 held after that meta was read |
| `Scanner.RowsVanishOnlyWithTheirSet` | backend/src/cache/scanner.rs:240-284 | a properly named set's row disappears only if its prefix was absent at some moment between the beginning and the end of its pass's listing, or a refresh's HEAD found no meta |
| `Scanner.SweepKeepsOnlyNamedSets` | backend/src/cache/scanner.rs:249-278 | the sweep removes a row whose names are empty or hold a slash whatever S3 holds, and never one whose prefix was listed |
| `Scanner.EtaglessMetaIsNeverLoaded` | backend/src/cache/scanner.rs:445-452 | without a cached row, the comparison answers Unchanged if and only if the meta has no ETag |
| `Writes.EndsLevel` | backend/src/routes/admin.rs:585-646 | a handler whose last write to a declared file comes before its meta write leaves the set level with its meta |
| `Writes.OtherSetsDoNotMatter` | backend/src/routes/admin.rs:976-1018 | writes outside a set's prefix never change whether it is level with its meta |
| `Writes.OwnWritesDecide` | backend/src/routes/admin.rs:976-1018 | only the writes below a set's prefix decide what its meta is and whether its files ran ahead of it |
| `Writes.WholeRunsLeaveSetLevel` | backend/src/routes/admin.rs:585-646 | after any history in which a set's own writes are those of whole handler runs, one after the other, with writes to other sets anywhere in between, the set is level with its meta |
| `FastPath.SettledSince` | backend/src/cache/scanner.rs:449-452 | with fresh ETags, a meta whose ETag is still current was not rewritten since, nor was any file it declares |
| `FastPath.EqualEtagMeansExactRow` | backend/src/cache/scanner.rs:438-477 | in every run, when the set is level with its meta, no meta under another prefix claims it and the cached ETag is the meta's, the row is that meta and exactly its files with the sizes and ETags S3 holds now, the fallback date aside |
| `Converge.ScanOne` | backend/src/cache/scanner.rs:438-519 | one task against a quiet bucket finds what the specification says, missing, same, broken or the row to load |
| `Converge.ExamineFollowsProtocol` | backend/src/cache/scanner.rs:438-477 | that specification is what the interleaved protocol's own steps lead to |
| `Converge.Cache.Start` | backend/src/cache/scanner.rs:255-266 | a task's reads leave the table alone and keep the pass's progress |
| `Converge.Cache.Finish` | backend/src/cache/scanner.rs:475-476 | a task's upsert changes its own row only and keeps the pass's progress |
| `Converge.Cache.RunTasks` | backend/src/cache/scanner.rs:255-268 | whatever order tasks start and end in, the table and the counts are one function of S3, the old table and the failed reads |
| `Converge.Cache.Sweep` | backend/src/cache/scanner.rs:270-283 | removes exactly the prior rows that are not live, but where the deletion fails, and counts them |
| `Converge.Cache.RunPass` | backend/src/cache/scanner.rs:237-285 | under any faults a live set whose reads worked and that is complete and changed has its new row, any other live one keeps what it had, a dead one goes unless its deletion failed, the other kind stays, and each outcome is counted |
| `Converge.CleanPassLeaves` | backend/src/cache/scanner.rs:237-285 | after a clean pass a dead place has no row, a loadable one its new row, any other its old one |
| `Converge.CleanPassSettles` | backend/src/cache/scanner.rs:449-452 | after a clean pass nothing is left to load or to delete |
| `Converge.SecondRunDoesNothing` | backend/src/cache/scanner.rs:175-204 | a second clean run loads nothing, deletes nothing and leaves the table as it is |
| `Converge.RunOnce` | backend/src/cache/scanner.rs:175-204 | a run leaves what its passes leave, one after the other, cut short by the first listing that fails, and gives a summary with the exact counts unless a listing or the users pass failed |
| `Converge.SettledRunCounts` | backend/src/cache/scanner.rs:175-204 | a clean run with nothing to do counts no update, deletion or failure and leaves the table alone |
| `Converge.TwoLevelListingIsLive` | backend/src/cache/scanner.rs:240-252 | the two levels of listings of a bucket at rest name its properly named sets, and no others |
| `Converge.OneLevelListingIsLive` | backend/src/cache/scanner.rs:292-301 | likewise for uploads, by their one level |
| `Converge.AwaitReady` | backend/src/cache/scanner.rs:86-128 | the pod turns ready if and only if some round had no failed listing, read or users pass; from then on, whatever fails later, every whole set and upload is served, from an empty cache by the row of its dated meta with every declared file |
| `Edit.CheckPaths` | backend/src/routes/admin.rs:526-558 | accepts exactly requests whose trimmed paths are well formed, unblocked and distinct; otherwise reports the first refusal |
| `Edit.BlockedByExtension` | backend/src/routes/admin.rs:547-557 | a path is blocked if and only if its extension is, up to ASCII case, in the list |
| `Edit.AcceptedPathParsesBackUnlessDotted` | backend/src/routes/admin.rs:536-541 | an accepted path is valid for the meta parser if and only if it has no `.` segment |
| `Edit.CopyFiles` | backend/src/routes/admin.rs:586-599 | the copy loop makes the copies in order, stops only at one that fails, and collects the old keys that are no destination |
| `Edit.DeleteAll` | backend/src/routes/admin.rs:600-602 | deletes the keys in order, stopping only at one that fails |
| `Edit.CleanTags` | backend/src/routes/admin.rs:464-474 | the loop computes the cleaned tags |
| `Edit.CleanedTagsAre` | backend/src/routes/admin.rs:464-474 | every non-blank tag, trimmed, exactly once, in the order of first appearance |
| `Edit.RebuiltDescribes` | backend/src/routes/admin.rs:604-636 | the rebuilt meta has the request's fields, the row's approval record, and for each entry the checksum of the existing file of its old path, or none |
| `Edit.EditSet` | backend/src/routes/admin.rs:510-656 | each refusal is given exactly for its own reason, in the order of the checks, and leaves the bucket alone; success moves the files and writes a meta with the fields of the request, the approval record of the row and the checksums of the old paths; an interruption is a request that failed in the middle of those writes |
| `Edit.EditPending` | backend/src/routes/admin.rs:324-462 | likewise, without an approval record, also removing the files the request left out |
| `Edit.DroppedAreSpared` | backend/src/routes/admin.rs:397-403 | what an edit of an upload removes is exactly what the request neither carries nor overwrites |
| `Edit.EditCarriesEveryFileUnless` | backend/src/routes/admin.rs:585-643 | every file of the new meta is the object its old path held when paths came trimmed and nothing clobbers a later source; with all objects distinct, only then |
| `Edit.ChecksumsMoveWithTheirFiles` | backend/src/routes/admin.rs:622-634 | checksums that matched before match at the new paths |
| `Edit.EditLosesNoFile` | backend/src/routes/admin.rs:564-583 | under those conditions every existing file is found at the destination of its entry |
| `Edit.EditIsSafeIffBacked` | backend/src/routes/admin.rs:585-643 | after a completed edit every file its meta declares has an object if and only if each entry that came trimmed moves or had its object, and each other one names a path that had an object and lost none; or nobody can read the meta |
| `Edit.UnnamedObjectsStay` | backend/src/routes/admin.rs:585-602 | objects the request does not name are untouched |
| `Edit.EditCloses` | backend/src/routes/admin.rs:585-646 | a completed edit is its writes in order, and its meta write closes them |
| `Renames.UnclobberedHolds` | backend/src/routes/admin.rs:589-602 | a destination whose source no earlier copy overwrote ends with that source's first object |
| `Renames.MoveIsExactUnlessClobbered` | backend/src/routes/admin.rs:585-602 | all destinations end with their sources' first objects when no destination is a later source; with all objects distinct, only then |
| `Renames.UnnamedUntouched` | backend/src/routes/admin.rs:589-602 | a key that is no destination survives exactly when nothing is renamed away from it or removed |
| `Renames.SwapLosesAnObject` | backend/src/routes/admin.rs:588-599 | a swap of two names leaves both keys with one of the two objects |
| `Inputs.AcceptedSwapLosesAnObject` | backend/src/routes/admin.rs:534-599 | a swap request that passes the checks loses an object |
| `Inputs.BlankPathIsAccepted` | backend/src/routes/admin.rs:535-594 | a path with a leading blank passes the checks |
| `Inputs.DotSegmentIsAccepted` | backend/src/routes/admin.rs:536-541 | a path with a `.` segment passes the edit check and fails the meta parser's |
| `Inputs.UnmovedFileNeedsNoObject` | backend/src/routes/admin.rs:589-592 | an edit whose one entry keeps its path completes without that object |
| `Inputs.SlashInMakerIsValid` | backend/src/meta.rs:123-129 | a maker with a slash passes validation and can be named by no listing |
| `Inputs.CarriageReturnIsUnreadable` | backend/src/meta.rs:163-170 | a valid meta with a carriage return in its maker is printed and cannot be read back |
| `Inputs.MergeWithoutRowDropsFiles` | backend/src/routes/admin.rs:903-949 | a merge on a pod without the row, of any upload into any set it does not wholly replace, plans a meta that lacks a file of the set |
| `Inputs.RefusedMetaLosesFiles` | backend/src/s3.rs:404-432 | a wipe refused for the meta alone leaves it declaring a deleted file |
| `Approve.MergeOverrides` | backend/src/routes/admin.rs:985-996 | a merge is the existing files overridden by the promoted ones, no path twice |
| `Approve.PromotedAre` | backend/src/routes/admin.rs:881-896 | exactly the selected files are promoted, all of them for an empty selection |
| `Approve.PlanIsSound` | backend/src/routes/admin.rs:849-970 | what an approval sets out to write is the selected files of the upload over the set's own when merging, under the upload's fields with this approval's time and approver, and never when refusing an existing set |
| `Approve.PlanAnswers` | backend/src/routes/admin.rs:849-949 | each refusal of an approval is given exactly for its own reason, in the order of the checks |
| `Approve.CopyAll` | backend/src/routes/admin.rs:972-984 | copies in any order; all promoted files are copied unless one has no object or its copy fails |
| `Approve.DeletePrefix` | backend/src/s3.rs:404-432 | deletes only below the prefix, each key at most once; every key below it but those S3 refused, unless a request fails |
| `Approve.CopiedFileHolds` | backend/src/routes/admin.rs:976-984 | a copied file holds the upload's object whatever the order of the copies |
| `Approve.Promote` | backend/src/routes/admin.rs:972-1018 | the writes are copies, then the meta once all copies are done, then deletes of the upload; it succeeds unless one of these requests fails, and then every promoted path holds the upload's object, the meta is the new one, and all else is as it was |
| `Approve.ApprovePending` | backend/src/routes/admin.rs:838-1018 | a refused approval writes nothing; any other leaves a prefix of those writes, made from the old bucket or, when it replaces, from the old bucket without the set; it completes unless a request fails, with exactly that result |
| `Approve.ReachableApprovalCompletes` | backend/src/routes/admin.rs:972-1018 | with S3 reachable and every promoted file there, an approval past its checks completes |
| `Approve.ApprovalIsSafeThroughout` | backend/src/routes/admin.rs:972-1018 | after any prefix of the writes, in any copy order, every file the approved meta declares has an object |
| `Approve.ApprovePendingIsSafe` | backend/src/routes/admin.rs:903-1018 | that safety holds for what a refusing or merging handler leaves whenever it stops |
| `Approve.ReplacingIsSafeOnceCleared` | backend/src/routes/admin.rs:935-941 | a replacing approval is safe again after its wipe if and only if S3 did not keep the old meta without its files |
| `Approve.MergeKeepsFilesIffRowIsThere` | backend/src/routes/admin.rs:903-996 | the approved meta keeps every file the standing meta declares if and only if it merges with the row there, or the upload replaces them all |
| `Safety.PutDeclares` | backend/src/routes/admin.rs:997-1011 | a written meta declares exactly its files' paths, or nothing when it cannot be read back |
| `Safety.DeleteIsSafeIffUndeclared` | backend/src/routes/admin.rs:778-795 | deleting an object keeps the catalogue safe if and only if the standing meta does not declare it |
| `Approve.DeleteSetFile` | backend/src/routes/admin.rs:737-795 | refusals write nothing; otherwise meta first, then object, stopping only at a request that fails |
| `Approve.PlanDeleteIs` | backend/src/routes/admin.rs:767-776 | the rewritten meta declares exactly the old paths but the deleted one |
| `Approve.PlanDeleteAnswers` | backend/src/routes/admin.rs:737-776 | each refusal of a file deletion is given exactly for its own reason, and the new meta is the old one without the file |
| `Approve.DeleteFileIsSafeThroughout` | backend/src/routes/admin.rs:778-795 | safe after each of those writes, and in the end the object is gone |
| `Approve.DeleteFileCloses` | backend/src/routes/admin.rs:778-795 | so do those of a completed file deletion: after the meta comes no file it declares |
| `Approve.ApprovalCloses` | backend/src/routes/admin.rs:972-1018 | and those of a completed approval to its set: the copies, then the meta |
| `Approve.WipeCloses` | backend/src/s3.rs:404-432 | and the wipe of a whole prefix, by the delete that takes its meta |
| `InitialRecord.RecordNeverChanges` | backend/src/routes/admin.rs:900-919 | while handlers meet the set as it is and nobody deletes it, its initial record never changes, with reads, writes, scans and handlers of any number of pods interleaved |
| `InitialRecord.CreationRecordIffNoRow` | backend/src/routes/admin.rs:903-919 | in any run, a write that creates the set writes its own time and approver as the record if and only if it is an approval that found no row (only if: likewise) |
| `InitialRecord.RecordKeptIffSameOrigin` | backend/src/routes/admin.rs:617-620 | in any run, a write of an approval, an edit or a file deletion over an existing set keeps its record if and only if what the handler had read goes back to the approval the set goes back to (only if: when no two approvals share time and approver) |
| `InitialRecord.RecordsHoldIffRowsFit` | backend/src/routes/admin.rs:900-919 | in any run whose approvals differ in time or approver, every write keeps the record of an existing set and gives a new one its own if and only if every handler over an existing set had read a meta written since the set was last created, and every handler that creates it had no row |
| `InitialRecord.SecondApprovalRewritesRecord` | backend/src/routes/admin.rs:903-934 | two approvals before the first refresh, both told to refuse conflicts: the second rewrites the record |
| `InitialRecord.StaleRowRewritesRecord` | backend/src/routes/admin.rs:617-620 | a pod that kept the row of a set since deleted and approved anew writes the old record back with an edit |
| `InitialRecord.DeleteThenReplaceRevivesRecord` | backend/src/routes/admin.rs:676-706 | a replacing approval between a deletion and its refresh creates the set with the record of the deleted one |
| `Responses.ResponseCache.GetOrBuild` | backend/src/cache/responses.rs:62-95 | serves the cached body under an equal stamp, else builds, stores on success, and clears a full map before a new key |
| `Responses.InsertStaysBounded` | backend/src/cache/responses.rs:84-94 | the map never outgrows its bound |
| `Responses.EqualSumsEqualReads` | backend/src/cache/db.rs:190-200 | counters that only grew and have the same sum are the same one by one |
| `Responses.HitCovers` | backend/src/cache/responses.rs:62-80 | an equal sum means nothing was bumped between the entry's build and the request |
| `Responses.ServedBodyIsFresh` | backend/src/cache/responses.rs:62-95 | in every run each query behind a served body saw every write of its domain bumped before the request began |
| `Inspect.PlanLeavesOutOnlyFresh` | backend/src/inspect/mod.rs:407-418 | a plan holds exactly the processors that apply and have no fresh result |
| `Inspect.OneJobPerVersion` | backend/src/inspect/mod.rs:395-425 | at most one active job per object version |
| `Inspect.EndedJobIsComplete` | backend/src/inspect/mod.rs:427-483 | a job that ended without a panic has an outcome for each planned processor and no other, and success only for results it renamed into the cache |
| `Inspect.OutcomesNeverChange` | backend/src/inspect/mod.rs:474-480 | a published outcome is never withdrawn or replaced |
| `Inspect.TwoRoundsSuffice` | backend/src/inspect/mod.rs:352-390 | without panic or expiry, and with lookup and join as one step, a request never falls through its two rounds |
| `Inspect.Inspector.Store` | backend/src/inspect/mod.rs:524-543 | whatever stood in the way is moved off, nobody else's result comes there, and a rename that works puts the result into the cache before it is published |
| `Inspect.Inspector.RunProcessor` | backend/src/inspect/mod.rs:486-520 | a processor that completes and is stored gets success and its result appears in the cache; one that fails or is not stored gets failure; earlier outcomes stand |
| `Inspect.Inspector.RunPlan` | backend/src/inspect/mod.rs:455-483 | the processors before the first that panics have the outcomes of their fates, exactly the completed ones stored, and the loop ends in the drop guard |
| `Inspect.Inspector.RunJob` | backend/src/inspect/mod.rs:429-452 | with other tasks' steps in between, the job ends unregistered; without a download its whole plan failed; otherwise it panicked if and only if some processor did, and each outcome is the one its processor's fate dictates |
| `Users.NoLostEdits` | backend/src/users.rs:63-134 | in every run the file is the fold of the applied edits in PUT order, none twice; an edit answered with success was applied and answered what it wrote, or found users it left as they were; one refused or out of retries was not applied |
| `Users.AppliedPutInv` | backend/src/users.rs:82-122 | a conditional PUT that holds edits exactly the users the file holds, even when the ETag went A-B-A, and keeps the invariant |
| `Users.MirrorsAreHeldVersions` | backend/src/cache/scanner.rs:334-351 | a pod's mirror is empty or the ETag and users of one version S3 held |
| `Users.PlainWritesLoseEdits` | backend/src/users.rs:82-86 | on a backend that ignores the condition, a run of the same machine acknowledges two edits and loses the first |
| `Users.Cluster.CasUpdate` | backend/src/users.rs:63-134 | the retry loop is a run of the machine, with other pods' steps in between; every lost turn lost to another PUT, and its answer is explained by the last turn: storage failed, the closure refused users the file held, five other PUTs were applied, or it is what the closure makes of users the file held, written and mirrored unless nothing changes |
| `Ticks.ChangeLostExactlyWhen` | backend/src/sync_tick.rs:214-241 | a change seen by one poll and still there at the next is missed by both if and only if the first got past its domain and then failed |
| `Ticks.TickState.Prime` | backend/src/sync_tick.rs:196-210 | stores the ETags found, stopping at the first failure |
| `Ticks.TickState.PollOnce` | backend/src/sync_tick.rs:214-241 | updates the cells reached and reports exactly the changed domains, or fails |
| `Ticks.PeerBumpNeverHidden` | backend/src/sync_tick.rs:99-136 | a peer's bump that a poll saw has been reported by the end of that poll, unless the cell was primed with it |
| `Ticks.QuietExactlyWhenNothingCrosses` | backend/src/sync_tick.rs:99-136 | a recorded current bump is reported by no run up to the next bump if and only if no other own bump waits to be recorded and no HEAD in flight saw another tick |
| `Ticks.NextBumpMayReportIt` | backend/src/sync_tick.rs:118-122 | from any such quiet state the next own bump, recorded across a HEAD in flight, has the old one reported |
| `Ticks.CrossedRecordsReportOwnBump` | backend/src/sync_tick.rs:113-122 | two own bumps recorded in the opposite order of their PUTs are reported |
| `Ticks.HeadInFlightReportsOwnBump` | backend/src/sync_tick.rs:214-241 | with a single own bump, a HEAD answered before its PUT and applied after its record has it reported |
| `Ticks.HalfFailedPollLosesChange` | backend/src/sync_tick.rs:222-236 | a poll whose last HEAD fails loses a change of the first domain |
| `RateLimiter.LiveIsSuffix` | backend/src/ratelimit.rs:66-73 | live hits are exactly a suffix of the history |
| `RateLimiter.PopExpired` | backend/src/ratelimit.rs:66-73 | evicting from the front of any deque that represents a history leaves its live hits |
| `RateLimiter.Admit` | backend/src/ratelimit.rs:74-95 | refused exactly when the path was not taken recently and the window holds `limit` hits of the whole history; the wait named ends at the first moment it holds fewer, or after one second if that is later; the new deque represents the new history and never outgrows the limit |
| `RateLimiter.DownloadRateLimiter.Check` | backend/src/ratelimit.rs:57-95 | decides exactly as the history of all recorded hits of that IP does, and records into it |
| `RateLimiter.DownloadRateLimiter.Sweep` | backend/src/ratelimit.rs:99-112 | eviction leaves the history, and so every later decision, alone |
| `RateLimiter.AtMostLimitPerWindow` | backend/src/ratelimit.rs:57-95 | any half-open interval of one window holds at most `limit` hits |
| `RateLimiter.RetryAfterSuffices` | backend/src/ratelimit.rs:83-94 | after waiting `retry_after` with no hit in between, a check is allowed |
| `RateLimiter.RetryAfterIsTight` | backend/src/ratelimit.rs:83-94 | before that it is refused, unless the wait was rounded up to one second |
| `Multipart.PlanFits` | backend/src/routes/upload.rs:213-238 | with parts of at least 5 MiB there are at most 10 000 of them, none empty, no cast overflows, and parts grow only as far as that limit asks |
| `Multipart.Plan` | backend/src/routes/upload.rs:213-248 | the loop numbers the planned parts from one |
| `Multipart.SliceSizes` | frontend/src/views/Upload.vue:502-506 | no slice is empty and all but the last have the planned size |
| `Multipart.PartStore.PutWithRetry` | frontend/src/views/Upload.vue:419-442 | a part's ETag is returned and the part stored unless no attempt is answered; a failed attempt may have stored it too |
| `Multipart.PartStore.Upload` | frontend/src/views/Upload.vue:485-530 | success stores each slice under its number and reports all parts |
| `Multipart.SortKeeps` | backend/src/s3.rs:504-519 | the sort orders the report and keeps its parts |
| `Multipart.AssembledIsTheFile` | backend/src/s3.rs:504-519 | whatever the order of the report, S3 assembles exactly the file |
| `Transfer.DownloadToFile` | backend/src/s3.rs:231-309 | under any failures the file is a prefix of the object, and success means exactly the expected bytes; it succeeds whenever the object has the expected length, stays, and no more than five answers fail |
| `Transfer.HashObject` | backend/src/routes/admin.rs:1390-1451 | the bytes hashed are always a prefix of the object, and on success all of it if and only if the last answer did not end its stream with bytes left; with at most five failing answers it fails if and only if a stream broke after the last byte |
| `Transfer.VerifyPending` | backend/src/routes/admin.rs:1355-1487 | a successful verification judged every file by what its hasher was fed and counts the verdicts; it fails only over a file whose answers failed too often, went missing, ended early or broke |
| `Like.LikeEscape` | backend/src/cache/db.rs:1216-1225 | the loop escapes exactly the wildcards and the escape character |
| `Like.EscapedLikeIsSubstring` | backend/src/cache/db.rs:443-450 | the filter matches if and only if the string occurs up to ASCII case |
| `Like.UnescapedLikeOvermatches` | backend/src/cache/db.rs:443-450 | without the escape a typed wildcard matches too much |
| `Export.GroupTags` | backend/src/cache/db.rs:1007-1031 | one scan groups the tags of every file and set |
| `Export.GroupFiles` | backend/src/cache/db.rs:1033-1073 | one scan groups the files of every set in order |
| `Export.ExportAll` | backend/src/cache/db.rs:1001-1105 | the export is one entry per set, in order, with its files and tags |
| `Export.ExportMatchesListFiles` | backend/src/cache/db.rs:399-419 | each exported set shows its own record and its own `list_files` answer, in the same order, field by field, each file with its own tags |
| `Export.FileTagsIgnoreRowOrder` | backend/src/cache/db.rs:714-729 | a file's tags are the same multiset whatever order the query answers in |
| `Export.SetTagsAreTheUnion` | backend/src/cache/db.rs:1021-1031 | an exported set's tags are the distinct union of its rows' |
| `Export.EveryFileOnce` | backend/src/cache/db.rs:1001-1105 | whatever meets `ExportAll`'s contract shows every file row exactly once, under its own set |
| `Sync.BuildExpected` | rawdb_sync.py:400-409 | expects exactly the exported sets and, for each, the paths of all its entries |
| `Sync.LocalTree.PruneDir` | rawdb_sync.py:269-294 | removes and counts exactly one directory's stray files |
| `Sync.LocalTree.PruneOrCount` | rawdb_sync.py:241-296 | removes, or only counts, exactly the stray files of the whole tree |
| `Sync.ExportShowsRows` | backend/src/cache/db.rs:1001-1105 | whatever meets `ExportAll`'s contract over the tables of the cached rows names exactly the cached sets and their paths |
| `Sync.PruneKeepsDeclaredFiles` | rawdb_sync.py:241-296 | a prune by the export of the tables of any reachable cache keeps of a cached set exactly the files its row's meta declares and the special names |
| `Sync.PruneRemovesUnlistedSets` | rawdb_sync.py:269-279 | of a set no longer cached everything goes, save below hidden directories |

## Left out

- AWS calls, HTTP handlers, sessions, OIDC, GitHub and argon2: foreign calls; the bucket map with failing reads stands for S3.
- SQLite, pools, FTS5 and the SQL of searching and sorting: tables are maps and sequences, transactions single steps, and `export_all` reads one snapshot.
- Real time, the tokio scheduler and SHA-256: clocks are numbers or RFC 3339 text, interleavings are arbitrary, and a hash is any function.
- TOML that the printer never writes (comments, indentation, CRLF, `\u` escapes, other tables): the scanner's theorems take any parser, the approval theorems any that reads printed metas as `Meta.Parse` does. That chrono reads back its own RFC 3339 text is assumed.
- Processors, image rendering, memory limits and the download slots of inspection: a processor fails, completes, is not stored, or panics.
- `Converge.RunOnce`: the bucket is at rest, the users pass is modelled in `Users`, and the metas of listed sets are assumed to stand under the path they name.
- `Converge.AwaitReady`: the bucket is at rest, and the users pass is only known to fail or not.
- `FastPath.EqualEtagMeansExactRow`: assumes fresh ETags for the set's meta and no other meta that claims the set; an edit that fails half way is a set not level with its meta.
- `Ticks.QuietExactlyWhenNothingCrosses`: speaks of one domain whose polls do not fail, up to the next bump.
- `InitialRecord.RecordNeverChanges`: the wipe of a replacing approval and its meta write are one step, a wipe that nothing follows is a deletion.
- `Transfer.HashObject`: whether a stream of known length can end cleanly before it is up to the HTTP client; the contract names that case, and no input for it is claimed.
- `Responses.ResponseCache.GetOrBuild`: lookup, build and insert are one call; their interleavings are those of the machine in the same module.
- `Inspect.TwoRoundsSuffice`: takes a round's lookup and join as one step and excludes panics and expiry.
- `Sync.LocalTree.PruneOrCount`: directories, their order and their removal when empty are not modelled, only files.
- `Approve.ApprovePending`: the reads before the first write are taken at one moment.
- `Edit.EditSet`: the cached row and the readability of the old meta are inputs; an unreadable one counts as empty, as in the code.
- The limiter's clock reading before its lock, counter wrap-around past 64 bits, progress display, metrics and Kubernetes events.
- `rawdb_generator.py`, feeds, configuration checks, role bits and the other Vue pages: they would add easier members only.
