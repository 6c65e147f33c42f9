# Verified model of a publishing site

The site publishes articles and a competency matrix of interview questions. This project models
its managed files, visit analytics, matrix and question queue in Dafny and proves what they keep
over every run. `dafny verify dfyconfig.toml` checks all of it.

**Managed files.** Articles use files through one cover reference and through markers in their
markdown; a file that no article uses carries an orphan time and is pruned after a retention
period. `FileTransactions` is the concurrent machine: every request (create, update or delete an
article, delete a file, upload, prune) is a READ COMMITTED transaction with a program counter,
pending rows and row locks held to its end, and the steps of all requests interleave freely.
`FileTransactionInvariant` and `FileTransactionSteps` give the rely-guarantee proof that every
step keeps the invariant, `FileTransactionSafety` draws the conclusions for every run and
`FileTransactionProgress` shows that all running requests can always finish and that no schedule
of them goes on for ever. Every commit is tied to the sequential specification `FileOperations`:
article and delete commits in `FileTransactionSafety`, upload and prune commits in
`FileTransactionCommits`, which puts them together into one sequential history of the committed
requests. The other way round, `FileTransactionOutcomes` says why requests fail, and
`FileTransactionHistories` that every sequential history is a run of the machine.
`FileRepository` is the same requests as they run one at a time, `FileHistory` reasons
about whole sequential histories and `Markdown` about the marker scan. `FileDeleteRace` shows that
a delete request is harmless exactly when it names a file that some upload has committed.

**Visit analytics.** `Analytics` records visits with receipts that are deleted after a retention
window and compares the recorder with one that never forgets; `AnalyticsRetention` says exactly
in which runs the two differ and by how much. `AnalyticsMeaning` says what the counters mean
without receipts, as numbers of tokens.

**Competency matrix.** `Matrix` is the specification of the requests on sheets, sections,
subsections, questions and the queue, with cascading and restricting foreign keys;
`MatrixPublication` says when a question is complete, `MatrixSafety` proves what one request does and keeps, `MatrixHistory` and `MatrixUniqueness`
what holds in every run, `MatrixRepository` the use cases as they run. `Priorities` and
`Ordering` hold sibling order and the order of listings. `QueueImport` is the question import.

**Smaller parts.** `SeedArithmetic` is the row formulas of the query-plan data generator,
`SuggestionQuota` the daily quota counter, `ArticleStats` the statistics fold,
`ArticlePublication` the publication times of articles.

## Model

| member | source | states |
|---|---|---|
| `FileTransactionSafety.RunKeepsInv` | src/core/files/services.py:111-202 | the invariant holds in every state of every interleaving: exclusive locks, guarded pending rows, exact marks, valid references, present objects |
| `FileTransactionSteps.StepKeepsInv` | src/core/files/services.py:111-202 | any single step of any request, by any interleaving, keeps that invariant |
| `FileTransactionSteps.Stable` | src/infra/postgresql/storages/files.py:107-151 | what a request has established under its locks survives every commit of the others |
| `FileTransactionSteps.Guarantee` | src/core/articles/use_cases.py:136-146 | a commit changes rows and usages only of files and articles the committing request has locked |
| `FileTransactionSteps.ArticleOrphanSettles` | src/infra/postgresql/storages/files.py:131-151 | under the locks, the usage test of the last statement decides the mark of every file the request touched |
| `FileTransactionSafety.EraseNeverRefused` | src/infra/postgresql/models/articles.py:141-144 | in no run do the RESTRICT references stop the row delete of a file whose object is already gone |
| `FileTransactionSafety.CommittedStatesConsistent` | src/core/files/services.py:133-153 | in every committed state the orphan time is null exactly for used files, every reference names a file of the right purpose, object keys are unique |
| `FileTransactionSafety.LastUsersOrphan` | src/core/articles/use_cases.py:213-224 | a corollary of the row above: however the last users of a file are removed concurrently, the unused file ends up with an orphan time |
| `FileTransactionSafety.ArticleCommitIsSaveArticle` | src/core/articles/use_cases.py:109-224 | the commit of an article request changes the committed rows exactly as the request running alone on them would |
| `FileTransactionOutcomes.FailsOnlyIfRefused` | src/core/files/services.py:111-131 | in every run a request fails only by a statement of its own and only if the rows refuse it then: the article is missing, a reference names no file of its purpose, the file is missing or used, the new id or key is taken, the object store fails; prune never fails |
| `FileTransactionHistories.RequestServed` | src/core/articles/use_cases.py:109-224 | from every quiet reachable state every request run on its own ends, without an abort of healthy work, with exactly the rows and objects of the sequential request: accepted articles are saved, prune takes its batch |
| `FileTransactionHistories.HistoryIsRun` | src/infra/ioc/prodivers/database_provider.py:25-48 | every sequential history of requests whose uploads get ids of their own is a run of the machine |
| `FileTransactionSafety.DeleteCommitIsRemove` | src/core/files/services.py:122-131 | the commit of a file deletion removes exactly that row, which no committed article uses |
| `FileTransactionSafety.UsedFilesKept` | src/core/files/services.py:111-131 | every file of a committed article has its row, the right purpose, and its object, in every state |
| `FileTransactionSafety.RemovalsUnused` | src/core/files/services.py:173-202 | a step removes a row or an object only of a file that no committed article uses, even when prune chose its candidates by stale usages |
| `FileTransactionSafety.QuiescentObjects` | src/core/files/services.py:79-86 | with no request running every file row has its own object |
| `FileTransactionSafety.WaiterWantsAbove` | src/infra/postgresql/storages/files.py:107-116 | a request that must wait wants a lock above all it holds: article first, then files by ascending id |
| `FileTransactionSafety.NoWaitCycle` | src/infra/postgresql/storages/files.py:107-116 | no reachable state has a cycle of requests each waiting for the next |
| `FileTransactionSafety.PruneNeverWaits` | src/infra/postgresql/storages/files.py:153-179 | prune never waits for a row lock |
| `FileTransactionSafety.SomeoneCanMove` | src/infra/postgresql/storages/articles.py:83-85 | whenever requests are running one of them can go on: run its next statement with its lock, commit, or roll back because it has failed; a healthy request is never rolled back |
| `FileTransactionProgress.EveryRequestCanFinish` | src/infra/ioc/prodivers/database_provider.py:25-48 | from every reachable state some continuation without new requests ends all running ones, each by its commit or, only once it has failed, by its rollback |
| `FileTransactionProgress.EveryStepBringsNearer` | src/core/files/services.py:111-202 | every step of a running request, a failing client call or prune locking a candidate included, ends a request, locks one more file or leaves fewer statements to run |
| `FileTransactionProgress.EveryScheduleEnds` | src/core/files/services.py:111-202 | every schedule of the running requests stops after finitely many steps, and one that stops only where nothing can go on has ended all of them |
| `FileTransactionCommits.UploadCommitIsUpload` | src/core/files/services.py:46-86 | an upload commits a new row under a free id and key with its object in place, or renews the oldest duplicate of its lookup; it equals the upload running alone unless the duplicate it would find was committed after its lookup |
| `FileTransactionCommits.PruneCommitIsPruneAll` | src/core/files/services.py:173-202 | a prune commits the sequential sweep over exactly the files whose object it removed, each eligible in the rows it commits on |
| `FileTransactionCommits.PruneSkipsNothing` | src/core/files/services.py:182-185 | in every interleaving no candidate prune still has to sweep is in use, so it never marks one and its skipped count is zero |
| `FileTransactionCommits.CommitsAreSequential` | src/infra/ioc/prodivers/database_provider.py:25-48 | at every moment of every run the committed tables are those of a sequential history of the committed requests, each served alone, except uploads whose duplicate was committed after their lookup, which act on what an earlier table showed them |
| `FileTransactionSteps.SweepNeverMarks` | src/core/files/services.py:182-196 | the loop of prune removes or fails each candidate; the branch for one in use is never taken |
| `FileDeleteRace.DeleteNameExact` | src/core/files/services.py:122-131 | after every run that has come to rest, a request to delete a file can lead to a damaged article exactly when that file was never committed |
| `FileDeleteRace.DamageReached` | src/core/files/services.py:122-131 | from every quiet state and for every uncommitted file, upload and article can slip in after the lock statement and the object is removed under the article |
| `FileDeleteRace.CommittedNameIsSafe` | src/core/files/services.py:122-131 | a delete request that names a committed file damages nothing in any continuation |
| `Markdown.ExtractIsAllMarkers` | src/core/files/markdown.py:3-7 | the left-to-right non-overlapping scan returns exactly the ids of the markers at all positions |
| `Markdown.CapturedIsRead` | src/core/files/markdown.py:3 | a position captures an id exactly when the text there reads one of `?`, `#`, `&`, then `fileId=`, then the id as the longest run of letters, digits, `_` and `-` |
| `Markdown.EmbeddedIdFound` | src/core/files/services.py:155-164 | text that embeds a markdown url yields the file id if a non-id character or the end follows; the marker reads exactly this id only then |
| `FileOperations.SaveArticleKeeps` | src/core/files/services.py:137-153 | saving or deleting an article alone keeps marks exact, references valid and keys unique |
| `FileOperations.HandleKeeps` | src/core/files/services.py:35-86 | every request served alone keeps the store well formed, objects included |
| `FileHistory.PrunedFilesWereRetained` | src/infra/postgresql/storages/files.py:153-179 | every file prune deletes has an orphan time before the cutoff, and since the request that set it was unused and not uploaded again |
| `FileHistory.OrphanedSince` | src/infra/postgresql/storages/files.py:64-81 | an orphan time is the time of a request, since which the file stayed unused with that time and was not re-uploaded |
| `FileHistory.EmbeddedFileSurvives` | src/core/articles/schemas.py:215-219 | an article saved with a file's markdown url keeps the row, and every prune leaves the row, its key and the object |
| `FileHistory.SavedFileSurvives` | src/core/articles/schemas.py:109-114 | from the request that saved an article with a cover or with texts that name a file until the next request on that article, the file has its row, no orphan time and its object, and every prune leaves them |
| `FileHistory.CandidatesAreFirst` | src/infra/postgresql/storages/files.py:153-179 | the batch of a prune is the first min(limit, n) of the n unused files of the namespace orphaned before the cutoff, in (orphaned_at, id) order of their rows |
| `FileHistory.PruneEffect` | src/core/files/services.py:173-202 | one prune deletes exactly the rows and objects of the candidates whose object the client could delete |
| `FileHistory.BacklogDrains` | src/infra/postgresql/storages/files.py:164-175 | k prunes with a client that never fails delete exactly the first min(k * batch, n) eligible files in (orphaned_at, id) order |
| `FileHistory.BacklogEmpties` | src/core/files/services.py:173-202 | the backlog of n files is empty exactly after the rounds with k * batch >= n |
| `FileHistory.PruneStalls` | src/core/files/services.py:182-196 | a prune changes nothing exactly when every candidate's object delete fails |
| `FileRepository.Repository.EnsureFilesAllowed` | src/core/files/services.py:111-120 | accepts exactly the sets of existing files with the purpose; otherwise the smallest offending id decides the error |
| `FileRepository.Repository.SyncUsages` | src/core/files/services.py:137-153 | attaches and then orphans as specified, also for empty sets |
| `FileRepository.Repository.UploadFile` | src/core/files/services.py:35-86 | a duplicate is refreshed and returned, a new file gets its row and its object, a conflict or a failing object store changes nothing, each exactly in its case |
| `FileRepository.Repository.DeleteFile` | src/core/files/services.py:122-131 | refused as in use exactly when an article uses the file, then as missing, then for the object store; otherwise the row and the object go |
| `FileRepository.Repository.CreateArticle` | src/core/articles/use_cases.py:109-155 | done exactly for a new article whose cover is a cover image and whose texts name content images only; the stored article has that cover and exactly the files the texts name |
| `FileRepository.Repository.UpdateArticle` | src/core/articles/use_cases.py:157-211 | the same for an existing article; detached files are those no longer referenced |
| `FileRepository.Repository.DeleteArticle` | src/core/articles/use_cases.py:213-224 | done exactly for an existing article; its files are orphaned if nothing else uses them |
| `FileRepository.Repository.Prune` | src/core/files/services.py:173-202 | scanned = deleted + failed + skipped, deleted is the number of rows gone, nothing is skipped |
| `Analytics.Storage.RecordVisit` | src/infra/postgresql/storages/analytics.py:71-158 | the new receipt and counter tables are the recording function of the old ones |
| `Analytics.Storage.RecordPublicVisit` | src/core/analytics/use_cases.py:23-37 | accepts exactly public pages and available items; a matrix visit counts under the id of its item, others under their target, no other counter changes, and a first view adds one to the views of its source |
| `Analytics.SameItemCountsOnce` | src/core/analytics/use_cases.py:23-37 | views of one item by different links with one token count once |
| `Analytics.PruningUnobservable` | src/infra/postgresql/storages/analytics.py:76-80 | in every run whose visits stay within the retention of the largest day so far, the counters equal those of a recorder that never deletes receipts |
| `Analytics.LateVisitCountedTwice` | src/infra/postgresql/storages/analytics.py:76-80 | one day outside the window is enough, for every retention, to make the two recorders differ |
| `AnalyticsRetention.DiffersExactly` | src/infra/postgresql/storages/analytics.py:71-158 | deleting receipts changes the counters of a run exactly when some visit is late: it repeats a view or a visitor whose receipt is deleted, or is the first engagement of a view whose receipt is deleted; no visit of a timely run is late |
| `AnalyticsRetention.ViewsCountedAgain` | src/infra/postgresql/storages/analytics.py:71-106 | in every run the views of a target and day are those of a recorder that forgets nothing plus the views counted again |
| `AnalyticsRetention.EngagementsLostExactly` | src/infra/postgresql/storages/analytics.py:135-158 | as long as no view is counted again, the engaged views fall short by exactly the lost engagements |
| `AnalyticsRetention.VisitorsCountedAgain` | src/infra/postgresql/storages/analytics.py:107-134 | as long as no view is counted again, the visitors of a day exceed by exactly those counted again |
| `Analytics.CountersCountReceipts` | src/infra/postgresql/storages/analytics.py:81-158 | while a day's receipts are kept, views, engaged views and visitors are the numbers of its receipts per scope and source |
| `Analytics.EngagedWithinViews` | src/infra/postgresql/storages/analytics.py:135-158 | in every run, late visits included and with or without deleted receipts, engaged views never exceed views for any day, target and source |
| `Analytics.ScopeInjective` | src/infra/postgresql/storages/analytics.py:74 | different targets have different receipt scopes |
| `AnalyticsMeaning.ReceiptsAreOutcomes` | src/infra/postgresql/storages/analytics.py:81-158 | a receipt is the outcome of its own token: first view fixes the source, a later engagement marks it |
| `AnalyticsMeaning.AudienceReceiptsAreVisitors` | src/infra/postgresql/storages/analytics.py:107-134 | the audience receipt of a visitor exists exactly after a new site view of theirs, with its source |
| `AnalyticsMeaning.CountersMeanTokens` | src/infra/postgresql/storages/analytics.py:71-158 | in every timely run views and engaged views are the numbers of tokens whose first view came from the source, all or only the engaged ones, and visitors likewise |
| `AnalyticsMeaning.ReportedAddUp` | src/infra/postgresql/storages/analytics.py:31-69 | reactions and suggestions are the sums of what was reported; visits never touch them |
| `Priorities.AcceptsPermutations` | src/core/articles/schemas.py:51-54 | the folder check and the matrix check both accept exactly the permutations of the siblings |
| `Priorities.NewIsLast` | src/infra/postgresql/storages/competency_matrix.py:697-706 | max + 1 lists the new sibling last and keeps priorities distinct |
| `Priorities.ReorderedListing` | src/infra/postgresql/storages/articles.py:454-474 | after an accepted reorder the listing is exactly the given order |
| `MatrixSafety.CreatedLast` | src/infra/postgresql/storages/competency_matrix.py:137-206 | a created node is listed last under its parent and no other listing changes |
| `MatrixSafety.ReorderExact` | src/core/competency_matrix/schemas.py:103-106 | a reorder is accepted exactly for permutations of the siblings, sets exactly that order, and leaves all other parents alone |
| `MatrixSafety.DeleteExact` | src/core/competency_matrix/use_cases.py:84-98 | in a linked state a node delete is refused exactly when its subtree has questions and the flag is not set; otherwise it removes exactly the subtree and its questions, and no RESTRICT key trips |
| `MatrixSafety.RestrictExactly` | src/infra/postgresql/models/competency_matrix.py:246-305 | RESTRICT refuses the node delete exactly when some question outside the subtree names the deleted sheet |
| `MatrixSafety.MisplacedQuestionBlocksDelete` | src/infra/postgresql/models/competency_matrix.py:266-269 | such a state exists with all foreign keys holding, so the sheet invariant is needed |
| `MatrixHistory.RunKeepsInv` | src/core/competency_matrix/use_cases.py:63-308 | every run from the empty database keeps structure, order and publication invariants |
| `MatrixHistory.ReachableStates` | src/infra/postgresql/models/competency_matrix.py:439-457 | every question names the sheet its subsection leads to, published ones have a grade, seven texts that are not blank and their time, siblings have distinct priorities |
| `MatrixHistory.RunsNeverRestricted` | src/infra/postgresql/storages/competency_matrix.py:208-284 | no request of any run ends in a RESTRICT violation, and without the flag no delete removes a question |
| `MatrixHistory.QuestionContinues` | src/infra/postgresql/storages/competency_matrix.py:1101-1106 | while a question lives its suggester never changes, nor its publication time once set |
| `MatrixHistory.PublicationTimeIsFirst` | src/infra/postgresql/storages/competency_matrix.py:1101-1106 | the publication time of a question is the time of the first request that left it published, and none exactly as long as none did |
| `MatrixHistory.PublicationNeedsRight` | src/core/competency_matrix/use_cases.py:202-308 | without the publication right no request publishes a question or changes or removes a published one, other than by deleting a node |
| `MatrixHistory.QueuedBecomesQuestion` | src/core/competency_matrix/use_cases.py:230-261 | turning a queued question into an item removes it from the queue in the same step, and its suggester follows it through later updates |
| `MatrixHistory.QueueExits` | src/core/competency_matrix/use_cases.py:230-261 | a question leaves the queue only by deletion or by becoming a new item |
| `MatrixHistory.QueuedStays` | src/core/competency_matrix/use_cases.py:230-261 | a question put into the queue is there, as it was put, until it is deleted or becomes an item |
| `MatrixHistory.RowsDeleted` | src/core/competency_matrix/use_cases.py:291-294 | deleting a question or a queued question removes exactly that row, for a published question only with the publication right |
| `MatrixPublication.StripBlank` | src/core/competency_matrix/schemas.py:586-603 | the blank test of a field holds exactly for texts of whitespace only |
| `MatrixPublication.MissingExactly` | src/core/competency_matrix/schemas.py:586-603 | reported as missing are exactly the blank fields and a missing grade; none is missing exactly when the grade and seven texts are there |
| `MatrixUniqueness.ConstraintsHold` | src/infra/postgresql/models/competency_matrix.py:161-337 | in every run sibling labels differ after case folding and no sheet has two questions with one slug |
| `MatrixRepository.Repository.InspectStructureDeletion` | src/infra/postgresql/storages/competency_matrix.py:208-262 | finds the node, exactly the subsections of its subtree, and whether they hold questions |
| `MatrixRepository.Repository.DeleteRow` | src/infra/postgresql/storages/competency_matrix.py:264-284 | deletes the row with its cascades or, when RESTRICT refuses, nothing |
| `MatrixRepository.Repository.DeleteStructureNode` | src/core/competency_matrix/use_cases.py:84-98 | keeps the invariant, never reports RESTRICT, removes exactly the subtree, and without the flag no question |
| `MatrixRepository.Repository.CreateNode` | src/infra/postgresql/storages/competency_matrix.py:137-206 | done exactly when the parent exists, the id is new and no sibling shares a folded label; adds one row with that parent and those labels, lists it last and keeps the invariant |
| `MatrixRepository.Repository.UpdatePriorities` | src/infra/postgresql/storages/competency_matrix.py:708-731 | done exactly for a permutation of the siblings, which becomes the listing; nothing but priorities changes |
| `MatrixRepository.Repository.Write` | src/infra/postgresql/storages/competency_matrix.py:529-582 | writes a question row exactly if it is complete or a draft and its slug is free on its sheet; reports an incomplete one as such |
| `MatrixRepository.Repository.CreateItem` | src/core/competency_matrix/use_cases.py:202-228 | done exactly with the right to publish, existing resources and subsection, a free slug and a complete or draft form; the row has the form, the sheet of its subsection, the suggester and its time |
| `MatrixRepository.Repository.CreateItemFromQueue` | src/core/competency_matrix/use_cases.py:230-261 | the same for a queued question; item and queue change together or not at all, with the suggester of the queued question |
| `MatrixRepository.Repository.UpdateItem` | src/core/competency_matrix/use_cases.py:263-289 | done exactly under the same conditions for an existing question; replaces form and sheet of that row only, keeps suggester, first publication time and the invariant |
| `MatrixRepository.Repository.SwitchItemPublishStatus` | src/core/competency_matrix/use_cases.py:296-308 | done exactly with the right to publish and, for publishing, a complete question; changes only the status and stamps the first publication |
| `QueueImport.PreviewOne` | src/core/competency_matrix/parsers.py:76-121 | the issues are exactly what is wrong with the row; parameters exist exactly without issues and hold the normalised cells |
| `QueueImport.PreviewExactly` | src/core/competency_matrix/parsers.py:76-121 | said over the cells: each issue exactly when its cell is of another type, blank, too long or no grade, and parameters exactly for text questions that fit, sheets that are text or absent, and one of the five grades or none |
| `QueueImport.Preview` | src/core/competency_matrix/parsers.py:43-66 | one checked row per line in file order, numbered consecutively, each with parameters or issues but not both |
| `QueueImport.NormalizedOneLine` | src/core/competency_matrix/parsers.py:344-353 | imported text never contains a line break |
| `QueueImport.NormalizedIs` | src/core/competency_matrix/parsers.py:344-353 | the imported text is the cell with each line break, of one or two characters, turned into one blank, less the blanks at its ends |
| `QueueImport.WithDuplicateWarnings` | src/core/competency_matrix/schemas.py:345-387 | each row gets a warning naming the first row with its key if that came earlier, and one exactly if the queue has the key |
| `QueueImport.SelectedExactly` | src/core/competency_matrix/schemas.py:318-324 | a row is selected by default exactly when it is importable, first with its key, and not queued |
| `QueueImport.DefaultSelectionSound` | src/core/competency_matrix/schemas.py:345-387 | no two default rows have the same sheet and fingerprint, and none agrees in both with a queued question |
| `QueueImport.DefaultSelectionComplete` | src/core/competency_matrix/schemas.py:345-387 | every importable row agrees in sheet and fingerprint with a queued question or with a default row |
| `QueueImport.SelectedQuestions` | src/core/competency_matrix/schemas.py:389-435 | imports exactly when some numbers are given, none twice, each of an importable row; refuses with exactly the objections, otherwise returns the chosen rows in file order |
| `QueueImport.DefaultAccepted` | src/core/competency_matrix/schemas.py:389-435 | confirming a non-empty default selection, in any order, is never refused |
| `QueueImport.ConfirmDefault` | src/core/competency_matrix/parsers.py:68-74 | the confirmation imports exactly the default questions in file order |
| `QueueImport.SelectedAfterImport` | src/infra/postgresql/models/competency_matrix.py:530-549 | after any import, a second preview selects exactly the rows selected before whose key was not imported |
| `QueueImport.SecondPreviewSelectsNothing` | src/core/competency_matrix/schemas.py:345-387 | after confirming the default selection, previewing the same file again selects nothing |
| `SeedArithmetic.AnalyticsRowsDistinct` | performance/query_plans/seed.py:357-378 | analytics rows are distinct in (article, date, source) exactly up to 6 * articles * 1095 rows |
| `SeedArithmetic.ResourceRowsDistinct` | performance/query_plans/seed.py:801-833 | resource links are distinct exactly when the general ones fit in (items - 2) * resources |
| `SeedArithmetic.GeneralResourceLinkValid` | performance/query_plans/seed.py:820-833 | general links name existing items other than 100 and 101 and existing resources |
| `SeedArithmetic.TagRowsDistinct` | performance/query_plans/seed.py:271-304 | tag links are distinct exactly when the general ones stop before the first round distance d at which d * (articles + 9973) is a multiple of tags - 3 |
| `SeedArithmetic.TagLinkValid` | performance/query_plans/seed.py:271-304 | every link names an existing article and tag, and only target links name the PostgreSQL tag |
| `SeedArithmetic.ItemStructureAgrees` | performance/query_plans/seed.py:708-743 | the subsection of a seeded item exists and leads through the structure formulas to the item's own sheet |
| `SeedArithmetic.SiblingPriorities` | performance/query_plans/seed.py:617-674 | a parent and a priority belong to exactly one child |
| `SuggestionQuota.Store.Consume` | src/infra/valkey/storages.py:39-64 | the stored counter after INCR and EXPIRE, and the quota it reports |
| `SuggestionQuota.Store.CheckCreateAllowed` | src/core/competency_matrix/services.py:19-30 | a request is allowed exactly while the counter it finds is below the limit |
| `SuggestionQuota.ExpiresInLastSecond` | src/core/competency_matrix/services.py:40-42 | the cut-off ttl ends the counter in the last second of the UTC day of the request and never after its midnight |
| `SuggestionQuota.ConsumedExactly` | src/infra/valkey/storages.py:39-64 | a request finds the number of the client's requests that day until the counter expires, and a fresh count afterwards |
| `SuggestionQuota.FirstOnesAllowed` | src/core/competency_matrix/services.py:19-42 | at least one second before midnight exactly the first `limit` requests of a client's day are allowed, and what remains is the unused part |
| `SuggestionQuota.FirstOnesAllowedAmongOthers` | src/core/competency_matrix/services.py:32-38 | the same with any other clients and days in between: only earlier requests of the same client and the same day count |
| `SuggestionQuota.LimitKeptExactly` | src/core/competency_matrix/services.py:40-42 | the daily limit is kept exactly when no request comes after the expiry or all of them fit in the limit |
| `SuggestionQuota.LastSecondUnlimited` | src/core/competency_matrix/services.py:40-42 | if the first request of a day comes in its last second, every request that day is allowed |
| `ArticleStats.BuildArticleStats` | src/core/articles/schemas.py:511-530 | one entry per mentioned article with its own sums, first title and reactions, sorted by (-views, title), sums conserved |
| `ArticleStats.SortCorrect` | src/core/articles/schemas.py:530 | the sort returns the same entries, ordered, and keeps the order of equal keys |
| `ArticleStats.FromDailyStats` | src/core/articles/schemas.py:488-508 | the totals equal the sums over the rows and over the articles; reactions count once per article |
| `ArticlePublication.RequestedStatus` | src/core/articles/schemas.py:221-286 | an accepted request leaves the status it asks for, at the first publication with its time, and every other article as it is |
| `ArticlePublication.PublicationNeedsRight` | src/core/articles/use_cases.py:109-224 | without the publication right no request publishes an article or changes or deletes a published one; with it every request on an existing article is served |
| `ArticlePublication.PublicationTimeIsFirst` | src/core/articles/schemas.py:221-286 | the publication time is the time of the first request that left the article published, and none exactly as long as none did |
| `ArticlePublication.PublishedHaveTime` | src/core/articles/schemas.py:234 | every published article of every run has its publication time |
| `ArticlePublication.TimesNeverChange` | src/infra/postgresql/storages/articles.py:390-400 | publication time once set, creation time and author never change while the article lives |

## Left out

- Concurrent uploads of the same bytes: no unique constraint backs the duplicate lookup, so deduplication is proved only for requests served one at a time.
- Locks taken implicitly by foreign keys and unique indexes, and the rename of a file: the lock model holds the explicit article and file row locks.
- A transaction that fails after it removed an object: the machine lets a transaction that removed an object only commit; a failed client delete leaves the object in place.
- `FileTransactions` abstracts the order and the limit of prune's candidate query and lets the query read stale usages; the sequential model has both exactly.
- The run condition of the concurrent results: a delete request names an id that some upload has committed. `FileDeleteRace` shows that this is exactly what they need.
- Reuse of a file id: an insert refuses every id that was ever committed, as ids are made at random for each upload; the table itself refuses only ids that exist.
- The snapshot of a duplicate lookup that waits: when the row it waits for is deleted, the lookup starts again on the rows committed by then instead of going on in its own snapshot.
- Article fields other than file references, tags, folders and reactions, except for publication times.
- Article lookup by slug: requests name articles by id.
- Case folding, `str.split` and the question fingerprint are function parameters; SHA-256 and HMAC are taken as collision free where a result says so.
- Concurrent matrix requests: the matrix is proved for requests served one at a time.
- Resources attached to questions: only whether the named ones exist.
- The SQL test for missing fields: SQL `trim` and Python `strip` disagree on whitespace, so publication is stated over the Python test.
- The order of article folders between equal priorities by name: folders share the priority proofs, and priorities stay distinct.
- File decoding, CSV dialects, Excel reading and column lookup of the import: rows start as cells.
- The tie order of the statistics is stated of the sort, not of the whole fold.
- Analytics reports over date ranges and the legacy counters: queries without a deep property.
- Valkey expiry at the exact instant: a counter is gone from its expiry on, which no result depends on before the last second.
- HTTP endpoints, request schemas, settings, search, caches, migrations, logging and health checks.
