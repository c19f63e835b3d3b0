# openEO on Argo Workflows: a model and its proofs

A Dafny model of the openEO back end on Argo Workflows: the API that queues jobs and hands out their
results, and the executor that tiles process graphs and runs CWL tools. `dafny verify dfyconfig.toml`
checks all of it.

- **Job lifecycle** (`Jobs`, `Protocol`, `Obligations`, `StartOnce`, `Confluence`, `Throttle`,
  `Handlers`, `SyncWait`, `Backend`). The API handlers, the RQ tasks and the cron reconciler are split at every row
  read, row write, external call and enqueue into one transition system, in which any of them can act on a
  stale row. Invariants are proved over all its runs. `Backend` holds the same handlers as methods over
  shared fields; each is proved to leave the specified state, to be a run of that system and to keep the
  invariant that no job is lost and none submitted twice.
- **Tiling and graph rewriting** (`Sums`, `Tiling`, `Json`, `Graph`, `Executor`). The grid loops over real
  distances, and the rewriting of one shared process graph once for each tile.
- **CWL results and their delivery** (`Paths`, `Items`, `Stac`, `Relocation`, `Delivery`, `Results`,
  `Delivered`, `CwlResults`). The restructuring of a tool's STAC output, the upload of its assets, the
  links the API hands out, and the endpoints that resolve them, up to one end-to-end theorem.
- **CWL inputs** (`Cwl`). The two input parsers that are kept in sync by hand, and the executor's filling
  of inputs against the form the API shows.
- **Byte ranges and signed URLs** (`Text`, `ByteRange`, `SignedUrl`). The Range header scanner (byte
  ranges: section 14.1.2 of RFC 9110), the streaming loop, and the signed query.

## Where the code differs from what is said of it

The model follows the code; a lemma says exactly when the promise holds.

- A second start is excluded by the workspace directory, but `delete_job` removes that directory: a start
  request between its row read and its mkdir can submit the job again, whether the first submission was
  made or is still outstanding (`StartOnce.DeleteReopensIff`).
- A cancel that acts on a stale read can set the row of a synchronous job to canceled after its poller has
  ended, and the request then waits for a status that never comes (`SyncWaits.CanceledEndsIff`,
  `SyncWaits.RequestCanWaitForEver`).
- A final row of a synchronous job whose submission failed can be queued again by a start request
  (`Confluence.FailedSyncJobRestarts`, `Confluence.RowCanFallIff`).
- `run_cwl` strips every leading dot and slash of an href, so a link into a hidden directory is lost
  (`Relocation.HiddenLinkIsLost`, `Relocation.LinkFollowsFileIff`); so is a file that bears the name another
  is given (`Relocation.NoFileLostIff`).
- An href is taken relative to the STAC directory, not to the directory of its item; a link from an item
  the tool itself put in `items/` to a sibling is lost or comes to name another file
  (`Relocation.SiblingLinkGoesAstray`, `Relocation.LinkFollowsFileIff`, `Relocation.LinkLeadsIff`).
- The API drops the bucket of an upload's URI and reads its own `S3_BUCKET`, `eo-public` when it is not
  set; with another bucket than the executor's an uploaded asset is not found
  (`Delivered.UnsetBucketFindsNothing`, `Delivered.DeliveredIff`).
- The search for a tool's STAC root prefers a catalog, which `get_results` then cannot read as a collection:
  no link is handed out (`CwlResults.OnlyCollectionsAreHandedOut`).
- The proxy finds an asset by the end of its href, so a name that ends another can be served the other's
  bytes, depending on the listing (`Delivered.ServedTheOther`, `Delivered.DeliveredIff`).
- The executor tells Calrissian to run the main of every package, while the form and the auto-wiring fall
  back on other entries (`Cwl.DescribedIsAddressedIff`).
- The key `id_asset` of a collection asset can be that of two assets (`Results.EveryLinkHandedOutIff`).
- `upload_stac_item_assets` promises never to raise; it does on an item whose assets are not a dictionary
  of dictionaries.
- The reader of a process graph's box and the writer of a tile do not always use the same place
  (`Graphs.SamePlaceIff`); reading after writing is right all the same.
- A suffix range `-n` reads from the start, a range of one byte is refused, and the printed Content-Range,
  besides lacking its unit (section 14.4 of RFC 9110), often ends one too far
  (`ByteRanges.ContentRangeExactIff`).
- A signed path with a `;` in its last segment is refused on validation (`SignedUrls.SemicolonIsRefused`,
  `SignedUrls.SignedIsAcceptedExactly`).
- An input with enum symbols below a real union is shown as `union` (`Cwl.EnumNameIff`).

## Model

| member | source | states |
|---|---|---|
| Obligations.NoJobLost | openeo_argoworkflows/api/openeo_argoworkflows_api/tasks.py:65-200 | In every reachable state, under every interleaving of requests, worker tasks, reconcilers, phase changes, failed lookups, cancels and deletes, a queued row of any job (batch or synchronous) has a handler or task still on its way to submission, and a running row one that still polls it; so a job that nothing works on is neither queued nor running |
| Obligations.RowsTellTheTruth | openeo_argoworkflows/api/openeo_argoworkflows_api/tasks.py:140-185 | In every reachable state, stale writes included, a running row names a workflow that was created for that very job, and a finished row means that Argo reported Succeeded, at some step of the run, for a workflow of that job |
| Obligations.ReconcilerAlwaysHasWorkflow | openeo_argoworkflows/api/openeo_argoworkflows_api/reconcile.py:57-65 | In no run does the reconciler ever hold a row without a workflow, so its no-workflow branch never writes |
| Obligations.StepKeepsInv | openeo_argoworkflows/api/openeo_argoworkflows_api/tasks.py:94-200 | The invariant behind the three results above is kept by every single step of every handler |
| Obligations.RowKept | openeo_argoworkflows/api/openeo_argoworkflows_api/tasks.py:128-144 | Whatever step happens, and whichever stale row it writes, the written row keeps a handler for the obligation its status promises |
| StartOnce.NoDoubleSubmission | openeo_argoworkflows/api/openeo_argoworkflows_api/jobs.py:166-189 | Over every run with cancels, repeated and racing start requests and deletes that overtake no start request of the job, a batch job never owns two workflows: the exclusive mkdir admits one start and RQ tasks only move forward |
| StartOnce.ExactlyOneObligation | openeo_argoworkflows/api/openeo_argoworkflows_api/jobs.py:166-189 | In such runs a batch job never has two outstanding obligations, and a queued or running row has exactly one |
| StartOnce.DeleteReopensIff | openeo_argoworkflows/api/openeo_argoworkflows_api/jobs.py:201-226 | After a run in which no deletion overtook a start request of a batch job, deleting it leaves a continuation with two workflows of the job if and only if a start request for it is between its row read and its mkdir and the job either has a workflow or is owed one by an admitted start, a check or a submission that has not failed; the job need not have been submitted |
| StartOnce.DeleteCanDoubleSubmit | openeo_argoworkflows/api/openeo_argoworkflows_api/jobs.py:155-226 | A concrete run in which a deletion overtakes a start request and one job ends up with two workflows |
| StartOnce.StartCanSubmit | openeo_argoworkflows/api/openeo_argoworkflows_api/jobs.py:176-189 | Any start request that finds no workspace can be driven to the creation of a workflow whenever the pool admits it, leaving every other handler where it was |
| SyncWaits.CanceledEndsIff | openeo_argoworkflows/api/openeo_argoworkflows_api/jobs.py:507-523 | In every reachable state a canceled row can still become finished or error, without a new start request, if and only if some handler or reconciler that owes it a step, may start it or has yet to visit it is outstanding; otherwise a synchronous request that watches the row waits for ever |
| SyncWaits.RequestCanWaitForEver | openeo_argoworkflows/api/openeo_argoworkflows_api/jobs.py:233-264 | A concrete run, for every configuration that admits into an empty pool, in which a stale cancel leaves a synchronous row canceled with nothing outstanding |
| Confluence.StatusOnlyClimbs | openeo_argoworkflows/api/openeo_argoworkflows_api/tasks.py:157-200 | Between any two moments of a run in which this job is neither cancelled nor deleted, its lookups succeed, the final phases of its workflow stay final and, if it is synchronous, no start request for it gets past the mkdir, its row only climbs created, queued, running, final, and a final row is never written differently again, whatever happens to other jobs and although poller and reconciler both write from stale reads |
| Confluence.RowCanFallIff | openeo_argoworkflows/api/openeo_argoworkflows_api/jobs.py:166-189 | After such a run, a step that disturbs the job in none of the first three ways opens the way to a fall of its row if and only if it lets a start request for a synchronous job past the mkdir |
| Confluence.FailedSyncJobRestarts | openeo_argoworkflows/api/openeo_argoworkflows_api/tasks.py:128-137 | A concrete run without cancels, deletes, failed lookups or phase changes in which a final row is rewritten: a synchronous job whose submission raised is started and queued again |
| Confluence.FinalRowIsVerdict | openeo_argoworkflows/api/openeo_argoworkflows_api/reconcile.py:67-99 | In a run that leaves the job undisturbed in that sense, a final row is finished without a message if its own workflow Succeeded, and in error if it Failed or Errored, out of memory exactly when some node message mentions that and failed otherwise; without a workflow it is the error of a failed submission |
| Confluence.RaceHasNoOutcome | openeo_argoworkflows/api/openeo_argoworkflows_api/reconcile.py:43-101 | Two runs that leave the job undisturbed in that sense, in whatever order poller and reconciler act, that see the same end of the same workflow end on the same row |
| Throttle.ThrottleBound | openeo_argoworkflows/api/openeo_argoworkflows_api/tasks.py:76-91 | With the Argo server set, a limit of at least 1, no workflow becoming running or pending that was neither, and every check that finds fewer than the limit running or pending made while at most b submissions are pending, running and pending workflows plus pending submissions never exceed limit + b + n, where n is the number of synchronous requests, which no check admits |
| Throttle.BoundAttained | openeo_argoworkflows/api/openeo_argoworkflows_api/tasks.py:76-91 | The bound is tight: for every limit of at least 1, every b and every n some such run with n synchronous requests has exactly limit + b + n workflows active |
| Jobs.DetectOom | openeo_argoworkflows/api/openeo_argoworkflows_api/tasks.py:147-154 | The scan answers true exactly when in some node message, from some position on, one of the two out-of-memory texts is spelled in any letter case |
| Backends.Backend.NothingIsLost | openeo_argoworkflows/api/openeo_argoworkflows_api/tasks.py:65-200 | What the invariant of the class, kept by every method, says: a queued job waits for its check or its submission, a running one for its poll, a batch job waits for one thing at a time and owns at most one workflow |
| Backends.Backend.CreateJob | openeo_argoworkflows/api/openeo_argoworkflows_api/jobs.py:124-136 | Creating a job adds a created batch row and keeps the invariant, and no task owes the new job anything and no workflow is its own |
| Backends.Backend.SyncJob | openeo_argoworkflows/api/openeo_argoworkflows_api/jobs.py:490-505 | A synchronous request adds a queued row and its submission, past the check; it is a run of the protocol and keeps the invariant |
| Backends.Backend.QueueToSubmit | openeo_argoworkflows/api/openeo_argoworkflows_api/tasks.py:65-91 | The check is put back exactly when the Argo server is set, Argo lists something and at least as many workflows as the limit are running or pending; otherwise the submission is enqueued; it is a run of the protocol's program points |
| Backends.Backend.StartJob | openeo_argoworkflows/api/openeo_argoworkflows_api/jobs.py:155-199 | Each response of the handler, with the rows, workspaces and tasks it leaves: 404 and 400 change nothing, a taken workspace gives 500 and changes nothing, otherwise the row is queued, the workspace made and the check or the submission enqueued as the pool says; each is a run of the protocol and keeps the invariant |
| Backends.Backend.SubmitJob | openeo_argoworkflows/api/openeo_argoworkflows_api/tasks.py:94-144 | Submission writes the row from the snapshot it was enqueued with, running with the workflow's name or error, and enqueues a poll only after success; the whole is a run of the protocol and keeps the invariant |
| Backends.Backend.PollJobStatus | openeo_argoworkflows/api/openeo_argoworkflows_api/tasks.py:157-200 | A poll of a deleted job ends, any other leaves what the lookup decides of the fresh row; the whole is a run of the protocol and keeps the invariant |
| Handlers.PolledIs | openeo_argoworkflows/api/openeo_argoworkflows_api/tasks.py:170-200 | A failed lookup ends the poll with error and not found, Succeeded with finished, Failed and Errored with error and out of memory exactly when some node message mentions that, and every other phase leaves the row and polls again |
| Backends.Backend.CancelJob | openeo_argoworkflows/api/openeo_argoworkflows_api/jobs.py:233-264 | Cancel refuses a row that is neither queued nor running, fails without effect when the stop request raises, and otherwise writes canceled; the whole is a run of the protocol and keeps the invariant |
| Backends.Backend.DeleteJob | openeo_argoworkflows/api/openeo_argoworkflows_api/jobs.py:201-231 | Deletion between handlers keeps the invariant, and in no run that follows, handlers interleaved in any way, does the row come back or a batch job get a second workflow |
| Backends.Backend.Reconcile | openeo_argoworkflows/api/openeo_argoworkflows_api/reconcile.py:43-101 | The loop over the current running rows leaves the state of the specification, keeps the invariant, and is the run of one reconciler: its query and then only its own steps |
| Backends.SweptIs | openeo_argoworkflows/api/openeo_argoworkflows_api/reconcile.py:57-101 | A reconciliation leaves every row that was not running, and of each running row what its lookup says: not found, finished, error with out of memory exactly when some node message mentions that, or the row as it was |
| Handlers.ReconciledIs | openeo_argoworkflows/api/openeo_argoworkflows_api/reconcile.py:57-101 | What one turn of the loop makes of a row for every lookup and phase, a row without a workflow included |
| Handlers.SweptRows | openeo_argoworkflows/api/openeo_argoworkflows_api/reconcile.py:57-101 | A reconciliation leaves every visited row as its lookup decided in the state at the start, and every other row and everything else as it was |
| Handlers.StaleCancelWins | openeo_argoworkflows/api/openeo_argoworkflows_api/jobs.py:236-262 | Whatever was written since a cancel read the row, the cancel writes back the row it read, canceled |
| Handlers.StaleSubmitWins | openeo_argoworkflows/api/openeo_argoworkflows_api/tasks.py:94-144 | Whatever was written since the job was enqueued, the submission writes back its snapshot, running on the new workflow |
| Handlers.StalePollWins | openeo_argoworkflows/api/openeo_argoworkflows_api/tasks.py:157-180 | Whatever was written since a poll read the row, a failed lookup writes back the row it read, in error |
| Handlers.StaleReconcileWins | openeo_argoworkflows/api/openeo_argoworkflows_api/reconcile.py:57-82 | Whatever was written since the query, a failed lookup writes back the row the query returned, in error |
| Tiling.StacGrid.SetGridCells | openeo_argoworkflows/executor/openeo_argoworkflows_executor/stac.py:81-120 | The nested loops yield the full grid: the least number of columns that reaches the geodesic distance from the upper left to the upper right corner and of rows that reaches the one to the lower left, in row-major order; each tile starts at its multiple of the size and ends a metre short of the next, the last one at the distance itself; each box spans the points the geodesic gives for the ends of its two ranges |
| Tiling.TilesBracket | openeo_argoworkflows/executor/openeo_argoworkflows_executor/stac.py:92-93 | The tile count is the least number of tiles that reach the end of the axis |
| Tiling.RaggedIsLast | openeo_argoworkflows/executor/openeo_argoworkflows_executor/stac.py:95-102 | Only the last tile can be ragged, and each tile starts at a multiple of the size |
| Tiling.SpansInOrder | openeo_argoworkflows/executor/openeo_argoworkflows_executor/stac.py:95-112 | Every tile has lo <= hi, lies in the extent, and ends strictly before the next begins |
| Tiling.WholeOffsetInOneSpan | openeo_argoworkflows/executor/openeo_argoworkflows_executor/stac.py:95-112 | Every whole-metre offset short of the end lies in exactly one tile of an axis, the one at offset / T |
| Tiling.CoveredIff | openeo_argoworkflows/executor/openeo_argoworkflows_executor/stac.py:95-112 | A real offset is covered if and only if it does not fall in the last metre of a full tile |
| Tiling.CoveredLength | openeo_argoworkflows/executor/openeo_argoworkflows_executor/stac.py:92-112 | The tiles of an axis of length d cover exactly d - n metres when T divides d and d - (n - 1) otherwise |
| Tiling.OffsetInOneCell | openeo_argoworkflows/executor/openeo_argoworkflows_executor/stac.py:95-118 | Every pair of whole-metre offsets inside the extent lies in exactly one cell of the grid |
| Tiling.CellsDisjoint | openeo_argoworkflows/executor/openeo_argoworkflows_executor/stac.py:95-118 | No pair of real offsets lies in two cells |
| Tiling.TotalArea | openeo_argoworkflows/executor/openeo_argoworkflows_executor/stac.py:95-118 | The areas of all cells add up to the product of what the two axes cover |
| Tiling.TilesInsideBox | openeo_argoworkflows/executor/openeo_argoworkflows_executor/stac.py:61-79 | On a projection where east and south are straight every cell's bounds lie inside the bounding box |
| Tiling.TilesApart | openeo_argoworkflows/executor/openeo_argoworkflows_executor/stac.py:61-79 | On such a projection no two cells' bounds touch |
| Graphs.ReadAfterWrite | openeo_argoworkflows/executor/openeo_argoworkflows_executor/utils.py:17-59 | Whenever the reader finds a box and the writer does not raise, the writer does rewrite a place and the reader then finds exactly the tile, for load nodes and for the fallback |
| Graphs.DeriveFrame | openeo_argoworkflows/executor/openeo_argoworkflows_executor/utils.py:37-59 | A derived graph equals the given one at every node and argument but the one place, which holds the tile |
| Graphs.DeriveTwice | openeo_argoworkflows/executor/openeo_argoworkflows_executor/utils.py:37-59 | Rewriting the same dictionary for one tile and then for another equals rewriting it for the other alone |
| Graphs.PlaceStays | openeo_argoworkflows/executor/openeo_argoworkflows_executor/utils.py:37-59 | The place that is rewritten is the same for every tile |
| Graphs.SamePlaceIff | openeo_argoworkflows/executor/openeo_argoworkflows_executor/utils.py:17-59 | The box that is read is the one that is rewritten if and only if the first load node has an extent or, without load nodes, the first dictionary under a box key has all four sides |
| Graphs.ReadsLoadExtent | openeo_argoworkflows/executor/openeo_argoworkflows_executor/utils.py:20-23 | The reader takes the spatial_extent of the first node whose process id has load_ in it and that has one: nothing when it is null, its four sides, or what it is when a side is missing |
| Graphs.ReadsBoxArgument | openeo_argoworkflows/executor/openeo_argoworkflows_executor/utils.py:26-32 | Without such a node it takes the first node with a box of four sides under bbox, or else under spatial_extent |
| Graphs.ReadsNothing | openeo_argoworkflows/executor/openeo_argoworkflows_executor/utils.py:34 | With neither it finds nothing |
| Graphs.WritesLoadExtent | openeo_argoworkflows/executor/openeo_argoworkflows_executor/utils.py:42-47 | The writer puts the tile under spatial_extent of the first node with load_ in its process id and changes nothing else, and raises exactly when that node has no arguments |
| Graphs.WritesDictArgument | openeo_argoworkflows/executor/openeo_argoworkflows_executor/utils.py:50-57 | Without such a node it puts the tile under the first bbox, or else spatial_extent, that holds a dictionary, and changes nothing else |
| Graphs.WritesNothing | openeo_argoworkflows/executor/openeo_argoworkflows_executor/utils.py:59 | With neither it changes nothing |
| Executor.ProcessGraph.DeriveSubGraph | openeo_argoworkflows/executor/openeo_argoworkflows_executor/utils.py:37-59 | The two scans, assigning into the shared dictionary, do what the specification says, and fail exactly when the first load node has no arguments |
| Executor.DeriveAll | openeo_argoworkflows/executor/openeo_argoworkflows_executor/executor.py:68-73 | Although every turn mutates the same dictionary, sub-graph i is the original graph rewritten for cell i alone; it raises exactly when there is a cell and the graph cannot be written |
| Executor.PrepareGraphs | openeo_argoworkflows/executor/openeo_argoworkflows_executor/executor.py:48-75 | No box, or a null extent, gives ValueError, an extent without four sides AttributeError, sides that are not numbers TypeError, an unwritable graph KeyError; otherwise there is one sub-graph for each cell of the full grid of 100 km tiles over the corners of the box |
| Executor.SubGraphReadsItsTile | openeo_argoworkflows/executor/openeo_argoworkflows_executor/executor.py:68-75 | The extent read from sub-graph i is cell i's bounds |
| Executor.SubGraphsTileTheExtent | openeo_argoworkflows/executor/openeo_argoworkflows_executor/executor.py:48-75 | On a straight projection the extents read from the sub-graphs lie inside the extent read from the original graph and no two of them meet |
| Stac.FindStacRoot | openeo_argoworkflows/executor/openeo_argoworkflows_executor/extra_processes/process_implementations/cwl.py:225-241 | The root found is the catalog.json, else the catalogue.json, else the collection.json at the top, or else that of the first directory, in sorted order, that has one; none is found only if there is none |
| Stac.StacDirectory.Restructure | openeo_argoworkflows/executor/openeo_argoworkflows_executor/extra_processes/process_implementations/cwl.py:478-525 | Copy, rename, move and re-link leave exactly the restructured tree, whatever order the directories are listed in; it raises if and only if a name it creates is taken by the wrong kind or an item in items/ cannot be read or walked |
| Stac.StacDirectory.MoveItems | openeo_argoworkflows/executor/openeo_argoworkflows_executor/extra_processes/process_implementations/cwl.py:494-507 | The move loop relocates all top-level items whatever the listing order |
| Stac.StacDirectory.LinkItems | openeo_argoworkflows/executor/openeo_argoworkflows_executor/extra_processes/process_implementations/cwl.py:509-525 | The re-linking loop rewrites every item file once, by the tree as a whole, whatever the listing order |
| Relocation.NoFileLostIff | openeo_argoworkflows/executor/openeo_argoworkflows_executor/extra_processes/process_implementations/cwl.py:489-507 | The restructured directory has as many files as the tool's output if and only if nothing else bears the job's name and no item in items/ bears the name of a top-level one |
| Relocation.RelocationRange | openeo_argoworkflows/executor/openeo_argoworkflows_executor/extra_processes/process_implementations/cwl.py:489-507 | The files of the restructured directory are exactly the relocated paths of the tool's files: root to the job's name, top-level items to items/, all others unmoved |
| Relocation.ItemsMoveIff | openeo_argoworkflows/executor/openeo_argoworkflows_executor/extra_processes/process_implementations/cwl.py:489-507 | A top-level file leaves the top for items/ if and only if it is a *.json other than the root and the job's name and a document whose type is Feature; every other file but the root keeps its path, and its content unless it is an item; the root gets the job's name |
| Relocation.ContentKept | openeo_argoworkflows/executor/openeo_argoworkflows_executor/extra_processes/process_implementations/cwl.py:489-525 | Without clashes every file of the tool lands at its relocated path with its content, item files with their links rewritten |
| Relocation.LinkFollowsFileIff | openeo_argoworkflows/executor/openeo_argoworkflows_executor/extra_processes/process_implementations/cwl.py:516-522 | A relative href that, followed from the directory of its item, named an unmoved file of the tool becomes an absolute path to that file if and only if it went by the top directory to a name that does not start with a dot, and the file there has its content; every href of a top-level item goes by the top directory, one of an item already in items/ only when it starts with a parent step |
| Relocation.LinkLeadsIff | openeo_argoworkflows/executor/openeo_argoworkflows_executor/extra_processes/process_implementations/cwl.py:516-522 | A relative href with parent steps anywhere, that led to an unmoved file of the tool, leads to it in the output if and only if what is left of it without leading dots and slashes leads there from the top; when no dot stands before its first name that is exactly when it goes by the top directory |
| Relocation.LinkLeadsToFile | openeo_argoworkflows/executor/openeo_argoworkflows_executor/extra_processes/process_implementations/cwl.py:516-522 | Such an href by the top directory to a name without a leading dot becomes the absolute path that spells its remaining steps out, and that path leads to the file |
| Relocation.SiblingLinkGoesAstray | openeo_argoworkflows/executor/openeo_argoworkflows_executor/extra_processes/process_implementations/cwl.py:519-522 | A family of links that come to name another file: ./name in an item of items/ becomes the path of the file of that name at the top |
| Relocation.HiddenLinkIsLost | openeo_argoworkflows/executor/openeo_argoworkflows_executor/extra_processes/process_implementations/cwl.py:519-522 | A family of links that are lost: .dir/file is looked for as dir/file and stays relative |
| Relocation.RelinkingIsIdempotent | openeo_argoworkflows/executor/openeo_argoworkflows_executor/extra_processes/process_implementations/cwl.py:509-525 | A second re-linking pass changes nothing |
| Paths.StripKeepsIff | openeo_argoworkflows/executor/openeo_argoworkflows_executor/extra_processes/process_implementations/cwl.py:519 | Stripping leading dots and slashes keeps the path a string names if and only if its first component does not start with a dot |
| Paths.StripClimbIff | openeo_argoworkflows/executor/openeo_argoworkflows_executor/extra_processes/process_implementations/cwl.py:519 | Of a path that first climbs one directory stripping keeps the rest if and only if the rest does not start with a dot |
| Paths.ComponentsOfAbsolute | openeo_argoworkflows/executor/openeo_argoworkflows_executor/extra_processes/process_implementations/cwl.py:521 | Printing an absolute path and reading it back gives the path |
| Paths.LastSegmentIs | openeo_argoworkflows/api/openeo_argoworkflows_api/jobs.py:434 | The last segment of a path is the whole of a string without a slash, or what follows the last one |
| Items.SetHrefsReads | openeo_argoworkflows/executor/openeo_argoworkflows_executor/extra_processes/process_implementations/cwl.py:515-525 | Hrefs written into an item are the hrefs read from it, and no other field of the item or of an asset changes |
| Items.HrefsAre | openeo_argoworkflows/executor/openeo_argoworkflows_executor/extra_processes/process_implementations/cwl.py:515-517 | The hrefs of an item are the href texts of the dictionaries under assets, empty where there is none |
| Delivery.ItemsDirectory.UploadStacItemAssets | openeo_argoworkflows/executor/openeo_argoworkflows_executor/extra_processes/process_implementations/s3.py:69-106 | Without configuration nothing happens; otherwise items, object store and count are those of the specification for every pattern of failed uploads, and it raises exactly when a listed item cannot be walked |
| Delivery.ItemsDirectory.UploadToS3 | openeo_argoworkflows/executor/openeo_argoworkflows_executor/extra_processes/process_implementations/s3.py:34-66 | A configured upload that succeeds stores the file under user/job/last segment of its path and returns s3://bucket/ and that key; any other returns the path and stores nothing |
| Delivered.SentIs | openeo_argoworkflows/executor/openeo_argoworkflows_executor/extra_processes/process_implementations/s3.py:86-106 | After the upload the href of an asset of a *.json that is not hidden is the URI of its file exactly when that was there and went up, and otherwise what it was |
| Delivered.OthersNotSent | openeo_argoworkflows/executor/openeo_argoworkflows_executor/extra_processes/process_implementations/s3.py:86 | A file that is no *.json, or is hidden, is left as it was |
| Delivered.FilesAre | openeo_argoworkflows/executor/openeo_argoworkflows_executor/extra_processes/process_implementations/s3.py:96 | An absolute path is looked up as it is and a name from the working directory, and a path with a slash at its end is no file |
| Delivered.DeliveredFromS3 | openeo_argoworkflows/api/openeo_argoworkflows_api/app.py:149-186 | When no uploaded name ends with another, the link of an uploaded asset, resolved by the proxy's search in any listing order and by the key split, gets the bytes of the local file the item named before the upload if and only if the API's own bucket is the one uploaded to, or holds those bytes under that key already |
| Delivered.DeliveredIff | openeo_argoworkflows/api/openeo_argoworkflows_api/app.py:149-186 | The link of an uploaded asset gets its bytes in every listing order if and only if in every item the first uploaded asset whose name ends with its name has a name under which the API's own bucket, after the pass and whichever bucket it is, holds those bytes |
| Delivered.UnsetBucketFindsNothing | openeo_argoworkflows/api/openeo_argoworkflows_api/s3.py:66-79 | A failing input: an API whose bucket is not set reads eo-public, and the link of an asset uploaded to any other bucket gets nothing |
| Delivered.FoundInEveryOrderIff | openeo_argoworkflows/api/openeo_argoworkflows_api/app.py:158-168 | In terms of names alone: the search finds the asset's own URI in every listing order if and only if in no item the first uploaded asset whose name ends with its name has another name |
| Delivered.ServedTheOther | openeo_argoworkflows/api/openeo_argoworkflows_api/app.py:158-168 | A family of failing inputs: two items with one file each, one name ending with the other as xa.tif and a.tif, where the link of the second gets the bytes of the first in one listing order, from an API that reads the bucket of the upload |
| Delivered.DeliveredLocally | openeo_argoworkflows/api/openeo_argoworkflows_api/jobs.py:429-448 | An asset whose upload failed is served from the workspace with the bytes of its file |
| Delivered.AssetDelivered | openeo_argoworkflows/api/openeo_argoworkflows_api/jobs.py:414-454 | The link made for an asset in the user's workspace gets the bytes of the file it named if and only if its upload failed or the API's own bucket holds them under its key |
| Delivered.AssetHandedOut | openeo_argoworkflows/api/openeo_argoworkflows_api/jobs.py:414-454 | When no other link has an asset's composite key, the link the table hands out under that key gets the bytes of the file the asset named before the upload if and only if that upload failed or the API's own bucket holds them |
| Delivered.TableDelivers | openeo_argoworkflows/api/openeo_argoworkflows_api/jobs.py:414-454 | For every key of the table handed out there is an asset of that key whose file its link gets if and only if the upload of that asset failed or the API's own bucket holds the file |
| Delivered.LocalLinkIff | openeo_argoworkflows/api/openeo_argoworkflows_api/files.py:74-89 | A local file's link leads back to that file if and only if the file lies in the user's workspace |
| Delivered.LinkIs | openeo_argoworkflows/api/openeo_argoworkflows_api/jobs.py:417-438 | The link of an s3:// href is the proxy for its last segment, that of a path below the user's directory the rest of the path, and any other the last segment |
| Delivered.TwoPassesAreOne | openeo_argoworkflows/executor/openeo_argoworkflows_executor/extra_processes/process_implementations/s3.py:86-106 | Two upload passes do what one does in which an upload succeeds when it does in either |
| Delivered.SecondPassRewritesNothing | openeo_argoworkflows/executor/openeo_argoworkflows_executor/extra_processes/process_implementations/s3.py:69-106 | After a pass in which every upload succeeded a second one rewrites, stores and counts nothing |
| Delivered.ObjectHoldsFile | openeo_argoworkflows/executor/openeo_argoworkflows_executor/extra_processes/process_implementations/s3.py:48-63 | Under the same condition on names the object of every uploaded asset holds the file it named, although uploads may overwrite each other |
| Delivered.KeyOfUri | openeo_argoworkflows/api/openeo_argoworkflows_api/s3.py:70-79 | Splitting an upload URI at its first slash recovers the key it was stored under; its bucket is not used |
| Results.GetResults | openeo_argoworkflows/api/openeo_argoworkflows_api/jobs.py:356-454 | A root that is no document of type Collection gives no table; one with assets of its own gives links to job/RESULTS/last segment; otherwise the nested loops hand out the link of every asset of every item |
| Results.EveryLinkHandedOutIff | openeo_argoworkflows/api/openeo_argoworkflows_api/jobs.py:449-454 | Every asset's link is handed out if and only if assets that share a composite key share a link |
| Results.HandedOutFrom | openeo_argoworkflows/api/openeo_argoworkflows_api/jobs.py:449-454 | Every link handed out is the link of some asset with its key |
| Results.TableKeys | openeo_argoworkflows/api/openeo_argoworkflows_api/jobs.py:449-454 | The keys of the table are exactly the item ids, each with an underscore and the key of one of the item's assets |
| Results.S3ProxyDownload | openeo_argoworkflows/api/openeo_argoworkflows_api/app.py:149-172 | The nested search with its breaks finds, in the first listed item that has one, the first asset whose href starts with s3:// and ends with the name; 404 means that no item has one |
| Results.RightInEveryOrderIff | openeo_argoworkflows/api/openeo_argoworkflows_api/app.py:158-168 | The search finds a given href in every order of the listing if and only if some item offers it first and no item offers another first |
| CwlResults.OnlyCollectionsAreHandedOut | openeo_argoworkflows/api/openeo_argoworkflows_api/jobs.py:356 | A table can be handed out for a restructured CWL output if and only if the root the tool wrote is a collection; the catalog that the root search prefers gives none |
| CwlResults.CwlAssetDelivered | openeo_argoworkflows/executor/openeo_argoworkflows_executor/extra_processes/process_implementations/cwl.py:478-541 | End to end: a file that a CWL tool wrote and linked by the top directory to a name without a leading dot is, after restructuring and an upload that may fail for any asset, what the asset's link gets if and only if that upload failed or the API's own bucket holds it; and when the tool's root is a collection without assets and no other link has the key, that link is the one handed out under it |
| Cwl.LoadCwlDoc | openeo_argoworkflows/executor/openeo_argoworkflows_executor/extra_processes/process_implementations/cwl.py:118-141 | The entry a document is described by is the first main, or else the first process, or else the first dictionary; non-mappings give the empty document and a $graph that cannot be iterated raises |
| Cwl.PackageIs | openeo_argoworkflows/executor/openeo_argoworkflows_executor/extra_processes/process_implementations/cwl.py:127-140 | Over the entries of a $graph list: the first with the id main after any number of #, else the first of the three classes, else the first dictionary, else nothing |
| Cwl.DescribedIsAddressedIff | openeo_argoworkflows/executor/openeo_argoworkflows_executor/extra_processes/process_implementations/cwl.py:36-65 | The process described is the one Calrissian is told to run if and only if the document is no package or, for a package, its text spells the key out and the first entry that looks like main is named main; the fallbacks describe what never runs |
| Cwl.Parse | openeo_argoworkflows/executor/openeo_argoworkflows_executor/extra_processes/process_implementations/cwl.py:157-194 | The table has exactly the names that count, each with what its last pair parses to, in the order of first occurrence |
| Cwl.TablesAre | openeo_argoworkflows/executor/openeo_argoworkflows_executor/extra_processes/process_implementations/cwl.py:157-194 | Over the document, for the last specification of each name in a mapping or a list of entries with ids: required exactly when its type neither ends in ? nor lists null and it has no default, optional otherwise, with its default, type, doc, shown name and symbols, in both tables alike |
| Cwl.NamesAre | openeo_argoworkflows/executor/openeo_argoworkflows_executor/extra_processes/process_implementations/cwl.py:166-194 | The names of the table are exactly the true names the document specifies |
| Cwl.TableFailsIff | openeo_argoworkflows/executor/openeo_argoworkflows_executor/extra_processes/process_implementations/cwl.py:166-194 | Building the table fails exactly when a specified name that counts is a list or a dictionary |
| Cwl.ParsersAgree | openeo_argoworkflows/api/openeo_argoworkflows_api/cwl_inputs.py:115-163 | On every document the two parsers both fail or give the same names in the same order with the same default, has_default, optional and required |
| Cwl.EnumNameIff | openeo_argoworkflows/api/openeo_argoworkflows_api/cwl_inputs.py:75-112 | An input with enum symbols, however deeply nested, is displayed as enum if and only if every union on the way has one member besides null |
| Cwl.TypeNameIs | openeo_argoworkflows/api/openeo_argoworkflows_api/cwl_inputs.py:96-112 | The shown name of a type: that of what a record or a union with one member besides null wraps, union, null, or the text without its trailing question marks |
| Cwl.SymbolsAre | openeo_argoworkflows/api/openeo_argoworkflows_api/cwl_inputs.py:75-93 | The symbols of a type: an enum record's, those of what a record wraps, or those of the first record of a union that has any |
| Cwl.AutoWire | openeo_argoworkflows/executor/openeo_argoworkflows_executor/extra_processes/process_implementations/cwl.py:197-213 | The loop fills declared inputs the user did not supply from the variables the environment has, in the caller's copy |
| Cwl.FilledIs | openeo_argoworkflows/executor/openeo_argoworkflows_executor/extra_processes/process_implementations/cwl.py:197-213 | Every value a job ends up with: the user's own, else the staged data as a File or Directory, else the value of OPENEO_JOB_ID or OPENEO_USER_ID for a declared job_id or user_id, and nothing else |
| Cwl.MissingIsWhatTheFormLeftOpen | openeo_argoworkflows/executor/openeo_argoworkflows_executor/extra_processes/process_implementations/cwl.py:197-222 | For every document, context, data argument and environment the executor's missing list is exactly the form's required inputs that were neither supplied nor fillable, which are the names whose last specification in the document asks for a value; no supplied value changes |
| Cwl.FormIsComplete | openeo_argoworkflows/api/openeo_argoworkflows_api/cwl_inputs.py:166-174 | A user who supplies every required input not flagged as filled leaves nothing missing, when the environment names job and user and the staged data is an absolute path |
| ByteRanges.MatchIsOrderedAndGreedy | openeo_argoworkflows/api/openeo_argoworkflows_api/files.py:62 | The scanner's head match is the regular expression's: the first alternative that matches at all, with the longest first word and then the longest second |
| ByteRanges.WordCharacters | openeo_argoworkflows/api/openeo_argoworkflows_api/files.py:62 | A word character is a letter of either case, a digit or an underscore |
| Text.IsIntIff | openeo_argoworkflows/api/openeo_argoworkflows_api/files.py:63 | int() takes word characters exactly when every group between underscores is a numeral |
| ByteRanges.HeaderRoundTrip | openeo_argoworkflows/api/openeo_argoworkflows_api/files.py:57-72 | Printing any list of ranges a-b with a < b and a- as a header and compiling it gives the list back |
| ByteRanges.SingleRangeIff | openeo_argoworkflows/api/openeo_argoworkflows_api/files.py:44-50 | A range a-b is accepted if and only if it has more than one byte |
| ByteRanges.SuffixReadsFromStart | openeo_argoworkflows/api/openeo_argoworkflows_api/files.py:37-42 | A suffix range -n is read as 0 to n, and -0 is refused |
| ByteRanges.IterFile | openeo_argoworkflows/api/openeo_argoworkflows_api/files.py:127-141 | The chunk loop streams the whole file, the rest from the seek position, or the one bounded read |
| ByteRanges.Download | openeo_argoworkflows/api/openeo_argoworkflows_api/files.py:190-221 | For every file and header the bytes streamed for a single compiled range are exactly file[start .. min(end + 1, size)), through clamping, unbounded read and chunk loop; a header without bytes= and one that does not compile raise, several ranges are refused |
| ByteRanges.ContentRangeExactIff | openeo_argoworkflows/api/openeo_argoworkflows_api/files.py:201-216 | The interval printed in the answer to a single range has as many positions as the answer has bytes if and only if an end inside the file was asked for or the start is one past the end of the file |
| SignedUrls.QueryToDict | openeo_argoworkflows/api/openeo_argoworkflows_api/auth.py:36-44 | The dictionary holds exactly the names of the parts, each with the value, up to another =, of its last part, and building it raises exactly when some part has no = |
| SignedUrls.SignedText | openeo_argoworkflows/api/openeo_argoworkflows_api/auth.py:86-131 | The signed URL of a plain path in full: the path, ?Expires=, &KeyName=, &UserId= and the fields, and &Signature= with the hash of all before it |
| SignedUrls.SignedTextAfter | openeo_argoworkflows/api/openeo_argoworkflows_api/auth.py:100-131 | A path that has a query is signed with the fields after an & instead |
| SignedUrls.FieldsRecovered | openeo_argoworkflows/api/openeo_argoworkflows_api/auth.py:86-131 | The query that signing appends parses back to the expiry, key name and user id that were signed |
| SignedUrls.SignedIsAcceptedExactly | openeo_argoworkflows/api/openeo_argoworkflows_api/auth.py:86-171 | With a hash that tells apart the text of the path and that of the path cut short, a signed plain path passes both splits of its query, at the first and at every question mark, and is accepted, for its user, if and only if its last segment has no ; |
| SignedUrls.SemicolonIsRefused | openeo_argoworkflows/api/openeo_argoworkflows_api/auth.py:148-171 | A concrete signed path, /f;v, that is refused by any hash that tells its text from that of /f |
| SignedUrls.SignedIsAccepted | openeo_argoworkflows/api/openeo_argoworkflows_api/auth.py:86-171 | Without a ; in the last segment every signed URL is accepted, whatever the hash |
| SignedUrls.AcceptedIsSigned | openeo_argoworkflows/api/openeo_argoworkflows_api/auth.py:148-171 | A target whose query parses is accepted if and only if that query is the signed query of its own path and fields |
| SignedUrls.AcceptedQueryIs | openeo_argoworkflows/api/openeo_argoworkflows_api/auth.py:148-171 | On a plain path without ; at its end a query that parses is accepted, for its user, exactly when it is its fields written out and the hash of the path with them |

## Left out

Assumptions of the job protocol:

- Writing a row that has been deleted does nothing; RQ loses no task and runs each once; listing
  workflows does not raise; creating a workflow is atomic and the new one is Pending; job ids are fresh;
  deletion of workspace and row is one step.
- A stop request has no effect of its own: Argo's answer to it is any later phase change.
- The lookup of a workflow that Argo has dropped, and one that raises, are told apart only by the reply.
- The wait loop of `process_sync_job` is in the protocol only by the rows that end it, and its download is
  not; synchronous jobs are there with their row, their submission, their polling and any start request, and
  outside the start-once results, since they make no workspace; that the executor may make one is a mkdir
  that raises.
- SyncWaits.CanceledEndsIff: a start request for the canceled job, which can rescue the wait, is excluded, and
  so is a deletion of the row, on which the loop raises, as an end; that outstanding handlers do run is not
  promised.
- The user a request comes from, titles, process graphs and other columns of a row.

Other parts:

- Text.Lower: lower case, word characters and digits are those of ASCII, not of Unicode.
- Tiling.TilesInsideBox: says nothing of an ellipsoid, on which parallels are not straight; the geodesic
  itself is two unspecified functions, and distances are reals, not floats.
- Graphs.ReadAfterWrite: the graph library is taken to copy what it parses and to list nodes in dictionary
  order; argument values that the library itself resolves are not modelled.
- Stac.StacDirectory.Restructure: a root that is a directory, symbolic links, and the formatting of the
  JSON that is written are not modelled; a file is its parsed document or bytes that do not parse; the
  STAC directory is given by an absolute path.
- Relocation.LinkLeadsIff: where an href that no longer leads to its file leads instead is said only for
  families.
- Stac.Walk: an href that leaves the STAC directory through a `..` in its middle names nothing.
- Delivery.ItemsDirectory.UploadStacItemAssets: an href that is a number or a non-empty container counts
  as absent; uploaded content is read from the disk as it was before the pass; two spellings of one path
  through `..` are two paths.
- Results.GetResults: that the STAC library reads documents of type Collection only is assumed of it; item
  files that cannot be read and an item without a text id are not modelled, nor are the signature and the
  origin of a link.
- Results.S3ProxyDownload: items that cannot be read and characters that a URL would escape are not
  modelled.
- Cwl.DescribedIsAddressedIff: that Calrissian takes #main for the entry whose id is main or #main is
  assumed of it; a document that does not parse never gets there.
- Cwl.LoadCwlDoc: keys of a YAML mapping that are not text are not modelled; in a table of inputs True and
  1 are two keys.
- SignedUrls.AcceptedIsSigned: a target with a fragment, which no request has.
- SignedUrls.SignedIsAcceptedExactly: the hash is any function from key name and text to text; a user id is
  canonical when its parser returns it; the local clock is UTC and every whole second has a date. The code
  does not compare the expiry with the clock, and nothing is said of it.
- ByteRanges.Download: a range whose start lies past the end streams nothing; the range of a `bytes=`
  header that is not at its start is read all the same, as in the code.
- HTTP routing, authentication of tokens, settings, migrations, workflow construction, Dask, Calrissian,
  CWL validation, loading and saving of collections, log retrieval, tar archives and media types: calls
  into code that is not here, or single branches.
- `_collect_calrissian_outputs` and the generation of STAC for outputs that have none: file copies and
  templates.
- `_resolve_udps`: the resolution itself belongs to a library that is not part of this model.
