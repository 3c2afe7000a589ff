# forester, modelled in Dafny

forester turns airborne laser-scanning point clouds into forest masks. The
repository has two parts, and this project models the core of both.

- **Batch scripts.** `preprocessing/preprocess.ts`, and its older siblings
  `preprocess.ts` and `forester.ts`, cover a country-sized extent:
  - they lay a grid over the union of the partition files' bounds and number
    the cells row by row;
  - they skip cells that already have a done file, or that no partition
    overlaps;
  - they queue one task per remaining cell on a bounded queue. Each task
    borrows a worker id from a shared pool and runs the external tools in a
    work directory: pdal filter, pdal render and copies, or lasmerge,
    whitebox and gdal.
- **On-demand server.** `server.ts` answers
  `GET /?classifications=…&mask=…&to-osm=…`:
  - it validates the request;
  - it checks the mask's area;
  - it crops the per-classification mosaics in parallel, combines them with
    `gdal_calc.py`, then filters, polygonises, generalises and tags the
    result;
  - it streams back GeoJSON, or OSM XML converted by `server/toOsm.ts`.

  It tracks every child process so that a crop failure or a cancelled
  download can kill what is still running.

## Modules

| file | module | contents |
|---|---|---|
| `wrappers.dfy` | `Wrappers` | `Option`, `Result` |
| `text.dfy` | `Text` | decimal printing, `padStart`, the zero-padded tile index and its round trip, `basename`, `resolve` |
| `spatial.dfy` | `Spatial` | bounding boxes, the `getFiles` overlap test, the bounds fold, the stepping grid and its numbering |
| `pipelines.dfy` | `Pipelines` | the pdal filter and render jobs of the three scripts, lasmerge's arguments, pdal exit statuses |
| `batch.dfy` | `Batch` | the task bodies as functions of stage outcomes; class `Scheduler`, which holds the worker pool, the queue, the file system and the run loop |
| `toosm.dfy` | `ToOsm` | the GeoJSON to OSM converter, as a method with its two counters, proved equal to a fold and shown to emit a well-formed document |
| `server.dfy` | `Server` | the handler; the `gdal_calc.py` arguments; the stage order of `process` as a function; class `RequestScope`, which holds `runCommand`, the crop fan-out and kill sweep, `process`, `pull` and `cancel` |

External processes and file-system calls are parameters: an `Outcomes`
record per tile (batch) or an `env` function per stage (server). Processes
are numbered in spawn order.

## Where the code differs from the intended design

The model follows the code in each of these places.

- **A failed request still gets 200 from the server.** The server streams a
  200 response before `process` runs. A failed stage or a rejected area
  therefore does not produce an error status: the stream's `pull` rejects
  instead (`Server.RequestScope.Pull`).
- **A filter failure is not caught inside the task.** In
  `preprocessing/preprocess.ts` and `preprocess.ts` only the render, copy
  and marker steps are inside the task's `try`. A pdal filter failure, or a
  failed `mkdir`, escapes the task (`TaskEnd.Escaped`). In `forester.ts`
  every error escapes. The promise returned by `queue.add` then rejects and
  nothing handles it, so Deno ends the whole script: the work directory is
  left behind, the cells after it are never visited, and the tasks still
  running stop partway.
- **The area gate also rejects unparsable areas.** An output with no
  parsable number, or with an area of zero, is rejected just like an area
  above the ceiling.
- **Cancel does not wait for the killed processes.** It sends SIGTERM and
  removes the work directory without waiting for the processes to exit.

## Model

| member | source | states |
|---|---|---|
| Text.NatToString | preprocessing/preprocess.ts:81 | `String(n)` is a non-empty string of decimal digits, one digit long exactly when n < 10 |
| Text.IntToString | server.ts:136 | an integer's notation is non-empty and starts with `-` exactly when the integer is negative |
| Text.ParseNatToString | preprocessing/preprocess.ts:81 | reading the decimal notation back gives the number again |
| Text.PadStart | preprocessing/preprocess.ts:81 | `padStart` keeps the string as a suffix, fills only in front, and reaches the width unless the string is already longer |
| Text.Pad5RoundTrip | preprocessing/preprocess.ts:81 | the zero-padded tile index in a marker name reads back as the index |
| Text.Pad5Injective | preprocessing/preprocess.ts:81 | distinct tile indices get distinct padded names |
| Text.Pad5Width | preprocessing/preprocess.ts:81 | every index below 100000 pads to exactly five digits |
| Text.StripTrailingSlashes | preprocessing/functions.ts:75 | removes exactly the run of trailing `/`, leaving a prefix that does not end in `/` |
| Text.AfterLastSlash | preprocessing/functions.ts:75 | the suffix after the last `/`, with no `/` in it, preceded by a `/` whenever it is not the whole path |
| Text.Basename | preprocessing/functions.ts:75 | the scratch file name taken from a partition path contains no separator |
| Text.ResolveCases | preprocessing/functions.ts:65 | an absolute path is kept as it is; a relative path is the base, a `/`, then the path; under an absolute base the result is absolute |
| Spatial.GetFiles | preprocessing/functions.ts:25-42 | `getFiles` never returns more names than there are partitions |
| Spatial.GetFilesAppend | preprocessing/functions.ts:26-39 | selecting over a concatenation concatenates the selections, so partition order is kept |
| Spatial.GetFilesSingle | preprocessing/functions.ts:27-39 | a partition's filename is returned exactly when both three-way axis tests pass |
| Spatial.GetFilesIsSubsequence | preprocessing/functions.ts:26-39 | the result is the partitions' filenames with some deleted, order kept |
| Spatial.GetFilesMembers | preprocessing/functions.ts:25-42 | a name is returned iff some partition with that name passes the test |
| Spatial.AxisSelectsIsOpenOverlap | preprocessing/functions.ts:31-36 | for a proper partition interval the three-clause test is exactly open overlap |
| Spatial.SelectsIsOpenOverlap | preprocessing/functions.ts:30-37 | for proper boxes `getFiles` selects exactly the partitions whose interior meets the tile |
| Spatial.UnionBoundsIsHull | preprocessing/preprocess.ts:18-34 | the bounds fold gives the infinities on an empty index; otherwise it gives a box containing every partition, each side attained by some partition |
| Spatial.GridStepCount | preprocessing/preprocess.ts:47-48 | stepping by `(hi - lo) / n` while below `hi` visits exactly n cells, computed on exact reals |
| Spatial.TileIndexBijective | preprocessing/preprocess.ts:47-49 | the `++i` numbering is a bijection from rows × columns onto 1..rows·cols, inverted by division and remainder |
| Spatial.TileInside | preprocessing/preprocess.ts:90 | every cell's box `[x, y, x + dx, y + dy]` lies inside the bounds |
| Spatial.StepEnd | preprocessing/preprocess.ts:47-48 | no cell reaches past the upper bound |
| Pipelines.RangeStages | preprocessing/functions.ts:67-76 | the range stage is kept exactly when `limits` is present and non-empty |
| Pipelines.FilterPipelineShape | preprocessing/functions.ts:62-76 | the filter job is the reader with the overridden SRS, the optional range, the crop to the tile and the scratch output, in that order |
| Pipelines.RenderReadsFilterOutputs | preprocessing/functions.ts:113-129 | render reads exactly the filter jobs' outputs, in file order, then writes one band per classification, each restricted to its class |
| Pipelines.Fin2FilterAlwaysRanged | preprocess.ts:205-219 | the older filter always keeps classes 3 to 9 and crops to the tile |
| Pipelines.ForesterFilterVegetation | forester.ts:212-227 | forester.ts filters to classes 4 and 5 and crops to the tile |
| Pipelines.LasmergeMergesFilterOutputs | forester.ts:238-258 | lasmerge gets `-i`, every filter output in order, then `-o merged.las` |
| Pipelines.PdalResult | preprocessing/functions.ts:84-88 | a pdal run is an error exactly when it did not succeed |
| Pipelines.FilterResult | preprocessing/functions.ts:55-90 | the filter fails iff some pdal process failed, and then with a failing process's message |
| ToOsm.NodesKeepRingPositions | server/toOsm.ts:9-15 | a ring's nodes are its positions without the closing one, with ids `-start`, `-start-1`, … |
| ToOsm.CoordinatesToWay | server/toOsm.ts:18-47 | a way has the given id, one ref per node plus the first again, so it is closed; the source tag comes first and `natural=wood` appears exactly for a simple polygon |
| ToOsm.WayRefsAreRingNodes | server/toOsm.ts:18-31 | a way's refs are its ring's node ids in order, and each ref names one of them |
| ToOsm.CreateRelation | server/toOsm.ts:50-81 | a multipolygon relation with the three tags; the outer way comes first, then hole k as way `outer - k` with role `inner` |
| ToOsm.GeojsonToOsmXml | server/toOsm.ts:84-141 | the `forEach` walk with its two counters yields the fold `Converted`, or the TypeError of a ring-less Polygon |
| ToOsm.PushPolygon | server/toOsm.ts:99-137 | one Polygon's callback, hole loop included, is one step of the fold |
| ToOsm.PushRingValid | server/toOsm.ts:100-118 | pushing a ring keeps node ids descending and below the counter, and ways numbered and closed |
| ToOsm.HolesValid | server/toOsm.ts:121-129 | the hole loop keeps the node and way invariants |
| ToOsm.HolesRefs | server/toOsm.ts:121-129 | after the hole loop every way ref still names an emitted node |
| ToOsm.HolesCount | server/toOsm.ts:121-129 | the hole loop adds one way per hole and `|hole| - 1` nodes per hole, and no relation |
| ToOsm.AppendRelationValid | server/toOsm.ts:131-133 | the relation of feature i has id `-1 - i`, keeps relation ids descending, and names emitted ways only |
| ToOsm.SingleRingStepValid | server/toOsm.ts:99-118 | a simple polygon keeps the document invariant |
| ToOsm.MultiRingStepValid | server/toOsm.ts:99-136 | a polygon with holes keeps the document invariant |
| ToOsm.FeatureStepValid | server/toOsm.ts:98-138 | every feature keeps the invariant the two counters maintain: node ids negative, strictly descending and above minus the node counter (not gap-free: the counter advances by a ring's length while the ring emits one node fewer), ways numbered `-1 - k` with no gaps and closed, relation ids strictly descending within `[-n, -1]` for n features, and relations naming emitted ways |
| ToOsm.ConvertValid | server/toOsm.ts:95-138 | after any number of features the invariant holds, and with proper rings every way ref names a node |
| ToOsm.ConvertedIsValid | server/toOsm.ts:84-141 | the conversion fails iff some Polygon has no ring; otherwise the document has version 0.6, distinct negative node ids, closed ways numbered -1, -2, …, relations that name emitted ways, and refs that name nodes when every ring has two positions |
| ToOsm.RelationMembersAreFeatureWays | server/toOsm.ts:107-133 | a Polygon's relation has the id `-1 - i` of its feature's position and lists that feature's own ways, outer first, then its holes in order |
| ToOsm.FeatureStepCounts | server/toOsm.ts:99-137 | one feature adds one way per ring, one relation if it has holes, and `|ring| - 1` nodes per ring |
| ToOsm.ConvertCounts | server/toOsm.ts:98-138 | the document has one way per ring, one relation per Polygon with holes, and the ring sizes minus one as nodes |
| Batch.Pool | preprocessing/preprocess.ts:43 | the pool starts as the sixteen ids 0 to 15 in order |
| Batch.DoneEntry | preprocessing/preprocess.ts:81-85 | a tile counts as done through an entry of its own index: the `done` marker in the pdal scripts, the final `fin/binary` raster in forester.ts |
| Batch.DoneEntryPath | preprocessing/preprocess.ts:81 | the done entry's name is `<target>/done-` or `fin/binary-`, the index padded to five digits that read back as the index, then nothing or `.tif` |
| Batch.DonePathsDistinct | preprocessing/preprocess.ts:81 | different tiles have different done-file names |
| Batch.CopiedOutputs | preprocessing/preprocess.ts:119-126 | a tile output exists for exactly the classifications whose copy did not fail |
| Batch.NewEntries | preprocessing/preprocess.ts:112-128 | a task creates only entries of its own tile, never a work directory |
| Batch.DoneEntryIffCompletes | preprocessing/preprocess.ts:112-128 | a task creates its done entry exactly when all its stages up to the marker succeeded, and never removes it |
| Batch.TaskFsFrame | preprocessing/preprocess.ts:103-139 | the work directory survives exactly when it was created and the task did not run to the end; other tiles and other work directories are untouched |
| Batch.MarkIffRendered | preprocessing/preprocess.ts:112-128 | the marker is attempted exactly when mkdir, filter and render succeeded |
| Batch.BeforeMark | preprocessing/preprocess.ts:112-126 | before the marker come the render and one copy per classification, never the marker itself |
| Batch.SucceededSteps | preprocessing/preprocess.ts:112-139 | a rendered task copies every classification, writes the marker, and removes the directory once the marker exists |
| Batch.MarkAfterCopies | preprocessing/preprocess.ts:117-128 | whenever the marker is written, the render and every copy come before it, whether or not a copy failed |
| Batch.RenameNeedsDsm | forester.ts:156-176 | the final rename happens iff merge succeeded, `dsm.tif` exists and both gdal steps succeeded; calculate runs iff merge succeeded and `dsm.tif` exists |
| Batch.AccountedSkip | preprocessing/preprocess.ts:81-96 | a skipped cell leaves the account of queued tiles unchanged |
| Batch.AccountedAdd | preprocessing/preprocess.ts:98-100 | a queued eligible cell joins the tiles in flight |
| Batch.FsAccountedStep | preprocessing/preprocess.ts:100-143 | an ended task adds exactly its tile's new entries to the file system account |
| Batch.RunAccount | preprocessing/preprocess.ts:47-145 | after the whole grid with nothing in flight: a tile ended iff eligible, each with its task's end, and done entries exist iff they existed before or the task completed |
| Batch.TileBoxAt | preprocessing/preprocess.ts:47-90 | cell (r, c) gets an index in range and the box of that index |
| Batch.EligibleNow | preprocessing/preprocess.ts:81-96 | a cell not yet reached has no ended task, so checking the current files selects exactly the eligible tiles |
| Batch.Scheduler.constructor | preprocessing/preprocess.ts:43-45 | a run starts with the full pool, an empty queue and the initial files |
| Batch.Scheduler.Start | preprocessing/preprocess.ts:101 | a started task takes the front id with `shift()`, and the pool keeps every id exactly once |
| Batch.Scheduler.Release | preprocessing/preprocess.ts:140-142 | the `finally` puts the task's id back in front, and the pool keeps every id exactly once |
| Batch.Scheduler.CopyTask | preprocessing/preprocess.ts:100-143 | the copy task body ends, touches the files and attempts stages as `TaskResult`, `TaskFs` and `TaskSteps` say |
| Batch.Scheduler.ForesterTask | forester.ts:107-182 | the forester task body does what `TaskResult`, `TaskFs` and `TaskSteps` say |
| Batch.Scheduler.RunTask | preprocessing/preprocess.ts:100-143 | the task body of the script's variant |
| Batch.Scheduler.Complete | preprocessing/preprocess.ts:100-143 | an ending task applies its body, returns its id, and the first waiting task starts with that id |
| Batch.Scheduler.Finish | preprocessing/preprocess.ts:103-139 | an ended task's effect on files, stages and ends is recorded |
| Batch.Scheduler.Handover | preprocessing/preprocess.ts:140-142 | the queue starts the next waiting task, if any, on the freed id |
| Batch.Scheduler.Submit | preprocessing/preprocess.ts:100 | `queue.add` starts at once when a slot is free, otherwise appends to the waiting line |
| Batch.Scheduler.CompleteOne | preprocessing/preprocess.ts:100-143 | one completion keeps the run's invariant and shrinks the work in flight |
| Batch.Scheduler.WaitForRoom | preprocessing/preprocess.ts:98 | `onSizeLessThan(concurrency)` returns with fewer than `concurrency` waiting, keeping the invariant |
| Batch.Scheduler.Drain | preprocessing/preprocess.ts:47-145 | the script ends with every queued task ended |
| Batch.Scheduler.Admit | preprocessing/preprocess.ts:81-96 | a cell is queued iff allowed, not done at the start and overlapped by a partition, with its box and its `getFiles` list |
| Batch.Scheduler.VisitTile | preprocessing/preprocess.ts:49-143 | visiting a cell extends the run's invariant by one cell |
| Batch.Scheduler.Enqueue | preprocessing/preprocess.ts:98-100 | an eligible tile waits for room and is added to the queue |
| Batch.Scheduler.VisitRow | preprocessing/preprocess.ts:48-144 | the inner loop visits one row's cells, numbering them consecutively |
| Batch.Scheduler.Walk | preprocessing/preprocess.ts:47-145 | the two loops visit every cell of the grid, and number rows × columns cells |
| Batch.Scheduler.Run | preprocessing/preprocess.ts:43-145 | the whole script ends with every worker id back in the pool; exactly the eligible tiles got a task, each ending as `TaskResult` says (a script that no escaped error ended early); files and done entries exist iff they existed before or their tile's task created them |
| Server.ContentType | server.ts:97-101 | the body is `application/xml` exactly when `to-osm` is set, otherwise `application/geo+json` |
| Server.Handle | server.ts:20-107 | 405 iff the method is not GET; 404 iff the path is wrong; 400 iff the mask is missing or empty or classifications are absent; 500 iff setup failed; otherwise a stream with the right content type |
| Server.RejectionBeforeSetup | server.ts:26-52 | a request turned away by validation never reaches the file system: the answer is the same 4xx either way |
| Server.Letter | server.ts:209 | `"ABCDEFGH".charAt(i)`: one letter for the first eight bands, the empty string after |
| Server.LettersDistinct | server.ts:208-216 | the first eight bands get distinct letters |
| Server.BandArgs | server.ts:208-211 | two arguments per classification |
| Server.BandArgsAt | server.ts:208-211 | band i contributes `-<letter i>` and `cut_<c_i>.tif` at positions 2i and 2i+1 |
| Server.Join | server.ts:214-216 | joining nothing gives the empty string, and joining one term gives that term |
| Server.JoinAppend | server.ts:214-216 | joining one more term puts the separator between it and the join of the earlier terms |
| Server.CalcExpressionAppend | server.ts:213-216 | each further classification adds ` \| (<letter> > 0)` to the expression, so a pixel is forest when any band has a point |
| Server.CalcArgsAt | server.ts:202-218 | gdal_calc's arguments are the two options, two per band, then the outfile, nodata and expression options |
| Server.CalcReadsCropOutputs | server.ts:171-218 | for each band gdal_calc reads exactly the file the matching crop writes, under the flag the expression's term tests; the expression is the last argument |
| Server.CommandResult | server.ts:135-139 | `runCommand` returns the output iff the process succeeded, and otherwise throws naming the program and its exit code |
| Server.Serial | server.ts:200-281 | awaiting stages in turn runs exactly those up to the first failure, and yields that failure or the last stage's output |
| Server.StagesAt | server.ts:142-310 | the stage list is the size check, one crop per classification, the chain, then the conversion when OSM output is asked for |
| Server.FinishPrefix | server.ts:200-310 | after the crops, the stages run are a prefix of the chain plus conversion, and `result.geojson` is written iff the conversion ran |
| Server.FinishSucceeds | server.ts:200-310 | after the crops, success is every remaining stage succeeding; the payload is then the last stage's output |
| Server.PipelinePrefix | server.ts:142-310 | what is spawned is a prefix of the full stage list, and `result.geojson` is written iff the conversion is spawned |
| Server.AllSucceed | server.ts:142-310 | every stage succeeds iff the size check, every crop and every later stage succeed |
| Server.PipelineSucceeds | server.ts:142-310 | `process` succeeds iff the area is admitted and every stage succeeds; then everything ran and the payload is the last output |
| Server.ProcessPrefix | server.ts:142-310 | `process` spawns its stages in fixed order (all crops together), and writes `result.geojson` iff it spawns the conversion |
| Server.FinishStops | server.ts:200-310 | after the crops, the first failing stage of the chain or the conversion throws its failure, and nothing after it is spawned |
| Server.PipelineStops | server.ts:142-310 | a failing size check or a rejected area throws before any crop is spawned, and only a rejected area throws `area too big`; a failing crop throws the first failing crop's error after every crop was spawned; after the crops, the first failing stage throws and is the last one spawned |
| Server.ProcessStopsAtFirstFailure | server.ts:142-310 | the same for `process`'s own stages: no gdalwarp runs unless the area is admitted, and the first failure aborts the rest |
| Server.ProcessSucceeds | server.ts:142-310 | `process` succeeds iff the area is admitted and every stage succeeds; the payload is then the tagged GeoJSON, or its OSM conversion |
| Server.CropResult | server.ts:170-198 | the crops fail with the first failing crop's error, and succeed iff every crop succeeds |
| Server.CropFailedAt | server.ts:170-198 | when crop i is the first failure, the crops still running are exactly those after it |
| Server.CropsSucceeded | server.ts:170-198 | when every crop succeeds, no crop is left running |
| Server.StillRunningCrops | server.ts:170-198 | only crops after the first are ever left running, and none are after success |
| Server.RequestScope.constructor | server.ts:49-64 | an accepted request starts with a work directory holding `mask.geojson`, no children and the heartbeat on |
| Server.RequestScope.Spawn | server.ts:120-127 | a spawned process gets a fresh number and is tracked |
| Server.RequestScope.Await | server.ts:129-139 | an awaited process is no longer tracked, and its result is `CommandResult` of its stage |
| Server.RequestScope.RunCommand | server.ts:115-140 | `runCommand` records the stage, leaves the tracking set as it was, and returns the command's result |
| Server.RequestScope.KillAll | server.ts:189-195 | every process in the set is sent SIGTERM, and a failing kill is ignored |
| Server.RequestScope.SpawnCrops | server.ts:171-187 | every crop is spawned and tracked in both sets before any is awaited |
| Server.RequestScope.AwaitCrop | server.ts:129-133 | an awaited crop leaves both tracking sets |
| Server.RequestScope.AwaitCrops | server.ts:171-187 | crops are awaited in order up to the first failure, which is returned; the crops after it remain in the extra set |
| Server.RequestScope.CropAll | server.ts:166-198 | the crops yield `CropResult`; on failure exactly the crops still running (`StillRunning`) are killed, and they are still tracked when `process` rethrows |
| Server.RequestScope.RunSerial | server.ts:200-281 | the chain runs stage by stage as `Serial` says, and leaves nothing tracked |
| Server.RequestScope.FinishCrops | server.ts:200-310 | after the crops the chain, the payload choice and the conversion do what `Finish` says |
| Server.RequestScope.Convert | server.ts:298-309 | the tagged GeoJSON is written to `result.geojson`, then `geojsontoosm` runs on it; its output is the payload iff it succeeds, else the failure names it and its exit code |
| Server.RequestScope.ProcessAdmitted | server.ts:166-310 | past the gate, `process` does what `Admitted` says; the crops it kills and leaves tracked are exactly `StillRunning`, those after the first failing crop, none on success |
| Server.RequestScope.Process | server.ts:109-311 | `process` returns what `ProcessSpec` says, spawns its stages, writes `result.geojson` iff the spec says so; the crops it kills and leaves tracked are exactly those still running after the first failing crop (`StillRunning`), none when the size check or the area gate stops it, none on success |
| Server.RequestScope.Pull | server.ts:66-78 | `pull` enqueues the payload only on success; it always closes the stream, clears the heartbeat and removes the work directory; it rejects with the removal's error first, else the message of the failure in `process`; the processes sent SIGTERM and left tracked are exactly the crops still running after the first failing crop, none on success |
| Server.RequestScope.Deliver | server.ts:68-77 | the `try`/`finally` around `process`: the payload is enqueued iff `process` succeeded; the stream is closed, the heartbeat cleared and the work directory gone unless its removal failed; the removal's error takes precedence over the failure of `process` |
| Server.RequestScope.Cancel | server.ts:80-94 | `cancel` clears the heartbeat, sends SIGTERM to every tracked child, removes the work directory and fails only if the removal fails |

## Left out

- Spatial.GetFiles: its own contract only bounds the length. Membership, order and the selection test are stated by `GetFilesMembers`, `GetFilesIsSubsequence` and `GetFilesSingle`.
- Text.Basename: its own contract only says that the result contains no separator. What the result is comes from `StripTrailingSlashes` and `AfterLastSlash`, whose contracts state it.
- Batch.Scheduler.Run: after a task ends `Escaped`, the model keeps walking the grid and draining the queue, while under Deno the unhandled rejection ends the script. Its promise that exactly the eligible tiles got a task, each ending as `TaskResult` says, therefore describes the script only for runs in which no task ends `Escaped`; for other runs it describes a script that survived the escape.
- Serialisation is not modelled. This covers `JSON.stringify` of the pdal jobs, the XML `stringify` in `server/toOsm.ts` (the model stops at the object tree) and JavaScript number printing in the crop bounds (`CropBounds` takes it as a parameter).
- Parsing is not modelled. `Number()` on the comma-split classifications is left out: the query holds numbers already. The regular expression that reads the area from ogrinfo's output is the `parseArea` parameter.
- `path.resolve` is modelled for an absolute base only. No `.`/`..` normalisation is done.
- A feature whose `geometry` is `null` (allowed by section 3.2 of RFC 7946) makes `feature.geometry.type` throw a TypeError in `server/toOsm.ts`. The model's `Geometry` has no null case. The input comes from ogr2ogr and jq, which emit a geometry for every feature.
- A `spawn()` that throws is not modelled, for example when the program is missing. The child is then never tracked, and the rejection carries Deno's own error rather than `<program> failed: <code>`. Every stage yields an `Outcome`.
- The killed crops are still tracked when `process` rethrows. Afterwards, each killed crop's `runCommand` resumes once its process exits and deletes it from `childProcesses`. That later deletion is not modelled, because it happens after `process` has returned.
- Concurrency is reduced to one fixed order:
  - `Promise.all` over the crops and the pdal filters is awaited in list order, and the first failure in list order is the one reported;
  - PQueue completion order is nondeterministic: `Complete` picks any running task;
  - a task's file effects are applied when it ends;
  - `cancel` running in the middle of `pull` is modelled as a separate call.
- Runtime behaviour around errors is not modelled. This covers Deno's handling of a rejection that escapes a queued task (recorded as `Escaped`), logging and `console` output, timing, and the heartbeat's enqueued spaces (only whether the interval is set is modelled).
- Grid coordinates are exact reals. Floating-point accumulation of `y += dy` and `x += dx` is not modelled.
- Some file-system failures are not modelled: writing `result.geojson` always succeeds, and the batch scripts' `Deno.remove` of an old work directory always succeeds (a failure there is ignored anyway). The work directory's contents during `process` are not tracked beyond `mask.geojson`.
- `util.ts` `assureSuccess` is the `Exit` outcome in `Pipelines.PdalResult` and the boolean outcomes in `Batch.Outcomes`. Its message `failed` is not modelled.
- `preprocessing/e.ts` and `getMetas` (reading the partition index file) are not part of this model. The partition index is an input.
- The crop error message goes through `Server.Message` like every other failure. `ProgramOf(Crop(c))` is `gdalwarp`.
- `"ABCDEFGH".charAt(i)` beyond the eighth band gives the empty string. This is modelled as written: a ninth classification gets the flag `-` and the term `( > 0)`.
- The eight straight-line chain awaits of `process` are `RequestScope.RunSerial` over the list `Chain`, recursive rather than unrolled.
- The server's startup is not modelled: reading the environment, the exit when `FORESTER_DATA_DIR_PATH` is missing, and `serve`. The data directory is a field of `RequestScope`.
