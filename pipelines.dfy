/**
 * The job descriptions the batch scripts hand to pdal and lasmerge: the
 * per-file filter pipeline, the render pipeline and the lasmerge argument
 * list, and how a pdal exit status becomes an error. The JSON
 * serialisation of the stage lists is not modelled: a stage list is a
 * sequence of stage values.
 */
module Pipelines {
  import opened Wrappers
  import opened Text
  import opened Spatial

  /** One element of the JSON array piped to `pdal pipeline -s`. */
  datatype PdalStage =
    | Reader(overrideSrs: string, filename: string)
    | RangeFilter(limits: string)
    | CropFilter(bounds: string)
      /** A bare file name; pdal infers a reader or writer from its extension. */
    | PathStage(path: string)
    | GdalWriter(resolution: real, filename: string, gdalopts: string,
                 outputType: string, dataType: string, where: string)

  /** Exit status of an external process: `success` and the numeric `code`. */
  datatype Exit = Exit(success: bool, code: int)

  const DataRoot := "/home/martin/14TB"
  const SourceSrs := "EPSG:8353"
  /** The default `limits` of `filter` in preprocessing/functions.ts, and the fixed one of preprocess.ts. */
  const GroundToWaterLimits := "Classification[3:9]"
  /** The fixed `limits` of forester.ts: medium and high vegetation. */
  const VegetationLimits := "Classification[4:5]"

  /** `([x0,x1],[y0,y1])`, each number printed by `num` (JavaScript number printing is not modelled). */
  function CropBounds(bbox: Box, num: real -> string): string {
    "([" + num(bbox.minx) + "," + num(bbox.maxx) + "],[" + num(bbox.miny) + "," + num(bbox.maxy) + "])"
  }

  /** Where a partition's filtered points go: `workdir + "/" + basename(file)`. */
  function ScratchPath(workdir: string, file: string): string {
    workdir + "/" + Basename(file)
  }

  /** `limits && {type: "filters.range", limits}` after the falsy entries are filtered out. */
  function RangeStages(limits: Option<string>): (r: seq<PdalStage>)
    ensures |r| == (if limits.Some? && limits.value != "" then 1 else 0)
  {
    if limits.Some? && limits.value != "" then [RangeFilter(limits.value)] else []
  }

  /** The filter job for one partition file; a missing or empty `limits` drops the range stage. */
  function FilterPipeline(workdir: string, file: string, bbox: Box, limits: Option<string>,
                          num: real -> string): seq<PdalStage>
  {
    [Reader(SourceSrs, Resolve(DataRoot, file))] + RangeStages(limits)
    + [CropFilter(CropBounds(bbox, num)), PathStage(ScratchPath(workdir, file))]
  }

  /** Indexing into `[a] + r + [c, d]`. */
  lemma Framed<T>(a: T, r: seq<T>, c: T, d: T)
    ensures var p := [a] + r + [c, d];
      && |p| == |r| + 3 && p[0] == a && (|r| >= 1 ==> p[1] == r[0])
      && p[|p| - 2] == c && p[|p| - 1] == d
  {
  }

  /**
   * Shape of the filter job: the reader with the overridden spatial
   * reference first, the range stage only for a non-empty `limits`, then the
   * crop to the tile and the scratch output.
   */
  lemma FilterPipelineShape(workdir: string, file: string, bbox: Box, limits: Option<string>,
                            num: real -> string)
    ensures var p := FilterPipeline(workdir, file, bbox, limits, num);
      && |p| == (if limits.Some? && limits.value != "" then 4 else 3)
      && p[0] == Reader(SourceSrs, Resolve(DataRoot, file))
      && (|p| == 4 ==> p[1] == RangeFilter(limits.value))
      && p[|p| - 2] == CropFilter(CropBounds(bbox, num))
      && p[|p| - 1] == PathStage(ScratchPath(workdir, file))
  {
    Framed(Reader(SourceSrs, Resolve(DataRoot, file)), RangeStages(limits),
           CropFilter(CropBounds(bbox, num)), PathStage(ScratchPath(workdir, file)));
  }

  /** The last stage of a filter job writes the scratch output. */
  lemma FilterWritesScratch(workdir: string, file: string, bbox: Box, limits: Option<string>,
                            num: real -> string)
    ensures var p := FilterPipeline(workdir, file, bbox, limits, num);
      |p| >= 3 && p[|p| - 1] == PathStage(ScratchPath(workdir, file))
  {
    Framed(Reader(SourceSrs, Resolve(DataRoot, file)), RangeStages(limits),
           CropFilter(CropBounds(bbox, num)), PathStage(ScratchPath(workdir, file)));
  }

  /** The scratch outputs of the filter jobs, one per partition file, in order. */
  function ScratchPaths(workdir: string, files: seq<string>): (paths: seq<string>)
    ensures |paths| == |files|
    ensures forall k :: 0 <= k < |files| ==> paths[k] == ScratchPath(workdir, files[k])
  {
    seq(|files|, k requires 0 <= k < |files| => ScratchPath(workdir, files[k]))
  }

  function InputStages(paths: seq<string>): (stages: seq<PdalStage>)
    ensures |stages| == |paths|
    ensures forall k :: 0 <= k < |paths| ==> stages[k] == PathStage(paths[k])
  {
    seq(|paths|, k requires 0 <= k < |paths| => PathStage(paths[k]))
  }

  /** `workdir/binary_<c>.tif`: the raster render writes for classification `c`, and the copy source. */
  function BandPath(workdir: string, c: int): string {
    workdir + "/binary_" + IntToString(c) + ".tif"
  }

  /** The rasterising writer for classification `c`. */
  function BandWriter(workdir: string, c: int): PdalStage {
    GdalWriter(0.5, BandPath(workdir, c), "COMPRESS=DEFLATE,PREDICTOR=2,ZLEVEL=5", "count", "uint16",
               "(Classification == " + IntToString(c) + ")")
  }

  function BandWriters(workdir: string, classifications: seq<int>): (stages: seq<PdalStage>)
    ensures |stages| == |classifications|
    ensures forall j :: 0 <= j < |classifications| ==> stages[j] == BandWriter(workdir, classifications[j])
  {
    seq(|classifications|, j requires 0 <= j < |classifications| => BandWriter(workdir, classifications[j]))
  }

  /** The render job: the filtered files as inputs, then one writer per classification. */
  function RenderPipeline(workdir: string, files: seq<string>, classifications: seq<int>): seq<PdalStage> {
    InputStages(ScratchPaths(workdir, files)) + BandWriters(workdir, classifications)
  }

  /**
   * Render reads exactly what the filter jobs wrote, in the order of the
   * files, and then writes one band per classification, in order, each
   * restricted to its classification; nothing else is in the list.
   */
  lemma RenderReadsFilterOutputs(workdir: string, files: seq<string>, classifications: seq<int>,
                                 bbox: Box, limits: Option<string>, num: real -> string)
    ensures var p := RenderPipeline(workdir, files, classifications);
      && |p| == |files| + |classifications|
      && (forall k :: 0 <= k < |files| ==>
            var f := FilterPipeline(workdir, files[k], bbox, limits, num);
            p[k] == f[|f| - 1])
      && (forall j :: 0 <= j < |classifications| ==>
            && p[|files| + j].GdalWriter?
            && p[|files| + j].filename == BandPath(workdir, classifications[j])
            && p[|files| + j].where == "(Classification == " + IntToString(classifications[j]) + ")")
  {
    var p := RenderPipeline(workdir, files, classifications);
    var inputs := InputStages(ScratchPaths(workdir, files));
    var writers := BandWriters(workdir, classifications);
    assert p == inputs + writers;
    forall k | 0 <= k < |files|
      ensures var f := FilterPipeline(workdir, files[k], bbox, limits, num); p[k] == f[|f| - 1]
    {
      assert p[k] == inputs[k] == PathStage(ScratchPath(workdir, files[k]));
      FilterWritesScratch(workdir, files[k], bbox, limits, num);
    }
    forall j | 0 <= j < |classifications|
      ensures p[|files| + j] == BandWriter(workdir, classifications[j])
    {
      assert p[|files| + j] == writers[j];
    }
  }

  /** preprocess.ts: the filter job with the fixed range `Classification[3:9]`. */
  function Fin2FilterPipeline(workdir: string, file: string, bbox: Box, num: real -> string): seq<PdalStage> {
    FilterPipeline(workdir, file, bbox, Some(GroundToWaterLimits), num)
  }

  /** preprocess.ts: the fixed classification list. */
  const Fin2Classifications: seq<int> := [3, 4, 5, 6, 9]

  /** preprocess.ts always keeps the range stage and always crops to the tile. */
  lemma Fin2FilterAlwaysRanged(workdir: string, file: string, bbox: Box, num: real -> string)
    ensures var p := Fin2FilterPipeline(workdir, file, bbox, num);
      |p| == 4 && p[1] == RangeFilter("Classification[3:9]") && p[2] == CropFilter(CropBounds(bbox, num))
  {
    FilterPipelineShape(workdir, file, bbox, Some(GroundToWaterLimits), num);
  }

  /** forester.ts: the filter job keeps only classes 4 and 5. */
  function ForesterFilterPipeline(workdir: string, file: string, bbox: Box, num: real -> string): seq<PdalStage> {
    FilterPipeline(workdir, file, bbox, Some(VegetationLimits), num)
  }

  lemma ForesterFilterVegetation(workdir: string, file: string, bbox: Box, num: real -> string)
    ensures var p := ForesterFilterPipeline(workdir, file, bbox, num);
      |p| == 4 && p[1] == RangeFilter("Classification[4:5]") && p[2] == CropFilter(CropBounds(bbox, num))
  {
    FilterPipelineShape(workdir, file, bbox, Some(VegetationLimits), num);
  }

  /** forester.ts `merge`: the argument list of lasmerge. */
  function LasmergeArgs(workdir: string, files: seq<string>): seq<string> {
    ["-i"] + ScratchPaths(workdir, files) + ["-o", workdir + "/merged.las"]
  }

  /** lasmerge gets `-i`, the filter outputs in order, then `-o` and the merged file. */
  lemma LasmergeMergesFilterOutputs(workdir: string, files: seq<string>, bbox: Box, num: real -> string)
    ensures var a := LasmergeArgs(workdir, files);
      && |a| == |files| + 3
      && a[0] == "-i" && a[|a| - 2] == "-o" && a[|a| - 1] == workdir + "/merged.las"
      && (forall k :: 0 <= k < |files| ==>
            var f := ForesterFilterPipeline(workdir, files[k], bbox, num);
            f[|f| - 1] == PathStage(a[k + 1]))
  {
    var a := LasmergeArgs(workdir, files);
    forall k | 0 <= k < |files|
      ensures var f := ForesterFilterPipeline(workdir, files[k], bbox, num); f[|f| - 1] == PathStage(a[k + 1])
    {
      FilterWritesScratch(workdir, files[k], bbox, Some(VegetationLimits), num);
    }
  }

  /** A pdal run that did not succeed raises `pdal failed: <code>`. */
  function PdalResult(e: Exit): (r: Result<(), string>)
    ensures r.Ok? <==> e.success
  {
    if e.success then Ok(()) else Err("pdal failed: " + IntToString(e.code))
  }

  /**
   * `filter`: one pdal process per file, awaited together. It fails exactly
   * when some process failed, with that process's message; which failing
   * process is reported depends on timing, and the model reports the first
   * in file order.
   */
  function FilterResult(exits: seq<Exit>): (r: Result<(), string>)
    ensures r.Ok? <==> forall k :: 0 <= k < |exits| ==> exits[k].success
    ensures r.Err? ==> exists k :: 0 <= k < |exits| && !exits[k].success && r == PdalResult(exits[k])
  {
    if exits == [] then Ok(())
    else if !exits[0].success then PdalResult(exits[0])
    else
      var rest := FilterResult(exits[1..]);
      assert rest.Err? ==> exists k :: 1 <= k < |exits| && !exits[k].success && rest == PdalResult(exits[k]) by {
        if rest.Err? {
          var k :| 0 <= k < |exits[1..]| && !exits[1..][k].success && rest == PdalResult(exits[1..][k]);
          assert exits[k + 1] == exits[1..][k];
        }
      }
      rest
  }
}
