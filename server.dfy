/**
 * The on-demand forest-mask server (server.ts): request validation and
 * the Content-Type choice, the area gate, the `gdal_calc.py` argument
 * builder, and the per-request scope that spawns the external tools in a
 * fixed order, tracks the live child processes, kills them on a crop
 * failure or a cancelled download, and removes the work directory.
 *
 * External processes are abstract: `env` gives the outcome of each
 * command (success, exit code, standard output). Processes are numbered
 * in spawn order.
 */
module Server {
  import opened Wrappers
  import opened Text

  // ---- the request handler -----------------------------------------------------------

  /** The query parameters the handler reads; `classifications` already split at commas and converted to numbers. */
  datatype Query = Query(classifications: Option<seq<int>>, mask: Option<string>, toOsm: Option<string>)

  datatype Request = Request(verb: string, path: string, query: Query)

  datatype Response =
    | Plain(status: int, body: string)
      /** The streamed body, produced by `pull` of a `RequestScope`. */
    | Streamed(contentType: string)

  /** `!!searchParams.get("to-osm")`: present and not the empty string. */
  predicate WantsOsm(q: Query) {
    q.toOsm.Some? && q.toOsm.value != ""
  }

  /** The body is OSM XML when `to-osm` is set, GeoJSON otherwise. */
  function ContentType(q: Query): (t: string)
    ensures t == "application/xml" <==> WantsOsm(q)
    ensures t != "application/xml" ==> t == "application/geo+json"
  {
    if WantsOsm(q) then "application/xml" else "application/geo+json"
  }

  /** `!mask || !classifications`: an empty mask is as bad as a missing one; any classifications value passes. */
  predicate ParamsValid(q: Query) {
    q.mask.Some? && q.mask.value != "" && q.classifications.Some?
  }

  /**
   * `handler`: the method check, then the path check, then the
   * parameters, all before any work directory is made; `setupOk` says
   * whether creating the work directory and writing `mask.geojson`
   * succeeded (a failure there is answered with 500).
   */
  function Handle(req: Request, setupOk: bool): (r: Response)
    ensures r == Plain(405, "method not allowed") <==> req.verb != "GET"
    ensures r == Plain(404, "not found") <==> req.verb == "GET" && req.path != "/"
    ensures r == Plain(400, "invalid params") <==> req.verb == "GET" && req.path == "/" && !ParamsValid(req.query)
    ensures r == Plain(500, "internal server error") <==>
      req.verb == "GET" && req.path == "/" && ParamsValid(req.query) && !setupOk
    ensures r.Streamed? <==> req.verb == "GET" && req.path == "/" && ParamsValid(req.query) && setupOk
    ensures r.Streamed? ==> r.contentType == ContentType(req.query)
  {
    if req.verb != "GET" then Plain(405, "method not allowed")
    else if req.path != "/" then Plain(404, "not found")
    else if !ParamsValid(req.query) then Plain(400, "invalid params")
    else if !setupOk then Plain(500, "internal server error")
    else Streamed(ContentType(req.query))
  }

  /** A request turned away by validation gets the same answer whatever the file system would have done. */
  lemma RejectionBeforeSetup(req: Request)
    requires !(req.verb == "GET" && req.path == "/" && ParamsValid(req.query))
    ensures Handle(req, true) == Handle(req, false)
    ensures Handle(req, true).Plain? && Handle(req, true).status in {400, 404, 405}
  {
  }

  // ---- the stages and their commands -------------------------------------------------

  /** The external programs `process` runs, one value per call site (a crop per classification). */
  datatype Stage =
    | SizeCheck
    | Crop(classification: int)
    | Calc
    | EditSrs
    | MajorityFilter
    | Polygonize
    | KeepForest
    | Generalize
    | ToGeojson
    | AddTags
    | ConvertToOsm

  /** A spawned external program: its name and its argument list. */
  datatype Command = Command(name: string, args: seq<string>)

  /** What an awaited child process reports. */
  datatype Outcome = Outcome(success: bool, code: int, stdout: seq<bv8>)

  /** `cut_<c>.tif`: what the crop of classification `c` writes, and what gdal_calc reads. */
  function CutFile(c: int): string {
    "cut_" + IntToString(c) + ".tif"
  }

  const BandLetters := "ABCDEFGH"

  /** `"ABCDEFGH".charAt(i)`: the band letter, or the empty string past the eighth band. */
  function Letter(i: nat): (s: string)
    ensures |s| == (if i < 8 then 1 else 0)
    ensures i < 8 ==> s[0] == BandLetters[i]
  {
    if i < |BandLetters| then [BandLetters[i]] else ""
  }

  /** The first eight bands get distinct letters. */
  lemma LettersDistinct(i: nat, j: nat)
    requires i < 8 && j < 8 && i != j
    ensures Letter(i) != Letter(j)
  {
    assert Letter(i)[0] == BandLetters[i] && Letter(j)[0] == BandLetters[j];
  }

  /** The input flags: `-<letter>` and the cut file, per classification, in order. */
  function BandArgs(cs: seq<int>): (r: seq<string>)
    ensures |r| == 2 * |cs|
  {
    if cs == [] then [] else BandArgs(cs[..|cs| - 1]) + ["-" + Letter(|cs| - 1), CutFile(cs[|cs| - 1])]
  }

  lemma {:induction false} BandArgsAt(cs: seq<int>, i: nat)
    requires i < |cs|
    ensures BandArgs(cs)[2 * i] == "-" + Letter(i) && BandArgs(cs)[2 * i + 1] == CutFile(cs[i])
  {
    if i < |cs| - 1 {
      BandArgsAt(cs[..|cs| - 1], i);
      assert BandArgs(cs)[..2 * (|cs| - 1)] == BandArgs(cs[..|cs| - 1]);
    }
  }

  /** `terms.join(sep)`. */
  function Join(terms: seq<string>, sep: string): (s: string)
    ensures terms == [] ==> s == ""
    ensures |terms| == 1 ==> s == terms[0]
  {
    if terms == [] then "" else if |terms| == 1 then terms[0] else Join(terms[..|terms| - 1], sep) + sep + terms[|terms| - 1]
  }

  /** Joining one more term puts the separator between it and the earlier ones. */
  lemma JoinAppend(terms: seq<string>, t: string, sep: string)
    requires terms != []
    ensures Join(terms + [t], sep) == Join(terms, sep) + sep + t
  {
    assert (terms + [t])[..|terms|] == terms;
  }

  /** Band `i`'s test: `(<letter> > 0)`. */
  function CalcTerm(i: nat): string {
    "(" + Letter(i) + " > 0)"
  }

  /** One term per band. */
  function CalcTerms(n: nat): (r: seq<string>)
    ensures |r| == n && forall i :: 0 <= i < n ==> r[i] == CalcTerm(i)
  {
    seq(n, i requires 0 <= i < n => CalcTerm(i))
  }

  /** A pixel is forest when any of the classification bands has a point. */
  function CalcExpression(cs: seq<int>): string {
    Join(CalcTerms(|cs|), " | ")
  }

  const CalcHead := ["--co=NUM_THREADS=ALL_CPUS", "--type=Byte"]

  function CalcArgs(cs: seq<int>): seq<string> {
    CalcHead + BandArgs(cs) + ["--outfile=binary.tif", "--NoDataValue=2", "--calc=\"" + CalcExpression(cs) + "\""]
  }

  /** The program each stage runs; it names the stage in error messages. */
  function ProgramOf(s: Stage): string {
    match s
    case SizeCheck => "ogrinfo"
    case Crop(_) => "gdalwarp"
    case Calc => "gdal_calc.py"
    case EditSrs => "gdal_edit.py"
    case MajorityFilter => "whitebox_tools"
    case Polygonize => "gdal_polygonize.py"
    case KeepForest => "ogr2ogr"
    case Generalize => "grass"
    case ToGeojson => "ogr2ogr"
    case AddTags => "jq"
    case ConvertToOsm => "geojsontoosm"
  }

  /** The arguments of each stage; all run in the work directory. */
  function ArgsOf(s: Stage, dataDir: string, scriptDir: string, cs: seq<int>): seq<string> {
    match s
    case SizeCheck => ["-q", "-dialect", "SQLite", "-sql",
      "SELECT SUM(ST_Area(st_transform(geometry, 8353))) AS area FROM mask", "mask.geojson"]
    case Crop(c) => ["-cutline", "mask.geojson", "-crop_to_cutline", dataDir + "/merged_" + IntToString(c) + ".vrt", CutFile(c)]
    case Calc => CalcArgs(cs)
    case EditSrs => ["-a_srs", "epsg:8353", "binary.tif"]
    case MajorityFilter => ["-r=MajorityFilter", "-v", "--wd=.", "-i=binary.tif", "-o=mf.tif", "--filter=19"]
    case Polygonize => ["mf.tif", "out.shp"]
    case KeepForest => ["-overwrite", "-a_srs", "epsg:8353", "-where", "\"DN\" = 1", "out8353.shp", "out.shp"]
    case Generalize => ["--tmp-location", "EPSG:8353", "--exec", "sh", scriptDir + "grass_batch_job.sh"]
    case ToGeojson => ["-overwrite", "-t_srs", "epsg:4326", "out.geojson", "generalized.gpkg"]
    case AddTags => [".features[].properties = {natural: \"wood\", source: \"ÚGKK SR LLS\"}", "out.geojson"]
    case ConvertToOsm => ["result.geojson"]
  }

  function CommandOf(s: Stage, dataDir: string, scriptDir: string, cs: seq<int>): Command {
    Command(ProgramOf(s), ArgsOf(s, dataDir, scriptDir, cs))
  }

  /** The layout of the gdal_calc argument list: head, one flag and file per band, then the three fixed options. */
  lemma CalcArgsAt(cs: seq<int>)
    ensures var a := CalcArgs(cs);
      && |a| == 2 * |cs| + 5
      && (forall i :: 0 <= i < |cs| ==> a[2 + 2 * i] == "-" + Letter(i) && a[3 + 2 * i] == CutFile(cs[i]))
      && a[|a| - 1] == "--calc=\"" + CalcExpression(cs) + "\""
  {
    var b := BandArgs(cs);
    var tail := ["--outfile=binary.tif", "--NoDataValue=2", "--calc=\"" + CalcExpression(cs) + "\""];
    Middle(CalcHead, b, tail);
    forall i | 0 <= i < |cs|
      ensures b[2 * i] == "-" + Letter(i) && b[2 * i + 1] == CutFile(cs[i])
    {
      BandArgsAt(cs, i);
    }
  }

  /** Indexing into `h + b + t`: the middle part starts at `|h|`, and the last element is `t`'s. */
  lemma Middle(h: seq<string>, b: seq<string>, t: seq<string>)
    requires t != []
    ensures var a := h + b + t;
      && |a| == |h| + |b| + |t|
      && (forall j :: 0 <= j < |b| ==> a[|h| + j] == b[j])
      && a[|a| - 1] == t[|t| - 1]
  {
  }

  /**
   * gdal_calc reads, for band `i`, exactly the file the crop of the
   * `i`-th classification writes, under the flag whose letter the
   * expression's `i`-th term tests; the expression is the last argument.
   */
  lemma CalcReadsCropOutputs(dataDir: string, scriptDir: string, cs: seq<int>)
    ensures var a := CommandOf(Calc, dataDir, scriptDir, cs).args;
      && |a| == 2 * |cs| + 5
      && (forall i :: 0 <= i < |cs| ==>
            && a[2 + 2 * i] == "-" + Letter(i)
            && a[3 + 2 * i] == CommandOf(Crop(cs[i]), dataDir, scriptDir, cs).args[4]
            && CalcTerms(|cs|)[i] == "(" + Letter(i) + " > 0)")
      && a[|a| - 1] == "--calc=\"" + CalcExpression(cs) + "\""
  {
    CalcArgsAt(cs);
    assert CommandOf(Calc, dataDir, scriptDir, cs).args == CalcArgs(cs);
    assert forall i :: 0 <= i < |cs| ==> CommandOf(Crop(cs[i]), dataDir, scriptDir, cs).args[4] == CutFile(cs[i]);
  }

  /** With one classification the expression is its single term. */
  lemma CalcExpressionSingle(c: int)
    ensures CalcExpression([c]) == "(A > 0)"
  {
    assert Letter(0) == "A";
  }

  /** Each further classification adds ` | (<letter> > 0)`: a pixel is forest when any band has a point. */
  lemma CalcExpressionAppend(cs: seq<int>, c: int)
    requires |cs| >= 1
    ensures CalcExpression(cs + [c]) == CalcExpression(cs) + " | " + CalcTerm(|cs|)
    ensures CalcTerm(|cs|) == "(" + Letter(|cs|) + " > 0)"
  {
    var n := |cs|;
    assert |cs + [c]| == n + 1;
    CalcTermsNext(n);
    JoinAppend(CalcTerms(n), CalcTerm(n), " | ");
  }

  lemma CalcTermsNext(n: nat)
    ensures CalcTerms(n + 1) == CalcTerms(n) + [CalcTerm(n)]
  {
    assert CalcTerms(n + 1)[..n] == CalcTerms(n);
  }

  /** Why `process` throws: a command's non-success exit, or the area gate. */
  datatype Failure = Failed(stage: Stage, code: int) | AreaTooBig

  /** The thrown error's message. */
  function Message(f: Failure): string {
    match f
    case Failed(s, code) => ProgramOf(s) + " failed: " + IntToString(code)
    case AreaTooBig => "area too big"
  }

  /** The result of `runCommand` once the process has ended. */
  function CommandResult(s: Stage, o: Outcome): (r: Result<Outcome, Failure>)
    ensures r.Ok? <==> o.success
    ensures r.Ok? ==> r.value == o
    ensures r.Err? ==> r.error == Failed(s, o.code)
  {
    if o.success then Ok(o) else Err(Failed(s, o.code))
  }

  const MaxArea: real := 800000000.0

  /**
   * `!area || area > 800_000_000` rejects: a missing number, zero and an
   * area above the ceiling. (A negative number would pass.)
   */
  predicate AreaAdmitted(area: Option<real>) {
    area.Some? && area.value != 0.0 && !(area.value > MaxArea)
  }

  function Crops(cs: seq<int>): (r: seq<Stage>)
    ensures |r| == |cs| && forall i :: 0 <= i < |cs| ==> r[i] == Crop(cs[i])
  {
    seq(|cs|, i requires 0 <= i < |cs| => Crop(cs[i]))
  }

  /** The stages after the crops, up to the tagging, in order. */
  const Chain := [Calc, EditSrs, MajorityFilter, Polygonize, KeepForest, Generalize, ToGeojson, AddTags]

  /** The stages of a run with the given crops and chain, in order. */
  function Stages(crops: seq<Stage>, chain: seq<Stage>, toOsm: bool): seq<Stage> {
    [SizeCheck] + crops + Rest(chain, toOsm)
  }

  /** The stages after the crops: the chain and, for OSM output, the conversion. */
  function Rest(chain: seq<Stage>, toOsm: bool): seq<Stage> {
    chain + (if toOsm then [ConvertToOsm] else [])
  }

  /** Every stage `process` may run, in order. */
  function AllStages(cs: seq<int>, toOsm: bool): seq<Stage> {
    Stages(Crops(cs), Chain, toOsm)
  }

  // ---- the specification of `process` ------------------------------------------------------

  /** The position of the first stage that fails, or `|stages|`. */
  function FirstFailure(stages: seq<Stage>, env: Stage -> Outcome): (k: nat)
    ensures k <= |stages|
    ensures forall j :: 0 <= j < k ==> env(stages[j]).success
    ensures k < |stages| ==> !env(stages[k]).success
  {
    if stages == [] then 0
    else if !env(stages[0]).success then 0
    else 1 + FirstFailure(stages[1..], env)
  }

  /** The first failure is the failing stage that all earlier ones passed. */
  lemma FirstFailureIs(stages: seq<Stage>, env: Stage -> Outcome, i: nat)
    requires i <= |stages| && forall j :: 0 <= j < i ==> env(stages[j]).success
    requires i < |stages| ==> !env(stages[i]).success
    ensures FirstFailure(stages, env) == i
  {
  }

  /**
   * Awaiting stages one after the other: the first failure aborts the
   * rest. It yields the last stage's outcome, or the first failure's
   * error, and the stages that were run, which are exactly those up to the
   * first failure.
   */
  function Serial(stages: seq<Stage>, env: Stage -> Outcome): (p: (Result<Outcome, Failure>, seq<Stage>))
    requires stages != []
    ensures var k := FirstFailure(stages, env);
      && p.1 == stages[..if k < |stages| then k + 1 else k]
      && (p.0.Ok? <==> k == |stages|)
      && (p.0.Ok? ==> p.0.value == env(stages[|stages| - 1]))
      && (p.0.Err? ==> p.0 == CommandResult(stages[k], env(stages[k])))
  {
    var o := env(stages[0]);
    if !o.success || |stages| == 1 then (CommandResult(stages[0], o), [stages[0]])
    else
      var rest := Serial(stages[1..], env);
      assert [stages[0]] + stages[1..][..|rest.1|] == stages[..|rest.1| + 1];
      (rest.0, [stages[0]] + rest.1)
  }

  /** What `process` does: its result, the stages it spawned, and whether it wrote `result.geojson`. */
  datatype Run = Run(result: Result<seq<bv8>, Failure>, spawned: seq<Stage>, wroteResult: bool)

  /**
   * What follows the crops: the chain, one stage after the other, and, for
   * OSM output, the write of `result.geojson` and the conversion.
   */
  function Finish(chain: seq<Stage>, toOsm: bool, env: Stage -> Outcome): Run
    requires chain != []
  {
    var (r, ran) := Serial(chain, env);
    if r.Err? then Run(Err(r.error), ran, false)
    else if !toOsm then Run(Ok(r.value.stdout), ran, false)
    else
      var o := env(ConvertToOsm);
      Run(if o.success then Ok(o.stdout) else Err(Failed(ConvertToOsm, o.code)),
          ran + [ConvertToOsm], true)
  }

  /**
   * Past the area gate: the crops, all spawned at once and awaited
   * together; then the rest.
   */
  function Admitted(crops: seq<Stage>, chain: seq<Stage>, toOsm: bool, env: Stage -> Outcome): Run
    requires chain != []
  {
    var k := FirstFailure(crops, env);
    if k < |crops| then Run(Err(Failed(crops[k], env(crops[k]).code)), crops, false)
    else
      var f := Finish(chain, toOsm, env);
      Run(f.result, crops + f.spawned, f.wroteResult)
  }

  /** The size check and the area gate, then the rest. */
  function Pipeline(crops: seq<Stage>, chain: seq<Stage>, toOsm: bool,
                    env: Stage -> Outcome, parseArea: seq<bv8> -> Option<real>): Run
    requires chain != []
  {
    var size := env(SizeCheck);
    if !size.success then Run(Err(Failed(SizeCheck, size.code)), [SizeCheck], false)
    else if !AreaAdmitted(parseArea(size.stdout)) then Run(Err(AreaTooBig), [SizeCheck], false)
    else
      var a := Admitted(crops, chain, toOsm, env);
      Run(a.result, [SizeCheck] + a.spawned, a.wroteResult)
  }

  function ProcessSpec(cs: seq<int>, toOsm: bool, env: Stage -> Outcome, parseArea: seq<bv8> -> Option<real>): Run {
    Pipeline(Crops(cs), Chain, toOsm, env, parseArea)
  }

  lemma StagesAt(crops: seq<Stage>, chain: seq<Stage>, toOsm: bool)
    ensures var all := Stages(crops, chain, toOsm);
      && |all| == 1 + |crops| + |chain| + (if toOsm then 1 else 0)
      && all[0] == SizeCheck
      && (forall i :: 0 <= i < |crops| ==> all[1 + i] == crops[i])
      && (forall j :: 0 <= j < |chain| ==> all[1 + |crops| + j] == chain[j])
      && (toOsm ==> all[|all| - 1] == ConvertToOsm)
  {
  }

  lemma PrefixOfAppend(a: seq<Stage>, b: seq<Stage>, n: nat)
    requires n <= |b|
    ensures (a + b)[..|a| + n] == a + b[..n]
  {
  }

  lemma FinishPrefix(chain: seq<Stage>, toOsm: bool, env: Stage -> Outcome)
    requires chain != [] && ConvertToOsm !in chain
    ensures var f := Finish(chain, toOsm, env);
      && f.spawned == Rest(chain, toOsm)[..|f.spawned|]
      && (f.wroteResult <==> toOsm && ConvertToOsm in f.spawned)
  {
    var (r, ran) := Serial(chain, env);
    var rest := Rest(chain, toOsm);
    assert ran == chain[..|ran|];
    assert rest[..|ran|] == chain[..|ran|];
    assert ConvertToOsm !in ran;
    if r.Ok? && toOsm {
      assert ran == chain;
    }
  }

  lemma FinishSucceeds(chain: seq<Stage>, toOsm: bool, env: Stage -> Outcome)
    requires chain != []
    ensures var f := Finish(chain, toOsm, env);
      var rest := Rest(chain, toOsm);
      && (f.result.Ok? <==> forall j :: 0 <= j < |rest| ==> env(rest[j]).success)
      && (f.result.Ok? ==> f.spawned == rest && f.result.value == env(rest[|rest| - 1]).stdout)
  {
    var rest := Rest(chain, toOsm);
    var m := FirstFailure(chain, env);
    if m < |chain| {
      assert !env(rest[m]).success;
    } else if toOsm {
      assert rest[|chain|] == ConvertToOsm;
    }
  }

  lemma PipelinePrefix(crops: seq<Stage>, chain: seq<Stage>, toOsm: bool,
                       env: Stage -> Outcome, parseArea: seq<bv8> -> Option<real>)
    requires chain != [] && ConvertToOsm !in crops && ConvertToOsm !in chain
    ensures var all := Stages(crops, chain, toOsm);
      var run := Pipeline(crops, chain, toOsm, env, parseArea);
      && run.spawned == all[..|run.spawned|]
      && (run.wroteResult <==> toOsm && ConvertToOsm in run.spawned)
  {
    var all := Stages(crops, chain, toOsm);
    var run := Pipeline(crops, chain, toOsm, env, parseArea);
    var size := env(SizeCheck);
    if !size.success || !AreaAdmitted(parseArea(size.stdout)) {
      assert run.spawned == all[..1];
    } else if FirstFailure(crops, env) < |crops| {
      PrefixOfAppend([SizeCheck] + crops, Rest(chain, toOsm), 0);
    } else {
      var f := Finish(chain, toOsm, env);
      FinishPrefix(chain, toOsm, env);
      PrefixOfAppend([SizeCheck] + crops, Rest(chain, toOsm), |f.spawned|);
      AppendAssoc([SizeCheck], crops, f.spawned);
    }
  }

  /** Every stage of `[SizeCheck] + crops + rest` succeeds iff every stage of each part does. */
  lemma AllSucceed(crops: seq<Stage>, rest: seq<Stage>, env: Stage -> Outcome)
    ensures var all := [SizeCheck] + crops + rest;
      (forall j :: 0 <= j < |all| ==> env(all[j]).success) <==>
        && env(SizeCheck).success
        && (forall i :: 0 <= i < |crops| ==> env(crops[i]).success)
        && (forall i :: 0 <= i < |rest| ==> env(rest[i]).success)
  {
    var all := [SizeCheck] + crops + rest;
    assert all[0] == SizeCheck;
    assert forall i :: 0 <= i < |crops| ==> all[1 + i] == crops[i];
    assert forall i :: 0 <= i < |rest| ==> all[1 + |crops| + i] == rest[i];
    if env(SizeCheck).success
       && (forall i :: 0 <= i < |crops| ==> env(crops[i]).success)
       && (forall i :: 0 <= i < |rest| ==> env(rest[i]).success)
    {
      forall j | 0 <= j < |all|
        ensures env(all[j]).success
      {
        if j == 0 {
        } else if j <= |crops| {
          assert all[j] == crops[j - 1];
        } else {
          assert all[j] == rest[j - 1 - |crops|];
        }
      }
    }
  }

  lemma PipelineSucceeds(crops: seq<Stage>, chain: seq<Stage>, toOsm: bool,
                         env: Stage -> Outcome, parseArea: seq<bv8> -> Option<real>)
    requires chain != []
    ensures var all := Stages(crops, chain, toOsm);
      var run := Pipeline(crops, chain, toOsm, env, parseArea);
      && (run.result.Ok? <==>
            && AreaAdmitted(parseArea(env(SizeCheck).stdout))
            && forall j :: 0 <= j < |all| ==> env(all[j]).success)
      && (run.result.Ok? ==> run.spawned == all && run.result.value == env(all[|all| - 1]).stdout)
  {
    var rest := Rest(chain, toOsm);
    var all := Stages(crops, chain, toOsm);
    assert all == [SizeCheck] + crops + rest;
    AllSucceed(crops, rest, env);
    var size := env(SizeCheck);
    if !size.success || !AreaAdmitted(parseArea(size.stdout)) {
    } else if FirstFailure(crops, env) < |crops| {
      var k := FirstFailure(crops, env);
      assert !env(crops[k]).success;
    } else {
      var f := Finish(chain, toOsm, env);
      FinishSucceeds(chain, toOsm, env);
      if f.result.Ok? {
        AppendAssoc([SizeCheck], crops, rest);
        assert all[|all| - 1] == rest[|rest| - 1];
      }
    }
  }

  /**
   * The stage order is fixed: what was spawned is a prefix of the full
   * list (all crops are spawned together), and `result.geojson` is
   * written exactly when the OSM conversion is spawned.
   */
  lemma ProcessPrefix(cs: seq<int>, toOsm: bool, env: Stage -> Outcome, parseArea: seq<bv8> -> Option<real>)
    ensures var all := AllStages(cs, toOsm);
      var run := ProcessSpec(cs, toOsm, env, parseArea);
      && run.spawned == all[..|run.spawned|]
      && (run.wroteResult <==> toOsm && ConvertToOsm in run.spawned)
  {
    PipelinePrefix(Crops(cs), Chain, toOsm, env, parseArea);
  }

  /** After the crops, the first failing stage throws, and nothing after it is spawned. */
  lemma FinishStops(chain: seq<Stage>, toOsm: bool, env: Stage -> Outcome)
    requires chain != []
    ensures var f := Finish(chain, toOsm, env);
      var rest := Rest(chain, toOsm);
      var j := FirstFailure(rest, env);
      && f.result != Err(AreaTooBig)
      && (j < |rest| ==> f.result == Err(Failed(rest[j], env(rest[j]).code)) && f.spawned == rest[..j + 1])
  {
    var rest := Rest(chain, toOsm);
    var m := FirstFailure(chain, env);
    if m < |chain| {
      assert rest[m] == chain[m];
      FirstFailureIs(rest, env, m);
      assert rest[..m + 1] == chain[..m + 1];
    } else if toOsm {
      assert rest == chain + [ConvertToOsm];
      if !env(ConvertToOsm).success {
        FirstFailureIs(rest, env, |chain|);
        assert rest[..|chain| + 1] == rest;
      } else {
        FirstFailureIs(rest, env, |rest|);
      }
    } else {
      FirstFailureIs(rest, env, |rest|);
    }
  }

  /**
   * Where the pipeline stops when it fails. A failing size check or a
   * rejected area throws before any crop is spawned, and only a rejected
   * area throws `AreaTooBig`; a failing crop throws after every crop was
   * spawned; after the crops, the first failing stage of the chain or the
   * conversion throws, and nothing after it is spawned.
   */
  lemma PipelineStops(crops: seq<Stage>, chain: seq<Stage>, toOsm: bool,
                      env: Stage -> Outcome, parseArea: seq<bv8> -> Option<real>)
    requires chain != []
    ensures var run := Pipeline(crops, chain, toOsm, env, parseArea);
      var size := env(SizeCheck);
      var admitted := size.success && AreaAdmitted(parseArea(size.stdout));
      var k := FirstFailure(crops, env);
      var rest := Rest(chain, toOsm);
      var j := FirstFailure(rest, env);
      && (run.result == Err(AreaTooBig) <==> size.success && !AreaAdmitted(parseArea(size.stdout)))
      && (!admitted ==> run.spawned == [SizeCheck] && run.result.Err? && !run.wroteResult)
      && (!size.success ==> run.result == Err(Failed(SizeCheck, size.code)))
      && (admitted && k < |crops| ==>
            && run.result == Err(Failed(crops[k], env(crops[k]).code))
            && run.spawned == [SizeCheck] + crops && !run.wroteResult)
      && (admitted && k == |crops| && j < |rest| ==>
            && run.result == Err(Failed(rest[j], env(rest[j]).code))
            && run.spawned == [SizeCheck] + crops + rest[..j + 1])
  {
    var size := env(SizeCheck);
    if size.success && AreaAdmitted(parseArea(size.stdout)) && FirstFailure(crops, env) == |crops| {
      var f := Finish(chain, toOsm, env);
      FinishStops(chain, toOsm, env);
      assert Pipeline(crops, chain, toOsm, env, parseArea) == Run(f.result, [SizeCheck] + (crops + f.spawned), f.wroteResult);
      AppendAssoc([SizeCheck], crops, f.spawned);
    }
  }

  /** `PipelineStops` for the stages of `process`: no gdalwarp runs unless the area is admitted. */
  lemma ProcessStopsAtFirstFailure(cs: seq<int>, toOsm: bool, env: Stage -> Outcome,
                                   parseArea: seq<bv8> -> Option<real>)
    ensures var run := ProcessSpec(cs, toOsm, env, parseArea);
      var size := env(SizeCheck);
      var admitted := size.success && AreaAdmitted(parseArea(size.stdout));
      var k := FirstFailure(Crops(cs), env);
      var rest := Rest(Chain, toOsm);
      var j := FirstFailure(rest, env);
      && (run.result == Err(AreaTooBig) <==> size.success && !AreaAdmitted(parseArea(size.stdout)))
      && (!admitted ==> run.spawned == [SizeCheck] && run.result.Err? && !run.wroteResult)
      && (!size.success ==> run.result == Err(Failed(SizeCheck, size.code)))
      && (admitted && k < |cs| ==>
            && run.result == Err(Failed(Crop(cs[k]), env(Crop(cs[k])).code))
            && run.spawned == [SizeCheck] + Crops(cs) && !run.wroteResult)
      && (admitted && k == |cs| && j < |rest| ==>
            && run.result == Err(Failed(rest[j], env(rest[j]).code))
            && run.spawned == [SizeCheck] + Crops(cs) + rest[..j + 1])
  {
    PipelineStops(Crops(cs), Chain, toOsm, env, parseArea);
  }

  /**
   * `process` succeeds exactly when the area is admitted and every stage
   * succeeds; then every stage ran, and the payload is the last stage's
   * output: the tagged GeoJSON, or its OSM conversion.
   */
  lemma ProcessSucceeds(cs: seq<int>, toOsm: bool, env: Stage -> Outcome, parseArea: seq<bv8> -> Option<real>)
    ensures var all := AllStages(cs, toOsm);
      var run := ProcessSpec(cs, toOsm, env, parseArea);
      && (run.result.Ok? <==>
            && AreaAdmitted(parseArea(env(SizeCheck).stdout))
            && forall j :: 0 <= j < |all| ==> env(all[j]).success)
      && (run.result.Ok? ==> run.spawned == all && run.result.value == env(all[|all| - 1]).stdout)
  {
    assert AllStages(cs, toOsm) == Stages(Crops(cs), Chain, toOsm);
    assert ProcessSpec(cs, toOsm, env, parseArea) == Pipeline(Crops(cs), Chain, toOsm, env, parseArea);
    PipelineSucceeds(Crops(cs), Chain, toOsm, env, parseArea);
  }

  // ---- the per-request scope ------------------------------------------------------------

  /** Process numbers `lo` up to but excluding `hi`. */
  function Pids(lo: nat, hi: nat): (ps: set<nat>)
    ensures forall p :: p in ps <==> lo <= p < hi
    decreases hi - lo
  {
    if lo >= hi then {} else {lo} + Pids(lo + 1, hi)
  }

  /** The crops' result: the first failing crop's error, if any. */
  function CropResult(cs: seq<int>, env: Stage -> Outcome): (r: Result<(), Failure>)
    ensures var k := FirstFailure(Crops(cs), env);
      && (r.Ok? <==> k == |cs|)
      && (r.Err? ==> r.error == Failed(Crop(cs[k]), env(Crop(cs[k])).code))
  {
    var k := FirstFailure(Crops(cs), env);
    if k < |cs| then Err(Failed(Crop(cs[k]), env(Crop(cs[k])).code)) else Ok(())
  }

  /** The crops still running when the first failure is seen: those after it, numbered from `base`. */
  function StillRunning(cs: seq<int>, env: Stage -> Outcome, base: nat): set<nat> {
    var k := FirstFailure(Crops(cs), env);
    if k < |cs| then Pids(base + k + 1, base + |cs|) else {}
  }

  lemma CropFailedAt(cs: seq<int>, env: Stage -> Outcome, base: nat, i: nat)
    requires i < |cs| && !env(Crop(cs[i])).success && forall j :: 0 <= j < i ==> env(Crops(cs)[j]).success
    ensures CropResult(cs, env) == Err(Failed(Crop(cs[i]), env(Crop(cs[i])).code))
    ensures StillRunning(cs, env, base) == Pids(base + i + 1, base + |cs|)
  {
    FirstFailureIs(Crops(cs), env, i);
  }

  lemma CropsSucceeded(cs: seq<int>, env: Stage -> Outcome, base: nat)
    requires forall j :: 0 <= j < |cs| ==> env(Crops(cs)[j]).success
    ensures CropResult(cs, env) == Ok(()) && StillRunning(cs, env, base) == {}
  {
    FirstFailureIs(Crops(cs), env, |cs|);
  }

  /** Only crops are left running: the pids after the failing crop, up to the last crop. */
  lemma StillRunningCrops(cs: seq<int>, env: Stage -> Outcome, base: nat)
    ensures forall p :: p in StillRunning(cs, env, base) ==> base < p < base + |cs|
    ensures CropResult(cs, env).Ok? ==> StillRunning(cs, env, base) == {}
  {
  }

  /** The crops' part of `Admitted`, stated by `CropResult`. */
  lemma AdmittedCases(cs: seq<int>, toOsm: bool, env: Stage -> Outcome)
    ensures var a := Admitted(Crops(cs), Chain, toOsm, env);
      var f := Finish(Chain, toOsm, env);
      && (CropResult(cs, env).Err? ==> a == Run(Err(CropResult(cs, env).error), Crops(cs), false))
      && (CropResult(cs, env).Ok? ==> a == Run(f.result, Crops(cs) + f.spawned, f.wroteResult))
  {
  }

  lemma AppendAssoc(a: seq<Stage>, b: seq<Stage>, c: seq<Stage>)
    ensures (a + b) + c == a + (b + c)
  {
  }

  lemma RemoveFromUnion(others: set<nat>, ex: set<nat>, p: nat)
    requires p !in others
    ensures (others + ex) - {p} == others + (ex - {p})
  {
  }

  lemma PidsShrink(lo: nat, hi: nat)
    requires lo < hi
    ensures Pids(lo, hi) - {lo} == Pids(lo + 1, hi)
  {
  }

  /**
   * What one accepted request owns: its work directory, the set of live
   * child processes, the stream's heartbeat, and the chunks enqueued on the
   * stream. Process `p` is the `p`-th spawned one, so `spawned[p]` is its
   * stage.
   */
  class RequestScope {
    /** `FORESTER_DATA_DIR_PATH`, where the per-classification mosaics live. */
    const dataDir: string
    /** The directory of the server script, where the grass job script lives. */
    const scriptDir: string
    /** `childProcesses`: the processes spawned and not yet awaited. */
    var childProcesses: set<nat>
    /** Every spawned process's stage, in spawn order. */
    var spawned: seq<Stage>
    /** The processes sent SIGTERM. */
    var killed: set<nat>
    var workdirExists: bool
    /** The names of the files in the work directory. */
    var files: set<string>
    /** Whether the interval that enqueues a space every 500 ms is set. */
    var heartbeat: bool
    var closed: bool
    /** What was enqueued on the stream besides the heartbeat. */
    var chunks: seq<seq<bv8>>

    ghost predicate Valid()
      reads this
    {
      forall p :: p in childProcesses ==> p < |spawned|
    }

    /**
     * The accepted request: the work directory is created with
     * `mask.geojson` in it, and the stream's `start` sets the heartbeat.
     */
    constructor(dataDir: string, scriptDir: string)
      ensures Valid()
      ensures this.dataDir == dataDir && this.scriptDir == scriptDir
      ensures childProcesses == {} && spawned == [] && killed == {}
      ensures workdirExists && files == {"mask.geojson"} && heartbeat && !closed && chunks == []
    {
      this.dataDir := dataDir;
      this.scriptDir := scriptDir;
      childProcesses := {};
      spawned := [];
      killed := {};
      workdirExists := true;
      files := {"mask.geojson"};
      heartbeat := true;
      closed := false;
      chunks := [];
    }

    /** The first half of `runCommand`: spawn, and track the child. */
    method Spawn(s: Stage) returns (pid: nat)
      requires Valid()
      modifies this`spawned, this`childProcesses
      ensures Valid()
      ensures pid == |old(spawned)| && pid !in old(childProcesses)
      ensures spawned == old(spawned) + [s] && childProcesses == old(childProcesses) + {pid}
    {
      pid := |spawned|;
      spawned := spawned + [s];
      childProcesses := childProcesses + {pid};
    }

    /** The second half: await the output, stop tracking the child, and raise on failure. */
    method Await(pid: nat, env: Stage -> Outcome) returns (r: Result<Outcome, Failure>)
      requires Valid() && pid < |spawned|
      modifies this`childProcesses
      ensures Valid()
      ensures childProcesses == old(childProcesses) - {pid}
      ensures r == CommandResult(spawned[pid], env(spawned[pid]))
    {
      childProcesses := childProcesses - {pid};
      r := CommandResult(spawned[pid], env(spawned[pid]));
    }

    /** `runCommand` without the extra set: the tracking set is back to what it was. */
    method RunCommand(s: Stage, env: Stage -> Outcome) returns (r: Result<Outcome, Failure>)
      requires Valid()
      modifies this`spawned, this`childProcesses
      ensures Valid()
      ensures spawned == old(spawned) + [s] && childProcesses == old(childProcesses)
      ensures r == CommandResult(s, env(s))
    {
      var pid := Spawn(s);
      r := Await(pid, env);
    }

    /** SIGTERM to each process of `ps`; a failing kill is ignored. */
    method KillAll(ps: set<nat>)
      modifies this`killed
      ensures killed == old(killed) + ps
    {
      var rest := ps;
      while rest != {}
        invariant rest <= ps && killed == old(killed) + (ps - rest)
        decreases |rest|
      {
        var p :| p in rest;
        killed := killed + {p};
        rest := rest - {p};
      }
    }

    /**
     * The crops: `classifications.map(runCommand)` spawns every crop (each
     * also tracked in the extra set) before any output is awaited; then
     * `Promise.all` awaits them, here in list order. On the first failure
     * every crop still in the extra set is killed and the error rethrown;
     * those crops are still running, so they are still tracked when
     * `process` rethrows.
     */
    method CropAll(cs: seq<int>, env: Stage -> Outcome) returns (r: Result<(), Failure>, ghost live: set<nat>)
      requires Valid()
      modifies this`spawned, this`childProcesses, this`killed
      ensures Valid()
      ensures spawned == old(spawned) + Crops(cs)
      ensures r == CropResult(cs, env) && live == StillRunning(cs, env, |old(spawned)|)
      ensures childProcesses == old(childProcesses) + live && killed == old(killed) + live
    {
      var base := |spawned|;
      var ex := SpawnCrops(cs);
      ghost var k;
      r, ex, k := AwaitCrops(Crops(cs), env, base, ex);
      if k < |cs| {
        CropFailedAt(cs, env, base, k);
      } else {
        CropsSucceeded(cs, env, base);
      }
      live := ex;
      if r.Err? {
        KillAll(ex);
      }
    }

    /** The `map`: every crop spawned and tracked in both sets, nothing awaited yet. */
    method SpawnCrops(cs: seq<int>) returns (ex: set<nat>)
      requires Valid()
      modifies this`spawned, this`childProcesses
      ensures Valid()
      ensures spawned == old(spawned) + Crops(cs)
      ensures ex == Pids(|old(spawned)|, |spawned|) && childProcesses == old(childProcesses) + ex
      ensures old(childProcesses) !! ex
    {
      var crops := Crops(cs);
      var base := |spawned|;
      ex := {};
      var i := 0;
      while i < |crops|
        invariant 0 <= i <= |crops| && Valid()
        invariant spawned == old(spawned) + crops[..i]
        invariant ex == Pids(base, base + i) && childProcesses == old(childProcesses) + ex
      {
        var pid := Spawn(crops[i]);
        ex := ex + {pid};
        assert crops[..i + 1] == crops[..i] + [crops[i]];
        i := i + 1;
      }
      assert crops[..i] == crops;
    }

    /**
     * The `Promise.all`: await the last `|crops|` processes in order,
     * dropping each from the extra set, and stop at the first failure, at
     * index `k`; `ex` is what is left in the extra set, the crops still
     * running.
     */
    method AwaitCrops(crops: seq<Stage>, env: Stage -> Outcome, base: nat, ex0: set<nat>)
      returns (r: Result<(), Failure>, ex: set<nat>, ghost k: nat)
      requires Valid() && |spawned| == base + |crops| && spawned[base..] == crops
      requires ex0 == Pids(base, |spawned|) && ex0 <= childProcesses
      modifies this`childProcesses
      ensures Valid()
      ensures k <= |crops| && forall j :: 0 <= j < k ==> env(crops[j]).success
      ensures k < |crops| ==> !env(crops[k]).success && r == Err(Failed(crops[k], env(crops[k]).code))
      ensures k == |crops| ==> r == Ok(())
      ensures ex == Pids(base + k + 1, |spawned|)
      ensures childProcesses == old(childProcesses) - ex0 + ex
    {
      ex := ex0;
      ghost var others := childProcesses - ex0;
      var i := 0;
      while i < |crops|
        invariant 0 <= i <= |crops| && Valid()
        invariant ex == Pids(base + i, |spawned|) && others !! ex && childProcesses == others + ex
        invariant forall j :: 0 <= j < i ==> env(crops[j]).success
      {
        assert spawned[base + i] == crops[i];
        var o;
        o, ex := AwaitCrop(base + i, env, others, ex);
        if o.Err? {
          return Err(o.error), ex, i;
        }
        i := i + 1;
      }
      r, k := Ok(()), i;
    }

    /** One crop awaited: it leaves both sets. */
    method AwaitCrop(pid: nat, env: Stage -> Outcome, ghost others: set<nat>, ex: set<nat>)
      returns (r: Result<Outcome, Failure>, rest: set<nat>)
      requires Valid() && pid < |spawned|
      requires ex == Pids(pid, |spawned|) && others !! ex && childProcesses == others + ex
      modifies this`childProcesses
      ensures Valid()
      ensures rest == Pids(pid + 1, |spawned|) && others !! rest && childProcesses == others + rest
      ensures r == CommandResult(spawned[pid], env(spawned[pid]))
    {
      r := Await(pid, env);
      PidsShrink(pid, |spawned|);
      RemoveFromUnion(others, ex, pid);
      rest := ex - {pid};
    }

    /**
     * The eight chain stages, each awaited before the next is spawned: the
     * first failure is rethrown and nothing after it runs.
     */
    method RunSerial(stages: seq<Stage>, env: Stage -> Outcome) returns (r: Result<Outcome, Failure>)
      requires Valid() && stages != []
      modifies this`spawned, this`childProcesses
      ensures Valid() && childProcesses == old(childProcesses)
      ensures r == Serial(stages, env).0 && spawned == old(spawned) + Serial(stages, env).1
      decreases |stages|
    {
      r := RunCommand(stages[0], env);
      if r.Ok? && |stages| > 1 {
        ghost var tail := Serial(stages[1..], env);
        assert Serial(stages, env) == (tail.0, [stages[0]] + tail.1);
        r := RunSerial(stages[1..], env);
        AppendAssoc(old(spawned), [stages[0]], tail.1);
      } else {
        assert Serial(stages, env) == (CommandResult(stages[0], env(stages[0])), [stages[0]]);
      }
    }

    /**
     * `process`: the size check and the area gate, the crops, the chain and,
     * for OSM output, the write of `result.geojson` and the conversion. It
     * does what `ProcessSpec` says; the crops killed after a crop failure
     * (`live`) are the only processes it leaves tracked.
     */
    method Process(cs: seq<int>, toOsm: bool, env: Stage -> Outcome, parseArea: seq<bv8> -> Option<real>)
      returns (r: Result<seq<bv8>, Failure>, ghost live: set<nat>)
      requires Valid()
      modifies this`spawned, this`childProcesses, this`killed, this`files
      ensures Valid()
      ensures var run := ProcessSpec(cs, toOsm, env, parseArea);
        && r == run.result
        && spawned == old(spawned) + run.spawned
        && files == (if run.wroteResult then old(files) + {"result.geojson"} else old(files))
      ensures childProcesses == old(childProcesses) + live && killed == old(killed) + live
      ensures r.Ok? ==> live == {}
      ensures forall p :: p in live ==> |old(spawned)| < p < |spawned| && spawned[p].Crop?
      ensures var size := env(SizeCheck);
        live == (if size.success && AreaAdmitted(parseArea(size.stdout))
                 then StillRunning(cs, env, |old(spawned)| + 1) else {})
    {
      live := {};
      var size := RunCommand(SizeCheck, env);
      if size.Err? {
        return Err(size.error), live;
      }
      if !AreaAdmitted(parseArea(size.value.stdout)) {
        return Err(AreaTooBig), live;
      }
      ghost var s1 := spawned;
      r, live := ProcessAdmitted(cs, toOsm, env);
      AppendAssoc(old(spawned), [SizeCheck], spawned[|s1|..]);
    }

    /** `process` past the area gate: the crops, then the rest. */
    method ProcessAdmitted(cs: seq<int>, toOsm: bool, env: Stage -> Outcome)
      returns (r: Result<seq<bv8>, Failure>, ghost live: set<nat>)
      requires Valid()
      modifies this`spawned, this`childProcesses, this`killed, this`files
      ensures Valid()
      ensures var a := Admitted(Crops(cs), Chain, toOsm, env);
        && r == a.result
        && spawned == old(spawned) + a.spawned
        && files == (if a.wroteResult then old(files) + {"result.geojson"} else old(files))
      ensures childProcesses == old(childProcesses) + live && killed == old(killed) + live
      ensures r.Ok? ==> live == {}
      ensures forall p :: p in live ==> |old(spawned)| <= p < |old(spawned)| + |cs| && spawned[p].Crop?
      ensures live == StillRunning(cs, env, |old(spawned)|)
    {
      var base := |spawned|;
      AdmittedCases(cs, toOsm, env);
      var c;
      c, live := CropAll(cs, env);
      StillRunningCrops(cs, env, base);
      if c.Err? {
        assert Admitted(Crops(cs), Chain, toOsm, env) == Run(Err(c.error), Crops(cs), false);
        forall p | p in live
          ensures spawned[p].Crop?
        {
          assert spawned[p] == Crops(cs)[p - base];
        }
        return Err(c.error), live;
      }
      ghost var f := Finish(Chain, toOsm, env);
      r := FinishCrops(toOsm, env);
      AppendAssoc(old(spawned), Crops(cs), f.spawned);
    }

    /** Everything after the crops succeeded. */
    method FinishCrops(toOsm: bool, env: Stage -> Outcome) returns (r: Result<seq<bv8>, Failure>)
      requires Valid()
      modifies this`spawned, this`childProcesses, this`files
      ensures Valid() && childProcesses == old(childProcesses)
      ensures var f := Finish(Chain, toOsm, env);
        && r == f.result
        && spawned == old(spawned) + f.spawned
        && files == (if f.wroteResult then old(files) + {"result.geojson"} else old(files))
    {
      ghost var ran := Serial(Chain, env).1;
      var t := RunSerial(Chain, env);
      if t.Err? {
        assert Finish(Chain, toOsm, env) == Run(Err(t.error), ran, false);
        return Err(t.error);
      }
      if !toOsm {
        assert Finish(Chain, toOsm, env) == Run(Ok(t.value.stdout), ran, false);
        return Ok(t.value.stdout);
      }
      r := Convert(env);
      AppendAssoc(old(spawned), ran, [ConvertToOsm]);
      assert Finish(Chain, toOsm, env) == Run(r, ran + [ConvertToOsm], true);
    }

    /** For OSM output: write the tagged GeoJSON to `result.geojson`, then convert it. */
    method Convert(env: Stage -> Outcome) returns (r: Result<seq<bv8>, Failure>)
      requires Valid()
      modifies this`spawned, this`childProcesses, this`files
      ensures Valid() && childProcesses == old(childProcesses)
      ensures spawned == old(spawned) + [ConvertToOsm] && files == old(files) + {"result.geojson"}
      ensures r.Ok? <==> env(ConvertToOsm).success
      ensures r.Ok? ==> r.value == env(ConvertToOsm).stdout
      ensures r.Err? ==> r.error == Failed(ConvertToOsm, env(ConvertToOsm).code)
    {
      files := files + {"result.geojson"};
      var o := RunCommand(ConvertToOsm, env);
      r := if o.Ok? then Ok(o.value.stdout) else Err(o.error);
    }

    /**
     * The stream's `pull`: enqueue what `process` returns; then, whatever
     * happened, close the stream, clear the heartbeat and remove the work
     * directory. The rejection is the removal's error if that failed, else
     * the error of `process`.
     */
    method Pull(cs: seq<int>, toOsm: bool, env: Stage -> Outcome, parseArea: seq<bv8> -> Option<real>,
                removal: Result<(), string>)
      returns (r: Result<(), string>, ghost live: set<nat>)
      requires Valid()
      modifies this`spawned, this`childProcesses, this`killed, this`files, this`chunks, this`closed, this`heartbeat,
               this`workdirExists
      ensures Valid()
      ensures var run := ProcessSpec(cs, toOsm, env, parseArea);
        && chunks == old(chunks) + (if run.result.Ok? then [run.result.value] else [])
        && spawned == old(spawned) + run.spawned
        && (r.Ok? <==> run.result.Ok? && removal.Ok?)
        && (removal.Err? ==> r == removal)
        && (removal.Ok? && run.result.Err? ==> r == Err(Message(run.result.error)))
      ensures closed && !heartbeat
      ensures workdirExists == (old(workdirExists) && removal.Err?)
      ensures removal.Ok? ==> files == {}
      ensures childProcesses == old(childProcesses) + live && killed == old(killed) + live
      ensures r.Ok? ==> live == {}
      ensures var size := env(SizeCheck);
        live == (if size.success && AreaAdmitted(parseArea(size.stdout))
                 then StillRunning(cs, env, |old(spawned)| + 1) else {})
    {
      var p;
      p, live := Process(cs, toOsm, env, parseArea);
      r := Deliver(p, removal);
    }

    /**
     * The body of `pull` around `process`: enqueue its payload, and in the
     * `finally` close the stream, clear the heartbeat and remove the work
     * directory; a failing removal replaces the error of `process`.
     */
    method Deliver(p: Result<seq<bv8>, Failure>, removal: Result<(), string>) returns (r: Result<(), string>)
      modifies this`chunks, this`closed, this`heartbeat, this`workdirExists, this`files
      ensures chunks == old(chunks) + (if p.Ok? then [p.value] else [])
      ensures closed && !heartbeat
      ensures workdirExists == (old(workdirExists) && removal.Err?)
      ensures files == (if removal.Ok? then {} else old(files))
      ensures r.Ok? <==> p.Ok? && removal.Ok?
      ensures removal.Err? ==> r == removal
      ensures removal.Ok? && p.Err? ==> r == Err(Message(p.error))
    {
      if p.Ok? {
        chunks := chunks + [p.value];
      }
      closed := true;
      heartbeat := false;
      if removal.Ok? {
        workdirExists := false;
        files := {};
      }
      if removal.Err? {
        r := removal;
      } else if p.Err? {
        r := Err(Message(p.error));
      } else {
        r := Ok(());
      }
    }

    /**
     * The stream's `cancel`: clear the heartbeat, send SIGTERM to every
     * tracked child process, and remove the work directory.
     */
    method Cancel(removal: Result<(), string>) returns (r: Result<(), string>)
      modifies this`heartbeat, this`killed, this`workdirExists, this`files
      ensures !heartbeat && killed == old(killed) + childProcesses
      ensures workdirExists == (old(workdirExists) && removal.Err?)
      ensures removal.Ok? ==> files == {}
      ensures r == removal
    {
      heartbeat := false;
      KillAll(childProcesses);
      if removal.Ok? {
        workdirExists := false;
        files := {};
      }
      r := removal;
    }
  }
}
