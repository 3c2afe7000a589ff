/**
 * The resumable batch tile scheduler, in the three versions the repository
 * keeps: preprocessing/preprocess.ts (`Current`), preprocess.ts (`Fin2`) and
 * forester.ts (`Forester`). Each walks a grid over the union of the
 * partition bounds, numbers the cells from 1 in row-major order, skips the
 * cells that are already done or that no partition overlaps, and queues a
 * task per remaining cell on a queue of bounded concurrency. A task borrows
 * a worker id from a shared pool with `shift()`, works in `work<id>`, and
 * gives the id back with `unshift()` in a `finally` block.
 *
 * The external stages (mkdir, pdal, lasmerge, whitebox, gdal, copy, create,
 * rename, remove) are abstract outcomes supplied per tile. The filesystem is
 * the set of entries that exist; `EntryPath` gives each entry its name.
 * `DonePathsDistinct` shows that distinct tiles have distinct done-entry
 * names, so the done check, which looks a name up, tells tiles apart; the
 * names of the other entries are not shown to be distinct.
 */
module Batch {
  import opened Wrappers
  import opened Text
  import opened Spatial

  datatype Variant = Current | Fin2 | Forester

  /** Every script has sixteen worker ids, 0 to 15. */
  const PoolSize: nat := 16

  /** The starting `workers` array: `[0, 1, ..., 15]`. */
  function Pool(): (p: seq<int>)
    ensures |p| == PoolSize && forall k :: 0 <= k < PoolSize ==> p[k] == k
  {
    seq(PoolSize, k requires 0 <= k < PoolSize => k)
  }

  /** The queue's `concurrency`: 16, 16 and 3. */
  function Concurrency(v: Variant): nat {
    if v == Forester then 3 else 16
  }

  /** Number of grid rows (the `dy` divisor) and columns (the `dx` divisor). */
  function Rows(v: Variant): nat {
    if v == Forester then 100 else 80
  }

  function Cols(v: Variant): nat {
    if v == Forester then 100 else 160
  }

  function TargetDir(v: Variant): string {
    if v == Fin2 then "fin2" else "fin"
  }

  /** The classifications rendered and copied by `Current` and `Fin2`. */
  const Classifications: seq<int> := [3, 4, 5, 6, 9]

  /** forester.ts only processes these tile indices. */
  const AllowList: set<nat> := {
    4158, 4341, 4441, 4442, 4443, 4532, 4541, 4542, 4543, 4642, 4742, 4835,
    4842, 4934, 4936, 5459, 5460, 5461, 5643, 5843, 7045, 7132, 7232, 7233,
    7248, 7332, 7333, 7334, 7435, 7436, 7536, 7552, 7837, 8139, 8140, 8455,
    8556, 8648, 9154, 9255, 9256, 9357, 9358 }

  predicate Allowed(v: Variant, index: nat) {
    v != Forester || index in AllowList
  }

  // ---- the filesystem ----------------------------------------------------------------

  /** A file or directory the scripts look for or create. */
  datatype Entry =
    | Marker(index: nat)            // <target>/done-NNNNN
    | Output(c: int, index: nat)    // <target>/binary_<c>-NNNNN.tif
    | Final(index: nat)             // fin/binary-NNNNN.tif (forester.ts)
    | Workdir(id: int)              // work<id>

  function EntryPath(v: Variant, e: Entry): string {
    match e
    case Marker(j) => TargetDir(v) + "/done-" + Pad5(j)
    case Output(c, j) => TargetDir(v) + "/binary_" + IntToString(c) + "-" + Pad5(j) + ".tif"
    case Final(j) => "fin/binary-" + Pad5(j) + ".tif"
    case Workdir(id) => "work" + IntToString(id)
  }

  /**
   * The entry whose existence makes a tile count as done: the marker for
   * the pdal scripts, the final raster for forester.ts.
   */
  function DoneEntry(v: Variant, index: nat): (e: Entry)
    ensures !e.Workdir? && !e.Output? && e.index == index
    ensures v == Forester <==> e == Final(index)
    ensures v != Forester ==> e == Marker(index)
  {
    if v == Forester then Final(index) else Marker(index)
  }

  /**
   * The done entry's name is a fixed prefix, the index padded to five
   * digits, and a fixed suffix; the padded part reads back as the index.
   */
  lemma DoneEntryPath(v: Variant, i: nat)
    requires i < 100000
    ensures var pre := if v == Forester then "fin/binary-" else TargetDir(v) + "/done-";
      var suf := if v == Forester then ".tif" else "";
      && EntryPath(v, DoneEntry(v, i)) == pre + Pad5(i) + suf
      && |Pad5(i)| == 5 && (forall k :: 0 <= k < 5 ==> IsDigit(Pad5(i)[k]))
      && ParseDigits(Pad5(i)) == i
  {
    if v == Forester {
      assert EntryPath(v, DoneEntry(v, i)) == "fin/binary-" + Pad5(i) + ".tif";
    } else {
      assert EntryPath(v, DoneEntry(v, i)) + "" == TargetDir(v) + "/done-" + Pad5(i) + "";
    }
    Pad5Width(i);
    Pad5RoundTrip(i);
  }

  lemma PrefixCancel(p: string, a: string, b: string, s: string)
    requires p + a + s == p + b + s
    ensures a == b
  {
    assert |a| == |b|;
    assert a == (p + a + s)[|p|..|p| + |a|];
    assert b == (p + b + s)[|p|..|p| + |b|];
  }

  /** Different tiles have different done-entry names, so a name check tells tiles apart. */
  lemma DonePathsDistinct(v: Variant, i: nat, j: nat)
    requires i != j
    ensures EntryPath(v, DoneEntry(v, i)) != EntryPath(v, DoneEntry(v, j))
  {
    if EntryPath(v, DoneEntry(v, i)) == EntryPath(v, DoneEntry(v, j)) {
      if v == Forester {
        PrefixCancel("fin/binary-", Pad5(i), Pad5(j), ".tif");
      } else {
        PrefixCancel(TargetDir(v) + "/done-", Pad5(i), Pad5(j), "");
      }
      Pad5Injective(i, j);
    }
  }

  // ---- one task ----------------------------------------------------------------------

  /** What each external stage of one tile's task does. */
  datatype Outcomes = Outcomes(
    mkdirOk: bool,        // Deno.mkdir(workdir)
    filterOk: bool,       // every pdal filter process succeeds
    renderOk: bool,       // the pdal render process succeeds (not consulted by forester.ts)
    copyFails: set<int>,  // classifications whose copy fails (failures are swallowed)
    markerOk: bool,       // Deno.create(doneFile)
    mergeOk: bool,        // lasmerge (forester.ts)
    dsmProduced: bool,    // whitebox left dsm.tif behind (forester.ts)
    calcOk: bool,         // gdal_calc.py (forester.ts)
    editOk: bool,         // gdal_edit.py (forester.ts)
    renameOk: bool,       // Deno.rename to the final file (forester.ts)
    removeOk: bool)       // the final Deno.remove(workdir)

  /**
   * How a task ends: it ran to the end, it caught an error and returned
   * early, or an error escaped the task (the queue's promise rejects).
   */
  datatype TaskEnd = Finished | Caught | Escaped

  /** The stages a task attempts, in order. */
  datatype Step =
    | ClearDir(id: int) | MakeDir(id: int) | Filter(index: nat) | Merge(index: nat) | Render(index: nat)
    | Calculate(index: nat) | EditSrs(index: nat) | Rename(index: nat) | Copy(c: int, index: nat)
    | Mark(index: nat) | RemoveDir(id: int)

  /** The task produced its done entry. */
  predicate Completes(v: Variant, o: Outcomes) {
    if v == Forester then o.mkdirOk && o.filterOk && o.mergeOk && o.dsmProduced && o.calcOk && o.editOk && o.renameOk
    else o.mkdirOk && o.filterOk && o.renderOk && o.markerOk
  }

  /** The outputs the copies of the first classifications in `cs` leave behind. */
  function CopiedOutputs(cs: seq<int>, index: nat, fails: set<int>): (r: set<Entry>)
    ensures forall e :: e in r <==> e.Output? && e.index == index && e.c in cs && e.c !in fails
    decreases |cs|
  {
    if cs == [] then {}
    else CopiedOutputs(cs[..|cs| - 1], index, fails)
         + (if cs[|cs| - 1] in fails then {} else {Output(cs[|cs| - 1], index)})
  }

  function CopySteps(cs: seq<int>, index: nat): (r: seq<Step>)
    ensures |r| == |cs| && forall k :: 0 <= k < |cs| ==> r[k] == Copy(cs[k], index)
  {
    seq(|cs|, k requires 0 <= k < |cs| => Copy(cs[k], index))
  }

  /** The entries other than work directories that a task adds. */
  function NewEntries(v: Variant, index: nat, o: Outcomes): (r: set<Entry>)
    ensures forall e :: e in r ==> !e.Workdir? && e.index == index
  {
    if v == Forester then (if Completes(v, o) then {Final(index)} else {})
    else if o.mkdirOk && o.filterOk && o.renderOk then
      CopiedOutputs(Classifications, index, o.copyFails) + (if o.markerOk then {Marker(index)} else {})
    else {}
  }

  /** How the task ends, by variant. */
  function TaskResult(v: Variant, o: Outcomes): TaskEnd {
    if !o.mkdirOk || !o.filterOk then Escaped
    else if v == Forester then
      if !o.mergeOk || (o.dsmProduced && (!o.calcOk || !o.editOk || !o.renameOk)) || !o.removeOk then Escaped
      else Finished
    else if !o.renderOk || !o.markerOk then Caught
    else if !o.removeOk then Escaped
    else Finished
  }

  /** The filesystem after a task of tile `index` with worker `id`. */
  function TaskFs(v: Variant, fs: set<Entry>, index: nat, id: int, o: Outcomes): set<Entry> {
    var cleared := fs - {Workdir(id)};
    if !o.mkdirOk then cleared
    else
      var added := cleared + {Workdir(id)} + NewEntries(v, index, o);
      if TaskResult(v, o) == Finished then added - {Workdir(id)} else added
  }

  /** The stages a task attempts. */
  function TaskSteps(v: Variant, index: nat, id: int, o: Outcomes): seq<Step> {
    [ClearDir(id), MakeDir(id)]
    + (if !o.mkdirOk then [] else
         [Filter(index)]
         + (if !o.filterOk then [] else if v == Forester then ForesterStages(index, id, o) else CopyStages(index, id, o)))
  }

  /** After filtering, forester.ts: merge, render, then calculate and rename only when `dsm.tif` exists. */
  function ForesterStages(index: nat, id: int, o: Outcomes): seq<Step> {
    [Merge(index)]
    + (if !o.mergeOk then [] else
         [Render(index)]
         + (if !o.dsmProduced then [RemoveDir(id)] else
              [Calculate(index)]
              + (if !o.calcOk then [] else
                   [EditSrs(index)]
                   + (if !o.editOk then [] else
                        [Rename(index)] + (if !o.renameOk then [] else [RemoveDir(id)])))))
  }

  /** After filtering, the other two: render, one copy per classification, the marker. */
  function CopyStages(index: nat, id: int, o: Outcomes): seq<Step> {
    [Render(index)]
    + (if !o.renderOk then [] else
         CopySteps(Classifications, index) + [Mark(index)] + (if !o.markerOk then [] else [RemoveDir(id)]))
  }

  /** `TaskSteps` of `Current` and `Fin2`, written the way the task body builds it. */
  lemma CopyStepsCases(v: Variant, index: nat, id: int, o: Outcomes)
    requires v != Forester
    ensures var s0 := [ClearDir(id), MakeDir(id)];
      var s1 := s0 + [Filter(index)];
      var s2 := s1 + [Render(index)];
      var s3 := s2 + CopySteps(Classifications, index) + [Mark(index)];
      TaskSteps(v, index, id, o) ==
        if !o.mkdirOk then s0
        else if !o.filterOk then s1
        else if !o.renderOk then s2
        else if !o.markerOk then s3
        else s3 + [RemoveDir(id)]
  {
  }

  /** `TaskSteps` of `Forester`, written the way the task body builds it. */
  lemma ForesterStepsCases(index: nat, id: int, o: Outcomes)
    ensures var s0 := [ClearDir(id), MakeDir(id)];
      var s1 := s0 + [Filter(index)];
      var s2 := s1 + [Merge(index)];
      var s3 := s2 + [Render(index)];
      var s4 := s3 + [Calculate(index)];
      var s5 := s4 + [EditSrs(index)];
      var s6 := s5 + [Rename(index)];
      TaskSteps(Forester, index, id, o) ==
        if !o.mkdirOk then s0
        else if !o.filterOk then s1
        else if !o.mergeOk then s2
        else if !o.dsmProduced then s3 + [RemoveDir(id)]
        else if !o.calcOk then s4
        else if !o.editOk then s5
        else if !o.renameOk then s6
        else s6 + [RemoveDir(id)]
  {
  }

  /**
   * A task creates its done entry exactly when every stage up to it
   * succeeded; the entry, once there, is never removed by the task.
   */
  lemma DoneEntryIffCompletes(v: Variant, fs: set<Entry>, index: nat, id: int, o: Outcomes)
    ensures DoneEntry(v, index) in NewEntries(v, index, o) <==> Completes(v, o)
    ensures DoneEntry(v, index) in TaskFs(v, fs, index, id, o) <==> DoneEntry(v, index) in fs || Completes(v, o)
  {
  }

  /**
   * The work directory survives a task exactly when it was created and the
   * task did not run to the end: an early `return` or an escaping error
   * skips the final removal. Entries of other tiles and other work
   * directories are untouched.
   */
  lemma TaskFsFrame(v: Variant, fs: set<Entry>, index: nat, id: int, o: Outcomes)
    ensures Workdir(id) in TaskFs(v, fs, index, id, o) <==> o.mkdirOk && TaskResult(v, o) != Finished
    ensures forall e :: e != Workdir(id) && (e.Workdir? || e.index != index) ==>
      (e in TaskFs(v, fs, index, id, o) <==> e in fs)
    ensures forall e: Entry :: !e.Workdir? ==> (e in TaskFs(v, fs, index, id, o) <==> e in fs || e in NewEntries(v, index, o))
  {
  }

  /**
   * Copy-then-mark: in `Current` and `Fin2` the marker is attempted only
   * after render succeeded and after a copy was attempted for every
   * classification; a copy failure does not prevent the marker.
   */
  /** An element that occurs once, between `pre` and `tail`: everything before any occurrence is `pre`. */
  lemma OnlyAfter<T>(pre: seq<T>, x: T, tail: seq<T>, m: nat)
    requires x !in pre && x !in tail
    requires m < |pre + [x] + tail| && (pre + [x] + tail)[m] == x
    ensures (pre + [x] + tail)[..m] == pre
  {
    var s := pre + [x] + tail;
    assert s[..|pre|] == pre;
  }

  /** The task marks its tile exactly when directory creation, filtering and rendering succeeded. */
  lemma MarkIffRendered(v: Variant, index: nat, id: int, o: Outcomes)
    requires v != Forester
    ensures Mark(index) in TaskSteps(v, index, id, o) <==> o.mkdirOk && o.filterOk && o.renderOk
  {
    var s := TaskSteps(v, index, id, o);
    if o.mkdirOk && o.filterOk && o.renderOk {
      CopyStepsCases(v, index, id, o);
    } else {
      assert Mark(index) !in s;
    }
  }

  /** What a succeeding task does before it writes the marker. */
  function BeforeMark(index: nat, id: int): (pre: seq<Step>)
    ensures Render(index) in pre && Mark(index) !in pre
    ensures forall c :: c in Classifications ==> Copy(c, index) in pre
  {
    var copies := CopySteps(Classifications, index);
    var pre := [ClearDir(id), MakeDir(id), Filter(index), Render(index)] + copies;
    assert pre[3] == Render(index);
    assert forall c :: c in Classifications ==> Copy(c, index) in pre by {
      forall c | c in Classifications ensures Copy(c, index) in pre {
        var q :| 0 <= q < |Classifications| && Classifications[q] == c;
        assert pre[4 + q] == copies[q];
      }
    }
    pre
  }

  lemma SucceededSteps(v: Variant, index: nat, id: int, o: Outcomes)
    requires v != Forester && o.mkdirOk && o.filterOk && o.renderOk
    ensures TaskSteps(v, index, id, o) == BeforeMark(index, id) + [Mark(index)] + (if !o.markerOk then [] else [RemoveDir(id)])
  {
    CopyStepsCases(v, index, id, o);
  }

  /** Whenever the marker is written, the render and every copy come before it. */
  lemma MarkAfterCopies(v: Variant, index: nat, id: int, o: Outcomes)
    requires v != Forester
    ensures var s := TaskSteps(v, index, id, o);
      forall m :: 0 <= m < |s| && s[m] == Mark(index) ==>
        Render(index) in s[..m] && forall c :: c in Classifications ==> Copy(c, index) in s[..m]
  {
    var s := TaskSteps(v, index, id, o);
    if o.mkdirOk && o.filterOk && o.renderOk {
      var pre := BeforeMark(index, id);
      var tail := if !o.markerOk then [] else [RemoveDir(id)];
      SucceededSteps(v, index, id, o);
      forall m | 0 <= m < |s| && s[m] == Mark(index) ensures s[..m] == pre {
        OnlyAfter(pre, Mark(index), tail, m);
      }
    } else {
      assert Mark(index) !in s;
    }
  }

  /** forester.ts renames onto the final file only after whitebox produced `dsm.tif` and both gdal steps succeeded. */
  lemma RenameNeedsDsm(index: nat, id: int, o: Outcomes)
    ensures Rename(index) in TaskSteps(Forester, index, id, o) <==>
      o.mkdirOk && o.filterOk && o.mergeOk && o.dsmProduced && o.calcOk && o.editOk
    ensures Calculate(index) in TaskSteps(Forester, index, id, o) <==>
      o.mkdirOk && o.filterOk && o.mergeOk && o.dsmProduced
  {
  }

  // ---- the grid ----------------------------------------------------------------------

  /** Cells along each axis: the loops run `Rows(v)` (or `Cols(v)`) times over a non-degenerate range, else not at all. */
  function GridRows(v: Variant, metas: seq<Meta>): nat {
    var u := UnionBounds(metas);
    Cells(u.miny, u.maxy, Rows(v))
  }

  function GridCols(v: Variant, metas: seq<Meta>): nat {
    var u := UnionBounds(metas);
    Cells(u.minx, u.maxx, Cols(v))
  }

  /** The box of tile `index`: row `(index - 1) / cols`, column `(index - 1) % cols`. */
  function TileBox(v: Variant, metas: seq<Meta>, index: nat): Box
    requires 1 <= index <= GridRows(v, metas) * GridCols(v, metas)
  {
    var u := UnionBounds(metas);
    var b := Box(u.minx.v, u.miny.v, u.maxx.v, u.maxy.v);
    Tile(b, Rows(v), Cols(v), (index - 1) / Cols(v), (index - 1) % Cols(v))
  }

  /**
   * A tile gets a task when it is on the grid, allowed, not yet done when
   * the run starts, and overlapped by some partition.
   */
  predicate Eligible(v: Variant, metas: seq<Meta>, fs0: set<Entry>, index: nat) {
    && 1 <= index <= GridRows(v, metas) * GridCols(v, metas)
    && Allowed(v, index)
    && DoneEntry(v, index) !in fs0
    && GetFiles(TileBox(v, metas, index), metas) != []
  }

  // ---- the scheduler -----------------------------------------------------------------

  /** A queued tile: its index, its box and the partitions it reads. */
  datatype Task = Task(index: nat, bbox: Box, files: seq<string>)

  /** A running task and the worker id it borrowed. */
  datatype Job = Job(task: Task, id: int)

  function Ids(jobs: seq<Job>): (ids: seq<int>)
    ensures |ids| == |jobs| && forall k :: 0 <= k < |jobs| ==> ids[k] == jobs[k].id
  {
    seq(|jobs|, k requires 0 <= k < |jobs| => jobs[k].id)
  }

  function Indices(tasks: seq<Task>): (r: seq<nat>)
    ensures |r| == |tasks| && forall k :: 0 <= k < |tasks| ==> r[k] == tasks[k].index
  {
    seq(|tasks|, k requires 0 <= k < |tasks| => tasks[k].index)
  }

  function JobIndices(jobs: seq<Job>): (r: seq<nat>)
    ensures |r| == |jobs| && forall k :: 0 <= k < |jobs| ==> r[k] == jobs[k].task.index
  {
    seq(|jobs|, k requires 0 <= k < |jobs| => jobs[k].task.index)
  }

  lemma IdsRemove(jobs: seq<Job>, k: nat)
    requires k < |jobs|
    ensures multiset(Ids(jobs)) == multiset(Ids(jobs[..k] + jobs[k + 1..])) + multiset{jobs[k].id}
    ensures multiset(JobIndices(jobs)) == multiset(JobIndices(jobs[..k] + jobs[k + 1..])) + multiset{jobs[k].task.index}
  {
    var rest := jobs[..k] + jobs[k + 1..];
    assert Ids(rest) == Ids(jobs)[..k] + Ids(jobs)[k + 1..];
    assert JobIndices(rest) == JobIndices(jobs)[..k] + JobIndices(jobs)[k + 1..];
    MultisetRemove(Ids(jobs), k);
    MultisetRemove(JobIndices(jobs), k);
  }

  lemma MultisetRemove<T>(xs: seq<T>, k: nat)
    requires k < |xs|
    ensures multiset(xs) == multiset(xs[..k] + xs[k + 1..]) + multiset{xs[k]}
  {
    assert xs == xs[..k] + [xs[k]] + xs[k + 1..];
  }

  /** Taking the front id with `shift()` and putting it back with `unshift()` restores the pool exactly. */
  lemma ShiftUnshiftRestores(workers: seq<int>)
    requires workers != []
    ensures [workers[0]] + workers[1..] == workers
    ensures multiset(workers) == multiset(workers[1..]) + multiset{workers[0]}
  {
    assert [workers[0]] + workers[1..] == workers;
  }

  /** The tiles that ended or are in flight are exactly the eligible ones among the first `n`. */
  ghost predicate Accounted(v: Variant, metas: seq<Meta>, fs0: set<Entry>, done: set<nat>, flight: seq<nat>, n: nat) {
    forall j :: j in done || j in flight <==> 1 <= j <= n && Eligible(v, metas, fs0, j)
  }

  /** Every entry other than a work directory exists iff it existed at the start or an ended task created it. */
  ghost predicate FsAccounted(v: Variant, env: nat -> Outcomes, fs0: set<Entry>, done: set<nat>, fs: set<Entry>) {
    forall e: Entry :: !e.Workdir? ==>
      (e in fs <==> e in fs0 || (e.index in done && e in NewEntries(v, e.index, env(e.index))))
  }

  ghost predicate EndsAccounted(v: Variant, env: nat -> Outcomes, done: set<nat>, ends: map<nat, TaskEnd>) {
    forall j :: j in done ==> j in ends && ends[j] == TaskResult(v, env(j))
  }

  /** A cell that is not eligible adds nothing. */
  lemma AccountedSkip(v: Variant, metas: seq<Meta>, fs0: set<Entry>, done: set<nat>, flight: seq<nat>, n: nat)
    requires n >= 1 && Accounted(v, metas, fs0, done, flight, n - 1) && !Eligible(v, metas, fs0, n)
    ensures Accounted(v, metas, fs0, done, flight, n)
  {
  }

  /** An eligible cell joins the tiles in flight. */
  lemma AccountedAdd(v: Variant, metas: seq<Meta>, fs0: set<Entry>, done: set<nat>, flight: seq<nat>, flight': seq<nat>, n: nat)
    requires n >= 1 && Accounted(v, metas, fs0, done, flight, n - 1) && Eligible(v, metas, fs0, n)
    requires forall j :: j in flight' <==> j in flight || j == n
    ensures Accounted(v, metas, fs0, done, flight', n)
  {
  }

  /** A tile in flight that ends moves to the ended ones. */
  lemma AccountedFinish(v: Variant, metas: seq<Meta>, fs0: set<Entry>, done: set<nat>, flight: seq<nat>, flight': seq<nat>, j: nat, n: nat)
    requires Accounted(v, metas, fs0, done, flight, n) && j in flight
    requires forall i :: i in flight ==> i in flight' || i == j
    requires forall i :: i in flight' ==> i in flight
    ensures Accounted(v, metas, fs0, done + {j}, flight', n)
  {
  }

  lemma FsAccountedStep(v: Variant, env: nat -> Outcomes, fs0: set<Entry>, done: set<nat>, fs: set<Entry>, fs': set<Entry>, j: nat)
    requires FsAccounted(v, env, fs0, done, fs)
    requires forall e: Entry :: !e.Workdir? ==> (e in fs' <==> e in fs || e in NewEntries(v, j, env(j)))
    ensures FsAccounted(v, env, fs0, done + {j}, fs')
  {
    forall e: Entry | !e.Workdir?
      ensures e in fs' <==> e in fs0 || (e.index in done + {j} && e in NewEntries(v, e.index, env(e.index)))
    {
      if e in NewEntries(v, j, env(j)) {
        assert e.index == j;
      }
    }
  }

  /** The tiles in flight after a completion: the ended one may leave, and the started one moved from waiting to running. */
  lemma FlightAfterComplete(r: seq<Job>, k: nat, w: seq<Task>, r': seq<Job>, w': seq<Task>, id: int)
    requires k < |r|
    requires w == [] ==> r' == r[..k] + r[k + 1..] && w' == []
    requires w != [] ==> r' == r[..k] + r[k + 1..] + [Job(w[0], id)] && w' == w[1..]
    ensures forall i :: i in JobIndices(r) + Indices(w) ==> i in JobIndices(r') + Indices(w') || i == r[k].task.index
    ensures forall i :: i in JobIndices(r') + Indices(w') ==> i in JobIndices(r) + Indices(w)
    ensures r[k].task.index in JobIndices(r) + Indices(w)
  {
    IdsRemove(r, k);
    var rest := r[..k] + r[k + 1..];
    assert JobIndices(r)[k] == r[k].task.index;
    forall i ensures i in JobIndices(r) <==> i in JobIndices(rest) || i == r[k].task.index {
      assert i in JobIndices(r) <==> i in multiset(JobIndices(r));
      assert i in JobIndices(rest) <==> i in multiset(JobIndices(rest));
    }
    if w != [] {
      assert JobIndices(r') == JobIndices(rest) + [w[0].index];
      assert Indices(w) == [w[0].index] + Indices(w[1..]);
    } else {
      assert r' == rest;
    }
  }

  /**
   * Once the whole grid was walked and nothing is in flight, the three
   * accounts say what the run did, tile by tile.
   */
  lemma RunAccount(v: Variant, metas: seq<Meta>, env: nat -> Outcomes, fs0: set<Entry>,
                   done: set<nat>, fs: set<Entry>, ends: map<nat, TaskEnd>, n: nat)
    requires n == GridRows(v, metas) * GridCols(v, metas)
    requires Accounted(v, metas, fs0, done, [], n)
    requires FsAccounted(v, env, fs0, done, fs) && EndsAccounted(v, env, done, ends)
    ensures forall j :: j in done <==> Eligible(v, metas, fs0, j)
    ensures forall j :: Eligible(v, metas, fs0, j) ==> j in ends && ends[j] == TaskResult(v, env(j))
    ensures forall e: Entry :: !e.Workdir? ==>
      (e in fs <==> e in fs0 || (Eligible(v, metas, fs0, e.index) && e in NewEntries(v, e.index, env(e.index))))
    ensures forall j :: DoneEntry(v, j) in fs <==> DoneEntry(v, j) in fs0 || (Eligible(v, metas, fs0, j) && Completes(v, env(j)))
  {
    forall j ensures DoneEntry(v, j) in fs <==> DoneEntry(v, j) in fs0 || (Eligible(v, metas, fs0, j) && Completes(v, env(j))) {
      DoneEntryIffCompletes(v, fs0, j, 0, env(j));
    }
  }

  /** Cell `(r, c)` has the box the numbering assigns to its index. */
  lemma TileBoxAt(v: Variant, metas: seq<Meta>, r: nat, c: nat)
    requires r < GridRows(v, metas) && c < GridCols(v, metas)
    ensures 1 <= TileIndex(Cols(v), r, c) <= GridRows(v, metas) * GridCols(v, metas)
    ensures var u := UnionBounds(metas);
      TileBox(v, metas, TileIndex(Cols(v), r, c)) == Tile(Box(u.minx.v, u.miny.v, u.maxx.v, u.maxy.v), Rows(v), Cols(v), r, c)
  {
    assert GridCols(v, metas) == Cols(v);
    TileIndexBijective(GridRows(v, metas), Cols(v), r, c);
  }

  /**
   * A tile not yet reached has not ended, so its done entry exists now
   * exactly when it existed at the start: the checks made on the current
   * entries select the eligible tiles.
   */
  lemma EligibleNow(v: Variant, metas: seq<Meta>, env: nat -> Outcomes, fs0: set<Entry>,
                    done: set<nat>, flight: seq<nat>, fs: set<Entry>, n: nat)
    requires 1 <= n <= GridRows(v, metas) * GridCols(v, metas)
    requires Accounted(v, metas, fs0, done, flight, n - 1) && FsAccounted(v, env, fs0, done, fs)
    ensures n !in done && n !in flight
    ensures Eligible(v, metas, fs0, n) <==>
      Allowed(v, n) && DoneEntry(v, n) !in fs && GetFiles(TileBox(v, metas, n), metas) != []
  {
    assert !(n in done || n in flight);
  }

  /** The number of cells in the first `r` rows: the last index numbered before row `r`. */
  function RowStart(r: nat, cols: nat): nat {
    r * cols
  }

  lemma RowStartNext(r: nat, cols: nat)
    ensures RowStart(r + 1, cols) == RowStart(r, cols) + cols
  {
  }

  class Scheduler {
    const variant: Variant
    /** The `workers` array of free worker ids. */
    var workers: seq<int>
    /** Tasks added to the queue and not yet started, in order. */
    var waiting: seq<Task>
    /** Started tasks, with the worker id each borrowed. */
    var running: seq<Job>
    /** The entries that exist. */
    var fs: set<Entry>
    /** Stages attempted so far, across all tasks. */
    var trace: seq<Step>
    /** How each ended task ended, by tile index. */
    var ends: map<nat, TaskEnd>
    /** Tiles whose task has ended. */
    ghost var completed: set<nat>

    /**
     * The pool and the running tasks together hold each worker id exactly
     * once; at most `concurrency` tasks run and at most `concurrency` wait.
     */
    ghost predicate PoolOk()
      reads this
    {
      && multiset(workers) + multiset(Ids(running)) == multiset(Pool())
      && |workers| + |running| == PoolSize
      && |running| <= Concurrency(variant)
      && |waiting| <= Concurrency(variant)
    }

    /** ... and a task waits only while every slot is busy. */
    ghost predicate Valid()
      reads this
    {
      PoolOk() && (waiting != [] ==> |running| == Concurrency(variant))
    }

    constructor(v: Variant, fs0: set<Entry>)
      ensures Valid()
      ensures variant == v && workers == Pool() && waiting == [] && running == []
      ensures fs == fs0 && trace == [] && ends == map[] && completed == {}
    {
      variant := v;
      workers := Pool();
      waiting := [];
      running := [];
      fs := fs0;
      trace := [];
      ends := map[];
      completed := {};
    }

    /** Starting a task: `workers.shift()` hands it the front id. */
    method Start(t: Task)
      requires PoolOk() && |running| < Concurrency(variant)
      modifies this`workers, this`running
      ensures PoolOk()
      ensures |old(workers)| > 0
      ensures workers == old(workers)[1..] && running == old(running) + [Job(t, old(workers)[0])]
    {
      var id := workers[0];
      ShiftUnshiftRestores(workers);
      workers := workers[1..];
      assert Ids(running + [Job(t, id)]) == Ids(running) + [id];
      running := running + [Job(t, id)];
    }

    /** The `finally` block: `workers.unshift(id)` puts the ended task's id back in front. */
    method Release(k: nat)
      requires PoolOk() && k < |running|
      modifies this`workers, this`running
      ensures PoolOk()
      ensures running == old(running)[..k] + old(running)[k + 1..] && |running| == |old(running)| - 1
      ensures workers == [old(running)[k].id] + old(workers)
    {
      IdsRemove(running, k);
      workers := [running[k].id] + workers;
      running := running[..k] + running[k + 1..];
    }

    /**
     * `Current` and `Fin2` task body: clear and create the work directory,
     * filter (an error escapes), then render, copy every classification
     * (failures ignored) and create the marker (any error there is caught
     * and the task returns), and finally remove the work directory.
     */
    method CopyTask(index: nat, id: int, o: Outcomes) returns (end: TaskEnd, steps: seq<Step>)
      requires variant != Forester
      modifies this`fs
      ensures end == TaskResult(variant, o)
      ensures fs == TaskFs(variant, old(fs), index, id, o)
      ensures steps == TaskSteps(variant, index, id, o)
    {
      CopyStepsCases(variant, index, id, o);
      fs := fs - {Workdir(id)};
      steps := [ClearDir(id), MakeDir(id)];
      if !o.mkdirOk {
        return Escaped, steps;
      }
      fs := fs + {Workdir(id)};
      steps := steps + [Filter(index)];
      if !o.filterOk {
        return Escaped, steps;
      }
      steps := steps + [Render(index)];
      if !o.renderOk {
        return Caught, steps;
      }
      // The copies run together and each failure is swallowed.
      fs := fs + CopiedOutputs(Classifications, index, o.copyFails);
      steps := steps + CopySteps(Classifications, index) + [Mark(index)];
      if !o.markerOk {
        return Caught, steps;
      }
      fs := fs + {Marker(index)};
      steps := steps + [RemoveDir(id)];
      if !o.removeOk {
        return Escaped, steps;
      }
      fs := fs - {Workdir(id)};
      end := Finished;
    }

    /**
     * forester.ts task body: clear and create the work directory, filter,
     * merge, render (its exit status ignored); only when `dsm.tif` exists,
     * calculate, fix the spatial reference and rename onto the final file;
     * then remove the work directory. Every error escapes.
     */
    method ForesterTask(index: nat, id: int, o: Outcomes) returns (end: TaskEnd, steps: seq<Step>)
      requires variant == Forester
      modifies this`fs
      ensures end == TaskResult(variant, o)
      ensures fs == TaskFs(variant, old(fs), index, id, o)
      ensures steps == TaskSteps(variant, index, id, o)
    {
      ForesterStepsCases(index, id, o);
      fs := fs - {Workdir(id)};
      steps := [ClearDir(id), MakeDir(id)];
      if !o.mkdirOk {
        return Escaped, steps;
      }
      fs := fs + {Workdir(id)};
      steps := steps + [Filter(index)];
      if !o.filterOk {
        return Escaped, steps;
      }
      steps := steps + [Merge(index)];
      if !o.mergeOk {
        return Escaped, steps;
      }
      steps := steps + [Render(index)];
      if o.dsmProduced {
        steps := steps + [Calculate(index)];
        if !o.calcOk {
          return Escaped, steps;
        }
        steps := steps + [EditSrs(index)];
        if !o.editOk {
          return Escaped, steps;
        }
        steps := steps + [Rename(index)];
        if !o.renameOk {
          return Escaped, steps;
        }
        fs := fs + {Final(index)};
      }
      steps := steps + [RemoveDir(id)];
      if !o.removeOk {
        return Escaped, steps;
      }
      fs := fs - {Workdir(id)};
      end := Finished;
    }

    /** The body of the task of tile `index`, for this script. */
    method RunTask(index: nat, id: int, o: Outcomes) returns (end: TaskEnd, steps: seq<Step>)
      modifies this`fs
      ensures end == TaskResult(variant, o)
      ensures fs == TaskFs(variant, old(fs), index, id, o)
      ensures steps == TaskSteps(variant, index, id, o)
    {
      if variant == Forester {
        end, steps := ForesterTask(index, id, o);
      } else {
        end, steps := CopyTask(index, id, o);
      }
    }

    /**
     * Some running task ends: its body has run, its id goes back to the
     * front of the pool, and the queue starts the first waiting task, which
     * then takes that same id.
     */
    method Complete(env: nat -> Outcomes) returns (k: nat, job: Job)
      requires Valid() && running != []
      modifies this
      ensures Valid()
      ensures k < |old(running)| && job == old(running)[k]
      ensures fs == TaskFs(variant, old(fs), job.task.index, job.id, env(job.task.index))
      ensures trace == old(trace) + TaskSteps(variant, job.task.index, job.id, env(job.task.index))
      ensures ends == old(ends)[job.task.index := TaskResult(variant, env(job.task.index))]
      ensures completed == old(completed) + {job.task.index}
      ensures old(waiting) == [] ==>
        && workers == [job.id] + old(workers) && waiting == []
        && running == old(running)[..k] + old(running)[k + 1..]
      ensures old(waiting) != [] ==>
        && workers == old(workers) && waiting == old(waiting)[1..]
        && running == old(running)[..k] + old(running)[k + 1..] + [Job(old(waiting)[0], job.id)]
    {
      k :| 0 <= k < |running|;
      job := running[k];
      Finish(job.task.index, job.id, env(job.task.index));
      Handover(k);
    }

    /** The body of an ended task ran: its steps, its end and its effect on the entries are recorded. */
    method Finish(index: nat, id: int, o: Outcomes)
      modifies this`fs, this`trace, this`ends, this`completed
      ensures fs == TaskFs(variant, old(fs), index, id, o)
      ensures trace == old(trace) + TaskSteps(variant, index, id, o)
      ensures ends == old(ends)[index := TaskResult(variant, o)]
      ensures completed == old(completed) + {index}
    {
      var end, steps := RunTask(index, id, o);
      trace := trace + steps;
      ends := ends[index := end];
      completed := completed + {index};
    }

    /** The `finally` of the ended task `k` and the start of the next waiting one. */
    method Handover(k: nat)
      requires Valid() && k < |running|
      modifies this`workers, this`running, this`waiting
      ensures Valid()
      ensures old(waiting) == [] ==>
        && workers == [old(running)[k].id] + old(workers) && waiting == []
        && running == old(running)[..k] + old(running)[k + 1..]
      ensures old(waiting) != [] ==>
        && workers == old(workers) && waiting == old(waiting)[1..]
        && running == old(running)[..k] + old(running)[k + 1..] + [Job(old(waiting)[0], old(running)[k].id)]
    {
      Release(k);
      if waiting != [] {
        var t := waiting[0];
        waiting := waiting[1..];
        Start(t);
      }
    }

    /** `queue.add`: start at once while a slot is free, otherwise wait in line. */
    method Submit(t: Task)
      requires Valid() && |waiting| < Concurrency(variant)
      modifies this`workers, this`running, this`waiting
      ensures Valid()
      ensures old(|running|) < Concurrency(variant) ==>
        && |old(workers)| > 0 && workers == old(workers)[1..] && waiting == [] && running == old(running) + [Job(t, old(workers)[0])]
      ensures old(|running|) == Concurrency(variant) ==>
        && workers == old(workers) && running == old(running) && waiting == old(waiting) + [t]
    {
      if |running| < Concurrency(variant) {
        Start(t);
      } else {
        waiting := waiting + [t];
      }
    }

    /** The tiles in flight: running or waiting. */
    ghost function InFlight(): seq<nat>
      reads this
    {
      JobIndices(running) + Indices(waiting)
    }

    /** The run's invariant after `n` cells (see `Accounted`, `FsAccounted`, `EndsAccounted`). */
    ghost predicate Progress(metas: seq<Meta>, env: nat -> Outcomes, fs0: set<Entry>, n: nat)
      reads this
    {
      && Valid()
      && Accounted(variant, metas, fs0, completed, InFlight(), n)
      && FsAccounted(variant, env, fs0, completed, fs)
      && EndsAccounted(variant, env, completed, ends)
    }

    /** A completion keeps the run's invariant. */
    method CompleteOne(metas: seq<Meta>, env: nat -> Outcomes, ghost fs0: set<Entry>, ghost n: nat)
      requires Progress(metas, env, fs0, n) && running != []
      modifies this
      ensures Progress(metas, env, fs0, n)
      ensures |running| + |waiting| == old(|running| + |waiting|) - 1
    {
      ghost var r0, w0, fsBefore, done0, flight0 := running, waiting, fs, completed, InFlight();
      var k, job := Complete(env);
      FlightAfterComplete(r0, k, w0, running, waiting, job.id);
      AccountedFinish(variant, metas, fs0, done0, flight0, InFlight(), job.task.index, n);
      TaskFsFrame(variant, fsBefore, job.task.index, job.id, env(job.task.index));
      FsAccountedStep(variant, env, fs0, done0, fsBefore, fs, job.task.index);
    }

    /** `await queue.onSizeLessThan(queue.concurrency)`: tasks end until fewer than `concurrency` wait. */
    method WaitForRoom(metas: seq<Meta>, env: nat -> Outcomes, ghost fs0: set<Entry>, ghost n: nat)
      requires Progress(metas, env, fs0, n)
      modifies this
      ensures Progress(metas, env, fs0, n)
      ensures |waiting| < Concurrency(variant)
    {
      while |waiting| >= Concurrency(variant)
        invariant Progress(metas, env, fs0, n)
        decreases |running| + |waiting|
      {
        CompleteOne(metas, env, fs0, n);
      }
    }

    /** The end of the script: every queued task runs to its end. */
    method Drain(metas: seq<Meta>, env: nat -> Outcomes, ghost fs0: set<Entry>, ghost n: nat)
      requires Progress(metas, env, fs0, n)
      modifies this
      ensures Progress(metas, env, fs0, n)
      ensures running == [] && waiting == []
    {
      while running != []
        invariant Progress(metas, env, fs0, n)
        decreases |running| + |waiting|
      {
        CompleteOne(metas, env, fs0, n);
      }
    }

    /**
     * The checks made on one cell of the grid: the allow-list (forester.ts
     * only), the done entry, and the partitions overlapping the tile. It
     * yields the task to queue, if any.
     */
    method Admit(metas: seq<Meta>, index: nat, r: nat, c: nat) returns (t: Option<Task>)
      requires r < GridRows(variant, metas) && c < GridCols(variant, metas) && index == TileIndex(Cols(variant), r, c)
      ensures 1 <= index <= GridRows(variant, metas) * GridCols(variant, metas)
      ensures t.Some? <==>
        Allowed(variant, index) && DoneEntry(variant, index) !in fs && GetFiles(TileBox(variant, metas, index), metas) != []
      ensures t.Some? ==>
        t.value.index == index && t.value.bbox == TileBox(variant, metas, index) && t.value.files == GetFiles(t.value.bbox, metas)
    {
      TileBoxAt(variant, metas, r, c);
      if !Allowed(variant, index) {
        return None;
      }
      var u := UnionBounds(metas);
      var bbox := Tile(Box(u.minx.v, u.miny.v, u.maxx.v, u.maxy.v), Rows(variant), Cols(variant), r, c);
      if DoneEntry(variant, index) in fs {
        return None;
      }
      var files := GetFiles(bbox, metas);
      if |files| == 0 {
        return None;
      }
      return Some(Task(index, bbox, files));
    }

    /** One cell of the grid: when it passes the checks, wait for room and add its task. */
    method VisitTile(metas: seq<Meta>, env: nat -> Outcomes, ghost fs0: set<Entry>, index: nat, r: nat, c: nat)
      requires index >= 1 && Progress(metas, env, fs0, index - 1)
      requires r < GridRows(variant, metas) && c < GridCols(variant, metas) && index == TileIndex(Cols(variant), r, c)
      modifies this
      ensures Progress(metas, env, fs0, index)
    {
      var t := Admit(metas, index, r, c);
      EligibleNow(variant, metas, env, fs0, completed, InFlight(), fs, index);
      if t.None? {
        AccountedSkip(variant, metas, fs0, completed, InFlight(), index);
        return;
      }
      Enqueue(metas, env, fs0, t.value);
    }

    /** An eligible tile's task waits for room in the queue and is added to it. */
    method Enqueue(metas: seq<Meta>, env: nat -> Outcomes, ghost fs0: set<Entry>, t: Task)
      requires t.index >= 1 && Progress(metas, env, fs0, t.index - 1) && Eligible(variant, metas, fs0, t.index)
      modifies this
      ensures Progress(metas, env, fs0, t.index)
    {
      WaitForRoom(metas, env, fs0, t.index - 1);
      ghost var flight, r0, w0 := InFlight(), running, waiting;
      Submit(t);
      if |r0| < Concurrency(variant) {
        assert JobIndices(running) == JobIndices(r0) + [t.index];
      } else {
        assert Indices(waiting) == Indices(w0) + [t.index];
      }
      AccountedAdd(variant, metas, fs0, completed, flight, InFlight(), t.index);
    }

    /** The cells of row `r`, left to right; the last index it numbers is returned. */
    method VisitRow(metas: seq<Meta>, env: nat -> Outcomes, ghost fs0: set<Entry>, r: nat) returns (index: nat)
      requires r < GridRows(variant, metas) && Progress(metas, env, fs0, RowStart(r, GridCols(variant, metas)))
      modifies this
      ensures index == RowStart(r, GridCols(variant, metas)) + GridCols(variant, metas)
      ensures Progress(metas, env, fs0, index)
    {
      var cols := GridCols(variant, metas);
      index := RowStart(r, cols);
      var c := 0;
      while c < cols
        invariant 0 <= c <= cols && index == RowStart(r, cols) + c
        invariant Progress(metas, env, fs0, index)
      {
        index := index + 1;
        VisitTile(metas, env, fs0, index, r, c);
        c := c + 1;
      }
    }

    /** The grid, row by row; returns the number of cells. */
    method Walk(metas: seq<Meta>, env: nat -> Outcomes, ghost fs0: set<Entry>) returns (index: nat)
      requires Progress(metas, env, fs0, 0)
      modifies this
      ensures index == GridRows(variant, metas) * GridCols(variant, metas)
      ensures Progress(metas, env, fs0, index)
    {
      var rows := GridRows(variant, metas);
      var cols := GridCols(variant, metas);
      index := 0;
      var r := 0;
      while r < rows
        invariant 0 <= r <= rows && index == RowStart(r, cols)
        invariant Progress(metas, env, fs0, index)
      {
        index := VisitRow(metas, env, fs0, r);
        RowStartNext(r, cols);
        r := r + 1;
      }
    }

    /**
     * The whole script: walk the grid row by row, numbering every cell,
     * then let every queued task end. Afterwards the pool holds every
     * worker id again; the tiles that got a task are exactly the eligible
     * ones; every entry other than a work directory exists exactly when it
     * existed before or the task of its tile created it; and a tile's done
     * entry exists exactly when it existed before or its task completed.
     */
    method Run(metas: seq<Meta>, env: nat -> Outcomes)
      requires Valid() && running == [] && waiting == [] && completed == {}
      modifies this
      ensures Valid() && running == [] && waiting == []
      ensures multiset(workers) == multiset(Pool())
      ensures forall j :: j in completed <==> Eligible(variant, metas, old(fs), j)
      ensures forall j :: Eligible(variant, metas, old(fs), j) ==> j in ends && ends[j] == TaskResult(variant, env(j))
      ensures forall e: Entry :: !e.Workdir? ==>
        (e in fs <==> e in old(fs) || (Eligible(variant, metas, old(fs), e.index) && e in NewEntries(variant, e.index, env(e.index))))
      ensures forall j :: DoneEntry(variant, j) in fs <==>
        DoneEntry(variant, j) in old(fs) || (Eligible(variant, metas, old(fs), j) && Completes(variant, env(j)))
    {
      ghost var fs0 := fs;
      var index := Walk(metas, env, fs0);
      Drain(metas, env, fs0, index);
      assert InFlight() == [];
      RunAccount(variant, metas, env, fs0, completed, fs, ends, index);
    }
  }
}
