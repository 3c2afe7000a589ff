/**
 * Partition selection and the tile grid of the batch scripts: the overlap
 * test of `getFiles`, the union of all partition bounds (the `reduce` that
 * starts from infinities) and the row-major numbering of grid cells.
 * Coordinates are exact reals.
 */
module Spatial {

  /** A bounding box; the scripts' `BBox` array `[x0, y0, x1, y1]` and a partition's `summary.bounds`. */
  datatype Box = Box(minx: real, miny: real, maxx: real, maxy: real)

  /** One line of the partition index: a point-cloud file and its extent. */
  datatype Meta = Meta(filename: string, bounds: Box)

  /**
   * One axis of the `getFiles` test: the query interval [q0, q1] is kept
   * against the partition interval (p0, p1) when its upper end or its lower
   * end lies strictly inside, or when it covers the partition interval.
   */
  predicate AxisSelects(q0: real, q1: real, p0: real, p1: real) {
    (q1 > p0 && q1 < p1) || (q0 > p0 && q0 < p1) || (q0 <= p0 && q1 >= p1)
  }

  /** The `getFiles` filter: both axes pass. */
  predicate Selects(bbox: Box, part: Box) {
    && AxisSelects(bbox.minx, bbox.maxx, part.minx, part.maxx)
    && AxisSelects(bbox.miny, bbox.maxy, part.miny, part.maxy)
  }

  /** `getFiles(bbox, metas)`: the filenames of the selected partitions, in index order. */
  function GetFiles(bbox: Box, metas: seq<Meta>): (files: seq<string>)
    ensures |files| <= |metas|
  {
    if metas == [] then []
    else (if Selects(bbox, metas[0].bounds) then [metas[0].filename] else []) + GetFiles(bbox, metas[1..])
  }

  function Filenames(metas: seq<Meta>): (names: seq<string>)
    ensures |names| == |metas|
    ensures forall k :: 0 <= k < |metas| ==> names[k] == metas[k].filename
  {
    if metas == [] then [] else [metas[0].filename] + Filenames(metas[1..])
  }

  /** `a` is obtained from `b` by deleting elements (order kept). */
  predicate IsSubsequence<T(==)>(a: seq<T>, b: seq<T>)
    decreases |b|
  {
    if a == [] then true
    else if b == [] then false
    else (a[0] == b[0] && IsSubsequence(a[1..], b[1..])) || IsSubsequence(a, b[1..])
  }

  /** Selecting over a concatenation selects over each part and concatenates, so the order of `metas` is kept. */
  lemma {:induction false} GetFilesAppend(bbox: Box, a: seq<Meta>, b: seq<Meta>)
    ensures GetFiles(bbox, a + b) == GetFiles(bbox, a) + GetFiles(bbox, b)
  {
    if a == [] {
      assert a + b == b;
    } else {
      assert (a + b)[1..] == a[1..] + b;
      GetFilesAppend(bbox, a[1..], b);
    }
  }

  /** On one partition, `getFiles` yields its filename exactly when the test passes. */
  lemma GetFilesSingle(bbox: Box, m: Meta)
    ensures GetFiles(bbox, [m]) == if Selects(bbox, m.bounds) then [m.filename] else []
  {
    assert [m][1..] == [];
  }

  /** The result is a subsequence of the partitions' filenames. */
  lemma {:induction false} GetFilesIsSubsequence(bbox: Box, metas: seq<Meta>)
    ensures IsSubsequence(GetFiles(bbox, metas), Filenames(metas))
  {
    if metas != [] {
      GetFilesIsSubsequence(bbox, metas[1..]);
      var rest := GetFiles(bbox, metas[1..]);
      var names := Filenames(metas);
      assert names[1..] == Filenames(metas[1..]);
      var files := GetFiles(bbox, metas);
      if Selects(bbox, metas[0].bounds) {
        assert files == [names[0]] + rest;
        assert files[0] == names[0] && files[1..] == rest;
      } else {
        assert files == rest;
      }
    }
  }

  /** A filename is returned exactly when some partition with that name passes the test. */
  lemma {:induction false} GetFilesMembers(bbox: Box, metas: seq<Meta>, f: string)
    ensures f in GetFiles(bbox, metas) <==>
      exists k :: 0 <= k < |metas| && metas[k].filename == f && Selects(bbox, metas[k].bounds)
  {
    if metas != [] {
      GetFilesMembers(bbox, metas[1..], f);
      if exists k :: 0 <= k < |metas| && metas[k].filename == f && Selects(bbox, metas[k].bounds) {
        var k :| 0 <= k < |metas| && metas[k].filename == f && Selects(bbox, metas[k].bounds);
        if k > 0 {
          assert metas[1..][k - 1] == metas[k];
        }
      }
      if f in GetFiles(bbox, metas[1..]) {
        var k :| 0 <= k < |metas[1..]| && metas[1..][k].filename == f && Selects(bbox, metas[1..][k].bounds);
        assert metas[k + 1] == metas[1..][k];
      }
    }
  }

  /**
   * For a non-degenerate partition interval and an ordered query interval,
   * the three-clause test is exactly strict open-interval overlap: a query
   * that only touches the partition at an edge is not selected, and a
   * partition containing the query is selected like one the query contains.
   */
  lemma AxisSelectsIsOpenOverlap(q0: real, q1: real, p0: real, p1: real)
    requires p0 < p1 && q0 <= q1
    ensures AxisSelects(q0, q1, p0, p1) <==> q0 < p1 && q1 > p0
  {
  }

  /** Both axes together: for proper boxes, selection is open-box overlap. */
  lemma SelectsIsOpenOverlap(bbox: Box, part: Box)
    requires part.minx < part.maxx && part.miny < part.maxy
    requires bbox.minx <= bbox.maxx && bbox.miny <= bbox.maxy
    ensures Selects(bbox, part) <==>
      bbox.minx < part.maxx && bbox.maxx > part.minx && bbox.miny < part.maxy && bbox.maxy > part.miny
  {
    AxisSelectsIsOpenOverlap(bbox.minx, bbox.maxx, part.minx, part.maxx);
    AxisSelectsIsOpenOverlap(bbox.miny, bbox.maxy, part.miny, part.maxy);
  }

  /** A coordinate of the `reduce` accumulator: the start values are the two infinities. */
  datatype Ext = NegInf | Fin(v: real) | PosInf

  /** `Math.min(a, x)` for a finite `x`. */
  function MinE(a: Ext, x: real): Ext {
    match a
    case PosInf => Fin(x)
    case Fin(v) => Fin(if x < v then x else v)
    case NegInf => NegInf
  }

  /** `Math.max(a, x)` for a finite `x`. */
  function MaxE(a: Ext, x: real): Ext {
    match a
    case NegInf => Fin(x)
    case Fin(v) => Fin(if x > v then x else v)
    case PosInf => PosInf
  }

  datatype ExtBox = ExtBox(minx: Ext, miny: Ext, maxx: Ext, maxy: Ext)

  /** The `reduce` start value `[Infinity, Infinity, -Infinity, -Infinity]`. */
  const EmptyBounds := ExtBox(PosInf, PosInf, NegInf, NegInf)

  /** The `bounds` reduction over the partition index, folding left to right. */
  function UnionBounds(metas: seq<Meta>): ExtBox
    decreases |metas|
  {
    if metas == [] then EmptyBounds
    else
      var acc := UnionBounds(metas[..|metas| - 1]);
      var b := metas[|metas| - 1].bounds;
      ExtBox(MinE(acc.minx, b.minx), MinE(acc.miny, b.miny), MaxE(acc.maxx, b.maxx), MaxE(acc.maxy, b.maxy))
  }

  /**
   * Over a non-empty index the union is finite, contains every partition,
   * and each of its sides is the side of some partition; over an empty
   * index it is the start value.
   */
  lemma {:induction false} UnionBoundsIsHull(metas: seq<Meta>)
    ensures metas == [] ==> UnionBounds(metas) == EmptyBounds
    ensures metas != [] ==>
      var u := UnionBounds(metas);
      && u.minx.Fin? && u.miny.Fin? && u.maxx.Fin? && u.maxy.Fin?
      && (forall k :: 0 <= k < |metas| ==>
            && u.minx.v <= metas[k].bounds.minx && u.miny.v <= metas[k].bounds.miny
            && metas[k].bounds.maxx <= u.maxx.v && metas[k].bounds.maxy <= u.maxy.v)
      && (exists k :: 0 <= k < |metas| && u.minx.v == metas[k].bounds.minx)
      && (exists k :: 0 <= k < |metas| && u.miny.v == metas[k].bounds.miny)
      && (exists k :: 0 <= k < |metas| && u.maxx.v == metas[k].bounds.maxx)
      && (exists k :: 0 <= k < |metas| && u.maxy.v == metas[k].bounds.maxy)
    decreases |metas|
  {
    if metas != [] {
      var n := |metas|;
      var init := metas[..n - 1];
      var b := metas[n - 1].bounds;
      var u := UnionBounds(metas);
      UnionBoundsIsHull(init);
      if init == [] {
        assert u == ExtBox(Fin(b.minx), Fin(b.miny), Fin(b.maxx), Fin(b.maxy));
      } else {
        var a := UnionBounds(init);
        forall k | 0 <= k < n
          ensures u.minx.v <= metas[k].bounds.minx && u.miny.v <= metas[k].bounds.miny
          ensures metas[k].bounds.maxx <= u.maxx.v && metas[k].bounds.maxy <= u.maxy.v
        {
          if k < n - 1 {
            assert metas[k] == init[k];
          }
        }
        if u.minx.v == b.minx {
        } else {
          var k :| 0 <= k < |init| && a.minx.v == init[k].bounds.minx;
          assert metas[k] == init[k];
        }
        if u.miny.v == b.miny {
        } else {
          var k :| 0 <= k < |init| && a.miny.v == init[k].bounds.miny;
          assert metas[k] == init[k];
        }
        if u.maxx.v == b.maxx {
        } else {
          var k :| 0 <= k < |init| && a.maxx.v == init[k].bounds.maxx;
          assert metas[k] == init[k];
        }
        if u.maxy.v == b.maxy {
        } else {
          var k :| 0 <= k < |init| && a.maxy.v == init[k].bounds.maxy;
          assert metas[k] == init[k];
        }
      }
    }
  }

  /** Grid step along one axis: `(hi - lo) / n`. */
  function Step(lo: real, hi: real, n: nat): real
    requires n > 0
  {
    (hi - lo) / n as real
  }

  /**
   * The scripts step `x` from `lo` by `Step(lo, hi, n)` while `x < hi`; with
   * exact arithmetic the `c`-th value passes the test exactly when `c < n`,
   * so a non-degenerate axis is cut into exactly `n` cells.
   */
  lemma GridStepCount(lo: real, hi: real, n: nat, c: nat)
    requires lo < hi && n > 0
    ensures lo + c as real * Step(lo, hi, n) < hi <==> c < n
  {
    var d := Step(lo, hi, n);
    assert d > 0.0;
    assert hi - lo == n as real * d;
    if c < n {
      assert (n - c) as real * d > 0.0;
      assert c as real * d == n as real * d - (n - c) as real * d;
    } else {
      assert (c - n) as real * d >= 0.0;
      assert c as real * d == n as real * d + (c - n) as real * d;
    }
  }

  /** Number of cells the stepping loop visits on one axis: none on a degenerate or empty axis. */
  function Cells(lo: Ext, hi: Ext, n: nat): nat {
    if lo.Fin? && hi.Fin? && lo.v < hi.v then n else 0
  }

  /** The box of the cell in row `r`, column `c`: `[x, y, x + dx, y + dy]`. */
  function Tile(b: Box, rows: nat, cols: nat, r: nat, c: nat): Box
    requires rows > 0 && cols > 0
  {
    var dx := Step(b.minx, b.maxx, cols);
    var dy := Step(b.miny, b.maxy, rows);
    var x := b.minx + c as real * dx;
    var y := b.miny + r as real * dy;
    Box(x, y, x + dx, y + dy)
  }

  /** The `++i` numbering of the row-major walk. */
  function TileIndex(cols: nat, r: nat, c: nat): nat {
    r * cols + c + 1
  }

  /**
   * Numbering is a bijection between the cells and 1..rows*cols: every
   * index is in range and determines its row and column.
   */
  lemma TileIndexBijective(rows: nat, cols: nat, r: nat, c: nat)
    requires r < rows && c < cols
    ensures 1 <= TileIndex(cols, r, c) <= rows * cols
    ensures (TileIndex(cols, r, c) - 1) / cols == r
    ensures (TileIndex(cols, r, c) - 1) % cols == c
  {
    var d := rows - r - 1;
    MulSplit(r, d, cols);
    DivModUnique(r * cols + c, cols, r, c);
  }

  lemma DivModUnique(x: int, n: nat, q: int, m: int)
    requires n > 0 && 0 <= m < n && x == q * n + m
    ensures x / n == q && x % n == m
  {
    var q', m' := x / n, x % n;
    assert q' * n + m' == q * n + m;
    if q' > q {
      MulAtLeast(q' - q, n);
    } else if q' < q {
      MulAtLeast(q - q', n);
    }
  }

  /** `(r + 1 + d) * n` spelt out, with `d * n` non-negative. */
  lemma MulSplit(r: nat, d: nat, n: nat)
    ensures (r + 1 + d) * n == r * n + n + d * n && d * n >= 0
  {
  }

  lemma {:induction false} MulAtLeast(a: int, n: nat)
    requires a >= 1
    ensures a * n >= n
    decreases a
  {
    if a > 1 {
      MulAtLeast(a - 1, n);
      assert a * n == (a - 1) * n + n;
    }
  }

  /** Each cell of a proper box lies inside it. */
  lemma TileInside(b: Box, rows: nat, cols: nat, r: nat, c: nat)
    requires rows > 0 && cols > 0 && r < rows && c < cols
    requires b.minx < b.maxx && b.miny < b.maxy
    ensures var t := Tile(b, rows, cols, r, c);
      b.minx <= t.minx < t.maxx <= b.maxx && b.miny <= t.miny < t.maxy <= b.maxy
  {
    var dx := Step(b.minx, b.maxx, cols);
    var dy := Step(b.miny, b.maxy, rows);
    assert dx > 0.0 && dy > 0.0;
    assert c as real * dx >= 0.0 && r as real * dy >= 0.0;
    StepEnd(b.minx, b.maxx, cols, c);
    StepEnd(b.miny, b.maxy, rows, r);
  }

  lemma StepEnd(lo: real, hi: real, n: nat, c: nat)
    requires lo < hi && 0 < n && c < n
    ensures lo + c as real * Step(lo, hi, n) + Step(lo, hi, n) <= hi
  {
    var d := Step(lo, hi, n);
    assert hi - lo == n as real * d;
    assert (n - c - 1) as real * d >= 0.0;
    assert c as real * d + d == n as real * d - (n - c - 1) as real * d;
  }
}
