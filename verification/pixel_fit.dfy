/** The per-pixel half of imaging2.py: `fit_data` and the driver that fits
    every pixel of an `H` by `W` map and reshapes the results. The worker
    pool's `map` is modelled as a sequential map that keeps task order. */
module PixelFitting {
  import opened Common
  import opened PySeq
  import opened Grid
  import opened FileOps
  import opened Imaging

  /** `arr[:, i:i+1, j:j+1]` restricted to one plane: the pixel's value, or
      nothing when `(i, j)` lies outside the plane (slices truncate). */
  function PixelCell(plane: seq<seq<Value>>, i: nat, j: nat): seq<Value> {
    if i < |plane| && j < |plane[i]| then [plane[i][j]] else []
  }

  /** The planes' cells of pixel `(i, j)`, in plane order. */
  function PixelCells(s: Stack, i: nat, j: nat): (r: seq<seq<Value>>)
    ensures |r| == |s|
    ensures forall n :: 0 <= n < |s| ==> r[n] == PixelCell(s[n], i, j)
  {
    seq(|s|, n requires 0 <= n < |s| => PixelCell(s[n], i, j))
  }

  /** `arr[:, i:i+1, j:j+1].flatten()`: the cells of every plane, one after
      another. */
  function PixelVector(s: Stack, i: nat, j: nat): seq<Value> {
    Flatten(PixelCells(s, i, j))
  }

  /** On an array of shape `(N, H, W)` the vector of a pixel inside the
      image holds its `N` values in plane order, and that of a pixel outside
      it is empty. */
  lemma PixelVectorOfBox(s: Stack, d0: nat, h: nat, w: nat, i: nat, j: nat)
    requires IsBox(s, d0, h, w)
    ensures i < h && j < w ==>
      |PixelVector(s, i, j)| == d0 && forall n :: 0 <= n < d0 ==> PixelVector(s, i, j)[n] == s[n][i][j]
    ensures !(i < h && j < w) ==> PixelVector(s, i, j) == []
  {
    var cells := PixelCells(s, i, j);
    if i < h && j < w {
      assert IsRect(cells, d0, 1);
      FlattenRect(cells, d0, 1);
      RowStartIsProduct(d0, 1);
      forall n | 0 <= n < d0 ensures PixelVector(s, i, j)[n] == s[n][i][j] {
        RowStartIsProduct(n, 1);
        assert Index(n, 0, 1) == n;
      }
    } else {
      assert IsRect(cells, d0, 0);
      FlattenRect(cells, d0, 0);
      RowStartIsProduct(d0, 0);
    }
  }

  /** Two arrays that agree on pixel `(i, j)` of every plane give the pixel
      the same vector, whatever they hold elsewhere. */
  lemma PixelVectorLocal(s: Stack, t: Stack, i: nat, j: nat)
    requires |s| == |t|
    requires forall n :: 0 <= n < |s| ==> PixelCell(s[n], i, j) == PixelCell(t[n], i, j)
    ensures PixelVector(s, i, j) == PixelVector(t, i, j)
  {
    assert PixelCells(s, i, j) == PixelCells(t, i, j);
  }

  /** `pd.DataFrame((lambda, aoi, psi, delta))`: four rows, one column per
      measurement. Rows of different lengths are padded with missing values
      to the longest. */
  datatype Frame = Frame(lambda: seq<Value>, aoi: seq<Value>, psi: seq<Value>, delta: seq<Value>)

  /** Entry `k` of a padded row. */
  function At(v: seq<Value>, k: nat): Value {
    if k < |v| then v[k] else None
  }

  /** The number of columns: the longest row. */
  function FrameWidth(f: Frame): nat {
    Max(Max(|f.lambda|, |f.aoi|), Max(|f.psi|, |f.delta|))
  }

  /** Column `k` has no missing value. */
  predicate Complete(f: Frame, k: nat) {
    At(f.lambda, k).Some? && At(f.aoi, k).Some? && At(f.psi, k).Some? && At(f.delta, k).Some?
  }

  /** The measurements handed to the fitter (`data.values`): four rows of
      equal length. */
  datatype Sample = Sample(lambda: seq<real>, aoi: seq<real>, psi: seq<real>, delta: seq<real>)

  const NoMeasurements := Sample([], [], [], [])

  /** `dropna(axis=1, how='any')` over the first `m` columns: a column is kept
      exactly when none of its four entries is missing. */
  function DropIncomplete(f: Frame, m: nat): (r: Sample)
    ensures |r.aoi| == |r.lambda| && |r.psi| == |r.lambda| && |r.delta| == |r.lambda|
    ensures |r.lambda| <= m
  {
    if m == 0 then NoMeasurements
    else
      var s := DropIncomplete(f, m - 1);
      var k := m - 1;
      if Complete(f, k) then
        Sample(s.lambda + [At(f.lambda, k).value], s.aoi + [At(f.aoi, k).value],
               s.psi + [At(f.psi, k).value], s.delta + [At(f.delta, k).value])
      else s
  }

  /** `pd.DataFrame(data).dropna(axis=1, how='any').values`. */
  function DropNa(f: Frame): (r: Sample)
    ensures |r.aoi| == |r.lambda| && |r.psi| == |r.lambda| && |r.delta| == |r.lambda|
    ensures |r.lambda| <= FrameWidth(f)
  {
    DropIncomplete(f, FrameWidth(f))
  }

  /** The columns among the first `m` that have no missing value, in
      increasing order. */
  function CompleteColumns(f: Frame, m: nat): seq<nat> {
    if m == 0 then [] else CompleteColumns(f, m - 1) + (if Complete(f, m - 1) then [m - 1] else [])
  }

  /** The kept columns are exactly the complete ones below `m`, each once and
      in their original order. */
  lemma {:induction false} CompleteColumnsExact(f: Frame, m: nat)
    ensures forall k: nat :: k in CompleteColumns(f, m) <==> k < m && Complete(f, k)
    ensures forall a, b :: 0 <= a < b < |CompleteColumns(f, m)| ==> CompleteColumns(f, m)[a] < CompleteColumns(f, m)[b]
  {
    if m > 0 {
      var prev := CompleteColumns(f, m - 1);
      CompleteColumnsExact(f, m - 1);
      forall a | 0 <= a < |prev| ensures prev[a] < m - 1 {
        assert prev[a] in prev;
      }
    }
  }

  /** Position `t` of the sample is complete column number `t`: the four
      rows of the sample are the frame's rows restricted to those columns. */
  lemma {:induction false} DropIncompleteKeeps(f: Frame, m: nat)
    ensures var r, ks := DropIncomplete(f, m), CompleteColumns(f, m);
      && |r.lambda| == |ks|
      && forall t :: 0 <= t < |ks| ==>
           && Complete(f, ks[t])
           && r.lambda[t] == At(f.lambda, ks[t]).value && r.aoi[t] == At(f.aoi, ks[t]).value
           && r.psi[t] == At(f.psi, ks[t]).value && r.delta[t] == At(f.delta, ks[t]).value
  {
    if m > 0 {
      DropIncompleteKeeps(f, m - 1);
    }
  }

  /** Beyond the longest row every column is missing, so `DropNa` keeps every
      complete column there is. */
  lemma DropNaComplete(f: Frame, k: nat)
    requires Complete(f, k)
    ensures k < FrameWidth(f) && k in CompleteColumns(f, FrameWidth(f))
  {
    CompleteColumnsExact(f, FrameWidth(f));
  }

  /** The frame of pixel `(i, j)`: lines 95-98. */
  function PixelFrame(d: ImageData, i: nat, j: nat): Frame {
    Frame(PixelVector(d.lambda, i, j), PixelVector(d.aoi, i, j), PixelVector(d.psi, i, j), PixelVector(d.delta, i, j))
  }

  /** The sample the fitter receives for pixel `(i, j)`: lines 95-100. */
  function PixelSample(d: ImageData, i: nat, j: nat): (r: Sample)
    ensures |r.aoi| == |r.lambda| && |r.psi| == |r.lambda| && |r.delta| == |r.lambda|
  {
    DropNa(PixelFrame(d, i, j))
  }

  /** On four `(N, H, W)` arrays the sample of a pixel inside the image is
      the pixel's values at the measurements where none of the four is
      missing, in measurement order; a pixel outside the image has no
      measurements. */
  lemma PixelSampleOfBox(d: ImageData, m: nat, h: nat, w: nat, i: nat, j: nat)
    requires IsBox(d.lambda, m, h, w) && IsBox(d.aoi, m, h, w) && IsBox(d.psi, m, h, w) && IsBox(d.delta, m, h, w)
    ensures var r, ks := PixelSample(d, i, j), CompleteColumns(PixelFrame(d, i, j), m);
      i < h && j < w ==>
        && (forall k: nat :: k in ks <==> k < m && d.lambda[k][i][j].Some? && d.aoi[k][i][j].Some?
                                                 && d.psi[k][i][j].Some? && d.delta[k][i][j].Some?)
        && |r.lambda| == |ks| && |r.aoi| == |ks| && |r.psi| == |ks| && |r.delta| == |ks|
        && forall t :: 0 <= t < |ks| ==>
             && ks[t] < m
             && r.lambda[t] == d.lambda[ks[t]][i][j].value && r.aoi[t] == d.aoi[ks[t]][i][j].value
             && r.psi[t] == d.psi[ks[t]][i][j].value && r.delta[t] == d.delta[ks[t]][i][j].value
    ensures !(i < h && j < w) ==> PixelSample(d, i, j) == NoMeasurements
  {
    var f := PixelFrame(d, i, j);
    PixelVectorOfBox(d.lambda, m, h, w, i, j);
    PixelVectorOfBox(d.aoi, m, h, w, i, j);
    PixelVectorOfBox(d.psi, m, h, w, i, j);
    PixelVectorOfBox(d.delta, m, h, w, i, j);
    if i < h && j < w {
      assert FrameWidth(f) == m;
      CompleteColumnsExact(f, m);
      DropIncompleteKeeps(f, m);
      var ks := CompleteColumns(f, m);
      forall t | 0 <= t < |ks| ensures ks[t] < m {
        assert ks[t] in ks;
      }
    } else {
      assert FrameWidth(f) == 0;
    }
  }

  /** A fitted layer: `cuo_layer.thick.value` and `cuo_layer.thick.stderr`. */
  datatype Fit = Fit(thickness: real, stderr: real)

  /** What `fit_data` returns when the fit raises. */
  const Sentinel := Fit(0.0, 0.0)

  /** The thin-film fit of one sample: `None` when it raises. */
  type Fitter = Sample -> Option<Fit>

  /** `fit_data((i, j, lambda_arr, aoi_arr, psi_arr, delta_arr, model, cuo_layer))`. */
  function FitData(d: ImageData, i: nat, j: nat, fitter: Fitter): (r: Fit)
    ensures fitter(PixelSample(d, i, j)).None? ==> r == Sentinel
    ensures fitter(PixelSample(d, i, j)).Some? ==> r == fitter(PixelSample(d, i, j)).value
  {
    match fitter(PixelSample(d, i, j))
    case None => Sentinel
    case Some(fit) => fit
  }

  /** A pixel's result depends only on that pixel's values in the four
      arrays. */
  lemma FitDataLocal(d: ImageData, e: ImageData, i: nat, j: nat, fitter: Fitter)
    requires |d.lambda| == |e.lambda| && |d.aoi| == |e.aoi| && |d.psi| == |e.psi| && |d.delta| == |e.delta|
    requires forall n :: 0 <= n < |d.lambda| ==> PixelCell(d.lambda[n], i, j) == PixelCell(e.lambda[n], i, j)
    requires forall n :: 0 <= n < |d.aoi| ==> PixelCell(d.aoi[n], i, j) == PixelCell(e.aoi[n], i, j)
    requires forall n :: 0 <= n < |d.psi| ==> PixelCell(d.psi[n], i, j) == PixelCell(e.psi[n], i, j)
    requires forall n :: 0 <= n < |d.delta| ==> PixelCell(d.delta[n], i, j) == PixelCell(e.delta[n], i, j)
    ensures FitData(d, i, j, fitter) == FitData(e, i, j, fitter)
  {
    PixelVectorLocal(d.lambda, e.lambda, i, j);
    PixelVectorLocal(d.aoi, e.aoi, i, j);
    PixelVectorLocal(d.psi, e.psi, i, j);
    PixelVectorLocal(d.delta, e.delta, i, j);
  }

  /** The sentinel cannot be told apart from a fit that really gives zero
      thickness and zero error. */
  lemma SentinelAmbiguous(d: ImageData, i: nat, j: nat)
    ensures FitData(d, i, j, _ => None) == FitData(d, i, j, _ => Some(Fit(0.0, 0.0)))
  {
  }

  /** The rows of pixel tasks built at imaging2.py:151: row `i` lists the pixels `(i, 0) .. (i, w - 1)`. */
  function TaskRows(h: nat, w: nat): (r: seq<seq<(nat, nat)>>)
    ensures IsRect(r, h, w)
    ensures forall i, j :: 0 <= i < h && 0 <= j < w ==> r[i][j] == (i, j)
  {
    seq(h, i requires 0 <= i < h => seq(w, j requires 0 <= j < w => (i, j)))
  }

  /** Line 151: `[(i, j) for i in range(im_height) for j in range(im_width)]`. */
  function PixelTasks(h: nat, w: nat): seq<(nat, nat)> {
    Flatten(TaskRows(h, w))
  }

  /** The list of pixel tasks has `h * w` entries (`Grid.RowStartIsProduct`). */
  lemma PixelTasksLength(h: nat, w: nat)
    ensures |PixelTasks(h, w)| == RowStart(h, w)
  {
    FlattenRectLength(TaskRows(h, w), h, w);
  }

  /** Height outer, width inner: task `i * w + j` is pixel `(i, j)`. */
  lemma PixelTaskOf(h: nat, w: nat, i: nat, j: nat)
    requires i < h && j < w
    ensures Index(i, j, w) < |PixelTasks(h, w)| && PixelTasks(h, w)[Index(i, j, w)] == (i, j)
  {
    FlattenRectAt(TaskRows(h, w), h, w, i, j);
  }

  /** The list of pixel tasks has `h * w` entries and lists every pixel once, height
      outer and width inner. */
  lemma PixelTasksOrder(h: nat, w: nat)
    ensures |PixelTasks(h, w)| == RowStart(h, w) == h * w
    ensures forall i: nat, j: nat :: i < h && j < w ==>
      Index(i, j, w) < |PixelTasks(h, w)| && PixelTasks(h, w)[Index(i, j, w)] == (i, j)
  {
    PixelTasksLength(h, w);
    RowStartIsProduct(h, w);
    forall i: nat, j: nat | i < h && j < w
      ensures Index(i, j, w) < |PixelTasks(h, w)| && PixelTasks(h, w)[Index(i, j, w)] == (i, j)
    {
      PixelTaskOf(h, w, i, j);
    }
  }

  /** Task `k` is pixel `(k / w, k % w)`. */
  lemma PixelTaskAt(h: nat, w: nat, k: nat)
    requires k < |PixelTasks(h, w)|
    ensures w > 0 && PixelTasks(h, w)[k] == (k / w, k % w)
  {
    PixelTasksOrder(h, w);
    RowMajorSplitRows(k, w, h);
  }

  /** `p.map(fit_data, data)`: one result per task, in task order. */
  function MapFit(d: ImageData, tasks: seq<(nat, nat)>, fitter: Fitter): (r: seq<Fit>)
    ensures |r| == |tasks|
    ensures forall k :: 0 <= k < |tasks| ==> r[k] == FitData(d, tasks[k].0, tasks[k].1, fitter)
  {
    if |tasks| == 0 then []
    else
      var last := tasks[|tasks| - 1];
      MapFit(d, tasks[..|tasks| - 1], fitter) + [FitData(d, last.0, last.1, fitter)]
  }

  /** First components of the results. */
  function Thicknesses(results: seq<Fit>): (r: seq<real>)
    ensures |r| == |results|
    ensures forall k :: 0 <= k < |results| ==> r[k] == results[k].thickness
  {
    if |results| == 0 then [] else Thicknesses(results[..|results| - 1]) + [results[|results| - 1].thickness]
  }

  /** Second components of the results. */
  function Stderrs(results: seq<Fit>): (r: seq<real>)
    ensures |r| == |results|
    ensures forall k :: 0 <= k < |results| ==> r[k] == results[k].stderr
  {
    if |results| == 0 then [] else Stderrs(results[..|results| - 1]) + [results[|results| - 1].stderr]
  }

  /** Line 154: `thickness_arr, stderr_arr = zip(*results)`. With no results
      `zip()` yields nothing and the unpacking raises. */
  function Unzip(results: seq<Fit>): (r: Result<(seq<real>, seq<real>), ImagingError>)
    ensures r.Success? <==> |results| > 0
    ensures r.Success? ==> |r.value.0| == |results| && |r.value.1| == |results|
    ensures r.Success? ==> forall k :: 0 <= k < |results| ==>
      r.value.0[k] == results[k].thickness && r.value.1[k] == results[k].stderr
  {
    if |results| == 0 then Failure(NothingToUnpack) else Success((Thicknesses(results), Stderrs(results)))
  }

  /** Pairs two equally long sequences back into fits. */
  function Zip(thickness: seq<real>, stderr: seq<real>): (r: seq<Fit>)
    requires |thickness| == |stderr|
    ensures |r| == |thickness|
    ensures forall k :: 0 <= k < |r| ==> r[k] == Fit(thickness[k], stderr[k])
  {
    if |thickness| == 0 then []
    else Zip(thickness[..|thickness| - 1], stderr[..|stderr| - 1]) + [Fit(thickness[|thickness| - 1], stderr[|stderr| - 1])]
  }

  /** Unzipping loses nothing: zipping the two halves back gives the results. */
  lemma UnzipZip(results: seq<Fit>)
    requires |results| > 0
    ensures Zip(Unzip(results).value.0, Unzip(results).value.1) == results
  {
  }

  /** `data_arr_to_2D` with numpy's error reported as the script's. */
  function ToMap(flat: seq<real>, w: nat, h: nat): (r: Result<seq<seq<real>>, ImagingError>)
    ensures r.Success? <==> |flat| == w * h
    ensures r.Success? ==> IsRect(r.value, h, w)
    ensures r.Success? ==> forall i: nat, j: nat :: i < h && j < w ==>
      Index(i, j, w) < |flat| && r.value[i][j] == flat[Index(i, j, w)]
  {
    match DataArrTo2D(flat, w, h)
    case Success(g) => Success(g)
    case Failure(_) => Failure(ReshapeMismatch)
  }

  /** The two maps one timepoint produces. */
  datatype FitMaps = FitMaps(thickness: seq<seq<real>>, stderr: seq<seq<real>>)

  /** Lines 151-158 once the arrays are open: one fit per pixel of an `h`
      by `w` map, unzip, reshape. */
  function FitPixels(d: ImageData, w: nat, h: nat, fitter: Fitter): Result<FitMaps, ImagingError> {
    var results := MapFit(d, PixelTasks(h, w), fitter);
    var columns :- Unzip(results);
    var thickness :- ToMap(columns.0, w, h);
    var stderr :- ToMap(columns.1, w, h);
    Success(FitMaps(thickness, stderr))
  }

  /** Fitting fails only on an empty map, where nothing is left to unpack. */
  lemma FitPixelsSucceeds(d: ImageData, w: nat, h: nat, fitter: Fitter)
    ensures FitPixels(d, w, h, fitter).Success? <==> w > 0 && h > 0
  {
    var tasks := PixelTasks(h, w);
    PixelTasksLength(h, w);
    RowStartIsProduct(h, w);
    if w > 0 && h > 0 {
      RowStartBound(0, 0, w, h);
    } else {
      assert |tasks| == 0 by {
        if w == 0 { assert h * w == 0; } else { assert h * w == 0; }
      }
    }
  }

  /** A non-empty map yields two maps of `h` rows of `w` entries. */
  lemma FitPixelsShape(d: ImageData, w: nat, h: nat, fitter: Fitter)
    requires w > 0 && h > 0
    ensures FitPixels(d, w, h, fitter).Success?
    ensures IsRect(FitPixels(d, w, h, fitter).value.thickness, h, w)
    ensures IsRect(FitPixels(d, w, h, fitter).value.stderr, h, w)
  {
    FitPixelsSucceeds(d, w, h, fitter);
    PixelTasksLength(h, w);
    RowStartIsProduct(h, w);
  }

  /** Pixel `(i, j)` of both maps holds that pixel's own fit: the order of
      the pixel tasks, the order-keeping map, the unzip and the row-major
      reshape line up. */
  lemma FitPixelsAt(d: ImageData, w: nat, h: nat, fitter: Fitter, i: nat, j: nat)
    requires FitPixels(d, w, h, fitter).Success? && i < h && j < w
    ensures var maps := FitPixels(d, w, h, fitter).value;
      && i < |maps.thickness| && j < |maps.thickness[i]| && maps.thickness[i][j] == FitData(d, i, j, fitter).thickness
      && i < |maps.stderr| && j < |maps.stderr[i]| && maps.stderr[i][j] == FitData(d, i, j, fitter).stderr
  {
    var tasks := PixelTasks(h, w);
    var results := MapFit(d, tasks, fitter);
    var columns := Unzip(results).value;
    var maps := FitPixels(d, w, h, fitter).value;
    assert maps.thickness == ToMap(columns.0, w, h).value;
    assert maps.stderr == ToMap(columns.1, w, h).value;
    PixelTaskOf(h, w, i, j);
    var k := Index(i, j, w);
    assert results[k] == FitData(d, i, j, fitter);
  }

  /** Fitting fails only on an empty map. Otherwise both maps are `h` by `w`
      and pixel `(i, j)` of each holds that pixel's own fit. */
  lemma FitPixelsMaps(d: ImageData, w: nat, h: nat, fitter: Fitter)
    ensures FitPixels(d, w, h, fitter).Success? <==> w > 0 && h > 0
    ensures FitPixels(d, w, h, fitter).Success? ==>
      var maps := FitPixels(d, w, h, fitter).value;
      && IsRect(maps.thickness, h, w) && IsRect(maps.stderr, h, w)
      && forall i: nat, j: nat :: i < h && j < w ==>
           maps.thickness[i][j] == FitData(d, i, j, fitter).thickness &&
           maps.stderr[i][j] == FitData(d, i, j, fitter).stderr
  {
    FitPixelsSucceeds(d, w, h, fitter);
    if w > 0 && h > 0 {
      FitPixelsShape(d, w, h, fitter);
      var maps := FitPixels(d, w, h, fitter).value;
      forall i: nat, j: nat | i < h && j < w
        ensures maps.thickness[i][j] == FitData(d, i, j, fitter).thickness
        ensures maps.stderr[i][j] == FitData(d, i, j, fitter).stderr
      {
        FitPixelsAt(d, w, h, fitter, i, j);
      }
    }
  }

  /** Lines 142-158 for one measurement table: the dimensions, the arrays,
      then the fits. */
  function FitTimepoint(fname: Path, rows: seq<TableRow>, imread: Reader, fitter: Fitter): (r: Result<FitMaps, ImagingError>)
    ensures |rows| < 2 ==> r == Failure(MissingSampleRow)
  {
    var dims :- GetImageDimensions(fname, rows, imread);
    var d :- OpenImageData(fname, rows, imread);
    FitPixels(d, dims.0, dims.1, fitter)
  }

  /** Once the dimensions are read and the arrays open, a timepoint is the
      fit of its pixels. */
  lemma FitTimepointUnfold(fname: Path, rows: seq<TableRow>, imread: Reader, fitter: Fitter)
    requires |rows| >= 2 && OpenImageData(fname, rows, imread).Success?
    ensures var dims := GetImageDimensions(fname, rows, imread).value;
      FitTimepoint(fname, rows, imread, fitter) == FitPixels(OpenImageData(fname, rows, imread).value, dims.0, dims.1, fitter)
  {
  }

  /** Without a row with index 1, or when a stack fails, the timepoint
      fails. */
  lemma FitTimepointFails(fname: Path, rows: seq<TableRow>, imread: Reader, fitter: Fitter)
    requires |rows| < 2 || OpenImageData(fname, rows, imread).Failure?
    ensures FitTimepoint(fname, rows, imread, fitter).Failure?
  {
  }

  /** A whole timepoint succeeds exactly when the table has a row with
      index 1 and both the Delta and the Psi images stack. */
  lemma FitTimepointSucceeds(fname: Path, rows: seq<TableRow>, imread: Reader, fitter: Fitter)
    ensures FitTimepoint(fname, rows, imread, fitter).Success? <==>
      |rows| >= 2 && OpenImageData(fname, rows, imread).Success?
  {
    if |rows| >= 2 && OpenImageData(fname, rows, imread).Success? {
      var dims := GetImageDimensions(fname, rows, imread).value;
      var img := imread(ImagePath(fname, rows[1].delta));
      ImageShape(img, dims.1, dims.0);
      FitPixelsMaps(OpenImageData(fname, rows, imread).value, dims.0, dims.1, fitter);
      FitTimepointUnfold(fname, rows, imread, fitter);
    } else {
      FitTimepointFails(fname, rows, imread, fitter);
    }
  }

  /** When the table has a row with index 1 and both stacks exist, the
      timepoint succeeds; both maps have the `(height, width)` that
      `get_image_dimensions` reads, which is the shape of every Delta image
      (`DimensionsMatchStack`), and pixel `(i, j)` of both maps holds that
      pixel's own fit. */
  lemma FitTimepointMaps(fname: Path, rows: seq<TableRow>, imread: Reader, fitter: Fitter)
    requires |rows| >= 2 && OpenImageData(fname, rows, imread).Success?
    ensures FitTimepoint(fname, rows, imread, fitter).Success?
    ensures var maps := FitTimepoint(fname, rows, imread, fitter).value;
      var d := OpenImageData(fname, rows, imread).value;
      var dims := GetImageDimensions(fname, rows, imread).value;
      var w, h := dims.0, dims.1;
      && IsRect(maps.thickness, h, w) && IsRect(maps.stderr, h, w)
      && forall i: nat, j: nat :: i < h && j < w ==>
           maps.thickness[i][j] == FitData(d, i, j, fitter).thickness &&
           maps.stderr[i][j] == FitData(d, i, j, fitter).stderr
  {
    var dims := GetImageDimensions(fname, rows, imread).value;
    var d := OpenImageData(fname, rows, imread).value;
    ImageShape(imread(ImagePath(fname, rows[1].delta)), dims.1, dims.0);
    FitTimepointUnfold(fname, rows, imread, fitter);
    FitPixelsMaps(d, dims.0, dims.1, fitter);
  }
}
