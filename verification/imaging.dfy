/** imaging2.py: one ellipsometric map of a film is fitted pixel by pixel.
    A measurement table lists, per wavelength and angle of incidence, the
    file names of a Delta image and a Psi image. The images are stacked into
    arrays of shape `(N, H, W)`, the per-measurement Lambda and AOI columns
    are broadcast to the same shape, every pixel's `N` measurements (minus
    those with a missing value) are handed to a thin-film fitter, and the
    row-major list of fitted thicknesses and standard errors is reshaped
    into two `H` by `W` maps.

    The PNG decoder, the table reader and the optical fitter are parameters:
    `imread` is a function from paths to images, the table is a list of rows
    and the fitter is a function that either yields a fit or fails. */
module Imaging {
  import opened Common
  import opened Grid
  import opened FileOps

  /** A measured value; a floating-point NaN is `None`. */
  type Value = Option<real>

  /** A decoded image has at least one row and one column (the PNG header
      admits no zero dimension) and all rows have the same length. */
  predicate IsImage(img: seq<seq<Value>>) {
    |img| > 0 && |img[0]| > 0 && IsRect(img, |img|, |img[0]|)
  }

  type Image = img: seq<seq<Value>> | IsImage(img) witness [[None]]

  /** What `imread` returns for a path. */
  type Reader = Path -> Image

  /** A numpy array of three dimensions, as nested sequences. */
  type Stack = seq<seq<seq<Value>>>

  /** `get_im_height`: `np.shape(image_array)[0]`. */
  function ImHeight(img: Image): nat {
    |img|
  }

  /** `get_im_width`: `np.shape(image_array)[1]`. */
  function ImWidth(img: Image): (r: nat)
    ensures r > 0 && forall y :: 0 <= y < |img| ==> |img[y]| == r
  {
    |img[0]|
  }

  /** Height counts the rows and width the pixels of each row, and an image
      has no other shape. */
  lemma ImageShape(img: Image, h: nat, w: nat)
    ensures IsRect(img, h, w) <==> h == ImHeight(img) && w == ImWidth(img)
  {
    if IsRect(img, h, w) {
      assert |img[0]| == w;
    }
  }

  /** One row of the measurement table once the unused columns are dropped:
      wavelength, angle of incidence, and the file names of the Delta and Psi
      images, relative to the table's folder. */
  datatype TableRow = TableRow(lambda: Value, aoi: Value, delta: string, psi: string)

  /** The ways the script aborts. */
  datatype ImagingError =
    | MissingSampleRow  // `df['Delta'][1]` on a table of fewer than two rows
    | NothingToStack    // `np.stack([])`
    | ShapeMismatch     // `np.stack` of images of different shapes
    | NothingToUnpack   // `thickness_arr, stderr_arr = zip(*[])`
    | ReshapeMismatch   // `np.reshape` to a different number of entries

  /** `os.path.join(os.path.dirname(fname), name)`. */
  function ImagePath(fname: Path, name: string): Path {
    Join(DirName(fname), name)
  }

  /** `get_image_dimensions(fname)`: `(width, height)` of the Delta image on
      the table's row with index 1. */
  function GetImageDimensions(fname: Path, rows: seq<TableRow>, imread: Reader): (r: Result<(nat, nat), ImagingError>)
    ensures r.Success? <==> |rows| >= 2
    ensures r.Success? ==> IsRect(imread(ImagePath(fname, rows[1].delta)), r.value.1, r.value.0)
  {
    if |rows| < 2 then Failure(MissingSampleRow)
    else
      var img := imread(ImagePath(fname, rows[1].delta));
      ImageShape(img, ImHeight(img), ImWidth(img));
      Success((ImWidth(img), ImHeight(img)))
  }

  /** The images named in the Delta column, in table order. */
  function DeltaImages(fname: Path, rows: seq<TableRow>, imread: Reader): (r: seq<Image>)
    ensures |r| == |rows|
    ensures forall n :: 0 <= n < |rows| ==> r[n] == imread(ImagePath(fname, rows[n].delta))
  {
    seq<Image>(|rows|, n requires 0 <= n < |rows| => imread(ImagePath(fname, rows[n].delta)))
  }

  /** The images named in the Psi column, in table order. */
  function PsiImages(fname: Path, rows: seq<TableRow>, imread: Reader): (r: seq<Image>)
    ensures |r| == |rows|
    ensures forall n :: 0 <= n < |rows| ==> r[n] == imread(ImagePath(fname, rows[n].psi))
  {
    seq<Image>(|rows|, n requires 0 <= n < |rows| => imread(ImagePath(fname, rows[n].psi)))
  }

  /** `np.stack` accepts a non-empty list of images of one shape. */
  predicate Stackable(images: seq<Image>) {
    |images| > 0 && forall n :: 0 <= n < |images| ==> IsRect(images[n], ImHeight(images[0]), ImWidth(images[0]))
  }

  /** `np.stack(images)`: an array of shape `(N, H, W)` whose plane `n` is
      image `n`. */
  function StackImages(images: seq<Image>): (r: Result<Stack, ImagingError>)
    ensures r.Success? <==> Stackable(images)
    ensures r.Success? ==> IsBox(r.value, |images|, ImHeight(images[0]), ImWidth(images[0]))
    ensures r.Success? ==> forall n :: 0 <= n < |images| ==> r.value[n] == images[n]
    ensures |images| == 0 ==> r == Failure(NothingToStack)
  {
    if |images| == 0 then Failure(NothingToStack)
    else if Stackable(images) then Success(images)
    else Failure(ShapeMismatch)
  }

  /** Lines 61-64 for Lambda, 67-70 for AOI: `np.array([column] * H)` has
      shape `(H, N)`, `np.array(W * [that])` has shape `(W, H, N)`, and
      `transpose()` reverses the axes to `(N, H, W)`. */
  function Broadcast(column: seq<Value>, h: nat, w: nat): (r: Stack)
    ensures IsBox(r, |column|, h, w)
    ensures forall n, i, j :: 0 <= n < |column| && 0 <= i < h && 0 <= j < w ==> r[n][i][j] == column[n]
  {
    var rows := Repeat(column, h);
    var planes := Repeat(rows, w);
    assert IsBox(planes, w, h, |column|) by {
      forall x | 0 <= x < w ensures IsRect(planes[x], h, |column|) {
        assert planes[x] == rows;
      }
    }
    Transpose3(planes, w, h, |column|)
  }

  /** The table's Lambda column. */
  function Lambdas(rows: seq<TableRow>): (r: seq<Value>)
    ensures |r| == |rows|
    ensures forall n :: 0 <= n < |rows| ==> r[n] == rows[n].lambda
  {
    seq(|rows|, n requires 0 <= n < |rows| => rows[n].lambda)
  }

  /** The table's AOI column. */
  function Aois(rows: seq<TableRow>): (r: seq<Value>)
    ensures |r| == |rows|
    ensures forall n :: 0 <= n < |rows| ==> r[n] == rows[n].aoi
  {
    seq(|rows|, n requires 0 <= n < |rows| => rows[n].aoi)
  }

  /** The four arrays `openEP4ImageData` returns. */
  datatype ImageData = ImageData(lambda: Stack, aoi: Stack, psi: Stack, delta: Stack)

  /** `openEP4ImageData(fname)`: Delta is stacked first, then Psi; Lambda and
      AOI are broadcast to the shape of the Delta stack. The Psi stack is not
      checked against it. */
  function OpenImageData(fname: Path, rows: seq<TableRow>, imread: Reader): (r: Result<ImageData, ImagingError>)
    ensures r.Success? <==> Stackable(DeltaImages(fname, rows, imread)) && Stackable(PsiImages(fname, rows, imread))
    ensures |rows| == 0 ==> r == Failure(NothingToStack)
  {
    var delta :- StackImages(DeltaImages(fname, rows, imread));
    var psi :- StackImages(PsiImages(fname, rows, imread));
    var h, w := |delta[0]|, |delta[0][0]|;
    Success(ImageData(Broadcast(Lambdas(rows), h, w), Broadcast(Aois(rows), h, w), psi, delta))
  }

  /** On success, Delta, Lambda and AOI share the shape `(N, H, W)` of the
      Delta images; Delta's plane `n` is the image of row `n`, and Lambda and
      AOI repeat row `n`'s value over the whole of plane `n`. Psi holds the
      Psi images in the shape of its own first image. */
  lemma OpenImageDataShape(fname: Path, rows: seq<TableRow>, imread: Reader)
    requires OpenImageData(fname, rows, imread).Success?
    ensures var d := OpenImageData(fname, rows, imread).value;
      var deltas, psis := DeltaImages(fname, rows, imread), PsiImages(fname, rows, imread);
      var h, w := ImHeight(deltas[0]), ImWidth(deltas[0]);
      && IsBox(d.delta, |rows|, h, w)
      && IsBox(d.lambda, |rows|, h, w)
      && IsBox(d.aoi, |rows|, h, w)
      && IsBox(d.psi, |rows|, ImHeight(psis[0]), ImWidth(psis[0]))
      && (forall n :: 0 <= n < |rows| ==> d.delta[n] == deltas[n] && d.psi[n] == psis[n])
      && (forall n, i, j :: 0 <= n < |rows| && 0 <= i < h && 0 <= j < w ==>
            d.lambda[n][i][j] == rows[n].lambda && d.aoi[n][i][j] == rows[n].aoi)
  {
    var deltas := DeltaImages(fname, rows, imread);
    var delta := StackImages(deltas).value;
    assert |delta[0]| == ImHeight(deltas[0]) && |delta[0][0]| == ImWidth(deltas[0]);
  }

  /** The Delta stack's shape agrees with `get_image_dimensions`: width is
      `delta_array.shape[2]` and height `delta_array.shape[1]`. */
  lemma DimensionsMatchStack(fname: Path, rows: seq<TableRow>, imread: Reader)
    requires |rows| >= 2 && OpenImageData(fname, rows, imread).Success?
    ensures var dims := GetImageDimensions(fname, rows, imread).value;
      var delta := OpenImageData(fname, rows, imread).value.delta;
      IsBox(delta, |rows|, dims.1, dims.0)
  {
    var deltas := DeltaImages(fname, rows, imread);
    OpenImageDataShape(fname, rows, imread);
    var dims := GetImageDimensions(fname, rows, imread).value;
    assert IsRect(deltas[1], ImHeight(deltas[0]), ImWidth(deltas[0]));
    ImageShape(deltas[1], ImHeight(deltas[0]), ImWidth(deltas[0]));
    ImageShape(deltas[1], dims.1, dims.0);
  }
}
