# Ellipsometric imaging bookkeeping, modelled in Dafny

The repository processes imaging-ellipsometry runs of copper films. Three
scripts hold the logic this project models.

- `csv_splitting.py` cuts one measurement table (`.ds.dat`) holding every
  timepoint into one table per timepoint. The first two lines form a header.
  Timepoint `i` receives the header followed by body lines
  `i*20 .. i*20+20`. Its folder is `measurement_{30 i}min_120C` under
  `split_maps`, and it also receives copies of the shared `.png` and
  `.dsinfo.xml` files.
- `file_management.py` copies the numbered PNG images of a run into one
  folder per timepoint. Timepoint `i` receives the images numbered
  `i*40 + j` for `j = 1 .. 40`. An image name is a fixed prefix, the number
  zero-padded to three digits, and `.png`. The folders are named
  `measurement_{30 i}min_115C`.
- `imaging2.py` fits a map pixel by pixel:
  - it reads the image size from the table's row with index 1;
  - it stacks the Delta and Psi images into `(N, H, W)` arrays and
    broadcasts the per-measurement wavelength (Lambda) and angle of
    incidence (AOI) to the same shape;
  - for every pixel it drops the measurements with a missing value and hands
    the rest to a thin-film fitter, with `(0, 0)` standing in for a failed
    fit;
  - it runs the fits over a worker pool in row-major pixel order, unzips
    the `(thickness, stderr)` pairs and reshapes each list into an `H` by
    `W` map.

Modules:

| file | module | contents |
|---|---|---|
| `common.dfy` | `Common` | `Option`, a failure-compatible `Result`, `Min`, `Max` |
| `pyseq.dfy` | `PySeq` | Python slices that truncate instead of raising, `range`, flattening |
| `grid.dfy` | `Grid` | rectangles and boxes, row-major indexing, `np.reshape`, list repetition, 3-D `transpose()` |
| `decimal.dfy` | `Decimal` | decimal rendering of naturals, its parser, the three-digit padding rule |
| `timepoints.dfy` | `Timepoints` | measurement times and folder names |
| `fileops.dfy` | `FileOps` | paths as lists of components, `os.path.join`, `os.path.dirname`, copies as descriptions |
| `csv_splitting.dfy` | `CsvSplitting` | csv_splitting.py |
| `file_management.dfy` | `FileManagement` | file_management.py |
| `imaging.dfy` | `Imaging` | image dimensions, stacking and broadcasting (`openEP4ImageData`) |
| `pixel_fit.dfy` | `PixelFitting` | `fit_data`, pixel tasks, the pool map, `zip`, reshape |

The scripts' effects are returned as data instead of performed:

- Each folder the splitter would create is a value. It lists the copies the
  script would make and the lines it would write.
- The renamer's plan likewise lists the copies of every timepoint.
- The literals (13 timepoints, 20 lines, 40 images, 30 minutes, the
  temperature tags, names and folders) are fields of a configuration
  record. `SourceConfig` in `CsvSplitting` and in `FileManagement` holds the
  values the script uses. The literals of `imaging2.py` sit in its main
  loop and fitter setup, which are not modelled.
- Integer products `i * k` are written `Grid.RowStart(i, k)`, a recursive
  sum that `Grid.RowStartIsProduct` proves equal to the product.

Parameters stand in for what lies outside the model:

- `imread` is a function from paths to images. A PNG image has at least one
  row and one column, so `Imaging.Image` is a non-empty rectangle.
- The table after `read_csv` and `drop` is a list of `TableRow`s.
- The optical fit is a function `Sample -> Option<Fit>`. `None` stands for a
  fit that raises.
- NaN is `None` in an `Option<real>`.
- A path is a list of components, so `os.path.join` appends one component.

## Model

| member | source | states |
|---|---|---|
| Grid.DataArrTo2D | imaging2.py:110-111 | reshaping succeeds exactly when the flat list has `im_width * im_height` entries; the result has `im_height` rows of `im_width` entries, and entry `[r][c]` is `flat[r * im_width + c]` |
| Grid.FlattenToRows | imaging2.py:110-111 | reading the rows of the reshaped map in order gives back the flat list |
| Grid.ToRowsFlatten | imaging2.py:110-111 | reshaping the flattening of any `h` by `w` rectangle gives back the rectangle |
| Grid.Transpose3 | imaging2.py:64 | `transpose()` of a `(d0, d1, d2)` array has shape `(d2, d1, d0)`, and entry `[x][y][z]` is the input's `[z][y][x]` |
| Grid.TransposeTwice | imaging2.py:64 | transposing twice gives back the array |
| Grid.RowMajorSplitRows | imaging2.py:151 | every index `k` below `h * w` is the row-major index `i * w + j` of the pixel `(k / w, k % w)`, which lies inside the `h` by `w` map, and of no other pixel `(i, j)` with `j < w` |
| Imaging.ImHeight | imaging2.py:26-28 | `get_im_height`: the first dimension of the image; `ImageShape` shows it is the number of rows of the only rectangle the image is |
| Imaging.ImWidth | imaging2.py:22-24 | `get_im_width`: a positive count that every row of the image has as its length; `ImageShape` shows it is the width of the only rectangle the image is |
| Imaging.ImageShape | imaging2.py:22-28 | an image is an `h` by `w` rectangle exactly when `h` is `get_im_height` (the first dimension) and `w` is `get_im_width` (the second) |
| Imaging.GetImageDimensions | imaging2.py:75-89 | the dimensions are read exactly when the table has a row with index 1; they are `(width, height)` of that row's Delta image |
| Imaging.DeltaImages | imaging2.py:49-51 | one image per table row, in table order, and image `n` is `imread` of row `n`'s Delta file joined to the table's folder |
| Imaging.PsiImages | imaging2.py:56-58 | one image per table row, in table order, and image `n` is `imread` of row `n`'s Psi file joined to the table's folder |
| Imaging.StackImages | imaging2.py:52 | stacking succeeds exactly for a non-empty list of images of one shape; the stack has shape `(N, H, W)` and plane `n` is image `n`; an empty list fails |
| Imaging.Broadcast | imaging2.py:61-70 | the broadcast column has shape `(N, H, W)`, and entry `[n][i][j]` is the column's value `n` for every `i` and `j` |
| Imaging.OpenImageData | imaging2.py:45-72 | opening succeeds exactly when both the Delta and the Psi images stack; an empty table fails with nothing to stack |
| Imaging.OpenImageDataShape | imaging2.py:48-72 | Delta, Lambda and AOI have the Delta images' shape `(N, H, W)`; Delta and Psi hold the images in table order; Lambda and AOI repeat row `n`'s value over plane `n` |
| Imaging.DimensionsMatchStack | imaging2.py:86-89 | `get_image_dimensions` returns `(delta_array.shape[2], delta_array.shape[1])` whenever the stack exists |
| PixelFitting.PixelVector | imaging2.py:95-98 | `arr[:, i:i+1, j:j+1].flatten()`: what it holds is stated by `PixelVectorOfBox` (the pixel's `N` values in plane order inside the image, nothing outside) and `PixelVectorLocal` (only the pixel's own entries matter) |
| PixelFitting.PixelVectorOfBox | imaging2.py:95-98 | `arr[:, i:i+1, j:j+1].flatten()` of an `(N, H, W)` array holds the pixel's `N` values in plane order when the pixel lies inside the image, and nothing otherwise |
| PixelFitting.PixelVectorLocal | imaging2.py:95-98 | a pixel's vector depends only on the pixel's own entries of each plane |
| PixelFitting.DropNa | imaging2.py:99-100 | `dropna` leaves four rows of equal length and keeps at most as many measurements as the longest row; which ones it keeps is stated by `CompleteColumnsExact` and `DropIncompleteKeeps` |
| PixelFitting.CompleteColumnsExact | imaging2.py:99 | the kept measurement indices are exactly those below `m` where none of lambda, AOI, psi and delta is missing, listed in increasing order |
| PixelFitting.DropIncompleteKeeps | imaging2.py:99-100 | the four rows of the sample have equal length, and position `t` of each row is that row's entry at the `t`-th complete measurement |
| PixelFitting.DropNaComplete | imaging2.py:99 | padding the rows to the longest never drops a complete measurement |
| PixelFitting.PixelSample | imaging2.py:95-100 | the fitter's input for a pixel has four rows of equal length; `PixelSampleOfBox` states which measurements they hold |
| PixelFitting.PixelSampleOfBox | imaging2.py:95-100 | on four `(N, H, W)` arrays the fitter receives, for a pixel inside the image, exactly the measurements where none of Lambda, AOI, Psi and Delta is missing, in measurement order, each with that pixel's four values; a pixel outside the image receives no measurements |
| PixelFitting.FitData | imaging2.py:102-108 | a failing fit gives the `(0, 0)` sentinel, and a successful fit gives its `(thickness, stderr)` |
| PixelFitting.FitDataLocal | imaging2.py:93-108 | a pixel's result depends only on that pixel's entries in the four arrays |
| PixelFitting.SentinelAmbiguous | imaging2.py:106-108 | a failed fit and a fit of zero thickness with zero error give the same result |
| PixelFitting.PixelTasks | imaging2.py:151 | the list comprehension of pixel tasks; `PixelTasksOrder` and `PixelTaskAt` state that it lists the `H * W` pixels in row-major order |
| PixelFitting.PixelTasksLength | imaging2.py:151 | the list of pixel tasks has `H * W` entries |
| PixelFitting.PixelTaskOf | imaging2.py:151 | height outer and width inner: task `i * W + j` is pixel `(i, j)` |
| PixelFitting.PixelTasksOrder | imaging2.py:151 | the list of pixel tasks has `H * W` entries and task `i * W + j` is pixel `(i, j)` for every pixel of the map |
| PixelFitting.PixelTaskAt | imaging2.py:151 | task `k` is pixel `(k div W, k mod W)` |
| PixelFitting.MapFit | imaging2.py:152 | the map returns one result per task, in task order, and result `k` is the fit of task `k`'s pixel |
| PixelFitting.Unzip | imaging2.py:154 | unzipping fails exactly on no results; otherwise it gives two lists as long as the results, with `thickness_arr[k]` and `stderr_arr[k]` the components of result `k` |
| PixelFitting.UnzipZip | imaging2.py:154 | zipping the two lists back gives the results |
| PixelFitting.ToMap | imaging2.py:157-158 | `data_arr_to_2D` of a result list succeeds exactly when the list has `W * H` entries; the map is `H` by `W` and entry `[i][j]` is list entry `i * W + j` |
| PixelFitting.FitPixels | imaging2.py:151-158 | the pool map, unzip and two reshapes for an `H` by `W` map; its outcome is stated by `FitPixelsSucceeds`, `FitPixelsShape`, `FitPixelsAt` and `FitPixelsMaps` |
| PixelFitting.FitPixelsSucceeds | imaging2.py:151-158 | fitting the pixels of an `H` by `W` map fails exactly when the map is empty, because nothing is left to unpack |
| PixelFitting.FitPixelsShape | imaging2.py:157-158 | a non-empty map yields a thickness map and an error map of `H` rows of `W` entries |
| PixelFitting.FitPixelsAt | imaging2.py:151-158 | pixel `(i, j)` of the thickness map is the thickness fitted for pixel `(i, j)`, and likewise for the error map |
| PixelFitting.FitPixelsMaps | imaging2.py:151-158 | fitting fails only for an empty map; otherwise both maps are `H` by `W`, and pixel `(i, j)` of each holds that pixel's own fit |
| PixelFitting.FitTimepoint | imaging2.py:142-158 | a table without a row with index 1 fails with the missing-row error before any image is stacked; the rest is stated by `FitTimepointSucceeds` and `FitTimepointMaps` |
| PixelFitting.FitTimepointSucceeds | imaging2.py:142-158 | a timepoint succeeds exactly when the table has a row with index 1 and both image stacks exist |
| PixelFitting.FitTimepointMaps | imaging2.py:142-158 | when the table has a row with index 1 and both stacks exist, the timepoint succeeds; the maps have the `(height, width)` read by `get_image_dimensions`, and pixel `(i, j)` of each holds the fit of pixel `(i, j)` of the opened arrays |
| CsvSplitting.Header | csv_splitting.py:29 | the header is the first two lines, or the whole file when it is shorter |
| CsvSplitting.Body | csv_splitting.py:30 | the body is every line from index 2 on, in order |
| CsvSplitting.HeaderBodyPartition | csv_splitting.py:28-30 | header followed by body is the file |
| CsvSplitting.TimepointRows | csv_splitting.py:47 | timepoint `i`'s slice has `min(20, max(0, len(body) - 20 i))` lines, and line `k` is body line `20 i + k`; a short file never raises |
| CsvSplitting.SplitTimepoint | csv_splitting.py:33-49 | timepoint `i`'s folder, the `.dat` path inside it, the `.png` and `.xml` copies from the data folder into it, and the header-plus-slice lines |
| CsvSplitting.SplitFolders | csv_splitting.py:32 | one output per timepoint, in timepoint order |
| CsvSplitting.SplitMeasurementFile | csv_splitting.py:27-49 | the script plans one output per timepoint, and output `i` is timepoint `i`'s folder, copies and lines; what those lines are is stated by `SplitFileHeader`, `SplitFileBody` and `SplitCoversBody` |
| CsvSplitting.SplitFileHeader | csv_splitting.py:29-47 | every output file begins with the same header, which is input lines 0 and 1 when the input has them |
| CsvSplitting.SplitFileBody | csv_splitting.py:47 | after the header, output `i` holds input lines `2 + 20 i .. 2 + 20 i + 20`, as far as the input reaches |
| CsvSplitting.SlicesConcatenate | csv_splitting.py:32-47 | the slices of timepoints `0 .. n-1`, concatenated in order, are the first `min(20 n, len(body))` body lines |
| CsvSplitting.SlicesDisjoint | csv_splitting.py:47 | a later timepoint's slice starts where or after an earlier one's ends |
| CsvSplitting.LinePlacement | csv_splitting.py:47 | body line `k` lands in timepoint `k div 20`'s slice at position `k mod 20` |
| CsvSplitting.OutputBodiesAreSlices | csv_splitting.py:47 | the body part of output `i` is timepoint `i`'s slice |
| CsvSplitting.SplitCoversBody | csv_splitting.py:32-47 | the outputs' body parts, read in order, are the first `timepoints * 20` body lines: nothing in that range is lost or written twice |
| CsvSplitting.SplitFoldersDistinct | csv_splitting.py:32-40 | different timepoints get different folders and different `.dat` paths |
| CsvSplitting.SourceSplit | csv_splitting.py:32-37 | with the script's literals there are 13 folders named `measurement_{30 i}min_120C` under `split_maps`; a file of at least 262 lines gives every output 22 lines |
| CsvSplitting.SourceSplitCoversBody | csv_splitting.py:29-47 | with the script's literals the 13 outputs together hold body lines `0 .. min(260, len(body))` in order |
| Timepoints.MeasurementTime | csv_splitting.py:33 | timepoint `i` is measured at `i * 30` minutes (the interval is a parameter); `MeasurementTimeInjective` shows distinct timepoints get distinct times |
| Timepoints.MeasurementTimeInjective | csv_splitting.py:33 | distinct timepoints have distinct measurement times |
| Timepoints.FolderName | csv_splitting.py:35 | `"measurement_{}min_<tag>".format(minutes)`; `FolderNameInjective` shows distinct minute counts give distinct names |
| Timepoints.FolderNameInjective | csv_splitting.py:35 | distinct measurement times give distinct folder names |
| Timepoints.TimepointFoldersDistinct | file_management.py:17-20 | distinct timepoints give distinct `measurement_{30 i}min_<tag>` names |
| Decimal.DecimalString | file_management.py:29-33 | `"{}".format` of a natural is a non-empty string of digits with no leading zero unless it is `0`; `ParseDecimalString` shows it denotes the number |
| Decimal.PadNumber | file_management.py:28-33 | the three-branch padding of a file number; its shape, its parse and its injectivity are stated by `PadNumberShape`, `ParsePadNumber` and `PadNumberInjective` |
| Decimal.ParseDecimalString | file_management.py:29-33 | parsing the decimal rendering of `n` gives `n` |
| Decimal.PadNumberShape | file_management.py:28-33 | the padded number is all digits; every number below 1000 pads to exactly three digits; larger numbers keep their own width |
| Decimal.ParsePadNumber | file_management.py:28-33 | parsing the padded string gives the file number back |
| Decimal.PadNumberInjective | file_management.py:28-33 | distinct file numbers give distinct padded strings |
| Decimal.PadNumberExamples | file_management.py:28-33 | 7 pads to `007`, 42 to `042` and 412 to `412` |
| FileManagement.FileNumber | file_management.py:27 | file `j` of timepoint `i` is number `i * 40 + j` (the count per timepoint is a parameter); `FolderNumbers` collects them per folder |
| FileManagement.FolderNumbers | file_management.py:26-27 | folder `i` receives the consecutive numbers `40 i + 1 .. 40 i + 40` |
| FileManagement.RenameImages | file_management.py:17-36 | the script plans one folder per timepoint, and entry `i` is timepoint `i`'s folder, numbers and copies; `AllFileNumbersExact` and `SourceRename` state what is copied in all |
| FileManagement.RenameTimepoint | file_management.py:17-36 | timepoint `i`'s folder, its numbers, and one copy per number of that image into the folder |
| FileManagement.RenameFolders | file_management.py:17 | one folder per timepoint, in order |
| FileManagement.NumberedRectFlatten | file_management.py:26-27 | a table numbered `1, 2, 3, ...` in row-major order flattens to that count |
| FileManagement.AllFileNumbersRange | file_management.py:17-27 | the numbers copied, folder after folder, are exactly `1, 2, ..., timepoints * 40` in increasing order |
| FileManagement.AllFileNumbersExact | file_management.py:17-27 | no number is copied twice, and a number is copied exactly when it lies in `1 .. timepoints * 40` |
| FileManagement.FolderNumbersDisjoint | file_management.py:26-27 | distinct timepoints receive disjoint number ranges |
| FileManagement.FileName | file_management.py:28-33 | the image name for a file number: prefix, padded number, extension; `FileNameShape` and `FileNameInjective` state its shape and that distinct numbers give distinct names |
| FileManagement.FileNameInjective | file_management.py:28-33 | distinct file numbers give distinct image names |
| FileManagement.FileNameShape | file_management.py:28-33 | below 1000 a name is the prefix, three digits that parse to the file number, and the extension |
| FileManagement.CopyImage | file_management.py:34-36 | the copy of image `n` from the base folder into a timepoint folder; `CopyKeepsName` states it keeps the name and changes only the folder |
| FileManagement.CopyKeepsName | file_management.py:34-36 | a copy keeps the image name and moves it from the base folder to the timepoint's folder |
| FileManagement.RenameFoldersDistinct | file_management.py:17-22 | different timepoints get different folders |
| FileManagement.SourceRename | file_management.py:17-36 | with the script's counts: 13 folders named `measurement_{30 i}min_<tag>`; folder `i` receives `40 i + 1 .. 40 i + 40`, each under a three-digit name; every number in `1 .. 520` is copied once |

## Left out

- `classes.py` is not part of this model. It is a plotting wrapper around matplotlib and `imread`.
- PNG decoding (`imread`) is a parameter. Reading and column-dropping of the table (`read_csv`, `drop`) are replaced by a given list of `TableRow`s.
- The refellips/refnx optical model and the differential-evolution fit are one parameter, a function that yields a fit or fails.
- The fitter is a pure function of a pixel's sample; this is an assumption of the model, not a property of the script. In the script `p.map` sends the tasks to the workers in chunks, and one chunk is one pickled message, so all tasks of a chunk share one copy of `model` and `cuo_layer`, and a fit may start from the thickness the previous fit in that chunk left in `cuo_layer.thick`, including a trial value left by a fit that raised. The differential-evolution fit is also unseeded. A pixel's result in the script can therefore depend on how the tasks are chunked and on the random-number state; `PixelFitting.FitDataLocal` holds for the model's `Fitter` only.
- The multiprocessing `Pool` is modelled as a sequential map that keeps order. The `Manager().Namespace` block (imaging2.py:145-149) is dead code.
- Effects are descriptions, not actions: `mkdir`, `shutil.copy`, the `.dat` writes, `pickle.dump`, `print` and timing. The existence checks before `mkdir` do not change the outputs.
- Floating point is not modelled. Values are reals; thickness and error are reals, so a fitter that reports no standard error is not represented.
- pandas padding: a shorter pixel vector is padded with missing values to the longest one before `dropna`. This matters only when the Psi stack has a different shape from the Delta stack, which the script never checks.
- The docstring of `openEP4ImageData` says the arrays have shape `(N, width, height)`. The code gives `(N, height, width)`, and the model follows the code.
- Source defects are noted, not modelled. `.format{time}` at imaging2.py:122 and imaging2.py:159-167 is a syntax error. The loop variable `time` shadows the `time` module, which breaks `time.time()` at imaging2.py:156. The folder path built at imaging2.py:122 (the per-timepoint loop over tables) is not modelled. The comment "number of measurements is 50" at file_management.py:17 is stale; the loop runs 13 times.
- The commented-out code at imaging2.py:173-239 is not modelled.
