/** file_management.py: the numbered PNG images of a run are copied into one
    folder per timepoint. Timepoint `i` (`0 <= i < timepoints`) receives the
    images numbered `i * filesPerTimepoint + j` for `j` in
    `1 .. filesPerTimepoint`; an image's name is a fixed prefix, its number
    padded to three digits, and `.png`. Copying keeps the name. */
module FileManagement {
  import opened PySeq
  import opened Grid
  import opened Decimal
  import opened Timepoints
  import opened FileOps

  datatype RenameConfig = RenameConfig(
    baseFolder: Path,
    timepoints: nat,
    filesPerTimepoint: nat,
    interval: nat,
    tag: string,
    filePrefix: string,
    fileExtension: string)

  /** The folder, inside the base folder, that receives one sub-folder per timepoint. */
  const SplitRootName := "split_maps"

  /** The values the script hard-codes: 13 timepoints of 40 images, 30 minutes apart, at 115 C. */
  const SourceConfig := RenameConfig(
    [@"C:\Users\lb958\Data\2023_01_30_Cu-Gr_Sample2\maps"],
    13, 40, 30, "115C",
    "Cu-Gr_115C_sample2_20230130-171219_", ".png")

  /** `file_number = (i*40)+j`, with `i * files` written `RowStart(i, files)`
      (`Grid.RowStartIsProduct`). */
  function FileNumber(cfg: RenameConfig, i: nat, j: nat): (r: nat)
    ensures r == i * cfg.filesPerTimepoint + j
  {
    RowStartIsProduct(i, cfg.filesPerTimepoint);
    RowStart(i, cfg.filesPerTimepoint) + j
  }

  /** The image name of file number `n`: prefix, padded number, extension. */
  function FileName(cfg: RenameConfig, n: nat): string {
    cfg.filePrefix + PadNumber(n) + cfg.fileExtension
  }

  /** `destination_root_folder`. */
  function RenameRoot(cfg: RenameConfig): Path {
    Join(cfg.baseFolder, SplitRootName)
  }

  /** `split_folder` of timepoint `i`. */
  function RenameFolderPath(cfg: RenameConfig, i: nat): Path {
    Join(RenameRoot(cfg), FolderName(MeasurementTime(i, cfg.interval), cfg.tag))
  }

  /** The file numbers of timepoint `i`: the inner loop `for j in range(1, 41)`.
      They are the consecutive numbers `i * files + 1 .. i * files + files`. */
  function FolderNumbers(cfg: RenameConfig, i: nat): (r: seq<nat>)
    ensures r == Range(RowStart(i, cfg.filesPerTimepoint) + 1, RowStart(i, cfg.filesPerTimepoint) + cfg.filesPerTimepoint + 1)
  {
    var js := Range(1, cfg.filesPerTimepoint + 1);
    seq(|js|, k requires 0 <= k < |js| => FileNumber(cfg, i, js[k]))
  }

  /** `shutil.copy(old_file_path, destination_file_path)` for file number `n`. */
  function CopyImage(cfg: RenameConfig, folder: Path, n: nat): FileCopy {
    FileCopy(Join(cfg.baseFolder, FileName(cfg, n)), Join(folder, FileName(cfg, n)))
  }

  /** The outputs of one timepoint. */
  datatype FolderCopies = FolderCopies(folder: Path, numbers: seq<nat>, copies: seq<FileCopy>)

  /** One iteration of the outer loop. */
  function RenameTimepoint(cfg: RenameConfig, i: nat): (r: FolderCopies)
    ensures r.folder == RenameFolderPath(cfg, i)
    ensures r.numbers == FolderNumbers(cfg, i)
    ensures |r.copies| == |r.numbers|
    ensures forall k :: 0 <= k < |r.copies| ==> r.copies[k] == CopyImage(cfg, r.folder, r.numbers[k])
  {
    var folder := RenameFolderPath(cfg, i);
    var numbers := FolderNumbers(cfg, i);
    FolderCopies(folder, numbers, seq(|numbers|, k requires 0 <= k < |numbers| => CopyImage(cfg, folder, numbers[k])))
  }

  /** The first `n` iterations of the outer loop, in order. */
  function RenameFolders(cfg: RenameConfig, n: nat): (r: seq<FolderCopies>)
    ensures |r| == n
    ensures forall i :: 0 <= i < n ==> r[i] == RenameTimepoint(cfg, i)
  {
    if n == 0 then [] else RenameFolders(cfg, n - 1) + [RenameTimepoint(cfg, n - 1)]
  }

  datatype RenamePlan = RenamePlan(root: Path, folders: seq<FolderCopies>)

  /** The whole script. */
  function RenameImages(cfg: RenameConfig): (r: RenamePlan)
    ensures |r.folders| == cfg.timepoints
    ensures forall i :: 0 <= i < cfg.timepoints ==> r.folders[i] == RenameTimepoint(cfg, i)
  {
    RenamePlan(RenameRoot(cfg), RenameFolders(cfg, cfg.timepoints))
  }

  /** The file numbers of each timepoint, as the plan lists them. */
  function NumberTable(cfg: RenameConfig): (r: seq<seq<nat>>)
    ensures |r| == cfg.timepoints
    ensures forall i :: 0 <= i < cfg.timepoints ==> r[i] == RenameImages(cfg).folders[i].numbers
  {
    var plan := RenameImages(cfg);
    seq(|plan.folders|, i requires 0 <= i < |plan.folders| => plan.folders[i].numbers)
  }

  /** Every file number the script copies, folder after folder. */
  function AllFileNumbers(cfg: RenameConfig): seq<nat> {
    Flatten(NumberTable(cfg))
  }

  predicate NoDuplicates<T(==)>(s: seq<T>) {
    forall a, b :: 0 <= a < b < |s| ==> s[a] != s[b]
  }

  /** The table of file numbers is a rectangle: timepoint `i`, position `j`
      holds number `i * files + j + 1`. */
  lemma NumberTableShape(cfg: RenameConfig)
    ensures IsRect(NumberTable(cfg), cfg.timepoints, cfg.filesPerTimepoint)
    ensures forall i: nat, j: nat :: i < cfg.timepoints && j < cfg.filesPerTimepoint ==>
      NumberTable(cfg)[i][j] == Index(i, j, cfg.filesPerTimepoint) + 1
  {
  }

  /** Position `k` of a rectangle numbered `1, 2, 3, ...` in row-major order,
      once flattened, holds `k + 1`. */
  lemma NumberedRectAt(table: seq<seq<nat>>, t: nat, f: nat, k: nat)
    requires IsRect(table, t, f)
    requires forall i: nat, j: nat :: i < t && j < f ==> table[i][j] == Index(i, j, f) + 1
    requires k < RowStart(t, f)
    ensures k < |Flatten(table)| && Flatten(table)[k] == k + 1
  {
    FlattenRect(table, t, f);
    RowMajorSplitRows(k, f, t);
    var i, j := k / f, k % f;
    assert Flatten(table)[Index(i, j, f)] == table[i][j];
  }

  /** A rectangle numbered `1, 2, 3, ...` in row-major order flattens to
      that count. */
  lemma NumberedRectFlatten(table: seq<seq<nat>>, t: nat, f: nat)
    requires IsRect(table, t, f)
    requires forall i: nat, j: nat :: i < t && j < f ==> table[i][j] == Index(i, j, f) + 1
    ensures Flatten(table) == Range(1, RowStart(t, f) + 1)
  {
    FlattenRect(table, t, f);
    var all := Flatten(table);
    var want := Range(1, RowStart(t, f) + 1);
    forall k | 0 <= k < |all| ensures all[k] == want[k] {
      NumberedRectAt(table, t, f, k);
    }
  }

  /** The numbers copied are exactly `1 .. timepoints * files`, in increasing
      order. */
  lemma AllFileNumbersRange(cfg: RenameConfig)
    ensures AllFileNumbers(cfg) == Range(1, RowStart(cfg.timepoints, cfg.filesPerTimepoint) + 1)
  {
    NumberTableShape(cfg);
    NumberedRectFlatten(NumberTable(cfg), cfg.timepoints, cfg.filesPerTimepoint);
  }

  /** No file number is skipped and none is copied twice: a number is copied
      exactly when it lies in `1 .. timepoints * files`, and at one position only. */
  lemma AllFileNumbersExact(cfg: RenameConfig)
    ensures NoDuplicates(AllFileNumbers(cfg))
    ensures forall n :: n in AllFileNumbers(cfg) <==> 1 <= n <= RowStart(cfg.timepoints, cfg.filesPerTimepoint)
  {
    var all := AllFileNumbers(cfg);
    var r := Range(1, RowStart(cfg.timepoints, cfg.filesPerTimepoint) + 1);
    AllFileNumbersRange(cfg);
    RangeMembers(1, RowStart(cfg.timepoints, cfg.filesPerTimepoint) + 1);
    assert all == r;
  }

  /** Two different timepoints receive disjoint ranges of file numbers. */
  lemma FolderNumbersDisjoint(cfg: RenameConfig, i: nat, i': nat)
    requires i != i'
    ensures forall n :: n in FolderNumbers(cfg, i) ==> n !in FolderNumbers(cfg, i')
  {
    var f := cfg.filesPerTimepoint;
    if i < i' {
      RowStartMonotone(i, i', f);
    } else {
      RowStartMonotone(i', i, f);
    }
  }

  /** Distinct file numbers give distinct image names. */
  lemma FileNameInjective(cfg: RenameConfig, m: nat, n: nat)
    requires m != n
    ensures FileName(cfg, m) != FileName(cfg, n)
  {
    PadNumberInjective(m, n);
    if FileName(cfg, m) == FileName(cfg, n) {
      CancelAffixes(cfg.filePrefix, PadNumber(m), PadNumber(n), cfg.fileExtension);
    }
  }

  /** Below 1000 an image name is the prefix, exactly three digits whose
      value is the file number, and the extension. */
  lemma FileNameShape(cfg: RenameConfig, n: nat)
    requires n < 1000
    ensures var name := FileName(cfg, n);
      var p := |cfg.filePrefix|;
      && |name| == p + 3 + |cfg.fileExtension|
      && name[..p] == cfg.filePrefix
      && name[p + 3..] == cfg.fileExtension
      && AllDigits(name[p..p + 3])
      && ParseDecimal(name[p..p + 3]) == n
  {
    PadNumberShape(n);
    ParsePadNumber(n);
    var name := FileName(cfg, n);
    var p := |cfg.filePrefix|;
    assert name[p..p + 3] == PadNumber(n);
  }

  /** A copy keeps the image's name and changes only its folder: from the base
      folder to the timepoint's folder. */
  lemma CopyKeepsName(cfg: RenameConfig, i: nat, k: nat)
    requires k < cfg.filesPerTimepoint
    ensures var out := RenameTimepoint(cfg, i);
      var c := out.copies[k];
      var name := FileName(cfg, out.numbers[k]);
      && c.src == Join(cfg.baseFolder, name)
      && c.dst == Join(out.folder, name)
      && c.src[|c.src| - 1] == c.dst[|c.dst| - 1]
      && cfg.baseFolder != out.folder
  {
    var out := RenameTimepoint(cfg, i);
    assert |out.folder| == |cfg.baseFolder| + 2;
  }

  /** Every timepoint gets its own folder. */
  lemma RenameFoldersDistinct(cfg: RenameConfig, i: nat, j: nat)
    requires cfg.interval > 0 && i != j
    ensures RenameFolderPath(cfg, i) != RenameFolderPath(cfg, j)
  {
    TimepointFoldersDistinct(i, j, cfg.interval, cfg.tag);
    assert RenameFolderPath(cfg, i)[|RenameRoot(cfg)|] == FolderName(MeasurementTime(i, cfg.interval), cfg.tag);
    assert RenameFolderPath(cfg, j)[|RenameRoot(cfg)|] == FolderName(MeasurementTime(j, cfg.interval), cfg.tag);
  }

  /** The script's counts: 13 timepoints of 40 images, 30 minutes apart. */
  predicate SourceCounts(cfg: RenameConfig) {
    cfg.timepoints == 13 && cfg.filesPerTimepoint == 40 && cfg.interval == 30
  }

  lemma SourceConfigCounts()
    ensures SourceCounts(SourceConfig) && SourceConfig.tag == "115C"
  {
  }

  /** With the script's counts: 13 folders named `measurement_{30 i}min_<tag>`;
      folder `i` receives numbers `40 i + 1 .. 40 i + 40`, each under a
      three-digit name; all numbers `1 .. 520` are copied, once each. */
  lemma SourceRename(cfg: RenameConfig, i: nat)
    requires SourceCounts(cfg) && i < 13
    ensures var plan := RenameImages(cfg);
      && |plan.folders| == 13
      && plan.folders[i].folder == cfg.baseFolder + ["split_maps", FolderName(30 * i, cfg.tag)]
      && plan.folders[i].numbers == Range(40 * i + 1, 40 * i + 41)
      && (forall k :: 0 <= k < 40 ==> |PadNumber(plan.folders[i].numbers[k])| == 3)
      && AllFileNumbers(cfg) == Range(1, 521)
  {
    var plan := RenameImages(cfg);
    var tf := RenameTimepoint(cfg, i);
    assert plan.folders[i] == tf;
    assert tf.folder == cfg.baseFolder + ["split_maps", FolderName(30 * i, cfg.tag)] by {
      RowStartIsProduct(i, 30);
    }
    assert tf.numbers == Range(40 * i + 1, 40 * i + 41) by {
      RowStartIsProduct(i, 40);
    }
    forall k | 0 <= k < 40 ensures |PadNumber(tf.numbers[k])| == 3 {
      PadNumberShape(tf.numbers[k]);
    }
    assert AllFileNumbers(cfg) == Range(1, 521) by {
      RowStartIsProduct(13, 40);
      AllFileNumbersRange(cfg);
    }
  }
}
