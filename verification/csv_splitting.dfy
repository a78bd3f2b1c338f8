/** csv_splitting.py: a measurement file holding every timepoint is cut into
    one file per timepoint. The first two lines are a header; the remaining
    lines (the body) hold `rowsPerTimepoint` consecutive lines per timepoint.
    Each timepoint gets a folder under `split_maps` holding copies of the
    shared `.png` and `.dsinfo.xml` files and a `.dat` file made of the header
    followed by that timepoint's slice of the body. */
module CsvSplitting {
  import opened Common
  import opened PySeq
  import opened Timepoints
  import opened FileOps
  import opened Grid

  /** One line as `readlines` returns it, newline included. */
  type Line = string

  datatype SplitConfig = SplitConfig(
    datFolder: Path,
    datName: string,
    pngName: string,
    xmlName: string,
    timepoints: nat,
    rowsPerTimepoint: nat,
    interval: nat,
    tag: string)

  /** The number of header lines copied into every output file. */
  const HeaderLines: nat := 2

  /** The folder, inside the data folder, that receives one sub-folder per timepoint. */
  const SplitRootName := "split_maps"

  /** The values the script hard-codes: 13 timepoints of 20 lines, 30 minutes apart, at 120 C. */
  const SourceConfig := SplitConfig(
    [@"C:\Users\lb958\Data\2023_01_25_Cu_120C\maps"],
    "Cu_Tile_120C_map_20230125-131101.ds.dat",
    "Cu_Tile_120C_map_20230125-131101.ds.png",
    "Cu_Tile_120C_map_20230125-131101.dsinfo.xml",
    13, 20, 30, "120C")

  /** `dat_list[0:2]`: the first two lines, or fewer when the file is shorter. */
  function Header(lines: seq<Line>): (r: seq<Line>)
    ensures |r| == Min(HeaderLines, |lines|)
    ensures forall k :: 0 <= k < |r| ==> r[k] == lines[k]
  {
    Slice(lines, 0, HeaderLines)
  }

  /** `dat_list[2:]`: every line after the header. */
  function Body(lines: seq<Line>): (r: seq<Line>)
    ensures |r| == Max(0, |lines| - HeaderLines)
    ensures forall k :: 0 <= k < |r| ==> r[k] == lines[HeaderLines + k]
  {
    Suffix(lines, HeaderLines)
  }

  /** Header and body partition the file: together they are the input, in order. */
  lemma HeaderBodyPartition(lines: seq<Line>)
    ensures Header(lines) + Body(lines) == lines
  {
    SliceSuffixSplit(lines, HeaderLines);
  }

  /** `body[i*rows:i*rows+rows]`: the body lines of timepoint `i`, which
      start at body line `RowStart(i, rows)`, that is `i * rows`
      (`Grid.RowStartIsProduct`). Python truncates the slice, so a short file
      yields a short or empty slice instead of an error. */
  function TimepointRows(body: seq<Line>, i: nat, rows: nat): (r: seq<Line>)
    ensures |r| == Min(rows, Max(0, |body| - RowStart(i, rows)))
    ensures forall k :: 0 <= k < |r| ==> RowStart(i, rows) + k < |body| && r[k] == body[RowStart(i, rows) + k]
  {
    Slice(body, RowStart(i, rows), RowStart(i, rows) + rows)
  }

  /** The outputs of one timepoint. */
  datatype TimepointFolder = TimepointFolder(
    folder: Path,
    copies: seq<FileCopy>,
    datPath: Path,
    datLines: seq<Line>)

  /** `destination_root_folder`. */
  function SplitRoot(cfg: SplitConfig): Path {
    Join(cfg.datFolder, SplitRootName)
  }

  /** `split_folder` of timepoint `i`. */
  function TimepointFolderPath(cfg: SplitConfig, i: nat): Path {
    Join(SplitRoot(cfg), FolderName(MeasurementTime(i, cfg.interval), cfg.tag))
  }

  /** One iteration of the loop: copy the image and the XML description into
      the folder and write the header plus this timepoint's lines. */
  function SplitTimepoint(cfg: SplitConfig, lines: seq<Line>, i: nat): (r: TimepointFolder)
    ensures r.folder == TimepointFolderPath(cfg, i)
    ensures r.datPath == Join(r.folder, cfg.datName)
    ensures r.copies == [FileCopy(Join(cfg.datFolder, cfg.pngName), Join(r.folder, cfg.pngName)),
                         FileCopy(Join(cfg.datFolder, cfg.xmlName), Join(r.folder, cfg.xmlName))]
    ensures r.datLines == Header(lines) + TimepointRows(Body(lines), i, cfg.rowsPerTimepoint)
  {
    var folder := TimepointFolderPath(cfg, i);
    TimepointFolder(
      folder,
      [FileCopy(Join(cfg.datFolder, cfg.pngName), Join(folder, cfg.pngName)),
       FileCopy(Join(cfg.datFolder, cfg.xmlName), Join(folder, cfg.xmlName))],
      Join(folder, cfg.datName),
      Header(lines) + TimepointRows(Body(lines), i, cfg.rowsPerTimepoint))
  }

  /** The first `n` iterations of `for i in range(...)`, in order. */
  function SplitFolders(cfg: SplitConfig, lines: seq<Line>, n: nat): (r: seq<TimepointFolder>)
    ensures |r| == n
    ensures forall i :: 0 <= i < n ==> r[i] == SplitTimepoint(cfg, lines, i)
  {
    if n == 0 then [] else SplitFolders(cfg, lines, n - 1) + [SplitTimepoint(cfg, lines, n - 1)]
  }

  datatype SplitPlan = SplitPlan(root: Path, folders: seq<TimepointFolder>)

  /** The whole script: the root folder and one output per timepoint. */
  function SplitMeasurementFile(cfg: SplitConfig, lines: seq<Line>): (r: SplitPlan)
    ensures |r.folders| == cfg.timepoints
    ensures forall i :: 0 <= i < cfg.timepoints ==> r.folders[i] == SplitTimepoint(cfg, lines, i)
  {
    SplitPlan(SplitRoot(cfg), SplitFolders(cfg, lines, cfg.timepoints))
  }

  /** Every output file begins with the same header: the first two lines of
      the input (all of it when the input is shorter). */
  lemma SplitFileHeader(cfg: SplitConfig, lines: seq<Line>, i: nat)
    ensures var dat := SplitTimepoint(cfg, lines, i).datLines;
      && |Header(lines)| <= |dat|
      && dat[..|Header(lines)|] == Header(lines)
      && (|lines| >= HeaderLines ==> dat[..HeaderLines] == lines[..HeaderLines])
  {
    AppendParts(Header(lines), TimepointRows(Body(lines), i, cfg.rowsPerTimepoint));
  }

  /** After the header, timepoint `i`'s `.dat` file holds input lines
      `2 + i*rows` up to `2 + i*rows + rows`, as far as the input reaches, and
      never raises for a short input. */
  lemma SplitFileBody(cfg: SplitConfig, lines: seq<Line>, i: nat)
    ensures var dat := SplitTimepoint(cfg, lines, i).datLines;
      var start := HeaderLines + RowStart(i, cfg.rowsPerTimepoint);
      && |Header(lines)| <= |dat|
      && dat[|Header(lines)|..] == Slice(lines, start, start + cfg.rowsPerTimepoint)
  {
    AppendParts(Header(lines), TimepointRows(Body(lines), i, cfg.rowsPerTimepoint));
    TimepointRowsInFile(lines, i, cfg.rowsPerTimepoint);
  }

  /** Timepoint `i`'s `.dat` file has the header lines plus
      `min(rows, max(0, len(body) - i*rows))` body lines. */
  lemma SplitFileLength(cfg: SplitConfig, lines: seq<Line>, i: nat)
    ensures |SplitTimepoint(cfg, lines, i).datLines|
      == Min(HeaderLines, |lines|) + Min(cfg.rowsPerTimepoint, Max(0, |Body(lines)| - RowStart(i, cfg.rowsPerTimepoint)))
  {
  }

  /** The two halves of a concatenation are recovered by cutting at the seam. */
  lemma AppendParts(a: seq<Line>, b: seq<Line>)
    ensures (a + b)[..|a|] == a && (a + b)[|a|..] == b
  {
  }

  /** Timepoint `i`'s slice of the body is a slice of the whole file, shifted past the header. */
  lemma TimepointRowsInFile(lines: seq<Line>, i: nat, rows: nat)
    ensures TimepointRows(Body(lines), i, rows)
      == Slice(lines, HeaderLines + RowStart(i, rows), HeaderLines + RowStart(i, rows) + rows)
  {
    var a := RowStart(i, rows);
    var body := Body(lines);
    assert body == Suffix(lines, HeaderLines);
    assert TimepointRows(body, i, rows) == Slice(body, a, a + rows);
    SliceOfSuffix(lines, HeaderLines, a, a + rows);
  }

  /** The body slices of timepoints `0 .. n-1`, in order. */
  function TimepointSlices(body: seq<Line>, rows: nat, n: nat): (r: seq<seq<Line>>)
    ensures |r| == n
  {
    seq(n, i requires 0 <= i < n => TimepointRows(body, i, rows))
  }

  /** The body slices of timepoints `0 .. n-1`, in order, concatenate to the
      first `n * rows` body lines (fewer when the body is shorter): the slices
      are consecutive, with no gap and no overlap. */
  lemma {:induction false} SlicesConcatenate(body: seq<Line>, rows: nat, n: nat)
    ensures Flatten(TimepointSlices(body, rows, n)) == Slice(body, 0, RowStart(n, rows))
  {
    var parts := TimepointSlices(body, rows, n);
    if n == 0 {
      assert parts == [];
      assert Slice(body, 0, 0) == [];
    } else {
      var prev := TimepointSlices(body, rows, n - 1);
      assert parts == prev + [TimepointRows(body, n - 1, rows)];
      SlicesConcatenate(body, rows, n - 1);
      FlattenAppend(prev, TimepointRows(body, n - 1, rows));
      SliceAdjacent(body, 0, RowStart(n - 1, rows), RowStart(n, rows));
    }
  }

  /** Slices of different timepoints cover disjoint ranges of body indices:
      a later timepoint's range starts where or after an earlier one's ends. */
  lemma SlicesDisjoint(i: nat, j: nat, rows: nat)
    requires i < j
    ensures RowStart(i, rows) + rows <= RowStart(j, rows)
  {
    RowStartMonotone(i, j, rows);
  }

  /** Every body line lands in the slice of timepoint `k / rows`, at position
      `k % rows`; with the disjointness above, in no other slice. */
  lemma LinePlacement(body: seq<Line>, rows: nat, k: nat)
    requires k < |body| && rows > 0
    ensures var r := TimepointRows(body, k / rows, rows);
      k % rows < |r| && r[k % rows] == body[k]
  {
    DivModIndex(k, rows);
  }

  /** The body part of every output of the plan, in order. */
  function OutputBodies(cfg: SplitConfig, lines: seq<Line>): (r: seq<seq<Line>>)
    ensures |r| == cfg.timepoints
  {
    var plan := SplitMeasurementFile(cfg, lines);
    var h := |Header(lines)|;
    seq(cfg.timepoints, i requires 0 <= i < cfg.timepoints =>
      SplitFileHeader(cfg, lines, i);
      plan.folders[i].datLines[h..])
  }

  /** Output `i`'s body part is timepoint `i`'s slice of the body. */
  lemma OutputBodiesAreSlices(cfg: SplitConfig, lines: seq<Line>)
    ensures OutputBodies(cfg, lines) == TimepointSlices(Body(lines), cfg.rowsPerTimepoint, cfg.timepoints)
  {
    var n := cfg.timepoints;
    var bodies := OutputBodies(cfg, lines);
    var slices := TimepointSlices(Body(lines), cfg.rowsPerTimepoint, n);
    forall i | 0 <= i < n ensures bodies[i] == slices[i] {
      AppendParts(Header(lines), slices[i]);
    }
  }

  /** The outputs' body parts, read in order, are the first
      `timepoints * rows` lines of the body (`RowStart(timepoints, rows)`;
      fewer for a short file): no body line inside that range is lost or
      written twice. */
  lemma SplitCoversBody(cfg: SplitConfig, lines: seq<Line>)
    ensures Flatten(OutputBodies(cfg, lines)) == Slice(Body(lines), 0, RowStart(cfg.timepoints, cfg.rowsPerTimepoint))
  {
    OutputBodiesAreSlices(cfg, lines);
    SlicesConcatenate(Body(lines), cfg.rowsPerTimepoint, cfg.timepoints);
  }

  /** Every timepoint gets its own folder. */
  lemma SplitFoldersDistinct(cfg: SplitConfig, lines: seq<Line>, i: nat, j: nat)
    requires cfg.interval > 0
    requires i < cfg.timepoints && j < cfg.timepoints && i != j
    ensures var plan := SplitMeasurementFile(cfg, lines);
      plan.folders[i].folder != plan.folders[j].folder
      && plan.folders[i].datPath != plan.folders[j].datPath
  {
    TimepointFoldersDistinct(i, j, cfg.interval, cfg.tag);
    var a := FolderName(MeasurementTime(i, cfg.interval), cfg.tag);
    var b := FolderName(MeasurementTime(j, cfg.interval), cfg.tag);
    assert TimepointFolderPath(cfg, i)[|SplitRoot(cfg)|] == a;
    assert TimepointFolderPath(cfg, j)[|SplitRoot(cfg)|] == b;
  }

  /** With the script's literals: 13 folders named `measurement_{30 i}min_120C`,
      and when the file has at least 2 + 13 * 20 lines every output holds the
      two header lines and exactly 20 body lines. */
  lemma SourceSplit(lines: seq<Line>, i: nat)
    requires i < 13
    ensures var plan := SplitMeasurementFile(SourceConfig, lines);
      && |plan.folders| == 13
      && plan.folders[i].folder == [@"C:\Users\lb958\Data\2023_01_25_Cu_120C\maps", "split_maps",
                                    FolderName(30 * i, "120C")]
      && (|lines| >= 2 + 13 * 20 ==> |plan.folders[i].datLines| == 22)
  {
    var plan := SplitMeasurementFile(SourceConfig, lines);
    assert plan.folders[i] == SplitTimepoint(SourceConfig, lines, i);
    SplitFileBody(SourceConfig, lines, i);
    RowStartIsProduct(i, 20);
    RowStartIsProduct(i, 30);
  }

  /** With the script's literals the thirteen outputs, read in order, hold
      exactly the body lines `0 .. min(260, len(body))`. */
  lemma SourceSplitCoversBody(lines: seq<Line>)
    ensures Flatten(OutputBodies(SourceConfig, lines)) == Slice(Body(lines), 0, 260)
  {
    SplitCoversBody(SourceConfig, lines);
    RowStartIsProduct(13, 20);
  }
}
