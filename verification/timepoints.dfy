/** The timepoint naming shared by the two file scripts: timepoint `i` was
    measured `i * interval` minutes after the start (`measurement_time = i*30`)
    and its files go to the folder `"measurement_{minutes}min_<tag>"`, where
    the tag names the sample temperature (`120C`, `115C`). */
module Timepoints {
  import opened Decimal
  import opened Grid

  /** `i * interval`, written as the start of slot `i` of width `interval`
      (`Grid.RowStartIsProduct`) so that no product of two variables reaches
      the solver. */
  function MeasurementTime(i: nat, interval: nat): (r: nat)
    ensures r == i * interval
  {
    RowStartIsProduct(i, interval);
    RowStart(i, interval)
  }

  /** Distinct timepoints are measured at distinct times when the interval is positive. */
  lemma MeasurementTimeInjective(i: nat, j: nat, interval: nat)
    requires interval > 0 && i != j
    ensures MeasurementTime(i, interval) != MeasurementTime(j, interval)
  {
    if i < j {
      RowStartMonotone(i, j, interval);
    } else {
      RowStartMonotone(j, i, interval);
    }
  }

  /** `"measurement_{}min_<tag>".format(minutes)`. */
  function FolderName(minutes: nat, tag: string): string {
    "measurement_" + DecimalString(minutes) + "min_" + tag
  }

  /** Equal strings with a common prefix and suffix have equal middles. */
  lemma CancelAffixes(p: string, a: string, b: string, q: string)
    requires p + a + q == p + b + q
    ensures a == b
  {
    var x, y := p + a + q, p + b + q;
    assert |a| == |b|;
    assert a == x[|p|..|p| + |a|];
    assert b == y[|p|..|p| + |b|];
  }

  /** Different measurement times give different folder names. */
  lemma FolderNameInjective(m: nat, n: nat, tag: string)
    requires m != n
    ensures FolderName(m, tag) != FolderName(n, tag)
  {
    DecimalStringInjective(m, n);
    if FolderName(m, tag) == FolderName(n, tag) {
      assert "measurement_" + DecimalString(m) + ("min_" + tag) == FolderName(m, tag);
      assert "measurement_" + DecimalString(n) + ("min_" + tag) == FolderName(n, tag);
      CancelAffixes("measurement_", DecimalString(m), DecimalString(n), "min_" + tag);
    }
  }

  /** The folders of two different timepoints never coincide. */
  lemma TimepointFoldersDistinct(i: nat, j: nat, interval: nat, tag: string)
    requires interval > 0 && i != j
    ensures FolderName(MeasurementTime(i, interval), tag) != FolderName(MeasurementTime(j, interval), tag)
  {
    MeasurementTimeInjective(i, j, interval);
    FolderNameInjective(MeasurementTime(i, interval), MeasurementTime(j, interval), tag);
  }
}
