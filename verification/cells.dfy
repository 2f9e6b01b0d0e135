/** Cell voltages: the effective cell count, the bounded voltage loop and the
    statistics tracked over it (minimum, maximum, their cells, sum, average).
    Voltages are millivolts, the raw 16-bit value. */
module Cells {
  import opened Wrappers
  import opened Bytes
  import opened Layouts

  /** Starting values of the running minimum and maximum, 100 V and -100 V;
      they are reported unchanged when no cell is read. */
  const MinSentinelMv: int := 100_000
  const MaxSentinelMv: int := -100_000

  /** An exact quotient; the average is sum / count with no rounding. */
  datatype Fraction = Fraction(numerator: int, denominator: nat)

  datatype CellStats = CellStats(
    voltagesMv: seq<nat>,
    minMv: int,
    minCell: nat,
    maxMv: int,
    maxCell: nat,
    sumMv: nat,
    cellCount: byte)
  {
    /** Spread between the extremes (the sentinels when no cell was read). */
    function DeltaMv(): int {
      maxMv - minMv
    }

    /** The sum of the voltages read divided by the effective cell count, not by
        the number of voltages read; undefined when the count is zero. */
    function AverageMv(): (r: Option<Fraction>)
      ensures r.Some? <==> cellCount > 0
      ensures r.Some? ==> r.value.numerator == sumMv && r.value.denominator == cellCount
    {
      if cellCount == 0 then None else Some(Fraction(sumMv, cellCount))
    }
  }

  function Sum(vs: seq<nat>): nat {
    if |vs| == 0 then 0 else Sum(vs[..|vs| - 1]) + vs[|vs| - 1]
  }

  /** `k` is the 1-based position of the first occurrence of the minimum. */
  predicate IsFirstMin(vs: seq<nat>, k: nat) {
    && 1 <= k <= |vs|
    && (forall j :: 0 <= j < |vs| ==> vs[k - 1] <= vs[j])
    && (forall j :: 0 <= j < k - 1 ==> vs[k - 1] < vs[j])
  }

  /** `k` is the 1-based position of the first occurrence of the maximum. */
  predicate IsFirstMax(vs: seq<nat>, k: nat) {
    && 1 <= k <= |vs|
    && (forall j :: 0 <= j < |vs| ==> vs[j] <= vs[k - 1])
    && (forall j :: 0 <= j < k - 1 ==> vs[j] < vs[k - 1])
  }

  /** Reference definition of the minimum's cell, recursing from the front. */
  function MinCell(vs: seq<nat>): (k: nat)
    requires |vs| > 0
    ensures IsFirstMin(vs, k)
  {
    if |vs| == 1 then 1
    else
      var k' := MinCell(vs[1..]);
      if vs[0] <= vs[1..][k' - 1] then 1 else k' + 1
  }

  /** Reference definition of the maximum's cell, recursing from the front. */
  function MaxCell(vs: seq<nat>): (k: nat)
    requires |vs| > 0
    ensures IsFirstMax(vs, k)
  {
    if |vs| == 1 then 1
    else
      var k' := MaxCell(vs[1..]);
      if vs[0] >= vs[1..][k' - 1] then 1 else k' + 1
  }

  lemma FirstMinUnique(vs: seq<nat>, a: nat, b: nat)
    requires IsFirstMin(vs, a) && IsFirstMin(vs, b)
    ensures a == b
  {
    assert vs[a - 1] == vs[b - 1];
  }

  lemma FirstMaxUnique(vs: seq<nat>, a: nat, b: nat)
    requires IsFirstMax(vs, a) && IsFirstMax(vs, b)
    ensures a == b
  {
    assert vs[a - 1] == vs[b - 1];
  }

  /** One step of the scan: a strictly smaller value takes over the minimum,
      a tie keeps the earlier cell. */
  lemma ExtendFirstMin(vs: seq<nat>, k: nat, v: nat)
    requires IsFirstMin(vs, k)
    ensures IsFirstMin(vs + [v], if v < vs[k - 1] then |vs| + 1 else k)
  {
  }

  /** One step of the scan: a strictly larger value takes over the maximum,
      a tie keeps the earlier cell. */
  lemma ExtendFirstMax(vs: seq<nat>, k: nat, v: nat)
    requires IsFirstMax(vs, k)
    ensures IsFirstMax(vs + [v], if v > vs[k - 1] then |vs| + 1 else k)
  {
  }

  lemma SumAppend(vs: seq<nat>, v: nat)
    ensures Sum(vs + [v]) == Sum(vs) + v
  {
    assert (vs + [v])[..|vs|] == vs;
  }

  /** Statistics over the voltages read: the sum, and either the untouched
      sentinels with cell 0 or the first-occurrence extremes. */
  function StatsOf(vs: seq<nat>, cellCount: byte): (s: CellStats)
    ensures s.voltagesMv == vs && s.sumMv == Sum(vs) && s.cellCount == cellCount
    ensures |vs| == 0 ==> s.minMv == MinSentinelMv && s.maxMv == MaxSentinelMv && s.minCell == 0 && s.maxCell == 0
    ensures |vs| > 0 ==>
              && IsFirstMin(vs, s.minCell) && s.minMv == vs[s.minCell - 1]
              && IsFirstMax(vs, s.maxCell) && s.maxMv == vs[s.maxCell - 1]
  {
    if |vs| == 0 then CellStats(vs, MinSentinelMv, 0, MaxSentinelMv, 0, 0, cellCount)
    else
      var lo := MinCell(vs);
      var hi := MaxCell(vs);
      CellStats(vs, vs[lo - 1], lo, vs[hi - 1], hi, Sum(vs), cellCount)
  }

  /** The cell count the loop is bounded by: the operator override when it is
      set (non-zero), else the count byte of the frame. A frame too short to
      hold the count byte counts zero cells. */
  function EffectiveCellCount(data: Frame, layout: Layout, overrideCount: byte): (n: byte)
    ensures overrideCount != 0 ==> n == overrideCount
    ensures overrideCount == 0 && layout.cellCountOffset < |data| ==> n == data[layout.cellCountOffset]
    ensures overrideCount == 0 && layout.cellCountOffset >= |data| ==> n == 0
  {
    if overrideCount != 0 then overrideCount
    else if layout.cellCountOffset < |data| then data[layout.cellCountOffset]
    else 0
  }

  /** The cell count byte as the source reads it, with no bounds check: defined
      only when the override is set or the byte is inside the frame. */
  function CellCountAsWritten(data: Frame, layout: Layout, overrideCount: byte): (n: byte)
    requires overrideCount != 0 || layout.cellCountOffset < |data|
    ensures n == 0 <==> overrideCount == 0 && data[layout.cellCountOffset] == 0
  {
    if overrideCount != 0 then overrideCount else data[layout.cellCountOffset]
  }

  /** Wherever the unchecked read is defined, the checked count agrees with it. */
  lemma EffectiveCellCountAgrees(data: Frame, layout: Layout, overrideCount: byte)
    requires overrideCount != 0 || layout.cellCountOffset < |data|
    ensures EffectiveCellCount(data, layout, overrideCount) == CellCountAsWritten(data, layout, overrideCount)
  {
  }

  /** The voltage pass over a frame: at most min(16, effective count) cells,
      stopping at the first slot that does not fit; each voltage is the raw
      16-bit value of its slot; the statistics are those of exactly the
      voltages read. */
  function DecodeCells(data: Frame, layout: Layout, overrideCount: byte): (s: CellStats)
    ensures s.cellCount == EffectiveCellCount(data, layout, overrideCount)
    ensures |s.voltagesMv| == Min(Min(MaxCells, s.cellCount), SlotsFrom(data, layout.cellVoltagesStart))
    ensures forall i :: 0 <= i < |s.voltagesMv| ==>
              Fits(data, layout.cellVoltagesStart + 2 * i)
              && s.voltagesMv[i] == U16(data, layout.cellVoltagesStart + 2 * i)
    ensures s == StatsOf(s.voltagesMv, s.cellCount)
  {
    var n := EffectiveCellCount(data, layout, overrideCount);
    StatsOf(ReadRun(data, layout.cellVoltagesStart, Min(MaxCells, n)), n)
  }

  /** What the scan knows after reading `vs`: the running sum, and either the
      untouched sentinels or the first-occurrence extremes. */
  predicate Scanned(vs: seq<nat>, minMv: int, minCell: nat, maxMv: int, maxCell: nat, sum: nat) {
    && sum == Sum(vs)
    && (|vs| == 0 ==> minMv == MinSentinelMv && maxMv == MaxSentinelMv && minCell == 0 && maxCell == 0)
    && (|vs| > 0 ==> IsFirstMin(vs, minCell) && minMv == vs[minCell - 1])
    && (|vs| > 0 ==> IsFirstMax(vs, maxCell) && maxMv == vs[maxCell - 1])
  }

  /** One iteration of the scan keeps Scanned: the strict comparisons against
      the running extremes keep the first occurrence. */
  lemma ScanStep(vs: seq<nat>, minMv: int, minCell: nat, maxMv: int, maxCell: nat, sum: nat, v: nat)
    requires Scanned(vs, minMv, minCell, maxMv, maxCell, sum) && v < U16Limit
    ensures Scanned(vs + [v],
                    if v < minMv then v else minMv, if v < minMv then |vs| + 1 else minCell,
                    if v > maxMv then v else maxMv, if v > maxMv then |vs| + 1 else maxCell,
                    sum + v)
  {
    SumAppend(vs, v);
    if |vs| == 0 {
      assert IsFirstMin([v], 1) && IsFirstMax([v], 1);
    } else {
      ExtendFirstMin(vs, minCell, v);
      ExtendFirstMax(vs, maxCell, v);
    }
  }

  /** The scan's state at the end is the reference statistics. */
  lemma ScannedIsStatsOf(vs: seq<nat>, minMv: int, minCell: nat, maxMv: int, maxCell: nat, sum: nat, cellCount: byte)
    requires Scanned(vs, minMv, minCell, maxMv, maxCell, sum)
    ensures CellStats(vs, minMv, minCell, maxMv, maxCell, sum, cellCount) == StatsOf(vs, cellCount)
  {
    if |vs| > 0 {
      FirstMinUnique(vs, minCell, MinCell(vs));
      FirstMaxUnique(vs, maxCell, MaxCell(vs));
    }
  }

  /** The loop of the source over the frame itself: running sum, strict
      comparisons against the running extremes, break at the first slot that
      does not fit. It computes exactly DecodeCells. */
  method ScanCells(data: Frame, layout: Layout, overrideCount: byte) returns (stats: CellStats)
    ensures stats == DecodeCells(data, layout, overrideCount)
  {
    var cells := EffectiveCellCount(data, layout, overrideCount);
    var vs, minMv, minCell, maxMv, maxCell, sum := ScanVoltages(data, layout.cellVoltagesStart, Min(MaxCells, cells));
    ScannedIsStatsOf(vs, minMv, minCell, maxMv, maxCell, sum, cells);
    stats := CellStats(vs, minMv, minCell, maxMv, maxCell, sum, cells);
  }

  /** The voltage loop proper: it reads the same run as ReadRun and leaves the
      scan state Scanned over it. */
  method ScanVoltages(data: Frame, start: nat, limit: nat)
    returns (vs: seq<nat>, minMv: int, minCell: nat, maxMv: int, maxCell: nat, sum: nat)
    ensures vs == ReadRun(data, start, limit)
    ensures Scanned(vs, minMv, minCell, maxMv, maxCell, sum)
  {
    minMv, maxMv := MinSentinelMv, MaxSentinelMv;
    minCell, maxCell := 0, 0;
    sum := 0;
    vs := [];
    var i := 0;
    while i < limit
      invariant RunPrefix(data, start, limit, i, vs)
      invariant Scanned(vs, minMv, minCell, maxMv, maxCell, sum)
    {
      var pos := start + 2 * i;
      if pos + 2 > |data| {
        break;
      }
      var v := U16(data, pos);
      RunAdvance(data, start, limit, i, vs);
      minMv, minCell, maxMv, maxCell, sum := ScanOne(vs, minMv, minCell, maxMv, maxCell, sum, v);
      vs := vs + [v];
      i := i + 1;
    }
    RunComplete(data, start, limit, i, vs);
  }

  /** `vs` holds the first `i` fields of the run. */
  predicate RunPrefix(data: Frame, start: nat, limit: nat, i: nat, vs: seq<nat>) {
    var run := ReadRun(data, start, limit);
    i <= |run| && vs == run[..i]
  }

  /** A slot below the limit that fits extends the prefix by its value. */
  lemma RunAdvance(data: Frame, start: nat, limit: nat, i: nat, vs: seq<nat>)
    requires RunPrefix(data, start, limit, i, vs)
    requires i < limit && Fits(data, start + 2 * i)
    ensures RunPrefix(data, start, limit, i + 1, vs + [U16(data, start + 2 * i)])
  {
    var run := ReadRun(data, start, limit);
    assert i < |run|;
    assert run[..i + 1] == run[..i] + [run[i]];
  }

  /** The prefix is the whole run once the limit is reached or a slot does not
      fit. */
  lemma RunComplete(data: Frame, start: nat, limit: nat, i: nat, vs: seq<nat>)
    requires RunPrefix(data, start, limit, i, vs)
    requires i >= limit || !Fits(data, start + 2 * i)
    ensures vs == ReadRun(data, start, limit)
  {
  }

  /** One iteration's update of the running statistics: add to the sum, and
      take over the minimum or maximum only on a strict comparison. */
  method ScanOne(vs: seq<nat>, minMv: int, minCell: nat, maxMv: int, maxCell: nat, sum: nat, v: nat)
    returns (minMv': int, minCell': nat, maxMv': int, maxCell': nat, sum': nat)
    requires Scanned(vs, minMv, minCell, maxMv, maxCell, sum) && v < U16Limit
    ensures Scanned(vs + [v], minMv', minCell', maxMv', maxCell', sum')
  {
    ScanStep(vs, minMv, minCell, maxMv, maxCell, sum, v);
    minMv', minCell', maxMv', maxCell' := minMv, minCell, maxMv, maxCell;
    sum' := sum + v;
    if v < minMv {
      minMv' := v;
      minCell' := |vs| + 1;
    }
    if v > maxMv {
      maxMv' := v;
      maxCell' := |vs| + 1;
    }
  }

  lemma {:induction false} SumBounds(vs: seq<nat>, lo: int, hi: int)
    requires forall j :: 0 <= j < |vs| ==> lo <= vs[j] <= hi
    ensures lo * |vs| <= Sum(vs) <= hi * |vs|
  {
    if |vs| > 0 {
      var init := vs[..|vs| - 1];
      assert forall j :: 0 <= j < |init| ==> init[j] == vs[j];
      SumBounds(init, lo, hi);
      assert lo * |vs| == lo * |init| + lo;
      assert hi * |vs| == hi * |init| + hi;
    }
  }

  /** When the frame holds a slot for every counted cell and the count is
      between 1 and 16, every counted cell is read and the average lies
      between the extremes: min * count <= sum <= max * count. */
  lemma AverageWithinExtremes(data: Frame, layout: Layout, overrideCount: byte)
    requires layout.cellVoltagesStart + 2 * EffectiveCellCount(data, layout, overrideCount) <= |data|
    requires 0 < EffectiveCellCount(data, layout, overrideCount) <= MaxCells
    ensures var s := DecodeCells(data, layout, overrideCount);
            && |s.voltagesMv| == s.cellCount
            && s.minMv * s.cellCount <= s.sumMv <= s.maxMv * s.cellCount
  {
    var s := DecodeCells(data, layout, overrideCount);
    SlotsAtLeast(data, layout.cellVoltagesStart, s.cellCount);
    assert |s.voltagesMv| == s.cellCount;
    SumBounds(s.voltagesMv, s.minMv, s.maxMv);
  }

  /** The published spread is never negative once a cell is read; with no
      cell read it is the gap between the sentinels, -200 V. */
  lemma DeltaNonNegative(vs: seq<nat>, cellCount: byte)
    ensures StatsOf(vs, cellCount).DeltaMv() >= 0 <==> |vs| > 0
    ensures |vs| == 0 ==> StatsOf(vs, cellCount).DeltaMv() == MaxSentinelMv - MinSentinelMv
  {
  }

  /** Cutting a frame short after its count byte keeps the divisor of the
      average. */
  lemma TruncationKeepsDivisor(data: Frame, layout: Layout, overrideCount: byte, n: nat)
    requires layout.cellCountOffset < n <= |data|
    ensures DecodeCells(data[..n], layout, overrideCount).cellCount
            == DecodeCells(data, layout, overrideCount).cellCount
  {
    assert data[..n][layout.cellCountOffset] == data[layout.cellCountOffset];
  }

  /** Cutting a frame short after its count byte yields a prefix of the
      voltages. */
  lemma TruncationReadsPrefix(data: Frame, layout: Layout, overrideCount: byte, n: nat)
    requires layout.cellCountOffset < n <= |data|
    ensures DecodeCells(data[..n], layout, overrideCount).voltagesMv
            <= DecodeCells(data, layout, overrideCount).voltagesMv
  {
    TruncationKeepsDivisor(data, layout, overrideCount, n);
    var limit := Min(MaxCells, EffectiveCellCount(data, layout, overrideCount));
    assert limit == Min(MaxCells, EffectiveCellCount(data[..n], layout, overrideCount));
    ReadRunOfPrefix(data, n, layout.cellVoltagesStart, limit);
    assert DecodeCells(data[..n], layout, overrideCount).voltagesMv == ReadRun(data[..n], layout.cellVoltagesStart, limit);
    assert DecodeCells(data, layout, overrideCount).voltagesMv == ReadRun(data, layout.cellVoltagesStart, limit);
  }

  /** With the corrected count, a frame too short for its count byte holds no
      cell slot either, so no voltage is read whatever the count would be. */
  lemma MissingCountByteReadsNoCell(data: Frame, layout: Layout, overrideCount: byte)
    requires WellFormed(layout) && layout.cellCountOffset >= |data|
    ensures SlotsFrom(data, layout.cellVoltagesStart) == 0
    ensures DecodeCells(data, layout, overrideCount).voltagesMv == []
  {
  }

  /** Four cells of 3.288, 3.304, 3.316 and 3.287 V: the minimum is cell 4,
      the maximum cell 3, the spread 29 mV and the average 13195 / 4 mV. */
  lemma FourCellExample()
    ensures var s := StatsOf([3288, 3304, 3316, 3287], 4);
            && s.minMv == 3287 && s.minCell == 4
            && s.maxMv == 3316 && s.maxCell == 3
            && s.DeltaMv() == 29
            && s.AverageMv() == Some(Fraction(13195, 4))
  {
    var vs: seq<nat> := [3288, 3304, 3316, 3287];
    FourCellSum();
    var lo := MinCell(vs);
    var hi := MaxCell(vs);
    assert IsFirstMin(vs, 4);
    assert IsFirstMax(vs, 3);
    FirstMinUnique(vs, 4, lo);
    FirstMaxUnique(vs, 3, hi);
  }

  lemma FourCellSum()
    ensures Sum([3288, 3304, 3316, 3287]) == 13195
  {
    var v1: seq<nat> := [3288];
    var v2: seq<nat> := [3288, 3304];
    var v3: seq<nat> := [3288, 3304, 3316];
    var vs: seq<nat> := [3288, 3304, 3316, 3287];
    SumAppend([], 3288);
    assert [] + [3288] == v1;
    SumAppend(v1, 3304);
    assert v1 + [3304] == v2;
    SumAppend(v2, 3316);
    assert v2 + [3316] == v3;
    SumAppend(v3, 3287);
    assert v3 + [3287] == vs;
  }
}
