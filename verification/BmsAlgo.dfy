/**
The pack computation (BmsAlgo.cpp): one pass for extremes and sum, one for the
balancing flags, and a warning level; and the bar fill of the display layer
(BmsNextionPacket.cpp) that shares its voltage scale.
*/
module BmsAlgo {
  import opened Words

  const CELLS: nat := 24
  const BALANCE_THRESHOLD_MV: int := 50
  const BALANCE_TOP_MARGIN_MV: int := 5
  const SOC_EMPTY_MV: int := 2500
  const SOC_FULL_MV: int := 3650
  const UNDERVOLT_CRIT_MV: int := 2500
  const OVERVOLT_CRIT_MV: int := 3650
  const OVERTEMP_CRIT_C: int := 60
  const UNDERVOLT_WARN_MV: int := 2800
  const OVERVOLT_WARN_MV: int := 3550
  const OVERTEMP_WARN_C: int := 50
  const NO_DATA: uint16 := 65535

  const WARN_OK: uint8 := 0
  const WARN_WARNING: uint8 := 1
  const WARN_CRITICAL: uint8 := 2

  datatype PackData = PackData(cellMv: seq<uint16>, cellTempC: seq<int16>, currentMa: int32, isValid: bool) {
    /** The C++ arrays have one entry a cell. */
    predicate WellFormed() {
      |cellMv| == CELLS && |cellTempC| == CELLS
    }
  }

  datatype Computed = Computed(packMv: uint32, maxMv: uint16, minMv: uint16, maxIndex: uint8, minIndex: uint8,
                               deltaMv: uint16, soc: uint8, balance: seq<bool>, warning: uint8,
                               tempMax: int16, tempMin: int16)

  function Sum(s: seq<uint16>): (n: nat)
    ensures n <= 0xFFFF * |s|
  {
    if s == [] then 0 else Sum(s[..|s| - 1]) + s[|s| - 1]
  }

  function SocFromAverage(mv: uint32): (soc: uint8)
    ensures soc <= 100
  {
    if mv <= SOC_EMPTY_MV then 0
    else if mv >= SOC_FULL_MV then 100
    else (mv - SOC_EMPTY_MV) * 100 / (SOC_FULL_MV - SOC_EMPTY_MV)
  }

  function CellBarFill(mv: uint16): (fill: uint8)
    ensures fill <= 100
  {
    if mv == NO_DATA then 0
    else if mv <= SOC_EMPTY_MV then 0
    else if mv >= SOC_FULL_MV then 100
    else (mv - SOC_EMPTY_MV) * 100 / (SOC_FULL_MV - SOC_EMPTY_MV)
  }

  /** i is the first position of the largest value. */
  ghost predicate FirstMax(s: seq<int>, i: int) {
    && 0 <= i < |s|
    && (forall k :: 0 <= k < |s| ==> s[k] <= s[i])
    && (forall k :: 0 <= k < i ==> s[k] < s[i])
  }

  /** i is the first position of the smallest value. */
  ghost predicate FirstMin(s: seq<int>, i: int) {
    && 0 <= i < |s|
    && (forall k :: 0 <= k < |s| ==> s[i] <= s[k])
    && (forall k :: 0 <= k < i ==> s[i] < s[k])
  }

  /** hi and lo are the extreme values of s. */
  ghost predicate Extremes(s: seq<int>, hi: int, lo: int) {
    && hi in s && lo in s
    && forall k :: 0 <= k < |s| ==> lo <= s[k] <= hi
  }

  /** The cells that may be discharged: only in an unbalanced pack, those near the top. */
  predicate Discharges(mv: uint16, hi: int, lo: int) {
    hi - lo > BALANCE_THRESHOLD_MV && mv + BALANCE_TOP_MARGIN_MV >= hi
  }

  function WarningLevel(lo: int, hi: int, hottest: int): (level: uint8) {
    if lo < UNDERVOLT_CRIT_MV || hi > OVERVOLT_CRIT_MV || hottest > OVERTEMP_CRIT_C then WARN_CRITICAL
    else if lo < UNDERVOLT_WARN_MV || hi > OVERVOLT_WARN_MV || hottest > OVERTEMP_WARN_C then WARN_WARNING
    else WARN_OK
  }

  const SAFE_INVALID: Computed :=
    Computed(0, 0, 0, 0, 0, 0, 0, NoFlags(CELLS), WARN_CRITICAL, 0, 0)

  function NoFlags(n: nat): (s: seq<bool>)
    ensures |s| == n
    ensures forall i :: 0 <= i < n ==> !s[i]
  {
    if n == 0 then [] else NoFlags(n - 1) + [false]
  }

  /** What the computation of a valid pack must satisfy. */
  ghost predicate Describes(c: Computed, d: PackData)
    requires d.WellFormed()
  {
    && c.packMv == Sum(d.cellMv)
    && FirstMax(d.cellMv, c.maxIndex) && c.maxMv == d.cellMv[c.maxIndex]
    && FirstMin(d.cellMv, c.minIndex) && c.minMv == d.cellMv[c.minIndex]
    && c.deltaMv == c.maxMv - c.minMv
    && Extremes(d.cellTempC, c.tempMax, c.tempMin)
    && c.soc == SocFromAverage(c.packMv / CELLS)
    && |c.balance| == CELLS
    && (forall i :: 0 <= i < CELLS ==> (c.balance[i] <==> Discharges(d.cellMv[i], c.maxMv, c.minMv)))
    && c.warning == WarningLevel(c.minMv, c.maxMv, c.tempMax)
  }

  /** The single pass over voltages and temperatures. */
  method ScanCells(v: seq<uint16>, t: seq<int16>)
    returns (sumMv: uint32, maxIdx: uint8, minIdx: uint8, tMax: int16, tMin: int16)
    requires |v| == CELLS && |t| == CELLS
    ensures sumMv == Sum(v)
    ensures FirstMax(v, maxIdx) && FirstMin(v, minIdx) && Extremes(t, tMax, tMin)
  {
    sumMv, maxIdx, minIdx, tMax, tMin := 0, 0, 0, t[0], t[0];
    var maxMv, minMv := v[0], v[0];
    for i := 0 to CELLS
      invariant sumMv == Sum(v[..i])
      invariant maxIdx < CELLS && minIdx < CELLS && maxMv == v[maxIdx] && minMv == v[minIdx]
      invariant forall k :: 0 <= k < i ==> minMv <= v[k] <= maxMv
      invariant forall k :: 0 <= k < maxIdx ==> v[k] < maxMv
      invariant forall k :: 0 <= k < minIdx ==> minMv < v[k]
      invariant tMax in t && tMin in t
      invariant forall k :: 0 <= k < i ==> tMin <= t[k] <= tMax
    {
      assert v[..i + 1][..i] == v[..i];
      sumMv := sumMv + v[i];
      if v[i] > maxMv {
        maxMv, maxIdx := v[i], i;
      }
      if v[i] < minMv {
        minMv, minIdx := v[i], i;
      }
      if t[i] > tMax {
        tMax := t[i];
      }
      if t[i] < tMin {
        tMin := t[i];
      }
    }
    assert v[..CELLS] == v;
  }

  /** The balancing rule, cell by cell. */
  method BalanceFlags(v: seq<uint16>, maxMv: uint16, minMv: uint16) returns (flags: seq<bool>)
    requires |v| == CELLS
    ensures |flags| == CELLS
    ensures forall i :: 0 <= i < CELLS ==> (flags[i] <==> Discharges(v[i], maxMv, minMv))
  {
    flags := NoFlags(CELLS);
    if maxMv - minMv > BALANCE_THRESHOLD_MV {
      var lowBound := if maxMv > BALANCE_TOP_MARGIN_MV then maxMv - BALANCE_TOP_MARGIN_MV else 0;
      for i := 0 to CELLS
        invariant |flags| == CELLS
        invariant forall k :: 0 <= k < i ==> (flags[k] <==> v[k] >= lowBound)
        invariant forall k :: i <= k < CELLS ==> !flags[k]
      {
        if v[i] >= lowBound {
          flags := flags[i := true];
        }
      }
    }
  }

  method ComputePack(d: PackData) returns (c: Computed)
    requires d.WellFormed()
    ensures !d.isValid ==> c == SAFE_INVALID
    ensures !d.isValid ==> c.warning == 2 && c.soc == 0 && true !in c.balance && |c.balance| == 24 && c.packMv == 0
    ensures d.isValid ==> Describes(c, d)
  {
    if !d.isValid {
      return SAFE_INVALID;
    }
    var sumMv, maxIdx, minIdx, tMax, tMin := ScanCells(d.cellMv, d.cellTempC);
    var maxMv, minMv := d.cellMv[maxIdx], d.cellMv[minIdx];
    var flags := BalanceFlags(d.cellMv, maxMv, minMv);
    c := Computed(sumMv, maxMv, minMv, maxIdx, minIdx, maxMv - minMv, SocFromAverage(sumMv / CELLS), flags,
                  WarningLevel(minMv, maxMv, tMax), tMax, tMin);
  }

  // --- What the numbers mean together ---

  lemma {:induction false} SumBounds(s: seq<uint16>, lo: int, hi: int)
    requires forall k :: 0 <= k < |s| ==> lo <= s[k] <= hi
    ensures lo * |s| <= Sum(s) <= hi * |s|
  {
    if s != [] {
      var p := s[..|s| - 1];
      SumBounds(p, lo, hi);
      OneMore(lo, |p|);
      OneMore(hi, |p|);
    }
  }

  lemma OneMore(x: int, n: int)
    ensures x * (n + 1) == x * n + x
  {
  }

  lemma {:induction false} SumCoversEach(s: seq<uint16>, k: nat)
    requires k < |s|
    ensures Sum(s) >= s[k]
  {
    if k < |s| - 1 {
      SumCoversEach(s[..|s| - 1], k);
    }
  }

  /** The description leaves no freedom: two computations of one pack agree. */
  lemma DescribesDetermines(c1: Computed, c2: Computed, d: PackData)
    requires d.WellFormed() && Describes(c1, d) && Describes(c2, d)
    ensures c1 == c2
  {
    hide Sum, SocFromAverage, WarningLevel, Discharges;
    FirstMaxUnique(d.cellMv, c1.maxIndex, c2.maxIndex);
    FirstMinUnique(d.cellMv, c1.minIndex, c2.minIndex);
    ExtremesUnique(d.cellTempC, c1.tempMax, c1.tempMin, c2.tempMax, c2.tempMin);
    assert c1.balance == c2.balance;
  }

  lemma FirstMaxUnique(s: seq<int>, i: int, j: int)
    requires FirstMax(s, i) && FirstMax(s, j)
    ensures i == j
  {
    assert s[i] <= s[j] && s[j] <= s[i];
  }

  lemma FirstMinUnique(s: seq<int>, i: int, j: int)
    requires FirstMin(s, i) && FirstMin(s, j)
    ensures i == j
  {
    assert s[i] <= s[j] && s[j] <= s[i];
  }

  lemma ExtremesUnique(s: seq<int>, a: int, b: int, x: int, y: int)
    requires Extremes(s, a, b) && Extremes(s, x, y)
    ensures a == x && b == y
  {
    var i :| 0 <= i < |s| && s[i] == a;
    var j :| 0 <= j < |s| && s[j] == b;
    var k :| 0 <= k < |s| && s[k] == x;
    var l :| 0 <= l < |s| && s[l] == y;
    assert s[i] <= x && s[k] <= a && y <= s[j] && b <= s[l];
  }

  /** The pack limits of the vehicle controller are 24 times the cell limits: beyond them the page says critical. */
  lemma PackLimitIsCritical(c: Computed, d: PackData)
    requires d.WellFormed() && Describes(c, d)
    requires c.packMv < 60000 || c.packMv > 87600
    ensures c.warning == WARN_CRITICAL
  {
    SumBounds(d.cellMv, c.minMv, c.maxMv);
  }

  /** The warning says no more and no less than: some cell or some temperature is beyond a limit. */
  lemma CriticalIffSomeCell(c: Computed, d: PackData)
    requires d.WellFormed() && Describes(c, d)
    ensures c.warning == 2 <==>
            exists k :: 0 <= k < CELLS &&
              (d.cellMv[k] < 2500 || d.cellMv[k] > 3650 || d.cellTempC[k] > 60)
  {
    hide Sum, SocFromAverage, Discharges;
    var i :| 0 <= i < CELLS && d.cellTempC[i] == c.tempMax;
    assert d.cellMv[c.minIndex] == c.minMv && d.cellMv[c.maxIndex] == c.maxMv;
  }

  /** No warning exactly if every cell and every temperature lies within the nominal band. */
  lemma NominalIffEveryCell(c: Computed, d: PackData)
    requires d.WellFormed() && Describes(c, d)
    ensures c.warning == 0 <==>
            forall k :: 0 <= k < CELLS ==> 2800 <= d.cellMv[k] <= 3550 && d.cellTempC[k] <= 50
    ensures c.warning <= 2
  {
    hide Sum, SocFromAverage, Discharges;
    var i :| 0 <= i < CELLS && d.cellTempC[i] == c.tempMax;
    assert d.cellMv[c.minIndex] == c.minMv && d.cellMv[c.maxIndex] == c.maxMv;
  }

  /** Balancing starts strictly above the threshold; it then drains the top of the pack and never its bottom. */
  lemma BalancingIsSafe(c: Computed, d: PackData)
    requires d.WellFormed() && Describes(c, d)
    ensures true in c.balance <==> c.maxMv - c.minMv > 50
    ensures true in c.balance ==> c.balance[c.maxIndex]
    ensures forall i :: 0 <= i < CELLS && d.cellMv[i] == c.minMv ==> !c.balance[i]
    ensures forall i, j :: 0 <= i < CELLS && 0 <= j < CELLS && c.balance[i] && d.cellMv[j] >= d.cellMv[i] ==>
              c.balance[j]
    ensures c.maxMv - c.minMv > 50 ==> forall i :: 0 <= i < CELLS ==> (c.balance[i] <==> d.cellMv[i] + 5 >= c.maxMv)
    ensures forall i :: 0 <= i < CELLS && c.balance[i] ==> d.cellMv[i] > c.minMv + 45
  {
    hide Sum, SocFromAverage, WarningLevel;
    if c.maxMv - c.minMv > BALANCE_THRESHOLD_MV {
      assert c.balance[c.maxIndex];
    }
  }

  lemma ScaleIsMonotone(a: int, b: int)
    requires a <= b
    ensures a * 100 / (SOC_FULL_MV - SOC_EMPTY_MV) <= b * 100 / (SOC_FULL_MV - SOC_EMPTY_MV)
  {
  }

  lemma SocIsMonotone(a: uint32, b: uint32)
    requires a <= b
    ensures SocFromAverage(a) <= SocFromAverage(b)
  {
    if a > SOC_EMPTY_MV && b < SOC_FULL_MV {
      ScaleIsMonotone(a - SOC_EMPTY_MV, b - SOC_EMPTY_MV);
    }
  }

  /** The scale: 0 % up to 2500 mV, 100 % from 3650 mV on, and in between the last whole per cent reached. */
  lemma SocIsLinear(mv: uint32)
    ensures mv <= 2500 ==> SocFromAverage(mv) == 0
    ensures SocFromAverage(mv) == 100 <==> mv >= 3650
    ensures 2500 < mv < 3650 ==>
              SocFromAverage(mv) * 1150 <= (mv - 2500) * 100 < (SocFromAverage(mv) + 1) * 1150
  {
  }

  lemma BarIsSoc(mv: uint16)
    ensures CellBarFill(mv) == if mv == NO_DATA then 0 else SocFromAverage(mv)
  {
  }

  /** The state of charge lies between the bars of the extreme cells exactly when no cell reads as "no data". */
  lemma SocBetweenBars(c: Computed, d: PackData)
    requires d.WellFormed() && Describes(c, d)
    ensures CellBarFill(c.minMv) <= c.soc <= CellBarFill(c.maxMv) <==> NO_DATA !in d.cellMv
  {
    hide Sum, SocFromAverage, CellBarFill, WarningLevel, Discharges;
    var avg := c.packMv / CELLS;
    SumBounds(d.cellMv, c.minMv, c.maxMv);
    assert c.minMv <= avg <= c.maxMv;
    SocIsMonotone(c.minMv, avg);
    SocIsMonotone(avg, c.maxMv);
    BarIsSoc(c.minMv);
    BarIsSoc(c.maxMv);
    assert NO_DATA in d.cellMv <==> c.maxMv == NO_DATA;
    if c.maxMv == NO_DATA {
      SumCoversEach(d.cellMv, c.maxIndex);
      SocAboveEmpty(avg);
    }
  }

  lemma SocAboveEmpty(mv: uint32)
    requires mv >= 2730
    ensures SocFromAverage(mv) > 0
  {
  }
}
