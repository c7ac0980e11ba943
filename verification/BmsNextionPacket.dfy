/**
The command builder of the BMS page (BmsNextionPacket.cpp): 76 fields, visited
in a fixed order, sent only when they differ from the cache, until the byte
budget of the call is spent.
*/
module BmsNextionPacket {
  import opened Words
  import opened Decimal
  import opened BmsAlgo

  /** Visiting order: cell0..23, j0..23, bal0..23, cellmax, cellmin, warn, cellcan. */
  const FIELDS: nat := 76
  const SUMMARY: nat := 72
  const CELL_MAX: nat := 72
  const CELL_MIN: nat := 73
  const WARN: nat := 74
  const CELL_CAN: nat := 75
  const END_BYTES: nat := 3

  /** The letters of a component name. */
  function Stem(k: nat): (s: string)
    requires k < FIELDS
    ensures 1 <= |s| <= 7
    ensures s == "bal" || s == "cell" || s == "j" || s == "cellmax" || s == "cellmin" || s == "warn" || s == "cellcan"
  {
    if k < 24 then "cell"
    else if k < 48 then "j"
    else if k < 72 then "bal"
    else if k == CELL_MAX then "cellmax"
    else if k == CELL_MIN then "cellmin"
    else if k == WARN then "warn"
    else "cellcan"
  }

  /** The number after the letters, printed with `%u`; the summary fields have none. */
  function Index(k: nat): string {
    if k < SUMMARY then Unsigned(k % 24) else ""
  }

  function CommandText(k: nat, v: int): string
    requires k < FIELDS
  {
    Stem(k) + Index(k) + ".val=" + Signed(v)
  }

  /** Bytes on the wire: the text and the three end bytes its caller appends. */
  function Cost(k: nat, v: int): nat
    requires k < FIELDS
  {
    |CommandText(k, v)| + END_BYTES
  }

  lemma CostBounds(k: nat, v: int)
    requires k < FIELDS && 0 <= v < 0x1_0000
    ensures 11 <= Cost(k, v) <= 20
  {
    UnsignedWidths(v);
    UnsignedWidths(k % 24);
    UnsignedLength(k % 24, 2);
    assert Pow10(2) == 10 * Pow10(1) && Pow10(1) == 10 * Pow10(0);
  }

  /** What every field should show. */
  function Target(comp: Computed, raw: PackData, verified: bool): (t: seq<uint16>)
    requires raw.WellFormed() && |comp.balance| == CELLS
    ensures |t| == FIELDS
  {
    seq(FIELDS, k requires 0 <= k < FIELDS => FieldTarget(k, comp, raw, verified))
  }

  function FieldTarget(k: nat, comp: Computed, raw: PackData, verified: bool): uint16
    requires raw.WellFormed() && |comp.balance| == CELLS && k < FIELDS
  {
    if k < 24 then raw.cellMv[k]
    else if k < 48 then CellBarFill(raw.cellMv[k - 24])
    else if k < 72 then (if comp.balance[k - 48] then 1 else 0)
    else if k == CELL_MAX then comp.maxMv
    else if k == CELL_MIN then comp.minMv
    else if k == WARN then comp.warning
    else if verified then 1 else 0
  }

  /** The cache of a fresh page. */
  function InitialCache(k: nat): uint16 {
    if k < 24 || k == CELL_MAX || k == CELL_MIN then 0 else 255
  }

  /** One call in progress: the cache, the bytes spent, the fields sent and their texts. */
  datatype Pass = Pass(cache: seq<uint16>, bytes: nat, exhausted: bool, complete: bool,
                       sent: seq<nat>, commands: seq<string>)

  function Visit(p: Pass, k: nat, v: uint16, force: bool, budget: nat): (q: Pass)
    requires |p.cache| == FIELDS && k < FIELDS
    ensures |q.cache| == FIELDS
  {
    if !(force || p.cache[k] != v) then p
    else if p.exhausted then p.(complete := false)
    else if p.bytes + Cost(k, v) > budget then p.(exhausted := true, complete := false)
    else p.(cache := p.cache[k := v], bytes := p.bytes + Cost(k, v), sent := p.sent + [k],
            commands := p.commands + [CommandText(k, v)])
  }

  function Sweep(p: Pass, lo: nat, hi: nat, target: seq<uint16>, force: bool, budget: nat): (q: Pass)
    requires |p.cache| == |target| == FIELDS && lo <= hi <= FIELDS
    ensures |q.cache| == FIELDS
    decreases hi, |target|
  {
    if lo == hi then p
    else Visit(Sweep(p, lo, hi - 1, target, force, budget), hi - 1, target[hi - 1], force, budget)
  }

  /** Where a call starts: the cells are skipped on a warm page unless they are due. */
  function FirstField(warm: bool, force: bool, updateCells: bool): nat {
    if updateCells || force || !warm then 0 else SUMMARY
  }

  function Started(cache: seq<uint16>): Pass {
    Pass(cache, 0, false, true, [], [])
  }

  function Built(cache: seq<uint16>, warm: bool, target: seq<uint16>, force: bool, updateCells: bool, budget: nat)
    : (p: Pass)
    requires |cache| == |target| == FIELDS
    ensures |p.cache| == FIELDS
  {
    Sweep(Started(cache), FirstField(warm, force, updateCells), FIELDS, target, force, budget)
  }

  /** The variables the emitting helper shares with the builder. */
  class Emitter {
    const maxBytes: nat
    var currentBytes: nat
    var budgetExhausted: bool
    var allProcessed: bool
    var commands: seq<string>

    constructor (maxBytes: nat)
      ensures this.maxBytes == maxBytes && currentBytes == 0 && !budgetExhausted && allProcessed && commands == []
    {
      this.maxBytes := maxBytes;
      currentBytes, budgetExhausted, allProcessed, commands := 0, false, true, [];
    }

    method EmitAndCheck(k: nat, v: uint16) returns (ok: bool)
      requires k < FIELDS
      modifies `currentBytes, `budgetExhausted, `commands
      ensures ok == (!old(budgetExhausted) && old(currentBytes) + Cost(k, v) <= maxBytes)
      ensures budgetExhausted == !ok
      ensures currentBytes == old(currentBytes) + (if ok then Cost(k, v) else 0)
      ensures commands == old(commands) + (if ok then [CommandText(k, v)] else [])
    {
      if budgetExhausted {
        return false;
      }
      var cmd := CommandText(k, v);
      if currentBytes + |cmd| + END_BYTES > maxBytes {
        budgetExhausted := true;
        return false;
      }
      commands := commands + [cmd];
      currentBytes := currentBytes + |cmd| + END_BYTES;
      return true;
    }
  }

  function Four(a: uint16, b: uint16, c: uint16, d: uint16): (s: seq<uint16>)
    ensures |s| == 4
  {
    [a, b, c, d]
  }

  class Page {
    const cellVoltageMv: array<uint16>
    const cellBarFill: array<uint8>
    const balanceFlag: array<uint8>
    var cellMaxMv: uint16
    var cellMinMv: uint16
    var warningLevel: uint8
    var cellCanStatus: uint8
    var isWarm: bool

    ghost predicate Valid()
      reads this
    {
      && cellVoltageMv.Length == cellBarFill.Length == balanceFlag.Length == CELLS
      && cellBarFill != balanceFlag
    }

    /** The cache in visiting order. */
    function Contents(): (cache: seq<uint16>)
      reads this, cellVoltageMv, cellBarFill, balanceFlag
      requires Valid()
      ensures |cache| == FIELDS
    {
      cellVoltageMv[..] + cellBarFill[..] + balanceFlag[..] + Four(cellMaxMv, cellMinMv, warningLevel, cellCanStatus)
    }

    /** The same, field by field. */
    ghost predicate Holds(cache: seq<uint16>)
      reads this, cellVoltageMv, cellBarFill, balanceFlag
      requires Valid()
    {
      && |cache| == FIELDS
      && (forall i :: 0 <= i < CELLS ==> cache[i] == cellVoltageMv[i])
      && (forall i :: 0 <= i < CELLS ==> cache[24 + i] == cellBarFill[i])
      && (forall i :: 0 <= i < CELLS ==> cache[48 + i] == balanceFlag[i])
      && cache[CELL_MAX] == cellMaxMv && cache[CELL_MIN] == cellMinMv
      && cache[WARN] == warningLevel && cache[CELL_CAN] == cellCanStatus
    }

    constructor ()
      ensures Valid() && !isWarm
      ensures fresh(cellVoltageMv) && fresh(cellBarFill) && fresh(balanceFlag)
      ensures forall k :: 0 <= k < FIELDS ==> Contents()[k] == InitialCache(k)
      ensures forall i :: 0 <= i < CELLS ==> cellVoltageMv[i] == 0 && cellBarFill[i] == 255 && balanceFlag[i] == 255
      ensures cellMaxMv == 0 && cellMinMv == 0 && warningLevel == 255 && cellCanStatus == 255
    {
      cellVoltageMv := new uint16[CELLS](_ => 0);
      cellBarFill := new uint8[CELLS](_ => 255);
      balanceFlag := new uint8[CELLS](_ => 255);
      cellMaxMv, cellMinMv, warningLevel, cellCanStatus, isWarm := 0, 0, 255, 255, false;
    }

    lemma HoldsIffContents(cache: seq<uint16>)
      requires Valid()
      ensures Holds(cache) <==> cache == Contents()
    {
      var c := Contents();
      assert forall i :: 0 <= i < CELLS ==>
        c[i] == cellVoltageMv[i] && c[24 + i] == cellBarFill[i] && c[48 + i] == balanceFlag[i];
      if Holds(cache) {
        forall k | 0 <= k < FIELDS
          ensures cache[k] == c[k]
        {
          if 24 <= k < 48 {
            assert cache[24 + (k - 24)] == cellBarFill[k - 24];
          } else if 48 <= k < 72 {
            assert cache[48 + (k - 48)] == balanceFlag[k - 48];
          }
        }
      }
    }

    /** The emitter and the cache are those of the pass. */
    ghost predicate At(p: Pass, e: Emitter)
      reads this, cellVoltageMv, cellBarFill, balanceFlag, e
      requires Valid()
    {
      && Holds(p.cache) && e.currentBytes == p.bytes && e.budgetExhausted == p.exhausted
      && e.allProcessed == p.complete && e.commands == p.commands
    }

    method VisitCell(i: nat, v: uint16, force: bool, e: Emitter, ghost p: Pass)
      requires Valid() && i < CELLS && At(p, e)
      modifies cellVoltageMv, e
      ensures At(Visit(p, i, v, force, e.maxBytes), e)
    {
      if force || v != cellVoltageMv[i] {
        var ok := e.EmitAndCheck(i, v);
        if !ok {
          e.allProcessed := false;
          return;
        }
        cellVoltageMv[i] := v;
      }
    }

    method VisitBar(i: nat, v: uint8, force: bool, e: Emitter, ghost p: Pass)
      requires Valid() && i < CELLS && At(p, e)
      modifies cellBarFill, e
      ensures At(Visit(p, 24 + i, v, force, e.maxBytes), e)
    {
      if force || v != cellBarFill[i] {
        var ok := e.EmitAndCheck(24 + i, v);
        if !ok {
          e.allProcessed := false;
          return;
        }
        cellBarFill[i] := v;
      }
    }

    method VisitFlag(i: nat, v: uint8, force: bool, e: Emitter, ghost p: Pass)
      requires Valid() && i < CELLS && At(p, e)
      modifies balanceFlag, e
      ensures At(Visit(p, 48 + i, v, force, e.maxBytes), e)
    {
      if force || v != balanceFlag[i] {
        var ok := e.EmitAndCheck(48 + i, v);
        if !ok {
          e.allProcessed := false;
          return;
        }
        balanceFlag[i] := v;
      }
    }

    /** cell0..23 */
    method VisitCells(comp: Computed, raw: PackData, verified: bool, force: bool, e: Emitter, ghost p: Pass)
      requires Valid() && raw.WellFormed() && |comp.balance| == CELLS && |p.cache| == FIELDS
      requires At(Sweep(p, 0, 0, Target(comp, raw, verified), force, e.maxBytes), e)
      modifies cellVoltageMv, e
      ensures At(Sweep(p, 0, 24, Target(comp, raw, verified), force, e.maxBytes), e)
    {
      hide At, Visit, CommandText, CellBarFill;
      ghost var t := Target(comp, raw, verified);
      for i := 0 to CELLS
        invariant At(Sweep(p, 0, i, t, force, e.maxBytes), e)
      {
        VisitCell(i, raw.cellMv[i], force, e, Sweep(p, 0, i, t, force, e.maxBytes));
      }
    }

    /** j0..23 */
    method VisitBars(comp: Computed, raw: PackData, verified: bool, force: bool, e: Emitter, ghost p: Pass)
      requires Valid() && raw.WellFormed() && |comp.balance| == CELLS && |p.cache| == FIELDS
      requires At(Sweep(p, 0, 24, Target(comp, raw, verified), force, e.maxBytes), e)
      modifies cellBarFill, e
      ensures At(Sweep(p, 0, 48, Target(comp, raw, verified), force, e.maxBytes), e)
    {
      hide At, Visit, CommandText, CellBarFill;
      ghost var t := Target(comp, raw, verified);
      for i := 0 to CELLS
        invariant At(Sweep(p, 0, 24 + i, t, force, e.maxBytes), e)
      {
        VisitBar(i, CellBarFill(raw.cellMv[i]), force, e, Sweep(p, 0, 24 + i, t, force, e.maxBytes));
      }
    }

    /** bal0..23 */
    method VisitFlags(comp: Computed, raw: PackData, verified: bool, force: bool, e: Emitter, ghost p: Pass)
      requires Valid() && raw.WellFormed() && |comp.balance| == CELLS && |p.cache| == FIELDS
      requires At(Sweep(p, 0, 48, Target(comp, raw, verified), force, e.maxBytes), e)
      modifies balanceFlag, e
      ensures At(Sweep(p, 0, 72, Target(comp, raw, verified), force, e.maxBytes), e)
    {
      hide At, Visit, CommandText, CellBarFill;
      ghost var t := Target(comp, raw, verified);
      for i := 0 to CELLS
        invariant At(Sweep(p, 0, 48 + i, t, force, e.maxBytes), e)
      {
        var flag: uint8 := if comp.balance[i] then 1 else 0;
        VisitFlag(i, flag, force, e, Sweep(p, 0, 48 + i, t, force, e.maxBytes));
      }
    }

    /** The 72 cell fields, when they are due. */
    method VisitDue(comp: Computed, raw: PackData, verified: bool, force: bool, updateCells: bool, e: Emitter,
                    ghost p: Pass)
      requires Valid() && raw.WellFormed() && |comp.balance| == CELLS && |p.cache| == FIELDS && At(p, e)
      modifies cellVoltageMv, cellBarFill, balanceFlag, e
      ensures At(Sweep(p, FirstField(isWarm, force, updateCells), SUMMARY, Target(comp, raw, verified), force,
                       e.maxBytes), e)
    {
      hide At, Visit, CommandText, FieldTarget;
      if updateCells || force || !isWarm {
        VisitCells(comp, raw, verified, force, e, p);
        VisitBars(comp, raw, verified, force, e, p);
        VisitFlags(comp, raw, verified, force, e, p);
      }
    }

    /** The four summary fields; each caches its value only when it was sent. */
    method VisitSummary(comp: Computed, raw: PackData, verified: bool, force: bool, e: Emitter, ghost p: Pass,
                        ghost lo: nat)
      requires Valid() && raw.WellFormed() && |comp.balance| == CELLS && |p.cache| == FIELDS && lo <= SUMMARY
      requires At(Sweep(p, lo, SUMMARY, Target(comp, raw, verified), force, e.maxBytes), e)
      modifies `cellMaxMv, `cellMinMv, `warningLevel, `cellCanStatus, e
      ensures At(Sweep(p, lo, FIELDS, Target(comp, raw, verified), force, e.maxBytes), e)
    {
      hide At, Visit, Sweep, CommandText, FieldTarget;
      ghost var t := Target(comp, raw, verified);
      SummaryTargets(comp, raw, verified);
      SweepSummary(p, lo, t, force, e.maxBytes);
      ghost var q0 := Sweep(p, lo, SUMMARY, t, force, e.maxBytes);
      VisitMax(comp.maxMv, force, e, q0);
      ghost var q1 := Visit(q0, CELL_MAX, comp.maxMv, force, e.maxBytes);
      VisitMin(comp.minMv, force, e, q1);
      ghost var q2 := Visit(q1, CELL_MIN, comp.minMv, force, e.maxBytes);
      VisitWarn(comp.warning, force, e, q2);
      ghost var q3 := Visit(q2, WARN, comp.warning, force, e.maxBytes);
      VisitCan(if verified then 1 else 0, force, e, q3);
    }

    method VisitMax(v: uint16, force: bool, e: Emitter, ghost p: Pass)
      requires Valid() && At(p, e)
      modifies `cellMaxMv, e
      ensures At(Visit(p, CELL_MAX, v, force, e.maxBytes), e)
    {
      if force || v != cellMaxMv {
        var ok := e.EmitAndCheck(CELL_MAX, v);
        if ok {
          cellMaxMv := v;
        } else {
          e.allProcessed := false;
        }
      }
    }

    method VisitMin(v: uint16, force: bool, e: Emitter, ghost p: Pass)
      requires Valid() && At(p, e)
      modifies `cellMinMv, e
      ensures At(Visit(p, CELL_MIN, v, force, e.maxBytes), e)
    {
      if force || v != cellMinMv {
        var ok := e.EmitAndCheck(CELL_MIN, v);
        if ok {
          cellMinMv := v;
        } else {
          e.allProcessed := false;
        }
      }
    }

    method VisitWarn(v: uint8, force: bool, e: Emitter, ghost p: Pass)
      requires Valid() && At(p, e)
      modifies `warningLevel, e
      ensures At(Visit(p, WARN, v, force, e.maxBytes), e)
    {
      if force || v != warningLevel {
        var ok := e.EmitAndCheck(WARN, v);
        if ok {
          warningLevel := v;
        } else {
          e.allProcessed := false;
        }
      }
    }

    method VisitCan(v: uint8, force: bool, e: Emitter, ghost p: Pass)
      requires Valid() && At(p, e)
      modifies `cellCanStatus, e
      ensures At(Visit(p, CELL_CAN, v, force, e.maxBytes), e)
    {
      if force || v != cellCanStatus {
        var ok := e.EmitAndCheck(CELL_CAN, v);
        if ok {
          cellCanStatus := v;
        } else {
          e.allProcessed := false;
        }
      }
    }

    /** One call of the builder; without a callback it does nothing. */
    method Build(comp: Computed, raw: PackData, hasEmit: bool, force: bool, updateCells: bool,
                 maxBytes: nat, verified: bool) returns (commands: seq<string>)
      requires Valid() && raw.WellFormed() && |comp.balance| == CELLS
      modifies this, cellVoltageMv, cellBarFill, balanceFlag
      ensures Valid()
      ensures !hasEmit ==> Contents() == old(Contents()) && isWarm == old(isWarm) && commands == []
      ensures hasEmit ==>
                var p := Built(old(Contents()), old(isWarm), Target(comp, raw, verified), force, updateCells, maxBytes);
                Contents() == p.cache && isWarm == (old(isWarm) || p.complete) && commands == p.commands
    {
      if !hasEmit {
        return [];
      }
      hide At, Holds, Contents, Visit, Sweep, CommandText, FieldTarget;
      var e := Open(maxBytes);
      ghost var p := Started(Contents());
      VisitAll(comp, raw, verified, force, updateCells, e, p);
      commands := Finish(e, Built(old(Contents()), isWarm, Target(comp, raw, verified), force, updateCells, maxBytes));
    }

    method VisitAll(comp: Computed, raw: PackData, verified: bool, force: bool, updateCells: bool, e: Emitter,
                    ghost p: Pass)
      requires Valid() && raw.WellFormed() && |comp.balance| == CELLS && |p.cache| == FIELDS && At(p, e)
      modifies `cellMaxMv, `cellMinMv, `warningLevel, `cellCanStatus, cellVoltageMv, cellBarFill, balanceFlag, e
      ensures At(Sweep(p, FirstField(isWarm, force, updateCells), FIELDS, Target(comp, raw, verified), force,
                       e.maxBytes), e)
    {
      hide At, Holds, Contents, Visit, Sweep, CommandText, FieldTarget, Target;
      VisitDue(comp, raw, verified, force, updateCells, e, p);
      VisitSummary(comp, raw, verified, force, e, p, FirstField(isWarm, force, updateCells));
    }

    method Open(maxBytes: nat) returns (e: Emitter)
      requires Valid()
      ensures fresh(e) && e.maxBytes == maxBytes && At(Started(Contents()), e)
    {
      e := new Emitter(maxBytes);
      HoldsIffContents(Contents());
    }

    /** The page is warm once a call has left nothing undone. */
    method Finish(e: Emitter, ghost p: Pass) returns (commands: seq<string>)
      requires Valid() && At(p, e)
      modifies `isWarm
      ensures Contents() == p.cache && isWarm == (old(isWarm) || p.complete) && commands == p.commands
    {
      HoldsIffContents(p.cache);
      if e.allProcessed {
        isWarm := true;
      }
      commands := e.commands;
      HoldsIffContents(p.cache);
    }
  }

  lemma SummaryTargets(comp: Computed, raw: PackData, verified: bool)
    requires raw.WellFormed() && |comp.balance| == CELLS
    ensures var t := Target(comp, raw, verified);
            && t[CELL_MAX] == comp.maxMv && t[CELL_MIN] == comp.minMv && t[WARN] == comp.warning
            && t[CELL_CAN] == if verified then 1 else 0
  {
  }

  /** The last four visits of a sweep. */
  lemma SweepSummary(p: Pass, lo: nat, t: seq<uint16>, force: bool, budget: nat)
    requires |p.cache| == |t| == FIELDS && lo <= SUMMARY
    ensures var q1 := Visit(Sweep(p, lo, SUMMARY, t, force, budget), CELL_MAX, t[CELL_MAX], force, budget);
            var q2 := Visit(q1, CELL_MIN, t[CELL_MIN], force, budget);
            var q3 := Visit(q2, WARN, t[WARN], force, budget);
            Sweep(p, lo, FIELDS, t, force, budget) == Visit(q3, CELL_CAN, t[CELL_CAN], force, budget)
  {
    hide Visit;
    assert Sweep(p, lo, 76, t, force, budget) == Visit(Sweep(p, lo, 75, t, force, budget), 75, t[75], force, budget);
    assert Sweep(p, lo, 75, t, force, budget) == Visit(Sweep(p, lo, 74, t, force, budget), 74, t[74], force, budget);
    assert Sweep(p, lo, 74, t, force, budget) == Visit(Sweep(p, lo, 73, t, force, budget), 73, t[73], force, budget);
    assert Sweep(p, lo, 73, t, force, budget) == Visit(Sweep(p, lo, 72, t, force, budget), 72, t[72], force, budget);
  }
}
