/**
What the BMS page shows: every call of the builder sends the longest prefix of
the differing fields that fits its budget; over any run the cache is what the
screen shows; a page converges, and a forced refresh repaints it only if the
budget covers everything.
*/
module BmsScreen {
  import opened Words
  import opened Wrappers
  import opened Decimal
  import opened BmsAlgo
  import opened BmsNextionPacket

  type Values = s: seq<uint16> | |s| == FIELDS witness Zeros(FIELDS)

  function Zeros(n: nat): (s: seq<uint16>)
    ensures |s| == n
  {
    if n == 0 then [] else Zeros(n - 1) + [0]
  }

  // --- One call ---

  predicate Dirty(cache: Values, target: Values, force: bool, k: nat)
    requires k < FIELDS
  {
    force || cache[k] != target[k]
  }

  /** The fields a call wants to send, in visiting order. */
  function DirtyFields(cache: Values, target: Values, force: bool, lo: nat, hi: nat): (fields: seq<nat>)
    requires lo <= hi <= FIELDS
    ensures |fields| <= hi - lo
    ensures forall i :: 0 <= i < |fields| ==> lo <= fields[i] < hi
    decreases hi, |cache|
  {
    if lo == hi then []
    else DirtyFields(cache, target, force, lo, hi - 1) + (if Dirty(cache, target, force, hi - 1) then [hi - 1] else [])
  }

  predicate AreFields(fields: seq<nat>) {
    forall i :: 0 <= i < |fields| ==> fields[i] < FIELDS
  }

  function TotalCost(fields: seq<nat>, target: Values): nat
    requires AreFields(fields)
  {
    if fields == [] then 0
    else
      var k := fields[|fields| - 1];
      TotalCost(fields[..|fields| - 1], target) + Cost(k, target[k])
  }

  /** The sent fields are the longest prefix of the wanted ones that the budget covers. */
  ghost predicate LongestPrefix(sent: seq<nat>, wanted: seq<nat>, target: Values, budget: nat)
    requires AreFields(wanted)
  {
    var n := |sent|;
    && n <= |wanted|
    && sent == wanted[..n]
    && TotalCost(wanted[..n], target) <= budget
    && (n < |wanted| ==> TotalCost(wanted[..n + 1], target) > budget)
  }

  /** What a pass has done when it set out to send the wanted fields. */
  ghost predicate Sends(p: Pass, cache: Values, target: Values, wanted: seq<nat>, budget: nat)
    requires AreFields(wanted)
  {
    var n := |p.sent|;
    && |p.cache| == FIELDS
    && LongestPrefix(p.sent, wanted, target, budget)
    && p.bytes == TotalCost(wanted[..n], target)
    && (p.exhausted <==> n < |wanted|)
    && (p.complete <==> n == |wanted|)
    && |p.commands| == n
    && (forall i :: 0 <= i < n ==> p.commands[i] == CommandText(wanted[i], target[wanted[i]]))
    && (forall k :: 0 <= k < FIELDS ==> p.cache[k] == if k in p.sent then target[k] else cache[k])
  }

  lemma CostOfOneMore(fields: seq<nat>, k: nat, target: Values)
    requires AreFields(fields) && k < FIELDS
    ensures TotalCost(fields + [k], target) == TotalCost(fields, target) + Cost(k, target[k])
  {
    assert (fields + [k])[..|fields|] == fields;
  }

  lemma VisitSends(p: Pass, k: nat, cache: Values, target: Values, wanted: seq<nat>, force: bool, budget: nat)
    requires k < FIELDS
    requires forall i :: 0 <= i < |wanted| ==> wanted[i] < k
    requires Sends(p, cache, target, wanted, budget)
    ensures Sends(Visit(p, k, target[k], force, budget), cache, target,
                  wanted + (if Dirty(cache, target, force, k) then [k] else []), budget)
  {
    hide CommandText, Cost, TotalCost;
    var n := |p.sent|;
    var more := wanted + [k];
    assert k !in p.sent;
    CostOfOneMore(wanted, k, target);
    assert more[..n] == wanted[..n];
    if n < |wanted| {
      assert more[..n + 1] == wanted[..n + 1];
    } else {
      assert more[..n + 1] == more && wanted[..n] == wanted;
    }
    assert wanted + [] == wanted;
  }

  lemma {:induction false} SweepSends(cache: Values, target: Values, force: bool, lo: nat, hi: nat, budget: nat)
    requires lo <= hi <= FIELDS
    ensures Sends(Sweep(Started(cache), lo, hi, target, force, budget), cache, target,
                  DirtyFields(cache, target, force, lo, hi), budget)
    decreases hi
  {
    hide Visit, Dirty, TotalCost;
    if lo == hi {
      StartedSends(cache, target, budget);
    } else {
      SweepSends(cache, target, force, lo, hi - 1, budget);
      VisitSends(Sweep(Started(cache), lo, hi - 1, target, force, budget), hi - 1, cache, target,
                 DirtyFields(cache, target, force, lo, hi - 1), force, budget);
    }
  }

  lemma StartedSends(cache: Values, target: Values, budget: nat)
    ensures Sends(Started(cache), cache, target, [], budget)
  {
  }

  /** A call sends the longest prefix of the differing fields that fits, and caches exactly what it sent. */
  lemma CallSendsLongestPrefix(cache: Values, warm: bool, target: Values, force: bool, updateCells: bool, budget: nat)
    ensures Sends(Built(cache, warm, target, force, updateCells, budget), cache, target,
                  DirtyFields(cache, target, force, FirstField(warm, force, updateCells), FIELDS), budget)
  {
    SweepSends(cache, target, force, FirstField(warm, force, updateCells), FIELDS, budget);
  }

  lemma {:induction false} TotalCostBounds(fields: seq<nat>, target: Values)
    requires AreFields(fields)
    ensures 11 * |fields| <= TotalCost(fields, target) <= 20 * |fields|
  {
    hide Cost;
    if fields != [] {
      var k := fields[|fields| - 1];
      TotalCostBounds(fields[..|fields| - 1], target);
      CostBounds(k, target[k]);
    }
  }

  /** How many fields a call sends: never more than a budget of shortest commands, never fewer than one of longest. */
  lemma SentCount(sent: seq<nat>, wanted: seq<nat>, target: Values, budget: nat)
    requires AreFields(wanted) && LongestPrefix(sent, wanted, target, budget)
    ensures 11 * |sent| <= budget
    ensures |sent| == |wanted| || 20 * (|sent| + 1) > budget
  {
    hide TotalCost;
    var n := |sent|;
    TotalCostBounds(wanted[..n], target);
    if n < |wanted| {
      TotalCostBounds(wanted[..n + 1], target);
    }
  }

  // --- Runs of calls on a display ---

  datatype Call = DisplayReset | Refresh(target: Values, force: bool, updateCells: bool, budget: nat)

  /** The builder's memory and the screen; a field never sent since the display reset shows nothing of ours. */
  datatype View = View(cache: Values, warm: bool, screen: seq<Option<uint16>>)

  predicate WellFormed(v: View) {
    |v.screen| == FIELDS
  }

  function Blank(n: nat): (s: seq<Option<uint16>>)
    ensures |s| == n
    ensures forall k :: 0 <= k < n ==> s[k] == None
  {
    seq(n, _ => None)
  }

  function Paint(screen: seq<Option<uint16>>, sent: seq<nat>, target: Values, n: nat): (s: seq<Option<uint16>>)
    requires n <= |screen| == FIELDS
    ensures |s| == n
    ensures forall k :: 0 <= k < n ==> s[k] == if k in sent then Some(target[k]) else screen[k]
    decreases n, |screen|
  {
    if n == 0 then []
    else Paint(screen, sent, target, n - 1) + [if n - 1 in sent then Some(target[n - 1]) else screen[n - 1]]
  }

  function Step(v: View, c: Call): (w: View)
    requires WellFormed(v)
    ensures WellFormed(w)
  {
    match c
    case DisplayReset => v.(screen := Blank(FIELDS))
    case Refresh(target, force, updateCells, budget) =>
      var p := Built(v.cache, v.warm, target, force, updateCells, budget);
      View(p.cache, v.warm || p.complete, Paint(v.screen, p.sent, target, FIELDS))
  }

  function Run(v: View, calls: seq<Call>): (w: View)
    requires WellFormed(v)
    ensures WellFormed(w)
    decreases |calls|
  {
    if calls == [] then v else Run(Step(v, calls[0]), calls[1..])
  }

  /** Every field sent since the display last started shows what the cache holds. */
  ghost predicate Agrees(v: View)
    requires WellFormed(v)
  {
    forall k :: 0 <= k < FIELDS && v.screen[k].Some? ==> v.screen[k].value == v.cache[k]
  }

  lemma StepAgrees(v: View, c: Call)
    requires WellFormed(v) && Agrees(v)
    ensures Agrees(Step(v, c))
  {
    hide Built;
    if c.Refresh? {
      CallSendsLongestPrefix(v.cache, v.warm, c.target, c.force, c.updateCells, c.budget);
    }
  }

  /** Over any run, whatever was refused, forced or reset in between. */
  lemma {:induction false} CacheMatchesScreen(v: View, calls: seq<Call>)
    requires WellFormed(v) && Agrees(v)
    ensures Agrees(Run(v, calls))
    decreases |calls|
  {
    hide Step, Agrees;
    if calls != [] {
      StepAgrees(v, calls[0]);
      CacheMatchesScreen(Step(v, calls[0]), calls[1..]);
    }
  }

  // --- Convergence ---

  /** How many fields the cache holds wrong. */
  function Differing(cache: Values, target: Values, hi: nat): (n: nat)
    requires hi <= FIELDS
    ensures n <= hi
  {
    |DirtyFields(cache, target, false, 0, hi)|
  }

  lemma {:induction false} NoneDiffer(cache: Values, target: Values, hi: nat)
    requires hi <= FIELDS
    ensures Differing(cache, target, hi) == 0 <==> forall k :: 0 <= k < hi ==> cache[k] == target[k]
  {
    if hi > 0 {
      NoneDiffer(cache, target, hi - 1);
    }
  }

  /** Setting one field right makes the count fall by one. */
  lemma {:induction false} OneFixed(cache: Values, target: Values, k: nat, hi: nat)
    requires hi <= FIELDS && k < FIELDS && cache[k] != target[k]
    ensures Differing(cache[k := target[k]], target, hi) == Differing(cache, target, hi) - if k < hi then 1 else 0
  {
    if hi > 0 {
      OneFixed(cache, target, k, hi - 1);
    }
  }

  /** A cache that moves only towards its target never differs more. */
  lemma {:induction false} NeverWorse(cache: Values, next: Values, target: Values, hi: nat)
    requires hi <= FIELDS
    requires forall k :: 0 <= k < FIELDS ==> next[k] == cache[k] || next[k] == target[k]
    ensures Differing(next, target, hi) <= Differing(cache, target, hi)
  {
    if hi > 0 {
      NeverWorse(cache, next, target, hi - 1);
    }
  }

  lemma VisitFixes(p: Pass, target: Values, k: nat, budget: nat)
    requires |p.cache| == FIELDS && k < FIELDS
    ensures var q := Visit(p, k, target[k], false, budget);
            Differing(q.cache, target, FIELDS) + |q.sent| == Differing(p.cache, target, FIELDS) + |p.sent|
  {
    hide Differing, Cost, CommandText;
    if p.cache[k] != target[k] {
      OneFixed(p.cache, target, k, FIELDS);
    }
  }

  lemma {:induction false} SweepFixes(cache: Values, target: Values, lo: nat, hi: nat, budget: nat)
    requires lo <= hi <= FIELDS
    ensures var p := Sweep(Started(cache), lo, hi, target, false, budget);
            Differing(p.cache, target, FIELDS) + |p.sent| == Differing(cache, target, FIELDS)
    decreases hi
  {
    hide Visit, Differing;
    if lo < hi {
      SweepFixes(cache, target, lo, hi - 1, budget);
      VisitFixes(Sweep(Started(cache), lo, hi - 1, target, false, budget), target, hi - 1, budget);
    }
  }

  function Min(a: nat, b: nat): nat {
    if a < b then a else b
  }

  /** An unforced call that looks at the cells sets at least budget/20 differing fields right, or all of them. */
  lemma CallMakesProgress(cache: Values, warm: bool, target: Values, updateCells: bool, budget: nat)
    requires FirstField(warm, false, updateCells) == 0
    ensures var p := Built(cache, warm, target, false, updateCells, budget);
            var before, after := Differing(cache, target, FIELDS), Differing(p.cache, target, FIELDS);
            && after <= before - Min(before, budget / 20)
            && (p.complete <==> after == 0)
  {
    hide Sweep, TotalCost, LongestPrefix;
    var p := Built(cache, warm, target, false, updateCells, budget);
    CallSendsLongestPrefix(cache, warm, target, false, updateCells, budget);
    SweepFixes(cache, target, 0, FIELDS, budget);
    SentCount(p.sent, DirtyFields(cache, target, false, 0, FIELDS), target, budget);
  }

  lemma CallNeverWorse(cache: Values, warm: bool, target: Values, force: bool, updateCells: bool, budget: nat)
    ensures var p := Built(cache, warm, target, force, updateCells, budget);
            Differing(p.cache, target, FIELDS) <= Differing(cache, target, FIELDS)
  {
    hide Built, Differing, LongestPrefix;
    var p := Built(cache, warm, target, force, updateCells, budget);
    CallSendsLongestPrefix(cache, warm, target, force, updateCells, budget);
    NeverWorse(cache, p.cache, target, FIELDS);
  }

  /** Unforced calls with unchanged inputs and at least this budget; the display may restart in between. */
  predicate Steady(calls: seq<Call>, target: Values, budget: nat) {
    forall i :: 0 <= i < |calls| ==>
      calls[i].Refresh? ==> calls[i].target == target && !calls[i].force && calls[i].budget >= budget
  }

  /** The calls of a run that look at the cells. */
  function CellCalls(v: View, calls: seq<Call>): nat
    requires WellFormed(v)
    decreases |calls|
  {
    if calls == [] then 0
    else
      var c := calls[0];
      (if c.Refresh? && FirstField(v.warm, c.force, c.updateCells) == 0 then 1 else 0) +
      CellCalls(Step(v, c), calls[1..])
  }

  lemma StepConverges(v: View, c: Call, target: Values, budget: nat)
    requires WellFormed(v) && Steady([c], target, budget)
    ensures var before, after := Differing(v.cache, target, FIELDS), Differing(Step(v, c).cache, target, FIELDS);
            && after <= before
            && (c.Refresh? && FirstField(v.warm, c.force, c.updateCells) == 0 ==>
                  after <= before - Min(before, budget / 20))
  {
    hide Built, Differing;
    var r := [c][0];
    if r.Refresh? {
      CallNeverWorse(v.cache, v.warm, target, false, r.updateCells, r.budget);
      if FirstField(v.warm, r.force, r.updateCells) == 0 {
        CallMakesProgress(v.cache, v.warm, target, r.updateCells, r.budget);
        assert r.budget / 20 >= budget / 20;
      }
    }
  }

  /** What is left of a count after some steps of at least this size. */
  function Left(count: nat, pace: nat, steps: nat): nat {
    if pace * steps >= count then 0 else count - pace * steps
  }

  lemma LeftSteps(before: nat, mid: nat, pace: nat, steps: nat)
    requires mid <= before
    ensures Left(mid, pace, steps) <= Left(before, pace, steps)
    ensures mid <= before - Min(before, pace) ==> Left(mid, pace, steps) <= Left(before, pace, steps + 1)
  {
    assert pace * (steps + 1) == pace * steps + pace;
  }

  /** With unchanged inputs the differing fields fall by budget/20 with every call that looks at the cells. */
  lemma {:induction false} RunConverges(v: View, calls: seq<Call>, target: Values, budget: nat)
    requires WellFormed(v) && Steady(calls, target, budget)
    ensures Differing(Run(v, calls).cache, target, FIELDS) <=
            Left(Differing(v.cache, target, FIELDS), budget / 20, CellCalls(v, calls))
    decreases |calls|
  {
    hide Step, Differing, Left, Steady;
    if calls == [] {
      LeftAtStart(Differing(v.cache, target, FIELDS), budget / 20);
    } else {
      var c, rest := calls[0], calls[1..];
      var w := Step(v, c);
      SteadyParts(calls, target, budget);
      StepConverges(v, c, target, budget);
      RunConverges(w, rest, target, budget);
      LeftSteps(Differing(v.cache, target, FIELDS), Differing(w.cache, target, FIELDS), budget / 20,
                CellCalls(w, rest));
    }
  }

  lemma LeftAtStart(count: nat, pace: nat)
    ensures Left(count, pace, 0) == count
  {
  }

  lemma SteadyParts(calls: seq<Call>, target: Values, budget: nat)
    requires calls != [] && Steady(calls, target, budget)
    ensures Steady([calls[0]], target, budget) && Steady(calls[1..], target, budget)
  {
  }

  /** So 19 such calls suffice for the production budget of 90 bytes. */
  lemma NineteenCallsSuffice(v: View, calls: seq<Call>, target: Values)
    requires WellFormed(v) && Steady(calls, target, 90)
    requires CellCalls(v, calls) >= 19
    ensures Run(v, calls).cache == target
  {
    hide Run, Differing, CellCalls, Steady;
    RunConverges(v, calls, target, 90);
    NoneDiffer(Run(v, calls).cache, target, FIELDS);
  }

  /** The calls for which the cell timer is due. */
  function TimerCalls(calls: seq<Call>): nat {
    if calls == [] then 0 else (if calls[0].Refresh? && calls[0].updateCells then 1 else 0) + TimerCalls(calls[1..])
  }

  /** On any page a call for which the timer is due looks at the cells. */
  lemma {:induction false} TimerCallsLook(v: View, calls: seq<Call>)
    requires WellFormed(v)
    ensures CellCalls(v, calls) >= TimerCalls(calls)
    decreases |calls|
  {
    hide Step;
    if calls != [] {
      TimerCallsLook(Step(v, calls[0]), calls[1..]);
    }
  }

  /** So a warm page too follows its data: 19 calls with the timer due make all 76 fields right. */
  lemma WarmPageFollows(v: View, calls: seq<Call>, target: Values)
    requires WellFormed(v) && Steady(calls, target, 90)
    requires TimerCalls(calls) >= 19
    ensures Run(v, calls).cache == target
  {
    hide Run, CellCalls, TimerCalls, Steady;
    TimerCallsLook(v, calls);
    NineteenCallsSuffice(v, calls, target);
  }

  // --- From power-up ---

  function Refreshes(calls: seq<Call>): nat {
    if calls == [] then 0 else (if calls[0].Refresh? then 1 else 0) + Refreshes(calls[1..])
  }

  /** A page that agrees with its inputs sends nothing more and stays as it is. */
  lemma CleanStep(v: View, c: Call, target: Values, budget: nat)
    requires WellFormed(v) && Steady([c], target, budget) && v.cache == target
    ensures var w := Step(v, c);
            && w.cache == target
            && (v.warm ==> w.warm)
            && (c.Refresh? ==> w.screen == v.screen)
  {
    hide Built, LongestPrefix;
    var r := [c][0];
    if r.Refresh? {
      var p := Built(v.cache, v.warm, target, false, r.updateCells, r.budget);
      CallSendsLongestPrefix(v.cache, v.warm, target, false, r.updateCells, r.budget);
      NothingWanted(target, FirstField(v.warm, false, r.updateCells), FIELDS);
      NothingSent(p.sent, target, r.budget);
      assert Paint(v.screen, [], target, FIELDS) == v.screen;
    }
  }

  lemma {:induction false} NothingWanted(target: Values, lo: nat, hi: nat)
    requires lo <= hi <= FIELDS
    ensures DirtyFields(target, target, false, lo, hi) == []
    decreases hi
  {
    if lo < hi {
      NothingWanted(target, lo, hi - 1);
    }
  }

  lemma NothingSent(sent: seq<nat>, target: Values, budget: nat)
    requires LongestPrefix(sent, [], target, budget)
    ensures sent == []
  {
  }

  lemma {:induction false} CleanStays(v: View, calls: seq<Call>, target: Values, budget: nat)
    requires WellFormed(v) && Steady(calls, target, budget) && v.cache == target
    ensures Run(v, calls).cache == target
    ensures v.warm ==> Run(v, calls).warm
    ensures (forall i :: 0 <= i < |calls| ==> calls[i].Refresh?) ==> Run(v, calls).screen == v.screen
    decreases |calls|
  {
    hide Step, Steady;
    if calls != [] {
      SteadyParts(calls, target, budget);
      CleanStep(v, calls[0], target, budget);
      CleanStays(Step(v, calls[0]), calls[1..], target, budget);
      assert forall i :: 0 <= i < |calls| - 1 ==> calls[1..][i] == calls[i + 1];
    }
  }

  /** A cold page becomes warm with the call that leaves nothing different, and not before. */
  lemma ColdStep(v: View, c: Call, target: Values, budget: nat)
    requires WellFormed(v) && Steady([c], target, budget) && !v.warm
    ensures c.DisplayReset? ==> Step(v, c).cache == v.cache && !Step(v, c).warm
    ensures c.Refresh? ==> (Step(v, c).warm <==> Step(v, c).cache == target)
  {
    hide Built, Differing;
    var r := [c][0];
    if r.Refresh? {
      CallMakesProgress(v.cache, v.warm, target, r.updateCells, r.budget);
      NoneDiffer(Step(v, c).cache, target, FIELDS);
    }
  }

  lemma {:induction false} ColdOrDone(v: View, calls: seq<Call>, target: Values, budget: nat)
    requires WellFormed(v) && Steady(calls, target, budget) && !v.warm
    ensures var w := Run(v, calls);
            && (w.warm ==> w.cache == target)
            && (!w.warm ==> CellCalls(v, calls) == Refreshes(calls))
            && (!w.warm && (v.cache != target || Refreshes(calls) > 0) ==> w.cache != target)
    decreases |calls|
  {
    hide Step, Steady;
    if calls != [] {
      SteadyParts(calls, target, budget);
      ColdStep(v, calls[0], target, budget);
      if Step(v, calls[0]).warm {
        CleanStays(Step(v, calls[0]), calls[1..], target, budget);
      } else {
        ColdOrDone(Step(v, calls[0]), calls[1..], target, budget);
      }
    }
  }

  /**
  A cold page needs no cell timer: 19 calls with unchanged inputs and the
  production budget bring every one of the 76 fields to its value and warm the page.
  */
  lemma ColdPageConverges(v: View, calls: seq<Call>, target: Values)
    requires WellFormed(v) && Steady(calls, target, 90) && !v.warm
    requires Refreshes(calls) >= 19
    ensures Run(v, calls).cache == target && Run(v, calls).warm
  {
    hide Run, CellCalls, Refreshes, Steady;
    ColdOrDone(v, calls, target, 90);
    if !Run(v, calls).warm {
      NineteenCallsSuffice(v, calls, target);
    }
  }

  // --- Forced refreshes ---

  function FieldsUpTo(n: nat): (fields: seq<nat>)
    ensures |fields| == n
    ensures forall i :: 0 <= i < n ==> fields[i] == i
  {
    seq(n, k requires k >= 0 => k)
  }

  /** Bytes that it takes to send every field once. */
  function PageCost(target: Values): nat {
    TotalCost(FieldsUpTo(FIELDS), target)
  }

  /** A forced call wants every field. */
  lemma {:induction false} ForcedWantsAll(cache: Values, target: Values, hi: nat)
    requires hi <= FIELDS
    ensures DirtyFields(cache, target, true, 0, hi) == FieldsUpTo(hi)
  {
    if hi > 0 {
      ForcedWantsAll(cache, target, hi - 1);
    }
  }

  lemma {:induction false} PrefixCostsLess(fields: seq<nat>, n: nat, target: Values)
    requires AreFields(fields) && n <= |fields|
    ensures TotalCost(fields[..n], target) <= TotalCost(fields, target)
  {
    if n == |fields| {
      assert fields[..n] == fields;
    } else {
      var init := fields[..|fields| - 1];
      PrefixCostsLess(init, n, target);
      assert init[..n] == fields[..n];
    }
  }

  /** A forced call sends the first fields of the page, and all of them iff the budget covers their total. */
  lemma ForcedCall(cache: Values, warm: bool, target: Values, updateCells: bool, budget: nat)
    ensures var p := Built(cache, warm, target, true, updateCells, budget);
            var n := |p.sent|;
            && n <= FIELDS && p.sent == FieldsUpTo(FIELDS)[..n] && 11 * n <= budget
            && (n == FIELDS <==> PageCost(target) <= budget)
            && (p.complete <==> n == FIELDS)
            && (forall k :: 0 <= k < FIELDS ==> p.cache[k] == if k < n then target[k] else cache[k])
            && (forall k: nat :: k in p.sent <==> k < n)
  {
    hide Built, TotalCost, DirtyFields;
    var p := Built(cache, warm, target, true, updateCells, budget);
    var all := FieldsUpTo(FIELDS);
    var n := |p.sent|;
    CallSendsLongestPrefix(cache, warm, target, true, updateCells, budget);
    ForcedWantsAll(cache, target, FIELDS);
    SentCount(p.sent, all, target, budget);
    if n < FIELDS {
      PrefixCostsLess(all, n + 1, target);
    } else {
      assert all[..n] == all;
    }
    FieldsBelow(n);
  }

  lemma FieldsBelow(n: nat)
    requires n <= FIELDS
    ensures forall k: nat :: k in FieldsUpTo(FIELDS)[..n] <==> k < n
  {
    var s := FieldsUpTo(FIELDS)[..n];
    forall k: nat
      ensures k in s <==> k < n
    {
      if k < n {
        assert s[k] == k;
      }
    }
  }

  predicate NoResets(calls: seq<Call>) {
    forall i :: 0 <= i < |calls| ==> calls[i].Refresh?
  }

  /** How many fields a forced call repaints. */
  function Repainted(v: View, target: Values, updateCells: bool, budget: nat): (n: nat)
    ensures 11 * n <= budget && n <= FIELDS
    ensures n == FIELDS <==> PageCost(target) <= budget
  {
    ForcedCall(v.cache, v.warm, target, updateCells, budget);
    |Built(v.cache, v.warm, target, true, updateCells, budget).sent|
  }

  lemma ForcedStep(v: View, target: Values, updateCells: bool, budget: nat)
    requires WellFormed(v)
    ensures var w := Step(v, Refresh(target, true, updateCells, budget));
            var n := Repainted(v, target, updateCells, budget);
            && (forall k :: 0 <= k < FIELDS ==> w.cache[k] == if k < n then target[k] else v.cache[k])
            && (forall k :: 0 <= k < FIELDS ==> w.screen[k] == if k < n then Some(target[k]) else v.screen[k])
            && (w.warm <==> v.warm || n == FIELDS)
  {
    hide Built, PageCost;
    ForcedCall(v.cache, v.warm, target, updateCells, budget);
  }

  lemma RunAfterOne(v: View, c: Call, calls: seq<Call>)
    requires WellFormed(v)
    ensures Run(v, [c] + calls) == Run(Step(v, c), calls)
  {
    hide Step;
    assert ([c] + calls)[1..] == calls;
  }

  // --- After a blank screen: a display restart, or power-up ---

  /**
  The page since its screen was blank: the first n fields were forced; a field
  without an entry still has the cache it had then.
  */
  ghost predicate SinceBlank(v: View, born: Values, target: Values, n: nat)
    requires WellFormed(v)
  {
    forall k :: 0 <= k < FIELDS ==>
      && (v.screen[k].Some? ==> v.screen[k].value == v.cache[k])
      && (v.screen[k].None? ==> v.cache[k] == born[k])
      && (k < n ==> v.screen[k] == Some(target[k]))
      && (k >= n && target[k] == born[k] ==> v.screen[k].None?)
  }

  lemma {:induction false} WantedDiffer(cache: Values, target: Values, lo: nat, hi: nat)
    requires lo <= hi <= FIELDS
    ensures forall k :: k in DirtyFields(cache, target, false, lo, hi) ==> cache[k] != target[k]
    decreases hi
  {
    if lo < hi {
      WantedDiffer(cache, target, lo, hi - 1);
    }
  }

  lemma SentAreWanted(sent: seq<nat>, wanted: seq<nat>, target: Values, budget: nat)
    requires AreFields(wanted) && LongestPrefix(sent, wanted, target, budget)
    ensures forall k :: k in sent ==> k in wanted
  {
  }

  lemma StepSinceBlank(v: View, c: Call, born: Values, target: Values, n: nat, budget: nat)
    requires WellFormed(v) && SinceBlank(v, born, target, n)
    requires c.Refresh? && Steady([c], target, budget)
    ensures SinceBlank(Step(v, c), born, target, n)
  {
    hide Built, DirtyFields, LongestPrefix;
    var r := [c][0];
    var lo := FirstField(v.warm, false, r.updateCells);
    var wanted := DirtyFields(v.cache, target, false, lo, FIELDS);
    var p := Built(v.cache, v.warm, target, false, r.updateCells, r.budget);
    CallSendsLongestPrefix(v.cache, v.warm, target, false, r.updateCells, r.budget);
    WantedDiffer(v.cache, target, lo, FIELDS);
    SentAreWanted(p.sent, wanted, target, r.budget);
  }

  lemma {:induction false} RunSinceBlank(v: View, calls: seq<Call>, born: Values, target: Values, n: nat, budget: nat)
    requires WellFormed(v) && SinceBlank(v, born, target, n)
    requires Steady(calls, target, budget) && NoResets(calls)
    ensures SinceBlank(Run(v, calls), born, target, n)
    decreases |calls|
  {
    hide Step, Steady, SinceBlank;
    if calls != [] {
      SteadyParts(calls, target, budget);
      StepSinceBlank(v, calls[0], born, target, n, budget);
      RunSinceBlank(Step(v, calls[0]), calls[1..], born, target, n, budget);
    }
  }

  /** A page whose screen is blank, after the forced call that answers. */
  lemma ForcedFromBlank(v: View, target: Values, updateCells: bool, budget: nat)
    requires WellFormed(v) && v.screen == Blank(FIELDS)
    ensures var w := Step(v, Refresh(target, true, updateCells, budget));
            && SinceBlank(w, v.cache, target, Repainted(v, target, updateCells, budget))
            && (w.warm && !v.warm ==> w.cache == target)
            && (v.cache == target ==> w.cache == target)
  {
    hide Step, Repainted;
    ForcedStep(v, target, updateCells, budget);
    var w := Step(v, Refresh(target, true, updateCells, budget));
    if (w.warm && !v.warm) || v.cache == target {
      assert w.cache == target;
    }
  }

  /** What a run from a blank screen shows of a field, once the cache agrees with the data. */
  lemma PaintedWhenEqual(w: View, born: Values, target: Values, n: nat)
    requires WellFormed(w) && SinceBlank(w, born, target, n) && w.cache == target
    ensures forall k :: 0 <= k < FIELDS ==>
              w.screen[k] == if k < n || target[k] != born[k] then Some(target[k]) else None
  {
  }

  /**
  A display restart, with any cache before it and any number of calls after it.
  The forced refresh that answers repaints its first n fields. Of the others, no
  later call ever repaints one that the cache already held right; the rest come
  with 19 calls that look at the cells. So if the data had not changed, the page
  comes back completely iff the one forced budget covers all 76 commands.
  */
  lemma RepaintAfterReset(v: View, target: Values, updateCells: bool, budget: nat, calls: seq<Call>)
    requires WellFormed(v) && Steady(calls, target, 0) && NoResets(calls)
    ensures var forced := Refresh(target, true, updateCells, budget);
            var restarted := Step(Step(v, DisplayReset), forced);
            var w := Run(v, [DisplayReset] + ([forced] + calls));
            var n := Repainted(v, target, updateCells, budget);
            && w == Run(restarted, calls)
            && (forall k :: 0 <= k < n ==> w.screen[k] == Some(target[k]))
            && (forall k :: n <= k < FIELDS && target[k] == v.cache[k] ==> w.screen[k] == None)
            && (Steady(calls, target, 90) && CellCalls(restarted, calls) >= 19 ==>
                forall k :: 0 <= k < FIELDS ==>
                  w.screen[k] == if k < n || target[k] != v.cache[k] then Some(target[k]) else None)
            && (v.cache == target ==>
                ((forall k :: 0 <= k < FIELDS ==> w.screen[k] == Some(target[k])) <==> PageCost(target) <= budget))
  {
    hide Run, Built, PageCost, Steady, CellCalls, SinceBlank, Repainted;
    var forced := Refresh(target, true, updateCells, budget);
    var blank := Step(v, DisplayReset);
    var w := Step(blank, forced);
    var n := Repainted(v, target, updateCells, budget);
    RunAfterOne(v, DisplayReset, [forced] + calls);
    RunAfterOne(blank, forced, calls);
    RepaintedIgnoresScreen(v, blank, target, updateCells, budget);
    ForcedFromBlank(blank, target, updateCells, budget);
    RunSinceBlank(w, calls, v.cache, target, n, 0);
    ShownSinceBlank(Run(w, calls), v.cache, target, n);
    if Steady(calls, target, 90) && CellCalls(w, calls) >= 19 {
      NineteenCallsSuffice(w, calls, target);
      PaintedWhenEqual(Run(w, calls), v.cache, target, n);
    }
  }

  lemma RepaintedIgnoresScreen(v: View, w: View, target: Values, updateCells: bool, budget: nat)
    requires v.cache == w.cache && v.warm == w.warm
    ensures Repainted(v, target, updateCells, budget) == Repainted(w, target, updateCells, budget)
  {
  }

  lemma ShownSinceBlank(w: View, born: Values, target: Values, n: nat)
    requires WellFormed(w) && SinceBlank(w, born, target, n) && n <= FIELDS
    ensures forall k :: 0 <= k < n ==> w.screen[k] == Some(target[k])
    ensures forall k :: n <= k < FIELDS && target[k] == born[k] ==> w.screen[k] == None
    ensures born == target && n < FIELDS ==> w.screen[n] == None
  {
  }

  /** The production budget never covers the page: beyond its first eight fields, what had not changed stays blank. */
  lemma ResetLeavesPageBlank(v: View, target: Values, updateCells: bool, calls: seq<Call>)
    requires WellFormed(v) && Steady(calls, target, 0) && NoResets(calls)
    ensures var w := Run(v, [DisplayReset] + ([Refresh(target, true, updateCells, 90)] + calls));
            forall k :: 8 <= k < FIELDS && target[k] == v.cache[k] ==> w.screen[k] == None
  {
    hide Run, Step, Steady, CellCalls, Repainted;
    RepaintAfterReset(v, target, updateCells, 90, calls);
  }

  function Initial(n: nat): (s: seq<uint16>)
    requires n <= FIELDS
    ensures |s| == n
    ensures forall k :: 0 <= k < n ==> s[k] == InitialCache(k)
  {
    seq(n, k requires k >= 0 => InitialCache(k))
  }

  function PowerUp(): (v: View)
    ensures WellFormed(v)
  {
    View(Initial(FIELDS), false, Blank(FIELDS))
  }

  lemma {:induction false} AllRefresh(calls: seq<Call>)
    requires NoResets(calls)
    ensures Refreshes(calls) == |calls|
  {
    if calls != [] {
      AllRefresh(calls[1..]);
    }
  }

  lemma WarmedUp(v: View, calls: seq<Call>, target: Values)
    requires WellFormed(v) && Steady(calls, target, 90) && NoResets(calls) && |calls| >= 19
    requires v.warm ==> v.cache == target
    ensures Run(v, calls).cache == target
  {
    hide Run, Step, Steady, Refreshes;
    if v.warm {
      CleanStays(v, calls, target, 90);
    } else {
      AllRefresh(calls);
      ColdPageConverges(v, calls, target);
    }
  }

  /**
  After power-up the first call is forced. Nineteen more calls with the same
  data paint exactly the fields that the first call reached or whose value is
  not the one the cache was born with.
  */
  lemma PowerUpPaints(target: Values, updateCells: bool, budget: nat, calls: seq<Call>)
    requires Steady(calls, target, 90) && NoResets(calls) && |calls| >= 19
    ensures var w := Run(PowerUp(), [Refresh(target, true, updateCells, budget)] + calls);
            var n := Repainted(PowerUp(), target, updateCells, budget);
            forall k :: 0 <= k < FIELDS ==>
              w.screen[k] == if k < n || target[k] != InitialCache(k) then Some(target[k]) else None
  {
    hide Run, Step, Steady, Repainted, SinceBlank;
    var first := Refresh(target, true, updateCells, budget);
    var n := Repainted(PowerUp(), target, updateCells, budget);
    var v := Step(PowerUp(), first);
    ForcedFromBlank(PowerUp(), target, updateCells, budget);
    RunAfterOne(PowerUp(), first, calls);
    RunSinceBlank(v, calls, Initial(FIELDS), target, n, 90);
    WarmedUp(v, calls, target);
    PaintedWhenEqual(Run(v, calls), Initial(FIELDS), target, n);
  }

  // --- The texts ---

  lemma TargetAt(comp: Computed, raw: PackData, verified: bool, i: nat)
    requires raw.WellFormed() && |comp.balance| == CELLS && i < CELLS
    ensures var t := Target(comp, raw, verified);
            && t[i] == raw.cellMv[i] && t[24 + i] == CellBarFill(raw.cellMv[i])
            && t[48 + i] == (if comp.balance[i] then 1 else 0)
            && t[72] == comp.maxMv && t[73] == comp.minMv && t[74] == comp.warning
            && t[75] == (if verified then 1 else 0)
  {
    hide CellBarFill;
  }

  lemma NameAt(i: nat, v: nat)
    requires i < 24
    ensures CommandText(i, v) == "cell" + Unsigned(i) + ".val=" + Unsigned(v)
    ensures CommandText(24 + i, v) == "j" + Unsigned(i) + ".val=" + Unsigned(v)
    ensures CommandText(48 + i, v) == "bal" + Unsigned(i) + ".val=" + Unsigned(v)
  {
    hide Unsigned;
  }

  lemma SummaryNames(v: nat)
    ensures CommandText(72, v) == "cellmax.val=" + Unsigned(v) && CommandText(73, v) == "cellmin.val=" + Unsigned(v)
    ensures CommandText(74, v) == "warn.val=" + Unsigned(v) && CommandText(75, v) == "cellcan.val=" + Unsigned(v)
  {
    hide Unsigned;
    assert "cellmax" + "" + ".val=" == "cellmax.val=" && "cellmin" + "" + ".val=" == "cellmin.val=";
    assert "warn" + "" + ".val=" == "warn.val=" && "cellcan" + "" + ".val=" == "cellcan.val=";
  }

  /** The command of every field of a page: the component the display knows it by, and its value. */
  lemma CommandsOfPage(comp: Computed, raw: PackData, verified: bool, i: nat)
    requires raw.WellFormed() && |comp.balance| == CELLS && i < CELLS
    ensures var t := Target(comp, raw, verified);
            && CommandText(i, t[i]) == "cell" + Unsigned(i) + ".val=" + Unsigned(raw.cellMv[i])
            && CommandText(24 + i, t[24 + i]) == "j" + Unsigned(i) + ".val=" + Unsigned(CellBarFill(raw.cellMv[i]))
            && CommandText(48 + i, t[48 + i]) == "bal" + Unsigned(i) + ".val=" + (if comp.balance[i] then "1" else "0")
            && CommandText(72, t[72]) == "cellmax.val=" + Unsigned(comp.maxMv)
            && CommandText(73, t[73]) == "cellmin.val=" + Unsigned(comp.minMv)
            && CommandText(74, t[74]) == "warn.val=" + Unsigned(comp.warning)
            && CommandText(75, t[75]) == "cellcan.val=" + (if verified then "1" else "0")
  {
    hide CommandText, Target, Unsigned, CellBarFill;
    var t := Target(comp, raw, verified);
    TargetAt(comp, raw, verified, i);
    NameAt(i, t[i]);
    NameAt(i, t[24 + i]);
    NameAt(i, t[48 + i]);
    SummaryNames(t[72]);
    SummaryNames(t[73]);
    SummaryNames(t[74]);
    SummaryNames(t[75]);
    OneDigit();
  }

  lemma OneDigit()
    ensures Unsigned(0) == "0" && Unsigned(1) == "1"
  {
  }

  lemma StemShape(k: nat)
    requires k < FIELDS
    ensures var s := Stem(k);
            !IsDigit(s[|s| - 1]) && '.' !in s
  {
    var s := Stem(k);
    assert forall i :: 0 <= i < |s| ==> 'a' <= s[i] <= 'z';
  }

  lemma DigitsHaveNoDot(s: string)
    requires AllDigits(s)
    ensures '.' !in s
  {
  }

  lemma IndexIsDigits(k: nat)
    requires k < FIELDS
    ensures AllDigits(Index(k))
  {
  }

  /** Digits after a non-digit split off in one way. */
  lemma DigitTailUnique(a: string, d: string, b: string, e: string)
    requires a != "" && !IsDigit(a[|a| - 1]) && b != "" && !IsDigit(b[|b| - 1])
    requires AllDigits(d) && AllDigits(e) && a + d == b + e
    ensures a == b && d == e
  {
    var s := a + d;
    assert forall i :: |a| <= i < |s| ==> s[i] == d[i - |a|];
    assert s == b + e && forall i :: |b| <= i < |s| ==> s[i] == e[i - |b|];
    assert !IsDigit(s[|a| - 1]) && !IsDigit(s[|b| - 1]);
    assert |a| == |b|;
    assert s[..|a|] == a && s[|a|..] == d && s[..|b|] == b && s[|b|..] == e;
  }

  /** Text before the first dot splits off in one way. */
  lemma DotSplitUnique(a: string, x: string, b: string, y: string)
    requires '.' !in a && '.' !in b && a + "." + x == b + "." + y
    ensures a == b && x == y
  {
    var s, t := a + "." + x, b + "." + y;
    assert s[|a|] == '.' && t[|b|] == '.';
    assert forall i :: 0 <= i < |a| ==> s[i] == a[i];
    assert forall i :: 0 <= i < |b| ==> t[i] == b[i];
    assert |a| == |b|;
    assert s[..|a|] == a && t[..|b|] == b && s[|a| + 1..] == x && t[|b| + 1..] == y;
  }

  lemma NamesAreDistinct(j: nat, k: nat)
    requires j < FIELDS && k < FIELDS
    requires Stem(j) == Stem(k) && Index(j) == Index(k)
    ensures j == k
  {
    UnsignedRoundTrip(j % 24);
    UnsignedRoundTrip(k % 24);
    SameGroup(j, k);
    if j < SUMMARY && k < SUMMARY {
      assert j % 24 == k % 24;
    }
  }

  lemma SameGroup(j: nat, k: nat)
    requires j < FIELDS && k < FIELDS && Stem(j) == Stem(k)
    ensures j < SUMMARY ==> j / 24 == k / 24
    ensures j >= SUMMARY ==> j == k
  {
    var s, t := Stem(j), Stem(k);
    assert |s| == |t| && s[0] == t[0] && s[|s| - 1] == t[|t| - 1];
  }

  /** No two (field, value) pairs share a command: the text alone says what the display will show. */
  lemma CommandsAreDistinct(j: nat, v: int, k: nat, w: int)
    requires j < FIELDS && k < FIELDS && CommandText(j, v) == CommandText(k, w)
    ensures j == k && v == w
  {
    hide Stem, Index, Signed;
    var a, b := Stem(j) + Index(j), Stem(k) + Index(k);
    NameHasNoDot(j);
    NameHasNoDot(k);
    assert CommandText(j, v) == a + "." + ("val=" + Signed(v));
    assert CommandText(k, w) == b + "." + ("val=" + Signed(w));
    DotSplitUnique(a, "val=" + Signed(v), b, "val=" + Signed(w));
    assert ("val=" + Signed(v))[4..] == Signed(v) && ("val=" + Signed(w))[4..] == Signed(w);
    SignedRoundTrip(v, true);
    SignedRoundTrip(w, true);
    StemShape(j);
    StemShape(k);
    IndexIsDigits(j);
    IndexIsDigits(k);
    DigitTailUnique(Stem(j), Index(j), Stem(k), Index(k));
    NamesAreDistinct(j, k);
  }

  lemma NameHasNoDot(k: nat)
    requires k < FIELDS
    ensures '.' !in Stem(k) + Index(k)
  {
    StemShape(k);
    IndexIsDigits(k);
    DigitsHaveNoDot(Index(k));
  }
}
