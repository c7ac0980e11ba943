/**
The outage ring (OfflineBuffer.cpp): a fixed array with head, tail and count,
proved to be a first-in first-out queue that drops its oldest entry when full.
*/
module OfflineBuffer {
  import opened Wrappers
  import opened TelemetryModel

  const OB_CAPACITY: nat := 75

  /** What one push leaves in a bounded drop-oldest queue. */
  function Pushed(fifo: seq<TelemetryData>, d: TelemetryData): seq<TelemetryData> {
    if |fifo| >= OB_CAPACITY then fifo[1..] + [d] else fifo + [d]
  }

  /** What one push throws away: at most the oldest entry. */
  function EvictedBy(fifo: seq<TelemetryData>): seq<TelemetryData> {
    if |fifo| >= OB_CAPACITY then [fifo[0]] else []
  }

  function PushedAll(fifo: seq<TelemetryData>, ds: seq<TelemetryData>): seq<TelemetryData>
    decreases |ds|
  {
    if ds == [] then fifo else PushedAll(Pushed(fifo, ds[0]), ds[1..])
  }

  /** However many samples an outage pushes, exactly the newest OB_CAPACITY remain, in order. */
  lemma {:induction false} NewestSurvive(fifo: seq<TelemetryData>, ds: seq<TelemetryData>)
    requires |fifo| <= OB_CAPACITY
    ensures var all := fifo + ds;
            PushedAll(fifo, ds) == if |all| <= OB_CAPACITY then all else all[|all| - OB_CAPACITY..]
    decreases |ds|
  {
    if ds == [] {
      assert fifo + ds == fifo;
    } else {
      var next := Pushed(fifo, ds[0]);
      NewestSurvive(next, ds[1..]);
      assert fifo + ds == (fifo + [ds[0]]) + ds[1..];
      if |fifo| >= OB_CAPACITY {
        assert next + ds[1..] == (fifo + ds)[1..];
      }
    }
  }

  /** Position i of the queue in the array. */
  function Slot(head: nat, i: nat): (k: nat)
    requires head < OB_CAPACITY && i <= OB_CAPACITY
    ensures k < OB_CAPACITY
    ensures k == if head + i < OB_CAPACITY then head + i else head + i - OB_CAPACITY
  {
    (head + i) % OB_CAPACITY
  }

  class Ring {
    const buf: array<TelemetryData>
    var head: nat
    var tail: nat
    var count: nat
    /** The queue the ring stands for, oldest first. */
    ghost var fifo: seq<TelemetryData>

    ghost predicate Valid()
      reads this, buf
    {
      && buf.Length == OB_CAPACITY
      && head < OB_CAPACITY
      && count <= OB_CAPACITY
      && tail == Slot(head, count)
      && |fifo| == count
      && forall i :: 0 <= i < count ==> buf[Slot(head, i)] == fifo[i]
    }

    constructor ()
      ensures Valid() && fifo == [] && fresh(buf)
    {
      buf := new TelemetryData[OB_CAPACITY](_ => ZERO_TELEMETRY);
      head, tail, count := 0, 0, 0;
      fifo := [];
    }

    method Reset()
      requires Valid()
      modifies this
      ensures Valid() && fifo == []
    {
      head, tail, count := 0, 0, 0;
      fifo := [];
    }

    method Push(d: TelemetryData) returns (ok: bool)
      requires Valid()
      modifies this, buf
      ensures Valid() && ok
      ensures fifo == Pushed(old(fifo), d)
    {
      if count == OB_CAPACITY {
        DropOldest();
      }
      buf[tail] := d;
      tail := (tail + 1) % OB_CAPACITY;
      count := count + 1;
      fifo := fifo + [d];
      return true;
    }

    /** The head moves on by one slot. */
    method DropOldest()
      requires Valid() && count > 0
      modifies this
      ensures Valid() && fifo == old(fifo)[1..] && count == old(count) - 1 && tail == old(tail)
    {
      head := (head + 1) % OB_CAPACITY;
      count := count - 1;
      fifo := fifo[1..];
      assert forall i :: 0 <= i < count ==> Slot(head, i) == Slot(old(head), i + 1);
    }

    method Pop() returns (r: Option<TelemetryData>)
      requires Valid()
      modifies this
      ensures Valid()
      ensures r == if old(fifo) == [] then None else Some(old(fifo)[0])
      ensures fifo == if old(fifo) == [] then [] else old(fifo)[1..]
    {
      if count == 0 {
        return None;
      }
      assert Slot(head, 0) == head;
      r := Some(buf[head]);
      DropOldest();
    }

    method Peek() returns (r: Option<TelemetryData>)
      requires Valid()
      ensures r == if fifo == [] then None else Some(fifo[0])
    {
      if count == 0 {
        return None;
      }
      assert Slot(head, 0) == head;
      r := Some(buf[head]);
    }

    method DropFront() returns (ok: bool)
      requires Valid()
      modifies this
      ensures Valid()
      ensures ok == (old(fifo) != [])
      ensures fifo == if old(fifo) == [] then [] else old(fifo)[1..]
    {
      if count == 0 {
        return false;
      }
      DropOldest();
      return true;
    }

    method Count() returns (n: nat)
      requires Valid()
      ensures n == |fifo|
    {
      n := count;
    }

    method IsEmpty() returns (empty: bool)
      requires Valid()
      ensures empty <==> fifo == []
    {
      empty := count == 0;
    }
  }
}
