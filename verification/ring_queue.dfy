/**
 * The ordered reassembly buffer. Values arrive in any order from `min` on and
 * leave strictly in order. The state is a circular presence array: slot
 * `(start + (v - min)) % bufSize` records whether `v` has arrived. The lock
 * and condition of the Java class are linearised: each public operation is
 * one atomic step, and a blocked `take` is the precondition "min is pending".
 */
module RingQueue {
  import opened Wrappers
  import opened RingArith

  datatype Slot = Absent | Present

  datatype Ring = Ring(buf: seq<Slot>, bufSize: int, start: int, min: int, count: int)

  datatype QueueError =
    | BelowMinimum(expected: int, given: int) // value < min
    | Duplicate(value: int)                   // value received a second time

  /**
   * The slot that holds the value `offset` places above `min`. The Java code
   * computes `(start + offset) % size`; both operands are below `size`, so the
   * sum wraps at most once and the remainder is the subtraction below
   * (`PosIsRemainder`).
   */
  function Pos(start: int, offset: int, size: int): int
    requires size > 0
  {
    if start + offset < size then start + offset else start + offset - size
  }

  lemma PosIsRemainder(start: int, offset: int, size: int)
    requires 0 <= start < size && 0 <= offset < size
    ensures Pos(start, offset, size) == (start + offset) % size
  {
    ModWrap(start + offset, size);
  }

  /** The shape the array fields always have. */
  predicate WellFormed(q: Ring) {
    && q.bufSize > 0
    && |q.buf| == q.bufSize
    && 0 <= q.start < q.bufSize
  }

  /** `v` has been put and not yet taken. */
  predicate IsPending(q: Ring, v: int)
    requires WellFormed(q)
  {
    q.min <= v < q.min + q.bufSize && q.buf[Pos(q.start, v - q.min, q.bufSize)] == Present
  }

  /** The abstract content of the buffer: the values waiting to be released. */
  function Pending(q: Ring): set<int>
    requires WellFormed(q)
  {
    set v | q.min <= v < q.min + q.bufSize && IsPending(q, v)
  }

  /** The representation invariant: `count` counts the pending values. */
  predicate Valid(q: Ring) {
    WellFormed(q) && q.count == |Pending(q)|
  }

  /** The slot of `min` is `start`. */
  lemma MinSlot(q: Ring)
    requires WellFormed(q)
    ensures q.min in Pending(q) <==> q.buf[q.start] == Present
  {
    ModWrap(q.start, q.bufSize);
  }

  /**
   * A new queue expecting `firstValue` first, with `initialSize` slots.
   * The Java constructor accepts any size; see `CreateChecked` for why a
   * size of zero or less is excluded here.
   */
  function Create(initialSize: int, firstValue: int): (q: Ring)
    requires initialSize > 0
    ensures Valid(q)
    ensures q.min == firstValue && q.count == 0 && q.start == 0 && q.bufSize == initialSize
    ensures Pending(q) == {}
    ensures forall i :: 0 <= i < |q.buf| ==> q.buf[i] == Absent
  {
    var q := Ring(seq(initialSize, _ => Absent), initialSize, 0, firstValue, 0);
    assert Pending(q) == {};
    q
  }

  /** The constructor with its size checked instead of assumed. */
  function CreateChecked(initialSize: int, firstValue: int): (r: Option<Ring>)
    ensures r.Some? <==> initialSize > 0
    ensures r.Some? ==> Valid(r.value) && Pending(r.value) == {} && r.value.min == firstValue
  {
    if initialSize > 0 then Some(Create(initialSize, firstValue)) else None
  }

  /** The default constructor: 16 slots, first value 0. */
  function CreateDefault(): (q: Ring)
    ensures Valid(q) && Pending(q) == {} && q.min == 0 && q.bufSize == 16
  {
    Create(16, 0)
  }

  /** `size()` is the number of values waiting. */
  function Size(q: Ring): (n: int)
    requires Valid(q)
    ensures n == |Pending(q)|
  {
    q.count
  }

  /**
   * `isEmpty()` as written: it answers `count > 0`, which is true exactly
   * when the queue is NOT empty.
   */
  function IsEmpty(q: Ring): (b: bool)
    requires Valid(q)
    ensures b <==> Pending(q) != {}
  {
    q.count > 0
  }

  /** What `isEmpty()` evidently means. */
  function IsEmptyIntended(q: Ring): (b: bool)
    requires Valid(q)
    ensures b <==> Pending(q) == {}
  {
    q.count == 0
  }

  /** The two disagree on every queue. */
  lemma IsEmptyInverted(q: Ring)
    requires Valid(q)
    ensures IsEmpty(q) == !IsEmptyIntended(q)
    ensures IsEmpty(CreateDefault()) == false
  {
  }

  /**
   * The buffer `resize(newMax)` builds: capacity grown by doubling until
   * `newMax - min` fits, old contents unrolled so that `start` becomes 0,
   * new slots absent.
   */
  function Grow(q: Ring, newMax: int): (r: Ring)
    requires WellFormed(q) && newMax - q.min >= q.bufSize
    ensures r.min == q.min && r.count == q.count && r.start == 0 && |r.buf| == r.bufSize
    ensures newMax - q.min < r.bufSize <= 2 * (newMax - q.min)
    ensures forall i :: 0 <= i < q.bufSize ==> r.buf[i] == q.buf[Pos(q.start, i, q.bufSize)]
    ensures forall i :: q.bufSize <= i < r.bufSize ==> r.buf[i] == Absent
  {
    var cap := GrownCapacity(q.bufSize, newMax - q.min);
    GrownCapacityProperties(q.bufSize, newMax - q.min);
    Ring(seq(cap, i => if 0 <= i < q.bufSize then q.buf[Pos(q.start, i, q.bufSize)] else Absent),
         cap, 0, q.min, q.count)
  }

  /** Growing keeps every pending value, at the same offset from `min`. */
  lemma GrowKeepsPending(q: Ring, newMax: int)
    requires WellFormed(q) && newMax - q.min >= q.bufSize
    ensures WellFormed(Grow(q, newMax))
    ensures Pending(Grow(q, newMax)) == Pending(q)
    ensures Grow(q, newMax).bufSize > newMax - q.min
  {
    var g := Grow(q, newMax);
    GrownCapacityProperties(q.bufSize, newMax - q.min);
    forall v | g.min <= v < g.min + g.bufSize
      ensures IsPending(g, v) <==> IsPending(q, v)
    {
      ModWrap(v - g.min, g.bufSize);
    }
    assert forall v :: v in Pending(g) <==> v in Pending(q);
  }

  /** Marking `v` present adds exactly `v` to the pending set. */
  lemma MarkKeepsOthers(q: Ring, v: int)
    requires WellFormed(q) && q.min <= v < q.min + q.bufSize
    ensures var q' := q.(buf := q.buf[Pos(q.start, v - q.min, q.bufSize) := Present]);
            WellFormed(q') && Pending(q') == Pending(q) + {v}
  {
    var p := Pos(q.start, v - q.min, q.bufSize);
    var q' := q.(buf := q.buf[p := Present]);
    ModWrap(q.start + (v - q.min), q.bufSize);
    forall w | q.min <= w < q.min + q.bufSize
      ensures IsPending(q', w) <==> IsPending(q, w) || w == v
    {
      ModWrap(q.start + (w - q.min), q.bufSize);
    }
    assert forall w :: w in Pending(q') <==> w in Pending(q) || w == v;
  }

  /**
   * The buffer `put(v)` works on after its resize check: grown when `v` is
   * beyond the last slot, the same buffer otherwise.
   */
  function Prepare(q: Ring, v: int): (g: Ring)
    requires Valid(q) && v >= q.min
    ensures WellFormed(g) && Pending(g) == Pending(q)
    ensures g.count == q.count && g.min == q.min && g.min <= v < g.min + g.bufSize
    ensures v in Pending(q) ==> g == q
  {
    if v - q.min >= q.bufSize then
      GrowKeepsPending(q, v);
      Grow(q, v)
    else
      q
  }

  /** Marks `v` present in its slot and counts it. */
  function Mark(g: Ring, v: int): (r: Ring)
    requires WellFormed(g) && g.min <= v < g.min + g.bufSize
    ensures WellFormed(r) && Pending(r) == Pending(g) + {v}
    ensures r.min == g.min && r.count == g.count + 1 && r.bufSize == g.bufSize
  {
    MarkKeepsOthers(g, v);
    g.(buf := g.buf[Pos(g.start, v - g.min, g.bufSize) := Present], count := g.count + 1)
  }

  /**
   * `put(value)`: rejects a value below `min` and a value already pending,
   * leaving the queue as it was; otherwise grows the buffer if needed and
   * marks the value present.
   */
  function Put(q: Ring, v: int): (r: (Ring, Outcome<QueueError>))
    requires Valid(q)
    ensures v < q.min ==> r == (q, Fail(BelowMinimum(q.min, v)))
    ensures v >= q.min && v in Pending(q) ==> r == (q, Fail(Duplicate(v)))
    ensures v >= q.min && v !in Pending(q) ==>
              && r.1 == Pass
              && Valid(r.0)
              && Pending(r.0) == Pending(q) + {v}
              && r.0.count == q.count + 1
              && r.0.min == q.min
    ensures r.1 == Pass ==> r.0.bufSize > v - q.min
  {
    if v < q.min then (q, Fail(BelowMinimum(q.min, v)))
    else
      var g := Prepare(q, v);
      if g.buf[Pos(g.start, v - g.min, g.bufSize)] == Present then
        (g, Fail(Duplicate(v)))
      else
        (Mark(g, v), Pass)
  }

  /**
   * `take()` once `min` is pending: releases `min`, clears its slot, and
   * moves `min` and `start` one place on.
   */
  function Take(q: Ring): (r: (int, Ring))
    requires Valid(q) && q.min in Pending(q)
    ensures r.0 == q.min
    ensures Valid(r.1)
    ensures Pending(r.1) == Pending(q) - {q.min}
    ensures r.1.min == q.min + 1 && r.1.count == q.count - 1
    ensures r.1.bufSize == q.bufSize && r.1.start == (q.start + 1) % q.bufSize
  {
    MinSlot(q);
    var q' := Ring(q.buf[q.start := Absent], q.bufSize, (q.start + 1) % q.bufSize, q.min + 1, q.count - 1);
    TakeKeepsOthers(q);
    (q.min, q')
  }

  lemma TakeKeepsOthers(q: Ring)
    requires WellFormed(q) && q.min in Pending(q)
    ensures var q' := Ring(q.buf[q.start := Absent], q.bufSize, (q.start + 1) % q.bufSize, q.min + 1, q.count - 1);
            WellFormed(q') && Pending(q') == Pending(q) - {q.min}
  {
    var n := q.bufSize;
    var q' := Ring(q.buf[q.start := Absent], n, (q.start + 1) % n, q.min + 1, q.count - 1);
    ModWrap(q.start + 1, n);
    forall w | q'.min <= w < q'.min + n
      ensures IsPending(q', w) <==> IsPending(q, w) && w != q.min
    {
      ModWrap(q'.start + (w - q'.min), n);
      ModWrap(q.start + (w - q.min), n);
      if w == q.min + n {
        // the offset that just came into range lands on the cleared slot
        assert Pos(q'.start, w - q'.min, n) == q.start;
      }
    }
    assert forall w :: w in Pending(q') <==> w in Pending(q) && w != q.min;
  }

  /**
   * `poll(timeout)`, with the timeout elapsed: no value and no change when
   * `min` has not arrived, otherwise exactly `take()`.
   */
  function Poll(q: Ring): (r: (Option<int>, Ring))
    requires Valid(q)
    ensures r.0.None? <==> q.min !in Pending(q)
    ensures r.0.None? ==> r.1 == q
    ensures r.0.Some? ==> q.min in Pending(q) && (r.0.value, r.1) == Take(q)
  {
    MinSlot(q);
    if q.buf[q.start] == Present then
      var (v, q') := Take(q);
      (Some(v), q')
    else
      (None, q)
  }

  /** The unrolled contents the resize copies into a buffer of `cap` slots. */
  predicate Unrolled(q: Ring, s: seq<Slot>, cap: int)
    requires WellFormed(q)
  {
    && |s| == cap
    && (forall k :: 0 <= k < q.bufSize && k < cap ==> s[k] == q.buf[Pos(q.start, k, q.bufSize)])
    && (forall k :: q.bufSize <= k < cap ==> s[k] == Absent)
  }

  /** The doubling loop of `resize`: doubles the size at least once, then
      until the offset `d` fits. */
  method DoubleCapacity(n: int, d: int) returns (c: int)
    requires 0 < n <= d
    ensures c == GrownCapacity(n, d) && d < c
  {
    c := n * 2;
    while c <= d
      invariant c >= 2 * n
      invariant Fit(c, d) == GrownCapacity(n, d)
      decreases d - c
    {
      c := c * 2;
    }
  }

  /**
   * The three copy loops of `resize` over a fresh array of `cap` slots: the
   * part from `start` to the end, then the wrapped part before `start`,
   * then the new absent slots.
   */
  method CopyUnrolled(q: Ring, cap: int) returns (s: seq<Slot>)
    requires WellFormed(q) && cap >= q.bufSize
    ensures Unrolled(q, s, cap)
  {
    var n := q.bufSize;
    var newBuf := new Slot[cap];
    var i := q.start;
    while i < n
      invariant q.start <= i <= n
      invariant forall k :: 0 <= k < i - q.start ==> newBuf[k] == q.buf[Pos(q.start, k, n)]
    {
      ModWrap(i, n);
      newBuf[i - q.start] := q.buf[i];
      i := i + 1;
    }
    i := 0;
    while i < q.start
      invariant 0 <= i <= q.start
      invariant forall k :: 0 <= k < n - q.start + i ==> newBuf[k] == q.buf[Pos(q.start, k, n)]
    {
      ModWrap(i + n, n);
      newBuf[i + n - q.start] := q.buf[i];
      i := i + 1;
    }
    i := n;
    while i < cap
      invariant n <= i <= cap
      invariant forall k :: 0 <= k < n ==> newBuf[k] == q.buf[Pos(q.start, k, n)]
      invariant forall k :: n <= k < i ==> newBuf[k] == Absent
    {
      newBuf[i] := Absent;
      i := i + 1;
    }
    s := newBuf[..];
  }

  /**
   * `resize(newMax)` as the Java code does it: the doubling loop for the
   * new capacity, then the copy loops; the result is the grown buffer.
   */
  method Resize(q: Ring, newMax: int) returns (r: Ring)
    requires Valid(q) && newMax - q.min >= q.bufSize
    ensures r == Grow(q, newMax)
    ensures Valid(r) && Pending(r) == Pending(q)
    ensures r.start == 0 && r.min == q.min && r.count == q.count
    ensures q.bufSize < r.bufSize && newMax - q.min < r.bufSize <= 2 * (newMax - q.min)
    ensures r.bufSize == q.bufSize * Pow2(1 + FitExponent(2 * q.bufSize, newMax - q.min))
  {
    var d := newMax - q.min;
    var cap := DoubleCapacity(q.bufSize, d);
    var s := CopyUnrolled(q, cap);
    r := Ring(s, cap, 0, q.min, q.count);
    GrownCapacityProperties(q.bufSize, d);
    GrowKeepsPending(q, newMax);
    assert r.buf == Grow(q, newMax).buf;
  }
}
