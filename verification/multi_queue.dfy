/**
 * A write-only queue that copies each value into several destination queues.
 * Only `put` is supported; every other queue operation fails. A destination
 * is modelled by the sequence of values it has received.
 */
module MultiQueue {
  import opened Wrappers

  /** The destinations, in the order the constructor was given them. */
  datatype MultiQueue = MultiQueue(queues: seq<seq<int>>)

  datatype MultiError =
    | PutFailed(at: nat)   // the put into destination `at` threw
    | UnsupportedOperation

  /** The constructor keeps the destinations and their order. */
  function Create(queues: seq<seq<int>>): (m: MultiQueue)
    ensures |m.queues| == |queues|
    ensures forall i :: 0 <= i < |queues| ==> m.queues[i] == queues[i]
  {
    MultiQueue(queues)
  }

  /** The destinations after `v` went into the first `k` of them. */
  function FanOut(qs: seq<seq<int>>, v: int, k: int): seq<seq<int>> {
    seq(|qs|, i requires 0 <= i < |qs| => if i < k then qs[i] + [v] else qs[i])
  }

  /**
   * Puts `v` into each destination in turn. `failAt` is the index of the
   * destination whose own put throws (an interrupt, or a rejection by the
   * destination), if any: the destinations before it have the value, the
   * rest do not, and the failure propagates.
   */
  method Put(m: MultiQueue, v: int, failAt: Option<nat>) returns (r: MultiQueue, o: Outcome<MultiError>)
    ensures |r.queues| == |m.queues|
    ensures o.Pass? <==> failAt.None? || failAt.value >= |m.queues|
    ensures o.Pass? ==> forall i :: 0 <= i < |m.queues| ==> r.queues[i] == m.queues[i] + [v]
    ensures o.Fail? ==> o.error == PutFailed(failAt.value)
    ensures o.Fail? ==> forall i :: 0 <= i < |m.queues| ==>
      r.queues[i] == (if i < failAt.value then m.queues[i] + [v] else m.queues[i])
    ensures r.queues == FanOut(m.queues, v, if o.Pass? then |m.queues| else failAt.value)
  {
    var qs := m.queues;
    var i := 0;
    while i < |qs|
      invariant 0 <= i <= |qs| == |m.queues|
      invariant forall j :: 0 <= j < i ==> qs[j] == m.queues[j] + [v]
      invariant forall j :: i <= j < |qs| ==> qs[j] == m.queues[j]
      invariant failAt.Some? ==> i <= failAt.value
    {
      if failAt == Some(i) {
        return MultiQueue(qs), Fail(PutFailed(i));
      }
      qs := qs[i := qs[i] + [v]];
      i := i + 1;
    }
    return MultiQueue(qs), Pass;
  }

  /** What successive uninterrupted puts of `vs` leave in the destinations. */
  function PutEach(m: MultiQueue, vs: seq<int>): MultiQueue
    decreases |vs|
  {
    if vs == [] then m
    else PutEach(MultiQueue(FanOut(m.queues, vs[0], |m.queues|)), vs[1..])
  }

  /**
   * After any sequence of uninterrupted puts every destination has received
   * the same values, in the same order; from empty destinations each one
   * holds exactly the values put.
   */
  lemma {:induction false} PutEachAppends(m: MultiQueue, vs: seq<int>)
    ensures |PutEach(m, vs).queues| == |m.queues|
    ensures forall i :: 0 <= i < |m.queues| ==> PutEach(m, vs).queues[i] == m.queues[i] + vs
    decreases |vs|
  {
    if vs != [] {
      var m1 := MultiQueue(FanOut(m.queues, vs[0], |m.queues|));
      PutEachAppends(m1, vs[1..]);
      forall i | 0 <= i < |m.queues|
        ensures PutEach(m, vs).queues[i] == m.queues[i] + vs
      {
        assert m1.queues[i] == m.queues[i] + [vs[0]];
        assert [vs[0]] + vs[1..] == vs;
      }
    }
  }

  /** `n` destinations that have received nothing yet. */
  function Empties(n: nat): (qs: seq<seq<int>>)
    ensures |qs| == n && forall i :: 0 <= i < n ==> qs[i] == []
  {
    seq(n, _ => [])
  }

  lemma SameValuesEverywhere(n: nat, vs: seq<int>)
    ensures |PutEach(Create(Empties(n)), vs).queues| == n
    ensures forall i :: 0 <= i < n ==> PutEach(Create(Empties(n)), vs).queues[i] == vs
  {
    PutEachAppends(Create(Empties(n)), vs);
  }

  /** Every queue operation other than `put`. */
  datatype OtherOperation =
    | Remove | PollNow | Element | Peek | Iterator | ToArray | ToTypedArray
    | ContainsAll | AddAll | RemoveAll | RetainAll | Clear | Add | Offer
    | OfferTimed | RemainingCapacity | RemoveValue | Contains | DrainTo
    | DrainToAtMost | IsEmpty | Size | Take | PollTimed

  /** Any other operation fails as unsupported and changes no destination. */
  function Other(m: MultiQueue, op: OtherOperation): (r: (MultiQueue, Outcome<MultiError>))
    ensures r.0 == m && r.1 == Fail(UnsupportedOperation)
  {
    (m, Fail(UnsupportedOperation))
  }
}
