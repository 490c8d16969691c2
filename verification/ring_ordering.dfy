/**
 * The ordering law of the reassembly buffer: whatever order values are put
 * in, they are released as `min`, `min + 1`, `min + 2`, ...
 */
module RingOrdering {
  import opened Wrappers
  import opened RingQueue

  predicate InRange(m: int, n: nat, v: int) {
    m <= v < m + n
  }

  /** The integers of `[m, m + n)`. */
  function RangeSet(m: int, n: nat): set<int> {
    set v | m <= v < m + n && InRange(m, n, v)
  }

  function Range(m: int, n: nat): seq<int> {
    seq(n, i => m + i)
  }

  predicate Distinct(vs: seq<int>) {
    forall i, j :: 0 <= i < j < |vs| ==> vs[i] != vs[j]
  }

  /** `p` lists every integer of `[m, m + n)` exactly once. */
  predicate IsPermutationOfRange(p: seq<int>, m: int, n: nat) {
    && Distinct(p)
    && (forall i :: 0 <= i < |p| ==> m <= p[i] < m + n)
    && (forall v :: m <= v < m + n ==> v in p)
  }

  /** No value of `vs` is pending in `q` or below its `min`. */
  predicate AllFresh(q: Ring, vs: seq<int>)
    requires WellFormed(q)
  {
    forall i :: 0 <= i < |vs| ==> vs[i] >= q.min && vs[i] !in Pending(q)
  }

  lemma FreshTail(q: Ring, q1: Ring, vs: seq<int>)
    requires WellFormed(q) && WellFormed(q1) && vs != [] && Distinct(vs) && AllFresh(q, vs)
    requires Pending(q1) == Pending(q) + {vs[0]} && q1.min == q.min
    ensures Distinct(vs[1..]) && AllFresh(q1, vs[1..])
  {
    var rest := vs[1..];
    forall i | 0 <= i < |rest|
      ensures rest[i] >= q1.min && rest[i] !in Pending(q1)
    {
      assert rest[i] == vs[i + 1];
    }
  }

  /** The values a sequence holds. */
  function Values(vs: seq<int>): set<int> {
    set x | x in vs
  }

  /** The values of `vs[..k + 1]` are those of `vs[..k]` and `vs[k]`. */
  lemma PrefixSetStep(vs: seq<int>, k: nat)
    requires k < |vs|
    ensures Values(vs[..k + 1]) == Values(vs[..k]) + {vs[k]}
  {
    assert vs[..k + 1] == vs[..k] + [vs[k]];
  }

  /** After the first `k` puts of fresh values `vs` into `q`, the queue is
      `r`: the rest are still fresh, and the first `k` are pending. */
  predicate Filling(q: Ring, vs: seq<int>, r: Ring, k: nat)
    requires WellFormed(q) && WellFormed(r) && k <= |vs|
  {
    && r.min == q.min
    && Distinct(vs[k..]) && AllFresh(r, vs[k..])
    && Pending(r) == Pending(q) + Values(vs[..k])
  }

  lemma FillingStarts(q: Ring, vs: seq<int>)
    requires Valid(q) && Distinct(vs) && AllFresh(q, vs)
    ensures Filling(q, vs, q, 0)
  {
    assert vs[0..] == vs && vs[..0] == [];
    assert Values([]) == {};
  }

  /**
   * `states[k]` is the queue before the put of `vs[k]`, starting from `q`,
   * and each of the first `k` puts is accepted and leads to the next state.
   */
  predicate AcceptedPrefix(q: Ring, vs: seq<int>, states: seq<Ring>, k: nat) {
    && k <= |vs| && |states| == k + 1 && states[0] == q
    && forall j :: 0 <= j < k ==> Valid(states[j]) && Put(states[j], vs[j]) == (states[j + 1], Pass)
  }

  /** One more accepted put extends the run of states. */
  lemma AcceptedStep(q: Ring, vs: seq<int>, states: seq<Ring>, k: nat, r1: Ring)
    requires AcceptedPrefix(q, vs, states, k) && k < |vs|
    requires Valid(states[k]) && Put(states[k], vs[k]) == (r1, Pass)
    ensures AcceptedPrefix(q, vs, states + [r1], k + 1)
  {
    var s1 := states + [r1];
    forall j | 0 <= j < k + 1
      ensures Valid(s1[j]) && Put(s1[j], vs[j]) == (s1[j + 1], Pass)
    {
      if j < k {
        assert s1[j] == states[j] && s1[j + 1] == states[j + 1];
      } else {
        assert s1[j] == states[k] && s1[j + 1] == r1;
      }
    }
  }

  /** The next value of a fresh run is accepted, and the rest stay fresh. */
  lemma FreshPut(q: Ring, vs: seq<int>, r: Ring, k: nat)
    requires Valid(q) && k < |vs| && Valid(r) && Filling(q, vs, r, k)
    ensures Put(r, vs[k]).1 == Pass && Valid(Put(r, vs[k]).0)
    ensures Filling(q, vs, Put(r, vs[k]).0, k + 1)
  {
    var step := Put(r, vs[k]);
    assert vs[k..][0] == vs[k];
    FreshTail(r, step.0, vs[k..]);
    assert vs[k..][1..] == vs[k + 1..];
    PrefixSetStep(vs, k);
  }

  /**
   * Puts each value of `vs` in turn. Distinct values that are neither below
   * `min` nor pending are all accepted: `states` is the queue before each
   * put and `r` the queue after the last. The pending set gains exactly
   * those values.
   */
  method PutAllAccepts(q: Ring, vs: seq<int>) returns (r: Ring, states: seq<Ring>)
    requires Valid(q) && Distinct(vs) && AllFresh(q, vs)
    ensures AcceptedPrefix(q, vs, states, |vs|) && states[|vs|] == r
    ensures Valid(r) && r.min == q.min
    ensures Pending(r) == Pending(q) + Values(vs)
  {
    FillingStarts(q, vs);
    r, states := q, [q];
    var k := 0;
    while k < |vs|
      invariant k <= |vs| && Valid(r) && Filling(q, vs, r, k)
      invariant AcceptedPrefix(q, vs, states, k) && states[k] == r
    {
      var step := Put(r, vs[k]);
      FreshPut(q, vs, r, k);
      AcceptedStep(q, vs, states, k, step.0);
      states := states + [step.0];
      r, k := step.0, k + 1;
    }
    assert vs[..k] == vs;
  }

  lemma RangeStep(m: int, n: nat)
    requires n > 0
    ensures m in RangeSet(m, n)
    ensures RangeSet(m, n) - {m} == RangeSet(m + 1, n - 1)
    ensures Range(m, n) == [m] + Range(m + 1, n - 1)
  {
    assert RangeSet(m, n) - {m} == RangeSet(m + 1, n - 1) by {
      forall v ensures v in RangeSet(m, n) - {m} <==> v in RangeSet(m + 1, n - 1) {
        assert InRange(m, n, v) && v != m <==> InRange(m + 1, n - 1, v);
      }
    }
  }

  lemma RangeEmpty(m: int)
    ensures RangeSet(m, 0) == {} && Range(m, 0) == []
  {
    forall v ensures v !in RangeSet(m, 0) {
      assert !InRange(m, 0, v);
    }
  }

  /**
   * `n` successive polls on a queue whose pending values are exactly the
   * next `n`: each finds `min`, so they release the values in order and
   * leave the queue empty.
   */
  method DrainRange(q: Ring, n: nat) returns (out: seq<int>, r: Ring)
    requires Valid(q) && Pending(q) == RangeSet(q.min, n)
    ensures out == Range(q.min, n)
    ensures Valid(r) && Pending(r) == {} && r.min == q.min + n
  {
    out, r := [], q;
    var k := 0;
    while k < n
      invariant 0 <= k <= n && Valid(r) && r.min == q.min + k
      invariant Pending(r) == RangeSet(r.min, n - k)
      invariant out == Range(q.min, k)
    {
      RangeStep(r.min, n - k);
      var step := Poll(r);
      assert Range(q.min, k + 1) == out + [r.min];
      out, r := out + [step.0.value], step.1;
      k := k + 1;
    }
    RangeEmpty(r.min);
  }

  /**
   * The ordering law: put any permutation of `[min, min + n)` into an empty
   * queue; every put is accepted (`states` is the queue before each put) and
   * `n` polls then release exactly `min, min + 1, ..., min + n - 1`, leaving
   * the queue empty.
   */
  method OrderingLaw(q: Ring, p: seq<int>, n: nat) returns (states: seq<Ring>, out: seq<int>, r: Ring)
    requires Valid(q) && Pending(q) == {}
    requires IsPermutationOfRange(p, q.min, n)
    ensures AcceptedPrefix(q, p, states, |p|)
    ensures out == Range(q.min, n)
    ensures Valid(r) && Pending(r) == {} && r.min == q.min + n
  {
    var filled;
    filled, states := PutAllAccepts(q, p);
    PermutationSet(p, q.min, n);
    out, r := DrainRange(filled, n);
  }

  /** The values of a permutation of `[m, m + n)` are exactly that range. */
  lemma PermutationSet(p: seq<int>, m: int, n: nat)
    requires IsPermutationOfRange(p, m, n)
    ensures Values(p) == RangeSet(m, n)
  {
    forall v ensures v in Values(p) <==> v in RangeSet(m, n) {
      if v in p {
        var i :| 0 <= i < |p| && p[i] == v;
        assert InRange(m, n, v);
      }
    }
  }

  /** One call on the queue from some thread. */
  datatype Op = PutOp(v: int) | PollOp

  /** Runs the calls in order; answers what the polls released. */
  function Run(q: Ring, ops: seq<Op>): (r: (seq<int>, Ring))
    requires Valid(q)
    ensures Valid(r.1)
    decreases |ops|
  {
    if ops == [] then ([], q)
    else if ops[0].PutOp? then Run(Put(q, ops[0].v).0, ops[1..])
    else
      var step := Poll(q);
      var rest := Run(step.1, ops[1..]);
      (if step.0.Some? then [step.0.value] + rest.0 else rest.0, rest.1)
  }

  /** A poll either releases `min` and advances it by one, or changes nothing. */
  lemma PollAdvances(q: Ring)
    requires Valid(q)
    ensures Poll(q).0.Some? ==> Poll(q).0.value == q.min && Poll(q).1.min == q.min + 1
    ensures Poll(q).0.None? ==> Poll(q).1.min == q.min
  {
  }

  lemma RangeCons(m: int, rest: seq<int>)
    requires rest == Range(m + 1, |rest|)
    ensures [m] + rest == Range(m, |rest| + 1)
  {
  }

  /** The bookkeeping of one poll, with the queue abstracted away. */
  lemma ReleaseStep(released: bool, m: int, m1: int, rest: seq<int>, out: seq<int>, last: int)
    requires released ==> m1 == m + 1 && out == [m] + rest
    requires !released ==> m1 == m && out == rest
    requires rest == Range(m1, |rest|) && last == m1 + |rest|
    ensures out == Range(m, |out|) && last == m + |out|
  {
    if released {
      RangeCons(m, rest);
    }
  }

  lemma RunPollCons(q: Ring, ops: seq<Op>)
    requires Valid(q) && ops != [] && ops[0].PollOp?
    ensures Run(q, ops).1 == Run(Poll(q).1, ops[1..]).1
    ensures Poll(q).0.None? ==> Run(q, ops).0 == Run(Poll(q).1, ops[1..]).0
    ensures Poll(q).0.Some? ==> Run(q, ops).0 == [Poll(q).0.value] + Run(Poll(q).1, ops[1..]).0
  {
  }

  /**
   * Under any interleaving of puts (accepted or rejected) and polls, the
   * released values are consecutive integers starting at the first
   * expected value, and `min` has advanced past exactly those values.
   */
  lemma {:induction false} RunReleasesInOrder(q: Ring, ops: seq<Op>)
    requires Valid(q)
    ensures Run(q, ops).0 == Range(q.min, |Run(q, ops).0|)
    ensures Run(q, ops).1.min == q.min + |Run(q, ops).0|
    decreases |ops|
  {
    if ops == [] {
    } else if ops[0].PutOp? {
      RunReleasesInOrder(Put(q, ops[0].v).0, ops[1..]);
    } else {
      var step := Poll(q);
      RunReleasesInOrder(step.1, ops[1..]);
      PollAdvances(q);
      RunPollCons(q, ops);
      var rest := Run(step.1, ops[1..]);
      ReleaseStep(step.0.Some?, q.min, step.1.min, rest.0, Run(q, ops).0, rest.1.min);
    }
  }
}
