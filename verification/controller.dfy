/**
 * The consistency tracker: two high-water marks, `lastProduced` and
 * `lastSaved`, each raised by "set if greater". The compare-and-set retry
 * loops of the Java class are linearised: each call is one atomic step.
 */
module AtomicDataController {
  import P = ProtocolConstants

  datatype Marks = Marks(lastProduced: int, lastSaved: int)

  /** The "none" sentinel both marks start from. */
  function NoneMark(): int {
    P.Encode(P.NoneValue)
  }

  function Max(a: int, b: int): int {
    if a >= b then a else b
  }

  /** A fresh tracker: nothing produced, nothing saved, so all is saved. */
  function Initial(): (m: Marks)
    ensures m.lastProduced == -1 && m.lastSaved == -1
    ensures AreAllSaved(m)
  {
    Marks(NoneMark(), NoneMark())
  }

  /** Raises `lastSaved` to `v` unless it is already at least `v`. */
  function Saved(m: Marks, v: int): (r: Marks)
    ensures r.lastProduced == m.lastProduced
    ensures r.lastSaved >= m.lastSaved && r.lastSaved >= v
    ensures r.lastSaved == m.lastSaved || r.lastSaved == v
  {
    if v <= m.lastSaved then m else m.(lastSaved := v)
  }

  /** Raises `lastProduced` to `v` unless it is already at least `v`. */
  function Produced(m: Marks, v: int): (r: Marks)
    ensures r.lastSaved == m.lastSaved
    ensures r.lastProduced >= m.lastProduced && r.lastProduced >= v
    ensures r.lastProduced == m.lastProduced || r.lastProduced == v
  {
    if v <= m.lastProduced then m else m.(lastProduced := v)
  }

  /** Everything produced is saved: saving the last produced value again
      would change nothing. */
  function AreAllSaved(m: Marks): (r: bool)
    ensures r <==> Saved(m, m.lastProduced).lastSaved == m.lastSaved
  {
    m.lastSaved >= m.lastProduced
  }

  /** Starts counting again from the sentinel. */
  function Reset(m: Marks): (r: Marks)
    ensures r.lastProduced == NoneMark() && r.lastSaved == NoneMark()
    ensures AreAllSaved(r)
  {
    Initial()
  }

  /** Replaying a mark changes nothing. */
  lemma SavedIdempotent(m: Marks, v: int)
    ensures Saved(Saved(m, v), v) == Saved(m, v)
  {
  }

  lemma ProducedIdempotent(m: Marks, v: int)
    ensures Produced(Produced(m, v), v) == Produced(m, v)
  {
  }

  /** One call of either kind, as it happens on some thread. */
  datatype Update = ProducedCall(p: int) | SavedCall(s: int)

  function Apply(m: Marks, u: Update): Marks {
    match u
    case ProducedCall(v) => Produced(m, v)
    case SavedCall(v) => Saved(m, v)
  }

  function ApplyAll(m: Marks, us: seq<Update>): Marks
    decreases |us|
  {
    if us == [] then m else ApplyAll(Apply(m, us[0]), us[1..])
  }

  /** The largest value in `init` and every produced call of `us`. */
  function MaxProduced(init: int, us: seq<Update>): int
    decreases |us|
  {
    if us == [] then init
    else MaxProduced(if us[0].ProducedCall? then Max(init, us[0].p) else init, us[1..])
  }

  function MaxSaved(init: int, us: seq<Update>): int
    decreases |us|
  {
    if us == [] then init
    else MaxSaved(if us[0].SavedCall? then Max(init, us[0].s) else init, us[1..])
  }

  /**
   * Under any interleaving of calls, each mark is the maximum of its start
   * value and the values passed to its own setter; in particular neither
   * mark ever decreases, and `areAllSaved` compares those two maxima.
   */
  lemma {:induction false} ApplyAllIsMax(m: Marks, us: seq<Update>)
    ensures ApplyAll(m, us).lastProduced == MaxProduced(m.lastProduced, us)
    ensures ApplyAll(m, us).lastSaved == MaxSaved(m.lastSaved, us)
    ensures ApplyAll(m, us).lastProduced >= m.lastProduced
    ensures ApplyAll(m, us).lastSaved >= m.lastSaved
    ensures AreAllSaved(ApplyAll(m, us)) <==> MaxSaved(m.lastSaved, us) >= MaxProduced(m.lastProduced, us)
    decreases |us|
  {
    if us != [] {
      ApplyAllIsMax(Apply(m, us[0]), us[1..]);
    }
  }

  /**
   * `MaxSaved` is the maximum: it bounds the start value and every saved
   * value, and it is one of them.
   */
  lemma {:induction false} MaxSavedIsMaximum(init: int, us: seq<Update>)
    ensures MaxSaved(init, us) >= init
    ensures forall i :: 0 <= i < |us| && us[i].SavedCall? ==> MaxSaved(init, us) >= us[i].s
    ensures MaxSaved(init, us) == init || exists i :: 0 <= i < |us| && us[i].SavedCall? && us[i].s == MaxSaved(init, us)
    decreases |us|
  {
    if us != [] {
      var init1 := if us[0].SavedCall? then Max(init, us[0].s) else init;
      MaxSavedIsMaximum(init1, us[1..]);
      var m := MaxSaved(init, us);
      if m != init1 {
        var i :| 0 <= i < |us[1..]| && us[1..][i].SavedCall? && us[1..][i].s == m;
        assert us[i + 1] == us[1..][i];
      } else if m != init {
        assert us[0].SavedCall? && us[0].s == m;
      }
      forall i | 0 <= i < |us| && us[i].SavedCall?
        ensures m >= us[i].s
      {
        if i > 0 {
          assert us[1..][i - 1] == us[i];
        }
      }
    }
  }

  /** A mark never goes down, whatever is replayed later. */
  lemma {:induction false} MarksMonotone(m: Marks, us: seq<Update>, k: nat)
    requires k <= |us|
    ensures ApplyAll(m, us[..k]).lastProduced <= ApplyAll(m, us).lastProduced
    ensures ApplyAll(m, us[..k]).lastSaved <= ApplyAll(m, us).lastSaved
    decreases k
  {
    if k > 0 {
      calc {
        ApplyAll(m, us);
        { assert us == [us[0]] + us[1..]; }
        ApplyAll(Apply(m, us[0]), us[1..]);
      }
      assert us[..k][1..] == us[1..][..k-1];
      MarksMonotone(Apply(m, us[0]), us[1..], k - 1);
    } else {
      ApplyAllIsMax(m, us);
    }
  }
}

/** The Initiator's tracker, which also hands out the generated values. */
module DataGenerator {
  import opened AtomicDataController

  /** Increments `lastProduced` and answers the new value. */
  function ProduceNext(m: Marks): (r: (int, Marks))
    ensures r.0 == m.lastProduced + 1
    ensures r.1.lastProduced == r.0 && r.1.lastSaved == m.lastSaved
    ensures AreAllSaved(r.1) <==> m.lastSaved >= r.0
  {
    var v := m.lastProduced + 1;
    (v, m.(lastProduced := v))
  }

  /** The values of `n` successive calls, and the tracker after them. */
  function ProduceMany(m: Marks, n: nat): (r: (seq<int>, Marks))
    decreases n
  {
    if n == 0 then ([], m)
    else
      var (v, m1) := ProduceNext(m);
      var (vs, m2) := ProduceMany(m1, n - 1);
      ([v] + vs, m2)
  }

  /**
   * From any tracker, `n` calls answer the next `n` integers in order, each
   * one greater than the previous, and leave `lastSaved` untouched.
   */
  lemma {:induction false} ProduceManyCounts(m: Marks, n: nat)
    ensures |ProduceMany(m, n).0| == n
    ensures forall i :: 0 <= i < n ==> ProduceMany(m, n).0[i] == m.lastProduced + 1 + i
    ensures ProduceMany(m, n).1.lastProduced == m.lastProduced + n
    ensures ProduceMany(m, n).1.lastSaved == m.lastSaved
    decreases n
  {
    if n > 0 {
      ProduceManyCounts(ProduceNext(m).1, n - 1);
    }
  }

  /** A fresh generator hands out 0, 1, 2, ... */
  lemma FreshGeneratorCountsFromZero(n: nat)
    ensures ProduceMany(Initial(), n).0 == seq(n, i => i)
    ensures n > 0 ==> ProduceMany(Initial(), n).0[0] == 0
  {
    ProduceManyCounts(Initial(), n);
  }
}

/**
 * The no-op tracker used by the Proxy and the Echo node, and the interface
 * both trackers implement.
 */
module DataController {
  import opened Wrappers
  import A = AtomicDataController

  /** Either a real tracker or the do-nothing one. */
  datatype Controller = Atomic(marks: A.Marks) | Dummy

  function Saved(c: Controller, v: int): (r: Controller)
    ensures c.Dummy? ==> r == Dummy
    ensures c.Atomic? ==> r == Atomic(A.Saved(c.marks, v))
  {
    match c
    case Atomic(m) => Atomic(A.Saved(m, v))
    case Dummy => Dummy
  }

  function Produced(c: Controller, v: int): (r: Controller)
    ensures c.Dummy? ==> r == Dummy
    ensures c.Atomic? ==> r == Atomic(A.Produced(c.marks, v))
  {
    match c
    case Atomic(m) => Atomic(A.Produced(m, v))
    case Dummy => Dummy
  }

  function AreAllSaved(c: Controller): (r: bool)
    ensures c.Dummy? ==> r
    ensures c.Atomic? ==> (r <==> c.marks.lastSaved >= c.marks.lastProduced)
  {
    match c
    case Atomic(m) => A.AreAllSaved(m)
    case Dummy => true
  }

  /** One call of either setter through the interface. */
  function Apply(c: Controller, u: A.Update): Controller {
    match u
    case ProducedCall(v) => Produced(c, v)
    case SavedCall(v) => Saved(c, v)
  }

  function ApplyAll(c: Controller, us: seq<A.Update>): Controller
    decreases |us|
  {
    if us == [] then c else ApplyAll(Apply(c, us[0]), us[1..])
  }

  /** Replaying two runs of calls one after the other is replaying their
      concatenation. */
  lemma {:induction false} ApplyAllAppend(c: Controller, us: seq<A.Update>, vs: seq<A.Update>)
    ensures ApplyAll(c, us + vs) == ApplyAll(ApplyAll(c, us), vs)
    decreases |us|
  {
    if us == [] {
      assert us + vs == vs;
    } else {
      assert (us + vs)[1..] == us[1..] + vs;
      ApplyAllAppend(Apply(c, us[0]), us[1..], vs);
    }
  }

  /** The no-op tracker ignores every update and always reports all saved. */
  lemma {:induction false} DummyIgnoresUpdates(us: seq<A.Update>)
    ensures ApplyAll(Dummy, us) == Dummy
    ensures AreAllSaved(ApplyAll(Dummy, us))
    decreases |us|
  {
    if us != [] {
      DummyIgnoresUpdates(us[1..]);
    }
  }

  /** The real tracker, seen through the interface, is the tracker itself. */
  lemma {:induction false} ApplyAllAtomic(m: A.Marks, us: seq<A.Update>)
    ensures ApplyAll(Atomic(m), us) == Atomic(A.ApplyAll(m, us))
    decreases |us|
  {
    if us != [] {
      ApplyAllAtomic(A.Apply(m, us[0]), us[1..]);
    }
  }

  /**
   * The lazily created process-wide instance: `slot` is the static field,
   * `freshId` the identity a `new` would give the instance.
   */
  function GetInstance(slot: Option<nat>, freshId: nat): (r: (nat, Option<nat>))
    ensures r.1 == Some(r.0)
    ensures slot.Some? ==> r.0 == slot.value
    ensures slot.None? ==> r.0 == freshId
  {
    match slot
    case Some(id) => (id, slot)
    case None => (freshId, Some(freshId))
  }

  /** Every call after the first answers the instance the first one made. */
  lemma GetInstanceStable(slot: Option<nat>, firstId: nat, laterId: nat)
    ensures GetInstance(GetInstance(slot, firstId).1, laterId).0 == GetInstance(slot, firstId).0
  {
  }
}
