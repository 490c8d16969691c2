/**
 * Arithmetic behind the circular buffer: positions modulo the capacity and
 * the capacity-doubling rule of the resize.
 */
module RingArith {
  import opened Wrappers

  /** `x % n` for an `x` that has wrapped at most once. */
  lemma ModWrap(x: int, n: int)
    requires 0 < n && 0 <= x < 2 * n
    ensures x % n == if x < n then x else x - n
  {
    if x < n {
      assert x == n * 0 + x;
    } else {
      assert x == n * 1 + (x - n);
    }
  }

  function Pow2(k: nat): (r: nat)
    ensures r >= 1
  {
    if k == 0 then 1 else 2 * Pow2(k - 1)
  }

  /** The first of `c`, `2c`, `4c`, ... that exceeds `d`. */
  function Fit(c: int, d: int): int
    requires c > 0
    decreases d - c
  {
    if c > d then c else Fit(2 * c, d)
  }

  /** How many doublings `Fit` performs. */
  function FitExponent(c: int, d: int): nat
    requires c > 0
    decreases d - c
  {
    if c > d then 0 else 1 + FitExponent(2 * c, d)
  }

  /**
   * `Fit(c, d)` exceeds `d`, is `c` times a power of two, and is the least
   * such value: halving it (when any doubling happened) no longer exceeds `d`.
   */
  lemma {:induction false} FitProperties(c: int, d: int)
    requires c > 0
    ensures Fit(c, d) > d
    ensures Fit(c, d) == c * Pow2(FitExponent(c, d))
    ensures Fit(c, d) == c || 2 * d >= Fit(c, d)
    decreases d - c
  {
    if c <= d {
      FitProperties(2 * c, d);
      var k := FitExponent(2 * c, d);
      assert Pow2(k + 1) == 2 * Pow2(k);
      assert 2 * c * Pow2(k) == c * (2 * Pow2(k));
    }
  }

  /**
   * The capacity the resize of a buffer of size `size` chooses so that an
   * offset `d` fits: it doubles at least once, then until `d` fits.
   */
  function GrownCapacity(size: int, d: int): int
    requires size > 0
  {
    Fit(2 * size, d)
  }

  /** The grown capacity is `size * 2^k` for some `k >= 1`, fits `d`, and is
      the least such capacity. */
  lemma GrownCapacityProperties(size: int, d: int)
    requires 0 < size <= d
    ensures GrownCapacity(size, d) > d
    ensures GrownCapacity(size, d) <= 2 * d
    ensures GrownCapacity(size, d) == size * Pow2(1 + FitExponent(2 * size, d))
  {
    FitProperties(2 * size, d);
    var k := FitExponent(2 * size, d);
    assert Pow2(k + 1) == 2 * Pow2(k);
    assert 2 * size * Pow2(k) == size * (2 * Pow2(k));
  }

  /**
   * The resize's doubling loop as written, run for at most `fuel` rounds:
   * `None` when it is still looping after them.
   */
  function DoublingLoop(c: int, d: int, fuel: nat): Option<int>
    decreases fuel
  {
    if c > d then Some(c)
    else if fuel == 0 then None
    else DoublingLoop(2 * c, d, fuel - 1)
  }

  /** With a positive capacity the loop stops, at `Fit`. */
  lemma {:induction false} DoublingLoopStops(c: int, d: int, fuel: nat)
    requires c > 0 && fuel >= FitExponent(c, d)
    ensures DoublingLoop(c, d, fuel) == Some(Fit(c, d))
    decreases fuel
  {
    if c <= d {
      DoublingLoopStops(2 * c, d, fuel - 1);
    }
  }

  /** With capacity 0 and an offset that needs a resize, no number of rounds
      is enough: doubling 0 stays 0. */
  lemma {:induction false} ZeroCapacityNeverFits(d: int, fuel: nat)
    requires d >= 0
    ensures DoublingLoop(0, d, fuel) == None
    decreases fuel
  {
    if fuel > 0 {
      ZeroCapacityNeverFits(d, fuel - 1);
    }
  }
}
