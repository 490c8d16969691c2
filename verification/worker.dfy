/**
 * What every worker thread shares: a number and a name that identify it in
 * the log, and the flag that asks it to finish.
 */
module AbstractWorker {
  datatype Worker = Worker(number: int, name: string, exited: bool)

  /** A worker as its constructor leaves it; nobody has asked it to exit. */
  function NewWorker(number: int, name: string): (w: Worker)
    ensures w.number == number && w.name == name && !w.exited
  {
    Worker(number, name, false)
  }

  /** Asks the worker to finish. Only the flag changes; the identity is final. */
  function ExitWork(w: Worker): (r: Worker)
    ensures r.exited
    ensures r.number == w.number && r.name == w.name
  {
    w.(exited := true)
  }

  /** Asking twice is asking once, and a raised flag is never lowered. */
  lemma ExitWorkIdempotent(w: Worker)
    ensures ExitWork(ExitWork(w)) == ExitWork(w)
    ensures w.exited ==> ExitWork(w) == w
  {
  }

  /**
   * The Receiver and Sender classes number their instances from a shared
   * counter: each constructor increments it and takes the new value.
   */
  function NextNumber(counter: int): (r: (int, int))
    ensures r.0 == counter + 1 && r.1 == r.0
  {
    (counter + 1, counter + 1)
  }

  /** The numbers `n` successive constructions take, and the counter after them. */
  function Numbers(counter: int, n: nat): (r: (seq<int>, int))
    decreases n
  {
    if n == 0 then ([], counter)
    else
      var first := NextNumber(counter);
      var rest := Numbers(first.1, n - 1);
      ([first.0] + rest.0, rest.1)
  }

  /** Successive workers get `counter + 1, counter + 2, ...`: all different. */
  lemma {:induction false} NumbersAreDistinct(counter: int, n: nat)
    ensures |Numbers(counter, n).0| == n
    ensures forall i :: 0 <= i < n ==> Numbers(counter, n).0[i] == counter + 1 + i
    ensures forall i, j :: 0 <= i < j < n ==> Numbers(counter, n).0[i] < Numbers(counter, n).0[j]
    ensures Numbers(counter, n).1 == counter + n
    decreases n
  {
    if n > 0 {
      NumbersAreDistinct(counter + 1, n - 1);
    }
  }

  /** What a timed poll of a blocking queue answers. */
  datatype PollResult = Got(value: int) | TimedOut | PollInterrupted
}

/** Facts about finite event traces that the worker loops share. */
module Traces {
  /** A non-empty prefix is the first event followed by a prefix of the rest. */
  lemma PrefixCons<T>(es: seq<T>, k: nat)
    requires 0 < k <= |es|
    ensures es[..k] == [es[0]] + es[1..][..k - 1]
  {
  }
}
