/**
 * The worker that reads integers from a connection and puts the payload
 * values on a queue. The connection is abstract: each loop iteration sees one
 * event, which says what the connection check, the read and the put did.
 */
module Receiver {
  import P = ProtocolConstants

  datatype Event =
    | Read(v: int)            // a value was read; a payload is put on the queue
    | PutFailed(payload: nat) // a payload was read; putting it on the queue threw
    | Disconnected            // the connection check at the loop head failed
    | EndOfStream             // the read hit the end of the stream
    | ReadFailed              // the read failed with another I/O error

  /** Why the worker returned; `StillRunning` when the events ran out first. */
  datatype Reason =
    | ConnectFailed | BarrierInterrupted | ConnectionLost | StreamEnded
    | ReadError | PutError | StillRunning

  /**
   * `forwarded` is what was put on the queue, `consumed` how many events
   * the loop took, `closed` whether the connection was closed.
   */
  datatype Outcome = Outcome(forwarded: seq<int>, consumed: nat, reason: Reason, closed: bool)

  /** Whether the loop returns on this event. */
  predicate Ends(e: Event) {
    !e.Read?
  }

  /** Why the loop returns on an event that ends it. */
  function EndReason(e: Event): Reason
    requires Ends(e)
  {
    match e
    case Disconnected => ConnectionLost
    case EndOfStream => StreamEnded
    case ReadFailed => ReadError
    case PutFailed(_) => PutError
    case Read(_) => StillRunning
  }

  /** The values the loop reads from a run of events, in order. */
  function ReadValues(es: seq<Event>): seq<int>
    decreases |es|
  {
    if es == [] then []
    else
      var e := es[0];
      (if e.Read? then [e.v] else if e.PutFailed? then [e.payload] else []) + ReadValues(es[1..])
  }

  /** The loop after connecting: negatives are dropped, payloads are put. */
  function Loop(es: seq<Event>): (r: Outcome)
    ensures r.consumed <= |es|
    decreases |es|
  {
    if es == [] then Outcome([], 0, StillRunning, false)
    else
      match es[0]
      case Disconnected => Outcome([], 1, ConnectionLost, true)
      case EndOfStream => Outcome([], 1, StreamEnded, true)
      case ReadFailed => Outcome([], 1, ReadError, true)
      case PutFailed(_) => Outcome([], 1, PutError, true)
      case Read(v) => Continue(v, es)
  }

  /** Handles a read value that does not end the loop and goes on. */
  function Continue(v: int, es: seq<Event>): (r: Outcome)
    requires es != []
    ensures r.consumed <= |es|
    decreases |es|, 0
  {
    var rest := Loop(es[1..]);
    rest.(forwarded := (if v >= 0 then [v] else []) + rest.forwarded, consumed := rest.consumed + 1)
  }

  /**
   * The whole call: connect, wait at the start barrier, loop. Every path
   * out of the call passes the `finally` that closes the connection, the
   * failed connect included.
   */
  function Call(connectOk: bool, barrierOk: bool, es: seq<Event>): (r: Outcome)
    ensures !connectOk ==> r == Outcome([], 0, ConnectFailed, true)
    ensures connectOk && !barrierOk ==> r == Outcome([], 0, BarrierInterrupted, true)
    ensures connectOk && barrierOk ==> r == Loop(es)
  {
    if !connectOk then Outcome([], 0, ConnectFailed, true)
    else if !barrierOk then Outcome([], 0, BarrierInterrupted, true)
    else Loop(es)
  }

  lemma {:induction false} PayloadsPrepend(v: int, s: seq<int>)
    ensures P.Payloads([v] + s) == (if v >= 0 then [v] else []) + P.Payloads(s)
    decreases |s|
  {
    if s != [] {
      var init := s[..|s| - 1];
      var last := s[|s| - 1];
      assert s == init + [last];
      PayloadsPrepend(v, init);
      assert [v] + s == ([v] + init) + [last];
      P.PayloadsAppend([v] + init, last);
      P.PayloadsAppend(init, last);
    }
  }

  /**
   * The loop consumes events up to and including the first one that ends
   * it, or all of them if none does; it returns for the reason that event
   * gives, and it closes the connection exactly when it returns.
   */
  lemma {:induction false} LoopStopsAtFirstEnd(es: seq<Event>)
    ensures var r := Loop(es);
      && (r.reason == StillRunning <==> r.consumed == |es| && forall i :: 0 <= i < |es| ==> !Ends(es[i]))
      && (r.reason != StillRunning ==>
            r.consumed > 0 && Ends(es[r.consumed - 1]) && r.reason == EndReason(es[r.consumed - 1]))
      && (forall i :: 0 <= i < r.consumed - 1 ==> !Ends(es[i]))
      && (r.closed <==> r.reason != StillRunning)
    decreases |es|
  {
    if es != [] && !Ends(es[0]) {
      LoopStopsAtFirstEnd(es[1..]);
      var rest := Loop(es[1..]);
      assert Loop(es).consumed == rest.consumed + 1 && Loop(es).reason == rest.reason;
      forall i | 0 <= i < rest.consumed
        ensures !Ends(es[i])
      {
        if i > 0 {
          assert es[i] == es[1..][i - 1];
        }
      }
      if rest.reason != StillRunning {
        assert es[rest.consumed] == es[1..][rest.consumed - 1];
      }
    }
  }

  /** How many of the consumed events were reads: all but the one that
      ended the loop, if one did. */
  function ReadCount(r: Outcome): nat {
    if r.reason == StillRunning || r.consumed == 0 then r.consumed else r.consumed - 1
  }

  /**
   * The loop puts on the queue exactly the non-negative values read before
   * the event that ends it, unchanged and in arrival order.
   */
  lemma {:induction false} LoopForwardsPayloads(es: seq<Event>)
    ensures ReadCount(Loop(es)) <= |es|
    ensures Loop(es).forwarded == P.Payloads(ReadValues(es[..ReadCount(Loop(es))]))
    decreases |es|
  {
    if es != [] {
      var e := es[0];
      if !Ends(e) {
        var rest := Loop(es[1..]);
        var k := ReadCount(rest);
        LoopStopsAtFirstEnd(es[1..]);
        LoopForwardsPayloads(es[1..]);
        assert ReadCount(Loop(es)) == k + 1;
        var tail := es[1..][..k];
        assert es[..k + 1] == [e] + tail;
        assert ([e] + tail)[1..] == tail;
        assert ReadValues(es[..k + 1]) == [e.v] + ReadValues(tail);
        PayloadsPrepend(e.v, ReadValues(tail));
      } else {
        assert es[..0] == [];
      }
    }
  }

  /** Nothing negative is ever put on the queue, and nothing not read. */
  lemma CallForwardsOnlyPayloads(connectOk: bool, barrierOk: bool, es: seq<Event>)
    ensures forall x :: x in Call(connectOk, barrierOk, es).forwarded ==> x >= 0 && x in ReadValues(es)
  {
    if connectOk && barrierOk {
      var k := ReadCount(Loop(es));
      LoopForwardsPayloads(es);
      P.PayloadsMembers(ReadValues(es[..k]));
      ReadValuesPrefix(es, k);
    }
  }

  lemma {:induction false} ReadValuesPrefix(es: seq<Event>, k: nat)
    requires k <= |es|
    ensures forall x :: x in ReadValues(es[..k]) ==> x in ReadValues(es)
    decreases k
  {
    if k > 0 {
      assert es[..k][1..] == es[1..][..k - 1];
      ReadValuesPrefix(es[1..], k - 1);
    }
  }

  /** However the call ends, the connection is closed; only a loop that is
      still running holds it open. */
  lemma CallAlwaysCloses(connectOk: bool, barrierOk: bool, es: seq<Event>)
    ensures Call(connectOk, barrierOk, es).closed <==> Call(connectOk, barrierOk, es).reason != StillRunning
  {
    if connectOk && barrierOk {
      LoopStopsAtFirstEnd(es);
    }
  }
}
