/**
 * The worker that takes integers from a queue and writes them to a
 * connection, signs included. The queue's timed poll, the connection check
 * and the write are abstract: each loop iteration is one `Tick` event that
 * says what they did. Other threads may raise the exit flag or update the
 * shared tracker between iterations.
 */
module Sender {
  import W = AbstractWorker
  import A = AtomicDataController
  import DC = DataController
  import Traces

  /** `polled` is what the worker took from the queue, `sent` what it wrote. */
  datatype Sender = Sender(worker: W.Worker, controller: DC.Controller, polled: seq<int>, sent: seq<int>)

  datatype Event =
    | Tick(connected: bool, poll: W.PollResult, sendOk: bool)
    | ExitRequested
    | Update(u: A.Update)

  /** Why the worker returned; `StillRunning` when it has not (yet). */
  datatype Reason =
    | ConnectFailed | BarrierInterrupted | ConnectionLost | Interrupted
    | SendError | Finished | StillRunning

  datatype Outcome = Outcome(state: Sender, consumed: nat, reason: Reason, closed: bool)

  /** A sender as constructed: nothing polled, nothing sent, not exited. */
  function NewSender(number: int, name: string, controller: DC.Controller): (s: Sender)
    ensures !s.worker.exited && s.worker.number == number && s.worker.name == name
    ensures s.polled == [] && s.sent == [] && s.controller == controller
  {
    Sender(W.NewWorker(number, name), controller, [], [])
  }

  /**
   * One event. A failed connection check ends the loop; an interrupted poll
   * ends it; an empty poll ends it only when the worker was asked to exit
   * and the tracker reports everything saved; a polled value is written as
   * it is, and a failed write ends the loop.
   */
  function Step(s: Sender, e: Event): (r: (Reason, Sender))
    ensures r.1.worker.number == s.worker.number && r.1.worker.name == s.worker.name
    ensures e.Tick? && e.connected && e.poll.TimedOut? ==>
      && (r.0 == Finished || r.0 == StillRunning)
      && (r.0 == Finished <==> s.worker.exited && DC.AreAllSaved(s.controller))
      && r.1 == s
    ensures e.Tick? && e.connected && e.poll.PollInterrupted? ==> r == (Interrupted, s)
    ensures e.Tick? && e.connected && e.poll.Got? ==>
      && r.1.polled == s.polled + [e.poll.value]
      && r.1.sent == (if e.sendOk then s.sent + [e.poll.value] else s.sent)
      && (r.0 == StillRunning <==> e.sendOk)
    ensures e.Tick? && !e.connected ==> r == (ConnectionLost, s)
    ensures e.Tick? ==> r.1.controller == s.controller && r.1.worker == s.worker
    ensures !e.Tick? ==> r.0 == StillRunning && r.1.polled == s.polled && r.1.sent == s.sent
  {
    match e
    case ExitRequested => (StillRunning, s.(worker := W.ExitWork(s.worker)))
    case Update(u) => (StillRunning, s.(controller := DC.Apply(s.controller, u)))
    case Tick(connected, poll, sendOk) =>
      if !connected then (ConnectionLost, s)
      else
        match poll
        case PollInterrupted => (Interrupted, s)
        case TimedOut =>
          if s.worker.exited && DC.AreAllSaved(s.controller) then (Finished, s) else (StillRunning, s)
        case Got(v) =>
          var s1 := s.(polled := s.polled + [v]);
          if sendOk then (StillRunning, s1.(sent := s1.sent + [v])) else (SendError, s1)
  }

  /** Runs the loop over the events until a step ends it. */
  function Loop(s: Sender, es: seq<Event>): (r: Outcome)
    ensures r.consumed <= |es|
    ensures r.reason == StillRunning ==> r.consumed == |es| && !r.closed
    ensures r.reason != StillRunning ==> 0 < r.consumed && r.closed
    decreases |es|
  {
    if es == [] then Outcome(s, 0, StillRunning, false)
    else
      var step := Step(s, es[0]);
      if step.0 != StillRunning then Outcome(step.1, 1, step.0, true)
      else
        var rest := Loop(step.1, es[1..]);
        rest.(consumed := rest.consumed + 1)
  }

  /** Connect, wait at the start barrier, loop; the connection is closed on
      every way out, the failed connect included. */
  function Call(s: Sender, connectOk: bool, barrierOk: bool, es: seq<Event>): (r: Outcome)
    ensures !connectOk ==> r == Outcome(s, 0, ConnectFailed, true)
    ensures connectOk && !barrierOk ==> r == Outcome(s, 0, BarrierInterrupted, true)
    ensures connectOk && barrierOk ==> r == Loop(s, es)
  {
    if !connectOk then Outcome(s, 0, ConnectFailed, true)
    else if !barrierOk then Outcome(s, 0, BarrierInterrupted, true)
    else Loop(s, es)
  }

  /** The values the queue handed out over a run of events. */
  function PolledValues(es: seq<Event>): seq<int>
    decreases |es|
  {
    if es == [] then []
    else
      var e := es[0];
      (if e.Tick? && e.connected && e.poll.Got? then [e.poll.value] else []) + PolledValues(es[1..])
  }

  /** The tracker updates other threads made over a run of events. */
  function Updates(es: seq<Event>): seq<A.Update>
    decreases |es|
  {
    if es == [] then [] else (if es[0].Update? then [es[0].u] else []) + Updates(es[1..])
  }

  /** One step that does not end the loop appends what it polled. */
  lemma StepPolled(s: Sender, e: Event)
    requires Step(s, e).0 == StillRunning
    ensures Step(s, e).1.polled == s.polled + PolledValues([e])
  {
    assert [e][1..] == [];
  }

  /** The values polled over a run starting with `e`. */
  lemma PolledCons(e: Event, tail: seq<Event>)
    ensures PolledValues([e] + tail) == PolledValues([e]) + PolledValues(tail)
  {
    assert ([e] + tail)[1..] == tail;
    assert [e][1..] == [];
  }

  /** The updates over a run starting with `e`. */
  lemma UpdatesCons(e: Event, tail: seq<Event>)
    ensures Updates([e] + tail) == Updates([e]) + Updates(tail)
  {
    assert ([e] + tail)[1..] == tail;
    assert [e][1..] == [];
  }

  /** Over the events the loop consumed, the worker polled exactly the
      values the queue handed out. */
  lemma {:induction false} LoopPolled(s: Sender, es: seq<Event>)
    ensures Loop(s, es).state.polled == s.polled + PolledValues(es[..Loop(s, es).consumed])
    decreases |es|
  {
    if es != [] {
      var step := Step(s, es[0]);
      var r := Loop(s, es);
      if step.0 != StillRunning {
        assert es[..1] == [es[0]];
        assert [es[0]][1..] == [];
      } else {
        StepPolled(s, es[0]);
        LoopPolled(step.1, es[1..]);
        Traces.PrefixCons(es, r.consumed);
        PolledCons(es[0], es[1..][..r.consumed - 1]);
      }
    }
  }

  /**
   * Over the events the loop consumed: the worker polled exactly the values
   * the queue handed out; it wrote every one of them unchanged and in order,
   * except the last when that write failed; the tracker is what the other
   * threads made of it (the worker never updates it); and the connection is
   * closed exactly when the loop returned.
   */
  lemma {:induction false} LoopForwardsAll(s: Sender, es: seq<Event>)
    requires s.sent == s.polled
    ensures var r := Loop(s, es);
      var pre := es[..r.consumed];
      && r.state.polled == s.polled + PolledValues(pre)
      && (r.reason != SendError ==> r.state.sent == r.state.polled)
      && (r.reason == SendError ==>
            |r.state.polled| == |r.state.sent| + 1 && r.state.sent == r.state.polled[..|r.state.sent|])
      && r.state.controller == DC.ApplyAll(s.controller, Updates(pre))
      && (r.closed <==> r.reason != StillRunning)
      && (r.reason == StillRunning ==> r.consumed == |es|)
  {
    LoopPolled(s, es);
    LoopSent(s, es);
    LoopUpdates(s, es);
  }

  /** Every polled value is written, except the last when its write failed. */
  lemma {:induction false} LoopSent(s: Sender, es: seq<Event>)
    requires s.sent == s.polled
    ensures var r := Loop(s, es);
      && (r.reason != SendError ==> r.state.sent == r.state.polled)
      && (r.reason == SendError ==>
            |r.state.polled| == |r.state.sent| + 1 && r.state.sent == r.state.polled[..|r.state.sent|])
    decreases |es|
  {
    if es != [] {
      var step := Step(s, es[0]);
      if step.0 == StillRunning {
        LoopSent(step.1, es[1..]);
      }
    }
  }

  /** The tracker changes only by the other threads' updates. */
  lemma {:induction false} LoopUpdates(s: Sender, es: seq<Event>)
    ensures Loop(s, es).state.controller == DC.ApplyAll(s.controller, Updates(es[..Loop(s, es).consumed]))
    decreases |es|
  {
    if es != [] {
      var step := Step(s, es[0]);
      var r := Loop(s, es);
      if step.0 != StillRunning {
        assert es[..1] == [es[0]];
        assert es[1..][..0] == [];
      } else {
        LoopUpdates(step.1, es[1..]);
        Traces.PrefixCons(es, r.consumed);
        var tail := es[1..][..r.consumed - 1];
        UpdatesCons(es[0], tail);
        assert [es[0]][1..] == [];
        DC.ApplyAllAppend(s.controller, Updates([es[0]]), Updates(tail));
      }
    }
  }
}
