/**
 * The worker that takes integers from a queue and appends them to a file,
 * one per line, telling the tracker about each value after writing it. The
 * file is an appended sequence; the timed poll is one `Tick` event per loop
 * iteration. Other threads may raise the exit flag or update the shared
 * tracker between iterations.
 */
module Saver {
  import W = AbstractWorker
  import A = AtomicDataController
  import DC = DataController
  import Traces

  /** `log` holds the lines written to the output file. */
  datatype Saver = Saver(worker: W.Worker, controller: DC.Controller, log: seq<int>)

  datatype Event = Tick(poll: W.PollResult) | ExitRequested | Update(u: A.Update)

  datatype Reason = Interrupted | Finished | StillRunning

  datatype Outcome = Outcome(state: Saver, consumed: nat, reason: Reason)

  /** A saver as constructed; its number is always 1. */
  function NewSaver(name: string, controller: DC.Controller): (s: Saver)
    ensures !s.worker.exited && s.worker.number == 1 && s.worker.name == name
    ensures s.log == [] && s.controller == controller
  {
    Saver(W.NewWorker(1, name), controller, [])
  }

  /**
   * One event. A polled value is appended to the log and then reported as
   * saved; an empty poll ends the loop only when the worker was asked to
   * exit and the tracker reports everything saved; an interrupted poll ends
   * it.
   */
  function Step(s: Saver, e: Event): (r: (Reason, Saver))
    ensures r.1.worker.number == s.worker.number && r.1.worker.name == s.worker.name
    ensures e.Tick? && e.poll.Got? ==>
      r == (StillRunning, s.(log := s.log + [e.poll.value], controller := DC.Saved(s.controller, e.poll.value)))
    ensures e.Tick? && e.poll.TimedOut? ==>
      && (r.0 == Finished || r.0 == StillRunning)
      && (r.0 == Finished <==> s.worker.exited && DC.AreAllSaved(s.controller))
      && r.1 == s
    ensures e.Tick? && e.poll.PollInterrupted? ==> r == (Interrupted, s)
    ensures !e.Tick? ==> r.0 == StillRunning && r.1.log == s.log
  {
    match e
    case ExitRequested => (StillRunning, s.(worker := W.ExitWork(s.worker)))
    case Update(u) => (StillRunning, s.(controller := DC.Apply(s.controller, u)))
    case Tick(poll) =>
      match poll
      case PollInterrupted => (Interrupted, s)
      case TimedOut =>
        if s.worker.exited && DC.AreAllSaved(s.controller) then (Finished, s) else (StillRunning, s)
      case Got(v) =>
        var written := s.(log := s.log + [v]);
        (StillRunning, written.(controller := DC.Saved(written.controller, v)))
  }

  /** Runs the loop over the events until a step ends it. */
  function Loop(s: Saver, es: seq<Event>): (r: Outcome)
    ensures r.consumed <= |es|
    ensures r.reason == StillRunning ==> r.consumed == |es|
    ensures r.reason != StillRunning ==> 0 < r.consumed
    decreases |es|
  {
    if es == [] then Outcome(s, 0, StillRunning)
    else
      var step := Step(s, es[0]);
      if step.0 != StillRunning then Outcome(step.1, 1, step.0)
      else
        var rest := Loop(step.1, es[1..]);
        rest.(consumed := rest.consumed + 1)
  }

  /** The values the queue handed out over a run of events. */
  function PolledValues(es: seq<Event>): seq<int>
    decreases |es|
  {
    if es == [] then []
    else (if es[0].Tick? && es[0].poll.Got? then [es[0].poll.value] else []) + PolledValues(es[1..])
  }

  /**
   * The tracker calls over a run of events, in order: the saver's own
   * `saved(v)` for each polled value, and the other threads' updates.
   */
  function Calls(es: seq<Event>): seq<A.Update>
    decreases |es|
  {
    if es == [] then []
    else
      var e := es[0];
      (if e.Tick? && e.poll.Got? then [A.SavedCall(e.poll.value)]
       else if e.Update? then [e.u]
       else [])
      + Calls(es[1..])
  }

  /**
   * Over the events the loop consumed, the log is extended by exactly the
   * polled values in order, and the tracker has seen exactly the saver's
   * `saved` calls interleaved with the other threads' updates.
   */
  lemma {:induction false} LoopSavesAll(s: Saver, es: seq<Event>)
    ensures var r := Loop(s, es);
      var pre := es[..r.consumed];
      && r.state.log == s.log + PolledValues(pre)
      && r.state.controller == DC.ApplyAll(s.controller, Calls(pre))
      && (r.reason == StillRunning ==> r.consumed == |es|)
  {
    LoopLogs(s, es);
    LoopCalls(s, es);
  }

  /** One step appends what that event polled to the log. */
  lemma StepLog(s: Saver, e: Event)
    ensures Step(s, e).1.log == s.log + PolledValues([e])
  {
    assert [e][1..] == [];
  }

  /** The values polled over a run starting with `e`. */
  lemma PolledCons(e: Event, tail: seq<Event>)
    ensures PolledValues([e] + tail) == PolledValues([e]) + PolledValues(tail)
  {
    assert ([e] + tail)[1..] == tail;
    assert [e][1..] == [];
  }

  /** The log grows by exactly the polled values, in order. */
  lemma {:induction false} LoopLogs(s: Saver, es: seq<Event>)
    ensures Loop(s, es).state.log == s.log + PolledValues(es[..Loop(s, es).consumed])
    decreases |es|
  {
    if es != [] {
      var step := Step(s, es[0]);
      var r := Loop(s, es);
      StepLog(s, es[0]);
      if step.0 != StillRunning {
        assert es[..1] == [es[0]];
      } else {
        LoopLogs(step.1, es[1..]);
        Traces.PrefixCons(es, r.consumed);
        var tail := es[1..][..r.consumed - 1];
        PolledCons(es[0], tail);
      }
    }
  }

  /** One step hands the tracker what that event calls on it. */
  lemma StepCalls(s: Saver, e: Event)
    ensures Step(s, e).1.controller == DC.ApplyAll(s.controller, Calls([e]))
  {
    assert [e][1..] == [];
    if e.Tick? && e.poll.Got? {
      assert DC.ApplyAll(s.controller, Calls([e])) == DC.Saved(s.controller, e.poll.value);
    } else if e.Update? {
      assert DC.ApplyAll(s.controller, Calls([e])) == DC.Apply(s.controller, e.u);
    }
  }

  /** The calls over a run starting with `e`. */
  lemma CallsCons(e: Event, tail: seq<Event>)
    ensures Calls([e] + tail) == Calls([e]) + Calls(tail)
  {
    assert ([e] + tail)[1..] == tail;
    assert [e][1..] == [];
  }

  /** The tracker sees the saver's own calls interleaved with the others'. */
  lemma {:induction false} LoopCalls(s: Saver, es: seq<Event>)
    ensures Loop(s, es).state.controller == DC.ApplyAll(s.controller, Calls(es[..Loop(s, es).consumed]))
    decreases |es|
  {
    if es != [] {
      var step := Step(s, es[0]);
      var r := Loop(s, es);
      StepCalls(s, es[0]);
      if step.0 != StillRunning {
        assert es[..1] == [es[0]];
      } else {
        LoopCalls(step.1, es[1..]);
        Traces.PrefixCons(es, r.consumed);
        var tail := es[1..][..r.consumed - 1];
        CallsCons(es[0], tail);
        DC.ApplyAllAppend(s.controller, Calls([es[0]]), Calls(tail));
      }
    }
  }

  /**
   * With the Initiator's real tracker and no other thread reporting saves,
   * `lastSaved` ends at the maximum of its start value and every logged
   * value: at least each of them, and equal to one of them.
   */
  lemma SavedMarkIsMaxOfLog(m: A.Marks, s: Saver, es: seq<Event>)
    requires s.controller == DC.Atomic(m) && s.log == []
    requires forall i :: 0 <= i < |es| && es[i].Update? ==> es[i].u.ProducedCall?
    ensures var r := Loop(s, es);
      && r.state.controller.Atomic?
      && r.state.controller.marks.lastSaved >= m.lastSaved
      && (forall i :: 0 <= i < |r.state.log| ==> r.state.controller.marks.lastSaved >= r.state.log[i])
      && (r.state.controller.marks.lastSaved == m.lastSaved || r.state.controller.marks.lastSaved in r.state.log)
  {
    var r := Loop(s, es);
    var pre := es[..r.consumed];
    LoopSavesAll(s, es);
    DC.ApplyAllAtomic(m, Calls(pre));
    A.ApplyAllIsMax(m, Calls(pre));
    A.MaxSavedIsMaximum(m.lastSaved, Calls(pre));
    SavedCallsAreLogged(pre, es, r.consumed);
    var log := r.state.log;
    assert log == PolledValues(pre);
    forall i | 0 <= i < |log|
      ensures r.state.controller.marks.lastSaved >= log[i]
    {
      assert log[i] in PolledValues(pre);
      var j :| 0 <= j < |Calls(pre)| && Calls(pre)[j] == A.SavedCall(log[i]);
    }
  }

  /** Under that assumption, the saved calls are exactly the polled values. */
  lemma {:induction false} SavedCallsAreLogged(pre: seq<Event>, es: seq<Event>, k: nat)
    requires k <= |es| && pre == es[..k]
    requires forall i :: 0 <= i < |es| && es[i].Update? ==> es[i].u.ProducedCall?
    ensures forall i :: 0 <= i < |Calls(pre)| && Calls(pre)[i].SavedCall? ==> Calls(pre)[i].s in PolledValues(pre)
    ensures forall x :: x in PolledValues(pre) ==> exists i :: 0 <= i < |Calls(pre)| && Calls(pre)[i] == A.SavedCall(x)
    decreases k
  {
    if k > 0 {
      Traces.PrefixCons(es, k);
      var tail := es[1..][..k - 1];
      SavedCallsAreLogged(tail, es[1..], k - 1);
      assert pre[1..] == tail;
      var head := Calls([es[0]]);
      CallsCons(es[0], tail);
      PolledCons(es[0], tail);
      forall x | x in PolledValues(pre)
        ensures exists i :: 0 <= i < |Calls(pre)| && Calls(pre)[i] == A.SavedCall(x)
      {
        if x in PolledValues(tail) {
          var j :| 0 <= j < |Calls(tail)| && Calls(tail)[j] == A.SavedCall(x);
          assert Calls(pre)[|head| + j] == A.SavedCall(x);
        } else {
          assert Calls(pre)[0] == A.SavedCall(x);
        }
      }
    }
  }
}
