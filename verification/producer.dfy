/**
 * The Initiator's generator thread. It emits in-band START/STOP signs when
 * generation is switched on or off, an EXIT sign when asked to finish, and
 * while started appends each freshly generated value both to the outgoing
 * queue and to its log file. The lock and condition are linearised: each
 * public call and each loop iteration is one atomic step, and the condition
 * wait is the `Waiting` outcome of a step.
 */
module Producer {
  import P = ProtocolConstants
  import W = AbstractWorker
  import A = AtomicDataController
  import G = DataGenerator

  /**
   * `output` is the queue towards the Sender, `log` the lines of the output
   * file, `marks` the generator it shares with the Saver; `ended` says the
   * producer's own thread has left its loop on an interrupt.
   */
  datatype Producer = Producer(worker: W.Worker, started: bool, output: seq<int>, log: seq<int>, marks: A.Marks, ended: bool)

  function StartValue(): int { P.Encode(P.StartSign) }
  function StopValue(): int { P.Encode(P.StopSign) }
  function ExitValue(): int { P.Encode(P.ExitSign) }

  /** A new producer: stopped, not exited, nothing sent or logged. */
  function NewProducer(marks: A.Marks): (p: Producer)
    ensures !p.started && !p.worker.exited && !p.ended
    ensures p.worker.number == 1 && p.worker.name == "initiator.Producer"
    ensures p.output == [] && p.log == [] && p.marks == marks
  {
    Producer(W.NewWorker(1, "initiator.Producer"), false, [], [], marks, false)
  }

  /** Sets the mode and wakes the loop; the wake-up is implicit here. */
  function SetStarted(p: Producer, newStarted: bool): (r: Producer)
    ensures r.started == newStarted
    ensures r.worker == p.worker && r.output == p.output && r.log == p.log && r.marks == p.marks && r.ended == p.ended
  {
    p.(started := newStarted)
  }

  /**
   * Emits START only when generation was off, then switches it on. When
   * that `put` is interrupted the exception leaves the call before the mode
   * is set, so nothing changes; `interrupted` says whether the blocking
   * `put`, if made, is interrupted.
   */
  function StartWork(p: Producer, interrupted: bool): (r: Producer)
    ensures !p.started && interrupted ==> r == p
    ensures !(!p.started && interrupted) ==> r.started
    ensures !p.started && !interrupted ==> r.output == p.output + [StartValue()]
    ensures p.started ==> r.output == p.output
    ensures r.worker == p.worker && r.log == p.log && r.marks == p.marks && r.ended == p.ended
  {
    if !p.started && interrupted then p
    else
      var q := if !p.started then p.(output := p.output + [StartValue()]) else p;
      SetStarted(q, true)
  }

  /** Emits STOP only when generation was on, then switches it off; an
      interrupted `put` of STOP leaves everything as it was. */
  function StopWork(p: Producer, interrupted: bool): (r: Producer)
    ensures p.started && interrupted ==> r == p
    ensures !(p.started && interrupted) ==> !r.started
    ensures p.started && !interrupted ==> r.output == p.output + [StopValue()]
    ensures !p.started ==> r.output == p.output
    ensures r.worker == p.worker && r.log == p.log && r.marks == p.marks && r.ended == p.ended
  {
    if p.started && interrupted then p
    else
      var q := if p.started then p.(output := p.output + [StopValue()]) else p;
      SetStarted(q, false)
  }

  /**
   * Emits EXIT whatever the mode, then raises the exit flag. An interrupted
   * `put` of EXIT is caught and the flag is raised all the same, so the
   * producer can be exited without EXIT having been sent.
   */
  function ExitWork(p: Producer, interrupted: bool): (r: Producer)
    ensures !interrupted ==> r.output == p.output + [ExitValue()]
    ensures interrupted ==> r.output == p.output
    ensures r.worker.exited && r.worker.number == p.worker.number && r.worker.name == p.worker.name
    ensures r.started == p.started && r.log == p.log && r.marks == p.marks && r.ended == p.ended
  {
    var q := if interrupted then p else p.(output := p.output + [ExitValue()]);
    q.(worker := W.ExitWork(p.worker))
  }

  datatype StepOutcome = Finished | Waiting | Generated(value: int) | Interrupted

  /**
   * One iteration of the main loop: finish when asked to, wait while
   * stopped, otherwise generate the next value and append it to the queue
   * and to the log. `interrupted` says whether this iteration's blocking
   * call (the condition wait, or the `put` of the new value) is interrupted:
   * the exception ends the thread, and on the `put` path the generator has
   * already counted the value that is then neither queued nor logged. A
   * thread that has ended does nothing more.
   */
  function Step(p: Producer, interrupted: bool): (r: (StepOutcome, Producer))
    ensures p.ended || p.worker.exited ==> r == (Finished, p)
    ensures !p.ended && !p.worker.exited && !p.started ==>
      r == if interrupted then (Interrupted, p.(ended := true)) else (Waiting, p)
    ensures !p.ended && !p.worker.exited && p.started && !interrupted ==>
      && r.0 == Generated(p.marks.lastProduced + 1)
      && r.1.output == p.output + [r.0.value] && r.1.log == p.log + [r.0.value]
      && r.1.marks.lastProduced == r.0.value && r.1.marks.lastSaved == p.marks.lastSaved
      && r.1.started && r.1.worker == p.worker && !r.1.ended
    ensures !p.ended && !p.worker.exited && p.started && interrupted ==>
      && r.0 == Interrupted && r.1.ended
      && r.1.output == p.output && r.1.log == p.log
      && r.1.marks.lastProduced == p.marks.lastProduced + 1 && r.1.marks.lastSaved == p.marks.lastSaved
      && r.1.started && r.1.worker == p.worker
  {
    if p.ended || p.worker.exited then (Finished, p)
    else if !p.started then
      if interrupted then (Interrupted, p.(ended := true)) else (Waiting, p)
    else
      var next := G.ProduceNext(p.marks);
      if interrupted then (Interrupted, p.(marks := next.1, ended := true))
      else (Generated(next.0), p.(output := p.output + [next.0], log := p.log + [next.0], marks := next.1))
  }

  /**
   * What can happen to the producer: a call from the console thread, an
   * iteration of its own loop, or the Saver marking a value as saved in the
   * shared generator.
   */
  datatype Command = Start(interrupted: bool) | Stop(interrupted: bool) | Exit(interrupted: bool) | Tick(interrupted: bool) | SavedElsewhere(v: int)

  function Apply(p: Producer, c: Command): Producer {
    match c
    case Start(i) => StartWork(p, i)
    case Stop(i) => StopWork(p, i)
    case Exit(i) => ExitWork(p, i)
    case Tick(i) => Step(p, i).1
    case SavedElsewhere(v) => p.(marks := A.Saved(p.marks, v))
  }

  function Run(p: Producer, cs: seq<Command>): Producer
    decreases |cs|
  {
    if cs == [] then p else Run(Apply(p, cs[0]), cs[1..])
  }

  /** The START and STOP signs of a stream, in order. */
  function Toggles(s: seq<int>): seq<int>
    decreases |s|
  {
    if s == [] then []
    else
      var last := s[|s| - 1];
      Toggles(s[..|s| - 1]) + (if last == StartValue() || last == StopValue() then [last] else [])
  }

  lemma TogglesAppend(s: seq<int>, x: int)
    ensures Toggles(s + [x]) == Toggles(s) + (if x == StartValue() || x == StopValue() then [x] else [])
  {
    assert (s + [x])[..|s|] == s;
  }

  /** The toggle due after `k` toggles: START after an even number. */
  function ToggleAt(k: nat): (x: int)
    ensures x == StartValue() || x == StopValue()
  {
    if k % 2 == 0 then StartValue() else StopValue()
  }

  /** After each toggle the other one is due. */
  lemma ToggleFlips(k: nat)
    ensures ToggleAt(k + 1) != ToggleAt(k)
  {
    if k % 2 == 0 {
      assert (k + 1) % 2 == 1;
    } else {
      assert (k + 1) % 2 == 0;
    }
  }

  /** START, STOP, START, STOP, ... */
  predicate Alternates(t: seq<int>) {
    forall i :: 0 <= i < |t| ==> t[i] == ToggleAt(i)
  }

  /** No payload follows an EXIT sign. */
  predicate NothingAfterExit(s: seq<int>) {
    forall i, j :: 0 <= i < j < |s| && s[i] == ExitValue() ==> s[j] < 0
  }

  /**
   * What holds of the producer at every point of any run from a fresh one:
   * the log is 0, 1, 2, ...; the payloads of the queue are the log; the
   * generator's mark is the last logged value while the thread runs, and at
   * most one past it once an interrupt has ended the thread; START and STOP alternate,
   * beginning with START, and an odd number of them means started; the exit
   * flag is up once EXIT has been emitted (an interrupted `exitWork` raises
   * it without EXIT), and no payload follows EXIT.
   */
  predicate Inv(p: Producer) {
    && p.log == seq(|p.log|, i => i)
    && P.Payloads(p.output) == p.log
    && (!p.ended ==> p.marks.lastProduced == |p.log| - 1)
    && (p.ended ==> |p.log| - 1 <= p.marks.lastProduced <= |p.log|)
    && Alternates(Toggles(p.output))
    && (p.started <==> ToggleAt(|Toggles(p.output)|) == StopValue())
    && (ExitValue() in p.output ==> p.worker.exited)
    && NothingAfterExit(p.output)
  }

  lemma InitialInv()
    ensures Inv(NewProducer(A.Initial()))
  {
  }

  /** Appending a sign leaves the payloads alone and puts no payload after
      an EXIT. */
  lemma SignAppended(s: seq<int>, x: int)
    requires x < 0 && NothingAfterExit(s)
    ensures P.Payloads(s + [x]) == P.Payloads(s)
    ensures NothingAfterExit(s + [x])
    ensures ExitValue() in s + [x] <==> ExitValue() in s || x == ExitValue()
  {
    P.PayloadsAppend(s, x);
  }

  /** Appending the toggle that is due keeps the toggles alternating. */
  lemma ToggleAppended(s: seq<int>, x: int)
    requires Alternates(Toggles(s)) && x == ToggleAt(|Toggles(s)|)
    ensures Toggles(s + [x]) == Toggles(s) + [x]
    ensures Alternates(Toggles(s + [x]))
    ensures ToggleAt(|Toggles(s + [x])|) != x
  {
    TogglesAppend(s, x);
    var t := Toggles(s);
    var t' := t + [x];
    ToggleFlips(|t|);
    forall i | 0 <= i < |t'|
      ensures t'[i] == ToggleAt(i)
    {
      if i < |t| {
        assert t'[i] == t[i];
      }
    }
  }

  lemma StartKeepsInv(p: Producer, interrupted: bool)
    requires Inv(p)
    ensures Inv(StartWork(p, interrupted))
  {
    if !p.started && !interrupted {
      SignAppended(p.output, StartValue());
      ToggleAppended(p.output, StartValue());
    }
  }

  lemma StopKeepsInv(p: Producer, interrupted: bool)
    requires Inv(p)
    ensures Inv(StopWork(p, interrupted))
  {
    if p.started && !interrupted {
      SignAppended(p.output, StopValue());
      ToggleAppended(p.output, StopValue());
    }
  }

  lemma ExitKeepsInv(p: Producer, interrupted: bool)
    requires Inv(p)
    ensures Inv(ExitWork(p, interrupted))
  {
    if !interrupted {
      TogglesAppend(p.output, ExitValue());
      SignAppended(p.output, ExitValue());
    }
  }

  /** An interrupted `exitWork` on a fresh producer stops it with no EXIT
      in its queue. */
  lemma InterruptedExitSendsNothing()
    ensures var p := ExitWork(NewProducer(A.Initial()), true);
      p.worker.exited && ExitValue() !in p.output
  {
  }

  /** Appending a payload to a stream without EXIT extends its payloads and
      changes nothing else the invariant looks at. */
  lemma PayloadAppended(s: seq<int>, v: int)
    requires v >= 0 && ExitValue() !in s
    ensures P.Payloads(s + [v]) == P.Payloads(s) + [v]
    ensures Toggles(s + [v]) == Toggles(s)
    ensures ExitValue() !in s + [v] && NothingAfterExit(s + [v])
  {
    TogglesAppend(s, v);
    P.PayloadsAppend(s, v);
  }

  /** The log extended by its own length is still 0, 1, 2, ... */
  lemma CountingAppended(log: seq<int>)
    requires log == seq(|log|, i => i)
    ensures log + [|log|] == seq(|log| + 1, i => i)
  {
  }

  lemma StepKeepsInv(p: Producer, interrupted: bool)
    requires Inv(p)
    ensures Inv(Step(p, interrupted).1)
  {
    if !p.ended && !p.worker.exited && p.started && !interrupted {
      PayloadAppended(p.output, |p.log|);
      CountingAppended(p.log);
    }
  }

  /** The Saver's marks only move `lastSaved`, which the invariant leaves free. */
  lemma ApplyKeepsInv(p: Producer, c: Command)
    requires Inv(p)
    ensures Inv(Apply(p, c))
  {
    match c
    case Start(i) => StartKeepsInv(p, i);
    case Stop(i) => StopKeepsInv(p, i);
    case Exit(i) => ExitKeepsInv(p, i);
    case Tick(i) => StepKeepsInv(p, i);
    case SavedElsewhere(v) =>
  }

  lemma {:induction false} RunKeepsInv(p: Producer, cs: seq<Command>)
    requires Inv(p)
    ensures Inv(Run(p, cs))
    decreases |cs|
  {
    if cs != [] {
      ApplyKeepsInv(p, cs[0]);
      RunKeepsInv(Apply(p, cs[0]), cs[1..]);
    }
  }

  /**
   * Whatever the console does and however the loop is scheduled, a fresh
   * producer's log is exactly 0, 1, ..., k-1, the payloads it queued are the
   * same values in the same order, and START/STOP alternate from START.
   */
  lemma ProducerRunInvariant(cs: seq<Command>)
    ensures var p := Run(NewProducer(A.Initial()), cs);
      && p.log == seq(|p.log|, i => i)
      && P.Payloads(p.output) == p.log
      && Alternates(Toggles(p.output))
      && (p.started <==> |Toggles(p.output)| % 2 == 1)
      && NothingAfterExit(p.output)
  {
    InitialInv();
    RunKeepsInv(NewProducer(A.Initial()), cs);
  }

  /** The log never holds a sign: every logged value is non-negative. */
  lemma LogHasNoSigns(cs: seq<Command>)
    ensures forall i :: 0 <= i < |Run(NewProducer(A.Initial()), cs).log| ==> Run(NewProducer(A.Initial()), cs).log[i] >= 0
  {
    ProducerRunInvariant(cs);
  }

  /**
   * An interrupted `put` of a generated value ends the thread with the
   * generator one past the log: the value counted as produced was never
   * queued, so with `lastSaved` at any logged value not everything counts
   * as saved, and the ended thread does nothing more.
   */
  lemma InterruptedPutLosesValue(p: Producer)
    requires Inv(p) && !p.ended && !p.worker.exited && p.started
    ensures var r := Step(p, true).1;
      && r.ended && r.log == p.log && r.output == p.output
      && r.marks.lastProduced == |r.log|
      && r.marks.lastProduced !in r.log
      && (forall v :: v in r.log ==> !A.AreAllSaved(r.marks.(lastSaved := v)))
      && Step(r, false) == (Finished, r)
  {
    var r := Step(p, true).1;
    forall v | v in r.log
      ensures !A.AreAllSaved(r.marks.(lastSaved := v))
    {
      assert v < |r.log|;
    }
  }

  /** Switching on twice emits one START; switching off twice emits one STOP. */
  lemma RepeatedTogglesEmitOnce(p: Producer)
    ensures StartWork(StartWork(p, false), false).output == StartWork(p, false).output
    ensures StopWork(StopWork(p, false), false).output == StopWork(p, false).output
  {
  }
}
