/** Shutting the pipeline down: the reducer loop comes to an end, and what the workers handed on is
    what the relays sent. */
module Shutdown {
  import opened Sequences
  import opened Events
  import opened Tables
  import opened ReducerRuns
  import opened Pipeline

  // ---------- the stop event ----------

  predicate SetsStop(step: Step) { step.Stop? || step.GiveUp? }

  predicate StopSet(steps: seq<Step>) { exists i :: 0 <= i < |steps| && SetsStop(steps[i]) }

  lemma {:induction false} StopStep(c: Config, s: State, step: Step)
    requires |s.workers| == |s.received| && Enabled(c, s, step)
    ensures Apply(c, s, step).stop <==> s.stop || SetsStop(step)
  {
  }

  lemma {:induction false} StopSetLast(steps: seq<Step>)
    requires |steps| > 0
    ensures StopSet(steps) <==> StopSet(steps[..|steps| - 1]) || SetsStop(steps[|steps| - 1])
  {
    var front := steps[..|steps| - 1];
    if StopSet(front) {
      var i :| 0 <= i < |front| && SetsStop(front[i]);
      assert SetsStop(steps[i]);
    }
  }

  /** The stop event is set exactly if somebody set it or a worker gave up. */
  lemma {:induction false} StopIsSet(c: Config, steps: seq<Step>)
    requires Pipeline.Run(c, steps).Some?
    ensures Pipeline.Run(c, steps).value.stop <==> StopSet(steps)
  {
    if |steps| > 0 {
      StopIsSet(c, steps[..|steps| - 1]);
      StopSetLast(steps);
      StopStep(c, Pipeline.Run(c, steps[..|steps| - 1]).value, steps[|steps| - 1]);
    }
  }

  /** Until then no worker leaves unless it is cancelled. */
  lemma {:induction false} WorkersStay(c: Config, steps: seq<Step>, w: nat)
    requires Pipeline.Run(c, steps).Some? && w < |Pipeline.Run(c, steps).value.workers|
    requires !StopSet(steps) && forall i :: 0 <= i < |steps| ==> !steps[i].Cancel?
    ensures !Pipeline.Run(c, steps).value.workers[w].Gone?
  {
    if |steps| > 0 {
      var front, last := steps[..|steps| - 1], steps[|steps| - 1];
      assert forall i :: 0 <= i < |front| ==> front[i] == steps[i];
      StopSetLast(steps);
      StopIsSet(c, front);
      WorkerStays(c, Pipeline.Run(c, front).value, last, w);
      if w < |Pipeline.Run(c, front).value.workers| { WorkersStay(c, front, w); }
    }
  }

  lemma {:induction false} WorkerStays(c: Config, s: State, step: Step, w: nat)
    requires |s.workers| == |s.received| && Enabled(c, s, step) && !s.stop && !SetsStop(step) && !step.Cancel?
    ensures |Apply(c, s, step).workers| == |s.workers|
    ensures w < |s.workers| && Apply(c, s, step).workers[w].Gone? ==> s.workers[w].Gone?
  {
  }

  // ---------- what the workers receive ----------

  /** What a worker got from its relay: the ingestible events, each stamped with the relay's name and
      the time it came. */
  function ReceivedBy(c: Config, steps: seq<Step>, w: nat): seq<Envelope>
    requires w < |c.relays|
  {
    if |steps| == 0 then []
    else ReceivedBy(c, steps[..|steps| - 1], w) + Received(c, steps[|steps| - 1], w)
  }

  function Received(c: Config, step: Step, w: nat): seq<Envelope>
    requires w < |c.relays|
  {
    if step.Receive? && step.worker == w && IsIngestible(step.event)
    then [Envelope(c.relays[w], step.now, step.event)] else []
  }

  lemma {:induction false} ReceivedStep(c: Config, s: State, step: Step, w: nat)
    requires |s.workers| == |s.received| == |c.relays| && Enabled(c, s, step) && w < |c.relays|
    ensures |Apply(c, s, step).received| == |c.relays|
    ensures Apply(c, s, step).received[w] == s.received[w] + Received(c, step, w)
  {
  }

  lemma {:induction false} ReceivedAsSent(c: Config, steps: seq<Step>, w: nat)
    requires Pipeline.Run(c, steps).Some? && w < |c.relays|
    ensures |Pipeline.Run(c, steps).value.received| == |c.relays|
    ensures Pipeline.Run(c, steps).value.received[w] == ReceivedBy(c, steps, w)
  {
    if |steps| > 0 {
      ReceivedAsSent(c, steps[..|steps| - 1], w);
      ReceivedStep(c, Pipeline.Run(c, steps[..|steps| - 1]).value, steps[|steps| - 1], w);
    }
  }

  /** So what a worker put on the queue is a prefix of that, and the reducer gets it in that order. */
  lemma {:induction false} PutAsSent(c: Config, steps: seq<Step>, w: nat)
    requires IsSound(c.tables) && Pipeline.Run(c, steps).Some? && w < |c.relays|
    ensures By(Pipeline.Run(c, steps).value.put, w) <= ReceivedBy(c, steps, w)
  {
    ReceivedAsSent(c, steps, w);
    PipelineConserves(c, steps);
  }

  // ---------- the queue fills up ----------

  /** Envelopes that only arrive and are put. */
  function Arrivals(e: Event, n: nat): seq<Step> {
    if n == 0 then [] else Arrivals(e, n - 1) + [Receive(0, e, 0)] + [Put(0)]
  }

  predicate IsFilled(c: Config, s: State, n: nat) {
    && |s.workers| == |s.received| == |c.relays| > 0 && s.workers[0].Listening? && |s.queue| == n
  }

  ghost predicate Fills(c: Config, steps: seq<Step>, n: nat) {
    Pipeline.Run(c, steps).Some? && IsFilled(c, Pipeline.Run(c, steps).value, n)
  }

  lemma {:induction false} OneArrival(c: Config, steps: seq<Step>, e: Event, n: nat)
    requires Fills(c, steps, n) && IsIngestible(e) && (c.maxsize > 0 ==> n < c.maxsize)
    ensures Fills(c, steps + [Receive(0, e, 0)] + [Put(0)], n + 1)
  {
    RunStep(c, steps, Receive(0, e, 0));
    RunStep(c, steps + [Receive(0, e, 0)], Put(0));
  }

  lemma {:induction false} NoArrival(c: Config)
    requires |c.relays| > 0
    ensures Fills(c, [], 0)
  {
  }

  /** A bounded queue can be filled to its bound, an unbounded one beyond any. */
  lemma {:induction false} QueueFills(c: Config, e: Event, n: nat)
    requires |c.relays| > 0 && IsIngestible(e) && (c.maxsize > 0 ==> n <= c.maxsize)
    ensures Fills(c, Arrivals(e, n), n)
  {
    if n == 0 {
      NoArrival(c);
    } else {
      QueueFills(c, e, n - 1);
      OneArrival(c, Arrivals(e, n - 1), e, n - 1);
    }
  }

  // ---------- the loop comes to an end ----------

  predicate IsOver(s: State) { s.loop.Exited? || s.loop.Crashed? }

  /** No worker can put anything any more and the stop event is set. */
  predicate IsStopping(s: State) { s.stop && forall w :: 0 <= w < |s.workers| ==> s.workers[w].Gone? }

  predicate IsLoopStep(step: Step) { step.Test? || step.Timeout? || step.Take? || step.Finish? }

  function LoopSteps(steps: seq<Step>): nat {
    if |steps| == 0 then 0
    else LoopSteps(steps[..|steps| - 1]) + if IsLoopStep(steps[|steps| - 1]) then 1 else 0
  }

  /** Time-outs of the queue although something is in it. */
  function EarlyTimeouts(c: Config, before: seq<Step>, steps: seq<Step>): nat {
    if |steps| == 0 then 0
    else
      var front := steps[..|steps| - 1];
      var s := Pipeline.Run(c, before + front);
      EarlyTimeouts(c, before, front)
      + if steps[|steps| - 1].Timeout? && s.Some? && |s.value.queue| > 0 then 1 else 0
  }

  /** How many steps of the loop are left at most. */
  function StepsLeft(s: State): nat {
    match s.loop
    case Testing => 3 * |s.queue| + 1
    case Waiting => if |s.queue| > 0 then 3 * |s.queue| else 2
    case Working(_) => 3 * |s.queue| + 2
    case Exited => 0
    case Crashed(_) => 0
  }

  function Early(s: State, step: Step): nat { if step.Timeout? && |s.queue| > 0 then 1 else 0 }

  lemma {:induction false} StepToEnd(c: Config, s: State, step: Step)
    requires |s.workers| == |s.received| && IsStopping(s) && Enabled(c, s, step)
    ensures IsStopping(Apply(c, s, step))
    ensures StepsLeft(Apply(c, s, step)) + (if IsLoopStep(step) then 1 else 0) <= StepsLeft(s) + 2 * Early(s, step)
  {
  }

  lemma {:induction false} LastOf(c: Config, before: seq<Step>, steps: seq<Step>)
    requires |steps| > 0 && Pipeline.Run(c, before + steps).Some?
    ensures Pipeline.Run(c, before + steps[..|steps| - 1]).Some?
    ensures var s := Pipeline.Run(c, before + steps[..|steps| - 1]).value;
            && Enabled(c, s, steps[|steps| - 1])
            && Pipeline.Run(c, before + steps).value == Apply(c, s, steps[|steps| - 1])
  {
    assert (before + steps)[..|before + steps| - 1] == before + steps[..|steps| - 1];
  }

  lemma {:induction false} StepsRunOut(c: Config, before: seq<Step>, steps: seq<Step>)
    requires Pipeline.Run(c, before + steps).Some? && Pipeline.Run(c, before).Some?
    requires IsStopping(Pipeline.Run(c, before).value)
    ensures IsStopping(Pipeline.Run(c, before + steps).value)
    ensures StepsLeft(Pipeline.Run(c, before + steps).value) + LoopSteps(steps)
         <= StepsLeft(Pipeline.Run(c, before).value) + 2 * EarlyTimeouts(c, before, steps)
    decreases |steps|
  {
    if |steps| == 0 {
      assert before + steps == before;
    } else {
      LastOf(c, before, steps);
      StepsRunOut(c, before, steps[..|steps| - 1]);
      StepToEnd(c, Pipeline.Run(c, before + steps[..|steps| - 1]).value, steps[|steps| - 1]);
    }
  }

  /** Until it is over the loop can always make a step. */
  lemma {:induction false} NeverStuck(c: Config, s: State)
    requires |s.workers| == |s.received| && !IsOver(s)
    ensures exists step :: IsLoopStep(step) && Enabled(c, s, step)
  {
    var step := if s.loop.Testing? then Test else if s.loop.Waiting? then Timeout else Finish;
    assert IsLoopStep(step) && Enabled(c, s, step);
  }

  predicate IsDrained(s: State) { s.queue == [] && s.reduced == s.put }

  lemma {:induction false} NothingPut(c: Config, s: State, step: Step)
    requires |s.workers| == |s.received| && IsStopping(s) && Enabled(c, s, step)
    requires s.loop.Exited? ==> s.exitedAt == |s.put|
    ensures Apply(c, s, step).put == s.put
    ensures Apply(c, s, step).loop.Exited? ==> Apply(c, s, step).exitedAt == |s.put|
  {
  }

  lemma {:induction false} NothingPutAnyMore(c: Config, before: seq<Step>, steps: seq<Step>)
    requires Pipeline.Run(c, before + steps).Some? && Pipeline.Run(c, before).Some?
    requires IsStopping(Pipeline.Run(c, before).value) && !Pipeline.Run(c, before).value.loop.Exited?
    ensures Pipeline.Run(c, before + steps).value.put == Pipeline.Run(c, before).value.put
    ensures var s := Pipeline.Run(c, before + steps).value;
            s.loop.Exited? ==> s.exitedAt == |s.put|
    decreases |steps|
  {
    if |steps| == 0 {
      assert before + steps == before;
    } else {
      LastOf(c, before, steps);
      NothingPutAnyMore(c, before, steps[..|steps| - 1]);
      StepsRunOut(c, before, steps[..|steps| - 1]);
      NothingPut(c, Pipeline.Run(c, before + steps[..|steps| - 1]).value, steps[|steps| - 1]);
    }
  }

  /** How the loop can end: everything put has been reduced, or the envelope in hand raises on the
      tables that the ones before it left. */
  ghost predicate EndsWell(c: Config, s: State) {
    if s.loop.Exited? then IsDrained(s)
    else
      && s.loop.Crashed?
      && Raises(ReducerRuns.Run(c.tables, Envelopes(s.reduced)), s.loop.item.env.event)
  }

  lemma {:induction false} OverEndsWell(c: Config, before: seq<Step>, steps: seq<Step>)
    requires IsSound(c.tables) && Pipeline.Run(c, before + steps).Some? && Pipeline.Run(c, before).Some?
    requires IsStopping(Pipeline.Run(c, before).value) && !IsOver(Pipeline.Run(c, before).value)
    requires IsOver(Pipeline.Run(c, before + steps).value)
    ensures EndsWell(c, Pipeline.Run(c, before + steps).value)
  {
    var s := Pipeline.Run(c, before + steps).value;
    NothingPutAnyMore(c, before, steps);
    RunKeepsInv(c, before + steps);
    if s.loop.Exited? {
      assert s.put[..|s.put|] == s.put;
      assert |s.put| == |s.reduced| + |s.queue|;
    }
  }

  /** Once the workers are gone and the stop event is set the loop ends, whatever else happens: after
      three steps for each envelope queued and two more, and two for each early time-out, it has
      drained the queue, or died of an envelope that raises. */
  lemma {:induction false} LoopEnds(c: Config, before: seq<Step>, steps: seq<Step>)
    requires IsSound(c.tables) && Pipeline.Run(c, before + steps).Some? && Pipeline.Run(c, before).Some?
    requires IsStopping(Pipeline.Run(c, before).value) && !IsOver(Pipeline.Run(c, before).value)
    requires LoopSteps(steps)
          >= 3 * |Pipeline.Run(c, before).value.queue| + 2 + 2 * EarlyTimeouts(c, before, steps)
    ensures EndsWell(c, Pipeline.Run(c, before + steps).value)
  {
    StepsRunOut(c, before, steps);
    OverEndsWell(c, before, steps);
  }

  // ---------- stop() ----------

  /** stop() cancels every worker; the event is set before it. */
  function CancelAll(n: nat): seq<Step> { if n == 0 then [] else CancelAll(n - 1) + [Cancel(n - 1)] }

  /** The first n workers are gone and else nothing has changed. */
  predicate HasCancelled(s: State, t: State, n: nat) {
    && |t.workers| == |s.workers| && (forall w :: 0 <= w < n <= |s.workers| ==> t.workers[w].Gone?)
    && t.stop == s.stop && t.loop == s.loop && t.queue == s.queue
  }

  lemma {:induction false} CancelsOne(c: Config, steps: seq<Step>, s: State, n: nat)
    requires Pipeline.Run(c, steps).Some? && HasCancelled(s, Pipeline.Run(c, steps).value, n) && n < |s.workers|
    ensures Pipeline.Run(c, steps + [Cancel(n)]).Some?
    ensures HasCancelled(s, Pipeline.Run(c, steps + [Cancel(n)]).value, n + 1)
  {
    RunStep(c, steps, Cancel(n));
  }

  lemma {:induction false} CancelsWorkers(c: Config, before: seq<Step>, n: nat)
    requires Pipeline.Run(c, before).Some? && n <= |Pipeline.Run(c, before).value.workers|
    ensures Pipeline.Run(c, before + CancelAll(n)).Some?
    ensures HasCancelled(Pipeline.Run(c, before).value, Pipeline.Run(c, before + CancelAll(n)).value, n)
  {
    if n == 0 {
      assert before + CancelAll(0) == before;
    } else {
      CancelsWorkers(c, before, n - 1);
      CancelsOne(c, before + CancelAll(n - 1), Pipeline.Run(c, before).value, n - 1);
      Associates(before, CancelAll(n - 1), [Cancel(n - 1)]);
    }
  }

  /** So stop() leads there from any state with the stop event set. */
  lemma {:induction false} StopCancelsAll(c: Config, before: seq<Step>)
    requires Pipeline.Run(c, before).Some? && Pipeline.Run(c, before).value.stop
    ensures var n := |Pipeline.Run(c, before).value.workers|;
            && Pipeline.Run(c, before + CancelAll(n)).Some?
            && IsStopping(Pipeline.Run(c, before + CancelAll(n)).value)
            && Pipeline.Run(c, before + CancelAll(n)).value.queue == Pipeline.Run(c, before).value.queue
  {
    CancelsWorkers(c, before, |Pipeline.Run(c, before).value.workers|);
  }
}
