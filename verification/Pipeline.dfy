/** Relay workers, the bounded queue, the stop event and the reducer loop, as interleaved steps. */
module Pipeline {
  import opened Text
  import opened Events
  import opened Tables
  import opened Reducer
  import opened ReducerRuns

  // ---------- the machine ----------

  /** A worker listens to its relay, waits for room in the queue with an envelope in hand, or is over. */
  datatype Worker = Listening | Holding(env: Envelope) | Gone

  /** The reducer loop: testing its condition, waiting on the queue, reducing, done, or dead of an
      exception with an envelope in hand. */
  datatype Loop = Testing | Waiting | Working(item: Item) | Exited | Crashed(item: Item)

  /** A queued envelope and, for the record, which worker put it. */
  datatype Item = Item(worker: nat, env: Envelope)

  /** `put`, `reduced` and `received` record what went through; `exitedAt` is how many envelopes
      had been put when the loop exited. */
  datatype State = State(
    workers: seq<Worker>, queue: seq<Item>, stop: bool, loop: Loop, db: Db,
    put: seq<Item>, reduced: seq<Item>, received: seq<seq<Envelope>>, exitedAt: nat)

  /** A queue of size zero or less has no bound. `tables` is the database found at the start. */
  datatype Config = Config(relays: seq<string>, maxsize: int, tables: Db) {
    predicate HasRoom(queue: seq<Item>) { maxsize <= 0 || |queue| < maxsize }
  }

  datatype Step =
    | Receive(worker: nat, event: Event, now: int)  // an event of our subscription arrived
    | Put(worker: nat)                              // the blocked put went through
    | Cancel(worker: nat)                           // stop() cancelled it, whatever it was doing
    | Leave(worker: nat)                            // the worker saw the stop event
    | GiveUp(worker: nat)                           // too many failures in a row: it sets the stop event
    | Stop                                          // somebody else set the stop event
    | Test                                          // the loop evaluated its condition
    | Timeout                                       // nothing came within the queue timeout
    | Take                                          // the loop got an envelope
    | Finish                                        // the reducer returned or raised

  function Hand(w: Worker): seq<Envelope> { if w.Holding? then [w.env] else [] }

  predicate Enabled(c: Config, s: State, step: Step) {
    match step
    case Receive(w, _, _) => w < |s.workers| && w < |c.relays| && s.workers[w].Listening?
    case Put(w) => w < |s.workers| && s.workers[w].Holding? && c.HasRoom(s.queue)
    case Cancel(w) => w < |s.workers|
    case Leave(w) => w < |s.workers| && s.workers[w].Listening? && s.stop
    case GiveUp(w) => w < |s.workers| && s.workers[w].Listening?
    case Stop => true
    case Test => s.loop.Testing?
    case Timeout => s.loop.Waiting?
    case Take => s.loop.Waiting? && |s.queue| > 0
    case Finish => s.loop.Working?
  }

  function Apply(c: Config, s: State, step: Step): State
    requires Enabled(c, s, step)
    requires |s.workers| == |s.received|
  {
    match step
    case Receive(w, e, now) =>
      if !IsIngestible(e) then s
      else
        var env := Envelope(c.relays[w], now, e);
        s.(workers := s.workers[w := Holding(env)], received := s.received[w := s.received[w] + [env]])
    case Put(w) =>
      var item := Item(w, s.workers[w].env);
      s.(workers := s.workers[w := Listening], queue := s.queue + [item], put := s.put + [item])
    case Cancel(w) => s.(workers := s.workers[w := Gone])
    case Leave(w) => s.(workers := s.workers[w := Gone])
    case GiveUp(w) => s.(workers := s.workers[w := Gone], stop := true)
    case Stop => s.(stop := true)
    case Test => if !s.stop || |s.queue| > 0 then s.(loop := Waiting) else s.(loop := Exited, exitedAt := |s.put|)
    case Timeout => s.(loop := Testing)
    case Take => s.(loop := Working(s.queue[0]), queue := s.queue[1..])
    case Finish =>
      var reduction := Reduce(s.db, s.loop.item.env);
      if reduction.outcome.Raised? then s.(loop := Crashed(s.loop.item), db := reduction.db)
      else s.(loop := Testing, db := reduction.db, reduced := s.reduced + [s.loop.item])
  }

  function Start(c: Config): State {
    var n := |c.relays|;
    State(seq(n, i => Listening), [], false, Testing, c.tables, [], [], seq(n, i => []), 0)
  }

  /** The state after the steps, or None when one of them was not possible. */
  function Run(c: Config, steps: seq<Step>): (r: Option<State>)
    ensures r.Some? ==> |r.value.workers| == |r.value.received|
  {
    if |steps| == 0 then Some(Start(c))
    else
      match Run(c, steps[..|steps| - 1])
      case None => None
      case Some(s) =>
        if Enabled(c, s, steps[|steps| - 1]) then Some(Apply(c, s, steps[|steps| - 1])) else None
  }

  // ---------- what every step keeps ----------

  function Envelopes(items: seq<Item>): (r: seq<Envelope>)
    ensures |r| == |items|
  {
    seq(|items|, i requires 0 <= i < |items| => items[i].env)
  }

  /** The envelopes one worker put, in order. */
  function By(items: seq<Item>, w: nat): seq<Envelope> {
    if |items| == 0 then []
    else By(items[..|items| - 1], w) + if items[|items| - 1].worker == w then [items[|items| - 1].env] else []
  }

  function InHand(loop: Loop): seq<Item> { if loop.Working? || loop.Crashed? then [loop.item] else [] }

  /** Nothing is lost or repeated between the queue and the reducer. */
  predicate Conserved(s: State) {
    s.put == s.reduced + InHand(s.loop) + s.queue
  }

  predicate Bounded(c: Config, s: State) { c.maxsize > 0 ==> |s.queue| <= c.maxsize }

  /** Each worker's envelopes entered the queue in the order received; only the one in hand, or
      the one a cancelled worker held, has not. */
  predicate InOrder(s: State) {
    && |s.workers| == |s.received|
    && forall w :: 0 <= w < |s.workers| ==>
         if s.workers[w].Gone? then By(s.put, w) <= s.received[w] && |s.received[w]| <= |By(s.put, w)| + 1
         else s.received[w] == By(s.put, w) + Hand(s.workers[w])
  }

  /** At its exit the loop had reduced everything put so far, and it reduces nothing afterwards. */
  predicate Drained(s: State) {
    s.loop.Exited? ==> s.exitedAt <= |s.put| && s.reduced == s.put[..s.exitedAt]
  }

  predicate OnlyIngestible(s: State) {
    && (forall i :: 0 <= i < |s.put| ==> IsIngestible(s.put[i].env.event))
    && (forall w :: 0 <= w < |s.workers| && s.workers[w].Holding? ==> IsIngestible(s.workers[w].env.event))
  }

  /** The k-th envelope put makes the reducer raise, in the state the earlier ones leave. */
  predicate Offends(c: Config, put: seq<Item>, k: nat)
    requires k < |put|
  {
    Raises(ReducerRuns.Run(c.tables, Envelopes(put[..k])), put[k].env.event)
  }

  /** The tables are those of a plain run over what was reduced, none of it raised, and the loop
      is dead exactly if the next envelope did. */
  ghost predicate Faithful(c: Config, s: State) {
    && (forall k :: 0 <= k < |s.reduced| ==> !Offends(c, s.reduced, k))
    && ReachedBy(c, s.db, s.reduced, s.loop)
  }

  ghost predicate ReachedBy(c: Config, db: Db, reduced: seq<Item>, loop: Loop) {
    var before := ReducerRuns.Run(c.tables, Envelopes(reduced));
    if loop.Crashed? then Raises(before, loop.item.env.event) && db == Reduce(before, loop.item.env).db
    else db == before
  }

  ghost predicate Inv(c: Config, s: State) {
    Conserved(s) && Bounded(c, s) && InOrder(s) && Drained(s) && OnlyIngestible(s) && Faithful(c, s)
  }

  lemma {:induction false} ByAppend(items: seq<Item>, item: Item, w: nat)
    ensures By(items + [item], w) == By(items, w) + if item.worker == w then [item.env] else []
  {
    assert (items + [item])[..|items + [item]| - 1] == items;
  }

  lemma {:induction false} ReceiveKeepsOrder(c: Config, s: State, w: nat, e: Event, now: int)
    requires InOrder(s) && OnlyIngestible(s) && Enabled(c, s, Receive(w, e, now))
    ensures InOrder(Apply(c, s, Receive(w, e, now))) && OnlyIngestible(Apply(c, s, Receive(w, e, now)))
  {
    assert By(s.put, w) + [] == By(s.put, w);
  }

  lemma {:induction false} ReceiveKeepsInv(c: Config, s: State, w: nat, e: Event, now: int)
    requires Inv(c, s) && Enabled(c, s, Receive(w, e, now))
    ensures Inv(c, Apply(c, s, Receive(w, e, now)))
  {
    ReceiveKeepsOrder(c, s, w, e, now);
    var s' := Apply(c, s, Receive(w, e, now));
    assert s'.put == s.put && s'.queue == s.queue && s'.loop == s.loop && s'.reduced == s.reduced && s'.db == s.db;
  }

  lemma {:induction false} PutKeepsOrder(c: Config, s: State, w: nat)
    requires InOrder(s) && Enabled(c, s, Put(w))
    ensures InOrder(Apply(c, s, Put(w)))
  {
    var item := Item(w, s.workers[w].env);
    forall v | 0 <= v < |s.workers|
      ensures By(s.put + [item], v) == By(s.put, v) + if v == w then [item.env] else []
    {
      ByAppend(s.put, item, v);
    }
  }

  lemma {:induction false} PutKeepsCounts(c: Config, s: State, w: nat)
    requires Conserved(s) && Bounded(c, s) && Drained(s)
    requires |s.workers| == |s.received| && Enabled(c, s, Put(w))
    ensures Conserved(Apply(c, s, Put(w))) && Bounded(c, Apply(c, s, Put(w))) && Drained(Apply(c, s, Put(w)))
  {
    var put := s.put + [Item(w, s.workers[w].env)];
    if s.loop.Exited? { assert put[..s.exitedAt] == s.put[..s.exitedAt]; }
    assert put == s.reduced + InHand(s.loop) + (s.queue + [Item(w, s.workers[w].env)]);
  }

  lemma {:induction false} PutKeepsFilter(c: Config, s: State, w: nat)
    requires OnlyIngestible(s) && |s.workers| == |s.received| && Enabled(c, s, Put(w))
    ensures OnlyIngestible(Apply(c, s, Put(w)))
  {
  }

  lemma {:induction false} PutKeepsInv(c: Config, s: State, w: nat)
    requires Inv(c, s) && Enabled(c, s, Put(w))
    ensures Inv(c, Apply(c, s, Put(w)))
  {
    PutKeepsOrder(c, s, w);
    PutKeepsCounts(c, s, w);
    PutKeepsFilter(c, s, w);
    assert Faithful(c, Apply(c, s, Put(w)));
  }

  lemma {:induction false} EnvelopesAppend(items: seq<Item>, item: Item)
    ensures Envelopes(items + [item]) == Envelopes(items) + [item.env]
  {
  }

  lemma {:induction false} RunAppend(db: Db, envs: seq<Envelope>, env: Envelope)
    ensures ReducerRuns.Run(db, envs + [env]) == Reduce(ReducerRuns.Run(db, envs), env).db
  {
    assert (envs + [env])[..|envs + [env]| - 1] == envs;
  }

  function Reduced(s: State): State
    requires s.loop.Working?
  {
    s.(loop := Testing, db := Reduce(s.db, s.loop.item.env).db, reduced := s.reduced + [s.loop.item])
  }

  function Died(s: State): State
    requires s.loop.Working?
  {
    s.(loop := Crashed(s.loop.item), db := Reduce(s.db, s.loop.item.env).db)
  }

  lemma {:induction false} OffendsBefore(c: Config, items: seq<Item>, more: seq<Item>, k: nat)
    requires k < |items| && items <= more
    ensures Offends(c, items, k) <==> Offends(c, more, k)
  {
    assert items[..k] == more[..k];
  }

  /** Reducing the envelope in hand ends the loop exactly if it raises. */
  lemma {:induction false} FinishOutcome(c: Config, s: State)
    requires IsSound(c.tables) && Faithful(c, s) && s.loop.Working?
    requires |s.workers| == |s.received| && Enabled(c, s, Finish)
    ensures Apply(c, s, Finish)
         == if Raises(ReducerRuns.Run(c.tables, Envelopes(s.reduced)), s.loop.item.env.event) then Died(s)
            else Reduced(s)
  {
    RunKeepsSound(c.tables, Envelopes(s.reduced));
    RaisesExactly(s.db, s.loop.item.env);
  }

  lemma {:induction false} ReducedIsFaithful(c: Config, s: State)
    requires Faithful(c, s) && s.loop.Working?
    requires !Raises(ReducerRuns.Run(c.tables, Envelopes(s.reduced)), s.loop.item.env.event)
    ensures Faithful(c, Reduced(s))
  {
    var item := s.loop.item;
    var after := s.reduced + [item];
    EnvelopesAppend(s.reduced, item);
    RunAppend(c.tables, Envelopes(s.reduced), item.env);
    forall k | 0 <= k < |after| ensures !Offends(c, after, k) {
      if k < |s.reduced| { OffendsBefore(c, s.reduced, after, k); } else { assert after[..k] == s.reduced; }
    }
  }

  lemma {:induction false} FinishKeepsInv(c: Config, s: State)
    requires IsSound(c.tables) && Inv(c, s) && Enabled(c, s, Finish)
    ensures Inv(c, Apply(c, s, Finish))
  {
    FinishOutcome(c, s);
    if !Raises(ReducerRuns.Run(c.tables, Envelopes(s.reduced)), s.loop.item.env.event) {
      ReducedIsFaithful(c, s);
      ReducedKeepsInv(c, s);
    } else {
      DiedKeepsInv(c, s);
    }
  }

  lemma {:induction false} ReducedKeepsInv(c: Config, s: State)
    requires Inv(c, s) && s.loop.Working? && Faithful(c, Reduced(s))
    ensures Inv(c, Reduced(s))
  {
    assert Conserved(Reduced(s));
  }

  lemma {:induction false} DiedKeepsInv(c: Config, s: State)
    requires Inv(c, s) && s.loop.Working?
    requires Raises(ReducerRuns.Run(c.tables, Envelopes(s.reduced)), s.loop.item.env.event)
    ensures Inv(c, Died(s))
  {
    assert InHand(Died(s).loop) == InHand(s.loop);
    assert Faithful(c, Died(s));
  }

  lemma {:induction false} EndKeepsInv(c: Config, s: State, w: nat)
    requires Inv(c, s) && w < |s.workers|
    ensures Inv(c, s.(workers := s.workers[w := Gone]))
  {
  }

  /** The steps that only move the loop between its two conditions keep everything. */
  lemma {:induction false} IdleKeepsInv(c: Config, s: State, loop: Loop)
    requires Inv(c, s) && (s.loop.Testing? || s.loop.Waiting?) && (loop.Testing? || loop.Waiting?)
    ensures Inv(c, s.(loop := loop))
  {
    var s' := s.(loop := loop);
    assert InHand(s'.loop) == InHand(s.loop);
    assert Conserved(s') && InOrder(s') && OnlyIngestible(s');
  }

  lemma {:induction false} ExitKeepsInv(c: Config, s: State)
    requires Inv(c, s) && s.loop.Testing? && |s.queue| == 0
    ensures Inv(c, s.(loop := Exited, exitedAt := |s.put|))
  {
    var s' := s.(loop := Exited, exitedAt := |s.put|);
    assert s.put[..|s.put|] == s.put == s.reduced;
    assert Conserved(s') && InOrder(s') && OnlyIngestible(s') && Drained(s');
  }

  function Taken(s: State): State
    requires |s.queue| > 0
  {
    s.(loop := Working(s.queue[0]), queue := s.queue[1..])
  }

  lemma {:induction false} TakeConserves(s: State)
    requires Conserved(s) && s.loop.Waiting? && |s.queue| > 0
    ensures Conserved(Taken(s))
  {
    var head, tail := s.queue[0], s.queue[1..];
    assert s.queue == [head] + tail;
    assert s.reduced + [] + s.queue == s.reduced + [head] + tail;
  }

  lemma {:induction false} TakeKeepsInv(c: Config, s: State)
    requires Inv(c, s) && s.loop.Waiting? && |s.queue| > 0
    ensures Inv(c, Taken(s))
  {
    TakeConserves(s);
    var s' := Taken(s);
    assert s'.put == s.put && s'.workers == s.workers && s'.received == s.received && s'.db == s.db
        && s'.reduced == s.reduced;
    assert InOrder(s');
    assert OnlyIngestible(s');
  }

  lemma {:induction false} StepKeepsInv(c: Config, s: State, step: Step)
    requires IsSound(c.tables) && Inv(c, s) && Enabled(c, s, step)
    ensures Inv(c, Apply(c, s, step))
  {
    match step
    case Receive(w, e, now) => ReceiveKeepsInv(c, s, w, e, now);
    case Put(w) => PutKeepsInv(c, s, w);
    case Cancel(w) => EndKeepsInv(c, s, w);
    case Leave(w) => EndKeepsInv(c, s, w);
    case GiveUp(w) => EndKeepsInv(c, s, w);
    case Stop =>
    case Test => if !s.stop || |s.queue| > 0 { IdleKeepsInv(c, s, Waiting); } else { ExitKeepsInv(c, s); }
    case Timeout => IdleKeepsInv(c, s, Testing);
    case Take => TakeKeepsInv(c, s);
    case Finish => FinishKeepsInv(c, s);
  }

  lemma {:induction false} StartInv(c: Config)
    ensures Inv(c, Start(c))
  {
    assert Envelopes([]) == [];
  }

  lemma {:induction false} RunKeepsInv(c: Config, steps: seq<Step>)
    requires IsSound(c.tables) && Run(c, steps).Some?
    ensures Inv(c, Run(c, steps).value)
  {
    if |steps| == 0 {
      StartInv(c);
    } else {
      RunKeepsInv(c, steps[..|steps| - 1]);
      StepKeepsInv(c, Run(c, steps[..|steps| - 1]).value, steps[|steps| - 1]);
    }
  }

  // ---------- main results ----------

  /** In every interleaving the envelopes put are those reduced, the one in hand and those queued,
      first in first out; a bounded queue keeps its bound, and each worker's envelopes stay in
      order. */
  lemma {:induction false} PipelineConserves(c: Config, steps: seq<Step>)
    requires IsSound(c.tables) && Run(c, steps).Some?
    ensures var s := Run(c, steps).value;
            && s.put == s.reduced + InHand(s.loop) + s.queue
            && (c.maxsize > 0 ==> |s.queue| <= c.maxsize)
            && forall w :: 0 <= w < |s.workers| ==> By(s.put, w) <= s.received[w]
  {
    RunKeepsInv(c, steps);
  }

  /** Graceful shutdown: when the reducer loop exits, every envelope put before that has been
      reduced exactly once, in order, on the tables found at the start; and if these agreed with
      their log they still do. */
  lemma {:induction false} ShutdownDrains(c: Config, steps: seq<Step>)
    requires IsSound(c.tables) && Run(c, steps).Some? && Run(c, steps).value.loop.Exited?
    ensures var s := Run(c, steps).value;
            && s.exitedAt <= |s.put| && s.reduced == s.put[..s.exitedAt]
            && s.db == ReducerRuns.Run(c.tables, Envelopes(s.put[..s.exitedAt]))
            && (ViewAgrees(c.tables) ==> ViewAgrees(s.db))
  {
    RunKeepsInv(c, steps);
    if ViewAgrees(c.tables) { RunKeepsViews(c.tables, Envelopes(Run(c, steps).value.reduced)); }
  }

  // ---------- when the loop dies ----------

  /** How many envelopes the loop has tried to reduce. */
  function Finishes(steps: seq<Step>): nat {
    if |steps| == 0 then 0
    else Finishes(steps[..|steps| - 1]) + if steps[|steps| - 1].Finish? then 1 else 0
  }

  function Tried(s: State): nat { |s.reduced| + if s.loop.Crashed? then 1 else 0 }

  lemma {:induction false} TriedStep(c: Config, s: State, step: Step)
    requires |s.workers| == |s.received| && Enabled(c, s, step)
    ensures Tried(Apply(c, s, step)) == Tried(s) + if step.Finish? then 1 else 0
  {
  }

  lemma {:induction false} FinishesTried(c: Config, steps: seq<Step>)
    requires Run(c, steps).Some?
    ensures Tried(Run(c, steps).value) == Finishes(steps)
  {
    if |steps| > 0 {
      FinishesTried(c, steps[..|steps| - 1]);
      TriedStep(c, Run(c, steps[..|steps| - 1]).value, steps[|steps| - 1]);
    }
  }

  /** The loop is dead of an exception exactly if one of the envelopes it has tried raises: one
      whose pubkey cannot be encoded, or one admitted whose row cannot be bound. Nothing after
      that one is reduced any more. */
  lemma {:induction false} LoopCrashesExactly(c: Config, steps: seq<Step>)
    requires IsSound(c.tables) && Run(c, steps).Some?
    ensures Finishes(steps) <= |Run(c, steps).value.put|
    ensures Run(c, steps).value.loop.Crashed? <==>
              exists k :: 0 <= k < Finishes(steps) && Offends(c, Run(c, steps).value.put, k)
  {
    var s := Run(c, steps).value;
    RunKeepsInv(c, steps);
    FinishesTried(c, steps);
    assert s.reduced <= s.put;
    forall k | 0 <= k < |s.reduced| ensures !Offends(c, s.put, k) { OffendsBefore(c, s.reduced, s.put, k); }
    if s.loop.Crashed? {
      assert s.put[..|s.reduced|] == s.reduced && s.put[|s.reduced|] == s.loop.item;
      assert Offends(c, s.put, |s.reduced|);
    }
  }

  // ---------- which events can kill the loop ----------

  /** An ingestible event that raises on the tables found at the start, or once another event of
      the set has given its design a row. */
  predicate CanRaise(c: Config, events: set<Event>, e: Event) {
    && IsIngestible(e)
    && (|| !IsSeen(e)
        || (!IsStorable(e)
            && (|| IsAdmittedAs(e, KeyOf(e) !in c.tables.designs)
                || (IsAdmittedAs(e, false) && exists f :: f in events && OpensAnew(c.tables, f, KeyOf(e))))))
  }

  predicate ReceivesOnly(steps: seq<Step>, events: set<Event>) {
    forall i :: 0 <= i < |steps| && steps[i].Receive? ==> steps[i].event in events
  }

  predicate Holds(w: Worker, events: set<Event>) { w.Holding? ==> w.env.event in events }

  predicate AllAmong(s: State, events: set<Event>) {
    && (forall i :: 0 <= i < |s.put| ==> s.put[i].env.event in events)
    && (forall w :: 0 <= w < |s.workers| ==> Holds(s.workers[w], events))
  }

  lemma {:induction false} StepAmong(c: Config, s: State, step: Step, events: set<Event>)
    requires |s.workers| == |s.received| && Enabled(c, s, step) && AllAmong(s, events)
    requires step.Receive? ==> step.event in events
    ensures AllAmong(Apply(c, s, step), events)
  {
  }

  lemma {:induction false} RunAmong(c: Config, steps: seq<Step>, events: set<Event>)
    requires Run(c, steps).Some? && ReceivesOnly(steps, events)
    ensures AllAmong(Run(c, steps).value, events)
  {
    if |steps| > 0 {
      var front, last := steps[..|steps| - 1], steps[|steps| - 1];
      assert forall i :: 0 <= i < |front| ==> front[i] == steps[i];
      RunAmong(c, front, events);
      StepAmong(c, Run(c, front).value, last, events);
    }
  }

  lemma {:induction false} OffenderCanRaise(c: Config, events: set<Event>, put: seq<Item>, k: nat)
    requires k < |put| && Offends(c, put, k) && IsIngestible(put[k].env.event)
    requires forall i :: 0 <= i < |put| ==> put[i].env.event in events
    ensures CanRaise(c, events, put[k].env.event)
  {
    var envs, e := Envelopes(put[..k]), put[k].env.event;
    RunGrows(c.tables, envs, "");
    if IsSeen(e) && KeyOf(e) !in c.tables.designs && KeyOf(e) in ReducerRuns.Run(c.tables, envs).designs {
      var i := RowMeansOpener(c.tables, envs, KeyOf(e));
      assert envs[i] == put[i].env;
    }
  }

  /** The run in which one more event goes from relay to reducer and nothing else happens. */
  function Deliver(steps: seq<Step>, e: Event): seq<Step> {
    steps + [Receive(0, e, 0)] + [Put(0)] + [Test] + [Take] + [Finish]
  }

  /** The first worker listens and the loop is idle with nothing queued. */
  predicate IsReady(c: Config, s: State) {
    && |s.workers| == |s.received| == |c.relays| > 0
    && s.workers[0].Listening? && s.queue == [] && s.loop.Testing? && !s.stop
  }

  function EnvelopeOf(c: Config, e: Event): Envelope
    requires |c.relays| > 0
  {
    Envelope(c.relays[0], 0, e)
  }

  lemma {:induction false} RunStep(c: Config, steps: seq<Step>, step: Step)
    requires Run(c, steps).Some? && Enabled(c, Run(c, steps).value, step)
    ensures Run(c, steps + [step]) == Some(Apply(c, Run(c, steps).value, step))
  {
    assert (steps + [step])[..|steps + [step]| - 1] == steps;
  }

  lemma {:induction false} Queued(c: Config, steps: seq<Step>, e: Event)
    requires Run(c, steps).Some? && IsReady(c, Run(c, steps).value) && IsIngestible(e)
    ensures var r := Run(c, steps + [Receive(0, e, 0)] + [Put(0)]);
            && r.Some? && |r.value.workers| == |r.value.received| == |c.relays| && r.value.workers[0].Listening?
            && r.value.queue == [Item(0, EnvelopeOf(c, e))] && r.value.loop.Testing? && !r.value.stop
            && r.value.db == Run(c, steps).value.db
  {
    RunStep(c, steps, Receive(0, e, 0));
    RunStep(c, steps + [Receive(0, e, 0)], Put(0));
  }

  lemma {:induction false} TakenNext(c: Config, steps: seq<Step>, item: Item)
    requires Run(c, steps).Some? && Run(c, steps).value.queue == [item] && Run(c, steps).value.loop.Testing?
    ensures var s, r := Run(c, steps).value, Run(c, steps + [Test] + [Take]);
            && r.Some? && r.value == s.(loop := Working(item), queue := [])
  {
    RunStep(c, steps, Test);
    RunStep(c, steps + [Test], Take);
  }

  predicate IsOutcome(c: Config, db: Db, e: Event, after: State)
    requires |c.relays| > 0
  {
    var reduction := Reduce(db, EnvelopeOf(c, e));
    && after.db == reduction.db && (after.loop.Crashed? <==> reduction.outcome.Raised?)
    && (!after.loop.Crashed? ==> IsReady(c, after))
  }

  lemma {:induction false} Finished(c: Config, steps: seq<Step>, e: Event)
    requires |c.relays| > 0 && Run(c, steps).Some?
    requires Run(c, steps).value.loop == Working(Item(0, EnvelopeOf(c, e)))
    requires IsReady(c, Run(c, steps).value.(loop := Testing))
    ensures Run(c, steps + [Finish]).Some?
    ensures IsOutcome(c, Run(c, steps).value.db, e, Run(c, steps + [Finish]).value)
  {
    RunStep(c, steps, Finish);
  }

  /** Delivered to an idle pipeline, an ingestible event is reduced or kills the loop. */
  lemma {:induction false} Delivered(c: Config, steps: seq<Step>, e: Event)
    requires Run(c, steps).Some? && IsReady(c, Run(c, steps).value) && IsIngestible(e)
    ensures Run(c, Deliver(steps, e)).Some?
    ensures IsOutcome(c, Run(c, steps).value.db, e, Run(c, Deliver(steps, e)).value)
  {
    var put := steps + [Receive(0, e, 0)] + [Put(0)];
    Queued(c, steps, e);
    TakenNext(c, put, Item(0, EnvelopeOf(c, e)));
    Finished(c, put + [Test] + [Take], e);
  }

  lemma {:induction false} FirstDelivery(c: Config, e: Event)
    requires |c.relays| > 0 && IsIngestible(e)
    ensures Run(c, Deliver([], e)).Some? && IsOutcome(c, c.tables, e, Run(c, Deliver([], e)).value)
  {
    assert Run(c, []) == Some(Start(c));
    Delivered(c, [], e);
  }

  predicate DiesOf(c: Config, steps: seq<Step>, events: set<Event>) {
    Run(c, steps).Some? && Run(c, steps).value.loop.Crashed? && ReceivesOnly(steps, events)
  }

  lemma {:induction false} DeliverReceives(steps: seq<Step>, e: Event, events: set<Event>)
    requires ReceivesOnly(steps, events) && e in events
    ensures ReceivesOnly(Deliver(steps, e), events)
  {
  }

  lemma {:induction false} CrashAlone(c: Config, events: set<Event>, e: Event)
    requires IsSound(c.tables) && |c.relays| > 0
    requires e in events && IsIngestible(e) && Raises(c.tables, e)
    ensures DiesOf(c, Deliver([], e), events)
  {
    DeliverReceives([], e, events);
    FirstDelivery(c, e);
    RaisesExactly(c.tables, EnvelopeOf(c, e));
  }

  lemma {:induction false} CrashAfter(c: Config, events: set<Event>, f: Event, e: Event)
    requires IsSound(c.tables) && |c.relays| > 0 && f in events && e in events
    requires IsIngestible(e) && !IsStorable(e) && IsAdmittedAs(e, false)
    requires KeyOf(e) !in c.tables.designs && OpensAnew(c.tables, f, KeyOf(e))
    ensures DiesOf(c, Deliver(Deliver([], f), e), events)
  {
    var env := EnvelopeOf(c, f);
    var db := Reduce(c.tables, env).db;
    DeliverReceives([], f, events);
    DeliverReceives(Deliver([], f), e, events);
    FirstDelivery(c, f);
    RowAppears(c.tables, env, KeyOf(e));
    RaisesExactly(c.tables, env);
    ReduceKeepsSound(c.tables, env);
    Delivered(c, Deliver([], f), e);
    RaisesExactly(db, EnvelopeOf(c, e));
  }

  /** An event that can raise kills the loop of a fresh pipeline, after at most one other. */
  lemma {:induction false} CrashRun(c: Config, events: set<Event>, e: Event) returns (steps: seq<Step>)
    requires IsSound(c.tables) && |c.relays| > 0 && e in events && CanRaise(c, events, e)
    ensures DiesOf(c, steps, events)
  {
    if !IsSeen(e) || IsAdmittedAs(e, KeyOf(e) !in c.tables.designs) {
      steps := Deliver([], e);
      CrashAlone(c, events, e);
    } else {
      var f :| f in events && OpensAnew(c.tables, f, KeyOf(e));
      steps := Deliver(Deliver([], f), e);
      CrashAfter(c, events, f, e);
    }
  }

  /** The exact condition on what the relays send: on a database the reducer has written, crashes
      included, some interleaving receiving only these events kills the reducer loop if and only
      if one of them can raise. */
  lemma {:induction false} CrashIsPossible(c: Config, events: set<Event>)
    requires IsSound(c.tables) && |c.relays| > 0
    ensures (exists steps :: DiesOf(c, steps, events)) <==> (exists e :: e in events && CanRaise(c, events, e))
  {
    if steps :| DiesOf(c, steps, events) {
      var s := Run(c, steps).value;
      LoopCrashesExactly(c, steps);
      RunKeepsInv(c, steps);
      RunAmong(c, steps, events);
      var k :| 0 <= k < Finishes(steps) && Offends(c, s.put, k);
      OffenderCanRaise(c, events, s.put, k);
    }
    if e :| e in events && CanRaise(c, events, e) {
      var steps := CrashRun(c, events, e);
    }
  }

  /** A time of creation one second past the range of a column is enough, on any such database
      that admits the event. */
  lemma {:induction false} OversizedTimeKillsLoop(c: Config, e: Event)
    requires IsSound(c.tables) && |c.relays| > 0 && IsAdmitted(c.tables, e)
    requires e.createdAt == Int(0x8000_0000_0000_0000)
    ensures DiesOf(c, Deliver([], e), {e})
  {
    CrashAlone(c, {e}, e);
  }

  /** So a loop that only ever gets storable events never dies. */
  lemma {:induction false} StorableEventsAreSafe(c: Config, steps: seq<Step>, events: set<Event>)
    requires IsSound(c.tables) && |c.relays| > 0 && Run(c, steps).Some? && ReceivesOnly(steps, events)
    requires forall e :: e in events && IsIngestible(e) ==> IsStorable(e)
    ensures !Run(c, steps).value.loop.Crashed?
  {
    if Run(c, steps).value.loop.Crashed? { assert DiesOf(c, steps, events); }
    CrashIsPossible(c, events);
  }
}
