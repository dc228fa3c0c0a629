/** A failed identity that is due cannot be passed over for ever: every cycle that leaves it
    out works off a full batch of the rows ahead of it, and nothing joins them. */
module BoundedWaiting {
  import opened Sequences
  import opened Text
  import opened Tables
  import opened IdentityRuns

  /** Rows the selection may put before `x`: pending ones, and failed ones last tried no later. */
  predicate IsAhead(ids: Identities, x: string, y: string)
    requires x in ids
  {
    && y in ids && y != x
    && (|| ids[y].status == Pending
        || (ids[y].status == Failed && ids[y].lastAttemptAt.GetOr(0) <= ids[x].lastAttemptAt.GetOr(0)))
  }

  function Ahead(ids: Identities, x: string): set<string>
    requires x in ids
  {
    set y | y in ids && IsAhead(ids, x, y)
  }

  /** `x` has missed, and the wait that its misses call for is over. */
  predicate IsWaiting(w: World, x: string) {
    && x in w.ids && w.ids[x].status == Failed && w.ids[x].lastAttemptAt.Some? && w.ids[x].retryCount > 0
    && w.clock >= w.ids[x].lastAttemptAt.value + WaitAfter(w.ids[x].retryCount)
  }

  function Lists(actions: seq<Action>): nat {
    if |actions| == 0 then 0 else CountList(Lists(actions[..|actions| - 1]), actions[|actions| - 1])
  }

  function CountList(lists: nat, a: Action): nat { if a.List? then lists + 1 else lists }

  function Attempts(log: seq<Attempt>, p: string): nat {
    if |log| == 0 then 0
    else Attempts(log[..|log| - 1], p) + if log[|log| - 1].pubkey == p then 1 else 0
  }

  // ---------- one selection ----------

  lemma {:induction false} Fits(s: seq<string>, bound: set<string>)
    requires Distinct(s) && forall p :: p in s ==> p in bound
    ensures |s| <= |bound|
  {
    DistinctCount(s);
    SubsetCount(SetOf(s), bound);
  }

  /** With few enough rows ahead, the waiting row is in the window the query returns, and only
      rows ahead of it stand before it. */
  lemma {:induction false} WaitingRowIsListed(ids: Identities, cutoff: int, window: nat, rows: seq<string>, x: string)
    requires IsQueryAnswer(ids, cutoff, window, rows)
    requires x in ids && ids[x].status == Failed && |Ahead(ids, x)| < window
    ensures x in rows
    ensures forall i, j :: 0 <= i < j < |rows| && rows[j] == x ==> rows[i] in Ahead(ids, x)
  {
    if x !in rows {
      assert forall p :: p in rows ==> p in Ahead(ids, x);
      Fits(rows, Ahead(ids, x));
    }
  }

  /** A selection that leaves out a due waiting row is a full batch of rows ahead of it. */
  lemma {:induction false} PassedOverByRowsAhead(c: Config, ids: Identities, now: int, rows: seq<string>, x: string)
    requires IsQueryAnswer(ids, now - c.staleAfter, c.limit * 5, rows)
    requires x in ids && ids[x].status == Failed && IsDue(ids[x], now) && |Ahead(ids, x)| < c.limit * 5
    requires x !in Picked(ids, rows, c.limit, now)
    ensures |Picked(ids, rows, c.limit, now)| == c.limit
    ensures Distinct(Picked(ids, rows, c.limit, now))
    ensures forall y :: y in Picked(ids, rows, c.limit, now) ==> y in Ahead(ids, x)
  {
    WaitingRowIsListed(ids, now - c.staleAfter, c.limit * 5, rows, x);
    var j :| 0 <= j < |rows| && rows[j] == x;
    PassedOverWhenFull(ids, rows, j, c.limit, now);
    PickedFrom(ids, rows[..j], c.limit, now);
    PickedDistinct(ids, rows, c.limit, now);
    forall y | y in rows[..j] ensures y in Ahead(ids, x) {
      var i :| 0 <= i < j && rows[..j][i] == y;
      assert rows[i] == y;
    }
  }

  // ---------- when a selection must take a row ----------

  /** Rows that may come before `p`: a pending one before the others, a failed one before fetched ones,
      and of the same status those tried earlier, or as early and seen no earlier. */
  predicate MayPrecede(ids: Identities, p: string, q: string)
    requires p in ids
  {
    && q in ids && q != p
    && if ids[q].status != ids[p].status then ids[q].status == Pending || ids[p].status == Fetched
       else
         var triedP, triedQ := ids[p].lastAttemptAt.GetOr(0), ids[q].lastAttemptAt.GetOr(0);
         triedQ < triedP || (triedQ == triedP && ids[q].lastSeenAt >= ids[p].lastSeenAt)
  }

  function Preceding(ids: Identities, p: string): set<string>
    requires p in ids
  {
    set q | q in ids && MayPrecede(ids, p, q)
  }

  /** Never tried, failed, or fetched that long ago. */
  predicate NeedsRefresh(id: Identity, now: int, staleAfter: int) {
    match id.status
    case Pending => true
    case Failed => true
    case Fetched => id.profileFetchedAt.None? || now - id.profileFetchedAt.value >= staleAfter
  }

  lemma {:induction false} PickedFits(ids: Identities, rows: seq<string>, limit: nat, now: int)
    requires forall i :: 0 <= i < |rows| ==> rows[i] in ids
    ensures |Picked(ids, rows, limit, now)| <= |rows|
  {
    if |rows| > 0 { PickedFits(ids, rows[..|rows| - 1], limit, now); }
  }

  lemma {:induction false} ListedBefore(ids: Identities, cutoff: int, window: nat, rows: seq<string>, p: string)
    returns (j: nat)
    requires IsQueryAnswer(ids, cutoff, window, rows) && p in ids && IsCandidate(ids[p], cutoff)
    requires |Preceding(ids, p)| < window
    ensures j < |rows| && rows[j] == p && j <= |Preceding(ids, p)|
  {
    if p !in rows {
      forall q | q in rows ensures q in Preceding(ids, p) { assert !SortsBefore(ids[p], ids[q]); }
      Fits(rows, Preceding(ids, p));
    }
    j :| 0 <= j < |rows| && rows[j] == p;
    forall q | q in rows[..j] ensures q in Preceding(ids, p) {
      var i :| 0 <= i < j && rows[..j][i] == q;
      assert rows[i] == q && !SortsBefore(ids[rows[j]], ids[rows[i]]);
    }
    Fits(rows[..j], Preceding(ids, p));
  }

  /** A row that needs refreshing and is due is taken if fewer rows than fit a batch may come before it. */
  lemma {:induction false} FewBeforeIsTaken(
    ids: Identities, staleAfter: int, limit: nat, now: int, rows: seq<string>, p: string)
    requires IsQueryAnswer(ids, now - staleAfter, limit * 5, rows)
    requires p in ids && NeedsRefresh(ids[p], now, staleAfter) && IsDueAt(ids[p], now)
    requires |Preceding(ids, p)| < limit
    ensures p in Picked(ids, rows, limit, now)
  {
    var j := ListedBefore(ids, now - staleAfter, limit * 5, rows, p);
    DueExactly(ids[p], now);
    PickedFits(ids, rows[..j], limit, now);
    PickedWhenRoom(ids, rows, j, limit, now);
  }

  /** And no other row is ever taken. */
  lemma {:induction false} OnlyDueAreTaken(
    ids: Identities, staleAfter: int, limit: nat, now: int, rows: seq<string>, p: string)
    requires IsQueryAnswer(ids, now - staleAfter, limit * 5, rows) && p in Picked(ids, rows, limit, now)
    ensures p in ids && NeedsRefresh(ids[p], now, staleAfter) && IsDueAt(ids[p], now)
  {
    PickedFrom(ids, rows, limit, now);
    DueExactly(ids[p], now);
  }

  // ---------- progress ----------

  predicate SameAttempt(a: Identity, b: Identity) {
    a.status == b.status && a.lastAttemptAt == b.lastAttemptAt && a.retryCount == b.retryCount
  }

  /** Each selection so far has taken a full batch off the rows ahead of `x`. */
  ghost predicate WorkedOff(c: Config, start: World, w: World, x: string, lists: nat)
    requires x in start.ids && x in w.ids
  {
    && SameAttempt(w.ids[x], start.ids[x])
    && |Ahead(w.ids, x) - SetOf(w.Pending())| + c.limit * lists <= |Ahead(start.ids, x)|
  }

  predicate Since(start: World, w: World, x: string) {
    && start.clock <= w.clock && (w.phase.Marking? ==> start.clock <= w.phase.at)
    && w.ids.Keys == start.ids.Keys
    && Attempts(w.log, x) >= Attempts(start.log, x)
  }

  /** `x` has been tried, is about to be, or the rows ahead of it are being worked off. */
  ghost predicate Progress(c: Config, start: World, w: World, x: string, lists: nat)
    requires x in start.ids
  {
    && Since(start, w, x)
    && (|| Attempts(w.log, x) > Attempts(start.log, x)
        || x in w.Pending()
        || WorkedOff(c, start, w, x, lists))
  }

  predicate NoNewcomers(start: World, a: Action) {
    !a.Restart? && (a.Ingest? ==> a.pubkey in start.ids)
  }

  lemma {:induction false} DueAfterLast(id: Identity, now: int)
    requires IsDue(id, now) && id.lastAttemptAt.Some? && id.retryCount > 0
    ensures now > id.lastAttemptAt.value
  {
  }

  lemma {:induction false} CountStep(log: seq<Attempt>, a: Attempt, p: string)
    ensures Attempts(log + [a], p) == Attempts(log, p) + if a.pubkey == p then 1 else 0
  {
    assert (log + [a])[..|log + [a]| - 1] == log;
  }

  lemma {:induction false} ListWorksOff(c: Config, start: World, w: World, now: int, rows: seq<string>, x: string,
      lists: nat)
    requires x in start.ids && x in w.ids && w.ids[x].status == Failed && IsDue(w.ids[x], now)
    requires |Ahead(start.ids, x)| < c.limit * 5 && WorkedOff(c, start, w, x, lists)
    requires Enabled(c, w, List(now, rows)) && x !in Picked(w.ids, rows, c.limit, now) && c.Valid()
    ensures WorkedOff(c, start, Apply(c, w, List(now, rows)), x, lists + 1)
  {
    var batch, ahead := Picked(w.ids, rows, c.limit, now), Ahead(w.ids, x);
    FewerAhead(c, start, w, x, lists);
    PassedOverByRowsAhead(c, w.ids, now, rows, x);
    BatchLeaves(batch, ahead);
    Product(c.limit, lists);
    AfterListing(c, w, now, rows);
  }

  lemma {:induction false} AfterListing(c: Config, w: World, now: int, rows: seq<string>)
    requires Enabled(c, w, List(now, rows))
    ensures var w' := Apply(c, w, List(now, rows));
            w'.ids == w.ids && w'.Pending() == Picked(w.ids, rows, c.limit, now)
  {
  }

  lemma {:induction false} FewerAhead(c: Config, start: World, w: World, x: string, lists: nat)
    requires x in start.ids && x in w.ids && WorkedOff(c, start, w, x, lists) && w.phase.Idle?
    ensures |Ahead(w.ids, x)| + c.limit * lists <= |Ahead(start.ids, x)|
    ensures |Ahead(w.ids, x)| <= |Ahead(start.ids, x)|
  {
    NoneLeaves(Ahead(w.ids, x));
  }

  lemma {:induction false} NoneLeaves(ahead: set<string>)
    ensures ahead - SetOf([]) == ahead
  {
  }

  lemma {:induction false} Product(limit: nat, lists: nat)
    ensures limit * (lists + 1) == limit * lists + limit
  {
  }

  lemma {:induction false} BatchLeaves(batch: seq<string>, ahead: set<string>)
    requires Distinct(batch) && forall y :: y in batch ==> y in ahead
    ensures |ahead - SetOf(batch)| == |ahead| - |batch|
  {
    DistinctCount(batch);
    SubsetCount(SetOf(batch), ahead);
  }

  lemma {:induction false} ListProgress(c: Config, start: World, w: World, now: int, rows: seq<string>, x: string,
      lists: nat)
    requires c.Valid() && IsWaiting(start, x) && |Ahead(start.ids, x)| < c.limit * 5
    requires Progress(c, start, w, x, lists) && Enabled(c, w, List(now, rows))
    ensures Progress(c, start, Apply(c, w, List(now, rows)), x, lists + 1)
  {
    if Attempts(w.log, x) == Attempts(start.log, x) && x !in Picked(w.ids, rows, c.limit, now) {
      assert WorkedOff(c, start, w, x, lists);
      DueExactly(start.ids[x], start.clock);
      LaterIsDue(start.ids[x], start.clock, now);
      ListWorksOff(c, start, w, now, rows, x, lists);
    }
  }

  /** Writing back another key takes it off the rows ahead and puts none there. */
  lemma {:induction false} MarkShrinksAhead(c: Config, w: World, profile: Option<Profile>, x: string)
    requires Inv(c, w) && Enabled(c, w, Mark(profile)) && x in w.ids && x !in w.Pending()
    requires w.ids[x].lastAttemptAt.Some? && w.phase.at > w.ids[x].lastAttemptAt.value
    ensures var w' := Apply(c, w, Mark(profile));
            && w'.ids.Keys == w.ids.Keys && w'.ids[x] == w.ids[x]
            && Ahead(w'.ids, x) - SetOf(w'.Pending()) <= Ahead(w.ids, x) - SetOf(w.Pending())
  {
    var y, batch := w.phase.batch[0], w.phase.batch;
    var w' := Apply(c, w, Mark(profile));
    assert y in w.Pending();
    assert w'.Pending() == batch[1..];
    assert SetOf(batch) == {y} + SetOf(batch[1..]) by {
      assert forall i :: 0 <= i < |batch[1..]| ==> batch[1..][i] == batch[i + 1];
      assert forall i :: 1 <= i < |batch| ==> batch[i] == batch[1..][i - 1];
    }
    assert y !in Ahead(w'.ids, x);
    forall z | z in Ahead(w'.ids, x) ensures z in Ahead(w.ids, x) { assert z != y && w'.ids[z] == w.ids[z]; }
  }

  lemma {:induction false} MarkWorksOff(c: Config, start: World, w: World, profile: Option<Profile>, x: string,
      lists: nat)
    requires Inv(c, w) && Enabled(c, w, Mark(profile)) && x in start.ids && x in w.ids && x !in w.Pending()
    requires w.ids[x].lastAttemptAt.Some? && w.phase.at > w.ids[x].lastAttemptAt.value
    requires WorkedOff(c, start, w, x, lists)
    ensures x in Apply(c, w, Mark(profile)).ids && WorkedOff(c, start, Apply(c, w, Mark(profile)), x, lists)
  {
    var w' := Apply(c, w, Mark(profile));
    MarkShrinksAhead(c, w, profile, x);
    SubsetCount(Ahead(w'.ids, x) - SetOf(w'.Pending()), Ahead(w.ids, x) - SetOf(w.Pending()));
  }

  lemma {:induction false} MarkSince(c: Config, start: World, w: World, profile: Option<Profile>, x: string)
    requires Inv(c, w) && Enabled(c, w, Mark(profile)) && Since(start, w, x)
    ensures Since(start, Apply(c, w, Mark(profile)), x)
    ensures x in w.Pending() ==>
      Attempts(Apply(c, w, Mark(profile)).log, x) > Attempts(start.log, x) || x in Apply(c, w, Mark(profile)).Pending()
  {
    var batch := w.phase.batch;
    var w' := Apply(c, w, Mark(profile));
    assert batch[0] in w.Pending();
    CountStep(w.log, Attempt(batch[0], w.phase.at, profile), x);
    assert w'.Pending() == batch[1..];
    if x in batch && x != batch[0] {
      var i :| 0 <= i < |batch| && batch[i] == x;
      assert batch[1..][i - 1] == x;
    }
  }

  lemma {:induction false} MarkProgress(c: Config, start: World, w: World, profile: Option<Profile>, x: string,
      lists: nat)
    requires Inv(c, w) && IsWaiting(start, x)
    requires Progress(c, start, w, x, lists) && Enabled(c, w, Mark(profile))
    ensures Progress(c, start, Apply(c, w, Mark(profile)), x, lists)
  {
    MarkSince(c, start, w, profile, x);
    CountStep(w.log, Attempt(w.phase.batch[0], w.phase.at, profile), x);
    if Attempts(w.log, x) == Attempts(start.log, x) && x !in w.Pending() {
      assert WorkedOff(c, start, w, x, lists);
      DueExactly(start.ids[x], start.clock);
      DueAfterLast(start.ids[x], start.clock);
      MarkWorksOff(c, start, w, profile, x, lists);
    }
  }

  lemma {:induction false} IngestProgress(c: Config, start: World, w: World, p: string, t: int, x: string, lists: nat)
    requires x in start.ids && p in start.ids && Progress(c, start, w, x, lists)
    ensures Progress(c, start, Apply(c, w, Ingest(p, t)), x, lists)
  {
    var w' := Apply(c, w, Ingest(p, t));
    assert w'.ids.Keys == w.ids.Keys;
    assert Ahead(w'.ids, x) == Ahead(w.ids, x);
  }

  /** `x` is failed and due between two cycles, with less than a full window of rows ahead of it. */
  ghost predicate Waits(c: Config, start: World, x: string) {
    c.Valid() && Inv(c, start) && start.phase.Idle? && IsWaiting(start, x) && |Ahead(start.ids, x)| < c.limit * 5
  }

  lemma {:induction false} StepProgress(c: Config, start: World, w: World, a: Action, x: string, lists: nat)
    requires Waits(c, start, x) && Inv(c, w)
    requires Progress(c, start, w, x, lists) && Enabled(c, w, a) && NoNewcomers(start, a)
    ensures Progress(c, start, Apply(c, w, a), x, CountList(lists, a))
  {
    match a
    case Ingest(p, t) => IngestProgress(c, start, w, p, t, x, lists);
    case List(now, rows) => ListProgress(c, start, w, now, rows, x, lists);
    case Mark(profile) => MarkProgress(c, start, w, profile, x, lists);
    case Answered(at) => assert Apply(c, w, a).Pending() == w.Pending();
  }

  lemma {:induction false} LastAction(c: Config, w: World, actions: seq<Action>)
    requires |actions| > 0 && RunFrom(c, w, actions).Some?
    ensures var front, a := actions[..|actions| - 1], actions[|actions| - 1];
            && RunFrom(c, w, front).Some? && Enabled(c, RunFrom(c, w, front).value, a)
            && RunFrom(c, w, actions).value == Apply(c, RunFrom(c, w, front).value, a)
            && Lists(actions) == CountList(Lists(front), a)
  {
  }

  ghost predicate OnTrack(c: Config, start: World, w: World, x: string, lists: nat) {
    Waits(c, start, x) && Inv(c, w) && Progress(c, start, w, x, lists)
  }

  lemma {:induction false} StartOnTrack(c: Config, start: World, x: string)
    requires Waits(c, start, x)
    ensures OnTrack(c, start, start, x, 0)
  {
    NoneLeaves(Ahead(start.ids, x));
    assert WorkedOff(c, start, start, x, 0);
  }

  lemma {:induction false} StepOnTrack(c: Config, start: World, w: World, a: Action, x: string, lists: nat)
    requires OnTrack(c, start, w, x, lists) && Enabled(c, w, a) && NoNewcomers(start, a)
    ensures OnTrack(c, start, Apply(c, w, a), x, CountList(lists, a))
  {
    StepKeepsInv(c, w, a);
    StepProgress(c, start, w, a, x, lists);
  }

  lemma {:induction false} RunOnTrack(c: Config, start: World, actions: seq<Action>, x: string)
    requires OnTrack(c, start, start, x, 0)
    requires forall i :: 0 <= i < |actions| ==> NoNewcomers(start, actions[i])
    requires RunFrom(c, start, actions).Some?
    ensures OnTrack(c, start, RunFrom(c, start, actions).value, x, Lists(actions))
    decreases |actions|
  {
    if |actions| > 0 {
      var front, last := actions[..|actions| - 1], actions[|actions| - 1];
      LastAction(c, start, actions);
      assert NoNewcomers(start, last);
      assert forall i :: 0 <= i < |front| ==> front[i] == actions[i];
      RunOnTrack(c, start, front, x);
      StepOnTrack(c, start, RunFrom(c, start, front).value, last, x, Lists(front));
    } else {
      assert RunFrom(c, start, actions).value == start && Lists(actions) == 0;
    }
  }

  /** Bounded waiting: let `x` have missed and waited 60, 120, 240, ... seconds, six hours from the tenth
      miss on, with fewer than five batches of rows ahead of
      it. Whatever order the query gives to equal rows, if no identity is new and the clock does
      not run back, `x` is tried by the time floor(ahead / limit) + 1 cycles are complete. */
  lemma {:induction false} WaitingIsBounded(c: Config, start: World, actions: seq<Action>, x: string)
    requires Waits(c, start, x)
    requires forall i :: 0 <= i < |actions| ==> NoNewcomers(start, actions[i])
    requires RunFrom(c, start, actions).Some? && RunFrom(c, start, actions).value.phase.Idle?
    requires Lists(actions) >= |Ahead(start.ids, x)| / c.limit + 1
    ensures Attempts(RunFrom(c, start, actions).value.log, x) > Attempts(start.log, x)
  {
    StartOnTrack(c, start, x);
    RunOnTrack(c, start, actions, x);
    CyclesExceed(c.limit, |Ahead(start.ids, x)|, Lists(actions));
  }

  /** The same from every state the refresher can reach: a failed row that is due between two
      cycles needs no assumption about how it got there. */
  lemma {:induction false} ReachableWaitingIsBounded(
    c: Config, before: seq<Action>, start: World, actions: seq<Action>, x: string)
    requires c.Valid() && RunFrom(c, START, before) == Some(start) && start.phase.Idle?
    requires x in start.ids && start.ids[x].status == Failed && IsDueAt(start.ids[x], start.clock)
    requires |Ahead(start.ids, x)| < c.limit * 5
    requires forall i :: 0 <= i < |actions| ==> NoNewcomers(start, actions[i])
    requires RunFrom(c, start, actions).Some? && RunFrom(c, start, actions).value.phase.Idle?
    requires Lists(actions) >= |Ahead(start.ids, x)| / c.limit + 1
    ensures Attempts(RunFrom(c, start, actions).value.log, x) > Attempts(start.log, x)
  {
    RunKeepsInv(c, START, before);
    assert RowTellsHistory(start.ids[x], start.log, x);
    WaitingIsBounded(c, start, actions, x);
  }

  lemma {:induction false} CyclesExceed(limit: nat, ahead: nat, lists: nat)
    requires limit >= 1 && lists >= ahead / limit + 1
    ensures limit * lists > ahead
  {
    assert limit * lists >= limit * (ahead / limit + 1) == limit * (ahead / limit) + limit;
  }
}
