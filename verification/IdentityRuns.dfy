/** The profile refresher beside the design ingest, as interleaved steps over the identities
    table: what the rows say about past attempts, and how far apart attempts are. */
module IdentityRuns {
  import opened Sequences
  import opened Text
  import opened Tables

  // ---------- the machine ----------

  datatype Config = Config(limit: nat, staleAfter: int) {
    predicate Valid() { limit >= 1 }
  }

  /** One recorded attempt and what it found: the history the rows are compared with. */
  datatype Attempt = Attempt(pubkey: string, at: int, found: Option<Profile>)

  /** Where the refresh cycle stands: waiting, asking the relays about a batch, or writing the
      answers back one by one under a common attempt time. */
  datatype Phase = Idle | Fetching(batch: seq<string>) | Marking(batch: seq<string>, at: int)

  datatype World = World(ids: Identities, phase: Phase, clock: int, log: seq<Attempt>) {
    function Pending(): seq<string> { if phase.Idle? then [] else phase.batch }
  }

  datatype Action =
    | Ingest(pubkey: string, seenAt: int)   // the reducer saw an event of this key
    | List(now: int, rows: seq<string>)     // the query answered, the batch is chosen
    | Answered(at: int)                     // all relays answered or timed out
    | Mark(profile: Option<Profile>)        // the next key of the batch is written back
    | Restart                               // the refresher died, of an exception or otherwise, and came back

  ghost predicate Enabled(c: Config, w: World, a: Action) {
    match a
    case Ingest(_, _) => true
    case List(now, rows) =>
      w.phase.Idle? && now >= w.clock && IsQueryAnswer(w.ids, now - c.staleAfter, c.limit * 5, rows)
    case Answered(at) => w.phase.Fetching? && at >= w.clock
    case Mark(profile) => w.phase.Marking? && |w.phase.batch| > 0 && (profile.Some? ==> !profile.value.surrogates)
    case Restart => true
  }

  function AfterList(batch: seq<string>): Phase { if |batch| == 0 then Idle else Fetching(batch) }

  function AfterMark(batch: seq<string>, at: int): Phase { if |batch| == 0 then Idle else Marking(batch, at) }

  ghost function Apply(c: Config, w: World, a: Action): World
    requires Enabled(c, w, a)
  {
    match a
    case Ingest(p, t) => w.(ids := EnsurePending(w.ids, p, t))
    case List(now, rows) => w.(phase := AfterList(Picked(w.ids, rows, c.limit, now)), clock := now)
    case Answered(at) => w.(phase := Marking(w.phase.batch, at), clock := at)
    case Mark(profile) =>
      var p, at := w.phase.batch[0], w.phase.at;
      w.(ids := if profile.Some? then SetProfile(w.ids, p, profile.value, at) else SetMiss(w.ids, p, at),
         phase := AfterMark(w.phase.batch[1..], at),
         log := w.log + [Attempt(p, at, profile)])
    case Restart => w.(phase := Idle)
  }

  /** The world after the actions, or None when one of them was not possible. */
  ghost function RunFrom(c: Config, w: World, actions: seq<Action>): Option<World> {
    if |actions| == 0 then Some(w)
    else
      match RunFrom(c, w, actions[..|actions| - 1])
      case None => None
      case Some(before) =>
        var a := actions[|actions| - 1];
        if Enabled(c, before, a) then Some(Apply(c, before, a)) else None
  }

  const START := World(map[], Idle, 0, [])

  // ---------- history ----------

  function LastAttempt(log: seq<Attempt>, p: string): Option<Attempt> {
    if |log| == 0 then None
    else if log[|log| - 1].pubkey == p then Some(log[|log| - 1])
    else LastAttempt(log[..|log| - 1], p)
  }

  /** The last attempt that found a profile. */
  function LastHit(log: seq<Attempt>, p: string): Option<Attempt> {
    if |log| == 0 then None
    else if log[|log| - 1].pubkey == p && log[|log| - 1].found.Some? then Some(log[|log| - 1])
    else LastHit(log[..|log| - 1], p)
  }

  function TrailingMisses(log: seq<Attempt>, p: string): nat {
    if |log| == 0 then 0
    else
      var front, last := log[..|log| - 1], log[|log| - 1];
      if last.pubkey != p then TrailingMisses(front, p)
      else if last.found.Some? then 0
      else 1 + TrailingMisses(front, p)
  }

  /** When the trailing run of misses began. */
  function RunStart(log: seq<Attempt>, p: string): int {
    if |log| == 0 then 0
    else
      var front, last := log[..|log| - 1], log[|log| - 1];
      if last.pubkey == p && TrailingMisses(front, p) == 0 then last.at else RunStart(front, p)
  }

  /** The least time k consecutive misses take: the sum of the delays between them. */
  function Span(k: nat): int {
    if k <= 1 then 0 else Span(k - 1) + Delay(k - 1)
  }

  /** The row says exactly what the history does: the outcome and time of the last attempt, the
      misses since the last hit, and the profile and time of that hit, which misses keep. */
  predicate RowTellsHistory(id: Identity, log: seq<Attempt>, p: string) {
    var last, hit := LastAttempt(log, p), LastHit(log, p);
    && id.retryCount == TrailingMisses(log, p)
    && id.status == (if last.None? then Pending else if last.value.found.Some? then Fetched else Failed)
    && id.lastAttemptAt == (if last.None? then None else Some(last.value.at))
    && id.profile == (if hit.None? then None else hit.value.found)
    && id.profileFetchedAt == (if hit.None? then None else Some(hit.value.at))
    && (id.status == Fetched ==> id.retryCount == 0 && id.profileFetchedAt == id.lastAttemptAt)
    && (id.status == Failed <==> id.retryCount > 0)
  }

  /** An attempt comes no sooner than the stale time after a hit, and no sooner than the backoff
      after a miss. */
  predicate KeepsDistance(c: Config, before: seq<Attempt>, a: Attempt) {
    var last := LastAttempt(before, a.pubkey);
    last.Some? ==>
      a.at >= last.value.at + if last.value.found.Some? then c.staleAfter else Delay(TrailingMisses(before, a.pubkey))
  }

  predicate WellSpaced(c: Config, log: seq<Attempt>) {
    |log| > 0 ==> WellSpaced(c, log[..|log| - 1]) && KeepsDistance(c, log[..|log| - 1], log[|log| - 1])
  }

  predicate MayTry(c: Config, id: Identity, now: int) { IsDue(id, now) && IsCandidate(id, now - c.staleAfter) }

  ghost predicate Inv(c: Config, w: World) {
    && (forall p :: p in w.ids ==> RowTellsHistory(w.ids[p], w.log, p))
    && (forall p :: p !in w.ids ==> LastAttempt(w.log, p).None?)
    && WellSpaced(c, w.log)
    && Distinct(w.Pending())
    && (forall p :: p in w.Pending() ==> p in w.ids && MayTry(c, w.ids[p],
        if w.phase.Marking? then w.phase.at else w.clock))
    && (w.phase.Marking? ==> w.phase.at <= w.clock)
    && (!w.phase.Idle? ==> |w.phase.batch| > 0)
  }

  // ---------- selection ----------

  lemma {:induction false} PickedFrom(ids: Identities, rows: seq<string>, limit: nat, now: int)
    requires forall i :: 0 <= i < |rows| ==> rows[i] in ids
    ensures forall p :: p in Picked(ids, rows, limit, now) ==> p in rows && IsDue(ids[p], now)
  {
    if |rows| > 0 {
      var front := rows[..|rows| - 1];
      PickedFrom(ids, front, limit, now);
      assert rows == front + [rows[|front|]];
    }
  }

  lemma {:induction false} PickedDistinct(ids: Identities, rows: seq<string>, limit: nat, now: int)
    requires forall i :: 0 <= i < |rows| ==> rows[i] in ids
    requires Distinct(rows)
    ensures Distinct(Picked(ids, rows, limit, now))
  {
    if |rows| > 0 {
      var front := rows[..|rows| - 1];
      PickedDistinct(ids, front, limit, now);
      PickedFrom(ids, front, limit, now);
      forall p | p in Picked(ids, front, limit, now) ensures p != rows[|front|] {
        var i :| 0 <= i < |front| && front[i] == p;
        assert rows[i] == p;
      }
    }
  }

  // ---------- one step ----------

  lemma {:induction false} HistoryStep(log: seq<Attempt>, a: Attempt, p: string)
    ensures LastAttempt(log + [a], p) == if a.pubkey == p then Some(a) else LastAttempt(log, p)
    ensures LastHit(log + [a], p) == if a.pubkey == p && a.found.Some? then Some(a) else LastHit(log, p)
    ensures TrailingMisses(log + [a], p)
         == if a.pubkey != p then TrailingMisses(log, p) else if a.found.Some? then 0 else 1 + TrailingMisses(log, p)
  {
    assert (log + [a])[..|log + [a]| - 1] == log;
  }

  /** Writing one answer back: the row of that key follows the history, others are untouched. */
  lemma {:induction false} MarkRow(c: Config, id: Identity, log: seq<Attempt>, p: string, at: int,
      profile: Option<Profile>)
    requires RowTellsHistory(id, log, p) && MayTry(c, id, at)
    ensures var ids := map[p := id];
            var after := if profile.Some? then SetProfile(ids, p, profile.value, at) else SetMiss(ids, p, at);
            RowTellsHistory(after[p], log + [Attempt(p, at, profile)], p)
    ensures KeepsDistance(c, log, Attempt(p, at, profile))
  {
    HistoryStep(log, Attempt(p, at, profile), p);
  }

  lemma {:induction false} MarkKeepsRows(c: Config, w: World, profile: Option<Profile>)
    requires Inv(c, w) && Enabled(c, w, Mark(profile))
    ensures var w' := Apply(c, w, Mark(profile));
            && w'.ids.Keys == w.ids.Keys
            && (forall q :: q in w.ids && q != w.phase.batch[0] ==> w'.ids[q] == w.ids[q])
            && (forall q :: q in w'.ids ==> RowTellsHistory(w'.ids[q], w'.log, q))
            && (forall q :: q !in w'.ids ==> LastAttempt(w'.log, q).None?)
            && WellSpaced(c, w'.log)
  {
    var p, at := w.phase.batch[0], w.phase.at;
    var w' := Apply(c, w, Mark(profile));
    assert p in w.Pending();
    MarkRow(c, w.ids[p], w.log, p, at, profile);
    assert w'.log[..|w'.log| - 1] == w.log;
    forall q ensures q in w'.ids ==> RowTellsHistory(w'.ids[q], w'.log, q)
             ensures q !in w'.ids ==> LastAttempt(w'.log, q).None?
    {
      HistoryStep(w.log, Attempt(p, at, profile), q);
      assert q != p && q in w.ids ==> w'.ids[q] == w.ids[q];
    }
  }

  lemma {:induction false} MarkKeepsInv(c: Config, w: World, profile: Option<Profile>)
    requires Inv(c, w) && Enabled(c, w, Mark(profile))
    ensures Inv(c, Apply(c, w, Mark(profile)))
  {
    MarkKeepsRows(c, w, profile);
    var rest := w.phase.batch[1..];
    assert forall i :: 0 <= i < |rest| ==> rest[i] == w.phase.batch[i + 1];
    assert Apply(c, w, Mark(profile)).Pending() == rest;
  }

  lemma {:induction false} ListKeepsInv(c: Config, w: World, now: int, rows: seq<string>)
    requires Inv(c, w) && Enabled(c, w, List(now, rows))
    ensures Inv(c, Apply(c, w, List(now, rows)))
  {
    PickedFrom(w.ids, rows, c.limit, now);
    PickedDistinct(w.ids, rows, c.limit, now);
  }

  lemma {:induction false} LaterIsDue(id: Identity, now: int, later: int)
    requires IsDue(id, now) && now <= later
    ensures IsDue(id, later)
  {
  }

  lemma {:induction false} NoAttemptNoMisses(log: seq<Attempt>, p: string)
    requires LastAttempt(log, p).None?
    ensures TrailingMisses(log, p) == 0 && LastHit(log, p).None?
  {
    if |log| > 0 { NoAttemptNoMisses(log[..|log| - 1], p); }
  }

  lemma {:induction false} IngestKeepsInv(c: Config, w: World, p: string, t: int)
    requires Inv(c, w)
    ensures Inv(c, Apply(c, w, Ingest(p, t)))
  {
    var w' := Apply(c, w, Ingest(p, t));
    assert forall q :: q in w.ids && q != p ==> w'.ids[q] == w.ids[q];
    if p !in w.ids { NoAttemptNoMisses(w.log, p); }
    forall q | q in w'.Pending() ensures q in w'.ids && MayTry(c, w'.ids[q],
        if w.phase.Marking? then w.phase.at else w.clock) {
      assert q in w.Pending();
    }
  }

  lemma {:induction false} StepKeepsInv(c: Config, w: World, a: Action)
    requires Inv(c, w) && Enabled(c, w, a)
    ensures Inv(c, Apply(c, w, a))
  {
    match a
    case Mark(profile) => MarkKeepsInv(c, w, profile);
    case List(now, rows) => ListKeepsInv(c, w, now, rows);
    case Answered(at) =>
      forall p | p in w.phase.batch ensures MayTry(c, w.ids[p], at) {
        assert p in w.Pending();
        LaterIsDue(w.ids[p], w.clock, at);
      }
    case Ingest(p, t) => IngestKeepsInv(c, w, p, t);
    case Restart =>
  }

  lemma {:induction false} RunKeepsInv(c: Config, w: World, actions: seq<Action>)
    requires Inv(c, w)
    ensures RunFrom(c, w, actions).Some? ==> Inv(c, RunFrom(c, w, actions).value)
  {
    if |actions| > 0 && RunFrom(c, w, actions).Some? {
      RunKeepsInv(c, w, actions[..|actions| - 1]);
      StepKeepsInv(c, RunFrom(c, w, actions[..|actions| - 1]).value, actions[|actions| - 1]);
    }
  }

  // ---------- what the rows mean ----------

  /** After any interleaving of ingest, refresh cycles and restarts, an identity has been tried
      exactly if it is not pending; its retry count is the number of misses since its last hit,
      whose profile it shows; and fetched rows were fetched at their last attempt. */
  lemma {:induction false} IdentityHistory(c: Config, actions: seq<Action>, p: string)
    requires RunFrom(c, START, actions).Some? && p in RunFrom(c, START, actions).value.ids
    ensures var w := RunFrom(c, START, actions).value;
            RowTellsHistory(w.ids[p], w.log, p)
  {
    RunKeepsInv(c, START, actions);
  }

  lemma {:induction false} LogGrows(c: Config, w: World, actions: seq<Action>)
    requires RunFrom(c, w, actions).Some?
    ensures w.log <= RunFrom(c, w, actions).value.log
    ensures w.ids.Keys <= RunFrom(c, w, actions).value.ids.Keys
    ensures w.clock <= RunFrom(c, w, actions).value.clock
  {
    if |actions| > 0 { LogGrows(c, w, actions[..|actions| - 1]); }
  }

  lemma {:induction false} AttemptStays(log: seq<Attempt>, longer: seq<Attempt>, p: string)
    requires log <= longer && LastAttempt(log, p).Some?
    ensures LastAttempt(longer, p).Some?
  {
    if |longer| > |log| { AttemptStays(log, longer[..|longer| - 1], p); } else { assert log == longer; }
  }

  /** No identity returns to pending. */
  lemma {:induction false} NeverPendingAgain(c: Config, w: World, actions: seq<Action>, p: string)
    requires Inv(c, w) && p in w.ids && w.ids[p].status != Pending
    requires RunFrom(c, w, actions).Some?
    ensures p in RunFrom(c, w, actions).value.ids && RunFrom(c, w, actions).value.ids[p].status != Pending
  {
    RunKeepsInv(c, w, actions);
    LogGrows(c, w, actions);
    AttemptStays(w.log, RunFrom(c, w, actions).value.log, p);
  }

  // ---------- backoff ----------

  lemma {:induction false} SpanClosedForm(k: nat)
    requires k >= 1
    ensures Span(k) == if k <= 10 then 60 * (Power2(k - 1) - 1) else 30660 + 21600 * (k - 10)
  {
    if k > 1 {
      SpanClosedForm(k - 1);
      if k <= 10 {
        PowersSmall(k - 1);
      } else {
        PowersLarge(k - 1);
        assert k == 11 ==> Power2(9) == 512 by { PowersSmall(9); }
      }
    }
  }

  lemma {:induction false} PowersSmall(n: nat)
    requires 1 <= n <= 9
    ensures Delay(n) == 60 * Power2(n - 1) && Power2(n) == 2 * Power2(n - 1)
    ensures n == 9 ==> Power2(n) == 512
  {
    assert Power2(2) == 4 && Power2(3) == 8;
    assert Power2(5) == 32 && Power2(6) == 64;
    assert Power2(8) == 256;
  }

  lemma {:induction false} PowersLarge(n: nat)
    requires n >= 10
    ensures Delay(n) == BACKOFF_CAP_S
  {
    PowerGrows(10, Min(n, 20));
    PowersSmall(9);
  }

  lemma {:induction false} PowerGrows(m: nat, n: nat)
    requires m <= n
    ensures Power2(m) <= Power2(n)
  {
    if m < n { PowerGrows(m, n - 1); }
  }

  /** Every attempt of every run keeps its distance from the one before. */
  lemma {:induction false} AttemptsAreSpaced(c: Config, actions: seq<Action>)
    requires RunFrom(c, START, actions).Some?
    ensures WellSpaced(c, RunFrom(c, START, actions).value.log)
  {
    RunKeepsInv(c, START, actions);
  }

  lemma {:induction false} SpacedMisses(c: Config, log: seq<Attempt>, p: string)
    requires WellSpaced(c, log) && TrailingMisses(log, p) >= 1
    ensures LastAttempt(log, p).Some? && LastAttempt(log, p).value.found.None?
    ensures LastAttempt(log, p).value.at >= RunStart(log, p) + Span(TrailingMisses(log, p))
  {
    var front, last := log[..|log| - 1], log[|log| - 1];
    if last.pubkey != p || TrailingMisses(front, p) >= 1 { SpacedMisses(c, front, p); }
  }

  /** k misses in a row, counted since the last hit or the first sight, span at least
      60 * (2^(k-1) - 1) seconds up to the tenth and 21600 more for each further one. */
  lemma {:induction false} BackoffBound(c: Config, actions: seq<Action>, p: string)
    requires RunFrom(c, START, actions).Some? && TrailingMisses(RunFrom(c, START, actions).value.log, p) >= 1
    ensures var log := RunFrom(c, START, actions).value.log;
            var k := TrailingMisses(log, p);
            && LastAttempt(log, p).Some?
            && LastAttempt(log, p).value.at - RunStart(log, p)
               >= if k <= 10 then 60 * (Power2(k - 1) - 1) else 30660 + 21600 * (k - 10)
  {
    var log := RunFrom(c, START, actions).value.log;
    AttemptsAreSpaced(c, actions);
    SpacedMisses(c, log, p);
    SpanClosedForm(TrailingMisses(log, p));
  }

  // ---------- when a row is due ----------

  /** Seconds to wait after none to nine misses in a row. */
  const WAITS := [0, 60, 120, 240, 480, 960, 1920, 3840, 7680, 15360]

  /** From the tenth miss on it is six hours. */
  function WaitAfter(misses: nat): int { if misses < 10 then WAITS[misses] else 21600 }

  lemma {:induction false} DelayIsWait(k: nat)
    requires k >= 1
    ensures Delay(k) == WaitAfter(k)
  {
    if k < 10 {
      PowersSmall(k);
      assert Power2(0) == 1 && Power2(1) == 2 && Power2(2) == 4;
      assert Power2(3) == 8 && Power2(4) == 16 && Power2(5) == 32;
      assert Power2(6) == 64 && Power2(7) == 128 && Power2(8) == 256;
    } else {
      PowersLarge(k);
    }
  }

  /** A row is due if it was never tried, did not miss, or has waited that long since its last attempt. */
  predicate IsDueAt(id: Identity, now: int) {
    id.lastAttemptAt.None? || id.retryCount == 0 || now >= id.lastAttemptAt.value + WaitAfter(id.retryCount)
  }

  lemma {:induction false} DueExactly(id: Identity, now: int)
    ensures IsDue(id, now) <==> IsDueAt(id, now)
  {
    if id.retryCount > 0 { DelayIsWait(id.retryCount); }
  }

  // ---------- pending first ----------

  lemma {:induction false} PickedPrefix(ids: Identities, rows: seq<string>, i: nat, limit: nat, now: int)
    requires i <= |rows|
    requires forall k :: 0 <= k < |rows| ==> rows[k] in ids
    ensures Picked(ids, rows[..i], limit, now) <= Picked(ids, rows, limit, now)
  {
    if i == |rows| {
      assert rows[..i] == rows;
    } else {
      assert rows[..|rows| - 1][..i] == rows[..i];
      PickedPrefix(ids, rows[..|rows| - 1], i, limit, now);
    }
  }

  lemma {:induction false} PickedWhenRoom(ids: Identities, rows: seq<string>, i: nat, limit: nat, now: int)
    requires forall k :: 0 <= k < |rows| ==> rows[k] in ids
    requires i < |rows| && IsDue(ids[rows[i]], now) && |Picked(ids, rows[..i], limit, now)| < limit
    ensures rows[i] in Picked(ids, rows, limit, now)
  {
    assert rows[..i + 1][..i] == rows[..i];
    var before := Picked(ids, rows[..i], limit, now);
    PickedPrefix(ids, rows, i + 1, limit, now);
    assert Picked(ids, rows[..i + 1], limit, now) == before + [rows[i]];
    assert (before + [rows[i]])[|before|] in Picked(ids, rows, limit, now);
  }

  /** A due row that was not picked left the batch full before its turn. */
  lemma {:induction false} PassedOverWhenFull(ids: Identities, rows: seq<string>, i: nat, limit: nat, now: int)
    requires forall k :: 0 <= k < |rows| ==> rows[k] in ids
    requires i < |rows| && IsDue(ids[rows[i]], now) && rows[i] !in Picked(ids, rows, limit, now)
    ensures |Picked(ids, rows[..i], limit, now)| == limit
    ensures Picked(ids, rows, limit, now) == Picked(ids, rows[..i], limit, now)
  {
    if |Picked(ids, rows[..i], limit, now)| < limit {
      PickedWhenRoom(ids, rows, i, limit, now);
    } else {
      PickedIsFull(ids, rows, i, limit, now);
    }
  }

  /** A batch never passes over a pending identity for one that is not pending, nor for a pending
      one seen less recently. */
  lemma {:induction false} PendingComeFirst(c: Config, ids: Identities, now: int, rows: seq<string>, p: string,
      q: string)
    requires IsQueryAnswer(ids, now - c.staleAfter, c.limit * 5, rows)
    requires p in ids && ids[p].status == Pending && ids[p].lastAttemptAt.None?
    requires q in Picked(ids, rows, c.limit, now) && q in ids
    requires ids[q].status != Pending || (ids[q].lastAttemptAt.None? && ids[q].lastSeenAt < ids[p].lastSeenAt)
    ensures p in Picked(ids, rows, c.limit, now)
  {
    PickedFrom(ids, rows, c.limit, now);
    assert q in rows && SortsBefore(ids[p], ids[q]);
    var i :| 0 <= i < |rows| && rows[i] == p;
    PickedFrom(ids, rows[..i], c.limit, now);
    assert forall k :: 0 <= k < i ==> rows[k] != q;
    if p !in Picked(ids, rows, c.limit, now) { PassedOverWhenFull(ids, rows, i, c.limit, now); }
  }
}
