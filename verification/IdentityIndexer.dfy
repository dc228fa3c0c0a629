/** One cycle of the profile refresher as the program runs it, and its place among the
    interleaved steps. */
module IdentityIndexer {
  import opened Text
  import opened Events
  import opened Tables
  import opened Reducer
  import ReducerRuns
  import opened ProfileMerge
  import opened IdentityRuns

  /** One answer written back: the newest profile found, or one more miss. */
  function WriteKey(ids: Identities, p: string, answers: Candidates, at: int): Identities {
    if p in answers then SetProfile(ids, p, answers[p].profile, at) else SetMiss(ids, p, at)
  }

  function WriteBack(ids: Identities, batch: seq<string>, answers: Candidates, at: int): Identities {
    if |batch| == 0 then ids
    else WriteKey(WriteBack(ids, batch[..|batch| - 1], answers, at), batch[|batch| - 1], answers, at)
  }

  predicate CanWrite(answers: Candidates, p: string) { p in answers ==> !answers[p].profile.surrogates }

  /** How many keys of the batch are written back before one whose profile cannot be bound. */
  function Written(batch: seq<string>, answers: Candidates): (n: nat)
    ensures n <= |batch|
    ensures forall i :: 0 <= i < n ==> CanWrite(answers, batch[i])
    ensures n < |batch| ==> !CanWrite(answers, batch[n])
  {
    if |batch| == 0 || !CanWrite(answers, batch[0]) then 0 else 1 + Written(batch[1..], answers)
  }

  lemma {:induction false} WrittenIs(batch: seq<string>, answers: Candidates, n: nat)
    requires n <= |batch| && (forall i :: 0 <= i < n ==> CanWrite(answers, batch[i]))
    requires n < |batch| ==> !CanWrite(answers, batch[n])
    ensures Written(batch, answers) == n
  {
  }

  class Refresher {
    const store: SqliteStore
    const batchSize: nat
    const staleAfter: int

    constructor (store: SqliteStore, batchSize: int, staleAfter: int)
      ensures this.store == store
      ensures this.batchSize >= 1 && (batchSize >= 1 ==> this.batchSize == batchSize)
      ensures this.staleAfter >= 0 && (staleAfter >= 0 ==> this.staleAfter == staleAfter)
    {
      this.store := store;
      this.batchSize := if batchSize < 1 then 1 else batchSize;
      this.staleAfter := if staleAfter < 0 then 0 else staleAfter;
    }

    /** `rows` is what the selection query returned, `relays` what each relay sent before it was
        done, and `attemptedAt` the clock after the last of them. */
    method RunCycle(now: int, rows: seq<string>, relays: seq<seq<Event>>, parse: Parser, attemptedAt: int)
      returns (fetched: nat, missed: nat, raised: bool)
      requires batchSize >= 1
      requires IsQueryAnswer(store.identities, now - staleAfter, batchSize * 5, rows)
      modifies store`identities
      ensures var batch := Picked(old(store.identities), rows, batchSize, now);
              var n := Written(batch, Merge(relays, parse));
              && store.identities == WriteBack(old(store.identities), batch[..n], Merge(relays, parse), attemptedAt)
              && fetched + missed == n && (raised <==> n < |batch|)
    {
      var pubkeys := store.ListIdentityPubkeysForRefresh(batchSize, staleAfter, now, rows);
      var profiles := MergeRelays(relays, parse);
      fetched, missed, raised := WriteAnswers(pubkeys, profiles, attemptedAt);
    }

    method WriteAnswers(pubkeys: seq<string>, profiles: Candidates, attemptedAt: int)
      returns (fetched: nat, missed: nat, raised: bool)
      modifies store`identities
      ensures var n := Written(pubkeys, profiles);
              && store.identities == WriteBack(old(store.identities), pubkeys[..n], profiles, attemptedAt)
              && fetched + missed == n && (raised <==> n < |pubkeys|)
    {
      fetched, missed, raised := 0, 0, false;
      ghost var before := store.identities;
      for i := 0 to |pubkeys|
        invariant store.identities == WriteBack(before, pubkeys[..i], profiles, attemptedAt)
        invariant fetched + missed == i && !raised
        invariant forall j :: 0 <= j < i ==> CanWrite(profiles, pubkeys[j])
      {
        assert pubkeys[..i + 1][..i] == pubkeys[..i];
        raised := WriteAnswer(pubkeys[i], profiles, attemptedAt);
        if raised {
          WrittenIs(pubkeys, profiles, i);
          return;
        }
        if pubkeys[i] in profiles { fetched := fetched + 1; } else { missed := missed + 1; }
      }
      WrittenIs(pubkeys, profiles, |pubkeys|);
    }

    method WriteAnswer(pubkey: string, answers: Candidates, at: int) returns (raised: bool)
      modifies store`identities
      ensures raised <==> !CanWrite(answers, pubkey)
      ensures store.identities
           == if raised then old(store.identities) else WriteKey(old(store.identities), pubkey, answers, at)
    {
      raised := false;
      if pubkey !in answers {
        store.MarkIdentityFetchMiss(pubkey, at);
      } else {
        var ok := store.UpdateIdentityProfile(pubkey, answers[pubkey].profile, at);
        raised := !ok;
      }
    }
  }

  // ---------- the reducer's deliveries are steps of the machine ----------

  /** Whatever becomes of a delivered event, the identities table changes as the machine's Ingest
      step says if it carries an id and a key that can be encoded, and otherwise not at all. */
  lemma {:induction false} DeliveryIsStep(c: Config, w: World, db: Db, env: Envelope)
    requires db.identities == w.ids
    ensures Reduce(db, env).db.identities
         == if IsSeen(env.event)
            then Apply(c, w, Ingest(env.event.pubkey.text, env.receivedAt)).ids
            else w.ids
  {
    ReducerRuns.ReduceSeesIdentity(db, env);
  }

  // ---------- a cycle is a run of the machine ----------

  function AnswerFor(answers: Candidates, p: string): Option<Profile> {
    if p in answers then Some(answers[p].profile) else None
  }

  function Marks(batch: seq<string>, answers: Candidates): (r: seq<Action>)
    ensures |r| == |batch| && forall i :: 0 <= i < |batch| ==> r[i] == Mark(AnswerFor(answers, batch[i]))
  {
    seq(|batch|, i requires 0 <= i < |batch| => Mark(AnswerFor(answers, batch[i])))
  }

  lemma {:induction false} RunAppend(c: Config, w: World, actions: seq<Action>, a: Action)
    ensures RunFrom(c, w, actions + [a])
         == match RunFrom(c, w, actions)
            case None => None
            case Some(v) => if Enabled(c, v, a) then Some(Apply(c, v, a)) else None
  {
    assert (actions + [a])[..|actions + [a]| - 1] == actions;
  }

  lemma {:induction false} MarkWrites(c: Config, v: World, rest: seq<string>, answers: Candidates, at: int)
    requires |rest| > 0 && v.phase == Marking(rest, at) && CanWrite(answers, rest[0])
    ensures Enabled(c, v, Mark(AnswerFor(answers, rest[0])))
    ensures var w := Apply(c, v, Mark(AnswerFor(answers, rest[0])));
            w.ids == WriteKey(v.ids, rest[0], answers, at) && w.phase == AfterMark(rest[1..], at)
  {
  }

  lemma {:induction false} MarksLast(batch: seq<string>, answers: Candidates, n: nat)
    requires 0 < n <= |batch|
    ensures Marks(batch[..n], answers) == Marks(batch[..n - 1], answers) + [Mark(AnswerFor(answers, batch[n - 1]))]
  {
  }

  lemma {:induction false} RestOf(batch: seq<string>, n: nat)
    requires 0 < n <= |batch|
    ensures batch[n - 1..][1..] == batch[n..] && batch[n - 1..][0] == batch[n - 1] && |batch[n - 1..]| > 0
    ensures n == 1 ==> batch[n - 1..] == batch
  {
  }

  lemma {:induction false} WriteBackLast(ids: Identities, batch: seq<string>, answers: Candidates, at: int, n: nat)
    requires 0 < n <= |batch|
    ensures WriteBack(ids, batch[..n], answers, at)
         == WriteKey(WriteBack(ids, batch[..n - 1], answers, at), batch[n - 1], answers, at)
  {
    assert batch[..n][..n - 1] == batch[..n - 1];
  }

  /** After n of the marks the first n keys of the batch are written back. */
  lemma {:induction false} MarksWriteBack(c: Config, w: World, batch: seq<string>, answers: Candidates, at: int, n: nat)
    requires w.phase == Marking(batch, at) && n <= Written(batch, answers)
    ensures RunFrom(c, w, Marks(batch[..n], answers)).Some?
    ensures var v := RunFrom(c, w, Marks(batch[..n], answers)).value;
            && v.ids == WriteBack(w.ids, batch[..n], answers, at)
            && v.phase == if n == 0 then w.phase else AfterMark(batch[n..], at)
  {
    if n > 0 {
      MarksWriteBack(c, w, batch, answers, at, n - 1);
      MarksLast(batch, answers, n);
      RunAppend(c, w, Marks(batch[..n - 1], answers), Mark(AnswerFor(answers, batch[n - 1])));
      RestOf(batch, n);
      WriteBackLast(w.ids, batch, answers, at, n);
      MarkWrites(c, RunFrom(c, w, Marks(batch[..n - 1], answers)).value, batch[n - 1..], answers, at);
    }
  }

  /** What RunCycle leaves in the table is what the machine does in one undisturbed cycle, so
      everything proved of the machine's runs holds of it. The cycle is complete exactly if no
      profile of the batch refuses to be bound; otherwise the refresher has died in its middle. */
  lemma {:induction false} CycleIsRun(c: Config, w: World, now: int, rows: seq<string>, answers: Candidates, at: int)
    requires c.Valid() && w.phase.Idle? && Enabled(c, w, Action.List(now, rows)) && at >= now
    requires |Picked(w.ids, rows, c.limit, now)| > 0
    ensures var batch := Picked(w.ids, rows, c.limit, now);
            var n, listed := Written(batch, answers), Apply(c, w, Action.List(now, rows));
            && Enabled(c, listed, Answered(at))
            && var asked := Apply(c, listed, Answered(at));
               var done := RunFrom(c, asked, Marks(batch[..n], answers));
               && done.Some? && done.value.ids == WriteBack(w.ids, batch[..n], answers, at)
               && (done.value.phase.Idle? <==> n == |batch|)
  {
    var batch := Picked(w.ids, rows, c.limit, now);
    var asked := Apply(c, Apply(c, w, Action.List(now, rows)), Answered(at));
    MarksWriteBack(c, asked, batch, answers, at, Written(batch, answers));
  }
}
