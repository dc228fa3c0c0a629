/** What the tables say in terms of the events delivered: which event each stored version is, and
    which of them a design's row and its listing put first. */
module StoredEvents {
  import opened Text
  import opened Events
  import opened Tables
  import opened Reducer
  import opened ReducerRuns
  import opened VersionOrder

  // ---------- a version is a delivered event ----------

  /** The row holds, column by column, the event of this delivery. */
  predicate Records(v: Version, env: Envelope) {
    var e := env.event;
    && e.id == Str(v.eventId) && e.pubkey == Str(v.pubkey) && FirstValue(e.tags, "d") == Some(v.designId)
    && e.kind.IsInt() && v.kind == e.kind.AsInt() && e.createdAt.IsInt() && v.createdAt == e.createdAt.AsInt()
    && v.name == FirstValue(e.tags, "name") && v.format == FirstValue(e.tags, "format")
    && v.sha256 == FirstValue(e.tags, "sha256") && v.url == FirstValue(e.tags, "url")
    && (if e.content.Str? then v.content == Some(e.content.text) else v.content.None?)
    && v.raw == e && v.receivedAt == env.receivedAt
  }

  predicate IsRecorded(v: Version, envs: seq<Envelope>) { exists j :: 0 <= j < |envs| && Records(v, envs[j]) }

  lemma {:induction false} LogGrowsBy(db: Db, env: Envelope)
    ensures Reduce(db, env).db.versions == db.versions
         || (IsIngestible(env.event) && Reduce(db, env).db.versions == db.versions + [VersionOf(env)])
  {
    if IsTaken(db, env.event) { TakenIsCommitted(db, env); } else { UntakenChangesNothing(db, env); }
  }

  lemma {:induction false} RecordsItself(env: Envelope)
    requires IsIngestible(env.event)
    ensures Records(VersionOf(env), env)
  {
  }

  /** Every stored version is the event of a delivery, with the time of that delivery. */
  lemma {:induction false} VersionsAreEvents(envs: seq<Envelope>)
    ensures forall v :: v in Run(EMPTY_DB, envs).versions ==> IsRecorded(v, envs)
  {
    if |envs| > 0 {
      var front, env := envs[..|envs| - 1], envs[|envs| - 1];
      VersionsAreEvents(front);
      LogGrowsBy(Run(EMPTY_DB, front), env);
      forall v | v in Run(EMPTY_DB, envs).versions ensures IsRecorded(v, envs) {
        if v in Run(EMPTY_DB, front).versions {
          var j :| 0 <= j < |front| && Records(v, front[j]);
          assert envs[j] == front[j];
        } else {
          RecordsItself(env);
        }
      }
    }
  }

  // ---------- the row ----------

  /** The later event wins; of events as late, the one with the greater id. */
  ghost predicate Beats(v: Version, w: Version) {
    w.createdAt < v.createdAt || (w.createdAt == v.createdAt && exists i: nat :: PrecedesAt(w.eventId, v.eventId, i))
  }

  lemma {:induction false} SupersedesIsBeats(v: Version, w: Version)
    ensures Supersedes(v, w) <==> Beats(v, w)
  {
    LessMeaning(w.eventId, v.eventId);
  }

  ghost predicate Shows(row: Current, v: Version) {
    && row.latestEventId == v.eventId && row.latestPublishedAt == v.createdAt && row.name == v.name
    && row.format == v.format && row.sha256 == v.sha256 && row.url == v.url && row.content == v.content
    && forall key :: Lookup(row.tags, key)
                   == if key in {"d", "name", "format", "sha256", "url"} then [] else TagValues(v.raw.tags, key)
  }

  ghost predicate ShowsBest(row: Current, vs: seq<Version>, v: Version) {
    v in vs && Shows(row, v) && forall w :: w in vs && w != v ==> Beats(v, w)
  }

  lemma {:induction false} AgreeingRowShowsBest(db: Db, key: Key) returns (v: Version)
    requires ViewAgrees(db) && key in db.designs
    ensures ShowsBest(db.designs[key], Of(db.versions, key), v)
  {
    var vs := Of(db.versions, key);
    assert IsView(db, key);
    v :| IsMaximum(vs, v) && RowShows(db.designs[key], v);
    forall tag ensures Lookup(db.designs[key].tags, tag)
        == if tag in {"d", "name", "format", "sha256", "url"} then [] else TagValues(v.raw.tags, tag)
    {
      OptionalTagsMeaning(v.raw.tags, tag);
    }
    forall w | w in vs && w != v ensures Beats(v, w) { SupersedesIsBeats(v, w); }
  }

  /** In every reachable state a design's row shows one of its stored events, and that one beats all
      the others: it was created later, or as late and has the greater id. */
  lemma {:induction false} RowShowsBest(envs: seq<Envelope>, key: Key)
    requires key in Run(EMPTY_DB, envs).designs
    ensures var db := Run(EMPTY_DB, envs);
            exists v :: ShowsBest(db.designs[key], Of(db.versions, key), v) && IsRecorded(v, envs)
  {
    ViewAgreement(envs);
    VersionsAreEvents(envs);
    var v := AgreeingRowShowsBest(Run(EMPTY_DB, envs), key);
  }

  // ---------- the listing ----------

  /** A design's versions are listed with the winner first, each beating all after it. */
  lemma {:induction false} ListedBestFirst(vs: seq<Version>, i: nat, j: nat)
    requires UniqueIds(vs) && i < j < |vs|
    ensures Beats(NewestFirst(vs)[i], NewestFirst(vs)[j])
  {
    NewestFirstSorted(vs);
    SupersedesIsBeats(NewestFirst(vs)[i], NewestFirst(vs)[j]);
  }

  // ---------- the identities ----------

  /** When deliveries of a key's events came, whatever else was wrong with them: an event needs an
      id and a pubkey that can be encoded. */
  function SeenAt(envs: seq<Envelope>, p: string): seq<int> {
    if |envs| == 0 then []
    else
      var last := envs[|envs| - 1];
      SeenAt(envs[..|envs| - 1], p)
      + if last.event.id.Str? && last.event.pubkey == Str(p) && !last.event.surrogates.InPubkey?
        then [last.receivedAt] else []
  }

  /** A key is known exactly if one of its events was delivered, and its row dates the first and the
      last of these. */
  lemma {:induction false} SeenTimes(envs: seq<Envelope>, p: string)
    ensures var ids, seen := Run(EMPTY_DB, envs).identities, SeenAt(envs, p);
            && (p in ids <==> |seen| > 0)
            && (p in ids ==> ids[p].firstSeenAt == seen[0] && ids[p].lastSeenAt == seen[|seen| - 1])
  {
    if |envs| > 0 {
      SeenTimes(envs[..|envs| - 1], p);
      ReduceSeesIdentity(Run(EMPTY_DB, envs[..|envs| - 1]), envs[|envs| - 1]);
    }
  }
}
