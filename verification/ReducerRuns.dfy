/** What holds of the tables after any number of deliveries: the current-design table is a
    query over the version log, whatever the order, the repetitions and the restarts. */
module ReducerRuns {
  import opened Text
  import opened Events
  import opened Tables
  import opened Reducer

  /** Deliveries folded one after the other. The reducer keeps nothing between deliveries but
      its counters, so a restart between two of them leaves no trace here. */
  function Run(db: Db, envs: seq<Envelope>): Db {
    if |envs| == 0 then db else Reduce(Run(db, envs[..|envs| - 1]), envs[|envs| - 1]).db
  }

  // ---------- the simple definition ----------

  predicate UniqueIds(vs: seq<Version>) {
    forall i, j :: 0 <= i < j < |vs| ==> vs[i].eventId != vs[j].eventId
  }

  ghost predicate IsMaximum(vs: seq<Version>, v: Version) {
    v in vs && forall w :: w in vs && w != v ==> Supersedes(v, w)
  }

  predicate RowShows(row: Current, v: Version) {
    && row.latestEventId == v.eventId && row.latestPublishedAt == v.createdAt
    && row.name == v.name && row.format == v.format && row.sha256 == v.sha256 && row.url == v.url
    && row.content == v.content && row.tags == OptionalTags(v.raw.tags)
  }

  /** The row of a key as a query over its versions: counted, the greatest of them shown, and
      the first and last of them in order of arrival dating it. */
  ghost predicate IsViewOf(vs: seq<Version>, row: Option<Current>, key: Key) {
    && (row.Some? <==> |vs| > 0)
    && (row.Some? ==>
         && row.value.DesignKey() == key
         && row.value.versionCount == |vs|
         && (exists v :: IsMaximum(vs, v) && RowShows(row.value, v))
         && row.value.firstPublishedAt == vs[0].createdAt && row.value.firstSeenAt == vs[0].receivedAt
         && row.value.updatedAt == vs[|vs| - 1].receivedAt)
  }

  ghost predicate IsView(db: Db, key: Key) {
    IsViewOf(Of(db.versions, key), Find(db.designs, key), key)
  }

  ghost predicate ViewAgrees(db: Db) {
    UniqueIds(db.versions) && forall key :: IsView(db, key)
  }

  // ---------- the log ----------

  lemma {:induction false} OfHolds(versions: seq<Version>, v: Version)
    ensures v in versions ==> v in Of(versions, v.DesignKey())
  {
    if |versions| > 0 {
      var front := versions[..|versions| - 1];
      OfHolds(front, v);
      assert versions == front + [versions[|versions| - 1]];
    }
  }

  lemma {:induction false} OfUnique(versions: seq<Version>, key: Key)
    requires UniqueIds(versions)
    ensures UniqueIds(Of(versions, key))
  {
    if |versions| > 0 {
      var front := versions[..|versions| - 1];
      OfUnique(front, key);
      forall v | v in Of(front, key) ensures v.eventId != versions[|front|].eventId {
        var i :| 0 <= i < |front| && front[i] == v;
        assert versions[i] == v;
      }
    }
  }

  lemma {:induction false} OfAppend(versions: seq<Version>, v: Version, key: Key)
    ensures Of(versions + [v], key) == Of(versions, key) + if v.DesignKey() == key then [v] else []
  {
    assert (versions + [v])[..|versions + [v]| - 1] == versions;
  }

  lemma {:induction false} SupersedesTransitive(u: Version, v: Version, w: Version)
    requires Supersedes(u, v) && Supersedes(v, w)
    ensures Supersedes(u, w)
  {
    if u.createdAt == v.createdAt && v.createdAt == w.createdAt { LessTransitive(w.eventId, v.eventId, u.eventId); }
  }

  lemma {:induction false} SupersedesTotal(v: Version, w: Version)
    ensures v.eventId != w.eventId ==> Supersedes(v, w) || Supersedes(w, v)
    ensures Supersedes(v, w) ==> !Supersedes(w, v)
  {
    LessTotal(v.eventId, w.eventId);
    if Less(v.eventId, w.eventId) && Less(w.eventId, v.eventId) {
      LessTransitive(v.eventId, w.eventId, v.eventId);
      LessIrreflexive(v.eventId);
    }
  }

  /** The incremental winner rule yields the maximum of the extended log. */
  lemma {:induction false} MaximumStep(vs: seq<Version>, best: Version, v: Version)
    requires IsMaximum(vs, best)
    requires forall w :: w in vs ==> w.eventId != v.eventId
    ensures IsMaximum(vs + [v], if Supersedes(v, best) then v else best)
  {
    SupersedesTotal(v, best);
    if Supersedes(v, best) {
      forall w | w in vs ensures Supersedes(v, w) {
        if w != best { SupersedesTransitive(v, best, w); }
      }
    }
  }

  /** One version more keeps the row of its design a view. */
  lemma {:induction false} NextRowIsView(vs: seq<Version>, row: Option<Current>, v: Version)
    requires IsViewOf(vs, row, v.DesignKey())
    requires forall w :: w in vs ==> w.eventId != v.eventId
    ensures IsViewOf(vs + [v], Some(NextCurrent(row, v)), v.DesignKey())
    ensures exists w :: w in vs + [v] && w.eventId == NextCurrent(row, v).latestEventId
  {
    if |vs| == 0 {
      assert IsMaximum(vs + [v], v) && RowShows(NextCurrent(row, v), v);
    } else {
      var best :| IsMaximum(vs, best) && RowShows(row.value, best);
      MaximumStep(vs, best, v);
      var winner := if Supersedes(v, best) then v else best;
      assert IsMaximum(vs + [v], winner) && RowShows(NextCurrent(row, v), winner);
      assert winner in vs + [v];
    }
  }

  lemma {:induction false} FreshInDesign(versions: seq<Version>, eventId: string, key: Key)
    requires !IsStored(versions, eventId)
    ensures forall w :: w in Of(versions, key) ==> w.eventId != eventId
  {
    forall w | w in Of(versions, key) ensures w.eventId != eventId {
      if w.eventId == eventId { InLogIsStored(versions, w); }
    }
  }

  /** The upsert passes the foreign key check. */
  lemma {:induction false} CommitReduces(db: Db, v: Version)
    requires IsView(db, v.DesignKey()) && !IsStored(db.versions, v.eventId) && IsBindable(v)
    ensures Commit(db, v).outcome.Reduced?
  {
    var vs := Of(db.versions, v.DesignKey());
    var row := Find(db.designs, v.DesignKey());
    FreshInDesign(db.versions, v.eventId, v.DesignKey());
    NextRowIsView(vs, row, v);
    var w :| w in vs + [v] && w.eventId == NextCurrent(row, v).latestEventId;
    assert w in db.versions + [v];
    InLogIsStored(db.versions + [v], w);
  }

  /** What a commit that goes through changes, design by design. */
  lemma {:induction false} CommitEffect(db: Db, v: Version, key: Key)
    requires Commit(db, v).outcome.Reduced?
    ensures var after := Commit(db, v).db;
            && after.versions == db.versions + [v] && after.identities == db.identities
            && Of(after.versions, key) == Of(db.versions, key) + (if key == v.DesignKey() then [v] else [])
            && Find(after.designs, key)
               == if key == v.DesignKey() then Some(NextCurrent(Find(db.designs, key), v)) else Find(db.designs, key)
  {
    OfAppend(db.versions, v, key);
  }

  lemma {:induction false} CommitKeepsView(db: Db, v: Version, key: Key)
    requires IsView(db, key) && IsView(db, v.DesignKey()) && !IsStored(db.versions, v.eventId) && IsBindable(v)
    ensures IsView(Commit(db, v).db, key)
  {
    CommitReduces(db, v);
    CommitEffect(db, v, key);
    if key == v.DesignKey() {
      FreshInDesign(db.versions, v.eventId, key);
      NextRowIsView(Of(db.versions, key), Find(db.designs, key), v);
    } else {
      assert Of(db.versions, key) + [] == Of(db.versions, key);
    }
  }

  lemma {:induction false} CommitKeepsViews(db: Db, v: Version)
    requires ViewAgrees(db) && !IsStored(db.versions, v.eventId) && IsBindable(v)
    ensures Commit(db, v).outcome.Reduced?
    ensures ViewAgrees(Commit(db, v).db)
  {
    assert IsView(db, v.DesignKey());
    CommitReduces(db, v);
    forall key ensures IsView(Commit(db, v).db, key) {
      assert IsView(db, key);
      CommitKeepsView(db, v, key);
    }
  }

  lemma {:induction false} StoredStays(versions: seq<Version>, v: Version, eventId: string)
    ensures IsStored(versions + [v], eventId) <==> IsStored(versions, eventId) || v.eventId == eventId
  {
    if IsStored(versions, eventId) {
      var i :| 0 <= i < |versions| && versions[i].eventId == eventId;
      assert (versions + [v])[i].eventId == eventId;
    }
    if v.eventId == eventId { assert (versions + [v])[|versions|].eventId == eventId; }
  }

  lemma {:induction false} InLogIsStored(versions: seq<Version>, w: Version)
    requires w in versions
    ensures IsStored(versions, w.eventId)
  {
    var i :| 0 <= i < |versions| && versions[i] == w;
  }

  /** The event is admitted and its row can be bound. */
  predicate IsTaken(db: Db, e: Event) { IsAdmitted(db, e) && IsStorable(e) }

  lemma {:induction false} TakenIsCommitted(db: Db, env: Envelope)
    requires IsTaken(db, env.event)
    ensures Reduce(db, env) == Commit(WithIdentity(db, env), VersionOf(env)) && IsBindable(VersionOf(env))
    ensures WithIdentity(db, env).versions == db.versions && WithIdentity(db, env).designs == db.designs
  {
  }

  lemma {:induction false} UntakenChangesNothing(db: Db, env: Envelope)
    requires !IsTaken(db, env.event)
    ensures Reduce(db, env).db == WithIdentity(db, env) && !Reduce(db, env).outcome.Reduced?
    ensures WithIdentity(db, env).versions == db.versions && WithIdentity(db, env).designs == db.designs
  {
  }

  lemma {:induction false} CommitKeys(db: Db, v: Version)
    ensures Commit(db, v).db.designs
         == if Commit(db, v).outcome.Reduced?
            then db.designs[v.DesignKey() := NextCurrent(Find(db.designs, v.DesignKey()), v)]
            else db.designs
  {
  }

  /** When a delivery raises: the event is not ingestible, its pubkey cannot be encoded, or it is
      admitted and its row cannot be bound. */
  predicate Raises(db: Db, e: Event) {
    !IsIngestible(e) || !IsSeen(e) || (IsAdmitted(db, e) && !IsStorable(e))
  }

  lemma {:induction false} ReduceKeepsViews(db: Db, env: Envelope)
    requires ViewAgrees(db)
    ensures ViewAgrees(Reduce(db, env).db)
    ensures Reduce(db, env).outcome.Raised? <==> Raises(db, env.event)
  {
    var seen := WithIdentity(db, env);
    assert ViewAgrees(seen) by {
      forall key ensures IsView(seen, key) { assert IsView(db, key); }
    }
    if IsAdmitted(db, env.event) && IsStorable(env.event) && !IsStored(seen.versions, VersionOf(env).eventId) {
      CommitKeepsViews(seen, VersionOf(env));
    }
  }

  lemma {:induction false} CommitKeepsIdentities(db: Db, v: Version)
    ensures Commit(db, v).db.identities == db.identities
  {
  }

  /** Whatever becomes of the event, its key is seen and no other identity is touched. */
  lemma {:induction false} ReduceSeesIdentity(db: Db, env: Envelope)
    ensures Reduce(db, env).db.identities == WithIdentity(db, env).identities
  {
    if IsIngestible(env.event) { CommitKeepsIdentities(WithIdentity(db, env), VersionOf(env)); }
  }

  /** The row a completed reduction leaves. */
  lemma {:induction false} ReducedRow(db: Db, env: Envelope)
    requires Reduce(db, env).outcome.Reduced?
    ensures IsIngestible(env.event)
    ensures Find(Reduce(db, env).db.designs, VersionOf(env).DesignKey())
         == Some(NextCurrent(Find(db.designs, VersionOf(env).DesignKey()), VersionOf(env)))
  {
    CommitEffect(WithIdentity(db, env), VersionOf(env), VersionOf(env).DesignKey());
  }

  predicate BecomesLatest(row: Option<Current>, v: Version) {
    row.Some? ==> IsNewer(v.createdAt, v.eventId, row.value.latestPublishedAt, row.value.latestEventId)
  }

  lemma {:induction false} LatestIsVisible(row: Option<Current>, v: Version)
    requires BecomesLatest(row, v)
    ensures RowShows(NextCurrent(row, v), v) && NextCurrent(row, v).DesignKey() == v.DesignKey()
  {
  }

  lemma {:induction false} RunKeepsViews(db: Db, envs: seq<Envelope>)
    requires ViewAgrees(db)
    ensures ViewAgrees(Run(db, envs))
  {
    if |envs| > 0 {
      RunKeepsViews(db, envs[..|envs| - 1]);
      ReduceKeepsViews(Run(db, envs[..|envs| - 1]), envs[|envs| - 1]);
    }
  }

  lemma {:induction false} EmptyAgrees()
    ensures ViewAgrees(EMPTY_DB)
  {
    forall key ensures IsView(EMPTY_DB, key) {}
  }

  /** View agreement, for every run from an empty store: a design has a row exactly when it has
      versions, and the row is the query over them. */
  lemma {:induction false} ViewAgreement(envs: seq<Envelope>)
    ensures ViewAgrees(Run(EMPTY_DB, envs))
  {
    EmptyAgrees();
    RunKeepsViews(EMPTY_DB, envs);
  }

  /** The foreign key of the current-design table holds in every such state. */
  lemma {:induction false} ForeignKeyHolds(envs: seq<Envelope>, key: Key)
    ensures var db := Run(EMPTY_DB, envs);
            key in db.designs ==>
              exists v :: v in Of(db.versions, key) && v.eventId == db.designs[key].latestEventId
  {
    var db := Run(EMPTY_DB, envs);
    ViewAgreement(envs);
    assert IsView(db, key);
    if key in db.designs {
      var v :| IsMaximum(Of(db.versions, key), v) && RowShows(db.designs[key], v);
      assert v in Of(db.versions, key);
    }
  }

  // ---------- every database the reducer has written ----------

  predicate NamesStored(db: Db, key: Key) {
    key in db.designs ==> db.designs[key].DesignKey() == key && IsStored(db.versions, db.designs[key].latestEventId)
  }

  /** What holds even after crashes: ids are unique and each current row is its key's and names a
      stored version. */
  ghost predicate IsSound(db: Db) {
    UniqueIds(db.versions) && forall key :: NamesStored(db, key)
  }

  lemma {:induction false} ViewsAreSound(db: Db)
    requires ViewAgrees(db)
    ensures IsSound(db)
  {
    forall key ensures NamesStored(db, key) {
      assert IsView(db, key);
      if key in db.designs {
        var v :| IsMaximum(Of(db.versions, key), v) && RowShows(db.designs[key], v);
        InLogIsStored(db.versions, v);
      }
    }
  }

  lemma {:induction false} AppendIsUnique(versions: seq<Version>, v: Version)
    requires UniqueIds(versions) && !IsStored(versions, v.eventId)
    ensures UniqueIds(versions + [v])
  {
  }

  /** The upsert that follows an append passes the foreign key check. */
  lemma {:induction false} SoundCommitReduces(db: Db, v: Version)
    requires NamesStored(db, v.DesignKey()) && !IsStored(db.versions, v.eventId) && IsBindable(v)
    ensures Commit(db, v).outcome.Reduced?
  {
    StoredStays(db.versions, v, v.eventId);
    if v.DesignKey() in db.designs { StoredStays(db.versions, v, db.designs[v.DesignKey()].latestEventId); }
  }

  lemma {:induction false} CommitNamesStored(db: Db, v: Version, key: Key)
    requires NamesStored(db, key) && NamesStored(db, v.DesignKey())
    requires !IsStored(db.versions, v.eventId) && IsBindable(v)
    ensures NamesStored(Commit(db, v).db, key)
  {
    SoundCommitReduces(db, v);
    CommitKeys(db, v);
    StoredStays(db.versions, v, v.eventId);
    if key in db.designs { StoredStays(db.versions, v, db.designs[key].latestEventId); }
  }

  lemma {:induction false} SoundCommit(db: Db, v: Version)
    requires IsSound(db) && !IsStored(db.versions, v.eventId) && IsBindable(v)
    ensures IsSound(Commit(db, v).db) && Commit(db, v).outcome.Reduced?
  {
    assert NamesStored(db, v.DesignKey());
    SoundCommitReduces(db, v);
    AppendIsUnique(db.versions, v);
    forall key ensures NamesStored(Commit(db, v).db, key) {
      assert NamesStored(db, key);
      CommitNamesStored(db, v, key);
    }
  }

  lemma {:induction false} SameTablesSound(db: Db, other: Db)
    requires IsSound(db) && other.versions == db.versions && other.designs == db.designs
    ensures IsSound(other)
  {
    forall key ensures NamesStored(other, key) { assert NamesStored(db, key); }
  }

  lemma {:induction false} ReduceKeepsSound(db: Db, env: Envelope)
    requires IsSound(db)
    ensures IsSound(Reduce(db, env).db)
  {
    if IsTaken(db, env.event) {
      TakenIsCommitted(db, env);
      SameTablesSound(db, WithIdentity(db, env));
      if !IsStored(db.versions, env.event.id.text) { SoundCommit(WithIdentity(db, env), VersionOf(env)); }
    } else {
      UntakenChangesNothing(db, env);
      SameTablesSound(db, WithIdentity(db, env));
    }
  }

  lemma {:induction false} RunKeepsSound(db: Db, envs: seq<Envelope>)
    requires IsSound(db)
    ensures IsSound(Run(db, envs))
  {
    if |envs| > 0 {
      RunKeepsSound(db, envs[..|envs| - 1]);
      ReduceKeepsSound(Run(db, envs[..|envs| - 1]), envs[|envs| - 1]);
    }
  }

  /** On every such database the reducer raises exactly for these events. */
  lemma {:induction false} RaisesExactly(db: Db, env: Envelope)
    requires IsSound(db)
    ensures Reduce(db, env).outcome.Raised? <==> Raises(db, env.event)
  {
    if IsTaken(db, env.event) {
      TakenIsCommitted(db, env);
      SameTablesSound(db, WithIdentity(db, env));
      if !IsStored(db.versions, env.event.id.text) { SoundCommit(WithIdentity(db, env), VersionOf(env)); }
    }
  }

  // ---------- how a design gets its row ----------

  /** An event that can start its design: the tables take it while they have no row of the design. */
  predicate Opens(e: Event, key: Key) {
    IsIngestible(e) && IsStorable(e) && KeyOf(e) == key && IsAdmittedAs(e, true)
  }

  predicate OpensAnew(db: Db, e: Event, key: Key) { Opens(e, key) && !IsStored(db.versions, e.id.text) }

  /** A design without a row gets one exactly from a new event that can start it. */
  lemma {:induction false} RowAppears(db: Db, env: Envelope, key: Key)
    requires key !in db.designs
    ensures key in Reduce(db, env).db.designs <==> OpensAnew(db, env.event, key)
  {
    if IsTaken(db, env.event) {
      TakenIsCommitted(db, env);
      CommitKeys(WithIdentity(db, env), VersionOf(env));
      StoredStays(db.versions, VersionOf(env), env.event.id.text);
    } else {
      UntakenChangesNothing(db, env);
    }
  }

  lemma {:induction false} TablesGrow(db: Db, env: Envelope, id: string)
    ensures db.designs.Keys <= Reduce(db, env).db.designs.Keys
    ensures IsStored(db.versions, id) ==> IsStored(Reduce(db, env).db.versions, id)
  {
    if IsTaken(db, env.event) {
      TakenIsCommitted(db, env);
      CommitKeys(WithIdentity(db, env), VersionOf(env));
      StoredStays(db.versions, VersionOf(env), id);
    } else {
      UntakenChangesNothing(db, env);
    }
  }

  lemma {:induction false} RunGrows(db: Db, envs: seq<Envelope>, id: string)
    ensures db.designs.Keys <= Run(db, envs).designs.Keys
    ensures IsStored(db.versions, id) ==> IsStored(Run(db, envs).versions, id)
  {
    if |envs| > 0 {
      RunGrows(db, envs[..|envs| - 1], id);
      TablesGrow(Run(db, envs[..|envs| - 1]), envs[|envs| - 1], id);
    }
  }

  /** So a design that gets its row during a run gets it from an event that could start it and was
      not stored before the run. */
  lemma {:induction false} RowMeansOpener(db: Db, envs: seq<Envelope>, key: Key) returns (i: nat)
    requires key !in db.designs && key in Run(db, envs).designs
    ensures i < |envs| && OpensAnew(db, envs[i].event, key)
  {
    var front, env := envs[..|envs| - 1], envs[|envs| - 1];
    if key in Run(db, front).designs {
      i := RowMeansOpener(db, front, key);
    } else {
      i := |front|;
      RowAppears(Run(db, front), env, key);
      RunGrows(db, front, env.event.id.text);
    }
  }
}
