/** Delivery order, repetition and restarts do not matter to designs published before schema
    1.1: the log and what the current rows show are functions of the set of events. */
module Convergence {
  import opened Text
  import opened Events
  import opened Tables
  import opened Reducer
  import opened ReducerRuns

  function EventsOf(envs: seq<Envelope>): set<Event> {
    set i | 0 <= i < |envs| :: envs[i].event
  }

  /** No two different events share an id. Ingest does not check that an id hashes its event. */
  ghost predicate Unambiguous(events: set<Event>) {
    forall e, f :: e in events && f in events && e.id == f.id ==> e == f
  }

  /** Outside schema 1.1 nothing an event says makes its admission depend on what came before. */
  predicate IsOrderFree(e: Event) { SchemaVersion(e.tags) != Some(SCHEMA_1_1) }

  /** An event of the design that the tables can hold. */
  predicate IsOfKey(e: Event, key: Key) { IsIngestible(e) && IsStorable(e) && KeyOf(e) == key }

  function EventsOfKey(envs: seq<Envelope>, key: Key): set<Event> {
    set e | e in EventsOf(envs) && IsOfKey(e, key)
  }

  /** The log row of an event, but for the time of receipt. */
  function Row(e: Event): Version
    requires IsIngestible(e)
  {
    VersionOf(Envelope("", 0, e))
  }

  /** A log row is the image of an event that was delivered. */
  ghost predicate ComesFrom(v: Version, events: set<Event>) {
    && v.raw in events && IsIngestible(v.raw) && IsStorable(v.raw) && SchemaVersion(v.raw.tags).Some?
    && v == Row(v.raw).(receivedAt := v.receivedAt)
  }

  /** The log only ever grows, by at most the row of the event delivered. */
  lemma {:induction false} LogStep(db: Db, env: Envelope)
    ensures Reduce(db, env).db.versions == db.versions
         || (IsTaken(db, env.event) && Reduce(db, env).db.versions == db.versions + [VersionOf(env)])
    ensures IsTaken(db, env.event) ==> IsStored(Reduce(db, env).db.versions, env.event.id.text)
  {
    if IsTaken(db, env.event) {
      TakenIsCommitted(db, env);
      StoredStays(db.versions, VersionOf(env), env.event.id.text);
    } else {
      UntakenChangesNothing(db, env);
    }
  }

  lemma {:induction false} StoredAfterStep(db: Db, env: Envelope, id: string)
    ensures IsStored(Reduce(db, env).db.versions, id) <==>
      IsStored(db.versions, id) || (IsTaken(db, env.event) && env.event.id.text == id)
  {
    LogStep(db, env);
    if Reduce(db, env).db.versions != db.versions { StoredStays(db.versions, VersionOf(env), id); }
  }

  lemma {:induction false} FrontEvents(envs: seq<Envelope>)
    requires |envs| > 0
    ensures EventsOf(envs) == EventsOf(envs[..|envs| - 1]) + {envs[|envs| - 1].event}
  {
    var front := envs[..|envs| - 1];
    assert forall i :: 0 <= i < |front| ==> front[i] == envs[i];
  }

  lemma {:induction false} LogComesFrom(envs: seq<Envelope>)
    ensures forall v :: v in Run(EMPTY_DB, envs).versions ==> ComesFrom(v, EventsOf(envs))
  {
    if |envs| > 0 {
      var front, env := envs[..|envs| - 1], envs[|envs| - 1];
      LogComesFrom(front);
      LogStep(Run(EMPTY_DB, front), env);
      FrontEvents(envs);
      forall v | v in Run(EMPTY_DB, envs).versions ensures ComesFrom(v, EventsOf(envs)) {
        if v in Run(EMPTY_DB, front).versions { assert ComesFrom(v, EventsOf(front)); }
      }
    }
  }

  /** Every delivered order-free event that is storable and has a readable schema version is in
      the log. */
  lemma {:induction false} LogHolds(envs: seq<Envelope>, e: Event)
    requires e in EventsOf(envs) && IsIngestible(e) && IsStorable(e) && IsOrderFree(e) && SchemaVersion(e.tags).Some?
    ensures IsStored(Run(EMPTY_DB, envs).versions, e.id.text)
  {
    var front, env := envs[..|envs| - 1], envs[|envs| - 1];
    FrontEvents(envs);
    StoredAfterStep(Run(EMPTY_DB, front), env, e.id.text);
    if e in EventsOf(front) {
      LogHolds(front, e);
    } else {
      LogStep(Run(EMPTY_DB, front), env);
    }
  }

  // ---------- two deliveries of the same events of a design ----------

  /** The two deliveries carry the same events of the design, none of them of schema 1.1, in any
      orders and repetitions and among any other events. */
  ghost predicate SameForDesign(a: seq<Envelope>, b: seq<Envelope>, key: Key) {
    && Unambiguous(EventsOf(a) + EventsOf(b))
    && EventsOfKey(a, key) == EventsOfKey(b, key)
    && forall e :: e in EventsOfKey(a, key) ==> IsOrderFree(e)
  }

  predicate SameBesidesReceipt(v: Version, w: Version) {
    v.(receivedAt := 0) == w.(receivedAt := 0)
  }

  function Ids(vs: seq<Version>): set<string> {
    set i | 0 <= i < |vs| :: vs[i].eventId
  }

  lemma {:induction false} IdsCount(vs: seq<Version>)
    requires UniqueIds(vs)
    ensures |Ids(vs)| == |vs|
  {
    if |vs| > 0 {
      var front, last := vs[..|vs| - 1], vs[|vs| - 1];
      IdsCount(front);
      assert forall i :: 0 <= i < |front| ==> front[i] == vs[i];
      assert Ids(vs) == Ids(front) + {last.eventId};
      assert last.eventId !in Ids(front);
    }
  }

  lemma {:induction false} VersionComesFrom(envs: seq<Envelope>, key: Key, v: Version)
    requires v in Of(Run(EMPTY_DB, envs).versions, key)
    ensures ComesFrom(v, EventsOf(envs)) && v.raw in EventsOfKey(envs, key)
  {
    LogComesFrom(envs);
    assert v in Run(EMPTY_DB, envs).versions;
  }

  /** Each version of the design in one log has its twin in the other. */
  lemma {:induction false} TwinInDesign(a: seq<Envelope>, b: seq<Envelope>, key: Key, v: Version) returns (w: Version)
    requires SameForDesign(a, b, key) && v in Of(Run(EMPTY_DB, a).versions, key)
    ensures w in Of(Run(EMPTY_DB, b).versions, key) && SameBesidesReceipt(v, w)
  {
    VersionComesFrom(a, key, v);
    assert v.raw in EventsOfKey(b, key);
    LogHolds(b, v.raw);
    LogComesFrom(b);
    var i :| 0 <= i < |Run(EMPTY_DB, b).versions| && Run(EMPTY_DB, b).versions[i].eventId == v.eventId;
    w := Run(EMPTY_DB, b).versions[i];
    assert ComesFrom(w, EventsOf(b));
    assert w.raw == v.raw;
    OfHolds(Run(EMPTY_DB, b).versions, w);
  }

  lemma {:induction false} SameIdsInDesign(a: seq<Envelope>, b: seq<Envelope>, key: Key)
    requires SameForDesign(a, b, key)
    ensures Ids(Of(Run(EMPTY_DB, a).versions, key)) <= Ids(Of(Run(EMPTY_DB, b).versions, key))
  {
    var vs := Of(Run(EMPTY_DB, a).versions, key);
    forall id | id in Ids(vs) ensures id in Ids(Of(Run(EMPTY_DB, b).versions, key)) {
      var i :| 0 <= i < |vs| && vs[i].eventId == id;
      var w := TwinInDesign(a, b, key, vs[i]);
    }
  }

  lemma {:induction false} Swapped(a: seq<Envelope>, b: seq<Envelope>, key: Key)
    requires SameForDesign(a, b, key)
    ensures SameForDesign(b, a, key)
  {
    assert EventsOf(b) + EventsOf(a) == EventsOf(a) + EventsOf(b);
  }

  /** The greatest versions of the two logs are twins. */
  lemma {:induction false} SameWinner(a: seq<Envelope>, b: seq<Envelope>, key: Key, v: Version, w: Version)
    requires SameForDesign(a, b, key)
    requires IsMaximum(Of(Run(EMPTY_DB, a).versions, key), v)
    requires IsMaximum(Of(Run(EMPTY_DB, b).versions, key), w)
    ensures SameBesidesReceipt(v, w)
  {
    Swapped(a, b, key);
    var v' := TwinInDesign(a, b, key, v);
    var w' := TwinInDesign(b, a, key, w);
    SupersedesTotal(v, w);
    assert v' != w ==> Supersedes(w, v');
    assert w' != v ==> Supersedes(v, w');
  }

  predicate SameShown(r: Current, s: Current) {
    && r.latestEventId == s.latestEventId && r.latestPublishedAt == s.latestPublishedAt
    && r.versionCount == s.versionCount
    && r.name == s.name && r.format == s.format && r.sha256 == s.sha256 && r.url == s.url
    && r.content == s.content && r.tags == s.tags
  }

  lemma {:induction false} SameIds(a: seq<Envelope>, b: seq<Envelope>, key: Key)
    requires SameForDesign(a, b, key)
    ensures Ids(Of(Run(EMPTY_DB, a).versions, key)) == Ids(Of(Run(EMPTY_DB, b).versions, key))
    ensures |Of(Run(EMPTY_DB, a).versions, key)| == |Of(Run(EMPTY_DB, b).versions, key)|
  {
    var vs, ws := Of(Run(EMPTY_DB, a).versions, key), Of(Run(EMPTY_DB, b).versions, key);
    ViewAgreement(a);
    ViewAgreement(b);
    OfUnique(Run(EMPTY_DB, a).versions, key);
    OfUnique(Run(EMPTY_DB, b).versions, key);
    IdsCount(vs);
    IdsCount(ws);
    Swapped(a, b, key);
    SameIdsInDesign(a, b, key);
    SameIdsInDesign(b, a, key);
  }

  /** Two views showing twin rows of logs of the same length agree. */
  lemma {:induction false} ViewsAgree(vs: seq<Version>, r: Current, ws: seq<Version>, s: Current, key: Key)
    requires IsViewOf(vs, Some(r), key) && IsViewOf(ws, Some(s), key) && |vs| == |ws|
    requires forall v, w :: IsMaximum(vs, v) && IsMaximum(ws, w) ==> SameBesidesReceipt(v, w)
    ensures SameShown(r, s)
  {
    var v :| IsMaximum(vs, v) && RowShows(r, v);
    var w :| IsMaximum(ws, w) && RowShows(s, w);
    assert SameBesidesReceipt(v, w);
  }

  /** Convergence of one design: whatever else the two deliveries carry, its ids are the same and
      its current rows show the same. */
  lemma {:induction false} DesignConverges(a: seq<Envelope>, b: seq<Envelope>, key: Key)
    requires SameForDesign(a, b, key)
    ensures Ids(Of(Run(EMPTY_DB, a).versions, key)) == Ids(Of(Run(EMPTY_DB, b).versions, key))
    ensures var s, t := Find(Run(EMPTY_DB, a).designs, key), Find(Run(EMPTY_DB, b).designs, key);
            (s.Some? <==> t.Some?) && (s.Some? ==> SameShown(s.value, t.value))
  {
    var vs, ws := Of(Run(EMPTY_DB, a).versions, key), Of(Run(EMPTY_DB, b).versions, key);
    SameIds(a, b, key);
    ViewAgreement(a);
    ViewAgreement(b);
    assert IsView(Run(EMPTY_DB, a), key) && IsView(Run(EMPTY_DB, b), key);
    if |vs| > 0 {
      forall v, w | IsMaximum(vs, v) && IsMaximum(ws, w) ensures SameBesidesReceipt(v, w) {
        SameWinner(a, b, key, v, w);
      }
      ViewsAgree(vs, Run(EMPTY_DB, a).designs[key], ws, Run(EMPTY_DB, b).designs[key], key);
    }
  }

  // ---------- two deliveries of the same events ----------

  ghost predicate SameDelivery(a: seq<Envelope>, b: seq<Envelope>) {
    && EventsOf(a) == EventsOf(b)
    && Unambiguous(EventsOf(a))
    && forall e :: e in EventsOf(a) && IsIngestible(e) ==> IsOrderFree(e)
  }

  lemma {:induction false} SameForEach(a: seq<Envelope>, b: seq<Envelope>, key: Key)
    requires SameDelivery(a, b)
    ensures SameForDesign(a, b, key) && SameForDesign(b, a, key)
  {
    assert EventsOf(a) + EventsOf(b) == EventsOf(a);
    Swapped(a, b, key);
  }

  /** Convergence: two deliveries of the same set of events, those ingestible outside schema 1.1,
      in any orders and with any repetitions, store the same version ids and show the same
      current designs. */
  lemma {:induction false} Convergence(a: seq<Envelope>, b: seq<Envelope>)
    requires SameDelivery(a, b)
    ensures forall id :: IsStored(Run(EMPTY_DB, a).versions, id) <==> IsStored(Run(EMPTY_DB, b).versions, id)
    ensures Run(EMPTY_DB, a).designs.Keys == Run(EMPTY_DB, b).designs.Keys
    ensures forall key :: key in Run(EMPTY_DB, a).designs ==>
              SameShown(Run(EMPTY_DB, a).designs[key], Run(EMPTY_DB, b).designs[key])
  {
    forall id ensures IsStored(Run(EMPTY_DB, a).versions, id) <==> IsStored(Run(EMPTY_DB, b).versions, id) {
      StoredInBoth(a, b, id);
      StoredInBoth(b, a, id);
    }
    forall key
      ensures key in Run(EMPTY_DB, a).designs <==> key in Run(EMPTY_DB, b).designs
      ensures key in Run(EMPTY_DB, a).designs ==>
                SameShown(Run(EMPTY_DB, a).designs[key], Run(EMPTY_DB, b).designs[key])
    {
      SameForEach(a, b, key);
      DesignConverges(a, b, key);
    }
  }

  lemma {:induction false} StoredInBoth(a: seq<Envelope>, b: seq<Envelope>, id: string)
    requires SameDelivery(a, b)
    ensures IsStored(Run(EMPTY_DB, a).versions, id) ==> IsStored(Run(EMPTY_DB, b).versions, id)
  {
    if IsStored(Run(EMPTY_DB, a).versions, id) {
      var i :| 0 <= i < |Run(EMPTY_DB, a).versions| && Run(EMPTY_DB, a).versions[i].eventId == id;
      var v := Run(EMPTY_DB, a).versions[i];
      SameForEach(a, b, v.DesignKey());
      OfHolds(Run(EMPTY_DB, a).versions, v);
      var w := TwinInDesign(a, b, v.DesignKey(), v);
      InLogIsStored(Run(EMPTY_DB, b).versions, w);
    }
  }
}
