/** Schema 1.1 over whole runs: which updates get stored, what the stored predecessors look
    like, and what a crash between the two commits costs. */
module LineageRuns {
  import opened Text
  import opened Events
  import opened Tables
  import opened Reducer
  import opened ReducerRuns
  import opened Convergence

  // ---------- predecessors ----------

  ghost predicate LineageHolds(versions: seq<Version>) {
    forall i :: 0 <= i < |versions| ==>
      var v := versions[i];
      && (v.previous.Some? ==> IsLowerHexOf(v.previous.value, 64) && v.previous.value != v.eventId)
      && (SchemaVersion(v.raw.tags) == Some(SCHEMA_1_1) ==>
           (v.previous.None? <==> forall j :: 0 <= j < i ==> versions[j].DesignKey() != v.DesignKey()))
  }

  lemma {:induction false} OfEmpty(versions: seq<Version>, key: Key)
    ensures |Of(versions, key)| == 0 <==> forall j :: 0 <= j < |versions| ==> versions[j].DesignKey() != key
  {
    if |versions| > 0 {
      OfEmpty(versions[..|versions| - 1], key);
      assert forall j :: 0 <= j < |versions| - 1 ==> versions[..|versions| - 1][j] == versions[j];
    }
  }

  /** What admission guarantees of the row's predecessor. */
  lemma {:induction false} AdmittedLineage(db: Db, env: Envelope)
    requires IsAdmitted(db, env.event)
    ensures var v := VersionOf(env);
            && (v.previous.Some? ==> IsLowerHexOf(v.previous.value, 64) && v.previous.value != v.eventId)
            && (SchemaVersion(v.raw.tags) == Some(SCHEMA_1_1) ==>
                 (v.previous.None? <==> v.DesignKey() !in db.designs))
  {
  }

  lemma {:induction false} LineageStep(versions: seq<Version>, v: Version)
    requires LineageHolds(versions)
    requires v.previous.Some? ==> IsLowerHexOf(v.previous.value, 64) && v.previous.value != v.eventId
    requires SchemaVersion(v.raw.tags) == Some(SCHEMA_1_1) ==>
               (v.previous.None? <==> |Of(versions, v.DesignKey())| == 0)
    ensures LineageHolds(versions + [v])
  {
    OfEmpty(versions, v.DesignKey());
    var after := versions + [v];
    assert forall j :: 0 <= j < |versions| ==> after[j] == versions[j];
  }

  /** In every reachable log a schema 1.1 version lacks a predecessor exactly when it was the
      first version stored for its design, and predecessors are 64 hex characters naming
      another event. */
  lemma {:induction false} StoredLineage(envs: seq<Envelope>)
    ensures LineageHolds(Run(EMPTY_DB, envs).versions)
  {
    if |envs| > 0 {
      var front, env := envs[..|envs| - 1], envs[|envs| - 1];
      var db := Run(EMPTY_DB, front);
      StoredLineage(front);
      LogStep(db, env);
      if Reduce(db, env).db.versions != db.versions {
        var v := VersionOf(env);
        ViewAgreement(front);
        assert IsView(db, v.DesignKey());
        AdmittedLineage(db, env);
        LineageStep(db.versions, v);
      }
    }
  }

  // ---------- which events of a 1.1 design are stored ----------

  predicate IsRoot(e: Event) {
    && IsIngestible(e) && IsStorable(e)
    && SchemaVersion(e.tags) == Some(SCHEMA_1_1) && !LineageOf(e.tags, e.id.text).hasTag
  }

  predicate IsUpdate(e: Event) {
    IsIngestible(e) && SchemaVersion(e.tags) == Some(SCHEMA_1_1) && LineageOf(e.tags, e.id.text).previous.Some?
  }

  /** Among the events, the design of `root` has that one root and otherwise updates. */
  ghost predicate OneRootIn(events: set<Event>, root: Event) {
    && IsRoot(root)
    && Unambiguous(events + {root})
    && forall e :: e in events && IsOfKey(e, KeyOf(root)) ==> e == root || IsUpdate(e)
  }

  ghost predicate OneRoot(envs: seq<Envelope>, root: Event) { OneRootIn(EventsOf(envs), root) }

  /** `e` is delivered at or after some delivery of `root`. */
  predicate DeliveredAfter(envs: seq<Envelope>, root: Event, e: Event) {
    exists i, j :: 0 <= i <= j < |envs| && envs[i].event == root && envs[j].event == e
  }

  lemma {:induction false} DeliveredAfterStep(envs: seq<Envelope>, env: Envelope, root: Event, e: Event)
    ensures DeliveredAfter(envs + [env], root, e) <==>
      DeliveredAfter(envs, root, e)
      || (env.event == e && (e == root || exists i :: 0 <= i < |envs| && envs[i].event == root))
  {
    var all := envs + [env];
    if DeliveredAfter(envs, root, e) {
      var i, j :| 0 <= i <= j < |envs| && envs[i].event == root && envs[j].event == e;
      assert all[i].event == root && all[j].event == e;
    }
    if env.event == e && e == root { assert all[|envs|].event == root; }
    if env.event == e && exists i :: 0 <= i < |envs| && envs[i].event == root {
      var i :| 0 <= i < |envs| && envs[i].event == root;
      assert all[i].event == root && all[|envs|].event == e;
    }
  }

  lemma {:induction false} OneRootSubset(events: set<Event>, fewer: set<Event>, root: Event)
    requires OneRootIn(events, root) && fewer <= events
    ensures OneRootIn(fewer, root)
  {
    assert fewer + {root} <= events + {root};
  }

  lemma {:induction false} OneRootFront(envs: seq<Envelope>, root: Event)
    requires |envs| > 0 && OneRoot(envs, root)
    ensures OneRoot(envs[..|envs| - 1], root)
    ensures EventsOf(envs) == EventsOf(envs[..|envs| - 1]) + {envs[|envs| - 1].event}
  {
    FrontEvents(envs);
    OneRootSubset(EventsOf(envs), EventsOf(envs[..|envs| - 1]), root);
  }

  /** A version in the log under an event's id is that event's row. */
  lemma {:induction false} StoredUnder(envs: seq<Envelope>, extra: Event, e: Event) returns (v: Version)
    requires Unambiguous(EventsOf(envs) + {extra}) && e in EventsOf(envs) + {extra} && IsIngestible(e)
    requires IsStored(Run(EMPTY_DB, envs).versions, e.id.text)
    ensures v in Run(EMPTY_DB, envs).versions && v.raw == e && ComesFrom(v, EventsOf(envs))
    ensures v in Of(Run(EMPTY_DB, envs).versions, KeyOf(e))
  {
    var db := Run(EMPTY_DB, envs);
    LogComesFrom(envs);
    var i :| 0 <= i < |db.versions| && db.versions[i].eventId == e.id.text;
    v := db.versions[i];
    assert ComesFrom(v, EventsOf(envs));
    OfHolds(db.versions, v);
  }

  ghost predicate StoredExactly(envs: seq<Envelope>, root: Event)
    requires IsRoot(root)
  {
    forall e :: e in EventsOf(envs) && IsOfKey(e, KeyOf(root)) ==>
      (IsStored(Run(EMPTY_DB, envs).versions, e.id.text) <==> DeliveredAfter(envs, root, e))
  }

  lemma {:induction false} RowHasVersion(envs: seq<Envelope>, key: Key)
    ensures key in Run(EMPTY_DB, envs).designs <==> |Of(Run(EMPTY_DB, envs).versions, key)| > 0
  {
    ViewAgreement(envs);
    assert IsView(Run(EMPTY_DB, envs), key);
  }

  /** A stored version of the design means its root was delivered. */
  lemma {:induction false} VersionMeansRoot(envs: seq<Envelope>, root: Event, v: Version)
    requires IsRoot(root) && StoredExactly(envs, root) && v in Of(Run(EMPTY_DB, envs).versions, KeyOf(root))
    ensures root in EventsOf(envs)
  {
    LogComesFrom(envs);
    assert ComesFrom(v, EventsOf(envs));
    InLogIsStored(Run(EMPTY_DB, envs).versions, v);
    assert IsOfKey(v.raw, KeyOf(root));
    assert DeliveredAfter(envs, root, v.raw);
  }

  /** The design has a row exactly once its root has been delivered. */
  lemma {:induction false} RowAfterRoot(envs: seq<Envelope>, root: Event)
    requires OneRoot(envs, root) && StoredExactly(envs, root)
    ensures KeyOf(root) in Run(EMPTY_DB, envs).designs <==> root in EventsOf(envs)
  {
    RowHasVersion(envs, KeyOf(root));
    if root in EventsOf(envs) {
      var i :| 0 <= i < |envs| && envs[i].event == root;
      assert DeliveredAfter(envs, root, root);
      var v := StoredUnder(envs, root, root);
    }
    if KeyOf(root) in Run(EMPTY_DB, envs).designs {
      VersionMeansRoot(envs, root, Of(Run(EMPTY_DB, envs).versions, KeyOf(root))[0]);
    }
  }

  /** A root is admitted exactly while its design has no row, an update exactly while it has. */
  lemma {:induction false} AdmittedOfDesign(db: Db, root: Event, e: Event)
    requires IsRoot(root) && IsOfKey(e, KeyOf(root)) && (e == root || IsUpdate(e))
    ensures IsTaken(db, e) <==> ((e == root) <==> KeyOf(root) !in db.designs)
  {
  }

  /** One more delivery stores an event of the design exactly when it is delivered after the root. */
  lemma {:induction false} StoredStep(envs: seq<Envelope>, env: Envelope, root: Event, e: Event)
    requires OneRoot(envs + [env], root) && e in EventsOf(envs + [env]) && IsOfKey(e, KeyOf(root))
    requires KeyOf(root) in Run(EMPTY_DB, envs).designs <==> root in EventsOf(envs)
    requires IsStored(Run(EMPTY_DB, envs).versions, e.id.text) <==> DeliveredAfter(envs, root, e)
    ensures IsStored(Reduce(Run(EMPTY_DB, envs), env).db.versions, e.id.text) <==> DeliveredAfter(envs + [env], root, e)
  {
    var db := Run(EMPTY_DB, envs);
    DeliveredAfterStep(envs, env, root, e);
    StoredAfterStep(db, env, e.id.text);
    if env.event == e {
      AdmittedOfDesign(db, root, e);
      assert root in EventsOf(envs) <==> exists i :: 0 <= i < |envs| && envs[i].event == root;
      if root in EventsOf(envs) && e == root {
        var i :| 0 <= i < |envs| && envs[i].event == root;
        assert DeliveredAfter(envs, root, root);
      }
    } else if IsIngestible(env.event) {
      assert (envs + [env])[|envs|].event == env.event;
      assert env.event.id != e.id;
    }
  }

  lemma {:induction false} UndeliveredNotStored(envs: seq<Envelope>, e: Event)
    requires Unambiguous(EventsOf(envs) + {e}) && IsIngestible(e) && e !in EventsOf(envs)
    ensures !IsStored(Run(EMPTY_DB, envs).versions, e.id.text)
  {
    var db := Run(EMPTY_DB, envs);
    LogComesFrom(envs);
    forall i | 0 <= i < |db.versions| ensures db.versions[i].eventId != e.id.text {
      assert ComesFrom(db.versions[i], EventsOf(envs));
    }
  }

  lemma {:induction false} UndeliveredNotAfter(envs: seq<Envelope>, root: Event, e: Event)
    requires e !in EventsOf(envs)
    ensures !DeliveredAfter(envs, root, e)
  {
  }

  lemma {:induction false} StoredStepAny(envs: seq<Envelope>, env: Envelope, root: Event, e: Event)
    requires OneRoot(envs + [env], root) && OneRoot(envs, root)
    requires EventsOf(envs + [env]) == EventsOf(envs) + {env.event}
    requires StoredExactly(envs, root)
    requires e in EventsOf(envs + [env]) && IsOfKey(e, KeyOf(root))
    ensures IsStored(Reduce(Run(EMPTY_DB, envs), env).db.versions, e.id.text) <==> DeliveredAfter(envs + [env], root, e)
  {
    RowAfterRoot(envs, root);
    if e !in EventsOf(envs) {
      UndeliveredNotAfter(envs, root, e);
      UndeliveredNotStored(envs, e);
    }
    StoredStep(envs, env, root, e);
  }

  lemma {:induction false} StoredExactlyStep(envs: seq<Envelope>, front: seq<Envelope>, env: Envelope, root: Event)
    requires envs == front + [env] && Run(EMPTY_DB, envs) == Reduce(Run(EMPTY_DB, front), env).db
    requires OneRoot(envs, root) && OneRoot(front, root)
    requires EventsOf(envs) == EventsOf(front) + {env.event}
    requires StoredExactly(front, root)
    ensures StoredExactly(envs, root)
  {
    forall e | e in EventsOf(envs) && IsOfKey(e, KeyOf(root))
      ensures IsStored(Run(EMPTY_DB, envs).versions, e.id.text) <==> DeliveredAfter(envs, root, e)
    {
      StoredStepAny(front, env, root, e);
    }
  }

  lemma {:induction false} RunLast(envs: seq<Envelope>)
    requires |envs| > 0
    ensures Run(EMPTY_DB, envs) == Reduce(Run(EMPTY_DB, envs[..|envs| - 1]), envs[|envs| - 1]).db
    ensures envs == envs[..|envs| - 1] + [envs[|envs| - 1]]
  {
  }

  /** Exactly the events delivered at or after their design's root are stored. */
  lemma {:induction false} StoredIffAfterRoot(envs: seq<Envelope>, root: Event)
    requires OneRoot(envs, root)
    ensures StoredExactly(envs, root)
  {
    if |envs| == 0 {
      assert EventsOf(envs) == {};
    } else {
      OneRootFront(envs, root);
      StoredIffAfterRoot(envs[..|envs| - 1], root);
      RunLast(envs);
      StoredExactlyStep(envs, envs[..|envs| - 1], envs[|envs| - 1], root);
    }
  }

  // ---------- two passes ----------

  lemma {:induction false} AfterRootInSecondPass(first: seq<Envelope>, second: seq<Envelope>, root: Event, e: Event)
    requires root in EventsOf(first) && e in EventsOf(second)
    ensures DeliveredAfter(first + second, root, e)
  {
    var i :| 0 <= i < |first| && first[i].event == root;
    var j :| 0 <= j < |second| && second[j].event == e;
    assert (first + second)[i].event == root && (first + second)[|first| + j].event == e;
  }

  /** Delivering a 1.1 design's events in any order, mixed with anything else, and then all of
      them again in any order stores every one of them. */
  lemma {:induction false} TwoPassesStoreAll(first: seq<Envelope>, second: seq<Envelope>, root: Event)
    requires OneRoot(first + second, root) && root in EventsOf(first)
    requires EventsOfKey(first + second, KeyOf(root)) <= EventsOf(second)
    ensures forall e :: e in EventsOfKey(first + second, KeyOf(root)) ==>
              IsStored(Run(EMPTY_DB, first + second).versions, e.id.text)
  {
    StoredIffAfterRoot(first + second, root);
    forall e | e in EventsOfKey(first + second, KeyOf(root))
      ensures IsStored(Run(EMPTY_DB, first + second).versions, e.id.text)
    {
      AfterRootInSecondPass(first, second, root, e);
    }
  }

  function IdsOf(events: set<Event>): set<string> {
    set e | e in events && e.id.Str? :: e.id.text
  }

  lemma {:induction false} IdsOfCount(events: set<Event>)
    requires Unambiguous(events) && forall e :: e in events ==> e.id.Str?
    ensures |IdsOf(events)| == |events|
  {
    if events != {} {
      var e :| e in events;
      IdsOfCount(events - {e});
      assert IdsOf(events) == IdsOf(events - {e}) + {e.id.text};
    }
  }

  /** When every event of a design is stored, its versions are those events, one row each. */
  lemma {:induction false} VersionsAreEvents(envs: seq<Envelope>, root: Event)
    requires OneRoot(envs, root)
    requires forall e :: e in EventsOfKey(envs, KeyOf(root)) ==> IsStored(Run(EMPTY_DB, envs).versions, e.id.text)
    ensures |Of(Run(EMPTY_DB, envs).versions, KeyOf(root))| == |EventsOfKey(envs, KeyOf(root))|
  {
    var key := KeyOf(root);
    var vs := Of(Run(EMPTY_DB, envs).versions, key);
    var events := EventsOfKey(envs, key);
    ViewAgreement(envs);
    OfUnique(Run(EMPTY_DB, envs).versions, key);
    IdsCount(vs);
    IdsOfCount(events);
    LogComesFrom(envs);
    forall i | 0 <= i < |vs| ensures vs[i].eventId in IdsOf(events) {
      assert ComesFrom(vs[i], EventsOf(envs));
      assert vs[i].raw in events;
    }
    forall e | e in events ensures e.id.text in Ids(vs) {
      var v := StoredUnder(envs, root, e);
    }
    assert Ids(vs) == IdsOf(events);
  }

  ghost predicate IsGreatest(best: Event, events: set<Event>, key: Key) {
    && best in events && IsOfKey(best, key)
    && forall e :: e in events && IsOfKey(e, key) && e != best ==> Supersedes(Row(best), Row(e))
  }

  /** The greatest version of a design beats every event of it that is stored. */
  lemma {:induction false} WinnerBeats(envs: seq<Envelope>, root: Event, v: Version, e: Event)
    requires OneRoot(envs, root) && e in EventsOf(envs) && IsOfKey(e, KeyOf(root))
    requires IsStored(Run(EMPTY_DB, envs).versions, e.id.text)
    requires IsMaximum(Of(Run(EMPTY_DB, envs).versions, KeyOf(root)), v) && e != v.raw
    requires ComesFrom(v, EventsOf(envs))
    ensures Supersedes(Row(v.raw), Row(e))
  {
    var w := StoredUnder(envs, root, e);
    assert Supersedes(v, w);
  }

  /** The greatest version in the log is the row of the greatest event. */
  lemma {:induction false} WinnerIsGreatest(envs: seq<Envelope>, root: Event, v: Version)
    requires OneRoot(envs, root)
    requires forall e :: e in EventsOfKey(envs, KeyOf(root)) ==> IsStored(Run(EMPTY_DB, envs).versions, e.id.text)
    requires IsMaximum(Of(Run(EMPTY_DB, envs).versions, KeyOf(root)), v)
    ensures IsGreatest(v.raw, EventsOfKey(envs, KeyOf(root)), KeyOf(root))
    ensures ComesFrom(v, EventsOf(envs))
  {
    LogComesFrom(envs);
    assert ComesFrom(v, EventsOf(envs));
    var events, key := EventsOfKey(envs, KeyOf(root)), KeyOf(root);
    forall e | e in events && IsOfKey(e, key) && e != v.raw ensures Supersedes(Row(v.raw), Row(e)) {
      WinnerBeats(envs, root, v, e);
    }
  }

  ghost predicate ShowsGreatest(row: Current, events: set<Event>, key: Key) {
    row.versionCount == |events| && exists best :: IsGreatest(best, events, key) && RowShows(row, Row(best))
  }

  lemma {:induction false} FullViewShowsGreatest(envs: seq<Envelope>, root: Event, row: Current)
    requires OneRoot(envs, root)
    requires forall e :: e in EventsOfKey(envs, KeyOf(root)) ==> IsStored(Run(EMPTY_DB, envs).versions, e.id.text)
    requires IsViewOf(Of(Run(EMPTY_DB, envs).versions, KeyOf(root)), Some(row), KeyOf(root))
    ensures ShowsGreatest(row, EventsOfKey(envs, KeyOf(root)), KeyOf(root))
  {
    VersionsAreEvents(envs, root);
    var v :| IsMaximum(Of(Run(EMPTY_DB, envs).versions, KeyOf(root)), v) && RowShows(row, v);
    WinnerIsGreatest(envs, root, v);
    assert RowShows(row, Row(v.raw));
  }

  /** After two passes the current row counts every event of the design and shows the greatest. */
  lemma {:induction false} TwoPassesSuffice(first: seq<Envelope>, second: seq<Envelope>, root: Event)
    requires OneRoot(first + second, root) && root in EventsOf(first)
    requires EventsOfKey(first + second, KeyOf(root)) <= EventsOf(second)
    ensures var db, key := Run(EMPTY_DB, first + second), KeyOf(root);
            key in db.designs && ShowsGreatest(db.designs[key], EventsOfKey(first + second, key), key)
  {
    var envs := first + second;
    var db, key := Run(EMPTY_DB, envs), KeyOf(root);
    TwoPassesStoreAll(first, second, root);
    RootIsDelivered(first, second, root);
    var v := StoredUnder(envs, root, root);
    ViewAgreement(envs);
    assert IsView(db, key);
    FullViewShowsGreatest(envs, root, db.designs[key]);
  }

  lemma {:induction false} RootIsDelivered(first: seq<Envelope>, second: seq<Envelope>, root: Event)
    requires IsRoot(root) && root in EventsOf(first)
    ensures root in EventsOfKey(first + second, KeyOf(root))
  {
    var i :| 0 <= i < |first| && first[i].event == root;
    assert (first + second)[i].event == root;
  }

  /** One pass does not suffice: an update delivered before its root, and not again, is lost,
      and the two delivery orders of the same pair end apart. */
  lemma {:induction false} OnePassDependsOnOrder(root: Envelope, update: Envelope)
    requires IsRoot(root.event) && IsUpdate(update.event) && IsOfKey(update.event, KeyOf(root.event))
    requires root.event.id != update.event.id
    ensures IsStored(Run(EMPTY_DB, [root, update]).versions, update.event.id.text)
    ensures !IsStored(Run(EMPTY_DB, [update, root]).versions, update.event.id.text)
    ensures IsStored(Run(EMPTY_DB, [update, root]).versions, root.event.id.text)
  {
    var a, b := [root, update], [update, root];
    PairEvents(a);
    PairEvents(b);
    PairHasOneRoot(root.event, update.event);
    assert EventsOf(a) == {root.event, update.event} == EventsOf(b);
    StoredIffAfterRoot(a, root.event);
    StoredIffAfterRoot(b, root.event);
    PairOrder(root, update);
  }

  lemma {:induction false} PairOrder(root: Envelope, update: Envelope)
    requires root.event != update.event
    ensures DeliveredAfter([root, update], root.event, update.event)
    ensures DeliveredAfter([update, root], root.event, root.event)
    ensures !DeliveredAfter([update, root], root.event, update.event)
  {
    var a, b := [root, update], [update, root];
    assert a[0].event == root.event && a[1].event == update.event;
    assert b[0].event == update.event && b[1].event == root.event;
  }

  lemma {:induction false} PairEvents(envs: seq<Envelope>)
    requires |envs| == 2
    ensures EventsOf(envs) == {envs[0].event, envs[1].event}
  {
  }

  lemma {:induction false} PairIsUnambiguous(root: Event, update: Event)
    requires root.id != update.id
    ensures Unambiguous({root, update})
  {
  }

  lemma {:induction false} PairHasOneRoot(root: Event, update: Event)
    requires IsRoot(root) && IsUpdate(update) && root.id != update.id
    ensures OneRootIn({root, update}, root)
  {
    PairIsUnambiguous(root, update);
    assert {root, update} + {root} == {root, update};
  }

  // ---------- crashes ----------

  /** A delivery either completes or is cut off between the append and the upsert. A crash at
      any other point leaves the design tables as a completed step or no step would. */
  datatype Step = Completes(env: Envelope) | Crashes(env: Envelope)

  predicate Appends(db: Db, env: Envelope) {
    IsTaken(db, env.event) && !IsStored(db.versions, env.event.id.text)
  }

  function Advance(db: Db, step: Step): Db {
    match step
    case Completes(env) => Reduce(db, env).db
    case Crashes(env) =>
      var seen := WithIdentity(db, env);
      if Appends(db, env) then seen.(versions := db.versions + [VersionOf(env)]) else seen
  }

  function RunSteps(steps: seq<Step>): Db {
    if |steps| == 0 then EMPTY_DB else Advance(RunSteps(steps[..|steps| - 1]), steps[|steps| - 1])
  }

  /** How many steps of the run crashed having appended a version of the design. */
  function LostUpserts(steps: seq<Step>, key: Key): nat {
    if |steps| == 0 then 0
    else
      var front, last := steps[..|steps| - 1], steps[|steps| - 1];
      LostUpserts(front, key)
      + if last.Crashes? && Appends(RunSteps(front), last.env) && VersionOf(last.env).DesignKey() == key then 1 else 0
  }

  function CountOf(db: Db, key: Key): int {
    if key in db.designs then db.designs[key].versionCount else 0
  }

  ghost predicate Accounted(db: Db, key: Key, lost: nat) {
    && |Of(db.versions, key)| - CountOf(db, key) == lost
    && (key in db.designs ==>
         db.designs[key].DesignKey() == key && IsStored(db.versions, db.designs[key].latestEventId))
  }

  lemma {:induction false} CrashedStep(db: Db, env: Envelope, key: Key, lost: nat)
    requires Accounted(db, key, lost) && Appends(db, env)
    ensures Accounted(Advance(db, Crashes(env)), key, lost + if VersionOf(env).DesignKey() == key then 1 else 0)
  {
    var v := VersionOf(env);
    OfAppend(db.versions, v, key);
    if key in db.designs { StoredStays(db.versions, v, db.designs[key].latestEventId); }
  }

  /** A completed append is followed by an upsert that counts it, whatever crashed before. */
  lemma {:induction false} CompletedCommit(db: Db, v: Version, key: Key, lost: nat)
    requires Accounted(db, key, lost) && !IsStored(db.versions, v.eventId) && IsBindable(v)
    requires v.DesignKey() in db.designs ==> IsStored(db.versions, db.designs[v.DesignKey()].latestEventId)
    ensures Accounted(Commit(db, v).db, key, lost)
  {
    StoredStays(db.versions, v, v.eventId);
    if v.DesignKey() in db.designs { StoredStays(db.versions, v, db.designs[v.DesignKey()].latestEventId); }
    CommitEffect(db, v, key);
    var row := NextCurrent(Find(db.designs, v.DesignKey()), v);
    assert row.latestEventId == v.eventId
        || (v.DesignKey() in db.designs && row.latestEventId == db.designs[v.DesignKey()].latestEventId);
    if key in db.designs { StoredStays(db.versions, v, db.designs[key].latestEventId); }
  }

  lemma {:induction false} CompletedStep(db: Db, env: Envelope, key: Key, lost: nat)
    requires Accounted(db, key, lost)
    requires IsIngestible(env.event) && KeyOf(env.event) in db.designs ==>
               IsStored(db.versions, db.designs[KeyOf(env.event)].latestEventId)
    ensures Accounted(Reduce(db, env).db, key, lost)
  {
    if IsTaken(db, env.event) {
      TakenIsCommitted(db, env);
      if !IsStored(db.versions, env.event.id.text) {
        CompletedCommit(WithIdentity(db, env), VersionOf(env), key, lost);
      }
    } else {
      UntakenChangesNothing(db, env);
    }
  }

  /** Crash accounting: per design, the versions its row does not count are exactly those whose
      upsert was lost to a crash, and the row always names a stored version. */
  lemma {:induction false} CrashAccounting(steps: seq<Step>, key: Key)
    ensures Accounted(RunSteps(steps), key, LostUpserts(steps, key))
  {
    if |steps| > 0 {
      var front, last := steps[..|steps| - 1], steps[|steps| - 1];
      var db := RunSteps(front);
      CrashAccounting(front, key);
      if last.Completes? {
        if IsIngestible(last.env.event) { CrashAccounting(front, KeyOf(last.env.event)); }
        CompletedStep(db, last.env, key, LostUpserts(front, key));
      } else if Appends(db, last.env) {
        CrashedStep(db, last.env, key, LostUpserts(front, key));
      }
    }
  }

  // ---------- after crashes ----------

  lemma {:induction false} CrashKeepsSound(db: Db, env: Envelope)
    requires IsSound(db)
    ensures IsSound(Advance(db, Crashes(env)))
  {
    SameTablesSound(db, WithIdentity(db, env));
    if Appends(db, env) {
      AppendIsUnique(db.versions, VersionOf(env));
      forall key ensures NamesStored(Advance(db, Crashes(env)), key) {
        assert NamesStored(db, key);
        if key in db.designs { StoredStays(db.versions, VersionOf(env), db.designs[key].latestEventId); }
      }
    }
  }

  /** Whatever completed and crashed, the database is sound, so what is proved of sound databases
      holds of every one the reducer has written. */
  lemma {:induction false} RunStepsSound(steps: seq<Step>)
    ensures IsSound(RunSteps(steps))
  {
    if |steps| == 0 {
      forall key ensures NamesStored(EMPTY_DB, key) {}
    } else {
      var db, last := RunSteps(steps[..|steps| - 1]), steps[|steps| - 1];
      RunStepsSound(steps[..|steps| - 1]);
      if last.Completes? { ReduceKeepsSound(db, last.env); } else { CrashKeepsSound(db, last.env); }
    }
  }

  lemma {:induction false} RunStepsAppend(steps: seq<Step>, step: Step)
    ensures RunSteps(steps + [step]) == Advance(RunSteps(steps), step)
  {
    assert (steps + [step])[..|steps + [step]| - 1] == steps;
  }

  lemma {:induction false} LastStep(before: seq<Step>, after: seq<Step>)
    requires |after| > 0
    ensures RunSteps(before + after) == Advance(RunSteps(before + after[..|after| - 1]), after[|after| - 1])
  {
    assert before + after == (before + after[..|after| - 1]) + [after[|after| - 1]];
    RunStepsAppend(before + after[..|after| - 1], after[|after| - 1]);
  }

  // ---------- a lost root ----------

  /** The step completes a new event that can start the design. */
  predicate IsOpening(db: Db, step: Step, key: Key) { step.Completes? && OpensAnew(db, step.env.event, key) }

  /** One of the later steps does. */
  predicate IsOpenedDuring(before: seq<Step>, after: seq<Step>, key: Key) {
    |after| > 0
    && (|| IsOpenedDuring(before, after[..|after| - 1], key)
        || IsOpening(RunSteps(before + after[..|after| - 1]), after[|after| - 1], key))
  }

  lemma {:induction false} RowAfterStep(db: Db, step: Step, key: Key)
    ensures key in Advance(db, step).designs <==>
      key in db.designs || IsOpening(db, step, key)
  {
    if step.Completes? {
      if key in db.designs { TablesGrow(db, step.env, ""); } else { RowAppears(db, step.env, key); }
    }
  }

  /** A design without a row has one after further steps exactly if one of them opens it. */
  lemma {:induction false} RowAfterSteps(before: seq<Step>, after: seq<Step>, key: Key)
    requires key !in RunSteps(before).designs
    ensures key in RunSteps(before + after).designs <==> IsOpenedDuring(before, after, key)
    decreases |after|
  {
    if |after| == 0 {
      assert before + after == before;
    } else {
      var front := after[..|after| - 1];
      RowAfterSteps(before, front, key);
      LastStep(before, after);
      RowAfterStep(RunSteps(before + front), after[|front|], key);
    }
  }

  lemma {:induction false} StoredAfterSteps(before: seq<Step>, after: seq<Step>, id: string)
    requires IsStored(RunSteps(before).versions, id)
    ensures IsStored(RunSteps(before + after).versions, id)
    decreases |after|
  {
    if |after| == 0 {
      assert before + after == before;
    } else {
      var front, last := after[..|after| - 1], after[|after| - 1];
      var db := RunSteps(before + front);
      StoredAfterSteps(before, front, id);
      LastStep(before, after);
      TablesGrow(db, last.env, id);
      if last.Crashes? && Appends(db, last.env) { StoredStays(db.versions, VersionOf(last.env), id); }
    }
  }

  predicate IsRootOrUpdate(e: Event, root: Event) { e.id == root.id || IsUpdate(e) }

  /** Neither an event whose id is stored nor an update opens anything. */
  lemma {:induction false} NotOpening(db: Db, step: Step, root: Event)
    requires IsRoot(root) && IsStored(db.versions, root.id.text) && IsRootOrUpdate(step.env.event, root)
    ensures !IsOpening(db, step, KeyOf(root))
  {
  }

  lemma {:induction false} NotOpenedDuring(before: seq<Step>, after: seq<Step>, root: Event)
    requires IsRoot(root) && IsStored(RunSteps(before).versions, root.id.text)
    requires forall i :: 0 <= i < |after| ==>
               IsRootOrUpdate(after[i].env.event, root) || !Opens(after[i].env.event, KeyOf(root))
    ensures !IsOpenedDuring(before, after, KeyOf(root))
    decreases |after|
  {
    if |after| > 0 {
      var front, last := after[..|after| - 1], after[|after| - 1];
      assert forall i :: 0 <= i < |front| ==> front[i] == after[i];
      NotOpenedDuring(before, front, root);
      StoredAfterSteps(before, front, root.id.text);
      if IsRootOrUpdate(last.env.event, root) { NotOpening(RunSteps(before + front), last, root); }
    }
  }

  /** What such a crash costs: when the root of a schema 1.1 design is cut off between its two
      commits, its redelivery is a duplicate and every update finds no row to update. So whatever
      follows, completed or crashing, the design has a row again if and only if a new event that
      can start it has completed since. */
  lemma {:induction false} CrashedRootIsLost(before: seq<Step>, root: Envelope, after: seq<Step>)
    requires IsRoot(root.event) && Appends(RunSteps(before), root)
    ensures var cut, key := before + [Crashes(root)], KeyOf(root.event);
            && IsStored(RunSteps(cut + after).versions, root.event.id.text)
            && (key in RunSteps(cut + after).designs <==> IsOpenedDuring(cut, after, key))
  {
    var cut := before + [Crashes(root)];
    RunStepsAppend(before, Crashes(root));
    StoredStays(RunSteps(before).versions, VersionOf(root), root.event.id.text);
    StoredAfterSteps(cut, after, root.event.id.text);
    RowAfterSteps(cut, after, KeyOf(root.event));
  }

  /** And never, if all that is delivered of the design is the root again and its updates. */
  lemma {:induction false} CrashedRootStaysLost(before: seq<Step>, root: Envelope, after: seq<Step>)
    requires IsRoot(root.event) && Appends(RunSteps(before), root)
    requires forall i :: 0 <= i < |after| ==>
               IsRootOrUpdate(after[i].env.event, root.event) || !Opens(after[i].env.event, KeyOf(root.event))
    ensures KeyOf(root.event) !in RunSteps(before + [Crashes(root)] + after).designs
  {
    var cut := before + [Crashes(root)];
    CrashedRootIsLost(before, root, after);
    CrashedRootIsLost(before, root, []);
    assert cut + [] == cut;
    NotOpenedDuring(cut, after, root.event);
  }
}
