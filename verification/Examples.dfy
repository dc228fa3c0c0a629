/** Concrete events run through the reducer, for the ways in which the parts fail to agree. */
module Examples {
  import opened Sequences
  import opened Text
  import opened Events
  import opened Tables
  import opened Reducer
  import opened ReducerRuns
  import opened FormBuilder
  import opened PublishedEvents
  import opened Acceptance
  import opened DesignDetail
  import opened EditRoundTrip
  import opened ComposingPlatform
  import opened VersionOrder
  import opened StoredEvents
  import opened VersionSearch
  import opened VersionPages
  import Pipeline

  // ---------- events ----------

  function Creator(): string { seq(64, i => '0') }

  function SampleKey(): Key { Key(Creator(), DesignId()) }

  function TagsOfSample(extra: seq<Tag>): seq<Tag> { [Tag("d", DesignId())] + extra }

  /** A legacy event: a design tag and whatever other tags are given. */
  function Sample(id: string, createdAt: int, extra: seq<Tag>): Event {
    Event(Str(id), Str(Creator()), Int(createdAt), Int(33301), List(JsonTags(TagsOfSample(extra))), Str(""), Str(""),
          Nowhere)
  }

  predicate HasNoSchemaTag(extra: seq<Tag>) { forall i :: 0 <= i < |extra| ==> extra[i].key != SCHEMA_KEY }

  /** An ingestible event of schema 1.0, whatever its time. */
  predicate IsLegacy(e: Event) {
    IsIngestible(e) && e.surrogates.Nowhere? && SchemaVersion(e.tags) == Some(LEGACY_SCHEMA)
  }

  lemma {:induction false} SampleTag(extra: seq<Tag>, i: nat)
    requires i < |extra| + 1
    ensures |JsonTags(TagsOfSample(extra))| == |extra| + 1
    ensures JsonTags(TagsOfSample(extra))[i] == JsonTag(if i == 0 then Tag("d", DesignId()) else extra[i - 1])
  {
  }

  lemma {:induction false} SampleDesign(extra: seq<Tag>)
    ensures FirstValue(List(JsonTags(TagsOfSample(extra))), "d") == Some(DesignId())
  {
    FirstValueMeaning(JsonTags(TagsOfSample(extra)), "d");
    SampleTag(extra, 0);
  }

  lemma {:induction false} DesignIdIsRead()
    ensures IsDesignId(DesignId())
  {
    FilledDesignId();
    DesignIdsAgree(DesignId());
  }

  lemma {:induction false} SampleSchema(extra: seq<Tag>)
    requires HasNoSchemaTag(extra)
    ensures SchemaVersion(List(JsonTags(TagsOfSample(extra)))) == Some(LEGACY_SCHEMA)
  {
    var tags := JsonTags(TagsOfSample(extra));
    forall i | 0 <= i < |tags| ensures !HasSchemaKey(tags[i]) { SampleTag(extra, i); }
    SchemaVersionMeaning(tags, LEGACY_SCHEMA);
  }

  lemma {:induction false} SampleIsLegacy(id: string, createdAt: int, extra: seq<Tag>)
    requires HasNoSchemaTag(extra)
    ensures IsLegacy(Sample(id, createdAt, extra)) && KeyOf(Sample(id, createdAt, extra)) == SampleKey()
  {
    SampleDesign(extra);
    DesignIdIsRead();
    SampleSchema(extra);
  }

  // ---------- deliveries ----------

  function Deliver(e: Event): Envelope { Envelope("wss://relay", 0, e) }

  function RowOf(e: Event): Version
    requires IsIngestible(e)
  {
    VersionOf(Deliver(e))
  }

  /** After the deliveries to a fresh index the log holds these rows, all of one design. */
  predicate Holds(envs: seq<Envelope>, rows: seq<Version>) {
    Run(EMPTY_DB, envs).versions == rows && forall i :: 0 <= i < |rows| ==> rows[i].DesignKey() == SampleKey()
  }

  predicate IsNew(rows: seq<Version>, id: string) { forall i :: 0 <= i < |rows| ==> rows[i].eventId != id }

  lemma {:induction false} LegacyIsAppended(db: Db, env: Envelope)
    requires IsSound(db) && IsLegacy(env.event) && IsStorable(env.event) && !IsStored(db.versions, env.event.id.text)
    ensures Reduce(db, env).db.versions == db.versions + [VersionOf(env)]
  {
    TakenIsCommitted(db, env);
    SameTablesSound(db, WithIdentity(db, env));
    SoundCommit(WithIdentity(db, env), VersionOf(env));
  }

  lemma {:induction false} RunIsSound(envs: seq<Envelope>)
    ensures IsSound(Run(EMPTY_DB, envs))
  {
    ViewAgreement(envs);
    ViewsAreSound(Run(EMPTY_DB, envs));
  }

  /** A delivery that adds the row to whatever the reducer has written, unless its id is taken. */
  ghost predicate Makes(env: Envelope, v: Version) {
    && v.DesignKey() == SampleKey()
    && forall db {:trigger Reduce(db, env)} :: IsSound(db) && !IsStored(db.versions, v.eventId) ==>
         Reduce(db, env).db.versions == db.versions + [v]
  }

  lemma {:induction false} LegacyMakes(e: Event)
    requires IsLegacy(e) && IsStorable(e) && KeyOf(e) == SampleKey()
    ensures Makes(Deliver(e), RowOf(e))
  {
    forall db | IsSound(db) && !IsStored(db.versions, RowOf(e).eventId)
      ensures Reduce(db, Deliver(e)).db.versions == db.versions + [RowOf(e)]
    {
      LegacyIsAppended(db, Deliver(e));
    }
  }

  /** Each of the deliveries makes its row, under a new id. */
  ghost predicate MakesAll(envs: seq<Envelope>, rows: seq<Version>) {
    && |envs| == |rows|
    && (|rows| > 0 ==>
         var n := |rows| - 1;
         MakesAll(envs[..n], rows[..n]) && Makes(envs[n], rows[n]) && IsNew(rows[..n], rows[n].eventId))
  }

  lemma {:induction false} NotYetStored(rows: seq<Version>, id: string)
    requires IsNew(rows, id)
    ensures !IsStored(rows, id)
  {
  }

  lemma {:induction false} OneAdded(db: Db, env: Envelope, v: Version)
    requires IsSound(db) && Makes(env, v) && !IsStored(db.versions, v.eventId)
    ensures Reduce(db, env).db.versions == db.versions + [v]
  {
  }

  lemma {:induction false} RunLast(envs: seq<Envelope>, n: nat)
    requires |envs| == n + 1
    ensures Run(EMPTY_DB, envs) == Reduce(Run(EMPTY_DB, envs[..n]), envs[n]).db && IsSound(Run(EMPTY_DB, envs[..n]))
  {
    RunIsSound(envs[..n]);
  }

  lemma {:induction false} AllAreStored(envs: seq<Envelope>, rows: seq<Version>)
    requires MakesAll(envs, rows)
    ensures Run(EMPTY_DB, envs).versions == rows
  {
    if |rows| > 0 {
      var n := |rows| - 1;
      AllAreStored(envs[..n], rows[..n]);
      RunLast(envs, n);
      NotYetStored(rows[..n], rows[n].eventId);
      OneAdded(Run(EMPTY_DB, envs[..n]), envs[n], rows[n]);
      SplitLast(rows, n);
    }
  }

  lemma {:induction false} AllAreSamples(envs: seq<Envelope>, rows: seq<Version>)
    requires MakesAll(envs, rows)
    ensures forall i :: 0 <= i < |rows| ==> rows[i].DesignKey() == SampleKey()
  {
    if |rows| > 0 { AllAreSamples(envs[..|rows| - 1], rows[..|rows| - 1]); }
  }

  lemma {:induction false} AllHold(envs: seq<Envelope>, rows: seq<Version>)
    requires MakesAll(envs, rows)
    ensures Holds(envs, rows)
  {
    AllAreStored(envs, rows);
    AllAreSamples(envs, rows);
  }

  lemma {:induction false} MakesOne(e: Envelope, v: Version)
    requires Makes(e, v)
    ensures MakesAll([e], [v]) && NewestFirst([v]) == [v]
  {
    assert [e][..0] == [] && [v][..0] == [];
  }

  lemma {:induction false} MakesThree(d: Envelope, e: Envelope, f: Envelope, v: Version, w: Version, x: Version)
    requires Makes(d, v) && Makes(e, w) && Makes(f, x)
    requires v.eventId != w.eventId && v.eventId != x.eventId && w.eventId != x.eventId
    ensures MakesAll([d, e, f], [v, w, x])
  {
    MakesOne(d, v);
    assert [d, e][..1] == [d] && [v, w][..1] == [v];
    assert MakesAll([d, e], [v, w]);
    assert [d, e, f][..2] == [d, e] && [v, w, x][..2] == [v, w];
  }

  /** As long as no profile was fetched nobody has a blank name. */
  lemma {:induction false} NoProfiles(envs: seq<Envelope>, pubkey: string)
    ensures ProfileField(FindIdentity(Run(EMPTY_DB, envs).identities, pubkey), "display_name").None?
    ensures ProfileField(FindIdentity(Run(EMPTY_DB, envs).identities, pubkey), "name").None?
    ensures ProfileField(FindIdentity(Run(EMPTY_DB, envs).identities, pubkey), "nip05").None?
  {
    if |envs| > 0 {
      NoProfiles(envs[..|envs| - 1], pubkey);
      ReduceSeesIdentity(Run(EMPTY_DB, envs[..|envs| - 1]), envs[|envs| - 1]);
    }
  }

  lemma {:induction false} NobodyIsNameless(envs: seq<Envelope>, pubkey: string)
    ensures IsNamed(FindIdentity(Run(EMPTY_DB, envs).identities, pubkey))
  {
    NoProfiles(envs, pubkey);
    TrimLaws("", IsPySpace);
  }

  // ---------- one design of samples ----------

  lemma {:induction false} OfAll(versions: seq<Version>, key: Key)
    requires forall i :: 0 <= i < |versions| ==> versions[i].DesignKey() == key
    ensures Of(versions, key) == versions
  {
    if |versions| > 0 {
      var n := |versions| - 1;
      OfAll(versions[..n], key);
      SplitLast(versions, n);
    }
  }

  lemma {:induction false} SamplesAreListed(envs: seq<Envelope>, rows: seq<Version>)
    requires Holds(envs, rows)
    ensures Of(Run(EMPTY_DB, envs).versions, SampleKey()) == rows
    ensures ViewAgrees(Run(EMPTY_DB, envs)) && UniqueIds(rows)
  {
    OfAll(rows, SampleKey());
    ViewAgreement(envs);
  }

  lemma {:induction false} CreatorIsHexKey()
    ensures IsHexKey(Creator()) && HasNpub(Creator()) && ParsePubkey(Creator()).Some?
  {
    HexKeyParses(Creator());
  }

  /** The design reaches the client exactly if its newest version has a name and no blank key. */
  lemma {:induction false} SamplesServed(envs: seq<Envelope>, rows: seq<Version>)
    requires Holds(envs, rows) && |rows| > 0
    ensures var newest := NewestFirst(rows)[0];
            IsServed(Run(EMPTY_DB, envs), SampleKey())
            <==> !AllSpace(newest.name.GetOr(""), IsJsSpace) && !HasBlankKey(newest.raw.tags)
  {
    SamplesAreListed(envs, rows);
    CreatorIsHexKey();
    NobodyIsNameless(envs, Creator());
    ServedInView(Run(EMPTY_DB, envs), SampleKey());
  }

  /** What the client makes of the row of a sample. */
  lemma {:induction false} SampleParses(v: Version)
    requires v.pubkey == Creator() && v.designId == DesignId()
    ensures Parse(v) == if JsTrim(v.eventId) == "" || HasBlankKey(v.raw.tags) then None
                        else Some(VersionSearch.Item(JsTrim(v.eventId)))
  {
    CreatorIsHexKey();
    NotBlank(DesignId());
  }

  lemma {:induction false} SampleTagBlank(extra: seq<Tag>, i: nat)
    requires i < |extra| + 1
    ensures IsBlankPair(JsonTags(TagsOfSample(extra))[i]) <==> i > 0 && JsTrim(extra[i - 1].key) == ""
  {
    SampleTag(extra, i);
    NotBlank("d");
  }

  predicate HasBlankTag(extra: seq<Tag>) { exists i :: 0 <= i < |extra| && JsTrim(extra[i].key) == "" }

  lemma {:induction false} SampleBlankKeys(extra: seq<Tag>)
    ensures HasBlankKey(List(JsonTags(TagsOfSample(extra)))) <==> HasBlankTag(extra)
  {
    var tags := JsonTags(TagsOfSample(extra));
    if HasBlankTag(extra) {
      var i :| 0 <= i < |extra| && JsTrim(extra[i].key) == "";
      SampleTagBlank(extra, i + 1);
    } else {
      forall i | 0 <= i < |tags| ensures !IsBlankPair(tags[i]) { SampleTagBlank(extra, i); }
    }
  }

  const NAMED := [Tag("name", "x")]
  const BLANK_KEY := [Tag(" ", "x")]

  lemma {:induction false} NamedTag()
    ensures FirstValue(List(JsonTags(TagsOfSample(NAMED))), "name") == Some("x")
  {
    SampleTag(NAMED, 0);
    SampleTag(NAMED, 1);
    FirstValueMeaning(JsonTags(TagsOfSample(NAMED)), "name");
  }

  lemma {:induction false} NamedRow(id: string, createdAt: int)
    ensures IsLegacy(Sample(id, createdAt, NAMED)) && KeyOf(Sample(id, createdAt, NAMED)) == SampleKey()
    ensures RowOf(Sample(id, createdAt, NAMED)).name == Some("x")
    ensures !HasBlankKey(Sample(id, createdAt, NAMED).tags)
  {
    SampleIsLegacy(id, createdAt, NAMED);
    NamedTag();
    NotBlank("name");
    SampleBlankKeys(NAMED);
  }

  lemma {:induction false} BlankKeyRow(id: string, createdAt: int)
    ensures IsLegacy(Sample(id, createdAt, BLANK_KEY)) && KeyOf(Sample(id, createdAt, BLANK_KEY)) == SampleKey()
    ensures HasBlankKey(Sample(id, createdAt, BLANK_KEY).tags)
  {
    SampleIsLegacy(id, createdAt, BLANK_KEY);
    BlankIfAllSpace(" ", IsJsSpace);
    SampleBlankKeys(BLANK_KEY);
    assert JsTrim(BLANK_KEY[0].key) == "";
  }

  lemma {:induction false} NamelessRow(id: string, createdAt: int)
    ensures IsLegacy(Sample(id, createdAt, [])) && KeyOf(Sample(id, createdAt, [])) == SampleKey()
    ensures RowOf(Sample(id, createdAt, [])).name.None? && !HasBlankKey(Sample(id, createdAt, []).tags)
  {
    SampleIsLegacy(id, createdAt, []);
    SampleTag([], 0);
    FirstValueMeaning(JsonTags(TagsOfSample([])), "name");
    SampleBlankKeys([]);
  }

  // ---------- the version page ----------

  /** The page of the samples' design, over the tables the deliveries leave. */
  function PageAfter(envs: seq<Envelope>, requested: string): View {
    var db := Run(EMPTY_DB, envs);
    DesignPage(db, SampleKey(), StoreAnswers(db.versions, SampleKey()), Some(requested))
  }

  /** Rows of deliveries on which the page misleads, with a newest one that reaches the client. */
  predicate IsMisleadingDelivery(envs: seq<Envelope>, a: Version, b: Version, c: Version) {
    && Holds(envs, [a, b, c]) && IsMisleading(a, b, c)
    && !AllSpace(a.name.GetOr(""), IsJsSpace) && !HasBlankKey(a.raw.tags)
  }

  /** The page says that a stored version does not exist, and calls the oldest number 2. */
  predicate PageMisleads(envs: seq<Envelope>, lost: string, oldest: string) {
    && IsStored(Run(EMPTY_DB, envs).versions, lost) && PageAfter(envs, lost) == ErrorPage(VersionNotFound)
    && PageAfter(envs, oldest).ValidPage? && PageAfter(envs, oldest).selected == VersionSearch.Item(oldest)
    && PageAfter(envs, oldest).number == Some(2)
  }

  lemma {:induction false} DeliveryMisleads(envs: seq<Envelope>, a: Version, b: Version, c: Version)
    requires IsMisleadingDelivery(envs, a, b, c) && JsTrim(c.eventId) == c.eventId
    ensures PageMisleads(envs, b.eventId, c.eventId)
  {
    var db, key := Run(EMPTY_DB, envs), SampleKey();
    assert db.versions[1] == b;
    SamplesAreListed(envs, [a, b, c]);
    ThreeSorted(a, b, c);
    SamplesServed(envs, [a, b, c]);
    StoreServes(db.versions, key);
    BlankKeyMisleads(db, key, StoreAnswers(db.versions, key), a, b, c);
  }

  lemma {:induction false} ShortIds()
    ensures JsTrim("a") == "a" && JsTrim("b") == "b" && JsTrim("c") == "c" && "a" != "b" && "a" != "c" && "b" != "c"
  {
    assert !IsJsSpace("a"[0]) && !IsJsSpace("b"[0]) && !IsJsSpace("c"[0]);
    assert "a"[0] != "b"[0] && "a"[0] != "c"[0] && "b"[0] != "c"[0];
    TrimLaws("a", IsJsSpace);
    TrimLaws("b", IsJsSpace);
    TrimLaws("c", IsJsSpace);
  }

  predicate IsNamedRow(v: Version, id: string, createdAt: int) {
    && v.eventId == id && v.createdAt == createdAt && v.name == Some("x") && !HasBlankKey(v.raw.tags)
    && Parse(v).Some?
  }

  lemma {:induction false} NamedMakes(id: string, createdAt: int) returns (v: Version)
    requires FitsColumn(createdAt) && JsTrim(id) != ""
    ensures Makes(Deliver(Sample(id, createdAt, NAMED)), v) && IsNamedRow(v, id, createdAt)
  {
    NamedRow(id, createdAt);
    v := RowOf(Sample(id, createdAt, NAMED));
    LegacyMakes(Sample(id, createdAt, NAMED));
    SampleParses(v);
  }

  lemma {:induction false} BlankKeyMakes(id: string, createdAt: int) returns (v: Version)
    requires FitsColumn(createdAt)
    ensures Makes(Deliver(Sample(id, createdAt, BLANK_KEY)), v)
    ensures v.eventId == id && v.createdAt == createdAt && HasBlankKey(v.raw.tags)
  {
    BlankKeyRow(id, createdAt);
    v := RowOf(Sample(id, createdAt, BLANK_KEY));
    LegacyMakes(Sample(id, createdAt, BLANK_KEY));
  }

  function BlankInTheMiddle(): seq<Envelope> {
    [Deliver(Sample("a", 3, NAMED)), Deliver(Sample("b", 2, BLANK_KEY)), Deliver(Sample("c", 1, NAMED))]
  }

  lemma {:induction false} MiddleRows() returns (a: Version, b: Version, c: Version)
    ensures Holds(BlankInTheMiddle(), [a, b, c]) && IsNamedRow(a, "a", 3) && IsNamedRow(c, "c", 1)
    ensures b.eventId == "b" && b.createdAt == 2 && HasBlankKey(b.raw.tags)
  {
    ShortIds();
    a := NamedMakes("a", 3);
    b := BlankKeyMakes("b", 2);
    c := NamedMakes("c", 1);
    var envs := BlankInTheMiddle();
    MakesThree(envs[0], envs[1], envs[2], a, b, c);
    AllHold(envs, [a, b, c]);
  }

  lemma {:induction false} MiddleIsMisleading(envs: seq<Envelope>, a: Version, b: Version, c: Version)
    requires Holds(envs, [a, b, c]) && IsNamedRow(a, "a", 3) && IsNamedRow(c, "c", 1)
    requires b.eventId == "b" && b.createdAt == 2 && HasBlankKey(b.raw.tags)
    ensures IsMisleadingDelivery(envs, a, b, c) && JsTrim(c.eventId) == c.eventId
  {
    ShortIds();
    assert !IsJsSpace("x"[0]);
  }

  /** Three events, the middle one with a blank tag key: it is stored, the page says that it does
      not exist, and the oldest, requested by its id, is called number 2. */
  lemma {:induction false} BlankKeyExample()
    ensures PageMisleads(BlankInTheMiddle(), "b", "c")
  {
    var a, b, c := MiddleRows();
    MiddleIsMisleading(BlankInTheMiddle(), a, b, c);
    DeliveryMisleads(BlankInTheMiddle(), a, b, c);
  }

  lemma {:induction false} AloneServed(envs: seq<Envelope>, v: Version)
    requires Holds(envs, [v]) && NewestFirst([v]) == [v] && IsNamedRow(v, v.eventId, v.createdAt)
    ensures IsNumbered(PageAfter(envs, v.eventId), JsTrim(v.eventId), 0, 0)
  {
    assert !IsJsSpace("x"[0]);
    SamplesAreListed(envs, [v]);
    SamplesServed(envs, [v]);
    ShownAlone(Run(EMPTY_DB, envs), SampleKey(), v);
  }

  /** A stored id with a blank before it is shown without the blank. */
  lemma {:induction false} PaddedIdExample()
    ensures var view := PageAfter([Deliver(Sample(" abc", 1, NAMED))], " abc");
            view.ValidPage? && view.selected == VersionSearch.Item("abc") && view.number == Some(1)
  {
    PaddedId();
    var v := NamedMakes(" abc", 1);
    MakesOne(Deliver(Sample(" abc", 1, NAMED)), v);
    AllHold([Deliver(Sample(" abc", 1, NAMED))], [v]);
    AloneServed([Deliver(Sample(" abc", 1, NAMED))], v);
  }

  lemma {:induction false} PaddedId()
    ensures JsTrim(" abc") == "abc"
  {
    assert !IsJsSpace("abc"[0]) && !IsJsSpace("abc"[2]);
    TrimPadded(" ", "abc", "", IsJsSpace);
    assert " " + "abc" + "" == " abc";
  }

  lemma {:induction false} ShownAlone(db: Db, key: Key, v: Version)
    requires UniqueIds(db.versions) && Of(db.versions, key) == [v] && IsServed(db, key) && Parse(v).Some?
    ensures IsNumbered(DesignPage(db, key, StoreAnswers(db.versions, key), Some(v.eventId)), JsTrim(v.eventId), 0, 0)
  {
    StoreServes(db.versions, key);
    LessIrreflexive(v.eventId);
    assert Older([v], v) == {};
    WhenAllParse(db, key, StoreAnswers(db.versions, key), v);
  }

  /** A current row without a name keeps every version of its design from being shown. */
  lemma {:induction false} NamelessExample()
    ensures IsStored(Run(EMPTY_DB, [Deliver(Sample("a", 1, []))]).versions, "a")
    ensures PageAfter([Deliver(Sample("a", 1, []))], "a") == ErrorPage(DesignUnavailable)
  {
    var env := Deliver(Sample("a", 1, []));
    NamelessRow("a", 1);
    var v := RowOf(env.event);
    LegacyMakes(env.event);
    MakesOne(env, v);
    AllHold([env], [v]);
    assert Run(EMPTY_DB, [env]).versions[0].eventId == "a";
    SamplesServed([env], [v]);
    UnservedIsMalformed([env], [v]);
  }

  lemma {:induction false} UnservedIsMalformed(envs: seq<Envelope>, rows: seq<Version>)
    requires Holds(envs, rows) && |rows| > 0 && !IsServed(Run(EMPTY_DB, envs), SampleKey())
    ensures DesignAnswerOf(Run(EMPTY_DB, envs), SampleKey()) == Malformed
  {
    SamplesAreListed(envs, rows);
    CreatorIsHexKey();
    assert IsView(Run(EMPTY_DB, envs), SampleKey());
  }

  // ---------- a tie ----------

  lemma {:induction false} MakesTwo(d: Envelope, e: Envelope, v: Version, w: Version)
    requires Makes(d, v) && Makes(e, w) && v.eventId != w.eventId
    ensures MakesAll([d, e], [v, w])
  {
    MakesOne(d, v);
    assert [d, e][..1] == [d] && [v, w][..1] == [v];
  }

  lemma {:induction false} GreaterIdBeats(v: Version, w: Version)
    requires v.createdAt == w.createdAt && v.eventId == "a" && w.eventId == "b"
    ensures !Beats(v, w)
  {
    LessMeaning(w.eventId, v.eventId);
    assert "b"[0] > "a"[0];
  }

  lemma {:induction false} BestOfTwo(envs: seq<Envelope>, v: Version, w: Version)
    requires Holds(envs, [v, w]) && v.createdAt == w.createdAt && v.eventId == "a" && w.eventId == "b"
    ensures SampleKey() in Run(EMPTY_DB, envs).designs
    ensures Run(EMPTY_DB, envs).designs[SampleKey()].latestEventId == "b"
  {
    var db := Run(EMPTY_DB, envs);
    SamplesAreListed(envs, [v, w]);
    assert IsView(db, SampleKey());
    ShortIds();
    GreaterIdBeats(v, w);
    assert [v, w][1] == w;
    var best := AgreeingRowShowsBest(db, SampleKey());
  }

  /** Of two events of a design created in the same second the one with the greater id is
      shown. */
  lemma {:induction false} TieExample()
    ensures var db := Run(EMPTY_DB, [Deliver(Sample("a", 5, NAMED)), Deliver(Sample("b", 5, NAMED))]);
            SampleKey() in db.designs && db.designs[SampleKey()].latestEventId == "b"
  {
    ShortIds();
    var v := NamedMakes("a", 5);
    var w := NamedMakes("b", 5);
    MakesTwo(Deliver(Sample("a", 5, NAMED)), Deliver(Sample("b", 5, NAMED)), v, w);
    AllHold([Deliver(Sample("a", 5, NAMED)), Deliver(Sample("b", 5, NAMED))], [v, w]);
    BestOfTwo([Deliver(Sample("a", 5, NAMED)), Deliver(Sample("b", 5, NAMED))], v, w);
  }

  // ---------- the reducer loop ----------

  /** One worker, an unbounded queue and a fresh index. */
  const FRESH := Pipeline.Config(["wss://relay"], 0, EMPTY_DB)

  lemma {:induction false} FreshIsSound()
    ensures IsSound(FRESH.tables)
  {
    RunIsSound([]);
    assert Run(EMPTY_DB, []) == EMPTY_DB;
  }

  /** A named sample, whatever its time, ends the loop of a fresh pipeline alone exactly if that time
      needs more than 64 bits. */
  lemma {:induction false} OversizedTimeExample(createdAt: int)
    ensures var e := Sample("a", createdAt, NAMED);
            && IsIngestible(e)
            && (Pipeline.DiesOf(FRESH, Pipeline.Deliver([], e), {e})
                <==> createdAt < -9223372036854775808 || createdAt > 9223372036854775807)
  {
    var e := Sample("a", createdAt, NAMED);
    NamedRow("a", createdAt);
    FreshIsSound();
    if IsStorable(e) {
      if Pipeline.DiesOf(FRESH, Pipeline.Deliver([], e), {e}) {
        Pipeline.StorableEventsAreSafe(FRESH, Pipeline.Deliver([], e), {e});
      }
    } else {
      Pipeline.CrashAlone(FRESH, {e}, e);
    }
  }

  function WithSurrogates(e: Event, surrogates: Surrogates): Event { e.(surrogates := surrogates) }

  /** So does one with a lone surrogate, in its pubkey or anywhere else. */
  lemma {:induction false} SurrogateExample(surrogates: Surrogates)
    requires surrogates != Nowhere
    ensures var e := WithSurrogates(Sample("a", 1, NAMED), surrogates);
            IsIngestible(e) && Pipeline.DiesOf(FRESH, Pipeline.Deliver([], e), {e})
  {
    var e := WithSurrogates(Sample("a", 1, NAMED), surrogates);
    NamedRow("a", 1);
    FreshIsSound();
    Pipeline.CrashAlone(FRESH, {e}, e);
  }
}
