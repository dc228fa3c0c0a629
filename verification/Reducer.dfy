/** The reducer: folds one delivered event into the version log and the current-design row. */
module Reducer {
  import opened Sequences
  import opened Text
  import opened Events
  import opened Tables

  // ---------- reading an event ----------

  /** The predecessor an event names, and whether it carries a predecessor tag at all. */
  datatype Lineage = Lineage(previous: Option<string>, hasTag: bool)

  function LineageOf(tags: Json, eventId: string): Lineage {
    match FirstValue(tags, PREVIOUS_KEY)
    case None => Lineage(None, false)
    case Some(raw) =>
      var normalized := Lower(PyStrip(raw));
      if !IsLowerHexOf(normalized, 64) || normalized == eventId then Lineage(None, true)
      else Lineage(Some(normalized), true)
  }

  /** However a predecessor is spelled, in either case and between blanks, it is read as the
      lower-case id, as long as it is 64 hex characters and not the event's own id. */
  lemma {:induction false} PredecessorRead(tags: Json, eventId: string, before: string, spelled: string, after: string)
    requires FirstValue(tags, PREVIOUS_KEY) == Some(before + spelled + after)
    requires AllSpace(before, IsPySpace) && AllSpace(after, IsPySpace)
    requires IsLowerHexOf(Lower(spelled), 64)
    ensures LineageOf(tags, eventId)
         == Lineage(if Lower(spelled) == eventId then None else Some(Lower(spelled)), true)
  {
    assert IsLowerHex(LowerChar(spelled[0])) && IsLowerHex(LowerChar(spelled[63]));
    TrimPadded(before, spelled, after, IsPySpace);
  }

  const REQUIRED_KEYS: set<string> := {"d", "name", "format", "sha256", "url"}

  /** dict.setdefault(key, []).append(value) on an insertion-ordered dict. */
  function PutTag(tags: TagMap, key: string, value: string): TagMap {
    if |tags| == 0 then [TagEntry(key, [value])]
    else if tags[0].key == key then [TagEntry(key, tags[0].values + [value])] + tags[1..]
    else [tags[0]] + PutTag(tags[1..], key, value)
  }

  function OptionalTagsIn(tags: seq<Json>): TagMap {
    if |tags| == 0 then []
    else
      var before := OptionalTagsIn(tags[..|tags| - 1]);
      var last := tags[|tags| - 1];
      if IsPair(last) && last.items[0].text !in REQUIRED_KEYS
      then PutTag(before, last.items[0].text, last.items[1].text)
      else before
  }

  function OptionalTags(tags: Json): TagMap {
    if tags.List? then OptionalTagsIn(tags.items) else []
  }

  method BuildOptionalTags(tags: Json) returns (optional: TagMap)
    ensures optional == OptionalTags(tags)
  {
    optional := [];
    if !tags.List? { return; }
    for i := 0 to |tags.items|
      invariant optional == OptionalTagsIn(tags.items[..i])
    {
      var tag := tags.items[i];
      assert tags.items[..i + 1][..i] == tags.items[..i];
      if !(tag.List? && |tag.items| >= 2) { continue; }
      if !(tag.items[0].Str? && tag.items[1].Str?) { continue; }
      if tag.items[0].text in REQUIRED_KEYS { continue; }
      optional := PutTag(optional, tag.items[0].text, tag.items[1].text);
    }
    assert tags.items[..|tags.items|] == tags.items;
  }

  /** The list under a key of the object, empty when the key is missing. */
  function Lookup(tags: TagMap, key: string): seq<string> {
    if |tags| == 0 then [] else if tags[0].key == key then tags[0].values else Lookup(tags[1..], key)
  }

  lemma {:induction false} LookupPutTag(tags: TagMap, key: string, value: string, asked: string)
    ensures Lookup(PutTag(tags, key, value), asked)
         == Lookup(tags, asked) + (if asked == key then [value] else [])
  {
    if |tags| > 0 && tags[0].key != key {
      LookupPutTag(tags[1..], key, value, asked);
      assert ([tags[0]] + PutTag(tags[1..], key, value))[1..] == PutTag(tags[1..], key, value);
    }
  }

  /** The object holds, for every key that has no column of its own, exactly the values the
      tag reader finds for it, in order; the other keys are not in it. */
  lemma {:induction false} OptionalTagsMeaning(tags: Json, key: string)
    ensures Lookup(OptionalTags(tags), key)
         == if key in {"d", "name", "format", "sha256", "url"} then [] else TagValues(tags, key)
  {
    if tags.List? { OptionalTagsInMeaning(tags.items, key); }
  }

  lemma {:induction false} OptionalTagsInMeaning(tags: seq<Json>, key: string)
    ensures Lookup(OptionalTagsIn(tags), key) == if key in REQUIRED_KEYS then [] else ValuesIn(tags, key)
  {
    if |tags| > 0 {
      var front, last := tags[..|tags| - 1], tags[|tags| - 1];
      OptionalTagsInMeaning(front, key);
      if IsPair(last) && last.items[0].text !in REQUIRED_KEYS {
        LookupPutTag(OptionalTagsIn(front), last.items[0].text, last.items[1].text, key);
      }
    }
  }

  function KeysOf(tags: TagMap): (r: seq<string>)
    ensures |r| == |tags| && forall i :: 0 <= i < |tags| ==> r[i] == tags[i].key
  {
    seq(|tags|, i requires 0 <= i < |tags| => tags[i].key)
  }

  lemma {:induction false} KeysFirst(first: TagEntry, rest: TagMap)
    ensures KeysOf([first] + rest) == [first.key] + KeysOf(rest)
    ensures forall key :: key in KeysOf([first] + rest) <==> key == first.key || key in KeysOf(rest)
  {
    forall key { InConcat([first.key], KeysOf(rest), key); }
  }

  lemma {:induction false} KeyIsPut(key: string, value: string)
    ensures KeysOf(PutTag([], key, value)) == [key] && KeysOf([]) == []
  {
  }

  lemma {:induction false} PutTagKeys(tags: TagMap, key: string, value: string)
    ensures KeysOf(PutTag(tags, key, value)) == if key in KeysOf(tags) then KeysOf(tags) else KeysOf(tags) + [key]
  {
    if |tags| == 0 {
      KeyIsPut(key, value);
    } else {
      assert tags == [tags[0]] + tags[1..];
      KeysFirst(tags[0], tags[1..]);
      if tags[0].key == key {
        KeysFirst(TagEntry(key, tags[0].values + [value]), tags[1..]);
      } else {
        PutTagKeys(tags[1..], key, value);
        KeysFirst(tags[0], PutTag(tags[1..], key, value));
        Associates([tags[0].key], KeysOf(tags[1..]), [key]);
      }
    }
  }

  lemma {:induction false} FirstIndexLast(tags: seq<Json>, key: string)
    requires |tags| > 0
    ensures var front := tags[..|tags| - 1];
            FirstIndex(tags, key)
            == if FirstIndex(front, key) < |front| then FirstIndex(front, key)
               else if HasKey(tags[|front|], key) then |front| else |tags|
  {
    var front := tags[..|tags| - 1];
    var i, j := FirstIndex(tags, key), FirstIndex(front, key);
    assert forall k :: 0 <= k < |front| ==> front[k] == tags[k];
  }

  /** The keys are those found in the list that have no column, in the order they are first found. */
  ghost predicate AreFirstFound(keys: seq<string>, tags: seq<Json>) {
    && (forall key :: key in keys <==> key !in REQUIRED_KEYS && FirstIndex(tags, key) < |tags|)
    && forall i, j :: 0 <= i < j < |keys| ==> FirstIndex(tags, keys[i]) < FirstIndex(tags, keys[j])
  }

  lemma {:induction false} FoundLater(keys: seq<string>, tags: seq<Json>)
    requires |tags| > 0 && AreFirstFound(keys, tags[..|tags| - 1])
    requires var last := tags[|tags| - 1];
             IsPair(last) ==> last.items[0].text in keys || last.items[0].text in REQUIRED_KEYS
    ensures AreFirstFound(keys, tags)
  {
    forall key ensures key in keys <==> key !in REQUIRED_KEYS && FirstIndex(tags, key) < |tags| {
      FirstIndexLast(tags, key);
    }
    forall i, j | 0 <= i < j < |keys| ensures FirstIndex(tags, keys[i]) < FirstIndex(tags, keys[j]) {
      FirstIndexLast(tags, keys[i]);
      FirstIndexLast(tags, keys[j]);
    }
  }

  lemma {:induction false} FoundNow(keys: seq<string>, tags: seq<Json>)
    requires |tags| > 0 && AreFirstFound(keys, tags[..|tags| - 1]) && IsPair(tags[|tags| - 1])
    requires tags[|tags| - 1].items[0].text !in keys && tags[|tags| - 1].items[0].text !in REQUIRED_KEYS
    ensures AreFirstFound(keys + [tags[|tags| - 1].items[0].text], tags)
  {
    var found := tags[|tags| - 1].items[0].text;
    forall key ensures key in keys + [found] <==> key !in REQUIRED_KEYS && FirstIndex(tags, key) < |tags| {
      FirstIndexLast(tags, key);
    }
    forall i, j | 0 <= i < j < |keys| + 1
      ensures FirstIndex(tags, (keys + [found])[i]) < FirstIndex(tags, (keys + [found])[j])
    {
      FirstIndexLast(tags, (keys + [found])[i]);
      FirstIndexLast(tags, (keys + [found])[j]);
    }
  }

  /** The object's keys come in the order in which the list first has them. */
  lemma {:induction false} OptionalTagsOrder(tags: seq<Json>)
    ensures AreFirstFound(KeysOf(OptionalTagsIn(tags)), tags)
  {
    if |tags| > 0 {
      var front, last := tags[..|tags| - 1], tags[|tags| - 1];
      OptionalTagsOrder(front);
      if IsPair(last) && last.items[0].text !in REQUIRED_KEYS {
        PutTagKeys(OptionalTagsIn(front), last.items[0].text, last.items[1].text);
        if last.items[0].text in KeysOf(OptionalTagsIn(front)) {
          FoundLater(KeysOf(OptionalTagsIn(front)), tags);
        } else {
          FoundNow(KeysOf(OptionalTagsIn(front)), tags);
        }
      } else {
        FoundLater(KeysOf(OptionalTagsIn(front)), tags);
      }
    }
  }

  /** The row an ingestible event becomes in the version log. */
  function VersionOf(env: Envelope): Version
    requires IsIngestible(env.event)
  {
    var e := env.event;
    Version(
      e.id.text, e.pubkey.text, FirstValue(e.tags, "d").value, LineageOf(e.tags, e.id.text).previous,
      e.kind.AsInt(), e.createdAt.AsInt(),
      FirstValue(e.tags, "name"), FirstValue(e.tags, "format"), FirstValue(e.tags, "sha256"), FirstValue(e.tags, "url"),
      if e.content.Str? then Some(e.content.text) else None, e, env.receivedAt)
  }

  // ---------- the fold ----------

  /** The 1.1 rule: a design's first version has no predecessor tag, each later one a usable one. */
  predicate LineageAllowed(schema: string, lineage: Lineage, isInitial: bool) {
    schema == SCHEMA_1_1 ==> if isInitial then !lineage.hasTag else lineage.previous.Some?
  }

  function NextCurrent(current: Option<Current>, v: Version): Current {
    match current
    case None =>
      Current(v.pubkey, v.designId, v.eventId, v.createdAt, v.createdAt, v.receivedAt, v.receivedAt, 1,
              v.name, v.format, v.sha256, v.url, v.content, OptionalTags(v.raw.tags))
    case Some(row) =>
      var kept := row.(pubkey := v.pubkey, designId := v.designId, updatedAt := v.receivedAt,
          versionCount := row.versionCount + 1);
      if IsNewer(v.createdAt, v.eventId, row.latestPublishedAt, row.latestEventId)
      then kept.(latestEventId := v.eventId, latestPublishedAt := v.createdAt, name := v.name, format := v.format,
                 sha256 := v.sha256, url := v.url, content := v.content, tags := OptionalTags(v.raw.tags))
      else kept
  }

  /** Raised: an exception left the reducer. Dropped: refused with a warning. */
  datatype Outcome = Raised | Dropped | Duplicate | Reduced

  datatype Reduction = Reduction(db: Db, outcome: Outcome)

  /** Whether the event reaches the append, judged against the rows present before it. */
  predicate IsAdmitted(db: Db, e: Event) {
    IsIngestible(e) && IsAdmittedAs(e, KeyOf(e) !in db.designs)
  }

  predicate IsAdmittedAs(e: Event, isInitial: bool)
    requires IsIngestible(e)
  {
    && SchemaVersion(e.tags).Some?
    && LineageAllowed(SchemaVersion(e.tags).value, LineageOf(e.tags, e.id.text), isInitial)
  }

  function KeyOf(e: Event): Key
    requires IsIngestible(e)
  {
    Key(e.pubkey.text, FirstValue(e.tags, "d").value)
  }

  predicate IsSeen(e: Event) { e.id.Str? && e.pubkey.Str? && !e.surrogates.InPubkey? }

  function WithIdentity(db: Db, env: Envelope): Db {
    if IsSeen(env.event)
    then db.(identities := EnsurePending(db.identities, env.event.pubkey.text, env.receivedAt))
    else db
  }

  /** Append, then upsert the current row: two separate commits. */
  function Commit(db: Db, v: Version): Reduction {
    if !IsBindable(v) then Reduction(db, Raised)
    else if IsStored(db.versions, v.eventId) then Reduction(db, Duplicate)
    else
      var appended := db.(versions := db.versions + [v]);
      var row := NextCurrent(Find(db.designs, v.DesignKey()), v);
      if !IsStored(appended.versions, row.latestEventId) then Reduction(appended, Raised)
      else Reduction(appended.(designs := db.designs[row.DesignKey() := row]), Reduced)
  }

  function Decide(db: Db, env: Envelope): Reduction
    requires IsIngestible(env.event)
  {
    if IsAdmitted(db, env.event) then Commit(db, VersionOf(env)) else Reduction(db, Dropped)
  }

  function Reduce(db: Db, env: Envelope): Reduction {
    var seen := WithIdentity(db, env);
    if !IsIngestible(env.event) || !IsSeen(env.event) then Reduction(seen, Raised)
    else Decide(seen, env)
  }

  class ReducerWorker {
    const store: SqliteStore
    var processed: nat
    var duplicates: nat
    var reduced: nat

    constructor (store: SqliteStore)
      ensures this.store == store && processed == duplicates == reduced == 0
    {
      this.store := store;
      processed, duplicates, reduced := 0, 0, 0;
    }

    /** The row to upsert, field by field. */
    method BuildNextCurrent(current: Option<Current>, row: Version) returns (next: Current)
      ensures next == NextCurrent(current, row)
    {
      var tags := BuildOptionalTags(row.raw.tags);
      if current.None? {
        return Current(row.pubkey, row.designId, row.eventId, row.createdAt, row.createdAt,
                       row.receivedAt, row.receivedAt, 1,
                       row.name, row.format, row.sha256, row.url, row.content, tags);
      }
      var c := current.value;
      var isNewer := IsNewer(row.createdAt, row.eventId, c.latestPublishedAt, c.latestEventId);
      next := Current(
        row.pubkey, row.designId,
        if isNewer then row.eventId else c.latestEventId,
        if isNewer then row.createdAt else c.latestPublishedAt,
        c.firstPublishedAt, c.firstSeenAt, row.receivedAt, c.versionCount + 1,
        if isNewer then row.name else c.name,
        if isNewer then row.format else c.format,
        if isNewer then row.sha256 else c.sha256,
        if isNewer then row.url else c.url,
        if isNewer then row.content else c.content,
        if isNewer then tags else c.tags);
    }

    method ReduceOne(env: Envelope) returns (raised: bool)
      modifies this, store
      ensures store.Contents() == Reduce(old(store.Contents()), env).db
      ensures raised <==> Reduce(old(store.Contents()), env).outcome.Raised?
      ensures processed == old(processed) + 1
      ensures duplicates == old(duplicates) + if Reduce(old(store.Contents()), env).outcome.Duplicate? then 1 else 0
      ensures reduced == old(reduced) + if Reduce(old(store.Contents()), env).outcome.Reduced? then 1 else 0
    {
      processed := processed + 1;
      var e := env.event;
      if !e.id.Str? || !e.pubkey.Str? { return true; }
      var eventId, pubkey := e.id.text, e.pubkey.text;
      if e.surrogates.InPubkey? { return true; }
      store.EnsureIdentityPending(pubkey, env.receivedAt);

      var wellFormed := HasDesignAndTimes(e);
      if !wellFormed { return true; }
      raised := ReduceIngestible(env);
    }

    /** From the schema version on. */
    method ReduceIngestible(env: Envelope) returns (raised: bool)
      requires IsIngestible(env.event)
      modifies this, store
      ensures store.Contents() == Decide(old(store.Contents()), env).db
      ensures raised <==> Decide(old(store.Contents()), env).outcome.Raised?
      ensures processed == old(processed)
      ensures duplicates == old(duplicates) + if Decide(old(store.Contents()), env).outcome.Duplicate? then 1 else 0
      ensures reduced == old(reduced) + if Decide(old(store.Contents()), env).outcome.Reduced? then 1 else 0
    {
      var e := env.event;
      var schema := ResolveSchemaVersion(e.tags);
      if schema.None? { return false; }

      var row := VersionOf(env);
      var current := store.GetDesign(row.pubkey, row.designId);
      var lineage := LineageOf(e.tags, row.eventId);
      if schema.value == SCHEMA_1_1 {
        if current.None? && lineage.hasTag { return false; }
        if current.Some? && lineage.previous.None? { return false; }
      }
      raised := CommitVersion(current, row);
    }

    /** The remaining invariants the reducer checks before it goes on. */
    static method HasDesignAndTimes(e: Event) returns (ok: bool)
      requires e.id.Str? && e.pubkey.Str?
      ensures ok <==> IsIngestible(e)
    {
      var d := FirstValue(e.tags, "d");
      if d.None? || !IsDesignId(d.value) { return false; }
      if !e.kind.IsInt() || !e.createdAt.IsInt() { return false; }
      ok := true;
    }

    method CommitVersion(current: Option<Current>, row: Version) returns (raised: bool)
      requires current == Find(store.designs, row.DesignKey())
      modifies this, store
      ensures store.Contents() == Commit(old(store.Contents()), row).db
      ensures raised <==> Commit(old(store.Contents()), row).outcome.Raised?
      ensures !Commit(old(store.Contents()), row).outcome.Dropped?
      ensures processed == old(processed)
      ensures duplicates == old(duplicates) + if Commit(old(store.Contents()), row).outcome.Duplicate? then 1 else 0
      ensures reduced == old(reduced) + if Commit(old(store.Contents()), row).outcome.Reduced? then 1 else 0
    {
      var appended := store.AppendDesignVersion(row);
      if appended.NotBound? { return true; }
      if appended.Ignored? {
        duplicates := duplicates + 1;
        return false;
      }
      var next := BuildNextCurrent(current, row);
      var ok := store.UpsertDesignCurrent(next);
      if !ok { return true; }
      reduced := reduced + 1;
      raised := false;
    }
  }
}
