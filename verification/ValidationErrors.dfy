/** Which errors the server's validator returns for an event. */
module ValidationErrors {
  import opened Sequences
  import opened Text
  import opened Events
  import opened FormBuilder
  import opened EventValidation

  // ---------- what each error says ----------

  predicate IsMissing(e: Event, error: Invalid) {
    && error.MissingField?
    && (|| (error.field == "id" && e.id.Absent?) || (error.field == "pubkey" && e.pubkey.Absent?)
        || (error.field == "created_at" && e.createdAt.Absent?) || (error.field == "kind" && e.kind.Absent?)
        || (error.field == "tags" && e.tags.Absent?) || (error.field == "content" && e.content.Absent?)
        || (error.field == "sig" && e.sig.Absent?))
  }

  predicate AnyMissing(e: Event) {
    || e.id.Absent? || e.pubkey.Absent? || e.createdAt.Absent? || e.kind.Absent? || e.tags.Absent?
    || e.content.Absent? || e.sig.Absent?
  }

  predicate IsMistyped(e: Event, error: Invalid) {
    && error.WrongType?
    && (|| (error.field == "id" && !e.id.Str?) || (error.field == "pubkey" && !e.pubkey.Str?)
        || (error.field == "created_at" && !e.createdAt.IsInt()) || (error.field == "kind" && !e.kind.IsInt())
        || (error.field == "tags" && !e.tags.List?) || (error.field == "content" && !e.content.Str?)
        || (error.field == "sig" && !e.sig.Str?))
  }

  predicate IsBadField(e: Event, error: Invalid)
    requires IsTyped(e)
  {
    && error.BadField?
    && (|| (error.field == "kind" && e.kind.AsInt() != 33301)
        || (error.field == "id" && !IsLowerHexOf(Lower(e.id.text), 64))
        || (error.field == "pubkey" && !IsLowerHexOf(Lower(e.pubkey.text), 64))
        || (error.field == "sig" && !IsLowerHexOf(Lower(e.sig.text), 128))
        || (error.field == "created_at" && e.createdAt.AsInt() <= 0))
  }

  predicate IsMissingTag(e: Event, error: Invalid) {
    && error.MissingTag?
    && (error.key == "d" || error.key == "name" || error.key == "format" || error.key == "url")
    && FirstValue(e.tags, error.key).None?
  }

  /** Only the first value of a key is looked at. */
  predicate IsBadTag(e: Event, error: Invalid)
    requires IsTyped(e)
  {
    && error.BadTag?
    && if error.key == SCHEMA_KEY then SchemaVersion(e.tags).None?
       else FirstValue(e.tags, error.key).Some? && IsBadValue(error.key, FirstValue(e.tags, error.key).value, e.id.text)
  }

  predicate IsBadValue(key: string, value: string, eventId: string) {
    || (key == "d" && !IsDesignId(value))
    || (key == "name" && (!(1 <= |NormalizeName(value)| <= 120) || HasControlOrBidi(NormalizeName(value))))
    || (key == "format" && !IsFormat(Lower(value)))
    || (key == "url" && !StartsWith(value, "https://"))
    || (key == "sha256" && !IsLowerHexOf(Lower(value), 64))
    || (key == PREVIOUS_KEY && (!IsLowerHexOf(Lower(value), 64) || Lower(value) == Lower(eventId)))
  }

  predicate IsBadContent(e: Event, error: Invalid)
    requires IsTyped(e)
  {
    error == BadField("content") && HasControlOrBidi(e.content.text)
  }

  /** Missing fields are reported alone, then wrong types alone; tags that are no lists of strings keep
      tags and content from being looked at. */
  predicate IsFault(e: Event, error: Invalid) {
    if AnyMissing(e) then IsMissing(e, error)
    else if !IsTyped(e) then IsMistyped(e, error)
    else if !AreStringLists(e.tags.items) then IsBadField(e, error) || error == BadField("tags")
    else IsBadField(e, error) || IsMissingTag(e, error) || IsBadTag(e, error) || IsBadContent(e, error)
  }

  // ---------- membership ----------

  lemma {:induction false} MissingFaults(e: Event, error: Invalid)
    ensures error in MissingFields(e) <==> IsMissing(e, error)
  {
    InWhen(e.id.Absent?, MissingField("id"), error);
    InWhen(e.pubkey.Absent?, MissingField("pubkey"), error);
    InWhen(e.createdAt.Absent?, MissingField("created_at"), error);
    InWhen(e.kind.Absent?, MissingField("kind"), error);
    InWhen(e.tags.Absent?, MissingField("tags"), error);
    InWhen(e.content.Absent?, MissingField("content"), error);
    InWhen(e.sig.Absent?, MissingField("sig"), error);
    InSeven(When(e.id.Absent?, MissingField("id")), When(e.pubkey.Absent?, MissingField("pubkey")),
            When(e.createdAt.Absent?, MissingField("created_at")), When(e.kind.Absent?, MissingField("kind")),
            When(e.tags.Absent?, MissingField("tags")), When(e.content.Absent?, MissingField("content")),
            When(e.sig.Absent?, MissingField("sig")), error);
  }

  lemma {:induction false} NoneMissing(e: Event)
    ensures |MissingFields(e)| > 0 <==> AnyMissing(e)
  {
    if |MissingFields(e)| > 0 { MissingFaults(e, MissingFields(e)[0]); }
    MissingFaults(e, MissingField("id"));
    MissingFaults(e, MissingField("pubkey"));
    MissingFaults(e, MissingField("created_at"));
    MissingFaults(e, MissingField("kind"));
    MissingFaults(e, MissingField("tags"));
    MissingFaults(e, MissingField("content"));
    MissingFaults(e, MissingField("sig"));
  }

  lemma {:induction false} TypeFaults(e: Event, error: Invalid)
    ensures error in WrongTypes(e) <==> IsMistyped(e, error)
  {
    InWhen(!e.id.Str?, WrongType("id"), error);
    InWhen(!e.pubkey.Str?, WrongType("pubkey"), error);
    InWhen(!e.createdAt.IsInt(), WrongType("created_at"), error);
    InWhen(!e.kind.IsInt(), WrongType("kind"), error);
    InWhen(!e.tags.List?, WrongType("tags"), error);
    InWhen(!e.content.Str?, WrongType("content"), error);
    InWhen(!e.sig.Str?, WrongType("sig"), error);
    InSeven(When(!e.id.Str?, WrongType("id")), When(!e.pubkey.Str?, WrongType("pubkey")),
            When(!e.createdAt.IsInt(), WrongType("created_at")), When(!e.kind.IsInt(), WrongType("kind")),
            When(!e.tags.List?, WrongType("tags")), When(!e.content.Str?, WrongType("content")),
            When(!e.sig.Str?, WrongType("sig")), error);
  }

  lemma {:induction false} FieldFaults(e: Event, error: Invalid)
    requires IsTyped(e)
    ensures error in BadFields(e) <==> IsBadField(e, error)
  {
    var kinds, ids := When(e.kind.AsInt() != 33301, BadField("kind")),
                      When(!IsLowerHexOf(Lower(e.id.text), 64), BadField("id"));
    var keys, sigs := When(!IsLowerHexOf(Lower(e.pubkey.text), 64), BadField("pubkey")),
                      When(!IsLowerHexOf(Lower(e.sig.text), 128), BadField("sig"));
    InWhen(e.kind.AsInt() != 33301, BadField("kind"), error);
    InWhen(!IsLowerHexOf(Lower(e.id.text), 64), BadField("id"), error);
    InWhen(!IsLowerHexOf(Lower(e.pubkey.text), 64), BadField("pubkey"), error);
    InWhen(!IsLowerHexOf(Lower(e.sig.text), 128), BadField("sig"), error);
    InWhen(e.createdAt.AsInt() <= 0, BadField("created_at"), error);
    InFour(kinds, ids, keys, sigs, error);
    InConcat(kinds + ids + keys + sigs, When(e.createdAt.AsInt() <= 0, BadField("created_at")), error);
  }

  lemma {:induction false} MissingTagFaults(e: Event, error: Invalid)
    ensures error in MissingTags(e.tags) <==> IsMissingTag(e, error)
  {
    InWhen(|TagValues(e.tags, "d")| == 0, MissingTag("d"), error);
    InWhen(|TagValues(e.tags, "name")| == 0, MissingTag("name"), error);
    InWhen(|TagValues(e.tags, "format")| == 0, MissingTag("format"), error);
    InWhen(|TagValues(e.tags, "url")| == 0, MissingTag("url"), error);
    InFour(When(|TagValues(e.tags, "d")| == 0, MissingTag("d")),
           When(|TagValues(e.tags, "name")| == 0, MissingTag("name")),
           When(|TagValues(e.tags, "format")| == 0, MissingTag("format")),
           When(|TagValues(e.tags, "url")| == 0, MissingTag("url")), error);
  }

  /** Whether the first value under a key, if any, is a bad one. */
  predicate IsBadFirst(key: string, values: seq<string>, eventId: string) {
    |values| > 0 && IsBadValue(key, values[0], eventId)
  }

  lemma {:induction false} KeysAreDistinct()
    ensures "d" != "name" && "d" != "format" && "d" != "url" && "d" != "sha256" && "d" != SCHEMA_KEY
        && "d" != PREVIOUS_KEY
    ensures "name" != "format" && "name" != "url" && "name" != "sha256" && "name" != SCHEMA_KEY
        && "name" != PREVIOUS_KEY
    ensures "format" != "url" && "format" != "sha256" && "format" != SCHEMA_KEY && "format" != PREVIOUS_KEY
    ensures "url" != "sha256" && "url" != SCHEMA_KEY && "url" != PREVIOUS_KEY
    ensures "sha256" != SCHEMA_KEY && "sha256" != PREVIOUS_KEY && SCHEMA_KEY != PREVIOUS_KEY
  {
    assert "format"[0] != "sha256"[0];
  }

  lemma {:induction false} ValueFaults(
    d: seq<string>, names: seq<string>, formats: seq<string>, urls: seq<string>, shas: seq<string>,
    previous: seq<string>, eventId: string, error: Invalid)
    ensures error in BadDesignIds(d) <==> error == BadTag("d") && IsBadFirst("d", d, eventId)
    ensures error in NameTagErrors(names) <==> error == BadTag("name") && IsBadFirst("name", names, eventId)
    ensures error in BadFormats(formats) <==> error == BadTag("format") && IsBadFirst("format", formats, eventId)
    ensures error in BadUrls(urls) <==> error == BadTag("url") && IsBadFirst("url", urls, eventId)
    ensures error in BadShas(shas) <==> error == BadTag("sha256") && IsBadFirst("sha256", shas, eventId)
    ensures error in PreviousErrors(previous, Lower(eventId)) <==>
      error == BadTag(PREVIOUS_KEY) && IsBadFirst(PREVIOUS_KEY, previous, eventId)
  {
    KeysAreDistinct();
  }

  lemma {:induction false} InWrongTags(e: Event, error: Invalid)
    requires IsTyped(e)
    ensures error in WrongTags(e) <==>
      || error in BadDesignIds(TagValues(e.tags, "d")) || error in NameTagErrors(TagValues(e.tags, "name"))
      || error in BadFormats(TagValues(e.tags, "format")) || error in BadUrls(TagValues(e.tags, "url"))
      || error in BadShas(TagValues(e.tags, "sha256"))
      || (error == BadTag(SCHEMA_KEY) && SchemaVersion(e.tags).None?)
      || error in PreviousErrors(TagValues(e.tags, PREVIOUS_KEY), Lower(e.id.text))
  {
    InWhen(SchemaVersion(e.tags).None?, BadTag(SCHEMA_KEY), error);
    InSeven(BadDesignIds(TagValues(e.tags, "d")), NameTagErrors(TagValues(e.tags, "name")),
            BadFormats(TagValues(e.tags, "format")), BadUrls(TagValues(e.tags, "url")),
            BadShas(TagValues(e.tags, "sha256")), When(SchemaVersion(e.tags).None?, BadTag(SCHEMA_KEY)),
            PreviousErrors(TagValues(e.tags, PREVIOUS_KEY), Lower(e.id.text)), error);
  }

  lemma {:induction false} TagFaults(e: Event, error: Invalid)
    requires IsTyped(e)
    ensures error in WrongTags(e) <==> IsBadTag(e, error)
  {
    InWrongTags(e, error);
    ValueFaults(TagValues(e.tags, "d"), TagValues(e.tags, "name"), TagValues(e.tags, "format"),
                TagValues(e.tags, "url"), TagValues(e.tags, "sha256"), TagValues(e.tags, PREVIOUS_KEY), e.id.text,
                error);
    KeysAreDistinct();
  }

  lemma {:induction false} BadTagFaults(e: Event, error: Invalid)
    requires IsTyped(e)
    ensures error in BadTags(e) <==> IsMissingTag(e, error) || IsBadTag(e, error) || IsBadContent(e, error)
  {
    var bad := When(HasControlOrBidi(e.content.text), BadField("content"));
    InConcat(MissingTags(e.tags) + WrongTags(e), bad, error);
    InConcat(MissingTags(e.tags), WrongTags(e), error);
    InWhen(HasControlOrBidi(e.content.text), BadField("content"), error);
    MissingTagFaults(e, error);
    TagFaults(e, error);
  }

  /** The errors returned for an event are exactly its faults. */
  lemma {:induction false} ErrorsAreFaults(e: Event, error: Invalid)
    ensures error in Errors(Some(e)) <==> IsFault(e, error)
  {
    NoneMissing(e);
    MissingFaults(e, error);
    TypeFaults(e, error);
    if IsTyped(e) {
      FieldFaults(e, error);
      BadTagFaults(e, error);
      InConcat(BadFields(e), [BadField("tags")], error);
      InConcat(BadFields(e), BadTags(e), error);
    }
  }
}
