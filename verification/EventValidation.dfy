/** The server's validator of signed design events. */
module EventValidation {
  import opened Sequences
  import opened Text
  import opened Events
  import opened FormBuilder

  datatype Invalid =
    | NotAnObject | MissingField(field: string) | WrongType(field: string) | BadField(field: string)
    | MissingTag(key: string) | BadTag(key: string)

  function MissingFields(e: Event): seq<Invalid> {
    When(e.id.Absent?, MissingField("id")) + When(e.pubkey.Absent?, MissingField("pubkey"))
    + When(e.createdAt.Absent?, MissingField("created_at")) + When(e.kind.Absent?, MissingField("kind"))
    + When(e.tags.Absent?, MissingField("tags")) + When(e.content.Absent?, MissingField("content"))
    + When(e.sig.Absent?, MissingField("sig"))
  }

  function WrongTypes(e: Event): seq<Invalid> {
    When(!e.id.Str?, WrongType("id")) + When(!e.pubkey.Str?, WrongType("pubkey"))
    + When(!e.createdAt.IsInt(), WrongType("created_at")) + When(!e.kind.IsInt(), WrongType("kind"))
    + When(!e.tags.List?, WrongType("tags")) + When(!e.content.Str?, WrongType("content"))
    + When(!e.sig.Str?, WrongType("sig"))
  }

  predicate IsTyped(e: Event) {
    e.id.Str? && e.pubkey.Str? && e.createdAt.IsInt() && e.kind.IsInt() && e.tags.List? && e.content.Str? && e.sig.Str?
  }

  function BadFields(e: Event): seq<Invalid>
    requires IsTyped(e)
  {
    When(e.kind.AsInt() != 33301, BadField("kind"))
    + When(!IsLowerHexOf(Lower(e.id.text), 64), BadField("id"))
    + When(!IsLowerHexOf(Lower(e.pubkey.text), 64), BadField("pubkey"))
    + When(!IsLowerHexOf(Lower(e.sig.text), 128), BadField("sig"))
    + When(e.createdAt.AsInt() <= 0, BadField("created_at"))
  }

  predicate IsStringList(tag: Json) {
    tag.List? && forall j :: 0 <= j < |tag.items| ==> tag.items[j].Str?
  }

  predicate AreStringLists(tags: seq<Json>) { forall i :: 0 <= i < |tags| ==> IsStringList(tags[i]) }

  /** " ".join(value.strip().split()) */
  function NormalizeName(value: string): string { Collapse(PyStrip(value), IsPySpace) }

  function NameTagErrors(values: seq<string>): seq<Invalid> {
    if |values| == 0 then []
    else
      var name := NormalizeName(values[0]);
      When(!(1 <= |name| <= 120), BadTag("name")) + When(HasControlOrBidi(name), BadTag("name"))
  }

  function PreviousErrors(values: seq<string>, eventId: string): seq<Invalid> {
    if |values| == 0 then []
    else
      var previous := Lower(values[0]);
      When(!IsLowerHexOf(previous, 64) || previous == eventId, BadTag(PREVIOUS_KEY))
  }

  function MissingTags(tags: Json): seq<Invalid> {
    When(|TagValues(tags, "d")| == 0, MissingTag("d")) + When(|TagValues(tags, "name")| == 0, MissingTag("name"))
    + When(|TagValues(tags, "format")| == 0, MissingTag("format")) + When(|TagValues(tags, "url")| == 0,
        MissingTag("url"))
  }

  function BadDesignIds(d: seq<string>): seq<Invalid> { When(|d| > 0 && !IsDesignId(d[0]), BadTag("d")) }

  function BadFormats(formats: seq<string>): seq<Invalid> {
    When(|formats| > 0 && !IsFormat(Lower(formats[0])), BadTag("format"))
  }

  function BadUrls(urls: seq<string>): seq<Invalid> {
    When(|urls| > 0 && !StartsWith(urls[0], "https://"), BadTag("url"))
  }

  function BadShas(shas: seq<string>): seq<Invalid> {
    When(|shas| > 0 && !IsLowerHexOf(Lower(shas[0]), 64), BadTag("sha256"))
  }

  function WrongTags(e: Event): seq<Invalid>
    requires IsTyped(e)
  {
    BadDesignIds(TagValues(e.tags, "d")) + NameTagErrors(TagValues(e.tags, "name"))
    + BadFormats(TagValues(e.tags, "format")) + BadUrls(TagValues(e.tags, "url"))
    + BadShas(TagValues(e.tags, "sha256"))
    + When(SchemaVersion(e.tags).None?, BadTag(SCHEMA_KEY))
    + PreviousErrors(TagValues(e.tags, PREVIOUS_KEY), Lower(e.id.text))
  }

  function BadTags(e: Event): seq<Invalid>
    requires IsTyped(e)
  {
    MissingTags(e.tags) + WrongTags(e) + When(HasControlOrBidi(e.content.text), BadField("content"))
  }

  /** The errors the validator returns; a value that is no object comes as None. */
  function Errors(event: Option<Event>): seq<Invalid> {
    match event
    case None => [NotAnObject]
    case Some(e) =>
      if |MissingFields(e)| > 0 then MissingFields(e)
      else if !IsTyped(e) then WrongTypes(e)
      else if !AreStringLists(e.tags.items) then BadFields(e) + [BadField("tags")]
      else BadFields(e) + BadTags(e)
  }

  /** The first values of the tags every event must carry. */
  predicate AreRequired(d: seq<string>, names: seq<string>, formats: seq<string>, urls: seq<string>) {
    && |d| > 0 && IsDesignId(d[0])
    && |names| > 0 && 1 <= |NormalizeName(names[0])| <= 120 && !HasControlOrBidi(NormalizeName(names[0]))
    && |formats| > 0 && IsFormat(Lower(formats[0]))
    && |urls| > 0 && StartsWith(urls[0], "https://")
  }

  /** The first values of the tags an event may carry. */
  predicate AreOptional(shas: seq<string>, previous: seq<string>, eventId: string) {
    && (|shas| > 0 ==> IsLowerHexOf(Lower(shas[0]), 64))
    && (|previous| > 0 ==> IsLowerHexOf(Lower(previous[0]), 64) && Lower(previous[0]) != eventId)
  }

  predicate HasValidTags(e: Event)
    requires IsTyped(e)
  {
    && AreRequired(TagValues(e.tags, "d"), TagValues(e.tags, "name"),
                   TagValues(e.tags, "format"), TagValues(e.tags, "url"))
    && AreOptional(TagValues(e.tags, "sha256"), TagValues(e.tags, PREVIOUS_KEY), Lower(e.id.text))
    && SchemaVersion(e.tags).Some?
    && !HasControlOrBidi(e.content.text)
  }

  /** What it takes to pass. */
  predicate IsValid(e: Event) {
    && IsTyped(e) && e.kind.AsInt() == 33301 && e.createdAt.AsInt() > 0
    && IsLowerHexOf(Lower(e.id.text), 64) && IsLowerHexOf(Lower(e.pubkey.text), 64)
        && IsLowerHexOf(Lower(e.sig.text), 128)
    && AreStringLists(e.tags.items)
    && HasValidTags(e)
  }

  // ---------- the validator itself ----------

  method ValidateSignedDesignEvent(event: Option<Event>) returns (accepted: Option<Event>, errors: seq<Invalid>)
    ensures errors == Errors(event)
    ensures accepted == if |errors| == 0 then event else None
  {
    if event.None? { return None, [NotAnObject]; }
    var e := event.value;
    errors := CheckPresence(e);
    if |errors| > 0 { return None, errors; }
    errors := CheckTypes(e);
    if |errors| > 0 { return None, errors; }
    errors := CheckFields(e);
    if !AreStringLists(e.tags.items) { return None, errors + [BadField("tags")]; }
    var tagErrors := CheckTags(e);
    errors := errors + tagErrors;
    accepted := if |errors| == 0 then event else None;
  }

  method CheckPresence(e: Event) returns (errors: seq<Invalid>)
    ensures errors == MissingFields(e)
  {
    errors := When(e.id.Absent?, MissingField("id"));
    errors := PushWhen(errors, e.pubkey.Absent?, MissingField("pubkey"));
    errors := PushWhen(errors, e.createdAt.Absent?, MissingField("created_at"));
    errors := PushWhen(errors, e.kind.Absent?, MissingField("kind"));
    errors := PushWhen(errors, e.tags.Absent?, MissingField("tags"));
    errors := PushWhen(errors, e.content.Absent?, MissingField("content"));
    errors := PushWhen(errors, e.sig.Absent?, MissingField("sig"));
  }

  method CheckTypes(e: Event) returns (errors: seq<Invalid>)
    ensures errors == WrongTypes(e)
    ensures |errors| == 0 <==> IsTyped(e)
  {
    errors := When(!e.id.Str?, WrongType("id"));
    errors := PushWhen(errors, !e.pubkey.Str?, WrongType("pubkey"));
    errors := PushWhen(errors, !e.createdAt.IsInt(), WrongType("created_at"));
    errors := PushWhen(errors, !e.kind.IsInt(), WrongType("kind"));
    errors := PushWhen(errors, !e.tags.List?, WrongType("tags"));
    errors := PushWhen(errors, !e.content.Str?, WrongType("content"));
    errors := PushWhen(errors, !e.sig.Str?, WrongType("sig"));
  }

  method CheckFields(e: Event) returns (errors: seq<Invalid>)
    requires IsTyped(e)
    ensures errors == BadFields(e)
  {
    errors := When(e.kind.AsInt() != 33301, BadField("kind"));
    errors := PushWhen(errors, !IsLowerHexOf(Lower(e.id.text), 64), BadField("id"));
    errors := PushWhen(errors, !IsLowerHexOf(Lower(e.pubkey.text), 64), BadField("pubkey"));
    errors := PushWhen(errors, !IsLowerHexOf(Lower(e.sig.text), 128), BadField("sig"));
    errors := PushWhen(errors, e.createdAt.AsInt() <= 0, BadField("created_at"));
  }

  method CheckTags(e: Event) returns (errors: seq<Invalid>)
    requires IsTyped(e)
    ensures errors == BadTags(e)
  {
    var d := ReadTagValues(e.tags, "d");
    var names := ReadTagValues(e.tags, "name");
    var formats := ReadTagValues(e.tags, "format");
    var urls := ReadTagValues(e.tags, "url");
    errors := CheckTagPresence(d, names, formats, urls);
    assert errors == MissingTags(e.tags);
    var wrong := CheckTagValues(e, d, names, formats, urls);
    errors := errors + wrong;
    errors := PushWhen(errors, HasControlOrBidi(e.content.text), BadField("content"));
  }

  method CheckTagPresence(d: seq<string>, names: seq<string>, formats: seq<string>, urls: seq<string>)
    returns (errors: seq<Invalid>)
    ensures errors == When(|d| == 0, MissingTag("d")) + When(|names| == 0, MissingTag("name"))
                      + When(|formats| == 0, MissingTag("format")) + When(|urls| == 0, MissingTag("url"))
  {
    errors := When(|d| == 0, MissingTag("d"));
    errors := PushWhen(errors, |names| == 0, MissingTag("name"));
    errors := PushWhen(errors, |formats| == 0, MissingTag("format"));
    errors := PushWhen(errors, |urls| == 0, MissingTag("url"));
  }

  method CheckTagValues(e: Event, d: seq<string>, names: seq<string>, formats: seq<string>, urls: seq<string>)
    returns (errors: seq<Invalid>)
    requires IsTyped(e)
    requires d == TagValues(e.tags, "d") && names == TagValues(e.tags, "name")
    requires formats == TagValues(e.tags, "format") && urls == TagValues(e.tags, "url")
    ensures errors == WrongTags(e)
  {
    var shas := ReadTagValues(e.tags, "sha256");
    var previous := ReadTagValues(e.tags, PREVIOUS_KEY);
    var schema := ResolveSchemaVersion(e.tags);
    errors := BadDesignIds(d);
    errors := errors + NameTagErrors(names);
    errors := errors + BadFormats(formats);
    errors := errors + BadUrls(urls);
    errors := errors + BadShas(shas);
    errors := PushWhen(errors, schema.None?, BadTag(SCHEMA_KEY));
    errors := errors + PreviousErrors(previous, Lower(e.id.text));
  }

  // ---------- exactly which events pass ----------

  lemma {:induction false} MissingImpliesUntyped(e: Event)
    ensures |MissingFields(e)| > 0 ==> !IsTyped(e)
    ensures |WrongTypes(e)| == 0 ==> IsTyped(e)
  {
  }

  lemma {:induction false} FieldsPass(e: Event)
    requires IsTyped(e)
    ensures BadFields(e) == [] <==>
      e.kind.AsInt() == 33301 && e.createdAt.AsInt() > 0
      && IsLowerHexOf(Lower(e.id.text), 64) && IsLowerHexOf(Lower(e.pubkey.text), 64)
          && IsLowerHexOf(Lower(e.sig.text), 128)
  {
  }

  lemma {:induction false} RequiredPass(d: seq<string>, names: seq<string>, formats: seq<string>, urls: seq<string>)
    ensures AreRequired(d, names, formats, urls) <==>
      |d| > 0 && |names| > 0 && |formats| > 0 && |urls| > 0
      && BadDesignIds(d) == [] && NameTagErrors(names) == [] && BadFormats(formats) == [] && BadUrls(urls) == []
  {
  }

  lemma {:induction false} OptionalPass(shas: seq<string>, previous: seq<string>, eventId: string)
    ensures AreOptional(shas, previous, eventId) <==> BadShas(shas) == [] && PreviousErrors(previous, eventId) == []
  {
  }

  lemma {:induction false} TagsPass(e: Event)
    requires IsTyped(e)
    ensures BadTags(e) == [] <==> HasValidTags(e)
  {
    var d, names := TagValues(e.tags, "d"), TagValues(e.tags, "name");
    var formats, urls := TagValues(e.tags, "format"), TagValues(e.tags, "url");
    RequiredPass(d, names, formats, urls);
    OptionalPass(TagValues(e.tags, "sha256"), TagValues(e.tags, PREVIOUS_KEY), Lower(e.id.text));
    assert MissingTags(e.tags) == [] <==> |d| > 0 && |names| > 0 && |formats| > 0 && |urls| > 0;
    assert BadTags(e) == [] <==>
      MissingTags(e.tags) == [] && WrongTags(e) == [] && !HasControlOrBidi(e.content.text);
  }

  /** The validator returns no error exactly for the valid events. */
  lemma {:induction false} PassesIffValid(e: Event)
    ensures Errors(Some(e)) == [] <==> IsValid(e)
  {
    MissingImpliesUntyped(e);
    if IsTyped(e) {
      FieldsPass(e);
      TagsPass(e);
    }
  }
}
