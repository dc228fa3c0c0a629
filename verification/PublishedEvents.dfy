/** A built event once the signer has added its id and signature, read back through the
    indexer's tag readers. */
module PublishedEvents {
  import opened Sequences
  import opened Text
  import opened Events
  import opened FormText
  import opened FormBuilder

  function JsonTag(tag: Tag): Json { List([Str(tag.key), Str(tag.value)]) }

  function JsonTags(tags: seq<Tag>): (r: seq<Json>)
    ensures |r| == |tags| && forall i :: 0 <= i < |tags| ==> r[i] == JsonTag(tags[i])
  {
    seq(|tags|, i requires 0 <= i < |tags| => JsonTag(tags[i]))
  }

  function Signed(e: UnsignedEvent, id: string, sig: string): Event {
    Event(Str(id), Str(e.pubkey), Int(e.createdAt), Int(e.kind), List(JsonTags(e.tags)), Str(e.content), Str(sig),
          Nowhere)
  }

  /** The values a tag list holds under a key. */
  function Values(tags: seq<Tag>, key: string): seq<string> {
    if |tags| == 0 then []
    else Values(tags[..|tags| - 1], key) + if tags[|tags| - 1].key == key then [tags[|tags| - 1].value] else []
  }

  lemma {:induction false} ReadBack(tags: seq<Tag>, key: string)
    ensures ValuesIn(JsonTags(tags), key) == Values(tags, key)
  {
    if |tags| > 0 {
      var front := tags[..|tags| - 1];
      assert JsonTags(tags)[..|tags| - 1] == JsonTags(front);
      ReadBack(front, key);
    }
  }

  lemma {:induction false} ValuesConcat(a: seq<Tag>, b: seq<Tag>, key: string)
    ensures Values(a + b, key) == Values(a, key) + Values(b, key)
  {
    if |b| == 0 {
      assert a + b == a;
    } else {
      assert (a + b)[..|a + b| - 1] == a + b[..|b| - 1];
      ValuesConcat(a, b[..|b| - 1], key);
    }
  }

  function Under(key: string, values: seq<string>, asked: string): seq<string> {
    if key == asked then values else []
  }

  lemma {:induction false} ValuesTagged(key: string, values: seq<string>, asked: string)
    ensures Values(Tagged(key, values), asked) == Under(key, values, asked)
  {
    if |values| > 0 {
      var front := values[..|values| - 1];
      assert Tagged(key, values)[..|values| - 1] == Tagged(key, front);
      ValuesTagged(key, front, asked);
      assert values == front + [values[|values| - 1]];
    }
  }

  function AsList(value: string): seq<string> { if value == "" then [] else [value] }

  lemma {:induction false} PushedValues(tags: seq<Tag>, key: string, values: seq<string>, asked: string)
    ensures Values(tags + Tagged(key, values), asked) == Values(tags, asked) + Under(key, values, asked)
  {
    ValuesConcat(tags, Tagged(key, values), asked);
    ValuesTagged(key, values, asked);
  }

  lemma {:induction false} OptionalIsTagged(key: string, value: string)
    ensures Optional(key, value) == Tagged(key, AsList(value))
  {
  }

  /** Everything the trailing pushes put under a key. */
  lemma {:induction false} TrailingValues(tags: seq<Tag>, draft: Draft, urls: seq<string>, key: string)
    ensures Values(PushTrailing(tags, draft, urls), key)
         == Values(tags, key) + Under("sha256", AsList(draft.sha256), key) + Under("preview", urls, key)
            + Under("category", draft.categories, key) + Under("material", draft.materials, key)
            + Under("printer", draft.printers, key) + Under("license", AsList(draft.license), key)
            + Under("lnurl", AsList(draft.lnurl), key) + Under("m", AsList(draft.mime), key)
  {
    OptionalIsTagged("sha256", draft.sha256);
    OptionalIsTagged("license", draft.license);
    OptionalIsTagged("lnurl", draft.lnurl);
    OptionalIsTagged("m", draft.mime);
    var t1 := tags + Tagged("sha256", AsList(draft.sha256));
    var t2 := t1 + Tagged("preview", urls);
    var t3 := t2 + Tagged("category", draft.categories);
    var t4 := t3 + Tagged("material", draft.materials);
    var t5 := t4 + Tagged("printer", draft.printers);
    var t6 := t5 + Tagged("license", AsList(draft.license));
    var t7 := t6 + Tagged("lnurl", AsList(draft.lnurl));
    PushedValues(tags, "sha256", AsList(draft.sha256), key);
    PushedValues(t1, "preview", urls, key);
    PushedValues(t2, "category", draft.categories, key);
    PushedValues(t3, "material", draft.materials, key);
    PushedValues(t4, "printer", draft.printers, key);
    PushedValues(t5, "license", AsList(draft.license), key);
    PushedValues(t6, "lnurl", AsList(draft.lnurl), key);
    PushedValues(t7, "m", AsList(draft.mime), key);
  }

  /** What the built tags hold under any key. */
  function BuiltValues(draft: Draft, urls: seq<string>, key: string): seq<string> {
    Under("d", [draft.d], key) + Under(SCHEMA_KEY, [SCHEMA_1_1], key) + Under("name", [draft.name], key)
    + Under("format", [draft.format], key) + Under("url", [draft.url.GetOr("")], key)
    + Under(PREVIOUS_KEY, AsList(draft.previous), key)
    + Under("sha256", AsList(draft.sha256), key) + Under("preview", urls, key)
    + Under("category", draft.categories, key) + Under("material", draft.materials, key)
    + Under("printer", draft.printers, key) + Under("license", AsList(draft.license), key)
    + Under("lnurl", AsList(draft.lnurl), key) + Under("m", AsList(draft.mime), key)
  }

  lemma {:induction false} LeadingValues(draft: Draft, key: string)
    ensures Values(LeadingTags(draft), key)
         == Under("d", [draft.d], key) + Under(SCHEMA_KEY, [SCHEMA_1_1], key) + Under("name", [draft.name], key)
            + Under("format", [draft.format], key) + Under("url", [draft.url.GetOr("")], key)
  {
    var l1 := Tagged("d", [draft.d]);
    var l2 := l1 + Tagged(SCHEMA_KEY, [SCHEMA_1_1]);
    var l3 := l2 + Tagged("name", [draft.name]);
    var l4 := l3 + Tagged("format", [draft.format]);
    ValuesTagged("d", [draft.d], key);
    PushedValues(l1, SCHEMA_KEY, [SCHEMA_1_1], key);
    PushedValues(l2, "name", [draft.name], key);
    PushedValues(l3, "format", [draft.format], key);
    PushedValues(l4, "url", [draft.url.GetOr("")], key);
    assert LeadingTags(draft) == l4 + Tagged("url", [draft.url.GetOr("")]);
  }

  lemma {:induction false} BuiltTagValues(draft: Draft, urls: seq<string>, key: string)
    ensures TagValues(List(JsonTags(TagsOf(draft, urls))), key) == BuiltValues(draft, urls, key)
  {
    var tags := TagsOf(draft, urls);
    ReadBack(tags, key);
    LeadingValues(draft, key);
    OptionalIsTagged(PREVIOUS_KEY, draft.previous);
    PushedValues(LeadingTags(draft), PREVIOUS_KEY, AsList(draft.previous), key);
    TrailingValues(LeadingTags(draft) + Optional(PREVIOUS_KEY, draft.previous), draft, urls, key);
  }

  /** The keys of the built tags are all different. */
  function KeyRank(key: string): nat {
    if key == "d" then 1 else if key == SCHEMA_KEY then 2 else if key == "name" then 3
    else if key == "format" then 4 else if key == "url" then 5 else if key == PREVIOUS_KEY then 6
    else if key == "sha256" then 7 else if key == "preview" then 8 else if key == "category" then 9
    else if key == "material" then 10 else if key == "printer" then 11 else if key == "license" then 12
    else if key == "lnurl" then 13 else if key == "m" then 14 else 0
  }

  lemma {:induction false} KeysDiffer()
    ensures KeyRank("d") == 1 && KeyRank(SCHEMA_KEY) == 2 && KeyRank("name") == 3 && KeyRank("format") == 4
        && KeyRank("url") == 5
    ensures KeyRank(PREVIOUS_KEY) == 6 && KeyRank("sha256") == 7 && KeyRank("preview") == 8 && KeyRank("category") == 9
    ensures KeyRank("material") == 10 && KeyRank("printer") == 11 && KeyRank("license") == 12 && KeyRank("lnurl") == 13
    ensures KeyRank("m") == 14
  {
    assert "sha256"[0] != "format"[0];
    assert "material"[0] != "category"[0];
    assert "printer"[1] == "preview"[1] && "printer"[2] != "preview"[2];
    assert "license"[0] != "preview"[0];
    assert "m"[0] != "d"[0];
  }

  /** Each key of a built event carries its own field and nothing else. */
  lemma {:induction false} LeadingFields(draft: Draft, urls: seq<string>)
    ensures BuiltValues(draft, urls, "d") == [draft.d]
    ensures BuiltValues(draft, urls, "name") == [draft.name]
    ensures BuiltValues(draft, urls, "format") == [draft.format]
    ensures BuiltValues(draft, urls, "url") == [draft.url.GetOr("")]
    ensures BuiltValues(draft, urls, PREVIOUS_KEY) == AsList(draft.previous)
    ensures BuiltValues(draft, urls, "sha256") == AsList(draft.sha256)
  {
    KeysDiffer();
  }

  lemma {:induction false} TrailingFields(draft: Draft, urls: seq<string>)
    ensures BuiltValues(draft, urls, "preview") == urls
    ensures BuiltValues(draft, urls, "category") == draft.categories
    ensures BuiltValues(draft, urls, "material") == draft.materials
    ensures BuiltValues(draft, urls, "printer") == draft.printers
    ensures BuiltValues(draft, urls, "license") == AsList(draft.license)
    ensures BuiltValues(draft, urls, "lnurl") == AsList(draft.lnurl)
    ensures BuiltValues(draft, urls, "m") == AsList(draft.mime)
  {
    KeysDiffer();
  }

  // ---------- the schema tag ----------

  lemma {:induction false} SchemaValuesOfTags(tags: seq<Tag>)
    requires forall i :: 0 <= i < |tags| && tags[i].key == SCHEMA_KEY ==> i == 1
    requires |tags| >= 2 && tags[1] == Tag(SCHEMA_KEY, SCHEMA_1_1)
    ensures SchemaValuesIn(JsonTags(tags)) == [SCHEMA_1_1]
    ensures forall i :: 0 <= i < |tags| ==> !IsMalformedSchemaTag(JsonTags(tags)[i])
    decreases |tags|
  {
    var front := tags[..|tags| - 1];
    assert JsonTags(tags)[..|tags| - 1] == JsonTags(front);
    if |tags| == 2 {
      assert JsonTags(front)[..0] == [] && !HasSchemaKey(JsonTags(front)[0]);
      assert SchemaValuesIn(JsonTags(front)) == [];
      StripSchema();
    } else {
      SchemaValuesOfTags(front);
    }
  }

  lemma {:induction false} StripSchema()
    ensures PyStrip(SCHEMA_1_1) == SCHEMA_1_1
  {
    TrimLaws(SCHEMA_1_1, IsPySpace);
  }

  lemma {:induction false} OtherKeys(tags: seq<Tag>, draft: Draft, urls: seq<string>)
    ensures tags <= PushTrailing(tags, draft, urls)
    ensures forall i :: |tags| <= i < |PushTrailing(tags, draft, urls)| ==>
              PushTrailing(tags, draft, urls)[i].key
              in {"sha256", "preview", "category", "material", "printer", "license", "lnurl", "m"}
  {
  }

  lemma {:induction false} BuiltSchema(draft: Draft, urls: seq<string>)
    ensures SchemaVersion(List(JsonTags(TagsOf(draft, urls)))) == Some(SCHEMA_1_1)
  {
    var tags := TagsOf(draft, urls);
    var head := LeadingTags(draft) + Optional(PREVIOUS_KEY, draft.previous);
    OtherKeys(head, draft, urls);
    KeysDiffer();
    forall i | 0 <= i < |tags| && tags[i].key == SCHEMA_KEY ensures i == 1 {
      if i < |head| { assert tags[i] == head[i]; }
    }
    assert tags[1] == head[1];
    SchemaValuesOfTags(tags);
    assert SCHEMA_1_1 != "unknown" by { assert |SCHEMA_1_1| == 3; }
  }

  // ---------- what the event carries of the form ----------

  /** The serialised URLs of the lines, one for each. */
  predicate AreUrlsOf(p: Platform, lines: seq<string>, urls: seq<string>) {
    |urls| == |lines| && forall i :: 0 <= i < |lines| ==> p.https(lines[i]) == Some(urls[i])
  }

  /** The tags carry each of these fields of the form under its own key, normalised, and nothing else. */
  predicate CarriesTexts(p: Platform, tags: Json, inputs: Inputs) {
    && TagValues(tags, "d") == [p.lower(SingleLine(p, inputs.d))]
    && TagValues(tags, PREVIOUS_KEY) == AsList(p.lower(SingleLine(p, inputs.previousVersionEventId)))
    && TagValues(tags, "name") == [SingleLine(p, inputs.name)]
    && TagValues(tags, "format") == [p.lower(SingleLine(p, inputs.format))]
    && TagValues(tags, "sha256") == AsList(p.lower(SingleLine(p, inputs.sha256)))
    && TagValues(tags, "license") == AsList(SingleLine(p, inputs.license))
    && TagValues(tags, "lnurl") == AsList(SingleLine(p, inputs.lnurl))
    && TagValues(tags, "m") == AsList(p.lower(SingleLine(p, inputs.mime)))
  }

  predicate CarriesLists(p: Platform, tags: Json, inputs: Inputs) {
    && AreUrlsOf(p, [SingleLine(p, inputs.url)], TagValues(tags, "url"))
    && AreUrlsOf(p, LineList(p, inputs.preview), TagValues(tags, "preview"))
    && TagValues(tags, "category") == SingleLines(p, LineList(p, inputs.category))
    && TagValues(tags, "material") == SingleLines(p, LineList(p, inputs.material))
    && TagValues(tags, "printer") == SingleLines(p, LineList(p, inputs.printer))
  }

  lemma {:induction false} TagsCarryTexts(p: Platform, inputs: Inputs, pubkey: string, urls: seq<string>)
    ensures CarriesTexts(p, List(JsonTags(TagsOf(DraftOf(p, inputs, pubkey), urls))), inputs)
  {
    ReadFields(DraftOf(p, inputs, pubkey), urls);
  }

  lemma {:induction false} TagsCarryLists(p: Platform, inputs: Inputs, pubkey: string, urls: seq<string>)
    requires DraftOf(p, inputs, pubkey).url.Some? && AreUrlsOf(p, LineList(p, inputs.preview), urls)
    ensures CarriesLists(p, List(JsonTags(TagsOf(DraftOf(p, inputs, pubkey), urls))), inputs)
  {
    ReadFields(DraftOf(p, inputs, pubkey), urls);
  }

  lemma {:induction false} BuiltFromDraft(p: Platform, inputs: Inputs, pubkey: string, now: int)
    requires Build(p, inputs, pubkey, now).Built?
    ensures var draft := DraftOf(p, inputs, pubkey);
            && Build(p, inputs, pubkey, now).event == DraftEvent(p, draft, now)
            && draft.url.Some? && draft.pubkey.Some?
            && AreUrlsOf(p, LineList(p, inputs.preview), PreviewUrls(p, draft.previews))
  {
    BuiltIffPublishable(p, inputs, pubkey, now);
    PreviewsSerialised(p, DraftOf(p, inputs, pubkey).previews);
  }

  /** A built and signed event carries what was typed into the form, field by field. */
  lemma {:induction false} EventCarriesForm(
    p: Platform, inputs: Inputs, pubkey: string, now: int, id: string, sig: string)
    requires Build(p, inputs, pubkey, now).Built?
    ensures var e := Signed(Build(p, inputs, pubkey, now).event, id, sig);
            && e.id == Str(id) && e.sig == Str(sig) && e.kind == Int(33301) && e.createdAt == Int(now)
            && ParsePubkey(pubkey).Some? && e.pubkey == Str(ParsePubkey(pubkey).value)
            && e.content == Str(JsTrim(TextArea(p, inputs.description)))
            && CarriesTexts(p, e.tags, inputs) && CarriesLists(p, e.tags, inputs)
  {
    var urls := PreviewUrls(p, DraftOf(p, inputs, pubkey).previews);
    BuiltFromDraft(p, inputs, pubkey, now);
    TagsCarryTexts(p, inputs, pubkey, urls);
    TagsCarryLists(p, inputs, pubkey, urls);
  }

  /** A built event comes with the warning exactly if it carries no hash of its file. */
  lemma {:induction false} WarnsWithoutHash(
    p: Platform, inputs: Inputs, pubkey: string, now: int, id: string, sig: string)
    requires Build(p, inputs, pubkey, now).Built?
    ensures Build(p, inputs, pubkey, now).warnings
         == if TagValues(Signed(Build(p, inputs, pubkey, now).event, id, sig).tags, "sha256") == [] then [NoSha256]
            else []
  {
    EventCarriesForm(p, inputs, pubkey, now, id, sig);
  }

  lemma {:induction false} ReadFields(draft: Draft, urls: seq<string>)
    ensures var tags := List(JsonTags(TagsOf(draft, urls)));
            && TagValues(tags, "d") == [draft.d] && TagValues(tags, "name") == [draft.name]
            && TagValues(tags, "format") == [draft.format] && TagValues(tags, "url") == [draft.url.GetOr("")]
            && TagValues(tags, PREVIOUS_KEY) == AsList(draft.previous)
            && TagValues(tags, "sha256") == AsList(draft.sha256)
            && TagValues(tags, "preview") == urls && TagValues(tags, "category") == draft.categories
            && TagValues(tags, "material") == draft.materials && TagValues(tags, "printer") == draft.printers
            && TagValues(tags, "license") == AsList(draft.license) && TagValues(tags, "lnurl") == AsList(draft.lnurl)
            && TagValues(tags, "m") == AsList(draft.mime)
  {
    LeadingFields(draft, urls);
    TrailingFields(draft, urls);
    forall key ensures TagValues(List(JsonTags(TagsOf(draft, urls))), key) == BuiltValues(draft, urls, key) {
      BuiltTagValues(draft, urls, key);
    }
  }

  // ---------- the order of the tags ----------

  /** Where the keys come in the order of the list, and all from the given range. */
  predicate KeysAscend(tags: seq<Tag>, rank: string -> nat, low: nat, high: nat) {
    Ascending(tags, (tag: Tag) => rank(tag.key), low, high)
  }

  lemma {:induction false} PushAscends(
    tags: seq<Tag>, key: string, values: seq<string>, rank: string -> nat, high: nat)
    requires KeysAscend(tags, rank, 1, high) && 1 <= high <= rank(key)
    ensures KeysAscend(tags + Tagged(key, values), rank, 1, rank(key))
  {
    AscendingConcat(tags, Tagged(key, values), (tag: Tag) => rank(tag.key), 1, high, rank(key), rank(key));
  }

  lemma {:induction false} ListsAscend(tags: seq<Tag>, draft: Draft, urls: seq<string>, rank: string -> nat)
    requires KeysAscend(tags, rank, 1, 6)
    requires rank("sha256") == 7 && rank("preview") == 8 && rank("category") == 9
    requires rank("material") == 10 && rank("printer") == 11
    ensures KeysAscend(tags + Optional("sha256", draft.sha256) + Tagged("preview", urls)
                       + Tagged("category", draft.categories) + Tagged("material", draft.materials)
                       + Tagged("printer", draft.printers), rank, 1, 11)
  {
    OptionalIsTagged("sha256", draft.sha256);
    var t1 := tags + Tagged("sha256", AsList(draft.sha256));
    var t2 := t1 + Tagged("preview", urls);
    var t3 := t2 + Tagged("category", draft.categories);
    var t4 := t3 + Tagged("material", draft.materials);
    PushAscends(tags, "sha256", AsList(draft.sha256), rank, 6);
    PushAscends(t1, "preview", urls, rank, 7);
    PushAscends(t2, "category", draft.categories, rank, 8);
    PushAscends(t3, "material", draft.materials, rank, 9);
    PushAscends(t4, "printer", draft.printers, rank, 10);
  }

  lemma {:induction false} SinglesAscend(tags: seq<Tag>, draft: Draft, rank: string -> nat)
    requires KeysAscend(tags, rank, 1, 11) && rank("license") == 12 && rank("lnurl") == 13 && rank("m") == 14
    ensures KeysAscend(tags + Optional("license", draft.license) + Optional("lnurl", draft.lnurl)
                       + Optional("m", draft.mime), rank, 1, 14)
  {
    OptionalIsTagged("license", draft.license);
    OptionalIsTagged("lnurl", draft.lnurl);
    OptionalIsTagged("m", draft.mime);
    var t1 := tags + Tagged("license", AsList(draft.license));
    var t2 := t1 + Tagged("lnurl", AsList(draft.lnurl));
    PushAscends(tags, "license", AsList(draft.license), rank, 11);
    PushAscends(t1, "lnurl", AsList(draft.lnurl), rank, 12);
    PushAscends(t2, "m", AsList(draft.mime), rank, 13);
  }

  lemma {:induction false} HeadAscends(draft: Draft, rank: string -> nat)
    requires rank("d") == 1 && rank(SCHEMA_KEY) == 2 && rank("name") == 3 && rank("format") == 4 && rank("url") == 5
    requires rank(PREVIOUS_KEY) == 6
    ensures KeysAscend(LeadingTags(draft) + Optional(PREVIOUS_KEY, draft.previous), rank, 1, 6)
  {
    OptionalIsTagged(PREVIOUS_KEY, draft.previous);
    assert KeysAscend(LeadingTags(draft), rank, 1, 5);
    PushAscends(LeadingTags(draft), PREVIOUS_KEY, AsList(draft.previous), rank, 5);
  }

  /** The tags come in the order d, schema, name, format, url, predecessor, sha256, preview, category,
      material, printer, license, lnurl, m. */
  lemma {:induction false} TagsInOrder(draft: Draft, urls: seq<string>)
    ensures KeysAscend(TagsOf(draft, urls), KeyRank, 1, 14)
  {
    var head := LeadingTags(draft) + Optional(PREVIOUS_KEY, draft.previous);
    KeysDiffer();
    HeadAscends(draft, KeyRank);
    ListsAscend(head, draft, urls, KeyRank);
    SinglesAscend(head + Optional("sha256", draft.sha256) + Tagged("preview", urls)
                  + Tagged("category", draft.categories) + Tagged("material", draft.materials)
                  + Tagged("printer", draft.printers), draft, KeyRank);
  }
}
