/** Opening an indexed design in the edit form and publishing it again unchanged. */
module EditRoundTrip {
  import opened Text
  import opened Events
  import opened Tables
  import opened DesignDetail
  import opened Reducer
  import opened ReducerRuns
  import opened FormText
  import opened FormBuilder
  import opened PublishedEvents
  import opened Acceptance

  // ---------- the prefill ----------

  function KeepNonBlank(values: seq<string>): seq<string> {
    if |values| == 0 then []
    else
      var last := values[|values| - 1];
      KeepNonBlank(values[..|values| - 1]) + if JsTrim(last) != "" then [last] else []
  }

  function TagStringList(tags: TagMap, key: string): seq<string> { KeepNonBlank(Lookup(tags, key)) }

  function TagString(tags: TagMap, key: string): string {
    var values := TagStringList(tags, key);
    if |values| > 0 then values[0] else ""
  }

  /** The field is the first value under the key that is not blank, and empty if there is none. */
  lemma {:induction false} PrefillIsFirst(tags: TagMap, key: string, i: nat)
    requires i <= |Lookup(tags, key)| && forall j :: 0 <= j < i ==> JsTrim(Lookup(tags, key)[j]) == ""
    requires i < |Lookup(tags, key)| ==> JsTrim(Lookup(tags, key)[i]) != ""
    ensures TagString(tags, key) == if i < |Lookup(tags, key)| then Lookup(tags, key)[i] else ""
  {
    FirstNonBlank(Lookup(tags, key), i);
  }

  lemma {:induction false} FirstNonBlank(values: seq<string>, i: nat)
    requires i <= |values| && forall j :: 0 <= j < i ==> JsTrim(values[j]) == ""
    requires i < |values| ==> JsTrim(values[i]) != ""
    ensures if i < |values| then |KeepNonBlank(values)| > 0 && KeepNonBlank(values)[0] == values[i]
            else KeepNonBlank(values) == []
  {
    if |values| > 0 {
      var front := values[..|values| - 1];
      assert forall j :: 0 <= j < |front| ==> front[j] == values[j];
      FirstNonBlank(front, if i < |values| then i else |front|);
    }
  }

  function EditInitialValues(design: Detail, lockedDesignId: string): Inputs {
    Inputs(
      lockedDesignId, design.latestEventId.GetOr(""), design.name, design.format.GetOr(""), design.url.GetOr(""),
      design.sha256.GetOr(""), design.content.GetOr(""),
      JoinLines(TagStringList(design.tags, "preview")), JoinLines(TagStringList(design.tags, "category")),
      JoinLines(TagStringList(design.tags, "material")), JoinLines(TagStringList(design.tags, "printer")),
      TagString(design.tags, "license"), TagString(design.tags, "lnurl"), TagString(design.tags, "m"))
  }

  // ---------- drafts in normal form ----------

  /** Every field as a second pass of the normalisers would leave it, but for the MIME type. */
  ghost predicate IsNormalDraft(p: Platform, draft: Draft) {
    && IsSingleLine(draft.name) && IsNfc(p, draft.name)
    && IsTrimmed(draft.content, IsJsSpace) && IsNfc(p, draft.content)
    && AreNormalLines(p, draft.categories) && AreNormalLines(p, draft.materials) && AreNormalLines(p, draft.printers)
    && IsSingleLine(draft.license) && IsNfc(p, draft.license)
    && IsSingleLine(draft.lnurl) && IsNfc(p, draft.lnurl)
    && IsSingleLine(draft.mime) && IsLower(p, draft.mime)
    && draft.url.Some? && p.https(draft.url.value) == draft.url
    && draft.pubkey.Some? && IsLowerHexOf(draft.pubkey.value, 64)
  }

  lemma {:induction false} ContentIsNormal(p: Platform, description: string)
    requires NfcLaws(p)
    ensures IsTrimmed(JsTrim(TextArea(p, description)), IsJsSpace) && IsNfc(p, JsTrim(TextArea(p, description)))
  {
    assert IsNfc(p, p.nfc(description));
    TrimIsNfc(p, TextArea(p, description));
  }

  lemma {:induction false} MimeIsNormal(p: Platform, mime: string)
    requires Lawful(p)
    ensures var m := p.lower(SingleLine(p, mime)); IsSingleLine(m) && IsLower(p, m)
  {
    SingleLineIsNormal(p, mime);
  }

  lemma {:induction false} DraftIsNormal(p: Platform, inputs: Inputs, pubkey: string)
    requires Lawful(p) && IsPublishable(p, DraftOf(p, inputs, pubkey))
    ensures IsNormalDraft(p, DraftOf(p, inputs, pubkey))
  {
    SingleLineIsNormal(p, inputs.name);
    ContentIsNormal(p, inputs.description);
    ListFieldIsNormal(p, inputs.category);
    ListFieldIsNormal(p, inputs.material);
    ListFieldIsNormal(p, inputs.printer);
    SingleLineIsNormal(p, inputs.license);
    SingleLineIsNormal(p, inputs.lnurl);
    MimeIsNormal(p, inputs.mime);
  }

  lemma {:induction false} UrlsAreNormal(p: Platform, previews: seq<string>)
    requires Lawful(p) && AllHttps(p, previews)
    ensures var urls := PreviewUrls(p, previews);
            && AreNormalLines(p, urls)
            && forall i :: 0 <= i < |urls| ==> p.https(urls[i]) == Some(urls[i])
  {
    PreviewsSerialised(p, previews);
    var urls := PreviewUrls(p, previews);
    forall i | 0 <= i < |urls|
      ensures urls[i] != "" && IsSingleLine(urls[i]) && IsNfc(p, urls[i]) && p.https(urls[i]) == Some(urls[i])
    {
      assert p.https(previews[i]) == Some(urls[i]);
      PrintableIsNormal(p, urls[i]);
    }
  }

  /** URLs that parse to themselves come out of the preview loop as they went in. */
  lemma {:induction false} UrlsAgain(p: Platform, urls: seq<string>)
    requires forall i :: 0 <= i < |urls| ==> p.https(urls[i]) == Some(urls[i])
    ensures PreviewUrls(p, urls) == urls
  {
    if |urls| > 0 {
      var front := urls[..|urls| - 1];
      UrlsAgain(p, front);
      assert urls == front + [urls[|front|]];
    }
  }

  // ---------- reading the row back ----------

  lemma {:induction false} KeepsNormalLines(p: Platform, lines: seq<string>)
    requires AreNormalLines(p, lines)
    ensures KeepNonBlank(lines) == lines
  {
    if |lines| > 0 {
      var front, last := lines[..|lines| - 1], lines[|lines| - 1];
      KeepsNormalLines(p, front);
      TrimLaws(last, IsJsSpace);
      assert lines == front + [last];
    }
  }

  lemma {:induction false} KeepsOne(value: string)
    requires IsTrimmed(value, IsJsSpace)
    ensures KeepNonBlank(AsList(value)) == AsList(value)
  {
    TrimLaws(value, IsJsSpace);
    if value != "" { assert [value][..0] == []; }
  }

  /** The tag object of a row showing a built event holds its optional fields. */
  lemma {:induction false} RowTags(draft: Draft, urls: seq<string>, key: string)
    requires key !in REQUIRED_KEYS
    ensures Lookup(OptionalTags(List(JsonTags(TagsOf(draft, urls)))), key) == BuiltValues(draft, urls, key)
  {
    OptionalTagsMeaning(List(JsonTags(TagsOf(draft, urls))), key);
    BuiltTagValues(draft, urls, key);
  }

  lemma {:induction false} OptionalKeys()
    ensures forall key :: key in {"preview", "category", "material", "printer", "license", "lnurl",
        "m"} ==> key !in REQUIRED_KEYS
  {
    KeysDiffer();
  }

  // ---------- the parser accepts the row ----------

  lemma {:induction false} NotBlank(s: string)
    requires |s| > 0 && !IsJsSpace(s[0])
    ensures JsTrim(s) != ""
  {
    TrimEndKeepsFirst(s);
  }

  lemma {:induction false} BuiltKeysAreNotBlank(draft: Draft, urls: seq<string>)
    ensures forall i :: 0 <= i < |TagsOf(draft, urls)| ==> JsTrim(TagsOf(draft, urls)[i].key) != ""
  {
    var tags := TagsOf(draft, urls);
    var head := LeadingTags(draft) + Optional(PREVIOUS_KEY, draft.previous);
    OtherKeys(head, draft, urls);
    forall i | 0 <= i < |tags| ensures JsTrim(tags[i].key) != "" {
      if i < |head| { assert tags[i] == head[i]; }
      assert |tags[i].key| > 0 && !IsJsSpace(tags[i].key[0]);
      NotBlank(tags[i].key);
    }
  }

  /** A row that shows a built and signed event. */
  ghost predicate ShowsEvent(p: Platform, row: Current, draft: Draft, now: int, id: string, sig: string) {
    && IsReady(p, draft, now, id, sig) && IsNormalDraft(p, draft)
    && row.designId == draft.d && Some(row.pubkey) == draft.pubkey && row.latestEventId == id
    && row.name == Some(draft.name) && row.format == Some(draft.format) && row.url == draft.url
    && row.sha256 == (if draft.sha256 == "" then None else Some(draft.sha256))
    && row.content == Some(draft.content)
    && row.tags == OptionalTags(List(JsonTags(TagsOf(draft, PreviewUrls(p, draft.previews)))))
  }

  lemma {:induction false} RowShowsEvent(p: Platform, row: Current, draft: Draft, now: int, id: string, sig: string,
      env: Envelope)
    requires IsReady(p, draft, now, id, sig) && IsNormalDraft(p, draft) && env.event == EventOf(p, draft, now, id, sig)
    requires IsIngestible(env.event) && RowShows(row, VersionOf(env))
    requires row.designId == draft.d && Some(row.pubkey) == draft.pubkey
    ensures ShowsEvent(p, row, draft, now, id, sig)
  {
    var urls := PreviewUrls(p, draft.previews);
    BuiltTagValues(draft, urls, "name");
    BuiltTagValues(draft, urls, "format");
    BuiltTagValues(draft, urls, "url");
    BuiltTagValues(draft, urls, "sha256");
    LeadingFields(draft, urls);
  }

  lemma {:induction false} PubkeyParses(pubkey: string)
    requires IsLowerHexOf(pubkey, 64)
    ensures HasNpub(pubkey) && ParsePubkey(pubkey) == Some(pubkey)
  {
    HexKeyParses(pubkey);
    LowerHexUnchanged(pubkey);
  }

  lemma {:induction false} NormalRowReads(row: Current, identity: Option<Identity>, name: string)
    requires IsLowerHexOf(row.pubkey, 64) && NoBlankKeys(row.tags)
    requires row.name == Some(name) && name != "" && IsTrimmed(name, IsJsSpace)
    ensures ReadDesign(Some(row), identity)
         == if IsNamed(identity)
            then Served(Detail(Some(row.latestEventId), name, row.format, row.url, row.sha256, row.content, row.tags))
            else Malformed
  {
    TrimLaws(name, IsJsSpace);
    PubkeyParses(row.pubkey);
  }

  /** The client takes the row of a built event exactly if the creator is named. */
  lemma {:induction false} RowParses(
    p: Platform, row: Current, identity: Option<Identity>, draft: Draft, now: int, id: string, sig: string)
    requires ShowsEvent(p, row, draft, now, id, sig)
    ensures ReadDesign(Some(row), identity)
         == if IsNamed(identity)
            then Served(Detail(Some(id), draft.name, row.format, row.url, row.sha256, row.content, row.tags))
            else Malformed
  {
    var urls := PreviewUrls(p, draft.previews);
    BuiltKeysAreNotBlank(draft, urls);
    OptionalKeepsKeys(List(JsonTags(TagsOf(draft, urls))));
    NormalRowReads(row, identity, draft.name);
  }

  // ---------- the second draft ----------

  function Reopened(row: Current, draft: Draft, id: string): Inputs {
    EditInitialValues(Detail(Some(id), draft.name, row.format, row.url, row.sha256, row.content, row.tags),
        row.designId)
  }

  lemma {:induction false} AsciiFields(p: Platform, draft: Draft, id: string)
    requires Lawful(p) && IsPublishable(p, draft) && IsUrlText(draft.url.value) && IsLowerHexOf(Lower(id), 64)
    ensures p.lower(SingleLine(p, draft.d)) == draft.d
    ensures p.lower(SingleLine(p, id)) == Lower(id)
    ensures p.lower(SingleLine(p, draft.format)) == draft.format
    ensures SingleLine(p, draft.url.value) == draft.url.value
    ensures p.lower(SingleLine(p, draft.sha256)) == draft.sha256
  {
    DesignIdAgain(p, draft.d);
    HexText(p, id);
    PrintableIsNormal(p, draft.url.value);
    FormatAgain(p, draft.format);
    ShaAgain(p, draft.sha256);
  }

  lemma {:induction false} DesignIdAgain(p: Platform, d: string)
    requires Lawful(p) && IsCanonicalDesignId(d)
    ensures p.lower(SingleLine(p, d)) == d
  {
    DesignIdText(d);
    PrintableIsNormal(p, d);
    assert Lower(d) == d;
  }

  lemma {:induction false} FormatAgain(p: Platform, format: string)
    requires Lawful(p) && IsFormat(format)
    ensures p.lower(SingleLine(p, format)) == format
  {
    PrintableIsNormal(p, format);
    FormatUnchanged(format);
  }

  lemma {:induction false} ShaAgain(p: Platform, sha256: string)
    requires Lawful(p) && (sha256 == "" || IsLowerHexOf(sha256, 64))
    ensures p.lower(SingleLine(p, sha256)) == sha256
  {
    LowerHexUnchanged(sha256);
    assert forall i :: 0 <= i < |sha256| ==> LowerChar(sha256[i]) == sha256[i];
    HexText(p, sha256);
  }

  lemma {:induction false} DesignIdText(d: string)
    requires IsCanonicalDesignId(d)
    ensures forall i :: 0 <= i < |d| ==> '!' <= d[i] <= '~' && LowerChar(d[i]) == d[i]
  {
    var n := |DESIGN_PREFIX|;
    assert d[..n] == DESIGN_PREFIX;
    forall i | 0 <= i < |d| ensures '!' <= d[i] <= '~' && LowerChar(d[i]) == d[i] {
      if i < n { assert d[i] == d[..n][i]; } else { assert d[i] == d[n..][i - n]; }
    }
  }

  /** Hex text in either case, as the single-line fields read it. */
  lemma {:induction false} HexText(p: Platform, s: string)
    requires Lawful(p) && forall i :: 0 <= i < |s| ==> IsLowerHex(LowerChar(s[i]))
    ensures p.lower(SingleLine(p, s)) == Lower(s)
  {
    forall i | 0 <= i < |s| ensures '!' <= s[i] <= '~' { assert IsLowerHex(LowerChar(s[i])); }
    PrintableIsNormal(p, s);
  }

  lemma {:induction false} ContentAgain(p: Platform, content: string)
    requires IsNfc(p, content) && IsTrimmed(content, IsJsSpace) && !HasControlOrBidi(content)
    ensures JsTrim(TextArea(p, content)) == content
  {
    forall i | 0 <= i < |content| ensures content[i] != '\r' { assert !IsControlOrBidi(content[i]); }
    ReplaceCrLfKeeps(content);
    TrimLaws(content, IsJsSpace);
  }

  lemma {:induction false} ListAgain(p: Platform, row: Current, draft: Draft, urls: seq<string>, key: string,
      lines: seq<string>)
    requires NfcLaws(p) && AreNormalLines(p, lines)
    requires Lookup(row.tags, key) == lines
    ensures LineList(p, JoinLines(TagStringList(row.tags, key))) == lines
    ensures SingleLines(p, lines) == lines
  {
    KeepsNormalLines(p, lines);
    LineListRoundTrip(p, lines);
    SingleLinesKeep(p, lines);
  }

  lemma {:induction false} SingleAgain(p: Platform, row: Current, key: string, value: string)
    requires Lookup(row.tags, key) == AsList(value) && IsSingleLine(value)
    ensures TagString(row.tags, key) == value
    ensures IsNfc(p, value) ==> SingleLine(p, value) == value
  {
    KeepsOne(value);
    if IsNfc(p, value) { SingleLineKeeps(p, value); }
  }

  lemma {:induction false} RowLookups(row: Current, draft: Draft, urls: seq<string>)
    requires row.tags == OptionalTags(List(JsonTags(TagsOf(draft, urls))))
    ensures Lookup(row.tags, "preview") == urls && Lookup(row.tags, "category") == draft.categories
    ensures Lookup(row.tags, "material") == draft.materials && Lookup(row.tags, "printer") == draft.printers
    ensures Lookup(row.tags, "license") == AsList(draft.license) && Lookup(row.tags, "lnurl") == AsList(draft.lnurl)
    ensures Lookup(row.tags, "m") == AsList(draft.mime)
  {
    OptionalKeys();
    TrailingFields(draft, urls);
    RowTags(draft, urls, "preview");
    RowTags(draft, urls, "category");
    RowTags(draft, urls, "material");
    RowTags(draft, urls, "printer");
    RowTags(draft, urls, "license");
    RowTags(draft, urls, "lnurl");
    RowTags(draft, urls, "m");
  }

  /** The draft the reopened form makes of the row. */
  function SecondDraft(p: Platform, draft: Draft, id: string): Draft {
    draft.(previous := Lower(id), previews := PreviewUrls(p, draft.previews),
           mime := p.lower(SingleLine(p, draft.mime)))
  }

  lemma {:induction false} ReopenedDraft(
    p: Platform, row: Current, draft: Draft, now: int, id: string, sig: string, pubkey: string)
    requires ShowsEvent(p, row, draft, now, id, sig) && ParsePubkey(pubkey) == draft.pubkey
    ensures DraftOf(p, Reopened(row, draft, id), pubkey) == SecondDraft(p, draft, id)
  {
    var urls := PreviewUrls(p, draft.previews);
    AsciiFields(p, draft, id);
    SingleLineKeeps(p, draft.name);
    ContentAgain(p, draft.content);
    RowLookups(row, draft, urls);
    UrlsAreNormal(p, draft.previews);
    ListAgain(p, row, draft, urls, "preview", urls);
    ListAgain(p, row, draft, urls, "category", draft.categories);
    ListAgain(p, row, draft, urls, "material", draft.materials);
    ListAgain(p, row, draft, urls, "printer", draft.printers);
    SingleAgain(p, row, "license", draft.license);
    SingleAgain(p, row, "lnurl", draft.lnurl);
    SingleAgain(p, row, "m", draft.mime);
  }

  // ---------- main results ----------

  /** The tag list with its predecessor tag, if any, replaced by one naming the given event. */
  function WithPredecessor(tags: seq<Tag>, id: string): seq<Tag>
    requires |tags| >= 5
  {
    var rest := if |tags| > 5 && tags[5].key == PREVIOUS_KEY then 6 else 5;
    tags[..5] + [Tag(PREVIOUS_KEY, id)] + tags[rest..]
  }

  lemma {:induction false} TrailingAppends(tags: seq<Tag>, draft: Draft, urls: seq<string>)
    ensures PushTrailing(tags, draft, urls) == tags + PushTrailing([], draft, urls)
  {
  }

  lemma {:induction false} PredecessorReplaced(draft: Draft, urls: seq<string>, id: string)
    requires id != ""
    ensures |TagsOf(draft, urls)| >= 5
    ensures TagsOf(draft.(previous := id), urls) == WithPredecessor(TagsOf(draft, urls), id)
  {
    var trailing := PushTrailing([], draft, urls);
    var head := LeadingTags(draft) + Optional(PREVIOUS_KEY, draft.previous);
    TrailingAppends(head, draft, urls);
    TrailingAppends(LeadingTags(draft) + Optional(PREVIOUS_KEY, id), draft.(previous := id), urls);
    SameTrailing(draft, id, urls);
    OtherKeys([], draft, urls);
    KeysDiffer();
    var tags := head + trailing;
    assert tags[..5] == LeadingTags(draft);
    if draft.previous == "" {
      assert tags[5..] == trailing;
      assert |tags| > 5 ==> tags[5] == trailing[0];
    } else {
      assert tags[5] == Tag(PREVIOUS_KEY, draft.previous) && tags[6..] == trailing;
    }
  }

  lemma {:induction false} SameTrailing(draft: Draft, id: string, urls: seq<string>)
    ensures PushTrailing([], draft.(previous := id), urls) == PushTrailing([], draft, urls)
  {
  }

  /** Rebuilding gives an event with the same content and the same tags in the same order, but
      for the predecessor, which is now the event that was indexed. */
  predicate IsFaithful(event: UnsignedEvent, rebuilt: BuildResult, id: string) {
    && rebuilt.Built? && |event.tags| >= 5
    && rebuilt.event.content == event.content
    && rebuilt.event.tags == WithPredecessor(event.tags, Lower(id))
  }

  lemma {:induction false} SecondBuild(p: Platform, draft: Draft, id: string)
    requires Lawful(p) && IsPublishable(p, draft) && IsNormalDraft(p, draft) && IsLowerHexOf(Lower(id), 64)
        && IsNfc(p, draft.mime)
    ensures IsPublishable(p, SecondDraft(p, draft, id))
    ensures SecondDraft(p, draft, id).mime == draft.mime
    ensures PreviewUrls(p, SecondDraft(p, draft, id).previews) == PreviewUrls(p, draft.previews)
  {
    SingleLineKeeps(p, draft.mime);
    UrlsAreNormal(p, draft.previews);
    UrlsAgain(p, PreviewUrls(p, draft.previews));
  }

  /** If the MIME type comes through a second pass unchanged, it was normalised. */
  lemma {:induction false} StableMimeIsNfc(p: Platform, mime: string)
    requires Lawful(p) && IsLower(p, mime) && p.lower(SingleLine(p, mime)) == mime
    ensures IsNfc(p, mime)
  {
    var c := Collapse(p.nfc(mime), IsJsSpace);
    assert IsLower(p, p.nfc(mime)) && IsLower(p, c);
    TrimLaws(c, IsJsSpace);
    var i, j :| 0 <= i <= j <= |c| && SingleLine(p, mime) == c[i..j];
    SingleLineIsNormal(p, mime);
  }

  lemma {:induction false} MimeValues(draft: Draft, urls: seq<string>)
    ensures Values(TagsOf(draft, urls), "m") == AsList(draft.mime)
  {
    ReadBack(TagsOf(draft, urls), "m");
    BuiltTagValues(draft, urls, "m");
    TrailingFields(draft, urls);
  }

  lemma {:induction false} FaithfulIfMimeIsNfc(
    p: Platform, inputs: Inputs, pubkey: string, now: int, later: int, draft: Draft, id: string)
    requires Lawful(p) && IsPublishable(p, draft) && IsNormalDraft(p, draft) && IsLowerHexOf(Lower(id), 64)
    requires DraftOf(p, inputs, pubkey) == SecondDraft(p, draft, id) && IsNfc(p, draft.mime)
    ensures IsFaithful(DraftEvent(p, draft, now), Build(p, inputs, pubkey, later), id)
  {
    var urls := PreviewUrls(p, draft.previews);
    PredecessorReplaced(draft, urls, Lower(id));
    SecondBuild(p, draft, id);
    BuildOfDraft(p, inputs, pubkey, later);
    SecondTags(p, draft, id, urls);
  }

  lemma {:induction false} SecondTags(p: Platform, draft: Draft, id: string, urls: seq<string>)
    requires SecondDraft(p, draft, id).mime == draft.mime
    ensures TagsOf(SecondDraft(p, draft, id), urls) == TagsOf(draft.(previous := Lower(id)), urls)
  {
  }

  lemma {:induction false} BuildOfDraft(p: Platform, inputs: Inputs, pubkey: string, now: int)
    requires IsPublishable(p, DraftOf(p, inputs, pubkey))
    ensures Build(p, inputs, pubkey, now).Built?
    ensures Build(p, inputs, pubkey, now).event == DraftEvent(p, DraftOf(p, inputs, pubkey), now)
  {
    BuiltIffPublishable(p, inputs, pubkey, now);
  }

  lemma {:induction false} FaithfulTags(
    p: Platform, inputs: Inputs, pubkey: string, now: int, later: int, draft: Draft, id: string)
    requires IsLowerHexOf(Lower(id), 64) && DraftOf(p, inputs, pubkey) == SecondDraft(p, draft, id)
    requires IsFaithful(DraftEvent(p, draft, now), Build(p, inputs, pubkey, later), id)
    ensures TagsOf(SecondDraft(p, draft, id), PreviewUrls(p, SecondDraft(p, draft, id).previews))
         == TagsOf(draft.(previous := Lower(id)), PreviewUrls(p, draft.previews))
  {
    PredecessorReplaced(draft, PreviewUrls(p, draft.previews), Lower(id));
  }

  lemma {:induction false} MimeIsNfcIfFaithful(
    p: Platform, inputs: Inputs, pubkey: string, now: int, later: int, draft: Draft, id: string)
    requires Lawful(p) && IsNormalDraft(p, draft) && IsLowerHexOf(Lower(id), 64)
    requires DraftOf(p, inputs, pubkey) == SecondDraft(p, draft, id)
    requires IsFaithful(DraftEvent(p, draft, now), Build(p, inputs, pubkey, later), id)
    ensures IsNfc(p, draft.mime)
  {
    var second := SecondDraft(p, draft, id);
    FaithfulTags(p, inputs, pubkey, now, later, draft, id);
    MimeValues(draft.(previous := Lower(id)), PreviewUrls(p, draft.previews));
    MimeValues(second, PreviewUrls(p, second.previews));
    SameMime(p, draft, second.mime);
  }

  lemma {:induction false} SameMime(p: Platform, draft: Draft, mime: string)
    requires Lawful(p) && IsLower(p, draft.mime) && mime == p.lower(SingleLine(p, draft.mime))
    requires AsList(mime) == AsList(draft.mime)
    ensures IsNfc(p, draft.mime)
  {
    StableMimeIsNfc(p, draft.mime);
  }

  /** The design opens in the edit form, and publishing it again as it stands is faithful. */
  predicate ReopensUnchanged(
    p: Platform, answer: DesignAnswer, designId: string, event: UnsignedEvent, pubkey: string, later: int, id: string)
  {
    answer.Served? && IsFaithful(event, Build(p, EditInitialValues(answer.detail, designId), pubkey, later), id)
  }

  /** Edit round trip: take any event the form built and the signer signed, any current row that
      shows it, whatever identity is stored of its creator, and the form reopened on that row.
      It opens and, published again unchanged, gives the same content and the same tags in the same
      order, with the indexed event as predecessor, exactly when the creator is named and
      lower-casing had left the first event's MIME type in NFC. */
  lemma {:induction false} RebuildsUnchanged(
    p: Platform, inputs: Inputs, pubkey: string, now: int, later: int, id: string, sig: string, env: Envelope,
    row: Current, identity: Option<Identity>)
    requires Lawful(p) && now > 0 && Build(p, inputs, pubkey, now).Built?
    requires IsSigning(DraftOf(p, inputs, pubkey), id, sig)
    requires env.event == Signed(Build(p, inputs, pubkey, now).event, id, sig) && IsIngestible(env.event)
    requires row.DesignKey() == VersionOf(env).DesignKey() && RowShows(row, VersionOf(env))
    ensures if IsNamed(identity) then ReadDesign(Some(row), identity).Served?
            else ReadDesign(Some(row), identity) == Malformed
    ensures ReopensUnchanged(p, ReadDesign(Some(row), identity), row.designId, Build(p, inputs, pubkey, now).event,
                             pubkey, later, id)
            <==> IsNamed(identity) && IsNfc(p, DraftOf(p, inputs, pubkey).mime)
  {
    var draft := DraftOf(p, inputs, pubkey);
    BuiltIsReady(p, inputs, pubkey, now, id, sig);
    DraftIsNormal(p, inputs, pubkey);
    ReadyKey(p, draft, now, id, sig);
    RowShowsEvent(p, row, draft, now, id, sig, env);
    RowParses(p, row, identity, draft, now, id, sig);
    ReopenedDraft(p, row, draft, now, id, sig, pubkey);
    var again := Reopened(row, draft, id);
    assert Build(p, inputs, pubkey, now).event == DraftEvent(p, draft, now);
    if IsNfc(p, draft.mime) { FaithfulIfMimeIsNfc(p, again, pubkey, now, later, draft, id); }
    if IsFaithful(DraftEvent(p, draft, now), Build(p, again, pubkey, later), id) {
      MimeIsNfcIfFaithful(p, again, pubkey, now, later, draft, id);
    }
  }

  function SignedBuild(p: Platform, inputs: Inputs, pubkey: string, now: int, id: string, sig: string): Event
    requires Build(p, inputs, pubkey, now).Built?
  {
    Signed(Build(p, inputs, pubkey, now).event, id, sig)
  }

  /** The row of a built event that is stored and becomes its design's latest. */
  lemma {:induction false} LatestRow(
    p: Platform, inputs: Inputs, pubkey: string, now: int, id: string, sig: string, db: Db, env: Envelope)
    requires Lawful(p) && now > 0 && FitsColumn(now) && Build(p, inputs, pubkey, now).Built?
    requires IsSigning(DraftOf(p, inputs, pubkey), id, sig) && env.event == SignedBuild(p, inputs, pubkey, now, id, sig)
    requires IsSound(db) && !IsStored(db.versions, id) && FitsDesign(db, DraftOf(p, inputs, pubkey))
    ensures IsIngestible(env.event) && VersionOf(env).DesignKey() == DesignOf(DraftOf(p, inputs, pubkey))
    ensures Find(Reduce(db, env).db.designs, DesignOf(DraftOf(p, inputs, pubkey)))
         == Some(NextCurrent(Find(db.designs, DesignOf(DraftOf(p, inputs, pubkey))), VersionOf(env)))
  {
    var draft := DraftOf(p, inputs, pubkey);
    AcceptanceChain(p, inputs, pubkey, now, id, sig, db, env.relay, env.receivedAt);
    assert env == Envelope(env.relay, env.receivedAt, env.event);
    BuiltIsReady(p, inputs, pubkey, now, id, sig);
    ReadyKey(p, draft, now, id, sig);
    ReducedRow(db, env);
  }

  /** From form to form through the index: a built and signed event, delivered to any database it
      fits that the reducer has written, and becoming its design's latest. As long as the design
      keeps that row, and whatever the refresher has made of the identities by then, the design
      reopens exactly when its creator is named, and into a form that rebuilds it unchanged exactly
      when its MIME type is in NFC too. */
  lemma {:induction false} PublishedThenReopened(
    p: Platform, inputs: Inputs, pubkey: string, now: int, later: int, id: string, sig: string,
    db: Db, env: Envelope, after: Db)
    requires Lawful(p) && now > 0 && FitsColumn(now) && Build(p, inputs, pubkey, now).Built?
    requires IsSigning(DraftOf(p, inputs, pubkey), id, sig) && env.event == SignedBuild(p, inputs, pubkey, now, id, sig)
    requires IsSound(db) && !IsStored(db.versions, id) && FitsDesign(db, DraftOf(p, inputs, pubkey))
    requires IsIngestible(env.event)
    requires BecomesLatest(Find(db.designs, DesignOf(DraftOf(p, inputs, pubkey))), VersionOf(env))
    requires var key := DesignOf(DraftOf(p, inputs, pubkey));
             Find(after.designs, key) == Find(Reduce(db, env).db.designs, key)
    ensures var key := DesignOf(DraftOf(p, inputs, pubkey));
            var identity := FindIdentity(after.identities, key.pubkey);
            && (if IsNamed(identity) then DesignAnswerOf(after, key).Served?
                else DesignAnswerOf(after, key) == Malformed)
            && (ReopensUnchanged(p, DesignAnswerOf(after, key), key.designId, Build(p, inputs, pubkey, now).event,
                                 pubkey, later, id)
                <==> IsNamed(identity) && IsNfc(p, DraftOf(p, inputs, pubkey).mime))
  {
    var key := DesignOf(DraftOf(p, inputs, pubkey));
    var before := Find(db.designs, key);
    LatestRow(p, inputs, pubkey, now, id, sig, db, env);
    LatestIsVisible(before, VersionOf(env));
    RebuildsUnchanged(p, inputs, pubkey, now, later, id, sig, env, NextCurrent(before, VersionOf(env)),
        FindIdentity(after.identities, key.pubkey));
  }
}
