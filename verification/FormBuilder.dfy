/** The publish form's event builder. */
module FormBuilder {
  import opened Sequences
  import opened Text
  import opened Events
  import opened FormText

  datatype Inputs = Inputs(
    d: string, previousVersionEventId: string, name: string, format: string, url: string, sha256: string,
    description: string, preview: string, category: string, material: string, printer: string,
    license: string, lnurl: string, mime: string)

  datatype Tag = Tag(key: string, value: string)

  datatype UnsignedEvent = UnsignedEvent(kind: int, createdAt: int, pubkey: string, tags: seq<Tag>, content: string)

  datatype BuildError =
    | BadDesignId | BadPreviousVersion | NameMissing | NameTooLong | NameUnsupported | FormatMissing | BadFormat
    | BadUrl | BadSha256 | DescriptionUnsupported | BadPreview(value: string) | TagUnsupported(value: string)
    | SignerUnavailable

  datatype Warning = NoSha256

  datatype BuildResult = Built(event: UnsignedEvent, warnings: seq<Warning>) | Refused(errors: seq<BuildError>)

  // ---------- shapes ----------

  predicate IsFormatChar(c: char, first: bool) {
    'a' <= c <= 'z' || '0' <= c <= '9' || (!first && (c == '+' || c == '.' || c == '-'))
  }

  /** [a-z0-9][a-z0-9+.-]{0,31} */
  predicate IsFormat(s: string) {
    1 <= |s| <= 32 && forall i :: 0 <= i < |s| ==> IsFormatChar(s[i], i == 0)
  }

  predicate IsDashAt(i: int) { i == 8 || i == 13 || i == 18 || i == 23 }

  /** Lower-case hex in groups of 8-4-4-4-12. */
  predicate IsGroupedHex(s: string) {
    |s| == 36 && forall i :: 0 <= i < 36 ==> if IsDashAt(i) then s[i] == '-' else IsLowerHex(s[i])
  }

  /** Grouped hex with version 4 and the RFC 4122 variant. */
  predicate IsCanonicalUuidV4(s: string) {
    IsGroupedHex(s) && s[14] == '4' && (s[19] == '8' || s[19] == '9' || s[19] == 'a' || s[19] == 'b')
  }

  predicate IsCanonicalDesignId(s: string) {
    StartsWith(s, DESIGN_PREFIX) && IsCanonicalUuidV4(s[|DESIGN_PREFIX|..])
  }

  // ---------- the fields, normalised ----------

  datatype Draft = Draft(
    d: string, previous: string, name: string, format: string, url: Option<string>, sha256: string, content: string,
    previews: seq<string>, categories: seq<string>, materials: seq<string>, printers: seq<string>,
    license: string, lnurl: string, mime: string, pubkey: Option<string>)

  function DraftOf(p: Platform, inputs: Inputs, pubkey: string): Draft {
    Draft(
      p.lower(SingleLine(p, inputs.d)), p.lower(SingleLine(p, inputs.previousVersionEventId)),
      SingleLine(p, inputs.name),
      p.lower(SingleLine(p, inputs.format)), p.https(SingleLine(p, inputs.url)), p.lower(SingleLine(p, inputs.sha256)),
      JsTrim(TextArea(p, inputs.description)),
      LineList(p, inputs.preview), SingleLines(p, LineList(p, inputs.category)),
      SingleLines(p, LineList(p, inputs.material)), SingleLines(p, LineList(p, inputs.printer)),
      SingleLine(p, inputs.license), SingleLine(p, inputs.lnurl), p.lower(SingleLine(p, inputs.mime)),
          ParsePubkey(pubkey))
  }

  function NonEmpty(values: seq<string>): seq<string> {
    if |values| == 0 then []
    else NonEmpty(values[..|values| - 1]) + if |values[|values| - 1]| > 0 then [values[|values| - 1]] else []
  }

  /** The values that become text tags. */
  function TextTagValues(draft: Draft): seq<string> {
    NonEmpty(draft.categories + draft.materials + draft.printers + [draft.license, draft.lnurl, draft.mime])
  }

  // ---------- errors ----------

  function NameErrors(name: string): seq<BuildError> {
    if name == "" then [NameMissing]
    else if Utf16Length(name) > 120 then [NameTooLong]
    else When(HasControlOrBidi(name), NameUnsupported)
  }

  function FormatErrors(format: string): seq<BuildError> {
    if format == "" then [FormatMissing] else When(!IsFormat(format), BadFormat)
  }

  function PreviewErrors(p: Platform, previews: seq<string>): seq<BuildError> {
    if |previews| == 0 then []
    else
      var last := previews[|previews| - 1];
      PreviewErrors(p, previews[..|previews| - 1]) + When(p.https(last).None?, BadPreview(last))
  }

  function PreviewUrls(p: Platform, previews: seq<string>): seq<string> {
    if |previews| == 0 then []
    else
      var last := p.https(previews[|previews| - 1]);
      PreviewUrls(p, previews[..|previews| - 1]) + if last.Some? then [last.value] else []
  }

  function TagErrors(values: seq<string>): seq<BuildError> {
    if |values| == 0 then []
    else
      var last := values[|values| - 1];
      TagErrors(values[..|values| - 1]) + When(HasControlOrBidi(last), TagUnsupported(last))
  }

  function FieldErrors(draft: Draft): seq<BuildError> {
    When(!IsCanonicalDesignId(draft.d), BadDesignId)
    + When(draft.previous != "" && !IsLowerHexOf(draft.previous, 64), BadPreviousVersion)
    + NameErrors(draft.name) + FormatErrors(draft.format) + When(draft.url.None?, BadUrl)
    + When(draft.sha256 != "" && !IsLowerHexOf(draft.sha256, 64), BadSha256)
    + When(HasControlOrBidi(draft.content), DescriptionUnsupported)
  }

  function ErrorsOf(p: Platform, draft: Draft): seq<BuildError> {
    FieldErrors(draft) + PreviewErrors(p, draft.previews) + TagErrors(TextTagValues(draft))
    + When(draft.pubkey.None?, SignerUnavailable)
  }

  // ---------- tags ----------

  function Optional(key: string, value: string): seq<Tag> { if value == "" then [] else [Tag(key, value)] }

  function Tagged(key: string, values: seq<string>): (r: seq<Tag>)
    ensures |r| == |values| && forall i :: 0 <= i < |values| ==> r[i] == Tag(key, values[i])
  {
    seq(|values|, i requires 0 <= i < |values| => Tag(key, values[i]))
  }

  /** The tags before the predecessor. */
  function LeadingTags(draft: Draft): seq<Tag> {
    [Tag("d", draft.d), Tag(SCHEMA_KEY, SCHEMA_1_1), Tag("name", draft.name), Tag("format", draft.format),
     Tag("url", draft.url.GetOr(""))]
  }

  /** The pushes that follow the predecessor tag. */
  function PushTrailing(tags: seq<Tag>, draft: Draft, previewUrls: seq<string>): seq<Tag> {
    var lists := tags + Optional("sha256", draft.sha256) + Tagged("preview", previewUrls)
                 + Tagged("category", draft.categories) + Tagged("material", draft.materials)
                 + Tagged("printer", draft.printers);
    lists + Optional("license", draft.license) + Optional("lnurl", draft.lnurl) + Optional("m", draft.mime)
  }

  function TagsOf(draft: Draft, previewUrls: seq<string>): seq<Tag> {
    PushTrailing(LeadingTags(draft) + Optional(PREVIOUS_KEY, draft.previous), draft, previewUrls)
  }

  function DraftEvent(p: Platform, draft: Draft, now: int): UnsignedEvent {
    UnsignedEvent(33301, now, draft.pubkey.GetOr(""), TagsOf(draft, PreviewUrls(p, draft.previews)), draft.content)
  }

  function Build(p: Platform, inputs: Inputs, pubkey: string, now: int): BuildResult {
    var draft := DraftOf(p, inputs, pubkey);
    var errors := ErrorsOf(p, draft);
    if |errors| > 0 then Refused(errors)
    else Built(DraftEvent(p, draft, now), if draft.sha256 == "" then [NoSha256] else [])
  }

  // ---------- the builder itself ----------

  method BuildUnsignedEvent(p: Platform, inputs: Inputs, pubkey: string, now: int) returns (result: BuildResult)
    ensures result == Build(p, inputs, pubkey, now)
  {
    var draft := DraftOf(p, inputs, pubkey);
    var errors, warnings := CheckFields(draft);
    var previewErrors, previewUrls := CheckPreviews(p, draft.previews);
    errors := errors + previewErrors;
    var tagErrors := CheckTagValues(TextTagValues(draft));
    errors := errors + tagErrors;
    errors := PushWhen(errors, draft.pubkey.None?, SignerUnavailable);
    assert errors == ErrorsOf(p, draft);
    if |errors| > 0 { return Refused(errors); }
    var tags := PushTags(draft, previewUrls);
    result := Built(UnsignedEvent(33301, now, draft.pubkey.GetOr(""), tags, draft.content), warnings);
  }

  method CheckFields(draft: Draft) returns (errors: seq<BuildError>, warnings: seq<Warning>)
    ensures errors == FieldErrors(draft)
    ensures |errors| == 0 ==> warnings == if draft.sha256 == "" then [NoSha256] else []
  {
    errors := [];
    if !IsCanonicalDesignId(draft.d) { errors := errors + [BadDesignId]; }
    assert errors == When(!IsCanonicalDesignId(draft.d), BadDesignId);
    errors := PushWhen(errors, draft.previous != "" && !IsLowerHexOf(draft.previous, 64), BadPreviousVersion);
    var nameErrors := CheckName(draft.name);
    errors := errors + nameErrors;
    var formatErrors := CheckFormat(draft.format);
    errors := errors + formatErrors;
    errors := PushWhen(errors, draft.url.None?, BadUrl);
    errors := PushWhen(errors, draft.sha256 != "" && !IsLowerHexOf(draft.sha256, 64), BadSha256);
    warnings := if draft.sha256 == "" then [NoSha256] else [];
    errors := PushWhen(errors, HasControlOrBidi(draft.content), DescriptionUnsupported);
  }

  method CheckName(name: string) returns (errors: seq<BuildError>)
    ensures errors == NameErrors(name)
  {
    errors := [];
    if name == "" { errors := errors + [NameMissing]; }
    else if Utf16Length(name) > 120 { errors := errors + [NameTooLong]; }
    else if HasControlOrBidi(name) { errors := errors + [NameUnsupported]; }
  }

  method CheckFormat(format: string) returns (errors: seq<BuildError>)
    ensures errors == FormatErrors(format)
  {
    errors := [];
    if format == "" { errors := errors + [FormatMissing]; }
    else if !IsFormat(format) { errors := errors + [BadFormat]; }
  }

  method CheckPreviews(p: Platform, previews: seq<string>) returns (errors: seq<BuildError>, urls: seq<string>)
    ensures errors == PreviewErrors(p, previews) && urls == PreviewUrls(p, previews)
  {
    errors, urls := [], [];
    for i := 0 to |previews|
      invariant errors == PreviewErrors(p, previews[..i]) && urls == PreviewUrls(p, previews[..i])
    {
      assert previews[..i + 1][..i] == previews[..i];
      var url := p.https(previews[i]);
      if url.None? { errors := errors + [BadPreview(previews[i])]; } else { urls := urls + [url.value]; }
    }
    assert previews[..|previews|] == previews;
  }

  method CheckTagValues(values: seq<string>) returns (errors: seq<BuildError>)
    ensures errors == TagErrors(values)
  {
    errors := [];
    for i := 0 to |values|
      invariant errors == TagErrors(values[..i])
    {
      assert values[..i + 1][..i] == values[..i];
      if HasControlOrBidi(values[i]) { errors := errors + [TagUnsupported(values[i])]; }
    }
    assert values[..|values|] == values;
  }

  method PushTags(draft: Draft, previewUrls: seq<string>) returns (tags: seq<Tag>)
    ensures tags == TagsOf(draft, previewUrls)
  {
    tags := LeadingTags(draft);
    tags := PushOptional(tags, PREVIOUS_KEY, draft.previous);
    tags := PushOptional(tags, "sha256", draft.sha256);
    tags := PushEach(tags, "preview", previewUrls);
    tags := PushEach(tags, "category", draft.categories);
    tags := PushEach(tags, "material", draft.materials);
    tags := PushEach(tags, "printer", draft.printers);
    tags := PushOptional(tags, "license", draft.license);
    tags := PushOptional(tags, "lnurl", draft.lnurl);
    tags := PushOptional(tags, "m", draft.mime);
  }

  method PushOptional(tags: seq<Tag>, key: string, value: string) returns (r: seq<Tag>)
    ensures r == tags + Optional(key, value)
  {
    r := tags;
    if value != "" { r := r + [Tag(key, value)]; }
  }

  method PushEach(tags: seq<Tag>, key: string, values: seq<string>) returns (r: seq<Tag>)
    ensures r == tags + Tagged(key, values)
  {
    r := tags;
    for i := 0 to |values|
      invariant r == tags + Tagged(key, values[..i])
    {
      assert Tagged(key, values[..i + 1]) == Tagged(key, values[..i]) + [Tag(key, values[i])];
      r := r + [Tag(key, values[i])];
    }
    assert values[..|values|] == values;
  }

  // ---------- exactly which drafts are accepted ----------

  /** What the form demands of a draft. */
  predicate IsPublishable(p: Platform, draft: Draft) {
    && IsCanonicalDesignId(draft.d)
    && (draft.previous == "" || IsLowerHexOf(draft.previous, 64))
    && draft.name != "" && Utf16Length(draft.name) <= 120 && !HasControlOrBidi(draft.name)
    && IsFormat(draft.format)
    && draft.url.Some?
    && (draft.sha256 == "" || IsLowerHexOf(draft.sha256, 64))
    && !HasControlOrBidi(draft.content)
    && AllHttps(p, draft.previews)
    && AllPlain(draft.categories) && AllPlain(draft.materials) && AllPlain(draft.printers)
    && !HasControlOrBidi(draft.license) && !HasControlOrBidi(draft.lnurl) && !HasControlOrBidi(draft.mime)
    && draft.pubkey.Some?
  }

  predicate AllPlain(values: seq<string>) {
    forall i :: 0 <= i < |values| ==> !HasControlOrBidi(values[i])
  }

  predicate AllHttps(p: Platform, previews: seq<string>) {
    forall i :: 0 <= i < |previews| ==> p.https(previews[i]).Some?
  }

  lemma {:induction false} HttpsFront(p: Platform, previews: seq<string>)
    requires |previews| > 0
    ensures AllHttps(p, previews) <==>
      AllHttps(p, previews[..|previews| - 1]) && p.https(previews[|previews| - 1]).Some?
  {
    var front := previews[..|previews| - 1];
    assert forall i :: 0 <= i < |front| ==> front[i] == previews[i];
  }

  lemma {:induction false} PreviewsChecked(p: Platform, previews: seq<string>)
    ensures PreviewErrors(p, previews) == [] <==> AllHttps(p, previews)
  {
    if |previews| > 0 {
      HttpsFront(p, previews);
      PreviewsChecked(p, previews[..|previews| - 1]);
    }
  }

  lemma {:induction false} PreviewsSerialised(p: Platform, previews: seq<string>)
    requires AllHttps(p, previews)
    ensures |PreviewUrls(p, previews)| == |previews|
    ensures forall i :: 0 <= i < |previews| ==> p.https(previews[i]) == Some(PreviewUrls(p, previews)[i])
  {
    if |previews| > 0 {
      HttpsFront(p, previews);
      PreviewsSerialised(p, previews[..|previews| - 1]);
    }
  }

  lemma {:induction false} TagsChecked(values: seq<string>)
    ensures TagErrors(values) == [] <==> AllPlain(values)
  {
    if |values| > 0 {
      var front := values[..|values| - 1];
      TagsChecked(front);
      assert forall i :: 0 <= i < |front| ==> front[i] == values[i];
    }
  }

  lemma {:induction false} NonEmptyPlain(values: seq<string>)
    ensures AllPlain(NonEmpty(values)) <==> AllPlain(values)
  {
    if |values| > 0 {
      var front, last := values[..|values| - 1], values[|values| - 1];
      NonEmptyPlain(front);
      assert values == front + [last];
      PlainAppend(front, [last]);
      PlainAppend(NonEmpty(front), if |last| > 0 then [last] else []);
    }
  }

  lemma {:induction false} PlainAppend(a: seq<string>, b: seq<string>)
    ensures AllPlain(a + b) <==> AllPlain(a) && AllPlain(b)
  {
    if AllPlain(a + b) {
      assert forall i :: 0 <= i < |a| ==> (a + b)[i] == a[i];
      assert forall i :: 0 <= i < |b| ==> (a + b)[|a| + i] == b[i];
    }
  }

  lemma {:induction false} TextTagsPlain(draft: Draft)
    ensures AllPlain(TextTagValues(draft)) <==>
      AllPlain(draft.categories) && AllPlain(draft.materials) && AllPlain(draft.printers)
      && !HasControlOrBidi(draft.license) && !HasControlOrBidi(draft.lnurl) && !HasControlOrBidi(draft.mime)
  {
    var last := [draft.license, draft.lnurl, draft.mime];
    NonEmptyPlain(draft.categories + draft.materials + draft.printers + last);
    PlainAppend(draft.categories + draft.materials + draft.printers, last);
    PlainAppend(draft.categories + draft.materials, draft.printers);
    PlainAppend(draft.categories, draft.materials);
    assert AllPlain(last) <==> !HasControlOrBidi(last[0]) && !HasControlOrBidi(last[1]) && !HasControlOrBidi(last[2]);
  }

  lemma {:induction false} FieldsChecked(draft: Draft)
    ensures FieldErrors(draft) == [] <==>
      && IsCanonicalDesignId(draft.d)
      && (draft.previous == "" || IsLowerHexOf(draft.previous, 64))
      && draft.name != "" && Utf16Length(draft.name) <= 120 && !HasControlOrBidi(draft.name)
      && IsFormat(draft.format)
      && draft.url.Some?
      && (draft.sha256 == "" || IsLowerHexOf(draft.sha256, 64))
      && !HasControlOrBidi(draft.content)
  {
  }

  lemma {:induction false} ErrorsTogether(p: Platform, draft: Draft)
    ensures ErrorsOf(p, draft) == [] <==>
      FieldErrors(draft) == [] && PreviewErrors(p, draft.previews) == [] && TagErrors(TextTagValues(draft)) == []
      && draft.pubkey.Some?
  {
    var fields, previews, tags := FieldErrors(draft), PreviewErrors(p, draft.previews), TagErrors(TextTagValues(draft));
    assert |ErrorsOf(p, draft)| == |fields| + |previews| + |tags| + |When(draft.pubkey.None?, SignerUnavailable)|;
  }

  lemma {:induction false} ErrorsChecked(p: Platform, draft: Draft)
    ensures ErrorsOf(p, draft) == [] <==> IsPublishable(p, draft)
  {
    ErrorsTogether(p, draft);
    FieldsChecked(draft);
    PreviewsChecked(p, draft.previews);
    TagsChecked(TextTagValues(draft));
    TextTagsPlain(draft);
  }

  /** The builder accepts exactly the publishable drafts. */
  lemma {:induction false} BuiltIffPublishable(p: Platform, inputs: Inputs, pubkey: string, now: int)
    ensures Build(p, inputs, pubkey, now).Built? <==> IsPublishable(p, DraftOf(p, inputs, pubkey))
  {
    ErrorsChecked(p, DraftOf(p, inputs, pubkey));
  }

  /** A line break is one of the refused control characters, so no built event's content has one,
      although the form offers a text area. */
  lemma {:induction false} DescriptionIsOneLine(p: Platform, inputs: Inputs, pubkey: string, now: int)
    requires Build(p, inputs, pubkey, now).Built?
    ensures HasNo(Build(p, inputs, pubkey, now).event.content, '\n')
  {
    BuiltIffPublishable(p, inputs, pubkey, now);
    var content := Build(p, inputs, pubkey, now).event.content;
    forall i | 0 <= i < |content| ensures content[i] != '\n' { assert !IsControlOrBidi(content[i]); }
  }

  // ---------- which errors a draft gets ----------

  /** What each error says of a draft. */
  predicate IsFault(p: Platform, draft: Draft, error: BuildError) {
    match error
    case BadDesignId => !IsCanonicalDesignId(draft.d)
    case BadPreviousVersion => draft.previous != "" && !IsLowerHexOf(draft.previous, 64)
    case NameMissing => |draft.name| == 0
    case NameTooLong => Utf16Length(draft.name) > 120
    case NameUnsupported => Utf16Length(draft.name) <= 120 && HasControlOrBidi(draft.name)
    case FormatMissing => |draft.format| == 0
    case BadFormat => |draft.format| > 0 && !IsFormat(draft.format)
    case BadUrl => draft.url.None?
    case BadSha256 => draft.sha256 != "" && !IsLowerHexOf(draft.sha256, 64)
    case DescriptionUnsupported => HasControlOrBidi(draft.content)
    case BadPreview(value) => value in draft.previews && p.https(value).None?
    case TagUnsupported(value) =>
      && HasControlOrBidi(value)
      && (value in draft.categories || value in draft.materials || value in draft.printers
          || value == draft.license || value == draft.lnurl || value == draft.mime)
    case SignerUnavailable => draft.pubkey.None?
  }

  /** The order in which errors are reported. */
  function ErrorRank(error: BuildError): nat {
    match error
    case BadDesignId => 0
    case BadPreviousVersion => 1
    case NameMissing => 2
    case NameTooLong => 2
    case NameUnsupported => 2
    case FormatMissing => 3
    case BadFormat => 3
    case BadUrl => 4
    case BadSha256 => 5
    case DescriptionUnsupported => 6
    case BadPreview(_) => 7
    case TagUnsupported(_) => 8
    case SignerUnavailable => 9
  }

  /** In the order of the checks, and all from the given range of them. */
  predicate InOrder(errors: seq<BuildError>, low: nat, high: nat) { Ascending(errors, ErrorRank, low, high) }

  lemma {:induction false} PreviewsInOrder(p: Platform, previews: seq<string>)
    ensures InOrder(PreviewErrors(p, previews), 7, 7)
  {
    if |previews| > 0 { PreviewsInOrder(p, previews[..|previews| - 1]); }
  }

  lemma {:induction false} TagErrorsInOrder(values: seq<string>)
    ensures InOrder(TagErrors(values), 8, 8)
  {
    if |values| > 0 { TagErrorsInOrder(values[..|values| - 1]); }
  }

  lemma {:induction false} NamesInOrder(draft: Draft)
    ensures InOrder(NameErrors(draft.name), 2, 2) && InOrder(FormatErrors(draft.format), 3, 3)
  {
  }

  lemma {:induction false} CheckInOrder(condition: bool, error: BuildError)
    ensures InOrder(When(condition, error), ErrorRank(error), ErrorRank(error))
  {
    AscendingWhen(condition, error, ErrorRank);
  }

  lemma {:induction false} SevenInOrder(a: seq<BuildError>, b: seq<BuildError>, c: seq<BuildError>, d: seq<BuildError>,
    e: seq<BuildError>, f: seq<BuildError>, g: seq<BuildError>)
    requires InOrder(a, 0, 0) && InOrder(b, 1, 1) && InOrder(c, 2, 2) && InOrder(d, 3, 3)
    requires InOrder(e, 4, 4) && InOrder(f, 5, 5) && InOrder(g, 6, 6)
    ensures InOrder(a + b + c + d + e + f + g, 0, 6)
  {
    AscendingSeven(a, b, c, d, e, f, g, ErrorRank, 0, 0);
  }

  lemma {:induction false} FourInOrder(a: seq<BuildError>, b: seq<BuildError>, c: seq<BuildError>, d: seq<BuildError>)
    requires InOrder(a, 0, 6) && InOrder(b, 7, 7) && InOrder(c, 8, 8) && InOrder(d, 9, 9)
    ensures InOrder(a + b + c + d, 0, 9)
  {
    AscendingFour(a, b, c, d, ErrorRank, 0, 6);
  }

  lemma {:induction false} ChecksInOrder(
    badId: bool, badPrevious: bool, names: seq<BuildError>, formats: seq<BuildError>, badUrl: bool, badSha: bool,
    badText: bool)
    requires InOrder(names, 2, 2) && InOrder(formats, 3, 3)
    ensures InOrder(
      When(badId, BadDesignId) + When(badPrevious, BadPreviousVersion) + names + formats + When(badUrl, BadUrl)
      + When(badSha, BadSha256) + When(badText, DescriptionUnsupported), 0, 6)
  {
    CheckInOrder(badId, BadDesignId);
    CheckInOrder(badPrevious, BadPreviousVersion);
    CheckInOrder(badUrl, BadUrl);
    CheckInOrder(badSha, BadSha256);
    CheckInOrder(badText, DescriptionUnsupported);
    SevenInOrder(When(badId, BadDesignId), When(badPrevious, BadPreviousVersion), names, formats,
                 When(badUrl, BadUrl), When(badSha, BadSha256), When(badText, DescriptionUnsupported));
  }

  lemma {:induction false} FieldsInOrder(draft: Draft)
    ensures InOrder(FieldErrors(draft), 0, 6)
  {
    NamesInOrder(draft);
    ChecksInOrder(
      !IsCanonicalDesignId(draft.d), draft.previous != "" && !IsLowerHexOf(draft.previous, 64),
      NameErrors(draft.name), FormatErrors(draft.format), draft.url.None?,
      draft.sha256 != "" && !IsLowerHexOf(draft.sha256, 64), HasControlOrBidi(draft.content));
  }

  lemma {:induction false} ErrorsInOrder(p: Platform, draft: Draft)
    ensures InOrder(ErrorsOf(p, draft), 0, 9)
  {
    FieldsInOrder(draft);
    PreviewsInOrder(p, draft.previews);
    TagErrorsInOrder(TextTagValues(draft));
    CheckInOrder(draft.pubkey.None?, SignerUnavailable);
    FourInOrder(FieldErrors(draft), PreviewErrors(p, draft.previews), TagErrors(TextTagValues(draft)),
                When(draft.pubkey.None?, SignerUnavailable));
  }

  lemma {:induction false} PreviewFaults(p: Platform, previews: seq<string>, error: BuildError)
    ensures error in PreviewErrors(p, previews) <==>
      error.BadPreview? && error.value in previews && p.https(error.value).None?
  {
    if |previews| > 0 {
      PreviewFaults(p, previews[..|previews| - 1], error);
      assert previews == previews[..|previews| - 1] + [previews[|previews| - 1]];
    }
  }

  lemma {:induction false} TagFaults(values: seq<string>, error: BuildError)
    ensures error in TagErrors(values) <==>
      error.TagUnsupported? && error.value in values && HasControlOrBidi(error.value)
  {
    if |values| > 0 {
      TagFaults(values[..|values| - 1], error);
      assert values == values[..|values| - 1] + [values[|values| - 1]];
    }
  }

  lemma {:induction false} NonEmptyHolds(values: seq<string>, value: string)
    ensures value in NonEmpty(values) <==> value in values && |value| > 0
  {
    if |values| > 0 {
      NonEmptyHolds(values[..|values| - 1], value);
      assert values == values[..|values| - 1] + [values[|values| - 1]];
    }
  }

  lemma {:induction false} NameFaults(p: Platform, draft: Draft, error: BuildError)
    ensures error in NameErrors(draft.name) <==> ErrorRank(error) == 2 && IsFault(p, draft, error)
    ensures error in FormatErrors(draft.format) <==> ErrorRank(error) == 3 && IsFault(p, draft, error)
  {
    assert draft.name == "" ==> Utf16Length(draft.name) == 0 && !HasControlOrBidi(draft.name);
  }

  lemma {:induction false} InFields(draft: Draft, error: BuildError)
    ensures error in FieldErrors(draft) <==>
      || (error == BadDesignId && !IsCanonicalDesignId(draft.d))
      || (error == BadPreviousVersion && draft.previous != "" && !IsLowerHexOf(draft.previous, 64))
      || error in NameErrors(draft.name) || error in FormatErrors(draft.format)
      || (error == BadUrl && draft.url.None?)
      || (error == BadSha256 && draft.sha256 != "" && !IsLowerHexOf(draft.sha256, 64))
      || (error == DescriptionUnsupported && HasControlOrBidi(draft.content))
  {
    InWhen(!IsCanonicalDesignId(draft.d), BadDesignId, error);
    InWhen(draft.previous != "" && !IsLowerHexOf(draft.previous, 64), BadPreviousVersion, error);
    InWhen(draft.url.None?, BadUrl, error);
    InWhen(draft.sha256 != "" && !IsLowerHexOf(draft.sha256, 64), BadSha256, error);
    InWhen(HasControlOrBidi(draft.content), DescriptionUnsupported, error);
    InSeven(
      When(!IsCanonicalDesignId(draft.d), BadDesignId),
      When(draft.previous != "" && !IsLowerHexOf(draft.previous, 64), BadPreviousVersion),
      NameErrors(draft.name), FormatErrors(draft.format), When(draft.url.None?, BadUrl),
      When(draft.sha256 != "" && !IsLowerHexOf(draft.sha256, 64), BadSha256),
      When(HasControlOrBidi(draft.content), DescriptionUnsupported), error);
  }

  lemma {:induction false} TagTextHolds(draft: Draft, value: string)
    ensures value in TextTagValues(draft) <==>
      && |value| > 0
      && (value in draft.categories || value in draft.materials || value in draft.printers
          || value == draft.license || value == draft.lnurl || value == draft.mime)
  {
    var last := [draft.license, draft.lnurl, draft.mime];
    NonEmptyHolds(draft.categories + draft.materials + draft.printers + last, value);
    InFour(draft.categories, draft.materials, draft.printers, last, value);
  }

  lemma {:induction false} FieldFaults(p: Platform, draft: Draft, error: BuildError)
    ensures error in FieldErrors(draft) <==> ErrorRank(error) < 7 && IsFault(p, draft, error)
  {
    InFields(draft, error);
    NameFaults(p, draft, error);
  }

  lemma {:induction false} ListFaults(p: Platform, draft: Draft, error: BuildError)
    ensures error in PreviewErrors(p, draft.previews) <==> ErrorRank(error) == 7 && IsFault(p, draft, error)
    ensures error in TagErrors(TextTagValues(draft)) <==> ErrorRank(error) == 8 && IsFault(p, draft, error)
  {
    PreviewFaults(p, draft.previews, error);
    TagFaults(TextTagValues(draft), error);
    if error.TagUnsupported? { TagTextHolds(draft, error.value); }
  }

  lemma {:induction false} SignerFault(p: Platform, draft: Draft, error: BuildError)
    ensures error in When(draft.pubkey.None?, SignerUnavailable) <==> ErrorRank(error) == 9 && IsFault(p, draft, error)
  {
    InWhen(draft.pubkey.None?, SignerUnavailable, error);
  }

  lemma {:induction false} DraftFaults(p: Platform, draft: Draft, error: BuildError)
    ensures error in ErrorsOf(p, draft) <==> IsFault(p, draft, error)
  {
    InFour(FieldErrors(draft), PreviewErrors(p, draft.previews), TagErrors(TextTagValues(draft)),
           When(draft.pubkey.None?, SignerUnavailable), error);
    FieldFaults(p, draft, error);
    ListFaults(p, draft, error);
    SignerFault(p, draft, error);
    RankFits(error);
  }

  lemma {:induction false} RankFits(error: BuildError)
    ensures ErrorRank(error) < 7 || ErrorRank(error) == 7 || ErrorRank(error) == 8 || ErrorRank(error) == 9
  {
  }

  /** The errors of a refused draft are exactly its faults, in the order of the form's checks. */
  lemma {:induction false} ErrorsAreFaults(p: Platform, inputs: Inputs, pubkey: string, now: int, error: BuildError)
    requires Build(p, inputs, pubkey, now).Refused?
    ensures error in Build(p, inputs, pubkey, now).errors <==> IsFault(p, DraftOf(p, inputs, pubkey), error)
    ensures InOrder(Build(p, inputs, pubkey, now).errors, 0, 9)
  {
    ErrorsInOrder(p, DraftOf(p, inputs, pubkey));
    DraftFaults(p, DraftOf(p, inputs, pubkey), error);
  }
}
