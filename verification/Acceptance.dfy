/** The acceptance chain: what the publish form builds, the server accepts and the indexer stores. */
module Acceptance {
  import opened Text
  import opened Events
  import opened Tables
  import opened Reducer
  import opened ReducerRuns
  import opened FormText
  import opened FormBuilder
  import opened PublishedEvents
  import opened EventValidation

  // ---------- the form's design ids are the server's ----------

  lemma {:induction false} RemoveAbsent(s: string, pattern: string)
    requires |pattern| > 0 && HasNo(s, pattern[0])
    ensures RemoveAll(s, pattern) == s
  {
    if |s| >= |pattern| {
      assert s[..|pattern|][0] != pattern[0];
      RemoveAbsent(s[1..], pattern);
      assert s == [s[0]] + s[1..];
    }
  }

  lemma {:induction false} RemoveDashConcat(a: string, b: string)
    ensures RemoveAll(a + b, "-") == RemoveAll(a, "-") + RemoveAll(b, "-")
  {
    if |a| == 0 {
      assert a + b == b;
    } else {
      assert (a + b)[1..] == a[1..] + b;
      RemoveDashConcat(a[1..], b);
    }
  }

  /** Dropping the dash between two dash-free parts. */
  lemma {:induction false} RemoveOneDash(a: string, rest: string)
    requires HasNo(a, '-')
    ensures RemoveAll(a + "-" + rest, "-") == a + RemoveAll(rest, "-")
  {
    RemoveAbsent(a, "-");
    RemoveDashConcat(a + "-", rest);
    RemoveDashConcat(a, "-");
    assert RemoveAll("-", "-") == "";
  }

  function Bare(s: string): string
    requires |s| == 36
  {
    s[0..8] + (s[9..13] + (s[14..18] + (s[19..23] + s[24..36])))
  }

  lemma {:induction false} GroupedParts(s: string)
    requires IsGroupedHex(s)
    ensures HasNo(s[0..8], '-') && HasNo(s[9..13], '-') && HasNo(s[14..18], '-') && HasNo(s[19..23], '-')
        && HasNo(s[24..36], '-')
    ensures s == s[0..8] + "-" + (s[9..13] + "-" + (s[14..18] + "-" + (s[19..23] + "-" + s[24..36])))
  {
    assert s[8] == '-' && s[13] == '-' && s[18] == '-' && s[23] == '-';
  }

  lemma {:induction false} GroupedWithoutDashes(s: string)
    requires IsGroupedHex(s)
    ensures RemoveAll(s, "-") == Bare(s)
  {
    GroupedParts(s);
    RemoveOneDash(s[0..8], s[9..13] + "-" + (s[14..18] + "-" + (s[19..23] + "-" + s[24..36])));
    RemoveOneDash(s[9..13], s[14..18] + "-" + (s[19..23] + "-" + s[24..36]));
    RemoveOneDash(s[14..18], s[19..23] + "-" + s[24..36]);
    RemoveOneDash(s[19..23], s[24..36]);
    RemoveAbsent(s[24..36], "-");
  }

  predicate AllLowerHex(s: string) { forall i :: 0 <= i < |s| ==> IsLowerHex(s[i]) }

  lemma {:induction false} BareIsHex(s: string)
    requires IsGroupedHex(s)
    ensures AllLowerHex(Bare(s)) && |Bare(s)| == 32 && Bare(s)[12] == s[14] && Bare(s)[16] == s[19]
  {
    var tail := s[14..18] + (s[19..23] + s[24..36]);
    assert AllLowerHex(tail);
  }

  function DigitsOf(s: string): (r: seq<nat>)
    requires AllLowerHex(s)
    ensures |r| == |s| && forall i :: 0 <= i < |s| ==> Some(r[i]) == HexValue(s[i])
  {
    seq(|s|, i requires 0 <= i < |s| => HexValue(s[i]).value)
  }

  lemma {:induction false} HexDigitsOfHex(s: string, barred: bool)
    requires AllLowerHex(s) && (|s| == 0 ==> !barred)
    ensures HexDigits(s, barred) == Some(DigitsOf(s))
  {
    if |s| > 0 {
      HexDigitsOfHex(s[1..], false);
      assert DigitsOf(s) == [HexValue(s[0]).value] + DigitsOf(s[1..]);
    }
  }

  lemma {:induction false} HexNumberOfHex(s: string)
    requires AllLowerHex(s) && |s| > 0
    ensures HexNumber(s) == Some(DigitsOf(s))
  {
    TrimLaws(s, IsPySpace);
    HexDigitsOfHex(s, true);
  }

  lemma {:induction false} GroupedIsPlain(s: string)
    requires IsGroupedHex(s)
    ensures RemoveAll(RemoveAll(s, "urn:"), "uuid:") == s && Trim(s, IsBrace) == s
  {
    RemoveAbsent(s, "urn:");
    RemoveAbsent(s, "uuid:");
    TrimLaws(s, IsBrace);
  }

  lemma {:induction false} GroupedDigits(s: string)
    requires IsGroupedHex(s)
    ensures AllLowerHex(Bare(s)) && UuidDigits(s) == Some(DigitsOf(Bare(s)))
  {
    GroupedIsPlain(s);
    GroupedWithoutDashes(s);
    BareIsHex(s);
    HexNumberOfHex(Bare(s));
    assert Zeros(0) + DigitsOf(Bare(s)) == DigitsOf(Bare(s));
  }

  lemma {:induction false} Nibbles(c: char)
    requires IsLowerHex(c)
    ensures HexValue(c) == Some(4) <==> c == '4'
    ensures HexValue(c).Some? && (8 <= HexValue(c).value <= 11 <==> c == '8' || c == '9' || c == 'a' || c == 'b')
  {
  }

  lemma {:induction false} UuidOfGrouped(s: string)
    requires IsGroupedHex(s)
    ensures IsUuidV4(s) <==> HexValue(s[14]) == Some(4) && HexValue(s[19]).Some? && 8 <= HexValue(s[19]).value <= 11
  {
    GroupedDigits(s);
    BareIsHex(s);
    var digits := DigitsOf(Bare(s));
    assert Some(digits[12]) == HexValue(s[14]) && Some(digits[16]) == HexValue(s[19]);
  }

  /** Among grouped hex strings the server's UUID parser accepts exactly the form's. */
  lemma {:induction false} UuidsAgree(s: string)
    requires IsGroupedHex(s)
    ensures IsUuidV4(s) <==> IsCanonicalUuidV4(s)
  {
    UuidOfGrouped(s);
    Nibbles(s[14]);
    Nibbles(s[19]);
  }

  /** Every design id the form lets through is one the server and the indexer accept, and of
      prefixed grouped hex they accept no other. */
  lemma {:induction false} DesignIdsAgree(d: string)
    ensures IsCanonicalDesignId(d) ==> IsDesignId(d)
    ensures StartsWith(d, DESIGN_PREFIX) && IsGroupedHex(d[|DESIGN_PREFIX|..]) ==>
              (IsDesignId(d) <==> IsCanonicalDesignId(d))
  {
    if StartsWith(d, DESIGN_PREFIX) && IsGroupedHex(d[|DESIGN_PREFIX|..]) { UuidsAgree(d[|DESIGN_PREFIX|..]); }
  }

  // ---------- names ----------

  predicate IsPlainLine(s: string) { IsSingleLine(s) && !HasControlOrBidi(s) }

  lemma {:induction false} PlainSpaces(s: string)
    requires IsPlainLine(s)
    ensures forall i :: 0 <= i < |s| ==> (IsPySpace(s[i]) <==> s[i] == ' ')
  {
    forall i | 0 <= i < |s| ensures IsPySpace(s[i]) <==> s[i] == ' ' {
      SpaceClasses(s[i]);
      assert !IsControlOrBidi(s[i]);
    }
  }

  lemma {:induction false} SpaceClasses(c: char)
    ensures IsPySpace(c) ==> IsJsSpace(c) || IsControlOrBidi(c)
    ensures IsPySpace(' ')
  {
  }

  lemma {:induction false} PyCollapseKeeps(s: string)
    requires forall i :: 0 <= i < |s| ==> (IsPySpace(s[i]) <==> s[i] == ' ')
    requires forall i :: 0 <= i < |s| - 1 && s[i] == ' ' ==> s[i + 1] != ' '
    ensures Collapse(s, IsPySpace) == s
    decreases |s|
  {
    if |s| > 0 {
      PyCollapseKeeps(s[1..]);
      assert s == [s[0]] + s[1..];
      if |s| > 1 && IsPySpace(s[0]) { assert !IsPySpace(s[1]); }
    }
  }

  /** The server's normaliser leaves the form's names alone: without control characters the two
      whitespace classes agree on them. */
  lemma {:induction false} NamesAgree(name: string)
    requires IsPlainLine(name)
    ensures NormalizeName(name) == name
  {
    PlainSpaces(name);
    PyCollapseKeeps(name);
    TrimLaws(name, IsPySpace);
  }

  lemma {:induction false} FormatUnchanged(format: string)
    requires IsFormat(format)
    ensures Lower(format) == format
  {
  }

  lemma {:induction false} HexUnchanged(s: string, n: nat)
    requires IsLowerHexOf(s, n)
    ensures Lower(s) == s && PyStrip(s) == s
  {
    LowerHexUnchanged(s);
    TrimLaws(s, IsPySpace);
  }

  // ---------- the chain ----------

  /** What a signer adds: an id and a signature in hex, and an id that is not the predecessor's. */
  predicate IsSigning(draft: Draft, id: string, sig: string) {
    IsLowerHexOf(Lower(id), 64) && IsLowerHexOf(Lower(sig), 128) && Lower(id) != draft.previous
  }

  function EventOf(p: Platform, draft: Draft, now: int, id: string, sig: string): Event {
    Signed(DraftEvent(p, draft, now), id, sig)
  }

  /** A publishable draft as the form's normalisers leave it, about to be signed. */
  ghost predicate IsReady(p: Platform, draft: Draft, now: int, id: string, sig: string) {
    && Lawful(p) && now > 0 && IsPublishable(p, draft) && IsSigning(draft, id, sig)
    && IsSingleLine(draft.name) && IsUrlText(draft.url.value) && IsLowerHexOf(draft.pubkey.value, 64)
  }

  lemma {:induction false} BuiltIsReady(p: Platform, inputs: Inputs, pubkey: string, now: int, id: string, sig: string)
    requires Lawful(p) && now > 0 && Build(p, inputs, pubkey, now).Built?
    requires IsSigning(DraftOf(p, inputs, pubkey), id, sig)
    ensures IsReady(p, DraftOf(p, inputs, pubkey), now, id, sig)
    ensures Signed(Build(p, inputs, pubkey, now).event, id, sig) == EventOf(p, DraftOf(p, inputs, pubkey), now, id, sig)
  {
    BuiltIffPublishable(p, inputs, pubkey, now);
    SingleLineIsNormal(p, inputs.name);
  }

  lemma {:induction false} BuiltRequired(p: Platform, draft: Draft, urls: seq<string>)
    requires Lawful(p) && IsPublishable(p, draft) && IsSingleLine(draft.name) && IsUrlText(draft.url.value)
    ensures var tags := List(JsonTags(TagsOf(draft, urls)));
            AreRequired(TagValues(tags, "d"), TagValues(tags, "name"), TagValues(tags, "format"), TagValues(tags,
                "url"))
  {
    BuiltTagValues(draft, urls, "d");
    BuiltTagValues(draft, urls, "name");
    BuiltTagValues(draft, urls, "format");
    BuiltTagValues(draft, urls, "url");
    LeadingFields(draft, urls);
    DesignIdsAgree(draft.d);
    NamesAgree(draft.name);
    FormatUnchanged(draft.format);
  }

  lemma {:induction false} BuiltOptional(p: Platform, draft: Draft, urls: seq<string>, id: string)
    requires IsPublishable(p, draft) && Lower(id) != draft.previous
    ensures var tags := List(JsonTags(TagsOf(draft, urls)));
            AreOptional(TagValues(tags, "sha256"), TagValues(tags, PREVIOUS_KEY), Lower(id))
  {
    BuiltTagValues(draft, urls, "sha256");
    BuiltTagValues(draft, urls, PREVIOUS_KEY);
    LeadingFields(draft, urls);
    if draft.sha256 != "" { HexUnchanged(draft.sha256, 64); }
    if draft.previous != "" { HexUnchanged(draft.previous, 64); }
  }

  lemma {:induction false} JsonTagsAreStrings(tags: seq<Tag>)
    ensures AreStringLists(JsonTags(tags))
  {
  }

  lemma {:induction false} ReadyHasValidTags(p: Platform, draft: Draft, now: int, id: string, sig: string)
    requires IsReady(p, draft, now, id, sig)
    ensures IsTyped(EventOf(p, draft, now, id, sig)) && HasValidTags(EventOf(p, draft, now, id, sig))
  {
    var urls := PreviewUrls(p, draft.previews);
    BuiltRequired(p, draft, urls);
    BuiltOptional(p, draft, urls, id);
    BuiltSchema(draft, urls);
  }

  /** The server accepts what the form builds. */
  lemma {:induction false} ReadyIsValid(p: Platform, draft: Draft, now: int, id: string, sig: string)
    requires IsReady(p, draft, now, id, sig)
    ensures Errors(Some(EventOf(p, draft, now, id, sig))) == []
  {
    ReadyHasValidTags(p, draft, now, id, sig);
    JsonTagsAreStrings(TagsOf(draft, PreviewUrls(p, draft.previews)));
    HexUnchanged(draft.pubkey.value, 64);
    PassesIffValid(EventOf(p, draft, now, id, sig));
  }

  /** Whatever the server accepts, the ingest filter passes. */
  lemma {:induction false} ValidIsIngestible(e: Event)
    requires Errors(Some(e)) == []
    ensures IsIngestible(e) && SchemaVersion(e.tags).Some?
  {
    PassesIffValid(e);
  }

  /** How the reducer reads a built event's lineage. */
  lemma {:induction false} BuiltLineage(p: Platform, draft: Draft, urls: seq<string>, id: string)
    requires IsPublishable(p, draft) && Lower(id) != draft.previous
    ensures LineageOf(List(JsonTags(TagsOf(draft, urls))), id)
         == if draft.previous == "" then Lineage(None, false) else Lineage(Some(draft.previous), true)
  {
    BuiltTagValues(draft, urls, PREVIOUS_KEY);
    LeadingFields(draft, urls);
    if draft.previous != "" { HexUnchanged(draft.previous, 64); }
  }

  function DesignOf(draft: Draft): Key { Key(draft.pubkey.GetOr(""), draft.d) }

  lemma {:induction false} ReadyKey(p: Platform, draft: Draft, now: int, id: string, sig: string)
    requires IsReady(p, draft, now, id, sig)
    ensures FirstValue(EventOf(p, draft, now, id, sig).tags, "d") == Some(draft.d)
  {
    BuiltTagValues(draft, PreviewUrls(p, draft.previews), "d");
    LeadingFields(draft, PreviewUrls(p, draft.previews));
  }

  predicate FitsDesign(db: Db, draft: Draft) { draft.previous == "" <==> DesignOf(draft) !in db.designs }

  /** The reducer admits a built event exactly when it names a predecessor just if its design is
      already known. */
  lemma {:induction false} ReadyIsAdmitted(p: Platform, draft: Draft, now: int, id: string, sig: string, db: Db)
    requires IsReady(p, draft, now, id, sig)
    ensures IsIngestible(EventOf(p, draft, now, id, sig))
    ensures SchemaVersion(EventOf(p, draft, now, id, sig).tags) == Some(SCHEMA_1_1)
    ensures IsAdmitted(db, EventOf(p, draft, now, id, sig)) <==> FitsDesign(db, draft)
  {
    var urls := PreviewUrls(p, draft.previews);
    ReadyIsValid(p, draft, now, id, sig);
    ValidIsIngestible(EventOf(p, draft, now, id, sig));
    ReadyKey(p, draft, now, id, sig);
    BuiltSchema(draft, urls);
    BuiltLineage(p, draft, urls, id);
  }

  lemma {:induction false} TakenIsReduced(db: Db, env: Envelope)
    requires IsSound(db) && IsIngestible(env.event) && IsSeen(env.event) && !IsStored(db.versions, env.event.id.text)
    ensures Reduce(db, env).outcome.Reduced? <==> IsTaken(db, env.event)
  {
    if IsTaken(db, env.event) {
      RaisesExactly(db, env);
      TakenIsCommitted(db, env);
    } else {
      UntakenChangesNothing(db, env);
    }
  }

  /** The tables can hold a built event as long as its time fits a column. */
  lemma {:induction false} ReadyIsStorable(p: Platform, draft: Draft, now: int, id: string, sig: string)
    requires IsReady(p, draft, now, id, sig)
    ensures IsStorable(EventOf(p, draft, now, id, sig)) <==> FitsColumn(now)
  {
  }

  /** The chain as a whole: a built and signed event passes the validator and the ingest filter
      and is read as schema 1.1. On any database the reducer has written, crashes included, it
      accepts the event exactly when it names a predecessor just if its design is already known;
      then, on first delivery, it is stored, as long as the clock it was built by fits a 64-bit
      column, past which the append raises. */
  lemma {:induction false} AcceptanceChain(
    p: Platform, inputs: Inputs, pubkey: string, now: int, id: string, sig: string, db: Db, relay: string, at: int)
    requires Lawful(p) && now > 0 && Build(p, inputs, pubkey, now).Built?
    requires IsSigning(DraftOf(p, inputs, pubkey), id, sig) && IsSound(db)
    ensures var e := Signed(Build(p, inputs, pubkey, now).event, id, sig);
            Errors(Some(e)) == [] && IsIngestible(e) && SchemaVersion(e.tags) == Some(SCHEMA_1_1)
    ensures var e := Signed(Build(p, inputs, pubkey, now).event, id, sig);
            Reduce(db, Envelope(relay, at, e)).outcome.Raised?
            <==> FitsDesign(db, DraftOf(p, inputs, pubkey)) && !FitsColumn(now)
    ensures var e := Signed(Build(p, inputs, pubkey, now).event, id, sig);
            !IsStored(db.versions, id) ==>
              (Reduce(db, Envelope(relay, at, e)).outcome.Reduced?
               <==> FitsDesign(db, DraftOf(p, inputs, pubkey)) && FitsColumn(now))
  {
    var draft := DraftOf(p, inputs, pubkey);
    BuiltIsReady(p, inputs, pubkey, now, id, sig);
    var e := EventOf(p, draft, now, id, sig);
    ReadyIsValid(p, draft, now, id, sig);
    ReadyIsAdmitted(p, draft, now, id, sig, db);
    ReadyIsStorable(p, draft, now, id, sig);
    RaisesExactly(db, Envelope(relay, at, e));
    if !IsStored(db.versions, id) { TakenIsReduced(db, Envelope(relay, at, e)); }
  }
}
