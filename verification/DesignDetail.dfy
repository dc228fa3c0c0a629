/** A design as the detail endpoint serves it and the client's parser takes it: the two services
    do not agree on which names are blank. */
module DesignDetail {
  import opened Text
  import opened Events
  import opened Tables
  import opened Reducer

  // ---------- the server ----------

  predicate IsHexDigit(c: char) { IsLowerHex(c) || 'A' <= c <= 'F' }

  /** An ASCII blank. */
  predicate IsHexBlank(c: char) { '\U{9}' <= c <= '\U{D}' || c == ' ' }

  /** What bytes.fromhex reads: pairs of hex digits with ASCII blanks between them. */
  predicate IsHexBytes(s: string) {
    if |s| == 0 then true
    else if IsHexBlank(s[0]) then IsHexBytes(s[1..])
    else |s| >= 2 && IsHexDigit(s[0]) && IsHexDigit(s[1]) && IsHexBytes(s[2..])
  }

  /** Whether to_npub gives the payload its id, without which the response does not validate. */
  predicate HasNpub(pubkey: string) { |pubkey| == 64 && IsHexBytes(pubkey) }

  /** Trimmed as Python does, or None where nothing is left. */
  function NonEmpty(value: Option<string>): Option<string> {
    var trimmed := PyStrip(value.GetOr(""));
    if trimmed != "" then Some(trimmed) else None
  }

  function ProfileField(identity: Option<Identity>, field: string): Option<string> {
    if identity.None? || identity.value.profile.None? || field !in identity.value.profile.value.fields then None
    else identity.value.profile.value.fields[field]
  }

  /** The name the payload resolves from the profile. None stands for the shortened npub that is
      shown instead, which is never blank. */
  function ResolvedName(identity: Option<Identity>): Option<string> {
    var displayName := NonEmpty(ProfileField(identity, "display_name"));
    var name := NonEmpty(ProfileField(identity, "name"));
    if displayName.Some? then displayName else if name.Some? then name else NonEmpty(ProfileField(identity, "nip05"))
  }

  // ---------- the client ----------

  datatype Detail = Detail(
    latestEventId: Option<string>, name: string, format: Option<string>, url: Option<string>, sha256: Option<string>,
    content: Option<string>, tags: TagMap)

  /** The creator has a name that JavaScript does not trim to nothing. */
  predicate IsNamed(identity: Option<Identity>) {
    ResolvedName(identity).Some? ==> JsTrim(ResolvedName(identity).value) != ""
  }

  predicate NoBlankKeys(tags: TagMap) { forall i :: 0 <= i < |tags| ==> JsTrim(tags[i].key) != "" }

  /** None where the parser rejects the payload: no hex pubkey, no name, a blank key among the
      tags, or a creator without a name. */
  function ParseDetail(row: Current, identity: Option<Identity>): Option<Detail> {
    var name := JsTrim(row.name.GetOr(""));
    if ParsePubkey(row.pubkey).None? || name == "" || !NoBlankKeys(row.tags) || !IsNamed(identity) then None
    else Some(Detail(Some(row.latestEventId), name, row.format, row.url, row.sha256, row.content, row.tags))
  }

  /** What asking for a design gives: an error status, a payload the parser rejects, or a design. */
  datatype DesignAnswer = Refused | Malformed | Served(detail: Detail)

  function ReadDesign(row: Option<Current>, identity: Option<Identity>): DesignAnswer {
    if row.None? || !HasNpub(row.value.pubkey) then Refused
    else
      match ParseDetail(row.value, identity)
      case None => Malformed
      case Some(detail) => Served(detail)
  }

  function FindIdentity(ids: Identities, pubkey: string): Option<Identity> {
    if pubkey in ids then Some(ids[pubkey]) else None
  }

  /** The answer for the design that the id in the address decodes to. */
  function DesignAnswerOf(db: Db, key: Key): DesignAnswer {
    ReadDesign(Find(db.designs, key), FindIdentity(db.identities, key.pubkey))
  }

  method FetchDesign(store: SqliteStore, key: Key) returns (answer: DesignAnswer)
    ensures answer == DesignAnswerOf(store.Contents(), key)
  {
    var row := store.GetDesign(key.pubkey, key.designId);
    if row.None? || !HasNpub(row.value.pubkey) { return Refused; }
    var detail := ParseDetail(row.value, FindIdentity(store.identities, key.pubkey));
    answer := if detail.None? then Malformed else Served(detail.value);
  }

  /** The profile fields a name is taken from, the first that strips to something. */
  const NAME_FIELDS := ["display_name", "name", "nip05"]

  lemma {:induction false} NameIsFirstGiven(identity: Option<Identity>, i: nat)
    requires i <= |NAME_FIELDS|
    requires forall j :: 0 <= j < i ==> AllSpace(ProfileField(identity, NAME_FIELDS[j]).GetOr(""), IsPySpace)
    requires i < |NAME_FIELDS| ==> !AllSpace(ProfileField(identity, NAME_FIELDS[i]).GetOr(""), IsPySpace)
    ensures ResolvedName(identity)
         == if i < |NAME_FIELDS| then Some(PyStrip(ProfileField(identity, NAME_FIELDS[i]).GetOr(""))) else None
  {
    BlankIfAllSpace(ProfileField(identity, "display_name").GetOr(""), IsPySpace);
    BlankIfAllSpace(ProfileField(identity, "name").GetOr(""), IsPySpace);
    BlankIfAllSpace(ProfileField(identity, "nip05").GetOr(""), IsPySpace);
    assert NAME_FIELDS[0] == "display_name" && NAME_FIELDS[1] == "name" && NAME_FIELDS[2] == "nip05";
  }

  // ---------- which designs reach the client ----------

  predicate IsHexKey(pubkey: string) { |pubkey| == 64 && forall i :: 0 <= i < 64 ==> IsHexDigit(pubkey[i]) }

  lemma {:induction false} HexDigitsAreBytes(s: string)
    requires |s| % 2 == 0 && forall i :: 0 <= i < |s| ==> IsHexDigit(s[i])
    ensures IsHexBytes(s)
  {
    if |s| > 0 { HexDigitsAreBytes(s[2..]); }
  }

  lemma {:induction false} HexKeyParses(pubkey: string)
    requires IsHexKey(pubkey)
    ensures HasNpub(pubkey) && ParsePubkey(pubkey) == Some(Lower(pubkey))
  {
    HexDigitsAreBytes(pubkey);
    assert !IsJsSpace(pubkey[0]) && !IsJsSpace(pubkey[63]);
    TrimLaws(pubkey, IsJsSpace);
    assert forall i :: 0 <= i < 64 ==> IsLowerHex(LowerChar(pubkey[i]));
  }

  lemma {:induction false} ParsedIsHexKey(pubkey: string)
    requires |pubkey| == 64 && ParsePubkey(pubkey).Some?
    ensures IsHexKey(pubkey)
  {
    var i, j := TrimIsSlice(pubkey, IsJsSpace);
    assert JsTrim(pubkey) == pubkey;
    forall k | 0 <= k < 64 ensures IsHexDigit(pubkey[k]) { assert IsLowerHex(Lower(pubkey)[k]); }
  }

  lemma {:induction false} BytesAreHexDigits(s: string)
    requires IsHexBytes(s) && forall i :: 0 <= i < |s| ==> !IsHexBlank(s[i])
    ensures forall i :: 0 <= i < |s| ==> IsHexDigit(s[i])
  {
    if |s| > 0 {
      BytesAreHexDigits(s[2..]);
      assert s == [s[0]] + [s[1]] + s[2..];
    }
  }

  /** Without blanks in it a key has an npub exactly if it is 64 hex digits. */
  lemma {:induction false} NpubIsHexKey(pubkey: string)
    requires forall i :: 0 <= i < |pubkey| ==> !IsHexBlank(pubkey[i])
    ensures HasNpub(pubkey) <==> IsHexKey(pubkey)
  {
    if HasNpub(pubkey) { BytesAreHexDigits(pubkey); }
    if IsHexKey(pubkey) { HexKeyParses(pubkey); }
  }

  lemma {:induction false} BlankIfAllSpace(s: string, space: char -> bool)
    ensures Trim(s, space) == "" <==> AllSpace(s, space)
  {
    if Trim(s, space) == "" { BlankIsAllSpace(s, space); }
    if AllSpace(s, space) { TrimLaws(s, space); }
  }

  lemma {:induction false} BlankIsAllSpace(s: string, space: char -> bool)
    requires Trim(s, space) == ""
    ensures AllSpace(s, space)
  {
    if |s| > 0 {
      if space(s[0]) {
        BlankIsAllSpace(s[1..], space);
        assert s == [s[0]] + s[1..];
      } else {
        TrimEndKeepsBlank(s, space);
      }
    }
  }

  lemma {:induction false} TrimEndKeepsBlank(s: string, space: char -> bool)
    requires TrimEnd(s, space) == ""
    ensures AllSpace(s, space)
  {
    if |s| > 0 {
      TrimEndKeepsBlank(s[..|s| - 1], space);
      assert s == s[..|s| - 1] + [s[|s| - 1]];
    }
  }

  /** A design reaches the client exactly if its key is 64 hex digits in either case, its name is not
      blank, no tag key is, and its creator's resolved name has a character JavaScript keeps. */
  lemma {:induction false} ServedExactly(row: Current, identity: Option<Identity>)
    ensures ReadDesign(Some(row), identity).Served? <==>
      && IsHexKey(row.pubkey) && !AllSpace(row.name.GetOr(""), IsJsSpace) && NoBlankKeys(row.tags)
      && (ResolvedName(identity).Some? ==> !AllSpace(ResolvedName(identity).value, IsJsSpace))
  {
    BlankIfAllSpace(row.name.GetOr(""), IsJsSpace);
    if ResolvedName(identity).Some? { BlankIfAllSpace(ResolvedName(identity).value, IsJsSpace); }
    if IsHexKey(row.pubkey) { HexKeyParses(row.pubkey); }
    if |row.pubkey| == 64 && ParsePubkey(row.pubkey).Some? { ParsedIsHexKey(row.pubkey); }
  }

  /** The names that block a designer's designs begin and end with U+FEFF, the one blank of
      JavaScript that Python keeps, and hold nothing but blanks. */
  lemma {:induction false} BlankNameIsByteOrderMark(identity: Option<Identity>)
    requires !IsNamed(identity)
    ensures ResolvedName(identity).Some?
    ensures var name := ResolvedName(identity).value;
            |name| > 0 && name[0] == name[|name| - 1] == '\U{FEFF}' && AllSpace(name, IsJsSpace)
  {
    var name := ResolvedName(identity).value;
    BlankIfAllSpace(name, IsJsSpace);
    NonEmptyIsTrimmed(ProfileField(identity, "display_name"));
    NonEmptyIsTrimmed(ProfileField(identity, "name"));
    NonEmptyIsTrimmed(ProfileField(identity, "nip05"));
  }

  lemma {:induction false} NonEmptyIsTrimmed(value: Option<string>)
    ensures NonEmpty(value).Some? ==> NonEmpty(value).value != "" && IsTrimmed(NonEmpty(value).value, IsPySpace)
  {
    TrimLaws(value.GetOr(""), IsPySpace);
  }

  // ---------- blank keys ----------

  predicate IsBlankPair(tag: Json) { IsPair(tag) && JsTrim(tag.items[0].text) == "" }

  predicate NoBlankPair(tags: seq<Json>) { forall i :: 0 <= i < |tags| ==> !IsBlankPair(tags[i]) }

  predicate HasBlankKey(tags: Json) { tags.List? && !NoBlankPair(tags.items) }

  lemma {:induction false} PutKeepsKeys(tags: TagMap, key: string, value: string)
    ensures NoBlankKeys(PutTag(tags, key, value)) <==> NoBlankKeys(tags) && JsTrim(key) != ""
  {
    if |tags| == 0 {
      BlankInRest(TagEntry(key, [value]), []);
      assert [TagEntry(key, [value])] + [] == PutTag(tags, key, value);
    } else {
      assert tags == [tags[0]] + tags[1..];
      if tags[0].key != key {
        PutKeepsKeys(tags[1..], key, value);
        BlankInRest(tags[0], tags[1..]);
        BlankInRest(tags[0], PutTag(tags[1..], key, value));
      } else {
        BlankInRest(tags[0], tags[1..]);
        BlankInRest(TagEntry(key, tags[0].values + [value]), tags[1..]);
      }
    }
  }

  lemma {:induction false} BlankInRest(first: TagEntry, rest: TagMap)
    ensures NoBlankKeys([first] + rest) <==> JsTrim(first.key) != "" && NoBlankKeys(rest)
  {
    var all := [first] + rest;
    if NoBlankKeys(all) {
      assert all[0] == first;
      forall i | 0 <= i < |rest| ensures JsTrim(rest[i].key) != "" { assert all[i + 1] == rest[i]; }
    }
  }

  lemma {:induction false} RequiredKeysAreNotBlank(key: string)
    requires key in REQUIRED_KEYS
    ensures JsTrim(key) != ""
  {
    assert |key| > 0 && !IsJsSpace(key[0]) && !IsJsSpace(key[|key| - 1]);
    TrimLaws(key, IsJsSpace);
  }

  lemma {:induction false} NoBlankPairLast(tags: seq<Json>)
    requires |tags| > 0
    ensures NoBlankPair(tags) <==> NoBlankPair(tags[..|tags| - 1]) && !IsBlankPair(tags[|tags| - 1])
  {
  }

  lemma {:induction false} OptionalKeepsKeysIn(tags: seq<Json>)
    ensures NoBlankKeys(OptionalTagsIn(tags)) <==> NoBlankPair(tags)
  {
    if |tags| > 0 {
      var front, last := tags[..|tags| - 1], tags[|tags| - 1];
      OptionalKeepsKeysIn(front);
      NoBlankPairLast(tags);
      if IsPair(last) {
        if last.items[0].text in REQUIRED_KEYS { RequiredKeysAreNotBlank(last.items[0].text); }
        PutKeepsKeys(OptionalTagsIn(front), last.items[0].text, last.items[1].text);
      }
    }
  }

  /** The current row's tags have a blank key exactly if the event it shows has a tag with one. */
  lemma {:induction false} OptionalKeepsKeys(tags: Json)
    ensures NoBlankKeys(OptionalTags(tags)) <==> !HasBlankKey(tags)
  {
    if tags.List? { OptionalKeepsKeysIn(tags.items); }
  }
}
