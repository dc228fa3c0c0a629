/** Nostr events as they arrive: JSON values whose shape nobody has checked yet, and the
    readers that pull tags, the schema version and the design id out of them. */
module Events {
  import opened Text

  /** A JSON value. `Absent` is a key missing from its object; of a fractional number the readers
      only tell whether it equals zero, and into an `Other`, an object, none of them looks. */
  datatype Json =
    | Absent
    | Null
    | Bool(flag: bool)
    | Int(n: int)
    | Float(raw: string, isZero: bool)
    | Str(text: string)
    | List(items: seq<Json>)
    | Other(raw: string)
  {
    /** isinstance(value, int), which also accepts booleans. */
    predicate IsInt() { Int? || Bool? }

    /** value == 0 */
    predicate EqualsZero() { (IsInt() && AsInt() == 0) || (Float? && isZero) }

    function AsInt(): int
      requires IsInt()
    {
      if Int? then n else if flag then 1 else 0
    }
  }

  /** Where strings of an event hold lone UTF-16 surrogates, which a JSON escape can produce and
      a Python str can hold, but no database parameter. The strings show U+FFFD in their place. */
  datatype Surrogates = Nowhere | InPubkey | Elsewhere

  datatype Event = Event(
    id: Json, pubkey: Json, createdAt: Json, kind: Json, tags: Json, content: Json, sig: Json, surrogates: Surrogates)

  datatype Envelope = Envelope(relay: string, receivedAt: int, event: Event)

  // ---------- tags ----------

  /** A list starting with two strings: the only shape the tag readers accept. */
  predicate IsPair(tag: Json) {
    tag.List? && |tag.items| >= 2 && tag.items[0].Str? && tag.items[1].Str?
  }

  predicate HasKey(tag: Json, key: string) {
    IsPair(tag) && tag.items[0].text == key
  }

  function ValuesIn(tags: seq<Json>, key: string): (r: seq<string>)
    ensures |r| <= |tags|
  {
    if |tags| == 0 then []
    else
      var last := tags[|tags| - 1];
      ValuesIn(tags[..|tags| - 1], key) + (if HasKey(last, key) then [last.items[1].text] else [])
  }

  function TagValues(tags: Json, key: string): seq<string> {
    if tags.List? then ValuesIn(tags.items, key) else []
  }

  function FirstValue(tags: Json, key: string): Option<string> {
    var values := TagValues(tags, key);
    if |values| == 0 then None else Some(values[0])
  }

  method ReadTagValues(tags: Json, key: string) returns (result: seq<string>)
    ensures result == TagValues(tags, key)
  {
    result := [];
    if !tags.List? { return; }
    for i := 0 to |tags.items|
      invariant result == ValuesIn(tags.items[..i], key)
    {
      var tag := tags.items[i];
      assert tags.items[..i + 1][..i] == tags.items[..i];
      if tag.List? && |tag.items| >= 2 && tag.items[0].Str? && tag.items[1].Str? && tag.items[0].text == key {
        result := result + [tag.items[1].text];
      }
    }
    assert tags.items[..|tags.items|] == tags.items;
  }

  lemma {:induction false} ValuesInConcat(a: seq<Json>, b: seq<Json>, key: string)
    ensures ValuesIn(a + b, key) == ValuesIn(a, key) + ValuesIn(b, key)
  {
    if |b| == 0 {
      assert a + b == a;
    } else {
      assert (a + b)[..|a + b| - 1] == a + b[..|b| - 1];
      ValuesInConcat(a, b[..|b| - 1], key);
    }
  }

  /** Where the first pair carrying the key stands; the length of the list if there is none. */
  function FirstIndex(tags: seq<Json>, key: string): (i: nat)
    ensures i <= |tags|
    ensures forall j :: 0 <= j < i ==> !HasKey(tags[j], key)
    ensures i < |tags| ==> HasKey(tags[i], key)
  {
    if |tags| == 0 || HasKey(tags[0], key) then 0 else 1 + FirstIndex(tags[1..], key)
  }

  lemma {:induction false} ValuesFromFirst(tags: seq<Json>, key: string)
    requires |tags| > 0
    ensures ValuesIn(tags, key)
         == (if HasKey(tags[0], key) then [tags[0].items[1].text] else []) + ValuesIn(tags[1..], key)
  {
    assert tags == [tags[0]] + tags[1..];
    ValuesInConcat([tags[0]], tags[1..], key);
    assert [tags[0]][..0] == [];
  }

  /** The value read for a key is the one in its first pair. */
  lemma {:induction false} FirstValueMeaning(tags: seq<Json>, key: string)
    ensures var i := FirstIndex(tags, key);
            FirstValue(List(tags), key) == if i < |tags| then Some(tags[i].items[1].text) else None
  {
    if |tags| > 0 {
      ValuesFromFirst(tags, key);
      FirstValueMeaning(tags[1..], key);
    }
  }

  const PREVIOUS_KEY := "previous_version_event_id"

  // ---------- schema version ----------

  const SCHEMA_KEY := "openprints_schema"
  const LEGACY_SCHEMA := "1.0"
  const SCHEMA_1_1 := "1.1"

  predicate HasSchemaKey(tag: Json) {
    tag.List? && |tag.items| > 0 && tag.items[0].Str? && tag.items[0].text == SCHEMA_KEY
  }

  predicate IsMalformedSchemaTag(tag: Json) {
    HasSchemaKey(tag) && (|tag.items| < 2 || !tag.items[1].Str?)
  }

  function SchemaValuesIn(tags: seq<Json>): seq<string> {
    if |tags| == 0 then []
    else
      var last := tags[|tags| - 1];
      SchemaValuesIn(tags[..|tags| - 1])
      + (if HasSchemaKey(last) && !IsMalformedSchemaTag(last) then [PyStrip(last.items[1].text)] else [])
  }

  /** The declared schema version; None is the source's "unknown". A tag whose own text is
      "unknown" is indistinguishable from a malformed one. */
  function SchemaVersion(tags: Json): Option<string> {
    if !tags.List? then Some(LEGACY_SCHEMA)
    else if exists i :: 0 <= i < |tags.items| && IsMalformedSchemaTag(tags.items[i]) then None
    else
      var values := SchemaValuesIn(tags.items);
      if |values| == 0 then Some(LEGACY_SCHEMA)
      else if |values| != 1 || values[0] == "" || values[0] == "unknown" then None
      else Some(values[0])
  }

  method ResolveSchemaVersion(tags: Json) returns (version: Option<string>)
    ensures version == SchemaVersion(tags)
  {
    if !tags.List? { return Some(LEGACY_SCHEMA); }
    var values := [];
    var sawMalformed := false;
    for i := 0 to |tags.items|
      invariant values == SchemaValuesIn(tags.items[..i])
      invariant sawMalformed <==> exists j :: 0 <= j < i && IsMalformedSchemaTag(tags.items[j])
    {
      var tag := tags.items[i];
      assert tags.items[..i + 1][..i] == tags.items[..i];
      if !tag.List? || |tag.items| == 0 || !tag.items[0].Str? || tag.items[0].text != SCHEMA_KEY {
        continue;
      }
      if |tag.items| < 2 || !tag.items[1].Str? {
        sawMalformed := true;
        continue;
      }
      values := values + [PyStrip(tag.items[1].text)];
    }
    assert tags.items[..|tags.items|] == tags.items;
    if sawMalformed { return None; }
    if |values| == 0 { return Some(LEGACY_SCHEMA); }
    if |values| != 1 || values[0] == "" || values[0] == "unknown" { return None; }
    return Some(values[0]);
  }

  lemma {:induction false} SchemaValuesConcat(a: seq<Json>, b: seq<Json>)
    ensures SchemaValuesIn(a + b) == SchemaValuesIn(a) + SchemaValuesIn(b)
  {
    if |b| == 0 {
      assert a + b == a;
    } else {
      assert (a + b)[..|a + b| - 1] == a + b[..|b| - 1];
      SchemaValuesConcat(a, b[..|b| - 1]);
    }
  }

  predicate IsOnlySchemaTag(tags: seq<Json>, i: int) {
    0 <= i < |tags| && HasSchemaKey(tags[i]) && forall j :: 0 <= j < |tags| && j != i ==> !HasSchemaKey(tags[j])
  }

  predicate Declares(tag: Json, version: string) {
    && HasSchemaKey(tag) && !IsMalformedSchemaTag(tag)
    && PyStrip(tag.items[1].text) == version && version != "" && version != "unknown"
  }

  lemma {:induction false} NoSchemaValues(tags: seq<Json>)
    requires forall i :: 0 <= i < |tags| ==> !IsMalformedSchemaTag(tags[i])
    ensures SchemaValuesIn(tags) == [] <==> forall i :: 0 <= i < |tags| ==> !HasSchemaKey(tags[i])
  {
    if |tags| > 0 {
      var front := tags[..|tags| - 1];
      NoSchemaValues(front);
      assert forall i :: 0 <= i < |front| ==> front[i] == tags[i];
    }
  }

  lemma {:induction false} OneSchemaValue(tags: seq<Json>, i: int)
    requires IsOnlySchemaTag(tags, i) && !IsMalformedSchemaTag(tags[i])
    ensures SchemaValuesIn(tags) == [PyStrip(tags[i].items[1].text)]
  {
    var front := tags[..|tags| - 1];
    assert forall j :: 0 <= j < |front| ==> front[j] == tags[j];
    if i == |front| { NoSchemaValues(front); } else { OneSchemaValue(front, i); }
  }

  lemma {:induction false} SingleSchemaTag(tags: seq<Json>) returns (i: int)
    requires forall j :: 0 <= j < |tags| ==> !IsMalformedSchemaTag(tags[j])
    requires |SchemaValuesIn(tags)| == 1
    ensures IsOnlySchemaTag(tags, i)
  {
    var front, last := tags[..|tags| - 1], tags[|tags| - 1];
    assert forall j :: 0 <= j < |front| ==> front[j] == tags[j];
    if HasSchemaKey(last) {
      NoSchemaValues(front);
      i := |front|;
    } else {
      i := SingleSchemaTag(front);
    }
  }

  predicate HasNoSchemaKey(tags: seq<Json>) { forall i :: 0 <= i < |tags| ==> !HasSchemaKey(tags[i]) }

  predicate DeclaresOnce(tags: seq<Json>, version: string) {
    exists i :: 0 <= i < |tags| && IsOnlySchemaTag(tags, i) && Declares(tags[i], version)
  }

  lemma {:induction false} DeclaredIsRead(tags: seq<Json>, version: string)
    requires DeclaresOnce(tags, version)
    ensures SchemaVersion(List(tags)) == Some(version)
  {
    var i :| 0 <= i < |tags| && IsOnlySchemaTag(tags, i) && Declares(tags[i], version);
    OneSchemaValue(tags, i);
  }

  lemma {:induction false} ReadIsDeclared(tags: seq<Json>, version: string)
    requires SchemaVersion(List(tags)) == Some(version) && !HasNoSchemaKey(tags)
    ensures DeclaresOnce(tags, version)
  {
    NoSchemaValues(tags);
    var i := SingleSchemaTag(tags);
    OneSchemaValue(tags, i);
    assert Declares(tags[i], version);
  }

  /** A version is read exactly when it is the legacy one and no tag carries the schema key, or
      when one tag carries the key, it is well formed, and the version is its stripped text. */
  lemma {:induction false} SchemaVersionMeaning(tags: seq<Json>, version: string)
    ensures SchemaVersion(List(tags)) == Some(version) <==>
      if HasNoSchemaKey(tags) then version == LEGACY_SCHEMA else DeclaresOnce(tags, version)
  {
    if HasNoSchemaKey(tags) {
      NoSchemaValues(tags);
    } else if SchemaVersion(List(tags)) == Some(version) {
      ReadIsDeclared(tags, version);
    } else if DeclaresOnce(tags, version) {
      DeclaredIsRead(tags, version);
    }
  }

  // ---------- design id ----------

  const DESIGN_PREFIX := "openprints:"

  /** str.replace(pattern, ""): leftmost, non-overlapping. */
  function RemoveAll(s: string, pattern: string): string
    requires |pattern| > 0
  {
    if |s| < |pattern| then s
    else if s[..|pattern|] == pattern then RemoveAll(s[|pattern|..], pattern)
    else [s[0]] + RemoveAll(s[1..], pattern)
  }

  predicate IsBrace(c: char) { c == '{' || c == '}' }

  /** The zeros of the decimal digits beyond ASCII (category Nd of Unicode 14, which Python 3.11
      knows), each followed by its one to nine. */
  const DIGIT_ZEROS := [
    0x660, 0x6F0, 0x7C0, 0x966, 0x9E6, 0xA66, 0xAE6, 0xB66, 0xBE6, 0xC66, 0xCE6, 0xD66, 0xDE6, 0xE50, 0xED0,
    0xF20, 0x1040, 0x1090, 0x17E0, 0x1810, 0x1946, 0x19D0, 0x1A80, 0x1A90, 0x1B50, 0x1BB0, 0x1C40, 0x1C50,
    0xA620, 0xA8D0, 0xA900, 0xA9D0, 0xA9F0, 0xAA50, 0xABF0, 0xFF10, 0x104A0, 0x10D30, 0x11066, 0x110F0,
    0x11136, 0x111D0, 0x112F0, 0x11450, 0x114D0, 0x11650, 0x116C0, 0x11730, 0x118E0, 0x11950, 0x11C50,
    0x11D50, 0x11DA0, 0x16A60, 0x16AC0, 0x16B50, 0x1D7CE, 0x1D7D8, 0x1D7E2, 0x1D7EC, 0x1D7F6, 0x1E140,
    0x1E2F0, 0x1E950, 0x1FBF0
  ]

  function DigitAmong(c: char, zeros: seq<int>): Option<nat> {
    if |zeros| == 0 then None
    else if zeros[0] <= c as int < zeros[0] + 10 then Some(c as int - zeros[0])
    else DigitAmong(c, zeros[1..])
  }

  /** A hex digit as int(text, 16) reads it: decimal digits of any script count. */
  function HexValue(c: char): Option<nat> {
    if '0' <= c <= '9' then Some(c as int - '0' as int)
    else if 'a' <= c <= 'f' then Some(c as int - 'a' as int + 10)
    else if 'A' <= c <= 'F' then Some(c as int - 'A' as int + 10)
    else if c < '\U{80}' then None
    else DigitAmong(c, DIGIT_ZEROS)
  }

  /** Hex digits with single underscores between them, as int(text, 16) reads them. */
  function HexDigits(s: string, underscoreBarred: bool): Option<seq<nat>> {
    if |s| == 0 then if underscoreBarred then None else Some([])
    else if s[0] == '_' then if underscoreBarred then None else HexDigits(s[1..], true)
    else
      match HexValue(s[0])
      case None => None
      case Some(d) =>
        match HexDigits(s[1..], false)
        case None => None
        case Some(rest) => Some([d] + rest)
  }

  /** int(text, 16) as a digit list. A minus sign is refused: its only value UUID() would
      take is zero, which is not a version 4 UUID. */
  function HexNumber(s: string): Option<seq<nat>> {
    var t := PyStrip(s);
    var u := if |t| > 0 && t[0] == '+' then t[1..] else t;
    if |u| >= 2 && u[0] == '0' && (u[1] == 'x' || u[1] == 'X')
    then HexDigits(if |u| > 2 && u[2] == '_' then u[3..] else u[2..], true)
    else HexDigits(u, true)
  }

  function Zeros(n: nat): (r: seq<nat>)
    ensures |r| == n
  {
    seq(n, i => 0)
  }

  /** The 32 hex digits of UUID(text), or None where UUID() raises. */
  function UuidDigits(text: string): Option<seq<nat>> {
    var bare := RemoveAll(Trim(RemoveAll(RemoveAll(text, "urn:"), "uuid:"), IsBrace), "-");
    if |bare| != 32 then None
    else
      match HexNumber(bare)
      case None => None
      case Some(digits) => if |digits| > 32 then None else Some(Zeros(32 - |digits|) + digits)
  }

  predicate IsUuidV4(text: string) {
    var digits := UuidDigits(text);
    digits.Some? && |digits.value| == 32 && digits.value[12] == 4 && 8 <= digits.value[16] <= 11
  }

  predicate IsDesignId(value: string) {
    value != "" && IsUuidV4(if StartsWith(value, DESIGN_PREFIX) then value[|DESIGN_PREFIX|..] else value)
  }

  // ---------- ingest filter ----------

  predicate IsIngestible(e: Event) {
    && e.id.Str? && e.pubkey.Str?
    && (var d := FirstValue(e.tags, "d"); d.Some? && IsDesignId(d.value))
    && e.kind.IsInt() && e.createdAt.IsInt()
  }

  // ---------- what the database can take ----------

  /** SQLite integers have 64 bits; binding a greater one raises. */
  predicate FitsColumn(n: int) { -0x8000_0000_0000_0000 <= n < 0x8000_0000_0000_0000 }

  /** Whether the event's row can be bound to the append: its numbers fit and its strings encode. */
  predicate IsStorable(e: Event) {
    && e.surrogates.Nowhere?
    && e.kind.IsInt() && FitsColumn(e.kind.AsInt())
    && e.createdAt.IsInt() && FitsColumn(e.createdAt.AsInt())
  }

  /** The client's pubkey parser. */
  function ParsePubkey(value: string): Option<string> {
    var normalized := Lower(JsTrim(value));
    if IsLowerHexOf(normalized, 64) then Some(normalized) else None
  }
}
