/** A platform that meets every law and composes one pair of characters, as NFC does: it shows
    that the laws are consistent and that the edit round trip can fail, in either of its two ways. */
module ComposingPlatform {
  import opened Text
  import opened Events
  import opened Tables
  import opened Reducer
  import opened ReducerRuns
  import opened DesignDetail
  import opened FormText
  import opened FormBuilder
  import opened Acceptance
  import opened EditRoundTrip

  const CARON := '\U{30C}'
  const J_CARON := '\U{1F0}'

  /** Composes each small j followed by a combining caron; no composed capital exists. */
  function Compose(s: string): string {
    if |s| < 2 then s
    else if s[0] == 'j' && s[1] == CARON then [J_CARON] + Compose(s[2..])
    else [s[0]] + Compose(s[1..])
  }

  function HttpsText(s: string): Option<string> { if IsUrlText(s) then Some(s) else None }

  const COMPOSING := Platform(Compose, Lower, HttpsText)

  /** Nothing left to compose. */
  predicate IsComposed(s: string) { forall i :: 0 <= i < |s| - 1 && s[i] == 'j' ==> s[i + 1] != CARON }

  lemma {:induction false} ComposeComposes(s: string)
    ensures IsComposed(Compose(s))
    ensures |s| > 0 ==> |Compose(s)| > 0
    ensures |s| > 0 ==> Compose(s)[0] == if |s| > 1 && s[0] == 'j' && s[1] == CARON then J_CARON else s[0]
  {
    if |s| >= 2 { ComposeComposes(if s[0] == 'j' && s[1] == CARON then s[2..] else s[1..]); }
  }

  lemma {:induction false} ComposedStays(s: string)
    requires IsComposed(s)
    ensures Compose(s) == s
  {
    if |s| >= 2 {
      ComposedStays(s[1..]);
      assert s == [s[0]] + s[1..];
    }
  }

  lemma {:induction false} NfcIsComposed(s: string)
    ensures IsNfc(COMPOSING, s) <==> IsComposed(s)
  {
    ComposeComposes(s);
    if IsComposed(s) { ComposedStays(s); }
  }

  lemma {:induction false} CollapseStaysComposed(s: string)
    requires IsComposed(s)
    ensures IsComposed(Collapse(s, IsJsSpace))
    decreases |s|
  {
    if |s| > 0 {
      TrimStartIsSuffix(s[1..], IsJsSpace);
      var rest := if IsJsSpace(s[0]) then TrimStart(s[1..], IsJsSpace) else s[1..];
      var i :| 0 <= i <= |s| && rest == s[i..];
      assert IsComposed(rest);
      CollapseStaysComposed(rest);
      CollapseCollapses(rest);
      assert Collapse(s, IsJsSpace)[1..] == Collapse(rest, IsJsSpace);
    }
  }

  lemma {:induction false} CrLfStaysComposed(s: string)
    requires IsComposed(s)
    ensures IsComposed(ReplaceCrLf(s))
    ensures |s| > 0 ==> |ReplaceCrLf(s)| > 0 && (ReplaceCrLf(s)[0] == s[0] || ReplaceCrLf(s)[0] == '\n')
  {
    if |s| >= 2 { CrLfStaysComposed(if s[0] == '\r' && s[1] == '\n' then s[2..] else s[1..]); }
  }

  lemma {:induction false} ComposeStaysLower(s: string)
    requires Lower(s) == s
    ensures Lower(Compose(s)) == Compose(s)
  {
    forall i | 0 <= i < |Compose(s)| ensures LowerChar(Compose(s)[i]) == Compose(s)[i] {
      ComposedChars(s, i);
      if Compose(s)[i] in s {
        var j :| 0 <= j < |s| && s[j] == Compose(s)[i];
        assert Lower(s)[j] == s[j];
      }
    }
  }

  lemma {:induction false} ComposedChars(s: string, i: nat)
    requires i < |Compose(s)|
    ensures Compose(s)[i] == J_CARON || Compose(s)[i] in s
  {
    if |s| >= 2 && i > 0 {
      var n := if s[0] == 'j' && s[1] == CARON then 2 else 1;
      ComposedChars(s[n..], i - 1);
      assert s == s[..n] + s[n..];
    }
  }

  lemma {:induction false} AsciiIsComposed(s: string)
    requires IsAscii(s)
    ensures IsComposed(s)
  {
  }

  lemma {:induction false} JoinStaysComposed(a: string, b: string)
    requires IsComposed(a) && IsComposed(b)
    ensures IsComposed(a + "\n" + b)
  {
  }

  lemma {:induction false} ComposingMeetsNfcLaws()
    ensures NfcLaws(COMPOSING)
  {
    forall s ensures IsNfc(COMPOSING, s) <==> IsComposed(s) { NfcIsComposed(s); }
    forall s | IsAscii(s) ensures IsNfc(COMPOSING, s) { AsciiIsComposed(s); }
    forall s ensures IsNfc(COMPOSING, COMPOSING.nfc(s)) { ComposeComposes(s); }
    forall s | IsNfc(COMPOSING, s) ensures IsNfc(COMPOSING, Collapse(s, IsJsSpace)) { CollapseStaysComposed(s); }
    forall s | IsNfc(COMPOSING, s) ensures IsNfc(COMPOSING, ReplaceCrLf(s)) { CrLfStaysComposed(s); }
    forall a, b | IsNfc(COMPOSING, a) && IsNfc(COMPOSING, b) ensures IsNfc(COMPOSING, a + "\n" + b) {
      JoinStaysComposed(a, b);
    }
  }

  lemma {:induction false} LowerCollapse(s: string)
    requires Lower(s) == s
    ensures Lower(Collapse(s, IsJsSpace)) == Collapse(s, IsJsSpace)
    decreases |s|
  {
    if |s| > 0 {
      TrimStartIsSuffix(s[1..], IsJsSpace);
      var rest := if IsJsSpace(s[0]) then TrimStart(s[1..], IsJsSpace) else s[1..];
      assert Lower(rest) == rest by {
        var i :| 0 <= i <= |s| && rest == s[i..];
        LowerSlice(s, i, |s|);
      }
      LowerCollapse(rest);
      assert LowerChar(s[0]) == s[0];
      var c := Collapse(s, IsJsSpace);
      assert forall k :: 0 <= k < |c| ==> LowerChar(c[k]) == c[k];
    }
  }

  lemma {:induction false} LowerSlice(s: string, i: nat, j: nat)
    requires Lower(s) == s && i <= j <= |s|
    ensures Lower(s[i..j]) == s[i..j]
  {
    forall k | 0 <= k < j - i ensures LowerChar(s[i..j][k]) == s[i..j][k] { assert Lower(s)[i + k] == s[i + k]; }
  }

  lemma {:induction false} LowerKeepsSpaces(s: string)
    ensures IsSingleLine(s) ==> IsSingleLine(Lower(s))
    ensures forall i :: 0 <= i < |s| ==> (IsJsSpace(s[i]) <==> IsJsSpace(Lower(s)[i]))
  {
  }

  lemma {:induction false} ComposingMeetsLowerLaws()
    ensures LowerLaws(COMPOSING)
  {
    forall s ensures IsLower(COMPOSING, COMPOSING.lower(s)) { LowerIdempotent(s); }
    forall s, i, j | IsLower(COMPOSING, s) && 0 <= i <= j <= |s| ensures IsLower(COMPOSING, s[i..j]) {
      LowerSlice(s, i, j);
    }
    forall s | IsLower(COMPOSING, s) ensures IsLower(COMPOSING, Collapse(s, IsJsSpace)) { LowerCollapse(s); }
    forall s | IsLower(COMPOSING, s) ensures IsLower(COMPOSING, COMPOSING.nfc(s)) { ComposeStaysLower(s); }
    forall s | IsSingleLine(s) ensures IsSingleLine(COMPOSING.lower(s)) { LowerKeepsSpaces(s); }
  }

  lemma {:induction false} ComposingIsLawful()
    ensures Lawful(COMPOSING)
  {
    ComposingMeetsNfcLaws();
    ComposingMeetsLowerLaws();
    assert UrlLaws(COMPOSING);
  }

  // ---------- two failing inputs ----------

  function UuidChar(i: nat): char { if IsDashAt(i) then '-' else if i == 14 then '4' else if i == 19 then '8' else '0' }

  function DesignId(): string { DESIGN_PREFIX + seq(36, i requires 0 <= i < 36 => UuidChar(i)) }

  const FILE_URL := "https://a.example/f"

  /** A form with little in it but a MIME type. */
  function Filled(mime: string): Inputs {
    Inputs(DesignId(), "", "a", "a", FILE_URL, "", "", "", "", "", "", "", "", mime)
  }

  const FAILING_MIME := ['J', CARON]

  lemma {:induction false} FailingMime()
    ensures COMPOSING.lower(SingleLine(COMPOSING, FAILING_MIME)) == ['j', CARON] && !IsNfc(COMPOSING, ['j', CARON])
  {
    assert FAILING_MIME[0] == 'J' && FAILING_MIME[1] == CARON;
    assert !IsJsSpace('J') && !IsJsSpace(CARON);
    NfcIsComposed(FAILING_MIME);
    SingleLineKeeps(COMPOSING, FAILING_MIME);
    NfcIsComposed(['j', CARON]);
    assert ['j', CARON][0] == 'j' && ['j', CARON][1] == CARON;
  }

  lemma {:induction false} EmptyFields()
    ensures SingleLine(COMPOSING, "") == "" && Lower("") == "" && JsTrim(TextArea(COMPOSING, "")) == ""
    ensures LineList(COMPOSING, "") == [] && SingleLines(COMPOSING, []) == []
  {
    ComposingIsLawful();
    PrintableIsNormal(COMPOSING, "");
    LineListRoundTrip(COMPOSING, []);
    TrimLaws("", IsJsSpace);
  }

  lemma {:induction false} FilledDesignId()
    ensures COMPOSING.lower(SingleLine(COMPOSING, DesignId())) == DesignId() && IsCanonicalDesignId(DesignId())
  {
    ComposingIsLawful();
    var uuid := seq(36, i requires 0 <= i < 36 => UuidChar(i));
    assert DesignId()[|DESIGN_PREFIX|..] == uuid;
    assert IsCanonicalUuidV4(uuid);
    DesignIdAgain(COMPOSING, DesignId());
  }

  lemma {:induction false} FilledUrlIsText()
    ensures IsUrlText(FILE_URL) && forall i :: 0 <= i < |FILE_URL| ==> '!' <= FILE_URL[i] <= '~'
  {
    assert FILE_URL[17] == '/' && FILE_URL[8] == 'a';
  }

  lemma {:induction false} FilledUrl()
    ensures SingleLine(COMPOSING, FILE_URL) == FILE_URL && HttpsText(FILE_URL) == Some(FILE_URL)
  {
    ComposingIsLawful();
    FilledUrlIsText();
    PrintableIsNormal(COMPOSING, FILE_URL);
  }

  lemma {:induction false} FilledName()
    ensures SingleLine(COMPOSING, "a") == "a" && COMPOSING.lower(SingleLine(COMPOSING, "a")) == "a" && IsFormat("a")
  {
    ComposingIsLawful();
    PrintableIsNormal(COMPOSING, "a");
    FormatAgain(COMPOSING, "a");
  }

  /** That form once normalised. */
  predicate IsFilledDraft(draft: Draft, mime: string) {
    && draft.d == DesignId() && draft.previous == "" && draft.name == "a" && draft.format == "a"
    && draft.url == Some(FILE_URL) && draft.sha256 == "" && draft.content == "" && draft.previews == []
    && draft.categories == [] && draft.materials == [] && draft.printers == []
    && draft.license == "" && draft.lnurl == "" && draft.mime == mime
  }

  lemma {:induction false} FilledDraft(pubkey: string, mime: string)
    ensures IsFilledDraft(DraftOf(COMPOSING, Filled(mime), pubkey), COMPOSING.lower(SingleLine(COMPOSING, mime)))
  {
    EmptyFields();
    FilledDesignId();
    FilledUrl();
    FilledName();
  }

  lemma {:induction false} FilledIsPublishable(draft: Draft, mime: string)
    requires IsFilledDraft(draft, mime) && draft.pubkey.Some? && !HasControlOrBidi(mime)
    ensures IsPublishable(COMPOSING, draft)
  {
    FilledDesignId();
    assert !IsControlOrBidi("a"[0]);
    assert IsFormat("a") && Utf16Length("a") <= 120;
  }

  lemma {:induction false} MimeIsPlain()
    ensures !HasControlOrBidi(['j', CARON])
  {
    assert !IsControlOrBidi(['j', CARON][0]) && !IsControlOrBidi(['j', CARON][1]);
  }

  lemma {:induction false} FilledIsBuilt(pubkey: string, now: int, id: string, mime: string)
    requires ParsePubkey(pubkey).Some? && IsLowerHexOf(Lower(id), 64)
    requires !HasControlOrBidi(COMPOSING.lower(SingleLine(COMPOSING, mime)))
    ensures Build(COMPOSING, Filled(mime), pubkey, now).Built?
    ensures Lower(id) != DraftOf(COMPOSING, Filled(mime), pubkey).previous
    ensures DraftOf(COMPOSING, Filled(mime), pubkey).mime == COMPOSING.lower(SingleLine(COMPOSING, mime))
    ensures FitsDesign(EMPTY_DB, DraftOf(COMPOSING, Filled(mime), pubkey))
  {
    FilledDraft(pubkey, mime);
    FilledIsPublishable(DraftOf(COMPOSING, Filled(mime), pubkey), COMPOSING.lower(SingleLine(COMPOSING, mime)));
    BuiltIffPublishable(COMPOSING, Filled(mime), pubkey, now);
  }

  function Delivered(pubkey: string, now: int, id: string, sig: string, mime: string): Envelope
    requires Build(COMPOSING, Filled(mime), pubkey, now).Built?
  {
    Envelope("wss://relay", now, SignedBuild(COMPOSING, Filled(mime), pubkey, now, id, sig))
  }

  function FilledKey(pubkey: string): Key { Key(ParsePubkey(pubkey).GetOr(""), DesignId()) }

  /** A fresh index to which the form's event is delivered. */
  function Indexed(pubkey: string, now: int, id: string, sig: string, mime: string): Db
    requires Build(COMPOSING, Filled(mime), pubkey, now).Built?
  {
    Run(EMPTY_DB, [Delivered(pubkey, now, id, sig, mime)])
  }

  /** The edit page of the design, whose identity row is as given, published again unchanged. */
  predicate Unchanged(
    db: Db, pubkey: string, now: int, later: int, id: string, mime: string)
    requires Build(COMPOSING, Filled(mime), pubkey, now).Built?
  {
    ReopensUnchanged(COMPOSING, DesignAnswerOf(db, FilledKey(pubkey)), DesignId(),
                     Build(COMPOSING, Filled(mime), pubkey, now).event, pubkey, later, id)
  }

  lemma {:induction false} FilledReopens(
    pubkey: string, now: int, later: int, id: string, sig: string, mime: string, after: Db)
    requires ParsePubkey(pubkey).Some? && now > 0 && FitsColumn(now)
    requires IsLowerHexOf(Lower(id), 64) && IsLowerHexOf(Lower(sig), 128)
    requires !HasControlOrBidi(COMPOSING.lower(SingleLine(COMPOSING, mime)))
    requires Build(COMPOSING, Filled(mime), pubkey, now).Built?
    requires after.designs == Indexed(pubkey, now, id, sig, mime).designs
    ensures var identity := FindIdentity(after.identities, FilledKey(pubkey).pubkey);
            && (!IsNamed(identity) ==> DesignAnswerOf(after, FilledKey(pubkey)) == Malformed)
            && (Unchanged(after, pubkey, now, later, id, mime)
                <==> IsNamed(identity) && IsNfc(COMPOSING, COMPOSING.lower(SingleLine(COMPOSING, mime))))
    ensures FilledKey(pubkey) in after.designs
  {
    ComposingIsLawful();
    FilledIsBuilt(pubkey, now, id, mime);
    FilledDraft(pubkey, mime);
    EmptyAgrees();
    ViewsAreSound(EMPTY_DB);
    var env := Delivered(pubkey, now, id, sig, mime);
    assert [env][..0] == [] && Run(EMPTY_DB, [env]) == Reduce(Run(EMPTY_DB, []), env).db;
    LatestRow(COMPOSING, Filled(mime), pubkey, now, id, sig, EMPTY_DB, env);
    PublishedThenReopened(COMPOSING, Filled(mime), pubkey, now, later, id, sig, EMPTY_DB, env, after);
  }

  /** A MIME type of capital J and combining caron is lower-cased into a pair that NFC composes
      on the second pass: published to a fresh index and reopened, the form rebuilds other tags. */
  lemma {:induction false} RoundTripCanFail(pubkey: string, now: int, later: int, id: string, sig: string)
    requires ParsePubkey(pubkey).Some? && now > 0 && FitsColumn(now)
    requires IsLowerHexOf(Lower(id), 64) && IsLowerHexOf(Lower(sig), 128)
    ensures Build(COMPOSING, Filled(FAILING_MIME), pubkey, now).Built?
    ensures var db := Indexed(pubkey, now, id, sig, FAILING_MIME);
            FilledKey(pubkey) in db.designs && !Unchanged(db, pubkey, now, later, id, FAILING_MIME)
  {
    FailingMime();
    MimeIsPlain();
    FilledIsBuilt(pubkey, now, id, FAILING_MIME);
    FilledReopens(pubkey, now, later, id, sig, FAILING_MIME, Indexed(pubkey, now, id, sig, FAILING_MIME));
  }

  const BYTE_ORDER_MARK := ['\U{FEFF}']

  /** The name "x" would do, but the display name goes first. */
  function Nameless(): Profile {
    Profile(map["display_name" := Some(BYTE_ORDER_MARK), "name" := Some("x")], "{}", false)
  }

  lemma {:induction false} NamelessIsBlank(identity: Identity)
    requires identity.profile == Some(Nameless())
    ensures !IsNamed(Some(identity))
  {
    assert !IsPySpace(BYTE_ORDER_MARK[0]) && IsJsSpace(BYTE_ORDER_MARK[0]);
    TrimLaws(BYTE_ORDER_MARK, IsPySpace);
    TrimLaws(BYTE_ORDER_MARK, IsJsSpace);
  }

  lemma {:induction false} EmptyMime()
    ensures COMPOSING.lower(SingleLine(COMPOSING, "")) == "" && IsNfc(COMPOSING, "") && !HasControlOrBidi("")
  {
    EmptyFields();
  }

  lemma {:induction false} CreatorIsSeen(pubkey: string, now: int, id: string, sig: string, mime: string)
    requires ParsePubkey(pubkey).Some? && Build(COMPOSING, Filled(mime), pubkey, now).Built?
    ensures FilledKey(pubkey).pubkey in Indexed(pubkey, now, id, sig, mime).identities
  {
    var env := Delivered(pubkey, now, id, sig, mime);
    assert [env][..0] == [] && Run(EMPTY_DB, [env]) == Reduce(Run(EMPTY_DB, []), env).db;
    assert IsSeen(env.event) && env.event.pubkey.text == FilledKey(pubkey).pubkey;
    ReduceSeesIdentity(EMPTY_DB, env);
  }

  /** Without a MIME type, published to a fresh index, the design of a creator whose fetched
      display name is a lone U+FEFF is there and does not reopen at all, though another name is. */
  lemma {:induction false} BlankNameBlocksEditing(
    pubkey: string, now: int, later: int, id: string, sig: string, fetchedAt: int)
    requires ParsePubkey(pubkey).Some? && now > 0 && FitsColumn(now)
    requires IsLowerHexOf(Lower(id), 64) && IsLowerHexOf(Lower(sig), 128)
    ensures Build(COMPOSING, Filled(""), pubkey, now).Built?
    ensures IsNfc(COMPOSING, DraftOf(COMPOSING, Filled(""), pubkey).mime)
    ensures var key := FilledKey(pubkey);
            var db := Indexed(pubkey, now, id, sig, "");
            var after := db.(identities := SetProfile(db.identities, key.pubkey, Nameless(), fetchedAt));
            && key in after.designs && DesignAnswerOf(after, key) == Malformed
            && !Unchanged(after, pubkey, now, later, id, "")
  {
    EmptyMime();
    FilledIsBuilt(pubkey, now, id, "");
    var db, key := Indexed(pubkey, now, id, sig, ""), FilledKey(pubkey);
    CreatorIsSeen(pubkey, now, id, sig, "");
    var after := db.(identities := SetProfile(db.identities, key.pubkey, Nameless(), fetchedAt));
    NamelessIsBlank(after.identities[key.pubkey]);
    FilledReopens(pubkey, now, later, id, sig, "", after);
  }
}
