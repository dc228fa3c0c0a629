/** The composite id of a design in API paths: UTF-8, URL-safe Base64 (section 5 of RFC 4648)
    without padding, and back. */
module ApiId {
  import opened Text

  type Byte = n: int | 0 <= n < 256

  // ---------- UTF-8 ----------

  function Utf8Char(c: char): seq<Byte> {
    var n := c as int;
    if n < 0x80 then [n]
    else if n < 0x800 then [0xC0 + n / 64, 0x80 + n % 64]
    else if n < 0x10000 then [0xE0 + n / 4096, 0x80 + n / 64 % 64, 0x80 + n % 64]
    else [0xF0 + n / 262144, 0x80 + n / 4096 % 64, 0x80 + n / 64 % 64, 0x80 + n % 64]
  }

  function Utf8Encode(s: string): seq<Byte> {
    if |s| == 0 then [] else Utf8Char(s[0]) + Utf8Encode(s[1..])
  }

  predicate IsTrail(b: Byte) { 0x80 <= b < 0xC0 }

  predicate IsScalar(n: int) { 0 <= n < 0xD800 || 0xE000 <= n < 0x110000 }

  /** The first code point and how many bytes it took; None for bytes no encoder produces. */
  function Utf8First(bs: seq<Byte>): (r: Option<(char, nat)>)
    ensures r.Some? ==> 1 <= r.value.1 <= |bs|
  {
    if |bs| == 0 then None
    else
      var lead: int := bs[0];
      if lead < 0x80 then Some((lead as char, 1))
      else if lead < 0xC2 || |bs| < 2 || !IsTrail(bs[1]) then None
      else
        var t1: int := bs[1] - 0x80;
        if lead < 0xE0 then Some((((lead - 0xC0) * 64 + t1) as char, 2))
        else if |bs| < 3 || !IsTrail(bs[2]) then None
        else
          var t2: int := bs[2] - 0x80;
          if lead < 0xF0 then Scalar((lead - 0xE0) * 4096 + t1 * 64 + t2, 0x800, 3)
          else if |bs| < 4 || !IsTrail(bs[3]) then None
          else
            var t3: int := bs[3] - 0x80;
            Scalar((lead - 0xF0) * 262144 + t1 * 4096 + t2 * 64 + t3, 0x10000, 4)
  }

  /** A code point from n bytes, unless fewer would have done or it is no scalar value. */
  function Scalar(n: int, least: int, taken: nat): Option<(char, nat)> {
    if n < least || !IsScalar(n) then None else Some((n as char, taken))
  }

  function Utf8Decode(bs: seq<Byte>): Option<string> {
    if |bs| == 0 then Some("")
    else
      match Utf8First(bs)
      case None => None
      case Some((c, n)) =>
        match Utf8Decode(bs[n..])
        case None => None
        case Some(rest) => Some([c] + rest)
  }

  lemma {:induction false} Utf8FirstOfChar(c: char, rest: seq<Byte>)
    ensures Utf8First(Utf8Char(c) + rest) == Some((c, |Utf8Char(c)|))
  {
    var n := c as int;
    assert n == n / 64 * 64 + n % 64;
    assert n / 64 == n / 64 / 64 * 64 + n / 64 % 64 && n / 64 / 64 == n / 4096;
    assert n / 4096 == n / 4096 / 64 * 64 + n / 4096 % 64 && n / 4096 / 64 == n / 262144;
  }

  lemma {:induction false} Utf8RoundTrip(s: string)
    ensures Utf8Decode(Utf8Encode(s)) == Some(s)
  {
    if |s| > 0 {
      var rest := Utf8Encode(s[1..]);
      Utf8FirstOfChar(s[0], rest);
      Utf8RoundTrip(s[1..]);
      assert (Utf8Char(s[0]) + rest)[|Utf8Char(s[0])|..] == rest;
      assert s == [s[0]] + s[1..];
    }
  }

  // ---------- Base64 ----------

  type Sextet = n: int | 0 <= n < 64

  function Symbol(v: Sextet): char {
    if v < 26 then ('A' as int + v) as char
    else if v < 52 then ('a' as int + v - 26) as char
    else if v < 62 then ('0' as int + v - 52) as char
    else if v == 62 then '-'
    else '_'
  }

  /** The value of a symbol; '+' and '/' are read like their URL-safe counterparts. */
  function SextetOf(c: char): Option<Sextet> {
    if 'A' <= c <= 'Z' then Some(c as int - 'A' as int)
    else if 'a' <= c <= 'z' then Some(c as int - 'a' as int + 26)
    else if '0' <= c <= '9' then Some(c as int - '0' as int + 52)
    else if c == '-' || c == '+' then Some(62)
    else if c == '_' || c == '/' then Some(63)
    else None
  }

  function Group(a: Byte, b: Byte, c: Byte): string {
    [Symbol(a / 4), Symbol(a % 4 * 16 + b / 16), Symbol(b % 16 * 4 + c / 64), Symbol(c % 64)]
  }

  function Base64Encode(bs: seq<Byte>): string {
    if |bs| == 0 then ""
    else if |bs| == 1 then Group(bs[0], 0, 0)[..2] + "=="
    else if |bs| == 2 then Group(bs[0], bs[1], 0)[..3] + "="
    else Group(bs[0], bs[1], bs[2]) + Base64Encode(bs[3..])
  }

  /** The decoder's loop: position within the group of four, bits carried over, and padding
      seen. Characters outside the alphabet are skipped, and enough padding ends the input. */
  function Base64Loop(s: string, position: nat, carry: nat, pads: nat): Option<seq<Byte>>
    requires position < 4 && carry < 64
    requires position == 2 ==> carry < 16
    requires position == 3 ==> carry < 4
  {
    if |s| == 0 then if position == 0 then Some([]) else None
    else if s[0] == '=' then
      if position < 2 then Base64Loop(s[1..], position, carry, pads)
      else if position + pads + 1 >= 4 then Some([])
      else Base64Loop(s[1..], position, carry, pads + 1)
    else
      match SextetOf(s[0])
      case None => Base64Loop(s[1..], position, carry, pads)
      case Some(v) =>
        if position == 0 then Base64Loop(s[1..], 1, v, 0)
        else if position == 1 then Prepend(carry * 4 + v / 16, Base64Loop(s[1..], 2, v % 16, 0))
        else if position == 2 then Prepend(carry * 16 + v / 4, Base64Loop(s[1..], 3, v % 4, 0))
        else Prepend(carry * 64 + v, Base64Loop(s[1..], 0, 0, 0))
  }

  function Prepend(b: Byte, rest: Option<seq<Byte>>): Option<seq<Byte>> {
    match rest case None => None case Some(bs) => Some([b] + bs)
  }

  lemma {:induction false} SymbolRoundTrip(v: Sextet)
    ensures SextetOf(Symbol(v)) == Some(v) && Symbol(v) != '=' && Symbol(v) < '\U{80}'
  {
  }

  /** One symbol at each position of the loop. */
  lemma {:induction false} LoopTurn(s: string, v: Sextet, position: nat, carry: nat)
    requires position < 4 && carry < 64 && (position == 2 ==> carry < 16) && (position == 3 ==> carry < 4)
    ensures Base64Loop([Symbol(v)] + s, position, carry, 0) ==
      if position == 0 then Base64Loop(s, 1, v, 0)
      else if position == 1 then Prepend(carry * 4 + v / 16, Base64Loop(s, 2, v % 16, 0))
      else if position == 2 then Prepend(carry * 16 + v / 4, Base64Loop(s, 3, v % 4, 0))
      else Prepend(carry * 64 + v, Base64Loop(s, 0, 0, 0))
  {
    SymbolRoundTrip(v);
    assert ([Symbol(v)] + s)[1..] == s;
  }

  lemma {:induction false} GroupBits(a: Byte, b: Byte, c: Byte)
    ensures a / 4 * 4 + (a % 4 * 16 + b / 16) / 16 == a
    ensures (a % 4 * 16 + b / 16) % 16 * 16 + (b % 16 * 4 + c / 64) / 4 == b
    ensures (b % 16 * 4 + c / 64) % 4 * 64 + c % 64 == c
  {
  }

  lemma {:induction false} GroupDecodes(a: Byte, b: Byte, c: Byte, s: string)
    ensures Base64Loop(Group(a, b, c) + s, 0, 0, 0) == Prepend(a, Prepend(b, Prepend(c, Base64Loop(s, 0, 0, 0))))
  {
    var v0, v1, v2, v3 := a / 4, a % 4 * 16 + b / 16, b % 16 * 4 + c / 64, c % 64;
    GroupBits(a, b, c);
    FourTurns(v0, v1, v2, v3, s);
    assert Group(a, b, c) + s == [Symbol(v0)] + ([Symbol(v1)] + ([Symbol(v2)] + ([Symbol(v3)] + s)));
  }

  lemma {:induction false} FourTurns(v0: Sextet, v1: Sextet, v2: Sextet, v3: Sextet, s: string)
    ensures Base64Loop([Symbol(v0)] + ([Symbol(v1)] + ([Symbol(v2)] + ([Symbol(v3)] + s))), 0, 0, 0)
      == Prepend(v0 * 4 + v1 / 16, Prepend(v1 % 16 * 16 + v2 / 4, Prepend(v2 % 4 * 64 + v3, Base64Loop(s, 0, 0, 0))))
  {
    LoopTurn(s, v3, 3, v2 % 4);
    LoopTurn([Symbol(v3)] + s, v2, 2, v1 % 16);
    LoopTurn([Symbol(v2)] + ([Symbol(v3)] + s), v1, 1, v0);
    LoopTurn([Symbol(v1)] + ([Symbol(v2)] + ([Symbol(v3)] + s)), v0, 0, 0);
  }

  lemma {:induction false} PaddingEnds(carry: nat)
    requires carry < 4
    ensures Base64Loop("==", 2, carry, 0) == Some([]) && Base64Loop("=", 3, carry, 0) == Some([])
  {
    assert "=="[1..] == "=";
    assert Base64Loop("=", 2, carry, 1) == Some([]);
  }

  lemma {:induction false} OneByteDecodes(a: Byte)
    ensures Base64Loop(Group(a, 0, 0)[..2] + "==", 0, 0, 0) == Some([a])
  {
    var v0, v1 := a / 4, a % 4 * 16 + 0 / 16;
    GroupBits(a, 0, 0);
    PaddingEnds(0);
    assert v1 % 16 == 0 && Base64Loop("==", 2, v1 % 16, 0) == Some([]);
    LoopTurn("==", v1, 1, v0);
    LoopTurn([Symbol(v1)] + "==", v0, 0, 0);
    assert Group(a, 0, 0)[..2] + "==" == [Symbol(v0)] + ([Symbol(v1)] + "==");
    assert [a] + [] == [a];
  }

  lemma {:induction false} TwoBytesDecode(a: Byte, b: Byte)
    ensures Base64Loop(Group(a, b, 0)[..3] + "=", 0, 0, 0) == Some([a, b])
  {
    var v0, v1, v2 := a / 4, a % 4 * 16 + b / 16, b % 16 * 4 + 0 / 64;
    GroupBits(a, b, 0);
    PaddingEnds(0);
    assert v2 % 4 == 0 && Base64Loop("=", 3, v2 % 4, 0) == Some([]);
    LoopTurn("=", v2, 2, v1 % 16);
    LoopTurn([Symbol(v2)] + "=", v1, 1, v0);
    LoopTurn([Symbol(v1)] + ([Symbol(v2)] + "="), v0, 0, 0);
    assert Group(a, b, 0)[..3] + "=" == [Symbol(v0)] + ([Symbol(v1)] + ([Symbol(v2)] + "="));
    assert [a] + ([b] + []) == [a, b];
  }

  lemma {:induction false} ThreeFirst(bs: seq<Byte>)
    requires |bs| >= 3
    ensures Prepend(bs[0], Prepend(bs[1], Prepend(bs[2], Some(bs[3..])))) == Some(bs)
  {
    assert bs == [bs[0]] + ([bs[1]] + ([bs[2]] + bs[3..]));
  }

  lemma {:induction false} Base64RoundTrip(bs: seq<Byte>)
    ensures Base64Loop(Base64Encode(bs), 0, 0, 0) == Some(bs)
  {
    if |bs| == 0 {
      assert bs == [];
    } else if |bs| == 1 {
      OneByteDecodes(bs[0]);
      assert bs == [bs[0]];
    } else if |bs| == 2 {
      TwoBytesDecode(bs[0], bs[1]);
      assert bs == [bs[0], bs[1]];
    } else {
      Base64RoundTrip(bs[3..]);
      GroupDecodes(bs[0], bs[1], bs[2], Base64Encode(bs[3..]));
      ThreeFirst(bs);
    }
  }

  // ---------- the id ----------

  predicate IsPad(c: char) { c == '=' }

  function Repeat(c: char, n: nat): (s: string)
    ensures |s| == n && forall i :: 0 <= i < n ==> s[i] == c
  {
    seq(n, i => c)
  }

  function ApiIdEncode(pubkey: string, designId: string): string {
    TrimEnd(Base64Encode(Utf8Encode(pubkey + "\n" + designId)), IsPad)
  }

  function Padded(apiId: string): string {
    var padding := 4 - |apiId| % 4;
    if padding != 4 then apiId + Repeat('=', padding) else apiId
  }

  function SplitFirstLine(raw: string): Option<(string, string)> {
    if |raw| == 0 then None
    else if raw[0] == '\n' then Some(("", raw[1..]))
    else match SplitFirstLine(raw[1..])
         case None => None
         case Some((head, tail)) => Some(([raw[0]] + head, tail))
  }

  /** None wherever the source raises or finds no newline. */
  function ApiIdDecode(apiId: string): Option<(string, string)> {
    var padded := Padded(apiId);
    if !IsAscii(padded) then None
    else
      match Base64Loop(padded, 0, 0, 0)
      case None => None
      case Some(bs) =>
        match Utf8Decode(bs)
        case None => None
        case Some(raw) => SplitFirstLine(raw)
  }

  /** Stripping the padding and putting it back gives the padded text again. */
  lemma {:induction false} TailShape(g: string, pads: nat)
    requires 1 <= pads <= 2 && |g| == 4 - pads && !IsPad(g[|g| - 1])
    ensures TrimEnd(g + Repeat('=', pads), IsPad) == g
  {
    var e := g + Repeat('=', pads);
    assert e[..|e| - 1] == g + Repeat('=', pads - 1);
    if pads == 1 { assert e[..|e| - 1] == g; } else { TailShape1(g); }
  }

  lemma {:induction false} TailShape1(g: string)
    requires |g| > 0 && !IsPad(g[|g| - 1])
    ensures TrimEnd(g + Repeat('=', 1), IsPad) == g
  {
    var e := g + Repeat('=', 1);
    assert e[..|e| - 1] == g;
  }

  /** How many padding characters n bytes need. */
  function Pads(n: nat): nat { if n % 3 == 0 then 0 else 3 - n % 3 }

  /** The text without its last `pads` characters, all of them padding, is what stripping leaves. */
  predicate IsStripped(e: string, pads: nat)
    requires pads <= |e|
  {
    TrimEnd(e, IsPad) == e[..|e| - pads] && e == e[..|e| - pads] + Repeat('=', pads)
  }

  /** The encoding has whole groups, and stripping takes exactly its padding. */
  predicate HasShape(bs: seq<Byte>) {
    var e, pads := Base64Encode(bs), Pads(|bs|);
    |e| % 4 == 0 && pads <= |e| && IsStripped(e, pads)
  }

  lemma {:induction false} OneByteShape(bs: seq<Byte>)
    requires |bs| == 1
    ensures HasShape(bs)
  {
    GroupIsPlain(bs[0], 0, 0);
    assert "==" == Repeat('=', 2);
    TailShape(Group(bs[0], 0, 0)[..2], 2);
  }

  lemma {:induction false} TwoBytesShape(bs: seq<Byte>)
    requires |bs| == 2
    ensures HasShape(bs)
  {
    GroupIsPlain(bs[0], bs[1], 0);
    assert "=" == Repeat('=', 1);
    TailShape(Group(bs[0], bs[1], 0)[..3], 1);
  }

  lemma {:induction false} GroupShape(bs: seq<Byte>)
    requires |bs| >= 3 && HasShape(bs[3..])
    ensures HasShape(bs)
  {
    PadsPeriod(|bs|);
    GroupIsPlain(bs[0], bs[1], bs[2]);
    GroupFirst(Group(bs[0], bs[1], bs[2]), Base64Encode(bs[3..]), Pads(|bs|));
  }

  lemma {:induction false} EncodedShape(bs: seq<Byte>)
    ensures HasShape(bs)
  {
    if |bs| == 1 {
      OneByteShape(bs);
    } else if |bs| == 2 {
      TwoBytesShape(bs);
    } else if |bs| > 2 {
      EncodedShape(bs[3..]);
      GroupShape(bs);
    }
  }

  lemma {:induction false} PadsPeriod(n: nat)
    requires n >= 3
    ensures Pads(n) == Pads(n - 3)
  {
  }

  lemma {:induction false} GroupLength(g: string, rest: string)
    requires |g| == 4 && |rest| % 4 == 0
    ensures |g + rest| % 4 == 0
  {
    assert |g + rest| == 4 + |rest|;
  }

  lemma {:induction false} GroupFirst(g: string, rest: string, pads: nat)
    requires |g| == 4 && !IsPad(g[3]) && |rest| % 4 == 0 && pads <= |rest| && IsStripped(rest, pads)
    ensures |g + rest| % 4 == 0 && IsStripped(g + rest, pads)
  {
    GroupLength(g, rest);
    TrimEndConcat(g, rest);
    StrippedBehind(g, rest, pads);
  }

  lemma {:induction false} EncodedIsAscii(bs: seq<Byte>)
    ensures IsAscii(Base64Encode(bs))
  {
    if |bs| > 0 {
      GroupIsPlain(bs[0], if |bs| > 1 then bs[1] else 0, if |bs| > 2 then bs[2] else 0);
      if |bs| > 2 { EncodedIsAscii(bs[3..]); }
    }
  }

  lemma {:induction false} StrippedBehind(g: string, rest: string, pads: nat)
    requires pads <= |rest| && IsStripped(rest, pads) && TrimEnd(g + rest, IsPad) == g + TrimEnd(rest, IsPad)
    ensures IsStripped(g + rest, pads)
  {
    var kept := rest[..|rest| - pads];
    assert (g + rest)[..|g + rest| - pads] == g + kept;
    assert g + rest == (g + kept) + Repeat('=', pads);
  }

  lemma {:induction false} PaddingCount(length: nat, pads: nat)
    requires pads <= 2 && pads <= length && length % 4 == 0
    ensures 4 - (length - pads) % 4 == if pads == 0 then 4 else pads
  {
  }

  lemma {:induction false} PaddedAgain(kept: string, pads: nat)
    requires pads <= 2 && (|kept| + pads) % 4 == 0
    ensures Padded(kept) == kept + Repeat('=', pads)
  {
    PaddingCount(|kept| + pads, pads);
    assert kept + Repeat('=', 0) == kept;
  }

  lemma {:induction false} PaddingRestored(e: string, pads: nat)
    requires |e| % 4 == 0 && pads <= 2 && pads <= |e| && IsStripped(e, pads)
    ensures Padded(TrimEnd(e, IsPad)) == e
  {
    PaddedAgain(e[..|e| - pads], pads);
  }

  lemma {:induction false} GroupIsPlain(a: Byte, b: Byte, c: Byte)
    ensures IsAscii(Group(a, b, c)) && forall i :: 0 <= i < 4 ==> !IsPad(Group(a, b, c)[i])
  {
    SymbolRoundTrip(a / 4);
    SymbolRoundTrip(a % 4 * 16 + b / 16);
    SymbolRoundTrip(b % 16 * 4 + c / 64);
    SymbolRoundTrip(c % 64);
  }

  lemma {:induction false} TrimEndConcat(g: string, rest: string)
    requires |g| > 0 && !IsPad(g[|g| - 1])
    ensures TrimEnd(g + rest, IsPad) == g + TrimEnd(rest, IsPad)
  {
    if |rest| == 0 {
      assert g + rest == g;
    } else if IsPad(rest[|rest| - 1]) {
      TrimEndConcat(g, rest[..|rest| - 1]);
      assert (g + rest)[..|g + rest| - 1] == g + rest[..|rest| - 1];
    }
  }

  lemma {:induction false} SplitAtFirstNewline(pubkey: string, designId: string)
    requires '\n' !in pubkey
    ensures SplitFirstLine(pubkey + "\n" + designId) == Some((pubkey, designId))
  {
    var raw := pubkey + "\n" + designId;
    if |pubkey| == 0 {
      assert raw[1..] == designId;
    } else {
      SplitAtFirstNewline(pubkey[1..], designId);
      assert raw[1..] == pubkey[1..] + "\n" + designId;
      assert pubkey == [pubkey[0]] + pubkey[1..];
    }
  }

  lemma {:induction false} SplitHeadHasNoNewline(raw: string)
    ensures SplitFirstLine(raw).Some? ==> '\n' !in SplitFirstLine(raw).value.0
  {
    if |raw| > 0 && raw[0] != '\n' { SplitHeadHasNoNewline(raw[1..]); }
  }

  lemma {:induction false} DecodeOfEncode(pubkey: string, designId: string)
    ensures ApiIdDecode(ApiIdEncode(pubkey, designId)) == SplitFirstLine(pubkey + "\n" + designId)
  {
    var raw := pubkey + "\n" + designId;
    EncodedShape(Utf8Encode(raw));
    PaddingRestored(Base64Encode(Utf8Encode(raw)), Pads(|Utf8Encode(raw)|));
    EncodedIsAscii(Utf8Encode(raw));
    Base64RoundTrip(Utf8Encode(raw));
    Utf8RoundTrip(raw);
  }

  /** Decoding an encoded pair gives the pair back exactly when the pubkey holds no newline. */
  lemma {:induction false} ApiIdRoundTrip(pubkey: string, designId: string)
    ensures ApiIdDecode(ApiIdEncode(pubkey, designId)) == Some((pubkey, designId)) <==> '\n' !in pubkey
  {
    DecodeOfEncode(pubkey, designId);
    if '\n' !in pubkey {
      SplitAtFirstNewline(pubkey, designId);
    } else {
      SplitHeadHasNoNewline(pubkey + "\n" + designId);
    }
  }

  /** So different designs of newline-free pubkeys have different ids. */
  lemma {:induction false} ApiIdsDiffer(p: string, d: string, q: string, e: string)
    requires '\n' !in p && '\n' !in q && ApiIdEncode(p, d) == ApiIdEncode(q, e)
    ensures p == q && d == e
  {
    ApiIdRoundTrip(p, d);
    ApiIdRoundTrip(q, e);
  }
}
