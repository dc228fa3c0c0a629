/** Strings as the services see them: Unicode code points, ordered lexicographically,
    with the whitespace sets of Python and of JavaScript kept apart. */
module Text {

  datatype Option<+T> = None | Some(value: T) {
    function GetOr(default: T): T {
      match this
      case Some(v) => v
      case None => default
    }
  }

  // ---------- order ----------

  /** Code-point order of Python's `<` on str and of SQLite's BINARY collation. */
  predicate Less(a: string, b: string) {
    if |b| == 0 then false
    else if |a| == 0 then true
    else a[0] < b[0] || (a[0] == b[0] && Less(a[1..], b[1..]))
  }

  lemma {:induction false} LessIrreflexive(a: string)
    ensures !Less(a, a)
  {
    if |a| > 0 { LessIrreflexive(a[1..]); }
  }

  lemma {:induction false} LessTransitive(a: string, b: string, c: string)
    requires Less(a, b) && Less(b, c)
    ensures Less(a, c)
  {
    if |a| > 0 && a[0] == b[0] && b[0] == c[0] { LessTransitive(a[1..], b[1..], c[1..]); }
  }

  lemma {:induction false} LessTotal(a: string, b: string)
    ensures Less(a, b) || a == b || Less(b, a)
  {
    if |a| > 0 && |b| > 0 && a[0] == b[0] {
      LessTotal(a[1..], b[1..]);
      if a[1..] == b[1..] { assert a == [a[0]] + a[1..] == b; }
    }
  }

  /** Where a comes before b: they agree up to there, and then a ends or has the smaller code point. */
  predicate PrecedesAt(a: string, b: string, i: nat) {
    i <= |a| && i < |b| && a[..i] == b[..i] && (i == |a| || a[i] < b[i])
  }

  /** One string is less than another exactly if it is a proper prefix of it or has the smaller code
      point where they first differ. */
  lemma {:induction false} LessMeaning(a: string, b: string)
    ensures Less(a, b) <==> exists i: nat :: PrecedesAt(a, b, i)
  {
    if |a| > 0 && |b| > 0 && a[0] == b[0] {
      LessMeaning(a[1..], b[1..]);
      if i: nat :| PrecedesAt(a[1..], b[1..], i) { PrecedesLater(a, b, i); }
      if i: nat :| PrecedesAt(a, b, i) {
        assert i > 0;
        PrecedesLater(a, b, i - 1);
      }
    } else if |b| > 0 {
      if Less(a, b) { assert PrecedesAt(a, b, 0); }
      if i: nat :| PrecedesAt(a, b, i) { assert i > 0 ==> a[..i][0] == b[..i][0]; }
    }
  }

  lemma {:induction false} PrecedesLater(a: string, b: string, i: nat)
    requires |a| > 0 && |b| > 0 && a[0] == b[0]
    ensures PrecedesAt(a[1..], b[1..], i) <==> PrecedesAt(a, b, i + 1)
  {
    if i < |a| && i < |b| {
      assert a[..i + 1] == [a[0]] + a[1..][..i] && b[..i + 1] == [b[0]] + b[1..][..i];
      if a[..i + 1] == b[..i + 1] {
        assert a[1..][..i] == a[..i + 1][1..] && b[1..][..i] == b[..i + 1][1..];
      }
    }
  }

  // ---------- characters ----------

  predicate IsWideSpace(c: char) {
    || c == '\U{A0}' || c == '\U{1680}' || '\U{2000}' <= c <= '\U{200A}' || c == '\U{2028}'
    || c == '\U{2029}' || c == '\U{202F}' || c == '\U{205F}' || c == '\U{3000}'
  }

  /** Python's str.isspace, as used by strip() and split(). */
  predicate IsPySpace(c: char) {
    || '\U{9}' <= c <= '\U{D}' || '\U{1C}' <= c <= '\U{20}' || c == '\U{85}' || IsWideSpace(c)
  }

  /** JavaScript's \s class, which trim() uses too. */
  predicate IsJsSpace(c: char) {
    || '\U{9}' <= c <= '\U{D}' || c == ' ' || c == '\U{FEFF}' || IsWideSpace(c)
  }

  /** The control and bidirectional-override characters both services refuse. */
  predicate IsControlOrBidi(c: char) {
    || c <= '\U{1F}' || '\U{7F}' <= c <= '\U{9F}'
    || '\U{202A}' <= c <= '\U{202E}' || '\U{2066}' <= c <= '\U{2069}'
  }

  predicate HasControlOrBidi(s: string) {
    exists i :: 0 <= i < |s| && IsControlOrBidi(s[i])
  }

  predicate IsAscii(s: string) { forall i :: 0 <= i < |s| ==> s[i] < '\U{80}' }

  predicate IsLowerHex(c: char) { '0' <= c <= '9' || 'a' <= c <= 'f' }

  /** Fullmatch of [a-f0-9]{n}. */
  predicate IsLowerHexOf(s: string, n: nat) {
    |s| == n && forall i :: 0 <= i < |s| ==> IsLowerHex(s[i])
  }

  /** Lower case of one character: ASCII letters and the Kelvin sign, the only other character
      whose lower case is a single ASCII letter. The services' lower() results are only compared
      with ASCII patterns, where characters left alone here fail like their lower case does. */
  function LowerChar(c: char): char {
    if 'A' <= c <= 'Z' then (c as int + 32) as char
    else if c == '\U{212A}' then 'k'
    else c
  }

  function Lower(s: string): (r: string)
    ensures |r| == |s| && forall i :: 0 <= i < |s| ==> r[i] == LowerChar(s[i])
  {
    seq(|s|, i requires 0 <= i < |s| => LowerChar(s[i]))
  }

  lemma LowerIdempotent(s: string)
    ensures Lower(Lower(s)) == Lower(s)
  {
    assert forall i :: 0 <= i < |s| ==> LowerChar(LowerChar(s[i])) == LowerChar(s[i]);
  }

  lemma LowerHexUnchanged(s: string)
    requires forall i :: 0 <= i < |s| ==> IsLowerHex(s[i])
    ensures Lower(s) == s
  {
    assert forall i :: 0 <= i < |s| ==> LowerChar(s[i]) == s[i];
  }

  // ---------- trimming ----------

  function TrimStart(s: string, space: char -> bool): (r: string)
    ensures |r| <= |s|
    ensures |r| > 0 ==> !space(r[0])
    ensures |s| > 0 && !space(s[0]) ==> r == s
  {
    if |s| > 0 && space(s[0]) then TrimStart(s[1..], space) else s
  }

  function TrimEnd(s: string, space: char -> bool): (r: string)
    ensures r <= s
    ensures |r| > 0 ==> !space(r[|r| - 1])
    ensures |s| > 0 && !space(s[|s| - 1]) ==> r == s
  {
    if |s| > 0 && space(s[|s| - 1]) then TrimEnd(s[..|s| - 1], space) else s
  }

  /** strip() or trim(), depending on the space class. */
  function Trim(s: string, space: char -> bool): string {
    TrimEnd(TrimStart(s, space), space)
  }

  predicate IsTrimmed(s: string, space: char -> bool) {
    |s| > 0 ==> !space(s[0]) && !space(s[|s| - 1])
  }

  lemma {:induction false} TrimStartIsSuffix(s: string, space: char -> bool)
    ensures exists i :: 0 <= i <= |s| && TrimStart(s, space) == s[i..]
  {
    if |s| > 0 && space(s[0]) {
      TrimStartIsSuffix(s[1..], space);
      var i :| 0 <= i <= |s| - 1 && TrimStart(s[1..], space) == s[1..][i..];
      assert s[1..][i..] == s[i + 1..];
    } else {
      assert s == s[0..];
    }
  }

  lemma {:induction false} TrimIsSlice(s: string, space: char -> bool) returns (i: nat, j: nat)
    ensures i <= j <= |s| && Trim(s, space) == s[i..j]
  {
    var t := TrimStart(s, space);
    TrimStartIsSuffix(s, space);
    i :| 0 <= i <= |s| && t == s[i..];
    j := i + |Trim(s, space)|;
    assert Trim(s, space) == t[..j - i];
  }

  lemma {:induction false} TrimIsTrimmed(s: string, space: char -> bool)
    ensures IsTrimmed(Trim(s, space), space)
    ensures IsTrimmed(s, space) ==> Trim(s, space) == s
  {
    var t := TrimStart(s, space);
    assert |t| > 0 && |Trim(s, space)| > 0 ==> Trim(s, space)[0] == t[0];
  }

  /** Trimming yields a trimmed slice of the input, and changes only untrimmed strings. */
  lemma {:induction false} TrimLaws(s: string, space: char -> bool)
    ensures IsTrimmed(Trim(s, space), space)
    ensures IsTrimmed(s, space) ==> Trim(s, space) == s
    ensures exists i, j :: 0 <= i <= j <= |s| && Trim(s, space) == s[i..j]
  {
    TrimIsTrimmed(s, space);
    var i, j := TrimIsSlice(s, space);
  }

  predicate AllSpace(s: string, space: char -> bool) { forall i :: 0 <= i < |s| ==> space(s[i]) }

  lemma {:induction false} TrimPadded(before: string, s: string, after: string, space: char -> bool)
    requires AllSpace(before, space) && AllSpace(after, space)
    requires |s| > 0 && IsTrimmed(s, space)
    ensures Trim(before + s + after, space) == s
  {
    TrimStartPadded(before, s + after, space);
    assert before + s + after == before + (s + after);
    TrimEndPadded(s, after, space);
  }

  lemma {:induction false} TrimStartPadded(before: string, s: string, space: char -> bool)
    requires AllSpace(before, space) && |s| > 0 && !space(s[0])
    ensures TrimStart(before + s, space) == s
  {
    if |before| > 0 {
      TrimStartPadded(before[1..], s, space);
      assert (before + s)[1..] == before[1..] + s;
    } else {
      assert before + s == s;
    }
  }

  lemma {:induction false} TrimEndPadded(s: string, after: string, space: char -> bool)
    requires AllSpace(after, space) && |s| > 0 && !space(s[|s| - 1])
    ensures TrimEnd(s + after, space) == s
  {
    if |after| > 0 {
      TrimEndPadded(s, after[..|after| - 1], space);
      assert (s + after)[..|s + after| - 1] == s + after[..|after| - 1];
    } else {
      assert s + after == s;
    }
  }

  /** Each run of spaces replaced by one blank. */
  function Collapse(s: string, space: char -> bool): string
    decreases |s|
  {
    if |s| == 0 then ""
    else if space(s[0]) then " " + Collapse(TrimStart(s[1..], space), space)
    else [s[0]] + Collapse(s[1..], space)
  }

  function PyStrip(s: string): string { Trim(s, IsPySpace) }

  function JsTrim(s: string): string { Trim(s, IsJsSpace) }

  predicate StartsWith(s: string, prefix: string) {
    prefix <= s
  }
}
