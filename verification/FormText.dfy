/** The publish form's text normalisers, over whatever Unicode normalisation and URL parser the
    browser has, and the laws of these that the form relies on. */
module FormText {
  import opened Text

  /** String.prototype.normalize("NFC"), String.prototype.toLowerCase, and `new URL(s).toString()`
      where the scheme is https. */
  datatype Platform = Platform(nfc: string -> string, lower: string -> string, https: string -> Option<string>)

  // ---------- normalisers ----------

  function SingleLine(p: Platform, s: string): string {
    JsTrim(Collapse(p.nfc(s), IsJsSpace))
  }

  function ReplaceCrLf(s: string): string {
    if |s| < 2 then s
    else if s[0] == '\r' && s[1] == '\n' then ['\n'] + ReplaceCrLf(s[2..])
    else [s[0]] + ReplaceCrLf(s[1..])
  }

  function TextArea(p: Platform, s: string): string { ReplaceCrLf(p.nfc(s)) }

  /** split("\n") */
  function Lines(s: string): (r: seq<string>)
    ensures |r| > 0
  {
    if |s| == 0 then [""]
    else
      var rest := Lines(s[1..]);
      if s[0] == '\n' then [""] + rest else [[s[0]] + rest[0]] + rest[1..]
  }

  function JoinLines(lines: seq<string>): string {
    if |lines| == 0 then ""
    else if |lines| == 1 then lines[0]
    else lines[0] + "\n" + JoinLines(lines[1..])
  }

  function TrimmedNonEmpty(lines: seq<string>): seq<string> {
    if |lines| == 0 then []
    else (if |JsTrim(lines[0])| > 0 then [JsTrim(lines[0])] else []) + TrimmedNonEmpty(lines[1..])
  }

  function LineList(p: Platform, s: string): seq<string> {
    TrimmedNonEmpty(Lines(TextArea(p, s)))
  }

  function SingleLines(p: Platform, lines: seq<string>): (r: seq<string>)
    ensures |r| == |lines| && forall i :: 0 <= i < |lines| ==> r[i] == SingleLine(p, lines[i])
  {
    seq(|lines|, i requires 0 <= i < |lines| => SingleLine(p, lines[i]))
  }

  /** String.length: UTF-16 code units. */
  function Utf16Length(s: string): (n: nat)
    ensures n >= |s|
  {
    if |s| == 0 then 0 else (if s[0] as int > 0xFFFF then 2 else 1) + Utf16Length(s[1..])
  }

  // ---------- laws ----------

  /** Printable ASCII with a host after the scheme and a path after the host. */
  predicate IsUrlText(u: string) {
    && StartsWith(u, "https://") && (forall i :: 0 <= i < |u| ==> '!' <= u[i] <= '~')
    && |u| > 8 && u[8] != '/' && exists i :: 8 < i < |u| && u[i] == '/'
  }

  ghost predicate IsNfc(p: Platform, s: string) { p.nfc(s) == s }

  ghost predicate IsLower(p: Platform, s: string) { p.lower(s) == s }

  predicate IsAsciiOrKelvin(s: string) { forall i :: 0 <= i < |s| ==> s[i] < '\U{80}' || s[i] == '\U{212A}' }

  /** ASCII is normalised; normalising twice changes nothing more; slices of normalised text, and
      normalised text with its spaces collapsed, its CR LF pairs shortened or its lines joined,
      are normalised. */
  ghost predicate NfcLaws(p: Platform) {
    && (forall s :: IsAscii(s) ==> IsNfc(p, s))
    && (forall s :: IsNfc(p, p.nfc(s)))
    && (forall s, i, j :: IsNfc(p, s) && 0 <= i <= j <= |s| ==> IsNfc(p, s[i..j]))
    && (forall s :: IsNfc(p, s) ==> IsNfc(p, Collapse(s, IsJsSpace)))
    && (forall s :: IsNfc(p, s) ==> IsNfc(p, ReplaceCrLf(s)))
    && (forall a, b :: IsNfc(p, a) && IsNfc(p, b) ==> IsNfc(p, a + "\n" + b))
  }

  /** ASCII and the Kelvin sign have their usual lower case; lower-casing twice changes nothing
      more; slices of lower-case text, and lower-case text with its spaces collapsed or normalised,
      are lower-case; and lower-casing neither makes nor unmakes spaces. */
  ghost predicate LowerLaws(p: Platform) {
    && (forall s :: IsAsciiOrKelvin(s) ==> p.lower(s) == Lower(s))
    && (forall s :: IsLower(p, p.lower(s)))
    && (forall s, i, j :: IsLower(p, s) && 0 <= i <= j <= |s| ==> IsLower(p, s[i..j]))
    && (forall s :: IsLower(p, s) ==> IsLower(p, Collapse(s, IsJsSpace)))
    && (forall s :: IsLower(p, s) ==> IsLower(p, p.nfc(s)))
    && (forall s :: IsSingleLine(s) ==> IsSingleLine(p.lower(s)))
  }

  /** A serialised URL is printable ASCII and parses to itself. */
  ghost predicate UrlLaws(p: Platform) {
    forall s :: p.https(s).Some? ==>
      var u := p.https(s).value; IsUrlText(u) && p.https(u) == Some(u)
  }

  ghost predicate Lawful(p: Platform) { NfcLaws(p) && LowerLaws(p) && UrlLaws(p) }

  // ---------- the normal form of a line ----------

  /** Blanks are the only spaces, single, and not at the ends. */
  predicate IsSingleLine(s: string) {
    && (forall i :: 0 <= i < |s| && IsJsSpace(s[i]) ==> s[i] == ' ')
    && (forall i :: 0 <= i < |s| - 1 && s[i] == ' ' ==> s[i + 1] != ' ')
    && IsTrimmed(s, IsJsSpace)
  }

  predicate IsCollapsed(s: string) {
    && (forall i :: 0 <= i < |s| && IsJsSpace(s[i]) ==> s[i] == ' ')
    && (forall i :: 0 <= i < |s| - 1 && s[i] == ' ' ==> s[i + 1] != ' ')
  }

  lemma {:induction false} CollapseCollapses(s: string)
    ensures IsCollapsed(Collapse(s, IsJsSpace))
    ensures |s| > 0 ==> |Collapse(s, IsJsSpace)| > 0
    ensures |s| > 0 ==> Collapse(s, IsJsSpace)[0] == if IsJsSpace(s[0]) then ' ' else s[0]
    decreases |s|
  {
    if |s| > 0 {
      var rest := if IsJsSpace(s[0]) then TrimStart(s[1..], IsJsSpace) else s[1..];
      CollapseCollapses(rest);
    }
  }

  lemma {:induction false} CollapseKeeps(s: string)
    requires IsCollapsed(s)
    ensures Collapse(s, IsJsSpace) == s
    decreases |s|
  {
    if |s| > 0 {
      CollapseKeeps(s[1..]);
      assert s == [s[0]] + s[1..];
      if |s| > 1 && IsJsSpace(s[0]) { assert !IsJsSpace(s[1]); }
    }
  }

  lemma {:induction false} SliceCollapsed(s: string, i: nat, j: nat)
    requires IsCollapsed(s) && i <= j <= |s|
    ensures IsCollapsed(s[i..j])
  {
    var t := s[i..j];
    forall k | 0 <= k < |t| - 1 && t[k] == ' ' ensures t[k + 1] != ' ' { assert s[i + k] == ' '; }
  }

  lemma {:induction false} SingleLineIsNormal(p: Platform, s: string)
    requires NfcLaws(p)
    ensures IsSingleLine(SingleLine(p, s)) && IsNfc(p, SingleLine(p, s))
  {
    var c := Collapse(p.nfc(s), IsJsSpace);
    CollapseCollapses(p.nfc(s));
    TrimLaws(c, IsJsSpace);
    var i, j :| 0 <= i <= j <= |c| && JsTrim(c) == c[i..j];
    SliceCollapsed(c, i, j);
    assert IsNfc(p, p.nfc(s)) && IsNfc(p, c);
  }

  /** Printable ASCII is a normal line. */
  lemma {:induction false} PrintableIsNormal(p: Platform, s: string)
    requires NfcLaws(p) && forall i :: 0 <= i < |s| ==> '!' <= s[i] <= '~'
    ensures IsSingleLine(s) && IsNfc(p, s) && SingleLine(p, s) == s
  {
    assert IsAscii(s);
    SingleLineKeeps(p, s);
  }

  /** A normal line survives the normaliser. */
  lemma {:induction false} SingleLineKeeps(p: Platform, s: string)
    requires IsSingleLine(s) && IsNfc(p, s)
    ensures SingleLine(p, s) == s
  {
    CollapseKeeps(s);
    TrimLaws(s, IsJsSpace);
  }

  // ---------- lists of lines ----------

  /** What a form list turns into: normal, non-empty lines. */
  ghost predicate AreNormalLines(p: Platform, lines: seq<string>) {
    forall i :: 0 <= i < |lines| ==> lines[i] != "" && IsSingleLine(lines[i]) && IsNfc(p, lines[i])
  }

  predicate HasNo(s: string, c: char) { forall i :: 0 <= i < |s| ==> s[i] != c }

  lemma {:induction false} SingleLineHasNoBreaks(s: string)
    requires IsSingleLine(s)
    ensures HasNo(s, '\n') && HasNo(s, '\r')
  {
    assert IsJsSpace('\n') && IsJsSpace('\r');
  }

  lemma {:induction false} ReplaceCrLfKeeps(s: string)
    requires HasNo(s, '\r')
    ensures ReplaceCrLf(s) == s
  {
    if |s| >= 2 { ReplaceCrLfKeeps(s[1..]); assert s == [s[0]] + s[1..]; }
  }

  lemma {:induction false} LinesOfOne(s: string)
    requires HasNo(s, '\n')
    ensures Lines(s) == [s]
  {
    if |s| > 0 { LinesOfOne(s[1..]); assert s == [s[0]] + s[1..]; }
  }

  lemma {:induction false} LinesOfConcat(a: string, b: string)
    requires HasNo(a, '\n')
    ensures Lines(a + "\n" + b) == [a] + Lines(b)
  {
    var s := a + "\n" + b;
    if |a| == 0 {
      assert s[1..] == b;
    } else {
      LinesOfConcat(a[1..], b);
      assert s[1..] == a[1..] + "\n" + b;
      assert a == [a[0]] + a[1..];
    }
  }

  lemma {:induction false} LinesOfJoin(lines: seq<string>)
    requires |lines| > 0 && forall i :: 0 <= i < |lines| ==> HasNo(lines[i], '\n')
    ensures Lines(JoinLines(lines)) == lines
  {
    if |lines| == 1 {
      LinesOfOne(lines[0]);
    } else {
      LinesOfJoin(lines[1..]);
      LinesOfConcat(lines[0], JoinLines(lines[1..]));
      assert lines == [lines[0]] + lines[1..];
    }
  }

  lemma {:induction false} JoinIsNfc(p: Platform, lines: seq<string>)
    requires NfcLaws(p) && AreNormalLines(p, lines)
    ensures IsNfc(p, JoinLines(lines)) && HasNo(JoinLines(lines), '\r')
  {
    if |lines| > 0 {
      JoinIsNfc(p, lines[1..]);
      SingleLineHasNoBreaks(lines[0]);
    }
  }

  lemma {:induction false} TrimmedKeeps(p: Platform, lines: seq<string>)
    requires AreNormalLines(p, lines)
    ensures TrimmedNonEmpty(lines) == lines
  {
    if |lines| > 0 {
      TrimLaws(lines[0], IsJsSpace);
      TrimmedKeeps(p, lines[1..]);
      assert lines == [lines[0]] + lines[1..];
    }
  }

  /** Joining normal lines and parsing them again gives the same lines. */
  lemma {:induction false} LineListRoundTrip(p: Platform, lines: seq<string>)
    requires NfcLaws(p) && AreNormalLines(p, lines)
    ensures LineList(p, JoinLines(lines)) == lines
  {
    JoinIsNfc(p, lines);
    ReplaceCrLfKeeps(JoinLines(lines));
    if |lines| == 0 {
      assert Lines("") == [""] && TrimmedNonEmpty([""][1..]) == [];
    } else {
      forall i | 0 <= i < |lines| ensures HasNo(lines[i], '\n') { SingleLineHasNoBreaks(lines[i]); }
      LinesOfJoin(lines);
      TrimmedKeeps(p, lines);
    }
  }

  lemma {:induction false} SingleLinesKeep(p: Platform, lines: seq<string>)
    requires AreNormalLines(p, lines)
    ensures SingleLines(p, lines) == lines
  {
    forall i | 0 <= i < |lines| ensures SingleLine(p, lines[i]) == lines[i] { SingleLineKeeps(p, lines[i]); }
  }

  // ---------- what the form's lists hold ----------

  ghost predicate IsTidy(p: Platform, line: string) {
    line != "" && IsTrimmed(line, IsJsSpace) && IsNfc(p, line)
  }

  lemma {:induction false} LinesAreSlices(s: string, k: nat)
    requires k < |Lines(s)|
    ensures exists i, j :: 0 <= i <= j <= |s| && Lines(s)[k] == s[i..j] && (k == 0 ==> i == 0)
  {
    if |s| == 0 {
      assert s == s[0..0];
    } else {
      var rest := Lines(s[1..]);
      if s[0] == '\n' {
        if k == 0 {
          assert s[0..0] == "";
        } else {
          LinesAreSlices(s[1..], k - 1);
          var i, j :| 0 <= i <= j <= |s[1..]| && rest[k - 1] == s[1..][i..j];
          assert s[1..][i..j] == s[i + 1..j + 1];
        }
      } else {
        LinesAreSlices(s[1..], k);
        var i, j :| 0 <= i <= j <= |s[1..]| && rest[k] == s[1..][i..j] && (k == 0 ==> i == 0);
        assert s[1..][i..j] == s[i + 1..j + 1];
        if k == 0 { assert [s[0]] + s[1..][0..j] == s[0..j + 1]; }
      }
    }
  }

  lemma {:induction false} LinesAreNfc(p: Platform, s: string)
    requires NfcLaws(p) && IsNfc(p, s)
    ensures forall k :: 0 <= k < |Lines(s)| ==> IsNfc(p, Lines(s)[k])
  {
    forall k | 0 <= k < |Lines(s)| ensures IsNfc(p, Lines(s)[k]) {
      LinesAreSlices(s, k);
      var i, j :| 0 <= i <= j <= |s| && Lines(s)[k] == s[i..j];
    }
  }

  lemma {:induction false} TrimIsNfc(p: Platform, s: string)
    requires NfcLaws(p) && IsNfc(p, s)
    ensures IsNfc(p, JsTrim(s)) && IsTrimmed(JsTrim(s), IsJsSpace)
  {
    TrimLaws(s, IsJsSpace);
    var i, j :| 0 <= i <= j <= |s| && JsTrim(s) == s[i..j];
  }

  lemma {:induction false} TrimmedAreTidy(p: Platform, lines: seq<string>)
    requires NfcLaws(p) && forall k :: 0 <= k < |lines| ==> IsNfc(p, lines[k])
    ensures forall k :: 0 <= k < |TrimmedNonEmpty(lines)| ==> IsTidy(p, TrimmedNonEmpty(lines)[k])
  {
    if |lines| > 0 {
      TrimIsNfc(p, lines[0]);
      TrimmedAreTidy(p, lines[1..]);
    }
  }

  lemma {:induction false} LineListIsTidy(p: Platform, s: string)
    requires NfcLaws(p)
    ensures forall k :: 0 <= k < |LineList(p, s)| ==> IsTidy(p, LineList(p, s)[k])
  {
    assert IsNfc(p, p.nfc(s));
    LinesAreNfc(p, TextArea(p, s));
    TrimmedAreTidy(p, Lines(TextArea(p, s)));
  }

  /** A tidy line stays non-empty when its spaces are collapsed. */
  lemma {:induction false} TidySingleLine(p: Platform, line: string)
    requires NfcLaws(p) && IsTidy(p, line)
    ensures SingleLine(p, line) != ""
  {
    var c := Collapse(line, IsJsSpace);
    CollapseCollapses(line);
    TrimLaws(c, IsJsSpace);
    assert c[0] == line[0] && !IsJsSpace(c[0]);
    assert TrimStart(c, IsJsSpace) == c;
    TrimEndKeepsFirst(c);
  }

  lemma {:induction false} TrimEndKeepsFirst(s: string)
    requires |s| > 0 && !IsJsSpace(s[0])
    ensures |TrimEnd(s, IsJsSpace)| > 0
  {
    if IsJsSpace(s[|s| - 1]) { TrimEndKeepsFirst(s[..|s| - 1]); }
  }

  /** The list fields of the form come out as normal lines. */
  lemma {:induction false} ListFieldIsNormal(p: Platform, s: string)
    requires NfcLaws(p)
    ensures AreNormalLines(p, SingleLines(p, LineList(p, s)))
  {
    LineListIsTidy(p, s);
    var lines := LineList(p, s);
    forall i | 0 <= i < |lines|
      ensures SingleLine(p, lines[i]) != "" && IsSingleLine(SingleLine(p, lines[i]))
          && IsNfc(p, SingleLine(p, lines[i]))
    {
      TidySingleLine(p, lines[i]);
      SingleLineIsNormal(p, lines[i]);
    }
  }
}
