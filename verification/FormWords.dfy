/** What the normalisers keep of a text: its words, and its lines that are not blank. */
module FormWords {
  import opened Sequences
  import opened Text
  import opened FormText
  import opened EventValidation

  // ---------- words ----------

  /** The runs of characters between spaces. */
  function Words(s: string, space: char -> bool): (r: seq<string>)
    ensures |s| > 0 && !space(s[0]) ==> |r| > 0
  {
    if |s| == 0 then []
    else if space(s[0]) then Words(s[1..], space)
    else
      var rest := Words(s[1..], space);
      if |s| == 1 || space(s[1]) then [[s[0]]] + rest else [[s[0]] + rest[0]] + rest[1..]
  }

  lemma {:induction false} WordsTrimStart(s: string, space: char -> bool)
    ensures Words(TrimStart(s, space), space) == Words(s, space)
  {
    if |s| > 0 && space(s[0]) { WordsTrimStart(s[1..], space); }
  }

  lemma {:induction false} WordsWithoutLast(s: string, space: char -> bool)
    requires |s| > 0 && space(s[|s| - 1])
    ensures Words(s[..|s| - 1], space) == Words(s, space)
    decreases |s|
  {
    var front := s[..|s| - 1];
    if |s| > 1 {
      WordsWithoutLast(s[1..], space);
      assert s[1..][..|s| - 2] == front[1..];
    }
  }

  lemma {:induction false} WordsTrimEnd(s: string, space: char -> bool)
    ensures Words(TrimEnd(s, space), space) == Words(s, space)
  {
    if |s| > 0 && space(s[|s| - 1]) {
      WordsWithoutLast(s, space);
      WordsTrimEnd(s[..|s| - 1], space);
    }
  }

  lemma {:induction false} WordsTrim(s: string, space: char -> bool)
    ensures Words(Trim(s, space), space) == Words(s, space)
  {
    WordsTrimStart(s, space);
    WordsTrimEnd(TrimStart(s, space), space);
  }

  lemma {:induction false} CollapseStart(s: string, space: char -> bool)
    requires |s| > 0 && space(' ')
    ensures |Collapse(s, space)| > 0 && (space(Collapse(s, space)[0]) <==> space(s[0]))
    ensures !space(s[0]) ==> Collapse(s, space)[0] == s[0] && Collapse(s, space)[1..] == Collapse(s[1..], space)
  {
  }

  lemma {:induction false} WordsCollapse(s: string, space: char -> bool)
    requires space(' ')
    ensures Words(Collapse(s, space), space) == Words(s, space)
    decreases |s|
  {
    if |s| > 0 {
      CollapseStart(s, space);
      if space(s[0]) {
        var rest := TrimStart(s[1..], space);
        WordsTrimStart(s[1..], space);
        WordsCollapse(rest, space);
        assert (" " + Collapse(rest, space))[1..] == Collapse(rest, space);
      } else {
        WordsCollapse(s[1..], space);
        if |s| > 1 { CollapseStart(s[1..], space); }
      }
    }
  }

  /** A normalised line has the words of the text, in order. */
  lemma {:induction false} SingleLineKeepsWords(p: Platform, s: string)
    ensures Words(SingleLine(p, s), IsJsSpace) == Words(p.nfc(s), IsJsSpace)
  {
    WordsTrim(Collapse(p.nfc(s), IsJsSpace), IsJsSpace);
    WordsCollapse(p.nfc(s), IsJsSpace);
  }

  /** So has the server's form of a name, for Python's spaces. */
  lemma {:induction false} NameKeepsWords(value: string)
    ensures Words(NormalizeName(value), IsPySpace) == Words(value, IsPySpace)
  {
    WordsTrim(value, IsPySpace);
    WordsCollapse(PyStrip(value), IsPySpace);
  }

  // ---------- lines ----------

  /** Splitting at line breaks loses nothing. */
  lemma {:induction false} LinesJoin(s: string)
    ensures JoinLines(Lines(s)) == s
    ensures forall i :: 0 <= i < |Lines(s)| ==> HasNo(Lines(s)[i], '\n')
  {
    if |s| > 0 {
      var rest := Lines(s[1..]);
      LinesJoin(s[1..]);
      if s[0] == '\n' {
        assert Lines(s)[1..] == rest;
      } else {
        assert Lines(s)[1..] == rest[1..];
      }
      assert s == [s[0]] + s[1..];
    }
  }

  /** The values are the trimmed texts of the lines at these places, none of them blank. */
  predicate AreTrimmedAt(values: seq<string>, lines: seq<string>, at: seq<nat>) {
    && |at| == |values|
    && forall k :: 0 <= k < |at| ==> at[k] < |lines| && values[k] == JsTrim(lines[at[k]]) && values[k] != ""
  }

  predicate IsIncreasing(at: seq<nat>) { forall j, k :: 0 <= j < k < |at| ==> at[j] < at[k] }

  predicate OthersAreBlank(lines: seq<string>, at: seq<nat>) {
    forall i :: 0 <= i < |lines| ==> i in at || JsTrim(lines[i]) == ""
  }

  predicate AreLinesAt(values: seq<string>, lines: seq<string>, at: seq<nat>) {
    AreTrimmedAt(values, lines, at) && IsIncreasing(at) && OthersAreBlank(lines, at)
  }

  function KeptLine(line: string): seq<string> { if |JsTrim(line)| > 0 then [JsTrim(line)] else [] }

  lemma {:induction false} KeptFirst(lines: seq<string>)
    requires |lines| > 0
    ensures TrimmedNonEmpty(lines) == KeptLine(lines[0]) + TrimmedNonEmpty(lines[1..])
  {
  }

  /** One step of the next lemma, with what it has of the rest. */
  lemma {:induction false} KeptBefore(a: seq<string>, b: seq<string>, rest: seq<string>)
    requires |a| > 0 && TrimmedNonEmpty(a[1..] + b) == TrimmedNonEmpty(a[1..]) + rest
    ensures TrimmedNonEmpty(a + b) == TrimmedNonEmpty(a) + rest
  {
    ConcatTail(a, b);
    KeptFirst(a);
    KeptFirst(a + b);
    Associates(KeptLine(a[0]), TrimmedNonEmpty(a[1..]), rest);
  }

  lemma {:induction false} KeptConcat(a: seq<string>, b: seq<string>)
    ensures TrimmedNonEmpty(a + b) == TrimmedNonEmpty(a) + TrimmedNonEmpty(b)
  {
    if |a| == 0 {
      assert a + b == b;
    } else {
      KeptConcat(a[1..], b);
      KeptBefore(a, b, TrimmedNonEmpty(b));
    }
  }

  lemma {:induction false} KeptLast(lines: seq<string>)
    requires |lines| > 0
    ensures TrimmedNonEmpty(lines) == TrimmedNonEmpty(lines[..|lines| - 1]) + KeptLine(lines[|lines| - 1])
  {
    var front, last := lines[..|lines| - 1], lines[|lines| - 1];
    KeptConcat(front, [last]);
    assert front + [last] == lines && [last][1..] == [];
  }

  lemma {:induction false} BlankLineMore(values: seq<string>, lines: seq<string>, n: nat, at: seq<nat>)
    requires |lines| == n + 1 && AreLinesAt(values, lines[..n], at) && JsTrim(lines[n]) == ""
    ensures AreLinesAt(values, lines, at)
  {
  }

  lemma {:induction false} TrimmedMore(values: seq<string>, lines: seq<string>, n: nat, at: seq<nat>)
    requires |lines| == n + 1 && AreTrimmedAt(values, lines[..n], at) && JsTrim(lines[n]) != ""
    ensures AreTrimmedAt(values + [JsTrim(lines[n])], lines, at + [n])
    ensures IsIncreasing(at) ==> IsIncreasing(at + [n])
  {
  }

  lemma {:induction false} OthersMore(lines: seq<string>, n: nat, at: seq<nat>)
    requires |lines| == n + 1 && OthersAreBlank(lines[..n], at)
    ensures OthersAreBlank(lines, at + [n])
  {
    forall i | 0 <= i < |lines| ensures i in at + [n] || JsTrim(lines[i]) == "" {
      InConcat(at, [n], i);
      if i < n { assert lines[..n][i] == lines[i]; }
    }
  }

  lemma {:induction false} KeptLineMore(values: seq<string>, lines: seq<string>, n: nat, at: seq<nat>)
    requires |lines| == n + 1 && AreLinesAt(values, lines[..n], at) && JsTrim(lines[n]) != ""
    ensures AreLinesAt(values + [JsTrim(lines[n])], lines, at + [n])
  {
    TrimmedMore(values, lines, n, at);
    OthersMore(lines, n, at);
  }

  lemma {:induction false} KeptLines(lines: seq<string>) returns (at: seq<nat>)
    ensures AreLinesAt(TrimmedNonEmpty(lines), lines, at)
  {
    at := [];
    if |lines| > 0 {
      var n := |lines| - 1;
      at := KeptLines(lines[..n]);
      KeptLast(lines);
      if JsTrim(lines[n]) == "" {
        BlankLineMore(TrimmedNonEmpty(lines[..n]), lines, n, at);
      } else {
        KeptLineMore(TrimmedNonEmpty(lines[..n]), lines, n, at);
        at := at + [n];
      }
    }
  }

  /** A list field is its text's lines that are not blank, trimmed, in order. */
  lemma {:induction false} ListFieldKeepsLines(p: Platform, s: string) returns (lines: seq<string>, at: seq<nat>)
    ensures JoinLines(lines) == TextArea(p, s)
    ensures forall i :: 0 <= i < |lines| ==> HasNo(lines[i], '\n')
    ensures AreLinesAt(LineList(p, s), lines, at)
  {
    lines := Lines(TextArea(p, s));
    LinesJoin(TextArea(p, s));
    at := KeptLines(lines);
  }

  /** Each CR LF becomes one line break. */
  lemma {:induction false} CrLfShortened(a: string, b: string)
    ensures ReplaceCrLf(a + "\r\n" + b) == ReplaceCrLf(a) + "\n" + ReplaceCrLf(b)
  {
    var s := a + "\r\n" + b;
    if |a| == 0 {
      assert s == "\r\n" + b && s[2..] == b;
    } else {
      var n := if |a| >= 2 && a[0] == '\r' && a[1] == '\n' then 2 else 1;
      assert s[n..] == a[n..] + "\r\n" + b;
      CrLfShortened(a[n..], b);
      if |a| == 1 { assert a[1..] == "" && s[1] == '\r'; }
    }
  }

  // ---------- length ----------

  /** A character counts one UTF-16 unit, or two beyond the basic plane, and text the sum of these. */
  lemma {:induction false} LengthAdds(s: string, c: char)
    ensures Utf16Length("") == 0
    ensures Utf16Length(s + [c]) == Utf16Length(s) + if c as int >= 0x10000 then 2 else 1
  {
    if |s| == 0 {
      assert s + [c] == [c] && [c][1..] == "";
    } else {
      LengthAdds(s[1..], c);
      assert (s + [c])[1..] == s[1..] + [c];
    }
  }
}
