/** Sequences as sets, and one-or-none lists. */
module Sequences {

  predicate Distinct<T(==)>(s: seq<T>) { forall i, j :: 0 <= i < j < |s| ==> s[i] != s[j] }

  function SetOf<T>(s: seq<T>): set<T> { set i | 0 <= i < |s| :: s[i] }

  lemma {:induction false} DistinctCount<T>(s: seq<T>)
    requires Distinct(s)
    ensures |SetOf(s)| == |s|
  {
    if |s| > 0 {
      var front := s[..|s| - 1];
      DistinctCount(front);
      assert SetOf(s) == SetOf(front) + {s[|front|]};
      assert s[|front|] !in SetOf(front);
    }
  }

  lemma {:induction false} SubsetCount<T>(a: set<T>, b: set<T>)
    requires a <= b
    ensures |a| <= |b| && |b - a| == |b| - |a|
  {
    assert b == a + (b - a);
  }

  function When<T>(condition: bool, x: T): seq<T> { if condition then [x] else [] }

  method PushWhen<T>(s: seq<T>, condition: bool, x: T) returns (r: seq<T>)
    ensures r == s + When(condition, x)
  {
    r := s;
    if condition { r := r + [x]; }
  }

  lemma {:induction false} SplitLast<T>(s: seq<T>, n: nat)
    requires |s| == n + 1
    ensures s[..n] + [s[n]] == s
  {
  }

  lemma {:induction false} Associates<T>(a: seq<T>, b: seq<T>, c: seq<T>)
    ensures a + (b + c) == a + b + c
  {
  }

  lemma {:induction false} ConcatTail<T>(a: seq<T>, b: seq<T>)
    requires |a| > 0
    ensures |a + b| > 0 && (a + b)[0] == a[0] && (a + b)[1..] == a[1..] + b
  {
  }

  lemma {:induction false} InConcat<T>(a: seq<T>, b: seq<T>, x: T)
    ensures x in a + b <==> x in a || x in b
  {
  }

  lemma {:induction false} InWhen<T>(condition: bool, y: T, x: T)
    ensures x in When(condition, y) <==> condition && x == y
  {
  }

  lemma {:induction false} InFour<T>(a: seq<T>, b: seq<T>, c: seq<T>, d: seq<T>, x: T)
    ensures x in a + b + c + d <==> x in a || x in b || x in c || x in d
  {
    InConcat(a + b + c, d, x);
    InConcat(a + b, c, x);
    InConcat(a, b, x);
  }

  lemma {:induction false} InSeven<T>(
    a: seq<T>, b: seq<T>, c: seq<T>, d: seq<T>, e: seq<T>, f: seq<T>, g: seq<T>, x: T)
    ensures x in a + b + c + d + e + f + g <==>
      x in a || x in b || x in c || x in d || x in e || x in f || x in g
  {
    InConcat(a + b + c + d + e + f, g, x);
    InConcat(a + b + c + d + e, f, x);
    InConcat(a + b + c + d, e, x);
    InFour(a, b, c, d, x);
  }

  /** In the order of their ranks, all of which lie in the given range. */
  predicate Ascending<T>(s: seq<T>, rank: T -> nat, low: nat, high: nat) {
    && (forall i :: 0 <= i < |s| ==> low <= rank(s[i]) <= high)
    && forall i, j :: 0 <= i < j < |s| ==> rank(s[i]) <= rank(s[j])
  }

  lemma {:induction false} AscendingConcat<T>(
    a: seq<T>, b: seq<T>, rank: T -> nat, low: nat, below: nat, above: nat, high: nat)
    requires Ascending(a, rank, low, below) && Ascending(b, rank, above, high) && low <= below <= above <= high
    ensures Ascending(a + b, rank, low, high)
  {
  }

  lemma {:induction false} AscendingWhen<T>(condition: bool, x: T, rank: T -> nat)
    ensures Ascending(When(condition, x), rank, rank(x), rank(x))
  {
  }

  lemma {:induction false} AscendingFour<T>(
    a: seq<T>, b: seq<T>, c: seq<T>, d: seq<T>, rank: T -> nat, low: nat, n: nat)
    requires Ascending(a, rank, low, n) && Ascending(b, rank, n + 1, n + 1) && low <= n
    requires Ascending(c, rank, n + 2, n + 2) && Ascending(d, rank, n + 3, n + 3)
    ensures Ascending(a + b + c + d, rank, low, n + 3)
  {
    AscendingConcat(a, b, rank, low, n, n + 1, n + 1);
    AscendingConcat(a + b, c, rank, low, n + 1, n + 2, n + 2);
    AscendingConcat(a + b + c, d, rank, low, n + 2, n + 3, n + 3);
  }

  lemma {:induction false} AscendingSeven<T>(
    a: seq<T>, b: seq<T>, c: seq<T>, d: seq<T>, e: seq<T>, f: seq<T>, g: seq<T>, rank: T -> nat, low: nat, n: nat)
    requires Ascending(a, rank, low, n) && Ascending(b, rank, n + 1, n + 1) && low <= n
    requires Ascending(c, rank, n + 2, n + 2) && Ascending(d, rank, n + 3, n + 3)
    requires Ascending(e, rank, n + 4, n + 4) && Ascending(f, rank, n + 5, n + 5) && Ascending(g, rank, n + 6, n + 6)
    ensures Ascending(a + b + c + d + e + f + g, rank, low, n + 6)
  {
    AscendingFour(a, b, c, d, rank, low, n);
    AscendingFour(a + b + c + d, e, f, g, rank, low, n + 3);
  }
}
