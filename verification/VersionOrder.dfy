/** The versions of a design in the order the store lists them: which come before which, and which
    are on which page. */
module VersionOrder {
  import opened Sequences
  import opened Text
  import opened Tables
  import opened ReducerRuns

  predicate Descending(rows: seq<Version>) {
    forall i, j :: 0 <= i < j < |rows| ==> Supersedes(rows[i], rows[j])
  }

  lemma {:induction false} InsertKeepsRows(rows: seq<Version>, v: Version)
    ensures multiset(InsertNewestFirst(rows, v)) == multiset(rows) + multiset{v}
  {
    if |rows| > 0 && !Supersedes(v, rows[0]) {
      InsertKeepsRows(rows[1..], v);
      assert rows == [rows[0]] + rows[1..];
    }
  }

  lemma {:induction false} LastCounted(vs: seq<Version>)
    requires |vs| > 0
    ensures multiset(vs) == multiset(vs[..|vs| - 1]) + multiset{vs[|vs| - 1]}
  {
    assert vs == vs[..|vs| - 1] + [vs[|vs| - 1]];
  }

  lemma {:induction false} NewestFirstIsPermutation(vs: seq<Version>)
    ensures multiset(NewestFirst(vs)) == multiset(vs)
  {
    if |vs| > 0 {
      NewestFirstIsPermutation(vs[..|vs| - 1]);
      InsertKeepsRows(NewestFirst(vs[..|vs| - 1]), vs[|vs| - 1]);
      LastCounted(vs);
    }
  }

  lemma {:induction false} InsertedMember(rows: seq<Version>, v: Version, w: Version)
    ensures w in InsertNewestFirst(rows, v) <==> w in rows || w == v
  {
    InsertKeepsRows(rows, v);
    assert w in InsertNewestFirst(rows, v) <==> w in multiset(InsertNewestFirst(rows, v));
    assert w in rows <==> w in multiset(rows);
  }

  predicate Sorted(rows: seq<Version>) { UniqueIds(rows) && Descending(rows) }

  lemma {:induction false} InsertSorted(rows: seq<Version>, v: Version)
    requires Sorted(rows) && forall w :: w in rows ==> w.eventId != v.eventId
    ensures Sorted(InsertNewestFirst(rows, v))
  {
    if |rows| > 0 {
      if Supersedes(v, rows[0]) {
        forall j | 1 <= j < |rows| ensures Supersedes(v, rows[j]) { SupersedesTransitive(v, rows[0], rows[j]); }
      } else {
        SupersedesTotal(v, rows[0]);
        InsertSorted(rows[1..], v);
        var rest := InsertNewestFirst(rows[1..], v);
        forall j | 0 <= j < |rest| ensures Supersedes(rows[0], rest[j]) && rest[j].eventId != rows[0].eventId {
          InsertedMember(rows[1..], v, rest[j]);
          if rest[j] != v { var k :| 0 <= k < |rows[1..]| && rows[1..][k] == rest[j]; assert rows[k + 1] == rest[j]; }
        }
      }
    }
  }

  lemma {:induction false} NewestFirstSorted(vs: seq<Version>)
    requires UniqueIds(vs)
    ensures Sorted(NewestFirst(vs))
  {
    if |vs| > 0 {
      var front, last := vs[..|vs| - 1], vs[|vs| - 1];
      NewestFirstSorted(front);
      forall w | w in NewestFirst(front) ensures w.eventId != last.eventId {
        SameMembers(front, w);
        var i :| 0 <= i < |front| && front[i] == w;
        assert vs[i] == w;
      }
      InsertSorted(NewestFirst(front), last);
    }
  }

  lemma {:induction false} SameMembers(vs: seq<Version>, w: Version)
    ensures w in NewestFirst(vs) <==> w in vs
  {
    NewestFirstIsPermutation(vs);
    assert w in NewestFirst(vs) <==> w in multiset(NewestFirst(vs));
    assert w in vs <==> w in multiset(vs);
  }

  // ---------- ranks ----------

  /** The versions of the design that `v` supersedes. */
  function Older(vs: seq<Version>, v: Version): set<Version> {
    set i | 0 <= i < |vs| && Supersedes(v, vs[i]) :: vs[i]
  }

  /** In the sorted rows exactly those after a version are older than it. */
  lemma {:induction false} OlderComeAfter(vs: seq<Version>, i: nat)
    requires UniqueIds(vs) && i < |vs|
    ensures |Older(vs, NewestFirst(vs)[i])| == |vs| - i - 1
  {
    var rows := NewestFirst(vs);
    NewestFirstSorted(vs);
    var v, after := rows[i], rows[i + 1..];
    forall w ensures w in Older(vs, v) <==> w in SetOf(after) {
      SameMembers(vs, w);
      if w in Older(vs, v) {
        var j :| 0 <= j < |rows| && rows[j] == w;
        if j < i { SupersedesTotal(rows[j], v); }
        if j == i { LessIrreflexive(v.eventId); }
        assert j > i && after[j - i - 1] == w;
      }
      if w in SetOf(after) {
        var j :| 0 <= j < |after| && after[j] == w;
        assert rows[i + 1 + j] == w;
      }
    }
    assert Older(vs, v) == SetOf(after);
    DistinctCount(after);
  }

  /** The versions of the design that supersede `v`. */
  function Newer(vs: seq<Version>, v: Version): set<Version> {
    set i | 0 <= i < |vs| && Supersedes(vs[i], v) :: vs[i]
  }

  /** In the sorted rows exactly those before a version are newer than it. */
  lemma {:induction false} NewerComeBefore(vs: seq<Version>, i: nat)
    requires UniqueIds(vs) && i < |vs|
    ensures |Newer(vs, NewestFirst(vs)[i])| == i
  {
    var rows := NewestFirst(vs);
    NewestFirstSorted(vs);
    var v, before := rows[i], rows[..i];
    forall w ensures w in Newer(vs, v) <==> w in SetOf(before) {
      SameMembers(vs, w);
      if w in Newer(vs, v) {
        var j :| 0 <= j < |rows| && rows[j] == w;
        if j > i { SupersedesTotal(v, rows[j]); }
        if j == i { LessIrreflexive(v.eventId); }
        assert j < i && before[j] == w;
      }
      if w in SetOf(before) {
        var j :| 0 <= j < |before| && before[j] == w;
        assert rows[j] == w;
      }
    }
    assert Newer(vs, v) == SetOf(before);
    DistinctCount(before);
  }

  /** A page holds exactly the versions of the design with offset to offset + limit - 1 newer ones. */
  lemma {:induction false} PageHoldsRanks(versions: seq<Version>, key: Key, limit: nat, offset: nat, v: Version)
    requires UniqueIds(Of(versions, key))
    ensures v in PageOf(versions, key, limit, offset) <==>
      v in Of(versions, key) && offset <= |Newer(Of(versions, key), v)| < offset + limit
  {
    if v in PageOf(versions, key, limit, offset) { OnPageIsRanked(versions, key, limit, offset, v); }
    if v in Of(versions, key) && offset <= |Newer(Of(versions, key), v)| < offset + limit {
      RankedIsOnPage(versions, key, limit, offset, v);
    }
  }

  lemma {:induction false} PageRow(versions: seq<Version>, key: Key, limit: nat, offset: nat, i: nat)
    requires i < |PageOf(versions, key, limit, offset)|
    ensures i < limit && offset + i < |Of(versions, key)|
    ensures PageOf(versions, key, limit, offset)[i] == NewestFirst(Of(versions, key))[offset + i]
  {
  }

  lemma {:induction false} OnPageIsRanked(versions: seq<Version>, key: Key, limit: nat, offset: nat, v: Version)
    requires UniqueIds(Of(versions, key)) && v in PageOf(versions, key, limit, offset)
    ensures v in Of(versions, key) && offset <= |Newer(Of(versions, key), v)| < offset + limit
  {
    var page := PageOf(versions, key, limit, offset);
    var i :| 0 <= i < |page| && page[i] == v;
    PageRow(versions, key, limit, offset, i);
    SameMembers(Of(versions, key), v);
    NewerComeBefore(Of(versions, key), offset + i);
  }

  lemma {:induction false} RankedIsOnPage(versions: seq<Version>, key: Key, limit: nat, offset: nat, v: Version)
    requires UniqueIds(Of(versions, key)) && v in Of(versions, key)
    requires offset <= |Newer(Of(versions, key), v)| < offset + limit
    ensures v in PageOf(versions, key, limit, offset)
  {
    var rows := NewestFirst(Of(versions, key));
    SameMembers(Of(versions, key), v);
    var i :| 0 <= i < |rows| && rows[i] == v;
    NewerComeBefore(Of(versions, key), i);
    assert PageOf(versions, key, limit, offset)[i - offset] == v;
  }
}
