/** Profiles gathered from several relays: the newest kind-0 event wins, first within each
    relay and then across relays, whatever the order of arrival. */
module ProfileMerge {
  import opened Sequences
  import opened Text
  import opened Events
  import opened Tables

  datatype Candidate = Candidate(eventId: string, createdAt: int, profile: Profile)

  type Candidates = map<string, Candidate>

  /** JSON parsing of the content: None for text that is not an object. */
  type Parser = string -> Option<Profile>

  predicate IsNewerCandidate(candidate: Candidate, current: Candidate) {
    IsNewer(candidate.createdAt, candidate.eventId, current.createdAt, current.eventId)
  }

  predicate IsProfileEvent(e: Event, parse: Parser) {
    && e.kind.EqualsZero()
    && e.id.Str? && e.pubkey.Str? && e.createdAt.IsInt() && e.content.Str?
    && parse(e.content.text).Some?
  }

  function CandidateOf(e: Event, parse: Parser): Candidate
    requires IsProfileEvent(e, parse)
  {
    Candidate(e.id.text, e.createdAt.AsInt(), parse(e.content.text).value)
  }

  function Offer(best: Candidates, pubkey: string, candidate: Candidate): Candidates {
    if pubkey !in best || IsNewerCandidate(candidate, best[pubkey]) then best[pubkey := candidate] else best
  }

  /** Folding the events a relay sent into its candidates. */
  function FromRelay(events: seq<Event>, parse: Parser): Candidates {
    if |events| == 0 then map[]
    else
      var best, e := FromRelay(events[..|events| - 1], parse), events[|events| - 1];
      if IsProfileEvent(e, parse) then Offer(best, e.pubkey.text, CandidateOf(e, parse)) else best
  }

  method FetchFromRelay(events: seq<Event>, parse: Parser) returns (candidates: Candidates)
    ensures candidates == FromRelay(events, parse)
  {
    candidates := map[];
    for i := 0 to |events|
      invariant candidates == FromRelay(events[..i], parse)
    {
      assert events[..i + 1][..i] == events[..i];
      var e := events[i];
      if !e.kind.EqualsZero() { continue; }
      if !(e.id.Str? && e.pubkey.Str? && e.createdAt.IsInt() && e.content.Str?) { continue; }
      var metadata := parse(e.content.text);
      if metadata.None? { continue; }
      var candidate := Candidate(e.id.text, e.createdAt.AsInt(), metadata.value);
      if e.pubkey.text !in candidates || IsNewerCandidate(candidate, candidates[e.pubkey.text]) {
        candidates := candidates[e.pubkey.text := candidate];
      }
    }
    assert events[..|events|] == events;
  }

  function At(m: Candidates, pubkey: string): Option<Candidate> {
    if pubkey in m then Some(m[pubkey]) else None
  }

  function Join(a: Option<Candidate>, b: Option<Candidate>): Option<Candidate> {
    if b.None? then a else if a.None? || IsNewerCandidate(b.value, a.value) then b else a
  }

  function MergeTwo(merged: Candidates, result: Candidates): (r: Candidates)
    ensures forall p :: At(r, p) == Join(At(merged, p), At(result, p))
  {
    map p | p in merged.Keys + result.Keys :: Join(At(merged, p), At(result, p)).value
  }

  /** The events of each relay that completed; a relay that failed contributes none. */
  function Merge(relays: seq<seq<Event>>, parse: Parser): Candidates {
    if |relays| == 0 then map[]
    else MergeTwo(Merge(relays[..|relays| - 1], parse), FromRelay(relays[|relays| - 1], parse))
  }

  method MergeRelays(relays: seq<seq<Event>>, parse: Parser) returns (merged: Candidates)
    ensures merged == Merge(relays, parse)
  {
    merged := map[];
    for i := 0 to |relays|
      invariant merged == Merge(relays[..i], parse)
    {
      assert relays[..i + 1][..i] == relays[..i];
      var result := FetchFromRelay(relays[i], parse);
      merged := MergeInto(merged, result);
    }
    assert relays[..|relays|] == relays;
  }

  method MergeInto(before: Candidates, result: Candidates) returns (merged: Candidates)
    ensures merged == MergeTwo(before, result)
  {
    merged := before;
    var todo := result.Keys;
    while todo != {}
      invariant todo <= result.Keys
      invariant forall p :: At(merged, p) == if p in todo then At(before, p) else Join(At(before, p), At(result, p))
      decreases |todo|
    {
      var pubkey :| pubkey in todo;
      assert At(merged, pubkey) == At(before, pubkey);
      todo := todo - {pubkey};
      var candidate := result[pubkey];
      if pubkey !in merged || IsNewerCandidate(candidate, merged[pubkey]) {
        merged := merged[pubkey := candidate];
      }
    }
    SameEverywhere(merged, MergeTwo(before, result));
  }

  lemma {:induction false} SameEverywhere(a: Candidates, b: Candidates)
    requires forall p :: At(a, p) == At(b, p)
    ensures a == b
  {
    forall p ensures (p in a <==> p in b) && (p in a ==> a[p] == b[p]) { assert At(a, p) == At(b, p); }
  }

  // ---------- one maximum over all relays ----------

  /** The candidates the events of a key amount to. */
  ghost function Pool(events: set<Event>, parse: Parser, pubkey: string): set<Candidate> {
    set e | e in events && IsProfileEvent(e, parse) && e.pubkey.text == pubkey :: CandidateOf(e, parse)
  }

  /** The greatest of the pool by (created_at, id); none exactly for the empty pool. */
  ghost predicate IsBestOf(best: Option<Candidate>, pool: set<Candidate>) {
    && (best.None? <==> pool == {})
    && (best.Some? ==> best.value in pool && forall c :: c in pool ==> !IsNewerCandidate(c, best.value))
  }

  lemma {:induction false} NewerTransitive(a: Candidate, b: Candidate, c: Candidate)
    requires !IsNewerCandidate(a, b) && !IsNewerCandidate(b, c)
    ensures !IsNewerCandidate(a, c)
  {
    LessTotal(a.eventId, b.eventId);
    LessTotal(b.eventId, c.eventId);
    if Less(c.eventId, a.eventId) {
      if Less(a.eventId, b.eventId) { LessTransitive(c.eventId, a.eventId, b.eventId); }
    }
  }

  lemma {:induction false} NewerAsymmetric(a: Candidate, b: Candidate)
    requires IsNewerCandidate(a, b)
    ensures !IsNewerCandidate(b, a)
  {
    if Less(a.eventId, b.eventId) && Less(b.eventId, a.eventId) {
      LessTransitive(a.eventId, b.eventId, a.eventId);
      LessIrreflexive(a.eventId);
    }
  }

  /** Joining the best of two pools gives the best of their union. */
  lemma {:induction false} JoinIsBest(a: Option<Candidate>, pool: set<Candidate>, b: Option<Candidate>,
      other: set<Candidate>)
    requires IsBestOf(a, pool) && IsBestOf(b, other)
    ensures IsBestOf(Join(a, b), pool + other)
  {
    if a.Some? && b.Some? {
      var best := Join(a, b).value;
      if best == b.value && IsNewerCandidate(b.value, a.value) { NewerAsymmetric(b.value, a.value); }
      forall c | c in pool + other ensures !IsNewerCandidate(c, best) {
        if c in pool && best != a.value { NewerTransitive(c, a.value, best); }
        if c in other && best != b.value { NewerTransitive(c, b.value, best); }
      }
    }
  }

  function AllSent(relays: seq<seq<Event>>): set<Event> {
    if |relays| == 0 then {} else AllSent(relays[..|relays| - 1]) + SetOf(relays[|relays| - 1])
  }

  lemma {:induction false} PoolOfUnion(a: set<Event>, b: set<Event>, parse: Parser, pubkey: string)
    ensures Pool(a + b, parse, pubkey) == Pool(a, parse, pubkey) + Pool(b, parse, pubkey)
  {
  }

  lemma {:induction false} SingleIsBest(c: Candidate)
    ensures IsBestOf(Some(c), {c})
  {
    LessIrreflexive(c.eventId);
  }

  lemma {:induction false} PoolOfOne(e: Event, parse: Parser, pubkey: string)
    ensures Pool({e}, parse, pubkey)
         == if IsProfileEvent(e, parse) && e.pubkey.text == pubkey then {CandidateOf(e, parse)} else {}
  {
  }

  lemma {:induction false} RelayIsBest(events: seq<Event>, parse: Parser, pubkey: string)
    ensures IsBestOf(At(FromRelay(events, parse), pubkey), Pool(SetOf(events), parse, pubkey))
  {
    if |events| == 0 {
      assert SetOf(events) == {};
    } else {
      var front, e := events[..|events| - 1], events[|events| - 1];
      RelayIsBest(front, parse, pubkey);
      assert SetOf(events) == SetOf(front) + {e};
      PoolOfUnion(SetOf(front), {e}, parse, pubkey);
      PoolOfOne(e, parse, pubkey);
      if IsProfileEvent(e, parse) && e.pubkey.text == pubkey {
        SingleIsBest(CandidateOf(e, parse));
        JoinIsBest(At(FromRelay(front, parse), pubkey), Pool(SetOf(front), parse, pubkey),
                   Some(CandidateOf(e, parse)), {CandidateOf(e, parse)});
      } else {
        assert Pool(SetOf(front), parse, pubkey) + {} == Pool(SetOf(front), parse, pubkey);
      }
    }
  }

  /** The two-level merge is one maximum over everything the relays sent. */
  lemma {:induction false} MergeIsBest(relays: seq<seq<Event>>, parse: Parser, pubkey: string)
    ensures IsBestOf(At(Merge(relays, parse), pubkey), Pool(AllSent(relays), parse, pubkey))
  {
    if |relays| > 0 {
      var front, events := relays[..|relays| - 1], relays[|relays| - 1];
      MergeIsBest(front, parse, pubkey);
      RelayIsBest(events, parse, pubkey);
      PoolOfUnion(AllSent(front), SetOf(events), parse, pubkey);
      JoinIsBest(At(Merge(front, parse), pubkey), Pool(AllSent(front), parse, pubkey),
                 At(FromRelay(events, parse), pubkey), Pool(SetOf(events), parse, pubkey));
    }
  }

  /** Equal time and id mean equal profile. */
  ghost predicate Unequivocal(pool: set<Candidate>) {
    forall c, d :: c in pool && d in pool && c.createdAt == d.createdAt && c.eventId == d.eventId ==> c == d
  }

  /** So the profile of a key depends only on the set of events sent, not on how the relays
      share them out or in what order they arrive. */
  lemma {:induction false} MergeIsOrderFree(a: seq<seq<Event>>, b: seq<seq<Event>>, parse: Parser, pubkey: string)
    requires AllSent(a) == AllSent(b) && Unequivocal(Pool(AllSent(a), parse, pubkey))
    ensures At(Merge(a, parse), pubkey) == At(Merge(b, parse), pubkey)
  {
    MergeIsBest(a, parse, pubkey);
    MergeIsBest(b, parse, pubkey);
    var x, y := At(Merge(a, parse), pubkey), At(Merge(b, parse), pubkey);
    if x.Some? && y.Some? {
      LessTotal(x.value.eventId, y.value.eventId);
      assert !IsNewerCandidate(x.value, y.value) && !IsNewerCandidate(y.value, x.value);
    }
  }

  // ---------- in terms of the events sent ----------

  predicate IsSent(relays: seq<seq<Event>>, e: Event) {
    exists i :: 0 <= i < |relays| && e in relays[i]
  }

  /** A kind-0 event of the key, complete, whose content parses. */
  predicate IsProfileOf(e: Event, parse: Parser, p: string) {
    && (e.kind == Int(0) || e.kind == Bool(false) || (e.kind.Float? && e.kind.isZero))
    && e.id.Str? && e.pubkey == Str(p) && (e.createdAt.Int? || e.createdAt.Bool?)
    && e.content.Str? && parse(e.content.text).Some?
  }

  /** When the event was created; `true` counts as 1. */
  function TimeOf(e: Event): int {
    if e.createdAt.Int? then e.createdAt.n else if e.createdAt == Bool(true) then 1 else 0
  }

  /** The first was created later, or as late and the second has no greater id. */
  ghost predicate IsNotOlder(e: Event, f: Event)
    requires e.id.Str? && f.id.Str?
  {
    || TimeOf(f) < TimeOf(e)
    || (TimeOf(f) == TimeOf(e)
        && (f.id.text == e.id.text || exists i: nat :: PrecedesAt(f.id.text, e.id.text, i)))
  }

  lemma {:induction false} SentIsAllSent(relays: seq<seq<Event>>, e: Event)
    ensures e in AllSent(relays) <==> IsSent(relays, e)
  {
    if |relays| > 0 {
      var front, last := relays[..|relays| - 1], relays[|relays| - 1];
      SentIsAllSent(front, e);
      if e in last { assert e in relays[|relays| - 1]; }
      if IsSent(front, e) {
        var i :| 0 <= i < |front| && e in front[i];
        assert e in relays[i];
      }
    }
  }

  lemma {:induction false} ProfileIsCandidate(e: Event, parse: Parser, p: string)
    ensures IsProfileOf(e, parse, p) <==> IsProfileEvent(e, parse) && e.pubkey.text == p
    ensures IsProfileOf(e, parse, p) ==>
      CandidateOf(e, parse) == Candidate(e.id.text, TimeOf(e), parse(e.content.text).value)
  {
  }

  lemma {:induction false} NotNewerIsNotOlder(e: Event, f: Event, parse: Parser, p: string)
    requires IsProfileOf(e, parse, p) && IsProfileOf(f, parse, p)
    requires !IsNewerCandidate(CandidateOf(f, parse), CandidateOf(e, parse))
    ensures IsNotOlder(e, f)
  {
    ProfileIsCandidate(e, parse, p);
    ProfileIsCandidate(f, parse, p);
    LessTotal(e.id.text, f.id.text);
    LessMeaning(f.id.text, e.id.text);
  }

  /** The event is the winner among those sent of the key. */
  ghost predicate IsNewestSent(relays: seq<seq<Event>>, e: Event, parse: Parser, p: string) {
    && IsSent(relays, e) && IsProfileOf(e, parse, p)
    && forall f :: IsSent(relays, f) && IsProfileOf(f, parse, p) ==> IsNotOlder(e, f)
  }

  /** The merge has a profile for a key exactly if a relay sent a profile event of it, and it is the
      content of the newest one sent, of those as new the one with the greatest id. */
  lemma {:induction false} NewestProfileWins(relays: seq<seq<Event>>, parse: Parser, p: string)
    ensures p in Merge(relays, parse) <==> exists e :: IsSent(relays, e) && IsProfileOf(e, parse, p)
    ensures p in Merge(relays, parse) ==>
      exists e :: IsNewestSent(relays, e, parse, p) && Merge(relays, parse)[p].profile == parse(e.content.text).value
  {
    var pool := Pool(AllSent(relays), parse, p);
    MergeIsBest(relays, parse, p);
    if e :| IsSent(relays, e) && IsProfileOf(e, parse, p) {
      SentIsAllSent(relays, e);
      ProfileIsCandidate(e, parse, p);
      assert CandidateOf(e, parse) in pool;
    }
    if p in Merge(relays, parse) {
      var e := WinnerIsSent(relays, parse, p);
      forall f | IsSent(relays, f) && IsProfileOf(f, parse, p) ensures IsNotOlder(e, f) {
        SentIsAllSent(relays, f);
        ProfileIsCandidate(f, parse, p);
        assert CandidateOf(f, parse) in pool;
        NotNewerIsNotOlder(e, f, parse, p);
      }
    }
  }

  lemma {:induction false} WinnerIsSent(relays: seq<seq<Event>>, parse: Parser, p: string) returns (e: Event)
    requires p in Merge(relays, parse)
    ensures IsSent(relays, e) && IsProfileOf(e, parse, p) && Merge(relays, parse)[p] == CandidateOf(e, parse)
    ensures Merge(relays, parse)[p].profile == parse(e.content.text).value
  {
    MergeIsBest(relays, parse, p);
    assert At(Merge(relays, parse), p).value in Pool(AllSent(relays), parse, p);
    e :| e in AllSent(relays) && IsProfileEvent(e, parse) && e.pubkey.text == p
         && CandidateOf(e, parse) == Merge(relays, parse)[p];
    SentIsAllSent(relays, e);
    ProfileIsCandidate(e, parse, p);
  }
}
