/** The version page against an unchanged database: the client refuses some designs and drops some
    versions, so what the page shows and how it numbers it depends on which those are. */
module VersionPages {
  import opened Text
  import opened Events
  import opened Tables
  import opened ReducerRuns
  import opened DesignDetail
  import opened VersionOrder
  import opened VersionSearch

  // ---------- what the client makes of a row ----------

  /** The parser: an item, or None where the row is dropped from the list. */
  function Parse(v: Version): Option<Item> {
    if JsTrim(v.eventId) == "" || ParsePubkey(v.pubkey).None? || JsTrim(v.designId) == "" || HasBlankKey(v.raw.tags)
    then None
    else Some(Item(JsTrim(v.eventId)))
  }

  function Parsed(rows: seq<Version>): (r: seq<Option<Item>>)
    ensures |r| == |rows| && forall i :: 0 <= i < |rows| ==> r[i] == Parse(rows[i])
  {
    seq(|rows|, i requires 0 <= i < |rows| => Parse(rows[i]))
  }

  /** The items that are left. */
  function Kept(slots: seq<Option<Item>>): (r: seq<Item>)
    ensures |r| <= |slots|
  {
    if |slots| == 0 then []
    else
      var last := slots[|slots| - 1];
      Kept(slots[..|slots| - 1]) + if last.Some? then [last.value] else []
  }

  function Dropped(slots: seq<Option<Item>>): nat { |slots| - |Kept(slots)| }

  /** The versions endpoint over an unchanged log, through the client's parser: it answers limits
      of 1 to 100 and offsets from 0, and echoes them. */
  function StoreAnswers(versions: seq<Version>, key: Key): Answers {
    (call, limit, offset) =>
      if 1 <= limit <= 100 && offset >= 0
      then Page(Kept(Parsed(PageOf(versions, key, limit, offset))), |Of(versions, key)|, limit, offset)
      else NoPage("422")
  }

  /** One request for a page, through the store's query and the client's parser. */
  method FetchVersions(store: SqliteStore, key: Key, limit: int, offset: int) returns (page: Page)
    ensures forall call: nat :: page == StoreAnswers(store.versions, key)(call, limit, offset)
  {
    if !(1 <= limit <= 100 && offset >= 0) { return NoPage("422"); }
    var rows, total := store.ListDesignVersions(key.pubkey, key.designId, limit, offset);
    page := Page(Kept(Parsed(rows)), total, limit, offset);
  }

  function Listed(versions: seq<Version>, key: Key): seq<Option<Item>> { Parsed(NewestFirst(Of(versions, key))) }

  function Window(slots: seq<Option<Item>>, offset: nat, size: nat): seq<Option<Item>>
    requires offset <= |slots|
  {
    slots[offset..Min(offset + size, |slots|)]
  }

  /** The answers are slices of one unchanging list, without the dropped rows. */
  ghost predicate Serves(answers: Answers, slots: seq<Option<Item>>) {
    forall call: nat, limit, offset :: 1 <= limit <= 100 && 0 <= offset <= |slots| ==>
      answers(call, limit, offset) == Page(Kept(Window(slots, offset, limit)), |slots|, limit, offset)
  }

  lemma {:induction false} StoreServes(versions: seq<Version>, key: Key)
    ensures ServesStore(StoreAnswers(versions, key), versions, key)
  {
    var rows := NewestFirst(Of(versions, key));
    forall offset: nat, limit: nat | offset <= |rows|
      ensures Parsed(PageOf(versions, key, limit, offset)) == Window(Parsed(rows), offset, limit)
    {
    }
  }

  /** The answers come from an unchanging store. */
  ghost predicate ServesStore(answers: Answers, versions: seq<Version>, key: Key) {
    Serves(answers, Listed(versions, key))
  }

  // ---------- matching ----------

  predicate Shows(slot: Option<Item>, wanted: string) { slot.Some? && slot.value.eventId == wanted }

  /** The first row that parses to the wanted id; the number of rows if there is none. */
  function FirstMatch(slots: seq<Option<Item>>, wanted: string): (m: nat)
    ensures m <= |slots|
    ensures forall i :: 0 <= i < m ==> !Shows(slots[i], wanted)
    ensures m < |slots| ==> Shows(slots[m], wanted)
  {
    if |slots| == 0 || Shows(slots[0], wanted) then 0 else 1 + FirstMatch(slots[1..], wanted)
  }

  lemma {:induction false} KeptConcat(a: seq<Option<Item>>, b: seq<Option<Item>>)
    ensures Kept(a + b) == Kept(a) + Kept(b)
  {
    if |b| == 0 {
      assert a + b == a;
    } else {
      assert (a + b)[..|a + b| - 1] == a + b[..|b| - 1];
      KeptConcat(a, b[..|b| - 1]);
    }
  }

  lemma {:induction false} KeptWithout(slots: seq<Option<Item>>, wanted: string)
    requires forall i :: 0 <= i < |slots| ==> !Shows(slots[i], wanted)
    ensures forall j :: 0 <= j < |Kept(slots)| ==> Kept(slots)[j].eventId != wanted
  {
    if |slots| > 0 {
      var front := slots[..|slots| - 1];
      assert forall i :: 0 <= i < |front| ==> front[i] == slots[i];
      KeptWithout(front, wanted);
    }
  }

  lemma {:induction false} IndexIs(items: seq<Item>, at: nat, id: string)
    requires at < |items| && items[at].eventId == id && forall j :: 0 <= j < at ==> items[j].eventId != id
    ensures IndexOf(items, id) == at
  {
  }

  lemma {:induction false} KeptSplit(slots: seq<Option<Item>>, m: nat)
    requires m < |slots| && slots[m].Some?
    ensures |Kept(slots[..m])| < |Kept(slots)| && Kept(slots)[|Kept(slots[..m])|] == slots[m].value
    ensures forall j :: 0 <= j < |Kept(slots[..m])| ==> Kept(slots)[j] == Kept(slots[..m])[j]
  {
    assert slots == slots[..m] + ([slots[m]] + slots[m + 1..]);
    KeptConcat(slots[..m], [slots[m]] + slots[m + 1..]);
    KeptConcat([slots[m]], slots[m + 1..]);
    assert [slots[m]][..0] == [];
    assert Kept([slots[m]]) == [slots[m].value];
  }

  /** Among the kept items the match stands as far in as rows before it are kept. */
  lemma {:induction false} MatchInKept(slots: seq<Option<Item>>, wanted: string, m: nat)
    requires m < |slots| && Shows(slots[m], wanted) && forall i :: 0 <= i < m ==> !Shows(slots[i], wanted)
    ensures IndexOf(Kept(slots), wanted) == |Kept(slots[..m])| < |Kept(slots)|
  {
    KeptSplit(slots, m);
    KeptWithout(slots[..m], wanted);
    IndexIs(Kept(slots), |Kept(slots[..m])|, wanted);
  }

  lemma {:induction false} NoMatchInKept(slots: seq<Option<Item>>, wanted: string)
    requires forall i :: 0 <= i < |slots| ==> !Shows(slots[i], wanted)
    ensures IndexOf(Kept(slots), wanted) == |Kept(slots)|
  {
    KeptWithout(slots, wanted);
  }

  // ---------- the paging loop ----------

  /** Where the page of a row starts: the first page has 30 rows, the others 100. */
  function PageStart(m: nat): (s: nat)
    ensures s <= m
  {
    if m < FIRST_PAGE_SIZE then 0
    else FIRST_PAGE_SIZE + (m - FIRST_PAGE_SIZE) / LOOKUP_PAGE_SIZE * LOOKUP_PAGE_SIZE
  }

  /** A page the search gives up at: none of its rows parses. */
  predicate IsBlank(slots: seq<Option<Item>>, s: nat)
    requires s <= |slots|
  {
    |Kept(Window(slots, s, LOOKUP_PAGE_SIZE))| == 0
  }

  function LookupStart(k: nat): nat { FIRST_PAGE_SIZE + k * LOOKUP_PAGE_SIZE }

  /** No page the search asks for between page k and the page of row m is blank. */
  ghost predicate Reaches(slots: seq<Option<Item>>, k: nat, m: nat)
    requires m <= |slots|
  {
    forall j: nat :: k <= j && LookupStart(j) + LOOKUP_PAGE_SIZE <= m ==> !IsBlank(slots, LookupStart(j))
  }

  ghost predicate IsReached(slots: seq<Option<Item>>, m: nat)
    requires m <= |slots|
  {
    Reaches(slots, 0, m)
  }

  predicate IsMatch(slots: seq<Option<Item>>, wanted: string, m: nat) {
    && m <= |slots| && (m < |slots| ==> Shows(slots[m], wanted))
    && forall i :: 0 <= i < m ==> !Shows(slots[i], wanted)
  }

  function FoundAt(slots: seq<Option<Item>>, m: nat): Search
    requires m < |slots|
  {
    var s := PageStart(m);
    Found(Kept(Window(slots, s, LOOKUP_PAGE_SIZE)), s, |Kept(slots[s..m])|)
  }

  lemma {:induction false} PageStartIs(k: nat, m: nat)
    requires LookupStart(k) <= m < LookupStart(k + 1)
    ensures PageStart(m) == LookupStart(k)
  {
    var n := m - FIRST_PAGE_SIZE;
    assert n == 100 * (n / 100) + n % 100 && 100 * k <= n < 100 * k + 100;
  }

  lemma {:induction false} WindowPrefix(slots: seq<Option<Item>>, s: nat, size: nat, m: nat)
    requires s <= m < |slots| && m < s + size
    ensures m - s < |Window(slots, s, size)| && Window(slots, s, size)[m - s] == slots[m]
    ensures Window(slots, s, size)[..m - s] == slots[s..m]
  {
    var w := Window(slots, s, size);
    assert |w| > m - s;
    forall i | 0 <= i < |w| ensures w[i] == slots[s + i] {}
    assert w[..m - s] == slots[s..m];
  }

  /** One turn of the loop. */
  lemma {:induction false} LookupTurn(answers: Answers, slots: seq<Option<Item>>, call: nat, s: nat, wanted: string)
    requires Serves(answers, slots) && s < |slots|
    ensures var items := Kept(Window(slots, s, LOOKUP_PAGE_SIZE));
            Lookup(answers, call, |slots|, s, wanted)
            == if IndexOf(items, wanted) < |items| then Found(items, s, IndexOf(items, wanted))
               else if |items| == 0 then Search.Missing
               else Lookup(answers, call + 1, |slots|, s + LOOKUP_PAGE_SIZE, wanted)
  {
    assert answers(call, LOOKUP_PAGE_SIZE, s)
        == Page(Kept(Window(slots, s, LOOKUP_PAGE_SIZE)), |slots|, LOOKUP_PAGE_SIZE, s);
  }

  lemma {:induction false} TurnFinds(
    answers: Answers, slots: seq<Option<Item>>, call: nat, k: nat, wanted: string, m: nat)
    requires Serves(answers, slots) && IsMatch(slots, wanted, m) && m < |slots|
    requires LookupStart(k) <= m < LookupStart(k + 1)
    ensures Lookup(answers, call, |slots|, LookupStart(k), wanted) == FoundAt(slots, m)
  {
    var s := LookupStart(k);
    LookupTurn(answers, slots, call, s, wanted);
    PageStartIs(k, m);
    WindowPrefix(slots, s, LOOKUP_PAGE_SIZE, m);
    MatchInKept(Window(slots, s, LOOKUP_PAGE_SIZE), wanted, m - s);
  }

  lemma {:induction false} TurnPasses(
    answers: Answers, slots: seq<Option<Item>>, call: nat, k: nat, wanted: string, m: nat)
    requires Serves(answers, slots) && IsMatch(slots, wanted, m) && LookupStart(k) < |slots|
    requires m == |slots| || LookupStart(k + 1) <= m
    ensures Lookup(answers, call, |slots|, LookupStart(k), wanted)
         == if IsBlank(slots, LookupStart(k)) then Search.Missing
            else Lookup(answers, call + 1, |slots|, LookupStart(k + 1), wanted)
  {
    var s := LookupStart(k);
    LookupTurn(answers, slots, call, s, wanted);
    NoMatchInKept(Window(slots, s, LOOKUP_PAGE_SIZE), wanted);
  }

  lemma {:induction false} ReachesStep(slots: seq<Option<Item>>, k: nat, m: nat)
    requires m <= |slots| && LookupStart(k + 1) <= m
    ensures Reaches(slots, k, m) <==> !IsBlank(slots, LookupStart(k)) && Reaches(slots, k + 1, m)
  {
    forall j: nat
      | k <= j && LookupStart(j) + LOOKUP_PAGE_SIZE <= m && !IsBlank(slots, LookupStart(k)) && Reaches(slots, k + 1, m)
      ensures !IsBlank(slots, LookupStart(j))
    {
      if j > k { assert k + 1 <= j; }
    }
  }

  /** From page k on, the loop finds the first match if no page before its own is blank. */
  lemma {:induction false} LookupResult(
    answers: Answers, slots: seq<Option<Item>>, call: nat, k: nat, wanted: string, m: nat)
    requires Serves(answers, slots) && IsMatch(slots, wanted, m) && (m == |slots| || LookupStart(k) <= m)
    ensures Lookup(answers, call, |slots|, LookupStart(k), wanted)
         == if m < |slots| && Reaches(slots, k, m) then FoundAt(slots, m) else Search.Missing
    decreases |slots| - LookupStart(k)
  {
    if LookupStart(k) < |slots| {
      if m < LookupStart(k + 1) && m < |slots| {
        TurnFinds(answers, slots, call, k, wanted, m);
      } else {
        TurnPasses(answers, slots, call, k, wanted, m);
        LookupResult(answers, slots, call + 1, k + 1, wanted, m);
        if m < |slots| { ReachesStep(slots, k, m); }
      }
    }
  }

  // ---------- the page shown ----------

  /** How many rows above row m of its page the client drops. */
  function DroppedAbove(slots: seq<Option<Item>>, m: nat): nat
    requires m <= |slots|
  {
    Dropped(slots[PageStart(m)..m])
  }

  /** The view of row m: its number is the total less its place among what is left of its page. */
  predicate ShowsRow(view: View, slots: seq<Option<Item>>, m: nat)
    requires m < |slots|
  {
    && view.ValidPage? && slots[m] == Some(view.selected) && view.total == |slots|
    && view.number == Some(|slots| - m + DroppedAbove(slots, m))
  }

  lemma {:induction false} FirstPageServed(answers: Answers, slots: seq<Option<Item>>)
    requires Serves(answers, slots)
    ensures answers(0, FIRST_PAGE_SIZE, 0) == Page(Kept(Window(slots, 0, FIRST_PAGE_SIZE)), |slots|, FIRST_PAGE_SIZE, 0)
  {
  }

  lemma {:induction false} OnFirstPage(answers: Answers, slots: seq<Option<Item>>, wanted: string, m: nat)
    requires Serves(answers, slots) && IsMatch(slots, wanted, m) && m < |slots| && m < FIRST_PAGE_SIZE
    ensures ShowsRow(ShowVersion(answers, Some(wanted)), slots, m) && IsReached(slots, m)
  {
    FirstPageServed(answers, slots);
    WindowPrefix(slots, 0, FIRST_PAGE_SIZE, m);
    MatchInKept(Window(slots, 0, FIRST_PAGE_SIZE), wanted, m);
  }

  function FirstPage(slots: seq<Option<Item>>): Page {
    Page(Kept(Window(slots, 0, FIRST_PAGE_SIZE)), |slots|, FIRST_PAGE_SIZE, 0)
  }

  /** Without a match on the first page the loop decides. */
  lemma {:induction false} AsksOn(answers: Answers, slots: seq<Option<Item>>, wanted: string, m: nat)
    requires Serves(answers, slots) && IsMatch(slots, wanted, m) && (m == |slots| || FIRST_PAGE_SIZE <= m)
    ensures ShowVersion(answers, Some(wanted))
         == Conclude(FirstPage(slots), Lookup(answers, 1, |slots|, FIRST_PAGE_SIZE, wanted), Some(wanted))
  {
    FirstPageServed(answers, slots);
    NoMatchInKept(Window(slots, 0, FIRST_PAGE_SIZE), wanted);
  }

  lemma {:induction false} FoundIsInPage(slots: seq<Option<Item>>, m: nat)
    requires FIRST_PAGE_SIZE <= m < |slots| && slots[m].Some?
    ensures var found := FoundAt(slots, m);
            found.at < |found.items| && slots[m] == Some(found.items[found.at])
  {
    var s := PageStart(m);
    assert s <= m < s + LOOKUP_PAGE_SIZE;
    WindowPrefix(slots, s, LOOKUP_PAGE_SIZE, m);
    KeptSplit(Window(slots, s, LOOKUP_PAGE_SIZE), m - s);
  }

  lemma {:induction false} FoundIsShown(slots: seq<Option<Item>>, wanted: string, m: nat)
    requires FIRST_PAGE_SIZE <= m < |slots| && slots[m].Some?
    ensures FoundAt(slots, m).at < |FoundAt(slots, m).items|
    ensures ShowsRow(Conclude(FirstPage(slots), FoundAt(slots, m), Some(wanted)), slots, m)
  {
    FoundIsInPage(slots, m);
  }

  lemma {:induction false} BeyondFirstPage(answers: Answers, slots: seq<Option<Item>>, wanted: string, m: nat)
    requires Serves(answers, slots) && IsMatch(slots, wanted, m) && (m == |slots| || FIRST_PAGE_SIZE <= m)
    ensures var view := ShowVersion(answers, Some(wanted));
            if m < |slots| && IsReached(slots, m) then ShowsRow(view, slots, m) else view == ErrorPage(VersionNotFound)
  {
    AsksOn(answers, slots, wanted, m);
    LookupResult(answers, slots, 1, 0, wanted, m);
    if m < |slots| { FoundIsShown(slots, wanted, m); }
  }

  /** The search decides exactly this: the first row that parses to the wanted id is shown, unless
      a page before its own is blank; and nothing else ever is. */
  lemma {:induction false} SearchOutcome(answers: Answers, slots: seq<Option<Item>>, wanted: string)
    requires Serves(answers, slots)
    ensures var m, view := FirstMatch(slots, wanted), ShowVersion(answers, Some(wanted));
            if m < |slots| && IsReached(slots, m) then ShowsRow(view, slots, m) else view == ErrorPage(VersionNotFound)
  {
    var m := FirstMatch(slots, wanted);
    if m < |slots| && m < FIRST_PAGE_SIZE {
      OnFirstPage(answers, slots, wanted, m);
    } else {
      BeyondFirstPage(answers, slots, wanted, m);
    }
  }

  // ---------- a request that fails ----------

  /** The first n requests are answered from the list, and the next one fails. */
  ghost predicate FailsAfter(answers: Answers, slots: seq<Option<Item>>, n: nat, error: string) {
    && (forall call: nat, limit, offset :: call < n && 1 <= limit <= 100 && 0 <= offset <= |slots| ==>
          answers(call, limit, offset) == Page(Kept(Window(slots, offset, limit)), |slots|, limit, offset))
    && forall limit, offset :: answers(n, limit, offset) == NoPage(error)
  }

  /** No page before page k shows the wanted id or is blank. */
  ghost predicate Passes(slots: seq<Option<Item>>, wanted: string, k: nat) {
    && LookupStart(k) < |slots| && (forall i :: 0 <= i < LookupStart(k) ==> !Shows(slots[i], wanted))
    && forall j: nat :: j < k ==> !IsBlank(slots, LookupStart(j))
  }

  lemma {:induction false} PageWithout(slots: seq<Option<Item>>, wanted: string, s: nat, size: nat)
    requires s + size <= |slots| && forall i :: 0 <= i < s + size ==> !Shows(slots[i], wanted)
    ensures IndexOf(Kept(Window(slots, s, size)), wanted) == |Kept(Window(slots, s, size))|
  {
    var w := Window(slots, s, size);
    forall i | 0 <= i < |w| ensures !Shows(w[i], wanted) { assert w[i] == slots[s + i]; }
    NoMatchInKept(w, wanted);
  }

  lemma {:induction false} PassOn(answers: Answers, slots: seq<Option<Item>>, wanted: string, n: nat, k: nat,
    error: string)
    requires FailsAfter(answers, slots, n, error) && k + 1 < n && Passes(slots, wanted, n - 1)
    ensures Lookup(answers, k + 1, |slots|, LookupStart(k), wanted)
         == Lookup(answers, k + 2, |slots|, LookupStart(k + 1), wanted)
  {
    var s := LookupStart(k);
    assert s + LOOKUP_PAGE_SIZE <= LookupStart(n - 1);
    assert answers(k + 1, LOOKUP_PAGE_SIZE, s)
        == Page(Kept(Window(slots, s, LOOKUP_PAGE_SIZE)), |slots|, LOOKUP_PAGE_SIZE, s);
    PageWithout(slots, wanted, s, LOOKUP_PAGE_SIZE);
    assert !IsBlank(slots, LookupStart(k));
  }

  lemma {:induction false} LookupBreaks(answers: Answers, slots: seq<Option<Item>>, wanted: string, n: nat, k: nat,
    error: string)
    requires FailsAfter(answers, slots, n, error) && k + 1 <= n && Passes(slots, wanted, n - 1)
    ensures Lookup(answers, k + 1, |slots|, LookupStart(k), wanted) == Broken(error)
    decreases n - k
  {
    if k + 1 < n {
      PassOn(answers, slots, wanted, n, k, error);
      LookupBreaks(answers, slots, wanted, n, k + 1, error);
    }
  }

  /** When a request fails that the search cannot do without, the page says so: not that the version
      does not exist. */
  lemma {:induction false} FailureIsReported(answers: Answers, slots: seq<Option<Item>>, requested: Option<string>,
    n: nat, error: string)
    requires FailsAfter(answers, slots, n, error)
    requires n > 0 ==> requested.Some? && Passes(slots, requested.value, n - 1)
    ensures ShowVersion(answers, requested) == ErrorPage(HistoryUnavailable(error))
  {
    if n > 0 {
      assert answers(0, FIRST_PAGE_SIZE, 0) == FirstPage(slots);
      assert FIRST_PAGE_SIZE <= LookupStart(n - 1);
      PageWithout(slots, requested.value, 0, FIRST_PAGE_SIZE);
      LookupBreaks(answers, slots, requested.value, n, 0, error);
    }
  }

  // ---------- main results ----------

  /** The page shows the wanted id, under 1 plus how many versions are older plus how many rows are
      dropped above it. */
  predicate IsNumbered(view: View, wanted: string, older: nat, dropped: nat) {
    view.ValidPage? && view.selected == Item(wanted) && view.number == Some(1 + older + dropped)
  }

  /** Row m is listed, and the search gets that far. */
  ghost predicate IsFound(slots: seq<Option<Item>>, m: nat) { m < |slots| && IsReached(slots, m) }

  lemma {:induction false} NumberOf(view: View, slots: seq<Option<Item>>, m: nat, wanted: string, older: nat)
    requires m < |slots| && ShowsRow(view, slots, m) && Shows(slots[m], wanted) && older + m + 1 == |slots|
    ensures IsNumbered(view, wanted, older, DroppedAbove(slots, m))
  {
  }

  /** How many versions of the design are older than the one in row m. */
  function OlderThanRow(versions: seq<Version>, key: Key, m: nat): nat
    requires m < |Listed(versions, key)|
  {
    |Older(Of(versions, key), NewestFirst(Of(versions, key))[m])|
  }

  lemma {:induction false} OlderCount(versions: seq<Version>, key: Key, m: nat)
    requires UniqueIds(Of(versions, key)) && m < |Listed(versions, key)|
    ensures OlderThanRow(versions, key, m) + m + 1 == |Listed(versions, key)|
  {
    OlderComeAfter(Of(versions, key), m);
  }

  /** What the page shows of a design, by the key its address decodes to. */
  function DesignPage(db: Db, key: Key, answers: Answers, requested: Option<string>): View {
    PageView(DesignAnswerOf(db, key), answers, requested)
  }

  /** The page with no version requested. */
  function LatestPage(db: Db, key: Key, answers: Answers): View { DesignPage(db, key, answers, None) }

  predicate IsServed(db: Db, key: Key) { DesignAnswerOf(db, key).Served? }

  /** The error page of a design that does not reach the client: not found if there is no row or its key
      has no npub, unavailable if the client's parser refuses it. */
  predicate ShowsNoDesign(view: View, db: Db, key: Key) {
    var isKnown := key in db.designs && HasNpub(db.designs[key].pubkey);
    view == ErrorPage(if isKnown then DesignUnavailable else DesignNotFound)
  }

  /** What the page does before it searches: a design the client does not get has an error page, and
      a blank request is as good as none. */
  lemma {:induction false} BeforeTheSearch(db: Db, key: Key, answers: Answers, requested: string)
    ensures var view := DesignPage(db, key, answers, Some(requested));
            && (!IsServed(db, key) ==> ShowsNoDesign(view, db, key))
            && (JsTrim(requested) == "" ==> view == LatestPage(db, key, answers))
            && (IsServed(db, key) && JsTrim(requested) != "" ==> view == ShowVersion(answers, Some(JsTrim(requested))))
  {
  }

  lemma {:induction false} SearchNumbers(answers: Answers, versions: seq<Version>, key: Key, wanted: string)
    requires ServesStore(answers, versions, key) && UniqueIds(Of(versions, key))
    ensures var slots, view := Listed(versions, key), ShowVersion(answers, Some(wanted));
            var m := FirstMatch(slots, wanted);
            if IsFound(slots, m) then IsNumbered(view, wanted, OlderThanRow(versions, key, m), DroppedAbove(slots, m))
            else view == ErrorPage(VersionNotFound)
  {
    var slots := Listed(versions, key);
    var m := FirstMatch(slots, wanted);
    SearchOutcome(answers, slots, wanted);
    if IsFound(slots, m) {
      OlderCount(versions, key, m);
      NumberOf(ShowVersion(answers, Some(wanted)), slots, m, wanted, OlderThanRow(versions, key, m));
    }
  }

  /** Against an unchanged database the page decides exactly this, of any request that is not blank:
      if the design reaches the client, the newest version that parses to the trimmed request is
      shown, unless a page before its own has no row that parses. */
  lemma {:induction false} RequestedVersion(db: Db, key: Key, answers: Answers, requested: string)
    requires ServesStore(answers, db.versions, key) && UniqueIds(db.versions) && JsTrim(requested) != ""
    ensures var slots, wanted := Listed(db.versions, key), JsTrim(requested);
            var m, view := FirstMatch(slots, wanted), DesignPage(db, key, answers, Some(requested));
            if !IsServed(db, key) then ShowsNoDesign(view, db, key)
            else if IsFound(slots, m)
            then IsNumbered(view, wanted, OlderThanRow(db.versions, key, m), DroppedAbove(slots, m))
            else view == ErrorPage(VersionNotFound)
  {
    OfUnique(db.versions, key);
    BeforeTheSearch(db, key, answers, requested);
    SearchNumbers(answers, db.versions, key, JsTrim(requested));
  }

  /** No other version of the design has this id for the client. */
  predicate IsOnlyOne(vs: seq<Version>, v: Version) {
    forall i :: 0 <= i < |vs| && Parse(vs[i]) == Some(Item(JsTrim(v.eventId))) ==> vs[i] == v
  }

  lemma {:induction false} MatchOf(versions: seq<Version>, key: Key, v: Version)
    requires UniqueIds(Of(versions, key)) && v in Of(versions, key) && IsOnlyOne(Of(versions, key), v)
    ensures FirstMatch(Listed(versions, key), JsTrim(v.eventId))
         == if Parse(v).Some? then |Newer(Of(versions, key), v)| else |Listed(versions, key)|
    ensures |Newer(Of(versions, key), v)| < |Of(versions, key)|
    ensures NewestFirst(Of(versions, key))[|Newer(Of(versions, key), v)|] == v
  {
    var vs := Of(versions, key);
    var rows, m := NewestFirst(vs), FirstMatch(Listed(versions, key), JsTrim(v.eventId));
    SameMembers(vs, v);
    var i :| 0 <= i < |rows| && rows[i] == v;
    NewerComeBefore(vs, i);
    if m < |rows| {
      SameMembers(vs, rows[m]);
      assert rows[m] == v;
      NewerComeBefore(vs, m);
    }
  }

  /** A stored version is shown when requested if and only if the design reaches the client, the
      version parses, and no page before its own is blank. So its number is right if and only if no
      row above it is dropped. */
  lemma {:induction false} StoredVersionIsShown(db: Db, key: Key, answers: Answers, v: Version)
    requires ServesStore(answers, db.versions, key) && UniqueIds(db.versions)
    requires v in Of(db.versions, key) && IsOnlyOne(Of(db.versions, key), v)
    ensures var slots, view := Listed(db.versions, key), DesignPage(db, key, answers, Some(v.eventId));
            var vs := Of(db.versions, key);
            var i := |Newer(vs, v)|;
            if !IsServed(db, key) then ShowsNoDesign(view, db, key)
            else if JsTrim(v.eventId) == "" then view == LatestPage(db, key, answers) && Parse(v).None?
            else if Parse(v).Some? && IsFound(slots, i)
            then IsNumbered(view, JsTrim(v.eventId), |Older(vs, v)|, DroppedAbove(slots, i))
            else view == ErrorPage(VersionNotFound)
  {
    OfUnique(db.versions, key);
    MatchOf(db.versions, key, v);
    BeforeTheSearch(db, key, answers, v.eventId);
    if JsTrim(v.eventId) != "" { RequestedVersion(db, key, answers, v.eventId); }
  }

  /** Nothing is ever shown under an id that no stored version parses to. */
  lemma {:induction false} OnlyStoredVersionsAreShown(db: Db, key: Key, answers: Answers, requested: string)
    requires ServesStore(answers, db.versions, key) && UniqueIds(db.versions)
    requires JsTrim(requested) != "" && DesignPage(db, key, answers, Some(requested)).ValidPage?
    ensures IsServed(db, key)
    ensures exists v :: v in Of(db.versions, key) && Parse(v) == Some(Item(JsTrim(requested)))
  {
    RequestedVersion(db, key, answers, requested);
    var m := FirstMatch(Listed(db.versions, key), JsTrim(requested));
    SameMembers(Of(db.versions, key), NewestFirst(Of(db.versions, key))[m]);
  }

  predicate AllSome(slots: seq<Option<Item>>) { forall i :: 0 <= i < |slots| ==> slots[i].Some? }

  lemma {:induction false} AllKept(slots: seq<Option<Item>>)
    requires AllSome(slots)
    ensures |Kept(slots)| == |slots|
  {
    if |slots| > 0 { AllKept(slots[..|slots| - 1]); }
  }

  lemma {:induction false} AllReached(slots: seq<Option<Item>>, m: nat)
    requires AllSome(slots) && m <= |slots|
    ensures IsReached(slots, m) && DroppedAbove(slots, m) == 0
  {
    forall j: nat | LookupStart(j) + LOOKUP_PAGE_SIZE <= m ensures !IsBlank(slots, LookupStart(j)) {
      AllKept(Window(slots, LookupStart(j), LOOKUP_PAGE_SIZE));
    }
    AllKept(slots[PageStart(m)..m]);
  }

  predicate AllParse(vs: seq<Version>) { forall i :: 0 <= i < |vs| ==> Parse(vs[i]).Some? }

  /** The ids stay different without the blanks around them. */
  predicate DistinctTrimmed(vs: seq<Version>) {
    forall i, j :: 0 <= i < j < |vs| ==> JsTrim(vs[i].eventId) != JsTrim(vs[j].eventId)
  }

  lemma {:induction false} ListedAllParse(versions: seq<Version>, key: Key)
    requires AllParse(Of(versions, key))
    ensures AllSome(Listed(versions, key))
  {
    var vs := Of(versions, key);
    var rows := NewestFirst(vs);
    forall i | 0 <= i < |rows| ensures Parse(rows[i]).Some? {
      SameMembers(vs, rows[i]);
      var j :| 0 <= j < |vs| && vs[j] == rows[i];
    }
  }

  lemma {:induction false} DistinctIsOnlyOne(vs: seq<Version>, v: Version)
    requires DistinctTrimmed(vs) && AllParse(vs) && v in vs
    ensures IsOnlyOne(vs, v) && Parse(v).Some?
  {
    var k :| 0 <= k < |vs| && vs[k] == v;
    forall i | 0 <= i < |vs| && Parse(vs[i]) == Some(Item(JsTrim(v.eventId))) ensures vs[i] == v {
      assert JsTrim(vs[i].eventId) == JsTrim(vs[k].eventId);
    }
  }

  /** When a design reaches the client and every version of it parses, under ids that stay different
      when trimmed, every stored version is shown under 1 plus the number of older ones. */
  lemma {:induction false} WhenAllParse(db: Db, key: Key, answers: Answers, v: Version)
    requires ServesStore(answers, db.versions, key) && UniqueIds(db.versions) && IsServed(db, key)
    requires AllParse(Of(db.versions, key)) && DistinctTrimmed(Of(db.versions, key)) && v in Of(db.versions, key)
    ensures IsNumbered(DesignPage(db, key, answers, Some(v.eventId)), JsTrim(v.eventId),
                       |Older(Of(db.versions, key), v)|, 0)
  {
    OfUnique(db.versions, key);
    DistinctIsOnlyOne(Of(db.versions, key), v);
    MatchOf(db.versions, key, v);
    ListedAllParse(db.versions, key);
    AllReached(Listed(db.versions, key), |Newer(Of(db.versions, key), v)|);
    StoredVersionIsShown(db, key, answers, v);
  }

  // ---------- no version requested ----------

  function FirstKept(slots: seq<Option<Item>>): (j: nat)
    ensures j <= |slots|
    ensures forall i :: 0 <= i < j ==> slots[i].None?
    ensures j < |slots| ==> slots[j].Some?
  {
    if |slots| == 0 || slots[0].Some? then 0 else 1 + FirstKept(slots[1..])
  }

  lemma {:induction false} NoneKept(slots: seq<Option<Item>>)
    requires forall i :: 0 <= i < |slots| ==> slots[i].None?
    ensures Kept(slots) == []
  {
    if |slots| > 0 { NoneKept(slots[..|slots| - 1]); }
  }

  lemma {:induction false} FirstKeptIs(slots: seq<Option<Item>>, j: nat)
    requires j < |slots| && slots[j].Some? && forall i :: 0 <= i < j ==> slots[i].None?
    ensures |Kept(slots)| > 0 && slots[j] == Some(Kept(slots)[0])
  {
    NoneKept(slots[..j]);
    KeptSplit(slots, j);
  }

  /** The page shows row j as its list's newest, under the number of all rows. */
  predicate ShowsAsLatest(view: View, slots: seq<Option<Item>>, j: nat) {
    && j < |slots| && j < FIRST_PAGE_SIZE
    && view.ValidPage? && slots[j] == Some(view.selected) && view.number == Some(|slots|)
  }

  lemma {:induction false} DefaultOutcome(answers: Answers, slots: seq<Option<Item>>)
    requires Serves(answers, slots)
    ensures var j, view := FirstKept(slots), ShowVersion(answers, None);
            if j < |slots| && j < FIRST_PAGE_SIZE then ShowsAsLatest(view, slots, j)
            else view == ErrorPage(VersionUnavailable)
  {
    var j, first := FirstKept(slots), Window(slots, 0, FIRST_PAGE_SIZE);
    FirstPageServed(answers, slots);
    if j < |slots| && j < FIRST_PAGE_SIZE { FirstKeptIs(first, j); } else { NoneKept(first); }
  }

  lemma {:induction false} LatestNumber(view: View, slots: seq<Option<Item>>, j: nat, older: nat)
    requires ShowsAsLatest(view, slots, j) && older + j + 1 == |slots|
    ensures slots[j].Some? && IsNumbered(view, slots[j].value.eventId, older, j)
  {
  }

  /** With no version requested the page shows the newest version that parses, if the design reaches
      the client and one of the newest thirty does. Its number is that of the newest of all: too high
      by as many as are dropped above it. */
  lemma {:induction false} DefaultVersion(db: Db, key: Key, answers: Answers)
    requires ServesStore(answers, db.versions, key) && UniqueIds(db.versions)
    ensures var slots, view := Listed(db.versions, key), LatestPage(db, key, answers);
            var j := FirstKept(slots);
            if !IsServed(db, key) then ShowsNoDesign(view, db, key)
            else if j < |slots| && j < FIRST_PAGE_SIZE
            then IsNumbered(view, slots[j].value.eventId, OlderThanRow(db.versions, key, j), j)
            else view == ErrorPage(VersionUnavailable)
  {
    var slots, view := Listed(db.versions, key), ShowVersion(answers, None);
    OfUnique(db.versions, key);
    DefaultOutcome(answers, slots);
    if ShowsAsLatest(view, slots, FirstKept(slots)) {
      OlderCount(db.versions, key, FirstKept(slots));
      LatestNumber(view, slots, FirstKept(slots), OlderThanRow(db.versions, key, FirstKept(slots)));
    }
  }

  /** Rows and views: the listing starts with the version the current row shows. */
  lemma {:induction false} LatestComesFirst(vs: seq<Version>, row: Option<Current>, key: Key)
    requires UniqueIds(vs) && IsViewOf(vs, row, key) && row.Some?
    ensures |vs| == row.value.versionCount > 0 && RowShows(row.value, NewestFirst(vs)[0]) && NewestFirst(vs)[0] in vs
  {
    var rows := NewestFirst(vs);
    NewestFirstSorted(vs);
    var best :| IsMaximum(vs, best) && RowShows(row.value, best);
    SameMembers(vs, best);
    SameMembers(vs, rows[0]);
    var i :| 0 <= i < |rows| && rows[i] == best;
    if i > 0 { SupersedesTotal(rows[0], rows[i]); }
  }

  /** A design that reaches the client has a latest version that parses, if its id is not blank. */
  lemma {:induction false} ServedLatestParses(row: Current, identity: Option<Identity>, v: Version)
    requires ReadDesign(Some(row), identity).Served? && RowShows(row, v) && row.DesignKey() == v.DesignKey()
    ensures Parse(v)
         == if JsTrim(v.eventId) == "" || JsTrim(v.designId) == "" then None else Some(Item(JsTrim(v.eventId)))
  {
    OptionalKeepsKeys(v.raw.tags);
  }

  lemma {:induction false} FirstSlot(slots: seq<Option<Item>>)
    requires |slots| > 0
    ensures FirstKept(slots) == 0 <==> slots[0].Some?
  {
  }

  lemma {:induction false} NewestParses(db: Db, key: Key)
    requires ViewAgrees(db) && IsServed(db, key)
    ensures var row, slots := db.designs[key], Listed(db.versions, key);
            && |slots| == row.versionCount > 0
            && (JsTrim(row.latestEventId) != "" && JsTrim(key.designId) != "" ==>
                 FirstKept(slots) == 0 && slots[0] == Some(Item(JsTrim(row.latestEventId))))
  {
    var vs, row := Of(db.versions, key), db.designs[key];
    assert IsView(db, key);
    OfUnique(db.versions, key);
    LatestComesFirst(vs, Some(row), key);
    ServedLatestParses(row, FindIdentity(db.identities, key.pubkey), NewestFirst(vs)[0]);
    FirstSlot(Listed(db.versions, key));
  }

  /** On tables that agree, as in every reachable state: a design that reaches the client is shown by
      the version its current row names, under the row's version count, unless that version's id or
      the design id is blank. */
  lemma {:induction false} LatestIsShown(db: Db, key: Key, answers: Answers)
    requires ServesStore(answers, db.versions, key) && ViewAgrees(db)
    ensures !IsServed(db, key) ==> ShowsNoDesign(LatestPage(db, key, answers), db, key)
    ensures IsServed(db, key) && JsTrim(db.designs[key].latestEventId) != "" && JsTrim(key.designId) != "" ==>
      var view, row := LatestPage(db, key, answers), db.designs[key];
      view.ValidPage? && view.selected == Item(JsTrim(row.latestEventId)) && view.number == Some(row.versionCount)
  {
    DefaultVersion(db, key, answers);
    if IsServed(db, key) {
      NewestParses(db, key);
      OfUnique(db.versions, key);
      OlderCount(db.versions, key, 0);
    }
  }

  /** Such a design reaches the client exactly if its key is 64 hex digits, the newest version has a
      name and no blank tag key, and the creator's resolved name is not blank. */
  lemma {:induction false} ServedInView(db: Db, key: Key)
    requires ViewAgrees(db)
    ensures IsServed(db, key) <==>
      && Of(db.versions, key) != [] && IsHexKey(key.pubkey)
      && (var newest := NewestFirst(Of(db.versions, key))[0];
          !AllSpace(newest.name.GetOr(""), IsJsSpace) && !HasBlankKey(newest.raw.tags))
      && IsNamed(FindIdentity(db.identities, key.pubkey))
  {
    var vs := Of(db.versions, key);
    assert IsView(db, key);
    if key in db.designs {
      OfUnique(db.versions, key);
      LatestComesFirst(vs, Some(db.designs[key]), key);
      ServedRow(db.designs[key], FindIdentity(db.identities, key.pubkey), NewestFirst(vs)[0]);
    }
  }

  lemma {:induction false} ServedRow(row: Current, identity: Option<Identity>, v: Version)
    requires RowShows(row, v)
    ensures ReadDesign(Some(row), identity).Served? <==>
      && IsHexKey(row.pubkey) && !AllSpace(v.name.GetOr(""), IsJsSpace) && !HasBlankKey(v.raw.tags)
      && IsNamed(identity)
  {
    ServedExactly(row, identity);
    OptionalKeepsKeys(v.raw.tags);
    if ResolvedName(identity).Some? { BlankIfAllSpace(ResolvedName(identity).value, IsJsSpace); }
  }

  // ---------- an input on which the page misleads ----------

  /** Three versions of a design, newest first, the middle one of which has a tag with a blank key. */
  predicate IsMisleading(a: Version, b: Version, c: Version) {
    && a.createdAt > b.createdAt > c.createdAt
    && Parse(a).Some? && Parse(c).Some? && HasBlankKey(b.raw.tags)
    && JsTrim(a.eventId) != JsTrim(b.eventId) && JsTrim(b.eventId) != JsTrim(c.eventId)
    && JsTrim(a.eventId) != JsTrim(c.eventId) && JsTrim(b.eventId) != ""
  }

  lemma {:induction false} ThreeSorted(a: Version, b: Version, c: Version)
    requires a.createdAt > b.createdAt > c.createdAt
    ensures NewestFirst([a, b, c]) == [a, b, c]
  {
    assert [a, b, c][..2] == [a, b] && [a, b][..1] == [a] && [a][..0] == [];
    assert NewestFirst([a]) == [a];
    assert [a][1..] == [] && [a, b][1..] == [b] && [b][1..] == [];
    assert InsertNewestFirst([a], b) == [a] + InsertNewestFirst([], b);
    assert NewestFirst([a, b]) == [a, b];
    assert InsertNewestFirst([b], c) == [b] + InsertNewestFirst([], c);
    assert InsertNewestFirst([a, b], c) == [a] + InsertNewestFirst([b], c);
  }

  lemma {:induction false} TwoKept(slots: seq<Option<Item>>)
    requires |slots| == 3 && slots[0].Some? && slots[1].None?
    ensures DroppedAbove(slots, 2) == 1
  {
    var above := slots[0..2];
    assert above[..1] == [slots[0]] && [slots[0]][..0] == [];
    assert Kept([slots[0]]) == [slots[0].value];
  }

  /** The page says the middle version does not exist, and calls the oldest number 2. */
  lemma {:induction false} BlankKeyMisleads(
    db: Db, key: Key, answers: Answers, a: Version, b: Version, c: Version)
    requires IsMisleading(a, b, c) && Of(db.versions, key) == [a, b, c] && UniqueIds(db.versions)
    requires ServesStore(answers, db.versions, key) && IsServed(db, key)
    ensures DesignPage(db, key, answers, Some(b.eventId)) == ErrorPage(VersionNotFound)
    ensures |Older([a, b, c], c)| == 0
    ensures IsNumbered(DesignPage(db, key, answers, Some(c.eventId)), JsTrim(c.eventId), 0, 1)
  {
    ThreeListed(db.versions, key, a, b, c);
    StoredVersionIsShown(db, key, answers, b);
    StoredVersionIsShown(db, key, answers, c);
  }

  lemma {:induction false} ThreeListed(versions: seq<Version>, key: Key, a: Version, b: Version, c: Version)
    requires IsMisleading(a, b, c) && Of(versions, key) == [a, b, c] && UniqueIds(versions)
    ensures IsOnlyOne([a, b, c], b) && IsOnlyOne([a, b, c], c)
    ensures |Newer([a, b, c], c)| == 2 && |Older([a, b, c], c)| == 0
    ensures IsFound(Listed(versions, key), 2) && DroppedAbove(Listed(versions, key), 2) == 1
  {
    ThreeSorted(a, b, c);
    OfUnique(versions, key);
    NewerComeBefore([a, b, c], 2);
    OlderComeAfter([a, b, c], 2);
    TwoKept(Listed(versions, key));
    assert IsReached(Listed(versions, key), 2);
  }
}
