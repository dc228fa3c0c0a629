/** The three tables of the index and the statements the store runs against them. */
module Tables {
  import opened Text
  import opened Events

  // ---------- rows ----------

  datatype Key = Key(pubkey: string, designId: string)

  /** One entry of a JSON object of string lists, in the object's key order. */
  datatype TagEntry = TagEntry(key: string, values: seq<string>)
  type TagMap = seq<TagEntry>

  datatype Version = Version(
    eventId: string, pubkey: string, designId: string, previous: Option<string>, kind: int, createdAt: int,
    name: Option<string>, format: Option<string>, sha256: Option<string>, url: Option<string>,
    content: Option<string>, raw: Event, receivedAt: int)
  {
    function DesignKey(): Key { Key(pubkey, designId) }
  }

  datatype Current = Current(
    pubkey: string, designId: string, latestEventId: string, latestPublishedAt: int,
    firstPublishedAt: int, firstSeenAt: int, updatedAt: int, versionCount: int,
    name: Option<string>, format: Option<string>, sha256: Option<string>, url: Option<string>,
    content: Option<string>, tags: TagMap)
  {
    function DesignKey(): Key { Key(pubkey, designId) }
  }

  datatype Status = Pending | Failed | Fetched

  /** `surrogates` says whether a text of the profile holds a lone surrogate, so that binding it raises. */
  datatype Profile = Profile(fields: map<string, Option<string>>, rawJson: string, surrogates: bool)

  datatype Identity = Identity(
    status: Status, firstSeenAt: int, lastSeenAt: int, profile: Option<Profile>,
    profileFetchedAt: Option<int>, lastAttemptAt: Option<int>, retryCount: nat)

  type Identities = map<string, Identity>

  /** `versions` keeps its rows in insertion order. */
  datatype Db = Db(versions: seq<Version>, designs: map<Key, Current>, identities: Identities)

  const EMPTY_DB := Db([], map[], map[])

  // ---------- design statements ----------

  predicate IsStored(versions: seq<Version>, eventId: string) {
    exists i :: 0 <= i < |versions| && versions[i].eventId == eventId
  }

  /** The parameters of the append can be bound; `raw_event_json` holds every string of the event. */
  predicate IsBindable(v: Version) {
    FitsColumn(v.kind) && FitsColumn(v.createdAt) && v.raw.surrogates.Nowhere?
  }

  datatype Appended = Inserted | Ignored | NotBound

  function Find(designs: map<Key, Current>, key: Key): Option<Current> {
    if key in designs then Some(designs[key]) else None
  }

  /** SELECT ... WHERE pubkey = ? AND design_id = ?, in insertion order. */
  function Of(versions: seq<Version>, key: Key): (r: seq<Version>)
    ensures forall i :: 0 <= i < |r| ==> r[i] in versions && r[i].DesignKey() == key
  {
    if |versions| == 0 then []
    else
      var last := versions[|versions| - 1];
      Of(versions[..|versions| - 1], key) + (if last.DesignKey() == key then [last] else [])
  }

  /** The order in which one version supersedes another: later, or as late with the greater id. */
  predicate IsNewer(candidateCreatedAt: int, candidateId: string, currentCreatedAt: int, currentId: string) {
    candidateCreatedAt > currentCreatedAt || (candidateCreatedAt == currentCreatedAt && Less(currentId, candidateId))
  }

  predicate Supersedes(v: Version, w: Version) {
    IsNewer(v.createdAt, v.eventId, w.createdAt, w.eventId)
  }

  /** Inserting a row where ORDER BY created_at DESC, event_id DESC puts it. */
  function InsertNewestFirst(rows: seq<Version>, v: Version): (r: seq<Version>)
    ensures |r| == |rows| + 1
  {
    if |rows| == 0 || Supersedes(v, rows[0]) then [v] + rows else [rows[0]] + InsertNewestFirst(rows[1..], v)
  }

  function NewestFirst(vs: seq<Version>): (r: seq<Version>)
    ensures |r| == |vs|
  {
    if |vs| == 0 then [] else InsertNewestFirst(NewestFirst(vs[..|vs| - 1]), vs[|vs| - 1])
  }

  /** LIMIT and OFFSET over the versions of a design, newest first. */
  function PageOf(versions: seq<Version>, key: Key, limit: nat, offset: nat): seq<Version> {
    var rows := NewestFirst(Of(versions, key));
    if offset >= |rows| then [] else rows[offset..Min(offset + limit, |rows|)]
  }

  // ---------- identity statements ----------

  function EnsurePending(ids: Identities, pubkey: string, seenAt: int): Identities {
    if pubkey in ids then ids[pubkey := ids[pubkey].(lastSeenAt := seenAt)]
    else ids[pubkey := Identity(Pending, seenAt, seenAt, None, None, None, 0)]
  }

  function SetProfile(ids: Identities, pubkey: string, profile: Profile, fetchedAt: int): Identities {
    if pubkey !in ids then ids
    else ids[pubkey := ids[pubkey].(
      status := Fetched, profile := Some(profile), profileFetchedAt := Some(fetchedAt),
      lastAttemptAt := Some(fetchedAt), retryCount := 0)]
  }

  function SetMiss(ids: Identities, pubkey: string, attemptedAt: int): Identities {
    if pubkey !in ids then ids
    else ids[pubkey := ids[pubkey].(
      status := Failed, lastAttemptAt := Some(attemptedAt), retryCount := ids[pubkey].retryCount + 1)]
  }

  // ---------- refresh selection ----------

  function Power2(n: nat): (r: nat)
    ensures r >= 1
  {
    if n == 0 then 1 else 2 * Power2(n - 1)
  }

  const BACKOFF_BASE_S := 30
  const BACKOFF_CAP_S := 21600

  function Min(a: int, b: int): int { if a < b then a else b }

  function Delay(retryCount: nat): int {
    Min(BACKOFF_BASE_S * Power2(Min(retryCount, 20)), BACKOFF_CAP_S)
  }

  predicate CanAttempt(now: int, lastAttemptAt: Option<int>, retryCount: nat) {
    lastAttemptAt.None? || retryCount == 0 || now >= lastAttemptAt.value + Delay(retryCount)
  }

  predicate IsDue(id: Identity, now: int) { CanAttempt(now, id.lastAttemptAt, id.retryCount) }

  function Rank(status: Status): nat {
    match status case Pending => 0 case Failed => 1 case Fetched => 2
  }

  /** The WHERE clause: waiting, failed, or fetched too long ago. */
  predicate IsCandidate(id: Identity, staleCutoff: int) {
    id.status != Fetched || id.profileFetchedAt.None? || id.profileFetchedAt.value <= staleCutoff
  }

  /** The ORDER BY clause, strictly: rank, then oldest attempt, then most recently seen. */
  predicate SortsBefore(a: Identity, b: Identity) {
    var attemptA, attemptB := a.lastAttemptAt.GetOr(0), b.lastAttemptAt.GetOr(0);
    || Rank(a.status) < Rank(b.status)
    || (Rank(a.status) == Rank(b.status)
        && (attemptA < attemptB || (attemptA == attemptB && a.lastSeenAt > b.lastSeenAt)))
  }

  /** Whether `rows` is an answer SQLite may give to the selection query: distinct candidates,
      sorted, at most `window` of them, and none left out that had to come first. Rows the
      ORDER BY cannot tell apart may come in any order. */
  ghost predicate IsQueryAnswer(ids: Identities, staleCutoff: int, window: nat, rows: seq<string>) {
    && |rows| <= window
    && (forall i :: 0 <= i < |rows| ==> rows[i] in ids && IsCandidate(ids[rows[i]], staleCutoff))
    && (forall i, j :: 0 <= i < j < |rows| ==> rows[i] != rows[j] && !SortsBefore(ids[rows[j]], ids[rows[i]]))
    && (forall p :: p in ids && IsCandidate(ids[p], staleCutoff) && p !in rows ==>
         |rows| == window && forall i :: 0 <= i < |rows| ==> !SortsBefore(ids[p], ids[rows[i]]))
  }

  /** The due rows among the answer, in order, up to the limit. */
  function Picked(ids: Identities, rows: seq<string>, limit: nat, now: int): (r: seq<string>)
    requires forall i :: 0 <= i < |rows| ==> rows[i] in ids
    ensures |r| <= limit
  {
    if |rows| == 0 then []
    else
      var before := Picked(ids, rows[..|rows| - 1], limit, now);
      var last := rows[|rows| - 1];
      if |before| < limit && IsDue(ids[last], now) then before + [last] else before
  }

  // ---------- the store ----------

  class SqliteStore {
    var versions: seq<Version>
    var designs: map<Key, Current>
    var identities: Identities

    function Contents(): Db
      reads this
    {
      Db(versions, designs, identities)
    }

    constructor ()
      ensures Contents() == EMPTY_DB
    {
      versions, designs, identities := [], map[], map[];
    }

    /** INSERT OR IGNORE: nothing happens when the event id is already there, and binding raises
        before anything happens when a parameter does not fit. */
    method AppendDesignVersion(row: Version) returns (outcome: Appended)
      modifies this`versions
      ensures outcome.NotBound? <==> !IsBindable(row)
      ensures outcome.Inserted? <==> IsBindable(row) && !IsStored(old(versions), row.eventId)
      ensures versions == if outcome.Inserted? then old(versions) + [row] else old(versions)
    {
      if !IsBindable(row) { return NotBound; }
      if IsStored(versions, row.eventId) { return Ignored; }
      versions := versions + [row];
      outcome := Inserted;
    }

    /** INSERT OR REPLACE under PRAGMA foreign_keys: false when latest_event_id names no version. */
    method UpsertDesignCurrent(row: Current) returns (ok: bool)
      modifies this`designs
      ensures ok <==> IsStored(versions, row.latestEventId)
      ensures designs == if ok then old(designs)[row.DesignKey() := row] else old(designs)
    {
      ok := IsStored(versions, row.latestEventId);
      if ok { designs := designs[row.DesignKey() := row]; }
    }

    method GetDesign(pubkey: string, designId: string) returns (row: Option<Current>)
      ensures row == Find(designs, Key(pubkey, designId))
    {
      row := Find(designs, Key(pubkey, designId));
    }

    method ListDesignVersions(pubkey: string, designId: string, limit: nat, offset: nat)
      returns (page: seq<Version>, total: nat)
      ensures page == PageOf(versions, Key(pubkey, designId), limit, offset)
      ensures total == |Of(versions, Key(pubkey, designId))|
    {
      total := |Of(versions, Key(pubkey, designId))|;
      page := PageOf(versions, Key(pubkey, designId), limit, offset);
    }

    method EnsureIdentityPending(pubkey: string, firstSeenAt: int)
      modifies this`identities
      ensures identities == EnsurePending(old(identities), pubkey, firstSeenAt)
    {
      var row := Identity(Pending, firstSeenAt, firstSeenAt, None, None, None, 0);
      if pubkey in identities { row := identities[pubkey].(lastSeenAt := firstSeenAt); }
      identities := identities[pubkey := row];
    }

    /** False when a parameter cannot be bound. */
    method UpdateIdentityProfile(pubkey: string, profile: Profile, fetchedAt: int) returns (ok: bool)
      modifies this`identities
      ensures ok <==> !profile.surrogates
      ensures identities == if ok then SetProfile(old(identities), pubkey, profile, fetchedAt) else old(identities)
    {
      ok := !profile.surrogates;
      if !ok { return; }
      if pubkey !in identities { return; }
      var row := identities[pubkey].(status := Fetched, profile := Some(profile));
      row := row.(profileFetchedAt := Some(fetchedAt), lastAttemptAt := Some(fetchedAt), retryCount := 0);
      identities := identities[pubkey := row];
    }

    method MarkIdentityFetchMiss(pubkey: string, attemptedAt: int)
      modifies this`identities
      ensures identities == SetMiss(old(identities), pubkey, attemptedAt)
    {
      if pubkey !in identities { return; }
      var row := identities[pubkey].(status := Failed, lastAttemptAt := Some(attemptedAt));
      identities := identities[pubkey := row.(retryCount := row.retryCount + 1)];
    }

    /** The selection loop over the rows the query returned. */
    method ListIdentityPubkeysForRefresh(limit: nat, staleAfter: int, now: int, rows: seq<string>)
      returns (selected: seq<string>)
      requires limit >= 1
      requires IsQueryAnswer(identities, now - staleAfter, limit * 5, rows)
      ensures selected == Picked(identities, rows, limit, now)
    {
      selected := PickDue(limit, now, rows);
    }

    method PickDue(limit: nat, now: int, rows: seq<string>) returns (selected: seq<string>)
      requires limit >= 1 && forall i :: 0 <= i < |rows| ==> rows[i] in identities
      ensures selected == Picked(identities, rows, limit, now)
    {
      selected := [];
      for i := 0 to |rows|
        invariant selected == Picked(identities, rows[..i], limit, now)
        invariant |selected| < limit
      {
        assert rows[..i + 1][..i] == rows[..i];
        if CanAttempt(now, identities[rows[i]].lastAttemptAt, identities[rows[i]].retryCount) {
          selected := selected + [rows[i]];
        }
        if |selected| >= limit {
          PickedIsFull(identities, rows, i + 1, limit, now);
          return;
        }
      }
      assert rows[..|rows|] == rows;
    }
  }

  /** Once the limit is reached the remaining rows change nothing. */
  lemma {:induction false} PickedIsFull(ids: Identities, rows: seq<string>, i: nat, limit: nat, now: int)
    requires i <= |rows|
    requires forall k :: 0 <= k < |rows| ==> rows[k] in ids
    requires |Picked(ids, rows[..i], limit, now)| == limit
    ensures Picked(ids, rows, limit, now) == Picked(ids, rows[..i], limit, now)
  {
    if i == |rows| {
      assert rows[..i] == rows;
    } else {
      assert rows[..|rows| - 1][..i] == rows[..i];
      PickedIsFull(ids, rows[..|rows| - 1], i, limit, now);
    }
  }
}
