/** The version page: a paging search over a history the client does not control, and the
    number it gives the version it shows. */
module VersionSearch {
  import opened Text
  import opened DesignDetail

  /** A version as the client's parser passes it on; only its id takes part in the search. */
  datatype Item = Item(eventId: string)

  /** One answer of the versions endpoint, as the page fetcher reports it. */
  datatype Page = Page(items: seq<Item>, total: int, limit: int, offset: int) | NoPage(error: string)

  /** What the server says to the n-th request for a page: anything at all. */
  type Answers = (nat, int, int) -> Page

  datatype Failure =
    | ApiNotConfigured | DesignIdMissing | DesignNotFound | DesignUnavailable
    | HistoryUnavailable(error: string) | VersionNotFound | VersionUnavailable

  /** The outcome: an error page, or a version with its number and the window it came from. */
  datatype View =
    | ErrorPage(failure: Failure)
    | ValidPage(versions: seq<Item>, total: int, offset: int, selected: Item, number: Option<int>,
        requested: Option<string>)

  const FIRST_PAGE_SIZE := 30
  const LOOKUP_PAGE_SIZE := 100

  function Max(a: int, b: int): int { if a > b then a else b }

  function TrimToNull(value: Option<string>): Option<string> {
    var trimmed := JsTrim(value.GetOr(""));
    if |trimmed| > 0 then Some(trimmed) else None
  }

  /** Trimmed, without one trailing slash. */
  function NormalizeApiBase(apiBaseUrl: string): Option<string> {
    var trimmed := JsTrim(apiBaseUrl);
    if |trimmed| == 0 then None
    else if trimmed[|trimmed| - 1] == '/' then Some(trimmed[..|trimmed| - 1])
    else Some(trimmed)
  }

  /** Whether the page has a backend to ask. */
  predicate IsConfigured(apiBaseUrl: string) { NormalizeApiBase(apiBaseUrl).GetOr("") != "" }

  /** A lone slash is as good as nothing. */
  lemma {:induction false} ConfiguredUnlessBlank(apiBaseUrl: string)
    ensures IsConfigured(apiBaseUrl) <==> JsTrim(apiBaseUrl) !in {"", "/"}
  {
    var trimmed := JsTrim(apiBaseUrl);
    assert |trimmed| == 1 && trimmed[0] == '/' ==> trimmed == "/";
  }

  /** findIndex: the first item with the id, or the number of items. */
  function IndexOf(items: seq<Item>, id: string): (i: nat)
    ensures i <= |items|
    ensures i < |items| ==> items[i].eventId == id
    ensures forall j :: 0 <= j < i ==> items[j].eventId != id
  {
    if |items| == 0 || items[0].eventId == id then 0 else 1 + IndexOf(items[1..], id)
  }

  datatype Search = Found(items: seq<Item>, offset: int, at: nat) | Missing | Broken(error: string)

  function NextOffset(page: Page): int
    requires page.Page?
  {
    Max(0, page.offset) + Max(1, Max(|page.items|, page.limit))
  }

  /** The paging loop, from the given request on. */
  function Lookup(answers: Answers, call: nat, total: int, offset: int, wanted: string): (r: Search)
    ensures r.Found? ==> r.at < |r.items| && r.items[r.at].eventId == wanted
    decreases total - offset
  {
    if offset >= total then Missing
    else
      match answers(call, LOOKUP_PAGE_SIZE, offset)
      case NoPage(error) => Broken(error)
      case Page(items, t, limit, pageOffset) =>
        var at := IndexOf(items, wanted);
        var next := NextOffset(Page(items, t, limit, pageOffset));
        if at < |items| then Found(items, Max(0, pageOffset), at)
        else if |items| == 0 || next <= offset then Missing
        else Lookup(answers, call + 1, total, next, wanted)
  }

  function Shown(first: Page, items: seq<Item>, offset: int, at: nat, requested: Option<string>): View
    requires first.Page? && at < |items|
  {
    var number := if first.total > 0 then Some(Max(1, first.total - (offset + at))) else None;
    ValidPage(items, first.total, offset, items[at], number, requested)
  }

  function Conclude(first: Page, search: Search, requested: Option<string>): View
    requires first.Page? && (search.Found? ==> search.at < |search.items|)
  {
    match search
    case Found(items, offset, at) => Shown(first, items, offset, at, requested)
    case Missing => ErrorPage(VersionNotFound)
    case Broken(error) => ErrorPage(HistoryUnavailable(error))
  }

  /** The page once the design itself has loaded. */
  function ShowVersion(answers: Answers, requested: Option<string>): View {
    match answers(0, FIRST_PAGE_SIZE, 0)
    case NoPage(error) => ErrorPage(HistoryUnavailable(error))
    case Page(items, total, limit, offset) =>
      var first := Page(items, total, limit, offset);
      match requested
      case None => if |items| == 0 then ErrorPage(VersionUnavailable) else Shown(first, items, offset, 0, None)
      case Some(wanted) =>
        var at := IndexOf(items, wanted);
        if at < |items| then Shown(first, items, offset, at, requested)
        else if total <= |items| then ErrorPage(VersionNotFound)
        else
          Conclude(first, Lookup(answers, 1, total, offset + Max(1, Max(|items|, limit)), wanted), requested)
  }

  /** The page: an error page of the design's own, or the version that the trimmed request asks for. */
  function PageView(design: DesignAnswer, answers: Answers, requested: Option<string>): View {
    match design
    case Refused => ErrorPage(DesignNotFound)
    case Malformed => ErrorPage(DesignUnavailable)
    case Served(_) => ShowVersion(answers, TrimToNull(requested))
  }

  /** Loads the page. The loop stops whatever the server answers: it goes on only while the
      next offset is greater, and never past the total first announced. */
  method LoadDesignVersionView(
    apiBaseUrl: string, designId: Option<string>, requestedVersionId: Option<string>,
    design: DesignAnswer, answers: Answers) returns (view: View)
    ensures JsTrim(apiBaseUrl) in {"", "/"} ==> view == ErrorPage(ApiNotConfigured)
    ensures JsTrim(apiBaseUrl) !in {"", "/"} && TrimToNull(designId).None? ==> view == ErrorPage(DesignIdMissing)
    ensures JsTrim(apiBaseUrl) !in {"", "/"} && TrimToNull(designId).Some? ==>
      view == PageView(design, answers, requestedVersionId)
  {
    ConfiguredUnlessBlank(apiBaseUrl);
    if !IsConfigured(apiBaseUrl) { return ErrorPage(ApiNotConfigured); }
    if TrimToNull(designId).None? { return ErrorPage(DesignIdMissing); }
    if design.Refused? { return ErrorPage(DesignNotFound); }
    if design.Malformed? { return ErrorPage(DesignUnavailable); }
    view := SelectVersion(answers, TrimToNull(requestedVersionId));
  }

  method SelectVersion(answers: Answers, requested: Option<string>) returns (view: View)
    ensures view == ShowVersion(answers, requested)
  {
    var first := answers(0, FIRST_PAGE_SIZE, 0);
    var versions := if first.Page? then first.items else [];
    var versionsTotal := if first.Page? then first.total else 0;
    var versionsOffset := if first.Page? then first.offset else 0;
    var lookupError := if first.Page? then None else Some(first.error);
    var selected := if |versions| > 0 then Some(versions[0]) else None;
    var selectedIndex := if |versions| > 0 then Some(versionsOffset) else None;

    if requested.Some? {
      var firstMatch := IndexOf(versions, requested.value);
      if firstMatch < |versions| {
        selected := Some(versions[firstMatch]);
        selectedIndex := Some(versionsOffset + firstMatch);
      } else {
        selected, selectedIndex := None, None;
        if first.Page? && versionsTotal > |versions| {
          versions, versionsOffset, selected, selectedIndex, lookupError :=
            SearchPages(answers, first, requested.value);
        }
      }
    }
    if requested.Some? && lookupError.Some? && selected.None? {
      return ErrorPage(HistoryUnavailable(lookupError.value));
    }
    if requested.Some? && selected.None? { return ErrorPage(VersionNotFound); }
    if selected.None? {
      if lookupError.Some? { return ErrorPage(HistoryUnavailable(lookupError.value)); }
      return ErrorPage(VersionUnavailable);
    }
    var number :=
      if selectedIndex.Some? && versionsTotal > 0 then Some(Max(1, versionsTotal - selectedIndex.value)) else None;
    view := ValidPage(versions, versionsTotal, versionsOffset, selected.value, number, requested);
  }

  method SearchPages(answers: Answers, first: Page, wanted: string)
    returns (versions: seq<Item>, versionsOffset: int, selected: Option<Item>, selectedIndex: Option<int>,
        error: Option<string>)
    requires first.Page?
    ensures match Lookup(answers, 1, first.total, first.offset + Max(1, Max(|first.items|, first.limit)), wanted)
            case Found(items, offset, at) =>
              versions == items && versionsOffset == offset && selected == Some(items[at])
              && selectedIndex == Some(offset + at) && error.None?
            case Missing => selected.None? && selectedIndex.None? && error.None?
            case Broken(e) => selected.None? && selectedIndex.None? && error == Some(e)
  {
    versions, versionsOffset, selected, selectedIndex, error := first.items, first.offset, None, None, None;
    var offset := first.offset + Max(1, Max(|first.items|, first.limit));
    var call := 1;
    ghost var goal := Lookup(answers, 1, first.total, offset, wanted);
    while offset < first.total
      invariant goal == Lookup(answers, call, first.total, offset, wanted)
      invariant selected.None? && selectedIndex.None? && error.None?
      decreases first.total - offset
    {
      var page := answers(call, LOOKUP_PAGE_SIZE, offset);
      call := call + 1;
      if page.NoPage? {
        error := Some(page.error);
        return;
      }
      var pageOffset := Max(0, page.offset);
      var pageMatch := IndexOf(page.items, wanted);
      if pageMatch < |page.items| {
        versions, versionsOffset := page.items, pageOffset;
        selected, selectedIndex := Some(page.items[pageMatch]), Some(pageOffset + pageMatch);
        return;
      }
      var pageStep := Max(1, Max(|page.items|, page.limit));
      var nextOffset := pageOffset + pageStep;
      if |page.items| == 0 || nextOffset <= offset { return; }
      offset := nextOffset;
    }
  }
}
