/** Recent-video listing: `list_recent_video_ids` (ingest_youtube.py:31-52), a cursor
    loop over `search.list` pages of one channel, newest first. */
module Lister {
  import opened Common

  /** The source's page-size ceiling for one search request. */
  const PageSizeCeiling := 50

  /** The `id` map of a search item; `videoId` is absent for non-video results. */
  datatype ItemId = ItemId(videoId: Option<string>)

  /** One search item; `id` is `None` when the item has no `id` map. */
  datatype SearchItem = SearchItem(id: Option<ItemId>)

  /** One response: its `items` (absent reads as empty) and its `nextPageToken`. */
  datatype Page = Page(items: seq<SearchItem>, nextPageToken: Option<string>)

  /** The varying arguments of one `search.list` call (`part="id"`, `type="video"` and
      `order="date"` are the same on every call). */
  datatype PageRequest = PageRequest(channelId: string, maxResults: int, pageToken: Option<string>)

  /** The collected ids and the page requests issued, in order. */
  datatype Listing = Listing(videoIds: seq<string>, requests: seq<PageRequest>)

  /** The response to the k-th request. The page stream is finite: once it is used up,
      the source answers with an empty page that carries no token. */
  function PageAt(pages: seq<Page>, k: nat): Page
  {
    if k < |pages| then pages[k] else Page([], None)
  }

  /** `it.get("id", {}).get("videoId")`. */
  function VideoIdOf(it: SearchItem): Option<string>
  {
    if it.id.Some? then it.id.value.videoId else None
  }

  /** The page size asked for when `have` ids are collected: `min(50, maxResults - have)`. */
  function RequestSize(maxResults: int, have: nat): int
  {
    Min(PageSizeCeiling, maxResults - have)
  }

  /** The truthy video ids of a page's items, in item order. */
  function PresentIds(items: seq<SearchItem>): (r: seq<string>)
    ensures |r| <= |items|
    ensures forall k :: 0 <= k < |r| ==> r[k] != ""
  {
    if items == [] then []
    else
      var last := VideoIdOf(items[|items| - 1]);
      PresentIds(items[..|items| - 1]) + (if Truthy(last) then [last.value] else [])
  }

  /** An id is kept exactly when some item carries it as a non-empty `videoId`. */
  lemma {:induction false} PresentIdsMembers(items: seq<SearchItem>, x: string)
    ensures x in PresentIds(items) <==>
      x != "" && exists i :: 0 <= i < |items| && VideoIdOf(items[i]) == Some(x)
  {
    if items != [] {
      var init := items[..|items| - 1];
      PresentIdsMembers(init, x);
      if x != "" && exists i :: 0 <= i < |items| && VideoIdOf(items[i]) == Some(x) {
        var i :| 0 <= i < |items| && VideoIdOf(items[i]) == Some(x);
        if i < |init| {
          assert VideoIdOf(init[i]) == Some(x);
        }
      }
      if x in PresentIds(init) {
        var i :| 0 <= i < |init| && VideoIdOf(init[i]) == Some(x);
        assert VideoIdOf(items[i]) == Some(x);
      }
    }
  }

  /** The ids collected from the first `n` responses, in order. */
  function Collected(pages: seq<Page>, n: nat): seq<string>
  {
    if n == 0 then [] else Collected(pages, n - 1) + PresentIds(PageAt(pages, n - 1).items)
  }

  /** The loop from the state where `k` pages are consumed, `acc` holds the ids so far
      and `token` is the cursor for the next request: the final ids and the requests
      still to be issued. */
  function ListFrom(
    channelId: string, maxResults: int, pages: seq<Page>,
    k: nat, acc: seq<string>, token: Option<string>): Listing
    requires k <= |pages|
    decreases |pages| - k
  {
    if |acc| >= maxResults then Listing(acc, [])
    else
      var request := PageRequest(channelId, RequestSize(maxResults, |acc|), token);
      var page := PageAt(pages, k);
      var acc' := acc + PresentIds(page.items);
      if !Truthy(page.nextPageToken) then Listing(acc', [request])
      else
        var rest := ListFrom(channelId, maxResults, pages, k + 1, acc', page.nextPageToken);
        Listing(rest.videoIds, [request] + rest.requests)
  }

  /** What `list_recent_video_ids(channelId, maxResults)` returns and requests when the
      source serves `pages`. */
  function ListRecent(channelId: string, maxResults: int, pages: seq<Page>): Listing
  {
    ListFrom(channelId, maxResults, pages, 0, [], None)
  }

  /** The loop as the script runs it. */
  method ListRecentVideoIds(channelId: string, maxResults: int, pages: seq<Page>)
    returns (videoIds: seq<string>, requests: seq<PageRequest>)
    ensures Listing(videoIds, requests) == ListRecent(channelId, maxResults, pages)
  {
    ghost var spec := ListRecent(channelId, maxResults, pages);
    videoIds := [];
    requests := [];
    var pageToken: Option<string> := None;
    var k := 0;
    while |videoIds| < maxResults
      invariant k <= |pages|
      invariant requests + ListFrom(channelId, maxResults, pages, k, videoIds, pageToken).requests
        == spec.requests
      invariant ListFrom(channelId, maxResults, pages, k, videoIds, pageToken).videoIds == spec.videoIds
      decreases |pages| - k
    {
      ghost var rest := ListFrom(channelId, maxResults, pages, k, videoIds, pageToken);
      var request := PageRequest(channelId, RequestSize(maxResults, |videoIds|), pageToken);
      requests := requests + [request];
      var response := PageAt(pages, k);
      videoIds := AppendPresentIds(videoIds, response.items);
      if !Truthy(response.nextPageToken) {
        assert rest == Listing(videoIds, [request]);
        break;
      }
      ghost var tail := ListFrom(channelId, maxResults, pages, k + 1, videoIds, response.nextPageToken);
      assert rest == Listing(tail.videoIds, [request] + tail.requests);
      k := k + 1;
      pageToken := response.nextPageToken;
    }
  }

  /** The inner loop over one page's items: append each truthy `videoId`. */
  method AppendPresentIds(acc: seq<string>, items: seq<SearchItem>) returns (ids: seq<string>)
    ensures ids == acc + PresentIds(items)
  {
    ids := acc;
    var j := 0;
    while j < |items|
      invariant j <= |items|
      invariant ids == acc + PresentIds(items[..j])
    {
      var vid := VideoIdOf(items[j]);
      if Truthy(vid) {
        ids := ids + [vid.value];
      }
      assert items[..j + 1][..j] == items[..j];
      j := j + 1;
    }
    assert items[..j] == items;
  }

  // ---------------------------------------------------------------------------
  // Properties of the listing, first from any reachable loop state.

  /** The ids of a run are those of the pages it consumes, one page per request. */
  lemma {:induction false} ListFromIds(
    channelId: string, maxResults: int, pages: seq<Page>,
    k: nat, acc: seq<string>, token: Option<string>)
    requires k <= |pages|
    requires acc == Collected(pages, k)
    decreases |pages| - k
    ensures var r := ListFrom(channelId, maxResults, pages, k, acc, token);
      r.videoIds == Collected(pages, k + |r.requests|)
      && (r.requests == [] <==> |acc| >= maxResults)
  {
    if |acc| < maxResults {
      var page := PageAt(pages, k);
      if Truthy(page.nextPageToken) {
        ListFromIds(channelId, maxResults, pages, k + 1, acc + PresentIds(page.items), page.nextPageToken);
      }
    }
  }

  /** The i-th request of a run: issued with fewer than `maxResults` ids in hand, it asks
      for the remaining count capped at 50 and carries the previous page's cursor; every
      page but the last one consumed carried a cursor. */
  lemma {:induction false} ListFromRequest(
    channelId: string, maxResults: int, pages: seq<Page>,
    k: nat, acc: seq<string>, token: Option<string>, i: nat)
    requires k <= |pages|
    requires acc == Collected(pages, k)
    requires i < |ListFrom(channelId, maxResults, pages, k, acc, token).requests|
    decreases i
    ensures |Collected(pages, k + i)| < maxResults
    ensures ListFrom(channelId, maxResults, pages, k, acc, token).requests[i]
      == PageRequest(channelId, RequestSize(maxResults, |Collected(pages, k + i)|),
                     if i == 0 then token else PageAt(pages, k + i - 1).nextPageToken)
    ensures i + 1 < |ListFrom(channelId, maxResults, pages, k, acc, token).requests| ==>
      Truthy(PageAt(pages, k + i).nextPageToken)
  {
    var page := PageAt(pages, k);
    if i > 0 {
      ListFromRequest(channelId, maxResults, pages, k + 1, acc + PresentIds(page.items),
                      page.nextPageToken, i - 1);
    }
  }

  /** A run stops after a page that brings the count to `maxResults` or has no cursor. */
  lemma {:induction false} ListFromLast(
    channelId: string, maxResults: int, pages: seq<Page>,
    k: nat, acc: seq<string>, token: Option<string>)
    requires k <= |pages|
    requires acc == Collected(pages, k)
    decreases |pages| - k
    ensures var r := ListFrom(channelId, maxResults, pages, k, acc, token);
      r.requests != [] ==>
        |r.videoIds| >= maxResults || !Truthy(PageAt(pages, k + |r.requests| - 1).nextPageToken)
  {
    if |acc| < maxResults {
      var page := PageAt(pages, k);
      if Truthy(page.nextPageToken) {
        ListFromLast(channelId, maxResults, pages, k + 1, acc + PresentIds(page.items), page.nextPageToken);
      }
    }
  }

  // ---------------------------------------------------------------------------
  // Properties of `list_recent_video_ids`.

  /** The ids returned are the present ids of the pages consumed, concatenated in order;
      one page is consumed per request. */
  lemma ListingIsConcatenation(channelId: string, maxResults: int, pages: seq<Page>)
    ensures var r := ListRecent(channelId, maxResults, pages);
      r.videoIds == Collected(pages, |r.requests|)
  {
    ListFromIds(channelId, maxResults, pages, 0, [], None);
  }

  /** Each request asks for `min(50, maxResults - collected)` items, between 1 and 50,
      for the channel, following the previous page's cursor. */
  lemma ListingRequests(channelId: string, maxResults: int, pages: seq<Page>)
    ensures var r := ListRecent(channelId, maxResults, pages);
      forall i :: 0 <= i < |r.requests| ==>
        && r.requests[i].channelId == channelId
        && r.requests[i].maxResults == Min(50, maxResults - |Collected(pages, i)|)
        && 1 <= r.requests[i].maxResults <= 50
        && r.requests[i].pageToken == (if i == 0 then None else PageAt(pages, i - 1).nextPageToken)
  {
    var r := ListRecent(channelId, maxResults, pages);
    forall i | 0 <= i < |r.requests|
      ensures r.requests[i].maxResults == Min(50, maxResults - |Collected(pages, i)|)
      ensures r.requests[i] == PageRequest(channelId, r.requests[i].maxResults,
                                           if i == 0 then None else PageAt(pages, i - 1).nextPageToken)
      ensures |Collected(pages, i)| < maxResults
    {
      ListFromRequest(channelId, maxResults, pages, 0, [], None, i);
    }
  }

  /** No request is made, and nothing is returned, exactly when `maxResults <= 0`. */
  lemma ListingEmptyTarget(channelId: string, maxResults: int, pages: seq<Page>)
    ensures var r := ListRecent(channelId, maxResults, pages);
      (r.requests == [] <==> maxResults <= 0) && (maxResults <= 0 ==> r.videoIds == [])
  {
  }

  /** The loop goes on while it has fewer than `maxResults` ids and the page carried a
      cursor, and stops at the first page after which either fails: so a result shorter
      than `maxResults` means the last page consumed had no cursor. */
  lemma ListingStops(channelId: string, maxResults: int, pages: seq<Page>)
    ensures var r := ListRecent(channelId, maxResults, pages);
      var n := |r.requests|;
      && (forall i :: 0 <= i < n - 1 ==>
            Truthy(PageAt(pages, i).nextPageToken) && |Collected(pages, i + 1)| < maxResults)
      && (n > 0 && |r.videoIds| < maxResults ==> !Truthy(PageAt(pages, n - 1).nextPageToken))
  {
    var r := ListRecent(channelId, maxResults, pages);
    forall i | 0 <= i < |r.requests| - 1
      ensures Truthy(PageAt(pages, i).nextPageToken) && |Collected(pages, i + 1)| < maxResults
    {
      ListFromRequest(channelId, maxResults, pages, 0, [], None, i);
      ListFromRequest(channelId, maxResults, pages, 0, [], None, i + 1);
    }
    ListFromLast(channelId, maxResults, pages, 0, [], None);
  }

  /** The source honours page sizes when no page consumed holds more items than asked. */
  predicate HonoursPageSize(pages: seq<Page>, requests: seq<PageRequest>)
  {
    forall i :: 0 <= i < |requests| ==> |PageAt(pages, i).items| <= requests[i].maxResults
  }

  /** Never more than `maxResults` ids, provided the source honours page sizes. */
  lemma ListingBounded(channelId: string, maxResults: int, pages: seq<Page>)
    requires HonoursPageSize(pages, ListRecent(channelId, maxResults, pages).requests)
    ensures |ListRecent(channelId, maxResults, pages).videoIds| <= maxResults
      || ListRecent(channelId, maxResults, pages).videoIds == []
  {
    ListFromIds(channelId, maxResults, pages, 0, [], None);
    var r := ListRecent(channelId, maxResults, pages);
    var n := |r.requests|;
    if n > 0 {
      ListFromRequest(channelId, maxResults, pages, 0, [], None, n - 1);
      var before := Collected(pages, n - 1);
      assert |before| < maxResults;
      assert |PageAt(pages, n - 1).items| <= RequestSize(maxResults, |before|);
      assert Collected(pages, n) == before + PresentIds(PageAt(pages, n - 1).items);
    }
  }
}
