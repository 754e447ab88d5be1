/** Channel resolution: `resolve_channel_id` (ingest_youtube.py:18-29). */
module Resolver {
  import opened Common

  /** A `search.list` call for a channel: `q`, `type="channel"`, `part="snippet"`. */
  datatype SearchRequest = SearchRequest(q: string, maxResults: nat)

  /** One search hit; `channelId` is `None` when `snippet` or `snippet.channelId` is absent. */
  datatype ChannelHit = ChannelHit(channelId: Option<string>)

  /** The outcome of resolution and the search requests it issued, in order. */
  datatype Resolution = Resolution(channel: Result<string, Fatal>, searches: seq<SearchRequest>)

  /** Resolve the channel to ingest. `search` stands for the remote search endpoint. */
  function ResolveChannelId(
    channelId: Option<string>, channelQuery: Option<string>,
    search: SearchRequest -> seq<ChannelHit>): (r: Resolution)
    // a truthy explicit id is returned unchanged, and nothing is searched
    ensures Truthy(channelId) ==> r == Resolution(Ok(channelId.value), [])
    // at most one search is issued, limited to one result, for the query as given
    ensures |r.searches| <= 1
    ensures |r.searches| == 1 <==> !Truthy(channelId) && Truthy(channelQuery)
    ensures |r.searches| == 1 ==> r.searches[0] == SearchRequest(channelQuery.value, 1)
    // resolution fails exactly when there is neither an id nor a usable first hit
    ensures r.channel.Err? <==>
      !Truthy(channelId) &&
      (!Truthy(channelQuery) || search(SearchRequest(channelQuery.value, 1)) == [] ||
       search(SearchRequest(channelQuery.value, 1))[0].channelId.None?)
    ensures r.channel.Err? && !Truthy(channelQuery) ==> r.channel.error == MissingChannelInput
    ensures r.channel.Err? && Truthy(channelQuery) ==>
      r.channel.error == (if search(SearchRequest(channelQuery.value, 1)) == []
                          then ChannelNotFound(channelQuery.value) else MalformedSearchHit)
    // a resolved id is the explicit one or the first hit's
    ensures r.channel.Ok? && !Truthy(channelId) ==>
      r.channel.value == search(r.searches[0])[0].channelId.value
  {
    if Truthy(channelId) then Resolution(Ok(channelId.value), [])
    else if !Truthy(channelQuery) then Resolution(Err(MissingChannelInput), [])
    else
      var request := SearchRequest(channelQuery.value, 1);
      var items := search(request);
      if items == [] then Resolution(Err(ChannelNotFound(channelQuery.value)), [request])
      else if items[0].channelId.None? then Resolution(Err(MalformedSearchHit), [request])
      else Resolution(Ok(items[0].channelId.value), [request])
  }

  /** An explicit id is used as is; a query whose first hit names a channel resolves to it. */
  lemma ResolveExamples(search: SearchRequest -> seq<ChannelHit>)
    ensures ResolveChannelId(Some("UC123"), None, search) == Resolution(Ok("UC123"), [])
    ensures search(SearchRequest("Example Channel", 1)) == [ChannelHit(Some("UCabc"))] ==>
      ResolveChannelId(None, Some("Example Channel"), search).channel == Ok("UCabc")
  {
  }
}
