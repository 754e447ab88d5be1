/** The pipeline driver: `main` (ingest_youtube.py:115-125) from channel resolution to
    the data frame, with the empty-listing abort (ingest_youtube.py:119-121). */
module Driver {
  import opened Common
  import opened Schema
  import opened Coercion
  import opened Projection
  import opened Resolver
  import opened Lister
  import opened Fetcher

  /** The run's outcome: the frame that would be written, or why the run aborts.
      `search`, `pagesFor` and `fetch` stand for the three remote endpoints; `pagesFor`
      gives the page stream the source serves for a channel. */
  function IngestOutcome(
    channelId: Option<string>, channelQuery: Option<string>, maxResults: int,
    search: SearchRequest -> seq<ChannelHit>,
    pagesFor: string -> seq<Page>,
    fetch: seq<string> -> seq<RawVideo>): Result<Table, Fatal>
  {
    var resolved := ResolveChannelId(channelId, channelQuery, search).channel;
    if resolved.Err? then Err(resolved.error)
    else
      var videoIds := ListRecent(resolved.value, maxResults, pagesFor(resolved.value)).videoIds;
      if videoIds == [] then Err(NoVideos)
      else Ok(ToDataFrame(CoerceAll(FetchedItems(Chunks(videoIds), fetch))))
  }

  /** The driver as the script runs it. */
  method Ingest(
    channelId: Option<string>, channelQuery: Option<string>, maxResults: int,
    search: SearchRequest -> seq<ChannelHit>,
    pagesFor: string -> seq<Page>,
    fetch: seq<string> -> seq<RawVideo>)
    returns (r: Result<Table, Fatal>)
    ensures r == IngestOutcome(channelId, channelQuery, maxResults, search, pagesFor, fetch)
  {
    var resolution := ResolveChannelId(channelId, channelQuery, search);
    if resolution.channel.Err? {
      return Err(resolution.channel.error);
    }
    var channel := resolution.channel.value;
    var videoIds, _ := ListRecentVideoIds(channel, maxResults, pagesFor(channel));
    if videoIds == [] {
      return Err(NoVideos);
    }
    var rows, _ := FetchVideosBatch(videoIds, fetch);
    r := Ok(ToDataFrame(rows));
  }

  /** Projecting a coerced row keeps every field, in its column. */
  lemma RecordSurvivesProjection(rec: VideoRecord)
    ensures Reindex(ToRow(rec)) == Cells(rec)
  {
  }

  /** A successful run yields a frame with exactly the twelve columns, one row per item
      the metadata responses returned, in chunk order then response order, each row
      holding that item's coerced fields. */
  lemma IngestTable(
    channelId: Option<string>, channelQuery: Option<string>, maxResults: int,
    search: SearchRequest -> seq<ChannelHit>,
    pagesFor: string -> seq<Page>,
    fetch: seq<string> -> seq<RawVideo>)
    requires IngestOutcome(channelId, channelQuery, maxResults, search, pagesFor, fetch).Ok?
    ensures var t := IngestOutcome(channelId, channelQuery, maxResults, search, pagesFor, fetch).value;
      var channel := ResolveChannelId(channelId, channelQuery, search).channel.value;
      var items := FetchedItems(Chunks(ListRecent(channel, maxResults, pagesFor(channel)).videoIds), fetch);
      && t.columns == Columns
      && |t.rows| == |items|
      && forall i :: 0 <= i < |items| ==> t.rows[i] == Cells(CoerceItem(items[i]))
  {
  }

  /** The run aborts exactly when resolution fails or the listing is empty; in particular
      a non-positive `maxResults` always aborts. */
  lemma IngestAborts(
    channelId: Option<string>, channelQuery: Option<string>, maxResults: int,
    search: SearchRequest -> seq<ChannelHit>,
    pagesFor: string -> seq<Page>,
    fetch: seq<string> -> seq<RawVideo>)
    ensures var r := IngestOutcome(channelId, channelQuery, maxResults, search, pagesFor, fetch);
      var resolved := ResolveChannelId(channelId, channelQuery, search).channel;
      && (r.Err? <==>
            (resolved.Err? || ListRecent(resolved.value, maxResults, pagesFor(resolved.value)).videoIds == []))
      && (maxResults <= 0 ==> r.Err?)
      && (r.Err? && resolved.Ok? ==> r.error == NoVideos)
  {
  }
}
