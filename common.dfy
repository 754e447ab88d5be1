/** Vocabulary shared by the ingestion modules: optional values, results, the reasons a
    run aborts, and the truthiness test that the ingestion script applies to optional strings. */
module Common {

  /** A value that may be absent; `None` stands for Python's `None` and for pandas' null. */
  datatype Option<+T> = None | Some(value: T)

  /** The outcome of a step that can abort the run. */
  datatype Result<+T, +E> = Ok(value: T) | Err(error: E)

  /** Why a run aborts. The first three are raised during resolution, the last by the
      driver once listing has found nothing. */
  datatype Fatal =
    | MissingChannelInput        // sys.exit: neither --channel-id nor --channel-query
    | ChannelNotFound(query: string)  // sys.exit: the channel search returned no items
    | MalformedSearchHit         // KeyError: the first hit lacks snippet.channelId
    | NoVideos                   // sys.exit in main: the listing came back empty

  /** Python truthiness of a `str | None`: both `None` and the empty string are false. */
  predicate Truthy(s: Option<string>)
  {
    s.Some? && s.value != ""
  }

  function Min(a: int, b: int): int
  {
    if a <= b then a else b
  }
}
