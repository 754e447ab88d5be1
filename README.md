# YouTube ingestion core, modelled in Dafny

This project models the ingestion pipeline of `ingest_youtube.py`. The pipeline:

1. resolves a channel from an explicit id or a search query;
2. pages through the channel's newest videos with a cursor;
3. fetches their metadata in batches of at most 50 ids;
4. coerces every returned item into a fixed 12-field record, defensively;
5. projects the records onto a fixed 12-column data frame.

The three remote endpoints (channel search, video search pages, `videos.list`) are
parameters: total functions from a request to a response, or, for the paged search, a
finite sequence of pages.

Modules, one per component:

- `Common`: `Option`, `Result`, the abort reasons `Fatal`, `Min`, and `Truthy`, which is Python truthiness for `str | None`.
- `Schema`: the cell value type, the row (a dict), and the 12 column names.
- `Coercion`: the raw item shape; `_to_int` over a model of Python's `int(str)`; the `|` tag join with its inverse `Split`; the record built per item and its dict.
- `Projection`: `to_dataframe`, that is `reindex(columns=cols)`.
- `Resolver`: `resolve_channel_id`. Its `sys.exit` calls and the `KeyError` on a malformed first hit become variants of `Fatal`.
- `Lister`: the paging loop of `list_recent_video_ids`, as a method. It is proved equal to the reference function `ListRecent`.
- `Fetcher`: the chunking loop of `fetch_videos_batch`, as a method. It is proved equal to `Chunks`, `FetchedItems` and `CoerceAll`.
- `Driver`: `main`, from resolution to the frame, including the abort on an empty listing.

Two points where the model keeps the code's exact behaviour rather than what the data usually looks like:

- `video_id` and `channel_id` are in practice always present. The code reads them with `it.get("id")` and `snip.get("channelId")`, which give `None` when the key is absent. The model does the same.
- The model keeps `Truthy` wherever the code tests truthiness. An empty-string channel id falls through to the query. An empty `videoId` is skipped. An empty `nextPageToken` ends the listing.

## Model

| member | source | states |
|---|---|---|
| `Schema.ColumnsDistinct` | ingest_youtube.py:91-95 | the schema names twelve pairwise distinct columns |
| `Coercion.ToInt` | ingest_youtube.py:84-88 | `None` input gives `None`; any integer produced came from a string holding a digit; total, so it never raises |
| `Coercion.ToIntRejects` | ingest_youtube.py:84-88 | a blank string, or one with a character that is not whitespace, digit, sign or underscore, gives `None` |
| `Coercion.ToIntExamples` | ingest_youtube.py:84-88 | a numeral padded with a space and a newline parses; one preceded by the file separator `\x1c`, which `int()` does not strip, gives `None` |
| `Coercion.ToIntRoundTrip` | ingest_youtube.py:84-88 | the decimal rendering of an integer, padded with any whitespace, parses back to that integer when it has at most 4300 digits, and gives `None` when it has more |
| `Coercion.Split` | ingest_youtube.py:75 | the inverse of the tag join (Python's `str.split` on the separator), used by `TagsRoundTrip`; it always yields at least one piece |
| `Coercion.JoinTags` | ingest_youtube.py:75 | the tags field is null exactly when the tag list is absent or empty |
| `Coercion.TagExamples` | ingest_youtube.py:75 | an empty tag list gives null, not an empty string; the tags `a` and `b` give `a` and `b` joined by the separator |
| `Coercion.TagsRoundTrip` | ingest_youtube.py:75 | when no tag contains the separator, the joined string splits back into the same tags in the same order |
| `Coercion.ToRow` | ingest_youtube.py:67-80 | the row dict has exactly the 12 schema keys, each holding the record field of that column |
| `Coercion.CoerceItem` | ingest_youtube.py:64-80 | `video_id` is the item's id; a present snippet, statistics or contentDetails map has each of its values carried into its field (a key missing inside it gives null), the three counts being `ToInt` of their strings; a missing map nulls all of its fields; tags are null iff absent or empty, otherwise the tags joined with the pipe separator |
| `Coercion.CoerceRow` | ingest_youtube.py:67-80 | every appended row has all twelve keys, whatever the item lacked |
| `Coercion.CoercedCounts` | ingest_youtube.py:77-79 | counts given as decimal strings become those integers; a count past the 4300-digit limit becomes null |
| `Projection.ToDataFrame` | ingest_youtube.py:90-97 | the frame has exactly the 12 columns in schema order; it has one row per input row, in input order; each cell is the row's value for that column, or null when the key is absent |
| `Projection.ExtraKeysDropped` | ingest_youtube.py:96-97 | rows that agree on the schema columns give the same frame, so keys outside the schema are dropped |
| `Projection.RowOrderKept` | ingest_youtube.py:96-97 | projecting a concatenation of row lists concatenates their frames' rows |
| `Projection.ProjectionInjective` | ingest_youtube.py:96-97 | for rows holding exactly the schema keys, equal frames imply equal rows, so nothing is lost |
| `Resolver.ResolveChannelId` | ingest_youtube.py:18-29 | a truthy explicit id is returned unchanged with no search; otherwise one search is made, with `maxResults` 1, iff the query is truthy; it fails iff there is no id and no query, no hit, or no `channelId` on the first hit, with the matching error; otherwise it returns the first hit's `channelId` |
| `Resolver.ResolveExamples` | ingest_youtube.py:18-29 | explicit id `UC123` resolves to itself without a search; the query `Example Channel` whose first hit names `UCabc` resolves to `UCabc` |
| `Lister.PresentIds` | ingest_youtube.py:44-47 | keeps at most one id per item, and never an empty one |
| `Lister.PresentIdsMembers` | ingest_youtube.py:44-47 | an id is kept iff it is non-empty and some item carries it as `id.videoId` |
| `Lister.AppendPresentIds` | ingest_youtube.py:44-47 | the inner loop appends exactly the page's present ids, in order |
| `Lister.ListRecentVideoIds` | ingest_youtube.py:31-52 | the cursor loop returns the ids and issues the requests that `ListRecent` specifies |
| `Lister.ListingIsConcatenation` | ingest_youtube.py:44-50 | the result is the in-order concatenation of the present ids of the pages consumed, one page per request |
| `Lister.ListingRequests` | ingest_youtube.py:34-42 | request i asks for `min(50, maxResults - collected)` items, which lies between 1 and 50; it names the channel; it carries no token first, then the previous page's `nextPageToken` |
| `Lister.ListingEmptyTarget` | ingest_youtube.py:34 | no request is made iff `maxResults <= 0`, and then the result is empty |
| `Lister.ListingStops` | ingest_youtube.py:34-50 | every consumed page but the last had a cursor and left the count below `maxResults`; a result shorter than `maxResults` means the last page had no cursor |
| `Lister.ListingBounded` | ingest_youtube.py:34-47 | if no page holds more items than requested, the result has at most `maxResults` ids, or none at all (the case when `maxResults` is negative) |
| `Fetcher.ChunksPartition` | ingest_youtube.py:56-57 | the chunks are ceil(n/50) contiguous slices of 1 to 50 ids, all but the last exactly 50; their concatenation is the input; no ids means no chunk |
| `Fetcher.HundredTwentyIds` | ingest_youtube.py:56-57 | 120 ids go out as three requests, of 50, 50 and 20 ids |
| `Fetcher.CoerceAll` | ingest_youtube.py:63-80 | one coerced row per item, in item order |
| `Fetcher.AppendRows` | ingest_youtube.py:63-80 | the inner loop appends one coerced row per response item, in order |
| `Fetcher.FetchVideosBatch` | ingest_youtube.py:54-82 | it requests exactly the chunks, in order; it returns the coerced items of their responses, in chunk order then response order |
| `Fetcher.FetchedItemsMembers` | ingest_youtube.py:58-63 | an item is fetched iff the response to some chunk returned it |
| `Fetcher.FetchedItemsAppend` | ingest_youtube.py:56-63 | items are gathered in chunk order: splitting the chunk list splits the items at the same point |
| `Fetcher.RowVideoId` | ingest_youtube.py:68 | a row's `video_id` cell is the id its item carried |
| `Fetcher.MissingIdsDropped` | ingest_youtube.py:58-67 | an id that no response returned yields no row and no failure |
| `Fetcher.RowsAreRequestedIds` | ingest_youtube.py:56-68 | if every response returns only ids of its own chunk, every row is about one of the requested ids |
| `Driver.Ingest` | ingest_youtube.py:115-125 | the driver's outcome is the one `IngestOutcome` defines |
| `Driver.RecordSurvivesProjection` | ingest_youtube.py:67-97 | projecting a coerced row onto the frame puts every record field in its own column |
| `Driver.IngestTable` | ingest_youtube.py:116-125 | a successful run yields a frame with the 12 columns and one row per returned item, in order, each row holding that item's coerced fields |
| `Driver.IngestAborts` | ingest_youtube.py:116-121 | the run aborts iff resolution fails or the listing is empty; `maxResults <= 0` always aborts; after a successful resolution the only abort is "no videos" |

## Left out

- `get_youtube` (ingest_youtube.py:12-16): it reads the API key from the environment and builds the client library object. That is a foreign call. The endpoints are parameters instead.
- Transport failures of any request (an HTTP error raised by `execute()`) are not modelled. They propagate and abort the run.
- `time.sleep(0.15)` (ingest_youtube.py:51, 81) is timing only.
- `save_csv` and the progress `print`s (ingest_youtube.py:99-102, 117, 122, 127) are file and console I/O. So is the CSV round trip that depends on pandas' writer.
- `load_dotenv`, `argparse` and the environment defaults for `--channel-id` and `--max-results` (ingest_youtube.py:106-113) are command-line plumbing. Their values are parameters of `Driver.Ingest`.
- `Lister.ListRecentVideoIds`: the page stream is finite. A used-up stream answers with an empty page without a token, so the loop always ends. The real loop would run forever against a source that keeps returning id-less pages with a cursor.
- `Lister.ListRecentVideoIds`: the k-th response depends only on k. It does not depend on the requested size or the token. The requests are recorded so that their sizes and tokens can be stated.
- `Fetcher.FetchVideosBatch`: the `videos.list` call receives the chunk itself. The comma-joined `id` string it is sent as is not modelled.
- `Coercion.ToInt`: Python's `int()` also accepts non-ASCII digits and non-ASCII whitespace. The model accepts only the ASCII whitespace that `int()` strips (tab to carriage return, and the space; not `\x1c`–`\x1f`), an optional sign, and ASCII digits grouped by single underscores.
- `Coercion.ToInt`: the digit limit is CPython's default of 4300 (`MaxStrDigits`), in force since Python 3.10.7. Changing it with `sys.set_int_max_str_digits` or `PYTHONINTMAXSTRDIGITS` is not modelled, and neither are older interpreters without a limit.
- `Coercion.CoerceItem`: raw fields have the types the API documents. A nested value of another type (for example a null `snippet`, which makes `.get` raise) is not modelled.
- pandas value representation: nulls are `None` throughout. pandas turns a count column holding a null into floating point; the model keeps integers.
