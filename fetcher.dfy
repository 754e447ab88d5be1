/** Batched metadata retrieval: `fetch_videos_batch` (ingest_youtube.py:54-82). The ids
    are cut into consecutive chunks of at most 50, one `videos.list` call per chunk, and
    every returned item is coerced into one row, in chunk order then response order. */
module Fetcher {
  import opened Common
  import opened Schema
  import opened Coercion

  /** The source's ceiling on ids per `videos.list` call. */
  const BatchSize := 50

  /** `len(range(0, n, 50))`. */
  function ChunkCount(n: nat): nat
  {
    (n + BatchSize - 1) / BatchSize
  }

  /** `video_ids[i:i+50]` for each `i` in `range(0, len(video_ids), 50)`. */
  function Chunks(ids: seq<string>): seq<seq<string>>
  {
    seq(ChunkCount(|ids|), j requires 0 <= j < ChunkCount(|ids|) =>
      ids[BatchSize * j .. Min(BatchSize * j + BatchSize, |ids|)])
  }

  /** The concatenation of a list of chunks. */
  function Flatten(chunks: seq<seq<string>>): seq<string>
  {
    if chunks == [] then [] else Flatten(chunks[..|chunks| - 1]) + chunks[|chunks| - 1]
  }

  lemma {:induction false} FlattenChunksPrefix(ids: seq<string>, m: nat)
    requires m <= ChunkCount(|ids|)
    ensures Flatten(Chunks(ids)[..m]) == ids[..Min(BatchSize * m, |ids|)]
  {
    if m > 0 {
      var cs := Chunks(ids);
      FlattenChunksPrefix(ids, m - 1);
      assert cs[..m][..m - 1] == cs[..m - 1];
      assert BatchSize * (m - 1) < |ids|;
      assert ids[..Min(BatchSize * m, |ids|)]
        == ids[..BatchSize * (m - 1)] + ids[BatchSize * (m - 1) .. Min(BatchSize * m, |ids|)];
    }
  }

  /** The chunks partition the ids: there are ceil(n/50) of them, each non-empty and at
      most 50 long, all but the last exactly 50, and concatenated in order they give back
      the ids. No ids, no chunk. */
  lemma ChunksPartition(ids: seq<string>)
    ensures |Chunks(ids)| == ChunkCount(|ids|)
    ensures ids == [] <==> Chunks(ids) == []
    ensures forall j :: 0 <= j < |Chunks(ids)| ==> 1 <= |Chunks(ids)[j]| <= BatchSize
    ensures forall j :: 0 <= j < |Chunks(ids)| - 1 ==> |Chunks(ids)[j]| == BatchSize
    ensures Flatten(Chunks(ids)) == ids
  {
    var cs := Chunks(ids);
    FlattenChunksPrefix(ids, |cs|);
    assert cs[..|cs|] == cs;
    assert BatchSize * |cs| >= |ids|;
  }

  /** 120 ids go out as three requests, of 50, 50 and 20 ids. */
  lemma HundredTwentyIds(ids: seq<string>)
    requires |ids| == 120
    ensures |Chunks(ids)| == 3
    ensures |Chunks(ids)[0]| == 50 && |Chunks(ids)[1]| == 50 && |Chunks(ids)[2]| == 20
  {
  }

  /** The items of the responses to `chunks`, in chunk order then response order;
      `fetch` stands for one `videos.list` call on a chunk. */
  function FetchedItems(chunks: seq<seq<string>>, fetch: seq<string> -> seq<RawVideo>): seq<RawVideo>
  {
    if chunks == [] then []
    else FetchedItems(chunks[..|chunks| - 1], fetch) + fetch(chunks[|chunks| - 1])
  }

  /** One coerced row per item, in item order. */
  function CoerceAll(items: seq<RawVideo>): (rows: seq<Row>)
    ensures |rows| == |items|
    ensures forall i :: 0 <= i < |items| ==> rows[i] == CoerceRow(items[i])
  {
    if items == [] then [] else CoerceAll(items[..|items| - 1]) + [CoerceRow(items[|items| - 1])]
  }

  /** The loop as the script runs it; `requests` are the chunks sent, in order. */
  method FetchVideosBatch(ids: seq<string>, fetch: seq<string> -> seq<RawVideo>)
    returns (rows: seq<Row>, requests: seq<seq<string>>)
    ensures requests == Chunks(ids)
    ensures rows == CoerceAll(FetchedItems(requests, fetch))
  {
    rows := [];
    requests := [];
    var i := 0;
    while i < |ids|
      invariant i == BatchSize * |requests|
      invariant |requests| <= ChunkCount(|ids|)
      invariant requests == Chunks(ids)[..|requests|]
      invariant rows == CoerceAll(FetchedItems(requests, fetch))
      decreases |ids| - i
    {
      var chunk := ids[i..Min(i + BatchSize, |ids|)];
      var response := fetch(chunk);
      ghost var before := rows;
      rows := AppendRows(rows, response);
      ChunkBound(|ids|, |requests|);
      assert chunk == Chunks(ids)[|requests|];
      FetchedItemsStep(requests, chunk, fetch);
      CoerceAllAppend(FetchedItems(requests, fetch), response);
      requests := requests + [chunk];
      i := i + BatchSize;
    }
    ChunkBound(|ids|, |requests|);
    assert Chunks(ids)[..|requests|] == Chunks(ids);
  }

  /** The j-th chunk exists exactly when it starts before the end of the ids. */
  lemma ChunkBound(n: nat, j: nat)
    ensures j < ChunkCount(n) <==> BatchSize * j < n
  {
  }

  lemma FetchedItemsStep(chunks: seq<seq<string>>, chunk: seq<string>, fetch: seq<string> -> seq<RawVideo>)
    ensures FetchedItems(chunks + [chunk], fetch) == FetchedItems(chunks, fetch) + fetch(chunk)
  {
  }

  /** The inner loop over one response: append one coerced row per item. */
  method AppendRows(acc: seq<Row>, items: seq<RawVideo>) returns (rows: seq<Row>)
    ensures rows == acc + CoerceAll(items)
  {
    rows := acc;
    var j := 0;
    while j < |items|
      invariant j <= |items|
      invariant rows == acc + CoerceAll(items[..j])
    {
      rows := rows + [CoerceRow(items[j])];
      assert items[..j + 1][..j] == items[..j];
      j := j + 1;
    }
    assert items[..j] == items;
  }

  // ---------------------------------------------------------------------------
  // Properties of the fetched rows.

  /** Coercing a concatenation concatenates the coerced rows. */
  lemma CoerceAllAppend(a: seq<RawVideo>, b: seq<RawVideo>)
    ensures CoerceAll(a + b) == CoerceAll(a) + CoerceAll(b)
  {
    var l, r := CoerceAll(a + b), CoerceAll(a) + CoerceAll(b);
    forall i | 0 <= i < |a + b|
      ensures l[i] == r[i]
    {
      if i < |a| {
        assert (a + b)[i] == a[i];
      } else {
        assert (a + b)[i] == b[i - |a|];
      }
    }
  }

  /** An item is fetched exactly when the response to one of the chunks returned it. */
  lemma {:induction false} FetchedItemsMembers(
    chunks: seq<seq<string>>, fetch: seq<string> -> seq<RawVideo>, it: RawVideo)
    ensures it in FetchedItems(chunks, fetch) <==>
      exists j :: 0 <= j < |chunks| && it in fetch(chunks[j])
  {
    if chunks != [] {
      var init := chunks[..|chunks| - 1];
      FetchedItemsMembers(init, fetch, it);
      if exists j :: 0 <= j < |chunks| && it in fetch(chunks[j]) {
        var j :| 0 <= j < |chunks| && it in fetch(chunks[j]);
        if j < |init| {
          assert it in fetch(init[j]);
        }
      }
      if it in FetchedItems(init, fetch) {
        var j :| 0 <= j < |init| && it in fetch(init[j]);
        assert chunks[j] == init[j];
      }
    }
  }

  /** Fetched items arrive in chunk order: the items of a chunk list split in two are
      those of the first part followed by those of the second. */
  lemma {:induction false} FetchedItemsAppend(
    a: seq<seq<string>>, b: seq<seq<string>>, fetch: seq<string> -> seq<RawVideo>)
    ensures FetchedItems(a + b, fetch) == FetchedItems(a, fetch) + FetchedItems(b, fetch)
  {
    if b == [] {
      assert a + b == a;
    } else {
      FetchedItemsAppend(a, b[..|b| - 1], fetch);
      assert (a + b)[..|a + b| - 1] == a + b[..|b| - 1];
    }
  }

  /** The video id cell of a fetched row is the id its item carried. */
  lemma RowVideoId(it: RawVideo)
    ensures "video_id" in CoerceRow(it)
    ensures CoerceRow(it)["video_id"] == Text(it.id)
  {
  }

  /** An id that no response returned produces no row, and causes no failure: every
      row comes from a returned item, so the row count is the number of items returned,
      whatever the number of ids asked for. */
  lemma MissingIdsDropped(ids: seq<string>, fetch: seq<string> -> seq<RawVideo>, x: string)
    requires forall j, it :: 0 <= j < |Chunks(ids)| && it in fetch(Chunks(ids)[j]) ==> it.id != Some(x)
    ensures var rows := CoerceAll(FetchedItems(Chunks(ids), fetch));
      forall i :: 0 <= i < |rows| ==> rows[i]["video_id"] != Some(Str(x))
  {
    var items := FetchedItems(Chunks(ids), fetch);
    var rows := CoerceAll(items);
    forall i | 0 <= i < |rows|
      ensures rows[i]["video_id"] != Some(Str(x))
    {
      FetchedItemsMembers(Chunks(ids), fetch, items[i]);
      RowVideoId(items[i]);
    }
  }

  /** The source answers honestly when every item it returns for a chunk carries one of
      that chunk's ids. */
  predicate HonestResponses(chunks: seq<seq<string>>, fetch: seq<string> -> seq<RawVideo>)
  {
    forall j, it :: 0 <= j < |chunks| && it in fetch(chunks[j]) ==>
      it.id.Some? && it.id.value in chunks[j]
  }

  /** With an honest source, every row is about one of the ids asked for. */
  lemma RowsAreRequestedIds(ids: seq<string>, fetch: seq<string> -> seq<RawVideo>)
    requires HonestResponses(Chunks(ids), fetch)
    ensures var rows := CoerceAll(FetchedItems(Chunks(ids), fetch));
      forall i :: 0 <= i < |rows| ==> exists x :: x in ids && rows[i]["video_id"] == Some(Str(x))
  {
    var cs := Chunks(ids);
    var items := FetchedItems(cs, fetch);
    var rows := CoerceAll(items);
    forall i | 0 <= i < |rows|
      ensures exists x :: x in ids && rows[i]["video_id"] == Some(Str(x))
    {
      FetchedItemsMembers(cs, fetch, items[i]);
      var j :| 0 <= j < |cs| && items[i] in fetch(cs[j]);
      var x := items[i].id.value;
      ChunkWithinIds(ids, j);
      RowVideoId(items[i]);
      assert x in ids && rows[i]["video_id"] == Some(Str(x));
    }
  }

  /** Every id of a chunk is one of the ids. */
  lemma ChunkWithinIds(ids: seq<string>, j: nat)
    requires j < |Chunks(ids)|
    ensures forall x :: x in Chunks(ids)[j] ==> x in ids
  {
  }
}
