/** Record coercion: the defensive per-item field extraction of `fetch_videos_batch`
    (ingest_youtube.py:64-80) and the integer parser `_to_int` (ingest_youtube.py:84-88). */
module Coercion {
  import opened Common
  import opened Schema

  // ---------------------------------------------------------------------------
  // Raw items of a `videos.list` response. A field is `None` when its key is absent.

  datatype Snippet = Snippet(
    channelId: Option<string>,
    channelTitle: Option<string>,
    title: Option<string>,
    description: Option<string>,
    publishedAt: Option<string>,
    tags: Option<seq<string>>,
    defaultLanguage: Option<string>)

  datatype Statistics = Statistics(
    viewCount: Option<string>,
    likeCount: Option<string>,
    commentCount: Option<string>)

  datatype ContentDetails = ContentDetails(duration: Option<string>)

  datatype RawVideo = RawVideo(
    id: Option<string>,
    snippet: Option<Snippet>,
    statistics: Option<Statistics>,
    contentDetails: Option<ContentDetails>)

  /** What `it.get("snippet", {})` and friends yield when the nested map is absent. */
  const EmptySnippet := Snippet(None, None, None, None, None, None, None)
  const EmptyStatistics := Statistics(None, None, None)
  const EmptyContentDetails := ContentDetails(None)

  // ---------------------------------------------------------------------------
  // Python's int(str), restricted to ASCII.

  /** The ASCII whitespace `int()` strips around a numeral: tab to carriage return, and
      the space. The information separators `\x1c` to `\x1f` are not among them. */
  predicate IsSpace(c: char)
  {
    c == ' ' || '\t' <= c <= '\r'
  }

  predicate IsDigit(c: char)
  {
    '0' <= c <= '9'
  }

  function DigitValue(c: char): nat
    requires IsDigit(c)
  {
    (c as int) - ('0' as int)
  }

  function TrimLeft(s: string): string
  {
    if s != [] && IsSpace(s[0]) then TrimLeft(s[1..]) else s
  }

  function TrimRight(s: string): string
  {
    if s != [] && IsSpace(s[|s| - 1]) then TrimRight(s[..|s| - 1]) else s
  }

  /** Leading and trailing whitespace removed, as `int()` does before parsing. */
  function Strip(s: string): string
  {
    TrimRight(TrimLeft(s))
  }

  /** Decimal digits, optionally grouped by single underscores between two digits. */
  predicate IsDigitRun(s: string)
  {
    && |s| > 0
    && IsDigit(s[0])
    && IsDigit(s[|s| - 1])
    && (forall i :: 0 <= i < |s| ==> IsDigit(s[i]) || s[i] == '_')
    && (forall i :: 0 <= i < |s| - 1 ==> IsDigit(s[i]) || IsDigit(s[i + 1]))
  }

  /** The number a run of digits denotes, underscores ignored. */
  function DigitsValue(s: string): nat
    requires forall i :: 0 <= i < |s| ==> IsDigit(s[i]) || s[i] == '_'
  {
    if s == [] then 0
    else
      var init := DigitsValue(s[..|s| - 1]);
      if s[|s| - 1] == '_' then init else 10 * init + DigitValue(s[|s| - 1])
  }

  /** CPython's default `sys.get_int_max_str_digits()`: since Python 3.10.7, `int()` of a
      decimal string with more digits than this raises `ValueError`. */
  const MaxStrDigits: nat := 4300

  /** The number of digits in `s`; underscores do not count towards the limit. */
  function DigitCount(s: string): nat
  {
    if s == [] then 0
    else DigitCount(s[..|s| - 1]) + (if IsDigit(s[|s| - 1]) then 1 else 0)
  }

  /** An unsigned numeral that `int()` accepts: a digit run within the digit limit. */
  predicate Numeral(s: string)
  {
    IsDigitRun(s) && DigitCount(s) <= MaxStrDigits
  }

  /** `int(s)` for a string `s`: `None` where Python raises `ValueError`. */
  function ParseInt(s: string): Option<int>
  {
    ParseStripped(Strip(s))
  }

  /** The parse of a string whose surrounding whitespace is already removed. */
  function ParseStripped(t: string): Option<int>
  {
    if t == [] then None
    else if t[0] == '-' || t[0] == '+' then
      if Numeral(t[1..]) then
        var magnitude: int := DigitsValue(t[1..]);
        Some(if t[0] == '-' then -magnitude else magnitude)
      else None
    else if Numeral(t) then Some(DigitsValue(t))
    else None
  }

  /** `_to_int`: `None` for a missing value, otherwise `int(v)` with every failure
      turned into `None`. It never fails. */
  function ToInt(v: Option<string>): (r: Option<int>)
    ensures v.None? ==> r.None?
    ensures r.Some? ==> v.Some? && exists i :: 0 <= i < |v.value| && IsDigit(v.value[i])
  {
    match v
    case None => None
    case Some(s) =>
      var r := ParseInt(s);
      if r.Some? then ParsedHasDigit(s); r else r
  }

  /** A string that parses holds at least one digit. */
  lemma ParsedHasDigit(s: string)
    requires ParseInt(s).Some?
    ensures exists i :: 0 <= i < |s| && IsDigit(s[i])
  {
    var t := Strip(s);
    StripChars(s);
    var k := if t[0] == '-' || t[0] == '+' then 1 else 0;
    assert IsDigit(t[k]);
    assert t[k] in s;
  }

  /** Stripping keeps only characters of the input and removes only whitespace. */
  lemma {:induction false} StripChars(s: string)
    ensures forall c :: c in Strip(s) ==> c in s
    ensures forall c :: c in s && !IsSpace(c) ==> c in Strip(s)
  {
    TrimLeftChars(s);
    TrimRightChars(TrimLeft(s));
  }

  lemma {:induction false} TrimLeftChars(s: string)
    ensures forall c :: c in TrimLeft(s) ==> c in s
    ensures forall c :: c in s && !IsSpace(c) ==> c in TrimLeft(s)
  {
    if s != [] && IsSpace(s[0]) {
      TrimLeftChars(s[1..]);
      assert s == [s[0]] + s[1..];
    }
  }

  lemma {:induction false} TrimRightChars(s: string)
    ensures forall c :: c in TrimRight(s) ==> c in s
    ensures forall c :: c in s && !IsSpace(c) ==> c in TrimRight(s)
  {
    if s != [] && IsSpace(s[|s| - 1]) {
      TrimRightChars(s[..|s| - 1]);
      assert s == s[..|s| - 1] + [s[|s| - 1]];
    }
  }

  /** A string holding a character that is neither whitespace, a digit, a sign nor an
      underscore never parses; neither does a blank one. */
  lemma ToIntRejects(s: string)
    requires (exists i :: 0 <= i < |s| && !IsSpace(s[i]) && !IsDigit(s[i]) && s[i] !in "+-_")
      || (forall i :: 0 <= i < |s| ==> IsSpace(s[i]))
    ensures ToInt(Some(s)) == None
  {
    StripChars(s);
    var t := Strip(s);
    if exists i :: 0 <= i < |s| && !IsSpace(s[i]) && !IsDigit(s[i]) && s[i] !in "+-_" {
      var i :| 0 <= i < |s| && !IsSpace(s[i]) && !IsDigit(s[i]) && s[i] !in "+-_";
      assert s[i] in t;
      var j :| 0 <= j < |t| && t[j] == s[i];
      if t[0] == '-' || t[0] == '+' {
        assert j > 0 && t[1..][j - 1] == t[j];
      }
    } else if t != [] {
      assert t[0] in s;
    }
  }

  /** `int()` strips a space and a newline around a numeral, but not the file separator
      `\x1c`, so `_to_int` turns a numeral preceded by it into null. */
  lemma ToIntExamples()
    ensures ToInt(Some(" 42\n")) == Some(42)
    ensures ToInt(Some("\U{001C}5")) == None
  {
    assert Strip(" 42\n") == "42" by {
      assert TrimLeft(" 42\n") == TrimLeft("42\n") == "42\n";
      assert TrimRight("42\n") == TrimRight("42") == "42";
    }
    assert DigitsValue("42") == 10 * DigitsValue("4") + 2 by {
      assert "42"[..1] == "4";
    }
    assert DigitCount("42") == 2 by {
      assert "42"[..1] == "4";
      assert "4"[..0] == "";
    }
    assert Strip("\U{001C}5") == "\U{001C}5";
  }

  // ---------------------------------------------------------------------------
  // Decimal rendering: how the API writes a count, the inverse of ParseInt.

  function DigitChar(d: nat): (c: char)
    requires d < 10
    ensures IsDigit(c) && DigitValue(c) == d
  {
    ('0' as int + d) as char
  }

  function ShowNat(n: nat): string
  {
    if n < 10 then [DigitChar(n)] else ShowNat(n / 10) + [DigitChar(n % 10)]
  }

  function ShowInt(n: int): string
  {
    if n < 0 then "-" + ShowNat(-n) else ShowNat(n)
  }

  lemma {:induction false} ShowNatDigits(n: nat)
    ensures |ShowNat(n)| > 0
    ensures forall i :: 0 <= i < |ShowNat(n)| ==> IsDigit(ShowNat(n)[i])
    ensures DigitsValue(ShowNat(n)) == n
  {
    if n >= 10 {
      ShowNatDigits(n / 10);
      var s := ShowNat(n / 10) + [DigitChar(n % 10)];
      assert s[..|s| - 1] == ShowNat(n / 10);
    }
  }

  lemma TrimLeftSpaces(pad: string, t: string)
    requires forall i :: 0 <= i < |pad| ==> IsSpace(pad[i])
    requires t != [] && !IsSpace(t[0])
    ensures TrimLeft(pad + t) == t
  {
    if pad != [] {
      assert (pad + t)[1..] == pad[1..] + t;
      TrimLeftSpaces(pad[1..], t);
    }
  }

  lemma TrimRightSpaces(t: string, pad: string)
    requires forall i :: 0 <= i < |pad| ==> IsSpace(pad[i])
    requires t != [] && !IsSpace(t[|t| - 1])
    ensures TrimRight(t + pad) == t
  {
    if pad != [] {
      assert (t + pad)[..|t + pad| - 1] == t + pad[..|pad| - 1];
      TrimRightSpaces(t, pad[..|pad| - 1]);
    }
  }

  /** The rendering of `n` has at most `MaxStrDigits` digits, so `int()` accepts it. */
  predicate WithinDigitLimit(n: int)
  {
    |ShowNat(if n < 0 then -n else n)| <= MaxStrDigits
  }

  /** Round trip: a decimal rendering of an integer, surrounded by any whitespace, parses
      back to that integer when it is within the digit limit, and fails otherwise. */
  lemma ToIntRoundTrip(n: int, before: string, after: string)
    requires forall i :: 0 <= i < |before| ==> IsSpace(before[i])
    requires forall i :: 0 <= i < |after| ==> IsSpace(after[i])
    ensures WithinDigitLimit(n) ==> ToInt(Some(before + ShowInt(n) + after)) == Some(n)
    ensures !WithinDigitLimit(n) ==> ToInt(Some(before + ShowInt(n) + after)) == None
  {
    var t := ShowInt(n);
    ParseShown(n);
    TrimLeftSpaces(before, t + after);
    assert before + t + after == before + (t + after);
    TrimRightSpaces(t, after);
  }

  /** A string of digits only has as many digits as characters. */
  lemma {:induction false} DigitCountAllDigits(s: string)
    requires forall i :: 0 <= i < |s| ==> IsDigit(s[i])
    ensures DigitCount(s) == |s|
  {
    if s != [] {
      DigitCountAllDigits(s[..|s| - 1]);
    }
  }

  /** A rendering starts and ends with a non-space; it parses back to its number exactly
      when it is within the digit limit. */
  lemma ParseShown(n: int)
    ensures ShowInt(n) != []
    ensures !IsSpace(ShowInt(n)[0]) && !IsSpace(ShowInt(n)[|ShowInt(n)| - 1])
    ensures ParseStripped(ShowInt(n)) == if WithinDigitLimit(n) then Some(n) else None
  {
    var m: nat := if n < 0 then -n else n;
    ShowNatDigits(m);
    DigitCountAllDigits(ShowNat(m));
    var t := ShowInt(n);
    if n < 0 {
      assert t[1..] == ShowNat(m);
      assert IsDigitRun(t[1..]);
    } else {
      assert IsDigitRun(t);
    }
  }

  // ---------------------------------------------------------------------------
  // The tag list encoding.

  const TagSeparator: char := '|'

  /** `"|".join(parts)`. */
  function Join(parts: seq<string>): string
  {
    if |parts| == 0 then ""
    else if |parts| == 1 then parts[0]
    else parts[0] + [TagSeparator] + Join(parts[1..])
  }

  /** The inverse of Join: the pieces of `s` between separators. */
  function Split(s: string): (r: seq<string>)
    ensures |r| >= 1
  {
    if s == [] then [""]
    else
      var rest := Split(s[1..]);
      if s[0] == TagSeparator then [""] + rest else [[s[0]] + rest[0]] + rest[1..]
  }

  /** The `tags` field: the tags joined with `|` when the list is present and non-empty,
      otherwise null. */
  function JoinTags(tags: Option<seq<string>>): (r: Option<string>)
    ensures r.None? <==> tags.None? || tags.value == []
  {
    if tags.Some? && tags.value != [] then Some(Join(tags.value)) else None
  }

  /** An empty tag list gives null, not an empty string; two tags are joined in order. */
  lemma TagExamples()
    ensures JoinTags(Some([])) == None
    ensures JoinTags(Some(["a", "b"])) == Some("a|b")
  {
    assert ["a", "b"][1..] == ["b"];
    assert "a" + [TagSeparator] + "b" == "a|b";
  }

  lemma {:induction false} SplitPrefix(p: string, tail: string)
    requires TagSeparator !in p
    ensures Split(p + tail) == [p + Split(tail)[0]] + Split(tail)[1..]
  {
    if p != [] {
      assert (p + tail)[1..] == p[1..] + tail;
      SplitPrefix(p[1..], tail);
      assert [p[0]] + (p[1..] + Split(tail)[0]) == p + Split(tail)[0];
    } else {
      var r := Split(tail);
      assert p + tail == tail && p + r[0] == r[0];
      assert r == [r[0]] + r[1..];
    }
  }

  lemma {:induction false} SplitJoin(parts: seq<string>)
    requires |parts| >= 1
    requires forall k :: 0 <= k < |parts| ==> TagSeparator !in parts[k]
    ensures Split(Join(parts)) == parts
  {
    if |parts| == 1 {
      SplitPrefix(parts[0], "");
      assert parts[0] + "" == parts[0];
      assert Split("") == [""];
      assert [parts[0]] + Split("")[1..] == parts;
    } else {
      SplitJoin(parts[1..]);
      var rest := [TagSeparator] + Join(parts[1..]);
      assert Join(parts) == parts[0] + rest;
      SplitPrefix(parts[0], rest);
      assert rest[1..] == Join(parts[1..]);
      assert Split(rest) == [""] + parts[1..];
      assert parts[0] + Split(rest)[0] == parts[0];
      assert parts == [parts[0]] + parts[1..];
    }
  }

  /** The joined tags can be split back into the original list, in order, whenever
      no tag contains the separator. */
  lemma TagsRoundTrip(tags: seq<string>)
    requires tags != []
    requires forall k :: 0 <= k < |tags| ==> TagSeparator !in tags[k]
    ensures JoinTags(Some(tags)).Some?
    ensures Split(JoinTags(Some(tags)).value) == tags
  {
    SplitJoin(tags);
  }

  // ---------------------------------------------------------------------------
  // The row built for one response item.

  /** The twelve fields of one ingested video, typed; null is `None`. */
  datatype VideoRecord = VideoRecord(
    videoId: Option<string>,
    channelId: Option<string>,
    channelTitle: Option<string>,
    title: Option<string>,
    description: Option<string>,
    publishedAt: Option<string>,
    duration: Option<string>,
    tags: Option<string>,
    defaultLanguage: Option<string>,
    viewCount: Option<int>,
    likeCount: Option<int>,
    commentCount: Option<int>)

  function Text(s: Option<string>): Option<Value>
  {
    if s.Some? then Some(Str(s.value)) else None
  }

  function Number(n: Option<int>): Option<Value>
  {
    if n.Some? then Some(Int(n.value)) else None
  }

  /** The record's values in column order. */
  function Cells(rec: VideoRecord): (cells: seq<Option<Value>>)
    ensures |cells| == |Columns|
  {
    [Text(rec.videoId), Text(rec.channelId), Text(rec.channelTitle), Text(rec.title),
     Text(rec.description), Text(rec.publishedAt), Text(rec.duration), Text(rec.tags),
     Text(rec.defaultLanguage), Number(rec.viewCount), Number(rec.likeCount),
     Number(rec.commentCount)]
  }

  /** The record as the dict the script appends: exactly the twelve column keys, each
      holding the field of that name. */
  function ToRow(rec: VideoRecord): (r: Row)
    ensures r.Keys == ColumnSet()
    ensures forall j :: 0 <= j < |Columns| ==> r[Columns[j]] == Cells(rec)[j]
  {
    ColumnsDistinct();
    map j | 0 <= j < |Columns| :: Columns[j] := Cells(rec)[j]
  }

  /** The fields read from one `videos.list` item: every missing nested map or key
      gives null, counts are parsed, tags are joined; it never fails. */
  function CoerceItem(it: RawVideo): (r: VideoRecord)
    ensures r.videoId == it.id
    ensures it.snippet.None? ==>
      && r.channelId.None? && r.channelTitle.None? && r.title.None? && r.description.None?
      && r.publishedAt.None? && r.tags.None? && r.defaultLanguage.None?
    ensures it.statistics.None? ==> r.viewCount.None? && r.likeCount.None? && r.commentCount.None?
    ensures it.contentDetails.None? ==> r.duration.None?
    ensures r.tags.None? <==>
      it.snippet.None? || it.snippet.value.tags.None? || it.snippet.value.tags.value == []
    ensures r.tags.Some? ==> r.tags == Some(Join(it.snippet.value.tags.value))
    ensures it.snippet.Some? ==>
      var snip := it.snippet.value;
      && r.channelId == snip.channelId && r.channelTitle == snip.channelTitle
      && r.title == snip.title && r.description == snip.description
      && r.publishedAt == snip.publishedAt && r.tags == JoinTags(snip.tags)
      && r.defaultLanguage == snip.defaultLanguage
    ensures it.statistics.Some? ==>
      var stats := it.statistics.value;
      && r.viewCount == ToInt(stats.viewCount) && r.likeCount == ToInt(stats.likeCount)
      && r.commentCount == ToInt(stats.commentCount)
    ensures it.contentDetails.Some? ==> r.duration == it.contentDetails.value.duration
  {
    var snip := if it.snippet.Some? then it.snippet.value else EmptySnippet;
    var stats := if it.statistics.Some? then it.statistics.value else EmptyStatistics;
    var cdet := if it.contentDetails.Some? then it.contentDetails.value else EmptyContentDetails;
    VideoRecord(
      it.id,
      snip.channelId,
      snip.channelTitle,
      snip.title,
      snip.description,
      snip.publishedAt,
      cdet.duration,
      JoinTags(snip.tags),
      snip.defaultLanguage,
      ToInt(stats.viewCount),
      ToInt(stats.likeCount),
      ToInt(stats.commentCount))
  }

  /** The dict appended to `rows` for one response item. */
  function CoerceRow(it: RawVideo): (r: Row)
    ensures r.Keys == ColumnSet()
  {
    ToRow(CoerceItem(it))
  }

  /** A count field is the integer its decimal string denotes. */
  lemma CoercedCounts(it: RawVideo, views: int, likes: int, comments: int)
    requires it.statistics == Some(Statistics(Some(ShowInt(views)), Some(ShowInt(likes)),
                                              Some(ShowInt(comments))))
    ensures CoerceItem(it).viewCount == if WithinDigitLimit(views) then Some(views) else None
    ensures CoerceItem(it).likeCount == if WithinDigitLimit(likes) then Some(likes) else None
    ensures CoerceItem(it).commentCount ==
      if WithinDigitLimit(comments) then Some(comments) else None
  {
    ToIntRoundTrip(views, "", "");
    ToIntRoundTrip(likes, "", "");
    ToIntRoundTrip(comments, "", "");
    assert forall t: string :: "" + t + "" == t;
  }
}
