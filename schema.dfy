/** The fixed record schema of an ingested video: twelve named columns in a fixed order. */
module Schema {
  import opened Common

  /** A cell value: the script only ever produces strings and integers. */
  datatype Value = Str(s: string) | Int(i: int)

  /** A row as a Python dict from column name to a nullable value. */
  type Row = map<string, Option<Value>>

  /** The output columns, in output order. */
  const Columns: seq<string> := [
    "video_id", "channel_id", "channel_title", "title", "description",
    "published_at", "duration", "tags", "default_language",
    "view_count", "like_count", "comment_count"
  ]

  function ColumnSet(): set<string>
  {
    set c | c in Columns
  }

  /** The schema names twelve distinct columns. */
  lemma ColumnsDistinct()
    ensures |Columns| == 12
    ensures forall i, j :: 0 <= i < j < |Columns| ==> Columns[i] != Columns[j]
  {
  }
}
