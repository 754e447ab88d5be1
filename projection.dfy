/** Tabular projection: `to_dataframe` (ingest_youtube.py:90-97), that is
    `pd.DataFrame(rows).reindex(columns=cols)` over the fixed schema. */
module Projection {
  import opened Common
  import opened Schema

  /** A data frame: column names and, per row, one nullable cell per column. */
  datatype Table = Table(columns: seq<string>, rows: seq<seq<Option<Value>>>)

  /** The cell `reindex` yields for a column: the row's value, null if it lacks the key. */
  function Cell(row: Row, column: string): Option<Value>
  {
    if column in row then row[column] else None
  }

  function Reindex(row: Row): seq<Option<Value>>
  {
    seq(|Columns|, j requires 0 <= j < |Columns| => Cell(row, Columns[j]))
  }

  /** The frame has exactly the schema's columns in schema order, whatever keys the rows
      carry, and one row per input row in input order; a key the row lacks is null. */
  function ToDataFrame(rows: seq<Row>): (t: Table)
    ensures t.columns == Columns
    ensures |t.rows| == |rows|
    ensures forall i :: 0 <= i < |rows| ==> |t.rows[i]| == |Columns|
    ensures forall i, j :: 0 <= i < |rows| && 0 <= j < |Columns| ==>
      t.rows[i][j] == (if Columns[j] in rows[i] then rows[i][Columns[j]] else None)
  {
    Table(Columns, seq(|rows|, i requires 0 <= i < |rows| => Reindex(rows[i])))
  }

  /** Keys outside the schema are dropped: rows that agree on the schema's columns
      give the same frame, whatever else they hold. */
  lemma ExtraKeysDropped(a: seq<Row>, b: seq<Row>)
    requires |a| == |b|
    requires forall i, c :: 0 <= i < |a| && c in Columns ==> Cell(a[i], c) == Cell(b[i], c)
    ensures ToDataFrame(a) == ToDataFrame(b)
  {
    var ta, tb := ToDataFrame(a), ToDataFrame(b);
    forall i | 0 <= i < |a|
      ensures ta.rows[i] == tb.rows[i]
    {
      forall j | 0 <= j < |Columns|
        ensures ta.rows[i][j] == tb.rows[i][j]
      {
        assert Columns[j] in Columns;
        assert Cell(a[i], Columns[j]) == Cell(b[i], Columns[j]);
      }
    }
  }

  /** Row order is kept: projecting a concatenation concatenates the projections. */
  lemma RowOrderKept(a: seq<Row>, b: seq<Row>)
    ensures ToDataFrame(a + b).rows == ToDataFrame(a).rows + ToDataFrame(b).rows
  {
  }

  /** Nothing is lost for rows that hold exactly the schema's keys: two such row lists
      with the same frame are equal. */
  lemma ProjectionInjective(a: seq<Row>, b: seq<Row>)
    requires forall i :: 0 <= i < |a| ==> a[i].Keys == ColumnSet()
    requires forall i :: 0 <= i < |b| ==> b[i].Keys == ColumnSet()
    requires ToDataFrame(a) == ToDataFrame(b)
    ensures a == b
  {
    assert |a| == |b|;
    forall i | 0 <= i < |a|
      ensures a[i] == b[i]
    {
      forall c | c in ColumnSet()
        ensures a[i][c] == b[i][c]
      {
        var j :| 0 <= j < |Columns| && Columns[j] == c;
        assert ToDataFrame(a).rows[i][j] == ToDataFrame(b).rows[i][j];
      }
    }
  }
}
