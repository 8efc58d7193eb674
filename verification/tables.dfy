/** The patch table as the helpers see it after `pandas.read_csv`: a set of
    column names and a sequence of rows, each row giving a value for every
    column. */
module Tables {
  import opened Seqs

  /** A cell value. Levels and coordinates are integers; label columns may
      hold integers, text, or nothing (an empty cell). */
  datatype Value = Num(n: int) | Text(s: string) | Missing

  /** A row, as `DataFrame.iterrows` presents it: column name to cell. */
  type Row = map<string, Value>

  /** The columns every patch table carries. */
  const LevelColumn: string := "level"
  const XColumn: string := "x"
  const YColumn: string := "y"

  datatype Frame = Frame(columns: set<string>, rows: seq<Row>)

  /** Columns are table-wide: every row has exactly the table's columns,
      and the level and coordinate columns are among them. */
  predicate WellFormed(f: Frame)
  {
    && {LevelColumn, XColumn, YColumn} <= f.columns
    && forall r :: r in f.rows ==> r.Keys == f.columns
  }

  type Table = f: Frame | WellFormed(f) witness Frame({LevelColumn, XColumn, YColumn}, [])

  /** The row's `level` cell equals `level`. */
  predicate AtLevel(level: int, r: Row)
  {
    LevelColumn in r && r[LevelColumn] == Num(level)
  }

  /** The cell of column `c`, or `Missing` when the row lacks it. */
  function Cell(r: Row, c: string): Value
  {
    if c in r then r[c] else Missing
  }

  /** `df[df["level"] == level]`: the rows at `level`, in table order, under
      the same columns. */
  function LevelView(t: Table, level: int): (v: Table)
    ensures v.columns == t.columns
    ensures forall r :: r in v.rows <==> r in t.rows && AtLevel(level, r)
  {
    Frame(t.columns, Filter(r => AtLevel(level, r), t.rows))
  }

  /** The view keeps the table's rows at `level`, each once, in table order:
      its k-th row is the table's row at position `idx[k]`, the positions
      increase, and they are exactly the positions of rows at `level`. */
  lemma LevelViewOrdered(t: Table, level: int) returns (idx: seq<int>)
    ensures var v := LevelView(t, level);
            && |idx| == |v.rows|
            && Increasing(idx)
            && (forall k :: 0 <= k < |idx| ==> 0 <= idx[k] < |t.rows| && v.rows[k] == t.rows[idx[k]])
            && (forall i :: 0 <= i < |t.rows| ==> (AtLevel(level, t.rows[i]) <==> i in idx))
  {
    idx := FilterIsOrdered(r => AtLevel(level, r), t.rows);
  }
}
