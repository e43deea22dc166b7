/** Cells, rows and tables: the values that the report pipeline of jainam/app.py
    moves from stage to stage, stated without pandas. */
module Tables {

  datatype Option<T> = None | Some(value: T)

  /** A pandas Timestamp: the calendar day (a day number) and the second within that day. */
  datatype Moment = Moment(day: int, second: int)

  /** One spreadsheet cell. `Null` stands for pandas' NaN, None and NaT alike. */
  datatype Cell = Null | Str(text: string) | Num(value: real) | Date(at: Moment)

  /** A column label is whatever the header row held; `Null` labels the unnamed (NaN) column. */
  type Label = Cell

  /** A row maps each column label to its cell. */
  type Row = map<Label, Cell>

  /** A table: its column labels in order and its rows, positionally indexed from 0. */
  datatype Table = Table(cols: seq<Label>, rows: seq<Row>)

  /** What pandas cannot compute, each ending in the catch-all HTTP 500 answer. */
  datatype Fault =
    | NoKeyColumn        // df3 has no "Unnamed: 0" column (KeyError)
    | SectionOutOfOrder  // a sentinel precedes the one before it: the slice is empty (IndexError)
    | DuplicateUserID    // Series.map over a UserID index that is not unique
    | NoAliasColumn      // a table lacks the "Alias" column it is asked for (KeyError)
    | NotANumber         // arithmetic on a value that is not a number (TypeError)

  /** Every way the request can be refused. */
  datatype Failure =
    | EmptyFile(file: nat)
    | MissingSections
    | MissingIDs(section: string)
    | MissingUserID
    | BadMasterDate
    | BadTargetDate
    | NoMasterRowsForDate
    | MissingMasterColumn(name: string)
    | BadBlockRow(row: nat)
    | NoUserIDHeader
    | NoBlocks
    | NoAllocationRowsForDate
    | NoUnnamedColumn
    | Internal(fault: Fault)

  /** The HTTP status the handler answers a failure with. */
  function Status(f: Failure): (code: int)
    ensures code == 500 <==> f.Internal?
    ensures code == 400 <==> !f.Internal?
  {
    if f.Internal? then 500 else 400
  }

  datatype Result<T> = Ok(value: T) | Err(failure: Failure) {
    predicate IsFailure() { Err? }
    function PropagateFailure<U>(): Result<U>
      requires Err?
    {
      Err(failure)
    }
    function Extract(): T
      requires Ok?
    {
      value
    }
  }

  /** The date-parsing services of pandas the pipeline calls; their heuristics are not modelled. */
  datatype Calendar = Calendar(
    parseColumn: Cell -> Option<Moment>,    // pd.to_datetime over file1's Date column, one cell
    parseDayFirst: Cell -> Option<Moment>,  // pd.to_datetime(val, dayfirst=True)
    parseText: string -> Option<Moment>,    // pd.to_datetime(date) on the requested date
    yearOf: int -> int)                     // Timestamp.year of a day number

  // Column labels the pipeline names.
  const IDS: Label := Str("IDs")
  const ALIAS: Label := Str("Alias")
  const ALLOCATION: Label := Str("Allocation")
  const MTM: Label := Str("MTM")
  const MTM_SHARE: Label := Str("mtm")
  const MAX_LOSS_SHARE: Label := Str("max_loss")

  /** The five sub-strategy aliases, in the order the rows are inserted. */
  const ALIASES: seq<Cell> := [Str("PS"), Str("VT"), Str("GB"), Str("RD"), Str("RM")]

  /** `row[c]`, or NaN when the row has no such column. */
  function Get(r: Row, c: Label): Cell {
    if c in r then r[c] else Null
  }

  /** The k-th positional cell, NaN past the end. */
  function At(cells: seq<Cell>, k: nat): Cell {
    if k < |cells| then cells[k] else Null
  }

  /** Python truthiness of a cell (NaN is truthy, as in Python). */
  predicate Truthy(c: Cell) {
    match c
    case Null => true
    case Str(s) => s != ""
    case Num(x) => x != 0.0
    case Date(_) => true
  }

  /** A row built from positional cells under possibly repeated labels: a later label wins,
      as when pandas turns a row into a Python dict. */
  function Zip(labels: seq<Label>, cells: seq<Cell>): (r: Row)
    ensures r.Keys == set l | l in labels
    decreases |labels|
  {
    if labels == [] then map[]
    else
      var n := |labels| - 1;
      assert forall l :: l in labels <==> l in labels[..n] || l == labels[n] by {
        assert labels == labels[..n] + [labels[n]];
      }
      Zip(labels[..n], cells)[labels[n] := At(cells, n)]
  }

  /** A label that does not occur again later takes the cell at its own position. */
  lemma {:induction false} ZipAt(labels: seq<Label>, cells: seq<Cell>, k: nat)
    requires k < |labels| && labels[k] !in labels[k + 1..]
    ensures Get(Zip(labels, cells), labels[k]) == At(cells, k)
    decreases |labels|
  {
    var n := |labels| - 1;
    if k < n {
      assert labels[n] == labels[k + 1..][n - k - 1];
      assert labels[..n][k + 1..] == labels[k + 1..n];
      ZipAt(labels[..n], cells, k);
    }
  }

  /** The labels without repetitions, each where it first occurs (Python dict key order). */
  function Dedup(s: seq<Label>): (r: seq<Label>)
    ensures forall l :: l in r <==> l in s
    ensures forall i, j :: 0 <= i < j < |r| ==> r[i] != r[j]
  {
    if s == [] then []
    else
      var d := Dedup(s[..|s| - 1]);
      assert forall l :: l in s <==> l in s[..|s| - 1] || l == s[|s| - 1] by {
        assert s == s[..|s| - 1] + [s[|s| - 1]];
      }
      if s[|s| - 1] in d then d else d + [s[|s| - 1]]
  }

  /** The cells of one column, row by row. */
  function Column(t: Table, c: Label): (values: seq<Cell>)
    ensures |values| == |t.rows|
    ensures forall k :: 0 <= k < |t.rows| ==> values[k] == Get(t.rows[k], c)
  {
    seq(|t.rows|, k requires 0 <= k < |t.rows| => Get(t.rows[k], c))
  }

  /** `t[name] = values`, aligned on the row position; rows past the end of `values` get NaN. */
  function AddColumn(t: Table, name: Label, values: seq<Cell>): (r: Table)
    ensures |r.rows| == |t.rows| && name in r.cols
    ensures forall l :: l in r.cols <==> l in t.cols || l == name
    ensures forall k :: 0 <= k < |t.rows| ==> Get(r.rows[k], name) == At(values, k)
    ensures forall k, c :: 0 <= k < |t.rows| && c != name ==> Get(r.rows[k], c) == Get(t.rows[k], c)
  {
    Table(if name in t.cols then t.cols else t.cols + [name],
          seq(|t.rows|, k requires 0 <= k < |t.rows| => t.rows[k][name := At(values, k)]))
  }

  /** `t.drop(columns=...)` for the labels of `gone` that are present. */
  function DropColumns(t: Table, gone: set<Label>): (r: Table)
    ensures |r.rows| == |t.rows|
    ensures forall l :: l in r.cols <==> l in t.cols && l !in gone
    ensures forall k, c :: 0 <= k < |t.rows| && c !in gone ==> Get(r.rows[k], c) == Get(t.rows[k], c)
    ensures forall k, c :: 0 <= k < |t.rows| && c in gone ==> Get(r.rows[k], c) == Null
  {
    Table(Without(t.cols, gone), seq(|t.rows|, k requires 0 <= k < |t.rows| => t.rows[k] - gone))
  }

  function Without(s: seq<Label>, gone: set<Label>): (r: seq<Label>)
    ensures forall l :: l in r <==> l in s && l !in gone
  {
    if s == [] then []
    else (if s[0] in gone then [] else [s[0]]) + Without(s[1..], gone)
  }

  /** The rows satisfying `p`, in their original order (a boolean mask in pandas). */
  function Filter<T(!new)>(s: seq<T>, p: T -> bool): (r: seq<T>)
    ensures |r| <= |s|
    ensures forall x :: x in r <==> x in s && p(x)
    decreases |s|
  {
    if s == [] then []
    else
      assert forall x :: x in s <==> x == s[0] || x in s[1..] by {
        assert s == [s[0]] + s[1..];
      }
      (if p(s[0]) then [s[0]] else []) + Filter(s[1..], p)
  }

  lemma {:induction false} FilterAppend<T(!new)>(a: seq<T>, b: seq<T>, p: T -> bool)
    ensures Filter(a + b, p) == Filter(a, p) + Filter(b, p)
    decreases |a|
  {
    if a == [] {
      assert a + b == b;
    } else {
      var head := if p(a[0]) then [a[0]] else [];
      assert (a + b)[0] == a[0] && (a + b)[1..] == a[1..] + b;
      FilterAppend(a[1..], b, p);
      calc {
        Filter(a + b, p);
        head + Filter(a[1..] + b, p);
        head + (Filter(a[1..], p) + Filter(b, p));
        (head + Filter(a[1..], p)) + Filter(b, p);
      }
    }
  }

  /** The index of the first row whose `key` cell equals `v`. */
  function Find(rows: seq<Row>, key: Label, v: Cell): (r: Option<nat>)
    ensures r.Some? ==> r.value < |rows| && Get(rows[r.value], key) == v
    ensures r.Some? ==> forall q :: 0 <= q < r.value ==> Get(rows[q], key) != v
    ensures r.None? ==> forall q :: 0 <= q < |rows| ==> Get(rows[q], key) != v
    decreases |rows|
  {
    if rows == [] then None
    else if Get(rows[0], key) == v then Some(0)
    else match Find(rows[1..], key, v)
      case None => None
      case Some(q) => Some(q + 1)
  }

  /** The `col` cell of the first row whose `key` cell is `v`, NaN if there is none:
      `Series.map` over a lookup series indexed by `key`. */
  function Lookup(rows: seq<Row>, key: Label, v: Cell, col: Label): Cell {
    match Find(rows, key, v)
    case None => Null
    case Some(q) => Get(rows[q], col)
  }

  /** The `key` cells of the rows are pairwise different (a unique pandas index). */
  predicate Distinct(rows: seq<Row>, key: Label) {
    forall i, j :: 0 <= i < j < |rows| ==> Get(rows[i], key) != Get(rows[j], key)
  }

  /** With a unique key, the lookup of a row's own key yields that row's cell. */
  lemma LookupDistinct(rows: seq<Row>, key: Label, k: nat, col: Label)
    requires Distinct(rows, key) && k < |rows|
    ensures Lookup(rows, key, Get(rows[k], key), col) == Get(rows[k], col)
  {
    var f := Find(rows, key, Get(rows[k], key));
    assert f.Some?;
  }

  /** `s * n` in Python: numbers scale, strings repeat, NaN stays NaN, timestamps raise. */
  function Times(c: Cell, n: nat): (r: Result<Cell>)
    ensures r.Err? <==> c.Date?
    ensures c.Num? ==> r.Ok? && r.value == Num(c.value * (n as real))
    ensures c.Null? ==> r == Ok(Null)
    ensures c.Str? ==> r == Ok(Str(Repeat(c.text, n)))
  {
    match c
    case Null => Ok(Null)
    case Num(_) => Ok(Num(c.value * (n as real)))
    case Str(s) => Ok(Str(Repeat(s, n)))
    case Date(_) => Err(Internal(NotANumber))
  }

  function Repeat(s: string, n: nat): (r: string)
    ensures |r| == n * |s|
  {
    if n == 0 then "" else s + Repeat(s, n - 1)
  }

  /** A whole column times `n`; the first value that cannot be multiplied fails it. */
  function TimesAll(cells: seq<Cell>, n: nat): (r: Result<seq<Cell>>)
    ensures r.Err? <==> exists k :: 0 <= k < |cells| && cells[k].Date?
    ensures r.Ok? ==> |r.value| == |cells| && forall k :: 0 <= k < |cells| ==> Times(cells[k], n) == Ok(r.value[k])
    decreases |cells|
  {
    if cells == [] then Ok([])
    else
      var head :- Times(cells[0], n);
      var tail :- TimesAll(cells[1..], n);
      assert forall k :: 1 <= k < |cells| ==> cells[k] == cells[1..][k - 1];
      Ok([head] + tail)
  }
}
