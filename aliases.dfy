/** Alias expansion of the MTM and Capital Deployed sections: rows without an ID are
    dropped, then every row is followed by five placeholder rows, one per sub-strategy
    alias (jainam/app.py:137-164). */
module Aliases {
  import opened Tables

  /** `t['IDs'].notna() & (t['IDs'] != '')`. */
  predicate Identified(r: Row) {
    Get(r, IDS) != Null && Get(r, IDS) != Str("")
  }

  /** The rows that carry an ID, in their original order. */
  function KeepIdentified(rows: seq<Row>): (r: seq<Row>)
    ensures |r| <= |rows|
    ensures forall x :: x in r <==> x in rows && Identified(x)
  {
    Filter(rows, Identified)
  }

  /** The section without the rows that lack an ID; the columns stay. */
  function Identify(t: Table): Table {
    Table(t.cols, KeepIdentified(t.rows))
  }

  /** No row is left exactly when no row of the section carries an ID. */
  lemma IdentifyEmpty(t: Table)
    ensures Identify(t).rows == [] <==> forall k :: 0 <= k < |t.rows| ==> !Identified(t.rows[k])
  {
    var kept := KeepIdentified(t.rows);
    if kept != [] {
      assert kept[0] in kept;
    } else {
      forall k | 0 <= k < |t.rows|
        ensures !Identified(t.rows[k])
      {
        assert t.rows[k] in t.rows;
      }
    }
  }

  /** A column added beside IDs and Alias changes neither, so the expansion refuses the section
      exactly when no Alias column is there or no row carries an ID. */
  lemma ExpandedAddColumn(t: Table, name: Label, values: seq<Cell>)
    requires name != IDS && name != ALIAS
    ensures Expanded(Identify(AddColumn(t, name, values))).Err? <==>
              ALIAS !in t.cols || forall k :: 0 <= k < |t.rows| ==> !Identified(t.rows[k])
  {
    var u := AddColumn(t, name, values);
    IdentifyEmpty(u);
    assert forall k :: 0 <= k < |t.rows| ==> Get(u.rows[k], IDS) == Get(t.rows[k], IDS);
  }

  /** A placeholder row: NaN in every column of the section except Alias, which holds the alias. */
  function Placeholder(cols: seq<Label>, alias: Cell): Row {
    (map c | c in cols :: Null)[ALIAS := alias]
  }

  /** What sits at position p of the expansion: a section row at every sixth position,
      the placeholders for PS, VT, GB, RD and RM after it. */
  function ExpandedAt(cols: seq<Label>, rows: seq<Row>, p: nat): Row
    requires p < 6 * |rows|
  {
    if p % 6 == 0 then rows[p / 6] else Placeholder(cols, ALIASES[p % 6 - 1])
  }

  /** The expanded rows, built row by row. */
  function ExpandRows(cols: seq<Label>, rows: seq<Row>): (r: seq<Row>)
    ensures |r| == 6 * |rows|
    ensures forall p :: 0 <= p < |r| ==> r[p] == ExpandedAt(cols, rows, p)
    decreases |rows|
  {
    if rows == [] then []
    else
      var rest := ExpandRows(cols, rows[1..]);
      var r := [rows[0]] + seq(5, a requires 0 <= a < 5 => Placeholder(cols, ALIASES[a])) + rest;
      SixOn();
      assert forall p :: 6 <= p < |r| ==> r[p] == rest[p - 6];
      r
  }

  /** Six positions on, the same alias slot of the next section row. */
  lemma SixOn()
    ensures forall p: int :: 6 <= p ==> (p - 6) / 6 == p / 6 - 1 && (p - 6) % 6 == p % 6
  {
  }

  /** The expanded section, or the KeyError on `df['Alias']`: a DataFrame built from no rows has
      no columns, and a section without an Alias column has none to fill. */
  function Expanded(t: Table): (r: Result<Table>)
    ensures r.Err? <==> t.rows == [] || ALIAS !in t.cols
    ensures r.Err? ==> r.failure == Internal(NoAliasColumn)
  {
    if t.rows == [] || ALIAS !in t.cols then Err(Internal(NoAliasColumn))
    else Ok(Table(Dedup(t.cols), ExpandRows(t.cols, t.rows)))
  }

  /** The two nested loops that append each row and its five placeholders to `new_rows`. */
  method Expand(t: Table) returns (r: Result<Table>)
    ensures r == Expanded(t)
  {
    if t.rows == [] || ALIAS !in t.cols {
      return Err(Internal(NoAliasColumn));
    }
    var newRows: seq<Row> := [];
    for i := 0 to |t.rows|
      invariant |newRows| == 6 * i
      invariant forall p :: 0 <= p < |newRows| ==> newRows[p] == ExpandedAt(t.cols, t.rows, p)
    {
      newRows := newRows + [t.rows[i]];
      for a := 0 to |ALIASES|
        invariant |newRows| == 6 * i + 1 + a
        invariant forall p :: 0 <= p < |newRows| ==> newRows[p] == ExpandedAt(t.cols, t.rows, p)
      {
        assert (6 * i + 1 + a) % 6 == 1 + a && (6 * i + 1 + a) / 6 == i;
        newRows := newRows + [Placeholder(t.cols, ALIASES[a])];
      }
    }
    var expected := ExpandRows(t.cols, t.rows);
    assert newRows == expected;
    return Ok(Table(Dedup(t.cols), newRows));
  }

  /** Six rows per identified row: row 6k is the k-th identified row unchanged and rows
      6k+1 .. 6k+5 carry no ID, NaN in every other column, and the aliases PS, VT, GB, RD, RM
      in that order. */
  lemma ExpansionShape(t: Table, k: nat, a: nat)
    requires Expanded(Identify(t)).Ok?
    requires k < |KeepIdentified(t.rows)| && 1 <= a <= 5
    ensures var e := Expanded(Identify(t)).value;
      var alias := if 6 * k + a < |e.rows| then e.rows[6 * k + a] else map[];
      && |e.rows| == 6 * |KeepIdentified(t.rows)|
      && e.rows[6 * k] == KeepIdentified(t.rows)[k]
      && Identified(e.rows[6 * k])
      && alias == e.rows[6 * k + a]
      && Get(alias, IDS) == Null
      && Get(alias, ALIAS) == ALIASES[a - 1]
      && (forall c :: c != ALIAS ==> Get(alias, c) == Null)
      && (forall l :: l in e.cols <==> l in t.cols)
  {
    var e := Expanded(Identify(t)).value;
    var rows := KeepIdentified(t.rows);
    assert (6 * k) % 6 == 0 && (6 * k) / 6 == k;
    assert (6 * k + a) % 6 == a;
    assert e.rows[6 * k] == rows[k];
    assert rows[k] in rows;
  }
}
