/** The component fill of the expanded Capital Deployed rows from the allocation sheet, and
    the backfill of Allocation from the unnamed column (jainam/app.py:223-243). */
module Components {
  import opened Tables
  import opened Accounts
  import Blocks

  /** A component allocation is read in crores and written in rupees. */
  const COMPONENT_SCALE: nat := 10_000_000

  /** The ID `current_userid` holds when the loop reaches row k. */
  function Current(rows: seq<Row>, k: nat): Option<Cell>
    requires k <= |rows|
  {
    match Owner(rows, k)
    case None => None
    case Some(p) => Some(Get(rows[p], IDS))
  }

  /** What the fill makes of row k: a component row of an account with a truthy ID takes the
      value of its alias column from the first allocation record of that user, times 10^7. */
  function FilledRow(rows: seq<Row>, records: seq<Row>, k: nat): Result<Row>
    requires k < |rows|
  {
    var row := rows[k];
    var current := Current(rows, k);
    if HasID(row) || current.None? || !Truthy(current.value) || Get(row, ALIAS) !in ALIASES then Ok(row)
    else match Find(records, Blocks.BLOCK_USER, current.value)
      case None => Ok(row)
      case Some(q) =>
        var value :- Times(Get(records[q], Get(row, ALIAS)), COMPONENT_SCALE);
        Ok(row[ALLOCATION := value])
  }

  /** The filled rows, or the TypeError of the first value that cannot be scaled. */
  function Filled(rows: seq<Row>, records: seq<Row>): Result<seq<Row>> {
    if exists k :: 0 <= k < |rows| && FilledRow(rows, records, k).Err? then Err(Internal(NotANumber))
    else Ok(seq(|rows|, k requires 0 <= k < |rows| => FilledRow(rows, records, k).value))
  }

  /** The loop over the rows with `current_userid`, writing into a copy of the rows. */
  method FillComponents(rows: seq<Row>, records: seq<Row>) returns (r: Result<seq<Row>>)
    ensures r == Filled(rows, records)
  {
    var out := rows;
    var current: Option<Cell> := None;
    for i := 0 to |rows|
      invariant |out| == |rows|
      invariant forall k :: 0 <= k < i ==> FilledRow(rows, records, k) == Ok(out[k])
      invariant forall k :: i <= k < |rows| ==> out[k] == rows[k]
      invariant current == Current(rows, i)
    {
      var row := rows[i];
      if Get(row, IDS) != Null {
        current := Some(Get(row, IDS));
      } else if current.Some? && Truthy(current.value) && Get(row, ALIAS) in ALIASES {
        var alias := Get(row, ALIAS);
        var matching := Find(records, Blocks.BLOCK_USER, current.value);
        if matching.Some? {
          var value := Get(records[matching.value], alias);
          var scaled := Times(value, COMPONENT_SCALE);
          if scaled.Err? {
            assert FilledRow(rows, records, i).Err?;
            return Err(Internal(NotANumber));
          }
          out := out[i := out[i][ALLOCATION := scaled.value]];
        }
      }
    }
    assert out == seq(|rows|, k requires 0 <= k < |rows| => FilledRow(rows, records, k).value);
    return Ok(out);
  }

  /** The fill changes nothing but Allocation, and only on component rows: IDs, aliases and
      every account row stay as they were. */
  lemma FillKeeps(rows: seq<Row>, records: seq<Row>, k: nat, c: Label)
    requires Filled(rows, records).Ok? && k < |rows|
    ensures |Filled(rows, records).value| == |rows|
    ensures c != ALLOCATION ==> Get(Filled(rows, records).value[k], c) == Get(rows[k], c)
    ensures HasID(rows[k]) ==> Filled(rows, records).value[k] == rows[k]
  {
    assert FilledRow(rows, records, k).Ok?;
  }

  /** A component row whose account has a truthy ID and whose alias names a component gets the
      alias cell of that user's first allocation record, scaled; a numeric cell is multiplied. */
  lemma FillSets(rows: seq<Row>, records: seq<Row>, k: nat, p: nat, q: nat)
    requires Filled(rows, records).Ok? && p < k < |rows| && !HasID(rows[k])
    requires HasID(rows[p]) && forall j :: p < j < k ==> !HasID(rows[j])
    requires Truthy(Get(rows[p], IDS)) && Get(rows[k], ALIAS) in ALIASES
    requires q < |records| && Get(records[q], Blocks.BLOCK_USER) == Get(rows[p], IDS)
    requires forall j :: 0 <= j < q ==> Get(records[j], Blocks.BLOCK_USER) != Get(rows[p], IDS)
    ensures var v := Get(records[q], Get(rows[k], ALIAS));
            Times(v, COMPONENT_SCALE) == Ok(Get(Filled(rows, records).value[k], ALLOCATION))
    ensures var v := Get(records[q], Get(rows[k], ALIAS));
            v.Num? ==> Get(Filled(rows, records).value[k], ALLOCATION) == Num(v.value * 10_000_000.0)
  {
    OwnerExact(rows, p, k);
    assert FilledRow(rows, records, k).Ok?;
    assert Find(records, Blocks.BLOCK_USER, Get(rows[p], IDS)) == Some(q);
  }

  /** A component row is left as it was when no account comes before it, when the ID of its
      account is falsy (`0` or the empty string), when its alias names no component, or when its
      user has no allocation record. */
  lemma FillSkips(rows: seq<Row>, records: seq<Row>, k: nat)
    requires Filled(rows, records).Ok? && k < |rows|
    ensures Owner(rows, k).None? ==> Filled(rows, records).value[k] == rows[k]
    ensures Owner(rows, k).Some? && !Truthy(Get(rows[Owner(rows, k).value], IDS)) ==>
              Filled(rows, records).value[k] == rows[k]
    ensures Get(rows[k], ALIAS) !in ALIASES ==> Filled(rows, records).value[k] == rows[k]
    ensures Owner(rows, k).Some? &&
            (forall j :: 0 <= j < |records| ==> Get(records[j], Blocks.BLOCK_USER) != Get(rows[Owner(rows, k).value], IDS)) ==>
              Filled(rows, records).value[k] == rows[k]
  {
    assert FilledRow(rows, records, k).Ok?;
  }

  /** `Allocation.fillna(df[nan_label])`, then the unnamed column dropped; a table without an
      unnamed column is refused. */
  function Backfill(t: Table): (r: Result<Table>)
    ensures r.Err? <==> Null !in t.cols
    ensures r.Err? ==> r.failure == NoUnnamedColumn
    ensures r.Ok? ==> |r.value.rows| == |t.rows| && Null !in r.value.cols && ALLOCATION in r.value.cols
    ensures r.Ok? ==> forall l :: l in r.value.cols <==> l != Null && (l in t.cols || l == ALLOCATION)
    ensures r.Ok? ==> forall k :: 0 <= k < |t.rows| ==>
              Get(r.value.rows[k], ALLOCATION) ==
                (if Get(t.rows[k], ALLOCATION) == Null then Get(t.rows[k], Null) else Get(t.rows[k], ALLOCATION))
    ensures r.Ok? ==> forall k, c :: 0 <= k < |t.rows| && c != Null && c != ALLOCATION ==>
              Get(r.value.rows[k], c) == Get(t.rows[k], c)
    ensures r.Ok? ==> forall k :: 0 <= k < |t.rows| ==> Get(r.value.rows[k], Null) == Null
  {
    if Null !in t.cols then Err(NoUnnamedColumn)
    else
      var merged := seq(|t.rows|, k requires 0 <= k < |t.rows| =>
                        if Get(t.rows[k], ALLOCATION) == Null then Get(t.rows[k], Null) else Get(t.rows[k], ALLOCATION));
      Ok(DropColumns(AddColumn(t, ALLOCATION, merged), {Null}))
  }
}
