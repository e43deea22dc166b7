/** Section extraction from the daily sheet (file3): sentinel labels in the first column
    bound three sections, each with a promoted header row (jainam/app.py:64-99). */
module Sections {
  import opened Tables

  /** A sheet as read from a file: its column labels and its rows of positional cells. */
  datatype Sheet = Sheet(labels: seq<Label>, rows: seq<seq<Cell>>)

  /** The three sections cut out of the daily sheet. */
  datatype Parts = Parts(mtm: Table, capital: Table, maxLoss: Table)

  const KEY_COLUMN: Label := Str("Unnamed: 0")
  const MTM_SENTINEL: Cell := Str("MTM")
  const CAPITAL_SENTINEL: Cell := Str("Capital Deployed")
  const MAX_SL_SENTINEL: Cell := Str("Max SL")
  const AVG_SENTINEL: Cell := Str("AVG %")

  /** The position of the first occurrence of `x` in `s`. */
  function FirstIndex(s: seq<Cell>, x: Cell): (r: Option<nat>)
    ensures r.Some? ==> r.value < |s| && s[r.value] == x && x !in s[..r.value]
    ensures r.None? <==> x !in s
    decreases |s|
  {
    if s == [] then None
    else if s[0] == x then Some(0)
    else
      assert forall y :: y in s <==> y == s[0] || y in s[1..] by {
        assert s == [s[0]] + s[1..];
      }
      match FirstIndex(s[1..], x)
      case None => None
      case Some(q) =>
        assert s[..q + 1] == [s[0]] + s[1..][..q];
        Some(q + 1)
  }

  /** The cells of positional column `col`, one per row. */
  function KeyCells(rows: seq<seq<Cell>>, col: nat): (keys: seq<Cell>)
    ensures |keys| == |rows|
    ensures forall k :: 0 <= k < |rows| ==> keys[k] == At(rows[k], col)
  {
    seq(|rows|, k requires 0 <= k < |rows| => At(rows[k], col))
  }

  /** The section between the sentinel rows `a` and `b`, in the handler's four steps:
      `df3.iloc[a:b+1]`, the sentinel row dropped, the next row promoted to the header and
      dropped, and the last row dropped with `[:-1]`. A slice too short for the first two
      steps raises IndexError. */
  function Section(rows: seq<seq<Cell>>, a: nat, b: nat): (r: Result<Table>)
    requires a < |rows| && b < |rows|
  {
    var slice := if a <= b then rows[a..b + 1] else [];
    if |slice| < 2 then Err(Internal(SectionOutOfOrder))
    else
      var rest := slice[1..];
      var header := rest[0];
      var body := rest[1..];
      var data := if body == [] then [] else body[..|body| - 1];
      Ok(Table(header, seq(|data|, k requires 0 <= k < |data| => Zip(header, data[k]))))
  }

  /** The shape of a section: it fails exactly when the end sentinel does not come after the
      start sentinel; otherwise its header is row a+1 and its rows are rows a+2 .. b-1. */
  lemma SectionShape(rows: seq<seq<Cell>>, a: nat, b: nat)
    requires a < |rows| && b < |rows|
    ensures Section(rows, a, b).Err? <==> b <= a
    ensures Section(rows, a, b).Err? ==> Section(rows, a, b).failure == Internal(SectionOutOfOrder)
    ensures a < b ==> Section(rows, a, b).value.cols == rows[a + 1]
    ensures a < b ==> |Section(rows, a, b).value.rows| == if b == a + 1 then 0 else b - a - 2
    ensures a < b ==> forall k :: 0 <= k < b - a - 2 ==>
              Section(rows, a, b).value.rows[k] == Zip(rows[a + 1], rows[a + 2 + k])
  {
    if a < b {
      var slice := rows[a..b + 1];
      var rest := slice[1..];
      assert rest == rows[a + 1..b + 1];
      var body := rest[1..];
      assert body == rows[a + 2..b + 1] && |body| == b - a - 1;
      if body != [] {
        assert body[..|body| - 1] == rows[a + 2..b];
      }
    }
  }

  /** Sentinels five rows apart leave exactly three data rows. */
  lemma SectionOfFive(rows: seq<seq<Cell>>)
    requires |rows| >= 6
    ensures Section(rows, 0, 5).Ok? && |Section(rows, 0, 5).value.rows| == 3
  {
    SectionShape(rows, 0, 5);
  }

  /** A section that lacks the IDs column is refused under its name. */
  function Checked(t: Table, name: string): (r: Result<Table>)
    ensures r.Ok? <==> IDS in t.cols
    ensures r.Ok? ==> r.value == t
    ensures r.Err? ==> r.failure == MissingIDs(name)
  {
    if IDS in t.cols then Ok(t) else Err(MissingIDs(name))
  }

  /** The three sections of the daily sheet, or why they cannot be cut out. */
  function Extract(sheet: Sheet): Result<Parts> {
    match FirstIndex(sheet.labels, KEY_COLUMN)
    case None => Err(Internal(NoKeyColumn))
    case Some(col) =>
      var keys := KeyCells(sheet.rows, col);
      var m, c, x, v := FirstIndex(keys, MTM_SENTINEL), FirstIndex(keys, CAPITAL_SENTINEL),
                        FirstIndex(keys, MAX_SL_SENTINEL), FirstIndex(keys, AVG_SENTINEL);
      if m.None? || c.None? || x.None? || v.None? then Err(MissingSections)
      else
        var mtm :- Section(sheet.rows, m.value, c.value);
        var mtm :- Checked(mtm, "MTM");
        var capital :- Section(sheet.rows, c.value, x.value);
        var capital :- Checked(capital, "Capital Deployed");
        var maxLoss :- Section(sheet.rows, x.value, v.value);
        var maxLoss :- Checked(maxLoss, "Max SL");
        Ok(Parts(mtm, capital, maxLoss))
  }

  /** The sentinel rows, when the key column and all four labels are present. */
  predicate Located(sheet: Sheet, m: nat, c: nat, x: nat, v: nat) {
    && KEY_COLUMN in sheet.labels
    && var keys := KeyCells(sheet.rows, FirstIndex(sheet.labels, KEY_COLUMN).value);
    && FirstIndex(keys, MTM_SENTINEL) == Some(m)
    && FirstIndex(keys, CAPITAL_SENTINEL) == Some(c)
    && FirstIndex(keys, MAX_SL_SENTINEL) == Some(x)
    && FirstIndex(keys, AVG_SENTINEL) == Some(v)
  }

  /** The error cases of the extraction, in the order the handler meets them. */
  lemma ExtractFailures(sheet: Sheet)
    ensures KEY_COLUMN !in sheet.labels ==> Extract(sheet) == Err(Internal(NoKeyColumn))
    ensures KEY_COLUMN in sheet.labels &&
            (var keys := KeyCells(sheet.rows, FirstIndex(sheet.labels, KEY_COLUMN).value);
             MTM_SENTINEL !in keys || CAPITAL_SENTINEL !in keys || MAX_SL_SENTINEL !in keys || AVG_SENTINEL !in keys)
            ==> Extract(sheet) == Err(MissingSections)
    ensures forall m, c, x, v :: Located(sheet, m, c, x, v) && c <= m ==> Extract(sheet) == Err(Internal(SectionOutOfOrder))
    ensures forall m, c, x, v :: Located(sheet, m, c, x, v) && m < c && IDS !in sheet.rows[m + 1] ==>
              Extract(sheet) == Err(MissingIDs("MTM"))
  {
  }

  /** The refusals met after the MTM section is cut out, in the handler's order: each later
      section is out of order (IndexError) or lacks its IDs column, under its own name. */
  lemma ExtractLaterFailures(sheet: Sheet, m: nat, c: nat, x: nat, v: nat)
    requires Located(sheet, m, c, x, v) && m < c && IDS in sheet.rows[m + 1]
    ensures x <= c ==> Extract(sheet) == Err(Internal(SectionOutOfOrder))
    ensures c < x && IDS !in sheet.rows[c + 1] ==> Extract(sheet) == Err(MissingIDs("Capital Deployed"))
    ensures c < x && IDS in sheet.rows[c + 1] && v <= x ==> Extract(sheet) == Err(Internal(SectionOutOfOrder))
    ensures c < x < v && IDS in sheet.rows[c + 1] && IDS !in sheet.rows[x + 1] ==> Extract(sheet) == Err(MissingIDs("Max SL"))
  {
    SectionShape(sheet.rows, m, c);
    SectionShape(sheet.rows, c, x);
    SectionShape(sheet.rows, x, v);
  }

  /** Extraction succeeds exactly when the key column and the four sentinels are there, in
      order, and every section header names an IDs column; the sections then have the shape
      that SectionShape describes. */
  lemma ExtractSucceeds(sheet: Sheet, m: nat, c: nat, x: nat, v: nat)
    requires Located(sheet, m, c, x, v)
    ensures Extract(sheet).Ok? <==>
              m < c < x < v && IDS in sheet.rows[m + 1] && IDS in sheet.rows[c + 1] && IDS in sheet.rows[x + 1]
    ensures Extract(sheet).Ok? ==>
              && Extract(sheet).value.mtm == Section(sheet.rows, m, c).value
              && Extract(sheet).value.capital == Section(sheet.rows, c, x).value
              && Extract(sheet).value.maxLoss == Section(sheet.rows, x, v).value
  {
  }
}
