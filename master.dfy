/** The master table (file1): the rows of the accounts named in the MTM section on the
    requested day, and the three per-account figures mapped onto the sections
    (jainam/app.py:83, 101-135). */
module Master {
  import opened Tables
  import opened Sections

  const USER_ID: Label := Str("UserID")
  const DATE: Label := Str("Date")
  const MTM_ALL: Label := Str("MTM (All)")
  const MASTER_ALLOCATION: Label := Str("ALLOCATION")
  const MAX_LOSS: Label := Str("MAX LOSS")

  /** The operational columns the handler drops once the rows are matched. */
  const DROPPED: set<Label> := {
    Str("Date"), Str("SNO"), Str("Enabled"), Str("LoggedIn"), Str("SqOff Done"),
    Str("Broker"), Str("Qty Multiplier"), Str("Available Margin"), Str("Total Orders"),
    Str("Total Lots"), Str("SERVER"), Str("Unnamed: 16"), Str("Unnamed: 17"),
    Str("Unnamed: 18"), Str("Unnamed: 19"), Str("Unnamed: 20")}

  /** `mtm_df['IDs'].dropna().tolist()`: the non-null IDs of the MTM section, in row order. */
  function NonNullIds(t: Table): seq<Cell> {
    Filter(Column(t, IDS), (c: Cell) => c != Null)
  }

  /** The parsed timestamp of a master Date cell; NaN converts to NaT. */
  function Stamp(cal: Calendar, c: Cell): Option<Moment> {
    if c == Null then None else cal.parseColumn(c)
  }

  /** `df['Date'].dt.date == match_date.date()`. */
  predicate OnDay(cal: Calendar, r: Row, day: int) {
    var s := Stamp(cal, Get(r, DATE));
    s.Some? && s.value.day == day
  }

  /** `df1[df1["UserID"].isin(ids)]`. */
  function Referenced(rows: seq<Row>, ids: seq<Cell>): (r: seq<Row>)
    ensures forall x :: x in r <==> x in rows && Get(x, USER_ID) in ids
  {
    Filter(rows, (x: Row) => Get(x, USER_ID) in ids)
  }

  /** `df_new[df_new['Date'].dt.date == match_date.date()]`. */
  function Dated(rows: seq<Row>, cal: Calendar, day: int): (r: seq<Row>)
    ensures forall x :: x in r <==> x in rows && OnDay(cal, x, day)
  {
    Filter(rows, (x: Row) => OnDay(cal, x, day))
  }

  /** The master rows of the referenced accounts dated on the requested day, without the
      operational columns, or the first check that refuses them. */
  function Matched(file1: Table, ids: seq<Cell>, cal: Calendar, date: string): (r: Result<Table>)
    ensures r.Ok? ==> r.value.rows != []
  {
    if USER_ID !in file1.cols then Err(MissingUserID)
    else
      var selected := Referenced(file1.rows, ids);
      if DATE !in file1.cols || exists r :: r in selected && Get(r, DATE) != Null && cal.parseColumn(Get(r, DATE)).None?
      then Err(BadMasterDate)
      else match cal.parseText(date)
        case None => Err(BadTargetDate)
        case Some(target) =>
          var matched := Kept(file1, ids, cal, target.day);
          if matched == [] then Err(NoMasterRowsForDate)
          else Ok(DropColumns(Table(file1.cols, matched), DROPPED))
  }

  /** The master rows the filter keeps, in their order, before the columns are dropped. */
  function Kept(file1: Table, ids: seq<Cell>, cal: Calendar, day: int): (r: seq<Row>)
    ensures forall x :: x in r <==> x in file1.rows && Get(x, USER_ID) in ids && OnDay(cal, x, day)
  {
    Dated(Referenced(file1.rows, ids), cal, day)
  }

  /** A successful match is the kept rows without the operational columns, row for row. */
  lemma MatchedKept(file1: Table, ids: seq<Cell>, cal: Calendar, date: string)
    requires Matched(file1, ids, cal, date).Ok?
    ensures cal.parseText(date).Some?
    ensures var t, kept := Matched(file1, ids, cal, date).value, Kept(file1, ids, cal, cal.parseText(date).value.day);
            |t.rows| == |kept| && forall k :: 0 <= k < |kept| ==> t.rows[k] == kept[k] - DROPPED
  {
  }

  /** Every master row of a referenced account dated on the requested day survives, without
      the operational columns. */
  lemma MatchedComplete(file1: Table, ids: seq<Cell>, cal: Calendar, date: string, row: Row)
    requires Matched(file1, ids, cal, date).Ok?
    ensures cal.parseText(date).Some?
    ensures row in file1.rows && Get(row, USER_ID) in ids && OnDay(cal, row, cal.parseText(date).value.day) ==>
              row - DROPPED in Matched(file1, ids, cal, date).value.rows
  {
    MatchedKept(file1, ids, cal, date);
    var t, kept := Matched(file1, ids, cal, date).value, Kept(file1, ids, cal, cal.parseText(date).value.day);
    if row in file1.rows && Get(row, USER_ID) in ids && OnDay(cal, row, cal.parseText(date).value.day) {
      var k :| 0 <= k < |kept| && kept[k] == row;
      assert t.rows[k] == row - DROPPED;
    }
  }

  /** Every surviving row is the k-th kept master row without the operational columns: a row
      of a referenced account dated on the requested day. */
  lemma MatchedSound(file1: Table, ids: seq<Cell>, cal: Calendar, date: string, k: nat)
    requires Matched(file1, ids, cal, date).Ok? && k < |Matched(file1, ids, cal, date).value.rows|
    ensures cal.parseText(date).Some?
    ensures var kept := Kept(file1, ids, cal, cal.parseText(date).value.day);
            && k < |kept|
            && Matched(file1, ids, cal, date).value.rows[k] == kept[k] - DROPPED
            && kept[k] in file1.rows && Get(kept[k], USER_ID) in ids && OnDay(cal, kept[k], cal.parseText(date).value.day)
  {
    MatchedKept(file1, ids, cal, date);
    var kept := Kept(file1, ids, cal, cal.parseText(date).value.day);
    assert kept[k] in kept;
  }

  /** The error cases of the master filter, in the order the handler meets them. */
  lemma MatchedFailures(file1: Table, ids: seq<Cell>, cal: Calendar, date: string)
    ensures USER_ID !in file1.cols ==> Matched(file1, ids, cal, date) == Err(MissingUserID)
    ensures USER_ID in file1.cols && DATE !in file1.cols ==> Matched(file1, ids, cal, date) == Err(BadMasterDate)
    ensures USER_ID in file1.cols && DATE in file1.cols &&
            (exists r :: r in file1.rows && Get(r, USER_ID) in ids && Get(r, DATE) != Null && cal.parseColumn(Get(r, DATE)).None?)
            ==> Matched(file1, ids, cal, date) == Err(BadMasterDate)
    ensures USER_ID in file1.cols && DATE in file1.cols &&
            (forall r :: r in file1.rows && Get(r, USER_ID) in ids && Get(r, DATE) != Null ==> cal.parseColumn(Get(r, DATE)).Some?) &&
            cal.parseText(date).None?
            ==> Matched(file1, ids, cal, date) == Err(BadTargetDate)
    ensures Matched(file1, ids, cal, date).Ok? ==>
              forall r :: r in file1.rows && Get(r, USER_ID) in ids && Get(r, DATE) != Null ==> cal.parseColumn(Get(r, DATE)).Some?
  {
  }

  /** Once the dates are good, the filter is refused exactly when no referenced master row is
      dated on the requested day. */
  lemma MatchedNoneForDate(file1: Table, ids: seq<Cell>, cal: Calendar, date: string)
    requires USER_ID in file1.cols && DATE in file1.cols && cal.parseText(date).Some?
    requires forall r :: r in file1.rows && Get(r, USER_ID) in ids && Get(r, DATE) != Null ==> cal.parseColumn(Get(r, DATE)).Some?
    ensures Matched(file1, ids, cal, date) == Err(NoMasterRowsForDate) <==>
              forall r :: r in file1.rows && Get(r, USER_ID) in ids ==> !OnDay(cal, r, cal.parseText(date).value.day)
    ensures Matched(file1, ids, cal, date).Err? ==> Matched(file1, ids, cal, date) == Err(NoMasterRowsForDate)
  {
    var kept := Kept(file1, ids, cal, cal.parseText(date).value.day);
    if kept != [] {
      assert kept[0] in kept;
    }
  }

  /** The per-account figures mapped onto the three sections: `mtm` from MTM (All),
      `Allocation` from ALLOCATION times 100, `max_loss` from MAX LOSS (jainam/app.py:127-135). */
  function Enrich(p: Parts, master: Table): Result<Parts> {
    if MTM_ALL !in master.cols then Err(MissingMasterColumn("MTM (All)"))
    else if !Distinct(master.rows, USER_ID) then Err(Internal(DuplicateUserID))
    else
      var mtm := AddColumn(p.mtm, MTM_SHARE, Figures(p.mtm, master, MTM_ALL));
      if MASTER_ALLOCATION !in master.cols then Err(MissingMasterColumn("ALLOCATION"))
      else
        var allocation :- TimesAll(Figures(p.capital, master, MASTER_ALLOCATION), 100);
        var capital := AddColumn(p.capital, ALLOCATION, allocation);
        if MAX_LOSS !in master.cols then Err(MissingMasterColumn("MAX LOSS"))
        else Ok(Parts(mtm, capital, AddColumn(p.maxLoss, MAX_LOSS_SHARE, Figures(p.maxLoss, master, MAX_LOSS))))
  }

  /** `t['IDs'].map(master.set_index('UserID')[col])`. */
  function Figures(t: Table, master: Table, col: Label): (values: seq<Cell>)
    ensures |values| == |t.rows|
  {
    seq(|t.rows|, k requires 0 <= k < |t.rows| => Lookup(master.rows, USER_ID, Get(t.rows[k], IDS), col))
  }

  /** Each section row gets the figure of the master row of its own ID; ALLOCATION is scaled
      by 100. The sections keep their number of rows. */
  lemma EnrichLookups(p: Parts, master: Table, k: nat, j: nat)
    requires Enrich(p, master).Ok?
    ensures Distinct(master.rows, USER_ID)
    ensures var e := Enrich(p, master).value;
      && |e.mtm.rows| == |p.mtm.rows| && |e.capital.rows| == |p.capital.rows| && |e.maxLoss.rows| == |p.maxLoss.rows|
      && (k < |p.mtm.rows| && j < |master.rows| && Get(p.mtm.rows[k], IDS) == Get(master.rows[j], USER_ID) ==>
            Get(e.mtm.rows[k], MTM_SHARE) == Get(master.rows[j], MTM_ALL))
      && (k < |p.capital.rows| && j < |master.rows| && Get(p.capital.rows[k], IDS) == Get(master.rows[j], USER_ID) ==>
            Times(Get(master.rows[j], MASTER_ALLOCATION), 100) == Ok(Get(e.capital.rows[k], ALLOCATION)))
      && (k < |p.maxLoss.rows| && j < |master.rows| && Get(p.maxLoss.rows[k], IDS) == Get(master.rows[j], USER_ID) ==>
            Get(e.maxLoss.rows[k], MAX_LOSS_SHARE) == Get(master.rows[j], MAX_LOSS))
  {
    var e := Enrich(p, master).value;
    if j < |master.rows| {
      LookupDistinct(master.rows, USER_ID, j, MTM_ALL);
      LookupDistinct(master.rows, USER_ID, j, MASTER_ALLOCATION);
      LookupDistinct(master.rows, USER_ID, j, MAX_LOSS);
    }
    var allocation := TimesAll(Figures(p.capital, master, MASTER_ALLOCATION), 100).value;
    assert e.capital == AddColumn(p.capital, ALLOCATION, allocation);
  }

  /** A section row whose ID has no master row gets NaN in each mapped column. */
  lemma EnrichUnmatched(p: Parts, master: Table, k: nat)
    requires Enrich(p, master).Ok?
    ensures var e := Enrich(p, master).value;
      && (k < |p.mtm.rows| && (forall q :: 0 <= q < |master.rows| ==> Get(master.rows[q], USER_ID) != Get(p.mtm.rows[k], IDS)) ==>
            Get(e.mtm.rows[k], MTM_SHARE) == Null)
      && (k < |p.capital.rows| && (forall q :: 0 <= q < |master.rows| ==> Get(master.rows[q], USER_ID) != Get(p.capital.rows[k], IDS)) ==>
            Get(e.capital.rows[k], ALLOCATION) == Null)
      && (k < |p.maxLoss.rows| && (forall q :: 0 <= q < |master.rows| ==> Get(master.rows[q], USER_ID) != Get(p.maxLoss.rows[k], IDS)) ==>
            Get(e.maxLoss.rows[k], MAX_LOSS_SHARE) == Null)
  {
    var e := Enrich(p, master).value;
    if k < |p.mtm.rows| {
      assert e.mtm == AddColumn(p.mtm, MTM_SHARE, Figures(p.mtm, master, MTM_ALL));
      LookupMissing(master, Get(p.mtm.rows[k], IDS), MTM_ALL);
    }
    if k < |p.capital.rows| {
      var allocation := TimesAll(Figures(p.capital, master, MASTER_ALLOCATION), 100).value;
      assert e.capital == AddColumn(p.capital, ALLOCATION, allocation);
      LookupMissing(master, Get(p.capital.rows[k], IDS), MASTER_ALLOCATION);
    }
    if k < |p.maxLoss.rows| {
      assert e.maxLoss == AddColumn(p.maxLoss, MAX_LOSS_SHARE, Figures(p.maxLoss, master, MAX_LOSS));
      LookupMissing(master, Get(p.maxLoss.rows[k], IDS), MAX_LOSS);
    }
  }

  /** An ID that no master row carries maps to NaN. */
  lemma LookupMissing(master: Table, v: Cell, col: Label)
    ensures (forall q :: 0 <= q < |master.rows| ==> Get(master.rows[q], USER_ID) != v) ==>
      Lookup(master.rows, USER_ID, v, col) == Null
  {
  }

  /** The error cases of the enrichment, in the order the handler meets them. */
  lemma EnrichFailures(p: Parts, master: Table)
    ensures MTM_ALL !in master.cols ==> Enrich(p, master) == Err(MissingMasterColumn("MTM (All)"))
    ensures MTM_ALL in master.cols && !Distinct(master.rows, USER_ID) ==> Enrich(p, master) == Err(Internal(DuplicateUserID))
    ensures MTM_ALL in master.cols && Distinct(master.rows, USER_ID) && MASTER_ALLOCATION !in master.cols ==>
              Enrich(p, master) == Err(MissingMasterColumn("ALLOCATION"))
    ensures MTM_ALL in master.cols && Distinct(master.rows, USER_ID) && MASTER_ALLOCATION in master.cols &&
            (forall k :: 0 <= k < |p.capital.rows| ==> !Lookup(master.rows, USER_ID, Get(p.capital.rows[k], IDS), MASTER_ALLOCATION).Date?) &&
            MAX_LOSS !in master.cols ==>
              Enrich(p, master) == Err(MissingMasterColumn("MAX LOSS"))
  {
  }
}
