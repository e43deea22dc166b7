/** The report as a whole: the uploaded sheets are checked, the MTM of each account is mapped
    onto the allocation rows and shared among them, and the Max SL columns are appended
    (jainam/app.py:48-276). */
module Report {
  import opened Tables
  import opened Sections
  import opened Master
  import opened Aliases
  import Blocks
  import Components
  import Allocation

  // The columns the report appends.
  const SEPARATOR: Label := Str("  ")
  const SHIFTED_IDS: Label := Str("IDs(1)")
  const SHIFTED_ALIAS: Label := Str("Alias(1)")

  /** `df.empty`: a sheet with no rows or no columns. */
  predicate Blank(s: Sheet) {
    s.rows == [] || s.labels == []
  }

  /** A sheet as a table: each row keyed by the header labels. */
  function AsTable(s: Sheet): (t: Table)
    ensures t.cols == s.labels && |t.rows| == |s.rows|
  {
    Table(s.labels, seq(|s.rows|, k requires 0 <= k < |s.rows| => Zip(s.labels, s.rows[k])))
  }

  /** `drop_duplicates(subset=key, keep='first')`: each row whose key no earlier row has. */
  function KeepFirst(rows: seq<Row>, key: Label): (r: seq<Row>)
    ensures |r| <= |rows|
    decreases |rows|
  {
    if rows == [] then []
    else
      var n := |rows| - 1;
      var front := KeepFirst(rows[..n], key);
      if Find(rows[..n], key, Get(rows[n], key)).Some? then front else front + [rows[n]]
  }

  /** The first match in a sequence with one more row at the end. */
  lemma {:induction false} FindSnoc(rows: seq<Row>, x: Row, key: Label, v: Cell)
    ensures Find(rows + [x], key, v) ==
              if Find(rows, key, v).Some? then Find(rows, key, v)
              else if Get(x, key) == v then Some(|rows|) else None
    decreases |rows|
  {
    if rows != [] {
      assert (rows + [x])[1..] == rows[1..] + [x];
      FindSnoc(rows[1..], x, key, v);
    }
  }

  /** The lookup in a sequence with one more row at the end. */
  lemma LookupSnoc(rows: seq<Row>, x: Row, key: Label, v: Cell, col: Label)
    ensures Lookup(rows + [x], key, v, col) ==
              if Find(rows, key, v).Some? then Lookup(rows, key, v, col)
              else if Get(x, key) == v then Get(x, col) else Null
  {
    FindSnoc(rows, x, key, v);
    var f := Find(rows, key, v);
    if f.Some? {
      assert (rows + [x])[f.value] == rows[f.value];
    } else if Get(x, key) == v {
      assert (rows + [x])[|rows|] == x;
    }
  }

  /** Keeping the first row of each key changes neither which keys are found nor what the
      lookup of any key yields. */
  lemma {:induction false} KeepFirstLookup(rows: seq<Row>, key: Label, v: Cell, col: Label)
    ensures Find(KeepFirst(rows, key), key, v).Some? <==> Find(rows, key, v).Some?
    ensures Lookup(KeepFirst(rows, key), key, v, col) == Lookup(rows, key, v, col)
    decreases |rows|
  {
    if rows != [] {
      var n := |rows| - 1;
      var init, last := rows[..n], rows[n];
      var front := KeepFirst(init, key);
      assert rows == init + [last];
      KeepFirstLookup(init, key, v, col);
      FindSnoc(init, last, key, v);
      LookupSnoc(init, last, key, v, col);
      if Find(init, key, Get(last, key)).Some? {
        assert KeepFirst(rows, key) == front;
        if Find(init, key, v).None? {
          assert Get(last, key) != v;
        }
      } else {
        assert KeepFirst(rows, key) == front + [last];
        FindSnoc(front, last, key, v);
        LookupSnoc(front, last, key, v, col);
      }
    }
  }

  /** After keeping the first row of each key, the keys are unique. */
  lemma {:induction false} KeepFirstDistinct(rows: seq<Row>, key: Label)
    ensures Distinct(KeepFirst(rows, key), key)
    decreases |rows|
  {
    if rows != [] {
      var n := |rows| - 1;
      var front := KeepFirst(rows[..n], key);
      KeepFirstDistinct(rows[..n], key);
      if Find(rows[..n], key, Get(rows[n], key)).None? {
        KeepFirstLookup(rows[..n], key, Get(rows[n], key), key);
        var r := front + [rows[n]];
        forall i, j | 0 <= i < j < |r|
          ensures Get(r[i], key) != Get(r[j], key)
        {
          if j == |front| {
            assert Find(front, key, Get(rows[n], key)).None?;
          }
        }
      }
    }
  }

  /** `capital['IDs'].map(unique_mtm_df.set_index('IDs')['mtm'])` as the MTM column. */
  function MapMtm(capital: Table, mtm: Table): (r: Table)
    ensures |r.rows| == |capital.rows| && MTM in r.cols
    ensures forall l :: l in r.cols <==> l in capital.cols || l == MTM
    ensures forall k, c :: 0 <= k < |capital.rows| && c != MTM ==> Get(r.rows[k], c) == Get(capital.rows[k], c)
  {
    var unique := KeepFirst(mtm.rows, IDS);
    AddColumn(capital, MTM, seq(|capital.rows| , k requires 0 <= k < |capital.rows| =>
                                  Lookup(unique, IDS, Get(capital.rows[k], IDS), MTM_SHARE)))
  }

  /** Every row gets the mtm of the first MTM row with its ID, NaN when there is none. */
  lemma MapMtmLookup(capital: Table, mtm: Table, k: nat)
    requires k < |capital.rows|
    ensures Get(MapMtm(capital, mtm).rows[k], MTM) == Lookup(mtm.rows, IDS, Get(capital.rows[k], IDS), MTM_SHARE)
  {
    KeepFirstLookup(mtm.rows, IDS, Get(capital.rows[k], IDS), MTM_SHARE);
  }

  /** Against an expanded MTM section, a row without an ID gets NaN: the first MTM row without
      an ID is a placeholder. */
  lemma MapMtmPlaceholder(capital: Table, section: Table, k: nat)
    requires Expanded(Identify(section)).Ok? && k < |capital.rows| && Get(capital.rows[k], IDS) == Null
    ensures Get(MapMtm(capital, Expanded(Identify(section)).value).rows[k], MTM) == Null
  {
    var e := Expanded(Identify(section)).value;
    MapMtmLookup(capital, e, k);
    var f := Find(e.rows, IDS, Null);
    if f.Some? {
      var q := f.value;
      var rows := KeepIdentified(section.rows);
      assert e.rows[q] == ExpandedAt(section.cols, rows, q);
      assert q % 6 != 0 by {
        forall p | 0 <= p < |e.rows| && p % 6 == 0
          ensures Identified(e.rows[p])
        {
          assert rows[p / 6] in rows;
        }
      }
    }
  }

  /** The Max SL columns appended by position, after a `|` separator column; a Max SL section
      without an Alias column cannot be read. */
  function Assemble(t: Table, maxLoss: Table): (r: Result<Table>)
    ensures r.Err? <==> ALIAS !in maxLoss.cols
    ensures r.Err? ==> r.failure == Internal(NoAliasColumn)
    ensures r.Ok? ==> |r.value.rows| == |t.rows|
    ensures r.Ok? ==> forall l :: l in r.value.cols <==>
              l in t.cols || l in [SEPARATOR, SHIFTED_IDS, SHIFTED_ALIAS, MAX_LOSS_SHARE]
    ensures r.Ok? ==> forall k :: 0 <= k < |t.rows| ==>
              && Get(r.value.rows[k], SEPARATOR) == Str("|")
              && Get(r.value.rows[k], SHIFTED_IDS) == At(Column(maxLoss, IDS), k)
              && Get(r.value.rows[k], SHIFTED_ALIAS) == At(Column(maxLoss, ALIAS), k)
              && Get(r.value.rows[k], MAX_LOSS_SHARE) == At(Column(maxLoss, MAX_LOSS_SHARE), k)
    ensures r.Ok? ==> forall k, c :: 0 <= k < |t.rows| && c !in [SEPARATOR, SHIFTED_IDS, SHIFTED_ALIAS, MAX_LOSS_SHARE] ==>
              Get(r.value.rows[k], c) == Get(t.rows[k], c)
  {
    if ALIAS !in maxLoss.cols then Err(Internal(NoAliasColumn))
    else
      var separated := AddColumn(t, SEPARATOR, seq(|t.rows|, k => Str("|")));
      var ids := AddColumn(separated, SHIFTED_IDS, Column(maxLoss, IDS));
      var aliases := AddColumn(ids, SHIFTED_ALIAS, Column(maxLoss, ALIAS));
      Ok(AddColumn(aliases, MAX_LOSS_SHARE, Column(maxLoss, MAX_LOSS_SHARE)))
  }

  /** `target_date = pd.to_datetime(date).normalize()`. */
  function TargetDay(cal: Calendar, date: string): (r: Result<int>)
    ensures r.Err? <==> cal.parseText(date).None?
    ensures r.Ok? ==> r.value == cal.parseText(date).value.day
  {
    match cal.parseText(date)
    case None => Err(BadTargetDate)
    case Some(target) => Ok(target.day)
  }

  /** The report for the master sheet `file1`, the allocation sheet `file2`, the daily sheet
      `file3` and the requested date, or the first check that refuses them. */
  function Pipeline(file1: Sheet, file2: Sheet, file3: Sheet, date: string, cal: Calendar): Result<Table> {
    if Blank(file1) then Err(EmptyFile(1))
    else if Blank(file2) then Err(EmptyFile(2))
    else if Blank(file3) then Err(EmptyFile(3))
    else
      var parts :- Extract(file3);
      var master :- Matched(AsTable(file1), NonNullIds(parts.mtm), cal, date);
      var enriched :- Enrich(parts, master);
      var mtm :- Expanded(Identify(enriched.mtm));
      var capital :- Expanded(Identify(enriched.capital));
      var records :- Blocks.Parsed(cal, file2.rows);
      var day :- TargetDay(cal, date);
      var allocation :- Blocks.ForDate(records, day);
      var filled :- Components.Filled(capital.rows, allocation);
      var backfilled :- Components.Backfill(Table(capital.cols, filled));
      var mapped := MapMtm(backfilled, mtm);
      var shared :- Allocation.Allocated(mapped.rows);
      Assemble(Table(mapped.cols, shared), enriched.maxLoss)
  }

  /** `process_files`: the checks and the stages in the order of the handler, with the loops
      of the alias expansion, the block parser, the component fill and the allocation. */
  method Process(file1: Sheet, file2: Sheet, file3: Sheet, date: string, cal: Calendar) returns (r: Result<Table>)
    ensures r == Pipeline(file1, file2, file3, date, cal)
  {
    if Blank(file1) {
      return Err(EmptyFile(1));
    } else if Blank(file2) {
      return Err(EmptyFile(2));
    } else if Blank(file3) {
      return Err(EmptyFile(3));
    }
    var parts :- Extract(file3);
    var master :- Matched(AsTable(file1), NonNullIds(parts.mtm), cal, date);
    var enriched :- Enrich(parts, master);
    var mtm :- Expand(Identify(enriched.mtm));
    var capital :- Expand(Identify(enriched.capital));
    var records :- Blocks.ParseBlocks(cal, file2.rows);
    var day :- TargetDay(cal, date);
    var allocation :- Blocks.ForDate(records, day);
    var filled :- Components.FillComponents(capital.rows, allocation);
    var backfilled :- Components.Backfill(Table(capital.cols, filled));
    var mapped := MapMtm(backfilled, mtm);
    var shared :- Allocation.Allocate(mapped.rows);
    r := Assemble(Table(mapped.cols, shared), enriched.maxLoss);
  }

  /** The empty-file checks come first, for file1, file2 and file3 in that order. */
  lemma PipelineEmpty(file1: Sheet, file2: Sheet, file3: Sheet, date: string, cal: Calendar)
    ensures Blank(file1) ==> Pipeline(file1, file2, file3, date, cal) == Err(EmptyFile(1))
    ensures !Blank(file1) && Blank(file2) ==> Pipeline(file1, file2, file3, date, cal) == Err(EmptyFile(2))
    ensures !Blank(file1) && !Blank(file2) && Blank(file3) ==> Pipeline(file1, file2, file3, date, cal) == Err(EmptyFile(3))
    ensures Pipeline(file1, file2, file3, date, cal).Ok? ==> !Blank(file1) && !Blank(file2) && !Blank(file3)
  {
  }

  /** A refusal of the section extraction is the handler's answer, once the three files have
      rows. */
  lemma PipelineExtract(file1: Sheet, file2: Sheet, file3: Sheet, date: string, cal: Calendar)
    requires !Blank(file1) && !Blank(file2) && !Blank(file3) && Extract(file3).Err?
    ensures Pipeline(file1, file2, file3, date, cal) == Err(Extract(file3).failure)
  {
  }

  /** The HTTP status of the sheet-layout refusals: sentinels out of order fail a slice past the
      guarded block, which the handler answers with 500; a section header without IDs is the
      400 of its own check. */
  lemma PipelineSentinelStatus(file1: Sheet, file2: Sheet, file3: Sheet, date: string, cal: Calendar,
                               m: nat, c: nat, x: nat, v: nat)
    requires !Blank(file1) && !Blank(file2) && !Blank(file3) && Located(file3, m, c, x, v)
    ensures var r := Pipeline(file1, file2, file3, date, cal);
      && (c <= m ==> r.Err? && Status(r.failure) == 500)
      && (m < c && IDS !in file3.rows[m + 1] ==> r.Err? && Status(r.failure) == 400)
      && (m < c && IDS in file3.rows[m + 1] && x <= c ==> r.Err? && Status(r.failure) == 500)
      && (m < c < x && IDS in file3.rows[m + 1] && IDS !in file3.rows[c + 1] ==> r.Err? && Status(r.failure) == 400)
      && (m < c < x && IDS in file3.rows[m + 1] && IDS in file3.rows[c + 1] && v <= x ==> r.Err? && Status(r.failure) == 500)
      && (m < c < x < v && IDS in file3.rows[m + 1] && IDS in file3.rows[c + 1] && IDS !in file3.rows[x + 1] ==>
            r.Err? && Status(r.failure) == 400)
  {
    ExtractFailures(file3);
    if m < c && IDS in file3.rows[m + 1] {
      ExtractLaterFailures(file3, m, c, x, v);
    }
    if Extract(file3).Err? {
      PipelineExtract(file1, file2, file3, date, cal);
    }
  }

  /** An enriched section keeps the Alias column and the IDs of the section it came from, so
      the alias expansion refuses it exactly when it refuses the section as cut out. */
  lemma EnrichedExpansion(p: Parts, master: Table)
    requires Enrich(p, master).Ok?
    ensures var e := Enrich(p, master).value;
      && (Expanded(Identify(e.mtm)).Err? <==>
            ALIAS !in p.mtm.cols || forall k :: 0 <= k < |p.mtm.rows| ==> !Identified(p.mtm.rows[k]))
      && (Expanded(Identify(e.capital)).Err? <==>
            ALIAS !in p.capital.cols || forall k :: 0 <= k < |p.capital.rows| ==> !Identified(p.capital.rows[k]))
  {
    var e := Enrich(p, master).value;
    var allocation := TimesAll(Figures(p.capital, master, MASTER_ALLOCATION), 100).value;
    assert e.mtm == AddColumn(p.mtm, MTM_SHARE, Figures(p.mtm, master, MTM_ALL));
    assert e.capital == AddColumn(p.capital, ALLOCATION, allocation);
    ExpandedAddColumn(p.mtm, MTM_SHARE, Figures(p.mtm, master, MTM_ALL));
    ExpandedAddColumn(p.capital, ALLOCATION, allocation);
  }

  /** A refusal of either alias expansion is the handler's answer once the stages before it
      succeed. */
  lemma PipelineExpansion(file1: Sheet, file2: Sheet, file3: Sheet, date: string, cal: Calendar,
                          p: Parts, master: Table, e: Parts)
    requires !Blank(file1) && !Blank(file2) && !Blank(file3) && Extract(file3) == Ok(p)
    requires Matched(AsTable(file1), NonNullIds(p.mtm), cal, date) == Ok(master) && Enrich(p, master) == Ok(e)
    ensures Expanded(Identify(e.mtm)).Err? ==>
              Pipeline(file1, file2, file3, date, cal) == Err(Expanded(Identify(e.mtm)).failure)
    ensures Expanded(Identify(e.mtm)).Ok? && Expanded(Identify(e.capital)).Err? ==>
              Pipeline(file1, file2, file3, date, cal) == Err(Expanded(Identify(e.capital)).failure)
  {
  }

  /** The alias expansion of the MTM and Capital Deployed sections fails with 500 when the
      section has no Alias column or no row with an ID, once the stages before it succeed. */
  lemma PipelineAliasStatus(file1: Sheet, file2: Sheet, file3: Sheet, date: string, cal: Calendar)
    requires !Blank(file1) && !Blank(file2) && !Blank(file3) && Extract(file3).Ok?
    requires Matched(AsTable(file1), NonNullIds(Extract(file3).value.mtm), cal, date).Ok?
    requires Enrich(Extract(file3).value, Matched(AsTable(file1), NonNullIds(Extract(file3).value.mtm), cal, date).value).Ok?
    ensures var p, r := Extract(file3).value, Pipeline(file1, file2, file3, date, cal);
      && (ALIAS !in p.mtm.cols || (forall k :: 0 <= k < |p.mtm.rows| ==> !Identified(p.mtm.rows[k])) ==>
            r.Err? && Status(r.failure) == 500)
      && (ALIAS in p.mtm.cols && (exists k :: 0 <= k < |p.mtm.rows| && Identified(p.mtm.rows[k])) &&
          (ALIAS !in p.capital.cols || (forall k :: 0 <= k < |p.capital.rows| ==> !Identified(p.capital.rows[k]))) ==>
            r.Err? && Status(r.failure) == 500)
  {
    var p := Extract(file3).value;
    var master := Matched(AsTable(file1), NonNullIds(p.mtm), cal, date).value;
    var e := Enrich(p, master).value;
    EnrichedExpansion(p, master);
    PipelineExpansion(file1, file2, file3, date, cal, p, master, e);
  }
}
