/** The parser of the allocation sheet (file2): repeating blocks, each an optional date
    row, a header row mentioning "UserID", and data rows up to a blank row or the next
    header; then the rows of the requested day (jainam/app.py:166-221). */
module Blocks {
  import opened Tables

  /** The fixed header given to every block's rows. */
  const CUSTOM_HEADER: seq<Label> := [Str("UserID"), Str("User Alias"), Str("Algo"), Str("VT"), Str("GB"),
                                      Str("PS"), Str("RD"), Str("RM"), Str("ALLOCATION"), Str("MAX LOSS")]
  const BLOCK_DATE: Label := Str("Date")
  const BLOCK_USER: Label := Str("UserID")
  /** The columns dropped once the blocks are joined. */
  const UNUSED: set<Label> := {Str("Algo"), Str("MAX LOSS")}
  const HEADER_TOKEN: string := "UserID"

  /** ASCII case folding. */
  function Lower(ch: char): char {
    if 'A' <= ch <= 'Z' then (ch as int + 32) as char else ch
  }

  /** `t` is, up to ASCII case, a prefix of `s`. */
  predicate StartsFolded(s: string, t: string)
    decreases |t|
  {
    t == [] || (s != [] && Lower(s[0]) == Lower(t[0]) && StartsFolded(s[1..], t[1..]))
  }

  /** `str.contains(t, case=False)`. */
  predicate ContainsFolded(s: string, t: string)
    decreases |s|
  {
    StartsFolded(s, t) || (s != [] && ContainsFolded(s[1..], t))
  }

  /** Some cell of the row mentions "UserID" in any letter case: the row opens a block.
      Numbers, timestamps and NaN never do once turned into text. */
  predicate IsHeader(row: seq<Cell>)
    decreases |row|
  {
    row != [] && ((row[0].Str? && ContainsFolded(row[0].text, HEADER_TOKEN)) || IsHeader(row[1..]))
  }

  /** `row.isnull().all()`. */
  predicate IsBlank(row: seq<Cell>)
    decreases |row|
  {
    row == [] || (row[0] == Null && IsBlank(row[1..]))
  }

  /** The recursive tests are the quantified ones: a header has a cell that mentions the
      token at some offset, a blank row has NaN in every cell. */
  lemma {:induction false} HeaderCell(row: seq<Cell>)
    ensures IsHeader(row) <==> exists k :: 0 <= k < |row| && row[k].Str? && ContainsFolded(row[k].text, HEADER_TOKEN)
    ensures IsBlank(row) <==> forall k :: 0 <= k < |row| ==> row[k] == Null
    decreases |row|
  {
    if row != [] {
      HeaderCell(row[1..]);
      assert forall k :: 1 <= k < |row| ==> row[k] == row[1..][k - 1];
      if IsHeader(row[1..]) {
        var k :| 0 <= k < |row[1..]| && row[1..][k].Str? && ContainsFolded(row[1..][k].text, HEADER_TOKEN);
        assert row[k + 1] == row[1..][k];
      }
    }
  }

  /** The end of the run of data rows that starts at j: the first blank or header row, or the end. */
  function RunEnd(rows: seq<seq<Cell>>, j: nat): (e: nat)
    requires j <= |rows|
    ensures j <= e <= |rows|
    ensures forall q :: j <= q < e ==> !IsBlank(rows[q]) && !IsHeader(rows[q])
    ensures e < |rows| ==> IsBlank(rows[e]) || IsHeader(rows[e])
    decreases |rows| - j
  {
    if j == |rows| || IsBlank(rows[j]) || IsHeader(rows[j]) then j else RunEnd(rows, j + 1)
  }

  /** A stopping point that closes the run from j is the one RunEnd finds. */
  lemma {:induction false} RunEndExact(rows: seq<seq<Cell>>, j: nat, e: nat)
    requires j <= e <= |rows|
    requires forall q :: j <= q < e ==> !IsBlank(rows[q]) && !IsHeader(rows[q])
    requires e < |rows| ==> IsBlank(rows[e]) || IsHeader(rows[e])
    ensures RunEnd(rows, j) == e
    decreases e - j
  {
    if j < e {
      RunEndExact(rows, j + 1, e);
    }
  }

  /** The cell is a date the day-first parser reads with a year from 2020 on. */
  predicate Qualifies(cal: Calendar, c: Cell) {
    c != Null && cal.parseDayFirst(c).Some? && cal.yearOf(cal.parseDayFirst(c).value.day) >= 2020
  }

  /** The first cell of a row, left to right, that qualifies as the block's date. */
  function FirstDate(cal: Calendar, cells: seq<Cell>): Option<Moment>
    decreases |cells|
  {
    if cells == [] then None
    else if Qualifies(cal, cells[0]) then cal.parseDayFirst(cells[0])
    else FirstDate(cal, cells[1..])
  }

  /** The block date is NaT exactly when no cell qualifies, and otherwise comes from the first
      cell that does. */
  lemma {:induction false} FirstDateSpec(cal: Calendar, cells: seq<Cell>)
    ensures FirstDate(cal, cells).None? <==> forall k :: 0 <= k < |cells| ==> !Qualifies(cal, cells[k])
    ensures FirstDate(cal, cells).Some? ==>
              exists k :: 0 <= k < |cells| && Qualifies(cal, cells[k]) && FirstDate(cal, cells) == cal.parseDayFirst(cells[k]) &&
                          forall q :: 0 <= q < k ==> !Qualifies(cal, cells[q])
    decreases |cells|
  {
    if cells != [] && !Qualifies(cal, cells[0]) {
      FirstDateSpec(cal, cells[1..]);
      assert forall k :: 1 <= k < |cells| ==> cells[k] == cells[1..][k - 1];
      if FirstDate(cal, cells).Some? {
        var k :| 0 <= k < |cells[1..]| && Qualifies(cal, cells[1..][k]) && FirstDate(cal, cells) == cal.parseDayFirst(cells[1..][k]) &&
                 forall q :: 0 <= q < k ==> !Qualifies(cal, cells[1..][q]);
        assert Qualifies(cal, cells[k + 1]) && forall q :: 0 <= q < k + 1 ==> !Qualifies(cal, cells[q]);
      }
    }
  }

  /** The date of the block whose header is row h: from the row before it, else NaT. */
  function BlockDate(cal: Calendar, rows: seq<seq<Cell>>, h: nat): Option<Moment>
    requires h < |rows|
  {
    if h == 0 then None else FirstDate(cal, rows[h - 1])
  }

  /** One block: its header row, the row where its data rows stop, and its date. */
  datatype Block = Block(header: nat, stop: nat, date: Option<Moment>)

  /** A block found in the rows: a header, then a non-empty maximal run of data rows. */
  predicate Found(cal: Calendar, rows: seq<seq<Cell>>, b: Block) {
    && b.header + 1 < b.stop <= |rows|
    && IsHeader(rows[b.header])
    && b.stop == RunEnd(rows, b.header + 1)
    && b.date == BlockDate(cal, rows, b.header)
  }

  /** The blocks the scan finds from cursor i on, in row order, skipping empty blocks. */
  function Scan(cal: Calendar, rows: seq<seq<Cell>>, i: nat): (bs: seq<Block>)
    requires i <= |rows|
    ensures Spans(rows, bs)
    decreases |rows| - i
  {
    if i == |rows| then []
    else if IsHeader(rows[i]) then Opened(cal, rows, i) + Scan(cal, rows, RunEnd(rows, i + 1))
    else Scan(cal, rows, i + 1)
  }

  /** The blocks come in row order, after the cursor, and do not overlap. */
  lemma {:induction false} ScanOrdered(cal: Calendar, rows: seq<seq<Cell>>, i: nat)
    requires i <= |rows|
    ensures forall k :: 0 <= k < |Scan(cal, rows, i)| ==> i <= Scan(cal, rows, i)[k].header
    ensures forall k, l :: 0 <= k < l < |Scan(cal, rows, i)| ==> Scan(cal, rows, i)[k].stop <= Scan(cal, rows, i)[l].header
    decreases |rows| - i
  {
    if i < |rows| {
      var bs := Scan(cal, rows, i);
      if IsHeader(rows[i]) {
        var j := RunEnd(rows, i + 1);
        ScanOrdered(cal, rows, j);
        var head, rest := Opened(cal, rows, i), Scan(cal, rows, j);
        assert bs == head + rest;
        forall k | |head| <= k < |bs|
          ensures bs[k] == rest[k - |head|]
        {
          IndexAppend(head, rest, k - |head|);
        }
        forall k, l | 0 <= k < l < |bs|
          ensures bs[k].stop <= bs[l].header
        {
          if k < |head| {
            assert bs[k].stop == j && bs[l] == rest[l - |head|];
          }
        }
      } else {
        ScanOrdered(cal, rows, i + 1);
      }
    }
  }

  /** Every block covers a header row and at least one data row of the sheet. */
  predicate Spans(rows: seq<seq<Cell>>, bs: seq<Block>) {
    forall k :: 0 <= k < |bs| ==> bs[k].header + 1 < bs[k].stop <= |rows|
  }

  /** Every block of the scan starts at a header row, runs to the end of its data rows and
      carries the date of the row before its header. */
  lemma {:induction false} ScanFound(cal: Calendar, rows: seq<seq<Cell>>, i: nat)
    requires i <= |rows|
    ensures AllFound(cal, rows, Scan(cal, rows, i))
    decreases |rows| - i
  {
    if i < |rows| {
      if IsHeader(rows[i]) {
        var j := RunEnd(rows, i + 1);
        ScanFound(cal, rows, j);
        var head, rest := Opened(cal, rows, i), Scan(cal, rows, j);
        assert Scan(cal, rows, i) == head + rest;
        forall k | 0 <= k < |head + rest|
          ensures Found(cal, rows, (head + rest)[k])
        {
          if k >= |head| {
            assert (head + rest)[k] == rest[k - |head|];
          }
        }
      } else {
        ScanFound(cal, rows, i + 1);
      }
    }
  }

  /** The block a header row at i opens: none when no data row follows it. */
  function Opened(cal: Calendar, rows: seq<seq<Cell>>, i: nat): (bs: seq<Block>)
    requires i < |rows|
    ensures |bs| <= 1
    ensures bs != [] <==> RunEnd(rows, i + 1) > i + 1
    ensures bs != [] ==> bs[0] == Block(i, RunEnd(rows, i + 1), BlockDate(cal, rows, i))
  {
    var j := RunEnd(rows, i + 1);
    if j > i + 1 then [Block(i, j, BlockDate(cal, rows, i))] else []
  }

  lemma IndexAppend(head: seq<Block>, rest: seq<Block>, k: nat)
    requires k < |rest|
    ensures (head + rest)[|head| + k] == rest[k]
  {
  }

  /** No header row from the cursor on is passed over: each one with a non-empty run of
      data rows opens a block of the scan. */
  lemma {:induction false} ScanComplete(cal: Calendar, rows: seq<seq<Cell>>, i: nat, h: nat)
    requires i <= h < |rows| && IsHeader(rows[h]) && RunEnd(rows, h + 1) > h + 1
    ensures exists k :: 0 <= k < |Scan(cal, rows, i)| && Scan(cal, rows, i)[k].header == h
    decreases |rows| - i
  {
    var bs := Scan(cal, rows, i);
    if IsHeader(rows[i]) {
      var j := RunEnd(rows, i + 1);
      var head, rest := Opened(cal, rows, i), Scan(cal, rows, j);
      assert bs == head + rest;
      if h == i {
        assert bs[0].header == h;
      } else {
        assert forall q :: i + 1 <= q < j ==> !IsHeader(rows[q]);
        assert h >= j;
        ScanComplete(cal, rows, j, h);
        var k :| 0 <= k < |rest| && rest[k].header == h;
        IndexAppend(head, rest, k);
        assert bs[|head| + k].header == h;
      }
    } else {
      assert bs == Scan(cal, rows, i + 1);
      ScanComplete(cal, rows, i + 1, h);
    }
  }

  /** The scan finds no block at all exactly when no header row from the cursor on has a
      data row after it. */
  lemma ScanEmpty(cal: Calendar, rows: seq<seq<Cell>>, i: nat)
    requires i <= |rows|
    ensures Scan(cal, rows, i) == [] <==>
              forall h :: i <= h < |rows| && IsHeader(rows[h]) ==> RunEnd(rows, h + 1) == h + 1
  {
    var bs := Scan(cal, rows, i);
    if bs != [] {
      ScanFound(cal, rows, i);
      ScanOrdered(cal, rows, i);
      assert Found(cal, rows, bs[0]) && i <= bs[0].header;
    }
    forall h | i <= h < |rows| && IsHeader(rows[h]) && RunEnd(rows, h + 1) > h + 1
      ensures bs != []
    {
      ScanComplete(cal, rows, i, h);
    }
  }

  predicate AllFound(cal: Calendar, rows: seq<seq<Cell>>, bs: seq<Block>) {
    forall k :: 0 <= k < |bs| ==> Found(cal, rows, bs[k])
  }

  /** A data row that does not have the ten cells of the fixed header. */
  predicate Bad(rows: seq<seq<Cell>>, b: Block) {
    exists q :: b.header < q < b.stop && q < |rows| && |rows[q]| != |CUSTOM_HEADER|
  }

  /** The first block that `pd.DataFrame(data_rows, columns=custom_header)` rejects. */
  function FirstBad(rows: seq<seq<Cell>>, bs: seq<Block>): (r: Option<Block>)
    ensures r.None? <==> forall k :: 0 <= k < |bs| ==> !Bad(rows, bs[k])
    ensures r.Some? ==> exists k :: 0 <= k < |bs| && bs[k] == r.value && Bad(rows, r.value) &&
                                    forall q :: 0 <= q < k ==> !Bad(rows, bs[q])
    decreases |bs|
  {
    if bs == [] then None
    else if Bad(rows, bs[0]) then Some(bs[0])
    else
      var r := FirstBad(rows, bs[1..]);
      assert forall k :: 1 <= k < |bs| ==> bs[k] == bs[1..][k - 1];
      if r.Some? then
        var k :| 0 <= k < |bs[1..]| && bs[1..][k] == r.value && Bad(rows, r.value) &&
                 forall q :: 0 <= q < k ==> !Bad(rows, bs[1..][q]);
        assert bs[k + 1] == r.value && forall q :: 0 <= q < k + 1 ==> !Bad(rows, bs[q]);
        r
      else r
  }

  lemma {:induction false} FirstBadAppend(rows: seq<seq<Cell>>, a: seq<Block>, b: seq<Block>)
    requires FirstBad(rows, a).None?
    ensures FirstBad(rows, a + b) == FirstBad(rows, b)
    decreases |a|
  {
    if a == [] {
      assert a + b == b;
    } else {
      assert (a + b)[0] == a[0] && (a + b)[1..] == a[1..] + b;
      assert !Bad(rows, a[0]);
      FirstBadAppend(rows, a[1..], b);
      assert FirstBad(rows, a + b) == FirstBad(rows, (a + b)[1..]);
    }
  }

  /** The cell a block date becomes in the Date column. */
  function DateCell(d: Option<Moment>): Cell {
    if d.Some? then Date(d.value) else Null
  }

  /** One data row under the fixed header, tagged with its block's date. */
  function Record(cells: seq<Cell>, d: Option<Moment>): Row {
    Zip(CUSTOM_HEADER, cells)[BLOCK_DATE := DateCell(d)]
  }

  /** `block_df`: the data rows of a block as records. */
  function Records(rows: seq<seq<Cell>>, b: Block): (r: seq<Row>)
    requires b.header < b.stop <= |rows|
    ensures |r| == b.stop - b.header - 1
  {
    seq(b.stop - b.header - 1, k requires 0 <= k < b.stop - b.header - 1 => Record(rows[b.header + 1 + k], b.date))
  }

  /** `pd.concat(all_data, ignore_index=True)`. */
  function Concat(frames: seq<seq<Row>>): seq<Row>
    decreases |frames|
  {
    if frames == [] then [] else Concat(frames[..|frames| - 1]) + frames[|frames| - 1]
  }

  function Frames(rows: seq<seq<Cell>>, bs: seq<Block>): (fs: seq<seq<Row>>)
    requires Spans(rows, bs)
    ensures |fs| == |bs|
  {
    seq(|bs|, k requires 0 <= k < |bs| => Records(rows, bs[k]))
  }

  /** The joined records of all blocks of the sheet, or why there are none. */
  function Parsed(cal: Calendar, rows: seq<seq<Cell>>): Result<seq<Row>> {
    var bs := Scan(cal, rows, 0);
    match FirstBad(rows, bs)
    case Some(b) => Err(BadBlockRow(b.header))
    case None =>
      if forall k :: 0 <= k < |rows| ==> !IsHeader(rows[k]) then Err(NoUserIDHeader)
      else if bs == [] then Err(NoBlocks)
      else Ok(Concat(Frames(rows, bs)))
  }

  /** The date scan over the row before a header (jainam/app.py:179-188). */
  method DateOf(cal: Calendar, row: seq<Cell>) returns (d: Option<Moment>)
    ensures d == FirstDate(cal, row)
  {
    var k := 0;
    while k < |row|
      invariant 0 <= k <= |row|
      invariant FirstDate(cal, row[k..]) == FirstDate(cal, row)
    {
      assert row[k..][0] == row[k] && row[k..][1..] == row[k + 1..];
      var val := row[k];
      if val != Null {
        var dt := cal.parseDayFirst(val);
        if dt.Some? && cal.yearOf(dt.value.day) >= 2020 {
          return dt;
        }
      }
      k := k + 1;
    }
    return None;
  }

  /** The inner loop: the rows after a header up to a blank row, the next header or the end. */
  method DataRun(rows: seq<seq<Cell>>, start: nat) returns (dataRows: seq<seq<Cell>>, j: nat)
    requires start <= |rows|
    ensures j == RunEnd(rows, start) && dataRows == rows[start..j]
  {
    dataRows := [];
    j := start;
    while j < |rows|
      invariant start <= j <= |rows|
      invariant dataRows == rows[start..j]
      invariant forall q :: start <= q < j ==> !IsBlank(rows[q]) && !IsHeader(rows[q])
    {
      if IsBlank(rows[j]) || IsHeader(rows[j]) {
        break;
      }
      dataRows := dataRows + [rows[j]];
      j := j + 1;
    }
    RunEndExact(rows, start, j);
  }

  /** A block is refused exactly when one of its data rows is not ten cells wide. */
  lemma BadRun(rows: seq<seq<Cell>>, b: Block, dataRows: seq<seq<Cell>>)
    requires b.header < b.stop <= |rows| && dataRows == rows[b.header + 1..b.stop]
    ensures Bad(rows, b) <==> exists q :: 0 <= q < |dataRows| && |dataRows[q]| != |CUSTOM_HEADER|
  {
    if Bad(rows, b) {
      var q :| b.header < q < b.stop && q < |rows| && |rows[q]| != |CUSTOM_HEADER|;
      assert dataRows[q - b.header - 1] == rows[q];
    }
    if exists q :: 0 <= q < |dataRows| && |dataRows[q]| != |CUSTOM_HEADER| {
      var q :| 0 <= q < |dataRows| && |dataRows[q]| != |CUSTOM_HEADER|;
      assert rows[b.header + 1 + q] == dataRows[q];
    }
  }

  lemma Regroup(done: seq<Block>, head: seq<Block>, rest: seq<Block>, all: seq<Block>)
    requires done + (head + rest) == all
    ensures (done + head) + rest == all
  {
  }

  /** A block that the frame constructor accepts keeps the scan free of bad blocks. */
  lemma FirstBadAccept(rows: seq<seq<Cell>>, done: seq<Block>, b: Block)
    requires FirstBad(rows, done).None? && !Bad(rows, b)
    ensures FirstBad(rows, done + [b]).None?
  {
    FirstBadAppend(rows, done, [b]);
    assert [b][1..] == [];
  }

  /** A block that the frame constructor rejects is the first bad block of the whole scan. */
  lemma Rejected(rows: seq<seq<Cell>>, done: seq<Block>, b: Block, rest: seq<Block>, all: seq<Block>)
    requires done + ([b] + rest) == all
    requires FirstBad(rows, done).None? && Bad(rows, b)
    ensures FirstBad(rows, all) == Some(b)
  {
    FirstBadAppend(rows, done, [b] + rest);
    assert ([b] + rest)[0] == b;
  }

  lemma FramesAppend(rows: seq<seq<Cell>>, done: seq<Block>, b: Block)
    requires Spans(rows, done) && b.header + 1 < b.stop <= |rows|
    ensures Spans(rows, done + [b])
    ensures Frames(rows, done + [b]) == Frames(rows, done) + [Records(rows, b)]
  {
    assert forall k :: 0 <= k < |done| ==> (done + [b])[k] == done[k];
  }

  /** What the end of the scan answers, once every block has been accepted. */
  lemma Outcome(cal: Calendar, rows: seq<seq<Cell>>, done: seq<Block>, found: bool)
    requires done == Scan(cal, rows, 0) && FirstBad(rows, done).None?
    requires found <==> exists k :: 0 <= k < |rows| && IsHeader(rows[k])
    ensures Parsed(cal, rows) == if !found then Err(NoUserIDHeader)
                                 else if |done| == 0 then Err(NoBlocks)
                                 else Ok(Concat(Frames(rows, done)))
  {
  }

  /** The answer of the scan from cursor i on, given whether a header was met before i and
      the frames gathered so far; it follows the loop of `ParseBlocks` step by step. */
  function Resume(cal: Calendar, rows: seq<seq<Cell>>, i: nat, found: bool, frames: seq<seq<Row>>): Result<seq<Row>>
    requires i <= |rows|
    decreases |rows| - i
  {
    if i == |rows| then
      if !found then Err(NoUserIDHeader) else if |frames| == 0 then Err(NoBlocks) else Ok(Concat(frames))
    else if IsHeader(rows[i]) then
      var b := Block(i, RunEnd(rows, i + 1), BlockDate(cal, rows, i));
      if b.stop == i + 1 then Resume(cal, rows, b.stop, true, frames)
      else if Bad(rows, b) then Err(BadBlockRow(i))
      else Resume(cal, rows, b.stop, true, frames + [Records(rows, b)])
    else Resume(cal, rows, i + 1, found, frames)
  }

  /** Resuming the scan anywhere along the way, with the blocks met so far accepted, gives the
      answer the structural definition gives for the whole sheet. */
  lemma {:induction false} ResumeParsed(cal: Calendar, rows: seq<seq<Cell>>, i: nat, found: bool, done: seq<Block>)
    requires i <= |rows| && done + Scan(cal, rows, i) == Scan(cal, rows, 0)
    requires Spans(rows, done) && FirstBad(rows, done).None?
    requires found <==> exists k :: 0 <= k < i && IsHeader(rows[k])
    ensures Resume(cal, rows, i, found, Frames(rows, done)) == Parsed(cal, rows)
    decreases |rows| - i, 1
  {
    if i == |rows| {
      assert done == Scan(cal, rows, 0);
      Outcome(cal, rows, done, found);
    } else if IsHeader(rows[i]) {
      ResumeAtHeader(cal, rows, i, found, done);
    } else {
      assert Scan(cal, rows, i) == Scan(cal, rows, i + 1);
      assert (exists k :: 0 <= k < i + 1 && IsHeader(rows[k])) <==> (exists k :: 0 <= k < i && IsHeader(rows[k]));
      ResumeParsed(cal, rows, i + 1, found, done);
    }
  }

  /** The step of ResumeParsed at a header row. */
  lemma {:induction false} ResumeAtHeader(cal: Calendar, rows: seq<seq<Cell>>, i: nat, found: bool, done: seq<Block>)
    requires i < |rows| && IsHeader(rows[i]) && done + Scan(cal, rows, i) == Scan(cal, rows, 0)
    requires Spans(rows, done) && FirstBad(rows, done).None?
    requires found <==> exists k :: 0 <= k < i && IsHeader(rows[k])
    ensures Resume(cal, rows, i, found, Frames(rows, done)) == Parsed(cal, rows)
    decreases |rows| - i, 0
  {
    var j := RunEnd(rows, i + 1);
    var b := Block(i, j, BlockDate(cal, rows, i));
    var rest := Scan(cal, rows, j);
    assert Scan(cal, rows, i) == Opened(cal, rows, i) + rest;
    assert exists k :: 0 <= k < j && IsHeader(rows[k]) by {
      assert 0 <= i < j && IsHeader(rows[i]);
    }
    if j == i + 1 {
      assert Opened(cal, rows, i) == [];
      assert Scan(cal, rows, i) == rest;
      ResumeParsed(cal, rows, j, true, done);
    } else {
      assert Opened(cal, rows, i) == [b];
      if Bad(rows, b) {
        Rejected(rows, done, b, rest, Scan(cal, rows, 0));
      } else {
        Regroup(done, [b], rest, Scan(cal, rows, 0));
        FirstBadAccept(rows, done, b);
        FramesAppend(rows, done, b);
        ResumeParsed(cal, rows, j, true, done + [b]);
      }
    }
  }

  /** One turn of the outer loop at a header row: the date scan over the row before it, the
      inner loop over its data rows, and the frame built from them. */
  method TakeBlock(cal: Calendar, rows: seq<seq<Cell>>, i: nat) returns (j: nat, frame: seq<Row>, bad: bool)
    requires i < |rows|
    ensures j == RunEnd(rows, i + 1)
    ensures bad <==> j > i + 1 && Bad(rows, Block(i, j, BlockDate(cal, rows, i)))
    ensures j > i + 1 && !bad ==> frame == Records(rows, Block(i, j, BlockDate(cal, rows, i)))
  {
    var dateVal := None;
    if i > 0 {
      dateVal := DateOf(cal, rows[i - 1]);
    }
    assert dateVal == BlockDate(cal, rows, i);
    var dataRows;
    dataRows, j := DataRun(rows, i + 1);
    var b := Block(i, j, dateVal);
    BadRun(rows, b, dataRows);
    bad := dataRows != [] && exists q :: 0 <= q < |dataRows| && |dataRows[q]| != |CUSTOM_HEADER|;
    frame := [];
    if dataRows != [] && !bad {
      frame := seq(|dataRows|, k requires 0 <= k < |dataRows| => Record(dataRows[k], dateVal));
      RecordsRun(rows, b, dataRows);
      assert frame == Records(rows, b);
    }
  }

  /** The records of a block are those of its run of data rows. */
  lemma RecordsRun(rows: seq<seq<Cell>>, b: Block, dataRows: seq<seq<Cell>>)
    requires b.header < b.stop <= |rows| && dataRows == rows[b.header + 1..b.stop]
    ensures |Records(rows, b)| == |dataRows|
    ensures forall k :: 0 <= k < |dataRows| ==> Records(rows, b)[k] == Record(dataRows[k], b.date)
  {
    forall k | 0 <= k < |dataRows|
      ensures dataRows[k] == rows[b.header + 1 + k]
    {
    }
  }

  /** The two-cursor scan of the sheet: `i` walks to the next header, `j` walks its data rows. */
  method ParseBlocks(cal: Calendar, rows: seq<seq<Cell>>) returns (r: Result<seq<Row>>)
    ensures r == Parsed(cal, rows)
  {
    var allData: seq<seq<Row>> := [];
    var i := 0;
    var userIdFound := false;
    assert Frames(rows, []) == [];
    ResumeParsed(cal, rows, 0, false, []);
    while i < |rows|
      invariant 0 <= i <= |rows|
      invariant Resume(cal, rows, i, userIdFound, allData) == Parsed(cal, rows)
      decreases |rows| - i
    {
      if IsHeader(rows[i]) {
        userIdFound := true;
        var j, frame, bad := TakeBlock(cal, rows, i);
        if bad {
          return Err(BadBlockRow(i));
        }
        if j > i + 1 {
          allData := allData + [frame];
        }
        i := j;
      } else {
        i := i + 1;
      }
    }
    if !userIdFound {
      return Err(NoUserIDHeader);
    }
    if |allData| == 0 {
      return Err(NoBlocks);
    }
    return Ok(Concat(allData));
  }

  /** With no header row anywhere the sheet is refused as such; with headers whose runs are
      all empty it is refused for having no block. */
  lemma ParsedFailures(cal: Calendar, rows: seq<seq<Cell>>)
    ensures (forall k :: 0 <= k < |rows| ==> !IsHeader(rows[k])) ==> Parsed(cal, rows) == Err(NoUserIDHeader)
    ensures (exists k :: 0 <= k < |rows| && IsHeader(rows[k])) &&
            (forall h :: 0 <= h < |rows| && IsHeader(rows[h]) ==> RunEnd(rows, h + 1) == h + 1)
            ==> Parsed(cal, rows) == Err(NoBlocks)
    ensures Parsed(cal, rows).Ok? ==> exists h :: 0 <= h < |rows| && IsHeader(rows[h]) && RunEnd(rows, h + 1) > h + 1
  {
    ScanEmpty(cal, rows, 0);
    if forall k :: 0 <= k < |rows| ==> !IsHeader(rows[k]) {
      assert Scan(cal, rows, 0) == [];
    }
  }

  /** The records of the requested day as the pipeline keeps them: without Algo and MAX LOSS,
      dated exactly at midnight of that day, in their original order, minus the last one. */
  function ForDate(records: seq<Row>, day: int): (r: Result<seq<Row>>)
    ensures r.Err? <==> OnTarget(records, day) == []
    ensures r.Err? ==> r.failure == NoAllocationRowsForDate
    ensures r.Ok? ==> |r.value| == |OnTarget(records, day)| - 1
    ensures r.Ok? ==> forall k :: 0 <= k < |r.value| ==>
              r.value[k] == OnTarget(records, day)[k] - UNUSED && Get(r.value[k], BLOCK_DATE) == Date(Moment(day, 0))
  {
    var kept := OnTarget(records, day);
    if kept == [] then Err(NoAllocationRowsForDate)
    else
      assert forall k :: 0 <= k < |kept| ==> kept[k] in kept;
      Ok(seq(|kept| - 1, k requires 0 <= k < |kept| - 1 => kept[k] - UNUSED))
  }

  /** `df2[df2['Date'] == target_date]`: NaT never equals the target. */
  function OnTarget(records: seq<Row>, day: int): (r: seq<Row>)
    ensures forall x :: x in r <==> x in records && Get(x, BLOCK_DATE) == Date(Moment(day, 0))
  {
    Filter(records, (x: Row) => Get(x, BLOCK_DATE) == Date(Moment(day, 0)))
  }

  /** Keeping the records of the day from the joined blocks is joining the records of the day
      of each block: the mask keeps the records in their order. */
  lemma OnTargetJoin(a: seq<Row>, b: seq<Row>, day: int)
    ensures OnTarget(a + b, day) == OnTarget(a, day) + OnTarget(b, day)
  {
    FilterAppend(a, b, (x: Row) => Get(x, BLOCK_DATE) == Date(Moment(day, 0)));
  }
}
