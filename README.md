# Jainam daily report, modelled in Dafny

This project models `process_files` in `jainam/app.py`. The handler reads three spreadsheets:

- the master sheet (file1);
- the daily allocation record (file2);
- the daily sheet with the MTM, Capital Deployed and Max SL sections (file3).

From them it builds the per-account, per-sub-strategy allocation report. The model follows the handler stage by stage:

- **Tables:** cells, rows and tables, with the pandas operations the handler uses. These are `Series.map` as a first-match lookup, boolean masks, `drop`, and column assignment aligned on row position.
- **Sections:** the three sections of file3 are located by the sentinel labels in column "Unnamed: 0". Each has its header row promoted and its boundary rows dropped.
- **Master:** the master rows of the accounts named in the MTM section, on the requested day, without the operational columns. The three per-account figures (MTM (All), ALLOCATION × 100, MAX LOSS) are mapped onto the sections.
- **Aliases:** rows without an ID are dropped. Every remaining row is then followed by five placeholder rows, one for each of PS, VT, GB, RD and RM.
- **Blocks:** the two-cursor parser of file2 finds header rows mentioning "UserID" and takes the date from the row above each header. Each data run becomes a block of records. The blocks are joined and the records of the requested day are kept, minus the last one.
- **Accounts:** a row with an ID opens an account, and the rows without an ID below it, up to the next row with an ID, are its components.
- **Components:** component allocations are filled from file2, scaled by 10^7. Allocation is then backfilled from the unnamed column.
- **Allocation:** each account's MTM is shared among its components in proportion to their Allocation and rounded to cents.
- **Report:**
  - the keep-first MTM lookup;
  - the appended `|`, IDs(1), Alias(1) and max_loss columns;
  - the whole pipeline with its checks in the handler's order.

Each loop of the handler is a `method` proved against a specification function. The properties are proved as lemmas about these functions:
- `Aliases.Expand` is proved against `Aliases.Expanded`;
- `Blocks.ParseBlocks` against `Blocks.Parsed`;
- `Components.FillComponents` against `Components.Filled`;
- `Allocation.Allocate` against `Allocation.Allocated`.

`Report.Process` runs the methods in the handler's order. It is proved equal to the function `Report.Pipeline`, which composes the specifications.

Failures are the values of `Tables.Failure`. The handler answers most of them with 400. Those that reach its catch-all `except` are wrapped as `Internal(...)` and answered with 500.

Some outcomes of the code that are easy to misread:
- **Sentinels out of order:** when all four sentinels are present but one comes before the previous one, `df3.iloc[a:b+1]` is empty. Dropping its first row then raises IndexError outside the guarded block, so the answer is 500.
- **Repeated UserID:** a UserID repeated among the matched master rows makes `Series.map` raise, so the answer is 500.
- **Empty or Alias-less section:** an MTM or Capital Deployed section that is empty after the ID filter, or that has no Alias column, fails the `fillna` on `Alias` with a KeyError, so the answer is 500 (`Report.PipelineAliasStatus`).
- **Rounded shares:** the rounded shares of an account add up to its MTM within half a cent per component (`Allocation.Conserved`).

## Model

| member | source | states |
|---|---|---|
| Tables.TimesAll | jainam/app.py:132 | A column multiplied cell by cell fails exactly when some cell is a timestamp; otherwise every cell is that cell's product. |
| Tables.Find | jainam/app.py:129 | The index found holds the key, and no earlier row does; no index is found only when no row holds the key. |
| Tables.LookupDistinct | jainam/app.py:129 | With unique keys, looking up a row's own key yields that row's cell. |
| Tables.Zip | jainam/app.py:78 | A row built under the promoted header has exactly the header's labels as keys. |
| Tables.ZipAt | jainam/app.py:78 | A label not repeated later in the header takes the cell at its own position. |
| Tables.Dedup | jainam/app.py:150 | The columns of a frame built from row dicts: every label once and none missing. |
| Tables.AddColumn | jainam/app.py:129 | Column assignment: the new column holds the values by position, NaN past their end, and every other cell is unchanged. |
| Tables.DropColumns | jainam/app.py:124 | The dropped columns are gone from the labels and the rows, and every other cell is unchanged. |
| Tables.Filter | jainam/app.py:83 | `dropna` and boolean masks: exactly the elements that satisfy the test are kept, and no more than there were. `Master.Referenced`, `Master.Dated`, `Aliases.KeepIdentified` and `Blocks.OnTarget` are instances. |
| Tables.FilterAppend | jainam/app.py:212-218 | Masking distributes over concatenation, so the kept elements stay in their original order (applied in `Blocks.OnTargetJoin`). |
| Sections.FirstIndex | jainam/app.py:65-68 | `.index[0]` of a mask: the first position holding the label, absent exactly when the label occurs nowhere. |
| Sections.SectionShape | jainam/app.py:72-97 | The four slicing steps fail (IndexError, 500) exactly when the end sentinel does not come after the start sentinel; otherwise the header is row a+1 and the section rows are rows a+2 .. b-1, each keyed by that header. |
| Sections.SectionOfFive | jainam/app.py:72-80 | Sentinels five rows apart leave exactly three data rows. |
| Sections.ExtractFailures | jainam/app.py:64-99 | Errors in the handler's order: no key column (500); a missing sentinel (400); sentinels out of order (500); an MTM header without IDs (400). |
| Sections.ExtractLaterFailures | jainam/app.py:72-99 | Once the MTM section is cut out and has IDs: a Max SL sentinel not after Capital Deployed gives the IndexError; a Capital Deployed header without IDs gives `MissingIDs("Capital Deployed")`; then an AVG % sentinel not after Max SL gives the IndexError; a Max SL header without IDs gives `MissingIDs("Max SL")`. |
| Sections.ExtractSucceeds | jainam/app.py:64-99 | Extraction succeeds exactly when the sentinels come in order and each section header names IDs; the sections are then the three slices. |
| Master.Referenced | jainam/app.py:104 | `isin`: exactly the master rows whose UserID is among the MTM IDs. |
| Master.Dated | jainam/app.py:115 | Exactly the rows whose parsed Date falls on the requested day. |
| Master.Matched | jainam/app.py:101-124 | A successful match has at least one row. |
| Master.MatchedKept | jainam/app.py:104-124 | A successful match is, row for row and in order, the referenced master rows dated on the requested day, without the operational columns. |
| Master.MatchedComplete | jainam/app.py:104-124 | Every master row of a referenced account dated on the requested day survives, without the operational columns. |
| Master.MatchedSound | jainam/app.py:104-124 | Each surviving row is a master row of a referenced account dated on the requested day, without the operational columns. |
| Master.Kept | jainam/app.py:104-115 | The two masks keep exactly the rows of referenced accounts dated on the requested day. |
| Master.MatchedFailures | jainam/app.py:102-117 | The refusals in order: no UserID; no Date or an unparsable Date among the referenced rows; an unparsable target date. |
| Master.MatchedNoneForDate | jainam/app.py:114-116 | With the columns and dates good, the filter is refused with "no data for date" exactly when no referenced master row falls on the requested day, and there is no other refusal. |
| Master.Figures | jainam/app.py:129-135 | One mapped figure per section row; the values are stated by `Master.EnrichLookups` and `Master.EnrichUnmatched`. |
| Master.EnrichLookups | jainam/app.py:126-135 | Each row of each section gets the figure of the master row with its ID, ALLOCATION scaled by 100; the row counts are kept. |
| Master.EnrichUnmatched | jainam/app.py:129-135 | A row of any of the three sections whose ID has no master row gets NaN in the mapped column. |
| Master.EnrichFailures | jainam/app.py:127-135 | A missing MTM (All), ALLOCATION or MAX LOSS column is refused in that order; a repeated UserID is a 500. |
| Aliases.KeepIdentified | jainam/app.py:138-139 | Keeps exactly the rows whose ID is neither NaN nor empty. |
| Aliases.IdentifyEmpty | jainam/app.py:138-139 | The ID filter leaves no row exactly when no row of the section has an ID. |
| Aliases.ExpandedAddColumn | jainam/app.py:138-151 | Adding a figure column (other than IDs and Alias) to a section does not change whether its expansion is refused: that happens exactly when it has no Alias column or no row with an ID. |
| Aliases.ExpandRows | jainam/app.py:143-150 | Six rows per section row: the row itself at every sixth position, each followed by the placeholders of PS, VT, GB, RD and RM. |
| Aliases.Expand | jainam/app.py:141-164 | The nested loops build exactly the specified expansion. |
| Aliases.ExpansionShape | jainam/app.py:141-164 | Row 6k is the k-th identified row, and row 6k+a has no ID, alias a and NaN elsewhere; the expansion keeps the columns. |
| Blocks.HeaderCell | jainam/app.py:174 | A row is a header exactly when some text cell contains "UserID" in any case; a row is blank exactly when every cell is NaN. |
| Blocks.RunEnd | jainam/app.py:192-198 | The data run stops at the first blank or header row, or at the end of the sheet. |
| Blocks.RunEndExact | jainam/app.py:192-198 | Any stopping point with those properties is the one the run finds. |
| Blocks.FirstDateSpec | jainam/app.py:179-190 | The block date is NaT exactly when no cell above the header parses day-first with a year from 2020; otherwise it is the first such cell's date. |
| Blocks.DateOf | jainam/app.py:179-188 | The date loop computes the first qualifying date of the row. |
| Blocks.DataRun | jainam/app.py:191-198 | The inner loop collects exactly the rows of the data run. |
| Blocks.ScanFound | jainam/app.py:171-205 | Every block found starts at a header row, ends its run at a blank or header row, and carries the date of the row above it. |
| Blocks.ScanOrdered | jainam/app.py:171-205 | The blocks come in row order and do not overlap. |
| Blocks.ScanComplete | jainam/app.py:171-205 | Every header row followed by a data row opens a block of the scan. |
| Blocks.ScanEmpty | jainam/app.py:171-205 | No block is found exactly when no header row is followed by a data row. |
| Blocks.FirstBad | jainam/app.py:200-207 | The first block whose rows do not have ten cells, or none exactly when every block has ten cells in every row. |
| Blocks.BadRun | jainam/app.py:200 | A block is rejected exactly when one of its collected data rows does not have ten cells. |
| Blocks.Records | jainam/app.py:200-201 | A block holds one record per data row; the records themselves are stated by `Blocks.RecordsRun`. |
| Blocks.RecordsRun | jainam/app.py:200-201 | The k-th record of a block is its k-th data row under the fixed header, dated with the block date. |
| Blocks.TakeBlock | jainam/app.py:176-203 | One outer step at a header: the run ends where RunEnd says, and the block is rejected exactly when a row is ragged; otherwise its records are built. |
| Blocks.ParseBlocks | jainam/app.py:166-212 | The two-cursor loop computes exactly the specified parse, including the row of the first rejected block. |
| Blocks.ResumeParsed | jainam/app.py:171-211 | The loop state at any cursor determines the final parse. |
| Blocks.ParsedFailures | jainam/app.py:208-211 | No header row gives the "UserID not found" refusal; headers with only empty runs give "no valid data blocks"; a success has a block. |
| Blocks.OnTarget | jainam/app.py:218 | Keeps exactly the records dated at midnight of the target day; NaT matches nothing. |
| Blocks.OnTargetJoin | jainam/app.py:212-218 | Taking the day's records from the joined blocks equals joining each block's records of the day, in order. |
| Blocks.ForDate | jainam/app.py:213-221 | No record on the day is refused; otherwise all but the last record of the day, without Algo and MAX LOSS, in order. |
| Accounts.Owner | jainam/app.py:225-228 | `current_userid` at row k: the nearest row with an ID above k, with no ID row between, or none. |
| Accounts.NextAccount | jainam/app.py:258-262 | The component run of an account ends at the next row with an ID, or at the end. |
| Accounts.OwnerExact | jainam/app.py:225-228 | Any ID row above k with no ID row between is the owner. |
| Accounts.OwnedExactly | jainam/app.py:254-262 | A row without an ID belongs to account p exactly when it lies before the next account row after p. |
| Components.FillComponents | jainam/app.py:223-234 | The fill loop computes exactly the specified fill, or the TypeError of the first timestamp value. |
| Components.FillKeeps | jainam/app.py:223-234 | The fill changes only Allocation, and leaves account rows as they were. |
| Components.FillSets | jainam/app.py:229-234 | A component of an account with a truthy ID and a known alias gets the alias cell of that user's first record, times 10^7. |
| Components.FillSkips | jainam/app.py:226-234 | A component row is unchanged when no account comes before it, when its account's ID is falsy, when its alias names no component, or when its user has no record. |
| Components.Backfill | jainam/app.py:236-242 | No unnamed column is refused; otherwise a NaN Allocation takes the unnamed cell, the unnamed column is gone and the rest is unchanged. |
| Allocation.ComponentsSpec | jainam/app.py:257-262 | `component_indices`: exactly the rows of the run with a non-NaN Allocation. |
| Allocation.ComponentsSorted | jainam/app.py:257-262 | `component_indices` is strictly increasing. |
| Allocation.Gather | jainam/app.py:257-262 | The inner loop stops at the next account and collects exactly `component_indices`. |
| Allocation.Gap | jainam/app.py:259-262 | No row between two consecutive components has an Allocation. |
| Allocation.Distribute | jainam/app.py:265-268 | The write-back loop gives each component its rounded share and leaves every other row as it was. |
| Allocation.Settle | jainam/app.py:255-269 | One account step: a TypeError exactly when the account is faulty; otherwise its run ends at the next account and its rows get their final values. |
| Allocation.Allocate | jainam/app.py:251-272 | The account loop computes exactly the specified allocation, or the TypeError of a faulty account. |
| Allocation.RoundBound | jainam/app.py:268 | `round(x, 2)` is within half a cent of x and is a whole number of cents. |
| Allocation.ShareBound | jainam/app.py:267-268 | A rounded share is within half a cent of `main_mtm * allocation / total_allocation`. |
| Allocation.ExactSum | jainam/app.py:263-268 | The unrounded shares add up to the MTM times the fraction of the total they hold. |
| Allocation.RoundedSum | jainam/app.py:265-268 | Rounding moves the sum of the shares by at most half a cent per component. |
| Allocation.WrittenSum | jainam/app.py:265-268 | The written MTM cells of the components add up to the rounded shares. |
| Allocation.AllocatedKeeps | jainam/app.py:251-272 | The allocation changes only MTM, and leaves account rows and rows before the first account as they were. |
| Allocation.AllocatedIdle | jainam/app.py:264 | A component of an account with a non-positive total or a NaN MTM, or with a NaN Allocation, keeps its MTM. |
| Allocation.AllocatedShare | jainam/app.py:263-268 | A component of an account with a positive total and an MTM gets `round(m * (a / total), 2)`, and both values are numbers. |
| Allocation.Distributed | jainam/app.py:265-268 | Every component of a sharing account carries its written-back row. |
| Allocation.ExactWhole | jainam/app.py:263-268 | The unrounded shares of all the components add up to the MTM exactly. |
| Allocation.Conserved | jainam/app.py:263-268 | The rounded shares of an account add up to its MTM within half a cent per component. |
| Report.KeepFirst | jainam/app.py:248 | `drop_duplicates(keep='first')` keeps no more rows than there were; which rows are kept is stated by `Report.KeepFirstLookup` and `Report.KeepFirstDistinct`. |
| Report.FindSnoc | jainam/app.py:248 | Adding a row at the end leaves an earlier match in place and can only add a match at the end. |
| Report.LookupSnoc | jainam/app.py:248-249 | The lookup after adding a row at the end is the earlier lookup or the new row's cell. |
| Report.KeepFirstLookup | jainam/app.py:248-249 | Keeping the first row of each ID changes neither which IDs are found nor the value looked up. |
| Report.KeepFirstDistinct | jainam/app.py:248 | After `drop_duplicates(keep='first')` the IDs are unique. |
| Report.MapMtm | jainam/app.py:249 | The MTM column is added and every other cell is kept. |
| Report.MapMtmLookup | jainam/app.py:248-249 | Each row gets the mtm of the first MTM row with its ID. |
| Report.MapMtmPlaceholder | jainam/app.py:248-249 | A row without an ID gets NaN, since the first MTM row without an ID is a placeholder. |
| Report.Assemble | jainam/app.py:273-276 | The `|` column and the Max SL IDs, Alias and max_loss columns are appended by position, and the rest is unchanged; no Alias column is a 500. |
| Report.AsTable | jainam/app.py:48-50 | A sheet as a table keeps its labels and its number of rows; each row is keyed by the header as `Tables.ZipAt` states. |
| Report.Process | jainam/app.py:48-276 | The handler with its loops computes exactly the composed specification. |
| Report.PipelineEmpty | jainam/app.py:53-61 | The empty-file checks come first, for file1, file2 and file3 in that order. |
| Report.PipelineExtract | jainam/app.py:64-99 | With three non-empty files, a refusal of the section extraction is the handler's answer. |
| Report.PipelineSentinelStatus | jainam/app.py:72-99 | The HTTP status of the whole handler (the `Tables.Status` of its failure) for a daily sheet whose sentinels are found: 500 when a section's end sentinel does not follow its start (the slice raises IndexError outside the guarded block, caught at app.py:290-291), 400 when a section header has no IDs, section by section in the handler's order. |
| Report.EnrichedExpansion | jainam/app.py:126-164 | The enriched MTM and Capital Deployed sections are refused by the alias expansion exactly when the sections as cut out have no Alias column or no row with an ID. |
| Report.PipelineExpansion | jainam/app.py:137-164 | Once the extraction, the master filter and the enrichment succeed, a refusal of the MTM expansion, or of the Capital Deployed expansion after an accepted MTM one, is the handler's answer. |
| Report.PipelineAliasStatus | jainam/app.py:137-164 | When the stages before the expansion succeed, an MTM section with no Alias column or no row with an ID gets 500 (the KeyError of the `fillna` on Alias), and so does such a Capital Deployed section once the MTM section passes. |

## Left out

- Flask, the upload form and field checks, file reading (`read_file`, extension dispatch, sheet selection) and the checks that a file loaded as a DataFrame: the model starts from sheets already read. Only `df.empty` is modelled.
- The CSV serialization and `send_file` of the result: the model ends with the report table.
- Date parsing: `pd.to_datetime` on file1's Date column, the day-first parse of block-date cells, the target-date parse and `Timestamp.year` are the parameters of `Tables.Calendar`. pandas' parsing heuristics are not modelled. A parsed date is a day number and a second within the day, and `normalize()` is midnight of the day.
- Report.TargetDay: the second parse of the target date (line 215) cannot fail once the first (line 112) has succeeded. It is modelled with its own refusal all the same.
- Floating point: cells hold exact reals. `Allocation.Round2` rounds the exact value to cents with ties to even. Python's `round` works on the binary double, so a tie that is not exact in binary may round the other way.
- Allocation.Conserved: the bound is stated for exact reals, not for binary doubles.
- Case folding in the "UserID" test is ASCII only.
- Booleans are not a kind of cell. Neither are the string forms pandas gives to numbers and dates when testing a row for "UserID": such cells never mention it.
- Error messages are represented by their kinds (`Tables.Failure`), carrying the section name, the missing column or the row index, but not the message text.
- The temporary 'Alais' column: the placeholder rows carry their alias in Alias directly, which is what `fillna` from 'Alais' and the drop of 'Alais' leave.
- The projection `mtm_df[["IDs", "Alias", "mtm"]]`: it changes none of the cells the MTM lookup reads. A section without an Alias column already fails earlier.
- The label NaN appearing more than once in the Capital Deployed header is not modelled: the unnamed column is the one labelled NaN.
- A section header that repeats a label: each row keeps the cell of the later column (`Tables.Zip`). In pandas, selecting a repeated label gives several columns at once, and the handler then fails with 500. For example, two IDs columns in the MTM section make `dropna().tolist()` raise AttributeError at line 83. That failure is not modelled.
- Tables.TimesAll: cells carry no column dtype, and `* 100` and `* 10_000_000` are modelled cell by cell, as on an object column. pandas types a column. An ALLOCATION column of file1 whose cells are all dates or blank is datetime64, so its mapped blanks are NaT, and `* 100` then raises TypeError (500). In the model those cells are NaN, which multiplies to NaN, and the report goes on.
- Column order of the report beyond the set of labels: `Report.Assemble` and `Components.Backfill` state which labels are present, not their order.
- Rows of file2 are sequences of cells that may differ in width. In pandas every row has the width of the sheet, so either every block is rejected or none is. Checking each row, as the model does, agrees with that on a rectangular sheet.
