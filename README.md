# stock-bot sheet updater, modelled in Dafny

stock-bot keeps a Google spreadsheet up to date for a trading bot. Two
programs from it are modelled here.

* The realtime updater (`realtime_updater.py`) runs one update cycle,
  `update_all`, in two phases.
  * The price phase (`update_stock_prices`) reads the symbols listed in the
    `Ticker_Info` worksheet and fetches two days of closing prices for each.
    For every symbol that answers, it writes the symbol, price, change,
    percent change and timestamp to the `주가` worksheet. A symbol that
    already has a row there gets that row overwritten in place. The rows of
    new symbols are queued and appended in one batch at the end.
  * The exchange-rate phase (`update_exchange_rate`) picks the USD/KRW rate
    (`KRW=X`, then `USDKRW=X`, else 1450.0). It overwrites the first
    `USD/KRW` row of the `환율` worksheet below the header, or appends one.
  * Each phase creates its worksheet, with its fixed header, when it is
    missing.
* The column tool (`add_ticker_columns.py`, `add_columns`) appends the
  trading-parameter columns `Active`, `목표비중`, `손절기준` and `익절기준` that
  the `Ticker_Info` header still lacks. Each goes after the last header
  cell, with its default value in every data row. When some of them exist
  already, it goes ahead only if the user answers `y`.

The model has three layers.

* The store is a map from worksheet titles to tables of cell strings, the
  view `get_all_values` gives. Every write request is a `Call` value. A
  workbook and a log of calls are related by `Replay`, which is what the
  store does with them.
* Each phase is a function of the workbook it starts from, giving the new
  workbook and the calls sent: `PricePhase`, `FxPhase` and `Cycle` for the
  updater, and `AddAll` with `Plan` for the column tool.
* The programs' own step-by-step code is imperative Dafny: the class
  `Updater` (its fields are the connection and the log) and the class
  `TickerInfo` (the worksheet and its log), with their loops. Each method
  is proved to end exactly in the state the phase function gives. The
  properties the programs promise are lemmas about those functions.

Modules:

* `Sheet`: the store, call replay, and Python's `strip` and `list.index`.
* `Market`: quotes and the rate choice.
* `PriceSync`: the price phase.
* `FxSync`: the exchange-rate phase.
* `Updater`: the updater object and `update_all`.
* `A1`: column names.
* `TickerColumns`: the column tool.

Where the project's written description and its code disagree, the model
follows the code:

* **Duplicates are kept.** The symbol list is not de-duplicated. A new
  symbol listed twice is appended twice (`PriceSync.NewTickersCount`). A
  known symbol listed twice has its row written twice, and the last write
  wins.
* **A raising first alias ends the rate lookup.** If the request for
  `KRW=X` raises, the rate is 1450.0 at once. `USDKRW=X` is tried only
  after an empty `KRW=X` answer.
* **An existing but completely empty `환율` worksheet.** The appended row
  lands in row 1, where the next run does not look, so that run appends
  again (`FxSync.FxPairRowAfter`).

## Model

| member | source | states |
|---|---|---|
| Sheet.OverwritePrefix | realtime_updater.py:128 | writing cells from column A replaces exactly the first \|cells\| cells of a row and keeps every later cell |
| Sheet.OverwriteLastWins | realtime_updater.py:126-128 | writing the same range of a row twice leaves what the second write put there |
| Sheet.WriteRow | realtime_updater.py:128 | an in-place row update changes only the addressed row, keeping the row count |
| Sheet.Apply | realtime_updater.py:85-86 | the store adds a worksheet holding only its header row; every call leaves the sheet it names present and every other sheet as it was; a row update or an append keeps every other existing row and never shrinks the sheet |
| Sheet.ReplayConcat | realtime_updater.py:104-137 | carrying out two batches of calls is carrying out the first and then the second |
| Sheet.IndexOf | realtime_updater.py:67 | `list.index` gives the first position holding the value |
| Sheet.StripSpec | realtime_updater.py:71-72 | a stripped cell is the cell minus exactly its leading and trailing whitespace, and starts and ends with a non-space |
| Sheet.StripIdempotent | realtime_updater.py:71-72 | stripping twice is stripping once |
| Market.QuoteOf | realtime_updater.py:107-115 | an empty history or a raising request gives no quote; otherwise price is the last close, the previous close is the one before (or the price itself when there is one close), change = price − previous close, and percent × previous close = change × 100 when the previous close is positive, percent = 0 otherwise |
| Market.FirstRate | realtime_updater.py:157-176 | the last close of the first alias with a non-empty history, trying the next alias only after an empty one; none if a request raises or every history is empty |
| Market.FxRate | realtime_updater.py:157-176 | the rate is KRW=X's last close, else USDKRW=X's after an empty KRW=X answer, else 1450.0, and 1450.0 at once if KRW=X raises |
| PriceSync.TickerColumn | realtime_updater.py:66-67 | the symbol column is the first YahooFinance_Ticker column, else the first Ticker column, and there is none exactly when neither header is present |
| PriceSync.TickerListConcat | realtime_updater.py:69-72 | symbols are collected row by row, so they keep row order |
| PriceSync.TickerListClean | realtime_updater.py:69-72 | every collected symbol is non-empty and already stripped, and there is at most one per row |
| PriceSync.TickerListSound | realtime_updater.py:69-72 | every collected symbol is the stripped cell of some row long enough to hold the column |
| PriceSync.TickerListComplete | realtime_updater.py:69-72 | every row whose cell strips to something non-empty contributes that symbol |
| PriceSync.CollectTickers | realtime_updater.py:69-72 | the collecting loop yields exactly the symbol list |
| PriceSync.RowIndex | realtime_updater.py:93-98 | every indexed row number lies between 2 and the last row |
| PriceSync.RowIndexComplete | realtime_updater.py:96-98 | every row long enough to hold the key column has its key indexed |
| PriceSync.RowIndexLastOccurrence | realtime_updater.py:96-98 | each key maps to a row holding it and no later row holds it: the last occurrence wins |
| PriceSync.KeyColumn | realtime_updater.py:95 | the key column is the first Ticker header of the 주가 sheet (no earlier header cell is Ticker), else column A |
| PriceSync.RowMapOf | realtime_updater.py:89-98 | the index is empty without data rows; every indexed row exists and holds its key; no two keys share a row |
| PriceSync.BuildRowIndex | realtime_updater.py:93-98 | the indexing loop yields exactly the row index |
| PriceSync.UpsertAll | realtime_updater.py:104-128 | the in-place pass keeps the row count |
| PriceSync.UpsertAllUntouched | realtime_updater.py:104-133 | every row that is not the indexed row of a listed, fetched symbol is unchanged, including the rows of symbols whose fetch failed |
| PriceSync.UpsertAllWritten | realtime_updater.py:126-128 | the indexed row of every listed, fetched symbol holds its new cells in columns A to E and its old cells after E |
| PriceSync.UpsertAllCalls | realtime_updater.py:126-128 | the in-place pass only adds updates of existing data rows of 주가, after the calls sent before |
| PriceSync.UpsertAllReplays | realtime_updater.py:126-128 | carrying out the pass's updates gives the table the pass computed |
| PriceSync.NewTickers | realtime_updater.py:129-130 | the queued symbols are fetched and not indexed, and there are no more of them than listed symbols |
| PriceSync.NewTickersCount | realtime_updater.py:104-130 | a symbol is queued once per listing when it was fetched and is not indexed, and never otherwise |
| PriceSync.NewTickersConcat | realtime_updater.py:104-130 | queued symbols keep the list order |
| PriceSync.NewRowsAt | realtime_updater.py:117-130 | the k-th queued row is the row of the k-th queued symbol |
| PriceSync.CreatedReplays | realtime_updater.py:81-89 | carrying out the creation call, sent only when 주가 is missing, gives the workbook whose 주가 sheet is the table the phase then reads: the existing one, or just the fixed header |
| PriceSync.SyncPrices | realtime_updater.py:80-137 | the writing part leaves 주가 present and every other worksheet as it was |
| PriceSync.PricePhase | realtime_updater.py:48-142 | no Ticker_Info sheet, fewer than two rows, no symbol column or no symbols: nothing is written; otherwise 주가 exists afterwards; other sheets are never touched |
| PriceSync.SyncPricesKeeps | realtime_updater.py:104-137 | 주가 grows by one row per queued symbol, and rows already there stay in place, unchanged unless refreshed |
| PriceSync.SyncPricesUpdates | realtime_updater.py:126-128 | after the phase, the row of every listed, fetched, indexed symbol holds its new cells in columns A to E |
| PriceSync.SyncPricesAppends | realtime_updater.py:129-137 | after the old rows come the rows of the queued symbols, in list order |
| PriceSync.SyncPricesCalls | realtime_updater.py:80-137 | the calls all go to 주가: a creation first exactly when it was missing, then row updates, then one batch append exactly when some symbol was queued |
| PriceSync.UpsertsReplay | realtime_updater.py:81-128 | carrying out the creation and the updates gives the workbook with the updated table |
| PriceSync.SyncPricesReplays | realtime_updater.py:80-137 | carrying out the phase's calls on the old workbook gives the new workbook |
| FxSync.FirstPairRow | realtime_updater.py:189-194 | the first row numbered 2 or more whose first cell is USD/KRW; none exactly when no data row is a pair row |
| FxSync.FindPairRow | realtime_updater.py:189-194 | the scanning loop, stopping at the first match, yields exactly that row |
| FxSync.PairCount | realtime_updater.py:189-194 | the number of pair rows below the header is zero exactly when there is no first pair row |
| FxSync.LookupRate | realtime_updater.py:157-176 | the straight-line lookup yields exactly the rate choice |
| FxSync.FxCreatedReplays | realtime_updater.py:179-189 | carrying out the creation call, sent only when 환율 is missing, gives the workbook whose 환율 sheet is the table the phase then reads: the existing one, or just the fixed header |
| FxSync.FxRow | realtime_updater.py:196 | the row written has three cells and is a pair row |
| FxSync.FxWrite | realtime_updater.py:178-203 | afterwards 환율 exists, and every other worksheet is as it was |
| FxSync.FxPhase | realtime_updater.py:145-208 | one run on a connected workbook leaves 환율 present and the other worksheets unchanged |
| FxSync.FxUpdatesFirst | realtime_updater.py:198-200 | with a pair row below the header, the first one gets pair, rate and time in A to C, no other row changes, and the row count and pair-row count stay the same |
| FxSync.FxAppendsOne | realtime_updater.py:201-203 | without one, exactly one pair row is appended, and it is the only pair row below the header unless the sheet was empty |
| FxSync.PairCountSameShape | realtime_updater.py:189-200 | rewriting rows without changing which are pair rows keeps the pair count |
| FxSync.FxPairRowAfter | realtime_updater.py:189-203 | afterwards there is a pair row below the header holding the rate in A to C, except when the sheet existed with no rows at all |
| FxSync.FxCalls | realtime_updater.py:178-203 | the creation call exactly when 환율 was missing, then one write: an update of the first pair row, or a single-row append |
| FxSync.FxTargets | realtime_updater.py:178-203 | at least one call is sent, and every call goes to 환율 |
| FxSync.FxReplays | realtime_updater.py:178-203 | carrying out the phase's calls on the old workbook gives the new workbook |
| Updater.Updater.constructor | realtime_updater.py:26-45 | the updater starts with the given connection outcome and an empty log |
| Updater.Updater.Send | realtime_updater.py:128 | a write request is carried out by the store and logged |
| Updater.Updater.UpdateStockPrices | realtime_updater.py:48-142 | without a connection nothing happens; otherwise the workbook, the log and the outcome end as the price phase says |
| Updater.Updater.UpsertPrices | realtime_updater.py:80-137 | creating, indexing, the update loop and the batch append end as the writing part says |
| Updater.Updater.CreatePriceSheet | realtime_updater.py:81-86 | the 주가 sheet is created with its header exactly when missing |
| Updater.Updater.AppendQueued | realtime_updater.py:136-137 | the queued rows are appended in one call, and only when there are some |
| Updater.Updater.UpdateRows | realtime_updater.py:104-133 | the symbol loop ends with the in-place pass's table and calls and with exactly the queued rows |
| Updater.Updater.UpdateOne | realtime_updater.py:105-133 | one iteration updates the row of a fetched indexed symbol, queues the row of a fetched new one, and skips a failed fetch |
| Updater.Updater.UpdateExchangeRate | realtime_updater.py:145-208 | without a connection nothing happens; otherwise the workbook and the log end as the exchange-rate phase says |
| Updater.Updater.WriteRate | realtime_updater.py:178-203 | creating, scanning and writing the pair row end as the writing part says |
| Updater.Updater.UpdateAll | realtime_updater.py:211-220 | without a connection nothing happens; otherwise the workbook and the log end as one cycle says |
| Updater.CycleKeepsOthers | realtime_updater.py:211-220 | after a cycle 환율 exists and every sheet other than 주가 and 환율 is unchanged |
| Updater.PricePhaseReplays | realtime_updater.py:48-142 | carrying out the price phase's calls, early returns included, gives its workbook |
| Updater.PricePhaseTargets | realtime_updater.py:48-142 | every write of the price phase goes to 주가 |
| Updater.CycleOrder | realtime_updater.py:217-218 | all price writes, to 주가, are sent before any exchange-rate write, to 환율, and there is at least one of the latter |
| Updater.CycleKeepsPrices | realtime_updater.py:145-208 | the exchange-rate phase leaves 주가 as the price phase left it |
| Updater.CycleReplays | realtime_updater.py:211-220 | carrying out the cycle's calls on the old workbook gives the new workbook |
| A1.ColumnLetterAsWritten | add_ticker_columns.py:84 | the tool's letter: one character 64+i up to column 26, else "A" and the character 38+i |
| A1.A1Name | add_ticker_columns.py:84 | an A1 column name is a non-empty string of the letters A to Z |
| A1.ColumnIndex | add_ticker_columns.py:84 | a column name denotes a column numbered from 1, and is made only of the letters A to Z |
| A1.A1RoundTrip | add_ticker_columns.py:84 | reading a column's name back gives the column |
| A1.A1Canonical | add_ticker_columns.py:84 | every well-formed name is the name of the column it denotes |
| A1.A1Injective | add_ticker_columns.py:84 | distinct columns get distinct names |
| A1.AsWrittenAgrees | add_ticker_columns.py:84 | the tool's letters are the A1 names for columns 1 to 52 |
| A1.AsWrittenBreaks | add_ticker_columns.py:84 | from column 53 on, the tool's letters are not the column's A1 name, nor the canonical upper-case name of any column |
| A1.StoreReadsNames | add_ticker_columns.py:87 | the store reads every canonical name as its column, and reads letters regardless of case |
| A1.Landing | add_ticker_columns.py:84-87 | where the store puts the tool's column i: i itself up to 52, nowhere for 53 to 58, column i − 32 for 59 to 84, nowhere from 85 on; always a column between 1 and 52 |
| A1.AsWrittenLands | add_ticker_columns.py:84-87 | the store reads the tool's letters for column i exactly as Landing(i) says |
| A1.AsWrittenMisplaced | add_ticker_columns.py:84 | columns 59 to 84 get "Aa" to "Az", which fold to the A1 names AA to AZ of columns i − 32 |
| A1.AsWrittenFirstFailure | add_ticker_columns.py:84 | column 53 gets "A[" where A1 says "BA" |
| TickerColumns.TrimBlanks | add_ticker_columns.py:44 | the header read is the stored first row up to its last non-blank cell |
| TickerColumns.Present | add_ticker_columns.py:56 | the columns reported as existing are in the header, and every listed column in the header is reported |
| TickerColumns.Missing | add_ticker_columns.py:65 | the columns to add are listed columns absent from the header, and every absent one is included with its default |
| TickerColumns.MissingConcat | add_ticker_columns.py:65 | filtering keeps the declaration order |
| TickerColumns.PresentMissingSplit | add_ticker_columns.py:56-69 | each column is present or to be added; nothing is added exactly when all are present; nothing is present exactly when all four are added |
| TickerColumns.SetCell | add_ticker_columns.py:87 | writing one cell changes that cell only, growing the grid to reach it |
| TickerColumns.FillColumn | add_ticker_columns.py:91-93 | filling rows of a column sets exactly those cells |
| TickerColumns.AddColumn | add_ticker_columns.py:86-93 | one column's writes set its row-1 cell to the name and its rows 2 to num_rows to the default, and nothing else |
| TickerColumns.AddAllCells | add_ticker_columns.py:80-93 | the new columns land side by side right after the header; row 1 gets names, data rows get defaults, and every other cell, existing header cells included, is unchanged |
| TickerColumns.AddAllRows | add_ticker_columns.py:74-93 | the row count is unchanged, except that an empty sheet gets a header row |
| TickerColumns.PlanConcat | add_ticker_columns.py:82-94 | the requests of consecutive columns follow each other, each batch placed after the previous one |
| TickerColumns.Writable | add_ticker_columns.py:80-87 | how many of the new columns the store takes before it refuses one: none beyond the tool's column 84, and when not all, the next one's letters land nowhere |
| TickerColumns.WritableLands | add_ticker_columns.py:80-87 | every column the store takes lands next to the previous one, from Base(start) on |
| TickerColumns.PlanSize | add_ticker_columns.py:80-94 | when the store takes every new column, each request is accepted and goes to one of the columns from Base(start) on, two per column when there are data rows and one otherwise |
| TickerColumns.MisplacedColumns | add_ticker_columns.py:80-93 | from a header of 58 to 83 cells on, the store takes every new column but puts them on existing header columns: the first name replaces the header cell Base(start), which lies inside the header |
| TickerColumns.RangeNamesColumn | add_ticker_columns.py:84-93 | each request's range starts with the letters the tool computed; the store accepts it exactly when the column is at most 52 or between 59 and 84, and puts it on the column itself or on the column 32 to the left |
| TickerColumns.PlanReplays | add_ticker_columns.py:82-94 | when the store takes every new column, carrying out the requests in order gives the grid with the new columns placed from Base(start) on |
| TickerColumns.ColumnReplays | add_ticker_columns.py:86-93 | carrying out one column's requests gives that column's grid where its letters land, or fails when they land nowhere |
| TickerColumns.ColumnSends | add_ticker_columns.py:86-93 | for a column whose letters land, the store accepts its header write and its fill, and carrying them out one after the other adds the column where they land |
| TickerColumns.ColumnStep | add_ticker_columns.py:82-94 | one more column the store takes extends the grid by exactly that column, next to the earlier ones |
| TickerColumns.ColumnLogStep | add_ticker_columns.py:82-94 | one more column extends the log of requests by exactly that column's share of the plan |
| Rerun.WriterComplete | realtime_updater.py:93-98 | since no two symbols share a row, every listed, fetched, indexed symbol is the one whose write a row receives |
| Rerun.RunShape | realtime_updater.py:80-137 | the writing part rewrites columns A to E of each row indexed by a listed, fetched symbol, leaves the other old rows alone, and puts the new symbols' rows after them |
| Rerun.IndexedAfterRun | realtime_updater.py:93-137 | after a run over a sheet keyed by column A, every listed, fetched symbol is in the next run's index, at a row starting with what the run wrote for it |
| Rerun.SecondRun | realtime_updater.py:104-137 | a run over such a sheet appends nothing and changes every row at most in column E |
| Rerun.RerunOnlyTouchesTime | realtime_updater.py:80-137 | running the writing part twice with the same symbols and quotes, on a 주가 sheet that is missing or keyed by its first column: the second run appends no row, and every row differs from the first run's at most in the update time |
| TickerColumns.TickerInfo.constructor | add_ticker_columns.py:38-39 | the tool starts on the worksheet it opened, or on none, with an empty log |
| TickerColumns.TickerInfo.Send | add_ticker_columns.py:87 | a request whose letters name a column, in either case, and whose rows are real rows is carried out on the worksheet and logged; any other is refused, raising, and changes nothing |
| TickerColumns.TickerInfo.AddColumns | add_ticker_columns.py:23-106 | no id or no worksheet: False and no writes; some columns exist and the answer is not y: False and no writes; otherwise the requests of the columns the store takes are sent and leave those columns placed from Base(header length) on, and the result is True exactly when it took every missing column (True with no request when none is missing) |
| TickerColumns.TickerInfo.WriteColumns | add_ticker_columns.py:82-106 | the column loop sends the plan of the columns the store takes and ends with their grid; it reports success exactly when it took them all, and keeps what it wrote before stopping |
| TickerColumns.TickerInfo.WriteColumn | add_ticker_columns.py:83-94 | one iteration sends the column's header write and, with data rows, its fill under the tool's letters; it succeeds exactly when those letters land, and otherwise changes nothing |
| TickerColumns.NothingToAdd | add_ticker_columns.py:67-69 | when every column exists, nothing is added and no request is sent |
| TickerColumns.AllFourAdded | add_ticker_columns.py:65 | on a header with none of the columns, all four are added in their order |

## Left out

- Connecting to Google Sheets (`initialize_sheet`, the oauth2client credentials, `open_by_key`, realtime_updater.py:26-45, add_ticker_columns.py:27-39) is foreign I/O. The connection is an `Option`: a workbook, or None when connecting failed.
- The price provider is foreign I/O. The yfinance history requests are the parameters `fetch` and `lookup`, which give each symbol's closing prices or `Raised`.
- PriceSync.PricePhase: a symbol listed twice gets the same answer both times, because `fetch` is a function.
- Floating point and `round(x, 2)`: prices are reals, and how a number is rendered into a cell is the parameter `fmt`.
- `datetime.now()` is left out. Each phase's timestamp is a string parameter, one per phase.
- The `schedule` loop and `main` (realtime_updater.py:223 onward; add_ticker_columns.py:109-127) only repeat or wrap the modelled operations. They are not modelled.
- Console output is not modelled. That includes the price phase's summary at realtime_updater.py:139. That summary labels the number of listed symbols already in the index as "new", and the size of the whole index as "refreshed".
- Store failures are not modelled. The store carries out every well-formed call. An exception part-way through a phase (a failed `update`, `append_rows` or `add_worksheet`, caught at realtime_updater.py:132-133, 141-142 and 207-208, and add_ticker_columns.py:102-106) would leave earlier writes in place.
- The column tool uses its own letters (see Findings). The store is modelled as reading the column letters of a range without regard to case, for the ASCII letters A to Z only (A1.StoreColumn). It refuses letters that are not a column name. So columns 53 to 58 and from 85 on stop the tool with False, keeping the columns written before. The tool's columns 59 to 84 get "Aa" to "Az" and land on columns AA to AZ. The store checks the letters each request carries, not the whole range text.
- TickerColumns.TickerInfo.WriteColumn: a column at 0xD7DA or beyond fails without a request, because its second character would be a surrogate or lie beyond the surrogates, and the first case cannot be held by Dafny strings. No such letters name a column, so the store would refuse the request anyway, and either way the tool reports False.
- `append_rows` and `append_row` append after the last row `get_all_values` shows. The store's detection of the table's extent is not modelled.
- The capacity passed to `add_worksheet` (1000×10 and 100×5 cells) is not modelled. The grid grows as needed.
- `input()` is the parameter `answer`. It is read only when some column already exists.
- TickerColumns.Confirms: `answer.lower() == 'y'` holds exactly for "y" and "Y".
- A1.ColumnLetterAsWritten: requires the column to be below 0xD7DA, the first column whose second character (38 + i) is a surrogate, which Python's `chr` accepts but Dafny characters exclude.
- Rerun.RerunOnlyTouchesTime: assumes both runs see the same symbol list and the same quotes. It also assumes 주가 is missing or has a first row whose Ticker header, if any, is in column A. Two cases break the rerun property, and they are not modelled as lemmas:
  - a Ticker header in another column: the index is keyed by that column while every write puts the symbol in column A, so every run appends every symbol again;
  - a 주가 sheet that exists with no rows: the first appended row lands in row 1, so the next run reads it as the header and appends that symbol again.

## Findings

| source | as written | input that shows it | evidently intended | confidence | as-written member | corrected member |
|---|---|---|---|---|---|---|
| add_ticker_columns.py:84 | `chr(64 + i)` up to column 26, else `"A" + chr(64 + i - 26)` | a header of 52 cells: the first new column is 53 and gets "A[", so the tool writes to the range "A[1" | the A1 column name ("BA" for 53) for every column | high; not executed | A1.ColumnLetterAsWritten, A1.AsWrittenBreaks | A1.A1Name, A1.A1RoundTrip |
| add_ticker_columns.py:84 | the same, for columns 59 to 84 | a header of 58 cells without the four columns: the tool's columns 59 to 62 get "Aa" to "Ad", which a store reading letters regardless of case takes as AA to AD, so the four names and defaults overwrite existing columns 27 to 30 and the tool returns True | columns BG to BJ, after the header | medium (rests on how the store reads letters); not executed | A1.AsWrittenMisplaced, TickerColumns.MisplacedColumns | A1.A1Name, TickerColumns.AddAllCells |

The column tool itself is modelled as written. It computes the letters with A1.ColumnLetterAsWritten. The store refuses them for columns 53 to 58 and from 85 on, and it puts columns 59 to 84 on AA to AZ (A1.AsWrittenLands, TickerColumns.TickerInfo.AddColumns). A1.A1Name is the naming the tool evidently meant, and A1.A1RoundTrip proves it reads back.
