/** The price phase of one update cycle, as functions of the workbook it
    starts from: read the symbols listed in Ticker_Info, index the rows of
    the 주가 sheet by symbol, overwrite the row of every listed symbol that
    is already there, and append one row per successful fetch of a symbol
    that is not, in a single batch at the end. */
module PriceSync {
  import opened Sheet
  import opened Market

  const InfoSheet: string := "Ticker_Info"
  const PriceSheet: string := "주가"
  const PriceHeader: Row := ["Ticker", "현재가", "전일대비", "등락률(%)", "업데이트시간"]

  /** Header names of the symbol column in Ticker_Info, preferred first. */
  const PreferredColumn: string := "YahooFinance_Ticker"
  const FallbackColumn: string := "Ticker"

  /** Header name of the symbol column in the 주가 sheet. */
  const PriceKeyColumn: string := "Ticker"

  // ---------------------------------------------------------------------
  // Reading the symbol list

  /** The symbol column of Ticker_Info: the first YahooFinance_Ticker
      column if there is one, otherwise the first Ticker column, otherwise
      none (the lookup raises and the phase stops). */
  function TickerColumn(headers: Row): (col: Option<nat>)
    ensures col.Some? <==> PreferredColumn in headers || FallbackColumn in headers
    ensures PreferredColumn in headers ==>
      col.value < |headers| && headers[col.value] == PreferredColumn
      && forall j :: 0 <= j < col.value ==> headers[j] != PreferredColumn
    ensures PreferredColumn !in headers && FallbackColumn in headers ==>
      col.value < |headers| && headers[col.value] == FallbackColumn
      && forall j :: 0 <= j < col.value ==> headers[j] != FallbackColumn
  {
    if PreferredColumn in headers then Some(IndexOf(headers, PreferredColumn))
    else if FallbackColumn in headers then Some(IndexOf(headers, FallbackColumn))
    else None
  }

  /** The stripped, non-empty cells of column `col`, in row order, from the
      rows long enough to have that column. Duplicates are kept. */
  function TickerList(rows: seq<Row>, col: nat): (ts: seq<string>)
    decreases |rows|
  {
    if rows == [] then []
    else
      var init := TickerList(rows[..|rows| - 1], col);
      var row := rows[|rows| - 1];
      if |row| > col && Strip(row[col]) != "" then init + [Strip(row[col])] else init
  }

  /** The list of a block of rows followed by another is the first list
      followed by the second: symbols keep the order of their rows. */
  lemma {:induction false} TickerListConcat(a: seq<Row>, b: seq<Row>, col: nat)
    ensures TickerList(a + b, col) == TickerList(a, col) + TickerList(b, col)
    decreases |b|
  {
    if b == [] {
      assert a + b == a;
    } else {
      var b' := b[..|b| - 1];
      assert (a + b)[..|a + b| - 1] == a + b';
      assert (a + b)[|a + b| - 1] == b[|b| - 1];
      TickerListConcat(a, b', col);
    }
  }

  /** Every listed symbol is non-empty and free of surrounding whitespace,
      and there is at most one per row. */
  lemma {:induction false} TickerListClean(rows: seq<Row>, col: nat)
    ensures |TickerList(rows, col)| <= |rows|
    ensures forall k :: 0 <= k < |TickerList(rows, col)| ==>
      TickerList(rows, col)[k] != "" && Strip(TickerList(rows, col)[k]) == TickerList(rows, col)[k]
    decreases |rows|
  {
    if rows != [] {
      var init := TickerList(rows[..|rows| - 1], col);
      TickerListClean(rows[..|rows| - 1], col);
      var row := rows[|rows| - 1];
      if |row| > col && Strip(row[col]) != "" {
        var t := Strip(row[col]);
        StripIdempotent(row[col]);
        var ts := init + [t];
        assert TickerList(rows, col) == ts;
        forall k | 0 <= k < |ts| ensures ts[k] != "" && Strip(ts[k]) == ts[k] {
          if k < |init| { assert ts[k] == init[k]; } else { assert ts[k] == t; }
        }
      } else {
        assert TickerList(rows, col) == init;
      }
    }
  }

  /** Every listed symbol is the stripped cell of some row. */
  lemma {:induction false} TickerListSound(rows: seq<Row>, col: nat)
    ensures forall t :: t in TickerList(rows, col) ==>
      exists i :: 0 <= i < |rows| && |rows[i]| > col && Strip(rows[i][col]) == t
    decreases |rows|
  {
    if rows != [] {
      var init := rows[..|rows| - 1];
      TickerListSound(init, col);
      forall t | t in TickerList(rows, col)
        ensures exists i :: 0 <= i < |rows| && |rows[i]| > col && Strip(rows[i][col]) == t
      {
        if t in TickerList(init, col) {
          var i :| 0 <= i < |init| && |init[i]| > col && Strip(init[i][col]) == t;
          assert rows[i] == init[i];
        } else {
          assert rows[|rows| - 1][col] == rows[|rows| - 1][col];
        }
      }
    }
  }

  /** Every row whose cell strips to something non-empty contributes that symbol. */
  lemma {:induction false} TickerListComplete(rows: seq<Row>, col: nat)
    ensures forall i :: 0 <= i < |rows| && |rows[i]| > col && Strip(rows[i][col]) != "" ==>
      Strip(rows[i][col]) in TickerList(rows, col)
    decreases |rows|
  {
    if rows != [] {
      var init := rows[..|rows| - 1];
      var last := rows[|rows| - 1];
      var before := TickerList(init, col);
      var ts := TickerList(rows, col);
      TickerListComplete(init, col);
      assert forall t :: t in before ==> t in ts;
      forall i | 0 <= i < |rows| && |rows[i]| > col && Strip(rows[i][col]) != ""
        ensures Strip(rows[i][col]) in ts
      {
        if i < |init| {
          assert rows[i] == init[i];
          assert Strip(init[i][col]) in before;
        } else {
          assert rows[i] == last;
          assert ts == before + [Strip(last[col])];
        }
      }
    }
  }

  /** The loop that collects the symbols of Ticker_Info. */
  method CollectTickers(rows: seq<Row>, col: nat) returns (tickers: seq<string>)
    ensures tickers == TickerList(rows, col)
  {
    tickers := [];
    for i := 0 to |rows|
      invariant tickers == TickerList(rows[..i], col)
    {
      assert rows[..i + 1][..i] == rows[..i];
      var row := rows[i];
      if |row| > col && Strip(row[col]) != "" {
        tickers := tickers + [Strip(row[col])];
      }
    }
    assert rows[..|rows|] == rows;
  }

  // ---------------------------------------------------------------------
  // Indexing the 주가 sheet

  /** Symbol to 1-based row number, for data rows numbered from 2, built
      row by row so that a later row with the same symbol replaces an
      earlier one. Rows too short to hold the key column are skipped. */
  function RowIndex(rows: seq<Row>, col: nat): (m: map<string, nat>)
    ensures forall k :: k in m ==> 2 <= m[k] <= |rows| + 1
    decreases |rows|
  {
    if rows == [] then map[]
    else
      var m := RowIndex(rows[..|rows| - 1], col);
      var row := rows[|rows| - 1];
      if |row| > col then m[row[col] := |rows| + 1] else m
  }

  /** Every row long enough to hold the key column has its key in the index. */
  lemma {:induction false} RowIndexComplete(rows: seq<Row>, col: nat)
    ensures forall i :: 0 <= i < |rows| && |rows[i]| > col ==> rows[i][col] in RowIndex(rows, col)
    decreases |rows|
  {
    if rows != [] {
      var init := rows[..|rows| - 1];
      RowIndexComplete(init, col);
      forall i | 0 <= i < |init| ensures rows[i] == init[i] { }
    }
  }

  /** Each indexed symbol is sent to a row that holds it, and no later row
      holds it: the LAST occurrence wins. */
  lemma {:induction false} RowIndexLastOccurrence(rows: seq<Row>, col: nat)
    ensures forall k :: k in RowIndex(rows, col) ==>
      |rows[RowIndex(rows, col)[k] - 2]| > col && rows[RowIndex(rows, col)[k] - 2][col] == k
    ensures forall k, j :: k in RowIndex(rows, col) && RowIndex(rows, col)[k] - 2 < j < |rows| && |rows[j]| > col ==>
      rows[j][col] != k
    decreases |rows|
  {
    if rows != [] {
      var init := rows[..|rows| - 1];
      var m0 := RowIndex(init, col);
      var m := RowIndex(rows, col);
      var last := rows[|rows| - 1];
      RowIndexLastOccurrence(init, col);
      forall k | k in m
        ensures |rows[m[k] - 2]| > col && rows[m[k] - 2][col] == k
      {
        if |last| > col && k == last[col] {
        } else {
          assert rows[m0[k] - 2] == init[m0[k] - 2];
        }
      }
      forall k, j | k in m && m[k] - 2 < j < |rows| && |rows[j]| > col
        ensures rows[j][col] != k
      {
        if |last| > col && k == last[col] {
        } else if j < |init| {
          assert rows[j] == init[j];
        }
      }
    }
  }

  /** The key column of the 주가 sheet: the first Ticker header, else column A. */
  function KeyColumn(header: Row): (col: nat)
    ensures PriceKeyColumn in header ==> col < |header| && header[col] == PriceKeyColumn
    ensures PriceKeyColumn in header ==> forall j :: 0 <= j < col ==> header[j] != PriceKeyColumn
    ensures PriceKeyColumn !in header ==> col == 0
  {
    if PriceKeyColumn in header then IndexOf(header, PriceKeyColumn) else 0
  }

  /** The row index the price phase builds from the 주가 sheet: empty
      unless the sheet has a data row. Every indexed row exists and holds
      its symbol, so no two symbols share a row. */
  function RowMapOf(data: Table): (m: map<string, nat>)
    ensures |data| <= 1 ==> m == map[]
    ensures forall k :: k in m ==> 2 <= m[k] <= |data|
    ensures forall k :: k in m ==>
      |data[m[k] - 1]| > KeyColumn(data[0]) && data[m[k] - 1][KeyColumn(data[0])] == k
    ensures forall k1, k2 :: k1 in m && k2 in m && m[k1] == m[k2] ==> k1 == k2
  {
    if |data| > 1 then
      var rows := data[1..];
      RowIndexLastOccurrence(rows, KeyColumn(data[0]));
      assert forall i :: 0 <= i < |rows| ==> rows[i] == data[i + 1];
      RowIndex(rows, KeyColumn(data[0]))
    else map[]
  }

  /** The loop that builds the row index. */
  method BuildRowIndex(data: Table) returns (m: map<string, nat>)
    ensures m == RowMapOf(data)
  {
    m := map[];
    if |data| > 1 {
      var col := KeyColumn(data[0]);
      var rows := data[1..];
      for i := 0 to |rows|
        invariant m == RowIndex(rows[..i], col)
      {
        assert rows[..i + 1][..i] == rows[..i];
        var row := rows[i];
        if |row| > col {
          m := m[row[col] := i + 2];
        }
      }
      assert rows[..|rows|] == rows;
    }
  }

  // ---------------------------------------------------------------------
  // Upserting the fetched prices

  /** The five cells written for a symbol: symbol, price, change, percent
      change, all rendered by `fmt`, and the cycle's timestamp. */
  function PriceRow(t: string, q: Quote, fmt: real -> string, now: string): Row
  {
    [t, fmt(q.price), fmt(q.change), fmt(q.changePct), now]
  }

  /** The fetch for `t` produced a quote. Throughout this module `quote`
      gives, per symbol, what the fetch-and-compute step of the loop yields:
      the quote, or None when the history was empty or the request raised. */
  predicate Fetched(t: string, quote: string -> Option<Quote>)
  {
    quote(t).Some?
  }

  /** The row written for a symbol whose fetch produced a quote. */
  function RowFor(t: string, quote: string -> Option<Quote>, fmt: real -> string, now: string): Row
    requires Fetched(t, quote)
  {
    PriceRow(t, quote(t).value, fmt, now)
  }

  predicate RowsWithin(m: map<string, nat>, n: nat)
  {
    forall k :: k in m ==> 2 <= m[k] <= n
  }

  predicate Injective(m: map<string, nat>)
  {
    forall k1, k2 :: k1 in m && k2 in m && m[k1] == m[k2] ==> k1 == k2
  }

  /** The table and the calls sent so far. */
  datatype Progress = Progress(table: Table, calls: seq<Call>)

  /** The in-place part of the upsert: for each symbol in turn, a fetched
      symbol found in the index has its row overwritten from column A to E;
      every other symbol leaves table and calls alone. */
  function UpsertAll(start: Progress, m: map<string, nat>, tickers: seq<string>,
                     quote: string -> Option<Quote>, fmt: real -> string, now: string): (p: Progress)
    requires RowsWithin(m, |start.table|)
    ensures |p.table| == |start.table|
    decreases |tickers|
  {
    if tickers == [] then start
    else
      var p := UpsertAll(start, m, tickers[..|tickers| - 1], quote, fmt, now);
      var t := tickers[|tickers| - 1];
      if Fetched(t, quote) && t in m then
        var row := RowFor(t, quote, fmt, now);
        Progress(WriteRow(p.table, m[t], row), p.calls + [UpdateRow(PriceSheet, m[t], row)])
      else p
  }

  /** Row index `i` is the indexed row of some listed symbol that was fetched. */
  ghost predicate Refreshed(i: nat, m: map<string, nat>, tickers: seq<string>, quote: string -> Option<Quote>)
  {
    exists t :: t in tickers && t in m && m[t] == i + 1 && Fetched(t, quote)
  }

  /** Rows the in-place pass leaves alone: the table keeps its length, and
      every row that is not the indexed row of a listed, fetched symbol is
      unchanged — in particular the rows of symbols whose fetch failed. */
  lemma {:induction false} UpsertAllUntouched(start: Progress, m: map<string, nat>, tickers: seq<string>,
                                              quote: string -> Option<Quote>, fmt: real -> string, now: string)
    requires RowsWithin(m, |start.table|)
    ensures forall i :: 0 <= i < |start.table| && !Refreshed(i, m, tickers, quote) ==>
      UpsertAll(start, m, tickers, quote, fmt, now).table[i] == start.table[i]
    decreases |tickers|
  {
    if tickers != [] {
      var init := tickers[..|tickers| - 1];
      var t := tickers[|tickers| - 1];
      UpsertAllUntouched(start, m, init, quote, fmt, now);
      var p := UpsertAll(start, m, init, quote, fmt, now);
      var p' := UpsertAll(start, m, tickers, quote, fmt, now);
      forall i | 0 <= i < |start.table| && !Refreshed(i, m, tickers, quote)
        ensures p'.table[i] == start.table[i]
      {
        if Fetched(t, quote) && t in m {
          assert p'.table == WriteRow(p.table, m[t], RowFor(t, quote, fmt, now));
          assert t in tickers;
          assert i != m[t] - 1;
        } else {
          assert p' == p;
        }
      }
    }
  }

  /** Rows the in-place pass writes: the indexed row of every listed,
      fetched symbol holds that symbol's new cells in columns A to E and
      its old cells after E. */
  lemma {:induction false} UpsertAllWritten(start: Progress, m: map<string, nat>, tickers: seq<string>,
                                            quote: string -> Option<Quote>, fmt: real -> string, now: string)
    requires RowsWithin(m, |start.table|) && Injective(m)
    ensures forall t :: t in tickers && t in m && Fetched(t, quote) ==>
      UpsertAll(start, m, tickers, quote, fmt, now).table[m[t] - 1]
        == OverwritePrefix(start.table[m[t] - 1], RowFor(t, quote, fmt, now))
    decreases |tickers|
  {
    if tickers != [] {
      var init := tickers[..|tickers| - 1];
      var t := tickers[|tickers| - 1];
      UpsertAllWritten(start, m, init, quote, fmt, now);
      UpsertAllUntouched(start, m, init, quote, fmt, now);
      var p := UpsertAll(start, m, init, quote, fmt, now);
      var p' := UpsertAll(start, m, tickers, quote, fmt, now);
      forall u | u in tickers && u in m && Fetched(u, quote)
        ensures p'.table[m[u] - 1] == OverwritePrefix(start.table[m[u] - 1], RowFor(u, quote, fmt, now))
      {
        if Fetched(t, quote) && t in m {
          var row := RowFor(t, quote, fmt, now);
          assert p'.table == WriteRow(p.table, m[t], row);
          if u == t {
            if t in init {
              OverwriteLastWins(start.table[m[t] - 1], row, row);
            } else {
              assert !Refreshed(m[t] - 1, m, init, quote);
            }
          } else {
            assert u in init;
            assert m[u] != m[t];
          }
        } else {
          assert p' == p;
          assert u in init;
        }
      }
    }
  }

  /** The in-place pass sends nothing but updates of indexed rows of the 주가 sheet, after what was sent before. */
  lemma {:induction false} UpsertAllCalls(start: Progress, m: map<string, nat>, tickers: seq<string>,
                                          quote: string -> Option<Quote>, fmt: real -> string, now: string)
    requires RowsWithin(m, |start.table|)
    ensures |start.calls| <= |UpsertAll(start, m, tickers, quote, fmt, now).calls|
    ensures UpsertAll(start, m, tickers, quote, fmt, now).calls[..|start.calls|] == start.calls
    ensures forall j :: |start.calls| <= j < |UpsertAll(start, m, tickers, quote, fmt, now).calls| ==>
      var c := UpsertAll(start, m, tickers, quote, fmt, now).calls[j];
      c.UpdateRow? && c.title == PriceSheet && 2 <= c.rowNum <= |start.table|
    decreases |tickers|
  {
    if tickers != [] {
      UpsertAllCalls(start, m, tickers[..|tickers| - 1], quote, fmt, now);
    }
  }

  /** Replaying the calls of the in-place pass on the workbook gives the table the pass computed. */
  lemma {:induction false} UpsertAllReplays(book: Workbook, start: Progress, m: map<string, nat>, tickers: seq<string>,
                                            quote: string -> Option<Quote>, fmt: real -> string, now: string)
    requires RowsWithin(m, |start.table|)
    ensures var p := UpsertAll(start, m, tickers, quote, fmt, now);
      |start.calls| <= |p.calls|
      && Replay(book[PriceSheet := start.table], p.calls[|start.calls|..]) == Some(book[PriceSheet := p.table])
    decreases |tickers|
  {
    var p := UpsertAll(start, m, tickers, quote, fmt, now);
    if tickers == [] {
      assert p.calls[|start.calls|..] == [];
    } else {
      var init := tickers[..|tickers| - 1];
      var t := tickers[|tickers| - 1];
      var q := UpsertAll(start, m, init, quote, fmt, now);
      UpsertAllReplays(book, start, m, init, quote, fmt, now);
      if Fetched(t, quote) && t in m {
        var row := RowFor(t, quote, fmt, now);
        var c := UpdateRow(PriceSheet, m[t], row);
        var pre := q.calls[|start.calls|..];
        assert p.calls == q.calls + [c];
        assert p.calls[|start.calls|..] == pre + [c];
        ReplayConcat(book[PriceSheet := start.table], pre, [c]);
        ReplayUpdateRow(book, PriceSheet, q.table, m[t], row);
      } else {
        assert p == q;
      }
    }
  }

  /** One more symbol after `ts`: the pass over `ts` followed by its step. */
  lemma UpsertAllSnoc(start: Progress, m: map<string, nat>, ts: seq<string>, t: string,
                      quote: string -> Option<Quote>, fmt: real -> string, now: string)
    requires RowsWithin(m, |start.table|)
    ensures var p := UpsertAll(start, m, ts, quote, fmt, now);
      UpsertAll(start, m, ts + [t], quote, fmt, now)
        == if Fetched(t, quote) && t in m then
             Progress(WriteRow(p.table, m[t], RowFor(t, quote, fmt, now)),
                      p.calls + [UpdateRow(PriceSheet, m[t], RowFor(t, quote, fmt, now))])
           else p
  {
    assert (ts + [t])[..|ts|] == ts;
  }

  /** The symbols that are appended: those fetched and not in the index, in
      list order, once per listing. */
  function NewTickers(m: map<string, nat>, tickers: seq<string>, quote: string -> Option<Quote>): (ts: seq<string>)
    ensures |ts| <= |tickers|
    ensures forall k :: 0 <= k < |ts| ==> Fetched(ts[k], quote) && ts[k] !in m
    decreases |tickers|
  {
    if tickers == [] then []
    else
      var init := NewTickers(m, tickers[..|tickers| - 1], quote);
      var t := tickers[|tickers| - 1];
      if Fetched(t, quote) && t !in m then init + [t] else init
  }

  /** A symbol is appended as many times as it is listed when it was
      fetched and is not in the index, and never otherwise; so a new symbol
      listed twice gets two rows. */
  lemma {:induction false} NewTickersCount(m: map<string, nat>, tickers: seq<string>, quote: string -> Option<Quote>)
    ensures forall t ::
              multiset(NewTickers(m, tickers, quote))[t] == (if Fetched(t, quote) && t !in m then multiset(tickers)[t] else 0)
    decreases |tickers|
  {
    if tickers != [] {
      var init := tickers[..|tickers| - 1];
      NewTickersCount(m, init, quote);
      assert tickers == init + [tickers[|tickers| - 1]];
    }
  }

  /** One more symbol after `ts` is appended after those of `ts` exactly when it is fetched and new. */
  lemma NewTickersSnoc(m: map<string, nat>, ts: seq<string>, t: string, quote: string -> Option<Quote>)
    ensures NewTickers(m, ts + [t], quote)
      == NewTickers(m, ts, quote) + (if Fetched(t, quote) && t !in m then [t] else [])
  {
    assert (ts + [t])[..|ts|] == ts;
  }

  /** The appended symbols keep the order of the list. */
  lemma {:induction false} NewTickersConcat(m: map<string, nat>, a: seq<string>, b: seq<string>, quote: string -> Option<Quote>)
    ensures NewTickers(m, a + b, quote) == NewTickers(m, a, quote) + NewTickers(m, b, quote)
    decreases |b|
  {
    if b == [] {
      assert a + b == a;
    } else {
      var b' := b[..|b| - 1];
      assert (a + b)[..|a + b| - 1] == a + b';
      assert (a + b)[|a + b| - 1] == b[|b| - 1];
      NewTickersConcat(m, a, b', quote);
    }
  }

  /** The rows queued for the batch append, one per appended symbol. */
  function NewRows(ts: seq<string>, quote: string -> Option<Quote>, fmt: real -> string, now: string): (rows: seq<Row>)
    decreases |ts|
  {
    if ts == [] then []
    else
      var init := NewRows(ts[..|ts| - 1], quote, fmt, now);
      var t := ts[|ts| - 1];
      if Fetched(t, quote) then init + [RowFor(t, quote, fmt, now)] else init
  }

  /** Row k of the batch is the row of the k-th appended symbol. */
  lemma {:induction false} NewRowsAt(m: map<string, nat>, tickers: seq<string>,
                                     quote: string -> Option<Quote>, fmt: real -> string, now: string)
    ensures var ts := NewTickers(m, tickers, quote);
      |NewRows(ts, quote, fmt, now)| == |ts|
      && forall k :: 0 <= k < |ts| ==>
        Fetched(ts[k], quote) && ts[k] !in m && NewRows(ts, quote, fmt, now)[k] == RowFor(ts[k], quote, fmt, now)
    decreases |tickers|
  {
    if tickers != [] {
      var init := tickers[..|tickers| - 1];
      NewRowsAt(m, init, quote, fmt, now);
      var ts := NewTickers(m, tickers, quote);
      var ts0 := NewTickers(m, init, quote);
      if ts != ts0 {
        assert ts[..|ts| - 1] == ts0;
      }
    }
  }

  // ---------------------------------------------------------------------
  // The phase

  datatype PriceOutcome = InfoSheetMissing | TooFewInfoRows | NoTickerColumn | NoTickers | PricesSynced

  datatype PriceResult = PriceResult(book: Workbook, calls: seq<Call>, outcome: PriceOutcome)

  /** The 주가 sheet as the phase reads it: created with its fixed header when missing. */
  function PriceData(book: Workbook): (data: Table)
    ensures PriceSheet !in book ==> data == [PriceHeader]
    ensures PriceSheet in book ==> data == book[PriceSheet]
  {
    if PriceSheet in book then book[PriceSheet] else [PriceHeader]
  }

  /** The call that creates the 주가 sheet, when it is missing. */
  function Created(book: Workbook): (calls: seq<Call>)
    ensures PriceSheet in book ==> calls == []
    ensures PriceSheet !in book ==> calls == [AddSheet(PriceSheet, PriceHeader)]
  {
    if PriceSheet in book then [] else [AddSheet(PriceSheet, PriceHeader)]
  }

  /** The store, carrying out the creation call, ends with the 주가 sheet
      the phase reads and every other sheet as it was. */
  lemma CreatedReplays(book: Workbook)
    ensures Replay(book, Created(book)) == Some(book[PriceSheet := PriceData(book)])
  {
    if PriceSheet in book {
      assert book[PriceSheet := book[PriceSheet]] == book;
    } else {
      ReplayOne(book, AddSheet(PriceSheet, PriceHeader));
    }
  }

  /** The symbols the phase reads, if it gets as far as reading them. */
  function Tickers(book: Workbook): Option<seq<string>>
  {
    if InfoSheet !in book || |book[InfoSheet]| < 2 then None
    else match TickerColumn(book[InfoSheet][0])
      case None => None
      case Some(col) => Some(TickerList(book[InfoSheet][1..], col))
  }

  /** The workbook and the calls after a phase that got as far as writing. */
  datatype Sync = Sync(book: Workbook, calls: seq<Call>)

  /** The writing part of the price phase for a non-empty symbol list:
      create the sheet if missing, index it, update in place, then append
      the new rows in one batch when there are any. */
  function SyncPrices(book: Workbook, tickers: seq<string>,
                      quote: string -> Option<Quote>, fmt: real -> string, now: string): (r: Sync)
    ensures PriceSheet in r.book
    ensures forall s :: s in book && s != PriceSheet ==> s in r.book && r.book[s] == book[s]
    ensures r.book.Keys == book.Keys + {PriceSheet}
  {
    var created := Created(book);
    var data := PriceData(book);
    var m := RowMapOf(data);
    var p := UpsertAll(Progress(data, created), m, tickers, quote, fmt, now);
    var added := NewRows(NewTickers(m, tickers, quote), quote, fmt, now);
    if added == [] then Sync(book[PriceSheet := p.table], p.calls)
    else Sync(book[PriceSheet := p.table + added], p.calls + [AppendRows(PriceSheet, added)])
  }

  /** One run of update_stock_prices on a connected workbook. Each early
      return leaves the workbook as it was and sends nothing. */
  function PricePhase(book: Workbook, fetch: string -> Fetch, fmt: real -> string, now: string): (r: PriceResult)
    ensures r.outcome != PricesSynced ==> r.book == book && r.calls == []
    ensures r.outcome == PricesSynced <==> Tickers(book).Some? && Tickers(book).value != []
    ensures r.outcome == PricesSynced ==> PriceSheet in r.book
    ensures forall s :: s in book && s != PriceSheet ==> s in r.book && r.book[s] == book[s]
    ensures r.book.Keys <= book.Keys + {PriceSheet}
  {
    if InfoSheet !in book then PriceResult(book, [], InfoSheetMissing)
    else
      var info := book[InfoSheet];
      if |info| < 2 then PriceResult(book, [], TooFewInfoRows)
      else match TickerColumn(info[0])
        case None => PriceResult(book, [], NoTickerColumn)
        case Some(col) =>
          var tickers := TickerList(info[1..], col);
          if tickers == [] then PriceResult(book, [], NoTickers)
          else
            var s := SyncPrices(book, tickers, QuotesOf(fetch), fmt, now);
            PriceResult(s.book, s.calls, PricesSynced)
  }

  /** The writing part in terms of its steps: the in-place pass starts from
      the sheet as read and the creation call, and the batch is appended
      after it. */
  lemma SyncPricesShape(book: Workbook, tickers: seq<string>, quote: string -> Option<Quote>, fmt: real -> string, now: string)
    ensures var m := RowMapOf(PriceData(book));
      var p := UpsertAll(Progress(PriceData(book), Created(book)), m, tickers, quote, fmt, now);
      var rows := NewRows(NewTickers(m, tickers, quote), quote, fmt, now);
      var r := SyncPrices(book, tickers, quote, fmt, now);
      && r.book == book[PriceSheet := p.table + rows]
      && r.calls == p.calls + (if rows == [] then [] else [AppendRows(PriceSheet, rows)])
  {
    var rows := NewRows(NewTickers(RowMapOf(PriceData(book)), tickers, quote), quote, fmt, now);
    if rows == [] {
      var m := RowMapOf(PriceData(book));
      var p := UpsertAll(Progress(PriceData(book), Created(book)), m, tickers, quote, fmt, now);
      assert p.table + rows == p.table;
      assert p.calls + [] == p.calls;
    }
  }

  /** The 주가 sheet after the writing part keeps the rows already there
      in their positions, each unchanged unless it is the indexed row of a
      listed, fetched symbol (so the rows of symbols whose fetch failed are
      unchanged), and grows by one row per appended symbol. */
  lemma SyncPricesKeeps(book: Workbook, tickers: seq<string>, quote: string -> Option<Quote>, fmt: real -> string, now: string)
    ensures var data := PriceData(book);
      var m := RowMapOf(data);
      var after := SyncPrices(book, tickers, quote, fmt, now).book[PriceSheet];
      && |after| == |data| + |NewTickers(m, tickers, quote)|
      && forall i :: 0 <= i < |data| && !Refreshed(i, m, tickers, quote) ==> after[i] == data[i]
  {
    var data := PriceData(book);
    var m := RowMapOf(data);
    var start := Progress(data, Created(book));
    var p := UpsertAll(start, m, tickers, quote, fmt, now);
    var rows := NewRows(NewTickers(m, tickers, quote), quote, fmt, now);
    SyncPricesShape(book, tickers, quote, fmt, now);
    UpsertAllUntouched(start, m, tickers, quote, fmt, now);
    NewRowsAt(m, tickers, quote, fmt, now);
    var after := SyncPrices(book, tickers, quote, fmt, now).book[PriceSheet];
    assert after == p.table + rows;
    forall i | 0 <= i < |data| ensures after[i] == p.table[i] { }
  }

  /** The indexed row of every listed, fetched symbol holds that symbol's
      new cells in columns A to E and its old cells after E. */
  lemma SyncPricesUpdates(book: Workbook, tickers: seq<string>, quote: string -> Option<Quote>, fmt: real -> string, now: string)
    ensures var data := PriceData(book);
      var m := RowMapOf(data);
      var after := SyncPrices(book, tickers, quote, fmt, now).book[PriceSheet];
      forall t :: t in tickers && t in m && Fetched(t, quote) ==>
        m[t] - 1 < |after| && after[m[t] - 1] == OverwritePrefix(data[m[t] - 1], RowFor(t, quote, fmt, now))
  {
    var data := PriceData(book);
    var m := RowMapOf(data);
    var start := Progress(data, Created(book));
    var p := UpsertAll(start, m, tickers, quote, fmt, now);
    var rows := NewRows(NewTickers(m, tickers, quote), quote, fmt, now);
    SyncPricesShape(book, tickers, quote, fmt, now);
    UpsertAllWritten(start, m, tickers, quote, fmt, now);
    var after := SyncPrices(book, tickers, quote, fmt, now).book[PriceSheet];
    assert after == p.table + rows;
    forall t | t in tickers && t in m && Fetched(t, quote)
      ensures m[t] - 1 < |after| && after[m[t] - 1] == OverwritePrefix(data[m[t] - 1], RowFor(t, quote, fmt, now))
    {
      assert m[t] - 1 < |p.table|;
      assert after[m[t] - 1] == p.table[m[t] - 1];
    }
  }

  /** After the rows already there come the rows of the appended symbols, in list order. */
  lemma SyncPricesAppends(book: Workbook, tickers: seq<string>, quote: string -> Option<Quote>, fmt: real -> string, now: string)
    ensures var data := PriceData(book);
      var added := NewTickers(RowMapOf(data), tickers, quote);
      var after := SyncPrices(book, tickers, quote, fmt, now).book[PriceSheet];
      forall k :: 0 <= k < |added| ==> |data| + k < |after| && after[|data| + k] == RowFor(added[k], quote, fmt, now)
  {
    var data := PriceData(book);
    var m := RowMapOf(data);
    var p := UpsertAll(Progress(data, Created(book)), m, tickers, quote, fmt, now);
    var added := NewTickers(m, tickers, quote);
    SyncPricesShape(book, tickers, quote, fmt, now);
    NewRowsAt(m, tickers, quote, fmt, now);
    RowsAfter(p.table, NewRows(added, quote, fmt, now), added, quote, fmt, now);
  }

  /** The rows of `added` placed after a table sit at their positions past its end. */
  lemma RowsAfter(front: Table, rows: seq<Row>, added: seq<string>,
                  quote: string -> Option<Quote>, fmt: real -> string, now: string)
    requires |rows| == |added|
    requires forall k :: 0 <= k < |added| ==> Fetched(added[k], quote) && rows[k] == RowFor(added[k], quote, fmt, now)
    ensures forall k :: 0 <= k < |added| ==>
      |front| + k < |front + rows| && (front + rows)[|front| + k] == RowFor(added[k], quote, fmt, now)
  {
  }

  /** The order the calls of a writing part come in, all to the 주가 sheet
      and none a single-row append: the sheet's creation first exactly when
      it was `missing`, then row updates, and a batch append last exactly
      when rows were `appended`. */
  ghost predicate CallOrder(missing: bool, appended: bool, calls: seq<Call>)
  {
    && (forall c :: c in calls ==> c.title == PriceSheet && !c.AppendRow?)
    && (missing <==> |calls| > 0 && calls[0].AddSheet?)
    && (forall j :: 0 < j < |calls| ==> !calls[j].AddSheet?)
    && (forall j :: 0 <= j < |calls| - 1 ==> !calls[j].AppendRows?)
    && (appended <==> |calls| > 0 && calls[|calls| - 1].AppendRows?)
  }

  /** An optional creation, then updates, then an optional batch append come in that order. */
  lemma CallsLayout(missing: bool, created: seq<Call>, ups: seq<Call>, tail: seq<Call>)
    requires missing ==> created == [AddSheet(PriceSheet, PriceHeader)]
    requires !missing ==> created == []
    requires forall j :: 0 <= j < |ups| ==> ups[j].UpdateRow? && ups[j].title == PriceSheet
    requires |tail| <= 1 && forall c :: c in tail ==> c.AppendRows? && c.title == PriceSheet
    ensures CallOrder(missing, tail != [], created + ups + tail)
  {
    var calls := created + ups + tail;
    forall j | 0 <= j < |calls|
      ensures calls[j].title == PriceSheet && !calls[j].AppendRow?
      ensures j > 0 ==> !calls[j].AddSheet?
      ensures j < |calls| - 1 ==> !calls[j].AppendRows?
    {
      if j < |created| {
        assert calls[j] == created[j];
      } else if j < |created| + |ups| {
        assert calls[j] == ups[j - |created|];
      } else {
        assert calls[j] == tail[j - |created| - |ups|];
      }
    }
    if tail != [] {
      assert calls[|calls| - 1] == tail[0];
    } else if |calls| > 0 {
      assert calls[|calls| - 1] in created + ups;
    }
    if |calls| > 0 && !missing {
      assert !calls[0].AddSheet? by {
        if |ups| > 0 { assert calls[0] == ups[0]; } else { assert calls[0] == tail[0]; }
      }
    }
  }

  /** The calls of the writing part come in that order, with the creation
      exactly when the sheet was missing and the batch append exactly when
      some symbol is new. */
  lemma SyncPricesCalls(book: Workbook, tickers: seq<string>, quote: string -> Option<Quote>, fmt: real -> string, now: string)
    ensures CallOrder(PriceSheet !in book, NewTickers(RowMapOf(PriceData(book)), tickers, quote) != [],
                      SyncPrices(book, tickers, quote, fmt, now).calls)
  {
    var data := PriceData(book);
    var m := RowMapOf(data);
    var created := Created(book);
    var start := Progress(data, created);
    var p := UpsertAll(start, m, tickers, quote, fmt, now);
    var added := NewTickers(m, tickers, quote);
    var rows := NewRows(added, quote, fmt, now);
    SyncPricesShape(book, tickers, quote, fmt, now);
    NewRowsAt(m, tickers, quote, fmt, now);
    UpsertAllCalls(start, m, tickers, quote, fmt, now);
    var ups := p.calls[|created|..];
    var tail := if rows != [] then [AppendRows(PriceSheet, rows)] else [];
    assert p.calls == created + ups;
    CallsLayout(PriceSheet !in book, created, ups, tail);
  }

  /** Replaying the sheet's creation and the in-place updates on the old
      workbook gives the workbook with the updated table. */
  lemma UpsertsReplay(book: Workbook, tickers: seq<string>, quote: string -> Option<Quote>, fmt: real -> string, now: string)
    ensures var data := PriceData(book);
      var p := UpsertAll(Progress(data, Created(book)), RowMapOf(data), tickers, quote, fmt, now);
      Replay(book, p.calls) == Some(book[PriceSheet := p.table])
  {
    var data := PriceData(book);
    var created := Created(book);
    var start := Progress(data, created);
    var p := UpsertAll(start, RowMapOf(data), tickers, quote, fmt, now);
    UpsertAllReplays(book, start, RowMapOf(data), tickers, quote, fmt, now);
    UpsertAllCalls(start, RowMapOf(data), tickers, quote, fmt, now);
    assert p.calls == created + p.calls[|created|..];
    ReplayConcat(book, created, p.calls[|created|..]);
    if PriceSheet in book {
      assert book[PriceSheet := data] == book;
    } else {
      ReplayOne(book, created[0]);
    }
  }

  /** Replaying the calls of the writing part on the old workbook gives the
      new one: the log of calls and the workbook agree. */
  lemma SyncPricesReplays(book: Workbook, tickers: seq<string>, quote: string -> Option<Quote>, fmt: real -> string, now: string)
    ensures var r := SyncPrices(book, tickers, quote, fmt, now);
      Replay(book, r.calls) == Some(r.book)
  {
    var r := SyncPrices(book, tickers, quote, fmt, now);
    var data := PriceData(book);
    var m := RowMapOf(data);
    var p := UpsertAll(Progress(data, Created(book)), m, tickers, quote, fmt, now);
    var rows := NewRows(NewTickers(m, tickers, quote), quote, fmt, now);
    SyncPricesShape(book, tickers, quote, fmt, now);
    UpsertsReplay(book, tickers, quote, fmt, now);
    if rows != [] {
      var c := AppendRows(PriceSheet, rows);
      ReplayConcat(book, p.calls, [c]);
      ReplayOne(book[PriceSheet := p.table], c);
      assert book[PriceSheet := p.table][PriceSheet := p.table + rows] == r.book;
    } else {
      assert p.calls + [] == p.calls;
      assert p.table + rows == p.table;
    }
  }
}
