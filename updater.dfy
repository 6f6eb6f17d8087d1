/** The updater process: a connection to the workbook that may be missing,
    and the log of every write request sent over it. Each update method
    walks the sheets the way the program does, sending its writes one at a
    time, and is proved to end in the state the phase functions describe. */
module Updater {
  import opened Sheet
  import opened Market
  import opened PriceSync
  import opened FxSync

  class Updater {
    /** The open workbook, or None when connecting failed. */
    var gsheet: Option<Workbook>
    /** Every write request sent so far, oldest first. */
    var sent: seq<Call>

    constructor (connection: Option<Workbook>)
      ensures gsheet == connection && sent == []
    {
      gsheet := connection;
      sent := [];
    }

    /** Send one write request; the store carries it out. */
    method Send(c: Call)
      requires gsheet.Some? && Applicable(gsheet.value, c)
      modifies this
      ensures gsheet == Some(Apply(old(gsheet.value), c))
      ensures sent == old(sent) + [c]
    {
      gsheet := Some(Apply(gsheet.value, c));
      sent := sent + [c];
    }

    /** update_stock_prices: nothing happens without a connection;
        otherwise the workbook and the log end as PricePhase says. */
    method UpdateStockPrices(fetch: string -> Fetch, fmt: real -> string, now: string)
      returns (outcome: Option<PriceOutcome>)
      modifies this
      ensures old(gsheet).None? ==> outcome.None? && gsheet == old(gsheet) && sent == old(sent)
      ensures old(gsheet).Some? ==>
        var r := PricePhase(old(gsheet).value, fetch, fmt, now);
        outcome == Some(r.outcome) && gsheet == Some(r.book) && sent == old(sent) + r.calls
    {
      if gsheet.None? {
        return None;
      }
      var book := gsheet.value;
      if InfoSheet !in book {
        return Some(InfoSheetMissing);
      }
      var allData := book[InfoSheet];
      if |allData| < 2 {
        return Some(TooFewInfoRows);
      }
      var tickerIdx := TickerColumn(allData[0]);
      if tickerIdx.None? {
        return Some(NoTickerColumn);
      }
      var tickers := CollectTickers(allData[1..], tickerIdx.value);
      if tickers == [] {
        return Some(NoTickers);
      }
      UpsertPrices(book, tickers, QuotesOf(fetch), fmt, now);
      return Some(PricesSynced);
    }

    /** The writing part of update_stock_prices: create the sheet if
        missing, index it, update or queue each symbol, and append the
        queue in one batch when it is not empty. */
    method UpsertPrices(book: Workbook, tickers: seq<string>, quote: string -> Option<Quote>, fmt: real -> string, now: string)
      requires gsheet == Some(book)
      modifies this
      ensures var s := SyncPrices(book, tickers, quote, fmt, now);
        gsheet == Some(s.book) && sent == old(sent) + s.calls
    {
      ghost var sent0 := sent;
      CreatePriceSheet(book);
      var priceData := gsheet.value[PriceSheet];
      var rowMap := BuildRowIndex(priceData);
      ghost var start := Progress(priceData, Created(book));
      var updates := UpdateRows(book, sent0, start, rowMap, tickers, quote, fmt, now);
      ghost var p := UpsertAll(start, rowMap, tickers, quote, fmt, now);
      SyncPricesShape(book, tickers, quote, fmt, now);
      AppendQueued(book, p.table, updates);
      assert sent == sent0 + p.calls + (if updates == [] then [] else [AppendRows(PriceSheet, updates)]);
    }

    /** The 주가 sheet is created with its header when it is missing. */
    method CreatePriceSheet(book: Workbook)
      requires gsheet == Some(book)
      modifies this
      ensures gsheet == Some(book[PriceSheet := PriceData(book)]) && sent == old(sent) + Created(book)
    {
      if PriceSheet !in book {
        Send(AddSheet(PriceSheet, PriceHeader));
        assert gsheet.value == book[PriceSheet := [PriceHeader]];
      } else {
        assert book[PriceSheet := book[PriceSheet]] == book;
      }
    }

    /** The queued rows go out in one batch, and only when there are some. */
    method AppendQueued(ghost book: Workbook, ghost table: Table, updates: seq<Row>)
      requires gsheet == Some(book[PriceSheet := table])
      modifies this
      ensures gsheet == Some(book[PriceSheet := table + updates])
      ensures sent == old(sent) + if updates == [] then [] else [AppendRows(PriceSheet, updates)]
    {
      if updates != [] {
        Send(AppendRows(PriceSheet, updates));
        assert book[PriceSheet := table][PriceSheet := table + updates] == book[PriceSheet := table + updates];
      } else {
        assert table + updates == table;
      }
    }

    /** The loop over the symbols: a fetched symbol already in the index has
        its row updated at once, a fetched new one has its row queued, and a
        symbol whose fetch failed is skipped. `quote` is the fetch-and-compute
        step the loop runs for each symbol (QuotesOf of the provider). */
    method UpdateRows(ghost book: Workbook, ghost prefix: seq<Call>, ghost start: Progress, rowMap: map<string, nat>,
                      tickers: seq<string>, quote: string -> Option<Quote>, fmt: real -> string, now: string)
      returns (updates: seq<Row>)
      requires RowsWithin(rowMap, |start.table|)
      requires gsheet == Some(book[PriceSheet := start.table]) && sent == prefix + start.calls
      modifies this
      ensures var p := UpsertAll(start, rowMap, tickers, quote, fmt, now);
        gsheet == Some(book[PriceSheet := p.table]) && sent == prefix + p.calls
      ensures updates == NewRows(NewTickers(rowMap, tickers, quote), quote, fmt, now)
    {
      updates := [];
      for i := 0 to |tickers|
        invariant gsheet == Some(book[PriceSheet := UpsertAll(start, rowMap, tickers[..i], quote, fmt, now).table])
        invariant sent == prefix + UpsertAll(start, rowMap, tickers[..i], quote, fmt, now).calls
        invariant updates == NewRows(NewTickers(rowMap, tickers[..i], quote), quote, fmt, now)
      {
        assert tickers[..i + 1] == tickers[..i] + [tickers[i]];
        updates := UpdateOne(book, prefix, start, rowMap, tickers[..i], tickers[i], quote, fmt, now, updates);
      }
      assert tickers[..|tickers|] == tickers;
    }

    /** One turn of the loop: the row of a fetched symbol already in the
        index is updated in place, that of a fetched new symbol is queued. */
    method UpdateOne(ghost book: Workbook, ghost prefix: seq<Call>, ghost start: Progress, rowMap: map<string, nat>,
                     ghost done: seq<string>, ticker: string, quote: string -> Option<Quote>,
                     fmt: real -> string, now: string, updates: seq<Row>)
      returns (queued: seq<Row>)
      requires RowsWithin(rowMap, |start.table|)
      requires gsheet == Some(book[PriceSheet := UpsertAll(start, rowMap, done, quote, fmt, now).table])
      requires sent == prefix + UpsertAll(start, rowMap, done, quote, fmt, now).calls
      requires updates == NewRows(NewTickers(rowMap, done, quote), quote, fmt, now)
      modifies this
      ensures gsheet == Some(book[PriceSheet := UpsertAll(start, rowMap, done + [ticker], quote, fmt, now).table])
      ensures sent == prefix + UpsertAll(start, rowMap, done + [ticker], quote, fmt, now).calls
      ensures queued == NewRows(NewTickers(rowMap, done + [ticker], quote), quote, fmt, now)
    {
      ghost var p := UpsertAll(start, rowMap, done, quote, fmt, now);
      UpsertAllSnoc(start, rowMap, done, ticker, quote, fmt, now);
      NewTickersSnoc(rowMap, done, ticker, quote);
      queued := updates;
      var q := quote(ticker);
      if q.Some? {
        var rowData := PriceRow(ticker, q.value, fmt, now);
        if ticker in rowMap {
          var c := UpdateRow(PriceSheet, rowMap[ticker], rowData);
          Send(c);
          ghost var t := WriteRow(p.table, rowMap[ticker], rowData);
          assert book[PriceSheet := p.table][PriceSheet := t] == book[PriceSheet := t];
        } else {
          NewRowsSnoc(NewTickers(rowMap, done, quote), ticker, quote, fmt, now);
          queued := queued + [rowData];
        }
      }
    }

    /** update_exchange_rate: nothing happens without a connection;
        otherwise the workbook and the log end as FxPhase says. */
    method UpdateExchangeRate(lookup: string -> Fetch, fmt: real -> string, now: string) returns (connected: bool)
      modifies this
      ensures connected == old(gsheet).Some?
      ensures !connected ==> gsheet == old(gsheet) && sent == old(sent)
      ensures connected ==>
        var r := FxPhase(old(gsheet).value, lookup, fmt, now);
        gsheet == Some(r.book) && sent == old(sent) + r.calls
    {
      if gsheet.None? {
        return false;
      }
      var exchangeRate := LookupRate(lookup);
      WriteRate(gsheet.value, exchangeRate, fmt, now);
      return true;
    }

    /** The writing part of update_exchange_rate: create the sheet if
        missing, find the first pair row, and update it or append one. */
    method WriteRate(book: Workbook, rate: real, fmt: real -> string, now: string)
      requires gsheet == Some(book)
      modifies this
      ensures var r := FxWrite(book, rate, fmt, now);
        gsheet == Some(r.book) && sent == old(sent) + r.calls
    {
      if FxSheet !in book {
        Send(AddSheet(FxSheet, FxHeader));
        assert gsheet.value == book[FxSheet := [FxHeader]];
      } else {
        assert book[FxSheet := book[FxSheet]] == book;
      }
      var allData := gsheet.value[FxSheet];
      assert allData == FxData(book);
      assert gsheet.value == book[FxSheet := allData];
      var usdkrwRow := FindPairRow(allData);
      var rowData := FxRow(rate, fmt, now);
      if usdkrwRow.Some? {
        Send(UpdateRow(FxSheet, usdkrwRow.value, rowData));
        assert gsheet.value == book[FxSheet := WriteRow(allData, usdkrwRow.value, rowData)];
      } else {
        Send(AppendRow(FxSheet, rowData));
        assert gsheet.value == book[FxSheet := allData + [rowData]];
      }
    }

    /** update_all: the price phase, then the exchange-rate phase. */
    method UpdateAll(fetch: string -> Fetch, lookup: string -> Fetch, fmt: real -> string,
                     priceTime: string, fxTime: string)
      modifies this
      ensures old(gsheet).None? ==> gsheet == old(gsheet) && sent == old(sent)
      ensures old(gsheet).Some? ==>
        var c := Cycle(old(gsheet).value, fetch, lookup, fmt, priceTime, fxTime);
        gsheet == Some(c.book) && sent == old(sent) + c.calls
    {
      ghost var book := gsheet;
      ghost var sent0 := sent;
      var _ := UpdateStockPrices(fetch, fmt, priceTime);
      var _ := UpdateExchangeRate(lookup, fmt, fxTime);
      if book.Some? {
        CycleSteps(book.value, fetch, lookup, fmt, priceTime, fxTime, sent0);
      }
    }
  }

  /** Queuing one more fetched symbol queues its row after the others. */
  lemma NewRowsSnoc(ts: seq<string>, t: string, quote: string -> Option<Quote>, fmt: real -> string, now: string)
    requires Fetched(t, quote)
    ensures NewRows(ts + [t], quote, fmt, now) == NewRows(ts, quote, fmt, now) + [RowFor(t, quote, fmt, now)]
  {
    assert (ts + [t])[..|ts|] == ts;
  }

  /** The workbook and the calls of one cycle. */
  datatype CycleResult = CycleResult(book: Workbook, calls: seq<Call>)

  /** One update cycle on a connected workbook: the price phase, then the
      exchange-rate phase on the workbook it left. */
  function Cycle(book: Workbook, fetch: string -> Fetch, lookup: string -> Fetch, fmt: real -> string,
                 priceTime: string, fxTime: string): CycleResult
  {
    var p := PricePhase(book, fetch, fmt, priceTime);
    var f := FxPhase(p.book, lookup, fmt, fxTime);
    CycleResult(f.book, p.calls + f.calls)
  }

  /** A cycle is the price phase followed by the exchange-rate phase on the workbook it left. */
  lemma CycleSteps(book: Workbook, fetch: string -> Fetch, lookup: string -> Fetch, fmt: real -> string,
                   priceTime: string, fxTime: string, prefix: seq<Call>)
    ensures var p := PricePhase(book, fetch, fmt, priceTime);
      var f := FxPhase(p.book, lookup, fmt, fxTime);
      var c := Cycle(book, fetch, lookup, fmt, priceTime, fxTime);
      c.book == f.book && prefix + c.calls == prefix + p.calls + f.calls
  {
    var p := PricePhase(book, fetch, fmt, priceTime);
    var f := FxPhase(p.book, lookup, fmt, fxTime);
    assert prefix + (p.calls + f.calls) == prefix + p.calls + f.calls;
  }

  /** After a cycle the 환율 sheet exists and every sheet other than 주가 and 환율 is as it was. */
  lemma CycleKeepsOthers(book: Workbook, fetch: string -> Fetch, lookup: string -> Fetch, fmt: real -> string,
                         priceTime: string, fxTime: string)
    ensures var c := Cycle(book, fetch, lookup, fmt, priceTime, fxTime);
      && FxSheet in c.book
      && forall s :: s in book && s != PriceSheet && s != FxSheet ==> s in c.book && c.book[s] == book[s]
  {
  }

  /** The whole price phase, early returns included, is replayed by its calls. */
  lemma PricePhaseReplays(book: Workbook, fetch: string -> Fetch, fmt: real -> string, now: string)
    ensures var r := PricePhase(book, fetch, fmt, now);
      Replay(book, r.calls) == Some(r.book)
  {
    var r := PricePhase(book, fetch, fmt, now);
    if r.outcome == PricesSynced {
      var info := book[InfoSheet];
      var tickers := TickerList(info[1..], TickerColumn(info[0]).value);
      SyncPricesReplays(book, tickers, QuotesOf(fetch), fmt, now);
    }
  }

  /** Every write of the price phase goes to the 주가 sheet. */
  lemma PricePhaseTargets(book: Workbook, fetch: string -> Fetch, fmt: real -> string, now: string)
    ensures forall c :: c in PricePhase(book, fetch, fmt, now).calls ==> c.title == PriceSheet
  {
    var r := PricePhase(book, fetch, fmt, now);
    if r.outcome == PricesSynced {
      var info := book[InfoSheet];
      var tickers := TickerList(info[1..], TickerColumn(info[0]).value);
      SyncPricesCalls(book, tickers, QuotesOf(fetch), fmt, now);
    }
  }

  /** A cycle sends all the price writes, to the 주가 sheet, before any
      exchange-rate write, to the 환율 sheet. */
  lemma CycleOrder(book: Workbook, fetch: string -> Fetch, lookup: string -> Fetch, fmt: real -> string,
                   priceTime: string, fxTime: string)
    ensures var p := PricePhase(book, fetch, fmt, priceTime);
      var c := Cycle(book, fetch, lookup, fmt, priceTime, fxTime);
      && |p.calls| < |c.calls| && c.calls[..|p.calls|] == p.calls
      && (forall j :: 0 <= j < |p.calls| ==> c.calls[j].title == PriceSheet)
      && (forall j :: |p.calls| <= j < |c.calls| ==> c.calls[j].title == FxSheet)
  {
    var p := PricePhase(book, fetch, fmt, priceTime);
    var f := FxPhase(p.book, lookup, fmt, fxTime);
    assert Cycle(book, fetch, lookup, fmt, priceTime, fxTime).calls == p.calls + f.calls;
    PricePhaseTargets(book, fetch, fmt, priceTime);
    FxTargets(p.book, FxRate(lookup), fmt, fxTime);
    TitlesSplit(p.calls, f.calls);
  }

  /** Calls to 주가 followed by a non-empty batch of calls to 환율 split at the first batch's length. */
  lemma TitlesSplit(a: seq<Call>, b: seq<Call>)
    requires forall c :: c in a ==> c.title == PriceSheet
    requires b != [] && forall c :: c in b ==> c.title == FxSheet
    ensures var ab := a + b;
      && |a| < |ab| && ab[..|a|] == a
      && (forall j :: 0 <= j < |a| ==> ab[j].title == PriceSheet)
      && (forall j :: |a| <= j < |ab| ==> ab[j].title == FxSheet)
  {
    var ab := a + b;
    assert ab[..|a|] == a;
    forall j | 0 <= j < |a| ensures ab[j].title == PriceSheet {
      assert ab[j] == a[j] && a[j] in a;
    }
    forall j | |a| <= j < |ab| ensures ab[j].title == FxSheet {
      assert ab[j] == b[j - |a|] && b[j - |a|] in b;
    }
  }

  /** The exchange-rate phase leaves the 주가 sheet as the price phase left it. */
  lemma CycleKeepsPrices(book: Workbook, fetch: string -> Fetch, lookup: string -> Fetch, fmt: real -> string,
                         priceTime: string, fxTime: string)
    ensures var p := PricePhase(book, fetch, fmt, priceTime);
      var c := Cycle(book, fetch, lookup, fmt, priceTime, fxTime);
      PriceSheet in p.book ==> PriceSheet in c.book && c.book[PriceSheet] == p.book[PriceSheet]
  {
    assert PriceSheet != FxSheet by {
      assert PriceSheet[0] != FxSheet[0];
    }
  }

  /** Replaying the cycle's calls on the workbook it started from reproduces its workbook. */
  lemma CycleReplays(book: Workbook, fetch: string -> Fetch, lookup: string -> Fetch, fmt: real -> string,
                     priceTime: string, fxTime: string)
    ensures var c := Cycle(book, fetch, lookup, fmt, priceTime, fxTime);
      Replay(book, c.calls) == Some(c.book)
  {
    var p := PricePhase(book, fetch, fmt, priceTime);
    var rate := FxRate(lookup);
    PricePhaseReplays(book, fetch, fmt, priceTime);
    FxReplays(p.book, rate, fmt, fxTime);
    ReplayConcat(book, p.calls, FxPhase(p.book, lookup, fmt, fxTime).calls);
  }
}
