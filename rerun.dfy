/** Running the price phase twice in a row with the same quotes: the
    second run appends nothing and changes only the timestamp column. This
    holds when the 주가 sheet is missing or has a first row whose Ticker
    header, if any, is in column A. It fails for a Ticker header in another
    column: rows are then indexed by that column while every write puts the
    symbol in column A, so each run appends every symbol again. It also fails
    for a 주가 sheet that exists with no rows: the first appended row lands in
    row 1, so the next run reads it as the header and appends its symbol again. */
module Rerun {
  import opened Sheet
  import opened Market
  import opened PriceSync

  /** Column E, where the update time goes. */
  const TimeColumn: nat := 4

  /** Two rows alike in every cell but the update time. */
  predicate SameButTime(r1: Row, r2: Row)
  {
    |r1| == |r2| && forall j :: 0 <= j < |r1| && j != TimeColumn ==> r1[j] == r2[j]
  }

  /** The listed, fetched symbol whose indexed row is 0-based row `i`, if any. */
  function Writer(i: nat, m: map<string, nat>, tickers: seq<string>, quote: string -> Option<Quote>): Option<string>
    decreases |tickers|
  {
    if tickers == [] then None
    else
      var t := tickers[|tickers| - 1];
      if t in m && m[t] == i + 1 && Fetched(t, quote) then Some(t)
      else Writer(i, m, tickers[..|tickers| - 1], quote)
  }

  /** A row's writer is a listed, fetched symbol indexed at that row. */
  lemma {:induction false} WriterSound(i: nat, m: map<string, nat>, tickers: seq<string>, quote: string -> Option<Quote>)
    ensures var w := Writer(i, m, tickers, quote);
      w.Some? ==> w.value in tickers && w.value in m && m[w.value] == i + 1 && Fetched(w.value, quote)
    decreases |tickers|
  {
    if tickers != [] {
      WriterSound(i, m, tickers[..|tickers| - 1], quote);
    }
  }

  /** With one symbol per row, every listed, fetched, indexed symbol is its row's writer. */
  lemma {:induction false} WriterComplete(m: map<string, nat>, tickers: seq<string>, quote: string -> Option<Quote>, u: string)
    requires Injective(m) && u in tickers && u in m && Fetched(u, quote) && m[u] >= 1
    ensures Writer(m[u] - 1, m, tickers, quote) == Some(u)
    decreases |tickers|
  {
    var t := tickers[|tickers| - 1];
    if !(t in m && m[t] == m[u] && Fetched(t, quote)) {
      assert u in tickers[..|tickers| - 1] by {
        assert tickers == tickers[..|tickers| - 1] + [t];
      }
      WriterComplete(m, tickers[..|tickers| - 1], quote, u);
    }
  }

  /** Row `r` after the in-place pass, given its writer. */
  function Rewritten(r: Row, w: Option<string>, quote: string -> Option<Quote>, fmt: real -> string, now: string): Row
  {
    if w.Some? && Fetched(w.value, quote) then OverwritePrefix(r, RowFor(w.value, quote, fmt, now)) else r
  }

  /** What one writing part does to the 주가 sheet, cut loose from the
      workbook: `d1` is `d0` with the indexed rows of the listed, fetched
      symbols overwritten from column A on, then the new symbols' rows. */
  ghost predicate AfterRun(d0: Table, d1: Table, m: map<string, nat>, tickers: seq<string>,
                           quote: string -> Option<Quote>, fmt: real -> string, now: string)
  {
    && (forall k :: k in m ==> 2 <= m[k] <= |d0|)
    && |d0| <= |d1|
    && d1[|d0|..] == NewRows(NewTickers(m, tickers, quote), quote, fmt, now)
    && forall i :: 0 <= i < |d0| ==> d1[i] == Rewritten(d0[i], Writer(i, m, tickers, quote), quote, fmt, now)
  }

  /** The writing part of the price phase does what AfterRun describes. */
  lemma RunShape(book: Workbook, tickers: seq<string>, quote: string -> Option<Quote>, fmt: real -> string, now: string)
    ensures var d0 := PriceData(book);
      AfterRun(d0, SyncPrices(book, tickers, quote, fmt, now).book[PriceSheet], RowMapOf(d0), tickers, quote, fmt, now)
  {
    var d0 := PriceData(book);
    var m := RowMapOf(d0);
    var p := UpsertAll(Progress(d0, Created(book)), m, tickers, quote, fmt, now);
    var rows := NewRows(NewTickers(m, tickers, quote), quote, fmt, now);
    var d1 := SyncPrices(book, tickers, quote, fmt, now).book[PriceSheet];
    SyncPricesShape(book, tickers, quote, fmt, now);
    assert d1 == p.table + rows;
    assert (p.table + rows)[|d0|..] == rows;
    forall i | 0 <= i < |d0|
      ensures d1[i] == Rewritten(d0[i], Writer(i, m, tickers, quote), quote, fmt, now)
    {
      RowAfterRun(book, tickers, quote, fmt, now, i);
    }
  }

  /** Row `i` of the 주가 sheet after the writing part, given its writer. */
  lemma RowAfterRun(book: Workbook, tickers: seq<string>, quote: string -> Option<Quote>, fmt: real -> string, now: string, i: nat)
    requires i < |PriceData(book)|
    ensures var d0 := PriceData(book);
      var d1 := SyncPrices(book, tickers, quote, fmt, now).book[PriceSheet];
      i < |d1| && d1[i] == Rewritten(d0[i], Writer(i, RowMapOf(d0), tickers, quote), quote, fmt, now)
  {
    var d0 := PriceData(book);
    var m := RowMapOf(d0);
    WriterSound(i, m, tickers, quote);
    var w := Writer(i, m, tickers, quote);
    if w.Some? {
      SyncPricesUpdates(book, tickers, quote, fmt, now);
    } else {
      SyncPricesKeeps(book, tickers, quote, fmt, now);
      if Refreshed(i, m, tickers, quote) {
        var u :| u in tickers && u in m && m[u] == i + 1 && Fetched(u, quote);
        WriterComplete(m, tickers, quote, u);
        assert false;
      }
    }
  }

  /** Every data row long enough to hold the key names a symbol of the index. */
  lemma IndexHolds(t: Table, i: nat)
    requires 1 <= i < |t| && |t[i]| > KeyColumn(t[0])
    ensures t[i][KeyColumn(t[0])] in RowMapOf(t)
  {
    var rows, c := t[1..], KeyColumn(t[0]);
    RowIndexComplete(rows, c);
    assert rows[i - 1] == t[i];
  }

  /** No row after a symbol's indexed row holds that symbol. */
  lemma IndexIsLast(t: Table, k: string, i: nat)
    requires k in RowMapOf(t) && RowMapOf(t)[k] - 1 < i < |t| && |t[i]| > KeyColumn(t[0])
    ensures t[i][KeyColumn(t[0])] != k
  {
    var rows, c := t[1..], KeyColumn(t[0]);
    RowIndexLastOccurrence(rows, c);
    assert rows[i - 1] == t[i];
  }

  /** A row written for `u` holds `u` in column A and is five cells long;
      a row overwritten from column A on with it starts with those cells. */
  lemma KeyOfRow(r: Row, u: string, quote: string -> Option<Quote>, fmt: real -> string, now: string)
    requires Fetched(u, quote)
    ensures RowFor(u, quote, fmt, now)[0] == u && |RowFor(u, quote, fmt, now)| == 5
    ensures |OverwritePrefix(r, RowFor(u, quote, fmt, now))| >= 5
    ensures OverwritePrefix(r, RowFor(u, quote, fmt, now))[..5] == RowFor(u, quote, fmt, now)
  {
    var w := OverwritePrefix(r, RowFor(u, quote, fmt, now));
    assert forall j :: 0 <= j < 5 ==> w[j] == RowFor(u, quote, fmt, now)[j];
  }

  /** Row `k` of the batch is the row of the k-th appended symbol, which was not indexed. */
  lemma AppendedRow(d0: Table, d1: Table, m: map<string, nat>, tickers: seq<string>,
                    quote: string -> Option<Quote>, fmt: real -> string, now: string, i: nat)
    requires AfterRun(d0, d1, m, tickers, quote, fmt, now) && |d0| <= i < |d1|
    ensures var added := NewTickers(m, tickers, quote);
      && i - |d0| < |added| && Fetched(added[i - |d0|], quote) && added[i - |d0|] !in m
      && d1[i] == RowFor(added[i - |d0|], quote, fmt, now)
  {
    NewRowsAt(m, tickers, quote, fmt, now);
    assert d1[i] == d1[|d0|..][i - |d0|];
  }

  /** A symbol is appended exactly when it is listed, fetched and not yet indexed. */
  lemma AppendedIff(m: map<string, nat>, tickers: seq<string>, quote: string -> Option<Quote>, t: string)
    ensures t in NewTickers(m, tickers, quote) <==> t in tickers && Fetched(t, quote) && t !in m
  {
    NewTickersCount(m, tickers, quote);
    assert multiset(NewTickers(m, tickers, quote))[t] > 0 <==> t in NewTickers(m, tickers, quote);
    assert multiset(tickers)[t] > 0 <==> t in tickers;
  }

  /** The key, in column A, of row `i` after the run: the writer's symbol
      for a rewritten row, the old key otherwise. */
  lemma KeyAfter(d0: Table, d1: Table, m: map<string, nat>, tickers: seq<string>,
                 quote: string -> Option<Quote>, fmt: real -> string, now: string, i: nat)
    requires AfterRun(d0, d1, m, tickers, quote, fmt, now) && i < |d0|
    ensures var w := Writer(i, m, tickers, quote);
      && (w.Some? ==> w.value in m && m[w.value] == i + 1 && |d1[i]| >= 5 && d1[i][0] == w.value)
      && (w.None? ==> d1[i] == d0[i])
  {
    WriterSound(i, m, tickers, quote);
    var w := Writer(i, m, tickers, quote);
    if w.Some? {
      KeyOfRow(d0[i], w.value, quote, fmt, now);
      assert d1[i][..5][0] == w.value;
    }
  }

  /** The run leaves the header row alone. */
  lemma HeaderKept(d0: Table, d1: Table, m: map<string, nat>, tickers: seq<string>,
                   quote: string -> Option<Quote>, fmt: real -> string, now: string)
    requires |d0| >= 1 && AfterRun(d0, d1, m, tickers, quote, fmt, now)
    ensures |d1| >= 1 && d1[0] == d0[0]
  {
    KeyAfter(d0, d1, m, tickers, quote, fmt, now, 0);
  }

  /** After the run, no row below the indexed row of an indexed symbol holds it. */
  lemma NoLaterRow(d0: Table, d1: Table, tickers: seq<string>,
                   quote: string -> Option<Quote>, fmt: real -> string, now: string, t: string, i: nat)
    requires |d0| >= 1 && KeyColumn(d0[0]) == 0
    requires AfterRun(d0, d1, RowMapOf(d0), tickers, quote, fmt, now)
    requires t in RowMapOf(d0) && RowMapOf(d0)[t] - 1 < i < |d1| && |d1[i]| > 0
    ensures d1[i][0] != t
  {
    var m := RowMapOf(d0);
    if i < |d0| {
      KeyAfter(d0, d1, m, tickers, quote, fmt, now, i);
      if Writer(i, m, tickers, quote).None? {
        IndexIsLast(d0, t, i);
      }
    } else {
      AppendedRow(d0, d1, m, tickers, quote, fmt, now, i);
      KeyOfRow([], NewTickers(m, tickers, quote)[i - |d0|], quote, fmt, now);
    }
  }

  /** After the run, a symbol that was not indexed is in none of the old data rows. */
  lemma OnlyAppendedRows(d0: Table, d1: Table, tickers: seq<string>,
                         quote: string -> Option<Quote>, fmt: real -> string, now: string, t: string, i: nat)
    requires |d0| >= 1 && KeyColumn(d0[0]) == 0
    requires AfterRun(d0, d1, RowMapOf(d0), tickers, quote, fmt, now)
    requires t !in RowMapOf(d0) && 1 <= i < |d0| && |d1[i]| > 0
    ensures d1[i][0] != t
  {
    var m := RowMapOf(d0);
    KeyAfter(d0, d1, m, tickers, quote, fmt, now, i);
    if Writer(i, m, tickers, quote).None? {
      IndexHolds(d0, i);
    }
  }

  /** Symbol `t` is indexed in `m` at a row of `d1` that starts with what a
      run at `now1` writes for it. */
  ghost predicate WrittenFor(d1: Table, m: map<string, nat>, t: string,
                             quote: string -> Option<Quote>, fmt: real -> string, now1: string)
  {
    Fetched(t, quote) && t in m && 1 <= m[t] <= |d1| && |d1[m[t] - 1]| >= 5 && d1[m[t] - 1][..5] == RowFor(t, quote, fmt, now1)
  }

  /** After the first run, every listed symbol whose fetch succeeds is in
      the index the next run builds, and the row it points to starts with
      what the first run wrote for it in columns A to E. */
  lemma IndexedAfterRun(d0: Table, d1: Table, tickers: seq<string>,
                        quote: string -> Option<Quote>, fmt: real -> string, now: string, t: string)
    requires |d0| >= 1 && KeyColumn(d0[0]) == 0
    requires AfterRun(d0, d1, RowMapOf(d0), tickers, quote, fmt, now)
    requires t in tickers && Fetched(t, quote)
    ensures KeyColumn(d1[0]) == 0 && WrittenFor(d1, RowMapOf(d1), t, quote, fmt, now)
  {
    HeaderKept(d0, d1, RowMapOf(d0), tickers, quote, fmt, now);
    if t in RowMapOf(d0) {
      IndexedKnown(d0, d1, tickers, quote, fmt, now, t);
    } else {
      IndexedNew(d0, d1, tickers, quote, fmt, now, t);
    }
  }

  /** A symbol the sheet already had keeps its index entry. */
  lemma KnownStays(d0: Table, d1: Table, tickers: seq<string>,
                   quote: string -> Option<Quote>, fmt: real -> string, now: string, t: string)
    requires |d0| >= 1 && KeyColumn(d0[0]) == 0 && |d1| >= 1 && KeyColumn(d1[0]) == 0
    requires AfterRun(d0, d1, RowMapOf(d0), tickers, quote, fmt, now)
    requires t in tickers && Fetched(t, quote) && t in RowMapOf(d0)
    ensures t in RowMapOf(d1) && RowMapOf(d1)[t] == RowMapOf(d0)[t]
  {
    var m := RowMapOf(d0);
    var j := m[t] - 1;
    WriterComplete(m, tickers, quote, t);
    KeyAfter(d0, d1, m, tickers, quote, fmt, now, j);
    IndexHolds(d1, j);
    var i := RowMapOf(d1)[t] - 1;
    IndexedRow(d1, t);
    if i < j {
      IndexIsLast(d1, t, j);
      assert false;
    }
    if j < i {
      NoLaterRow(d0, d1, tickers, quote, fmt, now, t, i);
      assert false;
    }
  }

  /** IndexedAfterRun for a symbol the sheet already had: its row was rewritten in place. */
  lemma IndexedKnown(d0: Table, d1: Table, tickers: seq<string>,
                     quote: string -> Option<Quote>, fmt: real -> string, now: string, t: string)
    requires |d0| >= 1 && KeyColumn(d0[0]) == 0 && |d1| >= 1 && KeyColumn(d1[0]) == 0
    requires AfterRun(d0, d1, RowMapOf(d0), tickers, quote, fmt, now)
    requires t in tickers && Fetched(t, quote) && t in RowMapOf(d0)
    ensures WrittenFor(d1, RowMapOf(d1), t, quote, fmt, now)
  {
    var m := RowMapOf(d0);
    var j := m[t] - 1;
    KnownStays(d0, d1, tickers, quote, fmt, now, t);
    WriterComplete(m, tickers, quote, t);
    RewrittenFor(d0, d1, m, tickers, quote, fmt, now, j, t);
    KeyOfRow(d0[j], t, quote, fmt, now);
  }

  /** A row whose writer is `u` is overwritten with `u`'s cells. */
  lemma RewrittenFor(d0: Table, d1: Table, m: map<string, nat>, tickers: seq<string>,
                     quote: string -> Option<Quote>, fmt: real -> string, now: string, j: nat, u: string)
    requires AfterRun(d0, d1, m, tickers, quote, fmt, now)
    requires j < |d0| && Writer(j, m, tickers, quote) == Some(u) && Fetched(u, quote)
    ensures j < |d1| && d1[j] == OverwritePrefix(d0[j], RowFor(u, quote, fmt, now))
  {
  }

  /** The row the index gives a symbol holds it, in column A when that is the key column. */
  lemma IndexedRow(d: Table, t: string)
    requires |d| >= 1 && KeyColumn(d[0]) == 0 && t in RowMapOf(d)
    ensures 1 <= RowMapOf(d)[t] - 1 < |d| && |d[RowMapOf(d)[t] - 1]| > 0 && d[RowMapOf(d)[t] - 1][0] == t
  {
  }

  /** A symbol the run appended is in the index the next run builds. */
  lemma NewIndexed(d0: Table, d1: Table, tickers: seq<string>,
                   quote: string -> Option<Quote>, fmt: real -> string, now: string, t: string)
    requires |d0| >= 1 && KeyColumn(d0[0]) == 0 && |d1| >= 1 && KeyColumn(d1[0]) == 0
    requires AfterRun(d0, d1, RowMapOf(d0), tickers, quote, fmt, now)
    requires t in tickers && Fetched(t, quote) && t !in RowMapOf(d0)
    ensures t in RowMapOf(d1)
  {
    var m := RowMapOf(d0);
    AppendedIff(m, tickers, quote, t);
    var added := NewTickers(m, tickers, quote);
    var k :| 0 <= k < |added| && added[k] == t;
    NewRowsAt(m, tickers, quote, fmt, now);
    AppendedRow(d0, d1, m, tickers, quote, fmt, now, |d0| + k);
    KeyOfRow([], t, quote, fmt, now);
    IndexHolds(d1, |d0| + k);
  }

  /** ... and its index entry is one of the appended rows. */
  lemma NewIndexedLate(d0: Table, d1: Table, tickers: seq<string>,
                       quote: string -> Option<Quote>, fmt: real -> string, now: string, t: string)
    requires |d0| >= 1 && KeyColumn(d0[0]) == 0 && |d1| >= 1 && KeyColumn(d1[0]) == 0
    requires AfterRun(d0, d1, RowMapOf(d0), tickers, quote, fmt, now)
    requires t !in RowMapOf(d0) && t in RowMapOf(d1)
    ensures RowMapOf(d1)[t] > |d0|
  {
    var i := RowMapOf(d1)[t] - 1;
    IndexedRow(d1, t);
    if i < |d0| {
      OnlyAppendedRows(d0, d1, tickers, quote, fmt, now, t, i);
      assert false;
    }
  }

  /** IndexedAfterRun for a symbol the run appended: its index entry is its last appended row. */
  lemma IndexedNew(d0: Table, d1: Table, tickers: seq<string>,
                   quote: string -> Option<Quote>, fmt: real -> string, now: string, t: string)
    requires |d0| >= 1 && KeyColumn(d0[0]) == 0 && |d1| >= 1 && KeyColumn(d1[0]) == 0
    requires AfterRun(d0, d1, RowMapOf(d0), tickers, quote, fmt, now)
    requires t in tickers && Fetched(t, quote) && t !in RowMapOf(d0)
    ensures WrittenFor(d1, RowMapOf(d1), t, quote, fmt, now)
  {
    var m := RowMapOf(d0);
    NewIndexed(d0, d1, tickers, quote, fmt, now, t);
    NewIndexedLate(d0, d1, tickers, quote, fmt, now, t);
    IndexedRow(d1, t);
    var i := RowMapOf(d1)[t] - 1;
    AppendedRow(d0, d1, m, tickers, quote, fmt, now, i);
    var u := NewTickers(m, tickers, quote)[i - |d0|];
    KeyOfRow([], u, quote, fmt, now);
    KeyOfRow([], t, quote, fmt, now);
  }

  /** The rows a run writes for one symbol at two times differ only in the time. */
  lemma RowsDifferInTime(t: string, quote: string -> Option<Quote>, fmt: real -> string, now1: string, now2: string)
    requires Fetched(t, quote)
    ensures SameButTime(RowFor(t, quote, fmt, now1), RowFor(t, quote, fmt, now2))
  {
  }

  /** Overwriting columns A to E of a row with cells that differ from those
      already there only in the time changes only the time. */
  lemma RewriteTime(r: Row, a: Row, b: Row)
    requires |r| >= 5 && r[..5] == a && |b| == 5 && SameButTime(a, b)
    ensures SameButTime(OverwritePrefix(r, b), r)
  {
    assert forall j :: 0 <= j < 5 ==> r[j] == a[j];
  }

  /** A row rewritten for a symbol whose cells an earlier run wrote there
      differs from what it was only in the time; a row nobody writes stays. */
  lemma RowRerun(r: Row, w: Option<string>, quote: string -> Option<Quote>, fmt: real -> string, now1: string, now2: string)
    requires w.Some? && Fetched(w.value, quote) ==> |r| >= 5 && r[..5] == RowFor(w.value, quote, fmt, now1)
    ensures SameButTime(Rewritten(r, w, quote, fmt, now2), r)
  {
    if w.Some? && Fetched(w.value, quote) {
      var u := w.value;
      RowsDifferInTime(u, quote, fmt, now1, now2);
      KeyOfRow([], u, quote, fmt, now2);
      RewriteTime(r, RowFor(u, quote, fmt, now1), RowFor(u, quote, fmt, now2));
    }
  }

  /** The condition SecondRun starts from: every listed, fetched symbol is
      indexed in `m` at a row of `d1` starting with what a run at `now1` wrote. */
  ghost predicate WrittenAt(d1: Table, m: map<string, nat>, tickers: seq<string>,
                            quote: string -> Option<Quote>, fmt: real -> string, now1: string)
  {
    forall t :: t in tickers && Fetched(t, quote) ==> WrittenFor(d1, m, t, quote, fmt, now1)
  }

  /** A run over a sheet in which every listed, fetched symbol is indexed
      at a row starting with what an earlier run wrote for it appends
      nothing and changes only the update times. */
  lemma SecondRun(d1: Table, d2: Table, m: map<string, nat>, tickers: seq<string>,
                  quote: string -> Option<Quote>, fmt: real -> string, now1: string, now2: string)
    requires AfterRun(d1, d2, m, tickers, quote, fmt, now2)
    requires WrittenAt(d1, m, tickers, quote, fmt, now1)
    ensures NewTickers(m, tickers, quote) == [] && |d2| == |d1|
    ensures forall i :: 0 <= i < |d1| ==> SameButTime(d2[i], d1[i])
  {
    NothingAppended(d1, d2, m, tickers, quote, fmt, now1, now2);
    forall i | 0 <= i < |d1|
      ensures SameButTime(d2[i], d1[i])
    {
      RowOfSecondRun(d1, m, tickers, quote, fmt, now1, now2, i);
    }
  }

  /** SecondRun appends no row. */
  lemma NothingAppended(d1: Table, d2: Table, m: map<string, nat>, tickers: seq<string>,
                        quote: string -> Option<Quote>, fmt: real -> string, now1: string, now2: string)
    requires AfterRun(d1, d2, m, tickers, quote, fmt, now2)
    requires WrittenAt(d1, m, tickers, quote, fmt, now1)
    ensures NewTickers(m, tickers, quote) == [] && |d2| == |d1|
  {
    var added := NewTickers(m, tickers, quote);
    if added != [] {
      AppendedIff(m, tickers, quote, added[0]);
    }
    NewRowsAt(m, tickers, quote, fmt, now2);
  }

  /** Row `i` in SecondRun differs only in the time. */
  lemma RowOfSecondRun(d1: Table, m: map<string, nat>, tickers: seq<string>,
                       quote: string -> Option<Quote>, fmt: real -> string, now1: string, now2: string, i: nat)
    requires WrittenAt(d1, m, tickers, quote, fmt, now1) && i < |d1|
    ensures SameButTime(Rewritten(d1[i], Writer(i, m, tickers, quote), quote, fmt, now2), d1[i])
  {
    WriterSound(i, m, tickers, quote);
    RowRerun(d1[i], Writer(i, m, tickers, quote), quote, fmt, now1, now2);
  }

  /** After one writing part over a sheet keyed by its first column, the
      sheet is in the state SecondRun starts from. */
  lemma WrittenAfterRun(d0: Table, d1: Table, tickers: seq<string>,
                        quote: string -> Option<Quote>, fmt: real -> string, now1: string)
    requires |d0| >= 1 && KeyColumn(d0[0]) == 0
    requires AfterRun(d0, d1, RowMapOf(d0), tickers, quote, fmt, now1)
    ensures WrittenAt(d1, RowMapOf(d1), tickers, quote, fmt, now1)
  {
    var m1 := RowMapOf(d1);
    forall t | t in tickers && Fetched(t, quote)
      ensures WrittenFor(d1, m1, t, quote, fmt, now1)
    {
      IndexedAfterRun(d0, d1, tickers, quote, fmt, now1, t);
    }
  }

  /** Two writing parts in a row over a sheet keyed by its first column:
      the second appends nothing and changes only the update times. */
  lemma TwoRuns(d0: Table, d1: Table, d2: Table, tickers: seq<string>,
                quote: string -> Option<Quote>, fmt: real -> string, now1: string, now2: string)
    requires |d0| >= 1 && KeyColumn(d0[0]) == 0
    requires AfterRun(d0, d1, RowMapOf(d0), tickers, quote, fmt, now1)
    requires AfterRun(d1, d2, RowMapOf(d1), tickers, quote, fmt, now2)
    ensures NewTickers(RowMapOf(d1), tickers, quote) == [] && |d2| == |d1|
    ensures forall i :: 0 <= i < |d1| ==> SameButTime(d2[i], d1[i])
  {
    var m1 := RowMapOf(d1);
    WrittenAfterRun(d0, d1, tickers, quote, fmt, now1);
    SecondRun(d1, d2, m1, tickers, quote, fmt, now1, now2);
  }

  /** Two runs of the writing part in a row, with the same symbols and the
      same quotes, when the 주가 sheet is missing or keyed by its first
      column: the second run appends no row, and every row it leaves differs
      from the first run's at most in column E. */
  lemma RerunOnlyTouchesTime(book: Workbook, tickers: seq<string>, quote: string -> Option<Quote>,
                             fmt: real -> string, now1: string, now2: string)
    requires PriceSheet !in book || (|book[PriceSheet]| >= 1 && KeyColumn(book[PriceSheet][0]) == 0)
    ensures var b1 := SyncPrices(book, tickers, quote, fmt, now1).book;
      var d1 := b1[PriceSheet];
      var d2 := SyncPrices(b1, tickers, quote, fmt, now2).book[PriceSheet];
      && NewTickers(RowMapOf(d1), tickers, quote) == []
      && |d2| == |d1|
      && forall i :: 0 <= i < |d1| ==> SameButTime(d2[i], d1[i])
  {
    var d0 := PriceData(book);
    var b1 := SyncPrices(book, tickers, quote, fmt, now1).book;
    assert KeyColumn(d0[0]) == 0;
    RunShape(book, tickers, quote, fmt, now1);
    RunShape(b1, tickers, quote, fmt, now2);
    assert PriceData(b1) == b1[PriceSheet];
    TwoRuns(d0, b1[PriceSheet], SyncPrices(b1, tickers, quote, fmt, now2).book[PriceSheet], tickers, quote, fmt, now1, now2);
  }
}
