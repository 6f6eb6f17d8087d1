/** The exchange-rate phase of one update cycle, as functions of the
    workbook it starts from: pick the USD/KRW rate, create the 환율 sheet
    if it is missing, then overwrite columns A to C of the first USD/KRW
    row below the header, or append one such row when there is none. */
module FxSync {
  import opened Sheet
  import opened Market

  const FxSheet: string := "환율"
  const FxHeader: Row := ["통화쌍", "환율", "업데이트시간"]
  const Pair: string := "USD/KRW"

  /** A row whose first cell names the currency pair. */
  predicate IsPairRow(row: Row)
  {
    |row| > 0 && row[0] == Pair
  }

  /** The 1-based number of the first pair row at index `i` or later. */
  function PairRowFrom(data: Table, i: nat): (n: Option<nat>)
    ensures n.Some? ==>
              && i < n.value <= |data| && IsPairRow(data[n.value - 1])
              && forall j :: i <= j < n.value - 1 ==> !IsPairRow(data[j])
    ensures n.None? ==> forall j :: i <= j < |data| ==> !IsPairRow(data[j])
    decreases |data| - i
  {
    if i >= |data| then None
    else if IsPairRow(data[i]) then Some(i + 1)
    else PairRowFrom(data, i + 1)
  }

  /** The row number of the first pair row below the header, if any: a pair
      row in the header position is not looked at. */
  function FirstPairRow(data: Table): (n: Option<nat>)
    ensures n.Some? ==>
              && 2 <= n.value <= |data| && IsPairRow(data[n.value - 1])
              && forall j :: 1 <= j < n.value - 1 ==> !IsPairRow(data[j])
    ensures n.None? <==> forall j :: 1 <= j < |data| ==> !IsPairRow(data[j])
  {
    PairRowFrom(data, 1)
  }

  /** The loop that scans the data rows for the pair, stopping at the first. */
  method FindPairRow(data: Table) returns (n: Option<nat>)
    ensures n == FirstPairRow(data)
  {
    n := None;
    var idx := 1;
    while idx < |data|
      invariant 1 <= idx <= |data| || (|data| == 0 && idx == 1)
      invariant PairRowFrom(data, 1) == PairRowFrom(data, idx)
      decreases |data| - idx
    {
      var row := data[idx];
      if |row| > 0 && row[0] == Pair {
        n := Some(idx + 1);
        break;
      }
      idx := idx + 1;
    }
  }

  /** The number of pair rows below the header. */
  function PairCount(data: Table): (c: nat)
    ensures c <= |data|
    ensures c == 0 <==> FirstPairRow(data).None?
    decreases |data|
  {
    if |data| <= 1 then 0
    else
      var init := data[..|data| - 1];
      assert forall j :: 1 <= j < |init| ==> init[j] == data[j];
      PairCount(init) + (if IsPairRow(data[|data| - 1]) then 1 else 0)
  }

  /** The straight-line rate lookup: KRW=X first, USDKRW=X only after an
      empty answer, and 1450.0 when neither answers or a request raises. */
  method LookupRate(lookup: string -> Fetch) returns (rate: real)
    ensures rate == FxRate(lookup)
  {
    var info := lookup("KRW=X");
    if info.Raised? {
      return FallbackRate;
    }
    if info.values == [] {
      info := lookup("USDKRW=X");
      if info.Raised? {
        return FallbackRate;
      }
    }
    if info.values != [] {
      rate := info.values[|info.values| - 1];
    } else {
      rate := FallbackRate;
    }
  }

  /** The 환율 sheet as the phase reads it: created with its fixed header when missing. */
  function FxData(book: Workbook): (data: Table)
    ensures FxSheet !in book ==> data == [FxHeader]
    ensures FxSheet in book ==> data == book[FxSheet]
  {
    if FxSheet in book then book[FxSheet] else [FxHeader]
  }

  /** The call that creates the 환율 sheet, when it is missing. */
  function FxCreated(book: Workbook): seq<Call>
  {
    if FxSheet in book then [] else [AddSheet(FxSheet, FxHeader)]
  }

  /** The store, carrying out the creation call, ends with the 환율 sheet
      the phase reads and every other sheet as it was. */
  lemma FxCreatedReplays(book: Workbook)
    ensures Replay(book, FxCreated(book)) == Some(book[FxSheet := FxData(book)])
  {
    if FxSheet in book {
      assert book[FxSheet := book[FxSheet]] == book;
    } else {
      ReplayOne(book, AddSheet(FxSheet, FxHeader));
    }
  }

  /** The three cells written: pair, rendered rate, timestamp. */
  function FxRow(rate: real, fmt: real -> string, now: string): (row: Row)
    ensures |row| == 3 && IsPairRow(row)
  {
    [Pair, fmt(rate), now]
  }

  datatype FxResult = FxResult(book: Workbook, calls: seq<Call>)

  /** The writing part for a given rate: create the sheet if missing, then
      update the first pair row in place or append one. */
  function FxWrite(book: Workbook, rate: real, fmt: real -> string, now: string): (r: FxResult)
    ensures FxSheet in r.book
    ensures forall s :: s in book && s != FxSheet ==> s in r.book && r.book[s] == book[s]
    ensures r.book.Keys == book.Keys + {FxSheet}
  {
    var created := FxCreated(book);
    var data := FxData(book);
    var row := FxRow(rate, fmt, now);
    match FirstPairRow(data)
    case Some(n) => FxResult(book[FxSheet := WriteRow(data, n, row)], created + [UpdateRow(FxSheet, n, row)])
    case None => FxResult(book[FxSheet := data + [row]], created + [AppendRow(FxSheet, row)])
  }

  /** One run of update_exchange_rate on a connected workbook. */
  function FxPhase(book: Workbook, lookup: string -> Fetch, fmt: real -> string, now: string): (r: FxResult)
    ensures FxSheet in r.book
    ensures forall s :: s in book && s != FxSheet ==> s in r.book && r.book[s] == book[s]
  {
    FxWrite(book, FxRate(lookup), fmt, now)
  }

  /** When the sheet has a pair row below the header, the first one gets
      the pair, the rate and the time in columns A to C, keeps its later
      cells, and no other row changes: the row count and the number of pair
      rows stay the same. */
  lemma FxUpdatesFirst(book: Workbook, rate: real, fmt: real -> string, now: string)
    requires FirstPairRow(FxData(book)).Some?
    ensures var data := FxData(book);
      var n := FirstPairRow(data).value;
      var after := FxWrite(book, rate, fmt, now).book[FxSheet];
      && |after| == |data|
      && after[n - 1] == OverwritePrefix(data[n - 1], FxRow(rate, fmt, now))
      && (forall i :: 0 <= i < |data| && i != n - 1 ==> after[i] == data[i])
      && PairCount(after) == PairCount(data)
  {
    var data := FxData(book);
    var n := FirstPairRow(data).value;
    var after := WriteRow(data, n, FxRow(rate, fmt, now));
    assert FxWrite(book, rate, fmt, now).book[FxSheet] == after;
    PairCountSameShape(data, after);
  }

  /** When it has none, exactly one row is appended and it is the only pair row below the header. */
  lemma FxAppendsOne(book: Workbook, rate: real, fmt: real -> string, now: string)
    requires FirstPairRow(FxData(book)).None?
    ensures var data := FxData(book);
      var after := FxWrite(book, rate, fmt, now).book[FxSheet];
      && after == data + [FxRow(rate, fmt, now)]
      && PairCount(after) == (if |data| == 0 then 0 else 1)
  {
    var data := FxData(book);
    var after := data + [FxRow(rate, fmt, now)];
    assert after[..|after| - 1] == data;
  }

  /** Writing pair rows over pair rows and other rows over other rows keeps the pair count. */
  lemma {:induction false} PairCountSameShape(a: Table, b: Table)
    requires |a| == |b|
    requires forall i :: 0 <= i < |a| ==> (IsPairRow(a[i]) <==> IsPairRow(b[i]))
    ensures PairCount(a) == PairCount(b)
    decreases |a|
  {
    if |a| > 1 {
      PairCountSameShape(a[..|a| - 1], b[..|b| - 1]);
    }
  }

  /** After the phase the sheet has a pair row below the header holding the
      rate in columns A to C, unless it was an existing sheet with no rows
      at all: then the single row appended lands in the header position and
      the next run does not find it. */
  lemma FxPairRowAfter(book: Workbook, rate: real, fmt: real -> string, now: string)
    ensures var data := FxData(book);
      var after := FxWrite(book, rate, fmt, now).book[FxSheet];
      && (|data| > 0 <==> FirstPairRow(after).Some?)
      && (|data| > 0 ==> after[FirstPairRow(after).value - 1][..3] == FxRow(rate, fmt, now))
  {
    var data := FxData(book);
    var row := FxRow(rate, fmt, now);
    var after := FxWrite(book, rate, fmt, now).book[FxSheet];
    match FirstPairRow(data)
    case Some(n) =>
      FxUpdatesFirst(book, rate, fmt, now);
      assert IsPairRow(after[n - 1]);
      assert forall j :: 1 <= j < n - 1 ==> after[j] == data[j];
      assert FirstPairRow(after) == Some(n);
    case None =>
      assert after == data + [row];
      if |data| > 0 {
        assert forall j :: 1 <= j < |data| ==> after[j] == data[j];
        assert IsPairRow(after[|data|]);
        var n := FirstPairRow(after);
        assert n.Some?;
        assert n.value == |after|;
      } else {
        assert after == [row];
      }
  }

  /** The calls of the writing part: the sheet's creation exactly when it
      was missing, then one write to the 환율 sheet, an in-place update of
      the first pair row when there is one and a single-row append otherwise. */
  lemma FxCalls(book: Workbook, rate: real, fmt: real -> string, now: string)
    ensures var calls := FxWrite(book, rate, fmt, now).calls;
      var found := FirstPairRow(FxData(book));
      var last := calls[|calls| - 1];
      && |calls| == (if FxSheet in book then 1 else 2)
      && (FxSheet !in book ==> calls[0] == AddSheet(FxSheet, FxHeader))
      && last.title == FxSheet
      && (found.Some? ==> last == UpdateRow(FxSheet, found.value, FxRow(rate, fmt, now)))
      && (found.None? ==> last == AppendRow(FxSheet, FxRow(rate, fmt, now)))
  {
  }

  /** The writing part sends at least one call, and every call goes to the 환율 sheet. */
  lemma FxTargets(book: Workbook, rate: real, fmt: real -> string, now: string)
    ensures var calls := FxWrite(book, rate, fmt, now).calls;
      calls != [] && forall c :: c in calls ==> c.title == FxSheet
  {
  }

  /** Replaying the calls of the writing part on the old workbook gives the new one. */
  lemma FxReplays(book: Workbook, rate: real, fmt: real -> string, now: string)
    ensures var r := FxWrite(book, rate, fmt, now);
      Replay(book, r.calls) == Some(r.book)
  {
    var data := FxData(book);
    var row := FxRow(rate, fmt, now);
    var r := FxWrite(book, rate, fmt, now);
    var created := if FxSheet in book then [] else [AddSheet(FxSheet, FxHeader)];
    var last := r.calls[|r.calls| - 1];
    assert r.calls == created + [last];
    ReplayConcat(book, created, [last]);
    var mid := book[FxSheet := data];
    if FxSheet in book {
      assert mid == book;
    } else {
      ReplayOne(book, created[0]);
    }
    ReplayOne(mid, last);
    assert mid[FxSheet := r.book[FxSheet]] == r.book;
  }
}
