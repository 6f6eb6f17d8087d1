/** What the price provider answers, and the quantities the updater derives
    from it. A request either raises or returns a (possibly empty) history
    of closing prices, oldest first. Prices are reals: the float arithmetic
    and the rounding to two places happen when a value is rendered into a
    cell, which the rest of the model takes as a parameter. */
module Market {
  import opened Sheet

  datatype Fetch = Raised | Closes(values: seq<real>)

  /** The four numbers written for one symbol: last price, previous close,
      absolute change and percent change. */
  datatype Quote = Quote(price: real, prevClose: real, change: real, changePct: real)

  /** The quote for one symbol's history, or None when the history is empty
      or the request raised (the symbol is then skipped). */
  function QuoteOf(f: Fetch): (q: Option<Quote>)
    ensures q.Some? <==> f.Closes? && |f.values| > 0
    ensures q.Some? ==> q.value.price == f.values[|f.values| - 1]
    ensures q.Some? && |f.values| >= 2 ==> q.value.prevClose == f.values[|f.values| - 2]
    ensures q.Some? && |f.values| == 1 ==>
      q.value.prevClose == q.value.price && q.value.change == 0.0 && q.value.changePct == 0.0
    ensures q.Some? ==> q.value.price == q.value.prevClose + q.value.change
    ensures q.Some? && q.value.prevClose <= 0.0 ==> q.value.changePct == 0.0
    ensures q.Some? && q.value.prevClose > 0.0 ==>
      q.value.changePct * q.value.prevClose == q.value.change * 100.0
  {
    match f
    case Raised => None
    case Closes(vs) =>
      if |vs| == 0 then None
      else
        var price := vs[|vs| - 1];
        var prev := if |vs| >= 2 then vs[|vs| - 2] else price;
        var change := price - prev;
        Some(Quote(price, prev, change, if prev > 0.0 then change / prev * 100.0 else 0.0))
  }

  /** The per-symbol outcome of fetching and computing a quote. */
  function QuotesOf(fetch: string -> Fetch): string -> Option<Quote>
  {
    t => QuoteOf(fetch(t))
  }

  /** The rate used when no alias answers. */
  const FallbackRate: real := 1450.0

  /** The provider symbols tried for USD/KRW, in order. */
  const FxAliases: seq<string> := ["KRW=X", "USDKRW=X"]

  /** All of `aliases` answered with an empty history. */
  ghost predicate AllEmpty(aliases: seq<string>, lookup: string -> Fetch)
  {
    forall j :: 0 <= j < |aliases| ==> lookup(aliases[j]) == Closes([])
  }

  /** The last close of the first alias whose history is not empty, trying
      the next alias only after an empty history. None when every alias
      answered empty, or when a request raised: the single try around the
      lookups abandons the remaining aliases. */
  function FirstRate(aliases: seq<string>, lookup: string -> Fetch): (r: Option<real>)
    ensures AllEmpty(aliases, lookup) ==> r.None?
    ensures forall i :: 0 <= i < |aliases| && AllEmpty(aliases[..i], lookup) ==>
      match lookup(aliases[i])
      case Raised => r.None?
      case Closes(vs) => vs != [] ==> r == Some(vs[|vs| - 1])
  {
    if aliases == [] then None
    else
      match lookup(aliases[0])
      case Raised => None
      case Closes(vs) =>
        if vs != [] then Some(vs[|vs| - 1])
        else
          var rest := FirstRate(aliases[1..], lookup);
          assert forall i :: 1 <= i <= |aliases| ==> aliases[..i] == [aliases[0]] + aliases[1..][..i - 1];
          assert forall i :: 1 <= i <= |aliases| && AllEmpty(aliases[..i], lookup) ==>
            AllEmpty(aliases[1..][..i - 1], lookup);
          rest
  }

  /** The USD/KRW rate the updater writes: KRW=X's last close if that
      history is not empty, else USDKRW=X's, else 1450.0; a raising request
      gives 1450.0 at once. */
  function FxRate(lookup: string -> Fetch): (rate: real)
    ensures lookup("KRW=X").Closes? && lookup("KRW=X").values != [] ==>
      rate == lookup("KRW=X").values[|lookup("KRW=X").values| - 1]
    ensures lookup("KRW=X") == Closes([]) && lookup("USDKRW=X").Closes? && lookup("USDKRW=X").values != [] ==>
      rate == lookup("USDKRW=X").values[|lookup("USDKRW=X").values| - 1]
    ensures lookup("KRW=X").Raised? ==> rate == FallbackRate
    ensures lookup("KRW=X") == Closes([]) && lookup("USDKRW=X") in {Raised, Closes([])} ==> rate == FallbackRate
  {
    assert FxAliases[..0] == [] && FxAliases[..1] == ["KRW=X"];
    match FirstRate(FxAliases, lookup)
    case Some(r) => r
    case None => FallbackRate
  }
}
