/** The column-adding tool: it appends the four trading-parameter columns
    that the Ticker_Info header still lacks after the last header cell,
    writing each column's name in row 1 and its default value in every
    data row. */
module TickerColumns {
  import opened Sheet
  import opened A1

  /** A parameter column with the value every data row starts with. */
  datatype Column = Column(name: string, default: string)

  /** The columns the tool adds, in the order it adds them. */
  const NewColumns: seq<Column> := [
    Column("Active", "TRUE"),
    Column("목표비중", "10%"),
    Column("손절기준", "-15%"),
    Column("익절기준", "30%")
  ]

  /** Row 1 as row_values reads it: the stored cells without trailing blanks. */
  function TrimBlanks(row: Row): (r: Row)
    ensures |r| <= |row| && r == row[..|r|]
    ensures r == [] || r[|r| - 1] != ""
    ensures forall j :: |r| <= j < |row| ==> row[j] == ""
  {
    if row != [] && row[|row| - 1] == "" then TrimBlanks(row[..|row| - 1]) else row
  }

  function HeaderValues(t: Table): (headers: Row)
  {
    if t == [] then [] else TrimBlanks(t[0])
  }

  /** The names of `cols` the header already has, in order. */
  function Present(cols: seq<Column>, headers: Row): (r: seq<string>)
    ensures forall k :: 0 <= k < |r| ==> r[k] in headers
    ensures forall c :: c in cols && c.name in headers ==> c.name in r
    decreases |cols|
  {
    if cols == [] then []
    else
      var rest := Present(cols[..|cols| - 1], headers);
      var c := cols[|cols| - 1];
      if c.name in headers then rest + [c.name] else rest
  }

  /** The columns of `cols` the header lacks, with their defaults, in order. */
  function Missing(cols: seq<Column>, headers: Row): (r: seq<Column>)
    ensures forall k :: 0 <= k < |r| ==> r[k] in cols && r[k].name !in headers
    ensures forall c :: c in cols && c.name !in headers ==> c in r
    decreases |cols|
  {
    if cols == [] then []
    else
      var rest := Missing(cols[..|cols| - 1], headers);
      var c := cols[|cols| - 1];
      if c.name !in headers then rest + [c] else rest
  }

  /** Filtering is done column by column, so the order of `cols` is kept:
      the missing columns of a concatenation are those of each part, in turn. */
  lemma {:induction false} MissingConcat(a: seq<Column>, b: seq<Column>, headers: Row)
    ensures Missing(a + b, headers) == Missing(a, headers) + Missing(b, headers)
    decreases |b|
  {
    if b == [] {
      assert a + b == a;
    } else {
      var init := b[..|b| - 1];
      assert (a + b)[..|a + b| - 1] == a + init;
      MissingConcat(a, init, headers);
    }
  }

  /** Every column is either present or missing: the counts add up, and
      nothing is missing exactly when every name is present. */
  lemma {:induction false} PresentMissingSplit(cols: seq<Column>, headers: Row)
    ensures |Present(cols, headers)| + |Missing(cols, headers)| == |cols|
    ensures Missing(cols, headers) == [] <==> forall k :: 0 <= k < |cols| ==> cols[k].name in headers
    ensures Present(cols, headers) == [] <==> Missing(cols, headers) == cols
    decreases |cols|
  {
    if cols != [] {
      var init := cols[..|cols| - 1];
      PresentMissingSplit(init, headers);
      assert cols == init + [cols[|cols| - 1]];
      if Missing(cols, headers) == cols {
        assert |Present(cols, headers)| == 0;
      }
    }
  }

  /** A cell of the grid; cells beyond a row's end or the last row read blank. 0-based. */
  function CellAt(t: Table, r: nat, c: nat): string
  {
    if r < |t| && c < |t[r]| then t[r][c] else ""
  }

  function Max(a: nat, b: nat): nat
  {
    if a >= b then a else b
  }

  /** The grid after writing `v` into the cell at 0-based row `r` and column
      `c`, growing the grid with blank cells as the store does. */
  function SetCell(t: Table, r: nat, c: nat, v: string): (u: Table)
    ensures |u| == Max(|t|, r + 1)
    ensures forall i: nat, j: nat :: CellAt(u, i, j) == (if i == r && j == c then v else CellAt(t, i, j))
  {
    var rows := if r < |t| then t else t + seq(r + 1 - |t|, _ => []);
    var row := rows[r];
    var padded := if c < |row| then row else row + seq(c + 1 - |row|, _ => "");
    rows[r := padded[c := v]]
  }

  /** The grid after writing `v` into rows `from` up to, not including, `to` of column `c` (0-based). */
  function FillColumn(t: Table, c: nat, from: nat, until: nat, v: string): (u: Table)
    ensures |u| == if from < until then Max(|t|, until) else |t|
    ensures forall i: nat, j: nat :: CellAt(u, i, j) == (if j == c && from <= i < until then v else CellAt(t, i, j))
    decreases until
  {
    if until <= from then t else SetCell(FillColumn(t, c, from, until - 1, v), until - 1, c, v)
  }

  /** One write request of the tool, naming its column by the letters the
      tool computed: a single cell, or the rows `fromRow` to `toRow` of
      one column all set to one value. Rows are 1-based. */
  datatype Update =
    | CellWrite(letter: string, row: nat, value: string)
    | ColumnFill(letter: string, fromRow: nat, toRow: nat, value: string)

  /** The decimal digits of `n`. */
  function Decimal(n: nat): string
  {
    if n < 10 then [(48 + n) as char] else Decimal(n / 10) + [(48 + n % 10) as char]
  }

  /** The range text the request names, such as "E1" or "E2:E40". */
  function RangeName(u: Update): (s: string)
  {
    match u
    case CellWrite(letter, row, _) => letter + Decimal(row)
    case ColumnFill(letter, from, last, _) => letter + Decimal(from) + ":" + letter + Decimal(last)
  }

  /** Whether the store carries the request out: its letters must name a
      column, in either case, and its rows must be a range of real rows.
      Otherwise the store refuses it and the call raises. */
  predicate Accepted(u: Update)
  {
    && StoreColumn(u.letter).Some?
    && (u.CellWrite? ==> u.row >= 1)
    && (u.ColumnFill? ==> 1 <= u.fromRow <= u.toRow)
  }

  /** The grid after the store carried out request `u`. */
  function ApplyUpdate(t: Table, u: Update): (r: Table)
    requires Accepted(u)
  {
    var col := StoreColumn(u.letter).value;
    match u
    case CellWrite(_, row, v) => SetCell(t, row - 1, col - 1, v)
    case ColumnFill(_, from, last, v) => FillColumn(t, col - 1, from - 1, last, v)
  }

  /** The requests for one new column at 0-based index `c` of a sheet of
      `numRows` rows: its name in row 1, then its default in rows 2 to
      numRows when there is at least one data row, both under the letters
      the tool computes for column c + 1. */
  function ColumnUpdates(c: nat, col: Column, numRows: nat): (us: seq<Update>)
    requires c + 1 < 0xD7DA
    ensures |us| == if numRows > 1 then 2 else 1
    ensures us[0] == CellWrite(ColumnLetterAsWritten(c + 1), 1, col.name)
    ensures numRows > 1 ==> us[1] == ColumnFill(ColumnLetterAsWritten(c + 1), 2, numRows, col.default)
  {
    var letter := ColumnLetterAsWritten(c + 1);
    [CellWrite(letter, 1, col.name)] + if numRows > 1 then [ColumnFill(letter, 2, numRows, col.default)] else []
  }

  /** The requests for `cols`, placed from 0-based column `start` on. */
  function Plan(start: nat, cols: seq<Column>, numRows: nat): seq<Update>
    requires cols != [] ==> start + |cols| < 0xD7DA
    decreases |cols|
  {
    if cols == [] then []
    else
      var init := cols[..|cols| - 1];
      Plan(start, init, numRows) + ColumnUpdates(start + |init|, cols[|cols| - 1], numRows)
  }

  /** How many of `n` new columns the tool places from 0-based column
      `start` on get letters the store accepts before the first it refuses. */
  function Writable(start: nat, n: nat): (k: nat)
    ensures k <= n
    ensures k > 0 ==> start + k <= 84
    ensures k < n ==> Landing(start + k + 1).None?
  {
    if start < 52 then (if n <= 52 - start then n else 52 - start)
    else if 58 <= start < 84 then (if n <= 84 - start then n else 84 - start)
    else 0
  }

  /** The 0-based column where the store puts the first of the columns the
      tool places from `start` on, when it takes it: `start` itself below
      column 52, 32 columns further left from column 59 on. */
  function Base(start: nat): nat
  {
    if start < 52 then start else start - 32
  }

  /** The columns the store accepts land side by side from Base(start) on. */
  lemma WritableLands(start: nat, n: nat, i: nat)
    requires i < Writable(start, n)
    ensures Landing(start + i + 1) == Some(Base(start) + i + 1)
  {
  }

  /** The grid after one new column's requests. */
  function AddColumn(t: Table, c: nat, col: Column, numRows: nat): (u: Table)
    ensures |u| == if numRows > 1 then Max(|t|, Max(1, numRows)) else Max(|t|, 1)
    ensures forall i: nat, j: nat :: CellAt(u, i, j) == (if j != c then CellAt(t, i, j)
                                                         else if i == 0 then col.name
                                                         else if i < numRows then col.default
                                                         else CellAt(t, i, j))
  {
    var h := SetCell(t, 0, c, col.name);
    if numRows > 1 then FillColumn(h, c, 1, numRows, col.default) else h
  }

  /** The grid after the requests for `cols`, placed from 0-based column `start` on. */
  function AddAll(t: Table, start: nat, cols: seq<Column>, numRows: nat): Table
    decreases |cols|
  {
    if cols == [] then t
    else
      var init := cols[..|cols| - 1];
      AddColumn(AddAll(t, start, init, numRows), start + |init|, cols[|cols| - 1], numRows)
  }

  /** The new columns land side by side from column `start` on: row 1 holds
      their names, rows 2 to numRows their defaults, and every other cell,
      the existing header cells included, is unchanged. */
  lemma {:induction false} AddAllCells(t: Table, start: nat, cols: seq<Column>, numRows: nat)
    ensures var u := AddAll(t, start, cols, numRows);
      forall i: nat, j: nat :: CellAt(u, i, j) == (
        if start <= j < start + |cols| && i == 0 then cols[j - start].name
        else if start <= j < start + |cols| && 1 <= i < numRows then cols[j - start].default
        else CellAt(t, i, j))
    decreases |cols|
  {
    if cols != [] {
      var init := cols[..|cols| - 1];
      AddAllCells(t, start, init, numRows);
      var m := AddAll(t, start, init, numRows);
      var u := AddColumn(m, start + |init|, cols[|cols| - 1], numRows);
      assert u == AddAll(t, start, cols, numRows);
      forall i: nat, j: nat
        ensures CellAt(u, i, j) == (
          if start <= j < start + |cols| && i == 0 then cols[j - start].name
          else if start <= j < start + |cols| && 1 <= i < numRows then cols[j - start].default
          else CellAt(t, i, j))
      {
        assert CellAt(u, i, j) == (if j != start + |init| then CellAt(m, i, j)
                                   else if i == 0 then cols[|cols| - 1].name
                                   else if i < numRows then cols[|cols| - 1].default
                                   else CellAt(m, i, j));
        assert CellAt(m, i, j) == (
          if start <= j < start + |init| && i == 0 then init[j - start].name
          else if start <= j < start + |init| && 1 <= i < numRows then init[j - start].default
          else CellAt(t, i, j));
        if start <= j < start + |init| {
          assert cols[j - start] == init[j - start];
        }
      }
    }
  }

  /** The new columns add rows only to an empty sheet, which gets its header row. */
  lemma {:induction false} AddAllRows(t: Table, start: nat, cols: seq<Column>)
    ensures |AddAll(t, start, cols, |t|)| == if cols == [] then |t| else Max(|t|, 1)
    decreases |cols|
  {
    if cols != [] {
      AddAllRows(t, start, cols[..|cols| - 1]);
    }
  }

  /** The plan for two batches of columns is the plan for the first, then
      the plan for the second placed right after it. */
  lemma {:induction false} PlanConcat(start: nat, a: seq<Column>, b: seq<Column>, numRows: nat)
    requires a + b != [] ==> start + |a| + |b| < 0xD7DA
    ensures Plan(start, a + b, numRows) == Plan(start, a, numRows) + Plan(start + |a|, b, numRows)
    decreases |b|
  {
    if b == [] {
      assert a + b == a;
    } else {
      var init, last := b[..|b| - 1], b[|b| - 1];
      assert a + b == (a + init) + [last];
      assert b == init + [last];
      PlanConcat(start, a, init, numRows);
      PlanSnoc(start, a + init, last, numRows);
      PlanSnoc(start + |a|, init, last, numRows);
      var pa, pi := Plan(start, a, numRows), Plan(start + |a|, init, numRows);
      var cu := ColumnUpdates(start + |a| + |init|, last, numRows);
      UpdatesAssoc(pa, pi, cu);
    }
  }

  lemma UpdatesAssoc(x: seq<Update>, y: seq<Update>, z: seq<Update>)
    ensures x + y + z == x + (y + z)
  {
  }

  /** When the store takes every new column, it accepts every request of
      the plan, and each goes to one of the columns Base(start) + 1 to
      Base(start) + |cols| (1-based); there are two per column when the
      sheet has data rows, one otherwise. */
  lemma {:induction false} PlanSize(start: nat, cols: seq<Column>, numRows: nat)
    requires Writable(start, |cols|) == |cols|
    ensures var p := Plan(start, cols, numRows);
      && |p| == (if numRows > 1 then 2 * |cols| else |cols|)
      && forall u :: u in p ==> Accepted(u) && Base(start) < StoreColumn(u.letter).value <= Base(start) + |cols|
    decreases |cols|
  {
    if cols != [] {
      var init := cols[..|cols| - 1];
      PlanSize(start, init, numRows);
      WritableLands(start, |cols|, |init|);
      AsWrittenLands(start + |init| + 1);
    }
  }

  /** From a header of 58 to 83 cells on, the store takes the new columns
      but puts them on top of existing header columns: the first one's name
      replaces the header cell Base(start), which lies before `start`. */
  lemma MisplacedColumns(t: Table, start: nat, cols: seq<Column>, numRows: nat)
    requires 58 <= start && cols != [] && start + |cols| <= 84
    ensures Writable(start, |cols|) == |cols|
    ensures Base(start) + |cols| <= start
    ensures CellAt(AddAll(t, Base(start), cols, numRows), 0, Base(start)) == cols[0].name
  {
    AddAllCells(t, Base(start), cols, numRows);
  }

  /** One more column adds its own requests at the end of the plan. */
  lemma PlanSnoc(start: nat, done: seq<Column>, col: Column, numRows: nat)
    requires start + |done| + 1 < 0xD7DA
    ensures Plan(start, done + [col], numRows) == Plan(start, done, numRows) + ColumnUpdates(start + |done|, col, numRows)
  {
    assert (done + [col])[..|done|] == done;
  }

  /** A single column's plan is its own requests. */
  lemma PlanSingle(start: nat, col: Column, numRows: nat)
    requires start + 1 < 0xD7DA
    ensures Plan(start, [col], numRows) == ColumnUpdates(start, col, numRows)
  {
    assert [col][..0] == [];
  }

  /** Each request's range text starts with the letters the tool computed
      for its column. The store accepts both requests of a column exactly
      when it lands somewhere: as itself up to column 52, as column c - 31
      for columns 59 to 84, and nowhere otherwise. */
  lemma RangeNamesColumn(c: nat, col: Column, numRows: nat)
    requires c + 1 < 0xD7DA
    ensures forall u :: u in ColumnUpdates(c, col, numRows) ==>
      && |u.letter| <= |RangeName(u)| && RangeName(u)[..|u.letter|] == u.letter
      && (Accepted(u) <==> c + 1 <= 52 || 59 <= c + 1 <= 84)
      && (Accepted(u) ==> StoreColumn(u.letter) == Some(if c + 1 <= 52 then c + 1 else c - 31))
  {
    AsWrittenLands(c + 1);
  }

  /** Carrying out the requests of a plan one after another; None when the
      store refuses one of them. */
  function ApplyAll(t: Table, us: seq<Update>): Option<Table>
    decreases |us|
  {
    if us == [] then Some(t)
    else if Accepted(us[0]) then ApplyAll(ApplyUpdate(t, us[0]), us[1..])
    else None
  }

  lemma {:induction false} ApplyAllConcat(t: Table, a: seq<Update>, b: seq<Update>)
    ensures ApplyAll(t, a + b) == match ApplyAll(t, a) case None => None case Some(m) => ApplyAll(m, b)
    decreases |a|
  {
    if a == [] {
      assert a + b == b;
    } else {
      assert (a + b)[0] == a[0] && (a + b)[1..] == a[1..] + b;
      if Accepted(a[0]) {
        ApplyAllConcat(ApplyUpdate(t, a[0]), a[1..], b);
      }
    }
  }

  /** The store, carrying out the plan's requests in order, ends with the
      grid AddAll describes from Base(start) on, as long as it takes every
      new column. */
  lemma {:induction false} PlanReplays(t: Table, start: nat, cols: seq<Column>, numRows: nat)
    requires Writable(start, |cols|) == |cols|
    ensures ApplyAll(t, Plan(start, cols, numRows)) == Some(AddAll(t, Base(start), cols, numRows))
    decreases |cols|
  {
    if cols != [] {
      var init := cols[..|cols| - 1];
      var c := start + |init|;
      var col := cols[|cols| - 1];
      assert cols == init + [col];
      assert Writable(start, |init|) == |init|;
      PlanReplays(t, start, init, numRows);
      WritableLands(start, |cols|, |init|);
      PlanSnoc(start, init, col, numRows);
      GridSnoc(t, Base(start), cols, |init|, numRows);
      var m := AddAll(t, Base(start), init, numRows);
      ApplyAllConcat(t, Plan(start, init, numRows), ColumnUpdates(c, col, numRows));
      ColumnReplays(m, c, col, numRows);
    }
  }

  /** The store, carrying out one column's requests, ends with the grid
      AddColumn describes at the column where the letters land; when they
      land nowhere, it refuses the first request. */
  lemma ColumnReplays(t: Table, c: nat, col: Column, numRows: nat)
    requires c + 1 < 0xD7DA
    ensures ApplyAll(t, ColumnUpdates(c, col, numRows))
      == if Landing(c + 1).Some? then Some(AddColumn(t, Landing(c + 1).value - 1, col, numRows)) else None
  {
    AsWrittenLands(c + 1);
    var us := ColumnUpdates(c, col, numRows);
    if Landing(c + 1).Some? {
      var l := Landing(c + 1).value - 1;
      var h := SetCell(t, 0, l, col.name);
      assert ApplyUpdate(t, us[0]) == h;
      assert ApplyAll(t, us) == ApplyAll(h, us[1..]);
      if numRows > 1 {
        var f := FillColumn(h, l, 1, numRows, col.default);
        assert us[1..] == [us[1]] && [us[1]][1..] == [];
        assert ApplyUpdate(h, us[1]) == f;
        assert ApplyAll(h, [us[1]]) == ApplyAll(f, []);
      } else {
        assert us[1..] == [];
      }
    }
  }

  /** The store accepts both requests of a column whose letters land, and
      carrying them out one after the other adds the column where they land. */
  lemma ColumnSends(m: Table, c: nat, l: nat, col: Column, numRows: nat)
    requires c + 1 < 0xD7DA && Landing(c + 1) == Some(l + 1)
    ensures var letter := ColumnLetterAsWritten(c + 1);
      var u0 := CellWrite(letter, 1, col.name);
      var u1 := ColumnFill(letter, 2, numRows, col.default);
      && Accepted(u0)
      && (numRows > 1 ==> Accepted(u1) && ApplyUpdate(ApplyUpdate(m, u0), u1) == AddColumn(m, l, col, numRows))
      && (numRows <= 1 ==> ApplyUpdate(m, u0) == AddColumn(m, l, col, numRows))
  {
    AsWrittenLands(c + 1);
  }

  /** One turn of the tool's loop, for a column the store takes: it
      accepts the column's requests, and carrying them out after the
      earlier columns' gives the grid with one more column. */
  lemma ColumnStep(t: Table, startCol: nat, toAdd: seq<Column>, idx: nat, numRows: nat)
    requires idx < Writable(startCol, |toAdd|)
    ensures var m := AddAll(t, Base(startCol), toAdd[..idx], numRows);
      var letter := ColumnLetterAsWritten(startCol + idx + 1);
      var u0 := CellWrite(letter, 1, toAdd[idx].name);
      var u1 := ColumnFill(letter, 2, numRows, toAdd[idx].default);
      && Accepted(u0)
      && (numRows > 1 ==>
        && Accepted(u1)
        && ApplyUpdate(ApplyUpdate(m, u0), u1) == AddAll(t, Base(startCol), toAdd[..idx + 1], numRows))
      && (numRows <= 1 ==> ApplyUpdate(m, u0) == AddAll(t, Base(startCol), toAdd[..idx + 1], numRows))
  {
    WritableLands(startCol, |toAdd|, idx);
    GridSnoc(t, Base(startCol), toAdd, idx, numRows);
    ColumnSends(AddAll(t, Base(startCol), toAdd[..idx], numRows), startCol + idx, Base(startCol) + idx, toAdd[idx], numRows);
  }

  /** The grid after one more column of the batch. */
  lemma GridSnoc(t: Table, base: nat, toAdd: seq<Column>, idx: nat, numRows: nat)
    requires idx < |toAdd|
    ensures AddAll(t, base, toAdd[..idx + 1], numRows)
      == AddColumn(AddAll(t, base, toAdd[..idx], numRows), base + idx, toAdd[idx], numRows)
  {
    assert toAdd[..idx + 1][..idx] == toAdd[..idx];
  }

  /** ... and the log of requests grows by exactly that column's share of the plan. */
  lemma ColumnLogStep(t: Table, startCol: nat, toAdd: seq<Column>, idx: nat, numRows: nat, before: seq<Update>)
    requires idx < |toAdd| && startCol + idx + 1 < 0xD7DA
    ensures var sent := before + Plan(startCol, toAdd[..idx], numRows);
      var letter := ColumnLetterAsWritten(startCol + idx + 1);
      var u0 := CellWrite(letter, 1, toAdd[idx].name);
      var u1 := ColumnFill(letter, 2, numRows, toAdd[idx].default);
      && (numRows > 1 ==> sent + [u0] + [u1] == before + Plan(startCol, toAdd[..idx + 1], numRows))
      && (numRows <= 1 ==> sent + [u0] == before + Plan(startCol, toAdd[..idx + 1], numRows))
  {
    var done, col := toAdd[..idx], toAdd[idx];
    assert toAdd[..idx + 1] == done + [col];
    PlanSnoc(startCol, done, col, numRows);
    LogAppend(before, Plan(startCol, done, numRows), ColumnUpdates(startCol + idx, col, numRows));
  }

  /** Sending a column's one or two requests one at a time logs them as a block. */
  lemma LogAppend(before: seq<Update>, p: seq<Update>, us: seq<Update>)
    requires 1 <= |us| <= 2
    ensures |us| == 2 ==> before + p + [us[0]] + [us[1]] == before + (p + us)
    ensures |us| == 1 ==> before + p + [us[0]] == before + (p + us)
  {
    if |us| == 2 {
      assert us == [us[0]] + [us[1]];
    } else {
      assert us == [us[0]];
    }
  }

  /** The Ticker_Info worksheet behind the tool's connection, and the log
      of every request the store carried out on it. */
  class TickerInfo {
    /** The worksheet's cells as get_all_values returns them, or None when
        the workbook has no Ticker_Info worksheet. */
    var sheet: Option<Table>
    var updates: seq<Update>

    constructor (sheet: Option<Table>)
      ensures this.sheet == sheet && updates == []
    {
      this.sheet := sheet;
      updates := [];
    }

    /** ws.update: the store carries out the request, or refuses it when
        its range is not valid, in which case the call raises and nothing
        changes. */
    method Send(u: Update) returns (accepted: bool)
      requires sheet.Some?
      modifies this
      ensures accepted == Accepted(u)
      ensures accepted ==> sheet == Some(ApplyUpdate(old(sheet).value, u)) && updates == old(updates) + [u]
      ensures !accepted ==> sheet == old(sheet) && updates == old(updates)
    {
      if !Accepted(u) {
        return false;
      }
      sheet := Some(ApplyUpdate(sheet.value, u));
      updates := updates + [u];
      return true;
    }

    /** add_columns: `spreadsheetId` is the configured id and `answer` what
        the user types when some of the columns already exist. Returns
        whether the tool succeeded. When it goes ahead, the missing columns
        are written one after the other, under the letters the tool computes
        for the columns after the header. The store puts them where those
        letters land: right after the header up to column 52, but on top of
        columns AA to AZ for the tool's columns 59 to 84. The first column
        whose letters land nowhere is refused, so the tool stops there,
        reports failure and keeps the columns already written. */
    method AddColumns(spreadsheetId: string, answer: string) returns (ok: bool)
      modifies this
      ensures spreadsheetId == "" || old(sheet).None? ==> !ok && sheet == old(sheet) && updates == old(updates)
      ensures spreadsheetId != "" && old(sheet).Some? ==>
        var t := old(sheet).value;
        var headers := HeaderValues(t);
        var toAdd := Missing(NewColumns, headers);
        var k := Writable(|headers|, |toAdd|);
        if Present(NewColumns, headers) != [] && !Confirms(answer) then
          !ok && sheet == old(sheet) && updates == old(updates)
        else
          && ok == (k == |toAdd|)
          && sheet == Some(AddAll(t, Base(|headers|), toAdd[..k], |t|))
          && updates == old(updates) + Plan(|headers|, toAdd[..k], |t|)
    {
      if spreadsheetId == "" {
        return false;
      }
      if sheet.None? {
        return false;
      }
      var allData := sheet.value;
      var headers := HeaderValues(allData);
      var existing := Present(NewColumns, headers);
      if existing != [] && !Confirms(answer) {
        return false;
      }
      var toAdd := Missing(NewColumns, headers);
      if toAdd == [] {
        return true;
      }
      ok := WriteColumns(allData, |headers|, toAdd, |allData|);
    }

    /** The loop over the columns to add, in order, each meant for the
        column after the previous one, until the store refuses one. */
    method WriteColumns(ghost t: Table, startCol: nat, toAdd: seq<Column>, numRows: nat) returns (ok: bool)
      requires sheet == Some(t)
      modifies this
      ensures var k := Writable(startCol, |toAdd|);
        && ok == (k == |toAdd|)
        && sheet == Some(AddAll(t, Base(startCol), toAdd[..k], numRows))
        && updates == old(updates) + Plan(startCol, toAdd[..k], numRows)
    {
      ghost var k := Writable(startCol, |toAdd|);
      ghost var before := updates;
      assert toAdd[..0] == [];
      var idx := 0;
      while idx < |toAdd|
        invariant idx <= k
        invariant sheet == Some(AddAll(t, Base(startCol), toAdd[..idx], numRows))
        invariant updates == before + Plan(startCol, toAdd[..idx], numRows)
      {
        var written := WriteColumn(t, startCol, toAdd, idx, numRows, before);
        if !written {
          return false;
        }
        idx := idx + 1;
      }
      assert toAdd[..|toAdd|] == toAdd;
      return true;
    }

    /** One turn of the loop, for column `toAdd[idx]`: its name in row 1,
        then its default in rows 2 to numRows when the sheet has data rows.
        Both requests name the column by the tool's letters; the store takes
        them exactly when the earlier columns were taken and this one's
        letters land too, and otherwise refuses the first, so the turn ends
        with nothing written. */
    method WriteColumn(ghost t: Table, startCol: nat, toAdd: seq<Column>, idx: nat, numRows: nat,
                       ghost before: seq<Update>)
      returns (written: bool)
      requires idx < |toAdd| && idx <= Writable(startCol, |toAdd|)
      requires sheet == Some(AddAll(t, Base(startCol), toAdd[..idx], numRows))
      requires updates == before + Plan(startCol, toAdd[..idx], numRows)
      modifies this
      ensures written == (idx < Writable(startCol, |toAdd|))
      ensures written == Landing(startCol + idx + 1).Some?
      ensures written ==> sheet == Some(AddAll(t, Base(startCol), toAdd[..idx + 1], numRows))
      ensures written ==> updates == before + Plan(startCol, toAdd[..idx + 1], numRows)
      ensures !written ==> sheet == old(sheet) && updates == old(updates)
    {
      var col := toAdd[idx];
      var colIdx := startCol + idx + 1;
      if colIdx >= 0xD7DA {
        // Past this point the second character would be a surrogate, which
        // a string cannot hold; no column lands there, so the call fails too.
        return false;
      }
      var letter := ColumnLetterAsWritten(colIdx);
      AsWrittenLands(colIdx);
      if idx < Writable(startCol, |toAdd|) {
        ColumnStep(t, startCol, toAdd, idx, numRows);
        ColumnLogStep(t, startCol, toAdd, idx, numRows, before);
      }
      written := Send(CellWrite(letter, 1, col.name));
      if !written {
        return;
      }
      if numRows > 1 {
        var accepted := Send(ColumnFill(letter, 2, numRows, col.default));
      }
    }
  }

  /** Whether the answer, lower-cased, is "y". */
  predicate Confirms(answer: string)
  {
    answer == "y" || answer == "Y"
  }

  /** When every parameter column is already there, the tool succeeds without any request. */
  lemma NothingToAdd(t: Table)
    requires forall k :: 0 <= k < |NewColumns| ==> NewColumns[k].name in HeaderValues(t)
    ensures Missing(NewColumns, HeaderValues(t)) == []
    ensures AddAll(t, |HeaderValues(t)|, [], |t|) == t && Plan(|HeaderValues(t)|, [], |t|) == []
  {
    PresentMissingSplit(NewColumns, HeaderValues(t));
  }

  /** On a header without any parameter column all four are added, in their order. */
  lemma AllFourAdded(t: Table)
    requires Present(NewColumns, HeaderValues(t)) == []
    ensures Missing(NewColumns, HeaderValues(t)) == NewColumns
  {
    PresentMissingSplit(NewColumns, HeaderValues(t));
  }
}
