/** The spreadsheet as the store adapter sees it. A worksheet is the table
    of cell strings that get_all_values returns, header row first; a
    workbook maps worksheet titles to their tables. The write requests the
    program sends are values of `Call`, so a sequence of them is the exact
    log of what was sent to the store. */
module Sheet {

  datatype Option<+T> = None | Some(value: T)

  type Row = seq<string>
  type Table = seq<Row>
  type Workbook = map<string, Table>

  /** One write request to the store. Row numbers are 1-based, as in A1 ranges. */
  datatype Call =
    | AddSheet(title: string, header: Row)              // add_worksheet, then the header written at A1
    | UpdateRow(title: string, rowNum: nat, cells: Row) // update of the range A{n}..{X}{n}
    | AppendRows(title: string, rows: seq<Row>)         // append_rows
    | AppendRow(title: string, cells: Row)              // append_row

  /** Row `row` after writing `cells` into its first |cells| columns:
      the written columns hold the new cells, every later cell is kept. */
  function OverwritePrefix(row: Row, cells: Row): (r: Row)
    ensures |r| == if |row| > |cells| then |row| else |cells|
    ensures forall j :: 0 <= j < |r| ==> r[j] == if j < |cells| then cells[j] else row[j]
  {
    if |row| > |cells| then cells + row[|cells|..] else cells
  }

  /** Writing a range twice with cells of the same width leaves what the second write put there. */
  lemma OverwriteLastWins(row: Row, first: Row, second: Row)
    requires |first| == |second|
    ensures OverwritePrefix(OverwritePrefix(row, first), second) == OverwritePrefix(row, second)
  {
  }

  /** Table `t` after its row number `rowNum` has `cells` written from column A on. */
  function WriteRow(t: Table, rowNum: nat, cells: Row): (r: Table)
    requires 1 <= rowNum <= |t|
    ensures |r| == |t|
    ensures r[rowNum - 1] == OverwritePrefix(t[rowNum - 1], cells)
    ensures forall i :: 0 <= i < |t| && i != rowNum - 1 ==> r[i] == t[i]
  {
    t[rowNum - 1 := OverwritePrefix(t[rowNum - 1], cells)]
  }

  /** The store accepts a call: new sheets get fresh titles, every other call
      names an existing sheet, and an in-place update names an existing row. */
  predicate Applicable(book: Workbook, c: Call)
  {
    match c
    case AddSheet(title, _) => title !in book
    case UpdateRow(title, n, _) => title in book && 1 <= n <= |book[title]|
    case AppendRows(title, _) => title in book
    case AppendRow(title, _) => title in book
  }

  /** The workbook after the store carried out call `c`. */
  function Apply(book: Workbook, c: Call): (r: Workbook)
    requires Applicable(book, c)
    ensures r.Keys == book.Keys + {c.title}
    ensures forall s :: s in book && s != c.title ==> r[s] == book[s]
    ensures c.AddSheet? ==> r[c.title] == [c.header]
    ensures !c.AddSheet? ==> |r[c.title]| >= |book[c.title]|
    ensures !c.AddSheet? ==> forall i :: 0 <= i < |book[c.title]| && !(c.UpdateRow? && i == c.rowNum - 1) ==>
      r[c.title][i] == book[c.title][i]
  {
    match c
    case AddSheet(title, header) => book[title := [header]]
    case UpdateRow(title, n, cells) => book[title := WriteRow(book[title], n, cells)]
    case AppendRows(title, rows) => book[title := book[title] + rows]
    case AppendRow(title, cells) => book[title := book[title] + [cells]]
  }

  /** The workbook after the store carried out `calls` in order, or None
      if it would have refused one of them. */
  function Replay(book: Workbook, calls: seq<Call>): Option<Workbook>
    decreases |calls|
  {
    if calls == [] then Some(book)
    else if Applicable(book, calls[0]) then Replay(Apply(book, calls[0]), calls[1..])
    else None
  }

  /** Replaying a single call is applying it. */
  lemma ReplayOne(book: Workbook, c: Call)
    requires Applicable(book, c)
    ensures Replay(book, [c]) == Some(Apply(book, c))
  {
    assert [c][1..] == [];
  }

  /** Replaying one row update after the sheet holds table `t` leaves the sheet holding `t` with that row written. */
  lemma ReplayUpdateRow(book: Workbook, title: string, t: Table, n: nat, cells: Row)
    requires 1 <= n <= |t|
    ensures Replay(book[title := t], [UpdateRow(title, n, cells)]) == Some(book[title := WriteRow(t, n, cells)])
  {
    ReplayOne(book[title := t], UpdateRow(title, n, cells));
    assert book[title := t][title := WriteRow(t, n, cells)] == book[title := WriteRow(t, n, cells)];
  }

  /** Replaying two batches of calls is replaying the first, then the second. */
  lemma {:induction false} ReplayConcat(book: Workbook, a: seq<Call>, b: seq<Call>)
    ensures Replay(book, a + b) == match Replay(book, a) case None => None case Some(mid) => Replay(mid, b)
    decreases |a|
  {
    if a == [] {
      assert a + b == b;
    } else {
      assert (a + b)[0] == a[0] && (a + b)[1..] == a[1..] + b;
      if Applicable(book, a[0]) {
        ReplayConcat(Apply(book, a[0]), a[1..], b);
      }
    }
  }

  /** Python's list.index: the position of the first occurrence of `x`. */
  function IndexOf(s: seq<string>, x: string): (i: nat)
    requires x in s
    ensures i < |s| && s[i] == x
    ensures forall j :: 0 <= j < i ==> s[j] != x
  {
    if s[0] == x then 0 else 1 + IndexOf(s[1..], x)
  }

  /** The characters Python's str.isspace accepts. */
  predicate IsSpace(c: char)
  {
    c == ' ' || ('\t' <= c <= '\r') || ('\U{1C}' <= c <= '\U{1F}')
    || c == '\U{85}' || c == '\U{A0}' || c == '\U{1680}' || ('\U{2000}' <= c <= '\U{200A}')
    || c == '\U{2028}' || c == '\U{2029}' || c == '\U{202F}' || c == '\U{205F}' || c == '\U{3000}'
  }

  /** The cell without its leading whitespace. */
  function StripLeft(s: string): string
  {
    if s != [] && IsSpace(s[0]) then StripLeft(s[1..]) else s
  }

  /** The cell without its trailing whitespace. */
  function StripRight(s: string): string
  {
    if s != [] && IsSpace(s[|s| - 1]) then StripRight(s[..|s| - 1]) else s
  }

  /** The number of whitespace characters `s` starts with. */
  function LeadingSpaces(s: string): nat
  {
    if s != [] && IsSpace(s[0]) then 1 + LeadingSpaces(s[1..]) else 0
  }

  /** Python's str.strip(): the cell without its leading and trailing whitespace. */
  function Strip(s: string): string
  {
    StripRight(StripLeft(s))
  }

  /** Stripping on the left drops exactly the leading whitespace. */
  lemma {:induction false} StripLeftSpec(s: string)
    ensures LeadingSpaces(s) <= |s| && StripLeft(s) == s[LeadingSpaces(s)..]
    ensures forall j :: 0 <= j < LeadingSpaces(s) ==> IsSpace(s[j])
    ensures LeadingSpaces(s) < |s| ==> !IsSpace(s[LeadingSpaces(s)])
  {
    if s != [] && IsSpace(s[0]) {
      StripLeftSpec(s[1..]);
    }
  }

  /** Stripping on the right keeps a prefix and drops only whitespace, up to a non-space. */
  lemma {:induction false} StripRightSpec(s: string)
    ensures |StripRight(s)| <= |s| && StripRight(s) == s[..|StripRight(s)|]
    ensures forall j :: |StripRight(s)| <= j < |s| ==> IsSpace(s[j])
    ensures StripRight(s) != [] ==> !IsSpace(StripRight(s)[|StripRight(s)| - 1])
  {
    if s != [] && IsSpace(s[|s| - 1]) {
      StripRightSpec(s[..|s| - 1]);
    }
  }

  /** The stripped cell is the part of the cell between its leading
      whitespace and its trailing whitespace, and starts and ends with a
      character that is not whitespace. */
  lemma StripSpec(s: string)
    ensures var r := Strip(s);
      && LeadingSpaces(s) + |r| <= |s|
      && r == s[LeadingSpaces(s)..LeadingSpaces(s) + |r|]
      && (forall j :: 0 <= j < LeadingSpaces(s) ==> IsSpace(s[j]))
      && (forall j :: LeadingSpaces(s) + |r| <= j < |s| ==> IsSpace(s[j]))
      && (r != [] ==> !IsSpace(r[0]) && !IsSpace(r[|r| - 1]))
  {
    var n := LeadingSpaces(s);
    StripLeftSpec(s);
    var l := StripLeft(s);
    StripRightSpec(l);
    var r := StripRight(l);
    forall j | n + |r| <= j < |s| ensures IsSpace(s[j]) {
      assert s[j] == l[j - n];
    }
    if r != [] {
      assert r[0] == l[0];
    }
  }

  /** Stripping is idempotent: a ticker read back from the list is its own stripped form. */
  lemma StripIdempotent(s: string)
    ensures Strip(Strip(s)) == Strip(s)
  {
    var t := Strip(s);
    StripSpec(s);
    StripLeftNoop(t);
    StripRightNoop(t);
  }

  lemma StripLeftNoop(s: string)
    requires s == [] || !IsSpace(s[0])
    ensures StripLeft(s) == s
  {
  }

  lemma StripRightNoop(s: string)
    requires s == [] || !IsSpace(s[|s| - 1])
    ensures StripRight(s) == s
  {
  }
}
