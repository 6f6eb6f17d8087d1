/** A1 column names: column 1 is A, 26 is Z, 27 is AA, 52 is AZ, 53 is BA,
    and so on. This is bijective base 26 with the digits A to Z standing for
    1 to 26. */
module A1 {
  import opened Sheet

  predicate IsLetter(c: char)
  {
    'A' <= c <= 'Z'
  }

  /** The column letters as the column-adding tool computes them: one
      letter up to 26, otherwise "A" followed by the character 26 places
      lower. From column 0xD7DA on that character would be a surrogate. */
  function ColumnLetterAsWritten(i: nat): (s: string)
    requires 1 <= i < 0xD7DA
    ensures i <= 26 ==> s == [(64 + i) as char]
    ensures i > 26 ==> s == ['A', (38 + i) as char]
  {
    if i <= 26 then [(64 + i) as char] else "A" + [(64 + i - 26) as char]
  }

  /** The A1 name of 1-based column `i`. */
  function A1Name(i: nat): (s: string)
    requires i >= 1
    ensures |s| >= 1 && forall k :: 0 <= k < |s| ==> IsLetter(s[k])
    decreases i
  {
    if i <= 26 then [(64 + i) as char]
    else A1Name((i - 1) / 26) + [(65 + (i - 1) % 26) as char]
  }

  /** The 1-based column an A1 column name denotes, or None when `s` is
      empty or holds a character other than A to Z. */
  function ColumnIndex(s: string): (r: Option<nat>)
    ensures r.Some? ==> r.value >= 1
    ensures r.Some? ==> |s| >= 1 && forall k :: 0 <= k < |s| ==> IsLetter(s[k])
    decreases |s|
  {
    if |s| == 0 || !IsLetter(s[|s| - 1]) then None
    else
      var d := s[|s| - 1] as int - 64;
      if |s| == 1 then Some(d)
      else match ColumnIndex(s[..|s| - 1])
        case None => None
        case Some(v) => Some(v * 26 + d)
  }

  lemma DivMod26(w: nat, r: nat)
    requires r < 26
    ensures (w * 26 + r) / 26 == w && (w * 26 + r) % 26 == r
  {
  }

  /** Reading a column's name back gives the column. */
  lemma {:induction false} A1RoundTrip(i: nat)
    requires i >= 1
    ensures ColumnIndex(A1Name(i)) == Some(i)
    decreases i
  {
    if i > 26 {
      var q := (i - 1) / 26;
      var s := A1Name(i);
      A1RoundTrip(q);
      assert s[..|s| - 1] == A1Name(q);
      assert q * 26 + (i - 1) % 26 == i - 1;
    }
  }

  /** Every well-formed column name is the name of the column it denotes,
      so names and columns correspond one to one. */
  lemma {:induction false} A1Canonical(s: string)
    requires ColumnIndex(s).Some?
    ensures A1Name(ColumnIndex(s).value) == s
    decreases |s|
  {
    var d := s[|s| - 1] as int - 64;
    if |s| > 1 {
      var init := s[..|s| - 1];
      var w := ColumnIndex(init).value;
      A1Canonical(init);
      DivMod26(w, d - 1);
      assert init + [s[|s| - 1]] == s;
    }
  }

  /** Distinct columns have distinct names. */
  lemma A1Injective(i: nat, j: nat)
    requires i >= 1 && j >= 1 && A1Name(i) == A1Name(j)
    ensures i == j
  {
    A1RoundTrip(i);
    A1RoundTrip(j);
  }

  /** The tool's letters are the A1 names for columns 1 to 52. */
  lemma AsWrittenAgrees(i: nat)
    requires 1 <= i <= 52
    ensures ColumnLetterAsWritten(i) == A1Name(i)
  {
    if i > 26 {
      assert (i - 1) / 26 == 1 && (i - 1) % 26 == i - 27 by {
        DivMod26(1, i - 27);
      }
    }
  }

  /** From column 53 on, the tool's letters are not the column's A1 name,
      nor the canonical upper-case name of any column: the second character
      is past Z (column 53 gives "A[" where A1 says "BA"). */
  lemma AsWrittenBreaks(i: nat)
    requires 53 <= i < 0xD7DA
    ensures ColumnIndex(ColumnLetterAsWritten(i)) == None
    ensures ColumnLetterAsWritten(i) != A1Name(i)
  {
  }

  /** ASCII lower-case letters folded to upper case; every other character kept. */
  function UpperChar(c: char): char
  {
    if 'a' <= c <= 'z' then (c as int - 32) as char else c
  }

  function Upper(s: string): (u: string)
    ensures |u| == |s| && forall k :: 0 <= k < |s| ==> u[k] == UpperChar(s[k])
  {
    seq(|s|, k requires 0 <= k < |s| => UpperChar(s[k]))
  }

  /** How the sheet store reads the column letters of a range: A1 names
      without regard to the case of the letters A to Z. */
  function StoreColumn(s: string): Option<nat>
  {
    ColumnIndex(Upper(s))
  }

  /** Folding is idempotent, and canonical names are already upper case. */
  lemma UpperTwice(s: string)
    ensures Upper(Upper(s)) == Upper(s)
  {
    assert forall k :: 0 <= k < |s| ==> Upper(Upper(s))[k] == Upper(s)[k];
  }

  lemma UpperOfName(i: nat)
    requires i >= 1
    ensures Upper(A1Name(i)) == A1Name(i)
  {
    var n := A1Name(i);
    assert forall k :: 0 <= k < |n| ==> Upper(n)[k] == n[k];
  }

  /** The store reads every canonical name as its column, and any name
      spelt with lower-case letters as the column of its upper-case spelling. */
  lemma StoreReadsNames(i: nat, s: string)
    requires i >= 1
    ensures StoreColumn(A1Name(i)) == Some(i)
    ensures StoreColumn(s) == StoreColumn(Upper(s))
  {
    UpperOfName(i);
    A1RoundTrip(i);
    UpperTwice(s);
  }

  /** The column the store writes when the tool means column `i`: the
      column itself up to 52, none for 53 to 58 (letters "A[" to "A`"),
      column i - 32 for 59 to 84 (letters "Aa" to "Az", read as AA to AZ),
      and none from 85 on. */
  function Landing(i: nat): (r: Option<nat>)
    ensures r.Some? ==> 1 <= r.value <= 52 && r.value <= i
  {
    if 1 <= i <= 52 then Some(i)
    else if 59 <= i <= 84 then Some(i - 32)
    else None
  }

  /** What the store makes of the tool's letters. */
  lemma AsWrittenLands(i: nat)
    requires 1 <= i < 0xD7DA
    ensures StoreColumn(ColumnLetterAsWritten(i)) == Landing(i)
  {
    var s := ColumnLetterAsWritten(i);
    if i <= 52 {
      AsWrittenAgrees(i);
      StoreReadsNames(i, s);
    } else {
      var c := (38 + i) as char;
      assert s == ['A', c];
      var u := Upper(s);
      assert u[..1] == ['A'];
      assert ColumnIndex(u[..1]) == Some(1);
      if 59 <= i <= 84 {
        assert u[1] == (6 + i) as char && IsLetter(u[1]);
        assert ColumnIndex(u) == Some(1 * 26 + (6 + i - 64));
      } else {
        assert !IsLetter(u[1]);
      }
    }
  }

  /** Columns 59 to 84 land 32 columns to the left of where the tool means
      them: on AA to AZ, which A1 names column i - 32. */
  lemma AsWrittenMisplaced(i: nat)
    requires 59 <= i <= 84
    ensures Upper(ColumnLetterAsWritten(i)) == A1Name(i - 32)
    ensures StoreColumn(ColumnLetterAsWritten(i)) == Some(i - 32)
  {
    AsWrittenLands(i);
    AsWrittenAgrees(i - 32);
    var s, n := ColumnLetterAsWritten(i), A1Name(i - 32);
    assert Upper(s)[1] == n[1];
  }

  /** The first column where the tool goes wrong. */
  lemma AsWrittenFirstFailure()
    ensures ColumnLetterAsWritten(53) == "A[" && A1Name(53) == "BA"
  {
    DivMod26(2, 0);
  }
}
