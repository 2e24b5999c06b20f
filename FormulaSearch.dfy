/**
 * The formula sheet's search: a blank query (all whitespace once trimmed)
 * shows every row; any other query keeps, in order, the rows whose lowered
 * name, LaTeX source or chapter title contains the lowered query. The query
 * itself is not trimmed before matching.
 */
module FormulaSearch {
  import opened Strings
  import opened PhysicsData
  import opened Sequences

  predicate RowMatches(row: FormulaRow, query: string) {
    var q := ToLower(query);
    Contains(ToLower(row.name), q) || Contains(ToLower(row.latex), q) || Contains(ToLower(row.chapterTitle), q)
  }

  /** `rows.filter(f => RowMatches(f, query))`. */
  function FilterRows(rows: seq<FormulaRow>, query: string): seq<FormulaRow> {
    if rows == [] then []
    else if RowMatches(rows[0], query) then [rows[0]] + FilterRows(rows[1..], query)
    else FilterRows(rows[1..], query)
  }

  /** `filteredFormulas`. */
  function Search(rows: seq<FormulaRow>, query: string): seq<FormulaRow> {
    if Trim(query) == [] then rows else FilterRows(rows, query)
  }

  /**
   * The filter is exact: its rows are a subsequence of the input, every one
   * of them matches, and every matching row is kept as often as it occurs.
   */
  lemma {:induction false} FilterRowsExact(rows: seq<FormulaRow>, query: string)
    ensures IsSubsequence(FilterRows(rows, query), rows)
    ensures forall x :: x in FilterRows(rows, query) ==> RowMatches(x, query)
    ensures forall x :: RowMatches(x, query) ==> multiset(FilterRows(rows, query))[x] == multiset(rows)[x]
    ensures forall x :: !RowMatches(x, query) ==> multiset(FilterRows(rows, query))[x] == 0
  {
    if rows != [] {
      FilterRowsExact(rows[1..], query);
      assert rows == [rows[0]] + rows[1..];
    }
  }

  /** A blank query shows every row, in the original order. */
  lemma SearchBlank(rows: seq<FormulaRow>, query: string)
    requires IsBlank(query)
    ensures Search(rows, query) == rows
  {
    TrimEmptyIff(query);
  }

  /**
   * Any other query shows exactly the matching rows: an order-preserving
   * subsequence of the rows, no longer than the full list, each of its rows a
   * row of the list.
   */
  lemma SearchNonBlank(rows: seq<FormulaRow>, query: string)
    requires !IsBlank(query)
    ensures Search(rows, query) == FilterRows(rows, query)
    ensures IsSubsequence(Search(rows, query), rows)
    ensures |Search(rows, query)| <= |rows|
    ensures forall x :: x in Search(rows, query) <==> x in rows && RowMatches(x, query)
  {
    TrimEmptyIff(query);
    var r := FilterRows(rows, query);
    FilterRowsExact(rows, query);
    SubsequenceShorter(r, rows);
    SubsequenceElements(r, rows);
    forall x | x in rows && RowMatches(x, query)
      ensures x in r
    {
      assert multiset(rows)[x] > 0;
    }
  }

  /** Matching ignores case: a query and its lowered form show the same rows. */
  lemma SearchIgnoresCase(rows: seq<FormulaRow>, query: string)
    ensures Search(rows, query) == Search(rows, ToLower(query))
  {
    var lowered := ToLower(query);
    ToLowerKeepsSpace(query);
    TrimEmptyIff(query);
    TrimEmptyIff(lowered);
    assert IsBlank(query) <==> IsBlank(lowered);
    ToLowerIdempotent(query);
    assert forall x :: RowMatches(x, query) <==> RowMatches(x, lowered);
    FilterSameMatches(rows, query, lowered);
  }

  lemma {:induction false} FilterSameMatches(rows: seq<FormulaRow>, q1: string, q2: string)
    requires forall x :: RowMatches(x, q1) <==> RowMatches(x, q2)
    ensures FilterRows(rows, q1) == FilterRows(rows, q2)
  {
    if rows != [] {
      FilterSameMatches(rows[1..], q1, q2);
    }
  }

  predicate HasNoBlank(s: string) {
    forall i :: 0 <= i < |s| ==> s[i] != ' '
  }

  lemma NoOccurrenceOfBlank(s: string, t: string)
    requires HasNoBlank(s) && t != [] && t[0] == ' '
    ensures !Contains(ToLower(s), t)
  {
  }

  /**
   * A non-blank query is matched untrimmed: a leading space takes part in
   * the substring test, so a row with no space in any field does not match
   * " " + q and is left out of its results, whatever q is.
   */
  lemma LeadingSpaceIsMatched(rows: seq<FormulaRow>, row: FormulaRow, q: string)
    requires !IsBlank(q)
    requires HasNoBlank(row.name) && HasNoBlank(row.latex) && HasNoBlank(row.chapterTitle)
    ensures row !in Search(rows, " " + q)
  {
    var padded := " " + q;
    assert !IsBlank(padded) by {
      var i :| 0 <= i < |q| && !IsSpace(q[i]);
      assert padded[i + 1] == q[i];
    }
    assert ToLower(padded)[0] == ' ';
    NoOccurrenceOfBlank(row.name, ToLower(padded));
    NoOccurrenceOfBlank(row.latex, ToLower(padded));
    NoOccurrenceOfBlank(row.chapterTitle, ToLower(padded));
    SearchNonBlank(rows, padded);
  }

  /** The number shown above the results: "1 formula found", otherwise "<n> formulas found". */
  function CountLabel(n: nat): string {
    NatToString(n) + " formula" + (if n != 1 then "s" else "") + " found"
  }

  lemma CountLabelPlural(n: nat)
    ensures EndsWith(CountLabel(n), "s found") <==> n != 1
    ensures StartsWith(CountLabel(n), NatToString(n) + " formula")
  {
    var text := CountLabel(n);
    if n == 1 {
      assert text[|text| - 7] == 'a';
    } else {
      assert text[|text| - 7..] == "s found";
    }
  }
}
