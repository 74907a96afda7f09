/** The row filters the dashboards apply to a loaded table: multiselect membership and the
    case-insensitive institution search. */
module Filters {
  import opened Wrappers
  import opened Text
  import opened Seqs
  import opened Sheets

  /** `df[col].isin(selected)`: NaN is in no selection of texts. */
  function CellIn(j: nat, selected: set<string>): Row -> bool {
    (r: Row) => Get(r, j).Some? && Get(r, j).value in selected
  }

  /** `df[col].str.contains(search, case=False, na=False)` with the search read literally. */
  function CellMatches(j: nat, search: string): Row -> bool {
    (r: Row) => Get(r, j).Some? && ContainsIgnoreCase(Get(r, j).value, search)
  }

  /** The multiselect's options: `sorted(df[col].dropna().unique())`, as a set. */
  function Options(rows: seq<Row>, j: nat): set<string> {
    set i | 0 <= i < |rows| && Get(rows[i], j).Some? :: Get(rows[i], j).value
  }

  /** With the multiselect left at its default (every option selected), the membership filter
      drops exactly the rows whose cell is empty. */
  lemma DefaultSelection(rows: seq<Row>, j: nat)
    ensures forall r :: r in Filter(rows, CellIn(j, Options(rows, j))) <==> r in rows && Get(r, j).Some?
  {
    forall r | r in rows && Get(r, j).Some?
      ensures r in Filter(rows, CellIn(j, Options(rows, j)))
    {
      var i :| 0 <= i < |rows| && rows[i] == r;
      assert Get(r, j).value in Options(rows, j);
      FilterMember(rows, CellIn(j, Options(rows, j)), r);
    }
  }

  /** An empty search matches every non-empty cell (`"" in s` holds for every text). */
  lemma EmptySearchMatchesAll(s: string)
    ensures ContainsIgnoreCase(s, "")
  {
  }

  /** A search and its upper- or lower-case spelling select the same rows. */
  lemma SearchIgnoresCase(s: string, search: string)
    ensures ContainsIgnoreCase(s, ToUpper(search)) == ContainsIgnoreCase(s, search)
    ensures ContainsIgnoreCase(s, ToLower(search)) == ContainsIgnoreCase(s, search)
  {
    assert ToLower(ToUpper(search)) == ToLower(search);
    assert ToLower(ToLower(search)) == ToLower(search);
  }

  /** Keeping filtered rows: a subsequence that holds each row passing `keep` as often as the input does, and no other row. */
  ghost predicate Selects(out: seq<Row>, input: seq<Row>, keep: Row -> bool) {
    && IsSubsequence(out, input)
    && forall r :: multiset(out)[r] == if keep(r) then multiset(input)[r] else 0
  }

  lemma FilterSelects(rows: seq<Row>, keep: Row -> bool)
    ensures Selects(Filter(rows, keep), rows, keep)
  {
    FilterIsSubsequence(rows, keep);
    forall r ensures multiset(Filter(rows, keep))[r] == if keep(r) then multiset(rows)[r] else 0 {
      FilterMultiset(rows, keep, r);
    }
  }
}
