/** The first dashboard (app.py): every worksheet of the workbook becomes a tab; a tab filters
    its sheet by category, role and an institution search, shows six counters and the filtered
    rows sorted by institution. */
module App {
  import opened Wrappers
  import opened Text
  import opened Seqs
  import opened Sheets
  import opened Filters
  import Listing
  import Pivot

  /** The name `read_excel` gives column `j` from the header row: the cell's text, or
      "Unnamed: j" for an empty header cell. */
  function HeaderName(c: Cell, j: nat): string {
    match c
    case Some(s) => s
    case None => "Unnamed: " + NatToString(j)
  }

  /** Some row has a value in column `j`. */
  predicate ColumnHasValue(rows: seq<Row>, j: nat) {
    exists i :: 0 <= i < |rows| && Get(rows[i], j).Some?
  }

  /** `dropna(axis=1, how="all")`: the positions from `j` up to `width` of the columns that hold a
      value in some row, increasing. */
  function KeptColumns(rows: seq<Row>, j: nat, width: nat): (ks: seq<nat>)
    requires j <= width
    ensures forall k :: 0 <= k < |ks| ==> j <= ks[k] < width && ColumnHasValue(rows, ks[k])
    ensures forall c :: j <= c < width && ColumnHasValue(rows, c) ==> c in ks
    ensures forall a, b :: 0 <= a < b < |ks| ==> ks[a] < ks[b]
    decreases width - j
  {
    if j == width then []
    else (if ColumnHasValue(rows, j) then [j] else []) + KeptColumns(rows, j + 1, width)
  }

  /** The row restricted to the columns at positions `ks`. */
  function Project(r: Row, ks: seq<nat>): Row {
    seq(|ks|, k requires 0 <= k < |ks| => Get(r, ks[k]))
  }

  /** One worksheet as `load_all_sheets` leaves it: row 0 is the header, the data rows without a
      value are dropped, then the columns without a value, and the names are stripped. */
  function CleanSheet(g: Grid): Table {
    if g == [] then Table([], [])
    else
      var body := DropEmptyRows(g[1..]);
      var ks := KeptColumns(body, 0, |g[0]|);
      Table(seq(|ks|, k requires 0 <= k < |ks| => Strip(HeaderName(g[0][ks[k]], ks[k]))),
            seq(|body|, i requires 0 <= i < |body| => Project(body[i], ks)))
  }

  /** The cleaned sheet is a proper frame: every row as wide as the header, one row per data row
      that has a value, and column names without surrounding whitespace. */
  lemma CleanSheetShape(g: Grid)
    ensures var t := CleanSheet(g);
            && (forall i :: 0 <= i < |t.rows| ==> |t.rows[i]| == |t.columns|)
            && (forall k :: 0 <= k < |t.columns| ==> Strip(t.columns[k]) == t.columns[k])
            && |t.rows| == |DropEmptyRows(if g == [] then [] else g[1..])|
  {
    if g != [] {
      var ks := KeptColumns(DropEmptyRows(g[1..]), 0, |g[0]|);
      var t := CleanSheet(g);
      forall k | 0 <= k < |t.columns|
        ensures Strip(t.columns[k]) == t.columns[k]
      {
        StripIdempotent(HeaderName(g[0][ks[k]], ks[k]));
      }
    }
  }

  /** No row of the cleaned sheet is empty: the value that kept its data row sits in a column
      that is kept too. */
  lemma CleanSheetRows(g: Grid)
    requires Rectangular(g)
    ensures var t := CleanSheet(g);
            forall i :: 0 <= i < |t.rows| ==> HasValue(t.rows[i])
  {
    if g != [] {
      var body := DropEmptyRows(g[1..]);
      var ks := KeptColumns(body, 0, |g[0]|);
      var t := CleanSheet(g);
      forall i | 0 <= i < |t.rows|
        ensures HasValue(t.rows[i])
      {
        assert body[i] in body;
        var j :| 0 <= j < |body[i]| && body[i][j].Some?;
        assert Get(body[i], j).Some?;
        assert j < |g[0]| by {
          FilterIsSubsequence(g[1..], HasValue);
          assert body[i] in g[1..];
        }
        assert ColumnHasValue(body, j);
        assert j in ks;
        var k :| 0 <= k < |ks| && ks[k] == j;
        assert t.rows[i][k].Some?;
      }
    }
  }

  /** A column of the sheet survives exactly when some data row has a value in it, and every
      column of the cleaned sheet holds a value. */
  lemma CleanSheetColumns(g: Grid)
    requires Rectangular(g)
    ensures var t := CleanSheet(g);
            forall k :: 0 <= k < |t.columns| ==> ColumnHasValue(t.rows, k)
    ensures g != [] ==>
              var ks := KeptColumns(DropEmptyRows(g[1..]), 0, |g[0]|);
              |ks| == |CleanSheet(g).columns| &&
              forall j :: 0 <= j < |g[0]| ==>
                (j in ks <==> exists i :: 1 <= i < |g| && g[i][j].Some?)
  {
    if g != [] {
      var body := DropEmptyRows(g[1..]);
      var ks := KeptColumns(body, 0, |g[0]|);
      var t := CleanSheet(g);
      forall k | 0 <= k < |t.columns|
        ensures ColumnHasValue(t.rows, k)
      {
        assert ColumnHasValue(body, ks[k]);
        var i :| 0 <= i < |body| && Get(body[i], ks[k]).Some?;
        assert Get(t.rows[i], k).Some?;
      }
      forall j | 0 <= j < |g[0]|
        ensures j in ks <==> exists i :: 1 <= i < |g| && g[i][j].Some?
      {
        KeptColumnIff(g, j);
      }
    }
  }

  lemma KeptColumnIff(g: Grid, j: nat)
    requires Rectangular(g) && g != [] && j < |g[0]|
    ensures ColumnHasValue(DropEmptyRows(g[1..]), j) <==> exists i :: 1 <= i < |g| && g[i][j].Some?
  {
    var body := DropEmptyRows(g[1..]);
    if ColumnHasValue(body, j) {
      var i :| 0 <= i < |body| && Get(body[i], j).Some?;
      assert body[i] in g[1..] by {
        FilterIsSubsequence(g[1..], HasValue);
      }
      var i' :| 0 <= i' < |g[1..]| && g[1..][i'] == body[i];
      assert g[i' + 1][j].Some?;
    }
    if exists i :: 1 <= i < |g| && g[i][j].Some? {
      var i :| 1 <= i < |g| && g[i][j].Some?;
      assert HasValue(g[i]);
      assert g[i] in g[1..] by {
        assert g[1..][i - 1] == g[i];
      }
      FilterMember(g[1..], HasValue, g[i]);
      var i' :| 0 <= i' < |body| && body[i'] == g[i];
      assert Get(body[i'], j).Some?;
    }
  }

  /** One tab per worksheet, in workbook order, named after its sheet, holding the cleaned sheet. */
  method LoadAllSheets(wb: Workbook) returns (data: seq<(string, Table)>)
    ensures |data| == |wb|
    ensures forall i :: 0 <= i < |wb| ==> data[i] == (wb[i].name, CleanSheet(wb[i].grid))
    ensures forall i, j :: 0 <= i < j < |data| ==> data[i].0 != data[j].0
  {
    data := [];
    var i := 0;
    while i < |wb|
      invariant 0 <= i <= |wb|
      invariant |data| == i
      invariant forall k :: 0 <= k < i ==> data[k] == (wb[k].name, CleanSheet(wb[k].grid))
    {
      data := data + [(wb[i].name, CleanSheet(wb[i].grid))];
      i := i + 1;
    }
  }

  /** The row passes the three filters of a tab: its category among the selected ones and its
      role among the selected ones, each when the sheet has that column, and its institution
      containing the search, when there is a search and an Institution column. */
  function Keep(columns: seq<string>, selectedCategories: set<string>, selectedRoles: set<string>,
                search: string): Row -> bool
  {
    (r: Row) =>
      && (match ColumnIndex(columns, "Category")
          case Some(c) => CellIn(c, selectedCategories)(r)
          case None => true)
      && (match ColumnIndex(columns, "Role")
          case Some(c) => CellIn(c, selectedRoles)(r)
          case None => true)
      && (match ColumnIndex(columns, "Institution")
          case Some(c) => search == "" || CellMatches(c, search)(r)
          case None => true)
  }

  /** The tab's filtered frame: the same columns, and the rows passing `Keep`, each as often as
      in the sheet and in the sheet's order. */
  method ApplyFilters(df: Table, selectedCategories: set<string>, selectedRoles: set<string>,
                      search: string) returns (dff: Table)
    ensures dff.columns == df.columns
    ensures Selects(dff.rows, df.rows, Keep(df.columns, selectedCategories, selectedRoles, search))
    ensures dff.rows == Filter(df.rows, Keep(df.columns, selectedCategories, selectedRoles, search))
  {
    var keep := Keep(df.columns, selectedCategories, selectedRoles, search);
    var all: Row -> bool := (r: Row) => true;
    var passed := all;
    dff := df;
    FilterKeepsAll(df.rows, all);
    var c := ColumnIndex(dff.columns, "Category");
    if c.Some? {
      var p := CellIn(c.value, selectedCategories);
      var both := (r: Row) => passed(r) && p(r);
      FilterFilter(df.rows, passed, p, both);
      dff := Table(dff.columns, Filter(dff.rows, p));
      passed := both;
    }
    var ro := ColumnIndex(dff.columns, "Role");
    if ro.Some? {
      var p := CellIn(ro.value, selectedRoles);
      var both := (r: Row) => passed(r) && p(r);
      FilterFilter(df.rows, passed, p, both);
      dff := Table(dff.columns, Filter(dff.rows, p));
      passed := both;
    }
    var n := ColumnIndex(dff.columns, "Institution");
    if search != "" && n.Some? {
      var p := CellMatches(n.value, search);
      var both := (r: Row) => passed(r) && p(r);
      FilterFilter(df.rows, passed, p, both);
      dff := Table(dff.columns, Filter(dff.rows, p));
      passed := both;
    }
    FilterAgree(df.rows, passed, keep);
    FilterSelects(df.rows, keep);
  }

  /** The institution types the counters show, in order. */
  const CategoryCodes: seq<string> := ["U/KBs", "TBs", "RBs", "DBs", "EMI-NBFI"]

  /** A counter: its label and its value; `None` is shown as a dash. */
  datatype Kpi = Kpi(title: string, value: Option<nat>)

  /** The rows whose cell in column `j` is `code`, counted for each code. */
  function CodeCounts(rows: seq<Row>, j: nat, codes: seq<string>): seq<nat> {
    seq(|codes|, k requires 0 <= k < |codes| => |Filter(rows, CellIs(j, codes[k]))|)
  }

  /** The six counters of a tab: the number of rows, then one per category code (dashes when the
      frame has no Category column). */
  function Kpis(dff: Table): seq<Kpi> {
    [Kpi("Total", Some(|dff.rows|))] +
    seq(5, k requires 0 <= k < 5 =>
      Kpi(CategoryCodes[k],
          match ColumnIndex(dff.columns, "Category")
          case Some(c) => Some(CodeCounts(dff.rows, c, CategoryCodes)[k])
          case None => None))
  }

  /** Counting the rows of each of several distinct codes and adding up counts the rows whose
      cell is one of the codes. */
  lemma {:induction false} SumCodeCounts(rows: seq<Row>, j: nat, codes: seq<string>)
    requires Distinct(codes)
    ensures Pivot.Sum(CodeCounts(rows, j, codes)) == |Filter(rows, CellIn(j, set c | c in codes))|
    decreases |codes|
  {
    if codes == [] {
      FilterEmptyIff(rows, CellIn(j, set c | c in codes));
    } else {
      var rest := codes[1..];
      SumCodeCounts(rows, j, rest);
      assert CodeCounts(rows, j, codes)[1..] == CodeCounts(rows, j, rest);
      assert forall c :: c in codes <==> c == codes[0] || c in rest;
      assert codes[0] !in rest;
      FilterCountDisjoint(rows, CellIs(j, codes[0]), CellIn(j, set c | c in rest),
                          CellIn(j, set c | c in codes));
    }
  }

  /** The category counters never add up to more than the Total counter: they count the rows
      whose category is one of the five codes, and no row has two categories. */
  lemma KpisBounded(dff: Table)
    requires "Category" in dff.columns
    ensures var ms := Kpis(dff);
            var c := ColumnIndex(dff.columns, "Category").value;
            && |ms| == 6 && ms[0] == Kpi("Total", Some(|dff.rows|))
            && (forall k :: 1 <= k < 6 ==>
                  ms[k] == Kpi(CategoryCodes[k - 1], Some(|Filter(dff.rows, CellIs(c, CategoryCodes[k - 1]))|)))
            && ms[1].value.value + ms[2].value.value + ms[3].value.value
               + ms[4].value.value + ms[5].value.value <= |dff.rows|
  {
    var c := ColumnIndex(dff.columns, "Category").value;
    var counts := CodeCounts(dff.rows, c, CategoryCodes);
    SumCodeCounts(dff.rows, c, CategoryCodes);
    assert Pivot.Sum(counts[4..]) == counts[4] by {
      assert counts[4..][1..] == [];
    }
    assert Pivot.Sum(counts[3..]) == counts[3] + Pivot.Sum(counts[4..]) by {
      assert counts[3..][1..] == counts[4..];
    }
    assert Pivot.Sum(counts[2..]) == counts[2] + Pivot.Sum(counts[3..]) by {
      assert counts[2..][1..] == counts[3..];
    }
    assert Pivot.Sum(counts[1..]) == counts[1] + Pivot.Sum(counts[2..]) by {
      assert counts[1..][1..] == counts[2..];
    }
  }

  /** Without a Category column every category counter is a dash. */
  lemma KpisWithoutCategory(dff: Table)
    requires "Category" !in dff.columns
    ensures var ms := Kpis(dff);
            |ms| == 6 && forall k :: 1 <= k < 6 ==> ms[k] == Kpi(CategoryCodes[k - 1], None)
  {
    assert ColumnIndex(dff.columns, "Category").None?;
  }

  /** What a tab shows: a warning for a sheet without rows or columns, otherwise the counters and
      the filtered frame, sorted by institution when it has that column. */
  datatype TabView = NoData | Dashboard(kpis: seq<Kpi>, shown: Table)

  method ShowTab(df: Table, selectedCategories: set<string>, selectedRoles: set<string>,
                 search: string) returns (v: TabView)
    ensures v.NoData? <==> df.rows == [] || df.columns == []
    ensures v.Dashboard? ==>
      var keep := Keep(df.columns, selectedCategories, selectedRoles, search);
      && v.shown.columns == df.columns
      && multiset(v.shown.rows) == multiset(Filter(df.rows, keep))
      && v.kpis == Kpis(Table(df.columns, Filter(df.rows, keep)))
      && (match ColumnIndex(df.columns, "Institution")
          case Some(n) => Listing.SortedBy(v.shown.rows, CellAt(n))
          case None => v.shown.rows == Filter(df.rows, keep))
  {
    if df.rows == [] || df.columns == [] {
      return NoData;
    }
    var dff := ApplyFilters(df, selectedCategories, selectedRoles, search);
    var kpis := Kpis(dff);
    var n := ColumnIndex(dff.columns, "Institution");
    if n.Some? {
      v := Dashboard(kpis, Table(dff.columns, Listing.SortBy(dff.rows, CellAt(n.value))));
    } else {
      v := Dashboard(kpis, dff);
    }
  }
}
