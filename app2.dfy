/** The second dashboard (app2.py): the sheets whose name ends in "Participants", each with a
    subtitle taken from its first row; a category filter and an institution search; a summary of
    participation roles by institution type; and the participants grouped by type and role, as in
    the printed directory. */
module App2 {
  import opened Wrappers
  import opened Text
  import opened Seqs
  import opened Sheets
  import opened Filters
  import Loader
  import Listing
  import Pivot

  /** The sheet takes part: its name, trimmed, ends in "Participants". */
  predicate Eligible(name: string) {
    EndsWith(Strip(name), "Participants")
  }

  /** The subtitle: the texts of the first row's non-empty cells, joined by " • ". */
  function Subtitle(first: Row): string {
    Join(" • ", NonEmptyTexts(first))
  }

  /** The subtitle is empty exactly when the first row has no value, or its only value is the
      empty text. */
  lemma SubtitleEmpty(first: Row)
    ensures Subtitle(first) == "" <==> IsEmpty(first) || NonEmptyTexts(first) == [""]
  {
    JoinEmptyIff(" • ", NonEmptyTexts(first));
  }

  /** The column names: each cell of the second row as text, stripped, and stripped once more
      when assigned to the frame. */
  function Headers(second: Row): seq<string> {
    seq(|second|, j requires 0 <= j < |second| => Strip(Strip(CellStr(second[j]))))
  }

  /** One participant sheet: the first row gives the subtitle, the second the column names, the
      rest the data rows without the empty ones; fewer than two rows raise an `IndexError`. */
  function LoadSheet(w: Worksheet): Result<Loaded, Failure> {
    if |w.grid| < 2 then Err(SheetTooShort(w.name))
    else Ok(Loaded(w.name, Subtitle(w.grid[0]), Table(Headers(w.grid[1]), DropEmptyRows(w.grid[2..]))))
  }

  /** A sheet loads exactly when it has two rows; the names are the second row's cells stripped
      once (the second strip changes nothing) and one per cell; the data rows are the rows from
      the third on that hold a value, in order and each as often as in the sheet, and no other. */
  lemma LoadSheetShape(w: Worksheet)
    ensures LoadSheet(w).Err? <==> |w.grid| < 2
    ensures LoadSheet(w).Err? ==> LoadSheet(w).error == SheetTooShort(w.name)
    ensures LoadSheet(w).Ok? ==>
              var l := LoadSheet(w).value;
              && l.name == w.name
              && l.subtitle == Subtitle(w.grid[0])
              && |l.table.columns| == |w.grid[1]|
              && (forall j :: 0 <= j < |w.grid[1]| ==> l.table.columns[j] == Strip(CellStr(w.grid[1][j])))
              && Selects(l.table.rows, w.grid[2..], HasValue)
  {
    if |w.grid| >= 2 {
      forall j | 0 <= j < |w.grid[1]|
        ensures Strip(Strip(CellStr(w.grid[1][j]))) == Strip(CellStr(w.grid[1][j]))
      {
        StripIdempotent(CellStr(w.grid[1][j]));
      }
      FilterSelects(w.grid[2..], HasValue);
    }
  }

  /** `load_participant_sheets`: the eligible sheets in workbook order, or the failure of the
      first eligible sheet that has fewer than two rows. */
  method LoadParticipantSheets(wb: Workbook) returns (r: Result<seq<Loaded>, Failure>)
    ensures r == Loader.Collect(wb, Eligible, LoadSheet)
    ensures r.Ok? <==> forall i :: 0 <= i < |wb| && Eligible(wb[i].name) ==> |wb[i].grid| >= 2
    ensures r.Err? ==> exists i :: 0 <= i < |wb| && Eligible(wb[i].name) && r.error == SheetTooShort(wb[i].name)
    ensures r.Ok? ==>
              var f := Filter(wb, Loader.OnName(Eligible));
              |r.value| == |f| && forall k :: 0 <= k < |f| ==> LoadSheet(f[k]) == Ok(r.value[k])
  {
    r := Loader.CollectSheets(wb, Eligible, LoadSheet);
    CollectOutcome(wb);
    if r.Ok? {
      Loader.CollectEntries(wb, Eligible, LoadSheet);
    }
  }

  lemma CollectOutcome(sheets: seq<Worksheet>)
    ensures var r := Loader.Collect(sheets, Eligible, LoadSheet);
            && (r.Ok? <==> forall i :: 0 <= i < |sheets| && Eligible(sheets[i].name) ==> |sheets[i].grid| >= 2)
            && (r.Err? ==> exists i :: 0 <= i < |sheets| && Eligible(sheets[i].name) && r.error == SheetTooShort(sheets[i].name))
  {
    Loader.CollectOkIff(sheets, Eligible, LoadSheet);
    if Loader.Collect(sheets, Eligible, LoadSheet).Err? {
      var i := Loader.CollectErrIsFirst(sheets, Eligible, LoadSheet);
    }
  }

  /** The row passes the sidebar filters: its category among the selected ones when the sheet
      has a Category column, and its institution containing the search when there is one. */
  function Keep(columns: seq<string>, selectedCategories: set<string>, search: string): Row -> bool {
    (r: Row) =>
      && (match ColumnIndex(columns, "Category")
          case Some(c) => CellIn(c, selectedCategories)(r)
          case None => true)
      && (search == "" ||
          match ColumnIndex(columns, "Institution")
          case Some(n) => CellMatches(n, search)(r)
          case None => false)
  }

  /** The filtered frame: the rows passing `Keep`, in order; a search on a sheet without an
      Institution column raises a `KeyError`. */
  method ApplyFilters(df: Table, selectedCategories: set<string>, search: string)
      returns (r: Result<Table, Failure>)
    ensures r.Err? <==> search != "" && "Institution" !in df.columns
    ensures r.Err? ==> r.error == MissingColumn("Institution")
    ensures r.Ok? ==> r.value.columns == df.columns
    ensures r.Ok? ==> Selects(r.value.rows, df.rows, Keep(df.columns, selectedCategories, search))
  {
    var keep := Keep(df.columns, selectedCategories, search);
    var all: Row -> bool := (x: Row) => true;
    var passed := all;
    var dff := df;
    FilterKeepsAll(df.rows, all);
    var c := ColumnIndex(dff.columns, "Category");
    if c.Some? {
      var p := CellIn(c.value, selectedCategories);
      var both := (x: Row) => passed(x) && p(x);
      FilterFilter(df.rows, passed, p, both);
      dff := Table(dff.columns, Filter(dff.rows, p));
      passed := both;
    }
    if search != "" {
      var n := ColumnIndex(dff.columns, "Institution");
      if n.None? {
        return Err(MissingColumn("Institution"));
      }
      var p := CellMatches(n.value, search);
      var both := (x: Row) => passed(x) && p(x);
      FilterFilter(df.rows, passed, p, both);
      dff := Table(dff.columns, Filter(dff.rows, p));
      passed := both;
    }
    FilterAgree(df.rows, passed, keep);
    FilterSelects(df.rows, keep);
    return Ok(dff);
  }

  /** The institution types of the summary: short name and the long name the sheet uses. */
  const InstTypeMap: Pivot.TypeNames := [
    ("U/KBs", "Universal and Commercial Banks (U/KBs)"),
    ("TBs", "Thrift Banks (TBs)"),
    ("RBs", "Rural Banks (RBs)"),
    ("DBs", "Digital Banks"),
    ("EMI-NBFI", "Electronic Money Issuers (EMI) - Others")
  ]

  /** No spelling is shared between mapped types: every short and long name starts with its
      type's own initial. */
  lemma InstTypeMapDistinct()
    ensures Pivot.DistinctNames(InstTypeMap)
  {
    assert InstTypeMap[0].0[0] == 'U' && InstTypeMap[0].1[0] == 'U';
    assert InstTypeMap[1].0[0] == 'T' && InstTypeMap[1].1[0] == 'T';
    assert InstTypeMap[2].0[0] == 'R' && InstTypeMap[2].1[0] == 'R';
    assert InstTypeMap[3].0[0] == 'D' && InstTypeMap[3].1[0] == 'D';
    assert InstTypeMap[4].0[0] == 'E' && InstTypeMap[4].1[0] == 'E';
  }

  /** The summary by participation role and institution type, shown when the filtered frame has
      both a Category and an Institution Type column. */
  function RoleTypeSummary(dff: Table): Option<Pivot.CountTable> {
    match (ColumnIndex(dff.columns, "Category"), ColumnIndex(dff.columns, "Institution Type"))
    case (Some(c), Some(t)) => Some(Pivot.Summary(Pivot.KeyPairs(dff.rows, c, t), InstTypeMap))
    case _ => None
  }

  /** The summary's labels: its rows are the categories that occur with a type, sorted, then
      TOTAL; its columns are the types that occur with a category under a mapped long or short
      name, each labelled with the short name, in the map's order, then TOTAL. */
  lemma RoleTypeSummaryLabels(dff: Table)
    requires "Category" in dff.columns && "Institution Type" in dff.columns
    ensures RoleTypeSummary(dff).Some?
    ensures var c := ColumnIndex(dff.columns, "Category").value;
            var t := ColumnIndex(dff.columns, "Institution Type").value;
            var s := RoleTypeSummary(dff).value;
            var pairs := Pivot.KeyPairs(dff.rows, c, t);
            var cats := Pivot.RowKeys(pairs);
            var kept := Pivot.Kept(pairs, InstTypeMap);
            && s.rowLabels == cats + [Pivot.Total]
            && Pivot.StrictlySorted(cats)
            && (forall x :: x in cats <==>
                  exists i :: 0 <= i < |dff.rows| && Get(dff.rows[i], c) == Some(x) && Get(dff.rows[i], t).Some?)
            && s.colLabels == Pivot.Shorts(kept) + [Pivot.Total]
            && (forall e :: e in kept <==>
                  (Pivot.Relabels(InstTypeMap, e) &&
                   exists i :: 0 <= i < |dff.rows| && Get(dff.rows[i], t) == Some(e.1) && Get(dff.rows[i], c).Some?))
            && Pivot.InMapOrder(kept, InstTypeMap)
  {
    var c := ColumnIndex(dff.columns, "Category").value;
    var t := ColumnIndex(dff.columns, "Institution Type").value;
    Pivot.SummaryLabels(Pivot.KeyPairs(dff.rows, c, t), InstTypeMap);
    forall x {
      Pivot.KeyPairsRowKey(dff.rows, c, t, x);
    }
    forall y {
      Pivot.KeyPairsColumnKey(dff.rows, c, t, y);
    }
  }

  /** The summary counts rows: each cell is the number of filtered rows with that category and
      type (0 when there is none). */
  lemma RoleTypeSummaryCells(dff: Table)
    requires "Category" in dff.columns && "Institution Type" in dff.columns
    ensures RoleTypeSummary(dff).Some?
    ensures var c := ColumnIndex(dff.columns, "Category").value;
            var t := ColumnIndex(dff.columns, "Institution Type").value;
            var s := RoleTypeSummary(dff).value;
            var pairs := Pivot.KeyPairs(dff.rows, c, t);
            var cats := Pivot.RowKeys(pairs);
            var kept := Pivot.Kept(pairs, InstTypeMap);
            && |s.cells| == |cats| + 1
            && (forall i, j :: 0 <= i < |cats| && 0 <= j < |kept| ==>
                  s.cells[i][j] == |Filter(dff.rows, Pivot.RowIs(c, cats[i], t, kept[j].1))|)
  {
    var c := ColumnIndex(dff.columns, "Category").value;
    var t := ColumnIndex(dff.columns, "Institution Type").value;
    Pivot.RowSummaryCells(dff.rows, c, t, InstTypeMap);
  }

  /** The TOTAL column of the summary holds each row's sum, and the TOTAL row each column's sum. */
  lemma RoleTypeSummaryTotals(dff: Table)
    requires "Category" in dff.columns && "Institution Type" in dff.columns
    ensures RoleTypeSummary(dff).Some?
    ensures Pivot.HasTotals(RoleTypeSummary(dff).value)
  {
    var c := ColumnIndex(dff.columns, "Category").value;
    var t := ColumnIndex(dff.columns, "Institution Type").value;
    Pivot.SummaryCells(Pivot.KeyPairs(dff.rows, c, t), InstTypeMap);
  }

  /** The corner of the summary counts every filtered row that has a category and one of the
      five mapped types, under its long or its short name: none is lost and none counted twice. */
  lemma RoleTypeSummaryTotal(dff: Table)
    requires "Category" in dff.columns && "Institution Type" in dff.columns
    ensures RoleTypeSummary(dff).Some?
    ensures var c := ColumnIndex(dff.columns, "Category").value;
            var t := ColumnIndex(dff.columns, "Institution Type").value;
            var s := RoleTypeSummary(dff).value;
            s.cells[|s.cells| - 1][|s.colLabels| - 1] ==
              |Filter(dff.rows, Pivot.RowOfType(c, t, Pivot.Mapped(InstTypeMap)))|
  {
    var c := ColumnIndex(dff.columns, "Category").value;
    var t := ColumnIndex(dff.columns, "Institution Type").value;
    InstTypeMapDistinct();
    Pivot.RowSummaryTotal(dff.rows, c, t, InstTypeMap);
  }

  /** The order in which the listing visits institution types. */
  const InstTypeOrder: seq<string> := [
    "Universal and Commercial Banks (U/KBs)",
    "Thrift Banks (TBs)",
    "Rural Banks (RBs)",
    "Digital Banks",
    "Electronic Money Issuers (EMI) - Others"
  ]

  /** The role groups of a sheet, as (Category value, heading): issuing and acquiring banks for a
      sheet whose name starts with "egov" in any letter case, the three sender/receiver groups
      otherwise. */
  function RoleMap(sheet: string): seq<(string, string)> {
    if StartsWith(ToLower(sheet), "egov") then
      [("Issuer", "ISSUING BANKS"), ("Acquirer", "ACQUIRING BANKS")]
    else
      [("Sender/Receiver", "SENDER/RECEIVER"), ("Sender Only", "SENDER ONLY"), ("Receiver Only", "RECEIVER ONLY")]
  }

  /** The choice of role groups depends on the sheet name only up to letter case: "EGov Pay",
      "egov pay" and "EGOV PAY" all get the issuer and acquirer groups. */
  lemma RoleMapIgnoresCase(sheet: string)
    ensures RoleMap(ToUpper(sheet)) == RoleMap(sheet)
    ensures RoleMap(ToLower(sheet)) == RoleMap(sheet)
    ensures RoleMap(sheet)[0].0 == "Issuer" <==> StartsWith(ToLower(sheet), "egov")
  {
    assert ToLower(ToUpper(sheet)) == ToLower(sheet);
    assert ToLower(ToLower(sheet)) == ToLower(sheet);
  }

  /** One block of the listing: the role it holds, its heading, and its institutions sorted and
      numbered from 1. */
  datatype Block = Block(role: string, heading: string, entries: seq<(nat, Cell)>)

  /** One institution type of the listing with its non-empty role blocks. */
  datatype Section = Section(instType: string, blocks: seq<Block>)

  /** The Institution cells of `rows`, sorted by `sort_values` order and numbered from 1. */
  function Entries(rows: seq<Row>, n: nat): seq<(nat, Cell)> {
    Listing.Numbered(Listing.SortBy(ColumnCells(rows, n), Listing.Identity))
  }

  /** A block's entries are numbered 1, 2, … in order, its names are sorted, and they are the
      Institution cells of the block's rows, each as often as it occurs there. */
  lemma EntriesSorted(rows: seq<Row>, n: nat)
    ensures var e := Entries(rows, n);
            && |e| == |rows|
            && (forall i :: 0 <= i < |e| ==> e[i].0 == i + 1)
            && (forall i, j :: 0 <= i < j < |e| ==> Listing.CellLe(e[i].1, e[j].1))
            && multiset(seq(|e|, i requires 0 <= i < |e| => e[i].1)) == multiset(ColumnCells(rows, n))
  {
    var sorted := Listing.SortBy(ColumnCells(rows, n), Listing.Identity);
    var e := Entries(rows, n);
    assert |sorted| == |multiset(sorted)| == |multiset(ColumnCells(rows, n))|;
    assert seq(|e|, i requires 0 <= i < |e| => e[i].1) == sorted;
  }

  /** The role blocks of one type's rows: for each role, in order, the rows with that Category,
      skipped when there are none; the Institution column is needed only for a non-empty block. */
  function RoleBlocks(block: seq<Row>, cat: nat, inst: Option<nat>, roles: seq<(string, string)>)
      : Result<seq<Block>, Failure>
    decreases |roles|
  {
    if roles == [] then Ok([])
    else
      var rb := Filter(block, CellIs(cat, roles[0].0));
      if rb == [] then RoleBlocks(block, cat, inst, roles[1..])
      else match inst
        case None => Err(MissingColumn("Institution"))
        case Some(n) => Prepend([Block(roles[0].0, roles[0].1, Entries(rb, n))], RoleBlocks(block, cat, inst, roles[1..]))
  }

  /** The sections for `types`, in order, skipping types no row has; a section needs the
      Category column. */
  function Sections(rows: seq<Row>, ty: nat, cat: Option<nat>, inst: Option<nat>, types: seq<string>,
                    roles: seq<(string, string)>): Result<seq<Section>, Failure>
    decreases |types|
  {
    if types == [] then Ok([])
    else
      var block := Filter(rows, CellIs(ty, types[0]));
      if block == [] then Sections(rows, ty, cat, inst, types[1..], roles)
      else match cat
        case None => Err(MissingColumn("Category"))
        case Some(c) =>
          match RoleBlocks(block, c, inst, roles)
          case Err(e) => Err(e)
          case Ok(bs) => Prepend([Section(types[0], bs)], Sections(rows, ty, cat, inst, types[1..], roles))
  }

  /** The listing of the filtered frame; it needs an Institution Type column. */
  function GroupedListing(dff: Table, sheet: string): Result<seq<Section>, Failure> {
    match ColumnIndex(dff.columns, "Institution Type")
    case None => Err(MissingColumn("Institution Type"))
    case Some(ty) =>
      Sections(dff.rows, ty, ColumnIndex(dff.columns, "Category"), ColumnIndex(dff.columns, "Institution"),
               InstTypeOrder, RoleMap(sheet))
  }

  /** The grouped listing, drawn by the nested loops below. */
  method ShowGroupedListing(dff: Table, sheet: string) returns (r: Result<seq<Section>, Failure>)
    ensures r == GroupedListing(dff, sheet)
  {
    var ty := ColumnIndex(dff.columns, "Institution Type");
    if ty.None? {
      return Err(MissingColumn("Institution Type"));
    }
    r := DrawSections(dff.rows, ty.value, ColumnIndex(dff.columns, "Category"),
                      ColumnIndex(dff.columns, "Institution"), InstTypeOrder, RoleMap(sheet));
  }

  /** The outer loop: the sections, type by type. */
  method DrawSections(rows: seq<Row>, ty: nat, cat: Option<nat>, inst: Option<nat>, types: seq<string>,
                      roles: seq<(string, string)>) returns (r: Result<seq<Section>, Failure>)
    ensures r == Sections(rows, ty, cat, inst, types, roles)
  {
    ghost var all := Sections(rows, ty, cat, inst, types, roles);
    var sections: seq<Section> := [];
    var i := 0;
    assert types[0..] == types;
    PrependNothing(all);
    while i < |types|
      invariant 0 <= i <= |types|
      invariant all == Prepend(sections, Sections(rows, ty, cat, inst, types[i..], roles))
    {
      assert types[i..][1..] == types[i + 1..];
      var block := Filter(rows, CellIs(ty, types[i]));
      if block != [] {
        if cat.None? {
          return Err(MissingColumn("Category"));
        }
        var blocks := ShowRoleBlocks(block, cat.value, inst, roles);
        if blocks.Err? {
          return Err(blocks.error);
        }
        PrependTwice(sections, [Section(types[i], blocks.value)], Sections(rows, ty, cat, inst, types[i + 1..], roles));
        sections := sections + [Section(types[i], blocks.value)];
      }
      i := i + 1;
    }
    assert sections + [] == sections;
    return Ok(sections);
  }

  /** The inner loop: the role blocks of one institution type. */
  method ShowRoleBlocks(block: seq<Row>, cat: nat, inst: Option<nat>, roles: seq<(string, string)>)
      returns (r: Result<seq<Block>, Failure>)
    ensures r == RoleBlocks(block, cat, inst, roles)
  {
    var blocks: seq<Block> := [];
    var k := 0;
    assert roles[0..] == roles;
    PrependNothing(RoleBlocks(block, cat, inst, roles));
    while k < |roles|
      invariant 0 <= k <= |roles|
      invariant RoleBlocks(block, cat, inst, roles) == Prepend(blocks, RoleBlocks(block, cat, inst, roles[k..]))
    {
      assert roles[k..][1..] == roles[k + 1..];
      var rb := Filter(block, CellIs(cat, roles[k].0));
      if rb != [] {
        if inst.None? {
          return Err(MissingColumn("Institution"));
        }
        var b := Block(roles[k].0, roles[k].1, Entries(rb, inst.value));
        PrependTwice(blocks, [b], RoleBlocks(block, cat, inst, roles[k + 1..]));
        blocks := blocks + [b];
      }
      k := k + 1;
    }
    assert blocks + [] == blocks;
    return Ok(blocks);
  }

  /** The (role, heading) of each block, in order. */
  function BlockKeys(bs: seq<Block>): seq<(string, string)> {
    seq(|bs|, k requires 0 <= k < |bs| => (bs[k].role, bs[k].heading))
  }

  /** The institution type of each section, in order. */
  function SectionTypes(ss: seq<Section>): seq<string> {
    seq(|ss|, k requires 0 <= k < |ss| => ss[k].instType)
  }

  /** Some row of `rows` has the role's Category value. */
  function HasRole(rows: seq<Row>, cat: nat): ((string, string)) -> bool {
    (ro: (string, string)) => Filter(rows, CellIs(cat, ro.0)) != []
  }

  /** One block per role of `shown`, each listing the rows of `block` with that role. */
  function BlocksFor(block: seq<Row>, cat: nat, n: nat, shown: seq<(string, string)>): (bs: seq<Block>)
    ensures |bs| == |shown|
    decreases |shown|
  {
    if shown == [] then []
    else [Block(shown[0].0, shown[0].1, Entries(Filter(block, CellIs(cat, shown[0].0)), n))]
         + BlocksFor(block, cat, n, shown[1..])
  }

  /** The `m`-th block of `BlocksFor` is that of the `m`-th role. */
  lemma {:induction false} BlocksForAt(block: seq<Row>, cat: nat, n: nat, shown: seq<(string, string)>, m: nat)
    requires m < |shown|
    ensures BlocksFor(block, cat, n, shown)[m]
            == Block(shown[m].0, shown[m].1, Entries(Filter(block, CellIs(cat, shown[m].0)), n))
    decreases m
  {
    if m > 0 {
      BlocksForAt(block, cat, n, shown[1..], m - 1);
    }
  }

  /** With an Institution column the role blocks are those of the roles some row has. */
  lemma {:induction false} RoleBlocksAreBlocksFor(block: seq<Row>, cat: nat, n: nat, roles: seq<(string, string)>)
    ensures RoleBlocks(block, cat, Some(n), roles) == Ok(BlocksFor(block, cat, n, Filter(roles, HasRole(block, cat))))
    decreases |roles|
  {
    if roles != [] {
      var has := HasRole(block, cat);
      RoleBlocksAreBlocksFor(block, cat, n, roles[1..]);
      var shown := Filter(roles, has);
      var rest := BlocksFor(block, cat, n, Filter(roles[1..], has));
      assert shown == (if has(roles[0]) then [roles[0]] else []) + Filter(roles[1..], has);
      if has(roles[0]) {
        assert shown[0] == roles[0] && shown[1..] == Filter(roles[1..], has);
        var b := Block(roles[0].0, roles[0].1, Entries(Filter(block, CellIs(cat, roles[0].0)), n));
        assert BlocksFor(block, cat, n, shown) == [b] + rest;
        assert RoleBlocks(block, cat, Some(n), roles) == Prepend([b], Ok(rest));
      } else {
        assert shown == Filter(roles[1..], has);
        assert RoleBlocks(block, cat, Some(n), roles) == Ok(rest);
      }
    }
  }

  /** With an Institution column the role blocks never fail: there is one block per role that
      some row has, in the role map's order, and it lists the rows with that role. */
  lemma RoleBlocksShape(block: seq<Row>, cat: nat, n: nat, roles: seq<(string, string)>)
    ensures RoleBlocks(block, cat, Some(n), roles).Ok?
    ensures var bs := RoleBlocks(block, cat, Some(n), roles).value;
            && BlockKeys(bs) == Filter(roles, HasRole(block, cat))
            && forall m :: 0 <= m < |bs| ==> bs[m].entries == Entries(Filter(block, CellIs(cat, bs[m].role)), n)
  {
    var shown := Filter(roles, HasRole(block, cat));
    RoleBlocksAreBlocksFor(block, cat, n, roles);
    var bs := BlocksFor(block, cat, n, shown);
    forall m | 0 <= m < |bs|
      ensures bs[m] == Block(shown[m].0, shown[m].1, Entries(Filter(block, CellIs(cat, shown[m].0)), n))
    {
      BlocksForAt(block, cat, n, shown, m);
    }
    assert BlockKeys(bs) == shown;
  }

  /** One section per type of `shown`, holding the role blocks of the rows of that type. */
  function SectionsFor(rows: seq<Row>, ty: nat, c: nat, n: nat, roles: seq<(string, string)>,
                       shown: seq<string>): (ss: seq<Section>)
    ensures |ss| == |shown|
    decreases |shown|
  {
    if shown == [] then []
    else
      var block := Filter(rows, CellIs(ty, shown[0]));
      [Section(shown[0], BlocksFor(block, c, n, Filter(roles, HasRole(block, c))))]
      + SectionsFor(rows, ty, c, n, roles, shown[1..])
  }

  /** The `k`-th section of `SectionsFor` is that of the `k`-th type. */
  lemma {:induction false} SectionsForAt(rows: seq<Row>, ty: nat, c: nat, n: nat, roles: seq<(string, string)>,
                                         shown: seq<string>, k: nat)
    requires k < |shown|
    ensures var block := Filter(rows, CellIs(ty, shown[k]));
            SectionsFor(rows, ty, c, n, roles, shown)[k]
            == Section(shown[k], BlocksFor(block, c, n, Filter(roles, HasRole(block, c))))
    decreases k
  {
    if k > 0 {
      SectionsForAt(rows, ty, c, n, roles, shown[1..], k - 1);
    }
  }

  /** With Category and Institution columns the sections are those of the types some row has. */
  lemma {:induction false} SectionsAreSectionsFor(rows: seq<Row>, ty: nat, c: nat, n: nat, types: seq<string>,
                                                  roles: seq<(string, string)>)
    ensures Sections(rows, ty, Some(c), Some(n), types, roles)
            == Ok(SectionsFor(rows, ty, c, n, roles, Filter(types, HasType(rows, ty))))
    decreases |types|
  {
    if types != [] {
      var has := HasType(rows, ty);
      SectionsAreSectionsFor(rows, ty, c, n, types[1..], roles);
      var shown := Filter(types, has);
      var rest := SectionsFor(rows, ty, c, n, roles, Filter(types[1..], has));
      var block := Filter(rows, CellIs(ty, types[0]));
      assert shown == (if has(types[0]) then [types[0]] else []) + Filter(types[1..], has);
      if has(types[0]) {
        assert block != [];
        assert shown[0] == types[0] && shown[1..] == Filter(types[1..], has);
        var bs := BlocksFor(block, c, n, Filter(roles, HasRole(block, c)));
        RoleBlocksAreBlocksFor(block, c, n, roles);
        assert SectionsFor(rows, ty, c, n, roles, shown) == [Section(types[0], bs)] + rest;
        assert Sections(rows, ty, Some(c), Some(n), types, roles) == Prepend([Section(types[0], bs)], Ok(rest));
      } else {
        assert block == [];
        assert shown == Filter(types[1..], has);
        assert Sections(rows, ty, Some(c), Some(n), types, roles) == Ok(rest);
      }
    }
  }

  /** With Category and Institution columns the sections never fail: there is one section per
      type of `types` that some row has, in order, holding the role blocks of that type's rows. */
  lemma SectionsShape(rows: seq<Row>, ty: nat, c: nat, n: nat, types: seq<string>,
                      roles: seq<(string, string)>)
    ensures Sections(rows, ty, Some(c), Some(n), types, roles).Ok?
    ensures var ss := Sections(rows, ty, Some(c), Some(n), types, roles).value;
            && SectionTypes(ss) == Filter(types, HasType(rows, ty))
            && forall k :: 0 <= k < |ss| ==>
                 RoleBlocks(Filter(rows, CellIs(ty, ss[k].instType)), c, Some(n), roles) == Ok(ss[k].blocks)
  {
    var shown := Filter(types, HasType(rows, ty));
    SectionsAreSectionsFor(rows, ty, c, n, types, roles);
    var ss := SectionsFor(rows, ty, c, n, roles, shown);
    forall k | 0 <= k < |ss|
      ensures ss[k].instType == shown[k]
      ensures RoleBlocks(Filter(rows, CellIs(ty, ss[k].instType)), c, Some(n), roles) == Ok(ss[k].blocks)
    {
      SectionsForAt(rows, ty, c, n, roles, shown, k);
      RoleBlocksAreBlocksFor(Filter(rows, CellIs(ty, shown[k])), c, n, roles);
    }
    assert SectionTypes(ss) == shown;
  }

  /** The grouped listing of a frame with Institution Type, Category and Institution columns:
      one section per type of the fixed order that some filtered row has, in that order; in each,
      one block per role of the sheet's role map that some row of the type has, in the map's
      order; each block lists the Institution cells of exactly the rows of that type and role. */
  lemma GroupedListingShape(dff: Table, sheet: string)
    requires "Institution Type" in dff.columns && "Category" in dff.columns && "Institution" in dff.columns
    ensures GroupedListing(dff, sheet).Ok?
    ensures var ty := ColumnIndex(dff.columns, "Institution Type").value;
            var c := ColumnIndex(dff.columns, "Category").value;
            var n := ColumnIndex(dff.columns, "Institution").value;
            var ss := GroupedListing(dff, sheet).value;
            && SectionTypes(ss) == Filter(InstTypeOrder, HasType(dff.rows, ty))
            && (forall k :: 0 <= k < |ss| ==>
                  BlockKeys(ss[k].blocks) == Filter(RoleMap(sheet), HasRole(Filter(dff.rows, CellIs(ty, ss[k].instType)), c)))
            && (forall k, m :: 0 <= k < |ss| && 0 <= m < |ss[k].blocks| ==>
                  ss[k].blocks[m].entries ==
                    Entries(Filter(dff.rows, Pivot.RowIs(ty, ss[k].instType, c, ss[k].blocks[m].role)), n))
  {
    var ty := ColumnIndex(dff.columns, "Institution Type").value;
    var c := ColumnIndex(dff.columns, "Category").value;
    var n := ColumnIndex(dff.columns, "Institution").value;
    SectionsShape(dff.rows, ty, c, n, InstTypeOrder, RoleMap(sheet));
    var ss := GroupedListing(dff, sheet).value;
    forall k | 0 <= k < |ss|
      ensures BlockKeys(ss[k].blocks) == Filter(RoleMap(sheet), HasRole(Filter(dff.rows, CellIs(ty, ss[k].instType)), c))
      ensures forall m :: 0 <= m < |ss[k].blocks| ==>
                ss[k].blocks[m].entries ==
                  Entries(Filter(dff.rows, Pivot.RowIs(ty, ss[k].instType, c, ss[k].blocks[m].role)), n)
    {
      var block := Filter(dff.rows, CellIs(ty, ss[k].instType));
      RoleBlocksShape(block, c, n, RoleMap(sheet));
      forall m | 0 <= m < |ss[k].blocks|
        ensures ss[k].blocks[m].entries ==
                  Entries(Filter(dff.rows, Pivot.RowIs(ty, ss[k].instType, c, ss[k].blocks[m].role)), n)
      {
        var role := ss[k].blocks[m].role;
        FilterFilter(dff.rows, CellIs(ty, ss[k].instType), CellIs(c, role), Pivot.RowIs(ty, ss[k].instType, c, role));
      }
    }
  }
}
