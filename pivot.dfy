/** The count pivots with totals of app2.py:121-145 and app3.py:233-251: count the (row key, column
    key) records, keep and order the columns through a fixed short-name table, then append a TOTAL
    column of row sums and a TOTAL row of column sums. */
module Pivot {
  import opened Wrappers
  import opened Text
  import opened Seqs
  import opened Sheets

  /** The two group-by keys of one record; NaN keys are dropped by the group-by. */
  type Pair = (Option<string>, Option<string>)

  /** (short name, long name) of each institution type, in the order the table shows them. */
  type TypeNames = seq<(string, string)>

  /** A pivot: row labels, column labels and one row of counts per row label. */
  datatype CountTable = CountTable(rowLabels: seq<string>, colLabels: seq<string>, cells: seq<seq<nat>>)

  const Total := "TOTAL"

  /** Both keys are present, so the group-by counts the record. */
  predicate Complete(p: Pair) {
    p.0.Some? && p.1.Some?
  }

  function Is(r: string, c: string): Pair -> bool {
    (p: Pair) => p == (Some(r), Some(c))
  }

  /** The group size of `(r, c)`: how many records carry exactly these keys. */
  function Count(pairs: seq<Pair>, r: string, c: string): nat {
    |Filter(pairs, Is(r, c))|
  }

  ghost predicate StrictlySorted(s: seq<string>) {
    forall i, j :: 0 <= i < j < |s| ==> LexLe(s[i], s[j]) && s[i] != s[j]
  }

  /** `x` added to a strictly sorted sequence of distinct texts. */
  function InsertDistinct(x: string, s: seq<string>): (r: seq<string>)
    requires StrictlySorted(s)
    ensures StrictlySorted(r)
    ensures forall y :: y in r <==> y == x || y in s
    decreases |s|
  {
    if s == [] then [x]
    else if x == s[0] then s
    else if LexLe(x, s[0]) then
      assert forall j :: 0 <= j < |s| ==> LexLe(x, s[j]) && x != s[j] by {
        forall j | 0 <= j < |s| ensures LexLe(x, s[j]) && x != s[j] {
          if j > 0 {
            LexLeTransitive(x, s[0], s[j]);
            if x == s[j] {
              LexLeAntisymmetric(x, s[0]);
            }
          }
        }
      }
      [x] + s
    else
      var t := InsertDistinct(x, s[1..]);
      LexLeTotal(x, s[0]);
      assert forall j :: 0 <= j < |t| ==> LexLe(s[0], t[j]) && s[0] != t[j] by {
        forall j | 0 <= j < |t| ensures LexLe(s[0], t[j]) && s[0] != t[j] {
          assert t[j] in t;
          if t[j] != x {
            var m :| 0 <= m < |s[1..]| && s[1..][m] == t[j];
            assert t[j] == s[m + 1];
          }
        }
      }
      [s[0]] + t
  }

  /** Some complete record has row key `x`. */
  ghost predicate HasRowKey(pairs: seq<Pair>, x: string) {
    exists i :: 0 <= i < |pairs| && Complete(pairs[i]) && pairs[i].0.value == x
  }

  /** Some complete record has column key `x`. */
  predicate HasColumnKey(pairs: seq<Pair>, x: string) {
    exists i :: 0 <= i < |pairs| && Complete(pairs[i]) && pairs[i].1.value == x
  }

  /** The pivot's index: the distinct row keys of complete records, sorted. */
  function RowKeys(pairs: seq<Pair>): (keys: seq<string>)
    ensures StrictlySorted(keys)
    ensures forall x :: x in keys <==> HasRowKey(pairs, x)
    decreases |pairs|
  {
    if pairs == [] then []
    else
      var rest := RowKeys(pairs[1..]);
      assert forall x :: HasRowKey(pairs, x) <==>
        (Complete(pairs[0]) && pairs[0].0.value == x) || HasRowKey(pairs[1..], x) by {
        forall x ensures HasRowKey(pairs, x) <==>
          (Complete(pairs[0]) && pairs[0].0.value == x) || HasRowKey(pairs[1..], x) {
          if HasRowKey(pairs[1..], x) {
            var i :| 0 <= i < |pairs[1..]| && Complete(pairs[1..][i]) && pairs[1..][i].0.value == x;
            assert pairs[i + 1] == pairs[1..][i];
          }
          if HasRowKey(pairs, x) {
            var i :| 0 <= i < |pairs| && Complete(pairs[i]) && pairs[i].0.value == x;
            if i > 0 {
              assert pairs[1..][i - 1] == pairs[i];
            }
          }
        }
      }
      if Complete(pairs[0]) then InsertDistinct(pairs[0].0.value, rest) else rest
  }

  /** The raw column keys of entry `e` that occur, in the pivot's sorted column order: its long
      name, which the renaming turns into the short name, and the short name itself, which the
      renaming leaves as it is. */
  function EntryRaws(pairs: seq<Pair>, e: (string, string)): (raws: seq<string>)
    ensures forall x :: x in raws <==> (x == e.0 || x == e.1) && HasColumnKey(pairs, x)
    ensures forall a, b :: 0 <= a < b < |raws| ==> LexLe(raws[a], raws[b]) && raws[a] != raws[b]
  {
    var lo := if LexLe(e.0, e.1) then e.0 else e.1;
    var hi := if LexLe(e.0, e.1) then e.1 else e.0;
    LexLeTotal(e.0, e.1);
    (if HasColumnKey(pairs, lo) then [lo] else []) + (if hi != lo && HasColumnKey(pairs, hi) then [hi] else [])
  }

  /** The columns `pivot[[short]]` selects for entry `e` after the renaming: one per raw key that
      occurs, each labelled with the short name; a column is (label, raw key). */
  function EntryColumns(pairs: seq<Pair>, e: (string, string)): TypeNames {
    var raws := EntryRaws(pairs, e);
    seq(|raws|, k requires 0 <= k < |raws| => (e.0, raws[k]))
  }

  /** `pivot.rename(...)` then `pivot[[c for c in <short names> if c in pivot.columns]]`: the
      columns of each entry in turn, in the map's order. */
  function Kept(pairs: seq<Pair>, names: TypeNames): TypeNames
    decreases |names|
  {
    if names == [] then [] else EntryColumns(pairs, names[0]) + Kept(pairs, names[1..])
  }

  /** Some entry of `names` labels the raw key `c.1` with `c.0`: `c.1` is the entry's long or
      short name and `c.0` its short name. */
  ghost predicate Relabels(names: TypeNames, c: (string, string)) {
    exists j :: 0 <= j < |names| && c.0 == names[j].0 && (c.1 == names[j].0 || c.1 == names[j].1)
  }

  /** The columns come entry by entry in the map's order, and within one entry in increasing
      order of their raw keys. */
  ghost predicate InMapOrder(kept: TypeNames, names: TypeNames) {
    forall a, b :: 0 <= a < b < |kept| ==>
      exists i, j :: 0 <= i <= j < |names| && kept[a].0 == names[i].0 && kept[b].0 == names[j].0
                     && (i == j ==> LexLe(kept[a].1, kept[b].1) && kept[a].1 != kept[b].1)
  }

  /** No two entries share a spelling: every short or long name belongs to one entry only. */
  predicate DistinctNames(names: TypeNames) {
    forall a, b :: 0 <= a < b < |names| ==>
      && names[a].0 != names[b].0 && names[a].1 != names[b].1
      && names[a].0 != names[b].1 && names[a].1 != names[b].0
  }

  /** Every spelling of every entry: the raw keys the renaming and selection keep. */
  function Mapped(names: TypeNames): set<string> {
    (set j | 0 <= j < |names| :: names[j].0) + (set j | 0 <= j < |names| :: names[j].1)
  }

  /** A column is kept exactly when some entry labels its raw key with its label and the raw key
      occurs. */
  lemma {:induction false} KeptMember(pairs: seq<Pair>, names: TypeNames, c: (string, string))
    ensures c in Kept(pairs, names) <==> Relabels(names, c) && HasColumnKey(pairs, c.1)
    decreases |names|
  {
    if names != [] {
      KeptMember(pairs, names[1..], c);
      var ec := EntryColumns(pairs, names[0]);
      var raws := EntryRaws(pairs, names[0]);
      assert c in ec <==> c.0 == names[0].0 && c.1 in raws by {
        if c in ec {
          var k :| 0 <= k < |ec| && ec[k] == c;
        }
        if c.0 == names[0].0 && c.1 in raws {
          var k :| 0 <= k < |raws| && raws[k] == c.1;
          assert ec[k] == c;
        }
      }
      if Relabels(names, c) {
        var j :| 0 <= j < |names| && c.0 == names[j].0 && (c.1 == names[j].0 || c.1 == names[j].1);
        if j > 0 {
          assert names[1..][j - 1] == names[j];
        }
      }
      if Relabels(names[1..], c) {
        var j :| 0 <= j < |names[1..]| && c.0 == names[1..][j].0 && (c.1 == names[1..][j].0 || c.1 == names[1..][j].1);
        assert names[j + 1] == names[1..][j];
      }
    }
  }

  /** The kept columns are exactly the columns some entry labels whose raw key occurs. */
  lemma KeptMembers(pairs: seq<Pair>, names: TypeNames)
    ensures forall c :: c in Kept(pairs, names) <==> Relabels(names, c) && HasColumnKey(pairs, c.1)
  {
    forall c {
      KeptMember(pairs, names, c);
    }
  }

  /** The entry a kept column comes from: it labels the column's raw key with the column's label. */
  lemma {:induction false} KeptEntry(pairs: seq<Pair>, names: TypeNames, k: nat) returns (j: nat)
    requires k < |Kept(pairs, names)|
    ensures j < |names|
    ensures var c := Kept(pairs, names)[k];
            c.0 == names[j].0 && (c.1 == names[j].0 || c.1 == names[j].1)
    decreases |names|
  {
    var ec := EntryColumns(pairs, names[0]);
    if k < |ec| {
      j := 0;
      assert Kept(pairs, names)[k] == ec[k];
      assert ec[k].1 in EntryRaws(pairs, names[0]);
    } else {
      var j' := KeptEntry(pairs, names[1..], k - |ec|);
      assert Kept(pairs, names)[k] == Kept(pairs, names[1..])[k - |ec|];
      j := j' + 1;
      assert names[1..][j'] == names[j];
    }
  }

  /** The kept columns come in the map's order, each entry's raw keys sorted. */
  lemma {:induction false} KeptOrder(pairs: seq<Pair>, names: TypeNames)
    ensures InMapOrder(Kept(pairs, names), names)
    decreases |names|
  {
    if names != [] {
      KeptOrder(pairs, names[1..]);
      var ec := EntryColumns(pairs, names[0]);
      var rest := Kept(pairs, names[1..]);
      var kept := ec + rest;
      forall a, b | 0 <= a < b < |kept|
        ensures exists i, j :: 0 <= i <= j < |names| && kept[a].0 == names[i].0 && kept[b].0 == names[j].0
                               && (i == j ==> LexLe(kept[a].1, kept[b].1) && kept[a].1 != kept[b].1)
      {
        if b < |ec| {
          assert kept[a].0 == names[0].0 && kept[b].0 == names[0].0;
          assert kept[a].1 == EntryRaws(pairs, names[0])[a] && kept[b].1 == EntryRaws(pairs, names[0])[b];
        } else if a < |ec| {
          var j := KeptEntry(pairs, names[1..], b - |ec|);
          assert kept[b] == rest[b - |ec|];
          assert kept[b].0 == names[j + 1].0;
          assert kept[a].0 == names[0].0;
        } else {
          assert kept[a] == rest[a - |ec|] && kept[b] == rest[b - |ec|];
          var i, j :| 0 <= i <= j < |names[1..]| && rest[a - |ec|].0 == names[1..][i].0 && rest[b - |ec|].0 == names[1..][j].0
                      && (i == j ==> LexLe(rest[a - |ec|].1, rest[b - |ec|].1) && rest[a - |ec|].1 != rest[b - |ec|].1);
          assert names[1..][i] == names[i + 1] && names[1..][j] == names[j + 1];
        }
      }
    }
  }

  function Shorts(names: TypeNames): seq<string> {
    seq(|names|, j requires 0 <= j < |names| => names[j].0)
  }

  function Elements(s: seq<string>): set<string> {
    set x | x in s
  }

  /** The raw keys of the columns. */
  function Raws(kept: TypeNames): set<string> {
    set j | 0 <= j < |kept| :: kept[j].1
  }

  /** One pivot row: the group sizes of row key `r` under the raw key of each kept column. */
  function RowCounts(pairs: seq<Pair>, r: string, kept: TypeNames): seq<nat> {
    seq(|kept|, j requires 0 <= j < |kept| => Count(pairs, r, kept[j].1))
  }

  function Body(pairs: seq<Pair>, rows: seq<string>, kept: TypeNames): seq<seq<nat>> {
    seq(|rows|, i requires 0 <= i < |rows| => RowCounts(pairs, rows[i], kept))
  }

  function Sum(s: seq<nat>): nat
    decreases |s|
  {
    if s == [] then 0 else s[0] + Sum(s[1..])
  }

  /** `sum(axis=0)` of one column. */
  function ColumnSum(m: seq<seq<nat>>, j: nat): nat
    decreases |m|
  {
    if m == [] then 0 else (if j < |m[0]| then m[0][j] else 0) + ColumnSum(m[1..], j)
  }

  function ColumnSums(m: seq<seq<nat>>, width: nat): seq<nat> {
    seq(width, j requires 0 <= j < width => ColumnSum(m, j))
  }

  /** `pivot["TOTAL"] = pivot.sum(axis=1)`: each row with its sum appended. */
  function WithRowTotals(body: seq<seq<nat>>): seq<seq<nat>> {
    seq(|body|, i requires 0 <= i < |body| => body[i] + [Sum(body[i])])
  }

  /** Then the TOTAL row, the column sums of every column including TOTAL. */
  function AddTotals(body: seq<seq<nat>>, width: nat): seq<seq<nat>> {
    var rows := WithRowTotals(body);
    rows + [ColumnSums(rows, width + 1)]
  }

  /** The whole summary table. */
  function Summary(pairs: seq<Pair>, names: TypeNames): (t: CountTable)
    ensures |t.rowLabels| == |t.cells| == |RowKeys(pairs)| + 1
    ensures |t.colLabels| == |Kept(pairs, names)| + 1
    ensures forall i :: 0 <= i < |t.cells| ==> |t.cells[i]| == |t.colLabels|
  {
    var rows := RowKeys(pairs);
    var kept := Kept(pairs, names);
    CountTable(rows + [Total], Shorts(kept) + [Total], AddTotals(Body(pairs, rows, kept), |kept|))
  }

  /** The summary's labels: one row per distinct row key of the complete records, sorted, then
      TOTAL; one column per raw column key that is a long or short name of an entry and occurs,
      labelled with that entry's short name, entry by entry in the names' order, then TOTAL. */
  lemma SummaryLabels(pairs: seq<Pair>, names: TypeNames)
    ensures var t := Summary(pairs, names);
            var rows := RowKeys(pairs);
            var kept := Kept(pairs, names);
            && t.rowLabels == rows + [Total]
            && StrictlySorted(rows)
            && (forall x :: x in rows <==> HasRowKey(pairs, x))
            && t.colLabels == Shorts(kept) + [Total]
            && (forall c :: c in kept <==> Relabels(names, c) && HasColumnKey(pairs, c.1))
            && InMapOrder(kept, names)
  {
    KeptMembers(pairs, names);
    KeptOrder(pairs, names);
  }

  /** The summary's counts: in each cell the group size (0 for a pair that never occurs); the
      TOTAL column holds the row sums over the kept types and the TOTAL row the column sums. */
  lemma SummaryCells(pairs: seq<Pair>, names: TypeNames)
    ensures var t := Summary(pairs, names);
            var rows := RowKeys(pairs);
            var kept := Kept(pairs, names);
            && |t.cells| == |rows| + 1
            && (forall i, j :: 0 <= i < |rows| && 0 <= j < |kept| ==>
                  t.cells[i][j] == Count(pairs, rows[i], kept[j].1))
            && (forall i :: 0 <= i < |t.cells| ==> t.cells[i][|kept|] == Sum(t.cells[i][..|kept|]))
            && (forall j :: 0 <= j <= |kept| ==> t.cells[|rows|][j] == ColumnSum(t.cells[..|rows|], j))
            && HasTotals(t)
  {
    var rows := RowKeys(pairs);
    var kept := Kept(pairs, names);
    TotalsConsistent(Body(pairs, rows, kept), |kept|);
  }

  /** One body cell of the summary: the group size of its row key and its column's raw key. */
  lemma SummaryCellAt(pairs: seq<Pair>, names: TypeNames, i: nat, j: nat)
    requires i < |RowKeys(pairs)| && j < |Kept(pairs, names)|
    ensures |Summary(pairs, names).cells| == |RowKeys(pairs)| + 1
    ensures |Summary(pairs, names).cells[i]| == |Kept(pairs, names)| + 1
    ensures Summary(pairs, names).cells[i][j] == Count(pairs, RowKeys(pairs)[i], Kept(pairs, names)[j].1)
  {
    SummaryCells(pairs, names);
  }

  /** The last column of `t` holds each row's sum, and its last row each column's sum. */
  ghost predicate HasTotals(t: CountTable) {
    var n := |t.cells| - 1;
    var w := |t.colLabels| - 1;
    && n >= 0 && w >= 0
    && (forall i :: 0 <= i <= n ==> |t.cells[i]| == w + 1)
    && (forall i :: 0 <= i <= n ==> t.cells[i][w] == Sum(t.cells[i][..w]))
    && (forall j :: 0 <= j <= w ==> t.cells[n][j] == ColumnSum(t.cells[..n], j))
  }

  /** All rows of `m` hold `width` numbers. */
  predicate Rectangular(m: seq<seq<nat>>, width: nat) {
    forall i :: 0 <= i < |m| ==> |m[i]| == width
  }

  /** The sum of all of a matrix's entries. */
  function TotalOf(m: seq<seq<nat>>): nat
    decreases |m|
  {
    if m == [] then 0 else Sum(m[0]) + TotalOf(m[1..])
  }

  lemma {:induction false} SumOfZeros(width: nat)
    ensures Sum(ColumnSums([], width)) == 0
    decreases width
  {
    if width > 0 {
      assert ColumnSums([], width)[1..] == ColumnSums([], width - 1);
      SumOfZeros(width - 1);
    }
  }

  lemma {:induction false} SumPointwise(a: seq<nat>, b: seq<nat>, c: seq<nat>)
    requires |a| == |b| == |c|
    requires forall j :: 0 <= j < |c| ==> c[j] == a[j] + b[j]
    ensures Sum(c) == Sum(a) + Sum(b)
    decreases |c|
  {
    if c != [] {
      SumPointwise(a[1..], b[1..], c[1..]);
    }
  }

  /** Summing the column sums counts every entry once, as summing the row sums does. */
  lemma {:induction false} ColumnSumsTotal(m: seq<seq<nat>>, width: nat)
    requires Rectangular(m, width)
    ensures Sum(ColumnSums(m, width)) == TotalOf(m)
    decreases |m|
  {
    if m == [] {
      SumOfZeros(width);
    } else {
      ColumnSumsTotal(m[1..], width);
      SumPointwise(m[0], ColumnSums(m[1..], width), ColumnSums(m, width));
    }
  }

  lemma {:induction false} ColumnSumWithTotals(body: seq<seq<nat>>, width: nat, j: nat)
    requires Rectangular(body, width)
    requires j <= width
    ensures ColumnSum(WithRowTotals(body), j) == if j < width then ColumnSum(body, j) else TotalOf(body)
    decreases |body|
  {
    if body != [] {
      assert WithRowTotals(body)[1..] == WithRowTotals(body[1..]);
      ColumnSumWithTotals(body[1..], width, j);
    }
  }

  /** The TOTAL column holds each row's sum, the TOTAL row each column's sum, and the corner
      holds both the sum of the TOTAL column and the sum of the TOTAL row. */
  lemma TotalsConsistent(body: seq<seq<nat>>, width: nat)
    requires Rectangular(body, width)
    ensures var t := AddTotals(body, width);
            && |t| == |body| + 1
            && Rectangular(t, width + 1)
            && (forall i :: 0 <= i < |t| ==> t[i][width] == Sum(t[i][..width]))
            && (forall i, j :: 0 <= i < |body| && 0 <= j < width ==> t[i][j] == body[i][j])
            && (forall j :: 0 <= j <= width ==> t[|body|][j] == ColumnSum(t[..|body|], j))
            && t[|body|][width] == TotalOf(body)
  {
    var rows := WithRowTotals(body);
    var t := AddTotals(body, width);
    assert t[..|body|] == rows;
    forall i | 0 <= i < |body|
      ensures t[i][width] == Sum(t[i][..width])
    {
      assert t[i][..width] == body[i];
    }
    ColumnSumWithTotals(body, width, width);
    assert t[|body|][..width] == ColumnSums(body, width) by {
      forall j | 0 <= j < width ensures t[|body|][j] == ColumnSum(body, j) {
        ColumnSumWithTotals(body, width, j);
      }
    }
    ColumnSumsTotal(body, width);
  }

  /** Records with both keys present whose row key is in `rs` and column key in `cs`. */
  function InCells(rs: set<string>, cs: set<string>): Pair -> bool {
    (p: Pair) => Complete(p) && p.0.value in rs && p.1.value in cs
  }

  /** The raw keys of a column list are the first column's and the rest's, and with distinct
      raw keys the first is not among the rest. */
  lemma RawsSplit(kept: TypeNames)
    requires kept != []
    requires forall a, b :: 0 <= a < b < |kept| ==> kept[a].1 != kept[b].1
    ensures Raws(kept) == {kept[0].1} + Raws(kept[1..])
    ensures kept[0].1 !in Raws(kept[1..])
  {
    forall x | x in Raws(kept) ensures x in {kept[0].1} + Raws(kept[1..]) {
      var j :| 0 <= j < |kept| && kept[j].1 == x;
      if j > 0 {
        assert kept[1..][j - 1] == kept[j];
      }
    }
  }

  lemma {:induction false} RowCountsSum(pairs: seq<Pair>, r: string, kept: TypeNames)
    requires forall a, b :: 0 <= a < b < |kept| ==> kept[a].1 != kept[b].1
    ensures Sum(RowCounts(pairs, r, kept)) == |Filter(pairs, InCells({r}, Raws(kept)))|
    decreases |kept|
  {
    if kept == [] {
      FilterEmptyIff(pairs, InCells({r}, Raws(kept)));
    } else {
      RowCountsSum(pairs, r, kept[1..]);
      assert RowCounts(pairs, r, kept)[1..] == RowCounts(pairs, r, kept[1..]);
      RawsSplit(kept);
      FilterCountDisjoint(pairs, Is(r, kept[0].1), InCells({r}, Raws(kept[1..])), InCells({r}, Raws(kept)));
    }
  }

  lemma {:induction false} BodyTotal(pairs: seq<Pair>, rows: seq<string>, kept: TypeNames)
    requires forall a, b :: 0 <= a < b < |kept| ==> kept[a].1 != kept[b].1
    requires forall a, b :: 0 <= a < b < |rows| ==> rows[a] != rows[b]
    ensures TotalOf(Body(pairs, rows, kept)) == |Filter(pairs, InCells(Elements(rows), Raws(kept)))|
    decreases |rows|
  {
    if rows == [] {
      FilterEmptyIff(pairs, InCells(Elements(rows), Raws(kept)));
    } else {
      BodyTotal(pairs, rows[1..], kept);
      RowCountsSum(pairs, rows[0], kept);
      assert Body(pairs, rows, kept)[1..] == Body(pairs, rows[1..], kept);
      assert Elements(rows) == {rows[0]} + (Elements(rows[1..]));
      assert rows[0] !in rows[1..];
      FilterCountDisjoint(pairs, InCells({rows[0]}, Raws(kept)),
        InCells(Elements(rows[1..]), Raws(kept)), InCells(Elements(rows), Raws(kept)));
    }
  }

  /** Records with both keys present whose column key is a long or short name in `names`. */
  function OfType(names: TypeNames): Pair -> bool {
    (p: Pair) => Complete(p) && p.1.value in Mapped(names)
  }

  /** The corner of the summary counts every record that has both keys and a type the table
      names, in either spelling: no such record is lost by the column selection, and none is
      counted twice. */
  lemma GrandTotal(pairs: seq<Pair>, names: TypeNames)
    requires DistinctNames(names)
    ensures var t := Summary(pairs, names);
            t.cells[|t.cells| - 1][|t.colLabels| - 1] == |Filter(pairs, OfType(names))|
  {
    var rows := RowKeys(pairs);
    var kept := Kept(pairs, names);
    var body := Body(pairs, rows, kept);
    KeptDistinct(pairs, names);
    BodyTotal(pairs, rows, kept);
    TotalsConsistent(body, |kept|);
    forall i | 0 <= i < |pairs|
      ensures InCells(Elements(rows), Raws(kept))(pairs[i]) == OfType(names)(pairs[i])
    {
      SelectionAgrees(pairs, names, i);
    }
    FilterAgree(pairs, InCells(Elements(rows), Raws(kept)), OfType(names));
  }

  /** A record lies in the summary's cells exactly when it has both keys and a named type, in
      either spelling. */
  lemma SelectionAgrees(pairs: seq<Pair>, names: TypeNames, i: nat)
    requires i < |pairs|
    ensures InCells(Elements(RowKeys(pairs)), Raws(Kept(pairs, names)))(pairs[i]) == OfType(names)(pairs[i])
  {
    var p := pairs[i];
    var kept := Kept(pairs, names);
    if Complete(p) {
      var x := p.1.value;
      assert HasRowKey(pairs, p.0.value);
      assert HasColumnKey(pairs, x);
      if x in Mapped(names) {
        var j :| 0 <= j < |names| && (names[j].0 == x || names[j].1 == x);
        assert Relabels(names, (names[j].0, x));
        KeptMember(pairs, names, (names[j].0, x));
        var k :| 0 <= k < |kept| && kept[k] == (names[j].0, x);
      }
      if x in Raws(kept) {
        var k :| 0 <= k < |kept| && kept[k].1 == x;
        var j := KeptEntry(pairs, names, k);
      }
    }
  }

  /** With no spelling shared between entries, the kept columns have distinct raw keys. */
  lemma {:induction false} KeptDistinct(pairs: seq<Pair>, names: TypeNames)
    requires DistinctNames(names)
    ensures forall a, b :: 0 <= a < b < |Kept(pairs, names)| ==> Kept(pairs, names)[a].1 != Kept(pairs, names)[b].1
    decreases |names|
  {
    if names != [] {
      KeptDistinct(pairs, names[1..]);
      var ec := EntryColumns(pairs, names[0]);
      var rest := Kept(pairs, names[1..]);
      var kept := ec + rest;
      forall a, b | 0 <= a < b < |kept|
        ensures kept[a].1 != kept[b].1
      {
        if b < |ec| {
          assert kept[a].1 == EntryRaws(pairs, names[0])[a] && kept[b].1 == EntryRaws(pairs, names[0])[b];
        } else if a < |ec| {
          assert kept[a].1 == EntryRaws(pairs, names[0])[a];
          assert kept[a].1 == names[0].0 || kept[a].1 == names[0].1;
          var j := KeptEntry(pairs, names[1..], b - |ec|);
          assert kept[b] == rest[b - |ec|];
          assert names[1..][j] == names[j + 1];
          assert kept[b].1 == names[j + 1].0 || kept[b].1 == names[j + 1].1;
          assert kept[a].1 != kept[b].1;
        } else {
          assert kept[a] == rest[a - |ec|];
          assert kept[b] == rest[b - |ec|];
          assert 0 <= a - |ec| < b - |ec| < |rest|;
        }
      }
    }
  }

  /** The (row key, column key) records of a frame: the cells of columns `rk` and `ck`, row by row. */
  function KeyPairs(rows: seq<Row>, rk: nat, ck: nat): seq<Pair> {
    seq(|rows|, i requires 0 <= i < |rows| => (Get(rows[i], rk), Get(rows[i], ck)))
  }

  /** Counting records by a test on their keys counts the rows whose key cells pass it. */
  lemma {:induction false} KeyPairsCount(rows: seq<Row>, rk: nat, ck: nat, p: Pair -> bool, q: Row -> bool)
    requires forall r :: q(r) == p((Get(r, rk), Get(r, ck)))
    ensures |Filter(KeyPairs(rows, rk, ck), p)| == |Filter(rows, q)|
    decreases |rows|
  {
    if rows != [] {
      KeyPairsCount(rows[1..], rk, ck, p, q);
      assert KeyPairs(rows, rk, ck)[1..] == KeyPairs(rows[1..], rk, ck);
    }
  }

  /** The row's key cells are `a` and `b`. */
  function RowIs(rk: nat, a: string, ck: nat, b: string): Row -> bool {
    (r: Row) => Get(r, rk) == Some(a) && Get(r, ck) == Some(b)
  }

  /** The row has both keys, and its column key is one of `types`. */
  function RowOfType(rk: nat, ck: nat, types: set<string>): Row -> bool {
    (r: Row) => Get(r, rk).Some? && Get(r, ck).Some? && Get(r, ck).value in types
  }

  /** A row key of the records is the key cell of a row that also has a column key. */
  lemma KeyPairsRowKey(rows: seq<Row>, rk: nat, ck: nat, x: string)
    ensures HasRowKey(KeyPairs(rows, rk, ck), x) <==>
              exists i :: 0 <= i < |rows| && Get(rows[i], rk) == Some(x) && Get(rows[i], ck).Some?
  {
    var pairs := KeyPairs(rows, rk, ck);
    if exists i :: 0 <= i < |rows| && Get(rows[i], rk) == Some(x) && Get(rows[i], ck).Some? {
      var i :| 0 <= i < |rows| && Get(rows[i], rk) == Some(x) && Get(rows[i], ck).Some?;
      assert Complete(pairs[i]) && pairs[i].0.value == x;
    }
  }

  /** A column key of the records is the key cell of a row that also has a row key. */
  lemma KeyPairsColumnKey(rows: seq<Row>, rk: nat, ck: nat, y: string)
    ensures HasColumnKey(KeyPairs(rows, rk, ck), y) <==>
              exists i :: 0 <= i < |rows| && Get(rows[i], ck) == Some(y) && Get(rows[i], rk).Some?
  {
    var pairs := KeyPairs(rows, rk, ck);
    if exists i :: 0 <= i < |rows| && Get(rows[i], ck) == Some(y) && Get(rows[i], rk).Some? {
      var i :| 0 <= i < |rows| && Get(rows[i], ck) == Some(y) && Get(rows[i], rk).Some?;
      assert Complete(pairs[i]) && pairs[i].1.value == y;
    }
  }

  /** The summary of a frame's key columns counts rows: each body cell is the number of rows
      with that pair of keys. */
  lemma RowSummaryCells(rows: seq<Row>, rk: nat, ck: nat, names: TypeNames)
    ensures var pairs := KeyPairs(rows, rk, ck);
            var t := Summary(pairs, names);
            var keys := RowKeys(pairs);
            var kept := Kept(pairs, names);
            forall i, j :: 0 <= i < |keys| && 0 <= j < |kept| ==>
              t.cells[i][j] == |Filter(rows, RowIs(rk, keys[i], ck, kept[j].1))|
  {
    var pairs := KeyPairs(rows, rk, ck);
    var keys := RowKeys(pairs);
    var kept := Kept(pairs, names);
    SummaryCells(pairs, names);
    forall i, j | 0 <= i < |keys| && 0 <= j < |kept|
      ensures Count(pairs, keys[i], kept[j].1) == |Filter(rows, RowIs(rk, keys[i], ck, kept[j].1))|
    {
      KeyPairsCount(rows, rk, ck, Is(keys[i], kept[j].1), RowIs(rk, keys[i], ck, kept[j].1));
    }
  }

  /** The corner of the summary of a frame's key columns counts the rows with both keys and a
      named type, in either spelling. */
  lemma RowSummaryTotal(rows: seq<Row>, rk: nat, ck: nat, names: TypeNames)
    requires DistinctNames(names)
    ensures var t := Summary(KeyPairs(rows, rk, ck), names);
            t.cells[|t.cells| - 1][|t.colLabels| - 1] == |Filter(rows, RowOfType(rk, ck, Mapped(names)))|
  {
    GrandTotal(KeyPairs(rows, rk, ck), names);
    KeyPairsCount(rows, rk, ck, OfType(names), RowOfType(rk, ck, Mapped(names)));
  }
}
