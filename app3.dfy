/** The third dashboard (app3.py): the sheets whose name contains "Participants", each with an
    "as of" subtitle found in its first row; category, institution-type and search filters; for the
    full Bills Pay sheet, a QR / non-QR participation summary by institution type and one table of
    participation marks per institution type. */
module App3 {
  import opened Wrappers
  import opened Text
  import opened Seqs
  import opened Sheets
  import opened Filters
  import AsOf
  import Loader
  import Listing
  import Pivot

  /** The sheet takes part: its name contains "Participants". */
  predicate Eligible(name: string) {
    Contains(name, "Participants")
  }

  /** The texts of the first row's non-empty cells joined by single spaces. */
  function Joined(first: Row): string {
    Join(" ", NonEmptyTexts(first))
  }

  /** The subtitle: "as of " and the date of the first match of the "as of" pattern in the
      joined first row, or the empty text when nothing matches. */
  function Subtitle(first: Row): string {
    match AsOf.Search(Joined(first))
    case Some(d) => "as of " + d
    case None => ""
  }

  /** The subtitle reports the leftmost match: it is "as of " and the date of a match that no
      other match starts before, and it is empty exactly when nothing in the joined row matches. */
  lemma SubtitleIsFirstDate(first: Row)
    ensures var s := Joined(first);
            Subtitle(first) == "" <==> forall i, k :: !AsOf.MatchesAt(s, i, k)
    ensures var s := Joined(first);
            Subtitle(first) != "" ==>
              exists i: nat, k: nat :: && AsOf.MatchesAt(s, i, k)
                             && (forall p, q :: 0 <= p < i ==> !AsOf.MatchesAt(s, p, q))
                             && Subtitle(first) == "as of " + s[k..k + 10]
  {
    var s := Joined(first);
    if AsOf.Search(s).Some? {
      var i, k := AsOf.SearchSome(s);
      assert |"as of " + s[k..k + 10]| > 0;
    } else {
      forall i, k ensures !AsOf.MatchesAt(s, i, k) {
        AsOf.SearchNone(s, i, k);
      }
    }
  }

  /** Whatever precedes it, a match in the joined row decides the subtitle when no match starts
      before it. */
  lemma SubtitleFromMatch(first: Row, i: nat, k: nat)
    requires AsOf.MatchesAt(Joined(first), i, k)
    requires forall p, q :: 0 <= p < i ==> !AsOf.MatchesAt(Joined(first), p, q)
    ensures Subtitle(first) == "as of " + Joined(first)[k..k + 10]
  {
    AsOf.SearchFindsLeftmost(Joined(first), i, k);
  }

  /** The column names: each cell of the second row as text, stripped. */
  function Headers(second: Row): seq<string> {
    seq(|second|, j requires 0 <= j < |second| => Strip(CellStr(second[j])))
  }

  /** One participant sheet: subtitle from the first row, names from the second, the data rows
      from the third on without the empty ones; fewer than two rows raise an `IndexError`. */
  function LoadSheet(w: Worksheet): Result<Loaded, Failure> {
    if |w.grid| < 2 then Err(SheetTooShort(w.name))
    else Ok(Loaded(w.name, Subtitle(w.grid[0]), Table(Headers(w.grid[1]), DropEmptyRows(w.grid[2..]))))
  }

  /** One name per cell of the second row, without surrounding whitespace, and "nan" for an
      empty cell. */
  lemma HeadersShape(second: Row)
    ensures |Headers(second)| == |second|
    ensures forall j :: 0 <= j < |second| ==> Strip(Headers(second)[j]) == Headers(second)[j]
    ensures forall j :: 0 <= j < |second| && second[j].None? ==> Headers(second)[j] == "nan"
  {
    forall j | 0 <= j < |second|
      ensures Strip(Headers(second)[j]) == Headers(second)[j]
    {
      StripIdempotent(CellStr(second[j]));
    }
    assert StripLeading("nan") == "nan";
    assert StripTrailing("nan") == "nan";
  }

  /** A sheet loads exactly when it has two rows; its names are the second row's headers; the
      data rows are the rows from the third on that hold a value, in order, and no other (the
      first two rows never appear as data). */
  lemma LoadSheetShape(w: Worksheet)
    ensures LoadSheet(w).Err? <==> |w.grid| < 2
    ensures LoadSheet(w).Err? ==> LoadSheet(w).error == SheetTooShort(w.name)
    ensures LoadSheet(w).Ok? ==>
              var l := LoadSheet(w).value;
              && l.name == w.name
              && l.subtitle == Subtitle(w.grid[0])
              && l.table.columns == Headers(w.grid[1])
              && Selects(l.table.rows, w.grid[2..], HasValue)
  {
    if |w.grid| >= 2 {
      FilterSelects(w.grid[2..], HasValue);
    }
  }

  /** `load_participant_sheets`: the eligible sheets in workbook order, or the failure of the
      first eligible sheet that has fewer than two rows. */
  method LoadParticipantSheets(wb: Workbook) returns (r: Result<seq<Loaded>, Failure>)
    ensures r == Loader.Collect(wb, Eligible, LoadSheet)
    ensures r.Ok? <==> forall i :: 0 <= i < |wb| && Eligible(wb[i].name) ==> |wb[i].grid| >= 2
    ensures r.Err? ==> exists i :: 0 <= i < |wb| && Eligible(wb[i].name) && r.error == SheetTooShort(wb[i].name)
    ensures r.Ok? ==>
              var f := Filter(wb, Loader.OnName(Eligible));
              |r.value| == |f| && forall k :: 0 <= k < |f| ==> LoadSheet(f[k]) == Ok(r.value[k])
  {
    r := Loader.CollectSheets(wb, Eligible, LoadSheet);
    CollectOutcome(wb);
    if r.Ok? {
      Loader.CollectEntries(wb, Eligible, LoadSheet);
    }
  }

  lemma CollectOutcome(sheets: seq<Worksheet>)
    ensures var r := Loader.Collect(sheets, Eligible, LoadSheet);
            && (r.Ok? <==> forall i :: 0 <= i < |sheets| && Eligible(sheets[i].name) ==> |sheets[i].grid| >= 2)
            && (r.Err? ==> exists i :: 0 <= i < |sheets| && Eligible(sheets[i].name) && r.error == SheetTooShort(sheets[i].name))
  {
    Loader.CollectOkIff(sheets, Eligible, LoadSheet);
    if Loader.Collect(sheets, Eligible, LoadSheet).Err? {
      var i := Loader.CollectErrIsFirst(sheets, Eligible, LoadSheet);
    }
  }

  /** A sheet appears in a successful load only if its name contains "Participants", and every
      such sheet appears, under its own name. */
  lemma LoadedNames(sheets: seq<Worksheet>)
    requires Loader.Collect(sheets, Eligible, LoadSheet).Ok?
    ensures var d := Loader.Collect(sheets, Eligible, LoadSheet).value;
            && (forall k :: 0 <= k < |d| ==> Contains(d[k].name, "Participants"))
            && (forall i :: 0 <= i < |sheets| && Contains(sheets[i].name, "Participants") ==>
                  exists k :: 0 <= k < |d| && d[k].name == sheets[i].name)
  {
    Loader.CollectNames(sheets, Eligible, LoadSheet);
  }

  /** The row passes the sidebar filters: its category and its institution type among the
      selected ones, each when the sheet has that column, and its institution containing the
      search when there is one. */
  function Keep(columns: seq<string>, selectedCategories: set<string>, selectedTypes: set<string>,
                search: string): Row -> bool
  {
    (r: Row) =>
      && (match ColumnIndex(columns, "Category")
          case Some(c) => CellIn(c, selectedCategories)(r)
          case None => true)
      && (match ColumnIndex(columns, "Institution Type")
          case Some(t) => CellIn(t, selectedTypes)(r)
          case None => true)
      && (search == "" ||
          match ColumnIndex(columns, "Institution")
          case Some(n) => CellMatches(n, search)(r)
          case None => false)
  }

  /** The filtered frame: the rows passing `Keep`, in order; a search on a sheet without an
      Institution column raises a `KeyError`. */
  method ApplyFilters(df: Table, selectedCategories: set<string>, selectedTypes: set<string>,
                      search: string) returns (r: Result<Table, Failure>)
    ensures r.Err? <==> search != "" && "Institution" !in df.columns
    ensures r.Err? ==> r.error == MissingColumn("Institution")
    ensures r.Ok? ==> r.value.columns == df.columns
    ensures r.Ok? ==> Selects(r.value.rows, df.rows, Keep(df.columns, selectedCategories, selectedTypes, search))
  {
    var keep := Keep(df.columns, selectedCategories, selectedTypes, search);
    var all: Row -> bool := (x: Row) => true;
    var passed := all;
    var dff := df;
    FilterKeepsAll(df.rows, all);
    var c := ColumnIndex(dff.columns, "Category");
    if c.Some? {
      var p := CellIn(c.value, selectedCategories);
      var both := (x: Row) => passed(x) && p(x);
      FilterFilter(df.rows, passed, p, both);
      dff := Table(dff.columns, Filter(dff.rows, p));
      passed := both;
    }
    var t := ColumnIndex(dff.columns, "Institution Type");
    if t.Some? {
      var p := CellIn(t.value, selectedTypes);
      var both := (x: Row) => passed(x) && p(x);
      FilterFilter(df.rows, passed, p, both);
      dff := Table(dff.columns, Filter(dff.rows, p));
      passed := both;
    }
    if search != "" {
      var n := ColumnIndex(dff.columns, "Institution");
      if n.None? {
        return Err(MissingColumn("Institution"));
      }
      var p := CellMatches(n.value, search);
      var both := (x: Row) => passed(x) && p(x);
      FilterFilter(df.rows, passed, p, both);
      dff := Table(dff.columns, Filter(dff.rows, p));
      passed := both;
    }
    FilterAgree(df.rows, passed, keep);
    FilterSelects(df.rows, keep);
    return Ok(dff);
  }

  /** A participation flag is set: its text, upper-cased, is "TRUE". */
  predicate IsTrue(c: Cell) {
    ToUpper(CellStr(c)) == "TRUE"
  }

  /** A flag is set exactly when its cell spells "true" in any mix of letter cases; an empty
      cell is never set. */
  lemma IsTrueMeaning(c: Cell)
    ensures IsTrue(c) <==> c.Some? && ToLower(c.value) == "true"
    ensures c.None? ==> !IsTrue(c)
  {
    UpperMatchIsLowerMatch(CellStr(c), "TRUE");
    assert ToLower("TRUE") == "true";
    if c.None? {
      assert ToUpper(CellStr(c))[0] == 'N';
    }
  }

  /** The positions of the five columns the QR summary reads. */
  datatype FlagColumns = FlagColumns(instType: nat, qrSender: nat, qrReceiver: nat,
                                     nonQrSender: nat, nonQrReceiver: nat)

  /** The QR summary's required columns, found only when all five are present. */
  function FindFlagColumns(columns: seq<string>): (fc: Option<FlagColumns>)
    ensures fc.Some? <==> "Institution Type" in columns && "QR Sender" in columns && "QR Receiver" in columns
                          && "Non-QR Sender" in columns && "Non-QR Receiver" in columns
    ensures fc.Some? ==>
              && fc.value.instType < |columns| && columns[fc.value.instType] == "Institution Type"
              && fc.value.qrSender < |columns| && columns[fc.value.qrSender] == "QR Sender"
              && fc.value.qrReceiver < |columns| && columns[fc.value.qrReceiver] == "QR Receiver"
              && fc.value.nonQrSender < |columns| && columns[fc.value.nonQrSender] == "Non-QR Sender"
              && fc.value.nonQrReceiver < |columns| && columns[fc.value.nonQrReceiver] == "Non-QR Receiver"
  {
    var t := ColumnIndex(columns, "Institution Type");
    var a := ColumnIndex(columns, "QR Sender");
    var b := ColumnIndex(columns, "QR Receiver");
    var c := ColumnIndex(columns, "Non-QR Sender");
    var d := ColumnIndex(columns, "Non-QR Receiver");
    if t.Some? && a.Some? && b.Some? && c.Some? && d.Some? then
      Some(FlagColumns(t.value, a.value, b.value, c.value, d.value))
    else None
  }

  /** The four normalised flags of one row. */
  datatype Flags = Flags(qrSender: bool, qrReceiver: bool, nonQrSender: bool, nonQrReceiver: bool)

  function FlagsOf(r: Row, fc: FlagColumns): Flags {
    Flags(IsTrue(Get(r, fc.qrSender)), IsTrue(Get(r, fc.qrReceiver)),
          IsTrue(Get(r, fc.nonQrSender)), IsTrue(Get(r, fc.nonQrReceiver)))
  }

  /** A classification record: the QR category and the row's institution type. */
  type Record = (string, Cell)

  /** The records the loop body appends for one row, in the order of its six tests. */
  function RowRecords(f: Flags, instType: Cell): seq<Record> {
    (if f.qrSender && f.qrReceiver then [("QR Sender/Receiver", instType)] else []) +
    (if f.qrSender && !f.qrReceiver then [("QR Sender Only", instType)] else []) +
    (if !f.qrSender && f.qrReceiver then [("QR Receiver Only", instType)] else []) +
    (if f.nonQrSender && f.nonQrReceiver then [("Non-QR Sender/Receiver", instType)] else []) +
    (if f.nonQrSender && !f.nonQrReceiver then [("Non-QR Sender Only", instType)] else []) +
    (if !f.nonQrSender && f.nonQrReceiver then [("Non-QR Receiver Only", instType)] else [])
  }

  const QrCategories: set<string> := {"QR Sender/Receiver", "QR Sender Only", "QR Receiver Only"}
  const NonQrCategories: set<string> := {"Non-QR Sender/Receiver", "Non-QR Sender Only", "Non-QR Receiver Only"}

  /** The QR category the QR flags call for, if any. */
  function QrCategory(sender: bool, receiver: bool): Option<string> {
    if sender && receiver then Some("QR Sender/Receiver")
    else if sender then Some("QR Sender Only")
    else if receiver then Some("QR Receiver Only")
    else None
  }

  /** The non-QR category the non-QR flags call for, if any. */
  function NonQrCategory(sender: bool, receiver: bool): Option<string> {
    if sender && receiver then Some("Non-QR Sender/Receiver")
    else if sender then Some("Non-QR Sender Only")
    else if receiver then Some("Non-QR Receiver Only")
    else None
  }

  function OptionToSeq(o: Option<string>, instType: Cell): seq<Record> {
    match o
    case Some(c) => [(c, instType)]
    case None => []
  }

  /** The decision table of one row: the six independent tests emit at most one QR record,
      chosen by the QR flags alone, followed by at most one non-QR record, chosen by the non-QR
      flags alone; a row with neither QR flag emits no QR record; every record carries the row's
      institution type. */
  lemma RowRecordsDecision(f: Flags, instType: Cell)
    ensures RowRecords(f, instType) ==
              OptionToSeq(QrCategory(f.qrSender, f.qrReceiver), instType) +
              OptionToSeq(NonQrCategory(f.nonQrSender, f.nonQrReceiver), instType)
    ensures QrCategory(f.qrSender, f.qrReceiver).None? <==> !f.qrSender && !f.qrReceiver
    ensures NonQrCategory(f.nonQrSender, f.nonQrReceiver).None? <==> !f.nonQrSender && !f.nonQrReceiver
    ensures |RowRecords(f, instType)| <= 2
    ensures forall x :: x in RowRecords(f, instType) ==> x.1 == instType
    ensures |Filter(RowRecords(f, instType), InCategories(QrCategories))| == if f.qrSender || f.qrReceiver then 1 else 0
    ensures |Filter(RowRecords(f, instType), InCategories(NonQrCategories))| == if f.nonQrSender || f.nonQrReceiver then 1 else 0
  {
    var qr := OptionToSeq(QrCategory(f.qrSender, f.qrReceiver), instType);
    var nqr := OptionToSeq(NonQrCategory(f.nonQrSender, f.nonQrReceiver), instType);
    RowRecordsSplit(f, instType);
    FilterConcat(qr, nqr, InCategories(QrCategories));
    FilterConcat(qr, nqr, InCategories(NonQrCategories));
    QrRecordGroup(f.qrSender, f.qrReceiver, instType);
    NonQrRecordGroup(f.nonQrSender, f.nonQrReceiver, instType);
  }

  /** The QR record of a row, if any, is in the QR group and not in the non-QR one. */
  lemma QrRecordGroup(sender: bool, receiver: bool, instType: Cell)
    ensures var qr := OptionToSeq(QrCategory(sender, receiver), instType);
            && |qr| == (if sender || receiver then 1 else 0)
            && Filter(qr, InCategories(QrCategories)) == qr
            && Filter(qr, InCategories(NonQrCategories)) == []
  {
    assert "Non-QR Sender/Receiver"[0] == 'N' && "Non-QR Sender Only"[0] == 'N' && "Non-QR Receiver Only"[0] == 'N';
    assert "QR Sender/Receiver"[0] == 'Q' && "QR Sender Only"[0] == 'Q' && "QR Receiver Only"[0] == 'Q';
  }

  /** The non-QR record of a row, if any, is in the non-QR group and not in the QR one. */
  lemma NonQrRecordGroup(sender: bool, receiver: bool, instType: Cell)
    ensures var nqr := OptionToSeq(NonQrCategory(sender, receiver), instType);
            && |nqr| == (if sender || receiver then 1 else 0)
            && Filter(nqr, InCategories(NonQrCategories)) == nqr
            && Filter(nqr, InCategories(QrCategories)) == []
  {
    assert "Non-QR Sender/Receiver"[0] == 'N' && "Non-QR Sender Only"[0] == 'N' && "Non-QR Receiver Only"[0] == 'N';
    assert "QR Sender/Receiver"[0] == 'Q' && "QR Sender Only"[0] == 'Q' && "QR Receiver Only"[0] == 'Q';
  }

  /** The six tests are two independent groups of three. */
  lemma RowRecordsSplit(f: Flags, instType: Cell)
    ensures RowRecords(f, instType) ==
              OptionToSeq(QrCategory(f.qrSender, f.qrReceiver), instType) +
              OptionToSeq(NonQrCategory(f.nonQrSender, f.nonQrReceiver), instType)
  {
  }

  function InCategories(cats: set<string>): Record -> bool {
    (x: Record) => x.0 in cats
  }

  /** The records of a frame, row after row. */
  function Records(rows: seq<Row>, fc: FlagColumns): seq<Record>
    decreases |rows|
  {
    if rows == [] then []
    else Records(rows[..|rows| - 1], fc) + RowRecords(FlagsOf(rows[|rows| - 1], fc), Get(rows[|rows| - 1], fc.instType))
  }

  /** The three QR tests of the loop body. */
  method AppendQr(records: seq<Record>, instType: Cell, qrS: bool, qrR: bool) returns (out: seq<Record>)
    ensures out == records + OptionToSeq(QrCategory(qrS, qrR), instType)
  {
    out := records;
    if qrS && qrR {
      out := out + [("QR Sender/Receiver", instType)];
    }
    if qrS && !qrR {
      out := out + [("QR Sender Only", instType)];
    }
    if !qrS && qrR {
      out := out + [("QR Receiver Only", instType)];
    }
  }

  /** The three non-QR tests of the loop body, independent of the QR ones. */
  method AppendNonQr(records: seq<Record>, instType: Cell, nqrS: bool, nqrR: bool) returns (out: seq<Record>)
    ensures out == records + OptionToSeq(NonQrCategory(nqrS, nqrR), instType)
  {
    out := records;
    if nqrS && nqrR {
      out := out + [("Non-QR Sender/Receiver", instType)];
    }
    if nqrS && !nqrR {
      out := out + [("Non-QR Sender Only", instType)];
    }
    if !nqrS && nqrR {
      out := out + [("Non-QR Receiver Only", instType)];
    }
  }

  /** The records of one more row follow those of the rows before it. */
  lemma RecordsSnoc(rows: seq<Row>, i: nat, fc: FlagColumns)
    requires i < |rows|
    ensures Records(rows[..i + 1], fc) ==
              Records(rows[..i], fc) + RowRecords(FlagsOf(rows[i], fc), Get(rows[i], fc.instType))
  {
    assert rows[..i + 1][..i] == rows[..i];
  }

  /** The classification loop: one pass over the rows, appending each row's records. */
  method ClassifyRows(rows: seq<Row>, fc: FlagColumns) returns (records: seq<Record>)
    ensures records == Records(rows, fc)
  {
    records := [];
    var i := 0;
    while i < |rows|
      invariant 0 <= i <= |rows|
      invariant records == Records(rows[..i], fc)
    {
      records := ClassifyRow(records, rows[i], fc);
      RecordsSnoc(rows, i, fc);
      i := i + 1;
    }
    assert rows[..|rows|] == rows;
  }

  /** The loop body: the six tests on one row. */
  method ClassifyRow(records: seq<Record>, row: Row, fc: FlagColumns) returns (out: seq<Record>)
    ensures out == records + RowRecords(FlagsOf(row, fc), Get(row, fc.instType))
  {
    var instType := Get(row, fc.instType);
    var f := FlagsOf(row, fc);
    out := AppendQr(records, instType, f.qrSender, f.qrReceiver);
    out := AppendNonQr(out, instType, f.nonQrSender, f.nonQrReceiver);
    RowRecordsSplit(f, instType);
  }

  /** The records as group-by keys. */
  function RecordPairs(records: seq<Record>): seq<Pivot.Pair> {
    seq(|records|, i requires 0 <= i < |records| => (Some(records[i].0), records[i].1))
  }

  /** The row's flags and type call for the record `(cat, Some(t))`. */
  function Emits(fc: FlagColumns, cat: string, t: string): Row -> bool {
    (r: Row) => (cat, Some(t)) in RowRecords(FlagsOf(r, fc), Get(r, fc.instType))
  }

  /** A row emits a given record at most once. */
  lemma RowRecordsOnce(f: Flags, instType: Cell, cat: string, t: string)
    ensures |Filter(RecordPairs(RowRecords(f, instType)), Pivot.Is(cat, t))| ==
              if (cat, Some(t)) in RowRecords(f, instType) then 1 else 0
  {
    RowRecordsSplit(f, instType);
    QrRecordGroup(f.qrSender, f.qrReceiver, instType);
    NonQrRecordGroup(f.nonQrSender, f.nonQrReceiver, instType);
    GroupsOnce(QrCategory(f.qrSender, f.qrReceiver), NonQrCategory(f.nonQrSender, f.nonQrReceiver), instType, cat, t);
  }

  /** A QR record followed by a non-QR record holds any given record at most once. */
  lemma GroupsOnce(q: Option<string>, n: Option<string>, instType: Cell, cat: string, t: string)
    requires Filter(OptionToSeq(q, instType), InCategories(NonQrCategories)) == []
    requires Filter(OptionToSeq(n, instType), InCategories(NonQrCategories)) == OptionToSeq(n, instType)
    ensures var rs := OptionToSeq(q, instType) + OptionToSeq(n, instType);
            |Filter(RecordPairs(rs), Pivot.Is(cat, t))| == if (cat, Some(t)) in rs then 1 else 0
  {
    var x := (cat, Some(t));
    var qr := OptionToSeq(q, instType);
    var nqr := OptionToSeq(n, instType);
    assert RecordPairs(qr + nqr) == RecordPairs(qr) + RecordPairs(nqr);
    FilterConcat(RecordPairs(qr), RecordPairs(nqr), Pivot.Is(cat, t));
    OptionRecordOnce(q, instType, cat, t);
    OptionRecordOnce(n, instType, cat, t);
    if x in nqr {
      assert x in Filter(nqr, InCategories(NonQrCategories));
      FilterMember(qr, InCategories(NonQrCategories), x);
    }
  }

  /** A row emits at most one record per group, so it counts at most once in it. */
  lemma OptionRecordOnce(o: Option<string>, instType: Cell, cat: string, t: string)
    ensures var rs := OptionToSeq(o, instType);
            |Filter(RecordPairs(rs), Pivot.Is(cat, t))| == if (cat, Some(t)) in rs then 1 else 0
  {
    var rs := OptionToSeq(o, instType);
    if o.Some? {
      assert RecordPairs(rs) == [(Some(o.value), instType)];
      FilterSingle((Some(o.value), instType), Pivot.Is(cat, t));
    }
  }

  lemma RecordPairsConcat(a: seq<Record>, b: seq<Record>)
    ensures RecordPairs(a + b) == RecordPairs(a) + RecordPairs(b)
  {
  }

  /** Counting records by category and type counts the rows that emit that record: no row is
      counted twice in one group. */
  lemma {:induction false} RecordsCount(rows: seq<Row>, fc: FlagColumns, cat: string, t: string)
    ensures Pivot.Count(RecordPairs(Records(rows, fc)), cat, t) == |Filter(rows, Emits(fc, cat, t))|
    decreases |rows|
  {
    if rows != [] {
      var init := rows[..|rows| - 1];
      var last := rows[|rows| - 1];
      var rs := RowRecords(FlagsOf(last, fc), Get(last, fc.instType));
      var emits := Emits(fc, cat, t);
      var once := if (cat, Some(t)) in rs then 1 else 0;
      assert rows == init + [last];
      assert Records(rows, fc) == Records(init, fc) + rs;
      assert Pivot.Count(RecordPairs(Records(rows, fc)), cat, t) ==
             Pivot.Count(RecordPairs(Records(init, fc)), cat, t) + once by {
        RecordPairsConcat(Records(init, fc), rs);
        FilterConcat(RecordPairs(Records(init, fc)), RecordPairs(rs), Pivot.Is(cat, t));
        RowRecordsOnce(FlagsOf(last, fc), Get(last, fc.instType), cat, t);
      }
      assert |Filter(rows, emits)| == |Filter(init, emits)| + once by {
        FilterConcat(init, [last], emits);
        FilterSingle(last, emits);
      }
      RecordsCount(init, fc, cat, t);
    }
  }

  /** The institution types of the QR summary and the tables, long name mapped to short name, in
      the order the tables show them. */
  const InstTypeShort: Pivot.TypeNames := [
    ("UKBs", "Universal and Commercial Banks (U/KBs)"),
    ("TBs", "Thrift Banks (TBs)"),
    ("RBs", "Rural Banks (RBs)"),
    ("DBs", "Digital Banks"),
    ("EMI-NBFI", "Electronic Money Issuers (EMI) - Others")
  ]

  /** No spelling is shared between mapped types: every short and long name starts with its
      type's own initial. */
  lemma InstTypeShortDistinct()
    ensures Pivot.DistinctNames(InstTypeShort)
  {
    assert InstTypeShort[0].0[0] == 'U' && InstTypeShort[0].1[0] == 'U';
    assert InstTypeShort[1].0[0] == 'T' && InstTypeShort[1].1[0] == 'T';
    assert InstTypeShort[2].0[0] == 'R' && InstTypeShort[2].1[0] == 'R';
    assert InstTypeShort[3].0[0] == 'D' && InstTypeShort[3].1[0] == 'D';
    assert InstTypeShort[4].0[0] == 'E' && InstTypeShort[4].1[0] == 'E';
  }

  /** The sheet with the QR summary and the mark tables. */
  const FullSheet := "Bills Pay Participants (Full)"

  /** The QR summary of the full sheet, shown only without a search and when the five required
      columns are present: the records of the classification loop counted by QR category and
      institution type. */
  method QrSummary(sheet: string, search: string, dff: Table) returns (r: Option<Pivot.CountTable>)
    ensures r.Some? <==> sheet == FullSheet && search == "" && FindFlagColumns(dff.columns).Some?
    ensures r.Some? ==>
              r.value == Pivot.Summary(RecordPairs(Records(dff.rows, FindFlagColumns(dff.columns).value)), InstTypeShort)
  {
    if sheet != FullSheet || search != "" {
      return None;
    }
    var fc := FindFlagColumns(dff.columns);
    if fc.None? {
      return None;
    }
    var records := ClassifyRows(dff.rows, fc.value);
    r := Some(Pivot.Summary(RecordPairs(records), InstTypeShort));
  }

  /** Every record carries one of the six QR and non-QR categories. */
  lemma {:induction false} RecordsCategories(rows: seq<Row>, fc: FlagColumns)
    ensures forall x :: x in Records(rows, fc) ==> x.0 in QrCategories + NonQrCategories
    decreases |rows|
  {
    if rows != [] {
      var last := rows[|rows| - 1];
      RecordsCategories(rows[..|rows| - 1], fc);
      RowRecordsSplit(FlagsOf(last, fc), Get(last, fc.instType));
    }
  }

  /** The QR summary's labels: its rows are QR and non-QR categories that some record carries with
      a type, sorted and distinct, then TOTAL; its columns are the types that occur under a mapped
      long or short name, labelled with the short name, in the map's order, then TOTAL. */
  lemma QrSummaryLabels(rows: seq<Row>, fc: FlagColumns)
    ensures var pairs := RecordPairs(Records(rows, fc));
            var s := Pivot.Summary(pairs, InstTypeShort);
            var cats := Pivot.RowKeys(pairs);
            var kept := Pivot.Kept(pairs, InstTypeShort);
            && s.rowLabels == cats + [Pivot.Total]
            && Pivot.StrictlySorted(cats)
            && (forall x :: x in cats ==> x in QrCategories + NonQrCategories)
            && s.colLabels == Pivot.Shorts(kept) + [Pivot.Total]
            && (forall e :: e in kept <==> Pivot.Relabels(InstTypeShort, e) && Pivot.HasColumnKey(pairs, e.1))
            && Pivot.InMapOrder(kept, InstTypeShort)
  {
    var records := Records(rows, fc);
    var pairs := RecordPairs(records);
    Pivot.SummaryLabels(pairs, InstTypeShort);
    RecordsCategories(rows, fc);
    forall x | x in Pivot.RowKeys(pairs)
      ensures x in QrCategories + NonQrCategories
    {
      var i :| 0 <= i < |pairs| && Pivot.Complete(pairs[i]) && pairs[i].0.value == x;
      assert records[i] in records;
    }
  }

  /** The QR summary counts rows: each cell is the number of rows that emit that category with
      that type (its TOTAL column and row are the sums, as for every summary). */
  lemma QrSummaryCells(rows: seq<Row>, fc: FlagColumns)
    ensures var pairs := RecordPairs(Records(rows, fc));
            var s := Pivot.Summary(pairs, InstTypeShort);
            var cats := Pivot.RowKeys(pairs);
            var kept := Pivot.Kept(pairs, InstTypeShort);
            forall i, j :: 0 <= i < |cats| && 0 <= j < |kept| ==>
              s.cells[i][j] == |Filter(rows, Emits(fc, cats[i], kept[j].1))|
  {
    var pairs := RecordPairs(Records(rows, fc));
    var cats := Pivot.RowKeys(pairs);
    var kept := Pivot.Kept(pairs, InstTypeShort);
    forall i, j | 0 <= i < |cats| && 0 <= j < |kept|
      ensures Pivot.Summary(pairs, InstTypeShort).cells[i][j] == |Filter(rows, Emits(fc, cats[i], kept[j].1))|
    {
      Pivot.SummaryCellAt(pairs, InstTypeShort, i, j);
      RecordsCount(rows, fc, cats[i], kept[j].1);
    }
  }

  /** The corner of the QR summary counts every record of a mapped type. */
  lemma QrSummaryTotal(rows: seq<Row>, fc: FlagColumns)
    ensures var pairs := RecordPairs(Records(rows, fc));
            var s := Pivot.Summary(pairs, InstTypeShort);
            s.cells[|s.cells| - 1][|s.colLabels| - 1] == |Filter(pairs, Pivot.OfType(InstTypeShort))|
  {
    InstTypeShortDistinct();
    Pivot.GrandTotal(RecordPairs(Records(rows, fc)), InstTypeShort);
  }

  /** The mark shown for a flag: a check mark for "TRUE", a cross for "FALSE" (in any case), and
      nothing for any other text. */
  function Mark(c: Cell): Cell {
    var u := ToUpper(CellStr(c));
    if u == "TRUE" then Some("✅") else if u == "FALSE" then Some("❌") else None
  }

  /** A check mark appears exactly for a set flag, a cross exactly for a cell that spells "false"
      in any mix of letter cases, and an empty cell shows no mark. */
  lemma MarkMeaning(c: Cell)
    ensures Mark(c) == Some("✅") <==> IsTrue(c)
    ensures Mark(c) == Some("❌") <==> c.Some? && ToLower(c.value) == "false"
    ensures c.None? ==> Mark(c).None?
  {
    UpperMatchIsLowerMatch(CellStr(c), "FALSE");
    assert ToLower("FALSE") == "false";
    if c.None? {
      assert ToUpper(CellStr(c))[0] == 'N';
    }
  }

  /** One line of a mark table: its number, the institution, and the four marks. */
  datatype MarkLine = MarkLine(number: nat, institution: Cell, qrSender: Cell, qrReceiver: Cell,
                               nonQrSender: Cell, nonQrReceiver: Cell)

  /** The mark table of one institution type. */
  datatype MarkTable = MarkTable(instType: string, lines: seq<MarkLine>)

  /** The positions of the five columns a mark table shows. */
  datatype TableColumns = TableColumns(institution: nat, flags: FlagColumns)

  /** The table's columns; a missing one raises a `KeyError` naming the first missing column. */
  function FindTableColumns(columns: seq<string>): Result<TableColumns, Failure> {
    match ColumnIndex(columns, "Institution")
    case None => Err(MissingColumn("Institution"))
    case Some(n) =>
      match FindFlagColumns(columns)
      case Some(fc) => Ok(TableColumns(n, fc))
      case None =>
        if "QR Sender" !in columns then Err(MissingColumn("QR Sender"))
        else if "QR Receiver" !in columns then Err(MissingColumn("QR Receiver"))
        else if "Non-QR Sender" !in columns then Err(MissingColumn("Non-QR Sender"))
        else Err(MissingColumn("Non-QR Receiver"))
  }

  /** The lines of one table: the rows sorted by institution, numbered from 1, flags as marks. */
  function MarkLines(block: seq<Row>, tc: TableColumns): seq<MarkLine> {
    var sorted := Listing.SortBy(block, CellAt(tc.institution));
    seq(|sorted|, i requires 0 <= i < |sorted| =>
      MarkLine(i + 1, Get(sorted[i], tc.institution),
               Mark(Get(sorted[i], tc.flags.qrSender)), Mark(Get(sorted[i], tc.flags.qrReceiver)),
               Mark(Get(sorted[i], tc.flags.nonQrSender)), Mark(Get(sorted[i], tc.flags.nonQrReceiver))))
  }

  /** The tables for `types`, in order, skipping types no row has. */
  function MarkTables(rows: seq<Row>, ty: nat, columns: seq<string>, types: seq<string>)
      : Result<seq<MarkTable>, Failure>
    decreases |types|
  {
    if types == [] then Ok([])
    else
      var block := Filter(rows, CellIs(ty, types[0]));
      if block == [] then MarkTables(rows, ty, columns, types[1..])
      else match FindTableColumns(columns)
        case Err(e) => Err(e)
        case Ok(tc) => Prepend([MarkTable(types[0], MarkLines(block, tc))], MarkTables(rows, ty, columns, types[1..]))
  }

  /** The long names of the mapped types, in the map's order. */
  function TypeOrder(names: Pivot.TypeNames): seq<string> {
    seq(|names|, j requires 0 <= j < |names| => names[j].1)
  }

  /** The mark tables of the full sheet (none for any other sheet); they need an Institution
      Type column. */
  function FullTables(dff: Table, sheet: string): Result<seq<MarkTable>, Failure> {
    if sheet != FullSheet then Ok([])
    else match ColumnIndex(dff.columns, "Institution Type")
      case None => Err(MissingColumn("Institution Type"))
      case Some(ty) => MarkTables(dff.rows, ty, dff.columns, TypeOrder(InstTypeShort))
  }

  /** The mark tables of the full sheet, drawn by the loop below. */
  method ShowFullTables(dff: Table, sheet: string) returns (r: Result<seq<MarkTable>, Failure>)
    ensures r == FullTables(dff, sheet)
  {
    if sheet != FullSheet {
      return Ok([]);
    }
    var ty := ColumnIndex(dff.columns, "Institution Type");
    if ty.None? {
      return Err(MissingColumn("Institution Type"));
    }
    r := DrawTables(dff.rows, ty.value, dff.columns, TypeOrder(InstTypeShort));
  }

  /** The loop that draws the mark tables, one institution type at a time. */
  method DrawTables(rows: seq<Row>, ty: nat, columns: seq<string>, types: seq<string>)
      returns (r: Result<seq<MarkTable>, Failure>)
    ensures r == MarkTables(rows, ty, columns, types)
  {
    ghost var all := MarkTables(rows, ty, columns, types);
    var tables: seq<MarkTable> := [];
    var i := 0;
    assert types[0..] == types;
    PrependNothing(all);
    while i < |types|
      invariant 0 <= i <= |types|
      invariant all == Prepend(tables, MarkTables(rows, ty, columns, types[i..]))
    {
      assert types[i..][1..] == types[i + 1..];
      var block := Filter(rows, CellIs(ty, types[i]));
      if block != [] {
        var tc := FindTableColumns(columns);
        if tc.Err? {
          return Err(tc.error);
        }
        var table := MarkTable(types[i], MarkLines(block, tc.value));
        PrependTwice(tables, [table], MarkTables(rows, ty, columns, types[i + 1..]));
        tables := tables + [table];
      }
      i := i + 1;
    }
    assert tables + [] == tables;
    return Ok(tables);
  }

  /** A table's lines are numbered 1, 2, … in order and sorted by institution, one per row of
      the block. */
  lemma MarkLinesOrder(block: seq<Row>, tc: TableColumns)
    ensures var lines := MarkLines(block, tc);
            && |lines| == |block|
            && (forall i :: 0 <= i < |lines| ==> lines[i].number == i + 1)
            && (forall i, j :: 0 <= i < j < |lines| ==> Listing.CellLe(lines[i].institution, lines[j].institution))
  {
    var sorted := Listing.SortBy(block, CellAt(tc.institution));
    assert |sorted| == |multiset(sorted)| == |multiset(block)|;
    var lines := MarkLines(block, tc);
    forall i, j | 0 <= i < j < |lines|
      ensures Listing.CellLe(lines[i].institution, lines[j].institution)
    {
      assert CellAt(tc.institution)(sorted[i]) == lines[i].institution;
      assert CellAt(tc.institution)(sorted[j]) == lines[j].institution;
    }
  }

  /** A table's lines show the rows of the block, each as often as it occurs, with their
      institution and the marks of their four flags. */
  lemma MarkLinesRows(block: seq<Row>, tc: TableColumns)
    ensures var lines := MarkLines(block, tc);
            exists sorted: seq<Row> ::
              && multiset(sorted) == multiset(block)
              && |sorted| == |lines|
              && forall i :: 0 <= i < |sorted| ==>
                   && lines[i].institution == Get(sorted[i], tc.institution)
                   && lines[i].qrSender == Mark(Get(sorted[i], tc.flags.qrSender))
                   && lines[i].qrReceiver == Mark(Get(sorted[i], tc.flags.qrReceiver))
                   && lines[i].nonQrSender == Mark(Get(sorted[i], tc.flags.nonQrSender))
                   && lines[i].nonQrReceiver == Mark(Get(sorted[i], tc.flags.nonQrReceiver))
  {
    var sorted := Listing.SortBy(block, CellAt(tc.institution));
    var lines := MarkLines(block, tc);
    assert |sorted| == |lines|;
    assert forall i :: 0 <= i < |sorted| ==>
             && lines[i].institution == Get(sorted[i], tc.institution)
             && lines[i].qrSender == Mark(Get(sorted[i], tc.flags.qrSender))
             && lines[i].qrReceiver == Mark(Get(sorted[i], tc.flags.qrReceiver))
             && lines[i].nonQrSender == Mark(Get(sorted[i], tc.flags.nonQrSender))
             && lines[i].nonQrReceiver == Mark(Get(sorted[i], tc.flags.nonQrReceiver));
  }

  /** One table per type of `shown`, each built from the rows of that type. */
  function TablesFor(rows: seq<Row>, ty: nat, tc: TableColumns, shown: seq<string>): (ts: seq<MarkTable>)
    ensures |ts| == |shown|
    decreases |shown|
  {
    if shown == [] then []
    else [MarkTable(shown[0], MarkLines(Filter(rows, CellIs(ty, shown[0])), tc))] + TablesFor(rows, ty, tc, shown[1..])
  }

  /** The `k`-th table of `TablesFor` is that of the `k`-th type. */
  lemma {:induction false} TablesForAt(rows: seq<Row>, ty: nat, tc: TableColumns, shown: seq<string>, k: nat)
    requires k < |shown|
    ensures TablesFor(rows, ty, tc, shown)[k] == MarkTable(shown[k], MarkLines(Filter(rows, CellIs(ty, shown[k])), tc))
    decreases k
  {
    if k > 0 {
      TablesForAt(rows, ty, tc, shown[1..], k - 1);
    }
  }

  /** When all six columns are present, the tables are those of the types some row has. */
  lemma {:induction false} MarkTablesAreTablesFor(rows: seq<Row>, ty: nat, columns: seq<string>, types: seq<string>)
    requires FindTableColumns(columns).Ok?
    ensures MarkTables(rows, ty, columns, types)
            == Ok(TablesFor(rows, ty, FindTableColumns(columns).value, Filter(types, HasType(rows, ty))))
    decreases |types|
  {
    if types != [] {
      var tc := FindTableColumns(columns).value;
      var has := HasType(rows, ty);
      MarkTablesAreTablesFor(rows, ty, columns, types[1..]);
      var shown := Filter(types, has);
      assert shown == (if has(types[0]) then [types[0]] else []) + Filter(types[1..], has);
      var block := Filter(rows, CellIs(ty, types[0]));
      var rest := TablesFor(rows, ty, tc, Filter(types[1..], has));
      if has(types[0]) {
        assert block != [];
        assert shown[0] == types[0] && shown[1..] == Filter(types[1..], has);
        var t0 := MarkTable(types[0], MarkLines(block, tc));
        assert TablesFor(rows, ty, tc, shown) == [t0] + rest;
        assert MarkTables(rows, ty, columns, types) == Prepend([t0], Ok(rest));
        assert MarkTables(rows, ty, columns, types) == Ok(TablesFor(rows, ty, tc, shown));
      } else {
        assert block == [];
        assert shown == Filter(types[1..], has);
        assert MarkTables(rows, ty, columns, types) == Ok(rest);
        assert MarkTables(rows, ty, columns, types) == Ok(TablesFor(rows, ty, tc, shown));
      }
    }
  }

  /** The types of the tables: one per mapped type that some filtered row has, in the map's order,
      each built from exactly the rows of its type, when all six columns are present. */
  lemma MarkTablesShape(rows: seq<Row>, ty: nat, columns: seq<string>, types: seq<string>)
    requires FindTableColumns(columns).Ok?
    ensures MarkTables(rows, ty, columns, types).Ok?
    ensures var ts := MarkTables(rows, ty, columns, types).value;
            var shown := Filter(types, HasType(rows, ty));
            && |ts| == |shown|
            && forall k :: 0 <= k < |ts| ==>
                 && ts[k].instType == shown[k]
                 && ts[k].lines == MarkLines(Filter(rows, CellIs(ty, shown[k])), FindTableColumns(columns).value)
  {
    var tc := FindTableColumns(columns).value;
    var shown := Filter(types, HasType(rows, ty));
    MarkTablesAreTablesFor(rows, ty, columns, types);
    forall k | 0 <= k < |shown|
      ensures TablesFor(rows, ty, tc, shown)[k] == MarkTable(shown[k], MarkLines(Filter(rows, CellIs(ty, shown[k])), tc))
    {
      TablesForAt(rows, ty, tc, shown, k);
    }
  }
}
