/** The loop both participant loaders run (app2.py:31-48, app3.py:46-72): walk the workbook's sheets
    in order, skip the ineligible ones, load the others into the result, and let the first sheet that
    raises end the whole load. */
module Loader {
  import opened Wrappers
  import opened Seqs
  import opened Sheets

  /** A sheet predicate from a sheet-name predicate. */
  function OnName(eligible: string -> bool): Worksheet -> bool {
    (w: Worksheet) => eligible(w.name)
  }

  /** What the loop yields over `sheets`. */
  function Collect(sheets: seq<Worksheet>, eligible: string -> bool,
                   load: Worksheet -> Result<Loaded, Failure>): Result<seq<Loaded>, Failure>
    decreases |sheets|
  {
    if sheets == [] then Ok([])
    else if !eligible(sheets[0].name) then Collect(sheets[1..], eligible, load)
    else match load(sheets[0])
      case Err(e) => Err(e)
      case Ok(entry) => Prepend([entry], Collect(sheets[1..], eligible, load))
  }

  /** The loop itself, filling `data` sheet by sheet. */
  method CollectSheets(sheets: seq<Worksheet>, eligible: string -> bool,
                       load: Worksheet -> Result<Loaded, Failure>)
      returns (r: Result<seq<Loaded>, Failure>)
    ensures r == Collect(sheets, eligible, load)
  {
    var data: seq<Loaded> := [];
    var i := 0;
    assert sheets[0..] == sheets;
    PrependNothing(Collect(sheets, eligible, load));
    while i < |sheets|
      invariant 0 <= i <= |sheets|
      invariant Collect(sheets, eligible, load) == Prepend(data, Collect(sheets[i..], eligible, load))
    {
      assert sheets[i..][1..] == sheets[i + 1..];
      var sheet := sheets[i];
      if eligible(sheet.name) {
        var entry := load(sheet);
        if entry.Err? {
          return Err(entry.error);
        }
        PrependTwice(data, [entry.value], Collect(sheets[i + 1..], eligible, load));
        data := data + [entry.value];
      }
      i := i + 1;
    }
    assert data + [] == data;
    return Ok(data);
  }

  /** The load succeeds exactly when every eligible sheet loads. */
  lemma {:induction false} CollectOkIff(sheets: seq<Worksheet>, eligible: string -> bool,
                                        load: Worksheet -> Result<Loaded, Failure>)
    ensures Collect(sheets, eligible, load).Ok?
            <==> forall i :: 0 <= i < |sheets| && eligible(sheets[i].name) ==> load(sheets[i]).Ok?
    decreases |sheets|
  {
    if sheets != [] {
      CollectOkIff(sheets[1..], eligible, load);
      assert forall i :: 1 <= i < |sheets| ==> sheets[i] == sheets[1..][i - 1];
    }
  }

  /** A failed load reports the failure of the first eligible sheet that fails. */
  lemma {:induction false} CollectErrIsFirst(sheets: seq<Worksheet>, eligible: string -> bool,
                                             load: Worksheet -> Result<Loaded, Failure>)
      returns (i: nat)
    requires Collect(sheets, eligible, load).Err?
    ensures i < |sheets| && eligible(sheets[i].name)
    ensures load(sheets[i]) == Err(Collect(sheets, eligible, load).error)
    ensures forall j :: 0 <= j < i && eligible(sheets[j].name) ==> load(sheets[j]).Ok?
    decreases |sheets|
  {
    if eligible(sheets[0].name) && load(sheets[0]).Err? {
      i := 0;
    } else {
      var i' := CollectErrIsFirst(sheets[1..], eligible, load);
      i := i' + 1;
      assert forall j :: 1 <= j < |sheets| ==> sheets[j] == sheets[1..][j - 1];
    }
  }

  /** A successful load holds the eligible sheets in workbook order, each as its own load produced it. */
  lemma {:induction false} CollectEntries(sheets: seq<Worksheet>, eligible: string -> bool,
                                          load: Worksheet -> Result<Loaded, Failure>)
    requires Collect(sheets, eligible, load).Ok?
    ensures var d := Collect(sheets, eligible, load).value;
            var f := Filter(sheets, OnName(eligible));
            |d| == |f| && forall k :: 0 <= k < |d| ==> load(f[k]) == Ok(d[k])
    decreases |sheets|
  {
    if sheets != [] {
      CollectEntries(sheets[1..], eligible, load);
    }
  }

  /** A successful load holds what each eligible sheet loads to, and nothing else. */
  lemma CollectCovers(sheets: seq<Worksheet>, eligible: string -> bool,
                      load: Worksheet -> Result<Loaded, Failure>)
    requires Collect(sheets, eligible, load).Ok?
    ensures var d := Collect(sheets, eligible, load).value;
            && (forall k :: 0 <= k < |d| ==>
                  exists i :: 0 <= i < |sheets| && eligible(sheets[i].name) && load(sheets[i]) == Ok(d[k]))
            && (forall i :: 0 <= i < |sheets| && eligible(sheets[i].name) ==>
                  exists k :: 0 <= k < |d| && load(sheets[i]) == Ok(d[k]))
  {
    var d := Collect(sheets, eligible, load).value;
    var f := Filter(sheets, OnName(eligible));
    CollectEntries(sheets, eligible, load);
    forall k | 0 <= k < |d|
      ensures exists i :: 0 <= i < |sheets| && eligible(sheets[i].name) && load(sheets[i]) == Ok(d[k])
    {
      assert f[k] in f;
    }
    forall i | 0 <= i < |sheets| && eligible(sheets[i].name)
      ensures exists k :: 0 <= k < |d| && load(sheets[i]) == Ok(d[k])
    {
      FilterMember(sheets, OnName(eligible), sheets[i]);
      var k :| 0 <= k < |f| && f[k] == sheets[i];
    }
  }

  /** When loading keeps a sheet's name, a successful load holds exactly the eligible sheets'
      names. */
  lemma CollectNames(sheets: seq<Worksheet>, eligible: string -> bool,
                     load: Worksheet -> Result<Loaded, Failure>)
    requires Collect(sheets, eligible, load).Ok?
    requires forall w :: load(w).Ok? ==> load(w).value.name == w.name
    ensures var d := Collect(sheets, eligible, load).value;
            && (forall k :: 0 <= k < |d| ==> eligible(d[k].name))
            && (forall i :: 0 <= i < |sheets| && eligible(sheets[i].name) ==>
                  exists k :: 0 <= k < |d| && d[k].name == sheets[i].name)
  {
    var d := Collect(sheets, eligible, load).value;
    var f := Filter(sheets, OnName(eligible));
    CollectEntries(sheets, eligible, load);
    forall k | 0 <= k < |d|
      ensures eligible(d[k].name)
    {
      assert f[k] in f;
      assert d[k].name == f[k].name;
    }
    forall i | 0 <= i < |sheets| && eligible(sheets[i].name)
      ensures exists k :: 0 <= k < |d| && d[k].name == sheets[i].name
    {
      FilterMember(sheets, OnName(eligible), sheets[i]);
      var k :| 0 <= k < |f| && f[k] == sheets[i];
      assert d[k].name == sheets[i].name;
    }
  }

  /** The sheet the navigation radio picks: the loaded sheet at position `choice`; with no sheet
      loaded the radio yields nothing and looking it up fails. */
  function Pick(data: seq<Loaded>, choice: nat): (r: Result<Loaded, Failure>)
    requires data == [] || choice < |data|
    ensures r.Err? <==> data == []
    ensures r.Err? ==> r.error == NoSheet
    ensures r.Ok? ==> r.value in data
  {
    if data == [] then Err(NoSheet) else Ok(data[choice])
  }
}
