/** `sort_values(col)` on a text column and the 1-based row numbers the listings show. */
module Listing {
  import opened Wrappers
  import opened Text
  import opened Sheets

  /** The order `sort_values` puts a text column in: texts by Python's string order, NaN last. */
  predicate CellLe(a: Cell, b: Cell) {
    match a
    case None => b.None?
    case Some(x) => b.None? || LexLe(x, b.value)
  }

  lemma CellLeTotal(a: Cell, b: Cell)
    ensures CellLe(a, b) || CellLe(b, a)
  {
    if a.Some? && b.Some? {
      LexLeTotal(a.value, b.value);
    }
  }

  lemma CellLeTransitive(a: Cell, b: Cell, c: Cell)
    requires CellLe(a, b) && CellLe(b, c)
    ensures CellLe(a, c)
  {
    if a.Some? && b.Some? && c.Some? {
      LexLeTransitive(a.value, b.value, c.value);
    }
  }

  /** The keys of `s` are in `sort_values` order. */
  ghost predicate SortedBy<T>(s: seq<T>, key: T -> Cell) {
    forall i, j :: 0 <= i < j < |s| ==> CellLe(key(s[i]), key(s[j]))
  }

  /** `x` placed before the first element whose key is not below its own. */
  function InsertBy<T>(x: T, s: seq<T>, key: T -> Cell): (r: seq<T>)
    requires SortedBy(s, key)
    ensures SortedBy(r, key)
    ensures multiset(r) == multiset(s) + multiset{x}
    decreases |s|
  {
    if s == [] then [x]
    else if CellLe(key(x), key(s[0])) then
      assert forall j :: 0 <= j < |s| ==> CellLe(key(x), key(s[j])) by {
        forall j | 0 <= j < |s| ensures CellLe(key(x), key(s[j])) {
          if j > 0 {
            CellLeTransitive(key(x), key(s[0]), key(s[j]));
          }
        }
      }
      [x] + s
    else
      var t := InsertBy(x, s[1..], key);
      CellLeTotal(key(x), key(s[0]));
      InsertAfterHead(x, s, t, key);
      [s[0]] + t
  }

  /** Keeping the head of a sorted `s` in front of the sorted insertion into its tail keeps the
      result sorted. */
  lemma InsertAfterHead<T>(x: T, s: seq<T>, t: seq<T>, key: T -> Cell)
    requires s != [] && SortedBy(s, key) && CellLe(key(s[0]), key(x))
    requires SortedBy(t, key) && multiset(t) == multiset(s[1..]) + multiset{x}
    ensures SortedBy([s[0]] + t, key)
    ensures multiset([s[0]] + t) == multiset(s) + multiset{x}
  {
    assert s == [s[0]] + s[1..];
    forall j | 0 <= j < |t| ensures CellLe(key(s[0]), key(t[j])) {
      assert t[j] in multiset(t);
      if t[j] != x {
        assert t[j] in multiset(s[1..]);
        var m :| 0 <= m < |s[1..]| && s[1..][m] == t[j];
        assert t[j] == s[m + 1];
      }
    }
    var r := [s[0]] + t;
    forall i, j | 0 <= i < j < |r| ensures CellLe(key(r[i]), key(r[j])) {
      if i > 0 {
        assert r[i] == t[i - 1] && r[j] == t[j - 1];
      } else {
        assert r[j] == t[j - 1];
      }
    }
  }

  /** `sort_values(col)`: the same elements, ordered by their key (ties keep their order here;
      pandas' default sort does not promise that). */
  function SortBy<T>(s: seq<T>, key: T -> Cell): (r: seq<T>)
    ensures SortedBy(r, key)
    ensures multiset(r) == multiset(s)
    decreases |s|
  {
    if s == [] then []
    else
      assert s == [s[0]] + s[1..];
      InsertBy(s[0], SortBy(s[1..], key), key)
  }

  function Identity(c: Cell): Cell {
    c
  }

  /** `reset_index(drop=True)` then `index + 1`: each entry paired with its position counted from 1. */
  function Numbered<T>(s: seq<T>): seq<(nat, T)> {
    seq(|s|, i requires 0 <= i < |s| => (i + 1, s[i]))
  }
}
