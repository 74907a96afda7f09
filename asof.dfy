/** The subtitle search of app3.py:57-63, the pattern
    `as of\s*[:\-]?\s*([0-9]{4}-[0-9]{2}-[0-9]{2})` under `re.IGNORECASE`, as a hand-written
    matcher proved equal to a direct description of what the pattern accepts. */
module AsOf {
  import opened Wrappers
  import opened Text

  predicate IsDigit(c: char) {
    '0' <= c <= '9'
  }

  /** The class `[:\-]`. */
  predicate IsSep(c: char) {
    c == ':' || c == '-'
  }

  /** The literal "as of" at position `i`, ignoring case; Python's case-insensitive matching also
      lets the long s (U+017F) stand for 's'. */
  predicate AsOfAt(s: string, i: nat) {
    && i + 5 <= |s|
    && (s[i] == 'a' || s[i] == 'A')
    && (s[i + 1] == 's' || s[i + 1] == 'S' || s[i + 1] == '\U{17f}')
    && s[i + 2] == ' '
    && (s[i + 3] == 'o' || s[i + 3] == 'O')
    && (s[i + 4] == 'f' || s[i + 4] == 'F')
  }

  /** `[0-9]{4}-[0-9]{2}-[0-9]{2}` at position `k`. */
  predicate DateAt(s: string, k: nat) {
    && k + 10 <= |s|
    && IsDigit(s[k]) && IsDigit(s[k + 1]) && IsDigit(s[k + 2]) && IsDigit(s[k + 3])
    && s[k + 4] == '-'
    && IsDigit(s[k + 5]) && IsDigit(s[k + 6])
    && s[k + 7] == '-'
    && IsDigit(s[k + 8]) && IsDigit(s[k + 9])
  }

  /** What the pattern accepts: "as of" at `i`, a date at `k`, and in between only whitespace and
      separators with at most one separator (the language of `\s*[:\-]?\s*`). */
  predicate MatchesAt(s: string, i: nat, k: nat) {
    && AsOfAt(s, i)
    && i + 5 <= k
    && DateAt(s, k)
    && (forall p :: i + 5 <= p < k ==> IsSpace(s[p]) || IsSep(s[p]))
    && (forall p, q :: i + 5 <= p < q < k && IsSep(s[p]) ==> !IsSep(s[q]))
  }

  /** The first position at or after `k` that does not hold whitespace. */
  function SkipSpaces(s: string, k: nat): (j: nat)
    requires k <= |s|
    ensures k <= j <= |s|
    ensures forall p :: k <= p < j ==> IsSpace(s[p])
    ensures j == |s| || !IsSpace(s[j])
    decreases |s| - k
  {
    if k < |s| && IsSpace(s[k]) then SkipSpaces(s, k + 1) else k
  }

  /** Where the matcher expects the date: after the whitespace, one optional separator, and more whitespace. */
  function DateStart(s: string, i: nat): nat
    requires AsOfAt(s, i)
  {
    var j := SkipSpaces(s, i + 5);
    if j < |s| && IsSep(s[j]) then SkipSpaces(s, j + 1) else j
  }

  /** The hand-written matcher at one position: the captured date, if the pattern matches there. */
  function MatchAt(s: string, i: nat): Option<string> {
    if AsOfAt(s, i) && DateAt(s, DateStart(s, i)) then
      var k := DateStart(s, i);
      Some(s[k..k + 10])
    else None
  }

  /** The matcher only reports what the pattern accepts. */
  lemma MatchAtSound(s: string, i: nat)
    requires MatchAt(s, i).Some?
    ensures MatchesAt(s, i, DateStart(s, i))
    ensures MatchAt(s, i).value == s[DateStart(s, i)..DateStart(s, i) + 10]
  {
    var j := SkipSpaces(s, i + 5);
    var k := DateStart(s, i);
    forall p, q | i + 5 <= p < q < k && IsSep(s[p])
      ensures !IsSep(s[q])
    {
      assert p == j;
    }
  }

  /** Whenever the pattern accepts at `i`, the matcher finds it there, with the same date. */
  lemma MatchAtComplete(s: string, i: nat, k: nat)
    requires MatchesAt(s, i, k)
    ensures DateStart(s, i) == k
    ensures MatchAt(s, i) == Some(s[k..k + 10])
  {
    var j := SkipSpaces(s, i + 5);
    DigitIsNotGap(s[k]);
    assert j <= k;
    if j < |s| && IsSep(s[j]) {
      var j' := SkipSpaces(s, j + 1);
      assert j' <= k;
      assert k <= j';
    } else {
      assert k <= j;
    }
  }

  /** A digit is neither whitespace nor a separator, so the gap before a date ends at it. */
  lemma DigitIsNotGap(c: char)
    requires IsDigit(c)
    ensures !IsSpace(c) && !IsSep(c)
  {
  }

  /** `re.search`: the date captured at the leftmost position where the pattern matches. */
  function SearchFrom(s: string, i: nat): Option<string>
    requires i <= |s|
    decreases |s| - i
  {
    if i == |s| then None
    else match MatchAt(s, i)
      case Some(d) => Some(d)
      case None => SearchFrom(s, i + 1)
  }

  function Search(s: string): Option<string> {
    SearchFrom(s, 0)
  }

  /** A match at `i` with none further left is what the search returns. */
  lemma SearchFindsLeftmost(s: string, i: nat, k: nat)
    requires MatchesAt(s, i, k)
    requires forall p, q :: 0 <= p < i ==> !MatchesAt(s, p, q)
    ensures Search(s) == Some(s[k..k + 10])
  {
    MatchAtComplete(s, i, k);
    forall p | 0 <= p < i
      ensures MatchAt(s, p).None?
    {
      if MatchAt(s, p).Some? {
        MatchAtSound(s, p);
      }
    }
    SearchFromSkips(s, 0, i, s[k..k + 10]);
  }

  /** The search passes over positions where the matcher fails. */
  lemma {:induction false} SearchFromSkips(s: string, from: nat, i: nat, d: string)
    requires from <= i < |s|
    requires MatchAt(s, i) == Some(d)
    requires forall p :: from <= p < i ==> MatchAt(s, p).None?
    ensures SearchFrom(s, from) == Some(d)
    decreases i - from
  {
    if from < i {
      SearchFromSkips(s, from + 1, i, d);
    }
  }

  /** A search that finds nothing means the pattern matches nowhere. */
  lemma SearchNone(s: string, i: nat, k: nat)
    requires Search(s).None?
    ensures !MatchesAt(s, i, k)
  {
    if MatchesAt(s, i, k) {
      MatchAtComplete(s, i, k);
      SearchFromReaches(s, 0, i);
    }
  }

  /** The search finds something when the matcher succeeds somewhere ahead. */
  lemma {:induction false} SearchFromReaches(s: string, from: nat, i: nat)
    requires from <= i < |s|
    requires MatchAt(s, i).Some?
    ensures SearchFrom(s, from).Some?
    decreases i - from
  {
    if from < i && MatchAt(s, from).None? {
      SearchFromReaches(s, from + 1, i);
    }
  }

  /** A search that finds a date found it at a match with no match further left. */
  lemma SearchSome(s: string) returns (i: nat, k: nat)
    requires Search(s).Some?
    ensures MatchesAt(s, i, k)
    ensures Search(s) == Some(s[k..k + 10])
    ensures forall p, q :: 0 <= p < i ==> !MatchesAt(s, p, q)
  {
    i := SearchFromFirst(s, 0);
    k := DateStart(s, i);
    assert MatchesAt(s, i, k) && MatchAt(s, i) == Some(s[k..k + 10]) by {
      MatchAtSound(s, i);
    }
    assert forall p, q :: 0 <= p < i ==> !MatchesAt(s, p, q) by {
      forall p, q | 0 <= p < i
        ensures !MatchesAt(s, p, q)
      {
        NoMatchAt(s, p);
      }
    }
  }

  /** The position whose match the search reports: the matcher succeeds there and nowhere between
      the start of the search and it. */
  lemma {:induction false} SearchFromFirst(s: string, from: nat) returns (i: nat)
    requires from <= |s|
    requires SearchFrom(s, from).Some?
    ensures from <= i < |s|
    ensures MatchAt(s, i).Some? && SearchFrom(s, from) == MatchAt(s, i)
    ensures forall p :: from <= p < i ==> MatchAt(s, p).None?
    decreases |s| - from
  {
    var m := MatchAt(s, from);
    if m.Some? {
      assert SearchFrom(s, from) == m;
      i := from;
    } else {
      assert SearchFrom(s, from) == SearchFrom(s, from + 1);
      i := SearchFromFirst(s, from + 1);
      forall p | from <= p < i
        ensures MatchAt(s, p).None?
      {
        if p == from {
          assert MatchAt(s, p) == m;
        }
      }
    }
  }

  lemma NoMatchAt(s: string, i: nat)
    requires MatchAt(s, i).None?
    ensures forall q :: !MatchesAt(s, i, q)
  {
    forall q
      ensures !MatchesAt(s, i, q)
    {
      if MatchesAt(s, i, q) {
        MatchAtComplete(s, i, q);
      }
    }
  }
}
