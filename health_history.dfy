/** The health-history page: the record selected when the history loads, the
    colour of a risk level, and the "Assessment Responses" panel, which lists
    the answers stored under numeric keys in ascending key order. */
module HealthHistory {
  import opened Wrappers
  import opened JsNum
  import Text
  import Seqs

  /** The record shown when the history (most recent first) has loaded: the
      first one; an empty history keeps the previous selection. */
  function SelectedAfterLoad<T>(history: seq<T>, previous: Option<T>): (selected: Option<T>)
    ensures history != [] ==> selected == Some(history[0])
    ensures history == [] ==> selected == previous
  {
    if |history| > 0 then Some(history[0]) else previous
  }

  /** The badge colours of `getRiskLevelColor`. */
  datatype RiskColor = Green | Yellow | Red | Gray

  /** `getRiskLevelColor`: the level compared case-insensitively with "low",
      "moderate" and "high"; a missing level or any other text is gray. */
  function RiskLevelColor(level: Option<string>): (c: RiskColor)
    ensures c == Green <==> level.Some? && Text.ToLower(level.value) == "low"
    ensures c == Yellow <==> level.Some? && Text.ToLower(level.value) == "moderate"
    ensures c == Red <==> level.Some? && Text.ToLower(level.value) == "high"
  {
    if level.None? || level.value == "" then Gray
    else
      var l := Text.ToLower(level.value);
      if l == "low" then Green
      else if l == "moderate" then Yellow
      else if l == "high" then Red
      else Gray
  }

  /** Lower-casing twice is lower-casing once. */
  lemma ToLowerIdempotent(s: string)
    ensures Text.ToLower(Text.ToLower(s)) == Text.ToLower(s)
  {
  }

  /** The colour does not depend on letter case, and the three levels the
      application writes get their own colours. */
  lemma RiskLevelColorIgnoresCase(level: string)
    ensures RiskLevelColor(Some(Text.ToLower(level))) == RiskLevelColor(Some(level))
    ensures RiskLevelColor(Some("Low")) == Green
    ensures RiskLevelColor(Some("Moderate")) == Yellow
    ensures RiskLevelColor(Some("HIGH")) == Red
  {
    ToLowerIdempotent(level);
    assert Text.ToLower("Low") == "low";
    assert Text.ToLower("Moderate") == "moderate";
    assert Text.ToLower("HIGH") == "high";
  }

  /** The numeric value of a key, where `Number(key)` is the JavaScript
      conversion (a parameter here); keys that are not numbers sort as 0, but
      none of them is ever sorted. */
  function NumericKey(toNumber: string -> Num): string -> real {
    (k: string) => if toNumber(k).Finite? then toNumber(k).v else 0.0
  }

  /** Entries in ascending order of `key` of their names. */
  predicate Sorted<V>(s: seq<(string, V)>, key: string -> real) {
    forall i, j :: 0 <= i < j < |s| ==> key(s[i].0) <= key(s[j].0)
  }

  /** Puts `x` into a sorted list before the first entry whose key is not
      smaller. */
  function Insert<V(==)>(x: (string, V), s: seq<(string, V)>, key: string -> real): (r: seq<(string, V)>)
    requires Sorted(s, key)
    ensures Sorted(r, key)
    ensures multiset(r) == multiset(s) + multiset{x}
    ensures r[0] == x || (s != [] && r[0] == s[0])
    decreases |s|
  {
    if s == [] then [x]
    else if key(x.0) <= key(s[0].0) then
      SortedCons(x, s, key);
      [x] + s
    else
      var rest := Insert(x, s[1..], key);
      assert s == [s[0]] + s[1..];
      SortedCons(s[0], rest, key);
      [s[0]] + rest
  }

  /** An entry whose key is not above the first key of a sorted list can be put
      in front of it. */
  lemma SortedCons<V>(a: (string, V), s: seq<(string, V)>, key: string -> real)
    requires Sorted(s, key) && (s == [] || key(a.0) <= key(s[0].0))
    ensures Sorted([a] + s, key)
  {
    var r := [a] + s;
    forall i, j | 0 <= i < j < |r|
      ensures key(r[i].0) <= key(r[j].0)
    {
      if i == 0 && j > 1 {
        assert key(s[0].0) <= key(s[j - 1].0);
      }
    }
  }

  /** `sort((a, b) => Number(a[0]) - Number(b[0]))`: the entries in ascending
      key order, each kept exactly as often as it occurs. */
  function SortByKey<V(==)>(s: seq<(string, V)>, key: string -> real): (r: seq<(string, V)>)
    ensures Sorted(r, key)
    ensures multiset(r) == multiset(s)
    decreases |s|
  {
    if s == [] then []
    else
      assert s == [s[0]] + s[1..];
      Insert(s[0], SortByKey(s[1..], key), key)
  }

  function IsNumericEntry<V>(toNumber: string -> Num): ((string, V)) -> bool {
    (e: (string, V)) => toNumber(e.0).Finite?
  }

  /** The entries listed in the panel: those whose key converts to a number,
      sorted by that number. */
  function Responses<V(==)>(entries: seq<(string, V)>, toNumber: string -> Num): (r: seq<(string, V)>)
    ensures Sorted(r, NumericKey(toNumber))
    ensures multiset(r) == multiset(Seqs.Filter(entries, IsNumericEntry(toNumber)))
  {
    SortByKey(Seqs.Filter(entries, IsNumericEntry(toNumber)), NumericKey(toNumber))
  }

  /** Exactly the numerically keyed entries are listed. */
  lemma ResponsesAreTheNumericEntries<V>(entries: seq<(string, V)>, toNumber: string -> Num, e: (string, V))
    ensures e in Responses(entries, toNumber) <==> e in entries && toNumber(e.0).Finite?
  {
    var kept := Seqs.Filter(entries, IsNumericEntry(toNumber));
    var r := Responses(entries, toNumber);
    assert e in r <==> e in multiset(r);
    assert e in kept <==> e in multiset(kept);
    if e in entries && toNumber(e.0).Finite? {
      var i :| 0 <= i < |entries| && entries[i] == e;
      assert IsNumericEntry(toNumber)(entries[i]);
    }
    if e in kept {
      var i :| 0 <= i < |kept| && kept[i] == e;
    }
  }
}
