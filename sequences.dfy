/**
 * The list and numpy helpers covid_stats.py leans on: `list.index`,
 * `np.sum` and `np.max`, over exact numbers.
 */
module Sequences {

  /** `s.index(x)`: the position of the first occurrence of `x`. */
  function IndexOf<T(==)>(s: seq<T>, x: T): (k: nat)
    requires x in s
    ensures k < |s| && s[k] == x
    ensures forall j :: 0 <= j < k ==> s[j] != x
  {
    if s[0] == x then 0 else 1 + IndexOf(s[1..], x)
  }

  /** No element of `s` occurs twice. */
  predicate Distinct<T(==)>(s: seq<T>) {
    forall i, j :: 0 <= i < j < |s| ==> s[i] != s[j]
  }

  /** `sum(s)` over integers. */
  function SumInt(s: seq<int>): int
  {
    if s == [] then 0 else SumInt(s[..|s| - 1]) + s[|s| - 1]
  }

  /** `np.sum(s)` over exact reals. */
  function SumReal(s: seq<real>): real
  {
    if s == [] then 0.0 else SumReal(s[..|s| - 1]) + s[|s| - 1]
  }

  /** `np.max(s)` over reals: an element of `s` that no element exceeds. */
  function MaxReal(s: seq<real>): (m: real)
    requires s != []
    ensures m in s
    ensures forall k :: 0 <= k < |s| ==> s[k] <= m
  {
    if |s| == 1 then s[0]
    else
      var rest := MaxReal(s[1..]);
      assert forall k :: 1 <= k < |s| ==> s[k] == s[1..][k - 1];
      if s[0] < rest then rest else s[0]
  }

  /** `np.max(s)` over integers: an element of `s` that no element exceeds. */
  function MaxInt(s: seq<int>): (m: int)
    requires s != []
    ensures m in s
    ensures forall k :: 0 <= k < |s| ==> s[k] <= m
  {
    if |s| == 1 then s[0]
    else
      var rest := MaxInt(s[1..]);
      assert forall k :: 1 <= k < |s| ==> s[k] == s[1..][k - 1];
      if s[0] < rest then rest else s[0]
  }

  /** The smallest element of `s`. */
  function MinReal(s: seq<real>): (m: real)
    requires s != []
    ensures m in s
    ensures forall k :: 0 <= k < |s| ==> m <= s[k]
  {
    if |s| == 1 then s[0]
    else
      var rest := MinReal(s[1..]);
      assert forall k :: 1 <= k < |s| ==> s[k] == s[1..][k - 1];
      if rest < s[0] then rest else s[0]
  }

  /** `s.index(np.max(s))` over reals: the first position holding the maximum. */
  function ArgMaxReal(s: seq<real>): (k: nat)
    requires s != []
    ensures k < |s|
    ensures forall j :: 0 <= j < |s| ==> s[j] <= s[k]
    ensures forall j :: 0 <= j < k ==> s[j] < s[k]
  {
    IndexOf(s, MaxReal(s))
  }

  /** `s.index(np.max(s))` over integers: the first position holding the maximum. */
  function ArgMaxInt(s: seq<int>): (k: nat)
    requires s != []
    ensures k < |s|
    ensures forall j :: 0 <= j < |s| ==> s[j] <= s[k]
    ensures forall j :: 0 <= j < k ==> s[j] < s[k]
  {
    IndexOf(s, MaxInt(s))
  }

  /** A sum of non-negative integers is non-negative, and positive when every term is. */
  lemma {:induction false} SumIntPositive(s: seq<int>)
    requires s != [] && forall k :: 0 <= k < |s| ==> s[k] > 0
    ensures SumInt(s) >= s[|s| - 1] > 0
  {
    if |s| > 1 {
      SumIntPositive(s[..|s| - 1]);
    }
  }
}
