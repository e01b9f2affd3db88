/**
 * Linear search over an ordered collection, as the stores do with the
 * built-in `find` of an array: the first element satisfying a predicate
 * wins. Also the pairwise distinctness of identifiers.
 */
module Lookup {
  import opened Wrappers

  /** `k` is the position of the first element of `s` that satisfies `pred`. */
  ghost predicate IsFirst<T>(s: seq<T>, pred: T -> bool, k: int)
  {
    0 <= k < |s| && pred(s[k]) && forall j :: 0 <= j < k ==> !pred(s[j])
  }

  /** Position of the first element satisfying `pred`, or None when there is none. */
  function FindIndex<T>(s: seq<T>, pred: T -> bool): (r: Option<nat>)
    ensures r.Some? ==> IsFirst(s, pred, r.value)
    ensures r.None? <==> forall j :: 0 <= j < |s| ==> !pred(s[j])
  {
    if |s| == 0 then None
    else if pred(s[0]) then Some(0)
    else match FindIndex(s[1..], pred)
      case None =>
        assert forall j :: 1 <= j < |s| ==> s[j] == s[1..][j - 1];
        None
      case Some(k) =>
        assert forall j :: 1 <= j < k + 1 ==> s[j] == s[1..][j - 1];
        Some(k + 1)
  }

  /** The first element satisfying `pred`, or None (the source's `undefined`). */
  function Find<T>(s: seq<T>, pred: T -> bool): (r: Option<T>)
    ensures r.None? <==> forall j :: 0 <= j < |s| ==> !pred(s[j])
    ensures r.Some? ==> exists k :: IsFirst(s, pred, k) && r.value == s[k]
  {
    match FindIndex(s, pred)
    case None => None
    case Some(k) => Some(s[k])
  }

  /** When at most one element satisfies `pred`, the first match is the only match. */
  lemma FindIndexOfOnly<T>(s: seq<T>, pred: T -> bool, k: nat)
    requires k < |s| && pred(s[k])
    requires forall j :: 0 <= j < |s| && j != k ==> !pred(s[j])
    ensures FindIndex(s, pred) == Some(k)
  {
  }

  /** No identifier occurs twice. */
  ghost predicate Distinct(ids: seq<string>)
  {
    forall i, j :: 0 <= i < j < |ids| ==> ids[i] != ids[j]
  }
}
