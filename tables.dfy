/**
 * Searching and updating a list of records the way the handlers of the
 * record store and the navigation code do it: walk the list in order,
 * stop at the first element that matches, and change that one element.
 */
module Tables {
  import opened Wrappers

  /** Index of the first element of `s` that satisfies `p`, or None. */
  function FirstMatch<T>(s: seq<T>, p: T -> bool): (r: Option<nat>)
    ensures r.Some? ==> r.value < |s| && p(s[r.value])
    ensures r.Some? ==> forall j :: 0 <= j < r.value ==> !p(s[j])
    ensures r.None? <==> forall j :: 0 <= j < |s| ==> !p(s[j])
    decreases |s|
  {
    if s == [] then None
    else if p(s[0]) then Some(0)
    else match FirstMatch(s[1..], p)
      case None => None
      case Some(i) => Some(i + 1)
  }

  /** Element `k` of `s` is the first one satisfying `p`. */
  ghost predicate IsFirstMatch<T>(s: seq<T>, p: T -> bool, k: nat)
  {
    k < |s| && p(s[k]) && forall j :: 0 <= j < k ==> !p(s[j])
  }

  lemma FirstMatchIs<T>(s: seq<T>, p: T -> bool, k: nat)
    requires IsFirstMatch(s, p, k)
    ensures FirstMatch(s, p) == Some(k)
  {
  }

  /**
   * The list after applying `f` to its first element satisfying `p`,
   * written as the loop runs: keep the elements that do not match, update
   * the first that does, and stop there.
   */
  function UpdateFirst<T>(s: seq<T>, p: T -> bool, f: T -> T): seq<T>
    decreases |s|
  {
    if s == [] then []
    else if p(s[0]) then [f(s[0])] + s[1..]
    else [s[0]] + UpdateFirst(s[1..], p, f)
  }

  /** UpdateFirst changes exactly the element FirstMatch finds, and nothing when none matches. */
  lemma {:induction false} UpdateFirstChangesFirstMatch<T>(s: seq<T>, p: T -> bool, f: T -> T)
    ensures match FirstMatch(s, p)
      case None => UpdateFirst(s, p, f) == s
      case Some(i) => UpdateFirst(s, p, f) == s[i := f(s[i])]
    decreases |s|
  {
    if s != [] && !p(s[0]) {
      UpdateFirstChangesFirstMatch(s[1..], p, f);
      match FirstMatch(s[1..], p)
      case None =>
        assert [s[0]] + s[1..] == s;
      case Some(i) =>
        assert [s[0]] + s[1..][i := f(s[1..][i])] == s[i + 1 := f(s[i + 1])];
    }
  }

  /**
   * Updating twice is updating once, when the update keeps the element
   * matching and applying it again changes nothing more.
   */
  lemma {:induction false} UpdateFirstIdempotent<T>(s: seq<T>, p: T -> bool, f: T -> T)
    requires forall x :: p(x) ==> p(f(x)) && f(f(x)) == f(x)
    ensures UpdateFirst(UpdateFirst(s, p, f), p, f) == UpdateFirst(s, p, f)
    decreases |s|
  {
    if s != [] {
      if p(s[0]) {
        var t := [f(s[0])] + s[1..];
        assert t[0] == f(s[0]) && t[1..] == s[1..];
      } else {
        UpdateFirstIdempotent(s[1..], p, f);
        var t := [s[0]] + UpdateFirst(s[1..], p, f);
        assert t[0] == s[0] && t[1..] == UpdateFirst(s[1..], p, f);
      }
    }
  }

  /** The search loop shared by the handlers: index of the first match, or None. */
  method IndexOfFirst<T>(s: seq<T>, p: T -> bool) returns (r: Option<nat>)
    ensures r == FirstMatch(s, p)
  {
    var i := 0;
    while i < |s|
      invariant 0 <= i <= |s|
      invariant forall j :: 0 <= j < i ==> !p(s[j])
    {
      if p(s[i]) {
        FirstMatchIs(s, p, i);
        return Some(i);
      }
      i := i + 1;
    }
    return None;
  }
}
