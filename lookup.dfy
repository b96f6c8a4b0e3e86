/**
 * The lookup idiom of the booking server: `[x for x in s if p(x)][0]`.
 * Filter is the comprehension, Head is the `[0]` subscript (None where Python
 * raises IndexError), and FirstIndex is the position-based reference search.
 */
module Lookup {
  import opened Wrappers

  /** `[x for x in s if p(x)]`: the elements satisfying `p`, in list order. */
  function Filter<T>(s: seq<T>, p: T -> bool): (r: seq<T>)
    ensures forall i :: 0 <= i < |r| ==> p(r[i])
    ensures multiset(r) <= multiset(s)
  {
    if s == [] then []
    else
      assert s == [s[0]] + s[1..];
      if p(s[0]) then [s[0]] + Filter(s[1..], p) else Filter(s[1..], p)
  }

  /** The comprehension drops nothing: every element satisfying `p` is kept. */
  lemma {:induction false} FilterKeepsMatches<T>(s: seq<T>, p: T -> bool)
    ensures forall i :: 0 <= i < |s| && p(s[i]) ==> s[i] in Filter(s, p)
  {
    if s != [] {
      FilterKeepsMatches(s[1..], p);
      assert forall i :: 1 <= i < |s| ==> s[i] == s[1..][i - 1];
    }
  }

  /**
   * The comprehension keeps list order: filtering a concatenation is the
   * concatenation of the filtered parts.
   */
  lemma {:induction false} FilterAppend<T>(a: seq<T>, b: seq<T>, p: T -> bool)
    ensures Filter(a + b, p) == Filter(a, p) + Filter(b, p)
  {
    if a == [] {
      assert a + b == b;
    } else {
      assert (a + b)[0] == a[0];
      assert (a + b)[1..] == a[1..] + b;
      FilterAppend(a[1..], b, p);
    }
  }

  /** `s[0]`, or None where Python raises IndexError on an empty list. */
  function Head<T>(s: seq<T>): (r: Option<T>)
    ensures r.Some? <==> s != []
    ensures r.Some? ==> r.value == s[0]
  {
    if s == [] then None else Some(s[0])
  }

  /** The position of the first element satisfying `p`, if any. */
  function FirstIndex<T>(s: seq<T>, p: T -> bool): (r: Option<nat>)
    ensures r.Some? ==> r.value < |s| && p(s[r.value])
    ensures r.Some? ==> forall j :: 0 <= j < r.value ==> !p(s[j])
    ensures r.None? ==> forall j :: 0 <= j < |s| ==> !p(s[j])
  {
    if s == [] then None
    else if p(s[0]) then Some(0)
    else match FirstIndex(s[1..], p)
      case Some(i) => Some(i + 1)
      case None => None
  }

  /** The element at an optional position. */
  function At<T>(s: seq<T>, i: Option<nat>): Option<T>
    requires i.Some? ==> i.value < |s|
  {
    match i
    case Some(k) => Some(s[k])
    case None => None
  }

  /** The comprehension's first element is the element at the first matching position. */
  lemma {:induction false} HeadOfFilter<T>(s: seq<T>, p: T -> bool)
    ensures Head(Filter(s, p)) == At(s, FirstIndex(s, p))
  {
    if s != [] && !p(s[0]) {
      HeadOfFilter(s[1..], p);
    }
  }

  /** The comprehension's first element, when there is one, is the first element satisfying `p`. */
  lemma HeadOfFilterIsFirst<T>(s: seq<T>, p: T -> bool)
    requires Head(Filter(s, p)).Some?
    ensures exists j :: 0 <= j < |s| && s[j] == Head(Filter(s, p)).value && p(s[j])
                        && forall i :: 0 <= i < j ==> !p(s[i])
  {
    HeadOfFilter(s, p);
    var j := FirstIndex(s, p).value;
    assert s[j] == Head(Filter(s, p)).value;
  }

  /** Two lists that agree on `p` element-wise have the same first match. */
  lemma {:induction false} FirstIndexSameMatches<T, U>(s: seq<T>, p: T -> bool, t: seq<U>, q: U -> bool)
    requires |s| == |t|
    requires forall k :: 0 <= k < |s| ==> p(s[k]) == q(t[k])
    ensures FirstIndex(s, p) == FirstIndex(t, q)
  {
    if s != [] && !p(s[0]) {
      FirstIndexSameMatches(s[1..], p, t[1..], q);
    }
  }
}
