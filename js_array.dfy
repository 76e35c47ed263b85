/** The two Array.prototype operations the panel is built from: filter and find. */
module JsArray {
  import opened Wrappers

  /** a.filter(keep): the elements for which keep holds, in their original order. */
  function Filter<T(!new)>(s: seq<T>, keep: T -> bool): (r: seq<T>)
    ensures |r| <= |s|
    ensures forall i | 0 <= i < |r| :: keep(r[i])
    ensures forall x :: x in r <==> x in s && keep(x)
  {
    if s == [] then []
    else
      assert s == [s[0]] + s[1..];
      (if keep(s[0]) then [s[0]] else []) + Filter(s[1..], keep)
  }

  /** Filtering keeps each kept element as often as it occurs, and drops the others entirely. */
  lemma {:induction false} FilterCount<T(!new)>(s: seq<T>, keep: T -> bool, x: T)
    ensures multiset(Filter(s, keep))[x] == if keep(x) then multiset(s)[x] else 0
  {
    if s != [] {
      FilterCount(s[1..], keep, x);
      assert s == [s[0]] + s[1..];
    }
  }

  /** An element that fails the test makes the filtered array strictly shorter. */
  lemma {:induction false} FilterDrops<T(!new)>(s: seq<T>, keep: T -> bool, x: T)
    requires x in s && !keep(x)
    ensures |Filter(s, keep)| < |s|
  {
    assert s == [s[0]] + s[1..];
    if s[0] != x {
      FilterDrops(s[1..], keep, x);
    }
  }

  /** Filtering keeps the order: it distributes over concatenation. */
  lemma {:induction false} FilterAppend<T(!new)>(a: seq<T>, b: seq<T>, keep: T -> bool)
    ensures Filter(a + b, keep) == Filter(a, keep) + Filter(b, keep)
  {
    if a == [] {
      assert a + b == b;
    } else {
      assert (a + b)[0] == a[0];
      assert (a + b)[1..] == a[1..] + b;
      FilterAppend(a[1..], b, keep);
    }
  }

  /**
   * The position of a.find(matches) in a: the first element for which
   * matches holds, or None when there is none (find gives undefined).
   */
  function FindIndex<T>(s: seq<T>, matches: T -> bool): (r: Option<nat>)
    ensures r.Some? ==> r.value < |s| && matches(s[r.value])
    ensures r.Some? ==> forall j | 0 <= j < r.value :: !matches(s[j])
    ensures r.None? <==> forall j | 0 <= j < |s| :: !matches(s[j])
  {
    if s == [] then None
    else if matches(s[0]) then Some(0)
    else match FindIndex(s[1..], matches)
      case None => None
      case Some(k) => Some(k + 1)
  }
}
