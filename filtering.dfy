/** Order-preserving selection from a sequence: a list comprehension `[x for x in s if p(x)]`. */
module Filtering {

  function Filter<T>(s: seq<T>, p: T -> bool): (r: seq<T>)
    ensures |r| <= |s|
    ensures forall i :: 0 <= i < |r| ==> p(r[i])
  {
    if s == [] then []
    else (if p(s[0]) then [s[0]] else []) + Filter(s[1..], p)
  }

  /** An element is selected exactly when it occurs in `s` and qualifies. */
  lemma {:induction false} FilterMembers<T>(s: seq<T>, p: T -> bool, x: T)
    ensures x in Filter(s, p) <==> x in s && p(x)
  {
    if s != [] {
      assert s == [s[0]] + s[1..];
      FilterMembers(s[1..], p, x);
    }
  }

  /** A selection keeps every qualifying element as often as it occurs, and nothing else. */
  lemma {:induction false} FilterCount<T>(s: seq<T>, p: T -> bool, x: T)
    ensures multiset(Filter(s, p))[x] == if p(x) then multiset(s)[x] else 0
  {
    if s != [] {
      assert s == [s[0]] + s[1..];
      FilterCount(s[1..], p, x);
    }
  }

  /** Selection distributes over concatenation: whatever is kept keeps its relative order. */
  lemma {:induction false} FilterAppend<T>(a: seq<T>, b: seq<T>, p: T -> bool)
    ensures Filter(a + b, p) == Filter(a, p) + Filter(b, p)
  {
    if a == [] {
      assert a + b == b;
    } else {
      assert (a + b)[0] == a[0];
      assert (a + b)[1..] == a[1..] + b;
      FilterAppend(a[1..], b, p);
    }
  }

  /** A selection with no qualifying element is empty. */
  lemma {:induction false} FilterNone<T>(s: seq<T>, p: T -> bool)
    requires forall i :: 0 <= i < |s| ==> !p(s[i])
    ensures Filter(s, p) == []
  {
    if s != [] {
      FilterNone(s[1..], p);
    }
  }

  /**
   * The last selected element is the last qualifying element of `s`: it sits at some index `i`
   * and nothing after `i` qualifies.
   */
  lemma {:induction false} FilterLast<T>(s: seq<T>, p: T -> bool) returns (i: nat)
    requires Filter(s, p) != []
    ensures i < |s| && p(s[i]) && Filter(s, p)[|Filter(s, p)| - 1] == s[i]
    ensures forall j :: i < j < |s| ==> !p(s[j])
  {
    var n := |s| - 1;
    var init := s[..n];
    assert s == init + [s[n]];
    FilterAppend(init, [s[n]], p);
    if p(s[n]) {
      i := n;
    } else {
      assert Filter([s[n]], p) == [];
      assert Filter(s, p) == Filter(init, p) + [];
      i := FilterLast(init, p);
      assert s[i] == init[i];
      forall j | i < j < n ensures !p(s[j]) {
        assert s[j] == init[j];
      }
    }
  }
}
