/** The ordering used by `list.sort()` on integers: insertion sort into ascending
    order, or into descending order for `sort(reverse=True)`. */
module Sorting {

  /** `a` may come before `b` in the requested order. */
  predicate Before(a: int, b: int, descending: bool)
  {
    if descending then a >= b else a <= b
  }

  predicate Sorted(s: seq<int>, descending: bool)
  {
    forall i, j :: 0 <= i < j < |s| ==> Before(s[i], s[j], descending)
  }

  /** Inserts `x` in front of the first element it may come before. */
  function Insert(x: int, s: seq<int>, descending: bool): (r: seq<int>)
    requires Sorted(s, descending)
    ensures Sorted(r, descending)
    ensures multiset(r) == multiset(s) + multiset{x}
  {
    if s == [] || Before(x, s[0], descending) then
      [x] + s
    else
      var rest := Insert(x, s[1..], descending);
      assert s == [s[0]] + s[1..];
      assert forall k :: 0 <= k < |rest| ==> Before(s[0], rest[k], descending) by {
        forall k | 0 <= k < |rest|
          ensures Before(s[0], rest[k], descending)
        {
          assert rest[k] in multiset(rest);
          assert rest[k] == x || rest[k] in multiset(s[1..]);
          if rest[k] != x {
            var m :| 0 <= m < |s[1..]| && s[1..][m] == rest[k];
          }
        }
      }
      [s[0]] + rest
  }

  /** The list sorted in the requested order. */
  function Sort(s: seq<int>, descending: bool): (r: seq<int>)
    ensures Sorted(r, descending)
    ensures multiset(r) == multiset(s)
  {
    if s == [] then []
    else
      assert s == [s[0]] + s[1..];
      Insert(s[0], Sort(s[1..], descending), descending)
  }

  /** The first element of a sorted non-empty list precedes every element of it. */
  lemma HeadPrecedesAll(s: seq<int>, descending: bool, x: int)
    requires Sorted(s, descending) && |s| > 0
    requires x in multiset(s)
    ensures Before(s[0], x, descending)
  {
  }

  /** There is exactly one sorted arrangement of a multiset of integers: any two
      sorted lists with the same elements are equal. */
  lemma {:induction false} SortedUnique(a: seq<int>, b: seq<int>, descending: bool)
    requires Sorted(a, descending) && Sorted(b, descending)
    requires multiset(a) == multiset(b)
    ensures a == b
  {
    if a == [] {
      assert |b| == |multiset(b)| == 0;
    } else {
      assert |b| == |multiset(b)| == |multiset(a)| == |a|;
      assert a[0] in multiset(b) && b[0] in multiset(a);
      HeadPrecedesAll(b, descending, a[0]);
      HeadPrecedesAll(a, descending, b[0]);
      assert a[0] == b[0];
      assert a == [a[0]] + a[1..] && b == [b[0]] + b[1..];
      assert multiset(a) == multiset{a[0]} + multiset(a[1..]);
      assert multiset(b) == multiset{b[0]} + multiset(b[1..]);
      assert multiset(a[1..]) == multiset(a) - multiset{a[0]};
      assert multiset(b[1..]) == multiset(b) - multiset{b[0]};
      SortedUnique(a[1..], b[1..], descending);
    }
  }

  /** `Sort` is characterised by its contract: a sorted permutation of `s` is `Sort(s)`. */
  lemma SortIsTheSortedPermutation(s: seq<int>, r: seq<int>, descending: bool)
    requires Sorted(r, descending) && multiset(r) == multiset(s)
    ensures r == Sort(s, descending)
  {
    SortedUnique(r, Sort(s, descending), descending);
  }
}
