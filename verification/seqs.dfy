/** Sequence combinators behind Python's list comprehensions, `for ... break`
    searches and `list.sort()`. */
module Seqs {
  import opened Wrappers

  /** `xs` can be obtained from `ys` by deleting elements. */
  predicate IsSubsequence<T(==)>(xs: seq<T>, ys: seq<T>)
    decreases |ys|
  {
    if |xs| == 0 then true
    else if |ys| == 0 then false
    else (xs[0] == ys[0] && IsSubsequence(xs[1..], ys[1..])) || IsSubsequence(xs, ys[1..])
  }

  /** `[x for x in xs if p(x)]`: the elements satisfying `p`, in their order. */
  function Filter<T(==)>(xs: seq<T>, p: T -> bool): (r: seq<T>)
    ensures |r| <= |xs|
    ensures forall x :: x in r ==> x in xs && p(x)
    ensures forall x :: x in xs && p(x) ==> x in r
    ensures IsSubsequence(r, xs)
    decreases |xs|
  {
    if |xs| == 0 then []
    else
      var rest := Filter(xs[1..], p);
      if p(xs[0]) then
        assert ([xs[0]] + rest)[1..] == rest;
        [xs[0]] + rest
      else rest
  }

  /** `[f(x) for x in xs if f(x) is not None]`, with the `Option` unwrapped. */
  function FilterMap<T, U(==)>(xs: seq<T>, f: T -> Option<U>): (r: seq<U>)
    ensures |r| <= |xs|
    ensures r == [] <==> forall i :: 0 <= i < |xs| ==> f(xs[i]).None?
    ensures forall i :: 0 <= i < |xs| && f(xs[i]).Some? ==> f(xs[i]).value in r
    ensures forall y :: y in r ==> exists i :: 0 <= i < |xs| && f(xs[i]) == Some(y)
    ensures |xs| > 0 && f(xs[0]).Some? ==> r[0] == f(xs[0]).value
    decreases |xs|
  {
    if |xs| == 0 then []
    else
      var rest := FilterMap(xs[1..], f);
      var r := (if f(xs[0]).Some? then [f(xs[0]).value] else []) + rest;
      assert forall i :: 0 <= i < |xs| && f(xs[i]).Some? ==> f(xs[i]).value in r by {
        forall i | 0 <= i < |xs| && f(xs[i]).Some? ensures f(xs[i]).value in r {
          if i > 0 {
            assert xs[1..][i - 1] == xs[i];
          }
        }
      }
      assert rest == [] <==> forall i :: 1 <= i < |xs| ==> f(xs[i]).None? by {
        if rest != [] {
          var i :| 0 <= i < |xs[1..]| && f(xs[1..][i]).Some?;
          assert xs[i + 1] == xs[1..][i];
        } else {
          forall i | 1 <= i < |xs| ensures f(xs[i]).None? {
            assert xs[1..][i - 1] == xs[i];
          }
        }
      }
      assert forall y :: y in r ==> exists i :: 0 <= i < |xs| && f(xs[i]) == Some(y) by {
        forall y | y in r ensures exists i :: 0 <= i < |xs| && f(xs[i]) == Some(y) {
          if y in rest {
            var i :| 0 <= i < |xs[1..]| && f(xs[1..][i]) == Some(y);
            assert xs[i + 1] == xs[1..][i];
          } else {
            assert f(xs[0]) == Some(y);
          }
        }
      }
      r
  }

  /** Index of the first element at or after `i` satisfying `p`. */
  function FirstWhereFrom<T>(xs: seq<T>, p: T -> bool, i: nat): (r: Option<nat>)
    requires i <= |xs|
    ensures r.Some? ==> i <= r.value < |xs| && p(xs[r.value])
    ensures forall j :: i <= j < |xs| && (r.None? || j < r.value) ==> !p(xs[j])
    decreases |xs| - i
  {
    if i == |xs| then None
    else if p(xs[i]) then Some(i)
    else FirstWhereFrom(xs, p, i + 1)
  }

  /** `for x in xs: if p(x): ...; break`: the index of the first match, if any. */
  function FirstWhere<T>(xs: seq<T>, p: T -> bool): (r: Option<nat>)
    ensures r.Some? ==> r.value < |xs| && p(xs[r.value])
    ensures forall j :: 0 <= j < |xs| && (r.None? || j < r.value) ==> !p(xs[j])
  {
    FirstWhereFrom(xs, p, 0)
  }

  predicate Sorted(s: seq<int>) {
    forall i, j :: 0 <= i < j < |s| ==> s[i] <= s[j]
  }

  function Insert(x: int, s: seq<int>): (r: seq<int>)
    requires Sorted(s)
    ensures Sorted(r)
    ensures forall y :: y in r <==> y == x || y in s
    ensures multiset(r) == multiset(s) + multiset{x}
    decreases |s|
  {
    if |s| == 0 || x <= s[0] then [x] + s
    else
      var rest := Insert(x, s[1..]);
      assert s == [s[0]] + s[1..];
      assert forall k :: 0 <= k < |rest| ==> s[0] <= rest[k] by {
        forall k | 0 <= k < |rest| ensures s[0] <= rest[k] {
          assert rest[k] in rest;
        }
      }
      [s[0]] + rest
  }

  /** `list.sort()` on integers. */
  function SortInts(s: seq<int>): (r: seq<int>)
    ensures Sorted(r)
    ensures multiset(r) == multiset(s)
    ensures forall x :: x in r <==> x in s
    decreases |s|
  {
    if |s| == 0 then []
    else
      assert s == [s[0]] + s[1..];
      Insert(s[0], SortInts(s[1..]))
  }
}
