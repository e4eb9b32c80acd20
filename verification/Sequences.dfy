/** Facts about sequences that several modules need. */
module Sequences {
  lemma Associative<T>(a: seq<T>, b: seq<T>, c: seq<T>)
    ensures a + (b + c) == a + b + c
  {
  }

  /** A bijection on `0..n`, as the list of its values. */
  ghost predicate IsReordering(perm: seq<nat>, n: nat) {
    && |perm| == n
    && (forall i :: 0 <= i < n ==> perm[i] < n)
    && (forall i, j :: 0 <= i < j < n ==> perm[i] != perm[j])
    && forall k :: 0 <= k < n ==> k in perm
  }

  function Reorder<T>(xs: seq<T>, perm: seq<nat>): (r: seq<T>)
    requires forall i :: 0 <= i < |perm| ==> perm[i] < |xs|
    ensures |r| == |perm| && forall i :: 0 <= i < |perm| ==> r[i] == xs[perm[i]]
  {
    seq(|perm|, i requires 0 <= i < |perm| => xs[perm[i]])
  }

  lemma CountTwice<T>(s: seq<T>, i: nat, j: nat)
    requires i < j < |s| && s[i] == s[j]
    ensures multiset(s)[s[i]] >= 2
  {
    assert s == s[..j] + s[j..];
    assert s[i] in s[..j] && s[j] in s[j..];
    assert multiset(s) == multiset(s[..j]) + multiset(s[j..]);
  }

  lemma {:induction false} TwoIndices<T>(s: seq<T>, x: T) returns (i: nat, j: nat)
    requires multiset(s)[x] >= 2
    ensures i < j < |s| && s[i] == s[j] == x
    decreases |s|
  {
    var n := |s| - 1;
    assert s == s[..n] + [s[n]];
    if s[n] == x {
      j := n;
      assert x in multiset(s[..n]);
      i :| 0 <= i < n && s[i] == x;
    } else {
      i, j := TwoIndices(s[..n], x);
    }
  }

  function Repeat<T>(x: T, n: nat): (s: seq<T>)
    ensures |s| == n && forall i :: 0 <= i < n ==> s[i] == x
  {
    if n == 0 then [] else Repeat(x, n - 1) + [x]
  }

  function Without<T(==)>(s: seq<T>, x: T): seq<T> {
    if s == [] then [] else Without(s[..|s| - 1], x) + if s[|s| - 1] == x then [] else [s[|s| - 1]]
  }

  lemma {:induction false} WithoutIs<T>(s: seq<T>, x: T, y: T)
    ensures y in Without(s, x) <==> y in s && y != x
    decreases |s|
  {
    if s != [] {
      var n := |s| - 1;
      WithoutIs(s[..n], x, y);
      assert s == s[..n] + [s[n]];
    }
  }

  lemma {:induction false} RepeatCount<T>(x: T, n: nat, y: T)
    ensures multiset(Repeat(x, n))[y] == if y == x then n else 0
    decreases n
  {
    if n > 0 {
      RepeatCount(x, n - 1, y);
    }
  }

  lemma {:induction false} WithoutCount<T>(s: seq<T>, x: T, y: T)
    ensures multiset(Without(s, x))[y] == if y == x then 0 else multiset(s)[y]
    decreases |s|
  {
    if s != [] {
      WithoutCount(s[..|s| - 1], x, y);
      assert s == s[..|s| - 1] + [s[|s| - 1]];
    }
  }

  /** A sequence is a permutation of the copies of one element and the rest. */
  lemma CopiesAndRest<T(!new)>(s: seq<T>, x: T)
    ensures multiset(Repeat(x, multiset(s)[x])) + multiset(Without(s, x)) == multiset(s)
  {
    var copies, rest := multiset(Repeat(x, multiset(s)[x])), multiset(Without(s, x));
    forall y ensures (copies + rest)[y] == multiset(s)[y]
    {
      RepeatCount(x, multiset(s)[x], y);
      WithoutCount(s, x, y);
    }
  }

  lemma MovedToEnd<T>(s: seq<T>, k: nat)
    requires k < |s|
    ensures multiset(s[..k] + s[k + 1..]) + multiset{s[k]} == multiset(s)
  {
    assert s == s[..k] + [s[k]] + s[k + 1..];
  }

  lemma OnlyInFirst<T>(a: seq<T>, b: seq<T>, c: seq<T>, y: T, x: T, i: nat)
    requires x !in b && x !in c && y != x
    requires i < |a + b + c + [y]| && (a + b + c + [y])[i] == x
    ensures i < |a|
  {
    var all := a + b + c + [y];
    assert forall j :: |a| <= j < |a| + |b| ==> all[j] == b[j - |a|];
    assert forall j :: |a| + |b| <= j < |all| - 1 ==> all[j] == c[j - |a| - |b|];
  }

  /** The elements for which `p` holds, in order. */
  function Select<T>(s: seq<T>, p: T -> bool): seq<T> {
    if s == [] then []
    else Select(s[..|s| - 1], p) + if p(s[|s| - 1]) then [s[|s| - 1]] else []
  }

  lemma {:induction false} SelectIs<T>(s: seq<T>, p: T -> bool, x: T)
    ensures multiset(Select(s, p))[x] == if p(x) then multiset(s)[x] else 0
    ensures |Select(s, p)| <= |s|
    decreases |s|
  {
    if s != [] {
      var n := |s| - 1;
      assert s == s[..n] + [s[n]];
      SelectIs(s[..n], p, x);
    }
  }

  lemma SelectPermuted<T(!new)>(s: seq<T>, t: seq<T>, p: T -> bool)
    requires multiset(s) == multiset(t)
    ensures |Select(s, p)| == |Select(t, p)|
  {
    forall x ensures multiset(Select(s, p))[x] == multiset(Select(t, p))[x]
    {
      SelectIs(s, p, x);
      SelectIs(t, p, x);
    }
    assert multiset(Select(s, p)) == multiset(Select(t, p));
    assert |multiset(Select(s, p))| == |Select(s, p)| && |multiset(Select(t, p))| == |Select(t, p)|;
  }

  function Not<T>(p: T -> bool): T -> bool {
    x => !p(x)
  }

  lemma SelectSplits<T(!new)>(s: seq<T>, p: T -> bool)
    ensures multiset(Select(s, p)) + multiset(Select(s, Not(p))) == multiset(s)
  {
    forall x ensures multiset(Select(s, p))[x] + multiset(Select(s, Not(p)))[x] == multiset(s)[x]
    {
      SelectIs(s, p, x);
      SelectIs(s, Not(p), x);
    }
  }

  lemma Selected<T>(s: seq<T>, p: T -> bool, x: T)
    requires x in Select(s, p)
    ensures x in s && p(x)
  {
    SelectIs(s, p, x);
    assert x in multiset(Select(s, p)) && x in multiset(s);
  }

  lemma SelectSkips<T(!new)>(s: seq<T>, k: nat, p: T -> bool)
    requires k < |s| && !p(s[k])
    ensures |Select(s[..k] + s[k + 1..], p)| == |Select(s, p)|
  {
    var rest := s[..k] + s[k + 1..];
    MovedToEnd(s, k);
    SelectPermuted(s, rest + [s[k]], p);
    assert (rest + [s[k]])[..|rest|] == rest;
  }
}
