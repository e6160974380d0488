/** Generic facts about sequences: filtering, subsequences, sums and maxima.
    Several operations of the model keep "exactly the elements of a list that
    satisfy a test, in their original order"; `IsFilterOf` states that
    without saying how the list is built. */
module Seqs {

  /** The elements of `s` that satisfy `p`, in order. */
  function Filter<T>(p: T -> bool, s: seq<T>): (r: seq<T>)
    ensures |r| <= |s|
    ensures forall x :: x in r ==> x in s && p(x)
    decreases |s|
  {
    if |s| == 0 then [] else (if p(s[0]) then [s[0]] else []) + Filter(p, s[1..])
  }

  lemma {:induction false} FilterAppend<T>(p: T -> bool, a: seq<T>, b: seq<T>)
    ensures Filter(p, a + b) == Filter(p, a) + Filter(p, b)
    decreases |a|
  {
    if |a| > 0 {
      assert (a + b)[1..] == a[1..] + b;
      FilterAppend(p, a[1..], b);
    } else {
      assert a + b == b;
    }
  }

  /** `a` can be obtained from `b` by deleting elements. */
  predicate IsSubseq<T(==)>(a: seq<T>, b: seq<T>)
    decreases |b|
  {
    |a| == 0 || (|b| > 0 && (if a[0] == b[0] then IsSubseq(a[1..], b[1..]) else IsSubseq(a, b[1..])))
  }

  lemma {:induction false} SubseqMultiset<T>(a: seq<T>, b: seq<T>)
    requires IsSubseq(a, b)
    ensures multiset(a) <= multiset(b)
    decreases |b|
  {
    if |a| > 0 {
      assert b == [b[0]] + b[1..];
      if a[0] == b[0] {
        SubseqMultiset(a[1..], b[1..]);
        assert a == [a[0]] + a[1..];
      } else {
        SubseqMultiset(a, b[1..]);
      }
    }
  }

  /** `r` holds exactly the elements of `s` that satisfy `p`, in their order
      in `s` and with their multiplicity in `s`. */
  predicate IsFilterOf<T(==)>(r: seq<T>, s: seq<T>, p: T -> bool) {
    && IsSubseq(r, s)
    && (forall k :: 0 <= k < |r| ==> p(r[k]))
    && (forall x | x in s && p(x) :: multiset(r)[x] == multiset(s)[x])
  }

  lemma {:induction false} FilterIsFilterOf<T>(p: T -> bool, s: seq<T>)
    ensures IsFilterOf(Filter(p, s), s, p)
  {
    FilterIsSubseq(p, s);
    FilterMultiset(p, s);
    var r := Filter(p, s);
    assert forall k :: 0 <= k < |r| ==> r[k] in r;
  }

  lemma {:induction false} FilterIsSubseq<T>(p: T -> bool, s: seq<T>)
    ensures IsSubseq(Filter(p, s), s)
    decreases |s|
  {
    if |s| > 0 {
      FilterIsSubseq(p, s[1..]);
      var rest := Filter(p, s[1..]);
      if p(s[0]) {
        assert ([s[0]] + rest)[1..] == rest;
      } else {
        assert Filter(p, s) == rest;
        if |rest| > 0 {
          assert rest[0] in rest;
        }
      }
    }
  }

  lemma {:induction false} FilterMultiset<T>(p: T -> bool, s: seq<T>)
    ensures forall x | x in s && p(x) :: multiset(Filter(p, s))[x] == multiset(s)[x]
    decreases |s|
  {
    if |s| > 0 {
      FilterMultiset(p, s[1..]);
      assert s == [s[0]] + s[1..];
      var rest := Filter(p, s[1..]);
      forall x | x in s && p(x) ensures multiset(Filter(p, s))[x] == multiset(s)[x] {
        if x !in s[1..] {
          assert multiset(s[1..])[x] == 0;
          assert multiset(rest)[x] == 0;
        }
      }
    }
  }

  /** `IsFilterOf` determines the filtered list: it can only be `Filter`. */
  lemma {:induction false} FilterOfUnique<T>(r: seq<T>, s: seq<T>, p: T -> bool)
    requires IsFilterOf(r, s, p)
    ensures r == Filter(p, s)
    decreases |s|
  {
    if |s| == 0 {
    } else {
      var x := s[0];
      assert s == [x] + s[1..];
      if p(x) {
        assert multiset(s)[x] >= 1;
        assert x in r by { assert multiset(r)[x] >= 1; }
        if r[0] != x {
          assert IsSubseq(r, s[1..]);
          SubseqMultiset(r, s[1..]);
          assert false;
        }
        assert r == [x] + r[1..];
        assert IsSubseq(r[1..], s[1..]);
        forall y | y in s[1..] && p(y) ensures multiset(r[1..])[y] == multiset(s[1..])[y] {
          assert multiset(r) == multiset{x} + multiset(r[1..]);
          assert multiset(s) == multiset{x} + multiset(s[1..]);
        }
        FilterOfUnique(r[1..], s[1..], p);
      } else {
        if |r| > 0 {
          assert p(r[0]);
        }
        assert IsSubseq(r, s[1..]);
        forall y | y in s[1..] && p(y) ensures multiset(r)[y] == multiset(s[1..])[y] {
          assert multiset(s) == multiset{x} + multiset(s[1..]);
        }
        FilterOfUnique(r, s[1..], p);
      }
    }
  }

  /** An element that satisfies the test survives the filter. */
  lemma {:induction false} FilterKeeps<T>(p: T -> bool, s: seq<T>, x: T)
    requires x in s && p(x)
    ensures x in Filter(p, s)
    decreases |s|
  {
    if s[0] != x {
      FilterKeeps(p, s[1..], x);
    }
  }

  /** Number of elements of `s` that satisfy `p`. */
  /** Nothing passes a filter no element satisfies. */
  lemma {:induction false} FilterNone<T>(p: T -> bool, s: seq<T>)
    requires forall k :: 0 <= k < |s| ==> !p(s[k])
    ensures Filter(p, s) == []
    decreases |s|
  {
    if |s| > 0 {
      assert forall k :: 0 <= k < |s[1..]| ==> s[1..][k] == s[k + 1];
      FilterNone(p, s[1..]);
    }
  }

  function CountWhere<T>(p: T -> bool, s: seq<T>): nat {
    |Filter(p, s)|
  }

  lemma {:induction false} CountWhereAppend<T>(p: T -> bool, a: seq<T>, b: seq<T>)
    ensures CountWhere(p, a + b) == CountWhere(p, a) + CountWhere(p, b)
  {
    FilterAppend(p, a, b);
  }

  /** Every element passes: the count is the length. */
  lemma {:induction false} CountWhereAll<T>(p: T -> bool, s: seq<T>)
    requires forall k :: 0 <= k < |s| ==> p(s[k])
    ensures CountWhere(p, s) == |s|
    decreases |s|
  {
    if |s| > 0 {
      assert forall k :: 0 <= k < |s[1..]| ==> s[1..][k] == s[k + 1];
      CountWhereAll(p, s[1..]);
    }
  }

  /** Tests that agree on every element count the same. */
  lemma {:induction false} CountWhereSame<T>(p: T -> bool, q: T -> bool, s: seq<T>)
    requires forall k :: 0 <= k < |s| ==> p(s[k]) == q(s[k])
    ensures CountWhere(p, s) == CountWhere(q, s)
    decreases |s|
  {
    if |s| > 0 {
      assert forall k :: 0 <= k < |s[1..]| ==> s[1..][k] == s[k + 1];
      CountWhereSame(p, q, s[1..]);
    }
  }

  /** Some element passes the test exactly when the count is positive. */
  lemma {:induction false} CountWherePositive<T>(p: T -> bool, s: seq<T>)
    ensures CountWhere(p, s) > 0 <==> exists k :: 0 <= k < |s| && p(s[k])
  {
    if exists k :: 0 <= k < |s| && p(s[k]) {
      var k :| 0 <= k < |s| && p(s[k]);
      FilterKeeps(p, s, s[k]);
    } else if CountWhere(p, s) > 0 {
      var r := Filter(p, s);
      assert r[0] in r;
    }
  }

  /** Sum of a sequence of naturals. */
  function Sum(s: seq<nat>): nat
    decreases |s|
  {
    if |s| == 0 then 0 else s[0] + Sum(s[1..])
  }

  /** Concatenation regrouped; called where an inline assertion of the same
      fact would be proved in a much larger context. */
  lemma {:induction false} SeqAssoc<T>(a: seq<T>, b: seq<T>, c: seq<T>)
    ensures (a + b) + c == a + (b + c)
  {
  }

  lemma {:induction false} SumCons(x: nat, s: seq<nat>)
    ensures Sum([x] + s) == x + Sum(s)
  {
    assert ([x] + s)[1..] == s;
  }

  lemma {:induction false} SumAppend(a: seq<nat>, b: seq<nat>)
    ensures Sum(a + b) == Sum(a) + Sum(b)
    decreases |a|
  {
    if |a| > 0 {
      assert (a + b)[1..] == a[1..] + b;
      SumAppend(a[1..], b);
    } else {
      assert a + b == b;
    }
  }

  /** Largest element, 0 for the empty sequence. */
  function Max(s: seq<nat>): (m: nat)
    ensures forall k :: 0 <= k < |s| ==> s[k] <= m
    ensures |s| > 0 ==> m in s
    ensures |s| == 0 ==> m == 0
    decreases |s|
  {
    if |s| == 0 then 0
    else
      var rest := Max(s[1..]);
      assert forall k :: 1 <= k < |s| ==> s[k] == s[1..][k - 1];
      if s[0] >= rest then s[0] else rest
  }

  lemma {:induction false} MaxAppend(a: seq<nat>, b: seq<nat>)
    ensures Max(a + b) == if Max(a) >= Max(b) then Max(a) else Max(b)
  {
    var m := Max(a + b);
    forall k | 0 <= k < |a| ensures a[k] <= m { assert (a + b)[k] == a[k]; }
    forall k | 0 <= k < |b| ensures b[k] <= m { assert (a + b)[|a| + k] == b[k]; }
    if |a| > 0 { assert Max(a) in a; }
    if |b| > 0 { assert Max(b) in b; }
    if |a + b| > 0 {
      assert m in a + b;
      var k :| 0 <= k < |a + b| && (a + b)[k] == m;
      if k < |a| { assert m == a[k]; } else { assert m == b[k - |a|]; }
    }
  }

  /** Dropping the first element of a subsequence keeps it a subsequence. */
  lemma {:induction false} SubseqDropFirst<T>(a: seq<T>, b: seq<T>)
    requires |a| > 0 && IsSubseq(a, b)
    ensures IsSubseq(a[1..], b)
    decreases |b|, 1
  {
    if a[0] != b[0] {
      SubseqDropFirst(a, b[1..]);
    }
    SubseqSkip(a[1..], b);
  }

  /** A subsequence of the tail is a subsequence of the whole. */
  lemma {:induction false} SubseqSkip<T>(a: seq<T>, b: seq<T>)
    requires |b| > 0 && IsSubseq(a, b[1..])
    ensures IsSubseq(a, b)
    decreases |b|, 0
  {
    if |a| > 0 && a[0] == b[0] {
      SubseqDropFirst(a, b[1..]);
    }
  }

  /** A subsequence of a suffix is a subsequence of the whole. */
  lemma {:induction false} SubseqOfSuffix<T>(a: seq<T>, b: seq<T>, j: nat)
    requires j <= |b| && IsSubseq(a, b[j..])
    ensures IsSubseq(a, b)
    decreases j
  {
    if j > 0 {
      assert b[1..][j - 1..] == b[j..];
      SubseqOfSuffix(a, b[1..], j - 1);
      SubseqSkip(a, b);
    }
  }

  /** Length of the longest prefix of `s` whose elements all satisfy `p`. */
  function PrefixWhile<T>(p: T -> bool, s: seq<T>): (n: nat)
    ensures n <= |s|
    decreases |s|
  {
    if |s| > 0 && p(s[0]) then 1 + PrefixWhile(p, s[1..]) else 0
  }

  lemma {:induction false} PrefixWhileSpec<T>(p: T -> bool, s: seq<T>)
    ensures forall j :: 0 <= j < PrefixWhile(p, s) ==> p(s[j])
    ensures PrefixWhile(p, s) < |s| ==> !p(s[PrefixWhile(p, s)])
    decreases |s|
  {
    if |s| > 0 && p(s[0]) {
      PrefixWhileSpec(p, s[1..]);
      forall j | 1 <= j < PrefixWhile(p, s) ensures p(s[j]) {
        assert s[j] == s[1..][j - 1];
      }
    }
  }

  /** Any prefix length whose elements satisfy `p` and that stops at an
      element that does not is `PrefixWhile`. */
  lemma {:induction false} PrefixWhileUnique<T>(p: T -> bool, s: seq<T>, n: nat)
    requires n <= |s|
    requires forall j :: 0 <= j < n ==> p(s[j])
    requires n < |s| ==> !p(s[n])
    ensures PrefixWhile(p, s) == n
    decreases n
  {
    if n > 0 {
      assert forall j :: 0 <= j < n - 1 ==> s[1..][j] == s[j + 1];
      PrefixWhileUnique(p, s[1..], n - 1);
    } else if |s| > 0 {
      assert !p(s[0]);
    }
  }

  /** A prefix's elements are elements of the whole. */
  lemma {:induction false} PrefixMembers<T>(a: seq<T>, b: seq<T>)
    requires a <= b
    ensures forall x :: x in a ==> x in b
  {
    forall x | x in a ensures x in b {
      var k :| 0 <= k < |a| && a[k] == x;
      assert b[k] == x;
    }
  }

  /** `f` applied to each element, in order. */
  function MapSeq<A, B>(f: A -> B, s: seq<A>): (r: seq<B>)
    ensures |r| == |s|
    ensures forall k :: 0 <= k < |s| ==> r[k] == f(s[k])
    decreases |s|
  {
    if |s| == 0 then [] else [f(s[0])] + MapSeq(f, s[1..])
  }
}
