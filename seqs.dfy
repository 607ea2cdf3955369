/** Array.prototype.filter and Array.prototype.reduce over sums, the two list
    operations every page of the dashboard is built from. */
module Seqs {

  // ---------------------------------------------------------------------------
  // filter
  // ---------------------------------------------------------------------------

  /** `s.filter(p)`: the elements of s that satisfy p, visited front to back. */
  function Filter<T>(s: seq<T>, p: T -> bool): (r: seq<T>)
    ensures |r| <= |s|
    ensures forall i :: 0 <= i < |r| ==> p(r[i])
  {
    if s == [] then []
    else (if p(s[0]) then [s[0]] else []) + Filter(s[1..], p)
  }

  /** What filter keeps comes from s, and every element of s that satisfies p
      is kept; the result holds no element more often than s does. */
  lemma {:induction false} FilterMembers<T>(s: seq<T>, p: T -> bool)
    ensures forall i :: 0 <= i < |Filter(s, p)| ==> Filter(s, p)[i] in s
    ensures forall i :: 0 <= i < |s| && p(s[i]) ==> s[i] in Filter(s, p)
    ensures multiset(Filter(s, p)) <= multiset(s)
  {
    if s != [] {
      FilterMembers(s[1..], p);
      assert forall i :: 1 <= i < |s| ==> s[i] == s[1..][i - 1];
      assert s == [s[0]] + s[1..];
    }
  }

  /** Filtering distributes over concatenation: what is kept from a prefix comes
      before what is kept from the rest. */
  lemma {:induction false} FilterConcat<T>(a: seq<T>, b: seq<T>, p: T -> bool)
    ensures Filter(a + b, p) == Filter(a, p) + Filter(b, p)
  {
    if a == [] {
      assert a + b == b;
    } else {
      assert (a + b)[1..] == a[1..] + b;
      FilterConcat(a[1..], b, p);
    }
  }

  /** The positions of s whose element satisfies p, in increasing order. */
  function KeptIndices<T>(s: seq<T>, p: T -> bool): (idx: seq<nat>)
    ensures forall k :: 0 <= k < |idx| ==> idx[k] < |s|
  {
    if s == [] then []
    else KeptIndices(s[..|s| - 1], p) + (if p(s[|s| - 1]) then [|s| - 1] else [])
  }

  lemma {:induction false} KeptIndicesSpec<T>(s: seq<T>, p: T -> bool)
    ensures forall k, l :: 0 <= k < l < |KeptIndices(s, p)| ==> KeptIndices(s, p)[k] < KeptIndices(s, p)[l]
    ensures forall i :: i in KeptIndices(s, p) <==> 0 <= i < |s| && p(s[i])
  {
    if s != [] {
      var init := s[..|s| - 1];
      KeptIndicesSpec(init, p);
      assert forall i :: 0 <= i < |init| ==> init[i] == s[i];
    }
  }

  /** The reference reading of filter: the result lists exactly the elements at
      the positions that satisfy p, in increasing position order. */
  lemma {:induction false} FilterIsSubsequence<T>(s: seq<T>, p: T -> bool)
    ensures |Filter(s, p)| == |KeptIndices(s, p)|
    ensures forall k :: 0 <= k < |Filter(s, p)| ==> Filter(s, p)[k] == s[KeptIndices(s, p)[k]]
    ensures forall k, l :: 0 <= k < l < |KeptIndices(s, p)| ==> KeptIndices(s, p)[k] < KeptIndices(s, p)[l]
    ensures forall i :: i in KeptIndices(s, p) <==> 0 <= i < |s| && p(s[i])
  {
    KeptIndicesSpec(s, p);
    if s != [] {
      var init, last := s[..|s| - 1], s[|s| - 1];
      assert s == init + [last];
      FilterConcat(init, [last], p);
      FilterIsSubsequence(init, p);
      assert [last][1..] == [];
      var f, idx := Filter(s, p), KeptIndices(s, p);
      forall k | 0 <= k < |f| ensures f[k] == s[idx[k]] {
        if k < |Filter(init, p)| {
          assert f[k] == Filter(init, p)[k];
          assert idx[k] == KeptIndices(init, p)[k];
        }
      }
    }
  }

  /** Nothing is dropped exactly when every element satisfies p. */
  lemma {:induction false} FilterKeepsAll<T>(s: seq<T>, p: T -> bool)
    ensures Filter(s, p) == s <==> forall i :: 0 <= i < |s| ==> p(s[i])
  {
    if s != [] {
      FilterKeepsAll(s[1..], p);
      assert forall i :: 1 <= i < |s| ==> s[1..][i - 1] == s[i];
      if Filter(s, p) == s && !p(s[0]) {
        assert |Filter(s[1..], p)| <= |s| - 1;
      }
    }
  }

  /** Everything is dropped exactly when no element satisfies p. */
  lemma FilterDropsAll<T>(s: seq<T>, p: T -> bool)
    ensures Filter(s, p) == [] <==> forall i :: 0 <= i < |s| ==> !p(s[i])
  {
    if Filter(s, p) == [] {
      forall i | 0 <= i < |s| ensures !p(s[i]) {
        assert s[i] in s;
      }
    }
  }

  /** Two predicates that agree on the elements of s filter it alike. */
  lemma {:induction false} FilterAgree<T>(s: seq<T>, p: T -> bool, q: T -> bool)
    requires forall i :: 0 <= i < |s| ==> p(s[i]) == q(s[i])
    ensures Filter(s, p) == Filter(s, q)
  {
    if s != [] {
      assert forall i :: 1 <= i < |s| ==> s[1..][i - 1] == s[i];
      FilterAgree(s[1..], p, q);
    }
  }

  /** Filtering with p and then with q is filtering with q and then with p. */
  lemma {:induction false} FilterCommutes<T>(s: seq<T>, p: T -> bool, q: T -> bool)
    ensures Filter(Filter(s, p), q) == Filter(Filter(s, q), p)
  {
    if s != [] {
      FilterCommutes(s[1..], p, q);
      FilterConcat(if p(s[0]) then [s[0]] else [], Filter(s[1..], p), q);
      FilterConcat(if q(s[0]) then [s[0]] else [], Filter(s[1..], q), p);
    }
  }

  /** When q holds exactly where p fails, every element lands in exactly one of
      the two filters. */
  lemma {:induction false} FilterSplit<T>(s: seq<T>, p: T -> bool, q: T -> bool)
    requires forall i :: 0 <= i < |s| ==> q(s[i]) == !p(s[i])
    ensures |Filter(s, p)| + |Filter(s, q)| == |s|
  {
    if s != [] {
      assert forall i :: 1 <= i < |s| ==> s[1..][i - 1] == s[i];
      FilterSplit(s[1..], p, q);
    }
  }

  /** The position of the first occurrence of x in s. */
  function IndexOf<T(==)>(s: seq<T>, x: T): (i: nat)
    requires x in s
    ensures i < |s| && s[i] == x
    ensures forall j :: 0 <= j < i ==> s[j] != x
  {
    if s[0] == x then 0 else 1 + IndexOf(s[1..], x)
  }

  /** Appending never moves a first occurrence. */
  lemma IndexOfAppend<T>(s: seq<T>, t: seq<T>, x: T)
    requires x in s
    ensures x in s + t && IndexOf(s + t, x) == IndexOf(s, x)
  {
    var i := IndexOf(s, x);
    assert (s + t)[i] == x;
  }

  // ---------------------------------------------------------------------------
  // reduce((sum, x) => sum + f(x), 0)
  // ---------------------------------------------------------------------------

  /** A left fold of exact sums, in the order reduce visits the elements. */
  function SumOf<T>(s: seq<T>, f: T -> real): real
  {
    if s == [] then 0.0 else SumOf(s[..|s| - 1], f) + f(s[|s| - 1])
  }

  /** The sum of a concatenation is the sum of the parts. */
  lemma {:induction false} SumOfConcat<T>(a: seq<T>, b: seq<T>, f: T -> real)
    ensures SumOf(a + b, f) == SumOf(a, f) + SumOf(b, f)
    decreases |b|
  {
    if b != [] {
      assert (a + b)[..|a + b| - 1] == a + b[..|b| - 1];
      SumOfConcat(a, b[..|b| - 1], f);
    } else {
      assert a + b == a;
    }
  }

  /** Summing from the front gives the same value as reduce's left fold. */
  lemma SumOfFront<T>(s: seq<T>, f: T -> real)
    requires s != []
    ensures SumOf(s, f) == f(s[0]) + SumOf(s[1..], f)
  {
    assert s == [s[0]] + s[1..];
    SumOfConcat([s[0]], s[1..], f);
    assert [s[0]][..0] == [];
  }

  /** Non-negative terms give a non-negative sum. */
  lemma {:induction false} SumOfNonNegative<T>(s: seq<T>, f: T -> real)
    requires forall i :: 0 <= i < |s| ==> f(s[i]) >= 0.0
    ensures SumOf(s, f) >= 0.0
  {
    if s != [] {
      SumOfNonNegative(s[..|s| - 1], f);
    }
  }

  /** Adding an element in front adds its term. */
  lemma SumOfCons<T>(h: T, s: seq<T>, f: T -> real)
    ensures SumOf([h] + s, f) == f(h) + SumOf(s, f)
  {
    SumOfFront([h] + s, f);
    assert ([h] + s)[1..] == s;
  }

  /** When q holds exactly where p fails, the sum splits between the two
      filters. */
  lemma {:induction false} SumOfSplit<T>(s: seq<T>, f: T -> real, p: T -> bool, q: T -> bool)
    requires forall i :: 0 <= i < |s| ==> q(s[i]) == !p(s[i])
    ensures SumOf(s, f) == SumOf(Filter(s, p), f) + SumOf(Filter(s, q), f)
  {
    if s != [] {
      var h, t := s[0], s[1..];
      assert forall i :: 1 <= i < |s| ==> t[i - 1] == s[i];
      SumOfSplit(t, f, p, q);
      assert s == [h] + t;
      SumOfCons(h, t, f);
      assert q(h) == !p(h);
      if p(h) {
        assert Filter(s, p) == [h] + Filter(t, p);
        assert Filter(s, q) == Filter(t, q);
        SumOfCons(h, Filter(t, p), f);
      } else {
        assert Filter(s, q) == [h] + Filter(t, q);
        assert Filter(s, p) == Filter(t, p);
        SumOfCons(h, Filter(t, q), f);
      }
    }
  }

  /** The integer version of SumOf, for counts. */
  function CountOf<T>(s: seq<T>, f: T -> int): int
  {
    if s == [] then 0 else CountOf(s[..|s| - 1], f) + f(s[|s| - 1])
  }

  lemma {:induction false} CountOfConcat<T>(a: seq<T>, b: seq<T>, f: T -> int)
    ensures CountOf(a + b, f) == CountOf(a, f) + CountOf(b, f)
    decreases |b|
  {
    if b != [] {
      assert (a + b)[..|a + b| - 1] == a + b[..|b| - 1];
      CountOfConcat(a, b[..|b| - 1], f);
    } else {
      assert a + b == a;
    }
  }
}
