/** Column operations over a sequence of records: the size of a boolean
    selection, the selection itself, sums, means and extremes. Every report
    of the season summary is built from these. */
module Tally {
  import opened Options

  /** Number of elements that satisfy `p` (the length of a boolean selection). */
  function Count<T>(s: seq<T>, p: T -> bool): (r: nat)
    ensures r <= |s|
  {
    if |s| == 0 then 0 else (if p(s[0]) then 1 else 0) + Count(s[1..], p)
  }

  /** The elements that satisfy `p`, in their original order. */
  function Filter<T(!new)>(s: seq<T>, p: T -> bool): (r: seq<T>)
    ensures |r| == Count(s, p)
    ensures forall i :: 0 <= i < |r| ==> p(r[i])
    ensures forall x :: multiset(r)[x] == if p(x) then multiset(s)[x] else 0
  {
    if |s| == 0 then []
    else
      assert s == [s[0]] + s[1..];
      (if p(s[0]) then [s[0]] else []) + Filter(s[1..], p)
  }

  /** Sum of a column. */
  function Sum<T>(s: seq<T>, f: T -> int): int
  {
    if |s| == 0 then 0 else f(s[0]) + Sum(s[1..], f)
  }

  /** Mean of a column, undefined over an empty selection. */
  function Mean<T>(s: seq<T>, f: T -> int): (r: Option<real>)
    ensures r.Some? <==> |s| > 0
    ensures r.Some? ==> r.value * (|s| as real) == Sum(s, f) as real
  {
    if |s| == 0 then None else Some(Sum(s, f) as real / |s| as real)
  }

  /** Largest value of a column over a non-empty selection. */
  function Max<T>(s: seq<T>, f: T -> int): (r: int)
    requires |s| > 0
    ensures forall i :: 0 <= i < |s| ==> f(s[i]) <= r
    ensures exists i :: 0 <= i < |s| && f(s[i]) == r
  {
    if |s| == 1 then f(s[0])
    else
      var m := Max(s[1..], f);
      assert forall i :: 1 <= i < |s| ==> s[i] == s[1..][i - 1];
      if f(s[0]) >= m then f(s[0]) else m
  }

  /** Smallest value of a column over a non-empty selection. */
  function Min<T>(s: seq<T>, f: T -> int): (r: int)
    requires |s| > 0
    ensures forall i :: 0 <= i < |s| ==> r <= f(s[i])
    ensures exists i :: 0 <= i < |s| && f(s[i]) == r
  {
    if |s| == 1 then f(s[0])
    else
      var m := Min(s[1..], f);
      assert forall i :: 1 <= i < |s| ==> s[i] == s[1..][i - 1];
      if f(s[0]) <= m then f(s[0]) else m
  }

  /** `Max`, undefined over an empty selection. */
  function MaxOpt<T>(s: seq<T>, f: T -> int): (r: Option<int>)
    ensures r.Some? <==> |s| > 0
    ensures r.Some? ==> forall i :: 0 <= i < |s| ==> f(s[i]) <= r.value
    ensures r.Some? ==> exists i :: 0 <= i < |s| && f(s[i]) == r.value
  {
    if |s| == 0 then None else Some(Max(s, f))
  }

  /** `Min`, undefined over an empty selection. */
  function MinOpt<T>(s: seq<T>, f: T -> int): (r: Option<int>)
    ensures r.Some? <==> |s| > 0
    ensures r.Some? ==> forall i :: 0 <= i < |s| ==> r.value <= f(s[i])
    ensures r.Some? ==> exists i :: 0 <= i < |s| && f(s[i]) == r.value
  {
    if |s| == 0 then None else Some(Min(s, f))
  }

  /** Sum over the keys `0 .. k-1` of the number of elements whose key is
      exactly that value: the total of a row of exact-value buckets. */
  function BucketTotal<T>(s: seq<T>, key: T -> nat, k: nat): nat
  {
    if k == 0 then 0 else BucketTotal(s, key, k - 1) + Count(s, KeyIs(key, k - 1))
  }

  /** The elements whose key is exactly `b`. */
  function KeyIs<T>(key: T -> nat, b: nat): T -> bool
  {
    x => key(x) == b
  }

  /** The elements whose key is below `k`. */
  function KeyBelow<T>(key: T -> nat, k: nat): T -> bool
  {
    x => key(x) < k
  }

  // ---------------------------------------------------------------------
  // Lemmas

  /** Counting under two predicates that agree everywhere gives the same number. */
  lemma {:induction false} CountExt<T>(s: seq<T>, p: T -> bool, q: T -> bool)
    requires forall x :: x in s ==> p(x) == q(x)
    ensures Count(s, p) == Count(s, q)
  {
    if |s| > 0 {
      CountExt(s[1..], p, q);
    }
  }

  /** A selection that nothing satisfies is empty. */
  lemma {:induction false} CountNone<T>(s: seq<T>, p: T -> bool)
    requires forall x :: !p(x)
    ensures Count(s, p) == 0
  {
    if |s| > 0 {
      CountNone(s[1..], p);
    }
  }

  /** A weaker selection never selects more. */
  lemma {:induction false} CountMono<T>(s: seq<T>, p: T -> bool, q: T -> bool)
    requires forall x :: p(x) ==> q(x)
    ensures Count(s, p) <= Count(s, q)
  {
    if |s| > 0 {
      CountMono(s[1..], p, q);
    }
  }

  /** Two disjoint selections together count their union. */
  lemma {:induction false} CountUnion<T>(s: seq<T>, p: T -> bool, q: T -> bool, pq: T -> bool)
    requires forall x :: x in s ==> !(p(x) && q(x))
    requires forall x :: x in s ==> pq(x) == (p(x) || q(x))
    ensures Count(s, pq) == Count(s, p) + Count(s, q)
  {
    if |s| > 0 {
      CountUnion(s[1..], p, q, pq);
    }
  }

  /** A selection and its complement count every element once. */
  lemma {:induction false} CountComplement<T>(s: seq<T>, p: T -> bool, np: T -> bool)
    requires forall x :: np(x) == !p(x)
    ensures Count(s, p) + Count(s, np) == |s|
  {
    if |s| > 0 {
      CountComplement(s[1..], p, np);
    }
  }

  /** Three pairwise exclusive, jointly exhaustive selections partition `s`. */
  lemma {:induction false} CountTrichotomy<T>(s: seq<T>, p: T -> bool, q: T -> bool, r: T -> bool)
    requires forall x :: (p(x) || q(x) || r(x))
    requires forall x :: !(p(x) && q(x)) && !(p(x) && r(x)) && !(q(x) && r(x))
    ensures Count(s, p) + Count(s, q) + Count(s, r) == |s|
  {
    if |s| > 0 {
      CountTrichotomy(s[1..], p, q, r);
    }
  }

  /** Counting inside a selection is counting the conjunction over the whole. */
  lemma {:induction false} CountFilter<T(!new)>(s: seq<T>, q: T -> bool, p: T -> bool, qp: T -> bool)
    requires forall x :: qp(x) == (q(x) && p(x))
    ensures Count(Filter(s, q), p) == Count(s, qp)
  {
    if |s| > 0 {
      CountFilter(s[1..], q, p, qp);
      if q(s[0]) {
        assert Filter(s, q) == [s[0]] + Filter(s[1..], q);
      } else {
        assert Filter(s, q) == Filter(s[1..], q);
      }
    }
  }

  /** Selecting from a concatenation selects from each part, in order. */
  lemma {:induction false} FilterAppend<T(!new)>(s: seq<T>, t: seq<T>, p: T -> bool)
    ensures Filter(s + t, p) == Filter(s, p) + Filter(t, p)
  {
    if |s| > 0 {
      assert (s + t)[1..] == s[1..] + t;
      FilterAppend(s[1..], t, p);
    } else {
      assert s + t == t;
    }
  }

  /** A selection every element satisfies keeps the whole sequence. */
  lemma {:induction false} FilterKeepsAll<T(!new)>(s: seq<T>, p: T -> bool)
    requires forall i :: 0 <= i < |s| ==> p(s[i])
    ensures Filter(s, p) == s
  {
    if |s| > 0 {
      FilterKeepsAll(s[1..], p);
      assert s == [s[0]] + s[1..];
    }
  }

  /** A selection every element satisfies counts everything. */
  lemma {:induction false} CountAll<T>(s: seq<T>, p: T -> bool)
    requires forall i :: 0 <= i < |s| ==> p(s[i])
    ensures Count(s, p) == |s|
  {
    if |s| > 0 {
      CountAll(s[1..], p);
    }
  }

  /** Summing inside a selection is summing the column zeroed outside it. */
  lemma {:induction false} SumFilter<T(!new)>(s: seq<T>, q: T -> bool, f: T -> int, g: T -> int)
    requires forall x :: g(x) == (if q(x) then f(x) else 0)
    ensures Sum(Filter(s, q), f) == Sum(s, g)
  {
    if |s| > 0 {
      SumFilter(s[1..], q, f, g);
      if q(s[0]) {
        assert Filter(s, q) == [s[0]] + Filter(s[1..], q);
      } else {
        assert Filter(s, q) == Filter(s[1..], q);
      }
    }
  }

  /** A sum of two columns sums to the sum of the column sums. */
  lemma {:induction false} SumAdd<T>(s: seq<T>, f: T -> int, g: T -> int, h: T -> int)
    requires forall x :: x in s ==> h(x) == f(x) + g(x)
    ensures Sum(s, h) == Sum(s, f) + Sum(s, g)
  {
    if |s| > 0 {
      SumAdd(s[1..], f, g, h);
    }
  }

  /** Summing a concatenation sums each part. */
  lemma {:induction false} SumAppend<T>(s: seq<T>, t: seq<T>, f: T -> int)
    ensures Sum(s + t, f) == Sum(s, f) + Sum(t, f)
  {
    if |s| > 0 {
      assert (s + t)[1..] == s[1..] + t;
      SumAppend(s[1..], t, f);
    } else {
      assert s + t == t;
    }
  }

  /** A difference of two columns sums to the difference of the column sums. */
  lemma {:induction false} SumSub<T>(s: seq<T>, f: T -> int, g: T -> int, h: T -> int)
    requires forall x :: h(x) == f(x) - g(x)
    ensures Sum(s, h) == Sum(s, f) - Sum(s, g)
  {
    if |s| > 0 {
      SumSub(s[1..], f, g, h);
    }
  }

  /** Summing a column that is `c` on a selection and zero elsewhere is `c`
      times the size of the selection. */
  lemma {:induction false} SumIndicator<T>(s: seq<T>, p: T -> bool, c: int, f: T -> int)
    requires forall x :: f(x) == (if p(x) then c else 0)
    ensures Sum(s, f) == c * Count(s, p)
  {
    if |s| > 0 {
      SumIndicator(s[1..], p, c, f);
    }
  }

  /** The exact-value buckets `0 .. k-1` together count the elements whose
      key is below `k`. */
  lemma {:induction false} BucketTotalIsCount<T>(s: seq<T>, key: T -> nat, k: nat)
    ensures BucketTotal(s, key, k) == Count(s, KeyBelow(key, k))
  {
    if k == 0 {
      CountNone(s, KeyBelow(key, k));
    } else {
      BucketTotalIsCount(s, key, k - 1);
      CountUnion(s, KeyBelow(key, k - 1), KeyIs(key, k - 1), KeyBelow(key, k));
    }
  }

  /** Two values with the same product by a non-zero factor are equal. */
  lemma CancelMul(x: real, y: real, z: real)
    requires z != 0.0 && x * z == y * z
    ensures x == y
  {
  }
}
