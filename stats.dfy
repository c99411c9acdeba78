/**
 * Sequence statistics used by the pipeline: sums and means over reals,
 * dropping missing values (what pandas' `mean` and `notna` do), and
 * counting / filtering by a predicate (what a boolean mask and `.sum()` do).
 * Floats are modelled as exact reals.
 */
module Stats {
  import opened Opt

  function Sum(xs: seq<real>): real
  {
    if xs == [] then 0.0 else xs[0] + Sum(xs[1..])
  }

  /** Arithmetic mean; None stands for the NaN pandas returns on no data. */
  function Mean(xs: seq<real>): (r: Option<real>)
    ensures r.None? <==> xs == []
  {
    if xs == [] then None else Some(Sum(xs) / (|xs| as real))
  }

  lemma {:induction false} SumBetween(xs: seq<real>, lo: real, hi: real)
    requires forall i :: 0 <= i < |xs| ==> lo <= xs[i] <= hi
    ensures (|xs| as real) * lo <= Sum(xs) <= (|xs| as real) * hi
  {
    if xs != [] {
      SumBetween(xs[1..], lo, hi);
    }
  }

  /** The mean of values that all lie in [lo, hi] lies in [lo, hi]. */
  lemma {:induction false} MeanBetween(xs: seq<real>, lo: real, hi: real)
    requires xs != []
    requires forall i :: 0 <= i < |xs| ==> lo <= xs[i] <= hi
    ensures Mean(xs).Some? && lo <= Mean(xs).value <= hi
  {
    SumBetween(xs, lo, hi);
    var n := |xs| as real;
    var s := Sum(xs);
    assert s / n * n == s;
    assert lo * n <= s / n * n <= hi * n;
  }

  /** The present values of a column, in order: `dropna()`. */
  function PresentValues(xs: seq<Option<real>>): (vs: seq<real>)
    ensures |vs| <= |xs|
    ensures vs == [] <==> forall i :: 0 <= i < |xs| ==> xs[i].None?
    ensures |vs| == |xs| <==> forall i :: 0 <= i < |xs| ==> xs[i].Some?
    ensures forall v :: v in vs <==> Some(v) in xs
  {
    if xs == [] then []
    else
      var rest := PresentValues(xs[1..]);
      assert forall v :: Some(v) in xs <==> Some(v) == xs[0] || Some(v) in xs[1..];
      match xs[0]
      case None => rest
      case Some(v) => [v] + rest
  }

  /** Each present value is kept as many times as it occurs. */
  lemma {:induction false} PresentValuesMultiset(xs: seq<Option<real>>)
    ensures forall v :: multiset(PresentValues(xs))[v] == multiset(xs)[Some(v)]
  {
    if xs != [] {
      var rest := xs[1..];
      PresentValuesMultiset(rest);
      assert xs == [xs[0]] + rest;
      assert multiset(xs) == multiset{xs[0]} + multiset(rest);
      match xs[0] {
        case None =>
          assert PresentValues(xs) == PresentValues(rest);
        case Some(v) =>
          assert PresentValues(xs) == [v] + PresentValues(rest);
          assert multiset(PresentValues(xs)) == multiset{v} + multiset(PresentValues(rest));
      }
    }
  }

  /** The mean of the present values lies between bounds that hold for every present value. */
  lemma {:induction false} PresentMeanBetween(xs: seq<Option<real>>, lo: real, hi: real)
    requires exists i :: 0 <= i < |xs| && xs[i].Some?
    requires forall i :: 0 <= i < |xs| && xs[i].Some? ==> lo <= xs[i].value <= hi
    ensures Mean(PresentValues(xs)).Some?
    ensures lo <= Mean(PresentValues(xs)).value <= hi
  {
    var vs := PresentValues(xs);
    forall i | 0 <= i < |vs| ensures lo <= vs[i] <= hi {
      assert vs[i] in vs;
      var j :| 0 <= j < |xs| && xs[j] == Some(vs[i]);
    }
    MeanBetween(vs, lo, hi);
  }

  /** How many elements satisfy p: `mask.sum()`. */
  function CountWhere<T>(s: seq<T>, p: T -> bool): (n: nat)
    ensures n <= |s|
    ensures n == 0 <==> forall i :: 0 <= i < |s| ==> !p(s[i])
    ensures n == |s| <==> forall i :: 0 <= i < |s| ==> p(s[i])
  {
    if s == [] then 0
    else
      var rest := CountWhere(s[1..], p);
      assert forall i :: 1 <= i < |s| ==> s[i] == s[1..][i - 1];
      (if p(s[0]) then 1 else 0) + rest
  }

  /** The elements that satisfy p, in their original order: `df[mask]`. */
  function Filter<T(==)>(s: seq<T>, p: T -> bool): (r: seq<T>)
    ensures |r| == CountWhere(s, p)
    ensures forall i :: 0 <= i < |r| ==> p(r[i])
    ensures forall i :: 0 <= i < |r| ==> r[i] in s
    ensures forall i :: 0 <= i < |s| && p(s[i]) ==> s[i] in r
  {
    if s == [] then []
    else
      var rest := Filter(s[1..], p);
      assert forall i :: 1 <= i < |s| ==> s[i] == s[1..][i - 1];
      if p(s[0]) then [s[0]] + rest else rest
  }

  /** A mask keeps each matching element as many times as it occurs, and no other element. */
  lemma {:induction false} FilterMultiset<T>(s: seq<T>, p: T -> bool)
    ensures forall x :: multiset(Filter(s, p))[x] == if p(x) then multiset(s)[x] else 0
  {
    if s != [] {
      FilterMultiset(s[1..], p);
      assert s == [s[0]] + s[1..];
    }
  }

  /** A mask that keeps everything keeps the frame as it is. */
  lemma {:induction false} FilterAll<T>(s: seq<T>, p: T -> bool)
    requires forall i :: 0 <= i < |s| ==> p(s[i])
    ensures Filter(s, p) == s
  {
    if s != [] {
      FilterAll(s[1..], p);
    }
  }

  /** Counting p inside the rows kept by q is counting p overall, when p implies q. */
  lemma {:induction false} CountWhereFilter<T>(s: seq<T>, q: T -> bool, p: T -> bool)
    requires forall x :: p(x) ==> q(x)
    ensures CountWhere(Filter(s, q), p) == CountWhere(s, p)
  {
    if s != [] {
      CountWhereFilter(s[1..], q, p);
      if q(s[0]) {
        assert ([s[0]] + Filter(s[1..], q))[1..] == Filter(s[1..], q);
      }
    }
  }

  /** A weaker predicate never counts fewer elements. */
  lemma {:induction false} CountWhereMonotone<T>(s: seq<T>, p: T -> bool, q: T -> bool)
    requires forall x :: p(x) ==> q(x)
    ensures CountWhere(s, p) <= CountWhere(s, q)
  {
    if s != [] {
      CountWhereMonotone(s[1..], p, q);
    }
  }
}
