/**
  Shared vocabulary of the curve-analysis model: optional values, the
  arithmetic helpers every analyzer uses (absolute value, minimum and
  maximum of a trace, integer sums), ordering predicates on index lists,
  and the collaborators that the model leaves uninterpreted.
 */
module Common {

  datatype Option<+T> = None | Some(value: T)

  /** The collaborators whose behaviour is not modelled: Python's float()
      on a string, the numeric-pair regular expression scan used as a last
      resort by the voltammetry parser, numpy's degree-1 polyfit and log10. */
  datatype Env = Env(
    parseFloat: string -> Option<real>,
    numericPairs: string -> seq<(real, real)>,
    polyfit: (seq<real>, seq<real>) -> (real, real),
    log10: real -> real
  )

  function Abs(x: real): (r: real)
    ensures r >= 0.0
    ensures r == x || r == -x
  {
    if x < 0.0 then -x else x
  }

  function MaxInt(a: int, b: int): int { if a < b then b else a }

  function MaxReal(a: real, b: real): real { if a < b then b else a }

  /** Python's min() over a non-empty list. */
  function SeqMin(s: seq<real>): (m: real)
    requires |s| > 0
    ensures m in s
    ensures forall i :: 0 <= i < |s| ==> m <= s[i]
  {
    if |s| == 1 then s[0]
    else
      var rest := SeqMin(s[1..]);
      if s[0] <= rest then s[0] else rest
  }

  /** Python's max() over a non-empty list. */
  function SeqMax(s: seq<real>): (m: real)
    requires |s| > 0
    ensures m in s
    ensures forall i :: 0 <= i < |s| ==> s[i] <= m
  {
    if |s| == 1 then s[0]
    else
      var rest := SeqMax(s[1..]);
      if s[0] >= rest then s[0] else rest
  }

  function Sum(s: seq<int>): int
  {
    if s == [] then 0 else s[0] + Sum(s[1..])
  }

  lemma {:induction false} SumAppend(s: seq<int>, x: int)
    ensures Sum(s + [x]) == Sum(s) + x
  {
    if s == [] {
      assert s + [x] == [x];
    } else {
      assert (s + [x])[1..] == s[1..] + [x];
      SumAppend(s[1..], x);
    }
  }

  /** Sum of a list whose elements lie in [lo, hi] lies in [|s|*lo, |s|*hi]. */
  lemma {:induction false} SumBounds(s: seq<int>, lo: int, hi: int)
    requires forall i :: 0 <= i < |s| ==> lo <= s[i] <= hi
    ensures |s| * lo <= Sum(s) <= |s| * hi
  {
    if s != [] {
      SumBounds(s[1..], lo, hi);
      assert |s| * lo == lo + (|s| - 1) * lo;
      assert |s| * hi == hi + (|s| - 1) * hi;
    }
  }

  /** For a positive divisor, Dafny's division agrees with Python's floor
      division, and the average of a list lies between its bounds. */
  lemma AverageBounds(total: int, count: int, lo: int, hi: int)
    requires count > 0
    requires count * lo <= total <= count * hi
    ensures lo <= total / count <= hi
  {
    var q := total / count;
    var r := total % count;
    assert total == count * q + r && 0 <= r < count;
    if q < lo {
      assert q + 1 <= lo;
      assert count * (q + 1) <= count * lo by {
        MulMonotone(count, q + 1, lo);
      }
      assert false;
    }
    if q > hi {
      assert hi + 1 <= q;
      assert count * (hi + 1) <= count * q by {
        MulMonotone(count, hi + 1, q);
      }
      assert false;
    }
  }

  lemma MulMonotone(c: int, a: int, b: int)
    requires c > 0 && a <= b
    ensures c * a <= c * b
  {
  }

  predicate StrictlyIncreasing(s: seq<int>)
  {
    forall i, j :: 0 <= i < j < |s| ==> s[i] < s[j]
  }

  predicate InRange(s: seq<int>, n: int)
  {
    forall i :: 0 <= i < |s| ==> 0 <= s[i] < n
  }

  lemma InRangeAppend(a: seq<int>, b: seq<int>, n: int)
    requires InRange(a, n) && InRange(b, n)
    ensures InRange(a + b, n)
  {
    assert forall i :: |a| <= i < |a + b| ==> (a + b)[i] == b[i - |a|];
  }

  /** a is obtained from b by deleting elements, keeping their order. */
  predicate IsSubsequence<T(==)>(a: seq<T>, b: seq<T>)
    decreases |b|
  {
    if a == [] then true
    else if b == [] then false
    else if a[0] == b[0] then IsSubsequence(a[1..], b[1..])
    else IsSubsequence(a, b[1..])
  }

  lemma {:induction false} SubsequenceOfSelf<T>(b: seq<T>)
    ensures IsSubsequence(b, b)
  {
    if b != [] {
      SubsequenceOfSelf(b[1..]);
    }
  }

  lemma {:induction false} SubsequenceMembers<T>(a: seq<T>, b: seq<T>)
    requires IsSubsequence(a, b)
    ensures forall x :: x in a ==> x in b
    decreases |b|
  {
    if a != [] && b != [] {
      assert a == [a[0]] + a[1..] && b == [b[0]] + b[1..];
      if a[0] == b[0] {
        SubsequenceMembers(a[1..], b[1..]);
      } else {
        SubsequenceMembers(a, b[1..]);
      }
    }
  }

  /** Putting an element in front of b keeps a a subsequence of it. */
  lemma {:induction false} SubsequenceCons<T>(a: seq<T>, x: T, b: seq<T>)
    requires IsSubsequence(a, b)
    ensures IsSubsequence(a, [x] + b)
    decreases |b|, 1
  {
    assert ([x] + b)[1..] == b;
    if a != [] && a[0] == x {
      SubsequenceTail(a, b);
    }
  }

  /** A subsequence of b, with its head removed, is still a subsequence of b. */
  lemma {:induction false} SubsequenceTail<T>(a: seq<T>, b: seq<T>)
    requires a != [] && IsSubsequence(a, b)
    ensures IsSubsequence(a[1..], b)
    decreases |b|, 0
  {
    if a[0] == b[0] {
      if a[1..] != [] {
        SubsequenceCons(a[1..], b[0], b[1..]);
      }
    } else {
      SubsequenceTail(a, b[1..]);
      if a[1..] != [] {
        SubsequenceCons(a[1..], b[0], b[1..]);
      }
    }
  }

  /** The defined results of f over s, in order (a filter-map). */
  function Collect<A, B>(f: A -> Option<B>, s: seq<A>): seq<B>
  {
    if s == [] then []
    else (match f(s[0]) case None => [] case Some(x) => [x]) + Collect(f, s[1..])
  }

  lemma {:induction false} CollectAppend<A, B>(f: A -> Option<B>, a: seq<A>, b: seq<A>)
    ensures Collect(f, a + b) == Collect(f, a) + Collect(f, b)
  {
    if a == [] {
      assert a + b == b;
    } else {
      assert (a + b)[1..] == a[1..] + b;
      CollectAppend(f, a[1..], b);
    }
  }

  lemma CollectOne<A, B>(f: A -> Option<B>, x: A)
    ensures Collect(f, [x]) == (match f(x) case None => [] case Some(y) => [y])
  {
    assert [x][1..] == [];
  }

  lemma CollectCons<A, B>(f: A -> Option<B>, x: A, rest: seq<A>)
    ensures Collect(f, [x] + rest) == (match f(x) case None => [] case Some(y) => [y]) + Collect(f, rest)
  {
    assert ([x] + rest)[1..] == rest;
  }

  lemma {:induction false} CollectMembers<A, B>(f: A -> Option<B>, s: seq<A>, y: B)
    ensures y in Collect(f, s) <==> exists j :: 0 <= j < |s| && f(s[j]) == Some(y)
  {
    if s != [] {
      CollectMembers(f, s[1..], y);
      assert forall j :: 1 <= j < |s| ==> s[j] == s[1..][j - 1];
      if y in Collect(f, s[1..]) {
        var j :| 0 <= j < |s[1..]| && f(s[1..][j]) == Some(y);
        assert s[j + 1] == s[1..][j];
      }
    }
  }

  /** When f is defined on every element, the filter-map keeps them all. */
  lemma {:induction false} CollectTotal<A, B>(f: A -> Option<B>, s: seq<A>)
    requires forall k :: 0 <= k < |s| ==> f(s[k]).Some?
    ensures |Collect(f, s)| == |s|
    ensures forall k :: 0 <= k < |s| ==> Collect(f, s)[k] == f(s[k]).value
  {
    if s != [] {
      assert forall k :: 1 <= k < |s| ==> s[1..][k - 1] == s[k];
      CollectTotal(f, s[1..]);
      assert Collect(f, s) == [f(s[0]).value] + Collect(f, s[1..]);
    }
  }

  /** One step of a filter-map loop over s: the accumulator for s[..i]
      extended by the outcome y of element i. */
  function CollectStep<A, B>(f: A -> Option<B>, s: seq<A>, i: nat, acc: seq<B>, y: Option<B>): (r: seq<B>)
    requires i < |s| && acc == Collect(f, s[..i]) && y == f(s[i])
    ensures r == Collect(f, s[..i + 1])
  {
    CollectAppend(f, s[..i], [s[i]]);
    CollectOne(f, s[i]);
    assert s[..i + 1] == s[..i] + [s[i]];
    if y.Some? then acc + [y.value] else acc
  }

  /** f applied to every element of s, in order. */
  function Map<A, B>(f: A -> B, s: seq<A>): (r: seq<B>)
    ensures |r| == |s| && forall k :: 0 <= k < |s| ==> r[k] == f(s[k])
  {
    seq(|s|, k requires 0 <= k < |s| => f(s[k]))
  }

  /** One step of a map loop over s: the accumulator for s[..i] extended by
      the image y of element i. */
  function MapStep<A, B>(f: A -> B, s: seq<A>, i: nat, acc: seq<B>, y: B): (r: seq<B>)
    requires i < |s| && acc == Map(f, s[..i]) && y == f(s[i])
    ensures r == Map(f, s[..i + 1])
  {
    acc + [y]
  }
}
