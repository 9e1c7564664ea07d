/** The array operations the pages use (`filter`, `reduce` with `+`,
    `slice(0, n)`, `reverse`), as functions on sequences. */
module Seqs {

  /** `s.filter(p)`: the elements satisfying `p`, in their original order. */
  function Filter<T(!new)>(s: seq<T>, p: T -> bool): (r: seq<T>)
    ensures |r| <= |s|
    ensures forall x :: x in r <==> x in s && p(x)
    ensures forall i :: 0 <= i < |r| ==> p(r[i])
  {
    if s == [] then [] else (if p(s[0]) then [s[0]] else []) + Filter(s[1..], p)
  }

  /** The positions in `s` of the elements the filter keeps. */
  function Kept<T(!new)>(s: seq<T>, p: T -> bool): seq<nat>
  {
    if s == [] then []
    else
      var shifted := Shift(Kept(s[1..], p));
      if p(s[0]) then [0] + shifted else shifted
  }

  function Shift(ks: seq<nat>): (r: seq<nat>)
    ensures |r| == |ks| && forall i :: 0 <= i < |ks| ==> r[i] == ks[i] + 1
  {
    seq(|ks|, i requires 0 <= i < |ks| => ks[i] + 1)
  }

  /** `filter` keeps its input's order: the kept elements are the input's
      elements at strictly increasing positions. */
  lemma {:induction false} KeptPositions<T(!new)>(s: seq<T>, p: T -> bool)
    ensures |Kept(s, p)| == |Filter(s, p)|
    ensures forall i :: 0 <= i < |Kept(s, p)| ==> Kept(s, p)[i] < |s| && Filter(s, p)[i] == s[Kept(s, p)[i]]
    ensures forall i, j :: 0 <= i < j < |Kept(s, p)| ==> Kept(s, p)[i] < Kept(s, p)[j]
  {
    if s != [] {
      KeptPositions(s[1..], p);
      var rest, tail := Filter(s[1..], p), Kept(s[1..], p);
      var shifted := Shift(tail);
      forall i | 0 <= i < |tail|
        ensures shifted[i] < |s| && rest[i] == s[shifted[i]]
      {
        assert s[1..][tail[i]] == s[tail[i] + 1];
      }
      if p(s[0]) {
        assert Filter(s, p) == [s[0]] + rest;
        assert Kept(s, p) == [0] + shifted;
        ConsPositions(s, rest, shifted);
      } else {
        assert Filter(s, p) == rest;
        assert Kept(s, p) == shifted;
      }
    }
  }

  /** Putting a head in front keeps positions exact and increasing. */
  lemma ConsPositions<T>(s: seq<T>, rest: seq<T>, shifted: seq<nat>)
    requires s != [] && |shifted| == |rest|
    requires forall i :: 0 <= i < |shifted| ==> 0 < shifted[i] < |s| && rest[i] == s[shifted[i]]
    requires forall i, j :: 0 <= i < j < |shifted| ==> shifted[i] < shifted[j]
    ensures forall i :: 0 <= i < |shifted| + 1 ==> ([0] + shifted)[i] < |s| && ([s[0]] + rest)[i] == s[([0] + shifted)[i]]
    ensures forall i, j :: 0 <= i < j < |shifted| + 1 ==> ([0] + shifted)[i] < ([0] + shifted)[j]
  {
    var f, k := [s[0]] + rest, [0] + shifted;
    forall i | 0 <= i < |k|
      ensures k[i] < |s| && f[i] == s[k[i]]
    {
      if i > 0 {
        assert k[i] == shifted[i - 1] && f[i] == rest[i - 1];
      }
    }
    forall i, j | 0 <= i < j < |k|
      ensures k[i] < k[j]
    {
      assert k[j] == shifted[j - 1];
      if i > 0 {
        assert k[i] == shifted[i - 1];
      }
    }
  }

  lemma AppendAssoc<T>(a: seq<T>, b: seq<T>, c: seq<T>)
    ensures (a + b) + c == a + (b + c)
  {
  }

  lemma {:induction false} FilterAppend<T(!new)>(a: seq<T>, b: seq<T>, p: T -> bool)
    ensures Filter(a + b, p) == Filter(a, p) + Filter(b, p)
  {
    if a == [] {
      assert a + b == b;
    } else {
      assert (a + b)[1..] == a[1..] + b;
      FilterAppend(a[1..], b, p);
    }
  }

  /** A filter every element passes keeps the whole sequence. */
  lemma {:induction false} FilterKeepsAll<T(!new)>(s: seq<T>, p: T -> bool)
    ensures (forall i :: 0 <= i < |s| ==> p(s[i])) ==> Filter(s, p) == s
  {
    if s != [] {
      FilterKeepsAll(s[1..], p);
    }
  }

  /** A filter keeps every element exactly when every element passes it. */
  lemma {:induction false} FilterFull<T(!new)>(s: seq<T>, p: T -> bool)
    ensures |Filter(s, p)| == |s| <==> forall i :: 0 <= i < |s| ==> p(s[i])
  {
    if s != [] {
      FilterFull(s[1..], p);
      if !p(s[0]) {
        assert |Filter(s, p)| == |Filter(s[1..], p)|;
      } else if forall i :: 0 <= i < |s| - 1 ==> p(s[1..][i]) {
        assert forall i :: 0 <= i < |s| ==> p(s[i]) by {
          forall i | 0 < i < |s| ensures p(s[i]) {
            assert s[i] == s[1..][i - 1];
          }
        }
      }
    }
  }

  /** Filtering by `u` and then by a stricter `p` is filtering by `p`. */
  lemma FilterFilter<T(!new)>(s: seq<T>, u: T -> bool, p: T -> bool)
    requires forall x :: p(x) ==> u(x)
    ensures Filter(Filter(s, u), p) == Filter(s, p)
  {
    FilterFilterBoth(s, u, p, p);
  }

  /** Filtering by `u` and then by `q` keeps what passes both. */
  lemma {:induction false} FilterFilterBoth<T(!new)>(s: seq<T>, u: T -> bool, q: T -> bool, both: T -> bool)
    requires forall x :: both(x) == (u(x) && q(x))
    ensures Filter(Filter(s, u), q) == Filter(s, both)
  {
    if s != [] {
      FilterFilterBoth(s[1..], u, q, both);
      var head := if u(s[0]) then [s[0]] else [];
      FilterAppend(head, Filter(s[1..], u), q);
      if u(s[0]) {
        assert Filter(head, q) == (if q(s[0]) then [s[0]] else []) + Filter([], q);
      }
    }
  }

  /** A filter nothing passes is empty. */
  lemma {:induction false} FilterNone<T(!new)>(s: seq<T>, p: T -> bool)
    ensures (forall i :: 0 <= i < |s| ==> !p(s[i])) ==> Filter(s, p) == []
  {
    if s != [] {
      FilterNone(s[1..], p);
    }
  }

  /** `s.reduce((acc, x) => acc + f(x), 0)`. */
  function Sum<T>(s: seq<T>, f: T -> int): int
  {
    if s == [] then 0 else f(s[0]) + Sum(s[1..], f)
  }

  lemma {:induction false} SumAppend<T>(a: seq<T>, b: seq<T>, f: T -> int)
    ensures Sum(a + b, f) == Sum(a, f) + Sum(b, f)
  {
    if a == [] {
      assert a + b == b;
    } else {
      assert (a + b)[1..] == a[1..] + b;
      SumAppend(a[1..], b, f);
    }
  }

  /** Summing over the elements that pass a test and over those that fail it
      adds up to the sum over all. */
  lemma {:induction false} SumPartition<T(!new)>(s: seq<T>, f: T -> int, p: T -> bool, q: T -> bool)
    requires forall x :: q(x) == !p(x)
    ensures Sum(s, f) == Sum(Filter(s, p), f) + Sum(Filter(s, q), f)
  {
    if s != [] {
      SumPartition(s[1..], f, p, q);
      var head := if p(s[0]) then [s[0]] else [];
      var headQ := if q(s[0]) then [s[0]] else [];
      SumAppend(head, Filter(s[1..], p), f);
      SumAppend(headQ, Filter(s[1..], q), f);
    }
  }

  /** Summing differences is taking the difference of the sums. */
  lemma {:induction false} SumDifference<T(!new)>(s: seq<T>, f: T -> int, g: T -> int, h: T -> int)
    requires forall x :: h(x) == f(x) - g(x)
    ensures Sum(s, h) == Sum(s, f) - Sum(s, g)
  {
    if s != [] {
      SumDifference(s[1..], f, g, h);
    }
  }

  /** A sum of non-negative terms is non-negative. */
  lemma {:induction false} SumNonNegative<T>(s: seq<T>, f: T -> int)
    ensures (forall i :: 0 <= i < |s| ==> f(s[i]) >= 0) ==> Sum(s, f) >= 0
  {
    if s != [] {
      SumNonNegative(s[1..], f);
    }
  }

  /** `s.filter(y => y !== x)`. */
  function RemoveAll<T(==,!new)>(s: seq<T>, x: T): (r: seq<T>)
    ensures forall y :: y in r <==> y in s && y != x
    ensures |r| <= |s|
  {
    if s == [] then [] else (if s[0] == x then [] else [s[0]]) + RemoveAll(s[1..], x)
  }

  /** Removing an element that was just appended to a sequence without it
      gives the sequence back. */
  lemma {:induction false} RemoveAllAppended<T(!new)>(s: seq<T>, x: T)
    requires x !in s
    ensures RemoveAll(s + [x], x) == s
  {
    if s == [] {
      assert s + [x] == [x];
    } else {
      assert (s + [x])[1..] == s[1..] + [x];
      RemoveAllAppended(s[1..], x);
    }
  }

  /** `s.slice(0, n)`. */
  function Take<T>(s: seq<T>, n: nat): (r: seq<T>)
    ensures |r| == if n < |s| then n else |s|
    ensures forall i :: 0 <= i < |r| ==> r[i] == s[i]
  {
    if n < |s| then s[..n] else s
  }

  /** `s.reverse()`. */
  function Reverse<T(!new)>(s: seq<T>): (r: seq<T>)
    ensures |r| == |s|
    ensures forall i :: 0 <= i < |s| ==> r[i] == s[|s| - 1 - i]
    ensures forall x :: x in r <==> x in s
  {
    if s == [] then [] else Reverse(s[1..]) + [s[0]]
  }
}
