/**
 Finite sums and maps over sequences, and the facts about them the model
 relies on: a sum splits over concatenation, is linear in the summed function,
 and neither a sum nor the multiset of mapped elements depends on the order
 of the elements.
 */
module Seqs {

  /** Sum of `f` over the elements of `s`, left to right. */
  function SumNat<T>(s: seq<T>, f: T -> nat): nat
  {
    if |s| == 0 then 0 else f(s[0]) + SumNat(s[1..], f)
  }

  /** Sum of `f` over the elements of `s`, left to right. */
  function SumReal<T>(s: seq<T>, f: T -> real): real
  {
    if |s| == 0 then 0.0 else f(s[0]) + SumReal(s[1..], f)
  }

  lemma {:induction false} SumNatAppend<T>(s: seq<T>, t: seq<T>, f: T -> nat)
    ensures SumNat(s + t, f) == SumNat(s, f) + SumNat(t, f)
  {
    if |s| == 0 {
      assert s + t == t;
    } else {
      assert (s + t)[1..] == s[1..] + t;
      SumNatAppend(s[1..], t, f);
    }
  }

  lemma {:induction false} SumRealAppend<T>(s: seq<T>, t: seq<T>, f: T -> real)
    ensures SumReal(s + t, f) == SumReal(s, f) + SumReal(t, f)
  {
    if |s| == 0 {
      assert s + t == t;
    } else {
      assert (s + t)[1..] == s[1..] + t;
      SumRealAppend(s[1..], t, f);
    }
  }

  /** Removing the element at `k` takes exactly `f(t[k])` off the sum. */
  lemma {:induction false} SumNatRemove<T>(t: seq<T>, k: nat, f: T -> nat)
    requires k < |t|
    ensures SumNat(t, f) == f(t[k]) + SumNat(t[..k] + t[k + 1..], f)
  {
    var before, after := t[..k], t[k + 1..];
    assert t == before + ([t[k]] + after);
    SumNatAppend(before, [t[k]] + after, f);
    assert ([t[k]] + after)[1..] == after;
    SumNatAppend(before, after, f);
  }

  /** Removing the element at `k` takes exactly `f(t[k])` off the sum. */
  lemma {:induction false} SumRealRemove<T>(t: seq<T>, k: nat, f: T -> real)
    requires k < |t|
    ensures SumReal(t, f) == f(t[k]) + SumReal(t[..k] + t[k + 1..], f)
  {
    var before, after := t[..k], t[k + 1..];
    assert t == before + ([t[k]] + after);
    SumRealAppend(before, [t[k]] + after, f);
    assert ([t[k]] + after)[1..] == after;
    SumRealAppend(before, after, f);
  }

  /** The multiset left after removing the element at `k`. */
  lemma MultisetRemove<T>(t: seq<T>, k: nat)
    requires k < |t|
    ensures multiset(t[..k] + t[k + 1..]) == multiset(t) - multiset{t[k]}
  {
    assert t == t[..k] + [t[k]] + t[k + 1..];
  }

  /** A sum depends only on the multiset of summed elements. */
  lemma {:induction false} SumNatPermutation<T>(s: seq<T>, t: seq<T>, f: T -> nat)
    requires multiset(s) == multiset(t)
    ensures SumNat(s, f) == SumNat(t, f)
  {
    if |s| == 0 {
      assert |t| == |multiset(t)| == 0;
    } else {
      assert s[0] in multiset(t);
      var k :| 0 <= k < |t| && t[k] == s[0];
      MultisetRemove(t, k);
      assert s == [s[0]] + s[1..];
      assert multiset(s[1..]) == multiset(s) - multiset{s[0]};
      SumNatPermutation(s[1..], t[..k] + t[k + 1..], f);
      SumNatRemove(t, k, f);
    }
  }

  /** A sum depends only on the multiset of summed elements. */
  lemma {:induction false} SumRealPermutation<T>(s: seq<T>, t: seq<T>, f: T -> real)
    requires multiset(s) == multiset(t)
    ensures SumReal(s, f) == SumReal(t, f)
  {
    if |s| == 0 {
      assert |t| == |multiset(t)| == 0;
    } else {
      assert s[0] in multiset(t);
      var k :| 0 <= k < |t| && t[k] == s[0];
      MultisetRemove(t, k);
      assert s == [s[0]] + s[1..];
      assert multiset(s[1..]) == multiset(s) - multiset{s[0]};
      SumRealPermutation(s[1..], t[..k] + t[k + 1..], f);
      SumRealRemove(t, k, f);
    }
  }

  /** Sums of two functions that agree on every element of `s` are equal. */
  lemma {:induction false} SumNatCongruence<T>(s: seq<T>, f: T -> nat, g: T -> nat)
    requires forall i :: 0 <= i < |s| ==> f(s[i]) == g(s[i])
    ensures SumNat(s, f) == SumNat(s, g)
  {
    if |s| > 0 {
      assert forall i :: 0 <= i < |s[1..]| ==> s[1..][i] == s[i + 1];
      SumNatCongruence(s[1..], f, g);
    }
  }

  /** Summing a pointwise sum of two functions is summing each. */
  lemma {:induction false} SumNatAdd<T>(s: seq<T>, f: T -> nat, g: T -> nat, h: T -> nat)
    requires forall x :: h(x) == f(x) + g(x)
    ensures SumNat(s, h) == SumNat(s, f) + SumNat(s, g)
  {
    if |s| > 0 {
      SumNatAdd(s[1..], f, g, h);
    }
  }

  /** Summing `f + c * g` is the sum of `f` plus `c` times the sum of `g`. */
  lemma {:induction false} SumRealLinear<T>(s: seq<T>, f: T -> real, g: T -> real, c: real, h: T -> real)
    requires forall x :: h(x) == f(x) + c * g(x)
    ensures SumReal(s, h) == SumReal(s, f) + c * SumReal(s, g)
  {
    if |s| > 0 {
      SumRealLinear(s[1..], f, g, c, h);
    }
  }

  /** `g` applied to every element of `s`, in order. */
  function MapSeq<A, B>(s: seq<A>, g: A -> B): (r: seq<B>)
    ensures |r| == |s| && forall i :: 0 <= i < |s| ==> r[i] == g(s[i])
  {
    if |s| == 0 then [] else [g(s[0])] + MapSeq(s[1..], g)
  }

  /** Mapping a permutation yields a permutation. */
  lemma {:induction false} MapSeqPermutation<A, B>(s: seq<A>, t: seq<A>, g: A -> B)
    requires multiset(s) == multiset(t)
    ensures multiset(MapSeq(s, g)) == multiset(MapSeq(t, g))
    decreases |s|
  {
    if |s| == 0 {
      assert |t| == |multiset(t)| == 0;
    } else {
      assert s[0] in multiset(t);
      var k :| 0 <= k < |t| && t[k] == s[0];
      var rest := t[..k] + t[k + 1..];
      assert multiset(s[1..]) == multiset(rest) by {
        MultisetRemove(t, k);
        assert s == [s[0]] + s[1..];
      }
      MapSeqPermutation(s[1..], rest, g);
      MapSeqRemoveMultiset(t, k, g);
      assert MapSeq(s, g) == [g(s[0])] + MapSeq(s[1..], g);
    }
  }

  /** Mapping after removing the element at `k` loses exactly its image. */
  lemma MapSeqRemoveMultiset<A, B>(t: seq<A>, k: nat, g: A -> B)
    requires k < |t|
    ensures multiset(MapSeq(t, g)) == multiset{g(t[k])} + multiset(MapSeq(t[..k] + t[k + 1..], g))
  {
    var mt := MapSeq(t, g);
    MapSeqRemove(t, k, g);
    MultisetRemove(mt, k);
  }

  /** Mapping after removing the element at `k` is removing its image after mapping. */
  lemma {:induction false} MapSeqRemove<A, B>(t: seq<A>, k: nat, g: A -> B)
    requires k < |t|
    ensures MapSeq(t[..k] + t[k + 1..], g) == MapSeq(t, g)[..k] + MapSeq(t, g)[k + 1..]
  {
    var rest := t[..k] + t[k + 1..];
    var mt := MapSeq(t, g);
    var a := MapSeq(rest, g);
    var b := mt[..k] + mt[k + 1..];
    assert |rest| == |t| - 1;
    assert |a| == |b|;
    forall i | 0 <= i < |a|
      ensures a[i] == b[i]
    {
      if i < k {
        assert a[i] == g(rest[i]) == g(t[i]) == mt[i] == b[i];
      } else {
        assert a[i] == g(rest[i]) == g(t[i + 1]) == mt[i + 1] == b[i];
      }
    }
  }

  /** The elements of `xs` concatenated in order. */
  function Flatten<T>(xs: seq<seq<T>>): seq<T>
  {
    if |xs| == 0 then [] else xs[0] + Flatten(xs[1..])
  }

  /** Flattening from block `k` on is block `k` followed by the blocks after it. */
  lemma FlattenFrom<T>(xs: seq<seq<T>>, k: nat)
    requires k < |xs|
    ensures Flatten(xs[k..]) == xs[k] + Flatten(xs[k + 1..])
  {
    assert xs[k..][1..] == xs[k + 1..];
  }

  /** Flattening blocks that are all empty gives nothing. */
  lemma {:induction false} FlattenEmpty<T>(xs: seq<seq<T>>)
    requires forall i :: 0 <= i < |xs| ==> xs[i] == []
    ensures Flatten(xs) == []
  {
    if |xs| > 0 {
      FlattenEmpty(xs[1..]);
    }
  }

  lemma {:induction false} FlattenLength<T>(xs: seq<seq<T>>, n: nat)
    requires forall i :: 0 <= i < |xs| ==> |xs[i]| == n
    ensures |Flatten(xs)| == n * |xs|
  {
    if |xs| > 0 {
      FlattenLength(xs[1..], n);
      MulStep(n, |xs|);
    }
  }

  lemma {:induction false} FlattenBlock<T>(xs: seq<seq<T>>, n: nat, i: nat)
    requires forall k :: 0 <= k < |xs| ==> |xs[k]| == n
    requires i < |xs|
    ensures n * i + n <= |Flatten(xs)|
    ensures Flatten(xs)[n * i..n * i + n] == xs[i]
  {
    var rest := Flatten(xs[1..]);
    assert Flatten(xs) == xs[0] + rest;
    FlattenLength(xs[1..], n);
    if i == 0 {
      assert Flatten(xs)[0..n] == xs[0];
    } else {
      FlattenBlock(xs[1..], n, i - 1);
      MulStep(n, i);
      SliceAfter(xs[0], rest, n * (i - 1), n * (i - 1) + n);
    }
  }

  /** Flattening blocks of one size `n` puts block `i` at `[n * i, n * i + n)`. */
  lemma FlattenBlocks<T>(xs: seq<seq<T>>, n: nat)
    requires forall i :: 0 <= i < |xs| ==> |xs[i]| == n
    ensures |Flatten(xs)| == n * |xs|
    ensures forall i :: 0 <= i < |xs| ==> n * i + n <= |Flatten(xs)| && Flatten(xs)[n * i..n * i + n] == xs[i]
  {
    FlattenLength(xs, n);
    forall i | 0 <= i < |xs|
      ensures n * i + n <= |Flatten(xs)| && Flatten(xs)[n * i..n * i + n] == xs[i]
    {
      FlattenBlock(xs, n, i);
    }
  }

  lemma MulStep(n: nat, i: nat)
    requires i > 0
    ensures n * i == n + n * (i - 1)
  {
  }

  lemma SliceAfter<T>(a: seq<T>, b: seq<T>, p: nat, q: nat)
    requires p <= q <= |b|
    ensures (a + b)[|a| + p..|a| + q] == b[p..q]
  {
  }
}
