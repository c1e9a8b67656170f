/** Sequence helpers: order-preserving filters and Python's insertion-ordered `dict`. */
module Seqs {
  import opened Wrappers

  /** `[x for x in s if keep(x)]` */
  function Filter<T(!new)>(s: seq<T>, keep: T -> bool): (r: seq<T>)
    ensures |r| <= |s|
    ensures forall x :: x in r <==> x in s && keep(x)
  {
    if s == [] then [] else (if keep(s[0]) then [s[0]] else []) + Filter(s[1..], keep)
  }

  lemma {:induction false} FilterAppend<T(!new)>(a: seq<T>, b: seq<T>, keep: T -> bool)
    ensures Filter(a + b, keep) == Filter(a, keep) + Filter(b, keep)
    decreases |a|
  {
    if a == [] {
      assert a + b == b;
    } else {
      assert (a + b)[0] == a[0];
      assert (a + b)[1..] == a[1..] + b;
      FilterAppend(a[1..], b, keep);
    }
  }

  /** A filter that every element passes keeps the sequence whole. */
  lemma {:induction false} FilterKeepsAll<T(!new)>(s: seq<T>, keep: T -> bool)
    requires forall i :: 0 <= i < |s| ==> keep(s[i])
    ensures Filter(s, keep) == s
    decreases |s|
  {
    if s != [] {
      FilterKeepsAll(s[1..], keep);
    }
  }

  /** `sub` is a subsequence of `s`: it keeps some of the elements of `s`, in their order. */
  predicate IsSubsequence<T(==)>(sub: seq<T>, s: seq<T>)
    decreases |s|
  {
    if sub == [] then true
    else if s == [] then false
    else if sub[0] == s[0] then IsSubsequence(sub[1..], s[1..])
    else IsSubsequence(sub, s[1..])
  }

  lemma {:induction false} FilterIsSubsequence<T(!new)>(s: seq<T>, keep: T -> bool)
    ensures IsSubsequence(Filter(s, keep), s)
    decreases |s|
  {
    if s != [] {
      FilterIsSubsequence(s[1..], keep);
      var rest := Filter(s[1..], keep);
      if keep(s[0]) {
        assert Filter(s, keep) == [s[0]] + rest;
        assert ([s[0]] + rest)[1..] == rest;
      } else {
        assert Filter(s, keep) == rest;
        SubsequenceOfTail(rest, s);
      }
    }
  }

  lemma {:induction false} SubsequenceOfTail<T>(sub: seq<T>, s: seq<T>)
    requires s != [] && IsSubsequence(sub, s[1..])
    ensures IsSubsequence(sub, s)
    decreases |s|, 0
  {
    if sub != [] && sub[0] == s[0] {
      // sub[1..] is a subsequence of s[1..] because it is one of sub's tails
      TailOfSubsequence(sub, s[1..]);
    }
  }

  lemma {:induction false} TailOfSubsequence<T>(sub: seq<T>, s: seq<T>)
    requires sub != [] && IsSubsequence(sub, s)
    ensures IsSubsequence(sub[1..], s)
    decreases |s|, 1
  {
    if sub[0] == s[0] {
      SubsequenceOfTail(sub[1..], s);
    } else {
      TailOfSubsequence(sub, s[1..]);
      if sub[1..] != [] {
        SubsequenceOfTail(sub[1..], s);
      }
    }
  }

  /** Appending one element to both sides, or to the larger one only, keeps a subsequence a
      subsequence. */
  lemma {:induction false} SubsequenceSnoc<T>(sub: seq<T>, s: seq<T>, x: T)
    requires IsSubsequence(sub, s)
    ensures IsSubsequence(sub, s + [x]) && IsSubsequence(sub + [x], s + [x])
    decreases |s|
  {
    if s != [] {
      assert (s + [x])[1..] == s[1..] + [x];
      if sub != [] && sub[0] == s[0] {
        SubsequenceSnoc(sub[1..], s[1..], x);
        assert (sub + [x])[1..] == sub[1..] + [x];
      } else {
        SubsequenceSnoc(sub, s[1..], x);
        SubsequenceOfTail(sub, s + [x]);
        SubsequenceOfTail(sub + [x], s + [x]);
      }
    }
  }

  /** `[f(x) for x in s]` */
  function Map<T, U>(s: seq<T>, f: T -> U): (r: seq<U>)
    ensures |r| == |s|
    ensures forall i :: 0 <= i < |s| ==> r[i] == f(s[i])
  {
    if s == [] then [] else [f(s[0])] + Map(s[1..], f)
  }

  lemma {:induction false} MapAppend<T, U>(a: seq<T>, b: seq<T>, f: T -> U)
    ensures Map(a + b, f) == Map(a, f) + Map(b, f)
  {
  }

  lemma {:induction false} SubsequenceOfSelf<T>(s: seq<T>)
    ensures IsSubsequence(s, s)
    decreases |s|
  {
    if s != [] {
      SubsequenceOfSelf(s[1..]);
    }
  }

  lemma {:induction false} SubsequenceTransitive<T>(a: seq<T>, b: seq<T>, c: seq<T>)
    requires IsSubsequence(a, b) && IsSubsequence(b, c)
    ensures IsSubsequence(a, c)
    decreases |c|
  {
    if a != [] {
      if b[0] == c[0] {
        if a[0] == b[0] {
          SubsequenceTransitive(a[1..], b[1..], c[1..]);
        } else {
          SubsequenceTransitive(a, b[1..], c[1..]);
          SubsequenceOfTail(a, c);
        }
      } else {
        SubsequenceTransitive(a, b, c[1..]);
        SubsequenceOfTail(a, c);
      }
    }
  }

  /** Mapping keeps a subsequence a subsequence. */
  lemma {:induction false} MapSubsequence<T, U>(sub: seq<T>, s: seq<T>, f: T -> U)
    requires IsSubsequence(sub, s)
    ensures IsSubsequence(Map(sub, f), Map(s, f))
    decreases |s|
  {
    if sub != [] {
      assert Map(s, f)[1..] == Map(s[1..], f);
      if sub[0] == s[0] {
        MapSubsequence(sub[1..], s[1..], f);
        assert Map(sub, f)[1..] == Map(sub[1..], f);
      } else {
        MapSubsequence(sub, s[1..], f);
        SubsequenceOfTail(Map(sub, f), Map(s, f));
      }
    }
  }

  /** The concatenation of `f(x)` for each `x` of `xs`, in order (a loop that appends one
      piece per element). */
  function Flatten<T, U>(xs: seq<T>, f: T -> seq<U>): seq<U> {
    if xs == [] then [] else Flatten(xs[..|xs| - 1], f) + f(xs[|xs| - 1])
  }

  lemma {:induction false} FlattenAppend<T, U>(a: seq<T>, b: seq<T>, f: T -> seq<U>)
    ensures Flatten(a + b, f) == Flatten(a, f) + Flatten(b, f)
    decreases |b|
  {
    if b == [] {
      assert a + b == a;
    } else {
      var c := b[..|b| - 1];
      assert (a + b)[..|a + b| - 1] == a + c;
      FlattenAppend(a, c, f);
    }
  }

  /** The pieces of the elements before `x`, then `x`'s, then those of the elements after. */
  lemma FlattenAround<T, U>(pre: seq<T>, x: T, post: seq<T>, f: T -> seq<U>)
    ensures Flatten(pre + [x] + post, f) == Flatten(pre, f) + f(x) + Flatten(post, f)
  {
    FlattenAppend(pre + [x], post, f);
    FlattenAppend(pre, [x], f);
    assert [x][..0] == [];
  }

  /** An insertion-ordered dictionary, as Python's `dict` is: key/value pairs, keys distinct. */
  type Assoc<K, V> = seq<(K, V)>

  function Keys<K, V>(a: Assoc<K, V>): (ks: seq<K>)
    ensures |ks| == |a|
    ensures forall i :: 0 <= i < |a| ==> ks[i] == a[i].0
  {
    if a == [] then [] else [a[0].0] + Keys(a[1..])
  }

  predicate DistinctKeys<K(==), V>(a: Assoc<K, V>) {
    forall i, j :: 0 <= i < j < |a| ==> a[i].0 != a[j].0
  }

  /** `d.get(k)` */
  function Get<K(==), V>(a: Assoc<K, V>, k: K): (r: Option<V>)
    ensures r.None? <==> k !in Keys(a)
    ensures r.Some? ==> (k, r.value) in a
  {
    if a == [] then None else if a[0].0 == k then Some(a[0].1) else Get(a[1..], k)
  }

  /** `d[k] = v`: an existing key keeps its position and gets the new value; a new key is
      appended at the end. */
  function Put<K(==), V>(a: Assoc<K, V>, k: K, v: V): (r: Assoc<K, V>)
    ensures |r| == if k in Keys(a) then |a| else |a| + 1
    ensures k in Keys(a) ==> Keys(r) == Keys(a)
    ensures k !in Keys(a) ==> Keys(r) == Keys(a) + [k]
  {
    if a == [] then [(k, v)]
    else if a[0].0 == k then [(k, v)] + a[1..]
    else [a[0]] + Put(a[1..], k, v)
  }

  lemma {:induction false} GetPut<K, V>(a: Assoc<K, V>, k: K, v: V, j: K)
    ensures Get(Put(a, k, v), j) == if j == k then Some(v) else Get(a, j)
    decreases |a|
  {
    if a != [] && a[0].0 != k {
      GetPut(a[1..], k, v, j);
    }
  }

  lemma {:induction false} PutKeepsKeysDistinct<K, V>(a: Assoc<K, V>, k: K, v: V)
    requires DistinctKeys(a)
    ensures DistinctKeys(Put(a, k, v))
  {
    var r := Put(a, k, v);
    var ks := Keys(r);
    assert forall i :: 0 <= i < |r| ==> r[i].0 == ks[i];
    forall i, j | 0 <= i < j < |r| ensures r[i].0 != r[j].0 {
      if k in Keys(a) {
        assert ks == Keys(a);
      } else {
        assert ks == Keys(a) + [k];
        if j == |a| {
          assert ks[i] == Keys(a)[i];
        }
      }
    }
  }

  lemma {:induction false} GetOfDistinct<K, V>(a: Assoc<K, V>, i: nat)
    requires DistinctKeys(a) && i < |a|
    ensures Get(a, a[i].0) == Some(a[i].1)
    decreases i
  {
    if i > 0 {
      assert DistinctKeys(a[1..]) by {
        forall p, q | 0 <= p < q < |a[1..]| ensures a[1..][p].0 != a[1..][q].0 {
          assert a[1..][p] == a[p + 1] && a[1..][q] == a[q + 1];
        }
      }
      assert a[0].0 != a[i].0;
      GetOfDistinct(a[1..], i - 1);
    }
  }
}
