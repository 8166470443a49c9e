/**
 * Sequences as the ordered collections of the source: `sched.OrderedSet`
 * (a sequence without duplicates, first insertion wins), `OrderedDict`
 * (a sequence of key/value pairs with unique keys) and list building by
 * concatenating per-element chunks.
 */
module Seqs {
  import opened Wrappers

  /** No element occurs twice: the invariant of an ordered set. */
  ghost predicate NoDup<T>(s: seq<T>) {
    forall i, j :: 0 <= i < j < |s| ==> s[i] != s[j]
  }

  /** `OrderedSet.add`: append `x` unless it is already present. */
  function Add<T(==)>(s: seq<T>, x: T): seq<T> {
    if x in s then s else s + [x]
  }

  /** `OrderedSet.update`: add the elements of `t` one by one, in order. */
  function Union<T(==)>(s: seq<T>, t: seq<T>): seq<T>
    decreases |t|
  {
    if |t| == 0 then s else Add(Union(s, t[..|t| - 1]), t[|t| - 1])
  }

  lemma {:induction false} UnionElements<T>(s: seq<T>, t: seq<T>)
    ensures forall x :: x in Union(s, t) <==> x in s || x in t
  {
    if |t| > 0 {
      var init := t[..|t| - 1];
      UnionElements(s, init);
      assert t == init + [t[|t| - 1]];
    }
  }

  lemma {:induction false} UnionPrefix<T>(s: seq<T>, t: seq<T>)
    ensures |s| <= |Union(s, t)| && Union(s, t)[..|s|] == s
  {
    if |t| > 0 {
      UnionPrefix(s, t[..|t| - 1]);
    }
  }

  lemma {:induction false} UnionNoDup<T>(s: seq<T>, t: seq<T>)
    requires NoDup(s)
    ensures NoDup(Union(s, t))
  {
    if |t| > 0 {
      UnionNoDup(s, t[..|t| - 1]);
    }
  }

  /** Adding only elements already present changes nothing. */
  lemma {:induction false} UnionSubsumed<T>(s: seq<T>, t: seq<T>)
    requires forall x :: x in t ==> x in s
    ensures Union(s, t) == s
  {
    if |t| > 0 {
      UnionSubsumed(s, t[..|t| - 1]);
    }
  }

  /** The empty ordered set is a left identity on ordered sets. */
  lemma {:induction false} UnionEmptyLeft<T>(t: seq<T>)
    requires NoDup(t)
    ensures Union([], t) == t
  {
    if |t| > 0 {
      var init, x := t[..|t| - 1], t[|t| - 1];
      assert t == init + [x];
      assert NoDup(init) by {
        forall i, j | 0 <= i < j < |init| ensures init[i] != init[j] {
          assert init[i] == t[i] && init[j] == t[j];
        }
      }
      UnionEmptyLeft(init);
      assert x !in init by {
        forall i | 0 <= i < |init| ensures init[i] != x {
          assert init[i] == t[i];
        }
      }
      assert Union([], t) == init + [x];
    }
  }

  lemma {:induction false} AddNoDup<T>(s: seq<T>, x: T)
    requires NoDup(s)
    ensures NoDup(Add(s, x))
  {
    if x !in s {
      var r := s + [x];
      forall i, j | 0 <= i < j < |r| ensures r[i] != r[j] {
        if j == |s| {
          assert r[i] == s[i];
        }
      }
    }
  }

  /** Adding `x` then the rest is the same as a union with `[x] + t`. */
  lemma {:induction false} UnionCons<T>(s: seq<T>, x: T, t: seq<T>)
    ensures Union(s, [x] + t) == Union(Add(s, x), t)
  {
    if |t| > 0 {
      var init := t[..|t| - 1];
      UnionCons(s, x, init);
      assert ([x] + t)[..|[x] + t| - 1] == [x] + init;
    } else {
      assert [x] + t == [x];
      assert [x][..0] == [];
    }
  }

  /** Updating with `a + b` is updating with `a`, then with `b`. */
  lemma {:induction false} UnionConcat<T>(s: seq<T>, a: seq<T>, b: seq<T>)
    ensures Union(s, a + b) == Union(Union(s, a), b)
    decreases |b|
  {
    if |b| > 0 {
      var init := b[..|b| - 1];
      UnionConcat(s, a, init);
      assert (a + b)[..|a + b| - 1] == a + init;
    } else {
      assert a + b == a;
    }
  }

  /** Repeated `update` is associative. */
  lemma {:induction false} UnionAssoc<T>(a: seq<T>, b: seq<T>, c: seq<T>)
    ensures Union(Union(a, b), c) == Union(a, Union(b, c))
  {
    if |c| > 0 {
      var init, x := c[..|c| - 1], c[|c| - 1];
      UnionAssoc(a, b, init);
      UnionElements(b, init);
      UnionElements(a, Union(b, init));
      if x in Union(b, init) {
        assert Union(b, c) == Union(b, init);
      } else {
        var bc := Union(b, init) + [x];
        assert Union(b, c) == bc;
        assert bc[..|bc| - 1] == Union(b, init);
      }
    }
  }

  /** Concatenation of the chunks `f(x)` of the elements `x` of `xs`, in order. */
  function FlatMap<T, U>(xs: seq<T>, f: T -> seq<U>): seq<U>
    decreases |xs|
  {
    if |xs| == 0 then [] else FlatMap(xs[..|xs| - 1], f) + f(xs[|xs| - 1])
  }

  lemma {:induction false} FlatMapAppend<T, U>(xs: seq<T>, ys: seq<T>, f: T -> seq<U>)
    ensures FlatMap(xs + ys, f) == FlatMap(xs, f) + FlatMap(ys, f)
  {
    if |ys| > 0 {
      var init := ys[..|ys| - 1];
      FlatMapAppend(xs, init, f);
      assert (xs + ys)[..|xs + ys| - 1] == xs + init;
    } else {
      assert xs + ys == xs;
    }
  }

  lemma {:induction false} FlatMapMember<T, U>(xs: seq<T>, f: T -> seq<U>, u: U)
    ensures u in FlatMap(xs, f) <==> exists i :: 0 <= i < |xs| && u in f(xs[i])
  {
    if |xs| > 0 {
      var init := xs[..|xs| - 1];
      FlatMapMember(init, f, u);
      if u in FlatMap(xs, f) && u !in FlatMap(init, f) {
        assert u in f(xs[|xs| - 1]);
      }
      if exists i :: 0 <= i < |xs| && u in f(xs[i]) {
        var i :| 0 <= i < |xs| && u in f(xs[i]);
        if i < |xs| - 1 {
          assert xs[i] == init[i];
        }
      }
    }
  }

  /** When every chunk has `k` elements, element `j` of chunk `i` sits at `k * i + j`. */
  lemma {:induction false} FlatMapUniform<T, U>(xs: seq<T>, f: T -> seq<U>, k: nat)
    requires forall i :: 0 <= i < |xs| ==> |f(xs[i])| == k
    ensures |FlatMap(xs, f)| == k * |xs|
    ensures forall i, j :: 0 <= i < |xs| && 0 <= j < k && k * i + j < |FlatMap(xs, f)| ==> FlatMap(xs, f)[k * i + j] == f(xs[i])[j]
  {
    if |xs| > 0 {
      var n := |xs| - 1;
      var init := xs[..n];
      FlatMapUniform(init, f, k);
      var r := FlatMap(xs, f);
      assert r == FlatMap(init, f) + f(xs[n]);
      assert k * |xs| == k * (n + 1) == k * n + k;
      forall i, j | 0 <= i < |xs| && 0 <= j < k && k * i + j < |r|
        ensures r[k * i + j] == f(xs[i])[j]
      {
        if i < n {
          ChunkBelow(k, i, j, n);
          assert init[i] == xs[i];
        }
      }
    }
  }

  /** Position `j` of chunk `i` lies before chunk `n` when `i < n`. */
  lemma {:induction false} ChunkBelow(k: nat, i: nat, j: nat, n: nat)
    requires i < n && j < k
    ensures k * i + j < k * n
    decreases n - i
  {
    assert k * (i + 1) == k * i + k;
    if i + 1 < n {
      ChunkBelow(k, i + 1, j, n);
    }
  }

  /** Chunks of one element each: the flattening is the chunks' elements. */
  lemma FlatMapSingletons<T, U>(xs: seq<T>, f: T -> seq<U>)
    requires forall i :: 0 <= i < |xs| ==> |f(xs[i])| == 1
    ensures |FlatMap(xs, f)| == |xs|
    ensures forall i :: 0 <= i < |xs| ==> FlatMap(xs, f)[i] == f(xs[i])[0]
  {
    FlatMapUniform(xs, f, 1);
    forall i | 0 <= i < |xs| ensures FlatMap(xs, f)[i] == f(xs[i])[0] {
      assert FlatMap(xs, f)[1 * i + 0] == f(xs[i])[0];
    }
  }

  /** Chunks of two elements each: chunk `i` sits at `2 * i` and `2 * i + 1`. */
  lemma FlatMapPairs<T, U>(xs: seq<T>, f: T -> seq<U>)
    requires forall i :: 0 <= i < |xs| ==> |f(xs[i])| == 2
    ensures |FlatMap(xs, f)| == 2 * |xs|
    ensures forall i :: 0 <= i < |xs| ==> FlatMap(xs, f)[2 * i] == f(xs[i])[0] && FlatMap(xs, f)[2 * i + 1] == f(xs[i])[1]
  {
    FlatMapUniform(xs, f, 2);
    forall i | 0 <= i < |xs| ensures FlatMap(xs, f)[2 * i] == f(xs[i])[0] && FlatMap(xs, f)[2 * i + 1] == f(xs[i])[1] {
      assert FlatMap(xs, f)[2 * i + 0] == f(xs[i])[0];
    }
  }
  /** Chunks of four elements each. */
  lemma FlatMapQuads<T, U>(xs: seq<T>, f: T -> seq<U>)
    requires forall i :: 0 <= i < |xs| ==> |f(xs[i])| == 4
    ensures |FlatMap(xs, f)| == 4 * |xs|
    ensures forall i :: 0 <= i < |xs| ==>
      && FlatMap(xs, f)[4 * i] == f(xs[i])[0] && FlatMap(xs, f)[4 * i + 1] == f(xs[i])[1]
      && FlatMap(xs, f)[4 * i + 2] == f(xs[i])[2] && FlatMap(xs, f)[4 * i + 3] == f(xs[i])[3]
  {
    FlatMapUniform(xs, f, 4);
    var r := FlatMap(xs, f);
    forall i | 0 <= i < |xs|
      ensures r[4 * i] == f(xs[i])[0] && r[4 * i + 1] == f(xs[i])[1] && r[4 * i + 2] == f(xs[i])[2] && r[4 * i + 3] == f(xs[i])[3]
    {
      assert r[4 * i + 0] == f(xs[i])[0];
    }
  }


  // ---------------------------------------------------------------------
  // Insertion-ordered dictionaries.

  /** The keys of an ordered dictionary, in insertion order. */
  function Keys<K, V>(d: seq<(K, V)>): seq<K>
    decreases |d|
  {
    if |d| == 0 then [] else [d[0].0] + Keys(d[1..])
  }

  /** Dictionary lookup (`d.get(k)`). */
  function Get<K(==), V>(d: seq<(K, V)>, k: K): Option<V>
    decreases |d|
  {
    if |d| == 0 then None else if d[0].0 == k then Some(d[0].1) else Get(d[1..], k)
  }

  /** `d[k] = v`: an existing key keeps its position, a new one goes last. */
  function Put<K(==), V>(d: seq<(K, V)>, k: K, v: V): seq<(K, V)>
    decreases |d|
  {
    if |d| == 0 then [(k, v)]
    else if d[0].0 == k then [(k, v)] + d[1..]
    else [d[0]] + Put(d[1..], k, v)
  }

  lemma {:induction false} KeysAppend<K, V>(d: seq<(K, V)>, e: seq<(K, V)>)
    ensures Keys(d + e) == Keys(d) + Keys(e)
  {
    if |d| > 0 {
      assert (d + e)[1..] == d[1..] + e;
      KeysAppend(d[1..], e);
    } else {
      assert d + e == e;
    }
  }

  lemma {:induction false} KeysLength<K, V>(d: seq<(K, V)>)
    ensures |Keys(d)| == |d|
    ensures forall i :: 0 <= i < |d| ==> Keys(d)[i] == d[i].0
  {
    if |d| > 0 {
      KeysLength(d[1..]);
    }
  }

  lemma {:induction false} GetSome<K, V>(d: seq<(K, V)>, k: K)
    ensures Get(d, k).Some? <==> k in Keys(d)
  {
    if |d| > 0 {
      GetSome(d[1..], k);
    }
  }

  lemma {:induction false} GetAppend<K, V>(d: seq<(K, V)>, k: K, v: V)
    ensures Get(d + [(k, v)], k) == if k in Keys(d) then Get(d, k) else Some(v)
    ensures forall k' :: k' != k ==> Get(d + [(k, v)], k') == Get(d, k')
  {
    if |d| > 0 {
      assert (d + [(k, v)])[1..] == d[1..] + [(k, v)];
      GetAppend(d[1..], k, v);
    }
  }

  lemma {:induction false} PutFacts<K, V>(d: seq<(K, V)>, k: K, v: V)
    ensures Keys(Put(d, k, v)) == Add(Keys(d), k)
    ensures Get(Put(d, k, v), k) == Some(v)
    ensures forall k' :: k' != k ==> Get(Put(d, k, v), k') == Get(d, k')
  {
    if |d| > 0 {
      PutFacts(d[1..], k, v);
      if d[0].0 != k {
        assert Keys(Put(d, k, v)) == [d[0].0] + Keys(Put(d[1..], k, v));
        if k in Keys(d[1..]) {
          assert k in Keys(d);
        } else {
          assert k !in Keys(d);
          assert [d[0].0] + (Keys(d[1..]) + [k]) == Keys(d) + [k];
        }
      } else {
        assert Put(d, k, v)[1..] == d[1..];
      }
    }
  }

  /** Every key of `Put(d, k, v)` is `k` or a key of `d`. */
  lemma {:induction false} PutKeysFrom<K, V>(d: seq<(K, V)>, k: K, v: V)
    ensures forall i :: 0 <= i < |Put(d, k, v)| ==>
      Put(d, k, v)[i].0 == k || exists j :: 0 <= j < |d| && d[j].0 == Put(d, k, v)[i].0
  {
    if |d| > 0 && d[0].0 != k {
      PutKeysFrom(d[1..], k, v);
      var r := Put(d, k, v);
      forall i | 0 <= i < |r| && r[i].0 != k
        ensures exists j :: 0 <= j < |d| && d[j].0 == r[i].0
      {
        if i == 0 {
          assert d[0].0 == r[i].0;
        } else {
          assert r[i] == Put(d[1..], k, v)[i - 1];
          var j :| 0 <= j < |d[1..]| && d[1..][j].0 == r[i].0;
          assert d[j + 1].0 == r[i].0;
        }
      }
    }
  }

  /** Two dictionaries with the same key order and the same lookups are equal. */
  lemma {:induction false} DictExt<K, V>(d: seq<(K, V)>, e: seq<(K, V)>)
    requires NoDup(Keys(d)) && NoDup(Keys(e))
    requires Keys(d) == Keys(e)
    requires forall k :: Get(d, k) == Get(e, k)
    ensures d == e
  {
    KeysLength(d);
    KeysLength(e);
    forall i | 0 <= i < |d| ensures d[i] == e[i] {
      GetAt(d, i);
      GetAt(e, i);
    }
  }

  /** With unique keys, looking up the key at position `i` finds position `i`. */
  lemma {:induction false} GetAt<K, V>(d: seq<(K, V)>, i: nat)
    requires NoDup(Keys(d)) && i < |d|
    ensures Get(d, d[i].0) == Some(d[i].1)
  {
    KeysLength(d);
    if i > 0 {
      KeysLength(d[1..]);
      assert Keys(d)[0] != Keys(d)[i];
      assert NoDup(Keys(d[1..])) by {
        forall a, b | 0 <= a < b < |Keys(d[1..])| ensures Keys(d[1..])[a] != Keys(d[1..])[b] {
          assert Keys(d[1..])[a] == Keys(d)[a + 1];
          assert Keys(d[1..])[b] == Keys(d)[b + 1];
        }
      }
      GetAt(d[1..], i - 1);
    }
  }

  /** `reversed(s)`. */
  function Reverse<T>(s: seq<T>): (r: seq<T>)
    ensures |r| == |s|
    ensures forall i :: 0 <= i < |s| ==> r[i] == s[|s| - 1 - i]
    decreases |s|
  {
    if |s| == 0 then [] else [s[|s| - 1]] + Reverse(s[..|s| - 1])
  }

  /** The elements satisfying `p`, in order. */
  function Filter<T>(s: seq<T>, p: T -> bool): seq<T>
    decreases |s|
  {
    if |s| == 0 then [] else Filter(s[..|s| - 1], p) + (if p(s[|s| - 1]) then [s[|s| - 1]] else [])
  }

  lemma {:induction false} FilterMember<T>(s: seq<T>, p: T -> bool, x: T)
    ensures x in Filter(s, p) <==> x in s && p(x)
    decreases |s|
  {
    if |s| > 0 {
      var init := s[..|s| - 1];
      FilterMember(init, p, x);
      assert s == init + [s[|s| - 1]];
    }
  }

  /** Filtering keeps everything exactly when every element passes. */
  lemma {:induction false} FilterAll<T>(s: seq<T>, p: T -> bool)
    requires forall i :: 0 <= i < |s| ==> p(s[i])
    ensures Filter(s, p) == s
    decreases |s|
  {
    if |s| > 0 {
      FilterAll(s[..|s| - 1], p);
    }
  }

  /** An element of a middle piece is in the whole. */
  lemma InMiddle<T>(a: seq<T>, b: seq<T>, c: seq<T>, x: T)
    requires x in b
    ensures x in a + b + c
  {
    var k :| 0 <= k < |b| && b[k] == x;
    assert (a + b + c)[|a| + k] == x;
  }
}
