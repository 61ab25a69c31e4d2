/** Sums over sequences and over finite maps, and how they react to the updates the keeper makes. */
module Sums {
  import opened Types

  function SumBy<T>(s: seq<T>, f: T -> nat): nat {
    if s == [] then 0 else SumBy(s[..|s| - 1], f) + f(s[|s| - 1])
  }

  lemma SumSnoc<T>(s: seq<T>, x: T, f: T -> nat)
    ensures SumBy(s + [x], f) == SumBy(s, f) + f(x)
  {
    assert (s + [x])[..|s|] == s;
  }

  lemma {:induction false} SumConcat<T>(s: seq<T>, t: seq<T>, f: T -> nat)
    ensures SumBy(s + t, f) == SumBy(s, f) + SumBy(t, f)
  {
    if t == [] {
      assert s + t == s;
    } else {
      var t0 := t[..|t| - 1];
      SumConcat(s, t0, f);
      assert s + t == (s + t0) + [t[|t| - 1]];
      SumSnoc(s + t0, t[|t| - 1], f);
    }
  }

  lemma {:induction false} SumUpdate<T>(s: seq<T>, i: nat, x: T, f: T -> nat)
    requires i < |s|
    ensures SumBy(s[i := x], f) == SumBy(s, f) - f(s[i]) + f(x)
  {
    var n := |s| - 1;
    if i == n {
      assert s[i := x][..n] == s[..n];
    } else {
      SumUpdate(s[..n], i, x, f);
      assert s[i := x][..n] == s[..n][i := x];
    }
  }

  /** The value of a sum does not depend on the order of its terms. */
  lemma {:induction false} SumPerm<T>(s: seq<T>, t: seq<T>, f: T -> nat)
    requires multiset(s) == multiset(t)
    ensures SumBy(s, f) == SumBy(t, f)
    decreases |s|
  {
    if s == [] {
      assert |multiset(t)| == 0;
    } else {
      var n, x := |s| - 1, s[|s| - 1];
      assert x in multiset(t);
      var i :| 0 <= i < |t| && t[i] == x;
      var rest := t[..i] + t[i + 1..];
      assert s == s[..n] + [x];
      assert t == t[..i] + [x] + t[i + 1..];
      assert multiset(rest) == multiset(t) - multiset{x} == multiset(s[..n]);
      SumPerm(s[..n], rest, f);
      SumConcat(t[..i], t[i + 1..], f);
      SumSnoc(t[..i], x, f);
      SumConcat(t[..i] + [x], t[i + 1..], f);
    }
  }

  lemma {:induction false} SumLe<T>(s: seq<T>, f: T -> nat, g: T -> nat)
    requires forall x :: x in s ==> f(x) <= g(x)
    ensures SumBy(s, f) <= SumBy(s, g)
  {
    if s != [] {
      SumLe(s[..|s| - 1], f, g);
    }
  }

  lemma {:induction false} SumSame<T, U>(s: seq<T>, t: seq<U>, f: T -> nat, g: U -> nat)
    requires |s| == |t|
    requires forall i :: 0 <= i < |s| ==> f(s[i]) == g(t[i])
    ensures SumBy(s, f) == SumBy(t, g)
  {
    if s != [] {
      var n := |s| - 1;
      assert forall i :: 0 <= i < n ==> s[..n][i] == s[i] && t[..n][i] == t[i];
      SumSame(s[..n], t[..n], f, g);
    }
  }

  lemma {:induction false} SumAdd<T>(s: seq<T>, f: T -> nat, g: T -> nat, h: T -> nat)
    requires forall x :: x in s ==> h(x) == f(x) + g(x)
    ensures SumBy(s, h) == SumBy(s, f) + SumBy(s, g)
  {
    if s != [] {
      SumAdd(s[..|s| - 1], f, g, h);
    }
  }

  lemma {:induction false} SumZero<T>(s: seq<T>, f: T -> nat)
    requires forall x :: x in s ==> f(x) == 0
    ensures SumBy(s, f) == 0
  {
    if s != [] {
      SumZero(s[..|s| - 1], f);
    }
  }

  ghost function SumMap<K>(m: map<K, nat>): nat
    decreases |m|
  {
    if m == map[] then 0 else
      var k :| k in m;
      m[k] + SumMap(m - {k})
  }

  lemma {:induction false} SumMapRemove<K>(m: map<K, nat>, k: K)
    requires k in m
    ensures SumMap(m) == m[k] + SumMap(m - {k})
    decreases |m|
  {
    var j :| j in m && SumMap(m) == m[j] + SumMap(m - {j});
    if j != k {
      SumMapRemove(m - {j}, k);
      SumMapRemove(m - {k}, j);
      assert (m - {j}) - {k} == (m - {k}) - {j};
    }
  }

  lemma SumMapUpdate<K>(m: map<K, nat>, k: K, n: nat)
    ensures SumMap(m[k := n]) == SumMap(m) - Get(m, k) + n
  {
    SumMapRemove(m[k := n], k);
    assert m[k := n] - {k} == m - {k};
    if k in m {
      SumMapRemove(m, k);
    } else {
      assert m - {k} == m;
    }
  }

  lemma {:induction false} SumMapLe<K>(m: map<K, nat>, n: map<K, nat>)
    requires forall k :: k in m ==> m[k] <= Get(n, k)
    ensures SumMap(m) <= SumMap(n)
    decreases |m|
  {
    if m != map[] {
      var k :| k in m;
      SumMapRemove(m, k);
      if k in n {
        SumMapRemove(n, k);
        SumMapLe(m - {k}, n - {k});
      } else {
        SumMapLe(m - {k}, n);
      }
    }
  }

  /** Entries that are zero on one side and missing on the other do not matter. */
  lemma SumMapSame<K(!new)>(m: map<K, nat>, n: map<K, nat>)
    requires forall k {:trigger Get(m, k)} {:trigger Get(n, k)} :: Get(m, k) == Get(n, k)
    ensures SumMap(m) == SumMap(n)
  {
    forall k | k in m ensures m[k] <= Get(n, k) { assert m[k] == Get(m, k); }
    forall k | k in n ensures n[k] <= Get(m, k) { assert n[k] == Get(n, k); }
    SumMapLe(m, n);
    SumMapLe(n, m);
  }

  lemma {:induction false} SumMapZero<K>(m: map<K, nat>)
    ensures SumMap(m) == 0 <==> forall k :: k in m ==> m[k] == 0
    decreases |m|
  {
    if m != map[] {
      var k :| k in m;
      SumMapRemove(m, k);
      SumMapZero(m - {k});
      assert forall j :: j in m ==> j == k || j in m - {k};
    }
  }

  lemma {:induction false} SumMapAdd<K>(m: map<K, nat>, n: map<K, nat>, r: map<K, nat>)
    requires m.Keys == n.Keys == r.Keys
    requires forall k :: k in m ==> m[k] + n[k] == r[k]
    ensures SumMap(m) + SumMap(n) == SumMap(r)
    decreases |m|
  {
    if m != map[] {
      var k :| k in m;
      SumMapRemove(m, k);
      SumMapRemove(n, k);
      SumMapRemove(r, k);
      SumMapAdd(m - {k}, n - {k}, r - {k});
    } else {
      SumMapZero(n);
      SumMapZero(r);
    }
  }

  lemma SumMapOne<K>(m: map<K, nat>, k: K)
    requires m.Keys == {k}
    ensures SumMap(m) == m[k]
  {
    SumMapRemove(m, k);
    SumMapZero(m - {k});
  }

  /** `Only(a, f)` restricts a weight to the bids of one bidder. */
  function Only(a: Text, f: Bid -> nat): Bid -> nat {
    (b: Bid) => if b.bidder == a then f(b) else 0
  }

  /** The per-bidder totals that the allocation and reserve loops accumulate in a map. */
  function Group(s: seq<Bid>, f: Bid -> nat): map<Text, nat> {
    if s == [] then map[] else
      var x, m := s[|s| - 1], Group(s[..|s| - 1], f);
      m[x.bidder := Get(m, x.bidder) + f(x)]
  }

  lemma {:induction false} GroupSum(s: seq<Bid>, f: Bid -> nat)
    ensures SumMap(Group(s, f)) == SumBy(s, f)
  {
    if s != [] {
      var x, m := s[|s| - 1], Group(s[..|s| - 1], f);
      GroupSum(s[..|s| - 1], f);
      SumMapUpdate(m, x.bidder, Get(m, x.bidder) + f(x));
    }
  }

  lemma {:induction false} GroupGet(s: seq<Bid>, f: Bid -> nat, a: Text)
    ensures Get(Group(s, f), a) == SumBy(s, Only(a, f))
    ensures a in Group(s, f) <==> exists b :: b in s && b.bidder == a
  {
    if s != [] {
      var n, x := |s| - 1, s[|s| - 1];
      GroupGet(s[..n], f, a);
      assert s == s[..n] + [x];
      if a == x.bidder {
        assert x in s;
      } else {
        assert forall b :: b in s && b.bidder == a ==> b in s[..n];
      }
    }
  }
}
