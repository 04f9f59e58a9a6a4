/** The array primitives the views chain: `Array.prototype.filter`, `Array.prototype.sort` with
    a descending numeric comparator (stable, as ECMAScript 2019 requires), `slice(0, n)` and a
    summing `reduce`. */
module Seqs {

  /** Non-increasing by `key`: what a comparator `(a, b) => key(b) - key(a)` sorts into. */
  ghost predicate SortedDesc<T>(s: seq<T>, key: T -> int)
  {
    forall i, j :: 0 <= i < j < |s| ==> key(s[i]) >= key(s[j])
  }

  /** Inserts `x` in front of the first element whose key is not greater, so that `x`, which
      comes first in the input, stays in front of the elements with an equal key. */
  function InsertDesc<T>(x: T, s: seq<T>, key: T -> int): (r: seq<T>)
    ensures |r| == |s| + 1 && (r[0] == x || (s != [] && r[0] == s[0]))
  {
    if s == [] || key(x) >= key(s[0]) then [x] + s else [s[0]] + InsertDesc(x, s[1..], key)
  }

  lemma {:induction false} InsertDescSorted<T>(x: T, s: seq<T>, key: T -> int)
    requires SortedDesc(s, key)
    ensures SortedDesc(InsertDesc(x, s, key), key)
    decreases |s|
  {
    if s == [] || key(x) >= key(s[0]) {
      ConsSorted(x, s, key);
    } else {
      var rest := InsertDesc(x, s[1..], key);
      TailSorted(s, key);
      InsertDescSorted(x, s[1..], key);
      assert key(rest[0]) <= key(s[0]);
      ConsSorted(s[0], rest, key);
    }
  }

  lemma {:induction false} InsertDescPerm<T>(x: T, s: seq<T>, key: T -> int)
    ensures multiset(InsertDesc(x, s, key)) == multiset(s) + multiset{x}
    decreases |s|
  {
    if !(s == [] || key(x) >= key(s[0])) {
      InsertDescPerm(x, s[1..], key);
      HeadMultiset(s);
    }
  }

  lemma TailSorted<T>(s: seq<T>, key: T -> int)
    requires s != [] && SortedDesc(s, key)
    ensures SortedDesc(s[1..], key)
  {
    forall i, j | 0 <= i < j < |s| - 1 ensures key(s[1..][i]) >= key(s[1..][j]) {
      assert s[1..][i] == s[i + 1] && s[1..][j] == s[j + 1];
    }
  }

  lemma ConsSorted<T>(x: T, s: seq<T>, key: T -> int)
    requires SortedDesc(s, key) && (s == [] || key(x) >= key(s[0]))
    ensures SortedDesc([x] + s, key)
  {
    forall i, j | 0 <= i < j < |[x] + s| ensures key(([x] + s)[i]) >= key(([x] + s)[j]) {
      if i == 0 {
        assert ([x] + s)[j] == s[j - 1];
      } else {
        assert ([x] + s)[i] == s[i - 1] && ([x] + s)[j] == s[j - 1];
      }
    }
  }

  lemma HeadMultiset<T>(s: seq<T>)
    requires s != []
    ensures multiset(s) == multiset{s[0]} + multiset(s[1..])
  {
    assert s == [s[0]] + s[1..];
  }

  /** A stable sort into non-increasing `key` order. */
  function SortDesc<T>(s: seq<T>, key: T -> int): (r: seq<T>)
    ensures SortedDesc(r, key)
    ensures multiset(r) == multiset(s)
    ensures |r| == |s|
  {
    if s == [] then []
    else
      var t := SortDesc(s[1..], key);
      InsertDescSorted(s[0], t, key);
      InsertDescPerm(s[0], t, key);
      HeadMultiset(s);
      InsertDesc(s[0], t, key)
  }

  /** The elements whose key is `v`, in the order they have in `s`. */
  function WithKey<T>(s: seq<T>, key: T -> int, v: int): seq<T>
  {
    if s == [] then [] else (if key(s[0]) == v then [s[0]] else []) + WithKey(s[1..], key, v)
  }

  /** Inserting `x` passes over no element with the key of `x`. */
  lemma {:induction false} InsertDescWithKey<T>(x: T, s: seq<T>, key: T -> int, v: int)
    ensures WithKey(InsertDesc(x, s, key), key, v) == (if key(x) == v then [x] else []) + WithKey(s, key, v)
    decreases |s|
  {
    var r := InsertDesc(x, s, key);
    if s == [] || key(x) >= key(s[0]) {
      assert r == [x] + s;
      assert r[0] == x && r[1..] == s;
    } else {
      var t := InsertDesc(x, s[1..], key);
      assert r == [s[0]] + t;
      assert r[0] == s[0] && r[1..] == t;
      InsertDescWithKey(x, s[1..], key, v);
    }
  }

  /** The sort is stable: elements with equal keys keep the order they have in the input. */
  lemma {:induction false} SortDescStable<T>(s: seq<T>, key: T -> int, v: int)
    ensures WithKey(SortDesc(s, key), key, v) == WithKey(s, key, v)
  {
    if s != [] {
      SortDescStable(s[1..], key, v);
      InsertDescWithKey(s[0], SortDesc(s[1..], key), key, v);
    }
  }

  function Min(a: int, b: int): int
  {
    if a <= b then a else b
  }

  /** `s.slice(0, n)`. */
  function Take<T>(s: seq<T>, n: nat): (r: seq<T>)
    ensures |r| == Min(n, |s|) && r == s[..|r|]
  {
    s[..Min(n, |s|)]
  }

  /** Cutting a sorted sequence keeps its largest elements: nothing cut off is above anything kept. */
  lemma TakeKeepsLargest<T>(s: seq<T>, n: nat, key: T -> int)
    requires SortedDesc(s, key)
    ensures SortedDesc(Take(s, n), key)
    ensures forall x, k :: x in multiset(s) - multiset(Take(s, n)) && 0 <= k < |Take(s, n)| ==>
      key(x) <= key(Take(s, n)[k])
  {
    var t := Take(s, n);
    PrefixSorted(s, |t|, key);
    TakeRest(s, n);
    RestBelow(s, |t|, key);
  }

  /** An element `slice(0, n)` cuts off is not above any element kept. */
  lemma TakeDropped<T>(s: seq<T>, n: nat, key: T -> int, x: T)
    requires SortedDesc(s, key) && x in multiset(s) && x !in multiset(Take(s, n))
    ensures forall k :: 0 <= k < |Take(s, n)| ==> key(x) <= key(Take(s, n)[k])
  {
    TakeKeepsLargest(s, n, key);
    assert x in multiset(s) - multiset(Take(s, n));
  }

  lemma RestBelow<T>(s: seq<T>, n: nat, key: T -> int)
    requires n <= |s| && SortedDesc(s, key)
    ensures forall x, k :: x in multiset(s[n..]) && 0 <= k < n ==> key(x) <= key(s[..n][k])
  {
    forall x, k | x in multiset(s[n..]) && 0 <= k < n ensures key(x) <= key(s[..n][k]) {
      assert x in s[n..];
      var m :| 0 <= m < |s| - n && s[n..][m] == x;
      assert s[n + m] == x && s[k] == s[..n][k];
    }
  }

  lemma PrefixSorted<T>(s: seq<T>, n: nat, key: T -> int)
    requires n <= |s| && SortedDesc(s, key)
    ensures SortedDesc(s[..n], key)
  {
    forall i, j | 0 <= i < j < n ensures key(s[..n][i]) >= key(s[..n][j]) {
      assert s[..n][i] == s[i] && s[..n][j] == s[j];
    }
  }

  /** What `slice(0, n)` cuts off is the rest of the sequence. */
  lemma TakeRest<T>(s: seq<T>, n: nat)
    ensures multiset(s) - multiset(Take(s, n)) == multiset(s[|Take(s, n)|..])
  {
    var t := Take(s, n);
    assert s == t + s[|t|..];
  }

  /** `s.filter(p)`: the elements satisfying `p`, each as often as in `s`, in their order. */
  function Filter<T>(s: seq<T>, p: T -> bool): (r: seq<T>)
    ensures |r| <= |s|
  {
    if s == [] then []
    else
      var init := s[..|s| - 1];
      var last := s[|s| - 1];
      assert s == init + [last];
      Filter(init, p) + (if p(last) then [last] else [])
  }

  /** The filtered sequence holds each element that passes as often as `s` does, and no other. */
  lemma {:induction false} FilterCount<T(!new)>(s: seq<T>, p: T -> bool)
    ensures forall x :: multiset(Filter(s, p))[x] == if p(x) then multiset(s)[x] else 0
    decreases |s|
  {
    if s != [] {
      var init := s[..|s| - 1];
      assert s == init + [s[|s| - 1]];
      FilterCount(init, p);
    }
  }

  /** Filtering by predicates that agree everywhere gives the same sequence. */
  lemma {:induction false} FilterSame<T(!new)>(s: seq<T>, p: T -> bool, q: T -> bool)
    requires forall x :: p(x) == q(x)
    ensures Filter(s, p) == Filter(s, q)
    decreases |s|
  {
    if s != [] {
      FilterSame(s[..|s| - 1], p, q);
    }
  }

  /** Filtering by a predicate nothing satisfies leaves nothing. */
  lemma FilterNone<T(!new)>(s: seq<T>, p: T -> bool)
    requires forall x :: !p(x)
    ensures Filter(s, p) == []
  {
    FilterCount(s, p);
  }

  /** `s.reduce((sum, x) => sum + f(x), 0)`. */
  function SumBy<T>(s: seq<T>, f: T -> int): int
  {
    if s == [] then 0 else SumBy(s[..|s| - 1], f) + f(s[|s| - 1])
  }

  lemma {:induction false} SumByCons<T>(x: T, s: seq<T>, f: T -> int)
    ensures SumBy([x] + s, f) == f(x) + SumBy(s, f)
    decreases |s|
  {
    if s != [] {
      assert ([x] + s)[..|[x] + s| - 1] == [x] + s[..|s| - 1];
      SumByCons(x, s[..|s| - 1], f);
    }
  }

  lemma SumByHead<T>(s: seq<T>, f: T -> int)
    requires s != []
    ensures SumBy(s, f) == f(s[0]) + SumBy(s[1..], f)
  {
    assert s == [s[0]] + s[1..];
    SumByCons(s[0], s[1..], f);
  }

  lemma {:induction false} InsertDescSum<T>(x: T, s: seq<T>, key: T -> int, f: T -> int)
    ensures SumBy(InsertDesc(x, s, key), f) == f(x) + SumBy(s, f)
    decreases |s|
  {
    if s == [] || key(x) >= key(s[0]) {
      SumByCons(x, s, f);
    } else {
      var rest := InsertDesc(x, s[1..], key);
      InsertDescSum(x, s[1..], key, f);
      SumByCons(s[0], rest, f);
      SumByHead(s, f);
    }
  }

  /** Sorting does not change a sum over the elements. */
  lemma {:induction false} SortDescSum<T>(s: seq<T>, key: T -> int, f: T -> int)
    ensures SumBy(SortDesc(s, key), f) == SumBy(s, f)
    decreases |s|
  {
    if s != [] {
      var t := SortDesc(s[1..], key);
      assert SortDesc(s, key) == InsertDesc(s[0], t, key);
      SortDescSum(s[1..], key, f);
      InsertDescSum(s[0], t, key, f);
      SumByHead(s, f);
    }
  }

  /** Filtering by two predicates no element satisfies together counts, between them, as many
      elements as filtering by their disjunction. */
  lemma {:induction false} FilterDisjoint<T(!new)>(s: seq<T>, p: T -> bool, q: T -> bool, pq: T -> bool)
    requires forall x :: !(p(x) && q(x))
    requires forall x :: pq(x) == (p(x) || q(x))
    ensures |Filter(s, p)| + |Filter(s, q)| == |Filter(s, pq)|
    decreases |s|
  {
    if s != [] {
      FilterDisjoint(s[..|s| - 1], p, q, pq);
    }
  }

  /** The same split of a sum over the elements. */
  lemma {:induction false} FilterDisjointSum<T(!new)>(s: seq<T>, p: T -> bool, q: T -> bool, pq: T -> bool, f: T -> int)
    requires forall x :: !(p(x) && q(x))
    requires forall x :: pq(x) == (p(x) || q(x))
    ensures SumBy(Filter(s, p), f) + SumBy(Filter(s, q), f) == SumBy(Filter(s, pq), f)
    decreases |s|
  {
    if s != [] {
      FilterDisjointSum(s[..|s| - 1], p, q, pq, f);
      SumByFilterStep(s, p, f);
      SumByFilterStep(s, q, f);
      SumByFilterStep(s, pq, f);
    }
  }

  /** The last element adds its value to a filtered sum exactly when it passes the filter. */
  lemma SumByFilterStep<T>(s: seq<T>, p: T -> bool, f: T -> int)
    requires s != []
    ensures SumBy(Filter(s, p), f) ==
      SumBy(Filter(s[..|s| - 1], p), f) + (if p(s[|s| - 1]) then f(s[|s| - 1]) else 0)
  {
    var init := Filter(s[..|s| - 1], p);
    if p(s[|s| - 1]) {
      SumBySnoc(init, s[|s| - 1], f);
    } else {
      assert Filter(s, p) == init + [];
      assert init + [] == init;
    }
  }

  lemma SumBySnoc<T>(s: seq<T>, x: T, f: T -> int)
    ensures SumBy(s + [x], f) == SumBy(s, f) + f(x)
  {
    assert (s + [x])[..|s|] == s;
  }

  /** No two elements share a value of `f`. */
  ghost predicate InjectiveOn<T, U>(s: seq<T>, f: T -> U)
  {
    forall i, j :: 0 <= i < j < |s| ==> f(s[i]) != f(s[j])
  }

  lemma ConsInjective<T, U>(x: T, s: seq<T>, f: T -> U)
    requires InjectiveOn(s, f) && forall k :: 0 <= k < |s| ==> f(s[k]) != f(x)
    ensures InjectiveOn([x] + s, f)
  {
    forall i, j | 0 <= i < j < |[x] + s| ensures f(([x] + s)[i]) != f(([x] + s)[j]) {
      assert ([x] + s)[j] == s[j - 1];
      if i > 0 {
        assert ([x] + s)[i] == s[i - 1];
      }
    }
  }

  lemma {:induction false} InsertDescInjective<T, U>(x: T, s: seq<T>, key: T -> int, f: T -> U)
    requires InjectiveOn(s, f) && forall k :: 0 <= k < |s| ==> f(s[k]) != f(x)
    ensures InjectiveOn(InsertDesc(x, s, key), f)
    decreases |s|
  {
    if s == [] || key(x) >= key(s[0]) {
      ConsInjective(x, s, f);
    } else {
      var rest := InsertDesc(x, s[1..], key);
      TailInjective(s, f);
      InsertDescInjective(x, s[1..], key, f);
      InsertDescPerm(x, s[1..], key);
      forall k | 0 <= k < |rest| ensures f(rest[k]) != f(s[0]) {
        assert rest[k] in multiset(rest);
        if rest[k] != x {
          assert rest[k] in s[1..];
          var m :| 0 <= m < |s[1..]| && s[1..][m] == rest[k];
          assert s[m + 1] == rest[k];
        }
      }
      ConsInjective(s[0], rest, f);
    }
  }

  lemma TailInjective<T, U>(s: seq<T>, f: T -> U)
    requires s != [] && InjectiveOn(s, f)
    ensures InjectiveOn(s[1..], f) && forall k :: 0 <= k < |s| - 1 ==> f(s[1..][k]) != f(s[0])
  {
    forall i, j | 0 <= i < j < |s| - 1 ensures f(s[1..][i]) != f(s[1..][j]) {
      assert s[1..][i] == s[i + 1] && s[1..][j] == s[j + 1];
    }
    forall k | 0 <= k < |s| - 1 ensures f(s[1..][k]) != f(s[0]) {
      assert s[1..][k] == s[k + 1];
    }
  }

  /** Sorting keeps the values of `f` distinct when they were. */
  lemma {:induction false} SortDescInjective<T, U>(s: seq<T>, key: T -> int, f: T -> U)
    requires InjectiveOn(s, f)
    ensures InjectiveOn(SortDesc(s, key), f)
    decreases |s|
  {
    if s != [] {
      var t := SortDesc(s[1..], key);
      assert SortDesc(s, key) == InsertDesc(s[0], t, key);
      TailInjective(s, f);
      SortDescInjective(s[1..], key, f);
      forall k | 0 <= k < |t| ensures f(t[k]) != f(s[0]) {
        assert t[k] in multiset(t);
        assert t[k] in s[1..];
        var m :| 0 <= m < |s[1..]| && s[1..][m] == t[k];
      }
      InsertDescInjective(s[0], t, key, f);
    }
  }
}
