/** Sequence helpers shared by the store and the views: the counterparts of
    JavaScript's Array filter / reduce / find / sort, stated once. */
module Seqs {

  datatype Option<T> = None | Some(value: T) {
    function GetOr(default: T): T {
      match this
      case Some(v) => v
      case None => default
    }
  }

  /** `a` is an order-preserving subsequence of `b`. */
  ghost predicate IsSubsequence<T>(a: seq<T>, b: seq<T>)
    decreases |b|
  {
    if |b| == 0 then |a| == 0
    else IsSubsequence(a, b[..|b| - 1])
         || (|a| > 0 && a[|a| - 1] == b[|b| - 1] && IsSubsequence(a[..|a| - 1], b[..|b| - 1]))
  }

  /** Array.prototype.filter: the elements of `s` satisfying `p`, in order. */
  function Filter<T>(s: seq<T>, p: T -> bool): (r: seq<T>)
    ensures |r| <= |s|
    ensures forall i :: 0 <= i < |r| ==> r[i] in s && p(r[i])
    ensures forall i :: 0 <= i < |s| && p(s[i]) ==> s[i] in r
    ensures IsSubsequence(r, s)
    decreases |s|
  {
    if |s| == 0 then []
    else
      var init := Filter(s[..|s| - 1], p);
      var last := s[|s| - 1];
      assert s == s[..|s| - 1] + [last];
      if p(last) then
        assert (init + [last])[..|init|] == init;
        init + [last]
      else init
  }

  /** The number of elements of `s` satisfying `p` (`filter(p).length`). */
  function Count<T>(s: seq<T>, p: T -> bool): nat
  {
    |Filter(s, p)|
  }

  /** Array.prototype.reduce((sum, x) => sum + f(x), 0). */
  function Sum<T>(s: seq<T>, f: T -> int): int
    decreases |s|
  {
    if |s| == 0 then 0 else Sum(s[..|s| - 1], f) + f(s[|s| - 1])
  }

  /** Array.prototype.findIndex on a key: the first position whose key is `k`. */
  function IndexOf<T, K(==)>(s: seq<T>, key: T -> K, k: K): (r: Option<nat>)
    ensures r.Some? ==> r.value < |s| && key(s[r.value]) == k
    ensures r.Some? ==> forall j :: 0 <= j < r.value ==> key(s[j]) != k
    ensures r.None? <==> forall j :: 0 <= j < |s| ==> key(s[j]) != k
    decreases |s|
  {
    if |s| == 0 then None
    else if key(s[0]) == k then Some(0)
    else
      match IndexOf(s[1..], key, k)
      case None => None
      case Some(i) => Some(i + 1)
  }

  /** Array.prototype.find on a key. */
  function Find<T, K(==)>(s: seq<T>, key: T -> K, k: K): (r: Option<T>)
    ensures r.Some? <==> IndexOf(s, key, k).Some?
    ensures r.Some? ==> r.value == s[IndexOf(s, key, k).value]
  {
    match IndexOf(s, key, k)
    case None => None
    case Some(i) => Some(s[i])
  }

  /** Array.prototype.map. */
  function Map<T, U>(s: seq<T>, f: T -> U): (r: seq<U>)
    ensures |r| == |s|
    ensures forall i :: 0 <= i < |s| ==> r[i] == f(s[i])
  {
    seq(|s|, i requires 0 <= i < |s| => f(s[i]))
  }

  /** `s.map((x) => (sel(x) ? f(x) : x))`: rewrite the selected elements in place. */
  function MapWhere<T>(s: seq<T>, sel: T -> bool, f: T -> T): (r: seq<T>)
    ensures |r| == |s|
    ensures forall i :: 0 <= i < |s| && sel(s[i]) ==> r[i] == f(s[i])
    ensures forall i :: 0 <= i < |s| && !sel(s[i]) ==> r[i] == s[i]
  {
    seq(|s|, i requires 0 <= i < |s| => if sel(s[i]) then f(s[i]) else s[i])
  }

  /** Rewriting elements without touching their keys leaves every lookup by key where it was. */
  lemma {:induction false} IndexOfSameKeys<T, K>(s: seq<T>, t: seq<T>, key: T -> K, k: K)
    requires |s| == |t|
    requires forall i :: 0 <= i < |s| ==> key(s[i]) == key(t[i])
    ensures IndexOf(s, key, k) == IndexOf(t, key, k)
    decreases |s|
  {
    if |s| > 0 && key(s[0]) != k {
      IndexOfSameKeys(s[1..], t[1..], key, k);
    }
  }

  /** `a` is what remains of `b` after dropping some leading elements. */
  predicate IsSuffix<T(==)>(a: seq<T>, b: seq<T>)
  {
    |a| <= |b| && b[|b| - |a|..] == a
  }

  lemma SuffixOfSelf<T>(a: seq<T>)
    ensures IsSuffix(a, a)
  {
    assert a[0..] == a;
  }

  lemma SuffixOfPrepend<T>(a: seq<T>, front: seq<T>)
    ensures IsSuffix(a, front + a)
  {
    assert (front + a)[|front|..] == a;
  }

  lemma SuffixTransitive<T>(a: seq<T>, b: seq<T>, c: seq<T>)
    requires IsSuffix(a, b) && IsSuffix(b, c)
    ensures IsSuffix(a, c)
  {
    assert c[|c| - |a|..] == c[|c| - |b|..][|b| - |a|..];
  }

  // ---------------------------------------------------------------------
  // Lemmas about Filter and Sum

  lemma {:induction false} FilterAppend<T>(s: seq<T>, t: seq<T>, p: T -> bool)
    ensures Filter(s + t, p) == Filter(s, p) + Filter(t, p)
    decreases |t|
  {
    if |t| == 0 {
      assert s + t == s;
    } else {
      var t' := t[..|t| - 1];
      assert (s + t)[..|s + t| - 1] == s + t';
      FilterAppend(s, t', p);
    }
  }

  /** The sum of `f` over the elements satisfying `p`, in one pass. */
  function SumWhere<T>(s: seq<T>, p: T -> bool, f: T -> int): int
    decreases |s|
  {
    if |s| == 0 then 0
    else SumWhere(s[..|s| - 1], p, f) + (if p(s[|s| - 1]) then f(s[|s| - 1]) else 0)
  }

  /** Filtering and then summing is summing where the predicate holds. */
  lemma {:induction false} SumFilter<T>(s: seq<T>, p: T -> bool, f: T -> int)
    ensures Sum(Filter(s, p), f) == SumWhere(s, p, f)
    decreases |s|
  {
    if |s| > 0 {
      var init, last := s[..|s| - 1], s[|s| - 1];
      SumFilter(init, p, f);
      assert Filter(s, p) == if p(last) then Filter(init, p) + [last] else Filter(init, p);
      if p(last) {
        SumSnoc(Filter(init, p), last, f);
      }
    }
  }

  /** Filtering after appending one element. */
  lemma FilterSnoc<T>(s: seq<T>, x: T, p: T -> bool)
    ensures Filter(s + [x], p) == if p(x) then Filter(s, p) + [x] else Filter(s, p)
  {
    assert (s + [x])[..|s|] == s;
  }

  /** Summing after appending one element. */
  lemma SumSnoc<T>(s: seq<T>, x: T, f: T -> int)
    ensures Sum(s + [x], f) == Sum(s, f) + f(x)
  {
    assert (s + [x])[..|s|] == s;
  }

  lemma {:induction false} SumAppend<T>(s: seq<T>, t: seq<T>, f: T -> int)
    ensures Sum(s + t, f) == Sum(s, f) + Sum(t, f)
    decreases |t|
  {
    if |t| == 0 {
      assert s + t == s;
    } else {
      var t' := t[..|t| - 1];
      assert (s + t)[..|s + t| - 1] == s + t';
      SumAppend(s, t', f);
    }
  }

  /** Filtering with two pointwise-equal predicates gives the same result. */
  lemma {:induction false} FilterExt<T>(s: seq<T>, p: T -> bool, q: T -> bool)
    requires forall x :: x in s ==> p(x) == q(x)
    ensures Filter(s, p) == Filter(s, q)
    decreases |s|
  {
    if |s| > 0 {
      FilterExt(s[..|s| - 1], p, q);
    }
  }

  /** Filtering twice is filtering by the conjunction. */
  lemma {:induction false} FilterFilter<T>(s: seq<T>, p: T -> bool, q: T -> bool, pq: T -> bool)
    requires forall x :: x in s ==> pq(x) == (p(x) && q(x))
    ensures Filter(Filter(s, p), q) == Filter(s, pq)
    decreases |s|
  {
    if |s| > 0 {
      var s' := s[..|s| - 1];
      FilterFilter(s', p, q, pq);
      var fp := Filter(s', p);
      if p(s[|s| - 1]) {
        assert (fp + [s[|s| - 1]])[..|fp|] == fp;
      }
    }
  }

  /** A predicate that holds of every element keeps the whole sequence. */
  lemma {:induction false} FilterAll<T>(s: seq<T>, p: T -> bool)
    requires forall x :: x in s ==> p(x)
    ensures Filter(s, p) == s
    decreases |s|
  {
    if |s| > 0 {
      FilterAll(s[..|s| - 1], p);
    }
  }

  /** A weaker predicate keeps an order-preserving supersequence. */
  lemma {:induction false} FilterMonotone<T>(s: seq<T>, p: T -> bool, q: T -> bool)
    requires forall x :: x in s && p(x) ==> q(x)
    ensures IsSubsequence(Filter(s, p), Filter(s, q))
    decreases |s|
  {
    if |s| > 0 {
      var s' := s[..|s| - 1];
      var last := s[|s| - 1];
      FilterMonotone(s', p, q);
      var fp, fq := Filter(s', p), Filter(s', q);
      if p(last) {
        assert (fp + [last])[..|fp|] == fp;
        assert (fq + [last])[..|fq|] == fq;
      } else if q(last) {
        assert (fq + [last])[..|fq|] == fq;
      }
    }
  }

  /** Two complementary predicates split the count of a sequence. */
  lemma {:induction false} CountPartition<T>(s: seq<T>, p: T -> bool, q: T -> bool)
    requires forall x :: x in s ==> q(x) == !p(x)
    ensures Count(s, p) + Count(s, q) == |s|
    decreases |s|
  {
    if |s| > 0 {
      CountPartition(s[..|s| - 1], p, q);
    }
  }

  /** Two predicates that never hold together count at most every element once. */
  lemma {:induction false} CountDisjoint<T>(s: seq<T>, p: T -> bool, q: T -> bool)
    requires forall x :: x in s ==> !(p(x) && q(x))
    ensures Count(s, p) + Count(s, q) <= |s|
    decreases |s|
  {
    if |s| > 0 {
      CountDisjoint(s[..|s| - 1], p, q);
    }
  }

  /** `s.slice(0, n)` on any sequence. */
  function Prefix<T>(s: seq<T>, n: nat): (r: seq<T>)
    ensures |r| <= n && |r| <= |s|
    ensures r == s[..|r|]
    ensures |s| <= n ==> r == s
    ensures |s| > n ==> |r| == n
  {
    if |s| <= n then s else s[..n]
  }

  /** Two complementary predicates split a sum. */
  lemma {:induction false} SumPartition<T>(s: seq<T>, p: T -> bool, q: T -> bool, f: T -> int)
    requires forall x :: x in s ==> q(x) == !p(x)
    ensures Sum(Filter(s, p), f) + Sum(Filter(s, q), f) == Sum(s, f)
    decreases |s|
  {
    if |s| > 0 {
      var s' := s[..|s| - 1];
      var last := s[|s| - 1];
      SumPartition(s', p, q, f);
      if p(last) {
        SumAppend(Filter(s', p), [last], f);
      } else {
        SumAppend(Filter(s', q), [last], f);
      }
    }
  }

  /** A sum of non-negative terms is non-negative. */
  lemma {:induction false} SumNonNegative<T>(s: seq<T>, f: T -> int)
    requires forall x :: x in s ==> f(x) >= 0
    ensures Sum(s, f) >= 0
    decreases |s|
  {
    if |s| > 0 {
      SumNonNegative(s[..|s| - 1], f);
    }
  }

  /** Narrowing a filter can only lower a sum of non-negative terms. */
  lemma {:induction false} SumFilterMonotone<T>(s: seq<T>, p: T -> bool, q: T -> bool, f: T -> int)
    requires forall x :: x in s && p(x) ==> q(x)
    requires forall x :: x in s && q(x) ==> f(x) >= 0
    ensures Sum(Filter(s, p), f) <= Sum(Filter(s, q), f)
    decreases |s|
  {
    if |s| > 0 {
      var s' := s[..|s| - 1];
      var last := s[|s| - 1];
      SumFilterMonotone(s', p, q, f);
      if p(last) {
        SumAppend(Filter(s', p), [last], f);
        SumAppend(Filter(s', q), [last], f);
      } else if q(last) {
        SumAppend(Filter(s', q), [last], f);
      }
    }
  }

  /** Replacing one element changes a sum by the difference of its terms. */
  lemma {:induction false} SumUpdate<T>(s: seq<T>, i: nat, x: T, f: T -> int)
    requires i < |s|
    ensures Sum(s[i := x], f) == Sum(s, f) - f(s[i]) + f(x)
    decreases |s|
  {
    var t := s[i := x];
    assert t[..|t| - 1] == if i == |s| - 1 then s[..|s| - 1] else s[..|s| - 1][i := x];
    if i < |s| - 1 {
      SumUpdate(s[..|s| - 1], i, x, f);
    }
  }

  /** Sums computed with pointwise-equal term functions agree. */
  lemma {:induction false} SumExt<T>(s: seq<T>, f: T -> int, g: T -> int)
    requires forall x :: x in s ==> f(x) == g(x)
    ensures Sum(s, f) == Sum(s, g)
    decreases |s|
  {
    if |s| > 0 {
      SumExt(s[..|s| - 1], f, g);
    }
  }

  /** Summing the images of a map is summing the composed term. */
  lemma {:induction false} SumMap<T, U>(s: seq<T>, f: T -> U, g: U -> int, h: T -> int)
    requires forall x :: x in s ==> g(f(x)) == h(x)
    ensures Sum(Map(s, f), g) == Sum(s, h)
    decreases |s|
  {
    if |s| > 0 {
      var s' := s[..|s| - 1];
      assert Map(s, f)[..|s| - 1] == Map(s', f);
      SumMap(s', f, g, h);
    }
  }

  /** A predicate that fails at one position only drops exactly that element. */
  lemma FilterDropsOne<T>(s: seq<T>, p: T -> bool, k: nat)
    requires k < |s| && !p(s[k])
    requires forall i :: 0 <= i < |s| && i != k ==> p(s[i])
    ensures Filter(s, p) == s[..k] + s[k + 1..]
  {
    var front, back := s[..k], s[k + 1..];
    forall x | x in front ensures p(x) {
      var i :| 0 <= i < |front| && front[i] == x;
      assert s[i] == x;
    }
    forall x | x in back ensures p(x) {
      var i :| 0 <= i < |back| && back[i] == x;
      assert s[k + 1 + i] == x;
    }
    FilterAll(front, p);
    FilterAll(back, p);
    FilterSnoc(front, s[k], p);
    SplitAround(s, k);
    FilterAppend(front + [s[k]], back, p);
  }

  lemma SplitAround<T>(s: seq<T>, k: nat)
    requires k < |s|
    ensures s == (s[..k] + [s[k]]) + s[k + 1..]
  {
  }

  // ---------------------------------------------------------------------
  // Sorting: Array.prototype.sort with a comparator, on a fresh copy

  /** The comparator is a total preorder when read as "cmp(a, b) <= 0". */
  ghost predicate TotalPreorder<T(!new)>(cmp: (T, T) -> int)
  {
    && (forall a, b :: cmp(a, b) <= 0 || cmp(b, a) <= 0)
    && (forall a, b, c :: cmp(a, b) <= 0 && cmp(b, c) <= 0 ==> cmp(a, c) <= 0)
  }

  ghost predicate SortedBy<T>(s: seq<T>, cmp: (T, T) -> int)
  {
    forall i, j :: 0 <= i < j < |s| ==> cmp(s[i], s[j]) <= 0
  }

  /** Inserts `x` after every element that does not compare above it. */
  function Insert<T>(s: seq<T>, x: T, cmp: (T, T) -> int): (r: seq<T>)
    ensures multiset(r) == multiset(s) + multiset{x}
    ensures |r| == |s| + 1
    decreases |s|
  {
    if |s| == 0 then [x]
    else if cmp(s[|s| - 1], x) <= 0 then
      assert s == s[..|s| - 1] + [s[|s| - 1]];
      s + [x]
    else
      assert s == s[..|s| - 1] + [s[|s| - 1]];
      Insert(s[..|s| - 1], x, cmp) + [s[|s| - 1]]
  }

  /** A stable insertion sort of a copy of `s`. */
  function SortBy<T>(s: seq<T>, cmp: (T, T) -> int): (r: seq<T>)
    ensures multiset(r) == multiset(s)
    ensures |r| == |s|
    decreases |s|
  {
    if |s| == 0 then []
    else
      assert s == s[..|s| - 1] + [s[|s| - 1]];
      Insert(SortBy(s[..|s| - 1], cmp), s[|s| - 1], cmp)
  }

  lemma {:induction false} InsertSorted<T(!new)>(s: seq<T>, x: T, cmp: (T, T) -> int)
    requires TotalPreorder(cmp)
    requires SortedBy(s, cmp)
    ensures SortedBy(Insert(s, x, cmp), cmp)
    decreases |s|
  {
    if |s| > 0 && cmp(s[|s| - 1], x) <= 0 {
      var r := s + [x];
      forall i, j | 0 <= i < j < |r|
        ensures cmp(r[i], r[j]) <= 0
      {
        if j == |r| - 1 && i < |s| - 1 {
          assert cmp(s[i], s[|s| - 1]) <= 0;
        }
      }
    } else if |s| > 0 {
      var s' := s[..|s| - 1];
      var last := s[|s| - 1];
      assert SortedBy(s', cmp);
      InsertSorted(s', x, cmp);
      var r' := Insert(s', x, cmp);
      assert cmp(x, last) <= 0;
      forall y | y in r'
        ensures cmp(y, last) <= 0
      {
        assert y in multiset(r');
        if y != x {
          assert y in multiset(s');
          var k :| 0 <= k < |s'| && s'[k] == y;
          assert s[k] == y;
        }
      }
      var r := r' + [last];
      forall i, j | 0 <= i < j < |r|
        ensures cmp(r[i], r[j]) <= 0
      {
        if j == |r| - 1 {
          assert r[i] in r';
        } else {
          assert r[i] == r'[i] && r[j] == r'[j];
        }
      }
    }
  }

  /** The sort yields a permutation ordered by the comparator. */
  lemma {:induction false} SortBySorted<T(!new)>(s: seq<T>, cmp: (T, T) -> int)
    requires TotalPreorder(cmp)
    ensures SortedBy(SortBy(s, cmp), cmp)
    decreases |s|
  {
    if |s| > 0 {
      SortBySorted(s[..|s| - 1], cmp);
      InsertSorted(SortBy(s[..|s| - 1], cmp), s[|s| - 1], cmp);
    }
  }

  /** The elements that tie with `z` under `cmp`. */
  function TiedWith<T>(cmp: (T, T) -> int, z: T): T -> bool
  {
    (y: T) => cmp(y, z) <= 0 && cmp(z, y) <= 0
  }

  /** Inserting `x` places it after every element it ties with. */
  lemma {:induction false} InsertKeepsTies<T(!new)>(s: seq<T>, x: T, cmp: (T, T) -> int, z: T)
    requires TotalPreorder(cmp)
    ensures Filter(Insert(s, x, cmp), TiedWith(cmp, z)) == Filter(s, TiedWith(cmp, z)) + Filter([x], TiedWith(cmp, z))
    decreases |s|
  {
    var tied := TiedWith(cmp, z);
    if |s| == 0 {
    } else if cmp(s[|s| - 1], x) <= 0 {
      FilterAppend(s, [x], tied);
    } else {
      var s' := s[..|s| - 1];
      var last := s[|s| - 1];
      assert s == s' + [last];
      InsertKeepsTies(s', x, cmp, z);
      FilterAppend(Insert(s', x, cmp), [last], tied);
      FilterAppend(s', [last], tied);
      FilterAppend(s', [x], tied);
      // `x` and `last` cannot both tie with `z`, since then `last` would not compare above `x`
      assert !(tied(x) && tied(last));
    }
  }

  /** The sort is stable: the elements of each tie class keep their relative order. */
  lemma {:induction false} SortByStable<T(!new)>(s: seq<T>, cmp: (T, T) -> int, z: T)
    requires TotalPreorder(cmp)
    ensures Filter(SortBy(s, cmp), TiedWith(cmp, z)) == Filter(s, TiedWith(cmp, z))
    decreases |s|
  {
    if |s| > 0 {
      var s' := s[..|s| - 1];
      assert s == s' + [s[|s| - 1]];
      SortByStable(s', cmp, z);
      InsertKeepsTies(SortBy(s', cmp), s[|s| - 1], cmp, z);
      FilterAppend(s', [s[|s| - 1]], TiedWith(cmp, z));
    }
  }

  /** The first element of a sorted sequence compares at or below every element. */
  lemma SortedHeadIsLeast<T(!new)>(s: seq<T>, cmp: (T, T) -> int, x: T)
    requires TotalPreorder(cmp)
    requires |s| > 0 && SortedBy(s, cmp) && x in s
    ensures cmp(s[0], x) <= 0
  {
    var k :| 0 <= k < |s| && s[k] == x;
    if k > 0 {
      assert cmp(s[0], s[k]) <= 0;
    }
  }

  /** `s[k]` compares at or below every element of `s`. */
  ghost predicate IsLeastAt<T>(s: seq<T>, cmp: (T, T) -> int, k: int)
  {
    0 <= k < |s| && forall j :: 0 <= j < |s| ==> cmp(s[k], s[j]) <= 0
  }

  /** Inserting into a sorted sequence puts `x` first only when the old head
      compares strictly above it. */
  lemma {:induction false} InsertHead<T(!new)>(r: seq<T>, x: T, cmp: (T, T) -> int)
    requires TotalPreorder(cmp)
    requires |r| > 0 && SortedBy(r, cmp)
    ensures Insert(r, x, cmp)[0] == if cmp(r[0], x) <= 0 then r[0] else x
    decreases |r|
  {
    var last := r[|r| - 1];
    if cmp(last, x) <= 0 {
      if |r| > 1 {
        assert cmp(r[0], last) <= 0;
      }
    } else if |r| > 1 {
      var r' := r[..|r| - 1];
      assert SortedBy(r', cmp);
      InsertHead(r', x, cmp);
    }
  }

  lemma Transitive<T(!new)>(cmp: (T, T) -> int, a: T, b: T, c: T)
    requires TotalPreorder(cmp)
    requires cmp(a, b) <= 0 && cmp(b, c) <= 0
    ensures cmp(a, c) <= 0
  {
  }

  lemma LeastOfPrefixExtends<T>(s: seq<T>, cmp: (T, T) -> int, i: int)
    requires |s| > 0 && IsLeastAt(s[..|s| - 1], cmp, i)
    requires cmp(s[i], s[|s| - 1]) <= 0
    ensures IsLeastAt(s, cmp, i)
  {
    forall k | 0 <= k < |s|
      ensures cmp(s[i], s[k]) <= 0
    {
      if k < |s| - 1 {
        assert s[k] == s[..|s| - 1][k];
      }
    }
  }

  /** The stable sort starts with the first element that is least: among
      equally small elements the earliest wins. */
  lemma {:induction false} SortByHeadIsFirstLeast<T(!new)>(s: seq<T>, cmp: (T, T) -> int, j: nat)
    requires TotalPreorder(cmp)
    requires IsLeastAt(s, cmp, j)
    requires forall i :: 0 <= i < j ==> !IsLeastAt(s, cmp, i)
    ensures SortBy(s, cmp)[0] == s[j]
    decreases |s|
  {
    var n := |s|;
    if n > 1 {
      var s' := s[..n - 1];
      var x := s[n - 1];
      var sorted' := SortBy(s', cmp);
      SortBySorted(s', cmp);
      InsertHead(sorted', x, cmp);
      var i0 := SortByHeadIsLeast(s', cmp);
      var h := sorted'[0];
      if cmp(h, x) <= 0 {
        if j == n - 1 {
          LeastOfPrefixExtends(s, cmp, i0);
          assert false;
        }
        FirstLeastOfPrefix(s, s', cmp, j, i0);
        SortByHeadIsFirstLeast(s', cmp, j);
      } else {
        LeastBeforeLast(s, cmp, j, i0);
      }
    }
  }

  /** When the prefix's least element does not compare above the last one,
      the first least element of the whole is the first least of the prefix. */
  lemma FirstLeastOfPrefix<T(!new)>(s: seq<T>, s': seq<T>, cmp: (T, T) -> int, j: nat, i0: nat)
    requires TotalPreorder(cmp)
    requires |s| > 1 && s' == s[..|s| - 1]
    requires IsLeastAt(s', cmp, i0) && cmp(s[i0], s[|s| - 1]) <= 0
    requires IsLeastAt(s, cmp, j) && forall i :: 0 <= i < j ==> !IsLeastAt(s, cmp, i)
    ensures j < |s'| && IsLeastAt(s', cmp, j)
    ensures forall i :: 0 <= i < j ==> !IsLeastAt(s', cmp, i)
  {
    LeastOfPrefixExtends(s, cmp, i0);
    forall i | 0 <= i < j
      ensures !IsLeastAt(s', cmp, i)
    {
      if IsLeastAt(s', cmp, i) {
        LeastOfPrefixExtends(s, cmp, i);
      }
    }
    forall k | 0 <= k < |s'|
      ensures cmp(s'[j], s'[k]) <= 0
    {
      assert s'[k] == s[k];
    }
  }

  /** When the first least element lies before the last one, the least
      element of the prefix does not compare above the last. */
  lemma LeastBeforeLast<T(!new)>(s: seq<T>, cmp: (T, T) -> int, j: nat, i0: nat)
    requires TotalPreorder(cmp)
    requires |s| > 1 && IsLeastAt(s[..|s| - 1], cmp, i0) && IsLeastAt(s, cmp, j)
    ensures j < |s| - 1 ==> cmp(s[i0], s[|s| - 1]) <= 0
  {
    if j < |s| - 1 {
      assert cmp(s[i0], s[..|s| - 1][j]) <= 0;
      Transitive(cmp, s[i0], s[j], s[|s| - 1]);
    }
  }

  /** The head of a sorted copy is an element of the original that is least there. */
  lemma SortByHeadIsLeast<T(!new)>(s: seq<T>, cmp: (T, T) -> int) returns (i0: nat)
    requires TotalPreorder(cmp)
    requires |s| > 0
    ensures IsLeastAt(s, cmp, i0) && s[i0] == SortBy(s, cmp)[0]
  {
    var sorted := SortBy(s, cmp);
    SortBySorted(s, cmp);
    assert sorted[0] in multiset(s);
    i0 :| 0 <= i0 < |s| && s[i0] == sorted[0];
    forall k | 0 <= k < |s|
      ensures cmp(sorted[0], s[k]) <= 0
    {
      assert s[k] in multiset(sorted);
      SortedHeadIsLeast(sorted, cmp, s[k]);
    }
  }
}
