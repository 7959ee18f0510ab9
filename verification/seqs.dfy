/**
 * Column reductions over an in-memory table, written once for any row type:
 * counting, filtering, summing, grouping by a key, a stable descending sort
 * and pandas-style `head`.  Every operation of the engine is built from these.
 */
module Seqs {
  import opened Wrappers
  import PyNum

  /** The elements of `s` are pairwise distinct. */
  predicate NoDup<T(==)>(s: seq<T>) {
    forall i, j :: 0 <= i < j < |s| ==> s[i] != s[j]
  }

  /** The projections `proj` of the elements of `s` are pairwise distinct. */
  predicate DistinctBy<T, K(==)>(s: seq<T>, proj: T -> K) {
    forall i, j :: 0 <= i < j < |s| ==> proj(s[i]) != proj(s[j])
  }

  function Min(a: int, b: int): int { if a <= b then a else b }

  function Max(a: int, b: int): int { if a <= b then b else a }

  /** The constant one, so that counting is summing `One`. */
  function One<T>(x: T): int { 1 }

  // ---------------------------------------------------------------------------
  // Counting and filtering
  // ---------------------------------------------------------------------------

  /** Number of rows of `s` satisfying `p` (`len(df[p])`). */
  function Count<T>(s: seq<T>, p: T -> bool): (n: nat)
    ensures n <= |s|
    ensures n == 0 <==> forall i :: 0 <= i < |s| ==> !p(s[i])
  {
    if s == [] then 0
    else
      assert forall i :: 0 < i < |s| ==> s[i] == s[1..][i - 1];
      (if p(s[0]) then 1 else 0) + Count(s[1..], p)
  }

  /** The rows of `s` satisfying `p`, in table order (`df[p]`). */
  function Filter<T>(s: seq<T>, p: T -> bool): (r: seq<T>)
    ensures |r| == Count(s, p)
    ensures forall i :: 0 <= i < |r| ==> p(r[i])
    ensures multiset(r) <= multiset(s)
    ensures forall x :: x in s && p(x) ==> x in r
    ensures Subsequence(r, s)
  {
    if s == [] then []
    else
      assert s == [s[0]] + s[1..];
      var rest := Filter(s[1..], p);
      if p(s[0]) then
        SubsequenceCons(s[0], rest, s[1..]);
        [s[0]] + rest
      else
        SubsequenceSkip(rest, s[0], s[1..]);
        rest
  }

  /** `a` is `b` with some elements left out, the rest in their order. */
  ghost predicate Subsequence<T>(a: seq<T>, b: seq<T>)
  {
    if a == [] then true
    else if b == [] then false
    else if a[0] == b[0] then Subsequence(a[1..], b[1..])
    else Subsequence(a, b[1..])
  }

  /** Every sequence is a subsequence of itself. */
  lemma {:induction false} SubsequenceRefl<T>(s: seq<T>)
    ensures Subsequence(s, s)
  {
    if s != [] {
      SubsequenceRefl(s[1..]);
    }
  }

  /** Putting the same element in front of both keeps a subsequence. */
  lemma SubsequenceCons<T>(x: T, a: seq<T>, b: seq<T>)
    requires Subsequence(a, b)
    ensures Subsequence([x] + a, [x] + b)
  {
    assert ([x] + a)[1..] == a;
    assert ([x] + b)[1..] == b;
  }

  /** Skipping one more element of the longer sequence keeps a subsequence. */
  lemma {:induction false} SubsequenceSkip<T>(a: seq<T>, x: T, b: seq<T>)
    requires Subsequence(a, b)
    ensures Subsequence(a, [x] + b)
    decreases |b|, 1
  {
    assert ([x] + b)[1..] == b;
    if a != [] && a[0] == x {
      SubsequenceTail(a, b);
    }
  }

  /** Dropping the head of a subsequence keeps it a subsequence. */
  lemma {:induction false} SubsequenceTail<T>(a: seq<T>, b: seq<T>)
    requires a != [] && Subsequence(a, b)
    ensures Subsequence(a[1..], b)
    decreases |b|, 0
  {
    assert b == [b[0]] + b[1..];
    if a[0] == b[0] {
      SubsequenceSkip(a[1..], b[0], b[1..]);
    } else {
      SubsequenceTail(a, b[1..]);
      SubsequenceSkip(a[1..], b[0], b[1..]);
    }
  }

  /** Two predicates that never hold together count at most the whole table. */
  lemma {:induction false} CountDisjoint<T>(s: seq<T>, p: T -> bool, q: T -> bool)
    requires forall x :: !(p(x) && q(x))
    ensures Count(s, p) + Count(s, q) <= |s|
  {
    if s != [] {
      CountDisjoint(s[1..], p, q);
    }
  }

  // ---------------------------------------------------------------------------
  // Sums
  // ---------------------------------------------------------------------------

  /** `df[col].sum()` for an integer column `f`. */
  function Sum<T>(s: seq<T>, f: T -> int): int
  {
    if s == [] then 0 else f(s[0]) + Sum(s[1..], f)
  }

  /** `df[col].sum()` for a real column `f`. */
  function SumR<T>(s: seq<T>, f: T -> real): real
  {
    if s == [] then 0.0 else f(s[0]) + SumR(s[1..], f)
  }

  /** `df[col].mean()`: missing (NaN) for an empty table. */
  function Mean<T>(s: seq<T>, f: T -> real): (m: Option<real>)
    ensures m.Some? <==> |s| > 0
  {
    if |s| == 0 then None else Some(SumR(s, f) / (|s| as real))
  }

  /** The mean of values in [lo, hi] lies in [lo, hi]. */
  lemma MeanBounds<T>(s: seq<T>, f: T -> real, lo: real, hi: real)
    requires |s| > 0
    requires forall i :: 0 <= i < |s| ==> lo <= f(s[i]) <= hi
    ensures lo <= Mean(s, f).value <= hi
  {
    SumRBounds(s, f, lo, hi);
    var n := |s| as real;
    var m := SumR(s, f) / n;
    assert m * n == SumR(s, f);
    if m < lo {
      assert m * n < lo * n;
    }
    if m > hi {
      assert m * n > hi * n;
    }
  }

  /** Summing `1 - f` adds up to the row count less the sum of `f`. */
  lemma {:induction false} SumRComplement<T>(s: seq<T>, f: T -> real, g: T -> real)
    requires forall i :: 0 <= i < |s| ==> g(s[i]) == 1.0 - f(s[i])
    ensures SumR(s, g) == (|s| as real) - SumR(s, f)
  {
    if s != [] {
      assert forall i :: 0 <= i < |s[1..]| ==> s[1..][i] == s[i + 1];
      SumRComplement(s[1..], f, g);
    }
  }

  /** The mean of `1 - f` is one less the mean of `f`. */
  lemma MeanComplement<T>(s: seq<T>, f: T -> real, g: T -> real)
    requires |s| > 0
    requires forall i :: 0 <= i < |s| ==> g(s[i]) == 1.0 - f(s[i])
    ensures Mean(s, g).value == 1.0 - Mean(s, f).value
  {
    SumRComplement(s, f, g);
    PyNum.ShareOfRest(SumR(s, f), |s| as real);
  }

  lemma {:induction false} SumOne<T>(s: seq<T>)
    ensures Sum(s, One) == |s|
  {
    if s != [] {
      SumOne(s[1..]);
    }
  }

  /** A sum of values each in [lo, hi] lies in [|s|·lo, |s|·hi]. */
  lemma {:induction false} SumRBounds<T>(s: seq<T>, f: T -> real, lo: real, hi: real)
    requires forall i :: 0 <= i < |s| ==> lo <= f(s[i]) <= hi
    ensures (|s| as real) * lo <= SumR(s, f) <= (|s| as real) * hi
  {
    if s != [] {
      assert forall i :: 0 <= i < |s[1..]| ==> s[1..][i] == s[i + 1];
      SumRBounds(s[1..], f, lo, hi);
      assert (|s| as real) * lo == lo + (|s[1..]| as real) * lo;
      assert (|s| as real) * hi == hi + (|s[1..]| as real) * hi;
    }
  }

  // ---------------------------------------------------------------------------
  // Group-by
  // ---------------------------------------------------------------------------

  /** Sum of `f` over the rows whose key is `k` (one group of a group-by). */
  function SumKey<T, K(==)>(s: seq<T>, key: T -> K, k: K, f: T -> int): int
  {
    if s == [] then 0
    else (if key(s[0]) == k then f(s[0]) else 0) + SumKey(s[1..], key, k, f)
  }

  /** Real-valued `SumKey`. */
  function SumKeyR<T, K(==)>(s: seq<T>, key: T -> K, k: K, f: T -> real): real
  {
    if s == [] then 0.0
    else (if key(s[0]) == k then f(s[0]) else 0.0) + SumKeyR(s[1..], key, k, f)
  }

  /** Sum of `f` over the rows whose key is one of `ks`. */
  function SumKeyIn<T, K(==)>(s: seq<T>, key: T -> K, ks: seq<K>, f: T -> int): int
  {
    if s == [] then 0
    else (if key(s[0]) in ks then f(s[0]) else 0) + SumKeyIn(s[1..], key, ks, f)
  }

  /** Sum over the groups `ks` of each group's sum. */
  function SumGroups<T, K(==)>(s: seq<T>, key: T -> K, ks: seq<K>, f: T -> int): int
  {
    if ks == [] then 0 else SumKey(s, key, ks[0], f) + SumGroups(s, key, ks[1..], f)
  }

  /** The rows whose key is `k`, in table order (`df[df[col] == k]`). */
  function FilterKey<T, K(==)>(s: seq<T>, key: T -> K, k: K): (r: seq<T>)
    ensures |r| == CountKey(s, key, k)
    ensures forall i :: 0 <= i < |r| ==> key(r[i]) == k
    ensures multiset(r) <= multiset(s)
    ensures forall i :: 0 <= i < |s| && key(s[i]) == k ==> s[i] in r
    ensures Subsequence(r, s)
  {
    if s == [] then []
    else
      assert s == [s[0]] + s[1..];
      assert forall i :: 0 < i < |s| ==> s[i] == s[1..][i - 1];
      var rest := FilterKey(s[1..], key, k);
      if key(s[0]) == k then
        SubsequenceCons(s[0], rest, s[1..]);
        [s[0]] + rest
      else
        SubsequenceSkip(rest, s[0], s[1..]);
        rest
  }

  /** The number of rows with key `k`. */
  function CountKey<T, K(==)>(s: seq<T>, key: T -> K, k: K): (n: nat)
    ensures n <= |s|
    ensures n > 0 <==> exists i :: 0 <= i < |s| && key(s[i]) == k
  {
    if s == [] then 0
    else
      assert forall i :: 0 < i < |s| ==> s[i] == s[1..][i - 1];
      (if key(s[0]) == k then 1 else 0) + CountKey(s[1..], key, k)
  }

  lemma {:induction false} CountKeyIsSum<T, K>(s: seq<T>, key: T -> K, k: K)
    ensures CountKey(s, key, k) == SumKey(s, key, k, One)
  {
    if s != [] {
      CountKeyIsSum(s[1..], key, k);
    }
  }

  /** A group's sum of a non-negative 0/1-bounded column never exceeds its size. */
  lemma {:induction false} SumKeyLeCount<T, K>(s: seq<T>, key: T -> K, k: K, f: T -> int)
    requires forall x :: 0 <= f(x) <= 1
    ensures 0 <= SumKey(s, key, k, f) <= CountKey(s, key, k)
  {
    if s != [] {
      SumKeyLeCount(s[1..], key, k, f);
    }
  }

  /** A group without a row satisfying `f > 0` sums a non-negative `f` to zero. */
  lemma {:induction false} SumKeyZero<T, K>(s: seq<T>, key: T -> K, k: K, f: T -> int)
    requires forall x :: f(x) >= 0
    requires forall i :: 0 <= i < |s| && key(s[i]) == k ==> f(s[i]) == 0
    ensures SumKey(s, key, k, f) == 0
  {
    if s != [] {
      assert forall i :: 0 <= i < |s[1..]| ==> s[1..][i] == s[i + 1];
      SumKeyZero(s[1..], key, k, f);
    }
  }

  lemma {:induction false} SumGroupsCons<T, K>(x: T, s: seq<T>, key: T -> K, ks: seq<K>, f: T -> int)
    requires NoDup(ks)
    ensures SumGroups([x] + s, key, ks, f)
            == (if key(x) in ks then f(x) else 0) + SumGroups(s, key, ks, f)
  {
    if ks != [] {
      assert ([x] + s)[1..] == s;
      assert key(x) == ks[0] ==> key(x) !in ks[1..];
      SumGroupsCons(x, s, key, ks[1..], f);
    }
  }

  lemma {:induction false} SumGroupsEmpty<T, K>(key: T -> K, ks: seq<K>, f: T -> int)
    ensures SumGroups([], key, ks, f) == 0
  {
    if ks != [] {
      SumGroupsEmpty(key, ks[1..], f);
    }
  }

  /**
   * Group-by preserves sums: adding up the per-group sums over distinct keys
   * gives the sum over the rows whose key is one of them.
   */
  lemma {:induction false} GroupSum<T, K>(s: seq<T>, key: T -> K, ks: seq<K>, f: T -> int)
    requires NoDup(ks)
    ensures SumGroups(s, key, ks, f) == SumKeyIn(s, key, ks, f)
  {
    if s == [] {
      SumGroupsEmpty(key, ks, f);
    } else {
      assert s == [s[0]] + s[1..];
      SumGroupsCons(s[0], s[1..], key, ks, f);
      GroupSum(s[1..], key, ks, f);
    }
  }

  /** When every row's key is among `ks`, `SumKeyIn` is the whole sum. */
  lemma {:induction false} SumKeyInAll<T, K>(s: seq<T>, key: T -> K, ks: seq<K>, f: T -> int)
    requires forall i :: 0 <= i < |s| ==> key(s[i]) in ks
    ensures SumKeyIn(s, key, ks, f) == Sum(s, f)
  {
    if s != [] {
      assert forall i :: 0 <= i < |s[1..]| ==> s[1..][i] == s[i + 1];
      SumKeyInAll(s[1..], key, ks, f);
    }
  }

  /** For a non-negative column, `SumKeyIn` never exceeds the whole sum. */
  lemma {:induction false} SumKeyInLe<T, K>(s: seq<T>, key: T -> K, ks: seq<K>, f: T -> int)
    requires forall x :: f(x) >= 0
    ensures SumKeyIn(s, key, ks, f) <= Sum(s, f)
  {
    if s != [] {
      SumKeyInLe(s[1..], key, ks, f);
    }
  }

  /** The distinct keys of `s`, in order of first occurrence. */
  function Keys<T, K(==)>(s: seq<T>, key: T -> K): (ks: seq<K>)
    ensures NoDup(ks)
    ensures forall i :: 0 <= i < |s| ==> key(s[i]) in ks
    ensures forall k :: k in ks ==> exists i :: 0 <= i < |s| && key(s[i]) == k
  {
    if s == [] then []
    else
      var init := s[..|s| - 1];
      var ks := Keys(init, key);
      assert forall i :: 0 <= i < |init| ==> init[i] == s[i];
      if key(s[|s| - 1]) in ks then ks else ks + [key(s[|s| - 1])]
  }

  // ---------------------------------------------------------------------------
  // Ordering
  // ---------------------------------------------------------------------------

  /** `s` is ordered by `key`, largest first. */
  predicate SortedDesc<T>(s: seq<T>, key: T -> real) {
    forall i, j :: 0 <= i < j < |s| ==> key(s[j]) <= key(s[i])
  }

  /** The rows of `s` whose key equals `v`, in order: the ties at `v`. */
  function Tied<T>(s: seq<T>, key: T -> real, v: real): seq<T>
  {
    if s == [] then []
    else (if key(s[0]) == v then [s[0]] else []) + Tied(s[1..], key, v)
  }

  /**
   * Inserts `x` into the descending sequence `s` in front of the first row
   * whose key does not exceed `key(x)`.
   */
  function Insert<T>(x: T, s: seq<T>, key: T -> real): (r: seq<T>)
    requires SortedDesc(s, key)
    ensures |r| == |s| + 1
    ensures multiset(r) == multiset(s) + multiset{x}
    ensures forall i :: 0 <= i < |r| ==> r[i] == x || r[i] in s
    ensures SortedDesc(r, key)
  {
    if s == [] || key(s[0]) <= key(x) then
      [x] + s
    else
      var t := Insert(x, s[1..], key);
      InsertBehindHead(x, s, t, key);
      [s[0]] + t
  }

  /** Putting the head of `s` back in front of an insertion into its tail. */
  lemma InsertBehindHead<T>(x: T, s: seq<T>, t: seq<T>, key: T -> real)
    requires s != [] && SortedDesc(s, key) && key(x) < key(s[0])
    requires SortedDesc(t, key)
    requires multiset(t) == multiset(s[1..]) + multiset{x}
    requires forall i :: 0 <= i < |t| ==> t[i] == x || t[i] in s[1..]
    ensures multiset([s[0]] + t) == multiset(s) + multiset{x}
    ensures forall i :: 0 <= i < |t| + 1 ==> ([s[0]] + t)[i] == x || ([s[0]] + t)[i] in s
    ensures SortedDesc([s[0]] + t, key)
  {
    assert s == [s[0]] + s[1..];
    forall i | 0 <= i < |t| ensures key(t[i]) <= key(s[0]) {
      if t[i] != x {
        var j :| 0 <= j < |s[1..]| && s[1..][j] == t[i];
        assert s[j + 1] == t[i];
      }
    }
    var r := [s[0]] + t;
    forall i, j | 0 <= i < j < |r| ensures key(r[j]) <= key(r[i]) {
      assert r[j] == t[j - 1];
      if i > 0 { assert r[i] == t[i - 1]; }
    }
  }

  /**
   * Stable descending sort by `key` (insertion sort): rows with equal keys
   * keep their table order.
   */
  function SortDesc<T>(s: seq<T>, key: T -> real): (r: seq<T>)
    ensures |r| == |s|
    ensures multiset(r) == multiset(s)
    ensures SortedDesc(r, key)
  {
    if s == [] then []
    else
      assert s == [s[0]] + s[1..];
      Insert(s[0], SortDesc(s[1..], key), key)
  }

  lemma {:induction false} InsertTied<T>(x: T, s: seq<T>, key: T -> real, v: real)
    requires SortedDesc(s, key)
    ensures Tied(Insert(x, s, key), key, v)
            == (if key(x) == v then [x] else []) + Tied(s, key, v)
  {
    if s == [] || key(s[0]) <= key(x) {
      assert ([x] + s)[1..] == s;
    } else {
      var t := Insert(x, s[1..], key);
      var r := [s[0]] + t;
      assert r[1..] == t;
      InsertTied(x, s[1..], key, v);
      assert Tied(r, key, v) == (if key(s[0]) == v then [s[0]] else []) + Tied(t, key, v);
      assert Tied(s, key, v) == (if key(s[0]) == v then [s[0]] else []) + Tied(s[1..], key, v);
      if key(x) == v {
        assert key(s[0]) != v;
        assert Tied(r, key, v) == [x] + Tied(s[1..], key, v);
      } else {
        assert Tied(t, key, v) == Tied(s[1..], key, v);
      }
    }
  }

  /** Stability: sorting keeps every group of ties in table order. */
  lemma {:induction false} SortDescStable<T>(s: seq<T>, key: T -> real, v: real)
    ensures Tied(SortDesc(s, key), key, v) == Tied(s, key, v)
  {
    if s != [] {
      SortDescStable(s[1..], key, v);
      InsertTied(s[0], SortDesc(s[1..], key), key, v);
    }
  }

  lemma {:induction false} InsertSum<T>(x: T, s: seq<T>, key: T -> real, f: T -> int)
    requires SortedDesc(s, key)
    ensures Sum(Insert(x, s, key), f) == f(x) + Sum(s, f)
  {
    if s == [] || key(s[0]) <= key(x) {
      assert ([x] + s)[1..] == s;
    } else {
      var t := Insert(x, s[1..], key);
      assert ([s[0]] + t)[1..] == t;
      InsertSum(x, s[1..], key, f);
    }
  }

  /** Sorting does not change a column sum. */
  lemma {:induction false} SortDescSum<T>(s: seq<T>, key: T -> real, f: T -> int)
    ensures Sum(SortDesc(s, key), f) == Sum(s, f)
  {
    if s != [] {
      SortDescSum(s[1..], key, f);
      InsertSum(s[0], SortDesc(s[1..], key), key, f);
    }
  }

  lemma {:induction false} InsertDistinctBy<T, K>(x: T, s: seq<T>, key: T -> real, proj: T -> K)
    requires SortedDesc(s, key)
    requires DistinctBy(s, proj)
    requires forall y :: y in s ==> proj(y) != proj(x)
    ensures DistinctBy(Insert(x, s, key), proj)
  {
    if s == [] || key(s[0]) <= key(x) {
      ConsDistinctBy(x, s, proj);
    } else {
      assert forall i :: 0 <= i < |s[1..]| ==> s[1..][i] == s[i + 1];
      InsertDistinctBy(x, s[1..], key, proj);
      var t := Insert(x, s[1..], key);
      forall y | y in t
        ensures proj(y) != proj(s[0])
      {
        var j :| 0 <= j < |t| && t[j] == y;
        if y != x {
          var m :| 0 <= m < |s[1..]| && s[1..][m] == y;
          assert s[m + 1] == y;
        }
      }
      ConsDistinctBy(s[0], t, proj);
    }
  }

  /** A new head whose projection is not among the rest keeps projections distinct. */
  lemma ConsDistinctBy<T, K>(x: T, t: seq<T>, proj: T -> K)
    requires DistinctBy(t, proj)
    requires forall y :: y in t ==> proj(y) != proj(x)
    ensures DistinctBy([x] + t, proj)
  {
    var r := [x] + t;
    assert forall j :: 0 < j < |r| ==> r[j] == t[j - 1] && t[j - 1] in t;
  }

  /** Sorting keeps a column's values pairwise distinct. */
  lemma {:induction false} SortDescDistinctBy<T, K>(s: seq<T>, key: T -> real, proj: T -> K)
    requires DistinctBy(s, proj)
    ensures DistinctBy(SortDesc(s, key), proj)
  {
    if s != [] {
      assert forall i :: 0 <= i < |s[1..]| ==> s[1..][i] == s[i + 1];
      SortDescDistinctBy(s[1..], key, proj);
      var t := SortDesc(s[1..], key);
      forall y | y in t
        ensures proj(y) != proj(s[0])
      {
        assert multiset(t)[y] > 0;
        assert y in s[1..];
        var m :| 0 <= m < |s[1..]| && s[1..][m] == y;
        assert s[m + 1] == y;
      }
      InsertDistinctBy(s[0], t, key, proj);
    }
  }

  /** A prefix of a sorted sequence holds its largest keys: anything left out is no larger. */
  lemma PrefixIsTop<T>(s: seq<T>, key: T -> real, n: int)
    requires SortedDesc(s, key) && 0 <= n <= |s|
    ensures forall x :: multiset(s)[x] > multiset(s[..n])[x] ==>
              forall i :: 0 <= i < n ==> key(x) <= key(s[i])
  {
    assert s == s[..n] + s[n..];
    forall x | multiset(s)[x] > multiset(s[..n])[x]
      ensures forall i :: 0 <= i < n ==> key(x) <= key(s[i])
    {
      assert multiset(s[n..])[x] > 0;
      var j :| 0 <= j < |s[n..]| && s[n..][j] == x;
      assert s[n + j] == x;
    }
  }

  /** The ties of a prefix are a prefix of the ties. */
  lemma {:induction false} TiedOfPrefix<T>(s: seq<T>, key: T -> real, v: real, n: int)
    requires 0 <= n <= |s|
    ensures |Tied(s[..n], key, v)| <= |Tied(s, key, v)|
    ensures Tied(s[..n], key, v) == Tied(s, key, v)[..|Tied(s[..n], key, v)|]
  {
    if n > 0 {
      assert s[..n][1..] == s[1..][..n - 1];
      TiedOfPrefix(s[1..], key, v, n - 1);
    }
  }

  lemma PrefixMultiset<T>(s: seq<T>, n: int)
    requires 0 <= n <= |s|
    ensures multiset(s[..n]) <= multiset(s)
  {
    assert s == s[..n] + s[n..];
  }

  // ---------------------------------------------------------------------------
  // Truncation
  // ---------------------------------------------------------------------------

  /**
   * pandas `head(n)`: the first `n` rows; for a negative `n`, every row but
   * the last `-n`.
   */
  function Head<T>(s: seq<T>, n: int): (r: seq<T>)
    ensures n >= 0 ==> |r| == Min(n, |s|)
    ensures n < 0 ==> |r| == Max(0, |s| + n)
    ensures r == s[..|r|]
  {
    if n >= 0 then (if n <= |s| then s[..n] else s)
    else if -n <= |s| then s[..|s| + n]
    else []
  }

  /**
   * Every row of `s` that `r` leaves out (counting duplicates) has a key no
   * larger than that of any row `r` keeps.
   */
  ghost predicate KeepsTop<T>(s: seq<T>, r: seq<T>, key: T -> real)
  {
    forall x :: x in s && multiset(s)[x] > multiset(r)[x] ==>
      forall i :: 0 <= i < |r| ==> key(x) <= key(r[i])
  }

  /**
   * The first `n` rows of a stable descending sort by `key`
   * (`sort_values(key, ascending=False).head(n)`, or `nlargest(n, key)` for
   * `n >= 0`).  The rows left out are never larger than the rows kept, and
   * among equal keys the earlier rows are the ones kept.
   */
  function Ranked<T>(s: seq<T>, key: T -> real, n: int): (r: seq<T>)
    ensures n >= 0 ==> |r| == Min(n, |s|)
    ensures n < 0 ==> |r| == Max(0, |s| + n)
    ensures SortedDesc(r, key)
    ensures multiset(r) <= multiset(s)
    ensures n >= |s| ==> multiset(r) == multiset(s)
    ensures forall i :: 0 <= i < |r| ==> r[i] in s
    ensures KeepsTop(s, r, key)
    ensures forall v :: |Tied(r, key, v)| <= |Tied(s, key, v)|
    ensures forall v :: Tied(r, key, v) == Tied(s, key, v)[..|Tied(r, key, v)|]
  {
    var r := Head(SortDesc(s, key), n);
    RankedKeepsTop(s, key, n);
    forall v
      ensures |Tied(r, key, v)| <= |Tied(s, key, v)|
      ensures Tied(r, key, v) == Tied(s, key, v)[..|Tied(r, key, v)|]
    {
      RankedKeepsTies(s, key, n, v);
    }
    r
  }

  lemma RankedKeepsTop<T>(s: seq<T>, key: T -> real, n: int)
    ensures multiset(Head(SortDesc(s, key), n)) <= multiset(s)
    ensures n >= |s| ==> Head(SortDesc(s, key), n) == SortDesc(s, key)
    ensures forall i :: 0 <= i < |Head(SortDesc(s, key), n)| ==> Head(SortDesc(s, key), n)[i] in s
    ensures KeepsTop(s, Head(SortDesc(s, key), n), key)
    ensures SortedDesc(Head(SortDesc(s, key), n), key)
  {
    var sorted := SortDesc(s, key);
    var r := Head(sorted, n);
    TopOfSorted(s, sorted, key, r);
  }

  /** A prefix of a sorted permutation of `s` keeps the largest rows of `s`. */
  lemma TopOfSorted<T>(s: seq<T>, sorted: seq<T>, key: T -> real, p: seq<T>)
    requires multiset(sorted) == multiset(s) && SortedDesc(sorted, key)
    requires |p| <= |sorted| && p == sorted[..|p|]
    ensures multiset(p) <= multiset(s)
    ensures forall i :: 0 <= i < |p| ==> p[i] in s
    ensures KeepsTop(s, p, key)
    ensures SortedDesc(p, key)
  {
    var m := |p|;
    forall i, j | 0 <= i < j < m ensures key(p[j]) <= key(p[i]) {
      assert p[j] == sorted[j] && p[i] == sorted[i];
    }
    PrefixMultiset(sorted, m);
    PrefixIsTop(sorted, key, m);
    forall i | 0 <= i < m ensures p[i] in s {
      assert sorted[i] in multiset(sorted);
    }
  }

  lemma RankedKeepsTies<T>(s: seq<T>, key: T -> real, n: int, v: real)
    ensures |Tied(Head(SortDesc(s, key), n), key, v)| <= |Tied(s, key, v)|
    ensures Tied(Head(SortDesc(s, key), n), key, v)
            == Tied(s, key, v)[..|Tied(Head(SortDesc(s, key), n), key, v)|]
  {
    var sorted := SortDesc(s, key);
    TiedOfPrefix(sorted, key, v, |Head(sorted, n)|);
    SortDescStable(s, key, v);
  }
}
