/** Column operations that the dashboard's dataframe pipelines are built
    from, on a table modelled as a sequence of rows: filter, sum, group-by
    sums, distinct values, de-duplication by a key, concatenation and sort. */
module Tables {

  /** No value occurs twice. */
  predicate NoDuplicates<T(==)>(xs: seq<T>) {
    forall i, j :: 0 <= i < j < |xs| ==> xs[i] != xs[j]
  }

  /** `a` is `b` with some rows removed, the others kept in order. */
  predicate IsSubsequence<T(==)>(a: seq<T>, b: seq<T>)
    decreases |b|
  {
    a == [] || (b != [] && ((a[0] == b[0] && IsSubsequence(a[1..], b[1..])) || IsSubsequence(a, b[1..])))
  }

  lemma {:induction false} SubsequenceElements<T>(a: seq<T>, b: seq<T>)
    requires IsSubsequence(a, b)
    ensures forall x :: x in a ==> x in b
    decreases |b|
  {
    if a != [] {
      if a[0] == b[0] && IsSubsequence(a[1..], b[1..]) {
        SubsequenceElements(a[1..], b[1..]);
        assert a == [a[0]] + a[1..];
        assert b == [b[0]] + b[1..];
      } else {
        SubsequenceElements(a, b[1..]);
        assert b == [b[0]] + b[1..];
      }
    }
  }

  lemma NoDuplicatesTail<T>(xs: seq<T>)
    requires xs != [] && NoDuplicates(xs)
    ensures NoDuplicates(xs[1..]) && xs[0] !in xs[1..]
  {
    forall i, j | 0 <= i < j < |xs[1..]| ensures xs[1..][i] != xs[1..][j] {
      assert xs[1..][i] == xs[i + 1] && xs[1..][j] == xs[j + 1];
    }
    forall k | 0 <= k < |xs[1..]| ensures xs[1..][k] != xs[0] {
      assert xs[1..][k] == xs[k + 1];
    }
  }

  /** Removing rows keeps the values distinct. */
  lemma {:induction false} SubsequenceNoDuplicates<T>(a: seq<T>, b: seq<T>)
    requires IsSubsequence(a, b) && NoDuplicates(b)
    ensures NoDuplicates(a)
    decreases |b|
  {
    if a != [] {
      NoDuplicatesTail(b);
      if a[0] == b[0] && IsSubsequence(a[1..], b[1..]) {
        SubsequenceNoDuplicates(a[1..], b[1..]);
        SubsequenceElements(a[1..], b[1..]);
        forall i, j | 0 <= i < j < |a| ensures a[i] != a[j] {
          assert a[j] == a[1..][j - 1];
          if i > 0 {
            assert a[i] == a[1..][i - 1];
          }
        }
      } else {
        SubsequenceNoDuplicates(a, b[1..]);
      }
    }
  }

  /** The sum of column `f` (a polars `sum`, 0 on an empty table). */
  function Sum<T>(xs: seq<T>, f: T -> int): int {
    if xs == [] then 0 else f(xs[0]) + Sum(xs[1..], f)
  }

  /** The sum of a difference of columns is the difference of their sums. */
  lemma {:induction false} SumDifference<T>(xs: seq<T>, f: T -> int, g: T -> int, h: T -> int)
    requires forall x :: h(x) == f(x) - g(x)
    ensures Sum(xs, h) == Sum(xs, f) - Sum(xs, g)
  {
    if xs != [] {
      SumDifference(xs[1..], f, g, h);
    }
  }

  /** The sum splits over a concatenation of tables. */
  lemma {:induction false} SumAppend<T>(a: seq<T>, b: seq<T>, f: T -> int)
    ensures Sum(a + b, f) == Sum(a, f) + Sum(b, f)
  {
    if a == [] {
      assert a + b == b;
    } else {
      assert (a + b)[1..] == a[1..] + b;
      SumAppend(a[1..], b, f);
    }
  }

  /** A column whose values are all `c` sums to `c` times the row count. */
  lemma {:induction false} SumConstant<T>(xs: seq<T>, f: T -> int, c: int)
    requires forall x :: x in xs ==> f(x) == c
    ensures Sum(xs, f) == c * |xs|
  {
    if xs != [] {
      assert forall x :: x in xs[1..] ==> x in xs;
      SumConstant(xs[1..], f, c);
    }
  }

  /** A non-negative column has a non-negative sum. */
  lemma {:induction false} SumNonNegative<T>(xs: seq<T>, f: T -> int)
    requires forall x :: x in xs ==> f(x) >= 0
    ensures Sum(xs, f) >= 0
  {
    if xs != [] {
      assert forall x :: x in xs[1..] ==> x in xs;
      SumNonNegative(xs[1..], f);
    }
  }

  /** The rows satisfying `p`, in their original order (a polars `filter`). */
  function Filter<T(==,!new)>(xs: seq<T>, p: T -> bool): (r: seq<T>)
    ensures |r| <= |xs|
    ensures forall x :: x in r <==> x in xs && p(x)
    ensures IsSubsequence(r, xs)
  {
    if xs == [] then []
    else
      var rest := Filter(xs[1..], p);
      assert xs == [xs[0]] + xs[1..];
      if p(xs[0]) then
        assert ([xs[0]] + rest)[1..] == rest;
        [xs[0]] + rest
      else rest
  }

  /** Two disjoint filters together keep as many rows as the filter of
      their disjunction. */
  lemma {:induction false} FilterCountSplit<T(!new)>(xs: seq<T>, p: T -> bool, q: T -> bool, pq: T -> bool)
    requires forall x :: x in xs ==> (pq(x) <==> p(x) || q(x))
    requires forall x :: x in xs ==> !(p(x) && q(x))
    ensures |Filter(xs, p)| + |Filter(xs, q)| == |Filter(xs, pq)|
  {
    if xs != [] {
      assert forall x :: x in xs[1..] ==> x in xs;
      FilterCountSplit(xs[1..], p, q, pq);
    }
  }

  /** The sum of `f` over the rows whose `key` is `k` (one cell of a
      polars `group_by(key).agg(f.sum())`). */
  function SumWhereKey<T, K(==)>(xs: seq<T>, key: T -> K, f: T -> int, k: K): int {
    if xs == [] then 0
    else (if key(xs[0]) == k then f(xs[0]) else 0) + SumWhereKey(xs[1..], key, f, k)
  }

  /** The group sums for the keys `ks`, added up. */
  function SumPerKey<T, K(==)>(xs: seq<T>, key: T -> K, f: T -> int, ks: seq<K>): int {
    if ks == [] then 0 else SumWhereKey(xs, key, f, ks[0]) + SumPerKey(xs, key, f, ks[1..])
  }

  lemma {:induction false} SumPerKeyEmpty<T, K>(key: T -> K, f: T -> int, ks: seq<K>)
    ensures SumPerKey([], key, f, ks) == 0
  {
    if ks != [] {
      SumPerKeyEmpty(key, f, ks[1..]);
    }
  }

  lemma {:induction false} SumPerKeyCons<T, K>(x: T, xs: seq<T>, key: T -> K, f: T -> int, ks: seq<K>)
    requires NoDuplicates(ks)
    ensures SumPerKey([x] + xs, key, f, ks) == (if key(x) in ks then f(x) else 0) + SumPerKey(xs, key, f, ks)
  {
    if ks != [] {
      assert ([x] + xs)[1..] == xs;
      assert NoDuplicates(ks[1..]) by {
        forall i, j | 0 <= i < j < |ks[1..]| ensures ks[1..][i] != ks[1..][j] {
          assert ks[1..][i] == ks[i + 1] && ks[1..][j] == ks[j + 1];
        }
      }
      SumPerKeyCons(x, xs, key, f, ks[1..]);
      assert key(x) in ks <==> key(x) == ks[0] || key(x) in ks[1..];
      if key(x) == ks[0] {
        assert key(x) !in ks[1..] by {
          forall j | 0 <= j < |ks[1..]| ensures ks[1..][j] != key(x) {
            assert ks[1..][j] == ks[j + 1];
          }
        }
      }
    }
  }

  /** Group sums over a set of distinct keys covering every row add up to
      the column total: grouping neither loses nor double-counts a row. */
  lemma {:induction false} SumPerKeyTotal<T, K>(xs: seq<T>, key: T -> K, f: T -> int, ks: seq<K>)
    requires NoDuplicates(ks)
    requires forall x :: x in xs ==> key(x) in ks
    ensures SumPerKey(xs, key, f, ks) == Sum(xs, f)
  {
    if xs == [] {
      SumPerKeyEmpty(key, f, ks);
    } else {
      assert [xs[0]] + xs[1..] == xs;
      SumPerKeyCons(xs[0], xs[1..], key, f, ks);
      assert forall x :: x in xs[1..] ==> x in xs;
      SumPerKeyTotal(xs[1..], key, f, ks);
    }
  }

  /** A group sum of a column that is 1 on every row counts the group. */
  function One<T>(x: T): int {
    1
  }

  /** A group of a key that some row has is non-empty. */
  lemma {:induction false} GroupCountPositive<T, K>(xs: seq<T>, key: T -> K, k: K)
    requires exists x :: x in xs && key(x) == k
    ensures SumWhereKey(xs, key, One, k) >= 1
  {
    if key(xs[0]) != k {
      var x :| x in xs && key(x) == k;
      assert x in xs[1..] by {
        assert xs == [xs[0]] + xs[1..];
      }
      GroupCountPositive(xs[1..], key, k);
    } else {
      GroupCountNonNegative(xs[1..], key, k);
    }
  }

  lemma {:induction false} GroupCountNonNegative<T, K>(xs: seq<T>, key: T -> K, k: K)
    ensures SumWhereKey(xs, key, One, k) >= 0
  {
    if xs != [] {
      GroupCountNonNegative(xs[1..], key, k);
    }
  }

  /** Filters by predicates that agree on every row keep the same rows. */
  lemma {:induction false} FilterCongruent<T(!new)>(xs: seq<T>, p: T -> bool, q: T -> bool)
    requires forall x :: x in xs ==> p(x) == q(x)
    ensures Filter(xs, p) == Filter(xs, q)
  {
    if xs != [] {
      assert forall x :: x in xs[1..] ==> x in xs;
      FilterCongruent(xs[1..], p, q);
    }
  }

  /** The rows that satisfy `p` and the rows that satisfy its complement
      `np` together sum to the whole column. */
  lemma {:induction false} SumFilterSplit<T(!new)>(xs: seq<T>, p: T -> bool, np: T -> bool, f: T -> int)
    requires forall x :: x in xs ==> np(x) == !p(x)
    ensures Sum(Filter(xs, p), f) + Sum(Filter(xs, np), f) == Sum(xs, f)
  {
    if xs != [] {
      assert forall x :: x in xs[1..] ==> x in xs;
      SumFilterSplit(xs[1..], p, np, f);
    }
  }

  /** A group of `k` has at least two rows exactly when two rows have key
      `k`. */
  lemma {:induction false} GroupCountAtLeastTwo<T, K>(xs: seq<T>, key: T -> K, k: K)
    ensures SumWhereKey(xs, key, One, k) >= 2 <==>
      exists i, j :: 0 <= i < j < |xs| && key(xs[i]) == k && key(xs[j]) == k
  {
    if xs != [] {
      var rest := xs[1..];
      GroupCountAtLeastTwo(rest, key, k);
      GroupCountNonNegative(rest, key, k);
      if key(xs[0]) == k {
        if SumWhereKey(rest, key, One, k) >= 1 {
          GroupCountWitness(rest, key, k);
          var j :| 0 <= j < |rest| && key(rest[j]) == k;
          assert key(xs[j + 1]) == k;
        } else {
          forall i, j | 0 <= i < j < |xs| && key(xs[i]) == k
            ensures key(xs[j]) != k
          {
            assert xs[j] == rest[j - 1];
            if key(xs[j]) == k {
              GroupCountPositive(rest, key, k);
            }
          }
        }
      } else {
        if exists i, j :: 0 <= i < j < |xs| && key(xs[i]) == k && key(xs[j]) == k {
          var i, j :| 0 <= i < j < |xs| && key(xs[i]) == k && key(xs[j]) == k;
          assert key(rest[i - 1]) == k && key(rest[j - 1]) == k;
        }
        if exists i, j :: 0 <= i < j < |rest| && key(rest[i]) == k && key(rest[j]) == k {
          var i, j :| 0 <= i < j < |rest| && key(rest[i]) == k && key(rest[j]) == k;
          assert key(xs[i + 1]) == k && key(xs[j + 1]) == k;
        }
      }
    }
  }

  /** A non-empty group has a row. */
  lemma {:induction false} GroupCountWitness<T, K>(xs: seq<T>, key: T -> K, k: K)
    requires SumWhereKey(xs, key, One, k) >= 1
    ensures exists j :: 0 <= j < |xs| && key(xs[j]) == k
  {
    if key(xs[0]) != k {
      GroupCountWitness(xs[1..], key, k);
      var j :| 0 <= j < |xs[1..]| && key(xs[1..][j]) == k;
      assert key(xs[j + 1]) == k;
    }
  }

  /** The distinct values of `xs` in order of first occurrence (the keys
      of a Python dict filled by iterating over `xs`). */
  function Distinct<T(==,!new)>(xs: seq<T>): (r: seq<T>)
    ensures NoDuplicates(r)
    ensures forall x :: x in r <==> x in xs
    ensures |r| <= |xs|
  {
    if xs == [] then []
    else
      var d := Distinct(xs[..|xs| - 1]);
      assert xs == xs[..|xs| - 1] + [xs[|xs| - 1]];
      if xs[|xs| - 1] in d then d else d + [xs[|xs| - 1]]
  }

  /** A sequence without repeated values has as many values as its set. */
  lemma {:induction false} NoDuplicatesCard<T>(xs: seq<T>)
    requires NoDuplicates(xs)
    ensures |set x | x in xs| == |xs|
  {
    if xs != [] {
      var rest := xs[1..];
      assert NoDuplicates(rest) by {
        forall i, j | 0 <= i < j < |rest| ensures rest[i] != rest[j] {
          assert rest[i] == xs[i + 1] && rest[j] == xs[j + 1];
        }
      }
      NoDuplicatesCard(rest);
      assert xs[0] !in rest by {
        forall k | 0 <= k < |rest| ensures rest[k] != xs[0] {
          assert rest[k] == xs[k + 1];
        }
      }
      assert (set x | x in xs) == (set x | x in rest) + {xs[0]} by {
        assert xs == [xs[0]] + rest;
      }
    }
  }

  /** The number of distinct values is the number of values in the set
      (a polars `unique().len()`). */
  lemma DistinctCard<T(!new)>(xs: seq<T>)
    ensures |Distinct(xs)| == |set x | x in xs|
  {
    NoDuplicatesCard(Distinct(xs));
    assert (set x | x in Distinct(xs)) == (set x | x in xs);
  }

  /** A new row adds its value to the distinct values when it was not
      there yet, at the end. */
  lemma DistinctSnoc<T(!new)>(xs: seq<T>, y: T)
    ensures Distinct(xs + [y]) == if y in xs then Distinct(xs) else Distinct(xs) + [y]
  {
    assert (xs + [y])[..|xs|] == xs;
  }

  /** The total multiplicity in `m` of the values listed in `ks`. */
  function MultiplicitySum<T>(ks: seq<T>, m: multiset<T>): int {
    if ks == [] then 0 else m[ks[0]] + MultiplicitySum(ks[1..], m)
  }

  lemma {:induction false} MultiplicitySumSnoc<T>(ks: seq<T>, y: T, m: multiset<T>)
    ensures MultiplicitySum(ks + [y], m) == MultiplicitySum(ks, m) + m[y]
  {
    if ks != [] {
      assert (ks + [y])[1..] == ks[1..] + [y];
      MultiplicitySumSnoc(ks[1..], y, m);
    }
  }

  lemma {:induction false} MultiplicitySumAdd<T>(ks: seq<T>, y: T, m: multiset<T>)
    requires NoDuplicates(ks)
    ensures MultiplicitySum(ks, m + multiset{y}) == MultiplicitySum(ks, m) + (if y in ks then 1 else 0)
  {
    if ks != [] {
      assert NoDuplicates(ks[1..]) by {
        forall i, j | 0 <= i < j < |ks[1..]| ensures ks[1..][i] != ks[1..][j] {
          assert ks[1..][i] == ks[i + 1] && ks[1..][j] == ks[j + 1];
        }
      }
      MultiplicitySumAdd(ks[1..], y, m);
      assert ks == [ks[0]] + ks[1..];
      if ks[0] == y {
        assert y !in ks[1..] by {
          forall i | 0 <= i < |ks[1..]| ensures ks[1..][i] != y {
            assert ks[1..][i] == ks[i + 1];
          }
        }
      }
    }
  }

  /** The multiplicities of the distinct values add up to the row count
      (the quantities of a dict counter add up to the number of items). */
  lemma {:induction false} DistinctMultiplicities<T(!new)>(xs: seq<T>)
    ensures MultiplicitySum(Distinct(xs), multiset(xs)) == |xs|
  {
    if xs != [] {
      var init := xs[..|xs| - 1];
      var y := xs[|xs| - 1];
      assert xs == init + [y];
      assert multiset(xs) == multiset(init) + multiset{y};
      DistinctMultiplicities(init);
      var d := Distinct(init);
      MultiplicitySumAdd(d, y, multiset(init));
      if y !in d {
        MultiplicitySumSnoc(d, y, multiset(xs));
        assert multiset(init)[y] == 0;
      }
    }
  }

  /** The position of the first occurrence of `x`. */
  function FirstIndex<T(==)>(xs: seq<T>, x: T): (r: nat)
    requires x in xs
    ensures r < |xs| && xs[r] == x
    ensures forall k :: 0 <= k < r ==> xs[k] != x
  {
    if xs[0] == x then 0 else 1 + FirstIndex(xs[1..], x)
  }

  /** Distinct lists values in the order in which they first occur. */
  lemma {:induction false} DistinctFirstOccurrenceOrder<T(!new)>(xs: seq<T>, i: nat, j: nat)
    requires i < j < |Distinct(xs)|
    ensures FirstIndex(xs, Distinct(xs)[i]) < FirstIndex(xs, Distinct(xs)[j])
  {
    var n := |xs|;
    var p := xs[..n - 1];
    var d := Distinct(p);
    assert xs == p + [xs[n - 1]];
    var a, b := Distinct(xs)[i], Distinct(xs)[j];
    assert a in p by {
      if xs[n - 1] !in d {
        assert i < |d| && a == d[i];
      }
    }
    FirstIndexPrefix(xs, p, a);
    if j < |d| {
      assert a == d[i] && b == d[j];
      FirstIndexPrefix(xs, p, b);
      DistinctFirstOccurrenceOrder(p, i, j);
    } else {
      assert b == xs[n - 1] && b !in p;
      assert FirstIndex(xs, b) == n - 1;
    }
  }

  /** A value that occurs in a prefix is first found inside that prefix. */
  lemma FirstIndexPrefix<T>(xs: seq<T>, p: seq<T>, x: T)
    requires p <= xs && x in p
    ensures FirstIndex(xs, x) == FirstIndex(p, x)
  {
    var r, s := FirstIndex(xs, x), FirstIndex(p, x);
    assert xs[s] == x;
    assert r <= s;
    assert p[r] == x;
  }

  /** Past the first element, a sequence with an element in front is the
      original shifted by one. */
  lemma ConsIndex<T>(x: T, xs: seq<T>, k: int)
    requires 1 <= k <= |xs|
    ensures ([x] + xs)[k] == xs[k - 1]
  {
  }

  /** A prefix one longer is the prefix followed by the next element. */
  lemma TakeSnoc<T>(xs: seq<T>, i: int)
    requires 0 <= i < |xs|
    ensures xs[..i + 1] == xs[..i] + [xs[i]]
  {
  }

  /** The keys in ascending order. */
  predicate StrictlyIncreasing(xs: seq<int>) {
    forall i, j :: 0 <= i < j < |xs| ==> xs[i] < xs[j]
  }

  lemma ConsIncreasing(x: int, s: seq<int>)
    requires StrictlyIncreasing(s) && forall y :: y in s ==> y > x
    ensures StrictlyIncreasing([x] + s)
  {
    var r := [x] + s;
    forall i, j | 0 <= i < j < |r| ensures r[i] < r[j] {
      assert r[j] == s[j - 1] && s[j - 1] in s;
      if i > 0 {
        assert r[i] == s[i - 1];
      }
    }
  }

  function InsertAscending(x: int, s: seq<int>): (r: seq<int>)
    requires StrictlyIncreasing(s)
    ensures StrictlyIncreasing(r)
    ensures forall y :: y in r <==> y == x || y in s
  {
    if s == [] then [x]
    else if x < s[0] then [x] + s
    else if x == s[0] then s
    else
      var rest := InsertAscending(x, s[1..]);
      assert forall y :: y in rest ==> y > s[0];
      ConsIncreasing(s[0], rest);
      [s[0]] + rest
  }

  /** The distinct values of `xs` in ascending order (a polars
      `group_by(key)` followed by `sort(key)`). */
  function AscendingDistinct(xs: seq<int>): (r: seq<int>)
    ensures StrictlyIncreasing(r)
    ensures forall y :: y in r <==> y in xs
  {
    if xs == [] then []
    else
      assert xs == [xs[0]] + xs[1..];
      InsertAscending(xs[0], AscendingDistinct(xs[1..]))
  }

  lemma StrictlyIncreasingNoDuplicates(xs: seq<int>)
    requires StrictlyIncreasing(xs)
    ensures NoDuplicates(xs)
  {
  }

  /** Two ascending lists of the same values are the same list. */
  lemma {:induction false} AscendingUnique(a: seq<int>, b: seq<int>)
    requires StrictlyIncreasing(a) && StrictlyIncreasing(b)
    requires forall y :: y in a <==> y in b
    ensures a == b
  {
    SameElementsEmpty(a, b);
    if a != [] {
      assert a[0] in a && b[0] in b;
      var ka :| 0 <= ka < |b| && b[ka] == a[0];
      var kb :| 0 <= kb < |a| && a[kb] == b[0];
      assert b[0] <= b[ka] && a[0] <= a[kb];
      TailSubset(a, b);
      TailSubset(b, a);
      AscendingUnique(a[1..], b[1..]);
      assert a == [a[0]] + a[1..] && b == [b[0]] + b[1..];
    }
  }

  /** Of two ascending sequences with the same first value, where every
      value of the first is in the second, the same holds of their tails. */
  lemma TailSubset(a: seq<int>, b: seq<int>)
    requires StrictlyIncreasing(a) && StrictlyIncreasing(b)
    requires a != [] && b != [] && a[0] == b[0]
    requires forall y :: y in a ==> y in b
    ensures forall y :: y in a[1..] ==> y in b[1..]
  {
    forall y | y in a[1..] ensures y in b[1..] {
      var k :| 0 <= k < |a[1..]| && a[1..][k] == y;
      assert a[k + 1] == y && a[0] < y;
      assert y in b;
      var m :| 0 <= m < |b| && b[m] == y;
      assert m > 0 && b[1..][m - 1] == y;
    }
  }

  lemma SameElementsEmpty<T>(a: seq<T>, b: seq<T>)
    requires forall y :: y in a <==> y in b
    ensures a == [] <==> b == []
  {
    if a != [] {
      assert a[0] in a;
    }
    if b != [] {
      assert b[0] in b;
    }
  }

  /** Rows in non-increasing order of `key`. */
  predicate NonIncreasingBy<T>(xs: seq<T>, key: T -> int) {
    forall i, j :: 0 <= i < j < |xs| ==> key(xs[i]) >= key(xs[j])
  }

  /** A subsequence of a sorted table is sorted. */
  lemma {:induction false} SubsequenceNonIncreasing<T>(a: seq<T>, b: seq<T>, key: T -> int)
    requires IsSubsequence(a, b) && NonIncreasingBy(b, key)
    ensures NonIncreasingBy(a, key)
    decreases |b|
  {
    if a != [] {
      assert NonIncreasingBy(b[1..], key) by {
        forall i, j | 0 <= i < j < |b[1..]| ensures key(b[1..][i]) >= key(b[1..][j]) {
          assert b[1..][i] == b[i + 1] && b[1..][j] == b[j + 1];
        }
      }
      if a[0] == b[0] && IsSubsequence(a[1..], b[1..]) {
        SubsequenceNonIncreasing(a[1..], b[1..], key);
        SubsequenceElements(a[1..], b[1..]);
        forall j | 0 < j < |a| ensures key(a[0]) >= key(a[j]) {
          assert a[j] == a[1..][j - 1];
          assert a[j] in b[1..];
          var m :| 0 <= m < |b[1..]| && b[1..][m] == a[j];
          assert b[m + 1] == a[j];
        }
      } else {
        SubsequenceNonIncreasing(a, b[1..], key);
      }
    }
  }

  /** The first row of a sorted table has the largest key. */
  lemma HeadIsLargest<T>(s: seq<T>, key: T -> int)
    requires s != [] && NonIncreasingBy(s, key)
    ensures forall y :: y in s ==> key(y) <= key(s[0])
  {
  }

  /** A row whose key is at least every key of a sorted table can go first. */
  lemma ConsNonIncreasing<T>(x: T, s: seq<T>, key: T -> int)
    requires NonIncreasingBy(s, key)
    requires forall y :: y in s ==> key(y) <= key(x)
    ensures NonIncreasingBy([x] + s, key)
  {
    var r := [x] + s;
    forall i, j | 0 <= i < j < |r| ensures key(r[i]) >= key(r[j]) {
      assert r[j] == s[j - 1] && s[j - 1] in s;
      if i > 0 {
        assert r[i] == s[i - 1];
      }
    }
  }

  /** Inserts `x` before the first row whose key is smaller. */
  function InsertDescending<T(==)>(x: T, s: seq<T>, key: T -> int): (r: seq<T>)
    ensures multiset(r) == multiset(s) + multiset{x}
  {
    if s == [] then [x]
    else if key(x) >= key(s[0]) then [x] + s
    else
      assert s == [s[0]] + s[1..];
      [s[0]] + InsertDescending(x, s[1..], key)
  }

  /** Inserting into a sorted table keeps it sorted. */
  lemma {:induction false} InsertDescendingSorted<T>(x: T, s: seq<T>, key: T -> int)
    requires NonIncreasingBy(s, key)
    ensures NonIncreasingBy(InsertDescending(x, s, key), key)
  {
    if s != [] {
      HeadIsLargest(s, key);
      if key(x) >= key(s[0]) {
        ConsNonIncreasing(x, s, key);
      } else {
        assert s == [s[0]] + s[1..];
        var rest := InsertDescending(x, s[1..], key);
        InsertDescendingSorted(x, s[1..], key);
        assert forall y :: y in rest ==> y == x || y in s[1..] by {
          forall y | y in rest ensures y == x || y in s[1..] {
            assert y in multiset(rest);
          }
        }
        ConsNonIncreasing(s[0], rest, key);
      }
    }
  }

  /** The rows sorted by `key`, largest first (a polars
      `sort(key, descending=True)`; the order of ties is not specified). */
  function SortDescendingBy<T(==)>(xs: seq<T>, key: T -> int): (r: seq<T>)
    ensures NonIncreasingBy(r, key)
    ensures multiset(r) == multiset(xs)
  {
    if xs == [] then []
    else
      assert xs == [xs[0]] + xs[1..];
      var rest := SortDescendingBy(xs[1..], key);
      InsertDescendingSorted(xs[0], rest, key);
      InsertDescending(xs[0], rest, key)
  }

  /** The tables of a list, one after another (a polars `concat`). */
  function Flatten<T(==,!new)>(xss: seq<seq<T>>): (r: seq<T>)
    ensures forall x :: x in r <==> exists i :: 0 <= i < |xss| && x in xss[i]
  {
    if xss == [] then []
    else
      var rest := Flatten(xss[1..]);
      FlattenStep(xss, rest);
      xss[0] + rest
  }

  lemma FlattenStep<T>(xss: seq<seq<T>>, rest: seq<T>)
    requires xss != []
    requires forall x :: x in rest <==> exists i :: 0 <= i < |xss[1..]| && x in xss[1..][i]
    ensures forall x :: x in xss[0] + rest <==> exists i :: 0 <= i < |xss| && x in xss[i]
  {
    forall x ensures x in xss[0] + rest <==> exists i :: 0 <= i < |xss| && x in xss[i] {
      if x in rest {
        var i :| 0 <= i < |xss[1..]| && x in xss[1..][i];
        assert x in xss[i + 1];
      }
      if exists i :: 0 <= i < |xss| && x in xss[i] {
        var i :| 0 <= i < |xss| && x in xss[i];
        if i > 0 {
          assert x in xss[1..][i - 1];
        }
      }
    }
  }

  /** The number of rows of all the tables together. */
  function TotalLength<T>(xss: seq<seq<T>>): nat {
    if xss == [] then 0 else |xss[0]| + TotalLength(xss[1..])
  }

  /** The rows of all the tables, each as often as it occurs in them. */
  function AllRows<T>(xss: seq<seq<T>>): multiset<T> {
    if xss == [] then multiset{} else multiset(xss[0]) + AllRows(xss[1..])
  }

  /** The concatenation keeps every row of every table as often as it
      occurs there, and no other row. */
  lemma {:induction false} FlattenCounts<T(!new)>(xss: seq<seq<T>>)
    ensures |Flatten(xss)| == TotalLength(xss)
    ensures multiset(Flatten(xss)) == AllRows(xss)
  {
    if xss != [] {
      FlattenCounts(xss[1..]);
      assert Flatten(xss) == xss[0] + Flatten(xss[1..]);
    }
  }

  /** The tables follow one another in list order: one more table puts
      its rows after all the others. */
  lemma {:induction false} FlattenSnoc<T(!new)>(xss: seq<seq<T>>, ys: seq<T>)
    ensures Flatten(xss + [ys]) == Flatten(xss) + ys
  {
    if xss == [] {
      assert [] + [ys] == [ys];
      assert [ys][1..] == [];
    } else {
      assert (xss + [ys])[1..] == xss[1..] + [ys];
      FlattenSnoc(xss[1..], ys);
      assert Flatten(xss + [ys]) == xss[0] + (Flatten(xss[1..]) + ys);
    }
  }

  /** The keys of the rows. */
  function KeySet<T(==), K>(xs: seq<T>, key: T -> K): set<K> {
    set x | x in xs :: key(x)
  }

  /** One row per key (a polars `unique(subset=key)`): keys are pairwise
      distinct, every kept row is an input row and every input key is kept.
      Which of several rows sharing a key survives is not specified. */
  function UniqueBy<T(==), K(==)>(xs: seq<T>, key: T -> K): (r: seq<T>)
    ensures forall x :: x in r ==> x in xs
    ensures forall i, j :: 0 <= i < j < |r| ==> key(r[i]) != key(r[j])
    ensures KeySet(r, key) == KeySet(xs, key)
  {
    if xs == [] then []
    else
      var rest := UniqueBy(xs[1..], key);
      assert xs == [xs[0]] + xs[1..];
      assert KeySet(xs, key) == {key(xs[0])} + KeySet(xs[1..], key);
      if exists y :: y in rest && key(y) == key(xs[0]) then rest
      else
        assert KeySet([xs[0]] + rest, key) == {key(xs[0])} + KeySet(rest, key);
        assert forall j :: 0 <= j < |rest| ==> key(rest[j]) != key(xs[0]) by {
          forall j | 0 <= j < |rest| ensures key(rest[j]) != key(xs[0]) {
            assert rest[j] in rest;
          }
        }
        [xs[0]] + rest
  }

  /** A value occurring at least twice occurs at two positions. */
  lemma SecondOccurrence<T>(a: seq<T>, x: T)
    requires multiset(a)[x] >= 2
    ensures exists i, j :: 0 <= i < j < |a| && a[i] == x && a[j] == x
  {
    assert x in multiset(a);
    var k :| 0 <= k < |a| && a[k] == x;
    assert a == a[..k] + [a[k]] + a[k + 1..];
    assert multiset(a) == multiset(a[..k]) + multiset{x} + multiset(a[k + 1..]);
    if x in a[..k] {
      var i :| 0 <= i < |a[..k]| && a[..k][i] == x;
      assert a[i] == x;
    } else {
      assert x in multiset(a[k + 1..]);
      var j :| 0 <= j < |a[k + 1..]| && a[k + 1..][j] == x;
      assert a[k + 1 + j] == x;
    }
  }

  /** Two positions of a rearrangement `b` of `a` hold values found at two
      different positions of `a`. */
  lemma PermutationPositions<T>(a: seq<T>, b: seq<T>, i: int, j: int)
    requires multiset(a) == multiset(b)
    requires 0 <= i < j < |b|
    ensures exists p, q :: 0 <= p < |a| && 0 <= q < |a| && p != q && a[p] == b[i] && a[q] == b[j]
  {
    if b[i] == b[j] {
      assert b == b[..j] + b[j..];
      assert b[i] in b[..j];
      assert b[j] in b[j..];
      assert multiset(b) == multiset(b[..j]) + multiset(b[j..]);
      SecondOccurrence(a, b[i]);
    } else {
      assert b[i] in multiset(a) && b[j] in multiset(a);
      var p :| 0 <= p < |a| && a[p] == b[i];
      var q :| 0 <= q < |a| && a[q] == b[j];
    }
  }

  /** Rearranging rows keeps their keys pairwise distinct. */
  lemma PermutationDistinctKeys<T, K>(a: seq<T>, b: seq<T>, key: T -> K)
    requires multiset(a) == multiset(b)
    requires forall i, j :: 0 <= i < j < |a| ==> key(a[i]) != key(a[j])
    ensures forall i, j :: 0 <= i < j < |b| ==> key(b[i]) != key(b[j])
  {
    forall i, j | 0 <= i < j < |b| ensures key(b[i]) != key(b[j]) {
      PermutationPositions(a, b, i, j);
      var p, q :| 0 <= p < |a| && 0 <= q < |a| && p != q && a[p] == b[i] && a[q] == b[j];
      if p < q {
        assert key(a[p]) != key(a[q]);
      } else {
        assert key(a[q]) != key(a[p]);
      }
    }
  }

  /** Rearranging rows keeps their key set. */
  lemma PermutationKeySet<T, K>(a: seq<T>, b: seq<T>, key: T -> K)
    requires multiset(a) == multiset(b)
    ensures KeySet(a, key) == KeySet(b, key)
  {
    assert forall x :: x in a <==> x in multiset(a);
    assert forall x :: x in b <==> x in multiset(b);
  }

  /** The column `f` of the rows. */
  function Column<T, U>(xs: seq<T>, f: T -> U): (r: seq<U>)
    ensures |r| == |xs|
    ensures forall i :: 0 <= i < |xs| ==> r[i] == f(xs[i])
  {
    seq(|xs|, i requires 0 <= i < |xs| => f(xs[i]))
  }

  /** The column of a table with one more row. */
  lemma ColumnSnoc<T, U>(xs: seq<T>, x: T, f: T -> U)
    ensures Column(xs + [x], f) == Column(xs, f) + [f(x)]
  {
  }

  /** The column of a concatenation is the concatenation of the columns. */
  lemma ColumnAppend<T, U>(a: seq<T>, b: seq<T>, f: T -> U)
    ensures Column(a + b, f) == Column(a, f) + Column(b, f)
  {
  }

  /** Tables holding the same rows, each as often, have columns holding the
      same values, each as often. */
  lemma {:induction false} ColumnPermutation<T, U>(xs: seq<T>, ys: seq<T>, f: T -> U)
    requires multiset(xs) == multiset(ys)
    ensures multiset(Column(xs, f)) == multiset(Column(ys, f))
  {
    if xs != [] {
      var x := xs[0];
      assert x in multiset(ys);
      var j :| 0 <= j < |ys| && ys[j] == x;
      var a, b := ys[..j], ys[j + 1..];
      RemoveMatching(xs, ys, j);
      ColumnPermutation(xs[1..], a + b, f);
      assert ys == a + [x] + b;
      assert xs == [x] + xs[1..];
      ColumnAppend(a + [x], b, f);
      ColumnAppend(a, [x], f);
      ColumnAppend(a, b, f);
      ColumnAppend([x], xs[1..], f);
    }
  }

  /** Removing the first row of one table and a matching row of another
      keeps them permutations of each other. */
  lemma RemoveMatching<T>(xs: seq<T>, ys: seq<T>, j: int)
    requires multiset(xs) == multiset(ys)
    requires xs != [] && 0 <= j < |ys| && ys[j] == xs[0]
    ensures multiset(xs[1..]) == multiset(ys[..j] + ys[j + 1..])
  {
    var a, b := ys[..j], ys[j + 1..];
    assert ys == a + [ys[j]] + b;
    assert xs == [xs[0]] + xs[1..];
    assert multiset(xs[1..]) == multiset(xs) - multiset{xs[0]};
    assert multiset(a + b) == multiset(ys) - multiset{ys[j]};
  }
}
