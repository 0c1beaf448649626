/** `filter_by_date`: the rows of a table whose date column lies in the
    half-open window from `start` (included) to `end` (excluded). Dates
    and datetimes are compared through a key, a number of days or minutes
    that orders them; how a date bound is coerced to a datetime is not
    part of this model. */
module DateFilter {
  import opened Tables

  /** The window test of one row. */
  function InWindow<T>(key: T -> int, start: int, end: int): T -> bool {
    (x: T) => start <= key(x) < end
  }

  /** The rows with `start <= key < end`, in their original order. */
  function FilterByDate<T(==,!new)>(rows: seq<T>, key: T -> int, start: int, end: int): (kept: seq<T>)
    ensures forall x :: x in kept <==> x in rows && start <= key(x) < end
    ensures IsSubsequence(kept, rows)
  {
    Filter(rows, InWindow(key, start, end))
  }

  /** The window keeps every qualifying row as often as it occurs and
      no other row. */
  lemma {:induction false} FilterByDateExact<T(!new)>(rows: seq<T>, key: T -> int, start: int, end: int)
    ensures forall x :: multiset(FilterByDate(rows, key, start, end))[x]
                     == (if start <= key(x) < end then multiset(rows)[x] else 0)
  {
    if rows != [] {
      FilterByDateExact(rows[1..], key, start, end);
      assert rows == [rows[0]] + rows[1..];
      if start <= key(rows[0]) < end {
        assert FilterByDate(rows, key, start, end) == [rows[0]] + FilterByDate(rows[1..], key, start, end);
      }
    }
  }

  /** An empty window (`start >= end`) keeps nothing. */
  lemma {:induction false} EmptyWindow<T(!new)>(rows: seq<T>, key: T -> int, start: int, end: int)
    requires start >= end
    ensures FilterByDate(rows, key, start, end) == []
  {
    if rows != [] {
      EmptyWindow(rows[1..], key, start, end);
    }
  }

  /** Adjacent windows split the rows of their union: the bound between
      them belongs to the later one only, so no row is counted twice. */
  lemma AdjacentWindows<T(!new)>(rows: seq<T>, key: T -> int, start: int, middle: int, end: int)
    requires start <= middle <= end
    ensures |FilterByDate(rows, key, start, middle)| + |FilterByDate(rows, key, middle, end)|
      == |FilterByDate(rows, key, start, end)|
  {
    FilterCountSplit(rows, InWindow(key, start, middle), InWindow(key, middle, end), InWindow(key, start, end));
  }

  /** Filtering twice keeps the rows of the intersection of the two
      windows. */
  lemma {:induction false} NestedWindows<T(!new)>(rows: seq<T>, key: T -> int, s1: int, e1: int, s2: int, e2: int)
    ensures FilterByDate(FilterByDate(rows, key, s1, e1), key, s2, e2)
      == FilterByDate(rows, key, if s1 < s2 then s2 else s1, if e1 < e2 then e1 else e2)
  {
    if rows != [] {
      NestedWindows(rows[1..], key, s1, e1, s2, e2);
      if s1 <= key(rows[0]) < e1 {
        assert FilterByDate(rows, key, s1, e1) == [rows[0]] + FilterByDate(rows[1..], key, s1, e1);
        assert ([rows[0]] + FilterByDate(rows[1..], key, s1, e1))[1..] == FilterByDate(rows[1..], key, s1, e1);
      }
    }
  }
}
