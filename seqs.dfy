/** Sequence operations shared by the query and list code: filtering, sorting
    by a total preorder, the `range`/`limit` windows of a query and JavaScript's
    `Array.prototype.slice`. */
module Seqs {
  import opened Wrappers

  /** `s.filter(p)`. */
  function Filter<T>(s: seq<T>, p: T -> bool): (r: seq<T>)
    ensures |r| <= |s|
    ensures forall i :: 0 <= i < |r| ==> r[i] in s && p(r[i])
    ensures forall i :: 0 <= i < |s| && p(s[i]) ==> s[i] in r
    ensures multiset(r) <= multiset(s)
  {
    if s == [] then []
    else
      assert s == [s[0]] + s[1..];
      (if p(s[0]) then [s[0]] else []) + Filter(s[1..], p)
  }

  lemma {:induction false} FilterAppend<T>(a: seq<T>, b: seq<T>, p: T -> bool)
    ensures Filter(a + b, p) == Filter(a, p) + Filter(b, p)
  {
    if a == [] {
      assert a + b == b;
    } else {
      assert (a + b)[1..] == a[1..] + b;
      FilterAppend(a[1..], b, p);
    }
  }

  /** Every element dropped by `Filter` fails `p`, so filtering with a predicate
      that holds everywhere gives `s` back. */
  lemma {:induction false} FilterAll<T>(s: seq<T>, p: T -> bool)
    requires forall i :: 0 <= i < |s| ==> p(s[i])
    ensures Filter(s, p) == s
  {
    if s != [] {
      FilterAll(s[1..], p);
    }
  }

  /** Filtering with a predicate that holds nowhere gives the empty sequence. */
  lemma {:induction false} FilterNone<T>(s: seq<T>, p: T -> bool)
    requires forall i :: 0 <= i < |s| ==> !p(s[i])
    ensures Filter(s, p) == []
  {
    if s != [] {
      FilterNone(s[1..], p);
    }
  }

  /** `le` is a total preorder: the comparison a database ORDER BY, or a
      JavaScript comparator, sorts by. */
  ghost predicate TotalPreorder<T(!new)>(le: (T, T) -> bool) {
    (forall a, b :: le(a, b) || le(b, a)) &&
    (forall a, b, c :: le(a, b) && le(b, c) ==> le(a, c))
  }

  predicate SortedBy<T>(s: seq<T>, le: (T, T) -> bool) {
    forall i, j :: 0 <= i < j < |s| ==> le(s[i], s[j])
  }

  /** `x` inserted into `s` before the first element it is `le` to. */
  function Insert<T>(x: T, s: seq<T>, le: (T, T) -> bool): (r: seq<T>)
    ensures multiset(r) == multiset(s) + multiset{x}
    ensures |r| == |s| + 1
  {
    if s == [] then [x]
    else if le(x, s[0]) then [x] + s
    else
      assert s == [s[0]] + s[1..];
      [s[0]] + Insert(x, s[1..], le)
  }

  /** Insertion sort: the order a query states with `.order(...)`, or a list
      sorted with `Array.prototype.sort`. */
  function SortBy<T>(s: seq<T>, le: (T, T) -> bool): (r: seq<T>)
    ensures multiset(r) == multiset(s)
    ensures |r| == |s|
  {
    if s == [] then []
    else
      assert s == [s[0]] + s[1..];
      Insert(s[0], SortBy(s[1..], le), le)
  }

  lemma {:induction false} InsertSorted<T(!new)>(x: T, s: seq<T>, le: (T, T) -> bool)
    requires TotalPreorder(le)
    requires SortedBy(s, le)
    ensures SortedBy(Insert(x, s, le), le)
  {
    if s != [] && !le(x, s[0]) {
      var tail := Insert(x, s[1..], le);
      InsertSorted(x, s[1..], le);
      assert le(s[0], x);
      forall y | y in tail
        ensures le(s[0], y)
      {
        assert y in multiset(tail);
        if y != x {
          assert y in multiset(s[1..]);
          var k :| 1 <= k < |s| && s[k] == y;
        }
      }
      ConsSorted(s[0], tail, le);
    } else if s != [] {
      forall y | y in s
        ensures le(x, y)
      {
        var k :| 0 <= k < |s| && s[k] == y;
        if k > 0 {
          assert le(s[0], s[k]);
        }
      }
      ConsSorted(x, s, le);
    }
  }

  /** A sorted sequence stays sorted with an element `le` to all of it in front. */
  lemma ConsSorted<T>(h: T, t: seq<T>, le: (T, T) -> bool)
    requires SortedBy(t, le)
    requires forall y :: y in t ==> le(h, y)
    ensures SortedBy([h] + t, le)
  {
    forall i, j | 0 <= i < j < |[h] + t|
      ensures le(([h] + t)[i], ([h] + t)[j])
    {
      assert ([h] + t)[j] == t[j - 1];
      if i == 0 {
        assert t[j - 1] in t;
      } else {
        assert ([h] + t)[i] == t[i - 1];
      }
    }
  }

  /** The result of `SortBy` is in order. */
  lemma {:induction false} SortBySorted<T(!new)>(s: seq<T>, le: (T, T) -> bool)
    requires TotalPreorder(le)
    ensures SortedBy(SortBy(s, le), le)
  {
    if s != [] {
      SortBySorted(s[1..], le);
      InsertSorted(s[0], SortBy(s[1..], le), le);
    }
  }

  /** The first element of a sorted sequence is `le` to every element of it. */
  lemma SortedFirstIsLeast<T(!new)>(s: seq<T>, le: (T, T) -> bool, x: T)
    requires TotalPreorder(le) && SortedBy(s, le) && x in s
    ensures le(s[0], x)
  {
    var k :| 0 <= k < |s| && s[k] == x;
    if k == 0 {
      assert le(x, x) || le(x, x);
    }
  }

  lemma SortBySortedWhenPreorder<T(!new)>(s: seq<T>, le: (T, T) -> bool)
    ensures TotalPreorder(le) ==> SortedBy(SortBy(s, le), le)
  {
    if TotalPreorder(le) {
      SortBySorted(s, le);
    }
  }

  /** Elements of equal multisets are the same elements. */
  lemma SameMembers<T>(a: seq<T>, b: seq<T>)
    requires multiset(a) == multiset(b)
    ensures forall i :: 0 <= i < |a| ==> a[i] in b
    ensures forall i :: 0 <= i < |b| ==> b[i] in a
  {
    forall i | 0 <= i < |a|
      ensures a[i] in b
    {
      assert a[i] in multiset(a);
    }
    forall i | 0 <= i < |b|
      ensures b[i] in a
    {
      assert b[i] in multiset(b);
    }
  }

  /** The elements satisfying `p`, ordered by `le`: a query that filters and
      ends in `.order(...)`. Which of two rows the order ties comes first is not
      fixed by the query; the model keeps whichever order insertion sort gives. */
  function Select<T(!new)>(s: seq<T>, p: T -> bool, le: (T, T) -> bool): (r: seq<T>)
    ensures multiset(r) == multiset(Filter(s, p))
    ensures forall i :: 0 <= i < |r| ==> r[i] in s && p(r[i])
    ensures forall i :: 0 <= i < |s| && p(s[i]) ==> s[i] in r
    ensures forall x :: x in r <==> x in s && p(x)
    ensures TotalPreorder(le) ==> SortedBy(r, le)
  {
    var f := Filter(s, p);
    var r := SortBy(f, le);
    SortBySortedWhenPreorder(f, le);
    SameMembers(r, f);
    r
  }

  /** The filter keeps exactly `s[i]` when `p` holds there and nowhere else. */
  lemma {:induction false} FilterSingleton<T>(s: seq<T>, p: T -> bool, i: int)
    requires 0 <= i < |s| && p(s[i])
    requires forall j :: 0 <= j < |s| && j != i ==> !p(s[j])
    ensures Filter(s, p) == [s[i]]
  {
    if i == 0 {
      FilterNone(s[1..], p);
    } else {
      FilterSingleton(s[1..], p, i - 1);
    }
  }

  /** Every element of a sorted sequence that its first `n` elements leave out
      comes, in the order, after each of those `n`: `.order(...).limit(n)`
      keeps the least elements. */
  lemma SortedPrefixIsLeast<T>(s: seq<T>, le: (T, T) -> bool, n: nat, y: T)
    requires SortedBy(s, le) && y in s && y !in Take(s, n)
    ensures forall i :: 0 <= i < |Take(s, n)| ==> le(s[i], y)
  {
    var k :| 0 <= k < |s| && s[k] == y;
    assert k >= |Take(s, n)|;
  }

  /** The first element of a sorted sequence is `le` to all of it. */
  lemma SortedHeadIsLeast<T(!new)>(s: seq<T>, le: (T, T) -> bool)
    requires TotalPreorder(le) && SortedBy(s, le) && s != []
    ensures forall x :: x in s ==> le(s[0], x)
  {
    forall x | x in s
      ensures le(s[0], x)
    {
      SortedFirstIsLeast(s, le, x);
    }
  }

  /** `Math.ceil(n / size)`: the number of pages of `size` elements that `n`
      elements fill. */
  function PageCount(n: nat, size: int): (r: nat)
    requires size >= 1
    ensures r * size >= n
    ensures r > 0 ==> (r - 1) * size < n
    ensures n == 0 <==> r == 0
    decreases n
  {
    if n == 0 then 0
    else if n <= size then 1
    else
      var rest := PageCount(n - size, size);
      assert (rest + 1) * size == rest * size + size;
      rest + 1
  }

  /** The first element, if any: a query ending in `.limit(1)`. */
  function First<T>(s: seq<T>): (r: Option<T>)
    ensures r.None? <==> s == []
    ensures r.Some? ==> r.value == s[0]
  {
    if s == [] then None else Some(s[0])
  }

  /** At most the first `n` elements: a query ending in `.limit(n)`. */
  function Take<T>(s: seq<T>, n: nat): (r: seq<T>)
    ensures |r| == if n < |s| then n else |s|
    ensures r <= s
  {
    if n < |s| then s[..n] else s
  }

  /** A prefix holds each element at most as often as the whole. */
  lemma PrefixSubMultiset<T>(s: seq<T>, p: seq<T>)
    requires p <= s
    ensures multiset(p) <= multiset(s)
  {
    assert s == p + s[|p|..];
  }

  /** The rows at offsets `from` to `to`, both inclusive, of an ordered result:
      a query ending in `.range(from, to)`. */
  function Range<T>(s: seq<T>, from: nat, to: int): (r: seq<T>)
    requires from <= to + 1
    ensures |r| <= to + 1 - from
    ensures forall i :: 0 <= i < |r| ==> from + i < |s| && r[i] == s[from + i]
    ensures |r| == if from >= |s| then 0 else (if to + 1 < |s| then to + 1 else |s|) - from
  {
    if from >= |s| then [] else if to + 1 < |s| then s[from..to + 1] else s[from..]
  }

  /** A position argument of `Array.prototype.slice`: negative counts from the
      end, and the result is clamped to `[0, len]`. */
  function SliceIndex(i: int, len: nat): (k: nat)
    ensures k <= len
    ensures 0 <= i <= len ==> k == i
    ensures i > len ==> k == len
  {
    if i < 0 then (if len + i < 0 then 0 else len + i) else if i > len then len else i
  }

  /** `s.slice(start, end)`. */
  function JsSlice<T>(s: seq<T>, start: int, end: int): (r: seq<T>)
    ensures |r| <= |s|
    ensures 0 <= start <= end ==> |r| <= end - start
    ensures 0 <= start ==> forall i :: 0 <= i < |r| ==> start + i < |s| && r[i] == s[start + i]
  {
    var a := SliceIndex(start, |s|);
    var b := SliceIndex(end, |s|);
    if a < b then s[a..b] else []
  }
}
