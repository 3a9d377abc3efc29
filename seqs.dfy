/** Sequence operations that the system uses the way JavaScript's Array methods
    are used: `filter`, `find`, `some`, `slice(0, n)` and a stable `sort`. */
module Seqs {

  datatype Option<+T> = None | Some(value: T)

  /** `s.filter(p)`: the elements of `s` that satisfy `p`, in their original order. */
  function Filter<T(!new)>(s: seq<T>, p: T -> bool): (r: seq<T>)
    ensures |r| <= |s|
    ensures forall x :: x in r <==> x in s && p(x)
  {
    if s == [] then []
    else if p(s[0]) then [s[0]] + Filter(s[1..], p)
    else Filter(s[1..], p)
  }

  /** `r` can be obtained from `s` by deleting elements: order is kept. */
  predicate Subseq<T(==)>(r: seq<T>, s: seq<T>)
    decreases |s|
  {
    if r == [] then true
    else if s == [] then false
    else if r[0] == s[0] then Subseq(r[1..], s[1..])
    else Subseq(r, s[1..])
  }

  lemma {:induction false} SubseqOfTail<T>(r: seq<T>, s: seq<T>)
    requires |s| > 0 && Subseq(r, s[1..])
    ensures Subseq(r, s)
    decreases |s|, |r|
  {
    if r != [] && r[0] == s[0] {
      SubseqDropHead(r, s[1..]);
    }
  }

  lemma {:induction false} SubseqDropHead<T>(r: seq<T>, s: seq<T>)
    requires |r| > 0 && Subseq(r, s)
    ensures Subseq(r[1..], s)
    decreases |s|, |r|
  {
    if r[0] == s[0] {
      SubseqOfTail(r[1..], s);
    } else {
      SubseqDropHead(r, s[1..]);
      SubseqOfTail(r[1..], s);
    }
  }

  /** The filter keeps order: its result is a subsequence of its input. */
  lemma {:induction false} FilterIsSubseq<T(!new)>(s: seq<T>, p: T -> bool)
    ensures Subseq(Filter(s, p), s)
  {
    if s != [] {
      FilterIsSubseq(s[1..], p);
      if !p(s[0]) {
        SubseqOfTail(Filter(s[1..], p), s);
      }
    }
  }

  /** The filter keeps every copy of an element that satisfies `p` and no copy of one that does not. */
  lemma {:induction false} FilterCount<T(!new)>(s: seq<T>, p: T -> bool)
    ensures forall x :: multiset(Filter(s, p))[x] == if p(x) then multiset(s)[x] else 0
  {
    if s != [] {
      FilterCount(s[1..], p);
      assert s == [s[0]] + s[1..];
    }
  }

  /** Filtering with a predicate that holds everywhere returns the whole sequence. */
  lemma {:induction false} FilterAll<T(!new)>(s: seq<T>, p: T -> bool)
    requires forall x :: x in s ==> p(x)
    ensures Filter(s, p) == s
  {
    if s != [] {
      FilterAll(s[1..], p);
    }
  }

  /** Filtering distributes over concatenation. */
  lemma {:induction false} FilterAppend<T(!new)>(s: seq<T>, t: seq<T>, p: T -> bool)
    ensures Filter(s + t, p) == Filter(s, p) + Filter(t, p)
  {
    if s == [] {
      assert s + t == t;
    } else {
      assert (s + t)[1..] == s[1..] + t;
      FilterAppend(s[1..], t, p);
    }
  }

  /** `s.find(p)` as the index of the first element satisfying `p`, if any. */
  function FindFirst<T>(s: seq<T>, p: T -> bool): (r: Option<nat>)
    ensures r.Some? ==> r.value < |s| && p(s[r.value])
    ensures r.Some? ==> forall j :: 0 <= j < r.value ==> !p(s[j])
    ensures r.None? <==> forall j :: 0 <= j < |s| ==> !p(s[j])
  {
    if s == [] then None
    else if p(s[0]) then Some(0)
    else match FindFirst(s[1..], p)
      case None => None
      case Some(k) => Some(k + 1)
  }

  /** `s.slice(0, n)`. */
  function Take<T>(s: seq<T>, n: nat): (r: seq<T>)
    ensures |r| == if n < |s| then n else |s|
    ensures forall i :: 0 <= i < |r| ==> r[i] == s[i]
  {
    if n < |s| then s[..n] else s
  }

  /** The element `i` places after the end of `a` in `a + b`. */
  lemma AppendIndex<T>(a: seq<T>, b: seq<T>, i: nat)
    requires i < |b|
    ensures (a + b)[|a| + i] == b[i]
  {
  }

  /** No two distinct positions of `s` hold elements related by `clash`. */
  ghost predicate Pairwise<T>(s: seq<T>, clash: (T, T) -> bool)
  {
    forall i, j :: 0 <= i < |s| && 0 <= j < |s| && i != j ==> !clash(s[i], s[j])
  }

  /** Filtering keeps a pairwise property. */
  lemma {:induction false} PairwiseFilter<T(!new)>(s: seq<T>, p: T -> bool, clash: (T, T) -> bool)
    ensures Pairwise(s, clash) ==> Pairwise(Filter(s, p), clash)
  {
    if s != [] && Pairwise(s, clash) {
      assert Pairwise(s[1..], clash) by {
        forall i, j | 0 <= i < |s| - 1 && 0 <= j < |s| - 1 && i != j
          ensures !clash(s[1..][i], s[1..][j])
        {
          assert s[1..][i] == s[i + 1] && s[1..][j] == s[j + 1];
        }
      }
      PairwiseFilter(s[1..], p, clash);
      var rest := Filter(s[1..], p);
      if p(s[0]) {
        var r := [s[0]] + rest;
        forall i, j | 0 <= i < |r| && 0 <= j < |r| && i != j
          ensures !clash(r[i], r[j])
        {
          if i == 0 || j == 0 {
            var k := if i == 0 then j else i;
            assert r[k] in s[1..];
            var m :| 0 <= m < |s[1..]| && s[1..][m] == r[k];
            assert s[m + 1] == r[k];
          } else {
            assert r[i] == rest[i - 1] && r[j] == rest[j - 1];
          }
        }
      }
    }
  }

  /** Appending an element that clashes with nothing already present keeps a pairwise property. */
  lemma PairwiseAppend<T>(s: seq<T>, x: T, clash: (T, T) -> bool)
    requires Pairwise(s, clash)
    requires forall i :: 0 <= i < |s| ==> !clash(x, s[i]) && !clash(s[i], x)
    ensures Pairwise(s + [x], clash)
  {
    var r := s + [x];
    forall i, j | 0 <= i < |r| && 0 <= j < |r| && i != j
      ensures !clash(r[i], r[j])
    {
      if i < |s| && j < |s| {
        assert r[i] == s[i] && r[j] == s[j];
      }
    }
  }

  /** Replacing one element by one that clashes with none of the others keeps a pairwise property. */
  lemma PairwiseUpdate<T>(s: seq<T>, k: nat, x: T, clash: (T, T) -> bool)
    requires k < |s| && Pairwise(s, clash)
    requires forall j :: 0 <= j < |s| && j != k ==> !clash(x, s[j]) && !clash(s[j], x)
    ensures Pairwise(s[k := x], clash)
  {
  }

  /** Replacing the element at `k` changes the size of a filter by what the old
      and the new element contribute. */
  lemma {:induction false} FilterUpdateCount<T(!new)>(s: seq<T>, k: nat, x: T, p: T -> bool)
    requires k < |s|
    ensures |Filter(s[k := x], p)| + (if p(s[k]) then 1 else 0) == |Filter(s, p)| + (if p(x) then 1 else 0)
  {
    if k == 0 {
      assert s[k := x][1..] == s[1..];
    } else {
      FilterUpdateCount(s[1..], k - 1, x, p);
      assert s[k := x][1..] == s[1..][k - 1 := x];
    }
  }

  /** A stable ascending sort by an integer key, as JavaScript's `Array.prototype.sort`
      with a comparator `(a, b) => key(a) - key(b)`: equal keys keep their order. */
  function SortBy<T(!new)>(s: seq<T>, key: T -> int): (r: seq<T>)
    ensures |r| == |s| && multiset(r) == multiset(s)
    ensures SortedBy(r, key)
  {
    if s == [] then []
    else
      assert s == [s[0]] + s[1..];
      Insert(s[0], SortBy(s[1..], key), key)
  }

  predicate SortedBy<T>(s: seq<T>, key: T -> int)
  {
    forall i, j :: 0 <= i < j < |s| ==> key(s[i]) <= key(s[j])
  }

  /** In a sorted sequence, the head's key bounds every key from below. */
  lemma HeadBound<T>(s: seq<T>, key: T -> int, y: T)
    requires SortedBy(s, key) && y in s
    ensures key(s[0]) <= key(y)
  {
    var m :| 0 <= m < |s| && s[m] == y;
    if m > 0 {
      assert key(s[0]) <= key(s[m]);
    }
  }

  /** A head no larger than every element keeps a sorted sequence sorted. */
  lemma ConsSorted<T>(h: T, s: seq<T>, key: T -> int)
    requires SortedBy(s, key)
    requires forall y :: y in s ==> key(h) <= key(y)
    ensures SortedBy([h] + s, key)
  {
    var r := [h] + s;
    forall i, j | 0 <= i < j < |r| ensures key(r[i]) <= key(r[j]) {
      assert r[j] == s[j - 1];
      if i > 0 {
        assert r[i] == s[i - 1];
      } else {
        assert s[j - 1] in s;
      }
    }
  }

  /** Places `x` before the first element whose key is not smaller than its own. */
  function Insert<T(!new)>(x: T, s: seq<T>, key: T -> int): (r: seq<T>)
    requires SortedBy(s, key)
    ensures |r| == |s| + 1 && multiset(r) == multiset(s) + multiset{x}
    ensures forall y :: y in r ==> y == x || y in s
    ensures SortedBy(r, key)
  {
    if s == [] || key(x) <= key(s[0]) then
      assert SortedBy([x] + s, key) by {
        forall y | y in s ensures key(x) <= key(y) {
          HeadBound(s, key, y);
        }
        ConsSorted(x, s, key);
      }
      [x] + s
    else
      var rest := Insert(x, s[1..], key);
      assert SortedBy([s[0]] + rest, key) by {
        forall y | y in rest ensures key(s[0]) <= key(y) {
          if y != x {
            HeadBound(s, key, y);
          }
        }
        ConsSorted(s[0], rest, key);
      }
      assert s == [s[0]] + s[1..];
      [s[0]] + rest
  }

  /** A permutation keeps every pairwise property, e.g. "no two records share an email". */
  lemma {:induction false} PairwisePermutation<T(!new)>(s: seq<T>, t: seq<T>, clash: (T, T) -> bool)
    requires multiset(s) == multiset(t) && Pairwise(s, clash)
    ensures Pairwise(t, clash)
  {
    forall i, j | 0 <= i < |t| && 0 <= j < |t| && i != j
      ensures !clash(t[i], t[j])
    {
      var x, y := t[i], t[j];
      assert x in multiset(s) && y in multiset(s);
      if x == y {
        Twice(t, x);
        Twice(s, x);
        var a, b :| 0 <= a < |s| && 0 <= b < |s| && a != b && s[a] == x && s[b] == x;
      } else {
        var a :| 0 <= a < |s| && s[a] == x;
        var b :| 0 <= b < |s| && s[b] == y;
      }
    }
  }

  /** `x` sits at two different positions of `s` exactly when it occurs twice in `multiset(s)`. */
  lemma {:induction false} Twice<T(!new)>(s: seq<T>, x: T)
    ensures (exists a, b :: 0 <= a < |s| && 0 <= b < |s| && a != b && s[a] == x && s[b] == x)
        <==> multiset(s)[x] >= 2
  {
    if s != [] {
      var r := s[1..];
      assert s == [s[0]] + r;
      assert multiset(s)[x] == (if s[0] == x then 1 else 0) + multiset(r)[x];
      Twice(r, x);
      if multiset(s)[x] >= 2 {
        if s[0] == x {
          assert x in multiset(r);
          var b :| 0 <= b < |r| && r[b] == x;
          assert s[0] == x && s[b + 1] == x;
        } else {
          var a, b :| 0 <= a < |r| && 0 <= b < |r| && a != b && r[a] == x && r[b] == x;
          assert s[a + 1] == x && s[b + 1] == x;
        }
      }
      if exists a, b :: 0 <= a < |s| && 0 <= b < |s| && a != b && s[a] == x && s[b] == x {
        var a, b :| 0 <= a < |s| && 0 <= b < |s| && a != b && s[a] == x && s[b] == x;
        if a == 0 || b == 0 {
          var k := if a == 0 then b else a;
          assert r[k - 1] == x;
          assert x in multiset(r);
        } else {
          assert r[a - 1] == x && r[b - 1] == x;
        }
      }
    }
  }

  lemma PrefixMultiset<T>(s: seq<T>, m: nat)
    requires m <= |s|
    ensures multiset(s[..m]) <= multiset(s)
  {
    assert s == s[..m] + s[m..];
  }

  /** In a sorted sequence, an element outside a non-empty prefix has a key no
      smaller than the prefix's last one. */
  lemma PrefixBound<T>(s: seq<T>, key: T -> int, m: nat, x: T)
    requires SortedBy(s, key) && 0 < m <= |s| && x in s
    ensures x in s[..m] || key(s[m - 1]) <= key(x)
  {
    var k :| 0 <= k < |s| && s[k] == x;
    if k < m {
      assert s[..m][k] == x;
    }
  }

  /** Taking a prefix of a sorted permutation gives a sorted sub-multiset. */
  lemma TakeSortedPrefix<T(!new)>(s: seq<T>, key: T -> int, n: nat)
    ensures var t := Take(SortBy(s, key), n);
      SortedBy(t, key) && multiset(t) <= multiset(s)
  {
    var sorted := SortBy(s, key);
    var t := Take(sorted, n);
    assert t == sorted[..|t|];
    PrefixMultiset(sorted, |t|);
  }

  /** An element left out of the first `n` after sorting has a key no smaller than the last one taken. */
  lemma LeftOutBound<T(!new)>(s: seq<T>, key: T -> int, n: nat, x: T)
    requires n > 0 && x in s
    ensures var t := Take(SortBy(s, key), n);
      |t| > 0 && (x in t || key(t[|t| - 1]) <= key(x))
  {
    var sorted := SortBy(s, key);
    assert x in multiset(s);
    assert x in multiset(sorted);
    var t := Take(sorted, n);
    var m := |t|;
    assert t == sorted[..m];
    PrefixBound(sorted, key, m, x);
  }

  /** The first `n` elements after sorting are the `n` smallest: every element left
      out has a key no smaller than the last one taken. */
  lemma TakeSorted<T(!new)>(s: seq<T>, key: T -> int, n: nat)
    requires n > 0
    ensures var t := Take(SortBy(s, key), n);
      && SortedBy(t, key)
      && multiset(t) <= multiset(s)
      && forall x :: x in s ==> x in t || (|t| > 0 && key(t[|t| - 1]) <= key(x))
  {
    TakeSortedPrefix(s, key, n);
    forall x | x in s ensures x in Take(SortBy(s, key), n) || key(Take(SortBy(s, key), n)[|Take(SortBy(s, key), n)| - 1]) <= key(x) {
      LeftOutBound(s, key, n, x);
    }
  }
}
