/** Optional values and the collection queries the document store performs:
    filtering by a predicate and sorting by a numeric key, largest first. */
module Seqs {
  import opened Common

  /** Keeps the elements satisfying `p`, in their original order. */
  function Filter<T(!new)>(xs: seq<T>, p: T -> bool): (r: seq<T>)
    ensures |r| <= |xs|
    ensures forall x :: x in r <==> x in xs && p(x)
    ensures forall k :: 0 <= k < |r| ==> p(r[k])
  {
    if xs == [] then []
    else (if p(xs[0]) then [xs[0]] else []) + Filter(xs[1..], p)
  }

  lemma {:induction false} FilterAppend<T(!new)>(xs: seq<T>, ys: seq<T>, p: T -> bool)
    ensures Filter(xs + ys, p) == Filter(xs, p) + Filter(ys, p)
  {
    if xs != [] {
      assert (xs + ys)[1..] == xs[1..] + ys;
      FilterAppend(xs[1..], ys, p);
    } else {
      assert xs + ys == ys;
    }
  }

  /** Filtering keeps everything when every element qualifies. */
  lemma {:induction false} FilterAll<T(!new)>(xs: seq<T>, p: T -> bool)
    requires forall k :: 0 <= k < |xs| ==> p(xs[k])
    ensures Filter(xs, p) == xs
  {
    if xs != [] {
      FilterAll(xs[1..], p);
      assert xs == [xs[0]] + xs[1..];
    }
  }

  /** Filtering keeps nothing when no element qualifies. */
  lemma {:induction false} FilterNone<T(!new)>(xs: seq<T>, p: T -> bool)
    requires forall k :: 0 <= k < |xs| ==> !p(xs[k])
    ensures Filter(xs, p) == []
  {
    if xs != [] {
      FilterNone(xs[1..], p);
    }
  }

  /** Filtering out the one element that fails `p` leaves the others in place. */
  lemma FilterDropOne<T(!new)>(before: seq<T>, x: T, after: seq<T>, p: T -> bool)
    requires !p(x)
    requires forall k :: 0 <= k < |before| ==> p(before[k])
    requires forall k :: 0 <= k < |after| ==> p(after[k])
    ensures Filter(before + [x] + after, p) == before + after
  {
    FilterAppend(before + [x], after, p);
    FilterAppend(before, [x], p);
    FilterAll(before, p);
    FilterAll(after, p);
    assert Filter([x], p) == [] by {
      assert [x][1..] == [];
    }
    assert Filter(before + [x], p) == before;
  }

  /** Filtering only drops elements, so it preserves a strict ascending order. */
  lemma {:induction false} FilterAscending<T(!new)>(xs: seq<T>, p: T -> bool, key: T -> int)
    requires Ascending(xs, key)
    ensures Ascending(Filter(xs, p), key)
  {
    if xs != [] {
      FilterAscending(xs[1..], p, key);
      var rest := Filter(xs[1..], p);
      forall y | y in rest ensures key(xs[0]) < key(y) {
        var k :| 0 <= k < |xs[1..]| && xs[1..][k] == y;
        assert xs[k + 1] == y;
      }
    }
  }

  /** Every element's key is strictly smaller than the next one's. */
  ghost predicate Ascending<T>(xs: seq<T>, key: T -> int) {
    forall i, j :: 0 <= i < j < |xs| ==> key(xs[i]) < key(xs[j])
  }

  ghost predicate SortedDesc<T>(xs: seq<T>, key: T -> int) {
    forall i, j :: 0 <= i < j < |xs| ==> key(xs[i]) >= key(xs[j])
  }

  /** Inserts `x` before the first element whose key is not larger. */
  function Insert<T>(x: T, xs: seq<T>, key: T -> int): (r: seq<T>)
    requires SortedDesc(xs, key)
    ensures SortedDesc(r, key)
    ensures multiset(r) == multiset(xs) + multiset{x}
    ensures |r| == |xs| + 1
  {
    if xs == [] then [x]
    else if key(x) >= key(xs[0]) then [x] + xs
    else
      var rest := Insert(x, xs[1..], key);
      InsertBelowHead(x, xs, key, rest);
      [xs[0]] + rest
  }

  lemma InsertBelowHead<T>(x: T, xs: seq<T>, key: T -> int, rest: seq<T>)
    requires xs != [] && SortedDesc(xs, key) && key(x) < key(xs[0])
    requires SortedDesc(rest, key)
    requires multiset(rest) == multiset(xs[1..]) + multiset{x}
    ensures SortedDesc([xs[0]] + rest, key)
    ensures multiset([xs[0]] + rest) == multiset(xs) + multiset{x}
  {
    assert xs == [xs[0]] + xs[1..];
    forall j | 0 <= j < |rest| ensures key(xs[0]) >= key(rest[j]) {
      assert rest[j] in multiset(rest);
      if rest[j] != x {
        assert rest[j] in multiset(xs[1..]);
        var k :| 0 <= k < |xs[1..]| && xs[1..][k] == rest[j];
        assert xs[k + 1] == rest[j];
      }
    }
    var r := [xs[0]] + rest;
    forall i, j | 0 <= i < j < |r| ensures key(r[i]) >= key(r[j]) {
      assert r[j] == rest[j - 1];
      if i > 0 { assert r[i] == rest[i - 1]; }
    }
  }

  /** Sorting by `key`, largest first (a query's `.sort({ key: -1 })`): the
      result is ordered and holds exactly the input's elements. */
  function SortDesc<T>(xs: seq<T>, key: T -> int): (r: seq<T>)
    ensures SortedDesc(r, key)
    ensures multiset(r) == multiset(xs)
    ensures |r| == |xs|
  {
    if xs == [] then []
    else
      var rest := xs[1..];
      var sorted := SortDesc(rest, key);
      assert xs == [xs[0]] + rest;
      assert multiset(xs) == multiset{xs[0]} + multiset(rest);
      Insert(xs[0], sorted, key)
  }

  /** Sorting neither adds nor drops elements. */
  lemma SortDescMembers<T>(xs: seq<T>, key: T -> int)
    ensures forall x :: x in SortDesc(xs, key) <==> x in xs
  {
    var r := SortDesc(xs, key);
    forall x ensures x in r <==> x in xs {
      assert x in r <==> x in multiset(r);
      assert x in xs <==> x in multiset(xs);
    }
  }

  function Reverse<T>(xs: seq<T>): (r: seq<T>)
    ensures |r| == |xs|
  {
    if xs == [] then [] else Reverse(xs[1..]) + [xs[0]]
  }

  lemma {:induction false} ReverseAt<T>(xs: seq<T>, k: nat)
    requires k < |xs|
    ensures Reverse(xs)[k] == xs[|xs| - 1 - k]
  {
    if k < |xs| - 1 { ReverseAt(xs[1..], k); }
  }

  /** Reversing a sequence with one more element at the end puts that
      element first. */
  lemma {:induction false} ReverseSnoc<T>(xs: seq<T>, y: T)
    ensures Reverse(xs + [y]) == [y] + Reverse(xs)
  {
    if xs != [] {
      assert (xs + [y])[1..] == xs[1..] + [y];
      ReverseSnoc(xs[1..], y);
    }
  }

  /** Inserting an element whose key is below every other key puts it last. */
  lemma {:induction false} InsertSmallest<T>(x: T, xs: seq<T>, key: T -> int)
    requires SortedDesc(xs, key)
    requires forall y :: y in xs ==> key(x) < key(y)
    ensures Insert(x, xs, key) == xs + [x]
  {
    if xs != [] {
      InsertSmallest(x, xs[1..], key);
      assert xs == [xs[0]] + xs[1..];
    }
  }

  /** When the keys already ascend strictly (records stored in creation order),
      newest-first sorting is simply the reverse order. */
  lemma {:induction false} SortAscendingIsReverse<T>(xs: seq<T>, key: T -> int)
    requires Ascending(xs, key)
    ensures SortDesc(xs, key) == Reverse(xs)
  {
    if xs != [] {
      assert Ascending(xs[1..], key);
      SortAscendingIsReverse(xs[1..], key);
      var rest := SortDesc(xs[1..], key);
      forall y | y in rest ensures key(xs[0]) < key(y) {
        assert y in multiset(rest);
        assert y in xs[1..];
      }
      InsertSmallest(xs[0], rest, key);
    }
  }

  /** Appending an element that does not satisfy `p` leaves the first match
      unchanged. */
  lemma {:induction false} FindAppendMiss<T>(xs: seq<T>, y: T, p: T -> bool)
    requires !p(y)
    ensures Find(xs + [y], p) == Find(xs, p)
  {
    if xs == [] {
      assert [] + [y] == [y];
    } else {
      assert (xs + [y])[1..] == xs[1..] + [y];
      FindAppendMiss(xs[1..], y, p);
    }
  }

  /** Appending the only element that satisfies `p` makes it the first match. */
  lemma {:induction false} FindAppendHit<T>(xs: seq<T>, y: T, p: T -> bool)
    requires Find(xs, p).None? && p(y)
    ensures Find(xs + [y], p) == Some(y)
  {
    if xs == [] {
      assert [] + [y] == [y];
    } else {
      assert (xs + [y])[1..] == xs[1..] + [y];
      assert !p(xs[0]);
      FindAppendHit(xs[1..], y, p);
    }
  }

  function Map<T, U>(xs: seq<T>, f: T -> U): (r: seq<U>)
    ensures |r| == |xs|
    ensures forall k :: 0 <= k < |xs| ==> r[k] == f(xs[k])
  {
    seq(|xs|, k requires 0 <= k < |xs| => f(xs[k]))
  }

  /** The first element satisfying `p`, as Array.prototype.find and a
      query's `findOne` return it. */
  function Find<T(==)>(xs: seq<T>, p: T -> bool): (r: Option<T>)
    ensures r.Some? <==> exists k :: 0 <= k < |xs| && p(xs[k])
    ensures r.Some? ==> r.value in xs && p(r.value)
    ensures r.Some? ==> exists k :: 0 <= k < |xs| && xs[k] == r.value
                                   && forall j :: 0 <= j < k ==> !p(xs[j])
  {
    if xs == [] then None
    else if p(xs[0]) then Some(xs[0])
    else
      var r := Find(xs[1..], p);
      assert forall k :: 1 <= k < |xs| ==> xs[k] == xs[1..][k - 1];
      if r.Some? then
        var k :| 0 <= k < |xs[1..]| && xs[1..][k] == r.value && forall j :: 0 <= j < k ==> !p(xs[1..][j]);
        assert xs[k + 1] == r.value;
        r
      else r
  }
}
