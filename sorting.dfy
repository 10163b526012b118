/** Stable ordering by an integer key, as SQL `ORDER BY` over rows kept in
    insertion order and Python's `list.sort(key=...)` produce, together with
    the selections and sums the services compute over the ledger. */
module Sorting {
  import opened Wrappers

  predicate SortedBy<T>(xs: seq<T>, key: T -> int) {
    forall i, j :: 0 <= i < j < |xs| ==> key(xs[i]) <= key(xs[j])
  }

  /** The elements of `xs` satisfying `p`, in order. */
  function Select<T>(xs: seq<T>, p: T -> bool): (r: seq<T>)
    ensures |r| <= |xs|
    ensures forall k :: 0 <= k < |r| ==> p(r[k]) && r[k] in xs
  {
    if xs == [] then []
    else if p(xs[0]) then
      assert xs == [xs[0]] + xs[1..];
      [xs[0]] + Select(xs[1..], p)
    else
      assert xs == [xs[0]] + xs[1..];
      Select(xs[1..], p)
  }

  lemma {:induction false} SelectAppend<T>(xs: seq<T>, ys: seq<T>, p: T -> bool)
    ensures Select(xs + ys, p) == Select(xs, p) + Select(ys, p)
  {
    if xs == [] {
      assert xs + ys == ys;
    } else {
      assert (xs + ys)[1..] == xs[1..] + ys;
      SelectAppend(xs[1..], ys, p);
    }
  }

  /** An element satisfying `p` is kept by `Select`. */
  lemma {:induction false} SelectKeeps<T>(xs: seq<T>, p: T -> bool, x: T)
    requires x in xs && p(x)
    ensures x in Select(xs, p)
  {
    if xs[0] != x {
      SelectKeeps(xs[1..], p, x);
    }
  }

  /** Puts `x` before the first element whose key is not smaller, so equal
      keys keep their order of arrival. */
  function Insert<T>(x: T, xs: seq<T>, key: T -> int): (r: seq<T>)
    ensures |r| == |xs| + 1
  {
    if xs == [] || key(x) <= key(xs[0]) then [x] + xs
    else [xs[0]] + Insert(x, xs[1..], key)
  }

  /** Inserting adds `x` and loses nothing. */
  lemma {:induction false} InsertPermutes<T>(x: T, xs: seq<T>, key: T -> int)
    ensures multiset(Insert(x, xs, key)) == multiset(xs) + multiset{x}
  {
    if xs != [] && key(x) > key(xs[0]) {
      InsertPermutes(x, xs[1..], key);
      assert xs == [xs[0]] + xs[1..];
    }
  }

  /** Insertion sort by `key`. */
  function SortBy<T>(xs: seq<T>, key: T -> int): (r: seq<T>)
    ensures multiset(r) == multiset(xs)
    ensures |r| == |xs|
  {
    if xs == [] then []
    else
      assert xs == [xs[0]] + xs[1..];
      InsertPermutes(xs[0], SortBy(xs[1..], key), key);
      Insert(xs[0], SortBy(xs[1..], key), key)
  }

  lemma {:induction false} InsertSorted<T>(x: T, xs: seq<T>, key: T -> int)
    requires SortedBy(xs, key)
    ensures SortedBy(Insert(x, xs, key), key)
  {
    if xs != [] && key(x) > key(xs[0]) {
      InsertSorted(x, xs[1..], key);
      InsertPermutes(x, xs[1..], key);
      var r := Insert(x, xs[1..], key);
      assert forall k :: 0 <= k < |r| ==> key(xs[0]) <= key(r[k]) by {
        forall k | 0 <= k < |r| ensures key(xs[0]) <= key(r[k]) {
          assert r[k] in multiset(r);
          assert r[k] in multiset(xs[1..]) + multiset{x};
          if r[k] != x {
            assert r[k] in xs[1..];
            var m :| 0 <= m < |xs[1..]| && xs[1..][m] == r[k];
            assert xs[m + 1] == r[k];
          }
        }
      }
    }
  }

  /** The sort orders by key and is a permutation of its input. */
  lemma {:induction false} SortBySorted<T>(xs: seq<T>, key: T -> int)
    ensures SortedBy(SortBy(xs, key), key)
    ensures multiset(SortBy(xs, key)) == multiset(xs)
  {
    if xs != [] {
      SortBySorted(xs[1..], key);
      InsertSorted(xs[0], SortBy(xs[1..], key), key);
    }
  }

  /** The filter "has key `c`". */
  function KeyIs<T>(key: T -> int, c: int): T -> bool {
    y => key(y) == c
  }

  lemma SelectSingleton<T>(x: T, p: T -> bool)
    ensures Select([x], p) == if p(x) then [x] else []
  {
    assert [x][1..] == [];
  }

  lemma {:induction false} InsertStable<T>(x: T, xs: seq<T>, key: T -> int, c: int)
    requires SortedBy(xs, key)
    ensures Select(Insert(x, xs, key), KeyIs(key, c)) == (if key(x) == c then [x] else []) + Select(xs, KeyIs(key, c))
  {
    if xs == [] || key(x) <= key(xs[0]) {
      InsertFrontStable(x, xs, key, c);
    } else {
      InsertStable(x, xs[1..], key, c);
      InsertLaterStable(x, xs, key, c);
    }
  }

  lemma InsertFrontStable<T>(x: T, xs: seq<T>, key: T -> int, c: int)
    requires xs == [] || key(x) <= key(xs[0])
    ensures Select(Insert(x, xs, key), KeyIs(key, c)) == (if key(x) == c then [x] else []) + Select(xs, KeyIs(key, c))
  {
    var p := KeyIs(key, c);
    assert p(x) <==> key(x) == c;
    SelectSingleton(x, p);
    assert Insert(x, xs, key) == [x] + xs;
    SelectAppend([x], xs, p);
  }

  /** Selecting from a list with a first element `y`. */
  lemma SelectCons<T>(y: T, ys: seq<T>, p: T -> bool)
    ensures Select([y] + ys, p) == (if p(y) then [y] else []) + Select(ys, p)
  {
    assert ([y] + ys)[1..] == ys;
  }

  lemma InsertPastHead<T>(x: T, xs: seq<T>, key: T -> int)
    requires xs != [] && key(x) > key(xs[0])
    ensures Insert(x, xs, key) == [xs[0]] + Insert(x, xs[1..], key)
  {
  }

  /** One step of the stability proof, on any lists: a first element `y`
      that the filter rejects whenever `mine` is not empty keeps its place
      after `mine`. */
  lemma SelectStep<T>(y: T, rest: seq<T>, tail: seq<T>, p: T -> bool, mine: seq<T>)
    requires Select(rest, p) == mine + Select(tail, p)
    requires mine != [] ==> !p(y)
    ensures Select([y] + rest, p) == mine + Select([y] + tail, p)
  {
    SelectCons(y, rest, p);
    SelectCons(y, tail, p);
    if mine != [] {
      assert Select([y] + rest, p) == mine + Select(tail, p);
    }
  }

  lemma InsertLaterStable<T>(x: T, xs: seq<T>, key: T -> int, c: int)
    requires xs != [] && key(x) > key(xs[0])
    requires Select(Insert(x, xs[1..], key), KeyIs(key, c)) == (if key(x) == c then [x] else []) + Select(xs[1..], KeyIs(key, c))
    ensures Select(Insert(x, xs, key), KeyIs(key, c)) == (if key(x) == c then [x] else []) + Select(xs, KeyIs(key, c))
  {
    var mine: seq<T> := if key(x) == c then [x] else [];
    InsertPastHead(x, xs, key);
    assert [xs[0]] + xs[1..] == xs;
    SelectStep(xs[0], Insert(x, xs[1..], key), xs[1..], KeyIs(key, c), mine);
  }

  /** The sort is stable: among elements with equal keys, the order of the
      input is kept. */
  lemma {:induction false} SortByStable<T>(xs: seq<T>, key: T -> int, c: int)
    ensures Select(SortBy(xs, key), KeyIs(key, c)) == Select(xs, KeyIs(key, c))
  {
    if xs != [] {
      SortByStable(xs[1..], key, c);
      SortBySorted(xs[1..], key);
      InsertStable(xs[0], SortBy(xs[1..], key), key, c);
      var p := KeyIs(key, c);
      SelectAppend([xs[0]], xs[1..], p);
      assert [xs[0]] + xs[1..] == xs;
    }
  }

  /** `OFFSET skip LIMIT limit`. */
  function Page<T>(xs: seq<T>, skip: nat, limit: nat): (r: seq<T>)
    ensures |r| <= limit
    ensures skip >= |xs| ==> r == []
    ensures forall k :: 0 <= k < |r| ==> skip + k < |xs| && r[k] == xs[skip + k]
  {
    if skip >= |xs| then []
    else if skip + limit >= |xs| then xs[skip..]
    else xs[skip..skip + limit]
  }

  /** A page of a sorted list is sorted. */
  lemma PageSorted<T>(xs: seq<T>, skip: nat, limit: nat, key: T -> int)
    requires SortedBy(xs, key)
    ensures SortedBy(Page(xs, skip, limit), key)
  {
    var r := Page(xs, skip, limit);
    forall i, j | 0 <= i < j < |r| ensures key(r[i]) <= key(r[j]) {
      assert r[i] == xs[skip + i] && r[j] == xs[skip + j];
    }
  }

  /** Every element of a page of the sorted selection satisfies the filter
      and comes from the input. */
  lemma PageOfSelection<T>(xs: seq<T>, p: T -> bool, key: T -> int, skip: nat, limit: nat)
    ensures var page := Page(SortBy(Select(xs, p), key), skip, limit);
      forall k :: 0 <= k < |page| ==> p(page[k]) && page[k] in xs
  {
    var sel := Select(xs, p);
    var sorted := SortBy(sel, key);
    var page := Page(sorted, skip, limit);
    forall k | 0 <= k < |page| ensures p(page[k]) && page[k] in xs {
      var x := page[k];
      assert x == sorted[skip + k];
      assert x in multiset(sorted);
      assert x in multiset(sel);
      assert x in sel;
    }
  }

  /** The sum of `f` over `xs`. */
  function SumOf<T>(xs: seq<T>, f: T -> int): int
  {
    if xs == [] then 0 else f(xs[0]) + SumOf(xs[1..], f)
  }

  /** The sum after one more element. */
  lemma SumOfSnoc<T>(xs: seq<T>, x: T, f: T -> int)
    ensures SumOf(xs + [x], f) == SumOf(xs, f) + f(x)
  {
    SumOfAppend(xs, [x], f);
    assert [x][1..] == [];
  }

  /** The sum over a prefix one element longer. */
  lemma SumOfPrefix<T>(xs: seq<T>, i: nat, f: T -> int)
    requires i < |xs|
    ensures SumOf(xs[..i + 1], f) == SumOf(xs[..i], f) + f(xs[i])
  {
    SumOfSnoc(xs[..i], xs[i], f);
    assert xs[..i + 1] == xs[..i] + [xs[i]];
  }

  lemma {:induction false} SumOfAppend<T>(xs: seq<T>, ys: seq<T>, f: T -> int)
    ensures SumOf(xs + ys, f) == SumOf(xs, f) + SumOf(ys, f)
  {
    if xs == [] {
      assert xs + ys == ys;
    } else {
      assert (xs + ys)[1..] == xs[1..] + ys;
      SumOfAppend(xs[1..], ys, f);
    }
  }

  /** The sum of a non-negative quantity is non-negative. */
  lemma {:induction false} SumOfNonNegative<T>(xs: seq<T>, f: T -> int)
    requires forall k :: 0 <= k < |xs| ==> f(xs[k]) >= 0
    ensures SumOf(xs, f) >= 0
  {
    if xs != [] {
      SumOfNonNegative(xs[1..], f);
    }
  }

  /** The sum over a selection after one element is replaced: the old
      element's share leaves and the new one's arrives. */
  lemma {:induction false} SumSelectUpdate<T>(xs: seq<T>, k: nat, y: T, p: T -> bool, f: T -> int)
    requires k < |xs|
    ensures SumOf(Select(xs[k := y], p), f)
         == SumOf(Select(xs, p), f) - (if p(xs[k]) then f(xs[k]) else 0) + (if p(y) then f(y) else 0)
  {
    if k == 0 {
      assert xs[k := y][1..] == xs[1..];
    } else {
      assert xs[k := y][1..] == xs[1..][k - 1 := y];
      SumSelectUpdate(xs[1..], k - 1, y, p, f);
    }
  }

  lemma {:induction false} SumOfInsert<T>(x: T, xs: seq<T>, key: T -> int, f: T -> int)
    ensures SumOf(Insert(x, xs, key), f) == f(x) + SumOf(xs, f)
  {
    if xs != [] && key(x) > key(xs[0]) {
      SumOfInsert(x, xs[1..], key, f);
      assert Insert(x, xs, key)[1..] == Insert(x, xs[1..], key);
    }
  }

  /** Sorting does not change a sum. */
  lemma {:induction false} SumOfSortBy<T>(xs: seq<T>, key: T -> int, f: T -> int)
    ensures SumOf(SortBy(xs, key), f) == SumOf(xs, f)
  {
    if xs != [] {
      SumOfSortBy(xs[1..], key, f);
      SumOfInsert(xs[0], SortBy(xs[1..], key), key, f);
    }
  }

  /** A selection by "p or q", for disjoint p and q, sums to the two
      selections' sums together. */
  lemma {:induction false} SumSelectSplit<T>(xs: seq<T>, p: T -> bool, q: T -> bool, r: T -> bool, f: T -> int)
    requires forall k :: 0 <= k < |xs| ==> (r(xs[k]) <==> p(xs[k]) || q(xs[k])) && !(p(xs[k]) && q(xs[k]))
    ensures SumOf(Select(xs, p), f) + SumOf(Select(xs, q), f) == SumOf(Select(xs, r), f)
  {
    if xs != [] {
      SumSelectSplit(xs[1..], p, q, r, f);
    }
  }

  /** The sum over a selection after one element is appended. */
  lemma SumSelectAppend<T>(xs: seq<T>, y: T, p: T -> bool, f: T -> int)
    ensures SumOf(Select(xs + [y], p), f) == SumOf(Select(xs, p), f) + (if p(y) then f(y) else 0)
  {
    SelectAppend(xs, [y], p);
    assert [y][1..] == [];
    SumOfAppend(Select(xs, p), Select([y], p), f);
  }

  /** The index of the first element satisfying `p`: Python's
      `next((x for x in xs if p(x)), None)`. */
  function FirstIndex<T>(xs: seq<T>, p: T -> bool): (r: Option<nat>)
    ensures r.Some? ==> r.value < |xs| && p(xs[r.value]) && forall j :: 0 <= j < r.value ==> !p(xs[j])
    ensures r.None? <==> forall j :: 0 <= j < |xs| ==> !p(xs[j])
  {
    FirstIndexFrom(xs, p, 0)
  }

  function FirstIndexFrom<T>(xs: seq<T>, p: T -> bool, i: nat): (r: Option<nat>)
    requires i <= |xs|
    requires forall j :: 0 <= j < i ==> !p(xs[j])
    ensures r.Some? ==> r.value < |xs| && p(xs[r.value]) && forall j :: 0 <= j < r.value ==> !p(xs[j])
    ensures r.None? <==> forall j :: 0 <= j < |xs| ==> !p(xs[j])
    decreases |xs| - i
  {
    if i == |xs| then None
    else if p(xs[i]) then Some(i)
    else FirstIndexFrom(xs, p, i + 1)
  }

  /** Sorting a list that is already in order leaves it as it is. */
  lemma {:induction false} SortByOfSorted<T>(xs: seq<T>, key: T -> int)
    requires SortedBy(xs, key)
    ensures SortBy(xs, key) == xs
  {
    if xs != [] {
      SortByOfSorted(xs[1..], key);
      assert xs == [xs[0]] + xs[1..];
    }
  }

  /** Two complementary selections split a list: together they hold each
      element as often as the list does. */
  lemma {:induction false} SelectComplement<T>(xs: seq<T>, p: T -> bool, q: T -> bool)
    requires forall x :: q(x) == !p(x)
    ensures multiset(Select(xs, p)) + multiset(Select(xs, q)) == multiset(xs)
  {
    if xs != [] {
      var y, rest := xs[0], xs[1..];
      assert xs == [y] + rest;
      SelectComplement(rest, p, q);
      SelectCons(y, rest, p);
      SelectCons(y, rest, q);
      assert multiset((if p(y) then [y] else []) + (if q(y) then [y] else [])) == multiset{y};
    }
  }

  /** A selection holds each element at most as often as the list does. */
  lemma {:induction false} SelectSubMultiset<T>(xs: seq<T>, p: T -> bool)
    ensures multiset(Select(xs, p)) <= multiset(xs)
  {
    if xs != [] {
      SelectSubMultiset(xs[1..], p);
      assert xs == [xs[0]] + xs[1..];
    }
  }
}
