/** The array methods the application uses on its lists, as functions on
    sequences: `filter`, `findIndex` / `find`, and `splice(i, 1)`. */
module Seqs {
  import opened Wrappers

  /** `s.filter(p)`: the elements satisfying p, in their original order. */
  function Filter<T(!new)>(s: seq<T>, p: T -> bool): (r: seq<T>)
    ensures |r| <= |s|
    ensures forall x :: x in r <==> x in s && p(x)
    ensures forall i :: 0 <= i < |r| ==> p(r[i])
  {
    if s == [] then []
    else (if p(s[0]) then [s[0]] else []) + Filter(s[1..], p)
  }

  /** Filtering distributes over concatenation, so it keeps relative order. */
  lemma {:induction false} FilterConcat<T(!new)>(a: seq<T>, b: seq<T>, p: T -> bool)
    ensures Filter(a + b, p) == Filter(a, p) + Filter(b, p)
  {
    if a == [] {
      assert a + b == b;
    } else {
      assert (a + b)[0] == a[0];
      assert (a + b)[1..] == a[1..] + b;
      FilterConcat(a[1..], b, p);
    }
  }

  /** A filter that keeps every element is the identity. */
  lemma {:induction false} FilterAll<T(!new)>(s: seq<T>, p: T -> bool)
    requires forall i :: 0 <= i < |s| ==> p(s[i])
    ensures Filter(s, p) == s
  {
    if s != [] {
      FilterAll(s[1..], p);
    }
  }

  /** `s.findIndex(p)`, with `None` for -1: the first index whose element
      satisfies p. */
  function FirstIndex<T>(s: seq<T>, p: T -> bool): (r: Option<nat>)
    ensures r.Some? ==> r.value < |s| && p(s[r.value])
    ensures r.Some? ==> forall k :: 0 <= k < r.value ==> !p(s[k])
    ensures r.None? <==> forall k :: 0 <= k < |s| ==> !p(s[k])
  {
    if s == [] then None
    else if p(s[0]) then Some(0)
    else match FirstIndex(s[1..], p)
      case None => None
      case Some(i) => Some(i + 1)
  }

  /** `s.find(p)`: the first element satisfying p. */
  function Find<T(!new)>(s: seq<T>, p: T -> bool): (r: Option<T>)
    ensures r.Some? ==> r.value in s && p(r.value)
    ensures r.Some? ==> exists i :: 0 <= i < |s| && s[i] == r.value && forall k :: 0 <= k < i ==> !p(s[k])
    ensures r.None? <==> forall x :: x in s ==> !p(x)
  {
    match FirstIndex(s, p)
    case None => None
    case Some(i) => Some(s[i])
  }

  /** `s.splice(i, 1)`: drop the element at index i. */
  function RemoveAt<T>(s: seq<T>, i: nat): (r: seq<T>)
    requires i < |s|
    ensures |r| == |s| - 1
    ensures forall k :: 0 <= k < i ==> r[k] == s[k]
    ensures forall k :: i <= k < |r| ==> r[k] == s[k + 1]
  {
    s[..i] + s[i + 1..]
  }

  /** One stable insertion step: `x` goes behind every element at the end
      that does not compare above it. */
  function InsertBy<T>(sorted: seq<T>, x: T, cmp: (T, T) -> int): (r: seq<T>)
    ensures |r| == |sorted| + 1
    decreases |sorted|
  {
    if sorted == [] then [x]
    else if cmp(sorted[|sorted| - 1], x) <= 0 then sorted + [x]
    else InsertBy(sorted[..|sorted| - 1], x, cmp) + [sorted[|sorted| - 1]]
  }

  /** `s.sort(cmp)` as a stable insertion sort. */
  function SortBy<T>(s: seq<T>, cmp: (T, T) -> int): (r: seq<T>)
    ensures |r| == |s|
    decreases |s|
  {
    if s == [] then [] else InsertBy(SortBy(s[..|s| - 1], cmp), s[|s| - 1], cmp)
  }

  /** On the elements satisfying `ok`, the comparator orders by `key`. */
  ghost predicate OrdersByKey<T(!new)>(cmp: (T, T) -> int, key: T -> int, ok: T -> bool) {
    forall a, b :: ok(a) && ok(b) ==> (cmp(a, b) <= 0 <==> key(a) <= key(b))
  }

  predicate AllOk<T>(s: seq<T>, ok: T -> bool) {
    forall i :: 0 <= i < |s| ==> ok(s[i])
  }

  predicate SortedByKey<T>(s: seq<T>, key: T -> int) {
    forall i, j :: 0 <= i < j < |s| ==> key(s[i]) <= key(s[j])
  }

  lemma {:induction false} InsertByPermutes<T>(sorted: seq<T>, x: T, cmp: (T, T) -> int)
    ensures multiset(InsertBy(sorted, x, cmp)) == multiset(sorted) + multiset{x}
    decreases |sorted|
  {
    if sorted != [] {
      var init, last := sorted[..|sorted| - 1], sorted[|sorted| - 1];
      assert sorted == init + [last];
      if cmp(last, x) > 0 {
        InsertByPermutes(init, x, cmp);
      }
    }
  }

  /** Sorting rearranges the elements without losing or adding one. */
  lemma {:induction false} SortByPermutes<T>(s: seq<T>, cmp: (T, T) -> int)
    ensures multiset(SortBy(s, cmp)) == multiset(s)
    decreases |s|
  {
    if s != [] {
      var init, last := s[..|s| - 1], s[|s| - 1];
      SortByPermutes(init, cmp);
      InsertByPermutes(SortBy(init, cmp), last, cmp);
      assert s == init + [last];
    }
  }

  /** An insertion step keeps every key at most `bound` when the inserted
      element's key and all the others are. */
  lemma {:induction false} InsertByBounded<T>(sorted: seq<T>, x: T, cmp: (T, T) -> int, key: T -> int, bound: int)
    requires forall i :: 0 <= i < |sorted| ==> key(sorted[i]) <= bound
    requires key(x) <= bound
    ensures forall i :: 0 <= i < |sorted| + 1 ==> key(InsertBy(sorted, x, cmp)[i]) <= bound
    decreases |sorted|
  {
    if sorted != [] {
      var init, last := sorted[..|sorted| - 1], sorted[|sorted| - 1];
      if cmp(last, x) > 0 {
        assert forall i :: 0 <= i < |init| ==> init[i] == sorted[i];
        InsertByBounded(init, x, cmp, key, bound);
      }
    }
  }

  lemma {:induction false} InsertByKeepsOrder<T(!new)>(sorted: seq<T>, x: T, cmp: (T, T) -> int,
                                                       key: T -> int, ok: T -> bool)
    requires OrdersByKey(cmp, key, ok) && AllOk(sorted, ok) && ok(x) && SortedByKey(sorted, key)
    ensures AllOk(InsertBy(sorted, x, cmp), ok) && SortedByKey(InsertBy(sorted, x, cmp), key)
    decreases |sorted|
  {
    if sorted != [] {
      var init, last := sorted[..|sorted| - 1], sorted[|sorted| - 1];
      if cmp(last, x) > 0 {
        assert AllOk(init, ok) && SortedByKey(init, key) by {
          forall i | 0 <= i < |init| ensures init[i] == sorted[i] { }
        }
        InsertByKeepsOrder(init, x, cmp, key, ok);
        InsertByBounded(init, x, cmp, key, key(last));
      }
    }
  }

  /** When the comparator orders every element by a key, the sorted
      sequence is in ascending key order. */
  lemma {:induction false} SortByOrders<T(!new)>(s: seq<T>, cmp: (T, T) -> int, key: T -> int, ok: T -> bool)
    requires OrdersByKey(cmp, key, ok) && AllOk(s, ok)
    ensures AllOk(SortBy(s, cmp), ok) && SortedByKey(SortBy(s, cmp), key)
    decreases |s|
  {
    if s != [] {
      var init := s[..|s| - 1];
      assert AllOk(init, ok) by {
        forall i | 0 <= i < |init| ensures init[i] == s[i] { }
      }
      SortByOrders(init, cmp, key, ok);
      InsertByKeepsOrder(SortBy(init, cmp), s[|s| - 1], cmp, key, ok);
    }
  }

  /** The largest value of `f` over the sequence, 0 when it is empty. */
  function MaxOf<T>(s: seq<T>, f: T -> nat): nat
    decreases |s|
  {
    if s == [] then 0
    else
      var m, v := MaxOf(s[..|s| - 1], f), f(s[|s| - 1]);
      if v > m then v else m
  }

  /** `MaxOf` bounds every value and is 0 or one of them. */
  lemma {:induction false} MaxOfMeaning<T>(s: seq<T>, f: T -> nat)
    ensures forall i :: 0 <= i < |s| ==> f(s[i]) <= MaxOf(s, f)
    ensures MaxOf(s, f) == 0 || exists i :: 0 <= i < |s| && f(s[i]) == MaxOf(s, f)
    decreases |s|
  {
    if s != [] {
      var init := s[..|s| - 1];
      MaxOfMeaning(init, f);
      forall i | 0 <= i < |s| ensures f(s[i]) <= MaxOf(s, f) {
        if i < |init| {
          assert s[i] == init[i];
        }
      }
      if MaxOf(s, f) != 0 && MaxOf(s, f) == MaxOf(init, f) {
        var k :| 0 <= k < |init| && f(init[k]) == MaxOf(init, f);
        assert s[k] == init[k];
      }
    }
  }

  // ---------------------------------------------------------------------------
  // Dropping elements by key

  /** The elements whose key is not in `drop`, in their original order. */
  function DropKeys<T, K>(s: seq<T>, key: T -> K, drop: set<K>): (r: seq<T>)
    ensures |r| <= |s|
  {
    if s == [] then []
    else (if key(s[0]) in drop then [] else [s[0]]) + DropKeys(s[1..], key, drop)
  }

  /** An element is kept exactly when it is in the sequence and its key is
      not dropped. */
  lemma {:induction false} DropKeysMeaning<T(!new), K>(s: seq<T>, key: T -> K, drop: set<K>)
    ensures forall x :: x in DropKeys(s, key, drop) <==> x in s && key(x) !in drop
  {
    if s != [] {
      DropKeysMeaning(s[1..], key, drop);
      assert s == [s[0]] + s[1..];
    }
  }

  /** Dropping keys no element has is the identity. */
  lemma {:induction false} DropKeysNothing<T, K>(s: seq<T>, key: T -> K, drop: set<K>)
    requires forall i :: 0 <= i < |s| ==> key(s[i]) !in drop
    ensures DropKeys(s, key, drop) == s
  {
    if s != [] {
      DropKeysNothing(s[1..], key, drop);
    }
  }

  /** Dropping distributes over concatenation. */
  lemma {:induction false} DropKeysConcat<T, K>(a: seq<T>, b: seq<T>, key: T -> K, drop: set<K>)
    ensures DropKeys(a + b, key, drop) == DropKeys(a, key, drop) + DropKeys(b, key, drop)
  {
    if a == [] {
      assert a + b == b;
    } else {
      assert (a + b)[0] == a[0];
      assert (a + b)[1..] == a[1..] + b;
      DropKeysConcat(a[1..], b, key, drop);
    }
  }

  /** Two rounds of dropping are one round with both sets. */
  lemma {:induction false} DropKeysTwice<T, K>(s: seq<T>, key: T -> K, first: set<K>, second: set<K>)
    ensures DropKeys(DropKeys(s, key, first), key, second) == DropKeys(s, key, first + second)
  {
    if s != [] {
      var rest := DropKeys(s[1..], key, first);
      DropKeysTwice(s[1..], key, first, second);
      if key(s[0]) !in first {
        var kept := DropKeys(s, key, first);
        assert kept == [s[0]] + rest;
        assert kept[0] == s[0] && kept[1..] == rest;
        assert DropKeys(kept, key, second) ==
               (if key(s[0]) in second then [] else [s[0]]) + DropKeys(rest, key, second);
      } else {
        assert DropKeys(s, key, first) == rest;
        assert DropKeys(s, key, first + second) == DropKeys(s[1..], key, first + second);
      }
    }
  }

  /** No two elements share a key. */
  predicate DistinctKeys<T, K(==)>(s: seq<T>, key: T -> K) {
    forall a, b :: 0 <= a < b < |s| ==> key(s[a]) != key(s[b])
  }

  /** Dropping elements keeps the keys distinct. */
  lemma {:induction false} DropKeysKeepsDistinct<T(!new), K>(s: seq<T>, key: T -> K, drop: set<K>)
    requires DistinctKeys(s, key)
    ensures DistinctKeys(DropKeys(s, key, drop), key)
  {
    if s != [] {
      var rest := s[1..];
      assert DistinctKeys(rest, key) by {
        forall a, b | 0 <= a < b < |rest| ensures key(rest[a]) != key(rest[b]) {
          assert rest[a] == s[a + 1] && rest[b] == s[b + 1];
        }
      }
      DropKeysKeepsDistinct(rest, key, drop);
      DropKeysMeaning(rest, key, drop);
      var kept := DropKeys(rest, key, drop);
      if key(s[0]) !in drop {
        forall k | 0 <= k < |kept| ensures key(kept[k]) != key(s[0]) {
          assert kept[k] in rest;
        }
      }
    }
  }

  /** Removing the element at index i, when no other element has its key, is
      dropping that key. */
  lemma {:induction false} RemoveAtIsDropKey<T, K>(s: seq<T>, key: T -> K, i: nat)
    requires i < |s|
    requires forall k :: 0 <= k < |s| && k != i ==> key(s[k]) != key(s[i])
    ensures RemoveAt(s, i) == DropKeys(s, key, {key(s[i])})
  {
    var rest := s[1..];
    if i == 0 {
      forall k | 0 <= k < |rest| ensures key(rest[k]) !in {key(s[0])} {
        assert rest[k] == s[k + 1];
      }
      DropKeysNothing(rest, key, {key(s[0])});
      assert RemoveAt(s, 0) == rest;
    } else {
      forall k | 0 <= k < |rest| && k != i - 1 ensures key(rest[k]) != key(rest[i - 1]) {
        assert rest[k] == s[k + 1];
      }
      RemoveAtIsDropKey(rest, key, i - 1);
      assert RemoveAt(s, i) == [s[0]] + RemoveAt(rest, i - 1);
    }
  }

  // ---------------------------------------------------------------------------
  // Numbered concatenation

  /** `part(from + 1, s[0]) + part(from + 2, s[1]) + ...`: one numbered piece
      per element, joined in order. */
  function ConcatNumbered<T, U>(s: seq<T>, from: nat, part: (nat, T) -> seq<U>): seq<U>
    decreases |s|
  {
    if s == [] then [] else part(from + 1, s[0]) + ConcatNumbered(s[1..], from + 1, part)
  }

  /** The numbering runs on across a split: the pieces of `a + b` are those of
      `a` followed by those of `b` numbered after `a`. */
  lemma {:induction false} ConcatNumberedAppend<T, U>(a: seq<T>, b: seq<T>, from: nat, part: (nat, T) -> seq<U>)
    ensures ConcatNumbered(a + b, from, part) == ConcatNumbered(a, from, part) + ConcatNumbered(b, from + |a|, part)
    decreases |a|
  {
    if a == [] {
      assert a + b == b;
    } else {
      assert (a + b)[0] == a[0];
      assert (a + b)[1..] == a[1..] + b;
      ConcatNumberedAppend(a[1..], b, from + 1, part);
    }
  }

  /** The element at index i contributes the piece numbered `from + i + 1`,
      between the pieces of the elements before and after it. */
  lemma ConcatNumberedAt<T, U>(s: seq<T>, from: nat, part: (nat, T) -> seq<U>, i: nat)
    requires i < |s|
    ensures ConcatNumbered(s, from, part) ==
            ConcatNumbered(s[..i], from, part) + part(from + i + 1, s[i]) +
            ConcatNumbered(s[i + 1..], from + i + 1, part)
  {
    assert s == s[..i] + s[i..];
    ConcatNumberedAppend(s[..i], s[i..], from, part);
    assert s[i..][0] == s[i] && s[i..][1..] == s[i + 1..];
  }

  /** A single element contributes its one piece. */
  lemma ConcatNumberedSingle<T, U>(x: T, from: nat, part: (nat, T) -> seq<U>)
    ensures ConcatNumbered([x], from, part) == part(from + 1, x)
  {
    assert ConcatNumbered([x], from, part) == part(from + 1, x) + ConcatNumbered([], from + 1, part);
  }

  /** Appending an element appends its piece, numbered after the others. */
  lemma ConcatNumberedSnoc<T, U>(s: seq<T>, x: T, from: nat, part: (nat, T) -> seq<U>)
    ensures ConcatNumbered(s + [x], from, part) == ConcatNumbered(s, from, part) + part(from + |s| + 1, x)
  {
    ConcatNumberedAppend(s, [x], from, part);
    ConcatNumberedSingle(x, from + |s|, part);
  }

  /** A prefix one longer is the prefix and the next element. */
  lemma TakeSnoc<T>(s: seq<T>, i: nat)
    requires i < |s|
    ensures s[..i + 1] == s[..i] + [s[i]]
  {
  }

  /** Appending two pieces one after the other appends their concatenation. */
  lemma AppendAssoc<T>(x: seq<T>, a: seq<T>, b: seq<T>)
    ensures x + a + b == x + (a + b)
  {
  }
}
