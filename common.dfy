/** Small shared vocabulary: an optional value, integer min/max, and the stable
    sort that Python's `sorted(..., key=...)` performs on integer keys. */
module Common {

  datatype Option<T> = None | Some(value: T)

  function Min(a: int, b: int): int { if a <= b then a else b }

  function Max(a: int, b: int): int { if a >= b then a else b }

  /** Every element's key is at most the key of every later element. */
  predicate SortedBy<T>(s: seq<T>, key: T -> int)
  {
    forall i, j :: 0 <= i < j < |s| ==> key(s[i]) <= key(s[j])
  }

  /** Inserts `x` before the first element whose key is not smaller than its own. */
  function InsertBy<T>(x: T, s: seq<T>, key: T -> int): (r: seq<T>)
    ensures |r| == |s| + 1
  {
    if |s| == 0 || key(x) <= key(s[0]) then [x] + s
    else [s[0]] + InsertBy(x, s[1..], key)
  }

  /** Insertion adds exactly `x`, and into a sorted sequence it keeps the
      sequence sorted. */
  lemma {:induction false} InsertByProperties<T>(x: T, s: seq<T>, key: T -> int)
    ensures multiset(InsertBy(x, s, key)) == multiset(s) + multiset{x}
    ensures InsertBy(x, s, key)[0] == x || InsertBy(x, s, key)[0] == s[0]
    ensures SortedBy(s, key) ==> SortedBy(InsertBy(x, s, key), key)
    decreases |s|
  {
    if |s| > 0 && key(x) > key(s[0]) {
      var tail := InsertBy(x, s[1..], key);
      InsertByProperties(x, s[1..], key);
      assert s == [s[0]] + s[1..];
      assert InsertBy(x, s, key) == [s[0]] + tail;
      if SortedBy(s, key) {
        assert SortedBy(s[1..], key);
        forall j | 0 < j < |[s[0]] + tail| ensures key(s[0]) <= key(([s[0]] + tail)[j]) {
          var e := tail[j - 1];
          assert e in multiset(s[1..]) + multiset{x};
          if e != x {
            assert e in s[1..];
          }
        }
      }
    }
  }

  /** Python's `sorted(s, key=key)`: a permutation of `s` in non-decreasing key
      order. Elements with equal keys keep their relative order (each element
      is inserted before the first element whose key is not smaller, and the
      elements are inserted from the back), as Python's sort does. */
  function SortBy<T>(s: seq<T>, key: T -> int): (r: seq<T>)
    ensures |r| == |s|
    ensures multiset(r) == multiset(s)
    ensures SortedBy(r, key)
  {
    if |s| == 0 then []
    else
      var rest := SortBy(s[1..], key);
      InsertByProperties(s[0], rest, key);
      assert s == [s[0]] + s[1..];
      InsertBy(s[0], rest, key)
  }

  /** The elements of `s` whose key is `k`, in order. */
  function WithKey<T>(s: seq<T>, key: T -> int, k: int): seq<T>
    decreases |s|
  {
    if |s| == 0 then [] else (if key(s[0]) == k then [s[0]] else []) + WithKey(s[1..], key, k)
  }

  /** Every element `InsertBy` passes over has a smaller key than `x`, so among
      the elements of `x`'s key, `x` comes first. */
  lemma {:induction false} InsertByWithKey<T>(x: T, s: seq<T>, key: T -> int, k: int)
    ensures WithKey(InsertBy(x, s, key), key, k) == (if key(x) == k then [x] else []) + WithKey(s, key, k)
    decreases |s|
  {
    if |s| == 0 || key(x) <= key(s[0]) {
      assert ([x] + s)[1..] == s;
    } else {
      var tail := InsertBy(x, s[1..], key);
      InsertByWithKey(x, s[1..], key, k);
      assert ([s[0]] + tail)[1..] == tail;
    }
  }

  /** `SortBy` is stable: for every key, the elements with that key appear in
      the result in the order they have in the input. */
  lemma {:induction false} SortByStable<T>(s: seq<T>, key: T -> int, k: int)
    ensures WithKey(SortBy(s, key), key, k) == WithKey(s, key, k)
    decreases |s|
  {
    if |s| > 0 {
      SortByStable(s[1..], key, k);
      InsertByWithKey(s[0], SortBy(s[1..], key), key, k);
    }
  }

  /** `step` applied to each element in turn, as a `for` loop does. */
  function FoldLeft<S, X>(step: (S, X) -> S, init: S, xs: seq<X>): S
    decreases |xs|
  {
    if |xs| == 0 then init else step(FoldLeft(step, init, xs[..|xs| - 1]), xs[|xs| - 1])
  }

  /** A loop over `a + b` is the loop over `a`, then the loop over `b`. */
  lemma {:induction false} FoldLeftAppend<S, X>(step: (S, X) -> S, init: S, a: seq<X>, b: seq<X>)
    ensures FoldLeft(step, init, a + b) == FoldLeft(step, FoldLeft(step, init, a), b)
    decreases |b|
  {
    if |b| == 0 {
      assert a + b == a;
    } else {
      assert (a + b)[..|a + b| - 1] == a + b[..|b| - 1];
      FoldLeftAppend(step, init, a, b[..|b| - 1]);
    }
  }

  /** Python's `s[:n]` for a non-negative `n`. */
  function Take<T>(s: seq<T>, n: nat): (r: seq<T>)
    ensures |r| == Min(n, |s|)
    ensures forall i :: 0 <= i < |r| ==> r[i] == s[i]
  {
    if n <= |s| then s[..n] else s
  }

  /** Python's `s[-n:]` for a positive `n` (the last `n` elements, or all of them). */
  function Last<T>(s: seq<T>, n: nat): (r: seq<T>)
    ensures |r| == Min(n, |s|)
    ensures forall i :: 0 <= i < |r| ==> r[i] == s[|s| - |r| + i]
  {
    if n <= |s| then s[|s| - n..] else s
  }

  /** No element occurs twice. */
  predicate NoDup<T(==)>(s: seq<T>)
  {
    forall i, j :: 0 <= i < j < |s| ==> s[i] != s[j]
  }

  /** Appending a new element keeps a sequence free of duplicates. */
  lemma NoDupAppend<T>(s: seq<T>, x: T)
    requires NoDup(s) && x !in s
    ensures NoDup(s + [x])
  {
    forall i, j | 0 <= i < j < |s + [x]| ensures (s + [x])[i] != (s + [x])[j] {
      assert (s + [x])[i] == s[i];
    }
  }

  /** Removes the element at index `i` (Python's `list.pop(i)`). */
  function RemoveAt<T>(s: seq<T>, i: nat): (r: seq<T>)
    requires i < |s|
    ensures |r| == |s| - 1
    ensures multiset(r) == multiset(s) - multiset{s[i]}
    ensures forall k :: 0 <= k < i ==> r[k] == s[k]
    ensures forall k :: i <= k < |r| ==> r[k] == s[k + 1]
  {
    assert s == s[..i] + [s[i]] + s[i + 1..];
    s[..i] + s[i + 1..]
  }

  /** Removes every occurrence of `x`, keeping the order of the rest (Python's
      `del d[x]` on the ordered key list of a dict). */
  function Remove<T(==,!new)>(s: seq<T>, x: T): (r: seq<T>)
    ensures |r| <= |s|
    ensures x !in r
    ensures forall y :: y in r <==> y in s && y != x
    ensures x !in s ==> r == s
  {
    if |s| == 0 then []
    else if s[0] == x then Remove(s[1..], x)
    else [s[0]] + Remove(s[1..], x)
  }

  /** Removing from a sequence without duplicates keeps it so, and removes
      exactly one element when the value is present. */
  lemma {:induction false} RemoveNoDup<T(!new)>(s: seq<T>, x: T)
    requires NoDup(s)
    ensures NoDup(Remove(s, x))
    ensures x in s ==> |Remove(s, x)| == |s| - 1
    decreases |s|
  {
    if |s| > 0 {
      assert s[0] !in s[1..];
      RemoveNoDup(s[1..], x);
      if s[0] != x {
        var t := Remove(s[1..], x);
        assert NoDup([s[0]] + t) by {
          forall i, j | 0 <= i < j < |[s[0]] + t| ensures ([s[0]] + t)[i] != ([s[0]] + t)[j] {
            if i == 0 { assert ([s[0]] + t)[j] in t; }
          }
        }
      } else {
        assert x !in s[1..];
      }
    }
  }

  /** Python's `d[x] = v` on the ordered key list of a dict: a new key goes at the
      end, an existing key keeps its place. */
  function AppendNew<T(==,!new)>(s: seq<T>, x: T): (r: seq<T>)
    ensures forall y :: y in r <==> y in s || y == x
    ensures NoDup(s) ==> NoDup(r)
    ensures x in s ==> r == s
    ensures x !in s ==> r == s + [x]
  {
    if x in s then s else s + [x]
  }

  /** In a sequence without duplicates, deleting the value at index `i` is
      popping index `i`. */
  lemma {:induction false} RemoveAtIsRemove<T(!new)>(s: seq<T>, i: nat)
    requires i < |s| && NoDup(s)
    ensures Remove(s, s[i]) == RemoveAt(s, i)
    decreases i
  {
    if i > 0 {
      RemoveAtIsRemove(s[1..], i - 1);
      assert s[1..][i - 1] == s[i];
      assert RemoveAt(s, i) == [s[0]] + RemoveAt(s[1..], i - 1);
    } else {
      assert s[0] !in s[1..];
    }
  }

  /** The elements of `s` that are not in `xs`, in their original order. */
  function Without<T(==,!new)>(s: seq<T>, xs: seq<T>): (r: seq<T>)
    ensures |r| <= |s|
    ensures forall y :: y in r <==> y in s && y !in xs
  {
    if |s| == 0 then []
    else
      var t := Without(s[1..], xs);
      if s[0] in xs then t else [s[0]] + t
  }

  /** Filtering a sequence without duplicates keeps it so. */
  lemma {:induction false} WithoutNoDup<T(!new)>(s: seq<T>, xs: seq<T>)
    requires NoDup(s)
    ensures NoDup(Without(s, xs))
    decreases |s|
  {
    if |s| > 0 {
      assert s[0] !in s[1..];
      WithoutNoDup(s[1..], xs);
      if s[0] !in xs {
        var t := Without(s[1..], xs);
        assert NoDup([s[0]] + t) by {
          forall i, j | 0 <= i < j < |[s[0]] + t| ensures ([s[0]] + t)[i] != ([s[0]] + t)[j] {
            if i == 0 { assert ([s[0]] + t)[j] in t; }
          }
        }
      }
    }
  }

  /** Excluding nothing keeps everything. */
  lemma {:induction false} WithoutNothing<T(!new)>(s: seq<T>)
    ensures Without(s, []) == s
  {
    if |s| > 0 {
      WithoutNothing(s[1..]);
    }
  }

  /** Deleting one more element is filtering with one more excluded value. */
  lemma {:induction false} RemoveWithout<T(!new)>(s: seq<T>, xs: seq<T>, x: T)
    ensures Remove(Without(s, xs), x) == Without(s, xs + [x])
  {
    if |s| > 0 {
      RemoveWithout(s[1..], xs, x);
      if s[0] !in xs {
        var t := Without(s[1..], xs);
        assert ([s[0]] + t)[1..] == t;
      }
    }
  }

  /** A non-empty set has an element; lets a method choose one with `:|`
      whatever the element type. */
  lemma Pick<T>(s: set<T>) returns (x: T)
    requires s != {}
    ensures x in s
  {
    if forall y :: y !in s { assert false; }
    x :| x in s;
  }

  // ---------------------------------------------------------------------------
  // Sliding time windows

  /** The list comprehension `[x for x in s if p(x)]`. */
  function Filter<T(!new)>(s: seq<T>, p: T -> bool): (r: seq<T>)
    ensures |r| <= |s|
    ensures forall x :: x in r <==> x in s && p(x)
    decreases |s|
  {
    if |s| == 0 then []
    else
      var rest := Filter(s[..|s| - 1], p);
      assert s == s[..|s| - 1] + [s[|s| - 1]];
      if p(s[|s| - 1]) then rest + [s[|s| - 1]] else rest
  }

  /** A sequence whose every element passes is kept whole. */
  lemma {:induction false} FilterKeepsAll<T(!new)>(s: seq<T>, p: T -> bool)
    requires forall x :: x in s ==> p(x)
    ensures Filter(s, p) == s
    decreases |s|
  {
    if |s| > 0 {
      var init := s[..|s| - 1];
      assert s == init + [s[|s| - 1]];
      assert forall x :: x in init ==> x in s;
      assert s[|s| - 1] in s;
      FilterKeepsAll(init, p);
    }
  }

  /** Filtering first by a weaker test does not change the result of a
      stricter one, and the stricter test keeps no more elements. */
  lemma {:induction false} FilterNarrower<T(!new)>(s: seq<T>, p: T -> bool, q: T -> bool)
    requires forall x :: q(x) ==> p(x)
    ensures Filter(Filter(s, p), q) == Filter(s, q)
    ensures |Filter(s, q)| <= |Filter(s, p)|
    decreases |s|
  {
    if |s| > 0 {
      var init := s[..|s| - 1];
      var x := s[|s| - 1];
      FilterNarrower(init, p, q);
      if p(x) {
        var f := Filter(init, p) + [x];
        assert f[..|f| - 1] == Filter(init, p);
      }
    }
  }

  /** The timestamps of `ts` less than `span` seconds before `now`, in order:
      the list comprehension `[t for t in ts if now - t < span]`. */
  function Recent(ts: seq<int>, now: int, span: int): (r: seq<int>)
    ensures |r| <= |ts|
    ensures forall t :: t in r <==> t in ts && now - t < span
  {
    Filter(ts, t => now - t < span)
  }

  /** A window whose timestamps are all recent is kept whole. */
  lemma RecentKeepsRecent(ts: seq<int>, now: int, span: int)
    requires forall t :: t in ts ==> now - t < span
    ensures Recent(ts, now, span) == ts
  {
    FilterKeepsAll(ts, t => now - t < span);
  }

  /** Pruning a pruned window changes nothing. */
  lemma RecentIdempotent(ts: seq<int>, now: int, span: int)
    ensures Recent(Recent(ts, now, span), now, span) == Recent(ts, now, span)
  {
    RecentKeepsRecent(Recent(ts, now, span), now, span);
  }

  /** As the clock advances the window can only shrink. */
  lemma RecentShrinks(ts: seq<int>, now: int, later: int, span: int)
    requires now <= later
    ensures |Recent(ts, later, span)| <= |Recent(ts, now, span)|
  {
    FilterNarrower(ts, t => now - t < span, t => later - t < span);
  }

  /** Every key's window cut to `span` seconds; keys left with an empty window
      are deleted (the loop `for k in list(d): d[k] = [...]; if not d[k]: del d[k]`). */
  function PruneAll<K>(m: map<K, seq<int>>, now: int, span: int): map<K, seq<int>>
  {
    map k | k in m && Recent(m[k], now, span) != [] :: Recent(m[k], now, span)
  }

  /** After pruning no key is new, no window is empty or longer than before,
      every kept timestamp is recent, a deleted key had only old timestamps,
      and pruning again at the same time changes nothing. */
  lemma PruneAllProperties<K>(m: map<K, seq<int>>, now: int, span: int)
    ensures PruneAll(m, now, span).Keys <= m.Keys
    ensures forall k :: k in PruneAll(m, now, span) ==>
      PruneAll(m, now, span)[k] != [] && |PruneAll(m, now, span)[k]| <= |m[k]|
    ensures forall k, t :: k in PruneAll(m, now, span) && t in PruneAll(m, now, span)[k] ==> now - t < span
    ensures forall k :: k in m && k !in PruneAll(m, now, span) ==> forall t :: t in m[k] ==> now - t >= span
    ensures PruneAll(PruneAll(m, now, span), now, span) == PruneAll(m, now, span)
  {
    var p := PruneAll(m, now, span);
    forall k | k in p ensures Recent(p[k], now, span) == p[k] {
      RecentIdempotent(m[k], now, span);
    }
    assert PruneAll(p, now, span) == p;
  }

  /** The state of the pruning loop: keys still in `todo` are untouched, the
      others are pruned. */
  function PrunedExcept<K>(m: map<K, seq<int>>, todo: set<K>, now: int, span: int): map<K, seq<int>>
  {
    map k | k in m && (k in todo || Recent(m[k], now, span) != [])
      :: if k in todo then m[k] else Recent(m[k], now, span)
  }

  /** One loop step prunes one more key. */
  lemma PruneStep<K>(m: map<K, seq<int>>, todo: set<K>, now: int, span: int, k: K)
    requires k in todo && todo <= m.Keys
    ensures var kept := Recent(m[k], now, span);
      var cur := PrunedExcept(m, todo, now, span)[k := kept];
      PrunedExcept(m, todo - {k}, now, span) == if kept == [] then cur - {k} else cur
  {
  }
}
