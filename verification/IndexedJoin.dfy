/** A join through an index on one side, against the nested loop it replaces. */
module IndexedJoin {
  /** The simple form for one right-hand element: every left one is tried, in order. */
  function HitsFor<S, C, H>(lefts: seq<S>, c: C, matches: (S, C) -> bool, hit: (S, C) -> H): seq<H> {
    if lefts == [] then []
    else HitsFor(lefts[..|lefts| - 1], c, matches, hit)
         + if matches(lefts[|lefts| - 1], c) then [hit(lefts[|lefts| - 1], c)] else []
  }

  /** The nested loop. */
  function AllHits<S, C, H>(lefts: seq<S>, rights: seq<C>, matches: (S, C) -> bool, hit: (S, C) -> H): seq<H> {
    if rights == [] then []
    else AllHits(lefts, rights[..|rights| - 1], matches, hit) + HitsFor(lefts, rights[|rights| - 1], matches, hit)
  }

  /** By right-hand element, and by left-hand element within one. */
  predicate InOrder(pairs: seq<(nat, nat)>) {
    forall k, l :: 0 <= k < l < |pairs| ==>
      pairs[k].1 < pairs[l].1 || (pairs[k].1 == pairs[l].1 && pairs[k].0 < pairs[l].0)
  }

  /** `pairs` are those that match between the first `m` left elements and `j`, behind the pairs before `j`. */
  ghost predicate PairsUpTo<S, C>(
      pairs: seq<(nat, nat)>, lefts: seq<S>, m: nat, rights: seq<C>, j: nat, matches: (S, C) -> bool)
    requires m <= |lefts| && j < |rights|
  {
    && InOrder(pairs)
    && forall a: nat, b: nat :: (a, b) in pairs <==>
         (b < j && a < |lefts| && matches(lefts[a], rights[b])) || (b == j && a < m && matches(lefts[a], rights[b]))
  }

  ghost predicate AllPairs<S, C>(
      pairs: seq<(nat, nat)>, lefts: seq<S>, rights: seq<C>, n: nat, matches: (S, C) -> bool)
    requires n <= |rights|
  {
    && InOrder(pairs)
    && forall a: nat, b: nat :: (a, b) in pairs <==> b < n && a < |lefts| && matches(lefts[a], rights[b])
  }

  ghost predicate AreHits<S, C, H>(
      hits: seq<H>, pairs: seq<(nat, nat)>, lefts: seq<S>, rights: seq<C>, hit: (S, C) -> H)
  {
    |hits| == |pairs| && forall k :: 0 <= k < |pairs| ==>
      pairs[k].0 < |lefts| && pairs[k].1 < |rights| && hits[k] == hit(lefts[pairs[k].0], rights[pairs[k].1])
  }

  lemma {:induction false} PairsOfOne<S, C, H>(
      lefts: seq<S>, m: nat, rights: seq<C>, j: nat, matches: (S, C) -> bool, hit: (S, C) -> H,
      before: seq<(nat, nat)>, hits: seq<H>)
    returns (pairs: seq<(nat, nat)>)
    requires m <= |lefts| && j < |rights| && AllPairs(before, lefts, rights, j, matches)
    requires AreHits(hits, before, lefts, rights, hit)
    ensures PairsUpTo(pairs, lefts, m, rights, j, matches)
    ensures AreHits(hits + HitsFor(lefts[..m], rights[j], matches, hit), pairs, lefts, rights, hit)
    decreases m
  {
    if m == 0 {
      pairs := before;
      assert hits + HitsFor(lefts[..m], rights[j], matches, hit) == hits;
    } else {
      pairs := PairsOfOne(lefts, m - 1, rights, j, matches, hit, before, hits);
      assert lefts[..m][..m - 1] == lefts[..m - 1];
      if matches(lefts[m - 1], rights[j]) {
        forall k | 0 <= k < |pairs|
          ensures pairs[k].1 < j || (pairs[k].1 == j && pairs[k].0 < m - 1)
        {
          assert (pairs[k].0, pairs[k].1) in pairs;
        }
        pairs := pairs + [(m - 1, j)];
      }
    }
  }

  /** The nested loop lists the matching pairs: each once, in order. */
  lemma {:induction false} HitsAreThePairs<S, C, H>(
      lefts: seq<S>, rights: seq<C>, n: nat, matches: (S, C) -> bool, hit: (S, C) -> H)
    returns (pairs: seq<(nat, nat)>)
    requires n <= |rights|
    ensures AllPairs(pairs, lefts, rights, n, matches)
    ensures AreHits(AllHits(lefts, rights[..n], matches, hit), pairs, lefts, rights, hit)
    decreases n
  {
    if n == 0 {
      pairs := [];
    } else {
      var before := HitsAreThePairs(lefts, rights, n - 1, matches, hit);
      assert rights[..n][..n - 1] == rights[..n - 1] && lefts[..|lefts|] == lefts;
      pairs := PairsOfOne(lefts, |lefts|, rights, n - 1, matches, hit, before,
                          AllHits(lefts, rights[..n - 1], matches, hit));
    }
  }

  function WithKey<S, K(==)>(lefts: seq<S>, key: S -> K, k: K): seq<S> {
    if lefts == [] then []
    else WithKey(lefts[..|lefts| - 1], key, k) + if key(lefts[|lefts| - 1]) == k then [lefts[|lefts| - 1]] else []
  }

  /** Only left elements that carry the key of `c` can match it. */
  ghost predicate KeyDecides<S(!new), C, K>(c: C, matches: (S, C) -> bool, key: S -> K, k: K) {
    forall s :: matches(s, c) ==> key(s) == k
  }

  lemma {:induction false} OnlyKeyMatters<S(!new), C, H, K>(
      lefts: seq<S>, c: C, matches: (S, C) -> bool, hit: (S, C) -> H, key: S -> K, k: K)
    requires KeyDecides(c, matches, key, k)
    ensures HitsFor(lefts, c, matches, hit) == HitsFor(WithKey(lefts, key, k), c, matches, hit)
  {
    if lefts != [] {
      var last, before := lefts[|lefts| - 1], lefts[..|lefts| - 1];
      var kept := WithKey(before, key, k);
      OnlyKeyMatters(before, c, matches, hit, key, k);
      if key(last) == k {
        assert (kept + [last])[..|kept|] == kept;
      } else {
        assert WithKey(lefts, key, k) == kept;
      }
    }
  }

  /** `index.get(k)`, an empty list when there is none. */
  function Bucket<S, K(==)>(index: map<K, seq<S>>, k: K): seq<S> {
    if k in index then index[k] else []
  }

  lemma WithKeyLast<S, K>(lefts: seq<S>, s: S, key: S -> K, k: K)
    ensures WithKey(lefts + [s], key, k) == WithKey(lefts, key, k) + if key(s) == k then [s] else []
  {
    assert (lefts + [s])[..|lefts|] == lefts;
  }

  method IndexBy<S, K(==, !new)>(lefts: seq<S>, key: S -> K) returns (index: map<K, seq<S>>)
    ensures forall k :: Bucket(index, k) == WithKey(lefts, key, k)
  {
    index := map[];
    for i := 0 to |lefts|
      invariant forall k :: Bucket(index, k) == WithKey(lefts[..i], key, k)
    {
      var s := lefts[i];
      ghost var before := index;
      index := index[key(s) := Bucket(index, key(s)) + [s]];
      assert lefts[..i + 1] == lefts[..i] + [s];
      forall k
        ensures Bucket(index, k) == WithKey(lefts[..i + 1], key, k)
      {
        WithKeyLast(lefts[..i], s, key, k);
        assert Bucket(before, k) == WithKey(lefts[..i], key, k);
      }
    }
    assert lefts[..|lefts|] == lefts;
  }

  /** Same hits, same order. */
  method Join<S(!new), C(!new), H, K(==, !new)>(
      lefts: seq<S>, rights: seq<C>, matches: (S, C) -> bool, hit: (S, C) -> H, key: S -> K, keyOf: C -> K)
    returns (hits: seq<H>)
    requires forall c :: KeyDecides(c, matches, key, keyOf(c))
    ensures hits == AllHits(lefts, rights, matches, hit)
  {
    var index := IndexBy(lefts, key);
    hits := [];
    for i := 0 to |rights|
      invariant hits == AllHits(lefts, rights[..i], matches, hit)
    {
      var c := rights[i];
      assert rights[..i + 1][..i] == rights[..i];
      OnlyKeyMatters(lefts, c, matches, hit, key, keyOf(c));
      assert AllHits(lefts, rights[..i + 1], matches, hit)
          == hits + HitsFor(WithKey(lefts, key, keyOf(c)), c, matches, hit);
      if keyOf(c) !in index {
        assert Bucket(index, keyOf(c)) == [];
        continue;
      }
      var candidates := index[keyOf(c)];
      assert candidates == Bucket(index, keyOf(c));
      ghost var before := hits;
      for j := 0 to |candidates|
        invariant hits == before + HitsFor(candidates[..j], c, matches, hit)
      {
        assert candidates[..j + 1][..j] == candidates[..j];
        if matches(candidates[j], c) {
          hits := hits + [hit(candidates[j], c)];
        }
      }
      assert candidates[..|candidates|] == candidates;
    }
    assert rights[..|rights|] == rights;
  }
}
