/** Deduplicated queries sent in batches, against one query per distinct key. */
module BatchedQuery {
  import opened Wrappers

  /** An item is asked about with the query that is also its key, if it has one. */
  predicate Asked<C, Q(==)>(items: seq<C>, key: C -> Option<Q>, q: Q) {
    exists k :: 0 <= k < |items| && key(items[k]) == Some(q)
  }

  /** The distinct queries in the order they first appear, each with its first item. */
  function Distinct<C, Q(==)>(items: seq<C>, key: C -> Option<Q>): seq<(Q, C)> {
    if items == [] then []
    else
      var before, c := items[..|items| - 1], items[|items| - 1];
      if key(c).None? || Asked(before, key, key(c).value) then Distinct(before, key)
      else Distinct(before, key) + [(key(c).value, c)]
  }

  /** The simple form. */
  function OneByOne<C, Q, A, R>(order: seq<(Q, C)>, answer: Q -> A, report: (C, A) -> seq<R>): seq<R> {
    if order == [] then []
    else
      var last := order[|order| - 1];
      OneByOne(order[..|order| - 1], answer, report) + report(last.1, answer(last.0))
  }

  /** Every query of a batch gets the answer it would get alone. */
  ghost predicate Pointwise<Q(!new), A>(post: seq<Q> -> seq<A>, answer: Q -> A) {
    forall qs :: |post(qs)| == |qs| && forall k :: 0 <= k < |qs| ==> post(qs)[k] == answer(qs[k])
  }

  lemma AskedLast<C, Q>(items: seq<C>, c: C, key: C -> Option<Q>, q: Q)
    ensures Asked(items + [c], key, q) <==> Asked(items, key, q) || key(c) == Some(q)
  {
    if Asked(items, key, q) {
      var k :| 0 <= k < |items| && key(items[k]) == Some(q);
      assert (items + [c])[k] == items[k];
    }
    assert (items + [c])[|items|] == c;
  }

  ghost predicate Listed<C, Q>(order: seq<(Q, C)>, q: Q) {
    exists k :: 0 <= k < |order| && order[k].0 == q
  }

  /** Every key is asked about exactly once, with an item that has it. */
  lemma {:induction false} DistinctIsComplete<C, Q(!new)>(items: seq<C>, key: C -> Option<Q>)
    ensures forall q :: Listed(Distinct(items, key), q) <==> Asked(items, key, q)
    ensures forall i, j :: 0 <= i < j < |Distinct(items, key)| ==> Distinct(items, key)[i].0 != Distinct(items, key)[j].0
    ensures forall p :: p in Distinct(items, key) ==> key(p.1) == Some(p.0)
  {
    if items != [] {
      var before, c := items[..|items| - 1], items[|items| - 1];
      var d := Distinct(before, key);
      DistinctIsComplete(before, key);
      assert items == before + [c];
      forall q
        ensures Listed(Distinct(items, key), q) <==> Asked(items, key, q)
      {
        AskedLast(before, c, key, q);
        if key(c).Some? && !Asked(before, key, key(c).value) {
          ListedLast(d, (key(c).value, c), q);
        }
      }
      if key(c).Some? && !Asked(before, key, key(c).value) {
        assert !Listed(d, key(c).value);
      }
    }
  }

  /** The items the queries are asked for are among the given ones. */
  lemma {:induction false} DistinctIsFrom<C, Q>(items: seq<C>, key: C -> Option<Q>)
    ensures forall p :: p in Distinct(items, key) ==> p.1 in items
  {
    if items != [] {
      DistinctIsFrom(items[..|items| - 1], key);
    }
  }

  lemma {:induction false} InOneByOne<C, Q, A, R>(
      order: seq<(Q, C)>, answer: Q -> A, report: (C, A) -> seq<R>, r: R)
    ensures r in OneByOne(order, answer, report) <==>
              exists k :: 0 <= k < |order| && r in report(order[k].1, answer(order[k].0))
  {
    if order != [] {
      var before, last := order[..|order| - 1], |order| - 1;
      InOneByOne(before, answer, report, r);
      if r in OneByOne(before, answer, report) {
        var k :| 0 <= k < |before| && r in report(before[k].1, answer(before[k].0));
        assert order[k] == before[k];
      }
      if k :| 0 <= k < |order| && r in report(order[k].1, answer(order[k].0)) && k != last {
        assert before[k] == order[k];
      }
    }
  }

  /** What is reported is reported about an item that was asked about. */
  lemma ReportComesFrom<C, Q(!new), A, R>(
      items: seq<C>, key: C -> Option<Q>, answer: Q -> A, report: (C, A) -> seq<R>, r: R) returns (c: C, q: Q)
    requires r in OneByOne(Distinct(items, key), answer, report)
    ensures c in items && key(c) == Some(q) && r in report(c, answer(q))
  {
    var order := Distinct(items, key);
    DistinctIsComplete(items, key);
    DistinctIsFrom(items, key);
    InOneByOne(order, answer, report, r);
    var k :| 0 <= k < |order| && r in report(order[k].1, answer(order[k].0));
    assert order[k] in order;
    q, c := order[k].0, order[k].1;
  }

  /** For everything asked about, some item with the same query is reported on. */
  lemma QueryIsReported<C, Q(!new), A, R(!new)>(
      items: seq<C>, key: C -> Option<Q>, answer: Q -> A, report: (C, A) -> seq<R>, c: C, q: Q) returns (d: C)
    requires c in items && key(c) == Some(q)
    ensures d in items && key(d) == Some(q)
    ensures forall r :: r in report(d, answer(q)) ==> r in OneByOne(Distinct(items, key), answer, report)
  {
    var order := Distinct(items, key);
    DistinctIsComplete(items, key);
    DistinctIsFrom(items, key);
    var i :| 0 <= i < |items| && items[i] == c;
    assert key(items[i]) == Some(q);
    assert Listed(order, q);
    var k :| 0 <= k < |order| && order[k].0 == q;
    assert order[k] in order;
    d := order[k].1;
    forall r | r in report(d, answer(q))
      ensures r in OneByOne(order, answer, report)
    {
      InOneByOne(order, answer, report, r);
    }
  }

  lemma ListedLast<C, Q>(order: seq<(Q, C)>, p: (Q, C), q: Q)
    ensures Listed(order + [p], q) <==> Listed(order, q) || p.0 == q
  {
    if Listed(order, q) {
      var k :| 0 <= k < |order| && order[k].0 == q;
      assert (order + [p])[k] == order[k];
    }
    assert (order + [p])[|order|] == p;
  }

  method DistinctQueries<C, Q(!new, ==)>(items: seq<C>, key: C -> Option<Q>) returns (order: seq<(Q, C)>)
    ensures order == Distinct(items, key)
  {
    order := [];
    var seen: set<Q> := {};
    for i := 0 to |items|
      invariant order == Distinct(items[..i], key)
      invariant forall q :: q in seen <==> Asked(items[..i], key, q)
    {
      var c := items[i];
      assert items[..i + 1][..i] == items[..i] && items[..i + 1] == items[..i] + [c];
      forall q {
        AskedLast(items[..i], c, key, q);
      }
      var q := key(c);
      if q.None? {
        continue;
      }
      if q.value !in seen {
        seen := seen + {q.value};
        order := order + [(q.value, c)];
      }
    }
    assert items[..|items|] == items;
  }

  lemma {:induction false} OneByOneConcat<C, Q, A, R>(
      a: seq<(Q, C)>, b: seq<(Q, C)>, answer: Q -> A, report: (C, A) -> seq<R>)
    ensures OneByOne(a + b, answer, report) == OneByOne(a, answer, report) + OneByOne(b, answer, report)
    decreases |b|
  {
    if b == [] {
      assert a + b == a;
    } else {
      assert (a + b)[..|a + b| - 1] == a + b[..|b| - 1];
      OneByOneConcat(a, b[..|b| - 1], answer, report);
    }
  }

  method QueryChunk<C, Q(!new), A, R>(
      chunk: seq<(Q, C)>, post: seq<Q> -> seq<A>, report: (C, A) -> seq<R>, ghost answer: Q -> A)
    returns (reports: seq<R>)
    requires Pointwise(post, answer)
    ensures reports == OneByOne(chunk, answer, report)
  {
    var queries := seq(|chunk|, k requires 0 <= k < |chunk| => chunk[k].0);
    var results := post(queries);
    reports := [];
    for k := 0 to |chunk|
      invariant reports == OneByOne(chunk[..k], answer, report)
    {
      assert chunk[..k + 1][..k] == chunk[..k];
      assert results[k] == answer(queries[k]);
      reports := reports + report(chunk[k].1, results[k]);
    }
    assert chunk[..|chunk|] == chunk;
  }

  lemma NextChunk<T>(xs: seq<T>, start: nat, end: nat)
    requires start <= end <= |xs|
    ensures xs[..end] == xs[..start] + xs[start..end]
  {
  }

  /** Whatever the batch size, the reports are those of one query per distinct key. */
  method QueryBatched<C, Q(!new, ==), A, R>(
      items: seq<C>, key: C -> Option<Q>, post: seq<Q> -> seq<A>, report: (C, A) -> seq<R>, batchSize: nat,
      ghost answer: Q -> A)
    returns (reports: seq<R>)
    requires batchSize > 0 && Pointwise(post, answer)
    ensures reports == OneByOne(Distinct(items, key), answer, report)
  {
    var order := DistinctQueries(items, key);
    reports := [];
    var start := 0;
    while start < |order|
      invariant 0 <= start <= |order|
      invariant reports == OneByOne(order[..start], answer, report)
    {
      var end := if start + batchSize <= |order| then start + batchSize else |order|;
      var chunk := order[start..end];
      NextChunk(order, start, end);
      OneByOneConcat(order[..start], chunk, answer, report);
      var found := QueryChunk(chunk, post, report, answer);
      reports := reports + found;
      start := end;
    }
    assert order[..|order|] == order;
  }
}
