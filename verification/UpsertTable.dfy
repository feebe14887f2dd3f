/** Tables filled with `INSERT … ON CONFLICT(id) DO UPDATE`: a new key inserts a fresh row, a known
    key overwrites the updatable columns of its row. */
module UpsertTable {
  import opened Wrappers

  /** How an operation is keyed, what it inserts, what it updates, and whether the foreign keys allow
      it, given whether its row exists already. */
  datatype Rules<!Op, !Row> = Rules(
    key: Op -> string, insert: Op -> Row, update: (Row, Op) -> Row, allowed: (bool, Op) -> bool)

  /** A later update hides an earlier one, an update with what was inserted changes nothing, and an
      operation allowed to insert is allowed to update. */
  ghost predicate Lawful<Op(!new), Row(!new)>(rules: Rules<Op, Row>) {
    && (forall r, a, b :: rules.update(rules.update(r, a), b) == rules.update(r, b))
    && (forall a :: rules.update(rules.insert(a), a) == rules.insert(a))
    && (forall a :: rules.allowed(false, a) ==> rules.allowed(true, a))
  }

  function Apply<Op, Row>(rules: Rules<Op, Row>, m: map<string, Row>, op: Op): map<string, Row> {
    var k := rules.key(op);
    m[k := if k in m then rules.update(m[k], op) else rules.insert(op)]
  }

  function Run<Op, Row>(rules: Rules<Op, Row>, m: map<string, Row>, ops: seq<Op>): map<string, Row> {
    if ops == [] then m else Apply(rules, Run(rules, m, ops[..|ops| - 1]), ops[|ops| - 1])
  }

  /** Every statement is allowed when its turn comes. */
  predicate Runs<Op, Row>(rules: Rules<Op, Row>, m: map<string, Row>, ops: seq<Op>) {
    ops == [] ||
    (var last := ops[|ops| - 1];
     Runs(rules, m, ops[..|ops| - 1]) && rules.allowed(rules.key(last) in Run(rules, m, ops[..|ops| - 1]), last))
  }

  function Keys<Op, Row>(rules: Rules<Op, Row>, ops: seq<Op>): set<string> {
    set i | 0 <= i < |ops| :: rules.key(ops[i])
  }

  lemma {:induction false} RunKeys<Op, Row>(rules: Rules<Op, Row>, m: map<string, Row>, ops: seq<Op>)
    ensures Run(rules, m, ops).Keys == m.Keys + Keys(rules, ops)
  {
    if ops != [] {
      RunKeys(rules, m, ops[..|ops| - 1]);
      KeysLast(rules, ops);
    }
  }

  lemma KeysLast<Op, Row>(rules: Rules<Op, Row>, ops: seq<Op>)
    requires ops != []
    ensures Keys(rules, ops) == Keys(rules, ops[..|ops| - 1]) + {rules.key(ops[|ops| - 1])}
  {
    var before := ops[..|ops| - 1];
    forall k | k in Keys(rules, ops)
      ensures k in Keys(rules, before) + {rules.key(ops[|ops| - 1])}
    {
      var i :| 0 <= i < |ops| && k == rules.key(ops[i]);
      if i < |ops| - 1 {
        assert before[i] == ops[i];
      }
    }
    forall k | k in Keys(rules, before)
      ensures k in Keys(rules, ops)
    {
      var i :| 0 <= i < |before| && k == rules.key(before[i]);
      assert ops[i] == before[i];
    }
  }

  /** The row a key ends with shows the last operation on it, as if that alone had updated it. */
  ghost predicate Settled<Op, Row>(rules: Rules<Op, Row>, m: map<string, Row>, ops: seq<Op>, k: string) {
    k in m &&
    forall i :: (0 <= i < |ops| && rules.key(ops[i]) == k && IsLast(rules, ops, i)) ==>
                  rules.update(m[k], ops[i]) == m[k]
  }

  ghost predicate IsLast<Op, Row>(rules: Rules<Op, Row>, ops: seq<Op>, i: nat)
    requires i < |ops|
  {
    forall j :: i < j < |ops| ==> rules.key(ops[j]) != rules.key(ops[i])
  }

  lemma {:induction false} RunSettles<Op(!new), Row(!new)>(
      rules: Rules<Op, Row>, m: map<string, Row>, ops: seq<Op>, k: string)
    requires Lawful(rules) && k in Keys(rules, ops)
    ensures Settled(rules, Run(rules, m, ops), ops, k)
  {
    var before, last := ops[..|ops| - 1], ops[|ops| - 1];
    RunKeys(rules, m, ops);
    var m' := Run(rules, m, ops);
    forall i | 0 <= i < |ops| && rules.key(ops[i]) == k && IsLast(rules, ops, i)
      ensures rules.update(m'[k], ops[i]) == m'[k]
    {
      if i < |ops| - 1 {
        assert before[i] == ops[i] && rules.key(last) != k;
        assert k in Keys(rules, before);
        assert IsLast(rules, before, i) by {
          assert forall j :: i < j < |before| ==> before[j] == ops[j];
        }
        RunSettles(rules, m, before, k);
      }
    }
  }

  lemma {:induction false} LastWithKey<Op, Row>(rules: Rules<Op, Row>, ops: seq<Op>, k: string) returns (i: nat)
    requires k in Keys(rules, ops)
    ensures i < |ops| && rules.key(ops[i]) == k && IsLast(rules, ops, i)
  {
    var before, last := ops[..|ops| - 1], |ops| - 1;
    if rules.key(ops[last]) == k {
      i := last;
    } else {
      KeysLast(rules, ops);
      i := LastWithKey(rules, before, k);
      forall j | i < j < |ops|
        ensures rules.key(ops[j]) != rules.key(ops[i])
      {
        if j < last {
          assert before[j] == ops[j];
        }
      }
    }
  }

  /** Running over rows that exist only shows the last operation of each key. */
  lemma {:induction false} RunOnSettled<Op(!new), Row(!new)>(
      rules: Rules<Op, Row>, m: map<string, Row>, ops: seq<Op>, n: nat, k: string)
    requires Lawful(rules) && n <= |ops| && k in m
    requires forall i :: 0 <= i < |ops| ==> rules.key(ops[i]) in m
    requires Settled(rules, m, ops, k)
    ensures k in Run(rules, m, ops[..n])
    ensures (forall j :: n <= j < |ops| ==> rules.key(ops[j]) != k) ==> Run(rules, m, ops[..n])[k] == m[k]
    ensures forall op :: rules.update(Run(rules, m, ops[..n])[k], op) == rules.update(m[k], op)
  {
    if n > 0 {
      assert ops[..n][..n - 1] == ops[..n - 1];
      RunOnSettled(rules, m, ops, n - 1, k);
      if rules.key(ops[n - 1]) == k {
        if forall j :: n <= j < |ops| ==> rules.key(ops[j]) != k {
          assert IsLast(rules, ops, n - 1);
        }
      }
    }
  }

  /** Running the same operations again changes nothing. */
  lemma RunTwice<Op(!new), Row(!new)>(rules: Rules<Op, Row>, m: map<string, Row>, ops: seq<Op>)
    requires Lawful(rules)
    ensures Run(rules, Run(rules, m, ops), ops) == Run(rules, m, ops)
  {
    var once := Run(rules, m, ops);
    var twice := Run(rules, once, ops);
    RunKeys(rules, m, ops);
    RunKeys(rules, once, ops);
    assert ops[..|ops|] == ops;
    forall k | k in once
      ensures twice[k] == once[k]
    {
      if k in Keys(rules, ops) {
        RunSettles(rules, m, ops, k);
        forall i | 0 <= i < |ops|
          ensures rules.key(ops[i]) in once
        {
          assert rules.key(ops[i]) in Keys(rules, ops);
        }
        RunOnSettled(rules, once, ops, |ops|, k);
      } else {
        Untouched(rules, once, ops, k);
      }
    }
  }

  lemma {:induction false} Untouched<Op, Row>(rules: Rules<Op, Row>, m: map<string, Row>, ops: seq<Op>, k: string)
    requires k !in Keys(rules, ops)
    ensures (k in Run(rules, m, ops) <==> k in m) && (k in m ==> Run(rules, m, ops)[k] == m[k])
  {
    if ops != [] {
      KeysLast(rules, ops);
      Untouched(rules, m, ops[..|ops| - 1], k);
    }
  }

  /** If all statements were allowed the first time, they all are the second time. */
  lemma {:induction false} RunsAgain<Op(!new), Row(!new)>(
      rules: Rules<Op, Row>, m: map<string, Row>, ops: seq<Op>, m': map<string, Row>)
    requires Lawful(rules) && Runs(rules, m, ops) && m'.Keys >= Keys(rules, ops)
    ensures Runs(rules, m', ops)
  {
    if ops != [] {
      var before, last := ops[..|ops| - 1], ops[|ops| - 1];
      KeysLast(rules, ops);
      RunsAgain(rules, m, before, m');
      RunKeys(rules, m', before);
    }
  }

  /** What is true of fresh rows and kept by updates is true of the whole table afterwards. */
  lemma {:induction false} RunKeeps<Op(!new), Row(!new)>(
      rules: Rules<Op, Row>, m: map<string, Row>, ops: seq<Op>, good: Row -> bool)
    requires Runs(rules, m, ops)
    requires forall k :: k in m ==> good(m[k])
    requires forall op :: op in ops && rules.allowed(false, op) ==> good(rules.insert(op))
    requires forall op, r :: op in ops && rules.allowed(true, op) && good(r) ==> good(rules.update(r, op))
    ensures forall k :: k in Run(rules, m, ops) ==> good(Run(rules, m, ops)[k])
  {
    if ops != [] {
      var before, last := ops[..|ops| - 1], ops[|ops| - 1];
      assert last in ops && forall op :: op in before ==> op in ops;
      RunKeeps(rules, m, before, good);
      var table, k := Run(rules, m, before), rules.key(last);
      if k in table {
        assert rules.allowed(true, last);
        assert good(rules.update(table[k], last));
      } else {
        assert good(rules.insert(last));
      }
    }
  }

  // ---- operations made from a list -------------------------------------------------------------

  /** The operations the elements ask for, in order; an element may ask for none. */
  function Chosen<In, Op>(xs: seq<In>, f: In -> Option<Op>): seq<Op> {
    if xs == [] then []
    else
      Chosen(xs[..|xs| - 1], f) + if f(xs[|xs| - 1]).Some? then [f(xs[|xs| - 1]).value] else []
  }

  /** The element asks for an operation on this key. */
  predicate Asks<In, Op, Row>(rules: Rules<Op, Row>, f: In -> Option<Op>, x: In, k: string) {
    f(x).Some? && rules.key(f(x).value) == k
  }

  predicate SomeAsks<In, Op, Row>(rules: Rules<Op, Row>, f: In -> Option<Op>, xs: seq<In>, k: string) {
    exists i :: 0 <= i < |xs| && Asks(rules, f, xs[i], k)
  }

  ghost predicate LastAsks<In, Op, Row>(rules: Rules<Op, Row>, f: In -> Option<Op>, xs: seq<In>, i: nat, k: string) {
    i < |xs| && Asks(rules, f, xs[i], k) && !SomeAsks(rules, f, xs[i + 1..], k)
  }

  ghost predicate FirstAsks<In, Op, Row>(rules: Rules<Op, Row>, f: In -> Option<Op>, xs: seq<In>, i: nat, k: string) {
    i < |xs| && Asks(rules, f, xs[i], k) && !SomeAsks(rules, f, xs[..i], k)
  }

  lemma SomeAsksLast<In, Op, Row>(rules: Rules<Op, Row>, f: In -> Option<Op>, xs: seq<In>, k: string)
    requires xs != []
    ensures SomeAsks(rules, f, xs, k) <==>
              SomeAsks(rules, f, xs[..|xs| - 1], k) || Asks(rules, f, xs[|xs| - 1], k)
  {
    var before := xs[..|xs| - 1];
    if SomeAsks(rules, f, before, k) {
      var i :| 0 <= i < |before| && Asks(rules, f, before[i], k);
      assert xs[i] == before[i];
    }
    if SomeAsks(rules, f, xs, k) {
      var i :| 0 <= i < |xs| && Asks(rules, f, xs[i], k);
      if i < |before| {
        assert before[i] == xs[i];
      }
    }
  }

  lemma ChosenLast<In, Op, Row>(rules: Rules<Op, Row>, m: map<string, Row>, xs: seq<In>, f: In -> Option<Op>)
    requires xs != []
    ensures var before, last := Run(rules, m, Chosen(xs[..|xs| - 1], f)), xs[|xs| - 1];
            Run(rules, m, Chosen(xs, f)) == if f(last).Some? then Apply(rules, before, f(last).value) else before
  {
    var ops, last := Chosen(xs[..|xs| - 1], f), xs[|xs| - 1];
    if f(last).Some? {
      assert (ops + [f(last).value])[..|ops|] == ops;
    } else {
      assert ops + [] == ops;
    }
  }

  /** Exactly the keys that are asked for are added, and all other rows stay. */
  lemma {:induction false} ChosenKeys<In, Op, Row>(
      rules: Rules<Op, Row>, m: map<string, Row>, xs: seq<In>, f: In -> Option<Op>, k: string)
    ensures var m' := Run(rules, m, Chosen(xs, f));
            (k in m' <==> k in m || SomeAsks(rules, f, xs, k)) &&
            (k in m && !SomeAsks(rules, f, xs, k) ==> m'[k] == m[k])
  {
    if xs != [] {
      ChosenKeys(rules, m, xs[..|xs| - 1], f, k);
      ChosenLast(rules, m, xs, f);
      SomeAsksLast(rules, f, xs, k);
    }
  }

  /** A row shows the last operation asked for on its key. */
  lemma {:induction false} ChosenShowLast<In, Op(!new), Row(!new)>(
      rules: Rules<Op, Row>, m: map<string, Row>, xs: seq<In>, f: In -> Option<Op>, i: nat, k: string)
    requires Lawful(rules) && LastAsks(rules, f, xs, i, k)
    ensures var m' := Run(rules, m, Chosen(xs, f)); k in m' && rules.update(m'[k], f(xs[i]).value) == m'[k]
    decreases |xs|
  {
    var before, last := xs[..|xs| - 1], |xs| - 1;
    ChosenLast(rules, m, xs, f);
    if i < last {
      assert before[i] == xs[i] && xs[i + 1..][..|xs[i + 1..]| - 1] == before[i + 1..];
      assert xs[i + 1..][|xs[i + 1..]| - 1] == xs[last];
      SomeAsksLast(rules, f, xs[i + 1..], k);
      ChosenShowLast(rules, m, before, f, i, k);
    } else {
      var op := f(xs[last]).value;
      assert rules.update(rules.insert(op), op) == rules.insert(op);
    }
  }

  /** What updates leave alone stays as it was stored. */
  lemma {:induction false} ChosenKeepStored<In, Op(!new), Row(!new)>(
      rules: Rules<Op, Row>, m: map<string, Row>, xs: seq<In>, f: In -> Option<Op>, k: string, same: (Row, Row) -> bool)
    requires k in m && same(m[k], m[k])
    requires forall r, op, s :: same(r, s) ==> same(rules.update(r, op), s)
    ensures var m' := Run(rules, m, Chosen(xs, f)); k in m' && same(m'[k], m[k])
  {
    if xs != [] {
      ChosenKeepStored(rules, m, xs[..|xs| - 1], f, k, same);
      ChosenLast(rules, m, xs, f);
    }
  }

  /** For a new row it stays as the first operation inserted it. */
  lemma {:induction false} ChosenKeepFirst<In, Op(!new), Row(!new)>(
      rules: Rules<Op, Row>, m: map<string, Row>, xs: seq<In>, f: In -> Option<Op>, i: nat, k: string, same: (Row, Row) -> bool)
    requires k !in m && FirstAsks(rules, f, xs, i, k)
    requires forall r :: same(r, r)
    requires forall r, op, s :: same(r, s) ==> same(rules.update(r, op), s)
    ensures var m' := Run(rules, m, Chosen(xs, f)); k in m' && same(m'[k], rules.insert(f(xs[i]).value))
    decreases |xs|
  {
    var before, last := xs[..|xs| - 1], |xs| - 1;
    ChosenLast(rules, m, xs, f);
    if i < last {
      assert before[i] == xs[i] && before[..i] == xs[..i];
      ChosenKeepFirst(rules, m, before, f, i, k, same);
    } else {
      assert xs[..i] == before;
      ChosenKeys(rules, m, before, f, k);
    }
  }

  /** The loop over one table: stops at the first statement a foreign key forbids. */
  method Execute<Op, Row>(rules: Rules<Op, Row>, start: map<string, Row>, ops: seq<Op>)
    returns (ok: bool, table: map<string, Row>)
    ensures ok <==> Runs(rules, start, ops)
    ensures ok ==> table == Run(rules, start, ops)
  {
    table := start;
    for i := 0 to |ops|
      invariant Runs(rules, start, ops[..i]) && table == Run(rules, start, ops[..i])
    {
      assert ops[..i + 1][..i] == ops[..i];
      var op := ops[i];
      if !rules.allowed(rules.key(op) in table, op) {
        NotRuns(rules, start, ops, i);
        return false, start;
      }
      table := Apply(rules, table, op);
    }
    assert ops[..|ops|] == ops;
    ok := true;
  }

  lemma {:induction false} NotRuns<Op, Row>(rules: Rules<Op, Row>, m: map<string, Row>, ops: seq<Op>, i: nat)
    requires i < |ops| && !rules.allowed(rules.key(ops[i]) in Run(rules, m, ops[..i]), ops[i])
    ensures !Runs(rules, m, ops)
    decreases |ops|
  {
    if i < |ops| - 1 {
      assert ops[..|ops| - 1][..i] == ops[..i];
      NotRuns(rules, m, ops[..|ops| - 1], i);
    }
  }
}
