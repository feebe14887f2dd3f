/** The sandbox executor's redaction of child credentials from tool output. */
module Redaction {
  import opened Wrappers
  import opened Text

  const MARKER := "[REDACTED]"

  /** `s.replace(v, m)`: leftmost occurrences first, none overlapping. */
  function Replaced(s: string, v: string, m: string): string
    requires v != ""
  {
    var i := Find(s, v, 0);
    if i < 0 then s else s[..i] + m + Replaced(s[i + |v|..], v, m)
  }

  function ReplacedAll(s: string, order: seq<string>, m: string): string
    requires "" !in order
    decreases |order|
  {
    if order == [] then s else ReplacedAll(Replaced(s, order[0], m), order[1..], m)
  }

  // ---- variants that stay clear of the marker ------------------------------------------------

  /** Placed at offset `d` from the start of the marker, `v` agrees with it where they overlap. */
  predicate AgreesAt(v: string, d: int, m: string) {
    forall k :: 0 <= k < |v| && 0 <= d + k < |m| ==> v[k] == m[d + k]
  }

  /** `v` can never share a character with a marker: it neither contains, lies in, nor overlaps one. */
  predicate ClearOfMarker(v: string, m: string) {
    v != "" && forall d :: -|v| < d < |m| ==> !AgreesAt(v, d, m)
  }

  lemma OverlapAgrees(a: string, b: string, v: string, i: nat, m: string)
    requires OccursAt(a + m + b, v, i)
    ensures AgreesAt(v, i - |a|, m)
  {
    var s := a + m + b;
    forall k | 0 <= k < |v| && 0 <= i - |a| + k < |m|
      ensures v[k] == m[i - |a| + k]
    {
      assert s[i..i + |v|][k] == s[i + k];
    }
  }

  lemma OnlyOutside(a: string, b: string, v: string, i: nat, m: string)
    requires ClearOfMarker(v, m) && OccursAt(a + m + b, v, i)
    ensures i + |v| <= |a| || |a| + |m| <= i
  {
    OverlapAgrees(a, b, v, i, m);
  }

  lemma OccursInParts(a: string, b: string, v: string, i: nat, m: string)
    ensures i + |v| <= |a| ==> (OccursAt(a + m + b, v, i) <==> OccursAt(a, v, i))
    ensures OccursAt(a + m + b, v, i + |a| + |m|) <==> OccursAt(b, v, i)
  {
    var s := a + m + b;
    if i + |v| <= |a| {
      assert s[i..i + |v|] == a[i..i + |v|];
    }
    if i + |v| <= |b| {
      assert s[i + |a| + |m|..i + |a| + |m| + |v|] == b[i..i + |v|];
    }
  }

  /** A clear variant occurs around a marker only where it occurs before it or after it. */
  lemma OccursAround(a: string, b: string, v: string, m: string)
    requires ClearOfMarker(v, m)
    ensures Occurs(a + m + b, v) <==> Occurs(a, v) || Occurs(b, v)
  {
    var s := a + m + b;
    if Occurs(s, v) {
      var i: nat :| i <= |s| && OccursAt(s, v, i);
      OnlyOutside(a, b, v, i, m);
      if i + |v| <= |a| {
        OccursInParts(a, b, v, i, m);
      } else {
        OccursInParts(a, b, v, i - |a| - |m|, m);
      }
    }
    if Occurs(a, v) {
      var i: nat :| i <= |a| && OccursAt(a, v, i);
      OccursInParts(a, b, v, i, m);
    }
    if Occurs(b, v) {
      var i: nat :| i <= |b| && OccursAt(b, v, i);
      OccursInParts(a, b, v, i, m);
    }
  }

  lemma FindIsOccurs(s: string, v: string)
    ensures Find(s, v, 0) >= 0 <==> Occurs(s, v)
  {
  }

  lemma OccursLonger(s: string, lo: nat, hi: nat, v: string)
    requires lo <= hi <= |s|
    ensures Occurs(s[lo..hi], v) ==> Occurs(s, v)
  {
    if Occurs(s[lo..hi], v) {
      var t := s[lo..hi];
      var i: nat :| i <= |t| && OccursAt(t, v, i);
      forall k | 0 <= k < |v|
        ensures s[lo + i..lo + i + |v|][k] == v[k]
      {
        assert t[i..i + |v|][k] == t[i + k];
      }
      assert s[lo + i..lo + i + |v|] == v;
      assert OccursAt(s, v, lo + i);
    }
  }

  lemma BeforeFirst(s: string, v: string)
    requires v != "" && Find(s, v, 0) >= 0
    ensures !Occurs(s[..Find(s, v, 0)], v)
  {
    var i := Find(s, v, 0);
    if Occurs(s[..i], v) {
      var j: nat :| j <= i && OccursAt(s[..i], v, j);
      InPrefix(s, i, v, j);
    }
  }

  // ---- nothing is left ---------------------------------------------------------------------

  lemma {:induction false} GoneAfterPass(s: string, v: string, m: string)
    requires ClearOfMarker(v, m)
    ensures !Occurs(Replaced(s, v, m), v)
  {
    var i := Find(s, v, 0);
    FindIsOccurs(s, v);
    if i >= 0 {
      GoneAfterPass(s[i + |v|..], v, m);
      BeforeFirst(s, v);
      OccursAround(s[..i], Replaced(s[i + |v|..], v, m), v, m);
    }
  }

  lemma {:induction false} StaysGone(s: string, u: string, v: string, m: string)
    requires ClearOfMarker(u, m) && v != "" && !Occurs(s, u)
    ensures !Occurs(Replaced(s, v, m), u)
  {
    var i := Find(s, v, 0);
    if i >= 0 {
      OccursLonger(s, 0, i, u);
      OccursLonger(s, i + |v|, |s|, u);
      assert s[0..i] == s[..i] && s[i + |v|..|s|] == s[i + |v|..];
      StaysGone(s[i + |v|..], u, v, m);
      OccursAround(s[..i], Replaced(s[i + |v|..], v, m), u, m);
    }
  }

  lemma {:induction false} StaysGoneAll(s: string, u: string, order: seq<string>, m: string)
    requires ClearOfMarker(u, m) && "" !in order && !Occurs(s, u)
    ensures !Occurs(ReplacedAll(s, order, m), u)
    decreases |order|
  {
    if order != [] {
      StaysGone(s, u, order[0], m);
      StaysGoneAll(Replaced(s, order[0], m), u, order[1..], m);
    }
  }

  /** After all passes no variant that is clear of the marker occurs anywhere, whatever the text
      and whatever the order of the passes. */
  lemma {:induction false} RedactionIsComplete(s: string, order: seq<string>, v: string, m: string)
    requires "" !in order && v in order && ClearOfMarker(v, m)
    ensures !Occurs(ReplacedAll(s, order, m), v)
    decreases |order|
  {
    var s' := Replaced(s, order[0], m);
    if v == order[0] {
      GoneAfterPass(s, v, m);
      StaysGoneAll(s', v, order[1..], m);
    } else {
      RedactionIsComplete(s', order[1..], v, m);
    }
  }

  // ---- nothing else is touched -------------------------------------------------------------

  /** A text taken apart into what is kept and the secrets cut out between the kept parts. */
  datatype Cuts = Rest(text: string) | Cut(text: string, secret: string, rest: Cuts)

  function Original(c: Cuts): string {
    match c
    case Rest(t) => t
    case Cut(t, secret, rest) => t + secret + Original(rest)
  }

  function Output(c: Cuts, m: string): string {
    match c
    case Rest(t) => t
    case Cut(t, _, rest) => t + m + Output(rest, m)
  }

  function Secrets(c: Cuts): set<string> {
    match c
    case Rest(_) => {}
    case Cut(_, secret, rest) => {secret} + Secrets(rest)
  }

  lemma Glue(a: string, s: string, x: string, t: string, b: string)
    ensures a + s + (x + t + b) == (a + s + x) + t + b
  {
  }

  function CutOut(t: string, v: string): Cuts
    requires v != ""
  {
    var i := Find(t, v, 0);
    if i < 0 then Rest(t) else Cut(t[..i], v, CutOut(t[i + |v|..], v))
  }

  function Join(a: Cuts, secret: string, b: Cuts): Cuts {
    match a
    case Rest(t) => Cut(t, secret, b)
    case Cut(t, s, rest) => Cut(t, s, Join(rest, secret, b))
  }

  /** The same pass, made on the parts. */
  function Pass(c: Cuts, v: string): Cuts
    requires v != ""
  {
    match c
    case Rest(t) => CutOut(t, v)
    case Cut(t, secret, rest) => Join(CutOut(t, v), secret, Pass(rest, v))
  }

  lemma {:induction false} CutOutFacts(t: string, v: string, m: string)
    requires v != ""
    ensures Original(CutOut(t, v)) == t && Output(CutOut(t, v), m) == Replaced(t, v, m) && Secrets(CutOut(t, v)) <= {v}
  {
    var i := Find(t, v, 0);
    if i >= 0 {
      CutOutFacts(t[i + |v|..], v, m);
      assert t == t[..i] + v + t[i + |v|..];
    }
  }

  lemma {:induction false} JoinFacts(a: Cuts, secret: string, b: Cuts, m: string)
    ensures Original(Join(a, secret, b)) == Original(a) + secret + Original(b)
    ensures Output(Join(a, secret, b), m) == Output(a, m) + m + Output(b, m)
    ensures Secrets(Join(a, secret, b)) == Secrets(a) + {secret} + Secrets(b)
  {
    match a
    case Rest(_) =>
    case Cut(t, s, rest) =>
      JoinFacts(rest, secret, b, m);
      Glue(t, s, Original(rest), secret, Original(b));
      Glue(t, m, Output(rest, m), m, Output(b, m));
  }

  /** `v` occurs in the text around `x` only before it or after it. */
  ghost predicate Apart(v: string, x: string, a: string, b: string) {
    forall i: nat :: OccursAt(a + x + b, v, i) ==> i + |v| <= |a| || |a| + |x| <= i
  }

  lemma ClearIsApart(a: string, b: string, v: string, m: string)
    requires ClearOfMarker(v, m)
    ensures Apart(v, m, a, b)
  {
    forall i: nat | OccursAt(a + m + b, v, i)
      ensures i + |v| <= |a| || |a| + |m| <= i
    {
      OnlyOutside(a, b, v, i, m);
    }
  }

  lemma FindAround(a: string, b: string, v: string, x: string)
    requires Apart(v, x, a, b)
    ensures var i := Find(a + x + b, v, 0);
            i == if Find(a, v, 0) >= 0 then Find(a, v, 0)
                 else if Find(b, v, 0) >= 0 then |a| + |x| + Find(b, v, 0) else -1
  {
    var i, ia, ib := Find(a + x + b, v, 0), Find(a, v, 0), Find(b, v, 0);
    if ia >= 0 {
      OccursInParts(a, b, v, ia, x);
    }
    if ib >= 0 {
      OccursInParts(a, b, v, ib, x);
    }
    if i >= 0 {
      if i + |v| <= |a| {
        OccursInParts(a, b, v, i, x);
      } else {
        OccursInParts(a, b, v, i - |a| - |x|, x);
      }
    }
  }

  lemma SplitAtFirst(s: string, v: string) returns (front: string, back: string)
    requires v != "" && Find(s, v, 0) >= 0
    ensures s == front + v + back && |front| == Find(s, v, 0)
  {
    var i := Find(s, v, 0);
    front, back := s[..i], s[i + |v|..];
  }

  lemma Slices(front: string, v: string, back: string)
    ensures (front + v + back)[..|front|] == front && (front + v + back)[|front| + |v|..] == back
  {
  }

  lemma ReplacedAtFirst(front: string, v: string, back: string, m: string)
    requires v != "" && Find(front + v + back, v, 0) == |front|
    ensures Replaced(front + v + back, v, m) == front + m + Replaced(back, v, m)
  {
    Slices(front, v, back);
  }

  lemma ReplacedNowhere(s: string, v: string, m: string)
    requires v != "" && Find(s, v, 0) < 0
    ensures Replaced(s, v, m) == s
  {
  }

  lemma FirstBehind(a: string, b: string, v: string, x: string, m: string)
    requires v != "" && Apart(v, x, a, b) && Find(a, v, 0) < 0
    ensures Replaced(a + x + b, v, m) == a + x + Replaced(b, v, m)
  {
    FindAround(a, b, v, x);
    if Find(b, v, 0) < 0 {
      ReplacedNowhere(b, v, m);
      ReplacedNowhere(a + x + b, v, m);
    } else {
      var front, back := SplitAtFirst(b, v);
      Glue(a, x, front, v, back);
      ReplacedAtFirst(a + x + front, v, back, m);
      ReplacedAtFirst(front, v, back, m);
      Glue(a, x, front, m, Replaced(back, v, m));
    }
  }

  lemma Regroup(a: string, s: string, x: string, t: string, b: string)
    ensures (a + s + x) + t + b == a + s + (x + t + b)
  {
  }

  lemma OccursBehind(front: string, t: string, v: string, i: nat)
    ensures OccursAt(front + t, v, |front| + i) <==> OccursAt(t, v, i)
  {
    if i + |v| <= |t| {
      assert (front + t)[|front| + i..|front| + i + |v|] == t[i..i + |v|];
    }
  }

  lemma ApartBehind(v: string, x: string, front: string, back: string, b: string)
    requires Apart(v, x, front + v + back, b)
    ensures Apart(v, x, back, b)
  {
    Regroup(front, v, back, x, b);
    forall i: nat | OccursAt(back + x + b, v, i)
      ensures i + |v| <= |back| || |back| + |x| <= i
    {
      OccursBehind(front + v, back + x + b, v, i);
      assert front + v + (back + x + b) == front + v + back + x + b;
    }
  }

  /** A pass never reaches across a text its variant keeps apart from. */
  lemma {:induction false} ReplacedApart(a: string, b: string, v: string, x: string, m: string)
    requires v != "" && Apart(v, x, a, b)
    ensures Replaced(a + x + b, v, m) == Replaced(a, v, m) + x + Replaced(b, v, m)
    decreases |a|
  {
    FindAround(a, b, v, x);
    if Find(a, v, 0) < 0 {
      ReplacedNowhere(a, v, m);
      FirstBehind(a, b, v, x, m);
    } else {
      var front, back := SplitAtFirst(a, v);
      Regroup(front, v, back, x, b);
      ReplacedAtFirst(front, v, back + x + b, m);
      ReplacedAtFirst(front, v, back, m);
      ApartBehind(v, x, front, back, b);
      ReplacedApart(back, b, v, x, m);
      Regroup(front, m, Replaced(back, v, m), x, Replaced(b, v, m));
    }
  }

  /** In particular across a marker. */
  lemma ReplacedAround(a: string, b: string, v: string, m: string)
    requires ClearOfMarker(v, m)
    ensures Replaced(a + m + b, v, m) == Replaced(a, v, m) + m + Replaced(b, v, m)
  {
    ClearIsApart(a, b, v, m);
    ReplacedApart(a, b, v, m, m);
  }

  lemma {:induction false} PassFacts(c: Cuts, v: string, m: string)
    requires ClearOfMarker(v, m)
    ensures Original(Pass(c, v)) == Original(c) && Output(Pass(c, v), m) == Replaced(Output(c, m), v, m)
    ensures Secrets(Pass(c, v)) <= Secrets(c) + {v}
  {
    match c
    case Rest(t) => CutOutFacts(t, v, m);
    case Cut(t, secret, rest) =>
      PassFacts(rest, v, m);
      CutOutFacts(t, v, m);
      JoinFacts(CutOut(t, v), secret, Pass(rest, v), m);
      ReplacedAround(t, Output(rest, m), v, m);
  }

  /** The text can be taken apart so that only whole variants were cut and all else kept in order. */
  ghost predicate OnlyCut(input: string, output: string, variants: set<string>, m: string) {
    exists c :: Original(c) == input && Output(c, m) == output && Secrets(c) <= variants
  }

  lemma {:induction false} OnlyCutAll(c: Cuts, order: seq<string>, variants: set<string>, m: string)
    requires forall v :: v in order ==> ClearOfMarker(v, m) && v in variants
    requires Secrets(c) <= variants
    ensures "" !in order && OnlyCut(Original(c), ReplacedAll(Output(c, m), order, m), variants, m)
    decreases |order|
  {
    if order != [] {
      PassFacts(c, order[0], m);
      assert order[0] in variants;
      OnlyCutAll(Pass(c, order[0]), order[1..], variants, m);
    }
  }

  /** Everything that is not a cut secret is kept, in order. */
  lemma RedactionKeepsTheRest(s: string, order: seq<string>, m: string)
    requires forall v :: v in order ==> ClearOfMarker(v, m)
    ensures "" !in order && OnlyCut(s, ReplacedAll(s, order, m), (set v | v in order), m)
  {
    OnlyCutAll(Rest(s), order, (set v | v in order), m);
  }

  // ---- longest first -------------------------------------------------------------------------

  predicate LongestFirst(order: seq<string>) {
    forall i, j :: 0 <= i < j < |order| ==> |order[i]| >= |order[j]|
  }

  /** `u` occurs in `a + v + b` beside the `v` or inside it, and does not stick out of it. */
  ghost predicate Within(u: string, v: string, a: string, b: string) {
    forall i: nat :: OccursAt(a + v + b, u, i) ==>
      i + |u| <= |a| || |a| + |v| <= i || (|a| <= i && i + |u| <= |a| + |v|)
  }

  lemma LongerIsApart(u: string, v: string, a: string, b: string)
    requires Within(u, v, a, b) && |u| >= |v| && u != v
    ensures Apart(u, v, a, b)
  {
    assert (a + v + b)[|a|..|a| + |v|] == v;
  }

  lemma WithinBehind(u: string, v: string, front: string, back: string, b: string)
    requires Within(u, v, front + back, b)
    ensures Within(u, v, back, b)
  {
    forall i: nat | OccursAt(back + v + b, u, i)
      ensures i + |u| <= |back| || |back| + |v| <= i || (|back| <= i && i + |u| <= |back| + |v|)
    {
      OccursBehind(front, back + v + b, u, i);
      assert front + (back + v + b) == front + back + v + b;
    }
  }

  /** Putting a marker in front changes nothing for a variant that is clear of it. */
  lemma WithinBehindMarker(u: string, v: string, front: string, m: string, back: string, b: string)
    requires ClearOfMarker(u, m) && Within(u, v, back, b)
    ensures Within(u, v, front + m + back, b)
  {
    var a, rest := front + m + back, back + v + b;
    assert a + v + b == front + m + rest;
    forall i: nat | OccursAt(a + v + b, u, i)
      ensures i + |u| <= |a| || |a| + |v| <= i || (|a| <= i && i + |u| <= |a| + |v|)
    {
      OnlyOutside(front, rest, u, i, m);
      if |front| + |m| <= i {
        OccursBehind(front + m, rest, u, i - |front| - |m|);
      }
    }
  }

  lemma WithinBeforeMarker(u: string, v: string, a: string, front: string, m: string, rest: string, back: string)
    requires ClearOfMarker(u, m) && Within(u, v, a, front + back)
    ensures Within(u, v, a, front + m + rest)
  {
    var t, t', head := a + v + (front + back), a + v + (front + m + rest), a + v + front;
    assert t == head + back && t' == head + m + rest;
    forall i: nat | OccursAt(t', u, i)
      ensures i + |u| <= |a| || |a| + |v| <= i || (|a| <= i && i + |u| <= |a| + |v|)
    {
      OnlyOutside(head, rest, u, i, m);
      if i + |u| <= |head| {
        assert t'[i..i + |u|] == t[i..i + |u|];
        assert OccursAt(t, u, i);
      }
    }
  }

  /** A pass over the text before, or over the text behind, makes nothing stick out. */
  lemma {:induction false} PassKeepsWithin(u: string, v: string, a: string, b: string, w: string, m: string)
    requires ClearOfMarker(u, m) && w != "" && Within(u, v, a, b)
    ensures Within(u, v, Replaced(a, w, m), b)
    decreases |a|
  {
    if Find(a, w, 0) >= 0 {
      var front, back := SplitAtFirst(a, w);
      WithinBehind(u, v, front + w, back, b);
      PassKeepsWithin(u, v, back, b, w, m);
      ReplacedAtFirst(front, w, back, m);
      WithinBehindMarker(u, v, front, m, Replaced(back, w, m), b);
    }
  }

  lemma PassSplits(s: string, w: string, m: string) returns (front: string, back: string, rest: string)
    requires w != "" && Find(s, w, 0) >= 0
    ensures s == front + back && Replaced(s, w, m) == front + m + rest
  {
    var behind;
    front, behind := SplitAtFirst(s, w);
    ReplacedAtFirst(front, w, behind, m);
    Associates(front, w, behind);
    back, rest := w + behind, Replaced(behind, w, m);
  }

  lemma PassBehindKeepsWithin(u: string, v: string, a: string, b: string, w: string, m: string)
    requires ClearOfMarker(u, m) && w != "" && Within(u, v, a, b)
    ensures Within(u, v, a, Replaced(b, w, m))
  {
    if Find(b, w, 0) >= 0 {
      var front, back, rest := PassSplits(b, w, m);
      WithinBeforeMarker(u, v, a, front, m, rest, back);
    }
  }

  lemma FirstHere(a: string, v: string, b: string)
    requires v != "" && Within(v, v, a, b)
    ensures Find(a + v + b, v, 0) == if Find(a, v, 0) >= 0 then Find(a, v, 0) else |a|
  {
    var i, ia := Find(a + v + b, v, 0), Find(a, v, 0);
    OccursBehind(a, v + b, v, 0);
    assert a + v + b == a + (v + b);
    if ia >= 0 {
      OccursInParts(a, b, v, ia, v);
    }
    if i + |v| <= |a| {
      OccursInParts(a, b, v, i, v);
    }
  }

  /** The pass of a variant cuts it out where it stands. */
  lemma {:induction false} OwnPass(a: string, v: string, b: string, m: string)
    requires v != "" && Within(v, v, a, b)
    ensures Replaced(a + v + b, v, m) == Replaced(a, v, m) + m + Replaced(b, v, m)
    decreases |a|
  {
    FirstHere(a, v, b);
    if Find(a, v, 0) < 0 {
      ReplacedNowhere(a, v, m);
      ReplacedAtFirst(a, v, b, m);
    } else {
      var front, back := SplitAtFirst(a, v);
      Regroup(front, v, back, v, b);
      ReplacedAtFirst(front, v, back + v + b, m);
      ReplacedAtFirst(front, v, back, m);
      WithinBehind(v, v, front + v, back, b);
      OwnPass(back, v, b, m);
      Regroup(front, m, Replaced(back, v, m), m, Replaced(b, v, m));
    }
  }

  lemma {:induction false} ReplacedAllAround(a: string, b: string, order: seq<string>, m: string)
    requires forall u :: u in order ==> ClearOfMarker(u, m)
    ensures "" !in order && ReplacedAll(a + m + b, order, m) == ReplacedAll(a, order, m) + m + ReplacedAll(b, order, m)
    decreases |order|
  {
    if order != [] {
      ReplacedAround(a, b, order[0], m);
      ReplacedAllAround(Replaced(a, order[0], m), Replaced(b, order[0], m), order[1..], m);
    }
  }

  /** What longest first is for: a variant that no other variant sticks out of is cut as a whole, and
      the text before and behind it is redacted by itself. */
  lemma {:induction false} LongestFirstCutsWhole(a: string, v: string, b: string, order: seq<string>, m: string)
    requires LongestFirst(order) && v in order
    requires forall u :: u in order ==> ClearOfMarker(u, m) && Within(u, v, a, b)
    ensures "" !in order && ReplacedAll(a + v + b, order, m) == ReplacedAll(a, order, m) + m + ReplacedAll(b, order, m)
    decreases |order|
  {
    var w, rest := order[0], order[1..];
    var a', b' := Replaced(a, w, m), Replaced(b, w, m);
    assert w in order;
    if w == v {
      OwnPass(a, v, b, m);
      ReplacedAllAround(a', b', rest, m);
    } else {
      LongerIsApart(w, v, a, b);
      ReplacedApart(a, b, w, v, m);
      forall u | u in rest
        ensures Within(u, v, a', b')
      {
        PassKeepsWithin(u, v, a, b, w, m);
        PassBehindKeepsWithin(u, v, a', b, w, m);
      }
      LongestFirstCutsWhole(a', v, b', rest, m);
    }
  }

  /** `v` stands in `a + v + b` with no variant sticking out of it. */
  ghost predicate StandsAlone(a: string, v: string, b: string, order: seq<string>) {
    v in order && forall u :: u in order ==> Within(u, v, a, b)
  }

  ghost predicate IsCutWhole(a: string, b: string, output: string, variants: set<string>, m: string) {
    exists x, y :: output == x + m + y && OnlyCut(a, x, variants, m) && OnlyCut(b, y, variants, m)
  }

  ghost predicate CutsWhole(text: string, output: string, order: seq<string>, m: string) {
    forall a, v, b :: StandsAlone(a, v, b, order) && text == a + v + b ==>
                        IsCutWhole(a, b, output, (set u | u in order), m)
  }

  lemma OrderCutsWhole(text: string, order: seq<string>, m: string)
    requires LongestFirst(order) && forall u :: u in order ==> ClearOfMarker(u, m)
    ensures "" !in order && CutsWhole(text, ReplacedAll(text, order, m), order, m)
  {
    forall a, v, b | StandsAlone(a, v, b, order) && text == a + v + b
      ensures "" !in order && IsCutWhole(a, b, ReplacedAll(text, order, m), (set u | u in order), m)
    {
      LongestFirstCutsWhole(a, v, b, order, m);
      RedactionKeepsTheRest(a, order, m);
      RedactionKeepsTheRest(b, order, m);
    }
  }

  /** The other way round a variant that starts with another one loses its start alone. */
  lemma ShorterFirstLeavesRest(u: string, rest: string, m: string)
    requires ClearOfMarker(u, m) && ClearOfMarker(u + rest, m) && !Occurs(rest, u)
    ensures ReplacedAll(u + rest, [u, u + rest], m) == m + rest
  {
    var v := u + rest;
    assert "" + u + rest == v && OccursAt(v, u, 0);
    FindIsOccurs(rest, u);
    ReplacedAtFirst("", u, rest, m);
    ReplacedNowhere(rest, u, m);
    assert "" + m + rest == m + rest;
    assert Replaced(v, u, m) == m + rest;
    assert !Occurs("", v) && !Occurs(rest, v);
    OccursAround("", rest, v, m);
    FindIsOccurs(m + rest, v);
    ReplacedNowhere(m + rest, v, m);
    ReplacedAllLast(v, [u], v, m);
    assert [u] + [v] == [u, v] && [u][1..] == [];
    assert ReplacedAll(v, [u], m) == Replaced(v, u, m);
  }

  // ---- the other side --------------------------------------------------------------------------

  /** Completeness needs its condition: a variant that lies inside the marker is put back by the
      redaction itself, and some output always shows it. */
  lemma VariantInsideMarkerLeaks(order: seq<string>, v: string, m: string)
    requires "" !in order && v in order && Occurs(m, v)
    ensures Occurs(ReplacedAll(m, order, m), v)
  {
    assert OccursAt(m, m, 0);
    MarkerSurvives(m, order, m);
    var s := ReplacedAll(m, order, m);
    var i: nat :| i <= |s| && OccursAt(s, m, i);
    OccursLonger(s, i, i + |m|, v);
  }

  lemma {:induction false} MarkerSurvives(s: string, order: seq<string>, m: string)
    requires "" !in order && Occurs(s, m)
    ensures Occurs(ReplacedAll(s, order, m), m)
    decreases |order|
  {
    if order != [] {
      var i := Find(s, order[0], 0);
      if i >= 0 {
        var s' := Replaced(s, order[0], m);
        assert s'[i..i + |m|] == m;
        assert OccursAt(s', m, i);
      }
      MarkerSurvives(Replaced(s, order[0], m), order[1..], m);
    }
  }

  // ---- exactly when one pass is complete -----------------------------------------------------

  /** Some text leaves `v` in the output `d` from a marker: it agrees with the marker there, and if it
      starts before it, what it starts with does not make up an earlier `v` with the `v` cut out. */
  ghost predicate LeaksAt(v: string, d: int, m: string)
    requires -|v| < d
  {
    AgreesAt(v, d, m) && (d >= 0 || CutFirst(v, -d))
  }

  /** With its own first `n` characters in front, `v` is still found first where it stands. */
  predicate CutFirst(v: string, n: nat)
    requires n <= |v|
  {
    Find(v[..n] + v, v, 0) == n
  }

  ghost predicate Leaks(v: string, m: string) {
    exists d :: -|v| < d < |m| && LeaksAt(v, d, m)
  }

  lemma OccursInTail(front: string, a: string, v: string, i: nat)
    requires |a| <= |front| && front[|front| - |a|..] == a && OccursAt(a + v, v, i)
    ensures OccursAt(front + v, v, |front| - |a| + i)
  {
    var k := |front| - |a|;
    assert front + v == front[..k] + (a + v);
    assert (front + v)[k + i..k + i + |v|] == (a + v)[i..i + |v|];
  }

  /** What stands before a cut keeps its end free of `v`. */
  lemma TailStaysFirst(front: string, a: string, v: string)
    requires v != "" && |a| <= |front| && front[|front| - |a|..] == a && Find(front + v, v, 0) == |front|
    ensures Find(a + v, v, 0) == |a|
  {
    assert OccursAt(a + v, v, |a|);
    var i := Find(a + v, v, 0);
    OccursInTail(front, a, v, i);
  }

  lemma InPrefix(s: string, n: nat, v: string, j: nat)
    requires j + |v| <= n <= |s|
    ensures OccursAt(s[..n], v, j) <==> OccursAt(s, v, j)
  {
    assert s[..n][j..j + |v|] == s[j..j + |v|];
  }

  lemma CutIsFirst(s: string, v: string)
    requires v != "" && Find(s, v, 0) >= 0
    ensures Find(s[..Find(s, v, 0)] + v, v, 0) == Find(s, v, 0)
  {
    var i := Find(s, v, 0);
    var t := s[..i + |v|];
    assert s[..i] + v == t;
    InPrefix(s, i + |v|, v, i);
    var j := Find(t, v, 0);
    InPrefix(s, i + |v|, v, j);
  }

  lemma FrontEnds(front: string, m: string, back: string, v: string, n: nat)
    requires n <= |front| && n <= |v| && OccursAt(front + m + back, v, |front| - n)
    ensures front[|front| - n..] == v[..n]
  {
    var s, i := front + m + back, |front| - n;
    forall k | 0 <= k < n
      ensures front[i..][k] == v[..n][k]
    {
      assert s[i..i + |v|][k] == s[i + k];
    }
  }

  /** An occurrence that starts before the marker behind a cut starts with something that is cut first. */
  lemma StartIsFirst(front: string, m: string, back: string, v: string, n: nat)
    requires v != "" && n <= |front| && n <= |v| && OccursAt(front + m + back, v, |front| - n)
    requires Find(front + v, v, 0) == |front|
    ensures CutFirst(v, n)
  {
    FrontEnds(front, m, back, v, n);
    TailStaysFirst(front, v[..n], v);
  }

  lemma AgreesFrom(front: string, back: string, v: string, d: int, m: string)
    requires 0 <= |front| + d && OccursAt(front + m + back, v, |front| + d)
    ensures AgreesAt(v, d, m)
  {
    OverlapAgrees(front, back, v, |front| + d, m);
    assert |front| + d - |front| == d;
  }

  lemma LeakIsLeak(v: string, d: int, m: string)
    requires -|v| < d < |m| && AgreesAt(v, d, m) && (d >= 0 || CutFirst(v, -d))
    ensures Leaks(v, m)
  {
    assert LeaksAt(v, d, m);
  }

  /** An occurrence that overlaps the marker behind a cut, `d` from its start, is a leak. */
  lemma OverlapLeaks(front: string, back: string, v: string, d: int, m: string)
    requires v != "" && -|v| < d < |m| && 0 <= |front| + d && OccursAt(front + m + back, v, |front| + d)
    requires Find(front + v, v, 0) == |front|
    ensures Leaks(v, m)
  {
    AgreesFrom(front, back, v, d, m);
    if d >= 0 {
      LeakIsLeak(v, d, m);
    } else {
      var n: nat := -d;
      StartIsFirst(front, m, back, v, n);
      LeakIsLeak(v, d, m);
    }
  }

  lemma {:induction false} NoLeakIsComplete(s: string, v: string, m: string)
    requires v != "" && !Leaks(v, m)
    ensures !Occurs(Replaced(s, v, m), v)
  {
    var i := Find(s, v, 0);
    FindIsOccurs(s, v);
    if i >= 0 {
      var front, back := s[..i], Replaced(s[i + |v|..], v, m);
      NoLeakIsComplete(s[i + |v|..], v, m);
      BeforeFirst(s, v);
      CutIsFirst(s, v);
      if Occurs(front + m + back, v) {
        var j: nat :| j <= |front + m + back| && OccursAt(front + m + back, v, j);
        Elsewhere(front, back, v, j, m);
        if |front| < j + |v| && j < |front| + |m| {
          OverlapLeaks(front, back, v, j - |front|, m);
        }
      }
    }
  }

  lemma Elsewhere(front: string, back: string, v: string, j: nat, m: string)
    requires OccursAt(front + m + back, v, j)
    ensures j + |v| <= |front| ==> Occurs(front, v)
    ensures |front| + |m| <= j ==> Occurs(back, v)
  {
    var s := front + m + back;
    if j + |v| <= |front| {
      assert front[j..j + |v|] == s[j..j + |v|];
      assert OccursAt(front, v, j);
    }
    if |front| + |m| <= j {
      var k := j - |front| - |m|;
      assert back[k..k + |v|] == s[j..j + |v|];
      assert OccursAt(back, v, k);
    }
  }

  lemma TooShort(s: string, v: string, m: string)
    requires |s| < |v|
    ensures Replaced(s, v, m) == s
  {
    var i := Find(s, v, 0);
  }

  /** The part of `v` behind the marker. */
  function Behind(v: string, d: int, m: string): string
    requires -|v| < d < |m|
  {
    if |m| - d < |v| then v[|m| - d..] else ""
  }

  lemma LeakInside(v: string, d: int, m: string)
    requires 0 <= d < |m| && v != "" && AgreesAt(v, d, m)
    ensures Occurs(Replaced(v + Behind(v, d, m), v, m), v)
  {
    var c := Behind(v, d, m);
    assert OccursAt(v + c, v, 0);
    assert "" + v + c == v + c && "" + m + c == m + c;
    ReplacedAtFirst("", v, c, m);
    TooShort(c, v, m);
    forall k | 0 <= k < |v|
      ensures (m + c)[d..][k] == v[k]
    {
    }
    assert (m + c)[d..d + |v|] == v;
    assert OccursAt(m + c, v, d);
  }

  lemma LeakBefore(v: string, d: int, m: string)
    requires -|v| < d < 0 && d < |m| && AgreesAt(v, d, m) && CutFirst(v, -d)
    ensures Occurs(Replaced(v[..-d] + v + Behind(v, d, m), v, m), v)
  {
    var a, c := v[..-d], Behind(v, d, m);
    FirstInLonger(a, v, c);
    ReplacedAtFirst(a, v, c, m);
    TooShort(c, v, m);
    AroundMarker(v, d, m);
  }

  lemma AroundMarker(v: string, d: int, m: string)
    requires -|v| < d < 0 && d < |m| && AgreesAt(v, d, m)
    ensures Occurs(v[..-d] + m + Behind(v, d, m), v)
  {
    var s := v[..-d] + m + Behind(v, d, m);
    forall k | 0 <= k < |v|
      ensures s[0..0 + |v|][k] == v[k]
    {
    }
    assert s[0..0 + |v|] == v;
    assert OccursAt(s, v, 0);
  }

  lemma FirstInLonger(a: string, v: string, c: string)
    requires v != "" && Find(a + v, v, 0) == |a|
    ensures Find(a + v + c, v, 0) == |a|
  {
    var s, n := a + v + c, |a| + |v|;
    assert s[..n] == a + v;
    InPrefix(s, n, v, |a|);
    var i := Find(s, v, 0);
    if i + |v| <= n {
      InPrefix(s, n, v, i);
    }
  }

  ghost predicate CompletePass(v: string, m: string)
    requires v != ""
  {
    forall s: string :: !Occurs(Replaced(s, v, m), v)
  }

  lemma SomeTextLeaks(v: string, m: string)
    requires v != "" && Leaks(v, m)
    ensures !CompletePass(v, m)
  {
    var d :| -|v| < d < |m| && LeaksAt(v, d, m);
    var s := if d >= 0 then v + Behind(v, d, m) else v[..-d] + v + Behind(v, d, m);
    if d >= 0 {
      LeakInside(v, d, m);
    } else {
      LeakBefore(v, d, m);
    }
    NotComplete(s, v, m);
  }

  lemma NotComplete(s: string, v: string, m: string)
    requires v != "" && Occurs(Replaced(s, v, m), v)
    ensures !CompletePass(v, m)
  {
  }

  /** A pass leaves nothing of its variant in any output exactly when no placing of the variant on the
      marker leaks: the exact condition for a single variant. */
  lemma OnePassCompleteIff(v: string, m: string)
    requires v != ""
    ensures CompletePass(v, m) <==> !Leaks(v, m)
  {
    if Leaks(v, m) {
      SomeTextLeaks(v, m);
    } else {
      forall s: string
        ensures !Occurs(Replaced(s, v, m), v)
      {
        NoLeakIsComplete(s, v, m);
      }
    }
  }

  // ---- the method ------------------------------------------------------------------------------

  /** `sorted(variants, key=len, reverse=True)`; ties come in any order. */
  method SortedByLength(variants: set<string>) returns (order: seq<string>)
    ensures LongestFirst(order) && (forall v :: v in order <==> v in variants) && |order| == |variants|
  {
    order := [];
    var left := variants;
    while left != {}
      invariant left <= variants && |order| + |left| == |variants|
      invariant LongestFirst(order)
      invariant forall v :: v in variants <==> v in order || v in left
      invariant forall u, v :: u in order && v in left ==> |u| >= |v|
      decreases left
    {
      LongestExists(left);
      var v :| v in left && forall u :: u in left ==> |u| <= |v|;
      order := order + [v];
      left := left - {v};
    }
  }

  lemma {:induction false} LongestExists(left: set<string>)
    requires left != {}
    ensures exists v :: v in left && forall u :: u in left ==> |u| <= |v|
  {
    var v :| v in left;
    if left != {v} {
      var rest := left - {v};
      LongestExists(rest);
      var w :| w in rest && forall u :: u in rest ==> |u| <= |w|;
      assert forall u :: u in left ==> u == v || u in rest;
      if |w| < |v| {
        assert forall u :: u in left ==> |u| <= |v|;
      } else {
        assert w in left;
      }
    }
  }

  /** Every non-empty credential with its two JSON escapings. */
  ghost predicate IsVariant(v: string, secrets: seq<string>, ascii: string -> string, plain: string -> string) {
    exists s :: s in secrets && s != "" && v in {s, ascii(s), plain(s)}
  }

  method Variants(secrets: seq<string>, ascii: string -> string, plain: string -> string)
    returns (variants: set<string>)
    ensures forall v :: v in variants <==> IsVariant(v, secrets, ascii, plain)
  {
    variants := {};
    for k := 0 to |secrets|
      invariant forall v :: v in variants <==> IsVariant(v, secrets[..k], ascii, plain)
    {
      var secret := secrets[k];
      assert secrets[..k + 1] == secrets[..k] + [secret];
      forall v {
        OneMoreSecret(v, secrets[..k], secret, ascii, plain);
      }
      if secret != "" {
        variants := variants + {secret, ascii(secret), plain(secret)};
      }
    }
    assert secrets[..|secrets|] == secrets;
  }

  lemma OneMoreSecret(v: string, secrets: seq<string>, s: string, ascii: string -> string, plain: string -> string)
    ensures IsVariant(v, secrets + [s], ascii, plain) <==>
              IsVariant(v, secrets, ascii, plain) || (s != "" && v in {s, ascii(s), plain(s)})
  {
    assert s in secrets + [s];
    if IsVariant(v, secrets, ascii, plain) {
      var known :| known in secrets && known != "" && v in {known, ascii(known), plain(known)};
      assert known in secrets + [s];
    }
  }

  function NonEmpty(order: seq<string>): (r: seq<string>)
    ensures forall v :: v in r <==> v in order && v != ""
  {
    if order == [] then []
    else NonEmpty(order[..|order| - 1]) + if order[|order| - 1] == "" then [] else [order[|order| - 1]]
  }

  lemma {:induction false} NonEmptyKeepsOrder(order: seq<string>)
    requires LongestFirst(order)
    ensures LongestFirst(NonEmpty(order))
  {
    if order != [] {
      NonEmptyKeepsOrder(order[..|order| - 1]);
      assert forall v :: v in order[..|order| - 1] ==> |v| >= |order[|order| - 1]|;
    }
  }

  method ReplaceEach(text: string, order: seq<string>, m: string) returns (output: string)
    ensures output == ReplacedAll(text, NonEmpty(order), m)
  {
    output := text;
    for k := 0 to |order|
      invariant output == ReplacedAll(text, NonEmpty(order[..k]), m)
    {
      assert order[..k + 1][..k] == order[..k] && order[..k + 1][k] == order[k];
      assert NonEmpty(order[..k + 1]) == NonEmpty(order[..k]) + if order[k] == "" then [] else [order[k]];
      assert NonEmpty(order[..k]) + [] == NonEmpty(order[..k]);
      if order[k] != "" {
        output := Replaced(output, order[k], m);
        ReplacedAllLast(text, NonEmpty(order[..k]), order[k], m);
      }
    }
    assert order[..|order|] == order;
  }

  /** The output is what the passes make of the text, longest variant first. */
  ghost predicate RedactedIn(text: string, order: seq<string>, output: string, secrets: seq<string>,
                             ascii: string -> string, plain: string -> string) {
    && LongestFirst(order) && (forall v :: v in order <==> IsVariant(v, secrets, ascii, plain))
    && output == ReplacedAll(text, NonEmpty(order), MARKER)
  }

  ghost predicate AllClear(secrets: seq<string>, ascii: string -> string, plain: string -> string) {
    forall v :: IsVariant(v, secrets, ascii, plain) ==> ClearOfMarker(v, MARKER)
  }

  /** `_redact_output`: the longest-first passes leave no variant anywhere, touch nothing else, and cut
      a variant that no other one sticks out of as a whole, provided no variant can share a character with
      the marker. */
  method RedactOutput(value: Option<string>, secrets: seq<string>, ascii: string -> string, plain: string -> string)
    returns (output: string)
    ensures var text := if value.Some? then value.value else "";
      exists order :: RedactedIn(text, order, output, secrets, ascii, plain) &&
                      (AllClear(secrets, ascii, plain) ==>
                         OnlyCut(text, output, (set v | v in NonEmpty(order)), MARKER) &&
                         CutsWhole(text, output, NonEmpty(order), MARKER))
    ensures AllClear(secrets, ascii, plain) ==> forall v :: IsVariant(v, secrets, ascii, plain) ==> !Occurs(output, v)
  {
    var input := if value.Some? then value.value else "";
    var variants := Variants(secrets, ascii, plain);
    var sorted := SortedByLength(variants);
    output := ReplaceEach(input, sorted, MARKER);
    assert RedactedIn(input, sorted, output, secrets, ascii, plain);
    if AllClear(secrets, ascii, plain) {
      forall v | v in variants
        ensures !Occurs(output, v)
      {
        RedactionIsComplete(input, NonEmpty(sorted), v, MARKER);
      }
      RedactionKeepsTheRest(input, NonEmpty(sorted), MARKER);
      NonEmptyKeepsOrder(sorted);
      OrderCutsWhole(input, NonEmpty(sorted), MARKER);
    }
  }

  lemma {:induction false} ReplacedAllLast(s: string, order: seq<string>, v: string, m: string)
    requires "" !in order && v != ""
    ensures ReplacedAll(s, order + [v], m) == Replaced(ReplacedAll(s, order, m), v, m)
    decreases |order|
  {
    if order != [] {
      assert (order + [v])[1..] == order[1..] + [v];
      ReplacedAllLast(Replaced(s, order[0], m), order[1..], v, m);
    }
  }
}
