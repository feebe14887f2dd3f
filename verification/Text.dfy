/** The Python string operations the platform's text machines are built from. */
module Text {
  import opened Wrappers

  // ---- occurrences -----------------------------------------------------------------------

  predicate OccursAt(s: string, t: string, i: nat) {
    i + |t| <= |s| && s[i..i + |t|] == t
  }

  predicate Occurs(s: string, t: string) {
    exists i: nat :: i <= |s| && OccursAt(s, t, i)
  }

  /** `s.find(t, start)`: the first occurrence at or after `start`, or -1. */
  function Find(s: string, t: string, start: nat): (r: int)
    ensures r == -1 || start <= r <= |s|
    ensures r >= 0 ==> OccursAt(s, t, r)
    ensures forall i: nat :: start <= i && OccursAt(s, t, i) ==> 0 <= r <= i
    decreases |s| - start
  {
    if OccursAt(s, t, start) then start
    else if start >= |s| then -1
    else Find(s, t, start + 1)
  }

  lemma Associates(a: string, b: string, c: string)
    ensures a + b + c == a + (b + c)
  {
  }

  predicate StartsWith(s: string, prefix: string) {
    prefix <= s
  }

  predicate EndsWith(s: string, suffix: string) {
    |suffix| <= |s| && s[|s| - |suffix|..] == suffix
  }

  // ---- splitting at a character ------------------------------------------------------------

  /** `s.split(c, 1)[0]`: everything before the first `c`. */
  function Head(s: string, c: char): (r: string)
    ensures c !in r
  {
    if s == "" || s[0] == c then "" else [s[0]] + Head(s[1..], c)
  }

  /** `s.split(c, 1)[1]` when `c` occurs, empty otherwise. */
  function Tail(s: string, c: char): string {
    if s == "" then "" else if s[0] == c then s[1..] else Tail(s[1..], c)
  }

  /** `s.rsplit(c, 1)[-1]`: everything after the last `c`. */
  function LastTail(s: string, c: char): (r: string)
    ensures c !in r
  {
    if s == "" || s[|s| - 1] == c then "" else LastTail(s[..|s| - 1], c) + [s[|s| - 1]]
  }

  /** `s.rsplit(c, 1)[0]` when `c` occurs, empty otherwise. */
  function LastHead(s: string, c: char): string {
    if s == "" then "" else if s[|s| - 1] == c then s[..|s| - 1] else LastHead(s[..|s| - 1], c)
  }

  lemma {:induction false} Cut(s: string, c: char)
    ensures c in s ==> s == Head(s, c) + [c] + Tail(s, c)
    ensures c !in s ==> Head(s, c) == s && Tail(s, c) == ""
  {
    if s != "" {
      assert s == [s[0]] + s[1..];
      if s[0] != c {
        Cut(s[1..], c);
      }
    }
  }

  lemma {:induction false} LastCut(s: string, c: char)
    ensures c in s ==> s == LastHead(s, c) + [c] + LastTail(s, c)
    ensures c !in s ==> LastTail(s, c) == s && LastHead(s, c) == ""
  {
    if s != "" {
      assert s == s[..|s| - 1] + [s[|s| - 1]];
      if s[|s| - 1] != c {
        LastCut(s[..|s| - 1], c);
      }
    }
  }

  /** A cut is found again: the first `c` of `a + [c] + b` is the one between them. */
  lemma {:induction false} CutBack(a: string, c: char, b: string)
    requires c !in a
    ensures Head(a + [c] + b, c) == a && Tail(a + [c] + b, c) == b
  {
    var s := a + [c] + b;
    if a == "" {
      assert s[1..] == b;
    } else {
      assert s[1..] == a[1..] + [c] + b;
      CutBack(a[1..], c, b);
    }
  }

  lemma {:induction false} LastCutBack(a: string, c: char, b: string)
    requires c !in b
    ensures LastHead(a + [c] + b, c) == a && LastTail(a + [c] + b, c) == b
    decreases |b|
  {
    var s := a + [c] + b;
    if b == "" {
      assert s[..|s| - 1] == a;
    } else {
      assert s[..|s| - 1] == a + [c] + b[..|b| - 1];
      LastCutBack(a, c, b[..|b| - 1]);
    }
  }

  // ---- white space -------------------------------------------------------------------------

  /** The characters Python's `str.isspace` accepts, which `str.strip` removes. */
  predicate IsSpace(c: char) {
    || '\t' <= c <= '\r' || '\U{1C}' <= c <= ' ' || c == '\U{85}' || c == '\U{A0}' || c == '\U{1680}'
    || '\U{2000}' <= c <= '\U{200A}' || c == '\U{2028}' || c == '\U{2029}' || c == '\U{202F}'
    || c == '\U{205F}' || c == '\U{3000}'
  }

  function LStripped(s: string, drop: char -> bool): (r: string)
    ensures |r| <= |s| && r == s[|s| - |r|..]
    ensures r != "" ==> !drop(r[0])
    ensures s != "" && !drop(s[0]) ==> r == s
  {
    if s != "" && drop(s[0]) then LStripped(s[1..], drop) else s
  }

  function RStripped(s: string, drop: char -> bool): (r: string)
    ensures r <= s
    ensures r != "" ==> !drop(r[|r| - 1])
    ensures s != "" && !drop(s[|s| - 1]) ==> r == s
  {
    if s != "" && drop(s[|s| - 1]) then RStripped(s[..|s| - 1], drop) else s
  }

  function StrippedOf(s: string, drop: char -> bool): string {
    RStripped(LStripped(s, drop), drop)
  }

  function Strip(s: string): string {
    StrippedOf(s, IsSpace)
  }

  /** Neither end would be stripped. */
  predicate TrimmedOf(s: string, drop: char -> bool) {
    s != "" ==> !drop(s[0]) && !drop(s[|s| - 1])
  }

  predicate Trimmed(s: string) {
    TrimmedOf(s, IsSpace)
  }

  lemma StripTrimmed(s: string, drop: char -> bool)
    requires TrimmedOf(s, drop)
    ensures StrippedOf(s, drop) == s
  {
  }

  lemma {:induction false} LStripCuts(s: string, drop: char -> bool)
    ensures forall k :: 0 <= k < |s| - |LStripped(s, drop)| ==> drop(s[k])
  {
    if s != "" && drop(s[0]) {
      LStripCuts(s[1..], drop);
      forall k | 0 < k < |s| - |LStripped(s, drop)|
        ensures drop(s[k])
      {
        assert s[k] == s[1..][k - 1];
      }
    }
  }

  lemma {:induction false} RStripCuts(s: string, drop: char -> bool)
    ensures forall k :: |RStripped(s, drop)| <= k < |s| ==> drop(s[k])
    decreases |s|
  {
    if s != "" && drop(s[|s| - 1]) {
      RStripCuts(s[..|s| - 1], drop);
    }
  }

  lemma TwoEnds(s: string, l: string, r: string)
    requires |l| <= |s| && l == s[|s| - |l|..] && r <= l
    ensures s == s[..|s| - |l|] + r + l[|r|..]
  {
  }

  /** Only characters to drop are stripped, and only from the ends. */
  lemma StripCuts(s: string, drop: char -> bool) returns (front: string, back: string)
    ensures s == front + StrippedOf(s, drop) + back
    ensures (forall c :: c in front ==> drop(c)) && (forall c :: c in back ==> drop(c))
  {
    var l := LStripped(s, drop);
    var r := RStripped(l, drop);
    LStripCuts(s, drop);
    RStripCuts(l, drop);
    TwoEnds(s, l, r);
    front, back := s[..|s| - |l|], l[|r|..];
  }

  lemma {:induction false} LStripPadded(front: string, s: string, drop: char -> bool)
    requires (forall c :: c in front ==> drop(c)) && s != "" && !drop(s[0])
    ensures LStripped(front + s, drop) == s
  {
    if front == "" {
      assert front + s == s;
    } else {
      assert front[0] in front && (front + s)[1..] == front[1..] + s;
      LStripPadded(front[1..], s, drop);
    }
  }

  lemma {:induction false} RStripPadded(s: string, back: string, drop: char -> bool)
    requires (forall c :: c in back ==> drop(c)) && s != "" && !drop(s[|s| - 1])
    ensures RStripped(s + back, drop) == s
    decreases |back|
  {
    if back == "" {
      assert s + back == s;
    } else {
      var t := s + back;
      assert back[|back| - 1] in back && t[..|t| - 1] == s + back[..|back| - 1];
      RStripPadded(s, back[..|back| - 1], drop);
    }
  }

  /** Stripping takes off what surrounds a text, and no more. */
  lemma StripPadded(front: string, s: string, back: string, drop: char -> bool)
    requires (forall c :: c in front ==> drop(c)) && (forall c :: c in back ==> drop(c))
    requires s != "" && TrimmedOf(s, drop)
    ensures StrippedOf(front + s + back, drop) == s
  {
    assert front + s + back == front + (s + back);
    LStripPadded(front, s + back, drop);
    RStripPadded(s, back, drop);
  }

  /** What strip keeps is a contiguous piece of the text. */
  lemma StripKeeps(s: string, drop: char -> bool)
    ensures var r := StrippedOf(s, drop); |r| <= |s| && forall c :: c in r ==> c in s
  {
    var l := LStripped(s, drop);
    assert RStripped(l, drop) <= l;
  }

  lemma StripIsTrimmed(s: string, drop: char -> bool)
    ensures TrimmedOf(StrippedOf(s, drop), drop)
  {
    var l := LStripped(s, drop);
    var r := RStripped(l, drop);
    if r != "" {
      assert r[0] == l[0];
    }
  }
}
