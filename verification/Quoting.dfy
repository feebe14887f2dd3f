/** The quote and escape scanners shared by the repository scanners. */
module Quoting {
  import opened Wrappers
  import opened Text

  // ---- escapes -----------------------------------------------------------------------------

  /** The forward view: a backslash escapes the next character unless it is escaped itself. */
  predicate Escaped(text: string, pos: nat)
    requires pos <= |text|
  {
    pos > 0 && text[pos - 1] == '\\' && !Escaped(text, pos - 1)
  }

  /** The length of the run of backslashes that ends just before `pos`. */
  function BackslashesBefore(text: string, pos: nat): nat
    requires pos <= |text|
  {
    if pos > 0 && text[pos - 1] == '\\' then 1 + BackslashesBefore(text, pos - 1) else 0
  }

  lemma {:induction false} ParityIsEscape(text: string, pos: nat)
    requires pos <= |text|
    ensures BackslashesBefore(text, pos) % 2 == 1 <==> Escaped(text, pos)
  {
    if pos > 0 && text[pos - 1] == '\\' {
      ParityIsEscape(text, pos - 1);
    }
  }

  /** Counting backslashes backwards gives the forward escape state. */
  method IsEscaped(text: string, pos: nat) returns (r: bool)
    requires pos <= |text|
    ensures r <==> Escaped(text, pos)
  {
    var backslashes := 0;
    var i: int := pos - 1;
    while i >= 0 && text[i] == '\\'
      invariant -1 <= i < pos && backslashes >= 0
      invariant BackslashesBefore(text, pos) == backslashes + BackslashesBefore(text, i + 1)
    {
      backslashes := backslashes + 1;
      i := i - 1;
    }
    ParityIsEscape(text, pos);
    r := backslashes % 2 == 1;
  }

  // ---- unescaped tokens ----------------------------------------------------------------------

  ghost predicate UnescapedAt(text: string, token: string, i: nat) {
    OccursAt(text, token, i) && !Escaped(text, i)
  }

  ghost predicate UnescapedFrom(text: string, token: string, start: nat) {
    exists i: nat :: start <= i && UnescapedAt(text, token, i)
  }

  /** What the scan that restarts behind each escaped occurrence answers. */
  function Scan(text: string, token: string, start: nat): bool
    requires token != ""
    decreases |text| - start
  {
    var idx := Find(text, token, start);
    if idx < 0 then false else if !Escaped(text, idx) then true else Scan(text, token, idx + |token|)
  }

  method HasUnescapedToken(text: string, token: string) returns (found: bool)
    requires token != ""
    ensures found == Scan(text, token, 0)
  {
    var start := 0;
    while true
      invariant Scan(text, token, start) == Scan(text, token, 0)
      decreases |text| - start
    {
      var idx := Find(text, token, start);
      if idx < 0 {
        return false;
      }
      var escaped := IsEscaped(text, idx);
      if !escaped {
        return true;
      }
      start := idx + |token|;
    }
  }

  predicate ShiftsOnto(token: string, d: nat) {
    0 < d < |token| && token[d..] == token[..|token| - d]
  }

  /** Two occurrences of the token can overlap. */
  predicate SelfOverlaps(token: string) {
    exists d: nat :: d <= |token| && ShiftsOnto(token, d)
  }

  lemma OverlapIsShift(text: string, token: string, i: nat, j: nat)
    requires OccursAt(text, token, i) && OccursAt(text, token, j) && i < j < i + |token|
    ensures ShiftsOnto(token, j - i)
  {
    var d := j - i;
    assert token[d..] == text[j..i + |token|];
    assert token[..|token| - d] == text[j..i + |token|];
  }

  lemma {:induction false} ScanExact(text: string, token: string, start: nat)
    requires token != "" && !SelfOverlaps(token)
    ensures Scan(text, token, start) <==> UnescapedFrom(text, token, start)
    decreases |text| - start
  {
    var idx := Find(text, token, start);
    if idx >= 0 && Escaped(text, idx) {
      ScanExact(text, token, idx + |token|);
      forall i: nat | start <= i && UnescapedAt(text, token, i)
        ensures idx + |token| <= i
      {
        if i < idx + |token| {
          assert idx < i;
          OverlapIsShift(text, token, idx, i);
        }
      }
    } else if idx >= 0 {
      assert UnescapedAt(text, token, idx);
    }
  }

  lemma SubstitutionTokensDoNotOverlap()
    ensures !SelfOverlaps("$(") && !SelfOverlaps("`")
  {
    assert !ShiftsOnto("$(", 1) by {
      assert "$("[1..][0] == '(' && "$("[..1][0] == '$';
    }
  }

  /** `_has_command_substitution` answers exactly whether some `$(` or backtick is unescaped. */
  method HasCommandSubstitution(text: string) returns (found: bool)
    ensures found <==> UnescapedFrom(text, "$(", 0) || UnescapedFrom(text, "`", 0)
  {
    SubstitutionTokensDoNotOverlap();
    ScanExact(text, "$(", 0);
    ScanExact(text, "`", 0);
    found := HasUnescapedToken(text, "$(");
    if !found {
      found := HasUnescapedToken(text, "`");
    }
  }

  /** The text on which a self-overlapping token is missed: escaped, then overlapped by itself. */
  function Missed(token: string, d: nat): string
    requires d <= |token|
  {
    "\\" + token[..d] + token
  }

  lemma NoBackslashNoEscape(token: string, d: nat)
    requires '\\' !in token && 0 < d <= |token|
    ensures !Escaped(Missed(token, d), 1 + d) && Escaped(Missed(token, d), 1)
  {
    assert Missed(token, d)[d] == token[d - 1];
  }

  /** For other callers' tokens: the scan is right on every text exactly when the token, free of
      backslashes, cannot overlap itself. */
  lemma ScanRightIffNoOverlap(token: string)
    requires token != "" && '\\' !in token
    ensures (forall text: string :: Scan(text, token, 0) <==> UnescapedFrom(text, token, 0)) <==> !SelfOverlaps(token)
  {
    if !SelfOverlaps(token) {
      forall text: string {
        ScanExact(text, token, 0);
      }
    } else {
      var d: nat :| d <= |token| && ShiftsOnto(token, d);
      MissedIsMissed(token, d);
    }
  }

  lemma MissedIsMissed(token: string, d: nat)
    requires '\\' !in token && ShiftsOnto(token, d)
    ensures UnescapedFrom(Missed(token, d), token, 0) && !Scan(Missed(token, d), token, 0)
  {
    var text := Missed(token, d);
    NoBackslashNoEscape(token, d);
    MissedOccurs(token, d);
    MissedStart(token, d);
    assert UnescapedAt(text, token, 1 + d);
    assert Find(text, token, 0) == 1;
    assert forall i: nat :: i >= 1 + |token| ==> !OccursAt(text, token, i);
    assert Find(text, token, 1 + |token|) == -1;
  }

  lemma MissedOccurs(token: string, d: nat)
    requires ShiftsOnto(token, d)
    ensures OccursAt(Missed(token, d), token, 1 + d) && OccursAt(Missed(token, d), token, 1)
  {
    var text := Missed(token, d);
    assert text == "\\" + (token[..d] + token);
    assert text[1 + d..1 + d + |token|] == token;
    assert text[1..1 + |token|] == token[..d] + token[..|token| - d] == token[..d] + token[d..] == token;
  }

  lemma MissedStart(token: string, d: nat)
    requires '\\' !in token && 0 < d < |token|
    ensures !OccursAt(Missed(token, d), token, 0)
  {
    var text := Missed(token, d);
    assert text[0..|token|][0] == '\\';
  }

  // ---- quotes --------------------------------------------------------------------------------

  datatype Machine = Machine(quote: Option<char>, start: int, escaped: bool)

  const INITIAL := Machine(None, -1, false)

  predicate Closes(m: Machine, ch: char) {
    !m.escaped && ch != '\\' && m.quote == Some(ch)
  }

  function Read(m: Machine, ch: char, i: nat): Machine {
    if m.escaped then m.(escaped := false)
    else if ch == '\\' then m.(escaped := true)
    else if m.quote.None? then (if ch in {'\'', '"'} then m.(quote := Some(ch), start := i) else m)
    else if m.quote.value == ch then m.(quote := None, start := -1)
    else m
  }

  /** The state of the forward quote machine before it reads position `pos`. */
  function StateAt(line: string, pos: nat): Machine
    requires pos <= |line|
  {
    if pos == 0 then INITIAL else Read(StateAt(line, pos - 1), line[pos - 1], pos - 1)
  }

  /** Position `pos` lies inside a quote and is not its closing character. */
  predicate Inside(line: string, pos: int) {
    0 <= pos < |line| && StateAt(line, pos).quote.Some? && !Closes(StateAt(line, pos), line[pos])
  }

  lemma {:induction false} StartIsBefore(line: string, pos: nat)
    requires pos <= |line|
    ensures StateAt(line, pos).quote.Some? ==>
              0 <= StateAt(line, pos).start < pos &&
              line[StateAt(line, pos).start] == StateAt(line, pos).quote.value
  {
    if pos > 0 {
      StartIsBefore(line, pos - 1);
    }
  }

  /** The machine's escape bit is the escape state of the plain text, in or out of quotes. */
  lemma {:induction false} MachineEscape(line: string, pos: nat)
    requires pos <= |line|
    ensures StateAt(line, pos).escaped <==> Escaped(line, pos)
  {
    if pos > 0 {
      MachineEscape(line, pos - 1);
    }
  }

  // ---- text as it is written: plain stretches and quoted ones -----------------------------------

  /** `c` stands in the text only escaped, and the text does not end in an escape. */
  predicate OnlyEscaped(text: string, c: char) {
    !Escaped(text, |text|) && forall i :: 0 <= i < |text| && text[i] == c ==> Escaped(text, i)
  }

  predicate QuoteChar(c: char) {
    c == '\'' || c == '"'
  }

  lemma {:induction false} EscapedBehind(a: string, b: string, k: nat)
    requires k <= |b| && !Escaped(a, |a|)
    ensures Escaped(a + b, |a| + k) <==> Escaped(b, k)
  {
    if k == 0 {
      EscapedPrefix(a, b, |a|);
    } else {
      EscapedBehind(a, b, k - 1);
      assert (a + b)[|a| + k - 1] == b[k - 1];
    }
  }

  lemma {:induction false} EscapedPrefix(a: string, b: string, k: nat)
    requires k <= |a|
    ensures Escaped(a + b, k) <==> Escaped(a, k)
  {
    if k > 0 {
      EscapedPrefix(a, b, k - 1);
      assert (a + b)[k - 1] == a[k - 1];
    }
  }

  /** The text stands in the line at `at`. */
  predicate Stands(line: string, at: nat, text: string) {
    at + |text| <= |line| && forall i :: 0 <= i < |text| ==> line[at + i] == text[i]
  }

  /** Through a plain stretch the machine stays outside quotes. */
  lemma {:induction false} PlainIsOutside(line: string, at: nat, text: string, k: nat)
    requires k <= |text| && Stands(line, at, text) && StateAt(line, at) == INITIAL
    requires OnlyEscaped(text, '\'') && OnlyEscaped(text, '"')
    ensures StateAt(line, at + k) == Machine(None, -1, Escaped(text, k))
  {
    if k > 0 {
      PlainIsOutside(line, at, text, k - 1);
      assert line[at + k - 1] == text[k - 1];
    }
  }

  /** Behind an opening quote it knows the quote and where it began. */
  lemma {:induction false} QuotedIsInside(line: string, at: nat, q: char, text: string, k: nat)
    requires k <= |text| && at < |line| && line[at] == q && Stands(line, at + 1, text) && StateAt(line, at) == INITIAL
    requires QuoteChar(q) && OnlyEscaped(text, q)
    ensures StateAt(line, at + 1 + k) == Machine(Some(q), at, Escaped(text, k))
  {
    if k > 0 {
      QuotedIsInside(line, at, q, text, k - 1);
      assert line[at + k] == text[k - 1];
    }
  }

  datatype Stretch = Plain(text: string) | Quoted(q: char, text: string)

  function ShowStretch(s: Stretch): string {
    match s case Plain(text) => text case Quoted(q, text) => [q] + text + [q]
  }

  function ShowAll(ss: seq<Stretch>): string {
    if ss == [] then "" else ShowAll(ss[..|ss| - 1]) + ShowStretch(ss[|ss| - 1])
  }

  predicate GoodStretch(s: Stretch) {
    match s
    case Plain(text) => OnlyEscaped(text, '\'') && OnlyEscaped(text, '"')
    case Quoted(q, text) => QuoteChar(q) && OnlyEscaped(text, q)
  }

  predicate AllGood(ss: seq<Stretch>) {
    ss == [] || (AllGood(ss[..|ss| - 1]) && GoodStretch(ss[|ss| - 1]))
  }

  lemma {:induction false} PrefixState(line: string, more: string, k: nat)
    requires k <= |line|
    ensures StateAt(line + more, k) == StateAt(line, k)
  {
    if k > 0 {
      PrefixState(line, more, k - 1);
      assert (line + more)[k - 1] == line[k - 1];
    }
  }

  /** Behind whole stretches nothing is open and nothing is escaped. */
  lemma {:induction false} StretchesClose(ss: seq<Stretch>)
    requires AllGood(ss)
    ensures StateAt(ShowAll(ss), |ShowAll(ss)|) == INITIAL && !Escaped(ShowAll(ss), |ShowAll(ss)|)
  {
    if ss != [] {
      var front, s := ShowAll(ss[..|ss| - 1]), ss[|ss| - 1];
      StretchesClose(ss[..|ss| - 1]);
      PrefixState(front, ShowStretch(s), |front|);
      OneStretchCloses(front, s);
      MachineEscape(ShowAll(ss), |ShowAll(ss)|);
    }
  }

  lemma OneStretchCloses(front: string, s: Stretch)
    requires GoodStretch(s) && StateAt(front + ShowStretch(s), |front|) == INITIAL && !Escaped(front, |front|)
    ensures StateAt(front + ShowStretch(s), |front + ShowStretch(s)|) == INITIAL
  {
    var line := front + ShowStretch(s);
    match s
    case Plain(text) => PlainIsOutside(line, |front|, text, |text|);
    case Quoted(q, text) =>
      QuotedIsInside(line, |front|, q, text, |text|);
      assert line[|line| - 1] == q;
  }

  /** Behind whole stretches the machine starts afresh. */
  lemma OpensAt(before: seq<Stretch>, line: string)
    requires AllGood(before) && ShowAll(before) <= line
    ensures StateAt(line, |ShowAll(before)|) == INITIAL
  {
    var front := ShowAll(before);
    StretchesClose(before);
    PrefixState(front, line[|front|..], |front|);
    assert front + line[|front|..] == line;
  }

  /** Behind whole stretches no position of plain text lies inside a quote. */
  lemma PlainTextIsOutside(before: seq<Stretch>, text: string, line: string, k: nat)
    requires AllGood(before) && OnlyEscaped(text, '\'') && OnlyEscaped(text, '"') && k < |text|
    requires ShowAll(before) <= line && Stands(line, |ShowAll(before)|, text)
    ensures !Inside(line, |ShowAll(before)| + k)
  {
    OpensAt(before, line);
    PlainNotInside(line, |ShowAll(before)|, text, k);
  }

  lemma PlainNotInside(line: string, at: nat, text: string, k: nat)
    requires k < |text| && Stands(line, at, text) && StateAt(line, at) == INITIAL
    requires OnlyEscaped(text, '\'') && OnlyEscaped(text, '"')
    ensures !Inside(line, at + k)
  {
    PlainIsOutside(line, at, text, k);
  }

  /** And every position of quoted text lies inside the quote that begins where it is written and ends
      where it is closed. */
  lemma QuotedTextIsInside(before: seq<Stretch>, q: char, text: string, line: string, k: nat)
    requires AllGood(before) && QuoteChar(q) && OnlyEscaped(text, q) && k <= |text|
    requires ShowAll(before) <= line && Stands(line, |ShowAll(before)|, [q] + text + [q])
    ensures var start := |ShowAll(before)|; var pos := start + 1 + k;
      StateAt(line, pos).quote == Some(q) && StateAt(line, pos).start == start &&
      (Closes(StateAt(line, pos), line[pos]) <==> k == |text|)
  {
    OpensAt(before, line);
    QuotedStands(line, |ShowAll(before)|, q, text);
    QuotedSpan(line, |ShowAll(before)|, q, text, k);
  }

  lemma QuotedStands(line: string, at: nat, q: char, text: string)
    requires Stands(line, at, [q] + text + [q])
    ensures Stands(line, at + 1, text) && at + |text| + 1 < |line| && line[at] == q && line[at + |text| + 1] == q
  {
    var shown := [q] + text + [q];
    assert line[at] == shown[0] && line[at + (|text| + 1)] == shown[|text| + 1];
    forall i | 0 <= i < |text|
      ensures line[at + 1 + i] == text[i]
    {
      assert line[at + (1 + i)] == shown[1 + i];
    }
  }

  lemma QuotedSpan(line: string, at: nat, q: char, text: string, k: nat)
    requires k <= |text| && QuoteChar(q) && OnlyEscaped(text, q)
    requires Stands(line, at + 1, text) && at + |text| + 1 < |line| && line[at] == q && line[at + |text| + 1] == q
    requires StateAt(line, at) == INITIAL
    ensures var m := StateAt(line, at + 1 + k);
      m.quote == Some(q) && m.start == at && (Closes(m, line[at + 1 + k]) <==> k == |text|)
  {
    QuotedIsInside(line, at, q, text, k);
    ClosesIff(q, text, k, at);
    assert k < |text| ==> line[at + 1 + k] == text[k];
  }

  lemma ClosesIff(q: char, text: string, k: nat, start: int)
    requires k <= |text| && QuoteChar(q) && OnlyEscaped(text, q)
    ensures Closes(Machine(Some(q), start, Escaped(text, k)), if k < |text| then text[k] else q) <==> k == |text|
  {
  }

  predicate SameQuoteThrough(line: string, lo: nat, hi: nat)
    requires hi <= |line|
  {
    forall k :: lo <= k < hi ==> StateAt(line, k).quote == StateAt(line, lo).quote &&
                                 StateAt(line, k).start == StateAt(line, lo).start &&
                                 !Closes(StateAt(line, k), line[k])
  }

  /** A span is returned exactly for positions inside a quote, and it runs from the opening
      quote to the first closing one behind `pos`, or to the end of an unclosed line. */
  method QuoteSpanAt(line: string, pos: int) returns (span: Option<(int, int, char)>)
    ensures span.Some? <==> Inside(line, pos)
    ensures span.Some? ==>
              var (start, end, quote) := span.value; var m := StateAt(line, pos);
              start == m.start < pos < end <= |line| && m.quote == Some(quote) &&
              SameQuoteThrough(line, pos, end) &&
              (end < |line| ==> Closes(StateAt(line, end), line[end]) && StateAt(line, end).quote == Some(quote))
  {
    if 0 <= pos <= |line| {
      StartIsBefore(line, pos);
    }
    var quote: Option<char> := None;
    var start := -1;
    var escaped := false;
    var i := 0;
    while i < |line|
      invariant 0 <= i <= |line|
      invariant StateAt(line, i) == Machine(quote, start, escaped)
      invariant quote.Some? ==> 0 <= start < i
      invariant quote.None? ==> start == -1
      invariant 0 <= pos < i && Inside(line, pos) ==>
                  quote.Some? && start == StateAt(line, pos).start && quote == StateAt(line, pos).quote &&
                  SameQuoteThrough(line, pos, i)
      invariant 0 <= pos < i && quote.Some? && start < pos ==> Inside(line, pos)
    {
      var ch := line[i];
      if escaped {
        escaped := false;
      } else if ch == '\\' {
        escaped := true;
      } else if quote.None? {
        if ch in {'\'', '"'} {
          quote := Some(ch);
          start := i;
        }
      } else if ch == quote.value {
        if start < pos < i {
          return Some((start, i, quote.value));
        }
        quote := None;
        start := -1;
      }
      i := i + 1;
    }
    if quote.Some? && start < pos < |line| {
      return Some((start, |line|, quote.value));
    }
    span := None;
  }
}
