/** The scanner's shell word splitter, and the single-quoted printing it undoes. */
module ShellWords {
  import opened Wrappers
  import opened Text

  // ---- expansions --------------------------------------------------------------------------

  predicate IsQuote(c: char) {
    c == '\'' || c == '"'
  }

  /** Characters up to the closer that matches an opener already read, quotes hiding closers. An
      unclosed expansion runs to the end. */
  function BodyLength(s: string, opener: char, depth: nat, quote: Option<char>): (n: nat)
    ensures n <= |s|
  {
    if s == "" then 0
    else if quote.Some? then 1 + BodyLength(s[1..], opener, depth, if s[0] == quote.value then None else quote)
    else if IsQuote(s[0]) then 1 + BodyLength(s[1..], opener, depth, Some(s[0]))
    else if opener == '(' && s[0] == '(' then 1 + BodyLength(s[1..], opener, depth + 1, None)
    else if s[0] == Closer(opener) then (if depth <= 1 then 1 else 1 + BodyLength(s[1..], opener, depth - 1, None))
    else 1 + BodyLength(s[1..], opener, depth, None)
  }

  function Closer(opener: char): char {
    if opener == '{' then '}' else ')'
  }

  predicate StartsExpansion(s: string) {
    |s| > 1 && s[0] == '$' && (s[1] == '(' || s[1] == '{')
  }

  function ExpansionLength(s: string): (n: nat)
    requires StartsExpansion(s)
    ensures 2 <= n <= |s|
  {
    2 + BodyLength(s[2..], s[1], 1, None)
  }

  /** How deep a text is inside its opener, quoted text not counting, after `k` characters. */
  datatype Nest = Nest(depth: nat, quote: Option<char>)

  function Nested(n: Nest, opener: char, c: char): Nest {
    if n.quote.Some? then n.(quote := if c == n.quote.value then None else n.quote)
    else if IsQuote(c) then n.(quote := Some(c))
    else if opener == '(' && c == '(' then n.(depth := n.depth + 1)
    else if c == Closer(opener) && n.depth > 0 then n.(depth := n.depth - 1)
    else n
  }

  function NestAfter(from: Nest, body: string, opener: char, k: nat): Nest
    requires k <= |body|
  {
    if k == 0 then from else Nested(NestAfter(from, body, opener, k - 1), opener, body[k - 1])
  }

  /** The shortest prefix that closes the opener, or all of the text if none does. */
  ghost predicate Closes(from: Nest, body: string, opener: char, n: nat) {
    && n <= |body|
    && (forall k: nat :: k < n ==> NestAfter(from, body, opener, k).depth > 0)
    && (n < |body| ==> NestAfter(from, body, opener, n).depth == 0)
  }

  lemma {:induction false} NestShift(from: Nest, body: string, opener: char, k: nat)
    requires k < |body|
    ensures NestAfter(from, body, opener, k + 1) == NestAfter(Nested(from, opener, body[0]), body[1..], opener, k)
  {
    if k > 0 {
      NestShift(from, body, opener, k - 1);
    }
  }

  lemma {:induction false} BodyCloses(from: Nest, body: string, opener: char)
    requires from.depth > 0
    ensures Closes(from, body, opener, BodyLength(body, opener, from.depth, from.quote))
    decreases |body|
  {
    if body != "" {
      var n, next := BodyLength(body, opener, from.depth, from.quote), Nested(from, opener, body[0]);
      NestShift(from, body, opener, 0);
      if next.depth > 0 {
        BodyCloses(next, body[1..], opener);
        forall k: nat | k < n
          ensures NestAfter(from, body, opener, k).depth > 0
        {
          if k > 0 {
            NestShift(from, body, opener, k - 1);
          }
        }
        if n < |body| {
          NestShift(from, body, opener, n - 1);
        }
      }
    }
  }

  /** An expansion runs to the first closer that matches its opener outside quotes, or to the end. */
  lemma ExpansionCloses(s: string)
    requires StartsExpansion(s)
    ensures Closes(Nest(1, None), s[2..], s[1], ExpansionLength(s) - 2)
  {
    BodyCloses(Nest(1, None), s[2..], s[1]);
  }

  // ---- words -------------------------------------------------------------------------------

  predicate StartsOperator(s: string) {
    |s| > 1 && ((s[0] == '&' && s[1] == '&') || (s[0] == '|' && s[1] == '|'))
  }

  predicate Breaks(s: string) {
    StartsOperator(s) || (s != "" && (s[0] == ';' || s[0] == '|' || IsSpace(s[0])))
  }

  /** The word being read, appended to `buf`, and the text behind it. */
  function Word(s: string, quote: Option<char>, buf: string): (r: (string, string))
    ensures |r.1| <= |s|
    ensures s != "" && (quote.Some? || !Breaks(s)) ==> |r.1| < |s|
  {
    if s == "" then (buf, "")
    else if quote.Some? then
      (if s[0] == quote.value then Word(s[1..], None, buf) else Word(s[1..], quote, buf + [s[0]]))
    else if Breaks(s) then (buf, s)
    else if IsQuote(s[0]) then Word(s[1..], Some(s[0]), buf)
    else if StartsExpansion(s) then Word(s[ExpansionLength(s)..], None, buf + s[..ExpansionLength(s)])
    else Word(s[1..], None, buf + [s[0]])
  }

  function Kept(token: string): seq<string> {
    if Strip(token) == "" then [] else [Strip(token)]
  }

  function Words(s: string): seq<string>
    decreases |s|
  {
    if s == "" then []
    else if IsSpace(s[0]) then Words(s[1..])
    else if StartsOperator(s) then [s[..2]] + Words(s[2..])
    else if s[0] == ';' || s[0] == '|' then [s[..1]] + Words(s[1..])
    else Kept(Word(s, None, "").0) + Words(Word(s, None, "").1)
  }

  // ---- the scanner's loops -----------------------------------------------------------------

  method ReadExpansion(text: string, start: nat) returns (expansion: string, end: nat)
    requires start <= |text| && StartsExpansion(text[start..])
    ensures end == start + ExpansionLength(text[start..]) <= |text|
    ensures expansion == text[start..end]
  {
    var opener := text[start + 1];
    var depth: nat := 1;
    var i := start + 2;
    var quote: Option<char> := None;
    ghost var total := start + ExpansionLength(text[start..]);
    assert text[start..][2..] == text[start + 2..];
    while i < |text|
      invariant start + 2 <= i <= |text| && depth >= 1
      invariant i + BodyLength(text[i..], opener, depth, quote) == total
    {
      var ch := text[i];
      assert text[i..][0] == ch && text[i..][1..] == text[i + 1..];
      if quote.Some? {
        if ch == quote.value {
          quote := None;
        }
        i := i + 1;
        continue;
      }
      if IsQuote(ch) {
        quote := Some(ch);
        i := i + 1;
        continue;
      }
      if opener == '(' && ch == '(' {
        depth := depth + 1;
      } else if ch == Closer(opener) {
        if depth == 1 {
          return text[start..i + 1], i + 1;
        }
        depth := depth - 1;
      }
      i := i + 1;
    }
    return text[start..i], i;
  }

  method ReadWord(text: string, start: nat) returns (word: string, end: nat)
    requires start < |text| && !Breaks(text[start..])
    ensures start < end <= |text| && (word, text[end..]) == Word(text[start..], None, "")
  {
    word := "";
    end := start;
    var quote: Option<char> := None;
    while end < |text|
      invariant start <= end <= |text|
      invariant Word(text[end..], quote, word) == Word(text[start..], None, "")
      invariant end == start ==> quote.None? && word == ""
    {
      var ch := text[end];
      var s := text[end..];
      assert s[0] == ch && s[1..] == text[end + 1..];
      if quote.Some? {
        if ch == quote.value {
          quote := None;
        } else {
          word := word + [ch];
        }
        end := end + 1;
        continue;
      }
      if Breaks(s) {
        break;
      }
      if IsQuote(ch) {
        quote := Some(ch);
        end := end + 1;
        continue;
      }
      if StartsExpansion(s) {
        var expansion, after := ReadExpansion(text, end);
        assert s[ExpansionLength(s)..] == text[after..];
        assert expansion == s[..ExpansionLength(s)];
        word := word + expansion;
        end := after;
        continue;
      }
      word := word + [ch];
      end := end + 1;
    }
  }

  lemma Append(tokens: seq<string>, more: seq<string>, rest: seq<string>)
    ensures (tokens + more) + rest == tokens + (more + rest)
  {
  }

  /** One round of the outer loop: the tokens it adds and where it goes on. */
  method NextToken(text: string, i: nat) returns (added: seq<string>, next: nat)
    requires i < |text|
    ensures i < next <= |text| && Words(text[i..]) == added + Words(text[next..])
  {
    var s := text[i..];
    if IsSpace(text[i]) {
      assert s[1..] == text[i + 1..];
      assert [] + Words(text[i + 1..]) == Words(text[i + 1..]);
      return [], i + 1;
    }
    if StartsOperator(s) {
      assert s[2..] == text[i + 2..];
      return [s[..2]], i + 2;
    }
    if text[i] == ';' || text[i] == '|' {
      assert s[1..] == text[i + 1..];
      return [s[..1]], i + 1;
    }
    var word, end := ReadWord(text, i);
    return Kept(word), end;
  }

  method SplitWords(text: string) returns (tokens: seq<string>)
    ensures tokens == Words(text)
  {
    tokens := [];
    var i := 0;
    assert text[0..] == text;
    while i < |text|
      invariant 0 <= i <= |text|
      invariant tokens + Words(text[i..]) == Words(text)
    {
      var added, next := NextToken(text, i);
      Append(tokens, added, Words(text[next..]));
      tokens, i := tokens + added, next;
    }
  }

  // ---- printing ----------------------------------------------------------------------------

  function Quoted(word: string): string {
    "'" + word + "'"
  }

  /** The words in single quotes, one space between them. */
  function Printed(words: seq<string>): string {
    if words == [] then ""
    else if |words| == 1 then Quoted(words[0])
    else Quoted(words[0]) + (" " + Printed(words[1..]))
  }

  lemma {:induction false} ReadQuoted(word: string, rest: string, buf: string)
    requires '\'' !in word
    ensures Word(word + ("'" + rest), Some('\''), buf) == Word(rest, None, buf + word)
  {
    var s := word + ("'" + rest);
    if word == "" {
      assert s == "'" + rest && s[1..] == rest && buf + word == buf;
    } else {
      assert s[1..] == word[1..] + ("'" + rest);
      assert (buf + [word[0]]) + word[1..] == buf + word;
      ReadQuoted(word[1..], rest, buf + [word[0]]);
    }
  }

  lemma WordQuoted(word: string, rest: string)
    requires '\'' !in word && (rest == "" || IsSpace(rest[0]))
    ensures Word(Quoted(word) + rest, None, "") == (word, rest)
  {
    var s := Quoted(word) + rest;
    assert s[1..] == word + ("'" + rest);
    assert s[0] == '\'';
    ReadQuoted(word, rest, "");
    assert "" + word == word;
  }

  lemma WordsQuoted(word: string, rest: string)
    requires '\'' !in word && (rest == "" || IsSpace(rest[0]))
    ensures Words(Quoted(word) + rest) == Kept(word) + Words(rest)
  {
    var s := Quoted(word) + rest;
    WordQuoted(word, rest);
    assert s[0] == '\'' && !IsSpace('\'');
  }

  function KeptAll(words: seq<string>): seq<string> {
    if words == [] then [] else Kept(words[0]) + KeptAll(words[1..])
  }

  /** Splitting a printed command line gives its words back, stripped, the blank ones dropped. */
  lemma {:induction false} SplitUndoesPrint(words: seq<string>)
    requires forall w :: w in words ==> '\'' !in w
    ensures Words(Printed(words)) == KeptAll(words)
  {
    if words != [] {
      var rest := if |words| == 1 then "" else " " + Printed(words[1..]);
      assert words[0] in words && forall w :: w in words[1..] ==> w in words;
      WordsQuoted(words[0], rest);
      SplitUndoesPrint(words[1..]);
      if |words| == 1 {
        assert Quoted(words[0]) + "" == Quoted(words[0]);
      } else {
        assert rest[1..] == Printed(words[1..]) && IsSpace(' ');
        assert Words(rest) == Words(rest[1..]);
      }
    }
  }

  /** A word that is its own stripped form and not blank. */
  predicate Solid(word: string) {
    word != "" && Trimmed(word)
  }

  predicate AllSolid(words: seq<string>) {
    words == [] || (Solid(words[0]) && AllSolid(words[1..]))
  }

  /** So exactly the lists of non-empty, trimmed words survive printing and splitting. */
  lemma PrintedWordsSurviveIff(words: seq<string>)
    requires forall w :: w in words ==> '\'' !in w
    ensures Words(Printed(words)) == words <==> AllSolid(words)
  {
    SplitUndoesPrint(words);
    KeptAllIff(words);
  }

  lemma KeptOne(word: string)
    ensures Kept(word) == [word] <==> Solid(word)
    ensures Kept(word) == [] || |Kept(word)| == 1
  {
    StripIsTrimmed(word, IsSpace);
    if Trimmed(word) {
      StripTrimmed(word, IsSpace);
    }
  }

  lemma SameList(first: seq<string>, rest: seq<string>, words: seq<string>)
    requires words != [] && |rest| < |words| && (first == [] || |first| == 1)
    ensures first + rest == words <==> first == [words[0]] && rest == words[1..]
  {
    if first != [] {
      assert (first + rest)[0] == first[0] && (first + rest)[1..] == rest;
    }
  }

  lemma {:induction false} KeptAllIff(words: seq<string>)
    ensures |KeptAll(words)| <= |words|
    ensures KeptAll(words) == words <==> AllSolid(words)
  {
    if words != [] {
      KeptOne(words[0]);
      KeptAllIff(words[1..]);
      SameList(Kept(words[0]), KeptAll(words[1..]), words);
    }
  }

  lemma KeptFirst(word: string, rest: seq<string>)
    ensures KeptAll([word] + rest) == Kept(word) + KeptAll(rest)
  {
    assert ([word] + rest)[1..] == rest;
  }

  lemma KeptThree(a: string, b: string, c: string)
    ensures KeptAll([a, b, c]) == Kept(a) + (Kept(b) + (Kept(c) + []))
  {
    KeptFirst(c, []);
    KeptFirst(b, [c]);
    KeptFirst(a, [b, c]);
    assert [c] + [] == [c] && [b] + [c] == [b, c] && [a] + [b, c] == [a, b, c];
    assert KeptAll([]) == [];
  }

  lemma Three(kept: seq<string>, none: seq<string>, last: seq<string>)
    requires |kept| == 1 && none == [] && |last| == 1
    ensures kept + (none + (last + [])) == [kept[0], last[0]]
  {
  }

  lemma BlankIsDropped(first: string, blank: string, last: string)
    requires Solid(first) && Strip(blank) == "" && Solid(last)
    requires '\'' !in first && '\'' !in blank && '\'' !in last
    ensures Words(Printed([first, blank, last])) == [first, last]
  {
    var words := [first, blank, last];
    SplitUndoesPrint(words);
    KeptThree(first, blank, last);
    KeptOne(first);
    KeptOne(last);
    Three(Kept(first), Kept(blank), Kept(last));
  }
}
