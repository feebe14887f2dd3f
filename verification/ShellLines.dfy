/** Command lines as people write them, and that the splitter reads them as they were meant: words of bare
    characters, quoted text and expansions, with operators between them. */
module ShellLines {
  import opened Wrappers
  import opened Text
  import opened ShellWords

  // ---- expansions ------------------------------------------------------------------------------

  /** What stands inside an expansion: characters, quoted text, and groups in parentheses. */
  datatype Inside =
    | Nothing
    | Char(c: char, more: Inside)
    | Str(q: char, text: string, more: Inside)
    | Group(inner: Inside, more: Inside)

  function ShowInside(b: Inside): string {
    match b
    case Nothing => ""
    case Char(c, more) => [c] + ShowInside(more)
    case Str(q, text, more) => [q] + text + [q] + ShowInside(more)
    case Group(inner, more) => "(" + ShowInside(inner) + ")" + ShowInside(more)
  }

  predicate QuoteChar(c: char) {
    c == '\'' || c == '"'
  }

  /** Quotes hide what stands between them; in `$(…)` parentheses are matched, in `${…}` they are not. */
  predicate GoodInside(b: Inside, opener: char) {
    match b
    case Nothing => true
    case Char(c, more) =>
      !QuoteChar(c) && (if opener == '(' then c != '(' && c != ')' else c != '}') && GoodInside(more, opener)
    case Str(q, text, more) => QuoteChar(q) && q !in text && GoodInside(more, opener)
    case Group(inner, more) => opener == '(' && GoodInside(inner, opener) && GoodInside(more, opener)
  }

  lemma {:induction false} QuotedInside(q: char, text: string, rest: string, opener: char, depth: nat)
    requires q !in text
    ensures BodyLength(text + ([q] + rest), opener, depth, Some(q)) == |text| + 1 + BodyLength(rest, opener, depth, None)
  {
    var s := text + ([q] + rest);
    if text == "" {
      assert s == [q] + rest && s[1..] == rest;
    } else {
      assert s[1..] == text[1..] + ([q] + rest) && s[0] == text[0];
      QuotedInside(q, text[1..], rest, opener, depth);
    }
  }

  lemma Behind(c: char, s: string)
    ensures ([c] + s)[0] == c && ([c] + s)[1..] == s
  {
  }

  lemma StrInside(q: char, text: string, rest: string, opener: char, depth: nat)
    requires QuoteChar(q) && q !in text
    ensures BodyLength([q] + text + [q] + rest, opener, depth, None) == |text| + 2 + BodyLength(rest, opener, depth, None)
  {
    assert [q] + text + [q] + rest == [q] + (text + ([q] + rest));
    Behind(q, text + ([q] + rest));
    QuotedInside(q, text, rest, opener, depth);
  }

  lemma CharInside(c: char, rest: string, opener: char, depth: nat)
    requires !QuoteChar(c) && (if opener == '(' then c != '(' && c != ')' else opener == '{' && c != '}')
    ensures BodyLength([c] + rest, opener, depth, None) == 1 + BodyLength(rest, opener, depth, None)
  {
    Behind(c, rest);
  }

  lemma OpenInside(rest: string, depth: nat)
    ensures BodyLength("(" + rest, '(', depth, None) == 1 + BodyLength(rest, '(', depth + 1, None)
  {
    Behind('(', rest);
  }

  lemma CloseInside(rest: string, depth: nat)
    requires depth > 1
    ensures BodyLength(")" + rest, '(', depth, None) == 1 + BodyLength(rest, '(', depth - 1, None)
  {
    Behind(')', rest);
  }

  lemma {:induction false} InsideIsPassed(b: Inside, rest: string, opener: char, depth: nat)
    requires (opener == '(' || opener == '{') && GoodInside(b, opener) && depth > 0
    ensures BodyLength(ShowInside(b) + rest, opener, depth, None)
         == |ShowInside(b)| + BodyLength(rest, opener, depth, None)
    decreases b
  {
    match b
    case Nothing =>
      assert "" + rest == rest;
    case Char(c, more) =>
      assert [c] + ShowInside(more) + rest == [c] + (ShowInside(more) + rest);
      CharInside(c, ShowInside(more) + rest, opener, depth);
      InsideIsPassed(more, rest, opener, depth);
    case Str(q, text, more) =>
      assert [q] + text + [q] + ShowInside(more) + rest == [q] + text + [q] + (ShowInside(more) + rest);
      StrInside(q, text, ShowInside(more) + rest, opener, depth);
      InsideIsPassed(more, rest, opener, depth);
    case Group(inner, more) =>
      GroupIsPassed(ShowInside(inner), ShowInside(more), rest);
      InsideIsPassed(inner, ")" + (ShowInside(more) + rest), opener, depth + 1);
      OpenInside(ShowInside(inner) + (")" + (ShowInside(more) + rest)), depth);
      CloseInside(ShowInside(more) + rest, depth + 1);
      InsideIsPassed(more, rest, opener, depth);
  }

  lemma GroupIsPassed(inner: string, more: string, rest: string)
    ensures "(" + inner + ")" + more + rest == "(" + (inner + (")" + (more + rest)))
  {
  }

  // ---- words -----------------------------------------------------------------------------------

  datatype Piece = Bare(c: char) | Quote(q: char, text: string) | Expansion(opener: char, body: Inside)

  function ShowPiece(p: Piece): string {
    match p
    case Bare(c) => [c]
    case Quote(q, text) => [q] + text + [q]
    case Expansion(opener, body) => ['$', opener] + ShowInside(body) + if opener == '(' then ")" else "}"
  }

  /** What the piece means: quotes go, an expansion stays as it is written. */
  function Meaning(p: Piece): string {
    match p case Bare(c) => [c] case Quote(_, text) => text case Expansion(_, _) => ShowPiece(p)
  }

  function ShowPieces(ps: seq<Piece>): string {
    if ps == [] then "" else ShowPiece(ps[0]) + ShowPieces(ps[1..])
  }

  function MeaningOf(ps: seq<Piece>): string {
    if ps == [] then "" else Meaning(ps[0]) + MeaningOf(ps[1..])
  }

  /** A bare character is no separator, and starts neither an operator nor an expansion with what follows. */
  predicate GoodPiece(p: Piece, next: string) {
    match p
    case Bare(c) =>
      && !IsSpace(c) && c != ';' && c != '|' && !QuoteChar(c)
      && (c == '&' ==> next == "" || next[0] != '&')
      && (c == '$' ==> next == "" || (next[0] != '(' && next[0] != '{'))
    case Quote(q, text) => QuoteChar(q) && q !in text
    case Expansion(opener, body) => (opener == '(' || opener == '{') && GoodInside(body, opener)
  }

  predicate GoodPieces(ps: seq<Piece>, rest: string) {
    ps == [] || (GoodPiece(ps[0], ShowPieces(ps[1..]) + rest) && GoodPieces(ps[1..], rest))
  }

  /** A word ends at the end of the text, at white space, and before an operator. */
  predicate EndsWord(rest: string) {
    rest == "" || IsSpace(rest[0]) || rest[0] == ';' || rest[0] == '|' || (|rest| > 1 && rest[0] == '&' && rest[1] == '&')
  }

  lemma {:induction false} ReadText(q: char, text: string, rest: string, buf: string)
    requires q !in text
    ensures Word(text + ([q] + rest), Some(q), buf) == Word(rest, None, buf + text)
  {
    var s := text + ([q] + rest);
    if text == "" {
      assert s == [q] + rest && s[1..] == rest && buf + text == buf;
    } else {
      assert s[1..] == text[1..] + ([q] + rest) && s[0] == text[0];
      assert (buf + [text[0]]) + text[1..] == buf + text;
      ReadText(q, text[1..], rest, buf + [text[0]]);
    }
  }

  lemma ReadQuote(q: char, text: string, rest: string, buf: string)
    requires QuoteChar(q) && q !in text
    ensures Word([q] + text + [q] + rest, None, buf) == Word(rest, None, buf + text)
  {
    var s := text + ([q] + rest);
    assert [q] + text + [q] + rest == [q] + s;
    Behind(q, s);
    assert !IsSpace('\'') && !IsSpace('"');
    ReadText(q, text, rest, buf);
  }

  lemma ReadBare(c: char, rest: string, buf: string)
    requires GoodPiece(Bare(c), rest)
    ensures Word([c] + rest, None, buf) == Word(rest, None, buf + [c])
  {
    Behind(c, rest);
    if rest != "" {
      assert ([c] + rest)[1] == rest[0];
    }
  }

  lemma ExpansionIsWhole(opener: char, body: Inside, rest: string)
    requires (opener == '(' || opener == '{') && GoodInside(body, opener)
    ensures var e := ShowPiece(Expansion(opener, body));
            StartsExpansion(e + rest) && ExpansionLength(e + rest) == |e|
  {
    var shown := ShowInside(body);
    var closer := if opener == '(' then ")" else "}";
    var e := ['$', opener] + shown + closer;
    assert e + rest == ['$', opener] + (shown + (closer + rest));
    assert (e + rest)[2..] == shown + (closer + rest);
    InsideIsPassed(body, closer + rest, opener, 1);
    Behind(closer[0], rest);
  }

  lemma ReadWhole(e: string, rest: string, buf: string)
    requires StartsExpansion(e + rest) && ExpansionLength(e + rest) == |e|
    ensures Word(e + rest, None, buf) == Word(rest, None, buf + e)
  {
    var s := e + rest;
    assert s[..|e|] == e && s[|e|..] == rest;
    assert s[0] == '$' && !IsSpace('$');
  }

  lemma ReadPiece(p: Piece, rest: string, buf: string)
    requires GoodPiece(p, rest)
    ensures Word(ShowPiece(p) + rest, None, buf) == Word(rest, None, buf + Meaning(p))
  {
    match p
    case Bare(c) => ReadBare(c, rest, buf);
    case Quote(q, text) => ReadQuote(q, text, rest, buf);
    case Expansion(opener, body) =>
      ExpansionIsWhole(opener, body, rest);
      ReadWhole(ShowPiece(p), rest, buf);
  }

  /** A word is read up to where it ends, as the meanings of its pieces. */
  lemma {:induction false} ReadPieces(ps: seq<Piece>, rest: string, buf: string)
    requires GoodPieces(ps, rest) && EndsWord(rest)
    ensures Word(ShowPieces(ps) + rest, None, buf) == (buf + MeaningOf(ps), rest)
  {
    if ps == [] {
      assert "" + rest == rest && buf + "" == buf;
    } else {
      var more := ShowPieces(ps[1..]) + rest;
      Associates(ShowPiece(ps[0]), ShowPieces(ps[1..]), rest);
      ReadPiece(ps[0], more, buf);
      ReadPieces(ps[1..], rest, buf + Meaning(ps[0]));
      Associates(buf, Meaning(ps[0]), MeaningOf(ps[1..]));
    }
  }

  // ---- lines -----------------------------------------------------------------------------------

  datatype Token = AWord(pieces: seq<Piece>) | AnOperator(op: string)

  /** A token with the white space behind it. */
  datatype Spaced = Spaced(token: Token, gap: string)

  function ShowToken(t: Token): string {
    match t case AWord(pieces) => ShowPieces(pieces) case AnOperator(op) => op
  }

  function ShowLine(line: seq<Spaced>): string {
    if line == [] then "" else ShowToken(line[0].token) + (line[0].gap + ShowLine(line[1..]))
  }

  /** An operator is a token of its own; a word is its meaning, stripped, and a blank one is none. */
  function Tokens(t: Token): seq<string> {
    match t
    case AnOperator(op) => [op]
    case AWord(pieces) => if Strip(MeaningOf(pieces)) == "" then [] else [Strip(MeaningOf(pieces))]
  }

  function TokensOf(line: seq<Spaced>): seq<string> {
    if line == [] then [] else Tokens(line[0].token) + TokensOf(line[1..])
  }

  predicate GoodToken(t: Token, rest: string) {
    match t
    case AWord(pieces) => pieces != [] && GoodPieces(pieces, rest) && EndsWord(rest)
    case AnOperator(op) => op == ";" || op == "&&" || op == "||" || (op == "|" && (rest == "" || rest[0] != '|'))
  }

  predicate GoodLine(line: seq<Spaced>) {
    line == [] ||
    (var gap, rest := line[0].gap, ShowLine(line[1..]);
     (forall c :: c in gap ==> IsSpace(c)) && GoodToken(line[0].token, gap + rest) && GoodLine(line[1..]))
  }

  lemma {:induction false} SpacesAreSkipped(gap: string, rest: string)
    requires forall c :: c in gap ==> IsSpace(c)
    ensures Words(gap + rest) == Words(rest)
  {
    if gap == "" {
      assert gap + rest == rest;
    } else {
      assert gap[0] in gap && (gap + rest)[1..] == gap[1..] + rest;
      SpacesAreSkipped(gap[1..], rest);
    }
  }

  lemma OperatorIsRead(op: string, rest: string)
    requires GoodToken(AnOperator(op), rest)
    ensures Words(op + rest) == [op] + Words(rest)
  {
    var s := op + rest;
    assert s[..|op|] == op && s[|op|..] == rest && s[0] == op[0];
    assert !IsSpace(';') && !IsSpace('|') && !IsSpace('&');
  }

  lemma PieceStarts(p: Piece, rest: string)
    requires GoodPiece(p, rest)
    ensures var s := ShowPiece(p) + rest; s != "" && !EndsWord(s)
  {
    assert !IsSpace('\'') && !IsSpace('"') && !IsSpace('$');
    var s := ShowPiece(p) + rest;
    assert s[0] == ShowPiece(p)[0];
    if p.Bare? && |s| > 1 {
      assert s[1] == rest[0];
    }
  }

  lemma WordsAtWord(s: string, word: string, rest: string)
    requires s != "" && !EndsWord(s) && Word(s, None, "") == (word, rest)
    ensures Words(s) == Kept(word) + Words(rest)
  {
  }

  lemma WordIsRead(ps: seq<Piece>, rest: string)
    requires ps != [] && GoodPieces(ps, rest) && EndsWord(rest)
    ensures Words(ShowPieces(ps) + rest) == Tokens(AWord(ps)) + Words(rest)
  {
    Associates(ShowPiece(ps[0]), ShowPieces(ps[1..]), rest);
    PieceStarts(ps[0], ShowPieces(ps[1..]) + rest);
    ReadPieces(ps, rest, "");
    assert "" + MeaningOf(ps) == MeaningOf(ps);
    WordsAtWord(ShowPieces(ps) + rest, MeaningOf(ps), rest);
  }

  lemma TokenIsRead(t: Token, rest: string)
    requires GoodToken(t, rest)
    ensures Words(ShowToken(t) + rest) == Tokens(t) + Words(rest)
  {
    match t
    case AWord(pieces) => WordIsRead(pieces, rest);
    case AnOperator(op) => OperatorIsRead(op, rest);
  }

  /** The splitter reads every such line as it was meant, token by token, whatever quotes, expansions and
      operators it is written with. */
  lemma {:induction false} LineReadsBack(line: seq<Spaced>)
    requires GoodLine(line)
    ensures Words(ShowLine(line)) == TokensOf(line)
  {
    if line != [] {
      var gap, rest := line[0].gap, ShowLine(line[1..]);
      TokenIsRead(line[0].token, gap + rest);
      SpacesAreSkipped(gap, rest);
      LineReadsBack(line[1..]);
    }
  }
}
