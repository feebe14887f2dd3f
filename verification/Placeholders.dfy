/** The translator from positional `?` placeholders to named `:pN` binds. */
module Placeholders {
  import opened Wrappers

  datatype Translation<V> = Translated(text: string, binds: map<string, V>) | MissingParameter

  // ---- bind names --------------------------------------------------------------------------

  predicate IsDigit(c: char) {
    '0' <= c <= '9'
  }

  predicate IsIdent(c: char) {
    IsDigit(c) || 'a' <= c <= 'z' || 'A' <= c <= 'Z' || c == '_'
  }

  function Decimal(n: nat): (s: string)
    ensures s != "" && forall c :: c in s ==> IsDigit(c)
  {
    (if n < 10 then "" else Decimal(n / 10)) + ['0' + (n % 10) as char]
  }

  function Name(n: nat): string {
    "p" + Decimal(n)
  }

  function Value(s: string): nat
    requires forall c :: c in s ==> IsDigit(c)
  {
    if s == "" then 0 else
      assert s[|s| - 1] in s && IsDigit(s[|s| - 1]);
      10 * Value(s[..|s| - 1]) + (s[|s| - 1] as int - '0' as int)
  }

  lemma {:induction false} DecimalReadsBack(n: nat)
    ensures Value(Decimal(n)) == n
  {
    var s := Decimal(n);
    if n < 10 {
      assert s[..|s| - 1] == "";
    } else {
      assert s[..|s| - 1] == Decimal(n / 10);
      DecimalReadsBack(n / 10);
    }
  }

  lemma NamesAreDistinct(a: nat, b: nat)
    requires Name(a) == Name(b)
    ensures a == b
  {
    assert Name(a)[1..] == Decimal(a) && Name(b)[1..] == Decimal(b);
    DecimalReadsBack(a);
    DecimalReadsBack(b);
  }

  // ---- the translation ---------------------------------------------------------------------

  /** The quote character in force after reading `ch`. */
  function NextQuote(quote: Option<char>, ch: char): Option<char> {
    if quote.Some? then (if ch == quote.value then None else quote)
    else if ch in {'\'', '"'} then Some(ch) else None
  }

  predicate Placeholder(quote: Option<char>, ch: char) {
    quote.None? && ch == '?'
  }

  function Count(sql: string, quote: Option<char>): nat {
    if sql == "" then 0
    else (if Placeholder(quote, sql[0]) then 1 else 0) + Count(sql[1..], NextQuote(quote, sql[0]))
  }

  function Renamed(sql: string, quote: Option<char>, n: nat): string {
    if sql == "" then ""
    else if Placeholder(quote, sql[0]) then ":" + Name(n) + Renamed(sql[1..], None, n + 1)
    else [sql[0]] + Renamed(sql[1..], NextQuote(quote, sql[0]), n)
  }

  /** The binds are exactly p0 … p(n-1), in the order of the parameters. */
  ghost predicate BindsAre<V>(binds: map<string, V>, params: seq<V>, n: nat) {
    && n <= |params| && |binds| == n
    && (forall k :: 0 <= k < n ==> Bound(binds, k, params[k]))
    && (forall name :: name in binds ==> IsNameBelow(name, n))
  }

  predicate Bound<V(==)>(binds: map<string, V>, k: nat, v: V) {
    Name(k) in binds && binds[Name(k)] == v
  }

  predicate IsNameBelow(name: string, n: nat) {
    exists k :: 0 <= k < n && name == Name(k)
  }

  lemma OneMoreBind<V>(binds: map<string, V>, params: seq<V>, n: nat)
    requires BindsAre(binds, params, n) && n < |params|
    ensures BindsAre(binds[Name(n) := params[n]], params, n + 1)
  {
    var more := binds[Name(n) := params[n]];
    if Name(n) in binds {
      assert IsNameBelow(Name(n), n);
      var k :| 0 <= k < n && Name(n) == Name(k);
      NamesAreDistinct(k, n);
    }
    forall k | 0 <= k < n + 1
      ensures Bound(more, k, params[k])
    {
      if k < n {
        assert Bound(binds, k, params[k]);
      }
    }
    forall name | name in more
      ensures IsNameBelow(name, n + 1)
    {
      if name in binds {
        assert IsNameBelow(name, n);
      }
    }
    assert more.Keys == binds.Keys + {Name(n)};
    assert |more.Keys| == |binds.Keys| + 1;
  }

  // ---- statements as they are written ----------------------------------------------------------

  /** A statement is made of text, literals in quotes, and placeholders. */
  datatype Part = Words(text: string) | Literal(q: char, text: string) | Hole

  predicate GoodPart(p: Part) {
    match p
    case Words(t) => '\'' !in t && '"' !in t && '?' !in t
    case Literal(q, t) => (q == '\'' || q == '"') && q !in t
    case Hole => true
  }

  function ShowParts(ps: seq<Part>): string {
    if ps == [] then "" else ShowPart(ps[0]) + ShowParts(ps[1..])
  }

  function ShowPart(p: Part): string {
    match p case Words(t) => t case Literal(q, t) => [q] + t + [q] case Hole => "?"
  }

  /** The same statement with its placeholders numbered from `n` on. */
  function ShowNumbered(ps: seq<Part>, n: nat): string {
    if ps == [] then ""
    else if ps[0].Hole? then ":p" + Decimal(n) + ShowNumbered(ps[1..], n + 1)
    else ShowPart(ps[0]) + ShowNumbered(ps[1..], n)
  }

  function Holes(ps: seq<Part>): nat {
    if ps == [] then 0 else (if ps[0].Hole? then 1 else 0) + Holes(ps[1..])
  }

  lemma {:induction false} TextIsKept(t: string, rest: string, n: nat)
    requires '\'' !in t && '"' !in t && '?' !in t
    ensures Renamed(t + rest, None, n) == t + Renamed(rest, None, n) && Count(t + rest, None) == Count(rest, None)
  {
    if t == "" {
      assert t + rest == rest && t + Renamed(rest, None, n) == Renamed(rest, None, n);
    } else {
      assert (t + rest)[1..] == t[1..] + rest && t[0] in t;
      TextIsKept(t[1..], rest, n);
      assert [t[0]] + (t[1..] + Renamed(rest, None, n)) == t + Renamed(rest, None, n);
    }
  }

  lemma {:induction false} LiteralIsKept(q: char, t: string, rest: string, n: nat)
    requires (q == '\'' || q == '"') && q !in t
    ensures Renamed(t + ([q] + rest), Some(q), n) == t + ([q] + Renamed(rest, None, n))
    ensures Count(t + ([q] + rest), Some(q)) == Count(rest, None)
  {
    var s := t + ([q] + rest);
    if t == "" {
      assert s == [q] + rest && s[1..] == rest;
      assert t + ([q] + Renamed(rest, None, n)) == [q] + Renamed(rest, None, n);
    } else {
      assert s[1..] == t[1..] + ([q] + rest) && s[0] == t[0] && t[0] in t;
      LiteralIsKept(q, t[1..], rest, n);
      assert [t[0]] + (t[1..] + ([q] + Renamed(rest, None, n))) == t + ([q] + Renamed(rest, None, n));
    }
  }

  /** Text and literals come out as they went in, question marks inside literals too, and the placeholders
      are numbered in order. */
  lemma {:induction false} StatementIsNumbered(ps: seq<Part>, n: nat)
    requires forall p :: p in ps ==> GoodPart(p)
    ensures Renamed(ShowParts(ps), None, n) == ShowNumbered(ps, n) && Count(ShowParts(ps), None) == Holes(ps)
  {
    if ps != [] {
      var p, rest := ps[0], ShowParts(ps[1..]);
      assert p in ps;
      StatementIsNumbered(ps[1..], if p.Hole? then n + 1 else n);
      match p
      case Words(t) => TextIsKept(t, rest, n);
      case Literal(q, t) => OneLiteral(q, t, rest, n);
      case Hole => assert ("?" + rest)[1..] == rest;
    }
  }

  lemma OneLiteral(q: char, t: string, rest: string, n: nat)
    requires (q == '\'' || q == '"') && q !in t
    ensures Renamed([q] + t + [q] + rest, None, n) == [q] + t + [q] + Renamed(rest, None, n)
    ensures Count([q] + t + [q] + rest, None) == Count(rest, None)
  {
    var s := t + ([q] + rest);
    assert [q] + t + [q] + rest == [q] + s;
    assert ([q] + s)[1..] == s;
    LiteralIsKept(q, t, rest, n);
    assert [q] + (t + ([q] + Renamed(rest, None, n))) == [q] + t + [q] + Renamed(rest, None, n);
  }

  lemma Append(out: string, x: string, rest: string)
    ensures (out + x) + rest == out + (x + rest)
  {
  }

  method QmarkToNamed<V>(sql: string, params: seq<V>) returns (r: Translation<V>)
    ensures r.Translated? <==> Count(sql, None) <= |params|
    ensures r.Translated? ==> r.text == Renamed(sql, None, 0) && BindsAre(r.binds, params, Count(sql, None))
  {
    var out := "";
    var binds: map<string, V> := map[];
    var n := 0;
    var quote: Option<char> := None;
    for i := 0 to |sql|
      invariant BindsAre(binds, params, n)
      invariant out + Renamed(sql[i..], quote, n) == Renamed(sql, None, 0)
      invariant n + Count(sql[i..], quote) == Count(sql, None)
    {
      var ch := sql[i];
      assert sql[i..][0] == ch && sql[i..][1..] == sql[i + 1..];
      ghost var before, q, k := out, quote, n;
      if quote.Some? {
        out := out + [ch];
        if ch == quote.value {
          quote := None;
        }
      } else if ch in {'\'', '"'} {
        quote := Some(ch);
        out := out + [ch];
      } else if ch == '?' {
        if n >= |params| {
          return MissingParameter;
        }
        var key := Name(n);
        out := out + (":" + key);
        OneMoreBind(binds, params, n);
        binds := binds[key := params[n]];
        n := n + 1;
      } else {
        out := out + [ch];
      }
      Append(before, if Placeholder(q, ch) then ":" + Name(k) else [ch], Renamed(sql[i + 1..], quote, n));
    }
    assert sql[|sql|..] == "";
    r := Translated(out, binds);
  }

  // ---- what the two statements mean ------------------------------------------------------------

  /** A statement with its parameters filled in: literal characters and parameter values. */
  datatype Piece<V> = Ch(c: char) | Val(v: V)

  function Positional<V>(sql: string, params: seq<V>, quote: Option<char>, n: nat): seq<Piece<V>>
    requires n + Count(sql, quote) <= |params|
  {
    if sql == "" then []
    else if Placeholder(quote, sql[0]) then [Val(params[n])] + Positional(sql[1..], params, None, n + 1)
    else [Ch(sql[0])] + Positional(sql[1..], params, NextQuote(quote, sql[0]), n)
  }

  /** The longest identifier a text starts with. */
  function Ident(s: string): (r: string)
    ensures r <= s
  {
    if s != "" && IsIdent(s[0]) then [s[0]] + Ident(s[1..]) else ""
  }

  /** Outside quotes a colon and the identifier behind it stand for a bind, if there is one. */
  function Named<V>(text: string, binds: map<string, V>, quote: Option<char>): seq<Piece<V>>
    decreases |text|
  {
    if text == "" then []
    else if quote.None? && text[0] == ':' && Ident(text[1..]) in binds then
      [Val(binds[Ident(text[1..])])] + Named(text[1 + |Ident(text[1..])|..], binds, None)
    else [Ch(text[0])] + Named(text[1..], binds, NextQuote(quote, text[0]))
  }

  /** Outside quotes, no colon in front of one of the bind names, and no identifier character
      right behind a placeholder. */
  predicate Clean<V>(sql: string, binds: map<string, V>, quote: Option<char>) {
    sql == "" ||
    (&& (quote.None? && sql[0] == ':' ==> Ident(sql[1..]) !in binds)
     && (Placeholder(quote, sql[0]) && |sql| > 1 ==> !IsIdent(sql[1]))
     && Clean(sql[1..], binds, NextQuote(quote, sql[0])))
  }

  lemma {:induction false} IdentOfRenamed(sql: string, n: nat)
    ensures Ident(Renamed(sql, None, n)) == Ident(sql)
  {
    if sql != "" && IsIdent(sql[0]) {
      assert Renamed(sql, None, n)[1..] == Renamed(sql[1..], None, n);
      IdentOfRenamed(sql[1..], n);
    }
  }

  lemma {:induction false} IdentOfPrefix(word: string, rest: string)
    requires forall c :: c in word ==> IsIdent(c)
    ensures Ident(word + rest) == word + Ident(rest)
  {
    if word == "" {
      assert word + rest == rest;
    } else {
      assert (word + rest)[1..] == word[1..] + rest;
      IdentOfPrefix(word[1..], rest);
    }
  }

  /** Reading the renamed placeholder: its name, run together with any identifier behind it. */
  lemma RenamedHead(sql: string, n: nat)
    requires sql != "" && sql[0] == '?'
    ensures var text := Renamed(sql, None, n);
            text[0] == ':' && text[1..] == Name(n) + Renamed(sql[1..], None, n + 1) &&
            Ident(text[1..]) == Name(n) + Ident(sql[1..])
  {
    var rest := Renamed(sql[1..], None, n + 1);
    assert Renamed(sql, None, n)[1..] == Name(n) + rest;
    assert IsIdent('p');
    IdentOfPrefix(Name(n), rest);
    IdentOfRenamed(sql[1..], n + 1);
  }

  lemma IdentStops(s: string)
    ensures var r := s[|Ident(s)|..]; r == "" || !IsIdent(r[0])
  {
    if s != "" && IsIdent(s[0]) {
      IdentStops(s[1..]);
      assert s[|Ident(s)|..] == s[1..][|Ident(s[1..])|..];
    }
  }

  lemma NamedStartsWith<V>(text: string, binds: map<string, V>, c: char)
    requires text == "" || !IsIdent(text[0])
    requires IsIdent(c)
    ensures Named(text, binds, None) == [] || Named(text, binds, None)[0] != Ch(c)
  {
  }

  lemma HeadsAndTails<T>(a: T, s: seq<T>, b: T, t: seq<T>)
    ensures [a] + s == [b] + t <==> a == b && s == t
  {
    assert ([a] + s)[0] == a && ([b] + t)[0] == b;
    assert ([a] + s)[1..] == s && ([b] + t)[1..] == t;
  }

  /** A placeholder with an identifier character behind it is always misread. */
  lemma RunTogether<V>(sql: string, params: seq<V>, binds: map<string, V>, n: nat)
    requires |sql| > 1 && sql[0] == '?' && IsIdent(sql[1])
    requires n + Count(sql, None) <= |params|
    ensures Named(Renamed(sql, None, n), binds, None) != Positional(sql, params, None, n)
  {
    var text := Renamed(sql, None, n);
    var name := Ident(text[1..]);
    RenamedHead(sql, n);
    var positional := Positional(sql[1..], params, None, n + 1);
    assert positional[0] == Ch(sql[1]);
    if name in binds {
      IdentStops(text[1..]);
      var behind := text[1..][|name|..];
      assert text[1 + |name|..] == behind;
      NamedStartsWith(behind, binds, sql[1]);
      HeadsAndTails(Val(binds[name]), Named(behind, binds, None), Val(params[n]), positional);
    } else {
      HeadsAndTails(Ch(':'), Named(text[1..], binds, None), Val(params[n]), positional);
    }
  }

  /** Filling the named binds into the output gives the input with its parameters filled in by
      position, quoted text untouched, for exactly the clean statements. */
  lemma {:induction false} MeaningKeptIffClean<V>(
      sql: string, params: seq<V>, binds: map<string, V>, total: nat, quote: Option<char>, n: nat)
    requires BindsAre(binds, params, total) && n + Count(sql, quote) <= total
    ensures Named(Renamed(sql, quote, n), binds, quote) == Positional(sql, params, quote, n)
            <==> Clean(sql, binds, quote)
  {
    if sql == "" {
    } else if Placeholder(quote, sql[0]) {
      var text := Renamed(sql, None, n);
      RenamedHead(sql, n);
      if |sql| > 1 && IsIdent(sql[1]) {
        RunTogether(sql, params, binds, n);
      } else {
        assert Ident(sql[1..]) == "" && Name(n) + "" == Name(n);
        MeaningKeptIffClean(sql[1..], params, binds, total, None, n + 1);
        assert text[1 + |Name(n)|..] == Renamed(sql[1..], None, n + 1);
        HeadsAndTails(Val(params[n]), Named(Renamed(sql[1..], None, n + 1), binds, None),
                      Val(params[n]), Positional(sql[1..], params, None, n + 1));
      }
    } else {
      OrdinaryHead(sql, params, binds, total, quote, n);
      MeaningKeptIffClean(sql[1..], params, binds, total, NextQuote(quote, sql[0]), n);
    }
  }

  lemma OrdinaryHead<V>(sql: string, params: seq<V>, binds: map<string, V>, total: nat, quote: Option<char>, n: nat)
    requires BindsAre(binds, params, total) && n + Count(sql, quote) <= total
    requires sql != "" && !Placeholder(quote, sql[0])
    ensures var q := NextQuote(quote, sql[0]);
            Named(Renamed(sql, quote, n), binds, quote) == Positional(sql, params, quote, n) <==>
              !(quote.None? && sql[0] == ':' && Ident(sql[1..]) in binds) &&
              Named(Renamed(sql[1..], q, n), binds, q) == Positional(sql[1..], params, q, n)
  {
    var q := NextQuote(quote, sql[0]);
    var text, rest := Renamed(sql, quote, n), Renamed(sql[1..], q, n);
    assert text[0] == sql[0] && text[1..] == rest;
    if quote.None? && sql[0] == ':' {
      IdentOfRenamed(sql[1..], n);
    }
    if quote.None? && sql[0] == ':' && Ident(sql[1..]) in binds {
      HeadsAndTails(Val(binds[Ident(rest)]), Named(text[1 + |Ident(rest)|..], binds, None),
                    Ch(sql[0]), Positional(sql[1..], params, q, n));
    } else {
      HeadsAndTails(Ch(sql[0]), Named(rest, binds, q), Ch(sql[0]), Positional(sql[1..], params, q, n));
    }
  }
}
