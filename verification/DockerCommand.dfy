/** Finding the image in the arguments of a `docker run` or `docker pull` command. */
module DockerCommand {
  import opened Wrappers
  import opened Text
  import opened ShellWords

  /** The scanner's word tables. */
  datatype Lexicon = Lexicon(
    separators: set<string>, boolFlags: set<string>, valueFlags: set<string>, invalid: set<string>)

  predicate ShortValueFlag(c: char) {
    c == 'a' || c == 'v' || c == 'e' || c == 'p' || c == 'u' || c == 'w' || c == 'h' || c == 'l'
  }

  // ---- tokens ------------------------------------------------------------------------------

  predicate IsTokenQuote(c: char) {
    c == '\'' || c == '"' || c == '`'
  }

  function Unquoted(token: string): string {
    StrippedOf(token, IsTokenQuote)
  }

  function Clean(token: string): string {
    Unquoted(Strip(token))
  }

  predicate IsLetter(c: char) {
    'a' <= c <= 'z' || 'A' <= c <= 'Z' || c == '_'
  }

  predicate IsDigit(c: char) {
    '0' <= c <= '9'
  }

  predicate Identifier(s: string) {
    s != "" && IsLetter(s[0]) && forall c :: c in s ==> IsLetter(c) || IsDigit(c)
  }

  /** `$NAME`, `${NAME}` or `$(NAME)`. */
  function PureVariableName(token: string): Option<string> {
    if |token| < 2 || token[0] != '$' then None
    else if token[1] == '{' || token[1] == '(' then
      (if |token| > 3 && token[|token| - 1] == Closer(token[1]) && Identifier(token[2..|token| - 1])
       then Some(token[2..|token| - 1]) else None)
    else if Identifier(token[1..]) then Some(token[1..])
    else None
  }

  function Upper(s: string): string {
    seq(|s|, k requires 0 <= k < |s| => if 'a' <= s[k] <= 'z' then s[k] - 'a' + 'A' else s[k])
  }

  /** The word occurs in the name, in any case. */
  predicate Mentions(name: string, word: string) {
    Occurs(Upper(name), word)
  }

  const IMAGE_WORDS := ["IMAGE", "IMG", "REGISTRY", "REPOSITORY", "REPO", "TAG"]
  const OPTION_WORDS := ["FLAGS", "OPTS", "ARGS", "PARAMS", "NETWORK", "CONTAINER_NAME"]

  predicate MentionsOne(name: string, words: seq<string>) {
    exists k :: 0 <= k < |words| && Mentions(name, words[k])
  }

  predicate ImageVariable(name: string) {
    MentionsOne(name, IMAGE_WORDS)
  }

  predicate OptionVariable(name: string) {
    MentionsOne(name, OPTION_WORDS)
  }

  /** `${NAME:+…}` or `${NAME:-…}` standing for options. */
  predicate OptionExpansion(token: string) {
    |token| >= 3 && token[0] == '$' && token[1] == '{' && token[|token| - 1] == '}' &&
    (var inner := token[2..|token| - 1];
     var name, behind := Head(inner, ':'), Tail(inner, ':');
     ':' in inner && Identifier(name) && behind != "" && (behind[0] == '+' || behind[0] == '-') &&
     !ImageVariable(name) &&
     (Strip(behind[1..]) == "" || Strip(behind[1..])[0] == '-' || OptionVariable(name)))
  }

  /** `NAME=value` on one line. */
  predicate Assignment(token: string) {
    '=' in token && Identifier(Head(token, '=')) && '\n' !in Tail(token, '=')
  }

  predicate LocalPath(token: string) {
    StartsWith(token, "/") || StartsWith(token, "./") || StartsWith(token, "../") || StartsWith(token, ".\\")
    || StartsWith(token, "..\\")
  }

  predicate EndsInPunctuation(token: string) {
    token != "" && var c := token[|token| - 1]; c == '.' || c == ',' || c == ':' || c == ';' || c == '!' || c == '?'
  }

  predicate Digits(s: string) {
    s != "" && forall c :: c in s ==> IsDigit(c)
  }

  predicate PortRange(s: string) {
    Digits(s) || ('-' in s && Digits(Head(s, '-')) && Digits(Tail(s, '-')))
  }

  /** `8080:80/tcp` and the like. */
  predicate PortMapping(token: string) {
    ':' in token && PortRange(Head(token, ':')) &&
    (var right := Tail(token, ':');
     PortRange(Head(right, '/')) &&
     ('/' in right ==> Tail(right, '/') != "" && forall c :: c in Tail(right, '/') ==> 'a' <= c <= 'z'))
  }

  predicate ImageLike(token: string, lex: Lexicon) {
    && token != "" && token !in lex.separators && token[0] != '-'
    && !EndsInPunctuation(token) && !LocalPath(token)
    && match PureVariableName(token)
       case Some(name) => ImageVariable(name)
       case None => !Assignment(token) && token[0] != '/' && !PortMapping(token) && ('/' in token || ':' in token)
  }

  predicate BareName(token: string) {
    token != "" && ('a' <= token[0] <= 'z' || IsDigit(token[0])) &&
    forall c :: c in token ==> 'a' <= c <= 'z' || IsDigit(c) || c == '_' || c == '.' || c == '-'
  }

  predicate RunImage(token: string, lex: Lexicon) {
    !EndsInPunctuation(token) &&
    match PureVariableName(token)
    case Some(name) => ImageVariable(name)
    case None => '$' in token || ImageLike(token, lex) || BareName(token)
  }

  /** A closing backtick with a tag behind it ends the candidate. */
  function Candidate(token: string): string {
    Unquoted(BeforeTick(token))
  }

  function BeforeTick(token: string): string {
    var i := Find(token, "`:", 0);
    if i >= 0 then token[..i] else token
  }

  // ---- options -----------------------------------------------------------------------------

  predicate ShortBoolCluster(token: string) {
    |token| > 1 && token[0] == '-' && forall c :: c in token[1..] ==> c == 'd' || c == 'i' || c == 't'
  }

  /** How many tokens an option takes; none if the cleaned token is no option. */
  function OptionWidth(token: string, lex: Lexicon): (n: nat)
    ensures n <= 2
  {
    if token in lex.separators then 0
    else if token == "--" || token in lex.boolFlags || ShortBoolCluster(token) then 1
    else if StartsWith(token, "--") then
      (if Head(token, '=') in lex.valueFlags && '=' !in token then 2 else 1)
    else if |token| > 1 && token[0] == '-' then (if |token| == 2 && ShortValueFlag(token[1]) then 2 else 1)
    else 0
  }

  /** Strictly behind an option, never behind the end, and right here when there is none. */
  function SkipOption(tokens: seq<string>, index: nat, lex: Lexicon): (next: nat)
    requires index < |tokens|
    ensures index <= next <= |tokens| && (next == index <==> OptionWidth(Clean(tokens[index]), lex) == 0)
  {
    var n := index + OptionWidth(Clean(tokens[index]), lex);
    if n <= |tokens| then n else |tokens|
  }

  // ---- the search --------------------------------------------------------------------------

  /** What the look-ahead does at one token. */
  datatype Look = Blocked | Onward(next: nat) | Ahead

  function Looked(token: string, i: nat, next: nat, expands: bool, image: bool, lex: Lexicon): Look {
    if token in lex.separators then Blocked
    else if expands then Onward(i + 1)
    else if next != i then Onward(next)
    else if image then Ahead
    else Onward(i + 1)
  }

  function LookAt(tokens: seq<string>, i: nat, lex: Lexicon): Look
    requires i < |tokens|
  {
    var token := Clean(tokens[i]);
    Looked(token, i, SkipOption(tokens, i, lex), OptionExpansion(token), ImageLike(token, lex), lex)
  }

  function Looks(tokens: seq<string>, lex: Lexicon): nat -> Look {
    (i: nat) => if i < |tokens| then LookAt(tokens, i, lex) else Blocked
  }

  ghost predicate GoesOn(n: nat, look: nat -> Look) {
    forall i: nat :: i < n && look(i).Onward? ==> i < look(i).next <= n
  }

  /** An image is met before a separator. */
  predicate MetFrom(n: nat, i: nat, look: nat -> Look)
    requires GoesOn(n, look)
    decreases n - i
  {
    i < n && match look(i)
             case Blocked => false
             case Onward(next) => MetFrom(n, next, look)
             case Ahead => true
  }

  lemma LookedGoesOn(token: string, n: nat, i: nat, next: nat, expands: bool, image: bool, lex: Lexicon)
    requires i <= next <= n && i < n
    ensures var l := Looked(token, i, next, expands, image, lex); l.Onward? ==> i < l.next <= n
  {
  }

  lemma LookGoesOn(tokens: seq<string>, i: nat, lex: Lexicon)
    requires i < |tokens|
    ensures var l := LookAt(tokens, i, lex); l.Onward? ==> i < l.next <= |tokens|
  {
    var token := Clean(tokens[i]);
    LookedGoesOn(token, |tokens|, i, SkipOption(tokens, i, lex), OptionExpansion(token), ImageLike(token, lex), lex);
  }

  lemma LooksGoOn(tokens: seq<string>, lex: Lexicon)
    ensures GoesOn(|tokens|, Looks(tokens, lex))
  {
    forall i: nat | i < |tokens| && Looks(tokens, lex)(i).Onward?
      ensures i < Looks(tokens, lex)(i).next <= |tokens|
    {
      LookGoesOn(tokens, i, lex);
    }
  }

  predicate LaterImage(tokens: seq<string>, start: nat, lex: Lexicon) {
    LooksGoOn(tokens, lex);
    MetFrom(|tokens|, start, Looks(tokens, lex))
  }

  predicate VariableBundle(token: string, tokens: seq<string>, index: nat, lex: Lexicon) {
    var name := PureVariableName(token);
    name.Some? && !ImageVariable(name.value) && (OptionVariable(name.value) || LaterImage(tokens, index + 1, lex))
  }

  /** What the search does at one token. `Variable` is a variable that may yet be the image. */
  datatype Step = Stop | Skip(next: nat) | Path | Variable(name: string) | Image(name: string)

  function NamedStep(candidate: string, i: nat, pull: bool, lex: Lexicon): Step {
    if !pull && LocalPath(candidate) then Path
    else if !pull && PureVariableName(candidate).Some? && !ImageVariable(PureVariableName(candidate).value)
    then Variable(candidate)
    else if RunImage(candidate, lex) then Image(candidate)
    else Skip(i + 1)
  }

  /** Tokens passed over although they are no options. */
  predicate PassedOver(token: string, tokens: seq<string>, i: nat, pull: bool, lex: Lexicon) {
    OptionExpansion(token) || (!pull && VariableBundle(token, tokens, i, lex)) || Assignment(token)
    || StartsWith(token, "-")
  }

  /** Separators end the search, empty and invalid tokens and options are skipped, and what is not
      passed over is judged as a candidate. */
  function Judged(token: string, i: nat, next: nat, passed: bool, candidate: Step, lex: Lexicon): Step {
    if token in lex.separators then Stop
    else if token == "" || token in lex.invalid then Skip(i + 1)
    else if next != i then Skip(next)
    else if passed then Skip(i + 1)
    else candidate
  }

  function StepAt(tokens: seq<string>, i: nat, pull: bool, lex: Lexicon): Step
    requires i < |tokens|
  {
    var token := Clean(tokens[i]);
    Judged(token, i, SkipOption(tokens, i, lex), PassedOver(token, tokens, i, pull, lex),
           NamedStep(Candidate(token), i, pull, lex), lex)
  }

  /** The steps only go forward, and not behind the end. */
  ghost predicate Advances(n: nat, step: nat -> Step) {
    forall i: nat :: i < n && step(i).Skip? ==> i < step(i).next <= n
  }

  /** What the search over `n` tokens returns when it stands at token `i`. */
  ghost function Found(n: nat, i: nat, fallback: Option<string>, step: nat -> Step): Option<string>
    requires Advances(n, step)
    decreases n - i
  {
    if i >= n then fallback
    else match step(i)
      case Stop => None
      case Skip(next) => Found(n, next, fallback, step)
      case Path => fallback
      case Variable(name) => Found(n, i + 1, if fallback.Some? then fallback else Some(name), step)
      case Image(name) => Some(name)
  }

  function Steps(tokens: seq<string>, pull: bool, lex: Lexicon): nat -> Step {
    (i: nat) => if i < |tokens| then StepAt(tokens, i, pull, lex) else Stop
  }

  lemma NamedStaysNear(candidate: string, i: nat, pull: bool, lex: Lexicon)
    ensures var s := NamedStep(candidate, i, pull, lex); s.Skip? ==> s.next == i + 1
  {
  }

  lemma JudgedAdvances(token: string, n: nat, i: nat, next: nat, passed: bool, candidate: Step, lex: Lexicon)
    requires i <= next <= n && i < n && (candidate.Skip? ==> candidate.next == i + 1)
    ensures var s := Judged(token, i, next, passed, candidate, lex); s.Skip? ==> i < s.next <= n
  {
  }

  lemma StepAdvances(tokens: seq<string>, i: nat, pull: bool, lex: Lexicon)
    requires i < |tokens|
    ensures var s := StepAt(tokens, i, pull, lex); s.Skip? ==> i < s.next <= |tokens|
  {
    var token := Clean(tokens[i]);
    NamedStaysNear(Candidate(token), i, pull, lex);
    JudgedAdvances(token, |tokens|, i, SkipOption(tokens, i, lex), PassedOver(token, tokens, i, pull, lex),
                   NamedStep(Candidate(token), i, pull, lex), lex);
  }

  /** Every step on every list of tokens goes strictly forward and not behind the end. */
  lemma StepsAdvance(tokens: seq<string>, pull: bool, lex: Lexicon)
    ensures Advances(|tokens|, Steps(tokens, pull, lex))
  {
    forall i: nat | i < |tokens| && Steps(tokens, pull, lex)(i).Skip?
      ensures i < Steps(tokens, pull, lex)(i).next <= |tokens|
    {
      StepAdvances(tokens, i, pull, lex);
    }
  }

  ghost function ImageIn(tokens: seq<string>, pull: bool, lex: Lexicon): Option<string> {
    StepsAdvance(tokens, pull, lex);
    Found(|tokens|, 0, None, Steps(tokens, pull, lex))
  }

  /** The look-ahead loop. Every round strictly advances. */
  method LookAhead(n: nat, start: nat, look: nat -> Look) returns (r: bool)
    requires GoesOn(n, look)
    ensures r == MetFrom(n, start, look)
  {
    var i := start;
    while i < n
      invariant MetFrom(n, i, look) == MetFrom(n, start, look)
      decreases n - i
    {
      match look(i) {
        case Blocked => return false;
        case Onward(next) => i := next;
        case Ahead => return true;
      }
    }
    r := false;
  }

  method HasLaterImage(tokens: seq<string>, start: nat, lex: Lexicon) returns (r: bool)
    ensures r == LaterImage(tokens, start, lex)
  {
    LooksGoOn(tokens, lex);
    r := LookAhead(|tokens|, start, Looks(tokens, lex));
  }

  /** The loop of both extractors. Every round strictly advances. */
  method Search(n: nat, step: nat -> Step) returns (image: Option<string>)
    requires Advances(n, step)
    ensures image == Found(n, 0, None, step)
  {
    var fallback: Option<string> := None;
    var i: nat := 0;
    while i < n
      invariant i <= n
      invariant Found(n, i, fallback, step) == Found(n, 0, None, step)
      decreases n - i
    {
      match step(i) {
        case Stop => return None;
        case Skip(next) => i := next;
        case Path => return fallback;
        case Variable(name) =>
          fallback := if fallback.Some? then fallback else Some(name);
          i := i + 1;
        case Image(name) => return Some(name);
      }
    }
    image := fallback;
  }

  /** The extractor of `docker run` and, with `pull`, of `docker pull`. */
  method ExtractImage(args: string, pull: bool, lex: Lexicon) returns (image: Option<string>)
    ensures image == ImageIn(Words(args), pull, lex)
  {
    var tokens := SplitWords(args);
    StepsAdvance(tokens, pull, lex);
    image := Search(|tokens|, Steps(tokens, pull, lex));
  }

  // ---- printed commands ----------------------------------------------------------------------

  /** A word that cleaning leaves as it is. */
  predicate CleanWord(word: string) {
    word != "" && Trimmed(word) && TrimmedOf(word, IsTokenQuote)
  }

  /** What the tables promise: options start with a dash and are clean, nothing else does, no flag
      that takes a value is also one that takes none, and no separator reads like an image, a variable or
      an assignment. */
  ghost predicate Sane(lex: Lexicon) {
    && (forall w :: w in lex.separators || w in lex.invalid ==> 
          w != "" && w[0] != '-' && !PlainReference(w) && PureVariableName(w) == None && !Assignment(w))
    && (forall w :: w in lex.boolFlags ==> CleanWord(w) && w[0] == '-' && w != "-" && '=' !in w)
    && (forall w :: w in lex.valueFlags ==>
          CleanWord(w) && |w| > 2 && w[0] == '-' && w[1] == '-' && '=' !in w && w !in lex.boolFlags)
  }

  /** An option as a user writes it: a flag, a flag with its value behind it, or both in one word. */
  datatype Opt = Flag(word: string) | Valued(word: string, value: string) | Inline(word: string)

  predicate GoodOpt(o: Opt, lex: Lexicon) {
    match o
    case Flag(w) => w in lex.boolFlags
    case Valued(w, _) => w in lex.valueFlags || (|w| == 2 && w[0] == '-' && ShortValueFlag(w[1]) && w !in lex.boolFlags)
    case Inline(w) => |w| > 1 && w[0] == '-' && w[1] == '-' && '=' in w && Trimmed(w)
  }

  function WordsOf(o: Opt): seq<string> {
    match o case Flag(w) => [w] case Valued(w, v) => [w, v] case Inline(w) => [w]
  }

  function OptWords(opts: seq<Opt>): seq<string> {
    if opts == [] then [] else WordsOf(opts[0]) + OptWords(opts[1..])
  }

  predicate ReferenceChar(c: char) {
    IsLetter(c) || IsDigit(c) || c == '.' || c == '-' || c == '/' || c == ':' || c == '@'
  }

  /** A literal image reference: `registry/repository:tag@digest`, or a bare lower-case name. */
  predicate PlainReference(image: string) {
    && image != "" && (forall c :: c in image ==> ReferenceChar(c))
    && (IsLetter(image[0]) || IsDigit(image[0])) && image[|image| - 1] != '.' && image[|image| - 1] != ':'
    && ('/' in image || ':' in image || BareName(image))
  }

  lemma CleanOfClean(word: string)
    requires CleanWord(word)
    ensures Clean(word) == word
  {
    StripTrimmed(word, IsSpace);
    StripTrimmed(word, IsTokenQuote);
  }

  lemma {:induction false} RStripKeeps(s: string, drop: char -> bool, k: nat)
    requires k < |s| && !drop(s[k])
    ensures k < |RStripped(s, drop)| && RStripped(s, drop)[k] == s[k]
    decreases |s|
  {
    if drop(s[|s| - 1]) {
      RStripKeeps(s[..|s| - 1], drop, k);
    }
  }

  /** Stripping keeps what stands between two kept characters. */
  lemma StrippingKeeps(s: string, drop: char -> bool, k: nat)
    requires 1 < |s| && !drop(s[0]) && !drop(s[1]) && k < |s| && !drop(s[k])
    ensures var r := StrippedOf(s, drop); 1 < |r| && k < |r| && r[0] == s[0] && r[1] == s[1] && r[k] == s[k]
  {
    assert LStripped(s, drop) == s;
    RStripKeeps(s, drop, k);
    RStripKeeps(s, drop, 0);
    RStripKeeps(s, drop, 1);
  }

  lemma CleanOfTrimmed(word: string)
    requires Trimmed(word)
    ensures Clean(word) == StrippedOf(word, IsTokenQuote)
  {
    StripTrimmed(word, IsSpace);
  }

  /** An inline option keeps its dashes and its equals sign when it is cleaned. */
  lemma CleanOfInline(word: string, k: nat)
    requires 1 < |word| && word[0] == '-' && word[1] == '-' && k < |word| && word[k] == '=' && Trimmed(word)
    ensures var c := Clean(word); 1 < |c| && c[0] == '-' && c[1] == '-' && k < |c| && c[k] == '='
  {
    CleanOfTrimmed(word);
    StrippingKeeps(word, IsTokenQuote, k);
  }

  // ---- what an option takes ------------------------------------------------------------------

  lemma WidthOfFlag(w: string, lex: Lexicon)
    requires Sane(lex) && GoodOpt(Flag(w), lex)
    ensures OptionWidth(Clean(w), lex) == 1
  {
    CleanOfClean(w);
  }

  lemma WidthOfLong(w: string, lex: Lexicon)
    requires Sane(lex) && w in lex.valueFlags
    ensures OptionWidth(w, lex) == 2
  {
    Cut(w, '=');
    assert w[0] == '-' && w[1] == '-' && w[1] in w[1..];
  }

  lemma WidthOfShort(w: string, lex: Lexicon)
    requires Sane(lex) && |w| == 2 && w[0] == '-' && ShortValueFlag(w[1]) && w !in lex.boolFlags
    ensures OptionWidth(w, lex) == 2 && CleanWord(w)
  {
    assert w[1] in w[1..];
    assert w[1] != '-';
  }

  lemma WidthOfValued(w: string, lex: Lexicon)
    requires Sane(lex) && GoodOpt(Valued(w, ""), lex)
    ensures OptionWidth(Clean(w), lex) == 2
  {
    if w in lex.valueFlags {
      WidthOfLong(w, lex);
    } else {
      WidthOfShort(w, lex);
    }
    CleanOfClean(w);
  }

  lemma WidthWithValue(c: string, lex: Lexicon)
    requires Sane(lex) && |c| > 1 && c[0] == '-' && c[1] == '-' && '=' in c
    ensures OptionWidth(c, lex) == 1
  {
    assert c !in lex.separators;
  }

  lemma WidthOfInline(w: string, lex: Lexicon)
    requires Sane(lex) && GoodOpt(Inline(w), lex)
    ensures OptionWidth(Clean(w), lex) == 1
  {
    var k :| 0 <= k < |w| && w[k] == '=';
    CleanOfInline(w, k);
    assert Clean(w)[k] in Clean(w);
    WidthWithValue(Clean(w), lex);
  }

  lemma WidthOfOpt(o: Opt, lex: Lexicon)
    requires Sane(lex) && GoodOpt(o, lex)
    ensures OptionWidth(Clean(o.word), lex) == |WordsOf(o)|
  {
    match o
    case Flag(w) => WidthOfFlag(w, lex);
    case Valued(w, _) => WidthOfValued(w, lex);
    case Inline(w) => WidthOfInline(w, lex);
  }

  /** What is an option starts with a dash once cleaned, so neither a separator nor an invalid token hides it. */
  lemma OptionsAreDashed(token: string, lex: Lexicon)
    requires Sane(lex) && OptionWidth(token, lex) > 0
    ensures token != "" && token[0] == '-' && token !in lex.separators && token !in lex.invalid
  {
  }

  lemma StepOverOption(tokens: seq<string>, i: nat, pull: bool, lex: Lexicon)
    requires Sane(lex) && i < |tokens|
    ensures OptionWidth(Clean(tokens[i]), lex) > 0 ==> StepAt(tokens, i, pull, lex) == Skip(SkipOption(tokens, i, lex))
  {
    if OptionWidth(Clean(tokens[i]), lex) > 0 {
      OptionsAreDashed(Clean(tokens[i]), lex);
    }
  }

  // ---- what the image is taken for -----------------------------------------------------------

  lemma PlainIsUnquoted(image: string)
    requires PlainReference(image)
    ensures Unquoted(image) == image
  {
    assert image[0] in image && image[|image| - 1] in image;
    StripTrimmed(image, IsTokenQuote);
  }

  lemma PlainIsClean(image: string)
    requires PlainReference(image)
    ensures Clean(image) == image
  {
    assert image[0] in image && image[|image| - 1] in image;
    assert !IsSpace(image[0]) && !IsSpace(image[|image| - 1]);
    CleanOfClean(image);
  }

  lemma OccursHead(s: string, t: string, i: nat)
    requires t != "" && OccursAt(s, t, i)
    ensures t[0] in s
  {
    assert s[i] == s[i..i + |t|][0];
  }

  lemma NoBacktick(image: string)
    requires PlainReference(image)
    ensures BeforeTick(image) == image
  {
    var i := Find(image, "`:", 0);
    if i >= 0 {
      OccursHead(image, "`:", i);
    }
  }

  lemma CandidateAsIs(token: string)
    requires BeforeTick(token) == token && Unquoted(token) == token
    ensures Candidate(token) == token
  {
  }

  lemma PlainCandidate(image: string)
    requires PlainReference(image)
    ensures Candidate(image) == image
  {
    NoBacktick(image);
    PlainIsUnquoted(image);
    CandidateAsIs(image);
  }

  lemma PlainIsInNoTable(image: string, lex: Lexicon)
    requires PlainReference(image) && Sane(lex)
    ensures image != "" && image[0] != '-' && '$' !in image && '=' !in image
    ensures image !in lex.separators && image !in lex.invalid && image !in lex.boolFlags
  {
    assert image[0] in image;
  }

  lemma PlainIsNoVariable(image: string)
    requires PlainReference(image)
    ensures PureVariableName(image) == None && !OptionExpansion(image)
  {
    assert image[0] != '$';
  }

  lemma PlainIsNoPath(image: string)
    requires PlainReference(image)
    ensures !LocalPath(image) && !Assignment(image)
  {
    assert image[0] != '/' && image[0] != '.';
    assert '=' !in image;
  }

  /** A plain reference is an image to the search unless it reads like a port mapping. */
  lemma PlainIsImageIff(image: string, lex: Lexicon)
    requires PlainReference(image) && Sane(lex)
    ensures RunImage(image, lex) <==> !PortMapping(image)
  {
    PlainIsInNoTable(image, lex);
    PlainIsNoVariable(image);
    PlainIsNoPath(image);
    assert image[|image| - 1] in image;
    if PortMapping(image) {
      assert ':' in image && !BareName(image);
    }
  }

  /** A token that is no separator, option, variable or assignment is judged as a candidate. */
  lemma StepByName(tokens: seq<string>, i: nat, pull: bool, lex: Lexicon)
    requires i < |tokens|
    requires var token := Clean(tokens[i]);
      token != "" && token[0] != '-' && token !in lex.separators && token !in lex.invalid &&
      OptionWidth(token, lex) == 0 && PureVariableName(token) == None && !OptionExpansion(token) && !Assignment(token)
    ensures StepAt(tokens, i, pull, lex) == NamedStep(Candidate(Clean(tokens[i])), i, pull, lex)
  {
  }

  lemma PlainIsNoOption(image: string, lex: Lexicon)
    requires image != "" && image[0] != '-' && image !in lex.boolFlags
    ensures OptionWidth(image, lex) == 0
  {
  }

  lemma NamedByImage(image: string, i: nat, pull: bool, lex: Lexicon)
    requires PureVariableName(image) == None && !LocalPath(image)
    ensures NamedStep(image, i, pull, lex) == if RunImage(image, lex) then Image(image) else Skip(i + 1)
  {
  }

  lemma StepAtImage(tokens: seq<string>, i: nat, pull: bool, lex: Lexicon)
    requires i < |tokens| && PlainReference(tokens[i]) && Sane(lex)
    ensures StepAt(tokens, i, pull, lex) == if PortMapping(tokens[i]) then Skip(i + 1) else Image(tokens[i])
  {
    var image := tokens[i];
    PlainIsClean(image);
    PlainCandidate(image);
    PlainIsInNoTable(image, lex);
    PlainIsNoVariable(image);
    PlainIsNoPath(image);
    PlainIsNoOption(image, lex);
    StepByName(tokens, i, pull, lex);
    NamedByImage(image, i, pull, lex);
    PlainIsImageIff(image, lex);
  }

  // ---- whole commands --------------------------------------------------------------------------

  lemma OptIsSkipped(tokens: seq<string>, i: nat, o: Opt, pull: bool, lex: Lexicon)
    requires Sane(lex) && GoodOpt(o, lex)
    requires i + |WordsOf(o)| <= |tokens| && tokens[i] == o.word
    ensures Steps(tokens, pull, lex)(i) == Skip(i + |WordsOf(o)|)
  {
    WidthOfOpt(o, lex);
    StepOverOption(tokens, i, pull, lex);
  }

  /** Wherever one of the options stands, the search steps over it and its value. */
  ghost predicate StepsOver(tokens: seq<string>, opts: seq<Opt>, step: nat -> Step) {
    forall i: nat, o :: o in opts && i + |WordsOf(o)| <= |tokens| && tokens[i] == o.word
                        ==> step(i) == Skip(i + |WordsOf(o)|)
  }

  lemma SliceOn(tokens: seq<string>, i: nat, first: seq<string>, more: seq<string>, rest: seq<string>)
    requires i <= |tokens| && tokens[i..] == (first + more) + rest && first != []
    ensures i + |first| <= |tokens| && tokens[i] == first[0] && tokens[i + |first|..] == more + rest
  {
    assert tokens[i..][0] == first[0];
    assert tokens[i + |first|..] == tokens[i..][|first|..];
  }

  lemma {:induction false} OptionsAreSkipped(
      tokens: seq<string>, i: nat, opts: seq<Opt>, rest: seq<string>, step: nat -> Step)
    requires i <= |tokens| && tokens[i..] == OptWords(opts) + rest
    requires Advances(|tokens|, step) && StepsOver(tokens, opts, step)
    ensures |rest| <= |tokens|
    ensures Found(|tokens|, i, None, step) == Found(|tokens|, |tokens| - |rest|, None, step)
    decreases |opts|
  {
    if opts == [] {
      assert |tokens[i..]| == |rest|;
    } else {
      var next := i + |WordsOf(opts[0])|;
      SliceOn(tokens, i, WordsOf(opts[0]), OptWords(opts[1..]), rest);
      assert step(i) == Skip(next) by {
        assert opts[0] in opts && tokens[i] == opts[0].word;
      }
      assert StepsOver(tokens, opts[1..], step);
      OptionsAreSkipped(tokens, next, opts[1..], rest, step);
    }
  }

  lemma OptionsAreSteppedOver(tokens: seq<string>, opts: seq<Opt>, pull: bool, lex: Lexicon)
    requires Sane(lex) && forall o :: o in opts ==> GoodOpt(o, lex)
    ensures StepsOver(tokens, opts, Steps(tokens, pull, lex))
  {
    forall i: nat, o | o in opts && i + |WordsOf(o)| <= |tokens| && tokens[i] == o.word
      ensures Steps(tokens, pull, lex)(i) == Skip(i + |WordsOf(o)|)
    {
      OptIsSkipped(tokens, i, o, pull, lex);
    }
  }

  lemma NamedSteps(candidate: string, i: nat, pull: bool, lex: Lexicon)
    ensures var s := NamedStep(candidate, i, pull, lex);
      (s.Image? ==> RunImage(s.name, lex)) && (s.Variable? ==> PureVariableName(s.name).Some?)
  {
  }

  lemma StepIsNamed(tokens: seq<string>, i: nat, pull: bool, lex: Lexicon)
    requires i < |tokens|
    ensures var s := StepAt(tokens, i, pull, lex);
      s.Stop? || s.Skip? || s == NamedStep(Candidate(Clean(tokens[i])), i, pull, lex)
  {
  }

  lemma OnlyImagesAreReturned(tokens: seq<string>, i: nat, pull: bool, lex: Lexicon)
    requires i < |tokens|
    ensures var s := StepAt(tokens, i, pull, lex);
      (s.Image? ==> RunImage(s.name, lex)) && (s.Variable? ==> PureVariableName(s.name).Some?)
  {
    StepIsNamed(tokens, i, pull, lex);
    NamedSteps(Candidate(Clean(tokens[i])), i, pull, lex);
  }

  lemma {:induction false} NotNamedNotFound(
      n: nat, i: nat, fallback: Option<string>, step: nat -> Step, name: string)
    requires Advances(n, step) && fallback != Some(name)
    requires forall k: nat :: k < n ==> step(k) != Image(name) && step(k) != Variable(name)
    ensures Found(n, i, fallback, step) != Some(name)
    decreases n - i
  {
    if i < n {
      match step(i) {
        case Skip(next) => NotNamedNotFound(n, next, fallback, step, name);
        case Variable(v) =>
          NotNamedNotFound(n, i + 1, if fallback.Some? then fallback else Some(v), step, name);
        case _ =>
      }
    }
  }

  lemma PortsAreNeverReturned(tokens: seq<string>, image: string, pull: bool, lex: Lexicon)
    requires PlainReference(image) && PortMapping(image) && Sane(lex)
    ensures ImageIn(tokens, pull, lex) != Some(image)
  {
    var step := Steps(tokens, pull, lex);
    StepsAdvance(tokens, pull, lex);
    PlainIsImageIff(image, lex);
    PlainIsNoVariable(image);
    forall k: nat | k < |tokens|
      ensures step(k) != Image(image) && step(k) != Variable(image)
    {
      OnlyImagesAreReturned(tokens, k, pull, lex);
    }
    NotNamedNotFound(|tokens|, 0, None, step, image);
  }

  /** A command's words. */
  function CommandWords(opts: seq<Opt>, image: string, trailing: seq<string>): seq<string> {
    OptWords(opts) + ([image] + trailing)
  }

  /** If the search steps over the options and takes what is behind them, that is what it finds. */
  lemma FoundBehind(opts: seq<Opt>, image: string, trailing: seq<string>, step: nat -> Step)
    requires var tokens := CommandWords(opts, image, trailing);
      Advances(|tokens|, step) && StepsOver(tokens, opts, step)
    requires step(|OptWords(opts)|) == Image(image)
    ensures Found(|CommandWords(opts, image, trailing)|, 0, None, step) == Some(image)
  {
    var tokens, rest := CommandWords(opts, image, trailing), [image] + trailing;
    assert tokens[0..] == tokens;
    OptionsAreSkipped(tokens, 0, opts, rest, step);
    assert |tokens| - |rest| == |OptWords(opts)|;
  }

  lemma ImageTaken(tokens: seq<string>, at: nat, image: string, pull: bool, lex: Lexicon)
    requires at < |tokens| && tokens[at] == image && PlainReference(image) && !PortMapping(image) && Sane(lex)
    ensures Steps(tokens, pull, lex)(at) == Image(image)
  {
    StepAtImage(tokens, at, pull, lex);
  }

  lemma PlainIsFound(opts: seq<Opt>, image: string, trailing: seq<string>, pull: bool, lex: Lexicon)
    requires Sane(lex) && (forall o :: o in opts ==> GoodOpt(o, lex)) && PlainReference(image) && !PortMapping(image)
    ensures ImageIn(CommandWords(opts, image, trailing), pull, lex) == Some(image)
  {
    var tokens := CommandWords(opts, image, trailing);
    StepsAdvance(tokens, pull, lex);
    OptionsAreSteppedOver(tokens, opts, pull, lex);
    ImageTaken(tokens, |OptWords(opts)|, image, pull, lex);
    FoundBehind(opts, image, trailing, Steps(tokens, pull, lex));
  }

  /** Behind any known options, with any values and whatever follows, a plain reference is the
      image found, unless it reads like a port mapping, which is never found. */
  lemma ImageFoundIff(opts: seq<Opt>, image: string, trailing: seq<string>, pull: bool, lex: Lexicon)
    requires Sane(lex) && (forall o :: o in opts ==> GoodOpt(o, lex)) && PlainReference(image)
    ensures ImageIn(CommandWords(opts, image, trailing), pull, lex) == Some(image) <==> !PortMapping(image)
  {
    if PortMapping(image) {
      PortsAreNeverReturned(CommandWords(opts, image, trailing), image, pull, lex);
    } else {
      PlainIsFound(opts, image, trailing, pull, lex);
    }
  }

  /** The same from the text: a command line of single-quoted, non-blank, trimmed words. */
  lemma PrintedImageFoundIff(opts: seq<Opt>, image: string, trailing: seq<string>, pull: bool, lex: Lexicon)
    requires Sane(lex) && (forall o :: o in opts ==> GoodOpt(o, lex)) && PlainReference(image)
    requires var words := CommandWords(opts, image, trailing);
      AllSolid(words) && forall w :: w in words ==> '\'' !in w
    ensures ImageIn(Words(Printed(CommandWords(opts, image, trailing))), pull, lex) == Some(image)
        <==> !PortMapping(image)
  {
    PrintedWordsSurviveIff(CommandWords(opts, image, trailing));
    ImageFoundIff(opts, image, trailing, pull, lex);
  }

  /** A search over options alone finds nothing. */
  lemma OnlyOptions(tokens: seq<string>, opts: seq<Opt>, step: nat -> Step)
    requires tokens == OptWords(opts) && Advances(|tokens|, step) && StepsOver(tokens, opts, step)
    ensures Found(|tokens|, 0, None, step) == None
  {
    assert tokens[0..] == OptWords(opts) + [];
    OptionsAreSkipped(tokens, 0, opts, [], step);
  }

  lemma LastValueEndsSearch(option: string, image: string, pull: bool, lex: Lexicon)
    requires Sane(lex) && GoodOpt(Valued(option, image), lex)
    ensures ImageIn([option, image], pull, lex) == None
  {
    var tokens, opts := [option, image], [Valued(option, image)];
    assert opts[1..] == [] && OptWords(opts) == WordsOf(opts[0]) + [] == tokens;
    StepsAdvance(tokens, pull, lex);
    OptionsAreSteppedOver(tokens, opts, pull, lex);
    OnlyOptions(tokens, opts, Steps(tokens, pull, lex));
  }

  lemma OptionIsSolid(option: string, value: string, lex: Lexicon)
    requires Sane(lex) && GoodOpt(Valued(option, value), lex)
    ensures Solid(option)
  {
    if option !in lex.valueFlags {
      WidthOfShort(option, lex);
    }
  }

  /** Blank values are where it breaks: the splitter drops them, and the option then takes the
      image for its value. */
  lemma BlankValueTakesImage(option: string, value: string, image: string, pull: bool, lex: Lexicon)
    requires Sane(lex) && GoodOpt(Valued(option, value), lex) && Strip(value) == "" && Solid(image)
    requires '\'' !in option && '\'' !in value && '\'' !in image
    ensures ImageIn(Words(Printed([option, value, image])), pull, lex) == None
  {
    OptionIsSolid(option, value, lex);
    BlankIsDropped(option, value, image);
    LastValueEndsSearch(option, image, pull, lex);
  }
}
