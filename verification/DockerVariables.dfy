/** What the image search makes of words that are no literals: variables, assignments, separators, paths. */
module DockerVariables {
  import opened Wrappers
  import opened Text
  import opened ShellWords
  import opened DockerCommand

  // ---- what a name says ------------------------------------------------------------------------

  /** The same letter, in upper case or in lower case. */
  predicate SameLetter(c: char, upper: char) {
    c == upper || ('A' <= upper <= 'Z' && c == upper - 'A' + 'a')
  }

  predicate UpperWord(w: string) {
    w != "" && forall c :: c in w ==> 'A' <= c <= 'Z' || c == '_'
  }

  /** The word stands somewhere in the name, in any case. */
  ghost predicate Contains(name: string, w: string) {
    exists i :: 0 <= i <= |name| - |w| && StandsAt(name, w, i)
  }

  ghost predicate StandsAt(name: string, w: string, i: int) {
    forall k :: 0 <= k < |w| ==> 0 <= i + k < |name| && SameLetter(name[i + k], w[k])
  }

  ghost predicate ContainsOne(name: string, words: seq<string>) {
    exists k :: 0 <= k < |words| && Contains(name, words[k])
  }

  lemma MentionsIffContains(name: string, w: string)
    requires UpperWord(w)
    ensures Mentions(name, w) <==> Contains(name, w)
  {
    var up := Upper(name);
    forall k | 0 <= k < |w| ensures 'A' <= w[k] <= 'Z' || w[k] == '_' {
      assert w[k] in w;
    }
    if Mentions(name, w) {
      var i: nat :| i <= |up| && OccursAt(up, w, i);
      forall k | 0 <= k < |w|
        ensures 0 <= i + k < |name| && SameLetter(name[i + k], w[k])
      {
        assert up[i..i + |w|][k] == up[i + k];
      }
      assert StandsAt(name, w, i);
    }
    if Contains(name, w) {
      var i :| 0 <= i <= |name| - |w| && StandsAt(name, w, i);
      forall k | 0 <= k < |w|
        ensures up[i..i + |w|][k] == w[k]
      {
        assert SameLetter(name[i + k], w[k]);
      }
      assert OccursAt(up, w, i);
    }
  }

  lemma MentionsOneIff(name: string, words: seq<string>)
    requires forall k :: 0 <= k < |words| ==> UpperWord(words[k])
    ensures MentionsOne(name, words) <==> ContainsOne(name, words)
  {
    forall k | 0 <= k < |words|
      ensures Mentions(name, words[k]) <==> Contains(name, words[k])
    {
      MentionsIffContains(name, words[k]);
    }
  }

  lemma OneOfSix(name: string, words: seq<string>)
    requires |words| == 6
    ensures ContainsOne(name, words) <==>
            Contains(name, words[0]) || Contains(name, words[1]) || Contains(name, words[2])
            || Contains(name, words[3]) || Contains(name, words[4]) || Contains(name, words[5])
  {
  }

  /** A variable is taken for an image exactly when its name contains an image word, in any case. */
  lemma ImageVariableIff(name: string)
    ensures ImageVariable(name) <==> ContainsOne(name, IMAGE_WORDS)
    ensures ContainsOne(name, IMAGE_WORDS) <==>
            Contains(name, "IMAGE") || Contains(name, "IMG") || Contains(name, "REGISTRY")
            || Contains(name, "REPOSITORY") || Contains(name, "REPO") || Contains(name, "TAG")
  {
    MentionsOneIff(name, IMAGE_WORDS);
    OneOfSix(name, IMAGE_WORDS);
  }

  lemma OptionVariableIff(name: string)
    ensures OptionVariable(name) <==> ContainsOne(name, OPTION_WORDS)
    ensures ContainsOne(name, OPTION_WORDS) <==>
            Contains(name, "FLAGS") || Contains(name, "OPTS") || Contains(name, "ARGS")
            || Contains(name, "PARAMS") || Contains(name, "NETWORK") || Contains(name, "CONTAINER_NAME")
  {
    MentionsOneIff(name, OPTION_WORDS);
    OneOfSix(name, OPTION_WORDS);
  }

  // ---- variables as words ----------------------------------------------------------------------

  datatype Form = Bare | Braces | Parens

  /** `$NAME`, `${NAME}` or `$(NAME)`. */
  function VarWord(form: Form, name: string): string {
    match form case Bare => "$" + name case Braces => "${" + name + "}" case Parens => "$(" + name + ")"
  }

  lemma VarIsRead(form: Form, name: string)
    requires Identifier(name)
    ensures var v := VarWord(form, name);
      PureVariableName(v) == Some(name) && |v| > 1 && v[0] == '$' &&
      (IsLetter(v[|v| - 1]) || IsDigit(v[|v| - 1]) || v[|v| - 1] == '}' || v[|v| - 1] == ')')
  {
    var v := VarWord(form, name);
    if form.Bare? {
      assert v[1..] == name && v[1] == name[0] && name[|name| - 1] in name;
    } else {
      assert v[2..|v| - 1] == name;
    }
  }

  lemma VarHasNo(form: Form, name: string, c: char)
    requires Identifier(name) && (c == ':' || c == '=' || c == '`')
    ensures c !in VarWord(form, name)
  {
    assert c !in name;
  }

  lemma VarIsClean(form: Form, name: string)
    requires Identifier(name)
    ensures var v := VarWord(form, name); Clean(v) == v && Candidate(v) == v
  {
    var v := VarWord(form, name);
    VarIsRead(form, name);
    VarHasNo(form, name, '`');
    assert !IsSpace('$') && !IsSpace(v[|v| - 1]);
    CleanOfClean(v);
    StripTrimmed(v, IsTokenQuote);
    var i := Find(v, "`:", 0);
    if i >= 0 {
      OccursHead(v, "`:", i);
    }
  }

  lemma VarIsNoExpansion(form: Form, name: string)
    requires Identifier(name)
    ensures var v := VarWord(form, name); !OptionExpansion(v) && !Assignment(v) && !LocalPath(v) && !EndsInPunctuation(v)
  {
    var v := VarWord(form, name);
    VarIsRead(form, name);
    VarHasNo(form, name, ':');
    VarHasNo(form, name, '=');
    if |v| >= 3 {
      assert forall c :: c in v[2..|v| - 1] ==> c in v;
    }
  }

  lemma VarIsInNoTable(form: Form, name: string, lex: Lexicon)
    requires Identifier(name) && Sane(lex)
    ensures var v := VarWord(form, name);
      v !in lex.separators && v !in lex.invalid && OptionWidth(v, lex) == 0 && !StartsWith(v, "-")
  {
    VarIsRead(form, name);
  }

  // ---- what becomes of them --------------------------------------------------------------------

  /** `v` reads as the variable `name` and as nothing else. */
  predicate Names(v: string, name: string, lex: Lexicon) {
    && v != "" && PureVariableName(v) == Some(name) && Clean(v) == v && Candidate(v) == v
    && !OptionExpansion(v) && !Assignment(v) && !LocalPath(v) && !EndsInPunctuation(v)
    && v !in lex.separators && v !in lex.invalid && OptionWidth(v, lex) == 0 && !StartsWith(v, "-")
  }

  lemma VarNames(form: Form, name: string, lex: Lexicon)
    requires Identifier(name) && Sane(lex)
    ensures Names(VarWord(form, name), name, lex)
  {
    VarIsRead(form, name);
    VarIsClean(form, name);
    VarIsNoExpansion(form, name);
    VarIsInNoTable(form, name, lex);
  }

  lemma NamesIsPassedIff(v: string, name: string, tokens: seq<string>, i: nat, pull: bool, lex: Lexicon)
    requires Names(v, name, lex)
    ensures PassedOver(v, tokens, i, pull, lex) <==>
            !pull && !ImageVariable(name) && (OptionVariable(name) || LaterImage(tokens, i + 1, lex))
  {
  }

  lemma NamesIsJudged(v: string, name: string, i: nat, pull: bool, lex: Lexicon)
    requires Names(v, name, lex)
    ensures NamedStep(v, i, pull, lex) ==
            if ImageVariable(name) then Image(v) else if pull then Skip(i + 1) else Variable(v)
  {
    assert RunImage(v, lex) <==> ImageVariable(name);
  }

  /** The image search passes a variable over when it is for options, or when an image is still to come;
      otherwise `run` keeps it in case nothing better is found, and `pull` never does. */
  lemma StepAtVar(tokens: seq<string>, i: nat, form: Form, name: string, pull: bool, lex: Lexicon)
    requires i < |tokens| && tokens[i] == VarWord(form, name) && Identifier(name) && Sane(lex)
    ensures StepAt(tokens, i, pull, lex) ==
            if ImageVariable(name) then Image(tokens[i])
            else if pull || OptionVariable(name) || LaterImage(tokens, i + 1, lex) then Skip(i + 1)
            else Variable(tokens[i])
  {
    VarNames(form, name, lex);
    StepAtNames(tokens, i, tokens[i], name, pull, lex);
  }

  lemma StepAtNames(tokens: seq<string>, i: nat, v: string, name: string, pull: bool, lex: Lexicon)
    requires i < |tokens| && tokens[i] == v && Names(v, name, lex)
    ensures StepAt(tokens, i, pull, lex) ==
            if ImageVariable(name) then Image(v)
            else if pull || OptionVariable(name) || LaterImage(tokens, i + 1, lex) then Skip(i + 1)
            else Variable(v)
  {
    NamesIsPassedIff(v, name, tokens, i, pull, lex);
    NamesIsJudged(v, name, i, pull, lex);
  }

  lemma LookAtVar(tokens: seq<string>, i: nat, form: Form, name: string, lex: Lexicon)
    requires i < |tokens| && tokens[i] == VarWord(form, name) && Identifier(name) && !ImageVariable(name) && Sane(lex)
    ensures LookAt(tokens, i, lex) == Onward(i + 1)
  {
    VarNames(form, name, lex);
    LookAtNames(tokens, i, tokens[i], name, lex);
  }

  lemma LookAtNames(tokens: seq<string>, i: nat, v: string, name: string, lex: Lexicon)
    requires i < |tokens| && tokens[i] == v && Names(v, name, lex) && !ImageVariable(name)
    ensures LookAt(tokens, i, lex) == Onward(i + 1)
  {
  }

  predicate AssignmentWord(w: string) {
    CleanWord(w) && IsLetter(w[0]) && Assignment(w)
  }

  lemma AssignmentIsPlain(w: string, lex: Lexicon)
    requires AssignmentWord(w) && Sane(lex)
    ensures Clean(w) == w && w !in lex.separators && w !in lex.invalid && OptionWidth(w, lex) == 0
    ensures !OptionExpansion(w) && PureVariableName(w) == None
  {
    CleanOfClean(w);
  }

  lemma StepPassedOver(tokens: seq<string>, i: nat, pull: bool, lex: Lexicon)
    requires i < |tokens|
    requires var token := Clean(tokens[i]);
      token != "" && token !in lex.separators && token !in lex.invalid && OptionWidth(token, lex) == 0 && Assignment(token)
    ensures StepAt(tokens, i, pull, lex) == Skip(i + 1)
  {
    assert PassedOver(Clean(tokens[i]), tokens, i, pull, lex);
  }

  lemma LookPassedOver(tokens: seq<string>, i: nat, lex: Lexicon)
    requires i < |tokens|
    ensures var token := Clean(tokens[i]);
      token !in lex.separators && OptionWidth(token, lex) == 0 && !OptionExpansion(token) && !ImageLike(token, lex)
      ==> LookAt(tokens, i, lex) == Onward(i + 1)
  {
  }

  lemma StepAtAssignment(tokens: seq<string>, i: nat, pull: bool, lex: Lexicon)
    requires i < |tokens| && AssignmentWord(tokens[i]) && Sane(lex)
    ensures StepAt(tokens, i, pull, lex) == Skip(i + 1) && LookAt(tokens, i, lex) == Onward(i + 1)
  {
    AssignmentIsPlain(tokens[i], lex);
    AssignmentIsNoImage(tokens[i], lex);
    StepPassedOver(tokens, i, pull, lex);
    LookPassedOver(tokens, i, lex);
  }

  lemma AssignmentIsNoImage(w: string, lex: Lexicon)
    requires Assignment(w) && PureVariableName(w) == None
    ensures !ImageLike(w, lex)
  {
  }

  lemma StepAtSeparator(tokens: seq<string>, i: nat, pull: bool, lex: Lexicon)
    requires i < |tokens|
    ensures Clean(tokens[i]) in lex.separators ==> StepAt(tokens, i, pull, lex) == Stop && LookAt(tokens, i, lex) == Blocked
  {
  }

  // ---- commands ------------------------------------------------------------------------------

  /** What can stand before an image: options, variables that name none, and assignments. */
  datatype Item = AnOpt(o: Opt) | AVar(form: Form, name: string) | AnAssignment(word: string)

  function ItemWords(item: Item): seq<string> {
    match item case AnOpt(o) => WordsOf(o) case AVar(form, name) => [VarWord(form, name)] case AnAssignment(w) => [w]
  }

  function AllWords(items: seq<Item>): seq<string> {
    if items == [] then [] else ItemWords(items[0]) + AllWords(items[1..])
  }

  ghost predicate GoodItem(item: Item, lex: Lexicon) {
    match item
    case AnOpt(o) => GoodOpt(o, lex)
    case AVar(_, name) => Identifier(name) && !ContainsOne(name, IMAGE_WORDS)
    case AnAssignment(w) => AssignmentWord(w)
  }

  /** The first variable that is not for options. */
  ghost function FirstVariable(items: seq<Item>): Option<string> {
    if items == [] then None
    else if items[0].AVar? && !ContainsOne(items[0].name, OPTION_WORDS) then Some(VarWord(items[0].form, items[0].name))
    else FirstVariable(items[1..])
  }

  predicate At(tokens: seq<string>, i: nat, item: Item) {
    i + |ItemWords(item)| <= |tokens| && |ItemWords(item)| > 0 && tokens[i] == ItemWords(item)[0]
  }

  /** The search passes the item; a variable that is not for options is remembered by `run` if no image
      is still to come. */
  ghost predicate Handled(n: nat, i: nat, item: Item, step: nat -> Step, look: nat -> Look, pull: bool)
    requires GoesOn(n, look)
  {
    && look(i) == Onward(i + |ItemWords(item)|) && |ItemWords(item)| > 0
    && step(i) == if item.AVar? && !pull && !ContainsOne(item.name, OPTION_WORDS) && !MetFrom(n, i + 1, look)
                  then Variable(ItemWords(item)[0]) else Skip(i + |ItemWords(item)|)
  }

  ghost predicate Handles(tokens: seq<string>, items: seq<Item>, step: nat -> Step, look: nat -> Look, pull: bool)
    requires GoesOn(|tokens|, look)
  {
    forall i: nat, item :: item in items && At(tokens, i, item) ==> Handled(|tokens|, i, item, step, look, pull)
  }

  lemma FirstIsHandled(
      tokens: seq<string>, i: nat, items: seq<Item>, tail: seq<string>, step: nat -> Step, look: nat -> Look, pull: bool)
    requires i <= |tokens| && items != [] && tokens[i..] == AllWords(items) + tail
    requires GoesOn(|tokens|, look) && Handles(tokens, items, step, look, pull)
    ensures At(tokens, i, items[0]) && Handled(|tokens|, i, items[0], step, look, pull)
    ensures tokens[i + |ItemWords(items[0])|..] == AllWords(items[1..]) + tail
    ensures Handles(tokens, items[1..], step, look, pull)
  {
    SliceOn(tokens, i, ItemWords(items[0]), AllWords(items[1..]), tail);
    assert items[0] in items && forall item :: item in items[1..] ==> item in items;
  }

  lemma MetOver(n: nat, i: nat, look: nat -> Look)
    requires GoesOn(n, look) && i < n && look(i).Onward?
    ensures MetFrom(n, i, look) == MetFrom(n, look(i).next, look)
  {
  }

  lemma {:induction false} LaterBehind(
      tokens: seq<string>, i: nat, items: seq<Item>, tail: seq<string>, step: nat -> Step, look: nat -> Look, pull: bool)
    requires i <= |tokens| && tokens[i..] == AllWords(items) + tail
    requires GoesOn(|tokens|, look) && Handles(tokens, items, step, look, pull)
    ensures |tail| <= |tokens| && MetFrom(|tokens|, i, look) == MetFrom(|tokens|, |tokens| - |tail|, look)
    decreases |items|
  {
    if items == [] {
      assert |tokens[i..]| == |tail|;
    } else {
      FirstIsHandled(tokens, i, items, tail, step, look, pull);
      MetOver(|tokens|, i, look);
      LaterBehind(tokens, i + |ItemWords(items[0])|, items[1..], tail, step, look, pull);
    }
  }

  ghost function Remembered(fallback: Option<string>, items: seq<Item>, passed: bool): Option<string> {
    if passed || fallback.Some? then fallback else FirstVariable(items)
  }

  /** Behind the items the search stands at the tail, with the first variable kept if nothing is to come. */
  lemma {:induction false} ItemsArePassed(
      tokens: seq<string>, i: nat, items: seq<Item>, tail: seq<string>, fallback: Option<string>, step: nat -> Step,
      look: nat -> Look, pull: bool)
    requires i <= |tokens| && tokens[i..] == AllWords(items) + tail && Advances(|tokens|, step)
    requires GoesOn(|tokens|, look) && Handles(tokens, items, step, look, pull)
    ensures |tail| <= |tokens|
    ensures var at := |tokens| - |tail|;
            Found(|tokens|, i, fallback, step) ==
            Found(|tokens|, at, Remembered(fallback, items, pull || MetFrom(|tokens|, at, look)), step)
    decreases |items|
  {
    if items == [] {
      assert |tokens[i..]| == |tail|;
    } else {
      var item := items[0];
      var next := i + |ItemWords(item)|;
      FirstIsHandled(tokens, i, items, tail, step, look, pull);
      LaterBehind(tokens, next, items[1..], tail, step, look, pull);
      var kept := if step(i).Variable? && fallback.None? then Some(ItemWords(item)[0]) else fallback;
      ItemsArePassed(tokens, next, items[1..], tail, kept, step, look, pull);
    }
  }

  lemma LookAtOpt(tokens: seq<string>, i: nat, o: Opt, lex: Lexicon)
    requires Sane(lex) && GoodOpt(o, lex) && i + |WordsOf(o)| <= |tokens| && tokens[i] == o.word
    ensures LookAt(tokens, i, lex) == Onward(i + |WordsOf(o)|)
  {
    WidthOfOpt(o, lex);
    OptionsAreDashed(Clean(tokens[i]), lex);
    LookOverOption(tokens, i, lex);
  }

  lemma LookOverOption(tokens: seq<string>, i: nat, lex: Lexicon)
    requires i < |tokens|
    requires var token := Clean(tokens[i]);
      token !in lex.separators && OptionWidth(token, lex) > 0 && !OptionExpansion(token)
    ensures LookAt(tokens, i, lex) == Onward(SkipOption(tokens, i, lex))
  {
  }

  lemma OptIsPassed(tokens: seq<string>, i: nat, o: Opt, lex: Lexicon)
    requires Sane(lex) && GoodOpt(o, lex) && i + |WordsOf(o)| <= |tokens| && tokens[i] == o.word
    ensures Looks(tokens, lex)(i) == Onward(i + |WordsOf(o)|)
  {
    LookAtOpt(tokens, i, o, lex);
  }

  lemma AssignmentIsPassed(tokens: seq<string>, i: nat, pull: bool, lex: Lexicon)
    requires i < |tokens| && AssignmentWord(tokens[i]) && Sane(lex)
    ensures Steps(tokens, pull, lex)(i) == Skip(i + 1) && Looks(tokens, lex)(i) == Onward(i + 1)
  {
    StepAtAssignment(tokens, i, pull, lex);
  }

  lemma VarIsHandled(tokens: seq<string>, i: nat, form: Form, name: string, options: bool, pull: bool, lex: Lexicon)
    requires Sane(lex) && Identifier(name) && !ImageVariable(name) && options == OptionVariable(name)
    requires i < |tokens| && tokens[i] == VarWord(form, name) && GoesOn(|tokens|, Looks(tokens, lex))
    ensures Looks(tokens, lex)(i) == Onward(i + 1)
    ensures Steps(tokens, pull, lex)(i) ==
            if !pull && !options && !MetFrom(|tokens|, i + 1, Looks(tokens, lex)) then Variable(VarWord(form, name))
            else Skip(i + 1)
  {
    StepAtVar(tokens, i, form, name, pull, lex);
    LookAtVar(tokens, i, form, name, lex);
  }

  ghost predicate LooksOver(tokens: seq<string>, opts: seq<Opt>, look: nat -> Look) {
    forall i: nat, o :: o in opts && i + |WordsOf(o)| <= |tokens| && tokens[i] == o.word
                        ==> look(i) == Onward(i + |WordsOf(o)|)
  }

  ghost predicate PassesAssignments(tokens: seq<string>, step: nat -> Step, look: nat -> Look) {
    forall i: nat :: i < |tokens| && AssignmentWord(tokens[i]) ==> step(i) == Skip(i + 1) && look(i) == Onward(i + 1)
  }

  ghost predicate MeetsVariable(
      tokens: seq<string>, i: nat, form: Form, name: string, step: nat -> Step, look: nat -> Look, pull: bool)
    requires GoesOn(|tokens|, look)
  {
    look(i) == Onward(i + 1) &&
    step(i) == if !pull && !ContainsOne(name, OPTION_WORDS) && !MetFrom(|tokens|, i + 1, look)
               then Variable(VarWord(form, name)) else Skip(i + 1)
  }

  ghost predicate MeetsVariables(tokens: seq<string>, step: nat -> Step, look: nat -> Look, pull: bool)
    requires GoesOn(|tokens|, look)
  {
    forall i: nat, form, name ::
      (i < |tokens| && tokens[i] == VarWord(form, name) && Identifier(name) && !ContainsOne(name, IMAGE_WORDS)) ==>
        MeetsVariable(tokens, i, form, name, step, look, pull)
  }

  lemma OptsAreLookedOver(tokens: seq<string>, opts: seq<Opt>, lex: Lexicon)
    requires Sane(lex) && forall o :: o in opts ==> GoodOpt(o, lex)
    ensures LooksOver(tokens, opts, Looks(tokens, lex))
  {
    forall i: nat, o | o in opts && i + |WordsOf(o)| <= |tokens| && tokens[i] == o.word
      ensures Looks(tokens, lex)(i) == Onward(i + |WordsOf(o)|)
    {
      OptIsPassed(tokens, i, o, lex);
    }
  }

  lemma AssignmentsArePassed(tokens: seq<string>, pull: bool, lex: Lexicon)
    requires Sane(lex)
    ensures PassesAssignments(tokens, Steps(tokens, pull, lex), Looks(tokens, lex))
  {
    forall i: nat | i < |tokens| && AssignmentWord(tokens[i])
      ensures Steps(tokens, pull, lex)(i) == Skip(i + 1) && Looks(tokens, lex)(i) == Onward(i + 1)
    {
      AssignmentIsPassed(tokens, i, pull, lex);
    }
  }

  lemma VariableIsMet(tokens: seq<string>, i: nat, form: Form, name: string, pull: bool, lex: Lexicon)
    requires Sane(lex) && Identifier(name) && !ContainsOne(name, IMAGE_WORDS)
    requires i < |tokens| && tokens[i] == VarWord(form, name) && GoesOn(|tokens|, Looks(tokens, lex))
    ensures MeetsVariable(tokens, i, form, name, Steps(tokens, pull, lex), Looks(tokens, lex), pull)
  {
    ImageVariableIff(name);
    OptionVariableIff(name);
    VarIsHandled(tokens, i, form, name, ContainsOne(name, OPTION_WORDS), pull, lex);
  }

  lemma VariablesAreMet(tokens: seq<string>, pull: bool, lex: Lexicon)
    requires Sane(lex) && GoesOn(|tokens|, Looks(tokens, lex))
    ensures MeetsVariables(tokens, Steps(tokens, pull, lex), Looks(tokens, lex), pull)
  {
    forall i: nat, form, name | i < |tokens| && tokens[i] == VarWord(form, name) && Identifier(name) &&
                                !ContainsOne(name, IMAGE_WORDS)
      ensures MeetsVariable(tokens, i, form, name, Steps(tokens, pull, lex), Looks(tokens, lex), pull)
    {
      VariableIsMet(tokens, i, form, name, pull, lex);
    }
  }

  function OptsOf(items: seq<Item>): seq<Opt> {
    if items == [] then [] else (if items[0].AnOpt? then [items[0].o] else []) + OptsOf(items[1..])
  }

  lemma {:induction false} InOptsOf(items: seq<Item>, o: Opt)
    ensures o in OptsOf(items) <==> AnOpt(o) in items
  {
    if items != [] {
      InOptsOf(items[1..], o);
      assert items == [items[0]] + items[1..];
    }
  }

  lemma KindsAreHandled(
      tokens: seq<string>, items: seq<Item>, step: nat -> Step, look: nat -> Look, pull: bool, lex: Lexicon)
    requires GoesOn(|tokens|, look) && StepsOver(tokens, OptsOf(items), step) && LooksOver(tokens, OptsOf(items), look)
    requires PassesAssignments(tokens, step, look) && MeetsVariables(tokens, step, look, pull)
    requires forall item :: item in items ==> GoodItem(item, lex)
    ensures Handles(tokens, items, step, look, pull)
  {
    forall i: nat, item | item in items && At(tokens, i, item)
      ensures Handled(|tokens|, i, item, step, look, pull)
    {
      match item
      case AnOpt(o) => InOptsOf(items, o);
      case AVar(form, name) => assert MeetsVariable(tokens, i, form, name, step, look, pull);
      case AnAssignment(w) =>
    }
  }

  lemma ItemsAreHandled(tokens: seq<string>, items: seq<Item>, pull: bool, lex: Lexicon)
    requires Sane(lex) && forall item :: item in items ==> GoodItem(item, lex)
    ensures GoesOn(|tokens|, Looks(tokens, lex))
    ensures Handles(tokens, items, Steps(tokens, pull, lex), Looks(tokens, lex), pull)
  {
    LooksGoOn(tokens, lex);
    forall o | o in OptsOf(items)
      ensures GoodOpt(o, lex)
    {
      InOptsOf(items, o);
    }
    OptionsAreSteppedOver(tokens, OptsOf(items), pull, lex);
    OptsAreLookedOver(tokens, OptsOf(items), lex);
    AssignmentsArePassed(tokens, pull, lex);
    VariablesAreMet(tokens, pull, lex);
    KindsAreHandled(tokens, items, Steps(tokens, pull, lex), Looks(tokens, lex), pull, lex);
  }

  /** What ends a search. */
  datatype Tail =
    | Nothing
    | Separator(word: string)
    | File(word: string)
    | Reference(word: string)
    | ImageVar(form: Form, name: string)

  function TailWords(t: Tail): seq<string> {
    match t
    case Nothing => []
    case Separator(w) => [w]
    case File(w) => [w]
    case Reference(w) => [w]
    case ImageVar(form, name) => [VarWord(form, name)]
  }

  /** A path of the local machine, clean and in no table. */
  predicate FileWord(w: string, lex: Lexicon) {
    CleanWord(w) && LocalPath(w) && '`' !in w && '=' !in w && w !in lex.separators && w !in lex.invalid
  }

  ghost predicate GoodTail(t: Tail, lex: Lexicon) {
    match t
    case Nothing => true
    case Separator(w) => CleanWord(w) && w in lex.separators
    case File(w) => FileWord(w, lex)
    case Reference(w) => PlainReference(w) && !PortMapping(w)
    case ImageVar(_, name) => Identifier(name) && ContainsOne(name, IMAGE_WORDS)
  }

  lemma FileIsPlain(w: string, lex: Lexicon)
    requires FileWord(w, lex) && Sane(lex)
    ensures Clean(w) == w && Candidate(w) == w && w != "" && w[0] != '-' && OptionWidth(w, lex) == 0
    ensures PureVariableName(w) == None && !OptionExpansion(w) && !Assignment(w)
  {
    CleanOfClean(w);
    StripTrimmed(w, IsTokenQuote);
    assert w[0] == '/' || w[0] == '.';
    var k := Find(w, "`:", 0);
    if k >= 0 {
      OccursHead(w, "`:", k);
    }
  }

  lemma StepAtFile(tokens: seq<string>, i: nat, lex: Lexicon)
    requires i < |tokens| && FileWord(tokens[i], lex) && Sane(lex)
    ensures StepAt(tokens, i, false, lex) == Path
  {
    FileIsPlain(tokens[i], lex);
    StepByName(tokens, i, false, lex);
  }

  /** What the search finds where it ends. */
  ghost predicate Ends(t: Tail, words: seq<string>, at: nat, pull: bool, step: nat -> Step)
    requires words == TailWords(t)
  {
    match t
    case Nothing => true
    case Separator(_) => step(at) == Stop
    case File(_) => pull || step(at) == Path
    case Reference(w) => step(at) == Image(w)
    case ImageVar(form, name) => step(at) == Image(VarWord(form, name))
  }

  lemma TailEnds(tokens: seq<string>, at: nat, t: Tail, pull: bool, lex: Lexicon)
    requires Sane(lex) && GoodTail(t, lex) && (t.Nothing? || (at < |tokens| && tokens[at] == TailWords(t)[0]))
    ensures Ends(t, TailWords(t), at, pull, Steps(tokens, pull, lex))
  {
    match t
    case Nothing =>
    case Separator(w) =>
      CleanOfClean(w);
      StepAtSeparator(tokens, at, pull, lex);
    case File(w) =>
      if !pull {
        StepAtFile(tokens, at, lex);
      }
    case Reference(w) => StepAtImage(tokens, at, pull, lex);
    case ImageVar(form, name) =>
      ImageVariableIff(name);
      StepAtVar(tokens, at, form, name, pull, lex);
  }

  /** What is found in a command: options, variables, assignments, and then `t` and anything else. */
  ghost function Outcome(items: seq<Item>, t: Tail, later: bool): Option<string> {
    match t
    case Nothing => FirstVariable(items)
    case Separator(_) => None
    case File(_) => if later then None else FirstVariable(items)
    case Reference(w) => Some(w)
    case ImageVar(form, name) => Some(VarWord(form, name))
  }

  function Command(items: seq<Item>, t: Tail, trailing: seq<string>): seq<string> {
    AllWords(items) + (TailWords(t) + trailing)
  }

  lemma FoundAtTail(items: seq<Item>, t: Tail, trailing: seq<string>, pull: bool, step: nat -> Step, look: nat -> Look)
    requires (t.Nothing? ==> trailing == []) && !(t.File? && pull)
    requires var tokens, at := Command(items, t, trailing), |AllWords(items)|;
      Advances(|tokens|, step) && GoesOn(|tokens|, look) && Handles(tokens, items, step, look, pull) &&
      Ends(t, TailWords(t), at, pull, step)
    ensures Found(|Command(items, t, trailing)|, 0, None, step) ==
            if pull && t.Nothing? then None
            else Outcome(items, t, MetFrom(|Command(items, t, trailing)|, |AllWords(items)|, look))
  {
    var tokens, tail := Command(items, t, trailing), TailWords(t) + trailing;
    assert tokens[0..] == tokens;
    ItemsArePassed(tokens, 0, items, tail, None, step, look, pull);
    assert |tokens| - |tail| == |AllWords(items)|;
  }

  /** The image of a command. Behind any options, assignments and variables that name no image: a literal
      reference, or a variable whose name contains an image word in any case, is the image, whatever
      follows. A separator ends the search empty-handed. At the end of the command, and for `run` at a
      local path, the first variable that is not for options is returned, though behind a path only if no
      image comes later; `pull` returns no such variable. */
  lemma CommandImage(items: seq<Item>, t: Tail, trailing: seq<string>, pull: bool, lex: Lexicon)
    requires Sane(lex) && (forall item :: item in items ==> GoodItem(item, lex)) && GoodTail(t, lex)
    requires (t.Nothing? ==> trailing == []) && !(t.File? && pull)
    ensures ImageIn(Command(items, t, trailing), pull, lex) ==
            if pull && t.Nothing? then None
            else Outcome(items, t, LaterImage(Command(items, t, trailing), |AllWords(items)|, lex))
  {
    var tokens, at := Command(items, t, trailing), |AllWords(items)|;
    StepsAdvance(tokens, pull, lex);
    ItemsAreHandled(tokens, items, pull, lex);
    TailEnds(tokens, at, t, pull, lex);
    FoundAtTail(items, t, trailing, pull, Steps(tokens, pull, lex), Looks(tokens, lex));
  }

  // ---- the question asked most -----------------------------------------------------------------

  /** A variable behind options and assignments is the image exactly when its name contains an image word,
      in any case, whatever follows it. Otherwise it is passed over; and when nothing follows it, `run`
      falls back on it unless it is for options. */
  lemma VariableIsImageIff(items: seq<Item>, form: Form, name: string, trailing: seq<string>, pull: bool, lex: Lexicon)
    requires Sane(lex) && (forall item :: item in items ==> GoodItem(item, lex) && !item.AVar?) && Identifier(name)
    ensures ContainsOne(name, IMAGE_WORDS) ==>
              ImageIn(AllWords(items) + ([VarWord(form, name)] + trailing), pull, lex) == Some(VarWord(form, name))
    ensures !ContainsOne(name, IMAGE_WORDS) ==>
              ImageIn(AllWords(items) + [VarWord(form, name)], pull, lex) ==
              if pull || ContainsOne(name, OPTION_WORDS) then None else Some(VarWord(form, name))
  {
    if ContainsOne(name, IMAGE_WORDS) {
      CommandImage(items, ImageVar(form, name), trailing, pull, lex);
    } else {
      var all := items + [AVar(form, name)];
      WordsJoin(items, AVar(form, name));
      CommandImage(all, Nothing, [], pull, lex);
      assert Command(all, Nothing, []) == AllWords(items) + [VarWord(form, name)];
      OnlyVariable(items, AVar(form, name));
    }
  }

  lemma {:induction false} WordsJoin(items: seq<Item>, item: Item)
    ensures AllWords(items + [item]) == AllWords(items) + ItemWords(item)
  {
    if items == [] {
      assert [] + [item] == [item] && [item][1..] == [];
    } else {
      assert (items + [item])[1..] == items[1..] + [item];
      WordsJoin(items[1..], item);
    }
  }

  lemma {:induction false} OnlyVariable(items: seq<Item>, item: Item)
    requires item.AVar? && forall x :: x in items ==> !x.AVar?
    ensures FirstVariable(items + [item]) ==
            if ContainsOne(item.name, OPTION_WORDS) then None else Some(VarWord(item.form, item.name))
  {
    if items == [] {
      assert [] + [item] == [item] && [item][1..] == [];
    } else {
      assert (items + [item])[1..] == items[1..] + [item];
      OnlyVariable(items[1..], item);
    }
  }
}
