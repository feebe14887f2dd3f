/** The scanner's own word tables, and that they are what the search relies on. */
module DockerTables {
  import opened Wrappers
  import opened Text
  import opened ShellWords
  import opened DockerCommand
  import Lines = ShellLines
  import Variables = DockerVariables

  const SEPARATORS := {";", "&&", "||", "|", ">", ">>", "<", "2>", "2>>", "2>&1"}

  const BOOL_FLAGS := {
    "--rm", "--init", "--privileged", "--tty", "--interactive", "--detach", "--read-only", "--oom-kill-disable",
    "--no-healthcheck", "--sig-proxy", "-d", "-i", "-t", "-it", "-ti"}

  const VALUE_FLAGS := {
    "--volume", "--mount", "--env", "--env-file", "--name", "--hostname", "--workdir", "--user", "--network", "--net",
    "--add-host", "--entrypoint", "--label", "--platform", "--publish", "--expose", "--pull", "--restart", "--device",
    "--dns", "--dns-search", "--security-opt", "--cap-add", "--cap-drop", "--group-add", "--ulimit", "--log-driver",
    "--log-opt", "--cidfile", "--gpus", "--attach"}

  const INVALID := {".", "\\", "$@", "$*", "${@}", "${*}"}

  const DOCKER := Lexicon(SEPARATORS, BOOL_FLAGS, VALUE_FLAGS, INVALID)

  predicate OptionChar(c: char) {
    'a' <= c <= 'z' || c == '-'
  }

  predicate OptionWord(w: string) {
    |w| > 1 && w[0] == '-' && forall c :: c in w ==> OptionChar(c)
  }

  lemma OptionWordsAreClean(w: string)
    requires OptionWord(w)
    ensures CleanWord(w) && '=' !in w
  {
    assert w[0] in w && w[|w| - 1] in w;
    assert !IsSpace(w[0]) && !IsSpace(w[|w| - 1]);
  }

  lemma BoolFlags(w: string)
    requires w in BOOL_FLAGS
    ensures OptionWord(w)
  {
  }

  lemma ValueFlags(w: string)
    requires w in VALUE_FLAGS
    ensures OptionWord(w) && |w| > 2 && w[1] == '-'
  {
  }

  lemma FlagsDiffer(w: string)
    requires w in VALUE_FLAGS
    ensures w !in BOOL_FLAGS
  {
  }

  lemma Separators(w: string)
    requires w in SEPARATORS
    ensures w != "" && w[0] != '-' && w[0] != '$' && !IsLetter(w[0]) && exists c :: c in w && !ReferenceChar(c)
  {
    assert w[0] in w && w[|w| - 1] in w;
    if w == "2>&1" {
      assert w[1] in w;
    }
  }

  lemma Invalid(w: string)
    requires w in INVALID
    ensures w != "" && w[0] != '-' && !IsLetter(w[0]) && !IsDigit(w[0])
    ensures |w| < 5 && (|w| > 1 ==> w[1] == '@' || w[1] == '*' || (w[1] == '{' && |w| == 4 && (w[2] == '@' || w[2] == '*')))
  {
  }

  lemma NoVariable(w: string)
    requires w in INVALID
    ensures PureVariableName(w) == None
  {
    Invalid(w);
    if |w| == 4 {
      assert w[2..3][0] == w[2];
    }
    if |w| > 1 && w[1] != '{' {
      assert w[1..][0] == w[1];
    }
  }

  lemma NoAssignment(w: string)
    requires w != "" && !IsLetter(w[0])
    ensures !Assignment(w)
  {
    if '=' in w {
      Cut(w, '=');
    }
  }

  lemma DockerIsSane()
    ensures Sane(DOCKER)
  {
    forall w | w in SEPARATORS
      ensures w != "" && w[0] != '-' && !PlainReference(w) && PureVariableName(w) == None && !Assignment(w)
    {
      Separators(w);
      NoAssignment(w);
    }
    forall w | w in INVALID
      ensures w != "" && w[0] != '-' && !PlainReference(w) && PureVariableName(w) == None && !Assignment(w)
    {
      Invalid(w);
      NoVariable(w);
      NoAssignment(w);
    }
    forall w | w in BOOL_FLAGS ensures CleanWord(w) && w[0] == '-' && w != "-" && '=' !in w {
      BoolFlags(w);
      OptionWordsAreClean(w);
    }
    forall w | w in VALUE_FLAGS
      ensures CleanWord(w) && |w| > 2 && w[0] == '-' && w[1] == '-' && '=' !in w && w !in BOOL_FLAGS
    {
      ValueFlags(w);
      OptionWordsAreClean(w);
      FlagsDiffer(w);
    }
  }

  /** So with these tables the extractors find the image of every printed command. */
  lemma DockerImageFoundIff(opts: seq<Opt>, image: string, trailing: seq<string>, pull: bool)
    requires (forall o :: o in opts ==> GoodOpt(o, DOCKER)) && PlainReference(image)
    requires var words := CommandWords(opts, image, trailing);
      AllSolid(words) && forall w :: w in words ==> '\'' !in w
    ensures ImageIn(Words(Printed(CommandWords(opts, image, trailing))), pull, DOCKER) == Some(image)
        <==> !PortMapping(image)
  {
    DockerIsSane();
    PrintedImageFoundIff(opts, image, trailing, pull, DOCKER);
  }

  /** And of every command line, however its words are quoted: behind options, assignments and variables,
      what `Variables.Outcome` says. */
  lemma DockerLineImage(
      line: seq<Lines.Spaced>, items: seq<Variables.Item>, t: Variables.Tail, trailing: seq<string>, pull: bool)
    requires Lines.GoodLine(line) && Lines.TokensOf(line) == Variables.Command(items, t, trailing)
    requires (forall item :: item in items ==> Variables.GoodItem(item, DOCKER)) && Variables.GoodTail(t, DOCKER)
    requires (t.Nothing? ==> trailing == []) && !(t.File? && pull)
    ensures var tokens := Variables.Command(items, t, trailing);
      ImageIn(Words(Lines.ShowLine(line)), pull, DOCKER) ==
      if pull && t.Nothing? then None
      else Variables.Outcome(items, t, LaterImage(tokens, |Variables.AllWords(items)|, DOCKER))
  {
    DockerIsSane();
    Lines.LineReadsBack(line);
    Variables.CommandImage(items, t, trailing, pull, DOCKER);
  }
}
