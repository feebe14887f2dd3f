/** OCI image references: the Kubernetes cartographer's parser and printer, and the image
    scanner's own parser. */
module ImageReference {
  import opened Text

  datatype ImageRef = ImageRef(
    raw: string, registry: string, repository: string, name: string, tag: string, digest: string)

  const DEFAULT_REGISTRY := "docker.io"
  const LIBRARY := "library/"

  predicate LooksLikeRegistry(component: string) {
    '.' in component || ':' in component || component == "localhost"
  }

  /** `repository[:tag]`, the colon counting only in the last path segment. */
  function SplitTag(path: string): (string, string) {
    if ':' in path && '/' !in LastTail(path, ':') then (LastHead(path, ':'), LastTail(path, ':')) else (path, "")
  }

  /** The registry host, if the first path component is one, and the rest. */
  function SplitRegistry(remainder: string): (string, string) {
    if '/' in remainder && LooksLikeRegistry(Head(remainder, '/'))
    then (Head(remainder, '/'), Tail(remainder, '/'))
    else ("", remainder)
  }

  function Parse(text: string): ImageRef {
    ParseStripped(Strip(text))
  }

  function ParseStripped(ref: string): ImageRef {
    var front := Head(ref, '@');
    var (host, path) := SplitRegistry(front);
    var (repo, tag) := SplitTag(path);
    Assembled(ref, host, repo, tag, Tail(ref, '@'))
  }

  /** The defaults: Docker Hub, its `library/` namespace, and `latest`. */
  function Assembled(ref: string, host: string, repo: string, tag: string, digest: string): ImageRef {
    var repository := if host == "" && '/' !in repo then LIBRARY + repo else repo;
    ImageRef(ref, if host == "" then DEFAULT_REGISTRY else host, repository, LastTail(repository, '/'),
             if tag == "" && digest == "" then "latest" else tag, digest)
  }

  /** The `reference` property. */
  function Print(r: ImageRef): string {
    (if r.registry != "" then r.registry + "/" + r.repository else r.repository)
    + (if r.tag != "" then ":" + r.tag else "")
    + (if r.digest != "" then "@" + r.digest else "")
  }

  // ---- parsing the printed form ------------------------------------------------------------

  predicate Untagged(repository: string) {
    SplitTag(repository) == (repository, "")
  }

  predicate WellFormed(r: ImageRef) {
    && r.registry != "" && '/' !in r.registry && LooksLikeRegistry(r.registry)
    && '@' !in r.registry && '@' !in r.repository && '@' !in r.tag
    && ':' !in r.tag && '/' !in r.tag
    && (r.tag == "" ==> r.digest != "" && Untagged(r.repository))
    && r.name == LastTail(r.repository, '/')
    && Trimmed(Print(r))
  }

  predicate SameFields(a: ImageRef, b: ImageRef) {
    a.registry == b.registry && a.repository == b.repository && a.name == b.name && a.tag == b.tag && a.digest == b.digest
  }

  function PathOf(r: ImageRef): string {
    r.repository + (if r.tag != "" then ":" + r.tag else "")
  }

  lemma PrintSplits(r: ImageRef)
    requires r.registry != "" && '/' !in r.registry && LooksLikeRegistry(r.registry)
    requires '@' !in r.registry && '@' !in r.repository && '@' !in r.tag
    ensures Tail(Print(r), '@') == r.digest
    ensures SplitRegistry(Head(Print(r), '@')) == (r.registry, PathOf(r))
  {
    RegistrySplits(r.registry, PathOf(r));
    DigestSplits(r.registry + "/" + PathOf(r), r.digest);
    PrintParts(r);
  }

  lemma PrintParts(r: ImageRef)
    requires r.registry != ""
    ensures Print(r) == r.registry + "/" + PathOf(r) + (if r.digest != "" then "@" + r.digest else "")
  {
  }

  lemma RegistrySplits(host: string, path: string)
    requires '/' !in host && LooksLikeRegistry(host)
    ensures SplitRegistry(host + "/" + path) == (host, path)
  {
    CutBack(host, '/', path);
    assert host + "/" + path == host + ['/'] + path;
    assert (host + ['/'] + path)[|host|] == '/';
  }

  lemma DigestSplits(front: string, digest: string)
    requires '@' !in front
    ensures var p := front + (if digest != "" then "@" + digest else "");
            Head(p, '@') == front && Tail(p, '@') == digest
  {
    if digest != "" {
      assert front + "@" + digest == front + ("@" + digest);
      CutBack(front, '@', digest);
    } else {
      assert front + "" == front;
      Cut(front, '@');
    }
  }

  lemma PathSplits(r: ImageRef)
    requires ':' !in r.tag && '/' !in r.tag
    requires r.tag == "" ==> Untagged(r.repository)
    ensures SplitTag(PathOf(r)) == (r.repository, r.tag)
  {
    if r.tag != "" {
      LastCutBack(r.repository, ':', r.tag);
      assert PathOf(r) == r.repository + [':'] + r.tag;
      assert PathOf(r)[|r.repository|] == ':';
    } else {
      assert PathOf(r) == r.repository;
    }
  }

  /** Parsing the printed form of a well-formed reference gives every field back. */
  lemma WellFormedRoundTrips(r: ImageRef)
    requires WellFormed(r)
    ensures SameFields(Parse(Print(r)), r)
  {
    var p := Print(r);
    StripTrimmed(p, IsSpace);
    PrintSplits(r);
    PathSplits(r);
    assert Parse(p) == Assembled(p, r.registry, r.repository, r.tag, r.digest);
  }

  // ---- what every parse produces -----------------------------------------------------------

  lemma SplitsKeepOut(s: string, c: char, no: char)
    requires no !in s
    ensures no !in Head(s, c) && no !in Tail(s, c) && no !in LastHead(s, c) && no !in LastTail(s, c)
  {
    Cut(s, c);
    LastCut(s, c);
  }

  predicate Shaped(r: ImageRef) {
    && r.registry != "" && '/' !in r.registry && LooksLikeRegistry(r.registry)
    && '@' !in r.registry && '@' !in r.repository && '@' !in r.tag
    && ':' !in r.tag && '/' !in r.tag
    && (r.tag == "" ==> r.digest != "") && r.name == LastTail(r.repository, '/')
  }

  lemma DefaultsShape()
    ensures DEFAULT_REGISTRY != "" && '/' !in DEFAULT_REGISTRY && '@' !in DEFAULT_REGISTRY
    ensures LooksLikeRegistry(DEFAULT_REGISTRY)
    ensures '@' !in LIBRARY && '/' in LIBRARY
    ensures '@' !in "latest" && ':' !in "latest" && '/' !in "latest"
  {
    assert DEFAULT_REGISTRY[6] == '.';
    assert LIBRARY[7] == '/';
  }

  lemma AssembledShape(ref: string, host: string, repo: string, tag: string, digest: string)
    requires '/' !in host && (host != "" ==> LooksLikeRegistry(host))
    requires '@' !in host && '@' !in repo && '@' !in tag && ':' !in tag && '/' !in tag
    ensures Shaped(Assembled(ref, host, repo, tag, digest))
  {
    DefaultsShape();
    var r := Assembled(ref, host, repo, tag, digest);
    assert '@' !in r.repository;
  }

  lemma SplitShape(front: string)
    requires '@' !in front
    ensures var (host, path) := SplitRegistry(front); var (repo, tag) := SplitTag(path);
            '/' !in host && (host != "" ==> LooksLikeRegistry(host)) &&
            '@' !in host && '@' !in repo && '@' !in tag && ':' !in tag && '/' !in tag
  {
    SplitsKeepOut(front, '/', '@');
    SplitsKeepOut(SplitRegistry(front).1, ':', '@');
  }

  lemma ParseShape(ref: string)
    ensures Shaped(ParseStripped(ref))
  {
    var front := Head(ref, '@');
    var (host, path) := SplitRegistry(front);
    var (repo, tag) := SplitTag(path);
    SplitShape(front);
    AssembledShape(ref, host, repo, tag, Tail(ref, '@'));
  }

  /** Exactly the well-formed references survive being printed and parsed. */
  lemma RoundTripIffWellFormed(r: ImageRef)
    ensures WellFormed(r) <==> SameFields(Parse(Print(r)), r)
  {
    if WellFormed(r) {
      WellFormedRoundTrips(r);
    }
    if SameFields(Parse(Print(r)), r) {
      ParseShape(Strip(Print(r)));
      RoundTripIsTrimmed(r);
      StripTrimmed(Print(r), IsSpace);
      PrintSplits(r);
      if r.tag == "" {
        assert PathOf(r) == r.repository;
        LastCut(r.repository, ':');
      }
    }
  }

  predicate EndsLike(s: string, t: string) {
    s != "" && t != "" && s[|s| - 1] == t[|t| - 1]
  }

  /** What ends a parsed reference ended the text, unless it is the default tag. */
  lemma ParseEnds(ref: string)
    requires '@' in ref ==> Tail(ref, '@') != ""
    ensures var r := ParseStripped(ref);
            if r.digest != "" then EndsLike(r.digest, ref) else r.tag == "latest" || EndsLike(r.tag, ref)
  {
    var front, digest := Head(ref, '@'), Tail(ref, '@');
    Cut(ref, '@');
    if digest != "" {
      EndOf(front + ['@'], digest);
    } else {
      var (host, path) := SplitRegistry(front);
      Cut(front, '/');
      TagEnds(path);
      if host != "" && path != "" {
        EndOf(host + ['/'], path);
      }
    }
  }

  lemma EndOf(a: string, b: string)
    requires b != ""
    ensures EndsLike(b, a + b)
  {
  }

  lemma TagEnds(path: string)
    ensures SplitTag(path).1 != "" ==> EndsLike(SplitTag(path).1, path)
  {
    LastCut(path, ':');
    if SplitTag(path).1 != "" {
      EndOf(LastHead(path, ':') + [':'], LastTail(path, ':'));
    }
  }

  /** What starts a parsed reference started the text, unless it is the default registry. */
  lemma ParseStarts(ref: string)
    ensures var r := ParseStripped(ref);
            r.registry == DEFAULT_REGISTRY || (ref != "" && r.registry != "" && r.registry[0] == ref[0])
  {
    Cut(ref, '@');
    Cut(Head(ref, '@'), '/');
  }

  lemma RoundTripIsTrimmed(r: ImageRef)
    requires SameFields(Parse(Print(r)), r)
    ensures Trimmed(Print(r))
  {
    StripIsTrimmed(Print(r), IsSpace);
    StripKeeps(Print(r), IsSpace);
    TrimmedFrom(r, Strip(Print(r)));
  }

  lemma TrimmedFrom(r: ImageRef, ref: string)
    requires SameFields(ParseStripped(ref), r) && Trimmed(ref)
    requires forall c :: c in ref ==> c in Print(r)
    ensures Trimmed(Print(r))
  {
    ParseShape(ref);
    PrintEnds(r);
    ParseStarts(ref);
    Cut(ref, '@');
    ParseEnds(ref);
    SpaceFreeDefaults();
  }

  lemma SpaceFreeDefaults()
    ensures !IsSpace(DEFAULT_REGISTRY[0]) && !IsSpace("latest"[5]) && |"latest"| == 6
  {
  }

  lemma PrintEnds(r: ImageRef)
    requires Shaped(r)
    ensures Print(r) != "" && Print(r)[0] == r.registry[0]
    ensures EndsLike(Print(r), if r.digest != "" then r.digest else r.tag)
    ensures r.digest == "" ==> '@' !in Print(r)
  {
  }

  /** Parse, print and parse again: the second parse agrees with the first exactly when no tag was
      dropped from a repository that still carries a colon, and the printed form has clean ends. */
  lemma ParsePrintParse(text: string)
    ensures var r := Parse(text);
            SameFields(Parse(Print(r)), r) <==> (r.tag == "" ==> Untagged(r.repository)) && Trimmed(Print(r))
  {
    ParseShape(Strip(text));
    RoundTripIffWellFormed(Parse(text));
  }

  /** In particular it always does for references without white space or colons in the repository. */
  lemma ParsePrintParseClean(text: string)
    requires forall c :: c in text ==> !IsSpace(c)
    requires ':' !in Parse(text).repository
    ensures SameFields(Parse(Print(Parse(text))), Parse(text))
  {
    StripKeeps(text, IsSpace);
    CleanEnds(Strip(text));
    LastCut(Parse(text).repository, ':');
    ParsePrintParse(text);
  }

  lemma CleanEnds(ref: string)
    requires forall c :: c in ref ==> !IsSpace(c)
    ensures Trimmed(Print(ParseStripped(ref)))
  {
    ParseShape(ref);
    NoNewSpace(ref);
    PrintEnds(ParseStripped(ref));
  }

  lemma NoNewSpace(ref: string)
    requires forall c :: c in ref ==> !IsSpace(c)
    ensures var r := ParseStripped(ref);
            forall c :: c in r.registry || c in r.tag || c in r.digest ==> !IsSpace(c)
  {
    forall c | IsSpace(c)
      ensures var r := ParseStripped(ref); c !in r.registry && c !in r.tag && c !in r.digest
    {
      StaysOut(ref, c);
    }
  }

  lemma StaysOut(ref: string, c: char)
    requires c !in ref && c !in DEFAULT_REGISTRY && c !in "latest"
    ensures var r := ParseStripped(ref); c !in r.registry && c !in r.tag && c !in r.digest
  {
    var front := Head(ref, '@');
    SplitsKeepOut(ref, '@', c);
    SplitsKeepOut(front, '/', c);
    SplitsKeepOut(SplitRegistry(front).1, ':', c);
  }

  // ---- the image scanner's parser ------------------------------------------------------------

  datatype Target = Target(registry: string, repository: string, tag: string, digest: string)

  /** `split_image_ref`: repository, tag, digest. */
  function SplitImageRef(text: string): (string, string, string) {
    var ref := Strip(text);
    var front := Head(ref, '@');
    if ':' in LastTail(front, '/')
    then (LastHead(front, ':'), LastTail(front, ':'), Tail(ref, '@'))
    else (front, "latest", Tail(ref, '@'))
  }

  function ParseTarget(text: string): Target {
    var (full, tag, digest) := SplitImageRef(text);
    var head, rest := Head(full, '/'), Tail(full, '/');
    if rest != "" && LooksLikeRegistry(head) then Target(head, rest, tag, digest)
    else Target(DEFAULT_REGISTRY, full, tag, digest)
  }

  /** The tag part of the text is a lone colon, as in `repo:`. */
  predicate EmptyTag(text: string) {
    var front := Head(Strip(text), '@');
    front != "" && front[|front| - 1] == ':'
  }

  predicate ImplicitHub(text: string) {
    SplitRegistry(Head(Strip(text), '@')).0 == ""
  }

  /** The two tests for a tag colon agree: in the last segment, or with no slash behind it. */
  lemma {:induction false} LastColon(s: string)
    ensures ':' in LastTail(s, '/') <==> ':' in s && '/' !in LastTail(s, ':')
  {
    if s != "" {
      assert s == s[..|s| - 1] + [s[|s| - 1]];
      if s[|s| - 1] != ':' && s[|s| - 1] != '/' {
        LastColon(s[..|s| - 1]);
      }
    }
  }

  /** Cutting the tag off before or after the registry is the same. */
  lemma {:induction false} TagAfterRegistry(host: string, path: string)
    requires '/' !in host
    ensures SplitTag(host + "/" + path) == (host + "/" + SplitTag(path).0, SplitTag(path).1)
    ensures ':' in LastTail(host + "/" + path, '/') <==> ':' in path && '/' !in LastTail(path, ':')
  {
    var s := host + "/" + path;
    LastColon(s);
    LastColon(path);
    SameLastSegment(host, path);
    if ':' in LastTail(path, '/') {
      LastCut(path, ':');
      assert s == (host + "/" + LastHead(path, ':')) + [':'] + LastTail(path, ':');
      LastCutBack(host + "/" + LastHead(path, ':'), ':', LastTail(path, ':'));
    }
  }

  lemma {:induction false} SameLastSegment(host: string, path: string)
    ensures LastTail(host + "/" + path, '/') == LastTail(path, '/')
    decreases |path|
  {
    var s := host + "/" + path;
    if path == "" {
      assert s[|s| - 1] == '/';
    } else {
      assert s[..|s| - 1] == host + "/" + path[..|path| - 1];
      SameLastSegment(host, path[..|path| - 1]);
    }
  }

  /** The scanner's parser agrees with the cartographer's on every text whose registry is followed
      by a repository: same registry, same digest, same repository up to the implicit `library/`,
      and the same tag unless there is only a digest or the tag is a lone colon. */
  lemma ParsersAgree(text: string)
    requires Parse(text).repository != ""
    ensures var a, b := Parse(text), ParseTarget(text);
            a.registry == b.registry && a.digest == b.digest &&
            a.repository == (if ImplicitHub(text) && '/' !in b.repository then LIBRARY else "") + b.repository &&
            (!EmptyTag(text) ==> (a.tag == b.tag <==> a.tag != ""))
  {
    var front := Head(Strip(text), '@');
    ScannerSplit(text);
    RegistryAndPath(front);
    if SplitRegistry(front).0 == "" {
      SameHead(front);
    }
  }

  /** The scanner's first split is the cartographer's tag split of the whole front. */
  lemma ScannerSplit(text: string)
    ensures var (full, tag, digest) := SplitImageRef(text); var (repo, tag') := SplitTag(Head(Strip(text), '@'));
            full == repo && digest == Tail(Strip(text), '@') &&
            (!EmptyTag(text) ==> tag == if tag' == "" then "latest" else tag')
  {
    var front := Head(Strip(text), '@');
    LastColon(front);
    LastCut(front, ':');
  }

  /** Splitting off the tag before the registry gives the same three parts. */
  lemma RegistryAndPath(front: string)
    ensures var (host, path) := SplitRegistry(front); var (repo, tag) := SplitTag(path);
            var (full, tag') := SplitTag(front);
            tag == tag' &&
            (host == "" ==> full == repo) &&
            (host != "" ==> Head(full, '/') == host && Tail(full, '/') == repo && LooksLikeRegistry(host))
  {
    var (host, path) := SplitRegistry(front);
    Cut(front, '/');
    if host != "" {
      assert front == host + "/" + path;
      TagAfterRegistry(host, path);
      var repo := SplitTag(path).0;
      assert host + "/" + repo == host + ['/'] + repo;
      CutBack(host, '/', repo);
    }
  }

  /** Without a registry host in front, cutting off the tag does not make one appear. */
  lemma SameHead(front: string)
    requires SplitRegistry(front).0 == ""
    ensures var full := SplitTag(front).0;
            Tail(full, '/') != "" ==> !LooksLikeRegistry(Head(full, '/'))
  {
    var full := SplitTag(front).0;
    Cut(full, '/');
    if ':' in front && '/' !in LastTail(front, ':') && '/' in full {
      LastCut(front, ':');
      var rest := Tail(full, '/') + ":" + LastTail(front, ':');
      assert front == Head(full, '/') + ['/'] + rest;
      CutBack(Head(full, '/'), '/', rest);
    }
  }

  /** And only there: a registry with nothing behind it is read differently. */
  lemma ParsersDisagreeOnBareRegistry(text: string)
    requires Parse(text).repository == ""
    ensures Parse(text).registry != ParseTarget(text).registry || ParseTarget(text).repository != ""
  {
    var front := Head(Strip(text), '@');
    var (host, path) := SplitRegistry(front);
    Cut(front, '/');
    assert front == host + "/" + path;
    TagAfterRegistry(host, path);
    LastColon(front);
  }
}
