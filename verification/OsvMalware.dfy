/** The OSV malicious-package client over its feed, its matcher and its batched query. */
module OsvMalware {
  import opened Wrappers
  import opened Text
  import opened FeedScan
  import IndexedJoin
  import BatchedQuery

  // ---- ecosystems --------------------------------------------------------------------------

  const TO_CANON: map<string, string> := map[
    "npm" := "npm", "pypi" := "pypi", "go" := "golang", "golang" := "golang",
    "maven" := "maven", "rubygems" := "gem", "gem" := "gem", "crates.io" := "cargo",
    "cargo" := "cargo", "packagist" := "composer", "composer" := "composer",
    "nuget" := "nuget", "pub" := "pub", "hex" := "hex", "swifturl" := "swift"]

  const TO_OSV: map<string, string> := map[
    "npm" := "npm", "pypi" := "PyPI", "python" := "PyPI", "golang" := "Go", "go" := "Go",
    "gem" := "RubyGems", "rubygems" := "RubyGems", "cargo" := "crates.io",
    "composer" := "Packagist", "php" := "Packagist", "maven" := "Maven", "java" := "Maven",
    "nuget" := "NuGet", "hex" := "Hex", "pub" := "Pub"]

  function Lower(s: string): string {
    seq(|s|, i requires 0 <= i < |s| => if 'A' <= s[i] <= 'Z' then s[i] - 'A' + 'a' else s[i])
  }

  /** The name without case, surrounding space, and what follows a colon. */
  function Spelled(eco: string): string {
    Strip(Head(Lower(Strip(eco)), ':'))
  }

  function Canon(e: string): string {
    if e in TO_CANON then TO_CANON[e] else e
  }

  function NormalizeEcosystem(eco: string): string {
    Canon(Spelled(eco))
  }

  predicate EcosystemsMatch(a: string, b: string) {
    var na, nb := NormalizeEcosystem(a), NormalizeEcosystem(b);
    na == "" || nb == "" || na == nb
  }

  function Queried(e: string): string {
    if e in TO_OSV then TO_OSV[e] else ""
  }

  function OsvEcosystem(eco: string): string {
    Queried(NormalizeEcosystem(eco))
  }

  /** A second name for an ecosystem. */
  predicate AliasOf(a: string, b: string) {
    || (a == "go" && b == "golang") || (a == "rubygems" && b == "gem") || (a == "crates.io" && b == "cargo")
    || (a == "packagist" && b == "composer") || (a == "swifturl" && b == "swift")
  }

  predicate HasAlias(e: string) {
    e == "go" || e == "rubygems" || e == "crates.io" || e == "packagist" || e == "swifturl"
  }

  lemma CanonIsAlias(e: string)
    ensures if HasAlias(e) then AliasOf(e, Canon(e)) else Canon(e) == e
  {
  }

  lemma AliasIsFunction(a: string, b: string, c: string)
    requires AliasOf(a, c)
    ensures HasAlias(a) && !HasAlias(c) && (AliasOf(b, c) ==> a == b) && (AliasOf(a, b) ==> b == c) && c != ""
  {
    var n := |c|;
    assert c[0] == 'g' || c[0] == 'c' || c[0] == 's';
  }

  lemma EmptyIsItself(e: string)
    ensures Canon(e) == "" <==> e == ""
  {
    CanonIsAlias(e);
    if HasAlias(e) {
      AliasIsFunction(e, e, Canon(e));
    }
  }

  /** Two named ecosystems meet exactly when their names are the same or one is an alias of the other. */
  lemma CanonsMeetIff(a: string, b: string)
    ensures Canon(a) == Canon(b) <==> a == b || AliasOf(a, b) || AliasOf(b, a)
  {
    CanonIsAlias(a);
    CanonIsAlias(b);
    if HasAlias(a) {
      AliasIsFunction(a, b, Canon(a));
    }
    if HasAlias(b) {
      AliasIsFunction(b, a, Canon(b));
    }
    if AliasOf(a, b) {
      AliasIsFunction(a, Canon(a), b);
    }
    if AliasOf(b, a) {
      AliasIsFunction(b, Canon(b), a);
    }
  }

  lemma EcosystemsMeetIff(a: string, b: string)
    ensures var x, y := Spelled(a), Spelled(b);
            EcosystemsMatch(a, b) <==> x == "" || y == "" || x == y || AliasOf(x, y) || AliasOf(y, x)
  {
    EmptyIsItself(Spelled(a));
    EmptyIsItself(Spelled(b));
    CanonsMeetIff(Spelled(a), Spelled(b));
  }

  lemma LowerKeeps(s: string)
    ensures |Lower(s)| == |s| && (':' in Lower(s) ==> ':' in s) && (Trimmed(s) ==> Trimmed(Lower(s)))
  {
    forall k | 0 <= k < |s|
      ensures (IsSpace(Lower(s)[k]) ==> IsSpace(s[k])) && (Lower(s)[k] == ':' ==> s[k] == ':')
    {
    }
  }

  lemma LowerJoined(a: string, b: string)
    ensures Lower(a + b) == Lower(a) + Lower(b)
  {
  }

  lemma HeadOfLowered(name: string, suffix: string)
    requires ':' !in name && (suffix != "" ==> suffix[0] == ':')
    ensures Head(Lower(name + suffix), ':') == Lower(name)
  {
    LowerKeeps(name);
    LowerJoined(name, suffix);
    if suffix == "" {
      assert Lower(name) + Lower(suffix) == Lower(name);
      Cut(Lower(name), ':');
    } else {
      var more := Lower(suffix)[1..];
      assert Lower(name) + Lower(suffix) == Lower(name) + [':'] + more;
      CutBack(Lower(name), ':', more);
    }
  }

  /** Letter case, white space, and what stands behind a colon make no difference. */
  lemma SpellingIsIgnored(front: string, name: string, gap: string, suffix: string, back: string)
    requires (forall c :: c in front ==> IsSpace(c)) && (forall c :: c in back ==> IsSpace(c))
    requires (forall c :: c in gap ==> IsSpace(c)) && (suffix == "" ==> gap == "") && (suffix != "" ==> suffix[0] == ':')
    requires ':' !in name && name != "" && Trimmed(name) && Trimmed(name + gap + suffix)
    ensures Spelled(front + (name + gap + suffix) + back) == Lower(name)
  {
    StripPadded(front, name + gap + suffix, back, IsSpace);
    SpelledInside(name, gap, suffix);
  }

  lemma SpelledInside(name: string, gap: string, suffix: string)
    requires (forall c :: c in gap ==> IsSpace(c)) && (suffix != "" ==> suffix[0] == ':')
    requires ':' !in name && name != "" && Trimmed(name)
    ensures Strip(Head(Lower(name + gap + suffix), ':')) == Lower(name)
  {
    assert ':' !in gap;
    HeadOfLowered(name + gap, suffix);
    LowerJoined(name, gap);
    StripLowered(name, gap);
  }

  lemma StripLowered(name: string, gap: string)
    requires (forall c :: c in gap ==> IsSpace(c)) && name != "" && Trimmed(name)
    ensures Strip(Lower(name) + Lower(gap)) == Lower(name)
  {
    LowerKeeps(name);
    LowerSpaces(gap);
    assert "" + Lower(name) == Lower(name);
    StripPadded("", Lower(name), Lower(gap), IsSpace);
  }

  lemma LowerSpaces(gap: string)
    requires forall c :: c in gap ==> IsSpace(c)
    ensures forall c :: c in Lower(gap) ==> IsSpace(c)
  {
    forall k | 0 <= k < |gap|
      ensures IsSpace(Lower(gap)[k])
    {
      assert gap[k] in gap;
    }
  }

  /** The same letters, upper or lower case. */
  predicate SameButCase(a: string, b: string) {
    |a| == |b| && forall k :: 0 <= k < |a| ==>
      || a[k] == b[k]
      || ('A' <= a[k] <= 'Z' && b[k] == a[k] - 'A' + 'a')
      || ('A' <= b[k] <= 'Z' && a[k] == b[k] - 'A' + 'a')
  }

  lemma LowerIff(a: string, b: string)
    ensures Lower(a) == Lower(b) <==> SameButCase(a, b)
  {
    if Lower(a) == Lower(b) {
      forall k | 0 <= k < |a|
        ensures a[k] == b[k] || ('A' <= a[k] <= 'Z' && b[k] == a[k] - 'A' + 'a') || ('A' <= b[k] <= 'Z' && a[k] == b[k] - 'A' + 'a')
      {
        assert Lower(a)[k] == Lower(b)[k];
      }
    }
  }

  lemma SpelledAsGiven(name: string)
    requires ':' !in name && Trimmed(name) && name != ""
    ensures Spelled(name) == Lower(name)
  {
    assert "" + (name + "" + "") + "" == name && name + "" + "" == name;
    SpellingIsIgnored("", name, "", "", "");
  }

  /** Two names meet exactly when, apart from case, they are the same or one is an alias of the other. */
  lemma NamesMeetIff(a: string, b: string)
    requires ':' !in a && Trimmed(a) && a != "" && ':' !in b && Trimmed(b) && b != ""
    ensures var x, y := Lower(a), Lower(b);
            EcosystemsMatch(a, b) <==> SameButCase(a, b) || AliasOf(x, y) || AliasOf(y, x)
  {
    LowerIff(a, b);
    SpelledAsGiven(a);
    SpelledAsGiven(b);
    EcosystemsMeetIff(a, b);
  }

  /** The service's label for an ecosystem. */
  predicate LabelFor(osvName: string, e: string) {
    || (osvName == "npm" && e == "npm") || (osvName == "PyPI" && (e == "pypi" || e == "python"))
    || (osvName == "Go" && (e == "go" || e == "golang")) || (osvName == "RubyGems" && (e == "gem" || e == "rubygems"))
    || (osvName == "crates.io" && (e == "cargo" || e == "crates.io"))
    || (osvName == "Packagist" && (e == "composer" || e == "packagist" || e == "php"))
    || (osvName == "Maven" && (e == "maven" || e == "java")) || (osvName == "NuGet" && e == "nuget")
    || (osvName == "Hex" && e == "hex") || (osvName == "Pub" && e == "pub")
  }

  lemma LabelOfAlias(e: string, osvName: string)
    requires LabelFor(osvName, Canon(e))
    ensures LabelFor(osvName, e)
  {
    CanonIsAlias(e);
  }

  lemma LabelIsQueried(e: string, osvName: string)
    requires LabelFor(osvName, e)
    ensures Queried(Canon(e)) == osvName
  {
    CanonIsAlias(e);
  }

  lemma QueriedIsLabel(e: string)
    ensures Queried(e) != "" ==> LabelFor(Queried(e), e)
  {
  }

  lemma LabelIff(eco: string, osvName: string)
    requires osvName != ""
    ensures OsvEcosystem(eco) == osvName <==> LabelFor(osvName, Spelled(eco))
  {
    QueriedIsLabel(Canon(Spelled(eco)));
    if LabelFor(osvName, Canon(Spelled(eco))) {
      LabelOfAlias(Spelled(eco), osvName);
    }
    if LabelFor(osvName, Spelled(eco)) {
      LabelIsQueried(Spelled(eco), osvName);
    }
  }

  // ---- the matcher -------------------------------------------------------------------------

  datatype Spec = Spec(
    advisoryId: string, packageName: string, ecosystem: string, versions: set<string>, allVersions: bool,
    url: string, sources: seq<string>)

  datatype Component = Component(
    id: Option<string>, name: Option<string>, version: Option<string>, ecosystem: Option<string>,
    purl: Option<string>)

  datatype Hit = Hit(
    advisoryId: string, url: string, sources: seq<string>, package: string, version: string,
    ecosystem: string, componentId: Option<string>)

  /** `value or ""`. */
  function OrEmpty(o: Option<string>): string {
    if o.Some? then o.value else ""
  }

  /** `MaliciousSpec.matches`. */
  predicate Matches(spec: Spec, name: string, version: string, ecosystem: string) {
    && Strip(name) == spec.packageName
    && EcosystemsMatch(ecosystem, spec.ecosystem)
    && (spec.allVersions || Strip(version) in spec.versions)
  }

  function NameOf(c: Component): string {
    Strip(OrEmpty(c.name))
  }

  predicate MatchesComponent(spec: Spec, c: Component) {
    Matches(spec, NameOf(c), Strip(OrEmpty(c.version)), OrEmpty(c.ecosystem))
  }

  function HitOf(spec: Spec, c: Component): Hit {
    Hit(spec.advisoryId, spec.url, spec.sources, NameOf(c), Strip(OrEmpty(c.version)),
        if OrEmpty(c.ecosystem) != "" then OrEmpty(c.ecosystem) else spec.ecosystem, c.id)
  }

  lemma StripTwice(s: string)
    ensures Strip(Strip(s)) == Strip(s)
  {
    StripIsTrimmed(s, IsSpace);
    StripTrimmed(Strip(s), IsSpace);
  }

  /** Stripping before the test changes nothing, and a spec that matches carries the component's
      stripped name, so the index finds it. */
  lemma NameDecides(spec: Spec, c: Component)
    ensures MatchesComponent(spec, c) <==>
              Matches(spec, OrEmpty(c.name), OrEmpty(c.version), OrEmpty(c.ecosystem))
    ensures MatchesComponent(spec, c) ==> spec.packageName == NameOf(c)
  {
    StripTwice(OrEmpty(c.name));
    StripTwice(OrEmpty(c.version));
  }

  /** The text a field holds, without the white space around it. */
  predicate Says(field: Option<string>, text: string) {
    match field case None => text == "" case Some(t) => Strip(t) == text
  }

  /** The advisory is about this version of this package, and about its ecosystem as far as both are known. */
  ghost predicate Affects(s: Spec, c: Component) {
    && Says(c.name, s.packageName)
    && (s.allVersions || exists v :: v in s.versions && Says(c.version, v))
    && (match c.ecosystem case None => true case Some(e) => EcosystemsMatch(e, s.ecosystem))
  }

  /** The hit says which advisory affects which component. */
  predicate Shows(h: Hit, s: Spec, c: Component) {
    && h.advisoryId == s.advisoryId && h.url == s.url && h.sources == s.sources
    && h.componentId == c.id && h.package == s.packageName && Says(c.version, h.version)
    && h.ecosystem == (match c.ecosystem case None => s.ecosystem case Some(e) => if e == "" then s.ecosystem else e)
  }

  /** One hit for every advisory and component it affects, and no other: component by component, and
      advisory by advisory for each. */
  ghost predicate ListsAffected(hits: seq<Hit>, pairs: seq<(nat, nat)>, specs: seq<Spec>, components: seq<Component>) {
    && IndexedJoin.InOrder(pairs)
    && (forall a: nat, b: nat :: (a, b) in pairs <==> a < |specs| && b < |components| && Affects(specs[a], components[b]))
    && |hits| == |pairs|
    && forall k :: 0 <= k < |hits| ==>
         pairs[k].0 < |specs| && pairs[k].1 < |components| && Shows(hits[k], specs[pairs[k].0], components[pairs[k].1])
  }

  lemma SaysIff(field: Option<string>, text: string)
    ensures Says(field, text) <==> Strip(OrEmpty(field)) == text
  {
    assert Strip("") == "";
  }

  lemma VersionIff(s: Spec, c: Component)
    ensures (exists v :: v in s.versions && Says(c.version, v)) <==> Strip(OrEmpty(c.version)) in s.versions
  {
    forall v {
      SaysIff(c.version, v);
    }
  }

  lemma EcosystemIff(c: Component, other: string)
    ensures (match c.ecosystem case None => true case Some(e) => EcosystemsMatch(e, other)) <==>
              EcosystemsMatch(OrEmpty(c.ecosystem), other)
  {
    UnknownMeetsAll(other);
  }

  lemma MatchIs(s: Spec, name: string, version: string, ecosystem: string)
    requires Strip(name) == name && Strip(version) == version
    ensures Matches(s, name, version, ecosystem) <==>
              name == s.packageName && EcosystemsMatch(ecosystem, s.ecosystem) && (s.allVersions || version in s.versions)
  {
  }

  lemma MatchesIffAffects(s: Spec, c: Component)
    ensures MatchesComponent(s, c) <==> Affects(s, c)
    ensures MatchesComponent(s, c) ==> Shows(HitOf(s, c), s, c)
  {
    StripTwice(OrEmpty(c.name));
    StripTwice(OrEmpty(c.version));
    MatchIs(s, NameOf(c), Strip(OrEmpty(c.version)), OrEmpty(c.ecosystem));
    SaysIff(c.name, s.packageName);
    VersionIff(s, c);
    SaysIff(c.version, Strip(OrEmpty(c.version)));
    EcosystemIff(c, s.ecosystem);
  }

  /** An ecosystem that is not named meets every other. */
  lemma UnknownMeetsAll(other: string)
    ensures EcosystemsMatch("", other)
  {
    EmptyIsItself(Spelled(""));
  }

  lemma HitsListAffected(
      specs: seq<Spec>, components: seq<Component>, matches: (Spec, Component) -> bool, hit: (Spec, Component) -> Hit)
    returns (pairs: seq<(nat, nat)>)
    requires forall s, c :: matches(s, c) <==> Affects(s, c)
    requires forall s, c :: matches(s, c) ==> Shows(hit(s, c), s, c)
    ensures ListsAffected(IndexedJoin.AllHits(specs, components, matches, hit), pairs, specs, components)
  {
    pairs := IndexedJoin.HitsAreThePairs(specs, components, |components|, matches, hit);
    assert components[..|components|] == components;
    forall k | 0 <= k < |pairs|
      ensures pairs[k].0 < |specs| && pairs[k].1 < |components| && matches(specs[pairs[k].0], components[pairs[k].1])
    {
      assert (pairs[k].0, pairs[k].1) in pairs;
    }
  }

  /** The name-indexed matcher returns the hit sequence of the nested loop over components and specs:
      one hit for each advisory and component it affects. */
  method MatchSpecsToComponents(specs: seq<Spec>, components: seq<Component>) returns (hits: seq<Hit>)
    ensures hits == IndexedJoin.AllHits(specs, components, MatchesComponent, HitOf)
    ensures exists pairs :: ListsAffected(hits, pairs, specs, components)
  {
    forall spec, c | MatchesComponent(spec, c)
      ensures spec.packageName == NameOf(c)
    {
      NameDecides(spec, c);
    }
    hits := IndexedJoin.Join(specs, components, MatchesComponent, HitOf, (s: Spec) => s.packageName, NameOf);
    forall s, c {
      MatchesIffAffects(s, c);
    }
    ghost var pairs := HitsListAffected(specs, components, MatchesComponent, HitOf);
  }

  // ---- the feed ----------------------------------------------------------------------------

  /** One line `timestamp,ecosystem/id`; anything else is skipped. */
  function ParseLine(line: string, parseIso: string -> Option<int>): Option<Row> {
    var l := Strip(line);
    if ',' !in l then None
    else
      var path := Strip(Tail(l, ','));
      if '/' !in path then None
      else
        var t := parseIso(Head(l, ','));
        if t.None? then None else Some(Row(t.value, Strip(Head(path, '/')), Strip(Tail(path, '/'))))
  }

  function FeedParser(parseIso: string -> Option<int>): string -> Option<Row> {
    line => ParseLine(line, parseIso)
  }

  lemma SplitJoined(a: string, c: char, b: string)
    requires c !in a
    ensures c in a + [c] + b && Head(a + [c] + b, c) == a && Tail(a + [c] + b, c) == b
  {
    assert (a + [c] + b)[|a|] == c;
    CutBack(a, c, b);
  }

  predicate Spaces(s: string) {
    forall c :: c in s ==> IsSpace(c)
  }

  lemma StripBetween(a: string, s: string, b: string)
    requires Spaces(a) && Spaces(b) && s != "" && Trimmed(s)
    ensures Strip(a + s + b) == s
  {
    StripPadded(a, s, b, IsSpace);
  }

  lemma StripFront(a: string, s: string)
    requires Spaces(a) && s != "" && Trimmed(s)
    ensures Strip(a + s) == s
  {
    assert a + s + "" == a + s;
    StripBetween(a, s, "");
  }

  lemma StripBack(s: string, b: string)
    requires Spaces(b) && s != "" && Trimmed(s)
    ensures Strip(s + b) == s
  {
    assert "" + s + b == s + b;
    StripBetween("", s, b);
  }

  lemma SlashedIsTrimmed(eco: string, b: string, c: string, id: string)
    requires eco != "" && id != "" && Trimmed(eco) && Trimmed(id)
    ensures var path := eco + b + ['/'] + (c + id); path != "" && Trimmed(path)
  {
    var path := eco + b + ['/'] + (c + id);
    assert path[0] == eco[0] && path[|path| - 1] == id[|id| - 1];
  }

  /** The part of a line behind its comma. */
  lemma PathReadsBack(a: string, eco: string, b: string, c: string, id: string)
    requires Spaces(a) && Spaces(b) && Spaces(c) && eco != "" && id != "" && Trimmed(eco) && Trimmed(id) && '/' !in eco
    ensures var path := Strip(a + (eco + b + ['/'] + (c + id)));
      '/' in path && Strip(Head(path, '/')) == eco && Strip(Tail(path, '/')) == id
  {
    SlashedIsTrimmed(eco, b, c, id);
    StripFront(a, eco + b + ['/'] + (c + id));
    assert '/' !in b;
    SplitJoined(eco + b, '/', c + id);
    StripBack(eco, b);
    StripFront(c, id);
  }

  /** A well-formed line of the feed is read as what it says, whatever spaces surround its parts. */
  lemma LineReadsBack(
      front: string, stamp: string, a: string, eco: string, b: string, c: string, id: string, back: string,
      parseIso: string -> Option<int>)
    requires Spaces(front) && Spaces(a) && Spaces(b) && Spaces(c) && Spaces(back)
    requires stamp != "" && eco != "" && id != "" && Trimmed(stamp) && Trimmed(eco) && Trimmed(id)
    requires ',' !in stamp && '/' !in eco && parseIso(stamp).Some?
    ensures ParseLine(front + (stamp + [','] + (a + (eco + b + ['/'] + (c + id)))) + back, parseIso)
         == Some(Row(parseIso(stamp).value, eco, id))
  {
    var path := a + (eco + b + ['/'] + (c + id));
    var line := stamp + [','] + path;
    assert line[0] == stamp[0] && line[|line| - 1] == id[|id| - 1];
    StripBetween(front, line, back);
    SplitJoined(stamp, ',', path);
    PathReadsBack(a, eco, b, c, id);
  }

  /** And a line without a comma, or without a slash behind it, is skipped. */
  lemma OtherLinesAreSkipped(line: string, parseIso: string -> Option<int>)
    ensures ',' !in line ==> ParseLine(line, parseIso) == None
    ensures '/' !in line ==> ParseLine(line, parseIso) == None
  {
    StripKeeps(line, IsSpace);
    if ',' in Strip(line) {
      Cut(Strip(line), ',');
      StripKeeps(Tail(Strip(line), ','), IsSpace);
    }
  }

  datatype Advisory = Advisory(withdrawn: bool, specs: seq<Spec>)

  predicate IsLive(record: Option<Advisory>) {
    record.Some? && !record.value.withdrawn
  }

  /** The advisories that can be fetched and are not withdrawn. */
  function Live(rows: seq<Row>, fetch: Row -> Option<Advisory>): seq<Advisory> {
    if rows == [] then []
    else
      var record := fetch(rows[|rows| - 1]);
      Live(rows[..|rows| - 1], fetch) + if IsLive(record) then [record.value] else []
  }

  function SpecsOf(advisories: seq<Advisory>): seq<Spec> {
    if advisories == [] then [] else SpecsOf(advisories[..|advisories| - 1]) + advisories[|advisories| - 1].specs
  }

  lemma OneMoreSpec(advisories: seq<Advisory>, a: Advisory)
    ensures SpecsOf(advisories + [a]) == SpecsOf(advisories) + a.specs
  {
    assert (advisories + [a])[..|advisories|] == advisories;
  }

  lemma OneMoreRow(rows: seq<Row>, i: nat, fetch: Row -> Option<Advisory>)
    requires i < |rows|
    ensures Live(rows[..i + 1], fetch) ==
            if IsLive(fetch(rows[i])) then Live(rows[..i], fetch) + [fetch(rows[i]).value] else Live(rows[..i], fetch)
  {
    assert rows[..i + 1][..i] == rows[..i];
  }

  /** The specs of a row's advisory, if it can be fetched and was not withdrawn. */
  predicate Contributes(r: Row, fetch: Row -> Option<Advisory>, s: Spec) {
    match fetch(r)
    case None => false
    case Some(advisory) => !advisory.withdrawn && s in advisory.specs
  }

  lemma {:induction false} SpecsAreLive(rows: seq<Row>, fetch: Row -> Option<Advisory>, s: Spec)
    ensures s in SpecsOf(Live(rows, fetch)) <==> exists r :: r in rows && Contributes(r, fetch, s)
  {
    if rows != [] {
      var before, last := rows[..|rows| - 1], rows[|rows| - 1];
      SpecsAreLive(before, fetch, s);
      assert rows == before + [last];
      if IsLive(fetch(last)) {
        assert Live(rows, fetch) == Live(before, fetch) + [fetch(last).value];
        OneMoreSpec(Live(before, fetch), fetch(last).value);
        assert Contributes(last, fetch, s) <==> s in fetch(last).value.specs;
      } else {
        assert Live(rows, fetch) == Live(before, fetch);
      }
      if r :| r in before && Contributes(r, fetch, s) {
        assert r in rows;
      }
    }
  }

  /** The second loop: every advisory is fetched, and the live ones are counted and parsed. */
  method FetchEach(rows: seq<Row>, fetch: Row -> Option<Advisory>) returns (specs: seq<Spec>, advisories: nat)
    ensures specs == SpecsOf(Live(rows, fetch)) && advisories == |Live(rows, fetch)|
    ensures forall s :: s in specs <==> exists r :: r in rows && Contributes(r, fetch, s)
  {
    specs, advisories := [], 0;
    for i := 0 to |rows|
      invariant specs == SpecsOf(Live(rows[..i], fetch)) && advisories == |Live(rows[..i], fetch)|
    {
      OneMoreRow(rows, i, fetch);
      var record := fetch(rows[i]);
      if record.None? || record.value.withdrawn {
        continue;
      }
      OneMoreSpec(Live(rows[..i], fetch), record.value);
      advisories := advisories + 1;
      specs := specs + record.value.specs;
    }
    assert rows[..|rows|] == rows;
    forall s
      ensures s in specs <==> exists r :: r in rows && Contributes(r, fetch, s)
    {
      SpecsAreLive(rows, fetch, s);
    }
  }

  /** Some row of the feed that is malicious and newer than the cutoff has the spec in its advisory. */
  ghost predicate Submits(rows: seq<Row>, cutoff: Option<int>, fetch: Row -> Option<Advisory>, s: Spec) {
    exists r :: r in rows && IsNew(r, cutoff) && Contributes(r, fetch, s)
  }

  lemma NewIsSubmitted(rows: seq<Row>, cutoff: Option<int>, fetch: Row -> Option<Advisory>, s: Spec)
    ensures Submits(rows, cutoff, fetch, s) <==> s in SpecsOf(Live(Recent(rows, cutoff), fetch))
  {
    SpecsAreLive(Recent(rows, cutoff), fetch, s);
    RecentIff(rows, cutoff);
    forall r
      ensures r in Recent(rows, cutoff) <==> r in rows && IsNew(r, cutoff)
    {
      assert r in multiset(Recent(rows, cutoff)) <==> r in Recent(rows, cutoff);
      assert r in multiset(rows) <==> r in rows;
    }
  }

  /** On a newest-first feed with room for it, exactly the specs of every malicious advisory newer
      than the cutoff that can be fetched and is not withdrawn, and how many of those there are. */
  method FetchRecentMalicious(
      lines: seq<string>, cutoff: Option<int>, limit: int, parseIso: string -> Option<int>,
      fetch: Row -> Option<Advisory>)
    returns (specs: seq<Spec>, advisories: nat)
    ensures var live := Live(Scanned(ParseLines(lines, FeedParser(parseIso)), cutoff, Room(limit)), fetch);
            specs == SpecsOf(live) && advisories == |live|
    ensures var rows := ParseLines(lines, FeedParser(parseIso));
            NewestFirst(rows) && |Recent(rows, cutoff)| <= Room(limit) ==>
              specs == SpecsOf(Live(Recent(rows, cutoff), fetch)) && advisories == |Live(Recent(rows, cutoff), fetch)|
    ensures forall s :: s in specs ==> Submits(ParseLines(lines, FeedParser(parseIso)), cutoff, fetch, s)
    ensures var rows := ParseLines(lines, FeedParser(parseIso));
            NewestFirst(rows) && |Recent(rows, cutoff)| <= Room(limit) ==>
              forall s :: Submits(rows, cutoff, fetch, s) ==> s in specs
  {
    var parse := FeedParser(parseIso);
    var rows := RecentRows(lines, cutoff, limit, parse);
    if NewestFirst(ParseLines(lines, parse)) {
      NothingMissedIffRoom(ParseLines(lines, parse), cutoff, Room(limit));
    }
    specs, advisories := FetchEach(rows, fetch);
    forall s | s in specs
      ensures Submits(ParseLines(lines, parse), cutoff, fetch, s)
    {
      var r :| r in rows && Contributes(r, fetch, s);
    }
    forall s {
      NewIsSubmitted(ParseLines(lines, parse), cutoff, fetch, s);
    }
  }

  // ---- the batched query ---------------------------------------------------------------------

  datatype Query = ByPurl(purl: string) | ByCoordinates(name: string, ecosystem: string, version: string)

  datatype Found = Found(name: string, version: string, ecosystem: string, purl: string, ids: seq<string>)

  /** The query for a component, if it can be asked about precisely. It is also its key. */
  function QueryOf(c: Component): Option<Query> {
    QueryFor(NameOf(c), Strip(OrEmpty(c.purl)), Strip(OrEmpty(c.version)), OsvEcosystem(OrEmpty(c.ecosystem)))
  }

  function QueryFor(name: string, purl: string, version: string, eco: string): Option<Query> {
    if purl != "" then Some(ByPurl(purl))
    else if name != "" && eco != "" then Some(ByCoordinates(name, eco, version))
    else None
  }

  function MalOnly(ids: seq<string>): seq<string> {
    if ids == [] then []
    else MalOnly(ids[..|ids| - 1]) + if StartsWith(ids[|ids| - 1], "MAL-") then [ids[|ids| - 1]] else []
  }

  function Report(c: Component, ids: seq<string>): seq<Found> {
    var mal := MalOnly(ids);
    if mal == [] then []
    else [Found(NameOf(c), Strip(OrEmpty(c.version)), OrEmpty(c.ecosystem), Strip(OrEmpty(c.purl)), mal)]
  }

  /** The package url is preferred; without one a component is asked about by name, version and a label
      the service knows for its ecosystem, and if it has no such label not at all. */
  predicate AsksFor(c: Component, q: Query) {
    Asks(q, Strip(OrEmpty(c.name)), Strip(OrEmpty(c.purl)), Strip(OrEmpty(c.version)), OsvEcosystem(OrEmpty(c.ecosystem)))
  }

  predicate Asks(q: Query, name: string, purl: string, version: string, osvName: string) {
    match q
    case ByPurl(p) => p != "" && p == purl
    case ByCoordinates(n, e, v) => purl == "" && n != "" && n == name && e != "" && e == osvName && v == version
  }

  predicate IsMal(id: string) {
    |id| >= 4 && id[..4] == "MAL-"
  }

  /** `mal` holds the malicious ids, as often as `ids` does, and nothing else. */
  ghost predicate MalOf(mal: seq<string>, ids: seq<string>) {
    forall id :: multiset(mal)[id] == if IsMal(id) then multiset(ids)[id] else 0
  }

  /** The report about a component whose query was answered with `ids`. */
  ghost predicate Tells(f: Found, c: Component, ids: seq<string>) {
    && f.ids != [] && MalOf(f.ids, ids) && f.name == Strip(OrEmpty(c.name)) && f.version == Strip(OrEmpty(c.version))
    && f.purl == Strip(OrEmpty(c.purl)) && f.ecosystem == OrEmpty(c.ecosystem)
  }

  ghost predicate HasMal(ids: seq<string>) {
    exists id :: id in ids && IsMal(id)
  }

  ghost predicate IsReport(
      f: Found, components: seq<Component>, answer: Query -> seq<string>, asks: (Component, Query) -> bool)
  {
    exists c, q :: c in components && asks(c, q) && Tells(f, c, answer(q))
  }

  ghost predicate IsReported(
      hits: seq<Found>, q: Query, components: seq<Component>, answer: Query -> seq<string>,
      asks: (Component, Query) -> bool)
  {
    exists f, c :: f in hits && c in components && asks(c, q) && Tells(f, c, answer(q))
  }

  /** Every report is about a component that was asked about, and no malicious id is kept back. */
  ghost predicate ReportsMalicious(
      hits: seq<Found>, components: seq<Component>, answer: Query -> seq<string>, asks: (Component, Query) -> bool)
  {
    && (forall f :: f in hits ==> IsReport(f, components, answer, asks))
    && (forall c, q :: c in components && asks(c, q) && HasMal(answer(q)) ==> IsReported(hits, q, components, answer, asks))
  }

  lemma QueryForAsks(name: string, purl: string, version: string, osvName: string, q: Query)
    ensures QueryFor(name, purl, version, osvName) == Some(q) <==> Asks(q, name, purl, version, osvName)
  {
  }

  lemma QueryIsAsked(c: Component, q: Query)
    ensures QueryOf(c) == Some(q) <==> AsksFor(c, q)
  {
    QueryForAsks(NameOf(c), Strip(OrEmpty(c.purl)), Strip(OrEmpty(c.version)), OsvEcosystem(OrEmpty(c.ecosystem)), q);
  }

  lemma {:induction false} MalOnlyIsMal(ids: seq<string>)
    ensures MalOf(MalOnly(ids), ids)
  {
    if ids != [] {
      var last := ids[|ids| - 1];
      MalOnlyIsMal(ids[..|ids| - 1]);
      assert ids == ids[..|ids| - 1] + [last];
      assert StartsWith(last, "MAL-") <==> IsMal(last);
    }
  }

  lemma ReportTells(c: Component, ids: seq<string>)
    ensures forall f :: f in Report(c, ids) ==> Tells(f, c, ids)
    ensures HasMal(ids) ==> Report(c, ids) != []
  {
    MalOnlyIsMal(ids);
    if id :| id in ids && IsMal(id) {
      assert multiset(MalOnly(ids))[id] > 0;
    }
  }

  lemma AnswersAreReported(
      components: seq<Component>, answer: Query -> seq<string>,
      key: Component -> Option<Query>, report: (Component, seq<string>) -> seq<Found>, asks: (Component, Query) -> bool)
    requires forall c, q :: key(c) == Some(q) <==> asks(c, q)
    requires forall c, ids, f :: f in report(c, ids) ==> Tells(f, c, ids)
    requires forall c, ids :: HasMal(ids) ==> report(c, ids) != []
    ensures ReportsMalicious(BatchedQuery.OneByOne(BatchedQuery.Distinct(components, key), answer, report), components, answer, asks)
  {
    var hits := BatchedQuery.OneByOne(BatchedQuery.Distinct(components, key), answer, report);
    forall f | f in hits
      ensures IsReport(f, components, answer, asks)
    {
      var c, q := BatchedQuery.ReportComesFrom(components, key, answer, report, f);
      assert asks(c, q) && Tells(f, c, answer(q));
    }
    forall c, q | c in components && asks(c, q) && HasMal(answer(q))
      ensures IsReported(hits, q, components, answer, asks)
    {
      var d := BatchedQuery.QueryIsReported(components, key, answer, report, c, q);
      var f := report(d, answer(q))[0];
      assert f in report(d, answer(q)) && Tells(f, d, answer(q));
    }
  }

  /** Deduplicated and batched, the query reports what one query per distinct key reports. */
  method QueryComponents(
      components: seq<Component>, post: seq<Query> -> seq<seq<string>>, batchSize: nat,
      ghost answer: Query -> seq<string>)
    returns (hits: seq<Found>)
    requires batchSize > 0 && BatchedQuery.Pointwise(post, answer)
    ensures hits == BatchedQuery.OneByOne(BatchedQuery.Distinct(components, QueryOf), answer, Report)
    ensures ReportsMalicious(hits, components, answer, AsksFor)
  {
    hits := BatchedQuery.QueryBatched(components, QueryOf, post, Report, batchSize, answer);
    forall c, q {
      QueryIsAsked(c, q);
    }
    forall c, ids {
      ReportTells(c, ids);
    }
    AnswersAreReported(components, answer, QueryOf, Report, AsksFor);
  }
}
