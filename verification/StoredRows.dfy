/** What an ingest leaves in the tables, said of the payload and the rows alone. */
module StoredRows {
  import opened Wrappers
  import opened UpsertTable
  import opened Inventory
  import opened Text

  // ---- what references name --------------------------------------------------------------------

  /** The id a reference stands for: of the payload's element with that reference, or itself. */
  function Target(value: string, refs: map<string, string>): string {
    if value in refs then refs[value] else value
  }

  ghost predicate LastWithRef(assets: seq<Asset>, i: nat, ref: string) {
    i < |assets| && assets[i].ref == ref && forall j :: i < j < |assets| ==> assets[j].ref != ref
  }

  /** A reference is resolved exactly when some asset has it, and to the id of the last one that does. */
  lemma {:induction false} RefsAreLast(assets: seq<Asset>, stable: StableId, ref: string)
    ensures ref in AssetRefs(assets, stable) <==> ref != "" && exists i: nat :: LastWithRef(assets, i, ref)
    ensures forall i: nat :: ref != "" && LastWithRef(assets, i, ref) ==>
              ref in AssetRefs(assets, stable) && AssetRefs(assets, stable)[ref] == AssetId(assets[i], stable)
  {
    if assets != [] {
      var before, last := assets[..|assets| - 1], |assets| - 1;
      RefsAreLast(before, stable, ref);
      if assets[last].ref == ref {
        assert LastWithRef(assets, last, ref);
      } else {
        forall i: nat
          ensures LastWithRef(assets, i, ref) <==> LastWithRef(before, i, ref)
        {
          if i < last {
            assert before[i] == assets[i];
          }
        }
      }
    }
  }

  lemma {:induction false} ComponentRefsAreLast(cs: seq<Component>, stable: StableId, ref: string)
    ensures ref in ComponentRefs(cs, stable) <==> ref != "" && exists i: nat :: LastComponentWithRef(cs, i, ref)
    ensures forall i: nat :: ref != "" && LastComponentWithRef(cs, i, ref) ==>
              ref in ComponentRefs(cs, stable) && ComponentRefs(cs, stable)[ref] == ComponentId(cs[i], stable)
  {
    if cs != [] {
      var before, last := cs[..|cs| - 1], |cs| - 1;
      ComponentRefsAreLast(before, stable, ref);
      if cs[last].ref == ref {
        assert LastComponentWithRef(cs, last, ref);
      } else {
        forall i: nat
          ensures LastComponentWithRef(cs, i, ref) <==> LastComponentWithRef(before, i, ref)
        {
          if i < last {
            assert before[i] == cs[i];
          }
        }
      }
    }
  }

  ghost predicate LastComponentWithRef(cs: seq<Component>, i: nat, ref: string) {
    i < |cs| && cs[i].ref == ref && forall j :: i < j < |cs| ==> cs[j].ref != ref
  }

  // ---- elements of a payload with a property -------------------------------------------------------

  predicate AnyOf<T>(xs: seq<T>, has: T -> bool) {
    exists i :: 0 <= i < |xs| && has(xs[i])
  }

  predicate IsLastOf<T>(xs: seq<T>, i: nat, has: T -> bool) {
    i < |xs| && has(xs[i]) && !AnyOf(xs[i + 1..], has)
  }

  predicate IsFirstOf<T>(xs: seq<T>, i: nat, has: T -> bool) {
    i < |xs| && has(xs[i]) && !AnyOf(xs[..i], has)
  }

  lemma {:induction false} FirstExists<T>(xs: seq<T>, has: T -> bool) returns (i: nat)
    requires AnyOf(xs, has)
    ensures IsFirstOf(xs, i, has)
  {
    var k :| 0 <= k < |xs| && has(xs[k]);
    if AnyOf(xs[..k], has) {
      i := FirstExists(xs[..k], has);
      assert xs[..k][..i] == xs[..i];
    } else {
      i := k;
    }
  }

  // ---- what a table shows afterwards -----------------------------------------------------------

  /** A row exactly for the ids that were stored or are pushed; others stay as they are, and known rows
      keep what they keep. */
  ghost predicate RowStored<In, Row(!new)>(
      m: map<string, Row>, m': map<string, Row>, xs: seq<In>, has: In -> bool, keeps: (Row, Row) -> bool, id: string)
  {
    && (id in m' <==> id in m || AnyOf(xs, has))
    && (id in m && !AnyOf(xs, has) ==> m'[id] == m[id])
    && (id in m ==> keeps(m'[id], m[id]))
  }

  /** The row shows the last element with its id, and a new one begins as the first. */
  ghost predicate RowShows<In, Row(!new)>(
      m: map<string, Row>, m': map<string, Row>, xs: seq<In>, has: In -> bool,
      shows: (Row, In) -> bool, begins: (Row, In) -> bool, id: string, i: nat)
  {
    && (IsLastOf(xs, i, has) ==> id in m' && shows(m'[id], xs[i]))
    && (id !in m && IsFirstOf(xs, i, has) ==> id in m' && begins(m'[id], xs[i]))
  }

  /** A table after the elements were pushed. */
  ghost predicate RowsStored<In(!new), Row(!new)>(
      m: map<string, Row>, m': map<string, Row>, xs: seq<In>, withId: string -> In -> bool,
      shows: (Row, In) -> bool, keeps: (Row, Row) -> bool, begins: (Row, In) -> bool)
  {
    && (forall id :: RowStored(m, m', xs, withId(id), keeps, id))
    && (forall id, i: nat :: RowShows(m, m', xs, withId(id), shows, begins, id, i))
  }

  /** The elements with the id are those that ask for an operation on it. */
  ghost predicate Same<In(!new), Op, Row>(rules: Rules<Op, Row>, f: In -> Option<Op>, k: string, has: In -> bool) {
    forall x :: has(x) <==> Asks(rules, f, x, k)
  }

  lemma AnyAsks<In(!new), Op, Row>(rules: Rules<Op, Row>, f: In -> Option<Op>, xs: seq<In>, k: string, has: In -> bool)
    requires Same(rules, f, k, has)
    ensures AnyOf(xs, has) <==> SomeAsks(rules, f, xs, k)
  {
    if AnyOf(xs, has) {
      var i :| 0 <= i < |xs| && has(xs[i]);
      assert Asks(rules, f, xs[i], k);
    }
    if SomeAsks(rules, f, xs, k) {
      var i :| 0 <= i < |xs| && Asks(rules, f, xs[i], k);
      assert has(xs[i]);
    }
  }

  lemma EndsAsk<In(!new), Op, Row>(
      rules: Rules<Op, Row>, f: In -> Option<Op>, xs: seq<In>, k: string, has: In -> bool, i: nat)
    requires Same(rules, f, k, has)
    ensures IsLastOf(xs, i, has) ==> LastAsks(rules, f, xs, i, k)
    ensures IsFirstOf(xs, i, has) ==> FirstAsks(rules, f, xs, i, k)
  {
    if i < |xs| {
      AnyAsks(rules, f, xs[i + 1..], k, has);
      AnyAsks(rules, f, xs[..i], k, has);
    }
  }

  ghost predicate Fits<In(!new), Op(!new), Row(!new)>(
      rules: Rules<Op, Row>, f: In -> Option<Op>, withId: string -> In -> bool,
      shows: (Row, In) -> bool, keeps: (Row, Row) -> bool, begins: (Row, In) -> bool)
  {
    && Lawful(rules) && (forall id :: Same(rules, f, id, withId(id)))
    && (forall r, x :: f(x).Some? && rules.update(r, f(x).value) == r ==> shows(r, x))
    && (forall r :: keeps(r, r)) && (forall r, op, s :: keeps(r, s) ==> keeps(rules.update(r, op), s))
    && (forall r, x :: f(x).Some? && keeps(r, rules.insert(f(x).value)) ==> begins(r, x))
  }

  lemma RowsAreStored<In(!new), Op(!new), Row(!new)>(
      rules: Rules<Op, Row>, m: map<string, Row>, xs: seq<In>, f: In -> Option<Op>, withId: string -> In -> bool,
      shows: (Row, In) -> bool, keeps: (Row, Row) -> bool, begins: (Row, In) -> bool)
    requires Fits(rules, f, withId, shows, keeps, begins)
    ensures RowsStored(m, Run(rules, m, Chosen(xs, f)), xs, withId, shows, keeps, begins)
  {
    var m' := Run(rules, m, Chosen(xs, f));
    forall id
      ensures RowStored(m, m', xs, withId(id), keeps, id)
    {
      AnyAsks(rules, f, xs, id, withId(id));
      ChosenKeys(rules, m, xs, f, id);
      if id in m {
        ChosenKeepStored(rules, m, xs, f, id, keeps);
      }
    }
    forall id, i: nat
      ensures RowShows(m, m', xs, withId(id), shows, begins, id, i)
    {
      EndsAsk(rules, f, xs, id, withId(id), i);
      if IsLastOf(xs, i, withId(id)) {
        ChosenShowLast(rules, m, xs, f, i, id);
      }
      if id !in m && IsFirstOf(xs, i, withId(id)) {
        ChosenKeepFirst(rules, m, xs, f, i, id, keeps);
      }
    }
  }

  lemma {:induction false} AllChosen<T>(xs: seq<T>, f: T -> Option<T>)
    requires forall x :: f(x) == Some(x)
    ensures Chosen(xs, f) == xs
  {
    if xs != [] {
      AllChosen(xs[..|xs| - 1], f);
    }
  }

  function Given<T>(): T -> Option<T> {
    (x: T) => Some(x)
  }

  // ---- assets and components -------------------------------------------------------------------

  function AssetWith(stable: StableId): string -> Asset -> bool {
    (id: string) => (a: Asset) => AssetId(a, stable) == id
  }

  /** A push without a connector says nothing about it. */
  function ShowsAsset(connector: Option<string>): (AssetRow, Asset) -> bool {
    (r: AssetRow, a: Asset) =>
      r.kind == a.kind && r.provider == a.provider && r.externalId == ExternalId(a) && r.body == a.body &&
      r.displayName == (if a.displayName != "" then a.displayName else ExternalId(a)) &&
      (connector.Some? ==> r.connector == connector)
  }

  function KeepsConnector(connector: Option<string>): (AssetRow, AssetRow) -> bool {
    (r: AssetRow, s: AssetRow) => connector.None? ==> r.connector == s.connector
  }

  function HasConnector(connector: Option<string>): (AssetRow, Asset) -> bool {
    (r: AssetRow, a: Asset) => connector.None? ==> r.connector == None
  }

  ghost predicate AssetsStored(m: map<string, AssetRow>, m': map<string, AssetRow>, assets: seq<Asset>, env: Env) {
    RowsStored(m, m', assets, AssetWith(env.stable), ShowsAsset(env.connector), KeepsConnector(env.connector),
               HasConnector(env.connector))
  }

  lemma AssetsAreRows(m: map<string, AssetRow>, assets: seq<Asset>, env: Env, scanned: bool)
    ensures AssetsStored(m, Run(AssetRules(env.stable, env.connector, scanned), m, assets), assets, env)
  {
    var rules, f := AssetRules(env.stable, env.connector, scanned), Given<Asset>();
    AllChosen(assets, f);
    RulesAreLawful(env, scanned, {}, {});
    RowsAreStored(rules, m, assets, f, AssetWith(env.stable), ShowsAsset(env.connector), KeepsConnector(env.connector),
                  HasConnector(env.connector));
  }

  function ComponentWith(stable: StableId): string -> Component -> bool {
    (id: string) => (c: Component) => ComponentId(c, stable) == id
  }

  predicate ShowsComponent(r: ComponentRow, c: Component) {
    && r.purl == c.purl && r.cpe == c.cpe && r.name == c.name && r.version == c.version
    && r.ecosystem == c.ecosystem && r.body == c.body
  }

  predicate Anything<A, B>(a: A, b: B) {
    true
  }

  ghost predicate ComponentsStored(m: map<string, ComponentRow>, m': map<string, ComponentRow>, cs: seq<Component>, env: Env) {
    RowsStored(m, m', cs, ComponentWith(env.stable), ShowsComponent, Anything,
               Anything)
  }

  lemma ComponentsAreRows(m: map<string, ComponentRow>, cs: seq<Component>, env: Env)
    ensures ComponentsStored(m, Run(ComponentRules(env.stable), m, cs), cs, env)
  {
    AllChosen(cs, Given<Component>());
    RulesAreLawful(env, false, {}, {});
    RowsAreStored(ComponentRules(env.stable), m, cs, Given<Component>(), ComponentWith(env.stable), ShowsComponent,
                  Anything, Anything);
  }

  // ---- usages ----------------------------------------------------------------------------------

  /** The statement a usage asks for: none unless it names both an asset and a component. */
  function UsageAsked(assets: map<string, string>, components: map<string, string>, stable: StableId)
    : Usage -> Option<UsageOp>
  {
    (u: Usage) =>
      if u.asset == "" || u.component == "" then None
      else
        var asset, component := Target(u.asset, assets), Target(u.component, components);
        Some(UsageOp(UsageId(u, asset, component, stable),
                     UsageRow(asset, component, u.source, u.path, u.layer, u.body)))
  }

  function UsageId(u: Usage, asset: string, component: string, stable: StableId): string {
    if u.id != "" then u.id else stable("asset_component", [asset, component, u.source, u.path, u.layer])
  }

  lemma {:induction false} UsageOpsAreAsked(
      usages: seq<Usage>, assets: map<string, string>, components: map<string, string>, stable: StableId)
    ensures UsageOps(usages, assets, components, stable) == Chosen(usages, UsageAsked(assets, components, stable))
  {
    if usages != [] {
      UsageOpsAreAsked(usages[..|usages| - 1], assets, components, stable);
      var ops := UsageOps(usages[..|usages| - 1], assets, components, stable);
      assert ops + [] == ops;
    }
  }

  /** Names an asset and a component, under this id. */
  function UsageWith(assets: map<string, string>, components: map<string, string>, stable: StableId)
    : string -> Usage -> bool
  {
    (id: string) => (u: Usage) =>
      u.asset != "" && u.component != "" && id == UsageId(u, Target(u.asset, assets), Target(u.component, components), stable)
  }

  predicate ShowsUsage(r: UsageRow, u: Usage) {
    r.source == u.source && r.path == u.path && r.layer == u.layer && r.body == u.body
  }

  predicate KeepsUsageEnds(r: UsageRow, s: UsageRow) {
    r.asset == s.asset && r.component == s.component
  }

  function HasUsageEnds(assets: map<string, string>, components: map<string, string>): (UsageRow, Usage) -> bool {
    (r: UsageRow, u: Usage) => r.asset == Target(u.asset, assets) && r.component == Target(u.component, components)
  }

  /** The usages of a payload are stored: a row for every usage that names an asset and a component, and
      no other new row. A row shows source, path and layer of the last usage with its id; its ends are
      those of the row that was stored, or those the first usage with its id names. */
  ghost predicate UsagesStored(
      m: map<string, UsageRow>, m': map<string, UsageRow>, usages: seq<Usage>, assets: map<string, string>,
      components: map<string, string>, stable: StableId)
  {
    RowsStored(m, m', usages, UsageWith(assets, components, stable), ShowsUsage, KeepsUsageEnds,
               HasUsageEnds(assets, components))
  }

  lemma UsagesAreRows(
      m: map<string, UsageRow>, usages: seq<Usage>, assets: map<string, string>, components: map<string, string>,
      stable: StableId, a: set<string>, c: set<string>)
    ensures UsagesStored(m, Run(UsageRules(a, c), m, UsageOps(usages, assets, components, stable)), usages, assets,
                         components, stable)
  {
    UsageOpsAreAsked(usages, assets, components, stable);
    RowsAreStored(UsageRules(a, c), m, usages, UsageAsked(assets, components, stable),
                  UsageWith(assets, components, stable), ShowsUsage, KeepsUsageEnds, HasUsageEnds(assets, components));
  }

  // ---- usages keep their ends --------------------------------------------------------------------

  function UsageHash(r: UsageRow, stable: StableId): string {
    stable("asset_component", [r.asset, r.component, r.source, r.path, r.layer])
  }

  predicate ColonFree(r: UsageRow) {
    ':' !in r.asset && ':' !in r.component
  }

  lemma JoinedFive(a: string, b: string, c: string, d: string, e: string)
    ensures Joined([a, b, c, d, e]) == a + [':'] + (b + [':'] + Joined([c, d, e]))
  {
    assert [a, b, c, d, e][1..] == [b, c, d, e] && [b, c, d, e][1..] == [c, d, e];
  }

  lemma SameHeads(a: string, b: string, x: string, c: string, d: string, y: string)
    requires ':' !in a && ':' !in b && ':' !in c && ':' !in d
    requires a + [':'] + (b + [':'] + x) == c + [':'] + (d + [':'] + y)
    ensures a == c && b == d && x == y
  {
    CutBack(a, ':', b + [':'] + x);
    CutBack(c, ':', d + [':'] + y);
    CutBack(b, ':', x);
    CutBack(d, ':', y);
  }

  /** The id of a usage determines its asset and its component, if their ids have no colon. */
  lemma UsageEndsFromId(a: UsageRow, b: UsageRow, stable: StableId)
    requires HashesText(stable) && ColonFree(a) && ColonFree(b) && UsageHash(a, stable) == UsageHash(b, stable)
    ensures KeepsUsageEnds(a, b)
  {
    var x, y := Joined([a.source, a.path, a.layer]), Joined([b.source, b.path, b.layer]);
    JoinedFive(a.asset, a.component, a.source, a.path, a.layer);
    JoinedFive(b.asset, b.component, b.source, b.path, b.layer);
    SameHeads(a.asset, a.component, x, b.asset, b.component, y);
  }

  /** Every usage stands under the id of what it says. */
  ghost predicate TidyUsages(m: map<string, UsageRow>, stable: StableId) {
    forall id :: id in m ==> TidyUsage(id, m[id], stable)
  }

  predicate TidyUsage(id: string, r: UsageRow, stable: StableId) {
    id == UsageHash(r, stable) && ColonFree(r)
  }

  /** A usage without an id of its own, between an asset and a component whose ids have no colon. */
  predicate PlainUsage(u: Usage, assets: map<string, string>, components: map<string, string>) {
    u.id == "" && (u.asset != "" && u.component != "" ==>
                     ':' !in Target(u.asset, assets) && ':' !in Target(u.component, components))
  }

  lemma UsageStepKeepsTidy(m: map<string, UsageRow>, op: UsageOp, a: set<string>, c: set<string>, stable: StableId)
    requires HashesText(stable) && TidyUsages(m, stable) && TidyUsage(op.id, op.row, stable)
    ensures TidyUsages(Apply(UsageRules(a, c), m, op), stable)
  {
    var m' := Apply(UsageRules(a, c), m, op);
    if op.id in m {
      UsageEndsFromId(m[op.id], op.row, stable);
      assert m'[op.id] == op.row;
    }
    forall id | id in m'
      ensures TidyUsage(id, m'[id], stable)
    {
      if id != op.id {
        assert m'[id] == m[id];
      }
    }
  }

  lemma AskedIsTidy(u: Usage, assets: map<string, string>, components: map<string, string>, stable: StableId)
    requires PlainUsage(u, assets, components)
    ensures var asked := UsageAsked(assets, components, stable)(u);
            asked.Some? ==> TidyUsage(asked.value.id, asked.value.row, stable)
  {
  }

  /** Ingests keep every usage under the id of what it says. */
  lemma {:induction false} IngestKeepsUsagesTidy(
      m: map<string, UsageRow>, usages: seq<Usage>, assets: map<string, string>, components: map<string, string>,
      stable: StableId, a: set<string>, c: set<string>)
    requires HashesText(stable) && TidyUsages(m, stable)
    requires forall i :: 0 <= i < |usages| ==> PlainUsage(usages[i], assets, components)
    ensures TidyUsages(Run(UsageRules(a, c), m, Chosen(usages, UsageAsked(assets, components, stable))), stable)
  {
    if usages != [] {
      var f, before, last := UsageAsked(assets, components, stable), usages[..|usages| - 1], usages[|usages| - 1];
      IngestKeepsUsagesTidy(m, before, assets, components, stable, a, c);
      ChosenLast(UsageRules(a, c), m, usages, f);
      AskedIsTidy(last, assets, components, stable);
      if f(last).Some? {
        UsageStepKeepsTidy(Run(UsageRules(a, c), m, Chosen(before, f)), f(last).value, a, c, stable);
      }
    }
  }

  /** So each usage is stored as a row with exactly the asset and the component it names: no two usages
      share a row unless they agree on both, and no older row stands in the way. */
  lemma UsageKeepsItsEnds(t: Tables, p: Payload, env: Env, u: Usage)
    requires HashesText(env.stable) && TidyUsages(t.usages, env.stable) && Goes(t, PlanOf(t, p, env))
    requires var assets, components := AssetRefs(p.assets, env.stable), ComponentRefs(p.components, env.stable);
      forall i :: 0 <= i < |p.usages| ==> PlainUsage(p.usages[i], assets, components)
    requires u in p.usages && u.asset != "" && u.component != ""
    ensures var assets, components := AssetRefs(p.assets, env.stable), ComponentRefs(p.components, env.stable);
      var t', a, c := Ingested(t, p, env), Target(u.asset, assets), Target(u.component, components);
      var id := UsageHash(UsageRow(a, c, u.source, u.path, u.layer, u.body), env.stable);
      TidyUsages(t'.usages, env.stable) && id in t'.usages && t'.usages[id].asset == a && t'.usages[id].component == c
  {
    var assets, components := AssetRefs(p.assets, env.stable), ComponentRefs(p.components, env.stable);
    var plan, t' := PlanOf(t, p, env), Ingested(t, p, env);
    var row := UsageRow(Target(u.asset, assets), Target(u.component, components), u.source, u.path, u.layer, u.body);
    var id := UsageHash(row, env.stable);
    UsageOpsAreAsked(p.usages, assets, components, env.stable);
    IngestKeepsUsagesTidy(t.usages, p.usages, assets, components, env.stable, plan.assets.Keys, plan.components.Keys);
    var i :| 0 <= i < |p.usages| && p.usages[i] == u;
    UsagesAreRows(t.usages, p.usages, assets, components, env.stable, plan.assets.Keys, plan.components.Keys);
    var has := UsageWith(assets, components, env.stable)(id);
    assert has(p.usages[i]);
    assert RowStored(t.usages, t'.usages, p.usages, has, KeepsUsageEnds, id);
    assert TidyUsage(id, t'.usages[id], env.stable);
    UsageEndsFromId(t'.usages[id], row, env.stable);
  }

  // ---- relationships ---------------------------------------------------------------------------

  /** The row and id of a relationship that names both ends. */
  predicate LinkOf(op: RelationshipOp, r: Relationship, assets: map<string, string>, stable: StableId) {
    && r.source != "" && r.target != "" && op.row.source == Target(r.source, assets)
    && op.row.target == Target(r.target, assets) && op.row.body == r.body
    && op.row.kind == (if r.kind != "" then r.kind else "related_to")
    && op.id == (if r.id != "" then r.id else EndsId(op.row, stable))
  }

  lemma {:induction false} LinksAreOfPayload(rels: seq<Relationship>, assets: map<string, string>, stable: StableId, op: RelationshipOp)
    ensures op in RelationshipOps(rels, assets, stable) <==>
              exists i :: 0 <= i < |rels| && LinkOf(op, rels[i], assets, stable)
  {
    if rels != [] {
      var before, last := rels[..|rels| - 1], |rels| - 1;
      LinksAreOfPayload(before, assets, stable, op);
      assert forall i :: 0 <= i < |before| ==> before[i] == rels[i];
      OneLink(before, rels[last], assets, stable, op);
      if op in RelationshipOps(before, assets, stable) {
        var i :| 0 <= i < |before| && LinkOf(op, before[i], assets, stable);
        assert LinkOf(op, rels[i], assets, stable);
      }
      if i :| 0 <= i < |rels| && LinkOf(op, rels[i], assets, stable) && i != last {
        assert LinkOf(op, before[i], assets, stable);
      }
    }
  }

  lemma OneLink(before: seq<Relationship>, r: Relationship, assets: map<string, string>, stable: StableId, op: RelationshipOp)
    ensures op in RelationshipOps(before + [r], assets, stable) <==>
              op in RelationshipOps(before, assets, stable) || LinkOf(op, r, assets, stable)
  {
    assert (before + [r])[..|before|] == before;
  }

  /** The finder knows a stored asset for the reference, other than the image itself. */
  predicate Traced(ref: string, image: string, target: string, table: map<string, AssetRow>, find: Finder) {
    ref != "" && find(table, ref) == Some(target) && target != image
  }

  /** A container image is linked to what it was built from and to where it was discovered. */
  predicate ProvenanceOf(op: RelationshipOp, a: Asset, assets: map<string, string>, table: map<string, AssetRow>,
                         find: Finder, stable: StableId)
  {
    && a.kind == "container_image" && a.ref != "" && a.ref in assets && op.row.source == assets[a.ref]
    && op.id == EndsId(op.row, stable)
    && ((op.row.kind == "built_from" && Traced(a.sourceRepository, assets[a.ref], op.row.target, table, find)
         && op.row.body == "provenance " + a.sourceRepository)
        || (op.row.kind == "discovered_in" && Traced(a.discoveredIn, assets[a.ref], op.row.target, table, find)
            && op.row.body == "provenance " + a.discoveredIn))
  }

  lemma TracedLinks(op: RelationshipOp, image: string, ref: string, kind: string, table: map<string, AssetRow>,
                    find: Finder, stable: StableId)
    ensures op in ProvenanceLink(image, ref, kind, table, find, stable) <==>
              Traced(ref, image, op.row.target, table, find) && op.row.source == image && op.row.kind == kind &&
              op.row.body == "provenance " + ref && op.id == EndsId(op.row, stable)
  {
  }

  lemma OneProvenance(before: seq<Asset>, a: Asset, assets: map<string, string>, table: map<string, AssetRow>,
                      find: Finder, stable: StableId, op: RelationshipOp)
    ensures op in ProvenanceOps(before + [a], assets, table, find, stable) <==>
              op in ProvenanceOps(before, assets, table, find, stable) || ProvenanceOf(op, a, assets, table, find, stable)
  {
    assert (before + [a])[..|before|] == before;
    if a.ref in assets {
      TracedLinks(op, assets[a.ref], a.sourceRepository, "built_from", table, find, stable);
      TracedLinks(op, assets[a.ref], a.discoveredIn, "discovered_in", table, find, stable);
    }
  }

  lemma {:induction false} ProvenanceIsOfImages(
      xs: seq<Asset>, assets: map<string, string>, table: map<string, AssetRow>, find: Finder, stable: StableId,
      op: RelationshipOp)
    ensures op in ProvenanceOps(xs, assets, table, find, stable) <==>
              exists i :: 0 <= i < |xs| && ProvenanceOf(op, xs[i], assets, table, find, stable)
  {
    if xs != [] {
      var before, last := xs[..|xs| - 1], |xs| - 1;
      ProvenanceIsOfImages(before, assets, table, find, stable, op);
      assert xs == before + [xs[last]];
      OneProvenance(before, xs[last], assets, table, find, stable, op);
      if op in ProvenanceOps(before, assets, table, find, stable) {
        var i :| 0 <= i < |before| && ProvenanceOf(op, before[i], assets, table, find, stable);
        assert xs[i] == before[i];
      }
      if i :| 0 <= i < |xs| && ProvenanceOf(op, xs[i], assets, table, find, stable) && i != last {
        assert before[i] == xs[i];
      }
    }
  }

  /** A link the payload asks for, by a relationship or by the provenance of an image. */
  ghost predicate IsLink(op: RelationshipOp, p: Payload, assets: map<string, string>, table: map<string, AssetRow>, env: Env) {
    || (exists i :: 0 <= i < |p.relationships| && LinkOf(op, p.relationships[i], assets, env.stable))
    || (exists i :: 0 <= i < |p.assets| && ProvenanceOf(op, p.assets[i], assets, table, env.find, env.stable))
  }

  ghost predicate LinkStored(
      m: map<string, RelationshipRow>, m': map<string, RelationshipRow>, p: Payload, assets: map<string, string>,
      table: map<string, AssetRow>, env: Env, id: string)
  {
    && (id in m ==> id in m' && SameEnds(m'[id], m[id]))
    && (id in m' && id !in m ==> exists op :: IsLink(op, p, assets, table, env) && op.id == id && SameEnds(m'[id], op.row))
    && (forall op :: IsLink(op, p, assets, table, env) && op.id == id ==> id in m')
  }

  /** Every link is stored and no other new row; a row keeps its ends, and a new one has those of a link
      with its id. */
  ghost predicate LinksStored(
      m: map<string, RelationshipRow>, m': map<string, RelationshipRow>, p: Payload, assets: map<string, string>,
      table: map<string, AssetRow>, env: Env)
  {
    forall id :: LinkStored(m, m', p, assets, table, env, id)
  }

  lemma {:induction false} FirstIsOne(m: map<string, RelationshipRow>, ops: seq<RelationshipOp>, id: string)
    requires id !in m
    ensures var first := FirstFor(m, ops, id);
            if first.Some? then exists op :: op in ops && op.id == id && op.row == first.value
            else forall op :: op in ops ==> op.id != id
  {
    if ops != [] {
      var before, last := ops[..|ops| - 1], ops[|ops| - 1];
      FirstIsOne(m, before, id);
      assert ops == before + [last];
      if FirstFor(m, before, id).Some? {
        var op :| op in before && op.id == id && op.row == FirstFor(m, before, id).value;
        assert op in ops;
      } else if last.id == id {
        assert last in ops;
      }
    }
  }

  lemma LinksAreRows(t: Tables, p: Payload, env: Env, a: set<string>)
    ensures var assets, plan := AssetRefs(p.assets, env.stable), PlanOf(t, p, env);
      LinksStored(t.relationships, Run(RelationshipRules(a), t.relationships, plan.relationships), p, assets, plan.assets, env)
  {
    var assets, plan := AssetRefs(p.assets, env.stable), PlanOf(t, p, env);
    var m, ops, table := t.relationships, plan.relationships, plan.assets;
    var m' := Run(RelationshipRules(a), m, ops);
    forall op
      ensures op in ops <==> IsLink(op, p, assets, table, env)
    {
      LinksAreOfPayload(p.relationships, assets, env.stable, op);
      ProvenanceIsOfImages(p.assets, assets, table, env.find, env.stable, op);
    }
    forall id
      ensures LinkStored(m, m', p, assets, table, env, id)
    {
      EndsAreTheFirst(m, ops, a, id);
      if id !in m {
        FirstIsOne(m, ops, id);
      }
    }
  }

  // ---- findings --------------------------------------------------------------------------------

  /** What a finding refers to: the asset it names, and a component of the payload. */
  datatype Places = Places(asset: Finding -> Option<string>, component: Finding -> Option<string>)

  function PlacesOf(assets: map<string, string>, components: map<string, string>, purls: map<string, string>, keys: PurlKeys)
    : Places
  {
    Places((f: Finding) => if f.asset == "" then None else Some(Target(f.asset, assets)),
           (f: Finding) => ResolveComponent(f.component, components, purls, keys))
  }

  function TextOf(o: Option<string>): string {
    if o.Some? then o.value else ""
  }

  function FindingWith(at: Places, stable: StableId): string -> Finding -> bool {
    (id: string) => (f: Finding) =>
      id == if f.id != "" then f.id
            else stable("finding", [f.kind, TextOf(at.asset(f)), TextOf(at.component(f)), f.title])
  }

  function ShowsFinding(at: Places, connector: Option<string>): (FindingRow, Finding) -> bool {
    (r: FindingRow, f: Finding) =>
      r.title == f.title && r.asset == at.asset(f) && r.component == at.component(f) &&
      r.connector == connector && r.body == f.body
  }

  predicate KeepsKind(r: FindingRow, s: FindingRow) {
    r.kind == s.kind
  }

  predicate HasKind(r: FindingRow, f: Finding) {
    r.kind == f.kind
  }

  /** Every finding is stored and no other new row: a row shows the last finding with its id, and keeps
      the kind it was first stored with. */
  ghost predicate FindingsStored(
      m: map<string, FindingRow>, m': map<string, FindingRow>, findings: seq<Finding>, at: Places, env: Env)
  {
    RowsStored(m, m', findings, FindingWith(at, env.stable), ShowsFinding(at, env.connector), KeepsKind, HasKind)
  }

  function FindingAsked(at: Places, connector: Option<string>, stable: StableId): Finding -> Option<FindingOp> {
    (f: Finding) => Some(FindingOpOf(f, at.asset(f), at.component(f), connector, stable))
  }

  lemma {:induction false} FindingOpsAreAsked(
      findings: seq<Finding>, assets: map<string, string>, components: map<string, string>, purls: map<string, string>,
      keys: PurlKeys, connector: Option<string>, stable: StableId)
    ensures FindingOps(findings, assets, components, purls, connector, stable, keys)
         == Chosen(findings, FindingAsked(PlacesOf(assets, components, purls, keys), connector, stable))
  {
    if findings != [] {
      FindingOpsAreAsked(findings[..|findings| - 1], assets, components, purls, keys, connector, stable);
    }
  }

  lemma FindingsAreRows(m: map<string, FindingRow>, findings: seq<Finding>, at: Places, env: Env, a: set<string>, c: set<string>)
    ensures FindingsStored(m, Run(FindingRules(a, c), m, Chosen(findings, FindingAsked(at, env.connector, env.stable))),
                           findings, at, env)
  {
    RowsAreStored(FindingRules(a, c), m, findings, FindingAsked(at, env.connector, env.stable),
                  FindingWith(at, env.stable), ShowsFinding(at, env.connector), KeepsKind, HasKind);
  }

  // ---- the whole ingest ------------------------------------------------------------------------

  /** What the tables hold after a payload went through. */
  ghost predicate Stores(t: Tables, t': Tables, p: Payload, env: Env) {
    var assets, components := AssetRefs(p.assets, env.stable), ComponentRefs(p.components, env.stable);
    var at := PlacesOf(assets, components, PurlIndex(p.components, env.stable, env.keys), env.keys);
    && AssetsStored(t.assets, t'.assets, p.assets, env)
    && ComponentsStored(t.components, t'.components, p.components, env)
    && UsagesStored(t.usages, t'.usages, p.usages, assets, components, env.stable)
    && LinksStored(t.relationships, t'.relationships, p, assets, t'.assets, env)
    && FindingsStored(t.findings, t'.findings, p.findings, at, env)
  }

  /** A payload that goes through is stored: its assets, components, usages, links and findings, each as
      the row it describes, and nothing else. */
  lemma IngestStores(t: Tables, p: Payload, env: Env)
    requires Goes(t, PlanOf(t, p, env))
    ensures Stores(t, Ingested(t, p, env), p, env)
  {
    var plan := PlanOf(t, p, env);
    var assets, components := AssetRefs(p.assets, env.stable), ComponentRefs(p.components, env.stable);
    var at := PlacesOf(assets, components, PurlIndex(p.components, env.stable, env.keys), env.keys);
    var a, c := plan.assets.Keys, plan.components.Keys;
    AssetsAreRows(t.assets, p.assets, env, !p.discoveryOnly);
    ComponentsAreRows(t.components, p.components, env);
    UsagesAreRows(t.usages, p.usages, assets, components, env.stable, a, c);
    LinksAreRows(t, p, env, a);
    FindingOpsAreAsked(p.findings, assets, components, PurlIndex(p.components, env.stable, env.keys), env.keys,
                       env.connector, env.stable);
    FindingsAreRows(t.findings, p.findings, at, env, a, c);
  }
}
