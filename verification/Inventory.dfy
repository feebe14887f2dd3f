/** Ingest: a payload of references becomes rows of the inventory tables, keyed by stable ids. */
module Inventory {
  import opened Wrappers
  import opened Text
  import opened UpsertTable

  // Empty strings stand for missing values. `body` gathers the columns every upsert overwrites and
  // nothing else reads; time stamps are left out. `stable` is `stable_id`.

  datatype Asset = Asset(
    ref: string, id: string, kind: string, provider: string, externalId: string, displayName: string, body: string,
    sourceRepository: string, discoveredIn: string)

  datatype Component = Component(
    ref: string, id: string, purl: string, cpe: string, name: string, version: string, ecosystem: string, body: string)

  datatype Usage = Usage(
    id: string, asset: string, component: string, source: string, path: string, layer: string, body: string)

  datatype Relationship = Relationship(id: string, source: string, kind: string, target: string, body: string)

  datatype Finding = Finding(id: string, kind: string, title: string, asset: string, component: string, body: string)

  datatype Payload = Payload(
    discoveryOnly: bool, assets: seq<Asset>, components: seq<Component>, usages: seq<Usage>,
    relationships: seq<Relationship>, findings: seq<Finding>)

  datatype AssetRow = AssetRow(
    kind: string, provider: string, externalId: string, displayName: string, connector: Option<string>,
    scanned: bool, body: string)

  datatype ComponentRow = ComponentRow(
    purl: string, cpe: string, name: string, version: string, ecosystem: string, body: string)

  datatype UsageRow = UsageRow(
    asset: string, component: string, source: string, path: string, layer: string, body: string)

  datatype RelationshipRow = RelationshipRow(source: string, kind: string, target: string, body: string)

  datatype FindingRow = FindingRow(
    kind: string, title: string, asset: Option<string>, component: Option<string>, connector: Option<string>,
    body: string)

  datatype Tables = Tables(
    assets: map<string, AssetRow>, components: map<string, ComponentRow>, usages: map<string, UsageRow>,
    relationships: map<string, RelationshipRow>, findings: map<string, FindingRow>)

  type StableId = (string, seq<string>) -> string

  /** `SELECT id FROM assets WHERE external_id = ? OR display_name = ? LIMIT 1`, any such row. */
  type Finder = (map<string, AssetRow>, string) -> Option<string>

  ghost predicate Sound(find: Finder) {
    forall assets: map<string, AssetRow>, ref: string :: FindsStored(find, assets, ref)
  }

  predicate FindsStored(find: Finder, assets: map<string, AssetRow>, ref: string) {
    match find(assets, ref)
    case None => true
    case Some(id) => id in assets && (assets[id].externalId == ref || assets[id].displayName == ref)
  }

  function Or(a: string, b: string): string {
    if a != "" then a else b
  }

  // ---- assets ------------------------------------------------------------------------------

  function ExternalId(a: Asset): string {
    Or(Or(a.externalId, a.id), a.displayName)
  }

  function AssetId(a: Asset, stable: StableId): string {
    Or(a.id, stable("asset", [a.kind, a.provider, ExternalId(a)]))
  }

  /** A scan marks its assets scanned; a discovery-only push never takes the mark away. */
  function AssetRules(stable: StableId, connector: Option<string>, scanned: bool): Rules<Asset, AssetRow> {
    Rules((a: Asset) => AssetId(a, stable),
          (a: Asset) => AssetRow(a.kind, a.provider, ExternalId(a), Or(a.displayName, ExternalId(a)), connector,
                                 scanned, a.body),
          (r: AssetRow, a: Asset) =>
            AssetRow(a.kind, a.provider, ExternalId(a), Or(a.displayName, ExternalId(a)),
                     if connector.Some? then connector else r.connector, r.scanned || scanned, a.body),
          (known: bool, a: Asset) => true)
  }

  function AssetRefs(assets: seq<Asset>, stable: StableId): map<string, string> {
    if assets == [] then map[]
    else
      var last := assets[|assets| - 1];
      var before := AssetRefs(assets[..|assets| - 1], stable);
      if last.ref == "" then before else before[last.ref := AssetId(last, stable)]
  }

  /** `ref_map.get(value, value)`, or None for an empty value. */
  function ResolveRef(value: string, refs: map<string, string>): Option<string> {
    if value == "" then None else Some(if value in refs then refs[value] else value)
  }

  // ---- components --------------------------------------------------------------------------

  function ComponentId(c: Component, stable: StableId): string {
    Or(c.id, stable("component", [Or(c.purl, Or(c.cpe, c.ecosystem)), c.name, c.version]))
  }

  function ComponentRules(stable: StableId): Rules<Component, ComponentRow> {
    Rules((c: Component) => ComponentId(c, stable),
          (c: Component) => ComponentRow(c.purl, c.cpe, c.name, c.version, c.ecosystem, c.body),
          (r: ComponentRow, c: Component) => ComponentRow(c.purl, c.cpe, c.name, c.version, c.ecosystem, c.body),
          (known: bool, c: Component) => true)
  }

  function ComponentRefs(components: seq<Component>, stable: StableId): map<string, string> {
    if components == [] then map[]
    else
      var last := components[|components| - 1];
      var before := ComponentRefs(components[..|components| - 1], stable);
      if last.ref == "" then before else before[last.ref := ComponentId(last, stable)]
  }

  /** The keys a purl is indexed and looked up under: itself, without the package id, and up to `?`. */
  type PurlKeys = string -> (string, string, string)

  function SetDefault(m: map<string, string>, k: string, v: string): map<string, string> {
    if k in m then m else m[k := v]
  }

  function PurlIndex(components: seq<Component>, stable: StableId, keys: PurlKeys): map<string, string> {
    if components == [] then map[]
    else
      var last := components[|components| - 1];
      var before := PurlIndex(components[..|components| - 1], stable, keys);
      if last.purl == "" then before
      else
        WithKeys(before, keys(last.purl), ComponentId(last, stable))
  }

  function WithKeys(m: map<string, string>, ks: (string, string, string), id: string): (r: map<string, string>)
    ensures forall k :: k in r <==> k in m || IsKey(k, ks)
    ensures forall k :: k in r ==> r[k] == if k in m then m[k] else id
  {
    SetDefault(SetDefault(SetDefault(m, ks.0, id), ks.1, id), ks.2, id)
  }

  predicate IsKey(k: string, ks: (string, string, string)) {
    k == ks.0 || k == ks.1 || k == ks.2
  }

  function ResolveComponent(value: string, refs: map<string, string>, purls: map<string, string>, keys: PurlKeys)
    : Option<string>
  {
    if value == "" then None
    else if value in refs then Some(refs[value])
    else
      FirstIn(keys(value), purls)
  }

  function FirstIn(ks: (string, string, string), purls: map<string, string>): Option<string> {
    if ks.0 in purls then Some(purls[ks.0])
    else if ks.1 in purls then Some(purls[ks.1])
    else if ks.2 in purls then Some(purls[ks.2])
    else None
  }

  // ---- usages, relationships, findings ---------------------------------------------------------

  datatype UsageOp = UsageOp(id: string, row: UsageRow)
  datatype RelationshipOp = RelationshipOp(id: string, row: RelationshipRow)
  datatype FindingOp = FindingOp(id: string, row: FindingRow)

  function UsageRules(assets: set<string>, components: set<string>): Rules<UsageOp, UsageRow> {
    Rules((op: UsageOp) => op.id, (op: UsageOp) => op.row,
          (r: UsageRow, op: UsageOp) => op.row.(asset := r.asset, component := r.component),
          (known: bool, op: UsageOp) => known || (op.row.asset in assets && op.row.component in components))
  }

  function RelationshipRules(assets: set<string>): Rules<RelationshipOp, RelationshipRow> {
    Rules((op: RelationshipOp) => op.id, (op: RelationshipOp) => op.row,
          (r: RelationshipRow, op: RelationshipOp) => r.(body := op.row.body),
          (known: bool, op: RelationshipOp) => known || (op.row.source in assets && op.row.target in assets))
  }

  predicate Stored(id: Option<string>, ids: set<string>) {
    id.Some? ==> id.value in ids
  }

  function FindingRules(assets: set<string>, components: set<string>): Rules<FindingOp, FindingRow> {
    Rules((op: FindingOp) => op.id, (op: FindingOp) => op.row,
          (r: FindingRow, op: FindingOp) => op.row.(kind := r.kind),
          (known: bool, op: FindingOp) => Stored(op.row.asset, assets) && Stored(op.row.component, components))
  }

  function UsageOps(usages: seq<Usage>, assets: map<string, string>, components: map<string, string>, stable: StableId)
    : seq<UsageOp>
  {
    if usages == [] then []
    else
      var u, before := usages[|usages| - 1], UsageOps(usages[..|usages| - 1], assets, components, stable);
      var asset, component := ResolveRef(u.asset, assets), ResolveRef(u.component, components);
      if asset.None? || component.None? then before
      else before + [UsageOp(
             Or(u.id, stable("asset_component", [asset.value, component.value, u.source, u.path, u.layer])),
             UsageRow(asset.value, component.value, u.source, u.path, u.layer, u.body))]
  }

  function Link(id: string, source: string, kind: string, target: string, body: string, stable: StableId)
    : RelationshipOp
  {
    RelationshipOp(Or(id, stable("relationship", [source, kind, target])), RelationshipRow(source, kind, target, body))
  }

  function RelationshipOps(rels: seq<Relationship>, assets: map<string, string>, stable: StableId): seq<RelationshipOp> {
    if rels == [] then []
    else
      var r, before := rels[|rels| - 1], RelationshipOps(rels[..|rels| - 1], assets, stable);
      var source, target := ResolveRef(r.source, assets), ResolveRef(r.target, assets);
      if source.None? || target.None? then before
      else before + [Link(r.id, source.value, Or(r.kind, "related_to"), target.value, r.body, stable)]
  }

  function ProvenanceLink(image: string, ref: string, kind: string, table: map<string, AssetRow>, find: Finder,
                          stable: StableId): seq<RelationshipOp>
  {
    if ref == "" || find(table, ref).None? || find(table, ref).value == image then []
    else [Link("", image, kind, find(table, ref).value, "provenance " + ref, stable)]
  }

  /** Images are linked to their source repository and to where they were found, if those are known. */
  function ProvenanceOps(assets: seq<Asset>, refs: map<string, string>, table: map<string, AssetRow>, find: Finder,
                         stable: StableId): seq<RelationshipOp>
  {
    if assets == [] then []
    else
      var a, before := assets[|assets| - 1], ProvenanceOps(assets[..|assets| - 1], refs, table, find, stable);
      if a.kind != "container_image" || a.ref == "" || a.ref !in refs then before
      else before + (ProvenanceLink(refs[a.ref], a.sourceRepository, "built_from", table, find, stable)
                     + ProvenanceLink(refs[a.ref], a.discoveredIn, "discovered_in", table, find, stable))
  }

  function FindingOps(findings: seq<Finding>, assets: map<string, string>, components: map<string, string>,
                      purls: map<string, string>, connector: Option<string>, stable: StableId, keys: PurlKeys)
    : seq<FindingOp>
  {
    if findings == [] then []
    else
      var f := findings[|findings| - 1];
      FindingOps(findings[..|findings| - 1], assets, components, purls, connector, stable, keys)
      + [FindingOpOf(f, ResolveRef(f.asset, assets), ResolveComponent(f.component, components, purls, keys), connector, stable)]
  }

  function FindingOpOf(f: Finding, asset: Option<string>, component: Option<string>, connector: Option<string>,
                       stable: StableId): FindingOp
  {
    var text := (o: Option<string>) => if o.Some? then o.value else "";
    FindingOp(Or(f.id, stable("finding", [f.kind, text(asset), text(component), f.title])),
              FindingRow(f.kind, f.title, asset, component, connector, f.body))
  }

  // ---- the whole ingest ------------------------------------------------------------------------

  /** What an ingest is given besides the payload. */
  datatype Env = Env(connector: Option<string>, stable: StableId, find: Finder, keys: PurlKeys)

  /** The statements of one ingest, table by table, with the rules they run under. */
  datatype Plan = Plan(
    assets: map<string, AssetRow>, components: map<string, ComponentRow>,
    usages: seq<UsageOp>, relationships: seq<RelationshipOp>, findings: seq<FindingOp>)

  function PlanOf(t: Tables, p: Payload, env: Env): Plan {
    var assets := Run(AssetRules(env.stable, env.connector, !p.discoveryOnly), t.assets, p.assets);
    var components := Run(ComponentRules(env.stable), t.components, p.components);
    var assetRefs, componentRefs := AssetRefs(p.assets, env.stable), ComponentRefs(p.components, env.stable);
    Plan(assets, components,
         UsageOps(p.usages, assetRefs, componentRefs, env.stable),
         ProvenanceOps(p.assets, assetRefs, assets, env.find, env.stable)
         + RelationshipOps(p.relationships, assetRefs, env.stable),
         FindingOps(p.findings, assetRefs, componentRefs, PurlIndex(p.components, env.stable, env.keys), env.connector,
                    env.stable, env.keys))
  }

  /** No foreign key stops it. */
  predicate Goes(t: Tables, plan: Plan) {
    && Runs(UsageRules(plan.assets.Keys, plan.components.Keys), t.usages, plan.usages)
    && Runs(RelationshipRules(plan.assets.Keys), t.relationships, plan.relationships)
    && Runs(FindingRules(plan.assets.Keys, plan.components.Keys), t.findings, plan.findings)
  }

  function Done(t: Tables, plan: Plan): Tables {
    Tables(plan.assets, plan.components,
           Run(UsageRules(plan.assets.Keys, plan.components.Keys), t.usages, plan.usages),
           Run(RelationshipRules(plan.assets.Keys), t.relationships, plan.relationships),
           Run(FindingRules(plan.assets.Keys, plan.components.Keys), t.findings, plan.findings))
  }

  /** One transaction: all of it, or nothing. */
  function Ingested(t: Tables, p: Payload, env: Env): Tables {
    if Goes(t, PlanOf(t, p, env)) then Done(t, PlanOf(t, p, env)) else t
  }

  // ---- ingesting twice -------------------------------------------------------------------------

  lemma RulesAreLawful(env: Env, scanned: bool, assets: set<string>, components: set<string>)
    ensures Lawful(AssetRules(env.stable, env.connector, scanned)) && Lawful(ComponentRules(env.stable))
    ensures Lawful(UsageRules(assets, components)) && Lawful(RelationshipRules(assets))
    ensures Lawful(FindingRules(assets, components))
  {
  }

  /** A second ingest of the same payload makes the same plan. */
  lemma SamePlan(t: Tables, p: Payload, env: Env)
    ensures PlanOf(Done(t, PlanOf(t, p, env)), p, env) == PlanOf(t, p, env)
  {
    RulesAreLawful(env, !p.discoveryOnly, {}, {});
    RunTwice(AssetRules(env.stable, env.connector, !p.discoveryOnly), t.assets, p.assets);
    RunTwice(ComponentRules(env.stable), t.components, p.components);
  }

  /** Ingesting a payload twice leaves what ingesting it once leaves. */
  lemma IngestIsIdempotent(t: Tables, p: Payload, env: Env)
    ensures Ingested(Ingested(t, p, env), p, env) == Ingested(t, p, env)
    ensures Goes(t, PlanOf(t, p, env)) ==> Goes(Ingested(t, p, env), PlanOf(Ingested(t, p, env), p, env))
  {
    var plan := PlanOf(t, p, env);
    if Goes(t, plan) {
      var t' := Done(t, plan);
      SamePlan(t, p, env);
      var usage, link, finding := UsageRules(plan.assets.Keys, plan.components.Keys),
        RelationshipRules(plan.assets.Keys), FindingRules(plan.assets.Keys, plan.components.Keys);
      RulesAreLawful(env, false, plan.assets.Keys, plan.components.Keys);
      RunKeys(usage, t.usages, plan.usages);
      RunKeys(link, t.relationships, plan.relationships);
      RunKeys(finding, t.findings, plan.findings);
      RunsAgain(usage, t.usages, plan.usages, t'.usages);
      RunsAgain(link, t.relationships, plan.relationships, t'.relationships);
      RunsAgain(finding, t.findings, plan.findings, t'.findings);
      RunTwice(usage, t.usages, plan.usages);
      RunTwice(link, t.relationships, plan.relationships);
      RunTwice(finding, t.findings, plan.findings);
    }
  }

  // ---- scan status -----------------------------------------------------------------------------

  lemma {:induction false} ScannedAfterRun(
      stable: StableId, connector: Option<string>, scanned: bool, m: map<string, AssetRow>, assets: seq<Asset>, id: string)
    requires id in Run(AssetRules(stable, connector, scanned), m, assets)
    ensures Run(AssetRules(stable, connector, scanned), m, assets)[id].scanned <==>
              (id in m && m[id].scanned) || (scanned && id in Keys(AssetRules(stable, connector, scanned), assets))
  {
    var rules := AssetRules(stable, connector, scanned);
    if assets != [] {
      var before := assets[..|assets| - 1];
      KeysLast(rules, assets);
      RunKeys(rules, m, before);
      if id in Run(rules, m, before) {
        ScannedAfterRun(stable, connector, scanned, m, before, id);
      }
    }
  }

  datatype Push = Push(payload: Payload, env: Env)

  function IngestedAll(t: Tables, pushes: seq<Push>): Tables {
    if pushes == [] then t
    else
      var last := pushes[|pushes| - 1];
      Ingested(IngestedAll(t, pushes[..|pushes| - 1]), last.payload, last.env)
  }

  /** The push is a scan, goes through, and has the asset in its payload. */
  predicate ScanTouches(before: Tables, p: Push, id: string) {
    !p.payload.discoveryOnly && Goes(before, PlanOf(before, p.payload, p.env)) &&
    id in Keys(AssetRules(p.env.stable, p.env.connector, true), p.payload.assets)
  }

  predicate EverScanned(t: Tables, pushes: seq<Push>, id: string) {
    pushes != [] &&
    (EverScanned(t, pushes[..|pushes| - 1], id)
     || ScanTouches(IngestedAll(t, pushes[..|pushes| - 1]), pushes[|pushes| - 1], id))
  }

  lemma ScannedAfterPush(t: Tables, p: Push, id: string)
    requires id in Ingested(t, p.payload, p.env).assets
    ensures Ingested(t, p.payload, p.env).assets[id].scanned <==>
              (id in t.assets && t.assets[id].scanned) || ScanTouches(t, p, id)
  {
    if Goes(t, PlanOf(t, p.payload, p.env)) {
      ScannedAfterRun(p.env.stable, p.env.connector, !p.payload.discoveryOnly, t.assets, p.payload.assets, id);
    }
  }

  lemma AssetsStay(t: Tables, p: Push, id: string)
    requires id in t.assets || ScanTouches(t, p, id)
    ensures id in Ingested(t, p.payload, p.env).assets
  {
    RunKeys(AssetRules(p.env.stable, p.env.connector, !p.payload.discoveryOnly), t.assets, p.payload.assets);
  }

  /** After any mix of scans and discovery-only pushes an asset is stored and scanned exactly when it
      was scanned before or some scan that went through touched it. */
  lemma {:induction false} ScanStatusFollowsHistory(t: Tables, pushes: seq<Push>, id: string)
    ensures var after := IngestedAll(t, pushes);
            id in after.assets && after.assets[id].scanned <==>
              (id in t.assets && t.assets[id].scanned) || EverScanned(t, pushes, id)
  {
    if pushes != [] {
      var before, last := IngestedAll(t, pushes[..|pushes| - 1]), pushes[|pushes| - 1];
      ScanStatusFollowsHistory(t, pushes[..|pushes| - 1], id);
      if id in Ingested(before, last.payload, last.env).assets {
        ScannedAfterPush(before, last, id);
      }
      if id in before.assets || ScanTouches(before, last, id) {
        AssetsStay(before, last, id);
      }
    }
  }

  // ---- no dangling references ------------------------------------------------------------------

  predicate UsageClosed(r: UsageRow, assets: set<string>, components: set<string>) {
    r.asset in assets && r.component in components
  }

  predicate LinkClosed(r: RelationshipRow, assets: set<string>) {
    r.source in assets && r.target in assets
  }

  predicate FindingClosed(r: FindingRow, assets: set<string>, components: set<string>) {
    Stored(r.asset, assets) && Stored(r.component, components)
  }

  ghost predicate Closed(t: Tables) {
    && (forall k :: k in t.usages ==> UsageClosed(t.usages[k], t.assets.Keys, t.components.Keys))
    && (forall k :: k in t.relationships ==> LinkClosed(t.relationships[k], t.assets.Keys))
    && (forall k :: k in t.findings ==> FindingClosed(t.findings[k], t.assets.Keys, t.components.Keys))
  }

  /** The foreign keys let only closed rows in. */
  lemma DoneIsClosed(t: Tables, plan: Plan)
    requires Closed(t) && Goes(t, plan)
    requires t.assets.Keys <= plan.assets.Keys && t.components.Keys <= plan.components.Keys
    ensures Closed(Done(t, plan))
  {
    var a, c := plan.assets.Keys, plan.components.Keys;
    RunKeeps(UsageRules(a, c), t.usages, plan.usages, (r: UsageRow) => UsageClosed(r, a, c));
    RunKeeps(RelationshipRules(a), t.relationships, plan.relationships, (r: RelationshipRow) => LinkClosed(r, a));
    RunKeeps(FindingRules(a, c), t.findings, plan.findings, (r: FindingRow) => FindingClosed(r, a, c));
  }

  /** Whatever payloads are pushed, every stored row refers only to stored rows. */
  lemma IngestKeepsClosed(t: Tables, p: Payload, env: Env)
    requires Closed(t)
    ensures Closed(Ingested(t, p, env))
  {
    var plan := PlanOf(t, p, env);
    if Goes(t, plan) {
      RunKeys(AssetRules(env.stable, env.connector, !p.discoveryOnly), t.assets, p.assets);
      RunKeys(ComponentRules(env.stable), t.components, p.components);
      DoneIsClosed(t, plan);
    }
  }

  /** A finder that finds stored assets never makes a provenance link the foreign keys forbid. */
  lemma {:induction false} ProvenanceIsAllowed(assets: seq<Asset>, refs: map<string, string>, table: map<string, AssetRow>,
                                               find: Finder, stable: StableId)
    requires Sound(find) && forall ref :: ref in refs ==> refs[ref] in table
    ensures forall op :: op in ProvenanceOps(assets, refs, table, find, stable) ==> LinkClosed(op.row, table.Keys)
  {
    if assets != [] {
      var a := assets[|assets| - 1];
      ProvenanceIsAllowed(assets[..|assets| - 1], refs, table, find, stable);
      assert FindsStored(find, table, a.sourceRepository) && FindsStored(find, table, a.discoveredIn);
    }
  }

  // ---- relationships keep their ends -----------------------------------------------------------

  predicate SameEnds(a: RelationshipRow, b: RelationshipRow) {
    a.source == b.source && a.kind == b.kind && a.target == b.target
  }

  /** The row an id gets its ends from: the stored one, or that of the first statement with the id. */
  function FirstFor(m: map<string, RelationshipRow>, ops: seq<RelationshipOp>, id: string): Option<RelationshipRow> {
    if id in m then Some(m[id])
    else if ops == [] then None
    else
      var before := FirstFor(m, ops[..|ops| - 1], id);
      if before.Some? then before else if ops[|ops| - 1].id == id then Some(ops[|ops| - 1].row) else None
  }

  /** An upsert never changes a relationship's ends, so a statement's ends are stored exactly when
      they are those of the first row with its id. */
  lemma {:induction false} EndsAreTheFirst(m: map<string, RelationshipRow>, ops: seq<RelationshipOp>, assets: set<string>, id: string)
    ensures var m' := Run(RelationshipRules(assets), m, ops);
            (id in m' <==> FirstFor(m, ops, id).Some?) && (id in m' ==> SameEnds(m'[id], FirstFor(m, ops, id).value))
  {
    if ops != [] {
      EndsAreTheFirst(m, ops[..|ops| - 1], assets, id);
    }
  }

  /** The text `stable_id` hashes. */
  function Joined(parts: seq<string>): string {
    if parts == [] then "" else if |parts| == 1 then parts[0] else parts[0] + [':'] + Joined(parts[1..])
  }

  /** Ids are hashes of the joined text: equal exactly for equal texts, and without a colon. */
  ghost predicate HashesText(stable: StableId) {
    && (forall kind, a, b :: stable(kind, a) == stable(kind, b) ==> Joined(a) == Joined(b))
    && (forall kind, a :: ':' !in stable(kind, a) && stable(kind, a) != "")
  }

  function EndsId(r: RelationshipRow, stable: StableId): string {
    stable("relationship", [r.source, r.kind, r.target])
  }

  predicate ColonFreeEnds(r: RelationshipRow) {
    ':' !in r.source && ':' !in r.kind
  }

  lemma JoinedThree(a: string, b: string, c: string)
    ensures Joined([a, b, c]) == a + [':'] + (b + [':'] + c)
  {
    assert [a, b, c][1..] == [b, c] && [b, c][1..] == [c];
    assert Joined([b, c]) == b + [':'] + c;
  }

  /** The colon-joined text is ambiguous in general, but not when source and kind have no colon. */
  lemma EndsFromId(a: RelationshipRow, b: RelationshipRow, stable: StableId)
    requires HashesText(stable) && ColonFreeEnds(a) && ColonFreeEnds(b) && EndsId(a, stable) == EndsId(b, stable)
    ensures SameEnds(a, b)
  {
    JoinedThree(a.source, a.kind, a.target);
    JoinedThree(b.source, b.kind, b.target);
    CutBack(a.source, ':', a.kind + [':'] + a.target);
    CutBack(b.source, ':', b.kind + [':'] + b.target);
    CutBack(a.kind, ':', a.target);
    CutBack(b.kind, ':', b.target);
  }

  lemma SameBehind(front: string, a: string, b: string)
    requires front + a == front + b
    ensures a == b
  {
    assert (front + a)[|front|..] == a && (front + b)[|front|..] == b;
  }

  /** An asset without an id of its own. */
  predicate Unnamed(a: Asset, provider: string) {
    a.id == "" && a.provider == provider && ':' !in a.kind
  }

  /** So do the ids of assets of one provider whose kinds have no colon. */
  lemma AssetFromId(a: Asset, b: Asset, provider: string, stable: StableId)
    requires HashesText(stable) && Unnamed(a, provider) && Unnamed(b, provider)
    ensures AssetId(a, stable) == AssetId(b, stable) <==> a.kind == b.kind && ExternalId(a) == ExternalId(b)
  {
    var x, y := ExternalId(a), ExternalId(b);
    if AssetId(a, stable) == AssetId(b, stable) {
      JoinedThree(a.kind, a.provider, x);
      JoinedThree(b.kind, b.provider, y);
      CutBack(a.kind, ':', a.provider + [':'] + x);
      CutBack(b.kind, ':', b.provider + [':'] + y);
      SameBehind(a.provider + [':'], x, y);
    }
  }

  /** The stored row of an asset shows kind, provider and external id of the last asset with its id. */
  lemma AssetRowShowsLast(m: map<string, AssetRow>, assets: seq<Asset>, env: Env, scanned: bool, a: Asset) returns (last: Asset)
    requires a in assets
    ensures last in assets && AssetId(last, env.stable) == AssetId(a, env.stable)
    ensures var m' := Run(AssetRules(env.stable, env.connector, scanned), m, assets); var id := AssetId(a, env.stable);
            id in m' && m'[id].kind == last.kind && m'[id].provider == last.provider &&
            m'[id].externalId == ExternalId(last)
  {
    var rules, id := AssetRules(env.stable, env.connector, scanned), AssetId(a, env.stable);
    var k :| 0 <= k < |assets| && assets[k] == a;
    assert rules.key(assets[k]) == id;
    var i := LastWithKey(rules, assets, id);
    last := assets[i];
    RulesAreLawful(env, scanned, {}, {});
    RunSettles(rules, m, assets, id);
    var m' := Run(rules, m, assets);
    assert rules.update(m'[id], last) == m'[id];
  }

  /** The asset has its row. */
  ghost predicate IsStored(rows: map<string, AssetRow>, a: Asset, stable: StableId) {
    var id := AssetId(a, stable);
    id in rows && rows[id].kind == a.kind && rows[id].provider == a.provider && rows[id].externalId == ExternalId(a)
  }

  /** So where no asset brings an id, all are of one provider and kinds have no colon, each asset of the
      payload is a row with its kind, provider and external id. */
  lemma AssetsAreStored(m: map<string, AssetRow>, assets: seq<Asset>, provider: string, env: Env, scanned: bool, a: Asset)
    requires HashesText(env.stable) && a in assets && forall b :: b in assets ==> Unnamed(b, provider)
    ensures IsStored(Run(AssetRules(env.stable, env.connector, scanned), m, assets), a, env.stable)
  {
    var last := AssetRowShowsLast(m, assets, env, scanned, a);
    AssetFromId(a, last, provider, env.stable);
  }

  /** Without that they can collide: two different relationships with one id. */
  lemma ColonsCollide(stable: StableId)
    ensures var a := RelationshipRow("x", "runs_in", "y:z", ""); var b := RelationshipRow("x:runs_in", "y", "z", "");
            !SameEnds(a, b) && Joined([a.source, a.kind, a.target]) == Joined([b.source, b.kind, b.target])
  {
    JoinedThree("x", "runs_in", "y:z");
    JoinedThree("x:runs_in", "y", "z");
    assert "x" + [':'] + ("runs_in" + [':'] + "y:z") == "x:runs_in:y:z" == "x:runs_in" + [':'] + ("y" + [':'] + "z");
  }

  ghost predicate TidyRow(id: string, r: RelationshipRow, assets: set<string>, stable: StableId) {
    id == EndsId(r, stable) && ':' !in r.kind && r.source in assets
  }

  ghost predicate TidyRows(m: map<string, RelationshipRow>, assets: set<string>, stable: StableId) {
    forall id :: id in m ==> TidyRow(id, m[id], assets, stable)
  }

  /** Asset ids have no colon, and every relationship stands under the id of its ends. */
  ghost predicate Tidy(t: Tables, stable: StableId) {
    && (forall id :: id in t.assets ==> ':' !in id)
    && TidyRows(t.relationships, t.assets.Keys, stable)
  }

  /** The payload brings no ids of its own with colons in them, and none for relationships. */
  ghost predicate PlainIds(p: Payload) {
    && (forall a :: a in p.assets ==> ':' !in a.id)
    && (forall r :: r in p.relationships ==> r.id == "" && ':' !in r.kind)
  }

  ghost predicate PlainOp(op: RelationshipOp, stable: StableId) {
    op.id == EndsId(op.row, stable) && ':' !in op.row.kind
  }

  lemma {:induction false} RelationshipsArePlain(rels: seq<Relationship>, refs: map<string, string>, stable: StableId)
    requires forall r :: r in rels ==> r.id == "" && ':' !in r.kind
    ensures forall op :: op in RelationshipOps(rels, refs, stable) ==> PlainOp(op, stable)
  {
    if rels != [] {
      var before, r := rels[..|rels| - 1], rels[|rels| - 1];
      assert r in rels && forall x :: x in before ==> x in rels;
      RelationshipsArePlain(before, refs, stable);
    }
  }

  lemma {:induction false} ProvenanceIsPlain(assets: seq<Asset>, refs: map<string, string>, table: map<string, AssetRow>,
                                             find: Finder, stable: StableId)
    ensures forall op :: op in ProvenanceOps(assets, refs, table, find, stable) ==> PlainOp(op, stable)
  {
    if assets != [] {
      ProvenanceIsPlain(assets[..|assets| - 1], refs, table, find, stable);
    }
  }

  lemma PlanIsPlain(t: Tables, p: Payload, env: Env)
    requires PlainIds(p)
    ensures forall op :: op in PlanOf(t, p, env).relationships ==> PlainOp(op, env.stable)
  {
    var refs := AssetRefs(p.assets, env.stable);
    RelationshipsArePlain(p.relationships, refs, env.stable);
    ProvenanceIsPlain(p.assets, refs, PlanOf(t, p, env).assets, env.find, env.stable);
  }

  lemma StepKeepsTidy(m: map<string, RelationshipRow>, op: RelationshipOp, assets: set<string>, stable: StableId)
    requires PlainOp(op, stable) && RelationshipRules(assets).allowed(op.id in m, op) && TidyRows(m, assets, stable)
    ensures TidyRows(Apply(RelationshipRules(assets), m, op), assets, stable)
  {
    forall id | id in m
      ensures TidyRow(id, m[id], assets, stable)
    {
    }
  }

  lemma {:induction false} RunKeepsTidy(m: map<string, RelationshipRow>, ops: seq<RelationshipOp>, assets: set<string>, stable: StableId)
    requires Runs(RelationshipRules(assets), m, ops) && TidyRows(m, assets, stable)
    requires forall op :: op in ops ==> PlainOp(op, stable)
    ensures TidyRows(Run(RelationshipRules(assets), m, ops), assets, stable)
  {
    if ops != [] {
      var before, last := ops[..|ops| - 1], ops[|ops| - 1];
      assert last in ops && forall op :: op in before ==> op in ops;
      RunKeepsTidy(m, before, assets, stable);
      assert RelationshipRules(assets).key(last) == last.id;
      StepKeepsTidy(Run(RelationshipRules(assets), m, before), last, assets, stable);
    }
  }

  lemma AssetIdIsPlain(a: Asset, stable: StableId)
    requires ':' !in a.id && HashesText(stable)
    ensures ':' !in AssetId(a, stable)
  {
    assert AssetId(a, stable) == a.id || AssetId(a, stable) == stable("asset", [a.kind, a.provider, ExternalId(a)]);
  }

  lemma {:induction false} AssetKeysArePlain(assets: seq<Asset>, env: Env, scanned: bool)
    requires HashesText(env.stable) && forall a :: a in assets ==> ':' !in a.id
    ensures forall id :: id in Keys(AssetRules(env.stable, env.connector, scanned), assets) ==> ':' !in id
  {
    if assets != [] {
      var before, last := assets[..|assets| - 1], assets[|assets| - 1];
      assert last in assets && forall a :: a in before ==> a in assets;
      AssetKeysArePlain(before, env, scanned);
      KeysLast(AssetRules(env.stable, env.connector, scanned), assets);
      AssetIdIsPlain(last, env.stable);
    }
  }

  lemma AssetsStayTidy(t: Tables, p: Payload, env: Env)
    requires Tidy(t, env.stable) && PlainIds(p) && HashesText(env.stable)
    ensures t.assets.Keys <= PlanOf(t, p, env).assets.Keys
    ensures forall id :: id in PlanOf(t, p, env).assets ==> ':' !in id
  {
    RunKeys(AssetRules(env.stable, env.connector, !p.discoveryOnly), t.assets, p.assets);
    AssetKeysArePlain(p.assets, env, !p.discoveryOnly);
  }

  lemma DoneIsTidy(t: Tables, plan: Plan, stable: StableId)
    requires Tidy(t, stable) && Goes(t, plan) && t.assets.Keys <= plan.assets.Keys
    requires forall id :: id in plan.assets ==> ':' !in id
    requires forall op :: op in plan.relationships ==> PlainOp(op, stable)
    ensures Tidy(Done(t, plan), stable)
  {
    forall id | id in t.relationships
      ensures TidyRow(id, t.relationships[id], plan.assets.Keys, stable)
    {
      assert TidyRow(id, t.relationships[id], t.assets.Keys, stable);
    }
    RunKeepsTidy(t.relationships, plan.relationships, plan.assets.Keys, stable);
    assert Done(t, plan).assets == plan.assets;
    assert Done(t, plan).relationships == Run(RelationshipRules(plan.assets.Keys), t.relationships, plan.relationships);
  }

  /** Every ingest keeps relationships under the ids of their ends. */
  lemma IngestKeepsTidy(t: Tables, p: Payload, env: Env)
    requires Tidy(t, env.stable) && PlainIds(p) && HashesText(env.stable)
    ensures Tidy(Ingested(t, p, env), env.stable)
  {
    if Goes(t, PlanOf(t, p, env)) {
      AssetsStayTidy(t, p, env);
      PlanIsPlain(t, p, env);
      DoneIsTidy(t, PlanOf(t, p, env), env.stable);
    }
  }

  /** So every relationship statement between stored assets ends up as a row with exactly its source,
      kind and target: no two statements share a row, and no older row stands in the way. */
  lemma RelationshipKeepsItsEnds(t: Tables, p: Payload, env: Env, op: RelationshipOp)
    requires Tidy(t, env.stable) && PlainIds(p) && HashesText(env.stable) && Goes(t, PlanOf(t, p, env))
    requires op in PlanOf(t, p, env).relationships && op.row.source in PlanOf(t, p, env).assets
    ensures var t' := Ingested(t, p, env);
            op.id in t'.relationships && SameEnds(t'.relationships[op.id], op.row)
  {
    var plan, t' := PlanOf(t, p, env), Ingested(t, p, env);
    var rules := RelationshipRules(plan.assets.Keys);
    IngestKeepsTidy(t, p, env);
    AssetsStayTidy(t, p, env);
    PlanIsPlain(t, p, env);
    RunKeys(rules, t.relationships, plan.relationships);
    var i :| 0 <= i < |plan.relationships| && plan.relationships[i] == op;
    assert rules.key(plan.relationships[i]) in Keys(rules, plan.relationships);
    assert TidyRow(op.id, t'.relationships[op.id], t'.assets.Keys, env.stable);
    EndsFromId(t'.relationships[op.id], op.row, env.stable);
  }

  // ---- a finding's component -------------------------------------------------------------------

  predicate Shares(a: (string, string, string), b: (string, string, string)) {
    IsKey(a.0, b) || IsKey(a.1, b) || IsKey(a.2, b)
  }

  /** The component is named by the value, or their purls share an index key. */
  predicate Means(value: string, c: Component, keys: PurlKeys) {
    (c.ref != "" && c.ref == value) || (c.purl != "" && Shares(keys(value), keys(c.purl)))
  }

  /** The id of a component that has the property. */
  predicate IdOfSuch(id: string, cs: seq<Component>, stable: StableId, such: Component -> bool) {
    exists i :: 0 <= i < |cs| && such(cs[i]) && id == ComponentId(cs[i], stable)
  }

  lemma IdOfLast(id: string, cs: seq<Component>, stable: StableId, such: Component -> bool)
    requires cs != []
    requires IdOfSuch(id, cs[..|cs| - 1], stable, such) || (such(cs[|cs| - 1]) && id == ComponentId(cs[|cs| - 1], stable))
    ensures IdOfSuch(id, cs, stable, such)
  {
    var before := cs[..|cs| - 1];
    if IdOfSuch(id, before, stable, such) {
      var i :| 0 <= i < |before| && such(before[i]) && id == ComponentId(before[i], stable);
      assert cs[i] == before[i];
    }
  }

  function HasThisRef(ref: string): Component -> bool {
    (c: Component) => c.ref != "" && c.ref == ref
  }

  function HasThisKey(k: string, keys: PurlKeys): Component -> bool {
    (c: Component) => c.purl != "" && IsKey(k, keys(c.purl))
  }

  function IsMeant(value: string, keys: PurlKeys): Component -> bool {
    (c: Component) => Means(value, c, keys)
  }

  ghost predicate HasRef(cs: seq<Component>, ref: string) {
    exists i :: 0 <= i < |cs| && cs[i].ref != "" && cs[i].ref == ref
  }

  ghost predicate HasKey(cs: seq<Component>, k: string, keys: PurlKeys) {
    exists i :: 0 <= i < |cs| && cs[i].purl != "" && IsKey(k, keys(cs[i].purl))
  }

  lemma {:induction false} RefsExact(cs: seq<Component>, stable: StableId)
    ensures forall ref :: ref in ComponentRefs(cs, stable) <==> HasRef(cs, ref)
    ensures forall ref :: ref in ComponentRefs(cs, stable) ==> IdOfSuch(ComponentRefs(cs, stable)[ref], cs, stable, HasThisRef(ref))
  {
    if cs != [] {
      var before, last := cs[..|cs| - 1], cs[|cs| - 1];
      RefsExact(before, stable);
      forall ref
        ensures HasRef(cs, ref) <==> HasRef(before, ref) || (last.ref != "" && last.ref == ref)
      {
        if HasRef(before, ref) {
          var i :| 0 <= i < |before| && before[i].ref != "" && before[i].ref == ref;
          assert cs[i] == before[i];
        }
        if HasRef(cs, ref) {
          var i :| 0 <= i < |cs| && cs[i].ref != "" && cs[i].ref == ref;
          if i < |cs| - 1 {
            assert before[i] == cs[i];
          }
        }
      }
      forall ref | ref in ComponentRefs(cs, stable)
        ensures IdOfSuch(ComponentRefs(cs, stable)[ref], cs, stable, HasThisRef(ref))
      {
        IdOfLast(ComponentRefs(cs, stable)[ref], cs, stable, HasThisRef(ref));
      }
    }
  }

  lemma {:induction false} PurlsExact(cs: seq<Component>, stable: StableId, keys: PurlKeys)
    ensures forall k :: k in PurlIndex(cs, stable, keys) <==> HasKey(cs, k, keys)
    ensures forall k :: k in PurlIndex(cs, stable, keys) ==> IdOfSuch(PurlIndex(cs, stable, keys)[k], cs, stable, HasThisKey(k, keys))
  {
    if cs != [] {
      var before, last := cs[..|cs| - 1], cs[|cs| - 1];
      PurlsExact(before, stable, keys);
      forall k
        ensures HasKey(cs, k, keys) <==> HasKey(before, k, keys) || (last.purl != "" && IsKey(k, keys(last.purl)))
      {
        HasKeyLast(cs, k, keys);
      }
      forall k | k in PurlIndex(cs, stable, keys)
        ensures IdOfSuch(PurlIndex(cs, stable, keys)[k], cs, stable, HasThisKey(k, keys))
      {
        IdOfLast(PurlIndex(cs, stable, keys)[k], cs, stable, HasThisKey(k, keys));
      }
    }
  }

  lemma HasKeyLast(cs: seq<Component>, k: string, keys: PurlKeys)
    requires cs != []
    ensures var last := cs[|cs| - 1];
            HasKey(cs, k, keys) <==>
              HasKey(cs[..|cs| - 1], k, keys) || (last.purl != "" && IsKey(k, keys(last.purl)))
  {
    var before := cs[..|cs| - 1];
    if HasKey(before, k, keys) {
      var i :| 0 <= i < |before| && before[i].purl != "" && IsKey(k, keys(before[i].purl));
      assert cs[i] == before[i];
    }
    if HasKey(cs, k, keys) {
      var i :| 0 <= i < |cs| && cs[i].purl != "" && IsKey(k, keys(cs[i].purl));
      if i < |cs| - 1 {
        assert before[i] == cs[i];
      }
    }
  }

  ghost predicate MeansSome(value: string, cs: seq<Component>, keys: PurlKeys) {
    exists i :: 0 <= i < |cs| && Means(value, cs[i], keys)
  }

  lemma MeansSomeExact(value: string, cs: seq<Component>, keys: PurlKeys)
    ensures var ks := keys(value);
            MeansSome(value, cs, keys) <==>
              HasRef(cs, value) || HasKey(cs, ks.0, keys) || HasKey(cs, ks.1, keys) || HasKey(cs, ks.2, keys)
  {
    var ks := keys(value);
    if MeansSome(value, cs, keys) {
      var i :| 0 <= i < |cs| && Means(value, cs[i], keys);
    }
    if HasRef(cs, value) {
      var i :| 0 <= i < |cs| && cs[i].ref != "" && cs[i].ref == value;
      assert Means(value, cs[i], keys);
    }
    forall k | IsKey(k, ks) && HasKey(cs, k, keys)
      ensures MeansSome(value, cs, keys)
    {
      var i :| 0 <= i < |cs| && cs[i].purl != "" && IsKey(k, keys(cs[i].purl));
      assert Means(value, cs[i], keys);
    }
  }

  /** A finding gets a component exactly when some component of the payload has its reference or
      shares a purl key with it, and it gets the id of such a component. */
  lemma FindingComponentExact(value: string, cs: seq<Component>, stable: StableId, keys: PurlKeys)
    ensures var got := ResolveComponent(value, ComponentRefs(cs, stable), PurlIndex(cs, stable, keys), keys);
            (got.Some? <==> value != "" && MeansSome(value, cs, keys)) &&
            (got.Some? ==> IdOfSuch(got.value, cs, stable, IsMeant(value, keys)))
  {
    RefsExact(cs, stable);
    PurlsExact(cs, stable, keys);
    MeansSomeExact(value, cs, keys);
    var refs, purls := ComponentRefs(cs, stable), PurlIndex(cs, stable, keys);
    if value != "" && value in refs {
      OfRefIsMeant(refs[value], value, cs, stable, keys);
    } else {
      forall k | k in purls && IsKey(k, keys(value))
        ensures IdOfSuch(purls[k], cs, stable, IsMeant(value, keys))
      {
        OfKeyIsMeant(purls[k], k, value, cs, stable, keys);
      }
    }
  }

  lemma OfRefIsMeant(id: string, value: string, cs: seq<Component>, stable: StableId, keys: PurlKeys)
    requires IdOfSuch(id, cs, stable, HasThisRef(value))
    ensures IdOfSuch(id, cs, stable, IsMeant(value, keys))
  {
    var i :| 0 <= i < |cs| && HasThisRef(value)(cs[i]) && id == ComponentId(cs[i], stable);
    assert IsMeant(value, keys)(cs[i]);
  }

  lemma OfKeyIsMeant(id: string, k: string, value: string, cs: seq<Component>, stable: StableId, keys: PurlKeys)
    requires IsKey(k, keys(value)) && IdOfSuch(id, cs, stable, HasThisKey(k, keys))
    ensures IdOfSuch(id, cs, stable, IsMeant(value, keys))
  {
    var i :| 0 <= i < |cs| && HasThisKey(k, keys)(cs[i]) && id == ComponentId(cs[i], stable);
    assert IsMeant(value, keys)(cs[i]);
  }

  /** So no finding of a payload is stored with a component that is not stored. */
  lemma ResolvedComponentIsStored(value: string, cs: seq<Component>, m: map<string, ComponentRow>, stable: StableId,
                                  keys: PurlKeys)
    ensures Stored(ResolveComponent(value, ComponentRefs(cs, stable), PurlIndex(cs, stable, keys), keys),
                   Run(ComponentRules(stable), m, cs).Keys)
  {
    FindingComponentExact(value, cs, stable, keys);
    RunKeys(ComponentRules(stable), m, cs);
    var got := ResolveComponent(value, ComponentRefs(cs, stable), PurlIndex(cs, stable, keys), keys);
    if got.Some? {
      var i :| 0 <= i < |cs| && IsMeant(value, keys)(cs[i]) && got.value == ComponentId(cs[i], stable);
      assert ComponentRules(stable).key(cs[i]) == got.value;
    }
  }

  // ---- purl keys -------------------------------------------------------------------------------

  const PACKAGE_ID := "&package-id="

  /** `purl.split(PACKAGE_ID)[0]`. */
  function WithoutPackageId(purl: string): string {
    var i := Find(purl, PACKAGE_ID, 0);
    if i < 0 then purl else purl[..i]
  }

  function KeysOfPurl(purl: string): (string, string, string) {
    (purl, WithoutPackageId(purl), Head(purl, '?'))
  }

  /** The package id is a qualifier: it stands behind the question mark. */
  predicate WellFormedPurl(purl: string) {
    Find(purl, PACKAGE_ID, 0) >= 0 ==> '?' in purl[..Find(purl, PACKAGE_ID, 0)]
  }

  lemma {:induction false} HeadOfPrefix(s: string, n: nat, c: char)
    requires n <= |s| && c in s[..n]
    ensures Head(s[..n], c) == Head(s, c)
  {
    if s[0] != c {
      assert s[..n] == [s[0]] + s[1..][..n - 1];
      assert s[..n][1..] == s[1..][..n - 1];
      HeadOfPrefix(s[1..], n - 1, c);
    }
  }

  lemma KeysKeepHead(purl: string)
    requires WellFormedPurl(purl)
    ensures var (k0, k1, k2) := KeysOfPurl(purl);
            Head(k0, '?') == k2 && Head(k1, '?') == k2 && Head(k2, '?') == k2
  {
    var i := Find(purl, PACKAGE_ID, 0);
    if i >= 0 {
      HeadOfPrefix(purl, i, '?');
    }
    Cut(Head(purl, '?'), '?');
  }

  /** For well-formed purls, sharing a key is being the same purl up to the question mark. */
  lemma SharedKeyIsSameHead(a: string, b: string)
    requires WellFormedPurl(a) && WellFormedPurl(b)
    ensures Shares(KeysOfPurl(a), KeysOfPurl(b)) <==> Head(a, '?') == Head(b, '?')
  {
    KeysKeepHead(a);
    KeysKeepHead(b);
  }

  // ---- stored findings -------------------------------------------------------------------------

  /** Some component has the reference, or the same purl up to the question mark. */
  ghost predicate Named(value: string, cs: seq<Component>) {
    exists i :: 0 <= i < |cs| && NamedBy(value, cs[i])
  }

  predicate NamedBy(value: string, c: Component) {
    (c.ref != "" && c.ref == value) || (c.purl != "" && Head(c.purl, '?') == Head(value, '?'))
  }

  function NamedByValue(value: string): Component -> bool {
    (c: Component) => NamedBy(value, c)
  }

  ghost predicate WellFormedPurls(cs: seq<Component>) {
    forall i :: 0 <= i < |cs| ==> WellFormedPurl(cs[i].purl)
  }

  lemma MeansIsNamed(value: string, c: Component)
    requires WellFormedPurl(value) && WellFormedPurl(c.purl)
    ensures Means(value, c, KeysOfPurl) <==> NamedBy(value, c)
  {
    SharedKeyIsSameHead(value, c.purl);
  }

  /** For well-formed purls a finding resolves to a component exactly when the payload has one with its
      reference or with the same purl up to the question mark. */
  lemma FindingResolvesIffNamed(value: string, cs: seq<Component>, stable: StableId)
    requires WellFormedPurl(value) && WellFormedPurls(cs)
    ensures var got := ResolveComponent(value, ComponentRefs(cs, stable), PurlIndex(cs, stable, KeysOfPurl), KeysOfPurl);
            (got.Some? <==> value != "" && Named(value, cs)) && (got.Some? ==> IdOfSuch(got.value, cs, stable, NamedByValue(value)))
  {
    var got := ResolveComponent(value, ComponentRefs(cs, stable), PurlIndex(cs, stable, KeysOfPurl), KeysOfPurl);
    FindingComponentExact(value, cs, stable, KeysOfPurl);
    if got.Some? {
      var i :| 0 <= i < |cs| && IsMeant(value, KeysOfPurl)(cs[i]) && got.value == ComponentId(cs[i], stable);
      MeansIsNamed(value, cs[i]);
      assert NamedByValue(value)(cs[i]);
    }
    if MeansSome(value, cs, KeysOfPurl) {
      var i :| 0 <= i < |cs| && Means(value, cs[i], KeysOfPurl);
      MeansIsNamed(value, cs[i]);
    }
    if Named(value, cs) {
      var i :| 0 <= i < |cs| && NamedBy(value, cs[i]);
      MeansIsNamed(value, cs[i]);
    }
  }

  lemma {:induction false} FindingOpAt(findings: seq<Finding>, assets: map<string, string>, components: map<string, string>,
                                       purls: map<string, string>, connector: Option<string>, stable: StableId,
                                       keys: PurlKeys, i: nat)
    requires i < |findings|
    ensures var ops := FindingOps(findings, assets, components, purls, connector, stable, keys); var f := findings[i];
            |ops| == |findings| &&
            ops[i] == FindingOpOf(f, ResolveRef(f.asset, assets), ResolveComponent(f.component, components, purls, keys),
                                  connector, stable)
  {
    var before := findings[..|findings| - 1];
    if i < |before| {
      FindingOpAt(before, assets, components, purls, connector, stable, keys, i);
    } else if before != [] {
      FindingOpAt(before, assets, components, purls, connector, stable, keys, 0);
    }
  }

  /** The row of a finding shows the last statement with its id. */
  lemma FindingRowShowsLast(m: map<string, FindingRow>, ops: seq<FindingOp>, assets: set<string>, components: set<string>, i: nat)
    requires i < |ops| && IsLast(FindingRules(assets, components), ops, i)
    ensures var m' := Run(FindingRules(assets, components), m, ops);
            ops[i].id in m' && m'[ops[i].id].component == ops[i].row.component && m'[ops[i].id].asset == ops[i].row.asset
  {
    var rules := FindingRules(assets, components);
    assert Lawful(rules);
    assert rules.key(ops[i]) in Keys(rules, ops);
    RunSettles(rules, m, ops, ops[i].id);
    var m' := Run(rules, m, ops);
    assert rules.update(m'[ops[i].id], ops[i]) == m'[ops[i].id];
  }

  /** The stored finding: its component is NULL or a stored row, and non-NULL exactly when some
      component of the payload has its reference or the same purl up to the question mark; then it is the
      id of such a component. */
  lemma StoredFindingComponent(t: Tables, p: Payload, env: Env, i: nat)
    requires env.keys == KeysOfPurl && Goes(t, PlanOf(t, p, env)) && i < |p.findings|
    requires WellFormedPurl(p.findings[i].component) && WellFormedPurls(p.components)
    requires var plan := PlanOf(t, p, env);
      i < |plan.findings| && IsLast(FindingRules(plan.assets.Keys, plan.components.Keys), plan.findings, i)
    ensures var t' := Ingested(t, p, env); var id := PlanOf(t, p, env).findings[i].id; var value := p.findings[i].component;
      id in t'.findings &&
      (t'.findings[id].component.Some? <==> value != "" && Named(value, p.components)) &&
      (t'.findings[id].component.Some? ==>
         t'.findings[id].component.value in t'.components &&
         IdOfSuch(t'.findings[id].component.value, p.components, env.stable, NamedByValue(value)))
  {
    var plan, value := PlanOf(t, p, env), p.findings[i].component;
    var refs, purls := ComponentRefs(p.components, env.stable), PurlIndex(p.components, env.stable, KeysOfPurl);
    FindingOpAt(p.findings, AssetRefs(p.assets, env.stable), refs, purls, env.connector, env.stable, KeysOfPurl, i);
    FindingRowShowsLast(t.findings, plan.findings, plan.assets.Keys, plan.components.Keys, i);
    FindingResolvesIffNamed(value, p.components, env.stable);
    ResolvedComponentIsStored(value, p.components, t.components, env.stable, KeysOfPurl);
  }
}
