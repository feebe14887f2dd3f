/** The tables after a cluster was ingested, said of its containers alone. */
module ClusterRows {
  import opened Wrappers
  import opened Text
  import opened UpsertTable
  import opened Inventory
  import opened StoredRows
  import opened KubernetesPayload
  import Images = ImageReference

  ghost predicate IsRow(rows: map<string, AssetRow>, id: string, kind: string, externalId: string) {
    id in rows && rows[id].kind == kind && rows[id].externalId == externalId
  }

  ghost predicate IsEdge(rows: map<string, RelationshipRow>, source: string, kind: string, target: string) {
    exists id :: id in rows && rows[id].source == source && rows[id].kind == kind && rows[id].target == target
  }

  /** A reference of the payload resolves to the row it names. */
  lemma RefIsRow(t: Tables, workloads: seq<Workload>, cluster: string, provider: string, checks: Checks, env: Env,
                 prefix: string, kind: string, externalId: string)
    requires Tidy(t, env.stable) && HashesText(env.stable)
    requires (prefix == "cluster:" && kind == "k8s_cluster") || (prefix == "wl:" && kind == "k8s_workload")
      || (prefix == "img:" && kind == "container_image")
    requires prefix + externalId in AssetRefs(PayloadOf(workloads, cluster, provider, checks).assets, env.stable)
    ensures var p := PayloadOf(workloads, cluster, provider, checks);
      IsRow(Ingested(t, p, env).assets, AssetRefs(p.assets, env.stable)[prefix + externalId], kind, externalId)
  {
    var p := PayloadOf(workloads, cluster, provider, checks);
    var a := RefNamesAsset(p.assets, env.stable, prefix + externalId);
    AllOfCluster(workloads, cluster, provider, checks, a);
    RefSaysKind(a, prefix, kind, externalId);
    ClusterIsStored(t, workloads, cluster, provider, checks, env);
    assert IsStored(Ingested(t, p, env).assets, a, env.stable);
  }

  lemma RefSaysKind(a: Asset, prefix: string, kind: string, externalId: string)
    requires WellNamed(a) && a.ref == prefix + externalId
    requires (prefix == "cluster:" && kind == "k8s_cluster") || (prefix == "wl:" && kind == "k8s_workload")
      || (prefix == "img:" && kind == "container_image")
    ensures a.kind == kind && ExternalId(a) == externalId
  {
    assert "cluster:"[0] == 'c' && "wl:"[0] == 'w' && "img:"[0] == 'i';
    assert a.ref[0] == prefix[0];
    assert a.ref[|prefix|..] == externalId;
    assert (prefix + ExternalId(a))[|prefix|..] == ExternalId(a);
  }

  /** What the tables hold of one container: its row, the rows of its cluster and its image, that it
      belongs to the cluster, and that the image runs in it. */
  ghost predicate HoldsContainer(t: Tables, w: Workload, c: Container, cluster: string) {
    exists x, y, z ::
      && IsRow(t.assets, x, "k8s_workload", w.slug + "/" + c.name) && IsRow(t.assets, y, "k8s_cluster", cluster)
      && IsRow(t.assets, z, "container_image", Images.Print(c.image))
      && IsEdge(t.relationships, x, "belongs_to", y) && IsEdge(t.relationships, z, "runs_in", x)
  }

  lemma EdgeIsRow(t: Tables, p: Payload, r: Relationship, refs: map<string, string>, stable: StableId)
    requires HasEdge(p, r) && r.kind != "" && forall q :: q in p.relationships ==> IsLinked(t, q, refs, stable)
    ensures r.source in refs && r.target in refs && IsEdge(t.relationships, refs[r.source], r.kind, refs[r.target])
  {
    var q :| q in p.relationships && SameEdge(q, r);
    assert IsLinked(t, q, refs, stable);
  }

  /** An edge that some container gives is a row between what its references resolve to. */
  lemma EdgeOfCluster(t: Tables, workloads: seq<Workload>, cluster: string, provider: string, checks: Checks, env: Env,
                      r: Relationship)
    requires SomeGivesEdge(workloads, cluster, r) && r.kind != "" && Tidy(t, env.stable) && HashesText(env.stable)
    ensures var p := PayloadOf(workloads, cluster, provider, checks); var refs := AssetRefs(p.assets, env.stable);
      r.source in refs && r.target in refs &&
      IsEdge(Ingested(t, p, env).relationships, refs[r.source], r.kind, refs[r.target])
  {
    var p := PayloadOf(workloads, cluster, provider, checks);
    assert HasEdge(p, r) by {
      EdgesAreGiven(workloads, cluster, p, r);
    }
    ClusterIsStored(t, workloads, cluster, provider, checks, env);
    EdgeIsRow(Ingested(t, p, env), p, r, AssetRefs(p.assets, env.stable), env.stable);
  }

  lemma Held(t: Tables, w: Workload, c: Container, cluster: string, x: string, y: string, z: string)
    requires IsRow(t.assets, x, "k8s_workload", w.slug + "/" + c.name) && IsRow(t.assets, y, "k8s_cluster", cluster)
    requires IsRow(t.assets, z, "container_image", Images.Print(c.image))
    requires IsEdge(t.relationships, x, "belongs_to", y) && IsEdge(t.relationships, z, "runs_in", x)
    ensures HoldsContainer(t, w, c, cluster)
  {
  }

  /** Every container of an ingested cluster is held. */
  lemma ContainerIsStored(t: Tables, workloads: seq<Workload>, cluster: string, provider: string, checks: Checks, env: Env,
                          w: Workload, c: Container)
    requires Holds(workloads, w, c) && Tidy(t, env.stable) && HashesText(env.stable)
    ensures HoldsContainer(Ingested(t, PayloadOf(workloads, cluster, provider, checks), env), w, c, cluster)
  {
    var p := PayloadOf(workloads, cluster, provider, checks);
    var refs := AssetRefs(p.assets, env.stable);
    var own, image := w.slug + "/" + c.name, Images.Print(c.image);
    var belongs := Relationship("", "wl:" + own, "belongs_to", "cluster:" + cluster, "");
    var runs := Relationship("", "img:" + image, "runs_in", "wl:" + own, "");
    assert GivesEdge(belongs, w, c, cluster) && GivesEdge(runs, w, c, cluster);
    EdgeOfCluster(t, workloads, cluster, provider, checks, env, belongs);
    EdgeOfCluster(t, workloads, cluster, provider, checks, env, runs);
    RefIsRow(t, workloads, cluster, provider, checks, env, "wl:", "k8s_workload", own);
    RefIsRow(t, workloads, cluster, provider, checks, env, "cluster:", "k8s_cluster", cluster);
    RefIsRow(t, workloads, cluster, provider, checks, env, "img:", "container_image", image);
    Held(Ingested(t, p, env), w, c, cluster, refs["wl:" + own], refs["cluster:" + cluster], refs["img:" + image]);
  }

  // ---- findings --------------------------------------------------------------------------------

  lemma JoinedFour(a: string, b: string, c: string, d: string)
    ensures Joined([a, b, c, d]) == a + [':'] + (b + [':'] + (c + [':'] + d))
  {
    assert [a, b, c, d][1..] == [b, c, d];
    JoinedThree(b, c, d);
  }

  /** Findings without components that share an id are about the same asset and say the same. */
  lemma FindingFromId(kind: string, asset: string, title: string, kind': string, asset': string, title': string, stable: StableId)
    requires HashesText(stable) && ':' !in kind && ':' !in kind' && ':' !in asset && ':' !in asset'
    requires stable("finding", [kind, asset, "", title]) == stable("finding", [kind', asset', "", title'])
    ensures kind == kind' && asset == asset' && title == title'
  {
    JoinedFour(kind, asset, "", title);
    JoinedFour(kind', asset', "", title');
    var x, y := "" + [':'] + title, "" + [':'] + title';
    SameHeads(kind, asset, x, kind', asset', y);
    assert x[1..] == title && y[1..] == title';
  }

  /** The finding is a row at the asset. */
  ghost predicate IsFinding(rows: map<string, FindingRow>, asset: string, title: string) {
    exists id :: id in rows && rows[id].asset == Some(asset) && rows[id].title == title && rows[id].component == None
  }

  lemma {:induction false} LastExists<T>(xs: seq<T>, has: T -> bool) returns (i: nat)
    requires AnyOf(xs, has)
    ensures IsLastOf(xs, i, has)
  {
    var k :| 0 <= k < |xs| && has(xs[k]);
    if AnyOf(xs[k + 1..], has) {
      var j := LastExists(xs[k + 1..], has);
      i := k + 1 + j;
      assert xs[k + 1..][j + 1..] == xs[i + 1..];
    } else {
      i := k;
    }
  }

  /** The id a finding about an asset of the payload is stored under. */
  lemma FindingId(f: Finding, at: Places, asset: string, stable: StableId, id: string)
    requires f.id == "" && at.asset(f) == Some(asset) && at.component(f) == None
    ensures FindingWith(at, stable)(id)(f) <==> id == stable("finding", [f.kind, asset, "", f.title])
  {
  }

  lemma PlacedFinding(
      m: map<string, FindingRow>, m': map<string, FindingRow>, findings: seq<Finding>, at: Places, env: Env,
      asset: Finding -> string, f: Finding)
    requires HashesText(env.stable) && FindingsStored(m, m', findings, at, env) && f in findings
    requires forall g :: g in findings ==>
      g.id == "" && at.asset(g) == Some(asset(g)) && at.component(g) == None && ':' !in g.kind && ':' !in asset(g)
    ensures IsFinding(m', asset(f), f.title)
  {
    var id := env.stable("finding", [f.kind, asset(f), "", f.title]);
    var has := FindingWith(at, env.stable)(id);
    var k :| 0 <= k < |findings| && findings[k] == f;
    FindingId(f, at, asset(f), env.stable, id);
    var i := LastExists(findings, has);
    var g := findings[i];
    assert g in findings;
    FindingId(g, at, asset(g), env.stable, id);
    FindingFromId(f.kind, asset(f), f.title, g.kind, asset(g), g.title, env.stable);
    assert RowShows(m, m', findings, has, ShowsFinding(at, env.connector), HasKind, id, i);
  }

  /** Where the findings of the payload point to, as ids. */
  function AssetIds(refs: map<string, string>): Finding -> string {
    (g: Finding) => if g.asset in refs then refs[g.asset] else ""
  }

  lemma PlaceOfFinding(workloads: seq<Workload>, cluster: string, provider: string, checks: Checks, env: Env, g: Finding, at: Places)
    requires HashesText(env.stable) && SomeNotes(workloads, checks, g)
    requires var p := PayloadOf(workloads, cluster, provider, checks);
      at == PlacesOf(AssetRefs(p.assets, env.stable), ComponentRefs(p.components, env.stable),
                     PurlIndex(p.components, env.stable, env.keys), env.keys)
    ensures var refs := AssetRefs(PayloadOf(workloads, cluster, provider, checks).assets, env.stable);
      g.id == "" && g.asset in refs && at.asset(g) == Some(refs[g.asset]) && at.component(g) == None && ':' !in refs[g.asset]
  {
    var p := PayloadOf(workloads, cluster, provider, checks);
    FindingsAreNoted(workloads, checks, g);
    PayloadIsClosed(workloads, cluster, provider, checks);
    assert g in p.findings;
    RefResolves(p.assets, env.stable, g.asset);
    var a := RefNamesAsset(p.assets, env.stable, g.asset);
    AllOfCluster(workloads, cluster, provider, checks, a);
    AssetIdIsPlain(a, env.stable);
  }

  lemma ClusterFindings(t: Tables, workloads: seq<Workload>, cluster: string, provider: string, checks: Checks, env: Env)
    requires Tidy(t, env.stable) && HashesText(env.stable)
    ensures var p := PayloadOf(workloads, cluster, provider, checks);
      var at := PlacesOf(AssetRefs(p.assets, env.stable), ComponentRefs(p.components, env.stable),
                         PurlIndex(p.components, env.stable, env.keys), env.keys);
      FindingsStored(t.findings, Ingested(t, p, env).findings, p.findings, at, env)
  {
    ClusterIsStored(t, workloads, cluster, provider, checks, env);
    IngestStores(t, PayloadOf(workloads, cluster, provider, checks), env);
  }

  /** Every note about a container, and the verdict on a workload, ends up as a finding at the row of the
      container, if the kinds of findings have no colon. */
  lemma NoteIsStored(t: Tables, workloads: seq<Workload>, cluster: string, provider: string, checks: Checks, env: Env,
                     f: Finding, externalId: string)
    requires Tidy(t, env.stable) && HashesText(env.stable)
    requires forall g :: SomeNotes(workloads, checks, g) ==> ':' !in g.kind
    requires SomeNotes(workloads, checks, f) && f.asset == "wl:" + externalId
    ensures var t' := Ingested(t, PayloadOf(workloads, cluster, provider, checks), env);
      exists x :: IsRow(t'.assets, x, "k8s_workload", externalId) && IsFinding(t'.findings, x, f.title)
  {
    var p := PayloadOf(workloads, cluster, provider, checks);
    var refs, findings := AssetRefs(p.assets, env.stable), Flat(workloads, WorkloadFindings(checks));
    var at := PlacesOf(refs, ComponentRefs(p.components, env.stable), PurlIndex(p.components, env.stable, env.keys), env.keys);
    var asset := AssetIds(refs);
    forall g | g in findings
      ensures g.id == "" && at.asset(g) == Some(asset(g)) && at.component(g) == None && ':' !in g.kind && ':' !in asset(g)
    {
      FindingsAreNoted(workloads, checks, g);
      PlaceOfFinding(workloads, cluster, provider, checks, env, g, at);
    }
    FindingsAreNoted(workloads, checks, f);
    ClusterFindings(t, workloads, cluster, provider, checks, env);
    PlacedFinding(t.findings, Ingested(t, p, env).findings, findings, at, env, asset, f);
    PlaceOfFinding(workloads, cluster, provider, checks, env, f, at);
    RefIsRow(t, workloads, cluster, provider, checks, env, "wl:", "k8s_workload", externalId);
  }
}
