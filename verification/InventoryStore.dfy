/** The store's `ingest`, statement by statement, against the ingest of the specification. */
module InventoryStore {
  import opened Wrappers
  import opened UpsertTable
  import opened Inventory
  import opened StoredRows

  class Store {
    var assets: map<string, AssetRow>
    var components: map<string, ComponentRow>
    var usages: map<string, UsageRow>
    var relationships: map<string, RelationshipRow>
    var findings: map<string, FindingRow>

    function View(): Tables
      reads this
    {
      Tables(assets, components, usages, relationships, findings)
    }

    constructor ()
      ensures View() == Tables(map[], map[], map[], map[], map[])
    {
      assets, components, usages, relationships, findings := map[], map[], map[], map[], map[];
    }

    /** Either every statement of the payload takes effect or, at the first foreign key that forbids
        one, none does. Reports how many relationships of the payload had both ends named. */
    method Ingest(p: Payload, env: Env) returns (ok: bool, linked: nat)
      modifies this
      ensures View() == Ingested(old(View()), p, env)
      ensures ok <==> Goes(old(View()), PlanOf(old(View()), p, env))
      ensures if ok then Stores(old(View()), View(), p, env) else View() == old(View())
      ensures ok ==> linked == |RelationshipOps(p.relationships, AssetRefs(p.assets, env.stable), env.stable)|
    {
      linked := 0;
      var newAssets, assetRefs := UpsertAssets(assets, p, env);
      var newComponents, componentRefs, purls := UpsertComponents(components, p, env);
      var provenance := ProvenanceOps(p.assets, assetRefs, newAssets, env.find, env.stable);
      var newUsages, newLinks, newFindings;
      ok, newUsages := Execute(UsageRules(newAssets.Keys, newComponents.Keys), usages,
                               UsageOps(p.usages, assetRefs, componentRefs, env.stable));
      if !ok {
        return;
      }
      var links := RelationshipOps(p.relationships, assetRefs, env.stable);
      ok, newLinks := Execute(RelationshipRules(newAssets.Keys), relationships, provenance + links);
      if !ok {
        return;
      }
      ok, newFindings := Execute(FindingRules(newAssets.Keys, newComponents.Keys), findings,
                                 FindingOps(p.findings, assetRefs, componentRefs, purls, env.connector, env.stable, env.keys));
      if !ok {
        return;
      }
      linked := |links|;
      IngestStores(View(), p, env);
      assets, components, usages, relationships, findings := newAssets, newComponents, newUsages, newLinks, newFindings;
    }
  }

  lemma OneMoreAsset(rules: Rules<Asset, AssetRow>, start: map<string, AssetRow>, assets: seq<Asset>, i: nat, stable: StableId)
    requires i < |assets|
    ensures Run(rules, start, assets[..i + 1]) == Apply(rules, Run(rules, start, assets[..i]), assets[i])
    ensures var refs := AssetRefs(assets[..i], stable); var a := assets[i];
            AssetRefs(assets[..i + 1], stable) == if a.ref == "" then refs else refs[a.ref := AssetId(a, stable)]
  {
    assert assets[..i + 1][..i] == assets[..i];
  }

  method UpsertAssets(start: map<string, AssetRow>, p: Payload, env: Env)
    returns (table: map<string, AssetRow>, refs: map<string, string>)
    ensures table == Run(AssetRules(env.stable, env.connector, !p.discoveryOnly), start, p.assets)
    ensures refs == AssetRefs(p.assets, env.stable)
  {
    var rules := AssetRules(env.stable, env.connector, !p.discoveryOnly);
    table, refs := start, map[];
    for i := 0 to |p.assets|
      invariant table == Run(rules, start, p.assets[..i])
      invariant refs == AssetRefs(p.assets[..i], env.stable)
    {
      var asset := p.assets[i];
      OneMoreAsset(rules, start, p.assets, i, env.stable);
      table := Apply(rules, table, asset);
      if asset.ref != "" {
        refs := refs[asset.ref := AssetId(asset, env.stable)];
      }
    }
    assert p.assets[..|p.assets|] == p.assets;
  }

  lemma OneMoreComponent(rules: Rules<Component, ComponentRow>, start: map<string, ComponentRow>, cs: seq<Component>, i: nat, env: Env)
    requires i < |cs|
    ensures Run(rules, start, cs[..i + 1]) == Apply(rules, Run(rules, start, cs[..i]), cs[i])
    ensures var refs := ComponentRefs(cs[..i], env.stable); var id := ComponentId(cs[i], env.stable);
            ComponentRefs(cs[..i + 1], env.stable) == if cs[i].ref == "" then refs else refs[cs[i].ref := id]
    ensures var purls := PurlIndex(cs[..i], env.stable, env.keys); var id := ComponentId(cs[i], env.stable);
            PurlIndex(cs[..i + 1], env.stable, env.keys) ==
              if cs[i].purl == "" then purls else WithKeys(purls, env.keys(cs[i].purl), id)
  {
    assert cs[..i + 1][..i] == cs[..i];
  }

  method UpsertComponents(start: map<string, ComponentRow>, p: Payload, env: Env)
    returns (table: map<string, ComponentRow>, refs: map<string, string>, purls: map<string, string>)
    ensures table == Run(ComponentRules(env.stable), start, p.components)
    ensures refs == ComponentRefs(p.components, env.stable)
    ensures purls == PurlIndex(p.components, env.stable, env.keys)
  {
    var rules := ComponentRules(env.stable);
    table, refs, purls := start, map[], map[];
    for i := 0 to |p.components|
      invariant table == Run(rules, start, p.components[..i])
      invariant refs == ComponentRefs(p.components[..i], env.stable)
      invariant purls == PurlIndex(p.components[..i], env.stable, env.keys)
    {
      var c := p.components[i];
      OneMoreComponent(rules, start, p.components, i, env);
      table := Apply(rules, table, c);
      var id := ComponentId(c, env.stable);
      if c.ref != "" {
        refs := refs[c.ref := id];
      }
      if c.purl != "" {
        purls := WithKeys(purls, env.keys(c.purl), id);
      }
    }
    assert p.components[..|p.components|] == p.components;
  }
}
