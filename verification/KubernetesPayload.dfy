/** The Kubernetes cartographer's payload, and what ingesting it stores. */
module KubernetesPayload {
  import opened Wrappers
  import opened UpsertTable
  import opened Inventory
  import StoredRows
  import Images = ImageReference

  datatype Container = Container(name: string, image: Images.ImageRef)

  /** `slug` is cluster/namespace/kind/name. */
  datatype Workload = Workload(slug: string, containers: seq<Container>)

  /** What a check says about a workload or a container; where it points is added by the builder. */
  datatype Note = Note(kind: string, title: string, body: string)

  /** The checks: hygiene of one container's image, and the verdict on a workload. */
  datatype Checks = Checks(hygiene: (Workload, Container) -> seq<Note>, shadow: Workload -> Option<Note>)

  function ClusterRef(cluster: string): string {
    "cluster:" + cluster
  }

  function ExternalIdOf(w: Workload, c: Container): string {
    w.slug + "/" + c.name
  }

  function WorkloadRef(w: Workload, c: Container): string {
    "wl:" + ExternalIdOf(w, c)
  }

  function ImageId(c: Container): string {
    "img:" + Images.Print(c.image)
  }

  /** The reference an image id was made from. */
  function ReferenceOf(imageId: string): string {
    if |imageId| >= 4 then imageId[4..] else ""
  }

  function BelongsTo(w: Workload, c: Container, cluster: string): Relationship {
    Relationship("", WorkloadRef(w, c), "belongs_to", ClusterRef(cluster), "")
  }

  function RunsIn(w: Workload, c: Container): Relationship {
    Relationship("", ImageId(c), "runs_in", WorkloadRef(w, c), c.image.digest + " " + c.name)
  }

  function Placed(n: Note, ref: string): Finding {
    Finding("", n.kind, n.title, ref, "", n.body)
  }

  function AssetAt(ref: string, kind: string, provider: string, externalId: string, body: string): Asset {
    Asset(ref, "", kind, provider, externalId, externalId, body, "", "")
  }

  // ---- what a cluster's payload holds ---------------------------------------------------------

  function Flat<A, B>(xs: seq<A>, f: A -> seq<B>): seq<B> {
    if xs == [] then [] else Flat(xs[..|xs| - 1], f) + f(xs[|xs| - 1])
  }

  function WorkloadAsset(w: Workload, c: Container, provider: string): Asset {
    AssetAt(WorkloadRef(w, c), "k8s_workload", provider, ExternalIdOf(w, c), "")
  }

  function ImageAsset(imageId: string, provider: string): Asset {
    AssetAt(imageId, "container_image", provider, ReferenceOf(imageId), "")
  }

  function ClusterAsset(cluster: string, provider: string): Asset {
    AssetAt(ClusterRef(cluster), "k8s_cluster", provider, cluster, "")
  }

  function ContainerAssets(w: Workload, provider: string): Container -> seq<Asset> {
    c => [WorkloadAsset(w, c, provider)]
  }

  function WorkloadAssets(provider: string): Workload -> seq<Asset> {
    (w: Workload) => Flat(w.containers, ContainerAssets(w, provider))
  }

  /** Each container belongs to the cluster and its image runs in it. */
  function ContainerEdges(w: Workload, cluster: string): Container -> seq<Relationship> {
    c => [BelongsTo(w, c, cluster), RunsIn(w, c)]
  }

  function WorkloadEdges(cluster: string): Workload -> seq<Relationship> {
    (w: Workload) => Flat(w.containers, ContainerEdges(w, cluster))
  }

  function PlacedAll(notes: seq<Note>, ref: string): seq<Finding> {
    if notes == [] then [] else PlacedAll(notes[..|notes| - 1], ref) + [Placed(notes[|notes| - 1], ref)]
  }

  function ContainerFindings(w: Workload, checks: Checks): Container -> seq<Finding> {
    c => PlacedAll(checks.hygiene(w, c), WorkloadRef(w, c))
  }

  /** The shadow verdict of a workload is attached to its first container. */
  function Verdict(w: Workload, checks: Checks): seq<Finding> {
    if checks.shadow(w).Some? && w.containers != []
    then [Placed(checks.shadow(w).value, WorkloadRef(w, w.containers[0]))] else []
  }

  function WorkloadFindings(checks: Checks): Workload -> seq<Finding> {
    (w: Workload) => Flat(w.containers, ContainerFindings(w, checks)) + Verdict(w, checks)
  }

  function ContainerImages(): Container -> seq<string> {
    c => [ImageId(c)]
  }

  function WorkloadImages(): Workload -> seq<string> {
    (w: Workload) => Flat(w.containers, ContainerImages())
  }

  function Noted(seen: seq<string>, id: string): seq<string> {
    if id in seen then seen else seen + [id]
  }

  /** The ids added to those seen, in the order they first appear. */
  function NotedAll(seen: seq<string>, ids: seq<string>): seq<string> {
    if ids == [] then seen else Noted(NotedAll(seen, ids[..|ids| - 1]), ids[|ids| - 1])
  }

  function ImageAssets(ids: seq<string>, provider: string): seq<Asset> {
    if ids == [] then [] else ImageAssets(ids[..|ids| - 1], provider) + [ImageAsset(ids[|ids| - 1], provider)]
  }

  function PayloadOf(workloads: seq<Workload>, cluster: string, provider: string, checks: Checks): Payload {
    Payload(false,
            [ClusterAsset(cluster, provider)] + Flat(workloads, WorkloadAssets(provider))
            + ImageAssets(NotedAll([], Flat(workloads, WorkloadImages())), provider),
            [], [], Flat(workloads, WorkloadEdges(cluster)), Flat(workloads, WorkloadFindings(checks)))
  }

  /** What is in a flattened list came from one of the elements. */
  lemma {:induction false} InFlat<A, B(!new)>(xs: seq<A>, f: A -> seq<B>, y: B)
    ensures y in Flat(xs, f) <==> exists i :: 0 <= i < |xs| && y in f(xs[i])
  {
    if xs != [] {
      var before, last := xs[..|xs| - 1], |xs| - 1;
      InFlat(before, f, y);
      if y in Flat(before, f) {
        var i :| 0 <= i < |before| && y in f(before[i]);
        assert y in f(xs[i]);
      }
      if i :| 0 <= i < |xs| && y in f(xs[i]) && i != last {
        assert y in f(before[i]);
      }
    }
  }

  /** An image is listed once, and listed exactly when some id names it. */
  lemma {:induction false} NotedOnce(ids: seq<string>)
    ensures forall id :: id in NotedAll([], ids) <==> id in ids
    ensures forall i, j :: 0 <= i < j < |NotedAll([], ids)| ==> NotedAll([], ids)[i] != NotedAll([], ids)[j]
  {
    if ids != [] {
      NotedOnce(ids[..|ids| - 1]);
      assert ids == ids[..|ids| - 1] + [ids[|ids| - 1]];
    }
  }

  // ---- what that says of the cluster -------------------------------------------------------------

  /** One container of the cluster. */
  predicate Holds(workloads: seq<Workload>, w: Workload, c: Container) {
    w in workloads && c in w.containers
  }

  lemma InWorkloads<B(!new)>(
      workloads: seq<Workload>, of: Workload -> Container -> seq<B>, all: Workload -> seq<B>, y: B)
    requires forall w :: all(w) == Flat(w.containers, of(w))
    ensures y in Flat(workloads, all) <==> exists w, c :: Holds(workloads, w, c) && y in of(w)(c)
  {
    InFlat(workloads, all, y);
    if y in Flat(workloads, all) {
      var i :| 0 <= i < |workloads| && y in all(workloads[i]);
      InFlat(workloads[i].containers, of(workloads[i]), y);
      var j :| 0 <= j < |workloads[i].containers| && y in of(workloads[i])(workloads[i].containers[j]);
      assert Holds(workloads, workloads[i], workloads[i].containers[j]);
    }
    if w, c :| Holds(workloads, w, c) && y in of(w)(c) {
      var i :| 0 <= i < |workloads| && workloads[i] == w;
      InFlat(w.containers, of(w), y);
      assert y in all(workloads[i]);
    }
  }

  /** The container belongs to the cluster, and its image runs in it. */
  predicate GivesEdge(r: Relationship, w: Workload, c: Container, cluster: string) {
    || (r.source == "wl:" + (w.slug + "/" + c.name) && r.kind == "belongs_to" && r.target == "cluster:" + cluster)
    || (r.source == "img:" + Images.Print(c.image) && r.kind == "runs_in" && r.target == "wl:" + (w.slug + "/" + c.name))
  }

  /** An edge of an image carries its digest and the container's name. */
  predicate CarriesEvidence(r: Relationship, c: Container) {
    r.id == "" && r.body == if r.kind == "runs_in" then c.image.digest + (" " + c.name) else ""
  }

  ghost predicate SomeGivesWithEvidence(workloads: seq<Workload>, cluster: string, r: Relationship) {
    exists w, c :: Holds(workloads, w, c) && GivesEdge(r, w, c, cluster) && CarriesEvidence(r, c)
  }

  predicate SameEdge(r: Relationship, q: Relationship) {
    r.source == q.source && r.kind == q.kind && r.target == q.target
  }

  /** An edge of the payload has the ends of `r`. */
  ghost predicate HasEdge(p: Payload, r: Relationship) {
    exists q :: q in p.relationships && SameEdge(q, r)
  }

  ghost predicate SomeGivesEdge(workloads: seq<Workload>, cluster: string, r: Relationship) {
    exists w, c :: Holds(workloads, w, c) && GivesEdge(r, w, c, cluster)
  }

  /** The cluster, a container, or the image of a container. */
  predicate GivesAsset(a: Asset, w: Workload, c: Container) {
    || (a.ref == "wl:" + (w.slug + "/" + c.name) && a.kind == "k8s_workload" && a.externalId == w.slug + "/" + c.name)
    || (a.ref == "img:" + Images.Print(c.image) && a.kind == "container_image" && a.externalId == Images.Print(c.image))
  }

  predicate IsCluster(a: Asset, cluster: string) {
    a.ref == "cluster:" + cluster && a.kind == "k8s_cluster" && a.externalId == cluster
  }

  ghost predicate SomeGivesAsset(workloads: seq<Workload>, a: Asset) {
    exists w, c :: Holds(workloads, w, c) && GivesAsset(a, w, c)
  }

  predicate SameAsset(a: Asset, b: Asset) {
    a.ref == b.ref && a.kind == b.kind && a.externalId == b.externalId
  }

  ghost predicate HasAsset(p: Payload, a: Asset) {
    exists b :: b in p.assets && SameAsset(a, b)
  }

  /** A note about a container is placed at it. */
  predicate NotesContainer(f: Finding, w: Workload, c: Container, checks: Checks) {
    f.asset == "wl:" + (w.slug + "/" + c.name) && f.id == "" && f.component == "" &&
    Note(f.kind, f.title, f.body) in checks.hygiene(w, c)
  }

  /** The verdict on a workload is placed at its first container. */
  predicate NotesWorkload(f: Finding, w: Workload, checks: Checks) {
    w.containers != [] && f.asset == "wl:" + (w.slug + "/" + w.containers[0].name) && f.id == "" && f.component == "" &&
    checks.shadow(w) == Some(Note(f.kind, f.title, f.body))
  }

  ghost predicate SomeNotes(workloads: seq<Workload>, checks: Checks, f: Finding) {
    || (exists w, c :: Holds(workloads, w, c) && NotesContainer(f, w, c, checks))
    || (exists w :: w in workloads && NotesWorkload(f, w, checks))
  }

  /** The payload says of the cluster what is so, and nothing else. */
  ghost predicate Describes(p: Payload, workloads: seq<Workload>, cluster: string, provider: string, checks: Checks) {
    && (forall r :: HasEdge(p, r) <==> SomeGivesEdge(workloads, cluster, r))
    && (forall r :: r in p.relationships ==> SomeGivesWithEvidence(workloads, cluster, r))
    && (forall a :: HasAsset(p, a) <==> IsCluster(a, cluster) || SomeGivesAsset(workloads, a))
    && (forall a :: a in p.assets ==> a.provider == provider && a.id == "")
    && (forall f :: f in p.findings <==> SomeNotes(workloads, checks, f))
    && !p.discoveryOnly && p.components == [] && p.usages == []
  }

  function EdgesOf(cluster: string): Workload -> Container -> seq<Relationship> {
    (w: Workload) => ContainerEdges(w, cluster)
  }

  lemma EdgeGives(q: Relationship, w: Workload, c: Container, cluster: string)
    requires q in EdgesOf(cluster)(w)(c)
    ensures GivesEdge(q, w, c, cluster) && CarriesEvidence(q, c)
  {
    assert c.image.digest + " " + c.name == c.image.digest + (" " + c.name);
  }

  lemma GivenEdge(r: Relationship, w: Workload, c: Container, cluster: string) returns (q: Relationship)
    requires GivesEdge(r, w, c, cluster)
    ensures q in EdgesOf(cluster)(w)(c) && SameEdge(q, r)
  {
    var edges := EdgesOf(cluster)(w)(c);
    q := if r.kind == "belongs_to" then edges[0] else edges[1];
  }

  lemma SameGivesEdge(q: Relationship, r: Relationship, w: Workload, c: Container, cluster: string)
    requires GivesEdge(q, w, c, cluster) && SameEdge(q, r)
    ensures GivesEdge(r, w, c, cluster)
  {
  }

  lemma EdgesAreGiven(workloads: seq<Workload>, cluster: string, p: Payload, r: Relationship)
    requires p.relationships == Flat(workloads, WorkloadEdges(cluster))
    ensures HasEdge(p, r) <==> SomeGivesEdge(workloads, cluster, r)
  {
    if HasEdge(p, r) {
      var q :| q in p.relationships && SameEdge(q, r);
      InWorkloads(workloads, EdgesOf(cluster), WorkloadEdges(cluster), q);
      var w, c :| Holds(workloads, w, c) && q in EdgesOf(cluster)(w)(c);
      EdgeGives(q, w, c, cluster);
      SameGivesEdge(q, r, w, c, cluster);
    }
    if SomeGivesEdge(workloads, cluster, r) {
      var w, c :| Holds(workloads, w, c) && GivesEdge(r, w, c, cluster);
      var q := GivenEdge(r, w, c, cluster);
      InWorkloads(workloads, EdgesOf(cluster), WorkloadEdges(cluster), q);
    }
  }

  lemma EdgeCarriesEvidence(workloads: seq<Workload>, cluster: string, p: Payload, r: Relationship)
    requires p.relationships == Flat(workloads, WorkloadEdges(cluster)) && r in p.relationships
    ensures SomeGivesWithEvidence(workloads, cluster, r)
  {
    InWorkloads(workloads, EdgesOf(cluster), WorkloadEdges(cluster), r);
    var w, c :| Holds(workloads, w, c) && r in EdgesOf(cluster)(w)(c);
    EdgeGives(r, w, c, cluster);
  }

  function AssetsOf(provider: string): Workload -> Container -> seq<Asset> {
    (w: Workload) => ContainerAssets(w, provider)
  }

  function ImagesOf(): Workload -> Container -> seq<string> {
    (w: Workload) => ContainerImages()
  }

  lemma {:induction false} InImageAssets(ids: seq<string>, provider: string, a: Asset)
    ensures a in ImageAssets(ids, provider) <==> exists id :: id in ids && a == ImageAsset(id, provider)
  {
    if ids != [] {
      var before, last := ids[..|ids| - 1], ids[|ids| - 1];
      InImageAssets(before, provider, a);
      assert ids == before + [last];
    }
  }

  lemma ReferenceOfImage(c: Container)
    ensures ReferenceOf(ImageId(c)) == Images.Print(c.image)
  {
    assert ImageId(c)[4..] == Images.Print(c.image);
  }

  lemma WorkloadAssetGives(w: Workload, c: Container, provider: string)
    ensures GivesAsset(WorkloadAsset(w, c, provider), w, c)
  {
  }

  lemma ImageAssetGives(w: Workload, c: Container, provider: string)
    ensures GivesAsset(ImageAsset(ImageId(c), provider), w, c)
  {
    ReferenceOfImage(c);
  }

  lemma WorkloadAssetsAreGiven(workloads: seq<Workload>, provider: string, a: Asset)
    requires a in Flat(workloads, WorkloadAssets(provider))
    ensures SomeGivesAsset(workloads, a) && a.provider == provider && a.id == ""
  {
    InWorkloads(workloads, AssetsOf(provider), WorkloadAssets(provider), a);
    var w, c :| Holds(workloads, w, c) && a in AssetsOf(provider)(w)(c);
    WorkloadAssetGives(w, c, provider);
  }

  lemma ImageAssetsAreGiven(workloads: seq<Workload>, provider: string, a: Asset)
    requires a in ImageAssets(NotedAll([], Flat(workloads, WorkloadImages())), provider)
    ensures SomeGivesAsset(workloads, a) && a.provider == provider && a.id == ""
  {
    var ids := NotedAll([], Flat(workloads, WorkloadImages()));
    InImageAssets(ids, provider, a);
    var id :| id in ids && a == ImageAsset(id, provider);
    NotedOnce(Flat(workloads, WorkloadImages()));
    InWorkloads(workloads, ImagesOf(), WorkloadImages(), id);
    var w, c :| Holds(workloads, w, c) && id in ImagesOf()(w)(c);
    ImageAssetGives(w, c, provider);
  }

  lemma AssetsAreGiven(workloads: seq<Workload>, cluster: string, provider: string, checks: Checks, a: Asset)
    requires a in PayloadOf(workloads, cluster, provider, checks).assets
    ensures IsCluster(a, cluster) || SomeGivesAsset(workloads, a)
    ensures a.provider == provider && a.id == ""
  {
    var ids := NotedAll([], Flat(workloads, WorkloadImages()));
    if a in Flat(workloads, WorkloadAssets(provider)) {
      WorkloadAssetsAreGiven(workloads, provider, a);
    } else if a in ImageAssets(ids, provider) {
      ImageAssetsAreGiven(workloads, provider, a);
    } else {
      assert a == ClusterAsset(cluster, provider);
    }
  }

  lemma GivenAreAssets(workloads: seq<Workload>, cluster: string, provider: string, checks: Checks, a: Asset)
    requires IsCluster(a, cluster) || SomeGivesAsset(workloads, a)
    ensures HasAsset(PayloadOf(workloads, cluster, provider, checks), a)
  {
    var p, ids := PayloadOf(workloads, cluster, provider, checks), NotedAll([], Flat(workloads, WorkloadImages()));
    if IsCluster(a, cluster) {
      assert ClusterAsset(cluster, provider) in p.assets && SameAsset(a, ClusterAsset(cluster, provider));
    } else {
      var w, c :| Holds(workloads, w, c) && GivesAsset(a, w, c);
      if a.kind == "k8s_workload" {
        var b := WorkloadAsset(w, c, provider);
        assert b in AssetsOf(provider)(w)(c);
        InWorkloads(workloads, AssetsOf(provider), WorkloadAssets(provider), b);
        assert b in p.assets && SameAsset(a, b);
      } else {
        var b := ImageAsset(ImageId(c), provider);
        assert ImageId(c) in ImagesOf()(w)(c);
        InWorkloads(workloads, ImagesOf(), WorkloadImages(), ImageId(c));
        NotedOnce(Flat(workloads, WorkloadImages()));
        InImageAssets(ids, provider, b);
        ReferenceOfImage(c);
        assert b in p.assets && SameAsset(a, b);
      }
    }
  }

  lemma {:induction false} InPlacedAll(notes: seq<Note>, ref: string, f: Finding)
    ensures f in PlacedAll(notes, ref) <==> exists n :: n in notes && f == Placed(n, ref)
  {
    if notes != [] {
      var before, last := notes[..|notes| - 1], notes[|notes| - 1];
      InPlacedAll(before, ref, f);
      assert notes == before + [last];
    }
  }

  lemma ContainerIsNoted(w: Workload, c: Container, checks: Checks, f: Finding)
    ensures f in ContainerFindings(w, checks)(c) <==> NotesContainer(f, w, c, checks)
  {
    InPlacedAll(checks.hygiene(w, c), WorkloadRef(w, c), f);
    if NotesContainer(f, w, c, checks) {
      assert f == Placed(Note(f.kind, f.title, f.body), WorkloadRef(w, c));
    }
  }

  lemma WorkloadIsNoted(w: Workload, checks: Checks, f: Finding)
    ensures f in WorkloadFindings(checks)(w) <==>
              (exists c :: c in w.containers && NotesContainer(f, w, c, checks)) || NotesWorkload(f, w, checks)
  {
    InFlat(w.containers, ContainerFindings(w, checks), f);
    if f in Flat(w.containers, ContainerFindings(w, checks)) {
      var j :| 0 <= j < |w.containers| && f in ContainerFindings(w, checks)(w.containers[j]);
      ContainerIsNoted(w, w.containers[j], checks, f);
    }
    if c :| c in w.containers && NotesContainer(f, w, c, checks) {
      var j :| 0 <= j < |w.containers| && w.containers[j] == c;
      ContainerIsNoted(w, c, checks, f);
    }
    assert f in Verdict(w, checks) <==> NotesWorkload(f, w, checks);
  }

  lemma FindingsAreNoted(workloads: seq<Workload>, checks: Checks, f: Finding)
    ensures f in Flat(workloads, WorkloadFindings(checks)) <==> SomeNotes(workloads, checks, f)
  {
    InFlat(workloads, WorkloadFindings(checks), f);
    if f in Flat(workloads, WorkloadFindings(checks)) {
      var i :| 0 <= i < |workloads| && f in WorkloadFindings(checks)(workloads[i]);
      WorkloadIsNoted(workloads[i], checks, f);
      if !NotesWorkload(f, workloads[i], checks) {
        var c :| c in workloads[i].containers && NotesContainer(f, workloads[i], c, checks);
        assert Holds(workloads, workloads[i], c);
      }
    }
    if SomeNotes(workloads, checks, f) {
      var w :| w in workloads &&
        ((exists c :: c in w.containers && NotesContainer(f, w, c, checks)) || NotesWorkload(f, w, checks));
      WorkloadIsNoted(w, checks, f);
      var i :| 0 <= i < |workloads| && workloads[i] == w;
    }
  }

  /** The payload has an edge exactly for every container and its cluster and for every image and the
      container it runs in, an asset exactly for these, and the findings of the checks where they belong. */
  lemma PayloadDescribes(workloads: seq<Workload>, cluster: string, provider: string, checks: Checks)
    ensures Describes(PayloadOf(workloads, cluster, provider, checks), workloads, cluster, provider, checks)
  {
    var p := PayloadOf(workloads, cluster, provider, checks);
    forall r
      ensures HasEdge(p, r) <==> SomeGivesEdge(workloads, cluster, r)
    {
      EdgesAreGiven(workloads, cluster, p, r);
    }
    forall r | r in p.relationships
      ensures SomeGivesWithEvidence(workloads, cluster, r)
    {
      EdgeCarriesEvidence(workloads, cluster, p, r);
    }
    forall a | a in p.assets
      ensures (IsCluster(a, cluster) || SomeGivesAsset(workloads, a)) && a.provider == provider && a.id == ""
    {
      AssetsAreGiven(workloads, cluster, provider, checks, a);
    }
    forall a
      ensures HasAsset(p, a) <==> IsCluster(a, cluster) || SomeGivesAsset(workloads, a)
    {
      if HasAsset(p, a) {
        var b :| b in p.assets && SameAsset(a, b);
        SameIsGiven(workloads, cluster, a, b);
      }
      if IsCluster(a, cluster) || SomeGivesAsset(workloads, a) {
        GivenAreAssets(workloads, cluster, provider, checks, a);
      }
    }
    forall f
      ensures f in p.findings <==> SomeNotes(workloads, checks, f)
    {
      FindingsAreNoted(workloads, checks, f);
    }
  }

  lemma SameIsGiven(workloads: seq<Workload>, cluster: string, a: Asset, b: Asset)
    requires SameAsset(a, b) && (IsCluster(b, cluster) || SomeGivesAsset(workloads, b))
    ensures IsCluster(a, cluster) || SomeGivesAsset(workloads, a)
  {
    if SomeGivesAsset(workloads, b) {
      var w, c :| Holds(workloads, w, c) && GivesAsset(b, w, c);
      assert GivesAsset(a, w, c);
    }
  }

  // ---- the builder's loops -----------------------------------------------------------------------

  /** The payload under construction. */
  datatype Draft = Draft(assets: seq<Asset>, seen: seq<string>, rels: seq<Relationship>, findings: seq<Finding>)

  lemma FlatGrows<A, B>(base: seq<B>, xs: seq<A>, j: nat, f: A -> seq<B>)
    requires j < |xs|
    ensures base + Flat(xs[..j + 1], f) == (base + Flat(xs[..j], f)) + f(xs[j])
  {
    assert xs[..j + 1][..j] == xs[..j];
  }

  lemma {:induction false} NotedConcat(seen: seq<string>, ids: seq<string>, more: seq<string>)
    ensures NotedAll(seen, ids + more) == NotedAll(NotedAll(seen, ids), more)
  {
    if more == [] {
      assert ids + more == ids;
    } else {
      var all := ids + more;
      assert all[..|all| - 1] == ids + more[..|more| - 1];
      NotedConcat(seen, ids, more[..|more| - 1]);
    }
  }

  lemma ImagesGrow<A>(seen: seq<string>, xs: seq<A>, j: nat, f: A -> seq<string>)
    requires j < |xs|
    ensures NotedAll(seen, Flat(xs[..j + 1], f)) == NotedAll(NotedAll(seen, Flat(xs[..j], f)), f(xs[j]))
  {
    FlatGrows([], xs, j, f);
    assert [] + Flat(xs[..j + 1], f) == Flat(xs[..j + 1], f) && [] + Flat(xs[..j], f) == Flat(xs[..j], f);
    NotedConcat(seen, Flat(xs[..j], f), f(xs[j]));
  }

  method AddNotes(findings: seq<Finding>, notes: seq<Note>, ref: string) returns (r: seq<Finding>)
    ensures r == findings + PlacedAll(notes, ref)
  {
    r := findings;
    for k := 0 to |notes|
      invariant r == findings + PlacedAll(notes[..k], ref)
    {
      assert notes[..k + 1][..k] == notes[..k];
      r := r + [Placed(notes[k], ref)];
    }
    assert notes[..|notes|] == notes;
  }

  method AddContainer(d: Draft, w: Workload, c: Container, cluster: string, provider: string, checks: Checks)
    returns (r: Draft)
    ensures r == Draft(d.assets + ContainerAssets(w, provider)(c), Noted(d.seen, ImageId(c)),
                       d.rels + ContainerEdges(w, cluster)(c), d.findings + ContainerFindings(w, checks)(c))
  {
    var ref, image := WorkloadRef(w, c), ImageId(c);
    var assets := d.assets + [AssetAt(ref, "k8s_workload", provider, ExternalIdOf(w, c), "")];
    var rels := d.rels + [BelongsTo(w, c, cluster)];
    var seen := d.seen;
    if image !in seen {
      seen := seen + [image];
    }
    rels := rels + [RunsIn(w, c)];
    assert rels == d.rels + [BelongsTo(w, c, cluster), RunsIn(w, c)];
    var findings := AddNotes(d.findings, checks.hygiene(w, c), ref);
    r := Draft(assets, seen, rels, findings);
  }

  /** What a draft is after the workload's containers `cs`. */
  ghost predicate HasContainers(r: Draft, d: Draft, w: Workload, cs: seq<Container>, cluster: string, provider: string,
                                checks: Checks) {
    && r.assets == d.assets + Flat(cs, ContainerAssets(w, provider))
    && r.seen == NotedAll(d.seen, Flat(cs, ContainerImages()))
    && r.rels == d.rels + Flat(cs, ContainerEdges(w, cluster))
    && r.findings == d.findings + Flat(cs, ContainerFindings(w, checks))
  }

  lemma OneMoreContainer(r: Draft, r': Draft, d: Draft, w: Workload, j: nat, cluster: string, provider: string,
                         checks: Checks)
    requires j < |w.containers| && HasContainers(r, d, w, w.containers[..j], cluster, provider, checks)
    requires var c := w.containers[j];
      r' == Draft(r.assets + ContainerAssets(w, provider)(c), Noted(r.seen, ImageId(c)),
                  r.rels + ContainerEdges(w, cluster)(c), r.findings + ContainerFindings(w, checks)(c))
    ensures HasContainers(r', d, w, w.containers[..j + 1], cluster, provider, checks)
  {
    FlatGrows(d.assets, w.containers, j, ContainerAssets(w, provider));
    FlatGrows(d.rels, w.containers, j, ContainerEdges(w, cluster));
    FlatGrows(d.findings, w.containers, j, ContainerFindings(w, checks));
    ImagesGrow(d.seen, w.containers, j, ContainerImages());
    NotedOne(r.seen, ImageId(w.containers[j]));
  }

  lemma NotedOne(seen: seq<string>, id: string)
    ensures NotedAll(seen, [id]) == Noted(seen, id)
  {
    assert NotedAll(seen, [id][..0]) == seen;
  }

  method AddContainers(d: Draft, w: Workload, cluster: string, provider: string, checks: Checks)
    returns (r: Draft, first: Option<string>)
    ensures HasContainers(r, d, w, w.containers, cluster, provider, checks)
    ensures first == if w.containers == [] then None else Some(WorkloadRef(w, w.containers[0]))
  {
    r, first := d, None;
    for j := 0 to |w.containers|
      invariant HasContainers(r, d, w, w.containers[..j], cluster, provider, checks)
      invariant first == if j == 0 then None else Some(WorkloadRef(w, w.containers[0]))
    {
      var r' := AddContainer(r, w, w.containers[j], cluster, provider, checks);
      OneMoreContainer(r, r', d, w, j, cluster, provider, checks);
      r := r';
      if first.None? {
        first := Some(WorkloadRef(w, w.containers[j]));
      }
    }
    assert w.containers[..|w.containers|] == w.containers;
  }

  method AddWorkload(d: Draft, w: Workload, cluster: string, provider: string, checks: Checks) returns (r: Draft)
    ensures r.assets == d.assets + WorkloadAssets(provider)(w)
    ensures r.seen == NotedAll(d.seen, WorkloadImages()(w))
    ensures r.rels == d.rels + WorkloadEdges(cluster)(w)
    ensures r.findings == d.findings + WorkloadFindings(checks)(w)
  {
    var verdict := checks.shadow(w);
    var first;
    r, first := AddContainers(d, w, cluster, provider, checks);
    if verdict.Some? && first.Some? {
      r := r.(findings := r.findings + [Placed(verdict.value, first.value)]);
    }
  }

  method AddImages(assets: seq<Asset>, seen: seq<string>, provider: string) returns (r: seq<Asset>)
    ensures r == assets + ImageAssets(seen, provider)
  {
    r := assets;
    for i := 0 to |seen|
      invariant r == assets + ImageAssets(seen[..i], provider)
    {
      assert seen[..i + 1][..i] == seen[..i];
      r := r + [ImageAsset(seen[i], provider)];
    }
    assert seen[..|seen|] == seen;
  }

  method BuildPayload(workloads: seq<Workload>, cluster: string, provider: string, checks: Checks) returns (p: Payload)
    ensures p == PayloadOf(workloads, cluster, provider, checks)
    ensures Describes(p, workloads, cluster, provider, checks)
  {
    PayloadDescribes(workloads, cluster, provider, checks);
    var start := [ClusterAsset(cluster, provider)];
    var d := Draft(start, [], [], []);
    for i := 0 to |workloads|
      invariant d.assets == start + Flat(workloads[..i], WorkloadAssets(provider))
      invariant d.seen == NotedAll([], Flat(workloads[..i], WorkloadImages()))
      invariant d.rels == [] + Flat(workloads[..i], WorkloadEdges(cluster))
      invariant d.findings == [] + Flat(workloads[..i], WorkloadFindings(checks))
    {
      FlatGrows(start, workloads, i, WorkloadAssets(provider));
      FlatGrows([], workloads, i, WorkloadEdges(cluster));
      FlatGrows([], workloads, i, WorkloadFindings(checks));
      ImagesGrow([], workloads, i, WorkloadImages());
      d := AddWorkload(d, workloads[i], cluster, provider, checks);
    }
    assert workloads[..|workloads|] == workloads;
    var assets := AddImages(d.assets, d.seen, provider);
    p := Payload(false, assets, [], [], d.rels, d.findings);
  }

  // ---- closed payloads ---------------------------------------------------------------------------

  ghost predicate IsRef(assets: seq<Asset>, ref: string) {
    ref != "" && exists a :: a in assets && a.ref == ref
  }

  /** Every reference of the payload is the reference of one of its own assets. */
  ghost predicate ClosedRefs(p: Payload) {
    && p.components == [] && p.usages == []
    && (forall r :: r in p.relationships ==> IsRef(p.assets, r.source) && IsRef(p.assets, r.target))
    && (forall f :: f in p.findings ==> IsRef(p.assets, f.asset) && f.component == "")
    && (forall a :: a in p.assets ==> a.sourceRepository == "" && a.discoveredIn == "")
  }

  lemma {:induction false} ImageIsRef(ids: seq<string>, provider: string, id: string)
    requires id in ids && id != ""
    ensures IsRef(ImageAssets(ids, provider), id)
  {
    var before, last := ids[..|ids| - 1], ids[|ids| - 1];
    if id == last {
      assert ImageAsset(last, provider) in ImageAssets(ids, provider);
    } else {
      assert id in before;
      ImageIsRef(before, provider, id);
      var a :| a in ImageAssets(before, provider) && a.ref == id;
      assert a in ImageAssets(ids, provider);
    }
  }

  lemma {:induction false} ImagesArePlain(ids: seq<string>, provider: string)
    ensures forall a :: a in ImageAssets(ids, provider) ==> a.sourceRepository == "" && a.discoveredIn == ""
  {
    if ids != [] {
      ImagesArePlain(ids[..|ids| - 1], provider);
    }
  }

  lemma ContainerIsRef(workloads: seq<Workload>, i: nat, j: nat, provider: string)
    requires i < |workloads| && j < |workloads[i].containers|
    ensures IsRef(Flat(workloads, WorkloadAssets(provider)), WorkloadRef(workloads[i], workloads[i].containers[j]))
  {
    var w := workloads[i];
    var a := WorkloadAsset(w, w.containers[j], provider);
    assert a in ContainerAssets(w, provider)(w.containers[j]);
    InFlat(w.containers, ContainerAssets(w, provider), a);
    assert a in WorkloadAssets(provider)(w);
    InFlat(workloads, WorkloadAssets(provider), a);
  }

  lemma ImageIsNoted(workloads: seq<Workload>, i: nat, j: nat)
    requires i < |workloads| && j < |workloads[i].containers|
    ensures ImageId(workloads[i].containers[j]) in NotedAll([], Flat(workloads, WorkloadImages()))
  {
    var w := workloads[i];
    var id := ImageId(w.containers[j]);
    assert id in ContainerImages()(w.containers[j]);
    InFlat(w.containers, ContainerImages(), id);
    assert id in WorkloadImages()(w);
    InFlat(workloads, WorkloadImages(), id);
    NotedOnce(Flat(workloads, WorkloadImages()));
  }

  lemma RefsJoin(a: seq<Asset>, b: seq<Asset>, c: seq<Asset>, ref: string)
    requires IsRef(a, ref) || IsRef(b, ref) || IsRef(c, ref)
    ensures IsRef(a + b + c, ref)
  {
    var x :| (x in a || x in b || x in c) && x.ref == ref;
    assert x in a + b + c;
  }

  lemma EdgeIsClosed(workloads: seq<Workload>, cluster: string, provider: string, checks: Checks, r: Relationship)
    requires r in Flat(workloads, WorkloadEdges(cluster))
    ensures var assets := PayloadOf(workloads, cluster, provider, checks).assets;
      IsRef(assets, r.source) && IsRef(assets, r.target)
  {
    var own := [ClusterAsset(cluster, provider)];
    var workloadAssets := Flat(workloads, WorkloadAssets(provider));
    var ids := NotedAll([], Flat(workloads, WorkloadImages()));
    InFlat(workloads, WorkloadEdges(cluster), r);
    var i :| 0 <= i < |workloads| && r in WorkloadEdges(cluster)(workloads[i]);
    var w := workloads[i];
    InFlat(w.containers, ContainerEdges(w, cluster), r);
    var j :| 0 <= j < |w.containers| && r in ContainerEdges(w, cluster)(w.containers[j]);
    ContainerIsRef(workloads, i, j, provider);
    ImageIsNoted(workloads, i, j);
    ImageIsRef(ids, provider, ImageId(w.containers[j]));
    assert own[0] in own && IsRef(own, ClusterRef(cluster));
    RefsJoin(own, workloadAssets, ImageAssets(ids, provider), WorkloadRef(w, w.containers[j]));
    RefsJoin(own, workloadAssets, ImageAssets(ids, provider), ImageId(w.containers[j]));
    RefsJoin(own, workloadAssets, ImageAssets(ids, provider), ClusterRef(cluster));
  }

  lemma {:induction false} InPlaced(notes: seq<Note>, ref: string)
    ensures forall f :: f in PlacedAll(notes, ref) ==> f.asset == ref && f.component == ""
  {
    if notes != [] {
      InPlaced(notes[..|notes| - 1], ref);
    }
  }

  lemma FindingIsPlaced(w: Workload, checks: Checks, f: Finding) returns (j: nat)
    requires f in WorkloadFindings(checks)(w)
    ensures j < |w.containers| && f.asset == WorkloadRef(w, w.containers[j]) && f.component == ""
  {
    if f in Flat(w.containers, ContainerFindings(w, checks)) {
      InFlat(w.containers, ContainerFindings(w, checks), f);
      j :| 0 <= j < |w.containers| && f in ContainerFindings(w, checks)(w.containers[j]);
      InPlaced(checks.hygiene(w, w.containers[j]), WorkloadRef(w, w.containers[j]));
    } else {
      j := 0;
    }
  }

  lemma FindingIsClosed(workloads: seq<Workload>, cluster: string, provider: string, checks: Checks, f: Finding)
    requires f in Flat(workloads, WorkloadFindings(checks))
    ensures IsRef(PayloadOf(workloads, cluster, provider, checks).assets, f.asset) && f.component == ""
  {
    InFlat(workloads, WorkloadFindings(checks), f);
    var i :| 0 <= i < |workloads| && f in WorkloadFindings(checks)(workloads[i]);
    var j := FindingIsPlaced(workloads[i], checks, f);
    ContainerIsRef(workloads, i, j, provider);
    RefsJoin([ClusterAsset(cluster, provider)], Flat(workloads, WorkloadAssets(provider)),
             ImageAssets(NotedAll([], Flat(workloads, WorkloadImages())), provider), f.asset);
  }

  lemma AssetIsPlain(workloads: seq<Workload>, provider: string, a: Asset)
    requires a in Flat(workloads, WorkloadAssets(provider))
    ensures a.sourceRepository == "" && a.discoveredIn == "" && a.id == ""
  {
    InFlat(workloads, WorkloadAssets(provider), a);
    var i :| 0 <= i < |workloads| && a in WorkloadAssets(provider)(workloads[i]);
    InFlat(workloads[i].containers, ContainerAssets(workloads[i], provider), a);
  }

  /** Every payload the builder makes is closed: its relationships and findings refer only to its
      own assets. */
  lemma PayloadIsClosed(workloads: seq<Workload>, cluster: string, provider: string, checks: Checks)
    ensures ClosedRefs(PayloadOf(workloads, cluster, provider, checks))
  {
    var p := PayloadOf(workloads, cluster, provider, checks);
    forall r | r in p.relationships
      ensures IsRef(p.assets, r.source) && IsRef(p.assets, r.target)
    {
      EdgeIsClosed(workloads, cluster, provider, checks, r);
    }
    forall f | f in p.findings
      ensures IsRef(p.assets, f.asset) && f.component == ""
    {
      FindingIsClosed(workloads, cluster, provider, checks, f);
    }
    forall a | a in p.assets
      ensures a.sourceRepository == "" && a.discoveredIn == ""
    {
      ImagesArePlain(NotedAll([], Flat(workloads, WorkloadImages())), provider);
      if a in Flat(workloads, WorkloadAssets(provider)) {
        AssetIsPlain(workloads, provider, a);
      }
    }
  }

  // ---- ingesting a closed payload ----------------------------------------------------------

  lemma {:induction false} RefResolves(assets: seq<Asset>, stable: StableId, ref: string)
    requires IsRef(assets, ref)
    ensures ref in AssetRefs(assets, stable)
  {
    var before, last := assets[..|assets| - 1], assets[|assets| - 1];
    if last.ref != ref {
      var a :| a in assets && a.ref == ref;
      assert a in before;
      RefResolves(before, stable, ref);
    }
  }

  lemma {:induction false} RefsAreStored(
      assets: seq<Asset>, env: Env, scanned: bool, m: map<string, AssetRow>, ref: string)
    requires ref in AssetRefs(assets, env.stable)
    ensures AssetRefs(assets, env.stable)[ref] in Run(AssetRules(env.stable, env.connector, scanned), m, assets)
  {
    var rules := AssetRules(env.stable, env.connector, scanned);
    var before, last := assets[..|assets| - 1], assets[|assets| - 1];
    assert Run(rules, m, assets) == Apply(rules, Run(rules, m, before), last);
    assert rules.key(last) == AssetId(last, env.stable);
    if last.ref == "" || last.ref != ref {
      RefsAreStored(before, env, scanned, m, ref);
    }
  }

  /** Both ends of an operation's relationship are stored. */
  predicate EndsStored(op: RelationshipOp, stored: set<string>) {
    op.row.source in stored && op.row.target in stored
  }

  lemma {:induction false} ClosedLinks(
      assets: seq<Asset>, rels: seq<Relationship>, env: Env, scanned: bool, m: map<string, AssetRow>)
    requires forall r :: r in rels ==> IsRef(assets, r.source) && IsRef(assets, r.target)
    ensures var ops := RelationshipOps(rels, AssetRefs(assets, env.stable), env.stable);
            |ops| == |rels| &&
            forall i :: 0 <= i < |rels| ==>
              EndsStored(ops[i], Run(AssetRules(env.stable, env.connector, scanned), m, assets).Keys)
  {
    if rels != [] {
      var before, r := rels[..|rels| - 1], rels[|rels| - 1];
      assert r in rels && forall x :: x in before ==> x in rels;
      ClosedLinks(assets, before, env, scanned, m);
      RefResolves(assets, env.stable, r.source);
      RefResolves(assets, env.stable, r.target);
      RefsAreStored(assets, env, scanned, m, r.source);
      RefsAreStored(assets, env, scanned, m, r.target);
    }
  }

  lemma {:induction false} ClosedFindings(
      assets: seq<Asset>, findings: seq<Finding>, env: Env, scanned: bool, m: map<string, AssetRow>)
    requires forall f :: f in findings ==> IsRef(assets, f.asset) && f.component == ""
    ensures forall op :: op in FindingOps(findings, AssetRefs(assets, env.stable), map[], map[], env.connector, env.stable, env.keys) ==>
              op.row.component.None? && op.row.asset.Some? &&
              op.row.asset.value in Run(AssetRules(env.stable, env.connector, scanned), m, assets)
  {
    if findings != [] {
      var before, f := findings[..|findings| - 1], findings[|findings| - 1];
      assert f in findings && forall x :: x in before ==> x in findings;
      ClosedFindings(assets, before, env, scanned, m);
      RefResolves(assets, env.stable, f.asset);
      RefsAreStored(assets, env, scanned, m, f.asset);
    }
  }

  lemma {:induction false} NoProvenance(assets: seq<Asset>, refs: map<string, string>, table: map<string, AssetRow>, env: Env)
    requires forall a :: a in assets ==> a.sourceRepository == "" && a.discoveredIn == ""
    ensures ProvenanceOps(assets, refs, table, env.find, env.stable) == []
  {
    if assets != [] {
      assert assets[|assets| - 1] in assets && forall a :: a in assets[..|assets| - 1] ==> a in assets;
      NoProvenance(assets[..|assets| - 1], refs, table, env);
    }
  }

  lemma {:induction false} AllAllowedRuns<Op, Row>(rules: Rules<Op, Row>, m: map<string, Row>, ops: seq<Op>)
    requires forall op :: op in ops ==> rules.allowed(false, op) && rules.allowed(true, op)
    ensures Runs(rules, m, ops)
  {
    if ops != [] {
      var before, last := ops[..|ops| - 1], ops[|ops| - 1];
      assert last in ops && forall op :: op in before ==> op in ops;
      AllAllowedRuns(rules, m, before);
    }
  }

  /** No foreign key stops a closed payload, whatever is stored already. */
  lemma ClosedPayloadGoes(t: Tables, p: Payload, env: Env)
    requires ClosedRefs(p)
    ensures Goes(t, PlanOf(t, p, env))
    ensures PlanOf(t, p, env).relationships ==
            RelationshipOps(p.relationships, AssetRefs(p.assets, env.stable), env.stable)
  {
    var plan := PlanOf(t, p, env);
    var refs := AssetRefs(p.assets, env.stable);
    NoProvenance(p.assets, refs, plan.assets, env);
    ClosedLinks(p.assets, p.relationships, env, !p.discoveryOnly, t.assets);
    ClosedFindings(p.assets, p.findings, env, !p.discoveryOnly, t.assets);
    assert plan.relationships == RelationshipOps(p.relationships, refs, env.stable);
    AllAllowedRuns(RelationshipRules(plan.assets.Keys), t.relationships, plan.relationships);
    AllAllowedRuns(FindingRules(plan.assets.Keys, plan.components.Keys), t.findings, plan.findings);
  }

  /** The row a relationship of the payload asks for. */
  predicate Asks(r: Relationship, refs: map<string, string>, row: RelationshipRow) {
    r.source in refs && r.target in refs && row.source == refs[r.source] && row.target == refs[r.target] &&
    row.kind == Or(r.kind, "related_to")
  }

  /** The id a relationship without one is stored under. */
  function LinkId(r: Relationship, refs: map<string, string>, stable: StableId): string
    requires r.source in refs && r.target in refs
  {
    stable("relationship", [refs[r.source], Or(r.kind, "related_to"), refs[r.target]])
  }

  ghost predicate IsLinked(t: Tables, r: Relationship, refs: map<string, string>, stable: StableId) {
    r.source in refs && r.target in refs &&
    (var id := LinkId(r, refs, stable);
     id in t.relationships && Asks(r, refs, t.relationships[id]) &&
     t.relationships[id].source in t.assets && t.relationships[id].target in t.assets)
  }

  /** The statement a relationship without an id asks for. */
  lemma AskedLink(r: Relationship, refs: map<string, string>, stable: StableId) returns (op: RelationshipOp)
    requires r.source in refs && r.target in refs && r.source != "" && r.target != "" && r.id == ""
    ensures StoredRows.LinkOf(op, r, refs, stable) && op.id == LinkId(r, refs, stable) && Asks(r, refs, op.row)
  {
    op := RelationshipOp(LinkId(r, refs, stable),
                         RelationshipRow(refs[r.source], Or(r.kind, "related_to"), refs[r.target], r.body));
  }

  /** A closed payload goes in completely, whatever is stored already: each of its relationships is
      stored as a row with exactly its source, kind and target, between stored assets. */
  lemma ClosedPayloadIsStored(t: Tables, p: Payload, env: Env)
    requires ClosedRefs(p) && PlainIds(p) && Tidy(t, env.stable) && HashesText(env.stable)
    ensures Goes(t, PlanOf(t, p, env))
    ensures forall r :: r in p.relationships ==> IsLinked(Ingested(t, p, env), r, AssetRefs(p.assets, env.stable), env.stable)
  {
    var plan, refs, t' := PlanOf(t, p, env), AssetRefs(p.assets, env.stable), Ingested(t, p, env);
    ClosedPayloadGoes(t, p, env);
    ClosedLinks(p.assets, p.relationships, env, !p.discoveryOnly, t.assets);
    forall r | r in p.relationships
      ensures IsLinked(t', r, refs, env.stable)
    {
      RefResolves(p.assets, env.stable, r.source);
      RefResolves(p.assets, env.stable, r.target);
      var op := AskedLink(r, refs, env.stable);
      StoredRows.LinksAreOfPayload(p.relationships, refs, env.stable, op);
      assert op in plan.relationships;
      assert EndsStored(op, plan.assets.Keys);
      RelationshipKeepsItsEnds(t, p, env, op);
      assert Asks(r, refs, t'.relationships[op.id]);
    }
  }

  lemma ClusterHasPlainIds(workloads: seq<Workload>, cluster: string, provider: string, checks: Checks)
    ensures PlainIds(PayloadOf(workloads, cluster, provider, checks))
  {
    var p := PayloadOf(workloads, cluster, provider, checks);
    forall a | a in p.assets
      ensures a.id == ""
    {
      ImagesHaveNoId(NotedAll([], Flat(workloads, WorkloadImages())), provider);
      if a in Flat(workloads, WorkloadAssets(provider)) {
        AssetIsPlain(workloads, provider, a);
      }
    }
    forall r | r in p.relationships
      ensures r.id == "" && ':' !in r.kind
    {
      EdgeIsPlain(workloads, cluster, r);
    }
  }

  lemma {:induction false} ImagesHaveNoId(ids: seq<string>, provider: string)
    ensures forall a :: a in ImageAssets(ids, provider) ==> a.id == ""
  {
    if ids != [] {
      ImagesHaveNoId(ids[..|ids| - 1], provider);
    }
  }

  lemma EdgeIsPlain(workloads: seq<Workload>, cluster: string, r: Relationship)
    requires r in Flat(workloads, WorkloadEdges(cluster))
    ensures r.id == "" && ':' !in r.kind && r.kind != ""
  {
    InFlat(workloads, WorkloadEdges(cluster), r);
    var i :| 0 <= i < |workloads| && r in WorkloadEdges(cluster)(workloads[i]);
    InFlat(workloads[i].containers, ContainerEdges(workloads[i], cluster), r);
  }

  // ---- different things stay different -------------------------------------------------------

  /** The reference says what the asset is: its kind and its external id. */
  predicate WellNamed(a: Asset) {
    || (a.kind == "k8s_cluster" && a.ref == "cluster:" + ExternalId(a))
    || (a.kind == "k8s_workload" && a.ref == "wl:" + ExternalId(a))
    || (a.kind == "container_image" && a.ref == "img:" + ExternalId(a))
  }

  predicate OfCluster(a: Asset, provider: string) {
    a.id == "" && a.provider == provider && WellNamed(a)
  }

  lemma RefIsIdentity(a: Asset, b: Asset)
    requires WellNamed(a) && WellNamed(b)
    ensures a.ref == b.ref <==> a.kind == b.kind && ExternalId(a) == ExternalId(b)
  {
    assert "cluster:"[0] == 'c' && "wl:"[0] == 'w' && "img:"[0] == 'i';
    if a.ref == b.ref {
      assert a.ref[0] == b.ref[0];
      var n := if a.kind == "k8s_cluster" then 8 else if a.kind == "k8s_workload" then 3 else 4;
      assert a.ref[n..] == ExternalId(a) && b.ref[n..] == ExternalId(b);
    }
  }

  lemma ImageIsOfCluster(id: string, workloads: seq<Workload>, provider: string)
    requires id in NotedAll([], Flat(workloads, WorkloadImages()))
    ensures OfCluster(ImageAsset(id, provider), provider)
  {
    NotedOnce(Flat(workloads, WorkloadImages()));
    InFlat(workloads, WorkloadImages(), id);
    var i :| 0 <= i < |workloads| && id in WorkloadImages()(workloads[i]);
    InFlat(workloads[i].containers, ContainerImages(), id);
    var j :| 0 <= j < |workloads[i].containers| && id in ContainerImages()(workloads[i].containers[j]);
    assert id == "img:" + Images.Print(workloads[i].containers[j].image);
    assert id[4..] == Images.Print(workloads[i].containers[j].image);
  }

  lemma WorkloadIsOfCluster(workloads: seq<Workload>, provider: string, a: Asset)
    requires a in Flat(workloads, WorkloadAssets(provider))
    ensures OfCluster(a, provider)
  {
    InFlat(workloads, WorkloadAssets(provider), a);
    var i :| 0 <= i < |workloads| && a in WorkloadAssets(provider)(workloads[i]);
    InFlat(workloads[i].containers, ContainerAssets(workloads[i], provider), a);
  }

  lemma AllOfCluster(workloads: seq<Workload>, cluster: string, provider: string, checks: Checks, a: Asset)
    requires a in PayloadOf(workloads, cluster, provider, checks).assets
    ensures OfCluster(a, provider)
  {
    var ids := NotedAll([], Flat(workloads, WorkloadImages()));
    if a in Flat(workloads, WorkloadAssets(provider)) {
      WorkloadIsOfCluster(workloads, provider, a);
    } else if a in ImageAssets(ids, provider) {
      InImageAssets(ids, provider, a);
      var id :| id in ids && a == ImageAsset(id, provider);
      ImageIsOfCluster(id, workloads, provider);
    } else {
      assert a == ClusterAsset(cluster, provider);
    }
  }

  lemma OfClusterIsUnnamed(a: Asset, provider: string)
    requires OfCluster(a, provider)
    ensures Unnamed(a, provider)
  {
  }

  lemma SameAssetIffSameRef(a: Asset, b: Asset, provider: string, stable: StableId)
    requires OfCluster(a, provider) && OfCluster(b, provider) && HashesText(stable)
    ensures AssetId(a, stable) == AssetId(b, stable) <==> a.ref == b.ref
  {
    OfClusterIsUnnamed(a, provider);
    OfClusterIsUnnamed(b, provider);
    RefIsIdentity(a, b);
    AssetFromId(a, b, provider, stable);
  }

  lemma {:induction false} RefNamesAsset(assets: seq<Asset>, stable: StableId, ref: string) returns (a: Asset)
    requires ref in AssetRefs(assets, stable)
    ensures a in assets && a.ref == ref && AssetRefs(assets, stable)[ref] == AssetId(a, stable)
  {
    var before, last := assets[..|assets| - 1], assets[|assets| - 1];
    if last.ref == ref && ref != "" {
      a := last;
    } else {
      a := RefNamesAsset(before, stable, ref);
    }
  }

  lemma AssetIsStored(t: Tables, workloads: seq<Workload>, cluster: string, provider: string, checks: Checks, env: Env, a: Asset)
    requires HashesText(env.stable)
    requires a in PayloadOf(workloads, cluster, provider, checks).assets
    ensures IsStored(PlanOf(t, PayloadOf(workloads, cluster, provider, checks), env).assets, a, env.stable)
  {
    var p := PayloadOf(workloads, cluster, provider, checks);
    forall b | b in p.assets
      ensures Unnamed(b, provider)
    {
      AllOfCluster(workloads, cluster, provider, checks, b);
      OfClusterIsUnnamed(b, provider);
    }
    AssetsAreStored(t.assets, p.assets, provider, env, !p.discoveryOnly, a);
  }

  /** Different references of the payload stand for different assets. */
  lemma RefsStayApart(workloads: seq<Workload>, cluster: string, provider: string, checks: Checks, stable: StableId, x: string, y: string)
    requires HashesText(stable)
    requires var refs := AssetRefs(PayloadOf(workloads, cluster, provider, checks).assets, stable); x in refs && y in refs
    ensures var refs := AssetRefs(PayloadOf(workloads, cluster, provider, checks).assets, stable); refs[x] == refs[y] <==> x == y
  {
    var assets := PayloadOf(workloads, cluster, provider, checks).assets;
    var a := RefNamesAsset(assets, stable, x);
    var b := RefNamesAsset(assets, stable, y);
    AllOfCluster(workloads, cluster, provider, checks, a);
    AllOfCluster(workloads, cluster, provider, checks, b);
    SameAssetIffSameRef(a, b, provider, stable);
  }

  /** Edges with different ends are different rows. */
  lemma EdgesStayApart(t: Tables, workloads: seq<Workload>, cluster: string, provider: string, checks: Checks, stable: StableId,
                       r: Relationship, q: Relationship)
    requires HashesText(stable)
    requires r in Flat(workloads, WorkloadEdges(cluster)) && q in Flat(workloads, WorkloadEdges(cluster))
    requires var refs := AssetRefs(PayloadOf(workloads, cluster, provider, checks).assets, stable);
      IsLinked(t, r, refs, stable) && IsLinked(t, q, refs, stable)
    ensures var refs := AssetRefs(PayloadOf(workloads, cluster, provider, checks).assets, stable);
      LinkId(r, refs, stable) == LinkId(q, refs, stable) <==> SameEdge(r, q)
  {
    var refs := AssetRefs(PayloadOf(workloads, cluster, provider, checks).assets, stable);
    EdgeIsPlain(workloads, cluster, r);
    EdgeIsPlain(workloads, cluster, q);
    RefsStayApart(workloads, cluster, provider, checks, stable, r.source, q.source);
    RefsStayApart(workloads, cluster, provider, checks, stable, r.target, q.target);
    if LinkId(r, refs, stable) == LinkId(q, refs, stable) {
      assert Asks(r, refs, t.relationships[LinkId(r, refs, stable)]);
      assert Asks(q, refs, t.relationships[LinkId(r, refs, stable)]);
    }
  }

  /** So ingesting a cluster's payload stores all of it. The cluster, its containers and its images are
      rows with their kind and external id; every edge between them is a row with those ends; different
      things are different rows; and the tables are fit for the next ingest. */
  lemma ClusterIsStored(t: Tables, workloads: seq<Workload>, cluster: string, provider: string, checks: Checks, env: Env)
    requires Tidy(t, env.stable) && HashesText(env.stable)
    ensures var p := PayloadOf(workloads, cluster, provider, checks); var t' := Ingested(t, p, env);
      var refs := AssetRefs(p.assets, env.stable);
      Goes(t, PlanOf(t, p, env)) && Tidy(t', env.stable) &&
      (forall a :: a in p.assets ==> IsStored(t'.assets, a, env.stable)) &&
      (forall r :: r in p.relationships ==> IsLinked(t', r, refs, env.stable)) &&
      (forall x, y :: x in refs && y in refs && x != y ==> refs[x] != refs[y]) &&
      (forall r, q :: r in p.relationships && q in p.relationships && !SameEdge(r, q) ==>
                        LinkId(r, refs, env.stable) != LinkId(q, refs, env.stable))
  {
    var p := PayloadOf(workloads, cluster, provider, checks);
    var refs, t' := AssetRefs(p.assets, env.stable), Ingested(t, p, env);
    PayloadIsClosed(workloads, cluster, provider, checks);
    ClusterHasPlainIds(workloads, cluster, provider, checks);
    ClosedPayloadIsStored(t, p, env);
    IngestKeepsTidy(t, p, env);
    forall a | a in p.assets
      ensures IsStored(t'.assets, a, env.stable)
    {
      AssetIsStored(t, workloads, cluster, provider, checks, env, a);
    }
    forall x, y | x in refs && y in refs && x != y
      ensures refs[x] != refs[y]
    {
      RefsStayApart(workloads, cluster, provider, checks, env.stable, x, y);
    }
    forall r, q | r in p.relationships && q in p.relationships && !SameEdge(r, q)
      ensures LinkId(r, refs, env.stable) != LinkId(q, refs, env.stable)
    {
      EdgesStayApart(t', workloads, cluster, provider, checks, env.stable, r, q);
    }
  }
}
