/** What publishing an environment writes, and what a promotion then finds: the
    Applications of a composed app, the files of a single-source one, and the two
    put together. */
module Publishing {
  import opened Components
  import opened GitTree
  import opened PromotionTemplate
  import opened Sorting
  import opened Wrappers
  import Promotion

  /** What the publisher knows beyond the template's options: the environment's own
      cluster reference, the organisation's sync setting, the rendered values of a
      (cluster, component) pair, and whether the release is still prepared. */
  datatype Publication = Publication(clusterRef: string, automated: bool, pending: bool,
                                     values: (string, string) -> Yaml)

  function Targets(o: Options, p: Publication): seq<string> {
    if o.clusters == [] then [p.clusterRef] else o.clusters
  }

  function Place(o: Options, target: string): Option<string> {
    if |o.clusters| > 1 then Some(target) else None
  }

  // ---- rendered Applications ---------------------------------------------

  function ChartOf(o: Options, target: string, c: Component): Source {
    Chart(c.name, o.app + "-" + c.name, ValuesPath(o, Place(o, target), Some(c.name)))
  }

  function Charts(o: Options, target: string, cs: seq<Component>): (r: seq<Source>)
    ensures forall s :: s in r <==> exists c :: c in cs && !c.stateful && s == ChartOf(o, target, c)
  {
    if cs == [] then []
    else
      var c := cs[|cs| - 1];
      assert cs == cs[..|cs| - 1] + [c];
      Charts(o, target, cs[..|cs| - 1]) + (if c.stateful then [] else [ChartOf(o, target, c)])
  }

  function Policy(automated: bool, prune: bool): Option<Automated> {
    if automated then Some(Automated(prune, true)) else None
  }

  function Base(o: Options, target: string): string {
    o.argoName(NamedCluster(target))
  }

  function SharedApplication(o: Options, target: string, automated: bool): Application {
    Application(Base(o, target), NamedCluster(target), [ValuesRef] + Charts(o, target, o.components),
                Policy(automated, true))
  }

  function OwnedApplication(o: Options, target: string, component: string, automated: bool): Application {
    Application(Base(o, target) + "-" + component, NamedCluster(target),
                [ValuesRef,
                 Chart(component, o.app + "-" + component, ValuesPath(o, Place(o, target), Some(component)))],
                Policy(automated, false))
  }

  function Rendered(o: Options, target: string, unit: Option<string>, automated: bool): Application {
    if unit.Some? then OwnedApplication(o, target, unit.value, automated) else SharedApplication(o, target, automated)
  }

  /** A chart of a component that is not stateful, reading the file its values are
      published to. */
  ghost predicate IsSharedChart(o: Options, target: string, s: Source) {
    exists c :: c in o.components && !c.stateful
                && s == Chart(c.name, o.app + "-" + c.name, ValuesPath(o, Place(o, target), Some(c.name)))
  }

  lemma SharedSources(o: Options, target: string, automated: bool)
    ensures forall s :: s in SharedApplication(o, target, automated).sources <==>
                          s == ValuesRef || IsSharedChart(o, target, s)
  {
    var charts := Charts(o, target, o.components);
    forall s ensures s in charts <==> IsSharedChart(o, target, s) {
      if c :| c in o.components && !c.stateful && s == ChartOf(o, target, c) { assert IsSharedChart(o, target, s); }
    }
  }

  method BuildComposedApplication(o: Options, target: string, automated: bool) returns (a: Application)
    ensures a == SharedApplication(o, target, automated)
    ensures forall s :: s in a.sources <==> s == ValuesRef || IsSharedChart(o, target, s)
    ensures a.name == o.argoName(a.cluster) && a.cluster == if target == "" then "in-cluster" else target
    ensures a.automated == if automated then Some(Automated(true, true)) else None
  {
    var sources := [ValuesRef];
    for i := 0 to |o.components|
      invariant sources == [ValuesRef] + Charts(o, target, o.components[..i])
    {
      assert o.components[..i + 1][..i] == o.components[..i];
      var c := o.components[i];
      if !c.stateful {
        sources := sources + [Chart(c.name, o.app + "-" + c.name, ValuesPath(o, Place(o, target), Some(c.name)))];
      }
    }
    assert o.components[..|o.components|] == o.components;
    a := Application(o.argoName(NamedCluster(target)), NamedCluster(target), sources,
                     if automated then Some(Automated(true, true)) else None);
    SharedSources(o, target, automated);
  }

  /** A stateful component on its own: healed, but never pruned. */
  method BuildComponentApplication(o: Options, target: string, component: string, automated: bool)
    returns (a: Application)
    ensures a == OwnedApplication(o, target, component, automated)
    ensures forall c :: Deploys(a, c) <==> c == component
    ensures (a.automated.Some? <==> automated) && (a.automated.Some? ==> !a.automated.value.prune)
  {
    forall c ensures Deploys(OwnedApplication(o, target, component, automated), c) <==> c == component {
      OwnedDeploys(o, target, component, automated, c);
    }
    var values := ValuesPath(o, Place(o, target), Some(component));
    a := Application(o.argoName(NamedCluster(target)) + "-" + component, NamedCluster(target),
                     [ValuesRef, Chart(component, o.app + "-" + component, values)],
                     if automated then Some(Automated(false, true)) else None);
  }

  /** The units the publisher renders: the shared Application when it has a chart,
      then one for each stateful component. */
  function SharedUnit(o: Options): seq<Option<string>> {
    if exists i :: 0 <= i < |o.components| && !o.components[i].stateful then [None] else []
  }

  function OwnUnits(o: Options): seq<Option<string>> {
    var stateful := StatefulOf(o.components);
    seq(|stateful|, i requires 0 <= i < |stateful| => Some(stateful[i].name))
  }

  function RenderedUnits(o: Options): seq<Option<string>> {
    SharedUnit(o) + OwnUnits(o)
  }

  /** A cluster gets no Application twice. */
  lemma UnitsDistinct(o: Options)
    requires DistinctNames(o.components)
    ensures Distinct(RenderedUnits(o))
  {
    StatefulDistinct(o.components);
    var units, own := RenderedUnits(o), OwnUnits(o);
    forall i, j | 0 <= i < j < |units| ensures units[i] != units[j] {
      var k := |units| - |own|;
      assert units[j] == own[j - k];
      if i >= k { assert units[i] == own[i - k]; }
    }
  }

  lemma {:induction false} StatefulDistinct(cs: seq<Component>)
    requires DistinctNames(cs)
    ensures DistinctNames(StatefulOf(cs))
  {
    if cs == [] {
    } else {
      var n := |cs| - 1;
      StatefulDistinct(cs[..n]);
      forall c | c in StatefulOf(cs[..n]) ensures c.name != cs[n].name {
        var i :| 0 <= i < n && cs[..n][i] == c;
      }
    }
  }

  ghost predicate AllTemplated(cs: seq<Component>) {
    forall c :: c in cs ==> c.template.Some?
  }

  /** Rendered and activated units agree exactly unless every component is stateful
      and one has no template: then an Application nobody wrote is activated. */
  lemma RenderedIsActivated(o: Options)
    requires forall c :: c in o.components && !c.stateful ==> c.template.Some?
    ensures RenderedUnits(o) == Units(o.components) <==>
              (exists c :: c in o.components && !c.stateful) || AllTemplated(o.components)
  {
    SharedExists(o.components);
    assert (exists i :: 0 <= i < |o.components| && !o.components[i].stateful) <==>
             exists c :: c in o.components && !c.stateful;
    assert |RenderedUnits(o)|
        == |StatefulOf(o.components)| + if exists c :: c in o.components && !c.stateful then 1 else 0;
    assert |Units(o.components)|
        == |StatefulOf(o.components)| + if exists c :: c in o.components && !OwnApplication(c) then 1 else 0;
  }

  // ---- each component has one home ---------------------------------------

  predicate Deploys(a: Application, component: string) {
    exists i :: 0 <= i < |a.sources| && a.sources[i].Chart? && a.sources[i].component == component
  }

  function Home(c: Component): Option<string> {
    if c.stateful then Some(c.name) else None
  }

  /** A component is a chart source of exactly one rendered Application of a
      cluster: its own if it is stateful, the shared one if not. */
  lemma OneHome(o: Options, target: string, automated: bool, c: Component)
    requires DistinctNames(o.components) && AllTemplated(o.components) && c in o.components
    ensures Home(c) in RenderedUnits(o)
    ensures forall u :: u in RenderedUnits(o) ==> (Deploys(Rendered(o, target, u, automated), c.name) <==> u == Home(c))
  {
    var stateful := StatefulOf(o.components);
    var units := RenderedUnits(o);
    assert forall d :: d in o.components && d.name == c.name ==> d == c;
    if c.stateful {
      assert OwnApplication(c);
      var i :| 0 <= i < |stateful| && stateful[i] == c;
      assert units[|units| - |stateful| + i] == Some(c.name);
    } else {
      var i :| 0 <= i < |o.components| && o.components[i] == c;
      assert units[0] == None;
    }
    forall u | u in units ensures Deploys(Rendered(o, target, u, automated), c.name) <==> u == Home(c) {
      if u.Some? {
        OnlyStatefulOwn(o, u);
        OwnedDeploys(o, target, u.value, automated, c.name);
      } else {
        SharedDeploys(o, target, automated, c);
      }
    }
  }

  lemma OwnedDeploys(o: Options, target: string, component: string, automated: bool, name: string)
    ensures Deploys(OwnedApplication(o, target, component, automated), name) <==> name == component
  {
    var a := OwnedApplication(o, target, component, automated);
    assert a.sources[1].Chart? && a.sources[1].component == component;
  }

  lemma SharedDeploys(o: Options, target: string, automated: bool, c: Component)
    requires DistinctNames(o.components) && c in o.components
    ensures Deploys(SharedApplication(o, target, automated), c.name) <==> !c.stateful
  {
    var a := SharedApplication(o, target, automated);
    assert forall s :: s in a.sources <==> s == ValuesRef || s in Charts(o, target, o.components);
    if !c.stateful {
      assert ChartOf(o, target, c) in Charts(o, target, o.components);
      assert ChartOf(o, target, c) in a.sources;
      var i :| 0 <= i < |a.sources| && a.sources[i] == ChartOf(o, target, c);
      assert a.sources[i].component == c.name;
    } else {
      forall i | 0 <= i < |a.sources| && a.sources[i].Chart? ensures a.sources[i].component != c.name {
        assert a.sources[i] in a.sources;
        var d :| d in o.components && !d.stateful && a.sources[i] == ChartOf(o, target, d);
      }
    }
  }

  lemma OnlyStatefulOwn(o: Options, u: Option<string>)
    requires u in RenderedUnits(o) && u.Some?
    ensures exists c :: c in o.components && OwnApplication(c) && c.name == u.value
  {
    var units, stateful := RenderedUnits(o), StatefulOf(o.components);
    var k :| 0 <= k < |units| && units[k] == u;
    var i := k - (|units| - |stateful|);
    assert 0 <= i < |stateful| && stateful[i].name == u.value;
    assert stateful[i] in stateful;
  }

  /** No Application that prunes by itself holds a stateful component. */
  lemma NoPruningOfState(o: Options, target: string, automated: bool, u: Option<string>, c: Component)
    requires DistinctNames(o.components) && AllTemplated(o.components)
    requires u in RenderedUnits(o) && c in o.components && c.stateful
    requires Deploys(Rendered(o, target, u, automated), c.name)
    ensures var policy := Rendered(o, target, u, automated).automated; policy.Some? ==> !policy.value.prune
  {
    OneHome(o, target, automated, c);
  }

  // ---- the synced Applications -------------------------------------------

  function ApplicationNames(o: Options, targets: seq<string>, automated: bool): seq<string> {
    if targets == [] then []
    else
      var n := |targets| - 1;
      var units := RenderedUnits(o);
      ApplicationNames(o, targets[..n], automated)
      + seq(|units|, i requires 0 <= i < |units| => Rendered(o, targets[n], units[i], automated).name)
  }

  /** The promotion syncs exactly the Applications rendered, cluster by cluster. */
  lemma SyncedAreRendered(o: Options, p: Publication)
    requires o.composed && AllTemplated(o.components) && "" !in o.clusters && SameCluster(o, p)
    ensures Synced(o) == ApplicationNames(o, Targets(o, p), p.automated)
  {
    RenderedIsActivated(o);
    var clusters := if o.clusters == [] then [FALLBACK_CLUSTER] else o.clusters;
    forall i | 0 <= i < |clusters| ensures clusters[i] == NamedCluster(Targets(o, p)[i]) {
      assert o.clusters != [] ==> clusters[i] in o.clusters;
    }
    SyncedForRendered(o, clusters, Targets(o, p), p.automated);
  }

  lemma {:induction false} SyncedForRendered(o: Options, clusters: seq<string>, targets: seq<string>, automated: bool)
    requires o.composed && RenderedUnits(o) == Units(o.components)
    requires |clusters| == |targets| && forall i :: 0 <= i < |clusters| ==> clusters[i] == NamedCluster(targets[i])
    ensures SyncedFor(o, clusters) == ApplicationNames(o, targets, automated)
  {
    if clusters == [] {
    } else {
      var n := |clusters| - 1;
      SyncedForRendered(o, clusters[..n], targets[..n], automated);
      NamesOfUnits(o, clusters[n], targets[n], RenderedUnits(o), automated);
    }
  }

  lemma NamesOfUnits(o: Options, cluster: string, target: string, units: seq<Option<string>>, automated: bool)
    requires cluster == NamedCluster(target)
    ensures UnitNames(o.argoName(cluster), units)
         == seq(|units|, i requires 0 <= i < |units| => Rendered(o, target, units[i], automated).name)
  {
  }

  // ---- writing files -----------------------------------------------------

  datatype Write = Write(path: Path, doc: Doc)

  function Written(tree: Tree, ws: seq<Write>): Tree {
    if ws == [] then tree
    else
      var last := ws[|ws| - 1];
      Written(tree, ws[..|ws| - 1])[last.path := last.doc]
  }

  lemma {:induction false} WrittenConcat(tree: Tree, a: seq<Write>, b: seq<Write>)
    ensures Written(tree, a + b) == Written(Written(tree, a), b)
  {
    if b == [] {
      assert a + b == a;
    } else {
      assert (a + b)[..|a + b| - 1] == a + b[..|b| - 1];
      WrittenConcat(tree, a, b[..|b| - 1]);
    }
  }

  lemma OneMoreWrite(tree: Tree, ws: seq<Write>, i: nat)
    requires i < |ws|
    ensures Written(tree, ws[..i + 1]) == Written(tree, ws[..i])[ws[i].path := ws[i].doc]
  {
    assert ws[..i + 1][..i] == ws[..i];
  }

  lemma WrittenPair(tree: Tree, a: Write, b: Write)
    ensures Written(tree, [a, b]) == tree[a.path := a.doc][b.path := b.doc]
  {
    assert [a, b][..1] == [a] && [a][..0] == [];
    assert Written(tree, [a]) == tree[a.path := a.doc];
  }

  /** A path holds what the last write to it left. */
  lemma {:induction false} LastWrite(tree: Tree, ws: seq<Write>, path: Path)
    ensures (exists i :: 0 <= i < |ws| && ws[i].path == path) ==>
              path in Written(tree, ws)
              && exists i :: 0 <= i < |ws| && ws[i].path == path && Written(tree, ws)[path] == ws[i].doc
    ensures (forall i :: 0 <= i < |ws| ==> ws[i].path != path) ==> Promotion.Untouched(tree, Written(tree, ws), path)
  {
    if ws == [] {
    } else {
      var init := ws[..|ws| - 1];
      LastWrite(tree, init, path);
      if ws[|ws| - 1].path != path {
        if exists i :: 0 <= i < |ws| && ws[i].path == path {
          var i :| 0 <= i < |ws| && ws[i].path == path;
          assert init[i] == ws[i];
          var j :| 0 <= j < |init| && init[j].path == path && Written(tree, init)[path] == init[j].doc;
          assert ws[j] == init[j];
        }
      }
    }
  }

  function Held(a: Application, pending: bool): Application {
    if pending then a.(automated := None) else a
  }

  function Flag(b: bool): string {
    if b then "true" else "false"
  }

  /** For each unit the Application to activate later, then the one ArgoCD sees. */
  function Kept(o: Options, p: Publication, target: string, u: Option<string>): Write {
    Write(ActivePath(o, ActiveFile(NamedCluster(target), u)), Manifest(Rendered(o, target, u, p.automated)))
  }

  function Shown(o: Options, p: Publication, target: string, u: Option<string>): Write {
    Write(TargetPath(o, NamedCluster(target), TargetFile(u)),
      Manifest(Held(Rendered(o, target, u, p.automated), p.pending)))
  }

  function UnitWrites(o: Options, p: Publication, target: string, units: seq<Option<string>>): seq<Write> {
    if units == [] then []
    else
      var (init, last) := (units[..|units| - 1], units[|units| - 1]);
      UnitWrites(o, p, target, init) + [Kept(o, p, target, last), Shown(o, p, target, last)]
  }

  function ComponentWrites(o: Options, p: Publication, target: string): seq<Write> {
    seq(|o.components|, i requires 0 <= i < |o.components| =>
      Write(ValuesPath(o, Place(o, target), Some(o.components[i].name)),
        Fields(p.values(target, o.components[i].name))))
  }

  /** What ArgoCD generates a single-source app's Application of one cluster from. */
  function AppYaml(o: Options, p: Publication, target: string): Yaml {
    map["promotionPending" := Flag(p.pending), "appName" := Base(o, target), "clusterName" := NamedCluster(target),
        "valuesPath" := Slashed(ValuesPath(o, Place(o, target), None))]
  }

  /** A path as the manifests spell it. */
  function Slashed(path: Path): string {
    if path == [] then ""
    else if |path| == 1 then path[0]
    else Slashed(path[..|path| - 1]) + "/" + path[|path| - 1]
  }

  function TargetWrites(o: Options, p: Publication, target: string): seq<Write> {
    if o.composed then ComponentWrites(o, p, target) + UnitWrites(o, p, target, RenderedUnits(o))
    else [Write(ValuesPath(o, Place(o, target), None), Fields(p.values(target, o.app))),
          Write(AppYamlPath(o, NamedCluster(target)),
                Fields(AppYaml(o, p, target)))]
  }

  function AllWrites(o: Options, p: Publication, targets: seq<string>): seq<Write> {
    if targets == [] then []
    else AllWrites(o, p, targets[..|targets| - 1]) + TargetWrites(o, p, targets[|targets| - 1])
  }

  predicate Within(path: Path, dir: Path) {
    |path| > |dir| && path[..|dir|] == dir
  }

  /** The Application inputs of the environment. */
  predicate IsInput(o: Options, path: Path) {
    Within(path, o.subPath
                 + [if o.composed then "_composed-apps" else ValuesTree(o), o.env, o.project, o.app, "_targets"])
  }

  /** The values of a composed app's components, shared or of one cluster. */
  predicate IsComponentValues(o: Options, path: Path) {
    var k := |o.subPath|;
    && o.composed
    && (|| Within(path, o.subPath + [ValuesTree(o), o.env, o.project, o.app, "components"])
        || (Within(path, o.subPath + [ValuesTree(o), o.env, "_clusters"])
            && |path| > k + 7 && path[k + 4..k + 7] == [o.project, o.app, "components"]))
  }

  /** What a publish removes first. */
  predicate Stale(o: Options, path: Path) {
    IsInput(o, path) || IsComponentValues(o, path)
  }

  function Pruned(o: Options, tree: Tree): Tree {
    map path | path in tree && !Stale(o, path) :: tree[path]
  }

  function StateDoc(p: Publication): Doc {
    Fields(map["pending" := Flag(p.pending)])
  }

  function Published(o: Options, p: Publication, tree: Tree): Tree {
    Written(Pruned(o, tree[StatePath(o) := StateDoc(p)]), AllWrites(o, p, Targets(o, p)))
  }

  method PublishUnit(o: Options, p: Publication, target: string, unit: Option<string>, a: Application, tree: Tree)
    returns (out: Tree)
    requires a == Rendered(o, target, unit, p.automated)
    ensures out == Written(tree, [Kept(o, p, target, unit), Shown(o, p, target, unit)])
  {
    var name := NamedCluster(target);
    out := tree[ActivePath(o, ActiveFile(name, unit)) := Manifest(a)];
    var shown := a;
    if p.pending { shown := shown.(automated := None); }
    out := out[TargetPath(o, name, TargetFile(unit)) := Manifest(shown)];
    WrittenPair(tree, Kept(o, p, target, unit), Shown(o, p, target, unit));
  }

  method PublishValues(o: Options, p: Publication, target: string, tree: Tree) returns (out: Tree)
    ensures out == Written(tree, ComponentWrites(o, p, target))
  {
    out := tree;
    ghost var ws := ComponentWrites(o, p, target);
    for i := 0 to |o.components|
      invariant out == Written(tree, ws[..i])
    {
      var c := o.components[i];
      OneMoreWrite(tree, ws, i);
      out := out[ValuesPath(o, Place(o, target), Some(c.name)) := Fields(p.values(target, c.name))];
    }
    assert ws[..|o.components|] == ws;
  }

  method PublishShared(o: Options, p: Publication, target: string, tree: Tree) returns (out: Tree)
    ensures out == Written(tree, UnitWrites(o, p, target, SharedUnit(o)))
  {
    out := tree;
    var shared := BuildComposedApplication(o, target, p.automated);
    SharedHasChart(o, target);
    if |shared.sources| > 1 {
      out := PublishUnit(o, p, target, None, shared, out);
      OneMoreUnit(o, p, target, tree, [None], 0);
      assert [None][..1] == SharedUnit(o) && UnitWrites(o, p, target, []) == [];
    }
  }

  method PublishStateful(o: Options, p: Publication, target: string, tree: Tree) returns (out: Tree)
    ensures out == Written(tree, UnitWrites(o, p, target, OwnUnits(o)))
  {
    out := PublishEach(o, p, target, OwnUnits(o), tree);
  }

  method PublishEach(o: Options, p: Publication, target: string, units: seq<Option<string>>, tree: Tree)
    returns (out: Tree)
    ensures out == Written(tree, UnitWrites(o, p, target, units))
  {
    out := tree;
    for j := 0 to |units|
      invariant out == Written(tree, UnitWrites(o, p, target, units[..j]))
    {
      var a;
      if units[j].Some? {
        a := BuildComponentApplication(o, target, units[j].value, p.automated);
      } else {
        a := BuildComposedApplication(o, target, p.automated);
      }
      out := PublishUnit(o, p, target, units[j], a, out);
      OneMoreUnit(o, p, target, tree, units, j);
    }
    assert units[..|units|] == units;
  }

  lemma Regroup(a: seq<Write>, b: seq<Write>, c: seq<Write>)
    ensures a + b + c == a + (b + c)
  {
  }

  lemma {:induction false} UnitsConcat(o: Options, p: Publication, target: string, a: seq<Option<string>>,
                                       b: seq<Option<string>>)
    ensures UnitWrites(o, p, target, a + b) == UnitWrites(o, p, target, a) + UnitWrites(o, p, target, b)
  {
    if b == [] {
      assert a + b == a;
    } else {
      var (init, last) := (b[..|b| - 1], b[|b| - 1]);
      assert (a + b)[..|a + b| - 1] == a + init;
      UnitsConcat(o, p, target, a, init);
      Regroup(UnitWrites(o, p, target, a), UnitWrites(o, p, target, init),
              [Kept(o, p, target, last), Shown(o, p, target, last)]);
    }
  }

  method PublishTarget(o: Options, p: Publication, target: string, tree: Tree) returns (out: Tree)
    ensures out == Written(tree, TargetWrites(o, p, target))
  {
    if o.composed {
      out := PublishValues(o, p, target, tree);
      out := PublishShared(o, p, target, out);
      out := PublishStateful(o, p, target, out);
      UnitsConcat(o, p, target, SharedUnit(o), OwnUnits(o));
      WrittenConcat(Written(tree, ComponentWrites(o, p, target)),
        UnitWrites(o, p, target, SharedUnit(o)), UnitWrites(o, p, target, OwnUnits(o)));
      WrittenConcat(tree, ComponentWrites(o, p, target), UnitWrites(o, p, target, RenderedUnits(o)));
    } else {
      out := tree[ValuesPath(o, Place(o, target), None) := Fields(p.values(target, o.app))];
      out := out[AppYamlPath(o, NamedCluster(target)) :=
        Fields(map["promotionPending" := Flag(p.pending), "appName" := o.argoName(NamedCluster(target)),
                   "clusterName" := NamedCluster(target),
                   "valuesPath" := Slashed(ValuesPath(o, Place(o, target), None))])];
      WrittenPair(tree, TargetWrites(o, p, target)[0], TargetWrites(o, p, target)[1]);
    }
  }

  lemma OneMoreUnit(o: Options, p: Publication, target: string, tree: Tree, units: seq<Option<string>>, i: nat)
    requires i < |units|
    ensures Written(tree, UnitWrites(o, p, target, units[..i + 1]))
         == Written(Written(tree, UnitWrites(o, p, target, units[..i])),
              [Kept(o, p, target, units[i]), Shown(o, p, target, units[i])])
  {
    assert units[..i + 1][..i] == units[..i];
    WrittenConcat(tree, UnitWrites(o, p, target, units[..i]),
      [Kept(o, p, target, units[i]), Shown(o, p, target, units[i])]);
  }

  lemma OneMoreTarget(o: Options, p: Publication, base: Tree, targets: seq<string>, i: nat)
    requires i < |targets|
    ensures Written(base, AllWrites(o, p, targets[..i + 1]))
         == Written(Written(base, AllWrites(o, p, targets[..i])), TargetWrites(o, p, targets[i]))
  {
    assert targets[..i + 1][..i] == targets[..i];
    WrittenConcat(base, AllWrites(o, p, targets[..i]), TargetWrites(o, p, targets[i]));
  }

  lemma SharedHasChart(o: Options, target: string)
    ensures |Charts(o, target, o.components)| > 0 <==> exists i :: 0 <= i < |o.components| && !o.components[i].stateful
  {
    var charts := Charts(o, target, o.components);
    if |charts| > 0 { assert charts[0] in charts; }
    if i :| 0 <= i < |o.components| && !o.components[i].stateful {
      assert ChartOf(o, target, o.components[i]) in charts;
    }
  }

  method WriteEnv(o: Options, p: Publication, tree: Tree) returns (out: Tree)
    ensures out == Published(o, p, tree)
  {
    out := Pruned(o, tree[StatePath(o) := StateDoc(p)]);
    ghost var base := out;
    var targets := if o.clusters == [] then [p.clusterRef] else o.clusters;
    for i := 0 to |targets|
      invariant out == Written(base, AllWrites(o, p, targets[..i]))
    {
      var target := targets[i];
      out := PublishTarget(o, p, target, out);
      OneMoreTarget(o, p, base, targets, i);
    }
    assert targets[..|targets|] == targets;
  }

  /** Publisher and template mean the same cluster. */
  predicate SameCluster(o: Options, p: Publication) {
    o.clusters != [] || NamedCluster(p.clusterRef) == FALLBACK_CLUSTER
  }
}
