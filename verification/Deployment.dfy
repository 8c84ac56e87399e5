/** What a cluster runs: the Applications ArgoCD finds after a publish and after a
    promotion, down to the values each of their charts reads. */
module Deployment {
  import opened Activation
  import opened Components
  import opened GitTree
  import opened PromotionTemplate
  import opened Promotion
  import opened Publishing
  import opened ReleaseRoundTrip
  import opened Republish
  import opened Wrappers

  // ---- after a publish ---------------------------------------------------

  /** The values file of the rendered component, and a release named after the app. */
  ghost predicate ReadsOwnValues(o: Options, p: Publication, tree: Tree, t: string, s: Source)
    requires s.Chart?
  {
    && s.release == o.app + "-" + s.component
    && s.values in tree && tree[s.values] == Fields(p.values(t, s.component))
  }

  lemma ChartOfComponent(o: Options, t: string, u: Option<string>, automated: bool, s: Source) returns (i: nat)
    requires u in RenderedUnits(o) && s in Rendered(o, t, u, automated).sources && s.Chart?
    ensures i < |o.components| && o.components[i].name == s.component
    ensures s.values == ValuesPath(o, Place(o, t), Some(s.component)) && s.release == o.app + "-" + s.component
  {
    var c: Component;
    if u.Some? {
      OnlyStatefulOwn(o, u);
      c :| c in o.components && OwnApplication(c) && c.name == u.value;
    } else {
      assert s in Charts(o, t, o.components);
      c :| c in o.components && !c.stateful && s == ChartOf(o, t, c);
    }
    i :| 0 <= i < |o.components| && o.components[i] == c;
  }

  /** Every chart of every Application rendered for a cluster reads a file the same
      publish wrote, and finds its component's values for that cluster there. */
  lemma ChartsReadTheirValues(o: Options, p: Publication, tree: Tree, t: string, u: Option<string>, s: Source)
    requires o.composed && t in Targets(o, p) && u in RenderedUnits(o)
    requires s in Rendered(o, t, u, p.automated).sources && s.Chart?
    ensures ReadsOwnValues(o, p, Published(o, p, tree), t, s)
  {
    var i := ChartOfComponent(o, t, u, p.automated, s);
    ValuesAreOwn(o, p, tree, t, i);
  }

  /** An Application that ArgoCD finds syncs by itself exactly when the organisation
      wants that and no release is prepared; it heals, prunes exactly when it is the
      shared one, and goes to the cluster of its directory. */
  lemma SyncsByItselfExactly(o: Options, p: Publication, tree: Tree, path: Path)
    requires o.composed && IsInput(o, path) && path in Published(o, p, tree)
    ensures Published(o, p, tree)[path].Manifest?
    ensures var a := Published(o, p, tree)[path].app;
            && |path| == |o.subPath| + 7 && a.cluster == path[|o.subPath| + 5] == path[|path| - 2]
            && a.automated == if p.automated && !p.pending
                              then Some(Automated(path[|path| - 1] == "application.yaml", true)) else None
  {
    var t, u := InputOf(o, p, tree, path);
    SharedFileName(u);
  }

  /** What ArgoCD finds is what some unit is shown as. */
  lemma InputOf(o: Options, p: Publication, tree: Tree, path: Path) returns (t: string, u: Option<string>)
    requires o.composed && IsInput(o, path) && path in Published(o, p, tree)
    ensures t in Targets(o, p) && u in RenderedUnits(o)
    ensures path == TargetPath(o, NamedCluster(t), TargetFile(u))
    ensures Published(o, p, tree)[path] == Shown(o, p, t, u).doc
  {
    var d, v := OnlyRenderedRemain(o, p, tree, path);
    UnitPublished(o, p, d, v);
    var last;
    last, t := Holds(o, p, tree, d, Shown(o, p, d, v));
    PathsOfUnits(o, p, d, v);
    u := ShownUnit(o, p, t, last);
  }

  lemma SharedFileName(u: Option<string>)
    ensures TargetFile(u) == "application.yaml" <==> u == None
  {
    if u.Some? { assert |TargetFile(u)| > |"application.yaml"|; }
  }

  /** Some file this publish wrote is the one the text names, and holds the app's values
      for a cluster that goes by this name. */
  ghost predicate NamesValues(o: Options, p: Publication, tree: Tree, cluster: string, text: string) {
    exists t :: t in Targets(o, p) && (if t == "" then "in-cluster" else t) == cluster
                && NamesFile(tree, text, Fields(p.values(t, o.app)))
  }

  ghost predicate NamesFile(tree: Tree, text: string, doc: Doc) {
    exists path :: path in tree && tree[path] == doc && Slashed(path) == text
  }

  /** The app.yaml of a single-source app's cluster, from which ArgoCD generates its
      Application: the name, the cluster, whether it is held back, and the values file it
      reads, which this publish wrote for that cluster. */
  lemma AppYamlHolds(o: Options, p: Publication, tree: Tree, t: string)
    requires !o.composed && t in Targets(o, p)
    ensures var cluster := if t == "" then "in-cluster" else t;
            var path := AppYamlPath(o, cluster);
            && path in Published(o, p, tree) && Published(o, p, tree)[path].Fields?
            && var fields := Published(o, p, tree)[path].fields;
               && fields.Keys == {"appName", "clusterName", "promotionPending", "valuesPath"}
               && fields["appName"] == o.argoName(cluster) && fields["clusterName"] == cluster
               && fields["promotionPending"] == (if p.pending then "true" else "false")
               && NamesValues(o, p, Published(o, p, tree), cluster, fields["valuesPath"])
  {
    var writer := AppYamlOf(o, p, tree, t);
    SingleValuesAreOwn(o, p, tree, writer);
    var values := ValuesPath(o, Place(o, writer), None);
    assert NamesFile(Published(o, p, tree), Slashed(values), Fields(p.values(writer, o.app)));
  }

  lemma AppYamlOf(o: Options, p: Publication, tree: Tree, t: string) returns (writer: string)
    requires !o.composed && t in Targets(o, p)
    ensures writer in Targets(o, p) && NamedCluster(writer) == NamedCluster(t)
    ensures var path := AppYamlPath(o, NamedCluster(t));
            path in Published(o, p, tree) && Published(o, p, tree)[path] == Fields(AppYaml(o, p, writer))
  {
    var w := TargetWrites(o, p, t)[1];
    SingleWrites(o, p, t, w);
    var last;
    last, writer := Holds(o, p, tree, t, w);
    SingleWrites(o, p, writer, last);
    assert last.path[|o.subPath| + 5] == NamedCluster(writer) && w.path[|o.subPath| + 5] == NamedCluster(t);
  }

  lemma {:induction false} SyncedForAt(o: Options, clusters: seq<string>)
    requires !o.composed
    ensures |SyncedFor(o, clusters)| == |clusters|
    ensures forall i :: 0 <= i < |clusters| ==> SyncedFor(o, clusters)[i] == o.argoName(clusters[i])
  {
    if clusters == [] {
    } else {
      SyncedForAt(o, clusters[..|clusters| - 1]);
    }
  }

  /** A promotion of a single-source app syncs, cluster by cluster, the Application that
      the cluster's app.yaml names. */
  lemma SyncedAreGenerated(o: Options, p: Publication, tree: Tree, i: nat)
    requires !o.composed && SameCluster(o, p) && "" !in o.clusters && i < |Targets(o, p)|
    ensures |Synced(o)| == |Targets(o, p)|
    ensures var path := AppYamlPath(o, NamedCluster(Targets(o, p)[i]));
            && path in Published(o, p, tree) && Published(o, p, tree)[path].Fields?
            && var fields := Published(o, p, tree)[path].fields;
               "appName" in fields && fields["appName"] == Synced(o)[i]
  {
    AppYamlHolds(o, p, tree, Targets(o, p)[i]);
    SyncedForAt(o, if o.clusters == [] then [FALLBACK_CLUSTER] else o.clusters);
    if o.clusters != [] { assert o.clusters[i] in o.clusters; }
  }

  // ---- after a promotion -------------------------------------------------

  /** The winning images' tags, and under every key no image of the component touches
      the value that was rendered. */
  ghost predicate PromotedValues(o: Options, tree: Tree, path: Path, component: string, rendered: Yaml,
                                 freight: Freight)
  {
    && path in tree && tree[path].Fields?
    && (forall image :: image in o.images && image.owner == component && Wins(o, freight, image) ==>
          TagAt(tree, path, image.tagKey) == freight[image.repository])
    && (forall key :: (forall image :: image in o.images && image.owner == component ==>
                         !Touches(image.tagKey, key)) ==>
          (key in tree[path].fields <==> key in rendered)
          && (key in rendered ==> tree[path].fields[key] == rendered[key]))
  }

  lemma ValuesArePromoted(o: Options, p: Publication, tree: Tree, freight: Freight, t: string, i: nat)
    requires o.composed && t in Targets(o, p) && i < |o.components|
    requires RunSteps(Program(o), Fresh(Published(o, p, tree)), freight).Done?
    ensures var name := o.components[i].name;
            PromotedValues(o, AfterPromotion(o, p, tree, freight), ValuesPath(o, Place(o, t), Some(name)), name,
                           p.values(t, name), freight)
  {
    var before, after := Published(o, p, tree), AfterPromotion(o, p, tree, freight);
    var name, place := o.components[i].name, Place(o, t);
    OneCommitOrNone(o, before, freight);
    PlaceOfTarget(o, p, t);
    ValuesAreOwn(o, p, tree, t, i);
    if Some(name) in Slots(o) {
      assert TagsWritten(ImagesFor(o.images, Some(name)), before[ValuesPath(o, place, Some(name))],
                         after[ValuesPath(o, place, Some(name))], freight);
      TagsArePromoted(o, before, after, freight, place, name);
    } else {
      NoImagesOf(o, name);
      NotPromotedAlone(o, before, after, freight, place, name);
    }
  }

  lemma TagsArePromoted(o: Options, before: Tree, after: Tree, freight: Freight, place: Option<string>, name: string)
    requires o.composed && place in Places(o) && Ready(o, before, freight) && Promoted(o, before, after, freight)
    requires var path := ValuesPath(o, place, Some(name));
             path in before && before[path].Fields? && path in after
             && TagsWritten(ImagesFor(o.images, Some(name)), before[path], after[path], freight)
    ensures var path := ValuesPath(o, place, Some(name));
            PromotedValues(o, after, path, name, before[path].fields, freight)
  {
    var path := ValuesPath(o, place, Some(name));
    forall image | image in o.images && image.owner == name && Wins(o, freight, image)
      ensures TagAt(after, path, image.tagKey) == freight[image.repository]
    {
      TagLostExactly(o, before, after, freight, image, place);
    }
    forall key | forall image :: image in o.images && image.owner == name ==> !Touches(image.tagKey, key)
      ensures (key in after[path].fields <==> key in before[path].fields)
              && (key in before[path].fields ==> after[path].fields[key] == before[path].fields[key])
    {
      assert TagWritten(ImagesFor(o.images, Some(name)), before[path].fields, after[path].fields, freight, key);
    }
  }

  lemma NoImagesOf(o: Options, name: string)
    requires o.composed && Some(name) !in Slots(o)
    ensures forall image :: image in o.images ==> image.owner != name
  {
    forall image | image in o.images ensures image.owner != name { ImageHasFile(o, image); }
  }

  lemma NotPromotedAlone(o: Options, before: Tree, after: Tree, freight: Freight, place: Option<string>, name: string)
    requires o.composed && Some(name) !in Slots(o) && place in Places(o) && Promoted(o, before, after, freight)
    ensures Untouched(before, after, ValuesPath(o, place, Some(name)))
  {
    var path := ValuesPath(o, place, Some(name));
    var x := Values(place, Some(name));
    Members(o);
    PlacesFit(o, place);
    forall y | y in Purposes(o) ensures Target(StepFor(o, y)) != path {
      var i :| 0 <= i < |Purposes(o)| && Purposes(o)[i] == y;
      PurposesFit(o, i);
      if Target(StepFor(o, y)) == path { OneFileEach(o, y, x); }
    }
  }

  lemma PlacesFit(o: Options, place: Option<string>)
    requires place in Places(o)
    ensures place.Some? <==> |o.clusters| > 1
  {
  }

  /** The cluster has an Application with a chart of the component that reads the
      promoted values, syncs as the organisation wants, and prunes no state. */
  ghost predicate Runs(o: Options, p: Publication, tree: Tree, freight: Freight, t: string, c: Component) {
    var cluster := if t == "" then "in-cluster" else t;
    var path := TargetPath(o, cluster, if c.stateful then c.name + "-application.yaml" else "application.yaml");
    && path in tree && tree[path].Manifest?
    && var a := tree[path].app;
       && a.cluster == cluster
       && a.automated == (if p.automated then Some(Automated(!c.stateful, true)) else None)
       && exists s :: s in a.sources && ChartRuns(o, p, tree, freight, t, c, s)
  }

  ghost predicate ChartRuns(o: Options, p: Publication, tree: Tree, freight: Freight, t: string, c: Component,
                            s: Source)
  {
    && s.Chart? && s.component == c.name && s.release == o.app + "-" + c.name
    && PromotedValues(o, tree, s.values, c.name, p.values(t, c.name), freight)
  }

  /** Publish and promote: every cluster runs every component with its promoted tags,
      whatever the tree held before, if no two Applications are kept under one name. */
  lemma EveryClusterRuns(o: Options, p: Publication, tree: Tree, freight: Freight, t: string, c: Component)
    requires o.composed && AllTemplated(o.components) && DistinctNames(o.components) && OwnersExist(o)
    requires SameCluster(o, p) && LabelsDistinct(o, p)
    requires forall image :: image in o.images ==> image.repository in freight
    requires t in Targets(o, p) && c in o.components
    ensures Runs(o, p, AfterPromotion(o, p, tree, freight), freight, t, c)
  {
    var after := AfterPromotion(o, p, tree, freight);
    OwnIsThere(o, p, tree, freight, t, Home(c));
    OneHome(o, t, p.automated, c);
    var s := HomeChart(o, p, tree, freight, t, c);
    assert ChartRuns(o, p, after, freight, t, c, s);
  }

  lemma OwnIsThere(o: Options, p: Publication, tree: Tree, freight: Freight, t: string, u: Option<string>)
    requires o.composed && AllTemplated(o.components) && OwnersExist(o) && SameCluster(o, p) && LabelsDistinct(o, p)
    requires forall image :: image in o.images ==> image.repository in freight
    requires t in Targets(o, p)
    ensures RunSteps(Program(o), Fresh(Published(o, p, tree)), freight).Done?
    ensures u in RenderedUnits(o) ==> HoldsOwn(o, p, AfterPromotion(o, p, tree, freight), t, u)
  {
    ActivatesWhatWasRendered(o, p, tree, freight);
    RenderedIfTemplated(o);
  }

  lemma HomeChart(o: Options, p: Publication, tree: Tree, freight: Freight, t: string, c: Component)
    returns (s: Source)
    requires o.composed && t in Targets(o, p) && Home(c) in RenderedUnits(o)
    requires Deploys(Rendered(o, t, Home(c), p.automated), c.name)
    requires RunSteps(Program(o), Fresh(Published(o, p, tree)), freight).Done?
    ensures s in Rendered(o, t, Home(c), p.automated).sources
    ensures ChartRuns(o, p, AfterPromotion(o, p, tree, freight), freight, t, c, s)
  {
    var a := Rendered(o, t, Home(c), p.automated);
    var k :| 0 <= k < |a.sources| && a.sources[k].Chart? && a.sources[k].component == c.name;
    s := a.sources[k];
    var i := ChartOfComponent(o, t, Home(c), p.automated, s);
    ValuesArePromoted(o, p, tree, freight, t, i);
  }
}
