/** Publishing a composed app and then promoting it: exactly when the promotion goes
    through, and which Application each cluster is given. */
module Activation {
  import opened Components
  import opened GitTree
  import opened PromotionTemplate
  import opened Promotion
  import opened Publishing
  import opened ReleaseRoundTrip
  import opened Wrappers

  // ---- the file kept for a unit ------------------------------------------

  lemma SameActivePath(o: Options, c: string, u: Option<string>, d: string, v: Option<string>)
    ensures ActivePath(o, ActiveFile(c, u)) == ActivePath(o, ActiveFile(d, v)) <==> Label(c, u) == Label(d, v)
  {
    SameFileSameLabel(c, u, d, v);
    assert ActivePath(o, ActiveFile(c, u))[|o.subPath| + 5] == ActiveFile(c, u);
    assert ActivePath(o, ActiveFile(d, v))[|o.subPath| + 5] == ActiveFile(d, v);
  }

  /** Some unit this publish renders is kept under the label. */
  ghost predicate KeptNow(o: Options, p: Publication, c: string, u: Option<string>) {
    exists t, v :: t in Targets(o, p) && v in RenderedUnits(o) && Label(NamedCluster(t), v) == Label(c, u)
  }

  lemma ActiveNotStale(o: Options, file: string)
    ensures !Stale(o, ActivePath(o, file)) && ActivePath(o, file) != StatePath(o)
  {
    assert ActivePath(o, file)[|o.subPath|] == ".suparship";
    assert |ActivePath(o, file)| != |StatePath(o)|;
  }

  /** A file kept now holds the Application of some unit with that label, ... */
  lemma KeptFor(o: Options, p: Publication, tree: Tree, c: string, u: Option<string>)
    returns (t: string, v: Option<string>)
    requires o.composed && KeptNow(o, p, c, u)
    ensures t in Targets(o, p) && v in RenderedUnits(o) && Label(NamedCluster(t), v) == Label(c, u)
    ensures ActivePath(o, ActiveFile(c, u)) in Published(o, p, tree)
    ensures Published(o, p, tree)[ActivePath(o, ActiveFile(c, u))] == Manifest(Rendered(o, t, v, p.automated))
  {
    var t0, v0 :| t0 in Targets(o, p) && v0 in RenderedUnits(o) && Label(NamedCluster(t0), v0) == Label(c, u);
    SameActivePath(o, NamedCluster(t0), v0, c, u);
    UnitPublished(o, p, t0, v0);
    PathsOfUnits(o, p, t0, v0);
    var last, writer := Holds(o, p, tree, t0, Kept(o, p, t0, v0));
    t := writer;
    v := KeptIsUnit(o, p, writer, last);
    SameFileSameLabel(NamedCluster(t), v, NamedCluster(t0), v0);
  }

  /** ... and any other is as an earlier publish left it. */
  lemma NotKeptNow(o: Options, p: Publication, tree: Tree, c: string, u: Option<string>)
    requires o.composed && !KeptNow(o, p, c, u)
    ensures Untouched(tree, Published(o, p, tree), ActivePath(o, ActiveFile(c, u)))
  {
    var path := ActivePath(o, ActiveFile(c, u));
    var ws := AllWrites(o, p, Targets(o, p));
    var base := Pruned(o, tree[StatePath(o) := StateDoc(p)]);
    ActiveNotStale(o, ActiveFile(c, u));
    AllWritesAre(o, p, Targets(o, p));
    forall i | 0 <= i < |ws| ensures ws[i].path != path {
      assert ws[i] in ws;
      var t :| t in Targets(o, p) && ws[i] in TargetWrites(o, p, t);
      if ws[i].path == path { LabelOfWrite(o, p, t, ws[i], c, u); }
    }
    LastWrite(base, ws, path);
  }

  lemma LabelOfWrite(o: Options, p: Publication, t: string, w: Write, c: string, u: Option<string>)
    requires t in Targets(o, p) && w in TargetWrites(o, p, t) && w.path == ActivePath(o, ActiveFile(c, u))
    ensures KeptNow(o, p, c, u)
  {
    assert Below(o, w.path, ".suparship") && w.path[|o.subPath| + 5] == ActiveFile(c, u);
    var v := KeptIsUnit(o, p, t, w);
    SameFileSameLabel(NamedCluster(t), v, c, u);
  }

  /** The file an activation copies is there after a publish exactly when this publish
      keeps one under its label or an earlier one left it. */
  lemma KeptExactly(o: Options, p: Publication, tree: Tree, c: string, u: Option<string>)
    requires o.composed
    ensures HasInput(o, Published(o, p, tree), Activate(c, u)) <==>
              KeptNow(o, p, c, u) || ActivePath(o, ActiveFile(c, u)) in tree
  {
    var path := ActivePath(o, ActiveFile(c, u));
    assert Reads(StepFor(o, Activate(c, u))) == path;
    if KeptNow(o, p, c, u) {
      var t, v := KeptFor(o, p, tree, c, u);
    } else {
      NotKeptNow(o, p, tree, c, u);
      assert path in Published(o, p, tree) <==> path in tree;
    }
  }

  // ---- exactly when the promotion goes through ---------------------------

  /** With Freight for every image, a composed app can be promoted after a publish
      exactly when every Application the template activates is kept by this publish
      or was by an earlier one, whatever clusters either of them means. */
  lemma GoesThroughExactly(o: Options, p: Publication, tree: Tree, freight: Freight)
    requires o.composed && OwnersExist(o) && forall image :: image in o.images ==> image.repository in freight
    ensures RunSteps(Program(o), Fresh(Published(o, p, tree)), freight).Done? <==>
              forall c, u :: c in Destinations(o) && u in Units(o.components) ==>
                KeptNow(o, p, c, u) || ActivePath(o, ActiveFile(c, u)) in tree
  {
    DoneExactly(o, Published(o, p, tree), freight);
    ReadyExactly(o, p, tree);
    forall c, u
      ensures HasInput(o, Published(o, p, tree), Activate(c, u)) <==>
                KeptNow(o, p, c, u) || ActivePath(o, ActiveFile(c, u)) in tree
    {
      KeptExactly(o, p, tree, c, u);
    }
  }

  lemma ReadyExactly(o: Options, p: Publication, tree: Tree)
    requires o.composed && OwnersExist(o)
    ensures InputsIn(o, Published(o, p, tree)) <==> ActivationsIn(o, Published(o, p, tree))
  {
    ByPurpose(o, Published(o, p, tree));
    forall place, slot | place in Places(o) && slot in Slots(o)
      ensures HasInput(o, Published(o, p, tree), Values(place, slot))
    {
      ValuesReady(o, p, tree, place, slot);
    }
    StatePublished(o, p, tree);
  }

  /** Without resolved clusters the publisher renders for the environment's cluster
      reference, and the template activates "in-cluster". */
  lemma WithoutClusters(o: Options, p: Publication, tree: Tree, freight: Freight)
    requires o.composed && OwnersExist(o) && forall image :: image in o.images ==> image.repository in freight
    requires o.clusters == []
    ensures RunSteps(Program(o), Fresh(Published(o, p, tree)), freight).Done? <==>
              forall u :: u in Units(o.components) ==>
                || ActivePath(o, ActiveFile(FALLBACK_CLUSTER, u)) in tree
                || exists v :: v in RenderedUnits(o)
                     && Label(NamedCluster(p.clusterRef), v) == Label(FALLBACK_CLUSTER, u)
  {
    GoesThroughExactly(o, p, tree, freight);
    OnlyFallback(o);
    forall u ensures KeptNow(o, p, FALLBACK_CLUSTER, u) <==>
                       exists v :: v in RenderedUnits(o)
                         && Label(NamedCluster(p.clusterRef), v) == Label(FALLBACK_CLUSTER, u)
    {
      KeptForReference(o, p, u);
    }
  }

  lemma OnlyFallback(o: Options)
    requires o.clusters == []
    ensures forall c :: c in Destinations(o) <==> c == FALLBACK_CLUSTER
  {
    assert Destinations(o) == [FALLBACK_CLUSTER] && Destinations(o)[0] in Destinations(o);
  }

  lemma KeptForReference(o: Options, p: Publication, u: Option<string>)
    requires o.clusters == []
    ensures KeptNow(o, p, FALLBACK_CLUSTER, u) <==>
              exists v :: v in RenderedUnits(o)
                && Label(NamedCluster(p.clusterRef), v) == Label(FALLBACK_CLUSTER, u)
  {
    assert Targets(o, p) == [p.clusterRef];
    if v :| v in RenderedUnits(o) && Label(NamedCluster(p.clusterRef), v) == Label(FALLBACK_CLUSTER, u) {
      assert p.clusterRef in Targets(o, p);
    }
  }

  /** Worse than stopping: if an earlier publish left the files, the promotion goes
      through and gives "in-cluster", for which this publish rendered nothing, the
      Application of that earlier publish. */
  lemma StaleIsActivated(o: Options, p: Publication, tree: Tree, freight: Freight, u: Option<string>)
    requires o.composed && OwnersExist(o) && forall image :: image in o.images ==> image.repository in freight
    requires !SameCluster(o, p) && u in Units(o.components) && !KeptNow(o, p, FALLBACK_CLUSTER, u)
    ensures var (source, target) :=
              (ActivePath(o, ActiveFile(FALLBACK_CLUSTER, u)), TargetPath(o, FALLBACK_CLUSTER, TargetFile(u)));
            var (before, r) := (Published(o, p, tree), RunSteps(Program(o), Fresh(Published(o, p, tree)), freight));
            target !in before && (r.Done? ==> source in tree && target in r.machine.remote
                                              && r.machine.remote[target] == tree[source])
  {
    assert Destinations(o)[0] == FALLBACK_CLUSTER && FALLBACK_CLUSTER in Destinations(o);
    RestoredBy(o, Published(o, p, tree), freight, FALLBACK_CLUSTER, u);
    NotKeptNow(o, p, tree, FALLBACK_CLUSTER, u);
    NothingForOtherCluster(o, p, tree, FALLBACK_CLUSTER, u);
  }

  /** A promotion that goes through restores every unit of every destination. */
  lemma RestoredBy(o: Options, before: Tree, freight: Freight, c: string, u: Option<string>)
    requires o.composed && c in Destinations(o) && u in Units(o.components)
    ensures var r := RunSteps(Program(o), Fresh(before), freight);
            r.Done? ==>
              Restored(before, r.machine.remote, ActivePath(o, ActiveFile(c, u)), TargetPath(o, c, TargetFile(u)))
  {
    OneCommitOrNone(o, before, freight);
  }

  lemma NothingForOtherCluster(o: Options, p: Publication, tree: Tree, c: string, u: Option<string>)
    requires o.composed && forall t :: t in Targets(o, p) ==> NamedCluster(t) != c
    ensures TargetPath(o, c, TargetFile(u)) !in Published(o, p, tree)
  {
    var path := TargetPath(o, c, TargetFile(u));
    var dir := o.subPath + ["_composed-apps", o.env, o.project, o.app, "_targets"];
    assert path[..|dir|] == dir && IsInput(o, path);
    if path in Published(o, p, tree) {
      var t, v := OnlyRenderedRemain(o, p, tree, path);
      SameTargetCluster(o, p, t, v, c, u);
    }
  }

  lemma SameTargetCluster(o: Options, p: Publication, t: string, v: Option<string>, c: string, u: Option<string>)
    requires TargetPath(o, c, TargetFile(u)) == Shown(o, p, t, v).path
    ensures c == NamedCluster(t)
  {
    assert TargetPath(o, c, TargetFile(u))[|o.subPath| + 5] == c;
  }

  // ---- which Application a cluster is given ------------------------------

  /** No two Applications of this publish are kept under one name. */
  ghost predicate LabelsDistinct(o: Options, p: Publication) {
    forall t, u, d, v |
      && t in Targets(o, p) && d in Targets(o, p) && u in Units(o.components) && v in Units(o.components)
      && Label(NamedCluster(t), u) == Label(NamedCluster(d), v) ::
      t == d && u == v
  }

  ghost predicate HoldsOwn(o: Options, p: Publication, tree: Tree, t: string, u: Option<string>) {
    var path := TargetPath(o, NamedCluster(t), TargetFile(u));
    path in tree && tree[path] == Manifest(Rendered(o, t, u, p.automated))
  }

  ghost predicate RestoresOwn(o: Options, p: Publication, tree: Tree) {
    forall t, u :: t in Targets(o, p) && u in Units(o.components) ==> HoldsOwn(o, p, tree, t, u)
  }

  lemma NamedDestination(o: Options, p: Publication, t: string)
    requires SameCluster(o, p) && t in Targets(o, p)
    ensures NamedCluster(t) in Destinations(o)
  {
    if o.clusters == [] {
      assert Destinations(o)[0] == NamedCluster(t);
    } else {
      var i :| 0 <= i < |o.clusters| && o.clusters[i] == t;
      assert Destinations(o)[i] == NamedCluster(t);
    }
  }

  lemma OwnKept(o: Options, p: Publication, t: string, u: Option<string>)
    requires t in Targets(o, p) && u in RenderedUnits(o)
    ensures KeptNow(o, p, NamedCluster(t), u)
  {
  }

  /** An Application tells whose it is: its cluster, its unit and, between the two
      spellings of "in-cluster", its values files. */
  lemma RenderedIsInjective(o: Options, p: Publication, t: string, u: Option<string>, d: string, v: Option<string>)
    requires o.composed && t in Targets(o, p) && d in Targets(o, p) && u in RenderedUnits(o) && v in RenderedUnits(o)
    requires Rendered(o, t, u, p.automated) == Rendered(o, d, v, p.automated)
    ensures t == d && u == v
  {
    SameUnit(o, t, u, d, v, p.automated);
    if u.Some? {
      var a, b := Rendered(o, t, u, p.automated), Rendered(o, d, u, p.automated);
      assert a.sources[1].values == b.sources[1].values;
      SameValuesFile(o, p, t, u.value, d, u.value);
    } else {
      SharedSameTarget(o, p, t, d);
    }
  }

  lemma SameUnit(o: Options, t: string, u: Option<string>, d: string, v: Option<string>, automated: bool)
    requires Rendered(o, t, u, automated) == Rendered(o, d, v, automated)
    ensures u == v
  {
    var a, b := Rendered(o, t, u, automated), Rendered(o, d, v, automated);
    assert a.cluster == b.cluster && Base(o, t) == Base(o, d);
    assert a.name == b.name;
    NameLength(o, t, u, automated);
    NameLength(o, d, v, automated);
    assert u.Some? == v.Some?;
    if u.Some? { assert a.name[|Base(o, t)| + 1..] == u.value && b.name[|Base(o, d)| + 1..] == v.value; }
  }

  lemma NameLength(o: Options, t: string, u: Option<string>, automated: bool)
    ensures |Rendered(o, t, u, automated).name| == |Base(o, t)| + if u.Some? then 1 + |u.value| else 0
  {
  }

  lemma SharedSameTarget(o: Options, p: Publication, t: string, d: string)
    requires o.composed && t in Targets(o, p) && d in Targets(o, p) && None in RenderedUnits(o)
    requires SharedApplication(o, t, p.automated) == SharedApplication(o, d, p.automated)
    ensures t == d
  {
    assert None !in OwnUnits(o);
    var i :| 0 <= i < |o.components| && !o.components[i].stateful;
    var c := o.components[i];
    var a, b := SharedApplication(o, t, p.automated), SharedApplication(o, d, p.automated);
    assert a.sources[1..] == Charts(o, t, o.components) && b.sources[1..] == Charts(o, d, o.components);
    assert ChartOf(o, t, c) in Charts(o, d, o.components);
    var e :| e in o.components && !e.stateful && ChartOf(o, t, c) == ChartOf(o, d, e);
    SameValuesFile(o, p, t, c.name, d, e.name);
  }

  /** Everything published is copied back. */
  ghost predicate AllRestored(o: Options, p: Publication, before: Tree, after: Tree) {
    forall t, u :: t in Targets(o, p) && u in Units(o.components) ==>
      Restored(before, after, ActivePath(o, ActiveFile(NamedCluster(t), u)),
               TargetPath(o, NamedCluster(t), TargetFile(u)))
  }

  /** Then every cluster has exactly the Applications rendered for it, if and only if no
      two of them are kept under one name. */
  lemma RestoresExactly(o: Options, p: Publication, tree: Tree, after: Tree)
    requires o.composed && AllTemplated(o.components) && AllRestored(o, p, Published(o, p, tree), after)
    ensures RestoresOwn(o, p, after) <==> LabelsDistinct(o, p)
  {
    if LabelsDistinct(o, p) {
      forall t, u | t in Targets(o, p) && u in Units(o.components) ensures HoldsOwn(o, p, after, t, u) {
        OwnIsRestored(o, p, tree, after, t, u);
      }
    } else {
      var t, u, d, v :| t in Targets(o, p) && d in Targets(o, p) && u in Units(o.components) && v in Units(o.components)
                        && Label(NamedCluster(t), u) == Label(NamedCluster(d), v) && !(t == d && u == v);
      OneIsLost(o, p, tree, after, t, u, d, v);
    }
  }

  /** Publish, then promote for the same clusters: all of them are given their own
      exactly in that case. */
  lemma ActivatesWhatWasRendered(o: Options, p: Publication, tree: Tree, freight: Freight)
    requires o.composed && AllTemplated(o.components) && OwnersExist(o) && SameCluster(o, p)
    requires forall image :: image in o.images ==> image.repository in freight
    ensures var r := RunSteps(Program(o), Fresh(Published(o, p, tree)), freight);
            r.Done? && (RestoresOwn(o, p, r.machine.remote) <==> LabelsDistinct(o, p))
  {
    var before := Published(o, p, tree);
    var after := RunSteps(Program(o), Fresh(before), freight).machine.remote;
    PublishedIsReady(o, p, tree, freight);
    forall t, u | t in Targets(o, p) && u in Units(o.components)
      ensures Restored(before, after, ActivePath(o, ActiveFile(NamedCluster(t), u)),
                       TargetPath(o, NamedCluster(t), TargetFile(u)))
    {
      NamedDestination(o, p, t);
      RestoredBy(o, before, freight, NamedCluster(t), u);
    }
    RestoresExactly(o, p, tree, after);
  }

  lemma OwnIsRestored(o: Options, p: Publication, tree: Tree, after: Tree, t: string, u: Option<string>)
    requires o.composed && AllTemplated(o.components) && AllRestored(o, p, Published(o, p, tree), after)
    requires LabelsDistinct(o, p) && t in Targets(o, p) && u in Units(o.components)
    ensures HoldsOwn(o, p, after, t, u)
  {
    RenderedIfTemplated(o);
    OwnKept(o, p, t, u);
    var d, v := KeptFor(o, p, tree, NamedCluster(t), u);
    assert d == t && v == u;
  }

  lemma OneIsLost(o: Options, p: Publication, tree: Tree, after: Tree,
                  t: string, u: Option<string>, d: string, v: Option<string>)
    requires o.composed && AllTemplated(o.components) && AllRestored(o, p, Published(o, p, tree), after)
    requires t in Targets(o, p) && d in Targets(o, p) && u in Units(o.components) && v in Units(o.components)
    requires Label(NamedCluster(t), u) == Label(NamedCluster(d), v) && !(t == d && u == v)
    ensures !HoldsOwn(o, p, after, t, u) || !HoldsOwn(o, p, after, d, v)
  {
    SameActivePath(o, NamedCluster(t), u, NamedCluster(d), v);
    RenderedIfTemplated(o);
    if HoldsOwn(o, p, after, t, u) && HoldsOwn(o, p, after, d, v) { RenderedIsInjective(o, p, t, u, d, v); }
  }

  /** Cluster "east" with a database component "db", next to a cluster "east-db":
      all three are valid names, and two of their Applications are kept as one. */
  lemma NamesThatClash(o: Options, p: Publication, components: seq<Component>)
    requires components == [Component("api", false, Some("api/1")), Component("db", true, Some("db/1"))]
    requires o.clusters == ["east", "east-db"] && o.components == components
    ensures !LabelsDistinct(o, p)
  {
    var stateful := StatefulOf(components);
    assert components[1] in stateful;
    assert |components| > |stateful| by { SharedExists(components); assert components[0] in components; }
    assert Units(components)[0] == None;
    var i :| 0 <= i < |stateful| && stateful[i] == components[1];
    assert Units(components)[1 + i] == Some("db");
    assert Targets(o, p)[0] == "east" && Targets(o, p)[1] == "east-db";
    assert "east" in Targets(o, p) && "east-db" in Targets(o, p);
    assert Units(o.components)[0] in Units(o.components) && Units(o.components)[1 + i] in Units(o.components);
    assert NamedCluster("east") == "east" && NamedCluster("east-db") == "east-db";
    assert Label(NamedCluster("east"), Some("db")) == Label(NamedCluster("east-db"), None);
  }
}
