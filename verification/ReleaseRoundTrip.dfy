/** Publishing an environment and then promoting to it: when the promotion goes
    through, and which Applications it activates. */
module ReleaseRoundTrip {
  import opened Components
  import opened GitTree
  import opened PromotionTemplate
  import opened Promotion
  import opened Publishing
  import opened Wrappers

  // ---- what a published tree holds ---------------------------------------

  predicate IsUnitWrite(o: Options, p: Publication, w: Write, t: string, u: Option<string>) {
    w == Kept(o, p, t, u) || w == Shown(o, p, t, u)
  }

  lemma {:induction false} UnitWritesAre(o: Options, p: Publication, t: string, units: seq<Option<string>>)
    ensures forall w :: w in UnitWrites(o, p, t, units) <==> exists u :: u in units && IsUnitWrite(o, p, w, t, u)
  {
    if units == [] {
    } else {
      var n := |units| - 1;
      UnitWritesAre(o, p, t, units[..n]);
      assert forall u :: u in units <==> u in units[..n] || u == units[n] by {
        assert units == units[..n] + [units[n]];
      }
      var k, s := Kept(o, p, t, units[n]), Shown(o, p, t, units[n]);
      assert forall w :: w in UnitWrites(o, p, t, units) <==> w in UnitWrites(o, p, t, units[..n]) || w == k || w == s;
      assert IsUnitWrite(o, p, k, t, units[n]) && IsUnitWrite(o, p, s, t, units[n]);
    }
  }

  lemma {:induction false} AllWritesAre(o: Options, p: Publication, targets: seq<string>)
    ensures forall w :: w in AllWrites(o, p, targets) <==> exists t :: t in targets && w in TargetWrites(o, p, t)
  {
    if targets == [] {
    } else {
      var n := |targets| - 1;
      AllWritesAre(o, p, targets[..n]);
      assert targets == targets[..n] + [targets[n]];
    }
  }

  /** The first path segment below the sub-path. */
  predicate Below(o: Options, path: Path, head: string) {
    |path| > |o.subPath| && path[|o.subPath|] == head
  }

  /** Every write of one target, by where it goes. */
  lemma WhereWritesGo(o: Options, p: Publication, t: string, w: Write)
    requires w in TargetWrites(o, p, t)
    ensures (w.doc.Fields? && Below(o, w.path, ValuesTree(o)))
         || (o.composed && exists u :: u in RenderedUnits(o) && IsUnitWrite(o, p, w, t, u))
  {
    if o.composed && w in UnitWrites(o, p, t, RenderedUnits(o)) {
      UnitWritesAre(o, p, t, RenderedUnits(o));
    } else if o.composed {
      var i :| 0 <= i < |o.components| && ComponentWrites(o, p, t)[i] == w;
      assert w.path == ValuesPath(o, Place(o, t), Some(o.components[i].name));
    } else {
      assert w == TargetWrites(o, p, t)[0] || w == TargetWrites(o, p, t)[1];
    }
  }

  lemma PathsOfUnits(o: Options, p: Publication, t: string, u: Option<string>)
    ensures Below(o, Kept(o, p, t, u).path, ".suparship") && |Kept(o, p, t, u).path| == |o.subPath| + 6
    ensures Kept(o, p, t, u).path[|o.subPath| + 5] == ActiveFile(NamedCluster(t), u)
    ensures Below(o, Shown(o, p, t, u).path, "_composed-apps")
  {
  }

  /** What is written under the release directory is kept for a unit. */
  lemma KeptIsUnit(o: Options, p: Publication, t: string, w: Write) returns (u: Option<string>)
    requires w in TargetWrites(o, p, t) && Below(o, w.path, ".suparship")
    ensures o.composed && u in RenderedUnits(o) && w == Kept(o, p, t, u)
    ensures |w.path| == |o.subPath| + 6 && w.path[|o.subPath| + 5] == ActiveFile(NamedCluster(t), u)
  {
    WhereWritesGo(o, p, t, w);
    u :| u in RenderedUnits(o) && IsUnitWrite(o, p, w, t, u);
    PathsOfUnits(o, p, t, u);
  }

  /** A path some target writes holds one of the documents written to it. */
  lemma Holds(o: Options, p: Publication, tree: Tree, t: string, w: Write) returns (last: Write, writer: string)
    requires t in Targets(o, p) && w in TargetWrites(o, p, t)
    ensures writer in Targets(o, p) && last in TargetWrites(o, p, writer) && last.path == w.path
    ensures w.path in Published(o, p, tree) && Published(o, p, tree)[w.path] == last.doc
  {
    var ws := AllWrites(o, p, Targets(o, p));
    var base := Pruned(o, tree[StatePath(o) := StateDoc(p)]);
    AllWritesAre(o, p, Targets(o, p));
    assert w in ws;
    var k :| 0 <= k < |ws| && ws[k] == w;
    LastWrite(base, ws, w.path);
    var i :| 0 <= i < |ws| && ws[i].path == w.path && Written(base, ws)[w.path] == ws[i].doc;
    last := ws[i];
    assert last in ws;
    writer :| writer in Targets(o, p) && last in TargetWrites(o, p, writer);
  }

  lemma ValuesPublished(o: Options, p: Publication, tree: Tree, t: string, path: Path)
    requires t in Targets(o, p) && Below(o, path, ValuesTree(o))
    requires exists doc :: Write(path, doc) in TargetWrites(o, p, t)
    ensures path in Published(o, p, tree) && Published(o, p, tree)[path].Fields?
  {
    var doc :| Write(path, doc) in TargetWrites(o, p, t);
    var last, writer := Holds(o, p, tree, t, Write(path, doc));
    WhereWritesGo(o, p, writer, last);
    if u :| u in RenderedUnits(o) && IsUnitWrite(o, p, last, writer, u) { PathsOfUnits(o, p, writer, u); }
  }

  lemma StatePublished(o: Options, p: Publication, tree: Tree)
    ensures StatePath(o) in Published(o, p, tree) && Published(o, p, tree)[StatePath(o)] == StateDoc(p)
  {
    var ws := AllWrites(o, p, Targets(o, p));
    var base := Pruned(o, tree[StatePath(o) := StateDoc(p)]);
    assert Below(o, StatePath(o), ".suparship") && |StatePath(o)| == |o.subPath| + 5;
    assert StatePath(o)[|o.subPath|] == ".suparship";
    assert !Stale(o, StatePath(o));
    AllWritesAre(o, p, Targets(o, p));
    forall i | 0 <= i < |ws| ensures ws[i].path != StatePath(o) {
      assert ws[i] in ws;
      var t :| t in Targets(o, p) && ws[i] in TargetWrites(o, p, t);
      if ws[i].path == StatePath(o) { var u := KeptIsUnit(o, p, t, ws[i]); }
    }
    LastWrite(base, ws, StatePath(o));
  }

  /** Every cluster's values file of every component holds that component's values
      for that cluster, whatever else is written. */
  lemma ValuesAreOwn(o: Options, p: Publication, tree: Tree, t: string, i: nat)
    requires o.composed && t in Targets(o, p) && i < |o.components|
    ensures var (path, name) := (ValuesPath(o, Place(o, t), Some(o.components[i].name)), o.components[i].name);
            path in Published(o, p, tree) && Published(o, p, tree)[path] == Fields(p.values(t, name))
  {
    var w := ComponentWrites(o, p, t)[i];
    assert w in TargetWrites(o, p, t);
    ValuesUnderTree(o, Place(o, t), Some(o.components[i].name));
    var last, writer := Holds(o, p, tree, t, w);
    var k := ComponentOfWrite(o, p, writer, last);
    SameValuesFile(o, p, t, o.components[i].name, writer, o.components[k].name);
  }

  /** The two files of a single-source app's cluster, told apart by their names. */
  lemma SingleWrites(o: Options, p: Publication, t: string, w: Write)
    requires !o.composed && w in TargetWrites(o, p, t)
    ensures w.path != [] && w.path[|w.path| - 1] in {"values.yaml", "app.yaml"}
    ensures if w.path[|w.path| - 1] == "values.yaml" then
              w == Write(ValuesPath(o, Place(o, t), None), Fields(p.values(t, o.app)))
            else w == Write(AppYamlPath(o, NamedCluster(t)), Fields(AppYaml(o, p, t)))
    ensures w == TargetWrites(o, p, t)[0] <==> w.path[|w.path| - 1] == "values.yaml"
  {
    var (values, app) := (TargetWrites(o, p, t)[0], TargetWrites(o, p, t)[1]);
    assert values.path[|values.path| - 1] == "values.yaml" && app.path[|app.path| - 1] == "app.yaml";
  }

  /** And each cluster's file of a single-source app holds that app's. */
  lemma SingleValuesAreOwn(o: Options, p: Publication, tree: Tree, t: string)
    requires !o.composed && t in Targets(o, p)
    ensures var path := ValuesPath(o, Place(o, t), None);
            path in Published(o, p, tree) && Published(o, p, tree)[path] == Fields(p.values(t, o.app))
  {
    var w := TargetWrites(o, p, t)[0];
    SingleWrites(o, p, t, w);
    var last, writer := Holds(o, p, tree, t, w);
    SingleWrites(o, p, writer, last);
    SameSingleFile(o, p, t, writer);
  }

  lemma SameSingleFile(o: Options, p: Publication, t: string, t': string)
    requires !o.composed && t in Targets(o, p) && t' in Targets(o, p)
    requires ValuesPath(o, Place(o, t), None) == ValuesPath(o, Place(o, t'), None)
    ensures t == t'
  {
    OneFileEach(o, Values(Place(o, t), None), Values(Place(o, t'), None));
    if |o.clusters| <= 1 { assert |Targets(o, p)| == 1; }
  }

  lemma ValuesUnderTree(o: Options, place: Option<string>, slot: Option<string>)
    ensures Below(o, ValuesPath(o, place, slot), ValuesTree(o))
  {
  }

  lemma SameValuesFile(o: Options, p: Publication, t: string, x: string, t': string, x': string)
    requires o.composed && t in Targets(o, p) && t' in Targets(o, p)
    requires ValuesPath(o, Place(o, t), Some(x)) == ValuesPath(o, Place(o, t'), Some(x'))
    ensures t == t' && x == x'
  {
    OneFileEach(o, Values(Place(o, t), Some(x)), Values(Place(o, t'), Some(x')));
    if |o.clusters| <= 1 { assert |Targets(o, p)| == 1; }
  }

  lemma ComponentOfWrite(o: Options, p: Publication, t: string, w: Write) returns (k: nat)
    requires o.composed && w in TargetWrites(o, p, t) && Below(o, w.path, ValuesTree(o))
    ensures k < |o.components| && w == ComponentWrites(o, p, t)[k]
    ensures w.path == ValuesPath(o, Place(o, t), Some(o.components[k].name))
              && w.doc == Fields(p.values(t, o.components[k].name))
  {
    if w in UnitWrites(o, p, t, RenderedUnits(o)) {
      UnitWritesAre(o, p, t, RenderedUnits(o));
      var u :| u in RenderedUnits(o) && IsUnitWrite(o, p, w, t, u);
      PathsOfUnits(o, p, t, u);
    }
    k :| 0 <= k < |o.components| && ComponentWrites(o, p, t)[k] == w;
  }

  /** Nothing is left over: every Application of the app that ArgoCD finds is one
      rendered now, so a cluster no longer selected or a component gone has none. */
  lemma OnlyRenderedRemain(o: Options, p: Publication, tree: Tree, path: Path) returns (t: string, u: Option<string>)
    requires o.composed && IsInput(o, path) && path in Published(o, p, tree)
    ensures t in Targets(o, p) && u in RenderedUnits(o) && path == Shown(o, p, t, u).path
  {
    var ws := AllWrites(o, p, Targets(o, p));
    var dir := o.subPath + ["_composed-apps", o.env, o.project, o.app, "_targets"];
    assert path[|o.subPath|] == dir[|o.subPath|] == "_composed-apps";
    LastWrite(Pruned(o, tree[StatePath(o) := StateDoc(p)]), ws, path);
    var i :| 0 <= i < |ws| && ws[i].path == path;
    assert ws[i] in ws;
    AllWritesAre(o, p, Targets(o, p));
    t :| t in Targets(o, p) && ws[i] in TargetWrites(o, p, t);
    u := ShownUnit(o, p, t, ws[i]);
  }

  /** What is written among the composed Applications is one unit's, for ArgoCD. */
  lemma ShownUnit(o: Options, p: Publication, t: string, w: Write) returns (u: Option<string>)
    requires o.composed && w in TargetWrites(o, p, t) && Below(o, w.path, "_composed-apps")
    ensures u in RenderedUnits(o) && w == Shown(o, p, t, u)
  {
    assert ValuesTree(o) != "_composed-apps";
    WhereWritesGo(o, p, t, w);
    u :| u in RenderedUnits(o) && IsUnitWrite(o, p, w, t, u);
    PathsOfUnits(o, p, t, u);
  }

  // ---- the promotion goes through ----------------------------------------

  ghost predicate OwnersExist(o: Options) {
    o.composed ==> forall image :: image in o.images ==>
      exists i :: 0 <= i < |o.components| && o.components[i].name == image.owner
  }

  lemma ValuesReady(o: Options, p: Publication, tree: Tree, place: Option<string>, slot: Option<string>)
    requires OwnersExist(o) && place in Places(o) && slot in Slots(o)
    ensures HasInput(o, Published(o, p, tree), Values(place, slot))
  {
    var t :| t in Targets(o, p) && Place(o, t) == place by {
      if |o.clusters| > 1 {
        var i :| 0 <= i < |o.clusters| && Places(o)[i] == place;
        assert o.clusters[i] in Targets(o, p) && Place(o, o.clusters[i]) == place;
      } else {
        assert Targets(o, p)[0] in Targets(o, p) && Place(o, Targets(o, p)[0]) == place;
      }
    }
    var path := ValuesPath(o, place, slot);
    assert Below(o, path, ValuesTree(o));
    if o.composed {
      var owners := Slots(o);
      OwnerOfSlot(o, slot);
      var i :| 0 <= i < |o.components| && o.components[i].name == slot.value;
      assert ComponentWrites(o, p, t)[i] == Write(path, Fields(p.values(t, slot.value)));
      assert Write(path, Fields(p.values(t, slot.value))) in TargetWrites(o, p, t);
    } else {
      assert TargetWrites(o, p, t)[0] == Write(path, Fields(p.values(t, o.app)));
      assert Write(path, Fields(p.values(t, o.app))) in TargetWrites(o, p, t);
    }
    ValuesPublished(o, p, tree, t, path);
  }

  lemma OwnerOfSlot(o: Options, slot: Option<string>)
    requires o.composed && slot in Slots(o)
    ensures slot.Some? && exists image :: image in o.images && image.owner == slot.value
  {
    var k :| 0 <= k < |Slots(o)| && Slots(o)[k] == slot;
    assert slot.value in Owners(o.images);
    var i :| 0 <= i < |o.images| && Owners(o.images)[i] == slot.value;
    assert o.images[i] in o.images;
  }

  /** Whoever the cluster of an activation is, the publisher wrote for it. */
  lemma TargetOf(o: Options, p: Publication, c: string) returns (t: string)
    requires SameCluster(o, p) && c in Destinations(o)
    ensures t in Targets(o, p) && NamedCluster(t) == c
  {
    if o.clusters == [] {
      t := p.clusterRef;
    } else {
      var i :| 0 <= i < |o.clusters| && Destinations(o)[i] == c;
      t := o.clusters[i];
    }
  }

  lemma MarkerReady(o: Options, p: Publication, tree: Tree, c: string)
    requires !o.composed && SameCluster(o, p) && c in Destinations(o)
    ensures HasInput(o, Published(o, p, tree), Marker(c))
  {
    var t := TargetOf(o, p, c);
    assert TargetWrites(o, p, t)[1].path == AppYamlPath(o, c);
    assert Write(AppYamlPath(o, c), TargetWrites(o, p, t)[1].doc) in TargetWrites(o, p, t);
    assert Below(o, AppYamlPath(o, c), ValuesTree(o));
    ValuesPublished(o, p, tree, t, AppYamlPath(o, c));
  }

  lemma UnitPublished(o: Options, p: Publication, t: string, u: Option<string>)
    requires o.composed && u in RenderedUnits(o)
    ensures Kept(o, p, t, u) in TargetWrites(o, p, t) && Shown(o, p, t, u) in TargetWrites(o, p, t)
  {
    UnitWritesAre(o, p, t, RenderedUnits(o));
    assert IsUnitWrite(o, p, Kept(o, p, t, u), t, u) && IsUnitWrite(o, p, Shown(o, p, t, u), t, u);
  }

  lemma ActivateReady(o: Options, p: Publication, tree: Tree, c: string, u: Option<string>)
    requires o.composed && SameCluster(o, p) && c in Destinations(o) && u in RenderedUnits(o)
    ensures HasInput(o, Published(o, p, tree), Activate(c, u))
  {
    var t := TargetOf(o, p, c);
    UnitPublished(o, p, t, u);
    var last, writer := Holds(o, p, tree, t, Kept(o, p, t, u));
    ActivationReads(o, p, t, u);
  }

  lemma ActivationReads(o: Options, p: Publication, t: string, u: Option<string>)
    ensures Reads(StepFor(o, Activate(NamedCluster(t), u))) == Kept(o, p, t, u).path
  {
  }

  /** After a publish, a promotion with Freight for every image goes through, as
      long as publisher and template mean the same cluster. */
  lemma PublishedIsReady(o: Options, p: Publication, tree: Tree, freight: Freight)
    requires OwnersExist(o) && SameCluster(o, p) && (o.composed ==> AllTemplated(o.components))
    requires forall image :: image in o.images ==> image.repository in freight
    ensures Ready(o, Published(o, p, tree), freight)
    ensures RunSteps(Program(o), Fresh(Published(o, p, tree)), freight).Done?
  {
    Members(o);
    RenderedIfTemplated(o);
    forall x | x in Purposes(o) ensures HasInput(o, Published(o, p, tree), x) {
      match x
      case Values(place, slot) => ValuesReady(o, p, tree, place, slot);
      case State => StatePublished(o, p, tree);
      case Marker(c) => MarkerReady(o, p, tree, c);
      case Activate(c, u) => ActivateReady(o, p, tree, c, u);
    }
    OneCommitOrNone(o, Published(o, p, tree), freight);
  }

  lemma RenderedIfTemplated(o: Options)
    ensures AllTemplated(o.components) ==> RenderedUnits(o) == Units(o.components)
  {
    if AllTemplated(o.components) { RenderedIsActivated(o); }
  }

  /** For a single-source app that is also necessary: without clusters the publisher
      uses the environment's cluster reference and the template "in-cluster". */
  lemma SingleSourceNeedsSameCluster(o: Options, p: Publication, tree: Tree, freight: Freight)
    requires !o.composed && forall image :: image in o.images ==> image.repository in freight
    ensures RunSteps(Program(o), Fresh(Published(o, p, tree)), freight).Done? <==> SameCluster(o, p)
  {
    OneCommitOrNone(o, Published(o, p, tree), freight);
    if SameCluster(o, p) {
      PublishedIsReady(o, p, tree, freight);
    } else {
      assert Destinations(o)[0] == FALLBACK_CLUSTER;
      assert Marker(FALLBACK_CLUSTER) in Purposes(o) by { Members(o); }
      NoOtherAppYaml(o, p, tree);
      assert !HasInput(o, Published(o, p, tree), Marker(FALLBACK_CLUSTER));
    }
  }

  lemma NoOtherAppYaml(o: Options, p: Publication, tree: Tree)
    requires !o.composed && !SameCluster(o, p)
    ensures AppYamlPath(o, FALLBACK_CLUSTER) !in Published(o, p, tree)
  {
    var path := AppYamlPath(o, FALLBACK_CLUSTER);
    var dir := o.subPath + [ValuesTree(o), o.env, o.project, o.app, "_targets"];
    assert path[..|dir|] == dir;
    assert IsInput(o, path);
    var base := Pruned(o, tree[StatePath(o) := StateDoc(p)]);
    var ws := TargetWrites(o, p, p.clusterRef);
    assert Targets(o, p)[..0] == [] && AllWrites(o, p, []) == [];
    assert AllWrites(o, p, Targets(o, p)) == ws;
    var k := |o.subPath|;
    assert ws[0].path[k..] == [ValuesTree(o), o.env, o.project, o.app, "values.yaml"];
    assert path[k + 5] == FALLBACK_CLUSTER && ws[1].path[k + 5] == NamedCluster(p.clusterRef);
    WrittenPair(base, ws[0], ws[1]);
  }

  // ---- a prepared release stays inert ------------------------------------

  /** While the release is prepared, no Application of the app that ArgoCD finds
      syncs by itself, whatever the tree held before. */
  lemma PreparedPublishIsInert(o: Options, p: Publication, tree: Tree, path: Path)
    requires o.composed && p.pending && IsInput(o, path) && path in Published(o, p, tree)
    ensures Published(o, p, tree)[path].Manifest? && Published(o, p, tree)[path].app.automated.None?
  {
    var t, u := OnlyRenderedRemain(o, p, tree, path);
    PreparedIsInert(o, p, tree, t, u);
  }

  lemma PreparedIsInert(o: Options, p: Publication, tree: Tree, c: string, u: Option<string>)
    requires o.composed && p.pending && c in Targets(o, p) && u in RenderedUnits(o)
    ensures var path := TargetPath(o, NamedCluster(c), TargetFile(u));
            path in Published(o, p, tree) && Published(o, p, tree)[path].Manifest?
            && Published(o, p, tree)[path].app.automated.None?
  {
    UnitPublished(o, p, c, u);
    PathsOfUnits(o, p, c, u);
    var last, writer := Holds(o, p, tree, c, Shown(o, p, c, u));
    var v := ShownUnit(o, p, writer, last);
    HeldIsInert(o, p, writer, v);
  }

  lemma HeldIsInert(o: Options, p: Publication, t: string, u: Option<string>)
    requires p.pending
    ensures var w := Shown(o, p, t, u); w.doc.Manifest? && w.doc.app.automated.None?
  {
  }
}
