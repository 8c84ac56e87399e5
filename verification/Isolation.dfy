/** Many apps share one gitops tree. Publishing or promoting one of them, in one of
    its environments, leaves the files of every other app and environment alone. */
module Isolation {
  import opened GitTree
  import opened PromotionTemplate
  import opened Promotion
  import opened Publishing
  import opened ReleaseRoundTrip
  import opened Republish
  import opened Wrappers

  /** The files an app may have in an environment. */
  datatype File =
    | ValuesFile(place: Option<string>, slot: Option<string>)
    | StateFile
    | AppYaml(cluster: string)
    | KeptFile(name: string)
    | InputFile(cluster: string, name: string)

  function PathOf(o: Options, f: File): Path {
    match f
    case ValuesFile(place, slot) => ValuesPath(o, place, slot)
    case StateFile => StatePath(o)
    case AppYaml(cluster) => AppYamlPath(o, cluster)
    case KeptFile(name) => ActivePath(o, name)
    case InputFile(cluster, name) => TargetPath(o, cluster, name)
  }

  /** The same below the sub-path. */
  function InTree(o: Options, f: File): Path {
    match f
    case ValuesFile(place, slot) =>
      [ValuesTree(o), o.env] + (if place.Some? then ["_clusters", place.value] else []) + [o.project, o.app]
      + (if slot.Some? then ["components", slot.value] else []) + ["values.yaml"]
    case StateFile => [".suparship", "releases", o.project, o.app, o.env + ".yaml"]
    case AppYaml(cluster) => [ValuesTree(o), o.env, o.project, o.app, "_targets", cluster, "app.yaml"]
    case KeptFile(name) => [".suparship", "releases", o.project, o.app, o.env, name]
    case InputFile(cluster, name) => ["_composed-apps", o.env, o.project, o.app, "_targets", cluster, name]
  }

  lemma PathInTree(o: Options, f: File)
    ensures PathOf(o, f) == o.subPath + InTree(o, f)
  {
  }

  /** Two apps, or one in two environments, in one tree; no project is called like the
      directory of the clusters' values. */
  predicate Apart(o: Options, q: Options) {
    && o.subPath == q.subPath && o.project != "_clusters" && q.project != "_clusters"
    && (o.env != q.env || o.project != q.project || o.app != q.app)
  }

  /** Where a file names its environment, project and app. */
  lemma NamesAt(o: Options, f: File)
    ensures var b := InTree(o, f);
            match f
            case ValuesFile(place, _) =>
              && |b| > 4 && b[0] in {"envs", "envs-external"} && b[1] == o.env
              && (if place.Some? then |b| > 6 && b[2] == "_clusters" && b[4] == o.project && b[5] == o.app
                  else b[2] == o.project && b[3] == o.app)
            case AppYaml(_) =>
              |b| == 7 && b[0] in {"envs", "envs-external"} && b[1] == o.env && b[2] == o.project && b[3] == o.app
            case InputFile(_, _) =>
              |b| == 7 && b[0] == "_composed-apps" && b[1] == o.env && b[2] == o.project && b[3] == o.app
            case StateFile =>
              |b| == 5 && b[0] == ".suparship" && b[2] == o.project && b[3] == o.app && b[4] == o.env + ".yaml"
            case KeptFile(_) =>
              |b| == 6 && b[0] == ".suparship" && b[2] == o.project && b[3] == o.app && b[4] == o.env
  {
  }

  lemma DifferentFiles(o: Options, q: Options, f: File, g: File)
    requires Apart(o, q)
    ensures PathOf(o, f) != PathOf(q, g)
  {
    PathInTree(o, f);
    PathInTree(q, g);
    if PathOf(o, f) == PathOf(q, g) {
      Under(o.subPath, InTree(o, f), InTree(q, g));
      NamesAt(o, f);
      NamesAt(q, g);
      SameNames(o, q, f, g, InTree(o, f));
    }
  }

  lemma SameNames(o: Options, q: Options, f: File, g: File, b: Path)
    requires b == InTree(o, f) == InTree(q, g) && o.project != "_clusters" && q.project != "_clusters"
    ensures o.env == q.env && o.project == q.project && o.app == q.app
  {
    NamesAt(o, f);
    NamesAt(q, g);
    if f.StateFile? { assert (o.env + ".yaml")[..|o.env|] == o.env && (q.env + ".yaml")[..|q.env|] == q.env; }
  }

  // ---- publishing --------------------------------------------------------

  lemma UnitPaths(o: Options, p: Publication, t: string, u: Option<string>)
    ensures Kept(o, p, t, u).path == PathOf(o, KeptFile(ActiveFile(NamedCluster(t), u)))
    ensures Shown(o, p, t, u).path == PathOf(o, InputFile(NamedCluster(t), TargetFile(u)))
  {
  }

  lemma UnitWritesOwnFile(o: Options, p: Publication, t: string, w: Write) returns (f: File)
    requires w in UnitWrites(o, p, t, RenderedUnits(o))
    ensures w.path == PathOf(o, f)
  {
    UnitWritesAre(o, p, t, RenderedUnits(o));
    var u :| u in RenderedUnits(o) && IsUnitWrite(o, p, w, t, u);
    UnitPaths(o, p, t, u);
    if w.path == PathOf(o, KeptFile(ActiveFile(NamedCluster(t), u))) {
      f := KeptFile(ActiveFile(NamedCluster(t), u));
    } else {
      f := InputFile(NamedCluster(t), TargetFile(u));
    }
  }

  lemma ValuesWriteOwnFile(o: Options, p: Publication, t: string, w: Write) returns (f: File)
    requires w in ComponentWrites(o, p, t)
    ensures w.path == PathOf(o, f)
  {
    var i :| 0 <= i < |o.components| && ComponentWrites(o, p, t)[i] == w;
    f := ValuesFile(Place(o, t), Some(o.components[i].name));
  }

  /** Everything a publish writes is a file of the app. */
  lemma WritesOwnFile(o: Options, p: Publication, t: string, w: Write) returns (f: File)
    requires w in TargetWrites(o, p, t)
    ensures w.path == PathOf(o, f)
  {
    if !o.composed {
      f := if w == TargetWrites(o, p, t)[0] then ValuesFile(Place(o, t), None) else AppYaml(NamedCluster(t));
    } else if w in ComponentWrites(o, p, t) {
      f := ValuesWriteOwnFile(o, p, t, w);
    } else {
      f := UnitWritesOwnFile(o, p, t, w);
    }
  }

  lemma WithinTree(sub: Path, b: Path, dir: Path)
    ensures Within(sub + b, sub + dir) ==> |b| > |dir| && forall i :: 0 <= i < |dir| ==> b[i] == dir[i]
  {
    if Within(sub + b, sub + dir) {
      forall i | 0 <= i < |dir| ensures b[i] == dir[i] {
        assert (sub + b)[..|sub + dir|][|sub| + i] == (sub + dir)[|sub| + i];
      }
    }
  }

  lemma SegmentsAt(sub: Path, b: Path, x: string, y: string, z: string)
    requires |b| > 7
    ensures (sub + b)[|sub| + 4..|sub| + 7] == [x, y, z] ==> b[4] == x && b[5] == y
  {
    var segments := (sub + b)[|sub| + 4..|sub| + 7];
    assert segments[0] == b[4] && segments[1] == b[5];
  }

  /** None of another app's files lies where this one's inputs do, ... */
  lemma InputsAreOwn(o: Options, q: Options, head: string, g: File)
    requires Apart(o, q) && head in {"envs", "envs-external", "_composed-apps"}
    ensures !Within(PathOf(q, g), o.subPath + [head, o.env, o.project, o.app, "_targets"])
  {
    var dir := [head, o.env, o.project, o.app, "_targets"];
    assert dir[0] == head && dir[1] == o.env && dir[2] == o.project && dir[3] == o.app;
    PathInTree(q, g);
    NamesAt(q, g);
    WithinTree(o.subPath, InTree(q, g), dir);
  }

  /** ... or where its components' values do. */
  lemma ValuesAreOwnToo(o: Options, q: Options, g: File)
    requires Apart(o, q)
    ensures !IsComponentValues(o, PathOf(q, g))
  {
    var b := InTree(q, g);
    var shared := [ValuesTree(o), o.env, o.project, o.app, "components"];
    var clusters := [ValuesTree(o), o.env, "_clusters"];
    assert shared[0] == ValuesTree(o) && shared[1] == o.env && shared[2] == o.project && shared[3] == o.app;
    assert clusters[0] == ValuesTree(o) && clusters[1] == o.env && clusters[2] == "_clusters";
    PathInTree(q, g);
    NamesAt(q, g);
    WithinTree(o.subPath, b, shared);
    WithinTree(o.subPath, b, clusters);
    if |b| > 7 { SegmentsAt(o.subPath, b, o.project, o.app, "components"); }
  }

  lemma PublishedApart(o: Options, p: Publication, tree: Tree, q: Options, g: File)
    requires Apart(o, q)
    ensures Untouched(tree, Published(o, p, tree), PathOf(q, g))
  {
    var path, ws := PathOf(q, g), AllWrites(o, p, Targets(o, p));
    InputsAreOwn(o, q, if o.composed then "_composed-apps" else ValuesTree(o), g);
    ValuesAreOwnToo(o, q, g);
    DifferentFiles(o, q, StateFile, g);
    AllWritesAre(o, p, Targets(o, p));
    forall i | 0 <= i < |ws| ensures ws[i].path != path {
      assert ws[i] in ws;
      var t :| t in Targets(o, p) && ws[i] in TargetWrites(o, p, t);
      var f := WritesOwnFile(o, p, t, ws[i]);
      DifferentFiles(o, q, f, g);
    }
    LastWrite(Pruned(o, tree[StatePath(o) := StateDoc(p)]), ws, path);
  }

  /** Publishing an app, bound or not, dormant or not, leaves every file of any other. */
  lemma PublishLeavesOthers(o: Options, p: Publication, rules: Rules, bound: bool, dormant: bool, tree: Tree,
                            q: Options, g: File)
    requires Apart(o, q)
    ensures Untouched(tree, PublishedEnv(o, p, rules, bound, dormant, tree), PathOf(q, g))
  {
    if bound && dormant {
      forall base | base in ["envs", "envs-external", "_composed-apps"]
        ensures !Within(PathOf(q, g), o.subPath + [base, o.env, o.project, o.app, "_targets"])
      {
        InputsAreOwn(o, q, base, g);
      }
    } else if bound {
      PublishedApart(o, Settled(o, p, rules, tree), tree, q, g);
    }
  }

  // ---- promoting ---------------------------------------------------------

  function FileFor(x: Purpose): File {
    match x
    case Values(place, slot) => ValuesFile(place, slot)
    case State => StateFile
    case Marker(c) => AppYaml(c)
    case Activate(c, u) => InputFile(c, TargetFile(u))
  }

  lemma PromotionFrame(o: Options, tree: Tree, freight: Freight, path: Path)
    requires forall x :: x in Purposes(o) ==> Target(StepFor(o, x)) != path
    ensures Untouched(tree, RunSteps(Program(o), Fresh(tree), freight).machine.remote, path)
  {
    OneCommitOrNone(o, tree, freight);
  }

  /** Promoting an app leaves every file of any other, whether or not it goes through. */
  lemma PromotionLeavesOthers(o: Options, tree: Tree, freight: Freight, q: Options, g: File)
    requires Apart(o, q)
    ensures Untouched(tree, RunSteps(Program(o), Fresh(tree), freight).machine.remote, PathOf(q, g))
  {
    forall x ensures Target(StepFor(o, x)) != PathOf(q, g) {
      assert Target(StepFor(o, x)) == PathOf(o, FileFor(x));
      DifferentFiles(o, q, FileFor(x), g);
    }
    PromotionFrame(o, tree, freight, PathOf(q, g));
  }

  // ---- runs --------------------------------------------------------------

  datatype Op =
    | Publish(o: Options, p: Publication, rules: Rules, bound: bool, dormant: bool)
    | Promote(o: Options, freight: Freight)

  function After(op: Op, tree: Tree): Tree {
    match op
    case Publish(o, p, rules, bound, dormant) => PublishedEnv(o, p, rules, bound, dormant, tree)
    case Promote(o, freight) => RunSteps(Program(o), Fresh(tree), freight).machine.remote
  }

  function AfterAll(ops: seq<Op>, tree: Tree): Tree {
    if ops == [] then tree else After(ops[|ops| - 1], AfterAll(ops[..|ops| - 1], tree))
  }

  /** Whatever is published and promoted of other apps and in other environments, in
      whatever order, an app's files in an environment stay as they were. */
  lemma {:induction false} OthersNeverTouch(ops: seq<Op>, tree: Tree, q: Options, g: File)
    requires forall i :: 0 <= i < |ops| ==> Apart(ops[i].o, q)
    ensures Untouched(tree, AfterAll(ops, tree), PathOf(q, g))
  {
    if ops == [] {
    } else {
      var n := |ops| - 1;
      OthersNeverTouch(ops[..n], tree, q, g);
      match ops[n]
      case Publish(o, p, rules, bound, dormant) =>
        PublishLeavesOthers(o, p, rules, bound, dormant, AfterAll(ops[..n], tree), q, g);
      case Promote(o, freight) => PromotionLeavesOthers(o, AfterAll(ops[..n], tree), freight, q, g);
    }
  }
}
