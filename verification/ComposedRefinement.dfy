/** The same for a composed app, whose inputs are Applications, and whose promotion
    copies the ones a publish keeps for it: an Application without the policy to sync
    by itself is one held back. */
module ComposedRefinement {
  import opened Components
  import opened GitTree
  import opened PromotionTemplate
  import opened Promotion
  import opened Publishing
  import opened ReleaseRoundTrip
  import opened Wrappers
  import A = Activation
  import M = MarkerRefinement
  import P = PreparedRelease
  import U = Republish

  predicate HeldDoc(doc: Doc) {
    !(doc.Manifest? && doc.app.automated.Some?)
  }

  function HeldAt(tree: Tree, path: Path): Option<bool> {
    if path in tree then Some(HeldDoc(tree[path])) else None
  }

  function KeptIn(s: P.State, name: string): Option<bool> {
    if name in s.kept then Some(s.kept[name]) else None
  }

  ghost predicate InputShows(o: Options, tree: Tree, s: P.State, c: string, u: Option<string>) {
    HeldAt(tree, TargetPath(o, c, TargetFile(u))) == M.Held(s, P.Target(P.Composed, P.Spot(c, u)))
  }

  ghost predicate KeptShows(o: Options, tree: Tree, s: P.State, name: string) {
    HeldAt(tree, ActivePath(o, ActiveFile(name, None))) == KeptIn(s, name)
  }

  ghost predicate Shows(o: Options, tree: Tree, s: P.State) {
    && M.MarkerAt(o, tree) == s.release
    && (forall c, u :: InputShows(o, tree, s, c, u))
    && forall name :: KeptShows(o, tree, s, name)
  }

  /** One spot for each unit on each cluster. */
  function Grid(clusters: seq<string>, units: seq<Option<string>>): seq<P.Spot> {
    if clusters == [] then []
    else
      var n := |clusters| - 1;
      Grid(clusters[..n], units) + seq(|units|, i requires 0 <= i < |units| => P.Spot(clusters[n], units[i]))
  }

  lemma {:induction false} GridMembers(clusters: seq<string>, units: seq<Option<string>>, c: string, u: Option<string>)
    ensures P.Spot(c, u) in Grid(clusters, units) <==> c in clusters && u in units
  {
    if clusters == [] {
    } else {
      var n := |clusters| - 1;
      GridMembers(clusters[..n], units, c, u);
      assert clusters == clusters[..n] + [clusters[n]];
      var row := seq(|units|, i requires 0 <= i < |units| => P.Spot(clusters[n], units[i]));
      assert P.Spot(c, u) in row <==> c == clusters[n] && u in units by {
        if c == clusters[n] && u in units {
          var i :| 0 <= i < |units| && units[i] == u;
          assert row[i] == P.Spot(c, u);
        }
      }
    }
  }

  // ---- publishing --------------------------------------------------------

  function SpotsOf(o: Options, p: Publication): seq<P.Spot> {
    Grid(M.Named(Targets(o, p)), RenderedUnits(o))
  }

  lemma SpotHasTarget(o: Options, p: Publication, c: string, u: Option<string>)
    ensures P.Spot(c, u) in SpotsOf(o, p) <==>
              u in RenderedUnits(o) && exists t :: t in Targets(o, p) && NamedCluster(t) == c
  {
    var targets := Targets(o, p);
    GridMembers(M.Named(targets), RenderedUnits(o), c, u);
    if c in M.Named(targets) {
      var i :| 0 <= i < |targets| && M.Named(targets)[i] == c;
      assert targets[i] in targets;
    }
    if t :| t in targets && NamedCluster(t) == c {
      var i :| 0 <= i < |targets| && targets[i] == t;
      assert M.Named(targets)[i] == c;
    }
  }

  lemma UnitOfTarget(o: Options, p: Publication, tree: Tree, t: string, u: Option<string>)
    requires o.composed && t in Targets(o, p) && u in RenderedUnits(o)
    ensures HeldAt(Published(o, p, tree), TargetPath(o, NamedCluster(t), TargetFile(u)))
         == Some(p.pending || !p.automated)
  {
    UnitPublished(o, p, t, u);
    PathsOfUnits(o, p, t, u);
    var last, writer := Holds(o, p, tree, t, Shown(o, p, t, u));
    var v := ShownUnit(o, p, writer, last);
    ShownPolicy(o, p, writer, v);
  }

  lemma ShownPolicy(o: Options, p: Publication, t: string, u: Option<string>)
    ensures HeldDoc(Shown(o, p, t, u).doc) <==> p.pending || !p.automated
    ensures HeldDoc(Kept(o, p, t, u).doc) <==> !p.automated
  {
  }

  lemma NotShown(o: Options, p: Publication, tree: Tree, c: string, u: Option<string>)
    requires o.composed && P.Spot(c, u) !in SpotsOf(o, p)
    ensures TargetPath(o, c, TargetFile(u)) !in Published(o, p, tree)
  {
    var path := TargetPath(o, c, TargetFile(u));
    var dir := o.subPath + ["_composed-apps", o.env, o.project, o.app, "_targets"];
    assert path[..|dir|] == dir && IsInput(o, path);
    if path in Published(o, p, tree) {
      var t, v := OnlyRenderedRemain(o, p, tree, path);
      A.SameTargetCluster(o, p, t, v, c, u);
      SameFile(o, c, u, NamedCluster(t), v);
      SpotHasTarget(o, p, c, u);
    }
  }

  lemma SameFile(o: Options, c: string, u: Option<string>, d: string, v: Option<string>)
    requires TargetPath(o, c, TargetFile(u)) == TargetPath(o, d, TargetFile(v))
    ensures c == d && u == v
  {
    var k := |o.subPath|;
    assert TargetPath(o, c, TargetFile(u))[k + 5] == c && TargetPath(o, d, TargetFile(v))[k + 5] == d;
    assert TargetPath(o, c, TargetFile(u))[k + 6] == TargetFile(u);
    assert TargetPath(o, d, TargetFile(v))[k + 6] == TargetFile(v);
    SameTargetFile(u, v);
  }

  /** The labels of what is written are those kept now. */
  lemma LabelsOfSpots(o: Options, p: Publication, name: string)
    ensures name in P.LabelSet(SpotsOf(o, p)) <==> A.KeptNow(o, p, name, None)
  {
    if name in P.LabelSet(SpotsOf(o, p)) {
      var c :| c in SpotsOf(o, p) && P.Label(c) == name;
      SpotHasTarget(o, p, c.cluster, c.unit);
      var t :| t in Targets(o, p) && NamedCluster(t) == c.cluster;
      assert Label(NamedCluster(t), c.unit) == Label(name, None);
    }
    if A.KeptNow(o, p, name, None) {
      var t, v :| t in Targets(o, p) && v in RenderedUnits(o) && Label(NamedCluster(t), v) == Label(name, None);
      SpotHasTarget(o, p, NamedCluster(t), v);
      assert P.Label(P.Spot(NamedCluster(t), v)) == name;
    }
  }

  lemma KeptAfter(o: Options, p: Publication, tree: Tree, name: string)
    requires o.composed
    ensures var path := ActivePath(o, ActiveFile(name, None));
            HeldAt(Published(o, p, tree), path)
            == if name in P.LabelSet(SpotsOf(o, p)) then Some(!p.automated) else HeldAt(tree, path)
  {
    LabelsOfSpots(o, p, name);
    if A.KeptNow(o, p, name, None) {
      var t, v := A.KeptFor(o, p, tree, name, None);
      ShownPolicy(o, p, t, v);
    } else {
      A.NotKeptNow(o, p, tree, name, None);
    }
  }

  /** Publishing is the publish step, whatever becomes of it. */
  lemma PublishIsAStep(o: Options, p: Publication, rules: U.Rules, tree: Tree, s: P.State, env: P.Env)
    requires o.composed && Shows(o, tree, s)
    requires env.base == P.Composed && env.syncs == p.automated && env.spots == SpotsOf(o, p)
    ensures Shows(o, M.FilesAfter(o, p, rules, tree, env, P.Dormant(s, env)), P.Pushed(P.Publish(s, env), s))
  {
    if env.bound {
      match P.Dormant(s, env)
      case Err(_) =>
      case Ok(true) => EmptiedShows(o, tree, s);
      case Ok(false) =>
        match P.Pending(s.release, env.prepareOnly)
        case Err(_) =>
        case Ok(pending) =>
          var q := p.(pending := pending);
          PublishedShows(o, U.Settled(o, q, rules, tree), tree, s, env);
    }
  }

  lemma NoInputs(o: Options, path: Path)
    requires |path| > |o.subPath| && path[|o.subPath|] == ".suparship"
    ensures !U.IsAnyInput(o, path)
  {
    forall base | base in ["envs", "envs-external", "_composed-apps"]
      ensures !Within(path, o.subPath + [base, o.env, o.project, o.app, "_targets"])
    {
      var dir := o.subPath + [base, o.env, o.project, o.app, "_targets"];
      assert dir[|o.subPath|] == base != ".suparship";
      M.OtherSegment(path, dir, |o.subPath|);
    }
  }

  lemma EmptiedShows(o: Options, tree: Tree, s: P.State)
    requires o.composed && Shows(o, tree, s)
    ensures Shows(o, U.WithoutInputs(o, tree), s.(targets := map[]))
  {
    NoInputs(o, StatePath(o));
    forall c, u ensures TargetPath(o, c, TargetFile(u)) !in U.WithoutInputs(o, tree) {
      Removed(o, tree, c, u);
    }
    forall name ensures KeptShows(o, U.WithoutInputs(o, tree), s.(targets := map[]), name) {
      NoInputs(o, ActivePath(o, ActiveFile(name, None)));
      assert KeptShows(o, tree, s, name);
    }
  }

  lemma Removed(o: Options, tree: Tree, c: string, u: Option<string>)
    ensures TargetPath(o, c, TargetFile(u)) !in U.WithoutInputs(o, tree)
  {
    var path := TargetPath(o, c, TargetFile(u));
    var dir := o.subPath + ["_composed-apps", o.env, o.project, o.app, "_targets"];
    assert path[..|dir|] == dir && Within(path, dir);
    assert ["envs", "envs-external", "_composed-apps"][2] == "_composed-apps";
  }

  lemma PublishedShows(o: Options, p: Publication, tree: Tree, s: P.State, env: P.Env)
    requires o.composed && Shows(o, tree, s)
    requires env.base == P.Composed && env.syncs == p.automated && env.spots == SpotsOf(o, p)
    ensures Shows(o, Published(o, p, tree), P.Written(s, env, p.pending))
  {
    var out, after := Published(o, p, tree), P.Written(s, env, p.pending);
    StatePublished(o, p, tree);
    assert M.MarkerAt(o, out) == P.Value(p.pending);
    P.InputsOf(P.Composed, env.spots, p.pending || !p.automated);
    forall c, u ensures InputShows(o, out, after, c, u) {
      assert P.Target(P.Composed, P.Spot(c, u)) !in P.Others(s.targets, P.Composed);
      if P.Spot(c, u) in env.spots {
        SpotHasTarget(o, p, c, u);
        var t :| t in Targets(o, p) && NamedCluster(t) == c;
        UnitOfTarget(o, p, tree, t, u);
      } else {
        NotShown(o, p, tree, c, u);
      }
    }
    forall name ensures KeptShows(o, out, after, name) {
      KeptAfter(o, p, tree, name);
      assert KeptShows(o, tree, s, name);
    }
  }

  // ---- promoting ---------------------------------------------------------

  /** The spots a template writes. */
  function Activates(o: Options): seq<P.Spot> {
    Grid(Destinations(o), Units(o.components))
  }

  lemma InputUntouched(o: Options, before: Tree, after: Tree, freight: Freight, c: string, u: Option<string>)
    requires o.composed && Promoted(o, before, after, freight) && P.Spot(c, u) !in Activates(o)
    ensures Untouched(before, after, TargetPath(o, c, TargetFile(u)))
  {
    GridMembers(Destinations(o), Units(o.components), c, u);
    Members(o);
    NotActivated(o, before, after, freight, c, u);
  }

  lemma KeptUntouched(o: Options, before: Tree, after: Tree, freight: Freight, name: string)
    requires o.composed && Promoted(o, before, after, freight)
    ensures Untouched(before, after, ActivePath(o, ActiveFile(name, None)))
  {
    var a := Activate(name, None);
    assert Reads(StepFor(o, a)) == ActivePath(o, ActiveFile(name, None));
    forall x | x in Purposes(o) ensures Target(StepFor(o, x)) != ActivePath(o, ActiveFile(name, None)) {
      var i :| 0 <= i < |Purposes(o)| && Purposes(o)[i] == x;
      PurposesFit(o, i);
      CopiesReadElsewhere(o, a, x);
    }
  }

  lemma KeptFile(o: Options, c: string, u: Option<string>)
    ensures ActivePath(o, ActiveFile(c, u)) == ActivePath(o, ActiveFile(Label(c, u), None))
  {
    SameFileSameLabel(c, u, Label(c, u), None);
  }

  /** Running the template on any files is the promotion step; a run that stops
      changes neither. */
  lemma PromotionIsAStep(o: Options, tree: Tree, freight: Freight, s: P.State)
    requires o.composed && Shows(o, tree, s)
    ensures var r := RunSteps(Program(o), Fresh(tree), freight);
            if r.Done? then P.CanPromote(s, P.Composed, Activates(o))
                            && Shows(o, r.machine.remote, P.Promote(s, P.Composed, Activates(o)))
            else Shows(o, r.machine.remote, s)
  {
    OneCommitOrNone(o, tree, freight);
    if Ready(o, tree, freight) {
      var after := RunSteps(Program(o), Fresh(tree), freight).machine.remote;
      KeptForAll(o, tree, after, freight, s);
      PromotedShows(o, tree, after, freight, s);
    }
  }

  lemma KeptForAll(o: Options, tree: Tree, after: Tree, freight: Freight, s: P.State)
    requires o.composed && Shows(o, tree, s) && Ready(o, tree, freight) && Promoted(o, tree, after, freight)
    ensures P.CanPromote(s, P.Composed, Activates(o))
  {
    StateRead(o, tree, freight);
    forall i | 0 <= i < |Activates(o)| ensures P.HasSource(s, P.Composed, Activates(o)[i]) {
      KeptForOne(o, tree, after, freight, s, Activates(o)[i]);
    }
  }

  lemma StateRead(o: Options, tree: Tree, freight: Freight)
    requires Ready(o, tree, freight)
    ensures M.MarkerAt(o, tree) != P.Absent && M.MarkerAt(o, tree) != P.Unparsed
  {
    assert State in Purposes(o) by { Members(o); }
    assert HasInput(o, tree, State);
  }

  lemma KeptForOne(o: Options, tree: Tree, after: Tree, freight: Freight, s: P.State, c: P.Spot)
    requires o.composed && Shows(o, tree, s) && Promoted(o, tree, after, freight) && c in Activates(o)
    ensures P.HasSource(s, P.Composed, c)
  {
    GridMembers(Destinations(o), Units(o.components), c.cluster, c.unit);
    KeptFile(o, c.cluster, c.unit);
    assert Restored(tree, after, ActivePath(o, ActiveFile(c.cluster, c.unit)),
                    TargetPath(o, c.cluster, TargetFile(c.unit)));
    assert KeptShows(o, tree, s, P.Label(c));
  }

  lemma PromotedShows(o: Options, tree: Tree, after: Tree, freight: Freight, s: P.State)
    requires o.composed && Shows(o, tree, s) && Promoted(o, tree, after, freight)
    requires P.CanPromote(s, P.Composed, Activates(o))
    ensures Shows(o, after, P.Promote(s, P.Composed, Activates(o)))
  {
    var promoted := P.Promote(s, P.Composed, Activates(o));
    assert M.MarkerAt(o, after) == P.Value(false);
    forall c, u ensures InputShows(o, after, promoted, c, u) {
      PromotedInput(o, tree, after, freight, s, c, u);
    }
    forall name ensures KeptShows(o, after, promoted, name) {
      KeptUntouched(o, tree, after, freight, name);
      assert KeptShows(o, tree, s, name);
    }
  }

  lemma PromotedInput(o: Options, tree: Tree, after: Tree, freight: Freight, s: P.State, c: string, u: Option<string>)
    requires o.composed && Shows(o, tree, s) && Promoted(o, tree, after, freight)
    requires P.CanPromote(s, P.Composed, Activates(o))
    ensures InputShows(o, after, P.Promote(s, P.Composed, Activates(o)), c, u)
  {
    assert InputShows(o, tree, s, c, u);
    P.InputsOf(P.Composed, Activates(o), false);
    if P.Spot(c, u) in Activates(o) {
      GridMembers(Destinations(o), Units(o.components), c, u);
      KeptFile(o, c, u);
      assert Restored(tree, after, ActivePath(o, ActiveFile(c, u)), TargetPath(o, c, TargetFile(u)));
      assert KeptShows(o, tree, s, Label(c, u));
    } else {
      InputUntouched(o, tree, after, freight, c, u);
    }
  }

  // ---- a dormant environment that comes back -----------------------------

  lemma ValuesAreNoInput(o: Options, place: Option<string>, slot: string)
    ensures !U.IsAnyInput(o, ValuesPath(o, place, Some(slot)))
  {
    var k, path := |o.subPath|, ValuesPath(o, place, Some(slot));
    forall base | base in ["envs", "envs-external", "_composed-apps"]
      ensures !Within(path, o.subPath + [base, o.env, o.project, o.app, "_targets"])
    {
      var dir := o.subPath + [base, o.env, o.project, o.app, "_targets"];
      assert dir[k + 2] == o.project && dir[k + 4] == "_targets";
      if place.Some? {
        assert path[k + 2] == "_clusters" && path[k + 4] == o.project;
      } else {
        assert path[k + 4] == "components";
      }
      if o.project != "_clusters" || place.None? {
        M.OtherSegment(path, dir, if place.Some? then k + 2 else k + 4);
      } else {
        M.OtherSegment(path, dir, k + 4);
      }
    }
  }

  lemma StillThere(o: Options, tree: Tree, x: Purpose)
    requires o.composed && x in Purposes(o) && HasInput(o, tree, x)
    ensures HasInput(o, U.WithoutInputs(o, tree), x)
  {
    Members(o);
    match x
    case Values(place, slot) =>
      OwnerOfSlot(o, slot);
      ValuesAreNoInput(o, place, slot.value);
    case State => NoInputs(o, StatePath(o));
    case Activate(c, u) => NoInputs(o, ActivePath(o, ActiveFile(c, u)));
  }

  /** A composed app that was published and then emptied, as ending a validation and
      every publish of a dormant environment do: a promotion goes through, clears the
      marker and puts back every Application that was removed. */
  lemma DormantComesBack(o: Options, p: Publication, tree: Tree, freight: Freight)
    requires o.composed && AllTemplated(o.components) && OwnersExist(o) && SameCluster(o, p)
    requires forall image :: image in o.images ==> image.repository in freight
    ensures var before := U.WithoutInputs(o, Published(o, p, tree));
            var r := RunSteps(Program(o), Fresh(before), freight);
            && r.Done? && M.MarkerAt(o, r.machine.remote) == P.Value(false)
            && forall c, u :: c in Destinations(o) && u in Units(o.components) ==>
                 && HeldAt(before, TargetPath(o, c, TargetFile(u))) == None
                 && HeldAt(r.machine.remote, TargetPath(o, c, TargetFile(u))) == Some(!p.automated)
  {
    var before := U.WithoutInputs(o, Published(o, p, tree));
    StillReady(o, p, tree, freight);
    OneCommitOrNone(o, before, freight);
    var after := RunSteps(Program(o), Fresh(before), freight).machine.remote;
    forall c, u | c in Destinations(o) && u in Units(o.components)
      ensures HeldAt(before, TargetPath(o, c, TargetFile(u))) == None
      ensures HeldAt(after, TargetPath(o, c, TargetFile(u))) == Some(!p.automated)
    {
      ComesBack(o, p, tree, after, freight, c, u);
    }
  }

  lemma StillReady(o: Options, p: Publication, tree: Tree, freight: Freight)
    requires o.composed && AllTemplated(o.components) && OwnersExist(o) && SameCluster(o, p)
    requires forall image :: image in o.images ==> image.repository in freight
    ensures Ready(o, U.WithoutInputs(o, Published(o, p, tree)), freight)
  {
    PublishedIsReady(o, p, tree, freight);
    forall x | x in Purposes(o) ensures HasInput(o, U.WithoutInputs(o, Published(o, p, tree)), x) {
      StillThere(o, Published(o, p, tree), x);
    }
  }

  lemma ComesBack(o: Options, p: Publication, tree: Tree, after: Tree, freight: Freight, c: string, u: Option<string>)
    requires o.composed && AllTemplated(o.components) && SameCluster(o, p)
    requires Promoted(o, U.WithoutInputs(o, Published(o, p, tree)), after, freight)
    requires c in Destinations(o) && u in Units(o.components)
    ensures HeldAt(U.WithoutInputs(o, Published(o, p, tree)), TargetPath(o, c, TargetFile(u))) == None
    ensures HeldAt(after, TargetPath(o, c, TargetFile(u))) == Some(!p.automated)
  {
    var before := U.WithoutInputs(o, Published(o, p, tree));
    Removed(o, Published(o, p, tree), c, u);
    StillKept(o, p, tree, c, u);
    assert Restored(before, after, ActivePath(o, ActiveFile(c, u)), TargetPath(o, c, TargetFile(u)));
  }

  lemma StillKept(o: Options, p: Publication, tree: Tree, c: string, u: Option<string>)
    requires o.composed && AllTemplated(o.components) && SameCluster(o, p)
    requires c in Destinations(o) && u in Units(o.components)
    ensures HeldAt(U.WithoutInputs(o, Published(o, p, tree)), ActivePath(o, ActiveFile(c, u))) == Some(!p.automated)
  {
    RenderedIfTemplated(o);
    var t := TargetOf(o, p, c);
    A.OwnKept(o, p, t, u);
    var d, v := A.KeptFor(o, p, tree, c, u);
    ShownPolicy(o, p, d, v);
    NoInputs(o, ActivePath(o, ActiveFile(c, u)));
  }
}
