/** The gitops tree of a single-source app carries the marker state machine: what
    the publisher writes and what a promotion does to the files are its steps. */
module MarkerRefinement {
  import opened GitTree
  import opened PromotionTemplate
  import opened Promotion
  import opened Publishing
  import opened Wrappers
  import P = PreparedRelease
  import R = ReleaseRoundTrip
  import U = Republish

  function MarkerAt(o: Options, tree: Tree): P.Marker {
    if StatePath(o) !in tree then P.Absent
    else match tree[StatePath(o)]
      case Manifest(_) => P.Unparsed
      case Fields(fields) =>
        if "pending" !in fields then P.Blank
        else if fields["pending"] == "true" then P.Value(true)
        else if fields["pending"] == "false" then P.Value(false)
        else P.Mistyped
  }

  function InputAt(o: Options, tree: Tree, cluster: string): Option<bool> {
    if AppYamlPath(o, cluster) !in tree then None
    else match tree[AppYamlPath(o, cluster)]
      case Manifest(_) => Some(false)
      case Fields(fields) => Some("promotionPending" in fields && fields["promotionPending"] == "true")
  }

  function BaseOf(o: Options): P.Base {
    if o.external then P.External else P.Inline
  }

  function Held(s: P.State, target: P.Target): Option<bool> {
    if target in s.targets then Some(s.targets[target]) else None
  }

  /** The input of a cluster. */
  function At(o: Options, cluster: string): P.Target {
    P.Target(BaseOf(o), P.Spot(cluster, None))
  }

  function SpotsOf(clusters: seq<string>): seq<P.Spot> {
    seq(|clusters|, i requires 0 <= i < |clusters| => P.Spot(clusters[i], None))
  }

  lemma SpotMembers(clusters: seq<string>)
    ensures forall c: P.Spot :: c in SpotsOf(clusters) <==> c.unit == None && c.cluster in clusters
  {
    forall c: P.Spot | c.unit == None && c.cluster in clusters ensures c in SpotsOf(clusters) {
      var i :| 0 <= i < |clusters| && clusters[i] == c.cluster;
      assert SpotsOf(clusters)[i] == c;
    }
  }

  /** The tree shows this marker state, as far as this app's own tree goes. */
  ghost predicate Shows(o: Options, tree: Tree, s: P.State) {
    MarkerAt(o, tree) == s.release && forall c :: InputAt(o, tree, c) == Held(s, At(o, c))
  }

  lemma OtherInputUntouched(o: Options, before: Tree, after: Tree, freight: Freight, c: string)
    requires !o.composed && Promoted(o, before, after, freight) && c !in Destinations(o)
    ensures InputAt(o, after, c) == InputAt(o, before, c)
  {
    forall p | p in Purposes(o) ensures Target(StepFor(o, p)) != AppYamlPath(o, c) {
      var i :| 0 <= i < |Purposes(o)| && Purposes(o)[i] == p;
      PurposesFit(o, i);
      Members(o);
      if Target(StepFor(o, p)) == AppYamlPath(o, c) { OneFileEach(o, p, Marker(c)); }
    }
    assert Untouched(before, after, AppYamlPath(o, c));
  }

  /** A promotion of the files is a promotion of the state; one that stops changes
      neither. */
  lemma PromotionIsAStep(o: Options, tree: Tree, freight: Freight, s: P.State)
    requires !o.composed && Shows(o, tree, s)
    ensures var r := RunSteps(Program(o), Fresh(tree), freight);
            if r.Done? then P.CanPromote(s, BaseOf(o), SpotsOf(Destinations(o)))
                            && Shows(o, r.machine.remote, P.Promote(s, BaseOf(o), SpotsOf(Destinations(o))))
            else Shows(o, r.machine.remote, s)
  {
    OneCommitOrNone(o, tree, freight);
    if Ready(o, tree, freight) {
      var after := RunSteps(Program(o), Fresh(tree), freight).machine.remote;
      var base, spots := BaseOf(o), SpotsOf(Destinations(o));
      SpotMembers(Destinations(o));
      assert MarkerAt(o, after) == P.Value(false);
      Members(o);
      forall c | c in Destinations(o) ensures InputAt(o, tree, c).Some? && InputAt(o, after, c) == Some(false) {
        assert Marker(c) in Purposes(o);
        assert Cleared(tree, after, AppYamlPath(o, c), "promotionPending");
      }
      assert State in Purposes(o);
      assert P.CanPromote(s, base, spots) by {
        forall i | 0 <= i < |spots| ensures P.HasSource(s, base, spots[i]) {
          assert InputAt(o, tree, Destinations(o)[i]) == Held(s, At(o, Destinations(o)[i]));
        }
      }
      forall c ensures InputAt(o, after, c) == Held(P.Promote(s, base, spots), At(o, c)) {
        P.InputsOf(base, spots, false);
        assert InputAt(o, tree, c) == Held(s, At(o, c));
        if c in Destinations(o) {
          assert P.Spot(c, None) in spots;
        } else {
          OtherInputUntouched(o, tree, after, freight, c);
        }
      }
    }
  }

  function Named(targets: seq<string>): seq<string> {
    seq(|targets|, i requires 0 <= i < |targets| => NamedCluster(targets[i]))
  }

  lemma PublishedInput(o: Options, p: Publication, tree: Tree, c: string)
    requires !o.composed
    ensures InputAt(o, Published(o, p, tree), c) == if c in Named(Targets(o, p)) then Some(p.pending) else None
  {
    if c in Named(Targets(o, p)) {
      var i :| 0 <= i < |Named(Targets(o, p))| && Named(Targets(o, p))[i] == c;
      InputWritten(o, p, tree, Targets(o, p)[i]);
    } else {
      InputNotWritten(o, p, tree, c);
    }
  }

  lemma InputWritten(o: Options, p: Publication, tree: Tree, t: string)
    requires !o.composed && t in Targets(o, p)
    ensures InputAt(o, Published(o, p, tree), NamedCluster(t)) == Some(p.pending)
  {
    var w := TargetWrites(o, p, t)[1];
    var last, writer := R.Holds(o, p, tree, t, w);
    AppYamlWrite(o, p, writer, last, NamedCluster(t));
  }

  lemma InputNotWritten(o: Options, p: Publication, tree: Tree, c: string)
    requires !o.composed && c !in Named(Targets(o, p))
    ensures InputAt(o, Published(o, p, tree), c) == None
  {
    var ws := AllWrites(o, p, Targets(o, p));
    R.AllWritesAre(o, p, Targets(o, p));
    AppYamlIsStale(o, c);
    forall i | 0 <= i < |ws| ensures ws[i].path != AppYamlPath(o, c) {
      assert ws[i] in ws;
      var t :| t in Targets(o, p) && ws[i] in TargetWrites(o, p, t);
      var k :| 0 <= k < |Targets(o, p)| && Targets(o, p)[k] == t;
      assert Named(Targets(o, p))[k] != c;
      if ws[i].path == AppYamlPath(o, c) { AppYamlWrite(o, p, t, ws[i], c); }
    }
    LastWrite(Pruned(o, tree[StatePath(o) := StateDoc(p)]), ws, AppYamlPath(o, c));
  }

  lemma AppYamlIsStale(o: Options, c: string)
    requires !o.composed
    ensures Stale(o, AppYamlPath(o, c))
  {
    var dir := o.subPath + [ValuesTree(o), o.env, o.project, o.app, "_targets"];
    assert AppYamlPath(o, c)[..|dir|] == dir;
  }

  lemma AppYamlWrite(o: Options, p: Publication, t: string, w: Write, c: string)
    requires !o.composed && w in TargetWrites(o, p, t) && w.path == AppYamlPath(o, c)
    ensures c == NamedCluster(t) && w == TargetWrites(o, p, t)[1]
  {
    var k := |o.subPath|;
    var values := ValuesPath(o, Place(o, t), None);
    assert values[|values| - 1] == "values.yaml" && w.path[|w.path| - 1] == "app.yaml";
    assert w == TargetWrites(o, p, t)[1];
    assert AppYamlPath(o, c)[k + 5] == c && AppYamlPath(o, NamedCluster(t))[k + 5] == NamedCluster(t);
  }

  /** What a publish leaves of the files: nothing changes for an unbound environment or
      an unreadable state file, a dormant one loses its inputs, and any other is
      published with the marker the files have. */
  function FilesAfter(o: Options, p: Publication, rules: U.Rules, tree: Tree, env: P.Env, dormant: P.Result<bool>): Tree
  {
    if !env.bound then tree
    else match dormant
      case Err(_) => tree
      case Ok(true) => U.WithoutInputs(o, tree)
      case Ok(false) =>
        match P.Pending(MarkerAt(o, tree), env.prepareOnly)
        case Err(_) => tree
        case Ok(pending) => U.PublishedEnv(o, p.(pending := pending), rules, true, false, tree)
  }

  /** Publishing the files is publishing the state, whatever becomes of it. */
  lemma PublishIsAStep(o: Options, p: Publication, rules: U.Rules, tree: Tree, s: P.State, env: P.Env)
    requires !o.composed && Shows(o, tree, s)
    requires env.base == BaseOf(o) && !env.preview && env.spots == SpotsOf(Named(Targets(o, p)))
    ensures Shows(o, FilesAfter(o, p, rules, tree, env, P.Dormant(s, env)), P.Pushed(P.Publish(s, env), s))
  {
    if env.bound {
      match P.Dormant(s, env)
      case Err(_) =>
      case Ok(true) => EmptiedShows(o, tree, s);
      case Ok(false) =>
        match P.Pending(s.release, env.prepareOnly)
        case Err(_) =>
        case Ok(pending) =>
          var q := p.(pending := pending);
          PublishedShows(o, U.Settled(o, q, rules, tree), tree, s, env);
    }
  }

  lemma EmptiedShows(o: Options, tree: Tree, s: P.State)
    requires !o.composed && Shows(o, tree, s)
    ensures Shows(o, U.WithoutInputs(o, tree), s.(targets := map[]))
  {
    StateIsNoInput(o);
    forall c ensures AppYamlPath(o, c) !in U.WithoutInputs(o, tree) {
      var dir := o.subPath + [ValuesTree(o), o.env, o.project, o.app, "_targets"];
      assert AppYamlPath(o, c)[..|dir|] == dir && Within(AppYamlPath(o, c), dir);
      assert ["envs", "envs-external", "_composed-apps"][if o.external then 1 else 0] == ValuesTree(o);
    }
  }

  lemma StateIsNoInput(o: Options)
    ensures !U.IsAnyInput(o, StatePath(o))
  {
    var k := |o.subPath|;
    assert StatePath(o)[k] == ".suparship";
    forall base | base in ["envs", "envs-external", "_composed-apps"]
      ensures !Within(StatePath(o), o.subPath + [base, o.env, o.project, o.app, "_targets"])
    {
      var dir := o.subPath + [base, o.env, o.project, o.app, "_targets"];
      assert dir[k] == base != ".suparship";
      OtherSegment(StatePath(o), dir, k);
    }
  }

  lemma OtherSegment(path: Path, dir: Path, k: nat)
    requires k < |path| && k < |dir| && path[k] != dir[k]
    ensures !Within(path, dir)
  {
    assert |path| > |dir| ==> path[..|dir|][k] == path[k];
  }

  lemma PublishedShows(o: Options, p: Publication, tree: Tree, s: P.State, env: P.Env)
    requires !o.composed && Shows(o, tree, s)
    requires env.base == BaseOf(o) && !env.preview && env.spots == SpotsOf(Named(Targets(o, p)))
    ensures Shows(o, Published(o, p, tree), P.Written(s, env, p.pending))
  {
    var after := P.Written(s, env, p.pending);
    R.StatePublished(o, p, tree);
    assert MarkerAt(o, Published(o, p, tree)) == P.Value(p.pending);
    SpotMembers(Named(Targets(o, p)));
    P.InputsOf(env.base, env.spots, p.pending);
    forall c ensures InputAt(o, Published(o, p, tree), c) == Held(after, At(o, c)) {
      PublishedInput(o, p, tree, c);
      assert At(o, c) !in P.Others(s.targets, env.base);
      if c in Named(Targets(o, p)) { assert P.Spot(c, None) in env.spots; }
    }
  }
}
