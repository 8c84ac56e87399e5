/** A Stage's template is built for the clusters of the last full publish; publishing
    one environment, preparing it or starting its validation resolves the clusters
    again and leaves the Stage alone. So files may be published for some clusters and
    promoted for others: next has the options of o with the clusters of the template. */
module SwitchedClusters {
  import opened Components
  import opened GitTree
  import opened PromotionTemplate
  import opened Promotion
  import opened Publishing
  import opened ReleaseRoundTrip
  import opened Wrappers
  import A = Activation
  import M = MarkerRefinement
  import U = Republish

  /** The promotion reads the same files whatever the clusters are. */
  lemma SameFile(o: Options, next: Options, tree: Tree, x: Purpose)
    requires next == o.(clusters := next.clusters)
    ensures HasInput(next, tree, x) <==> HasInput(o, tree, x)
  {
    assert Reads(StepFor(next, x)) == Reads(StepFor(o, x));
  }

  // ---- single-source -----------------------------------------------------

  predicate YamlAt(tree: Tree, path: Path) {
    path in tree && tree[path].Fields?
  }

  /** A single-source promotion goes through exactly when the files were published for
      every cluster of the template, and every values file it edits was written or,
      as a publish never removes one, is there from before. */
  lemma SingleGoesThroughExactly(o: Options, p: Publication, tree: Tree, freight: Freight, next: Options)
    requires !o.composed && next == o.(clusters := next.clusters)
    requires forall image :: image in o.images ==> image.repository in freight
    ensures RunSteps(Program(next), Fresh(Published(o, p, tree)), freight).Done? <==>
              && (forall c :: c in Destinations(next) ==> c in M.Named(Targets(o, p)))
              && forall place :: place in Places(next) ==>
                   place in Places(o) || YamlAt(tree, ValuesPath(o, place, None))
  {
    DoneExactly(next, Published(o, p, tree), freight);
    StateThere(o, p, tree, next);
    ByPurpose(next, Published(o, p, tree));
    SingleMarkers(o, p, tree, next);
    SingleValues(o, p, tree, next);
  }

  lemma StateThere(o: Options, p: Publication, tree: Tree, next: Options)
    requires next == o.(clusters := next.clusters)
    ensures HasInput(next, Published(o, p, tree), State)
  {
    StatePublished(o, p, tree);
    assert Reads(StepFor(next, State)) == StatePath(o);
  }

  lemma SingleMarkers(o: Options, p: Publication, tree: Tree, next: Options)
    requires !o.composed && next == o.(clusters := next.clusters)
    ensures MarkersIn(next, Published(o, p, tree)) <==>
              forall c :: c in Destinations(next) ==> c in M.Named(Targets(o, p))
  {
    forall c ensures HasInput(next, Published(o, p, tree), Marker(c)) <==> c in M.Named(Targets(o, p)) {
      SameFile(o, next, Published(o, p, tree), Marker(c));
      MarkerThere(o, p, tree, c);
    }
  }

  lemma SingleValues(o: Options, p: Publication, tree: Tree, next: Options)
    requires !o.composed && next == o.(clusters := next.clusters)
    ensures ValuesIn(next, Published(o, p, tree)) <==>
              forall place :: place in Places(next) ==> place in Places(o) || YamlAt(tree, ValuesPath(o, place, None))
  {
    forall place ensures HasInput(next, Published(o, p, tree), Values(place, None)) <==>
                           place in Places(o) || YamlAt(tree, ValuesPath(o, place, None))
    {
      SameFile(o, next, Published(o, p, tree), Values(place, None));
      SingleValuesThere(o, p, tree, place);
    }
    assert Slots(next) == [None] && Slots(next)[0] in Slots(next);
  }

  lemma MarkerThere(o: Options, p: Publication, tree: Tree, c: string)
    requires !o.composed
    ensures HasInput(o, Published(o, p, tree), Marker(c)) <==> c in M.Named(Targets(o, p))
  {
    M.PublishedInput(o, p, tree, c);
    if c in M.Named(Targets(o, p)) {
      var i :| 0 <= i < |Targets(o, p)| && M.Named(Targets(o, p))[i] == c;
      var t := Targets(o, p)[i];
      assert TargetWrites(o, p, t)[1].path == AppYamlPath(o, c);
      assert Write(AppYamlPath(o, c), TargetWrites(o, p, t)[1].doc) in TargetWrites(o, p, t);
      assert Below(o, AppYamlPath(o, c), ValuesTree(o));
      ValuesPublished(o, p, tree, t, AppYamlPath(o, c));
    }
  }

  lemma SingleValuesThere(o: Options, p: Publication, tree: Tree, place: Option<string>)
    requires !o.composed
    ensures HasInput(o, Published(o, p, tree), Values(place, None)) <==>
              place in Places(o) || YamlAt(tree, ValuesPath(o, place, None))
  {
    if place in Places(o) {
      ValuesReady(o, p, tree, place, None);
    } else {
      U.SingleNotPublished(o, p, tree, place);
    }
  }

  // ---- composed ----------------------------------------------------------

  /** A composed one goes through exactly when the files are laid out as the template
      expects and every Application it activates is kept by this publish or an
      earlier one. */
  lemma ComposedGoesThroughExactly(o: Options, p: Publication, tree: Tree, freight: Freight, next: Options)
    requires o.composed && OwnersExist(o) && next == o.(clusters := next.clusters)
    requires forall image :: image in o.images ==> image.repository in freight
    ensures RunSteps(Program(next), Fresh(Published(o, p, tree)), freight).Done? <==>
              && (o.images != [] ==> forall place :: place in Places(next) ==> place in Places(o))
              && forall c, u :: c in Destinations(next) && u in Units(o.components) ==>
                   A.KeptNow(o, p, c, u) || ActivePath(o, ActiveFile(c, u)) in tree
  {
    DoneExactly(next, Published(o, p, tree), freight);
    StateThere(o, p, tree, next);
    ByPurpose(next, Published(o, p, tree));
    ValuesLaidOut(o, p, tree, next);
    AllKept(o, p, tree, next);
  }

  lemma ValuesLaidOut(o: Options, p: Publication, tree: Tree, next: Options)
    requires o.composed && OwnersExist(o) && next == o.(clusters := next.clusters)
    ensures ValuesIn(next, Published(o, p, tree)) <==>
              (o.images != [] ==> forall place :: place in Places(next) ==> place in Places(o))
  {
    SomeSlot(o);
    SameSlots(o, next);
    forall place, slot | place in Places(next) && slot in Slots(next)
      ensures HasInput(next, Published(o, p, tree), Values(place, slot)) <==> place in Places(o)
    {
      ComposedValuesFor(o, p, tree, next, place, slot);
    }
    if o.images != [] {
      var slot :| slot in Slots(next);
      assert ValuesIn(next, Published(o, p, tree)) ==>
               forall place :: place in Places(next) ==> HasInput(next, Published(o, p, tree), Values(place, slot));
    }
  }

  lemma ComposedValuesFor(o: Options, p: Publication, tree: Tree, next: Options, place: Option<string>,
                          slot: Option<string>)
    requires o.composed && OwnersExist(o) && next == o.(clusters := next.clusters) && slot in Slots(o)
    ensures HasInput(next, Published(o, p, tree), Values(place, slot)) <==> place in Places(o)
  {
    SameFile(o, next, Published(o, p, tree), Values(place, slot));
    ComposedValuesThere(o, p, tree, place, slot);
  }

  lemma SameSlots(o: Options, next: Options)
    requires next == o.(clusters := next.clusters)
    ensures Slots(next) == Slots(o)
  {
  }

  lemma AllKept(o: Options, p: Publication, tree: Tree, next: Options)
    requires o.composed && next == o.(clusters := next.clusters)
    ensures ActivationsIn(next, Published(o, p, tree)) <==>
              forall c, u :: c in Destinations(next) && u in Units(o.components) ==>
                A.KeptNow(o, p, c, u) || ActivePath(o, ActiveFile(c, u)) in tree
  {
    forall c, u ensures HasInput(next, Published(o, p, tree), Activate(c, u)) <==>
                          A.KeptNow(o, p, c, u) || ActivePath(o, ActiveFile(c, u)) in tree
    {
      SameFile(o, next, Published(o, p, tree), Activate(c, u));
      A.KeptExactly(o, p, tree, c, u);
    }
  }

  lemma ComposedValuesThere(o: Options, p: Publication, tree: Tree, place: Option<string>, slot: Option<string>)
    requires o.composed && OwnersExist(o) && slot in Slots(o)
    ensures HasInput(o, Published(o, p, tree), Values(place, slot)) <==> place in Places(o)
  {
    OwnerOfSlot(o, slot);
    if place in Places(o) {
      ValuesReady(o, p, tree, place, slot);
    } else {
      U.NoValuesElsewhere(o, p, tree, place, slot.value);
    }
  }

  lemma SomeSlot(o: Options)
    requires o.composed
    ensures o.images != [] <==> exists slot :: slot in Slots(o)
  {
    if o.images != [] { assert o.images[0] in o.images; ImageHasFile(o, o.images[0]); }
    if slot :| slot in Slots(o) { OwnerOfSlot(o, slot); }
  }

  lemma TargetOutside(o: Options, p: Publication, tree: Tree, after: Tree, freight: Freight, next: Options,
                      c: string, u: Option<string>)
    requires o.composed && next == o.(clusters := next.clusters) && c !in Destinations(next)
    requires Promoted(next, Published(o, p, tree), after, freight)
    ensures Untouched(Published(o, p, tree), after, TargetPath(o, c, TargetFile(u)))
  {
    Members(next);
    NotActivated(next, Published(o, p, tree), after, freight, c, u);
    assert TargetPath(next, c, TargetFile(u)) == TargetPath(o, c, TargetFile(u));
  }

  /** The template reaches every cluster something was published for. */
  ghost predicate ReachesAll(o: Options, p: Publication, next: Options) {
    forall t, u :: t in Targets(o, p) && u in Units(o.components) ==> NamedCluster(t) in Destinations(next)
  }

  /** When a prepared release is promoted, every cluster published for is given its own
      Applications exactly when the template reaches all of them and no two are kept
      under one name. */
  lemma RestoresExactly(o: Options, p: Publication, tree: Tree, freight: Freight, next: Options)
    requires o.composed && AllTemplated(o.components) && next == o.(clusters := next.clusters)
    requires p.pending && p.automated
    ensures var r := RunSteps(Program(next), Fresh(Published(o, p, tree)), freight);
            r.Done? ==>
              (A.RestoresOwn(o, p, r.machine.remote) <==> ReachesAll(o, p, next) && A.LabelsDistinct(o, p))
  {
    var before := Published(o, p, tree);
    var r := RunSteps(Program(next), Fresh(before), freight);
    OneCommitOrNone(next, before, freight);
    if r.Done? {
      var after := r.machine.remote;
      if ReachesAll(o, p, next) {
        forall t, u | t in Targets(o, p) && u in Units(o.components)
          ensures Restored(before, after, ActivePath(o, ActiveFile(NamedCluster(t), u)),
                           TargetPath(o, NamedCluster(t), TargetFile(u)))
        {
          RestoredFor(o, next, before, after, freight, NamedCluster(t), u);
        }
        A.RestoresExactly(o, p, tree, after);
      } else {
        var t, u :| t in Targets(o, p) && u in Units(o.components) && NamedCluster(t) !in Destinations(next);
        LeftHeldBack(o, p, tree, after, freight, next, t, u);
      }
    }
  }

  lemma RestoredFor(o: Options, next: Options, before: Tree, after: Tree, freight: Freight,
                    c: string, u: Option<string>)
    requires o.composed && next == o.(clusters := next.clusters) && Promoted(next, before, after, freight)
    requires c in Destinations(next) && u in Units(o.components)
    ensures Restored(before, after, ActivePath(o, ActiveFile(c, u)), TargetPath(o, c, TargetFile(u)))
  {
    assert Restored(before, after, ActivePath(next, ActiveFile(c, u)), TargetPath(next, c, TargetFile(u)));
  }

  /** A cluster published for that the template does not reach stays held back. */
  lemma LeftHeldBack(o: Options, p: Publication, tree: Tree, after: Tree, freight: Freight, next: Options,
                     t: string, u: Option<string>)
    requires o.composed && AllTemplated(o.components) && next == o.(clusters := next.clusters) && p.pending
    requires Promoted(next, Published(o, p, tree), after, freight)
    requires t in Targets(o, p) && u in Units(o.components) && NamedCluster(t) !in Destinations(next)
    ensures var path := TargetPath(o, NamedCluster(t), TargetFile(u));
            path in after && after[path].Manifest? && after[path].app.automated.None?
    ensures p.automated ==> !A.HoldsOwn(o, p, after, t, u)
  {
    RenderedIfTemplated(o);
    PreparedIsInert(o, p, tree, t, u);
    TargetOutside(o, p, tree, after, freight, next, NamedCluster(t), u);
    RendersPolicy(o, t, u);
  }

  lemma RendersPolicy(o: Options, t: string, u: Option<string>)
    ensures Rendered(o, t, u, true).automated.Some?
  {
  }

  /** A cluster of the template that nothing was published for is given what an earlier
      publish kept for it. */
  lemma OldComesBack(o: Options, p: Publication, tree: Tree, after: Tree, freight: Freight, next: Options,
                     c: string, u: Option<string>)
    requires o.composed && next == o.(clusters := next.clusters)
    requires Promoted(next, Published(o, p, tree), after, freight)
    requires c in Destinations(next) && u in Units(o.components)
    requires !A.KeptNow(o, p, c, u) && forall t :: t in Targets(o, p) ==> NamedCluster(t) != c
    ensures var (source, target) := (ActivePath(o, ActiveFile(c, u)), TargetPath(o, c, TargetFile(u)));
            target !in Published(o, p, tree) && source in tree && target in after && after[target] == tree[source]
  {
    A.NotKeptNow(o, p, tree, c, u);
    A.NothingForOtherCluster(o, p, tree, c, u);
    RestoredFor(o, next, Published(o, p, tree), after, freight, c, u);
  }

  // ---- an environment whose active cluster was switched --------------------

  /** No Application of one cluster is kept under the name of one of the other's. */
  ghost predicate LabelsApart(o: Options, a: string, b: string) {
    forall u, v :: u in Units(o.components) && v in Units(o.components) ==> Label(a, u) != Label(b, v)
  }

  /** Fully published for one cluster, then prepared for another: the template still
      names the first, the promotion goes through, and it puts the old Applications
      back there, leaves those of the new cluster held back, and clears the marker. */
  lemma SwitchedCluster(o: Options, a: string, b: string, p0: Publication, p: Publication, tree: Tree, freight: Freight)
    requires o.composed && AllTemplated(o.components) && OwnersExist(o) && o.clusters == [a]
    requires a != "" && b != "" && a != b && LabelsApart(o, a, b) && p.pending
    requires forall image :: image in o.images ==> image.repository in freight
    ensures var now := o.(clusters := [b]);
            var before := Published(now, p, Published(o, p0, tree));
            var r := RunSteps(Program(o), Fresh(before), freight);
            && r.Done? && Cleared(before, r.machine.remote, StatePath(o), "pending")
            && forall u :: u in Units(o.components) ==>
                 && ComesBackAt(o, Published(o, p0, tree), before, r.machine.remote, a, u)
                 && HeldBackAt(o, r.machine.remote, b, u)
  {
    var now := o.(clusters := [b]);
    var old0 := Published(o, p0, tree);
    var before := Published(now, p, old0);
    SwitchedGoesThrough(o, a, b, p0, p, tree, freight);
    OneCommitOrNone(o, before, freight);
    var after := RunSteps(Program(o), Fresh(before), freight).machine.remote;
    forall u | u in Units(o.components)
      ensures ComesBackAt(o, old0, before, after, a, u) && HeldBackAt(o, after, b, u)
    {
      Switched(o, a, b, p, old0, after, freight, u);
    }
  }

  lemma SwitchedGoesThrough(o: Options, a: string, b: string, p0: Publication, p: Publication, tree: Tree,
                            freight: Freight)
    requires o.composed && AllTemplated(o.components) && OwnersExist(o) && o.clusters == [a] && a != ""
    requires forall image :: image in o.images ==> image.repository in freight
    ensures RunSteps(Program(o), Fresh(Published(o.(clusters := [b]), p, Published(o, p0, tree))), freight).Done?
  {
    var now, old0 := o.(clusters := [b]), Published(o, p0, tree);
    forall c, u | c in Destinations(o) && u in Units(o.components) ensures ActivePath(now, ActiveFile(c, u)) in old0 {
      OnlyDestination(o, a, c);
      KeptFirst(o, a, p0, tree, u);
    }
    assert Places(o) == Places(now);
    ComposedGoesThroughExactly(now, p, old0, freight, o);
  }

  lemma OnlyDestination(o: Options, a: string, c: string)
    requires o.clusters == [a] && c in Destinations(o) && a != ""
    ensures c == a
  {
  }

  lemma KeptFirst(o: Options, a: string, p: Publication, tree: Tree, u: Option<string>)
    requires o.composed && AllTemplated(o.components) && o.clusters == [a] && a != "" && u in Units(o.components)
    ensures ActivePath(o, ActiveFile(a, u)) in Published(o, p, tree)
  {
    RenderedIfTemplated(o);
    assert Targets(o, p)[0] == a;
    A.OwnKept(o, p, a, u);
    var t, v := A.KeptFor(o, p, tree, a, u);
  }

  lemma Switched(o: Options, a: string, b: string, p: Publication, old0: Tree, after: Tree, freight: Freight,
                 u: Option<string>)
    requires o.composed && AllTemplated(o.components) && o.clusters == [a]
    requires a != "" && b != "" && a != b && LabelsApart(o, a, b) && p.pending && u in Units(o.components)
    requires Promoted(o, Published(o.(clusters := [b]), p, old0), after, freight)
    ensures ComesBackAt(o, old0, Published(o.(clusters := [b]), p, old0), after, a, u) && HeldBackAt(o, after, b, u)
  {
    var now := o.(clusters := [b]);
    assert Targets(now, p) == [b] && Targets(now, p)[0] == b;
    assert Destinations(o) == [a] && Destinations(o)[0] == a;
    NotKeptFor(o, now, p, a, b, u);
    OldComesBack(now, p, old0, after, freight, o, a, u);
    LeftHeldBack(now, p, old0, after, freight, o, b, u);
  }

  lemma NotKeptFor(o: Options, now: Options, p: Publication, a: string, b: string, u: Option<string>)
    requires now == o.(clusters := [b]) && AllTemplated(o.components) && b != ""
    requires LabelsApart(o, a, b) && u in Units(o.components)
    ensures !A.KeptNow(now, p, a, u)
  {
    RenderedIfTemplated(o);
    assert RenderedUnits(now) == RenderedUnits(o) && Targets(now, p) == [b];
  }

  predicate ComesBackAt(o: Options, old0: Tree, before: Tree, after: Tree, c: string, u: Option<string>) {
    var (source, target) := (ActivePath(o, ActiveFile(c, u)), TargetPath(o, c, TargetFile(u)));
    target !in before && source in old0 && target in after && after[target] == old0[source]
  }

  predicate HeldBackAt(o: Options, tree: Tree, c: string, u: Option<string>) {
    var path := TargetPath(o, c, TargetFile(u));
    path in tree && tree[path].Manifest? && tree[path].app.automated.None?
  }
}
