/** What running a promotion template does, from any starting tree and for any
    Freight. */
module Promotion {
  import opened Components
  import opened FirstSeen
  import opened GitTree
  import opened PromotionTemplate
  import opened Wrappers

  // ---- the edits do not interfere ----------------------------------------

  lemma Members(o: Options)
    ensures forall p :: p in Purposes(o) <==>
              match p
              case Values(place, slot) => place in Places(o) && slot in Slots(o)
              case State => true
              case Marker(c) => !o.composed && c in Destinations(o)
              case Activate(c, u) => o.composed && c in Destinations(o) && u in Units(o.components)
  {
    forall c, u ensures Activate(c, u) in ActivateUnits(c, Units(o.components)) <==> u in Units(o.components) {
      var units := Units(o.components);
      if u in units {
        var i :| 0 <= i < |units| && units[i] == u;
        assert ActivateUnits(c, units)[i] == Activate(c, u);
      }
    }
    assert forall c, p :: p in ActivateCluster(o, c) ==>
             if o.composed then p.Activate? && p.cluster == c else p == Marker(c);
    assert forall c :: !o.composed ==> Marker(c) in ActivateCluster(o, c);
    assert Activation(o)[0] == State;
    assert forall p :: p in Purposes(o) <==>
             p in ValuesFiles(Slots(o), Places(o)) || p == State || p in ActivateAll(o, Destinations(o));
  }

  predicate Fits(o: Options, p: Purpose) {
    match p
    case Values(place, slot) => (place.Some? <==> |o.clusters| > 1) && (slot.Some? <==> o.composed)
    case State => true
    case Marker(_) => !o.composed
    case Activate(_, _) => o.composed
  }

  function Relative(o: Options, p: Purpose): Path {
    match p
    case Values(place, slot) =>
      [ValuesTree(o), o.env] + (if place.Some? then ["_clusters", place.value] else []) + [o.project, o.app]
      + (if slot.Some? then ["components", slot.value] else []) + ["values.yaml"]
    case State => [".suparship", "releases", o.project, o.app, o.env + ".yaml"]
    case Marker(c) => [ValuesTree(o), o.env, o.project, o.app, "_targets", c, "app.yaml"]
    case Activate(c, u) => ["_composed-apps", o.env, o.project, o.app, "_targets", c, TargetFile(u)]
  }

  lemma TargetIsRelative(o: Options, p: Purpose)
    ensures Target(StepFor(o, p)) == o.subPath + Relative(o, p)
  {
  }

  lemma Under(sub: Path, a: Path, b: Path)
    requires sub + a == sub + b
    ensures a == b
  {
    assert (sub + a)[|sub|..] == a && (sub + b)[|sub|..] == b;
  }

  lemma ValuesRelative(o: Options, p: Purpose)
    requires p.Values? && Fits(o, p)
    ensures var r := Relative(o, p);
            |r| == 5 + (if |o.clusters| > 1 then 2 else 0) + (if o.composed then 2 else 0)
            && r[0] == ValuesTree(o) && r[|r| - 1] == "values.yaml"
            && (p.place.Some? ==> r[3] == p.place.value) && (p.slot.Some? ==> r[|r| - 2] == p.slot.value)
  {
  }

  /** Different purposes write different files. */
  lemma OneFileEach(o: Options, a: Purpose, b: Purpose)
    requires Fits(o, a) && Fits(o, b) && Target(StepFor(o, a)) == Target(StepFor(o, b))
    ensures a == b
  {
    TargetIsRelative(o, a);
    TargetIsRelative(o, b);
    Under(o.subPath, Relative(o, a), Relative(o, b));
    var r := Relative(o, a);
    if a.Values? { ValuesRelative(o, a); }
    if b.Values? { ValuesRelative(o, b); }
    if a.Activate? && b.Activate? {
      assert Relative(o, a)[6] == Relative(o, b)[6] && Relative(o, a)[5] == Relative(o, b)[5];
      SameTargetFile(a.component, b.component);
    }
    if a.Marker? && b.Marker? { assert Relative(o, a)[5] == Relative(o, b)[5]; }
  }

  lemma CopiesReadElsewhere(o: Options, a: Purpose, b: Purpose)
    requires Fits(o, a) && Fits(o, b) && a.Activate?
    ensures Target(StepFor(o, b)) != Reads(StepFor(o, a))
  {
    var source := [".suparship", "releases", o.project, o.app, o.env, ActiveFile(a.cluster, a.component)];
    assert Reads(StepFor(o, a)) == o.subPath + source;
    TargetIsRelative(o, b);
    if Target(StepFor(o, b)) == Reads(StepFor(o, a)) {
      Under(o.subPath, Relative(o, b), source);
      if b.Values? { ValuesRelative(o, b); }
      assert false;
    }
  }

  lemma NothingInterferes(o: Options)
    ensures Independent(Steps(o, Purposes(o)))
  {
    var ps, steps := Purposes(o), Steps(o, Purposes(o));
    forall i, j | 0 <= i < |ps| && 0 <= j < |ps|
      ensures Target(steps[i]) == Target(steps[j]) ==> steps[i] == steps[j]
      ensures steps[i].Copy? ==> Target(steps[j]) != Reads(steps[i])
    {
      PurposesFit(o, i);
      PurposesFit(o, j);
      if Target(steps[i]) == Target(steps[j]) { OneFileEach(o, ps[i], ps[j]); }
      if steps[i].Copy? { CopiesReadElsewhere(o, ps[i], ps[j]); }
    }
  }

  lemma PurposesFit(o: Options, i: nat)
    requires i < |Purposes(o)|
    ensures Fits(o, Purposes(o)[i])
  {
    Members(o);
    assert Purposes(o)[i] in Purposes(o);
  }

  // ---- the outcome -------------------------------------------------------

  /** The Freight carries every image and every file the template reads is in the
      tree, YAML where keys are set. */
  ghost predicate Ready(o: Options, tree: Tree, freight: Freight) {
    && (forall image :: image in o.images ==> image.repository in freight)
    && (forall p :: p in Purposes(o) ==> HasInput(o, tree, p))
  }

  predicate HasInput(o: Options, tree: Tree, p: Purpose) {
    Reads(StepFor(o, p)) in tree && (p.Activate? || tree[Reads(StepFor(o, p))].Fields?)
  }

  function TagKeys(images: seq<Image>): seq<string> {
    seq(|images|, i requires 0 <= i < |images| => images[i].tagKey)
  }

  /** The last image that decides what becomes of a key. */
  function LastTouching(images: seq<Image>, key: string): (r: Option<Image>)
    ensures r.Some? ==> r.value in images && Touches(r.value.tagKey, key)
    ensures r.None? ==> forall i :: 0 <= i < |images| ==> !Touches(images[i].tagKey, key)
  {
    match LastTouch(TagKeys(images), key)
    case Some(i) => Some(images[i])
    case None =>
      assert forall i :: 0 <= i < |images| ==> TagKeys(images)[i] == images[i].tagKey;
      None
  }

  /** A values file after the promotion: a key no image touches is as before, any other
      holds the tag of the last image that touches it, or is gone if that image's key
      is nested with it. */
  ghost predicate TagsWritten(images: seq<Image>, before: Doc, after: Doc, freight: Freight) {
    before.Fields? && after.Fields?
    && forall key :: TagWritten(images, before.fields, after.fields, freight, key)
  }

  ghost predicate TagWritten(images: seq<Image>, before: Yaml, after: Yaml, freight: Freight, key: string) {
    match LastTouching(images, key)
    case Some(image) =>
      if image.tagKey == key then image.repository in freight && key in after && after[key] == freight[image.repository]
      else key !in after
    case None => (key in after <==> key in before) && (key in before ==> after[key] == before[key])
  }

  ghost predicate Cleared(before: Tree, after: Tree, path: Path, key: string) {
    path in before && path in after && before[path].Fields?
      && after[path] == Fields(Put(before[path].fields, key, "false"))
  }

  ghost predicate Restored(before: Tree, after: Tree, source: Path, target: Path) {
    source in before && target in after && after[target] == before[source]
  }

  ghost predicate Untouched(before: Tree, after: Tree, path: Path) {
    (path in after <==> path in before) && (path in before ==> after[path] == before[path])
  }

  ghost predicate Promoted(o: Options, before: Tree, after: Tree, freight: Freight) {
    && (forall place, slot :: place in Places(o) && slot in Slots(o) ==>
          var path := ValuesPath(o, place, slot);
          path in before && path in after && TagsWritten(ImagesFor(o.images, slot), before[path], after[path], freight))
    && Cleared(before, after, StatePath(o), "pending")
    && (!o.composed ==> forall c :: c in Destinations(o) ==>
         Cleared(before, after, AppYamlPath(o, c), "promotionPending"))
    && (o.composed ==> forall c, u :: c in Destinations(o) && u in Units(o.components) ==>
          Restored(before, after, ActivePath(o, ActiveFile(c, u)), TargetPath(o, c, TargetFile(u))))
    && (forall path :: (forall p :: p in Purposes(o) ==> Target(StepFor(o, p)) != path) ==>
         Untouched(before, after, path))
  }

  lemma TagsMeanUpdates(images: seq<Image>, before: Yaml, freight: Freight, key: string)
    requires Resolves(Updates(images), freight)
    ensures SetKeys(before, Updates(images), freight).Some?
    ensures TagWritten(images, before, SetKeys(before, Updates(images), freight).value, freight, key)
  {
    SetKeysMeans(before, Updates(images), freight, key);
    assert Keys(Updates(images)) == TagKeys(images);
    if LastTouch(TagKeys(images), key).Some? {
      var i := LastTouch(TagKeys(images), key).value;
      assert Resolve(Updates(images)[i].value, freight).Some?;
    }
  }

  lemma UpdatesResolve(images: seq<Image>, freight: Freight)
    ensures Resolves(Updates(images), freight) <==> forall image :: image in images ==> image.repository in freight
  {
    if Resolves(Updates(images), freight) {
      forall image | image in images ensures image.repository in freight {
        var i :| 0 <= i < |images| && images[i] == image;
        assert Resolve(Updates(images)[i].value, freight).Some?;
      }
    }
  }

  /** What each edit needs of the starting tree. */
  lemma EditNeeds(o: Options, p: Purpose, tree: Tree, freight: Freight)
    ensures Edit(StepFor(o, p), tree, freight).Some? <==>
              HasInput(o, tree, p) && (p.Values? ==>
                forall image :: image in ImagesFor(o.images, p.slot) ==> image.repository in freight)
  {
    var step := StepFor(o, p);
    if step.YamlUpdate? && HasInput(o, tree, p) {
      SetKeysResolves(tree[step.path].fields, step.updates, freight);
      if p.Values? { UpdatesResolve(ImagesFor(o.images, p.slot), freight); }
    }
  }

  function SlotOf(o: Options, image: Image): Option<string> {
    if o.composed then Some(image.owner) else None
  }

  /** Every image has a values file at every place. */
  lemma ImageHasFile(o: Options, image: Image)
    requires image in o.images
    ensures SlotOf(o, image) in Slots(o) && image in ImagesFor(o.images, SlotOf(o, image))
  {
    var i :| 0 <= i < |o.images| && o.images[i] == image;
    assert Owners(o.images)[i] == image.owner && image.owner in Owners(o.images);
    if o.composed {
      var owners := Once(Owners(o.images));
      assert image.owner in owners;
      var k :| 0 <= k < |owners| && owners[k] == image.owner;
      assert Slots(o)[k] == Some(image.owner);
    }
  }

  lemma AllEditsNeedReady(o: Options, tree: Tree, freight: Freight)
    ensures (forall p :: p in Purposes(o) ==> Edit(StepFor(o, p), tree, freight).Some?) <==> Ready(o, tree, freight)
  {
    forall p ensures Edit(StepFor(o, p), tree, freight).Some? <==>
                       HasInput(o, tree, p) && (p.Values? ==>
                         forall image :: image in ImagesFor(o.images, p.slot) ==> image.repository in freight)
    { EditNeeds(o, p, tree, freight); }
    if forall p :: p in Purposes(o) ==> Edit(StepFor(o, p), tree, freight).Some? {
      forall image | image in o.images ensures image.repository in freight {
        ImageHasFile(o, image);
        Members(o);
        assert Places(o)[0] in Places(o);
        assert Values(Places(o)[0], SlotOf(o, image)) in Purposes(o);
      }
    }
  }

  /** One edit's own effect, in the terms of the promise. */
  lemma EditMeans(o: Options, p: Purpose, before: Tree, after: Tree, freight: Freight)
    requires LeavesIts(StepFor(o, p), before, after, freight)
    ensures match p
            case Values(place, slot) =>
              var path := ValuesPath(o, place, slot);
              path in before && path in after
                && TagsWritten(ImagesFor(o.images, slot), before[path], after[path], freight)
            case State => Cleared(before, after, StatePath(o), "pending")
            case Marker(c) => Cleared(before, after, AppYamlPath(o, c), "promotionPending")
            case Activate(c, u) =>
              Restored(before, after, ActivePath(o, ActiveFile(c, u)), TargetPath(o, c, TargetFile(u)))
  {
    var step := StepFor(o, p);
    if step.YamlUpdate? {
      var fields := before[step.path].fields;
      SetKeysResolves(fields, step.updates, freight);
      if p.Values? {
        forall key ensures TagWritten(ImagesFor(o.images, p.slot), fields, after[step.path].fields, freight, key) {
          TagsMeanUpdates(ImagesFor(o.images, p.slot), fields, freight, key);
        }
      } else {
        assert step.updates[..0] == [];
        assert SetKeys(fields, step.updates[..0], freight) == Some(fields);
      }
    }
  }

  /** The independent-edits law, said of purposes instead of positions. */
  lemma EachRunsAlone(o: Options, tree: Tree, freight: Freight)
    ensures EditAll(Steps(o, Purposes(o)), tree, freight).Some? <==>
              forall p :: p in Purposes(o) ==> Edit(StepFor(o, p), tree, freight).Some?
    ensures EditAll(Steps(o, Purposes(o)), tree, freight).Some? ==>
              forall p :: p in Purposes(o) ==>
                LeavesIts(StepFor(o, p), tree, EditAll(Steps(o, Purposes(o)), tree, freight).value, freight)
  {
    var ps, steps := Purposes(o), Steps(o, Purposes(o));
    NothingInterferes(o);
    IndependentEdits(steps, tree, freight);
    forall p | p in ps ensures exists i :: 0 <= i < |steps| && steps[i] == StepFor(o, p) {
      var i :| 0 <= i < |ps| && ps[i] == p;
      assert steps[i] == StepFor(o, p);
    }
    forall i | 0 <= i < |steps| ensures ps[i] in ps && steps[i] == StepFor(o, ps[i]) {}
  }

  ghost predicate LeavesIts(step: Step, before: Tree, after: Tree, freight: Freight)
    requires IsEdit(step)
  {
    Edit(step, before, freight).Some? && Target(step) in after
    && after[Target(step)] == Edit(step, before, freight).value[Target(step)]
  }

  lemma EditedIsPromoted(o: Options, tree: Tree, freight: Freight)
    ensures EditAll(Steps(o, Purposes(o)), tree, freight).Some? <==> Ready(o, tree, freight)
    ensures Ready(o, tree, freight) ==> Promoted(o, tree, EditAll(Steps(o, Purposes(o)), tree, freight).value, freight)
  {
    EachRunsAlone(o, tree, freight);
    AllEditsNeedReady(o, tree, freight);
    if Ready(o, tree, freight) {
      var steps := Steps(o, Purposes(o));
      var after := EditAll(steps, tree, freight).value;
      forall path | forall p :: p in Purposes(o) ==> Target(StepFor(o, p)) != path
        ensures Untouched(tree, after, path)
      {
        forall i | 0 <= i < |steps| ensures Target(steps[i]) != path { assert Purposes(o)[i] in Purposes(o); }
        EditFrame(steps, tree, freight, path);
      }
      EachEditIsPromoted(o, tree, after, freight);
    }
  }

  lemma EachEditIsPromoted(o: Options, before: Tree, after: Tree, freight: Freight)
    requires forall p :: p in Purposes(o) ==> LeavesIts(StepFor(o, p), before, after, freight)
    requires forall path :: (forall p :: p in Purposes(o) ==> Target(StepFor(o, p)) != path) ==>
               Untouched(before, after, path)
    ensures Promoted(o, before, after, freight)
  {
    Members(o);
    forall place, slot | place in Places(o) && slot in Slots(o)
      ensures var path := ValuesPath(o, place, slot);
              path in before && path in after
                && TagsWritten(ImagesFor(o.images, slot), before[path], after[path], freight)
    {
      assert Values(place, slot) in Purposes(o);
      EditMeans(o, Values(place, slot), before, after, freight);
    }
    assert State in Purposes(o);
    EditMeans(o, State, before, after, freight);
    forall c | !o.composed && c in Destinations(o)
      ensures Cleared(before, after, AppYamlPath(o, c), "promotionPending")
    {
      assert Marker(c) in Purposes(o);
      EditMeans(o, Marker(c), before, after, freight);
    }
    forall c, u | o.composed && c in Destinations(o) && u in Units(o.components)
      ensures Restored(before, after, ActivePath(o, ActiveFile(c, u)), TargetPath(o, c, TargetFile(u)))
    {
      assert Activate(c, u) in Purposes(o);
      EditMeans(o, Activate(c, u), before, after, freight);
    }
  }

  /** Running the template pushes one commit, the promoted tree, and syncs every
      Application; or it stops and pushes nothing. It goes through exactly when the
      Freight carries every image and every file is there. */
  lemma OneCommitOrNone(o: Options, tree: Tree, freight: Freight)
    ensures var r := RunSteps(Program(o), Fresh(tree), freight);
            if Ready(o, tree, freight) then
              r.Done? && r.machine.synced == Synced(o)
              && |r.machine.pushed| == 1 && r.machine.remote == r.machine.pushed[0]
              && Promoted(o, tree, r.machine.remote, freight)
            else r.Stopped? && r.machine.pushed == [] && r.machine.remote == tree && r.machine.synced == []
  {
    EditedIsPromoted(o, tree, freight);
    CloneEditPush(o.url, Steps(o, Purposes(o)), Synced(o), tree, freight);
  }

  /** Every file the template reads is there. */
  ghost predicate InputsIn(o: Options, tree: Tree) {
    forall p :: p in Purposes(o) ==> HasInput(o, tree, p)
  }

  lemma DoneExactly(o: Options, tree: Tree, freight: Freight)
    requires forall image :: image in o.images ==> image.repository in freight
    ensures RunSteps(Program(o), Fresh(tree), freight).Done? <==> InputsIn(o, tree)
  {
    OneCommitOrNone(o, tree, freight);
  }

  ghost predicate ValuesIn(o: Options, tree: Tree) {
    forall place, slot :: place in Places(o) && slot in Slots(o) ==> HasInput(o, tree, Values(place, slot))
  }

  ghost predicate MarkersIn(o: Options, tree: Tree) {
    !o.composed ==> forall c :: c in Destinations(o) ==> HasInput(o, tree, Marker(c))
  }

  ghost predicate ActivationsIn(o: Options, tree: Tree) {
    o.composed ==>
      forall c, u :: c in Destinations(o) && u in Units(o.components) ==> HasInput(o, tree, Activate(c, u))
  }

  /** The same, by kind. */
  lemma ByPurpose(o: Options, tree: Tree)
    ensures InputsIn(o, tree) <==>
              ValuesIn(o, tree) && HasInput(o, tree, State) && MarkersIn(o, tree) && ActivationsIn(o, tree)
  {
    if InputsIn(o, tree) { SplitByPurpose(o, tree); }
    if ValuesIn(o, tree) && HasInput(o, tree, State) && MarkersIn(o, tree) && ActivationsIn(o, tree) {
      JoinByPurpose(o, tree);
    }
  }

  lemma SplitByPurpose(o: Options, tree: Tree)
    requires InputsIn(o, tree)
    ensures ValuesIn(o, tree) && HasInput(o, tree, State) && MarkersIn(o, tree) && ActivationsIn(o, tree)
  {
    Members(o);
    forall place, slot | place in Places(o) && slot in Slots(o) ensures HasInput(o, tree, Values(place, slot)) {
      assert Values(place, slot) in Purposes(o);
    }
    assert State in Purposes(o);
    forall c | !o.composed && c in Destinations(o) ensures HasInput(o, tree, Marker(c)) {
      assert Marker(c) in Purposes(o);
    }
    forall c, u | o.composed && c in Destinations(o) && u in Units(o.components)
      ensures HasInput(o, tree, Activate(c, u))
    {
      assert Activate(c, u) in Purposes(o);
    }
  }

  lemma JoinByPurpose(o: Options, tree: Tree)
    requires ValuesIn(o, tree) && HasInput(o, tree, State) && MarkersIn(o, tree) && ActivationsIn(o, tree)
    ensures InputsIn(o, tree)
  {
    forall p | p in Purposes(o) ensures HasInput(o, tree, p) {
      OneInput(o, tree, p);
    }
  }

  lemma OneInput(o: Options, tree: Tree, p: Purpose)
    requires ValuesIn(o, tree) && HasInput(o, tree, State) && MarkersIn(o, tree) && ActivationsIn(o, tree)
    requires p in Purposes(o)
    ensures HasInput(o, tree, p)
  {
    Members(o);
    match p
    case Values(place, slot) => assert place in Places(o) && slot in Slots(o);
    case State =>
    case Marker(c) => assert c in Destinations(o);
    case Activate(c, u) => assert c in Destinations(o) && u in Units(o.components);
  }

  /** An Application the template does not activate is left alone. */
  lemma NotActivated(o: Options, before: Tree, after: Tree, freight: Freight, c: string, u: Option<string>)
    requires o.composed && Promoted(o, before, after, freight) && Activate(c, u) !in Purposes(o)
    ensures Untouched(before, after, TargetPath(o, c, TargetFile(u)))
  {
    forall x | x in Purposes(o) ensures Target(StepFor(o, x)) != TargetPath(o, c, TargetFile(u)) {
      var i :| 0 <= i < |Purposes(o)| && Purposes(o)[i] == x;
      PurposesFit(o, i);
      if Target(StepFor(o, x)) == TargetPath(o, c, TargetFile(u)) { OneFileEach(o, x, Activate(c, u)); }
    }
  }

  // ---- the tags ----------------------------------------------------------

  /** Two images writing the same key of the same file carry the same tag. */
  ghost predicate TagsAgree(o: Options, freight: Freight) {
    forall a, b :: a in o.images && b in o.images && SlotOf(o, a) == SlotOf(o, b) && a.tagKey == b.tagKey
                   && a.repository in freight && b.repository in freight ==>
                     freight[a.repository] == freight[b.repository]
  }

  /** No key of one file lies below another. */
  ghost predicate KeysApart(o: Options) {
    forall a, b :: a in o.images && b in o.images && SlotOf(o, a) == SlotOf(o, b) ==> !Inside(a.tagKey, b.tagKey)
  }

  ghost predicate Carries(o: Options, tree: Tree, image: Image, place: Option<string>, tag: string) {
    var path := ValuesPath(o, place, SlotOf(o, image));
    path in tree && tree[path].Fields? && image.tagKey in tree[path].fields && tree[path].fields[image.tagKey] == tag
  }

  ghost predicate AllCarried(o: Options, tree: Tree, freight: Freight) {
    forall image, place :: image in o.images && place in Places(o) ==>
      image.repository in freight && Carries(o, tree, image, place, freight[image.repository])
  }

  /** The pushed tree carries every image's tag in every file of that image exactly
      when no two images of a file share a key and differ in tag, and no key of a file
      lies below another. */
  lemma EveryTagCarried(o: Options, before: Tree, after: Tree, freight: Freight)
    requires Ready(o, before, freight) && Promoted(o, before, after, freight)
    ensures AllCarried(o, after, freight) <==> TagsAgree(o, freight) && KeysApart(o)
  {
    if TagsAgree(o, freight) && KeysApart(o) {
      forall image, place | image in o.images && place in Places(o)
        ensures Carries(o, after, image, place, freight[image.repository])
      {
        TagLostExactly(o, before, after, freight, image, place);
        ImageHasFile(o, image);
        var last := LastTouching(ImagesFor(o.images, SlotOf(o, image)), image.tagKey).value;
        assert last in o.images && SlotOf(o, last) == SlotOf(o, image);
      }
    }
    if AllCarried(o, after, freight) {
      var place := Places(o)[0];
      assert place in Places(o);
      forall a, b | a in o.images && b in o.images && SlotOf(o, a) == SlotOf(o, b)
        ensures !Inside(a.tagKey, b.tagKey)
        ensures a.tagKey == b.tagKey ==> freight[a.repository] == freight[b.repository]
      {
        assert Carries(o, after, a, place, freight[a.repository]) && Carries(o, after, b, place, freight[b.repository]);
      }
    }
  }

  /** Nothing pushed has the release marked as running with an old tag: a pushed tree
      clears the pending marker, and exactly then carries every tag. */
  lemma MarkerClearedWithTags(o: Options, tree: Tree, freight: Freight, t: Tree)
    requires t in RunSteps(Program(o), Fresh(tree), freight).machine.pushed
    ensures Cleared(tree, t, StatePath(o), "pending")
    ensures AllCarried(o, t, freight) <==> TagsAgree(o, freight) && KeysApart(o)
  {
    OneCommitOrNone(o, tree, freight);
    assert Ready(o, tree, freight);
    assert t == RunSteps(Program(o), Fresh(tree), freight).machine.remote;
    EveryTagCarried(o, tree, t, freight);
  }

  /** The image is the one that decides what its key holds, or has the same tag. */
  predicate Wins(o: Options, freight: Freight, image: Image) {
    var last := LastTouching(ImagesFor(o.images, SlotOf(o, image)), image.tagKey);
    && last.Some? && last.value.tagKey == image.tagKey
    && last.value.repository in freight && image.repository in freight
    && freight[last.value.repository] == freight[image.repository]
  }

  /** Image by image: the pushed files carry its tag exactly when the last image of its
      file that touches its key has that key and that tag; if not, no file does. */
  lemma TagLostExactly(o: Options, before: Tree, after: Tree, freight: Freight, image: Image, place: Option<string>)
    requires Ready(o, before, freight) && Promoted(o, before, after, freight) && image in o.images && place in Places(o)
    ensures Carries(o, after, image, place, freight[image.repository]) <==> Wins(o, freight, image)
    ensures LastTouching(ImagesFor(o.images, SlotOf(o, image)), image.tagKey).Some?
  {
    ImageHasFile(o, image);
    var path, images := ValuesPath(o, place, SlotOf(o, image)), ImagesFor(o.images, SlotOf(o, image));
    var k :| 0 <= k < |images| && images[k] == image;
    assert Touches(images[k].tagKey, image.tagKey);
    assert TagsWritten(images, before[path], after[path], freight);
    assert TagWritten(images, before[path].fields, after[path].fields, freight, image.tagKey);
  }

  // ---- the Warehouse feeds the template ----------------------------------

  /** Freight holds one artifact for each subscription of the Warehouse. */
  ghost predicate FromWarehouse(freight: Freight, subs: seq<Subscription>) {
    forall r :: r in freight <==> exists i :: 0 <= i < |subs| && subs[i].repository == r
  }

  /** With Freight from the Warehouse of the same images, only a missing file can
      stop the promotion. */
  lemma WarehouseSuffices(o: Options, subs: seq<Subscription>, tree: Tree, freight: Freight)
    requires OnePerRepository(subs, o.images) && FromWarehouse(freight, subs)
    ensures RunSteps(Program(o), Fresh(tree), freight).Done? <==> forall p :: p in Purposes(o) ==> HasInput(o, tree, p)
  {
    OneCommitOrNone(o, tree, freight);
  }
}
