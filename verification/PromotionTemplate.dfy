/** The promotion template of a Stage, and what running it does to the gitops
    tree: every image tag is written, the pending marker cleared and the real
    Applications activated, all in the one commit that is pushed. */
module PromotionTemplate {
  import opened Components
  import opened FirstSeen
  import opened GitTree
  import opened Sorting
  import opened Wrappers

  const FALLBACK_CLUSTER := "in-cluster"

  /** One image of the app; owner is the component it belongs to. */
  datatype Image = Image(owner: string, repository: string, tagKey: string, allowTags: string, strategy: string)

  datatype Subscription = Subscription(repository: string, allowTags: string, strategy: string)

  /** The build options with the app and environment they are built for; the
      components are in name order, and argoName gives the Application name of a
      cluster. */
  datatype Options = Options(
    url: string, subPath: Path, external: bool, composed: bool,
    project: string, app: string, env: string,
    clusters: seq<string>, images: seq<Image>, components: seq<Component>,
    argoName: string -> string)

  // ---- paths -------------------------------------------------------------

  function ValuesTree(o: Options): string {
    if o.external && !o.composed then "envs-external" else "envs"
  }

  function ValuesPath(o: Options, place: Option<string>, slot: Option<string>): Path {
    o.subPath + [ValuesTree(o), o.env]
    + (if place.Some? then ["_clusters", place.value] else [])
    + [o.project, o.app]
    + (if slot.Some? then ["components", slot.value] else [])
    + ["values.yaml"]
  }

  function StatePath(o: Options): Path {
    o.subPath + [".suparship", "releases", o.project, o.app, o.env + ".yaml"]
  }

  function AppYamlPath(o: Options, cluster: string): Path {
    o.subPath + [ValuesTree(o), o.env, o.project, o.app, "_targets", cluster, "app.yaml"]
  }

  function ActivePath(o: Options, file: string): Path {
    o.subPath + [".suparship", "releases", o.project, o.app, o.env, file]
  }

  function TargetPath(o: Options, cluster: string, file: string): Path {
    o.subPath + ["_composed-apps", o.env, o.project, o.app, "_targets", cluster, file]
  }

  function ActiveFile(cluster: string, component: Option<string>): string {
    if component.Some? then cluster + "-" + component.value + "-application.yaml" else cluster + "-application.yaml"
  }

  /** What names the file an Application is kept in. */
  function Label(cluster: string, unit: Option<string>): string {
    if unit.Some? then cluster + "-" + unit.value else cluster
  }

  lemma SameFileSameLabel(c: string, u: Option<string>, d: string, v: Option<string>)
    ensures ActiveFile(c, u) == ActiveFile(d, v) <==> Label(c, u) == Label(d, v)
  {
    var suffix := "-application.yaml";
    assert ActiveFile(c, u) == Label(c, u) + suffix && ActiveFile(d, v) == Label(d, v) + suffix;
    assert ActiveFile(c, u)[..|Label(c, u)|] == Label(c, u) && ActiveFile(d, v)[..|Label(d, v)|] == Label(d, v);
  }

  function TargetFile(component: Option<string>): string {
    if component.Some? then component.value + "-application.yaml" else "application.yaml"
  }

  lemma SameTargetFile(a: Option<string>, b: Option<string>)
    requires TargetFile(a) == TargetFile(b)
    ensures a == b
  {
    if a.Some? && b.Some? {
      assert TargetFile(a)[..|a.value|] == a.value && TargetFile(b)[..|b.value|] == b.value;
    }
  }

  // ---- the edits ---------------------------------------------------------

  /** What an edit is for: one values file, the release state, one app.yaml, or one
      Application (the shared one, or that of a stateful component). */
  datatype Purpose =
    | Values(place: Option<string>, slot: Option<string>)
    | State
    | Marker(cluster: string)
    | Activate(cluster: string, component: Option<string>)

  function ImagesFor(images: seq<Image>, slot: Option<string>): (r: seq<Image>)
    ensures forall x :: x in r <==> x in images && (slot.None? || x.owner == slot.value)
  {
    if images == [] then []
    else
      var init, last := images[..|images| - 1], images[|images| - 1];
      assert images == init + [last];
      if slot.None? || last.owner == slot.value then ImagesFor(init, slot) + [last] else ImagesFor(init, slot)
  }

  function Updates(images: seq<Image>): seq<Update> {
    seq(|images|, i requires 0 <= i < |images| => Update(images[i].tagKey, TagOf(images[i].repository)))
  }

  function StepFor(o: Options, p: Purpose): (step: Step)
    ensures IsEdit(step)
  {
    match p
    case Values(place, slot) => YamlUpdate(ValuesPath(o, place, slot), Updates(ImagesFor(o.images, slot)))
    case State => YamlUpdate(StatePath(o), [Update("pending", Literal("false"))])
    case Marker(cluster) => YamlUpdate(AppYamlPath(o, cluster), [Update("promotionPending", Literal("false"))])
    case Activate(cluster, component) =>
      Copy(ActivePath(o, ActiveFile(cluster, component)), TargetPath(o, cluster, TargetFile(component)))
  }

  function Steps(o: Options, ps: seq<Purpose>): (steps: seq<Step>)
    ensures Edits(steps)
  {
    seq(|ps|, i requires 0 <= i < |ps| => StepFor(o, ps[i]))
  }

  lemma StepsConcat(o: Options, a: seq<Purpose>, b: seq<Purpose>)
    ensures Steps(o, a + b) == Steps(o, a) + Steps(o, b)
  {
  }

  /** Several clusters have one values file each, a single one shares the
      environment's file. */
  function Places(o: Options): seq<Option<string>> {
    if |o.clusters| > 1 then seq(|o.clusters|, i requires 0 <= i < |o.clusters| => Some(o.clusters[i])) else [None]
  }

  function Owners(images: seq<Image>): seq<string> {
    seq(|images|, i requires 0 <= i < |images| => images[i].owner)
  }

  function Slots(o: Options): seq<Option<string>> {
    if o.composed then
      var owners := Once(Owners(o.images));
      seq(|owners|, i requires 0 <= i < |owners| => Some(owners[i]))
    else [None]
  }

  function InPlaces(slot: Option<string>, places: seq<Option<string>>): (r: seq<Purpose>)
    ensures forall p :: p in r <==> p.Values? && p.slot == slot && p.place in places
  {
    var r := seq(|places|, i requires 0 <= i < |places| => Values(places[i], slot));
    assert forall i :: 0 <= i < |places| ==> r[i].place == places[i];
    assert forall p :: p in r ==> exists i :: 0 <= i < |r| && r[i] == p;
    r
  }

  function ValuesFiles(slots: seq<Option<string>>, places: seq<Option<string>>): (r: seq<Purpose>)
    ensures forall p :: p in r <==> p.Values? && p.slot in slots && p.place in places
  {
    if slots == [] then []
    else
      assert slots == slots[..|slots| - 1] + [slots[|slots| - 1]];
      ValuesFiles(slots[..|slots| - 1], places) + InPlaces(slots[|slots| - 1], places)
  }

  function NamedCluster(cluster: string): string {
    if cluster == "" then FALLBACK_CLUSTER else cluster
  }

  /** The clusters Applications are activated for. */
  function Destinations(o: Options): seq<string> {
    if o.clusters == [] then [FALLBACK_CLUSTER]
    else seq(|o.clusters|, i requires 0 <= i < |o.clusters| => NamedCluster(o.clusters[i]))
  }

  /** The Applications of one cluster: a shared one unless every component is
      stateful, then one for each stateful component. */
  function Units(components: seq<Component>): seq<Option<string>> {
    var stateful := StatefulOf(components);
    (if |components| > |stateful| then [None] else [])
    + seq(|stateful|, i requires 0 <= i < |stateful| => Some(stateful[i].name))
  }

  function ActivateUnits(cluster: string, units: seq<Option<string>>): seq<Purpose> {
    seq(|units|, i requires 0 <= i < |units| => Activate(cluster, units[i]))
  }

  function ActivateCluster(o: Options, cluster: string): seq<Purpose> {
    if o.composed then ActivateUnits(cluster, Units(o.components)) else [Marker(cluster)]
  }

  function ActivateAll(o: Options, clusters: seq<string>): (r: seq<Purpose>)
    ensures forall p :: p in r <==> exists i :: 0 <= i < |clusters| && p in ActivateCluster(o, clusters[i])
  {
    if clusters == [] then []
    else
      var n := |clusters| - 1;
      assert clusters == clusters[..n] + [clusters[n]];
      ActivateAll(o, clusters[..n]) + ActivateCluster(o, clusters[n])
  }

  function Activation(o: Options): seq<Purpose> {
    [State] + ActivateAll(o, Destinations(o))
  }

  function Purposes(o: Options): seq<Purpose> {
    ValuesFiles(Slots(o), Places(o)) + Activation(o)
  }

  /** The Applications synced and waited for: those named for every cluster. */
  function UnitName(base: string, component: Option<string>): string {
    if component.Some? then base + "-" + component.value else base
  }

  function UnitNames(base: string, units: seq<Option<string>>): seq<string> {
    seq(|units|, i requires 0 <= i < |units| => UnitName(base, units[i]))
  }

  function SyncedFor(o: Options, clusters: seq<string>): seq<string> {
    if clusters == [] then []
    else
      var base := o.argoName(clusters[|clusters| - 1]);
      SyncedFor(o, clusters[..|clusters| - 1]) + (if o.composed then UnitNames(base, Units(o.components)) else [base])
  }

  function Synced(o: Options): seq<string> {
    SyncedFor(o, if o.clusters == [] then [FALLBACK_CLUSTER] else o.clusters)
  }

  function Finish(o: Options): seq<Step> {
    [GitCommit, GitPush, ArgoUpdate(Synced(o))]
  }

  function Program(o: Options): seq<Step> {
    [GitClone(o.url)] + Steps(o, Purposes(o)) + Finish(o)
  }

  // ---- the builders ------------------------------------------------------

  /** One subscription for each repository, that of the first image using it. */
  method BuildKargoWarehouse(images: seq<Image>) returns (subs: seq<Subscription>)
    ensures OnePerRepository(subs, images)
  {
    var seen: set<string> := {};
    subs := [];
    for i := 0 to |images|
      invariant forall a, b :: 0 <= a < b < |subs| ==> subs[a].repository != subs[b].repository
      invariant forall r :: r in seen <==> exists a :: 0 <= a < |subs| && subs[a].repository == r
      invariant forall k :: 0 <= k < i ==> images[k].repository in seen
      invariant forall a :: 0 <= a < |subs| ==> FromFirst(subs[a], images)
      invariant forall a :: 0 <= a < |subs| ==> exists k :: 0 <= k < i && images[k].repository == subs[a].repository
    {
      var image := images[i];
      if image.repository !in seen {
        seen := seen + {image.repository};
        var sub := Subscription(image.repository, image.allowTags, image.strategy);
        assert FromFirst(sub, images) by {
          assert forall k :: 0 <= k < i ==> images[k].repository != image.repository;
        }
        ghost var before := subs;
        subs := subs + [sub];
        assert subs[|before|] == sub;
        assert forall a :: 0 <= a < |before| ==> subs[a] == before[a];
      }
    }
  }

  ghost predicate OnePerRepository(subs: seq<Subscription>, images: seq<Image>) {
    && (forall i, j :: 0 <= i < j < |subs| ==> subs[i].repository != subs[j].repository)
    && (forall image :: image in images ==> exists i :: 0 <= i < |subs| && subs[i].repository == image.repository)
    && (forall i :: 0 <= i < |subs| ==> FromFirst(subs[i], images))
  }

  ghost predicate FromFirst(sub: Subscription, images: seq<Image>) {
    exists i :: 0 <= i < |images| && sub == Subscription(images[i].repository, images[i].allowTags, images[i].strategy)
                && forall j :: 0 <= j < i ==> images[j].repository != images[i].repository
  }

  method ImageUpdates(images: seq<Image>) returns (updates: seq<Update>)
    ensures updates == Updates(images)
  {
    updates := [];
    for i := 0 to |images|
      invariant updates == Updates(images)[..i]
    {
      updates := updates + [Update(images[i].tagKey, TagOf(images[i].repository))];
    }
  }

  method UnitApps(base: string, components: seq<Component>) returns (apps: seq<string>)
    ensures apps == UnitNames(base, Units(components))
  {
    var stateful := StatefulOf(components);
    apps := [];
    if |components| > |stateful| { apps := [base]; }
    ghost var units, k := Units(components), |apps|;
    for j := 0 to |stateful|
      invariant |apps| == k + j && forall i :: 0 <= i < |apps| ==> apps[i] == UnitName(base, units[i])
    {
      apps := apps + [base + "-" + stateful[j].name];
    }
  }

  method ReleaseArgoUpdateApps(o: Options) returns (apps: seq<string>)
    ensures apps == Synced(o)
  {
    var clusters := if o.clusters == [] then [FALLBACK_CLUSTER] else o.clusters;
    apps := [];
    for i := 0 to |clusters|
      invariant apps == SyncedFor(o, clusters[..i])
    {
      var base := o.argoName(clusters[i]);
      assert clusters[..i + 1][..i] == clusters[..i];
      if o.composed {
        var units := UnitApps(base, o.components);
        apps := apps + units;
      } else {
        apps := apps + [base];
      }
    }
    assert clusters[..|clusters|] == clusters;
  }

  function Splice(steps: seq<Step>, activation: seq<Step>): seq<Step> {
    if steps == [] then []
    else
      var last := steps[|steps| - 1];
      Splice(steps[..|steps| - 1], activation) + (if last == GitCommit then activation else []) + [last]
  }

  method ActivationOf(o: Options, name: string) returns (activation: seq<Step>)
    ensures activation == Steps(o, ActivateCluster(o, name))
  {
    if o.composed {
      var stateful := StatefulOf(o.components);
      activation := [];
      if |o.components| > |stateful| {
        activation := [Copy(ActivePath(o, name + "-application.yaml"), TargetPath(o, name, "application.yaml"))];
      }
      ghost var units, k := Units(o.components), |activation|;
      for j := 0 to |stateful|
        invariant |activation| == k + j
        invariant forall i :: 0 <= i < |activation| ==>
                    activation[i] == StepFor(o, Activate(name, units[i]))
      {
        activation := activation + [Copy(ActivePath(o, name + "-" + stateful[j].name + "-application.yaml"),
                                         TargetPath(o, name, stateful[j].name + "-application.yaml"))];
      }
    } else {
      activation := [YamlUpdate(AppYamlPath(o, name), [Update("promotionPending", Literal("false"))])];
    }
  }

  /** The activation goes in front of every git-commit. */
  method ActivatePreparedRelease(steps: seq<Step>, o: Options) returns (out: seq<Step>)
    ensures out == Splice(steps, Steps(o, Activation(o)))
  {
    var activation := [YamlUpdate(StatePath(o), [Update("pending", Literal("false"))])];
    var clusters := if o.clusters == [] then [FALLBACK_CLUSTER] else o.clusters;
    ghost var names := Destinations(o);
    for i := 0 to |clusters|
      invariant activation == Steps(o, [State] + ActivateAll(o, names[..i]))
    {
      var name := clusters[i];
      if name == "" { name := FALLBACK_CLUSTER; }
      var more := ActivationOf(o, name);
      activation := activation + more;
      ActivateOneMore(o, names, i);
    }
    assert names[..|clusters|] == names;
    out := [];
    for i := 0 to |steps|
      invariant out == Splice(steps[..i], activation)
    {
      if steps[i].GitCommit? { out := out + activation; }
      out := out + [steps[i]];
      assert steps[..i + 1][..i] == steps[..i];
    }
    assert steps[..|steps|] == steps;
  }

  lemma ActivateOneMore(o: Options, names: seq<string>, i: nat)
    requires i < |names|
    ensures Steps(o, [State] + ActivateAll(o, names[..i + 1]))
         == Steps(o, [State] + ActivateAll(o, names[..i])) + Steps(o, ActivateCluster(o, names[i]))
  {
    assert names[..i + 1][..i] == names[..i];
    var before, more := [State] + ActivateAll(o, names[..i]), ActivateCluster(o, names[i]);
    assert [State] + ActivateAll(o, names[..i + 1]) == before + more;
    StepsConcat(o, before, more);
  }

  lemma {:induction false} SpliceNothing(a: seq<Step>, b: seq<Step>, activation: seq<Step>)
    requires forall i :: 0 <= i < |b| ==> b[i] != GitCommit
    ensures Splice(a + b, activation) == Splice(a, activation) + b
  {
    if b == [] {
      assert a + b == a;
    } else {
      var n := |b| - 1;
      assert (a + b)[..|a + b| - 1] == a + b[..n];
      SpliceNothing(a, b[..n], activation);
      assert b == b[..n] + [b[n]];
    }
  }

  lemma SpliceOnce(a: seq<Step>, b: seq<Step>, activation: seq<Step>)
    requires forall i :: 0 <= i < |a| ==> a[i] != GitCommit
    requires forall i :: 0 <= i < |b| ==> b[i] != GitCommit
    ensures Splice(a + [GitCommit] + b, activation) == a + activation + [GitCommit] + b
  {
    SpliceNothing([], a, activation);
    assert [] + a == a;
    assert (a + [GitCommit])[..|a|] == a;
    SpliceNothing(a + [GitCommit], b, activation);
  }

  lemma SpliceProgram(o: Options, edits: seq<Purpose>)
    ensures Splice([GitClone(o.url)] + Steps(o, edits) + Finish(o), Steps(o, Activation(o)))
         == [GitClone(o.url)] + Steps(o, edits + Activation(o)) + Finish(o)
  {
    var clone, x, y := [GitClone(o.url)], Steps(o, edits), Steps(o, Activation(o));
    var rest := [GitPush, ArgoUpdate(Synced(o))];
    SpliceOnce(clone + x, rest, y);
    StepsConcat(o, edits, Activation(o));
    Regroup(clone, x, y, [GitCommit], rest);
    assert [GitCommit] + rest == Finish(o);
  }

  lemma Regroup<T>(a: seq<T>, x: seq<T>, y: seq<T>, c: seq<T>, b: seq<T>)
    ensures a + x + c + b == a + x + (c + b)
    ensures a + x + y + c + b == a + (x + y) + (c + b)
  {
  }

  method ValuesSteps(o: Options, slot: Option<string>, updates: seq<Update>) returns (steps: seq<Step>)
    requires updates == Updates(ImagesFor(o.images, slot))
    ensures steps == Steps(o, InPlaces(slot, Places(o)))
  {
    if |o.clusters| <= 1 {
      steps := [YamlUpdate(ValuesPath(o, None, slot), updates)];
    } else {
      steps := [];
      for c := 0 to |o.clusters|
        invariant |steps| == c && forall i :: 0 <= i < c ==> steps[i] == StepFor(o, Values(Some(o.clusters[i]), slot))
      {
        steps := steps + [YamlUpdate(ValuesPath(o, Some(o.clusters[c]), slot), updates)];
      }
    }
  }

  /** The template of a single-source app: one values file, or one per cluster. */
  method BuildPromotionTemplate(o: Options) returns (r: Option<seq<Step>>)
    requires !o.composed
    ensures r == if o.url == "" then None else Some(Program(o))
  {
    if o.url == "" { return None; }
    var updates := ImageUpdates(o.images);
    AllImages(o.images);
    var apps := ReleaseArgoUpdateApps(o);
    var steps := [GitClone(o.url), YamlUpdate(ValuesPath(o, None, None), updates),
      GitCommit, GitPush, ArgoUpdate(apps)];
    ghost var clone, values := steps[..1], steps[1..2];
    assert clone == [GitClone(o.url)];
    if |o.clusters| > 1 {
      var expanded := [];
      for s := 0 to 5
        invariant s == 0 ==> expanded == []
        invariant s == 1 ==> expanded == clone
        invariant s == 2 ==> expanded == clone + Steps(o, InPlaces(None, Places(o)))
        invariant s == 3 ==> expanded == clone + Steps(o, InPlaces(None, Places(o))) + [GitCommit]
        invariant s == 4 ==> expanded == clone + Steps(o, InPlaces(None, Places(o))) + [GitCommit, GitPush]
        invariant s == 5 ==> expanded == clone + Steps(o, InPlaces(None, Places(o))) + Finish(o)
      {
        if steps[s].YamlUpdate? {
          var files := ValuesSteps(o, None, updates);
          expanded := expanded + files;
        } else {
          expanded := expanded + [steps[s]];
        }
      }
      steps := expanded;
    } else {
      assert values == Steps(o, InPlaces(None, Places(o)));
      assert steps == clone + values + Finish(o);
    }
    assert ValuesFiles(Slots(o), Places(o)) == InPlaces(None, Places(o)) by { assert Slots(o)[..0] == []; }
    SpliceProgram(o, InPlaces(None, Places(o)));
    assert Purposes(o) == InPlaces(None, Places(o)) + Activation(o);
    var out := ActivatePreparedRelease(steps, o);
    r := Some(out);
  }

  lemma {:induction false} AllImages(images: seq<Image>)
    ensures ImagesFor(images, None) == images
  {
    if images == [] {
    } else {
      AllImages(images[..|images| - 1]);
      assert images == images[..|images| - 1] + [images[|images| - 1]];
    }
  }

  /** A missing key reads as the empty list. */
  function Group(byOwner: map<string, seq<Image>>, owner: string): seq<Image> {
    if owner in byOwner then byOwner[owner] else []
  }

  /** Images grouped by the component that owns them, components in the order they
      are first met. */
  method GroupByOwner(images: seq<Image>) returns (order: seq<string>, byOwner: map<string, seq<Image>>)
    ensures order == Once(Owners(images))
    ensures forall c :: Group(byOwner, c) == ImagesFor(images, Some(c))
  {
    order, byOwner := [], map[];
    for i := 0 to |images|
      invariant order == Once(Owners(images[..i]))
      invariant forall c :: c in byOwner <==> c in order
      invariant forall c :: Group(byOwner, c) == ImagesFor(images[..i], Some(c))
    {
      var image := images[i];
      OneMoreOwner(images, i);
      if image.owner !in byOwner { order := order + [image.owner]; }
      byOwner := byOwner[image.owner := Group(byOwner, image.owner) + [image]];
    }
    assert images[..|images|] == images;
  }

  lemma OneMoreOwner(images: seq<Image>, i: nat)
    requires i < |images|
    ensures images[i].owner in Once(Owners(images[..i])) <==>
              exists k :: 0 <= k < i && images[k].owner == images[i].owner
    ensures Once(Owners(images[..i + 1]))
         == Once(Owners(images[..i])) + if images[i].owner in Once(Owners(images[..i])) then [] else [images[i].owner]
    ensures forall slot :: ImagesFor(images[..i + 1], slot)
                        == ImagesFor(images[..i], slot)
                           + if slot.None? || images[i].owner == slot.value then [images[i]] else []
  {
    var owners := Owners(images[..i]);
    assert Owners(images[..i + 1]) == owners + [images[i].owner];
    assert Owners(images[..i + 1])[..i] == owners;
    assert images[..i + 1][..i] == images[..i];
    assert forall k :: 0 <= k < i ==> owners[k] == images[k].owner;
  }

  lemma OneMoreSlot(o: Options, i: nat)
    requires i < |Slots(o)|
    ensures Steps(o, ValuesFiles(Slots(o)[..i + 1], Places(o)))
         == Steps(o, ValuesFiles(Slots(o)[..i], Places(o))) + Steps(o, InPlaces(Slots(o)[i], Places(o)))
  {
    assert Slots(o)[..i + 1][..i] == Slots(o)[..i];
    StepsConcat(o, ValuesFiles(Slots(o)[..i], Places(o)), InPlaces(Slots(o)[i], Places(o)));
  }

  method ComponentSteps(o: Options) returns (steps: seq<Step>)
    requires o.composed
    ensures steps == Steps(o, ValuesFiles(Slots(o), Places(o)))
  {
    var order, byOwner := GroupByOwner(o.images);
    ghost var slots := Slots(o);
    steps := [];
    for i := 0 to |order|
      invariant steps == Steps(o, ValuesFiles(slots[..i], Places(o)))
    {
      assert slots[i] == Some(order[i]);
      var updates := ImageUpdates(Group(byOwner, order[i]));
      var files := ValuesSteps(o, Some(order[i]), updates);
      steps := steps + files;
      OneMoreSlot(o, i);
    }
    assert slots[..|order|] == slots;
  }

  /** The template of a composed app: one values file for each component and, with
      several clusters, each cluster. */
  method BuildComposedPromotionTemplate(o: Options) returns (r: Option<seq<Step>>)
    requires o.composed
    ensures r == if o.url == "" then None else Some(Program(o))
  {
    if o.url == "" { return None; }
    var files := ComponentSteps(o);
    var steps := [GitClone(o.url)] + files;
    var apps := ReleaseArgoUpdateApps(o);
    steps := steps + [GitCommit, GitPush, ArgoUpdate(apps)];
    SpliceProgram(o, ValuesFiles(Slots(o), Places(o)));
    var out := ActivatePreparedRelease(steps, o);
    r := Some(out);
  }
}
