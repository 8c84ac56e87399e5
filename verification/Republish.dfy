/** Publishing over a tree that promotions have written to: which of the promoted
    tags survive. */
module Republish {
  import opened Components
  import opened GitTree
  import opened PromotionTemplate
  import opened Promotion
  import opened Publishing
  import opened ReleaseRoundTrip
  import opened Wrappers

  /** Whether an outside controller owns the tags, the tag the environment is pinned
      to (empty for none), and the tag keys of a component, or of a single-source
      app, that the publisher knows of. For a component these are its own stored
      selections, not what discovery found. */
  datatype Rules = Rules(managed: bool, pin: string, keys: string -> seq<string>)

  function Slot(o: Options, component: string): Option<string> {
    if o.composed then Some(component) else None
  }

  function FileOf(o: Options, target: string, component: string): Path {
    ValuesPath(o, Place(o, target), Slot(o, component))
  }

  /** The tag a file holds; empty when the file or the key is missing. */
  function TagAt(tree: Tree, path: Path, key: string): string {
    if path in tree && tree[path].Fields? && key in tree[path].fields then tree[path].fields[key] else ""
  }

  function Captured(tree: Tree, path: Path, keys: seq<string>): map<string, string> {
    if keys == [] then map[]
    else
      var n := |keys| - 1;
      var tag := TagAt(tree, path, keys[n]);
      if tag == "" then Captured(tree, path, keys[..n]) else Captured(tree, path, keys[..n])[keys[n] := tag]
  }

  function Pins(keys: seq<string>, pin: string): map<string, string> {
    map k | k in keys :: pin
  }

  /** The keys that have a value are set, one after the other. */
  function PutAll(fields: Yaml, keys: seq<string>, values: map<string, string>): Yaml {
    if keys == [] then fields
    else
      var n := |keys| - 1;
      var before := PutAll(fields, keys[..n], values);
      if keys[n] in values then Put(before, keys[n], values[keys[n]]) else before
  }

  /** The rendered values with the captured tags on top, and the pin on top of those. */
  function Settle(seed: Yaml, tags: map<string, string>, keys: seq<string>, rules: Rules): Yaml {
    var kept := if rules.managed then PutAll(seed, keys, tags) else seed;
    if rules.pin != "" then PutAll(kept, keys, Pins(keys, rules.pin)) else kept
  }

  function Settled(o: Options, p: Publication, rules: Rules, tree: Tree): Publication {
    p.(values := (t, c) => Settle(p.values(t, c), Captured(tree, FileOf(o, t, c), rules.keys(c)), rules.keys(c), rules))
  }

  /** Any of the three trees an app's inputs may lie in. */
  predicate IsAnyInput(o: Options, path: Path) {
    exists base :: base in ["envs", "envs-external", "_composed-apps"]
      && Within(path, o.subPath + [base, o.env, o.project, o.app, "_targets"])
  }

  function WithoutInputs(o: Options, tree: Tree): Tree {
    map path | path in tree && !IsAnyInput(o, path) :: tree[path]
  }

  /** An unbound environment is skipped, a dormant one loses its inputs, any other is
      published with its tags settled. */
  function PublishedEnv(o: Options, p: Publication, rules: Rules, bound: bool, dormant: bool, tree: Tree): Tree {
    if !bound then tree
    else if dormant then WithoutInputs(o, tree)
    else Published(o, Settled(o, p, rules, tree), tree)
  }

  // ---- the publisher -----------------------------------------------------

  method CaptureTags(tree: Tree, path: Path, keys: seq<string>) returns (tags: map<string, string>)
    ensures tags == Captured(tree, path, keys)
  {
    tags := map[];
    for i := 0 to |keys|
      invariant tags == Captured(tree, path, keys[..i])
    {
      assert keys[..i + 1][..i] == keys[..i];
      var tag := TagAt(tree, path, keys[i]);
      if tag != "" { tags := tags[keys[i] := tag]; }
    }
    assert keys[..|keys|] == keys;
  }

  /** The tags of every file of every target, read before anything is removed. */
  method CaptureAll(o: Options, rules: Rules, targets: seq<string>, components: seq<string>, tree: Tree)
    returns (tags: map<(string, string), map<string, string>>)
    ensures forall t, c :: t in targets && c in components ==>
              (t, c) in tags && tags[(t, c)] == Captured(tree, FileOf(o, t, c), rules.keys(c))
  {
    tags := map[];
    for i := 0 to |targets|
      invariant forall t, c :: t in targets[..i] && c in components ==>
                  (t, c) in tags && tags[(t, c)] == Captured(tree, FileOf(o, t, c), rules.keys(c))
    {
      for j := 0 to |components|
        invariant forall t, c :: (t in targets[..i] && c in components) || (t == targets[i] && c in components[..j]) ==>
                    (t, c) in tags && tags[(t, c)] == Captured(tree, FileOf(o, t, c), rules.keys(c))
      {
        var found := CaptureTags(tree, FileOf(o, targets[i], components[j]), rules.keys(components[j]));
        tags := tags[(targets[i], components[j]) := found];
        assert components[..j + 1] == components[..j] + [components[j]];
      }
      assert components[..|components|] == components;
      assert targets[..i + 1] == targets[..i] + [targets[i]];
    }
    assert targets[..|targets|] == targets;
  }

  function FileNames(o: Options): seq<string> {
    if o.composed then seq(|o.components|, i requires 0 <= i < |o.components| => o.components[i].name) else [o.app]
  }

  /** The rendering, once the tags to put back are known. */
  function WithTags(p: Publication, tags: map<(string, string), map<string, string>>, rules: Rules): Publication {
    p.(values := (t, c) => Settle(p.values(t, c), if (t, c) in tags then tags[(t, c)] else map[], rules.keys(c), rules))
  }

  lemma TagsSettle(o: Options, p: Publication, rules: Rules, tree: Tree,
                   tags: map<(string, string), map<string, string>>, t: string, c: string)
    requires rules.managed ==> (t, c) in tags && tags[(t, c)] == Captured(tree, FileOf(o, t, c), rules.keys(c))
    ensures WithTags(p, tags, rules).values(t, c) == Settled(o, p, rules, tree).values(t, c)
  {
    var seed, keys := p.values(t, c), rules.keys(c);
    var captured := Captured(tree, FileOf(o, t, c), keys);
    var put := if (t, c) in tags then tags[(t, c)] else map[];
    assert WithTags(p, tags, rules).values(t, c) == Settle(seed, put, keys, rules);
    assert Settled(o, p, rules, tree).values(t, c) == Settle(seed, captured, keys, rules);
    assert rules.managed ==> put == captured;
  }

  method PublishAppEnv(o: Options, p: Publication, rules: Rules, bound: bool, dormant: bool, tree: Tree)
    returns (out: Tree)
    ensures out == PublishedEnv(o, p, rules, bound, dormant, tree)
  {
    if !bound { return tree; }
    if dormant {
      out := WithoutInputs(o, tree);
      return;
    }
    var targets := if o.clusters == [] then [p.clusterRef] else o.clusters;
    var tags := map[];
    if rules.managed { tags := CaptureAll(o, rules, targets, FileNames(o), tree); }
    var q := WithTags(p, tags, rules);
    forall t, c | t in targets && c in FileNames(o) ensures q.values(t, c) == Settled(o, p, rules, tree).values(t, c) {
      TagsSettle(o, p, rules, tree, tags, t, c);
    }
    SameWhereItMatters(o, q, Settled(o, p, rules, tree), tree);
    out := WriteEnv(o, q, tree);
  }

  /** Only the values of the files written matter. */
  lemma SameWhereItMatters(o: Options, q: Publication, r: Publication, tree: Tree)
    requires q.clusterRef == r.clusterRef && q.automated == r.automated && q.pending == r.pending
    requires forall t, c :: t in Targets(o, q) && c in FileNames(o) ==> q.values(t, c) == r.values(t, c)
    ensures Published(o, q, tree) == Published(o, r, tree)
  {
    SameWrites(o, q, r, Targets(o, q));
  }

  lemma {:induction false} SameWrites(o: Options, q: Publication, r: Publication, targets: seq<string>)
    requires q.automated == r.automated && q.pending == r.pending
    requires forall t, c :: t in targets && c in FileNames(o) ==> q.values(t, c) == r.values(t, c)
    ensures AllWrites(o, q, targets) == AllWrites(o, r, targets)
  {
    if targets == [] {
    } else {
      var n := |targets| - 1;
      SameWrites(o, q, r, targets[..n]);
      SameTargetWrites(o, q, r, targets[n]);
    }
  }

  lemma SameTargetWrites(o: Options, q: Publication, r: Publication, t: string)
    requires q.automated == r.automated && q.pending == r.pending
    requires forall c :: c in FileNames(o) ==> q.values(t, c) == r.values(t, c)
    ensures TargetWrites(o, q, t) == TargetWrites(o, r, t)
  {
    if o.composed {
      SameComponentWrites(o, q, r, t);
      SameUnitWrites(o, q, r, t, RenderedUnits(o));
    } else {
      assert FileNames(o)[0] == o.app;
    }
  }

  lemma SameComponentWrites(o: Options, q: Publication, r: Publication, t: string)
    requires o.composed && forall c :: c in FileNames(o) ==> q.values(t, c) == r.values(t, c)
    ensures ComponentWrites(o, q, t) == ComponentWrites(o, r, t)
  {
    forall i | 0 <= i < |o.components| ensures ComponentWrites(o, q, t)[i] == ComponentWrites(o, r, t)[i] {
      assert FileNames(o)[i] == o.components[i].name;
    }
  }

  lemma {:induction false} SameUnitWrites(o: Options, q: Publication, r: Publication, t: string,
                                          units: seq<Option<string>>)
    requires q.automated == r.automated && q.pending == r.pending
    ensures UnitWrites(o, q, t, units) == UnitWrites(o, r, t, units)
  {
    if units == [] {
    } else {
      SameUnitWrites(o, q, r, t, units[..|units| - 1]);
    }
  }

  // ---- one file ----------------------------------------------------------

  lemma {:induction false} CapturedAt(tree: Tree, path: Path, keys: seq<string>, key: string)
    ensures key in Captured(tree, path, keys) <==> key in keys && TagAt(tree, path, key) != ""
    ensures key in Captured(tree, path, keys) ==> Captured(tree, path, keys)[key] == TagAt(tree, path, key)
  {
    if keys == [] {
    } else {
      var n := |keys| - 1;
      CapturedAt(tree, path, keys[..n], key);
      assert key in keys <==> key in keys[..n] || key == keys[n] by { assert keys == keys[..n] + [keys[n]]; }
    }
  }

  /** Every value comes from somewhere, ... */
  lemma {:induction false} PutAllFrom(fields: Yaml, keys: seq<string>, values: map<string, string>, key: string)
    ensures var after := PutAll(fields, keys, values);
            key in after ==> if key in keys && key in values then after[key] == values[key]
                             else key in fields && after[key] == fields[key]
  {
    if keys == [] {
    } else {
      var n := |keys| - 1;
      PutAllFrom(fields, keys[..n], values, key);
      assert key in keys <==> key in keys[..n] || key == keys[n] by { assert keys == keys[..n] + [keys[n]]; }
    }
  }

  /** ... and one that nothing else set is nested with stays. */
  lemma {:induction false} PutAllHas(fields: Yaml, keys: seq<string>, values: map<string, string>, key: string)
    requires key in keys && key in values && forall k :: k in values ==> !Nested(k, key)
    ensures key in PutAll(fields, keys, values) && PutAll(fields, keys, values)[key] == values[key]
  {
    var n := |keys| - 1;
    if keys[n] != key {
      assert key in keys[..n] by { assert keys == keys[..n] + [keys[n]]; }
      PutAllHas(fields, keys[..n], values, key);
    }
  }

  /** A key that nothing set is or is nested with is left alone. */
  lemma {:induction false} PutAllKeeps(fields: Yaml, keys: seq<string>, values: map<string, string>, key: string)
    requires forall k :: k in keys && k in values ==> k != key && !Nested(k, key)
    ensures var after := PutAll(fields, keys, values);
            (key in after <==> key in fields) && (key in after ==> after[key] == fields[key])
  {
    if keys == [] {
    } else {
      var n := |keys| - 1;
      assert keys == keys[..n] + [keys[n]];
      PutAllKeeps(fields, keys[..n], values, key);
    }
  }

  /** What was read back comes from one document, so none of it is nested. */
  lemma CapturedApart(tree: Tree, path: Path, keys: seq<string>, a: string, b: string)
    requires a in Captured(tree, path, keys) && b in Captured(tree, path, keys)
    ensures !Nested(a, b)
  {
    CapturedAt(tree, path, keys, a);
    CapturedAt(tree, path, keys, b);
  }

  lemma SettleKeeps(seed: Yaml, tree: Tree, path: Path, keys: seq<string>, rules: Rules, key: string)
    requires rules.managed && rules.pin == "" && key in keys && TagAt(tree, path, key) != ""
    ensures var after := Settle(seed, Captured(tree, path, keys), keys, rules);
            key in after && after[key] == TagAt(tree, path, key)
  {
    CapturedAt(tree, path, keys, key);
    forall k | k in Captured(tree, path, keys) ensures !Nested(k, key) { CapturedApart(tree, path, keys, k, key); }
    PutAllHas(seed, keys, Captured(tree, path, keys), key);
  }

  lemma SettleAt(seed: Yaml, tree: Tree, path: Path, keys: seq<string>, rules: Rules, key: string, tag: string)
    requires tag != "" && rules.pin != tag && (key in seed ==> seed[key] != tag)
    ensures var after := Settle(seed, Captured(tree, path, keys), keys, rules);
            key in after && after[key] == tag <==>
              rules.managed && rules.pin == "" && key in keys && TagAt(tree, path, key) == tag
  {
    var captured := Captured(tree, path, keys);
    var kept := if rules.managed then PutAll(seed, keys, captured) else seed;
    CapturedAt(tree, path, keys, key);
    PutAllFrom(seed, keys, captured, key);
    PutAllFrom(kept, keys, Pins(keys, rules.pin), key);
    if rules.managed && rules.pin == "" && key in keys && TagAt(tree, path, key) == tag {
      SettleKeeps(seed, tree, path, keys, rules, key);
    }
  }

  /** What a republish leaves in a file: the settled values of what was there. */
  lemma FileAfter(o: Options, p: Publication, rules: Rules, tree: Tree, t: string, c: string)
    requires t in Targets(o, p) && c in FileNames(o)
    ensures var path := FileOf(o, t, c);
            var out := PublishedEnv(o, p, rules, true, false, tree);
            path in out && out[path]
              == Fields(Settle(p.values(t, c), Captured(tree, path, rules.keys(c)), rules.keys(c), rules))
  {
    var q := Settled(o, p, rules, tree);
    assert q.values(t, c)
        == Settle(p.values(t, c), Captured(tree, FileOf(o, t, c), rules.keys(c)), rules.keys(c), rules);
    if o.composed {
      var i :| 0 <= i < |o.components| && FileNames(o)[i] == c;
      ValuesAreOwn(o, q, tree, t, i);
    } else {
      SingleValuesAreOwn(o, q, tree, t);
    }
  }

  /** A tag that neither the rendering nor the pin happens to be is in a file after a
      republish exactly when the app is managed and unpinned, the publisher knows the
      key, and the file that is read back, that of the new layout, has it. */
  lemma KeepsTagExactly(o: Options, p: Publication, rules: Rules, tree: Tree, t: string, c: string, key: string,
                        tag: string)
    requires t in Targets(o, p) && c in FileNames(o) && tag != "" && rules.pin != tag
    requires key in p.values(t, c) ==> p.values(t, c)[key] != tag
    ensures TagAt(PublishedEnv(o, p, rules, true, false, tree), FileOf(o, t, c), key) == tag <==>
              rules.managed && rules.pin == "" && key in rules.keys(c) && TagAt(tree, FileOf(o, t, c), key) == tag
  {
    FileAfter(o, p, rules, tree, t, c);
    SettleAt(p.values(t, c), tree, FileOf(o, t, c), rules.keys(c), rules, key, tag);
  }

  /** What a republish leaves under a key that no known tag key is nested with: the pin
      when there is one, else the tag that was there when an outside controller owns the
      tags, else the rendering's value; and under a key the publisher does not know the
      rendering's value whatever the rules. */
  ghost predicate KeySettled(rules: Rules, keys: seq<string>, seed: Yaml, was: string, after: Yaml, key: string) {
    if key in keys && rules.pin != "" then key in after && after[key] == rules.pin
    else if key in keys && rules.managed && was != "" then key in after && after[key] == was
    else (key in after <==> key in seed) && (key in after ==> after[key] == seed[key])
  }

  lemma KeysSettledExactly(o: Options, p: Publication, rules: Rules, tree: Tree, t: string, c: string, key: string)
    requires t in Targets(o, p) && c in FileNames(o) && forall k :: k in rules.keys(c) ==> !Nested(k, key)
    ensures var (path, out) := (FileOf(o, t, c), PublishedEnv(o, p, rules, true, false, tree));
            && path in out && out[path].Fields?
            && KeySettled(rules, rules.keys(c), p.values(t, c), TagAt(tree, path, key), out[path].fields, key)
  {
    FileAfter(o, p, rules, tree, t, c);
    SettlesKey(p.values(t, c), tree, FileOf(o, t, c), rules.keys(c), rules, key);
  }

  lemma SettlesKey(seed: Yaml, tree: Tree, path: Path, keys: seq<string>, rules: Rules, key: string)
    requires forall k :: k in keys ==> !Nested(k, key)
    ensures KeySettled(rules, keys, seed, TagAt(tree, path, key),
                       Settle(seed, Captured(tree, path, keys), keys, rules), key)
  {
    var captured := Captured(tree, path, keys);
    var kept := if rules.managed then PutAll(seed, keys, captured) else seed;
    CapturedAt(tree, path, keys, key);
    forall k | k in captured ensures k in keys { CapturedAt(tree, path, keys, k); }
    if key in captured {
      PutAllHas(seed, keys, captured, key);
    } else {
      PutAllKeeps(seed, keys, captured, key);
    }
    if key in keys {
      PutAllHas(kept, keys, Pins(keys, rules.pin), key);
    } else {
      PutAllKeeps(kept, keys, Pins(keys, rules.pin), key);
    }
  }

  // ---- publish, promote, republish ---------------------------------------

  lemma OneValuesPath(o: Options, a: Option<string>, x: string, b: Option<string>, y: string)
    requires ValuesPath(o, a, Some(x)) == ValuesPath(o, b, Some(y))
    ensures a == b && x == y
  {
    var k := |o.subPath|;
    var path := ValuesPath(o, a, Some(x));
    assert |path| == k + 7 + (if a.Some? then 2 else 0) == k + 7 + if b.Some? then 2 else 0;
    assert path[|path| - 2] == x && ValuesPath(o, b, Some(y))[|path| - 2] == y;
    if a.Some? { assert path[k + 3] == a.value && ValuesPath(o, b, Some(y))[k + 3] == b.value; }
  }

  lemma PlaceOfTarget(o: Options, p: Publication, t: string)
    requires t in Targets(o, p)
    ensures Place(o, t) in Places(o)
  {
    if |o.clusters| > 1 {
      var i :| 0 <= i < |o.clusters| && o.clusters[i] == t;
      assert Places(o)[i] == Some(t);
    } else {
      assert Places(o)[0] == None;
    }
  }

  lemma ValuesAreStale(o: Options, place: Option<string>, c: string)
    requires o.composed
    ensures Stale(o, ValuesPath(o, place, Some(c)))
  {
    var path, k := ValuesPath(o, place, Some(c)), |o.subPath|;
    if place.None? {
      var dir := o.subPath + [ValuesTree(o), o.env, o.project, o.app, "components"];
      assert path[..|dir|] == dir;
    } else {
      var dir := o.subPath + [ValuesTree(o), o.env, "_clusters"];
      assert path[..|dir|] == dir && path[k + 4..k + 7] == [o.project, o.app, "components"];
    }
  }

  /** A publish leaves values of components only where it puts them, ... */
  lemma NoValuesElsewhere(o: Options, p: Publication, tree: Tree, place: Option<string>, c: string)
    requires o.composed && place !in Places(o)
    ensures ValuesPath(o, place, Some(c)) !in Published(o, p, tree)
  {
    var path := ValuesPath(o, place, Some(c));
    var ws := AllWrites(o, p, Targets(o, p));
    ValuesAreStale(o, place, c);
    ValuesUnderTree(o, place, Some(c));
    AllWritesAre(o, p, Targets(o, p));
    forall i | 0 <= i < |ws| ensures ws[i].path != path {
      assert ws[i] in ws;
      var t :| t in Targets(o, p) && ws[i] in TargetWrites(o, p, t);
      if ws[i].path == path { WriteHasPlace(o, p, t, ws[i], place, c); }
    }
    LastWrite(Pruned(o, tree[StatePath(o) := StateDoc(p)]), ws, path);
  }

  lemma WriteHasPlace(o: Options, p: Publication, t: string, w: Write, place: Option<string>, c: string)
    requires o.composed && t in Targets(o, p) && w in TargetWrites(o, p, t) && w.path == ValuesPath(o, place, Some(c))
    ensures place in Places(o)
  {
    ValuesUnderTree(o, place, Some(c));
    var k := ComponentOfWrite(o, p, t, w);
    OneValuesPath(o, place, c, Place(o, t), o.components[k].name);
    PlaceOfTarget(o, p, t);
  }

  /** ... and a promotion writes nowhere else. */
  lemma NotPromotedElsewhere(o: Options, before: Tree, after: Tree, freight: Freight, place: Option<string>, c: string)
    requires o.composed && place !in Places(o) && Promoted(o, before, after, freight)
    ensures Untouched(before, after, ValuesPath(o, place, Some(c)))
  {
    var path := ValuesPath(o, place, Some(c));
    Members(o);
    ValuesUnderTree(o, place, Some(c));
    forall x | x in Purposes(o) ensures Target(StepFor(o, x)) != path {
      TargetIsRelative(o, x);
      if x.Values? && Target(StepFor(o, x)) == path {
        OwnerOfSlot(o, x.slot);
        OneValuesPath(o, place, c, x.place, x.slot.value);
      }
    }
  }

  ghost predicate FullFreight(o: Options, freight: Freight) {
    forall image :: image in o.images ==> image.repository in freight && freight[image.repository] != ""
  }

  function AfterPromotion(o: Options, p: Publication, tree: Tree, freight: Freight): Tree {
    RunSteps(Program(o), Fresh(Published(o, p, tree)), freight).machine.remote
  }

  /** After a publish and a promotion an image's tag is in the files of exactly the
      clusters published for, if the image is the one its key holds. */
  lemma TagsWhereCommitted(o: Options, p: Publication, tree: Tree, freight: Freight, image: Image,
                           place: Option<string>)
    requires o.composed && AllTemplated(o.components) && OwnersExist(o) && SameCluster(o, p) && FullFreight(o, freight)
    requires image in o.images
    ensures TagAt(AfterPromotion(o, p, tree, freight), ValuesPath(o, place, Some(image.owner)), image.tagKey)
              == freight[image.repository]
            <==> place in Places(o) && Wins(o, freight, image)
  {
    var before, after := Published(o, p, tree), AfterPromotion(o, p, tree, freight);
    PublishedIsReady(o, p, tree, freight);
    OneCommitOrNone(o, before, freight);
    if place in Places(o) {
      TagLostExactly(o, before, after, freight, image, place);
    } else {
      NoValuesElsewhere(o, p, tree, place, image.owner);
      NotPromotedElsewhere(o, before, after, freight, place, image.owner);
    }
  }

  // ---- a single-source app keeps files it no longer writes ----------------

  lemma SingleValuesPath(o: Options, a: Option<string>, b: Option<string>)
    requires ValuesPath(o, a, None) == ValuesPath(o, b, None)
    ensures a == b
  {
    var k, path := |o.subPath|, ValuesPath(o, a, None);
    assert |path| == k + 5 + (if a.Some? then 2 else 0) == k + 5 + if b.Some? then 2 else 0;
    if a.Some? { assert path[k + 3] == a.value && ValuesPath(o, b, None)[k + 3] == b.value; }
  }

  lemma SingleValuesAreNoInput(o: Options, place: Option<string>)
    requires !o.composed
    ensures !Stale(o, ValuesPath(o, place, None)) && ValuesPath(o, place, None) != StatePath(o)
  {
    var k, path := |o.subPath|, ValuesPath(o, place, None);
    var dir := o.subPath + [ValuesTree(o), o.env, o.project, o.app, "_targets"];
    assert dir[k + 2] == o.project && dir[k + 4] == "_targets";
    if place.Some? { assert path[k + 2] == "_clusters" && path[k + 4] == o.project; }
    ValuesUnderTree(o, place, None);
  }

  /** Where a single-source publish writes no values, they are as they were, ... */
  lemma SingleNotPublished(o: Options, p: Publication, tree: Tree, place: Option<string>)
    requires !o.composed && place !in Places(o)
    ensures Untouched(tree, Published(o, p, tree), ValuesPath(o, place, None))
  {
    var path := ValuesPath(o, place, None);
    var ws := AllWrites(o, p, Targets(o, p));
    SingleValuesAreNoInput(o, place);
    AllWritesAre(o, p, Targets(o, p));
    forall i | 0 <= i < |ws| ensures ws[i].path != path {
      assert ws[i] in ws;
      var t :| t in Targets(o, p) && ws[i] in TargetWrites(o, p, t);
      if ws[i].path == path { SingleWriteHasPlace(o, p, t, ws[i], place); }
    }
    LastWrite(Pruned(o, tree[StatePath(o) := StateDoc(p)]), ws, path);
  }

  lemma SingleWriteHasPlace(o: Options, p: Publication, t: string, w: Write, place: Option<string>)
    requires !o.composed && t in Targets(o, p) && w in TargetWrites(o, p, t) && w.path == ValuesPath(o, place, None)
    ensures place in Places(o)
  {
    var app := TargetWrites(o, p, t)[1];
    assert w.path[|w.path| - 1] == "values.yaml" && app.path[|app.path| - 1] == "app.yaml";
    SingleValuesPath(o, place, Place(o, t));
    PlaceOfTarget(o, p, t);
  }

  /** ... and so they are after a promotion. */
  lemma SingleNotPromoted(o: Options, before: Tree, after: Tree, freight: Freight, place: Option<string>)
    requires !o.composed && place !in Places(o) && Promoted(o, before, after, freight)
    ensures Untouched(before, after, ValuesPath(o, place, None))
  {
    var path := ValuesPath(o, place, None);
    Members(o);
    SingleValuesAreNoInput(o, place);
    forall x | x in Purposes(o) ensures Target(StepFor(o, x)) != path {
      if x.Values? && Target(StepFor(o, x)) == path { SingleValuesPath(o, place, x.place); }
      if x.Marker? {
        assert AppYamlPath(o, x.cluster)[|o.subPath| + 6] == "app.yaml";
        assert path[|path| - 1] == "values.yaml";
      }
    }
  }

  /** After a publish and a promotion a single-source app's tag is in the files of the
      clusters published for, under the same condition, and wherever else it happened
      to be before. */
  lemma SingleTagsWhereCommitted(o: Options, p: Publication, tree: Tree, freight: Freight, image: Image,
                                 place: Option<string>)
    requires !o.composed && SameCluster(o, p) && FullFreight(o, freight) && image in o.images
    ensures var (after, path) := (AfterPromotion(o, p, tree, freight), ValuesPath(o, place, None));
            if place in Places(o)
            then TagAt(after, path, image.tagKey) == freight[image.repository] <==> Wins(o, freight, image)
            else TagAt(after, path, image.tagKey) == TagAt(tree, path, image.tagKey)
  {
    var before, after := Published(o, p, tree), AfterPromotion(o, p, tree, freight);
    PublishedIsReady(o, p, tree, freight);
    OneCommitOrNone(o, before, freight);
    if place in Places(o) {
      TagLostExactly(o, before, after, freight, image, place);
    } else {
      SingleNotPublished(o, p, tree, place);
      SingleNotPromoted(o, before, after, freight, place);
    }
  }

  // ---- which tags survive ------------------------------------------------

  /** The component whose file an image's tag is in; of a single-source app there is
      only one file. */
  function Holder(o: Options, image: Image): string {
    if o.composed then image.owner else o.app
  }

  /** Every promoted tag is in every file of the new layout. */
  ghost predicate AllTagsSurvive(o: Options, p: Publication, out: Tree, freight: Freight) {
    forall image, t :: image in o.images && t in Targets(o, p) ==> Survives(o, out, freight, image, t)
  }

  predicate Survives(o: Options, out: Tree, freight: Freight, image: Image, t: string) {
    image.repository in freight
    && TagAt(out, FileOf(o, t, Holder(o, image)), image.tagKey) == freight[image.repository]
  }

  /** Neither the renderings nor the pin are a promoted tag already. */
  ghost predicate SeedsDiffer(o: Options, p: Publication, rules: Rules, freight: Freight) {
    forall image, t :: image in o.images && t in Targets(o, p) && image.repository in freight ==>
      && rules.pin != freight[image.repository]
      && (image.tagKey in p.values(t, Holder(o, image)) ==>
           p.values(t, Holder(o, image))[image.tagKey] != freight[image.repository])
  }

  /** The publisher puts back what it reads under the key. */
  predicate PutsBack(o: Options, rules: Rules, image: Image) {
    rules.managed && rules.pin == "" && image.tagKey in rules.keys(Holder(o, image))
  }

  /** The file read for a cluster of the new layout is one the promotion wrote the tag to,
      or one of a single-source app that an earlier layout left with the same tag. */
  predicate HoldsTag(o: Options, next: Options, tree: Tree, freight: Freight, image: Image, t: string) {
    if Place(next, t) in Places(o) then Wins(o, freight, image)
    else !o.composed && image.repository in freight
         && TagAt(tree, FileOf(next, t, Holder(o, image)), image.tagKey) == freight[image.repository]
  }

  ghost predicate Promotable(o: Options, p: Publication, freight: Freight) {
    (o.composed ==> AllTemplated(o.components)) && OwnersExist(o) && SameCluster(o, p) && FullFreight(o, freight)
  }

  lemma OneTagSurvives(o: Options, p: Publication, tree: Tree, freight: Freight,
                       next: Options, p': Publication, rules: Rules, image: Image, t: string)
    requires Promotable(o, p, freight)
    requires next == o.(clusters := next.clusters) && SeedsDiffer(next, p', rules, freight)
    requires image in o.images && t in Targets(next, p')
    ensures TagAt(PublishedEnv(next, p', rules, true, false, AfterPromotion(o, p, tree, freight)),
                  FileOf(next, t, Holder(o, image)), image.tagKey) == freight[image.repository]
            <==> PutsBack(o, rules, image) && HoldsTag(o, next, tree, freight, image, t)
  {
    var middle, c, tag := AfterPromotion(o, p, tree, freight), Holder(o, image), freight[image.repository];
    HolderHasFile(o, image);
    assert FileNames(next) == FileNames(o) && Holder(next, image) == c;
    KeepsTagExactly(next, p', rules, middle, t, c, image.tagKey, tag);
    if o.composed {
      assert FileOf(next, t, c) == ValuesPath(o, Place(next, t), Some(image.owner));
      TagsWhereCommitted(o, p, tree, freight, image, Place(next, t));
    } else {
      assert FileOf(next, t, c) == ValuesPath(o, Place(next, t), None);
      SingleTagsWhereCommitted(o, p, tree, freight, image, Place(next, t));
    }
  }

  /** Publish, promote, then republish for other clusters: every promoted tag is kept
      exactly when the app is managed and unpinned, every image's key is one the
      publisher reads back (for a component one of its own selections), and every
      cluster's file keeps its place, which it does not between one shared file and
      one for each cluster, and has the tag; or, for a single-source app, which never
      removes values, the file left at the new place has the same tag by chance. */
  lemma PromotedTagsSurvive(o: Options, p: Publication, tree: Tree, freight: Freight,
                            clusters: seq<string>, p': Publication, rules: Rules)
    requires Promotable(o, p, freight)
    requires o.images != [] && SeedsDiffer(o.(clusters := clusters), p', rules, freight)
    ensures var next := o.(clusters := clusters);
            var out := PublishedEnv(next, p', rules, true, false, AfterPromotion(o, p, tree, freight));
            AllTagsSurvive(next, p', out, freight) <==>
              && rules.managed && rules.pin == ""
              && (forall image :: image in o.images ==> image.tagKey in rules.keys(Holder(o, image)))
              && forall image, t :: image in o.images && t in Targets(next, p') ==>
                   HoldsTag(o, next, tree, freight, image, t)
  {
    var next := o.(clusters := clusters);
    var out := PublishedEnv(next, p', rules, true, false, AfterPromotion(o, p, tree, freight));
    forall image, t | image in o.images && t in Targets(next, p')
      ensures Survives(next, out, freight, image, t) <==>
                PutsBack(o, rules, image) && HoldsTag(o, next, tree, freight, image, t)
    {
      OneTagSurvives(o, p, tree, freight, next, p', rules, image, t);
    }
    EachSurvives(o, next, p', rules, tree, out, freight);
  }

  lemma EachSurvives(o: Options, next: Options, p: Publication, rules: Rules, tree: Tree, out: Tree, freight: Freight)
    requires next.images == o.images != []
    requires forall image, t :: image in o.images && t in Targets(next, p) ==>
               (Survives(next, out, freight, image, t) <==>
                 PutsBack(o, rules, image) && HoldsTag(o, next, tree, freight, image, t))
    ensures AllTagsSurvive(next, p, out, freight) <==>
              && rules.managed && rules.pin == ""
              && (forall image :: image in o.images ==> image.tagKey in rules.keys(Holder(o, image)))
              && forall image, t :: image in o.images && t in Targets(next, p) ==>
                   HoldsTag(o, next, tree, freight, image, t)
  {
    var first, t := o.images[0], Targets(next, p)[0];
    assert first in o.images && t in Targets(next, p);
    if AllTagsSurvive(next, p, out, freight) {
      assert Survives(next, out, freight, first, t);
      forall image | image in o.images ensures PutsBack(o, rules, image) {
        assert Survives(next, out, freight, image, t);
      }
    }
  }

  lemma HolderHasFile(o: Options, image: Image)
    requires OwnersExist(o) && image in o.images
    ensures Holder(o, image) in FileNames(o)
  {
    if o.composed {
      var i :| 0 <= i < |o.components| && o.components[i].name == image.owner;
      assert FileNames(o)[i] == image.owner;
    } else {
      assert FileNames(o)[0] == o.app;
    }
  }

  /** A single-source app published for several clusters, promoted, moved to one
      cluster, promoted again and moved back: the tags of the first promotion return. */
  lemma OldTagReturns(o: Options, p: Publication, tree: Tree, first: Freight, cluster: string, p1: Publication,
                      second: Freight, p2: Publication, rules: Rules, image: Image)
    requires !o.composed && |o.clusters| > 1 && rules.managed && rules.pin == ""
    requires image in o.images && image.tagKey in rules.keys(o.app)
    requires FullFreight(o, first) && FullFreight(o, second) && Wins(o, first, image)
    ensures var moved := o.(clusters := [cluster]);
            var out := PublishedEnv(o, p2, rules, true, false,
                         AfterPromotion(moved, p1, AfterPromotion(o, p, tree, first), second));
            forall t :: t in o.clusters ==> TagAt(out, FileOf(o, t, o.app), image.tagKey) == first[image.repository]
  {
    var moved := o.(clusters := [cluster]);
    var middle := AfterPromotion(o, p, tree, first);
    var last := AfterPromotion(moved, p1, middle, second);
    assert FileNames(o)[0] == o.app;
    forall t | t in o.clusters
      ensures TagAt(PublishedEnv(o, p2, rules, true, false, last), FileOf(o, t, o.app), image.tagKey)
           == first[image.repository]
    {
      PlaceOfTarget(o, p, t);
      SingleTagsWhereCommitted(o, p, tree, first, image, Some(t));
      assert Some(t) !in Places(moved);
      assert ValuesPath(moved, Some(t), None) == ValuesPath(o, Some(t), None);
      SingleTagsWhereCommitted(moved, p1, middle, second, image, Some(t));
      FileAfter(o, p2, rules, last, t, o.app);
      SettleKeeps(p2.values(t, o.app), last, FileOf(o, t, o.app), rules.keys(o.app), rules, image.tagKey);
    }
  }

  /** An image found in a component's values without a stored selection is watched and
      promoted, and its tag is lost by the next publish of a managed, unpinned app. */
  lemma FoundImageLosesTag(o: Options, p: Publication, tree: Tree, freight: Freight, p': Publication, rules: Rules,
                           image: Image)
    requires o.composed && AllTemplated(o.components) && OwnersExist(o) && SameCluster(o, p) && FullFreight(o, freight)
    requires rules.managed && rules.pin == "" && image in o.images && rules.keys(image.owner) == []
    requires SeedsDiffer(o, p', rules, freight)
    ensures forall t :: t in Targets(o, p') ==>
              TagAt(PublishedEnv(o, p', rules, true, false, AfterPromotion(o, p, tree, freight)),
                FileOf(o, t, image.owner), image.tagKey)
              != freight[image.repository]
  {
    HolderHasFile(o, image);
    forall t | t in Targets(o, p')
      ensures TagAt(PublishedEnv(o, p', rules, true, false, AfterPromotion(o, p, tree, freight)),
                FileOf(o, t, image.owner), image.tagKey)
              != freight[image.repository]
    {
      KeepsTagExactly(o, p', rules, AfterPromotion(o, p, tree, freight),
        t, image.owner, image.tagKey, freight[image.repository]);
    }
  }
}
