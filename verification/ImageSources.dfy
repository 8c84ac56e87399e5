/** Which images a composed app's Warehouse and template are built from: those found
    in each component's values, and stored selections of an explicit repository
    that were not found there. */
module ImageSources {
  import opened GitTree
  import opened Promotion
  import opened PromotionTemplate
  import opened Wrappers

  const DEFAULT_PATTERN := "^[0-9a-f]{7}$"
  const DEFAULT_STRATEGY := "NewestBuild"

  /** A stored selection; the repository is empty unless it predates discovery. */
  datatype Selection = Selection(repository: string, tagKey: string, allowTags: string, strategy: string)

  datatype Selecting = Selecting(name: string, selections: seq<Selection>)

  type Found = map<string, seq<Image>>

  function FoundFor(found: Found, name: string): seq<Image> {
    if name in found then found[name] else []
  }

  ghost predicate HasKey(images: seq<Image>, key: string) {
    exists i :: 0 <= i < |images| && images[i].tagKey == key
  }

  /** Watched directly: an explicit repository whose key was not found. */
  ghost predicate IsLegacy(s: Selection, images: seq<Image>) {
    s.repository != "" && !HasKey(images, s.tagKey)
  }

  function ImageOf(name: string, s: Selection): Image {
    Image(name, s.repository, s.tagKey, if s.allowTags == "" then DEFAULT_PATTERN else s.allowTags,
          if s.strategy == "" then DEFAULT_STRATEGY else s.strategy)
  }

  ghost function Legacy(name: string, selections: seq<Selection>, images: seq<Image>): seq<Image> {
    if selections == [] then []
    else
      var last := selections[|selections| - 1];
      Legacy(name, selections[..|selections| - 1], images)
      + if IsLegacy(last, images) then [ImageOf(name, last)] else []
  }

  ghost function CollectedFor(c: Selecting, found: Found): seq<Image> {
    FoundFor(found, c.name) + Legacy(c.name, c.selections, FoundFor(found, c.name))
  }

  ghost function Collected(cs: seq<Selecting>, found: Found): seq<Image> {
    if cs == [] then [] else Collected(cs[..|cs| - 1], found) + CollectedFor(cs[|cs| - 1], found)
  }

  method CollectComponentImages(cs: seq<Selecting>, found: Found) returns (out: seq<Image>)
    ensures out == Collected(cs, found)
    ensures forall x :: x in out <==> exists c :: c in cs && ComesFrom(c, found, x)
  {
    out := [];
    for i := 0 to |cs|
      invariant out == Collected(cs[..i], found)
    {
      var more := ComponentImages(cs[i], FoundFor(found, cs[i].name));
      out := out + more;
      assert cs[..i + 1][..i] == cs[..i];
    }
    assert cs[..|cs|] == cs;
    forall x ensures x in out <==> exists c :: c in cs && ComesFrom(c, found, x) { CollectedExactly(cs, found, x); }
  }

  method ComponentImages(c: Selecting, images: seq<Image>) returns (out: seq<Image>)
    ensures out == images + Legacy(c.name, c.selections, images)
  {
    out := [];
    var byKey: set<string> := {};
    for i := 0 to |images|
      invariant out == images[..i]
      invariant forall key :: key in byKey <==> exists k :: 0 <= k < i && images[k].tagKey == key
    {
      byKey := byKey + {images[i].tagKey};
      out := out + [images[i]];
    }
    for i := 0 to |c.selections|
      invariant out == images + Legacy(c.name, c.selections[..i], images)
    {
      var s := c.selections[i];
      assert c.selections[..i + 1][..i] == c.selections[..i];
      if s.repository == "" || s.tagKey in byKey { continue; }
      out := out + [ImageOf(c.name, s)];
    }
    assert c.selections[..|c.selections|] == c.selections;
  }

  // ---- two repositories under one key ------------------------------------

  lemma {:induction false} LegacyMembers(name: string, selections: seq<Selection>, images: seq<Image>, x: Image)
    ensures x in Legacy(name, selections, images) <==>
              exists s :: s in selections && IsLegacy(s, images) && x == ImageOf(name, s)
  {
    if selections == [] {
    } else {
      var n := |selections| - 1;
      LegacyMembers(name, selections[..n], images, x);
      assert forall s :: s in selections <==> s in selections[..n] || s == selections[n] by {
        assert selections == selections[..n] + [selections[n]];
      }
    }
  }

  lemma {:induction false} CollectedMembers(cs: seq<Selecting>, found: Found, x: Image)
    ensures x in Collected(cs, found) <==> exists c :: c in cs && x in CollectedFor(c, found)
  {
    if cs == [] {
    } else {
      var n := |cs| - 1;
      CollectedMembers(cs[..n], found, x);
      assert forall c :: c in cs <==> c in cs[..n] || c == cs[n] by { assert cs == cs[..n] + [cs[n]]; }
    }
  }

  /** A selection watched directly, as an image: its own repository and key, and the
      usual tags and strategy where it names none. */
  ghost predicate WatchedAs(c: Selecting, found: Found, s: Selection, x: Image) {
    && s in c.selections && s.repository != ""
    && (c.name in found ==> forall y :: y in found[c.name] ==> y.tagKey != s.tagKey)
    && x.owner == c.name && x.repository == s.repository && x.tagKey == s.tagKey
    && x.allowTags == (if s.allowTags != "" then s.allowTags else "^[0-9a-f]{7}$")
    && x.strategy == (if s.strategy != "" then s.strategy else "NewestBuild")
  }

  ghost predicate ComesFrom(c: Selecting, found: Found, x: Image) {
    (c.name in found && x in found[c.name]) || exists s :: WatchedAs(c, found, s, x)
  }

  /** Nothing else is collected, and nothing of it is missing. */
  lemma CollectedExactly(cs: seq<Selecting>, found: Found, x: Image)
    ensures x in Collected(cs, found) <==> exists c :: c in cs && ComesFrom(c, found, x)
  {
    CollectedMembers(cs, found, x);
    forall c ensures x in CollectedFor(c, found) <==> ComesFrom(c, found, x) { CollectedFrom(c, found, x); }
  }

  lemma CollectedFrom(c: Selecting, found: Found, x: Image)
    ensures x in CollectedFor(c, found) <==> ComesFrom(c, found, x)
  {
    var images := FoundFor(found, c.name);
    LegacyMembers(c.name, c.selections, images, x);
    forall s: Selection ensures HasKey(images, s.tagKey) <==> exists y :: y in images && y.tagKey == s.tagKey {
      if y :| y in images && y.tagKey == s.tagKey { var i :| 0 <= i < |images| && images[i] == y; }
      if i :| 0 <= i < |images| && images[i].tagKey == s.tagKey { assert images[i] in images; }
    }
    if s :| s in c.selections && IsLegacy(s, images) && x == ImageOf(c.name, s) { assert WatchedAs(c, found, s, x); }
    if s :| WatchedAs(c, found, s, x) { assert IsLegacy(s, images) && x == ImageOf(c.name, s); }
  }

  /** Discovery looks each key up in one set of values and names the component. */
  ghost predicate Discovered(found: Found) {
    forall name, a, b :: name in found && a in found[name] && b in found[name] ==>
      a.owner == name && (a.tagKey == b.tagKey ==> a.repository == b.repository)
  }

  ghost predicate DistinctSelecting(cs: seq<Selecting>) {
    forall c, d :: c in cs && d in cs && c.name == d.name ==> c == d
  }

  /** Two images of one values file write one key from different repositories. */
  ghost predicate Conflict(images: seq<Image>) {
    exists a, b :: a in images && b in images && a.owner == b.owner
      && a.tagKey == b.tagKey && a.repository != b.repository
  }

  ghost predicate SelectsTwice(c: Selecting, found: Found) {
    exists s, t :: s in c.selections && t in c.selections && s.tagKey == t.tagKey && s.repository != t.repository
                   && IsLegacy(s, FoundFor(found, c.name)) && IsLegacy(t, FoundFor(found, c.name))
  }

  /** The publisher hands the builders such images exactly when some component has two
      explicit repositories under a key that was not found in its values. */
  lemma ConflictExactly(cs: seq<Selecting>, found: Found)
    requires Discovered(found) && DistinctSelecting(cs)
    ensures Conflict(Collected(cs, found)) <==> exists c :: c in cs && SelectsTwice(c, found)
  {
    var images := Collected(cs, found);
    if a, b :|
      && a in images && b in images
      && a.owner == b.owner && a.tagKey == b.tagKey && a.repository != b.repository
    {
      CollectedMembers(cs, found, a);
      CollectedMembers(cs, found, b);
      var c :| c in cs && a in CollectedFor(c, found);
      var d :| d in cs && b in CollectedFor(d, found);
      OwnedBy(c, found, a);
      OwnedBy(d, found, b);
      assert c == d;
      BothLegacy(c, found, a, b);
    }
    if c :| c in cs && SelectsTwice(c, found) {
      var s, t :| s in c.selections && t in c.selections && s.tagKey == t.tagKey && s.repository != t.repository
                  && IsLegacy(s, FoundFor(found, c.name)) && IsLegacy(t, FoundFor(found, c.name));
      var a, b := ImageOf(c.name, s), ImageOf(c.name, t);
      LegacyMembers(c.name, c.selections, FoundFor(found, c.name), a);
      LegacyMembers(c.name, c.selections, FoundFor(found, c.name), b);
      CollectedMembers(cs, found, a);
      CollectedMembers(cs, found, b);
      assert a in images && b in images;
    }
  }

  lemma OwnedBy(c: Selecting, found: Found, x: Image)
    requires Discovered(found) && x in CollectedFor(c, found)
    ensures x.owner == c.name
  {
    LegacyMembers(c.name, c.selections, FoundFor(found, c.name), x);
  }

  lemma BothLegacy(c: Selecting, found: Found, a: Image, b: Image)
    requires Discovered(found) && a in CollectedFor(c, found) && b in CollectedFor(c, found)
    requires a.tagKey == b.tagKey && a.repository != b.repository
    ensures SelectsTwice(c, found)
  {
    var images := FoundFor(found, c.name);
    LegacyMembers(c.name, c.selections, images, a);
    LegacyMembers(c.name, c.selections, images, b);
    forall x | x in images ensures HasKey(images, x.tagKey) {
      var i :| 0 <= i < |images| && images[i] == x;
    }
    assert !(a in images && b in images);
    var s :| s in c.selections && IsLegacy(s, images) && a == ImageOf(c.name, s);
    var t :| t in c.selections && IsLegacy(t, images) && b == ImageOf(c.name, t);
  }

  /** Without such a component a promotion carries every tag, unless keys of one file lie
      one below the other. */
  lemma NoConflictCarriesAll(o: Options, cs: seq<Selecting>, found: Found, before: Tree, after: Tree, freight: Freight)
    requires o.composed && o.images == Collected(cs, found) && Discovered(found) && DistinctSelecting(cs)
    requires forall c :: c in cs ==> !SelectsTwice(c, found)
    requires Ready(o, before, freight) && Promoted(o, before, after, freight)
    ensures AllCarried(o, after, freight) <==> KeysApart(o)
  {
    ConflictExactly(cs, found);
    assert !Conflict(o.images);
    forall a, b | a in o.images && b in o.images && SlotOf(o, a) == SlotOf(o, b) && a.tagKey == b.tagKey
      ensures a.repository == b.repository
    {
    }
    EveryTagCarried(o, before, after, freight);
  }

  /** One of two components has two such selections and nothing was found: the promotion
      goes through, and the first one's tag is in no file. */
  lemma SharedKeyLosesTag(o: Options, name: string, other: string, s: Selection, t: Selection, tree: Tree,
                          freight: Freight)
    requires s.repository != "" && t.repository != "" && s.tagKey == t.tagKey
    requires o.composed && o.images == Collected([Selecting(name, [s, t]), Selecting(other, [])], map[])
    requires Ready(o, tree, freight) && s.repository in freight && t.repository in freight
    requires freight[s.repository] != freight[t.repository]
    ensures var r := RunSteps(Program(o), Fresh(tree), freight);
            r.Done? && forall place :: place in Places(o) ==>
              !Carries(o, r.machine.remote, ImageOf(name, s), place, freight[s.repository])
  {
    var a, b := ImageOf(name, s), ImageOf(name, t);
    TwoSelections(name, other, s, t);
    OneCommitOrNone(o, tree, freight);
    assert a in o.images;
    SecondIsLast(a, b);
    var after := RunSteps(Program(o), Fresh(tree), freight).machine.remote;
    forall place | place in Places(o) ensures !Carries(o, after, a, place, freight[s.repository]) {
      TagLostExactly(o, tree, after, freight, a, place);
    }
  }

  lemma SecondIsLast(a: Image, b: Image)
    requires a.owner == b.owner && a.tagKey == b.tagKey
    ensures LastTouching(ImagesFor([a, b], Some(a.owner)), a.tagKey) == Some(b)
  {
    assert ImagesFor([a], Some(a.owner)) == [a] by { assert [a][..0] == []; }
    assert ImagesFor([a, b], Some(a.owner)) == [a, b] by { assert [a, b][..1] == [a]; }
  }

  lemma TwoSelections(name: string, other: string, s: Selection, t: Selection)
    requires s.repository != "" && t.repository != ""
    ensures Collected([Selecting(name, [s, t]), Selecting(other, [])], map[]) == [ImageOf(name, s), ImageOf(name, t)]
  {
    var c, d := Selecting(name, [s, t]), Selecting(other, []);
    assert [c, d][..1] == [c] && CollectedFor(d, map[]) == [];
    assert [s, t][..1] == [s] && [s][..0] == [];
    assert Legacy(name, [], []) == [];
    assert Legacy(name, [s], []) == [ImageOf(name, s)];
    assert [c][..0] == [] && Collected([], map[]) == [];
    assert CollectedFor(c, map[]) == [] + Legacy(name, [s, t], []);
  }
}
