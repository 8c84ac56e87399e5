/** Helm value overlays as trees: maps are merged key by key, everything else
    (scalars and lists) replaces what is below it. */
module ValueTree {

  datatype Value = Scalar(text: string) | List(items: seq<Value>) | Map(entries: map<string, Value>)

  function Merge(base: Value, overlay: Value): Value
    decreases overlay
  {
    if base.Map? && overlay.Map? then
      Map(map k | k in base.entries.Keys + overlay.entries.Keys ::
            if k !in overlay.entries then base.entries[k]
            else if k !in base.entries then overlay.entries[k]
            else Merge(base.entries[k], overlay.entries[k]))
    else overlay
  }

  const EMPTY := Map(map[])

  // ---- a value as what it shows at each path -----------------------------

  type Path = seq<string>

  datatype Sight = Absent | Inner | Leaf(value: Value)

  function See(v: Value, p: Path): Sight {
    if p == [] then (if v.Map? then Inner else Leaf(v))
    else if v.Map? && p[0] in v.entries then See(v.entries[p[0]], p[1..])
    else Absent
  }

  /** A proper prefix of p ends at a leaf of v. */
  predicate Blocks(v: Value, p: Path) {
    p != [] && (!v.Map? || (p[0] in v.entries && Blocks(v.entries[p[0]], p[1..])))
  }

  /** What a value shows at its paths is all there is to it. */
  lemma {:induction false} Extensional(a: Value, b: Value)
    requires forall p :: See(a, p) == See(b, p)
    ensures a == b
    decreases a
  {
    assert See(a, []) == See(b, []);
    if a.Map? {
      forall k ensures k in a.entries <==> k in b.entries {
        assert See(a, [k]) == See(b, [k]);
        assert k in a.entries ==> See(a, [k]) == See(a.entries[k], [k][1..]) && [k][1..] == [];
        assert k in b.entries ==> See(b, [k]) == See(b.entries[k], [k][1..]) && [k][1..] == [];
      }
      forall k | k in a.entries ensures a.entries[k] == b.entries[k] {
        forall p ensures See(a.entries[k], p) == See(b.entries[k], p) {
          assert ([k] + p)[0] == k && ([k] + p)[1..] == p;
          assert See(a, [k] + p) == See(b, [k] + p);
        }
        Extensional(a.entries[k], b.entries[k]);
      }
    }
  }

  /** The path-by-path meaning of a merge: a leaf of the overlay hides all below
      it, what the overlay shows wins, and the rest is the base's. */
  lemma {:induction false} MergeAt(base: Value, overlay: Value, p: Path)
    ensures See(Merge(base, overlay), p) ==
            if Blocks(overlay, p) then Absent
            else if See(overlay, p).Absent? then See(base, p)
            else See(overlay, p)
    decreases p
  {
    if p != [] && base.Map? && overlay.Map? && p[0] in base.entries && p[0] in overlay.entries {
      MergeAt(base.entries[p[0]], overlay.entries[p[0]], p[1..]);
    } else if p != [] {
      NothingBelowLeaf(overlay, p);
    }
  }

  lemma {:induction false} NothingBelowLeaf(v: Value, p: Path)
    ensures Blocks(v, p) ==> See(v, p).Absent?
  {
    if p != [] && v.Map? && p[0] in v.entries { NothingBelowLeaf(v.entries[p[0]], p[1..]); }
  }

  lemma {:induction false} MergeBlocks(base: Value, overlay: Value, p: Path)
    ensures Blocks(Merge(base, overlay), p) ==> Blocks(base, p) || Blocks(overlay, p)
    ensures Blocks(overlay, p) ==> Blocks(Merge(base, overlay), p)
    decreases p
  {
    if p != [] && base.Map? && overlay.Map? && p[0] in base.entries && p[0] in overlay.entries {
      MergeBlocks(base.entries[p[0]], overlay.entries[p[0]], p[1..]);
    }
  }

  // ---- laws --------------------------------------------------------------

  lemma EmptyIsIdentity(v: Value)
    requires v.Map?
    ensures Merge(EMPTY, v) == v && Merge(v, EMPTY) == v
  {
    assert Merge(EMPTY, v).entries == v.entries;
    assert Merge(v, EMPTY).entries == v.entries;
  }

  /** Merging the same overlay twice is merging it once. */
  lemma Absorbing(base: Value, overlay: Value)
    ensures Merge(Merge(base, overlay), overlay) == Merge(base, overlay)
  {
    forall p ensures See(Merge(Merge(base, overlay), overlay), p) == See(Merge(base, overlay), p) {
      MergeAt(Merge(base, overlay), overlay, p);
      MergeAt(base, overlay, p);
    }
    Extensional(Merge(Merge(base, overlay), overlay), Merge(base, overlay));
  }

  lemma Idempotent(v: Value)
    ensures Merge(v, v) == v
  {
    forall p ensures See(Merge(v, v), p) == See(v, p) {
      MergeAt(v, v, p);
      NothingBelowLeaf(v, p);
    }
    Extensional(Merge(v, v), v);
  }

  // ---- when the grouping of three layers matters -------------------------

  /** On the way to p, b has a leaf at a point where c has a map. */
  predicate Reopens(b: Value, c: Value, p: Path) {
    && p != [] && c.Map?
    && (b.Map? ==> p[0] in b.entries && p[0] in c.entries && Reopens(b.entries[p[0]], c.entries[p[0]], p[1..]))
  }

  /** The lowest layer shows something at p, the middle one cuts the way there
      with a leaf, and the top one turns that leaf into a map again without
      saying anything about p itself. Merged left to right the entry is gone,
      right to left it is kept. */
  predicate LosesAt(a: Value, b: Value, c: Value, p: Path) {
    !See(a, p).Absent? && Reopens(b, c, p) && See(c, p).Absent? && !Blocks(c, p)
  }

  lemma {:induction false} ReopensUnblocks(b: Value, c: Value, p: Path)
    requires !Blocks(c, p)
    ensures Reopens(b, c, p) <==> Blocks(b, p) && !Blocks(Merge(b, c), p)
    decreases p
  {
    if p != [] && b.Map? && c.Map? && p[0] in b.entries && p[0] in c.entries {
      ReopensUnblocks(b.entries[p[0]], c.entries[p[0]], p[1..]);
    }
  }

  lemma GroupingAt(a: Value, b: Value, c: Value, p: Path)
    ensures See(Merge(Merge(a, b), c), p) != See(Merge(a, Merge(b, c)), p) <==> LosesAt(a, b, c, p)
  {
    MergeAt(Merge(a, b), c, p);
    MergeAt(a, b, p);
    MergeAt(a, Merge(b, c), p);
    MergeAt(b, c, p);
    MergeBlocks(b, c, p);
    if !Blocks(c, p) { ReopensUnblocks(b, c, p); }
    NothingBelowLeaf(b, p);
    NothingBelowLeaf(c, p);
    NothingBelowLeaf(Merge(b, c), p);
  }

  /** The two groupings of three layers agree exactly when no entry of the
      lowest one is lost this way. */
  lemma Associativity(a: Value, b: Value, c: Value)
    ensures Merge(Merge(a, b), c) == Merge(a, Merge(b, c)) <==> !exists p :: LosesAt(a, b, c, p)
  {
    var left, right := Merge(Merge(a, b), c), Merge(a, Merge(b, c));
    forall p ensures See(left, p) != See(right, p) <==> LosesAt(a, b, c, p) { GroupingAt(a, b, c, p); }
    if !exists p :: LosesAt(a, b, c, p) {
      forall p ensures See(left, p) == See(right, p) { assert !LosesAt(a, b, c, p); }
      Extensional(left, right);
    }
  }

  /** A loss needs a point where the outer layers have maps and the middle one
      a leaf; without such a point the layers associate. */
  lemma {:induction false} LossNeedsMapLeafMap(a: Value, b: Value, c: Value, p: Path) returns (n: nat)
    requires LosesAt(a, b, c, p)
    ensures n < |p| && See(a, p[..n]).Inner? && See(b, p[..n]).Leaf? && See(c, p[..n]).Inner?
    decreases p
  {
    if !b.Map? {
      n := 0;
    } else {
      n := LossNeedsMapLeafMap(a.entries[p[0]], b.entries[p[0]], c.entries[p[0]], p[1..]);
      n := n + 1;
      assert p[..n][1..] == p[1..][..n - 1];
    }
  }

  lemma GroupingMatters()
    ensures exists a: Value, b: Value, c: Value ::
              a.Map? && b.Map? && c.Map? && Merge(Merge(a, b), c) != Merge(a, Merge(b, c))
  {
    var a := Map(map["k" := Map(map["x" := Scalar("1")])]);
    var b := Map(map["k" := Scalar("off")]);
    var c := Map(map["k" := EMPTY]);
    var p := ["k", "x"];
    assert p[1..] == ["x"] && ["x"][1..] == [];
    assert See(a, p) == See(a.entries["k"], ["x"]) == See(Scalar("1"), []);
    assert See(EMPTY, ["x"]).Absent? && !Blocks(EMPTY, ["x"]);
    assert See(c, p) == See(c.entries["k"], p[1..]) && Blocks(c, p) == Blocks(c.entries["k"], p[1..]);
    assert Reopens(b.entries["k"], c.entries["k"], ["x"]);
    assert LosesAt(a, b, c, p);
    Associativity(a, b, c);
  }
}
