/** DeepMerge and DeepCopyMap as they run: on maps and slices that are shared by
    reference and changed in place.

    A `Shape` is a snapshot of a tree together with the object behind each of
    its nodes and, at each node, the objects of the whole subtree (`feet`). It
    lets a specification speak of the objects a tree is made of and of the plain
    value it stands for (`Erase`). */
module ValueHeap {
  import opened ValueTree
  import opened Wrappers

  class GoMap {
    var entries: map<string, Ref>

    constructor ()
      ensures entries == map[]
    {
      entries := map[];
    }
  }

  class GoSlice {
    var items: seq<Ref>

    constructor (items: seq<Ref>)
      ensures this.items == items
    {
      this.items := items;
    }
  }

  datatype Ref = ScalarRef(text: string) | SliceRef(slice: GoSlice) | MapRef(table: GoMap)

  datatype Shape =
    | ScalarShape(text: string)
    | SliceShape(slice: GoSlice, items: seq<Shape>, feet: set<object>)
    | MapShape(table: GoMap, entries: map<string, Shape>, all: set<object>)

  ghost function RefOf(t: Shape): Ref {
    match t
    case ScalarShape(text) => ScalarRef(text)
    case SliceShape(slice, _, _) => SliceRef(slice)
    case MapShape(table, _, _) => MapRef(table)
  }

  /** The objects of the tree. */
  ghost function Feet(t: Shape): set<object> {
    match t
    case ScalarShape(_) => {}
    case SliceShape(_, _, feet) => feet
    case MapShape(_, _, all) => all
  }

  ghost function Erase(t: Shape): Value {
    match t
    case ScalarShape(text) => Scalar(text)
    case SliceShape(_, items, _) => List(seq(|items|, i requires 0 <= i < |items| => Erase(items[i])))
    case MapShape(_, entries, _) => Map(map k | k in entries :: Erase(entries[k]))
  }

  /** Subtrees stay inside the tree, off its root, and apart from each other. */
  ghost predicate Apart(root: object, all: set<object>, entries: map<string, Shape>) {
    && root in all
    && (forall k :: k in entries ==> Feet(entries[k]) <= all && root !in Feet(entries[k]))
    && (forall j, k :: j in entries && k in entries && j != k ==> Feet(entries[j]) !! Feet(entries[k]))
  }

  ghost predicate ApartItems(root: object, all: set<object>, items: seq<Shape>) {
    && root in all
    && (forall i :: 0 <= i < |items| ==> Feet(items[i]) <= all && root !in Feet(items[i]))
    && (forall i, j :: 0 <= i < j < |items| ==> Feet(items[i]) !! Feet(items[j]))
  }

  /** The heap currently looks like t, and t is a proper tree: no object occurs
      twice in it. */
  ghost predicate Holds(t: Shape)
    reads Feet(t)
    decreases t
  {
    match t
    case ScalarShape(_) => true
    case SliceShape(slice, items, all) =>
      && ApartItems(slice, all, items)
      && |slice.items| == |items|
      && forall i :: 0 <= i < |items| ==> slice.items[i] == RefOf(items[i]) && Holds(items[i])
    case MapShape(table, entries, all) =>
      && Apart(table, all, entries)
      && table.entries.Keys == entries.Keys
      && forall k :: k in entries ==> table.entries[k] == RefOf(entries[k]) && Holds(entries[k])
  }

  /** The heap currently looks like t, which may use one object in several places. */
  ghost predicate Reads(t: Shape)
    reads Feet(t)
    decreases t
  {
    match t
    case ScalarShape(_) => true
    case SliceShape(slice, items, all) =>
      && slice in all && (forall i :: 0 <= i < |items| ==> Feet(items[i]) <= all)
      && |slice.items| == |items|
      && forall i :: 0 <= i < |items| ==> slice.items[i] == RefOf(items[i]) && Reads(items[i])
    case MapShape(table, entries, all) =>
      && table in all && (forall k :: k in entries ==> Feet(entries[k]) <= all)
      && table.entries.Keys == entries.Keys
      && forall k :: k in entries ==> table.entries[k] == RefOf(entries[k]) && Reads(entries[k])
  }

  lemma {:induction false} HoldsReads(t: Shape)
    requires Holds(t)
    ensures Reads(t)
    decreases t
  {
    match t
    case ScalarShape(_) =>
    case SliceShape(_, items, _) => forall i | 0 <= i < |items| ensures Reads(items[i]) { HoldsReads(items[i]); }
    case MapShape(_, entries, _) => forall k | k in entries ensures Reads(entries[k]) { HoldsReads(entries[k]); }
  }

  /** o is one of the maps and slices of the tree. */
  ghost predicate IsNode(t: Shape, o: object) {
    match t
    case ScalarShape(_) => false
    case SliceShape(slice, items, _) => o == slice || exists i :: 0 <= i < |items| && IsNode(items[i], o)
    case MapShape(table, entries, _) => o == table || exists k :: k in entries && IsNode(entries[k], o)
  }

  /** `Feet` misses none of them, so trees with disjoint feet share nothing. */
  lemma {:induction false} NodesInFeet(t: Shape, o: object)
    requires Reads(t) && IsNode(t, o)
    ensures o in Feet(t)
    decreases t
  {
    match t
    case ScalarShape(_) =>
    case SliceShape(slice, items, _) =>
      if o != slice { var i :| 0 <= i < |items| && IsNode(items[i], o); NodesInFeet(items[i], o); }
    case MapShape(table, entries, _) =>
      if o != table { var k :| k in entries && IsNode(entries[k], o); NodesInFeet(entries[k], o); }
  }

  // ---- DeepMerge ---------------------------------------------------------

  /** The objects the merged entry k may be made of. */
  ghost function Room(bt: Shape, ot: Shape, k: string): set<object>
    requires bt.MapShape? && ot.MapShape?
  {
    (if k in bt.entries then Feet(bt.entries[k]) else {}) + (if k in ot.entries then Feet(ot.entries[k]) else {})
  }

  /** The merged entries so far, each inside its own room. */
  ghost predicate Housed(bt: Shape, ot: Shape, kids: map<string, Shape>)
    requires bt.MapShape? && ot.MapShape?
  {
    forall k :: k in kids ==> Feet(kids[k]) <= Room(bt, ot, k)
  }

  lemma HousedApart(bt: Shape, ot: Shape, kids: map<string, Shape>)
    requires bt.MapShape? && ot.MapShape? && Housed(bt, ot, kids)
    requires Apart(bt.table, bt.all, bt.entries) && Apart(ot.table, ot.all, ot.entries) && bt.all !! ot.all
    ensures Apart(bt.table, bt.all + ot.all, kids)
  {
    forall j, k | j in kids && k in kids && j != k ensures Feet(kids[j]) !! Feet(kids[k]) {
      assert Room(bt, ot, j) !! Room(bt, ot, k);
    }
  }

  ghost function MergedEntry(bt: Shape, ot: Shape, k: string): Value
    requires bt.MapShape? && ot.MapShape? && k in bt.entries.Keys + ot.entries.Keys
  {
    if k !in ot.entries then Erase(bt.entries[k])
    else if k !in bt.entries then Erase(ot.entries[k])
    else Merge(Erase(bt.entries[k]), Erase(ot.entries[k]))
  }

  /** How far the merge has come: the keys in `todo` are still the base's own,
      the others hold the merged value. An entry only the overlay has is the
      overlay's subtree itself. */
  ghost predicate Progress(bt: Shape, ot: Shape, tr: Shape, todo: set<string>)
    requires bt.MapShape? && ot.MapShape?
  {
    && tr.MapShape? && tr.table == bt.table && tr.all == bt.all + ot.all
    && todo <= ot.entries.Keys
    && Housed(bt, ot, tr.entries)
    && (forall k :: k in tr.entries <==> k in bt.entries || (k in ot.entries && k !in todo))
    && (forall k :: k in tr.entries && k in todo ==> tr.entries[k] == bt.entries[k])
    && (forall k :: k in tr.entries && k !in todo ==> Erase(tr.entries[k]) == MergedEntry(bt, ot, k))
    && (forall k :: k in tr.entries && k !in bt.entries ==> tr.entries[k] == ot.entries[k])
  }

  lemma ProgressStarts(bt: Shape, ot: Shape)
    requires bt.MapShape? && ot.MapShape?
    ensures Progress(bt, ot, bt.(all := bt.all + ot.all), ot.entries.Keys)
  {}

  ghost predicate MergedKey(bt: Shape, ot: Shape, k: string, kid: Shape)
    requires bt.MapShape? && ot.MapShape? && k in ot.entries
  {
    && Feet(kid) <= Room(bt, ot, k)
    && Erase(kid) == MergedEntry(bt, ot, k)
    && (k !in bt.entries ==> kid == ot.entries[k])
  }

  lemma ProgressStep(bt: Shape, ot: Shape, tr: Shape, todo: set<string>, k: string, kid: Shape)
    requires bt.MapShape? && ot.MapShape? && Progress(bt, ot, tr, todo) && k in todo
    requires MergedKey(bt, ot, k, kid)
    ensures Progress(bt, ot, tr.(entries := tr.entries[k := kid]), todo - {k})
  {}

  lemma ProgressEnds(bt: Shape, ot: Shape, tr: Shape)
    requires bt.MapShape? && ot.MapShape? && Progress(bt, ot, tr, {})
    ensures Erase(tr) == Merge(Erase(bt), Erase(ot))
  {
    var left, right := Erase(tr).entries, Merge(Erase(bt), Erase(ot)).entries;
    assert tr.entries.Keys == bt.entries.Keys + ot.entries.Keys;
    forall k ensures k in left <==> k in right {
      assert k in left <==> k in tr.entries;
      assert k in right <==> k in bt.entries.Keys + ot.entries.Keys;
    }
    forall k | k in left ensures left[k] == right[k] {
      assert left[k] == Erase(tr.entries[k]);
      MergedEntryIs(bt, ot, k);
    }
    assert left == right;
  }

  lemma MergedEntryIs(bt: Shape, ot: Shape, k: string)
    requires bt.MapShape? && ot.MapShape? && k in bt.entries.Keys + ot.entries.Keys
    ensures k in Merge(Erase(bt), Erase(ot)).entries && Merge(Erase(bt), Erase(ot)).entries[k] == MergedEntry(bt, ot, k)
  {}

  lemma WithMoreRoom(t: Shape, more: set<object>)
    requires t.MapShape? && Holds(t)
    ensures Holds(t.(all := t.all + more))
  {}

  /** Merges overlay into base, in place. The result is made of base's own
      objects and, where the overlay supplied a whole subtree, of the overlay's:
      such an entry is the overlay's subtree itself and not a copy. The overlay is
      not written. */
  method MergeInto(base: GoMap, overlay: GoMap, ghost bt: Shape, ghost ot: Shape) returns (ghost tr: Shape)
    requires bt.MapShape? && bt.table == base && Holds(bt)
    requires ot.MapShape? && ot.table == overlay && Holds(ot)
    requires bt.all !! ot.all
    modifies bt.all
    ensures tr.MapShape? && tr.table == base && Holds(tr) && tr.all == bt.all + ot.all
    ensures Erase(tr) == Merge(Erase(bt), Erase(ot))
    ensures forall k :: k in tr.entries && k !in bt.entries ==> k in ot.entries && tr.entries[k] == ot.entries[k]
    ensures Holds(ot)
    decreases ot, 1
  {
    var todo := overlay.entries.Keys;
    tr := bt.(all := bt.all + ot.all);
    WithMoreRoom(bt, ot.all);
    ProgressStarts(bt, ot);
    while todo != {}
      invariant Holds(ot) && Progress(bt, ot, tr, todo) && Holds(tr)
      decreases todo
    {
      var k :| k in todo;
      ghost var kid := MergeKey(base, overlay, k, bt, ot, tr);
      ProgressStep(bt, ot, tr, todo, k, kid);
      tr := tr.(entries := tr.entries[k := kid]);
      todo := todo - {k};
    }
    ProgressEnds(bt, ot, tr);
  }

  /** One turn of the loop over the overlay's keys. */
  method MergeKey(base: GoMap, overlay: GoMap, k: string, ghost bt: Shape, ghost ot: Shape, ghost tr: Shape)
    returns (ghost kid: Shape)
    requires bt.MapShape? && bt.table == base && Apart(bt.table, bt.all, bt.entries)
    requires ot.MapShape? && ot.table == overlay && Holds(ot)
    requires bt.all !! ot.all
    requires tr.MapShape? && tr.table == base && tr.all == bt.all + ot.all && Holds(tr) && Housed(bt, ot, tr.entries)
    requires k in ot.entries && (k in tr.entries <==> k in bt.entries)
               && (k in tr.entries ==> tr.entries[k] == bt.entries[k])
    modifies bt.all
    ensures Holds(ot) && Holds(tr.(entries := tr.entries[k := kid]))
    ensures MergedKey(bt, ot, k, kid)
    decreases ot, 0
  {
    var ov := overlay.entries[k];
    if ov.MapRef? && k in base.entries && base.entries[k].MapRef? {
      kid := MergeInto(base.entries[k].table, ov.table, tr.entries[k], ot.entries[k]);
    } else {
      base.entries := base.entries[k := ov];
      kid := ot.entries[k];
    }
    HousedApart(bt, ot, tr.entries[k := kid]);
  }

  /** A nil map is null; it has no shape and stands for no entries. */
  datatype Root = Nil | Tree(t: Shape)

  ghost function RootFeet(r: Root): set<object> {
    if r.Nil? then {} else Feet(r.t)
  }

  ghost function RootValue(r: Root): Value {
    if r.Nil? then EMPTY else Erase(r.t)
  }

  ghost predicate IsRoot(m: GoMap?, r: Root)
    reads RootFeet(r)
  {
    if m == null then r.Nil? else r.Tree? && r.t.MapShape? && r.t.table == m && Holds(r.t)
  }

  ghost predicate IsRead(m: GoMap?, r: Root)
    reads RootFeet(r)
  {
    if m == null then r.Nil? else r.Tree? && r.t.MapShape? && r.t.table == m && Reads(r.t)
  }

  /** DeepMerge, which also accepts nil on either side. */
  method DeepMerge(base: GoMap?, overlay: GoMap?, ghost baseRoot: Root, ghost overlayRoot: Root)
    returns (m: GoMap, ghost r: Root)
    requires IsRoot(base, baseRoot) && IsRoot(overlay, overlayRoot) && RootFeet(baseRoot) !! RootFeet(overlayRoot)
    modifies RootFeet(baseRoot)
    ensures IsRoot(m, r) && IsRoot(overlay, overlayRoot)
    ensures base != null ==> m == base
    ensures RootValue(r) == Merge(RootValue(baseRoot), RootValue(overlayRoot))
    ensures base != null ==> RootFeet(r) == RootFeet(baseRoot) + RootFeet(overlayRoot)
    ensures base == null ==> exists root: GoMap :: fresh(root) && RootFeet(r) == {root} + RootFeet(overlayRoot)
  {
    ghost var bt;
    if base == null {
      m := new GoMap();
      bt := MapShape(m, map[], {m});
    } else {
      m := base;
      bt := baseRoot.t;
    }
    assert Erase(bt) == RootValue(baseRoot);
    if overlay == null {
      r := Tree(bt);
      assert Erase(bt).Map?;
      EmptyIsIdentity(Erase(bt));
    } else {
      ghost var tr := MergeInto(m, overlay, bt, overlayRoot.t);
      r := Tree(tr);
    }
  }

  // ---- DeepCopyMap -------------------------------------------------------

  lemma EraseSameEntries(t: Shape, u: Shape)
    requires t.MapShape? && u.MapShape? && t.entries.Keys == u.entries.Keys
    requires forall k :: k in t.entries ==> Erase(u.entries[k]) == Erase(t.entries[k])
    ensures Erase(u) == Erase(t)
  {
    assert Erase(u).entries.Keys == Erase(t).entries.Keys;
    forall k | k in t.entries ensures Erase(u).entries[k] == Erase(t).entries[k] {
      assert Erase(u.entries[k]) == Erase(t.entries[k]);
    }
  }

  /** Adds one entry to a map under construction. */
  method Put(c: GoMap, k: string, v: Ref, ghost u: Shape, ghost kid: Shape) returns (ghost u': Shape)
    requires u.MapShape? && u.table == c && Holds(u) && k !in u.entries
    requires v == RefOf(kid) && Holds(kid) && Feet(kid) !! u.all
    modifies c
    ensures u' == MapShape(c, u.entries[k := kid], u.all + Feet(kid)) && Holds(u')
  {
    c.entries := c.entries[k := v];
    u' := MapShape(c, u.entries[k := kid], u.all + Feet(kid));
    assert Apart(c, u'.all, u'.entries);
  }

  /** The copy has the entries not in todo, each standing for the same value. */
  ghost predicate Copying(t: Shape, u: Shape, todo: set<string>)
    requires t.MapShape? && u.MapShape?
  {
    todo <= t.entries.Keys && u.entries.Keys == t.entries.Keys - todo
    && forall k :: k in u.entries ==> Erase(u.entries[k]) == Erase(t.entries[k])
  }

  lemma CopyingStep(t: Shape, u: Shape, todo: set<string>, k: string, kid: Shape, u': Shape)
    requires t.MapShape? && u.MapShape? && u'.MapShape? && Copying(t, u, todo) && k in todo
    requires Erase(kid) == Erase(t.entries[k]) && u'.entries == u.entries[k := kid]
    ensures Copying(t, u', todo - {k})
  {}

  /** A copy made of new objects only, each place with its own, however the original
      shares them. */
  method DeepCopyMap(m: GoMap, ghost t: Shape) returns (c: GoMap, ghost u: Shape)
    requires t.MapShape? && t.table == m && Reads(t)
    ensures u.MapShape? && u.table == c && Holds(u) && fresh(u.all) && Erase(u) == Erase(t)
    decreases t, 1
  {
    c := new GoMap();
    u := MapShape(c, map[], {c});
    var todo := m.entries.Keys;
    while todo != {}
      invariant m.entries.Keys == t.entries.Keys && Reads(t)
      invariant u.MapShape? && u.table == c && Holds(u) && fresh(u.all)
      invariant Copying(t, u, todo)
      decreases todo
    {
      var k :| k in todo;
      u := CopyEntry(m, k, c, t, u, todo);
      todo := todo - {k};
    }
    EraseSameEntries(t, u);
  }

  method CopyEntry(m: GoMap, k: string, c: GoMap, ghost t: Shape, ghost u: Shape, ghost todo: set<string>)
    returns (ghost u': Shape)
    requires t.MapShape? && t.table == m && Reads(t) && k in todo
    requires u.MapShape? && u.table == c && Holds(u) && u.all !! t.all && Copying(t, u, todo)
    modifies c
    ensures Reads(t) && u'.MapShape? && u'.table == c && Holds(u') && fresh(u'.all - u.all)
    ensures Copying(t, u', todo - {k})
    decreases t, 0
  {
    var v, kid := DeepCopyValue(m.entries[k], t.entries[k]);
    u' := Put(c, k, v, u, kid);
    CopyingStep(t, u, todo, k, kid, u');
  }

  method DeepCopyValue(v: Ref, ghost t: Shape) returns (c: Ref, ghost u: Shape)
    requires v == RefOf(t) && Reads(t)
    ensures c == RefOf(u) && Holds(u) && fresh(Feet(u)) && Erase(u) == Erase(t)
    decreases t, 2
  {
    match v
    case ScalarRef(text) =>
      c, u := v, t;
    case MapRef(table) =>
      var copied;
      copied, u := DeepCopyMap(table, t);
      c := MapRef(copied);
    case SliceRef(slice) =>
      var copied;
      copied, u := DeepCopySlice(slice, t);
      c := SliceRef(copied);
  }

  method DeepCopySlice(slice: GoSlice, ghost t: Shape) returns (c: GoSlice, ghost u: Shape)
    requires t.SliceShape? && t.slice == slice && Reads(t)
    ensures u.SliceShape? && u.slice == c && Holds(u) && fresh(u.feet) && Erase(u) == Erase(t)
    decreases t, 1
  {
    c := new GoSlice([]);
    u := SliceShape(c, [], {c});
    for i := 0 to |slice.items|
      invariant Reads(t) && i <= |t.items|
      invariant u.SliceShape? && u.slice == c && Holds(u) && fresh(u.feet)
      invariant |u.items| == i
      invariant forall j :: 0 <= j < i ==> Erase(u.items[j]) == Erase(t.items[j])
    {
      var v, kid := DeepCopyValue(slice.items[i], t.items[i]);
      c.items := c.items + [v];
      u := SliceShape(c, u.items + [kid], u.feet + Feet(kid));
    }
    assert Erase(u).items == Erase(t).items;
  }

  method DeepCopyRoot(m: GoMap?, ghost r: Root) returns (c: GoMap?, ghost u: Root)
    requires IsRead(m, r)
    ensures IsRoot(c, u) && fresh(RootFeet(u)) && RootValue(u) == RootValue(r)
    ensures c == null <==> m == null
  {
    if m == null { return null, Nil; }
    ghost var t;
    c, t := DeepCopyMap(m, r.t);
    u := Tree(t);
  }

  // ---- computePlatformOverlays -------------------------------------------

  /** The value overlays stored with a template, and the org-level override of
      them. Maps from names to overlays are nil when None; a missing name reads
      as a nil overlay. */
  datatype Template = Template(defaults: GoMap?, envs: Option<map<string, GoMap?>>)
  datatype Override = Override(defaults: GoMap?, envs: Option<map<string, GoMap?>>, clusters: map<string, GoMap?>)

  function Lookup(m: Option<map<string, GoMap?>>, name: string): GoMap? {
    if m.Some? && name in m.value then m.value[name] else null
  }

  /** The stored trees behind a template and its override, as one env sees them. */
  datatype Stored = Stored(defaults: Root, env: Root, overrideDefaults: Root, overrideEnv: Root,
                           clusters: map<string, Root>)

  ghost function StoredFeet(st: Stored): set<object> {
    RootFeet(st.defaults) + RootFeet(st.env) + RootFeet(st.overrideDefaults) + RootFeet(st.overrideEnv)
  }

  ghost predicate IsStored(tmpl: Template, ov: Option<Override>, env: string, st: Stored)
    reads StoredFeet(st)
    reads set k, o | k in st.clusters && o in RootFeet(st.clusters[k]) :: o
  {
    && IsRead(tmpl.defaults, st.defaults)
    && IsRead(Lookup(tmpl.envs, env), st.env)
    && (ov.Some? ==>
         && IsRead(ov.value.defaults, st.overrideDefaults)
         && IsRead(Lookup(ov.value.envs, env), st.overrideEnv)
         && ov.value.clusters.Keys == st.clusters.Keys
         && forall k :: k in st.clusters ==> IsRead(ov.value.clusters[k], st.clusters[k]))
  }

  /** The overlays of one environment: the org override merged over the
      template. Nothing stored is written - the method has no `modifies` clause -
      and every object of every result is new, so no result shares a map or a
      slice with the template, with the override or with another result,
      whatever the stored trees share among themselves. */
  method ComputePlatformOverlays(tmpl: Template, ov: Option<Override>, env: string, ghost st: Stored)
    returns (def: GoMap?, envMap: GoMap?, clusters: map<string, GoMap?>,
             ghost dr: Root, ghost er: Root, ghost cr: map<string, Root>)
    requires IsStored(tmpl, ov, env, st)
    ensures IsRoot(def, dr) && IsRoot(envMap, er)
    ensures def == null <==> tmpl.defaults == null && ov.None?
    ensures envMap == null <==> Lookup(tmpl.envs, env) == null && (ov.None? || ov.value.envs.None?)
    ensures fresh(RootFeet(dr)) && fresh(RootFeet(er)) && RootFeet(dr) !! RootFeet(er)
    ensures RootValue(dr)
         == if ov.Some? then Merge(RootValue(st.defaults), RootValue(st.overrideDefaults)) else RootValue(st.defaults)
    ensures RootValue(er)
         == if ov.Some? && ov.value.envs.Some? then Merge(RootValue(st.env), RootValue(st.overrideEnv))
            else RootValue(st.env)
    ensures clusters.Keys == cr.Keys == if ov.Some? then st.clusters.Keys else {}
    ensures forall k :: k in clusters ==>
              && IsRoot(clusters[k], cr[k]) && RootValue(cr[k]) == RootValue(st.clusters[k])
              && fresh(RootFeet(cr[k])) && RootFeet(cr[k]) !! RootFeet(dr) && RootFeet(cr[k]) !! RootFeet(er)
    ensures forall j, k :: j in clusters && k in clusters && j != k ==> RootFeet(cr[j]) !! RootFeet(cr[k])
  {
    def, dr := Layer(tmpl.defaults, if ov.Some? then ov.value.defaults else null, ov.Some?,
                     st.defaults, st.overrideDefaults);
    var envOver := ov.Some? && ov.value.envs.Some?;
    envMap, er := Layer(Lookup(tmpl.envs, env), if envOver then Lookup(ov.value.envs, env) else null, envOver,
                        st.env, st.overrideEnv);
    clusters, cr := map[], map[];
    if ov.Some? {
      clusters, cr := CopyClusters(ov.value.clusters, st.clusters, RootFeet(dr) + RootFeet(er));
    }
  }

  /** A copy of the template's overlay with, if there is an override, a copy of
      the override merged on top. */
  method Layer(stored: GoMap?, over: GoMap?, overridden: bool, ghost sr: Root, ghost or: Root)
    returns (m: GoMap?, ghost r: Root)
    requires IsRead(stored, sr) && (overridden ==> IsRead(over, or))
    ensures IsRoot(m, r) && fresh(RootFeet(r))
    ensures RootValue(r) == if overridden then Merge(RootValue(sr), RootValue(or)) else RootValue(sr)
    ensures m == null <==> stored == null && !overridden
  {
    m, r := DeepCopyRoot(stored, sr);
    if overridden {
      var c, u := DeepCopyRoot(over, or);
      m, r := DeepMerge(m, c, r, u);
    }
  }

  method CopyClusters(stored: map<string, GoMap?>, ghost st: map<string, Root>, ghost avoid: set<object>)
    returns (clusters: map<string, GoMap?>, ghost cr: map<string, Root>)
    requires stored.Keys == st.Keys && forall k :: k in st ==> IsRead(stored[k], st[k])
    ensures clusters.Keys == cr.Keys == st.Keys
    ensures forall k :: k in cr ==>
              && IsRoot(clusters[k], cr[k]) && RootValue(cr[k]) == RootValue(st[k])
              && fresh(RootFeet(cr[k])) && RootFeet(cr[k]) !! avoid
    ensures forall j, k :: j in cr && k in cr && j != k ==> RootFeet(cr[j]) !! RootFeet(cr[k])
  {
    clusters, cr := map[], map[];
    var todo := stored.Keys;
    ghost var used := avoid;
    while todo != {}
      invariant todo <= st.Keys
      invariant clusters.Keys == cr.Keys == st.Keys - todo
      invariant avoid <= used
      invariant forall k :: k in cr ==>
                  && IsRoot(clusters[k], cr[k]) && RootValue(cr[k]) == RootValue(st[k])
                  && fresh(RootFeet(cr[k])) && RootFeet(cr[k]) !! avoid && RootFeet(cr[k]) <= used
      invariant forall j, k :: j in cr && k in cr && j != k ==> RootFeet(cr[j]) !! RootFeet(cr[k])
      decreases todo
    {
      var k :| k in todo;
      todo := todo - {k};
      var copied, r := DeepCopyRoot(stored[k], st[k]);
      clusters := clusters[k := copied];
      cr := cr[k := r];
      used := used + RootFeet(r);
    }
  }
}
