/** The vault items an app's secrets come from: one list in order of precedence,
    read from the front by the merge of the app secret and from the back by the
    projection of a component's own selection. */
module SecretItems {
  import Lex
  import opened Sorting
  import opened Wrappers

  datatype Backend = Kubernetes | OnePassword | Vault

  datatype Band = Global | Env | Cluster | Preview | PreviewPR

  datatype Tier = Shared | Project | Stack | App

  /** A place in the precedence order. */
  datatype Slot = Slot(band: Band, tier: Tier)

  /** Where an item lives: the remote key and the store it is read from. */
  datatype Ref = Ref(key: string, store: string)

  datatype Item = Item(slot: Slot, ref: Ref, keys: seq<string>)

  datatype Params = Params(
    app: string, env: string, project: string, stack: string, cluster: string,
    isPreview: bool, previewName: string, backend: Backend,
    presence: set<Slot>, keys: Slot -> seq<string>)

  // ---- names -------------------------------------------------------------

  function EnvSuffix(env: string): string { "env-" + env }

  /** The scope-specific tail of an item name. */
  function Suffix(p: Params, s: Slot): string {
    match s.tier
    case Project => "project-" + p.project + (if s.band.Global? then "" else "-env-" + p.env)
    case Stack => "stack-" + p.project + "-" + p.stack + (if s.band.Global? then "" else "-env-" + p.env)
    case _ =>
      match s.band
      case Global => "global"
      case Env => EnvSuffix(p.env)
      case Cluster => "cluster-" + p.cluster
      case Preview => "env-preview"
      case PreviewPR => "env-preview-" + p.previewName
  }

  function ItemName(p: Params, s: Slot): string {
    if s.tier.App? then (if p.project != "" then p.project + "-" + p.app else p.app) + "-" + Suffix(p, s)
    else "shared-" + Suffix(p, s)
  }

  function VaultName(p: Params, s: Slot): string {
    if s.band.Global? then "suparship-secrets-global" else "suparship-secrets-env-" + p.env
  }

  function StoreFor(p: Params, s: Slot): string {
    match p.backend
    case Kubernetes => if s.band.Global? then "suparship-store-global" else "suparship-store-" + EnvSuffix(p.env)
    case _ => "suparship-store"
  }

  function RefFor(p: Params, s: Slot): Ref {
    Ref(if p.backend.Vault? then VaultName(p, s) + "/" + ItemName(p, s) else ItemName(p, s), StoreFor(p, s))
  }

  // ---- the list ----------------------------------------------------------

  /** Present, and within the scopes these parameters have. */
  predicate Emitted(p: Params, s: Slot) {
    s in p.presence
    && match s.band
       case Global => (s.tier.Project? ==> p.project != "") && (s.tier.Stack? ==> p.stack != "")
       case Env => (s.tier.Project? ==> p.project != "") && (s.tier.Stack? ==> p.stack != "")
       case Cluster => p.cluster != "" && (s.tier.Shared? || s.tier.App?)
       case Preview => p.isPreview && (s.tier.Shared? || s.tier.App?)
       case PreviewPR => p.isPreview && p.previewName != "" && (s.tier.Shared? || s.tier.App?)
  }

  function BandRank(b: Band): nat {
    match b case Global => 0 case Env => 1 case Cluster => 2 case Preview => 3 case PreviewPR => 4
  }

  function TierRank(t: Tier): nat {
    match t case Shared => 0 case Project => 1 case Stack => 2 case App => 3
  }

  /** Band decides, then tier. */
  predicate Before(a: Slot, b: Slot) {
    BandRank(a.band) < BandRank(b.band) || (a.band == b.band && TierRank(a.tier) < TierRank(b.tier))
  }

  ghost predicate Ordered(items: seq<Item>) {
    forall i, j :: 0 <= i < j < |items| ==> Before(items[i].slot, items[j].slot)
  }

  ghost predicate HasSlot(items: seq<Item>, s: Slot) {
    exists i :: 0 <= i < |items| && items[i].slot == s
  }

  /** The list as far as the slots before a limit. */
  ghost predicate UpTo(p: Params, items: seq<Item>, limit: Slot) {
    && Ordered(items)
    && (forall i :: 0 <= i < |items| ==> items[i] == ItemFor(p, items[i].slot) && Before(items[i].slot, limit))
    && (forall s :: Before(s, limit) ==> (HasSlot(items, s) <==> Emitted(p, s)))
  }

  function ItemFor(p: Params, s: Slot): Item {
    Item(s, RefFor(p, s), p.keys(s))
  }

  /** The whole list: every emitted slot once, in order, with its own item. */
  ghost predicate Lists(p: Params, items: seq<Item>) {
    && Ordered(items)
    && (forall i :: 0 <= i < |items| ==> items[i] == ItemFor(p, items[i].slot))
    && (forall s :: HasSlot(items, s) <==> Emitted(p, s))
  }

  function Next(s: Slot): Slot {
    match s.tier
    case Shared => Slot(s.band, Project)
    case Project => Slot(s.band, Stack)
    case Stack => Slot(s.band, App)
    case App =>
      Slot(match s.band case Global => Env case Env => Cluster case Cluster => Preview case _ => PreviewPR, Shared)
  }

  lemma NextIsNext(s: Slot)
    requires s != Slot(PreviewPR, App)
    ensures forall t :: Before(t, Next(s)) <==> Before(t, s) || t == s
  {
  }

  lemma Extend(p: Params, items: seq<Item>, s: Slot, after: seq<Item>)
    requires UpTo(p, items, s)
    requires after == items + if Emitted(p, s) then [ItemFor(p, s)] else []
    ensures Ordered(after)
    ensures forall i :: 0 <= i < |after| ==>
              after[i] == ItemFor(p, after[i].slot) && (Before(after[i].slot, s) || after[i].slot == s)
    ensures forall t :: Before(t, s) || t == s ==> (HasSlot(after, t) <==> Emitted(p, t))
  {
    forall t | Before(t, s) || t == s ensures HasSlot(after, t) <==> Emitted(p, t) {
      if HasSlot(items, t) {
        var i :| 0 <= i < |items| && items[i].slot == t;
        assert after[i].slot == t;
      }
      if HasSlot(after, t) {
        var i :| 0 <= i < |after| && after[i].slot == t;
        if i < |items| { assert items[i].slot == t; }
      }
      if Emitted(p, s) { assert after[|items|].slot == s; }
    }
  }

  lemma Step(p: Params, items: seq<Item>, s: Slot, after: seq<Item>)
    requires UpTo(p, items, s) && s != Slot(PreviewPR, App)
    requires after == items + if Emitted(p, s) then [ItemFor(p, s)] else []
    ensures UpTo(p, after, Next(s))
  {
    Extend(p, items, s, after);
    NextIsNext(s);
  }

  method AddItem(p: Params, items: seq<Item>, s: Slot) returns (after: seq<Item>)
    requires s in p.presence ==> Emitted(p, s)
    requires UpTo(p, items, s) && s != Slot(PreviewPR, App)
    ensures after == items + if Emitted(p, s) then [ItemFor(p, s)] else []
    ensures UpTo(p, after, Next(s))
  {
    after := items;
    if s in p.presence { after := after + [Item(s, RefFor(p, s), p.keys(s))]; }
    Step(p, items, s, after);
  }

  /** The four items of the global or of the environment band. */
  method AddBand(p: Params, items: seq<Item>, band: Band) returns (after: seq<Item>)
    requires band.Global? || band.Env?
    requires UpTo(p, items, Slot(band, Shared))
    ensures UpTo(p, after, Next(Slot(band, App)))
  {
    after := AddItem(p, items, Slot(band, Shared));
    ghost var before := after;
    if p.project != "" {
      after := AddItem(p, after, Slot(band, Project));
    } else {
      Step(p, before, Slot(band, Project), after);
    }
    before := after;
    if p.stack != "" {
      after := AddItem(p, after, Slot(band, Stack));
    } else {
      Step(p, before, Slot(band, Stack), after);
    }
    after := AddItem(p, after, Slot(band, App));
  }

  lemma Skip(p: Params, items: seq<Item>, band: Band)
    requires (band.Cluster? || band.Preview?) && UpTo(p, items, Slot(band, Shared))
    requires forall t :: !Emitted(p, Slot(band, t))
    ensures UpTo(p, items, Next(Slot(band, App)))
  {
    assert items + [] == items;
    Step(p, items, Slot(band, Shared), items);
    Step(p, items, Slot(band, Project), items);
    Step(p, items, Slot(band, Stack), items);
    Step(p, items, Slot(band, App), items);
  }

  /** The two items of a band that has only a shared and an app tier. */
  method AddPair(p: Params, items: seq<Item>, band: Band) returns (after: seq<Item>)
    requires band.Cluster? || band.Preview?
    requires forall t: Tier :: (t.Shared? || t.App?) && Slot(band, t) in p.presence ==> Emitted(p, Slot(band, t))
    requires UpTo(p, items, Slot(band, Shared))
    ensures UpTo(p, after, Next(Slot(band, App)))
  {
    after := AddItem(p, items, Slot(band, Shared));
    assert after + [] == after;
    Step(p, after, Slot(band, Project), after);
    Step(p, after, Slot(band, Stack), after);
    after := AddItem(p, after, Slot(band, App));
  }

  method AddPreviewPR(p: Params, items: seq<Item>) returns (after: seq<Item>)
    requires p.isPreview && p.previewName != "" && UpTo(p, items, Slot(PreviewPR, Shared))
    ensures Lists(p, after)
  {
    after := AddItem(p, items, Slot(PreviewPR, Shared));
    assert after + [] == after;
    Step(p, after, Slot(PreviewPR, Project), after);
    Step(p, after, Slot(PreviewPR, Stack), after);
    ghost var before := after;
    if Slot(PreviewPR, App) in p.presence {
      after := after + [Item(Slot(PreviewPR, App), RefFor(p, Slot(PreviewPR, App)), p.keys(Slot(PreviewPR, App)))];
    }
    LastItem(p, before, after);
  }

  lemma LastItem(p: Params, before: seq<Item>, after: seq<Item>)
    requires UpTo(p, before, Slot(PreviewPR, App))
    requires after == before + if Emitted(p, Slot(PreviewPR, App)) then [ItemFor(p, Slot(PreviewPR, App))] else []
    ensures Lists(p, after)
  {
    Extend(p, before, Slot(PreviewPR, App), after);
    assert forall t :: Before(t, Slot(PreviewPR, App)) || t == Slot(PreviewPR, App);
  }

  lemma NoPreviewPR(p: Params, items: seq<Item>)
    requires UpTo(p, items, Slot(PreviewPR, Shared)) && !(p.isPreview && p.previewName != "")
    ensures Lists(p, items)
  {
    forall s ensures HasSlot(items, s) <==> Emitted(p, s) {
      if !Before(s, Slot(PreviewPR, Shared)) { assert s.band.PreviewPR?; }
    }
  }

  method BuildScopeItems(p: Params) returns (items: seq<Item>)
    ensures Lists(p, items)
  {
    items := [];
    assert UpTo(p, items, Slot(Global, Shared));
    items := AddBand(p, items, Global);
    items := AddBand(p, items, Env);
    if p.cluster != "" { items := AddPair(p, items, Cluster); } else { Skip(p, items, Cluster); }
    if p.isPreview { items := AddPair(p, items, Preview); } else { Skip(p, items, Preview); }
    if p.isPreview && p.previewName != "" { items := AddPreviewPR(p, items); } else { NoPreviewPR(p, items); }
  }

  /** The parameters determine the list. */
  lemma {:induction false} OneList(p: Params, a: seq<Item>, b: seq<Item>)
    requires Lists(p, a) && Lists(p, b)
    ensures a == b
  {
    SameSlots(a, b);
    assert forall i :: 0 <= i < |a| ==> a[i] == ItemFor(p, a[i].slot) == ItemFor(p, b[i].slot) == b[i];
  }

  lemma {:induction false} SameSlots(a: seq<Item>, b: seq<Item>)
    requires Ordered(a) && Ordered(b) && forall s :: HasSlot(a, s) <==> HasSlot(b, s)
    ensures |a| == |b| && forall i :: 0 <= i < |a| ==> a[i].slot == b[i].slot
  {
    if a == [] {
      if b != [] { assert HasSlot(b, b[0].slot); }
    } else {
      SameHead(a, b);
      forall s ensures HasSlot(a[1..], s) <==> HasSlot(b[1..], s) {
        TailSlots(a, s);
        TailSlots(b, s);
      }
      SameSlots(a[1..], b[1..]);
      forall i | 0 < i < |a| ensures a[i].slot == b[i].slot { assert a[i] == a[1..][i - 1] && b[i] == b[1..][i - 1]; }
    }
  }

  lemma SameHead(a: seq<Item>, b: seq<Item>)
    requires Ordered(a) && Ordered(b) && a != [] && forall s :: HasSlot(a, s) <==> HasSlot(b, s)
    ensures b != [] && a[0].slot == b[0].slot
  {
    assert HasSlot(a, a[0].slot);
    var k :| 0 <= k < |b| && b[k].slot == a[0].slot;
    assert HasSlot(b, b[0].slot);
    var j :| 0 <= j < |a| && a[j].slot == b[0].slot;
  }

  lemma TailSlots(a: seq<Item>, s: Slot)
    requires Ordered(a) && a != []
    ensures HasSlot(a[1..], s) <==> HasSlot(a, s) && s != a[0].slot
  {
    if HasSlot(a, s) && s != a[0].slot {
      var i :| 0 <= i < |a| && a[i].slot == s;
      assert a[1..][i - 1].slot == s;
    }
    if HasSlot(a[1..], s) {
      var i :| 0 <= i < |a| - 1 && a[1..][i].slot == s;
      assert a[i + 1].slot == s;
    }
  }

  // ---- the list in terms of the parameters --------------------------------

  /** From the least to the most specific. */
  const PRECEDENCE: seq<Slot> := [
    Slot(Global, Shared), Slot(Global, Project), Slot(Global, Stack), Slot(Global, App),
    Slot(Env, Shared), Slot(Env, Project), Slot(Env, Stack), Slot(Env, App),
    Slot(Cluster, Shared), Slot(Cluster, App),
    Slot(Preview, Shared), Slot(Preview, App),
    Slot(PreviewPR, Shared), Slot(PreviewPR, App)]

  predicate Outranks(s: Slot, t: Slot) {
    forall a, b :: 0 <= a < |PRECEDENCE| && 0 <= b < |PRECEDENCE| && PRECEDENCE[a] == t && PRECEDENCE[b] == s ==> a < b
  }

  /** The list follows the precedence, and has of it exactly what is present and whose
      project, stack, cluster or preview the parameters name. */
  lemma FollowsPrecedence(p: Params, items: seq<Item>)
    requires Lists(p, items)
    ensures forall i, j :: 0 <= i < j < |items| ==> Outranks(items[j].slot, items[i].slot)
    ensures forall s :: HasSlot(items, s) <==>
              && s in PRECEDENCE && s in p.presence
              && (s.tier.Project? ==> p.project != "") && (s.tier.Stack? ==> p.stack != "")
              && (s.band.Cluster? ==> p.cluster != "") && (s.band.Preview? || s.band.PreviewPR? ==> p.isPreview)
              && (s.band.PreviewPR? ==> p.previewName != "")
  {
    forall a, b | 0 <= a < |PRECEDENCE| && 0 <= b < |PRECEDENCE|
      ensures Before(PRECEDENCE[a], PRECEDENCE[b]) <==> a < b
    {
      Ranks(a);
      Ranks(b);
    }
    forall s ensures s in PRECEDENCE <==> Usable(s) { InPrecedence(s); }
  }

  lemma Ranks(a: nat)
    requires a < |PRECEDENCE|
    ensures var s := PRECEDENCE[a];
            a == if a < 8 then BandRank(s.band) * 4 + TierRank(s.tier)
                 else 8 + (BandRank(s.band) - 2) * 2 + (if s.tier.App? then 1 else 0)
    ensures a >= 8 ==> PRECEDENCE[a].tier.Shared? || PRECEDENCE[a].tier.App?
    ensures a < 8 <==> BandRank(PRECEDENCE[a].band) < 2
  {
  }

  lemma InPrecedence(s: Slot)
    ensures s in PRECEDENCE <==> Usable(s)
  {
    if Usable(s) {
      var a := if BandRank(s.band) < 2 then BandRank(s.band) * 4 + TierRank(s.tier)
               else 8 + (BandRank(s.band) - 2) * 2 + (if s.tier.App? then 1 else 0);
      assert PRECEDENCE[a] == s;
    }
  }

  // ---- the two readings --------------------------------------------------

  datatype AppSecret = AppSecret(store: string, refs: seq<Ref>)

  method BuildAppExternalSecret(p: Params) returns (r: Option<AppSecret>, ghost items: seq<Item>)
    ensures Lists(p, items)
    ensures r.None? <==> forall s :: !Emitted(p, s)
    ensures r.Some? ==> |r.value.refs| == |items| && forall i :: 0 <= i < |items| ==> r.value.refs[i] == items[i].ref
    ensures r.Some? ==> r.value.store == StoreFor(p, Slot(Global, Shared))
  {
    var list := BuildScopeItems(p);
    items := list;
    EmptyList(p, items);
    if |list| == 0 { return None, items; }
    var refs := RefsOf(list);
    r := Some(AppSecret(StoreFor(p, Slot(Global, Shared)), refs));
  }

  lemma EmptyList(p: Params, items: seq<Item>)
    requires Lists(p, items)
    ensures items == [] <==> forall s :: !Emitted(p, s)
  {
    if items != [] { assert HasSlot(items, items[0].slot); }
  }

  method RefsOf(items: seq<Item>) returns (refs: seq<Ref>)
    ensures |refs| == |items| && forall i :: 0 <= i < |items| ==> refs[i] == items[i].ref
  {
    refs := [];
    for i := 0 to |items|
      invariant |refs| == i && forall k :: 0 <= k < i ==> refs[k] == items[k].ref
    {
      refs := refs + [items[i].ref];
    }
  }

  predicate Holds(items: seq<Item>, key: string) {
    exists i :: 0 <= i < |items| && key in items[i].keys
  }

  /** The last item that holds a key. */
  function LastHolder(items: seq<Item>, key: string): (i: nat)
    requires Holds(items, key)
    ensures i < |items| && key in items[i].keys
    ensures forall j :: i < j < |items| ==> key !in items[j].keys
  {
    var n := |items| - 1;
    if key in items[n].keys then n
    else
      assert Holds(items[..n], key) by {
        var k :| 0 <= k < |items| && key in items[k].keys;
        assert items[..n][k] == items[k];
      }
      LastHolder(items[..n], key)
  }

  method ResolveKey(items: seq<Item>, key: string) returns (r: Option<Ref>)
    ensures r == if Holds(items, key) then Some(items[LastHolder(items, key)].ref) else None
  {
    var i := |items|;
    while i > 0
      invariant 0 <= i <= |items|
      invariant forall j :: i <= j < |items| ==> key !in items[j].keys
    {
      i := i - 1;
      var k := 0;
      while k < |items[i].keys|
        invariant 0 <= k <= |items[i].keys|
        invariant key !in items[i].keys[..k]
      {
        if items[i].keys[k] == key { return Some(items[i].ref); }
        assert items[i].keys[..k + 1] == items[i].keys[..k] + [items[i].keys[k]];
        k := k + 1;
      }
      assert items[i].keys[..k] == items[i].keys;
    }
    r := None;
  }

  datatype DataRef = DataRef(target: string, ref: Ref, property: string)

  /** An entry reads a requested key from the last item that holds it. */
  predicate Projects(items: seq<Item>, renames: map<string, string>, d: DataRef) {
    d.target in renames && d.property == renames[d.target] && Holds(items, d.property)
    && d.ref == items[LastHolder(items, d.property)].ref
  }

  ghost predicate Projection(items: seq<Item>, renames: map<string, string>, data: seq<DataRef>) {
    && (forall i, j :: 0 <= i < j < |data| ==> Lex.Less(data[i].target, data[j].target))
    && (forall d :: d in data ==> Projects(items, renames, d))
    && (forall t :: t in renames && Holds(items, renames[t]) ==> HasTarget(data, t))
  }

  /** A component's selection: each requested key that some item holds becomes one
      entry, targets in order; nothing when no key is held. */
  method BuildComponentExternalSecret(p: Params, renames: map<string, string>)
    returns (r: Option<seq<DataRef>>, ghost items: seq<Item>)
    ensures Lists(p, items)
    ensures r.None? <==> forall t :: t in renames ==> !Holds(items, renames[t])
    ensures r.Some? ==> Projection(items, renames, r.value)
  {
    var list := BuildScopeItems(p);
    items := list;
    var data := ProjectKeys(list, renames);
    if |data| == 0 { return None, items; }
    assert data[0] in data;
    r := Some(data);
  }

  method SortedTargets(renames: map<string, string>) returns (targets: seq<string>)
    ensures forall t :: t in targets <==> t in renames
    ensures forall i, j :: 0 <= i < j < |targets| ==> Lex.Less(targets[i], targets[j])
  {
    var unsorted := Keys(renames);
    LexIsTotal();
    targets := SortSlice(unsorted, Lex.AtMost);
    MultisetMembers(unsorted, targets);
    DistinctPermutation(unsorted, targets);
  }

  /** The entries for the first i targets. */
  ghost predicate ProjectedUpTo(items: seq<Item>, renames: map<string, string>, targets: seq<string>, i: nat,
                                data: seq<DataRef>)
    requires i <= |targets| && forall t :: t in targets ==> t in renames
  {
    && (forall a, b :: 0 <= a < b < |data| ==> Lex.Less(data[a].target, data[b].target))
    && (forall a :: 0 <= a < |data| ==> Projects(items, renames, data[a]) && data[a].target in targets[..i])
    && (forall k :: 0 <= k < i && Holds(items, renames[targets[k]]) ==> HasTarget(data, targets[k]))
  }

  method ProjectKeys(items: seq<Item>, renames: map<string, string>) returns (data: seq<DataRef>)
    ensures Projection(items, renames, data)
    ensures data == [] <==> forall t :: t in renames ==> !Holds(items, renames[t])
  {
    var targets := SortedTargets(renames);
    data := [];
    for i := 0 to |targets|
      invariant ProjectedUpTo(items, renames, targets, i, data)
    {
      var src := renames[targets[i]];
      var ref := ResolveKey(items, src);
      ghost var before := data;
      if ref.Some? { data := data + [DataRef(targets[i], ref.value, src)]; }
      ProjectOneMore(items, renames, targets, i, before, data);
    }
    forall t | t in renames && Holds(items, renames[t]) ensures HasTarget(data, t) {
      var k :| 0 <= k < |targets| && targets[k] == t;
    }
    if data != [] { assert Projects(items, renames, data[0]); }
  }

  lemma ProjectOneMore(items: seq<Item>, renames: map<string, string>, targets: seq<string>, i: nat,
                       before: seq<DataRef>, after: seq<DataRef>)
    requires i < |targets| && forall t :: t in targets ==> t in renames
    requires forall a, b :: 0 <= a < b < |targets| ==> Lex.Less(targets[a], targets[b])
    requires ProjectedUpTo(items, renames, targets, i, before)
    requires var src := renames[targets[i]];
             after == before
               + if Holds(items, src) then [DataRef(targets[i], items[LastHolder(items, src)].ref, src)] else []
    ensures ProjectedUpTo(items, renames, targets, i + 1, after)
  {
    AllBefore(before, targets, i);
    assert targets[..i + 1] == targets[..i] + [targets[i]];
    forall k | 0 <= k < i + 1 && Holds(items, renames[targets[k]]) ensures HasTarget(after, targets[k]) {
      if k < i {
        KeepsTarget(before, after, targets[k]);
      } else {
        assert after[|before|] in after && after[|before|].target == targets[i];
      }
    }
  }

  lemma AllBefore(data: seq<DataRef>, targets: seq<string>, i: nat)
    requires i < |targets| && forall a, b :: 0 <= a < b < |targets| ==> Lex.Less(targets[a], targets[b])
    requires forall a :: 0 <= a < |data| ==> data[a].target in targets[..i]
    ensures forall a :: 0 <= a < |data| ==> Lex.Less(data[a].target, targets[i])
  {
    forall a | 0 <= a < |data| ensures Lex.Less(data[a].target, targets[i]) {
      var k :| 0 <= k < i && targets[..i][k] == data[a].target;
    }
  }

  ghost predicate HasTarget(data: seq<DataRef>, t: string) {
    exists d :: d in data && d.target == t
  }

  lemma KeepsTarget(before: seq<DataRef>, after: seq<DataRef>, t: string)
    requires before <= after && HasTarget(before, t)
    ensures HasTarget(after, t)
  {
    var d :| d in before && d.target == t;
    assert d in after;
  }

  lemma LexIsTotal()
    ensures TotalOrder(Lex.AtMost)
  {
    Lex.StrictTotalOrder();
  }

  method Keys(m: map<string, string>) returns (ks: seq<string>)
    ensures Distinct(ks) && forall k :: k in ks <==> k in m
  {
    var left := m.Keys;
    ks := [];
    while left != {}
      invariant left <= m.Keys && Distinct(ks)
      invariant forall k :: k in ks <==> k in m.Keys && k !in left
      decreases left
    {
      var k :| k in left;
      left := left - {k};
      ks := ks + [k];
    }
  }

  // ---- one item for both readings ----------------------------------------

  /** What External Secrets does with the app secret's items: later ones overwrite. */
  function Merge(items: seq<Item>, contents: Ref -> map<string, string>): map<string, string> {
    if items == [] then map[]
    else Merge(items[..|items| - 1], contents) + contents(items[|items| - 1].ref)
  }

  /** The key lists say what the vault items hold. */
  ghost predicate Faithful(items: seq<Item>, contents: Ref -> map<string, string>) {
    forall i, k :: 0 <= i < |items| ==> (k in items[i].keys <==> k in contents(items[i].ref))
  }

  /** A projected key reads the item whose value survives the merge; and the app
      secret has a key exactly when the projection resolves it. */
  lemma {:induction false} ProjectionMatchesMerge(items: seq<Item>, contents: Ref -> map<string, string>, key: string)
    requires Faithful(items, contents)
    ensures key in Merge(items, contents) <==> Holds(items, key)
    ensures Holds(items, key) ==>
              var ref := items[LastHolder(items, key)].ref;
              key in contents(ref) && Merge(items, contents)[key] == contents(ref)[key]
  {
    if items == [] {
    } else {
      var n := |items| - 1;
      assert forall i :: 0 <= i < n ==> items[..n][i] == items[i];
      ProjectionMatchesMerge(items[..n], contents, key);
      if key !in items[n].keys && Holds(items, key) {
        var k :| 0 <= k < |items| && key in items[k].keys;
        assert items[..n][k] == items[k];
        assert Holds(items[..n], key);
        var last := LastHolder(items, key);
        assert last < n && items[..n][last] == items[last];
        assert LastHolder(items[..n], key) == last;
      }
      if Holds(items[..n], key) {
        var k :| 0 <= k < n && key in items[..n][k].keys;
        assert key in items[k].keys;
      }
    }
  }

  /** What a component is given is what it would read in the app secret: a target for
      each requested key that secret has, with the value it has there. */
  lemma ComponentReadsAppSecret(items: seq<Item>, renames: map<string, string>, data: seq<DataRef>,
                                contents: Ref -> map<string, string>)
    requires Projection(items, renames, data) && Faithful(items, contents)
    ensures forall t :: HasTarget(data, t) <==> t in renames && renames[t] in Merge(items, contents)
    ensures forall d :: d in data ==>
              && d.target in renames && renames[d.target] in Merge(items, contents)
              && d.property in contents(d.ref)
              && contents(d.ref)[d.property] == Merge(items, contents)[renames[d.target]]
  {
    forall key ensures key in Merge(items, contents) <==> Holds(items, key) {
      ProjectionMatchesMerge(items, contents, key);
    }
    forall d | d in data
      ensures d.target in renames && renames[d.target] in Merge(items, contents) && d.property in contents(d.ref)
      ensures contents(d.ref)[d.property] == Merge(items, contents)[renames[d.target]]
    {
      assert Projects(items, renames, d);
      ProjectionMatchesMerge(items, contents, d.property);
    }
  }

  /** The more specific item wins: a holder in a later band, or a later tier of the
      same band, decides the value of both readings. */
  lemma MoreSpecificWins(p: Params, items: seq<Item>, contents: Ref -> map<string, string>, key: string, winner: Slot)
    requires Lists(p, items) && Faithful(items, contents)
    requires Emitted(p, winner) && key in p.keys(winner)
    requires forall s :: Emitted(p, s) && key in p.keys(s) ==> s == winner || Before(s, winner)
    ensures key in Merge(items, contents) && key in contents(RefFor(p, winner))
    ensures Merge(items, contents)[key] == contents(RefFor(p, winner))[key]
  {
    assert HasSlot(items, winner);
    var i :| 0 <= i < |items| && items[i].slot == winner;
    assert key in items[i].keys;
    ProjectionMatchesMerge(items, contents, key);
    LatestHolds(p, items, key, i);
  }

  lemma LatestHolds(p: Params, items: seq<Item>, key: string, i: nat)
    requires Lists(p, items) && i < |items| && key in items[i].keys
    requires forall s :: Emitted(p, s) && key in p.keys(s) ==> s == items[i].slot || Before(s, items[i].slot)
    ensures Holds(items, key) && LastHolder(items, key) == i
  {
    var last := LastHolder(items, key);
    assert HasSlot(items, items[last].slot);
    assert items[last] == ItemFor(p, items[last].slot);
  }

  // ---- which apps and environments share an item --------------------------

  /** What of the parameters an item in this slot is named for. */
  ghost predicate SameNames(p: Params, q: Params, s: Slot) {
    match s.tier
    case Shared => SameScope(p, q, s.band)
    case Project => NameWithEnv(p.project, p, s.band) == NameWithEnv(q.project, q, s.band)
    case Stack => NameWithEnv(p.project + "-" + p.stack, p, s.band) == NameWithEnv(q.project + "-" + q.stack, q, s.band)
    case App => OwnerInScope(p, s.band) == OwnerInScope(q, s.band)
  }

  predicate SameScope(p: Params, q: Params, band: Band) {
    match band
    case Global => true
    case Env => p.env == q.env
    case Cluster => p.cluster == q.cluster
    case Preview => true
    case PreviewPR => p.previewName == q.previewName
  }

  function NameWithEnv(name: string, p: Params, band: Band): string {
    if band.Global? then name else name + "-env-" + p.env
  }

  function OwnerInScope(p: Params, band: Band): string {
    var owner := if p.project == "" then p.app else p.project + "-" + p.app;
    match band
    case Global => owner
    case Env => owner + "-env-" + p.env
    case Cluster => owner + "-cluster-" + p.cluster
    case Preview => owner
    case PreviewPR => owner + "-env-preview-" + p.previewName
  }

  lemma SameTailEnd(a: string, b: string, tail: string)
    ensures a + tail == b + tail <==> a == b
  {
    if a + tail == b + tail {
      assert |a| == |b|;
      assert (a + tail)[..|a|] == a && (b + tail)[..|b|] == b;
    }
  }

  lemma SharedNameIs(p: Params, s: Slot)
    requires s.tier.Project? || s.tier.Stack?
    ensures ItemName(p, s) == (if s.tier.Project? then "shared-project-" + NameWithEnv(p.project, p, s.band)
                               else "shared-stack-" + NameWithEnv(p.project + "-" + p.stack, p, s.band))
  {
    var name := if s.tier.Project? then p.project else p.project + "-" + p.stack;
    var head := if s.tier.Project? then "project-" else "stack-";
    var tail := if s.band.Global? then "" else "-env-" + p.env;
    assert Suffix(p, s) == head + name + tail;
    assert "shared-" + (head + name + tail) == "shared-" + head + (name + tail);
    assert NameWithEnv(name, p, s.band) == name + tail;
  }

  /** The owner's name and scope, and what the band alone puts behind them. */
  lemma OwnNameIs(p: Params, s: Slot)
    requires s.tier.App?
    ensures ItemName(p, s) == OwnerInScope(p, s.band) +
              (match s.band case Global => "-global" case Preview => "-env-preview" case _ => "")
  {
    var owner := Owner(p);
    match s.band
    case Global => assert owner + "-" + "global" == owner + "-global";
    case Env => assert owner + "-" + ("env-" + p.env) == owner + "-env-" + p.env;
    case Cluster => assert owner + "-" + ("cluster-" + p.cluster) == owner + "-cluster-" + p.cluster;
    case Preview => assert owner + "-" + "env-preview" == owner + "-env-preview";
    case PreviewPR =>
      assert owner + "-" + ("env-preview-" + p.previewName) == owner + "-env-preview-" + p.previewName;
  }

  lemma SameSharedName(p: Params, q: Params, band: Band)
    ensures ItemName(p, Slot(band, Shared)) == ItemName(q, Slot(band, Shared)) <==> SameScope(p, q, band)
  {
    var s := Slot(band, Shared);
    SameTail("shared-", Suffix(p, s), Suffix(q, s));
    match band
    case Global =>
    case Env => SameTail("env-", p.env, q.env);
    case Cluster => SameTail("cluster-", p.cluster, q.cluster);
    case Preview =>
    case PreviewPR => SameTail("env-preview-", p.previewName, q.previewName);
  }

  lemma SameItemName(p: Params, q: Params, s: Slot)
    ensures ItemName(p, s) == ItemName(q, s) <==> SameNames(p, q, s)
  {
    match s.tier
    case Shared => SameSharedName(p, q, s.band);
    case Project =>
      SharedNameIs(p, s);
      SharedNameIs(q, s);
      SameTail("shared-project-", NameWithEnv(p.project, p, s.band), NameWithEnv(q.project, q, s.band));
    case Stack =>
      SharedNameIs(p, s);
      SharedNameIs(q, s);
      SameTail("shared-stack-", NameWithEnv(p.project + "-" + p.stack, p, s.band),
               NameWithEnv(q.project + "-" + q.stack, q, s.band));
    case App =>
      OwnNameIs(p, s);
      OwnNameIs(q, s);
      SameTailEnd(OwnerInScope(p, s.band), OwnerInScope(q, s.band),
                  match s.band case Global => "-global" case Preview => "-env-preview" case _ => "");
  }

  predicate Plain(name: string) {
    '/' !in name
  }

  /** Two apps, or one app in two environments, read one item in a slot exactly when the
      item is named for the same and, outside the global band and 1Password, lies in the
      same environment. */
  lemma SharedExactly(p: Params, q: Params, s: Slot)
    requires p.backend == q.backend && Plain(p.env) && Plain(q.env)
    ensures RefFor(p, s) == RefFor(q, s) <==>
              SameNames(p, q, s) && (s.band.Global? || p.backend.OnePassword? || p.env == q.env)
  {
    SameItemName(p, q, s);
    if s.band.Global? {
      SameTail(VaultName(p, s) + "/", ItemName(p, s), ItemName(q, s));
    } else {
      var (x, y) := ("suparship-secrets-env-" + p.env, "suparship-secrets-env-" + q.env);
      SameTail("suparship-secrets-env-", p.env, q.env);
      if x + "/" + ItemName(p, s) == y + "/" + ItemName(q, s) {
        Lex.FirstField('/', x, ItemName(p, s), y, ItemName(q, s));
      }
      SameTail("suparship-store-", EnvSuffix(p.env), EnvSuffix(q.env));
      SameTail("env-", p.env, q.env);
    }
  }

  /** Apps of one name in different projects are kept apart by the project in front, but
      a hyphen can move: app "b-c" of project "a" and app "c" of project "a-b" read and
      write one item in every slot that is an app's own. */
  lemma MovedHyphenShares(p: Params, q: Params, band: Band)
    requires p.project == "a" && p.app == "b-c"
    requires q == p.(project := "a-b", app := "c")
    ensures RefFor(p, Slot(band, App)) == RefFor(q, Slot(band, App))
  {
    assert "a" + "-" + "b-c" == "a-b" + "-" + "c";
    OwnNameIs(p, Slot(band, App));
    OwnNameIs(q, Slot(band, App));
  }

  lemma ProjectSeparates(p: Params, q: Params, band: Band)
    requires q == p.(project := q.project) && p.project != "" && q.project != "" && p.project != q.project
    ensures RefFor(p, Slot(band, App)) != RefFor(q, Slot(band, App))
  {
    SameItemName(p, q, Slot(band, App));
    SameOwner(p, q, band);
    SameTailEnd(p.project, q.project, "-" + p.app);
    assert p.project + "-" + p.app == p.project + ("-" + p.app) && q.project + "-" + p.app == q.project + ("-" + p.app);
    SameRefName(p, q, Slot(band, App));
  }

  lemma SameOwner(p: Params, q: Params, band: Band)
    requires q == p.(project := q.project)
    ensures OwnerInScope(p, band) == OwnerInScope(q, band) <==> Owner(p) == Owner(q)
  {
    match band
    case Global =>
    case Env => SameTailEnd(Owner(p) + "-env-", Owner(q) + "-env-", p.env); SameTailEnd(Owner(p), Owner(q), "-env-");
    case Cluster =>
      SameTailEnd(Owner(p) + "-cluster-", Owner(q) + "-cluster-", p.cluster);
      SameTailEnd(Owner(p), Owner(q), "-cluster-");
    case Preview =>
    case PreviewPR =>
      SameTailEnd(Owner(p) + "-env-preview-", Owner(q) + "-env-preview-", p.previewName);
      SameTailEnd(Owner(p), Owner(q), "-env-preview-");
  }

  lemma SameRefName(p: Params, q: Params, s: Slot)
    requires VaultName(p, s) == VaultName(q, s) && p.backend == q.backend
    ensures RefFor(p, s) == RefFor(q, s) ==> ItemName(p, s) == ItemName(q, s)
  {
    SameTail(VaultName(p, s) + "/", ItemName(p, s), ItemName(q, s));
  }

  // ---- names that coincide -----------------------------------------------

  /** A slot some parameters emit: only the first two bands have project and stack. */
  predicate Usable(s: Slot) {
    s.band.Global? || s.band.Env? || s.tier.Shared? || s.tier.App?
  }

  lemma EmittedIsUsable(p: Params, s: Slot)
    requires Emitted(p, s)
    ensures Usable(s)
  {
  }

  /** Shared and app items of an environment called "preview" are those of its
      preview band, and in one called "preview-" and a preview's name those of that
      preview. */
  predicate Coincide(p: Params, a: Slot, b: Slot) {
    a.tier == b.tier && (a.tier.Shared? || a.tier.App?)
    && (EnvIsBand(p, a.band, b.band) || EnvIsBand(p, b.band, a.band))
  }

  predicate EnvIsBand(p: Params, env: Band, band: Band) {
    env.Env? && ((band.Preview? && p.env == "preview") || (band.PreviewPR? && p.env == "preview-" + p.previewName))
  }

  lemma SameTail(head: string, a: string, b: string)
    ensures head + a == head + b <==> a == b
  {
    assert (head + a)[|head|..] == a && (head + b)[|head|..] == b;
  }

  lemma BandSuffixes(p: Params)
    ensures EnvSuffix(p.env) == "env-preview" <==> p.env == "preview"
    ensures EnvSuffix(p.env) == "env-preview-" + p.previewName <==> p.env == "preview-" + p.previewName
    ensures |"env-preview"| < |"env-preview-" + p.previewName|
  {
    assert "env-preview" == "env-" + "preview";
    assert "env-preview-" + p.previewName == "env-" + ("preview-" + p.previewName);
    SameTail("env-", p.env, "preview");
    SameTail("env-", p.env, "preview-" + p.previewName);
  }

  lemma SameSuffix(p: Params, a: Slot, b: Slot)
    requires Usable(a) && Usable(b) && a != b && (a.tier.App? <==> b.tier.App?)
    ensures Suffix(p, a) == Suffix(p, b) <==> Coincide(p, a, b)
  {
    BandSuffixes(p);
    var x, y := Suffix(p, a), Suffix(p, b);
    if a.tier != b.tier {
      assert x[0] != y[0];
    } else if a.tier.Project? || a.tier.Stack? {
      assert |x| != |y|;
    } else if a.band in {Global, Cluster} || b.band in {Global, Cluster} {
      assert x[0] != y[0];
    }
  }

  function Owner(p: Params): string {
    if p.project != "" then p.project + "-" + p.app else p.app
  }

  lemma ItemNameIs(p: Params, s: Slot)
    ensures ItemName(p, s) == (if s.tier.App? then Owner(p) + "-" else "shared-") + Suffix(p, s)
  {
  }

  predicate SamePlace(p: Params, a: Slot, b: Slot) {
    p.backend.OnePassword? || (a.band.Global? <==> b.band.Global?)
  }

  lemma PlacesApart(env: string, x: string, y: string)
    ensures "suparship-secrets-global" + "/" + x != "suparship-secrets-env-" + env + "/" + y
    ensures "suparship-store-global" != "suparship-store-" + EnvSuffix(env)
  {
    var global, other := "global/" + x, "env-" + env + "/" + y;
    assert "suparship-secrets-global" + "/" + x == "suparship-secrets-" + global;
    assert "suparship-secrets-env-" + env + "/" + y == "suparship-secrets-" + other;
    assert global[0] != other[0];
    SameTail("suparship-secrets-", global, other);
    assert "suparship-store-global" == "suparship-store-" + "global" && "global"[0] != EnvSuffix(env)[0];
    SameTail("suparship-store-", "global", EnvSuffix(env));
  }

  /** A reference is a name and, except in 1Password, the vault it lies in. */
  lemma SameRef(p: Params, a: Slot, b: Slot)
    ensures RefFor(p, a) == RefFor(p, b) <==> ItemName(p, a) == ItemName(p, b) && SamePlace(p, a, b)
  {
    if a.band.Global? == b.band.Global? {
      SameTail(VaultName(p, a) + "/", ItemName(p, a), ItemName(p, b));
    } else {
      PlacesApart(p.env, ItemName(p, a), ItemName(p, b));
      PlacesApart(p.env, ItemName(p, b), ItemName(p, a));
    }
  }

  /** Two slots of one kind are one item exactly when an environment's name repeats
      its band's; no other two ever are, in any backend. */
  lemma OneKindCoincides(p: Params, a: Slot, b: Slot)
    requires Usable(a) && Usable(b) && a != b && (a.tier.App? <==> b.tier.App?)
    ensures RefFor(p, a) == RefFor(p, b) <==> Coincide(p, a, b)
  {
    SameRef(p, a, b);
    ItemNameIs(p, a);
    ItemNameIs(p, b);
    SameTail(if a.tier.App? then Owner(p) + "-" else "shared-", Suffix(p, a), Suffix(p, b));
    SameSuffix(p, a, b);
  }

  /** What follows "shared-" in the owner's part of an app item's name. */
  ghost predicate OwnerSpells(p: Params, a: Slot, b: Slot, rest: string) {
    Owner(p) + "-" == "shared-" + rest && Suffix(p, a) == rest + Suffix(p, b)
  }

  /** A shared item and an app's own are one item exactly when the owner is named
      "shared", or "shared-" and what is missing between the two suffixes. */
  lemma TwoKindsCoincide(p: Params, a: Slot, b: Slot)
    requires !a.tier.App? && b.tier.App?
    ensures RefFor(p, a) == RefFor(p, b) <==> SamePlace(p, a, b) && exists rest :: OwnerSpells(p, a, b, rest)
  {
    SameRef(p, a, b);
    ItemNameIs(p, a);
    ItemNameIs(p, b);
    if ItemName(p, a) == ItemName(p, b) {
      var rest := SameNameSpells(p, a, b);
    }
    if rest :| OwnerSpells(p, a, b, rest) {
      SpelledIsSame(Owner(p) + "-", rest, Suffix(p, a), Suffix(p, b));
    }
  }

  lemma SameNameSpells(p: Params, a: Slot, b: Slot) returns (rest: string)
    requires "shared-" + Suffix(p, a) == Owner(p) + "-" + Suffix(p, b)
    ensures OwnerSpells(p, a, b, rest)
  {
    var owner := Owner(p) + "-";
    OwnerIsLong(owner, Suffix(p, a), Suffix(p, b));
    rest := owner[7..];
    assert owner == "shared-" + rest;
    assert owner + Suffix(p, b) == "shared-" + (rest + Suffix(p, b));
    SameTail("shared-", Suffix(p, a), rest + Suffix(p, b));
  }

  lemma SpelledIsSame(owner: string, rest: string, x: string, y: string)
    requires owner == "shared-" + rest && x == rest + y
    ensures "shared-" + x == owner + y
  {
    assert ("shared-" + rest) + y == "shared-" + (rest + y);
  }

  lemma OwnerIsLong(owner: string, x: string, y: string)
    requires owner != "" && owner[|owner| - 1] == '-' && "shared-" + x == owner + y
    ensures |owner| >= 7 && owner[..7] == "shared-"
  {
    var name := "shared-" + x;
    assert name[..|owner|] == owner && name[|owner| - 1] == '-';
    assert forall k :: 0 <= k < 6 ==> name[k] != '-';
    assert name[..7] == "shared-";
  }

  ghost predicate SharedIsOwn(p: Params, a: Slot, b: Slot) {
    SamePlace(p, a, b) && exists rest :: OwnerSpells(p, a, b, rest)
  }

  /** So in the list itself two items are one exactly in one of these two ways. */
  lemma ItemsCoincideExactly(p: Params, items: seq<Item>, i: nat, j: nat)
    requires Lists(p, items) && i < j < |items|
    ensures items[i].ref == items[j].ref <==>
              var (a, b) := (items[i].slot, items[j].slot);
              if a.tier.App? == b.tier.App? then Coincide(p, a, b)
              else if a.tier.App? then SharedIsOwn(p, b, a) else SharedIsOwn(p, a, b)
  {
    var a, b := items[i].slot, items[j].slot;
    assert HasSlot(items, a) && HasSlot(items, b);
    EmittedIsUsable(p, a);
    EmittedIsUsable(p, b);
    assert Before(a, b);
    if a.tier.App? == b.tier.App? {
      OneKindCoincides(p, a, b);
    } else if a.tier.App? {
      TwoKindsCoincide(p, b, a);
    } else {
      TwoKindsCoincide(p, a, b);
    }
  }

  /** Instances a name check would let through. */
  lemma PreviewBandIsSeparate(p: Params, tier: Tier)
    requires tier.Shared? || tier.App?
    ensures RefFor(p, Slot(Env, tier)) == RefFor(p, Slot(Preview, tier)) <==> p.env == "preview"
    ensures RefFor(p, Slot(Env, tier)) == RefFor(p, Slot(PreviewPR, tier)) <==> p.env == "preview-" + p.previewName
  {
    OneKindCoincides(p, Slot(Env, tier), Slot(Preview, tier));
    OneKindCoincides(p, Slot(Env, tier), Slot(PreviewPR, tier));
  }

  /** Project "shared" with an app "project-shared": the app's own item is the
      project's shared one. */
  lemma SharedProjectClashes(p: Params)
    requires p.project == "shared" && p.app == "project-shared"
    ensures RefFor(p, Slot(Env, Project)) == RefFor(p, Slot(Env, App))
  {
    var rest := "project-shared-";
    assert Owner(p) + "-" == "shared-" + rest;
    assert Suffix(p, Slot(Env, Project)) == rest + EnvSuffix(p.env);
    assert OwnerSpells(p, Slot(Env, Project), Slot(Env, App), rest);
    TwoKindsCoincide(p, Slot(Env, Project), Slot(Env, App));
  }
}
