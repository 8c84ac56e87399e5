/** Which clusters an app is deployed to in an environment, and which the project
    authorises. */
module ClusterTargets {
  import opened FirstSeen
  import opened Sorting
  import Lex

  const ALL_CLUSTERS := "*"

  datatype Cluster = Cluster(apiServer: string, baseDomain: string)

  datatype Target = Target(name: string, server: string, baseDomain: string)

  /** An environment of the organisation: its cluster references, the active one
      (empty to mean the first) and whether it deploys to all of them. */
  datatype OrgEnv = OrgEnv(refs: seq<string>, active: string, deployAll: bool)

  type Registry = map<string, Cluster>

  /** clusters is the environment's default, allClusters everything it may use. */
  datatype Resolved = Resolved(clusters: seq<Target>, allClusters: seq<Target>)

  // ---- resolving the environment -----------------------------------------

  function EffectiveClusterRef(env: OrgEnv): string {
    if env.active != "" then env.active else if env.refs != [] then env.refs[0] else ""
  }

  function DeployTargets(env: OrgEnv): seq<string> {
    if env.deployAll then env.refs
    else if EffectiveClusterRef(env) != "" then [EffectiveClusterRef(env)]
    else []
  }

  predicate Resolves(registry: Registry, ref: string) {
    ref in registry && registry[ref].apiServer != ""
  }

  function TargetFor(registry: Registry, ref: string): Target
    requires Resolves(registry, ref)
  {
    Target(ref, registry[ref].apiServer, registry[ref].baseDomain)
  }

  /** The references that resolve, in order. */
  function Lookup(registry: Registry, refs: seq<string>): (r: seq<Target>)
    ensures forall t :: t in r <==> t.name in refs && Resolves(registry, t.name) && t == TargetFor(registry, t.name)
  {
    if refs == [] then []
    else
      var n := |refs| - 1;
      assert refs == refs[..n] + [refs[n]];
      Lookup(registry, refs[..n]) + if Resolves(registry, refs[n]) then [TargetFor(registry, refs[n])] else []
  }

  function ResolvedEnv(env: OrgEnv, registry: Registry): Resolved {
    Resolved(Lookup(registry, DeployTargets(env)), Lookup(registry, env.refs))
  }

  // ---- what resolving means, in terms of the registry ---------------------

  /** A target is the registration of its name. */
  predicate Registered(registry: Registry, t: Target) {
    && t.name in registry && registry[t.name].apiServer != ""
    && t.server == registry[t.name].apiServer && t.baseDomain == registry[t.name].baseDomain
  }

  /** All references when the environment deploys to all of them, else the active
      cluster, which is the first reference unless one is named. */
  predicate IsDefault(env: OrgEnv, name: string) {
    if env.deployAll then name in env.refs
    else name != "" && (if env.active != "" then name == env.active else env.refs != [] && name == env.refs[0])
  }

  /** Of two targets the earlier one's name is mentioned earlier. */
  ghost predicate KeepsOrder(targets: seq<Target>, refs: seq<string>) {
    forall i, j :: 0 <= i < j < |targets| ==> MentionedBefore(refs, targets[i].name, targets[j].name)
  }

  ghost predicate MentionedBefore(refs: seq<string>, x: string, y: string) {
    exists a, b :: 0 <= a < b < |refs| && refs[a] == x && refs[b] == y
  }

  lemma {:induction false} LookupKeepsOrder(registry: Registry, refs: seq<string>)
    ensures KeepsOrder(Lookup(registry, refs), refs)
  {
    if refs == [] {
    } else {
      var n := |refs| - 1;
      LookupKeepsOrder(registry, refs[..n]);
      var init, all := Lookup(registry, refs[..n]), Lookup(registry, refs);
      forall i, j | 0 <= i < j < |all| ensures MentionedBefore(refs, all[i].name, all[j].name) {
        if j < |init| {
          assert MentionedBefore(refs[..n], init[i].name, init[j].name);
          var a, b :| 0 <= a < b < n && refs[..n][a] == init[i].name && refs[..n][b] == init[j].name;
          assert refs[a] == init[i].name && refs[b] == init[j].name;
        } else {
          assert init[i] in init && init[i].name in refs[..n];
          var a :| 0 <= a < n && refs[..n][a] == init[i].name;
          assert refs[a] == all[i].name && refs[n] == all[j].name;
        }
      }
    }
  }

  lemma ResolvesExactly(env: OrgEnv, registry: Registry, t: Target)
    ensures t in ResolvedEnv(env, registry).clusters <==> Registered(registry, t) && IsDefault(env, t.name)
    ensures t in ResolvedEnv(env, registry).allClusters <==> Registered(registry, t) && t.name in env.refs
  {
  }

  method LookupAll(registry: Registry, refs: seq<string>) returns (targets: seq<Target>)
    ensures targets == Lookup(registry, refs)
  {
    targets := [];
    for i := 0 to |refs|
      invariant targets == Lookup(registry, refs[..i])
    {
      var ref := refs[i];
      assert refs[..i + 1][..i] == refs[..i];
      if ref !in registry || registry[ref].apiServer == "" { continue; }
      targets := targets + [Target(ref, registry[ref].apiServer, registry[ref].baseDomain)];
    }
    assert refs[..|refs|] == refs;
  }

  method ResolveEnv(env: OrgEnv, registry: Registry) returns (r: Resolved)
    ensures r == ResolvedEnv(env, registry)
    ensures forall t :: t in r.clusters <==> Registered(registry, t) && IsDefault(env, t.name)
    ensures forall t :: t in r.allClusters <==> Registered(registry, t) && t.name in env.refs
    ensures KeepsOrder(r.allClusters, env.refs) && (env.deployAll ==> r.clusters == r.allClusters)
  {
    var clusters := LookupAll(registry, DeployTargets(env));
    var allClusters := LookupAll(registry, env.refs);
    r := Resolved(clusters, allClusters);
    LookupKeepsOrder(registry, env.refs);
    forall t
      ensures t in r.clusters <==> Registered(registry, t) && IsDefault(env, t.name)
      ensures t in r.allClusters <==> Registered(registry, t) && t.name in env.refs
    {
      ResolvesExactly(env, registry, t);
    }
  }

  // ---- the app's selection -----------------------------------------------

  function Among(names: seq<string>, allowed: seq<string>): (r: seq<string>)
    ensures forall n :: n in r <==> n in names && n in allowed
  {
    if names == [] then []
    else
      var n := |names| - 1;
      assert names == names[..n] + [names[n]];
      Among(names[..n], allowed) + if names[n] in allowed then [names[n]] else []
  }

  /** No selection inherits the default, "*" takes every cluster, anything else is
      cut down to the environment's clusters. */
  function Selection(sel: seq<string>, envDefault: seq<string>, envRefs: seq<string>): seq<string> {
    if sel == [] then Once(envDefault)
    else if ALL_CLUSTERS in sel then Once(envRefs)
    else Once(Among(sel, envRefs))
  }

  method Dedupe(names: seq<string>) returns (out: seq<string>)
    ensures out == Once(names)
  {
    var seen: set<string> := {};
    out := [];
    for i := 0 to |names|
      invariant out == Once(names[..i])
      invariant forall n :: n in seen <==> n in names[..i]
    {
      assert names[..i + 1][..i] == names[..i] && names[..i + 1][i] == names[i];
      if names[i] !in seen {
        seen := seen + {names[i]};
        out := out + [names[i]];
      }
    }
    assert names[..|names|] == names;
  }

  ghost predicate SelectsExactly(sel: seq<string>, envDefault: seq<string>, envRefs: seq<string>, out: seq<string>) {
    forall n :: n in out <==> if sel == [] then n in envDefault else n in envRefs && ("*" in sel || n in sel)
  }

  lemma SelectionExactly(sel: seq<string>, envDefault: seq<string>, envRefs: seq<string>)
    ensures SelectsExactly(sel, envDefault, envRefs, Selection(sel, envDefault, envRefs))
  {
  }

  method ResolveAppClusterTargets(sel: seq<string>, envDefault: seq<string>, envRefs: seq<string>)
    returns (out: seq<string>)
    ensures out == Selection(sel, envDefault, envRefs)
    ensures Distinct(out)
    ensures SelectsExactly(sel, envDefault, envRefs, out)
  {
    SelectionExactly(sel, envDefault, envRefs);
    if |sel| == 0 {
      out := Dedupe(envDefault);
      return;
    }
    for i := 0 to |sel|
      invariant forall j :: 0 <= j < i ==> sel[j] != ALL_CLUSTERS
    {
      if sel[i] == ALL_CLUSTERS {
        out := Dedupe(envRefs);
        return;
      }
    }
    assert sel[..|sel|] == sel;
    var seen: set<string> := {};
    out := [];
    for i := 0 to |sel|
      invariant out == Once(Among(sel[..i], envRefs))
      invariant forall n :: n in seen <==> n in out
    {
      OneMoreAmong(sel, envRefs, i);
      if sel[i] in envRefs && sel[i] !in seen {
        seen := seen + {sel[i]};
        out := out + [sel[i]];
      }
    }
  }

  lemma OneMoreAmong(sel: seq<string>, envRefs: seq<string>, i: nat)
    requires i < |sel|
    ensures var before := Among(sel[..i], envRefs);
            Once(Among(sel[..i + 1], envRefs))
            == Once(before) + if sel[i] in envRefs && sel[i] !in Once(before) then [sel[i]] else []
  {
    var before := Among(sel[..i], envRefs);
    assert sel[..i + 1][..i] == sel[..i];
    if sel[i] in envRefs {
      assert Among(sel[..i + 1], envRefs) == before + [sel[i]];
      assert (before + [sel[i]])[..|before|] == before;
    } else {
      assert Among(sel[..i + 1], envRefs) == before;
    }
  }

  function Names(targets: seq<Target>): seq<string> {
    seq(|targets|, i requires 0 <= i < |targets| => targets[i].name)
  }

  ghost predicate Named(pool: seq<Target>, name: string) {
    exists i :: 0 <= i < |pool| && pool[i].name == name
  }

  /** Targets picked by name come from the pool, one for each name it knows. */
  method SelectClusterTargets(pool: seq<Target>, want: seq<string>) returns (out: seq<Target>)
    ensures forall t :: t in out ==> t in pool && t.name in want
    ensures forall n :: n in want && Named(pool, n) ==> Named(out, n)
  {
    var byName: map<string, Target> := map[];
    for i := 0 to |pool|
      invariant forall n :: n in byName <==> Named(pool[..i], n)
      invariant forall n :: n in byName ==> byName[n] in pool && byName[n].name == n
    {
      byName := byName[pool[i].name := pool[i]];
      OneMoreNamed(pool, i);
    }
    assert pool[..|pool|] == pool;
    out := [];
    for i := 0 to |want|
      invariant forall t :: t in out ==> t in pool && t.name in want
      invariant forall n :: n in want[..i] && Named(pool, n) ==> Named(out, n)
    {
      ghost var before := out;
      if want[i] in byName {
        out := out + [byName[want[i]]];
        assert out[|before|].name == want[i];
        assert Named(out, want[i]);
      }
      forall n | n in want[..i + 1] && Named(pool, n) ensures Named(out, n) {
        if n != want[i] {
          assert Named(before, n);
          var k :| 0 <= k < |before| && before[k].name == n;
          assert out[k].name == n;
        }
      }
    }
    assert want[..|want|] == want;
  }

  lemma OneMoreNamed(pool: seq<Target>, i: nat)
    requires i < |pool|
    ensures forall n :: Named(pool[..i + 1], n) <==> Named(pool[..i], n) || pool[i].name == n
  {
    forall n ensures Named(pool[..i + 1], n) <==> Named(pool[..i], n) || pool[i].name == n {
      if Named(pool[..i], n) {
        var k :| 0 <= k < i && pool[..i][k].name == n;
        assert pool[..i + 1][k].name == n;
      }
      if Named(pool[..i + 1], n) {
        var k :| 0 <= k <= i && pool[..i + 1][k].name == n;
        if k < i { assert pool[..i][k].name == n; }
      }
      assert pool[..i + 1][i] == pool[i];
    }
  }

  /** What an app is authorised for: the clusters the shared infrastructure spans. */
  function InfraClusters(res: Resolved): seq<Target> {
    if res.allClusters == [] then res.clusters else res.allClusters
  }

  /** Some cluster of the full set is picked. */
  ghost predicate PicksSome(sel: seq<string>, res: Resolved) {
    exists n :: n in Selection(sel, Names(res.clusters), Names(res.allClusters)) && Named(res.allClusters, n)
  }

  /** Of the environment's clusters: the default ones without a selection, all with
      "*", else the selected ones. */
  ghost predicate IsPicked(sel: seq<string>, res: Resolved, n: string) {
    Named(res.allClusters, n) && (if sel == [] then Named(res.clusters, n) else "*" in sel || n in sel)
  }

  lemma NamesAre(ts: seq<Target>, n: string)
    ensures n in Names(ts) <==> Named(ts, n)
  {
    if Named(ts, n) {
      var i :| 0 <= i < |ts| && ts[i].name == n;
      assert Names(ts)[i] == n;
    }
  }

  lemma PickedIsSelected(sel: seq<string>, res: Resolved, n: string)
    ensures IsPicked(sel, res, n) <==>
              n in Selection(sel, Names(res.clusters), Names(res.allClusters)) && Named(res.allClusters, n)
  {
    NamesAre(res.clusters, n);
    NamesAre(res.allClusters, n);
  }

  method AppClusterTargets(sel: seq<string>, res: Resolved) returns (out: seq<Target>)
    ensures if exists n :: IsPicked(sel, res, n) then
              && (forall t :: t in out ==> t in res.allClusters)
              && (forall n :: Named(out, n) <==> IsPicked(sel, res, n))
            else out == res.clusters
    ensures res.allClusters == [] ==> out == res.clusters
    ensures res.allClusters != [] && PicksSome(sel, res) ==>
              forall t :: t in out ==>
                t in res.allClusters && t.name in Selection(sel, Names(res.clusters), Names(res.allClusters))
    ensures res.allClusters != [] && PicksSome(sel, res) ==> out != []
    ensures res.allClusters != [] && !PicksSome(sel, res) ==> out == res.clusters
    ensures (forall t :: t in out ==> t in InfraClusters(res)) <==>
              res.allClusters == [] || PicksSome(sel, res) || forall t :: t in res.clusters ==> t in res.allClusters
  {
    forall n ensures IsPicked(sel, res, n) <==>
      n in Selection(sel, Names(res.clusters), Names(res.allClusters)) && Named(res.allClusters, n)
    {
      PickedIsSelected(sel, res, n);
    }
    if |res.allClusters| == 0 { return res.clusters; }
    var names := ResolveAppClusterTargets(sel, Names(res.clusters), Names(res.allClusters));
    var selected := SelectClusterTargets(res.allClusters, names);
    if PicksSome(sel, res) {
      var n :| n in names && Named(res.allClusters, n);
      assert Named(selected, n);
    }
    if |selected| > 0 {
      assert selected[0] in selected;
      NamedBy(res.allClusters, selected[0]);
      return selected;
    }
    return res.clusters;
  }

  lemma NamedBy(pool: seq<Target>, t: Target)
    requires t in pool
    ensures Named(pool, t.name)
  {
  }

  // ---- when an app stays inside what is authorised -----------------------

  lemma NamesOfLookup(registry: Registry, refs: seq<string>)
    ensures forall n :: n in Names(Lookup(registry, refs)) <==> n in refs && Resolves(registry, n)
    ensures forall n :: Named(Lookup(registry, refs), n) <==> n in refs && Resolves(registry, n)
  {
    var ts := Lookup(registry, refs);
    forall n ensures n in Names(ts) <==> Named(ts, n) {
      if Named(ts, n) {
        var i :| 0 <= i < |ts| && ts[i].name == n;
        assert Names(ts)[i] == n;
      }
    }
    forall n ensures Named(ts, n) <==> n in refs && Resolves(registry, n) {
      if n in refs && Resolves(registry, n) {
        assert TargetFor(registry, n) in ts;
        NamedBy(ts, TargetFor(registry, n));
      }
      if Named(ts, n) {
        var i :| 0 <= i < |ts| && ts[i].name == n;
        assert ts[i] in ts;
      }
    }
  }

  ghost predicate StaysAuthorized(sel: seq<string>, res: Resolved) {
    res.allClusters == [] || PicksSome(sel, res) || forall t :: t in res.clusters ==> t in res.allClusters
  }

  /** An app can reach a cluster its project is not authorised for exactly when the
      environment deploys to an active cluster that is registered but not among its
      references, some reference is registered, and the app selects none of those. */
  lemma AuthorizedExactly(env: OrgEnv, registry: Registry, sel: seq<string>)
    ensures StaysAuthorized(sel, ResolvedEnv(env, registry)) <==>
              env.deployAll || EffectiveClusterRef(env) in env.refs
              || !Resolves(registry, EffectiveClusterRef(env))
              || EffectiveClusterRef(env) == ""
              || (forall ref :: ref in env.refs ==> !Resolves(registry, ref))
              || (exists s :: s in sel && (s == ALL_CLUSTERS || (s in env.refs && Resolves(registry, s))))
  {
    var res, active := ResolvedEnv(env, registry), EffectiveClusterRef(env);
    NamesOfLookup(registry, env.refs);
    NamesOfLookup(registry, DeployTargets(env));
    if forall ref :: ref in env.refs ==> !Resolves(registry, ref) {
      NothingResolves(registry, env.refs);
    } else if !env.deployAll && active !in env.refs && active != "" && Resolves(registry, active) {
      var ref :| ref in env.refs && Resolves(registry, ref);
      assert TargetFor(registry, ref) in res.allClusters;
      assert TargetFor(registry, active) in res.clusters && TargetFor(registry, active) !in res.allClusters;
      PicksExactly(env, registry, sel);
    }
  }

  lemma {:induction false} NothingResolves(registry: Registry, refs: seq<string>)
    requires forall ref :: ref in refs ==> !Resolves(registry, ref)
    ensures Lookup(registry, refs) == []
  {
    if refs == [] {
    } else {
      NothingResolves(registry, refs[..|refs| - 1]);
    }
  }

  /** With a default outside the references, only the app's own selection picks. */
  lemma PicksExactly(env: OrgEnv, registry: Registry, sel: seq<string>)
    requires !env.deployAll && EffectiveClusterRef(env) !in env.refs
    requires exists ref :: ref in env.refs && Resolves(registry, ref)
    ensures PicksSome(sel, ResolvedEnv(env, registry)) <==>
              exists s :: s in sel && (s == ALL_CLUSTERS || (s in env.refs && Resolves(registry, s)))
  {
    var res := ResolvedEnv(env, registry);
    NamesOfLookup(registry, env.refs);
    NamesOfLookup(registry, DeployTargets(env));
    var picked := Selection(sel, Names(res.clusters), Names(res.allClusters));
    if s :| s in sel && (s == ALL_CLUSTERS || (s in env.refs && Resolves(registry, s))) {
      if ALL_CLUSTERS in sel {
        var ref :| ref in env.refs && Resolves(registry, ref);
        assert ref in picked && Named(res.allClusters, ref);
      } else {
        assert s in picked && Named(res.allClusters, s);
      }
    } else if sel == [] {
      forall n | n in picked ensures !Named(res.allClusters, n) {
        assert n in DeployTargets(env);
      }
    } else {
      assert picked == Once(Among(sel, Names(res.allClusters)));
    }
  }

  /** What a saved organisation has been checked for. */
  predicate ValidActive(env: OrgEnv) {
    env.active == "" || env.active in env.refs
  }

  /** So in a saved organisation no selection leaves the authorised clusters. */
  lemma SavedStaysAuthorized(env: OrgEnv, registry: Registry, sel: seq<string>)
    requires ValidActive(env)
    ensures StaysAuthorized(sel, ResolvedEnv(env, registry))
  {
    AuthorizedExactly(env, registry, sel);
  }

  /** When the default targets are among the references, no selection can leave the
      authorised clusters. */
  lemma DefaultInsideIsEnough(env: OrgEnv, registry: Registry, sel: seq<string>)
    requires forall ref :: ref in DeployTargets(env) ==> ref in env.refs
    ensures StaysAuthorized(sel, ResolvedEnv(env, registry))
  {
    var active := EffectiveClusterRef(env);
    if !env.deployAll && active != "" { assert active in DeployTargets(env); }
    AuthorizedExactly(env, registry, sel);
  }

  // ---- the project's destinations ----------------------------------------

  datatype Destination = Destination(server: string, namespace: string)

  const DEFAULT_SERVER := "https://kubernetes.default.svc"

  predicate DestinationAtMost(a: Destination, b: Destination) {
    if a.server != b.server then Lex.Less(a.server, b.server) else Lex.AtMost(a.namespace, b.namespace)
  }

  lemma DestinationsAreTotal()
    ensures TotalOrder(DestinationAtMost)
    ensures forall a, b :: DestinationAtMost(a, b) && DestinationAtMost(b, a) ==> a == b
  {
    Lex.StrictTotalOrder();
  }

  function Glob(glob: string): string {
    if glob == "" then "*" else glob
  }

  function Fill(d: Destination, glob: string): Destination {
    if d.namespace == "" then d.(namespace := Glob(glob)) else d
  }

  function FillAll(ds: seq<Destination>, glob: string): seq<Destination> {
    seq(|ds|, i requires 0 <= i < |ds| => Fill(ds[i], glob))
  }

  function Fallback(server: string, glob: string): Destination {
    Destination(if server == "" then DEFAULT_SERVER else server, Glob(glob))
  }

  /** The first of the two that is not empty, "*" if both are. */
  function GlobOr(namespace: string, glob: string): string {
    if namespace != "" then namespace else if glob != "" then glob else "*"
  }

  /** A listed destination with its namespace filled in; without any the given server,
      or ArgoCD's own. */
  ghost predicate IsDestination(ds: seq<Destination>, server: string, glob: string, d: Destination) {
    if ds == [] then
      d == Destination(if server == "" then "https://kubernetes.default.svc" else server, GlobOr("", glob))
    else exists x :: x in ds && d.server == x.server && d.namespace == GlobOr(x.namespace, glob)
  }

  method BuildArgoAppProject(ds: seq<Destination>, server: string, glob: string) returns (out: seq<Destination>)
    ensures ds != [] ==> Sorts(Once(FillAll(ds, glob)), out, DestinationAtMost)
    ensures ds == [] ==> out == [Fallback(server, glob)]
    ensures forall d :: d in out <==> IsDestination(ds, server, glob, d)
    ensures Distinct(out) && forall i, j :: 0 <= i < j < |out| ==>
              Lex.Less(out[i].server, out[j].server)
              || (out[i].server == out[j].server && Lex.Less(out[i].namespace, out[j].namespace))
  {
    var namespaceGlob := if glob == "" then "*" else glob;
    if |ds| == 0 {
      return [Destination(if server == "" then DEFAULT_SERVER else server, namespaceGlob)];
    }
    var seen: set<Destination> := {};
    out := [];
    ghost var filled := FillAll(ds, glob);
    for i := 0 to |ds|
      invariant out == Once(filled[..i])
      invariant forall d :: d in seen <==> d in out
    {
      var d := ds[i];
      if d.namespace == "" { d := d.(namespace := namespaceGlob); }
      assert filled[..i + 1][..i] == filled[..i] && filled[i] == d;
      if d in seen { continue; }
      seen := seen + {d};
      out := out + [d];
    }
    assert filled[..|ds|] == filled;
    DestinationsAreTotal();
    var sorted := SortSlice(out, DestinationAtMost);
    ProjectDestinations(ds, server, glob, sorted);
    out := sorted;
  }

  lemma ProjectDestinations(ds: seq<Destination>, server: string, glob: string, out: seq<Destination>)
    requires ds != [] && Sorts(Once(FillAll(ds, glob)), out, DestinationAtMost)
    ensures forall d :: d in out <==> IsDestination(ds, server, glob, d)
    ensures Distinct(out) && forall i, j :: 0 <= i < j < |out| ==>
              Lex.Less(out[i].server, out[j].server)
              || (out[i].server == out[j].server && Lex.Less(out[i].namespace, out[j].namespace))
  {
    var once := Once(FillAll(ds, glob));
    FilledMembers(ds, glob);
    MultisetMembers(once, out);
    DistinctPermutation(once, out);
    forall d ensures d in out <==> IsDestination(ds, server, glob, d) {
      if IsDestination(ds, server, glob, d) {
        var x :| x in ds && d.server == x.server && d.namespace == GlobOr(x.namespace, glob);
        assert Fill(x, glob) == d;
      }
      if x :| x in ds && Fill(x, glob) == d { assert d.namespace == GlobOr(x.namespace, glob); }
    }
    forall i, j | 0 <= i < j < |out|
      ensures Lex.Less(out[i].server, out[j].server)
              || (out[i].server == out[j].server && Lex.Less(out[i].namespace, out[j].namespace))
    {
      assert DestinationAtMost(out[i], out[j]) && out[i] != out[j];
    }
  }

  /** The project depends only on which destinations there are: reordering or
      repeating a list gives the identical project. */
  lemma OnlyTheSetMatters(a: seq<Destination>, b: seq<Destination>, glob: string, x: seq<Destination>,
                          y: seq<Destination>)
    requires forall d :: d in a <==> d in b
    requires Sorts(Once(FillAll(a, glob)), x, DestinationAtMost) && Sorts(Once(FillAll(b, glob)), y, DestinationAtMost)
    ensures x == y
    ensures Distinct(x) && forall d :: d in a ==> Fill(d, glob) in x
  {
    FilledMembers(a, glob);
    FilledMembers(b, glob);
    var oa, ob := Once(FillAll(a, glob)), Once(FillAll(b, glob));
    DistinctMultiset(oa, ob);
    DestinationsAreTotal();
    SortedUnique(x, y, DestinationAtMost);
    MultisetMembers(oa, x);
    DistinctPermutation(oa, x);
  }

  lemma FilledMembers(ds: seq<Destination>, glob: string)
    ensures forall f :: f in FillAll(ds, glob) <==> exists d :: d in ds && Fill(d, glob) == f
  {
    forall f ensures f in FillAll(ds, glob) <==> exists d :: d in ds && Fill(d, glob) == f {
      if f in FillAll(ds, glob) {
        var i :| 0 <= i < |ds| && FillAll(ds, glob)[i] == f;
        assert ds[i] in ds && Fill(ds[i], glob) == f;
      }
      if d :| d in ds && Fill(d, glob) == f {
        var i :| 0 <= i < |ds| && ds[i] == d;
        assert FillAll(ds, glob)[i] == f;
      }
    }
  }
}
