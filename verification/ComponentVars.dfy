/** The variables a component renders with: app-wide settings, an environment's
    override on top, and for previews the all-previews band on top of that. */
module ComponentVars {
  import opened Wrappers

  datatype Var = Var(name: string, value: string, fromConfig: string, fromSecret: string)
  datatype Override = Override(inherit: Option<bool>, vars: seq<Var>)
  datatype Component = Component(name: string, inherit: Option<bool>, vars: seq<Var>)

  type Overrides = map<string, Override>

  /** `envs` holds the component overrides of every listed environment; a listed
      environment may have none. */
  datatype Spec = Spec(components: seq<Component>, envs: map<string, Overrides>)

  /** The reserved environment name that carries the all-previews band. */
  const PREVIEW := "preview"

  // ---- merging two lists -------------------------------------------------

  function Names(vars: seq<Var>): seq<string> {
    seq(|vars|, i requires 0 <= i < |vars| => vars[i].name)
  }

  predicate Has(vars: seq<Var>, name: string) {
    exists i :: 0 <= i < |vars| && vars[i].name == name
  }

  /** The definition a map filled front to back ends up with. */
  function LastOf(vars: seq<Var>, name: string): Var
    requires Has(vars, name)
    decreases |vars|
  {
    if vars[|vars| - 1].name == name then vars[|vars| - 1] else LastOf(vars[..|vars| - 1], name)
  }

  function Replaced(base: seq<Var>, override: seq<Var>): seq<Var> {
    seq(|base|, i requires 0 <= i < |base| =>
      if Has(override, base[i].name) then LastOf(override, base[i].name) else base[i])
  }

  /** The first entry of each name that base does not have. */
  function Added(base: seq<Var>, override: seq<Var>): seq<Var>
    decreases |override|
  {
    if override == [] then []
    else
      var e := override[|override| - 1];
      Added(base, override[..|override| - 1]) +
      if Has(base, e.name) || Has(override[..|override| - 1], e.name) then [] else [e]
  }

  function MergeVars(base: seq<Var>, override: seq<Var>): seq<Var> {
    Replaced(base, override) + Added(base, override)
  }

  lemma {:induction false} LastOfProps(vars: seq<Var>, name: string)
    requires Has(vars, name)
    ensures LastOf(vars, name) in vars && LastOf(vars, name).name == name
    decreases |vars|
  {
    if vars[|vars| - 1].name == name {
    } else {
      LastOfProps(vars[..|vars| - 1], name);
    }
  }

  lemma HasPrefix(vars: seq<Var>, n: nat, name: string)
    requires n < |vars|
    ensures Has(vars[..n + 1], name) <==> Has(vars[..n], name) || vars[n].name == name
  {
    if vars[n].name == name { assert vars[..n + 1][n].name == name; }
    if Has(vars[..n], name) {
      var i :| 0 <= i < n && vars[..n][i].name == name;
      assert vars[..n + 1][i].name == name;
    }
  }

  method ByName(override: seq<Var>) returns (byName: map<string, Var>)
    ensures forall n :: n in byName <==> Has(override, n)
    ensures forall n :: n in byName ==> byName[n] == LastOf(override, n)
  {
    byName := map[];
    for i := 0 to |override|
      invariant forall n :: n in byName <==> Has(override[..i], n)
      invariant forall n :: n in byName ==> byName[n] == LastOf(override[..i], n)
    {
      forall n { HasPrefix(override, i, n); }
      assert override[..i + 1][..i] == override[..i];
      byName := byName[override[i].name := override[i]];
    }
    assert override[..|override|] == override;
  }

  method MergeComponentEnvVars(base: seq<Var>, override: seq<Var>) returns (out: seq<Var>)
    ensures out == MergeVars(base, override)
  {
    if |override| == 0 {
      assert Replaced(base, override) == base;
      return base;
    }
    var byName := ByName(override);
    out := [];
    var seen: set<string> := {};
    for i := 0 to |base|
      invariant out == Replaced(base, override)[..i]
      invariant forall n :: n in seen <==> Has(base[..i], n)
    {
      forall n { HasPrefix(base, i, n); }
      seen := seen + {base[i].name};
      if base[i].name in byName {
        out := out + [byName[base[i].name]];
        continue;
      }
      out := out + [base[i]];
    }
    assert base[..|base|] == base;
    for i := 0 to |override|
      invariant out == Replaced(base, override) + Added(base, override[..i])
      invariant forall n :: n in seen <==> Has(base, n) || Has(override[..i], n)
    {
      forall n { HasPrefix(override, i, n); }
      assert override[..i + 1][..i] == override[..i];
      if override[i].name in seen { continue; }
      seen := seen + {override[i].name};
      out := out + [override[i]];
    }
    assert override[..|override|] == override;
  }

  predicate Distinct(vars: seq<Var>) {
    forall i, j :: 0 <= i < j < |vars| ==> vars[i].name != vars[j].name
  }

  lemma {:induction false} AddedHas(base: seq<Var>, override: seq<Var>, name: string)
    ensures Has(Added(base, override), name) <==> Has(override, name) && !Has(base, name)
    decreases |override|
  {
    if override == [] {
    } else {
      var n := |override| - 1;
      AddedHas(base, override[..n], name);
      HasPrefix(override, n, name);
      assert override[..n + 1] == override;
      AddedHas(base, override[..n], override[n].name);
      var tail := if Has(base, override[n].name) || Has(override[..n], override[n].name) then [] else [override[n]];
      HasConcat(Added(base, override[..n]), tail, name);
      assert tail != [] ==> tail[0] == override[n];
    }
  }

  lemma HasConcat(a: seq<Var>, b: seq<Var>, name: string)
    ensures Has(a + b, name) <==> Has(a, name) || Has(b, name)
  {
    if Has(a, name) {
      var i :| 0 <= i < |a| && a[i].name == name;
      assert (a + b)[i].name == name;
    }
    if Has(b, name) {
      var i :| 0 <= i < |b| && b[i].name == name;
      assert (a + b)[|a| + i].name == name;
    }
  }

  lemma ReplacedNames(base: seq<Var>, override: seq<Var>)
    ensures Names(Replaced(base, override)) == Names(base)
    ensures forall n :: Has(Replaced(base, override), n) <==> Has(base, n)
  {
    forall i | 0 <= i < |base| ensures Replaced(base, override)[i].name == base[i].name {
      if Has(override, base[i].name) { LastOfProps(override, base[i].name); }
    }
    forall n ensures Has(Replaced(base, override), n) <==> Has(base, n) {
      if Has(base, n) {
        var i :| 0 <= i < |base| && base[i].name == n;
        assert Replaced(base, override)[i].name == n;
      }
    }
  }

  lemma {:induction false} AddedDistinct(base: seq<Var>, override: seq<Var>)
    ensures Distinct(Added(base, override))
    decreases |override|
  {
    if override == [] {
    } else {
      var n := |override| - 1;
      AddedDistinct(base, override[..n]);
      AddedHas(base, override[..n], override[n].name);
    }
  }

  /** Merging keeps names unique even if the override repeats itself. */
  lemma MergeDistinct(base: seq<Var>, override: seq<Var>)
    requires Distinct(base)
    ensures Distinct(MergeVars(base, override))
  {
    var r: seq<Var>, a: seq<Var> := Replaced(base, override), Added(base, override);
    var m: seq<Var> := r + a;
    ReplacedNames(base, override);
    AddedDistinct(base, override);
    forall i: nat, j: nat | i < j < |m| ensures m[i].name != m[j].name {
      if j < |r| {
        assert Names(r)[i] == Names(base)[i] && Names(r)[j] == Names(base)[j];
      } else if i < |r| {
        assert Has(r, r[i].name) && Has(a, a[j - |r|].name);
        AddedHas(base, override, a[j - |r|].name);
      }
    }
  }

  /** With unique names a list is a partial function from names to entries. */
  lemma Unique(vars: seq<Var>, e: Var)
    requires Distinct(vars) && e in vars
    ensures Has(vars, e.name) && LastOf(vars, e.name) == e
  {
    var i :| 0 <= i < |vars| && vars[i] == e;
    assert vars[i].name == e.name;
    LastOfProps(vars, e.name);
    var j :| 0 <= j < |vars| && vars[j] == LastOf(vars, e.name);
  }

  /** What a name means after merging: the override's entry if it has one,
      otherwise the base's. */
  lemma MergeMeans(base: seq<Var>, override: seq<Var>, name: string)
    requires Distinct(base) && Distinct(override)
    ensures Has(MergeVars(base, override), name) <==> Has(base, name) || Has(override, name)
    ensures Has(MergeVars(base, override), name) ==>
              LastOf(MergeVars(base, override), name)
              == if Has(override, name) then LastOf(override, name) else LastOf(base, name)
  {
    var r, a := Replaced(base, override), Added(base, override);
    ReplacedNames(base, override);
    AddedHas(base, override, name);
    HasConcat(r, a, name);
    if Has(r + a, name) {
      MergeDistinct(base, override);
      if Has(base, name) {
        var i :| 0 <= i < |base| && base[i].name == name;
        Unique(base, base[i]);
        if Has(override, name) { LastOfProps(override, name); }
        assert (r + a)[i] == r[i];
        Unique(r + a, r[i]);
      } else {
        var i :| 0 <= i < |a| && a[i].name == name;
        AddedFrom(base, override);
        assert a[i] in a;
        Unique(override, a[i]);
        assert (r + a)[|r| + i] == a[i];
        Unique(r + a, a[i]);
      }
    }
  }

  lemma {:induction false} AddedFrom(base: seq<Var>, override: seq<Var>)
    ensures forall e :: e in Added(base, override) ==> e in override
    decreases |override|
  {
    if override == [] {
    } else {
      AddedFrom(base, override[..|override| - 1]);
    }
  }

  /** The base's order is kept, and what the override introduces follows it. */
  lemma MergeOrder(base: seq<Var>, override: seq<Var>)
    ensures Names(MergeVars(base, override)) == Names(base) + Names(Added(base, override))
  {
    ReplacedNames(base, override);
  }

  /** Layering the same unique list twice is layering it once. */
  lemma MergeTwice(base: seq<Var>, override: seq<Var>)
    requires Distinct(override)
    ensures MergeVars(MergeVars(base, override), override) == MergeVars(base, override)
  {
    var m := MergeVars(base, override);
    ReplacedNames(base, override);
    AddedFrom(base, override);
    forall i | 0 <= i < |m| ensures Replaced(m, override)[i] == m[i] {
      if i < |base| {
        if Has(override, base[i].name) { LastOfProps(override, base[i].name); }
      } else {
        assert m[i] in Added(base, override);
        Unique(override, m[i]);
      }
    }
    NothingAddedTwice(base, override);
  }

  // ---- layering a component ----------------------------------------------

  predicate IsEmpty(ov: Override) {
    ov.inherit.None? && ov.vars == []
  }

  function Layer(c: Component, ov: Override): Component {
    if IsEmpty(ov) then c
    else c.(inherit := if ov.inherit.Some? then ov.inherit else c.inherit, vars := MergeVars(c.vars, ov.vars))
  }

  function LayerIn(ovs: Overrides, c: Component): Component {
    if c.name in ovs then Layer(c, ovs[c.name]) else c
  }

  function EnvOverrides(s: Spec, env: string): Overrides {
    if env in s.envs then s.envs[env] else map[]
  }

  /** The components as `env` renders them, and as a preview of `env` does. */
  function StableView(s: Spec, env: string): seq<Component> {
    seq(|s.components|, i requires 0 <= i < |s.components| => LayerIn(EnvOverrides(s, env), s.components[i]))
  }

  function PreviewView(s: Spec, env: string): seq<Component> {
    seq(|s.components|, i requires 0 <= i < |s.components| =>
      LayerIn(EnvOverrides(s, PREVIEW), LayerIn(EnvOverrides(s, env), s.components[i])))
  }

  method EffectiveComponentEnvVars(s: Spec, c: Component, env: string) returns (inherit: Option<bool>, vars: seq<Var>)
    ensures c.(inherit := inherit, vars := vars) == LayerIn(EnvOverrides(s, env), c)
  {
    inherit, vars := c.inherit, c.vars;
    var ovs := EnvOverrides(s, env);
    if c.name !in ovs || IsEmpty(ovs[c.name]) { return; }
    var ov := ovs[c.name];
    if ov.inherit.Some? { inherit := ov.inherit; }
    vars := MergeComponentEnvVars(vars, ov.vars);
  }

  method AppForEnvComponentEnvVars(s: Spec, env: string) returns (components: seq<Component>)
    ensures components == StableView(s, env)
  {
    components := s.components;
    if |EnvOverrides(s, env)| == 0 {
      assert EnvOverrides(s, env) == map[];
      return;
    }
    for i := 0 to |components|
      invariant |components| == |s.components|
      invariant forall j :: 0 <= j < |components| ==>
                  components[j] == if j < i then StableView(s, env)[j] else s.components[j]
    {
      var c := components[i];
      if c.name !in EnvOverrides(s, env) { continue; }
      var inherit, vars := EffectiveComponentEnvVars(s, c, env);
      components := components[i := c.(inherit := inherit, vars := vars)];
    }
  }

  method AppForPreviewComponentEnvVars(s: Spec, env: string) returns (components: seq<Component>)
    ensures components == PreviewView(s, env)
  {
    components := AppForEnvComponentEnvVars(s, env);
    var band := EnvOverrides(s, PREVIEW);
    if |band| == 0 {
      assert band == map[];
      return;
    }
    for i := 0 to |components|
      invariant |components| == |s.components|
      invariant forall j :: 0 <= j < |components| ==>
                  components[j] == if j < i then PreviewView(s, env)[j] else StableView(s, env)[j]
    {
      var c := components[i];
      if c.name !in band { continue; }
      var ov := band[c.name];
      if IsEmpty(ov) { continue; }
      var vars := MergeComponentEnvVars(c.vars, ov.vars);
      components := components[i := c.(inherit := if ov.inherit.Some? then ov.inherit else c.inherit, vars := vars)];
    }
  }

  // ---- what a preview renders with ---------------------------------------

  function Settings(ovs: Overrides, c: Component): seq<Var> {
    if c.name in ovs then ovs[c.name].vars else []
  }

  function Posture(ovs: Overrides, c: Component): Option<bool> {
    if c.name in ovs then ovs[c.name].inherit else None
  }

  lemma LayerVars(ovs: Overrides, c: Component)
    ensures LayerIn(ovs, c).vars == MergeVars(c.vars, Settings(ovs, c))
    ensures LayerIn(ovs, c).inherit == if Posture(ovs, c).Some? then Posture(ovs, c) else c.inherit
    ensures LayerIn(ovs, c).name == c.name
  {
    assert MergeVars(c.vars, []) == c.vars;
  }

  ghost predicate PreviewFollowsLayers(c: Component, stable: seq<Var>, band: seq<Var>, view: seq<Var>, name: string) {
    if Has(band, name) then Has(view, name) && LastOf(view, name) == LastOf(band, name)
    else if Has(stable, name) then Has(view, name) && LastOf(view, name) == LastOf(stable, name)
    else if Has(c.vars, name) then Has(view, name) && LastOf(view, name) == LastOf(c.vars, name)
    else !Has(view, name)
  }

  /** A preview's variable is the band's entry, else its base environment's,
      else the app-wide one; and likewise the posture. */
  lemma PreviewPrecedence(s: Spec, env: string, i: nat, name: string)
    requires i < |s.components|
    requires Distinct(s.components[i].vars) && Distinct(Settings(EnvOverrides(s, env), s.components[i]))
    requires Distinct(Settings(EnvOverrides(s, "preview"), s.components[i]))
    ensures PreviewFollowsLayers(s.components[i], Settings(EnvOverrides(s, env), s.components[i]),
                                 Settings(EnvOverrides(s, "preview"), s.components[i]),
                                 PreviewView(s, env)[i].vars, name)
    ensures var (c, stable, band) := (s.components[i], EnvOverrides(s, env), EnvOverrides(s, "preview"));
            PreviewView(s, env)[i].inherit ==
              if Posture(band, c).Some? then Posture(band, c)
              else if Posture(stable, c).Some? then Posture(stable, c) else c.inherit
  {
    var c, stable, band := s.components[i], EnvOverrides(s, env), EnvOverrides(s, PREVIEW);
    var mid := LayerIn(stable, c);
    LayerVars(stable, c);
    LayerVars(band, mid);
    MergeDistinct(c.vars, Settings(stable, c));
    MergeMeans(c.vars, Settings(stable, c), name);
    MergeMeans(mid.vars, Settings(band, c), name);
  }

  /** The app-wide order comes first, then what the environment adds, then what
      the band adds. */
  lemma PreviewOrder(s: Spec, env: string, i: nat)
    requires i < |s.components|
    ensures var (c, stable, band) := (s.components[i], EnvOverrides(s, env), EnvOverrides(s, PREVIEW));
            var mid := MergeVars(c.vars, Settings(stable, c));
            Names(PreviewView(s, env)[i].vars) ==
              Names(c.vars) + Names(Added(c.vars, Settings(stable, c))) + Names(Added(mid, Settings(band, c)))
  {
    var c, stable, band := s.components[i], EnvOverrides(s, env), EnvOverrides(s, PREVIEW);
    LayerVars(stable, c);
    LayerVars(band, LayerIn(stable, c));
    MergeOrder(c.vars, Settings(stable, c));
    MergeOrder(LayerIn(stable, c).vars, Settings(band, c));
  }

  // ---- CuratesSecrets ----------------------------------------------------

  predicate SelectsSecret(vars: seq<Var>) {
    exists i :: 0 <= i < |vars| && vars[i].fromSecret != ""
  }

  predicate Curates(c: Component) {
    c.inherit == Some(false) && SelectsSecret(c.vars)
  }

  predicate AnyCurates(view: seq<Component>) {
    exists i :: 0 <= i < |view| && Curates(view[i])
  }

  /** Some environment or some preview of one, listed or not, renders a
      component with a curated secret. */
  ghost predicate CuratesSomewhere(s: Spec) {
    exists env: string :: env != PREVIEW && (AnyCurates(StableView(s, env)) || AnyCurates(PreviewView(s, env)))
  }

  method CuratesVars(inherit: Option<bool>, vars: seq<Var>) returns (r: bool)
    ensures r <==> inherit == Some(false) && SelectsSecret(vars)
  {
    if inherit.None? || inherit.value { return false; }
    for i := 0 to |vars|
      invariant forall j :: 0 <= j < i ==> vars[j].fromSecret == ""
    {
      if vars[i].fromSecret != "" { return true; }
    }
    return false;
  }

  method AnyComponentCurates(components: seq<Component>) returns (r: bool)
    ensures r <==> AnyCurates(components)
  {
    for i := 0 to |components|
      invariant forall j :: 0 <= j < i ==> !Curates(components[j])
    {
      var curates := CuratesVars(components[i].inherit, components[i].vars);
      if curates { return true; }
    }
    return false;
  }

  /** There is always an environment name that is not listed. */
  lemma Unlisted(listed: set<string>) returns (name: string)
    ensures name !in listed && name != PREVIEW
  {
    var n := LongerThanAll(listed + {PREVIEW});
    name := seq(n, i => 'x');
  }

  lemma {:induction false} LongerThanAll(names: set<string>) returns (n: nat)
    ensures forall x :: x in names ==> |x| < n
  {
    if names == {} {
      n := 0;
    } else {
      var x :| x in names;
      n := LongerThanAll(names - {x});
      if |x| >= n { n := |x| + 1; }
    }
  }

  /** What the scan has seen once an environment is done. */
  ghost predicate Scanned(s: Spec, env: string) {
    || (EnvOverrides(s, env) == map[] && env != PREVIEW)
    || (!AnyCurates(StableView(s, env)) && (env != PREVIEW ==> !AnyCurates(PreviewView(s, env))))
  }

  lemma ScanIsComplete(s: Spec)
    requires !AnyCurates(s.components)
    requires forall env :: env in s.envs ==> Scanned(s, env)
    ensures !CuratesSomewhere(s)
  {
    forall env: string | env != PREVIEW ensures !AnyCurates(StableView(s, env)) && !AnyCurates(PreviewView(s, env)) {
      if EnvOverrides(s, env) == map[] {
        assert StableView(s, env) == s.components;
        assert PreviewView(s, env) == StableView(s, PREVIEW);
        if PREVIEW !in s.envs { assert StableView(s, PREVIEW) == s.components; }
      }
    }
  }

  /** A listed environment that curates - the band included - is a witness. */
  lemma ScanIsSound(s: Spec, env: string)
    requires AnyCurates(StableView(s, env)) || (env != PREVIEW && AnyCurates(PreviewView(s, env)))
    ensures CuratesSomewhere(s)
  {
    if env == PREVIEW {
      var other := Unlisted(s.envs.Keys);
      assert PreviewView(s, other) == StableView(s, PREVIEW);
    }
  }

  /** The scan visits only listed environments, skips the ones without
      overrides, and never renders a preview of the reserved name - and still
      answers for every environment there could be. */
  method CuratesSecrets(s: Spec) returns (r: bool)
    ensures r <==> CuratesSomewhere(s)
    ensures CuratesAnywhere(s) <==> r || BandCurates(s)
  {
    ScanExactly(s);
    var appWide := AnyComponentCurates(s.components);
    if appWide {
      var other := Unlisted(s.envs.Keys);
      assert StableView(s, other) == s.components;
      return true;
    }
    var todo := s.envs.Keys;
    while todo != {}
      invariant todo <= s.envs.Keys
      invariant forall env :: env in s.envs && env !in todo ==> Scanned(s, env)
      decreases todo
    {
      var env :| env in todo;
      todo := todo - {env};
      if |s.envs[env]| == 0 && env != PREVIEW { continue; }
      for i := 0 to |s.components|
        invariant forall j :: 0 <= j < i ==> !Curates(StableView(s, env)[j])
      {
        var inherit, vars := EffectiveComponentEnvVars(s, s.components[i], env);
        var curates := CuratesVars(inherit, vars);
        if curates {
          assert Curates(StableView(s, env)[i]);
          ScanIsSound(s, env);
          return true;
        }
      }
      if env != PREVIEW {
        var previews := AppForPreviewComponentEnvVars(s, env);
        var curates := AnyComponentCurates(previews);
        if curates {
          ScanIsSound(s, env);
          return true;
        }
      }
    }
    ScanIsComplete(s);
    return false;
  }

  // ---- the reserved name as a base ---------------------------------------

  /** Some environment name at all, the reserved one included, has a view that
      curates. */
  ghost predicate CuratesAnywhere(s: Spec) {
    exists env: string :: AnyCurates(StableView(s, env)) || AnyCurates(PreviewView(s, env))
  }

  /** Read with the last entry of each name of the band, and the app-wide entries
      the band does not name, some component that opts out selects a secret. */
  ghost predicate BandSelects(vars: seq<Var>, band: seq<Var>) {
    || (exists n :: Has(band, n) && LastOf(band, n).fromSecret != "")
    || (exists i :: 0 <= i < |vars| && !Has(band, vars[i].name) && vars[i].fromSecret != "")
  }

  ghost predicate BandCurates(s: Spec) {
    var band := EnvOverrides(s, PREVIEW);
    exists i :: 0 <= i < |s.components| && LayerIn(band, s.components[i]).inherit == Some(false)
                && BandSelects(s.components[i].vars, Settings(band, s.components[i]))
  }

  /** After a second merge every name of the override reads as its last entry, and
      nothing else has changed. */
  lemma TwiceMerged(base: seq<Var>, override: seq<Var>, i: nat)
    requires i < |MergeVars(MergeVars(base, override), override)|
    ensures var e := MergeVars(MergeVars(base, override), override)[i];
            if Has(override, e.name) then e == LastOf(override, e.name) else e in base
  {
    var once := MergeVars(base, override);
    NothingAddedTwice(base, override);
    assert MergeVars(once, override) == Replaced(once, override);
    if i >= |base| { NewNameIsOverrides(base, override, i); }
    if Has(override, once[i].name) {
      LastOfProps(override, once[i].name);
    } else if Has(override, base[i].name) {
      LastOfProps(override, base[i].name);
    }
  }

  lemma NewNameIsOverrides(base: seq<Var>, override: seq<Var>, i: nat)
    requires |base| <= i < |MergeVars(base, override)|
    ensures Has(override, MergeVars(base, override)[i].name)
  {
    AddedFrom(base, override);
    assert MergeVars(base, override)[i] in Added(base, override);
  }

  lemma NothingAddedTwice(base: seq<Var>, override: seq<Var>)
    ensures Added(MergeVars(base, override), override) == []
  {
    var m := MergeVars(base, override);
    ReplacedNames(base, override);
    forall n ensures !Has(Added(m, override), n) {
      AddedHas(m, override, n);
      AddedHas(base, override, n);
      HasConcat(Replaced(base, override), Added(base, override), n);
    }
    if Added(m, override) != [] { assert Has(Added(m, override), Added(m, override)[0].name); }
  }

  lemma MergedHas(base: seq<Var>, override: seq<Var>, n: string)
    ensures Has(MergeVars(base, override), n) <==> Has(base, n) || Has(override, n)
  {
    ReplacedNames(base, override);
    AddedHas(base, override, n);
    HasConcat(Replaced(base, override), Added(base, override), n);
  }

  lemma TwiceSelects(base: seq<Var>, override: seq<Var>)
    ensures SelectsSecret(MergeVars(MergeVars(base, override), override)) <==> BandSelects(base, override)
  {
    var once := MergeVars(base, override);
    var twice := MergeVars(once, override);
    if SelectsSecret(twice) {
      var i :| 0 <= i < |twice| && twice[i].fromSecret != "";
      TwiceMerged(base, override, i);
    }
    if n :| Has(override, n) && LastOf(override, n).fromSecret != "" {
      MergedHas(base, override, n);
      MergedHas(once, override, n);
      var i :| 0 <= i < |twice| && twice[i].name == n;
      TwiceMerged(base, override, i);
    }
    if i :| 0 <= i < |base| && !Has(override, base[i].name) && base[i].fromSecret != "" {
      assert once[i] == base[i] && twice[i] == base[i];
    }
  }

  /** A preview based on the reserved name layers the band twice; this is when it
      curates. */
  lemma PreviewOfBandCurates(s: Spec)
    ensures AnyCurates(PreviewView(s, PREVIEW)) <==> BandCurates(s)
  {
    var band := EnvOverrides(s, PREVIEW);
    forall i | 0 <= i < |s.components|
      ensures Curates(PreviewView(s, PREVIEW)[i]) <==>
                LayerIn(band, s.components[i]).inherit == Some(false)
                  && BandSelects(s.components[i].vars, Settings(band, s.components[i]))
    {
      LayerVars(band, s.components[i]);
      LayerVars(band, LayerIn(band, s.components[i]));
      TwiceSelects(s.components[i].vars, Settings(band, s.components[i]));
    }
  }

  /** Over all names there are, the scan misses nothing but a band that curates only
      when it is layered twice. */
  lemma ScanExactly(s: Spec)
    ensures CuratesAnywhere(s) <==> CuratesSomewhere(s) || BandCurates(s)
  {
    PreviewOfBandCurates(s);
    if env :| AnyCurates(StableView(s, env)) || AnyCurates(PreviewView(s, env)) {
      if env == PREVIEW && AnyCurates(StableView(s, PREVIEW)) { ScanIsSound(s, PREVIEW); }
    }
  }

  /** With unique names in the band a second layering changes nothing, ... */
  lemma PreviewOfBand(s: Spec)
    requires forall c :: c in EnvOverrides(s, PREVIEW) ==> Distinct(EnvOverrides(s, PREVIEW)[c].vars)
    ensures PreviewView(s, PREVIEW) == StableView(s, PREVIEW)
  {
    var band := EnvOverrides(s, PREVIEW);
    forall i | 0 <= i < |s.components|
      ensures LayerIn(band, LayerIn(band, s.components[i])) == LayerIn(band, s.components[i])
    {
      LayerVars(band, s.components[i]);
      LayerVars(band, LayerIn(band, s.components[i]));
      MergeTwice(s.components[i].vars, Settings(band, s.components[i]));
    }
  }

  /** ... so the scan is then exact for every name there is. */
  lemma ScanExactWithoutRepeats(s: Spec)
    requires forall c :: c in EnvOverrides(s, PREVIEW) ==> Distinct(EnvOverrides(s, PREVIEW)[c].vars)
    ensures CuratesAnywhere(s) <==> CuratesSomewhere(s)
  {
    ScanExactly(s);
    PreviewOfBand(s);
    PreviewOfBandCurates(s);
    if AnyCurates(StableView(s, PREVIEW)) { ScanIsSound(s, PREVIEW); }
  }

  lemma FirstOfTwo(base: seq<Var>, x: Var, y: Var)
    requires x.name == y.name
    ensures Added(base, [x, y]) == if Has(base, x.name) then [] else [x]
  {
    assert [x, y][..1] == [x] && [x][..0] == [];
    assert [x][0].name == y.name;
    assert Added(base, []) == [];
    assert Added(base, [x]) == if Has(base, x.name) then [] else [x];
  }

  /** A band that repeats a name reads differently the second time, and the scan
      does not see it. */
  lemma RepeatedNameEscapesScan()
    ensures exists s: Spec :: BandCurates(s) && CuratesAnywhere(s) && !CuratesSomewhere(s)
  {
    var plain, secret := Var("A", "1", "", ""), Var("A", "", "", "KEY");
    var ov := Override(Some(false), [plain, secret]);
    var c := Component("web", None, []);
    var s := Spec([c], map[PREVIEW := map["web" := ov]]);
    var once, twice := Component("web", Some(false), [plain]), Component("web", Some(false), [secret]);
    FirstOfTwo([], plain, secret);
    assert Layer(c, ov) == once;
    assert [plain, secret][1].name == "A";
    assert Replaced([plain], [plain, secret]) == [secret];
    FirstOfTwo([plain], plain, secret);
    assert Layer(once, ov) == twice;
    assert PreviewView(s, PREVIEW)[0] == twice;
    assert twice.vars[0].fromSecret != "";
    assert Curates(twice);
    assert !AnyCurates(s.components);
    assert StableView(s, PREVIEW)[0] == once;
    assert Scanned(s, PREVIEW);
    ScanIsComplete(s);
    PreviewOfBandCurates(s);
    ScanExactly(s);
  }
}
