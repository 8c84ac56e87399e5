/** Which stages a publish lets Kargo promote automatically: the promotion graph, the
    pins and the kind of validation together decide it. */
module AutoPromotion {
  import opened Lex
  import opened ReleasePipeline
  import opened Policies
  import opened Sorting

  /** The environments that have a stage. */
  function Staged(cfg: Config, envs: seq<PublishEnv>): seq<Env> {
    if envs == [] then []
    else
      var e := envs[|envs| - 1];
      Staged(cfg, envs[..|envs| - 1]) + if e.bound && Enabled(cfg, e.env) then [e.env] else []
  }

  /** A missing entry reads as the empty source. */
  predicate HasNoSource(sources: map<string, string>, name: string) {
    name !in sources || sources[name] == ""
  }

  function ProjectEnvOf(cfg: Config, ephemeral: bool, app: string, pinned: set<string>, sources: map<string, string>,
                        e: Env): ProjectEnv
  {
    ProjectEnv(app, e.name,
               HasNoSource(sources, e.name) && !(ephemeral && cfg.validation != "" && e.name == cfg.validation),
               e.name in pinned)
  }

  function PoliciesFor(cfg: Config, ephemeral: bool, app: string, pinned: set<string>, sources: map<string, string>,
                       list: seq<Env>): seq<Policy>
  {
    seq(|list|, i requires 0 <= i < |list| => PolicyOf(ProjectEnvOf(cfg, ephemeral, app, pinned, sources, list[i])))
  }

  method StagedEnvs(cfg: Config, envs: seq<PublishEnv>) returns (staged: seq<Env>)
    ensures staged == Staged(cfg, envs)
  {
    staged := [];
    for i := 0 to |envs|
      invariant staged == Staged(cfg, envs[..i])
    {
      assert envs[..i + 1][..i] == envs[..i];
      var e := envs[i];
      if e.env.kind.Preview? || !e.bound || e.env.name in cfg.disabled { continue; }
      staged := staged + [e.env];
    }
    assert envs[..|envs|] == envs;
  }

  method StagePolicies(cfg: Config, ephemeral: bool, app: string, pinned: set<string>, sources: map<string, string>,
                       list: seq<Env>)
    returns (policies: seq<Policy>)
    ensures policies == PoliciesFor(cfg, ephemeral, app, pinned, sources, list)
  {
    var projectEnvs := [];
    for i := 0 to |list|
      invariant |projectEnvs| == i
      invariant forall k :: 0 <= k < i ==>
                  projectEnvs[k] == ProjectEnvOf(cfg, ephemeral, app, pinned, sources, list[k])
    {
      var name := list[i].name;
      var first := (name !in sources || sources[name] == "")
                   && !(ephemeral && cfg.validation != "" && name == cfg.validation);
      projectEnvs := projectEnvs + [ProjectEnv(app, name, first, name in pinned)];
    }
    policies := BuildKargoPromotionPolicies(projectEnvs);
  }

  method PublishKargoPolicies(cfg: Config, ephemeral: bool, app: string, pinned: set<string>, envs: seq<PublishEnv>,
                              existing: seq<Policy>)
    returns (r: Result<seq<Policy>>, ghost list: seq<Env>, ghost stable: seq<Env>)
    ensures Sorts(Staged(cfg, envs), list, NotAfter) && Sorts(EnabledEnvs(cfg, list), stable, NotAfter)
    ensures match Outcome(cfg, stable)
            case Failure(error) => r == Failure(error)
            case Success(sources) =>
              var own := PoliciesFor(cfg, ephemeral, app, pinned, sources, list);
              r.Success? && Sorts(Kept(existing, app) + own, r.value, StageAtMost)
    ensures r.Success? && (ProperNames(stable) || ProperBound(envs)) ==>
              ListFits(cfg, ephemeral, app, pinned, envs, existing, r.value)
  {
    var staged := StagedEnvs(cfg, envs);
    NotAfterIsTotal();
    var sorted := SortSlice(staged, NotAfter);
    list := sorted;
    var sources;
    sources, stable := ReleasePipeline.ReleasePipeline(cfg, sorted);
    if sources.Failure? { return Failure(sources.error), list, stable; }
    var policies := StagePolicies(cfg, ephemeral, app, pinned, sources.value, sorted);
    var merged := MergeKargoPromotionPolicies(existing, app, policies);
    if ProperBound(envs) { StagedIsProper(cfg, envs, list, stable); }
    if ProperNames(stable) {
      AutomaticExactly(cfg, ephemeral, app, pinned, envs, existing, list, stable, merged);
    }
    r := Success(merged);
  }

  lemma {:induction false} StagedMembers(cfg: Config, envs: seq<PublishEnv>)
    ensures forall e :: e in Staged(cfg, envs) <==> BoundStable(cfg.disabled, envs, PublishEnv(e, true))
  {
    if envs == [] {
    } else {
      assert envs == envs[..|envs| - 1] + [envs[|envs| - 1]];
      StagedMembers(cfg, envs[..|envs| - 1]);
    }
  }

  lemma {:induction false} StagedDistinct(cfg: Config, envs: seq<PublishEnv>)
    requires ProperBound(envs)
    ensures ProperNames(Staged(cfg, envs))
  {
    if envs == [] {
    } else {
      var n := |envs| - 1;
      StagedDistinct(cfg, envs[..n]);
      StagedMembers(cfg, envs[..n]);
      if envs[n].bound {
        forall e | e in Staged(cfg, envs[..n]) ensures e.name != envs[n].env.name {
          var i :| 0 <= i < n && envs[..n][i] == PublishEnv(e, true);
        }
      }
    }
  }

  lemma StagedIsProper(cfg: Config, envs: seq<PublishEnv>, list: seq<Env>, stable: seq<Env>)
    requires Sorts(Staged(cfg, envs), list, NotAfter) && Sorts(EnabledEnvs(cfg, list), stable, NotAfter)
    requires ProperBound(envs)
    ensures ProperNames(stable)
  {
    StagedDistinct(cfg, envs);
    ProperPermutation(Staged(cfg, envs), list);
    ProperSorted(cfg, list, stable);
  }

  /** A stage Kargo may promote without being asked: the first bound environment's,
      and the validator's unless its runs are scheduled one by one. */
  ghost predicate Unprompted(cfg: Config, ephemeral: bool, pinned: set<string>, envs: seq<PublishEnv>, e: PublishEnv) {
    && e.env.name !in pinned
    && (FirstBound(cfg.disabled, envs, e) || (!ephemeral && cfg.validation != "" && e.env.name == cfg.validation))
  }

  ghost predicate IsOwn(cfg: Config, ephemeral: bool, app: string, pinned: set<string>, envs: seq<PublishEnv>,
                        p: Policy)
  {
    exists e ::
      && BoundStable(cfg.disabled, envs, e)
      && p.stage == app + "-" + e.env.name
      && (p.auto <==> Unprompted(cfg, ephemeral, pinned, envs, e))
  }

  /** Of the stages that carry the app's name the list has exactly those of its bound,
      enabled, stable environments; of all others what it had. */
  ghost predicate ListFits(cfg: Config, ephemeral: bool, app: string, pinned: set<string>, envs: seq<PublishEnv>,
                           existing: seq<Policy>, list: seq<Policy>)
  {
    && (forall p :: p in list && app + "-" <= p.stage <==> IsOwn(cfg, ephemeral, app, pinned, envs, p))
    && (forall p: Policy :: !(app + "-" <= p.stage) ==> multiset(list)[p] == multiset(existing)[p])
  }

  lemma StagedIsBound(cfg: Config, envs: seq<PublishEnv>, list: seq<Env>, stable: seq<Env>, e: Env)
    requires Sorts(Staged(cfg, envs), list, NotAfter) && Sorts(EnabledEnvs(cfg, list), stable, NotAfter)
    ensures e in list <==> BoundStable(cfg.disabled, envs, PublishEnv(e, true))
    ensures e in list <==> Chosen(cfg, list, e)
    ensures e in list ==> (IsBase(cfg, list, e) <==> FirstBound(cfg.disabled, envs, PublishEnv(e, true)))
  {
    StagedMembers(cfg, envs);
    MultisetMembers(list, Staged(cfg, envs));
    if FirstBound(cfg.disabled, envs, PublishEnv(e, true)) {
      forall g | Chosen(cfg, list, g) ensures e.order < g.order || (e.order == g.order && AtMost(e.name, g.name)) {
        assert BoundStable(cfg.disabled, envs, PublishEnv(g, true));
      }
    }
    if IsBase(cfg, list, e) {
      forall g | BoundStable(cfg.disabled, envs, g)
        ensures e.order < g.env.order || (e.order == g.env.order && AtMost(e.name, g.env.name))
      {
        assert g == PublishEnv(g.env, true);
        assert Chosen(cfg, list, g.env);
      }
    }
  }

  /** The policy computed for a staged environment says what it must of that one. */
  lemma PolicyFits(cfg: Config, ephemeral: bool, app: string, pinned: set<string>, envs: seq<PublishEnv>,
                   list: seq<Env>, stable: seq<Env>, e: Env)
    requires Sorts(Staged(cfg, envs), list, NotAfter) && Sorts(EnabledEnvs(cfg, list), stable, NotAfter)
    requires Validated(cfg, stable) && e in list
    ensures var p := PolicyOf(ProjectEnvOf(cfg, ephemeral, app, pinned, Sources(cfg, stable, |stable|), e));
            && p.stage == app + "-" + e.name
            && (p.auto <==> Unprompted(cfg, ephemeral, pinned, envs, PublishEnv(e, true)))
  {
    StagedIsBound(cfg, envs, list, stable, e);
    SourcesAreFit(cfg, list, stable);
    ChosenAreSorted(cfg, list, stable);
    var i :| 0 <= i < |stable| && stable[i] == e;
    SourceFitsAt(cfg, list, stable, i);
    if cfg.validation != "" { AcceptedExactly(cfg, stable); }
    InLineExactly(cfg, list, stable, i);
  }

  /** Of an app's stages a published list has exactly those of its bound, enabled,
      stable environments, and lets Kargo promote unasked exactly the first and a
      permanent validator, unless pinned. Other apps' policies stay as they were. */
  lemma AutomaticExactly(cfg: Config, ephemeral: bool, app: string, pinned: set<string>, envs: seq<PublishEnv>,
                         existing: seq<Policy>, list: seq<Env>, stable: seq<Env>, merged: seq<Policy>)
    requires Sorts(Staged(cfg, envs), list, NotAfter) && Sorts(EnabledEnvs(cfg, list), stable, NotAfter)
    requires Validated(cfg, stable)
    requires var own := PoliciesFor(cfg, ephemeral, app, pinned, Sources(cfg, stable, |stable|), list);
             Sorts(Kept(existing, app) + own, merged, StageAtMost)
    ensures ListFits(cfg, ephemeral, app, pinned, envs, existing, merged)
  {
    var own := PoliciesFor(cfg, ephemeral, app, pinned, Sources(cfg, stable, |stable|), list);
    OwnPoliciesFit(cfg, ephemeral, app, pinned, envs, list, stable);
    forall p
      ensures p in merged && app + "-" <= p.stage <==> IsOwn(cfg, ephemeral, app, pinned, envs, p)
      ensures !(app + "-" <= p.stage) ==> multiset(merged)[p] == multiset(existing)[p]
    {
      MergedCounts(existing, app, own, merged, p);
    }
  }

  lemma OwnPoliciesFit(cfg: Config, ephemeral: bool, app: string, pinned: set<string>, envs: seq<PublishEnv>,
                       list: seq<Env>, stable: seq<Env>)
    requires Sorts(Staged(cfg, envs), list, NotAfter) && Sorts(EnabledEnvs(cfg, list), stable, NotAfter)
    requires Validated(cfg, stable)
    ensures var own := PoliciesFor(cfg, ephemeral, app, pinned, Sources(cfg, stable, |stable|), list);
            forall p :: (p in own <==> IsOwn(cfg, ephemeral, app, pinned, envs, p))
                        && (p in own ==> app + "-" <= p.stage)
  {
    var own := PoliciesFor(cfg, ephemeral, app, pinned, Sources(cfg, stable, |stable|), list);
    forall p
      ensures p in own <==> IsOwn(cfg, ephemeral, app, pinned, envs, p)
      ensures p in own ==> app + "-" <= p.stage
    {
      if p in own {
        var i :| 0 <= i < |own| && own[i] == p;
        OwnAt(cfg, ephemeral, app, pinned, envs, list, stable, list[i]);
      }
      if IsOwn(cfg, ephemeral, app, pinned, envs, p) {
        OwnIsListed(cfg, ephemeral, app, pinned, envs, list, stable, p);
      }
    }
  }

  lemma OwnAt(cfg: Config, ephemeral: bool, app: string, pinned: set<string>, envs: seq<PublishEnv>, list: seq<Env>,
              stable: seq<Env>, e: Env)
    requires Sorts(Staged(cfg, envs), list, NotAfter) && Sorts(EnabledEnvs(cfg, list), stable, NotAfter)
    requires Validated(cfg, stable) && e in list
    ensures var p := PolicyOf(ProjectEnvOf(cfg, ephemeral, app, pinned, Sources(cfg, stable, |stable|), e));
            IsOwn(cfg, ephemeral, app, pinned, envs, p) && app + "-" <= p.stage
  {
    PolicyFits(cfg, ephemeral, app, pinned, envs, list, stable, e);
    StagedIsBound(cfg, envs, list, stable, e);
    assert BoundStable(cfg.disabled, envs, PublishEnv(e, true));
  }

  lemma OwnIsListed(cfg: Config, ephemeral: bool, app: string, pinned: set<string>, envs: seq<PublishEnv>,
                    list: seq<Env>, stable: seq<Env>, p: Policy)
    requires Sorts(Staged(cfg, envs), list, NotAfter) && Sorts(EnabledEnvs(cfg, list), stable, NotAfter)
    requires Validated(cfg, stable) && IsOwn(cfg, ephemeral, app, pinned, envs, p)
    ensures p in PoliciesFor(cfg, ephemeral, app, pinned, Sources(cfg, stable, |stable|), list)
  {
    var e :| BoundStable(cfg.disabled, envs, e) && p.stage == app + "-" + e.env.name
             && (p.auto <==> Unprompted(cfg, ephemeral, pinned, envs, e));
    assert e == PublishEnv(e.env, true);
    StagedIsBound(cfg, envs, list, stable, e.env);
    PolicyFits(cfg, ephemeral, app, pinned, envs, list, stable, e.env);
    var i :| 0 <= i < |list| && list[i] == e.env;
    assert PoliciesFor(cfg, ephemeral, app, pinned, Sources(cfg, stable, |stable|), list)[i] == p;
  }
}
