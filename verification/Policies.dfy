/** The promotion policies of a project: one shared list into which every app's
    publish merges its own. */
module Policies {
  import Lex
  import opened Sorting

  datatype Policy = Policy(stage: string, auto: bool)

  datatype ProjectEnv = ProjectEnv(app: string, env: string, first: bool, pinned: bool)

  /** One publish, or teardown when there are no policies. */
  datatype Op = Op(app: string, policies: seq<Policy>)

  function StageName(app: string, env: string): string {
    app + "-" + env
  }

  predicate HasPrefix(s: string, prefix: string) {
    |prefix| <= |s| && s[..|prefix|] == prefix
  }

  /** An app claims the stages that start with its name and a hyphen. */
  predicate Claims(app: string, stage: string) {
    HasPrefix(stage, app + "-")
  }

  lemma ClaimsOwn(app: string, env: string)
    ensures Claims(app, StageName(app, env))
  {
    assert StageName(app, env)[..|app + "-"|] == app + "-";
  }

  predicate StageAtMost(a: Policy, b: Policy) {
    Lex.AtMost(a.stage, b.stage)
  }

  function Kept(policies: seq<Policy>, app: string): (r: seq<Policy>)
    ensures |r| <= |policies|
    ensures |r| == |policies| ==> r == policies
    ensures forall p :: p in r <==> p in policies && !Claims(app, p.stage)
  {
    if policies == [] then []
    else
      var n := |policies| - 1;
      assert policies == policies[..n] + [policies[n]];
      Kept(policies[..n], app) + if Claims(app, policies[n].stage) then [] else [policies[n]]
  }

  function PolicyOf(env: ProjectEnv): Policy {
    Policy(StageName(env.app, env.env), env.first && !env.pinned)
  }

  method BuildKargoPromotionPolicies(envs: seq<ProjectEnv>) returns (policies: seq<Policy>)
    ensures |policies| == |envs|
    ensures forall i :: 0 <= i < |envs| ==> policies[i].stage == StageName(envs[i].app, envs[i].env)
    ensures forall i :: 0 <= i < |envs| ==> (policies[i].auto <==> envs[i].first && !envs[i].pinned)
  {
    policies := [];
    for i := 0 to |envs|
      invariant |policies| == i && forall k :: 0 <= k < i ==> policies[k] == PolicyOf(envs[k])
    {
      policies := policies + [Policy(StageName(envs[i].app, envs[i].env), envs[i].first && !envs[i].pinned)];
    }
  }

  /** What starts with the app's name and a hyphen is replaced, and only that. */
  ghost predicate Replaces(existing: seq<Policy>, app: string, own: seq<Policy>, merged: seq<Policy>) {
    forall p: Policy :: multiset(merged)[p] ==
                          multiset(own)[p] + if app + "-" <= p.stage then 0 else multiset(existing)[p]
  }

  ghost predicate StagesAscend(policies: seq<Policy>) {
    forall i, j :: 0 <= i < j < |policies| ==> Lex.AtMost(policies[i].stage, policies[j].stage)
  }

  method MergeKargoPromotionPolicies(existing: seq<Policy>, app: string, appPolicies: seq<Policy>)
    returns (merged: seq<Policy>)
    ensures Sorts(Kept(existing, app) + appPolicies, merged, StageAtMost)
    ensures Replaces(existing, app, appPolicies, merged) && StagesAscend(merged)
  {
    var prefix := app + "-";
    merged := [];
    for i := 0 to |existing|
      invariant merged == Kept(existing[..i], app)
    {
      KeptOneMore(existing, i, app);
      var p := existing[i];
      if !HasPrefix(p.stage, prefix) { merged := merged + [p]; }
    }
    assert existing[..|existing|] == existing;
    merged := merged + appPolicies;
    StagesAreTotal();
    merged := SortSlice(merged, StageAtMost);
    SortedAscends(merged);
    MergeReplaces(existing, app, appPolicies, merged);
  }

  lemma KeptOneMore(policies: seq<Policy>, i: nat, app: string)
    requires i < |policies|
    ensures Kept(policies[..i + 1], app)
         == Kept(policies[..i], app) + if Claims(app, policies[i].stage) then [] else [policies[i]]
  {
    assert policies[..i + 1][..i] == policies[..i];
  }

  lemma SortedAscends(policies: seq<Policy>)
    requires Sorted(policies, StageAtMost)
    ensures StagesAscend(policies)
  {
    forall i, j | 0 <= i < j < |policies| ensures Lex.AtMost(policies[i].stage, policies[j].stage) {
      assert StageAtMost(policies[i], policies[j]);
    }
  }

  lemma StagesAreTotal()
    ensures TotalOrder(StageAtMost)
  {
    Lex.StrictTotalOrder();
  }

  /** The list a step leaves holds these policies, in some order. */
  ghost predicate Merged(before: seq<Policy>, op: Op, after: seq<Policy>) {
    multiset(after) == multiset(Kept(before, op.app) + op.policies)
  }

  /** The project's configuration file. */
  class ProjectConfig {
    var policies: seq<Policy>

    constructor ()
      ensures policies == []
    {
      policies := [];
    }

    method Publish(app: string, envs: seq<ProjectEnv>) returns (ghost op: Op)
      requires forall i :: 0 <= i < |envs| ==> envs[i].app == app
      modifies this
      ensures op.app == app && Merged(old(policies), op, policies) && Sorted(policies, StageAtMost)
      ensures WellNamed(op)
      ensures Replaces(old(policies), app, op.policies, policies) && StagesAscend(policies)
      ensures |op.policies| == |envs| && forall i :: 0 <= i < |envs| ==>
        op.policies[i] == Policy(app + "-" + envs[i].env, envs[i].first && !envs[i].pinned)
    {
      var appPolicies := BuildKargoPromotionPolicies(envs);
      policies := MergeKargoPromotionPolicies(policies, app, appPolicies);
      op := Op(app, appPolicies);
      forall p | p in appPolicies ensures Claims(app, p.stage) {
        var i :| 0 <= i < |envs| && appPolicies[i] == p;
        ClaimsOwn(app, envs[i].env);
      }
    }

    /** Rewritten only when something was dropped. */
    method Teardown(app: string)
      modifies this
      ensures Merged(old(policies), Op(app, []), policies)
      ensures KeepsSorted(old(policies), policies)
      ensures Replaces(old(policies), app, [], policies)
    {
      var merged := MergeKargoPromotionPolicies(policies, app, []);
      assert Kept(policies, app) + [] == Kept(policies, app);
      if |merged| != |policies| {
        policies := merged;
      } else {
        assert |merged| == |multiset(merged)| == |multiset(Kept(policies, app))| == |Kept(policies, app)|;
      }
    }
  }

  /** An app publishes only stages that carry its name. */
  ghost predicate WellNamed(op: Op) {
    forall p :: p in op.policies ==> Claims(op.app, p.stage)
  }

  // ---- runs --------------------------------------------------------------

  ghost predicate Run(states: seq<seq<Policy>>, ops: seq<Op>) {
    && |states| == |ops| + 1 && states[0] == []
    && forall i :: 0 <= i < |ops| ==> Merged(states[i], ops[i], states[i + 1]) && KeepsSorted(states[i], states[i + 1])
  }

  /** A publish sorts, a teardown keeps what is sorted. */
  ghost predicate KeepsSorted(before: seq<Policy>, after: seq<Policy>) {
    Sorted(before, StageAtMost) ==> Sorted(after, StageAtMost)
  }

  lemma {:induction false} AlwaysSorted(states: seq<seq<Policy>>, ops: seq<Op>, n: nat)
    requires Run(states, ops) && n < |states|
    ensures Sorted(states[n], StageAtMost) && StagesAscend(states[n])
  {
    if n == 0 {
    } else {
      AlwaysSorted(states, ops, n - 1);
      assert KeepsSorted(states[n - 1], states[n]);
    }
  }

  function KeptByAll(policies: seq<Policy>, ops: seq<Op>): seq<Policy>
    decreases |ops|
  {
    if ops == [] then policies else KeptByAll(Kept(policies, ops[0].app), ops[1..])
  }

  /** Every operation's policies that no later operation claims. */
  function Survivors(ops: seq<Op>): seq<Policy> {
    if ops == [] then [] else KeptByAll(ops[0].policies, ops[1..]) + Survivors(ops[1..])
  }

  lemma {:induction false} KeptConcat(a: seq<Policy>, b: seq<Policy>, app: string)
    ensures Kept(a + b, app) == Kept(a, app) + Kept(b, app)
  {
    if b == [] {
      assert a + b == a;
    } else {
      assert (a + b)[..|a + b| - 1] == a + b[..|b| - 1];
      KeptConcat(a, b[..|b| - 1], app);
    }
  }

  lemma {:induction false} KeptByOneMore(policies: seq<Policy>, ops: seq<Op>, op: Op)
    ensures KeptByAll(policies, ops + [op]) == Kept(KeptByAll(policies, ops), op.app)
    decreases |ops|
  {
    if ops == [] {
      assert (ops + [op])[1..] == [];
      assert KeptByAll(policies, [op]) == KeptByAll(Kept(policies, op.app), []);
    } else {
      assert (ops + [op])[1..] == ops[1..] + [op];
      KeptByOneMore(Kept(policies, ops[0].app), ops[1..], op);
    }
  }

  lemma SurvivorsOfOne(op: Op)
    ensures Survivors([op]) == op.policies
  {
    assert [op][1..] == [];
    assert Survivors([]) == [];
  }

  lemma {:induction false} SurvivorsOneMore(ops: seq<Op>, op: Op)
    ensures Survivors(ops + [op]) == Kept(Survivors(ops), op.app) + op.policies
  {
    if ops == [] {
      assert ops + [op] == [op];
      SurvivorsOfOne(op);
    } else {
      SurvivorsUnfold(ops, op);
      SurvivorsOneMore(ops[1..], op);
      KeptByOneMore(ops[0].policies, ops[1..], op);
      var a, b := KeptByAll(ops[0].policies, ops[1..]), Survivors(ops[1..]);
      KeptConcat(a, b, op.app);
      Associates(Kept(a, op.app), Kept(b, op.app), op.policies);
      assert Survivors(ops) == a + b;
    }
  }

  lemma SurvivorsUnfold(ops: seq<Op>, op: Op)
    requires ops != []
    ensures Survivors(ops + [op]) == KeptByAll(ops[0].policies, ops[1..] + [op]) + Survivors(ops[1..] + [op])
  {
    assert (ops + [op])[1..] == ops[1..] + [op];
  }

  lemma Associates<T>(a: seq<T>, b: seq<T>, c: seq<T>)
    ensures a + (b + c) == (a + b) + c
  {
  }

  lemma {:induction false} KeptCounts(policies: seq<Policy>, app: string, p: Policy)
    ensures multiset(Kept(policies, app))[p] == if Claims(app, p.stage) then 0 else multiset(policies)[p]
  {
    if policies == [] {
    } else {
      var n := |policies| - 1;
      assert policies == policies[..n] + [policies[n]];
      KeptCounts(policies[..n], app, p);
    }
  }

  lemma MergedCounts(existing: seq<Policy>, app: string, own: seq<Policy>, merged: seq<Policy>, p: Policy)
    requires multiset(merged) == multiset(Kept(existing, app) + own)
    ensures multiset(merged)[p] == multiset(own)[p] + if app + "-" <= p.stage then 0 else multiset(existing)[p]
  {
    KeptCounts(existing, app, p);
  }

  lemma MergeReplaces(existing: seq<Policy>, app: string, own: seq<Policy>, merged: seq<Policy>)
    requires multiset(merged) == multiset(Kept(existing, app) + own)
    ensures Replaces(existing, app, own, merged)
  {
    forall p: Policy ensures multiset(merged)[p] ==
      multiset(own)[p] + if app + "-" <= p.stage then 0 else multiset(existing)[p]
    {
      MergedCounts(existing, app, own, merged, p);
    }
  }

  lemma SameKept(a: seq<Policy>, b: seq<Policy>, app: string)
    requires multiset(a) == multiset(b)
    ensures multiset(Kept(a, app)) == multiset(Kept(b, app))
  {
    forall p ensures multiset(Kept(a, app))[p] == multiset(Kept(b, app))[p] {
      KeptCounts(a, app, p);
      KeptCounts(b, app, p);
    }
  }

  lemma SurvivorsStep(before: seq<Policy>, ops: seq<Op>, op: Op, after: seq<Policy>)
    requires multiset(before) == multiset(Survivors(ops)) && Merged(before, op, after)
    ensures multiset(after) == multiset(Survivors(ops + [op]))
  {
    SurvivorsOneMore(ops, op);
    SameKept(before, Survivors(ops), op.app);
  }

  /** Whatever the order, after any sequence of publishes and teardowns the list
      holds, with multiplicity, the policies no later operation claimed. */
  lemma {:induction false} ListIsSurvivors(states: seq<seq<Policy>>, ops: seq<Op>)
    requires Run(states, ops)
    ensures multiset(states[|ops|]) == multiset(Survivors(ops))
    decreases |ops|
  {
    if ops == [] {
    } else {
      var n := |ops| - 1;
      assert Run(states[..|states| - 1], ops[..n]);
      ListIsSurvivors(states[..|states| - 1], ops[..n]);
      assert ops == ops[..n] + [ops[n]];
      SurvivorsStep(states[n], ops[..n], ops[n], states[n + 1]);
    }
  }

  /** A policy is still listed exactly when some operation published it and no later
      one was for an app whose name and a hyphen its stage starts with. */
  lemma {:induction false} SurvivorsExactly(ops: seq<Op>, p: Policy)
    ensures p in Survivors(ops) <==> Unreplaced(ops, p)
  {
    if ops == [] {
    } else {
      var n := |ops| - 1;
      var op := ops[n];
      assert ops == ops[..n] + [op];
      SurvivorsOneMore(ops[..n], op);
      SurvivorsExactly(ops[..n], p);
      UnreplacedStep(ops[..n], op, p);
    }
  }

  ghost predicate UnreplacedAt(ops: seq<Op>, p: Policy, i: nat) {
    i < |ops| && p in ops[i].policies && forall j :: i < j < |ops| ==> !(ops[j].app + "-" <= p.stage)
  }

  ghost predicate Unreplaced(ops: seq<Op>, p: Policy) {
    exists i: nat :: UnreplacedAt(ops, p, i)
  }

  lemma UnreplacedStep(ops: seq<Op>, op: Op, p: Policy)
    ensures Unreplaced(ops + [op], p) <==>
              p in op.policies || (Unreplaced(ops, p) && !(op.app + "-" <= p.stage))
  {
    var all := ops + [op];
    assert all[|ops|] == op;
    if p in op.policies { assert UnreplacedAt(all, p, |ops|); }
    if i: nat :| UnreplacedAt(ops, p, i) {
      if !(op.app + "-" <= p.stage) { assert UnreplacedAt(all, p, i); }
    }
    if i: nat :| UnreplacedAt(all, p, i) {
      if i < |ops| {
        assert forall j :: i < j < |ops| ==> ops[j] == all[j];
        assert UnreplacedAt(ops, p, i);
      }
    }
  }

  // ---- each app's latest -------------------------------------------------

  ghost predicate PublishesAgain(ops: seq<Op>, app: string) {
    exists i :: 0 <= i < |ops| && ops[i].app == app
  }

  /** Each app's latest policies, and nothing older. */
  ghost function Latest(ops: seq<Op>): seq<Policy> {
    if ops == [] then []
    else (if PublishesAgain(ops[1..], ops[0].app) then [] else ops[0].policies) + Latest(ops[1..])
  }

  /** No later operation of another app claims a stage of an app's latest policies. */
  ghost predicate NothingTaken(ops: seq<Op>) {
    forall i, j, p ::
      0 <= i < j < |ops| && !PublishesAgain(ops[i + 1..], ops[i].app) && p in ops[i].policies ==>
        !Claims(ops[j].app, p.stage)
  }

  lemma {:induction false} KeptByAllIs(policies: seq<Policy>, ops: seq<Op>)
    ensures |KeptByAll(policies, ops)| <= |policies|
    ensures forall p :: p in KeptByAll(policies, ops) ==>
              p in policies && forall j :: 0 <= j < |ops| ==> !Claims(ops[j].app, p.stage)
    ensures KeptByAll(policies, ops) == policies <==>
              forall j, p :: 0 <= j < |ops| && p in policies ==> !Claims(ops[j].app, p.stage)
    ensures |KeptByAll(policies, ops)| == |policies| ==> KeptByAll(policies, ops) == policies
    decreases |ops|
  {
    if ops == [] {
    } else {
      var less := Kept(policies, ops[0].app);
      KeptByAllIs(less, ops[1..]);
      forall p | p in KeptByAll(policies, ops)
        ensures p in policies && forall j :: 0 <= j < |ops| ==> !Claims(ops[j].app, p.stage)
      {
        forall j | 0 <= j < |ops| ensures !Claims(ops[j].app, p.stage) {
          if j > 0 { assert ops[1..][j - 1] == ops[j]; }
        }
      }
      if forall j, p :: 0 <= j < |ops| && p in policies ==> !Claims(ops[j].app, p.stage) {
        AllUnclaimed(policies, ops);
      }
    }
  }

  lemma {:induction false} AllUnclaimed(policies: seq<Policy>, ops: seq<Op>)
    requires forall j, p :: 0 <= j < |ops| && p in policies ==> !Claims(ops[j].app, p.stage)
    ensures KeptByAll(policies, ops) == policies
    decreases |ops|
  {
    if ops == [] {
    } else {
      KeptNothingClaimed(policies, ops[0].app);
      assert forall j :: 0 <= j < |ops| - 1 ==> ops[1..][j] == ops[j + 1];
      AllUnclaimed(policies, ops[1..]);
    }
  }

  lemma {:induction false} KeptAllClaimed(policies: seq<Policy>, ops: seq<Op>, i: nat)
    requires i < |ops| && forall p :: p in policies ==> Claims(ops[i].app, p.stage)
    ensures KeptByAll(policies, ops) == []
    decreases |ops|
  {
    var less := Kept(policies, ops[0].app);
    if i == 0 {
      KeptNone(policies, ops[0].app);
      KeptByAllIs([], ops[1..]);
    } else {
      KeptAllClaimed(less, ops[1..], i - 1);
    }
  }

  lemma {:induction false} KeptNone(policies: seq<Policy>, app: string)
    requires forall p :: p in policies ==> Claims(app, p.stage)
    ensures Kept(policies, app) == []
  {
    if policies == [] {
    } else {
      KeptNone(policies[..|policies| - 1], app);
    }
  }

  lemma {:induction false} KeptNothingClaimed(policies: seq<Policy>, app: string)
    requires forall p :: p in policies ==> !Claims(app, p.stage)
    ensures Kept(policies, app) == policies
  {
    if policies == [] {
    } else {
      var n := |policies| - 1;
      assert policies == policies[..n] + [policies[n]];
      KeptNothingClaimed(policies[..n], app);
    }
  }

  /** An older publish of an app leaves nothing behind. */
  lemma OlderIsReplaced(op: Op, later: seq<Op>)
    requires WellNamed(op) && PublishesAgain(later, op.app)
    ensures KeptByAll(op.policies, later) == []
  {
    var i :| 0 <= i < |later| && later[i].app == op.app;
    KeptAllClaimed(op.policies, later, i);
  }

  /** The list is the union of each app's latest policies exactly when none of them
      was taken for another app's by a later publish. */
  lemma {:induction false} SurvivorsAreLatest(ops: seq<Op>)
    requires forall i :: 0 <= i < |ops| ==> WellNamed(ops[i])
    ensures |Survivors(ops)| <= |Latest(ops)|
    ensures Survivors(ops) == Latest(ops) <==> NothingTaken(ops)
    ensures |Survivors(ops)| == |Latest(ops)| ==> Survivors(ops) == Latest(ops)
  {
    if ops == [] {
    } else {
      var op, rest := ops[0], ops[1..];
      SurvivorsAreLatest(rest);
      KeptByAllIs(op.policies, rest);
      if PublishesAgain(rest, op.app) { OlderIsReplaced(op, rest); }
      TakenStep(ops);
    }
  }

  lemma TakenStep(ops: seq<Op>)
    requires ops != []
    ensures NothingTaken(ops) <==>
              NothingTaken(ops[1..])
              && (PublishesAgain(ops[1..], ops[0].app) || forall j, p :: 0 <= j < |ops| - 1 && p in ops[0].policies ==>
                   !Claims(ops[1..][j].app, p.stage))
  {
    var rest := ops[1..];
    if NothingTaken(ops) {
      forall i, j, p | 0 <= i < j < |rest| && !PublishesAgain(rest[i + 1..], rest[i].app) && p in rest[i].policies
        ensures !Claims(rest[j].app, p.stage)
      {
        assert ops[i + 1] == rest[i] && ops[j + 1] == rest[j];
        assert rest[i + 1..] == ops[(i + 1) + 1..];
        assert !PublishesAgain(ops[(i + 1) + 1..], ops[i + 1].app);
      }
      if !PublishesAgain(rest, ops[0].app) {
        forall j, p | 0 <= j < |rest| && p in ops[0].policies ensures !Claims(rest[j].app, p.stage) {
          assert ops[0 + 1..] == rest && ops[j + 1] == rest[j];
        }
      }
    } else {
      var i, j, p :| 0 <= i < j < |ops| && !PublishesAgain(ops[i + 1..], ops[i].app)
        && p in ops[i].policies && Claims(ops[j].app, p.stage);
      assert rest[j - 1] == ops[j];
      if i > 0 { assert rest[i - 1] == ops[i] && rest[(i - 1) + 1..] == ops[i + 1..]; }
    }
  }

  /** With names that never alias, every run ends in the same list: each app's
      latest, sorted by stage, however the publishes of different apps interleave. */
  lemma InterleavingDoesNotMatter(a: seq<seq<Policy>>, x: seq<Op>, b: seq<seq<Policy>>, y: seq<Op>)
    requires Run(a, x) && Run(b, y) && Unaliased(x) && Unaliased(y)
    requires forall app :: LatestOf(x, app) == LatestOf(y, app)
    ensures a[|x|] == b[|y|] && StagesAscend(a[|x|])
  {
    AlwaysSorted(a, x, |x|);
    AlwaysSorted(b, y, |y|);
    ListIsSurvivors(a, x);
    ListIsSurvivors(b, y);
    UnaliasedIsLatest(x);
    UnaliasedIsLatest(y);
    DistinctMultiset(Latest(x), Latest(y));
    StagesDecide(a[|x|], Latest(x));
    SortedUnique(a[|x|], b[|y|], StageAtMost);
  }

  lemma UnaliasedIsLatest(ops: seq<Op>)
    requires Unaliased(ops)
    ensures Survivors(ops) == Latest(ops) && OncePerStage(Latest(ops)) && Distinct(Latest(ops))
    ensures forall p :: p in Latest(ops) <==> InSomeLatest(ops, p)
  {
    SurvivorsAreLatest(ops);
    UnaliasedTakesNothing(ops);
    LatestMembers(ops);
    LatestDistinct(ops);
  }

  lemma StagesDecide(list: seq<Policy>, latest: seq<Policy>)
    requires multiset(list) == multiset(latest) && OncePerStage(latest)
    ensures forall p, q :: p in list && q in list && StageAtMost(p, q) && StageAtMost(q, p) ==> p == q
  {
    MultisetMembers(list, latest);
    forall p, q | p in list && q in list && StageAtMost(p, q) && StageAtMost(q, p) ensures p == q {
      if Lex.Less(p.stage, q.stage) { Lex.Asymmetric(p.stage, q.stage); }
      StageDecides(latest, p, q);
    }
  }

  /** Every publish names its own stages, each once, and no app claims another's. */
  ghost predicate Unaliased(ops: seq<Op>) {
    && (forall i :: 0 <= i < |ops| ==> WellNamed(ops[i]) && OncePerStage(ops[i].policies))
    && (forall i, j, p :: 0 <= i < |ops| && 0 <= j < |ops| && ops[i].app != ops[j].app && p in ops[i].policies ==>
         !Claims(ops[j].app, p.stage))
  }

  ghost predicate OncePerStage(policies: seq<Policy>) {
    forall i, j :: 0 <= i < j < |policies| ==> policies[i].stage != policies[j].stage
  }

  /** The policies of an app's last publish; none if it never published. */
  ghost function LatestOf(ops: seq<Op>, app: string): seq<Policy>
    decreases |ops|
  {
    if ops == [] then []
    else if ops[|ops| - 1].app == app then ops[|ops| - 1].policies
    else LatestOf(ops[..|ops| - 1], app)
  }

  ghost predicate InSomeLatest(ops: seq<Op>, p: Policy) {
    exists app :: p in LatestOf(ops, app)
  }

  lemma UnaliasedTakesNothing(ops: seq<Op>)
    requires Unaliased(ops)
    ensures NothingTaken(ops)
  {
    forall i, j, p | 0 <= i < j < |ops| && !PublishesAgain(ops[i + 1..], ops[i].app) && p in ops[i].policies
      ensures !Claims(ops[j].app, p.stage)
    {
      assert ops[i + 1..][j - i - 1] == ops[j];
    }
  }

  lemma UnaliasedRest(ops: seq<Op>)
    requires Unaliased(ops) && ops != []
    ensures Unaliased(ops[1..])
  {
    assert forall i :: 0 <= i < |ops| - 1 ==> ops[1..][i] == ops[i + 1];
  }

  lemma AgainInit(ops: seq<Op>, app: string)
    requires ops != []
    ensures PublishesAgain(ops, app) <==> ops[|ops| - 1].app == app || PublishesAgain(ops[..|ops| - 1], app)
  {
    if PublishesAgain(ops, app) {
      var i :| 0 <= i < |ops| && ops[i].app == app;
      assert i < |ops| - 1 ==> ops[..|ops| - 1][i] == ops[i];
    }
  }

  lemma {:induction false} LatestOfRest(ops: seq<Op>, app: string)
    requires ops != []
    ensures LatestOf(ops, app)
         == if PublishesAgain(ops[1..], app) then LatestOf(ops[1..], app)
            else if ops[0].app == app then ops[0].policies else []
    decreases |ops|
  {
    var n := |ops| - 1;
    if n == 0 {
      assert ops[..0] == [] && ops[1..] == [];
    } else {
      assert ops[1..][n - 1] == ops[n];
      AgainInit(ops[1..], app);
      if ops[n].app != app {
        LatestOfRest(ops[..n], app);
        assert ops[..n][1..] == ops[1..][..n - 1];
      }
    }
  }

  lemma {:induction false} LatestMembers(ops: seq<Op>)
    ensures forall p :: p in Latest(ops) <==> InSomeLatest(ops, p)
  {
    if ops == [] {
    } else {
      var rest := ops[1..];
      LatestMembers(rest);
      forall app
        ensures LatestOf(ops, app)
             == if PublishesAgain(rest, app) then LatestOf(rest, app)
                else if ops[0].app == app then ops[0].policies else []
        ensures !PublishesAgain(rest, app) ==> LatestOf(rest, app) == []
      {
        LatestOfRest(ops, app);
        NeverPublished(rest, app);
      }
      forall p ensures p in Latest(ops) <==> InSomeLatest(ops, p) {
        if p in Latest(rest) {
          var app :| p in LatestOf(rest, app);
          assert p in LatestOf(ops, app);
        } else if p in Latest(ops) {
          assert p in LatestOf(ops, ops[0].app);
        } else {
          forall app ensures p !in LatestOf(ops, app) {
            assert p !in LatestOf(rest, app);
          }
        }
      }
    }
  }

  lemma {:induction false} NeverPublished(ops: seq<Op>, app: string)
    ensures !PublishesAgain(ops, app) ==> LatestOf(ops, app) == []
    decreases |ops|
  {
    if ops == [] {
    } else {
      AgainInit(ops, app);
      NeverPublished(ops[..|ops| - 1], app);
    }
  }

  lemma {:induction false} LatestFrom(ops: seq<Op>)
    ensures forall p :: p in Latest(ops) ==>
              exists i :: 0 <= i < |ops| && p in ops[i].policies && !PublishesAgain(ops[i + 1..], ops[i].app)
  {
    if ops == [] {
    } else {
      LatestFrom(ops[1..]);
      forall p | p in Latest(ops)
        ensures exists i :: 0 <= i < |ops| && p in ops[i].policies && !PublishesAgain(ops[i + 1..], ops[i].app)
      {
        if p in Latest(ops[1..]) {
          var i :| 0 <= i < |ops| - 1 && p in ops[1..][i].policies
            && !PublishesAgain(ops[1..][i + 1..], ops[1..][i].app);
          assert ops[1..][i + 1..] == ops[(i + 1) + 1..];
          assert ops[i + 1] == ops[1..][i];
        } else {
          assert ops[0 + 1..] == ops[1..] && p in ops[0].policies;
        }
      }
    }
  }

  lemma {:induction false} LatestDistinct(ops: seq<Op>)
    requires Unaliased(ops)
    ensures OncePerStage(Latest(ops)) && Distinct(Latest(ops))
  {
    if ops == [] {
    } else {
      UnaliasedRest(ops);
      LatestDistinct(ops[1..]);
      LatestFrom(ops[1..]);
      if !PublishesAgain(ops[1..], ops[0].app) {
        forall p, q | p in ops[0].policies && q in Latest(ops[1..]) ensures p.stage != q.stage {
          var i :| 0 <= i < |ops| - 1 && q in ops[1..][i].policies
            && !PublishesAgain(ops[1..][i + 1..], ops[1..][i].app);
          assert ops[i + 1] == ops[1..][i];
          assert ops[i + 1].app != ops[0].app;
          assert Claims(ops[0].app, p.stage) && !Claims(ops[0].app, q.stage);
        }
      }
    }
  }

  lemma {:induction false} LatestHas(ops: seq<Op>, i: nat, p: Policy)
    requires i < |ops| && !PublishesAgain(ops[i + 1..], ops[i].app) && p in ops[i].policies
    ensures p in Latest(ops)
  {
    if i == 0 {
    } else {
      assert ops[1..][(i - 1) + 1..] == ops[i + 1..];
      LatestHas(ops[1..], i - 1, p);
    }
  }

  /** What an app's last publish says of a stage is all the list says of it: a stage
      last published as pinned, or as not the first, is not promoted automatically
      whatever was published before or by other apps. */
  lemma LastWordOnAStage(states: seq<seq<Policy>>, ops: seq<Op>, i: nat, p: Policy, q: Policy)
    requires Run(states, ops) && Unaliased(ops)
    requires i < |ops| && !PublishesAgain(ops[i + 1..], ops[i].app) && p in ops[i].policies
    requires q in states[|ops|] && q.stage == p.stage
    ensures q == p
  {
    ListIsSurvivors(states, ops);
    UnaliasedIsLatest(ops);
    MultisetMembers(states[|ops|], Latest(ops));
    LatestHas(ops, i, p);
    StageDecides(Latest(ops), p, q);
  }

  lemma StageDecides(policies: seq<Policy>, p: Policy, q: Policy)
    requires OncePerStage(policies) && p in policies && q in policies && p.stage == q.stage
    ensures p == q
  {
    var x :| 0 <= x < |policies| && policies[x] == p;
    var y :| 0 <= y < |policies| && policies[y] == q;
  }

  /** App "a-b" in environment "c" and app "a": publishing "a" drops the other's
      policy, though both names are valid. */
  lemma AliasedNames(p: Policy, q: Policy)
    requires p.stage == StageName("a-b", "c") && q.stage == StageName("a", "d")
    ensures var ops := [Op("a-b", [p]), Op("a", [q])];
            WellNamed(ops[0]) && WellNamed(ops[1]) && Survivors(ops) == [q] && Latest(ops) == [p, q]
  {
    var x, y := Op("a-b", [p]), Op("a", [q]);
    var ops := [x, y];
    ClaimsOwn("a-b", "c");
    ClaimsOwn("a", "d");
    assert p.stage == "a-b-c" && p.stage[..2] == "a-";
    assert ops[1..] == [y] && [y][1..] == [];
    assert KeptByAll([p], [y]) == KeptByAll(Kept([p], "a"), []);
    assert Kept([p], "a") == [] by { assert [p][..0] == []; }
    assert KeptByAll([q], []) == [q];
    assert Survivors([y]) == KeptByAll([q], []) + Survivors([]) == [q];
    assert !PublishesAgain([y], "a-b") && !PublishesAgain([], "a");
    assert Latest([y]) == [q] + Latest([]);
  }
}
