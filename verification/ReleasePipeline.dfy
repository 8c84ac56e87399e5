/** The promotion graph: which environment each environment is promoted from. */
module ReleasePipeline {
  import opened Lex
  import opened Sorting

  datatype EnvKind = Staging | Prod | Preview | Unset
  datatype Env = Env(name: string, kind: EnvKind, order: int)

  /** `disabled` holds the environments whose Deploy override is false;
      `validation` is "" when no release validation is configured. */
  datatype Config = Config(disabled: set<string>, validation: string, direct: bool)

  datatype Error = DirectDelivery | NotSeparate | PartsMissing
  datatype Result<+T> = Success(value: T) | Failure(error: Error)

  predicate Before(a: Env, b: Env) {
    a.order < b.order || (a.order == b.order && Less(a.name, b.name))
  }

  predicate NotAfter(a: Env, b: Env) {
    !Before(b, a)
  }

  lemma NotAfterIsTotal()
    ensures TotalOrder(NotAfter)
  {
    StrictTotalOrder();
    assert forall x: Env, y: Env :: NotAfter(x, y) || NotAfter(y, x);
  }

  predicate Enabled(cfg: Config, e: Env) {
    !e.kind.Preview? && e.name !in cfg.disabled
  }

  function EnabledEnvs(cfg: Config, envs: seq<Env>): seq<Env> {
    if envs == [] then []
    else EnabledEnvs(cfg, envs[..|envs| - 1]) +
         if Enabled(cfg, envs[|envs| - 1]) then [envs[|envs| - 1]] else []
  }

  // ---- specification over the sorted list --------------------------------

  /** Whether one of the first n environments is called `name`. */
  predicate Mentions(stable: seq<Env>, name: string, n: nat)
    requires n <= |stable|
  {
    n > 0 && (stable[n - 1].name == name || Mentions(stable, name, n - 1))
  }

  /** Whether the validator is the base or a production environment. */
  predicate Misplaced(stable: seq<Env>, name: string, n: nat)
    requires n <= |stable|
  {
    n > 0 && ((stable[n - 1].name == name && (n == 1 || stable[n - 1].kind.Prod?)) || Misplaced(stable, name, n - 1))
  }

  function Check(cfg: Config, stable: seq<Env>): Result<()> {
    if cfg.validation == "" then Success(())
    else if cfg.direct then Failure(DirectDelivery)
    else if Misplaced(stable, cfg.validation, |stable|) then Failure(NotSeparate)
    else if !Mentions(stable, cfg.validation, |stable|) || |stable| < 3 then Failure(PartsMissing)
    else Success(())
  }

  /** The environment the next one in the list will be promoted from. */
  function Previous(cfg: Config, stable: seq<Env>, n: nat): string
    requires n <= |stable|
  {
    if n == 0 then ""
    else
      var before := Previous(cfg, stable, n - 1);
      if stable[n - 1].name == cfg.validation then before
      else if before == "" && cfg.validation != "" then cfg.validation
      else stable[n - 1].name
  }

  function Sources(cfg: Config, stable: seq<Env>, n: nat): map<string, string>
    requires n <= |stable|
  {
    if n == 0 then map[]
    else Sources(cfg, stable, n - 1)[stable[n - 1].name :=
           if stable[n - 1].name == cfg.validation then "" else Previous(cfg, stable, n - 1)]
  }

  function Outcome(cfg: Config, stable: seq<Env>): Result<map<string, string>> {
    match Check(cfg, stable)
    case Failure(error) => Failure(error)
    case Success(_) => Success(Sources(cfg, stable, |stable|))
  }

  method Collect(cfg: Config, envs: seq<Env>) returns (enabled: seq<Env>)
    ensures enabled == EnabledEnvs(cfg, envs)
  {
    enabled := [];
    for i := 0 to |envs|
      invariant enabled == EnabledEnvs(cfg, envs[..i])
    {
      assert envs[..i + 1][..i] == envs[..i];
      if envs[i].kind.Preview? || envs[i].name in cfg.disabled { continue; }
      enabled := enabled + [envs[i]];
    }
    assert envs[..|envs|] == envs;
  }

  method CheckValidation(cfg: Config, list: seq<Env>) returns (r: Result<()>)
    ensures r == Check(cfg, list)
  {
    if cfg.validation == "" { return Success(()); }
    if cfg.direct { return Failure(DirectDelivery); }
    var found := false;
    for i := 0 to |list|
      invariant found == Mentions(list, cfg.validation, i)
      invariant !Misplaced(list, cfg.validation, i)
    {
      if list[i].name == cfg.validation {
        if i == 0 || list[i].kind.Prod? {
          MisplacedGrows(list, cfg.validation, i + 1, |list|);
          return Failure(NotSeparate);
        }
        found := true;
      }
    }
    if !found || |list| < 3 { return Failure(PartsMissing); }
    return Success(());
  }

  /** The result for some sorted arrangement of the enabled environments;
      `OrderIrrelevant` shows that distinct names leave only one. With proper names it
      is the one the environments' own orders and names call for. */
  method ReleasePipeline(cfg: Config, envs: seq<Env>) returns (r: Result<map<string, string>>, ghost stable: seq<Env>)
    ensures Sorts(EnabledEnvs(cfg, envs), stable, NotAfter)
    ensures r == Outcome(cfg, stable)
    ensures forall e :: e in stable <==> Chosen(cfg, envs, e)
    ensures stable != [] ==> IsBase(cfg, envs, stable[0])
    ensures ProperNames(stable) ==> ResultFits(cfg, envs, r)
    ensures ProperNames(envs) ==> ResultFits(cfg, envs, r)
  {
    var enabled := Collect(cfg, envs);
    NotAfterIsTotal();
    var list := SortSlice(enabled, NotAfter);
    stable := list;
    ChosenAreSorted(cfg, envs, stable);
    if ProperNames(envs) { ProperSorted(cfg, envs, stable); }
    if ProperNames(stable) { OutcomeFits(cfg, envs, stable); }
    var valid := CheckValidation(cfg, list);
    if valid.Failure? { return Failure(valid.error), list; }
    var sources := LinkSources(cfg, list);
    r := Success(sources);
  }

  method LinkSources(cfg: Config, list: seq<Env>) returns (sources: map<string, string>)
    ensures sources == Sources(cfg, list, |list|)
  {
    sources := map[];
    var previous := "";
    for i := 0 to |list|
      invariant sources == Sources(cfg, list, i) && previous == Previous(cfg, list, i)
    {
      var e := list[i];
      if e.name == cfg.validation {
        sources := sources[e.name := ""];
        continue;
      }
      sources := sources[e.name := previous];
      if previous == "" && cfg.validation != "" {
        previous := cfg.validation;
      } else {
        previous := e.name;
      }
    }
  }

  lemma {:induction false} MisplacedGrows(stable: seq<Env>, name: string, i: nat, n: nat)
    requires i <= n <= |stable| && Misplaced(stable, name, i)
    ensures Misplaced(stable, name, n)
  {
    if i < n { MisplacedGrows(stable, name, i, n - 1); }
  }

  // ---- the shape of the graph --------------------------------------------

  ghost predicate ProperNames(stable: seq<Env>) {
    && (forall i, j :: 0 <= i < j < |stable| ==> stable[i].name != stable[j].name)
    && (forall i :: 0 <= i < |stable| ==> stable[i].name != "")
  }

  ghost predicate Validated(cfg: Config, stable: seq<Env>) {
    ProperNames(stable) && Check(cfg, stable).Success?
  }

  function Names(stable: seq<Env>, n: nat): seq<string>
    requires n <= |stable|
  {
    if n == 0 then [] else Names(stable, n - 1) + [stable[n - 1].name]
  }

  lemma {:induction false} NamesAt(stable: seq<Env>, n: nat)
    requires n <= |stable|
    ensures |Names(stable, n)| == n && forall i :: 0 <= i < n ==> Names(stable, n)[i] == stable[i].name
  {
    if n == 0 {
    } else {
      NamesAt(stable, n - 1);
    }
  }

  /** The chain after n environments: with validation the validator stands at
      its head in the base's place. */
  function Line(cfg: Config, stable: seq<Env>, n: nat): seq<string>
    requires n <= |stable|
  {
    if n == 0 then []
    else if n == 1 && cfg.validation != "" then [cfg.validation]
    else if stable[n - 1].name == cfg.validation then Line(cfg, stable, n - 1)
    else Line(cfg, stable, n - 1) + [stable[n - 1].name]
  }

  lemma {:induction false} ValidatorPlace(cfg: Config, stable: seq<Env>, n: nat)
    requires n <= |stable| && !Misplaced(stable, cfg.validation, n)
    ensures n > 0 ==> stable[0].name != cfg.validation
    ensures Mentions(stable, cfg.validation, n) <==> cfg.validation in Names(stable, n)
    ensures forall i :: 0 <= i < n && stable[i].name == cfg.validation ==> !stable[i].kind.Prod?
  {
    if n == 0 {
    } else {
      ValidatorPlace(cfg, stable, n - 1);
    }
  }

  lemma {:induction false} LineHeads(cfg: Config, stable: seq<Env>, n: nat)
    requires Validated(cfg, stable) && n <= |stable|
    ensures n == 0 <==> Line(cfg, stable, n) == []
    ensures n > 0 ==> Line(cfg, stable, n)[0] == if cfg.validation != "" then cfg.validation else stable[0].name
    ensures Previous(cfg, stable, n) == var l := Line(cfg, stable, n); if l == [] then "" else l[|l| - 1]
  {
    if cfg.validation != "" { ValidatorPlace(cfg, stable, |stable|); }
    if n == 0 {
    } else {
      LineHeads(cfg, stable, n - 1);
    }
  }

  /** The line holds the validator and every name but the base's, or, without
      validation, every name. */
  lemma {:induction false} LineMembers(cfg: Config, stable: seq<Env>, n: nat, x: string)
    requires Validated(cfg, stable) && 0 < n <= |stable|
    ensures x in Line(cfg, stable, n) <==>
              if cfg.validation == "" then x in Names(stable, n)
              else x == cfg.validation || (x in Names(stable, n) && x != stable[0].name)
  {
    if cfg.validation != "" { ValidatorPlace(cfg, stable, |stable|); }
    if n > 1 { LineMembers(cfg, stable, n - 1, x); }
  }

  lemma {:induction false} LineDistinct(cfg: Config, stable: seq<Env>, n: nat)
    requires Validated(cfg, stable) && n <= |stable|
    ensures Distinct(Line(cfg, stable, n))
  {
    if n == 0 {
    } else {
      LineDistinct(cfg, stable, n - 1);
      if n > 1 { LineMembers(cfg, stable, n - 1, stable[n - 1].name); }
      NamesAt(stable, n - 1);
    }
  }

  lemma {:induction false} SourceKeys(cfg: Config, stable: seq<Env>, n: nat, x: string)
    requires n <= |stable|
    ensures x in Sources(cfg, stable, n) <==> x in Names(stable, n)
  {
    if n == 0 {
    } else {
      SourceKeys(cfg, stable, n - 1, x);
    }
  }

  function Upstream(line: seq<string>, k: nat): string
    requires k < |line|
  {
    if k == 0 then "" else line[k - 1]
  }

  /** sources links every name on the line to the one before it. */
  ghost predicate Links(m: map<string, string>, line: seq<string>) {
    forall k :: 0 <= k < |line| && line[k] in m ==> m[line[k]] == Upstream(line, k)
  }

  lemma {:induction false} SourcesLink(cfg: Config, stable: seq<Env>, n: nat)
    requires Validated(cfg, stable) && n <= |stable|
    ensures Links(Sources(cfg, stable, n), Line(cfg, stable, n))
    ensures n > 0 ==> stable[0].name in Sources(cfg, stable, n) && Sources(cfg, stable, n)[stable[0].name] == ""
  {
    if cfg.validation != "" { ValidatorPlace(cfg, stable, |stable|); }
    if n == 0 {
    } else {
      SourcesLink(cfg, stable, n - 1);
      LineHeads(cfg, stable, n - 1);
      LineHeads(cfg, stable, n);
      LineDistinct(cfg, stable, n);
      LinkStep(cfg, stable, n);
    }
  }

  lemma LinkStep(cfg: Config, stable: seq<Env>, n: nat)
    requires Validated(cfg, stable) && 0 < n <= |stable| && (cfg.validation != "" ==> stable[0].name != cfg.validation)
    requires Links(Sources(cfg, stable, n - 1), Line(cfg, stable, n - 1)) && Distinct(Line(cfg, stable, n))
    requires n > 1 ==> Line(cfg, stable, n - 1) != [] && Line(cfg, stable, n) != []
    requires n > 1 ==> Line(cfg, stable, n)[0] == if cfg.validation != "" then cfg.validation else stable[0].name
    requires Previous(cfg, stable, n - 1) == var l := Line(cfg, stable, n - 1); if l == [] then "" else l[|l| - 1]
    ensures Links(Sources(cfg, stable, n), Line(cfg, stable, n))
  {
    var m0, m := Sources(cfg, stable, n - 1), Sources(cfg, stable, n);
    var line0, line := Line(cfg, stable, n - 1), Line(cfg, stable, n);
    var x := stable[n - 1].name;
    forall k | 0 <= k < |line| && line[k] in m ensures m[line[k]] == Upstream(line, k) {
      if line[k] != x {
        assert line[k] in m0;
        assert k < |line0| && line0[k] == line[k];
      } else if x == cfg.validation {
        assert line[0] == x;
      } else if n == 1 {
        assert line == [x];
      } else {
        assert line == line0 + [x];
        assert line[|line0|] == x;
      }
    }
  }

  // ---- following the sources ---------------------------------------------

  /** Going from e to its source n times ends in root. */
  predicate LeadsTo(m: map<string, string>, e: string, root: string, n: nat)
    decreases n
  {
    if n == 0 then e == root
    else e in m && m[e] != "" && LeadsTo(m, m[e], root, n - 1)
  }

  ghost predicate OneChain(m: map<string, string>, line: seq<string>) {
    Links(m, line) && Distinct(line) && forall x :: x in line ==> x in m && x != ""
  }

  lemma ChainAt(m: map<string, string>, line: seq<string>, k: nat)
    requires OneChain(m, line) && k < |line|
    ensures line[k] in m && line[k] != "" && m[line[k]] == Upstream(line, k)
    ensures m[line[k]] == "" <==> k == 0
    ensures k > 0 ==> m[line[k]] == line[k - 1] && line[k] != line[0]
  {
    assert line[k] in line;
    if k > 0 { assert line[k - 1] in line; }
  }

  ghost predicate StepsBack(m: map<string, string>, line: seq<string>) {
    forall k :: 0 <= k < |line| ==> line[k] in m && line[k] != "" && m[line[k]] == Upstream(line, k)
  }

  lemma {:induction false} Climb(m: map<string, string>, line: seq<string>, k: nat, e: string, n: nat)
    requires StepsBack(m, line) && k < |line|
    ensures LeadsTo(m, line[k], e, n) <==> n <= k && e == line[k - n]
    decreases n
  {
    if n == 0 {
      assert LeadsTo(m, line[k], e, 0) <==> line[k] == e;
    } else if k == 0 {
      assert m[line[0]] == "";
    } else {
      var up := line[k - 1];
      assert m[line[k]] == up && up != "";
      Climb(m, line, k - 1, e, n - 1);
      assert LeadsTo(m, line[k], e, n) == LeadsTo(m, up, e, n - 1);
    }
  }

  lemma ClimbLine(m: map<string, string>, line: seq<string>, k: nat, e: string, n: nat)
    requires OneChain(m, line) && k < |line|
    ensures LeadsTo(m, line[k], e, n) <==> n <= k && e == line[k - n]
  {
    forall i | 0 <= i < |line| ensures line[i] in m && line[i] != "" && m[line[i]] == Upstream(line, i) {
      ChainAt(m, line, i);
    }
    Climb(m, line, k, e, n);
  }

  /** What a successful resolution is: one chain, which is the whole graph
      without validation, and everything but an isolated base with it. */
  ghost predicate IsPipeline(cfg: Config, stable: seq<Env>, m: map<string, string>, line: seq<string>) {
    && m.Keys == (set e | e in stable :: e.name)
    && OneChain(m, line)
    && if cfg.validation == "" then
         m.Keys == (set x | x in line) && (stable != [] ==> line != [] && line[0] == stable[0].name)
       else
         && stable != [] && line != [] && line[0] == cfg.validation
         && stable[0].name !in line && m[stable[0].name] == ""
         && m.Keys == (set x | x in line) + {stable[0].name}
  }

  lemma PipelineShape(cfg: Config, stable: seq<Env>)
    requires Validated(cfg, stable)
    ensures IsPipeline(cfg, stable, Sources(cfg, stable, |stable|), Line(cfg, stable, |stable|))
  {
    var n := |stable|;
    var m, line := Sources(cfg, stable, n), Line(cfg, stable, n);
    if cfg.validation != "" { ValidatorPlace(cfg, stable, n); }
    NamesAt(stable, n);
    LineHeads(cfg, stable, n);
    LineDistinct(cfg, stable, n);
    SourcesLink(cfg, stable, n);
    forall x ensures x in m <==> x in Names(stable, n) { SourceKeys(cfg, stable, n, x); }
    if n > 0 {
      forall x ensures x in line <==>
        if cfg.validation == "" then x in Names(stable, n)
        else x == cfg.validation || (x in Names(stable, n) && x != stable[0].name)
      {
        LineMembers(cfg, stable, n, x);
      }
    }
    NamesAreAll(stable);
  }

  lemma NamesAreAll(stable: seq<Env>)
    ensures forall x :: x in Names(stable, |stable|) <==> x in (set e | e in stable :: e.name)
  {
    NamesAt(stable, |stable|);
    forall x ensures x in Names(stable, |stable|) <==> x in (set e | e in stable :: e.name) {
      if x in Names(stable, |stable|) { var i :| 0 <= i < |stable| && stable[i].name == x; assert stable[i] in stable; }
      if e :| e in stable && e.name == x {
        var i :| 0 <= i < |stable| && stable[i] == e;
        assert Names(stable, |stable|)[i] == x;
      }
    }
  }

  // ---- main results ------------------------------------------------------

  /** A configured validator is accepted exactly when the app promotes through
      the pipeline and the validator is a non-production environment other than
      the base, with at least one more environment behind it. */
  lemma AcceptedExactly(cfg: Config, stable: seq<Env>)
    requires ProperNames(stable) && cfg.validation != ""
    ensures Check(cfg, stable).Success? <==>
              && !cfg.direct && |stable| >= 3
              && exists i :: 0 < i < |stable| && stable[i].name == cfg.validation && !stable[i].kind.Prod?
  {
    var n, v := |stable|, cfg.validation;
    FoundAt(stable, v, n);
    if !Misplaced(stable, v, n) { ValidatorPlace(cfg, stable, n); }
  }

  lemma {:induction false} FoundAt(stable: seq<Env>, name: string, n: nat)
    requires n <= |stable|
    ensures Mentions(stable, name, n) <==> exists i :: 0 <= i < n && stable[i].name == name
    ensures Misplaced(stable, name, n) <==>
              exists i :: 0 <= i < n && stable[i].name == name && (i == 0 || stable[i].kind.Prod?)
  {
    if n == 0 {
    } else {
      FoundAt(stable, name, n - 1);
    }
  }

  /** No environment is, directly or indirectly, its own source. */
  lemma Acyclic(cfg: Config, stable: seq<Env>, e: string, n: nat)
    requires Validated(cfg, stable) && n > 0
    ensures !LeadsTo(Sources(cfg, stable, |stable|), e, e, n)
  {
    var m, line := Sources(cfg, stable, |stable|), Line(cfg, stable, |stable|);
    PipelineShape(cfg, stable);
    if e in line {
      var k :| 0 <= k < |line| && line[k] == e;
      ClimbLine(m, line, k, e, n);
    }
  }

  /** Without validation every environment descends from the base, the only root. */
  lemma PlainRoots(cfg: Config, stable: seq<Env>, e: string)
    requires Validated(cfg, stable) && cfg.validation == "" && e in Sources(cfg, stable, |stable|)
    ensures stable != [] && exists n :: LeadsTo(Sources(cfg, stable, |stable|), e, stable[0].name, n)
    ensures Sources(cfg, stable, |stable|)[e] == "" <==> e == stable[0].name
  {
    var m, line := Sources(cfg, stable, |stable|), Line(cfg, stable, |stable|);
    PipelineShape(cfg, stable);
    var k :| 0 <= k < |line| && line[k] == e;
    ClimbLine(m, line, k, line[0], k);
    ChainAt(m, line, k);
  }

  /** With validation the only roots are the base and the validator, nothing is
      promoted from the base, and everything else descends from the validator. */
  lemma ValidatedRoots(cfg: Config, stable: seq<Env>, e: string)
    requires Validated(cfg, stable) && cfg.validation != "" && e in Sources(cfg, stable, |stable|)
    ensures stable != [] && cfg.validation in Sources(cfg, stable, |stable|)
    ensures Sources(cfg, stable, |stable|)[e] == "" <==> e in {stable[0].name, cfg.validation}
    ensures Sources(cfg, stable, |stable|)[e] != stable[0].name
    ensures e != stable[0].name ==> exists n :: LeadsTo(Sources(cfg, stable, |stable|), e, cfg.validation, n)
  {
    var m, line := Sources(cfg, stable, |stable|), Line(cfg, stable, |stable|);
    PipelineShape(cfg, stable);
    assert line[0] in line;
    if e != stable[0].name {
      var k :| 0 <= k < |line| && line[k] == e;
      ClimbLine(m, line, k, line[0], k);
      ChainAt(m, line, k);
      if k > 0 { assert line[k - 1] in line; }
    } else {
      ValidatorPlace(cfg, stable, |stable|);
      assert stable[0].name != "";
    }
  }

  /** No environment feeds two others, so the graph is chains and not a tree. */
  lemma NoBranching(cfg: Config, stable: seq<Env>, e: string, f: string)
    requires Validated(cfg, stable)
    requires e in Sources(cfg, stable, |stable|) && f in Sources(cfg, stable, |stable|)
    requires Sources(cfg, stable, |stable|)[e] == Sources(cfg, stable, |stable|)[f] != ""
    ensures e == f
  {
    var line := Line(cfg, stable, |stable|);
    var i := PlaceOnLine(cfg, stable, e);
    var j := PlaceOnLine(cfg, stable, f);
    PipelineShape(cfg, stable);
    assert i - 1 == j - 1;
  }

  lemma PlaceOnLine(cfg: Config, stable: seq<Env>, e: string) returns (i: nat)
    requires Validated(cfg, stable) && e in Sources(cfg, stable, |stable|) && Sources(cfg, stable, |stable|)[e] != ""
    ensures 0 < i < |Line(cfg, stable, |stable|)| && Line(cfg, stable, |stable|)[i] == e
    ensures Sources(cfg, stable, |stable|)[e] == Line(cfg, stable, |stable|)[i - 1]
  {
    var line := Line(cfg, stable, |stable|);
    PipelineShape(cfg, stable);
    i :| 0 <= i < |line| && line[i] == e;
  }

  // ---- the order of the input does not matter ----------------------------

  lemma {:induction false} EnabledCount(cfg: Config, envs: seq<Env>, e: Env)
    ensures multiset(EnabledEnvs(cfg, envs))[e] == if Enabled(cfg, e) then multiset(envs)[e] else 0
  {
    if envs == [] {
    } else {
      var n := |envs| - 1;
      assert envs == envs[..n] + [envs[n]];
      EnabledCount(cfg, envs[..n], e);
    }
  }

  lemma OrderIrrelevant(cfg: Config, envs: seq<Env>, envs': seq<Env>, stable: seq<Env>, stable': seq<Env>)
    requires multiset(envs) == multiset(envs')
    requires Sorts(EnabledEnvs(cfg, envs), stable, NotAfter) && Sorts(EnabledEnvs(cfg, envs'), stable', NotAfter)
    requires ProperNames(stable)
    ensures Outcome(cfg, stable) == Outcome(cfg, stable')
  {
    forall e ensures multiset(stable)[e] == multiset(stable')[e] {
      EnabledCount(cfg, envs, e);
      EnabledCount(cfg, envs', e);
    }
    forall x, y | x in stable && y in stable && NotAfter(x, y) && NotAfter(y, x) ensures x == y {
      Trichotomy(x.name, y.name);
    }
    SortedUnique(stable, stable', NotAfter);
  }

  // ---- the graph in terms of the environments alone ----------------------

  predicate Chosen(cfg: Config, envs: seq<Env>, e: Env) {
    e in envs && !e.kind.Preview? && e.name !in cfg.disabled
  }

  /** The least order, and among equal orders the least name. */
  ghost predicate IsBase(cfg: Config, envs: seq<Env>, b: Env) {
    && Chosen(cfg, envs, b)
    && forall e :: Chosen(cfg, envs, e) ==> b.order < e.order || (b.order == e.order && AtMost(b.name, e.name))
  }

  /** An environment promotions pass through: validation sets the validator and the
      base apart. */
  ghost predicate InLine(cfg: Config, envs: seq<Env>, e: Env) {
    && Chosen(cfg, envs, e)
    && (cfg.validation != "" ==> e.name != cfg.validation && !IsBase(cfg, envs, e))
  }

  /** f comes before e with nothing of the line between them. */
  ghost predicate Feeds(cfg: Config, envs: seq<Env>, f: Env, e: Env) {
    && InLine(cfg, envs, f)
    && (f.order < e.order || (f.order == e.order && Less(f.name, e.name)))
    && forall g :: InLine(cfg, envs, g) ==>
         || g.order < f.order || (g.order == f.order && AtMost(g.name, f.name))
         || e.order < g.order || (e.order == g.order && AtMost(e.name, g.name))
  }

  ghost predicate SourceFits(cfg: Config, envs: seq<Env>, e: Env, source: string) {
    if e.name == cfg.validation || IsBase(cfg, envs, e) then source == ""
    else
      && source != ""
      && (forall f :: Feeds(cfg, envs, f, e) ==> source == f.name)
      && ((forall f :: !Feeds(cfg, envs, f, e)) ==> source == cfg.validation)
  }

  ghost predicate SourcesFit(cfg: Config, envs: seq<Env>, sources: map<string, string>) {
    && sources.Keys == (set e | e in envs && Chosen(cfg, envs, e) :: e.name)
    && forall e :: Chosen(cfg, envs, e) && e.name in sources ==> SourceFits(cfg, envs, e, sources[e.name])
  }

  /** An environment called like the validator that is the base or for production. */
  ghost predicate Unseparate(cfg: Config, envs: seq<Env>) {
    exists e :: Chosen(cfg, envs, e) && e.name == cfg.validation && (e.kind.Prod? || IsBase(cfg, envs, e))
  }

  ghost predicate LacksParts(cfg: Config, envs: seq<Env>) {
    || (forall e :: Chosen(cfg, envs, e) ==> e.name != cfg.validation)
    || |set e | e in envs && Chosen(cfg, envs, e)| < 3
  }

  ghost predicate ResultFits(cfg: Config, envs: seq<Env>, r: Result<map<string, string>>) {
    if cfg.validation != "" && cfg.direct then r == Failure(DirectDelivery)
    else if cfg.validation != "" && Unseparate(cfg, envs) then r == Failure(NotSeparate)
    else if cfg.validation != "" && LacksParts(cfg, envs) then r == Failure(PartsMissing)
    else r.Success? && SourcesFit(cfg, envs, r.value)
  }

  lemma ProperPermutation(a: seq<Env>, b: seq<Env>)
    requires ProperNames(a) && multiset(a) == multiset(b)
    ensures ProperNames(b)
  {
    MultisetMembers(a, b);
    assert Distinct(a);
    DistinctPermutation(a, b);
    forall i, j | 0 <= i < j < |b| ensures b[i].name != b[j].name {
      assert b[i] in b && b[j] in b;
      var x :| 0 <= x < |a| && a[x] == b[i];
      var y :| 0 <= y < |a| && a[y] == b[j];
    }
    forall i | 0 <= i < |b| ensures b[i].name != "" {
      assert b[i] in b;
      var x :| 0 <= x < |a| && a[x] == b[i];
    }
  }

  /** Names that are proper in the input are so in the sorted list. */
  lemma ProperSorted(cfg: Config, envs: seq<Env>, stable: seq<Env>)
    requires Sorts(EnabledEnvs(cfg, envs), stable, NotAfter) && ProperNames(envs)
    ensures ProperNames(stable)
  {
    ProperEnabled(cfg, envs);
    ProperPermutation(EnabledEnvs(cfg, envs), stable);
  }

  lemma {:induction false} ProperEnabled(cfg: Config, envs: seq<Env>)
    requires ProperNames(envs)
    ensures ProperNames(EnabledEnvs(cfg, envs)) && forall e :: e in EnabledEnvs(cfg, envs) ==> e in envs
  {
    if envs == [] {
    } else {
      var n := |envs| - 1;
      ProperEnabled(cfg, envs[..n]);
      forall e | e in EnabledEnvs(cfg, envs[..n]) ensures e.name != envs[n].name {
        var i :| 0 <= i < n && envs[..n][i] == e;
        assert envs[i] == e;
      }
    }
  }

  lemma ChosenAreSorted(cfg: Config, envs: seq<Env>, stable: seq<Env>)
    requires Sorts(EnabledEnvs(cfg, envs), stable, NotAfter)
    ensures forall e :: e in stable <==> Chosen(cfg, envs, e)
    ensures forall i, j :: 0 <= i < j < |stable| ==>
              stable[i].order < stable[j].order
              || (stable[i].order == stable[j].order && AtMost(stable[i].name, stable[j].name))
    ensures stable != [] ==> IsBase(cfg, envs, stable[0])
  {
    forall e ensures e in stable <==> Chosen(cfg, envs, e) {
      EnabledCount(cfg, envs, e);
      assert multiset(stable)[e] == multiset(EnabledEnvs(cfg, envs))[e];
    }
    forall i, j | 0 <= i < j < |stable|
      ensures stable[i].order < stable[j].order
              || (stable[i].order == stable[j].order && AtMost(stable[i].name, stable[j].name))
    {
      Trichotomy(stable[i].name, stable[j].name);
      assert NotAfter(stable[i], stable[j]);
    }
    forall e | Chosen(cfg, envs, e) && stable != []
      ensures stable[0].order < e.order || (stable[0].order == e.order && AtMost(stable[0].name, e.name))
    {
      var j :| 0 <= j < |stable| && stable[j] == e;
    }
  }

  /** The k-th environment of the sorted list is in line. */
  predicate InLineAt(cfg: Config, stable: seq<Env>, k: nat)
    requires k < |stable|
  {
    cfg.validation != "" ==> k > 0 && stable[k].name != cfg.validation
  }

  lemma InLineExactly(cfg: Config, envs: seq<Env>, stable: seq<Env>, k: nat)
    requires Sorts(EnabledEnvs(cfg, envs), stable, NotAfter) && ProperNames(stable) && k < |stable|
    ensures InLine(cfg, envs, stable[k]) <==> InLineAt(cfg, stable, k)
    ensures IsBase(cfg, envs, stable[k]) <==> k == 0
  {
    ChosenAreSorted(cfg, envs, stable);
    StrictTotalOrder();
  }

  lemma {:induction false} SourceAt(cfg: Config, stable: seq<Env>, n: nat, k: nat)
    requires ProperNames(stable) && k < n <= |stable|
    ensures stable[k].name in Sources(cfg, stable, n)
    ensures Sources(cfg, stable, n)[stable[k].name] ==
              if stable[k].name == cfg.validation then "" else Previous(cfg, stable, k)
  {
    if k < n - 1 { SourceAt(cfg, stable, n - 1, k); }
  }

  /** What stands before the k-th environment: the nearest one in line, or else the
      validator, or else nothing. */
  lemma {:induction false} PreviousInLine(cfg: Config, stable: seq<Env>, k: nat) returns (j: int)
    requires Validated(cfg, stable) && k <= |stable|
    ensures -1 <= j < k
    ensures forall i :: j < i < k ==> !InLineAt(cfg, stable, i)
    ensures j >= 0 ==> InLineAt(cfg, stable, j) && Previous(cfg, stable, k) == stable[j].name != ""
    ensures j < 0 ==> Previous(cfg, stable, k) == if k == 0 then "" else cfg.validation
  {
    if cfg.validation != "" { ValidatorPlace(cfg, stable, |stable|); }
    if k == 0 {
      j := -1;
    } else {
      j := PreviousInLine(cfg, stable, k - 1);
      if InLineAt(cfg, stable, k - 1) { j := k - 1; }
    }
  }

  lemma SourceFitsAt(cfg: Config, envs: seq<Env>, stable: seq<Env>, k: nat)
    requires Sorts(EnabledEnvs(cfg, envs), stable, NotAfter) && Validated(cfg, stable) && k < |stable|
    ensures stable[k].name in Sources(cfg, stable, |stable|)
    ensures SourceFits(cfg, envs, stable[k], Sources(cfg, stable, |stable|)[stable[k].name])
  {
    var e := stable[k];
    SourceAt(cfg, stable, |stable|, k);
    InLineExactly(cfg, envs, stable, k);
    ChosenAreSorted(cfg, envs, stable);
    var j := PreviousInLine(cfg, stable, k);
    if e.name != cfg.validation && k > 0 {
      if j >= 0 { NearestFeeds(cfg, envs, stable, j, k); }
      forall f | Feeds(cfg, envs, f, e) ensures j >= 0 && f == stable[j] {
        FeederIsNearest(cfg, envs, stable, j, k, f);
      }
    }
  }

  lemma NearestFeeds(cfg: Config, envs: seq<Env>, stable: seq<Env>, j: nat, k: nat)
    requires Sorts(EnabledEnvs(cfg, envs), stable, NotAfter) && ProperNames(stable) && j < k < |stable|
    requires InLineAt(cfg, stable, j) && forall i :: j < i < k ==> !InLineAt(cfg, stable, i)
    ensures Feeds(cfg, envs, stable[j], stable[k])
  {
    ChosenAreSorted(cfg, envs, stable);
    InLineExactly(cfg, envs, stable, j);
    var f, e := stable[j], stable[k];
    forall g | InLine(cfg, envs, g)
      ensures g.order < f.order || (g.order == f.order && AtMost(g.name, f.name))
              || e.order < g.order || (e.order == g.order && AtMost(e.name, g.name))
    {
      var i :| 0 <= i < |stable| && stable[i] == g;
      InLineExactly(cfg, envs, stable, i);
    }
  }

  lemma FeederIsNearest(cfg: Config, envs: seq<Env>, stable: seq<Env>, j: int, k: nat, f: Env)
    requires Sorts(EnabledEnvs(cfg, envs), stable, NotAfter) && ProperNames(stable) && -1 <= j < k < |stable|
    requires forall i :: j < i < k ==> !InLineAt(cfg, stable, i)
    requires j >= 0 ==> InLineAt(cfg, stable, j)
    requires Feeds(cfg, envs, f, stable[k])
    ensures j >= 0 && f == stable[j]
  {
    StrictTotalOrder();
    ChosenAreSorted(cfg, envs, stable);
    var i :| 0 <= i < |stable| && stable[i] == f;
    InLineExactly(cfg, envs, stable, i);
    assert i < k;
    if i < j { InLineExactly(cfg, envs, stable, j); }
  }

  lemma SourcesAreFit(cfg: Config, envs: seq<Env>, stable: seq<Env>)
    requires Sorts(EnabledEnvs(cfg, envs), stable, NotAfter) && Validated(cfg, stable)
    ensures SourcesFit(cfg, envs, Sources(cfg, stable, |stable|))
  {
    ChosenAreSorted(cfg, envs, stable);
    var m := Sources(cfg, stable, |stable|);
    forall x ensures x in m.Keys <==> x in (set e | e in envs && Chosen(cfg, envs, e) :: e.name) {
      SourceKeys(cfg, stable, |stable|, x);
      NamesAreAll(stable);
      assert x in (set e | e in stable :: e.name) <==> exists e :: Chosen(cfg, envs, e) && e.name == x;
    }
    forall e | Chosen(cfg, envs, e) && e.name in m ensures SourceFits(cfg, envs, e, m[e.name]) {
      var k :| 0 <= k < |stable| && stable[k] == e;
      SourceFitsAt(cfg, envs, stable, k);
    }
  }

  /** The outcome is what the environments' own fields say, whatever list the sort
      arranged them in. */
  lemma OutcomeFits(cfg: Config, envs: seq<Env>, stable: seq<Env>)
    requires Sorts(EnabledEnvs(cfg, envs), stable, NotAfter) && ProperNames(stable)
    ensures ResultFits(cfg, envs, Outcome(cfg, stable))
  {
    UnseparateExactly(cfg, envs, stable);
    LacksPartsExactly(cfg, envs, stable);
    if Check(cfg, stable).Success? { SourcesAreFit(cfg, envs, stable); }
  }

  lemma UnseparateExactly(cfg: Config, envs: seq<Env>, stable: seq<Env>)
    requires Sorts(EnabledEnvs(cfg, envs), stable, NotAfter) && ProperNames(stable)
    ensures Misplaced(stable, cfg.validation, |stable|) <==> Unseparate(cfg, envs)
  {
    ChosenAreSorted(cfg, envs, stable);
    FoundAt(stable, cfg.validation, |stable|);
    forall i | 0 <= i < |stable| ensures IsBase(cfg, envs, stable[i]) <==> i == 0 {
      InLineExactly(cfg, envs, stable, i);
    }
    if Misplaced(stable, cfg.validation, |stable|) {
      var i :| 0 <= i < |stable| && stable[i].name == cfg.validation && (i == 0 || stable[i].kind.Prod?);
      assert Chosen(cfg, envs, stable[i]);
    }
    if e :| Chosen(cfg, envs, e) && e.name == cfg.validation && (e.kind.Prod? || IsBase(cfg, envs, e)) {
      var i :| 0 <= i < |stable| && stable[i] == e;
    }
  }

  lemma LacksPartsExactly(cfg: Config, envs: seq<Env>, stable: seq<Env>)
    requires Sorts(EnabledEnvs(cfg, envs), stable, NotAfter) && ProperNames(stable)
    ensures !Mentions(stable, cfg.validation, |stable|) || |stable| < 3 <==> LacksParts(cfg, envs)
  {
    ChosenAreSorted(cfg, envs, stable);
    FoundAt(stable, cfg.validation, |stable|);
    SetSize(stable);
    assert (set e | e in envs && Chosen(cfg, envs, e)) == (set e | e in stable);
    if Mentions(stable, cfg.validation, |stable|) {
      var i :| 0 <= i < |stable| && stable[i].name == cfg.validation;
      assert Chosen(cfg, envs, stable[i]);
    } else {
      forall e | Chosen(cfg, envs, e) ensures e.name != cfg.validation {
        var i :| 0 <= i < |stable| && stable[i] == e;
      }
    }
  }

  lemma {:induction false} SetSize(s: seq<Env>)
    requires Distinct(s)
    ensures |set e | e in s| == |s|
  {
    if s == [] {
    } else {
      var n := |s| - 1;
      SetSize(s[..n]);
      assert s == s[..n] + [s[n]];
      assert (set e | e in s) == (set e | e in s[..n]) + {s[n]};
    }
  }

  // ---- which environments a publish deploys ------------------------------

  datatype PublishEnv = PublishEnv(env: Env, bound: bool)

  function BoundEnvs(envs: seq<PublishEnv>): seq<Env> {
    if envs == [] then []
    else BoundEnvs(envs[..|envs| - 1]) + if envs[|envs| - 1].bound then [envs[|envs| - 1].env] else []
  }

  predicate IsRoot(sources: map<string, string>, e: PublishEnv) {
    e.env.kind.Preview? || (e.bound && e.env.name in sources && sources[e.env.name] == "")
  }

  function Roots(sources: map<string, string>, envs: seq<PublishEnv>): seq<PublishEnv> {
    if envs == [] then []
    else Roots(sources, envs[..|envs| - 1]) + if IsRoot(sources, envs[|envs| - 1]) then [envs[|envs| - 1]] else []
  }

  function Previews(envs: seq<PublishEnv>): seq<PublishEnv> {
    if envs == [] then []
    else Previews(envs[..|envs| - 1]) + if envs[|envs| - 1].env.kind.Preview? then [envs[|envs| - 1]] else []
  }

  predicate Deployable(e: PublishEnv) {
    !e.env.kind.Preview? && e.bound
  }

  function Deployables(envs: seq<PublishEnv>): seq<PublishEnv> {
    if envs == [] then []
    else Deployables(envs[..|envs| - 1]) + if Deployable(envs[|envs| - 1]) then [envs[|envs| - 1]] else []
  }

  predicate NotAfterPublish(a: PublishEnv, b: PublishEnv) {
    NotAfter(a.env, b.env)
  }

  predicate BoundStable(disabled: set<string>, envs: seq<PublishEnv>, e: PublishEnv) {
    e in envs && e.bound && !e.env.kind.Preview? && e.env.name !in disabled
  }

  /** The least order among the bound stable environments, then the least name. */
  ghost predicate FirstBound(disabled: set<string>, envs: seq<PublishEnv>, d: PublishEnv) {
    && BoundStable(disabled, envs, d)
    && forall e :: BoundStable(disabled, envs, e) ==>
         d.env.order < e.env.order || (d.env.order == e.env.order && AtMost(d.env.name, e.env.name))
  }

  /** Every preview, and of the bound stable environments one that is first. */
  ghost predicate DeploysFirst(envs: seq<PublishEnv>, r: seq<PublishEnv>) {
    && (forall e :: e in r ==> (e in envs && e.env.kind.Preview?) || FirstBound({}, envs, e))
    && (forall e :: e in envs && e.env.kind.Preview? ==> e in r)
    && ((exists e :: BoundStable({}, envs, e)) ==> exists e :: e in r && FirstBound({}, envs, e))
    && forall i :: 0 <= i < |r| - 1 ==> r[i].env.kind.Preview?
  }

  lemma {:induction false} PreviewsMembers(envs: seq<PublishEnv>)
    ensures forall e :: e in Previews(envs) <==> e in envs && e.env.kind.Preview?
  {
    if envs == [] {
    } else {
      assert envs == envs[..|envs| - 1] + [envs[|envs| - 1]];
      PreviewsMembers(envs[..|envs| - 1]);
    }
  }

  lemma {:induction false} DeployablesMembers(envs: seq<PublishEnv>)
    ensures forall e :: e in Deployables(envs) <==> BoundStable({}, envs, e)
  {
    if envs == [] {
    } else {
      assert envs == envs[..|envs| - 1] + [envs[|envs| - 1]];
      DeployablesMembers(envs[..|envs| - 1]);
    }
  }

  lemma FirstIsLeast(envs: seq<PublishEnv>, stable: seq<PublishEnv>)
    requires Sorts(Deployables(envs), stable, NotAfterPublish)
    ensures DeploysFirst(envs, Previews(envs) + if stable == [] then [] else [stable[0]])
  {
    PreviewsMembers(envs);
    DeployablesMembers(envs);
    MultisetMembers(stable, Deployables(envs));
    forall e | BoundStable({}, envs, e)
      ensures stable != []
      ensures stable[0].env.order < e.env.order
              || (stable[0].env.order == e.env.order && AtMost(stable[0].env.name, e.env.name))
    {
      var j :| 0 <= j < |stable| && stable[j] == e;
      Trichotomy(stable[0].env.name, e.env.name);
      assert j > 0 ==> NotAfterPublish(stable[0], stable[j]);
    }
    var r := Previews(envs) + if stable == [] then [] else [stable[0]];
    if stable != [] { assert stable[0] in stable && r[|r| - 1] == stable[0]; }
    forall e | e in envs && e.env.kind.Preview? ensures e in r { assert e in Previews(envs); }
    forall i | 0 <= i < |r| - 1 ensures r[i].env.kind.Preview? { assert r[i] in Previews(envs); }
  }

  /** Previews first, then the first bound stable environment. */
  method FirstDeployEnvs(envs: seq<PublishEnv>) returns (r: seq<PublishEnv>, ghost stable: seq<PublishEnv>)
    ensures Sorts(Deployables(envs), stable, NotAfterPublish)
    ensures r == Previews(envs) + if stable == [] then [] else [stable[0]]
    ensures DeploysFirst(envs, r)
  {
    r := [];
    var bound := [];
    for i := 0 to |envs|
      invariant r == Previews(envs[..i]) && bound == Deployables(envs[..i])
    {
      assert envs[..i + 1][..i] == envs[..i];
      if envs[i].env.kind.Preview? { r := r + [envs[i]]; }
      if !envs[i].env.kind.Preview? && envs[i].bound { bound := bound + [envs[i]]; }
    }
    assert envs[..|envs|] == envs;
    NotAfterIsTotal();
    assert TotalOrder(NotAfterPublish) by {
      assert forall x: PublishEnv, y: PublishEnv :: NotAfterPublish(x, y) == NotAfter(x.env, y.env);
    }
    var sorted := SortSlice(bound, NotAfterPublish);
    stable := sorted;
    FirstIsLeast(envs, stable);
    if |sorted| > 0 { r := r + [sorted[0]]; }
  }

  /** With a validator configured, the deploy set is the previews and the roots
      of the graph over the bound environments, in input order. */
  method ReleaseRootDeployEnvs(cfg: Config, envs: seq<PublishEnv>)
    returns (r: Result<seq<PublishEnv>>, ghost first: seq<PublishEnv>, ghost stable: seq<Env>)
    ensures cfg.validation == "" ==>
              && Sorts(Deployables(envs), first, NotAfterPublish)
              && r == Success(Previews(envs) + if first == [] then [] else [first[0]])
              && DeploysFirst(envs, r.value)
    ensures cfg.validation != "" ==>
              && Sorts(EnabledEnvs(cfg, BoundEnvs(envs)), stable, NotAfter)
              && r == match Outcome(cfg, stable)
                      case Failure(error) => Failure(error)
                      case Success(sources) => Success(Roots(sources, envs))
    ensures cfg.validation != "" && r.Success? && (ProperNames(stable) || ProperBound(envs)) ==>
              forall e :: e in r.value <==> DeployedAtOnce(cfg, envs, e)
  {
    first, stable := [], [];
    if cfg.validation == "" {
      var deploy;
      deploy, first := FirstDeployEnvs(envs);
      return Success(deploy), first, stable;
    }
    var bound := [];
    for i := 0 to |envs|
      invariant bound == BoundEnvs(envs[..i])
    {
      assert envs[..i + 1][..i] == envs[..i];
      if envs[i].bound { bound := bound + [envs[i].env]; }
    }
    assert envs[..|envs|] == envs;
    var sources;
    sources, stable := ReleasePipeline(cfg, bound);
    if sources.Failure? { return Failure(sources.error), first, stable; }
    var out := [];
    for i := 0 to |envs|
      invariant out == Roots(sources.value, envs[..i])
    {
      assert envs[..i + 1][..i] == envs[..i];
      if envs[i].env.kind.Preview? ||
         (envs[i].bound && envs[i].env.name in sources.value && sources.value[envs[i].env.name] == "") {
        out := out + [envs[i]];
      }
    }
    assert envs[..|envs|] == envs;
    r := Success(out);
    if ProperBound(envs) {
      BoundIsProper(envs);
      ProperSorted(cfg, BoundEnvs(envs), stable);
    }
    if ProperNames(stable) {
      forall e ensures e in out <==> DeployedAtOnce(cfg, envs, e) { RootsAreBaseAndValidator(cfg, envs, stable, e); }
    }
  }

  lemma {:induction false} RootsMembers(sources: map<string, string>, envs: seq<PublishEnv>, e: PublishEnv)
    ensures e in Roots(sources, envs) <==> e in envs && IsRoot(sources, e)
  {
    if envs == [] {
    } else {
      assert envs == envs[..|envs| - 1] + [envs[|envs| - 1]];
      RootsMembers(sources, envs[..|envs| - 1], e);
    }
  }

  /** The bound environments have distinct names, none empty. */
  ghost predicate ProperBound(envs: seq<PublishEnv>) {
    && (forall i, j :: 0 <= i < j < |envs| && envs[i].bound && envs[j].bound ==> envs[i].env.name != envs[j].env.name)
    && (forall i :: 0 <= i < |envs| && envs[i].bound ==> envs[i].env.name != "")
  }

  lemma {:induction false} BoundIsProper(envs: seq<PublishEnv>)
    requires ProperBound(envs)
    ensures ProperNames(BoundEnvs(envs))
  {
    if envs == [] {
    } else {
      var n := |envs| - 1;
      BoundIsProper(envs[..n]);
      BoundMembers(envs[..n]);
      if envs[n].bound {
        forall e | e in BoundEnvs(envs[..n]) ensures e.name != envs[n].env.name {
          var i :| 0 <= i < n && envs[..n][i] == PublishEnv(e, true);
        }
      }
    }
  }

  ghost predicate DeployedAtOnce(cfg: Config, envs: seq<PublishEnv>, e: PublishEnv) {
    && e in envs
    && (e.env.kind.Preview?
        || FirstBound(cfg.disabled, envs, e)
        || (BoundStable(cfg.disabled, envs, e) && e.env.name == cfg.validation))
  }

  lemma {:induction false} BoundMembers(envs: seq<PublishEnv>)
    ensures forall e :: e in BoundEnvs(envs) <==> PublishEnv(e, true) in envs
  {
    if envs == [] {
    } else {
      assert envs == envs[..|envs| - 1] + [envs[|envs| - 1]];
      BoundMembers(envs[..|envs| - 1]);
    }
  }

  lemma BaseIsFirstBound(cfg: Config, envs: seq<PublishEnv>, e: PublishEnv)
    ensures e.bound ==> (BoundStable(cfg.disabled, envs, e) <==> Chosen(cfg, BoundEnvs(envs), e.env))
    ensures e.bound ==> (FirstBound(cfg.disabled, envs, e) <==> IsBase(cfg, BoundEnvs(envs), e.env))
  {
    BoundMembers(envs);
    if e.bound {
      assert e == PublishEnv(e.env, true);
      if FirstBound(cfg.disabled, envs, e) {
        forall g | Chosen(cfg, BoundEnvs(envs), g)
          ensures e.env.order < g.order || (e.env.order == g.order && AtMost(e.env.name, g.name))
        {
          assert BoundStable(cfg.disabled, envs, PublishEnv(g, true));
        }
      }
      if IsBase(cfg, BoundEnvs(envs), e.env) {
        forall g | BoundStable(cfg.disabled, envs, g)
          ensures e.env.order < g.env.order || (e.env.order == g.env.order && AtMost(e.env.name, g.env.name))
        {
          assert g == PublishEnv(g.env, true);
          assert Chosen(cfg, BoundEnvs(envs), g.env);
        }
      }
    }
  }

  /** Deployed at once: every preview, the base and the validator - and no
      environment that has to wait for a promotion. */
  lemma RootsAreBaseAndValidator(cfg: Config, envs: seq<PublishEnv>, stable: seq<Env>, e: PublishEnv)
    requires cfg.validation != "" && Validated(cfg, stable)
    requires Sorts(EnabledEnvs(cfg, BoundEnvs(envs)), stable, NotAfter)
    ensures e in Roots(Sources(cfg, stable, |stable|), envs) <==> DeployedAtOnce(cfg, envs, e)
  {
    var bound, m := BoundEnvs(envs), Sources(cfg, stable, |stable|);
    RootsMembers(m, envs, e);
    BaseIsFirstBound(cfg, envs, e);
    SourcesAreFit(cfg, bound, stable);
    BoundMembers(envs);
    if e in envs && e.bound && !e.env.kind.Preview? {
      assert e == PublishEnv(e.env, true);
      if e.env.name in m {
        var g :| g in bound && Chosen(cfg, bound, g) && g.name == e.env.name;
        SameName(cfg, bound, stable, g, e.env);
        assert SourceFits(cfg, bound, e.env, m[e.env.name]);
      } else {
        assert !Chosen(cfg, bound, e.env);
      }
    }
  }

  lemma SameName(cfg: Config, envs: seq<Env>, stable: seq<Env>, e: Env, f: Env)
    requires Sorts(EnabledEnvs(cfg, envs), stable, NotAfter) && ProperNames(stable)
    requires Chosen(cfg, envs, e) && f in envs && !f.kind.Preview? && e.name == f.name
    ensures e == f && Chosen(cfg, envs, f)
  {
    ChosenAreSorted(cfg, envs, stable);
    var i :| 0 <= i < |stable| && stable[i] == e;
    var j :| 0 <= j < |stable| && stable[j] == f;
  }
}
