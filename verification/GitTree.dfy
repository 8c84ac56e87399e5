/** A small machine for Kargo promotion steps over a gitops tree.

    Paths are lists of segments, so joining needs no escaping; a YAML document is
    the map of the dotted keys of its values, except rendered Applications, which
    are kept as one value. yaml-update fails on a file that is missing and on a repository
    the Freight does not carry, copy fails on a missing source, and a failed
    step ends the promotion. */
module GitTree {
  import opened Wrappers

  type Path = seq<string>

  datatype Source = ValuesRef | Chart(component: string, release: string, values: Path)
  datatype Automated = Automated(prune: bool, selfHeal: bool)
  datatype Application = Application(name: string, cluster: string, sources: seq<Source>, automated: Option<Automated>)

  /** Key a lies below key b, as "image.tag" does below "image". */
  predicate Inside(a: string, b: string) {
    |a| > |b| && a[..|b|] == b && a[|b|] == '.'
  }

  predicate Nested(a: string, b: string) {
    Inside(a, b) || Inside(b, a)
  }

  ghost predicate NoneNested(fields: map<string, string>) {
    forall a, b :: a in fields && b in fields ==> !Inside(a, b)
  }

  /** A key has a value or keys below it, not both. */
  type Yaml = fields: map<string, string> | NoneNested(fields)

  datatype Doc = Fields(fields: Yaml) | Manifest(app: Application)

  /** Setting a key: what was below it goes, and so does a value it comes to lie below. */
  function Put(fields: Yaml, key: string, text: string): Yaml {
    (map k | k in fields && !Nested(k, key) :: fields[k])[key := text]
  }

  type Tree = map<Path, Doc>

  /** What a yaml-update writes: a constant, or the tag the Freight carries for a
      repository. */
  datatype NewValue = Literal(text: string) | TagOf(repository: string)
  datatype Update = Update(key: string, value: NewValue)

  datatype Step =
    | GitClone(url: string)
    | YamlUpdate(path: Path, updates: seq<Update>)
    | Copy(source: Path, target: Path)
    | GitCommit
    | GitPush
    | ArgoUpdate(apps: seq<string>)

  /** The commits pushed so far, oldest first, and the Applications synced. */
  datatype Machine = Machine(remote: Tree, work: Option<Tree>, commit: Option<Tree>, pushed: seq<Tree>,
                             synced: seq<string>)

  datatype Outcome = Done(machine: Machine) | Stopped(machine: Machine)

  type Freight = map<string, string>

  function Resolve(v: NewValue, freight: Freight): Option<string> {
    match v
    case Literal(text) => Some(text)
    case TagOf(repository) => if repository in freight then Some(freight[repository]) else None
  }

  function SetKeys(fields: Yaml, updates: seq<Update>, freight: Freight): Option<Yaml>
    decreases |updates|
  {
    if updates == [] then Some(fields)
    else
      var n := |updates| - 1;
      var before, text := SetKeys(fields, updates[..n], freight), Resolve(updates[n].value, freight);
      if before.Some? && text.Some? then Some(Put(before.value, updates[n].key, text.value)) else None
  }

  /** Edits are the steps that only change the checked-out tree. */
  predicate IsEdit(step: Step) {
    step.YamlUpdate? || step.Copy?
  }

  function Edit(step: Step, tree: Tree, freight: Freight): Option<Tree>
    requires IsEdit(step)
  {
    match step
    case YamlUpdate(path, updates) =>
      if path in tree && tree[path].Fields? then
        match SetKeys(tree[path].fields, updates, freight)
        case Some(fields) => Some(tree[path := Fields(fields)])
        case None => None
      else None
    case Copy(source, target) => if source in tree then Some(tree[target := tree[source]]) else None
  }

  function Exec(step: Step, m: Machine, freight: Freight): Outcome {
    match step
    case GitClone(_) => Done(m.(work := Some(m.remote)))
    case GitCommit => if m.work.Some? then Done(m.(commit := m.work)) else Stopped(m)
    case GitPush =>
      if m.commit.Some? then Done(m.(remote := m.commit.value, pushed := m.pushed + [m.commit.value])) else Stopped(m)
    case ArgoUpdate(apps) => Done(m.(synced := m.synced + apps))
    case _ =>
      if m.work.None? then Stopped(m)
      else match Edit(step, m.work.value, freight)
        case Some(tree) => Done(m.(work := Some(tree)))
        case None => Stopped(m)
  }

  function RunSteps(steps: seq<Step>, m: Machine, freight: Freight): Outcome {
    if steps == [] then Done(m)
    else match Exec(steps[0], m, freight)
      case Done(m') => RunSteps(steps[1..], m', freight)
      case Stopped(m') => Stopped(m')
  }

  function Fresh(tree: Tree): Machine {
    Machine(tree, None, None, [], [])
  }

  // ---- edits in sequence -------------------------------------------------

  predicate Edits(steps: seq<Step>) {
    forall i :: 0 <= i < |steps| ==> IsEdit(steps[i])
  }

  function EditAll(steps: seq<Step>, tree: Tree, freight: Freight): Option<Tree>
    requires Edits(steps)
    decreases |steps|
  {
    if steps == [] then Some(tree)
    else
      var n := |steps| - 1;
      match EditAll(steps[..n], tree, freight)
      case Some(t) => Edit(steps[n], t, freight)
      case None => None
  }

  lemma {:induction false} RunConcat(a: seq<Step>, b: seq<Step>, m: Machine, freight: Freight)
    ensures RunSteps(a + b, m, freight) == match RunSteps(a, m, freight)
                                           case Done(m') => RunSteps(b, m', freight)
                                           case Stopped(m') => Stopped(m')
  {
    if a == [] {
      assert a + b == b;
    } else {
      assert (a + b)[1..] == a[1..] + b;
      if Exec(a[0], m, freight).Done? { RunConcat(a[1..], b, Exec(a[0], m, freight).machine, freight); }
    }
  }

  lemma {:induction false} RunEdits(steps: seq<Step>, m: Machine, freight: Freight)
    requires Edits(steps) && m.work.Some?
    ensures match EditAll(steps, m.work.value, freight)
            case Some(t) => RunSteps(steps, m, freight) == Done(m.(work := Some(t)))
            case None => RunSteps(steps, m, freight).Stopped? && RunSteps(steps, m, freight).machine.pushed == m.pushed
                         && RunSteps(steps, m, freight).machine.remote == m.remote
    decreases |steps|
  {
    if steps == [] {
    } else {
      var n := |steps| - 1;
      RunEdits(steps[..n], m, freight);
      assert steps == steps[..n] + [steps[n]];
      RunConcat(steps[..n], [steps[n]], m, freight);
      if EditAll(steps[..n], m.work.value, freight).Some? {
        var m' := RunSteps(steps[..n], m, freight).machine;
        assert [steps[n]][1..] == [];
        assert RunSteps([steps[n]], m', freight) == Exec(steps[n], m', freight);
      }
    }
  }

  /** A program that clones, edits, commits once, pushes and syncs either pushes
      exactly the edited tree as one commit and syncs, or pushes nothing. */
  lemma CloneEditPush(url: string, edits: seq<Step>, apps: seq<string>, tree: Tree, freight: Freight)
    requires Edits(edits)
    ensures var r := RunSteps([GitClone(url)] + edits + [GitCommit, GitPush, ArgoUpdate(apps)], Fresh(tree), freight);
            match EditAll(edits, tree, freight)
            case Some(t) => r.Done? && r.machine.pushed == [t] && r.machine.remote == t && r.machine.synced == apps
            case None => r.Stopped? && r.machine.pushed == [] && r.machine.synced == [] && r.machine.remote == tree
  {
    var clone, finish := [GitClone(url)], [GitCommit, GitPush, ArgoUpdate(apps)];
    var m0 := Fresh(tree);
    var m1 := m0.(work := Some(tree));
    assert clone + edits + finish == clone + (edits + finish);
    RunConcat(clone, edits + finish, m0, freight);
    assert clone[1..] == [];
    assert RunSteps(clone, m0, freight) == Done(m1);
    RunConcat(edits, finish, m1, freight);
    RunEdits(edits, m1, freight);
    StoppedSyncsNothing(edits, m1, freight);
    if EditAll(edits, tree, freight).Some? {
      FinishRuns(m1.(work := EditAll(edits, tree, freight)), apps, freight);
    }
  }

  lemma FinishRuns(m: Machine, apps: seq<string>, freight: Freight)
    requires m.work.Some?
    ensures RunSteps([GitCommit, GitPush, ArgoUpdate(apps)], m, freight)
         == Done(Machine(m.work.value, m.work, m.work, m.pushed + [m.work.value], m.synced + apps))
  {
    var finish := [GitCommit, GitPush, ArgoUpdate(apps)];
    var m1 := m.(commit := m.work);
    var m2 := m1.(remote := m.work.value, pushed := m.pushed + [m.work.value]);
    var m3 := m2.(synced := m.synced + apps);
    assert finish[1..] == [GitPush, ArgoUpdate(apps)];
    assert finish[1..][1..] == [ArgoUpdate(apps)];
    assert finish[1..][1..][1..] == [];
    assert RunSteps(finish[1..][1..], m2, freight) == RunSteps(finish[1..][1..][1..], m3, freight) == Done(m3);
    assert RunSteps(finish[1..], m1, freight) == RunSteps(finish[1..][1..], m2, freight);
  }

  lemma {:induction false} StoppedSyncsNothing(steps: seq<Step>, m: Machine, freight: Freight)
    requires Edits(steps)
    ensures RunSteps(steps, m, freight).machine.synced == m.synced
  {
    if steps != [] && Exec(steps[0], m, freight).Done? {
      StoppedSyncsNothing(steps[1..], Exec(steps[0], m, freight).machine, freight);
    }
  }

  /** The file an edit writes. */
  function Target(step: Step): Path
    requires IsEdit(step)
  {
    match step
    case YamlUpdate(path, _) => path
    case Copy(_, target) => target
  }

  /** A file no edit targets stays, and comes out of nowhere neither. */
  lemma {:induction false} EditFrame(steps: seq<Step>, tree: Tree, freight: Freight, p: Path)
    requires Edits(steps) && EditAll(steps, tree, freight).Some?
    requires forall i :: 0 <= i < |steps| ==> Target(steps[i]) != p
    ensures var t := EditAll(steps, tree, freight).value; (p in t <==> p in tree) && (p in tree ==> t[p] == tree[p])
    decreases |steps|
  {
    if steps == [] {
    } else {
      EditFrame(steps[..|steps| - 1], tree, freight, p);
    }
  }

  // ---- edits that do not interfere ---------------------------------------

  predicate Resolves(updates: seq<Update>, freight: Freight) {
    forall i :: 0 <= i < |updates| ==> Resolve(updates[i].value, freight).Some?
  }

  predicate Touches(a: string, b: string) {
    a == b || Nested(a, b)
  }

  /** Where the last of the keys is that decides what becomes of a key. */
  function LastTouch(keys: seq<string>, key: string): (r: Option<nat>)
    ensures r.Some? ==> r.value < |keys| && Touches(keys[r.value], key)
    ensures r.None? ==> forall i :: 0 <= i < |keys| ==> !Touches(keys[i], key)
  {
    if keys == [] then None
    else
      var n := |keys| - 1;
      if Touches(keys[n], key) then Some(n) else LastTouch(keys[..n], key)
  }

  function Keys(updates: seq<Update>): seq<string> {
    seq(|updates|, i requires 0 <= i < |updates| => updates[i].key)
  }

  /** The key after the updates: as before when none touches it, and otherwise what the
      last one that does makes of it. */
  ghost predicate SetAt(before: Yaml, after: Yaml, updates: seq<Update>, freight: Freight, key: string)
    requires Resolves(updates, freight)
  {
    match LastTouch(Keys(updates), key)
    case None => (key in after <==> key in before) && (key in before ==> after[key] == before[key])
    case Some(i) =>
      if updates[i].key == key then key in after && Some(after[key]) == Resolve(updates[i].value, freight)
      else key !in after
  }

  lemma {:induction false} SetKeysResolves(fields: Yaml, updates: seq<Update>, freight: Freight)
    ensures SetKeys(fields, updates, freight).Some? <==> Resolves(updates, freight)
    decreases |updates|
  {
    if updates == [] {
    } else {
      var n := |updates| - 1;
      SetKeysResolves(fields, updates[..n], freight);
      if Resolves(updates, freight) { assert Resolves(updates[..n], freight); }
    }
  }

  lemma {:induction false} SetKeysMeans(fields: Yaml, updates: seq<Update>, freight: Freight, key: string)
    requires Resolves(updates, freight)
    ensures SetKeys(fields, updates, freight).Some?
    ensures SetAt(fields, SetKeys(fields, updates, freight).value, updates, freight, key)
    decreases |updates|
  {
    SetKeysResolves(fields, updates, freight);
    if updates == [] {
    } else {
      var n := |updates| - 1;
      SetKeysMeans(fields, updates[..n], freight, key);
      OneMoreSet(fields, SetKeys(fields, updates[..n], freight).value, updates, freight, key);
    }
  }

  lemma OneMoreSet(before: Yaml, mid: Yaml, updates: seq<Update>, freight: Freight, key: string)
    requires updates != [] && Resolves(updates, freight) && SetAt(before, mid, updates[..|updates| - 1], freight, key)
    ensures var last := updates[|updates| - 1];
            SetAt(before, Put(mid, last.key, Resolve(last.value, freight).value), updates, freight, key)
  {
    var n := |updates| - 1;
    assert Keys(updates)[..n] == Keys(updates[..n]);
  }

  function Reads(step: Step): Path
    requires IsEdit(step)
  {
    match step
    case YamlUpdate(path, _) => path
    case Copy(source, _) => source
  }

  /** Two edits of one file are the same edit, and what a copy reads no edit
      writes. */
  ghost predicate Independent(steps: seq<Step>) {
    && Edits(steps)
    && (forall i, j :: 0 <= i < |steps| && 0 <= j < |steps| && Target(steps[i]) == Target(steps[j]) ==>
         steps[i] == steps[j])
    && (forall i, j :: 0 <= i < |steps| && 0 <= j < |steps| && steps[i].Copy? ==> Target(steps[j]) != Reads(steps[i]))
  }

  lemma SetTwice(fields: Yaml, updates: seq<Update>, freight: Freight)
    requires SetKeys(fields, updates, freight).Some?
    ensures SetKeys(SetKeys(fields, updates, freight).value, updates, freight) == SetKeys(fields, updates, freight)
  {
    var once := SetKeys(fields, updates, freight).value;
    SetKeysResolves(fields, updates, freight);
    SetKeysResolves(once, updates, freight);
    var twice := SetKeys(once, updates, freight).value;
    forall key ensures (key in twice <==> key in once) && (key in once ==> twice[key] == once[key]) {
      SetKeysMeans(fields, updates, freight, key);
      SetKeysMeans(once, updates, freight, key);
    }
    assert twice == once;
  }

  lemma EditTwice(step: Step, tree: Tree, freight: Freight)
    requires IsEdit(step) && Edit(step, tree, freight).Some?
    requires Target(step) != Reads(step) || step.YamlUpdate?
    ensures Edit(step, Edit(step, tree, freight).value, freight) == Edit(step, tree, freight)
  {
    var t := Edit(step, tree, freight).value;
    if step.YamlUpdate? {
      SetTwice(tree[step.path].fields, step.updates, freight);
      assert t[step.path := t[step.path]] == t;
    } else {
      assert t[step.target := t[step.source]] == t;
    }
  }

  /** An edit reads one file and writes one file. */
  lemma EditIsLocal(step: Step, a: Tree, b: Tree, freight: Freight)
    requires IsEdit(step)
    requires (Reads(step) in a <==> Reads(step) in b) && (Reads(step) in a ==> a[Reads(step)] == b[Reads(step)])
    ensures Edit(step, a, freight).Some? <==> Edit(step, b, freight).Some?
    ensures Edit(step, a, freight).Some? ==>
              Edit(step, a, freight).value[Target(step)] == Edit(step, b, freight).value[Target(step)]
  {
  }

  /** Each would go through alone. */
  ghost predicate EachAlone(steps: seq<Step>, tree: Tree, freight: Freight)
    requires Edits(steps)
  {
    forall i :: 0 <= i < |steps| ==> Edit(steps[i], tree, freight).Some?
  }

  /** The tree holds what each would leave alone. */
  ghost predicate LeavesEach(steps: seq<Step>, tree: Tree, after: Tree, freight: Freight)
    requires Edits(steps)
  {
    forall i :: 0 <= i < |steps| ==>
      Edit(steps[i], tree, freight).Some? && Target(steps[i]) in after
      && after[Target(steps[i])] == Edit(steps[i], tree, freight).value[Target(steps[i])]
  }

  /** Independent edits act as if each ran alone on the starting tree: they all go
      through exactly when each would alone, and leave what each would leave. */
  lemma {:induction false} IndependentEdits(steps: seq<Step>, tree: Tree, freight: Freight)
    requires Independent(steps)
    ensures EditAll(steps, tree, freight).Some? <==> EachAlone(steps, tree, freight)
    ensures EditAll(steps, tree, freight).Some? ==>
              LeavesEach(steps, tree, EditAll(steps, tree, freight).value, freight)
    decreases |steps|
  {
    if steps == [] {
    } else {
      var init := steps[..|steps| - 1];
      IndependentInit(steps);
      IndependentEdits(init, tree, freight);
      AloneInit(steps, tree, freight);
      if EditAll(init, tree, freight).Some? {
        LastGoesThrough(steps, tree, EditAll(init, tree, freight).value, freight);
      }
    }
  }

  lemma IndependentInit(steps: seq<Step>)
    requires Independent(steps) && steps != []
    ensures Independent(steps[..|steps| - 1])
  {
  }

  lemma AloneInit(steps: seq<Step>, tree: Tree, freight: Freight)
    requires Edits(steps) && steps != []
    ensures EachAlone(steps, tree, freight) <==>
              EachAlone(steps[..|steps| - 1], tree, freight) && Edit(steps[|steps| - 1], tree, freight).Some?
  {
    var init := steps[..|steps| - 1];
    assert forall i :: 0 <= i < |init| ==> init[i] == steps[i];
    if EachAlone(steps, tree, freight) {
      forall i | 0 <= i < |init| ensures Edit(init[i], tree, freight).Some? {
        assert Edit(steps[i], tree, freight).Some?;
      }
    }
  }

  lemma LastGoesThrough(steps: seq<Step>, tree: Tree, t: Tree, freight: Freight)
    requires Independent(steps) && steps != [] && EditAll(steps[..|steps| - 1], tree, freight) == Some(t)
    requires LeavesEach(steps[..|steps| - 1], tree, t, freight)
    ensures EditAll(steps, tree, freight).Some? <==> Edit(steps[|steps| - 1], tree, freight).Some?
    ensures EditAll(steps, tree, freight).Some? ==>
              LeavesEach(steps, tree, EditAll(steps, tree, freight).value, freight)
  {
    var n, last := |steps| - 1, steps[|steps| - 1];
    forall i | 0 <= i < n
      ensures Edit(steps[i], tree, freight).Some? && Target(steps[i]) in t
      ensures t[Target(steps[i])] == Edit(steps[i], tree, freight).value[Target(steps[i])]
    {
      assert steps[..n][i] == steps[i];
    }
    LastOfIndependent(steps, tree, freight, t);
    assert EditAll(steps, tree, freight) == Edit(last, t, freight);
    if Edit(last, t, freight).Some? { AllKept(steps, tree, t, freight); }
  }

  lemma AllKept(steps: seq<Step>, tree: Tree, t: Tree, freight: Freight)
    requires Independent(steps) && steps != []
    requires var last := steps[|steps| - 1];
             Edit(last, t, freight).Some? && Edit(last, tree, freight).Some?
             && Edit(last, t, freight).value[Target(last)] == Edit(last, tree, freight).value[Target(last)]
    requires forall i :: 0 <= i < |steps| - 1 ==>
               Edit(steps[i], tree, freight).Some? && Target(steps[i]) in t
               && t[Target(steps[i])] == Edit(steps[i], tree, freight).value[Target(steps[i])]
    ensures LeavesEach(steps, tree, Edit(steps[|steps| - 1], t, freight).value, freight)
  {
    forall i | 0 <= i < |steps| - 1
      ensures Target(steps[i]) in Edit(steps[|steps| - 1], t, freight).value
      ensures Edit(steps[|steps| - 1], t, freight).value[Target(steps[i])]
           == Edit(steps[i], tree, freight).value[Target(steps[i])]
    {
      KeepsEarlier(steps, i, tree, t, freight);
    }
  }

  lemma KeepsEarlier(steps: seq<Step>, i: nat, tree: Tree, t: Tree, freight: Freight)
    requires Independent(steps) && i < |steps| - 1
    requires var last := steps[|steps| - 1];
             Edit(last, t, freight).Some? && Edit(last, tree, freight).Some?
             && Edit(last, t, freight).value[Target(last)] == Edit(last, tree, freight).value[Target(last)]
    requires Edit(steps[i], tree, freight).Some? && Target(steps[i]) in t
    requires t[Target(steps[i])] == Edit(steps[i], tree, freight).value[Target(steps[i])]
    ensures var t' := Edit(steps[|steps| - 1], t, freight).value;
            Target(steps[i]) in t' && t'[Target(steps[i])] == Edit(steps[i], tree, freight).value[Target(steps[i])]
  {
    if Target(steps[i]) == Target(steps[|steps| - 1]) { assert steps[i] == steps[|steps| - 1]; }
  }

  lemma LastOfIndependent(steps: seq<Step>, tree: Tree, freight: Freight, t: Tree)
    requires Independent(steps) && steps != [] && EditAll(steps[..|steps| - 1], tree, freight) == Some(t)
    requires forall i :: 0 <= i < |steps| - 1 ==>
               Edit(steps[i], tree, freight).Some? && Target(steps[i]) in t
                 && t[Target(steps[i])] == Edit(steps[i], tree, freight).value[Target(steps[i])]
    ensures var last := steps[|steps| - 1];
            (Edit(last, t, freight).Some? <==> Edit(last, tree, freight).Some?)
            && (Edit(last, t, freight).Some? ==>
                 Edit(last, t, freight).value[Target(last)] == Edit(last, tree, freight).value[Target(last)])
  {
    var n := |steps| - 1;
    var init, last := steps[..n], steps[n];
    if i :| 0 <= i < n && Target(steps[i]) == Reads(last) {
      assert last.YamlUpdate? && steps[i] == last;
      EditTwice(last, tree, freight);
      EditIsLocal(last, t, Edit(last, tree, freight).value, freight);
    } else {
      EditFrame(init, tree, freight, Reads(last));
      EditIsLocal(last, t, tree, freight);
    }
  }
}
