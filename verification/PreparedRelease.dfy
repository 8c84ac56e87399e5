/** The two state files that outlive a publish: the pending marker of a prepared
    release and the dormancy record of an ephemeral validation environment, with
    the Application inputs they govern and the Applications kept for a promotion. */
module PreparedRelease {
  import GitTree
  import T = PromotionTemplate
  import opened Wrappers

  datatype Problem = CorruptState | NotBound | NotValidation

  datatype Result<T> = Ok(value: T) | Err(problem: Problem)

  /** A state file: missing, not YAML, YAML with something else than a truth value
      under the key, YAML without the key, or as it should be. */
  datatype Marker = Absent | Unparsed | Mistyped | Blank | Value(on: bool) {

    /** The publisher cannot read it. */
    predicate Corrupt() {
      Unparsed? || Mistyped?
    }
  }

  datatype Base = Inline | External | Composed

  /** A cluster and, for a composed app, which of its Applications there. */
  datatype Spot = Spot(cluster: string, unit: Option<string>)

  /** One Application input. */
  datatype Target = Target(base: Base, spot: Spot)

  /** targets says of each Application input whether it is held back, kept the same of
      each Application that a composed publish leaves for promotions to copy. */
  datatype State = State(release: Marker, dormancy: Marker, targets: map<Target, bool>, kept: map<string, bool>)

  /** validates: ephemeral validation is configured and this is its environment;
      spots are what a publish writes; syncs: composed Applications sync by
      themselves; preview: a preview environment, whose single-source apps have one
      flat input. */
  datatype Env = Env(validates: bool, bound: bool, prepareOnly: bool, base: Base, spots: seq<Spot>, syncs: bool,
                     preview: bool)

  /** Where that one is; no target cluster has the empty name. */
  const FLAT := Spot("", None)

  predicate Flat(env: Env) {
    env.preview && !env.base.Composed?
  }

  function Spots(env: Env): seq<Spot> {
    if Flat(env) then [FLAT] else env.spots
  }

  // ---- specification -----------------------------------------------------

  /** The marker wins over the request; a file without the key leaves the request. */
  function Pending(m: Marker, prepareOnly: bool): Result<bool> {
    match m
    case Value(on) => Ok(on)
    case _ => if m.Corrupt() then Err(CorruptState) else Ok(prepareOnly)
  }

  /** Missing state starts the environment idle, unless a deployment is there. */
  function Dormant(s: State, env: Env): Result<bool> {
    if !env.validates then Ok(false)
    else match s.dormancy
      case Absent => Ok(s.targets == map[])
      case Value(on) => Ok(on)
      case _ => if s.dormancy.Corrupt() then Err(CorruptState) else Ok(false)
  }

  function Others(targets: map<Target, bool>, base: Base): map<Target, bool> {
    map t | t in targets && t.base != base :: targets[t]
  }

  /** A flat input is written over, everything else under the base goes first. */
  function Cleared(targets: map<Target, bool>, env: Env): map<Target, bool> {
    if Flat(env) then targets else Others(targets, env.base)
  }

  function TargetSet(base: Base, spots: seq<Spot>): set<Target> {
    set c | c in spots :: Target(base, c)
  }

  function Inputs(base: Base, spots: seq<Spot>, held: bool): map<Target, bool> {
    map t | t in TargetSet(base, spots) :: held
  }

  function Label(c: Spot): string {
    T.Label(c.cluster, c.unit)
  }

  function LabelSet(spots: seq<Spot>): set<string> {
    set c | c in spots :: Label(c)
  }

  function KeptBy(base: Base, spots: seq<Spot>, held: bool): map<string, bool> {
    if base.Composed? then map l | l in LabelSet(spots) :: held else map[]
  }

  /** A composed Application that does not sync by itself anyway is as one held back. */
  predicate NeverSyncs(env: Env) {
    env.base.Composed? && !env.syncs
  }

  function Written(s: State, env: Env, pending: bool): State {
    State(Value(pending), s.dormancy,
          Cleared(s.targets, env) + Inputs(env.base, Spots(env), pending || NeverSyncs(env)),
          s.kept + KeptBy(env.base, Spots(env), NeverSyncs(env)))
  }

  function Publish(s: State, env: Env): Result<State> {
    if !env.bound then Ok(s)
    else match Dormant(s, env)
      case Err(p) => Err(p)
      case Ok(true) => Ok(s.(targets := map[]))
      case Ok(false) =>
        match Pending(s.release, env.prepareOnly)
        case Err(p) => Err(p)
        case Ok(pending) => Ok(Written(s, env, pending))
  }

  function Prepare(s: State, env: Env): Result<State> {
    if !env.bound then Err(NotBound) else Publish(s, env.(prepareOnly := true))
  }

  /** Ending a validation removes the inputs, and nothing else. */
  function SetValidation(s: State, env: Env, active: bool): Result<State> {
    if !env.validates then Err(NotValidation)
    else if active then Publish(s.(release := Value(true), dormancy := Value(false)), env.(prepareOnly := true))
    else Ok(s.(dormancy := Value(true), targets := map[]))
  }

  /** A single-source template edits the inputs, a composed one copies what is kept. */
  predicate HasSource(s: State, base: Base, c: Spot) {
    if base.Composed? then Label(c) in s.kept else Target(base, c) in s.targets
  }

  predicate CanPromote(s: State, base: Base, spots: seq<Spot>) {
    s.release != Absent && s.release != Unparsed
    && forall i :: 0 <= i < |spots| ==> HasSource(s, base, spots[i])
  }

  function Activated(s: State, base: Base, spots: seq<Spot>): map<Target, bool> {
    map t | t in TargetSet(base, spots) :: base.Composed? && Label(t.spot) in s.kept && s.kept[Label(t.spot)]
  }

  /** What a run of the promotion template does to this state. */
  function Promote(s: State, base: Base, spots: seq<Spot>): State {
    if CanPromote(s, base, spots)
    then s.(release := Value(false), targets := s.targets + Activated(s, base, spots))
    else s
  }

  // ---- the publisher -----------------------------------------------------

  /** A working clone; nothing in it counts until it is pushed. */
  class Clone {
    var release: Marker
    var dormancy: Marker
    var targets: map<Target, bool>
    var kept: map<string, bool>

    function Contents(): State
      reads this
    {
      State(release, dormancy, targets, kept)
    }

    constructor (s: State)
      ensures Contents() == s
    {
      release, dormancy, targets, kept := s.release, s.dormancy, s.targets, s.kept;
    }

    method PromotionPending(prepareOnly: bool) returns (r: Result<bool>)
      modifies this`release
      ensures r == Pending(old(release), prepareOnly)
      ensures release == if r.Ok? then Value(r.value) else old(release)
    {
      var state := prepareOnly;
      match release {
        case Value(on) => state := on;
        case Absent =>
        case Blank =>
        case _ => return Err(CorruptState);
      }
      release := Value(state);
      r := Ok(state);
    }

    method ValidationDormant(env: Env) returns (r: Result<bool>)
      ensures r == Dormant(Contents(), env)
    {
      if !env.validates { return Ok(false); }
      match dormancy {
        case Absent => return Ok(targets == map[]);
        case Blank => return Ok(false);
        case Value(on) => return Ok(on);
        case _ => return Err(CorruptState);
      }
    }

    method RemoveValidationWorkloads()
      modifies this`targets
      ensures targets == map[]
    {
      targets := Others(targets, Inline);
      targets := Others(targets, External);
      targets := Others(targets, Composed);
      forall t ensures t !in targets {
        if t in targets { match t.base { case Inline => case External => case Composed => } }
      }
    }

    method PublishEnvFiles(env: Env) returns (r: Result<()>)
      modifies this
      ensures match Publish(old(Contents()), env)
              case Ok(s) => r == Ok(()) && Contents() == s
              case Err(p) => r == Err(p)
    {
      if !env.bound { return Ok(()); }
      var dormant := ValidationDormant(env);
      if dormant.Err? { return Err(dormant.problem); }
      if dormant.value {
        RemoveValidationWorkloads();
        return Ok(());
      }
      var pending := PromotionPending(env.prepareOnly);
      if pending.Err? { return Err(pending.problem); }
      if !Flat(env) { targets := Others(targets, env.base); }
      ghost var (others, before) := (targets, kept);
      var spots := Spots(env);
      var held := pending.value || (env.base.Composed? && !env.syncs);
      for i := 0 to |spots|
        invariant release == Value(pending.value) && dormancy == old(dormancy)
        invariant targets == others + Inputs(env.base, spots[..i], held)
        invariant kept == before + KeptBy(env.base, spots[..i], NeverSyncs(env))
      {
        if env.base.Composed? { kept := kept[Label(spots[i]) := !env.syncs]; }
        targets := targets[Target(env.base, spots[i]) := held];
        OneMoreInput(others, env.base, spots, i, held);
        if env.base.Composed? { OneMoreKept(before, env.base, spots, i, NeverSyncs(env)); }
      }
      assert spots[..|spots|] == spots;
      assert before + map[] == before;
      r := Ok(());
    }
  }

  lemma OneMoreInput(others: map<Target, bool>, base: Base, spots: seq<Spot>, i: nat, held: bool)
    requires i < |spots|
    ensures (others + Inputs(base, spots[..i], held))[Target(base, spots[i]) := held]
         == others + Inputs(base, spots[..i + 1], held)
  {
    assert spots[..i + 1] == spots[..i] + [spots[i]];
    assert TargetSet(base, spots[..i + 1]) == TargetSet(base, spots[..i]) + {Target(base, spots[i])};
  }

  lemma OneMoreKept(before: map<string, bool>, base: Base, spots: seq<Spot>, i: nat, held: bool)
    requires i < |spots| && base.Composed?
    ensures (before + KeptBy(base, spots[..i], held))[Label(spots[i]) := held]
         == before + KeptBy(base, spots[..i + 1], held)
  {
    assert spots[..i + 1] == spots[..i] + [spots[i]];
    assert LabelSet(spots[..i + 1]) == LabelSet(spots[..i]) + {Label(spots[i])};
  }

  /** The shared repository: an operation clones, changes the clone and pushes it,
      or reports a problem and pushes nothing. */
  class Remote {
    var head: State

    constructor (s: State)
      ensures head == s
    {
      head := s;
    }

    method PublishAppEnv(env: Env) returns (r: Result<()>)
      modifies this
      ensures match Publish(old(head), env)
              case Ok(s) => r == Ok(()) && head == s
              case Err(p) => r == Err(p) && head == old(head)
    {
      var repo := new Clone(head);
      r := repo.PublishEnvFiles(env);
      if r.Ok? { head := repo.Contents(); }
    }

    method PrepareAppEnv(env: Env) returns (r: Result<()>)
      modifies this
      ensures match Prepare(old(head), env)
              case Ok(s) => r == Ok(()) && head == s
              case Err(p) => r == Err(p) && head == old(head)
    {
      if !env.bound { return Err(NotBound); }
      r := PublishAppEnv(env.(prepareOnly := true));
    }

    method SetValidationWorkloads(env: Env, active: bool) returns (r: Result<()>)
      modifies this
      ensures match SetValidation(old(head), env, active)
              case Ok(s) => r == Ok(()) && head == s
              case Err(p) => r == Err(p) && head == old(head)
    {
      if !env.validates { return Err(NotValidation); }
      var repo := new Clone(head);
      repo.dormancy := Value(!active);
      if active {
        repo.release := Value(true);
        r := repo.PublishEnvFiles(env.(prepareOnly := true));
        if r.Err? { return; }
      } else {
        repo.RemoveValidationWorkloads();
        r := Ok(());
      }
      head := repo.Contents();
    }
  }

  // ---- runs --------------------------------------------------------------

  datatype Op =
    | Republish(env: Env)
    | PrepareFor(env: Env)
    | Promotion(base: Base, spots: seq<Spot>)
    | Validation(env: Env, active: bool)

  /** A refused operation pushes nothing. */
  function Pushed(r: Result<State>, s: State): State {
    if r.Ok? then r.value else s
  }

  function Step(s: State, op: Op): State {
    match op
    case Republish(env) => Pushed(Publish(s, env), s)
    case PrepareFor(env) => Pushed(Prepare(s, env), s)
    case Promotion(base, spots) => Promote(s, base, spots)
    case Validation(env, active) => Pushed(SetValidation(s, env, active), s)
  }

  function Run(s: State, ops: seq<Op>): State {
    if ops == [] then s else Step(Run(s, ops[..|ops| - 1]), ops[|ops| - 1])
  }

  /** An existing marker that can be read is what a publish leaves, whatever it was
      asked to prepare; one that cannot be read stops a publish that would need it. */
  lemma RepublishKeepsMarker(s: State, env: Env)
    ensures s.release.Value? && Publish(s, env).Ok? ==> Publish(s, env).value.release == s.release
    ensures s.release.Corrupt() && env.bound && Dormant(s, env) == Ok(false) ==> Publish(s, env) == Err(CorruptState)
    ensures Publish(s, env).Ok? ==> Publish(s, env).value.dormancy == s.dormancy
  {
  }

  /** Over any run, a pending release ends only in a promotion that went through. */
  lemma {:induction false} ClearedOnlyByPromotion(s: State, ops: seq<Op>) returns (i: nat)
    requires s.release == Value(true) && Run(s, ops).release != Value(true)
    ensures i < |ops| && ops[i].Promotion?
    ensures Run(s, ops[..i]).release == Value(true) && Run(s, ops[..i + 1]).release == Value(false)
    ensures CanPromote(Run(s, ops[..i]), ops[i].base, ops[i].spots)
  {
    var n := |ops| - 1;
    var before := Run(s, ops[..n]);
    if before.release == Value(true) {
      i := n;
      assert ops[..n + 1] == ops;
    } else {
      i := ClearedOnlyByPromotion(s, ops[..n]);
      assert ops[..n][..i] == ops[..i] && ops[..n][..i + 1] == ops[..i + 1];
    }
  }

  /** Once active, a release is only made pending again by starting a validation:
      republishing and preparing leave it active. */
  lemma {:induction false} ActiveStaysActive(s: State, ops: seq<Op>)
    requires s.release == Value(false)
    requires forall i :: 0 <= i < |ops| ==> !(ops[i].Validation? && ops[i].active)
    ensures Run(s, ops).release == Value(false)
  {
    if ops == [] {
    } else {
      ActiveStaysActive(s, ops[..|ops| - 1]);
    }
  }

  /** Applications kept for promotions are never removed. */
  lemma {:induction false} KeptStays(s: State, ops: seq<Op>)
    ensures s.kept.Keys <= Run(s, ops).kept.Keys
  {
    if ops == [] {
    } else {
      KeptStays(s, ops[..|ops| - 1]);
    }
  }

  /** Over any run, recorded dormancy ends only by starting a validation, and that
      leaves the release pending with every input it wrote held back. */
  lemma {:induction false} DormancyEndsPending(s: State, ops: seq<Op>) returns (i: nat)
    requires s.dormancy == Value(true) && Run(s, ops).dormancy != Value(true)
    ensures i < |ops| && ops[i].Validation? && ops[i].active && ops[i].env.validates
    ensures Run(s, ops[..i]).dormancy == Value(true)
    ensures var after := Run(s, ops[..i + 1]);
            after.dormancy == Value(false) && after.release == Value(true) && WroteHeld(after, ops[i].env)
  {
    var n := |ops| - 1;
    if Run(s, ops[..n]).dormancy == Value(true) {
      i := n;
      assert ops[..n + 1] == ops;
    } else {
      i := DormancyEndsPending(s, ops[..n]);
      assert ops[..n][..i] == ops[..i] && ops[..n][..i + 1] == ops[..i + 1];
    }
  }

  /** The publish writes or removes the input. */
  predicate Rewritten(env: Env, t: Target) {
    env.bound && t.base == env.base && (Flat(env) ==> t.spot == FLAT)
  }

  ghost predicate WroteHeld(s: State, env: Env) {
    forall t :: t in s.targets && Rewritten(env, t) ==> s.targets[t]
  }

  // ---- a publish, input by input -----------------------------------------

  /** Recorded as dormant, or never recorded and nothing deployed. */
  predicate Idle(s: State, env: Env) {
    env.validates && (s.dormancy == Value(true) || (s.dormancy == Absent && s.targets == map[]))
  }

  /** A composed app, and any app outside a preview, has an input at every spot; a
      single-source preview has one, whatever its spots. */
  predicate HasInput(env: Env, t: Target) {
    && t.base == env.base
    && if env.preview && env.base != Composed then t.spot == Spot("", None) else t.spot in env.spots
  }

  /** Held back while pending, and if it is composed and does not sync by itself. What
      the publish does not write stays only outside its tree, or beside a flat input. */
  ghost predicate InputFits(s: State, env: Env, pending: bool, after: State, t: Target) {
    if HasInput(env, t) then
      t in after.targets && (after.targets[t] <==> pending || (env.base == Composed && !env.syncs))
    else if t.base == env.base && !(env.preview && env.base != Composed) then t !in after.targets
    else (t in after.targets <==> t in s.targets) && (t in s.targets ==> after.targets[t] == s.targets[t])
  }

  ghost predicate KeptFits(s: State, env: Env, after: State, name: string) {
    if env.base == Composed && exists c :: c in env.spots && Label(c) == name then
      name in after.kept && (after.kept[name] <==> !env.syncs)
    else (name in after.kept <==> name in s.kept) && (name in s.kept ==> after.kept[name] == s.kept[name])
  }

  ghost predicate PublishFits(s: State, env: Env, after: State) {
    if !env.bound then after == s
    else if Idle(s, env) then after == s.(targets := map[])
    else
      var pending := if s.release.Value? then s.release.on else env.prepareOnly;
      && after.release == Value(pending) && after.dormancy == s.dormancy
      && (forall t: Target :: InputFits(s, env, pending, after, t))
      && forall name :: KeptFits(s, env, after, name)
  }

  /** When a publish is refused, and else what it leaves of every state file, every
      input and every Application kept. */
  lemma PublishExactly(s: State, env: Env)
    ensures Publish(s, env).Err? <==>
              && env.bound
              && ((env.validates && s.dormancy in {Unparsed, Mistyped})
                  || (!Idle(s, env) && s.release in {Unparsed, Mistyped}))
    ensures Publish(s, env).Ok? ==> PublishFits(s, env, Publish(s, env).value)
  {
    if Publish(s, env).Ok? && env.bound && !Idle(s, env) {
      var pending := if s.release.Value? then s.release.on else env.prepareOnly;
      assert Publish(s, env) == Ok(Written(s, env, pending));
      forall t: Target ensures InputFits(s, env, pending, Written(s, env, pending), t) {
        WrittenInput(s, env, pending, t);
      }
      forall name ensures KeptFits(s, env, Written(s, env, pending), name) {
        assert name in LabelSet(env.spots) <==> exists c :: c in env.spots && Label(c) == name;
      }
    }
  }

  lemma WrittenInput(s: State, env: Env, pending: bool, t: Target)
    ensures InputFits(s, env, pending, Written(s, env, pending), t)
  {
    assert t in TargetSet(env.base, Spots(env)) <==> HasInput(env, t) by {
      assert t == Target(t.base, t.spot);
    }
  }

  // ---- dormancy ----------------------------------------------------------

  /** No input after the run, nor after any prefix of it. */
  ghost predicate EmptyThrough(s: State, ops: seq<Op>) {
    Run(s, ops).targets == map[] && (ops == [] || EmptyThrough(s, ops[..|ops| - 1]))
  }

  /** A promotion that needs none of the inputs: a composed one, with all it copies
      still kept. */
  predicate Wakes(s: State, op: Op) {
    op.Promotion? && op.base.Composed? && CanPromote(s, op.base, op.spots)
  }

  /** What may happen while nobody starts a validation. (A template always names a
      cluster, a publish always writes something.) */
  predicate Quiet(op: Op) {
    match op
    case Republish(env) => env.validates && Spots(env) != []
    case PrepareFor(env) => env.validates && Spots(env) != []
    case Promotion(_, spots) => spots != []
    case Validation(_, active) => !active
  }

  ghost predicate AllQuiet(ops: seq<Op>) {
    forall i :: 0 <= i < |ops| ==> Quiet(ops[i])
  }

  lemma QuietStep(s: State, op: Op)
    requires s.targets == map[] && (s.dormancy == Value(true) || (s.dormancy == Absent && !op.Validation?)) && Quiet(op)
    ensures !Wakes(s, op) ==> Step(s, op) == s
    ensures Wakes(s, op) ==> Step(s, op).targets != map[] && Step(s, op).dormancy == s.dormancy
  {
    match op
    case Promotion(base, spots) =>
      if base.Composed? && CanPromote(s, base, spots) {
        assert Target(base, spots[0]) in TargetSet(base, spots);
        assert Target(base, spots[0]) in Step(s, op).targets;
      } else if !base.Composed? {
        assert !HasSource(s, base, spots[0]);
      }
    case _ =>
  }

  /** Until a validation is started, no republish, preparation or promotion touches a
      dormant environment, unless a composed promotion finds what it copies: ending
      the validation removed the inputs, but not what is kept for promotions. */
  lemma {:induction false} DormantStaysEmptyExactly(s: State, ops: seq<Op>)
    requires s.dormancy == Value(true) && s.targets == map[] && AllQuiet(ops)
    ensures EmptyThrough(s, ops) <==> forall i :: 0 <= i < |ops| ==> !Wakes(s, ops[i])
    ensures EmptyThrough(s, ops) ==> Run(s, ops) == s
  {
    if ops == [] {
    } else {
      var n := |ops| - 1;
      DormantStaysEmptyExactly(s, ops[..n]);
      assert forall i :: 0 <= i < n ==> ops[..n][i] == ops[i];
      if EmptyThrough(s, ops[..n]) { QuietStep(s, ops[n]); }
    }
  }

  /** The kind that fails: a validation of a composed app, started and ended. A
      promotion to its clusters then goes through: it clears the marker and brings
      every Application back, in an environment that is recorded as dormant. */
  lemma DormantIsReactivated(s: State, env: Env)
    requires env.validates && env.bound && env.base.Composed? && env.spots != []
    ensures var idle := Run(s, [Validation(env, true), Validation(env, false)]);
            var after := Step(idle, Promotion(Composed, env.spots));
            && idle.dormancy == Value(true) && idle.targets == map[] && idle.release == Value(true)
            && after.dormancy == Value(true) && after.release == Value(false)
            && forall c :: c in env.spots ==> Target(Composed, c) in after.targets
                                              && (env.syncs ==> !after.targets[Target(Composed, c)])
  {
    var ops := [Validation(env, true), Validation(env, false)];
    assert ops[..1] == [Validation(env, true)] && ops[..1][..0] == [];
    assert Run(s, []) == s && Run(s, ops[..1]) == Step(s, Validation(env, true));
    var started := Step(s, Validation(env, true));
    var idle := Run(s, ops);
    assert idle == started.(dormancy := Value(true), targets := map[]);
    forall c | c in env.spots ensures Label(c) in idle.kept && idle.kept[Label(c)] == !env.syncs
      && Target(Composed, c) in TargetSet(Composed, env.spots)
    {
      assert Label(c) in LabelSet(env.spots);
    }
  }

  /** An ephemeral environment with no dormancy record: if something is deployed it is
      never emptied; if nothing is, it stays idle unless such a promotion comes. */
  lemma {:induction false} UnrecordedStaysAsItIs(s: State, ops: seq<Op>)
    requires s.dormancy == Absent && AllQuiet(ops) && forall i :: 0 <= i < |ops| ==> !ops[i].Validation?
    ensures Run(s, ops).dormancy == Absent
    ensures Run(s, ops).targets == map[] <==>
              s.targets == map[] && forall i :: 0 <= i < |ops| ==> !Wakes(s, ops[i])
    ensures Run(s, ops).targets == map[] ==> Run(s, ops) == s
  {
    if ops == [] {
    } else {
      var n := |ops| - 1;
      UnrecordedStaysAsItIs(s, ops[..n]);
      assert forall i :: 0 <= i < n ==> ops[..n][i] == ops[i];
      if Run(s, ops[..n]).targets == map[] {
        QuietStep(s, ops[n]);
      } else {
        DeployedStep(Run(s, ops[..n]), ops[n]);
      }
    }
  }

  lemma DeployedStep(s: State, op: Op)
    requires s.dormancy == Absent && s.targets != map[] && Quiet(op) && !op.Validation?
    ensures Step(s, op).dormancy == Absent && Step(s, op).targets != map[]
  {
    match op
    case Republish(env) => WritesSomething(s, env);
    case PrepareFor(env) => WritesSomething(s, env.(prepareOnly := true));
    case Promotion(base, spots) => assert Target(base, spots[0]) in TargetSet(base, spots);
  }

  lemma WritesSomething(s: State, env: Env)
    requires s.dormancy == Absent && s.targets != map[] && env.validates && Spots(env) != []
    ensures Pushed(Publish(s, env), s).dormancy == Absent && Pushed(Publish(s, env), s).targets != map[]
  {
    var t := Target(env.base, Spots(env)[0]);
    assert t in TargetSet(env.base, Spots(env));
    if env.bound && !s.release.Corrupt() { assert t in Publish(s, env).value.targets; }
  }

  // ---- a pending release is inert ----------------------------------------

  /** While the release is pending, nothing under the base syncs by itself. */
  ghost predicate Inert(s: State, base: Base) {
    s.release == Value(true) ==> forall t :: t in s.targets && t.base == base ==> s.targets[t]
  }

  /** The operation makes the release pending whatever it was: it writes the marker
      for the first time, or starts a validation. */
  predicate Arms(s: State, op: Op) {
    match op
    case Republish(env) => env.prepareOnly && WritesFirstMarker(s, env)
    case PrepareFor(env) => WritesFirstMarker(s, env)
    case Promotion(_, _) => false
    case Validation(env, active) => active && env.validates
  }

  predicate WritesFirstMarker(s: State, env: Env) {
    env.bound && s.release in {Absent, Blank} && Dormant(s, env) == Ok(false)
  }

  /** Some input under the base runs, and the operation makes the release pending
      without rewriting it. */
  ghost predicate LeavesRunning(s: State, op: Op, base: Base) {
    Arms(s, op) && !op.Promotion?
    && exists t :: t in s.targets && t.base == base && !s.targets[t] && !Rewritten(op.env, t)
  }

  /** That is the one way an inert tree stops being inert. */
  lemma StepInertExactly(s: State, op: Op, base: Base)
    requires Inert(s, base)
    ensures Inert(Step(s, op), base) <==> !LeavesRunning(s, op, base)
  {
    match op
    case Republish(env) => PublishInertExactly(s, env, base);
    case PrepareFor(env) => PublishInertExactly(s, env.(prepareOnly := true), base);
    case Promotion(_, _) =>
    case Validation(env, active) =>
      if env.validates && active {
        ArmedInertExactly(s.(release := Value(true), dormancy := Value(false)), env.(prepareOnly := true), base);
      }
  }

  ghost predicate RunsUntouched(s: State, env: Env, base: Base) {
    exists t :: t in s.targets && t.base == base && !s.targets[t] && !Rewritten(env, t)
  }

  lemma PublishInertExactly(s: State, env: Env, base: Base)
    requires Inert(s, base)
    ensures Inert(Pushed(Publish(s, env), s), base) <==>
              !(env.prepareOnly && WritesFirstMarker(s, env) && RunsUntouched(s, env, base))
    ensures RunsUntouched(s, env, base) <==> RunsUntouched(s, env.(prepareOnly := !env.prepareOnly), base)
  {
    assert forall t :: Rewritten(env, t) <==> Rewritten(env.(prepareOnly := !env.prepareOnly), t);
    if env.bound && Dormant(s, env) == Ok(false) && Pending(s.release, env.prepareOnly).Ok? {
      RewrittenInputs(s, env, Pending(s.release, env.prepareOnly).value);
    }
  }

  lemma ArmedInertExactly(s: State, env: Env, base: Base)
    requires s.release == Value(true) && s.dormancy == Value(false)
    ensures Inert(Pushed(Publish(s, env), s), base) <==> !RunsUntouched(s, env, base)
    ensures RunsUntouched(s, env, base) <==> RunsUntouched(s, env.(prepareOnly := !env.prepareOnly), base)
  {
    assert forall t :: Rewritten(env, t) <==> Rewritten(env.(prepareOnly := !env.prepareOnly), t);
    if env.bound { RewrittenInputs(s, env, true); }
  }

  /** A publish leaves every input it does not rewrite as it was. */
  lemma RewrittenInputs(s: State, env: Env, pending: bool)
    requires env.bound
    ensures var after := Written(s, env, pending).targets;
            forall t: Target ::
              && (Rewritten(env, t) && t in after ==> after[t] == (pending || NeverSyncs(env)))
              && (!Rewritten(env, t) ==>
                   (t in after <==> t in s.targets) && (t in s.targets ==> after[t] == s.targets[t]))
  {
  }

  /** Inert after the run and after every prefix of it. */
  ghost predicate InertThrough(s: State, ops: seq<Op>, base: Base) {
    Inert(Run(s, ops), base) && (ops == [] || InertThrough(s, ops[..|ops| - 1], base))
  }

  /** No step of the run leaves inputs running. */
  ghost predicate NeverLeavesRunning(s: State, ops: seq<Op>, base: Base) {
    ops == []
    || (NeverLeavesRunning(s, ops[..|ops| - 1], base) && !LeavesRunning(Run(s, ops[..|ops| - 1]), ops[|ops| - 1], base))
  }

  /** Over a run, a tree is inert all the way exactly when no step is of that kind. */
  lemma {:induction false} RunInertExactly(s: State, ops: seq<Op>, base: Base)
    requires Inert(s, base)
    ensures InertThrough(s, ops, base) <==> NeverLeavesRunning(s, ops, base)
  {
    if ops == [] {
    } else {
      var init := ops[..|ops| - 1];
      RunInertExactly(s, init, base);
      if InertThrough(s, init, base) { StepInertExactly(Run(s, init), ops[|ops| - 1], base); }
    }
  }

  predicate UsesBase(op: Op, base: Base) {
    match op
    case Republish(env) => env.base == base && !Flat(env)
    case PrepareFor(env) => env.base == base && !Flat(env)
    case Promotion(b, _) => b == base
    case Validation(env, _) => env.base == base && !Flat(env) && (env.bound || !op.active)
  }

  /** In particular, operations on the tree itself keep it inert, if no validation
      is started on an unbound environment. */
  lemma {:induction false} RunKeepsInert(s: State, ops: seq<Op>, base: Base)
    requires Inert(s, base)
    requires forall i :: 0 <= i < |ops| ==> UsesBase(ops[i], base)
    ensures Inert(Run(s, ops), base)
  {
    if ops == [] {
    } else {
      RunKeepsInert(s, ops[..|ops| - 1], base);
      StepInertExactly(Run(s, ops[..|ops| - 1]), ops[|ops| - 1], base);
    }
  }

  /** Two inputs of the failing kind. A publish prunes only the tree it writes, so an
      app whose tree changed keeps running inputs in the old one while it is pending;
      and starting a validation without a cluster marks running inputs pending
      without touching them. */
  lemma RunningInputsLeft(cluster: string)
    ensures var t := Target(Inline, Spot(cluster, None));
            var s := State(Absent, Absent, map[t := false], map[]);
            var op := PrepareFor(Env(false, true, false, Composed, [t.spot], true, false));
            Inert(s, Inline) && LeavesRunning(s, op, Inline) && !Inert(Step(s, op), Inline)
    ensures var t := Target(Inline, Spot(cluster, None));
            var s := State(Value(false), Value(false), map[t := false], map[]);
            var op := Validation(Env(true, false, false, Inline, [], true, false), true);
            Inert(s, Inline) && LeavesRunning(s, op, Inline) && !Inert(Step(s, op), Inline)
  {
    var t := Target(Inline, Spot(cluster, None));
    var s := State(Absent, Absent, map[t := false], map[]);
    var op := PrepareFor(Env(false, true, false, Composed, [t.spot], true, false));
    assert t in s.targets && !Rewritten(op.env, t);
    StepInertExactly(s, op, Inline);
    var s2 := State(Value(false), Value(false), map[t := false], map[]);
    var op2 := Validation(Env(true, false, false, Inline, [], true, false), true);
    assert t in s2.targets && !Rewritten(op2.env, t);
    StepInertExactly(s2, op2, Inline);
  }

  /** A full validation cycle: started, republished any number of times, promoted.
      Every input is held back until the promotion and runs after it, unless the
      Applications never sync by themselves. */
  lemma {:induction false} ValidationCycle(s: State, env: Env, ops: seq<Op>)
    requires env.validates && env.bound
    requires forall i :: 0 <= i < |ops| ==>
               ops[i].Republish? && ops[i].env.(prepareOnly := true) == env.(prepareOnly := true)
    ensures var during := Run(s, [Validation(env, true)] + ops);
            during.release == Value(true) && during.dormancy == Value(false)
            && (forall c :: c in Spots(env) ==>
                 Target(env.base, c) in during.targets && during.targets[Target(env.base, c)])
            && CanPromote(during, env.base, Spots(env))
            && var after := Step(during, Promotion(env.base, Spots(env)));
               after.release == Value(false)
               && forall c :: c in Spots(env) ==>
                    Target(env.base, c) in after.targets && (after.targets[Target(env.base, c)] <==> NeverSyncs(env))
  {
    DuringValidation(s, env, ops);
    var during := Run(s, [Validation(env, true)] + ops);
    InputsOf(env.base, Spots(env), true);
    assert forall c :: c in Spots(env) ==> HasSource(during, env.base, c);
  }

  /** Every spot is written and held back, and can be promoted. */
  ghost predicate Ready(s: State, env: Env) {
    && s.release == Value(true) && s.dormancy == Value(false)
    && (forall c :: c in Spots(env) ==> Target(env.base, c) in s.targets && s.targets[Target(env.base, c)])
    && (env.base.Composed? ==>
          forall c :: c in Spots(env) ==> Label(c) in s.kept && s.kept[Label(c)] == NeverSyncs(env))
  }

  lemma {:induction false} DuringValidation(s: State, env: Env, ops: seq<Op>)
    requires env.validates && env.bound
    requires forall i :: 0 <= i < |ops| ==>
               ops[i].Republish? && ops[i].env.(prepareOnly := true) == env.(prepareOnly := true)
    ensures Ready(Run(s, [Validation(env, true)] + ops), env)
  {
    var run := [Validation(env, true)] + ops;
    if ops == [] {
      assert run[..0] == [] && run[0] == Validation(env, true);
      var started := s.(release := Value(true), dormancy := Value(false));
      WrittenReady(started, env);
      Republished(started, env, env.(prepareOnly := true));
    } else {
      var n := |ops| - 1;
      assert run[..|run| - 1] == [Validation(env, true)] + ops[..n];
      var before := Run(s, run[..|run| - 1]);
      DuringValidation(s, env, ops[..n]);
      WrittenReady(before, env);
      Republished(before, env, ops[n].env);
      assert run[|run| - 1] == ops[n];
    }
  }

  lemma Republished(s: State, env: Env, env': Env)
    requires s.release == Value(true) && s.dormancy == Value(false) && env.bound
    requires env'.(prepareOnly := true) == env.(prepareOnly := true)
    ensures Publish(s, env') == Ok(Written(s, env, true))
  {
  }

  lemma WrittenReady(s: State, env: Env)
    requires s.dormancy == Value(false)
    ensures Ready(Written(s, env, true), env)
  {
    InputsOf(env.base, Spots(env), true);
  }

  lemma InputsOf(base: Base, spots: seq<Spot>, held: bool)
    ensures forall c :: c in spots ==> Target(base, c) in Inputs(base, spots, held)
    ensures forall c :: c in spots ==> Target(base, c) in TargetSet(base, spots) && Label(c) in LabelSet(spots)
  {
  }

  // ---- the generators that pick Applications up --------------------------

  /** A git-file generator; template is a sync override for what it generates. */
  class GitFiles {
    var template: Option<GitTree.Automated>

    constructor (template: Option<GitTree.Automated>)
      ensures this.template == template
    {
      this.template := template;
    }
  }

  /** Which values of an app.yaml's promotionPending a generator accepts. */
  datatype Selector = Anything | NotPending | OnlyPending

  datatype Generator = Generator(git: GitFiles?, selector: Selector)

  class SyncPolicy {
    var automated: Option<GitTree.Automated>
  }

  predicate Matches(selector: Selector, pending: Option<string>) {
    match selector
    case Anything => true
    case NotPending => pending != Some("true")
    case OnlyPending => pending == Some("true")
  }

  /** The automated sync of an Application a generator makes. */
  function Sync(g: Generator, policy: SyncPolicy): Option<GitTree.Automated>
    reads policy, g.git
  {
    if g.git != null && g.git.template.Some? then g.git.template else policy.automated
  }

  predicate Splits(gens: seq<Generator>) {
    |gens| == 1 && gens[0].git != null
  }

  method WithPreparedApplications(gens: seq<Generator>, policy: SyncPolicy) returns (out: seq<Generator>)
    requires forall i :: 0 <= i < |gens| && gens[i].git != null ==> gens[i].git.template == None
    modifies policy
    ensures !Splits(gens) ==> out == gens && policy.automated == old(policy.automated)
    ensures Splits(gens) ==> policy.automated == None && |out| == 2
    ensures Splits(gens) ==> forall pending :: PicksOne(out, policy, pending, Intended(pending, old(policy.automated)))
  {
    if |gens| != 1 || gens[0].git == null { return gens; }
    var active := gens[0].(selector := NotPending);
    var copy := new GitFiles(gens[0].git.template);
    var pending := gens[0].(git := copy, selector := OnlyPending);
    if policy.automated.Some? {
      var activeGit := new GitFiles(gens[0].git.template);
      active := active.(git := activeGit);
      activeGit.template := policy.automated;
      policy.automated := None;
    }
    out := [active, pending];
    assert Matches(out[0].selector, None) && Matches(out[1].selector, Some("true"));
  }

  /** A pending Application does not sync by itself, any other as the policy says. */
  function Intended(pending: Option<string>, automated: Option<GitTree.Automated>): Option<GitTree.Automated> {
    if pending == Some("true") then None else automated
  }

  /** Exactly one generator accepts the value, and this is how its Applications sync. */
  ghost predicate PicksOne(gens: seq<Generator>, policy: SyncPolicy, pending: Option<string>,
                           automated: Option<GitTree.Automated>)
    reads policy, set i | 0 <= i < |gens| :: gens[i].git
  {
    exists i :: 0 <= i < |gens| && Matches(gens[i].selector, pending) && Sync(gens[i], policy) == automated
                && forall j :: 0 <= j < |gens| && Matches(gens[j].selector, pending) ==> j == i
  }
}
