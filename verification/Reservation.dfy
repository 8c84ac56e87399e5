/** The promotion-name reservation kept in an annotation of a Kargo Stage.

    Any number of server replicas reserve at the same time. The API server is a
    single Stage with a resource version; a write succeeds only against the
    version it was read at. Kargo moves status.lastPromotion on its own, other
    controllers touch the object, calls crash, and a write may land although its
    caller never hears so. `World.log` is a history of the sound reservations
    the Stage has held; it is bookkeeping for the statements, no call reads it. */
module Reservation {
  import opened Lex
  import opened Wrappers

  datatype Reserved = Reserved(predecessor: string, name: string)
  datatype Annotation = Missing | Garbled | Holds(reserved: Reserved)
  datatype LastPromotion = Unreadable | Named(name: string)
  datatype Stage = Stage(version: nat, last: LastPromotion, annotation: Annotation)

  datatype Failure = Busy | BadHistory | BadReservation | BadStatus | Conflict | StoreError
  datatype Phase =
    | Ready
    | Writing(seen: Stage, reserved: Reserved)
    | Returned(name: string)
    | Failed(why: Failure)

  /** One call: `predecessor` is the captured variable that survives retries,
      `observed` the last promotion name its latest attempt read. */
  datatype Call = Call(arg: string, predecessor: string, observed: string, attempts: nat, phase: Phase)

  datatype World = World(stage: Stage, calls: map<nat, Call>, log: seq<Reserved>)

  /** retry.DefaultRetry makes five attempts. */
  const MAX_ATTEMPTS := 5

  predicate Sound(r: Reserved) {
    Less(r.predecessor, r.name)
  }

  // ---- one attempt -------------------------------------------------------

  datatype Verdict = Share(name: string) | Refuse(why: Failure) | Write(reserved: Reserved)

  /** What an attempt decides once the predecessor has been raised to the
      observed last promotion. `made` is whatever name the generator yields. */
  function Decide(annotation: Annotation, predecessor: string, made: string): Verdict {
    match annotation
    case Garbled => Refuse(BadReservation)
    case Missing => Propose(predecessor, made)
    case Holds(r) =>
      if r.predecessor == predecessor && Less(predecessor, r.name) then Share(r.name)
      else if Less(predecessor, r.predecessor) then Refuse(Busy)
      else Propose(predecessor, made)
  }

  function Propose(predecessor: string, made: string): Verdict {
    if AtMost(made, predecessor) then Refuse(BadHistory)
    else Write(Reserved(predecessor, made))
  }

  function Attempt(stage: Stage, c: Call, made: string): Call {
    match stage.last
    case Unreadable => c.(phase := Failed(BadStatus))
    case Named(last) =>
      var predecessor := Max(c.predecessor, last);
      c.(predecessor := predecessor, observed := last,
         phase := match Decide(stage.annotation, predecessor, made)
           case Share(name) => Returned(name)
           case Refuse(why) => Failed(why)
           case Write(r) => Writing(stage, r))
  }

  // ---- interleaved steps -------------------------------------------------

  datatype Event =
    | Begin(id: nat, arg: string)
    | Read(id: nat, made: string)
    | Update(id: nat)
    | LostUpdate(id: nat)      // the write lands, the caller sees an error
    | Crash(id: nat)
    | Kargo(last: LastPromotion)
    | Touch                    // another controller writes an unrelated field

  predicate Enabled(w: World, e: Event) {
    match e
    case Begin(id, _) => id !in w.calls
    case Read(id, _) => id in w.calls && w.calls[id].phase.Ready?
    case Update(id) => id in w.calls && w.calls[id].phase.Writing?
    case LostUpdate(id) => id in w.calls && w.calls[id].phase.Writing?
      && w.calls[id].phase.seen.version == w.stage.version
    case Crash(id) => id in w.calls && (w.calls[id].phase.Ready? || w.calls[id].phase.Writing?)
    case Kargo(_) => true
    case Touch => true
  }

  function Stored(s: Stage, r: Reserved): Stage {
    s.(version := s.version + 1, annotation := Holds(r))
  }

  function Apply(w: World, e: Event): World
    requires Enabled(w, e)
  {
    match e
    case Begin(id, arg) => w.(calls := w.calls[id := Call(arg, arg, "", 0, Ready)])
    case Read(id, made) => w.(calls := w.calls[id := Attempt(w.stage, w.calls[id], made)])
    case Update(id) =>
      var c := w.calls[id];
      if c.phase.seen.version == w.stage.version then
        World(Stored(w.stage, c.phase.reserved),
              w.calls[id := c.(phase := Returned(c.phase.reserved.name))],
              w.log + [c.phase.reserved])
      else if c.attempts + 1 < MAX_ATTEMPTS then
        w.(calls := w.calls[id := c.(attempts := c.attempts + 1, phase := Ready)])
      else
        w.(calls := w.calls[id := c.(phase := Failed(Conflict))])
    case LostUpdate(id) =>
      var c := w.calls[id];
      World(Stored(w.stage, c.phase.reserved), w.calls[id := c.(phase := Failed(StoreError))],
            w.log + [c.phase.reserved])
    case Crash(id) => w.(calls := w.calls[id := w.calls[id].(phase := Failed(StoreError))])
    case Kargo(last) => w.(stage := w.stage.(version := w.stage.version + 1, last := last))
    case Touch => w.(stage := w.stage.(version := w.stage.version + 1))
  }

  /** The Stage may start with any annotation whatever. */
  ghost predicate Init(w: World) {
    && w.calls == map[]
    && w.log == if w.stage.annotation.Holds? && Sound(w.stage.annotation.reserved)
                then [w.stage.annotation.reserved] else []
  }

  ghost predicate Run(ws: seq<World>, es: seq<Event>) {
    && |ws| == |es| + 1
    && Init(ws[0])
    && forall i :: 0 <= i < |es| ==> Enabled(ws[i], es[i]) && ws[i + 1] == Apply(ws[i], es[i])
  }

  // ---- the invariant -----------------------------------------------------

  ghost predicate Ascending(log: seq<Reserved>) {
    && (forall i :: 0 <= i < |log| ==> Sound(log[i]))
    && (forall i, j :: 0 <= i < j < |log| ==> Less(log[i].predecessor, log[j].predecessor))
  }

  /** The log ends in what the Stage holds, if that is sound; an unsound or
      unreadable annotation can only be one nobody has replaced yet. */
  ghost predicate LogMatches(s: Stage, log: seq<Reserved>) {
    if s.annotation.Holds? && Sound(s.annotation.reserved)
    then |log| > 0 && log[|log| - 1] == s.annotation.reserved
    else log == []
  }

  ghost predicate CallOk(w: World, c: Call) {
    && AtMost(c.arg, c.predecessor)
    && match c.phase
       case Returned(name) => Reserved(c.predecessor, name) in w.log && AtMost(c.observed, c.predecessor)
       case Writing(seen, r) =>
         && r.predecessor == c.predecessor && Sound(r) && AtMost(c.observed, c.predecessor)
         && seen.version <= w.stage.version
         && (seen.version == w.stage.version ==> seen == w.stage)
         && Replaceable(seen.annotation, r.predecessor)
       case _ => true
  }

  /** What a reservation for this predecessor may overwrite. */
  predicate Replaceable(a: Annotation, predecessor: string) {
    match a
    case Missing => true
    case Garbled => false
    case Holds(r) => Less(r.predecessor, predecessor) || (r.predecessor == predecessor && !Sound(r))
  }

  ghost predicate Inv(w: World) {
    && Ascending(w.log)
    && LogMatches(w.stage, w.log)
    && forall id :: id in w.calls ==> CallOk(w, w.calls[id])
  }

  lemma AttemptSound(w: World, c: Call, made: string)
    requires Inv(w) && AtMost(c.arg, c.predecessor)
    ensures CallOk(w, Attempt(w.stage, c, made))
  {
    StrictTotalOrder();
  }

  lemma AppendAscending(s: Stage, log: seq<Reserved>, r: Reserved)
    requires Ascending(log) && LogMatches(s, log) && Sound(r) && Replaceable(s.annotation, r.predecessor)
    ensures Ascending(log + [r]) && LogMatches(Stored(s, r), log + [r])
  {
    StrictTotalOrder();
  }

  lemma StepKeepsInv(w: World, e: Event)
    requires Inv(w) && Enabled(w, e)
    ensures Inv(Apply(w, e))
  {
    var w' := Apply(w, e);
    match e
    case Read(id, made) => AttemptSound(w, w.calls[id], made);
    case Update(id) =>
      if w.calls[id].phase.seen.version == w.stage.version {
        AppendAscending(w.stage, w.log, w.calls[id].phase.reserved);
        assert w'.log[|w.log|] == w.calls[id].phase.reserved;
      }
    case LostUpdate(id) => AppendAscending(w.stage, w.log, w.calls[id].phase.reserved);
    case _ =>
  }

  lemma {:induction false} RunKeepsInv(ws: seq<World>, es: seq<Event>, n: nat)
    requires Run(ws, es) && n < |ws|
    ensures Inv(ws[n])
  {
    if n == 0 {
    } else {
      RunKeepsInv(ws, es, n - 1);
      StepKeepsInv(ws[n - 1], es[n - 1]);
    }
  }

  lemma {:induction false} LogOnlyGrows(ws: seq<World>, es: seq<Event>, i: nat, j: nat)
    requires Run(ws, es) && i <= j < |ws|
    ensures ws[i].log <= ws[j].log
  {
    if i < j { LogOnlyGrows(ws, es, i, j - 1); }
  }

  lemma LogIsAFunction(log: seq<Reserved>, r: Reserved, r': Reserved)
    requires Ascending(log) && r in log && r' in log && r.predecessor == r'.predecessor
    ensures r == r'
  {
    var i :| 0 <= i < |log| && log[i] == r;
    var j :| 0 <= j < |log| && log[j] == r';
    Irreflexive(r.predecessor);
  }

  // ---- main results ------------------------------------------------------

  /** A step that replaces one stored reservation by another stores a sound one
      and strictly raises the predecessor. The one exception is a reservation
      whose own name does not sort after its predecessor, which no call of this
      protocol ever writes: it is replaced for the same predecessor. */
  lemma OverwriteRaisesPredecessor(ws: seq<World>, es: seq<Event>, i: nat)
    requires Run(ws, es) && i < |es|
    requires ws[i + 1].stage.annotation != ws[i].stage.annotation
    ensures ws[i + 1].stage.annotation.Holds? && Sound(ws[i + 1].stage.annotation.reserved)
    ensures !ws[i].stage.annotation.Garbled?
    ensures ws[i].stage.annotation.Holds? ==>
              var (prev, next) := (ws[i].stage.annotation.reserved, ws[i + 1].stage.annotation.reserved);
              && (Less(prev.predecessor, next.predecessor) || prev.predecessor == next.predecessor)
              && (Less(prev.predecessor, next.predecessor) <==> (Sound(prev) || prev.predecessor != next.predecessor))
  {
    RunKeepsInv(ws, es, i);
    StrictTotalOrder();
  }

  /** At most one sound name is ever stored per predecessor, and the stored
      predecessor never goes back. */
  lemma OneNamePerPredecessor(ws: seq<World>, es: seq<Event>, i: nat, j: nat)
    requires Run(ws, es) && i <= j < |ws|
    requires ws[i].stage.annotation.Holds? && Sound(ws[i].stage.annotation.reserved)
    ensures ws[j].stage.annotation.Holds? && Sound(ws[j].stage.annotation.reserved)
    ensures AtMost(ws[i].stage.annotation.reserved.predecessor, ws[j].stage.annotation.reserved.predecessor)
    ensures ws[i].stage.annotation.reserved.predecessor == ws[j].stage.annotation.reserved.predecessor ==>
              ws[i].stage.annotation == ws[j].stage.annotation
  {
    RunKeepsInv(ws, es, i);
    RunKeepsInv(ws, es, j);
    LogOnlyGrows(ws, es, i, j);
    var r, r' := ws[i].log[|ws[i].log| - 1], ws[j].log[|ws[j].log| - 1];
    assert r == ws[j].log[|ws[i].log| - 1];
    if r.predecessor == r'.predecessor { LogIsAFunction(ws[j].log, r, r'); }
  }

  /** Calls that return at any two moments of a run with the same effective
      predecessor return the same name, however they interleave. */
  lemma CallsAgree(ws: seq<World>, es: seq<Event>, i: nat, a: nat, j: nat, b: nat)
    requires Run(ws, es) && i <= j < |ws|
    requires a in ws[i].calls && ws[i].calls[a].phase.Returned?
    requires b in ws[j].calls && ws[j].calls[b].phase.Returned?
    requires ws[i].calls[a].predecessor == ws[j].calls[b].predecessor
    ensures ws[i].calls[a].phase.name == ws[j].calls[b].phase.name
  {
    RunKeepsInv(ws, es, i);
    RunKeepsInv(ws, es, j);
    LogOnlyGrows(ws, es, i, j);
    var ca, cb := ws[i].calls[a], ws[j].calls[b];
    assert CallOk(ws[i], ca) && CallOk(ws[j], cb);
    LogIsAFunction(ws[j].log, Reserved(ca.predecessor, ca.phase.name), Reserved(cb.predecessor, cb.phase.name));
  }

  /** A returned name sorts after the argument and after the last promotion the
      call observed, so Kargo will not take it for an older promotion. */
  lemma ReturnedNameIsNewest(ws: seq<World>, es: seq<Event>, i: nat, a: nat)
    requires Run(ws, es) && i < |ws|
    requires a in ws[i].calls && ws[i].calls[a].phase.Returned?
    ensures Less(ws[i].calls[a].arg, ws[i].calls[a].phase.name)
    ensures Less(ws[i].calls[a].observed, ws[i].calls[a].phase.name)
  {
    RunKeepsInv(ws, es, i);
    var c := ws[i].calls[a];
    assert CallOk(ws[i], c);
    assert Sound(Reserved(c.predecessor, c.phase.name));
    StrictTotalOrder();
  }

  /** Once a name is reserved for p, whoever comes later with effective
      predecessor p - after any crash, restart or lost reply - is given that
      name or told to wait. Nobody proposes a second name for p. */
  lemma ReservationSurvives(ws: seq<World>, es: seq<Event>, i: nat, r: Reserved, j: nat, made: string)
    requires Run(ws, es) && i <= j < |ws| && r in ws[i].log
    ensures Decide(ws[j].stage.annotation, r.predecessor, made) in {Share(r.name), Refuse(Busy)}
    ensures Decide(ws[j].stage.annotation, r.predecessor, made) == Share(r.name) <==> ws[j].stage.annotation == Holds(r)
  {
    RunKeepsInv(ws, es, j);
    LogOnlyGrows(ws, es, i, j);
    var log := ws[j].log;
    var k :| 0 <= k < |log| && log[k] == r;
    var last := log[|log| - 1];
    assert ws[j].stage.annotation == Holds(last);
    StrictTotalOrder();
  }

  // ---- what a call is told -----------------------------------------------

  /** The call's attempt at step k reads the status and finds a reservation made for
      a later predecessor than any the call knows of. */
  ghost predicate Overtaken(ws: seq<World>, es: seq<Event>, k: nat, id: nat)
    requires Run(ws, es)
  {
    && k < |es| && es[k].Read? && es[k].id == id
    && ws[k].stage.last.Named? && ws[k].stage.annotation.Holds?
    && var held := ws[k].stage.annotation.reserved.predecessor;
       Less(ws[k].calls[id].predecessor, held) && Less(ws[k].stage.last.name, held)
  }

  ghost predicate OvertakenBefore(ws: seq<World>, es: seq<Event>, n: nat, id: nat)
    requires Run(ws, es)
  {
    exists k: nat | k < n :: Overtaken(ws, es, k, id)
  }

  ghost predicate ToldBusy(w: World, id: nat) {
    id in w.calls && w.calls[id].phase == Failed(Busy)
  }

  /** A call is told to wait exactly when it was overtaken: whoever knows the newest
      promotion of the Stage is never refused. */
  lemma {:induction false} BusyExactly(ws: seq<World>, es: seq<Event>, n: nat, id: nat)
    requires Run(ws, es) && n < |ws|
    ensures ToldBusy(ws[n], id) <==> OvertakenBefore(ws, es, n, id)
  {
    if n == 0 {
    } else {
      BusyExactly(ws, es, n - 1, id);
      BusyStep(ws, es, n - 1, id);
      if OvertakenBefore(ws, es, n - 1, id) {
        var k: nat :| k < n - 1 && Overtaken(ws, es, k, id);
      }
      if Overtaken(ws, es, n - 1, id) { assert OvertakenBefore(ws, es, n, id); }
    }
  }

  lemma BusyStep(ws: seq<World>, es: seq<Event>, k: nat, id: nat)
    requires Run(ws, es) && k < |es|
    ensures ToldBusy(ws[k + 1], id) <==> ToldBusy(ws[k], id) || Overtaken(ws, es, k, id)
  {
    StrictTotalOrder();
  }

  /** How many of a call's writes found the Stage changed since it was read. */
  ghost function StaleWrites(ws: seq<World>, es: seq<Event>, n: nat, id: nat): nat
    requires Run(ws, es) && n <= |es|
  {
    if n == 0 then 0
    else
      var w := ws[n - 1];
      StaleWrites(ws, es, n - 1, id) +
      if es[n - 1] == Update(id) && w.calls[id].phase.seen.version != w.stage.version then 1 else 0
  }

  /** A call gives up on conflicts at its fifth stale write, neither before nor after. */
  lemma {:induction false} ConflictExactly(ws: seq<World>, es: seq<Event>, n: nat, id: nat)
    requires Run(ws, es) && n < |ws|
    ensures if id !in ws[n].calls then StaleWrites(ws, es, n, id) == 0
            else if ws[n].calls[id].phase == Failed(Conflict) then StaleWrites(ws, es, n, id) == 5
            else StaleWrites(ws, es, n, id) == ws[n].calls[id].attempts < 5
  {
    if n == 0 {
    } else {
      ConflictExactly(ws, es, n - 1, id);
    }
  }

  /** The steps of one call, with others' steps in between: from its attempt at i on
      nothing happens to it until its write at j, which finds the Stage as it was. */
  ghost predicate Alone(ws: seq<World>, es: seq<Event>, i: nat, j: nat, id: nat, made: string)
    requires Run(ws, es)
  {
    && i < j < |es| && es[i] == Read(id, made) && es[j] == Update(id)
    && ws[j].stage.version == ws[i].stage.version
    && forall k :: i < k < j ==> !Concerns(es[k], id)
  }

  predicate Concerns(e: Event, id: nat) {
    match e
    case Kargo(_) => false
    case Touch => false
    case _ => e.id == id
  }

  lemma {:induction false} Unconcerned(ws: seq<World>, es: seq<Event>, i: nat, j: nat, id: nat)
    requires Run(ws, es) && i <= j < |ws| && id in ws[i].calls
    requires forall k :: i <= k < j ==> !Concerns(es[k], id)
    ensures id in ws[j].calls && ws[j].calls[id] == ws[i].calls[id]
  {
    if i == j {
    } else {
      Unconcerned(ws, es, i, j - 1, id);
      assert !Concerns(es[j - 1], id);
    }
  }

  /** A new promotion gets its name. Let p be the larger of the call's predecessor and
      the last promotion. When the Stage holds nothing, or a name for an earlier
      predecessor, or one for p that is not newer than p, a call whose own name is newer
      goes on to write it, and if the write comes in time it returns that name, and the
      Stage holds it for p. */
  lemma NewPromotionGetsItsName(ws: seq<World>, es: seq<Event>, i: nat, id: nat, made: string, p: string)
    requires Run(ws, es) && i < |es| && es[i] == Read(id, made) && ws[i].stage.last.Named?
    requires p in {ws[i].calls[id].predecessor, ws[i].stage.last.name}
    requires AtMost(ws[i].calls[id].predecessor, p) && AtMost(ws[i].stage.last.name, p)
    requires !ws[i].stage.annotation.Garbled? && Less(p, made)
    requires ws[i].stage.annotation.Holds? ==>
               var r := ws[i].stage.annotation.reserved;
               Less(r.predecessor, p) || (r.predecessor == p && !Less(p, r.name))
    ensures id in ws[i + 1].calls && ws[i + 1].calls[id].phase == Writing(ws[i].stage, Reserved(p, made))
    ensures forall j :: Alone(ws, es, i, j, id, made) ==>
              && id in ws[j + 1].calls && ws[j + 1].calls[id].phase == Returned(made)
              && ws[j + 1].stage.annotation == Holds(Reserved(p, made))
  {
    StrictTotalOrder();
    forall j | Alone(ws, es, i, j, id, made)
      ensures id in ws[j + 1].calls && ws[j + 1].calls[id].phase == Returned(made)
      ensures ws[j + 1].stage.annotation == Holds(Reserved(p, made))
    {
      Unconcerned(ws, es, i + 1, j, id);
    }
  }

  // ---- the effective predecessor ----------------------------------------

  /** Kargo only ever moves lastPromotion forward, and never makes it unreadable. */
  ghost predicate KargoAdvances(ws: seq<World>, es: seq<Event>)
    requires Run(ws, es)
  {
    && ws[0].stage.last.Named?
    && forall i :: 0 <= i < |es| && es[i].Kargo? ==>
         es[i].last.Named? && ws[i].stage.last.Named? && AtMost(ws[i].stage.last.name, es[i].last.name)
  }

  ghost predicate Tracks(s: Stage, c: Call) {
    && s.last.Named?
    && AtMost(c.observed, s.last.name)
    && c.predecessor == Max(c.arg, c.observed)
  }

  /** Across all its retries a call's effective predecessor is the larger of its
      argument and the last promotion its final attempt observed. */
  lemma {:induction false} EffectivePredecessor(ws: seq<World>, es: seq<Event>, n: nat)
    requires Run(ws, es) && KargoAdvances(ws, es) && n < |ws|
    ensures ws[n].stage.last.Named?
    ensures forall id :: id in ws[n].calls ==> Tracks(ws[n].stage, ws[n].calls[id])
  {
    if n == 0 {
    } else {
      EffectivePredecessor(ws, es, n - 1);
      TracksStep(ws[n - 1], es[n - 1]);
    }
  }

  lemma TracksStep(w: World, e: Event)
    requires Enabled(w, e) && w.stage.last.Named?
    requires e.Kargo? ==> e.last.Named? && AtMost(w.stage.last.name, e.last.name)
    requires forall id :: id in w.calls ==> Tracks(w.stage, w.calls[id])
    ensures Apply(w, e).stage.last.Named?
    ensures forall id :: id in Apply(w, e).calls ==> Tracks(Apply(w, e).stage, Apply(w, e).calls[id])
  {
    StrictTotalOrder();
    var w' := Apply(w, e);
    forall id | id in w'.calls ensures Tracks(w'.stage, w'.calls[id]) {
      if id in w.calls { assert Tracks(w.stage, w.calls[id]); }
    }
  }

  // ---- the call itself ---------------------------------------------------

  /** What others may do to the Stage between two accesses of one call. A
      replica's write is only ever one that replaces a smaller predecessor, which
      `UpdatesAreForeign` shows of every update step of the protocol. */
  datatype Foreign = KargoWrites(last: LastPromotion) | TouchedElsewhere | OtherReplica(r: Reserved)

  function Suffer(s: Stage, f: Foreign): Stage {
    match f
    case KargoWrites(last) => s.(version := s.version + 1, last := last)
    case TouchedElsewhere => s.(version := s.version + 1)
    case OtherReplica(r) => if Sound(r) && Replaceable(s.annotation, r.predecessor) then Stored(s, r) else s
  }

  lemma UpdatesAreForeign(ws: seq<World>, es: seq<Event>, i: nat)
    requires Run(ws, es) && i < |es| && ws[i + 1].log != ws[i].log
    ensures ws[i + 1].stage == Suffer(ws[i].stage, OtherReplica(ws[i + 1].log[|ws[i].log|]))
  {
    RunKeepsInv(ws, es, i);
    var id := es[i].id;
    assert CallOk(ws[i], ws[i].calls[id]);
  }

  datatype Result = Success(name: string) | Failure(why: Failure)

  /** What an answer says of the Stage at the moment it is given. */
  predicate AnswerFits(s: Stage, effective: string, result: Result) {
    match result
    case Success(name) => s.annotation == Holds(Reserved(effective, name))
    case Failure(Busy) => s.annotation.Holds? && Less(effective, s.annotation.reserved.predecessor)
    case Failure(BadReservation) => s.annotation.Garbled?
    case Failure(BadStatus) => s.last.Unreadable?
    case Failure(_) => true
  }

  /** The answer to a call nobody disturbs, from the Stage it finds to the Stage it
      leaves: p is the larger of the argument and the last promotion. */
  predicate AnswersAlone(found: Stage, arg: string, made: string, p: string, left: Stage, result: Result) {
    && (result.Failure? ==> left == found)
    && (result == Result.Failure(BadStatus) <==> found.last.Unreadable?)
    && (found.last.Named? ==>
          && p in {arg, found.last.name} && AtMost(arg, p) && AtMost(found.last.name, p)
          && match found.annotation
             case Garbled => result == Result.Failure(BadReservation)
             case Missing => ProposedAlone(found, made, p, left, result)
             case Holds(r) =>
               && (result == Result.Failure(Busy) <==> Less(p, r.predecessor))
               && (r.predecessor == p && Less(p, r.name) ==> result == Success(r.name) && left == found)
               && (Less(r.predecessor, p) || (r.predecessor == p && !Less(p, r.name)) ==>
                     ProposedAlone(found, made, p, left, result)))
  }

  predicate ProposedAlone(found: Stage, made: string, p: string, left: Stage, result: Result) {
    if Less(p, made) then
      && result == Success(made)
      && left == found.(version := found.version + 1, annotation := Holds(Reserved(p, made)))
    else
      result == Result.Failure(BadHistory)
  }

  /** The steps of a run and the method take the same answer: whatever an attempt of a
      run comes to is what a call that nobody disturbs is answered. */
  lemma AttemptIsAnswered(s: Stage, c: Call, made: string)
    ensures var c' := Attempt(s, c, made);
            match c'.phase
            case Returned(name) => AnswersAlone(s, c.predecessor, made, c'.predecessor, s, Success(name))
            case Failed(why) => AnswersAlone(s, c.predecessor, made, c'.predecessor, s, Result.Failure(why))
            case Writing(seen, r) =>
              seen == s && AnswersAlone(s, c.predecessor, made, c'.predecessor, Stored(s, r), Success(r.name))
            case Ready => false
  {
    StrictTotalOrder();
  }

  lemma AtMostTransitive(a: string, b: string, c: string)
    requires AtMost(a, b) && AtMost(b, c)
    ensures AtMost(a, c)
  {
    if a != b && b != c { Transitive(a, b, c); }
  }

  class StageObject {
    var stage: Stage
    ghost var log: seq<Reserved>

    ghost predicate Valid()
      reads this
    {
      Ascending(log) && LogMatches(stage, log)
    }

    constructor (stage: Stage)
      ensures Valid() && this.stage == stage
    {
      this.stage := stage;
      log := if stage.annotation.Holds? && Sound(stage.annotation.reserved) then [stage.annotation.reserved] else [];
    }

    method Interfere(others: seq<Foreign>)
      requires Valid()
      modifies this
      ensures Valid() && old(log) <= log
      ensures stage.version >= old(stage.version)
      ensures stage.version == old(stage.version) ==> stage == old(stage) && log == old(log)
      ensures others == [] ==> stage == old(stage)
    {
      for i := 0 to |others|
        invariant Valid() && old(log) <= log
        invariant stage.version >= old(stage.version)
        invariant stage.version == old(stage.version) ==> stage == old(stage) && log == old(log)
        invariant i == 0 ==> stage == old(stage)
      {
        var before := stage;
        stage := Suffer(stage, others[i]);
        if stage.annotation != before.annotation {
          AppendAscending(before, log, stage.annotation.reserved);
          log := log + [stage.annotation.reserved];
        }
      }
    }

    /** The API server's update: it succeeds only at the version that was read. */
    method Update(seen: Stage, r: Reserved) returns (ok: bool)
      requires Valid() && Sound(r) && Replaceable(seen.annotation, r.predecessor)
      requires seen.version == stage.version ==> seen == stage
      modifies this
      ensures Valid() && ok == (seen.version == old(stage.version))
      ensures if ok then stage == Stored(old(stage), r) && log == old(log) + [r]
              else stage == old(stage) && log == old(log)
    {
      ok := seen.version == stage.version;
      if ok {
        AppendAscending(stage, log, r);
        stage := Stored(stage, r);
        log := log + [r];
      }
    }

    /** One attempt, the function the retry repeats: it raises the captured predecessor
        to the last promotion it reads. A conflicting write is the only way to no answer. */
    method TryReserve(predecessor: string, name: string, others: seq<Foreign>)
      returns (answer: Option<Result>, raised: string)
      requires Valid()
      modifies this
      ensures Valid() && old(log) <= log
      ensures AtMost(predecessor, raised)
      ensures answer == None ==> others != []
      ensures answer.Some? ==> answer.value != Result.Failure(Conflict) && AnswerFits(stage, raised, answer.value)
      ensures answer == Some(Result.Failure(BadHistory)) ==> AtMost(name, raised)
      ensures answer.Some? && answer.value.Success? ==>
                Reserved(raised, answer.value.name) in log && Less(raised, answer.value.name)
      ensures others == [] ==> AnswersAlone(old(stage), predecessor, name, raised, stage, answer.value)
    {
      StrictTotalOrder();
      var seen := stage;
      raised := predecessor;
      if seen.last.Unreadable? { return Some(Result.Failure(BadStatus)), raised; }
      if Less(raised, seen.last.name) { raised := seen.last.name; }
      if seen.annotation.Garbled? { return Some(Result.Failure(BadReservation)), raised; }
      if seen.annotation.Holds? {
        var reservation := seen.annotation.reserved;
        if reservation.predecessor == raised && Less(raised, reservation.name) {
          return Some(Success(reservation.name)), raised;
        }
        if Less(raised, reservation.predecessor) { return Some(Result.Failure(Busy)), raised; }
      }
      if AtMost(name, raised) { return Some(Result.Failure(BadHistory)), raised; }
      var r := Reserved(raised, name);
      Interfere(others);
      var ok := Update(seen, r);
      if !ok { return None, raised; }
      assert log[|log| - 1] == r;
      answer := Some(Success(name));
    }

    /** reservePromotionName against any interference. On success the pair of
        effective predecessor and name is in the Stage's history, which
        `LogIsAFunction` makes a function of the predecessor. A call whose first
        attempt nobody disturbs is answered from the Stage it finds. */
    method ReservePromotionName(arg: string, made: nat -> string, others: nat -> seq<Foreign>)
      returns (result: Result, ghost effective: string)
      requires Valid()
      modifies this
      ensures Valid() && old(log) <= log
      ensures AtMost(arg, effective)
      ensures result.Success? ==> Reserved(effective, result.name) in log && Less(effective, result.name)
      ensures AnswerFits(stage, effective, result)
      ensures result == Result.Failure(BadHistory) ==> exists i: nat | i < MAX_ATTEMPTS :: AtMost(made(i), effective)
      ensures result == Result.Failure(Conflict) ==> forall i: nat | i < MAX_ATTEMPTS :: others(i) != []
      ensures others(0) == [] ==> AnswersAlone(old(stage), arg, made(0), effective, stage, result)
    {
      var predecessor := arg;
      for attempt := 0 to MAX_ATTEMPTS
        invariant Valid() && old(log) <= log && AtMost(arg, predecessor)
        invariant attempt == 0 ==> stage == old(stage) && predecessor == arg
        invariant forall i: nat | i < attempt :: others(i) != []
        invariant attempt > 0 ==> others(0) != []
      {
        var answer, raised := TryReserve(predecessor, made(attempt), others(attempt));
        AtMostTransitive(arg, predecessor, raised);
        predecessor := raised;
        if answer.Some? { return answer.value, predecessor; }
      }
      return Result.Failure(Conflict), predecessor;
    }
  }
}
