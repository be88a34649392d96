/** The hotspot protocol of Away Mode: start, stop and health tasks race for one
    operations lock, and every request bumps a generation that makes older tasks
    obsolete. A task is modelled by the stretch of code it has reached; other
    tasks and requests run between any two stages. */
module AccessPoint {
  import opened Options

  datatype Phase = Off | Starting | On
  datatype Kind = StartTask | StopTask | HealthTask

  /** Waiting for the lock; holding it; past the generation check; the radio call
      has returned; the currency has been read again; cleanup done, about to report. */
  datatype Stage = Waiting | Holding | Running | Launched(ok: bool) | Judged(ok: bool, current: bool) | Reporting(ok: bool)

  datatype Task = Task(kind: Kind, generation: nat, stage: Stage)

  /** `radio` is whether the hotspot is really up; `stray` that it may be up
      although nothing asked for it: its last stop failed, or a boot left it alone. */
  datatype Ap = Ap(phase: Phase, generation: nat, retry: bool, tasks: map<nat, Task>, next: nat, lock: Option<nat>,
                   radio: bool, stray: bool)

  // ---- Requests and reports ------------------------------------------------

  function Spawn(ap: Ap, kind: Kind): Ap {
    ap.(tasks := ap.tasks[ap.next := Task(kind, ap.generation, Waiting)], next := ap.next + 1)
  }

  function RequestStart(ap: Ap): Ap {
    Spawn(ap.(generation := ap.generation + 1, phase := Starting, retry := false), StartTask)
  }

  function RequestStop(ap: Ap): Ap {
    Spawn(ap.(generation := ap.generation + 1, phase := Off, retry := false), StopTask)
  }

  /** `finish_ap_start`: only the current generation's report has an effect. */
  function Report(ap: Ap, generation: nat, ok: bool): Ap {
    if ap.generation != generation then ap
    else if ok then ap.(phase := On)
    else ap.(phase := Off, retry := true)
  }

  // ---- Task steps ------------------------------------------------------------

  datatype Move =
    | BeginHealth
    | Acquire(t: nat)
    | Check(t: nat)
    | Launch(t: nat, ok: bool, up: bool)
    | Judge(t: nat)
    | CleanUp(t: nat, stopped: bool)
    | TakeDown(t: nat, stopped: bool)
    | Probe(t: nat, healthy: bool)
    | Finish(t: nat)

  predicate At(ap: Ap, t: nat, kind: Kind, stage: Stage) {
    t in ap.tasks && ap.tasks[t].kind == kind && ap.tasks[t].stage == stage
  }

  predicate CanMove(ap: Ap, m: Move) {
    match m
    case BeginHealth => ap.phase == On
    case Acquire(t) => t in ap.tasks && ap.tasks[t].stage == Waiting && ap.lock == None
    case Check(t) => t in ap.tasks && ap.tasks[t].stage == Holding
    case Launch(t, _, _) => At(ap, t, StartTask, Running)
    case Judge(t) => t in ap.tasks && ap.tasks[t].stage.Launched?
    case CleanUp(t, _) => t in ap.tasks && ap.tasks[t].stage.Judged?
    case TakeDown(t, _) => At(ap, t, StopTask, Running)
    case Probe(t, _) => At(ap, t, HealthTask, Running)
    case Finish(t) => t in ap.tasks && ap.tasks[t].stage.Reporting?
  }

  function SetStage(ap: Ap, t: nat, stage: Stage): Ap
    requires t in ap.tasks
  {
    ap.(tasks := ap.tasks[t := ap.tasks[t].(stage := stage)])
  }

  function Done(ap: Ap, t: nat): Ap {
    ap.(tasks := ap.tasks - {t}, lock := None)
  }

  function StopRadio(ap: Ap, stopped: bool): Ap {
    if stopped then ap.(radio := false, stray := false) else ap.(stray := true)
  }

  function AfterMove(ap: Ap, m: Move): Ap
    requires CanMove(ap, m)
  {
    match m
    case BeginHealth => Spawn(ap, HealthTask)
    case Acquire(t) => SetStage(ap, t, Holding).(lock := Some(t))
    case Check(t) => if ap.tasks[t].generation != ap.generation then Done(ap, t) else SetStage(ap, t, Running)
    case Launch(t, ok, up) => SetStage(ap, t, Launched(ok)).(radio := ok || up, stray := ap.stray && !ok)
    case Judge(t) => SetStage(ap, t, Judged(ap.tasks[t].stage.ok, ap.tasks[t].generation == ap.generation))
    case CleanUp(t, stopped) =>
      var Judged(ok, current) := ap.tasks[t].stage;
      if ok && current then SetStage(ap, t, Reporting(true))
      else StopRadio(SetStage(ap, t, Reporting(ok && stopped)), stopped)
    case TakeDown(t, stopped) => Done(StopRadio(ap, stopped), t)
    case Probe(t, healthy) => if healthy then Done(ap, t) else SetStage(ap, t, Judged(false, true))
    case Finish(t) => Done(Report(ap, ap.tasks[t].generation, ap.tasks[t].stage.ok), t)
  }

  // ---- Invariant -------------------------------------------------------------

  predicate Current(ap: Ap, t: nat) {
    t in ap.tasks && ap.tasks[t].generation == ap.generation
  }

  /** The start or stop task of the current generation. */
  predicate Owner(ap: Ap, t: nat) {
    Current(ap, t) && !ap.tasks[t].kind.HealthTask?
  }

  /** A health task that found a fault and has not reported it yet. */
  predicate Alarmed(ap: Ap, t: nat) {
    Current(ap, t) && ap.tasks[t].kind.HealthTask? && (ap.tasks[t].stage.Judged? || ap.tasks[t].stage.Reporting?)
  }

  predicate PastCheck(stage: Stage) {
    !stage.Waiting? && !stage.Holding?
  }

  /** Exactly the lock holder is past waiting, and ids and generations are in range. */
  ghost predicate LockOk(ap: Ap) {
    && (ap.lock.Some? ==> ap.lock.value in ap.tasks)
    && (forall t :: t in ap.tasks ==>
          && (ap.tasks[t].stage.Waiting? <==> ap.lock != Some(t))
          && t < ap.next && ap.tasks[t].generation <= ap.generation)
  }

  /** Which stages a task of each kind passes through, and what it knows there. */
  predicate StageOk(ap: Ap, t: nat)
    requires t in ap.tasks
  {
    var Task(kind, generation, stage) := ap.tasks[t];
    && (stage.Launched? ==> kind.StartTask? && (stage.ok ==> ap.radio))
    && (stage.Judged? ==> && !kind.StopTask?
                          && (kind.HealthTask? ==> stage == Judged(false, true))
                          && (stage.ok ==> ap.radio) && (!stage.current ==> generation < ap.generation))
    && (stage.Reporting? ==> && !kind.StopTask? && (kind.HealthTask? ==> !stage.ok)
                             && (stage.ok ==> ap.radio || generation < ap.generation)
                             && (!stage.ok && !ap.stray ==> !ap.radio))
  }

  /** The phase mirrors the current request: starting while its start task is
      pending, off while its stop task is; a health task of the current generation
      excludes both; a retry is marked only when nothing is requested. */
  ghost predicate PhaseOk(ap: Ap) {
    && (ap.phase.Starting? ==> exists t :: Owner(ap, t) && ap.tasks[t].kind.StartTask?)
    && (forall t :: Owner(ap, t) ==> ap.phase == if ap.tasks[t].kind.StartTask? then Starting else Off)
    && (forall t, u :: Owner(ap, t) && Owner(ap, u) ==> t == u)
    && (forall t, u :: Current(ap, t) && ap.tasks[t].kind.HealthTask? && Owner(ap, u) ==> false)
    && (ap.retry ==> ap.phase.Off? && forall t :: !Owner(ap, t))
  }

  /** An obsolete task past its check still has the lock: the current request waits for it. */
  ghost predicate SupersededOk(ap: Ap) {
    ap.lock.Some? && ap.lock.value in ap.tasks && PastCheck(ap.tasks[ap.lock.value].stage)
    && ap.tasks[ap.lock.value].generation < ap.generation ==>
      exists u :: Owner(ap, u) && ap.tasks[u].stage.Waiting?
  }

  /** With no current task at work the radio is up exactly when the phase is on. */
  ghost predicate RadioOk(ap: Ap) {
    !ap.stray && (forall t :: t in ap.tasks ==> !Owner(ap, t) && !Alarmed(ap, t)) ==> (ap.radio <==> ap.phase == On)
  }

  ghost predicate Inv(ap: Ap) {
    LockOk(ap) && (forall t :: t in ap.tasks ==> StageOk(ap, t)) && PhaseOk(ap) && SupersededOk(ap) && RadioOk(ap)
  }

  lemma RequestKeeps(ap: Ap)
    requires Inv(ap)
    ensures Inv(RequestStart(ap)) && Inv(RequestStop(ap))
  {
    var a, b := RequestStart(ap), RequestStop(ap);
    assert Owner(a, ap.next) && Owner(b, ap.next);
    forall t | t in ap.tasks ensures StageOk(a, t) && StageOk(b, t) {
      assert StageOk(ap, t);
    }
  }

  /** A move that only changes how far task `t` has got. */
  ghost predicate Restaged(ap: Ap, now: Ap, t: nat) {
    && t in ap.tasks && now.tasks.Keys == ap.tasks.Keys && now.generation == ap.generation && now.phase == ap.phase
    && now.next == ap.next && now.retry == ap.retry
    && (forall u :: u in ap.tasks ==>
          && now.tasks[u].kind == ap.tasks[u].kind && now.tasks[u].generation == ap.tasks[u].generation
          && (u != t ==> now.tasks[u] == ap.tasks[u]))
  }

  lemma RestagedPhase(ap: Ap, now: Ap, t: nat)
    requires PhaseOk(ap) && Restaged(ap, now, t)
    ensures PhaseOk(now)
    ensures forall u :: (Owner(now, u) <==> Owner(ap, u)) && (Current(now, u) <==> Current(ap, u))
    ensures forall u :: u != t ==> (Alarmed(now, u) <==> Alarmed(ap, u))
  {
    if ap.phase.Starting? {
      var u :| Owner(ap, u) && ap.tasks[u].kind.StartTask?;
      assert Owner(now, u);
    }
    forall u ensures (Owner(now, u) <==> Owner(ap, u)) && (Current(now, u) <==> Current(ap, u)) {
    }
  }

  /** The lock holder gets further: everyone else keeps waiting. */
  lemma RestagedKeeps(ap: Ap, now: Ap, t: nat)
    requires Inv(ap) && Restaged(ap, now, t) && ap.lock == now.lock == Some(t)
    requires now.tasks[t].stage != Waiting && StageOk(now, t) && RadioOk(now)
    requires PastCheck(ap.tasks[t].stage) || Current(ap, t)
    ensures Inv(now)
  {
    hide RadioOk;
    RestagedPhase(ap, now, t);
    forall u | u in now.tasks ensures u != t ==> now.tasks[u].stage.Waiting? && StageOk(now, u) {
      assert u in ap.tasks;
    }
    assert SupersededOk(now) by {
      if now.tasks[t].generation < now.generation {
        var u :| Owner(ap, u) && ap.tasks[u].stage.Waiting?;
        assert Owner(now, u) && u != t;
      }
    }
  }

  /** The end of task `t`, with the phase and the radio left as given. */
  ghost predicate Ended(ap: Ap, now: Ap, t: nat) {
    t in ap.tasks && now.tasks == ap.tasks - {t} && now.generation == ap.generation && now.next == ap.next && now.lock == None
  }

  lemma EndedTasks(ap: Ap, now: Ap, t: nat)
    requires Ended(ap, now, t)
    ensures forall u :: (Owner(now, u) <==> Owner(ap, u) && u != t) && (Current(now, u) <==> Current(ap, u) && u != t)
    ensures forall u :: Alarmed(now, u) <==> Alarmed(ap, u) && u != t
  {
  }

  /** The lock holder ends: nothing is left past waiting. */
  lemma EndedKeeps(ap: Ap, now: Ap, t: nat)
    requires Inv(ap) && Ended(ap, now, t) && ap.lock == Some(t)
    requires PhaseOk(now) && RadioOk(now)
    ensures Inv(now)
  {
  }

  lemma BeginHealthKeeps(ap: Ap, m: Move)
    requires Inv(ap) && CanMove(ap, m) && m.BeginHealth?
    ensures Inv(AfterMove(ap, m))
  {
  }

  lemma AcquireKeeps(ap: Ap, m: Move)
    requires Inv(ap) && CanMove(ap, m) && m.Acquire?
    ensures Inv(AfterMove(ap, m))
  {
    RestagedPhase(ap, AfterMove(ap, m), m.t);
  }

  /** A holder that is neither the current request nor alarmed leaves without a trace. */
  lemma StaleEnds(ap: Ap, now: Ap, t: nat)
    requires Inv(ap) && ap.lock == Some(t) && Ended(ap, now, t) && !Owner(ap, t) && !Alarmed(ap, t)
    requires now.phase == ap.phase && now.retry == ap.retry && now.radio == ap.radio && now.stray == ap.stray
    ensures Inv(now)
  {
    EndedTasks(ap, now, t);
    assert PhaseOk(now) by {
      if ap.phase.Starting? {
        var u :| Owner(ap, u) && ap.tasks[u].kind.StartTask?;
        assert Owner(now, u);
      }
    }
    RadioSame(ap, now);
    EndedKeeps(ap, now, t);
  }

  lemma CheckKeeps(ap: Ap, m: Move)
    requires Inv(ap) && CanMove(ap, m) && m.Check?
    ensures Inv(AfterMove(ap, m))
  {
    var now, t := AfterMove(ap, m), m.t;
    assert ap.lock == Some(t);
    if ap.tasks[t].generation != ap.generation {
      StaleEnds(ap, now, t);
    } else {
      RestagedPhase(ap, now, t);
      RadioSame(ap, now);
      RestagedKeeps(ap, now, t);
    }
  }

  /** The radio claim carries over when neither radio nor phase moved and no
      current task at work disappeared. */
  lemma RadioSame(ap: Ap, now: Ap)
    requires RadioOk(ap) && now.radio == ap.radio && now.phase == ap.phase && now.stray == ap.stray
    requires forall u :: Owner(ap, u) || Alarmed(ap, u) ==> Owner(now, u) || Alarmed(now, u)
    ensures RadioOk(now)
  {
  }

  lemma LaunchKeeps(ap: Ap, m: Move)
    requires Inv(ap) && CanMove(ap, m) && m.Launch?
    ensures Inv(AfterMove(ap, m))
  {
    var now, t := AfterMove(ap, m), m.t;
    assert ap.lock == Some(t);
    RestagedPhase(ap, now, t);
    BusyHolder(ap, t);
    RestagedKeeps(ap, now, t);
  }

  /** While a start or stop past its check holds the lock, the current request is at work. */
  lemma BusyHolder(ap: Ap, t: nat)
    requires Inv(ap) && ap.lock == Some(t) && t in ap.tasks && PastCheck(ap.tasks[t].stage)
    ensures (exists u :: Owner(ap, u)) || (Current(ap, t) && ap.tasks[t].kind.HealthTask?)
  {
  }

  lemma JudgeKeeps(ap: Ap, m: Move)
    requires Inv(ap) && CanMove(ap, m) && m.Judge?
    ensures Inv(AfterMove(ap, m))
  {
    var now, t := AfterMove(ap, m), m.t;
    assert ap.lock == Some(t) && StageOk(ap, t);
    RestagedPhase(ap, now, t);
    RadioSame(ap, now);
    RestagedKeeps(ap, now, t);
  }

  lemma CleanUpStage(ap: Ap, t: nat, stopped: bool)
    requires t in ap.tasks && ap.tasks[t].stage.Judged? && StageOk(ap, t)
    ensures
      var now := AfterMove(ap, CleanUp(t, stopped));
      && Restaged(ap, now, t) && now.lock == ap.lock && now.tasks[t].stage.Reporting? && StageOk(now, t)
  {
  }

  lemma CleanUpKeeps(ap: Ap, m: Move)
    requires Inv(ap) && CanMove(ap, m) && m.CleanUp?
    ensures Inv(AfterMove(ap, m))
  {
    var now, t := AfterMove(ap, m), m.t;
    assert ap.lock == Some(t);
    CleanUpStage(ap, t, m.stopped);
    hide AfterMove, StageOk;
    RestagedPhase(ap, now, t);
    BusyHolder(ap, t);
    assert Current(ap, t) && ap.tasks[t].kind.HealthTask? ==> Alarmed(now, t);
    RestagedKeeps(ap, now, t);
  }

  lemma TakeDownKeeps(ap: Ap, m: Move)
    requires Inv(ap) && CanMove(ap, m) && m.TakeDown?
    ensures Inv(AfterMove(ap, m))
  {
    var now, t := AfterMove(ap, m), m.t;
    assert ap.lock == Some(t);
    EndedTasks(ap, now, t);
    if Current(ap, t) {
      assert Owner(ap, t);
      assert forall u :: !Owner(now, u);
    } else {
      var u :| Owner(ap, u) && ap.tasks[u].stage.Waiting?;
      assert Owner(now, u);
    }
    assert PhaseOk(now);
    EndedKeeps(ap, now, t);
  }

  lemma ProbeKeeps(ap: Ap, m: Move)
    requires Inv(ap) && CanMove(ap, m) && m.Probe?
    ensures Inv(AfterMove(ap, m))
  {
    var now, t := AfterMove(ap, m), m.t;
    assert ap.lock == Some(t);
    if m.healthy {
      StaleEnds(ap, now, t);
    } else {
      RestagedPhase(ap, now, t);
      RadioSame(ap, now);
      RestagedKeeps(ap, now, t);
    }
  }

  lemma FinishKeeps(ap: Ap, m: Move)
    requires Inv(ap) && CanMove(ap, m) && m.Finish?
    ensures Inv(AfterMove(ap, m))
  {
    var now, t := AfterMove(ap, m), m.t;
    assert ap.lock == Some(t) && StageOk(ap, t);
    EndedTasks(ap, now, t);
    if Current(ap, t) {
      // The current request reports: nothing of this generation is left but idle health checks.
      assert ap.tasks[t].kind.StartTask? ==> Owner(ap, t);
      assert forall u :: !Owner(now, u);
      assert PhaseOk(now) && RadioOk(now);
    } else {
      var u :| Owner(ap, u) && ap.tasks[u].stage.Waiting?;
      assert Owner(now, u);
      assert PhaseOk(now) && RadioOk(now);
    }
    EndedKeeps(ap, now, t);
  }

  lemma MoveKeeps(ap: Ap, m: Move)
    requires Inv(ap) && CanMove(ap, m)
    ensures Inv(AfterMove(ap, m))
  {
    hide Inv, AfterMove, CanMove;
    match m
    case BeginHealth => BeginHealthKeeps(ap, m);
    case Acquire(_) => AcquireKeeps(ap, m);
    case Check(_) => CheckKeeps(ap, m);
    case Launch(_, _, _) => LaunchKeeps(ap, m);
    case Judge(_) => JudgeKeeps(ap, m);
    case CleanUp(_, _) => CleanUpKeeps(ap, m);
    case TakeDown(_, _) => TakeDownKeeps(ap, m);
    case Probe(_, _) => ProbeKeeps(ap, m);
    case Finish(_) => FinishKeeps(ap, m);
  }

  // ---- What an undisturbed task achieves -----------------------------------------

  /** A start task that is not superseded ends with the hotspot up and the phase on,
      or, when launching failed, down, off and marked for a retry. */
  lemma UndisturbedStart(ap: Ap, t: nat, ok: bool, up: bool, stopped: bool)
    requires At(ap, t, StartTask, Running) && Current(ap, t)
    ensures
      var launched := AfterMove(ap, Launch(t, ok, up));
      var judged := AfterMove(launched, Judge(t));
      var cleaned := AfterMove(judged, CleanUp(t, stopped));
      var end := AfterMove(cleaned, Finish(t));
      && end.tasks == ap.tasks - {t} && end.lock == None && end.generation == ap.generation
      && (if ok then end.phase == On && end.radio && !end.stray else end.phase == Off && end.retry)
      && (!ok && stopped ==> !end.radio && !end.stray)
  {
  }

  /** A start task superseded while it launched takes its hotspot down again. */
  lemma SupersededStart(ap: Ap, t: nat, ok: bool, stopped: bool)
    requires At(ap, t, StartTask, Launched(ok)) && !Current(ap, t)
    ensures
      var judged := AfterMove(ap, Judge(t));
      var cleaned := AfterMove(judged, CleanUp(t, stopped));
      var end := AfterMove(cleaned, Finish(t));
      && end.tasks == ap.tasks - {t} && end.lock == None && end.phase == ap.phase && end.retry == ap.retry
      && (stopped ==> !end.radio && !end.stray)
  {
  }

  /** A health check that finds a fault takes the hotspot down and reports the failure; one that finds none changes nothing. */
  lemma UndisturbedHealth(ap: Ap, t: nat, stopped: bool)
    requires At(ap, t, HealthTask, Running) && Current(ap, t)
    ensures
      var faulty := AfterMove(ap, Probe(t, false));
      var cleaned := AfterMove(faulty, CleanUp(t, stopped));
      var end := AfterMove(cleaned, Finish(t));
      && end.tasks == ap.tasks - {t} && end.phase == Off && end.retry && (stopped ==> !end.radio && !end.stray)
    ensures AfterMove(ap, Probe(t, true)) == ap.(tasks := ap.tasks - {t}, lock := None)
  {
  }

  /** A stop task takes the hotspot down, and a task of any kind that waited too long does nothing. */
  lemma UndisturbedStop(ap: Ap, t: nat)
    requires t in ap.tasks && ap.tasks[t].stage == Holding
    ensures !Current(ap, t) ==> AfterMove(ap, Check(t)) == ap.(tasks := ap.tasks - {t}, lock := None)
    ensures Current(ap, t) && ap.tasks[t].kind == StopTask ==>
              var end := AfterMove(AfterMove(ap, Check(t)), TakeDown(t, true));
              !end.radio && !end.stray && end.tasks == ap.tasks - {t} && end.phase == ap.phase
  {
  }
}
