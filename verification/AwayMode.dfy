/** Away Mode as a whole: the manual timer, the geofence-driven automatic mode,
    the flag file, and the watchers, around the hotspot protocol. Every action is
    one critical section of the source; actions interleave freely. */
module AwayMode {
  import opened Options
  import opened AccessPoint
  import opened Geofence

  datatype Mode = Manual | Auto

  /** A timer or geofence watcher with the epoch it was spawned under. */
  datatype Watcher = Watcher(geo: bool, epoch: nat)

  /** `cleared` counts enable requests past their mode check but not yet committed;
      `raced` tells that one of them committed after the mode had become automatic.
      `stale` tells that a flag file which could not be read at boot is still there.
      `seed` and `readings` are what the current geofence watcher has been fed. */
  datatype State = State(ap: Ap, mode: Mode, active: bool, fence: Fence, epoch: nat, flag: bool, stale: bool, cleared: nat,
                         raced: bool, watchers: seq<Watcher>, gone: set<nat>, seed: Option<bool>, readings: seq<Option<bool>>)

  // ---- Critical sections -----------------------------------------------------

  function Start(s: State): State {
    s.(ap := RequestStart(s.ap))
  }

  function Stop(s: State): State {
    s.(ap := RequestStop(s.ap))
  }

  /** The flag file is written or removed. */
  function SetFlag(s: State, present: bool): State {
    s.(flag := present, stale := false)
  }

  function Watch(s: State, geo: bool): State {
    s.(watchers := s.watchers + [Watcher(geo, s.epoch)])
  }

  function FreshFence(s: State, seed: Option<bool>): State {
    s.(fence := Fence(seed, None, 0), seed := seed, readings := [])
  }

  /** `complete_ap_start`: a failure of the current request removes the flag and,
      in manual mode, ends the session. */
  function Complete(s: State, generation: nat, ok: bool): State {
    var reported := s.(ap := Report(s.ap, generation, ok));
    if s.ap.generation != generation || ok then reported
    else if s.mode == Manual then SetFlag(reported.(active := false, epoch := s.epoch + 1), false)
    else SetFlag(reported, false)
  }

  /** What the flag file holds at boot. */
  datatype BootFlag = Missing | Unreadable | Invalid | Expired | Remaining

  /** A start of the server: the flag file, whether automatic mode is configured,
      whether an earlier run left its mark as owner of the hotspot, and whether the
      hotspot is up. It can be up only with such a mark or with a flag file. */
  datatype Boot = Boot(flag: BootFlag, auto: bool, owner: bool, up: bool) {
    predicate Possible() {
      up ==> owner || flag != Missing
    }
  }

  function Booting(b: Boot): State {
    State(Ap(Off, 0, false, map[], 0, None, b.up, false), Manual, false, Fence(None, None, 0), 0, b.flag != Missing, false, 0, false,
          [], {}, None, [])
  }

  /** A flag file that cannot be used leaves the hotspot as it is. */
  function LeftAlone(s: State): State {
    s.(ap := s.ap.(stray := s.ap.radio))
  }

  /** `restore_from_file`. */
  function Restored(b: Boot): State {
    var boot := Booting(b);
    var s := if b.owner && b.flag == Missing then Stop(boot) else boot;
    if b.auto then
      var a := FreshFence(s.(mode := Auto, epoch := s.epoch + 1), Some(!s.flag));
      Watch(if s.flag then Start(a) else a, true)
    else
      match b.flag
      case Missing => s
      case Unreadable => LeftAlone(s.(stale := true))
      case Invalid => LeftAlone(SetFlag(s, false))
      case Expired => Stop(SetFlag(s, false))
      case Remaining => Watch(Start(s.(active := true, epoch := s.epoch + 1)), false)
  }

  function EnableCommitted(s: State): State
    requires s.cleared > 0
  {
    var r := s.(cleared := s.cleared - 1, raced := s.raced || s.mode == Auto);
    if s.active then SetFlag(r, true)
    else Watch(Start(SetFlag(r.(active := true, epoch := s.epoch + 1), true)), false)
  }

  function Disabled(s: State): State {
    if s.mode == Auto || !s.active then s
    else Stop(SetFlag(s.(active := false, epoch := s.epoch + 1), false))
  }

  function ModeSet(s: State, auto: bool): State {
    var r := FreshFence(s.(active := false, epoch := s.epoch + 1, raced := false), None);
    if auto then
      var a := r.(mode := Auto);
      Watch(if s.ap.phase == Starting then Stop(SetFlag(a, false)) else a, true)
    else Stop(SetFlag(r.(mode := Manual), false))
  }

  /** `auto_eval_tick` for a watcher spawned under `epoch`. */
  function GeoTicked(s: State, epoch: nat, candidate: Option<bool>, retryDue: bool): State {
    if s.mode != Auto || s.epoch != epoch then s
    else
      var (_, decision) := Fold(s.fence, candidate, CONFIRM_TICKS);
      var r := s.(fence := Tick(s.fence, candidate, CONFIRM_TICKS), readings := s.readings + [candidate]);
      if decision == Some(true) then Stop(SetFlag(r, false))
      else if decision == Some(false) then Start(SetFlag(r, true))
      else if candidate == Some(false) && r.fence.last == Some(false) && r.ap.phase == Off && r.ap.retry && retryDue
      then Start(SetFlag(r, true))
      else r
  }

  /** One poll of the timer watcher; it also decides whether the watcher ends. */
  function TimerTicked(s: State, w: nat, expired: bool): State
    requires w < |s.watchers|
  {
    if !s.active || s.epoch != s.watchers[w].epoch then s.(gone := s.gone + {w})
    else if expired then Stop(SetFlag(s.(active := false, gone := s.gone + {w}), false))
    else SetFlag(s, true)
  }

  // ---- Interleavings -----------------------------------------------------------

  datatype Action =
    | TaskMove(m: Move)
    | EnableCheck
    | EnableCommit
    | Disable
    | SetMode(auto: bool)
    | GeoTick(w: nat, candidate: Option<bool>, retryDue: bool)
    | TimerTick(w: nat, expired: bool)
    | Exit(w: nat)

  /** The watcher has not returned and is of this kind. */
  predicate Live(s: State, w: nat, geo: bool) {
    w < |s.watchers| && w !in s.gone && s.watchers[w].geo == geo
  }

  /** The watcher passes the checks that let it change anything. */
  predicate CanAct(s: State, w: nat) {
    w < |s.watchers| && s.watchers[w].epoch == s.epoch && (if s.watchers[w].geo then s.mode == Auto else s.active)
  }

  predicate Enabled(s: State, a: Action) {
    match a
    case TaskMove(m) => CanMove(s.ap, m)
    case EnableCheck => s.mode == Manual
    case EnableCommit => s.cleared > 0
    case Disable => true
    case SetMode(_) => true
    case GeoTick(w, _, _) => Live(s, w, true)
    case TimerTick(w, _) => Live(s, w, false)
    case Exit(w) => w < |s.watchers| && !CanAct(s, w)
  }

  function Next(s: State, a: Action): State
    requires Enabled(s, a)
  {
    match a
    case TaskMove(m) =>
      var moved := AfterMove(s.ap, m);
      if m.Finish? then Complete(s, s.ap.tasks[m.t].generation, s.ap.tasks[m.t].stage.ok).(ap := moved)
      else s.(ap := moved)
    case EnableCheck => s.(cleared := s.cleared + 1)
    case EnableCommit => EnableCommitted(s)
    case Disable => Disabled(s)
    case SetMode(auto) => ModeSet(s, auto)
    case GeoTick(w, candidate, retryDue) => GeoTicked(s, s.watchers[w].epoch, candidate, retryDue)
    case TimerTick(w, expired) => TimerTicked(s, w, expired)
    case Exit(w) => s.(gone := s.gone + {w})
  }

  ghost predicate Step(s: State, s': State) {
    exists a :: Enabled(s, a) && s' == Next(s, a)
  }

  ghost predicate Execution(run: seq<State>) {
    && |run| > 0 && (exists b: Boot :: b.Possible() && run[0] == Restored(b))
    && forall i, j :: 0 <= i && j == i + 1 < |run| ==> Step(run[i], run[j])
  }

  // ---- What every state keeps ----------------------------------------------

  /** Committed home means phase off and no flag. */
  predicate HomeClause(s: State) {
    s.fence.last == Some(true) ==> s.ap.phase == Off && !s.flag
  }

  /** Committed away with a hotspot starting or on means the flag exists. */
  predicate AwayClause(s: State) {
    s.fence.last == Some(false) && s.ap.phase != Off ==> s.flag
  }

  /** Manual: the flag file exists exactly while the timer is active, unless it
      could not be read at boot and is still lying there. Automatic: the away
      clause always, the home clause whenever no timer is active, and a timer is
      active only after a late commit of an enable request. */
  predicate FlagOk(s: State) {
    && (s.mode == Manual ==> (s.flag <==> s.active || s.stale))
    && (s.mode == Auto ==> AwayClause(s) && (!s.active ==> HomeClause(s)) && (!s.raced ==> !s.active))
  }

  /** Committed away means the hotspot is starting or on, or failed and marked for a
      retry; a failure took the flag with it. */
  predicate Driven(s: State) {
    s.mode == Auto && !s.raced && s.fence.last == Some(false) ==> s.ap.phase != Off || (s.ap.retry && !s.flag)
  }

  /** Epochs are handed out in increasing order, each to at most one watcher. */
  predicate EpochsOk(s: State) {
    && (forall i, j :: 0 <= i < j < |s.watchers| ==> s.watchers[i].epoch < s.watchers[j].epoch)
    && (forall i :: 0 <= i < |s.watchers| ==> s.watchers[i].epoch <= s.epoch)
    && (forall w :: w in s.gone ==> w < |s.watchers|)
  }

  /** An active timer, and an undisturbed automatic mode, has its watcher. */
  ghost predicate Watched(s: State) {
    && (s.active ==> exists w :: Live(s, w, false) && CanAct(s, w))
    && (s.mode == Auto && !s.raced ==> exists w :: Live(s, w, true) && CanAct(s, w))
  }

  ghost predicate Inv(s: State) {
    && AccessPoint.Inv(s.ap) && FlagOk(s) && EpochsOk(s) && Watched(s) && Driven(s)
    && (s.mode == Auto ==> s.fence == Ticks(s.seed, s.readings, CONFIRM_TICKS))
  }

  /** A new watcher under a new epoch is the only one that can act. */
  lemma WatchKeeps(s: State, geo: bool)
    requires EpochsOk(s) && forall i :: 0 <= i < |s.watchers| ==> s.watchers[i].epoch < s.epoch
    ensures EpochsOk(Watch(s, geo)) && Live(Watch(s, geo), |s.watchers|, geo)
    ensures Watch(s, geo).watchers[|s.watchers|] == Watcher(geo, s.epoch)
  {
  }

  /** What the rest of Away Mode needs to know of a request. */
  lemma Requested(ap: Ap)
    requires AccessPoint.Inv(ap)
    ensures AccessPoint.Inv(RequestStart(ap)) && RequestStart(ap).phase == Starting
    ensures AccessPoint.Inv(RequestStop(ap)) && RequestStop(ap).phase == Off && !RequestStop(ap).retry
  {
    RequestKeeps(ap);
  }

  lemma RequestPhases(ap: Ap)
    ensures RequestStart(ap).phase == Starting && RequestStop(ap).phase == Off
    ensures RequestStart(ap).tasks != map[] && RequestStop(ap).tasks != map[]
    ensures RequestStart(ap).generation == RequestStop(ap).generation == ap.generation + 1
  {
    assert ap.next in RequestStart(ap).tasks && ap.next in RequestStop(ap).tasks;
  }

  /** Any request brings a freshly booted hotspot, up or down, into order. */
  lemma FirstRequest(ap: Ap)
    requires ap == Ap(Off, 0, false, map[], 0, None, ap.radio, false)
    ensures AccessPoint.Inv(RequestStart(ap)) && AccessPoint.Inv(RequestStop(ap))
    ensures AccessPoint.Inv(ap.(stray := ap.radio)) && (!ap.radio ==> AccessPoint.Inv(ap))
  {
    assert Owner(RequestStart(ap), 0) && Owner(RequestStop(ap), 0);
  }

  /** A restored state with one watcher, or a quiet manual one. */
  lemma RestoredWatched(s: State, geo: bool)
    requires AccessPoint.Inv(s.ap) && FlagOk(s) && Driven(s) && s.watchers == [Watcher(geo, s.epoch)] && s.gone == {} && !s.raced
    requires s.mode == (if geo then Auto else Manual) && s.active == !geo
    requires s.fence == Fence(s.seed, None, 0) && s.readings == []
    ensures Inv(s)
  {
    hide AccessPoint.Inv, FlagOk;
    assert Live(s, 0, geo) && CanAct(s, 0);
  }

  lemma RestoreKeeps(b: Boot)
    requires b.Possible()
    ensures Inv(Restored(b))
  {
    hide AccessPoint.Inv, RequestStart, RequestStop;
    var boot := Booting(b);
    FirstRequest(boot.ap);
    RequestPhases(boot.ap);
    if b.auto {
      RestoredWatched(Restored(b), true);
    } else if b.flag == Remaining {
      RestoredWatched(Restored(b), false);
    }
  }

  lemma CommitFlag(s: State)
    requires AccessPoint.Inv(s.ap) && FlagOk(s) && Driven(s) && s.cleared > 0
    ensures
      var r := EnableCommitted(s);
      && AccessPoint.Inv(r.ap) && FlagOk(r) && Driven(r) && r.mode == s.mode && r.active && (r.mode == Auto ==> r.raced)
      && r.fence == s.fence && r.seed == s.seed && r.readings == s.readings && r.gone == s.gone
      && (if s.active then r.watchers == s.watchers && r.epoch == s.epoch
          else r.watchers == s.watchers + [Watcher(false, s.epoch + 1)] && r.epoch == s.epoch + 1)
  {
    hide AccessPoint.Inv, RequestStart, RequestStop;
    Requested(s.ap);
  }

  lemma CommitKeeps(s: State)
    requires Inv(s) && s.cleared > 0
    ensures Inv(EnableCommitted(s))
  {
    CommitFlag(s);
    hide AccessPoint.Inv, EnableCommitted, FlagOk, Driven, Ticks;
    var r := EnableCommitted(s);
    if s.active {
      hide EpochsOk;
      var w :| Live(s, w, false) && CanAct(s, w);
      LateWatcher(r, w);
      EpochsSame(s, r);
    } else {
      hide Watched;
      WatchKeeps(s.(epoch := s.epoch + 1), false);
      hide EpochsOk;
      EpochsSame(Watch(s.(epoch := s.epoch + 1), false), r);
      LateWatcher(r, |s.watchers|);
    }
  }

  /** A timer's watcher; in automatic mode its timer came from a late commit. */
  lemma LateWatcher(s: State, w: nat)
    requires Live(s, w, false) && CanAct(s, w) && s.active && (s.mode == Auto ==> s.raced)
    ensures Watched(s)
  {
  }

  lemma ModeSetKeeps(s: State, auto: bool)
    requires Inv(s)
    ensures Inv(ModeSet(s, auto))
  {
    hide AccessPoint.Inv, RequestStart, RequestStop, Watched, Tick;
    Requested(s.ap);
    var r := ModeSet(s, auto);
    var x := r.(watchers := s.watchers);
    assert EpochsOk(x);
    if auto {
      assert r == Watch(x, true);
      WatchKeeps(x, true);
      ActingWatcher(r, |s.watchers|, true);
    } else {
      NobodyNeeded(r);
    }
  }

  lemma ActingWatcher(s: State, w: nat, geo: bool)
    requires Live(s, w, geo) && CanAct(s, w) && s.active == !geo && (geo || s.mode == Manual)
    ensures Watched(s)
  {
  }

  lemma NobodyNeeded(s: State)
    requires !s.active && s.mode == Manual
    ensures Watched(s)
  {
  }

  lemma GeoTickKeeps(s: State, epoch: nat, candidate: Option<bool>, retryDue: bool)
    requires Inv(s)
    ensures Inv(GeoTicked(s, epoch, candidate, retryDue))
  {
    if s.mode == Auto && s.epoch == epoch {
      var r := GeoTicked(s, epoch, candidate, retryDue);
      GeoTickFlag(s, candidate, retryDue);
      GeoTickFields(s, candidate, retryDue);
      TicksExtend(s.seed, s.readings, candidate, CONFIRM_TICKS);
      hide GeoTicked, FlagOk, Driven, Watched, EpochsOk, Tick, Ticks, AccessPoint.Inv;
      StillWatched(s, r);
      EpochsSame(s, r);
    }
  }

  lemma GeoTickFields(s: State, candidate: Option<bool>, retryDue: bool)
    requires AccessPoint.Inv(s.ap) && s.mode == Auto
    ensures
      var r := GeoTicked(s, s.epoch, candidate, retryDue);
      && AccessPoint.Inv(r.ap) && r.mode == Auto && r.active == s.active && r.raced == s.raced && r.epoch == s.epoch
      && r.watchers == s.watchers && r.gone == s.gone && r.seed == s.seed && r.readings == s.readings + [candidate]
      && r.fence == Tick(s.fence, candidate, CONFIRM_TICKS)
  {
    hide AccessPoint.Inv, RequestStart, RequestStop, Fold, Tick;
    Requested(s.ap);
  }

  lemma EpochsSame(s: State, r: State)
    requires EpochsOk(s) && r.watchers == s.watchers && r.gone == s.gone && r.epoch == s.epoch
    ensures EpochsOk(r)
  {
  }

  /** Flag and hotspot follow the decision of a geofence tick. */
  lemma GeoTickFlag(s: State, candidate: Option<bool>, retryDue: bool)
    requires AccessPoint.Inv(s.ap) && FlagOk(s) && Driven(s) && s.mode == Auto
    ensures FlagOk(GeoTicked(s, s.epoch, candidate, retryDue)) && Driven(GeoTicked(s, s.epoch, candidate, retryDue))
  {
    hide AccessPoint.Inv, RequestStart, RequestStop;
    Requested(s.ap);
    TickCommits(s.fence, candidate, CONFIRM_TICKS);
    hide Fold, Tick;
  }

  lemma TickCommits(f: Fence, candidate: Option<bool>, confirm: nat)
    ensures Tick(f, candidate, confirm).last ==
            if Fold(f, candidate, confirm).1.Some? then Fold(f, candidate, confirm).1 else f.last
  {
  }

  lemma TicksExtend(seed: Option<bool>, readings: seq<Option<bool>>, r: Option<bool>, confirm: nat)
    ensures Ticks(seed, readings + [r], confirm) == Tick(Ticks(seed, readings, confirm), r, confirm)
  {
  }

  /** Watchers stay when mode, epoch, timer and the watcher list do. */
  lemma StillWatched(s: State, r: State)
    requires Watched(s) && r.watchers == s.watchers && r.gone == s.gone && r.epoch == s.epoch
    requires r.mode == s.mode && r.active == s.active && r.raced == s.raced
    ensures Watched(r)
  {
    if s.active {
      var w :| Live(s, w, false) && CanAct(s, w);
      assert Live(r, w, false) && CanAct(r, w);
    }
    if s.mode == Auto && !s.raced {
      var w :| Live(s, w, true) && CanAct(s, w);
      assert Live(r, w, true) && CanAct(r, w);
    }
  }

  lemma TimerTickKeeps(s: State, w: nat, expired: bool)
    requires Inv(s) && Live(s, w, false)
    ensures Inv(TimerTicked(s, w, expired))
  {
    hide AccessPoint.Inv, RequestStart, RequestStop;
    Requested(s.ap);
    var r := TimerTicked(s, w, expired);
    if !CanAct(s, w) {
      ExitWatched(s, w);
    } else if !expired {
      StillWatched(s, r);
    }
  }

  /** A watcher that cannot act may end without leaving anything unwatched. */
  lemma ExitWatched(s: State, w: nat)
    requires Watched(s) && w < |s.watchers| && !CanAct(s, w)
    ensures Watched(s.(gone := s.gone + {w}))
  {
    var r := s.(gone := s.gone + {w});
    if s.active {
      var v :| Live(s, v, false) && CanAct(s, v);
      assert Live(r, v, false) && CanAct(r, v);
    }
    if s.mode == Auto && !s.raced {
      var v :| Live(s, v, true) && CanAct(s, v);
      assert Live(r, v, true) && CanAct(r, v);
    }
  }

  /** Only a failing report of the current request touches flag, timer or epoch. */
  lemma TaskMoveKeeps(s: State, m: Move)
    requires Inv(s) && CanMove(s.ap, m)
    ensures Inv(Next(s, TaskMove(m)))
  {
    MoveKeeps(s.ap, m);
    PhaseMoves(s.ap, m);
    hide AccessPoint.Inv, AfterMove, CanMove, FlagOk, Driven, EpochsOk, Watched;
    var r := Next(s, TaskMove(m));
    TaskMoveFlag(s, m);
    TaskMoveEpochs(s, r);
    if r.epoch == s.epoch {
      StillWatched(s, r);
    } else {
      NobodyNeeded(r);
    }
  }

  lemma TaskMoveFlag(s: State, m: Move)
    requires AccessPoint.Inv(s.ap) && FlagOk(s) && Driven(s) && CanMove(s.ap, m)
    ensures FlagOk(Next(s, TaskMove(m))) && Driven(Next(s, TaskMove(m)))
  {
    PhaseMoves(s.ap, m);
    hide AccessPoint.Inv, AfterMove;
  }

  lemma TaskMoveEpochs(s: State, r: State)
    requires EpochsOk(s) && r.watchers == s.watchers && r.gone == s.gone && r.epoch >= s.epoch
    ensures EpochsOk(r)
  {
  }

  /** The only phase changes a task makes: the current start is on, or the current request failed. */
  lemma PhaseMoves(ap: Ap, m: Move)
    requires AccessPoint.Inv(ap) && CanMove(ap, m)
    ensures !m.Finish? ==> AfterMove(ap, m).phase == ap.phase && AfterMove(ap, m).retry == ap.retry
    ensures m.Finish? ==>
              var task := ap.tasks[m.t];
              && AfterMove(ap, m).phase == Report(ap, task.generation, task.stage.ok).phase
              && AfterMove(ap, m).retry == Report(ap, task.generation, task.stage.ok).retry
              && (task.stage.ok && task.generation == ap.generation ==> ap.phase == Starting)
  {
  }

  lemma NextKeeps(s: State, a: Action)
    requires Inv(s) && Enabled(s, a)
    ensures Inv(Next(s, a))
  {
    match a
    case TaskMove(m) => TaskMoveKeeps(s, m);
    case EnableCheck => StillWatched(s, Next(s, a));
    case EnableCommit => CommitKeeps(s);
    case Disable => Requested(s.ap);
    case SetMode(auto) => ModeSetKeeps(s, auto);
    case GeoTick(w, candidate, retryDue) => GeoTickKeeps(s, s.watchers[w].epoch, candidate, retryDue);
    case TimerTick(w, expired) => TimerTickKeeps(s, w, expired);
    case Exit(w) => ExitWatched(s, w);
  }

  lemma DisabledKeeps(s: State)
    requires Inv(s)
    ensures Inv(Disabled(s))
  {
    hide Inv, Disabled;
    NextKeeps(s, Disable);
  }

  lemma {:induction false} EveryExecution(run: seq<State>, i: nat)
    requires Execution(run) && i < |run|
    ensures Inv(run[i])
  {
    hide Inv, Enabled, Next, Restored;
    if i == 0 {
      var b: Boot :| b.Possible() && run[0] == Restored(b);
      RestoreKeeps(b);
    } else {
      EveryExecution(run, i - 1);
      assert Step(run[i - 1], run[i]);
      var a :| Enabled(run[i - 1], a) && run[i] == Next(run[i - 1], a);
      NextKeeps(run[i - 1], a);
    }
  }

  // ---- What that means -----------------------------------------------------

  /** In every execution, `Starting` means the current generation's start task is
      still pending, and once no task is pending the radio is up exactly when the
      phase is `On`, unless taking it down has failed. */
  lemma HotspotSettles(run: seq<State>, i: nat)
    requires Execution(run) && i < |run|
    ensures
      var ap := run[i].ap;
      && (ap.phase == Starting ==>
            exists t :: t in ap.tasks && ap.tasks[t].kind.StartTask? && ap.tasks[t].generation == ap.generation)
      && (ap.tasks == map[] && !ap.stray ==> (ap.radio <==> ap.phase == On))
  {
    EveryExecution(run, i);
  }

  /** In every execution each epoch belongs to at most one watcher ever spawned,
      so at most one watcher can still act, whether or not earlier ones have
      noticed that they are obsolete; and whoever needs a watcher has one. */
  lemma OneWatcherActs(run: seq<State>, i: nat, v: nat, w: nat)
    requires Execution(run) && i < |run| && v < |run[i].watchers| && w < |run[i].watchers|
    ensures run[i].watchers[v].epoch == run[i].watchers[w].epoch ==> v == w
    ensures CanAct(run[i], v) && CanAct(run[i], w) ==> v == w
    ensures Watched(run[i])
  {
    EveryExecution(run, i);
  }

  /** In every execution, late commits included: in automatic mode committed away
      with a hotspot not off has its flag, and committed home means phase off and
      no flag whenever no timer is active; in manual mode the flag file exists
      exactly while the timer is active, unless one that could not be read at boot
      is still there, which happens only after such a boot. */
  lemma FlagAgrees(run: seq<State>, i: nat)
    requires Execution(run) && i < |run|
    ensures run[i].mode == Auto ==> AwayClause(run[i]) && (!run[i].active ==> HomeClause(run[i]))
    ensures run[i].mode == Auto && !run[i].raced ==> !run[i].active
    ensures run[i].mode == Manual ==> (run[i].flag <==> run[i].active || run[i].stale)
    ensures run[i].stale ==> exists b: Boot :: b.flag == Unreadable && !b.auto && run[0] == Restored(b)
  {
    EveryExecution(run, i);
    if run[i].stale {
      StaleSinceBoot(run, i);
    }
  }

  lemma {:induction false} StaleSinceBoot(run: seq<State>, i: nat)
    requires Execution(run) && i < |run| && run[i].stale
    ensures exists b: Boot :: b.flag == Unreadable && !b.auto && run[0] == Restored(b)
  {
    hide Restored, Next, Enabled;
    if i == 0 {
      var b: Boot :| b.Possible() && run[0] == Restored(b);
      StaleAtBoot(b);
    } else {
      assert Step(run[i - 1], run[i]);
      var a :| Enabled(run[i - 1], a) && run[i] == Next(run[i - 1], a);
      StaleIsOld(run[i - 1], a);
      StaleSinceBoot(run, i - 1);
    }
  }

  lemma StaleAtBoot(b: Boot)
    requires Restored(b).stale
    ensures b.flag == Unreadable && !b.auto
  {
  }

  lemma StaleIsOld(s: State, a: Action)
    requires Enabled(s, a) && Next(s, a).stale
    ensures s.stale
  {
  }

  /** After a restore to manual mode flag and timer agree exactly when the flag file could be read. */
  lemma RestoreAgreesIff(b: Boot)
    requires !b.auto
    ensures (Restored(b).flag <==> Restored(b).active) <==> b.flag != Unreadable
  {
  }

  /** A hotspot found up at boot is taken over or taken down, except in manual mode
      with a flag file that cannot be used: exactly then it stays up with nothing
      pending and the phase off. */
  lemma RestoreRadioIff(b: Boot)
    requires b.Possible()
    ensures
      var ap := Restored(b).ap;
      ap.radio && ap.phase != On && ap.tasks == map[] <==> b.up && !b.auto && (b.flag == Unreadable || b.flag == Invalid)
  {
    RequestPhases(Booting(b).ap);
  }

  /** What a restore asks for: a start exactly when away or a running timer is
      restored, a stop exactly for an expired timer or an owner without a flag. */
  lemma RestoreAsks(b: Boot)
    ensures
      var s := Restored(b);
      && (s.ap.phase == Starting <==> if b.auto then b.flag != Missing else b.flag == Remaining)
      && (s.ap.phase == Off && s.ap.tasks != map[] <==>
            if b.flag == Missing then b.owner else !b.auto && b.flag == Expired)
      && s.mode == (if b.auto then Auto else Manual) && (s.active <==> !b.auto && b.flag == Remaining)
      && (b.auto ==> s.fence.last == Some(b.flag == Missing))
      && (s.flag <==> if b.auto then b.flag != Missing else b.flag == Remaining || b.flag == Unreadable)
  {
    RequestPhases(Booting(b).ap);
  }

  /** The exact condition for an enable request that commits after the switch to
      automatic mode: it breaks the home clause if and only if home is committed
      at that moment. The away clause it never breaks. */
  lemma LateCommit(s: State)
    requires s.mode == Auto && s.cleared > 0
    ensures HomeClause(EnableCommitted(s)) <==> s.fence.last != Some(true)
    ensures AwayClause(EnableCommitted(s))
  {
  }

  /** The breach ends with the late timer: its expiry restores the home clause. */
  lemma LateTimerEnds(s: State, w: nat)
    requires s.mode == Auto && s.active && Live(s, w, false) && s.watchers[w].epoch == s.epoch
    ensures var r := TimerTicked(s, w, true); !r.active && HomeClause(r) && AwayClause(r)
  {
  }

  /** In every execution, undisturbed by a late enable: while away is committed the
      hotspot is starting or on, or it failed, the flag is gone and a retry is marked;
      and with a retry marked the phase is off. */
  lemma AwayIsServed(run: seq<State>, i: nat)
    requires Execution(run) && i < |run|
    ensures run[i].mode == Auto && !run[i].raced && run[i].fence.last == Some(false) ==>
              run[i].ap.phase != Off || (run[i].ap.retry && !run[i].flag)
    ensures run[i].ap.retry ==> run[i].ap.phase == Off
  {
    EveryExecution(run, i);
  }

  /** A failure of the current request is complete: phase off, retry marked, flag
      removed; in manual mode the session ends under a new epoch, in automatic mode
      decision and epoch stay. Any other report removes no flag. */
  lemma FailureClears(s: State, generation: nat, ok: bool)
    ensures
      var r := Complete(s, generation, ok);
      && r.mode == s.mode && r.fence == s.fence && r.watchers == s.watchers
      && (if generation == s.ap.generation && !ok
          then && r.ap.phase == Off && r.ap.retry && !r.flag && !r.stale
               && (s.mode == Manual ==> !r.active && r.epoch == s.epoch + 1)
               && (s.mode == Auto ==> r.active == s.active && r.epoch == s.epoch)
          else r == s.(ap := r.ap) && (generation == s.ap.generation ==> r.ap.phase == On))
  {
  }

  /** A tick of the current watcher acts at once: a decision for away requests a
      start under a new generation and writes the flag, one for home requests a stop
      and removes it, a due retry with a fresh away reading requests a start, and
      any other tick leaves hotspot and flag alone. */
  lemma TickActs(s: State, candidate: Option<bool>, retryDue: bool)
    requires s.mode == Auto
    ensures
      var r := GeoTicked(s, s.epoch, candidate, retryDue);
      var retried := candidate == Some(false) && s.fence.last == Some(false) && s.ap.phase == Off && s.ap.retry && retryDue;
      && (r.fence.last != s.fence.last ==> r.fence.last == candidate && candidate.Some?)
      && ((r.fence.last != s.fence.last && candidate == Some(false)) || retried ==>
            && r.flag && r.ap.phase == Starting && r.ap.generation == s.ap.generation + 1
            && r.ap.tasks == s.ap.tasks[s.ap.next := Task(StartTask, s.ap.generation + 1, Waiting)])
      && (r.fence.last != s.fence.last && candidate == Some(true) ==>
            && !r.flag && r.ap.phase == Off && r.ap.generation == s.ap.generation + 1
            && r.ap.tasks == s.ap.tasks[s.ap.next := Task(StopTask, s.ap.generation + 1, Waiting)])
      && (r.fence.last == s.fence.last && !retried ==> r.flag == s.flag && r.ap == s.ap)
  {
    DecisionCommits(s.fence, candidate, CONFIRM_TICKS);
    hide Fold, Tick;
  }

  /** A decision is for the reading just made, and differs from what was committed. */
  lemma DecisionCommits(f: Fence, candidate: Option<bool>, confirm: nat)
    ensures
      var (_, decision) := Fold(f, candidate, confirm);
      && (decision.Some? ==> decision == candidate && decision != f.last && Tick(f, candidate, confirm).last == decision)
      && (decision.None? ==> Tick(f, candidate, confirm).last == f.last)
  {
  }

  /** In every execution the committed home/away value is what the readings of the
      current watcher confirm. */
  lemma FenceFollowsReadings(run: seq<State>, i: nat)
    requires Execution(run) && i < |run| && run[i].mode == Auto
    ensures MostRecentRun(run[i].seed, run[i].readings, 2, run[i].fence.last)
    ensures run[i].fence.count < 2 && (run[i].fence.pending.Some? ==> run[i].fence.pending != run[i].fence.last)
  {
    hide MostRecentRun, AccessPoint.Inv, FlagOk, Watched, EpochsOk;
    EveryExecution(run, i);
    Debounced(run[i].seed, run[i].readings, CONFIRM_TICKS);
  }

  /** In every execution no move of a superseded task, at whatever stage, changes
      mode, flag, timer, fence, epoch, phase or the retry mark, so no superseded
      failure removes a newer session's flag; and whatever it still does to the
      radio, the current request's own task waits behind it. */
  lemma SupersededIsHarmless(run: seq<State>, i: nat, m: Move)
    requires Execution(run) && i < |run| && CanMove(run[i].ap, m) && !m.BeginHealth?
    requires run[i].ap.tasks[m.t].generation != run[i].ap.generation
    ensures
      var s, r := run[i], Next(run[i], TaskMove(m));
      && r == s.(ap := r.ap) && r.ap.phase == s.ap.phase && r.ap.retry == s.ap.retry && r.ap.generation == s.ap.generation
      && (PastCheck(s.ap.tasks[m.t].stage) ==> exists u :: Owner(r.ap, u) && r.ap.tasks[u].stage.Waiting?)
  {
    EveryExecution(run, i);
    SupersededMove(run[i], m);
    QueueOk(run[i]);
    hide *;
    if PastCheck(run[i].ap.tasks[m.t].stage) {
      WaitsBehind(run[i].ap, m);
    }
  }

  lemma QueueOk(s: State)
    requires Inv(s)
    ensures LockOk(s.ap) && SupersededOk(s.ap)
  {
  }

  lemma SupersededMove(s: State, m: Move)
    requires CanMove(s.ap, m) && !m.BeginHealth? && s.ap.tasks[m.t].generation != s.ap.generation
    ensures
      var r := Next(s, TaskMove(m));
      && r == s.(ap := r.ap) && r.ap == AfterMove(s.ap, m)
      && r.ap.phase == s.ap.phase && r.ap.retry == s.ap.retry && r.ap.generation == s.ap.generation
  {
    StaleMove(s.ap, m);
    hide AfterMove;
  }

  lemma StaleMove(ap: Ap, m: Move)
    requires CanMove(ap, m) && !m.BeginHealth? && ap.tasks[m.t].generation != ap.generation
    ensures
      var now := AfterMove(ap, m);
      now.phase == ap.phase && now.retry == ap.retry && now.generation == ap.generation
  {
  }

  lemma WaitsBehind(ap: Ap, m: Move)
    requires LockOk(ap) && SupersededOk(ap) && CanMove(ap, m) && !m.BeginHealth?
    requires ap.tasks[m.t].generation != ap.generation && PastCheck(ap.tasks[m.t].stage)
    ensures exists u :: Owner(AfterMove(ap, m), u) && AfterMove(ap, m).tasks[u].stage.Waiting?
  {
    assert ap.lock == Some(m.t);
    var u :| Owner(ap, u) && ap.tasks[u].stage.Waiting?;
    assert Owner(AfterMove(ap, m), u) && AfterMove(ap, m).tasks[u].stage.Waiting?;
  }

  lemma StepBy(s: State, a: Action)
    requires Enabled(s, a)
    ensures Step(s, Next(s, a))
  {
  }

  /** The automatic-mode claim does need its condition: an enable request that
      passed its check in manual mode and commits after the switch leaves automatic
      mode with home committed, the flag present, a start under way and no
      geofence watcher able to act. */
  lemma RacedEnable() returns (run: seq<State>)
    ensures Execution(run)
    ensures
      var s := run[|run| - 1];
      && s.mode == Auto && s.fence.last == Some(true) && s.flag && s.ap.phase == Starting && s.raced
      && forall w :: Live(s, w, true) ==> !CanAct(s, w)
  {
    var s0 := Restored(Boot(Missing, false, false, false));
    var s1 := Next(s0, EnableCheck);
    var s2 := Next(s1, SetMode(true));
    var s3 := Next(s2, GeoTick(0, Some(true), false));
    var s4 := Next(s3, GeoTick(0, Some(true), false));
    var s5 := Next(s4, EnableCommit);
    run := [s0, s1, s2, s3, s4, s5];
    StepBy(s0, EnableCheck);
    StepBy(s1, SetMode(true));
    StepBy(s2, GeoTick(0, Some(true), false));
    StepBy(s3, GeoTick(0, Some(true), false));
    StepBy(s4, EnableCommit);
    forall i, j | 0 <= i && j == i + 1 < |run| ensures Step(run[i], run[j]) {
    }
  }
}
