/** The shared `Inner` record of Away Mode, updated field by field under its lock.
    Each critical section takes a valid record to a valid record by the
    corresponding transition of `AwayMode`, and says what its caller relies on. */
module AwayModeInner {
  import opened Options
  import opened AccessPoint
  import opened Geofence
  import opened AwayMode

  class Inner {
    var mode: Mode
    var active: bool
    var fence: Fence
    var epoch: nat
    /** Phase, generation and retry, with the spawned tasks, lock and radio. */
    var ap: Ap
    /** The flag file exists. */
    var flag: bool
    /** It could not be read at boot and has not been written or removed since. */
    var stale: bool
    var watchers: seq<Watcher>
    var gone: set<nat>
    var cleared: nat
    var raced: bool
    var seed: Option<bool>
    var readings: seq<Option<bool>>

    ghost function View(): State
      reads this
    {
      State(ap, mode, active, fence, epoch, flag, stale, cleared, raced, watchers, gone, seed, readings)
    }

    /** What every execution keeps. */
    ghost predicate Valid()
      reads this
    {
      AwayMode.Inv(View())
    }

    constructor (b: Boot)
      ensures View() == Booting(b)
    {
      mode, active, fence, epoch, flag := Manual, false, Fence(None, None, 0), 0, b.flag != Missing;
      ap := Ap(Off, 0, false, map[], 0, None, b.up, false);
      watchers, gone, cleared, raced, stale, seed, readings := [], {}, 0, false, false, None, [];
    }

    method RequestApStart()
      modifies this`ap
      ensures ap == RequestStart(old(ap))
    {
      ap := ap.(generation := ap.generation + 1);
      ap := ap.(phase := Starting);
      ap := ap.(retry := false);
      ap := ap.(tasks := ap.tasks[ap.next := Task(StartTask, ap.generation, Waiting)], next := ap.next + 1);
    }

    method RequestApStop()
      modifies this`ap
      ensures ap == RequestStop(old(ap))
    {
      ap := ap.(generation := ap.generation + 1);
      ap := ap.(phase := Off);
      ap := ap.(retry := false);
      ap := ap.(tasks := ap.tasks[ap.next := Task(StopTask, ap.generation, Waiting)], next := ap.next + 1);
    }

    /** Whether the current request failed and owns the flag cleanup. */
    method FinishApStart(generation: nat, ok: bool) returns (failed: bool)
      modifies this`ap, this`active, this`epoch
      ensures failed == (old(ap).generation == generation && !ok)
      ensures ap == Report(old(ap), generation, ok)
      ensures active == (old(active) && !(failed && mode == Manual))
      ensures epoch == if failed && mode == Manual then old(epoch) + 1 else old(epoch)
    {
      if ap.generation != generation {
        return false;
      }
      if ok {
        ap := ap.(phase := On);
        return false;
      }
      ap := ap.(phase := Off);
      ap := ap.(retry := true);
      if mode == Manual {
        active := false;
        epoch := epoch + 1;
      }
      return true;
    }

    /** The flag file is written or removed. */
    method PutFlag(present: bool)
      modifies this`flag, this`stale
      ensures flag == present && !stale
    {
      flag, stale := present, false;
    }

    method CompleteApStart(generation: nat, ok: bool)
      modifies this`ap, this`active, this`epoch, this`flag, this`stale
      ensures View() == Complete(old(View()), generation, ok)
    {
      var failed := FinishApStart(generation, ok);
      if failed {
        PutFlag(false);
      }
    }

    /** One step of a spawned task; the last one of a start or health task reports. */
    method Advance(m: Move)
      requires Valid() && CanMove(ap, m)
      modifies this
      ensures Valid() && View() == Next(old(View()), TaskMove(m))
      ensures !m.Finish? ==> View() == old(View()).(ap := ap)
      ensures m.Finish? && old(ap).tasks[m.t].generation != old(ap).generation ==> View() == old(View()).(ap := ap)
    {
      TaskMoveKeeps(View(), m);
      hide AwayMode.Inv, AfterMove;
      var moved := AfterMove(ap, m);
      if m.Finish? {
        CompleteApStart(ap.tasks[m.t].generation, ap.tasks[m.t].stage.ok);
      }
      ap := moved;
    }

    method SpawnWatcher(geo: bool)
      modifies this`watchers
      ensures watchers == old(watchers) + [Watcher(geo, epoch)]
    {
      watchers := watchers + [Watcher(geo, epoch)];
    }

    method ResetFence(decision: Option<bool>)
      modifies this`fence, this`seed, this`readings
      ensures fence == Fence(decision, None, 0) && seed == decision && readings == []
    {
      fence := Fence(decision, None, 0);
      seed, readings := decision, [];
    }

    method RestoreFromFile(b: Boot)
      requires View() == Booting(b) && b.Possible()
      modifies this
      ensures Valid() && View() == Restored(b)
    {
      hide RequestStart, RequestStop, AwayMode.Inv;
      RestoreKeeps(b);
      if b.owner && !flag {
        RequestApStop();
      }
      if b.auto {
        RestoreAuto();
      } else {
        RestoreManual(b.flag);
      }
    }

    /** The flag file stands for the decision taken before the restart. */
    method RestoreAuto()
      modifies this
      ensures
        var a := FreshFence(old(View()).(mode := Auto, epoch := old(epoch) + 1), Some(!old(flag)));
        View() == Watch(if old(flag) then Start(a) else a, true)
    {
      hide RequestStart, RequestStop;
      var flagExists := flag;
      mode := Auto;
      epoch := epoch + 1;
      ResetFence(Some(!flagExists));
      if flagExists {
        RequestApStart();
      }
      SpawnWatcher(true);
    }

    method RestoreManual(file: BootFlag)
      modifies this
      ensures
        var s := old(View());
        View() == match file
                  case Missing => s
                  case Unreadable => LeftAlone(s.(stale := true))
                  case Invalid => LeftAlone(SetFlag(s, false))
                  case Expired => Stop(SetFlag(s, false))
                  case Remaining => Watch(Start(s.(active := true, epoch := s.epoch + 1)), false)
    {
      hide RequestStart, RequestStop;
      match file
      case Missing =>
      case Unreadable =>
        stale := true;
        ap := ap.(stray := ap.radio);
      case Invalid =>
        PutFlag(false);
        ap := ap.(stray := ap.radio);
      case Expired =>
        PutFlag(false);
        RequestApStop();
      case Remaining =>
        active := true;
        epoch := epoch + 1;
        RequestApStart();
        SpawnWatcher(false);
    }

    /** The first critical section of `enable`. */
    method EnableCheck() returns (ok: bool)
      requires Valid()
      modifies this`cleared
      ensures Valid() && ok == (mode == Manual)
      ensures cleared == if ok then old(cleared) + 1 else old(cleared)
    {
      ok := mode == Manual;
      if ok {
        NextKeeps(View(), Action.EnableCheck);
        hide AwayMode.Inv;
        cleared := cleared + 1;
      }
    }

    /** The second critical section of `enable`: afterwards a timer runs and the
        flag is there, whatever the mode has become meanwhile. */
    method EnableCommit()
      requires Valid() && cleared > 0
      modifies this
      ensures Valid() && View() == EnableCommitted(old(View()))
      ensures active && flag && mode == old(mode) && (!old(active) ==> ap.phase == Starting)
    {
      hide AwayMode.Inv, EnableCommitted, RequestStart, RequestStop;
      CommitKeeps(View());
      CommitFields(View());
      ghost var after := EnableCommitted(View());
      cleared := cleared - 1;
      raced := raced || mode == Auto;
      if active {
        PutFlag(true);
      } else {
        BeginSession();
      }
      assert View() == after;
    }

    /** A new timer with its own epoch and watcher. */
    method BeginSession()
      modifies this`active, this`epoch, this`flag, this`stale, this`ap, this`watchers
      ensures active && epoch == old(epoch) + 1 && flag && !stale && ap == RequestStart(old(ap))
      ensures watchers == old(watchers) + [Watcher(false, epoch)]
    {
      hide RequestStart;
      active := true;
      epoch := epoch + 1;
      PutFlag(true);
      RequestApStart();
      SpawnWatcher(false);
    }

    /** Afterwards no manual timer is active; ending one takes flag and hotspot with it. */
    method Disable()
      requires Valid()
      modifies this
      ensures Valid() && View() == Disabled(old(View()))
      ensures mode == Manual ==> !active
      ensures mode == Manual && old(active) ==>
                !flag && ap.phase == Off && ap.generation == old(ap.generation) + 1 && epoch == old(epoch) + 1
    {
      hide RequestStart, RequestStop, AwayMode.Inv;
      DisabledKeeps(View());
      RequestPhases(ap);
      if mode == Auto || !active {
        return;
      }
      active := false;
      epoch := epoch + 1;
      PutFlag(false);
      RequestApStop();
    }

    /** Afterwards no timer is active, no start is under way and no decision stands;
        manual mode begins with flag and hotspot off, automatic mode leaves a running
        hotspot to the first decision. */
    method SetMode(auto: bool)
      requires Valid()
      modifies this
      ensures Valid() && View() == ModeSet(old(View()), auto)
      ensures mode == (if auto then Auto else Manual) && !active && ap.phase != Starting
      ensures !auto ==> !flag && ap.phase == Off
      ensures auto && old(ap.phase) != Starting ==> ap == old(ap) && flag == old(flag)
      ensures fence == Fence(None, None, 0) && epoch == old(epoch) + 1
    {
      ModeSetKeeps(View(), auto);
      hide AwayMode.Inv;
      if auto {
        EnterAuto();
      } else {
        EnterManual();
      }
    }

    method EnterAuto()
      modifies this
      ensures View() == ModeSet(old(View()), true)
    {
      hide RequestStart, RequestStop, ModeSet;
      ModeSetFields(View(), true);
      mode, active, raced := Auto, false, false;
      ResetFence(None);
      epoch := epoch + 1;
      AbandonStart();
      SpawnWatcher(true);
    }

    /** A start still under way belongs to the old mode. */
    method AbandonStart()
      modifies this`ap, this`flag, this`stale
      ensures ap == if old(ap).phase == Starting then RequestStop(old(ap)) else old(ap)
      ensures flag == (old(flag) && old(ap).phase != Starting)
      ensures stale == (old(stale) && old(ap).phase != Starting)
    {
      if ap.phase == Starting {
        PutFlag(false);
        RequestApStop();
      }
    }

    method EnterManual()
      modifies this
      ensures View() == ModeSet(old(View()), false)
    {
      hide RequestStart, RequestStop, ModeSet;
      ModeSetFields(View(), false);
      mode, active, raced := Manual, false, false;
      ResetFence(None);
      epoch := epoch + 1;
      PutFlag(false);
      RequestApStop();
    }

    /** One tick of a geofence watcher. A watcher of an earlier epoch, or one that
        outlived automatic mode, changes nothing; otherwise the decision is the
        debounced one, and committed home has neither flag nor hotspot unless a
        late timer is running. */
    method AutoEvalTick(myEpoch: nat, candidate: Option<bool>, retryDue: bool)
      requires Valid()
      modifies this
      ensures Valid() && View() == GeoTicked(old(View()), myEpoch, candidate, retryDue)
      ensures old(mode) != Auto || old(epoch) != myEpoch ==> View() == old(View())
      ensures mode == Auto ==> MostRecentRun(seed, readings, 2, fence.last)
      ensures mode == Auto && !active && fence.last == Some(true) ==> ap.phase == Off && !flag
      ensures old(fence.last) != Some(false) && fence.last == Some(false) ==>
                flag && ap.phase == Starting && ap.generation == old(ap.generation) + 1
      ensures old(fence.last) != Some(true) && fence.last == Some(true) ==>
                !flag && ap.phase == Off && ap.generation == old(ap.generation) + 1
      ensures mode == Auto && !raced && fence.last == Some(false) ==> ap.phase != Off || ap.retry
    {
      if mode == Auto && epoch == myEpoch {
        TickActs(View(), candidate, retryDue);
      }
      GeoTickKeeps(View(), myEpoch, candidate, retryDue);
      ghost var after := GeoTicked(View(), myEpoch, candidate, retryDue);
      if after.mode == Auto {
        Debounced(after.seed, after.readings, CONFIRM_TICKS);
      }
      FoldTick(myEpoch, candidate, retryDue);
      hide AwayMode.Inv, MostRecentRun, GeoTicked;
    }

    method FoldTick(myEpoch: nat, candidate: Option<bool>, retryDue: bool)
      modifies this
      ensures View() == GeoTicked(old(View()), myEpoch, candidate, retryDue)
    {
      hide RequestStart, RequestStop, Fold;
      if mode != Auto || epoch != myEpoch {
        return;
      }
      var pending, count, decision := FoldInPlace(candidate, fence.last, fence.pending, fence.count);
      fence := fence.(pending := pending, count := count);
      readings := readings + [candidate];
      if decision.Some? {
        fence := fence.(last := decision);
        if decision.value {
          PutFlag(false);
          RequestApStop();
        } else {
          PutFlag(true);
          RequestApStart();
        }
      } else if candidate == Some(false) && fence.last == Some(false) && ap.phase == Off && ap.retry && retryDue {
        PutFlag(true);
        RequestApStart();
      }
    }

    /** One poll of a timer watcher. Expiry seen by the acting watcher ends timer,
        flag and hotspot; an obsolete watcher only returns. */
    method TimerPoll(w: nat, expired: bool)
      requires Valid() && Live(View(), w, false)
      modifies this
      ensures Valid() && View() == TimerTicked(old(View()), w, expired)
      ensures old(CanAct(View(), w)) && expired ==> !active && !flag && ap.phase == Off && w in gone
      ensures !old(CanAct(View(), w)) ==> View() == old(View()).(gone := gone) && w in gone
    {
      hide RequestStart, RequestStop, AwayMode.Inv;
      TimerTickKeeps(View(), w, expired);
      RequestPhases(ap);
      if !active || epoch != watchers[w].epoch {
        gone := gone + {w};
      } else if expired {
        active := false;
        PutFlag(false);
        gone := gone + {w};
        RequestApStop();
      } else {
        PutFlag(true);
      }
    }
  }

  /** A mode change, field by field. */
  lemma ModeSetFields(s: State, auto: bool)
    ensures
      var r := ModeSet(s, auto);
      && r.mode == (if auto then Auto else Manual) && !r.active && r.epoch == s.epoch + 1 && !r.raced
      && r.fence == Fence(None, None, 0) && r.seed == None && r.readings == [] && r.cleared == s.cleared && r.gone == s.gone
      && r.ap == (if auto && s.ap.phase != Starting then s.ap else RequestStop(s.ap))
      && r.flag == (s.flag && auto && s.ap.phase != Starting) && r.stale == (s.stale && auto && s.ap.phase != Starting)
      && r.watchers == (if auto then s.watchers + [Watcher(true, s.epoch + 1)] else s.watchers)
  {
    hide RequestStart, RequestStop;
  }

  /** A commit of an enable request, field by field. */
  lemma CommitFields(s: State)
    requires s.cleared > 0
    ensures
      var r := EnableCommitted(s);
      && r.mode == s.mode && r.active && r.flag && !r.stale && r.raced == (s.raced || s.mode == Auto) && r.cleared == s.cleared - 1
      && r.fence == s.fence && r.seed == s.seed && r.readings == s.readings && r.gone == s.gone
      && r.epoch == (if s.active then s.epoch else s.epoch + 1)
      && r.ap == (if s.active then s.ap else RequestStart(s.ap)) && RequestStart(s.ap).phase == Starting
      && r.watchers == (if s.active then s.watchers else s.watchers + [Watcher(false, s.epoch + 1)])
  {
  }
}
