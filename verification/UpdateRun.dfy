/** The coordinator as it runs, writing markers and receipts step by step. Each
    method is specified by the corresponding function of `UpdateCoordinator`. */
module UpdateRun {
  import opened Options
  import opened Versions
  import opened UpdateCoordinator

  class Coordinator {
    var markers: set<string>
    var receipt: Receipt
    var log: seq<Event>

    ghost function View(): State
      reads this
    {
      State(markers, receipt, log)
    }

    /** A run that has gone well so far. */
    ghost function Going(): Run
      reads this
    {
      Run(log, receipt, true)
    }

    constructor (receipt: Receipt)
      ensures View() == State({}, receipt, []) && Inv(View())
    {
      this.receipt, markers, log := receipt, {}, [];
    }

    method Note(e: Event)
      modifies this`log
      ensures log == old(log) + [e]
    {
      log := log + [e];
    }

    method SaveReceipt(a: Attempt, io: SaveIo) returns (ok: bool)
      modifies this`receipt, this`log
      ensures Run(log, receipt, ok) == DidSave(old(Going()), a, io)
      ensures ok <==> !old(receipt).Unreadable? && io.Written?
      ensures receipt == if !old(receipt).Unreadable? && !io.NotWritten? then Stored(a) else old(receipt)
    {
      ok := false;
      if !receipt.Unreadable? && !io.NotWritten? {
        receipt := Stored(a);
        ok := io.Written?;
      }
      Note(Saved(a, ok));
    }

    /** Whether the cycle was newly claimed; none for an invalid id or a failed marker. */
    method ClaimCycle(id: string, io: bool) returns (claimed: Option<bool>)
      modifies this`markers, this`log
      ensures claimed == if !ValidId(id) then None else if id in old(markers) then Some(false)
                         else if io then Some(true) else None
      ensures markers == if claimed == Some(true) then old(markers) + {id} else old(markers)
      ensures log == if claimed == Some(true) then old(log) + [Claimed(id)] else old(log)
    {
      if !ValidId(id) {
        return None;
      }
      if id in markers {
        return Some(false);
      }
      if !io {
        return None;
      }
      markers := markers + {id};
      Note(Claimed(id));
      return Some(true);
    }

    method FinalSentryCheck(paired: bool, keepAwake: bool, answer: Option<string>) returns (ok: bool)
      modifies this`log
      ensures log == if paired && !keepAwake then old(log) + [Sentry(answer)] else old(log)
      ensures ok <==> (paired && !keepAwake ==> Says(answer, "Off"))
    {
      ok := true;
      if paired && !keepAwake {
        Note(Sentry(answer));
        ok := Says(answer, "Off");
      }
    }

    method FinalDriveCheck(paired: bool, answer: Option<string>) returns (ok: bool)
      modifies this`log
      ensures log == if paired then old(log) + [Gear(answer)] else old(log)
      ensures ok <==> (paired ==> Says(answer, "P"))
    {
      ok := true;
      if paired {
        Note(Gear(answer));
        ok := Says(answer, "P");
      }
    }

    method FinalInstallGate(e: Env) returns (ok: bool)
      modifies this`log
      ensures Run(log, receipt, ok) == Gated(old(Going()), e)
    {
      hide Says;
      Note(AwakeStopped(e.stopped));
      if !e.stopped {
        return false;
      }
      ok := FinalSentryCheck(e.paired, e.keepAwake, e.sentry);
      if !ok {
        return;
      }
      ok := FinalDriveCheck(e.paired, e.gear);
      if !ok {
        return;
      }
      Note(Rechecked(e.recheckLast));
      ok := e.recheckLast;
    }

    method Download(e: Env, a: Attempt) returns (ok: bool)
      modifies this`receipt, this`log
      ensures Run(log, receipt, ok) == Downloaded(old(Going()), e, a)
    {
      hide Put;
      ok := SaveReceipt(a, e.savePreparing);
      if !ok {
        return;
      }
      Note(Staged(e.staged));
      if !e.staged {
        return false;
      }
      Note(Rechecked(e.recheckStaged));
      ok := e.recheckStaged;
    }

    method Prepare(e: Env, a: Attempt) returns (ok: bool)
      modifies this`receipt, this`log
      ensures Run(log, receipt, ok) == Prepared(old(Going()), e, a)
    {
      hide Downloaded;
      ok := Download(e, a);
      if !ok {
        return;
      }
      Note(WorkHeld(e.work));
      if !e.work {
        return false;
      }
      Note(NoticeSaved(e.notice));
      if !e.notice {
        return false;
      }
      Note(Looked(e.looked, e.paired, e.keepAwake));
      ok := e.looked;
    }

    method Commit(e: Env, a: Attempt) returns (ok: bool)
      modifies this`receipt, this`log
      ensures Run(log, receipt, ok) == Committed(old(Going()), e, a)
    {
      hide Put;
      Note(PlanSaved(e.plan));
      if !e.plan {
        return false;
      }
      Note(Hashed(e.hashed));
      if !e.hashed {
        return false;
      }
      ok := SaveReceipt(a.(phase := Installing), e.saveInstalling);
      if !ok {
        return;
      }
      Note(Replaced(a.target, e.replaced));
      ok := e.replaced;
    }

    method LockCycle(e: Env) returns (ok: bool)
      modifies this`log
      ensures Run(log, receipt, ok) == UnderLock(old(Going()), e)
    {
      Note(CycleLocked(e.locked));
      if !e.locked {
        return false;
      }
      Note(CycleChecked(e.validUnderLock));
      ok := e.validUnderLock;
    }

    method Finish(e: Env, a: Attempt) returns (ok: bool)
      modifies this`receipt, this`log
      ensures Run(log, receipt, ok) == Finished(old(Going()), e, a)
    {
      hide Put;
      Note(Armed(e.armed));
      if !e.armed {
        return false;
      }
      ok := SaveReceipt(a.(phase := AwaitingReboot), e.saveAwaiting);
      if !ok {
        return;
      }
      Note(RebootRequested(e.rebootRequested));
      if !e.rebootRequested {
        return false;
      }
      Note(RebootCame(e.rebootCame));
      ok := e.rebootCame;
    }

    /** The part of the run whose failure is recorded in the receipt. */
    method Try(e: Env, a: Attempt) returns (ok: bool)
      modifies this`receipt, this`log
      ensures Run(log, receipt, ok) == Attempted(old(Going()), e, a)
    {
      StopsWhereItFailed(Prepared(Going(), e, a), e, a);
      ok := Prepare(e, a);
      if !ok {
        return;
      }
      hide Prepared, Gated, UnderLock, Committed, Finished;
      ok := FinalInstallGate(e);
      if !ok {
        return;
      }
      ok := LockCycle(e);
      if !ok {
        return;
      }
      ok := Commit(e, a);
      if !ok {
        return;
      }
      ok := Finish(e, a);
    }

    method Fail(a: Attempt, e: Env)
      modifies this`receipt, this`log
      ensures View() == Closed(old(View()), Run(old(log), old(receipt), false), a, e)
    {
      var _ := SaveReceipt(a.(phase := Failed), e.saveFailed);
    }

    method Update(e: Env)
      requires e.cycle.Some?
      modifies this`receipt, this`log
      ensures View() == Updated(old(View()), e)
    {
      hide Attempted, Put, NumericVersion, Newer;
      if !Settled(receipt) {
        return;
      }
      var current := Comparison(e.recorded, receipt);
      var a := Attempt(e.cycle.value.boot, e.cycle.value.id, current, "", Preparing);
      match LatestStable(current, e.release)
      case None => Fail(a, e);
      case Some(None) =>
      case Some(Some(target)) =>
        a := a.(target := target);
        Note(Chose(e.recorded, receipt, target));
        var ok := Try(e, a);
        if !ok {
          Fail(a, e);
        }
    }

    method Coordinate(e: Env)
      requires Inv(View())
      modifies this
      ensures Inv(View()) && View() == Coordinated(old(View()), e)
    {
      CoordinatedKeeps(View(), e);
      hide Inv, Updated, ValidId;
      if !e.ready || e.cycle.None? || !e.validAtStart || !e.admitted {
        return;
      }
      var claimed := ClaimCycle(e.cycle.value.id, e.markerIo);
      if claimed != Some(true) || !Eligible(e) {
        return;
      }
      Note(Rechecked(e.recheckFirst));
      if e.recheckFirst {
        Update(e);
      }
    }
  }

  /** A run that has failed does nothing more. */
  lemma StopsWhereItFailed(r: Run, e: Env, a: Attempt)
    ensures !r.ok ==> Gated(r, e) == r && UnderLock(r, e) == r && Committed(r, e, a) == r && Finished(r, e, a) == r
    ensures var g := Gated(r, e); !g.ok ==> UnderLock(g, e) == g && Committed(g, e, a) == g && Finished(g, e, a) == g
    ensures var u := UnderLock(Gated(r, e), e); !u.ok ==> Committed(u, e, a) == u && Finished(u, e, a) == u
    ensures var c := Committed(UnderLock(Gated(r, e), e), e, a); !c.ok ==> Finished(c, e, a) == c
  {
    StopsNow(r, e, a);
    StopsNow(Gated(r, e), e, a);
    StopsNow(UnderLock(Gated(r, e), e), e, a);
    StopsNow(Committed(UnderLock(Gated(r, e), e), e, a), e, a);
    hide *;
  }

  lemma StopsNow(r: Run, e: Env, a: Attempt)
    ensures !r.ok ==> Gated(r, e) == r && UnderLock(r, e) == r && Committed(r, e, a) == r && Finished(r, e, a) == r
  {
  }
}
