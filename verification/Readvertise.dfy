/** Keeping the advertisement up: timers and calls of the re-registration chain
    on the daemon's main loop. Nothing in the state forbids several chains at
    once; that there is never more than one is proved. */
module Readvertise {

  const MAX_RETRIES: nat := 8
  const MAX_DEFERRALS: nat := 20
  const DEFERRAL_MS: nat := 1000

  /** An outstanding `_reregister` timer; `waited` adds up its delay and those of
      the deferrals before it, since the previous attempt of its chain. */
  datatype Timer = Timer(retry: nat, deferrals: nat, waited: nat)

  datatype Outcome = Registered | AlreadyExists | Refused

  /** The history: a poke that opened a chain, an attempt with the timer time that
      led to it, and how the attempt ended. */
  datatype Event = Opened(delay: nat) | Attempted(retry: nat, waited: nat) | Failed | Succeeded

  /** `calls` holds the retry count of each registration call not answered yet. */
  datatype Adv = Adv(pending: bool, timers: seq<Timer>, calls: seq<nat>, log: seq<Event>)

  function Power2(n: nat): nat {
    if n == 0 then 1 else 2 * Power2(n - 1)
  }

  /** The wait after a refused attempt. */
  function Backoff(retry: nat): nat {
    if retry < MAX_RETRIES then
      if 2000 * Power2(retry) < 10000 then 2000 * Power2(retry) else 10000
    else 60000
  }

  function Without<T>(s: seq<T>, i: nat): seq<T>
    requires i < |s|
  {
    s[..i] + s[i + 1..]
  }

  // ---- Handlers --------------------------------------------------------------

  function Ensure(a: Adv, delay: nat): Adv {
    if a.pending then a
    else a.(pending := true, timers := a.timers + [Timer(0, 0, delay)], log := a.log + [Opened(delay)])
  }

  /** Timer `i` fires while a central connect is in flight or not. */
  function Fire(a: Adv, i: nat, busy: bool): Adv
    requires i < |a.timers|
  {
    var Timer(retry, deferrals, waited) := a.timers[i];
    var rest := Without(a.timers, i);
    if busy && deferrals < MAX_DEFERRALS
    then a.(timers := rest + [Timer(retry, deferrals + 1, waited + DEFERRAL_MS)])
    else a.(timers := rest, calls := a.calls + [retry], log := a.log + [Attempted(retry, waited)])
  }

  function Answer(a: Adv, i: nat, outcome: Outcome): Adv
    requires i < |a.calls|
  {
    var retry := a.calls[i];
    var rest := a.(calls := Without(a.calls, i));
    if outcome != Refused then rest.(pending := false, log := a.log + [Succeeded])
    else rest.(timers := a.timers + [Timer(retry + 1, 0, Backoff(retry))], log := a.log + [Failed])
  }

  datatype Action =
    | Release
    | CentralDisconnect
    | InitialFailure
    | TimerFires(i: nat, busy: bool)
    | Reply(i: nat, outcome: Outcome)

  predicate Enabled(a: Adv, x: Action) {
    match x
    case TimerFires(i, _) => i < |a.timers|
    case Reply(i, _) => i < |a.calls|
    case _ => true
  }

  function Next(a: Adv, x: Action): Adv
    requires Enabled(a, x)
  {
    match x
    case Release => Ensure(a, 2000)
    case CentralDisconnect => Ensure(a, 1500)
    case InitialFailure => Ensure(a, 2000)
    case TimerFires(i, busy) => Fire(a, i, busy)
    case Reply(i, outcome) => Answer(a, i, outcome)
  }

  ghost predicate Step(a: Adv, b: Adv) {
    exists x :: Enabled(a, x) && b == Next(a, x)
  }

  ghost predicate Run(run: seq<Adv>) {
    && |run| > 0 && run[0] == Adv(false, [], [], [])
    && forall i, j :: 0 <= i && j == i + 1 < |run| ==> Step(run[i], run[j])
  }

  // ---- What a history must look like -------------------------------------------

  /** The timer time between the event that scheduled an attempt and the attempt:
      its own delay and up to twenty deferrals of a second. */
  predicate Waits(delay: nat, waited: nat) {
    delay <= waited <= delay + MAX_DEFERRALS * DEFERRAL_MS && (waited - delay) % DEFERRAL_MS == 0
  }

  /** Which event may follow the events so far: chains run one after the other,
      each opened by a poke, attempt by attempt with rising retry counts, until
      one succeeds. */
  predicate Follows(log: seq<Event>, e: Event) {
    var n := |log|;
    match e
    case Opened(delay) => (n == 0 || log[n - 1].Succeeded?) && (delay == 1500 || delay == 2000)
    case Attempted(retry, waited) =>
      && n > 0
      && (if retry == 0 then log[n - 1].Opened? && Waits(log[n - 1].delay, waited)
          else n > 1 && log[n - 1].Failed? && log[n - 2].Attempted? && log[n - 2].retry == retry - 1
               && Waits(Backoff(retry - 1), waited))
    case Failed => n > 0 && log[n - 1].Attempted?
    case Succeeded => n > 0 && log[n - 1].Attempted?
  }

  predicate Serial(log: seq<Event>) {
    forall i :: 0 <= i < |log| ==> Follows(log[..i], log[i])
  }

  /** The history expects an attempt of this chain after this delay. */
  predicate Expects(log: seq<Event>, retry: nat, delay: nat) {
    var n := |log|;
    if retry == 0 then n > 0 && log[n - 1] == Opened(delay)
    else n > 1 && log[n - 1].Failed? && log[n - 2].Attempted? && log[n - 2].retry == retry - 1 && delay == Backoff(retry - 1)
  }

  /** An outstanding timer is the next attempt of the chain in the history. */
  predicate TimerOk(a: Adv, t: Timer) {
    && t.deferrals <= MAX_DEFERRALS && t.deferrals * DEFERRAL_MS <= t.waited
    && Expects(a.log, t.retry, t.waited - t.deferrals * DEFERRAL_MS)
  }

  predicate Ended(log: seq<Event>) {
    log == [] || log[|log| - 1].Succeeded?
  }

  /** The flag is up exactly when one timer or call is outstanding, never more. */
  predicate Inv(a: Adv) {
    && |a.timers| + |a.calls| == (if a.pending then 1 else 0)
    && (a.pending <==> !Ended(a.log))
    && (|a.timers| == 1 ==> TimerOk(a, a.timers[0]))
    && (|a.calls| == 1 ==> |a.log| > 0 && a.log[|a.log| - 1].Attempted? && a.log[|a.log| - 1].retry == a.calls[0])
    && Serial(a.log)
  }

  lemma SerialGrows(log: seq<Event>, e: Event)
    requires Serial(log) && Follows(log, e)
    ensures Serial(log + [e])
  {
    hide Follows;
    var more := log + [e];
    forall i | 0 <= i < |more| ensures Follows(more[..i], more[i]) {
      assert more[..i] == if i < |log| then log[..i] else log;
    }
  }

  lemma EnsureKeeps(a: Adv, delay: nat)
    requires Inv(a) && (delay == 1500 || delay == 2000)
    ensures Inv(Ensure(a, delay))
  {
    if !a.pending {
      OpenFollows(a.log, delay);
      hide Serial, Follows;
      SerialGrows(a.log, Opened(delay));
    }
  }

  lemma OpenFollows(log: seq<Event>, delay: nat)
    requires Ended(log) && (delay == 1500 || delay == 2000)
    ensures Follows(log, Opened(delay))
  {
  }

  lemma FireKeeps(a: Adv, i: nat, busy: bool)
    requires Inv(a) && i < |a.timers|
    ensures Inv(Fire(a, i, busy))
  {
    hide Serial, Follows, Expects;
    var Timer(retry, deferrals, waited) := a.timers[i];
    assert Without(a.timers, i) == [];
    if !(busy && deferrals < MAX_DEFERRALS) {
      AttemptFollows(a, a.timers[i]);
      SerialGrows(a.log, Attempted(retry, waited));
    }
  }

  lemma AttemptFollows(a: Adv, t: Timer)
    requires TimerOk(a, t)
    ensures Follows(a.log, Attempted(t.retry, t.waited))
  {
  }

  lemma AnswerKeeps(a: Adv, i: nat, outcome: Outcome)
    requires Inv(a) && i < |a.calls|
    ensures Inv(Answer(a, i, outcome))
  {
    EndFollows(a.log);
    hide Serial, Follows, Expects, Backoff;
    assert Without(a.calls, i) == [];
    if outcome != Refused {
      SerialGrows(a.log, Succeeded);
    } else {
      SerialGrows(a.log, Failed);
      RefusalExpects(a.log);
    }
  }

  lemma EndFollows(log: seq<Event>)
    requires log != [] && log[|log| - 1].Attempted?
    ensures Follows(log, Succeeded) && Follows(log, Failed)
  {
  }

  /** After a refusal the next attempt is due after the backoff. */
  lemma RefusalExpects(log: seq<Event>)
    requires log != [] && log[|log| - 1].Attempted?
    ensures Expects(log + [Failed], log[|log| - 1].retry + 1, Backoff(log[|log| - 1].retry))
  {
  }

  lemma NextKeeps(a: Adv, x: Action)
    requires Inv(a) && Enabled(a, x)
    ensures Inv(Next(a, x))
  {
    hide Inv;
    match x
    case Release => EnsureKeeps(a, 2000);
    case CentralDisconnect => EnsureKeeps(a, 1500);
    case InitialFailure => EnsureKeeps(a, 2000);
    case TimerFires(i, busy) => FireKeeps(a, i, busy);
    case Reply(i, outcome) => AnswerKeeps(a, i, outcome);
  }

  /** In every run the flag holds exactly when one timer or call is outstanding,
      and the history is a series of whole chains. */
  lemma {:induction false} EveryRun(run: seq<Adv>, n: nat)
    requires Run(run) && n < |run|
    ensures Inv(run[n])
  {
    if n > 0 {
      EveryRun(run, n - 1);
      hide Inv, Next;
      assert Step(run[n - 1], run[n]);
      var x :| Enabled(run[n - 1], x) && run[n] == Next(run[n - 1], x);
      NextKeeps(run[n - 1], x);
    }
  }

  /** A poke opens a chain exactly when none is pending, with its own delay. */
  lemma PokeOpens(a: Adv, delay: nat)
    ensures Ensure(a, delay).pending && (a.pending ==> Ensure(a, delay) == a)
    ensures !a.pending ==> Ensure(a, delay).timers == a.timers + [Timer(0, 0, delay)] && Ensure(a, delay).calls == a.calls
  {
  }

  /** A timer that fires attempts a registration unless a central connect is in flight
      and it was deferred fewer than twenty times; then it waits one more second and
      uses up no retry. */
  lemma FireIff(a: Adv, busy: bool)
    requires |a.timers| == 1
    ensures
      var t, r := a.timers[0], Fire(a, 0, busy);
      if !busy || t.deferrals >= 20
      then r.calls == a.calls + [t.retry] && r.timers == [] && r.log == a.log + [Attempted(t.retry, t.waited)]
      else r.calls == a.calls && r.timers == [Timer(t.retry, t.deferrals + 1, t.waited + 1000)] && r.log == a.log
  {
  }

  /** An answer ends the chain exactly when the advertisement is up, else the next attempt is scheduled. */
  lemma AnswerIff(a: Adv, outcome: Outcome)
    requires |a.calls| == 1
    ensures
      var r := Answer(a, 0, outcome);
      && r.calls == []
      && (if outcome == Registered || outcome == AlreadyExists then !r.pending && r.timers == a.timers
          else r.pending == a.pending && r.timers == a.timers + [Timer(a.calls[0] + 1, 0, Backoff(a.calls[0]))])
  {
    hide Backoff;
  }

  /** The waits after refused attempts: 2, 4, 8 and then 10 seconds, and a minute from the ninth on. */
  lemma BackoffValues(retry: nat)
    ensures Backoff(retry) == match retry case 0 => 2000 case 1 => 4000 case 2 => 8000 case _ => if retry < 8 then 10000 else 60000
  {
    if 3 <= retry {
      PowerGrows(3, retry);
    }
    assert Power2(3) == 8;
  }

  lemma {:induction false} PowerGrows(m: nat, n: nat)
    requires m <= n
    ensures Power2(m) <= Power2(n)
  {
    if m < n {
      PowerGrows(m, n - 1);
    }
  }

  /** In every run, no attempt comes more than eighty seconds of timers after the
      poke or the refusal that led to it; within one chain the attempts are
      numbered without a gap, each at least the backoff after the one before. */
  lemma AttemptsAreClose(run: seq<Adv>, n: nat, i: nat)
    requires Run(run) && n < |run| && i < |run[n].log| && run[n].log[i].Attempted?
    ensures
      var log := run[n].log;
      && 1500 <= log[i].waited <= 80000 && i > 0
      && (log[i].retry > 0 ==>
            && i > 1 && log[i - 1].Failed? && log[i - 2].Attempted? && log[i - 2].retry == log[i].retry - 1
            && log[i].waited >= Backoff(log[i].retry - 1))
      && (log[i].retry == 0 ==> log[i - 1].Opened?)
  {
    EveryRun(run, n);
    var log := run[n].log;
    assert Follows(log[..i], log[i]);
    if log[i].retry > 0 {
      BackoffValues(log[i].retry - 1);
    }
  }

  /** A chain that was opened cannot die: as long as nothing succeeded since, in
      every later state its timer or call is outstanding and the daemon can move. */
  lemma NeverDies(run: seq<Adv>, n: nat, i: nat)
    requires Run(run) && n < |run| && i < |run[n].log| && run[n].log[i].Opened?
    requires forall k :: i < k < |run[n].log| ==> !run[n].log[k].Succeeded?
    ensures run[n].pending && |run[n].timers| + |run[n].calls| == 1
  {
    EveryRun(run, n);
  }

  /** Re-registration attempts never overlap: between two of them the first was answered. */
  lemma NoOverlap(run: seq<Adv>, n: nat, i: nat, j: nat)
    requires Run(run) && n < |run| && i < j < |run[n].log| && run[n].log[i].Attempted? && run[n].log[j].Attempted?
    ensures i + 1 < j && (run[n].log[i + 1].Failed? || run[n].log[i + 1].Succeeded?)
  {
    EveryRun(run, n);
    var log := run[n].log;
    assert Follows(log[..i + 1], log[i + 1]);
    assert log[..i + 1][i] == log[i];
  }

  // ---- The advertisement object ---------------------------------------------------

  class Advertisement {
    var pending: bool
    var timers: seq<Timer>
    var calls: seq<nat>
    var log: seq<Event>

    ghost function View(): Adv
      reads this
    {
      Adv(pending, timers, calls, log)
    }

    constructor ()
      ensures View() == Adv(false, [], [], []) && Inv(View())
    {
      pending, timers, calls, log := false, [], [], [];
    }

    method EnsureRegistered(delay: nat)
      requires Inv(View()) && (delay == 1500 || delay == 2000)
      modifies this
      ensures Inv(View()) && View() == Ensure(old(View()), delay)
    {
      EnsureKeeps(View(), delay);
      if pending {
        return;
      }
      pending := true;
      timers := timers + [Timer(0, 0, delay)];
      log := log + [Opened(delay)];
    }

    /** `_reregister`, run by timer `i`. */
    method Reregister(i: nat, busy: bool)
      requires Inv(View()) && i < |timers|
      modifies this
      ensures Inv(View()) && View() == Fire(old(View()), i, busy)
    {
      hide Inv, Without;
      FireKeeps(View(), i, busy);
      var Timer(retry, deferrals, waited) := timers[i];
      timers := Without(timers, i);
      if busy && deferrals < MAX_DEFERRALS {
        timers := timers + [Timer(retry, deferrals + 1, waited + DEFERRAL_MS)];
        return;
      }
      calls := calls + [retry];
      log := log + [Attempted(retry, waited)];
    }

    /** The reply or error handler of call `i`. */
    method OnReply(i: nat, outcome: Outcome)
      requires Inv(View()) && i < |calls|
      modifies this
      ensures Inv(View()) && View() == Answer(old(View()), i, outcome)
    {
      hide Inv, Backoff, Without;
      AnswerKeeps(View(), i, outcome);
      var retry := calls[i];
      calls := Without(calls, i);
      if outcome == Refused {
        OnError(retry);
      } else {
        OnSuccess();
      }
    }

    method OnError(retry: nat)
      modifies this`timers, this`log
      ensures timers == old(timers) + [Timer(retry + 1, 0, Backoff(retry))] && log == old(log) + [Failed]
    {
      if retry < MAX_RETRIES {
        var delay := 2000 * Power2(retry);
        timers := timers + [Timer(retry + 1, 0, if delay < 10000 then delay else 10000)];
      } else {
        timers := timers + [Timer(retry + 1, 0, 60000)];
      }
      log := log + [Failed];
    }

    method OnSuccess()
      modifies this`pending, this`log
      ensures !pending && log == old(log) + [Succeeded]
    {
      pending := false;
      log := log + [Succeeded];
    }
  }
}
