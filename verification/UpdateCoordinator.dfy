/** The automatic update coordinator: one gated run per archive cycle, in which
    every awaited operation may fail and the machine may stop anywhere. The log
    records each operation with its outcome, in the order the run performs them. */
module UpdateCoordinator {
  import opened Options
  import opened Text
  import opened Versions

  datatype Phase = Preparing | Installing | AwaitingReboot | Verifying | Verified | Failed | Interrupted

  datatype Attempt = Attempt(boot: string, cycle: string, source: string, target: string, phase: Phase) {
    predicate Terminal() {
      phase == Verified || phase == Failed || phase == Interrupted
    }
  }

  /** The receipt file of the latest attempt. */
  datatype Receipt = NoReceipt | Unreadable | Stored(a: Attempt)

  /** A save may fail before the new receipt is in place, or only in the final flush. */
  datatype SaveIo = Written | NotWritten | Unflushed

  datatype Cycle = Cycle(id: string, boot: string, eligible: bool, archived: nat)
  datatype Release = Release(tag: string, draft: bool, prerelease: bool)

  datatype Event =
    | Claimed(cycle: string)
    | Rechecked(ok: bool)
    | Chose(recorded: string, previous: Receipt, target: string)
    | Saved(a: Attempt, ok: bool)
    | Staged(ok: bool)
    | WorkHeld(ok: bool)
    | NoticeSaved(ok: bool)
    | Looked(ok: bool, paired: bool, keepAwake: bool)
    | AwakeStopped(ok: bool)
    | Sentry(answer: Option<string>)
    | Gear(answer: Option<string>)
    | CycleLocked(ok: bool)
    | CycleChecked(ok: bool)
    | PlanSaved(ok: bool)
    | Hashed(ok: bool)
    | Replaced(target: string, ok: bool)
    | Armed(ok: bool)
    | RebootRequested(ok: bool)
    | RebootCame(ok: bool)

  /** How everything outside turns out during one run. */
  datatype Env = Env(
    ready: bool, cycle: Option<Cycle>, validAtStart: bool, admitted: bool, markerIo: bool,
    enabled: Option<bool>, recheckFirst: bool, recorded: string, release: Option<Release>,
    savePreparing: SaveIo, staged: bool, recheckStaged: bool, work: bool, notice: bool,
    looked: bool, paired: bool, keepAwake: bool,
    stopped: bool, sentry: Option<string>, gear: Option<string>, recheckLast: bool,
    locked: bool, validUnderLock: bool, plan: bool, hashed: bool, saveInstalling: SaveIo, replaced: bool,
    armed: bool, saveAwaiting: SaveIo, rebootRequested: bool, rebootCame: bool, saveFailed: SaveIo)

  /** Claim markers, the receipt, and what happened so far. */
  datatype State = State(markers: set<string>, receipt: Receipt, log: seq<Event>)

  // ---- One run -----------------------------------------------------------------

  /** A run under way; `ok` is false once an operation failed, and then nothing more is done. */
  datatype Run = Run(log: seq<Event>, receipt: Receipt, ok: bool)

  function Did(r: Run, e: Event, ok: bool): Run {
    if r.ok then Run(r.log + [e], r.receipt, ok) else r
  }

  /** `update_attempt::save` never replaces an unreadable receipt. */
  function Put(receipt: Receipt, a: Attempt, io: SaveIo): (Receipt, bool) {
    if receipt.Unreadable? || io.NotWritten? then (receipt, false) else (Stored(a), io.Written?)
  }

  function DidSave(r: Run, a: Attempt, io: SaveIo): Run {
    if !r.ok then r
    else
      var (receipt, ok) := Put(r.receipt, a, io);
      Run(r.log + [Saved(a, ok)], receipt, ok)
  }

  predicate Says(answer: Option<string>, word: string) {
    answer.Some? && Trim(answer.value) == word
  }

  /** Receipt, staging and recheck. */
  function Downloaded(r: Run, e: Env, a: Attempt): Run {
    var saved := DidSave(r, a, e.savePreparing);
    var staged := Did(saved, Staged(e.staged), e.staged);
    Did(staged, Rechecked(e.recheckStaged), e.recheckStaged)
  }

  /** Then, up to the final gate, background work and the start notice. */
  function Prepared(r: Run, e: Env, a: Attempt): Run {
    var held := Did(Downloaded(r, e, a), WorkHeld(e.work), e.work);
    var noted := Did(held, NoticeSaved(e.notice), e.notice);
    Did(noted, Looked(e.looked, e.paired, e.keepAwake), e.looked)
  }

  function SentryChecked(r: Run, e: Env): Run {
    if e.paired && !e.keepAwake then Did(r, Sentry(e.sentry), Says(e.sentry, "Off")) else r
  }

  function DriveChecked(r: Run, e: Env): Run {
    if e.paired then Did(r, Gear(e.gear), Says(e.gear, "P")) else r
  }

  /** `final_install_gate`. */
  function Gated(r: Run, e: Env): Run {
    var stopped := Did(r, AwakeStopped(e.stopped), e.stopped);
    Did(DriveChecked(SentryChecked(stopped, e), e), Rechecked(e.recheckLast), e.recheckLast)
  }

  function UnderLock(r: Run, e: Env): Run {
    Did(Did(r, CycleLocked(e.locked), e.locked), CycleChecked(e.validUnderLock), e.validUnderLock)
  }

  /** The part of `commit` before any live file is touched. */
  function Planned(r: Run, e: Env, a: Attempt): Run {
    var planned := Did(r, PlanSaved(e.plan), e.plan);
    var hashed := Did(planned, Hashed(e.hashed), e.hashed);
    DidSave(hashed, a.(phase := Installing), e.saveInstalling)
  }

  function Committed(r: Run, e: Env, a: Attempt): Run {
    Did(Planned(r, e, a), Replaced(a.target, e.replaced), e.replaced)
  }

  /** A successful run ends with the machine going down; if no reboot comes, it fails after all. */
  function Finished(r: Run, e: Env, a: Attempt): Run {
    var armed := Did(r, Armed(e.armed), e.armed);
    var awaiting := DidSave(armed, a.(phase := AwaitingReboot), e.saveAwaiting);
    var requested := Did(awaiting, RebootRequested(e.rebootRequested), e.rebootRequested);
    Did(requested, RebootCame(e.rebootCame), e.rebootCame)
  }

  function Attempted(r: Run, e: Env, a: Attempt): Run {
    Finished(Committed(UnderLock(Gated(Prepared(r, e, a), e), e), e, a), e, a)
  }

  function Comparison(recorded: string, previous: Receipt): string {
    if previous.Stored? && previous.a.phase != Verified && previous.a.target == recorded
    then previous.a.source else recorded
  }

  /** `latest_stable`: an error, nothing newer, or the tag to install. */
  function LatestStable(current: string, release: Option<Release>): Option<Option<string>> {
    if release.None? || NumericVersion(current).None? || NumericVersion(release.value.tag).None? then None
    else if Newer(current, release.value.tag, release.value.draft, release.value.prerelease) then Some(Some(release.value.tag))
    else Some(None)
  }

  predicate ValidId(id: string) {
    && 0 < |id| <= 128
    && forall i :: 0 <= i < |id| ==> IsDigit(id[i]) || 'a' <= id[i] <= 'z' || 'A' <= id[i] <= 'Z' || id[i] == ':' || id[i] == '-'
  }

  /** A valid id cannot lead a marker's name out of its directory or into a longer one. */
  lemma ValidIdStays(id: string)
    ensures ValidId(id) ==> id != "" && |id| <= 128 && '/' !in id && '.' !in id && '\0' !in id && ' ' !in id
    ensures id == "" || |id| > 128 || '/' in id ==> !ValidId(id)
  {
  }

  /** The run gets to claim its cycle. */
  predicate Claims(s: State, e: Env) {
    && e.ready && e.cycle.Some? && e.validAtStart && e.admitted
    && ValidId(e.cycle.value.id) && e.cycle.value.id !in s.markers && e.markerIo
  }

  predicate Eligible(e: Env)
    requires e.cycle.Some?
  {
    e.enabled == Some(true) && e.cycle.value.eligible && e.cycle.value.archived > 0
  }

  /** No earlier attempt is waiting for startup recovery. */
  predicate Settled(receipt: Receipt) {
    receipt.NoReceipt? || (receipt.Stored? && receipt.a.Terminal())
  }

  /** The end of a failed attempt: the receipt says so, when it can be written. */
  function Closed(s: State, r: Run, a: Attempt, e: Env): State {
    if r.ok then State(s.markers, r.receipt, r.log)
    else
      var (receipt, ok) := Put(r.receipt, a.(phase := Failed), e.saveFailed);
      State(s.markers, receipt, r.log + [Saved(a.(phase := Failed), ok)])
  }

  /** Everything after the first recheck. */
  function Updated(s: State, e: Env): State
    requires e.cycle.Some?
  {
    if !Settled(s.receipt) then s
    else
      var current := Comparison(e.recorded, s.receipt);
      var a := Attempt(e.cycle.value.boot, e.cycle.value.id, current, "", Preparing);
      match LatestStable(current, e.release)
      case None => Closed(s, Run(s.log, s.receipt, false), a, e)
      case Some(None) => s
      case Some(Some(target)) =>
        var chosen := Run(s.log + [Chose(e.recorded, s.receipt, target)], s.receipt, true);
        Closed(s, Attempted(chosen, e, a.(target := target)), a.(target := target), e)
  }

  /** `coordinate`. */
  function Coordinated(s: State, e: Env): State {
    if !Claims(s, e) then s
    else
      var id := e.cycle.value.id;
      var claimed := State(s.markers + {id}, s.receipt, s.log + [Claimed(id)]);
      if !Eligible(e) then claimed
      else
        var checked := claimed.(log := claimed.log + [Rechecked(e.recheckFirst)]);
        if e.recheckFirst then Updated(checked, e) else checked
  }

  // ---- When a live file may be replaced -----------------------------------------

  /** Neither a claim nor a replacement among the new events. */
  ghost predicate Quiet(before: seq<Event>, now: seq<Event>) {
    before <= now && forall i :: |before| <= i < |now| ==> !now[i].Claimed? && !now[i].Replaced?
  }

  /** The operations, all successful, that must directly precede a replacement,
      in this order. A car that is not paired is not asked, and one kept awake by
      Sentry Mode on purpose is not asked for its Sentry state. */
  function Gates(paired: bool, keepAwake: bool, sentry: string, gear: string, a: Attempt): seq<Event> {
    [Looked(true, paired, keepAwake), AwakeStopped(true)]
    + (if paired && !keepAwake then [Sentry(Some(sentry))] else [])
    + (if paired then [Gear(Some(gear))] else [])
    + [Rechecked(true), CycleLocked(true), CycleChecked(true), PlanSaved(true), Hashed(true), Saved(a, true)]
  }

  /** The log up to position `i` authorises replacing files by `target`: the gates
      were just passed for an attempt on it, the run claimed its cycle, and in this
      run `target` was found strictly newer than the version the last attempt
      established. */
  ghost predicate Authorised(log: seq<Event>, i: nat, target: string)
    requires i <= |log|
  {
    exists b: nat, n: nat, paired, keepAwake, sentry, gear, a: Attempt, recorded, previous ::
      && b + 2 < n <= i && Claim(log, b, n, a.cycle) && Choice(log, b + 2, n, recorded, previous, target)
      && log[n..i] == Gates(paired, keepAwake, sentry, gear, a)
      && (paired && !keepAwake ==> Trim(sentry) == "Off") && (paired ==> Trim(gear) == "P")
      && a.phase == Installing && a.target == target && a.source == Comparison(recorded, previous)
  }

  /** Position `b` claims the cycle, and nothing is claimed or replaced from there to `n`. */
  ghost predicate Claim(log: seq<Event>, b: nat, n: nat, cycle: string) {
    b < n <= |log| && log[b] == Claimed(cycle) && Quiet(log[..b + 1], log[..n])
  }

  /** Position `c` settles on a strictly newer stable release, with no attempt left to recover. */
  predicate Choice(log: seq<Event>, c: nat, n: nat, recorded: string, previous: Receipt, target: string) {
    && c < n <= |log| && log[c] == Chose(recorded, previous, target)
    && Settled(previous) && Newer(Comparison(recorded, previous), target, false, false)
  }

  /** Every replacement was authorised, and every cycle is claimed at most once. */
  ghost predicate Safe(log: seq<Event>) {
    && (forall i :: 0 <= i < |log| && log[i].Replaced? ==> Authorised(log[..i], i, log[i].target))
    && (forall i, j :: 0 <= i < j < |log| && log[i].Claimed? ==> log[i] != log[j])
  }

  ghost predicate Inv(s: State) {
    Safe(s.log) && forall i :: 0 <= i < |s.log| && s.log[i].Claimed? ==> s.log[i].cycle in s.markers
  }

  // ---- Proof ---------------------------------------------------------------------

  lemma QuietTrans(a: seq<Event>, b: seq<Event>, c: seq<Event>)
    requires Quiet(a, b) && Quiet(b, c)
    ensures Quiet(a, c)
  {
  }

  lemma QuietKeeps(log: seq<Event>, now: seq<Event>)
    requires Safe(log) && Quiet(log, now)
    ensures Safe(now)
  {
    hide Authorised;
    forall i | 0 <= i < |now| && now[i].Replaced? ensures Authorised(now[..i], i, now[i].target) {
      assert i < |log| && now[i] == log[i];
      assert now[..i] == log[..i];
    }
  }

  /** What preparing adds when nothing fails. */
  function Opening(e: Env, a: Attempt): (events: seq<Event>)
    ensures |events| == 6
  {
    [Saved(a, true), Staged(true), Rechecked(true), WorkHeld(true), NoticeSaved(true), Looked(true, e.paired, e.keepAwake)]
  }

  lemma PreparedTrace(r: Run, e: Env, a: Attempt)
    requires r.ok
    ensures Quiet(r.log, Prepared(r, e, a).log)
    ensures Prepared(r, e, a).ok ==> Prepared(r, e, a).log == r.log + Opening(e, a)
  {
  }

  lemma GatedTrace(r: Run, e: Env)
    ensures Quiet(r.log, Gated(r, e).log)
    ensures Gated(r, e).ok ==>
              && r.ok && (e.paired && !e.keepAwake ==> Says(e.sentry, "Off")) && (e.paired ==> Says(e.gear, "P"))
              && Gated(r, e).log == r.log + [AwakeStopped(true)] + (if e.paired && !e.keepAwake then [Sentry(e.sentry)] else [])
                                    + (if e.paired then [Gear(e.gear)] else []) + [Rechecked(true)]
  {
  }

  lemma PlannedTrace(r: Run, e: Env, a: Attempt)
    ensures Quiet(r.log, Planned(UnderLock(r, e), e, a).log)
    ensures Planned(UnderLock(r, e), e, a).ok ==>
              && r.ok
              && Planned(UnderLock(r, e), e, a).log ==
                 r.log + [CycleLocked(true), CycleChecked(true), PlanSaved(true), Hashed(true), Saved(a.(phase := Installing), true)]
  {
  }

  /** The run up to the point where the first live file would be touched. */
  function Approach(r: Run, e: Env, a: Attempt): Run {
    Planned(UnderLock(Gated(Prepared(r, e, a), e), e), e, a)
  }

  function SentryWord(e: Env): string {
    if e.sentry.Some? then e.sentry.value else ""
  }

  function GearWord(e: Env): string {
    if e.gear.Some? then e.gear.value else ""
  }

  lemma ApproachTrace(r: Run, e: Env, a: Attempt)
    requires r.ok
    ensures Quiet(r.log, Approach(r, e, a).log)
    ensures Approach(r, e, a).ok ==>
              && (e.paired && !e.keepAwake ==> Trim(SentryWord(e)) == "Off") && (e.paired ==> Trim(GearWord(e)) == "P")
              && Approach(r, e, a).log ==
                 r.log + Opening(e, a)[..5] + Gates(e.paired, e.keepAwake, SentryWord(e), GearWord(e), a.(phase := Installing))
  {
    hide Prepared, Gated, UnderLock, Planned, Trim, Quiet;
    PreparedTrace(r, e, a);
    var p := Prepared(r, e, a);
    GatedTrace(p, e);
    var g := Gated(p, e);
    PlannedTrace(g, e, a);
    QuietTrans(r.log, p.log, g.log);
    QuietTrans(r.log, g.log, Approach(r, e, a).log);
    assert Opening(e, a) == Opening(e, a)[..5] + [Looked(true, e.paired, e.keepAwake)];
    hide Gates, Opening;
    TraceJoins(r.log, Opening(e, a)[..5], e.paired, e.keepAwake, SentryWord(e), GearWord(e), a.(phase := Installing));
  }

  /** The pieces of a successful approach, put together. */
  lemma TraceJoins(log: seq<Event>, five: seq<Event>, paired: bool, keepAwake: bool, sentry: string, gear: string, a: Attempt)
    ensures
      log + (five + [Looked(true, paired, keepAwake)]) + [AwakeStopped(true)]
      + (if paired && !keepAwake then [Sentry(Some(sentry))] else []) + (if paired then [Gear(Some(gear))] else []) + [Rechecked(true)]
      + [CycleLocked(true), CycleChecked(true), PlanSaved(true), Hashed(true), Saved(a, true)]
      == log + five + Gates(paired, keepAwake, sentry, gear, a)
  {
  }

  /** The whole attempt: quiet until the approach succeeds, then one replacement, then quiet. */
  lemma AttemptedTrace(r: Run, e: Env, a: Attempt)
    requires r.ok
    ensures
      var p := Approach(r, e, a);
      && (!p.ok ==> Attempted(r, e, a).log == p.log)
      && (p.ok ==> Quiet(p.log + [Replaced(a.target, e.replaced)], Attempted(r, e, a).log))
  {
  }

  lemma ReplacementKeeps(log: seq<Event>, target: string, ok: bool)
    requires Safe(log) && Authorised(log, |log|, target)
    ensures Safe(log + [Replaced(target, ok)])
  {
    hide Authorised;
    var now := log + [Replaced(target, ok)];
    forall i | 0 <= i < |now| && now[i].Replaced? ensures Authorised(now[..i], i, now[i].target) {
      assert now[..i] == if i < |log| then log[..i] else log;
    }
  }

  lemma ClaimKeeps(s: State, id: string)
    requires Inv(s) && id !in s.markers
    ensures Inv(State(s.markers + {id}, s.receipt, s.log + [Claimed(id)]))
  {
    hide Authorised;
    var now := s.log + [Claimed(id)];
    forall i | 0 <= i < |now| && now[i].Replaced? ensures Authorised(now[..i], i, now[i].target) {
      assert now[..i] == s.log[..i];
    }
  }

  lemma InvQuiet(s: State, now: State)
    requires Inv(s) && Quiet(s.log, now.log) && now.markers == s.markers
    ensures Inv(now)
  {
    QuietKeeps(s.log, now.log);
    hide Safe;
  }

  /** The events of this run so far, when it has just chosen its target. */
  ghost predicate JustChose(log: seq<Event>, cycle: string, recorded: string, previous: Receipt, target: string) {
    var n := |log|;
    && n >= 3 && log[n - 3] == Claimed(cycle) && log[n - 2] == Rechecked(true) && log[n - 1] == Chose(recorded, previous, target)
    && Settled(previous) && Newer(Comparison(recorded, previous), target, false, false)
  }

  /** Gates passed right after a front part that holds the claim and the choice. */
  lemma FrontAndGates(front: seq<Event>, b: nat, paired: bool, keepAwake: bool, sentry: string, gear: string, a: Attempt,
                      recorded: string, previous: Receipt)
    requires b + 2 < |front| && Claim(front, b, |front|, a.cycle) && Choice(front, b + 2, |front|, recorded, previous, a.target)
    requires (paired && !keepAwake ==> Trim(sentry) == "Off") && (paired ==> Trim(gear) == "P")
    requires a.phase == Installing && a.source == Comparison(recorded, previous)
    ensures var log := front + Gates(paired, keepAwake, sentry, gear, a); Authorised(log, |log|, a.target)
  {
    hide Gates, Trim, Comparison, Newer, Settled, Quiet;
    var n := |front|;
    var log := front + Gates(paired, keepAwake, sentry, gear, a);
    assert log[..n] == front && front[..n] == front && log[..b + 1] == front[..b + 1];
    assert log[n..|log|] == Gates(paired, keepAwake, sentry, gear, a);
    assert Claim(log, b, n, a.cycle) && Choice(log, b + 2, n, recorded, previous, a.target);
  }

  /** Claim and choice are still found after more quiet events. */
  lemma ClaimAndChoice(log: seq<Event>, more: seq<Event>, cycle: string, recorded: string, previous: Receipt, target: string)
    requires JustChose(log, cycle, recorded, previous, target) && Quiet([], more) && more != []
    ensures Claim(log + more, |log| - 3, |log + more|, cycle)
    ensures Choice(log + more, |log| - 1, |log + more|, recorded, previous, target)
  {
    hide Newer, Comparison, Settled;
    var b, all := |log| - 3, log + more;
    assert all[..b + 1] == log[..b + 1] && all[..|all|] == all;
  }

  lemma OpeningQuiet(e: Env, a: Attempt)
    ensures Quiet([], Opening(e, a)[..5]) && Opening(e, a)[..5] != []
  {
  }

  lemma GatesAuthorise(log: seq<Event>, more: seq<Event>, paired: bool, keepAwake: bool, sentry: string, gear: string, a: Attempt,
                       recorded: string, previous: Receipt)
    requires JustChose(log, a.cycle, recorded, previous, a.target) && Quiet([], more) && more != []
    requires (paired && !keepAwake ==> Trim(sentry) == "Off") && (paired ==> Trim(gear) == "P")
    requires a.phase == Installing && a.source == Comparison(recorded, previous)
    ensures var all := log + more + Gates(paired, keepAwake, sentry, gear, a); Authorised(all, |all|, a.target)
  {
    hide *;
    JustChoseLength(log, a.cycle, recorded, previous, a.target);
    ClaimAndChoice(log, more, a.cycle, recorded, previous, a.target);
    FrontAndGates(log + more, |log| - 3, paired, keepAwake, sentry, gear, a, recorded, previous);
  }

  lemma ApproachAuthorises(r: Run, e: Env, a: Attempt, previous: Receipt)
    requires r.ok && JustChose(r.log, a.cycle, e.recorded, previous, a.target)
    requires a.source == Comparison(e.recorded, previous) && Approach(r, e, a).ok
    ensures Authorised(Approach(r, e, a).log, |Approach(r, e, a).log|, a.target)
  {
    hide *;
    ApproachTrace(r, e, a);
    OpeningQuiet(e, a);
    GatesAuthorise(r.log, Opening(e, a)[..5], e.paired, e.keepAwake, SentryWord(e), GearWord(e), a.(phase := Installing),
                   e.recorded, previous);
  }

  lemma JustChoseLength(log: seq<Event>, cycle: string, recorded: string, previous: Receipt, target: string)
    requires JustChose(log, cycle, recorded, previous, target)
    ensures |log| >= 3
  {
  }

  lemma AttemptKeeps(s: State, r: Run, e: Env, a: Attempt, previous: Receipt)
    requires Inv(s) && r.ok && r.log == s.log && JustChose(r.log, a.cycle, e.recorded, previous, a.target)
    requires a.source == Comparison(e.recorded, previous)
    ensures Inv(State(s.markers, Attempted(r, e, a).receipt, Attempted(r, e, a).log))
  {
    var p, done := Approach(r, e, a), Attempted(r, e, a);
    ApproachTrace(r, e, a);
    AttemptedTrace(r, e, a);
    hide *;
    var near := State(s.markers, p.receipt, p.log);
    var end := State(s.markers, done.receipt, done.log);
    InvQuiet(s, near);
    if p.ok {
      ApproachAuthorises(r, e, a, previous);
      InvReplacement(near, a.target, e.replaced);
      InvQuiet(near.(log := p.log + [Replaced(a.target, e.replaced)]), end);
    } else {
      InvReceipt(near, end);
    }
  }

  lemma InvReplacement(s: State, target: string, ok: bool)
    requires Inv(s) && Authorised(s.log, |s.log|, target)
    ensures Inv(s.(log := s.log + [Replaced(target, ok)]))
  {
    ReplacementKeeps(s.log, target, ok);
    hide Safe, Authorised;
  }

  lemma InvReceipt(s: State, t: State)
    requires Inv(s) && t.log == s.log && t.markers == s.markers
    ensures Inv(t)
  {
  }

  lemma ClosedKeeps(s: State, r: Run, a: Attempt, e: Env)
    requires Inv(State(s.markers, r.receipt, r.log))
    ensures Inv(Closed(s, r, a, e))
  {
    InvQuiet(State(s.markers, r.receipt, r.log), Closed(s, r, a, e));
  }

  lemma UpdatedKeeps(s: State, e: Env)
    requires Inv(s) && e.cycle.Some?
    requires |s.log| >= 2 && s.log[|s.log| - 2] == Claimed(e.cycle.value.id) && s.log[|s.log| - 1] == Rechecked(true)
    ensures Inv(Updated(s, e))
  {
    hide Inv, Closed, Attempted, Newer, NumericVersion;
    var current := Comparison(e.recorded, s.receipt);
    var a := Attempt(e.cycle.value.boot, e.cycle.value.id, current, "", Preparing);
    if Settled(s.receipt) {
      match LatestStable(current, e.release)
      case None => ClosedKeeps(s, Run(s.log, s.receipt, false), a, e);
      case Some(None) =>
      case Some(Some(target)) =>
        var log := s.log + [Chose(e.recorded, s.receipt, target)];
        var chosen := Run(log, s.receipt, true);
        InvQuiet(s, s.(log := log));
        StableIsNewer(current, e.release.value);
        assert JustChose(log, a.cycle, e.recorded, s.receipt, target);
        AttemptKeeps(s.(log := log), chosen, e, a.(target := target), s.receipt);
        ClosedKeeps(s, Attempted(chosen, e, a.(target := target)), a.(target := target), e);
    }
  }

  lemma StableIsNewer(current: string, r: Release)
    ensures Newer(current, r.tag, r.draft, r.prerelease) ==> Newer(current, r.tag, false, false)
  {
  }

  lemma CoordinatedKeeps(s: State, e: Env)
    requires Inv(s)
    ensures Inv(Coordinated(s, e))
  {
    hide Inv, Updated, ValidId;
    if Claims(s, e) {
      var id := e.cycle.value.id;
      ClaimKeeps(s, id);
      var claimed := State(s.markers + {id}, s.receipt, s.log + [Claimed(id)]);
      var checked := claimed.(log := claimed.log + [Rechecked(e.recheckFirst)]);
      InvQuiet(claimed, checked);
      if e.recheckFirst {
        UpdatedKeeps(checked, e);
      }
    }
  }

  // ---- Histories ------------------------------------------------------------------

  /** A coordinator run, possibly cut off by a stop of the machine after some of its
      operations: a prefix of its events, with the claim marker if it got that
      far. The receipt may be anything, as startup recovery and manual repair
      rewrite it between runs. */
  ghost predicate Step(s: State, t: State) {
    exists e :: Cut(s, Coordinated(s, e), t)
  }

  ghost predicate Cut(s: State, whole: State, t: State) {
    s.log <= t.log <= whole.log && t.markers == (if t.log == s.log then s.markers else whole.markers)
  }

  ghost predicate History(run: seq<State>) {
    && |run| > 0 && run[0].log == []
    && forall i, j :: 0 <= i && j == i + 1 < |run| ==> Step(run[i], run[j])
  }

  lemma PrefixSafe(log: seq<Event>, n: nat)
    requires Safe(log) && n <= |log|
    ensures Safe(log[..n])
  {
    hide Authorised;
    forall i | 0 <= i < n && log[..n][i].Replaced? ensures Authorised(log[..n][..i], i, log[..n][i].target) {
      assert log[..n][..i] == log[..i];
    }
  }

  lemma CutKeeps(s: State, whole: State, t: State)
    requires Inv(s) && Inv(whole) && Cut(s, whole, t)
    ensures Inv(t)
  {
    PrefixSafe(whole.log, |t.log|);
    assert whole.log[..|t.log|] == t.log;
    hide Safe;
  }

  /** Over every history of runs, failures, machine stops and outside repairs: no
      live file is replaced without authorisation, and no cycle is claimed twice. */
  lemma {:induction false} EveryHistory(run: seq<State>, n: nat)
    requires History(run) && n < |run|
    ensures Inv(run[n])
  {
    if n > 0 {
      EveryHistory(run, n - 1);
      hide Coordinated, Cut, Safe;
      var s, t := run[n - 1], run[n];
      assert Step(s, t);
      var e :| Cut(s, Coordinated(s, e), t);
      CoordinatedKeeps(s, e);
      CutKeeps(s, Coordinated(s, e), t);
    }
  }

  // ---- Exactly when a run replaces files ----------------------------------------------

  /** The version the last attempt established: what the version file names, unless an
      attempt on exactly that version was not verified; then what it started from. */
  function Established(recorded: string, receipt: Receipt): string {
    match receipt
    case Stored(a) => if a.target == recorded && a.phase != Verified then a.source else recorded
    case _ => recorded
  }

  /** Everything that has to go well, as a list of independent conditions. */
  predicate Cleared(s: State, e: Env) {
    && e.ready && e.cycle.Some? && e.validAtStart && e.admitted && ValidId(e.cycle.value.id) && e.cycle.value.id !in s.markers && e.markerIo
    && e.enabled == Some(true) && e.cycle.value.eligible && e.cycle.value.archived > 0 && e.recheckFirst
    && !s.receipt.Unreadable? && (s.receipt.Stored? ==> s.receipt.a.phase in [Verified, Failed, Interrupted])
    && e.release.Some? && !e.release.value.draft && !e.release.value.prerelease
    && Newer(Established(e.recorded, s.receipt), e.release.value.tag, false, false)
    && e.savePreparing == Written && e.staged && e.recheckStaged && e.work && e.notice && e.looked && e.stopped
    && (e.paired && !e.keepAwake ==> e.sentry.Some? && Trim(e.sentry.value) == "Off")
    && (e.paired ==> e.gear.Some? && Trim(e.gear.value) == "P")
    && e.recheckLast && e.locked && e.validUnderLock && e.plan && e.hashed && e.saveInstalling == Written
  }

  ghost predicate Replaces(s: State, t: State) {
    exists i :: |s.log| <= i < |t.log| && t.log[i].Replaced?
  }

  lemma ApproachIff(r: Run, e: Env, a: Attempt)
    requires r.ok && !r.receipt.Unreadable?
    ensures Approach(r, e, a).ok <==>
            && e.savePreparing == Written && e.staged && e.recheckStaged && e.work && e.notice && e.looked
            && e.stopped && (e.paired && !e.keepAwake ==> Says(e.sentry, "Off")) && (e.paired ==> Says(e.gear, "P")) && e.recheckLast
            && e.locked && e.validUnderLock && e.plan && e.hashed && e.saveInstalling == Written
  {
  }

  lemma UpdatedIff(s: State, e: Env)
    requires e.cycle.Some?
    ensures Replaces(s, Updated(s, e)) <==>
            && Settled(s.receipt) && e.release.Some?
            && Newer(Comparison(e.recorded, s.receipt), e.release.value.tag, e.release.value.draft, e.release.value.prerelease)
            && Approach(Run(s.log + [Chose(e.recorded, s.receipt, e.release.value.tag)], s.receipt, true), e,
                        Attempt(e.cycle.value.boot, e.cycle.value.id, Comparison(e.recorded, s.receipt), e.release.value.tag, Preparing)).ok
  {
    hide NumericVersion, Approach, Attempted;
    var current := Comparison(e.recorded, s.receipt);
    if Settled(s.receipt) && LatestStable(current, e.release).Some? && LatestStable(current, e.release).value.Some? {
      var target := LatestStable(current, e.release).value.value;
      var a := Attempt(e.cycle.value.boot, e.cycle.value.id, current, target, Preparing);
      var chosen := Run(s.log + [Chose(e.recorded, s.receipt, target)], s.receipt, true);
      ApproachTrace(chosen, e, a);
      AttemptedTrace(chosen, e, a);
      var p := Approach(chosen, e, a);
      if p.ok {
        assert (p.log + [Replaced(a.target, e.replaced)])[|p.log|].Replaced?;
        assert Updated(s, e).log[|p.log|].Replaced?;
      }
    }
  }

  /** A run starts replacing files exactly when every check, query and save before that succeeds. */
  lemma ReplacesIffCleared(s: State, e: Env)
    ensures Replaces(s, Coordinated(s, e)) <==> Cleared(s, e)
  {
    hide Updated, ValidId, Approach, NumericVersion, Trim;
    if Claims(s, e) && Eligible(e) && e.recheckFirst {
      var id := e.cycle.value.id;
      var checked := State(s.markers + {id}, s.receipt, s.log + [Claimed(id)] + [Rechecked(true)]);
      UpdatedIff(checked, e);
      UpdatedExtends(checked, e);
      assert Coordinated(s, e) == Updated(checked, e);
      assert Replaces(s, Coordinated(s, e)) <==> Replaces(checked, Coordinated(s, e));
      if Settled(s.receipt) && e.release.Some? {
        ApproachIff(Run(checked.log + [Chose(e.recorded, s.receipt, e.release.value.tag)], s.receipt, true), e,
                    Attempt(e.cycle.value.boot, e.cycle.value.id, Comparison(e.recorded, s.receipt), e.release.value.tag, Preparing));
      }
    }
  }

  lemma UpdatedExtends(s: State, e: Env)
    requires e.cycle.Some?
    ensures s.log <= Updated(s, e).log
  {
    hide NumericVersion, Newer, Attempted, Approach;
    var current := Comparison(e.recorded, s.receipt);
    if Settled(s.receipt) && LatestStable(current, e.release).Some? && LatestStable(current, e.release).value.Some? {
      var target := LatestStable(current, e.release).value.value;
      var a := Attempt(e.cycle.value.boot, e.cycle.value.id, current, target, Preparing);
      var chosen := Run(s.log + [Chose(e.recorded, s.receipt, target)], s.receipt, true);
      ApproachTrace(chosen, e, a);
      AttemptedTrace(chosen, e, a);
    }
  }

  // ---- What a run leaves behind --------------------------------------------------

  /** Everything after the gates went well and the machine went down. */
  predicate WentDown(e: Env) {
    e.replaced && e.armed && e.saveAwaiting == Written && e.rebootRequested && e.rebootCame
  }

  /** A run that started replacing files leaves a receipt for its own target. If the
      machine went down it awaits the reboot; otherwise, also when a requested
      reboot never came, it says failed as soon as that can be written, and until
      then it is unfinished and keeps the next run from starting. */
  lemma OutcomeRecorded(s: State, e: Env)
    requires Cleared(s, e)
    ensures
      var receipt := Coordinated(s, e).receipt;
      && receipt.Stored? && receipt.a.target == e.release.value.tag && receipt.a.cycle == e.cycle.value.id
      && (WentDown(e) ==> receipt.a.phase == AwaitingReboot)
      && (!WentDown(e) && e.saveFailed != NotWritten ==> receipt.a.phase == Failed)
      && (receipt.a.phase == Failed || !Settled(receipt))
  {
    hide ValidId, NumericVersion, Trim, Approach, Attempted;
    var current, target := Comparison(e.recorded, s.receipt), e.release.value.tag;
    var a := Attempt(e.cycle.value.boot, e.cycle.value.id, current, target, Preparing);
    var log := s.log + [Claimed(e.cycle.value.id)] + [Rechecked(true)] + [Chose(e.recorded, s.receipt, target)];
    var chosen := Run(log, s.receipt, true);
    assert LatestStable(current, e.release) == Some(Some(target)) by {
      NewerHasNumbers(current, e.release.value);
    }
    assert Coordinated(s, e).receipt == Closed(s, Attempted(chosen, e, a), a, e).receipt;
    ApproachIff(chosen, e, a);
    AttemptReceipt(chosen, e, a);
  }

  /** A run that found no usable release says so in the receipt; one that found nothing
      newer leaves the receipt alone; one that chose a target and did not bring the
      machine down ends with a failed receipt for it, as far as that can be written.
      A run that does not get that far changes no receipt, and the marker of a cycle is
      set exactly by the run that claims it. */
  lemma ReceiptIff(s: State, e: Env)
    ensures
      var t := Coordinated(s, e);
      var attempts := Claims(s, e) && Eligible(e) && e.recheckFirst && Settled(s.receipt);
      && (t.markers == if Claims(s, e) then s.markers + {e.cycle.value.id} else s.markers)
      && (!attempts ==> t.receipt == s.receipt)
      && (attempts ==>
            var current := Comparison(e.recorded, s.receipt);
            var found := e.release.Some? && NumericVersion(current).Some? && NumericVersion(e.release.value.tag).Some?;
            var a := Attempt(e.cycle.value.boot, e.cycle.value.id, current, "", Failed);
            && (!found && e.saveFailed != NotWritten ==> t.receipt == Stored(a))
            && (found && !Newer(current, e.release.value.tag, e.release.value.draft, e.release.value.prerelease) ==> t.receipt == s.receipt)
            && (found && Newer(current, e.release.value.tag, e.release.value.draft, e.release.value.prerelease)
                && (!Cleared(s, e) || !WentDown(e)) && e.saveFailed != NotWritten ==>
                  t.receipt == Stored(a.(target := e.release.value.tag))))
  {
    hide ValidId, NumericVersion, Newer, Trim, Approach, Attempted;
    if Claims(s, e) && Eligible(e) && e.recheckFirst && Settled(s.receipt) {
      var current := Comparison(e.recorded, s.receipt);
      if e.release.Some? && NumericVersion(current).Some? && NumericVersion(e.release.value.tag).Some?
         && Newer(current, e.release.value.tag, e.release.value.draft, e.release.value.prerelease) {
        var target := e.release.value.tag;
        var a := Attempt(e.cycle.value.boot, e.cycle.value.id, current, target, Preparing);
        var log := s.log + [Claimed(e.cycle.value.id)] + [Rechecked(true)] + [Chose(e.recorded, s.receipt, target)];
        AttemptEnds(Run(log, s.receipt, true), e, a);
        StableIsNewer(current, e.release.value);
        NotDraft(current, e.release.value);
      }
    }
  }

  lemma NotDraft(current: string, r: Release)
    requires Newer(current, r.tag, r.draft, r.prerelease)
    ensures !r.draft && !r.prerelease
  {
  }

  lemma AttemptEnds(r: Run, e: Env, a: Attempt)
    requires r.ok && !r.receipt.Unreadable?
    ensures Attempted(r, e, a).ok <==> Approach(r, e, a).ok && WentDown(e)
    ensures !Attempted(r, e, a).receipt.Unreadable?
    ensures Approach(r, e, a).ok <==>
            && e.savePreparing == Written && e.staged && e.recheckStaged && e.work && e.notice && e.looked
            && e.stopped && (e.paired && !e.keepAwake ==> Says(e.sentry, "Off")) && (e.paired ==> Says(e.gear, "P")) && e.recheckLast
            && e.locked && e.validUnderLock && e.plan && e.hashed && e.saveInstalling == Written
  {
    ApproachIff(r, e, a);
    NeverUnreadable(r, e, a);
    if Approach(r, e, a).ok {
      AttemptReceipt(r, e, a);
    } else {
      assert Attempted(r, e, a) == Finished(Did(Approach(r, e, a), Replaced(a.target, e.replaced), e.replaced), e, a);
      hide Approach, Attempted;
    }
  }

  lemma NeverUnreadable(r: Run, e: Env, a: Attempt)
    requires !r.receipt.Unreadable?
    ensures !Attempted(r, e, a).receipt.Unreadable?
  {
    StagesReadable(r, e, a);
    StagesReadable(Prepared(r, e, a), e, a);
    StagesReadable(Gated(Prepared(r, e, a), e), e, a);
    StagesReadable(UnderLock(Gated(Prepared(r, e, a), e), e), e, a);
    StagesReadable(Committed(UnderLock(Gated(Prepared(r, e, a), e), e), e, a), e, a);
    hide Prepared, Gated, UnderLock, Committed, Finished;
  }

  lemma StagesReadable(r: Run, e: Env, a: Attempt)
    requires !r.receipt.Unreadable?
    ensures !Prepared(r, e, a).receipt.Unreadable? && !Gated(r, e).receipt.Unreadable? && !UnderLock(r, e).receipt.Unreadable?
    ensures !Committed(r, e, a).receipt.Unreadable? && !Finished(r, e, a).receipt.Unreadable?
  {
  }

  lemma NewerHasNumbers(current: string, r: Release)
    requires Newer(current, r.tag, r.draft, r.prerelease)
    ensures NumericVersion(current).Some? && NumericVersion(r.tag).Some?
  {
  }

  lemma AttemptReceipt(r: Run, e: Env, a: Attempt)
    requires r.ok && Approach(r, e, a).ok
    ensures
      var done := Attempted(r, e, a);
      && (done.ok <==> WentDown(e))
      && done.receipt.Stored?
      && (done.receipt.a == a.(phase := Installing) || done.receipt.a == a.(phase := AwaitingReboot))
      && (WentDown(e) ==> done.receipt.a == a.(phase := AwaitingReboot))
  {
    var p := Approach(r, e, a);
    ApproachReceipt(r, e, a);
    assert Attempted(r, e, a) == Finished(Did(p, Replaced(a.target, e.replaced), e.replaced), e, a);
    hide Approach, Attempted;
  }

  lemma ApproachReceipt(r: Run, e: Env, a: Attempt)
    requires Approach(r, e, a).ok
    ensures Approach(r, e, a).receipt == Stored(a.(phase := Installing))
  {
    hide Prepared, Gated, UnderLock;
  }

  /** A failed attempt may be retried even though the version file already names
      its target: the comparison goes back to the version the attempt started from. */
  lemma FailedTargetStaysNewer(s: State, e: Env, target: string)
    requires Settled(s.receipt) && s.receipt.Stored? && s.receipt.a.phase != Verified
    requires s.receipt.a.target == e.recorded == target && Newer(s.receipt.a.source, target, false, false)
    requires e.release == Some(Release(target, false, false))
    ensures LatestStable(Comparison(e.recorded, s.receipt), e.release) == Some(Some(target))
    ensures LatestStable(e.recorded, e.release) == Some(None)
  {
  }
}
