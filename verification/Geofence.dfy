/** The debounced geofence of automatic Away Mode: a home/away flip is committed
    only after enough adjacent readings agree. */
module Geofence {
  import opened Options

  const CONFIRM_TICKS: nat := 2

  /** Committed decision, candidate awaiting confirmation, and its count so far. */
  datatype Fence = Fence(last: Option<bool>, pending: Option<bool>, count: nat)

  /** `fold_geofence`: the decision of one reading, None meaning no flip. */
  function Fold(f: Fence, candidate: Option<bool>, confirm: nat): (r: (Fence, Option<bool>))
    ensures r.0.last == f.last
  {
    if candidate.None? || candidate == f.last then (Fence(f.last, None, 0), None)
    else
      // `saturating_add` on a byte.
      var count := if f.pending == candidate then (if f.count >= 255 then 255 else f.count + 1) else 1;
      if count >= confirm then (Fence(f.last, None, 0), candidate) else (Fence(f.last, candidate, count), None)
  }

  /** One tick of a watcher: fold the reading and commit a flip. */
  function Tick(f: Fence, candidate: Option<bool>, confirm: nat): Fence {
    var (g, decision) := Fold(f, candidate, confirm);
    if decision.Some? then g.(last := decision) else g
  }

  function Ticks(seed: Option<bool>, readings: seq<Option<bool>>, confirm: nat): Fence {
    if readings == [] then Fence(seed, None, 0)
    else Tick(Ticks(seed, readings[..|readings| - 1], confirm), readings[|readings| - 1], confirm)
  }

  // ---- What the readings say ---------------------------------------------------

  /** `confirm` adjacent readings ending just before `end` all say `v`. */
  predicate RunEndsAt(readings: seq<Option<bool>>, end: nat, v: bool, confirm: nat) {
    confirm <= end <= |readings| && forall i :: end - confirm <= i < end ==> readings[i] == Some(v)
  }

  /** `v` is the value of the most recent full run, or the seed when there is none. */
  ghost predicate MostRecentRun(seed: Option<bool>, readings: seq<Option<bool>>, confirm: nat, v: Option<bool>) {
    || (exists end, b :: RunEndsAt(readings, end, b, confirm) && v == Some(b)
                         && forall later, c :: end < later ==> !RunEndsAt(readings, later, c, confirm))
    || (v == seed && forall end, b :: !RunEndsAt(readings, end, b, confirm))
  }

  /** The last `n` readings all say `v`. */
  predicate TailIs(readings: seq<Option<bool>>, n: nat, v: bool) {
    n <= |readings| && forall i :: |readings| - n <= i < |readings| ==> readings[i] == Some(v)
  }

  /** The pending candidate never is the committed value, is short of the
      threshold, and counts exactly the readings at the end that agree with it. */
  predicate PendingOk(f: Fence, readings: seq<Option<bool>>, confirm: nat) {
    match f.pending
    case None => f.count == 0 && (readings != [] && readings[|readings| - 1].Some? ==> readings[|readings| - 1] == f.last)
    case Some(v) =>
      && f.last != Some(v) && 1 <= f.count < confirm && TailIs(readings, f.count, v)
      && (f.count < |readings| ==> readings[|readings| - f.count - 1] != Some(v))
  }

  lemma RunsBefore(readings: seq<Option<bool>>, r: Option<bool>, end: nat, v: bool, confirm: nat)
    ensures end <= |readings| ==> (RunEndsAt(readings + [r], end, v, confirm) <==> RunEndsAt(readings, end, v, confirm))
  {
    var all := readings + [r];
    if end <= |readings| {
      assert forall i :: 0 <= i < end ==> all[i] == readings[i];
    }
  }

  /** A full run ends with the newest reading exactly when it agrees with enough before it. */
  lemma NewestRun(f: Fence, readings: seq<Option<bool>>, r: Option<bool>, confirm: nat, v: bool)
    requires 1 <= confirm <= 255 && PendingOk(f, readings, confirm)
    ensures RunEndsAt(readings + [r], |readings| + 1, v, confirm) ==>
              r == Some(v) && (f.last == Some(v) || Fold(f, r, confirm).1 == Some(v))
    ensures Fold(f, r, confirm).1 == Some(v) ==> RunEndsAt(readings + [r], |readings| + 1, v, confirm)
    ensures PendingOk(Tick(f, r, confirm), readings + [r], confirm)
  {
    var all, n := readings + [r], |readings|;
    assert forall i :: 0 <= i < n ==> all[i] == readings[i];
    assert all[n] == r;
    if RunEndsAt(all, n + 1, v, confirm) {
      if confirm > 1 {
        assert all[n - 1] == Some(v);
      }
      if f.pending == Some(v) {
        assert n - f.count - 1 < n + 1 - confirm;
      }
    }
  }

  /** Over every sequence of readings of one watcher, the committed value is that
      of the most recent run of `confirm` adjacent equal definite readings, or the
      seed when there was none; the pending state stays below the threshold and
      never equals the committed value. */
  lemma {:induction false} Debounced(seed: Option<bool>, readings: seq<Option<bool>>, confirm: nat)
    requires 1 <= confirm <= 255
    ensures MostRecentRun(seed, readings, confirm, Ticks(seed, readings, confirm).last)
    ensures PendingOk(Ticks(seed, readings, confirm), readings, confirm)
  {
    if readings != [] {
      var n := |readings| - 1;
      var before, r := readings[..n], readings[n];
      assert readings == before + [r];
      Debounced(seed, before, confirm);
      var f := Ticks(seed, before, confirm);
      NewestRun(f, before, r, confirm, true);
      NewestRun(f, before, r, confirm, false);
      Committed(seed, before, r, f, confirm);
    }
  }

  /** The decision of the newest reading, added to what was known before it. */
  lemma Committed(seed: Option<bool>, before: seq<Option<bool>>, r: Option<bool>, f: Fence, confirm: nat)
    requires 1 <= confirm <= 255 && MostRecentRun(seed, before, confirm, f.last)
    requires forall v :: RunEndsAt(before + [r], |before| + 1, v, confirm) ==>
               r == Some(v) && (f.last == Some(v) || Fold(f, r, confirm).1 == Some(v))
    requires forall v :: Fold(f, r, confirm).1 == Some(v) ==> RunEndsAt(before + [r], |before| + 1, v, confirm)
    ensures MostRecentRun(seed, before + [r], confirm, Tick(f, r, confirm).last)
  {
    hide Fold, RunEndsAt;
    var all, n := before + [r], |before| + 1;
    forall end: nat, v ensures end < n ==> (RunEndsAt(all, end, v, confirm) <==> RunEndsAt(before, end, v, confirm)) {
      RunsBefore(before, r, end, v, confirm);
    }
    forall end: nat, v | end > n ensures !RunEndsAt(all, end, v, confirm) {
      RunsFit(all, end, v, confirm);
    }
    if RunEndsAt(all, n, true, confirm) {
      assert Tick(f, r, confirm).last == Some(true);
    } else if RunEndsAt(all, n, false, confirm) {
      assert Tick(f, r, confirm).last == Some(false);
    } else {
      assert Tick(f, r, confirm).last == f.last;
      forall end: nat, v | end >= n ensures !RunEndsAt(before, end, v, confirm) && !RunEndsAt(all, end, v, confirm) {
        RunsFit(before, end, v, confirm);
      }
    }
  }

  lemma RunsFit(readings: seq<Option<bool>>, end: nat, v: bool, confirm: nat)
    ensures end > |readings| ==> !RunEndsAt(readings, end, v, confirm)
  {
  }

  /** The in-place update of the source: pending and count are written back, a flip is returned. */
  method FoldInPlace(candidate: Option<bool>, last: Option<bool>, pending: Option<bool>, count: nat)
    returns (newPending: Option<bool>, newCount: nat, decision: Option<bool>)
    ensures (Fence(last, newPending, newCount), decision) == Fold(Fence(last, pending, count), candidate, CONFIRM_TICKS)
  {
    newPending, newCount, decision := None, 0, None;
    if candidate.None? || candidate == last {
      return;
    }
    if pending == candidate {
      newPending, newCount := pending, if count >= 255 then 255 else count + 1;
    } else {
      newPending, newCount := candidate, 1;
    }
    if newCount >= CONFIRM_TICKS {
      newPending, newCount, decision := None, 0, candidate;
    }
  }
}
