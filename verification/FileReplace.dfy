/** The file transaction of the update installer: every live file is backed up,
    then replaced by renaming its staged successor over it; on any error the
    replacements are undone in reverse. Any operation may fail, and the machine
    may stop after any of them. */
module FileReplace {
  import opened Options

  type Path = string
  datatype Content = Regular(data: string) | Symlink(target: Path)
  type Files = map<Path, Content>

  /** A staged file and the live path it replaces. */
  datatype Replacement = Replacement(source: Path, dest: Path)

  function Get(fs: Files, p: Path): Option<Content> {
    if p in fs then Some(fs[p]) else None
  }

  /** Backup names are distinct and are neither sources nor destinations, and no
      destination is a source. Destinations may repeat. */
  predicate Separate(plan: seq<Replacement>, backupOf: Path -> Path) {
    && (forall i, j :: 0 <= i < |plan| && 0 <= j < |plan| ==>
          && backupOf(plan[i].source) != plan[j].source && backupOf(plan[i].source) != plan[j].dest
          && plan[i].source != plan[j].dest)
    && (forall i, j :: 0 <= i < j < |plan| ==> backupOf(plan[i].source) != backupOf(plan[j].source))
  }

  /** One completed replacement. */
  function Replaced(fs: Files, r: Replacement, backupOf: Path -> Path): Files
    requires r.source in fs
  {
    Saved(fs, r, backupOf)[r.dest := fs[r.source]] - {r.source}
  }

  /** The old content of the destination, if any, is copied aside. */
  function Saved(fs: Files, r: Replacement, backupOf: Path -> Path): Files {
    if r.dest in fs then fs[backupOf(r.source) := fs[r.dest]] else fs
  }

  /** The files after the first `k` replacements; stuck where a source is missing. */
  function After(fs: Files, plan: seq<Replacement>, k: nat, backupOf: Path -> Path): Files
    requires k <= |plan|
  {
    if k == 0 then fs
    else
      var before := After(fs, plan, k - 1, backupOf);
      if plan[k - 1].source in before then Replaced(before, plan[k - 1], backupOf) else before
  }

  /** Every destination has the content it had after `k` replacements. */
  predicate DestsAt(fs: Files, plan: seq<Replacement>, at: Files) {
    forall i :: 0 <= i < |plan| ==> Get(fs, plan[i].dest) == Get(at, plan[i].dest)
  }

  /** What replacement `i` overwrote is saved under its backup name. */
  predicate SavedAt(fs: Files, start: Files, plan: seq<Replacement>, i: nat, backupOf: Path -> Path)
    requires i < |plan|
  {
    var before := After(start, plan, i, backupOf);
    plan[i].dest in before ==> Get(fs, backupOf(plan[i].source)) == Some(before[plan[i].dest])
  }

  /** A path the transaction has no business with. */
  predicate Bystander(p: Path, plan: seq<Replacement>, backupOf: Path -> Path) {
    forall i :: 0 <= i < |plan| ==> p != plan[i].source && p != plan[i].dest && p != backupOf(plan[i].source)
  }

  ghost predicate BystandersKept(fs: Files, start: Files, plan: seq<Replacement>, backupOf: Path -> Path) {
    forall p :: Bystander(p, plan, backupOf) ==> Get(fs, p) == Get(start, p)
  }

  /** Exactly `k` replacements are visible: every destination has, in full, the
      content it had after `k` replacements, each content overwritten on the way
      is still saved under its backup name, and no other path was touched. */
  ghost predicate Recoverable(fs: Files, start: Files, plan: seq<Replacement>, k: nat, backupOf: Path -> Path) {
    && k <= |plan|
    && DestsAt(fs, plan, After(start, plan, k, backupOf))
    && (forall i :: 0 <= i < k ==> SavedAt(fs, start, plan, i, backupOf))
    && BystandersKept(fs, start, plan, backupOf)
  }

  /** Some prefix of the plan is visible. */
  ghost predicate AtSomePrefix(fs: Files, start: Files, plan: seq<Replacement>, backupOf: Path -> Path) {
    exists k :: Recoverable(fs, start, plan, k, backupOf)
  }

  /** The destination has, in full, its content after some number of replacements. */
  ghost predicate Whole(fs: Files, start: Files, plan: seq<Replacement>, i: nat, backupOf: Path -> Path)
    requires i < |plan|
  {
    exists k: nat :: k <= |plan| && Get(fs, plan[i].dest) == Get(After(start, plan, k, backupOf), plan[i].dest)
  }

  /** No earlier replacement has the same destination. */
  predicate FirstFor(plan: seq<Replacement>, i: nat) {
    i < |plan| && forall j :: 0 <= j < i ==> plan[j].dest != plan[i].dest
  }

  /** The original of a destination is in place, or was absence, or is under the
      backup name of the replacement that overwrote it. */
  predicate OriginalKept(fs: Files, start: Files, plan: seq<Replacement>, i: nat, backupOf: Path -> Path)
    requires i < |plan|
  {
    var d := plan[i].dest;
    Get(fs, d) == Get(start, d) || d !in start || Get(fs, backupOf(plan[i].source)) == Get(start, d)
  }

  /** What holds at every moment, whichever operations have failed: no destination
      is half written, no original is lost, and no other path was touched. */
  ghost predicate Unharmed(fs: Files, start: Files, plan: seq<Replacement>, backupOf: Path -> Path) {
    && (forall i :: 0 <= i < |plan| ==> Whole(fs, start, plan, i, backupOf))
    && (forall i :: 0 <= i < |plan| && FirstFor(plan, i) ==> OriginalKept(fs, start, plan, i, backupOf))
    && BystandersKept(fs, start, plan, backupOf)
  }

  // ---- One step forward, one step back -----------------------------------------

  /** Two file systems that differ at one path only, or not at all. */
  predicate SameExcept(a: Files, b: Files, paths: set<Path>) {
    forall p :: p in a.Keys + b.Keys && p !in paths ==> Get(a, p) == Get(b, p)
  }

  /** A change confined to replacement `k`'s own three names. */
  lemma KeepsSaves(fs: Files, now: Files, start: Files, plan: seq<Replacement>, k: nat, backupOf: Path -> Path)
    requires Separate(plan, backupOf) && k < |plan|
    requires SameExcept(fs, now, {plan[k].source, plan[k].dest, backupOf(plan[k].source)})
    requires forall i :: 0 <= i < k ==> SavedAt(fs, start, plan, i, backupOf)
    requires BystandersKept(fs, start, plan, backupOf)
    ensures forall i :: 0 <= i < k ==> SavedAt(now, start, plan, i, backupOf)
    ensures BystandersKept(now, start, plan, backupOf)
  {
    hide After;
    forall i | 0 <= i < k ensures SavedAt(now, start, plan, i, backupOf) {
      var b := backupOf(plan[i].source);
      assert SavedAt(fs, start, plan, i, backupOf);
      assert b != plan[k].source && b != plan[k].dest && b != backupOf(plan[k].source);
      assert Get(now, b) == Get(fs, b);
    }
    forall p | Bystander(p, plan, backupOf) ensures Get(now, p) == Get(start, p) {
      assert Get(now, p) == Get(fs, p);
    }
  }

  /** Writing anything at a backup name that is not yet in use keeps a state recoverable. */
  lemma ScratchHarmless(fs: Files, start: Files, plan: seq<Replacement>, k: nat, backupOf: Path -> Path, c: Content)
    requires Recoverable(fs, start, plan, k, backupOf) && Separate(plan, backupOf) && k < |plan|
    ensures Recoverable(fs[backupOf(plan[k].source) := c], start, plan, k, backupOf)
  {
    hide After, BystandersKept, SavedAt;
    KeepsSaves(fs, fs[backupOf(plan[k].source) := c], start, plan, k, backupOf);
  }

  /** Only replacement `k`'s destination moves between `After(k)` and `After(k + 1)`. */
  lemma DestsStep(start: Files, plan: seq<Replacement>, k: nat, backupOf: Path -> Path, i: nat)
    requires Separate(plan, backupOf) && k < |plan| && i < |plan| && plan[k].source in After(start, plan, k, backupOf)
    ensures
      var before, after := After(start, plan, k, backupOf), After(start, plan, k + 1, backupOf);
      Get(after, plan[i].dest) ==
      if plan[i].dest == plan[k].dest then Some(before[plan[k].source]) else Get(before, plan[i].dest)
  {
  }

  /** The rename that completes replacement `k`, once its backup is saved. */
  lemma Forward(fs: Files, start: Files, plan: seq<Replacement>, k: nat, backupOf: Path -> Path)
    requires Recoverable(fs, start, plan, k, backupOf) && Separate(plan, backupOf) && k < |plan|
    requires plan[k].source in fs && Get(fs, plan[k].source) == Get(After(start, plan, k, backupOf), plan[k].source)
    requires SavedAt(fs, start, plan, k, backupOf)
    ensures Recoverable(fs[plan[k].dest := fs[plan[k].source]] - {plan[k].source}, start, plan, k + 1, backupOf)
  {
    hide After, BystandersKept, Separate;
    var r := plan[k];
    var now := fs[r.dest := fs[r.source]] - {r.source};
    forall i | 0 <= i < |plan| ensures Get(now, plan[i].dest) == Get(After(start, plan, k + 1, backupOf), plan[i].dest) {
      DestsStep(start, plan, k, backupOf, i);
      NotSource(plan, k, i, backupOf);
    }
    KeepsSaves(fs, now, start, plan, k, backupOf);
    BackupApart(plan, k, backupOf);
  }

  lemma NotSource(plan: seq<Replacement>, k: nat, i: nat, backupOf: Path -> Path)
    requires Separate(plan, backupOf) && k < |plan| && i < |plan|
    ensures plan[k].source != plan[i].dest && backupOf(plan[k].source) != plan[i].dest
  {
  }

  /** Undoing replacement `k`: the backup goes back, or the new file goes away. */
  lemma Backward(fs: Files, start: Files, plan: seq<Replacement>, k: nat, backupOf: Path -> Path)
    requires Recoverable(fs, start, plan, k + 1, backupOf) && Separate(plan, backupOf) && k < |plan|
    requires plan[k].source in After(start, plan, k, backupOf)
    ensures
      var r := plan[k];
      var b := backupOf(r.source);
      if r.dest in After(start, plan, k, backupOf)
      then b in fs && Recoverable(fs[r.dest := fs[b]] - {b}, start, plan, k, backupOf)
      else r.dest in fs && Recoverable(fs - {r.dest}, start, plan, k, backupOf)
  {
    hide After, BystandersKept, Separate;
    var r := plan[k];
    var b := backupOf(r.source);
    var before := After(start, plan, k, backupOf);
    assert SavedAt(fs, start, plan, k, backupOf);
    DestsStep(start, plan, k, backupOf, k);
    assert Get(fs, r.dest) == Get(After(start, plan, k + 1, backupOf), r.dest);
    var now := if r.dest in before then fs[r.dest := fs[b]] - {b} else fs - {r.dest};
    BackupApart(plan, k, backupOf);
    forall i | 0 <= i < |plan| ensures Get(now, plan[i].dest) == Get(before, plan[i].dest) {
      DestsStep(start, plan, k, backupOf, i);
      NotSource(plan, k, i, backupOf);
    }
    KeepsSaves(fs, now, start, plan, k, backupOf);
  }

  /** Nothing replaced means everything as it was. */
  lemma NothingReplaced(fs: Files, start: Files, plan: seq<Replacement>, backupOf: Path -> Path)
    requires Recoverable(fs, start, plan, 0, backupOf)
    ensures forall i :: 0 <= i < |plan| ==> Get(fs, plan[i].dest) == Get(start, plan[i].dest)
  {
  }

  /** Every staged file is there when its turn comes. */
  predicate SourcesPresent(start: Files, plan: seq<Replacement>, backupOf: Path -> Path) {
    forall j :: 0 <= j < |plan| ==> plan[j].source in After(start, plan, j, backupOf)
  }

  /** No later replacement has the same destination. */
  predicate LastFor(plan: seq<Replacement>, i: nat) {
    i < |plan| && forall j :: i < j < |plan| ==> plan[j].dest != plan[i].dest
  }

  /** A staged file keeps its content until it is renamed away. */
  lemma {:induction false} SourceKept(start: Files, plan: seq<Replacement>, k: nat, m: nat, backupOf: Path -> Path)
    requires Separate(plan, backupOf) && k <= |plan| && m < |plan| && plan[m].source in After(start, plan, k, backupOf)
    ensures Get(After(start, plan, k, backupOf), plan[m].source) == Get(start, plan[m].source)
  {
    if k > 0 {
      var r := plan[k - 1];
      assert plan[m].source != r.dest && plan[m].source != backupOf(r.source);
      SourceKept(start, plan, k - 1, m, backupOf);
    }
  }

  /** When every source was there in its turn, a destination ends up with the
      staged content of its last replacement. */
  lemma {:induction false} FinalContent(start: Files, plan: seq<Replacement>, k: nat, i: nat, backupOf: Path -> Path)
    requires Separate(plan, backupOf) && i < k <= |plan|
    requires forall j :: 0 <= j < k ==> plan[j].source in After(start, plan, j, backupOf)
    requires forall j :: i < j < k ==> plan[j].dest != plan[i].dest
    ensures plan[i].source in start && Get(After(start, plan, k, backupOf), plan[i].dest) == Some(start[plan[i].source])
  {
    hide After;
    SourceKept(start, plan, i, i, backupOf);
    DestsStep(start, plan, k - 1, backupOf, i);
    if i < k - 1 {
      FinalContent(start, plan, k - 1, i, backupOf);
    }
  }

  // ---- When an undo fails --------------------------------------------------------

  /** Before its first replacement a destination is as it was. */
  lemma {:induction false} UntouchedSoFar(start: Files, plan: seq<Replacement>, k: nat, i: nat, backupOf: Path -> Path)
    requires Separate(plan, backupOf) && FirstFor(plan, i) && k <= i
    ensures Get(After(start, plan, k, backupOf), plan[i].dest) == Get(start, plan[i].dest)
  {
    if k > 0 {
      UntouchedSoFar(start, plan, k - 1, i, backupOf);
      NotSource(plan, k - 1, i, backupOf);
    }
  }

  lemma RecoverableUnharmed(fs: Files, start: Files, plan: seq<Replacement>, k: nat, backupOf: Path -> Path)
    requires Recoverable(fs, start, plan, k, backupOf) && Separate(plan, backupOf)
    ensures Unharmed(fs, start, plan, backupOf)
  {
    hide After, BystandersKept, Separate;
    forall i | 0 <= i < |plan| && FirstFor(plan, i) ensures OriginalKept(fs, start, plan, i, backupOf) {
      if i < k {
        assert SavedAt(fs, start, plan, i, backupOf);
        SavedOriginal(fs, start, plan, i, backupOf);
      } else {
        UntouchedSoFar(start, plan, k, i, backupOf);
      }
    }
  }

  lemma NotReachedYet(fs: Files, start: Files, plan: seq<Replacement>, k: nat, backupOf: Path -> Path)
    requires Recoverable(fs, start, plan, k, backupOf) && Separate(plan, backupOf)
    ensures forall i :: k <= i < |plan| && FirstFor(plan, i) ==> Get(fs, plan[i].dest) == Get(start, plan[i].dest)
  {
    hide After, BystandersKept, Separate, SavedAt;
    forall i | k <= i < |plan| && FirstFor(plan, i) ensures Get(fs, plan[i].dest) == Get(start, plan[i].dest) {
      UntouchedSoFar(start, plan, k, i, backupOf);
    }
  }

  /** The state of a rollback that has dealt with the replacements from `i` on,
      some of which may not have been undone. */
  ghost predicate Undoing(fs: Files, start: Files, plan: seq<Replacement>, i: nat, backupOf: Path -> Path) {
    && i <= |plan| && Unharmed(fs, start, plan, backupOf)
    && forall j :: 0 <= j < i ==> SavedAt(fs, start, plan, j, backupOf) && plan[j].dest in fs
  }

  /** A replaced destination exists from then on. */
  lemma {:induction false} DestPresent(start: Files, plan: seq<Replacement>, k: nat, j: nat, backupOf: Path -> Path)
    requires Separate(plan, backupOf) && j < k <= |plan| && plan[j].source in After(start, plan, j, backupOf)
    ensures plan[j].dest in After(start, plan, k, backupOf)
  {
    if j < k - 1 {
      DestPresent(start, plan, k - 1, j, backupOf);
      NotSource(plan, k - 1, j, backupOf);
    } else {
      BackupApart(plan, j, backupOf);
    }
  }

  lemma RecoverableUndoing(fs: Files, start: Files, plan: seq<Replacement>, k: nat, backupOf: Path -> Path)
    requires Recoverable(fs, start, plan, k, backupOf) && Separate(plan, backupOf)
    requires forall j :: 0 <= j < k ==> plan[j].source in After(start, plan, j, backupOf)
    ensures Undoing(fs, start, plan, k, backupOf)
  {
    RecoverableUnharmed(fs, start, plan, k, backupOf);
    hide After, Separate, Unharmed, BystandersKept, SavedAt;
    forall j | 0 <= j < k ensures plan[j].dest in fs {
      DestPresent(start, plan, k, j, backupOf);
      assert Get(fs, plan[j].dest) == Get(After(start, plan, k, backupOf), plan[j].dest);
    }
  }

  lemma UndoingUnharmed(fs: Files, start: Files, plan: seq<Replacement>, i: nat, backupOf: Path -> Path)
    requires Undoing(fs, start, plan, i, backupOf)
    ensures Unharmed(fs, start, plan, backupOf)
  {
  }

  /** What an undo needs is there. */
  lemma UndoPossible(fs: Files, start: Files, plan: seq<Replacement>, i: nat, backupOf: Path -> Path)
    requires i < |plan| && Undoing(fs, start, plan, i + 1, backupOf)
    ensures plan[i].dest in fs && (plan[i].dest in After(start, plan, i, backupOf) ==> backupOf(plan[i].source) in fs)
  {
    assert SavedAt(fs, start, plan, i, backupOf);
  }

  lemma SkipUndo(fs: Files, start: Files, plan: seq<Replacement>, i: nat, backupOf: Path -> Path)
    requires Undoing(fs, start, plan, i + 1, backupOf)
    ensures Undoing(fs, start, plan, i, backupOf)
  {
    hide Unharmed, SavedAt;
  }

  /** A successful undo of replacement `i`, whatever went wrong after it: its
      destination is back at what `i` overwrote, which is the original when `i`
      was the first. */
  lemma UndoOne(fs: Files, now: Files, start: Files, plan: seq<Replacement>, i: nat, backupOf: Path -> Path)
    requires Undoing(fs, start, plan, i + 1, backupOf) && Separate(plan, backupOf) && i < |plan|
    requires forall j :: 0 <= j < i ==> plan[j].source in After(start, plan, j, backupOf)
    requires
      var r := plan[i];
      var b := backupOf(r.source);
      if r.dest in After(start, plan, i, backupOf) then b in fs && now == fs[r.dest := fs[b]] - {b} else now == fs - {r.dest}
    ensures Undoing(now, start, plan, i, backupOf)
    ensures Get(now, plan[i].dest) == Get(After(start, plan, i, backupOf), plan[i].dest)
    ensures FirstFor(plan, i) ==> Get(now, plan[i].dest) == Get(start, plan[i].dest)
  {
    hide After, BystandersKept, Separate, OriginalKept, Whole;
    assert SavedAt(fs, start, plan, i, backupOf);
    BackupApart(plan, i, backupOf);
    assert Get(now, plan[i].dest) == Get(After(start, plan, i, backupOf), plan[i].dest);
    if FirstFor(plan, i) {
      UntouchedSoFar(start, plan, i, i, backupOf);
    }
    KeepsSaves(fs, now, start, plan, i, backupOf);
    hide SavedAt, SameExcept;
    forall j | 0 <= j < |plan| ensures Whole(now, start, plan, j, backupOf) {
      NotSource(plan, i, j, backupOf);
      WholeAfter(fs, now, start, plan, i, j, backupOf);
    }
    forall j | 0 <= j < i ensures plan[j].dest in now {
      NotSource(plan, i, j, backupOf);
      DestPresent(start, plan, i, j, backupOf);
    }
    forall j | 0 <= j < |plan| && FirstFor(plan, j) ensures OriginalKept(now, start, plan, j, backupOf) {
      if j < i {
        SavedOriginal(now, start, plan, j, backupOf);
      } else if j == i {
        InPlace(now, start, plan, i, backupOf);
      } else {
        OriginalStays(fs, now, start, plan, i, j, backupOf);
      }
    }
  }

  lemma InPlace(fs: Files, start: Files, plan: seq<Replacement>, i: nat, backupOf: Path -> Path)
    requires i < |plan| && Get(fs, plan[i].dest) == Get(start, plan[i].dest)
    ensures OriginalKept(fs, start, plan, i, backupOf)
  {
  }

  /** What the first replacement of a destination saved is its original. */
  lemma SavedOriginal(fs: Files, start: Files, plan: seq<Replacement>, i: nat, backupOf: Path -> Path)
    requires Separate(plan, backupOf) && FirstFor(plan, i) && SavedAt(fs, start, plan, i, backupOf)
    ensures OriginalKept(fs, start, plan, i, backupOf)
  {
    UntouchedSoFar(start, plan, i, i, backupOf);
    hide After;
  }

  lemma WholeAfter(fs: Files, now: Files, start: Files, plan: seq<Replacement>, i: nat, j: nat, backupOf: Path -> Path)
    requires i < |plan| && j < |plan| && Whole(fs, start, plan, j, backupOf)
    requires Get(now, plan[i].dest) == Get(After(start, plan, i, backupOf), plan[i].dest)
    requires plan[j].dest != plan[i].dest ==> Get(now, plan[j].dest) == Get(fs, plan[j].dest)
    ensures Whole(now, start, plan, j, backupOf)
  {
  }

  lemma OriginalStays(fs: Files, now: Files, start: Files, plan: seq<Replacement>, i: nat, j: nat, backupOf: Path -> Path)
    requires Separate(plan, backupOf) && i < j < |plan| && plan[i].dest != plan[j].dest && OriginalKept(fs, start, plan, j, backupOf)
    requires SameExcept(fs, now, {plan[i].source, plan[i].dest, backupOf(plan[i].source)})
    ensures OriginalKept(now, start, plan, j, backupOf)
  {
    var b, d := backupOf(plan[j].source), plan[j].dest;
    assert b != plan[i].source && b != plan[i].dest && b != backupOf(plan[i].source);
    assert d != plan[i].source && d != backupOf(plan[i].source);
    assert Get(now, b) == Get(fs, b) && Get(now, d) == Get(fs, d);
  }

  // ---- The disk ----------------------------------------------------------------

  /** The disk after one operation: whether that was an undo, and whether it succeeded. */
  datatype Moment = Moment(files: Files, undo: bool, ok: bool)

  /** No undo from position `since` on has failed. */
  predicate NoFailedUndo(seen: seq<Moment>, since: nat) {
    forall j :: since <= j < |seen| && seen[j].undo ==> seen[j].ok
  }

  /** Every state from `since` on was unharmed, and as long as no undo had failed it
      had exactly some prefix of the plan applied. */
  ghost predicate Chronicle(seen: seq<Moment>, since: nat, start: Files, plan: seq<Replacement>, backupOf: Path -> Path) {
    && since <= |seen|
    && (forall t :: since <= t < |seen| ==> Unharmed(seen[t].files, start, plan, backupOf))
    && (forall t :: since <= t < |seen| && NoFailedUndo(seen[..t + 1], since) ==> AtSomePrefix(seen[t].files, start, plan, backupOf))
  }

  lemma ChronicleGrows(seen: seq<Moment>, m: Moment, since: nat, start: Files, plan: seq<Replacement>, backupOf: Path -> Path)
    requires Chronicle(seen, since, start, plan, backupOf) && Unharmed(m.files, start, plan, backupOf)
    requires NoFailedUndo(seen, since) && (m.undo ==> m.ok) ==> AtSomePrefix(m.files, start, plan, backupOf)
    ensures Chronicle(seen + [m], since, start, plan, backupOf)
    ensures NoFailedUndo(seen + [m], since) <==> NoFailedUndo(seen, since) && (m.undo ==> m.ok)
  {
    hide Unharmed, AtSomePrefix;
    var now := seen + [m];
    assert NoFailedUndo(now, since) <==> NoFailedUndo(seen, since) && (m.undo ==> m.ok) by {
      assert forall j :: 0 <= j < |seen| ==> now[j] == seen[j];
      assert now[|seen|] == m;
    }
    forall t | since <= t < |now| && NoFailedUndo(now[..t + 1], since) ensures AtSomePrefix(now[t].files, start, plan, backupOf) {
      assert now[..t + 1] == if t < |seen| then seen[..t + 1] else now;
    }
  }

  /** A moment that shows exactly `k` replacements. */
  lemma ChronicleAt(seen: seq<Moment>, m: Moment, k: nat, since: nat, start: Files, plan: seq<Replacement>, backupOf: Path -> Path)
    requires Chronicle(seen, since, start, plan, backupOf) && Recoverable(m.files, start, plan, k, backupOf) && Separate(plan, backupOf)
    ensures Chronicle(seen + [m], since, start, plan, backupOf)
    ensures NoFailedUndo(seen + [m], since) <==> NoFailedUndo(seen, since) && (m.undo ==> m.ok)
  {
    RecoverableUnharmed(m.files, start, plan, k, backupOf);
    hide Recoverable, Separate, Unharmed, Chronicle, NoFailedUndo;
    ChronicleGrows(seen, m, since, start, plan, backupOf);
  }

  /** How many of the coming operations fail. */
  function Failing(faults: seq<bool>): nat {
    if faults == [] then 0 else (if faults[0] then 1 else 0) + Failing(faults[1..])
  }

  /** How many undos did not go through. */
  function NotUndone(undone: seq<bool>): nat {
    if undone == [] then 0 else (if undone[0] then 0 else 1) + NotUndone(undone[1..])
  }

  lemma {:induction false} NoneLeft(undone: seq<bool>)
    ensures NotUndone(undone) == 0 <==> AllDone(undone, 0)
  {
    if undone != [] {
      NoneLeft(undone[1..]);
      assert forall j :: 1 <= j < |undone| ==> undone[j] == undone[1..][j - 1];
      assert AllDone(undone, 0) <==> undone[0] && AllDone(undone[1..], 0) by {
        if undone[0] && AllDone(undone[1..], 0) {
          assert forall j :: 0 <= j < |undone| ==> undone[j];
        }
        if AllDone(undone, 0) {
          assert forall j :: 0 <= j < |undone| - 1 ==> undone[1..][j] == undone[j + 1];
        }
      }
    }
  }

  class Disk {
    var files: Files
    /** Which of the coming operations fail. */
    var faults: seq<bool>
    const backupOf: Path -> Path
    /** Every state the disk has been in: what a power cut can leave behind. */
    ghost var seen: seq<Moment>

    method Faulty() returns (failed: bool)
      modifies this`faults
      ensures Failing(old(faults)) == Failing(faults) + (if failed then 1 else 0)
    {
      failed := faults != [] && faults[0];
      faults := if faults == [] then [] else faults[1..];
    }

    /** Copy `from` aside; a failed copy may leave anything under the new name. */
    method Backup(from: Path, to: Path, partial: Option<Content>) returns (ok: bool)
      requires from in files
      modifies this`files, this`faults, this`seen
      ensures seen == old(seen) + [Moment(files, false, ok)]
      ensures Failing(old(faults)) == Failing(faults) + (if ok then 0 else 1)
      ensures ok ==> files == old(files)[to := old(files)[from]]
      ensures !ok ==> files == if partial.Some? then old(files)[to := partial.value] else old(files)
    {
      var failed := Faulty();
      ok := !failed;
      if ok {
        files := files[to := files[from]];
      } else if partial.Some? {
        files := files[to := partial.value];
      }
      seen := seen + [Moment(files, false, ok)];
    }

    method Rename(from: Path, to: Path, ghost undo: bool) returns (ok: bool)
      modifies this`files, this`faults, this`seen
      ensures seen == old(seen) + [Moment(files, undo, ok)]
      ensures Failing(faults) <= Failing(old(faults)) <= Failing(faults) + 1
      ensures from in old(files) ==> (ok <==> Failing(faults) == Failing(old(faults)))
      ensures ok ==> from in old(files) && files == old(files)[to := old(files)[from]] - {from}
      ensures !ok ==> files == old(files)
    {
      var failed := Faulty();
      ok := !failed && from in files;
      if ok {
        files := files[to := files[from]] - {from};
      }
      seen := seen + [Moment(files, undo, ok)];
    }

    method Remove(p: Path) returns (ok: bool)
      modifies this`files, this`faults, this`seen
      ensures seen == old(seen) + [Moment(files, true, ok)]
      ensures Failing(faults) <= Failing(old(faults)) <= Failing(faults) + 1
      ensures p in old(files) ==> (ok <==> Failing(faults) == Failing(old(faults)))
      ensures ok ==> p in old(files) && files == old(files) - {p}
      ensures !ok ==> files == old(files)
    {
      var failed := Faulty();
      ok := !failed && p in files;
      if ok {
        files := files - {p};
      }
      seen := seen + [Moment(files, true, ok)];
    }

    /** One iteration of the replacement loop. `replaced` tells whether the live
        name was exchanged, even when a later flush then failed. */
    method ReplaceOne(ghost since: nat, ghost start: Files, plan: seq<Replacement>, k: nat, partial: Option<Content>)
      returns (ok: bool, replaced: bool, backup: Option<Path>)
      requires k < |plan| && Separate(plan, backupOf) && Chronicle(seen, since, start, plan, backupOf) && NoFailedUndo(seen, since)
      requires files == After(start, plan, k, backupOf) && Recoverable(files, start, plan, k, backupOf)
      modifies this`files, this`faults, this`seen
      ensures ok ==> replaced
      ensures Failing(faults) <= Failing(old(faults))
      ensures plan[k].source in old(files) ==> (ok <==> Failing(faults) == Failing(old(faults)))
      ensures backup == if plan[k].dest in old(files) then Some(backupOf(plan[k].source)) else None
      ensures replaced ==> plan[k].source in old(files) && files == After(start, plan, k + 1, backupOf)
      ensures Recoverable(files, start, plan, if replaced then k + 1 else k, backupOf)
      ensures Chronicle(seen, since, start, plan, backupOf) && NoFailedUndo(seen, since)
    {
      hide Recoverable, After, Separate, Chronicle, NoFailedUndo;
      var r := plan[k];
      ok, replaced, backup := false, false, None;
      BackupApart(plan, k, backupOf);
      if r.dest in files {
        backup := Some(backupOf(r.source));
        var copied := Backup(r.dest, backupOf(r.source), partial);
        if copied {
          ScratchHarmless(old(files), start, plan, k, backupOf, old(files)[r.dest]);
        } else if partial.Some? {
          ScratchHarmless(old(files), start, plan, k, backupOf, partial.value);
        }
        ChronicleAt(old(seen), Moment(files, false, copied), k, since, start, plan, backupOf);
        var unflushed := Faulty();
        if !copied || unflushed {
          return;
        }
      }
      assert files == Saved(old(files), r, backupOf);
      ghost var saved, before := files, seen;
      replaced := Rename(r.source, r.dest, false);
      if replaced {
        Forward(saved, start, plan, k, backupOf);
        AfterStep(start, plan, k, backupOf);
        ChronicleAt(before, Moment(files, false, true), k + 1, since, start, plan, backupOf);
        var destUnflushed := Faulty();
        var sourceUnflushed := Faulty();
        ok := !destUnflushed && !sourceUnflushed;
      } else {
        ChronicleAt(before, Moment(files, false, false), k, since, start, plan, backupOf);
      }
    }

    /** The operation of one undo: the backup goes back, or the new file goes away. */
    method Undo(dest: Path, backup: Option<Path>) returns (done: bool)
      requires dest in files && (backup.Some? ==> backup.value in files)
      modifies this`files, this`faults, this`seen
      ensures seen == old(seen) + [Moment(files, true, done)]
      ensures Failing(old(faults)) == Failing(faults) + (if done then 0 else 1)
      ensures files == if !done then old(files)
                       else if backup.Some? then old(files)[dest := old(files)[backup.value]] - {backup.value}
                       else old(files) - {dest}
    {
      hide Failing;
      if backup.Some? {
        done := Rename(backup.value, dest, true);
      } else {
        done := Remove(dest);
      }
    }

    /** One undo. It fails only through a fault and then leaves everything as it was;
        otherwise it gives the destination back what the replacement overwrote. */
    method UndoStep(ghost start: Files, plan: seq<Replacement>, i: nat, backup: Option<Path>) returns (done: bool)
      requires i < |plan| && Separate(plan, backupOf) && Undoing(files, start, plan, i + 1, backupOf)
      requires forall j :: 0 <= j <= i ==> plan[j].source in After(start, plan, j, backupOf)
      requires backup == if plan[i].dest in After(start, plan, i, backupOf) then Some(backupOf(plan[i].source)) else None
      modifies this`files, this`faults, this`seen
      ensures seen == old(seen) + [Moment(files, true, done)] && Undoing(files, start, plan, i, backupOf)
      ensures Failing(old(faults)) == Failing(faults) + (if done then 0 else 1)
      ensures done && Recoverable(old(files), start, plan, i + 1, backupOf) ==> Recoverable(files, start, plan, i, backupOf)
      ensures done && FirstFor(plan, i) ==> Get(files, plan[i].dest) == Get(start, plan[i].dest)
      ensures forall j :: i < j < |plan| && FirstFor(plan, j) ==> Get(files, plan[j].dest) == Get(old(files), plan[j].dest)
    {
      hide Recoverable, After, Separate, Undoing, Failing, FirstFor;
      ghost var before := files;
      if Recoverable(files, start, plan, i + 1, backupOf) {
        Backward(files, start, plan, i, backupOf);
      }
      UndoPossible(files, start, plan, i, backupOf);
      LaterApart(plan, i, backupOf);
      done := Undo(plan[i].dest, backup);
      if done {
        UndoOne(before, files, start, plan, i, backupOf);
      } else {
        SkipUndo(before, start, plan, i, backupOf);
      }
    }

    /** Undo replacements `count - 1` down to 0, going on after a failed undo.
        Whatever fails, every state on the way is unharmed, and a destination whose
        first replacement was undone has its original back. */
    method RollBack(ghost since: nat, ghost start: Files, plan: seq<Replacement>, count: nat, backups: seq<Option<Path>>)
      returns (undone: seq<bool>)
      requires count <= |plan| && |backups| == count && Separate(plan, backupOf)
      requires Recoverable(files, start, plan, count, backupOf)
      requires Chronicle(seen, since, start, plan, backupOf) && NoFailedUndo(seen, since)
      requires forall i :: 0 <= i < count ==>
                 && plan[i].source in After(start, plan, i, backupOf)
                 && backups[i] == (if plan[i].dest in After(start, plan, i, backupOf) then Some(backupOf(plan[i].source)) else None)
      modifies this`files, this`faults, this`seen
      ensures |undone| == count && Chronicle(seen, since, start, plan, backupOf) && Unharmed(files, start, plan, backupOf)
      ensures NoFailedUndo(seen, since) <==> AllDone(undone, 0)
      ensures Failing(old(faults)) == Failing(faults) + NotUndone(undone)
      ensures NoFailedUndo(seen, since) ==> Recoverable(files, start, plan, 0, backupOf)
      ensures forall i :: 0 <= i < |plan| && FirstFor(plan, i) && (i < count ==> undone[i]) ==>
                Get(files, plan[i].dest) == Get(start, plan[i].dest)
    {
      hide Recoverable, After, Separate, Unharmed, Chronicle, NoFailedUndo, FirstFor, Undoing, Get, Failing, NotUndone;
      RecoverableUndoing(files, start, plan, count, backupOf);
      NotReachedYet(files, start, plan, count, backupOf);
      undone := seq(count, _ => false);
      assert undone[count..] == [];
      NoneLeft([]);
      var i := count;
      while i > 0
        invariant 0 <= i <= count && |undone| == count && Undoing(files, start, plan, i, backupOf)
        invariant Chronicle(seen, since, start, plan, backupOf)
        invariant NoFailedUndo(seen, since) <==> AllDone(undone, i)
        invariant Failing(old(faults)) == Failing(faults) + NotUndone(undone[i..])
        invariant NoFailedUndo(seen, since) ==> Recoverable(files, start, plan, i, backupOf)
        invariant forall j :: i <= j < |plan| && FirstFor(plan, j) && (j < count ==> undone[j]) ==>
                    Get(files, plan[j].dest) == Get(start, plan[j].dest)
      {
        i := i - 1;
        ghost var before, had := seen, undone;
        var done := UndoStep(start, plan, i, backups[i]);
        undone := undone[i := done];
        AllDoneStep(had, i, done);
        NotUndoneStep(had, i, done);
        UndoLogged(before, Moment(files, true, done), i, since, start, plan, backupOf);
      }
      UndoingUnharmed(files, start, plan, 0, backupOf);
      assert undone[0..] == undone;
    }

    /** `replace_files`. On success every destination carries its last staged
        content. On failure every destination that was not reached, or whose first
        replacement was undone, has its original content or absence again; if every
        undo succeeded (`clean`), all have. Whatever fails, also during the rollback, no destination is ever
        half written, no original lost and no other path touched, and until an undo
        fails every state shows exactly a prefix of the plan. Only a fault or a
        missing source makes it fail, and only a further fault makes an undo fail. */
    method ReplaceFiles(plan: seq<Replacement>, partial: Option<Content>) returns (ok: bool, clean: bool, undone: seq<bool>)
      requires Separate(plan, backupOf)
      modifies this`files, this`faults, this`seen
      ensures Failing(old(faults)) == 0 && SourcesPresent(old(files), plan, backupOf) ==> ok
      ensures !ok ==> NotUndone(undone) + (if SourcesPresent(old(files), plan, backupOf) then 1 else 0) <= Failing(old(faults))
      ensures !ok && Failing(old(faults)) <= (if SourcesPresent(old(files), plan, backupOf) then 1 else 0) ==> clean
      ensures ok ==> clean && SourcesPresent(old(files), plan, backupOf) && files == After(old(files), plan, |plan|, backupOf)
      ensures ok ==> forall i :: 0 <= i < |plan| && LastFor(plan, i) ==>
                       plan[i].source in old(files) && Get(files, plan[i].dest) == Some(old(files)[plan[i].source])
      ensures !ok && clean ==> forall i :: 0 <= i < |plan| ==> Get(files, plan[i].dest) == Get(old(files), plan[i].dest)
      ensures !ok ==> |undone| <= |plan| &&
                      forall i :: 0 <= i < |plan| && FirstFor(plan, i) && (i < |undone| ==> undone[i]) ==>
                        Get(files, plan[i].dest) == Get(old(files), plan[i].dest)
      ensures clean <==> NoFailedUndo(seen, |old(seen)|)
      ensures Chronicle(seen, |old(seen)|, old(files), plan, backupOf) && Unharmed(files, old(files), plan, backupOf)
    {
      hide Recoverable, After, Separate, Unharmed, Chronicle, NoFailedUndo, AtSomePrefix, Failing, NotUndone;
      ghost var start, since := files, |seen|;
      var backups: seq<Option<Path>> := [];
      AtStart(start, plan, backupOf);
      ChronicleStarts(seen, start, plan, backupOf);
      ok, clean, undone := true, true, [];
      var k := 0;
      while ok && k < |plan|
        invariant 0 <= k <= |plan| && |backups| == k && Recoverable(files, start, plan, k, backupOf)
        invariant ok ==> files == After(start, plan, k, backupOf)
        invariant Failing(faults) <= Failing(old(faults))
        invariant SourcesPresent(start, plan, backupOf) ==> (ok <==> Failing(faults) == Failing(old(faults)))
        invariant forall i :: 0 <= i < k ==>
                    && plan[i].source in After(start, plan, i, backupOf)
                    && backups[i] == (if plan[i].dest in After(start, plan, i, backupOf) then Some(backupOf(plan[i].source)) else None)
        invariant Chronicle(seen, since, start, plan, backupOf) && NoFailedUndo(seen, since)
        decreases |plan| - k, ok
      {
        var replaced, backup;
        ok, replaced, backup := ReplaceOne(since, start, plan, k, partial);
        if replaced {
          backups := backups + [backup];
          k := k + 1;
        }
      }
      RecoverableUnharmed(files, start, plan, k, backupOf);
      if ok {
        forall i | 0 <= i < |plan| && LastFor(plan, i)
          ensures plan[i].source in start && Get(files, plan[i].dest) == Some(start[plan[i].source])
        {
          FinalContent(start, plan, |plan|, i, backupOf);
        }
      } else {
        undone := RollBack(since, start, plan, k, backups);
        clean := AllDone(undone, 0);
        NoneLeft(undone);
        if clean {
          NothingReplaced(files, start, plan, backupOf);
        }
      }
    }
  }

  predicate AllDone(undone: seq<bool>, from: nat) {
    forall j :: from <= j < |undone| ==> undone[j]
  }

  lemma AllDoneStep(undone: seq<bool>, i: nat, done: bool)
    requires i < |undone|
    ensures AllDone(undone[i := done], i) <==> done && AllDone(undone, i + 1)
  {
    var now := undone[i := done];
    assert now[i] == done && forall j :: i < j < |undone| ==> now[j] == undone[j];
  }

  lemma NotUndoneStep(undone: seq<bool>, i: nat, done: bool)
    requires i < |undone|
    ensures NotUndone(undone[i := done][i..]) == (if done then 0 else 1) + NotUndone(undone[i + 1..])
  {
    var now := undone[i := done];
    assert now[i..][1..] == undone[i + 1..] && now[i..][0] == done;
  }

  /** An undo of replacement `i` does not touch destinations first replaced later. */
  lemma LaterApart(plan: seq<Replacement>, i: nat, backupOf: Path -> Path)
    requires Separate(plan, backupOf) && i < |plan|
    ensures forall j :: i < j < |plan| && FirstFor(plan, j) ==> plan[j].dest != plan[i].dest && plan[j].dest != backupOf(plan[i].source)
  {
    forall j | i < j < |plan| && FirstFor(plan, j) ensures plan[j].dest != plan[i].dest && plan[j].dest != backupOf(plan[i].source) {
      NotSource(plan, i, j, backupOf);
    }
  }

  /** An undo in the log: the claim about prefixes ends with the first failed one. */
  lemma UndoLogged(seen: seq<Moment>, m: Moment, i: nat, since: nat, start: Files, plan: seq<Replacement>, backupOf: Path -> Path)
    requires Chronicle(seen, since, start, plan, backupOf) && Undoing(m.files, start, plan, i, backupOf) && m.undo
    requires NoFailedUndo(seen, since) && m.ok ==> Recoverable(m.files, start, plan, i, backupOf)
    ensures Chronicle(seen + [m], since, start, plan, backupOf)
    ensures NoFailedUndo(seen + [m], since) <==> NoFailedUndo(seen, since) && m.ok
  {
    hide Recoverable, Unharmed, Chronicle, NoFailedUndo;
    ChronicleGrows(seen, m, since, start, plan, backupOf);
  }

  lemma ChronicleStarts(seen: seq<Moment>, start: Files, plan: seq<Replacement>, backupOf: Path -> Path)
    ensures Chronicle(seen, |seen|, start, plan, backupOf) && NoFailedUndo(seen, |seen|)
  {
  }

  lemma BackupApart(plan: seq<Replacement>, k: nat, backupOf: Path -> Path)
    requires Separate(plan, backupOf) && k < |plan|
    ensures backupOf(plan[k].source) != plan[k].source && backupOf(plan[k].source) != plan[k].dest
    ensures plan[k].source != plan[k].dest
  {
  }

  lemma AfterStep(start: Files, plan: seq<Replacement>, k: nat, backupOf: Path -> Path)
    requires k < |plan| && plan[k].source in After(start, plan, k, backupOf)
    ensures After(start, plan, k + 1, backupOf) == Replaced(After(start, plan, k, backupOf), plan[k], backupOf)
  {
  }

  lemma AtStart(start: Files, plan: seq<Replacement>, backupOf: Path -> Path)
    ensures After(start, plan, 0, backupOf) == start && Recoverable(start, start, plan, 0, backupOf)
  {
  }
}
