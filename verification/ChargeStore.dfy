/** Every interleaving of telemetry writes and list builders over one database,
    and the database object whose methods are those atomic steps. */
module ChargeStore {
  import opened Options
  import opened ChargePricing
  import opened ChargeRates
  import opened ChargeSessions
  import opened ChargeProjection

  /** A list builder between its two transactions. */
  datatype Builder = HasContext(ctx: Context) | Built(p: Projection, changed: bool)

  datatype State = State(history: seq<Db>, stored: Option<Projection>, builders: map<nat, Builder>, returned: seq<Projection>)

  datatype Action =
    | Write(db: Db)
    | Begin(b: nat, ctx: Context)
    | Read(b: nat, usable: bool)
    | Finish(b: nat, writable: bool)

  ghost predicate Init(s: State) {
    History(s.history) && SinceEpoch(s.history) && |s.history| == 1 && s.stored == None && s.builders == map[] && s.returned == []
  }

  ghost predicate Enabled(s: State, a: Action)
    requires |s.history| > 0
  {
    match a
    case Write(db) => Mutates(s.history[|s.history| - 1], db) && forall x :: x in db.samples ==> x.row.ts >= 0
    case Begin(b, _) => b !in s.builders
    case Read(b, _) => b in s.builders && s.builders[b].HasContext?
    case Finish(b, _) => b in s.builders && s.builders[b].Built?
  }

  /** A stored body that already belongs to the current revision is returned as is. */
  predicate Current(stored: Option<Projection>, db: Db, now: nat, ctx: Context, usable: bool) {
    stored.Some? && stored.value.ctx == ctx && stored.value.rewrite == db.rewrite && usable && stored.value.revision == now
  }

  ghost function Next(s: State, a: Action, w: World): State
    requires |s.history| > 0 && Enabled(s, a)
  {
    match a
    case Write(db) => s.(history := s.history + [db])
    case Begin(b, ctx) => s.(builders := s.builders[b := HasContext(ctx)])
    case Read(b, usable) =>
      var ctx, now := s.builders[b].ctx, |s.history| - 1;
      s.(builders := s.builders[b := Built(Build(s.history, s.stored, ctx, usable, w),
                                           !Current(s.stored, s.history[now], now, ctx, usable))])
    case Finish(b, writable) =>
      var Built(p, changed) := s.builders[b];
      // Saved only while the revision it was built from is still the current one.
      var stored := if changed && writable && p.revision == |s.history| - 1 then Some(p) else s.stored;
      s.(stored := stored, builders := s.builders - {b}, returned := s.returned + [p])
  }

  ghost predicate Step(s: State, s': State, w: World)
    requires |s.history| > 0
  {
    exists a :: Enabled(s, a) && s' == Next(s, a, w)
  }

  /** Any finite execution, with any number of concurrent builders. */
  ghost predicate Execution(run: seq<State>, w: World) {
    && |run| > 0 && Init(run[0])
    && (forall i :: 0 <= i < |run| ==> |run[i].history| > 0)
    && forall i, j :: 0 <= i && j == i + 1 < |run| ==> Step(run[i], run[j], w)
  }

  /** Everything stored, in flight or returned is the full result for the revision
      and context it claims. */
  ghost predicate Inv(s: State, w: World) {
    && History(s.history) && SinceEpoch(s.history)
    && (s.stored.Some? ==> Sound(s.history, s.stored.value, w))
    && (forall b :: b in s.builders && s.builders[b].Built? ==> Sound(s.history, s.builders[b].p, w))
    && (forall i :: 0 <= i < |s.returned| ==> Sound(s.history, s.returned[i], w))
  }

  function StoredRevision(s: State): int {
    if s.stored.Some? then s.stored.value.revision else -1
  }

  lemma StepKeeps(s: State, s': State, w: World)
    requires Inv(s, w) && |s.history| > 0 && Step(s, s', w)
    ensures Inv(s', w) && StoredRevision(s) <= StoredRevision(s')
  {
    hide Truth, SinceEpoch;
    var a :| Enabled(s, a) && s' == Next(s, a, w);
    match a
    case Write(db) =>
      WriteKeeps(s.history, db);
      forall p | Sound(s.history, p, w) ensures Sound(s.history + [db], p, w) {
        SoundExtends(s.history, db, p, w);
      }
    case Begin(b, ctx) =>
    case Read(b, usable) => BuildIsSound(s.history, s.stored, s.builders[b].ctx, usable, w);
    case Finish(b, writable) =>
  }

  lemma SoundExtends(h: seq<Db>, db: Db, p: Projection, w: World)
    requires Sound(h, p, w)
    ensures Sound(h + [db], p, w)
  {
  }

  lemma WriteKeeps(h: seq<Db>, db: Db)
    requires History(h) && SinceEpoch(h) && Mutates(h[|h| - 1], db) && forall x :: x in db.samples ==> x.row.ts >= 0
    ensures History(h + [db]) && SinceEpoch(h + [db])
  {
  }

  /** In every execution, every list ever returned equals a full regroup and
      reprice of the snapshot its builder read, the stored projection is always
      the full result for its own revision and context, and the stored revision
      never goes backwards. */
  lemma {:induction false} EveryExecution(run: seq<State>, w: World, i: nat, j: nat)
    requires Execution(run, w) && i <= j < |run|
    ensures Inv(run[j], w) && StoredRevision(run[i]) <= StoredRevision(run[j])
  {
    if j > 0 {
      if i < j {
        EveryExecution(run, w, i, j - 1);
      } else {
        EveryExecution(run, w, j - 1, j - 1);
      }
      StepKeeps(run[j - 1], run[j], w);
    }
  }

  // ---- The database object ---------------------------------------------------

  /** A builder that finishes returns what it built, and stores it exactly when that is
      new, storable and still belongs to the current revision. */
  lemma FinishStores(s: State, b: nat, writable: bool, w: World)
    requires |s.history| > 0 && Enabled(s, Finish(b, writable))
    ensures
      var p, changed := s.builders[b].p, s.builders[b].changed;
      var r := Next(s, Finish(b, writable), w);
      && r.returned == s.returned + [p] && b !in r.builders && r.history == s.history
      && r.stored == (if changed && writable && p.revision + 1 == |s.history| then Some(p) else s.stored)
  {
  }

  /** A read answers for the revision and context it finds, and calls the result new
      unless exactly that was stored. */
  lemma ReadAnswers(s: State, b: nat, usable: bool, w: World)
    requires |s.history| > 0 && Enabled(s, Read(b, usable)) && Inv(s, w)
    ensures
      var r := Next(s, Read(b, usable), w);
      && b in r.builders && r.builders[b].Built? && r.stored == s.stored && r.history == s.history
      && r.builders[b].p.revision + 1 == |s.history| && r.builders[b].p.ctx == s.builders[b].ctx
      && (r.builders[b].changed <==>
            s.stored.None? || !usable || s.stored.value.ctx != s.builders[b].ctx || s.stored.value.revision + 1 != |s.history|)
  {
  }

  class Database {
    var samples: seq<Sample>
    var revision: nat
    var rewrite: nat
    var latest: int
    var stored: Option<Projection>
    const world: World
    /** Every committed state, by revision. */
    ghost var history: seq<Db>

    ghost predicate Valid()
      reads this
    {
      && History(history) && SinceEpoch(history)
      && revision == |history| - 1 && history[revision] == Db(samples, rewrite, latest)
      && (stored.Some? ==> Sound(history, stored.value, world))
    }

    constructor (world: World)
      ensures Valid() && this.world == world && samples == [] && stored == None
    {
      samples, revision, rewrite, latest, stored := [], 0, 0, 0, None;
      this.world := world;
      history := [Db([], 0, 0)];
    }

    /** The insert trigger, for a row newer than everything seen: an append. */
    method InsertNewer(s: Sample)
      requires Valid() && s.row.ts > latest && s.row.ts >= 0
      modifies this
      ensures Valid() && stored == old(stored) && samples == old(samples) + [s]
      ensures revision == old(revision) + 1 && rewrite == old(rewrite) && latest == s.row.ts
      ensures history == old(history) + [Db(samples, rewrite, latest)]
    {
      var next := Db(samples + [s], rewrite, s.row.ts);
      OnlyAppends(history, revision, revision);
      WriteKeeps(history, next);
      samples, revision, latest := next.samples, revision + 1, next.latest;
      history := history + [next];
    }

    /** Any other insert, update or delete: the rewrite revision moves too. */
    method Change(table: seq<Sample>, newest: int)
      requires Valid() && Ordered(table) && newest >= latest
      requires forall s :: s in table ==> 0 <= s.row.ts <= newest
      modifies this
      ensures Valid() && stored == old(stored) && samples == table && latest == newest
      ensures revision == old(revision) + 1 && rewrite == old(rewrite) + 1
      ensures history == old(history) + [Db(samples, rewrite, latest)]
    {
      var next := Db(table, rewrite + 1, newest);
      WriteKeeps(history, next);
      samples, revision, rewrite, latest := table, revision + 1, rewrite + 1, newest;
      history := history + [next];
    }

    /** The read transaction of `build_charging_list_with_context`. */
    method ReadList(ctx: Context, usable: bool) returns (p: Projection, changed: bool)
      requires Valid()
      ensures p == Build(history, stored, ctx, usable, world)
      ensures changed <==> stored.None? || !usable || stored.value.ctx != ctx || stored.value.revision != revision
      ensures p.revision == revision && p.ctx == ctx && p.body == FullList(ChargingRows(samples), ctx, world)
    {
      hide History, SinceEpoch, Sound, FullList, PricedAll, Grouped, RowsFrom, ChargingRows, SortNewestFirst, Resume;
      BuildIsSound(history, stored, ctx, usable, world);
      if stored.Some? {
        SoundBody(history, stored.value, world);
      }
      SoundBody(history, Build(history, stored, ctx, usable, world), world);
      var kept: seq<Summary>, from: int := [], 0;
      if stored.Some? && stored.value.ctx == ctx && stored.value.rewrite == rewrite && usable {
        if stored.value.revision == revision {
          return Projection(revision, rewrite, latest, ctx, stored.value.body), false;
        }
        var (at, rest) := Resume(stored.value.body, stored.value.latest);
        from, kept := at, rest;
      }
      var sessions := PriceFrom(from, ctx);
      p, changed := Projection(revision, rewrite, latest, ctx, SortNewestFirst(sessions + kept)), true;
    }

    /** Group and price the charging rows from a timestamp on. */
    method PriceFrom(from: int, ctx: Context) returns (sessions: seq<Summary>)
      ensures sessions == PricedAll(Grouped(RowsFrom(ChargingRows(samples), from)), ctx, world)
    {
      var groups := GroupSessions(RowsFrom(ChargingRows(samples), from));
      sessions := [];
      for i := 0 to |groups|
        invariant sessions == PricedAll(groups[..i], ctx, world)
      {
        var s := PriceSession(groups[i], ctx, world);
        assert groups[..i + 1] == groups[..i] + [groups[i]];
        sessions := sessions + [s];
      }
      assert groups[..|groups|] == groups;
    }

    /** The conditional save: never attach a projection to a newer revision. */
    method Save(p: Projection)
      requires Valid() && Sound(history, p, world)
      modifies this`stored
      ensures Valid() && stored == if p.revision == revision then Some(p) else old(stored)
      ensures old(stored).Some? ==> stored.Some? && stored.value.revision >= old(stored).value.revision
    {
      if p.revision == revision {
        stored := Some(p);
      }
    }
  }

  lemma SoundBody(h: seq<Db>, p: Projection, w: World)
    requires Sound(h, p, w)
    ensures p.revision < |h| && p.rewrite == h[p.revision].rewrite && p.body == FullList(ChargingRows(h[p.revision].samples), p.ctx, w)
  {
  }
}
