/** The persisted charging list: an incremental projection of the telemetry
    table that resumes from the last open session. Its partner is the full
    rebuild `FullList` of the same rows. */
module ChargeProjection {
  import opened Options
  import opened ChargePricing
  import opened ChargeRates
  import opened ChargeSessions

  /** One telemetry row with the car's own charge phase and rate, as far as recorded. */
  datatype Sample = Sample(row: ChargeRow, phase: Option<string>, rateMph: Option<real>) {
    /** `is_actively_charging`: a recorded phase decides, then a recorded rate, then the power. */
    predicate Charging() {
      match phase
      case Some(p) => p in ["charging", "starting", "calibrating"]
      case None =>
        match rateMph
        case Some(r) => r > 0.0
        case None => row.powerKw.Some? && row.powerKw.value > 0
    }
  }

  predicate Ordered(samples: seq<Sample>) {
    forall i, j :: 0 <= i < j < |samples| ==> samples[i].row.ts < samples[j].row.ts
  }

  function ChargingRows(samples: seq<Sample>): seq<ChargeRow> {
    if samples == [] then []
    else
      var last := samples[|samples| - 1];
      ChargingRows(samples[..|samples| - 1]) + (if last.Charging() then [last.row] else [])
  }

  /** `load_charge_rows` from a timestamp on. */
  function RowsFrom(rows: seq<ChargeRow>, from: int): seq<ChargeRow> {
    if rows == [] then []
    else RowsFrom(rows[..|rows| - 1], from) + (if rows[|rows| - 1].ts >= from then [rows[|rows| - 1]] else [])
  }

  /** Where to resume, and which listed sessions stay as they are. */
  function Resume(sessions: seq<Summary>, latest: int): (int, seq<Summary>) {
    if sessions == [] || sessions[0].endTs + SESSION_GAP_SECS < latest then (latest + 1, sessions)
    else (sessions[0].id, sessions[1..])
  }

  function Insert(s: Summary, sorted: seq<Summary>): seq<Summary> {
    if sorted == [] || s.id >= sorted[0].id then [s] + sorted else [sorted[0]] + Insert(s, sorted[1..])
  }

  /** Sorting by descending id. */
  function SortNewestFirst(s: seq<Summary>): seq<Summary> {
    if s == [] then [] else Insert(s[0], SortNewestFirst(s[1..]))
  }

  /** The list assembled from rows read since `from` and sessions kept. */
  ghost function Rebuilt(rows: seq<ChargeRow>, from: int, kept: seq<Summary>, ctx: Context, w: World): seq<Summary> {
    SortNewestFirst(PricedAll(Grouped(RowsFrom(rows, from)), ctx, w) + kept)
  }

  // ---- Rows ------------------------------------------------------------------

  lemma {:induction false} ChargingRowsOrdered(samples: seq<Sample>)
    requires Ordered(samples)
    ensures Increasing(ChargingRows(samples))
    ensures forall r :: r in ChargingRows(samples) ==> exists s :: s in samples && s.row == r
  {
    if samples != [] {
      var n := |samples| - 1;
      ChargingRowsOrdered(samples[..n]);
      forall r | r in ChargingRows(samples[..n]) ensures r.ts < samples[n].row.ts {
        var s :| s in samples[..n] && s.row == r;
      }
      forall r | r in ChargingRows(samples) ensures exists s :: s in samples && s.row == r {
        if r in ChargingRows(samples[..n]) {
          var s :| s in samples[..n] && s.row == r;
          assert s in samples;
        } else {
          assert samples[n] in samples;
        }
      }
    }
  }

  /** Exactly the rows of charging samples are kept. */
  lemma {:induction false} ChargingRowsAre(samples: seq<Sample>, r: ChargeRow)
    ensures r in ChargingRows(samples) <==> exists s :: s in samples && s.row == r && s.Charging()
  {
    if samples != [] {
      var n := |samples| - 1;
      ChargingRowsAre(samples[..n], r);
      assert samples == samples[..n] + [samples[n]];
      if r in ChargingRows(samples) {
        var s :| s in samples && s.row == r && s.Charging();
      }
    }
  }

  /** A phase such as "complete" rules a row out however much power it shows, and a
      rate of zero rules it out when there is no phase. */
  lemma PhaseThenRate(row: ChargeRow, phase: string, rate: Option<real>)
    ensures Sample(row, Some(phase), rate).Charging() <==> phase == "charging" || phase == "starting" || phase == "calibrating"
    ensures rate.Some? ==> (Sample(row, None, rate).Charging() <==> rate.value > 0.0)
    ensures Sample(row, None, None).Charging() <==> row.powerKw.Some? && row.powerKw.value > 0
  {
  }

  lemma {:induction false} ChargingRowsConcat(a: seq<Sample>, b: seq<Sample>)
    ensures ChargingRows(a + b) == ChargingRows(a) + ChargingRows(b)
  {
    if b == [] {
      assert a + b == a;
    } else {
      ChargingRowsConcat(a, b[..|b| - 1]);
      assert (a + b)[..|a + b| - 1] == a + b[..|b| - 1];
    }
  }

  /** Reading from a point that separates earlier from later rows reads the later ones. */
  lemma {:induction false} RowsFromSuffix(early: seq<ChargeRow>, late: seq<ChargeRow>, from: int)
    requires forall r :: r in early ==> r.ts < from
    requires forall r :: r in late ==> r.ts >= from
    ensures RowsFrom(early + late, from) == late
  {
    if late != [] {
      var n := |late| - 1;
      RowsFromSuffix(early, late[..n], from);
      assert (early + late)[..|early + late| - 1] == early + late[..n];
    } else if early != [] {
      var n := |early| - 1;
      RowsFromSuffix(early[..n], [], from);
      assert (early + late)[..n] == early[..n] + [];
      assert (early + late)[n] == early[n] && early[n] in early;
    }
  }

  // ---- Sorting -----------------------------------------------------------------

  predicate Descending(s: seq<Summary>) {
    forall i, j :: 0 <= i < j < |s| ==> s[i].id >= s[j].id
  }

  lemma DescendingCons(x: Summary, rest: seq<Summary>)
    requires Descending(rest) && forall y :: y in rest ==> x.id >= y.id
    ensures Descending([x] + rest) && multiset([x] + rest) == multiset(rest) + multiset{x}
  {
  }

  lemma {:induction false} InsertSorts(s: Summary, sorted: seq<Summary>)
    requires Descending(sorted)
    ensures Descending(Insert(s, sorted)) && multiset(Insert(s, sorted)) == multiset(sorted) + multiset{s}
  {
    if sorted == [] || s.id >= sorted[0].id {
      DescendingCons(s, sorted);
    } else {
      hide Insert;
      InsertSorts(s, sorted[1..]);
      assert sorted == [sorted[0]] + sorted[1..];
      var rest := Insert(s, sorted[1..]);
      forall x | x in rest ensures sorted[0].id >= x.id {
        assert x in multiset(rest);
        assert x in multiset(sorted[1..]) || x == s;
      }
      DescendingCons(sorted[0], rest);
      InsertStep(s, sorted);
    }
  }

  lemma InsertStep(s: Summary, sorted: seq<Summary>)
    requires sorted != [] && s.id < sorted[0].id
    ensures Insert(s, sorted) == [sorted[0]] + Insert(s, sorted[1..])
  {
  }

  lemma {:induction false} SortSorts(s: seq<Summary>)
    ensures Descending(SortNewestFirst(s)) && multiset(SortNewestFirst(s)) == multiset(s)
  {
    if s != [] {
      SortSorts(s[1..]);
      InsertSorts(s[0], SortNewestFirst(s[1..]));
      assert s == [s[0]] + s[1..];
    }
  }

  lemma SameHead(a: seq<Summary>, b: seq<Summary>)
    requires Descending(a) && NewestFirst(b) && multiset(a) == multiset(b) && a != [] && b != []
    ensures a[0] == b[0]
  {
    assert a[0] in multiset(b) && b[0] in multiset(a);
  }

  lemma DropHead(a: seq<Summary>)
    requires a != []
    ensures multiset(a[1..]) == multiset(a) - multiset{a[0]}
  {
    assert a == [a[0]] + a[1..];
  }

  /** With distinct ids there is one way to order them. */
  lemma {:induction false} SortedUnique(a: seq<Summary>, b: seq<Summary>)
    requires Descending(a) && NewestFirst(b) && multiset(a) == multiset(b)
    ensures a == b
  {
    assert |a| == |multiset(a)| == |multiset(b)| == |b|;
    if a != [] {
      SameHead(a, b);
      DropHead(a);
      DropHead(b);
      SortedUnique(a[1..], b[1..]);
      assert a == [a[0]] + a[1..] && b == [b[0]] + b[1..];
    }
  }

  lemma {:induction false} ReversedElements(s: seq<Summary>)
    ensures multiset(Reversed(s)) == multiset(s)
  {
    if s != [] {
      var n := |s| - 1;
      ReversedElements(s[..n]);
      assert Reversed(s) == [s[n]] + Reversed(s[..n]);
      assert s == s[..n] + [s[n]];
    }
  }

  /** New sessions in time order, followed by older ones newest first, sort to the
      new ones reversed in front of the old. */
  lemma SortsInto(newer: seq<Summary>, kept: seq<Summary>)
    requires NewestFirst(Reversed(newer) + kept)
    ensures SortNewestFirst(newer + kept) == Reversed(newer) + kept
  {
    SortSorts(newer + kept);
    ReversedElements(newer);
    SortedUnique(SortNewestFirst(newer + kept), Reversed(newer) + kept);
  }

  // ---- One incremental rebuild -----------------------------------------------

  lemma PricedAllConcat(a: seq<Group>, b: seq<Group>, ctx: Context, w: World)
    ensures Reversed(PricedAll(a + b, ctx, w)) == Reversed(PricedAll(b, ctx, w)) + Reversed(PricedAll(a, ctx, w))
  {
  }

  /** Rows up to a session boundary are listed as before; regrouping the rest
      and sorting it in gives the full list. */
  lemma ResumeAt(early: seq<ChargeRow>, late: seq<ChargeRow>, from: int, ctx: Context, w: World)
    requires Increasing(early + late)
    requires early == [] || late == [] || late[0].ts - early[|early| - 1].ts > SESSION_GAP_SECS
    requires forall r :: r in early ==> r.ts < from
    requires forall r :: r in late ==> r.ts >= from
    ensures Rebuilt(early + late, from, FullList(early, ctx, w), ctx, w) == FullList(early + late, ctx, w)
  {
    hide PricedAll, Reversed, SortNewestFirst, Grouped, RowsFrom, NewestFirst;
    RowsFromSuffix(early, late, from);
    GroupsSplit(early, late);
    PricedAllConcat(Grouped(early), Grouped(late), ctx, w);
    FullListNewestFirst(early + late, ctx, w);
    SortsInto(PricedAll(Grouped(late), ctx, w), FullList(early, ctx, w));
  }

  lemma FullListHead(rows: seq<ChargeRow>, ctx: Context, w: World)
    ensures rows == [] ==> FullList(rows, ctx, w) == []
    ensures rows != [] ==>
              Grouped(rows) != [] &&
              var g := Grouped(rows)[|Grouped(rows)| - 1];
              var cut := |rows| - |g|;
              var list := FullList(rows, ctx, w);
              && cut >= 0 && rows[cut..] == g && list != []
              && list[0].id == g[0].ts && list[0].endTs == rows[|rows| - 1].ts
              && list[1..] == FullList(rows[..cut], ctx, w)
              && (cut > 0 ==> g[0].ts - rows[cut - 1].ts > SESSION_GAP_SECS)
  {
    hide Priced, Grouped;
    if rows == [] {
      NothingGrouped();
    } else {
      LastSession(rows);
      LastRowEnds(rows, Grouped(rows));
      ReversedPricing(Grouped(rows), ctx, w);
    }
  }

  lemma NothingGrouped()
    ensures Grouped([]) == []
  {
  }

  lemma ReversedPricing(gs: seq<Group>, ctx: Context, w: World)
    requires gs != []
    ensures
      var list := Reversed(PricedAll(gs, ctx, w));
      list[0] == Priced(gs[|gs| - 1], ctx, w) && list[1..] == Reversed(PricedAll(gs[..|gs| - 1], ctx, w))
  {
  }

  /** Resuming the list of `known` rows after rows newer than `latest` were appended
      gives the full rebuild of all rows. */
  lemma Incremental(known: seq<ChargeRow>, appended: seq<ChargeRow>, latest: int, ctx: Context, w: World)
    requires Increasing(known + appended)
    requires forall r :: r in known ==> r.ts <= latest
    requires forall r :: r in appended ==> r.ts > latest
    ensures
      var (from, kept) := Resume(FullList(known, ctx, w), latest);
      Rebuilt(known + appended, from, kept, ctx, w) == FullList(known + appended, ctx, w)
  {
    hide FullList, Rebuilt, Grouped, Increasing;
    var list := FullList(known, ctx, w);
    FullListHead(known, ctx, w);
    if known == [] || list[0].endTs + SESSION_GAP_SECS < latest {
      assert known == [] ==> list == [];
      ResumeAt(known, appended, latest + 1, ctx, w);
    } else {
      var g := Grouped(known)[|Grouped(known)| - 1];
      var cut := |known| - |g|;
      var late := g + appended;
      var all := known + appended;
      assert all[..cut] == known[..cut] && all[cut..] == late && known[..cut] + late == all;
      assert all[cut] == g[0];
      SplitByTime(all, cut);
      ResumeAt(known[..cut], late, g[0].ts, ctx, w);
    }
  }

  lemma SplitByTime(rows: seq<ChargeRow>, cut: nat)
    requires Increasing(rows) && cut < |rows|
    ensures forall r :: r in rows[..cut] ==> r.ts < rows[cut].ts
    ensures forall r :: r in rows[cut..] ==> r.ts >= rows[cut].ts
  {
  }

  // ---- The database clock ----------------------------------------------------

  /** The table and its clock; the revision is the position in the history. */
  datatype Db = Db(samples: seq<Sample>, rewrite: nat, latest: int) {
    ghost predicate Valid() {
      Ordered(samples) && forall s :: s in samples ==> s.row.ts <= latest
    }
  }

  /** A trigger step: an append past `latest`, or any other change, which bumps `rewrite`. */
  ghost predicate Mutates(a: Db, b: Db) {
    && b.Valid() && b.latest >= a.latest
    && ((b.rewrite == a.rewrite && |b.samples| == |a.samples| + 1 && b.samples[..|a.samples|] == a.samples
         && b.samples[|a.samples|].row.ts > a.latest)
        || b.rewrite == a.rewrite + 1)
  }

  ghost predicate History(h: seq<Db>) {
    && |h| > 0 && h[0].Valid()
    && forall i, j :: 0 <= i && j == i + 1 < |h| ==> Mutates(h[i], h[j])
  }

  /** Two revisions with the same rewrite count differ only by appended rows. */
  lemma {:induction false} OnlyAppends(h: seq<Db>, i: nat, j: nat)
    requires History(h) && i <= j < |h|
    ensures h[i].rewrite <= h[j].rewrite && h[i].latest <= h[j].latest && h[i].Valid() && h[j].Valid()
    ensures h[i].rewrite == h[j].rewrite ==>
              && h[i].samples <= h[j].samples
              && forall k :: |h[i].samples| <= k < |h[j].samples| ==> h[j].samples[k].row.ts > h[i].latest
  {
    if j == 0 {
    } else if i == j {
      assert Mutates(h[j - 1], h[j]);
    } else {
      OnlyAppends(h, i, j - 1);
      assert Mutates(h[j - 1], h[j]);
    }
  }

  // ---- Builders --------------------------------------------------------------

  datatype Projection = Projection(revision: nat, rewrite: nat, latest: int, ctx: Context, body: seq<Summary>)

  ghost function Truth(h: seq<Db>, revision: nat, ctx: Context, w: World): seq<Summary>
    requires revision < |h|
  {
    FullList(ChargingRows(h[revision].samples), ctx, w)
  }

  /** A projection that is the full result for its own revision and context. */
  ghost predicate Sound(h: seq<Db>, p: Projection, w: World) {
    && p.revision < |h| && p.rewrite == h[p.revision].rewrite && p.latest == h[p.revision].latest
    && p.body == Truth(h, p.revision, p.ctx, w)
  }

  /** What the read transaction of a builder computes at the current revision.
      `usable` is false when the stored body does not parse. */
  ghost function Build(h: seq<Db>, stored: Option<Projection>, ctx: Context, usable: bool, w: World): Projection
    requires |h| > 0
  {
    var now := |h| - 1;
    var db := h[now];
    var rows := ChargingRows(db.samples);
    var resumable := stored.Some? && stored.value.ctx == ctx && stored.value.rewrite == db.rewrite && usable;
    var body :=
      if resumable && stored.value.revision == now then stored.value.body
      else
        var (from, kept) := if resumable then Resume(stored.value.body, stored.value.latest) else (0, []);
        Rebuilt(rows, from, kept, ctx, w);
    Projection(now, db.rewrite, db.latest, ctx, body)
  }

  /** No row is older than the epoch, where a full read starts. */
  ghost predicate SinceEpoch(h: seq<Db>) {
    forall i, s :: 0 <= i < |h| && s in h[i].samples ==> s.row.ts >= 0
  }

  /** Whatever sound projection was stored, at whatever revision and under whatever
      context, a builder produces the full result for the revision it reads. */
  lemma BuildIsSound(h: seq<Db>, stored: Option<Projection>, ctx: Context, usable: bool, w: World)
    requires History(h) && SinceEpoch(h) && (stored.Some? ==> Sound(h, stored.value, w))
    ensures Sound(h, Build(h, stored, ctx, usable, w), w)
  {
    hide FullList, Rebuilt, Resume, Increasing;
    var now := |h| - 1;
    var db := h[now];
    var rows := ChargingRows(db.samples);
    OnlyAppends(h, now, now);
    if stored.Some? && stored.value.ctx == ctx && stored.value.rewrite == db.rewrite && usable {
      var p := stored.value;
      if p.revision != now {
        OnlyAppends(h, p.revision, now);
        AppendedRows(h[p.revision], db);
        var known := ChargingRows(h[p.revision].samples);
        Incremental(known, rows[|known|..], p.latest, ctx, w);
        assert rows == known + rows[|known|..];
      }
    } else {
      ChargingRowsOrdered(db.samples);
      forall r | r in rows ensures r.ts >= 0 {
        var s :| s in db.samples && s.row == r;
      }
      assert [] + rows == rows;
      NothingListed(ctx, w);
      ResumeAt([], rows, 0, ctx, w);
    }
  }

  lemma NothingListed(ctx: Context, w: World)
    ensures FullList([], ctx, w) == []
  {
  }

  lemma RowsBelow(samples: seq<Sample>, latest: int)
    requires Ordered(samples) && forall s :: s in samples ==> s.row.ts <= latest
    ensures forall r :: r in ChargingRows(samples) ==> r.ts <= latest
  {
  }

  lemma RowsAbove(samples: seq<Sample>, latest: int)
    requires Ordered(samples) && forall s :: s in samples ==> s.row.ts > latest
    ensures forall r :: r in ChargingRows(samples) ==> r.ts > latest
  {
  }

  /** The charging rows of a table that only grew past `latest`. */
  lemma AppendedRows(a: Db, b: Db)
    requires a.Valid() && b.Valid() && a.samples <= b.samples
    requires forall k :: |a.samples| <= k < |b.samples| ==> b.samples[k].row.ts > a.latest
    ensures
      var known, rows := ChargingRows(a.samples), ChargingRows(b.samples);
      && known <= rows && Increasing(known + rows[|known|..])
      && (forall r :: r in known ==> r.ts <= a.latest) && (forall r :: r in rows[|known|..] ==> r.ts > a.latest)
  {
    hide ChargingRows, Increasing;
    var known, rows := ChargingRows(a.samples), ChargingRows(b.samples);
    var tail := b.samples[|a.samples|..];
    assert b.samples == a.samples + tail;
    ChargingRowsConcat(a.samples, tail);
    assert rows[|known|..] == ChargingRows(tail) && known + rows[|known|..] == rows;
    ChargingRowsOrdered(b.samples);
    RowsBelow(a.samples, a.latest);
    RowsAbove(tail, a.latest);
  }
}
