/** Sessions: contiguous charging rows split wherever the gap between two rows
    exceeds `SESSION_GAP_SECS`, and the newest-first list priced from them. */
module ChargeSessions {
  import opened Options
  import opened ChargePricing
  import opened ChargeRates

  const SESSION_GAP_SECS: int := 1800

  type Group = g: seq<ChargeRow> | |g| > 0 witness [ChargeRow(0, None, None, None, None, None)]

  predicate Increasing(rows: seq<ChargeRow>) {
    forall i, j :: 0 <= i < j < |rows| ==> rows[i].ts < rows[j].ts
  }

  function LastTs(g: Group): int {
    g[|g| - 1].ts
  }

  /** A row joins the open session unless the gap is too long. */
  function AddRow(gs: seq<Group>, r: ChargeRow): seq<Group> {
    if gs != [] && r.ts - LastTs(gs[|gs| - 1]) <= SESSION_GAP_SECS
    then gs[..|gs| - 1] + [gs[|gs| - 1] + [r]]
    else gs + [[r]]
  }

  function Grouped(rows: seq<ChargeRow>): seq<Group> {
    if rows == [] then [] else AddRow(Grouped(rows[..|rows| - 1]), rows[|rows| - 1])
  }

  method GroupSessions(rows: seq<ChargeRow>) returns (sessions: seq<Group>)
    ensures sessions == Grouped(rows)
  {
    sessions := [];
    for i := 0 to |rows|
      invariant sessions == Grouped(rows[..i])
    {
      assert rows[..i + 1][..i] == rows[..i];
      var row := rows[i];
      var last := |sessions| - 1;
      if last >= 0 && row.ts - LastTs(sessions[last]) <= SESSION_GAP_SECS {
        sessions := sessions[..last] + [sessions[last] + [row]];
      } else {
        sessions := sessions + [[row]];
      }
    }
    assert rows[..|rows|] == rows;
  }

  // ---- Where a session boundary lies ---------------------------------------

  /** `gs` ends in a session that is a suffix of the rows; what precedes it forms
      exactly the other sessions and lies more than the gap before it. */
  predicate EndsInSession(rows: seq<ChargeRow>, gs: seq<Group>) {
    rows != [] && gs != [] &&
    var g := gs[|gs| - 1];
    var cut := |rows| - |g|;
    && cut >= 0 && rows[cut..] == g && Grouped(rows[..cut]) == gs[..|gs| - 1]
    && (cut > 0 ==> g[0].ts - rows[cut - 1].ts > SESSION_GAP_SECS)
  }

  lemma JoinsLast(rows: seq<ChargeRow>, gs: seq<Group>, r: ChargeRow)
    requires EndsInSession(rows, gs)
    ensures EndsInSession(rows + [r], gs[..|gs| - 1] + [gs[|gs| - 1] + [r]])
  {
    hide Grouped;
    var g := gs[|gs| - 1];
    var cut := |rows| - |g|;
    assert (rows + [r])[..cut] == rows[..cut];
    assert (rows + [r])[cut..] == rows[cut..] + [r];
    assert (gs[..|gs| - 1] + [g + [r]])[..|gs| - 1] == gs[..|gs| - 1];
  }

  lemma OpensNew(rows: seq<ChargeRow>, r: ChargeRow)
    requires rows == [] || r.ts - rows[|rows| - 1].ts > SESSION_GAP_SECS
    ensures EndsInSession(rows + [r], Grouped(rows) + [[r]])
  {
    hide Grouped;
    assert (rows + [r])[..|rows|] == rows;
  }

  lemma {:induction false} LastSession(rows: seq<ChargeRow>)
    requires rows != []
    ensures EndsInSession(rows, Grouped(rows))
  {
    hide EndsInSession;
    var n := |rows| - 1;
    var before := Grouped(rows[..n]);
    assert rows == rows[..n] + [rows[n]];
    if n > 0 {
      LastSession(rows[..n]);
      LastRowEnds(rows[..n], before);
      if rows[n].ts - LastTs(before[|before| - 1]) <= SESSION_GAP_SECS {
        JoinsLast(rows[..n], before, rows[n]);
      } else {
        OpensNew(rows[..n], rows[n]);
      }
    } else {
      OpensNew(rows[..n], rows[n]);
    }
  }

  lemma LastRowEnds(rows: seq<ChargeRow>, gs: seq<Group>)
    requires EndsInSession(rows, gs)
    ensures rows != [] && gs != [] && LastTs(gs[|gs| - 1]) == rows[|rows| - 1].ts
  {
  }

  lemma AddRowRight(xs: seq<Group>, ys: seq<Group>, r: ChargeRow)
    requires ys != []
    ensures AddRow(xs + ys, r) == xs + AddRow(ys, r)
  {
  }

  /** A gap separates sessions: grouping splits there. */
  lemma {:induction false} GroupsSplit(a: seq<ChargeRow>, b: seq<ChargeRow>)
    requires a == [] || b == [] || b[0].ts - a[|a| - 1].ts > SESSION_GAP_SECS
    ensures Grouped(a + b) == Grouped(a) + Grouped(b)
  {
    if b == [] {
      assert a + b == a;
    } else {
      var n := |b| - 1;
      assert (a + b)[..|a + b| - 1] == a + b[..n];
      GroupsSplit(a, b[..n]);
      if n == 0 {
        assert b[..n] == [] && a + [] == a;
        if a != [] {
          LastSession(a);
          LastRowEnds(a, Grouped(a));
        }
        assert Grouped(b) == [[b[0]]];
      } else {
        hide AddRow;
        LastSession(b[..n]);
        AddRowRight(Grouped(a), Grouped(b[..n]), b[n]);
      }
    }
  }

  predicate StartsIncrease(gs: seq<Group>) {
    forall i, j :: 0 <= i < j < |gs| ==> gs[i][0].ts < gs[j][0].ts
  }

  /** Sessions start in increasing order. */
  lemma {:induction false} IdsIncrease(rows: seq<ChargeRow>)
    requires Increasing(rows)
    ensures StartsIncrease(Grouped(rows))
    ensures forall g :: g in Grouped(rows) ==> g[0] in rows
  {
    if rows != [] {
      LastSession(rows);
      var gs := Grouped(rows);
      var g := gs[|gs| - 1];
      var cut := |rows| - |g|;
      hide Grouped;
      IdsIncrease(rows[..cut]);
      assert g[0] == rows[cut];
      var m := |gs| - 1;
      forall i, j | 0 <= i < j < |gs| ensures gs[i][0].ts < gs[j][0].ts {
        assert gs[..m][i] == gs[i];
        if j == m {
          assert gs[i] in Grouped(rows[..cut]);
        } else {
          assert gs[..m][j] == gs[j];
        }
      }
      forall h | h in gs ensures h[0] in rows {
        if h != g {
          assert h in gs[..m];
        }
      }
    }
  }

  // ---- What a grouping is ------------------------------------------------------

  function Flattened(gs: seq<Group>): seq<ChargeRow> {
    if gs == [] then [] else Flattened(gs[..|gs| - 1]) + gs[|gs| - 1]
  }

  predicate Contiguous(g: Group) {
    forall i, j :: 0 <= i && j == i + 1 < |g| ==> g[j].ts - g[i].ts <= 30 * 60
  }

  predicate Apart(gs: seq<Group>) {
    forall i, j :: 0 <= i && j == i + 1 < |gs| ==> gs[j][0].ts - LastTs(gs[i]) > 30 * 60
  }

  lemma ContiguousGrows(g: Group, r: ChargeRow)
    requires Contiguous(g) && r.ts - LastTs(g) <= SESSION_GAP_SECS
    ensures Contiguous(g + [r])
  {
  }

  lemma {:induction false} AllContiguous(rows: seq<ChargeRow>)
    ensures forall g :: g in Grouped(rows) ==> Contiguous(g)
  {
    if rows != [] {
      var n := |rows| - 1;
      AllContiguous(rows[..n]);
      var gs := Grouped(rows[..n]);
      var now := AddRow(gs, rows[n]);
      hide Contiguous, Grouped;
      if gs != [] && rows[n].ts - LastTs(gs[|gs| - 1]) <= SESSION_GAP_SECS {
        var m := |gs| - 1;
        assert gs[m] in gs;
        ContiguousGrows(gs[m], rows[n]);
      } else {
        SingleContiguous(rows[n]);
      }
      assert Grouped(rows) == now;
    }
  }

  lemma SingleContiguous(r: ChargeRow)
    ensures Contiguous([r])
  {
  }

  lemma ApartGrows(gs: seq<Group>, g: Group)
    requires Apart(gs) && (gs != [] ==> g[0].ts - LastTs(gs[|gs| - 1]) > SESSION_GAP_SECS)
    ensures Apart(gs + [g])
  {
    var now := gs + [g];
    forall i, j | 0 <= i && j == i + 1 < |now| ensures now[j][0].ts - LastTs(now[i]) > SESSION_GAP_SECS {
      assert now[i] == gs[i];
      if j < |gs| {
        assert now[j] == gs[j];
      }
    }
  }

  /** The grouping holds every row in order, no session has an inner gap longer than
      30 minutes, and adjacent sessions are further apart than that. */
  lemma {:induction false} GroupingIs(rows: seq<ChargeRow>)
    ensures Flattened(Grouped(rows)) == rows
    ensures (forall g :: g in Grouped(rows) ==> Contiguous(g)) && Apart(Grouped(rows))
  {
    hide Contiguous, Apart;
    AllContiguous(rows);
    if rows == [] {
      NothingApart();
    } else {
      LastSession(rows);
      var gs := Grouped(rows);
      var m := |gs| - 1;
      var cut := |rows| - |gs[m]|;
      var early := Grouped(rows[..cut]);
      assert gs == early + [gs[m]] && rows == rows[..cut] + gs[m];
      GroupingIs(rows[..cut]);
      if cut > 0 {
        LastSession(rows[..cut]);
        LastRowEnds(rows[..cut], early);
      }
      hide Grouped;
      ApartGrows(early, gs[m]);
    }
  }

  lemma NothingApart()
    ensures Apart([])
  {
  }

  // ---- The priced list -------------------------------------------------------

  datatype Home = Home(lat: real, lon: real, radiusM: real)
  type Zone = string

  /** What lies outside this model: the representative fix of a session, whether a
      fix is inside a circle, and local time. */
  datatype World = World(fixOf: seq<ChargeRow> -> Option<(real, real)>, contains: (Home, (real, real)) -> bool,
                         clocks: (Zone, int) -> Option<LocalTime>)
  {
    function ClockOf(zone: Zone): Clock {
      ts => clocks(zone, ts)
    }

    predicate AtHome(rows: seq<ChargeRow>, home: Option<Home>) {
      home.Some? && fixOf(rows).Some? && contains(home.value, fixOf(rows).value)
    }
  }

  /** Everything besides telemetry that a listed session depends on. */
  datatype Context = Context(rates: RateConfig, home: Option<Home>, tags: map<int, seq<string>>,
                             costs: map<int, (real, string)>, zone: Zone)
  {
    function TagsOf(id: int): seq<string> {
      if id in tags then tags[id] else []
    }

    function OverrideOf(id: int): Option<(real, string)> {
      if id in costs then Some(costs[id]) else None
    }
  }

  function Summarized(rows: Group): Summary {
    Summary(rows[0].ts, LastTs(rows), EnergyUsed(rows), [], None, None, "", false, false)
  }

  /** One session as it must be listed. */
  ghost function Priced(rows: Group, ctx: Context, w: World): (s: Summary)
    ensures s.id == rows[0].ts && s.endTs == LastTs(rows)
  {
    var id, atHome := rows[0].ts, w.AtHome(rows, ctx.home);
    var tags := ctx.TagsOf(id);
    var (cost, rate) := CostAndRate(rows, TagSet(tags), atHome, ctx.rates, w.ClockOf(ctx.zone));
    ApplyCostOverride(Summarized(rows).(cost := cost, rate := rate, currency := ctx.rates.currency, tags := tags,
                                        atHome := atHome), ctx.OverrideOf(id))
  }

  method PriceSession(rows: Group, ctx: Context, w: World) returns (s: Summary)
    ensures s == Priced(rows, ctx, w)
  {
    s := Summarized(rows);
    var stored := ctx.TagsOf(s.id);
    var atHome := w.AtHome(rows, ctx.home);
    var override := ctx.OverrideOf(s.id);
    s := ApplyRates(s, rows, stored, atHome, ctx.rates, w.ClockOf(ctx.zone));
    s := ApplyCostOverride(s, override);
  }

  /** What is shown for a session: a stored manual total wins and shows no rate; else
      the cost and rate its own tags, its place and the rates give. */
  lemma PricedShows(rows: Group, ctx: Context, w: World)
    ensures
      var s, id := Priced(rows, ctx, w), rows[0].ts;
      var (cost, rate) := CostAndRate(rows, TagSet(ctx.TagsOf(id)), w.AtHome(rows, ctx.home), ctx.rates, w.ClockOf(ctx.zone));
      && s.tags == ctx.TagsOf(id) && s.atHome == w.AtHome(rows, ctx.home) && s.energyUsed == EnergyUsed(rows)
      && (id in ctx.costs ==>
            && s.cost == Some(ctx.costs[id].0) && s.rate == None && s.overridden
            && s.currency == (if ctx.costs[id].1 == "" then ctx.rates.currency else ctx.costs[id].1))
      && (id !in ctx.costs ==> s.cost == cost && s.rate == rate && !s.overridden && s.currency == ctx.rates.currency)
  {
    hide CostAndRate;
  }

  ghost function PricedAll(gs: seq<Group>, ctx: Context, w: World): (r: seq<Summary>)
    ensures |r| == |gs|
  {
    seq(|gs|, i requires 0 <= i < |gs| => Priced(gs[i], ctx, w))
  }

  function Reversed(s: seq<Summary>): (r: seq<Summary>)
    ensures |r| == |s|
  {
    seq(|s|, i requires 0 <= i < |s| => s[|s| - 1 - i])
  }

  /** The full rebuild: every session of the rows, priced, newest first. */
  ghost function FullList(rows: seq<ChargeRow>, ctx: Context, w: World): seq<Summary> {
    Reversed(PricedAll(Grouped(rows), ctx, w))
  }

  predicate NewestFirst(s: seq<Summary>) {
    forall i, j :: 0 <= i < j < |s| ==> s[i].id > s[j].id
  }

  lemma FullListNewestFirst(rows: seq<ChargeRow>, ctx: Context, w: World)
    requires Increasing(rows)
    ensures NewestFirst(FullList(rows, ctx, w))
  {
    hide Priced;
    IdsIncrease(rows);
    var gs, list := Grouped(rows), FullList(rows, ctx, w);
    forall i, j | 0 <= i < j < |list| ensures list[i].id > list[j].id {
      var older, newer := |gs| - 1 - j, |gs| - 1 - i;
      assert 0 <= older < newer < |gs|;
      assert gs[older][0].ts < gs[newer][0].ts;
      var g, h := gs[newer], gs[older];
      assert list[i] == Priced(g, ctx, w) && list[j] == Priced(h, ctx, w);
    }
  }
}
