/** Moving home without repricing the past: sessions that leave the Home circle
    are first tagged with a label that carries the Home rate. */
module HomeFreeze {
  import opened Options
  import opened ChargePricing
  import opened ChargeRates
  import opened ChargeSessions

  // ---- Which plan the label needs ------------------------------------------

  datatype RateCopy = Nothing | Conflict | Copy(plan: TagRate)

  predicate ConfiguredHome(rates: map<string, TagRate>, key: string) {
    key in rates && HomeSpelling(key) && rates[key].Configured()
  }

  predicate Prices(rates: map<string, TagRate>, key: string) {
    key in rates && rates[key].Configured()
  }

  /** Configured Home plans in the order the rate map enumerates its keys. */
  function HomePlans(rates: map<string, TagRate>, order: seq<string>): seq<TagRate> {
    if order == [] then []
    else
      var last := order[|order| - 1];
      HomePlans(rates, order[..|order| - 1]) + (if ConfiguredHome(rates, last) then [rates[last]] else [])
  }

  predicate NeighboursDiffer(plans: seq<TagRate>) {
    exists i, j :: 0 <= i && j == i + 1 < |plans| && plans[i] != plans[j]
  }

  /** What freezing under `tag` does to the rate map, or why it must not happen. */
  function HomeRateCopyPlan(rates: map<string, TagRate>, order: seq<string>, tag: string): RateCopy {
    var plans := HomePlans(rates, order);
    if NeighboursDiffer(plans) then Conflict
    else
      var home :=
        if Prices(rates, HOME_TAG) then Some(rates[HOME_TAG]) else if plans != [] then Some(plans[0]) else None;
      var dest := if Prices(rates, tag) then Some(rates[tag]) else None;
      match (home, dest)
      case (None, Some(_)) => Conflict
      case (None, None) => Nothing
      case (Some(h), None) => Copy(h)
      case (Some(h), Some(d)) => if h == d then Nothing else Conflict
  }

  /** The label prices a session exactly as Home did, and nothing else changed. */
  ghost predicate Carries(rates: RateConfig, tag: string, after: RateConfig) {
    && !HomeSpelling(tag)
    && after.default == rates.default && after.currency == rates.currency
    && (forall k :: k != tag ==> (k in after.tags <==> k in rates.tags))
    && (forall k :: k != tag && k in rates.tags ==> after.tags[k] == rates.tags[k])
    && (Prices(rates.tags, tag) ==> after == rates)
    && (if exists k :: ConfiguredHome(rates.tags, k)
        then Prices(after.tags, tag) && forall k :: ConfiguredHome(rates.tags, k) ==> rates.tags[k] == after.tags[tag]
        else after == rates && !Prices(rates.tags, tag))
  }

  predicate Enumerates(order: seq<string>, rates: map<string, TagRate>) {
    forall k :: k in rates ==> k in order
  }

  lemma {:induction false} HomePlansAre(rates: map<string, TagRate>, order: seq<string>)
    ensures forall k :: k in order && ConfiguredHome(rates, k) ==> rates[k] in HomePlans(rates, order)
    ensures forall p :: p in HomePlans(rates, order) ==> exists k :: ConfiguredHome(rates, k) && rates[k] == p
  {
    if order != [] {
      HomePlansAre(rates, order[..|order| - 1]);
    }
  }

  lemma {:induction false} AllEqual(plans: seq<TagRate>, i: nat)
    requires !NeighboursDiffer(plans) && i < |plans|
    ensures plans[i] == plans[0]
  {
    if i > 0 {
      AllEqual(plans, i - 1);
    }
  }

  /** Whatever order the map is enumerated in, an accepted plan carries the Home rate. */
  lemma PlanCarries(rates: RateConfig, order: seq<string>, tag: string)
    requires Enumerates(order, rates.tags) && !HomeSpelling(tag)
    ensures
      match HomeRateCopyPlan(rates.tags, order, tag)
      case Conflict => true
      case Nothing => Carries(rates, tag, rates)
      case Copy(plan) => !Prices(rates.tags, tag) && Carries(rates, tag, rates.(tags := rates.tags[tag := plan]))
  {
    var plans := HomePlans(rates.tags, order);
    HomePlansAre(rates.tags, order);
    if !NeighboursDiffer(plans) {
      forall k | ConfiguredHome(rates.tags, k) ensures plans != [] && rates.tags[k] == plans[0] {
        var i :| 0 <= i < |plans| && plans[i] == rates.tags[k];
        AllEqual(plans, i);
      }
      assert Prices(rates.tags, HOME_TAG) ==> ConfiguredHome(rates.tags, HOME_TAG);
      if plans != [] {
        assert plans[0] in plans;
      }
    }
  }

  // ---- When a freeze is refused ---------------------------------------------------

  ghost predicate HasHome(rates: map<string, TagRate>) {
    exists k :: ConfiguredHome(rates, k)
  }

  ghost predicate HomesAgreeOn(rates: map<string, TagRate>, plan: TagRate) {
    forall k :: ConfiguredHome(rates, k) ==> rates[k] == plan
  }

  /** Why a label cannot stand for Home: two spellings of Home have different plans,
      or the label prices sessions and Home does not, or both do, differently. */
  ghost predicate Conflicting(rates: map<string, TagRate>, tag: string) {
    || (exists a, b :: ConfiguredHome(rates, a) && ConfiguredHome(rates, b) && rates[a] != rates[b])
    || (Prices(rates, tag) && (!HasHome(rates) || !HomesAgreeOn(rates, rates[tag])))
  }

  /** The label has no plan of its own and Home has one, the same under every spelling. */
  ghost predicate NeedsCopy(rates: map<string, TagRate>, tag: string, plan: TagRate) {
    !Prices(rates, tag) && HasHome(rates) && HomesAgreeOn(rates, plan)
  }

  /** The answer depends on the rate map alone: a conflict exactly as described, a copy
      exactly of the plan all spellings of Home agree on, and nothing otherwise. */
  lemma CopyPlanIff(rates: map<string, TagRate>, order: seq<string>, tag: string)
    requires Enumerates(order, rates)
    ensures HomeRateCopyPlan(rates, order, tag) == Conflict <==> Conflicting(rates, tag)
    ensures forall plan :: HomeRateCopyPlan(rates, order, tag) == Copy(plan) <==> NeedsCopy(rates, tag, plan)
  {
    var plans := HomePlans(rates, order);
    HomePlansAre(rates, order);
    if NeighboursDiffer(plans) {
      var i, j :| 0 <= i && j == i + 1 < |plans| && plans[i] != plans[j];
      assert plans[i] in plans && plans[j] in plans;
    } else {
      forall k | ConfiguredHome(rates, k) ensures plans != [] && rates[k] == plans[0] {
        var i :| 0 <= i < |plans| && plans[i] == rates[k];
        AllEqual(plans, i);
      }
      if plans != [] {
        assert plans[0] in plans;
      }
      assert Prices(rates, HOME_TAG) ==> ConfiguredHome(rates, HOME_TAG);
      assert HasHome(rates) <==> plans != [];
    }
  }

  // ---- Costs under the label ------------------------------------------------

  /** A session that does not carry the label is priced as before. */
  lemma UnlabelledSame(rows: seq<ChargeRow>, tags: set<string>, atHome: bool, rates: RateConfig, tag: string,
                       after: RateConfig, clock: Clock)
    requires Carries(rates, tag, after) && (tag !in tags || after == rates)
    ensures CostAndRate(rows, tags, atHome, rates, clock) == CostAndRate(rows, tags, atHome, after, clock)
  {
    hide PlanCost, HomeSpelling, EnergyUsed;
    var before, now := RateKeys(tags, atHome, rates), RateKeys(tags, atHome, after);
    if after != rates {
      assert before == now;
      forall k | k in before ensures CostUnder(k, rows, rates, clock) == CostUnder(k, rows, after, clock) {
      }
      assert Costs(before, rows, rates, clock) == Costs(now, rows, after, clock);
    }
  }

  /** A session at Home is priced the same with the label, wherever home is afterwards. */
  lemma LabelledSame(rows: seq<ChargeRow>, tags: set<string>, atHome: bool, rates: RateConfig, tag: string,
                     after: RateConfig, clock: Clock)
    requires Carries(rates, tag, after)
    ensures CostAndRate(rows, tags, true, rates, clock) == CostAndRate(rows, tags + {tag}, atHome, after, clock)
  {
    hide PlanCost, HomeSpelling, EnergyUsed;
    var before, now := RateKeys(tags, true, rates), RateKeys(tags + {tag}, atHome, after);
    var was, isNow := Costs(before, rows, rates, clock), Costs(now, rows, after, clock);
    forall c | c in was ensures c in isNow {
      var k :| k in before && CostUnder(k, rows, rates, clock) == Some(c);
      assert CostUnder(k, rows, after, clock) == Some(c);
      if k !in now {
        assert ConfiguredHome(rates.tags, k);
        assert CostUnder(tag, rows, after, clock) == Some(c);
        assert tag in now;
      }
    }
    forall c | c in isNow ensures c in was {
      var k :| k in now && CostUnder(k, rows, after, clock) == Some(c);
      if k == tag {
        if exists h :: ConfiguredHome(rates.tags, h) {
          var h :| ConfiguredHome(rates.tags, h);
          assert CostUnder(h, rows, rates, clock) == Some(c);
          assert h in before;
        }
      } else {
        assert CostUnder(k, rows, rates, clock) == Some(c);
        assert k in before;
      }
    }
    assert was == isNow;
  }

  /** Before home moves, the label changes nothing even for sessions that had it. */
  lemma LabelledAtHome(rows: seq<ChargeRow>, tags: set<string>, rates: RateConfig, tag: string, after: RateConfig, clock: Clock)
    requires Carries(rates, tag, after)
    ensures CostAndRate(rows, tags, true, rates, clock) == CostAndRate(rows, tags, true, after, clock)
  {
    if tag in tags {
      assert tags + {tag} == tags;
      LabelledSame(rows, tags, true, rates, tag, after, clock);
    } else {
      UnlabelledSame(rows, tags, true, rates, tag, after, clock);
    }
  }

  // ---- The freeze ------------------------------------------------------------

  predicate LosesHome(rows: seq<ChargeRow>, w: World, from: Option<Home>, to: Option<Home>) {
    from.Some? && w.AtHome(rows, from) && !w.AtHome(rows, to)
  }

  /** Ids of the sessions a move would untag. */
  function Leaving(gs: seq<Group>, w: World, from: Option<Home>, to: Option<Home>): set<int> {
    set g: Group | g in gs && LosesHome(g, w, from, to) :: g[0].ts
  }

  function Tagged(tags: map<int, seq<string>>, ids: set<int>, tag: string): map<int, seq<string>> {
    map id | id in tags.Keys + ids ::
      var have := if id in tags then tags[id] else [];
      if id in ids && tag !in have then have + [tag] else have
  }

  /** Another session already uses the label. */
  predicate LabelInUse(tags: map<int, seq<string>>, ids: set<int>, tag: string) {
    exists id :: id in tags && id !in ids && tag in tags[id]
  }

  /** The cost and the per-kWh rate shown for one session are the same. */
  ghost predicate SameCost(g: Group, a: Context, b: Context, w: World) {
    Priced(g, a, w).cost == Priced(g, b, w).cost && Priced(g, a, w).rate == Priced(g, b, w).rate
  }

  ghost predicate SameCosts(gs: seq<Group>, a: Context, b: Context, w: World) {
    forall g :: g in gs ==> SameCost(g, a, b, w)
  }

  predicate DistinctStarts(gs: seq<Group>) {
    forall g: Group, h: Group :: g in gs && h in gs && g[0].ts == h[0].ts ==> g == h
  }

  /** The context after an accepted freeze: rates carry the label, leaving sessions are tagged. */
  ghost predicate Frozen(gs: seq<Group>, ctx: Context, tag: string, ids: set<int>, after: Context) {
    && Carries(ctx.rates, tag, after.rates)
    && after.tags == Tagged(ctx.tags, ids, tag)
    && after.costs == ctx.costs && after.zone == ctx.zone
    && (after.rates != ctx.rates ==> !LabelInUse(ctx.tags, ids, tag))
  }

  /** The heart of the freeze: after it, a session keeps its cost and its blended
      rate wherever home goes, provided every session that leaves Home was frozen
      and the session does not newly enter the circle. */
  lemma FrozenKeepsCost(gs: seq<Group>, g: Group, ctx: Context, tag: string, projected: Option<Home>, after: Context, w: World)
    requires g in gs && DistinctStarts(gs)
    requires Frozen(gs, ctx, tag, Leaving(gs, w, ctx.home, projected), after)
    requires LosesHome(g, w, ctx.home, after.home) ==> LosesHome(g, w, ctx.home, projected)
    requires w.AtHome(g, ctx.home) || !w.AtHome(g, after.home)
    ensures SameCost(g, ctx, after, w)
  {
    hide CostAndRate, Carries, Priced, SameCost, Leaving, Tagged;
    var id := g[0].ts;
    var ids := Leaving(gs, w, ctx.home, projected);
    var clock := w.ClockOf(ctx.zone);
    var tags := TagSet(ctx.TagsOf(id));
    LeavingMember(gs, g, w, ctx.home, projected);
    TagsAfter(ctx, ids, tag, after, id);
    if id in ids {
      LabelledSame(g, tags, w.AtHome(g, after.home), ctx.rates, tag, after.rates, clock);
    } else {
      UnlabelledSame(g, tags, w.AtHome(g, ctx.home), ctx.rates, tag, after.rates, clock);
    }
    CostsDecide(g, ctx, after, w);
  }

  lemma LeavingMember(gs: seq<Group>, g: Group, w: World, from: Option<Home>, to: Option<Home>)
    requires g in gs && DistinctStarts(gs)
    ensures g[0].ts in Leaving(gs, w, from, to) <==> LosesHome(g, w, from, to)
  {
  }

  lemma TagsAfter(ctx: Context, ids: set<int>, tag: string, after: Context, id: int)
    requires after.tags == Tagged(ctx.tags, ids, tag)
    ensures id in ids ==> TagSet(after.TagsOf(id)) == TagSet(ctx.TagsOf(id)) + {tag}
    ensures id !in ids ==> after.TagsOf(id) == ctx.TagsOf(id)
  {
  }

  /** After a freeze exactly the sessions inside the old circle and outside the
      projected one have gained the label; all others keep their tags. */
  lemma FrozenTags(gs: seq<Group>, g: Group, ctx: Context, tag: string, projected: Option<Home>, after: Context, w: World)
    requires g in gs && DistinctStarts(gs)
    requires Frozen(gs, ctx, tag, Leaving(gs, w, ctx.home, projected), after)
    ensures
      var leaves := w.AtHome(g, ctx.home) && !w.AtHome(g, projected);
      && TagSet(after.TagsOf(g[0].ts)) == TagSet(ctx.TagsOf(g[0].ts)) + (if leaves then {tag} else {})
      && (!leaves ==> after.TagsOf(g[0].ts) == ctx.TagsOf(g[0].ts))
  {
    hide Carries, Leaving, Tagged;
    LeavingMember(gs, g, w, ctx.home, projected);
    TagsAfter(ctx, Leaving(gs, w, ctx.home, projected), tag, after, g[0].ts);
  }

  lemma CostsDecide(g: Group, a: Context, b: Context, w: World)
    requires a.costs == b.costs
    requires CostAndRate(g, TagSet(a.TagsOf(g[0].ts)), w.AtHome(g, a.home), a.rates, w.ClockOf(a.zone)) ==
             CostAndRate(g, TagSet(b.TagsOf(g[0].ts)), w.AtHome(g, b.home), b.rates, w.ClockOf(b.zone))
    ensures SameCost(g, a, b, w)
  {
  }

  /** Copying the rate alone, with no session tagged yet, changes no cost. */
  lemma CopyKeepsCost(gs: seq<Group>, g: Group, ctx: Context, tag: string, projected: Option<Home>, rates: RateConfig, w: World)
    requires g in gs && DistinctStarts(gs) && Carries(ctx.rates, tag, rates)
    requires rates != ctx.rates ==> !LabelInUse(ctx.tags, Leaving(gs, w, ctx.home, projected), tag)
    ensures SameCost(g, ctx, ctx.(rates := rates), w)
  {
    hide CostAndRate, Carries, Priced, SameCost, Leaving;
    var id := g[0].ts;
    var tags := TagSet(ctx.TagsOf(id));
    var clock := w.ClockOf(ctx.zone);
    LeavingMember(gs, g, w, ctx.home, projected);
    if id in Leaving(gs, w, ctx.home, projected) {
      LabelledAtHome(g, tags, ctx.rates, tag, rates, clock);
    } else {
      UnlabelledSame(g, tags, w.AtHome(g, ctx.home), ctx.rates, tag, rates, clock);
    }
    CostsDecide(g, ctx, ctx.(rates := rates), w);
  }
}
