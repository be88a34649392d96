/** The stored side of a home move: rate preferences, session tags and the
    configured circle, changed in the order freeze first, then move. */
module HomeMove {
  import opened Options
  import opened Text
  import opened ChargePricing
  import opened ChargeRates
  import opened ChargeSessions
  import opened HomeFreeze

  /** Publishing preferences goes through, fails, or fails only after they are in place. */
  datatype Publish = Published | NotWritten | WrittenLate

  /** How the reads and writes of one freeze turn out. */
  datatype FreezeIo = FreezeIo(homeReadable: bool, sessionsReadable: bool, prefsReadable: bool, tagsReadable: bool,
                               publish: Publish, tagsWritable: bool)

  lemma StartsAreDistinct(rows: seq<ChargeRow>)
    requires Increasing(rows)
    ensures DistinctStarts(Grouped(rows))
  {
    IdsIncrease(rows);
  }

  /** When nothing leaves and nothing enters, moving home changes no cost. */
  lemma StaysPut(g: Group, ctx: Context, home: Option<Home>, w: World)
    requires w.AtHome(g, home) == w.AtHome(g, ctx.home)
    ensures SameCost(g, ctx, ctx.(home := home), w)
  {
  }

  class ChargeBook {
    const rows: seq<ChargeRow>
    const zone: Zone
    const world: World
    var rates: RateConfig
    var tags: map<int, seq<string>>
    var costs: map<int, (real, string)>
    var home: Option<Home>

    ghost function View(): Context
      reads this
    {
      Context(rates, home, tags, costs, zone)
    }

    ghost function Sessions(): seq<Group> {
      Grouped(rows)
    }

    /** The label can be given the Home rate: it prices like Home already, or it can
        be given that rate without repricing another session. */
    ghost predicate Copyable(tag: string, ids: set<int>, io: FreezeIo)
      reads this
    {
      && io.prefsReadable && !Conflicting(rates.tags, tag)
      && (Prices(rates.tags, tag) ==> io.publish.Published?)
      && (!Prices(rates.tags, tag) && HasHome(rates.tags) ==>
            && io.tagsReadable && io.publish.Published?
            && forall id :: id in tags && id !in ids ==> tag !in tags[id])
    }

    /** Give the label the Home rate, unless that would reprice anything. */
    method CopyHomeRateTo(tag: string, order: seq<string>, ids: set<int>, io: FreezeIo) returns (ok: bool)
      requires Enumerates(order, rates.tags) && !HomeSpelling(tag)
      modifies this`rates
      ensures ok <==> old(Copyable(tag, ids, io))
      ensures !ok && !io.publish.WrittenLate? ==> rates == old(rates)
      ensures rates != old(rates) ==> Carries(old(rates), tag, rates) && !LabelInUse(tags, ids, tag)
      ensures ok ==> Carries(old(rates), tag, rates)
    {
      PlanCarries(rates, order, tag);
      CopyPlanIff(rates.tags, order, tag);
      CopyOrNot(rates.tags, order, tag);
      if !io.prefsReadable {
        return false;
      }
      match HomeRateCopyPlan(rates.tags, order, tag)
      case Nothing => ok := Prices(rates.tags, tag) ==> io.publish.Published?;
      case Conflict => ok := false;
      case Copy(plan) =>
        if !io.tagsReadable || LabelInUse(tags, ids, tag) {
          return false;
        }
        if !io.publish.NotWritten? {
          rates := rates.(tags := rates.tags[tag := plan]);
        }
        ok := io.publish.Published?;
    }

    /** One transaction: every id gains the tag unless it has it. */
    method AddChargeTagBulk(ids: set<int>, tag: string)
      modifies this`tags
      ensures tags == Tagged(old(tags), ids, tag)
    {
      hide Tagged;
      var todo := ids;
      assert ids - todo == {};
      TagNone(tags, tag);
      while todo != {}
        invariant todo <= ids && tags == Tagged(old(tags), ids - todo, tag)
        decreases todo
      {
        NonEmpty(todo);
        var id :| id in todo;
        TagOne(old(tags), ids - todo, tag, id);
        assert (ids - todo) + {id} == ids - (todo - {id});
        var have := if id in tags then tags[id] else [];
        tags := tags[id := if tag in have then have else have + [tag]];
        todo := todo - {id};
      }
      assert ids - todo == ids;
    }

    /** The freeze is accepted: everything it reads can be read, and no session
        leaves or the label can be given the Home rate and the tags be written. */
    ghost predicate Freezable(name: string, projected: Option<Home>, io: FreezeIo)
      reads this
    {
      var ids := set g: Group | g in Sessions() && world.AtHome(g, home) && !world.AtHome(g, projected) :: g[0].ts;
      && Trim(name) != "" && !EqIgnoreAsciiCase(Trim(name), "Home") && !EqIgnoreAsciiCase(Trim(name), "Fast charging")
      && io.homeReadable && (home.Some? ==> io.sessionsReadable)
      && (ids == {} || (Copyable(Trim(name), ids, io) && io.tagsWritable))
    }

    /** Freeze the sessions a move would untag. Whatever fails, nothing is repriced
        while home stays where it is, and a refusal leaves every tag as it was. */
    method FreezeHomeSessions(name: string, projected: Option<Home>, order: seq<string>, io: FreezeIo)
      returns (frozen: bool)
      requires Increasing(rows) && Enumerates(order, rates.tags)
      modifies this`rates, this`tags
      ensures SameCosts(Sessions(), old(View()), View(), world)
      ensures !frozen ==> tags == old(tags)
      ensures frozen <==> old(Freezable(name, projected, io))
      ensures
        var ids := Leaving(Sessions(), world, home, projected);
        frozen ==> if ids == {} then View() == old(View()) else Frozen(Sessions(), old(View()), Trim(name), ids, View())
      ensures frozen ==> forall g: Group :: g in Sessions() ==>
                TagSet(View().TagsOf(g[0].ts)) == TagSet(old(View()).TagsOf(g[0].ts))
                                                  + (if world.AtHome(g, home) && !world.AtHome(g, projected) then {Trim(name)} else {})
    {
      hide Priced, Carries, HomeRateCopyPlan, Grouped, Leaving, Tagged, Trim, Reserved, EqIgnoreAsciiCase;
      ghost var before := View();
      var tag := Trim(name);
      frozen := false;
      ReservedAre(tag);
      if tag == "" || Reserved(tag) || !io.homeReadable || (home.Some? && !io.sessionsReadable) {
        return;
      }
      NotHome(tag);
      StartsAreDistinct(rows);
      var ids := Leaving(Grouped(rows), world, home, projected);
      LeavingAre(Sessions(), world, home, projected);
      if ids == {} {
        frozen := true;
        forall g: Group | g in Sessions() ensures !(world.AtHome(g, home) && !world.AtHome(g, projected)) {
          LeavingMember(Sessions(), g, world, home, projected);
        }
        return;
      }
      var ok := CopyHomeRateTo(tag, order, ids, io);
      forall g | g in Sessions() ensures SameCost(g, before, View(), world) {
        assert View() == before.(rates := rates);
        if rates != before.rates {
          CopyKeepsCost(Sessions(), g, before, tag, projected, rates, world);
        }
      }
      if !ok || !io.tagsWritable {
        return;
      }
      AddChargeTagBulk(ids, tag);
      frozen := true;
      assert Frozen(Sessions(), before, tag, ids, View());
      forall g: Group | g in Sessions()
        ensures TagSet(View().TagsOf(g[0].ts)) == TagSet(before.TagsOf(g[0].ts))
                                                  + (if world.AtHome(g, home) && !world.AtHome(g, projected) then {tag} else {})
      {
        FrozenTags(Sessions(), g, before, tag, projected, View(), world);
      }
      forall g | g in Sessions() ensures SameCost(g, before, View(), world) {
        FrozenKeepsCost(Sessions(), g, before, tag, projected, View(), world);
      }
    }

    /** `keep_accessory_config_set` for a circle already normalized: freeze under
        the label if one is given, then persist the new circle. `projectable` is
        whether the first read of the old circle succeeds; the configuration is read
        and written again for the move itself. */
    method SetHome(freezeAs: Option<string>, target: Home, order: seq<string>, projectable: bool, io: FreezeIo,
                   configReadable: bool, configWritable: bool) returns (moved: bool)
      requires Increasing(rows) && Enumerates(order, rates.tags)
      modifies this`rates, this`tags, this`home
      ensures home == if moved then Some(target) else old(home)
      ensures moved <==>
              && configReadable && configWritable
              && (freezeAs.None? || Trim(freezeAs.value) == ""
                  || old(Freezable(freezeAs.value, if home.Some? && projectable then Some(target) else None, io)))
      ensures !moved ==> SameCosts(Sessions(), old(View()), View(), world)
      ensures moved && freezeAs.Some? && Trim(freezeAs.value) != "" ==>
                forall g :: g in Sessions() && (world.AtHome(g, old(home)) || !world.AtHome(g, home)) ==>
                  SameCost(g, old(View()), View(), world)
      ensures freezeAs.None? || Trim(freezeAs.value) == "" ==> tags == old(tags) && rates == old(rates)
    {
      hide Priced, Frozen, Grouped, Leaving, Trim, HomeRateCopyPlan;
      ghost var before := View();
      var froze := false;
      var projected := if home.Some? && projectable then Some(target) else None;
      if freezeAs.Some? && Trim(freezeAs.value) != "" {
        froze := FreezeHomeSessions(freezeAs.value, projected, order, io);
        if !froze {
          return false;
        }
      }
      ghost var frozen := View();
      moved := configReadable && configWritable;
      if moved {
        home := Some(target);
        if froze {
          StartsAreDistinct(rows);
          forall g | g in Sessions() && (world.AtHome(g, old(home)) || !world.AtHome(g, home))
            ensures SameCost(g, before, View(), world)
          {
            LeavingMember(Sessions(), g, world, old(home), projected);
            if Leaving(Sessions(), world, old(home), projected) == {} {
              assert View() == before.(home := home);
              StaysPut(g, before, home, world);
            } else {
              MovedKeepsCost(Sessions(), g, before, Trim(freezeAs.value), projected, frozen, home, world);
              assert View() == frozen.(home := home);
            }
          }
        }
      }
    }
  }

  lemma CopyOrNot(rates: map<string, TagRate>, order: seq<string>, tag: string)
    requires Enumerates(order, rates)
    ensures !Conflicting(rates, tag) ==> (HomeRateCopyPlan(rates, order, tag).Copy? <==> !Prices(rates, tag) && HasHome(rates))
  {
    CopyPlanIff(rates, order, tag);
    if !Conflicting(rates, tag) && HasHome(rates) && !Prices(rates, tag) {
      var k :| ConfiguredHome(rates, k);
      assert NeedsCopy(rates, tag, rates[k]);
    }
    if HomeRateCopyPlan(rates, order, tag).Copy? {
      assert NeedsCopy(rates, tag, HomeRateCopyPlan(rates, order, tag).plan);
    }
  }

  /** The sessions that leave, spelled out. */
  lemma LeavingAre(gs: seq<Group>, w: World, from: Option<Home>, to: Option<Home>)
    ensures Leaving(gs, w, from, to) == set g: Group | g in gs && w.AtHome(g, from) && !w.AtHome(g, to) :: g[0].ts
  {
    forall g: Group ensures LosesHome(g, w, from, to) <==> w.AtHome(g, from) && !w.AtHome(g, to) {
    }
  }

  lemma MovedKeepsCost(gs: seq<Group>, g: Group, ctx: Context, tag: string, projected: Option<Home>, frozen: Context,
                       home: Option<Home>, w: World)
    requires g in gs && DistinctStarts(gs) && Frozen(gs, ctx, tag, Leaving(gs, w, ctx.home, projected), frozen)
    requires projected == home || projected == None
    requires w.AtHome(g, ctx.home) || !w.AtHome(g, home)
    ensures SameCost(g, ctx, frozen.(home := home), w)
  {
    hide Priced, Carries, Leaving, Tagged, SameCost;
    FrozenKeepsCost(gs, g, ctx, tag, projected, frozen.(home := home), w);
  }

  lemma NonEmpty(ids: set<int>)
    ensures ids != {} ==> exists id :: id in ids
  {
    if forall id :: id !in ids {
      assert ids == {};
    }
  }

  lemma TagNone(tags: map<int, seq<string>>, tag: string)
    ensures Tagged(tags, {}, tag) == tags
  {
  }

  lemma TagOne(tags: map<int, seq<string>>, ids: set<int>, tag: string, id: int)
    requires id !in ids
    ensures
      var now := Tagged(tags, ids, tag);
      var have := if id in now then now[id] else [];
      Tagged(tags, ids + {id}, tag) == now[id := if tag in have then have else have + [tag]]
  {
  }

  lemma ReservedAre(tag: string)
    ensures Reserved(tag) <==> EqIgnoreAsciiCase(tag, "Home") || EqIgnoreAsciiCase(tag, "Fast charging")
  {
  }

  lemma NotHome(tag: string)
    requires !Reserved(tag)
    ensures !HomeSpelling(tag)
  {
  }
}
