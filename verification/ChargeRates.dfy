/** From rates, tags and the Home circle to the cost and blended rate shown for
    one charge session. */
module ChargeRates {
  import opened Options
  import opened ChargePricing

  const HOME_TAG: string := "Home"
  const FAST_TAG: string := "Fast charging"

  function LowerAscii(c: char): char {
    if 'A' <= c <= 'Z' then (c as int + 32) as char else c
  }

  predicate EqIgnoreAsciiCase(a: string, b: string) {
    |a| == |b| && forall i :: 0 <= i < |a| ==> LowerAscii(a[i]) == LowerAscii(b[i])
  }

  predicate HomeSpelling(key: string) {
    EqIgnoreAsciiCase(key, HOME_TAG)
  }

  predicate Reserved(tag: string) {
    HomeSpelling(tag) || EqIgnoreAsciiCase(tag, FAST_TAG)
  }

  /** A key means Home exactly when it spells the word, in any case. */
  lemma HomeSpellingIff(key: string)
    ensures HomeSpelling(key) <==>
            |key| == 4 && (key[0] == 'H' || key[0] == 'h') && (key[1] == 'O' || key[1] == 'o')
            && (key[2] == 'M' || key[2] == 'm') && (key[3] == 'E' || key[3] == 'e')
  {
    assert HOME_TAG[0] == 'H' && HOME_TAG[1] == 'o' && HOME_TAG[2] == 'm' && HOME_TAG[3] == 'e';
    if |key| == 4 {
      assert HomeSpelling(key) <==> forall i :: 0 <= i < 4 ==> LowerAscii(key[i]) == LowerAscii(HOME_TAG[i]);
    }
  }

  datatype RateConfig = RateConfig(currency: string, default: Option<real>, tags: map<string, TagRate>)

  /** One session as listed. */
  datatype Summary = Summary(id: int, endTs: int, energyUsed: Option<real>, tags: seq<string>, cost: Option<real>,
                             rate: Option<real>, currency: string, atHome: bool, overridden: bool)

  // ---- Specification ---------------------------------------------------------

  /** The rate keys of a session: its stored tags and, at Home, every configured
      spelling of Home. A set: neither tag order nor map order matters. */
  function RateKeys(tags: set<string>, atHome: bool, rates: RateConfig): set<string> {
    tags + (if atHome then set k | k in rates.tags && HomeSpelling(k) else {})
  }

  /** What one key would charge; keys without a configured plan charge nothing. */
  function CostUnder(key: string, rows: seq<ChargeRow>, rates: RateConfig, clock: Clock): Option<real> {
    if key in rates.tags && rates.tags[key].Configured() then PlanCost(rows, rates.tags[key], rates.default, clock) else None
  }

  function Costs(keys: set<string>, rows: seq<ChargeRow>, rates: RateConfig, clock: Clock): set<real> {
    set k | k in keys && CostUnder(k, rows, rates, clock).Some? :: CostUnder(k, rows, rates, clock).value
  }

  /** `best` is the greatest of `costs`, or None when there is none. */
  predicate IsHighest(costs: set<real>, best: Option<real>) {
    match best
    case None => forall c :: c !in costs
    case Some(b) => b in costs && forall c :: c in costs ==> c <= b
  }

  ghost function Highest(costs: set<real>): (best: Option<real>)
    ensures IsHighest(costs, best)
  {
    if exists c :: c in costs then
      var c :| c in costs;
      var rest := Highest(costs - {c});
      assert costs == (costs - {c}) + {c};
      HighestInserted(costs - {c}, rest, c);
      Some(if rest.Some? && rest.value > c then rest.value else c)
    else None
  }

  function AtRate(rate: real, used: Option<real>): Option<real> {
    if used.Some? then Some(Product(rate, used.value)) else None
  }

  /** The effective price per kWh of a total. */
  function Blended(cost: real, used: Option<real>): Option<real> {
    if used.Some? && used.value > 0.0 then Some(cost / used.value) else None
  }

  ghost function CostAndRate(rows: seq<ChargeRow>, tags: set<string>, atHome: bool, rates: RateConfig, clock: Clock)
    : (Option<real>, Option<real>)
  {
    var used := EnergyUsed(rows);
    match Highest(Costs(RateKeys(tags, atHome, rates), rows, rates, clock))
    case Some(c) => (Some(c), Blended(c, used))
    case None =>
      match rates.default
      case Some(d) => (AtRate(d, used), Some(d))
      case None => (None, None)
  }

  // ---- The rate engine -------------------------------------------------------

  function TagSet(tags: seq<string>): set<string> {
    set t | t in tags
  }

  lemma HighestInserted(costs: set<real>, best: Option<real>, c: real)
    requires IsHighest(costs, best)
    ensures IsHighest(costs + {c}, Some(if best.Some? && best.value > c then best.value else c))
  {
  }

  lemma CostsInserted(keys: set<string>, k: string, rows: seq<ChargeRow>, rates: RateConfig, clock: Clock)
    ensures Costs(keys + {k}, rows, rates, clock) ==
            Costs(keys, rows, rates, clock)
            + (if CostUnder(k, rows, rates, clock).Some? then {CostUnder(k, rows, rates, clock).value} else {})
  {
  }

  /** The keys to price: stored tags, then each Home spelling in the map's order,
      whatever that is, unless already present. */
  method CollectKeys(tags: seq<string>, atHome: bool, rates: RateConfig) returns (keys: seq<string>)
    ensures TagSet(keys) == RateKeys(TagSet(tags), atHome, rates)
  {
    keys := tags;
    if atHome {
      var todo := rates.tags.Keys;
      while todo != {}
        invariant todo <= rates.tags.Keys
        invariant TagSet(keys) == TagSet(tags) + set k | k in rates.tags.Keys - todo && HomeSpelling(k)
        decreases todo
      {
        var k :| k in todo;
        ghost var before := keys;
        if HomeSpelling(k) && k !in keys {
          keys := keys + [k];
        }
        assert TagSet(keys) == TagSet(before) + if HomeSpelling(k) then {k} else {};
        todo := todo - {k};
      }
    }
  }

  /** The most expensive configured plan among the keys. */
  method BestCost(keys: seq<string>, rows: seq<ChargeRow>, rates: RateConfig, clock: Clock) returns (best: Option<real>)
    ensures IsHighest(Costs(TagSet(keys), rows, rates, clock), best)
  {
    best := None;
    for i := 0 to |keys|
      invariant IsHighest(Costs(TagSet(keys[..i]), rows, rates, clock), best)
    {
      var k := keys[i];
      assert keys[..i + 1] == keys[..i] + [k];
      assert TagSet(keys[..i + 1]) == TagSet(keys[..i]) + {k};
      CostsInserted(TagSet(keys[..i]), k, rows, rates, clock);
      if k in rates.tags && rates.tags[k].Configured() {
        var cost := ComputePlanCost(rows, rates.tags[k], rates.default, clock);
        if cost.Some? {
          HighestInserted(Costs(TagSet(keys[..i]), rows, rates, clock), best, cost.value);
          best := Some(if best.Some? && best.value > cost.value then best.value else cost.value);
        }
      }
    }
    assert keys[..|keys|] == keys;
  }

  lemma HighestUnique(costs: set<real>, a: Option<real>, b: Option<real>)
    requires IsHighest(costs, a) && IsHighest(costs, b)
    ensures a == b
  {
  }

  /** Fill in tags, location and the derived cost of a session. The result
      depends on the set of tags only, and on no enumeration of the rate map. */
  method ApplyRates(s: Summary, rows: seq<ChargeRow>, tags: seq<string>, atHome: bool, rates: RateConfig, clock: Clock)
    returns (r: Summary)
    requires s.energyUsed == EnergyUsed(rows)
    ensures (r.cost, r.rate) == CostAndRate(rows, TagSet(tags), atHome, rates, clock)
    ensures r == s.(cost := r.cost, rate := r.rate, currency := rates.currency, tags := tags, atHome := atHome)
  {
    hide EnergyUsed, Costs, RateKeys;
    var keys := CollectKeys(tags, atHome, rates);
    var best := BestCost(keys, rows, rates, clock);
    ghost var costs := Costs(RateKeys(TagSet(tags), atHome, rates), rows, rates, clock);
    HighestUnique(costs, best, Highest(costs));
    var cost: Option<real>, rate: Option<real> := None, None;
    if best.Some? {
      cost, rate := best, Blended(best.value, s.energyUsed);
    } else if rates.default.Some? {
      cost, rate := AtRate(rates.default.value, s.energyUsed), rates.default;
    }
    r := s.(cost := cost, rate := rate, currency := rates.currency, tags := tags, atHome := atHome);
  }

  /** A stored manual total replaces the derived cost and clears the rate. */
  function ApplyCostOverride(s: Summary, override: Option<(real, string)>): Summary {
    match override
    case None => s
    case Some((amount, currency)) =>
      s.(cost := Some(amount), rate := None, overridden := true,
         currency := if currency != "" then currency else s.currency)
  }

  /** What a session costs: the highest cost among the configured plans of its tags
      and, at Home, of every spelling of Home; without any, the default rate times the
      energy; the rate shown is cost per energy, or the default. */
  lemma CostIs(rows: seq<ChargeRow>, tags: set<string>, atHome: bool, rates: RateConfig, clock: Clock)
    ensures
      var (cost, rate) := CostAndRate(rows, tags, atHome, rates, clock);
      var energy := EnergyUsed(rows);
      if exists k :: Carried(k, tags, atHome, rates) && PlanCost(rows, rates.tags[k], rates.default, clock).Some? then
        && cost.Some?
        && (exists k :: Carried(k, tags, atHome, rates) && PlanCost(rows, rates.tags[k], rates.default, clock) == cost)
        && (forall k :: Carried(k, tags, atHome, rates) && PlanCost(rows, rates.tags[k], rates.default, clock).Some? ==>
              PlanCost(rows, rates.tags[k], rates.default, clock).value <= cost.value)
        && rate == Blended(cost.value, energy)
      else
        && rate == rates.default
        && cost == (if rates.default.Some? && energy.Some? then Some(Product(rates.default.value, energy.value)) else None)
  {
    hide PlanCost, EnergyUsed;
    var costs := Costs(RateKeys(tags, atHome, rates), rows, rates, clock);
    var best := Highest(costs);
    forall k | Carried(k, tags, atHome, rates) && PlanCost(rows, rates.tags[k], rates.default, clock).Some?
      ensures PlanCost(rows, rates.tags[k], rates.default, clock).value in costs
    {
      assert k in RateKeys(tags, atHome, rates) && CostUnder(k, rows, rates, clock).value in costs;
    }
    if best.Some? {
      var k :| k in RateKeys(tags, atHome, rates) && CostUnder(k, rows, rates, clock) == best;
      assert Carried(k, tags, atHome, rates) && PlanCost(rows, rates.tags[k], rates.default, clock) == best;
    } else {
      forall k | Carried(k, tags, atHome, rates) ensures PlanCost(rows, rates.tags[k], rates.default, clock).None? {
        if PlanCost(rows, rates.tags[k], rates.default, clock).Some? {
          NoneIsHighest(costs, PlanCost(rows, rates.tags[k], rates.default, clock).value);
        }
      }
    }
  }

  lemma NoneIsHighest(costs: set<real>, c: real)
    requires IsHighest(costs, None)
    ensures c !in costs
  {
  }

  /** The plan of this key applies to the session. */
  predicate Carried(k: string, tags: set<string>, atHome: bool, rates: RateConfig) {
    && k in rates.tags && (rates.tags[k].flat.Some? || rates.tags[k].schedules != [])
    && (k in tags || (atHome && HomeSpelling(k)))
  }

  // ---- The blended rate --------------------------------------------------------

  /** Every plan a session carries, and the default, has its rates in [lo, hi]. */
  predicate AllRatesWithin(keys: set<string>, rows: seq<ChargeRow>, rates: RateConfig, clock: Clock, lo: real, hi: real) {
    && (forall k :: k in keys && k in rates.tags && rates.tags[k].Configured() ==>
          RatesWithin(Points(rows), rates.tags[k], rates.default, clock, lo, hi))
    && (rates.default.Some? ==> lo <= rates.default.value <= hi)
  }

  /** The effective rate shown for a session lies within the rates that apply to it. */
  lemma RateShownWithin(rows: seq<ChargeRow>, tags: set<string>, atHome: bool, rates: RateConfig, clock: Clock, lo: real, hi: real)
    requires NonNegativePower(Points(rows)) && AllRatesWithin(RateKeys(tags, atHome, rates), rows, rates, clock, lo, hi)
    ensures var (_, rate) := CostAndRate(rows, tags, atHome, rates, clock); rate.Some? ==> lo <= rate.value <= hi
  {
    hide PlanCost, RatesWithin, NonNegativePower, RateKeys;
    var keys := RateKeys(tags, atHome, rates);
    var best := Highest(Costs(keys, rows, rates, clock));
    if best.Some? {
      var k :| k in keys && CostUnder(k, rows, rates, clock) == best;
      CostBounds(rows, rates.tags[k], rates.default, clock, lo, hi);
      hide EnergySum;
      if EnergyUsed(rows).Some? {
        Quotient(best.value, EnergyUsed(rows).value, lo, hi);
      }
    }
  }

  lemma Quotient(c: real, u: real, lo: real, hi: real)
    requires u > 0.0 && lo * u <= c <= hi * u
    ensures lo <= c / u <= hi
  {
    assert c / u * u == c;
  }
}
