/** What a charge costs: per-sample power, time-of-use plans, the plan cost
    integral, and the choice among the plans a session's tags and its Home
    location bring in. Energy, rates and money are reals. */
module ChargePricing {
  import opened Options

  datatype ChargeRow = ChargeRow(ts: int, powerKw: Option<int>, voltageV: Option<int>, currentA: Option<int>,
                                 lat: Option<real>, lon: Option<real>)

  datatype LocalTime = LocalTime(minute: int, weekday: int, month: int)

  /** Half-open time window, day set and inclusive month range; both ranges wrap. */
  datatype RateSchedule = RateSchedule(rate: real, startMin: int, endMin: int, days: seq<int>, startMonth: int, endMonth: int) {
    predicate CoversTime(minute: int) {
      if startMin == endMin then true
      else if startMin < endMin then startMin <= minute < endMin
      else minute >= startMin || minute < endMin
    }

    predicate CoversMonth(month: int) {
      if startMonth <= endMonth then startMonth <= month <= endMonth else month >= startMonth || month <= endMonth
    }

    predicate Covers(t: LocalTime) {
      CoversTime(t.minute) && (days == [] || t.weekday in days) && CoversMonth(t.month)
    }
  }

  datatype TagRate = TagRate(flat: Option<real>, schedules: seq<RateSchedule>) {
    predicate Configured() {
      flat.Some? || schedules != []
    }
  }

  /** A local clock: the wall time of a timestamp, when it is representable. */
  type Clock = int -> Option<LocalTime>

  const POWER_REFINE_TOLERANCE_KW: real := 1.0

  /** Charger power of one sample, refined from volts and amps when they agree. */
  function SamplePowerKw(r: ChargeRow): Option<real> {
    if r.powerKw.None? then None
    else
      var coarse := r.powerKw.value as real;
      if r.voltageV.Some? && r.currentA.Some? then
        var fine := r.voltageV.value as real * r.currentA.value as real / 1000.0;
        if -POWER_REFINE_TOLERANCE_KW <= fine - coarse <= POWER_REFINE_TOLERANCE_KW then Some(fine) else Some(coarse)
      else Some(coarse)
  }

  datatype Point = Point(ts: int, kw: real)

  /** The power-bearing samples, in order. */
  function Points(rows: seq<ChargeRow>): seq<Point> {
    if rows == [] then []
    else
      var last := rows[|rows| - 1];
      Points(rows[..|rows| - 1]) + (if SamplePowerKw(last).Some? then [Point(last.ts, SamplePowerKw(last).value)] else [])
  }

  // ---- The plan cost integral ------------------------------------------------

  /** Integer division by two, truncating towards zero. */
  function Half(n: int): int {
    if n >= 0 then n / 2 else -(-n / 2)
  }

  /** Trapezoidal energy of one interval in kWh; nothing when time does not advance. */
  function IntervalEnergy(p: Point, q: Point): real {
    if q.ts <= p.ts then 0.0 else Product((p.kw + q.kw) / 2.0, (q.ts - p.ts) as real / 3600.0)
  }

  function FirstCovering(schedules: seq<RateSchedule>, t: LocalTime): Option<real> {
    if schedules == [] then None
    else if schedules[0].Covers(t) then Some(schedules[0].rate)
    else FirstCovering(schedules[1..], t)
  }

  function OrElse(a: Option<real>, b: Option<real>): Option<real> {
    if a.Some? then a else b
  }

  /** The rate of an interval, chosen by the local time of its midpoint. */
  function IntervalRate(p: Point, q: Point, plan: TagRate, default: Option<real>, clock: Clock): Option<real> {
    match clock(Half(p.ts + q.ts))
    case None => None
    case Some(t) => OrElse(OrElse(FirstCovering(plan.schedules, t), plan.flat), default)
  }

  /** A product the solver need not take apart. */
  function Product(a: real, b: real): real {
    a * b
  }

  predicate IntervalPriced(p: Point, q: Point, plan: TagRate, default: Option<real>, clock: Clock) {
    q.ts > p.ts && IntervalRate(p, q, plan, default, clock).Some?
  }

  function IntervalCost(p: Point, q: Point, plan: TagRate, default: Option<real>, clock: Clock): real {
    if IntervalPriced(p, q, plan, default, clock)
    then Product(IntervalEnergy(p, q), IntervalRate(p, q, plan, default, clock).value) else 0.0
  }

  function CostSum(pts: seq<Point>, plan: TagRate, default: Option<real>, clock: Clock): real {
    if |pts| < 2 then 0.0
    else CostSum(pts[..|pts| - 1], plan, default, clock) + IntervalCost(pts[|pts| - 2], pts[|pts| - 1], plan, default, clock)
  }

  predicate AnyPriced(pts: seq<Point>, plan: TagRate, default: Option<real>, clock: Clock) {
    |pts| >= 2 &&
    (AnyPriced(pts[..|pts| - 1], plan, default, clock) || IntervalPriced(pts[|pts| - 2], pts[|pts| - 1], plan, default, clock))
  }

  function EnergySum(pts: seq<Point>): real {
    if |pts| < 2 then 0.0 else EnergySum(pts[..|pts| - 1]) + IntervalEnergy(pts[|pts| - 2], pts[|pts| - 1])
  }

  function PlanCost(rows: seq<ChargeRow>, plan: TagRate, default: Option<real>, clock: Clock): Option<real> {
    var pts := Points(rows);
    if AnyPriced(pts, plan, default, clock) then Some(CostSum(pts, plan, default, clock)) else None
  }

  /** Wall-side energy: None with fewer than two power readings or no energy. */
  function EnergyUsed(rows: seq<ChargeRow>): Option<real> {
    var kwh := EnergySum(Points(rows));
    if kwh > 0.0 then Some(kwh) else None
  }

  /** The accumulating loop over adjacent points. */
  method ComputePlanCost(rows: seq<ChargeRow>, plan: TagRate, default: Option<real>, clock: Clock) returns (r: Option<real>)
    ensures r == PlanCost(rows, plan, default, clock)
  {
    hide Points, IntervalRate, Product;
    var pts := Points(rows);
    if |pts| < 2 {
      return None;
    }
    var cost, priced := 0.0, false;
    for i := 1 to |pts|
      invariant cost == CostSum(pts[..i], plan, default, clock)
      invariant priced <==> AnyPriced(pts[..i], plan, default, clock)
    {
      assert pts[..i + 1][..i] == pts[..i];
      var p, q := pts[i - 1], pts[i];
      if q.ts > p.ts {
        var energy := Product((p.kw + q.kw) / 2.0, (q.ts - p.ts) as real / 3600.0);
        var rate := IntervalRate(p, q, plan, default, clock);
        if rate.Some? {
          cost := cost + Product(energy, rate.value);
          priced := true;
        }
      }
    }
    assert pts[..|pts|] == pts;
    r := if priced then Some(cost) else None;
  }

  // ---- Additivity --------------------------------------------------------------

  lemma {:induction false} PointsConcat(a: seq<ChargeRow>, b: seq<ChargeRow>)
    ensures Points(a + b) == Points(a) + Points(b)
  {
    if b == [] {
      assert a + b == a;
    } else {
      PointsConcat(a, b[..|b| - 1]);
      assert (a + b)[..|a + b| - 1] == a + b[..|b| - 1];
    }
  }

  /** Two sequences of points that share a point have its sums in common. */
  lemma {:induction false} SumsSplit(a: seq<Point>, m: Point, b: seq<Point>, plan: TagRate, default: Option<real>, clock: Clock)
    ensures CostSum(a + [m] + b, plan, default, clock) ==
            CostSum(a + [m], plan, default, clock) + CostSum([m] + b, plan, default, clock)
    ensures AnyPriced(a + [m] + b, plan, default, clock) <==>
            AnyPriced(a + [m], plan, default, clock) || AnyPriced([m] + b, plan, default, clock)
  {
    hide IntervalCost, IntervalPriced;
    if b == [] {
      assert a + [m] + b == a + [m];
    } else {
      var n := |b| - 1;
      SumsSplit(a, m, b[..n], plan, default, clock);
      var whole, right := a + [m] + b, [m] + b;
      assert whole[..|whole| - 1] == a + [m] + b[..n];
      assert right[..|right| - 1] == [m] + b[..n];
      assert whole[|whole| - 2] == right[|right| - 2] && whole[|whole| - 1] == right[|right| - 1];
    }
  }

  function ValueOrZero(c: Option<real>): real {
    if c.Some? then c.value else 0.0
  }

  /** Splitting a session at a power-bearing sample, counted in both halves,
      splits its plan cost; and it is priced exactly when a half is. */
  lemma PlanCostSplits(left: seq<ChargeRow>, mid: ChargeRow, right: seq<ChargeRow>, plan: TagRate, default: Option<real>,
                       clock: Clock)
    requires SamplePowerKw(mid).Some?
    ensures
      var whole := PlanCost(left + [mid] + right, plan, default, clock);
      var a, b := PlanCost(left + [mid], plan, default, clock), PlanCost([mid] + right, plan, default, clock);
      ValueOrZero(whole) == ValueOrZero(a) + ValueOrZero(b) && (whole.Some? <==> a.Some? || b.Some?)
  {
    hide CostSum, AnyPriced, SamplePowerKw;
    var m := Point(mid.ts, SamplePowerKw(mid).value);
    assert Points([mid]) == [m] by {
      assert [mid][..0] == [];
    }
    PointsConcat(left, [mid]);
    PointsConcat(left + [mid], right);
    PointsConcat([mid], right);
    SumsSplit(Points(left), m, Points(right), plan, default, clock);
    UnpricedCostsNothing(Points(left) + [m], plan, default, clock);
    UnpricedCostsNothing([m] + Points(right), plan, default, clock);
  }

  lemma {:induction false} UnpricedCostsNothing(pts: seq<Point>, plan: TagRate, default: Option<real>, clock: Clock)
    ensures !AnyPriced(pts, plan, default, clock) ==> CostSum(pts, plan, default, clock) == 0.0
  {
    hide IntervalPriced, IntervalEnergy, IntervalRate;
    if |pts| >= 2 {
      UnpricedCostsNothing(pts[..|pts| - 1], plan, default, clock);
    }
  }

  // ---- Bounds --------------------------------------------------------------------

  predicate NonNegativePower(pts: seq<Point>) {
    forall i :: 0 <= i < |pts| ==> pts[i].kw >= 0.0
  }

  /** Time does not advance between two points, or the interval has a rate in [lo, hi]. */
  predicate RateWithin(p: Point, q: Point, plan: TagRate, default: Option<real>, clock: Clock, lo: real, hi: real) {
    var rate := IntervalRate(p, q, plan, default, clock);
    q.ts > p.ts ==> rate.Some? && lo <= rate.value <= hi
  }

  predicate RatesWithin(pts: seq<Point>, plan: TagRate, default: Option<real>, clock: Clock, lo: real, hi: real) {
    forall i, j :: 0 <= i < |pts| && j == i + 1 < |pts| ==> RateWithin(pts[i], pts[j], plan, default, clock, lo, hi)
  }

  lemma IntervalBounds(p: Point, q: Point, plan: TagRate, default: Option<real>, clock: Clock, lo: real, hi: real)
    requires p.kw >= 0.0 && q.kw >= 0.0 && RateWithin(p, q, plan, default, clock, lo, hi)
    ensures lo * IntervalEnergy(p, q) <= IntervalCost(p, q, plan, default, clock) <= hi * IntervalEnergy(p, q)
  {
    EnergyNonNegative(p, q);
    hide IntervalRate, IntervalEnergy, Product;
    if q.ts > p.ts {
      Scaled(IntervalEnergy(p, q), IntervalRate(p, q, plan, default, clock).value, lo, hi);
    } else {
      StandsStill(p, q);
    }
  }

  lemma EnergyNonNegative(p: Point, q: Point)
    requires p.kw >= 0.0 && q.kw >= 0.0
    ensures IntervalEnergy(p, q) >= 0.0
  {
    if q.ts > p.ts {
      NonNegativeProduct((p.kw + q.kw) / 2.0, (q.ts - p.ts) as real / 3600.0);
    }
  }

  lemma StandsStill(p: Point, q: Point)
    requires q.ts <= p.ts
    ensures IntervalEnergy(p, q) == 0.0
  {
  }

  lemma NonNegativeProduct(a: real, b: real)
    requires a >= 0.0 && b >= 0.0
    ensures Product(a, b) >= 0.0 && a * b >= 0.0
  {
  }

  lemma Scaled(e: real, rate: real, lo: real, hi: real)
    requires e >= 0.0 && lo <= rate <= hi
    ensures lo * e <= Product(e, rate) <= hi * e
  {
    NonNegativeProduct(e, rate - lo);
    NonNegativeProduct(e, hi - rate);
  }

  lemma Distributes(k: real, a: real, b: real)
    ensures k * (a + b) == k * a + k * b
  {
  }

  lemma {:induction false} SumBounds(pts: seq<Point>, plan: TagRate, default: Option<real>, clock: Clock, lo: real, hi: real)
    requires NonNegativePower(pts) && RatesWithin(pts, plan, default, clock, lo, hi)
    ensures lo * EnergySum(pts) <= CostSum(pts, plan, default, clock) <= hi * EnergySum(pts)
  {
    hide IntervalCost, IntervalEnergy, RateWithin;
    if |pts| >= 2 {
      var n := |pts| - 1;
      SumBounds(pts[..n], plan, default, clock, lo, hi);
      IntervalBounds(pts[n - 1], pts[n], plan, default, clock, lo, hi);
      Distributes(lo, EnergySum(pts[..n]), IntervalEnergy(pts[n - 1], pts[n]));
      Distributes(hi, EnergySum(pts[..n]), IntervalEnergy(pts[n - 1], pts[n]));
    }
  }

  /** A session with a rate for every interval costs between the lowest and the
      highest of these rates times its trapezoidal energy; the plan is without a
      cost only when no time passes, and then there is no energy either. */
  lemma CostBounds(rows: seq<ChargeRow>, plan: TagRate, default: Option<real>, clock: Clock, lo: real, hi: real)
    requires NonNegativePower(Points(rows)) && RatesWithin(Points(rows), plan, default, clock, lo, hi)
    ensures
      var cost, energy := PlanCost(rows, plan, default, clock), EnergySum(Points(rows));
      lo * energy <= ValueOrZero(cost) <= hi * energy && (cost.None? ==> energy == 0.0)
  {
    hide CostSum, EnergySum, AnyPriced, RatesWithin, NonNegativePower;
    var pts := Points(rows);
    SumBounds(pts, plan, default, clock, lo, hi);
    if !AnyPriced(pts, plan, default, clock) {
      UnpricedCostsNothing(pts, plan, default, clock);
      UnpricedIsStill(pts, plan, default, clock, lo, hi);
    }
  }

  lemma {:induction false} UnpricedIsStill(pts: seq<Point>, plan: TagRate, default: Option<real>, clock: Clock, lo: real, hi: real)
    requires RatesWithin(pts, plan, default, clock, lo, hi) && !AnyPriced(pts, plan, default, clock)
    ensures EnergySum(pts) == 0.0
  {
    if |pts| >= 2 {
      var n := |pts| - 1;
      UnpricedIsStill(pts[..n], plan, default, clock, lo, hi);
      assert RateWithin(pts[n - 1], pts[n], plan, default, clock, lo, hi);
    }
  }

  predicate MidpointKnown(p: Point, q: Point, clock: Clock) {
    q.ts > p.ts ==> clock(Half(p.ts + q.ts)).Some?
  }

  /** Local time is known at the midpoint of every interval in which time passes. */
  predicate ClockKnown(pts: seq<Point>, clock: Clock) {
    forall i, j :: 0 <= i < |pts| && j == i + 1 < |pts| ==> MidpointKnown(pts[i], pts[j], clock)
  }

  lemma {:induction false} SumFlat(pts: seq<Point>, flat: Option<real>, default: Option<real>, clock: Clock, rate: real)
    requires OrElse(flat, default) == Some(rate) && ClockKnown(pts, clock)
    ensures CostSum(pts, TagRate(flat, []), default, clock) == Product(rate, EnergySum(pts))
  {
    if |pts| >= 2 {
      var n := |pts| - 1;
      hide IntervalCost, IntervalEnergy, MidpointKnown, OrElse, Product;
      SumFlat(pts[..n], flat, default, clock, rate);
      FlatInterval(pts[n - 1], pts[n], flat, default, clock, rate);
      ProductDistributes(rate, EnergySum(pts[..n]), IntervalEnergy(pts[n - 1], pts[n]));
    }
  }

  lemma ProductDistributes(k: real, a: real, b: real)
    ensures Product(k, a + b) == Product(k, a) + Product(k, b)
  {
  }

  lemma FlatInterval(p: Point, q: Point, flat: Option<real>, default: Option<real>, clock: Clock, rate: real)
    requires OrElse(flat, default) == Some(rate) && MidpointKnown(p, q, clock)
    ensures IntervalCost(p, q, TagRate(flat, []), default, clock) == Product(rate, IntervalEnergy(p, q))
  {
    if q.ts > p.ts {
      assert IntervalRate(p, q, TagRate(flat, []), default, clock) == Some(rate);
    }
    hide IntervalRate;
  }

  /** Without schedules a session costs its one rate times its trapezoidal energy, whatever the sign of the power. */
  lemma FlatCost(rows: seq<ChargeRow>, flat: Option<real>, default: Option<real>, clock: Clock, rate: real)
    requires OrElse(flat, default) == Some(rate) && ClockKnown(Points(rows), clock)
    ensures ValueOrZero(PlanCost(rows, TagRate(flat, []), default, clock)) == rate * EnergySum(Points(rows))
  {
    hide CostSum, EnergySum, AnyPriced, ClockKnown;
    SumFlat(Points(rows), flat, default, clock, rate);
    UnpricedCostsNothing(Points(rows), TagRate(flat, []), default, clock);
  }

  // ---- One interval ----------------------------------------------------------------

  /** Between two power-bearing samples a plan costs the mean power times the hours
      between them times the rate at local time halfway, and nothing without a rate. */
  lemma TwoSamplesCost(a: ChargeRow, b: ChargeRow, plan: TagRate, default: Option<real>, clock: Clock)
    requires SamplePowerKw(a).Some? && SamplePowerKw(b).Some?
    ensures
      var kwh := Product((SamplePowerKw(a).value + SamplePowerKw(b).value) / 2.0, (b.ts - a.ts) as real / 3600.0);
      var local := clock(Half(a.ts + b.ts));
      var rate := if local.Some? then RateAt(plan, default, local.value) else None;
      PlanCost([a, b], plan, default, clock) == if b.ts > a.ts && rate.Some? then Some(Product(kwh, rate.value)) else None
  {
    var pts := [Point(a.ts, SamplePowerKw(a).value), Point(b.ts, SamplePowerKw(b).value)];
    TwoPoints(a, b);
    hide SamplePowerKw, Points;
    assert pts[..1] == [pts[0]];
    assert !AnyPriced([pts[0]], plan, default, clock) && CostSum([pts[0]], plan, default, clock) == 0.0;
    assert AnyPriced(pts, plan, default, clock) <==> IntervalPriced(pts[0], pts[1], plan, default, clock);
    assert CostSum(pts, plan, default, clock) == IntervalCost(pts[0], pts[1], plan, default, clock);
    hide CostSum, AnyPriced, FirstCovering, Product;
    assert PlanCost([a, b], plan, default, clock).Some? <==> IntervalPriced(pts[0], pts[1], plan, default, clock);
  }

  lemma TwoPoints(a: ChargeRow, b: ChargeRow)
    requires SamplePowerKw(a).Some? && SamplePowerKw(b).Some?
    ensures Points([a, b]) == [Point(a.ts, SamplePowerKw(a).value), Point(b.ts, SamplePowerKw(b).value)]
  {
    assert [a, b][..1] == [a] && [a][..0] == [];
    assert Points([a]) == [Point(a.ts, SamplePowerKw(a).value)];
  }

  /** The rate of a plan at a local time. */
  function RateAt(plan: TagRate, default: Option<real>, t: LocalTime): Option<real> {
    OrElse(OrElse(FirstCovering(plan.schedules, t), plan.flat), default)
  }

  /** The first schedule that covers the time gives the rate; without one the flat
      rate does, and without that the default. */
  lemma FirstScheduleWins(plan: TagRate, default: Option<real>, t: LocalTime, i: nat)
    requires i <= |plan.schedules| && forall j :: 0 <= j < i ==> !plan.schedules[j].Covers(t)
    ensures i < |plan.schedules| && plan.schedules[i].Covers(t) ==> RateAt(plan, default, t) == Some(plan.schedules[i].rate)
    ensures i == |plan.schedules| ==> RateAt(plan, default, t) == (if plan.flat.Some? then plan.flat else default)
  {
    FirstCoveringIs(plan.schedules, t, i);
  }

  lemma {:induction false} FirstCoveringIs(schedules: seq<RateSchedule>, t: LocalTime, i: nat)
    requires i <= |schedules| && forall j :: 0 <= j < i ==> !schedules[j].Covers(t)
    ensures FirstCovering(schedules, t) == FirstCovering(schedules[i..], t)
  {
    if i == 0 {
      assert schedules[0..] == schedules;
    } else {
      assert schedules[1..][i - 1..] == schedules[i..];
      assert forall j :: 0 <= j < i - 1 ==> schedules[1..][j] == schedules[j + 1];
      FirstCoveringIs(schedules[1..], t, i - 1);
    }
  }

  /** A time window is the arc of the day from its start up to its end, the whole day
      when they coincide; a month range is the arc of the year, both ends included. */
  lemma CoversIff(s: RateSchedule, t: LocalTime)
    requires 0 <= s.startMin < 1440 && 0 <= s.endMin < 1440 && 0 <= t.minute < 1440
    requires 1 <= s.startMonth <= 12 && 1 <= s.endMonth <= 12 && 1 <= t.month <= 12
    ensures s.Covers(t) <==>
            && (s.startMin == s.endMin || (t.minute - s.startMin) % 1440 < (s.endMin - s.startMin) % 1440)
            && (s.days == [] || t.weekday in s.days)
            && (t.month - s.startMonth) % 12 <= (s.endMonth - s.startMonth) % 12
  {
  }

  /** Charger power is the recorded kilowatts, refined by volts and amps exactly when
      these agree with it to a kilowatt. */
  lemma SamplePowerIs(r: ChargeRow)
    ensures SamplePowerKw(r).Some? <==> r.powerKw.Some?
    ensures r.powerKw.Some? ==>
              var coarse, kw := r.powerKw.value as real, SamplePowerKw(r).value;
              && coarse - 1.0 <= kw <= coarse + 1.0
              && (r.voltageV.None? || r.currentA.None? ==> kw == coarse)
              && (r.voltageV.Some? && r.currentA.Some? ==>
                    var watts := r.voltageV.value as real * r.currentA.value as real;
                    kw == if coarse - 1.0 <= watts / 1000.0 <= coarse + 1.0 then watts / 1000.0 else coarse)
  {
  }
}
