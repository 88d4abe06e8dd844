/**
 What raises and lowers the score of a benchmark lane: each factor on the lane's own fields, the order of
 two lanes of which one is at least as good in every field, and what that says of the lane an advisory puts first.
 */
module LaneScores {
  import opened Wrappers
  import opened Order
  import opened Fleet
  import opened FleetAdvisory
  import opened Rounding

  // ----- The factors ---------------------------------------------------------------------------

  lemma Quotient(a: real, c: real)
    requires c > 0.0
    ensures a / c * c == a
  {
  }

  lemma QuotientStrict(a: real, b: real, c: real)
    requires c > 0.0 && a < b
    ensures a / c < b / c
  {
    OverOrder(b, a / c, c);
    Quotient(a, c);
  }

  function LaneAge(lane: Lane, observed: int): int { observed - lane.observedAt }

  /** A lane that is neither stale nor from the future loses freshness in proportion to its age. */
  lemma FreshnessMeans(lane: Lane, observed: int, b: Bounds)
    requires IsFresh(lane, observed, b)
    ensures Freshness(lane, observed, b) * (b.maxAge * 1_000_000) as real == (b.maxAge * 1_000_000 - LaneAge(lane, observed)) as real
  {
    var age, second, most := LaneAge(lane, observed) as real, SECOND as real, b.maxAge as real;
    Quotient(age, second);
    Quotient(age / second, most);
    var part := age / second / most;
    assert part * most * second == age;
    assert (b.maxAge * 1_000_000) as real == most * second;
    OverOrder(age, most, second);
    OverOrder(age / second, 1.0, most);
    assert (1.0 - part) * (most * second) == most * second - age;
  }

  /** The bound on the age of a health observation, kept off zero. */
  function HealthBound(b: Bounds): real { if b.maxHealthAge >= 0.000000001 then b.maxHealthAge else 0.000000001 }

  /** A lane whose health was observed within the bound loses health in proportion to how long ago. */
  lemma HealthMeans(lane: Lane, b: Bounds)
    requires LaneValid(lane) && IsHealthFresh(lane, b)
    ensures Health(lane, b) * HealthBound(b) == HealthBound(b) - lane.healthAge
  {
    var most := HealthBound(b);
    Quotient(lane.healthAge, most);
    OverOrder(lane.healthAge, 1.0, most);
    assert (1.0 - lane.healthAge / most) * most == most - lane.healthAge;
  }

  /** Up to a second of latency costs nothing; beyond, twice as long counts half as much. */
  lemma LatencyMeans(lane: Lane)
    ensures lane.latency.None? ==> LatencyFactor(lane) == 0.0
    ensures lane.latency.Some? && lane.latency.value <= 1.0 ==> LatencyFactor(lane) == 1.0
    ensures lane.latency.Some? && lane.latency.value >= 1.0 ==> LatencyFactor(lane) * lane.latency.value == 1.0
  {
    if lane.latency.Some? {
      var spent := Larger(lane.latency.value, TINY);
      Quotient(1.0, spent);
      if spent <= 1.0 {
        assert 1.0 / spent >= 1.0;
      } else {
        assert 1.0 / spent <= 1.0;
      }
    }
  }

  /** Throughput counts in proportion, up to 32 tokens a second. */
  lemma ThroughputMeans(lane: Lane)
    ensures lane.throughput.None? ==> ThroughputFactor(lane) == 0.0
    ensures lane.throughput.Some? && lane.throughput.value >= 32.0 ==> ThroughputFactor(lane) == 1.0
    ensures lane.throughput.Some? && lane.throughput.value <= 32.0 ==> ThroughputFactor(lane) * 32.0 == lane.throughput.value
  {
  }

  function PressureFactor(lane: Lane): real { Larger(0.0, 1.0 - lane.pressure) }

  lemma ProductStep(q: real, factors: seq<real>, next: real)
    requires factors != [] && next == q * factors[0]
    ensures Product(q, factors) == Product(next, factors[1..])
  {
  }

  lemma ProductOfFive(q: real, a: real, b: real, c: real, d: real, e: real)
    ensures Product(q, [a, b, c, d, e]) == q * a * b * c * d * e
  {
    var f := [a, b, c, d, e];
    assert f[1..] == [b, c, d, e] && [b, c, d, e][1..] == [c, d, e] && [c, d, e][1..] == [d, e] && [d, e][1..] == [e] && [e][1..] == [];
    ProductStep(q, f, q * a);
    ProductStep(q * a, [b, c, d, e], q * a * b);
    ProductStep(q * a * b, [c, d, e], q * a * b * c);
    ProductStep(q * a * b * c, [d, e], q * a * b * c * d);
    ProductStep(q * a * b * c * d, [e], q * a * b * c * d * e);
  }

  /** A quality and five factors. */
  datatype Five = Five(quality: real, recent: real, health: real, idle: real, quick: real, busy: real) {
    function Product(): real { quality * recent * health * idle * quick * busy }
  }

  function FactorsOf(lane: Lane, observed: int, b: Bounds): Five {
    Five(lane.quality, Freshness(lane, observed, b), Health(lane, b), PressureFactor(lane), LatencyFactor(lane), ThroughputFactor(lane))
  }

  /** The score before rounding is the quality times the five factors. */
  lemma RawScoreMeans(lane: Lane, observed: int, b: Bounds)
    ensures RawScore(lane, observed, b) == FactorsOf(lane, observed, b).Product()
  {
    ProductOfFive(lane.quality, Freshness(lane, observed, b), Health(lane, b), PressureFactor(lane), LatencyFactor(lane),
                  ThroughputFactor(lane));
  }

  // ----- One lane against another --------------------------------------------------------------

  /** `a` is at least as good as `c` in every field the score reads. */
  predicate AtLeastAsGood(a: Lane, c: Lane) {
    && a.quality >= c.quality && a.observedAt >= c.observedAt && a.healthAge <= c.healthAge && a.pressure <= c.pressure
    && (c.latency.Some? ==> a.latency.Some? && a.latency.value <= c.latency.value)
    && (c.throughput.Some? ==> a.throughput.Some? && a.throughput.value >= c.throughput.value)
  }

  lemma LatencyOrder(a: Lane, c: Lane)
    requires LaneValid(a) && LaneValid(c)
    requires c.latency.Some? ==> a.latency.Some? && a.latency.value <= c.latency.value
    ensures LatencyFactor(a) >= LatencyFactor(c) >= 0.0
  {
    if a.latency.Some? {
      OverPositive(1.0, Larger(a.latency.value, TINY));
    }
    if c.latency.Some? {
      InverseOrder(Larger(a.latency.value, TINY), Larger(c.latency.value, TINY));
      OverPositive(1.0, Larger(c.latency.value, TINY));
    }
  }

  lemma InverseOrder(x: real, y: real)
    requires 0.0 < x <= y
    ensures 1.0 / x >= 1.0 / y > 0.0
  {
    Quotient(1.0, x);
    Quotient(1.0, y);
    TimesOrder(x, y, 1.0 / x);
    OverOrder(1.0, 1.0 / x, y);
  }

  lemma ThroughputOrder(a: Lane, c: Lane)
    requires LaneValid(a) && LaneValid(c)
    requires c.throughput.Some? ==> a.throughput.Some? && a.throughput.value >= c.throughput.value
    ensures ThroughputFactor(a) >= ThroughputFactor(c) >= 0.0
  {
  }

  lemma HealthOrder(a: Lane, c: Lane, b: Bounds)
    requires a.healthAge <= c.healthAge
    ensures Health(a, b) >= Health(c, b) >= 0.0
  {
    OverBoth(a.healthAge, c.healthAge, Larger(b.maxHealthAge, TINY));
  }

  lemma FreshnessOrder(a: Lane, c: Lane, observed: int, b: Bounds)
    requires a.observedAt >= c.observedAt
    ensures Freshness(a, observed, b) >= Freshness(c, observed, b) >= 0.0
  {
    OverBoth(LaneAge(a, observed) as real, LaneAge(c, observed) as real, SECOND as real);
    OverBoth(LaneAge(a, observed) as real / SECOND as real, LaneAge(c, observed) as real / SECOND as real, b.maxAge as real);
  }

  lemma ProductOrder(x: real, y: real, f: real, g: real)
    requires x >= y >= 0.0 && f >= g >= 0.0
    ensures x * f >= y * g >= 0.0
  {
    assert x * f >= y * f;
    assert y * f >= y * g;
  }

  predicate NoneLess(x: Five, y: Five) {
    && x.quality >= y.quality >= 0.0 && x.recent >= y.recent >= 0.0 && x.health >= y.health >= 0.0
    && x.idle >= y.idle >= 0.0 && x.quick >= y.quick >= 0.0 && x.busy >= y.busy >= 0.0
  }

  lemma FactorsOrder(a: Lane, c: Lane, observed: int, b: Bounds)
    requires LaneValid(a) && LaneValid(c) && AtLeastAsGood(a, c)
    ensures NoneLess(FactorsOf(a, observed, b), FactorsOf(c, observed, b))
  {
    FreshnessOrder(a, c, observed, b);
    HealthOrder(a, c, b);
    LatencyOrder(a, c);
    ThroughputOrder(a, c);
  }

  lemma ProductsOrder(x: Five, y: Five)
    requires NoneLess(x, y)
    ensures x.Product() >= y.Product() >= 0.0
  {
    ProductOrder(x.quality, y.quality, x.recent, y.recent);
    ProductOrder(x.quality * x.recent, y.quality * y.recent, x.health, y.health);
    ProductOrder(x.quality * x.recent * x.health, y.quality * y.recent * y.health, x.idle, y.idle);
    ProductOrder(x.quality * x.recent * x.health * x.idle, y.quality * y.recent * y.health * y.idle, x.quick, y.quick);
    ProductOrder(x.quality * x.recent * x.health * x.idle * x.quick, y.quality * y.recent * y.health * y.idle * y.quick, x.busy, y.busy);
  }

  lemma RawOrder(a: Lane, c: Lane, observed: int, b: Bounds)
    requires LaneValid(a) && LaneValid(c) && AtLeastAsGood(a, c)
    ensures RawScore(a, observed, b) >= RawScore(c, observed, b) >= 0.0
  {
    RawScoreMeans(a, observed, b);
    RawScoreMeans(c, observed, b);
    FactorsOrder(a, c, observed, b);
    ProductsOrder(FactorsOf(a, observed, b), FactorsOf(c, observed, b));
  }

  lemma RoundedOrder(x: real, y: real)
    requires x <= y
    ensures RoundTo(Larger(0.0, Smaller(1.0, x)), SIX_DECIMALS) <= RoundTo(Larger(0.0, Smaller(1.0, y)), SIX_DECIMALS)
  {
    RoundMonotone(Larger(0.0, Smaller(1.0, x)), Larger(0.0, Smaller(1.0, y)), SIX_DECIMALS);
  }

  /** A lane at least as good in every field never scores lower: not before rounding, and not after. */
  lemma BetterNeverScoresLower(a: Lane, c: Lane, observed: int, b: Bounds)
    requires LaneValid(a) && LaneValid(c) && AtLeastAsGood(a, c)
    ensures RawScore(a, observed, b) >= RawScore(c, observed, b) >= 0.0
    ensures QualificationScore(a, observed, b) >= QualificationScore(c, observed, b)
  {
    RawOrder(a, c, observed, b);
    RoundedOrder(RawScore(c, observed, b), RawScore(a, observed, b));
  }

  // ----- Strictly better -----------------------------------------------------------------------

  /** One field of `a` is better than that of `c`, where the field still counts. */
  predicate BetterSomewhere(a: Lane, c: Lane, observed: int, b: Bounds) {
    || a.quality > c.quality
    || a.observedAt > c.observedAt
    || a.healthAge < c.healthAge
    || a.pressure < c.pressure
    || (c.latency.Some? && a.latency.Some? && a.latency.value < c.latency.value && c.latency.value > 1.0)
    || (c.throughput.Some? && a.throughput.Some? && a.throughput.value > c.throughput.value && c.throughput.value < 32.0)
  }

  /** Every factor of the lane counts for something. */
  predicate Counts(lane: Lane, observed: int, b: Bounds) {
    && lane.quality > 0.0 && LaneAge(lane, observed) < b.maxAge * 1_000_000 && lane.healthAge < HealthBound(b) && lane.pressure < 1.0
    && lane.latency.Some? && lane.throughput.Some? && lane.throughput.value > 0.0
  }

  lemma FactorsPositive(lane: Lane, observed: int, b: Bounds)
    requires LaneValid(lane) && Counts(lane, observed, b)
    ensures Freshness(lane, observed, b) > 0.0 && Health(lane, b) > 0.0 && PressureFactor(lane) > 0.0
    ensures LatencyFactor(lane) > 0.0 && ThroughputFactor(lane) > 0.0
  {
    FreshnessPositive(lane, observed, b);
    QuotientStrict(lane.healthAge, HealthBound(b), HealthBound(b));
    assert HealthBound(b) / HealthBound(b) == 1.0;
    InverseOrder(Larger(lane.latency.value, TINY), Larger(lane.latency.value, TINY));
  }

  lemma FreshnessPositive(lane: Lane, observed: int, b: Bounds)
    requires LaneAge(lane, observed) < b.maxAge * 1_000_000
    ensures Freshness(lane, observed, b) > 0.0
  {
    var age, second, most := LaneAge(lane, observed) as real, SECOND as real, b.maxAge as real;
    assert (b.maxAge * 1_000_000) as real == most * second;
    QuotientStrict(age, most * second, second);
    assert most * second / second == most;
    QuotientStrict(age / second, most, most);
    assert most / most == 1.0;
  }

  lemma FreshnessStrict(a: Lane, c: Lane, observed: int, b: Bounds)
    requires a.observedAt > c.observedAt && LaneAge(c, observed) < b.maxAge * 1_000_000
    ensures Freshness(a, observed, b) > Freshness(c, observed, b)
  {
    FreshnessPositive(c, observed, b);
    QuotientStrict(LaneAge(a, observed) as real, LaneAge(c, observed) as real, SECOND as real);
    QuotientStrict(LaneAge(a, observed) as real / SECOND as real, LaneAge(c, observed) as real / SECOND as real, b.maxAge as real);
  }

  lemma InverseStrict(x: real, y: real)
    requires 0.0 < x < y
    ensures 1.0 / x > 1.0 / y
  {
    Quotient(1.0, x);
    InverseOrder(x, y);
    OverOrder(1.0, 1.0 / y, x);
    assert 1.0 / y * x < 1.0 / y * y;
    Quotient(1.0, y);
  }

  lemma LatencyStrict(a: Lane, c: Lane)
    requires LaneValid(a) && a.latency.Some? && c.latency.Some? && a.latency.value < c.latency.value && c.latency.value > 1.0
    ensures LatencyFactor(a) > LatencyFactor(c)
  {
    InverseStrict(1.0, c.latency.value);
    InverseStrict(Larger(a.latency.value, TINY), c.latency.value);
  }

  lemma FactorStrict(a: Lane, c: Lane, observed: int, b: Bounds)
    requires LaneValid(a) && LaneValid(c) && BetterSomewhere(a, c, observed, b) && Counts(c, observed, b)
    ensures a.quality > c.quality || Freshness(a, observed, b) > Freshness(c, observed, b) || Health(a, b) > Health(c, b) ||
            PressureFactor(a) > PressureFactor(c) || LatencyFactor(a) > LatencyFactor(c) || ThroughputFactor(a) > ThroughputFactor(c)
  {
    if a.observedAt > c.observedAt {
      FreshnessStrict(a, c, observed, b);
    } else if a.healthAge < c.healthAge {
      QuotientStrict(a.healthAge, c.healthAge, HealthBound(b));
      QuotientStrict(c.healthAge, HealthBound(b), HealthBound(b));
      assert HealthBound(b) / HealthBound(b) == 1.0;
    } else if c.latency.Some? && a.latency.Some? && a.latency.value < c.latency.value && c.latency.value > 1.0 {
      LatencyStrict(a, c);
    }
  }

  lemma ProductStrict(x: real, y: real, f: real, g: real)
    requires x >= y > 0.0 && f >= g > 0.0
    ensures x * f >= y * g > 0.0 && (x > y || f > g ==> x * f > y * g)
  {
    assert x * f >= y * f >= y * g;
    if x > y {
      assert x * f > y * f;
    }
    if f > g {
      assert y * f > y * g;
    }
  }

  predicate SomeMore(x: Five, y: Five) {
    x.quality > y.quality || x.recent > y.recent || x.health > y.health || x.idle > y.idle || x.quick > y.quick || x.busy > y.busy
  }

  predicate AllPositive(x: Five) { x.quality > 0.0 && x.recent > 0.0 && x.health > 0.0 && x.idle > 0.0 && x.quick > 0.0 && x.busy > 0.0 }

  lemma ProductsStrict(x: Five, y: Five)
    requires NoneLess(x, y) && AllPositive(y) && SomeMore(x, y)
    ensures x.Product() > y.Product() > 0.0
  {
    ProductStrict(x.quality, y.quality, x.recent, y.recent);
    ProductStrict(x.quality * x.recent, y.quality * y.recent, x.health, y.health);
    ProductStrict(x.quality * x.recent * x.health, y.quality * y.recent * y.health, x.idle, y.idle);
    ProductStrict(x.quality * x.recent * x.health * x.idle, y.quality * y.recent * y.health * y.idle, x.quick, y.quick);
    ProductStrict(x.quality * x.recent * x.health * x.idle * x.quick, y.quality * y.recent * y.health * y.idle * y.quick, x.busy, y.busy);
  }

  lemma FactorsMore(a: Lane, c: Lane, observed: int, b: Bounds)
    requires LaneValid(a) && LaneValid(c) && BetterSomewhere(a, c, observed, b) && Counts(c, observed, b)
    ensures SomeMore(FactorsOf(a, observed, b), FactorsOf(c, observed, b)) && AllPositive(FactorsOf(c, observed, b))
  {
    FactorsPositive(c, observed, b);
    FactorStrict(a, c, observed, b);
  }

  /** And if it is better somewhere, and everything counts, it scores higher before rounding. */
  lemma BetterScoresHigher(a: Lane, c: Lane, observed: int, b: Bounds)
    requires LaneValid(a) && LaneValid(c) && AtLeastAsGood(a, c) && BetterSomewhere(a, c, observed, b)
    requires Counts(c, observed, b)
    ensures RawScore(a, observed, b) > RawScore(c, observed, b) > 0.0
  {
    RawScoreMeans(a, observed, b);
    RawScoreMeans(c, observed, b);
    FactorsOrder(a, c, observed, b);
    FactorsMore(a, c, observed, b);
    ProductsStrict(FactorsOf(a, observed, b), FactorsOf(c, observed, b));
  }

  // ----- The ends of the scale -----------------------------------------------------------------

  /** Nothing speaks against the lane: just observed, idle, at most a second, at least 32 tokens a second. */
  predicate Flawless(lane: Lane, observed: int) {
    && lane.observedAt == observed && lane.healthAge == 0.0 && lane.pressure == 0.0
    && lane.latency.Some? && lane.latency.value <= 1.0 && lane.throughput.Some? && lane.throughput.value >= 32.0
  }

  lemma NoLoss(c: real, d: real)
    requires c > 0.0 && d > 0.0
    ensures 0.0 / c / d == 0.0
  {
  }

  lemma FlawlessScores(lane: Lane, observed: int, b: Bounds)
    requires LaneValid(lane) && Flawless(lane, observed)
    ensures RawScore(lane, observed, b) == lane.quality
  {
    RawScoreMeans(lane, observed, b);
    LatencyMeans(lane);
    ThroughputMeans(lane);
    NoLoss(SECOND as real, b.maxAge as real);
  }

  /** A flawless lane scores its quality, rounded; one without a latency or a throughput scores nothing. */
  lemma ScoreEnds(lane: Lane, observed: int, b: Bounds)
    requires LaneValid(lane)
    ensures Flawless(lane, observed) ==> QualificationScore(lane, observed, b) == RoundTo(lane.quality, 1_000_000.0)
    ensures lane.latency.None? || lane.throughput.None? ==> QualificationScore(lane, observed, b) == 0.0
  {
    if Flawless(lane, observed) {
      FlawlessScores(lane, observed, b);
    }
    if lane.latency.None? || lane.throughput.None? {
      RawScoreMeans(lane, observed, b);
      RoundOfExact(0.0, 0, SIX_DECIMALS);
    }
  }

  // ----- What an advisory counts ---------------------------------------------------------------

  function HowMany(lanes: seq<Lane>, which: Lane -> bool): nat {
    if lanes == [] then 0 else (if which(lanes[0]) then 1 else 0) + HowMany(lanes[1..], which)
  }

  lemma {:induction false} CountMeans(bucket: Bucket, lanes: seq<Lane>, observed: int, b: Bounds, eligible: set<string>,
                                      which: Lane -> bool)
    requires forall lane :: which(lane) <==> InBucket(bucket, lane, observed, b, eligible)
    ensures Counted(bucket, lanes, observed, b, eligible) == HowMany(lanes, which)
  {
    if lanes != [] {
      CountMeans(bucket, lanes[1..], observed, b, eligible, which);
    }
  }

  function FromFuture(e: Evidence): Lane -> bool { (lane: Lane) => lane.observedAt > e.observed }

  function TooOld(e: Evidence): Lane -> bool { (lane: Lane) => e.observed - lane.observedAt > e.bounds.maxAge * 1_000_000 }

  predicate Recent(lane: Lane, e: Evidence) { 0 <= e.observed - lane.observedAt <= e.bounds.maxAge * 1_000_000 }

  function Doubtful(e: Evidence): Lane -> bool { (lane: Lane) => Recent(lane, e) && lane.quality < e.bounds.minQuality }

  predicate Trusted(lane: Lane, e: Evidence) { Recent(lane, e) && lane.quality >= e.bounds.minQuality }

  function Unseen(e: Evidence): Lane -> bool { (lane: Lane) => Trusted(lane, e) && lane.healthAge > e.bounds.maxHealthAge }

  function Elsewhere(e: Evidence): Lane -> bool {
    (lane: Lane) => Trusted(lane, e) && lane.healthAge <= e.bounds.maxHealthAge && lane.nodeId !in e.eligible
  }

  predicate CountsOf(a: Advisory, e: Evidence) {
    && a.futureDated == e.Count(FutureDated) && a.stale == e.Count(Stale) && a.lowConfidence == e.Count(LowConfidence)
    && a.healthStale == e.Count(HealthStale) && a.ineligible == e.Count(Ineligible) && a.eligibleCount == |e.eligible|
  }

  lemma AdviseCounts(e: Evidence, shape: Fleet.Placement, role: Option<Role>, fallback: Option<Role>, items: seq<Preference>,
                     selected: Option<string>)
    ensures CountsOf(Advise(e, shape, role, fallback, items, selected), e)
  {
  }

  lemma ServedCounted(e: Evidence, role: Role, primary: seq<Preference>, handles: Handles)
    requires ServedAdvice(e, role, primary, handles).Some?
    ensures CountsOf(ServedAdvice(e, role, primary, handles).value, e)
  {
    AdviseCounts(e, PreferredNode, Some(role), None, primary, LeaderOf(primary));
    var reviewers := PreferencesOf(Others(e.Usables(), LeaderOf(primary)), Review, e.Score(), handles);
    if reviewers.Some? {
      AdviseCounts(e, Split, Some(Code), None, primary + reviewers.value, None);
    }
  }

  lemma DraftCounted(e: Evidence, role: Role, handles: Handles)
    requires DraftOf(e, role, handles).Some?
    ensures CountsOf(DraftOf(e, role, handles).value, e)
  {
    AdviseCounts(e, Defer, None, None, [], None);
    AdviseCounts(e, Defer, None, Some(Scout), [], None);
    var primary := PreferencesOf(e.Usables(), role, e.Score(), handles);
    if e.eligible != {} && primary.Some? && primary.value != [] {
      ServedCounted(e, role, primary.value, handles);
    }
  }

  lemma CountsAre(a: Advisory, e: Evidence)
    requires CountsOf(a, e)
    ensures a.futureDated == HowMany(e.lanes, FromFuture(e)) && a.stale == HowMany(e.lanes, TooOld(e))
    ensures a.lowConfidence == HowMany(e.lanes, Doubtful(e)) && a.healthStale == HowMany(e.lanes, Unseen(e))
    ensures a.ineligible == HowMany(e.lanes, Elsewhere(e)) && a.eligibleCount == |e.eligible|
  {
    CountMeans(FutureDated, e.lanes, e.observed, e.bounds, e.eligible, FromFuture(e));
    CountMeans(Stale, e.lanes, e.observed, e.bounds, e.eligible, TooOld(e));
    CountMeans(LowConfidence, e.lanes, e.observed, e.bounds, e.eligible, Doubtful(e));
    CountMeans(HealthStale, e.lanes, e.observed, e.bounds, e.eligible, Unseen(e));
    CountMeans(Ineligible, e.lanes, e.observed, e.bounds, e.eligible, Elsewhere(e));
  }

  /**
   Each ignored lane is counted once, under the first thing against it: from the future, too old, doubtful in quality,
   health not seen lately, on a node that may not serve.
   */
  lemma CountsMean(e: Evidence, role: Role, handles: Handles)
    requires AdvisoryOf(e, role, handles).Some?
    ensures var a := AdvisoryOf(e, role, handles).value;
            && a.futureDated == HowMany(e.lanes, FromFuture(e)) && a.stale == HowMany(e.lanes, TooOld(e))
            && a.lowConfidence == HowMany(e.lanes, Doubtful(e)) && a.healthStale == HowMany(e.lanes, Unseen(e))
            && a.ineligible == HowMany(e.lanes, Elsewhere(e)) && a.eligibleCount == |e.eligible|
  {
    DraftCounted(e, role, handles);
    CountsAre(AdvisoryOf(e, role, handles).value, e);
  }

  // ----- What an advisory puts first -----------------------------------------------------------

  /** A lane may be used exactly when it is recent, trusted, recently healthy and on an eligible node. */
  lemma UsableMeans(e: Evidence, lane: Lane)
    ensures lane in e.Usables() <==>
            && lane in e.lanes && 0 <= e.observed - lane.observedAt <= e.bounds.maxAge * 1_000_000
            && lane.quality >= e.bounds.minQuality && lane.healthAge <= e.bounds.maxHealthAge && lane.nodeId in e.eligible
  {
  }

  /** What a lane serves: a summary-only one summaries, any other the roles it is qualified for. */
  lemma QualifiesMeans(lane: Lane)
    ensures lane.summaryOnly ==> forall role :: Qualifies(lane, role) <==> role == Summary
    ensures !lane.summaryOnly ==>
              && (Qualifies(lane, Code) <==> lane.codeQualified) && (Qualifies(lane, Review) <==> lane.reviewQualified)
              && (Qualifies(lane, Scout) <==> lane.scoutQualified) && !Qualifies(lane, Summary)
  {
  }

  /** Of the lanes that serve the role none scores above this one, and the ties have later names. */
  ghost predicate Leads(lane: Lane, lanes: seq<Lane>, role: Role, score: Lane -> real) {
    && lane in lanes && Qualifies(lane, role)
    && forall m :: m in lanes && Qualifies(m, role) ==>
         score(m) <= score(lane) && (score(m) == score(lane) ==> StringLeq(lane.nodeId, m.nodeId))
  }

  lemma FirstPreferenceLeads(lanes: seq<Lane>, role: Role, score: Lane -> real, handles: Handles) returns (lane: Lane)
    requires PreferencesOf(lanes, role, score, handles).Some? && PreferencesOf(lanes, role, score, handles).value != []
    ensures Leads(lane, lanes, role, score)
    ensures LeaderOf(PreferencesOf(lanes, role, score, handles).value) == Some(lane.nodeId)
  {
    var ranked := RankedScores(lanes, role, score);
    assert ranked[0] in ranked;
    assert EntryOf(ranked[0], lanes, role, score);
    lane :| lane in lanes && Qualifies(lane, role) && ranked[0] == Scored(score(lane), lane.nodeId);
    forall m | m in lanes && Qualifies(m, role)
      ensures score(m) <= score(lane) && (score(m) == score(lane) ==> StringLeq(lane.nodeId, m.nodeId))
    {
      assert EntryOf(Scored(score(m), m.nodeId), lanes, role, score);
      var i :| 0 <= i < |ranked| && ranked[i] == Scored(score(m), m.nodeId);
      if i > 0 {
        assert ScoredLeq(ranked[0], ranked[i]);
      } else {
        StringLeqTotal(lane.nodeId, lane.nodeId);
      }
    }
  }

  /** The preferences of a non-deferring advisory begin with those of its role. */
  lemma BeginsWithPrimary(e: Evidence, role: Role, handles: Handles)
    requires AdvisoryOf(e, role, handles).Some? && AdvisoryOf(e, role, handles).value.preferred != []
    ensures PreferencesOf(e.Usables(), role, e.Score(), handles).Some?
    ensures var a, primary := AdvisoryOf(e, role, handles).value, PreferencesOf(e.Usables(), role, e.Score(), handles).value;
            primary != [] && a.preferred[0] == primary[0] && (a.selected.Some? ==> a.selected == LeaderOf(primary))
  {
  }

  /** A millionth is all that rounding can hide. */
  lemma HiddenByRounding(a: Lane, c: Lane, observed: int, b: Bounds)
    requires LaneValid(a) && LaneValid(c) && observed >= a.observedAt && observed >= c.observedAt
    requires QualificationScore(a, observed, b) <= QualificationScore(c, observed, b)
    ensures RawScore(a, observed, b) <= RawScore(c, observed, b) + 0.000001
  {
    ScoreWithinQuality(a, observed, b);
    ScoreWithinQuality(c, observed, b);
    RoundIsNear(RawScore(a, observed, b), SIX_DECIMALS);
    RoundIsNear(RawScore(c, observed, b), SIX_DECIMALS);
  }

  /** The lane is beaten by no lane that serves the role, by more than rounding hides, and by none that is better in every field. */
  ghost predicate Unbeaten(lane: Lane, e: Evidence, role: Role) {
    && Leads(lane, e.Usables(), role, e.Score())
    && (forall m :: m in e.Usables() && Qualifies(m, role) ==>
          RawScore(m, e.observed, e.bounds) <= RawScore(lane, e.observed, e.bounds) + 0.000001)
    && (forall m :: m in e.Usables() && Qualifies(m, role) && AtLeastAsGood(m, lane) ==>
          QualificationScore(m, e.observed, e.bounds) == QualificationScore(lane, e.observed, e.bounds))
  }

  lemma LeaderIsUnbeaten(lane: Lane, e: Evidence, role: Role)
    requires Leads(lane, e.Usables(), role, e.Score()) && forall m :: m in e.lanes ==> LaneValid(m)
    ensures Unbeaten(lane, e, role)
  {
    forall m | m in e.Usables() && Qualifies(m, role)
      ensures RawScore(m, e.observed, e.bounds) <= RawScore(lane, e.observed, e.bounds) + 0.000001
      ensures AtLeastAsGood(m, lane) ==>
                QualificationScore(m, e.observed, e.bounds) == QualificationScore(lane, e.observed, e.bounds)
    {
      assert e.Score()(m) <= e.Score()(lane);
      UsableMeans(e, m);
      UsableMeans(e, lane);
      HiddenByRounding(m, lane, e.observed, e.bounds);
      if AtLeastAsGood(m, lane) {
        BetterNeverScoresLower(m, lane, e.observed, e.bounds);
      }
    }
  }

  /** The first node an advisory prefers, and the one it selects, is that of an unbeaten lane of the role. */
  lemma AdvisoryLeads(e: Evidence, role: Role, handles: Handles) returns (lane: Lane)
    requires forall m :: m in e.lanes ==> LaneValid(m)
    requires AdvisoryOf(e, role, handles).Some? && AdvisoryOf(e, role, handles).value.preferred != []
    ensures Unbeaten(lane, e, role)
    ensures var a := AdvisoryOf(e, role, handles).value;
            a.preferred[0].nodeId == lane.nodeId && (a.selected.Some? ==> a.selected.value == lane.nodeId)
  {
    BeginsWithPrimary(e, role, handles);
    lane := FirstPreferenceLeads(e.Usables(), role, e.Score(), handles);
    LeaderIsUnbeaten(lane, e, role);
  }
}
