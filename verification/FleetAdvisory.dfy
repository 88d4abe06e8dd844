/**
 The advisory drawn from benchmark lanes: each lane falls into one bucket, only usable lanes inside
 eligibility inform a preference, and the physical choice stays with the resolver.
 */
module FleetAdvisory {
  import opened Wrappers
  import opened Order
  import opened Fleet
  import opened Rounding

  datatype Role = Code | Review | Scout | Summary

  datatype Lane = Lane(nodeId: string, codeQualified: bool, reviewQualified: bool, scoutQualified: bool, summaryOnly: bool,
                       quality: real, latency: Option<real>, throughput: Option<real>, pressure: real,
                       healthAge: real, observedAt: int)

  type Seconds = n: int | n >= 1 witness 1

  datatype Bounds = Bounds(maxAge: Seconds, minQuality: real, maxHealthAge: real)

  const SECOND := 1_000_000
  const MAX_PRIORITY: nat := 16
  const MAX_LANES: nat := 128

  // ----- Buckets -----------------------------------------------------------------------------

  datatype Bucket = FutureDated | Stale | LowConfidence | HealthStale | Ineligible | Usable

  predicate IsFresh(lane: Lane, observed: int, b: Bounds) { 0 <= observed - lane.observedAt <= b.maxAge * SECOND }

  predicate IsTrusted(lane: Lane, b: Bounds) { lane.quality >= b.minQuality }

  predicate IsHealthFresh(lane: Lane, b: Bounds) { lane.healthAge <= b.maxHealthAge }

  /** The advisory's six list comprehensions, as predicates on one lane. */
  predicate InBucket(bucket: Bucket, lane: Lane, observed: int, b: Bounds, eligible: set<string>) {
    match bucket
    case FutureDated => observed - lane.observedAt < 0
    case Stale => !IsFresh(lane, observed, b) && observed - lane.observedAt >= 0
    case LowConfidence => IsFresh(lane, observed, b) && !IsTrusted(lane, b)
    case HealthStale => IsFresh(lane, observed, b) && IsTrusted(lane, b) && !IsHealthFresh(lane, b)
    case Ineligible => IsFresh(lane, observed, b) && IsTrusted(lane, b) && IsHealthFresh(lane, b) && lane.nodeId !in eligible
    case Usable => IsFresh(lane, observed, b) && IsTrusted(lane, b) && IsHealthFresh(lane, b) && lane.nodeId in eligible
  }

  function Lanes(bucket: Bucket, lanes: seq<Lane>, observed: int, b: Bounds, eligible: set<string>): (r: seq<Lane>)
    ensures forall lane :: lane in r <==> lane in lanes && InBucket(bucket, lane, observed, b, eligible)
  {
    if lanes == [] then []
    else (if InBucket(bucket, lanes[0], observed, b, eligible) then [lanes[0]] else []) + Lanes(bucket, lanes[1..], observed, b, eligible)
  }

  function Counted(bucket: Bucket, lanes: seq<Lane>, observed: int, b: Bounds, eligible: set<string>): nat {
    |Lanes(bucket, lanes, observed, b, eligible)|
  }

  /** The five ignored counts and the usable lanes add up to all lanes. */
  lemma {:induction false} BucketsPartition(lanes: seq<Lane>, observed: int, b: Bounds, eligible: set<string>)
    ensures Counted(FutureDated, lanes, observed, b, eligible) + Counted(Stale, lanes, observed, b, eligible) +
            Counted(LowConfidence, lanes, observed, b, eligible) + Counted(HealthStale, lanes, observed, b, eligible) +
            Counted(Ineligible, lanes, observed, b, eligible) + Counted(Usable, lanes, observed, b, eligible) == |lanes|
  {
    if lanes != [] {
      BucketsPartition(lanes[1..], observed, b, eligible);
    }
  }

  // ----- Qualification -----------------------------------------------------------------------

  /** A summary-only lane certifies summaries and nothing else. */
  predicate Qualifies(lane: Lane, role: Role) {
    if lane.summaryOnly then role == Summary
    else if role == Code then lane.codeQualified
    else if role == Review then lane.reviewQualified
    else if role == Scout then lane.scoutQualified
    else false
  }

  // ----- Scores ------------------------------------------------------------------------------

  const TINY := 0.000000001
  const LATENCY_REFERENCE := 1.0
  const THROUGHPUT_REFERENCE := 32.0
  const SIX_DECIMALS := 1_000_000.0

  function Larger(a: real, b: real): real { if a >= b then a else b }

  function Smaller(a: real, b: real): real { if a <= b then a else b }

  function Freshness(lane: Lane, observed: int, b: Bounds): real {
    Larger(0.0, 1.0 - (observed - lane.observedAt) as real / SECOND as real / b.maxAge as real)
  }

  function Health(lane: Lane, b: Bounds): real { Larger(0.0, 1.0 - lane.healthAge / Larger(b.maxHealthAge, TINY)) }

  function LatencyFactor(lane: Lane): real {
    if lane.latency.None? then 0.0 else Smaller(1.0, LATENCY_REFERENCE / Larger(lane.latency.value, TINY))
  }

  function ThroughputFactor(lane: Lane): real {
    if lane.throughput.None? then 0.0 else Smaller(1.0, lane.throughput.value / THROUGHPUT_REFERENCE)
  }

  /** `q` times each factor in turn. */
  function Product(q: real, factors: seq<real>): real
    decreases |factors|
  {
    if factors == [] then q else Product(q * factors[0], factors[1..])
  }

  function Factors(lane: Lane, observed: int, b: Bounds): seq<real> {
    [Freshness(lane, observed, b), Health(lane, b), Larger(0.0, 1.0 - lane.pressure), LatencyFactor(lane), ThroughputFactor(lane)]
  }

  /** Trust multiplied into an ordering. */
  function RawScore(lane: Lane, observed: int, b: Bounds): real {
    Product(lane.quality, Factors(lane, observed, b))
  }

  function QualificationScore(lane: Lane, observed: int, b: Bounds): real {
    RoundTo(Larger(0.0, Smaller(1.0, RawScore(lane, observed, b))), SIX_DECIMALS)
  }

  /** What a lane's own field bounds ensure. */
  predicate LaneValid(lane: Lane) {
    && 0.0 <= lane.quality <= 1.0 && lane.pressure >= 0.0 && lane.healthAge >= 0.0
    && (lane.latency.Some? ==> lane.latency.value >= 0.0) && (lane.throughput.Some? ==> lane.throughput.value >= 0.0)
  }

  predicate Portion(x: real) { 0.0 <= x <= 1.0 }

  lemma OverPositive(a: real, c: real)
    requires a >= 0.0 && c > 0.0
    ensures a / c >= 0.0
  {
    assert a / c * c == a;
  }

  lemma FactorsArePortions(lane: Lane, observed: int, b: Bounds)
    requires LaneValid(lane) && observed >= lane.observedAt
    ensures Portion(Freshness(lane, observed, b)) && Portion(Health(lane, b)) && Portion(Larger(0.0, 1.0 - lane.pressure))
    ensures Portion(LatencyFactor(lane)) && Portion(ThroughputFactor(lane))
  {
    OverPositive((observed - lane.observedAt) as real, SECOND as real);
    OverPositive((observed - lane.observedAt) as real / SECOND as real, b.maxAge as real);
    OverPositive(lane.healthAge, Larger(b.maxHealthAge, TINY));
    if lane.latency.Some? {
      OverPositive(LATENCY_REFERENCE, Larger(lane.latency.value, TINY));
    }
    if lane.throughput.Some? {
      OverPositive(lane.throughput.value, THROUGHPUT_REFERENCE);
    }
  }

  lemma Discounted(x: real, f: real)
    requires x >= 0.0 && Portion(f)
    ensures 0.0 <= x * f <= x
  {
  }

  lemma {:induction false} ProductWithin(q: real, factors: seq<real>)
    requires q >= 0.0 && forall f :: f in factors ==> Portion(f)
    ensures 0.0 <= Product(q, factors) <= q
    decreases |factors|
  {
    if factors != [] {
      Discounted(q, factors[0]);
      ProductWithin(q * factors[0], factors[1..]);
    }
  }

  /** A lane that is not from the future never scores above its quality, so the clamp at 0 and 1 never acts. */
  lemma ScoreWithinQuality(lane: Lane, observed: int, b: Bounds)
    requires LaneValid(lane) && observed >= lane.observedAt
    ensures 0.0 <= RawScore(lane, observed, b) <= lane.quality
    ensures QualificationScore(lane, observed, b) == RoundTo(RawScore(lane, observed, b), SIX_DECIMALS)
  {
    FactorsArePortions(lane, observed, b);
    ProductWithin(lane.quality, Factors(lane, observed, b));
  }

  // ----- Preferences -------------------------------------------------------------------------

  datatype Scored = Scored(score: real, nodeId: string)

  predicate ScoredLeq(a: Scored, b: Scored) {
    a.score > b.score || (a.score == b.score && StringLeq(a.nodeId, b.nodeId))
  }

  lemma ScoredIsTotal()
    ensures TotalOrder(ScoredLeq)
  {
    forall a: Scored, b: Scored ensures ScoredLeq(a, b) || ScoredLeq(b, a) {
      StringLeqTotal(a.nodeId, b.nodeId);
    }
    forall a: Scored, b: Scored, c: Scored | ScoredLeq(a, b) && ScoredLeq(b, c) ensures ScoredLeq(a, c) {
      if a.score == b.score == c.score {
        StringLeqTransitive(a.nodeId, b.nodeId, c.nodeId);
      }
    }
  }

  /** `x` is the score entry of a lane qualified for the role. */
  ghost predicate EntryOf(x: Scored, lanes: seq<Lane>, role: Role, score: Lane -> real) {
    exists lane :: lane in lanes && Qualifies(lane, role) && x == Scored(score(lane), lane.nodeId)
  }

  function ScoresFor(lanes: seq<Lane>, role: Role, score: Lane -> real): (r: seq<Scored>)
    ensures forall x :: x in r <==> EntryOf(x, lanes, role, score)
  {
    if lanes == [] then []
    else
      var rest := ScoresFor(lanes[1..], role, score);
      assert forall lane :: lane in lanes <==> lane == lanes[0] || lane in lanes[1..];
      (if Qualifies(lanes[0], role) then [Scored(score(lanes[0]), lanes[0].nodeId)] else []) + rest
  }

  function RankedScores(lanes: seq<Lane>, role: Role, score: Lane -> real): (r: seq<Scored>)
    ensures Sorted(ScoredLeq, r)
    ensures forall x :: x in r <==> EntryOf(x, lanes, role, score)
  {
    ScoredIsTotal();
    SortMembers(ScoredLeq, ScoresFor(lanes, role, score));
    Sort(ScoredLeq, ScoresFor(lanes, role, score))
  }

  /** The first entry belongs to a qualified lane, and no qualified lane scores higher. */
  lemma LeaderIsBest(lanes: seq<Lane>, role: Role, score: Lane -> real)
    ensures RankedScores(lanes, role, score) == [] <==> forall lane :: lane in lanes ==> !Qualifies(lane, role)
    ensures RankedScores(lanes, role, score) != [] ==> EntryOf(RankedScores(lanes, role, score)[0], lanes, role, score)
    ensures RankedScores(lanes, role, score) != [] ==>
              forall lane :: lane in lanes && Qualifies(lane, role) ==> score(lane) <= RankedScores(lanes, role, score)[0].score
  {
    var ranked := RankedScores(lanes, role, score);
    forall lane | lane in lanes && Qualifies(lane, role)
      ensures ranked != [] && score(lane) <= ranked[0].score
    {
      assert EntryOf(Scored(score(lane), lane.nodeId), lanes, role, score);
      var i :| 0 <= i < |ranked| && ranked[i] == Scored(score(lane), lane.nodeId);
      assert i > 0 ==> ScoredLeq(ranked[0], ranked[i]);
    }
    if ranked != [] {
      assert ranked[0] in ranked;
    }
  }

  /** A preference; the node is the host's side of the opaque handle. */
  datatype Preference = Preference(role: Role, handle: string, score: real, nodeId: string)

  /** Valid handles by node; `None` is a missing or malformed one. */
  type Handles = string -> Option<string>

  function Limited(ranked: seq<Scored>): (r: seq<Scored>)
    ensures r <= ranked && |r| <= MAX_PRIORITY && (|ranked| <= MAX_PRIORITY ==> r == ranked)
  {
    if |ranked| <= MAX_PRIORITY then ranked else ranked[..MAX_PRIORITY]
  }

  /** Every listed node has a handle, and no two listed entries share one. */
  predicate HandlesUsable(listed: seq<Scored>, handles: Handles) {
    && (forall x :: x in listed ==> handles(x.nodeId).Some?)
    && (forall j, k :: 0 <= j < k < |listed| ==> handles(listed[j].nodeId) != handles(listed[k].nodeId))
  }

  function Preferring(listed: seq<Scored>, role: Role, handles: Handles): (r: seq<Preference>)
    requires forall x :: x in listed ==> handles(x.nodeId).Some?
    ensures |r| == |listed|
  {
    seq(|listed|, i requires 0 <= i < |listed| => Preference(role, handles(listed[i].nodeId).value, listed[i].score, listed[i].nodeId))
  }

  /** The preferences of a role, best first; `None` is a refused handle map. */
  function PreferencesOf(lanes: seq<Lane>, role: Role, score: Lane -> real, handles: Handles): Option<seq<Preference>> {
    var listed := Limited(RankedScores(lanes, role, score));
    if HandlesUsable(listed, handles) then Some(Preferring(listed, role, handles)) else None
  }

  function LeaderOf(items: seq<Preference>): Option<string> { if items == [] then None else Some(items[0].nodeId) }

  /** The handles of the entries seen so far. */
  ghost predicate SeenExactly(seen: set<string>, listed: seq<Scored>, handles: Handles) {
    && (forall x :: x in listed ==> handles(x.nodeId).Some? && handles(x.nodeId).value in seen)
    && (forall h :: h in seen ==> exists x :: x in listed && handles(x.nodeId) == Some(h))
  }

  lemma Refused(listed: seq<Scored>, i: nat, seen: set<string>, handles: Handles)
    requires i < |listed| && SeenExactly(seen, listed[..i], handles)
    requires handles(listed[i].nodeId).None? || handles(listed[i].nodeId).value in seen
    ensures !HandlesUsable(listed, handles)
  {
    assert listed[i] in listed;
    if handles(listed[i].nodeId).Some? {
      var x :| x in listed[..i] && handles(x.nodeId) == handles(listed[i].nodeId);
      var k :| 0 <= k < i && listed[k] == x;
    }
  }

  lemma Extended(listed: seq<Scored>, i: nat, seen: set<string>, role: Role, handles: Handles)
    requires i < |listed| && HandlesUsable(listed[..i], handles) && SeenExactly(seen, listed[..i], handles)
    requires handles(listed[i].nodeId).Some? && handles(listed[i].nodeId).value !in seen
    ensures HandlesUsable(listed[..i + 1], handles)
    ensures SeenExactly(seen + {handles(listed[i].nodeId).value}, listed[..i + 1], handles)
    ensures Preferring(listed[..i + 1], role, handles) ==
            Preferring(listed[..i], role, handles) + [Preference(role, handles(listed[i].nodeId).value, listed[i].score, listed[i].nodeId)]
  {
    var now := listed[..i + 1];
    assert now == listed[..i] + [listed[i]];
    assert forall k :: 0 <= k < i ==> listed[..i][k] in listed[..i];
  }

  /** `_preferences`: a loop over the best entries that remembers the handles seen and the first node. */
  method Preferences(lanes: seq<Lane>, role: Role, score: Lane -> real, handles: Handles)
    returns (r: Option<(seq<Preference>, Option<string>)>)
    ensures r.None? <==> PreferencesOf(lanes, role, score, handles).None?
    ensures r.Some? ==> Some(r.value.0) == PreferencesOf(lanes, role, score, handles) && r.value.1 == LeaderOf(r.value.0)
  {
    var listed := Limited(RankedScores(lanes, role, score));
    var seen: set<string> := {};
    var items: seq<Preference> := [];
    var leader: Option<string> := None;
    for i := 0 to |listed|
      invariant HandlesUsable(listed[..i], handles)
      invariant items == Preferring(listed[..i], role, handles)
      invariant SeenExactly(seen, listed[..i], handles)
      invariant leader == LeaderOf(items)
    {
      var handle := handles(listed[i].nodeId);
      if handle.None? || handle.value in seen {
        Refused(listed, i, seen, handles);
        return None;
      }
      Extended(listed, i, seen, role, handles);
      seen := seen + {handle.value};
      items := items + [Preference(role, handle.value, listed[i].score, listed[i].nodeId)];
      if leader.None? {
        leader := Some(listed[i].nodeId);
      }
    }
    assert listed[..|listed|] == listed;
    return Some((items, leader));
  }

  /** Each preference names a qualified lane of the role under the node's own handle, better ones first, no handle twice. */
  lemma PreferencesAreEarned(lanes: seq<Lane>, role: Role, score: Lane -> real, handles: Handles)
    requires PreferencesOf(lanes, role, score, handles).Some?
    ensures var items := PreferencesOf(lanes, role, score, handles).value;
            forall k :: 0 <= k < |items| ==>
              (items[k].role == role && Some(items[k].handle) == handles(items[k].nodeId) && FromLane(items[k], lanes, score))
    ensures var items := PreferencesOf(lanes, role, score, handles).value;
            forall j, k :: 0 <= j < k < |items| ==> items[j].score >= items[k].score && items[j].handle != items[k].handle
    ensures PreferencesOf(lanes, role, score, handles).value == [] <==> forall lane :: lane in lanes ==> !Qualifies(lane, role)
  {
    var ranked := RankedScores(lanes, role, score);
    var listed := Limited(ranked);
    var items := PreferencesOf(lanes, role, score, handles).value;
    LeaderIsBest(lanes, role, score);
    forall k | 0 <= k < |items| ensures FromLane(items[k], lanes, score) && Some(items[k].handle) == handles(items[k].nodeId) {
      assert ranked[k] in ranked;
      assert listed[k] in listed;
    }
    forall j, k | 0 <= j < k < |items| ensures items[j].score >= items[k].score && items[j].handle != items[k].handle {
      assert listed[j] in listed && listed[k] in listed;
      assert ScoredLeq(ranked[j], ranked[k]);
    }
  }

  ghost predicate FromLane(item: Preference, lanes: seq<Lane>, score: Lane -> real) {
    exists lane :: lane in lanes && Qualifies(lane, item.role) && lane.nodeId == item.nodeId && score(lane) == item.score
  }

  // ----- The advisory ------------------------------------------------------------------------

  datatype Advisory = Advisory(shape: Placement, role: Option<Role>, fallback: Option<Role>, preferred: seq<Preference>,
                               selected: Option<string>, eligibleCount: nat,
                               stale: nat, futureDated: nat, lowConfidence: nat, healthStale: nat, ineligible: nat)

  /** What the advisory is drawn from. */
  datatype Evidence = Evidence(lanes: seq<Lane>, observed: int, bounds: Bounds, eligible: set<string>, checkpoint: bool) {
    function Count(bucket: Bucket): nat { Counted(bucket, lanes, observed, bounds, eligible) }

    function Usables(): seq<Lane> { Lanes(Usable, lanes, observed, bounds, eligible) }

    function Score(): Lane -> real { lane => QualificationScore(lane, observed, bounds) }
  }

  function EligibleIds(s: State): set<string> {
    set i | 0 <= i < |EligibleNodes(s)| :: EligibleNodes(s)[i].id
  }

  function Others(lanes: seq<Lane>, leader: Option<string>): (r: seq<Lane>)
    ensures forall lane :: lane in r <==> lane in lanes && Some(lane.nodeId) != leader
  {
    if lanes == [] then [] else (if Some(lanes[0].nodeId) != leader then [lanes[0]] else []) + Others(lanes[1..], leader)
  }

  function Advise(e: Evidence, shape: Placement, role: Option<Role>, fallback: Option<Role>, preferred: seq<Preference>,
                  selected: Option<string>): Advisory {
    Advisory(shape, role, fallback, preferred, selected, |e.eligible|, e.Count(Stale), e.Count(FutureDated), e.Count(LowConfidence),
             e.Count(HealthStale), e.Count(Ineligible))
  }

  ghost predicate AllIn(items: seq<Preference>, eligible: set<string>) {
    forall k :: 0 <= k < |items| ==> items[k].nodeId in eligible
  }

  /** Coders first, then reviewers, each on a node that is not the leading coder's. */
  ghost predicate CodeThenReview(items: seq<Preference>) {
    exists n :: 0 < n < |items| && SplitAt(items, n)
  }

  ghost predicate SplitAt(items: seq<Preference>, n: int)
    requires 0 < n < |items|
  {
    && (forall k :: 0 <= k < n ==> items[k].role == Code)
    && (forall k :: n <= k < |items| ==> items[k].role == Review && items[k].nodeId != items[0].nodeId)
  }

  ghost predicate SomeQualifies(lanes: seq<Lane>, role: Role) {
    exists lane :: lane in lanes && Qualifies(lane, role)
  }

  /** What every advisory keeps to, whatever the lanes claim. */
  ghost predicate Bounded(a: Advisory, e: Evidence, role: Role) {
    && AllIn(a.preferred, e.eligible)
    && (a.selected.Some? ==> a.selected.value in e.eligible)
    && (a.shape == Defer <==> e.eligible == {} || !SomeQualifies(e.Usables(), role))
    && (a.shape == Defer <==> a.preferred == [])
    && (a.shape == PreferredNode <==> a.selected.Some?)
    && (a.shape == PreferredNode ==> a.selected == LeaderOf(a.preferred))
    && (a.shape == Split ==> role == Code && |e.eligible| >= 2 && e.checkpoint && CodeThenReview(a.preferred))
    && (a.shape == Defer || a.shape == PreferredNode || a.shape == Split)
    && a.stale + a.futureDated + a.lowConfidence + a.healthStale + a.ineligible + |e.Usables()| == |e.lanes|
  }

  ghost predicate LanesIn(lanes: seq<Lane>, eligible: set<string>) {
    forall lane :: lane in lanes ==> lane.nodeId in eligible
  }

  lemma UsablesAreEligible(e: Evidence, leader: Option<string>)
    ensures LanesIn(e.Usables(), e.eligible) && LanesIn(Others(e.Usables(), leader), e.eligible)
  {
  }

  /** Any list of preferences drawn from lanes inside eligibility stays inside eligibility. */
  lemma PreferredAreEligible(lanes: seq<Lane>, role: Role, score: Lane -> real, handles: Handles, eligible: set<string>)
    requires PreferencesOf(lanes, role, score, handles).Some? && LanesIn(lanes, eligible)
    ensures AllIn(PreferencesOf(lanes, role, score, handles).value, eligible)
  {
    PreferencesAreEarned(lanes, role, score, handles);
    var items := PreferencesOf(lanes, role, score, handles).value;
    forall k | 0 <= k < |items| ensures items[k].nodeId in eligible {
      assert FromLane(items[k], lanes, score);
    }
  }

  lemma ServedExactly(lanes: seq<Lane>, role: Role, score: Lane -> real, handles: Handles)
    requires PreferencesOf(lanes, role, score, handles).Some?
    ensures PreferencesOf(lanes, role, score, handles).value != [] <==> SomeQualifies(lanes, role)
  {
    PreferencesAreEarned(lanes, role, score, handles);
  }

  /** An advisory that defers. */
  lemma DeferralIsBounded(e: Evidence, role: Role, fallback: Option<Role>)
    requires e.eligible == {} || !SomeQualifies(e.Usables(), role)
    ensures Bounded(Advise(e, Defer, None, fallback, [], None), e, role)
  {
    BucketsPartition(e.lanes, e.observed, e.bounds, e.eligible);
  }

  /** An advisory that names one node. */
  lemma ChoiceIsBounded(e: Evidence, role: Role, items: seq<Preference>)
    requires e.eligible != {} && SomeQualifies(e.Usables(), role)
    requires items != [] && AllIn(items, e.eligible)
    ensures Bounded(Advise(e, PreferredNode, Some(role), None, items, LeaderOf(items)), e, role)
  {
    BucketsPartition(e.lanes, e.observed, e.bounds, e.eligible);
  }

  /** An advisory that splits the work. */
  lemma SplitIsBounded(e: Evidence, coders: seq<Preference>, reviewers: seq<Preference>)
    requires |e.eligible| >= 2 && e.checkpoint && SomeQualifies(e.Usables(), Code)
    requires coders != [] && reviewers != [] && AllIn(coders, e.eligible) && AllIn(reviewers, e.eligible)
    requires SplitAt(coders + reviewers, |coders|)
    ensures Bounded(Advise(e, Split, Some(Code), None, coders + reviewers, None), e, Code)
  {
    BucketsPartition(e.lanes, e.observed, e.bounds, e.eligible);
  }

  /** Reviewers come from lanes that are not the leading coder's. */
  lemma CodersThenReviewers(usable: seq<Lane>, score: Lane -> real, handles: Handles)
    requires PreferencesOf(usable, Code, score, handles).Some? && PreferencesOf(usable, Code, score, handles).value != []
    requires var coders := PreferencesOf(usable, Code, score, handles).value;
             var reviewers := PreferencesOf(Others(usable, LeaderOf(coders)), Review, score, handles);
             reviewers.Some? && reviewers.value != []
    ensures var coders := PreferencesOf(usable, Code, score, handles).value;
            var reviewers := PreferencesOf(Others(usable, LeaderOf(coders)), Review, score, handles).value;
            SplitAt(coders + reviewers, |coders|)
  {
    var coders := PreferencesOf(usable, Code, score, handles).value;
    var others := Others(usable, LeaderOf(coders));
    var reviewers := PreferencesOf(others, Review, score, handles).value;
    PreferencesAreEarned(usable, Code, score, handles);
    PreferencesAreEarned(others, Review, score, handles);
    var all := coders + reviewers;
    forall k | |coders| <= k < |all| ensures all[k].role == Review && all[k].nodeId != all[0].nodeId {
      assert FromLane(reviewers[k - |coders|], others, score);
    }
  }

  // ----- The advisory as a whole -------------------------------------------------------------

  function Deferral(e: Evidence, fallback: Option<Role>): Advisory { Advise(e, Defer, None, fallback, [], None) }

  /** A role that no usable lane serves: defer, with scouting as a coder's fallback. */
  function UnservedAdvice(e: Evidence, role: Role, handles: Handles): Option<Advisory> {
    if role != Code then Some(Deferral(e, None))
    else
      var scouts := PreferencesOf(e.Usables(), Scout, e.Score(), handles);
      if scouts.None? then None else Some(Deferral(e, if scouts.value != [] then Some(Scout) else None))
  }

  /** A role that some usable lane serves: name its leader, or split coding from review. */
  function ServedAdvice(e: Evidence, role: Role, primary: seq<Preference>, handles: Handles): Option<Advisory> {
    var single := Advise(e, PreferredNode, Some(role), None, primary, LeaderOf(primary));
    if role != Code then Some(single)
    else
      var reviewers := PreferencesOf(Others(e.Usables(), LeaderOf(primary)), Review, e.Score(), handles);
      if reviewers.None? then None
      else if reviewers.value != [] && |e.eligible| >= 2 && e.checkpoint then
        Some(Advise(e, Split, Some(Code), None, primary + reviewers.value, None))
      else Some(single)
  }

  /** What the branches arrive at; `None` is a raised error about handles. */
  function DraftOf(e: Evidence, role: Role, handles: Handles): Option<Advisory> {
    if e.eligible == {} then Some(Deferral(e, None))
    else
      var primary := PreferencesOf(e.Usables(), role, e.Score(), handles);
      if primary.None? then None
      else if primary.value == [] then UnservedAdvice(e, role, handles)
      else ServedAdvice(e, role, primary.value, handles)
  }

  /** The bounds an advisory's own fields declare. */
  predicate FieldsFit(a: Advisory) {
    && a.eligibleCount <= MAX_LANES && a.stale <= MAX_LANES && a.futureDated <= MAX_LANES && a.lowConfidence <= MAX_LANES
    && a.healthStale <= MAX_LANES && a.ineligible <= MAX_LANES
    && |a.preferred| <= 2 * MAX_PRIORITY && forall k :: 0 <= k < |a.preferred| ==> Portion(a.preferred[k].score)
  }

  /** The advisory, if its fields accept it. */
  function AdvisoryOf(e: Evidence, role: Role, handles: Handles): Option<Advisory> {
    var draft := DraftOf(e, role, handles);
    if draft.Some? && FieldsFit(draft.value) then draft else None
  }

  lemma ServedIsBounded(e: Evidence, role: Role, primary: seq<Preference>, handles: Handles)
    requires e.eligible != {} && primary != [] && Some(primary) == PreferencesOf(e.Usables(), role, e.Score(), handles)
    ensures var r := ServedAdvice(e, role, primary, handles); r.Some? ==> Bounded(r.value, e, role)
  {
    UsablesAreEligible(e, LeaderOf(primary));
    PreferredAreEligible(e.Usables(), role, e.Score(), handles, e.eligible);
    ServedExactly(e.Usables(), role, e.Score(), handles);
    ChoiceIsBounded(e, role, primary);
    var others := Others(e.Usables(), LeaderOf(primary));
    var reviewers := PreferencesOf(others, Review, e.Score(), handles);
    if role == Code && reviewers.Some? && reviewers.value != [] && |e.eligible| >= 2 && e.checkpoint {
      PreferredAreEligible(others, Review, e.Score(), handles, e.eligible);
      CodersThenReviewers(e.Usables(), e.Score(), handles);
      SplitIsBounded(e, primary, reviewers.value);
    }
  }

  lemma UnservedIsBounded(e: Evidence, role: Role, handles: Handles)
    requires !SomeQualifies(e.Usables(), role)
    ensures var r := UnservedAdvice(e, role, handles); r.Some? ==> Bounded(r.value, e, role)
    ensures var r := UnservedAdvice(e, role, handles);
            r.Some? ==> r.value.fallback == if role == Code && SomeQualifies(e.Usables(), Scout) then Some(Scout) else None
  {
    var scouts := PreferencesOf(e.Usables(), Scout, e.Score(), handles);
    if scouts.Some? {
      ServedExactly(e.Usables(), Scout, e.Score(), handles);
    }
    DeferralIsBounded(e, role, None);
    DeferralIsBounded(e, role, Some(Scout));
  }

  lemma DraftIsBounded(e: Evidence, role: Role, handles: Handles)
    ensures var r := DraftOf(e, role, handles); r.Some? ==> Bounded(r.value, e, role)
  {
    if e.eligible == {} {
      DeferralIsBounded(e, role, None);
    } else {
      var primary := PreferencesOf(e.Usables(), role, e.Score(), handles);
      if primary.Some? {
        ServedExactly(e.Usables(), role, e.Score(), handles);
        if primary.value == [] {
          UnservedIsBounded(e, role, handles);
        } else {
          ServedIsBounded(e, role, primary.value, handles);
        }
      }
    }
  }

  /** Whatever the lanes claim, the advisory keeps to its bounds. */
  lemma AdvisoryIsBounded(e: Evidence, role: Role, handles: Handles)
    ensures var r := AdvisoryOf(e, role, handles); r.Some? ==> Bounded(r.value, e, role)
  {
    DraftIsBounded(e, role, handles);
  }

  // ----- When it is refused --------------------------------------------------------------------

  lemma RoundedPortion(x: real)
    requires Portion(x)
    ensures Portion(RoundTo(x, SIX_DECIMALS))
  {
    RoundOfExact(0.0, 0, SIX_DECIMALS);
    RoundOfExact(1.0, 1_000_000, SIX_DECIMALS);
    RoundMonotone(0.0, x, SIX_DECIMALS);
    RoundMonotone(x, 1.0, SIX_DECIMALS);
  }

  lemma ScoreIsPortion(lane: Lane, observed: int, b: Bounds)
    ensures Portion(QualificationScore(lane, observed, b))
  {
    RoundedPortion(Larger(0.0, Smaller(1.0, RawScore(lane, observed, b))));
  }

  predicate ListFits(items: seq<Preference>) {
    |items| <= MAX_PRIORITY && forall k :: 0 <= k < |items| ==> Portion(items[k].score)
  }

  lemma PreferencesFit(e: Evidence, lanes: seq<Lane>, role: Role, handles: Handles)
    requires PreferencesOf(lanes, role, e.Score(), handles).Some?
    ensures ListFits(PreferencesOf(lanes, role, e.Score(), handles).value)
  {
    PreferencesAreEarned(lanes, role, e.Score(), handles);
    var items := PreferencesOf(lanes, role, e.Score(), handles).value;
    forall k | 0 <= k < |items| ensures Portion(items[k].score) {
      assert FromLane(items[k], lanes, e.Score());
      var lane :| lane in lanes && e.Score()(lane) == items[k].score;
      ScoreIsPortion(lane, e.observed, e.bounds);
    }
  }

  /** Of the fields' bounds only the one on the number of eligible nodes can act, for a matrix within its own bound. */
  lemma OnlyCrowdingActs(e: Evidence, role: Role, handles: Handles)
    requires |e.lanes| <= MAX_LANES && DraftOf(e, role, handles).Some?
    ensures FieldsFit(DraftOf(e, role, handles).value) <==> |e.eligible| <= MAX_LANES
  {
    BucketsPartition(e.lanes, e.observed, e.bounds, e.eligible);
    if e.eligible != {} {
      var primary := PreferencesOf(e.Usables(), role, e.Score(), handles).value;
      PreferencesFit(e, e.Usables(), role, handles);
      if primary != [] && role == Code {
        var others := Others(e.Usables(), LeaderOf(primary));
        PreferencesFit(e, others, Review, handles);
        BothFit(primary, PreferencesOf(others, Review, e.Score(), handles).value);
      }
    }
  }

  lemma BothFit(a: seq<Preference>, b: seq<Preference>)
    requires ListFits(a) && ListFits(b)
    ensures |a + b| <= 2 * MAX_PRIORITY && forall k :: 0 <= k < |a + b| ==> Portion((a + b)[k].score)
  {
  }

  /** The lists of lanes whose best entries lack usable handles. */
  predicate Refuses(lanes: seq<Lane>, role: Role, score: Lane -> real, handles: Handles) {
    !HandlesUsable(Limited(RankedScores(lanes, role, score)), handles)
  }

  /** The lanes of a role, in matrix order. */
  function Serving(lanes: seq<Lane>, role: Role): seq<Lane> {
    if lanes == [] then [] else (if Qualifies(lanes[0], role) then [lanes[0]] else []) + Serving(lanes[1..], role)
  }

  function HandleOf(handles: Handles): Scored -> Option<string> { (x: Scored) => handles(x.nodeId) }

  lemma {:induction false} ScoresServe(lanes: seq<Lane>, role: Role, score: Lane -> real)
    ensures |ScoresFor(lanes, role, score)| == |Serving(lanes, role)|
    ensures forall k :: 0 <= k < |Serving(lanes, role)| ==> ScoresFor(lanes, role, score)[k].nodeId == Serving(lanes, role)[k].nodeId
  {
    if lanes != [] {
      ScoresServe(lanes[1..], role, score);
    }
  }

  lemma UsableMeansDistinct(listed: seq<Scored>, handles: Handles)
    ensures HandlesUsable(listed, handles) <==> None !in Map(HandleOf(handles), listed) && NoDuplicates(Map(HandleOf(handles), listed))
  {
    var given := Map(HandleOf(handles), listed);
    assert forall k :: 0 <= k < |listed| ==> given[k] == handles(listed[k].nodeId) && listed[k] in listed;
    if None in given {
      var k :| 0 <= k < |given| && given[k] == None;
    }
  }

  lemma DistinctEitherWay<T>(a: seq<T>, b: seq<T>)
    requires multiset(a) == multiset(b)
    ensures NoDuplicates(a) <==> NoDuplicates(b)
    ensures forall x :: x in a <==> x in b
  {
    if NoDuplicates(a) {
      RearrangedDistinct(a, b);
    }
    if NoDuplicates(b) {
      RearrangedDistinct(b, a);
    }
    forall x ensures x in a <==> x in b {
      assert x in multiset(a) <==> x in multiset(b);
    }
  }

  /** Some lane of the role has no usable handle, or two of them have one. */
  predicate HandlesClash(lanes: seq<Lane>, role: Role, handles: Handles) {
    var serving := Serving(lanes, role);
    || (exists k :: 0 <= k < |serving| && handles(serving[k].nodeId).None?)
    || (exists j, k :: 0 <= j < k < |serving| && handles(serving[j].nodeId) == handles(serving[k].nodeId))
  }

  /** While all lanes of a role are listed, the order they are ranked in has no part in refusing them. */
  lemma RefusesExactly(lanes: seq<Lane>, role: Role, score: Lane -> real, handles: Handles)
    requires |Serving(lanes, role)| <= MAX_PRIORITY
    ensures Refuses(lanes, role, score, handles) <==> HandlesClash(lanes, role, handles)
  {
    var scores, ranked := ScoresFor(lanes, role, score), RankedScores(lanes, role, score);
    ScoresServe(lanes, role, score);
    RankedIsRearranged(lanes, role, score);
    SameSize(scores, ranked);
    MapRearranged(HandleOf(handles), scores, ranked);
    DistinctEitherWay(Map(HandleOf(handles), scores), Map(HandleOf(handles), ranked));
    UsableMeansDistinct(scores, handles);
    UsableMeansDistinct(ranked, handles);
    ClashMeansUnusable(scores, Serving(lanes, role), lanes, role, handles);
  }

  lemma ClashMeansUnusable(scores: seq<Scored>, serving: seq<Lane>, lanes: seq<Lane>, role: Role, handles: Handles)
    requires serving == Serving(lanes, role) && |scores| == |serving|
    requires forall k :: 0 <= k < |serving| ==> scores[k].nodeId == serving[k].nodeId
    ensures HandlesClash(lanes, role, handles) <==> !HandlesUsable(scores, handles)
  {
    assert forall k :: 0 <= k < |scores| ==> scores[k] in scores;
    if x :| x in scores && handles(x.nodeId).None? {
      var k :| 0 <= k < |scores| && scores[k] == x;
      assert handles(serving[k].nodeId).None?;
    }
  }

  lemma RankedIsRearranged(lanes: seq<Lane>, role: Role, score: Lane -> real)
    ensures multiset(RankedScores(lanes, role, score)) == multiset(ScoresFor(lanes, role, score))
  {
    ScoredIsTotal();
  }

  /** Which lanes beside the role's own are consulted: scouts for an unserved coder, reviewers for a served one. */
  predicate SecondRefusal(e: Evidence, handles: Handles) {
    var coders := PreferencesOf(e.Usables(), Code, e.Score(), handles);
    coders.Some? &&
    if coders.value == [] then Refuses(e.Usables(), Scout, e.Score(), handles)
    else Refuses(Others(e.Usables(), LeaderOf(coders.value)), Review, e.Score(), handles)
  }

  /**
   The advisory is refused exactly for more eligible nodes than its count field takes, or for unusable
   handles among the lanes it consults.
   */
  lemma RaisesExactly(e: Evidence, role: Role, handles: Handles)
    requires |e.lanes| <= MAX_LANES
    ensures AdvisoryOf(e, role, handles).None? <==>
            || |e.eligible| > MAX_LANES
            || (e.eligible != {} && (Refuses(e.Usables(), role, e.Score(), handles) || (role == Code && SecondRefusal(e, handles))))
  {
    if DraftOf(e, role, handles).Some? {
      OnlyCrowdingActs(e, role, handles);
    }
  }

  // ----- A fleet too large to advise on ---------------------------------------------------------

  function LongName(n: nat): string { seq(n, _ => 'n') }

  function Spare(n: nat): Node { Node(LongName(n), [], true, true, false, true, 1.0, 0.0, 0.0, 0) }

  /** `n` healthy nodes with nothing asked of them. */
  function Crowd(n: nat, story: Story): State { State("", story, [], [], 0.0, 0.0, false, None, seq(n, i requires 0 <= i < n => Spare(i))) }

  lemma CrowdIsEligible(n: nat, story: Story)
    ensures forall i :: 0 <= i < n ==> Spare(i) in EligibleNodes(Crowd(n, story))
    ensures forall node :: node in EligibleNodes(Crowd(n, story)) ==> exists i: nat :: i < n && node == Spare(i)
  {
    var s := Crowd(n, story);
    forall i | 0 <= i < n ensures Spare(i) in EligibleNodes(s) {
      assert s.nodes[i] == Spare(i);
    }
  }

  ghost function NamesBelow(n: nat): set<string> {
    set i | 0 <= i < n :: LongName(i)
  }

  lemma {:induction false} NamesCount(n: nat)
    ensures |NamesBelow(n)| == n
  {
    if n > 0 {
      NamesCount(n - 1);
      assert forall name :: name in NamesBelow(n - 1) ==> |name| < n - 1;
      assert |LongName(n - 1)| == n - 1;
      assert NamesBelow(n) == NamesBelow(n - 1) + {LongName(n - 1)};
    }
  }

  lemma CrowdNames(n: nat, story: Story)
    ensures |EligibleIds(Crowd(n, story))| == n
  {
    var s := Crowd(n, story);
    CrowdIsEligible(n, story);
    forall name ensures name in EligibleIds(s) <==> name in NamesBelow(n) {
      if name in EligibleIds(s) {
        var i :| 0 <= i < |EligibleNodes(s)| && EligibleNodes(s)[i].id == name;
        assert EligibleNodes(s)[i] in EligibleNodes(s);
      }
      if name in NamesBelow(n) {
        var i :| 0 <= i < n && name == LongName(i);
        assert Spare(i) in EligibleNodes(s);
        var j :| 0 <= j < |EligibleNodes(s)| && EligibleNodes(s)[j] == Spare(i);
      }
    }
    assert EligibleIds(s) == NamesBelow(n);
    NamesCount(n);
  }

  /** 129 healthy nodes: no advisory, whatever the lanes, the role and the handles. */
  lemma CrowdedFleetRefused(lanes: seq<Lane>, story: Story, role: Role, bounds: Bounds, observed: int, handles: Handles)
    ensures AdvisoryOf(EvidenceOf(lanes, Crowd(129, story), bounds, observed), role, handles).None?
  {
    CrowdNames(129, story);
    var e := EvidenceOf(lanes, Crowd(129, story), bounds, observed);
    DraftCounts(e, role, handles);
  }

  lemma DraftCounts(e: Evidence, role: Role, handles: Handles)
    ensures DraftOf(e, role, handles).Some? ==> DraftOf(e, role, handles).value.eligibleCount == |e.eligible|
  {
  }

  /** Work is split exactly for coding with another node to review, two eligible nodes and checkpoints. */
  lemma SplitExactly(e: Evidence, role: Role, handles: Handles)
    requires AdvisoryOf(e, role, handles).Some?
    ensures AdvisoryOf(e, role, handles).value.shape == Split <==>
            role == Code && SomeQualifies(e.Usables(), Code) && |e.eligible| >= 2 && e.checkpoint &&
            SomeQualifies(Others(e.Usables(), LeaderOf(PreferencesOf(e.Usables(), Code, e.Score(), handles).value)), Review)
  {
    if e.eligible != {} {
      ServedExactly(e.Usables(), role, e.Score(), handles);
      var primary := PreferencesOf(e.Usables(), role, e.Score(), handles).value;
      if role == Code && primary != [] {
        ServedExactly(Others(e.Usables(), LeaderOf(primary)), Review, e.Score(), handles);
      }
    }
  }

  /** The branch for a role that some usable lane is qualified for. */
  method AdviseServed(e: Evidence, role: Role, primary: seq<Preference>, handles: Handles) returns (r: Option<Advisory>)
    ensures r == ServedAdvice(e, role, primary, handles)
  {
    if role != Code {
      return Some(Advise(e, PreferredNode, Some(role), None, primary, LeaderOf(primary)));
    }
    var reviewers := Preferences(Others(e.Usables(), LeaderOf(primary)), Review, e.Score(), handles);
    if reviewers.None? {
      return None;
    }
    if reviewers.value.0 != [] && |e.eligible| >= 2 && e.checkpoint {
      return Some(Advise(e, Split, Some(Code), None, primary + reviewers.value.0, None));
    }
    return Some(Advise(e, PreferredNode, Some(Code), None, primary, LeaderOf(primary)));
  }

  /** The branch for a role that no usable lane is qualified for. */
  method AdviseUnserved(e: Evidence, role: Role, handles: Handles) returns (r: Option<Advisory>)
    ensures r == UnservedAdvice(e, role, handles)
  {
    var fallback: Option<Role> := None;
    if role == Code {
      var scouts := Preferences(e.Usables(), Scout, e.Score(), handles);
      if scouts.None? {
        return None;
      }
      if scouts.value.0 != [] {
        fallback := Some(Scout);
      }
    }
    return Some(Deferral(e, fallback));
  }

  function EvidenceOf(lanes: seq<Lane>, s: State, bounds: Bounds, observed: int): Evidence {
    Evidence(lanes, observed, bounds, EligibleIds(s), s.checkpoint)
  }

  /** What the advisory is drawn from does not depend on the order in which the nodes are listed. */
  lemma EvidenceRelisted(lanes: seq<Lane>, s: State, nodes: seq<Node>, bounds: Bounds, observed: int)
    requires multiset(nodes) == multiset(s.nodes)
    ensures EvidenceOf(lanes, s.(nodes := nodes), bounds, observed) == EvidenceOf(lanes, s, bounds, observed)
  {
    var t := s.(nodes := nodes);
    forall n: Node ensures n in EligibleNodes(t) <==> n in EligibleNodes(s) {
      assert n in nodes <==> n in multiset(nodes);
      assert n in s.nodes <==> n in multiset(s.nodes);
    }
    forall id: string ensures id in EligibleIds(t) <==> id in EligibleIds(s) {
      if id in EligibleIds(t) {
        var i :| 0 <= i < |EligibleNodes(t)| && EligibleNodes(t)[i].id == id;
        assert EligibleNodes(t)[i] in EligibleNodes(s);
      }
      if id in EligibleIds(s) {
        var i :| 0 <= i < |EligibleNodes(s)| && EligibleNodes(s)[i].id == id;
        assert EligibleNodes(s)[i] in EligibleNodes(t);
      }
    }
    assert EligibleIds(t) == EligibleIds(s);
  }

  /** Listing the nodes in another order changes neither the advisory nor whether one is refused. */
  lemma AdvisoryRelisted(lanes: seq<Lane>, s: State, nodes: seq<Node>, role: Role, bounds: Bounds, observed: int, handles: Handles)
    requires multiset(nodes) == multiset(s.nodes)
    ensures AdvisoryOf(EvidenceOf(lanes, s.(nodes := nodes), bounds, observed), role, handles) ==
            AdvisoryOf(EvidenceOf(lanes, s, bounds, observed), role, handles)
  {
    EvidenceRelisted(lanes, s, nodes, bounds, observed);
  }

  /** `build_fleet_benchmark_advisory`. */
  method BuildAdvisory(lanes: seq<Lane>, s: State, role: Role, bounds: Bounds, observed: int, handles: Handles)
    returns (r: Option<Advisory>)
    ensures r == AdvisoryOf(EvidenceOf(lanes, s, bounds, observed), role, handles)
    ensures r.Some? ==> Bounded(r.value, EvidenceOf(lanes, s, bounds, observed), role)
  {
    var e := EvidenceOf(lanes, s, bounds, observed);
    AdvisoryIsBounded(e, role, handles);
    var eligible := FindEligible(s);
    if eligible == [] {
      r := Construct(Deferral(e, None));
      return;
    }
    assert eligible[0].id in e.eligible;
    var primary := Preferences(e.Usables(), role, e.Score(), handles);
    if primary.None? {
      return None;
    }
    var draft;
    if primary.value.0 == [] {
      draft := AdviseUnserved(e, role, handles);
    } else {
      draft := AdviseServed(e, role, primary.value.0, handles);
    }
    if draft.None? {
      return None;
    }
    r := Construct(draft.value);
  }

  /** The advisory's constructor: a field out of its bounds raises. */
  method Construct(a: Advisory) returns (r: Option<Advisory>)
    ensures r == if FieldsFit(a) then Some(a) else None
  {
    var fits := a.eligibleCount <= MAX_LANES && a.stale <= MAX_LANES && a.futureDated <= MAX_LANES && a.lowConfidence <= MAX_LANES &&
      a.healthStale <= MAX_LANES && a.ineligible <= MAX_LANES && |a.preferred| <= 2 * MAX_PRIORITY;
    for k := 0 to |a.preferred|
      invariant fits ==> forall j :: 0 <= j < k ==> Portion(a.preferred[j].score)
      invariant !fits ==> !FieldsFit(a)
      invariant fits ==> FieldsFit(a.(preferred := [])) && |a.preferred| <= 2 * MAX_PRIORITY
    {
      fits := fits && Portion(a.preferred[k].score);
    }
    return if fits then Some(a) else None;
  }
}
