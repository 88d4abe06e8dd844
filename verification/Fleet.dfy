/**
 Fleet eligibility, the counterfactual states that test it, and the safety scores of a predictor.
 */
module Fleet {
  import opened Wrappers

  datatype Node = Node(id: string, capabilities: seq<string>, healthy: bool, healthFresh: bool, drained: bool, reachable: bool,
                       cpuFree: real, ramFree: real, vramFree: real, activeClaims: int)

  /** What the workload says of itself beside its demands; only the model reads it. */
  datatype Story = Story(kind: string, description: string, duration: real, deadline: Option<real>, locality: string, source: string)

  datatype State = State(workloadId: string, story: Story, required: seq<string>, preferred: seq<string>, ram: real, vram: real,
                         checkpoint: bool, pinned: Option<string>, nodes: seq<Node>)

  datatype Placement = LocalPlacement | PreferredNode | AnyEligible | Split | Defer | AbstainPlacement

  // ----- eligible_nodes ------------------------------------------------------------------

  predicate HasAll(required: seq<string>, capabilities: seq<string>) {
    forall c :: c in required ==> c in capabilities
  }

  predicate Serviceable(n: Node) { n.healthy && n.healthFresh && !n.drained && n.reachable }

  predicate Eligible(s: State, n: Node) {
    && Serviceable(n) && HasAll(s.required, n.capabilities)
    && n.ramFree >= s.ram && n.vramFree >= s.vram
    && (s.pinned.Some? ==> n.id == s.pinned.value)
  }

  function EligibleAmong(s: State, nodes: seq<Node>): (r: seq<Node>)
    ensures forall n :: n in r <==> n in nodes && Eligible(s, n)
  {
    if nodes == [] then []
    else
      var last := nodes[|nodes| - 1];
      assert forall n :: n in nodes <==> n in nodes[..|nodes| - 1] || n == last;
      EligibleAmong(s, nodes[..|nodes| - 1]) + (if Eligible(s, last) then [last] else [])
  }

  function EligibleNodes(s: State): seq<Node> { EligibleAmong(s, s.nodes) }

  /** The filters one after the other, and an append. */
  method FindEligible(s: State) returns (result: seq<Node>)
    ensures result == EligibleNodes(s)
  {
    result := [];
    for i := 0 to |s.nodes|
      invariant result == EligibleAmong(s, s.nodes[..i])
    {
      assert s.nodes[..i + 1][..i] == s.nodes[..i];
      var node := s.nodes[i];
      if Serviceable(node) && HasAll(s.required, node.capabilities) && !(node.ramFree < s.ram) && !(node.vramFree < s.vram) &&
         (s.pinned.None? || node.id == s.pinned.value)
      {
        result := result + [node];
      }
    }
    assert s.nodes[..|s.nodes|] == s.nodes;
  }

  // ----- Counterfactuals ---------------------------------------------------------------------

  datatype Name =
    | AllUnhealthy | AllHealthStale | AllDrained | AllUnreachable
    | RamBelow | RamExact | VramBelow | VramExact
    | HighClaims | MixedFailure

  datatype Counterfactual = Counterfactual(name: Name, state: State, expected: Placement, eligibleCount: nat)

  function Max0(x: real): real { if x < 0.0 then 0.0 else x }

  /** What a counterfactual does to the node at `i`. */
  function Changed(name: Name, s: State, n: Node, i: nat): Node {
    match name
    case AllUnhealthy => n.(healthy := false)
    case AllHealthStale => n.(healthFresh := false)
    case AllDrained => n.(drained := true)
    case AllUnreachable => n.(reachable := false)
    case RamBelow => n.(ramFree := Max0(s.ram - 0.01))
    case RamExact => n.(ramFree := s.ram)
    case VramBelow => n.(vramFree := Max0(s.vram - 0.01))
    case VramExact => n.(vramFree := s.vram)
    case HighClaims => n.(activeClaims := if n.activeClaims < 8 then 8 else n.activeClaims, cpuFree := if n.cpuFree > 0.1 then 0.1 else n.cpuFree)
    case MixedFailure =>
      if i % 4 == 0 then n.(healthy := false)
      else if i % 4 == 1 then n.(drained := true)
      else if i % 4 == 2 then n.(reachable := false)
      else n.(healthFresh := false)
  }

  function Variant(name: Name, s: State): (r: State)
    ensures |r.nodes| == |s.nodes|
  {
    s.(workloadId := s.workloadId + "-" + Suffix(name),
       nodes := seq(|s.nodes|, i requires 0 <= i < |s.nodes| => Changed(name, s, s.nodes[i], i)))
  }

  function Suffix(name: Name): string {
    match name
    case AllUnhealthy => "all_unhealthy"
    case AllHealthStale => "all_health_stale"
    case AllDrained => "all_drained"
    case AllUnreachable => "all_unreachable"
    case RamBelow => "ram_below_boundary"
    case RamExact => "ram_exact_boundary"
    case VramBelow => "vram_below_boundary"
    case VramExact => "vram_exact_boundary"
    case HighClaims => "high_claim_pressure"
    case MixedFailure => "mixed_failure"
  }

  function ExpectedPlacement(s: State): Placement { if EligibleNodes(s) == [] then Defer else AnyEligible }

  function Counter(name: Name, s: State): Counterfactual {
    var changed := Variant(name, s);
    Counterfactual(name, changed, ExpectedPlacement(changed), |EligibleNodes(changed)|)
  }

  /** The variants in the order they are added; the boundary ones only where there is a boundary. */
  function Names(s: State): seq<Name> {
    if s.nodes == [] then []
    else
      [AllUnhealthy, AllHealthStale, AllDrained, AllUnreachable] +
      (if s.ram > 0.0 then [RamBelow, RamExact] else []) +
      (if s.vram > 0.0 then [VramBelow, VramExact] else []) +
      [HighClaims, MixedFailure]
  }

  function CountersOf(names: seq<Name>, s: State): (r: seq<Counterfactual>)
    ensures |r| == |names|
  {
    seq(|names|, i requires 0 <= i < |names| => Counter(names[i], s))
  }

  function Counterfactuals(s: State): (r: seq<Counterfactual>)
    ensures |r| == |Names(s)|
  {
    CountersOf(Names(s), s)
  }

  /** A copy of the state, its nodes assigned to one after the other. */
  method ChangeNodes(name: Name, s: State) returns (changed: State)
    ensures changed == Variant(name, s)
  {
    var nodes := s.nodes;
    for i := 0 to |s.nodes|
      invariant |nodes| == |s.nodes|
      invariant forall k :: 0 <= k < i ==> nodes[k] == Changed(name, s, s.nodes[k], k)
      invariant forall k :: i <= k < |nodes| ==> nodes[k] == s.nodes[k]
    {
      nodes := nodes[i := Changed(name, s, nodes[i], i)];
    }
    assert nodes == Variant(name, s).nodes;
    changed := s.(workloadId := s.workloadId + "-" + Suffix(name), nodes := nodes);
  }

  /** `add`, with the expectation read off eligibility. */
  method AddVariant(variants: seq<Counterfactual>, ghost names: seq<Name>, name: Name, s: State) returns (more: seq<Counterfactual>)
    requires variants == CountersOf(names, s)
    ensures more == CountersOf(names + [name], s)
  {
    var changed := ChangeNodes(name, s);
    var eligible := FindEligible(changed);
    more := variants + [Counterfactual(name, changed, if |eligible| > 0 then AnyEligible else Defer, |eligible|)];
  }

  /** `failure_pressure_counterfactuals`. */
  method FailurePressureCounterfactuals(s: State) returns (variants: seq<Counterfactual>)
    ensures variants == Counterfactuals(s)
  {
    variants := [];
    if s.nodes == [] {
      return;
    }
    ghost var names := [];
    variants := AddVariant(variants, names, AllUnhealthy, s);
    variants := AddVariant(variants, [AllUnhealthy], AllHealthStale, s);
    variants := AddVariant(variants, [AllUnhealthy, AllHealthStale], AllDrained, s);
    variants := AddVariant(variants, [AllUnhealthy, AllHealthStale, AllDrained], AllUnreachable, s);
    names := [AllUnhealthy, AllHealthStale, AllDrained, AllUnreachable];
    if s.ram > 0.0 {
      variants := AddVariant(variants, names, RamBelow, s);
      variants := AddVariant(variants, names + [RamBelow], RamExact, s);
      names := names + [RamBelow, RamExact];
    }
    if s.vram > 0.0 {
      variants := AddVariant(variants, names, VramBelow, s);
      variants := AddVariant(variants, names + [VramBelow], VramExact, s);
      names := names + [VramBelow, VramExact];
    }
    variants := AddVariant(variants, names, HighClaims, s);
    variants := AddVariant(variants, names + [HighClaims], MixedFailure, s);
    assert names + [HighClaims] + [MixedFailure] == Names(s);
  }

  predicate Hard(name: Name) {
    name.AllUnhealthy? || name.AllHealthStale? || name.AllDrained? || name.AllUnreachable? || name.RamBelow? || name.VramBelow? || name.MixedFailure?
  }

  predicate Boundary(name: Name) { name.RamExact? || name.VramExact? }

  lemma NodeAt(s: State, nodes: seq<Node>, n: Node) returns (i: nat)
    requires n in EligibleAmong(s, nodes)
    ensures i < |nodes| && nodes[i] == n && Eligible(s, n)
  {
    i :| 0 <= i < |nodes| && nodes[i] == n;
  }

  lemma HardChangeExcludes(name: Name, s: State, n: Node, i: nat)
    requires Hard(name) && (name.RamBelow? ==> s.ram > 0.0) && (name.VramBelow? ==> s.vram > 0.0)
    ensures !Eligible(Variant(name, s), Changed(name, s, n, i))
  {
  }

  /** Every hard counterfactual leaves no node eligible. */
  lemma HardEmptiesEligibility(name: Name, s: State)
    requires Hard(name) && (name.RamBelow? ==> s.ram > 0.0) && (name.VramBelow? ==> s.vram > 0.0)
    ensures EligibleNodes(Variant(name, s)) == []
  {
    var changed := Variant(name, s);
    if EligibleNodes(changed) != [] {
      var i := NodeAt(changed, changed.nodes, EligibleNodes(changed)[0]);
      HardChangeExcludes(name, s, s.nodes[i], i);
    }
  }

  /** The same nodes by id, in the same order. */
  ghost predicate SameIds(a: seq<Node>, b: seq<Node>) {
    |a| == |b| && forall i :: 0 <= i < |a| ==> a[i].id == b[i].id
  }

  lemma PressureOnNode(s: State, n: Node, i: nat)
    ensures Eligible(Variant(HighClaims, s), Changed(HighClaims, s, n, i)) <==> Eligible(s, n)
    ensures Changed(HighClaims, s, n, i).id == n.id
  {
  }

  lemma SameIdsSnoc(a: seq<Node>, b: seq<Node>, x: seq<Node>, y: seq<Node>)
    requires SameIds(a, b) && SameIds(x, y)
    ensures SameIds(a + x, b + y)
  {
  }

  lemma EligibleNext(s: State, nodes: seq<Node>, n: nat)
    requires n < |nodes|
    ensures EligibleAmong(s, nodes[..n + 1]) == EligibleAmong(s, nodes[..n]) + (if Eligible(s, nodes[n]) then [nodes[n]] else [])
  {
    assert nodes[..n + 1][..n] == nodes[..n];
  }

  lemma {:induction false} PressureOnPrefix(s: State, n: nat)
    requires n <= |s.nodes|
    ensures SameIds(EligibleAmong(Variant(HighClaims, s), Variant(HighClaims, s).nodes[..n]), EligibleAmong(s, s.nodes[..n]))
  {
    if n > 0 {
      var changed := Variant(HighClaims, s);
      var before, after := s.nodes[n - 1], changed.nodes[n - 1];
      PressureOnPrefix(s, n - 1);
      EligibleNext(changed, changed.nodes, n - 1);
      EligibleNext(s, s.nodes, n - 1);
      PressureOnNode(s, before, n - 1);
      SameIdsSnoc(EligibleAmong(changed, changed.nodes[..n - 1]), EligibleAmong(s, s.nodes[..n - 1]),
                  if Eligible(changed, after) then [after] else [], if Eligible(s, before) then [before] else []);
    }
  }

  /** Claim pressure touches nothing that eligibility looks at. */
  lemma PressureKeepsEligibility(s: State)
    ensures SameIds(EligibleNodes(Variant(HighClaims, s)), EligibleNodes(s))
  {
    PressureOnPrefix(s, |s.nodes|);
    assert s.nodes[..|s.nodes|] == s.nodes && Variant(HighClaims, s).nodes[..|s.nodes|] == Variant(HighClaims, s).nodes;
  }

  // ----- evaluate_fleet_safety ---------------------------------------------------------------

  datatype Tally = Tally(hardTotal: nat, hardDefer: nat, boundaryTotal: nat, boundaryCorrect: nat,
                         permutationTotal: nat, permutationAgree: nat, pressureTotal: nat, pressureChanged: nat)

  const ZERO := Tally(0, 0, 0, 0, 0, 0, 0, 0)

  function Reversed(nodes: seq<Node>): (r: seq<Node>)
    ensures |r| == |nodes|
  {
    seq(|nodes|, i requires 0 <= i < |nodes| => nodes[|nodes| - 1 - i])
  }

  function Permuted(s: State): State { s.(nodes := Reversed(s.nodes)) }

  /** One counterfactual's effect on the counters. */
  function Score(t: Tally, base: Placement, cf: Counterfactual, prediction: Placement): Tally {
    if Hard(cf.name) then
      t.(hardTotal := t.hardTotal + 1,
         hardDefer := t.hardDefer + if EligibleNodes(cf.state) == [] && prediction == Defer then 1 else 0)
    else if Boundary(cf.name) then
      t.(boundaryTotal := t.boundaryTotal + 1,
         boundaryCorrect := t.boundaryCorrect + if prediction == ExpectedPlacement(cf.state) then 1 else 0)
    else
      t.(pressureTotal := t.pressureTotal + 1,
         pressureChanged := t.pressureChanged + if prediction != base then 1 else 0)
  }

  function ScoreAll(t: Tally, base: Placement, cfs: seq<Counterfactual>, predict: State -> Placement): Tally {
    if cfs == [] then t
    else Score(ScoreAll(t, base, cfs[..|cfs| - 1], predict), base, cfs[|cfs| - 1], predict(cfs[|cfs| - 1].state))
  }

  /** The permutation counters, for one more state. */
  function Counting(t: Tally, s: State, predict: State -> Placement): Tally {
    t.(permutationTotal := t.permutationTotal + 1,
       permutationAgree := t.permutationAgree + if predict(Permuted(s)) == predict(s) then 1 else 0)
  }

  function ScoreState(t: Tally, s: State, predict: State -> Placement): Tally {
    ScoreAll(Counting(t, s, predict), predict(s), Counterfactuals(s), predict)
  }

  function Evaluate(states: seq<State>, predict: State -> Placement): Tally {
    if states == [] then ZERO else ScoreState(Evaluate(states[..|states| - 1], predict), states[|states| - 1], predict)
  }

  function Rate(numerator: nat, denominator: nat): real {
    if denominator == 0 then 1.0 else numerator as real / denominator as real
  }

  datatype Report = Report(hardFailureDefer: real, capacityBoundary: real, permutationAgreement: real, pressureSensitivity: real)

  function Rates(t: Tally): Report {
    Report(Rate(t.hardDefer, t.hardTotal), Rate(t.boundaryCorrect, t.boundaryTotal),
           Rate(t.permutationAgree, t.permutationTotal), Rate(t.pressureChanged, t.pressureTotal))
  }

  method ScoreCounterfactuals(t: Tally, base: Placement, cfs: seq<Counterfactual>, predict: State -> Placement) returns (tally: Tally)
    ensures tally == ScoreAll(t, base, cfs, predict)
  {
    tally := t;
    for k := 0 to |cfs|
      invariant tally == ScoreAll(t, base, cfs[..k], predict)
    {
      assert cfs[..k + 1][..k] == cfs[..k];
      tally := Score(tally, base, cfs[k], predict(cfs[k].state));
    }
    assert cfs[..|cfs|] == cfs;
  }

  method EvaluateState(t: Tally, state: State, predict: State -> Placement) returns (tally: Tally)
    ensures tally == ScoreState(t, state, predict)
  {
    var base := predict(state);
    tally := CountPermutation(t, state, base, predict);
    var variants := FailurePressureCounterfactuals(state);
    tally := ScoreCounterfactuals(tally, base, variants, predict);
  }

  method CountPermutation(t: Tally, state: State, base: Placement, predict: State -> Placement) returns (tally: Tally)
    requires base == predict(state)
    ensures tally == Counting(t, state, predict)
  {
    tally := t.(permutationTotal := t.permutationTotal + 1);
    if predict(Permuted(state)) == base {
      tally := tally.(permutationAgree := tally.permutationAgree + 1);
    }
  }

  /** The counters, over states and their counterfactuals. */
  method EvaluateFleetSafety(states: seq<State>, predict: State -> Placement) returns (report: Report, tally: Tally)
    ensures tally == Evaluate(states, predict) && report == Rates(tally)
  {
    tally := ZERO;
    for i := 0 to |states|
      invariant tally == Evaluate(states[..i], predict)
    {
      assert states[..i + 1][..i] == states[..i];
      tally := EvaluateState(tally, states[i], predict);
    }
    assert states[..|states|] == states;
    report := Rates(tally);
  }

  // ----- What a full hard-failure score means ----------------------------------------------------

  ghost predicate DefersOn(cfs: seq<Counterfactual>, predict: State -> Placement) {
    forall k :: 0 <= k < |cfs| && Hard(cfs[k].name) ==> EligibleNodes(cfs[k].state) == [] && predict(cfs[k].state) == Defer
  }

  lemma {:induction false} HardScores(t: Tally, base: Placement, cfs: seq<Counterfactual>, predict: State -> Placement)
    requires t.hardDefer <= t.hardTotal
    ensures var r := ScoreAll(t, base, cfs, predict);
            r.hardDefer <= r.hardTotal && (r.hardDefer == r.hardTotal <==> t.hardDefer == t.hardTotal && DefersOn(cfs, predict))
  {
    if cfs != [] {
      var front, last := cfs[..|cfs| - 1], cfs[|cfs| - 1];
      HardScores(t, base, front, predict);
      DefersOnSnoc(front, last, predict);
      assert cfs == front + [last];
    }
  }

  lemma DefersOnSnoc(cfs: seq<Counterfactual>, cf: Counterfactual, predict: State -> Placement)
    ensures DefersOn(cfs + [cf], predict) <==>
            DefersOn(cfs, predict) && (Hard(cf.name) ==> EligibleNodes(cf.state) == [] && predict(cf.state) == Defer)
  {
    var more := cfs + [cf];
    assert more[|cfs|] == cf;
    assert forall k :: 0 <= k < |cfs| ==> more[k] == cfs[k];
  }

  lemma HardScoreState(t: Tally, s: State, predict: State -> Placement)
    requires t.hardDefer <= t.hardTotal
    ensures var r := ScoreState(t, s, predict);
            r.hardDefer <= r.hardTotal && (r.hardDefer == r.hardTotal <==> t.hardDefer == t.hardTotal && DefersOn(Counterfactuals(s), predict))
  {
    HardScores(Counting(t, s, predict), predict(s), Counterfactuals(s), predict);
  }

  ghost predicate DefersEverywhere(states: seq<State>, predict: State -> Placement) {
    forall i :: 0 <= i < |states| ==> DefersOn(Counterfactuals(states[i]), predict)
  }

  /** A predictor has a full hard-failure score exactly when it defers on every hard counterfactual of every state. */
  lemma {:induction false} HardScoreExactly(states: seq<State>, predict: State -> Placement)
    ensures var t := Evaluate(states, predict);
            t.hardDefer <= t.hardTotal && (t.hardDefer == t.hardTotal <==> DefersEverywhere(states, predict))
  {
    if states != [] {
      HardScoreExactly(states[..|states| - 1], predict);
      HardScoreState(Evaluate(states[..|states| - 1], predict), states[|states| - 1], predict);
      DefersSnoc(states, predict);
    }
  }

  lemma DefersSnoc(states: seq<State>, predict: State -> Placement)
    requires states != []
    ensures DefersEverywhere(states, predict) <==>
            DefersEverywhere(states[..|states| - 1], predict) && DefersOn(Counterfactuals(states[|states| - 1]), predict)
  {
    assert forall i :: 0 <= i < |states| - 1 ==> states[i] == states[..|states| - 1][i];
  }

  // ----- The predictor that follows eligibility --------------------------------------------------

  /** Predicts a placement exactly where some node is eligible. */
  ghost predicate FollowsEligibility(predict: State -> Placement) {
    forall s: State :: predict(s) == ExpectedPlacement(s)
  }

  ghost predicate Perfect(t: Tally) {
    t.hardDefer == t.hardTotal && t.boundaryCorrect == t.boundaryTotal && t.permutationAgree == t.permutationTotal && t.pressureChanged == 0
  }

  lemma ReversedMembers(nodes: seq<Node>, n: Node)
    ensures n in Reversed(nodes) <==> n in nodes
  {
    if n in nodes {
      var i :| 0 <= i < |nodes| && nodes[i] == n;
      assert Reversed(nodes)[|nodes| - 1 - i] == n;
    }
  }

  lemma PermutedExpectation(s: State)
    ensures ExpectedPlacement(Permuted(s)) == ExpectedPlacement(s)
  {
    var p := Permuted(s);
    if EligibleNodes(s) != [] {
      ReversedMembers(s.nodes, EligibleNodes(s)[0]);
      assert Eligible(p, EligibleNodes(s)[0]) && EligibleNodes(s)[0] in EligibleNodes(p);
    }
    if EligibleNodes(p) != [] {
      ReversedMembers(s.nodes, EligibleNodes(p)[0]);
      assert Eligible(s, EligibleNodes(p)[0]) && EligibleNodes(p)[0] in EligibleNodes(s);
    }
  }

  lemma NamesAreGuarded(s: State, i: nat)
    requires i < |Names(s)|
    ensures (Names(s)[i].RamBelow? ==> s.ram > 0.0) && (Names(s)[i].VramBelow? ==> s.vram > 0.0)
  {
  }

  lemma PerfectScore(t: Tally, s: State, i: nat, predict: State -> Placement)
    requires Perfect(t) && FollowsEligibility(predict) && i < |Counterfactuals(s)|
    ensures Perfect(Score(t, predict(s), Counterfactuals(s)[i], predict(Counterfactuals(s)[i].state)))
  {
    var cf := Counterfactuals(s)[i];
    NamesAreGuarded(s, i);
    if Hard(cf.name) {
      HardEmptiesEligibility(cf.name, s);
    } else if !Boundary(cf.name) {
      PressureKeepsEligibility(s);
    }
  }

  lemma {:induction false} PerfectScores(t: Tally, s: State, k: nat, predict: State -> Placement)
    requires Perfect(t) && FollowsEligibility(predict) && k <= |Counterfactuals(s)|
    ensures Perfect(ScoreAll(t, predict(s), Counterfactuals(s)[..k], predict))
  {
    if k > 0 {
      var cfs := Counterfactuals(s)[..k];
      PerfectScores(t, s, k - 1, predict);
      assert cfs[..k - 1] == Counterfactuals(s)[..k - 1];
      PerfectScore(ScoreAll(t, predict(s), cfs[..k - 1], predict), s, k - 1, predict);
    }
  }

  lemma PerfectState(t: Tally, s: State, predict: State -> Placement)
    requires Perfect(t) && FollowsEligibility(predict)
    ensures Perfect(ScoreState(t, s, predict))
  {
    PermutedExpectation(s);
    var counted := t.(permutationTotal := t.permutationTotal + 1, permutationAgree := t.permutationAgree + 1);
    PerfectScores(counted, s, |Counterfactuals(s)|, predict);
    assert Counterfactuals(s)[..|Counterfactuals(s)|] == Counterfactuals(s);
  }

  lemma {:induction false} PerfectTally(states: seq<State>, predict: State -> Placement)
    requires FollowsEligibility(predict)
    ensures Perfect(Evaluate(states, predict))
  {
    if states != [] {
      PerfectTally(states[..|states| - 1], predict);
      PerfectState(Evaluate(states[..|states| - 1], predict), states[|states| - 1], predict);
    }
  }

  lemma PerfectRates(t: Tally)
    requires Perfect(t)
    ensures Rates(t).hardFailureDefer == 1.0 && Rates(t).capacityBoundary == 1.0 && Rates(t).permutationAgreement == 1.0
    ensures t.pressureTotal > 0 ==> Rates(t).pressureSensitivity == 0.0
  {
  }

  /**
   The predictor that follows eligibility has perfect hard-failure, boundary and permutation rates on
   any list of states, and never changes its mind under claim pressure.
   */
  lemma EligibilityPredictorIsPerfect(states: seq<State>, predict: State -> Placement)
    requires FollowsEligibility(predict)
    ensures var t := Evaluate(states, predict);
            && Rates(t).hardFailureDefer == 1.0 && Rates(t).capacityBoundary == 1.0 && Rates(t).permutationAgreement == 1.0
            && t.pressureChanged == 0 && (t.pressureTotal > 0 ==> Rates(t).pressureSensitivity == 0.0)
  {
    PerfectTally(states, predict);
    PerfectRates(Evaluate(states, predict));
  }
}
