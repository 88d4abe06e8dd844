/**
 What the counters of the fleet evaluation mean for any predictor, and what each counterfactual changes.
 */
module FleetCounters {
  import opened Wrappers
  import opened Fleet

  // ----- What the other counters mean ------------------------------------------------------------

  /** What a boundary counterfactual asks: place exactly if some node is eligible. */
  ghost predicate BoundaryRight(cf: Counterfactual, predict: State -> Placement) {
    Boundary(cf.name) ==> predict(cf.state) == if exists n :: n in cf.state.nodes && Eligible(cf.state, n) then AnyEligible else Defer
  }

  /** What claim pressure asks: the same prediction as without it. */
  predicate Unmoved(cf: Counterfactual, base: Placement, predict: State -> Placement) {
    Hard(cf.name) || Boundary(cf.name) || predict(cf.state) == base
  }

  ghost predicate AllRight(cfs: seq<Counterfactual>, predict: State -> Placement) {
    forall k :: 0 <= k < |cfs| ==> BoundaryRight(cfs[k], predict)
  }

  ghost predicate AllUnmoved(cfs: seq<Counterfactual>, base: Placement, predict: State -> Placement) {
    forall k :: 0 <= k < |cfs| ==> Unmoved(cfs[k], base, predict)
  }

  lemma ExpectedMeans(s: State)
    ensures ExpectedPlacement(s) == if exists n :: n in s.nodes && Eligible(s, n) then AnyEligible else Defer
  {
    if EligibleNodes(s) != [] {
      assert EligibleNodes(s)[0] in EligibleNodes(s);
    }
    if n :| n in s.nodes && Eligible(s, n) {
      assert n in EligibleNodes(s);
    }
  }

  /** The counters of a tally that are full, and those that are empty. */
  predicate BoundaryFull(t: Tally) { t.boundaryCorrect == t.boundaryTotal }

  predicate Counted(t: Tally) {
    t.boundaryCorrect <= t.boundaryTotal && t.permutationAgree <= t.permutationTotal && t.pressureChanged <= t.pressureTotal
  }

  lemma ScoreMeans(t: Tally, base: Placement, cf: Counterfactual, predict: State -> Placement)
    requires Counted(t)
    ensures var r := Score(t, base, cf, predict(cf.state));
            && Counted(r) && r.permutationAgree == t.permutationAgree && r.permutationTotal == t.permutationTotal
            && (BoundaryFull(r) <==> BoundaryFull(t) && BoundaryRight(cf, predict))
            && (r.pressureChanged == 0 <==> t.pressureChanged == 0 && Unmoved(cf, base, predict))
  {
    ExpectedMeans(cf.state);
  }

  lemma {:induction false} ScoresMean(t: Tally, base: Placement, cfs: seq<Counterfactual>, predict: State -> Placement)
    requires Counted(t)
    ensures var r := ScoreAll(t, base, cfs, predict);
            && Counted(r) && r.permutationAgree == t.permutationAgree && r.permutationTotal == t.permutationTotal
            && (BoundaryFull(r) <==> BoundaryFull(t) && AllRight(cfs, predict))
            && (r.pressureChanged == 0 <==> t.pressureChanged == 0 && AllUnmoved(cfs, base, predict))
  {
    if cfs != [] {
      var front, last := cfs[..|cfs| - 1], cfs[|cfs| - 1];
      ScoresMean(t, base, front, predict);
      ScoreMeans(ScoreAll(t, base, front, predict), base, last, predict);
      SplitLast(front, last, base, predict);
      assert cfs == front + [last];
    }
  }

  lemma SplitLast(front: seq<Counterfactual>, last: Counterfactual, base: Placement, predict: State -> Placement)
    ensures AllRight(front + [last], predict) <==> AllRight(front, predict) && BoundaryRight(last, predict)
    ensures AllUnmoved(front + [last], base, predict) <==> AllUnmoved(front, base, predict) && Unmoved(last, base, predict)
  {
    var more := front + [last];
    assert more[|front|] == last;
    assert forall k :: 0 <= k < |front| ==> more[k] == front[k];
  }

  /** One state passes: its boundary predictions are right, claim pressure does not move it, nor does listing the nodes backwards. */
  ghost predicate RightOn(s: State, predict: State -> Placement) { AllRight(Counterfactuals(s), predict) }

  ghost predicate SteadyOn(s: State, predict: State -> Placement) { AllUnmoved(Counterfactuals(s), predict(s), predict) }

  /** The prediction on the nodes listed backwards is the same. */
  ghost predicate AgreesOn(s: State, predict: State -> Placement) {
    forall backwards :: IsReverse(s.nodes, backwards) ==> predict(s.(nodes := backwards)) == predict(s)
  }

  ghost predicate IsReverse(a: seq<Node>, b: seq<Node>) { |a| == |b| && forall i :: 0 <= i < |a| ==> b[i] == a[|a| - 1 - i] }

  lemma OnlyReverse(a: seq<Node>, b: seq<Node>)
    ensures IsReverse(a, b) <==> b == Reversed(a)
  {
  }

  lemma AgreesMeans(s: State, predict: State -> Placement)
    ensures predict(Permuted(s)) == predict(s) <==> AgreesOn(s, predict)
  {
    OnlyReverse(s.nodes, Reversed(s.nodes));
    forall backwards | IsReverse(s.nodes, backwards) ensures backwards == Reversed(s.nodes) {
      OnlyReverse(s.nodes, backwards);
    }
  }

  /** A tally whose boundary count is full, whose pressure count is zero and whose agreement count is full exactly as said. */
  predicate Says(t: Tally, right: bool, steady: bool, agrees: bool) {
    && Counted(t) && (t.boundaryCorrect == t.boundaryTotal <==> right) && (t.pressureChanged == 0 <==> steady)
    && (t.permutationAgree == t.permutationTotal <==> agrees)
  }

  lemma StateMeans(t: Tally, s: State, predict: State -> Placement, right: bool, steady: bool, agrees: bool)
    requires Says(t, right, steady, agrees)
    ensures Says(ScoreState(t, s, predict), right && RightOn(s, predict), steady && SteadyOn(s, predict), agrees && AgreesOn(s, predict))
  {
    AgreesMeans(s, predict);
    ScoresMean(Counting(t, s, predict), predict(s), Counterfactuals(s), predict);
  }

  /** Something holds of every state. */
  ghost predicate HoldsOn(states: seq<State>, holds: State -> bool) {
    states == [] || (HoldsOn(states[..|states| - 1], holds) && holds(states[|states| - 1]))
  }

  lemma {:induction false} HoldsOnMeans(states: seq<State>, holds: State -> bool)
    ensures HoldsOn(states, holds) <==> forall i :: 0 <= i < |states| ==> holds(states[i])
  {
    if states != [] {
      var front := states[..|states| - 1];
      HoldsOnMeans(front, holds);
      assert forall i :: 0 <= i < |front| ==> front[i] == states[i];
    }
  }

  ghost function Right(predict: State -> Placement): State -> bool { (s: State) => RightOn(s, predict) }

  ghost function Steady(predict: State -> Placement): State -> bool { (s: State) => SteadyOn(s, predict) }

  ghost function Agrees(predict: State -> Placement): State -> bool { (s: State) => AgreesOn(s, predict) }

  /**
   For any predictor: the boundary count is full exactly when every boundary prediction follows eligibility, the
   pressure count is zero exactly when claim pressure never changes one, and the agreement count is full exactly when
   no prediction changes with the nodes listed backwards.
   */
  lemma {:induction false} CountersExactly(states: seq<State>, predict: State -> Placement)
    ensures Says(Evaluate(states, predict), HoldsOn(states, Right(predict)), HoldsOn(states, Steady(predict)),
                 HoldsOn(states, Agrees(predict)))
  {
    if states != [] {
      var front, last := states[..|states| - 1], states[|states| - 1];
      CountersExactly(front, predict);
      StateMeans(Evaluate(front, predict), last, predict,
                 HoldsOn(front, Right(predict)), HoldsOn(front, Steady(predict)), HoldsOn(front, Agrees(predict)));
    }
  }

  /** How many counterfactuals of a kind there are. */
  function CountOf(cfs: seq<Counterfactual>, kind: Counterfactual -> bool): nat {
    if cfs == [] then 0 else CountOf(cfs[..|cfs| - 1], kind) + if kind(cfs[|cfs| - 1]) then 1 else 0
  }

  function CountAll(states: seq<State>, kind: Counterfactual -> bool): nat {
    if states == [] then 0 else CountAll(states[..|states| - 1], kind) + CountOf(Counterfactuals(states[|states| - 1]), kind)
  }

  function IsHard(): Counterfactual -> bool { (cf: Counterfactual) => Hard(cf.name) }

  function IsBoundary(): Counterfactual -> bool { (cf: Counterfactual) => Boundary(cf.name) }

  function IsPressure(): Counterfactual -> bool { (cf: Counterfactual) => cf.name == HighClaims }

  lemma {:induction false} TotalsOf(t: Tally, base: Placement, cfs: seq<Counterfactual>, predict: State -> Placement)
    ensures var r := ScoreAll(t, base, cfs, predict);
            && r.hardTotal == t.hardTotal + CountOf(cfs, IsHard()) && r.boundaryTotal == t.boundaryTotal + CountOf(cfs, IsBoundary())
            && r.pressureTotal == t.pressureTotal + CountOf(cfs, IsPressure()) && r.permutationTotal == t.permutationTotal
  {
    if cfs != [] {
      TotalsOf(t, base, cfs[..|cfs| - 1], predict);
    }
  }

  /** The totals are the numbers of counterfactuals of each kind, and of states. */
  lemma {:induction false} TotalsMean(states: seq<State>, predict: State -> Placement)
    ensures var t := Evaluate(states, predict);
            && t.hardTotal == CountAll(states, IsHard()) && t.boundaryTotal == CountAll(states, IsBoundary())
            && t.pressureTotal == CountAll(states, IsPressure()) && t.permutationTotal == |states|
  {
    if states != [] {
      var n := |states| - 1;
      TotalsMean(states[..n], predict);
      TotalsOf(Counting(Evaluate(states[..n], predict), states[n], predict), predict(states[n]), Counterfactuals(states[n]), predict);
    }
  }

  /**
   A failure counterfactual breaks the one thing it is named for in every node, the mixed one each of the four
   in turn, and nothing else.
   */
  lemma FailureVariants(s: State, i: nat)
    requires i < |s.nodes|
    ensures var n := s.nodes[i];
            && Variant(AllUnhealthy, s).nodes[i] == n.(healthy := false) && Variant(AllHealthStale, s).nodes[i] == n.(healthFresh := false)
            && Variant(AllDrained, s).nodes[i] == n.(drained := true) && Variant(AllUnreachable, s).nodes[i] == n.(reachable := false)
    ensures var n, m := s.nodes[i], Variant(MixedFailure, s).nodes[i];
            && !Serviceable(m)
            && (m == n.(healthy := false) || m == n.(drained := true) || m == n.(reachable := false) || m == n.(healthFresh := false))
            && (i % 4 == 0 ==> !m.healthy) && (i % 4 == 1 ==> m.drained) && (i % 4 == 2 ==> !m.reachable) && (i % 4 == 3 ==> !m.healthFresh)
  {
  }

  /** A capacity counterfactual puts what is free just below the demand, within a hundredth, or exactly on it. */
  lemma CapacityVariants(s: State, i: nat)
    requires i < |s.nodes|
    ensures Variant(RamExact, s).nodes[i] == s.nodes[i].(ramFree := s.ram)
    ensures Variant(VramExact, s).nodes[i] == s.nodes[i].(vramFree := s.vram)
    ensures var m := Variant(RamBelow, s).nodes[i];
            m == s.nodes[i].(ramFree := m.ramFree) && (s.ram > 0.0 ==> 0.0 <= m.ramFree < s.ram <= m.ramFree + 0.01)
    ensures var m := Variant(VramBelow, s).nodes[i];
            m == s.nodes[i].(vramFree := m.vramFree) && (s.vram > 0.0 ==> 0.0 <= m.vramFree < s.vram <= m.vramFree + 0.01)
  {
  }

  /** Claim pressure raises the claims to eight and lowers the free CPU to a tenth, where they are not there yet. */
  lemma PressureVariant(s: State, i: nat)
    requires i < |s.nodes|
    ensures var n, m := s.nodes[i], Variant(HighClaims, s).nodes[i];
            && m == n.(activeClaims := m.activeClaims, cpuFree := m.cpuFree)
            && m.activeClaims >= 8 && m.activeClaims >= n.activeClaims && m.activeClaims in {8, n.activeClaims}
            && m.cpuFree <= 0.1 && m.cpuFree <= n.cpuFree && m.cpuFree in {0.1, n.cpuFree}
  {
  }

  /** On the exact boundary a node is eligible exactly if nothing but that resource stood in its way. */
  lemma ExactBoundary(s: State, i: nat)
    requires i < |s.nodes|
    ensures Eligible(Variant(RamExact, s), Variant(RamExact, s).nodes[i]) <==> exists ram :: Eligible(s, s.nodes[i].(ramFree := ram))
    ensures Eligible(Variant(VramExact, s), Variant(VramExact, s).nodes[i]) <==> exists vram :: Eligible(s, s.nodes[i].(vramFree := vram))
  {
    assert s.nodes[i].(ramFree := s.ram) == Variant(RamExact, s).nodes[i];
    assert s.nodes[i].(vramFree := s.vram) == Variant(VramExact, s).nodes[i];
    assert Eligible(Variant(RamExact, s), Variant(RamExact, s).nodes[i]) <==> Eligible(s, s.nodes[i].(ramFree := s.ram));
    assert Eligible(Variant(VramExact, s), Variant(VramExact, s).nodes[i]) <==> Eligible(s, s.nodes[i].(vramFree := s.vram));
  }
}
