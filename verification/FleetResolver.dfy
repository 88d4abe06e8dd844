/**
 Ranking and resolving a placement inside eligibility, and the text a model sees of a fleet.
 */
module FleetResolver {
  import opened Wrappers
  import opened Order
  import opened Fleet

  // ----- rank_eligible_nodes -----------------------------------------------------------------

  function PreferredMatches(n: Node, s: Fleet.State): nat {
    |(set c | c in s.preferred) * (set c | c in n.capabilities)|
  }

  /** The sort key: every component is better when larger, and the id breaks ties. */
  datatype Key = Key(matches: nat, vram: real, ram: real, cpu: real, claims: int, id: string)

  function KeyOf(n: Node, s: Fleet.State): Key {
    Key(PreferredMatches(n, s), n.vramFree - s.vram, n.ramFree - s.ram, n.cpuFree, -n.activeClaims, n.id)
  }

  predicate KeyLeq(a: Key, b: Key) {
    || a.matches > b.matches
    || (a.matches == b.matches &&
        (a.vram > b.vram ||
         (a.vram == b.vram &&
          (a.ram > b.ram ||
           (a.ram == b.ram &&
            (a.cpu > b.cpu ||
             (a.cpu == b.cpu &&
              (a.claims > b.claims || (a.claims == b.claims && StringLeq(a.id, b.id))))))))))
  }

  lemma KeysAreOrdered()
    ensures TotalOrder(KeyLeq) && Antisymmetric(KeyLeq)
  {
    forall a: Key, b: Key ensures KeyLeq(a, b) || KeyLeq(b, a) {
      StringLeqTotal(a.id, b.id);
    }
    forall a: Key, b: Key, c: Key | KeyLeq(a, b) && KeyLeq(b, c) ensures KeyLeq(a, c) {
      if a.id != b.id || b.id != c.id {
        KeyTransitive(a, b, c);
      }
    }
    forall a: Key, b: Key | KeyLeq(a, b) && KeyLeq(b, a) ensures a == b {
      StringLeqAntisymmetric(a.id, b.id);
    }
  }

  lemma KeyTransitive(a: Key, b: Key, c: Key)
    requires KeyLeq(a, b) && KeyLeq(b, c)
    ensures KeyLeq(a, c)
  {
    if StringLeq(a.id, b.id) && StringLeq(b.id, c.id) {
      StringLeqTransitive(a.id, b.id, c.id);
    }
  }

  function NodeLeq(s: Fleet.State): (Node, Node) -> bool { (a, b) => KeyLeq(KeyOf(a, s), KeyOf(b, s)) }

  lemma NodesAreOrdered(s: Fleet.State)
    ensures TotalOrder(NodeLeq(s))
  {
    KeysAreOrdered();
  }

  function RankEligible(s: Fleet.State, nodes: seq<Node>): (r: seq<Node>)
    ensures Sorted(NodeLeq(s), r) && multiset(r) == multiset(nodes)
  {
    NodesAreOrdered(s);
    Sort(NodeLeq(s), nodes)
  }

  function IdOf(n: Node): string { n.id }

  function Ids(nodes: seq<Node>): (r: seq<string>)
    ensures |r| == |nodes|
  {
    Map(IdOf, nodes)
  }

  function KeyFor(s: Fleet.State): Node -> Key { n => KeyOf(n, s) }

  function Keys(s: Fleet.State, nodes: seq<Node>): (r: seq<Key>)
    ensures |r| == |nodes|
  {
    Map(KeyFor(s), nodes)
  }

  // ----- resolve_fleet_placement ---------------------------------------------------------------

  datatype Resolution = Resolution(placement: Placement, eligible: seq<string>, ranked: seq<string>, selected: Option<string>)

  /** What becomes of the model's placement, given the ranked eligible ids. */
  function ResolveRanked(model: Placement, confidence: nat, minimum: nat, pinned: Option<string>, checkpoint: bool, ranked: seq<string>):
    (Placement, Option<string>)
  {
    if ranked == [] then (Defer, None)
    else if confidence < minimum then (AbstainPlacement, None)
    else if model == Defer || model == AbstainPlacement then (model, None)
    else if pinned.Some? then (LocalPlacement, pinned)
    else if model == LocalPlacement then (Defer, None)
    else if model == Split then (if |ranked| < 2 || !checkpoint then Defer else Split, None)
    else (if model == PreferredNode then PreferredNode else AnyEligible, Some(ranked[0]))
  }

  function RankedIds(s: Fleet.State): seq<string> { Ids(RankEligible(s, EligibleNodes(s))) }

  /** The model's top placement, and how its top confidence ranks against the minimum. */
  function Resolve(s: Fleet.State, model: Placement, confidence: nat, minimum: nat): Resolution {
    var outcome := ResolveRanked(model, confidence, minimum, s.pinned, s.checkpoint, RankedIds(s));
    Resolution(outcome.0, Ids(EligibleNodes(s)), RankedIds(s), outcome.1)
  }

  /** `resolve_fleet_placement`: eligibility first, then confidence, then the shape. */
  method ResolveFleetPlacement(s: Fleet.State, model: Placement, confidence: nat, minimum: nat) returns (r: Resolution)
    ensures r == Resolve(s, model, confidence, minimum)
  {
    var eligible := FindEligible(s);
    var ranked := RankEligible(s, eligible);
    SameSize(ranked, eligible);
    var ids, rankedIds := Ids(eligible), Ids(ranked);
    if eligible == [] {
      return Resolution(Defer, ids, rankedIds, None);
    }
    if confidence < minimum {
      return Resolution(AbstainPlacement, ids, rankedIds, None);
    }
    if model == Defer || model == AbstainPlacement {
      return Resolution(model, ids, rankedIds, None);
    }
    if s.pinned.Some? {
      return Resolution(LocalPlacement, ids, rankedIds, s.pinned);
    }
    if model == LocalPlacement {
      return Resolution(Defer, ids, rankedIds, None);
    }
    if model == Split {
      if |ranked| < 2 || !s.checkpoint {
        return Resolution(Defer, ids, rankedIds, None);
      }
      return Resolution(Split, ids, rankedIds, None);
    }
    return Resolution(if model == PreferredNode then PreferredNode else AnyEligible, ids, rankedIds, Some(rankedIds[0]));
  }

  predicate NamesEligible(s: Fleet.State, id: string) { exists n :: n in s.nodes && Eligible(s, n) && n.id == id }

  lemma RankedAreEligible(s: Fleet.State, i: nat)
    requires i < |RankedIds(s)|
    ensures NamesEligible(s, RankedIds(s)[i])
  {
    var ranked := RankEligible(s, EligibleNodes(s));
    assert ranked[i] in multiset(EligibleNodes(s));
    assert ranked[i] in EligibleNodes(s);
  }

  ghost predicate AllNameEligible(s: Fleet.State, ids: seq<string>) {
    forall i :: 0 <= i < |ids| ==> NamesEligible(s, ids[i])
  }

  lemma AllRankedEligible(s: Fleet.State)
    ensures AllNameEligible(s, RankedIds(s))
  {
    forall i | 0 <= i < |RankedIds(s)| ensures NamesEligible(s, RankedIds(s)[i]) {
      RankedAreEligible(s, i);
    }
  }

  /** No node outside eligibility is ever selected or ranked, and nothing is selected where nothing is eligible. */
  lemma ResolutionStaysEligible(s: Fleet.State, model: Placement, confidence: nat, minimum: nat)
    ensures var r := Resolve(s, model, confidence, minimum);
            && (r.selected.Some? ==> NamesEligible(s, r.selected.value))
            && AllNameEligible(s, r.ranked)
            && (EligibleNodes(s) == [] ==> r.placement == Defer && r.selected.None?)
  {
    AllRankedEligible(s);
    PinnedIsEligible(s);
  }

  lemma PinnedIsEligible(s: Fleet.State)
    ensures EligibleNodes(s) != [] && s.pinned.Some? ==> NamesEligible(s, s.pinned.value)
  {
    if EligibleNodes(s) != [] {
      assert EligibleNodes(s)[0] in EligibleNodes(s);
    }
  }

  /** `n` is eligible and ranks no lower than any eligible node. */
  ghost predicate BestEligible(s: Fleet.State, n: Node) {
    n in EligibleNodes(s) && forall m :: m in EligibleNodes(s) ==> NodeLeq(s)(n, m)
  }

  lemma FirstRankedIsBest(s: Fleet.State)
    requires EligibleNodes(s) != []
    ensures |RankEligible(s, EligibleNodes(s))| == |EligibleNodes(s)|
    ensures BestEligible(s, RankEligible(s, EligibleNodes(s))[0])
  {
    var nodes := EligibleNodes(s);
    var ranked := RankEligible(s, nodes);
    SameSize(ranked, nodes);
    NodesAreOrdered(s);
    assert ranked[0] in multiset(ranked);
    forall m | m in nodes ensures NodeLeq(s)(ranked[0], m) {
      assert m in multiset(ranked);
      LeastFirst(NodeLeq(s), ranked, m);
    }
  }

  /** A pinned workload's only eligible name is the pinned one. */
  lemma PinnedIsFirst(s: Fleet.State)
    requires s.pinned.Some? && EligibleNodes(s) != []
    ensures RankedIds(s) != [] && RankedIds(s)[0] == s.pinned.value
  {
    FirstRankedIsBest(s);
  }

  /** Whether the resolver names a node at all. */
  predicate Selects(s: Fleet.State, model: Placement, confidence: nat, minimum: nat) {
    && EligibleNodes(s) != [] && confidence >= minimum && model != Defer && model != AbstainPlacement
    && (s.pinned.Some? || (model != LocalPlacement && model != Split))
  }

  /** A node is named exactly when one may be, it is always the first of the ranking, and no eligible node ranks before it. */
  lemma SelectionExactly(s: Fleet.State, model: Placement, confidence: nat, minimum: nat)
    ensures var r := Resolve(s, model, confidence, minimum);
            && (r.selected.Some? <==> Selects(s, model, confidence, minimum))
            && (r.selected.Some? ==> r.ranked != [] && r.selected.value == r.ranked[0] &&
                                     exists n :: BestEligible(s, n) && n.id == r.selected.value)
            && (r.placement == Split ==> |EligibleNodes(s)| >= 2 && s.checkpoint && s.pinned.None?)
  {
    if EligibleNodes(s) != [] {
      FirstRankedIsBest(s);
      assert RankedIds(s)[0] == RankEligible(s, EligibleNodes(s))[0].id;
      if s.pinned.Some? {
        PinnedIsFirst(s);
      }
    } else {
      SameSize(RankEligible(s, EligibleNodes(s)), EligibleNodes(s));
    }
  }

  // ----- Which node comes first, on its own facts ------------------------------------------------

  /** The preferred capabilities a node has. */
  ghost function Serves(n: Node, s: Fleet.State): set<string> { set c | c in n.capabilities && c in s.preferred }

  /**
   `a` comes before `b`: it serves more of the preferred capabilities; at equal matches it has more free VRAM,
   then more free RAM, then more free CPU, then fewer claims, then the smaller id.
   */
  ghost predicate Outranks(a: Node, b: Node, s: Fleet.State) {
    || |Serves(a, s)| > |Serves(b, s)|
    || (|Serves(a, s)| == |Serves(b, s)| && HasMoreRoom(a, b))
  }

  predicate HasMoreRoom(a: Node, b: Node) {
    || a.vramFree > b.vramFree
    || (a.vramFree == b.vramFree && a.ramFree > b.ramFree)
    || (a.vramFree == b.vramFree && a.ramFree == b.ramFree && a.cpuFree > b.cpuFree)
    || (a.vramFree == b.vramFree && a.ramFree == b.ramFree && a.cpuFree == b.cpuFree && a.activeClaims < b.activeClaims)
    || (a.vramFree == b.vramFree && a.ramFree == b.ramFree && a.cpuFree == b.cpuFree && a.activeClaims == b.activeClaims &&
        StringLess(a.id, b.id))
  }

  lemma ServesAre(n: Node, s: Fleet.State)
    ensures PreferredMatches(n, s) == |Serves(n, s)|
  {
    assert Serves(n, s) == (set c | c in s.preferred) * (set c | c in n.capabilities);
  }

  /** The ranking puts one node before another exactly when the other does not outrank it. */
  lemma RankedByFacts(a: Node, b: Node, s: Fleet.State)
    ensures NodeLeq(s)(a, b) <==> !Outranks(b, a, s)
  {
    ServesAre(a, s);
    ServesAre(b, s);
    StringLeqTotal(a.id, b.id);
    if StringLeq(a.id, b.id) && StringLeq(b.id, a.id) {
      StringLeqAntisymmetric(a.id, b.id);
    }
  }

  /** No node of the ranking is outranked by a later one. */
  lemma RankingMeans(s: Fleet.State, nodes: seq<Node>)
    ensures multiset(RankEligible(s, nodes)) == multiset(nodes)
    ensures var r := RankEligible(s, nodes); forall i, j :: 0 <= i < j < |r| ==> !Outranks(r[j], r[i], s)
  {
    var r := RankEligible(s, nodes);
    forall i, j | 0 <= i < j < |r| ensures !Outranks(r[j], r[i], s) {
      assert NodeLeq(s)(r[i], r[j]);
      RankedByFacts(r[i], r[j], s);
    }
  }

  /** A node of this name may serve the demand, and no node that may outranks it. */
  ghost predicate FirstChoice(s: Fleet.State, n: Node) {
    n in s.nodes && Eligible(s, n) && forall m :: m in s.nodes && Eligible(s, m) ==> !Outranks(m, n, s)
  }

  /** The node a resolution selects is a first choice. */
  lemma SelectionIsFirstChoice(s: Fleet.State, model: Placement, confidence: nat, minimum: nat)
    requires Resolve(s, model, confidence, minimum).selected.Some?
    ensures exists n :: FirstChoice(s, n) && n.id == Resolve(s, model, confidence, minimum).selected.value
  {
    SelectionExactly(s, model, confidence, minimum);
    var n :| BestEligible(s, n) && n.id == Resolve(s, model, confidence, minimum).selected.value;
    assert n in s.nodes && Eligible(s, n);
    forall m | m in s.nodes && Eligible(s, m) ensures !Outranks(m, n, s) {
      assert m in EligibleNodes(s);
      RankedByFacts(n, m, s);
    }
    assert FirstChoice(s, n);
  }

  /** The model wants work placed, and is sure enough. */
  predicate Asks(s: Fleet.State, model: Placement, confidence: nat, minimum: nat) {
    EligibleNodes(s) != [] && confidence >= minimum && model != Defer && model != AbstainPlacement
  }

  /** Which placement a resolution has, for each of the six. */
  lemma PlacementExactly(s: Fleet.State, model: Placement, confidence: nat, minimum: nat)
    ensures var r, asks, n := Resolve(s, model, confidence, minimum).placement, Asks(s, model, confidence, minimum), |EligibleNodes(s)|;
            && (r == AbstainPlacement <==> n > 0 && (confidence < minimum || model == AbstainPlacement))
            && (r == LocalPlacement <==> asks && s.pinned.Some?)
            && (r == Split <==> asks && s.pinned.None? && model == Split && n >= 2 && s.checkpoint)
            && (r == PreferredNode <==> asks && s.pinned.None? && model == PreferredNode)
            && (r == AnyEligible <==> asks && s.pinned.None? && model == AnyEligible)
            && (r == Defer <==> n == 0 || (confidence >= minimum && model == Defer) ||
                                (asks && s.pinned.None? && (model == LocalPlacement || (model == Split && (n < 2 || !s.checkpoint)))))
  {
    SameSize(RankEligible(s, EligibleNodes(s)), EligibleNodes(s));
  }

  // ----- The order of the nodes ----------------------------------------------------------------

  lemma {:induction false} EligibleCount(s: Fleet.State, nodes: seq<Node>, n: Node)
    ensures multiset(EligibleAmong(s, nodes))[n] == if Eligible(s, n) then multiset(nodes)[n] else 0
  {
    if nodes != [] {
      EligibleCount(s, nodes[..|nodes| - 1], n);
      assert nodes == nodes[..|nodes| - 1] + [nodes[|nodes| - 1]];
    }
  }

  /** The same demand on a fleet listed in another order. */
  ghost predicate Relisted(s: Fleet.State, t: Fleet.State) {
    t == s.(nodes := t.nodes) && multiset(s.nodes) == multiset(t.nodes)
  }

  lemma EligibleRelisted(s: Fleet.State, t: Fleet.State)
    requires Relisted(s, t)
    ensures multiset(EligibleNodes(s)) == multiset(EligibleNodes(t))
  {
    forall n: Node ensures multiset(EligibleNodes(s))[n] == multiset(EligibleNodes(t))[n] {
      EligibleCount(s, s.nodes, n);
      EligibleCount(t, t.nodes, n);
    }
  }

  lemma KeysRelisted(s: Fleet.State, t: Fleet.State, a: seq<Node>, b: seq<Node>)
    requires Relisted(s, t) && multiset(a) == multiset(b)
    ensures Keys(s, RankEligible(s, a)) == Keys(t, RankEligible(t, b))
  {
    var x, y := RankEligible(s, a), RankEligible(t, b);
    MapRearranged(KeyFor(s), x, y);
    SameDemand(s, t, y);
    KeysAreOrdered();
    RankedKeys(s, a);
    RankedKeys(t, b);
    SortedUnique(KeyLeq, Keys(s, x), Keys(t, y));
  }

  lemma SameDemand(s: Fleet.State, t: Fleet.State, nodes: seq<Node>)
    requires Relisted(s, t)
    ensures Keys(s, nodes) == Keys(t, nodes)
  {
    forall i | 0 <= i < |nodes| ensures Keys(s, nodes)[i] == Keys(t, nodes)[i] {
    }
  }

  lemma IdsFromKeys(s: Fleet.State, t: Fleet.State, x: seq<Node>, y: seq<Node>)
    requires Keys(s, x) == Keys(t, y)
    ensures Ids(x) == Ids(y)
  {
    assert |x| == |Keys(s, x)| && |y| == |Keys(t, y)|;
    forall i | 0 <= i < |x| ensures Ids(x)[i] == Ids(y)[i] {
      assert Keys(s, x)[i] == Keys(t, y)[i];
    }
  }

  /** The ranking of ids does not depend on the order in which the nodes are listed. */
  lemma RankingRelisted(s: Fleet.State, t: Fleet.State)
    requires Relisted(s, t)
    ensures RankedIds(s) == RankedIds(t)
  {
    var a, b := EligibleNodes(s), EligibleNodes(t);
    EligibleRelisted(s, t);
    KeysRelisted(s, t, a, b);
    IdsFromKeys(s, t, RankEligible(s, a), RankEligible(t, b));
  }

  lemma RankedKeys(s: Fleet.State, nodes: seq<Node>)
    ensures Sorted(KeyLeq, Keys(s, RankEligible(s, nodes)))
  {
    var r := RankEligible(s, nodes);
    forall i, j | 0 <= i < j < |r| ensures KeyLeq(Keys(s, r)[i], Keys(s, r)[j]) {
      assert NodeLeq(s)(r[i], r[j]);
    }
  }

  /** Listing the nodes in another order changes nothing but the order of the eligible ids. */
  lemma ResolutionRelisted(s: Fleet.State, t: Fleet.State, model: Placement, confidence: nat, minimum: nat)
    requires Relisted(s, t)
    ensures var r, q := Resolve(s, model, confidence, minimum), Resolve(t, model, confidence, minimum);
            r.placement == q.placement && r.ranked == q.ranked && r.selected == q.selected && multiset(r.eligible) == multiset(q.eligible)
  {
    EligibleRelisted(s, t);
    MapRearranged(IdOf, EligibleNodes(s), EligibleNodes(t));
    RankingRelisted(s, t);
  }
}
