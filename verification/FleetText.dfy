/**
 The text a model sees of a fleet: JSON with sorted keys in which node names do not occur and nodes
 are ordered by their own text.
 */
module FleetText {
  import opened Wrappers
  import opened Order
  import opened Json
  import opened FrameFormat
  import opened Fleet
  import opened FleetResolver

  /** How a float is printed. */
  type Number = real -> string

  ghost predicate NoCommas(number: Number) { forall x :: ',' !in number(x) }

  function Truth(b: bool): string { if b then ['t', 'r', 'u', 'e'] else ['f', 'a', 'l', 's', 'e'] }

  // ----- One node -----------------------------------------------------------------------------

  /** What the model may see of a node: everything but its id. */
  datatype Facts = Facts(capabilities: seq<string>, healthy: bool, healthFresh: bool, drained: bool, reachable: bool,
                         cpuFree: real, ramFree: real, vramFree: real, activeClaims: int)

  function Names(names: seq<string>): seq<string> {
    StringOrderIsTotal();
    Sort(StringLeq, names)
  }

  function FactsOf(n: Node): Facts {
    Facts(Names(n.capabilities), n.healthy, n.healthFresh, n.drained, n.reachable, n.cpuFree, n.ramFree, n.vramFree, n.activeClaims)
  }

  const PLAIN_KEYS :=
    ["\"cpu_free_fraction\":", "\"drained\":", "\"health_fresh\":", "\"healthy\":", "\"ram_free_gib\":", "\"reachable\":", "\"vram_free_gib\":"]

  function PlainValues(f: Facts, number: Number): seq<string> {
    [number(f.cpuFree), Truth(f.drained), Truth(f.healthFresh), Truth(f.healthy), number(f.ramFree), Truth(f.reachable), number(f.vramFree)]
  }

  /** The members after the capabilities, each without a comma of its own. */
  function Plain(f: Facts, number: Number): (r: seq<string>)
    ensures |r| == |PLAIN_KEYS|
  {
    seq(|PLAIN_KEYS|, i requires 0 <= i < |PLAIN_KEYS| => PLAIN_KEYS[i] + PlainValues(f, number)[i])
  }

  function Joined(parts: seq<string>): string {
    if parts == [] then [] else if |parts| == 1 then parts[0] else parts[0] + ([','] + Joined(parts[1..]))
  }

  const CLAIMS := "{\"active_claims\":"
  const CAPABILITIES := "\"capabilities\":"

  /** `json.dumps` of one node. */
  function NodeText(style: Style, f: Facts, number: Number): string {
    Assembled(PrintInt(f.activeClaims), Print(style, TextsJson(f.capabilities)), Joined(Plain(f, number)))
  }

  function Assembled(claims: string, capabilities: string, plain: string): string {
    CLAIMS + (claims + ([','] + (CAPABILITIES + (capabilities + ([','] + (plain + ['}']))))))
  }

  // ----- The text of a node determines what is printed of it ----------------------------------

  lemma Peel(prefix: string, x: string, y: string)
    requires prefix + x == prefix + y
    ensures x == y
  {
    assert (prefix + x)[|prefix|..] == x && (prefix + y)[|prefix|..] == y;
  }

  lemma Cut(a: string, b: string, x: string, y: string)
    requires ',' !in a && ',' !in b && a + ([','] + x) == b + ([','] + y)
    ensures a == b && x == y
  {
    var s := a + ([','] + x);
    assert s[|a|] == ',' && s[|b|] == ',';
    assert forall i :: 0 <= i < |a| ==> s[i] == a[i] && a[i] in a;
    assert forall i :: 0 <= i < |b| ==> s[i] == b[i] && b[i] in b;
    assert |a| == |b|;
    assert s[..|a|] == a && s[..|b|] == b;
    Peel(a, [','] + x, [','] + y);
    Peel([','], x, y);
  }

  lemma {:induction false} JoinedApart(a: seq<string>, b: seq<string>)
    requires |a| == |b| && Joined(a) == Joined(b)
    requires (forall i :: 0 <= i < |a| ==> ',' !in a[i]) && forall i :: 0 <= i < |b| ==> ',' !in b[i]
    ensures a == b
  {
    if |a| > 1 {
      Cut(a[0], b[0], Joined(a[1..]), Joined(b[1..]));
      JoinedApart(a[1..], b[1..]);
      assert a == [a[0]] + a[1..] && b == [b[0]] + b[1..];
    }
  }

  lemma DigitsOnly(n: int)
    ensures ',' !in PrintInt(n)
  {
  }

  lemma CapabilitiesApart(style: Style, a: seq<string>, b: seq<string>, x: string, y: string)
    requires Print(style, TextsJson(a)) + ([','] + x) == Print(style, TextsJson(b)) + ([','] + y)
    ensures a == b && x == y
  {
    ValueRoundTrip(style, TextsJson(a), [','] + x);
    ValueRoundTrip(style, TextsJson(b), [','] + y);
    assert TextsJson(a) == TextsJson(b);
    assert forall i :: 0 <= i < |a| ==> TextsJson(a).items[i] == Str(a[i]);
    Peel([','], x, y);
  }

  lemma KeyHasNoComma(i: nat)
    requires i < |PLAIN_KEYS|
    ensures ',' !in PLAIN_KEYS[i]
  {
  }

  lemma ValueHasNoComma(f: Facts, number: Number, i: nat)
    requires NoCommas(number) && i < |PLAIN_KEYS|
    ensures ',' !in PlainValues(f, number)[i]
  {
  }

  lemma PlainHasNoCommas(f: Facts, number: Number)
    requires NoCommas(number)
    ensures forall i :: 0 <= i < |Plain(f, number)| ==> ',' !in Plain(f, number)[i]
  {
    forall i | 0 <= i < |PLAIN_KEYS| ensures ',' !in PLAIN_KEYS[i] + PlainValues(f, number)[i] {
      KeyHasNoComma(i);
      ValueHasNoComma(f, number, i);
    }
  }

  lemma AssembledApart(style: Style, c: int, d: int, a: seq<string>, b: seq<string>, x: string, y: string)
    requires Assembled(PrintInt(c), Print(style, TextsJson(a)), x) == Assembled(PrintInt(d), Print(style, TextsJson(b)), y)
    ensures PrintInt(c) == PrintInt(d) && a == b && x == y
  {
    var restA, restB := Print(style, TextsJson(a)) + ([','] + (x + ['}'])), Print(style, TextsJson(b)) + ([','] + (y + ['}']));
    Peel(CLAIMS, PrintInt(c) + ([','] + (CAPABILITIES + restA)), PrintInt(d) + ([','] + (CAPABILITIES + restB)));
    DigitsOnly(c);
    DigitsOnly(d);
    Cut(PrintInt(c), PrintInt(d), CAPABILITIES + restA, CAPABILITIES + restB);
    Peel(CAPABILITIES, restA, restB);
    CapabilitiesApart(style, a, b, x + ['}'], y + ['}']);
    assert (x + ['}'])[..|x|] == x && (y + ['}'])[..|y|] == y;
  }

  /** Two nodes with one text in one style have one text in every style. */
  lemma SameTextEitherWay(style: Style, other: Style, f: Facts, g: Facts, number: Number)
    requires NoCommas(number) && NodeText(style, f, number) == NodeText(style, g, number)
    ensures NodeText(other, f, number) == NodeText(other, g, number)
  {
    AssembledApart(style, f.activeClaims, g.activeClaims, f.capabilities, g.capabilities, Joined(Plain(f, number)), Joined(Plain(g, number)));
    PlainHasNoCommas(f, number);
    PlainHasNoCommas(g, number);
    JoinedApart(Plain(f, number), Plain(g, number));
  }

  // ----- as_model_state ------------------------------------------------------------------------

  /** The key nodes are sorted by: their dump, escaped to ASCII. */
  function SortText(number: Number): Facts -> string { f => NodeText(Python, f, number) }

  function ShownText(number: Number): Facts -> string { f => NodeText(Bridge, f, number) }

  function ByText(number: Number): (Facts, Facts) -> bool { (a, b) => StringLeq(SortText(number)(a), SortText(number)(b)) }

  lemma TextsAreOrdered(number: Number)
    ensures TotalOrder(ByText(number))
  {
    var text := SortText(number);
    forall a, b ensures ByText(number)(a, b) || ByText(number)(b, a) {
      StringLeqTotal(text(a), text(b));
    }
    forall a, b, c | ByText(number)(a, b) && ByText(number)(b, c) ensures ByText(number)(a, c) {
      StringLeqTransitive(text(a), text(b), text(c));
    }
  }

  function FleetNodes(s: Fleet.State, number: Number): seq<Facts> {
    TextsAreOrdered(number);
    Sort(ByText(number), Map(FactsOf, s.nodes))
  }

  function OrNull(x: Option<real>, number: Number): string { if x.None? then ['n', 'u', 'l', 'l'] else number(x.value) }

  const WORKLOAD_KEY_TEXTS :=
    ["\"checkpoint_supported\":", "\"deadline_seconds\":", "\"description\":", "\"estimated_duration_seconds\":",
     "\"estimated_ram_gib\":", "\"estimated_vram_gib\":", "\"pinned\":", "\"preferred_capabilities\":",
     "\"required_capabilities\":", "\"state_locality_hint\":", "\"type\":"]

  /** The value behind each of these keys. */
  function WorkloadValue(s: Fleet.State, number: Number, i: nat): string {
    match i
    case 0 => Truth(s.checkpoint)
    case 1 => OrNull(s.story.deadline, number)
    case 2 => Quote(Bridge, s.story.description)
    case 3 => number(s.story.duration)
    case 4 => number(s.ram)
    case 5 => number(s.vram)
    case 6 => Truth(s.pinned.Some?)
    case 7 => Print(Bridge, TextsJson(Names(s.preferred)))
    case 8 => Print(Bridge, TextsJson(Names(s.required)))
    case 9 => Quote(Bridge, s.story.locality)
    case _ => Quote(Bridge, s.story.kind)
  }

  function WorkloadValues(s: Fleet.State, number: Number): seq<string> {
    seq(|WORKLOAD_KEY_TEXTS|, i requires 0 <= i < |WORKLOAD_KEY_TEXTS| => WorkloadValue(s, number, i))
  }

  /** The object with these values behind these keys. */
  function Enclosed(keys: seq<string>, values: seq<string>): string
    requires |keys| == |values|
  {
    ['{'] + (Joined(seq(|keys|, i requires 0 <= i < |keys| => keys[i] + values[i])) + ['}'])
  }

  /** The workload part: of the pin, only whether there is one. */
  function WorkloadText(s: Fleet.State, number: Number): string { Enclosed(WORKLOAD_KEY_TEXTS, WorkloadValues(s, number)) }

  const STATE_KEY_TEXTS := ["\"fleet\":", "\"source\":", "\"workload\":"]

  function FleetList(s: Fleet.State, number: Number): string {
    ['['] + (Joined(Map(ShownText(number), FleetNodes(s, number))) + [']'])
  }

  /** `as_model_state`: other characters than ASCII are kept here, as the bridge keeps them. */
  function AsModelState(s: Fleet.State, number: Number): string {
    Enclosed(STATE_KEY_TEXTS, [FleetList(s, number), Quote(Bridge, s.story.source), WorkloadText(s, number)])
  }

  lemma SortedTexts(number: Number, a: seq<Facts>, b: seq<Facts>)
    requires Sorted(ByText(number), a) && Sorted(ByText(number), b) && multiset(a) == multiset(b)
    ensures Map(SortText(number), a) == Map(SortText(number), b)
  {
    StringOrderIsTotal();
    MapRearranged(SortText(number), a, b);
    SortedUnique(StringLeq, Map(SortText(number), a), Map(SortText(number), b));
  }

  lemma FleetListRelisted(s: Fleet.State, t: Fleet.State, number: Number)
    requires Relisted(s, t) && NoCommas(number)
    ensures FleetList(s, number) == FleetList(t, number)
  {
    var a, b := FleetNodes(s, number), FleetNodes(t, number);
    TextsAreOrdered(number);
    MapRearranged(FactsOf, s.nodes, t.nodes);
    SameSize(a, b);
    SortedTexts(number, a, b);
    forall i | 0 <= i < |a| ensures ShownText(number)(a[i]) == ShownText(number)(b[i]) {
      assert Map(SortText(number), a)[i] == Map(SortText(number), b)[i];
      SameTextEitherWay(Python, Bridge, a[i], b[i], number);
    }
    assert Map(ShownText(number), a) == Map(ShownText(number), b);
  }

  lemma WorkloadTextKept(s: Fleet.State, t: Fleet.State, number: Number)
    requires t == s.(nodes := t.nodes, pinned := t.pinned) && s.pinned.Some? == t.pinned.Some?
    ensures WorkloadText(s, number) == WorkloadText(t, number)
  {
    forall i: nat ensures WorkloadValue(s, number, i) == WorkloadValue(t, number, i) {
    }
    assert WorkloadValues(s, number) == WorkloadValues(t, number);
  }

  /** The order in which the nodes are listed does not reach the model. */
  lemma ModelStateRelisted(s: Fleet.State, t: Fleet.State, number: Number)
    requires Relisted(s, t) && NoCommas(number)
    ensures AsModelState(s, number) == AsModelState(t, number)
  {
    FleetListRelisted(s, t, number);
    WorkloadTextKept(s, t, number);
  }

  function Renamed(nodes: seq<Node>, name: string -> string): (r: seq<Node>)
    ensures |r| == |nodes|
  {
    seq(|nodes|, i requires 0 <= i < |nodes| => nodes[i].(id := name(nodes[i].id)))
  }

  /** The fleet under other names, the pin following its node. */
  function RenamedState(s: Fleet.State, name: string -> string): Fleet.State {
    s.(nodes := Renamed(s.nodes, name), pinned := if s.pinned.Some? then Some(name(s.pinned.value)) else None)
  }

  /** Nor do the names of the nodes. */
  lemma ModelStateRenamed(s: Fleet.State, name: string -> string, number: Number)
    ensures AsModelState(RenamedState(s, name), number) == AsModelState(s, number)
  {
    assert Map(FactsOf, Renamed(s.nodes, name)) == Map(FactsOf, s.nodes);
    WorkloadTextKept(RenamedState(s, name), s, number);
  }
}
