/**
 From quotes to an advisory: each quote and each historical print is gated, the survivors are
 reconciled and interpreted by the asset policy, and only a corroborated move can propose a change.
 */
module MarketDecision {
  import opened Wrappers
  import opened Order
  import opened SustainedMoves
  import Calendar

  const SECOND := Calendar.SECOND

  // ----- Evidence ------------------------------------------------------------------------

  datatype Reading = Reading(venue: string, reachable: bool, observedAt: int)

  datatype Rejection =
    | FutureDated | Stale | CrossedBook | AmbiguousPrice
    | VenueUnverified | VenueLivenessStale | VenueDown
    | HistoryOutOfWindow | HistoryVenueUnverified

  /** The moment of the decision, and what the policy's calendar says about it. Windows are in seconds. */
  datatype Context = Context(now: int, session: Calendar.Session, window: int, historyWindow: int, livenessMaxAge: int,
                             thin: int -> bool)

  predicate Crossed(q: Quote) {
    if q.bid.None? && q.ask.None? then !Priced(q)
    else if q.bid.None? || q.ask.None? then false
    else q.bid.value > q.ask.value
  }

  function Age(at: int, ctx: Context): int { ctx.now - at }

  predicate LaterFirst(a: Reading, b: Reading) { a.observedAt >= b.observedAt }

  lemma LaterFirstIsTotal()
    ensures TotalOrder(LaterFirst)
  {
  }

  function ReadingsOf(venue: string, liveness: seq<Reading>): (r: seq<Reading>)
    ensures forall x :: x in r <==> x in liveness && x.venue == venue
  {
    if liveness == [] then []
    else (if liveness[0].venue == venue then [liveness[0]] else []) + ReadingsOf(venue, liveness[1..])
  }

  /** The newest reading; of several at the same instant, the first. */
  function Newest(readings: seq<Reading>): (r: Reading)
    requires readings != []
    ensures r in readings && forall x :: x in readings ==> x.observedAt <= r.observedAt
  {
    LaterFirstIsTotal();
    SortMembers(LaterFirst, readings);
    var s := Sort(LaterFirst, readings);
    assert s[0] in s && forall k :: 0 <= k < |s| ==> s[k] in s;
    s[0]
  }

  /** `gate_venue_liveness`: closed unless the venue's newest reading is recent and reachable. */
  function VenueGate(source: Option<string>, liveness: seq<Reading>, ctx: Context): Option<Rejection> {
    if source.None? then Some(VenueUnverified)
    else
      var readings := ReadingsOf(source.value, liveness);
      if readings == [] then Some(VenueUnverified)
      else
        var newest := Newest(readings);
        if Age(newest.observedAt, ctx) < 0 then Some(VenueUnverified)
        else if !newest.reachable then Some(VenueDown)
        else if Age(newest.observedAt, ctx) > ctx.livenessMaxAge * SECOND then Some(VenueLivenessStale)
        else None
  }

  /** What the gate means: the venue's newest reading says reachable, and is neither old nor from the future. */
  ghost predicate VenueAlive(venue: string, liveness: seq<Reading>, ctx: Context) {
    exists i :: 0 <= i < |liveness| && NewestAt(i, venue, liveness) && Reassuring(liveness[i], ctx)
  }

  predicate Reassuring(r: Reading, ctx: Context) { r.reachable && 0 <= Age(r.observedAt, ctx) <= ctx.livenessMaxAge * SECOND }

  /** Of the venue's readings this is a newest one, and the first listed of those. */
  ghost predicate NewestAt(i: nat, venue: string, liveness: seq<Reading>)
    requires i < |liveness|
  {
    && liveness[i].venue == venue
    && (forall j :: 0 <= j < |liveness| && liveness[j].venue == venue ==> liveness[j].observedAt <= liveness[i].observedAt)
    && (forall j :: 0 <= j < i && liveness[j].venue == venue ==> liveness[j].observedAt < liveness[i].observedAt)
  }

  /** The reading that sorting puts first, found without sorting. */
  function FirstNewest(readings: seq<Reading>): Reading
    requires readings != []
  {
    if |readings| == 1 || readings[0].observedAt >= FirstNewest(readings[1..]).observedAt then readings[0] else FirstNewest(readings[1..])
  }

  lemma {:induction false} SortedFirst(readings: seq<Reading>)
    requires readings != []
    ensures TotalOrder(LaterFirst) && Sort(LaterFirst, readings)[0] == FirstNewest(readings)
  {
    LaterFirstIsTotal();
    if |readings| > 1 {
      SortedFirst(readings[1..]);
    }
  }

  lemma NewestMoves(i: nat, venue: string, liveness: seq<Reading>)
    requires i + 1 < |liveness| && NewestAt(i, venue, liveness[1..])
    ensures liveness[0].venue != venue || liveness[0].observedAt < liveness[i + 1].observedAt ==> NewestAt(i + 1, venue, liveness)
    ensures liveness[0].venue == venue && liveness[0].observedAt >= liveness[i + 1].observedAt ==> NewestAt(0, venue, liveness)
  {
    assert forall j :: 0 < j < |liveness| ==> liveness[j] == liveness[1..][j - 1];
  }

  lemma OnlyReading(venue: string, liveness: seq<Reading>)
    requires liveness != [] && liveness[0].venue == venue && ReadingsOf(venue, liveness[1..]) == []
    ensures NewestAt(0, venue, liveness)
  {
    forall j | 0 < j < |liveness| ensures liveness[j].venue != venue {
      assert liveness[1..][j - 1] in liveness[1..];
    }
  }

  lemma FirstNewestCons(x: Reading, rest: seq<Reading>)
    ensures FirstNewest([x] + rest) == if rest == [] || x.observedAt >= FirstNewest(rest).observedAt then x else FirstNewest(rest)
  {
    assert ([x] + rest)[1..] == rest;
  }

  lemma ReadingsCons(venue: string, liveness: seq<Reading>)
    requires liveness != []
    ensures ReadingsOf(venue, liveness) ==
            if liveness[0].venue == venue then [liveness[0]] + ReadingsOf(venue, liveness[1..]) else ReadingsOf(venue, liveness[1..])
  {
  }

  lemma {:induction false} NewestIsFirst(venue: string, liveness: seq<Reading>) returns (i: nat)
    requires ReadingsOf(venue, liveness) != []
    ensures i < |liveness| && NewestAt(i, venue, liveness) && liveness[i] == FirstNewest(ReadingsOf(venue, liveness))
  {
    var rest := ReadingsOf(venue, liveness[1..]);
    ReadingsCons(venue, liveness);
    FirstNewestCons(liveness[0], rest);
    if rest == [] {
      OnlyReading(venue, liveness);
      i := 0;
    } else {
      var k := NewestIsFirst(venue, liveness[1..]);
      NewestMoves(k, venue, liveness);
      i := if liveness[0].venue == venue && liveness[0].observedAt >= liveness[k + 1].observedAt then 0 else k + 1;
    }
  }

  lemma NewestOfVenue(venue: string, liveness: seq<Reading>) returns (i: nat)
    requires ReadingsOf(venue, liveness) != []
    ensures i < |liveness| && NewestAt(i, venue, liveness) && liveness[i] == Newest(ReadingsOf(venue, liveness))
  {
    SortedFirst(ReadingsOf(venue, liveness));
    i := NewestIsFirst(venue, liveness);
  }

  /** A quote passes the venue gate exactly when it names a venue whose newest reading is recent and reachable. */
  lemma VenueGateExactly(source: Option<string>, liveness: seq<Reading>, ctx: Context)
    ensures VenueGate(source, liveness, ctx).None? <==> source.Some? && VenueAlive(source.value, liveness, ctx)
  {
    if source.Some? {
      var venue := source.value;
      if ReadingsOf(venue, liveness) == [] {
        assert forall j :: 0 <= j < |liveness| ==> liveness[j] !in ReadingsOf(venue, liveness);
      } else {
        var i := NewestOfVenue(venue, liveness);
        forall k | 0 <= k < |liveness| && NewestAt(k, venue, liveness) ensures k == i {
          assert liveness[k].observedAt == liveness[i].observedAt;
        }
      }
    }
  }

  /** `gate_evidence`: every cause is named. */
  function EvidenceGate(q: Quote, ctx: Context): seq<Rejection> {
    (if Priced(q) then [] else [AmbiguousPrice]) +
    (if Crossed(q) then [CrossedBook] else []) +
    (if Age(q.observedAt, ctx) < 0 then [FutureDated]
     else if Age(q.observedAt, ctx) > ctx.window * SECOND then [Stale] else [])
  }

  // ----- Policies ----------------------------------------------------------------------------

  datatype Action = Abstain | Hold | Increase | Reduce

  datatype Policy =
    | IndexFund(requiresLiveness: bool, proposeThreshold: real, disagreement: real, intradayMove: real)
    | Crypto(proposeThreshold: real, disagreement: real)
    | Equity(requiresLiveness: bool, proposeThreshold: real, disagreement: real, maxHalfSpread: real)

  predicate NeedsLiveness(p: Policy) {
    match p
    case IndexFund(l, _, _, _) => l
    case Crypto(_, _) => true
    case Equity(l, _, _, _) => l
  }

  datatype Field = LastField | NavField

  /** The price field the policy judges, by name. */
  function PriceBasis(p: Policy, q: Quote, session: Calendar.Session): Option<Field> {
    if p.IndexFund? && !session.Regular? && q.nav.Some? then Some(NavField)
    else if q.last.Some? then Some(LastField)
    else None
  }

  function FieldValue(q: Quote, f: Field): Option<Price> {
    match f
    case LastField => q.last
    case NavField => q.nav
  }

  function Midpoint(q: Quote): Option<Price> {
    if q.last.Some? then q.last
    else if q.bid.Some? && q.ask.Some? then Some((q.bid.value + q.ask.value) / 2.0)
    else None
  }

  function Abs(x: real): real { if x < 0.0 then -x else x }

  function SourceName(q: Quote): string { if q.source.Some? then q.source.value else "" }

  /** The key a quote is chosen by: its distance from the centre, then its source. */
  predicate NearerThan(value: Quote -> Option<Price>, centre: real, a: Quote, b: Quote)
    requires value(a).Some? && value(b).Some?
  {
    var x, y := Abs(value(a).value - centre), Abs(value(b).value - centre);
    x < y || (x == y && StringLess(SourceName(a), SourceName(b)))
  }

  /** `min(..., key=...)`: the first of the nearest. */
  function Nearest(value: Quote -> Option<Price>, centre: real, qs: seq<Quote>): (r: Option<Quote>)
    ensures r.Some? ==> r.value in qs && value(r.value).Some?
    ensures r.None? ==> forall q :: q in qs ==> value(q).None?
  {
    if qs == [] then None
    else
      var best, q := Nearest(value, centre, qs[..|qs| - 1]), qs[|qs| - 1];
      assert forall x :: x in qs ==> x in qs[..|qs| - 1] || x == q;
      if value(q).None? then best
      else if best.Some? && !NearerThan(value, centre, q, best.value) then best
      else Some(q)
  }

  function Values(value: Quote -> Option<Price>, qs: seq<Quote>): seq<Price> {
    if qs == [] then [] else (if value(qs[0]).Some? then [value(qs[0]).value] else []) + Values(value, qs[1..])
  }

  function Lowest(ps: seq<Price>): Price
    requires ps != []
  {
    if |ps| == 1 then ps[0] else var r := Lowest(ps[1..]); if ps[0] <= r then ps[0] else r
  }

  function Highest(ps: seq<Price>): Price
    requires ps != []
  {
    if |ps| == 1 then ps[0] else var r := Highest(ps[1..]); if ps[0] >= r then ps[0] else r
  }

  function Spread(ps: seq<Price>): real
    requires ps != []
  {
    (Highest(ps) - Lowest(ps)) / Lowest(ps)
  }

  function Centre(ps: seq<Price>): real
    requires ps != []
  {
    (Lowest(ps) + Highest(ps)) / 2.0
  }

  function LastOf(q: Quote): Option<Price> { q.last }

  function Venue(q: Quote): string { if q.source.Some? && q.source.value != "" then q.source.value else "<unspecified>" }

  predicate OneVenue(qs: seq<Quote>) { forall i :: 0 <= i < |qs| ==> Venue(qs[i]) == Venue(qs[0]) }

  /** Which surviving observation to act on; `None` is the policy declining. */
  function Reconcile(p: Policy, qs: seq<Quote>): (r: Option<Quote>)
    requires qs != []
    ensures r.Some? ==> r.value in qs
  {
    match p
    case IndexFund(_, _, tolerance, _) =>
      var prices := Values(LastOf, qs);
      if |qs| == 1 || |prices| < 2 then Some(qs[0])
      else if Spread(prices) > tolerance then None
      else Nearest(LastOf, Centre(prices), qs)
    case Crypto(_, tolerance) =>
      var mids := Values(Midpoint, qs);
      if OneVenue(qs) then Some(qs[0])
      else if |mids| < 2 || Spread(mids) > tolerance then None
      else Nearest(Midpoint, Centre(mids), qs)
    case Equity(_, _, tolerance, _) =>
      var prices := Values(LastOf, qs);
      if |qs| == 1 then Some(qs[0])
      else if |prices| < 2 || Spread(prices) > tolerance then None
      else Some(qs[0])
  }

  /** Half the bid-ask spread as a fraction of the mid. */
  function FractionalSpread(q: Quote): Option<real> {
    if q.bid.None? || q.ask.None? then None
    else Some((q.ask.value - q.bid.value) / 2.0 / ((q.ask.value + q.bid.value) / 2.0))
  }

  /** A price to compare the basis with: the first present field other than the basis. */
  function SessionReference(q: Quote, f: Field): Option<Price> {
    if q.nav.Some? && f != NavField then q.nav
    else if q.last.Some? && f != LastField then q.last
    else if q.bid.Some? then q.bid
    else q.ask
  }

  /** What one quote on its own supports: never more than holding. */
  function Interpret(p: Policy, q: Quote, ctx: Context): (r: (Action, real))
    ensures r.0 == Abstain || r.0 == Hold
    ensures 0.0 <= r.1 <= 0.6
  {
    match p
    case IndexFund(_, _, _, threshold) =>
      var basis := PriceBasis(p, q, ctx.session);
      if basis.None? then (Abstain, 0.0)
      else if q.nav.Some? && q.last.Some? && Abs(q.last.value - q.nav.value) / q.nav.value > 0.05 then (Abstain, 0.0)
      else
        var reference, value := SessionReference(q, basis.value), FieldValue(q, basis.value);
        if reference.None? || value.None? then (Hold, 0.35)
        else if Abs(value.value - reference.value) / reference.value <= threshold then (Hold, 0.6)
        else (Hold, 0.45)
    case Crypto(_, _) =>
      if q.last.None? then (Abstain, 0.0)
      else if q.bid.Some? && q.ask.Some? && (q.ask.value - q.bid.value) / q.ask.value > 0.05 then (Abstain, 0.0)
      else if ctx.thin(q.observedAt) then (Hold, 0.3)
      else if q.bid.None? || q.ask.None? then (Hold, 0.25)
      else (Hold, 0.2)
    case Equity(_, _, _, maxHalfSpread) =>
      var spread := FractionalSpread(q);
      if !ctx.session.Regular? then (Hold, 0.2)
      else if spread.None? then (Hold, 0.15)
      else if spread.value > maxHalfSpread then (Hold, 0.1)
      else if q.source.None? then (Hold, 0.15)
      else (Hold, 0.25)
  }

  function Min(a: real, b: real): real { if a <= b then a else b }

  predicate IsReversal(signal: Signal) { signal.direction == ReversalUp || signal.direction == ReversalDown }

  function ProposedAction(signal: Signal): Action { if signal.direction == Up || signal.direction == ReversalUp then Increase else Reduce }

  /** Whether an established move is grounds to propose. */
  function ConsiderMove(p: Policy, signal: Signal, q: Quote): Option<(Action, real)> {
    match p
    case IndexFund(_, threshold, _, _) =>
      if signal.magnitude < threshold || IsReversal(signal) then None
      else Some((ProposedAction(signal), Min(0.7, 0.4 + signal.magnitude)))
    case Crypto(threshold, _) =>
      if signal.venueCount < 2 || IsReversal(signal) || signal.magnitude < threshold then None
      else Some((ProposedAction(signal), Min(0.6, 0.3 + signal.magnitude)))
    case Equity(_, threshold, _, _) =>
      var spread := FractionalSpread(q);
      if signal.venueCount < 2 || IsReversal(signal) || signal.magnitude < threshold then None
      else if spread.None? || signal.magnitude < spread.value * 2.0 then None
      else Some((ProposedAction(signal), Min(0.5, 0.2 + signal.magnitude)))
  }

  // ----- The decision ------------------------------------------------------------------------

  datatype Evidence = Evidence(observations: seq<Quote>, history: seq<Quote>)

  datatype Advisory = Advisory(action: Action, confidence: real, chosen: Option<Quote>, move: Option<Signal>)

  /** The signal the detector could not build: a field bound is violated and the call raises. */
  datatype Raised = InvalidSignal

  predicate UsableNow(p: Policy, q: Quote, liveness: seq<Reading>, ctx: Context) {
    EvidenceGate(q, ctx) == [] && (NeedsLiveness(p) ==> VenueGate(q.source, liveness, ctx).None?)
  }

  /** `gate_history`: `None` is a usable print. */
  function HistoryGate(p: Policy, q: Quote, liveness: seq<Reading>, ctx: Context): Option<Rejection> {
    if !Priced(q) then Some(AmbiguousPrice)
    else if Crossed(q) then Some(CrossedBook)
    else if Age(q.observedAt, ctx) < 0 then Some(FutureDated)
    else if Age(q.observedAt, ctx) > ctx.historyWindow * SECOND then Some(HistoryOutOfWindow)
    else if NeedsLiveness(p) && VenueGate(q.source, liveness, ctx).Some? then Some(HistoryVenueUnverified)
    else None
  }

  function Usable(p: Policy, qs: seq<Quote>, liveness: seq<Reading>, ctx: Context): (r: seq<Quote>)
    ensures forall q :: q in r <==> q in qs && UsableNow(p, q, liveness, ctx)
  {
    if qs == [] then []
    else
      var last := qs[|qs| - 1];
      assert forall x :: x in qs <==> x in qs[..|qs| - 1] || x == last;
      Usable(p, qs[..|qs| - 1], liveness, ctx) + (if UsableNow(p, last, liveness, ctx) then [last] else [])
  }

  function UsableHistory(p: Policy, qs: seq<Quote>, liveness: seq<Reading>, ctx: Context): (r: seq<Quote>)
    ensures forall q :: q in r <==> q in qs && HistoryGate(p, q, liveness, ctx).None?
  {
    if qs == [] then []
    else
      var last := qs[|qs| - 1];
      assert forall x :: x in qs <==> x in qs[..|qs| - 1] || x == last;
      UsableHistory(p, qs[..|qs| - 1], liveness, ctx) + (if HistoryGate(p, last, liveness, ctx).None? then [last] else [])
  }

  /** The named venues of the usable observations. */
  function LiveNow(usable: seq<Quote>): set<string> {
    set i | 0 <= i < |usable| && usable[i].source.Some? && usable[i].source.value != "" :: usable[i].source.value
  }

  /** A move counts only as far as venues that are usable now attest it. */
  function Attested(signal: Signal, usable: seq<Quote>): Option<Signal> {
    var venues := signal.venues * LiveNow(usable);
    if venues == {} then None else Some(signal.(venueCount := |venues|))
  }

  /** Independent agreement lifts confidence, never past 1. */
  function Corroborated(confidence: real, usable: seq<Quote>): real {
    var n := |Sources(usable)|;
    if n <= 1 then confidence else Min(1.0, confidence + Min(0.3, 0.15 * (n - 1) as real))
  }

  function Clamp(x: real): real { if x < 0.0 then 0.0 else if x > 1.0 then 1.0 else x }

  /** The advisory once a quote has been chosen. */
  function Conclude(p: Policy, chosen: Quote, usable: seq<Quote>, move: Option<Signal>, ctx: Context): Advisory {
    var reading := Interpret(p, chosen, ctx);
    var proposal := if move.Some? then ConsiderMove(p, move.value, chosen) else None;
    var outcome := if proposal.Some? then proposal.value else reading;
    Advisory(outcome.0, Clamp(Corroborated(outcome.1, usable)), Some(chosen), move)
  }

  const NOTHING := Advisory(Abstain, 0.0, None, None)

  /** The move the gated history attests; `Err` is the detector raising. */
  function AttestedMove(p: Policy, history: seq<Quote>, usable: seq<Quote>, liveness: seq<Reading>, ctx: Context): Result<Option<Signal>, Raised> {
    match MoveOf(UsableHistory(p, history, liveness, ctx), DEFAULT_RULE)
    case Invalid => Err(InvalidSignal)
    case NoMove => Ok(None)
    case Moved(signal) => Ok(Attested(signal, usable))
  }

  /** `decide_instrument` under a policy. */
  function Decide(p: Policy, e: Evidence, liveness: seq<Reading>, ctx: Context): Result<Advisory, Raised> {
    var usable := Usable(p, e.observations, liveness, ctx);
    if usable == [] then Ok(NOTHING)
    else
      var chosen := Reconcile(p, usable);
      if chosen.None? || PriceBasis(p, chosen.value, ctx.session).None? then Ok(NOTHING)
      else
        var move := AttestedMove(p, e.history, usable, liveness, ctx);
        if move.Err? then Err(move.error) else Ok(Conclude(p, chosen.value, usable, move.value, ctx))
  }

  method GateObservations(p: Policy, observations: seq<Quote>, liveness: seq<Reading>, ctx: Context) returns (usable: seq<Quote>)
    ensures usable == Usable(p, observations, liveness, ctx)
  {
    usable := [];
    for i := 0 to |observations|
      invariant usable == Usable(p, observations[..i], liveness, ctx)
    {
      assert observations[..i + 1][..i] == observations[..i];
      if UsableNow(p, observations[i], liveness, ctx) {
        usable := usable + [observations[i]];
      }
    }
    assert observations[..|observations|] == observations;
  }

  /** The reading of the chosen quote, rebound by a proposal if the move earns one. */
  method ConcludeFor(p: Policy, chosen: Quote, usable: seq<Quote>, move: Option<Signal>, ctx: Context) returns (a: Advisory)
    ensures a == Conclude(p, chosen, usable, move, ctx)
  {
    var outcome := Interpret(p, chosen, ctx);
    if move.Some? {
      var proposal := ConsiderMove(p, move.value, chosen);
      if proposal.Some? {
        outcome := proposal.value;
      }
    }
    a := Advisory(outcome.0, Clamp(Corroborated(outcome.1, usable)), Some(chosen), move);
  }

  /** The pipeline at work: gate, reconcile, interpret, and only then look at the history. */
  method DecideInstrument(p: Policy, e: Evidence, liveness: seq<Reading>, ctx: Context) returns (r: Result<Advisory, Raised>)
    ensures r == Decide(p, e, liveness, ctx)
  {
    var usable := GateObservations(p, e.observations, liveness, ctx);
    if usable == [] {
      return Ok(NOTHING);
    }
    var chosen := Reconcile(p, usable);
    if chosen.None? || PriceBasis(p, chosen.value, ctx.session).None? {
      return Ok(NOTHING);
    }
    var history := GateHistory(p, e.history, liveness, ctx);
    var detected := SustainedMove(history, DEFAULT_RULE);
    if detected.Invalid? {
      return Err(InvalidSignal);
    }
    var move := if detected.Moved? then Attested(detected.signal, usable) else None;
    var advisory := ConcludeFor(p, chosen.value, usable, move, ctx);
    return Ok(advisory);
  }

  method GateHistory(p: Policy, history: seq<Quote>, liveness: seq<Reading>, ctx: Context) returns (usable: seq<Quote>)
    ensures usable == UsableHistory(p, history, liveness, ctx)
  {
    usable := [];
    for i := 0 to |history|
      invariant usable == UsableHistory(p, history[..i], liveness, ctx)
    {
      assert history[..i + 1][..i] == history[..i];
      if HistoryGate(p, history[i], liveness, ctx).None? {
        usable := usable + [history[i]];
      }
    }
    assert history[..|history|] == history;
  }

  // ----- What a proposal rests on --------------------------------------------------------------

  /** Some price, and no bid above an ask. */
  predicate WellFormed(q: Quote) {
    && (q.last.Some? || q.bid.Some? || q.ask.Some? || q.nav.Some?)
    && (q.bid.Some? && q.ask.Some? ==> q.bid.value <= q.ask.value)
  }

  /** From a venue that is live, where the policy asks for that; the spot policy always does. */
  ghost predicate FromLiveVenue(p: Policy, q: Quote, liveness: seq<Reading>, ctx: Context) {
    p.Crypto? || p.requiresLiveness ==> q.source.Some? && VenueAlive(q.source.value, liveness, ctx)
  }

  /** A current quote: well formed, neither from the future nor stale, from a live venue where that is required. */
  ghost predicate SoundQuote(p: Policy, q: Quote, liveness: seq<Reading>, ctx: Context) {
    WellFormed(q) && 0 <= ctx.now - q.observedAt <= ctx.window * 1_000_000 && FromLiveVenue(p, q, liveness, ctx)
  }

  /** A historical print that may describe the present. */
  ghost predicate SoundPrint(p: Policy, q: Quote, liveness: seq<Reading>, ctx: Context) {
    WellFormed(q) && 0 <= ctx.now - q.observedAt <= ctx.historyWindow * 1_000_000 && FromLiveVenue(p, q, liveness, ctx)
  }

  function RequiredVenues(p: Policy): nat { if p.IndexFund? then 1 else 2 }

  /** A sound print of this venue is in the history. */
  ghost predicate Printed(v: string, p: Policy, e: Evidence, liveness: seq<Reading>, ctx: Context) {
    exists q :: q in e.history && SoundPrint(p, q, liveness, ctx) && q.source == Some(v)
  }

  /** The named venues with both a sound print in the history and a sound current quote. */
  ghost function Attesting(p: Policy, e: Evidence, liveness: seq<Reading>, ctx: Context): set<string> {
    set q | q in e.observations && SoundQuote(p, q, liveness, ctx) && q.source.Some? && q.source.value != "" &&
            Printed(q.source.value, p, e, liveness, ctx) :: q.source.value
  }

  /** The series rose by this share of its first price, or fell by it, and held. */
  predicate MovedBy(s: seq<Point>, rose: bool, share: real)
    requires s != []
  {
    if rose then RoseAndHeld(s, DEFAULT_RULE.minimumExcursion) && AtLeast(s[|s| - 1].1, 1.0 + share, s[0].1)
    else FellAndHeld(s, DEFAULT_RULE.minimumExcursion) && AtMost(s[|s| - 1].1, 1.0 - share, s[0].1)
  }

  /** The sound prints of a history, in its order. */
  ghost function SoundPrints(p: Policy, history: seq<Quote>, liveness: seq<Reading>, ctx: Context): seq<Quote> {
    if history == [] then []
    else
      var last := history[|history| - 1];
      SoundPrints(p, history[..|history| - 1], liveness, ctx) + if SoundPrint(p, last, liveness, ctx) then [last] else []
  }

  /**
   A series is grounds to propose: long enough, moved by the policy's threshold from first to last, and held;
   enough venues attest it; and an equity moved by at least its spread.
   */
  predicate Grounds(p: Policy, s: seq<Point>, venues: nat, chosen: Quote, rose: bool) {
    && LongEnough(s, DEFAULT_RULE) && MovedBy(s, rose, p.proposeThreshold) && venues >= RequiredVenues(p)
    && (p.Equity? ==> chosen.bid.Some? && chosen.ask.Some? && WorthTheSpread(s[0].1, s[|s| - 1].1, chosen.bid.value, chosen.ask.value))
  }

  /** What a proposal rests on: the series of the sound prints, and the venues that attest it. */
  ghost predicate MoveGrounds(p: Policy, e: Evidence, chosen: Quote, rose: bool, liveness: seq<Reading>, ctx: Context) {
    Grounds(p, Series(SoundPrints(p, e.history, liveness, ctx)), |Attesting(p, e, liveness, ctx)|, chosen, rose)
  }

  /** The move is at least twice the half-spread, as fractions of the first price and of the middle of the book. */
  predicate WorthTheSpread(first: Price, last: Price, bid: Price, ask: Price) {
    Abs(last - first) * (ask + bid) >= 2.0 * (ask - bid) * first
  }

  lemma UsableIsSound(p: Policy, q: Quote, liveness: seq<Reading>, ctx: Context)
    requires UsableNow(p, q, liveness, ctx)
    ensures SoundQuote(p, q, liveness, ctx)
  {
    if NeedsLiveness(p) {
      VenueGateExactly(q.source, liveness, ctx);
    }
  }

  /** The evidence gate lets through every sound quote, and nothing else. */
  lemma EvidenceGateExactly(p: Policy, q: Quote, liveness: seq<Reading>, ctx: Context)
    ensures UsableNow(p, q, liveness, ctx) <==> SoundQuote(p, q, liveness, ctx)
  {
    VenueGateExactly(q.source, liveness, ctx);
  }

  /** The history gate lets through every sound print, and nothing else. */
  lemma HistoryGateExactly(p: Policy, q: Quote, liveness: seq<Reading>, ctx: Context)
    ensures HistoryGate(p, q, liveness, ctx).None? <==> SoundPrint(p, q, liveness, ctx)
  {
    VenueGateExactly(q.source, liveness, ctx);
  }

  lemma PrintIsSound(p: Policy, q: Quote, liveness: seq<Reading>, ctx: Context)
    requires HistoryGate(p, q, liveness, ctx).None?
    ensures SoundPrint(p, q, liveness, ctx)
  {
    if NeedsLiveness(p) {
      VenueGateExactly(q.source, liveness, ctx);
    }
  }

  lemma ProposalNeeds(p: Policy, signal: Signal, q: Quote)
    requires ConsiderMove(p, signal, q).Some?
    ensures signal.magnitude >= p.proposeThreshold && !IsReversal(signal)
    ensures !p.IndexFund? ==> signal.venueCount >= 2
    ensures ConsiderMove(p, signal, q).value.0 == if signal.direction == Up then Increase else Reduce
  {
  }

  lemma {:induction false} UsableAreSound(p: Policy, history: seq<Quote>, liveness: seq<Reading>, ctx: Context)
    ensures UsableHistory(p, history, liveness, ctx) == SoundPrints(p, history, liveness, ctx)
  {
    if history != [] {
      UsableAreSound(p, history[..|history| - 1], liveness, ctx);
      HistoryGateExactly(p, history[|history| - 1], liveness, ctx);
    }
  }

  lemma PrintedMeans(v: string, p: Policy, e: Evidence, liveness: seq<Reading>, ctx: Context)
    ensures v in Sources(UsableHistory(p, e.history, liveness, ctx)) <==> Printed(v, p, e, liveness, ctx)
  {
    var series := UsableHistory(p, e.history, liveness, ctx);
    if v in Sources(series) {
      var i :| 0 <= i < |series| && Priced(series[i]) && series[i].source == Some(v);
      assert series[i] in series;
      HistoryGateExactly(p, series[i], liveness, ctx);
    }
    if Printed(v, p, e, liveness, ctx) {
      var q :| q in e.history && SoundPrint(p, q, liveness, ctx) && q.source == Some(v);
      HistoryGateExactly(p, q, liveness, ctx);
      assert q in series;
      var i :| 0 <= i < |series| && series[i] == q;
    }
  }

  lemma LiveMeans(v: string, p: Policy, e: Evidence, liveness: seq<Reading>, ctx: Context)
    ensures v in LiveNow(Usable(p, e.observations, liveness, ctx)) <==>
            v != "" && exists q :: q in e.observations && SoundQuote(p, q, liveness, ctx) && q.source == Some(v)
  {
    var usable := Usable(p, e.observations, liveness, ctx);
    if v in LiveNow(usable) {
      var i :| 0 <= i < |usable| && usable[i].source == Some(v);
      assert usable[i] in usable;
      EvidenceGateExactly(p, usable[i], liveness, ctx);
    }
    if q :| v != "" && q in e.observations && SoundQuote(p, q, liveness, ctx) && q.source == Some(v) {
      EvidenceGateExactly(p, q, liveness, ctx);
      assert q in usable;
      var i :| 0 <= i < |usable| && usable[i] == q;
    }
  }

  /** The venues counted are those that attest. */
  lemma AttestingVenues(p: Policy, e: Evidence, liveness: seq<Reading>, ctx: Context)
    ensures Sources(UsableHistory(p, e.history, liveness, ctx)) * LiveNow(Usable(p, e.observations, liveness, ctx)) ==
            Attesting(p, e, liveness, ctx)
  {
    var counted := Sources(UsableHistory(p, e.history, liveness, ctx)) * LiveNow(Usable(p, e.observations, liveness, ctx));
    forall v ensures v in counted <==> v in Attesting(p, e, liveness, ctx) {
      PrintedMeans(v, p, e, liveness, ctx);
      LiveMeans(v, p, e, liveness, ctx);
    }
  }

  /** Only a move can propose, and it speaks in its own direction. */
  lemma ConcludeProposes(p: Policy, chosen: Quote, usable: seq<Quote>, move: Option<Signal>, ctx: Context)
    requires var a := Conclude(p, chosen, usable, move, ctx).action; a == Increase || a == Reduce
    ensures move.Some? && ConsiderMove(p, move.value, chosen).Some?
    ensures Conclude(p, chosen, usable, move, ctx).action == ConsiderMove(p, move.value, chosen).value.0
  {
  }

  /** The parts of a decision that was reached. */
  lemma DecideParts(p: Policy, e: Evidence, liveness: seq<Reading>, ctx: Context)
    requires Decide(p, e, liveness, ctx).Ok? && Decide(p, e, liveness, ctx).value != NOTHING
    ensures var usable := Usable(p, e.observations, liveness, ctx);
            && usable != [] && Reconcile(p, usable).Some?
            && var move := AttestedMove(p, e.history, usable, liveness, ctx);
               move.Ok? && Decide(p, e, liveness, ctx).value == Conclude(p, Reconcile(p, usable).value, usable, move.value, ctx)
  {
  }

  lemma AttestedCount(signal: Signal, usable: seq<Quote>)
    ensures Attested(signal, usable).Some? <==> |signal.venues * LiveNow(usable)| >= 1
    ensures Attested(signal, usable).Some? ==>
              Attested(signal, usable).value == signal.(venueCount := |signal.venues * LiveNow(usable)|)
  {
    var venues := signal.venues * LiveNow(usable);
    if venues != {} {
      var v :| v in venues;
      assert |venues| == |venues - {v}| + 1;
    }
  }

  /** What one policy asks of a signal that `count` usable venues attest. */
  predicate Convincing(p: Policy, signal: Signal, count: nat, chosen: Quote) {
    && !IsReversal(signal) && signal.magnitude >= p.proposeThreshold && count >= RequiredVenues(p)
    && (p.Equity? ==> FractionalSpread(chosen).Some? && signal.magnitude >= FractionalSpread(chosen).value * 2.0)
  }

  lemma ConsiderExactly(p: Policy, signal: Signal, count: nat, chosen: Quote)
    requires count >= 1
    ensures ConsiderMove(p, signal.(venueCount := count), chosen).Some? <==> Convincing(p, signal, count, chosen)
  {
  }

  lemma ConcludeExactly(p: Policy, chosen: Quote, usable: seq<Quote>, signal: Signal, ctx: Context)
    ensures var a, convincing := Conclude(p, chosen, usable, Attested(signal, usable), ctx).action,
                                 Convincing(p, signal, |signal.venues * LiveNow(usable)|, chosen);
            (a == Increase <==> convincing && signal.direction == Up) && (a == Reduce <==> convincing && signal.direction == Down)
  {
    AttestedCount(signal, usable);
    if Attested(signal, usable).Some? {
      ConsiderExactly(p, signal, |signal.venues * LiveNow(usable)|, chosen);
    }
  }

  lemma SizeReaches(size: real, first: Price, last: Price, share: real)
    ensures size * first == last - first ==> (size >= share <==> AtLeast(last, 1.0 + share, first))
    ensures size * first == first - last ==> (size >= share <==> AtMost(last, 1.0 - share, first))
  {
    assert (1.0 + share) * first == first + share * first && (1.0 - share) * first == first - share * first;
    if size >= share {
      assert size * first >= share * first;
    } else {
      assert size * first < share * first;
    }
  }

  lemma SizePaysSpread(size: real, first: Price, last: Price, q: Quote)
    requires size * first == Abs(last - first) && FractionalSpread(q).Some?
    ensures size >= FractionalSpread(q).value * 2.0 <==> WorthTheSpread(first, last, q.bid.value, q.ask.value)
  {
    var bid: real, ask: real := q.bid.value, q.ask.value;
    var both: Price := ask + bid;
    var spread := FractionalSpread(q).value;
    assert spread * both == ask - bid by {
      var middle: Price := (ask + bid) / 2.0;
      QuotientTimes((ask - bid) / 2.0, middle);
      assert both == middle * 2.0;
    }
    TimesBoth(size, spread * 2.0, first, both);
    assert size * first * both == Abs(last - first) * both;
    assert spread * 2.0 * first * both == 2.0 * (spread * both) * first;
  }

  lemma TimesBoth(a: real, b: real, x: Price, y: Price)
    ensures a >= b <==> a * x * y >= b * x * y
  {
    if a >= b {
      assert a * x >= b * x;
      assert a * x * y >= b * x * y;
    } else {
      assert a * x < b * x;
      assert a * x * y < b * x * y;
    }
  }

  /** What one policy asks of a signal of this size, on the prices it was read from. */
  lemma ConvincingSize(p: Policy, signal: Signal, count: nat, chosen: Quote, first: Price, last: Price)
    requires signal.magnitude * first == Abs(last - first)
    requires (signal.direction == Up && last > first) || (signal.direction == Down && last < first)
    ensures Convincing(p, signal, count, chosen) <==>
            && count >= RequiredVenues(p)
            && (if signal.direction == Up then AtLeast(last, 1.0 + p.proposeThreshold, first) else AtMost(last, 1.0 - p.proposeThreshold, first))
            && (p.Equity? ==> chosen.bid.Some? && chosen.ask.Some? && WorthTheSpread(first, last, chosen.bid.value, chosen.ask.value))
  {
    SizeReaches(signal.magnitude, first, last, p.proposeThreshold);
    if FractionalSpread(chosen).Some? {
      SizePaysSpread(signal.magnitude, first, last, chosen);
    }
  }

  /** A signal convinces exactly when its series, on its prices, is grounds to propose. */
  lemma ConvincingMeans(p: Policy, o: Outcome, s: seq<Point>, count: nat, chosen: Quote)
    requires PlainFacts(o, s, DEFAULT_RULE)
    ensures o.Moved? && o.signal.direction == Up && Convincing(p, o.signal, count, chosen) <==> Grounds(p, s, count, chosen, true)
    ensures o.Moved? && o.signal.direction == Down && Convincing(p, o.signal, count, chosen) <==> Grounds(p, s, count, chosen, false)
  {
    if o.Moved? && (o.signal.direction == Up || o.signal.direction == Down) {
      ConvincingSize(p, o.signal, count, chosen, s[0].1, s[|s| - 1].1);
    }
  }

  lemma MoveDecides(p: Policy, e: Evidence, liveness: seq<Reading>, ctx: Context, o: Outcome)
    requires o == MoveOf(UsableHistory(p, e.history, liveness, ctx), DEFAULT_RULE)
    requires Decide(p, e, liveness, ctx).Ok? && Decide(p, e, liveness, ctx).value.chosen.Some?
    ensures var a, live := Decide(p, e, liveness, ctx).value, LiveNow(Usable(p, e.observations, liveness, ctx));
            && (a.action == Increase <==>
                o.Moved? && o.signal.direction == Up && Convincing(p, o.signal, |o.signal.venues * live|, a.chosen.value))
            && (a.action == Reduce <==>
                o.Moved? && o.signal.direction == Down && Convincing(p, o.signal, |o.signal.venues * live|, a.chosen.value))
  {
    DecideParts(p, e, liveness, ctx);
    var usable := Usable(p, e.observations, liveness, ctx);
    if o.Moved? {
      ConcludeExactly(p, Reconcile(p, usable).value, usable, o.signal, ctx);
    }
  }

  lemma VenuesOfMove(series: seq<Quote>, rule: Rule)
    requires MoveOf(series, rule).Moved?
    ensures MoveOf(series, rule).signal.venues == Sources(series)
  {
  }

  /** The outcome a decision rests on, and what it makes of it. */
  lemma DecisionMove(p: Policy, e: Evidence, liveness: seq<Reading>, ctx: Context) returns (o: Outcome)
    requires Decide(p, e, liveness, ctx).Ok? && Decide(p, e, liveness, ctx).value.chosen.Some?
    ensures PlainFacts(o, Series(SoundPrints(p, e.history, liveness, ctx)), DEFAULT_RULE)
    ensures var a, count := Decide(p, e, liveness, ctx).value, |Attesting(p, e, liveness, ctx)|;
            && (a.action == Increase <==> o.Moved? && o.signal.direction == Up && Convincing(p, o.signal, count, a.chosen.value))
            && (a.action == Reduce <==> o.Moved? && o.signal.direction == Down && Convincing(p, o.signal, count, a.chosen.value))
  {
    var series := UsableHistory(p, e.history, liveness, ctx);
    o := MoveOf(series, DEFAULT_RULE);
    MoveDecides(p, e, liveness, ctx, o);
    UsableAreSound(p, e.history, liveness, ctx);
    AttestingVenues(p, e, liveness, ctx);
    PlainFactsHold(series, DEFAULT_RULE);
    if o.Moved? {
      VenuesOfMove(series, DEFAULT_RULE);
    }
  }

  /** A decision proposes a change exactly when the sound prints of the history are grounds for it, upwards or downwards. */
  lemma ProposalExactly(p: Policy, e: Evidence, liveness: seq<Reading>, ctx: Context)
    requires Decide(p, e, liveness, ctx).Ok? && Decide(p, e, liveness, ctx).value.chosen.Some?
    ensures var a := Decide(p, e, liveness, ctx).value;
            && (a.action == Increase <==> MoveGrounds(p, e, a.chosen.value, true, liveness, ctx))
            && (a.action == Reduce <==> MoveGrounds(p, e, a.chosen.value, false, liveness, ctx))
  {
    var o := DecisionMove(p, e, liveness, ctx);
    ConvincingMeans(p, o, Series(SoundPrints(p, e.history, liveness, ctx)), |Attesting(p, e, liveness, ctx)|,
                    Decide(p, e, liveness, ctx).value.chosen.value);
  }

  /**
   An advisory to increase or reduce always rests on a sound current quote and on sound prints that moved
   that way by at least the policy's threshold and held, attested by enough venues.
   */
  lemma ProposalGrounds(p: Policy, e: Evidence, liveness: seq<Reading>, ctx: Context)
    requires Decide(p, e, liveness, ctx).Ok?
    requires var a := Decide(p, e, liveness, ctx).value.action; a == Increase || a == Reduce
    ensures var a := Decide(p, e, liveness, ctx).value;
            && a.chosen.Some? && a.chosen.value in e.observations && SoundQuote(p, a.chosen.value, liveness, ctx)
            && MoveGrounds(p, e, a.chosen.value, a.action == Increase, liveness, ctx)
  {
    DecideParts(p, e, liveness, ctx);
    UsableIsSound(p, Reconcile(p, Usable(p, e.observations, liveness, ctx)).value, liveness, ctx);
    ProposalExactly(p, e, liveness, ctx);
  }

  /** Once a quote is chosen, the action is the move's proposal if there is one, and otherwise what the quote supports. */
  lemma ProposalOverridesReading(p: Policy, e: Evidence, liveness: seq<Reading>, ctx: Context)
    requires Decide(p, e, liveness, ctx).Ok? && Decide(p, e, liveness, ctx).value.chosen.Some?
    ensures var a := Decide(p, e, liveness, ctx).value;
            a.action == if a.move.Some? && ConsiderMove(p, a.move.value, a.chosen.value).Some?
                        then ConsiderMove(p, a.move.value, a.chosen.value).value.0
                        else Interpret(p, a.chosen.value, ctx).0
  {
    DecideParts(p, e, liveness, ctx);
  }

  /** The history is grounds to propose one way or the other. */
  ghost predicate EarnsProposal(p: Policy, e: Evidence, chosen: Quote, liveness: seq<Reading>, ctx: Context) {
    MoveGrounds(p, e, chosen, true, liveness, ctx) || MoveGrounds(p, e, chosen, false, liveness, ctx)
  }

  /**
   What the chosen quote supports on its own, an abstention included, stands exactly when the gated
   history does not earn a proposal.
   */
  lemma ReadingStandsExactly(p: Policy, e: Evidence, liveness: seq<Reading>, ctx: Context)
    requires Decide(p, e, liveness, ctx).Ok? && Decide(p, e, liveness, ctx).value.chosen.Some?
    ensures var a := Decide(p, e, liveness, ctx).value;
            a.action == Interpret(p, a.chosen.value, ctx).0 <==> !EarnsProposal(p, e, a.chosen.value, liveness, ctx)
    ensures var a := Decide(p, e, liveness, ctx).value;
            Interpret(p, a.chosen.value, ctx).0 == Abstain ==>
              (a.action == Abstain <==> !EarnsProposal(p, e, a.chosen.value, liveness, ctx))
  {
    ProposalOverridesReading(p, e, liveness, ctx);
    ProposalExactly(p, e, liveness, ctx);
    var a := Decide(p, e, liveness, ctx).value;
    if a.move.Some? && ConsiderMove(p, a.move.value, a.chosen.value).Some? {
      ProposalNeeds(p, a.move.value, a.chosen.value);
    }
  }

  // ----- An abstention that is overridden --------------------------------------------------------

  /** A last trade ten percent away from the fund's net asset value. */
  const TORN := Quote(Some(110.0), None, None, Some(100.0), 400_000_000, Some("tape"))

  const CLIMB := [LastTrade(100.0, 0), LastTrade(105.0, 200_000_000), LastTrade(110.0, 400_000_000)]

  /** The fund policy with the thresholds it ships with. */
  const FUND := IndexFund(false, 0.03, 0.001, 0.01)

  const MIDSESSION := Context(400_000_000, Calendar.Regular, 300, 86_400, 900, _ => false)

  lemma ClimbIsUp()
    ensures MoveOf(CLIMB, DEFAULT_RULE).Moved?
    ensures var s := MoveOf(CLIMB, DEFAULT_RULE).signal;
            s.direction == Up && s.magnitude == 0.1 && "tape" in s.venues
  {
    ClimbShape();
    ThreeClimbing(LastTrade(100.0, 0), LastTrade(105.0, 200_000_000), LastTrade(110.0, 400_000_000), DEFAULT_RULE, 0.1);
    assert CLIMB[0].source == Some("tape") && Priced(CLIMB[0]);
  }

  lemma ClimbShape()
    ensures ShapeOf(100.0, 110.0, 110.0, 100.0, 0.02) == Shape(Up, 0.1, None)
  {
  }

  lemma TornAbstains()
    ensures Interpret(FUND, TORN, MIDSESSION).0 == Abstain
    ensures UsableNow(FUND, TORN, [], MIDSESSION)
  {
  }

  lemma ClimbIsUsable()
    ensures UsableHistory(FUND, CLIMB, [], MIDSESSION) == CLIMB
  {
    assert CLIMB[..2][..1] == CLIMB[..1] && CLIMB[..1][..0] == [];
    assert CLIMB[..3] == CLIMB && CLIMB[..3][..2] == CLIMB[..2];
    assert UsableHistory(FUND, CLIMB[..1], [], MIDSESSION) == CLIMB[..1];
    assert UsableHistory(FUND, CLIMB[..2], [], MIDSESSION) == CLIMB[..2];
  }

  lemma DecideFromOne(p: Policy, q: Quote, history: seq<Quote>, ctx: Context, move: Option<Signal>)
    requires p.IndexFund? && PriceBasis(p, q, ctx.session).Some?
    requires Usable(p, [q], [], ctx) == [q] && AttestedMove(p, history, [q], [], ctx) == Ok(move)
    ensures Decide(p, Evidence([q], history), [], ctx) == Ok(Conclude(p, q, [q], move, ctx))
  {
  }

  lemma FollowsClimb(p: Policy, q: Quote, signal: Signal, ctx: Context)
    requires p.IndexFund? && signal.direction == Up && signal.magnitude >= p.proposeThreshold
    ensures Conclude(p, q, [q], Some(signal), ctx).action == Increase && Conclude(p, q, [q], Some(signal), ctx).chosen == Some(q)
  {
  }

  lemma OnlyUsable(p: Policy, q: Quote, ctx: Context)
    requires UsableNow(p, q, [], ctx)
    ensures Usable(p, [q], [], ctx) == [q]
  {
    assert [q][..0] == [];
  }

  /** A fund decision from one usable quote with a price, on a history that moved up far enough. */
  lemma OneQuoteFollowsMove(p: Policy, q: Quote, history: seq<Quote>, ctx: Context, venue: string)
    requires p.IndexFund? && UsableNow(p, q, [], ctx) && PriceBasis(p, q, ctx.session).Some? && q.source == Some(venue) && venue != ""
    requires var o := MoveOf(UsableHistory(p, history, [], ctx), DEFAULT_RULE);
             o.Moved? && o.signal.direction == Up && o.signal.magnitude >= p.proposeThreshold && venue in o.signal.venues
    ensures var d := Decide(p, Evidence([q], history), [], ctx);
            d.Ok? && d.value.chosen == Some(q) && d.value.action == Increase
  {
    OnlyUsable(p, q, ctx);
    var signal := MoveOf(UsableHistory(p, history, [], ctx), DEFAULT_RULE).signal;
    VenueAttests(signal, q, venue);
    DecideFromOne(p, q, history, ctx, Attested(signal, [q]));
    FollowsClimb(p, q, Attested(signal, [q]).value, ctx);
  }

  lemma VenueAttests(signal: Signal, q: Quote, venue: string)
    requires q.source == Some(venue) && venue != "" && venue in signal.venues
    ensures Attested(signal, [q]).Some? && Attested(signal, [q]).value.direction == signal.direction
    ensures Attested(signal, [q]).value.magnitude == signal.magnitude
  {
    assert [q][0].source == Some(venue);
    assert venue in signal.venues * LiveNow([q]);
  }

  /** The chosen quote says abstain, its price being torn from the net asset value; the climb overrides it. */
  lemma AbstentionOverridden()
    ensures var d := Decide(FUND, Evidence([TORN], CLIMB), [], MIDSESSION);
            d.Ok? && d.value.chosen == Some(TORN) && d.value.action == Increase
    ensures Interpret(FUND, TORN, MIDSESSION).0 == Abstain
  {
    TornAbstains();
    ClimbIsUp();
    ClimbIsUsable();
    OneQuoteFollowsMove(FUND, TORN, CLIMB, MIDSESSION, "tape");
  }

  // ----- When the decision raises ------------------------------------------------------------------

  lemma MoveRaises(p: Policy, history: seq<Quote>, usable: seq<Quote>, liveness: seq<Reading>, ctx: Context)
    ensures AttestedMove(p, history, usable, liveness, ctx).Err? <==>
            MoveOf(UsableHistory(p, history, liveness, ctx), DEFAULT_RULE).Invalid?
  {
  }

  /** A quote is chosen, and it has the price field the policy judges. */
  predicate Chooses(p: Policy, usable: seq<Quote>, ctx: Context) {
    usable != [] && Reconcile(p, usable).Some? && PriceBasis(p, Reconcile(p, usable).value, ctx.session).Some?
  }

  lemma DecideRaises(p: Policy, e: Evidence, liveness: seq<Reading>, ctx: Context)
    ensures var usable := Usable(p, e.observations, liveness, ctx);
            Decide(p, e, liveness, ctx).Err? <==>
            Chooses(p, usable, ctx) && AttestedMove(p, e.history, usable, liveness, ctx).Err?
  {
  }

  /** The series is long enough, and a reversal that kept more than it gave back. */
  predicate KeepsMost(s: seq<Point>) {
    LongEnough(s, DEFAULT_RULE) && SmallReversal(s[0].1, s[|s| - 1].1, Peak(s), Trough(s), DEFAULT_RULE.minimumExcursion)
  }

  /**
   The decision raises exactly when a usable quote with a price basis is chosen and the gated history is a
   reversal that kept more than it gave back, whose excursion ratio no signal may carry.
   */
  lemma DecideRaisesExactly(p: Policy, e: Evidence, liveness: seq<Reading>, ctx: Context)
    ensures Decide(p, e, liveness, ctx).Err? <==>
            Chooses(p, Usable(p, e.observations, liveness, ctx), ctx) && KeepsMost(Series(UsableHistory(p, e.history, liveness, ctx)))
  {
    DecideRaises(p, e, liveness, ctx);
    MoveRaises(p, e.history, Usable(p, e.observations, liveness, ctx), liveness, ctx);
    InvalidExactly(UsableHistory(p, e.history, liveness, ctx), DEFAULT_RULE);
  }

  const EASING := [LastTrade(100.0, 0), LastTrade(120.0, 300_000_000), LastTrade(115.0, 600_000_000)]

  const CURRENT := LastTrade(115.0, 600_000_000)

  const LATER := Context(600_000_000, Calendar.Regular, 300, 86_400, 900, _ => false)

  lemma EasingIsUsable()
    ensures UsableHistory(FUND, EASING, [], LATER) == EASING
  {
    assert EASING[..2][..1] == EASING[..1] && EASING[..1][..0] == [];
    assert EASING[..3] == EASING && EASING[..3][..2] == EASING[..2];
    assert UsableHistory(FUND, EASING[..1], [], LATER) == EASING[..1];
    assert UsableHistory(FUND, EASING[..2], [], LATER) == EASING[..2];
  }

  lemma EasingIsInvalid()
    ensures MoveOf(EASING, DEFAULT_RULE) == Invalid
  {
    RiseThenEaseIsInvalid();
  }

  lemma CurrentIsUsable()
    ensures UsableNow(FUND, CURRENT, [], LATER) && PriceBasis(FUND, CURRENT, LATER.session).Some?
  {
  }

  lemma OneQuoteRaises(p: Policy, q: Quote, history: seq<Quote>, ctx: Context)
    requires p.IndexFund? && PriceBasis(p, q, ctx.session).Some? && UsableNow(p, q, [], ctx)
    requires MoveOf(UsableHistory(p, history, [], ctx), DEFAULT_RULE).Invalid?
    ensures Decide(p, Evidence([q], history), [], ctx) == Err(InvalidSignal)
  {
    OnlyUsable(p, q, ctx);
    ChoosesOnly(p, q, ctx);
    MoveRaises(p, history, [q], [], ctx);
    DecideRaises(p, Evidence([q], history), [], ctx);
  }

  lemma ChoosesOnly(p: Policy, q: Quote, ctx: Context)
    requires p.IndexFund? && PriceBasis(p, q, ctx.session).Some?
    ensures Chooses(p, [q], ctx)
  {
  }

  /** A fund quoted at 115 after 100, 120 and 115: no advisory, an error. */
  lemma RiseThenEaseRaises()
    ensures Decide(FUND, Evidence([CURRENT], EASING), [], LATER) == Err(InvalidSignal)
  {
    EasingIsInvalid();
    EasingIsUsable();
    CurrentIsUsable();
    OneQuoteRaises(FUND, CURRENT, EASING, LATER);
  }

  /** Confidence stays a probability, however many venues agree. */
  lemma ConfidenceBounded(p: Policy, e: Evidence, liveness: seq<Reading>, ctx: Context)
    requires Decide(p, e, liveness, ctx).Ok?
    ensures 0.0 <= Decide(p, e, liveness, ctx).value.confidence <= 1.0
  {
    if Decide(p, e, liveness, ctx).value != NOTHING {
      DecideParts(p, e, liveness, ctx);
    }
  }
}
