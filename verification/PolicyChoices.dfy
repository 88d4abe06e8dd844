/**
 What the three asset policies choose and read, in terms of the quotes: which observation they act on or
 that they decline, and what one quote supports.
 */
module PolicyChoices {
  import opened Wrappers
  import opened Order
  import opened SustainedMoves
  import opened MarketDecision
  import Calendar

  // ----- What the policies choose --------------------------------------------------------------

  /** At least two of the quotes have a value. */
  ghost predicate Several(value: Quote -> Option<Price>, qs: seq<Quote>) {
    exists i, j :: 0 <= i < j < |qs| && value(qs[i]).Some? && value(qs[j]).Some?
  }

  /** Two of the values differ by more than the tolerated fraction of the lower. */
  ghost predicate Disagree(value: Quote -> Option<Price>, qs: seq<Quote>, tolerance: real) {
    exists a, b :: a in qs && b in qs && Exceeds(value, a, b, tolerance)
  }

  predicate Exceeds(value: Quote -> Option<Price>, a: Quote, b: Quote, tolerance: real) {
    value(a).Some? && value(b).Some? && Above(value(b).value, 1.0 + tolerance, value(a).value)
  }

  ghost predicate IsLow(value: Quote -> Option<Price>, qs: seq<Quote>, low: Price) {
    && (exists q :: q in qs && value(q) == Some(low))
    && (forall q :: q in qs && value(q).Some? ==> low <= value(q).value)
  }

  ghost predicate IsHigh(value: Quote -> Option<Price>, qs: seq<Quote>, high: Price) {
    && (exists q :: q in qs && value(q) == Some(high))
    && (forall q :: q in qs && value(q).Some? ==> value(q).value <= high)
  }

  /** How far a value is from the middle of the extremes, doubled. */
  function OffCentre(x: Price, low: Price, high: Price): real {
    if 2.0 * x >= low + high then 2.0 * x - (low + high) else low + high - 2.0 * x
  }

  /** The source of `b` sorts before that of `a`; a missing source sorts like an empty one, before all others. */
  predicate SourceBefore(b: Quote, a: Quote) {
    a.source.Some? && if b.source.Some? then StringLess(b.source.value, a.source.value) else a.source.value != ""
  }

  /** `b` is preferred to `a`: nearer the middle, or as near with the smaller source. */
  predicate Beats(value: Quote -> Option<Price>, b: Quote, a: Quote, low: Price, high: Price)
    requires value(a).Some? && value(b).Some?
  {
    var x, y := OffCentre(value(b).value, low, high), OffCentre(value(a).value, low, high);
    x < y || (x == y && SourceBefore(b, a))
  }

  /** The `i`-th quote has a value, no other beats it, and it beats or precedes those that it does not. */
  ghost predicate NearestAt(value: Quote -> Option<Price>, qs: seq<Quote>, i: nat, low: Price, high: Price)
    requires i < |qs|
  {
    && value(qs[i]).Some?
    && (forall j :: 0 <= j < |qs| && value(qs[j]).Some? ==> !Beats(value, qs[j], qs[i], low, high))
    && (forall j :: 0 <= j < i && value(qs[j]).Some? ==> Beats(value, qs[i], qs[j], low, high))
  }

  /** The quote nearest the middle of the extremes, the first listed of several as near with one source. */
  ghost predicate IsNearest(value: Quote -> Option<Price>, qs: seq<Quote>, chosen: Quote) {
    exists i, low, high :: 0 <= i < |qs| && IsLow(value, qs, low) && IsHigh(value, qs, high) &&
      qs[i] == chosen && NearestAt(value, qs, i, low, high)
  }

  lemma {:induction false} LowestIsLeast(ps: seq<Price>)
    requires ps != []
    ensures Lowest(ps) in ps && Highest(ps) in ps
    ensures forall p :: p in ps ==> Lowest(ps) <= p <= Highest(ps)
  {
    if |ps| > 1 {
      LowestIsLeast(ps[1..]);
      assert forall p :: p in ps <==> p == ps[0] || p in ps[1..];
    }
  }

  lemma {:induction false} ValuesMembers(value: Quote -> Option<Price>, qs: seq<Quote>)
    ensures forall p :: p in Values(value, qs) <==> exists q :: q in qs && value(q) == Some(p)
  {
    if qs != [] {
      ValuesMembers(value, qs[1..]);
      forall p: Price ensures p in Values(value, qs) <==> exists q :: q in qs && value(q) == Some(p) {
        assert forall q :: q in qs <==> q == qs[0] || q in qs[1..];
      }
    }
  }

  lemma {:induction false} ValuesCount(value: Quote -> Option<Price>, qs: seq<Quote>)
    ensures |Values(value, qs)| >= 1 <==> exists i :: 0 <= i < |qs| && value(qs[i]).Some?
    ensures |Values(value, qs)| >= 2 <==> Several(value, qs)
  {
    if qs != [] {
      var rest := qs[1..];
      ValuesCount(value, rest);
      if i :| 0 <= i < |rest| && value(rest[i]).Some? {
        assert value(qs[i + 1]).Some?;
        if value(qs[0]).Some? {
          assert Several(value, qs);
        }
      }
      if Several(value, rest) {
        var i, j :| 0 <= i < j < |rest| && value(rest[i]).Some? && value(rest[j]).Some?;
        assert value(qs[i + 1]).Some? && value(qs[j + 1]).Some?;
      }
      if Several(value, qs) {
        var i, j :| 0 <= i < j < |qs| && value(qs[i]).Some? && value(qs[j]).Some?;
        assert value(rest[j - 1]).Some?;
        if i > 0 {
          assert value(rest[i - 1]).Some?;
        }
      }
      if i :| 0 <= i < |qs| && value(qs[i]).Some? {
        if i > 0 {
          assert value(rest[i - 1]).Some?;
        }
      }
    }
  }

  lemma ExtremesOf(value: Quote -> Option<Price>, qs: seq<Quote>)
    requires Values(value, qs) != []
    ensures IsLow(value, qs, Lowest(Values(value, qs))) && IsHigh(value, qs, Highest(Values(value, qs)))
  {
    var ps := Values(value, qs);
    LowestIsLeast(ps);
    ValuesMembers(value, qs);
    forall q | q in qs && value(q).Some? ensures Lowest(ps) <= value(q).value <= Highest(ps) {
      assert value(q).value in ps;
    }
  }

  lemma FractionOver(low: Price, high: Price, t: real)
    ensures (high - low) / low > t <==> Above(high, 1.0 + t, low)
  {
    ShareOf(low, high, t);
  }

  lemma SpreadExceeds(value: Quote -> Option<Price>, qs: seq<Quote>, tolerance: real, low: Price, high: Price)
    requires IsLow(value, qs, low) && IsHigh(value, qs, high)
    ensures Above(high, 1.0 + tolerance, low) <==> Disagree(value, qs, tolerance)
  {
    var x :| x in qs && value(x) == Some(low);
    var y :| y in qs && value(y) == Some(high);
    if Above(high, 1.0 + tolerance, low) {
      assert Exceeds(value, x, y, tolerance);
    }
    if Disagree(value, qs, tolerance) {
      var a, b :| a in qs && b in qs && Exceeds(value, a, b, tolerance);
      AboveLower(value(b).value, 1.0 + tolerance, low, value(a).value);
    }
  }

  lemma SpreadMeans(value: Quote -> Option<Price>, qs: seq<Quote>, tolerance: real)
    requires Values(value, qs) != []
    ensures Spread(Values(value, qs)) > tolerance <==> Disagree(value, qs, tolerance)
  {
    ExtremesOf(value, qs);
    FractionOver(Lowest(Values(value, qs)), Highest(Values(value, qs)), tolerance);
    SpreadExceeds(value, qs, tolerance, Lowest(Values(value, qs)), Highest(Values(value, qs)));
  }

  function Middle(low: Price, high: Price): real { (low + high) / 2.0 }

  lemma DistanceDoubled(x: Price, low: Price, high: Price)
    ensures Abs(x - Middle(low, high)) * 2.0 == OffCentre(x, low, high)
  {
  }

  lemma NearerMeans(value: Quote -> Option<Price>, low: Price, high: Price, b: Quote, a: Quote)
    requires value(a).Some? && value(b).Some?
    ensures NearerThan(value, Middle(low, high), b, a) <==> Beats(value, b, a, low, high)
  {
    DistanceDoubled(value(a).value, low, high);
    DistanceDoubled(value(b).value, low, high);
  }

  lemma BeatsTransitive(value: Quote -> Option<Price>, c: Quote, b: Quote, a: Quote, low: Price, high: Price)
    requires value(a).Some? && value(b).Some? && value(c).Some?
    ensures Beats(value, c, b, low, high) && Beats(value, b, a, low, high) ==> Beats(value, c, a, low, high)
    ensures Beats(value, c, b, low, high) && !Beats(value, a, b, low, high) ==> Beats(value, c, a, low, high)
    ensures !Beats(value, a, a, low, high)
  {
    StringLessFacts(SourceName(a), SourceName(b), SourceName(c));
  }

  lemma StringLessFacts(a: string, b: string, c: string)
    ensures StringLess(c, b) && StringLess(b, a) ==> StringLess(c, a)
    ensures StringLess(c, b) && !StringLess(a, b) ==> StringLess(c, a)
    ensures !StringLess(a, a)
  {
    StringLeqTotal(a, b);
    StringLeqTotal(b, a);
    if StringLeq(c, b) && StringLeq(b, a) {
      StringLeqTransitive(c, b, a);
      if a == c {
        StringLeqAntisymmetric(b, c);
      }
    }
  }

  /** Choosing the nearest of the values, over all prefixes. */
  lemma {:induction false} NearestMeans(value: Quote -> Option<Price>, qs: seq<Quote>, low: Price, high: Price) returns (i: nat)
    requires exists q :: q in qs && value(q).Some?
    ensures i < |qs| && NearestAt(value, qs, i, low, high) && Nearest(value, Middle(low, high), qs) == Some(qs[i])
  {
    var n := |qs| - 1;
    var front, last := qs[..n], qs[n];
    assert forall q :: q in qs <==> q in front || q == last;
    if exists q :: q in front && value(q).Some? {
      var k := NearestMeans(value, front, low, high);
      i := NearestExtended(value, qs, k, low, high);
    } else {
      i := n;
      assert Nearest(value, Middle(low, high), front).None?;
      forall j | 0 <= j < n ensures value(qs[j]).None? {
        assert qs[j] in front;
      }
      StringLessFacts(SourceName(last), SourceName(last), SourceName(last));
    }
  }

  lemma NearestExtended(value: Quote -> Option<Price>, qs: seq<Quote>, k: nat, low: Price, high: Price) returns (i: nat)
    requires qs != [] && k < |qs| - 1 && NearestAt(value, qs[..|qs| - 1], k, low, high)
    requires Nearest(value, Middle(low, high), qs[..|qs| - 1]) == Some(qs[k])
    ensures i < |qs| && NearestAt(value, qs, i, low, high) && Nearest(value, Middle(low, high), qs) == Some(qs[i])
  {
    var n := |qs| - 1;
    var front, last := qs[..n], qs[n];
    if value(last).None? {
      i := k;
    } else {
      NearerMeans(value, low, high, last, qs[k]);
      i := if Beats(value, last, qs[k], low, high) then n else k;
      forall j | 0 <= j < n && value(qs[j]).Some?
        ensures Beats(value, last, qs[k], low, high) ==> Beats(value, last, qs[j], low, high) && !Beats(value, qs[j], last, low, high)
      {
        assert front[j] == qs[j];
        BeatsTransitive(value, last, qs[k], qs[j], low, high);
        BeatsTransitive(value, qs[j], last, qs[j], low, high);
      }
      StringLessFacts(SourceName(last), SourceName(last), SourceName(last));
    }
  }

  lemma SomeValue(value: Quote -> Option<Price>, qs: seq<Quote>, low: Price)
    requires IsLow(value, qs, low)
    ensures exists q :: q in qs && value(q).Some?
  {
    var x :| x in qs && value(x) == Some(low);
    assert value(x).Some?;
  }

  lemma NearestAround(value: Quote -> Option<Price>, qs: seq<Quote>, low: Price, high: Price, r: Option<Quote>)
    requires IsLow(value, qs, low) && IsHigh(value, qs, high) && r == Nearest(value, Middle(low, high), qs)
    ensures r.Some? && IsNearest(value, qs, r.value)
  {
    SomeValue(value, qs, low);
    var i := NearestMeans(value, qs, low, high);
    NearestFound(value, qs, i, low, high);
  }

  lemma SameCentre(value: Quote -> Option<Price>, a: real, b: real, qs: seq<Quote>)
    requires a == b
    ensures Nearest(value, a, qs) == Nearest(value, b, qs)
  {
  }

  lemma CentreOf(ps: seq<Price>, low: Price, high: Price)
    requires ps != [] && low == Lowest(ps) && high == Highest(ps)
    ensures Centre(ps) == Middle(low, high)
  {
  }

  lemma NearestOfExtremes(value: Quote -> Option<Price>, qs: seq<Quote>, low: Price, high: Price, r: Option<Quote>)
    requires Values(value, qs) != [] && low == Lowest(Values(value, qs)) && high == Highest(Values(value, qs))
    requires r == Nearest(value, Middle(low, high), qs)
    ensures r.Some? && IsNearest(value, qs, r.value)
  {
    ExtremesOf(value, qs);
    NearestAround(value, qs, low, high, r);
  }

  lemma NearestIsNearest(value: Quote -> Option<Price>, qs: seq<Quote>)
    requires Values(value, qs) != []
    ensures var r := Nearest(value, Centre(Values(value, qs)), qs); r.Some? && IsNearest(value, qs, r.value)
  {
    var low, high := Lowest(Values(value, qs)), Highest(Values(value, qs));
    CentreOf(Values(value, qs), low, high);
    SameCentre(value, Centre(Values(value, qs)), Middle(low, high), qs);
    NearestOfExtremes(value, qs, low, high, Nearest(value, Middle(low, high), qs));
  }

  lemma NearestFound(value: Quote -> Option<Price>, qs: seq<Quote>, i: nat, low: Price, high: Price)
    requires i < |qs| && IsLow(value, qs, low) && IsHigh(value, qs, high) && NearestAt(value, qs, i, low, high)
    ensures IsNearest(value, qs, qs[i])
  {
  }

  /**
   The fund declines exactly when two last trades differ by more than the tolerance. Otherwise it acts on the
   last trade nearest the middle of the extremes, and with fewer than two last trades on the first quote.
   */
  lemma FundChooses(p: Policy, qs: seq<Quote>)
    requires p.IndexFund? && qs != []
    ensures Reconcile(p, qs).None? <==> Several(LastOf, qs) && Disagree(LastOf, qs, p.disagreement)
    ensures Several(LastOf, qs) && !Disagree(LastOf, qs, p.disagreement) ==>
              Reconcile(p, qs).Some? && IsNearest(LastOf, qs, Reconcile(p, qs).value)
    ensures !Several(LastOf, qs) ==> Reconcile(p, qs) == Some(qs[0])
  {
    ValuesCount(LastOf, qs);
    if Several(LastOf, qs) {
      SpreadMeans(LastOf, qs, p.disagreement);
      NearestIsNearest(LastOf, qs);
    }
  }

  /**
   The equity declines exactly when several quotes have fewer than two last trades, or two that differ by too much;
   otherwise it acts on the first.
   */
  lemma EquityChooses(p: Policy, qs: seq<Quote>)
    requires p.Equity? && qs != []
    ensures Reconcile(p, qs).None? <==> |qs| > 1 && (!Several(LastOf, qs) || Disagree(LastOf, qs, p.disagreement))
    ensures Reconcile(p, qs).Some? ==> Reconcile(p, qs).value == qs[0]
  {
    ValuesCount(LastOf, qs);
    if Several(LastOf, qs) {
      SpreadMeans(LastOf, qs, p.disagreement);
    }
  }

  /** All quotes come from one venue; a missing or empty source is the unnamed one. */
  ghost predicate SameVenue(qs: seq<Quote>) {
    forall a, b :: a in qs && b in qs ==> (Unnamed(a) && Unnamed(b)) || a.source == b.source ||
                                          (Unnamed(a) && b.source == Some("<unspecified>")) || (Unnamed(b) && a.source == Some("<unspecified>"))
  }

  predicate Unnamed(q: Quote) { q.source.None? || q.source.value == "" }

  lemma OneVenueMeans(qs: seq<Quote>)
    requires qs != []
    ensures OneVenue(qs) <==> SameVenue(qs)
  {
    if OneVenue(qs) {
      forall a, b | a in qs && b in qs ensures Venue(a) == Venue(b) {
        var i :| 0 <= i < |qs| && qs[i] == a;
        var j :| 0 <= j < |qs| && qs[j] == b;
      }
    }
    if SameVenue(qs) {
      forall i | 0 <= i < |qs| ensures Venue(qs[i]) == Venue(qs[0]) {
        assert qs[i] in qs && qs[0] in qs;
      }
    }
  }

  /** The middle of a quote: its last trade, or half way between its two sides. */
  lemma MidpointMeans(q: Quote)
    ensures q.last.Some? ==> Midpoint(q) == q.last
    ensures q.last.None? ==> (Midpoint(q).Some? <==> q.bid.Some? && q.ask.Some?)
    ensures q.last.None? && Midpoint(q).Some? ==> Midpoint(q).value - q.bid.value == q.ask.value - Midpoint(q).value
  {
  }

  /**
   The spot policy acts on the first quote of a single venue. Of several venues it declines exactly when fewer
   than two quotes have a middle or two middles differ by too much, and otherwise acts on the nearest one.
   */
  lemma CryptoChooses(p: Policy, qs: seq<Quote>)
    requires p.Crypto? && qs != []
    ensures SameVenue(qs) ==> Reconcile(p, qs) == Some(qs[0])
    ensures Reconcile(p, qs).None? <==> !SameVenue(qs) && (!Several(Midpoint, qs) || Disagree(Midpoint, qs, p.disagreement))
    ensures !SameVenue(qs) && Reconcile(p, qs).Some? ==> IsNearest(Midpoint, qs, Reconcile(p, qs).value)
  {
    OneVenueMeans(qs);
    ValuesCount(Midpoint, qs);
    if Several(Midpoint, qs) {
      SpreadMeans(Midpoint, qs, p.disagreement);
      NearestIsNearest(Midpoint, qs);
    }
  }

  /** Two current fund quotes ten percent apart: the tape is broken, and the policy declines. */
  lemma BrokenTapeDeclined()
    ensures var a, b := LastTrade(100.0, 0).(source := Some("a")), LastTrade(110.0, 0).(source := Some("b"));
            Reconcile(FUND, [a, b]).None?
  {
    var a, b := LastTrade(100.0, 0).(source := Some("a")), LastTrade(110.0, 0).(source := Some("b"));
    assert [a, b][0] == a && [a, b][1] == b;
    FundChooses(FUND, [a, b]);
    assert Several(LastOf, [a, b]) && Exceeds(LastOf, a, b, 0.001);
  }

  // ----- What one quote supports ---------------------------------------------------------------

  /** Two prices differ by at most this fraction of the second. */
  predicate Within(x: Price, y: Price, t: real) { AtMost(x - y, t, y) && AtMost(y - x, t, y) }

  lemma WithinMeans(x: Price, y: Price, t: real)
    ensures Abs(x - y) / y <= t <==> Within(x, y, t)
  {
    ShareOfAmount(Abs(x - y), y, t);
    if t < 0.0 {
      assert t * y < 0.0;
    }
  }

  /** The price a fund is judged by: the last trade in the session, the net asset value outside it when there is one. */
  function FundPrice(q: Quote, regular: bool): Option<Price> { if !regular && q.nav.Some? then q.nav else q.last }

  /** The price it is judged against: the other of the two, or else a side of the book. */
  function FundReference(q: Quote, regular: bool): Option<Price> {
    if regular || q.nav.None? then (if q.nav.Some? then q.nav else if q.bid.Some? then q.bid else q.ask)
    else if q.last.Some? then q.last
    else if q.bid.Some? then q.bid
    else q.ask
  }

  /**
   A fund quote says abstain exactly when it has no price, or when trade and net asset value are more than five
   percent apart; otherwise hold, most surely within the ordinary movement of its reference.
   */
  lemma FundReads(p: Policy, q: Quote, ctx: Context)
    requires p.IndexFund?
    ensures var price, reference := FundPrice(q, ctx.session.Regular?), FundReference(q, ctx.session.Regular?);
            var (action, confidence) := Interpret(p, q, ctx);
            && (action == Abstain <==> price.None? || (q.nav.Some? && q.last.Some? && !Within(q.last.value, q.nav.value, 0.05)))
            && (action == Abstain ==> confidence == 0.0)
            && (action != Abstain ==> action == Hold)
            && (action != Abstain ==> confidence == if reference.None? then 0.35 else if Within(price.value, reference.value, p.intradayMove) then 0.6 else 0.45)
  {
    var price, reference := FundPrice(q, ctx.session.Regular?), FundReference(q, ctx.session.Regular?);
    if q.nav.Some? && q.last.Some? {
      WithinMeans(q.last.value, q.nav.value, 0.05);
    }
    if price.Some? && reference.Some? {
      WithinMeans(price.value, reference.value, p.intradayMove);
    }
  }

  /**
   A spot quote says abstain exactly without a last trade, or with a book wider than five percent of its ask;
   otherwise hold, least surely with both sides present in liquid hours.
   */
  lemma CryptoReads(p: Policy, q: Quote, ctx: Context)
    requires p.Crypto?
    ensures var (action, confidence) := Interpret(p, q, ctx);
            && (action == Abstain <==> q.last.None? || (q.bid.Some? && q.ask.Some? && Below(q.bid.value, 0.95, q.ask.value)))
            && (action == Abstain ==> confidence == 0.0)
            && (action != Abstain ==> action == Hold)
            && (action != Abstain ==> confidence == if ctx.thin(q.observedAt) then 0.3 else if q.bid.None? || q.ask.None? then 0.25 else 0.2)
  {
    if q.bid.Some? && q.ask.Some? {
      ShareOfAmount(q.ask.value - q.bid.value, q.ask.value, 0.05);
    }
  }

  /** The half-spread of a book is more than this fraction of its middle. */
  predicate WideBook(bid: Price, ask: Price, t: real) { ask - bid > t * (ask + bid) }

  lemma HalfSpreadMeans(q: Quote, t: real)
    ensures FractionalSpread(q).Some? <==> q.bid.Some? && q.ask.Some?
    ensures FractionalSpread(q).Some? ==> (FractionalSpread(q).value > t <==> WideBook(q.bid.value, q.ask.value, t))
    ensures FractionalSpread(q).Some? ==> FractionalSpread(q).value * (q.ask.value + q.bid.value) == q.ask.value - q.bid.value
  {
    if q.bid.Some? && q.ask.Some? {
      var middle: Price := (q.ask.value + q.bid.value) / 2.0;
      ShareOfAmount((q.ask.value - q.bid.value) / 2.0, middle, t);
      QuotientTimes((q.ask.value - q.bid.value) / 2.0, middle);
    }
  }

  /** An equity quote always says hold: least surely in a wide book, most surely in a tight one with a named venue. */
  lemma EquityReads(p: Policy, q: Quote, ctx: Context)
    requires p.Equity?
    ensures Interpret(p, q, ctx) == (Hold,
              if !ctx.session.Regular? then 0.2
              else if q.bid.None? || q.ask.None? then 0.15
              else if WideBook(q.bid.value, q.ask.value, p.maxHalfSpread) then 0.1
              else if q.source.None? then 0.15
              else 0.25)
  {
    HalfSpreadMeans(q, p.maxHalfSpread);
  }

  // ----- Corroboration -------------------------------------------------------------------------

  /** What agreement adds: nothing alone, 0.15 for a second venue, 0.3 for three or more. */
  function Lift(venues: nat): real { if venues <= 1 then 0.0 else if venues == 2 then 0.15 else 0.3 }

  lemma CorroborationLifts(confidence: real, usable: seq<Quote>)
    requires 0.0 <= confidence <= 0.7
    ensures Clamp(Corroborated(confidence, usable)) == confidence + Lift(|Sources(usable)|)
  {
  }

  /** The confidence of a proposal before corroboration, by the size of the move. */
  function Proposed(p: Policy, size: real): real {
    match p
    case IndexFund(_, _, _, _) => Min(0.7, 0.4 + size)
    case Crypto(_, _) => Min(0.6, 0.3 + size)
    case Equity(_, _, _, _) => Min(0.5, 0.2 + size)
  }

  lemma ConcludedConfidence(p: Policy, chosen: Quote, usable: seq<Quote>, move: Option<Signal>, ctx: Context)
    requires move.Some? && ConsiderMove(p, move.value, chosen).Some? ==> move.value.magnitude >= 0.0
    ensures Conclude(p, chosen, usable, move, ctx).confidence ==
            (if move.Some? && ConsiderMove(p, move.value, chosen).Some? then Proposed(p, move.value.magnitude)
             else Interpret(p, chosen, ctx).1) + Lift(|Sources(usable)|)
    ensures var a := Conclude(p, chosen, usable, move, ctx).action;
            a == Increase || a == Reduce <==> move.Some? && ConsiderMove(p, move.value, chosen).Some?
  {
    var proposes := move.Some? && ConsiderMove(p, move.value, chosen).Some?;
    CorroborationLifts(if proposes then Proposed(p, move.value.magnitude) else Interpret(p, chosen, ctx).1, usable);
    if proposes {
      ProposalNeeds(p, move.value, chosen);
    }
  }

  /** The named venues among the sound current quotes. */
  ghost function Voices(p: Policy, e: Evidence, liveness: seq<Reading>, ctx: Context): set<string> {
    set q | q in e.observations && SoundQuote(p, q, liveness, ctx) && q.source.Some? :: q.source.value
  }

  lemma VoiceIsSource(v: string, p: Policy, e: Evidence, liveness: seq<Reading>, ctx: Context)
    ensures v in Sources(Usable(p, e.observations, liveness, ctx)) ==> v in Voices(p, e, liveness, ctx)
  {
    var usable := Usable(p, e.observations, liveness, ctx);
    if v in Sources(usable) {
      var i :| 0 <= i < |usable| && Priced(usable[i]) && usable[i].source == Some(v);
      var q := usable[i];
      assert q in usable;
      EvidenceGateExactly(p, q, liveness, ctx);
      assert q in e.observations && SoundQuote(p, q, liveness, ctx) && q.source == Some(v);
    }
  }

  lemma SourceIsVoice(v: string, p: Policy, e: Evidence, liveness: seq<Reading>, ctx: Context)
    ensures v in Voices(p, e, liveness, ctx) ==> v in Sources(Usable(p, e.observations, liveness, ctx))
  {
    var usable := Usable(p, e.observations, liveness, ctx);
    if v in Voices(p, e, liveness, ctx) {
      var q :| q in e.observations && SoundQuote(p, q, liveness, ctx) && q.source == Some(v);
      EvidenceGateExactly(p, q, liveness, ctx);
      assert q in usable;
      var i :| 0 <= i < |usable| && usable[i] == q;
    }
  }

  lemma VoicesAreSources(p: Policy, e: Evidence, liveness: seq<Reading>, ctx: Context)
    ensures Sources(Usable(p, e.observations, liveness, ctx)) == Voices(p, e, liveness, ctx)
  {
    forall v: string ensures v in Sources(Usable(p, e.observations, liveness, ctx)) <==> v in Voices(p, e, liveness, ctx) {
      VoiceIsSource(v, p, e, liveness, ctx);
      SourceIsVoice(v, p, e, liveness, ctx);
    }
  }

  /** The move behind a decision, with the size it has on its series. */
  lemma MoveBehind(p: Policy, e: Evidence, liveness: seq<Reading>, ctx: Context) returns (move: Option<Signal>)
    requires Decide(p, e, liveness, ctx).Ok? && Decide(p, e, liveness, ctx).value.chosen.Some?
    ensures var a := Decide(p, e, liveness, ctx).value;
            a == Conclude(p, a.chosen.value, Usable(p, e.observations, liveness, ctx), move, ctx)
    ensures move.Some? ==> PlainOn(move.value.direction, move.value.magnitude, Series(SoundPrints(p, e.history, liveness, ctx)))
  {
    var usable, series := Usable(p, e.observations, liveness, ctx), UsableHistory(p, e.history, liveness, ctx);
    DecideParts(p, e, liveness, ctx);
    move := AttestedMove(p, e.history, usable, liveness, ctx).value;
    UsableAreSound(p, e.history, liveness, ctx);
    PlainFactsHold(series, DEFAULT_RULE);
  }

  /** The size of a series, as a fraction of its first price. */
  predicate HasSize(size: real, s: seq<Point>) { s != [] && IsChange(size, s[0].1, s[|s| - 1].1) }

  predicate IsChange(size: real, first: real, last: real) { size * first == Abs(last - first) }

  lemma ChangeNotNegative(size: real, first: Price, last: real)
    requires IsChange(size, first, last)
    ensures size >= 0.0
  {
  }

  lemma SizeOfMove(signal: Signal, q: Quote, p: Policy, s: seq<Point>)
    requires PlainOn(signal.direction, signal.magnitude, s) && ConsiderMove(p, signal, q).Some?
    ensures HasSize(signal.magnitude, s) && signal.magnitude >= 0.0
  {
    ProposalNeeds(p, signal, q);
    ChangeNotNegative(signal.magnitude, s[0].1, s[|s| - 1].1);
  }

  /** The confidence of an advisory is the reading's, or a proposal's by the size of the move, and what agreement adds. */
  ghost predicate ConfidentAs(p: Policy, a: Advisory, reading: real, lift: real, s: seq<Point>) {
    if a.action == Increase || a.action == Reduce then exists size :: HasSize(size, s) && a.confidence == Proposed(p, size) + lift
    else a.confidence == reading + lift
  }

  lemma ConcludedAs(p: Policy, chosen: Quote, usable: seq<Quote>, move: Option<Signal>, ctx: Context, s: seq<Point>)
    requires move.Some? ==> PlainOn(move.value.direction, move.value.magnitude, s)
    ensures ConfidentAs(p, Conclude(p, chosen, usable, move, ctx), Interpret(p, chosen, ctx).1, Lift(|Sources(usable)|), s)
  {
    if move.Some? && ConsiderMove(p, move.value, chosen).Some? {
      SizeOfMove(move.value, chosen, p, s);
      assert HasSize(move.value.magnitude, s);
    }
    ConcludedConfidence(p, chosen, usable, move, ctx);
  }

  /** So it is for every decision: neither the cap at 1 nor the clamp ever acts. */
  lemma ConfidenceMeans(p: Policy, e: Evidence, liveness: seq<Reading>, ctx: Context)
    requires Decide(p, e, liveness, ctx).Ok? && Decide(p, e, liveness, ctx).value.chosen.Some?
    ensures var a := Decide(p, e, liveness, ctx).value;
            ConfidentAs(p, a, Interpret(p, a.chosen.value, ctx).1, Lift(|Voices(p, e, liveness, ctx)|),
                        Series(SoundPrints(p, e.history, liveness, ctx)))
  {
    var chosen := Decide(p, e, liveness, ctx).value.chosen.value;
    var move := MoveBehind(p, e, liveness, ctx);
    VoicesAreSources(p, e, liveness, ctx);
    ConcludedAs(p, chosen, Usable(p, e.observations, liveness, ctx), move, ctx, Series(SoundPrints(p, e.history, liveness, ctx)));
  }
}
