/**
 The fund policy's own calendar behind its evidence gate: which moments let a quote struck at the
 last close reach a decision.
 */
module FundFreshness {
  import opened Wrappers
  import opened Calendar
  import opened SustainedMoves
  import opened MarketDecision

  /** The context the fund policy supplies at a local moment. */
  function FundContext(l: Local, allowance: nat, historyWindow: int, livenessMaxAge: int): Context
    requires IsLocal(l)
  {
    Context(Instant(l), SessionAt(l), FreshnessWindow(l, allowance), historyWindow, livenessMaxAge, _ => false)
  }

  /** The moments at which the window reaches back to the last close. */
  predicate ReachesLastClose(l: Local)
    requires IsLocal(l)
  {
    !IsTradingDay(l.date) || l.clock >= MARKET_CLOSE || (l.clock < PRE_MARKET_OPEN && IsTradingDay(Prev(l.date)))
  }

  /** A well-formed quote struck at the last close, from a venue that passes the liveness gate if there is one. */
  predicate StruckAtClose(p: Policy, q: Quote, l: Local, liveness: seq<Reading>, ctx: Context)
    requires IsLocal(l)
  {
    && Priced(q) && !Crossed(q) && q.observedAt == LastClose(l)
    && (NeedsLiveness(p) ==> VenueGate(q.source, liveness, ctx).None?)
  }

  /** Such a quote is usable exactly at those moments. */
  lemma CloseUsableExactly(p: Policy, q: Quote, l: Local, allowance: nat, historyWindow: int, livenessMaxAge: int, liveness: seq<Reading>)
    requires IsLocal(l) && 1 <= allowance < 43200
    requires StruckAtClose(p, q, l, liveness, FundContext(l, allowance, historyWindow, livenessMaxAge))
    ensures UsableNow(p, q, liveness, FundContext(l, allowance, historyWindow, livenessMaxAge)) <==> ReachesLastClose(l)
  {
    LastCloseNotAhead(l);
    LastCloseAdmittedExactly(l, allowance);
    var ctx := FundContext(l, allowance, historyWindow, livenessMaxAge);
    assert Age(q.observedAt, ctx) > ctx.window * MarketDecision.SECOND <==> Calendar.Stale(LastClose(l), l, allowance);
  }

  lemma AloneIsChosen(p: Policy, q: Quote, history: seq<Quote>, liveness: seq<Reading>, ctx: Context)
    requires p.IndexFund? && PriceBasis(p, q, ctx.session).Some?
    requires Decide(p, Evidence([q], history), liveness, ctx).Ok?
    ensures Decide(p, Evidence([q], history), liveness, ctx).value.chosen ==
            if UsableNow(p, q, liveness, ctx) then Some(q) else None
  {
    assert [q][..0] == [];
    assert Usable(p, [q], liveness, ctx) == if UsableNow(p, q, liveness, ctx) then [q] else [];
  }

  /** A fund decision on nothing but the last close acts on it exactly at the moments whose window reaches it. */
  lemma LastCloseDecides(p: Policy, q: Quote, history: seq<Quote>, l: Local, allowance: nat, historyWindow: int,
                         livenessMaxAge: int, liveness: seq<Reading>)
    requires p.IndexFund? && IsLocal(l) && 1 <= allowance < 43200
    requires var ctx := FundContext(l, allowance, historyWindow, livenessMaxAge);
             StruckAtClose(p, q, l, liveness, ctx) && PriceBasis(p, q, ctx.session).Some? &&
             Decide(p, Evidence([q], history), liveness, ctx).Ok?
    ensures var ctx := FundContext(l, allowance, historyWindow, livenessMaxAge);
            Decide(p, Evidence([q], history), liveness, ctx).value.chosen == if ReachesLastClose(l) then Some(q) else None
  {
    CloseUsableExactly(p, q, l, allowance, historyWindow, livenessMaxAge, liveness);
    AloneIsChosen(p, q, history, liveness, FundContext(l, allowance, historyWindow, livenessMaxAge));
  }
}
