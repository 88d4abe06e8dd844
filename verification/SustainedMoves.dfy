/**
 Price series and the moves they attest. Prices are positive reals, instants are whole
 microseconds; a series is what remains of a history at one price per instant.
 */
module SustainedMoves {
  import opened Wrappers
  import opened Order

  type Price = r: real | r > 0.0 witness 1.0

  datatype Quote = Quote(last: Option<Price>, bid: Option<Price>, ask: Option<Price>, nav: Option<Price>,
                         observedAt: int, source: Option<string>)

  predicate Priced(q: Quote) { q.last.Some? || q.bid.Some? || q.ask.Some? || q.nav.Some? }

  /** The last trade, or else the alphabetically first field that is present. */
  function Basis(q: Quote): Price
    requires Priced(q)
  {
    if q.last.Some? then q.last.value
    else if q.ask.Some? then q.ask.value
    else if q.bid.Some? then q.bid.value
    else q.nav.value
  }

  datatype Direction = Up | Down | ReversalUp | ReversalDown

  datatype Signal = Signal(direction: Direction, magnitude: real, sampleCount: nat, span: int,
                           venueCount: nat, venues: set<string>, excursionRatio: Option<real>)

  /** `Invalid` is the signal whose excursion ratio its own field bound (at least 1) refuses. */
  datatype Outcome = NoMove | Moved(signal: Signal) | Invalid

  datatype Rule = Rule(minimumSpan: int, minimumSamples: int, minimumExcursion: real)

  const DEFAULT_RULE := Rule(300_000_000, 3, 0.02)

  // ----- From a history to a series ----------------------------------------------------------

  type Point = (int, Price)

  function PricedOf(h: seq<Quote>): (r: seq<Quote>)
    ensures forall i :: 0 <= i < |r| ==> Priced(r[i])
  {
    if h == [] then [] else (if Priced(h[0]) then [h[0]] else []) + PricedOf(h[1..])
  }

  predicate QuoteLeq(a: Quote, b: Quote) { a.observedAt <= b.observedAt }

  predicate PointLeq(a: Point, b: Point) { a.0 <= b.0 }

  lemma TimeOrders()
    ensures TotalOrder(QuoteLeq) && TotalOrder(PointLeq)
  {
  }

  predicate HasTime(points: seq<Point>, t: int) { exists k :: 0 <= k < |points| && points[k].0 == t }

  /** `setdefault` over the ordered quotes: the first price per instant is kept. */
  function Collapse(s: seq<Quote>): (r: seq<Point>)
    requires forall i :: 0 <= i < |s| ==> Priced(s[i])
    ensures |r| <= |s|
  {
    if s == [] then []
    else
      var r, q := Collapse(s[..|s| - 1]), s[|s| - 1];
      if HasTime(r, q.observedAt) then r else r + [(q.observedAt, Basis(q))]
  }

  function Ordered(h: seq<Quote>): (r: seq<Quote>)
    ensures forall i :: 0 <= i < |r| ==> Priced(r[i])
    ensures |r| == |PricedOf(h)|
  {
    TimeOrders();
    SortMembers(QuoteLeq, PricedOf(h));
    var r := Sort(QuoteLeq, PricedOf(h));
    assert forall i :: 0 <= i < |r| ==> r[i] in r;
    r
  }

  function Series(h: seq<Quote>): (r: seq<Point>)
    ensures |r| <= |PricedOf(h)|
  {
    TimeOrders();
    Sort(PointLeq, Collapse(Ordered(h)))
  }

  // ----- What the series means ---------------------------------------------------------------

  /** The price a history gives for an instant: that of its first usable quote, in input order. */
  function PriceAt(h: seq<Quote>, t: int): Option<Price> {
    if h == [] then None
    else if Priced(h[0]) && h[0].observedAt == t then Some(Basis(h[0]))
    else PriceAt(h[1..], t)
  }

  ghost predicate Ascending(s: seq<Point>) {
    forall i, j :: 0 <= i < j < |s| ==> s[i].0 < s[j].0
  }

  ghost predicate IsSeriesOf(h: seq<Quote>, s: seq<Point>) {
    && Ascending(s)
    && forall t: int, p: Price :: (t, p) in s <==> PriceAt(h, t) == Some(p)
  }

  lemma {:induction false} PriceAtPriced(h: seq<Quote>, t: int)
    ensures PriceAt(PricedOf(h), t) == PriceAt(h, t)
  {
    if h != [] {
      PriceAtPriced(h[1..], t);
      if Priced(h[0]) {
        assert PricedOf(h)[1..] == PricedOf(h[1..]);
      } else {
        assert PricedOf(h) == PricedOf(h[1..]);
      }
    }
  }

  lemma {:induction false} PriceAtTies(s: seq<Quote>, x: Quote)
    requires forall i :: 0 <= i < |s| ==> Priced(s[i])
    ensures forall i :: 0 <= i < |Ties(QuoteLeq, s, x)| ==> Priced(Ties(QuoteLeq, s, x)[i])
    ensures PriceAt(s, x.observedAt) ==
            if Ties(QuoteLeq, s, x) == [] then None else Some(Basis(Ties(QuoteLeq, s, x)[0]))
  {
    if s != [] {
      PriceAtTies(s[1..], x);
    }
  }

  lemma PriceAtOrdered(h: seq<Quote>, t: int)
    ensures PriceAt(Ordered(h), t) == PriceAt(h, t)
  {
    var x := Quote(None, None, None, None, t, None);
    TimeOrders();
    PriceAtPriced(h, t);
    PriceAtTies(PricedOf(h), x);
    PriceAtTies(Ordered(h), x);
    SortStable(QuoteLeq, PricedOf(h), x);
  }

  lemma {:induction false} PriceAtSnoc(s: seq<Quote>, q: Quote, t: int)
    ensures PriceAt(s + [q], t) ==
            if PriceAt(s, t).Some? then PriceAt(s, t)
            else if Priced(q) && q.observedAt == t then Some(Basis(q)) else None
  {
    if s != [] {
      PriceAtSnoc(s[1..], q, t);
      assert (s + [q])[1..] == s[1..] + [q];
    } else {
      assert (s + [q])[1..] == [];
    }
  }

  lemma HasTimeMeaning(s: seq<Quote>, t: int)
    requires forall i :: 0 <= i < |s| ==> Priced(s[i])
    requires forall t: int, p: Price :: (t, p) in Collapse(s) <==> PriceAt(s, t) == Some(p)
    ensures HasTime(Collapse(s), t) <==> PriceAt(s, t).Some?
  {
    var c := Collapse(s);
    if HasTime(c, t) {
      var k :| 0 <= k < |c| && c[k].0 == t;
      assert (c[k].0, c[k].1) in c;
    }
    if PriceAt(s, t).Some? {
      assert (t, PriceAt(s, t).value) in c;
    }
  }

  lemma CollapseStep(front: seq<Quote>, q: Quote, t: int, p: Price)
    requires Priced(q) && forall i :: 0 <= i < |front| ==> Priced(front[i])
    requires HasTime(Collapse(front), q.observedAt) <==> PriceAt(front, q.observedAt).Some?
    requires (t, p) in Collapse(front) <==> PriceAt(front, t) == Some(p)
    ensures (t, p) in Collapse(front + [q]) <==> PriceAt(front + [q], t) == Some(p)
  {
    assert (front + [q])[..|front|] == front;
    PriceAtSnoc(front, q, t);
  }

  lemma CollapseTimes(front: seq<Quote>, q: Quote)
    requires Priced(q) && forall i :: 0 <= i < |front| ==> Priced(front[i])
    requires forall i, j :: 0 <= i < j < |Collapse(front)| ==> Collapse(front)[i].0 != Collapse(front)[j].0
    ensures forall i, j :: 0 <= i < j < |Collapse(front + [q])| ==> Collapse(front + [q])[i].0 != Collapse(front + [q])[j].0
  {
    assert (front + [q])[..|front|] == front;
  }

  lemma {:induction false} CollapseMeaning(s: seq<Quote>)
    requires forall i :: 0 <= i < |s| ==> Priced(s[i])
    ensures forall t: int, p: Price :: (t, p) in Collapse(s) <==> PriceAt(s, t) == Some(p)
    ensures forall i, j :: 0 <= i < j < |Collapse(s)| ==> Collapse(s)[i].0 != Collapse(s)[j].0
  {
    if s != [] {
      var front, q := s[..|s| - 1], s[|s| - 1];
      CollapseMeaning(front);
      HasTimeMeaning(front, q.observedAt);
      assert s == front + [q];
      CollapseTimes(front, q);
      forall t: int, p: Price ensures (t, p) in Collapse(s) <==> PriceAt(s, t) == Some(p) {
        CollapseStep(front, q, t, p);
      }
    }
  }

  /** The series lists exactly the prices of the history's instants, in time order. */
  lemma SeriesMeaning(h: seq<Quote>)
    ensures IsSeriesOf(h, Series(h))
  {
    var c, s := Collapse(Ordered(h)), Series(h);
    TimeOrders();
    CollapseMeaning(Ordered(h));
    SortMembers(PointLeq, c);
    forall t: int, p: Price ensures (t, p) in s <==> PriceAt(h, t) == Some(p) {
      PriceAtOrdered(h, t);
    }
    RearrangedDistinct(c, s);
    forall i, j | 0 <= i < j < |s| ensures s[i].0 < s[j].0 {
      assert PointLeq(s[i], s[j]);
      assert (s[i].0, s[i].1) in s && (s[j].0, s[j].1) in s;
    }
  }

  lemma HeadIsMember<T>(s: seq<T>)
    ensures s == [] || s[0] in s
  {
  }

  /** An ascending series is determined by its points. */
  lemma {:induction false} AscendingUnique(a: seq<Point>, b: seq<Point>)
    requires Ascending(a) && Ascending(b)
    requires forall x :: x in a <==> x in b
    ensures a == b
  {
    HeadIsMember(a);
    HeadIsMember(b);
    if a != [] && b != [] {
      assert a[0] in b && b[0] in a;
      assert a[0] == b[0];
      forall x ensures x in a[1..] <==> x in b[1..] {
        if x in a[1..] {
          assert x in b && x != a[0];
        }
        if x in b[1..] {
          assert x in a && x != b[0];
        }
      }
      AscendingUnique(a[1..], b[1..]);
      assert a == [a[0]] + a[1..] && b == [b[0]] + b[1..];
    }
  }

  lemma SeriesDetermined(h: seq<Quote>, s: seq<Point>)
    requires IsSeriesOf(h, s)
    ensures Series(h) == s
  {
    SeriesMeaning(h);
    forall x ensures x in Series(h) <==> x in s {
      assert x == (x.0, x.1);
    }
    AscendingUnique(Series(h), s);
  }

  // ----- Classifying a series ----------------------------------------------------------------

  function Max(a: real, b: real): real { if a >= b then a else b }

  function Peak(s: seq<Point>): (r: Price)
    requires s != []
    ensures forall k :: 0 <= k < |s| ==> s[k].1 <= r
    ensures exists k :: 0 <= k < |s| && s[k].1 == r
  {
    if |s| == 1 then s[0].1
    else
      var rest := Peak(s[1..]);
      assert exists k :: 0 <= k < |s[1..]| && s[1..][k].1 == rest && s[k + 1].1 == rest;
      if s[0].1 >= rest then s[0].1 else rest
  }

  function Trough(s: seq<Point>): (r: Price)
    requires s != []
    ensures forall k :: 0 <= k < |s| ==> r <= s[k].1
    ensures exists k :: 0 <= k < |s| && s[k].1 == r
  {
    if |s| == 1 then s[0].1
    else
      var rest := Trough(s[1..]);
      assert exists k :: 0 <= k < |s[1..]| && s[1..][k].1 == rest && s[k + 1].1 == rest;
      if s[0].1 <= rest then s[0].1 else rest
  }

  datatype Shape = FlatShape | Shape(direction: Direction, magnitude: real, excursionRatio: Option<real>)

  /** What the first, last, highest and lowest price of a series say, against a reversal threshold. */
  function ShapeOf(first: Price, last: Price, peak: Price, trough: Price, threshold: real): Shape {
    var net, up, down := (last - first) / first, (peak - first) / first, (first - trough) / first;
    if net > 0.0 then
      var giveback := (peak - last) / peak;
      if down >= threshold || giveback >= threshold then Shape(ReversalUp, net, Some(Max(down, giveback) / net))
      else Shape(Up, net, None)
    else if net < 0.0 then
      var giveback := (last - trough) / trough;
      if up >= threshold || giveback >= threshold then Shape(ReversalDown, -net, Some(Max(up, giveback) / (-net)))
      else Shape(Down, -net, None)
    else
      var excursion := Max(up, down);
      if excursion == 0.0 || excursion < threshold then FlatShape
      else Shape(if up >= down then ReversalUp else ReversalDown, excursion, None)
  }

  function Enough(rule: Rule): int { if rule.minimumSamples > 2 then rule.minimumSamples else 2 }

  function Sources(h: seq<Quote>): set<string> {
    set i | 0 <= i < |h| && Priced(h[i]) && h[i].source.Some? :: h[i].source.value
  }

  /** Enough distinct instants over enough time. */
  predicate LongEnough(s: seq<Point>, rule: Rule) {
    |s| >= Enough(rule) && s[|s| - 1].0 - s[0].0 >= rule.minimumSpan
  }

  function Report(shape: Shape, sampleCount: nat, span: int, venues: set<string>): Outcome {
    if shape.FlatShape? then NoMove
    else if shape.excursionRatio.Some? && shape.excursionRatio.value < 1.0 then Invalid
    else Moved(Signal(shape.direction, shape.magnitude, sampleCount, span, if |venues| == 0 then 1 else |venues|,
                      venues, shape.excursionRatio))
  }

  function SeriesShape(s: seq<Point>, threshold: real): Shape
    requires s != []
  {
    ShapeOf(s[0].1, s[|s| - 1].1, Peak(s), Trough(s), threshold)
  }

  function ClassifyPoints(s: seq<Point>, venues: set<string>, rule: Rule): Outcome {
    if !LongEnough(s, rule) then NoMove
    else Report(SeriesShape(s, rule.minimumExcursion), |s|, s[|s| - 1].0 - s[0].0, venues)
  }

  /** `sustained_move`. */
  function MoveOf(h: seq<Quote>, rule: Rule): Outcome {
    ClassifyPoints(Series(h), Sources(h), rule)
  }

  /** The detector at work: a loop keeps the first price per instant of the ordered quotes. */
  method SustainedMove(h: seq<Quote>, rule: Rule) returns (outcome: Outcome)
    ensures outcome == MoveOf(h, rule)
  {
    var priced := PricedOf(h);
    if |priced| < Enough(rule) {
      return NoMove;
    }
    var ordered := Ordered(h);
    var byTime: seq<Point> := [];
    for i := 0 to |ordered|
      invariant byTime == Collapse(ordered[..i])
    {
      assert ordered[..i + 1][..i] == ordered[..i];
      if !HasTime(byTime, ordered[i].observedAt) {
        byTime := byTime + [(ordered[i].observedAt, Basis(ordered[i]))];
      }
    }
    assert ordered[..|ordered|] == ordered;
    TimeOrders();
    var series := Sort(PointLeq, byTime);
    return ClassifyPoints(series, Sources(h), rule);
  }

  // ----- What a plain direction means ----------------------------------------------------------

  lemma RatioSign(a: real, b: real)
    requires b > 0.0
    ensures (a / b > 0.0 <==> a > 0.0) && (a / b < 0.0 <==> a < 0.0) && (a / b == 0.0 <==> a == 0.0)
  {
    assert a / b * b == a;
  }

  lemma RatioBelow(a: real, b: real, t: real)
    requires b > 0.0
    ensures a / b < t <==> a < t * b
  {
    assert a / b * b == a;
    if a / b < t {
      assert a / b * b < t * b;
    } else {
      assert a / b * b >= t * b;
    }
  }

  /** `x` is above, or below, the multiple `c` of `y`. */
  predicate Above(x: real, c: real, y: real) { x > c * y }

  predicate Below(x: real, c: real, y: real) { x < c * y }

  /** The last print is higher than the first, no print fell to (1-t) of the first, none fell back from the peak by t. */
  predicate RoseAndHeld(s: seq<Point>, t: real)
    requires s != []
  {
    && s[0].1 < s[|s| - 1].1
    && (forall k :: 0 <= k < |s| ==> Above(s[k].1, 1.0 - t, s[0].1))
    && (forall k :: 0 <= k < |s| ==> Above(s[|s| - 1].1, 1.0 - t, s[k].1))
  }

  predicate FellAndHeld(s: seq<Point>, t: real)
    requires s != []
  {
    && s[0].1 > s[|s| - 1].1
    && (forall k :: 0 <= k < |s| ==> Below(s[k].1, 1.0 + t, s[0].1))
    && (forall k :: 0 <= k < |s| ==> Below(s[|s| - 1].1, 1.0 + t, s[k].1))
  }

  lemma UpShape(first: Price, last: Price, peak: Price, trough: Price, t: real)
    ensures var shape := ShapeOf(first, last, peak, trough, t);
            shape.Shape? && shape.direction == Up <==>
            first < last && Above(trough, 1.0 - t, first) && Above(last, 1.0 - t, peak)
    ensures var shape := ShapeOf(first, last, peak, trough, t);
            shape.Shape? && shape.direction == Down <==>
            last < first && Below(peak, 1.0 + t, first) && Below(last, 1.0 + t, trough)
  {
    RatioSign(last - first, first);
    RatioBelow(first - trough, first, t);
    RatioBelow(peak - last, peak, t);
    RatioBelow(peak - first, first, t);
    RatioBelow(last - trough, trough, t);
  }

  lemma AboveLower(x: Price, c: real, a: Price, b: Price)
    requires a <= b
    ensures Above(x, c, b) ==> Above(x, c, a)
    ensures Below(x, c, a) ==> Below(x, c, b)
    ensures Above(a, c, x) ==> Above(b, c, x)
    ensures Below(b, c, x) ==> Below(a, c, x)
  {
    if c > 0.0 {
      assert c * a <= c * b;
    } else {
      assert c * a <= 0.0;
    }
  }

  /** A bound against the extreme price is a bound against every price. */
  lemma Extremes(s: seq<Point>, c: real, x: Price)
    requires s != []
    ensures Above(x, c, Peak(s)) <==> forall k :: 0 <= k < |s| ==> Above(x, c, s[k].1)
    ensures Below(x, c, Trough(s)) <==> forall k :: 0 <= k < |s| ==> Below(x, c, s[k].1)
    ensures Above(Trough(s), c, x) <==> forall k :: 0 <= k < |s| ==> Above(s[k].1, c, x)
    ensures Below(Peak(s), c, x) <==> forall k :: 0 <= k < |s| ==> Below(s[k].1, c, x)
  {
    forall k | 0 <= k < |s|
      ensures Above(x, c, Peak(s)) ==> Above(x, c, s[k].1)
      ensures Below(x, c, Trough(s)) ==> Below(x, c, s[k].1)
      ensures Above(Trough(s), c, x) ==> Above(s[k].1, c, x)
      ensures Below(Peak(s), c, x) ==> Below(s[k].1, c, x)
    {
      AboveLower(x, c, s[k].1, Peak(s));
      AboveLower(x, c, Trough(s), s[k].1);
    }
  }

  /** Only reversals carry a ratio, so a plain direction is always reported. */
  lemma ReportPlain(shape: Shape, n: nat, span: int, venues: set<string>, d: Direction)
    requires shape.Shape? && (shape.direction == Up || shape.direction == Down) ==> shape.excursionRatio.None?
    requires d == Up || d == Down
    ensures var o := Report(shape, n, span, venues);
            o.Moved? && o.signal.direction == d <==> shape.Shape? && shape.direction == d
  {
  }

  lemma PlainHasNoRatio(first: Price, last: Price, peak: Price, trough: Price, t: real)
    ensures var shape := ShapeOf(first, last, peak, trough, t);
            shape.Shape? && (shape.direction == Up || shape.direction == Down) ==> shape.excursionRatio.None?
  {
  }

  /**
   A plain `up` is reported exactly for a long enough series that ended above its first price,
   of which no print fell to (1-t) of the first, and whose last stayed above (1-t) of every other;
   symmetrically for `down`.
   */
  lemma PlainDirection(h: seq<Quote>, rule: Rule)
    ensures var o := MoveOf(h, rule);
            o.Moved? && o.signal.direction == Up <==> LongEnough(Series(h), rule) && RoseAndHeld(Series(h), rule.minimumExcursion)
    ensures var o := MoveOf(h, rule);
            o.Moved? && o.signal.direction == Down <==> LongEnough(Series(h), rule) && FellAndHeld(Series(h), rule.minimumExcursion)
  {
    var s, t := Series(h), rule.minimumExcursion;
    if LongEnough(s, rule) {
      var span := s[|s| - 1].0 - s[0].0;
      SeriesDirection(s, t);
      ReportPlain(SeriesShape(s, t), |s|, span, Sources(h), Up);
      ReportPlain(SeriesShape(s, t), |s|, span, Sources(h), Down);
    }
  }

  lemma SeriesDirection(s: seq<Point>, t: real)
    requires s != []
    ensures var shape := SeriesShape(s, t);
            (shape.Shape? && shape.direction == Up <==> RoseAndHeld(s, t)) &&
            (shape.Shape? && shape.direction == Down <==> FellAndHeld(s, t)) &&
            (shape.Shape? && (shape.direction == Up || shape.direction == Down) ==> shape.excursionRatio.None?)
  {
    var first, last := s[0].1, s[|s| - 1].1;
    PlainHasNoRatio(first, last, Peak(s), Trough(s), t);
    UpShape(first, last, Peak(s), Trough(s), t);
    Extremes(s, 1.0 - t, first);
    Extremes(s, 1.0 + t, first);
    Extremes(s, 1.0 - t, last);
    Extremes(s, 1.0 + t, last);
  }

  /** The series ended where it began, and either never moved or stayed within the threshold of its first price. */
  predicate WentNowhere(s: seq<Point>, t: real)
    requires s != []
  {
    && s[0].1 == s[|s| - 1].1
    && (Constant(s) || StaysWithin(s, t))
  }

  predicate Constant(s: seq<Point>) { forall k :: 0 <= k < |s| ==> s[k].1 == s[0].1 }

  lemma FlatExactly(first: Price, last: Price, peak: Price, trough: Price, t: real)
    requires trough <= first <= peak
    ensures ShapeOf(first, last, peak, trough, t).FlatShape? <==>
            first == last && ((peak == first && trough == first) || (Below(peak, 1.0 + t, first) && Above(trough, 1.0 - t, first)))
  {
    RatioSign(last - first, first);
    RatioSign(peak - first, first);
    RatioSign(first - trough, first);
    RatioBelow(peak - first, first, t);
    RatioBelow(first - trough, first, t);
  }

  predicate StaysWithin(s: seq<Point>, t: real)
    requires s != []
  {
    forall k :: 0 <= k < |s| ==> (Below(s[k].1, 1.0 + t, s[0].1) && Above(s[k].1, 1.0 - t, s[0].1))
  }

  lemma ExtremesWithin(s: seq<Point>, t: real)
    requires s != []
    ensures StaysWithin(s, t) <==> Below(Peak(s), 1.0 + t, s[0].1) && Above(Trough(s), 1.0 - t, s[0].1)
  {
    Extremes(s, 1.0 + t, s[0].1);
    Extremes(s, 1.0 - t, s[0].1);
  }

  lemma FlatSeries(s: seq<Point>, t: real)
    requires s != []
    ensures SeriesShape(s, t).FlatShape? <==> WentNowhere(s, t)
  {
    FlatExactly(s[0].1, s[|s| - 1].1, Peak(s), Trough(s), t);
    ExtremesWithin(s, t);
    ExtremesOfConstant(s);
  }

  /** The detector is silent exactly for a series of too few instants or too short a span, and for one that went nowhere. */
  lemma SilentExactly(h: seq<Quote>, rule: Rule)
    ensures var s := Series(h);
            MoveOf(h, rule) == NoMove <==>
            || |s| < 2 || |s| < rule.minimumSamples || s[|s| - 1].0 - s[0].0 < rule.minimumSpan
            || WentNowhere(s, rule.minimumExcursion)
  {
    if LongEnough(Series(h), rule) {
      FlatSeries(Series(h), rule.minimumExcursion);
    }
  }

  lemma ExtremesOfConstant(s: seq<Point>)
    requires s != []
    ensures Constant(s) <==> Peak(s) == s[0].1 && Trough(s) == s[0].1
  {
  }

  predicate NeverFalls(s: seq<Point>) { forall i, j :: 0 <= i < j < |s| ==> s[i].1 <= s[j].1 }

  predicate NeverRises(s: seq<Point>) { forall i, j :: 0 <= i < j < |s| ==> s[i].1 >= s[j].1 }

  lemma Slack(x: Price, y: Price, t: real)
    requires t > 0.0
    ensures x >= y ==> Above(x, 1.0 - t, y)
    ensures x <= y ==> Below(x, 1.0 + t, y)
  {
    assert (1.0 - t) * y < y < (1.0 + t) * y;
  }

  lemma NoSlack(x: Price, t: real)
    requires t <= 0.0
    ensures !Above(x, 1.0 - t, x) && !Below(x, 1.0 + t, x)
  {
    assert (1.0 + t) * x <= x <= (1.0 - t) * x;
  }

  lemma MonotoneHolds(s: seq<Point>, t: real)
    requires s != []
    ensures NeverFalls(s) && s[0].1 < s[|s| - 1].1 ==> (RoseAndHeld(s, t) <==> t > 0.0)
    ensures NeverRises(s) && s[0].1 > s[|s| - 1].1 ==> (FellAndHeld(s, t) <==> t > 0.0)
  {
    if t <= 0.0 {
      NoSlack(s[0].1, t);
    } else {
      forall k | 0 <= k < |s|
        ensures s[k].1 >= s[0].1 ==> Above(s[k].1, 1.0 - t, s[0].1)
        ensures s[k].1 <= s[0].1 ==> Below(s[k].1, 1.0 + t, s[0].1)
        ensures s[|s| - 1].1 >= s[k].1 ==> Above(s[|s| - 1].1, 1.0 - t, s[k].1)
        ensures s[|s| - 1].1 <= s[k].1 ==> Below(s[|s| - 1].1, 1.0 + t, s[k].1)
      {
        Slack(s[k].1, s[0].1, t);
        Slack(s[|s| - 1].1, s[k].1, t);
      }
    }
  }

  lemma MonotoneOutcome(o: Outcome, s: seq<Point>, rule: Rule)
    requires LongEnough(s, rule) && s != []
    requires o.Moved? && o.signal.direction == Up <==> LongEnough(s, rule) && RoseAndHeld(s, rule.minimumExcursion)
    requires o.Moved? && o.signal.direction == Down <==> LongEnough(s, rule) && FellAndHeld(s, rule.minimumExcursion)
    ensures NeverFalls(s) && s[0].1 < s[|s| - 1].1 ==> (o.Moved? && o.signal.direction == Up <==> rule.minimumExcursion > 0.0)
    ensures NeverRises(s) && s[0].1 > s[|s| - 1].1 ==> (o.Moved? && o.signal.direction == Down <==> rule.minimumExcursion > 0.0)
  {
    MonotoneHolds(s, rule.minimumExcursion);
  }

  /**
   With a positive excursion threshold a monotone series that moved is never a reversal; without one,
   every move counts as handed back.
   */
  lemma MonotoneNeverReverses(h: seq<Quote>, rule: Rule)
    requires LongEnough(Series(h), rule)
    ensures NeverFalls(Series(h)) && Series(h)[0].1 < Series(h)[|Series(h)| - 1].1 ==>
              (MoveOf(h, rule).Moved? && MoveOf(h, rule).signal.direction == Up <==> rule.minimumExcursion > 0.0)
    ensures NeverRises(Series(h)) && Series(h)[0].1 > Series(h)[|Series(h)| - 1].1 ==>
              (MoveOf(h, rule).Moved? && MoveOf(h, rule).signal.direction == Down <==> rule.minimumExcursion > 0.0)
  {
    PlainDirection(h, rule);
    MonotoneOutcome(MoveOf(h, rule), Series(h), rule);
  }

  // ----- Invariance ------------------------------------------------------------------------

  function Times(p: Price, k: Price): Price {
    assert p * k > 0.0;
    p * k
  }

  function ScaledPrice(p: Option<Price>, k: Price): Option<Price> {
    if p.Some? then Some(Times(p.value, k)) else None
  }

  function ScaledQuote(q: Quote, k: Price): Quote {
    Quote(ScaledPrice(q.last, k), ScaledPrice(q.bid, k), ScaledPrice(q.ask, k), ScaledPrice(q.nav, k), q.observedAt, q.source)
  }

  function Scaled(h: seq<Quote>, k: Price): seq<Quote> {
    seq(|h|, i requires 0 <= i < |h| => ScaledQuote(h[i], k))
  }

  function ScaledPoint(x: Point, k: Price): Point {
    (x.0, Times(x.1, k))
  }

  function ScaledSeries(s: seq<Point>, k: Price): (r: seq<Point>)
    ensures |r| == |s|
  {
    seq(|s|, i requires 0 <= i < |s| => ScaledPoint(s[i], k))
  }

  lemma {:induction false} PriceAtScaled(h: seq<Quote>, k: Price, t: int)
    ensures PriceAt(Scaled(h, k), t) == ScaledPrice(PriceAt(h, t), k)
  {
    if h != [] {
      assert Scaled(h, k)[1..] == Scaled(h[1..], k);
      PriceAtScaled(h[1..], k, t);
    }
  }

  lemma ListedScaled(h: seq<Quote>, k: Price, t: int, p: Price)
    requires IsSeriesOf(h, Series(h)) && (t, p) in ScaledSeries(Series(h), k)
    ensures ScaledPrice(PriceAt(h, t), k) == Some(p)
  {
    var s := ScaledSeries(Series(h), k);
    var i :| 0 <= i < |s| && s[i] == (t, p);
    var q := Series(h)[i].1;
    assert s[i] == ScaledPoint(Series(h)[i], k);
    assert Series(h)[i] == (t, q) && (t, q) in Series(h);
  }

  lemma ScaledListed(h: seq<Quote>, k: Price, t: int, p: Price)
    requires IsSeriesOf(h, Series(h)) && ScaledPrice(PriceAt(h, t), k) == Some(p)
    ensures (t, p) in ScaledSeries(Series(h), k)
  {
    var s := ScaledSeries(Series(h), k);
    var q := PriceAt(h, t).value;
    assert (t, q) in Series(h);
    var i :| 0 <= i < |Series(h)| && Series(h)[i] == (t, q);
    assert s[i] == ScaledPoint(Series(h)[i], k) == (t, p);
  }

  lemma ScaledAscends(s: seq<Point>, k: Price)
    requires Ascending(s)
    ensures Ascending(ScaledSeries(s, k))
  {
  }

  lemma SeriesScaled(h: seq<Quote>, k: Price)
    ensures Series(Scaled(h, k)) == ScaledSeries(Series(h), k)
  {
    var s := ScaledSeries(Series(h), k);
    SeriesMeaning(h);
    ScaledAscends(Series(h), k);
    forall t: int, p: Price ensures (t, p) in s <==> PriceAt(Scaled(h, k), t) == Some(p) {
      PriceAtScaled(h, k, t);
      if (t, p) in s {
        ListedScaled(h, k, t, p);
      }
      if PriceAt(Scaled(h, k), t) == Some(p) {
        ScaledListed(h, k, t, p);
      }
    }
    SeriesDetermined(Scaled(h, k), s);
  }

  lemma TimesMonotone(a: Price, b: Price, k: Price)
    ensures a <= b <==> Times(a, k) <= Times(b, k)
  {
    if a <= b {
      assert a * k <= b * k;
    } else {
      assert b * k < a * k;
    }
  }

  lemma {:induction false} ExtremesScaled(s: seq<Point>, k: Price)
    requires s != []
    ensures Peak(ScaledSeries(s, k)) == Times(Peak(s), k) && Trough(ScaledSeries(s, k)) == Times(Trough(s), k)
  {
    var r := ScaledSeries(s, k);
    if |s| > 1 {
      ExtremesScaled(s[1..], k);
      assert r[1..] == ScaledSeries(s[1..], k);
      TimesMonotone(s[0].1, Peak(s[1..]), k);
      TimesMonotone(Peak(s[1..]), s[0].1, k);
      TimesMonotone(s[0].1, Trough(s[1..]), k);
      TimesMonotone(Trough(s[1..]), s[0].1, k);
    }
  }

  lemma RatioScaled(a: Price, b: Price, c: Price, k: Price)
    ensures (Times(a, k) - Times(b, k)) / Times(c, k) == (a - b) / c
  {
    var x := (a - b) / c;
    assert x * c == a - b;
    assert x * Times(c, k) == x * c * k == (a - b) * k == Times(a, k) - Times(b, k);
    assert (x * Times(c, k)) / Times(c, k) == x;
  }

  lemma ShapeScaled(first: Price, last: Price, peak: Price, trough: Price, t: real, k: Price)
    ensures ShapeOf(Times(first, k), Times(last, k), Times(peak, k), Times(trough, k), t) == ShapeOf(first, last, peak, trough, t)
  {
    RatioScaled(last, first, first, k);
    RatioScaled(peak, first, first, k);
    RatioScaled(first, trough, first, k);
    RatioScaled(peak, last, peak, k);
    RatioScaled(last, trough, trough, k);
  }

  lemma SourcesScaled(h: seq<Quote>, k: Price)
    ensures Sources(Scaled(h, k)) == Sources(h)
  {
    var g := Scaled(h, k);
    assert forall i :: 0 <= i < |h| ==> (Priced(g[i]) == Priced(h[i]) && g[i].source == h[i].source);
    forall x ensures x in Sources(g) <==> x in Sources(h) {
      if x in Sources(h) {
        var i :| 0 <= i < |h| && Priced(h[i]) && h[i].source == Some(x);
        assert Priced(g[i]) && g[i].source == Some(x);
      }
    }
  }

  lemma SeriesShapeScaled(s: seq<Point>, k: Price, t: real)
    requires s != []
    ensures SeriesShape(ScaledSeries(s, k), t) == SeriesShape(s, t)
  {
    ExtremesScaled(s, k);
    ShapeScaled(s[0].1, s[|s| - 1].1, Peak(s), Trough(s), t, k);
  }

  lemma ClassifySame(s: seq<Point>, r: seq<Point>, venues: set<string>, rule: Rule)
    requires |s| == |r| && (s == [] || r[|r| - 1].0 - r[0].0 == s[|s| - 1].0 - s[0].0)
    requires s == [] || SeriesShape(s, rule.minimumExcursion) == SeriesShape(r, rule.minimumExcursion)
    ensures ClassifyPoints(s, venues, rule) == ClassifyPoints(r, venues, rule)
  {
  }

  lemma ClassifyScaled(s: seq<Point>, k: Price, venues: set<string>, rule: Rule)
    ensures ClassifyPoints(ScaledSeries(s, k), venues, rule) == ClassifyPoints(s, venues, rule)
  {
    if s != [] {
      SeriesShapeScaled(s, k, rule.minimumExcursion);
      ClassifySame(s, ScaledSeries(s, k), venues, rule);
    }
  }

  /** Quoting every price in another unit changes nothing. */
  lemma ScaleInvariant(h: seq<Quote>, k: Price, rule: Rule)
    ensures MoveOf(Scaled(h, k), rule) == MoveOf(h, rule)
  {
    SeriesScaled(h, k);
    SourcesScaled(h, k);
    ClassifyScaled(Series(h), k, Sources(h), rule);
  }

  function Shifted(h: seq<Quote>, d: int): seq<Quote> {
    seq(|h|, i requires 0 <= i < |h| => h[i].(observedAt := h[i].observedAt + d))
  }

  function ShiftedSeries(s: seq<Point>, d: int): (r: seq<Point>)
    ensures |r| == |s|
  {
    seq(|s|, i requires 0 <= i < |s| => (s[i].0 + d, s[i].1))
  }

  lemma {:induction false} PriceAtShifted(h: seq<Quote>, d: int, t: int)
    ensures PriceAt(Shifted(h, d), t) == PriceAt(h, t - d)
  {
    if h != [] {
      assert Shifted(h, d)[1..] == Shifted(h[1..], d);
      PriceAtShifted(h[1..], d, t);
    }
  }

  lemma ShiftedMember(s: seq<Point>, d: int, t: int, p: Price)
    ensures (t, p) in ShiftedSeries(s, d) <==> (t - d, p) in s
  {
    var r := ShiftedSeries(s, d);
    if (t, p) in r {
      var i :| 0 <= i < |r| && r[i] == (t, p);
      assert s[i] == (t - d, p);
    }
    if (t - d, p) in s {
      var i :| 0 <= i < |s| && s[i] == (t - d, p);
      assert r[i] == (t, p);
    }
  }

  lemma {:induction false} ExtremesOfPrices(s: seq<Point>, r: seq<Point>)
    requires s != [] && |r| == |s| && forall i :: 0 <= i < |s| ==> s[i].1 == r[i].1
    ensures Peak(s) == Peak(r) && Trough(s) == Trough(r)
  {
    if |s| > 1 {
      ExtremesOfPrices(s[1..], r[1..]);
    }
  }

  lemma SourcesShifted(h: seq<Quote>, d: int)
    ensures Sources(Shifted(h, d)) == Sources(h)
  {
    var g := Shifted(h, d);
    assert forall i :: 0 <= i < |h| ==> (Priced(g[i]) == Priced(h[i]) && g[i].source == h[i].source);
    forall x ensures x in Sources(g) <==> x in Sources(h) {
      if x in Sources(h) {
        var i :| 0 <= i < |h| && Priced(h[i]) && h[i].source == Some(x);
        assert Priced(g[i]) && g[i].source == Some(x);
      }
    }
  }

  lemma SeriesShifted(h: seq<Quote>, d: int)
    ensures Series(Shifted(h, d)) == ShiftedSeries(Series(h), d)
  {
    var s, r := Series(h), ShiftedSeries(Series(h), d);
    SeriesMeaning(h);
    forall t: int, p: Price ensures (t, p) in r <==> PriceAt(Shifted(h, d), t) == Some(p) {
      PriceAtShifted(h, d, t);
      ShiftedMember(s, d, t, p);
    }
    SeriesDetermined(Shifted(h, d), r);
  }

  lemma ClassifyShifted(s: seq<Point>, d: int, venues: set<string>, rule: Rule)
    ensures ClassifyPoints(ShiftedSeries(s, d), venues, rule) == ClassifyPoints(s, venues, rule)
  {
    if s != [] {
      ExtremesOfPrices(s, ShiftedSeries(s, d));
      ClassifySame(s, ShiftedSeries(s, d), venues, rule);
    }
  }

  /** Only elapsed times matter: moving the whole history changes nothing. */
  lemma ShiftInvariant(h: seq<Quote>, d: int, rule: Rule)
    ensures MoveOf(Shifted(h, d), rule) == MoveOf(h, rule)
  {
    SeriesShifted(h, d);
    SourcesShifted(h, d);
    ClassifyShifted(Series(h), d, Sources(h), rule);
  }

  /** No two usable quotes share an instant. */
  ghost predicate DistinctTimes(h: seq<Quote>) {
    forall i, j :: 0 <= i < j < |h| && Priced(h[i]) && Priced(h[j]) ==> h[i].observedAt != h[j].observedAt
  }

  ghost predicate Gives(h: seq<Quote>, t: int, p: Price) {
    exists q :: q in h && Priced(q) && q.observedAt == t && Basis(q) == p
  }

  lemma {:induction false} PriceAtGives(h: seq<Quote>, t: int, p: Price)
    requires DistinctTimes(h)
    ensures PriceAt(h, t) == Some(p) <==> Gives(h, t, p)
  {
    if h != [] {
      PriceAtGives(h[1..], t, p);
      if Priced(h[0]) && h[0].observedAt == t {
        if Gives(h, t, p) {
          var q :| q in h && Priced(q) && q.observedAt == t && Basis(q) == p;
          var i :| 0 <= i < |h| && h[i] == q;
          assert i == 0;
        } else {
          assert h[0] in h;
        }
      } else if Gives(h[1..], t, p) {
        var q :| q in h[1..] && Priced(q) && q.observedAt == t && Basis(q) == p;
        assert q in h;
      }
    }
  }

  lemma SeriesReordered(h: seq<Quote>, g: seq<Quote>)
    requires DistinctTimes(h) && DistinctTimes(g)
    requires forall q :: q in h <==> q in g
    ensures Series(h) == Series(g)
  {
    SeriesMeaning(g);
    forall t: int, p: Price ensures (t, p) in Series(g) <==> PriceAt(h, t) == Some(p) {
      PriceAtGives(h, t, p);
      PriceAtGives(g, t, p);
    }
    SeriesDetermined(h, Series(g));
  }

  /** With distinct instants the order in which observations arrive does not matter. */
  lemma ReorderInvariant(h: seq<Quote>, g: seq<Quote>, rule: Rule)
    requires DistinctTimes(h) && DistinctTimes(g)
    requires forall q :: q in h <==> q in g
    ensures MoveOf(h, rule) == MoveOf(g, rule)
  {
    SeriesReordered(h, g);
    SourcesReordered(h, g);
  }

  lemma SourcesReordered(h: seq<Quote>, g: seq<Quote>)
    requires forall q :: q in h <==> q in g
    ensures Sources(h) == Sources(g)
  {
    SourcesOfMembers(h, g);
    SourcesOfMembers(g, h);
  }

  lemma SourcesOfMembers(h: seq<Quote>, g: seq<Quote>)
    requires forall q :: q in h ==> q in g
    ensures Sources(h) <= Sources(g)
  {
    forall x | x in Sources(h) ensures x in Sources(g) {
      var i :| 0 <= i < |h| && Priced(h[i]) && h[i].source == Some(x);
      assert h[i] in g;
      var j :| 0 <= j < |g| && g[j] == h[i];
    }
  }

  // ----- Where a signal cannot be built --------------------------------------------------------

  /** The fractional distances a series' extremes keep from its ends. */
  predicate SmallReversal(first: Price, last: Price, peak: Price, trough: Price, t: real) {
    var net, up, down := (last - first) / first, (peak - first) / first, (first - trough) / first;
    var handedBack, recovered := (peak - last) / peak, (last - trough) / trough;
    || (net > 0.0 && (down >= t || handedBack >= t) && down < net && handedBack < net)
    || (net < 0.0 && (up >= t || recovered >= t) && up < -net && recovered < -net)
  }

  lemma RatioAtLeastOne(a: real, b: real, n: real)
    requires n > 0.0
    ensures Max(a, b) / n < 1.0 <==> a < n && b < n
  {
    RatioBelow(Max(a, b), n, 1.0);
  }

  lemma InvalidShape(first: Price, last: Price, peak: Price, trough: Price, t: real)
    ensures var shape := ShapeOf(first, last, peak, trough, t);
            shape.Shape? && shape.excursionRatio.Some? && shape.excursionRatio.value < 1.0 <==>
            SmallReversal(first, last, peak, trough, t)
  {
    var net, up, down := (last - first) / first, (peak - first) / first, (first - trough) / first;
    if net > 0.0 {
      RatioAtLeastOne(down, (peak - last) / peak, net);
    } else if net < 0.0 {
      RatioAtLeastOne(up, (last - trough) / trough, -net);
    }
  }

  /**
   The excursion ratio is bounded below by 1 in its field but not in its formula: the signal is
   refused exactly for a long enough series whose counter-move, though a reversal, is smaller
   than its net move.
   */
  lemma InvalidExactly(h: seq<Quote>, rule: Rule)
    ensures var s := Series(h);
            MoveOf(h, rule).Invalid? <==>
            LongEnough(s, rule) && SmallReversal(s[0].1, s[|s| - 1].1, Peak(s), Trough(s), rule.minimumExcursion)
  {
    var s := Series(h);
    if LongEnough(s, rule) {
      InvalidShape(s[0].1, s[|s| - 1].1, Peak(s), Trough(s), rule.minimumExcursion);
      ReportInvalid(SeriesShape(s, rule.minimumExcursion), |s|, s[|s| - 1].0 - s[0].0, Sources(h));
    }
  }

  lemma ReportInvalid(shape: Shape, n: nat, span: int, venues: set<string>)
    ensures Report(shape, n, span, venues).Invalid? <==>
            shape.Shape? && shape.excursionRatio.Some? && shape.excursionRatio.value < 1.0
  {
  }

  // ----- What a signal says --------------------------------------------------------------------

  predicate Rises(d: Direction) { d == Up || d == ReversalUp }

  /** A series that ended elsewhere: the size, in units of the first price, is what was gained or lost from first to last. */
  predicate GainedOrLost(d: Direction, magnitude: real, s: seq<Point>)
    requires s != []
  {
    var first, last := s[0].1, s[|s| - 1].1;
    && (last > first ==> Rises(d) && magnitude * first == last - first)
    && (last < first ==> !Rises(d) && magnitude * first == first - last)
  }

  /** A series that ended level: the size is the farthest excursion, upwards unless the farthest one went down only. */
  ghost predicate FarthestExcursion(d: Direction, magnitude: real, s: seq<Point>)
    requires s != []
  {
    Farthest(d, magnitude * s[0].1, s)
  }

  ghost predicate Farthest(d: Direction, far: real, s: seq<Point>)
    requires s != []
  {
    && (forall k :: 0 <= k < |s| ==> s[0].1 - far <= s[k].1 <= s[0].1 + far)
    && (d == ReversalUp || d == ReversalDown)
    && (d == ReversalUp <==> exists k :: 0 <= k < |s| && s[k].1 == s[0].1 + far)
    && (d == ReversalDown ==> exists k :: 0 <= k < |s| && s[k].1 == s[0].1 - far)
  }

  lemma QuotientTimes(a: real, b: real)
    requires b != 0.0
    ensures a / b * b == a && (-(a / b)) * b == -a
  {
  }

  predicate NetShape(shape: Shape, first: Price, last: Price) {
    && shape.Shape? && shape.magnitude * first == (if last > first then last - first else first - last)
    && (Rises(shape.direction) <==> last > first)
  }

  lemma NetMagnitude(first: Price, last: Price, peak: Price, trough: Price, t: real)
    requires first != last
    ensures NetShape(ShapeOf(first, last, peak, trough, t), first, last)
  {
    RatioSign(last - first, first);
    QuotientTimes(last - first, first);
  }

  predicate LevelShape(shape: Shape, first: Price, peak: Price, trough: Price) {
    shape.Shape? ==>
      && shape.magnitude * first == Max(peak - first, first - trough) && shape.excursionRatio.None?
      && shape.direction == (if peak - first >= first - trough then ReversalUp else ReversalDown)
  }

  lemma LevelMagnitude(first: Price, peak: Price, trough: Price, t: real)
    requires trough <= first <= peak
    ensures LevelShape(ShapeOf(first, first, peak, trough, t), first, peak, trough)
  {
    QuotientTimes(peak - first, first);
    QuotientTimes(first - trough, first);
    QuotientOrder(first - trough, peak - first, first);
    QuotientOrder(peak - first, first - trough, first);
  }

  lemma QuotientOrder(a: real, b: real, c: real)
    requires c > 0.0
    ensures a / c <= b / c <==> a <= b
  {
    QuotientTimes(a, c);
    QuotientTimes(b, c);
    if a / c <= b / c {
      assert a / c * c <= b / c * c;
    } else {
      assert a / c * c > b / c * c;
    }
  }

  lemma ReportsShape(s: seq<Point>, venues: set<string>, rule: Rule)
    requires s != [] && ClassifyPoints(s, venues, rule).Moved?
    ensures var shape, signal := SeriesShape(s, rule.minimumExcursion), ClassifyPoints(s, venues, rule).signal;
            shape.Shape? && signal.direction == shape.direction && signal.magnitude == shape.magnitude &&
            signal.excursionRatio == shape.excursionRatio
  {
  }

  lemma LevelFarthest(s: seq<Point>, d: Direction, far: real)
    requires s != [] && far == Max(Peak(s) - s[0].1, s[0].1 - Trough(s))
    requires d == if Peak(s) - s[0].1 >= s[0].1 - Trough(s) then ReversalUp else ReversalDown
    ensures Farthest(d, far, s)
  {
    if d == ReversalUp {
      var i :| 0 <= i < |s| && s[i].1 == Peak(s);
      assert s[i].1 == s[0].1 + far;
    } else {
      var j :| 0 <= j < |s| && s[j].1 == Trough(s);
      assert s[j].1 == s[0].1 - far;
    }
  }

  lemma LevelSeries(s: seq<Point>, shape: Shape)
    requires s != [] && shape.Shape? && LevelShape(shape, s[0].1, Peak(s), Trough(s))
    ensures FarthestExcursion(shape.direction, shape.magnitude, s)
  {
    LevelFarthest(s, shape.direction, shape.magnitude * s[0].1);
  }

  lemma NetSeries(s: seq<Point>, shape: Shape)
    requires s != [] && s[0].1 != s[|s| - 1].1 && NetShape(shape, s[0].1, s[|s| - 1].1)
    ensures SizeOf(shape.direction, shape.magnitude, s)
  {
  }

  /** How large a move is, and which way it went, on the prices themselves. */
  ghost predicate SizeOf(d: Direction, magnitude: real, s: seq<Point>)
    requires s != []
  {
    if s[0].1 == s[|s| - 1].1 then FarthestExcursion(d, magnitude, s) else GainedOrLost(d, magnitude, s)
  }

  lemma SeriesMagnitude(s: seq<Point>, t: real)
    requires s != [] && SeriesShape(s, t).Shape?
    ensures SizeOf(SeriesShape(s, t).direction, SeriesShape(s, t).magnitude, s)
  {
    var first, last := s[0].1, s[|s| - 1].1;
    if first == last {
      LevelMagnitude(first, Peak(s), Trough(s), t);
      LevelSeries(s, SeriesShape(s, t));
    } else {
      NetMagnitude(first, last, Peak(s), Trough(s), t);
      NetSeries(s, SeriesShape(s, t));
    }
  }

  /** Every reported move has that size. */
  lemma MagnitudeMeans(h: seq<Quote>, rule: Rule)
    requires MoveOf(h, rule).Moved?
    ensures Series(h) != [] && SizeOf(MoveOf(h, rule).signal.direction, MoveOf(h, rule).signal.magnitude, Series(h))
  {
    ReportsShape(Series(h), Sources(h), rule);
    SeriesMagnitude(Series(h), rule.minimumExcursion);
  }

  /** The size of a plain move, and that it went the way it is called. */
  predicate PlainOn(d: Direction, magnitude: real, s: seq<Point>) {
    && s != []
    && (d == Up ==> s[|s| - 1].1 > s[0].1 && magnitude * s[0].1 == s[|s| - 1].1 - s[0].1)
    && (d == Down ==> s[|s| - 1].1 < s[0].1 && magnitude * s[0].1 == s[0].1 - s[|s| - 1].1)
  }

  /** When an outcome is a plain move, and which. */
  predicate PlainFacts(o: Outcome, s: seq<Point>, rule: Rule) {
    && (o.Moved? && o.signal.direction == Up <==> LongEnough(s, rule) && RoseAndHeld(s, rule.minimumExcursion))
    && (o.Moved? && o.signal.direction == Down <==> LongEnough(s, rule) && FellAndHeld(s, rule.minimumExcursion))
    && (o.Moved? ==> PlainOn(o.signal.direction, o.signal.magnitude, s))
  }

  lemma SizeOfPlain(s: seq<Point>, d: Direction, magnitude: real)
    requires s != [] && SizeOf(d, magnitude, s)
    ensures PlainOn(d, magnitude, s)
  {
  }

  lemma PlainFactsHold(h: seq<Quote>, rule: Rule)
    ensures PlainFacts(MoveOf(h, rule), Series(h), rule)
  {
    PlainDirection(h, rule);
    if MoveOf(h, rule).Moved? {
      MagnitudeMeans(h, rule);
      SizeOfPlain(Series(h), MoveOf(h, rule).signal.direction, MoveOf(h, rule).signal.magnitude);
    }
  }

  predicate AtLeast(x: real, c: real, y: real) { x >= c * y }

  predicate AtMost(x: real, c: real, y: real) { x <= c * y }

  lemma AtLeastLower(x: Price, c: real, low: Price, high: Price)
    requires low <= high && AtLeast(x, c, high)
    ensures AtLeast(x, c, low)
  {
    if c >= 0.0 {
      assert c * low <= c * high;
    } else {
      assert c * low <= 0.0;
    }
  }

  lemma AtMostHigher(x: Price, c: real, low: Price, high: Price)
    requires low <= high && c >= 0.0 && AtMost(x, c, low)
    ensures AtMost(x, c, high)
  {
    assert c * low <= c * high;
  }

  /** Down, or up, to a price by at most this share of another, or by just as much. */
  predicate FallsTo(from: Price, to: Price, share: real) { AtLeast(to, 1.0 - share, from) }

  predicate FallsJustTo(from: Price, to: Price, share: real) { to == (1.0 - share) * from }

  predicate ClimbsTo(from: Price, to: Price, share: real) { AtMost(to, 1.0 + share, from) }

  predicate ClimbsJustTo(from: Price, to: Price, share: real) { to == (1.0 + share) * from }

  /**
   The share by which a series went against its own move: from the first print to the worst, or from the
   best print to the last, whichever is more.
   */
  ghost predicate HandedBack(s: seq<Point>, share: real)
    requires s != []
  {
    var first, last := s[0].1, s[|s| - 1].1;
    if last > first then
      && (forall k :: 0 <= k < |s| ==> FallsTo(first, s[k].1, share) && FallsTo(s[k].1, last, share))
      && (exists k :: 0 <= k < |s| && (FallsJustTo(first, s[k].1, share) || FallsJustTo(s[k].1, last, share)))
    else
      && (forall k :: 0 <= k < |s| ==> ClimbsTo(first, s[k].1, share) && ClimbsTo(s[k].1, last, share))
      && (exists k :: 0 <= k < |s| && (ClimbsJustTo(first, s[k].1, share) || ClimbsJustTo(s[k].1, last, share)))
  }

  lemma ShareOf(a: Price, b: Price, share: real)
    ensures (a - b) / a <= share <==> FallsTo(a, b, share)
    ensures (a - b) / a == share <==> FallsJustTo(a, b, share)
    ensures (b - a) / a <= share <==> ClimbsTo(a, b, share)
    ensures (b - a) / a == share <==> ClimbsJustTo(a, b, share)
  {
    ShareOfAmount(a - b, a, share);
    ShareOfAmount(b - a, a, share);
    assert (1.0 - share) * a == a - share * a && (1.0 + share) * a == a + share * a;
  }

  lemma ShareOfAmount(x: real, a: Price, share: real)
    ensures x / a <= share <==> x <= share * a
    ensures x / a == share <==> x == share * a
  {
    QuotientTimes(x, a);
    if x / a <= share {
      assert x / a * a <= share * a;
    } else {
      assert x / a * a > share * a;
    }
  }

  lemma RatioTimesNet(m: real, net: real)
    requires net > 0.0
    ensures m / net * net == m
  {
  }

  function FallShare(first: Price, last: Price, peak: Price, trough: Price): real { Max((first - trough) / first, (peak - last) / peak) }

  function ClimbShare(first: Price, last: Price, peak: Price, trough: Price): real { Max((peak - first) / first, (last - trough) / trough) }

  predicate IsPlain(d: Direction) { d == Up || d == Down }

  predicate RatioShape(shape: Shape, share: real) {
    && shape.Shape? && (shape.excursionRatio.Some? <==> !IsPlain(shape.direction))
    && (shape.excursionRatio.Some? ==> shape.excursionRatio.value * shape.magnitude == share)
  }

  lemma RisingRatio(first: Price, last: Price, peak: Price, trough: Price, t: real)
    requires last > first
    ensures RatioShape(ShapeOf(first, last, peak, trough, t), FallShare(first, last, peak, trough))
  {
    RatioSign(last - first, first);
    RatioTimesNet(FallShare(first, last, peak, trough), (last - first) / first);
  }

  lemma FallingRatio(first: Price, last: Price, peak: Price, trough: Price, t: real)
    requires last < first
    ensures RatioShape(ShapeOf(first, last, peak, trough, t), ClimbShare(first, last, peak, trough))
  {
    RatioSign(last - first, first);
    RatioTimesNet(ClimbShare(first, last, peak, trough), -((last - first) / first));
  }

  lemma FallExtremes(first: Price, last: Price, peak: Price, trough: Price)
    ensures var share := FallShare(first, last, peak, trough);
            && FallsTo(first, trough, share) && FallsTo(peak, last, share)
            && (FallsJustTo(first, trough, share) || FallsJustTo(peak, last, share))
  {
    ShareOf(first, trough, FallShare(first, last, peak, trough));
    ShareOf(peak, last, FallShare(first, last, peak, trough));
  }

  lemma ClimbExtremes(first: Price, last: Price, peak: Price, trough: Price)
    requires first <= peak
    ensures var share := ClimbShare(first, last, peak, trough);
            && share >= 0.0 && ClimbsTo(first, peak, share) && ClimbsTo(trough, last, share)
            && (ClimbsJustTo(first, peak, share) || ClimbsJustTo(trough, last, share))
  {
    ShareOf(first, peak, ClimbShare(first, last, peak, trough));
    ShareOf(trough, last, ClimbShare(first, last, peak, trough));
    RatioSign(peak - first, first);
  }

  lemma RisingShare(s: seq<Point>, share: real)
    requires s != [] && s[|s| - 1].1 > s[0].1
    requires FallsTo(s[0].1, Trough(s), share) && FallsTo(Peak(s), s[|s| - 1].1, share)
    requires FallsJustTo(s[0].1, Trough(s), share) || FallsJustTo(Peak(s), s[|s| - 1].1, share)
    ensures HandedBack(s, share)
  {
    var last := s[|s| - 1].1;
    forall k | 0 <= k < |s| ensures FallsTo(s[0].1, s[k].1, share) && FallsTo(s[k].1, last, share) {
      AtLeastLower(last, 1.0 - share, s[k].1, Peak(s));
    }
    var i :| 0 <= i < |s| && s[i].1 == Trough(s);
    var j :| 0 <= j < |s| && s[j].1 == Peak(s);
    assert FallsJustTo(s[0].1, s[i].1, share) || FallsJustTo(s[j].1, last, share);
  }

  lemma FallingShare(s: seq<Point>, share: real)
    requires s != [] && s[|s| - 1].1 < s[0].1 && share >= 0.0
    requires ClimbsTo(s[0].1, Peak(s), share) && ClimbsTo(Trough(s), s[|s| - 1].1, share)
    requires ClimbsJustTo(s[0].1, Peak(s), share) || ClimbsJustTo(Trough(s), s[|s| - 1].1, share)
    ensures HandedBack(s, share)
  {
    var last := s[|s| - 1].1;
    forall k | 0 <= k < |s| ensures ClimbsTo(s[0].1, s[k].1, share) && ClimbsTo(s[k].1, last, share) {
      AtMostHigher(last, 1.0 + share, Trough(s), s[k].1);
    }
    var i :| 0 <= i < |s| && s[i].1 == Trough(s);
    var j :| 0 <= j < |s| && s[j].1 == Peak(s);
    assert ClimbsJustTo(s[0].1, s[j].1, share) || ClimbsJustTo(s[i].1, last, share);
  }

  /** The ratio of a shape, on the series it is the shape of. */
  ghost predicate RatioOn(d: Direction, magnitude: real, ratio: Option<real>, s: seq<Point>)
    requires s != []
  {
    && (ratio.Some? <==> !IsPlain(d) && s[0].1 != s[|s| - 1].1)
    && (ratio.Some? ==> HandedBack(s, ratio.value * magnitude))
  }

  lemma RisingSeries(s: seq<Point>, shape: Shape)
    requires s != [] && s[|s| - 1].1 > s[0].1 && RatioShape(shape, FallShare(s[0].1, s[|s| - 1].1, Peak(s), Trough(s)))
    ensures RatioOn(shape.direction, shape.magnitude, shape.excursionRatio, s)
  {
    FallExtremes(s[0].1, s[|s| - 1].1, Peak(s), Trough(s));
    RisingShare(s, FallShare(s[0].1, s[|s| - 1].1, Peak(s), Trough(s)));
  }

  lemma FallingSeries(s: seq<Point>, shape: Shape)
    requires s != [] && s[|s| - 1].1 < s[0].1 && RatioShape(shape, ClimbShare(s[0].1, s[|s| - 1].1, Peak(s), Trough(s)))
    ensures RatioOn(shape.direction, shape.magnitude, shape.excursionRatio, s)
  {
    ClimbExtremes(s[0].1, s[|s| - 1].1, Peak(s), Trough(s));
    FallingShare(s, ClimbShare(s[0].1, s[|s| - 1].1, Peak(s), Trough(s)));
  }

  lemma SeriesRatio(s: seq<Point>, t: real)
    requires s != [] && SeriesShape(s, t).Shape?
    ensures var shape := SeriesShape(s, t); RatioOn(shape.direction, shape.magnitude, shape.excursionRatio, s)
  {
    var first, last := s[0].1, s[|s| - 1].1;
    if last > first {
      RisingRatio(first, last, Peak(s), Trough(s), t);
      RisingSeries(s, SeriesShape(s, t));
    } else if last < first {
      FallingRatio(first, last, Peak(s), Trough(s), t);
      FallingSeries(s, SeriesShape(s, t));
    } else {
      LevelMagnitude(first, Peak(s), Trough(s), t);
    }
  }

  /** The ratio of a reversal, times its size, is the share it handed back; plain moves and level series carry none. */
  lemma RatioMeans(h: seq<Quote>, rule: Rule)
    requires MoveOf(h, rule).Moved?
    ensures var signal := MoveOf(h, rule).signal;
            && Series(h) != [] && RatioOn(signal.direction, signal.magnitude, signal.excursionRatio, Series(h))
            && (signal.excursionRatio.Some? ==> signal.excursionRatio.value >= 1.0)
  {
    ReportsShape(Series(h), Sources(h), rule);
    SeriesRatio(Series(h), rule.minimumExcursion);
  }

  /** A source is among the venues when some priced print names it. */
  ghost predicate Named(h: seq<Quote>, venue: string) { exists q :: q in h && Priced(q) && q.source == Some(venue) }

  /** The counts a signal carries: distinct instants, the time between the outer ones, the venues named, at least one. */
  lemma SignalCounts(h: seq<Quote>, rule: Rule)
    requires MoveOf(h, rule).Moved?
    ensures var signal, s := MoveOf(h, rule).signal, Series(h);
            && signal.sampleCount == |s| > 0 && signal.span == s[|s| - 1].0 - s[0].0
            && (forall v :: v in signal.venues <==> Named(h, v))
            && signal.venueCount == (if |signal.venues| == 0 then 1 else |signal.venues|)
  {
    var signal := MoveOf(h, rule).signal;
    assert signal.venues == Sources(h);
    forall v ensures v in signal.venues <==> Named(h, v) {
      if v in signal.venues {
        var i :| 0 <= i < |h| && Priced(h[i]) && h[i].source == Some(v);
        assert h[i] in h;
      }
      if Named(h, v) {
        var q :| q in h && Priced(q) && q.source == Some(v);
        var i :| 0 <= i < |h| && h[i] == q;
      }
    }
  }

  function LastTrade(price: Price, at: int): Quote { Quote(Some(price), None, None, None, at, Some("tape")) }

  lemma PriceAtThree(h: seq<Quote>, t: int)
    requires |h| == 3 && forall i :: 0 <= i < 3 ==> Priced(h[i])
    ensures PriceAt(h, t) == if h[0].observedAt == t then Some(Basis(h[0]))
                             else if h[1].observedAt == t then Some(Basis(h[1]))
                             else if h[2].observedAt == t then Some(Basis(h[2])) else None
  {
    var a, b := h[1..], h[1..][1..];
    assert a[0] == h[1] && b[0] == h[2] && b[1..] == [];
    assert PriceAt(b, t) == if h[2].observedAt == t then Some(Basis(h[2])) else None;
    assert PriceAt(a, t) == if h[1].observedAt == t then Some(Basis(h[1])) else PriceAt(b, t);
  }

  lemma SeriesOfThree(a: Quote, b: Quote, c: Quote)
    requires Priced(a) && Priced(b) && Priced(c) && a.observedAt < b.observedAt < c.observedAt
    ensures Series([a, b, c]) == [(a.observedAt, Basis(a)), (b.observedAt, Basis(b)), (c.observedAt, Basis(c))]
  {
    var h, s := [a, b, c], [(a.observedAt, Basis(a)), (b.observedAt, Basis(b)), (c.observedAt, Basis(c))];
    forall t: int, p: Price ensures (t, p) in s <==> PriceAt(h, t) == Some(p) {
      PriceAtThree(h, t);
      assert s[0] == (a.observedAt, Basis(a)) && s[1] == (b.observedAt, Basis(b)) && s[2] == (c.observedAt, Basis(c));
    }
    SeriesDetermined(h, s);
  }

  lemma ExtremesOfThree(a: Point, b: Point, c: Point)
    requires a.1 <= c.1 <= b.1
    ensures Peak([a, b, c]) == b.1 && Trough([a, b, c]) == a.1
  {
    assert [a, b, c][1] == b;
  }

  lemma SmallExample()
    ensures SmallReversal(100.0, 115.0, 120.0, 100.0, 0.02)
  {
  }

  lemma ThreePrints(a: Quote, b: Quote, c: Quote, rule: Rule)
    requires Priced(a) && Priced(b) && Priced(c) && a.observedAt < b.observedAt < c.observedAt
    requires Basis(a) <= Basis(c) <= Basis(b) && Enough(rule) <= 3 && c.observedAt - a.observedAt >= rule.minimumSpan
    requires SmallReversal(Basis(a), Basis(c), Basis(b), Basis(a), rule.minimumExcursion)
    ensures MoveOf([a, b, c], rule) == Invalid
  {
    SeriesOfThree(a, b, c);
    ExtremesOfThree((a.observedAt, Basis(a)), (b.observedAt, Basis(b)), (c.observedAt, Basis(c)));
    InvalidExactly([a, b, c], rule);
  }

  lemma ThreeClimbing(a: Quote, b: Quote, c: Quote, rule: Rule, magnitude: real)
    requires Priced(a) && Priced(b) && Priced(c) && a.observedAt < b.observedAt < c.observedAt
    requires Basis(a) <= Basis(b) <= Basis(c) && Enough(rule) <= 3 && c.observedAt - a.observedAt >= rule.minimumSpan
    requires ShapeOf(Basis(a), Basis(c), Basis(c), Basis(a), rule.minimumExcursion) == Shape(Up, magnitude, None)
    ensures MoveOf([a, b, c], rule).Moved?
    ensures var s := MoveOf([a, b, c], rule).signal;
            s.direction == Up && s.magnitude == magnitude && s.venues == Sources([a, b, c])
  {
    SeriesOfThree(a, b, c);
    ClassifyClimb((a.observedAt, Basis(a)), (b.observedAt, Basis(b)), (c.observedAt, Basis(c)), Sources([a, b, c]), rule, magnitude);
  }

  lemma ClassifyClimb(a: Point, b: Point, c: Point, venues: set<string>, rule: Rule, magnitude: real)
    requires a.1 <= b.1 <= c.1 && Enough(rule) <= 3 && c.0 - a.0 >= rule.minimumSpan
    requires ShapeOf(a.1, c.1, c.1, a.1, rule.minimumExcursion) == Shape(Up, magnitude, None)
    ensures ClassifyPoints([a, b, c], venues, rule) ==
            Moved(Signal(Up, magnitude, 3, c.0 - a.0, if |venues| == 0 then 1 else |venues|, venues, None))
  {
    ClimbingExtremes(a, b, c);
  }

  lemma ClimbingExtremes(a: Point, b: Point, c: Point)
    requires a.1 <= b.1 <= c.1
    ensures Peak([a, b, c]) == c.1 && Trough([a, b, c]) == a.1
  {
    assert [a, b, c][1] == b;
  }

  /** 100, 120, 115: up fifteen percent, of which four were handed back. */
  lemma RiseThenEaseIsInvalid()
    ensures MoveOf([LastTrade(100.0, 0), LastTrade(120.0, 300_000_000), LastTrade(115.0, 600_000_000)], DEFAULT_RULE) == Invalid
  {
    SmallExample();
    ThreePrints(LastTrade(100.0, 0), LastTrade(120.0, 300_000_000), LastTrade(115.0, 600_000_000), DEFAULT_RULE);
  }
}
