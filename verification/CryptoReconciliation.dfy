/**
 Reconciling the venues of the spot policy: quotes are filed by venue, prices compared, and the
 quote nearest the middle chosen. When the choice depends on the order of arrival, and when not.
 */
module CryptoReconciliation {
  import opened Wrappers
  import opened Order
  import opened SustainedMoves
  import opened MarketDecision

  // ----- The extremes of a list of prices -------------------------------------------------

  predicate PriceLeq(a: Price, b: Price) { a <= b }

  lemma PriceOrder()
    ensures TotalOrder(PriceLeq)
  {
  }

  lemma {:induction false} ExtremesBound(ps: seq<Price>)
    requires ps != []
    ensures Lowest(ps) in ps && Highest(ps) in ps
    ensures forall x :: x in ps ==> Lowest(ps) <= x <= Highest(ps)
  {
    if |ps| > 1 {
      ExtremesBound(ps[1..]);
      assert forall x :: x in ps <==> x == ps[0] || x in ps[1..];
    }
  }

  lemma ExtremesOfMembers(a: seq<Price>, b: seq<Price>)
    requires a != [] && b != [] && forall x :: x in a <==> x in b
    ensures Lowest(a) == Lowest(b) && Highest(a) == Highest(b)
  {
    ExtremesBound(a);
    ExtremesBound(b);
  }

  lemma EndsOfSorted(s: seq<Price>, low: Price, high: Price)
    requires Sorted(PriceLeq, s) && low in s && high in s && forall x :: x in s ==> low <= x <= high
    ensures s[0] == low && s[|s| - 1] == high
  {
    var i :| 0 <= i < |s| && s[i] == low;
    var j :| 0 <= j < |s| && s[j] == high;
    assert s[0] in s && s[|s| - 1] in s;
    assert i > 0 ==> PriceLeq(s[0], s[i]);
    assert j < |s| - 1 ==> PriceLeq(s[j], s[|s| - 1]);
  }

  function SortedPrices(ps: seq<Price>): (r: seq<Price>)
    ensures Sorted(PriceLeq, r) && |r| == |ps| && forall x :: x in r <==> x in ps
  {
    PriceOrder();
    SortMembers(PriceLeq, ps);
    Sort(PriceLeq, ps)
  }

  /** The ends of the sorted prices are the extremes. */
  lemma SortedEnds(ps: seq<Price>, sorted: seq<Price>)
    requires ps != [] && Sorted(PriceLeq, sorted) && forall x :: x in sorted <==> x in ps
    ensures sorted != [] && sorted[0] == Lowest(ps) && sorted[|sorted| - 1] == Highest(ps)
  {
    ExtremesBound(ps);
    EndsOfSorted(sorted, Lowest(ps), Highest(ps));
  }

  // ----- Filing by venue ------------------------------------------------------------------

  function Filed(qs: seq<Quote>, venue: string): (r: seq<Quote>)
    ensures forall q :: q in r <==> q in qs && Venue(q) == venue
  {
    if qs == [] then []
    else
      var last := qs[|qs| - 1];
      assert forall q :: q in qs <==> q in qs[..|qs| - 1] || q == last;
      Filed(qs[..|qs| - 1], venue) + (if Venue(last) == venue then [last] else [])
  }

  ghost predicate FiledUnder(byVenue: map<string, seq<Quote>>, qs: seq<Quote>) {
    && (forall v :: v in byVenue <==> Filed(qs, v) != [])
    && (forall v :: v in byVenue ==> byVenue[v] == Filed(qs, v))
  }

  lemma FiledNext(qs: seq<Quote>, i: nat, venue: string)
    requires i < |qs|
    ensures Filed(qs[..i + 1], venue) == Filed(qs[..i], venue) + (if Venue(qs[i]) == venue then [qs[i]] else [])
  {
    assert qs[..i + 1][..i] == qs[..i];
  }

  /** `setdefault(...).append(...)`, one quote at a time. */
  method FileByVenue(qs: seq<Quote>) returns (byVenue: map<string, seq<Quote>>)
    ensures FiledUnder(byVenue, qs)
  {
    byVenue := map[];
    for i := 0 to |qs|
      invariant FiledUnder(byVenue, qs[..i])
    {
      forall v: string ensures Filed(qs[..i + 1], v) == Filed(qs[..i], v) + (if Venue(qs[i]) == v then [qs[i]] else []) {
        FiledNext(qs, i, v);
      }
      var venue := Venue(qs[i]);
      byVenue := byVenue[venue := (if venue in byVenue then byVenue[venue] else []) + [qs[i]]];
    }
    assert qs[..|qs|] == qs;
  }

  lemma {:induction false} FirstFiled(qs: seq<Quote>)
    requires qs != []
    ensures Filed(qs, Venue(qs[0])) != [] && Filed(qs, Venue(qs[0]))[0] == qs[0]
  {
    if |qs| == 1 {
      assert qs[..0] == [];
    } else {
      FirstFiled(qs[..|qs| - 1]);
    }
  }

  lemma OnlyKey<K>(keys: set<K>, k: K)
    requires k in keys
    ensures |keys| < 2 <==> forall x :: x in keys ==> x == k
  {
    var rest := keys - {k};
    assert |keys| == |rest| + 1;
    if rest == {} {
      assert keys == {k};
    } else {
      var x :| x in rest;
      assert |rest| > 0;
    }
  }

  lemma KeysAreVenues(byVenue: map<string, seq<Quote>>, qs: seq<Quote>, v: string)
    requires FiledUnder(byVenue, qs)
    ensures v in byVenue <==> exists i :: 0 <= i < |qs| && Venue(qs[i]) == v
  {
    if v in byVenue {
      assert Filed(qs, v)[0] in Filed(qs, v);
      assert Filed(qs, v)[0] in qs;
    }
    if i :| 0 <= i < |qs| && Venue(qs[i]) == v {
      assert qs[i] in Filed(qs, v);
    }
  }

  /** Fewer than two keys is one venue. */
  lemma KeysCountVenues(byVenue: map<string, seq<Quote>>, qs: seq<Quote>)
    requires qs != [] && FiledUnder(byVenue, qs)
    ensures Venue(qs[0]) in byVenue && (|byVenue.Keys| < 2 <==> OneVenue(qs))
  {
    forall v: string ensures v in byVenue.Keys <==> exists i :: 0 <= i < |qs| && Venue(qs[i]) == v {
      KeysAreVenues(byVenue, qs, v);
    }
    OneVenueKeys(byVenue.Keys, qs);
  }

  lemma OneVenueKeys(keys: set<string>, qs: seq<Quote>)
    requires qs != [] && forall v :: v in keys <==> exists i :: 0 <= i < |qs| && Venue(qs[i]) == v
    ensures Venue(qs[0]) in keys && (|keys| < 2 <==> OneVenue(qs))
  {
    OnlyKey(keys, Venue(qs[0]));
    forall i | 0 <= i < |qs| ensures Venue(qs[i]) in keys {}
  }

  /** The policy's `reconcile`: no quotes decline. */
  function Choice(p: Policy, qs: seq<Quote>): Option<Quote> { if qs == [] then None else Reconcile(p, qs) }

  /** Venues that disagree, or whose quotes carry no comparable price. */
  predicate Declined(p: Policy, qs: seq<Quote>)
    requires p.Crypto?
  {
    |Values(Midpoint, qs)| < 2 || Spread(Values(Midpoint, qs)) > p.disagreement
  }

  lemma ChoiceAcrossVenues(p: Policy, qs: seq<Quote>)
    requires p.Crypto? && qs != []
    ensures OneVenue(qs) ==> Choice(p, qs) == Some(qs[0])
    ensures !OneVenue(qs) ==>
              Choice(p, qs) == if Declined(p, qs) then None else Nearest(Midpoint, Centre(Values(Midpoint, qs)), qs)
  {
  }

  /** The comparison of two or more prices, from the ends of the sorted list. */
  method ComparePrices(p: Policy, qs: seq<Quote>) returns (centre: Option<real>)
    requires p.Crypto?
    ensures centre == if Declined(p, qs) then None else Some(Centre(Values(Midpoint, qs)))
  {
    var midpoints := SortedPrices(Values(Midpoint, qs));
    if |midpoints| < 2 {
      return None;
    }
    SortedEnds(Values(Midpoint, qs), midpoints);
    var low, high := midpoints[0], midpoints[|midpoints| - 1];
    if (high - low) / low > p.disagreement {
      return None;
    }
    return Some((low + high) / 2.0);
  }

  method ReconcileCrypto(p: Policy, qs: seq<Quote>) returns (chosen: Option<Quote>)
    requires p.Crypto?
    ensures chosen == Choice(p, qs)
  {
    if qs == [] {
      return None;
    }
    var byVenue := FileByVenue(qs);
    KeysCountVenues(byVenue, qs);
    FirstFiled(qs);
    ChoiceAcrossVenues(p, qs);
    if |byVenue.Keys| < 2 {
      return Some(byVenue[Venue(qs[0])][0]);
    }
    var centre := ComparePrices(p, qs);
    if centre.None? {
      return None;
    }
    return Nearest(Midpoint, centre.value, qs);
  }

  // ----- Does the order of arrival matter? ------------------------------------------------

  /** Nobody is nearer to the centre than `q`, source names breaking ties. */
  ghost predicate IsNearest(qs: seq<Quote>, centre: real, q: Quote) {
    && q in qs && Midpoint(q).Some?
    && forall x :: x in qs && Midpoint(x).Some? ==> !NearerThan(Midpoint, centre, x, q)
  }

  lemma NearerIsTransitive(centre: real, a: Quote, b: Quote, c: Quote)
    requires Midpoint(a).Some? && Midpoint(b).Some? && Midpoint(c).Some?
    requires !NearerThan(Midpoint, centre, a, b) && !NearerThan(Midpoint, centre, b, c)
    ensures !NearerThan(Midpoint, centre, a, c)
  {
    StringOrderIsTotal();
  }

  lemma {:induction false} NearestIsNearest(qs: seq<Quote>, centre: real)
    ensures Nearest(Midpoint, centre, qs).Some? ==> IsNearest(qs, centre, Nearest(Midpoint, centre, qs).value)
  {
    if qs != [] {
      var front, last := qs[..|qs| - 1], qs[|qs| - 1];
      NearestIsNearest(front, centre);
      assert forall x :: x in qs <==> x in front || x == last;
      StringOrderIsTotal();
      var r := Nearest(Midpoint, centre, qs);
      if r.Some? && Nearest(Midpoint, centre, front).Some? {
        forall x | x in qs && Midpoint(x).Some? ensures !NearerThan(Midpoint, centre, x, r.value) {
          if x in front {
            NearerIsTransitive(centre, x, Nearest(Midpoint, centre, front).value, r.value);
          }
        }
      }
    }
  }

  /** Of the nearest quotes, the first wins. */
  lemma {:induction false} FirstNearestWins(qs: seq<Quote>, centre: real)
    requires qs != [] && IsNearest(qs, centre, qs[0])
    ensures Nearest(Midpoint, centre, qs) == Some(qs[0])
  {
    var front, last := qs[..|qs| - 1], qs[|qs| - 1];
    assert forall x :: x in front ==> x in qs;
    if |qs| > 1 {
      FirstNearestWins(front, centre);
      assert last in qs;
    } else {
      assert Nearest(Midpoint, centre, []) == None;
    }
  }

  lemma {:induction false} ValuesWithout(qs: seq<Quote>, i: nat)
    requires i < |qs|
    ensures multiset(Values(Midpoint, qs)) ==
            multiset(Values(Midpoint, Without(qs, i))) + (if Midpoint(qs[i]).Some? then multiset{Midpoint(qs[i]).value} else multiset{})
  {
    if i == 0 {
      assert Without(qs, 0) == qs[1..];
    } else {
      WithoutLater(qs, i);
      ValuesWithout(qs[1..], i - 1);
      assert ([qs[0]] + Without(qs[1..], i - 1))[1..] == Without(qs[1..], i - 1);
    }
  }

  lemma {:induction false} ValuesRearranged(a: seq<Quote>, b: seq<Quote>)
    requires multiset(a) == multiset(b)
    ensures multiset(Values(Midpoint, a)) == multiset(Values(Midpoint, b))
    decreases |a|
  {
    if a == [] {
      assert |multiset(b)| == 0;
      assert b == [];
    } else {
      assert a[0] in multiset(b);
      var i :| 0 <= i < |b| && b[i] == a[0];
      DropHead(a);
      WithoutOne(b, i);
      ValuesRearranged(a[1..], Without(b, i));
      ValuesWithout(b, i);
      assert Without(a, 0) == a[1..];
      ValuesWithout(a, 0);
    }
  }

  lemma SameMembers<T>(a: seq<T>, b: seq<T>)
    requires multiset(a) == multiset(b)
    ensures |a| == |b| && forall x :: x in a <==> x in b
  {
    assert |a| == |multiset(a)| && |b| == |multiset(b)|;
    forall x ensures x in a <==> x in b {
      assert x in multiset(a) <==> x in multiset(b);
    }
  }

  lemma MiddleOfMembers(a: seq<Price>, b: seq<Price>)
    requires multiset(a) == multiset(b)
    ensures |a| == |b|
    ensures a != [] ==> Centre(a) == Centre(b) && Spread(a) == Spread(b)
  {
    SameMembers(a, b);
    if a != [] {
      ExtremesOfMembers(a, b);
    }
  }

  /** What the comparison of prices depends on is the same for every rearrangement. */
  lemma ComparisonRearranged(a: seq<Quote>, b: seq<Quote>)
    requires multiset(a) == multiset(b)
    ensures |Values(Midpoint, a)| == |Values(Midpoint, b)|
    ensures Values(Midpoint, a) != [] ==> Centre(Values(Midpoint, a)) == Centre(Values(Midpoint, b))
    ensures Values(Midpoint, a) != [] ==> Spread(Values(Midpoint, a)) == Spread(Values(Midpoint, b))
    ensures |a| == |b| && forall q :: q in a <==> q in b
  {
    ValuesRearranged(a, b);
    MiddleOfMembers(Values(Midpoint, a), Values(Midpoint, b));
    SameMembers(a, b);
  }

  lemma OneVenueRearranged(a: seq<Quote>, b: seq<Quote>)
    requires forall q :: q in a <==> q in b
    requires OneVenue(a)
    ensures OneVenue(b)
  {
    forall i | 0 <= i < |b| ensures Venue(b[i]) == Venue(b[0]) {
      assert b[i] in a && b[0] in a;
    }
  }

  ghost predicate OrderIrrelevant(p: Policy, qs: seq<Quote>) {
    forall other :: multiset(other) == multiset(qs) ==> Choice(p, other) == Choice(p, qs)
  }

  /** One venue that sent one report, or several that disagree or leave one nearest quote. */
  ghost predicate Unambiguous(p: Policy, qs: seq<Quote>)
    requires p.Crypto?
  {
    if OneVenue(qs) then forall q :: q in qs ==> q == qs[0]
    else Declined(p, qs) || OneNearest(qs, Centre(Values(Midpoint, qs)))
  }

  ghost predicate OneNearest(qs: seq<Quote>, centre: real) {
    forall a, b :: IsNearest(qs, centre, a) && IsNearest(qs, centre, b) ==> a == b
  }

  lemma UnambiguousIsStable(p: Policy, qs: seq<Quote>, other: seq<Quote>)
    requires p.Crypto? && Unambiguous(p, qs) && multiset(other) == multiset(qs)
    ensures Choice(p, other) == Choice(p, qs)
  {
    ComparisonRearranged(other, qs);
    if qs != [] {
      assert other[0] in qs && qs[0] in other;
      if OneVenue(qs) {
        OneVenueRearranged(qs, other);
      } else if !Declined(p, qs) {
        if OneVenue(other) {
          OneVenueRearranged(other, qs);
        }
        var centre := Centre(Values(Midpoint, qs));
        NearestIsNearest(qs, centre);
        NearestIsNearest(other, centre);
        SomeNearest(qs, centre);
        SomeNearest(other, centre);
        assert IsNearest(qs, centre, Nearest(Midpoint, centre, other).value);
      } else if OneVenue(other) {
        OneVenueRearranged(other, qs);
      }
    }
  }

  lemma {:induction false} SomeNearest(qs: seq<Quote>, centre: real)
    requires Values(Midpoint, qs) != []
    ensures Nearest(Midpoint, centre, qs).Some?
  {
    if Midpoint(qs[0]).Some? {
      assert qs[0] in qs;
    } else {
      SomeNearest(qs[1..], centre);
      var q := Nearest(Midpoint, centre, qs[1..]).value;
      assert q in qs[1..];
      assert q in qs;
    }
  }

  /** The list with its `i`-th quote moved to the front. */
  function Fronted(qs: seq<Quote>, i: nat): seq<Quote>
    requires i < |qs|
  {
    [qs[i]] + Without(qs, i)
  }

  lemma FrontedChoice(p: Policy, qs: seq<Quote>, i: nat)
    requires p.Crypto? && i < |qs|
    ensures multiset(Fronted(qs, i)) == multiset(qs)
    ensures OneVenue(qs) ==> Choice(p, Fronted(qs, i)) == Some(qs[i])
    ensures !OneVenue(qs) && !Declined(p, qs) && IsNearest(qs, Centre(Values(Midpoint, qs)), qs[i]) ==>
              Choice(p, Fronted(qs, i)) == Some(qs[i])
  {
    var fronted := Fronted(qs, i);
    WithoutOne(qs, i);
    ComparisonRearranged(fronted, qs);
    if OneVenue(qs) {
      OneVenueRearranged(qs, fronted);
    } else {
      if OneVenue(fronted) {
        OneVenueRearranged(fronted, qs);
      }
      if !Declined(p, qs) && IsNearest(qs, Centre(Values(Midpoint, qs)), qs[i]) {
        FirstNearestWins(fronted, Centre(Values(Midpoint, qs)));
      }
    }
  }

  /**
   The order of arrival is irrelevant exactly for unambiguous evidence: a single venue must have sent
   only one report, and agreeing venues must leave no tie in distance and source.
   */
  lemma OrderIrrelevantExactly(p: Policy, qs: seq<Quote>)
    requires p.Crypto?
    ensures OrderIrrelevant(p, qs) <==> Unambiguous(p, qs)
  {
    if Unambiguous(p, qs) {
      forall other | multiset(other) == multiset(qs) ensures Choice(p, other) == Choice(p, qs) {
        UnambiguousIsStable(p, qs, other);
      }
    } else if OneVenue(qs) {
      var i :| 0 <= i < |qs| && qs[i] != qs[0];
      FrontedChoice(p, qs, i);
      assert Choice(p, Fronted(qs, i)) != Choice(p, qs);
    } else {
      AmbiguousIsUnstable(p, qs);
    }
  }

  lemma AmbiguousIsUnstable(p: Policy, qs: seq<Quote>)
    requires p.Crypto? && !OneVenue(qs) && !Declined(p, qs) && !OneNearest(qs, Centre(Values(Midpoint, qs)))
    ensures !OrderIrrelevant(p, qs)
  {
    var centre := Centre(Values(Midpoint, qs));
    var a, b :| IsNearest(qs, centre, a) && IsNearest(qs, centre, b) && a != b;
    var i :| 0 <= i < |qs| && qs[i] == a;
    var j :| 0 <= j < |qs| && qs[j] == b;
    FrontedChoice(p, qs, i);
    FrontedChoice(p, qs, j);
    assert Choice(p, Fronted(qs, i)) != Choice(p, Fronted(qs, j));
  }

  // ----- Two orders, two choices ----------------------------------------------------------------

  function Tick(price: Price, venue: string): Quote { Quote(Some(price), None, None, None, 0, Some(venue)) }

  /** The spot policy with the thresholds it ships with. */
  const SPOT := Crypto(0.08, 0.005)

  lemma TickSpread(a: Quote, b: Quote, c: Quote)
    requires Midpoint(a).Some? && Midpoint(b).Some? && Midpoint(c).Some?
    ensures Values(Midpoint, [a, b, c]) == [Midpoint(a).value, Midpoint(b).value, Midpoint(c).value]
  {
    assert [a, b, c][1..] == [b, c] && [b, c][1..] == [c] && [c][1..] == [];
    assert Values(Midpoint, [c]) == [Midpoint(c).value];
    assert Values(Midpoint, [b, c]) == [Midpoint(b).value, Midpoint(c).value];
  }

  lemma ThreeExtremes(a: Price, b: Price, c: Price)
    ensures Lowest([a, b, c]) == if a <= b && a <= c then a else if b <= c then b else c
    ensures Highest([a, b, c]) == if a >= b && a >= c then a else if b >= c then b else c
  {
    assert [a, b, c][1..] == [b, c] && [b, c][1..] == [c];
    assert Lowest([b, c]) == (if b <= c then b else c) && Highest([b, c]) == (if b >= c then b else c);
  }

  lemma TiedPrices()
    ensures Centre([999.0, 1001.0, 999.0]) == 1000.0 == Centre([1001.0, 999.0, 999.0])
    ensures Spread([999.0, 1001.0, 999.0]) <= 0.005 && Spread([1001.0, 999.0, 999.0]) <= 0.005
  {
    ThreeExtremes(999.0, 1001.0, 999.0);
    ThreeExtremes(1001.0, 999.0, 999.0);
  }

  /** Of two reports of one venue, equally far from the middle and level with another venue, the first wins. */
  lemma FirstReportWins(a: Quote, b: Quote, c: Quote)
    requires {a, b} == {Tick(999.0, "coin"), Tick(1001.0, "coin")} && a != b && c == Tick(999.0, "kraken")
    ensures Choice(SPOT, [a, b, c]) == Some(a)
  {
    TickSpread(a, b, c);
    TiedPrices();
    var qs := [a, b, c];
    assert "coin"[0] == 'c' && "kraken"[0] == 'k';
    assert Venue(qs[0]) == "coin" && Venue(qs[2]) == "kraken";
    ChoiceAcrossVenues(SPOT, qs);
    assert IsNearest(qs, 1000.0, qs[0]);
    FirstNearestWins(qs, 1000.0);
  }

  /** Two venues that agree, and yet the order of the reports decides. */
  lemma OrderDecides()
    ensures Choice(SPOT, [Tick(999.0, "coin"), Tick(1001.0, "coin"), Tick(999.0, "kraken")]) == Some(Tick(999.0, "coin"))
    ensures Choice(SPOT, [Tick(1001.0, "coin"), Tick(999.0, "coin"), Tick(999.0, "kraken")]) == Some(Tick(1001.0, "coin"))
  {
    FirstReportWins(Tick(999.0, "coin"), Tick(1001.0, "coin"), Tick(999.0, "kraken"));
    FirstReportWins(Tick(1001.0, "coin"), Tick(999.0, "coin"), Tick(999.0, "kraken"));
  }
}
