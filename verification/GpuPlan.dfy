/** Greedy GPU choice for a stage, over real minutes: largest free time first, ties by id. */
module GpuPlan {
  import opened Order
  import opened Rounding

  datatype Candidate = Candidate(id: string, minutes: real, trusted: bool)

  /** A trusted candidate, as the greedy loop sees it. */
  datatype Device = Device(id: string, minutes: real)

  function Trusted(pool: seq<Candidate>): seq<Device> {
    if pool == [] then []
    else TrustedOne(pool[0]) + Trusted(pool[1..])
  }

  predicate LargestFirst(a: Device, b: Device) {
    a.minutes > b.minutes || (a.minutes == b.minutes && StringLeq(a.id, b.id))
  }

  lemma LargestFirstIsTotal()
    ensures TotalOrder(LargestFirst) && Antisymmetric(LargestFirst)
  {
    forall a: Device, b: Device ensures LargestFirst(a, b) || LargestFirst(b, a) {
      StringLeqTotal(a.id, b.id);
    }
    forall a: Device, b: Device, c: Device | LargestFirst(a, b) && LargestFirst(b, c) ensures LargestFirst(a, c) {
      if a.minutes == b.minutes == c.minutes {
        StringLeqTransitive(a.id, b.id, c.id);
      }
    }
    forall a: Device, b: Device | LargestFirst(a, b) && LargestFirst(b, a) ensures a == b {
      StringLeqAntisymmetric(a.id, b.id);
    }
  }

  function Ranked(pool: seq<Candidate>): (r: seq<Device>)
    ensures Sorted(LargestFirst, r) && multiset(r) == multiset(Trusted(pool))
  {
    LargestFirstIsTotal();
    Sort(LargestFirst, Trusted(pool))
  }

  /** The devices the loop takes from the ranked ones while something remains. */
  function Take(needed: real, ranked: seq<Device>): seq<Device>
    decreases |ranked|
  {
    if ranked == [] || needed <= 0.0 then []
    else if ranked[0].minutes <= 0.0 then Take(needed, ranked[1..])
    else [ranked[0]] + Take(needed - ranked[0].minutes, ranked[1..])
  }

  function Ids(devices: seq<Device>): (r: seq<string>)
    ensures |r| == |devices|
  {
    seq(|devices|, i requires 0 <= i < |devices| => devices[i].id)
  }

  function Chosen(needed: real, pool: seq<Candidate>): seq<Device> { Take(needed, Ranked(pool)) }

  /** The loop over the ranked devices. */
  method TakeDevices(needed: real, usable: seq<Device>) returns (devices: seq<Device>)
    ensures devices == Take(needed, usable)
  {
    devices := [];
    var remaining := needed;
    var i := 0;
    while i < |usable| && remaining > 0.0
      invariant i <= |usable|
      invariant devices + Take(remaining, usable[i..]) == Take(needed, usable)
    {
      TakeStep(remaining, usable, i);
      if usable[i].minutes > 0.0 {
        var take := Smaller(usable[i].minutes, remaining);
        Joined(devices, [usable[i]], Take(remaining - take, usable[i + 1..]));
        remaining := remaining - take;
        devices := devices + [usable[i]];
      }
      i := i + 1;
    }
    assert devices + [] == devices;
  }

  /** `_select_gpus`. */
  method SelectGpus(needed: real, pool: seq<Candidate>) returns (chosen: seq<string>)
    ensures chosen == Ids(Chosen(needed, pool))
  {
    var devices := TakeDevices(needed, Ranked(pool));
    chosen := Ids(devices);
  }

  function Smaller(a: real, b: real): real { if a <= b then a else b }

  lemma Joined<T>(a: seq<T>, b: seq<T>, c: seq<T>)
    ensures a + (b + c) == (a + b) + c
  {
  }

  /** Taking only what remains, rather than all a device has, makes no difference to later choices. */
  lemma TakeStep(remaining: real, ranked: seq<Device>, i: nat)
    requires i < |ranked| && remaining > 0.0
    ensures Take(remaining, ranked[i..]) ==
            if ranked[i].minutes <= 0.0 then Take(remaining, ranked[i + 1..])
            else [ranked[i]] + Take(remaining - Smaller(ranked[i].minutes, remaining), ranked[i + 1..])
  {
    assert ranked[i..][1..] == ranked[i + 1..];
  }

  // ----- What the choice achieves --------------------------------------------------------------

  /** Free time counts only when there is some. */
  function Free(d: Device): real { if d.minutes > 0.0 then d.minutes else 0.0 }

  function Total(devices: seq<Device>): real {
    if devices == [] then 0.0 else Free(devices[0]) + Total(devices[1..])
  }

  /** Devices drawn from the pool's trusted ones, each at most as often as it is listed. */
  predicate DrawnFrom(devices: seq<Device>, pool: seq<Candidate>) {
    multiset(devices) <= multiset(Trusted(pool))
  }

  /** The greedy choice is a prefix of the ranking, and no longer than it must be. */
  lemma {:induction false} TakePrefix(needed: real, ranked: seq<Device>) returns (k: nat)
    requires Sorted(LargestFirst, ranked)
    ensures k <= |ranked| && Take(needed, ranked) == ranked[..k]
    ensures forall i :: 0 <= i < k ==> ranked[i].minutes > 0.0
    ensures k > 0 ==> Total(ranked[..k - 1]) < needed
    ensures Total(ranked[..k]) >= needed || Total(ranked[..k]) == Total(ranked)
    ensures Total(ranked[..k]) < needed ==> forall i :: k <= i < |ranked| ==> ranked[i].minutes <= 0.0
    decreases |ranked|
  {
    if ranked == [] || needed <= 0.0 {
      k := 0;
      TotalNonnegative(ranked[..0]);
    } else if ranked[0].minutes <= 0.0 {
      k := 0;
      NothingFree(ranked);
      NothingTaken(needed, ranked);
    } else {
      var j := TakePrefix(needed - ranked[0].minutes, ranked[1..]);
      k := j + 1;
      assert ranked[..k] == [ranked[0]] + ranked[1..][..j];
      if j > 0 {
        assert ranked[..k - 1] == [ranked[0]] + ranked[1..][..j - 1];
      } else {
        assert ranked[..0] == [];
      }
    }
  }

  lemma {:induction false} TotalNonnegative(devices: seq<Device>)
    ensures Total(devices) >= 0.0
  {
    if devices != [] {
      TotalNonnegative(devices[1..]);
    }
  }

  lemma {:induction false} NothingFree(ranked: seq<Device>)
    requires Sorted(LargestFirst, ranked) && (ranked == [] || ranked[0].minutes <= 0.0)
    ensures Total(ranked) == 0.0 && forall i :: 0 <= i < |ranked| ==> ranked[i].minutes <= 0.0
  {
    if ranked != [] {
      assert |ranked| > 1 ==> LargestFirst(ranked[0], ranked[1]);
      NothingFree(ranked[1..]);
    }
  }

  lemma {:induction false} NothingTaken(needed: real, ranked: seq<Device>)
    requires forall i :: 0 <= i < |ranked| ==> ranked[i].minutes <= 0.0
    ensures Take(needed, ranked) == []
  {
    if ranked != [] {
      NothingTaken(needed, ranked[1..]);
    }
  }

  lemma {:induction false} TotalConcat(a: seq<Device>, b: seq<Device>)
    ensures Total(a + b) == Total(a) + Total(b)
  {
    if a == [] {
      assert a + b == b;
    } else {
      TotalConcat(a[1..], b);
      assert (a + b)[1..] == a[1..] + b;
    }
  }

  lemma {:induction false} TotalWithout(devices: seq<Device>, i: nat)
    requires i < |devices|
    ensures Total(devices) == Free(devices[i]) + Total(Without(devices, i))
  {
    if i > 0 {
      WithoutLater(devices, i);
      TotalWithout(devices[1..], i - 1);
    } else {
      assert Without(devices, 0) == devices[1..];
    }
  }

  /** No choice of as many devices has more free time than the top of the ranking. */
  lemma {:induction false} TopOfRanking(ranked: seq<Device>, other: seq<Device>)
    requires Sorted(LargestFirst, ranked) && multiset(other) <= multiset(ranked)
    ensures |other| <= |ranked| && Total(other) <= Total(ranked[..|other|])
    decreases |ranked|
  {
    SubmultisetSize(other, ranked);
    if other != [] {
      if ranked[0] in other {
        var i :| 0 <= i < |other| && other[i] == ranked[0];
        WithoutTop(ranked, other, i);
        TopOfRanking(ranked[1..], Without(other, i));
        TotalWithout(other, i);
        PrefixCons(ranked, |other|);
      } else {
        BelowTop(ranked, other);
        TopOfRanking(ranked[1..], other);
        ShiftedTotal(ranked, |other|);
      }
    }
  }

  lemma WithoutTop(ranked: seq<Device>, other: seq<Device>, i: nat)
    requires ranked != [] && i < |other| && other[i] == ranked[0] && multiset(other) <= multiset(ranked)
    ensures multiset(Without(other, i)) <= multiset(ranked[1..])
  {
    WithoutOne(other, i);
    DropHead(ranked);
  }

  lemma BelowTop(ranked: seq<Device>, other: seq<Device>)
    requires ranked != [] && ranked[0] !in other && multiset(other) <= multiset(ranked)
    ensures multiset(other) <= multiset(ranked[1..]) && |other| <= |ranked| - 1
  {
    DropHead(ranked);
    assert ranked[0] !in multiset(other);
    SubmultisetSize(other, ranked[1..]);
  }

  lemma SubmultisetSize(a: seq<Device>, b: seq<Device>)
    requires multiset(a) <= multiset(b)
    ensures |a| <= |b|
  {
    assert multiset(b) == multiset(a) + (multiset(b) - multiset(a));
    assert |multiset(a)| == |a| && |multiset(b)| == |b|;
  }

  lemma {:induction false} ShiftedTotal(ranked: seq<Device>, n: nat)
    requires Sorted(LargestFirst, ranked) && n + 1 <= |ranked|
    ensures Total(ranked[1..][..n]) <= Total(ranked[..n])
  {
    if n > 0 {
      assert LargestFirst(ranked[0], ranked[1]);
      ShiftedTotal(ranked[1..], n - 1);
      PrefixCons(ranked, n);
      PrefixCons(ranked[1..], n);
    }
  }

  lemma {:induction false} TotalOfMultiset(a: seq<Device>, b: seq<Device>)
    requires multiset(a) == multiset(b)
    ensures Total(a) == Total(b)
  {
    SameSize(a, b);
    if a != [] {
      assert a[0] in multiset(b);
      var i :| 0 <= i < |b| && b[i] == a[0];
      TotalWithout(b, i);
      WithoutOne(b, i);
      DropHead(a);
      TotalOfMultiset(a[1..], Without(b, i));
    }
  }

  /**
   The choice covers the need whenever all trusted devices together can, with as few devices as any
   covering choice; when they cannot, it takes every trusted device that has free time.
   */
  lemma GreedyIsBest(needed: real, pool: seq<Candidate>)
    ensures DrawnFrom(Chosen(needed, pool), pool)
    ensures Total(Trusted(pool)) >= needed ==> Total(Chosen(needed, pool)) >= needed
    ensures forall other :: DrawnFrom(other, pool) && Total(other) >= needed ==> |other| >= |Chosen(needed, pool)|
    ensures Total(Trusted(pool)) < needed ==> forall d :: d in Chosen(needed, pool) <==> d in Trusted(pool) && d.minutes > 0.0
  {
    var ranked := Ranked(pool);
    var k := TakePrefix(needed, ranked);
    TotalOfMultiset(ranked, Trusted(pool));
    assert ranked == ranked[..k] + ranked[k..];
    NoneSmaller(needed, ranked, k);
    SameDevices(ranked, Trusted(pool));
    if Total(Trusted(pool)) < needed {
      TotalConcat(ranked[..k], ranked[k..]);
      TotalNonnegative(ranked[k..]);
      PositivePrefix(ranked, k);
    }
  }

  lemma SameDevices(a: seq<Device>, b: seq<Device>)
    requires multiset(a) == multiset(b)
    ensures forall d :: d in a <==> d in b
  {
    forall d ensures d in a <==> d in b {
      assert d in multiset(a) <==> d in multiset(b);
    }
  }

  lemma NoneSmaller(needed: real, ranked: seq<Device>, k: nat)
    requires Sorted(LargestFirst, ranked) && k <= |ranked| && (k > 0 ==> Total(ranked[..k - 1]) < needed)
    ensures forall other :: multiset(other) <= multiset(ranked) && Total(other) >= needed ==> |other| >= k
  {
    forall other | multiset(other) <= multiset(ranked) && Total(other) >= needed ensures |other| >= k {
      FewerFallShort(needed, ranked, k, other);
    }
  }

  lemma PositivePrefix(ranked: seq<Device>, k: nat)
    requires k <= |ranked|
    requires forall i :: 0 <= i < k ==> ranked[i].minutes > 0.0
    requires forall i :: k <= i < |ranked| ==> ranked[i].minutes <= 0.0
    ensures forall d :: d in ranked[..k] <==> d in ranked && d.minutes > 0.0
  {
    forall d | d in ranked && d.minutes > 0.0 ensures d in ranked[..k] {
      var i :| 0 <= i < |ranked| && ranked[i] == d;
      assert i < k;
    }
  }

  lemma FewerFallShort(needed: real, ranked: seq<Device>, k: nat, other: seq<Device>)
    requires Sorted(LargestFirst, ranked) && multiset(other) <= multiset(ranked) && k <= |ranked|
    requires k > 0 ==> Total(ranked[..k - 1]) < needed
    requires Total(other) >= needed
    ensures |other| >= k
  {
    TopOfRanking(ranked, other);
    if |other| < k {
      LongerPrefix(ranked, |other|, k - 1);
    }
  }

  lemma LongerPrefix(ranked: seq<Device>, m: nat, n: nat)
    requires m <= n <= |ranked|
    ensures Total(ranked[..m]) <= Total(ranked[..n])
  {
    assert ranked[..n] == ranked[..m] + ranked[m..n];
    TotalConcat(ranked[..m], ranked[m..n]);
    TotalNonnegative(ranked[m..n]);
  }

  /** The order in which the inventory lists the devices never matters. */
  lemma PoolOrderIrrelevant(needed: real, pool: seq<Candidate>, other: seq<Candidate>)
    requires multiset(pool) == multiset(other)
    ensures Chosen(needed, pool) == Chosen(needed, other)
  {
    TrustedOfMultiset(pool, other);
    LargestFirstIsTotal();
    SortedUnique(LargestFirst, Ranked(pool), Ranked(other));
  }

  function TrustedOne(c: Candidate): seq<Device> { if c.trusted then [Device(c.id, c.minutes)] else [] }

  lemma {:induction false} TrustedWithout(pool: seq<Candidate>, i: nat)
    requires i < |pool|
    ensures multiset(Trusted(pool)) == multiset(Trusted(Without(pool, i))) + multiset(TrustedOne(pool[i]))
  {
    if i == 0 {
      assert Without(pool, 0) == pool[1..];
    } else {
      TrustedWithout(pool[1..], i - 1);
      WithoutLater(pool, i);
    }
  }

  lemma {:induction false} TrustedOfMultiset(a: seq<Candidate>, b: seq<Candidate>)
    requires multiset(a) == multiset(b)
    ensures multiset(Trusted(a)) == multiset(Trusted(b))
  {
    SameSize(a, b);
    if a != [] {
      assert a[0] in multiset(b);
      var i :| 0 <= i < |b| && b[i] == a[0];
      TrustedWithout(b, i);
      WithoutOne(b, i);
      DropHead(a);
      TrustedOfMultiset(a[1..], Without(b, i));
    }
  }

  // ----- Placing a chain of stages -------------------------------------------------------------

  function Sum(minutes: seq<real>): real {
    if minutes == [] then 0.0 else Sum(minutes[..|minutes| - 1]) + minutes[|minutes| - 1]
  }

  const CENTS := 100.0

  /** `within_budget`: the sum, rounded to two decimals, against the budget. */
  predicate Funded(needs: seq<real>, budget: real) { RoundTo(Sum(needs), CENTS) <= budget }

  /** A chain that is not funded, or that is not ready, places nothing at all. */
  method PlaceChain(needs: seq<real>, budget: real, ready: bool, pool: seq<Candidate>) returns (within: bool, placed: seq<seq<string>>)
    ensures within <==> ready && Funded(needs, budget)
    ensures |placed| == |needs|
    ensures forall k :: 0 <= k < |needs| ==> placed[k] == if within then Ids(Chosen(needs[k], pool)) else []
  {
    var total := 0.0;
    for k := 0 to |needs|
      invariant total == Sum(needs[..k])
    {
      assert needs[..k + 1][..k] == needs[..k];
      total := total + needs[k];
    }
    assert needs[..|needs|] == needs;
    within := ready && RoundTo(total, CENTS) <= budget;
    placed := [];
    for k := 0 to |needs|
      invariant |placed| == k
      invariant forall j :: 0 <= j < k ==> placed[j] == if within then Ids(Chosen(needs[j], pool)) else []
    {
      var ids := [];
      if within {
        ids := SelectGpus(needs[k], pool);
      }
      placed := placed + [ids];
    }
  }

  lemma NearestAtMost(y: real, c: real)
    ensures var f := c.Floor; Nearest(y) as real <= c <==> y < f as real + 0.5 || (y == f as real + 0.5 && f % 2 == 0)
  {
    var f := c.Floor;
    assert Nearest(y) as real <= c <==> Nearest(y) <= f;
    if y < f as real + 0.5 {
      assert y.Floor <= f;
    }
  }

  /** The total is funded in whole hundredths: up to half a hundredth above those of the budget, that half only if they are even. */
  lemma FundedExactly(needs: seq<real>, budget: real)
    ensures var f := (budget * CENTS).Floor;
            var y := Sum(needs) * CENTS;
            Funded(needs, budget) <==> y < f as real + 0.5 || (y == f as real + 0.5 && f % 2 == 0)
  {
    var y := Sum(needs) * CENTS;
    OverOrder(Nearest(y) as real, budget, CENTS);
    NearestAtMost(y, budget * CENTS);
  }

  /** What a job asks for: three stages or four, each of some minutes. */
  predicate IsChain(needs: seq<real>) { 3 <= |needs| <= 4 && forall k :: 0 <= k < |needs| ==> needs[k] > 0.0 }

  ghost predicate FundsWhatFits(budget: real) { forall needs :: IsChain(needs) && Sum(needs) <= budget ==> Funded(needs, budget) }

  ghost predicate FundsOnlyWhatFits(budget: real) { forall needs :: IsChain(needs) && Funded(needs, budget) ==> Sum(needs) <= budget }

  function Part(budget: real): real { budget * CENTS - (budget * CENTS).Floor as real }

  function Thirds(total: real): seq<real> { [total / 3.0, total / 3.0, total / 3.0] }

  lemma SumOfThree(a: real, b: real, c: real)
    ensures Sum([a, b, c]) == a + b + c
  {
    assert [a, b, c][..2] == [a, b] && [a, b][..1] == [a] && [a][..0] == [];
    assert Sum([a]) == a;
    assert Sum([a, b]) == a + b;
  }

  lemma ThirdsAreChain(total: real)
    requires total > 0.0
    ensures IsChain(Thirds(total)) && Sum(Thirds(total)) == total
  {
    SumOfThree(total / 3.0, total / 3.0, total / 3.0);
  }

  /** A budget funds every chain it covers exactly when what it has beyond whole hundredths is under half a hundredth, or an even half. */
  lemma FundsWhatFitsExactly(budget: real)
    requires budget >= 0.0
    ensures FundsWhatFits(budget) <==> Part(budget) < 0.5 || (Part(budget) == 0.5 && (budget * CENTS).Floor % 2 == 0)
  {
    if Part(budget) < 0.5 || (Part(budget) == 0.5 && (budget * CENTS).Floor % 2 == 0) {
      forall needs | IsChain(needs) && Sum(needs) <= budget ensures Funded(needs, budget) {
        FundedExactly(needs, budget);
      }
    } else {
      ThirdsAreChain(budget);
      FundedExactly(Thirds(budget), budget);
    }
  }

  /** And it funds only chains it covers exactly when that part is half a hundredth or more. */
  lemma FundsOnlyWhatFitsExactly(budget: real)
    requires budget >= 0.0
    ensures FundsOnlyWhatFits(budget) <==> Part(budget) >= 0.5
  {
    if Part(budget) >= 0.5 {
      forall needs | IsChain(needs) && Funded(needs, budget) ensures Sum(needs) <= budget {
        FundedExactly(needs, budget);
      }
    } else {
      var total := ((budget * CENTS).Floor as real + 0.5 + budget * CENTS) / 2.0 / CENTS;
      ThirdsAreChain(total);
      FundedExactly(Thirds(total), budget);
    }
  }

  /**
   A budget in whole hundredths funds every chain it covers, and no chain that exceeds it by more than
   half a hundredth.
   */
  lemma FundingIsTight(needs: seq<real>, hundredths: int)
    ensures Sum(needs) <= hundredths as real / CENTS ==> Funded(needs, hundredths as real / CENTS)
    ensures Funded(needs, hundredths as real / CENTS) ==> Sum(needs) <= hundredths as real / CENTS + 0.005
  {
    FundedExactly(needs, hundredths as real / CENTS);
    assert (hundredths as real / CENTS * CENTS).Floor == hundredths;
  }

  /** 8.004, 1 and 1 minutes pass a budget of 10. */
  lemma RoundingUnderfunds()
    ensures Funded([8.004, 1.0, 1.0], 10.0) && Sum([8.004, 1.0, 1.0]) > 10.0
  {
    SumOfThree(8.004, 1.0, 1.0);
    assert (10.0 * CENTS).Floor == 1000;
    FundedExactly([8.004, 1.0, 1.0], 10.0);
  }

  /** 8.006, 1 and 1 minutes are refused on a budget of 10.006, which covers them. */
  lemma RoundingRefuses()
    ensures !Funded([8.006, 1.0, 1.0], 10.006) && Sum([8.006, 1.0, 1.0]) <= 10.006
  {
    SumOfThree(8.006, 1.0, 1.0);
    assert (10.006 * CENTS).Floor == 1000;
    FundedExactly([8.006, 1.0, 1.0], 10.006);
  }
}
