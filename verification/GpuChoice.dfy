/** Which devices a stage gets, on the candidates themselves: trusted ones only, the freest first, ties by id. */
module GpuChoice {
  import opened Order
  import opened GpuPlan

  /** How many trusted candidates have this id and this much free time. */
  function Listed(pool: seq<Candidate>, d: Device): nat {
    if pool == [] then 0
    else (if pool[0].trusted && pool[0].id == d.id && pool[0].minutes == d.minutes then 1 else 0) + Listed(pool[1..], d)
  }

  /** Devices are drawn from a pool exactly when each is taken no more often than a trusted candidate lists it. */
  lemma {:induction false} TrustedMeans(pool: seq<Candidate>, d: Device)
    ensures multiset(Trusted(pool))[d] == Listed(pool, d)
  {
    if pool != [] {
      TrustedMeans(pool[1..], d);
    }
  }

  lemma DrawnExactly(devices: seq<Device>, pool: seq<Candidate>)
    ensures DrawnFrom(devices, pool) <==> forall d :: multiset(devices)[d] <= Listed(pool, d)
  {
    forall d ensures multiset(Trusted(pool))[d] == Listed(pool, d) {
      TrustedMeans(pool, d);
    }
    if forall d :: multiset(devices)[d] <= Listed(pool, d) {
      forall d ensures multiset(devices)[d] <= multiset(Trusted(pool))[d] {
      }
    }
  }

  /** More free time, or as much and the smaller id. */
  predicate Before(d: Device, id: string, minutes: real) { d.minutes > minutes || (d.minutes == minutes && StringLeq(d.id, id)) }

  lemma {:induction false} TrustedListed(pool: seq<Candidate>, d: Device)
    ensures d in Trusted(pool) <==> exists c :: c in pool && c.trusted && c.id == d.id && c.minutes == d.minutes
  {
    if pool != [] {
      TrustedListed(pool[1..], d);
      assert pool == [pool[0]] + pool[1..];
    }
  }

  predicate IsTrusted(d: Device, pool: seq<Candidate>) { exists c :: c in pool && c.trusted && c.id == d.id && c.minutes == d.minutes }

  lemma RankedListed(pool: seq<Candidate>, d: Device)
    ensures d in Ranked(pool) <==> IsTrusted(d, pool)
  {
    TrustedListed(pool, d);
    assert d in Ranked(pool) <==> d in multiset(Ranked(pool));
  }

  /** What was chosen is trusted and has free time, and comes in order. */
  lemma ChosenAreTrusted(needed: real, pool: seq<Candidate>)
    ensures var chosen := Chosen(needed, pool);
            && (forall d :: d in chosen ==> d.minutes > 0.0 && IsTrusted(d, pool))
            && (forall i, j :: 0 <= i < j < |chosen| ==> Before(chosen[i], chosen[j].id, chosen[j].minutes))
  {
    var ranked, chosen := Ranked(pool), Chosen(needed, pool);
    var k := TakePrefix(needed, ranked);
    forall d | d in chosen ensures IsTrusted(d, pool) {
      assert d in ranked;
      RankedListed(pool, d);
    }
    forall i, j | 0 <= i < j < |chosen| ensures Before(chosen[i], chosen[j].id, chosen[j].minutes) {
      assert LargestFirst(ranked[i], ranked[j]);
    }
  }

  /** It comes before every trusted candidate that was not chosen. */
  lemma ChosenComeFirst(needed: real, pool: seq<Candidate>, d: Device, e: Device)
    requires d in Chosen(needed, pool) && IsTrusted(e, pool) && e !in Chosen(needed, pool)
    ensures Before(d, e.id, e.minutes)
  {
    var ranked := Ranked(pool);
    var k := TakePrefix(needed, ranked);
    RankedListed(pool, e);
    var i :| 0 <= i < k && ranked[i] == d;
    var j :| 0 <= j < |ranked| && ranked[j] == e;
    assert ranked[j] in ranked[..k] || j >= k;
    assert LargestFirst(ranked[i], ranked[j]);
  }
}
