/** What the calibration error adds up: the gap of each bin, whichever way it goes, by the share of samples in it. */
module Calibration {
  import opened Metrics

  /** What the samples got right beyond their confidence. */
  function Beyond(samples: seq<Sample>): real {
    if samples == [] then 0.0 else samples[0].correct - samples[0].confidence + Beyond(samples[1..])
  }

  lemma {:induction false} BeyondMeans(samples: seq<Sample>)
    ensures Excess(samples) == Beyond(samples)
  {
    if samples != [] {
      BeyondMeans(samples[1..]);
    }
  }

  /** The size of a gap, whichever way it goes. */
  function Size(x: real): (y: real)
    ensures y >= 0.0 && (y == x || y == -x)
  {
    if x > 0.0 then x else -x
  }

  /** A bin adds the size of what its samples got right beyond their confidence, over the number of all samples. */
  lemma TermMeans(bin: seq<Sample>, total: nat)
    requires total > 0
    ensures Term(bin, total) == Size(Beyond(bin)) / total as real
  {
    TermIsExcess(bin, total);
    BeyondMeans(bin);
  }

  /** The samples of a bin: those whose confidence, in steps of a bin, is between its number and the next, the last bin taking 1 as well. */
  predicate Within(x: real, i: nat, bins: nat)
    requires i < bins
  {
    i as real <= x * bins as real && (x * bins as real < (i + 1) as real || (i + 1 == bins && x == 1.0))
  }

  lemma BinMeans(x: real, i: nat, bins: nat)
    requires i < bins && Unit(x)
    ensures InBin(i, bins, x) <==> Within(x, i, bins)
  {
    EdgeBelow(i, bins, x);
    EdgeBelow(i + 1, bins, x);
    if i + 1 == bins {
      assert Edge(bins, bins) == 1.0;
      LastStep(x, bins);
    }
  }

  lemma LastStep(x: real, bins: nat)
    requires Unit(x) && bins > 0
    ensures x * bins as real < bins as real <==> x != 1.0
  {
  }

  /** The samples of one bin, picked by that. */
  function Picked(samples: seq<Sample>, i: nat, bins: nat): seq<Sample>
    requires i < bins
  {
    if samples == [] then []
    else (if Within(samples[0].confidence, i, bins) then [samples[0]] else []) + Picked(samples[1..], i, bins)
  }

  lemma {:induction false} BinIsPicked(samples: seq<Sample>, i: nat, bins: nat)
    requires i < bins && AllUnit(samples)
    ensures Bin(samples, i, bins) == Picked(samples, i, bins)
  {
    if samples != [] {
      BinMeans(samples[0].confidence, i, bins);
      BinIsPicked(samples[1..], i, bins);
    }
  }

  /** The gap of a bin: what its samples got right beyond their confidence, by its size and over the number of all samples. */
  function Gap(samples: seq<Sample>, i: nat, bins: nat): real
    requires samples != [] && i < bins
  {
    Size(Beyond(Picked(samples, i, bins))) / |samples| as real
  }

  lemma TermIsGap(samples: seq<Sample>, i: nat, bins: nat)
    requires samples != [] && AllUnit(samples) && i < bins
    ensures Term(Bin(samples, i, bins), |samples|) == Gap(samples, i, bins)
  {
    BinIsPicked(samples, i, bins);
    TermMeans(Bin(samples, i, bins), |samples|);
  }

  /** The error starts at nothing, and each bin in turn adds its gap. */
  lemma BinAdds(samples: seq<Sample>, k: nat, bins: nat)
    requires samples != [] && AllUnit(samples) && k < bins
    ensures ErrorOf(samples, 0, bins) == 0.0
    ensures ErrorOf(samples, k + 1, bins) == ErrorOf(samples, k, bins) + Gap(samples, k, bins)
  {
    TermIsGap(samples, k, bins);
  }
}
