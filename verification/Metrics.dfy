/** Binned calibration error over reals, and the accuracy it bounds. */
module Metrics {
  import opened Wrappers

  /** The confidence of a prediction and the target mass it hit. */
  datatype Sample = Sample(confidence: real, correct: real)

  predicate Unit(x: real) { 0.0 <= x <= 1.0 }

  predicate AllUnit(samples: seq<Sample>) {
    forall k :: 0 <= k < |samples| ==> Unit(samples[k].confidence) && Unit(samples[k].correct)
  }

  // ----- Bins ------------------------------------------------------------------------------

  function Edge(i: nat, bins: nat): real
    requires bins > 0
  {
    i as real / bins as real
  }

  /** The last bin is closed on the right. */
  predicate InBin(i: nat, bins: nat, x: real)
    requires i < bins
  {
    Edge(i, bins) <= x && (if i == bins - 1 then x <= Edge(i + 1, bins) else x < Edge(i + 1, bins))
  }

  lemma EdgeBelow(i: nat, bins: nat, x: real)
    requires bins > 0
    ensures Edge(i, bins) <= x <==> i as real <= x * bins as real
  {
    var n, e := bins as real, Edge(i, bins);
    assert e * n == i as real;
    if e <= x {
      assert e * n <= x * n;
    } else {
      assert x * n < e * n;
    }
  }

  function BinOf(bins: nat, x: real): (i: nat)
    requires bins > 0 && Unit(x)
    ensures i < bins
  {
    assert 0.0 <= x * bins as real <= bins as real;
    var i := (x * bins as real).Floor;
    if i >= bins then bins - 1 else i
  }

  /** Every confidence between 0 and 1 lies in exactly one bin. */
  lemma OneBin(i: nat, bins: nat, x: real)
    requires i < bins && Unit(x)
    ensures InBin(i, bins, x) <==> i == BinOf(bins, x)
  {
    EdgeBelow(i, bins, x);
    EdgeBelow(i + 1, bins, x);
    assert x * bins as real <= bins as real;
    if i == bins - 1 {
      assert Edge(bins, bins) == 1.0;
    }
  }

  function Bin(samples: seq<Sample>, i: nat, bins: nat): (r: seq<Sample>)
    requires i < bins
    ensures AllUnit(samples) ==> AllUnit(r)
  {
    if samples == [] then []
    else (if InBin(i, bins, samples[0].confidence) then [samples[0]] else []) + Bin(samples[1..], i, bins)
  }

  // ----- The error -------------------------------------------------------------------------

  function Abs(x: real): real { if x < 0.0 then -x else x }

  function Confidences(samples: seq<Sample>): real {
    if samples == [] then 0.0 else samples[0].confidence + Confidences(samples[1..])
  }

  function Corrects(samples: seq<Sample>): real {
    if samples == [] then 0.0 else samples[0].correct + Corrects(samples[1..])
  }

  function MeanConfidence(samples: seq<Sample>): real
    requires samples != []
  {
    Confidences(samples) / |samples| as real
  }

  function MeanCorrect(samples: seq<Sample>): real
    requires samples != []
  {
    Corrects(samples) / |samples| as real
  }

  function Weight(bin: seq<Sample>, total: nat): real
    requires total > 0
  {
    |bin| as real / total as real
  }

  /** The gap of a bin, by its weight. */
  function Weighted(bin: seq<Sample>, total: nat): real
    requires total > 0 && bin != []
  {
    Weight(bin, total) * Abs(MeanCorrect(bin) - MeanConfidence(bin))
  }

  /** What one bin adds to the error; an empty bin is skipped. */
  function Term(bin: seq<Sample>, total: nat): real
    requires total > 0
  {
    if bin == [] then 0.0 else Weighted(bin, total)
  }

  function ErrorOf(samples: seq<Sample>, k: nat, bins: nat): real
    requires samples != [] && k <= bins
  {
    if k == 0 then 0.0 else ErrorOf(samples, k - 1, bins) + Term(Bin(samples, k - 1, bins), |samples|)
  }

  /** `expected_calibration_error`. */
  method ExpectedCalibrationError(samples: seq<Sample>, bins: nat) returns (ece: real)
    ensures ece == if samples == [] then 0.0 else ErrorOf(samples, bins, bins)
  {
    ece := 0.0;
    if samples == [] {
      return;
    }
    for index := 0 to bins
      invariant ece == ErrorOf(samples, index, bins)
    {
      var bin := Bin(samples, index, bins);
      if bin != [] {
        ece := ece + Weighted(bin, |samples|);
      }
    }
  }

  // ----- Bins partition the samples ------------------------------------------------------------

  /** Something additive over samples: a count, or the excess of correctness over confidence. */
  function Excess(samples: seq<Sample>): real { Corrects(samples) - Confidences(samples) }

  function BinExcess(samples: seq<Sample>, k: nat, bins: nat): real
    requires k <= bins
  {
    if k == 0 then 0.0 else BinExcess(samples, k - 1, bins) + Excess(Bin(samples, k - 1, bins))
  }

  function BinCount(samples: seq<Sample>, k: nat, bins: nat): nat
    requires k <= bins
  {
    if k == 0 then 0 else BinCount(samples, k - 1, bins) + |Bin(samples, k - 1, bins)|
  }

  lemma BinHead(samples: seq<Sample>, i: nat, bins: nat)
    requires samples != [] && i < bins && Unit(samples[0].confidence)
    ensures var hit := BinOf(bins, samples[0].confidence) == i;
            && Excess(Bin(samples, i, bins)) == Excess(Bin(samples[1..], i, bins)) + (if hit then samples[0].correct - samples[0].confidence else 0.0)
            && |Bin(samples, i, bins)| == |Bin(samples[1..], i, bins)| + (if hit then 1 else 0)
  {
    OneBin(i, bins, samples[0].confidence);
    var tail := Bin(samples[1..], i, bins);
    if InBin(i, bins, samples[0].confidence) {
      assert Bin(samples, i, bins)[1..] == tail;
    } else {
      assert Bin(samples, i, bins) == tail;
    }
  }

  /** With the first sample in bin `home`, every other bin is as without it. */
  lemma {:induction false} FirstSampleCounted(samples: seq<Sample>, k: nat, bins: nat, home: nat, excess: real)
    requires samples != [] && k <= bins
    requires forall i: nat :: i < bins ==> OnlyHome(samples, i, bins, home, excess)
    ensures BinExcess(samples, k, bins) == BinExcess(samples[1..], k, bins) + (if home < k then excess else 0.0)
    ensures BinCount(samples, k, bins) == BinCount(samples[1..], k, bins) + (if home < k then 1 else 0)
  {
    if k > 0 {
      FirstSampleCounted(samples, k - 1, bins, home, excess);
      assert OnlyHome(samples, k - 1, bins, home, excess);
    }
  }

  ghost predicate OnlyHome(samples: seq<Sample>, i: nat, bins: nat, home: nat, excess: real)
    requires samples != [] && i < bins
  {
    && Excess(Bin(samples, i, bins)) == Excess(Bin(samples[1..], i, bins)) + (if home == i then excess else 0.0)
    && |Bin(samples, i, bins)| == |Bin(samples[1..], i, bins)| + (if home == i then 1 else 0)
  }

  /** Nothing is lost and nothing counted twice. */
  lemma {:induction false} BinsPartition(samples: seq<Sample>, bins: nat)
    requires AllUnit(samples) && bins > 0
    ensures BinExcess(samples, bins, bins) == Excess(samples) && BinCount(samples, bins, bins) == |samples|
  {
    if samples == [] {
      EmptyBins(bins, bins);
    } else {
      var home, excess := BinOf(bins, samples[0].confidence), samples[0].correct - samples[0].confidence;
      BinsPartition(samples[1..], bins);
      forall i: nat | i < bins ensures OnlyHome(samples, i, bins, home, excess) {
        BinHead(samples, i, bins);
      }
      FirstSampleCounted(samples, bins, bins, home, excess);
    }
  }

  lemma {:induction false} EmptyBins(k: nat, bins: nat)
    requires k <= bins
    ensures BinExcess([], k, bins) == 0.0 && BinCount([], k, bins) == 0
  {
    if k > 0 {
      EmptyBins(k - 1, bins);
    }
  }

  function WeightSum(samples: seq<Sample>, k: nat, bins: nat): real
    requires samples != [] && k <= bins
  {
    if k == 0 then 0.0 else WeightSum(samples, k - 1, bins) + Weight(Bin(samples, k - 1, bins), |samples|)
  }

  lemma DividedSum(a: real, b: real, n: real)
    requires n > 0.0
    ensures a / n + b / n == (a + b) / n
  {
    assert (a / n + b / n) * n == a + b;
  }

  lemma {:induction false} WeightsCount(samples: seq<Sample>, k: nat, bins: nat)
    requires samples != [] && k <= bins
    ensures WeightSum(samples, k, bins) == BinCount(samples, k, bins) as real / |samples| as real
  {
    if k > 0 {
      WeightsCount(samples, k - 1, bins);
      DividedSum(BinCount(samples, k - 1, bins) as real, |Bin(samples, k - 1, bins)| as real, |samples| as real);
    }
  }

  /** The weights of the bins (empty ones weigh nothing) sum to 1. */
  lemma WeightsSumToOne(samples: seq<Sample>, bins: nat)
    requires samples != [] && AllUnit(samples) && bins > 0
    ensures WeightSum(samples, bins, bins) == 1.0
  {
    BinsPartition(samples, bins);
    WeightsCount(samples, bins, bins);
    SelfRatio(|samples| as real);
  }

  lemma SelfRatio(n: real)
    requires n > 0.0
    ensures n / n == 1.0
  {
  }

  // ----- The bounds ------------------------------------------------------------------------

  lemma AbsQuotient(x: real, n: real)
    requires n > 0.0
    ensures Abs(x) / n == Abs(x / n)
  {
    assert (x / n) * n == x;
    if x < 0.0 {
      assert x / n < 0.0;
      assert (-x) / n * n == -x;
    } else {
      assert x / n >= 0.0;
    }
  }

  lemma WeightedMean(y: real, c: real, m: real, n: real)
    requires m > 0.0 && n > 0.0
    ensures m / n * Abs(y / m - c / m) == Abs(y - c) / n
  {
    var d := (y - c) / m;
    assert y / m - c / m == d by {
      DividedSum(y - c, c, m);
    }
    assert d * m == y - c;
    AbsScaled(d, m);
    assert m / n * Abs(d) == m * Abs(d) / n by {
      assert m / n * n == m;
      assert (m / n * Abs(d)) * n == m * Abs(d);
    }
  }

  lemma AbsScaled(d: real, m: real)
    requires m > 0.0
    ensures m * Abs(d) == Abs(d * m)
  {
    if d < 0.0 {
      assert d * m < 0.0;
    } else {
      assert d * m >= 0.0;
    }
  }

  lemma TermIsExcess(bin: seq<Sample>, total: nat)
    requires total > 0
    ensures Term(bin, total) == Abs(Excess(bin)) / total as real
  {
    if bin != [] {
      WeightedMean(Corrects(bin), Confidences(bin), |bin| as real, total as real);
    }
  }

  lemma {:induction false} ExcessBounded(bin: seq<Sample>)
    requires AllUnit(bin)
    ensures Abs(Excess(bin)) <= |bin| as real
  {
    if bin != [] {
      ExcessBounded(bin[1..]);
    }
  }

  lemma NotNegative(d: real, n: real)
    requires n > 0.0 && d >= 0.0
    ensures d / n >= 0.0
  {
  }

  lemma LessOver(a: real, b: real, n: real)
    requires n > 0.0 && a <= b
    ensures a / n <= b / n
  {
    NotNegative(b - a, n);
    DividedSum(a, b - a, n);
  }

  lemma UnitRatio(a: real, b: real)
    requires 0.0 <= a <= b && b > 0.0
    ensures Unit(a / b)
  {
    NotNegative(a, b);
    LessOver(a, b, b);
    SelfRatio(b);
  }

  lemma {:induction false} ErrorBetween(samples: seq<Sample>, k: nat, bins: nat)
    requires samples != [] && AllUnit(samples) && k <= bins
    ensures Abs(BinExcess(samples, k, bins)) / |samples| as real <= ErrorOf(samples, k, bins) <= WeightSum(samples, k, bins)
  {
    if k > 0 {
      var bin, n := Bin(samples, k - 1, bins), |samples| as real;
      var before := BinExcess(samples, k - 1, bins);
      ErrorBetween(samples, k - 1, bins);
      TermIsExcess(bin, |samples|);
      ExcessBounded(bin);
      LessOver(Abs(Excess(bin)), |bin| as real, n);
      DividedSum(Abs(before), Abs(Excess(bin)), n);
      LessOver(Abs(before + Excess(bin)), Abs(before) + Abs(Excess(bin)), n);
    }
  }

  /** The gap between mean correctness and mean confidence never exceeds the error, nor the error 1. */
  lemma CalibrationBounds(samples: seq<Sample>, bins: nat)
    requires samples != [] && AllUnit(samples) && bins > 0
    ensures Abs(MeanCorrect(samples) - MeanConfidence(samples)) <= ErrorOf(samples, bins, bins) <= 1.0
  {
    var n := |samples| as real;
    BinsPartition(samples, bins);
    WeightsSumToOne(samples, bins);
    ErrorBetween(samples, bins, bins);
    AbsQuotient(Excess(samples), n);
    DividedSum(Excess(samples), Confidences(samples), n);
  }

  // ----- From probability vectors to samples -----------------------------------------------------

  function Clipped(ps: seq<real>): (r: seq<real>)
    ensures |r| == |ps| && forall i :: 0 <= i < |r| ==> r[i] >= 0.0
  {
    if ps == [] then [] else [if ps[0] < 0.0 then 0.0 else ps[0]] + Clipped(ps[1..])
  }

  function Sum(ps: seq<real>): real {
    if ps == [] then 0.0 else ps[0] + Sum(ps[1..])
  }

  lemma {:induction false} PartOfSum(ps: seq<real>, i: nat)
    requires i < |ps| && forall k :: 0 <= k < |ps| ==> ps[k] >= 0.0
    ensures 0.0 <= ps[i] <= Sum(ps)
  {
    if i > 0 {
      PartOfSum(ps[1..], i - 1);
    } else if |ps| > 1 {
      PartOfSum(ps[1..], 0);
    }
  }

  function ArgMax(ps: seq<real>): (i: nat)
    requires ps != []
    ensures i < |ps| && forall k :: 0 <= k < |ps| ==> ps[k] <= ps[i]
  {
    if |ps| == 1 then 0
    else
      var i := ArgMax(ps[..|ps| - 1]);
      assert forall k :: 0 <= k < |ps| - 1 ==> ps[k] == ps[..|ps| - 1][k];
      if ps[|ps| - 1] > ps[i] then |ps| - 1 else i
  }

  datatype Target = Index(index: int) | Distribution(masses: seq<real>)

  /** `x` of the whole is the part. */
  predicate IsPart(x: real, part: real, whole: real) { x * whole == part }

  function Share(part: real, whole: real): (x: real)
    requires 0.0 <= part <= whole && whole > 0.0
    ensures Unit(x) && IsPart(x, part, whole)
  {
    UnitRatio(part, whole);
    QuotientTimes(part, whole);
    part / whole
  }

  lemma QuotientTimes(a: real, b: real)
    requires b != 0.0
    ensures a / b * b == a
  {
  }

  /** The mass the target gives option `i` of `size`; `None` is a raised ValueError. */
  function TargetMass(t: Target, i: nat, size: nat): (r: Option<real>)
    requires i < size
    ensures r.Some? ==> Unit(r.value)
  {
    match t
    case Index(index) => if 0 <= index < size then Some(if index == i then 1.0 else 0.0) else None
    case Distribution(masses) =>
      if |masses| != size || (exists k :: 0 <= k < |masses| && masses[k] < 0.0) || Sum(masses) <= 0.0 then None
      else
        PartOfSum(masses, i);
        Some(Share(masses[i], Sum(masses)))
  }

  /** Top confidence and the target mass it hit; `None` is a raised ValueError. */
  function SampleOf(probabilities: seq<real>, t: Target): (r: Option<Sample>)
    ensures r.Some? ==> Unit(r.value.confidence) && Unit(r.value.correct)
  {
    var ps := Clipped(probabilities);
    if Sum(ps) <= 0.0 then None
    else
      var top := ArgMax(ps);
      var hit := TargetMass(t, top, |ps|);
      PartOfSum(ps, top);
      if hit.None? then None else Some(Sample(Share(ps[top], Sum(ps)), hit.value))
  }

  // ----- What a sample says of a prediction ------------------------------------------------------

  /** A probability, with what is negative counted as nothing. */
  function Positive(x: real): real { if x > 0.0 then x else 0.0 }

  function Mass(ps: seq<real>): real { if ps == [] then 0.0 else Positive(ps[0]) + Mass(ps[1..]) }

  /** Option `i` is predicted: no other is greater, and none before it as great. */
  ghost predicate Predicts(ps: seq<real>, i: int) {
    && 0 <= i < |ps|
    && (forall k :: 0 <= k < |ps| ==> Positive(ps[k]) <= Positive(ps[i]))
    && (forall k :: 0 <= k < i ==> Positive(ps[k]) < Positive(ps[i]))
  }

  /** The prediction and its target can be scored. */
  predicate Scorable(ps: seq<real>, t: Target) { Mass(ps) > 0.0 && TargetFits(t, |ps|) }

  predicate TargetFits(t: Target, size: nat) {
    match t
    case Index(index) => 0 <= index < size
    case Distribution(masses) => |masses| == size && (forall k :: 0 <= k < |masses| ==> masses[k] >= 0.0) && Sum(masses) > 0.0
  }

  /** The share of the mass that the predicted option has, and the share of the target that it hits. */
  ghost predicate Scores(ps: seq<real>, t: Target, sample: Sample, top: int)
    requires Predicts(ps, top)
  {
    IsPart(sample.confidence, Positive(ps[top]), Mass(ps)) && HitsBy(t, top, sample.correct)
  }

  ghost predicate HitsBy(t: Target, top: int, share: real) {
    match t
    case Index(index) => share == (if index == top then 1.0 else 0.0)
    case Distribution(masses) => 0 <= top < |masses| && IsPart(share, masses[top], Sum(masses))
  }

  lemma TargetMeans(t: Target, top: nat, size: nat)
    requires top < size
    ensures TargetMass(t, top, size).Some? <==> TargetFits(t, size)
    ensures TargetMass(t, top, size).Some? ==> HitsBy(t, top, TargetMass(t, top, size).value)
  {
  }

  ghost predicate IsSampleOf(ps: seq<real>, t: Target, sample: Sample) {
    exists top :: Predicts(ps, top) && Scores(ps, t, sample, top)
  }

  lemma {:induction false} ClippedMeans(ps: seq<real>)
    ensures |Clipped(ps)| == |ps| && forall k :: 0 <= k < |ps| ==> Clipped(ps)[k] == Positive(ps[k])
    ensures Sum(Clipped(ps)) == Mass(ps)
  {
    if ps != [] {
      ClippedMeans(ps[1..]);
      assert Clipped(ps)[1..] == Clipped(ps[1..]);
    }
  }

  lemma {:induction false} ArgMaxIsFirst(ps: seq<real>, k: nat)
    requires ps != [] && k < ArgMax(ps)
    ensures ps[k] < ps[ArgMax(ps)]
  {
    var front := ps[..|ps| - 1];
    if ArgMax(ps) == |ps| - 1 {
      assert front[k] <= front[ArgMax(front)];
    } else {
      ArgMaxIsFirst(front, k);
    }
  }

  lemma TopIsPredicted(ps: seq<real>)
    requires ps != []
    ensures Predicts(ps, ArgMax(Clipped(ps)))
  {
    ClippedMeans(ps);
    var top := ArgMax(Clipped(ps));
    forall k | 0 <= k < top ensures Positive(ps[k]) < Positive(ps[top]) {
      ArgMaxIsFirst(Clipped(ps), k);
    }
  }

  lemma NoneBeforeAsGreat(ps: seq<real>, k: int, i: int)
    requires Predicts(ps, i) && 0 <= k < i
    ensures Positive(ps[k]) < Positive(ps[i])
  {
  }

  lemma OnlyOnePredicted(ps: seq<real>, i: int, j: int)
    requires Predicts(ps, i) && Predicts(ps, j)
    ensures i == j
  {
    if i < j {
      NoneBeforeAsGreat(ps, i, j);
      assert false;
    }
    if j < i {
      NoneBeforeAsGreat(ps, j, i);
      assert false;
    }
  }

  lemma SampleParts(ps: seq<real>, t: Target)
    requires Sum(Clipped(ps)) > 0.0
    ensures |Clipped(ps)| == |ps| > 0
    ensures SampleOf(ps, t).Some? <==> TargetMass(t, ArgMax(Clipped(ps)), |ps|).Some?
    ensures SampleOf(ps, t).Some? ==>
              && SampleOf(ps, t).value.correct == TargetMass(t, ArgMax(Clipped(ps)), |ps|).value
              && IsPart(SampleOf(ps, t).value.confidence, Clipped(ps)[ArgMax(Clipped(ps))], Sum(Clipped(ps)))
  {
  }

  /** A sample is had exactly from what can be scored, and says what the prediction scored. */
  lemma SampleMeans(ps: seq<real>, t: Target)
    ensures SampleOf(ps, t).Some? <==> Scorable(ps, t)
    ensures SampleOf(ps, t).Some? ==> IsSampleOf(ps, t, SampleOf(ps, t).value)
  {
    ClippedMeans(ps);
    if Mass(ps) > 0.0 {
      var top := ArgMax(Clipped(ps));
      TopIsPredicted(ps);
      TargetMeans(t, top, |ps|);
      SampleParts(ps, t);
      if SampleOf(ps, t).Some? {
        SampleScores(ps, t, SampleOf(ps, t).value, top);
      }
    }
  }

  lemma SampleScores(ps: seq<real>, t: Target, sample: Sample, top: nat)
    requires Predicts(ps, top) && Scores(ps, t, sample, top)
    ensures IsSampleOf(ps, t, sample)
  {
  }

  /** How many of the targets, all of them indices, are what was predicted. */
  ghost function Hits(probabilities: seq<seq<real>>, targets: seq<Target>): nat
    requires |probabilities| == |targets|
  {
    if targets == [] then 0
    else (if targets[0].Index? && Predicts(probabilities[0], targets[0].index) then 1 else 0) + Hits(probabilities[1..], targets[1..])
  }

  ghost predicate SamplesOf(probabilities: seq<seq<real>>, targets: seq<Target>, samples: seq<Sample>) {
    && |probabilities| == |targets| == |samples|
    && forall k :: 0 <= k < |samples| ==> IsSampleOf(probabilities[k], targets[k], samples[k])
  }

  lemma HitCounts(ps: seq<real>, index: int, sample: Sample)
    requires IsSampleOf(ps, Index(index), sample)
    ensures sample.correct == if Predicts(ps, index) then 1.0 else 0.0
  {
    var top :| Predicts(ps, top) && Scores(ps, Index(index), sample, top);
    if Predicts(ps, index) {
      OnlyOnePredicted(ps, top, index);
    }
  }

  lemma {:induction false} CorrectsAreHits(probabilities: seq<seq<real>>, targets: seq<Target>, samples: seq<Sample>)
    requires SamplesOf(probabilities, targets, samples) && forall k :: 0 <= k < |targets| ==> targets[k].Index?
    ensures Corrects(samples) == Hits(probabilities, targets) as real
  {
    if samples != [] {
      assert IsSampleOf(probabilities[0], targets[0], samples[0]);
      HitCounts(probabilities[0], targets[0].index, samples[0]);
      assert SamplesOf(probabilities[1..], targets[1..], samples[1..]) by {
        forall k | 0 <= k < |samples[1..]| ensures IsSampleOf(probabilities[1..][k], targets[1..][k], samples[1..][k]) {
          assert IsSampleOf(probabilities[k + 1], targets[k + 1], samples[k + 1]);
        }
      }
      CorrectsAreHits(probabilities[1..], targets[1..], samples[1..]);
    }
  }

  datatype Report = Report(accuracy: real, ece: real, count: nat)

  const DEFAULT_BINS: nat := 15

  predicate AllScorable(probabilities: seq<seq<real>>, targets: seq<Target>)
    requires |probabilities| == |targets|
  {
    forall k :: 0 <= k < |targets| ==> Scorable(probabilities[k], targets[k])
  }

  /** The loop over predictions: one sample each, or a raised ValueError at the first that cannot be scored. */
  method CollectSamples(probabilities: seq<seq<real>>, targets: seq<Target>) returns (r: Option<seq<Sample>>)
    requires |probabilities| == |targets|
    ensures r.Some? <==> AllScorable(probabilities, targets)
    ensures r.Some? ==> AllUnit(r.value) && SamplesOf(probabilities, targets, r.value)
  {
    var collected: seq<Sample> := [];
    for k := 0 to |targets|
      invariant |collected| == k && AllUnit(collected)
      invariant forall j :: 0 <= j < k ==> Scorable(probabilities[j], targets[j])
      invariant forall j :: 0 <= j < k ==> IsSampleOf(probabilities[j], targets[j], collected[j])
    {
      SampleMeans(probabilities[k], targets[k]);
      var sample := SampleOf(probabilities[k], targets[k]);
      if sample.None? {
        return None;
      }
      collected := collected + [sample.value];
    }
    return Some(collected);
  }

  predicate AllIndices(targets: seq<Target>) { forall k :: 0 <= k < |targets| ==> targets[k].Index? }

  /** `x` is `part` of `whole`. */
  predicate IsShare(x: real, part: nat, whole: nat) { x * whole as real == part as real }

  /** With index targets the mean correctness is the share that was predicted. */
  lemma AccuracyIsHits(probabilities: seq<seq<real>>, targets: seq<Target>, samples: seq<Sample>)
    requires SamplesOf(probabilities, targets, samples) && samples != [] && AllIndices(targets)
    ensures IsShare(MeanCorrect(samples), Hits(probabilities, targets), |targets|)
  {
    CorrectsAreHits(probabilities, targets, samples);
    QuotientTimes(Corrects(samples), |samples| as real);
  }

  /**
   `multiclass_metrics`, its accuracy and calibration part. The samples are what each prediction scored; the accuracy
   is their mean, for index targets the share that was predicted, and is never further from the mean confidence than the error.
   */
  method MulticlassMetrics(probabilities: seq<seq<real>>, targets: seq<Target>) returns (r: Option<Report>, ghost samples: seq<Sample>)
    ensures probabilities == [] ==> r == Some(Report(0.0, 0.0, 0))
    ensures probabilities != [] ==> (r.Some? <==> |probabilities| == |targets| && AllScorable(probabilities, targets))
    ensures probabilities != [] && r.Some? ==>
              && SamplesOf(probabilities, targets, samples) && |samples| == r.value.count > 0
              && r.value.accuracy == MeanCorrect(samples) && r.value.ece == ErrorOf(samples, DEFAULT_BINS, DEFAULT_BINS)
              && -r.value.ece <= r.value.accuracy - MeanConfidence(samples) <= r.value.ece <= 1.0
              && (AllIndices(targets) ==> IsShare(r.value.accuracy, Hits(probabilities, targets), |targets|))
  {
    samples := [];
    if probabilities == [] {
      return Some(Report(0.0, 0.0, 0)), samples;
    }
    if |probabilities| != |targets| {
      return None, samples;
    }
    var collected := CollectSamples(probabilities, targets);
    if collected.None? {
      return None, samples;
    }
    samples := collected.value;
    var ece := ExpectedCalibrationError(collected.value, DEFAULT_BINS);
    CalibrationBounds(collected.value, DEFAULT_BINS);
    if AllIndices(targets) {
      AccuracyIsHits(probabilities, targets, collected.value);
    }
    return Some(Report(MeanCorrect(collected.value), ece, |targets|)), samples;
  }
}
