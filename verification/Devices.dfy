/** Device spellings, card locks, and the lease plans of runs and probes. */
module Devices {
  import opened Order
  import opened Wrappers
  import opened Leases

  predicate IsSpace(c: char) { c == ' ' || '\t' <= c <= '\r' }

  function TrimLeft(s: string): (r: string)
    ensures r == [] || !IsSpace(r[0])
    ensures s == [] || IsSpace(s[0]) || r == s
  {
    if s != [] && IsSpace(s[0]) then TrimLeft(s[1..]) else s
  }

  function TrimRight(s: string): (r: string)
    ensures r <= s
    ensures r == [] || !IsSpace(r[|r| - 1])
    ensures s == [] || IsSpace(s[|s| - 1]) || r == s
  {
    if s != [] && IsSpace(s[|s| - 1]) then TrimRight(s[..|s| - 1]) else s
  }

  function Strip(s: string): string { TrimRight(TrimLeft(s)) }

  /** `str.isdigit`: non-empty and digits only. */
  predicate AllDigits(s: string) {
    s != [] && forall i :: 0 <= i < |s| ==> IsDigit(s[i])
  }

  const CUDA_PREFIX := "cuda:"

  /** One spelling per accepted device text; `None` is the raised ValueError. */
  function CanonicalDeviceId(device: string): Option<string> {
    var text := Strip(device);
    if text == "" then None
    else if text == "cuda" then Some("cuda:0")
    else if AllDigits(text) then Some(CUDA_PREFIX + text)
    else if CUDA_PREFIX <= text then
      var index := Strip(text[|CUDA_PREFIX|..]);
      if AllDigits(index) then Some(CUDA_PREFIX + index) else None
    else None
  }

  /** The digits a device text names, whichever of the accepted spellings it uses. */
  function CardDigits(device: string): Option<string> {
    var text := Strip(device);
    if text == "cuda" then Some("0")
    else if AllDigits(text) then Some(text)
    else if CUDA_PREFIX <= text && AllDigits(Strip(text[|CUDA_PREFIX|..])) then Some(Strip(text[|CUDA_PREFIX|..]))
    else None
  }

  function DecimalValue(s: string): nat
    requires forall i :: 0 <= i < |s| ==> IsDigit(s[i])
  {
    if s == [] then 0 else
      assert IsDigit(s[|s| - 1]);
      10 * DecimalValue(s[..|s| - 1]) + (s[|s| - 1] as int - '0' as int)
  }

  lemma StripDigits(s: string)
    requires AllDigits(s)
    ensures Strip(s) == s
  {
  }

  lemma CanonicalIsPrefixedDigits(device: string)
    ensures CanonicalDeviceId(device).Some? <==> CardDigits(device).Some?
    ensures CardDigits(device).Some? ==>
              AllDigits(CardDigits(device).value) && CanonicalDeviceId(device).value == CUDA_PREFIX + CardDigits(device).value
  {
    var text := Strip(device);
    assert "cuda"[0] == 'c';
    assert CUDA_PREFIX + "0" == "cuda:0";
    assert CUDA_PREFIX <= text ==> text[0] == 'c' && !IsDigit(text[0]) && text != "cuda";
  }

  /** Canonicalising an already canonical id changes nothing. */
  lemma CanonicalIdempotent(device: string)
    requires CanonicalDeviceId(device).Some?
    ensures CanonicalDeviceId(CanonicalDeviceId(device).value) == CanonicalDeviceId(device)
  {
    CanonicalIsPrefixedDigits(device);
    var digits := CardDigits(device).value;
    var text := CUDA_PREFIX + digits;
    assert text[0] == 'c' && text[|text| - 1] == digits[|digits| - 1];
    assert Strip(text) == text;
    assert text[|CUDA_PREFIX|..] == digits;
    StripDigits(digits);
    assert text[4] == ':' && |"cuda"| == 4;
    assert text != "cuda" && !IsDigit(text[0]);
  }

  lemma {:induction false} DecimalInjective(a: string, b: string)
    requires |a| == |b|
    requires forall i :: 0 <= i < |a| ==> IsDigit(a[i])
    requires forall i :: 0 <= i < |b| ==> IsDigit(b[i])
    requires DecimalValue(a) == DecimalValue(b)
    ensures a == b
  {
    if a != [] {
      var x, y := DecimalValue(a[..|a| - 1]), DecimalValue(b[..|b| - 1]);
      assert x == y;
      DecimalInjective(a[..|a| - 1], b[..|b| - 1]);
      assert a == a[..|a| - 1] + [a[|a| - 1]];
      assert b == b[..|b| - 1] + [b[|b| - 1]];
    }
  }

  /**
   Distinct cards always get distinct locks. The converse is false: leading
   zeros survive, so two spellings of one card share a lock exactly when they
   spell its index with the same number of digits.
   */
  lemma CardLocksSeparateCards(a: string, b: string)
    requires CardDigits(a).Some? && CardDigits(b).Some?
    ensures AllDigits(CardDigits(a).value) && AllDigits(CardDigits(b).value)
    ensures DecimalValue(CardDigits(a).value) != DecimalValue(CardDigits(b).value) ==>
              CanonicalDeviceId(a) != CanonicalDeviceId(b)
    ensures DecimalValue(CardDigits(a).value) == DecimalValue(CardDigits(b).value) ==>
              (CanonicalDeviceId(a) == CanonicalDeviceId(b) <==> |CardDigits(a).value| == |CardDigits(b).value|)
  {
    CanonicalIsPrefixedDigits(a);
    CanonicalIsPrefixedDigits(b);
    var x, y := CardDigits(a).value, CardDigits(b).value;
    assert (CUDA_PREFIX + x)[|CUDA_PREFIX|..] == x && (CUDA_PREFIX + y)[|CUDA_PREFIX|..] == y;
    if DecimalValue(x) == DecimalValue(y) && |x| == |y| {
      DecimalInjective(x, y);
    }
  }

  lemma LeadingZeroSplitsOneCard()
    ensures CardDigits("0").Some? && CardDigits("cuda:00").Some?
    ensures CanonicalDeviceId("0") == Some("cuda:0") && CanonicalDeviceId("cuda:00") == Some("cuda:00")
    ensures DecimalValue("0") == DecimalValue("00")
  {
    var text := "cuda:00";
    assert text[0] == 'c' && text[6] == '0';
    assert TrimLeft(text) == text;
    assert text[|CUDA_PREFIX|..] == "00";
    assert |"cuda"| == 4 && |text| == 7;
    assert TrimLeft("0") == "0" && Strip("0") == "0";
    assert |"0"| == 1;
    assert CUDA_PREFIX + "0" == "cuda:0";
    assert CUDA_PREFIX + "00" == "cuda:00";
    assert "00"[..1] == "0" && "0"[..0] == "";
  }

  // ----- The requests a run and a probe make ------------------------------------

  /** No device: the whole pool, exclusively. A device: a share of the pool and that card. */
  function GpuLeaseRequests(device: Option<string>): Option<seq<Request>> {
    if device.None? then Some([Request("gpu", false)])
    else
      var canonical := CanonicalDeviceId(device.value);
      if canonical.None? then None
      else Some([Request("gpu", true), Request("gpu:" + canonical.value, false)])
  }

  function RunRequests(device: Option<string>, runId: string): Option<seq<Request>> {
    var gpu := GpuLeaseRequests(device);
    if gpu.None? then None
    else Some([Request("datasets", true)] + gpu.value + [Request("run-" + runId, false)])
  }

  lemma FixedNameOrder(card: string, runId: string)
    ensures StringLess("datasets", "gpu") && StringLess("gpu", "gpu:" + card)
    ensures StringLess("gpu:" + card, "run-" + runId) && StringLess("gpu", "run-" + runId)
    ensures StringLess("datasets", "gpu:" + card) && StringLess("datasets", "run-" + runId)
  {
    var g, r := "gpu:" + card, "run-" + runId;
    assert "datasets"[0] == 'd' && "gpu"[0] == 'g' && g[0] == 'g' && r[0] == 'r';
    PrefixLeq("gpu", g);
    assert |g| > |"gpu"|;
  }

  lemma {:induction false} PrefixLeq(a: string, b: string)
    requires a <= b
    ensures StringLeq(a, b)
  {
    if a != [] {
      PrefixLeq(a[1..], b[1..]);
    }
  }

  /** A run's requests are already one per name and in name order. */
  lemma RunRequestsArePlan(device: Option<string>, runId: string)
    requires RunRequests(device, runId).Some?
    ensures IsPlanFor(RunRequests(device, runId).value, RunRequests(device, runId).value)
  {
    var plan := RunRequests(device, runId).value;
    var card := if device.Some? then CanonicalDeviceId(device.value).value else "";
    FixedNameOrder(card, runId);
    PlanForItself(plan);
  }

  lemma ProbeRequestsArePlan(device: Option<string>)
    requires GpuLeaseRequests(device).Some?
    ensures IsPlanFor(GpuLeaseRequests(device).value, GpuLeaseRequests(device).value)
  {
    var card := if device.Some? then CanonicalDeviceId(device.value).value else "";
    FixedNameOrder(card, "");
    PlanForItself(GpuLeaseRequests(device).value);
  }

  lemma PlanForItself(plan: seq<Request>)
    requires StrictlySorted(plan)
    ensures IsPlanFor(plan, plan)
  {
    forall r | r in plan ensures r.shared <==> SharedByAll(plan, r.name) {
      var i :| 0 <= i < |plan| && plan[i] == r;
      forall q | q in plan && q.name == r.name ensures q == r {
        var j :| 0 <= j < |plan| && plan[j] == q;
      }
    }
  }

  // ----- Lock files of those names ------------------------------------------------

  lemma SafeConcat(a: string, b: string)
    ensures SafeName(a + b) == SafeName(a) + SafeName(b)
  {
    assert forall i :: 0 <= i < |a + b| ==> SafeName(a + b)[i] == (SafeName(a) + SafeName(b))[i];
  }

  lemma SafeDigits(digits: string)
    requires AllDigits(digits)
    ensures SafeName(digits) == digits
  {
  }

  lemma SafeLiterals()
    ensures SafeName("datasets") == "datasets" && SafeName("gpu") == "gpu"
    ensures SafeName("gpu:cuda:") == "gpu-cuda-" && SafeName("run-") == "run-"
  {
    SafeFixed("datasets");
    SafeFixed("gpu");
    SafeFixed("run-");
    SafeCardPrefix();
  }

  lemma SafeRegistry()
    ensures SafeName("registry") == "registry" && "registry"[0] == 'r' && |"registry"| == 8
  {
    SafeFixed("registry");
  }

  lemma SafeCardPrefix()
    ensures SafeName("gpu:cuda:") == "gpu-cuda-"
  {
    var gpu, cuda, colon := "gpu", "cuda", ":";
    SafeFixed(gpu);
    SafeFixed(cuda);
    assert SafeName(colon) == "-";
    SafeConcat(gpu, colon);
    SafeConcat(gpu + colon, cuda);
    SafeConcat(gpu + colon + cuda, colon);
    assert gpu + colon + cuda + colon == "gpu:cuda:";
    assert gpu + "-" + cuda + "-" == "gpu-cuda-";
  }

  lemma SafeFixed(s: string)
    requires forall i :: 0 <= i < |s| ==> SafeChar(s[i]) == s[i]
    ensures SafeName(s) == s
  {
  }

  lemma CardNameFile(digits: string)
    requires AllDigits(digits)
    ensures SafeName("gpu:cuda:" + digits) == "gpu-cuda-" + digits
  {
    SafeLiterals();
    SafeConcat("gpu:cuda:", digits);
    SafeDigits(digits);
  }

  lemma CardFile(device: string)
    requires CanonicalDeviceId(device).Some?
    ensures CardDigits(device).Some?
    ensures SafeName("gpu:" + CanonicalDeviceId(device).value) == "gpu-cuda-" + CardDigits(device).value
  {
    CanonicalIsPrefixedDigits(device);
    var digits := CardDigits(device).value;
    assert "gpu:" + (CUDA_PREFIX + digits) == "gpu:cuda:" + digits;
    CardNameFile(digits);
  }

  /** A run id as `_run_id` builds it: every character is kept by the lock-file mapping. */
  predicate SafeRunId(runId: string) { SafeName(runId) == runId }

  lemma RunFile(runId: string)
    requires SafeRunId(runId)
    ensures SafeName("run-" + runId) == "run-" + runId
  {
    SafeLiterals();
    SafeConcat("run-", runId);
  }

  /** The names any run, probe or registry session locks. */
  ghost predicate ExperimentName(name: string) {
    || name == "registry"
    || name == "datasets"
    || name == "gpu"
    || (exists digits :: AllDigits(digits) && name == "gpu:cuda:" + digits)
    || (exists runId :: SafeRunId(runId) && name == "run-" + runId)
  }

  lemma ExperimentFile(name: string)
    requires ExperimentName(name)
    ensures var f := SafeName(name);
      && |f| == |name| >= 3
      && (name == "datasets" <==> f == "datasets")
      && (name == "gpu" <==> f == "gpu")
      && (f[0] == 'r' ==> f == name)
      && (f[0] == 'g' && |f| > 3 ==> |f| > 9 && name == "gpu:cuda:" + f[9..])
      && f[0] in {'d', 'g', 'r'}
  {
    SafeLiterals();
    assert "datasets"[0] == 'd' && "gpu"[0] == 'g' && |"gpu:cuda:"| == 9 && |"gpu-cuda-"| == 9;
    SafeRegistry();
    if digits :| AllDigits(digits) && name == "gpu:cuda:" + digits {
      CardNameFile(digits);
      assert ("gpu-cuda-" + digits)[9..] == digits;
    } else if runId :| SafeRunId(runId) && name == "run-" + runId {
      RunFile(runId);
      assert |"run-"| == 4;
    }
  }

  /** On these names the lock-file mapping is injective, though it is not in general. */
  lemma ExperimentFilesDistinct(a: string, b: string)
    requires ExperimentName(a) && ExperimentName(b) && SafeName(a) == SafeName(b)
    ensures a == b
  {
    ExperimentFile(a);
    ExperimentFile(b);
  }

  lemma SafeNameNotInjective()
    ensures SafeName("cuda:0") == SafeName("cuda-0") && "cuda:0" != "cuda-0"
  {
    assert |"cuda:0"| == 6 && |"cuda-0"| == 6;
    assert "cuda:0"[4] == ':' && "cuda-0"[4] == '-';
    assert SafeName("cuda:0") == SafeName("cuda-0");
  }

  lemma RunNamesAreExperimentNames(device: Option<string>, runId: string)
    requires RunRequests(device, runId).Some? && SafeRunId(runId)
    ensures forall r :: r in RunRequests(device, runId).value ==> ExperimentName(r.name)
  {
    if device.Some? {
      CanonicalIsPrefixedDigits(device.value);
      var digits := CardDigits(device.value).value;
      assert "gpu:" + (CUDA_PREFIX + digits) == "gpu:cuda:" + digits;
    }
  }
}
