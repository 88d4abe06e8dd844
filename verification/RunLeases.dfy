/** What the lease protocol guarantees to experiment runs and inventory probes. */
module RunLeases {
  import opened Wrappers
  import opened Leases
  import opened Devices
  import opened LockProtocol

  ghost predicate IsRun(plan: seq<Request>, device: Option<string>, runId: string) {
    SafeRunId(runId) && RunRequests(device, runId) == Some(plan)
  }

  ghost predicate IsProbe(plan: seq<Request>, device: Option<string>) {
    GpuLeaseRequests(device) == Some(plan)
  }

  /** A registration or an update: one exclusive lease. */
  predicate IsRegistrySession(plan: seq<Request>) { plan == [Request("registry", false)] }

  ghost predicate ExperimentPlan(plan: seq<Request>) {
    || (exists device, runId :: IsRun(plan, device, runId))
    || (exists device :: IsProbe(plan, device))
    || IsRegistrySession(plan)
  }

  /** Only runs, probes and registry sessions take leases. */
  ghost predicate ExperimentsOnly(s: State) {
    forall pid :: 0 <= pid < |s.procs| ==> ExperimentPlan(s.procs[pid].plan)
  }

  lemma PlanNames(plan: seq<Request>)
    requires ExperimentPlan(plan)
    ensures forall r :: r in plan ==> ExperimentName(r.name) && (r.name == "datasets" ==> r.shared)
  {
    assert "datasets"[0] == 'd' && "gpu"[0] == 'g' && "registry"[0] == 'r';
    if device, runId :| IsRun(plan, device, runId) {
      RunNamesAreExperimentNames(device, runId);
      assert ("run-" + runId)[0] == 'r';
      if device.Some? {
        assert ("gpu:" + CanonicalDeviceId(device.value).value)[0] == 'g';
      }
    } else if device :| IsProbe(plan, device) {
      assert SafeRunId("");
      assert RunRequests(device, "").Some?;
      RunNamesAreExperimentNames(device, "");
      assert forall r :: r in plan ==> r in RunRequests(device, "").value;
      if device.Some? {
        assert ("gpu:" + CanonicalDeviceId(device.value).value)[0] == 'g';
      }
    }
  }

  lemma ExperimentsAreDisciplined(s: State)
    requires ExperimentsOnly(s)
    ensures Disciplined(s.procs)
  {
    forall p, q, i, j | 0 <= p < |s.procs| && 0 <= q < |s.procs| &&
      0 <= i < |s.procs[p].plan| && 0 <= j < |s.procs[q].plan| &&
      SafeName(s.procs[p].plan[i].name) == SafeName(s.procs[q].plan[j].name)
      ensures s.procs[p].plan[i].name == s.procs[q].plan[j].name
    {
      PlanNames(s.procs[p].plan);
      PlanNames(s.procs[q].plan);
      ExperimentFilesDistinct(s.procs[p].plan[i].name, s.procs[q].plan[j].name);
    }
  }

  /** Runs, probes and registry sessions, blocking or not, never deadlock. */
  lemma ExperimentsNeverDeadlock(steps: seq<Step>, s: State)
    requires Leads(Init(), steps, s) && ExperimentsOnly(s)
    requires exists pid :: 0 <= pid < |s.procs| && !Terminal(s.procs[pid].phase)
    ensures exists pid :: 0 <= pid < |s.procs| && CanMove(s, pid)
  {
    ExperimentsAreDisciplined(s);
    NoDeadlock(steps, s);
  }

  // ----- Exclusion ----------------------------------------------------------------------

  /** At no moment do two processes hold the lock of one card. */
  lemma OneHolderPerCard(steps: seq<Step>, s: State, p: nat, q: nat, card: string)
    requires Leads(Init(), steps, s) && p != q
    ensures !(Holds(s, p, Request("gpu:" + card, false)) && Holds(s, q, Request("gpu:" + card, false)))
  {
    var r := Request("gpu:" + card, false);
    if Holds(s, p, r) && Holds(s, q, r) {
      MutualExclusion(steps, s, p, q, r, r);
      assert false;
    }
  }

  /** Two runs at work together have distinct cards and distinct ids; neither took the whole pool. */
  lemma RunsTogetherUseDistinctCards(
      steps: seq<Step>, s: State, p: nat, q: nat,
      d: Option<string>, i: string, e: Option<string>, j: string)
    requires Leads(Init(), steps, s) && p < |s.procs| && q < |s.procs| && p != q
    requires s.procs[p].phase.Running? && s.procs[q].phase.Running?
    requires IsRun(s.procs[p].plan, d, i) && IsRun(s.procs[q].plan, e, j)
    ensures d.Some? && e.Some? && i != j
    ensures CanonicalDeviceId(d.value).Some? && CanonicalDeviceId(e.value).Some?
    ensures CanonicalDeviceId(d.value) != CanonicalDeviceId(e.value)
  {
    var a, b := s.procs[p].plan, s.procs[q].plan;
    AllOrNothing(steps, s, p);
    AllOrNothing(steps, s, q);
    assert a[1].name == "gpu" && b[1].name == "gpu";
    MutualExclusion(steps, s, p, q, a[1], b[1]);
    assert d.Some? && e.Some?;
    if CanonicalDeviceId(d.value) == CanonicalDeviceId(e.value) {
      MutualExclusion(steps, s, p, q, a[2], b[2]);
      assert false;
    }
    if i == j {
      MutualExclusion(steps, s, p, q, a[3], b[3]);
      assert false;
    }
  }

  // ----- Coexistence --------------------------------------------------------------------

  datatype Assignment = Assignment(device: string, runId: string)

  ghost predicate PairwiseDistinct(runs: seq<Assignment>) {
    && (forall k :: 0 <= k < |runs| ==> SafeRunId(runs[k].runId) && CanonicalDeviceId(runs[k].device).Some?)
    && (forall k, l :: 0 <= k < l < |runs| ==>
          runs[k].runId != runs[l].runId && CanonicalDeviceId(runs[k].device) != CanonicalDeviceId(runs[l].device))
  }

  function PlanOf(a: Assignment): seq<Request>
    requires CanonicalDeviceId(a.device).Some?
  {
    RunRequests(Some(a.device), a.runId).value
  }

  ghost predicate AllRunning(s: State, runs: seq<Assignment>)
    requires PairwiseDistinct(runs)
  {
    && |s.procs| == |runs|
    && (forall k :: 0 <= k < |runs| ==> s.procs[k].phase.Running? && s.procs[k].plan == PlanOf(runs[k]))
  }

  lemma FilesDiffer(x: string, y: string, i: string, j: string)
    ensures "datasets" != "gpu" && "datasets" != "gpu-cuda-" + x && "datasets" != "run-" + i
    ensures "gpu" != "gpu-cuda-" + x && "gpu" != "run-" + i && "gpu-cuda-" + x != "run-" + i
    ensures "gpu-cuda-" + x == "gpu-cuda-" + y ==> x == y
    ensures "run-" + i == "run-" + j ==> i == j
  {
    assert "datasets"[0] == 'd' && "gpu"[0] == 'g' && ("gpu-cuda-" + x)[0] == 'g' && ("run-" + i)[0] == 'r';
    assert |"gpu"| == 3 && |"gpu-cuda-"| == 9;
    assert ("gpu-cuda-" + x)[9..] == x && ("gpu-cuda-" + y)[9..] == y;
    assert ("run-" + i)[4..] == i && ("run-" + j)[4..] == j;
  }

  function FilesOf(a: Assignment): (files: seq<string>)
    requires CanonicalDeviceId(a.device).Some? && CardDigits(a.device).Some?
  {
    ["datasets", "gpu", "gpu-cuda-" + CardDigits(a.device).value, "run-" + a.runId]
  }

  lemma PlanShape(a: Assignment)
    requires CanonicalDeviceId(a.device).Some?
    ensures PlanOf(a) == [Request("datasets", true), Request("gpu", true),
                          Request("gpu:" + CanonicalDeviceId(a.device).value, false), Request("run-" + a.runId, false)]
  {
  }

  lemma FilesOfPlan(a: Assignment)
    requires SafeRunId(a.runId) && CanonicalDeviceId(a.device).Some?
    ensures |PlanOf(a)| == 4 && CardDigits(a.device).Some?
    ensures forall i :: 0 <= i < 4 ==> HoldOf(PlanOf(a)[i]) == Hold(FilesOf(a)[i], i < 2)
  {
    PlanShape(a);
    CardFile(a.device);
    RunFile(a.runId);
    assert SafeName("datasets") == "datasets" && SafeName("gpu") == "gpu" by {
      SafeLiterals();
    }
  }

  lemma PlanIsSound(a: Assignment)
    requires SafeRunId(a.runId) && CanonicalDeviceId(a.device).Some?
    ensures StrictlySorted(PlanOf(a)) && DistinctFiles(PlanOf(a))
  {
    var plan := PlanOf(a);
    RunRequestsArePlan(Some(a.device), a.runId);
    RunNamesAreExperimentNames(Some(a.device), a.runId);
    forall i, j | 0 <= i < j < |plan| ensures SafeName(plan[i].name) != SafeName(plan[j].name) {
      if SafeName(plan[i].name) == SafeName(plan[j].name) {
        ExperimentFilesDistinct(plan[i].name, plan[j].name);
      }
    }
  }

  lemma PlansCompatible(a: Assignment, b: Assignment, i: nat, j: nat)
    requires SafeRunId(a.runId) && CanonicalDeviceId(a.device).Some?
    requires SafeRunId(b.runId) && CanonicalDeviceId(b.device).Some?
    requires a.runId != b.runId && CanonicalDeviceId(a.device) != CanonicalDeviceId(b.device)
    requires i < |PlanOf(a)| && j < |PlanOf(b)|
    ensures !Conflicts(HoldOf(PlanOf(a)[i]), HoldOf(PlanOf(b)[j]))
  {
    FilesOfPlan(a);
    FilesOfPlan(b);
    CanonicalIsPrefixedDigits(a.device);
    CanonicalIsPrefixedDigits(b.device);
    FilesDiffer(CardDigits(a.device).value, CardDigits(b.device).value, a.runId, b.runId);
    FilesDiffer(CardDigits(b.device).value, CardDigits(a.device).value, b.runId, a.runId);
    assert FilesOf(a)[i] == FilesOf(b)[j] ==> i == j < 2;
  }

  /** Any number of runs on distinct cards can hold all their leases at once. */
  lemma {:induction false} RunsOnDistinctCardsCoexist(runs: seq<Assignment>) returns (steps: seq<Step>, s: State)
    requires PairwiseDistinct(runs)
    ensures Leads(Init(), steps, s) && AllRunning(s, runs)
  {
    if runs == [] {
      steps, s := [], Init();
    } else {
      var n := |runs| - 1;
      var before, t := RunsOnDistinctCardsCoexist(runs[..n]);
      RunsKeepInv(Init(), before, t);
      var own, v := AdmitRun(t, runs);
      LeadsThen(Init(), before, t, own, v);
      steps, s := before + own, v;
    }
  }

  lemma AdmitRun(t: State, runs: seq<Assignment>) returns (steps: seq<Step>, v: State)
    requires runs != [] && PairwiseDistinct(runs) && PairwiseDistinct(runs[..|runs| - 1])
    requires Inv(t) && AllRunning(t, runs[..|runs| - 1])
    ensures Leads(t, steps, v) && AllRunning(v, runs)
  {
    var n := |runs| - 1;
    var plan := PlanOf(runs[n]);
    PlanIsSound(runs[n]);
    forall k, i, j | 0 <= k < n && 0 <= i < |plan| && 0 <= j < |t.procs[k].plan|
      ensures !Conflicts(HoldOf(t.procs[k].plan[j]), HoldOf(plan[i]))
    {
      assert t.procs[k].plan == PlanOf(runs[k]);
      PlansCompatible(runs[k], runs[n], j, i);
    }
    steps, v := AdmitPlan(t, plan);
    forall k | 0 <= k < |runs| ensures v.procs[k].phase.Running? && v.procs[k].plan == PlanOf(runs[k]) {
      if k < n {
        assert runs[..n][k] == runs[k];
      }
    }
  }

  /** A plan that conflicts with nothing anybody may hold starts at once. */
  lemma AdmitPlan(t: State, plan: seq<Request>) returns (steps: seq<Step>, v: State)
    requires Inv(t) && StrictlySorted(plan) && DistinctFiles(plan)
    requires forall k, i, j :: 0 <= k < |t.procs| && 0 <= i < |plan| && 0 <= j < |t.procs[k].plan| ==>
               !Conflicts(HoldOf(t.procs[k].plan[j]), HoldOf(plan[i]))
    ensures Leads(t, steps, v) && |v.procs| == |t.procs| + 1
    ensures forall k :: 0 <= k < |t.procs| ==> v.procs[k] == t.procs[k]
    ensures v.procs[|t.procs|].phase.Running? && v.procs[|t.procs|].plan == plan
  {
    var n := |t.procs|;
    var spawn := Spawn(plan, false);
    var u := Apply(t, spawn);
    StepKeepsInv(t, spawn);
    forall i, fd: Fd | 0 <= i < |plan| && fd in Others(u, n) ensures !Conflicts(Others(u, n)[fd], HoldOf(plan[i])) {
      assert Held(t, fd) && ProcOk(t.procs[fd.0]);
      assert t.locks[fd] == HoldOf(t.procs[fd.0].plan[fd.1]);
    }
    assert AllFree(Others(u, n), plan);
    steps, v := SoloAcquisition(u, n);
    LeadsStep(t, spawn, steps, v);
    steps := [spawn] + steps;
  }

  // ----- Probes ---------------------------------------------------------------------------

  /**
   With only runs, probes and registry sessions about, a card's probe succeeds exactly when a run with a
   new id could take its whole plan: the probe asks the question the run will ask.
   */
  lemma ProbeAnswersForRun(steps: seq<Step>, s: State, device: string, runId: string)
    requires Leads(Init(), steps, s) && ExperimentsOnly(s)
    requires SafeRunId(runId) && CanonicalDeviceId(device).Some?
    requires forall pid :: 0 <= pid < |s.procs| ==> forall d :: !IsRun(s.procs[pid].plan, d, runId)
    ensures AllFree(s.locks, GpuLeaseRequests(Some(device)).value) <==>
            AllFree(s.locks, RunRequests(Some(device), runId).value)
  {
    RunsKeepInv(Init(), steps, s);
    RunExtrasFreeNow(s, runId);
    WidenPlan(s.locks, Request("datasets", true), GpuLeaseRequests(Some(device)).value, Request("run-" + runId, false));
  }

  lemma RunExtrasFreeNow(s: State, runId: string)
    requires Inv(s) && ExperimentsOnly(s) && SafeRunId(runId)
    requires forall pid :: 0 <= pid < |s.procs| ==> forall d :: !IsRun(s.procs[pid].plan, d, runId)
    ensures Free(s.locks, Request("datasets", true)) && Free(s.locks, Request("run-" + runId, false))
  {
    forall fd: Fd | fd in s.locks
      ensures !Conflicts(s.locks[fd], HoldOf(Request("datasets", true)))
      ensures !Conflicts(s.locks[fd], HoldOf(Request("run-" + runId, false)))
    {
      assert Held(s, fd);
      var plan := s.procs[fd.0].plan;
      assert ProcOk(s.procs[fd.0]) && s.locks[fd] == HoldOf(plan[fd.1]);
      RunExtrasAreFree(plan, plan[fd.1], runId);
    }
  }

  lemma WidenPlan(locks: map<Fd, Hold>, first: Request, middle: seq<Request>, last: Request)
    requires Free(locks, first) && Free(locks, last)
    ensures AllFree(locks, middle) <==> AllFree(locks, [first] + middle + [last])
  {
    var plan := [first] + middle + [last];
    forall i | 0 <= i < |middle| ensures plan[i + 1] == middle[i] {}
    if AllFree(locks, plan) {
      forall i | 0 <= i < |middle| ensures Free(locks, middle[i]) {
        assert Free(locks, plan[i + 1]);
      }
    }
  }

  lemma RunExtrasAreFree(plan: seq<Request>, r: Request, runId: string)
    requires ExperimentPlan(plan)
    requires r in plan && SafeRunId(runId) && forall d :: !IsRun(plan, d, runId)
    ensures !Conflicts(HoldOf(r), HoldOf(Request("datasets", true)))
    ensures !Conflicts(HoldOf(r), HoldOf(Request("run-" + runId, false)))
  {
    PlanNames(plan);
    SafeLiterals();
    RunFile(runId);
    ExperimentFile(r.name);
    assert ("run-" + runId)[0] == 'r';
    if r.name == "run-" + runId {
      RunNameOnlyInRun(plan, runId);
      assert false;
    }
  }

  lemma RegistryIsNoRun(plan: seq<Request>, runId: string)
    ensures IsRegistrySession(plan) ==> forall r :: r in plan ==> r.name != "run-" + runId
  {
    assert "registry"[1] == 'e' && ("run-" + runId)[1] == 'u';
  }

  lemma RunNameOnlyInRun(plan: seq<Request>, runId: string)
    requires ExperimentPlan(plan)
    requires exists r :: r in plan && r.name == "run-" + runId
    ensures exists device :: IsRun(plan, device, runId)
  {
    assert "datasets"[0] == 'd' && "gpu"[0] == 'g' && ("run-" + runId)[0] == 'r';
    if device, id :| IsRun(plan, device, id) {
      assert ("run-" + id)[4..] == id && ("run-" + runId)[4..] == runId;
      if device.Some? {
        assert ("gpu:" + CanonicalDeviceId(device.value).value)[0] == 'g';
      }
    } else if device :| IsProbe(plan, device) {
      PlanNamesStart(device, plan);
      assert false;
    } else {
      RegistryIsNoRun(plan, runId);
      assert false;
    }
  }

  lemma PlanNamesStart(device: Option<string>, plan: seq<Request>)
    requires IsProbe(plan, device)
    ensures forall r :: r in plan ==> |r.name| > 0 && r.name[0] == 'g'
  {
    assert "gpu"[0] == 'g';
    if device.Some? {
      assert ("gpu:" + CanonicalDeviceId(device.value).value)[0] == 'g';
    }
  }
}
