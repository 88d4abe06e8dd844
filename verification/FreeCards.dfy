/**
 From the list of free cards to the runs that could take them: the inventory reads the lock table of
 one host, the runs live in the protocol, and a table shows a protocol state when both hold the same locks.
 */
module FreeCards {
  import opened Wrappers
  import opened Leases
  import opened Devices
  import opened LockProtocol
  import opened RunLeases
  import Locking

  ghost predicate Held<K(!new)>(locks: map<K, Hold>, h: Hold) { exists k :: k in locks && locks[k] == h }

  /** The host's table holds exactly the locks of the protocol state, under whatever descriptors. */
  ghost predicate Shows(host: map<nat, Hold>, locks: map<Fd, Hold>) {
    forall h :: Held(host, h) <==> Held(locks, h)
  }

  lemma FreeByHolds<K(!new)>(locks: map<K, Hold>, r: Request)
    ensures Free(locks, r) <==> forall h :: Held(locks, h) ==> !Conflicts(h, HoldOf(r))
  {
    if Free(locks, r) {
      forall h | Held(locks, h) ensures !Conflicts(h, HoldOf(r)) {
        var k :| k in locks && locks[k] == h;
      }
    }
    if forall h :: Held(locks, h) ==> !Conflicts(h, HoldOf(r)) {
      forall k | k in locks ensures !Conflicts(locks[k], HoldOf(r)) {
        assert Held(locks, locks[k]);
      }
    }
  }

  lemma AllFreeShown(host: map<nat, Hold>, locks: map<Fd, Hold>, plan: seq<Request>)
    requires Shows(host, locks)
    ensures AllFree(host, plan) <==> AllFree(locks, plan)
  {
    forall i | 0 <= i < |plan| ensures Free(host, plan[i]) <==> Free(locks, plan[i]) {
      FreeByHolds(host, plan[i]);
      FreeByHolds(locks, plan[i]);
    }
  }

  /** No process was ever given this run id. */
  ghost predicate NewRun(s: State, runId: string) {
    SafeRunId(runId) && forall pid :: 0 <= pid < |s.procs| ==> forall d :: !IsRun(s.procs[pid].plan, d, runId)
  }

  /** The list names exactly the cards asked about whose whole run plan is free. */
  lemma ListedExactlyFree(steps: seq<Step>, s: State, host: map<nat, Hold>, devices: seq<string>, writes: Locking.Writes,
                          device: string, runId: string)
    requires Leads(Init(), steps, s) && ExperimentsOnly(s) && NewRun(s, runId) && Shows(host, s.locks)
    requires Locking.FreeAmong(host, devices, writes).Some? && device in devices
    ensures RunRequests(Some(device), runId).Some?
    ensures device in Locking.FreeAmong(host, devices, writes).value <==> AllFree(s.locks, RunRequests(Some(device), runId).value)
  {
    Locking.ReportsExactlyFree(host, devices, writes, device);
    AllFreeShown(host, s.locks, GpuLeaseRequests(Some(device)).value);
    ProbeAnswersForRun(steps, s, device, runId);
  }

  /**
   A card is listed exactly when a new run on it, left alone, gets all its leases; otherwise that run
   ends refused and holding nothing.
   */
  lemma ListedExactlyRunnable(steps: seq<Step>, s: State, host: map<nat, Hold>, devices: seq<string>, writes: Locking.Writes,
                              device: string, runId: string)
    returns (own: seq<Step>, t: State)
    requires Leads(Init(), steps, s) && ExperimentsOnly(s) && NewRun(s, runId) && Shows(host, s.locks)
    requires Locking.FreeAmong(host, devices, writes).Some? && device in devices
    ensures RunRequests(Some(device), runId).Some?
    ensures var start := Spawn(RunRequests(Some(device), runId).value, false);
            Enabled(s, start) && Leads(Apply(s, start), own, t) && OwnSteps(own, |s.procs|)
    ensures |t.procs| == |s.procs| + 1
    ensures device in Locking.FreeAmong(host, devices, writes).value ==> t.procs[|s.procs|].phase.Running?
    ensures device !in Locking.FreeAmong(host, devices, writes).value ==> t.procs[|s.procs|].phase.Refused? && t.locks == s.locks
  {
    ListedExactlyFree(steps, s, host, devices, writes, device, runId);
    RunsKeepInv(Init(), steps, s);
    own, t := TryPlan(s, device, runId);
  }

  lemma TryPlan(s: State, device: string, runId: string) returns (own: seq<Step>, t: State)
    requires Inv(s) && SafeRunId(runId) && RunRequests(Some(device), runId).Some?
    ensures var plan := RunRequests(Some(device), runId).value;
            && Enabled(s, Spawn(plan, false)) && Leads(Apply(s, Spawn(plan, false)), own, t) && OwnSteps(own, |s.procs|)
            && |t.procs| == |s.procs| + 1
            && (if AllFree(s.locks, plan) then t.procs[|s.procs|].phase.Running?
                else t.procs[|s.procs|].phase.Refused? && t.locks == s.locks)
  {
    var plan := RunRequests(Some(device), runId).value;
    RunRequestsArePlan(Some(device), runId);
    RunPlanHasDistinctFiles(device, runId);
    var u := Apply(s, Spawn(plan, false));
    StepKeepsInv(s, Spawn(plan, false));
    NobodysLocks(s, u);
    own, t := SoloAcquisition(u, |s.procs|);
  }

  /** A process that has just been spawned holds nothing. */
  lemma NobodysLocks(s: State, u: State)
    requires Inv(s) && u.locks == s.locks
    ensures Others(u, |s.procs|) == s.locks
  {
    forall fd: Fd | fd in s.locks ensures fd.0 != |s.procs| {
      assert LockProtocol.Held(s, fd);
    }
  }

  lemma RunPlanHasDistinctFiles(device: string, runId: string)
    requires SafeRunId(runId) && RunRequests(Some(device), runId).Some?
    ensures StrictlySorted(RunRequests(Some(device), runId).value) && DistinctFiles(RunRequests(Some(device), runId).value)
  {
    RunRequestsArePlan(Some(device), runId);
    PlanIsSound(Assignment(device, runId));
  }
}
