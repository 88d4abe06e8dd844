/**
 Concurrent registry sessions. Each process takes the exclusive `registry` lease
 through the lease protocol, loads the file, changes its own copy, saves, and
 releases; any step may be the last one it takes. The lease is not assumed to
 exclude anybody: that is the lease protocol's own invariant.
 */
module RegistryProtocol {
  import opened Wrappers
  import opened Leases
  import opened Registry
  import L = LockProtocol

  /** What a session sets out to do: `_register_run` or `_update_run`. */
  datatype Intent =
    | RegisterRun(entry: Entry, parent: ParentRule)
    | UpdateRun(runId: string, changes: seq<Change>, now: int)

  /** `spec.experiment.parent` */
  datatype ParentRule = NoParent | LatestPromoted | Named(runId: string)

  /** A change with its parent resolved, as it is applied to a loaded registry. */
  datatype Operation =
    | Add(entry: Entry)
    | Modify(runId: string, changes: seq<Change>, now: int)

  function Effect(m: Entries, op: Operation): Result<Entries, Error> {
    match op
    case Add(e) => Registered(m, e)
    case Modify(id, changes, now) => Updated(m, id, changes, now)
  }

  /** `_resolve_parent`, as a choice among equally new promoted runs. */
  ghost predicate ResolvesParent(m: Entries, experiment: string, rule: ParentRule, parent: Option<string>) {
    match rule
    case NoParent => parent == None
    case Named(id) => parent == if id == "" then None else Some(id)
    case LatestPromoted =>
      exists found :: IsLatest(m, experiment, true, found) &&
        parent == if found.Some? then Some(found.value.runId) else None
  }

  ghost predicate Carries(m: Entries, intent: Intent, op: Operation) {
    match intent
    case RegisterRun(e, rule) => op.Add? && op.entry == e.(parent := op.entry.parent) && ResolvesParent(m, e.experiment, rule, op.entry.parent)
    case UpdateRun(id, changes, now) => op == Modify(id, changes, now)
  }

  datatype Work =
    | Idle
    | Loaded(copy: Entries)
    | Ready(copy: Entries, op: Operation)   // the change applied to the copy
    | Saved(position: nat)                  // its place in the order of saves
    | Abandoned                             // raised, refused or killed before saving

  datatype Session = Session(intent: Intent, work: Work)

  datatype State = State(
    lease: L.State,
    file: Entries,
    sessions: seq<Session>,
    committed: seq<Operation>               // in save order
  )

  datatype Step =
    | Arrive(intent: Intent, blocking: bool)
    | LeaseStep(step: L.Step)
    | Load(pid: nat)
    | Change(pid: nat, op: Operation)
    | Save(pid: nat)

  const REGISTRY_PLAN := [Request("registry", false)]

  function Initial(file: Entries): State { State(L.Init(), file, [], []) }

  ghost predicate AtWork(s: State, pid: nat) {
    pid < |s.sessions| && pid < |s.lease.procs| && s.lease.procs[pid].phase.Running?
  }

  ghost predicate Enabled(s: State, step: Step) {
    match step
    case Arrive(_, blocking) => L.Enabled(s.lease, L.Spawn(REGISTRY_PLAN, blocking))
    case LeaseStep(l) => !l.Spawn? && L.Enabled(s.lease, l) && l.pid < |s.sessions|
    case Load(pid) => AtWork(s, pid) && s.sessions[pid].work.Idle?
    case Change(pid, op) =>
      AtWork(s, pid) && s.sessions[pid].work.Loaded? &&
      Carries(s.sessions[pid].work.copy, s.sessions[pid].intent, op) &&
      Effect(s.sessions[pid].work.copy, op).Ok?
    case Save(pid) => AtWork(s, pid) && s.sessions[pid].work.Ready?
  }

  function WithWork(s: State, pid: nat, work: Work): State
    requires pid < |s.sessions|
  {
    s.(sessions := s.sessions[pid := s.sessions[pid].(work := work)])
  }

  /** Leaving the lease, by finishing, being refused or dying, gives up what was not saved; so does never getting it. */
  function AfterLease(work: Work, l: L.Step): Work {
    if (l.Finish? || l.Kill? || l.Busy? || l.Break?) && !work.Saved? then Abandoned else work
  }

  ghost function Apply(s: State, step: Step): State
    requires Enabled(s, step)
  {
    match step
    case Arrive(intent, blocking) =>
      s.(lease := L.Apply(s.lease, L.Spawn(REGISTRY_PLAN, blocking)), sessions := s.sessions + [Session(intent, Idle)])
    case LeaseStep(l) =>
      WithWork(s, l.pid, AfterLease(s.sessions[l.pid].work, l)).(lease := L.Apply(s.lease, l))
    case Load(pid) => WithWork(s, pid, Loaded(s.file))
    case Change(pid, op) => WithWork(s, pid, Ready(Effect(s.sessions[pid].work.copy, op).value, op))
    case Save(pid) =>
      WithWork(s, pid, Saved(|s.committed|))
        .(file := s.sessions[pid].work.copy, committed := s.committed + [s.sessions[pid].work.op])
  }

  ghost predicate Leads(s: State, steps: seq<Step>, t: State)
    decreases |steps|
  {
    if steps == [] then s == t
    else Enabled(s, steps[0]) && Leads(Apply(s, steps[0]), steps[1..], t)
  }

  // ----- The invariant ------------------------------------------------------------------

  /** The committed operations applied one after another, each to the result of the ones before. */
  function Replay(initial: Entries, ops: seq<Operation>): Option<Entries> {
    if ops == [] then Some(initial)
    else
      var prefix := Replay(initial, ops[..|ops| - 1]);
      if prefix.None? then None
      else
        var next := Effect(prefix.value, ops[|ops| - 1]);
        if next.Ok? then Some(next.value) else None
  }

  /** The change saved at `position` is the one this session intended, on the registry as it then was. */
  ghost predicate CommittedAsIntended(initial: Entries, committed: seq<Operation>, intent: Intent, position: nat) {
    && position < |committed|
    && Replay(initial, committed[..position]).Some?
    && Carries(Replay(initial, committed[..position]).value, intent, committed[position])
  }

  ghost predicate SavedBySomebody(s: State, position: nat) {
    exists pid :: 0 <= pid < |s.sessions| && s.sessions[pid].work == Saved(position)
  }

  ghost predicate DistinctSaves(s: State) {
    forall p, q :: 0 <= p < q < |s.sessions| && s.sessions[p].work.Saved? ==> s.sessions[p].work != s.sessions[q].work
  }

  ghost predicate SessionOk(s: State, pid: nat, initial: Entries)
    requires pid < |s.sessions| && |s.lease.procs| == |s.sessions|
  {
    var work := s.sessions[pid].work;
    && (work.Loaded? || work.Ready? ==> s.lease.procs[pid].phase.Running?)
    && (work.Loaded? ==> work.copy == s.file)
    && (work.Ready? ==> Effect(s.file, work.op) == Ok(work.copy) && Carries(s.file, s.sessions[pid].intent, work.op))
    && (work.Saved? ==> CommittedAsIntended(initial, s.committed, s.sessions[pid].intent, work.position))
  }

  ghost predicate Inv(s: State, initial: Entries) {
    && L.Inv(s.lease)
    && |s.lease.procs| == |s.sessions|
    && (forall pid :: 0 <= pid < |s.sessions| ==> s.lease.procs[pid].plan == REGISTRY_PLAN)
    && (forall pid :: 0 <= pid < |s.sessions| ==> SessionOk(s, pid, initial))
    && Replay(initial, s.committed) == Some(s.file)
    // One session per save, one save per saved session.
    && DistinctSaves(s)
    && (forall k :: 0 <= k < |s.committed| ==> SavedBySomebody(s, k))
  }

  /** The lease protocol lets only one session past its lease. */
  lemma OneAtWork(s: State, initial: Entries, p: nat, q: nat)
    requires Inv(s, initial) && AtWork(s, p) && AtWork(s, q)
    ensures p == q
  {
    if p != q {
      assert L.ProcOk(s.lease.procs[p]) && L.ProcOk(s.lease.procs[q]);
      var a: L.Fd, b: L.Fd := (p, 0), (q, 0);
      assert L.Held(s.lease, a) && L.Held(s.lease, b);
      assert a in s.lease.locks && b in s.lease.locks;
      assert Conflicts(s.lease.locks[a], s.lease.locks[b]);
      assert false;
    }
  }

  lemma ReplaySnoc(initial: Entries, ops: seq<Operation>, op: Operation)
    requires Replay(initial, ops).Some?
    ensures Replay(initial, ops + [op]) ==
            match Effect(Replay(initial, ops).value, op) case Ok(m) => Some(m) case Err(_) => None
  {
    assert (ops + [op])[..|ops|] == ops;
  }

  lemma SaveKeepsInv(s: State, pid: nat, initial: Entries)
    requires Inv(s, initial) && Enabled(s, Save(pid))
    ensures Inv(Apply(s, Save(pid)), initial)
  {
    var t := Apply(s, Save(pid));
    var n := |s.committed|;
    assert SessionOk(s, pid, initial);
    ReplaySnoc(initial, s.committed, s.sessions[pid].work.op);
    forall q | 0 <= q < |t.sessions| ensures SessionOk(t, q, initial) {
      assert SessionOk(s, q, initial);
      assert forall k :: 0 <= k <= n ==> t.committed[..k] == s.committed[..k];
      if q != pid && (s.sessions[q].work.Loaded? || s.sessions[q].work.Ready?) {
        OneAtWork(s, initial, pid, q);
      }
    }
    forall p, q | 0 <= p < q < |t.sessions| && t.sessions[p].work.Saved? ensures t.sessions[p].work != t.sessions[q].work {
      assert SessionOk(s, p, initial) && SessionOk(s, q, initial);
    }
    forall k | 0 <= k < |t.committed| ensures SavedBySomebody(t, k) {
      if k < n {
        assert SavedBySomebody(s, k);
        var r :| 0 <= r < |s.sessions| && s.sessions[r].work == Saved(k);
        assert t.sessions[r].work == Saved(k);
      } else {
        assert t.sessions[pid].work == Saved(k);
      }
    }
  }

  lemma LeaseKeepsInv(s: State, step: Step)
    requires L.Inv(s.lease) && Enabled(s, step)
    ensures L.Inv(Apply(s, step).lease)
  {
    if step.Arrive? {
      L.StepKeepsInv(s.lease, L.Spawn(REGISTRY_PLAN, step.blocking));
    } else if step.LeaseStep? {
      L.StepKeepsInv(s.lease, step.step);
    }
  }

  /** `t` is `s` after a step that saved nothing, as far as session `q` can tell. */
  ghost predicate SameFor(s: State, t: State, q: nat) {
    && q < |s.sessions| == |s.lease.procs| && q < |t.sessions| == |t.lease.procs|
    && t.lease.procs[q].plan == s.lease.procs[q].plan
    && t.sessions[q].intent == s.sessions[q].intent
    && (t.sessions[q].work.Saved? || s.sessions[q].work.Saved? ==> t.sessions[q].work == s.sessions[q].work)
  }

  lemma LeaseStepKeepsSession(s: State, l: L.Step, initial: Entries, q: nat)
    requires Inv(s, initial) && Enabled(s, LeaseStep(l)) && q < |s.sessions|
    ensures SameFor(s, Apply(s, LeaseStep(l)), q) && SessionOk(Apply(s, LeaseStep(l)), q, initial)
  {
    L.StepOnProcs(s.lease, l);
    assert SessionOk(s, q, initial);
  }

  lemma ArriveKeepsSession(s: State, step: Step, initial: Entries, q: nat)
    requires Inv(s, initial) && Enabled(s, step) && step.Arrive? && q < |s.sessions|
    ensures SameFor(s, Apply(s, step), q) && SessionOk(Apply(s, step), q, initial)
  {
    L.StepOnProcs(s.lease, L.Spawn(REGISTRY_PLAN, step.blocking));
    assert SessionOk(s, q, initial);
  }

  lemma WorkKeepsSession(s: State, step: Step, initial: Entries, q: nat)
    requires Inv(s, initial) && Enabled(s, step) && (step.Load? || step.Change?) && q < |s.sessions|
    ensures SameFor(s, Apply(s, step), q) && SessionOk(Apply(s, step), q, initial)
  {
    assert SessionOk(s, q, initial) && SessionOk(s, step.pid, initial);
  }

  /** What is left to check once every old session is known to be unchanged or fine. */
  lemma QuietInv(s: State, t: State, initial: Entries)
    requires Inv(s, initial) && L.Inv(t.lease) && t.file == s.file && t.committed == s.committed
    requires |s.sessions| <= |t.sessions| == |t.lease.procs|
    requires forall q :: 0 <= q < |s.sessions| ==> SameFor(s, t, q) && SessionOk(t, q, initial)
    requires forall q :: |s.sessions| <= q < |t.sessions| ==>
               t.lease.procs[q].plan == REGISTRY_PLAN && t.sessions[q].work.Idle?
    ensures Inv(t, initial)
  {
    forall k | 0 <= k < |t.committed| ensures SavedBySomebody(t, k) {
      assert SavedBySomebody(s, k);
      var r :| 0 <= r < |s.sessions| && s.sessions[r].work == Saved(k);
      assert SameFor(s, t, r);
      assert t.sessions[r].work == Saved(k);
    }
    forall p, q | 0 <= p < q < |t.sessions| && t.sessions[p].work.Saved? ensures t.sessions[p].work != t.sessions[q].work {
      if q < |s.sessions| {
        assert SameFor(s, t, p) && SameFor(s, t, q);
      }
    }
    forall q | 0 <= q < |t.sessions| ensures t.lease.procs[q].plan == REGISTRY_PLAN && SessionOk(t, q, initial) {
      if q < |s.sessions| {
        assert SameFor(s, t, q);
      }
    }
  }

  lemma QuietStepKeepsInv(s: State, step: Step, initial: Entries)
    requires Inv(s, initial) && Enabled(s, step) && !step.Save?
    ensures Inv(Apply(s, step), initial)
  {
    LeaseKeepsInv(s, step);
    forall q | 0 <= q < |s.sessions| ensures SameFor(s, Apply(s, step), q) && SessionOk(Apply(s, step), q, initial) {
      if step.Arrive? {
        ArriveKeepsSession(s, step, initial, q);
      } else if step.LeaseStep? {
        LeaseStepKeepsSession(s, step.step, initial, q);
      } else {
        WorkKeepsSession(s, step, initial, q);
      }
    }
    if step.Arrive? {
      L.StepOnProcs(s.lease, L.Spawn(REGISTRY_PLAN, step.blocking));
    } else if step.LeaseStep? {
      L.StepOnProcs(s.lease, step.step);
    }
    QuietInv(s, Apply(s, step), initial);
  }

  lemma {:induction false} RunsKeepInv(s: State, steps: seq<Step>, t: State, initial: Entries)
    requires Inv(s, initial) && Leads(s, steps, t)
    ensures Inv(t, initial)
    decreases |steps|
  {
    if steps != [] {
      if steps[0].Save? {
        SaveKeepsInv(s, steps[0].pid, initial);
      } else {
        QuietStepKeepsInv(s, steps[0], initial);
      }
      RunsKeepInv(Apply(s, steps[0]), steps[1..], t, initial);
    }
  }

  // ----- Nothing is lost --------------------------------------------------------------------

  /**
   After any interleaving the file is exactly the committed operations applied in the
   order they were saved, and every session that saved is there once, in its place.
   */
  lemma NoLostUpdates(steps: seq<Step>, s: State, initial: Entries)
    requires Leads(Initial(initial), steps, s)
    ensures Replay(initial, s.committed) == Some(s.file)
    ensures forall pid :: 0 <= pid < |s.sessions| && s.sessions[pid].work.Saved? ==>
              CommittedAsIntended(initial, s.committed, s.sessions[pid].intent, s.sessions[pid].work.position)
    ensures DistinctSaves(s) && forall k :: 0 <= k < |s.committed| ==> SavedBySomebody(s, k)
  {
    RunsKeepInv(Initial(initial), steps, s, initial);
    forall pid | 0 <= pid < |s.sessions| && s.sessions[pid].work.Saved?
      ensures CommittedAsIntended(initial, s.committed, s.sessions[pid].intent, s.sessions[pid].work.position)
    {
      assert SessionOk(s, pid, initial);
    }
  }

  lemma EffectKeepsRuns(m: Entries, op: Operation)
    requires Effect(m, op).Ok?
    ensures m.Keys <= Effect(m, op).value.Keys
  {
  }

  lemma {:induction false} CommittedGrows(s: State, steps: seq<Step>, t: State, initial: Entries)
    requires Inv(s, initial) && Leads(s, steps, t)
    ensures s.committed <= t.committed && s.file.Keys <= t.file.Keys
    decreases |steps|
  {
    if steps != [] {
      var u := Apply(s, steps[0]);
      RunsKeepInv(s, [steps[0]], u, initial);
      if steps[0].Save? {
        assert SessionOk(s, steps[0].pid, initial);
        EffectKeepsRuns(s.file, s.sessions[steps[0].pid].work.op);
      }
      CommittedGrows(u, steps[1..], t, initial);
    }
  }

  /** A run once registered is registered for good, whoever writes the file afterwards. */
  lemma RegisteredForGood(steps: seq<Step>, s: State, later: seq<Step>, t: State, initial: Entries, runId: string)
    requires Leads(Initial(initial), steps, s) && Leads(s, later, t)
    requires runId in s.file
    ensures runId in t.file
  {
    RunsKeepInv(Initial(initial), steps, s, initial);
    CommittedGrows(s, later, t, initial);
  }
}
