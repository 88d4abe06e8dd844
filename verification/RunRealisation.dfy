/**
 The converse of the refinement: every execution in which a session is a single step is one that
 full sessions can take, so the two allow exactly the same registries.
 */
module RunRealisation {
  import opened Wrappers
  import opened Leases
  import opened Registry
  import L = LockProtocol
  import P = RegistryProtocol
  import R = RunLifecycle
  import S = RunSessions

  // ----- One session, undisturbed --------------------------------------------------------------

  ghost predicate Quiet(s: P.State) { |s.lease.procs| == |s.sessions| && s.lease.locks == map[] }

  function OnlyLock(pid: nat, held: nat): map<L.Fd, Hold> {
    if held == 0 then map[] else map[(pid, 0) := HoldOf(P.REGISTRY_PLAN[0])]
  }

  /** The leases after `procs`, and one more with this phase and this many locks. */
  function Lease(procs: seq<L.Proc>, at: (L.Phase, nat)): L.State {
    L.State(procs + [L.Proc(P.REGISTRY_PLAN, false, at.0, at.1, None)], OnlyLock(|procs|, at.1))
  }

  /** `s` and one more session, at this point of its life. */
  function With(s: P.State, intent: P.Intent, at: (L.Phase, nat), work: P.Work): P.State {
    P.State(Lease(s.lease.procs, at), s.file, s.sessions + [P.Session(intent, work)], s.committed)
  }

  lemma LastReplaced<T>(s: seq<T>, x: T, y: T)
    ensures (s + [x])[|s| := y] == s + [y]
  {
  }

  lemma Arrives(s: P.State, intent: P.Intent)
    requires Quiet(s)
    ensures P.Enabled(s, P.Arrive(intent, false)) && P.Apply(s, P.Arrive(intent, false)) == With(s, intent, (L.Acquiring, 0), P.Idle)
  {
  }

  ghost predicate Turns(procs: seq<L.Proc>, a: (L.Phase, nat), l: L.Step, b: (L.Phase, nat)) {
    !l.Spawn? && l.pid == |procs| && L.Enabled(Lease(procs, a), l) && L.Apply(Lease(procs, a), l) == Lease(procs, b)
  }

  lemma TakesLock(procs: seq<L.Proc>)
    ensures Turns(procs, (L.Acquiring, 0), L.Lock(|procs|), (L.Acquiring, 1))
  {
    LastReplaced(procs, L.Proc(P.REGISTRY_PLAN, false, L.Acquiring, 0, None), L.Proc(P.REGISTRY_PLAN, false, L.Acquiring, 1, None));
  }

  lemma StartsWork(procs: seq<L.Proc>)
    ensures Turns(procs, (L.Acquiring, 1), L.Start(|procs|), (L.Running, 1))
  {
    LastReplaced(procs, L.Proc(P.REGISTRY_PLAN, false, L.Acquiring, 1, None), L.Proc(P.REGISTRY_PLAN, false, L.Running, 1, None));
  }

  lemma EndsWork(procs: seq<L.Proc>)
    ensures Turns(procs, (L.Running, 1), L.Finish(|procs|), (L.Releasing, 1))
  {
    LastReplaced(procs, L.Proc(P.REGISTRY_PLAN, false, L.Running, 1, None), L.Proc(P.REGISTRY_PLAN, false, L.Releasing, 1, None));
  }

  lemma OnlyRemoved<K, V>(m: map<K, V>, k: K)
    requires m.Keys == {k}
    ensures m - {k} == map[]
  {
  }

  lemma DropsLock(procs: seq<L.Proc>)
    ensures Turns(procs, (L.Releasing, 1), L.Unlock(|procs|), (L.Releasing, 0))
  {
    var n := |procs|;
    var held := L.Proc(P.REGISTRY_PLAN, false, L.Releasing, 1, None);
    var s := Lease(procs, (L.Releasing, 1));
    assert s.procs[n] == held;
    LastReplaced(procs, held, held.(held := 0));
    OnlyRemoved(s.locks, (n, 0));
  }

  lemma Retires(procs: seq<L.Proc>)
    ensures Turns(procs, (L.Releasing, 0), L.Retire(|procs|), (L.Completed, 0))
  {
    LastReplaced(procs, L.Proc(P.REGISTRY_PLAN, false, L.Releasing, 0, None), L.Proc(P.REGISTRY_PLAN, false, L.Completed, 0, None));
  }

  /** A step of the session's lease. */
  lemma LeaseMoves(s: P.State, intent: P.Intent, work: P.Work, a: (L.Phase, nat), l: L.Step, b: (L.Phase, nat))
    requires Quiet(s) && Turns(s.lease.procs, a, l, b) && P.AfterLease(work, l) == work
    ensures P.Enabled(With(s, intent, a, work), P.LeaseStep(l))
    ensures P.Apply(With(s, intent, a, work), P.LeaseStep(l)) == With(s, intent, b, work)
  {
    LastReplaced(s.sessions, P.Session(intent, work), P.Session(intent, work));
  }

  /** Loading, changing and saving under the lease. */
  lemma Works(s: P.State, intent: P.Intent, op: P.Operation)
    requires Quiet(s) && P.Carries(s.file, intent, op) && P.Effect(s.file, op).Ok?
    ensures var n := |s.sessions|;
            var after := P.Effect(s.file, op).value;
            var idle := With(s, intent, (L.Running, 1), P.Idle);
            var loaded := With(s, intent, (L.Running, 1), P.Loaded(s.file));
            var ready := With(s, intent, (L.Running, 1), P.Ready(after, op));
            && P.Enabled(idle, P.Load(n)) && P.Apply(idle, P.Load(n)) == loaded
            && P.Enabled(loaded, P.Change(n, op)) && P.Apply(loaded, P.Change(n, op)) == ready
            && P.Enabled(ready, P.Save(n))
            && P.Apply(ready, P.Save(n)) ==
                 With(s.(file := after, committed := s.committed + [op]), intent, (L.Running, 1), P.Saved(|s.committed|))
  {
    var n, after := |s.sessions|, P.Effect(s.file, op).value;
    LastReplaced(s.sessions, P.Session(intent, P.Idle), P.Session(intent, P.Loaded(s.file)));
    LastReplaced(s.sessions, P.Session(intent, P.Loaded(s.file)), P.Session(intent, P.Ready(after, op)));
    LastReplaced(s.sessions, P.Session(intent, P.Ready(after, op)), P.Session(intent, P.Saved(|s.committed|)));
  }

  // ----- Several steps -------------------------------------------------------------------------

  lemma {:induction false} LeadsSnoc(c: S.State, steps: seq<S.Step>, d: S.State, step: S.Step)
    requires S.Leads(c, steps, d) && S.Enabled(d, step)
    ensures S.Leads(c, steps + [step], S.Apply(d, step))
    decreases |steps|
  {
    var longer := steps + [step];
    if steps == [] {
      assert longer[1..] == [];
    } else {
      assert longer[0] == steps[0] && longer[1..] == steps[1..] + [step];
      LeadsSnoc(S.Apply(c, steps[0]), steps[1..], d, step);
    }
  }

  lemma {:induction false} LeadsThen(c: S.State, first: seq<S.Step>, d: S.State, second: seq<S.Step>, e: S.State)
    requires S.Leads(c, first, d) && S.Leads(d, second, e)
    ensures S.Leads(c, first + second, e)
    decreases |first|
  {
    var whole := first + second;
    if first == [] {
      assert whole == second;
    } else {
      assert whole[0] == first[0] && whole[1..] == first[1..] + second;
      LeadsThen(S.Apply(c, first[0]), first[1..], d, second, e);
    }
  }

  /** Run `id` inside the session that `With` adds. */
  function Within(c: S.State, id: string, intent: P.Intent, at: (L.Phase, nat), work: P.Work): S.State
    requires id in c.programs
  {
    c.(protocol := With(c.protocol, intent, at, work), programs := c.programs[id := S.In(c.programs[id].pc, |c.protocol.sessions|)])
  }

  ghost predicate Ready(c: S.State, id: string, intent: P.Intent) {
    Quiet(c.protocol) && id in c.programs && c.programs[id].Outside? && S.IntentFits(c.programs[id].pc, id, intent)
  }

  lemma Moves(first: S.State, steps: seq<S.Step>, c: S.State, id: string, intent: P.Intent, work: P.Work,
              a: (L.Phase, nat), l: L.Step, b: (L.Phase, nat))
    requires Quiet(c.protocol) && id in c.programs && Turns(c.protocol.lease.procs, a, l, b) && P.AfterLease(work, l) == work
    requires S.Leads(first, steps, Within(c, id, intent, a, work))
    ensures S.Leads(first, steps + [S.Move(P.LeaseStep(l))], Within(c, id, intent, b, work))
  {
    LeaseMoves(c.protocol, intent, work, a, l, b);
    LeadsSnoc(first, steps, Within(c, id, intent, a, work), S.Move(P.LeaseStep(l)));
  }

  lemma Opens(c: S.State, id: string, intent: P.Intent)
    requires Ready(c, id, intent)
    ensures S.Leads(c, [S.Open(id, intent, false)], Within(c, id, intent, (L.Acquiring, 0), P.Idle))
  {
    Arrives(c.protocol, intent);
    var step := S.Open(id, intent, false);
    assert S.Enabled(c, step) && S.Apply(c, step) == Within(c, id, intent, (L.Acquiring, 0), P.Idle);
    assert [step][1..] == [];
  }

  /** Up to holding the lease. */
  lemma Enters(c: S.State, id: string, intent: P.Intent) returns (steps: seq<S.Step>)
    requires Ready(c, id, intent)
    ensures S.Leads(c, steps, Within(c, id, intent, (L.Running, 1), P.Idle))
  {
    var procs := c.protocol.lease.procs;
    Opens(c, id, intent);
    TakesLock(procs);
    StartsWork(procs);
    steps := [S.Open(id, intent, false)];
    Moves(c, steps, c, id, intent, P.Idle, (L.Acquiring, 0), L.Lock(|procs|), (L.Acquiring, 1));
    steps := steps + [S.Move(P.LeaseStep(L.Lock(|procs|)))];
    Moves(c, steps, c, id, intent, P.Idle, (L.Acquiring, 1), L.Start(|procs|), (L.Running, 1));
    steps := steps + [S.Move(P.LeaseStep(L.Start(|procs|)))];
  }

  /** The state with the operation saved. */
  function SavedIn(c: S.State, op: P.Operation): S.State
    requires P.Effect(c.protocol.file, op).Ok?
  {
    c.(protocol := c.protocol.(file := P.Effect(c.protocol.file, op).value, committed := c.protocol.committed + [op]))
  }

  lemma Saves(first: S.State, before: seq<S.Step>, c: S.State, id: string, intent: P.Intent, op: P.Operation) returns (steps: seq<S.Step>)
    requires Ready(c, id, intent) && P.Carries(c.protocol.file, intent, op) && P.Effect(c.protocol.file, op).Ok?
    requires S.Leads(first, before, Within(c, id, intent, (L.Running, 1), P.Idle))
    ensures S.Leads(first, steps, Within(SavedIn(c, op), id, intent, (L.Running, 1), P.Saved(|c.protocol.committed|)))
  {
    var s := c.protocol;
    var n, after := |s.sessions|, P.Effect(s.file, op).value;
    Works(s, intent, op);
    steps := before + [S.Move(P.Load(n))];
    LeadsSnoc(first, before, Within(c, id, intent, (L.Running, 1), P.Idle), S.Move(P.Load(n)));
    LeadsSnoc(first, steps, Within(c, id, intent, (L.Running, 1), P.Loaded(s.file)), S.Move(P.Change(n, op)));
    steps := steps + [S.Move(P.Change(n, op))];
    LeadsSnoc(first, steps, Within(c, id, intent, (L.Running, 1), P.Ready(after, op)), S.Move(P.Save(n)));
    steps := steps + [S.Move(P.Save(n))];
  }

  /** Down to having given the lease up. */
  lemma Leaves(first: S.State, before: seq<S.Step>, c: S.State, id: string, intent: P.Intent, position: nat) returns (steps: seq<S.Step>)
    requires Ready(c, id, intent)
    requires S.Leads(first, before, Within(c, id, intent, (L.Running, 1), P.Saved(position)))
    ensures S.Leads(first, steps, Within(c, id, intent, (L.Completed, 0), P.Saved(position)))
  {
    var procs, saved := c.protocol.lease.procs, P.Saved(position);
    EndsWork(procs);
    DropsLock(procs);
    Retires(procs);
    Moves(first, before, c, id, intent, saved, (L.Running, 1), L.Finish(|procs|), (L.Releasing, 1));
    steps := before + [S.Move(P.LeaseStep(L.Finish(|procs|)))];
    Moves(first, steps, c, id, intent, saved, (L.Releasing, 1), L.Unlock(|procs|), (L.Releasing, 0));
    steps := steps + [S.Move(P.LeaseStep(L.Unlock(|procs|)))];
    Moves(first, steps, c, id, intent, saved, (L.Releasing, 0), L.Retire(|procs|), (L.Completed, 0));
    steps := steps + [S.Move(P.LeaseStep(L.Retire(|procs|)))];
  }

  /** A whole session that nobody else comes near. */
  lemma WholeSession(c: S.State, id: string, intent: P.Intent, op: P.Operation) returns (steps: seq<S.Step>, d: S.State)
    requires Ready(c, id, intent) && P.Carries(c.protocol.file, intent, op) && P.Effect(c.protocol.file, op).Ok?
    ensures S.Leads(c, steps, d) && d == Within(SavedIn(c, op), id, intent, (L.Completed, 0), P.Saved(|c.protocol.committed|))
  {
    steps := Enters(c, id, intent);
    steps := Saves(c, steps, c, id, intent, op);
    steps := Leaves(c, steps, SavedIn(c, op), id, intent, |c.protocol.committed|);
    d := Within(SavedIn(c, op), id, intent, (L.Completed, 0), P.Saved(|c.protocol.committed|));
  }

  // ----- Whole executions ----------------------------------------------------------------------

  /** Nobody is in a session, but for verdicts that have yet to return. */
  ghost predicate Rests(c: S.State) {
    && Quiet(c.protocol)
    && forall id :: id in c.programs ==> AtRest(c, c.programs[id])
  }

  predicate AtRest(c: S.State, at: S.Program) {
    if at.Outside? then !at.pc.Decided? else at.pid < |c.protocol.sessions| && c.protocol.sessions[at.pid].work.Saved? && at.pc.Staging?
  }

  ghost predicate Realises(c: S.State, l: R.State) { Rests(c) && S.Shows(c, l) }

  /** What the session's run sets out to do, and does. */
  lemma IntentOf(l: R.State, step: R.Step) returns (intent: P.Intent)
    requires R.Enabled(l, step) && R.StepOperation(l, step).Some?
    ensures step.id in l.runs && S.IntentFits(l.runs[step.id], step.id, intent)
    ensures P.Carries(l.file, intent, R.StepOperation(l, step).value)
  {
    match step
    case Register(id, _) => intent := P.RegisterRun(l.runs[id].entry, l.runs[id].rule);
    case Confirm(id, now) => intent := P.UpdateRun(id, [SetStatus(DryRun)], now);
    case Decide(id, passed, paths, now) =>
      intent := P.UpdateRun(id, [SetStatus(if passed then Candidate else Rejected)] + paths + [SetPromoted(passed)], now);
      assert S.IsVerdict(intent.changes, passed, paths);
    case RecordFailure(id, notes, now) =>
      intent := P.UpdateRun(id, [SetStatus(Failed)] + notes, now);
      assert S.IsFailure(intent.changes, notes);
    case _ =>
  }

  lemma StandsOutside(c: S.State, l: R.State, id: string)
    requires Realises(c, l) && id in l.runs && !l.runs[id].Decided?
    ensures id in c.programs && c.programs[id] == S.Outside(l.runs[id])
  {
    assert AtRest(c, c.programs[id]) && S.SeenPc(c, c.programs[id]) == l.runs[id];
  }

  lemma StandsInside(c: S.State, l: R.State, id: string)
    requires Realises(c, l) && id in l.runs && l.runs[id].Decided?
    ensures id in c.programs && c.programs[id].In? && c.programs[id].pc.Staging?
    ensures S.Enabled(c, S.Return(id)) && S.Enabled(c, S.RaiseLate(id)) && c.protocol.sessions[c.programs[id].pid].work.Saved?
  {
    assert AtRest(c, c.programs[id]) && S.SeenPc(c, c.programs[id]) == l.runs[id];
  }

  /** The state after the run's session. */
  ghost predicate AfterSession(c: S.State, l: R.State, step: R.Step, d: S.State) {
    && Realises(c, l) && R.Enabled(l, step) && R.StepOperation(l, step).Some? && step.id in c.programs
    && c.programs[step.id] == S.Outside(l.runs[step.id])
    && exists intent :: d == Within(SavedIn(c, R.StepOperation(l, step).value), step.id, intent, (L.Completed, 0), P.Saved(|c.protocol.committed|))
  }

  lemma OthersStay(c: S.State, l: R.State, step: R.Step, d: S.State)
    requires AfterSession(c, l, step, d)
    ensures forall id :: id in c.programs && id != step.id ==> S.SeenPc(d, d.programs[id]) == l.runs[id] && AtRest(d, d.programs[id])
    ensures Quiet(d.protocol) && d.rules == c.rules && d.programs.Keys == c.programs.Keys
    ensures d.programs[step.id] == S.In(l.runs[step.id], |c.protocol.sessions|)
    ensures |c.protocol.sessions| < |d.protocol.sessions| && d.protocol.sessions[|c.protocol.sessions|].work.Saved?
    ensures d.protocol.file == R.Apply(l, step).file && d.protocol.committed == R.Apply(l, step).history
  {
    forall id | id in c.programs && id != step.id ensures S.SeenPc(d, d.programs[id]) == l.runs[id] && AtRest(d, d.programs[id]) {
      assert S.SeenPc(c, c.programs[id]) == l.runs[id] && AtRest(c, c.programs[id]);
    }
  }

  lemma DecisionShown(c: S.State, l: R.State, step: R.Step, d: S.State)
    requires AfterSession(c, l, step, d) && step.Decide?
    ensures Realises(d, R.Apply(l, step))
  {
    OthersStay(c, l, step, d);
  }

  lemma AfterIsNext(l: R.State, step: R.Step)
    requires R.Enabled(l, step) && R.StepOperation(l, step).Some? && !step.Decide?
    ensures R.NextPc(l, step) == S.After(l.runs[step.id])
    ensures R.Apply(l, step).runs == l.runs[step.id := S.After(l.runs[step.id])] && R.Apply(l, step).rules == l.rules
  {
  }

  lemma ReturnMoves(d: S.State, id: string, pc: R.Pc, pid: nat)
    requires id in d.programs && d.programs[id] == S.In(pc, pid) && pid < |d.protocol.sessions| && d.protocol.sessions[pid].work.Saved?
    ensures S.Enabled(d, S.Return(id)) && S.Apply(d, S.Return(id)) == d.(programs := d.programs[id := S.Outside(S.After(pc))])
  {
  }

  lemma ReturnShown(c: S.State, l: R.State, step: R.Step, d: S.State)
    requires AfterSession(c, l, step, d) && !step.Decide?
    ensures S.Enabled(d, S.Return(step.id)) && Realises(S.Apply(d, S.Return(step.id)), R.Apply(l, step))
  {
    OthersStay(c, l, step, d);
    ReturnMoves(d, step.id, l.runs[step.id], |c.protocol.sessions|);
    AfterIsNext(l, step);
  }

  lemma SessionRealised(c: S.State, l: R.State, step: R.Step) returns (steps: seq<S.Step>, d: S.State)
    requires Realises(c, l) && R.Enabled(l, step) && R.StepOperation(l, step).Some?
    ensures S.Leads(c, steps, d) && Realises(d, R.Apply(l, step))
  {
    var intent := IntentOf(l, step);
    StandsOutside(c, l, step.id);
    steps, d := WholeSession(c, step.id, intent, R.StepOperation(l, step).value);
    if step.Decide? {
      DecisionShown(c, l, step, d);
    } else {
      ReturnShown(c, l, step, d);
      LeadsSnoc(c, steps, d, S.Return(step.id));
      steps, d := steps + [S.Return(step.id)], S.Apply(d, S.Return(step.id));
    }
  }

  lemma ProgramMoved(c: S.State, l: R.State, step: R.Step, d: S.State)
    requires Realises(c, l) && R.Enabled(l, step) && R.StepOperation(l, step).None? && !step.Launch? && step.id in c.programs
    requires d == c.(programs := c.programs[step.id := S.Outside(R.NextPc(l, step))])
    ensures Realises(d, R.Apply(l, step))
  {
    forall id | id in d.programs ensures S.SeenPc(d, d.programs[id]) == R.Apply(l, step).runs[id] && AtRest(d, d.programs[id]) {
      assert S.SeenPc(c, c.programs[id]) == l.runs[id] && AtRest(c, c.programs[id]);
    }
  }

  lemma LaunchRealised(c: S.State, l: R.State, step: R.Step)
    requires Realises(c, l) && R.Enabled(l, step) && step.Launch?
    ensures S.Enabled(c, S.Launch(step.entry, step.rule))
    ensures Realises(S.Apply(c, S.Launch(step.entry, step.rule)), R.Apply(l, step))
  {
    var d := S.Apply(c, S.Launch(step.entry, step.rule));
    forall id | id in d.programs ensures S.SeenPc(d, d.programs[id]) == R.Apply(l, step).runs[id] && AtRest(d, d.programs[id]) {
      if id in c.programs {
        assert S.SeenPc(c, c.programs[id]) == l.runs[id] && AtRest(c, c.programs[id]);
      }
    }
  }

  /** What a step without a session is. */
  lemma OtherRealised(c: S.State, l: R.State, step: R.Step) returns (one: S.Step)
    requires Realises(c, l) && R.Enabled(l, step) && R.StepOperation(l, step).None?
    ensures S.Enabled(c, one) && Realises(S.Apply(c, one), R.Apply(l, step))
  {
    if step.Launch? {
      LaunchRealised(c, l, step);
      one := S.Launch(step.entry, step.rule);
    } else {
      if l.runs[step.id].Decided? {
        StandsInside(c, l, step.id);
        one := if step.RaiseLate? then S.RaiseLate(step.id) else S.Return(step.id);
      } else {
        StandsOutside(c, l, step.id);
        one := if step.Raise? then S.Fault(step.id) else S.Die(step.id);
      }
      ProgramMoved(c, l, step, S.Apply(c, one));
    }
  }

  lemma {:induction false} RunRealised(c: S.State, l: R.State, steps: seq<R.Step>, m: R.State) returns (full: seq<S.Step>, d: S.State)
    requires Realises(c, l) && R.Leads(l, steps, m)
    ensures S.Leads(c, full, d) && Realises(d, m)
    decreases |steps|
  {
    if steps == [] {
      full, d := [], c;
    } else {
      var first, u := StepRealised(c, l, steps[0]);
      var rest;
      rest, d := RunRealised(u, R.Apply(l, steps[0]), steps[1..], m);
      LeadsThen(c, first, u, rest, d);
      full := first + rest;
    }
  }

  lemma StepRealised(c: S.State, l: R.State, step: R.Step) returns (steps: seq<S.Step>, d: S.State)
    requires Realises(c, l) && R.Enabled(l, step)
    ensures S.Leads(c, steps, d) && Realises(d, R.Apply(l, step))
  {
    if R.StepOperation(l, step).Some? {
      steps, d := SessionRealised(c, l, step);
    } else {
      var one := OtherRealised(c, l, step);
      steps, d := [one], S.Apply(c, one);
      assert steps[1..] == [];
    }
  }

  /** Whatever runs can do with sessions that are single steps, they can do with full ones. */
  lemma SessionsRealise(steps: seq<R.Step>, m: R.State) returns (full: seq<S.Step>, d: S.State)
    requires R.Leads(R.Initial(), steps, m)
    ensures S.Leads(S.Initial(), full, d)
    ensures d.protocol.file == m.file && d.protocol.committed == m.history && d.rules == m.rules
  {
    full, d := RunRealised(S.Initial(), R.Initial(), steps, m);
  }

  /** So a run of full sessions can also end failed and still the latest promoted one. */
  lemma SessionsFailPromoted(e: Entry, now: int) returns (full: seq<S.Step>, d: S.State)
    requires e.runId != "" && e.status == Running && !e.promoted && e.parent.None?
    ensures S.Leads(S.Initial(), full, d) && d.protocol.file == map[e.runId := R.Shown(e, Failed, true, now)]
    ensures IsLatest(d.protocol.file, e.experiment, true, Some(R.Shown(e, Failed, true, now)))
  {
    var steps, s := R.FailedAndPromoted(e, now);
    full, d := SessionsRealise(steps, s);
  }
}
