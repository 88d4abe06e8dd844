/**
 Runs as programs whose every touch of the registry is a session of the concurrent registry
 protocol: lease, load, change, save and release, interleaved with everybody else's. Seen at its
 saves, every such execution is one of the executions in which a session is a single step.
 */
module RunSessions {
  import opened Wrappers
  import opened Registry
  import P = RegistryProtocol
  import R = RunLifecycle

  /** A run between its sessions, or inside session `pid`. */
  datatype Program = Outside(pc: R.Pc) | In(pc: R.Pc, pid: nat)

  datatype State = State(protocol: P.State, programs: map<string, Program>, rules: map<string, P.ParentRule>)

  datatype Step =
    | Launch(entry: Entry, rule: P.ParentRule)
    | Open(id: string, intent: P.Intent, blocking: bool)   // the next session of the run arrives
    | Move(step: P.Step)                                   // a step of some session
    | Return(id: string)                                   // the session is over, saved or not
    | RaiseLate(id: string)                                // the session raises although it has saved
    | Fault(id: string)                                    // a stage or gate raises
    | Die(id: string)

  /** What a run's next session is for. */
  ghost predicate IntentFits(pc: R.Pc, id: string, intent: P.Intent) {
    match pc
    case Registering(e, rule) => intent == P.RegisterRun(e, rule)
    case Rehearsing => intent.UpdateRun? && intent.runId == id && intent.changes == [SetStatus(DryRun)]
    case Staging => intent.UpdateRun? && intent.runId == id && exists passed, paths :: IsVerdict(intent.changes, passed, paths)
    case Recovering => intent.UpdateRun? && intent.runId == id && exists notes :: IsFailure(intent.changes, notes)
    case Decided => false
    case Ended => false
  }

  predicate IsVerdict(changes: seq<Change>, passed: bool, paths: seq<Change>) {
    R.FieldsOnly(paths) && changes == [SetStatus(if passed then Candidate else Rejected)] + paths + [SetPromoted(passed)]
  }

  predicate IsFailure(changes: seq<Change>, notes: seq<Change>) {
    R.FieldsOnly(notes) && changes == [SetStatus(Failed)] + notes
  }

  /** Where a run stands once its session has saved and returned. */
  function After(pc: R.Pc): R.Pc {
    if pc.Registering? then (if pc.entry.status == DryRun then R.Rehearsing else R.Staging) else R.Ended
  }

  /** Where it stands between the save and that return. */
  function Past(pc: R.Pc): R.Pc { if pc.Staging? then R.Decided else After(pc) }

  /** Where it stands when a session that saved raises: only the verdict's is inside the `try`. */
  function AfterLate(pc: R.Pc): R.Pc { if pc.Staging? then R.Recovering else R.Ended }

  /** Where it stands when the session did not save. */
  function Without(pc: R.Pc): R.Pc { if pc.Staging? then R.Recovering else R.Ended }

  ghost predicate Enabled(c: State, step: Step) {
    match step
    case Launch(e, rule) =>
      e.runId != "" && e.runId !in c.programs && (e.status == Running || e.status == DryRun) && !e.promoted && e.parent.None?
    case Open(id, intent, blocking) =>
      id in c.programs && c.programs[id].Outside? && IntentFits(c.programs[id].pc, id, intent) &&
      P.Enabled(c.protocol, P.Arrive(intent, blocking))
    case Move(p) => !p.Arrive? && P.Enabled(c.protocol, p)
    case Return(id) =>
      id in c.programs && c.programs[id].In? && c.programs[id].pid < |c.protocol.sessions| && !Pending(c.protocol, c.programs[id].pid)
    case RaiseLate(id) =>
      id in c.programs && c.programs[id].In? && c.programs[id].pid < |c.protocol.sessions| &&
      c.protocol.sessions[c.programs[id].pid].work.Saved?
    case Fault(id) => id in c.programs && c.programs[id] == Outside(R.Staging)
    case Die(id) => id in c.programs && c.programs[id].Outside? && !c.programs[id].pc.Ended?
  }

  predicate Pending(s: P.State, pid: nat)
    requires pid < |s.sessions|
  {
    !s.sessions[pid].work.Saved? && !s.sessions[pid].work.Abandoned?
  }

  ghost function Apply(c: State, step: Step): State
    requires Enabled(c, step)
  {
    match step
    case Launch(e, rule) => c.(programs := c.programs[e.runId := Outside(R.Registering(e, rule))], rules := c.rules[e.runId := rule])
    case Open(id, intent, blocking) =>
      c.(protocol := P.Apply(c.protocol, P.Arrive(intent, blocking)), programs := c.programs[id := In(c.programs[id].pc, |c.protocol.sessions|)])
    case Move(p) => c.(protocol := P.Apply(c.protocol, p))
    case Return(id) =>
      var at := c.programs[id];
      c.(programs := c.programs[id := Outside(if c.protocol.sessions[at.pid].work.Saved? then After(at.pc) else Without(at.pc))])
    case RaiseLate(id) => c.(programs := c.programs[id := Outside(AfterLate(c.programs[id].pc))])
    case Fault(id) => c.(programs := c.programs[id := Outside(R.Recovering)])
    case Die(id) => c.(programs := c.programs[id := Outside(R.Ended)])
  }

  ghost predicate Leads(c: State, steps: seq<Step>, d: State)
    decreases |steps|
  {
    if steps == [] then c == d
    else Enabled(c, steps[0]) && Leads(Apply(c, steps[0]), steps[1..], d)
  }

  function Initial(): State { State(P.Initial(map[]), map[], map[]) }

  // ----- The invariant --------------------------------------------------------------------

  ghost predicate ProgramOk(c: State, id: string)
    requires id in c.programs
  {
    var at := c.programs[id];
    at.In? ==> at.pid < |c.protocol.sessions| && IntentFits(at.pc, id, c.protocol.sessions[at.pid].intent)
  }

  ghost predicate Inside(c: State, id: string, pid: nat) { id in c.programs && c.programs[id].In? && c.programs[id].pid == pid }

  ghost predicate Owned(c: State, pid: nat) { exists id :: Inside(c, id, pid) }

  ghost predicate Inv(c: State) {
    && P.Inv(c.protocol, map[])
    && (forall id :: id in c.programs ==> ProgramOk(c, id))
    && (forall pid :: 0 <= pid < |c.protocol.sessions| && Pending(c.protocol, pid) ==> Owned(c, pid))
    && (forall i, j, pid :: Inside(c, i, pid) && Inside(c, j, pid) ==> i == j)
  }

  /** What a step of some session leaves alone: who is in it, what it is for, and that it ended. */
  lemma MoveKeepsSessions(s: P.State, p: P.Step)
    requires P.Inv(s, map[]) && P.Enabled(s, p) && !p.Arrive?
    ensures var t := P.Apply(s, p); |t.sessions| == |s.sessions|
    ensures var t := P.Apply(s, p); forall k :: 0 <= k < |s.sessions| ==> t.sessions[k].intent == s.sessions[k].intent
    ensures var t := P.Apply(s, p); forall k :: 0 <= k < |s.sessions| && Pending(t, k) ==> Pending(s, k)
    ensures var t := P.Apply(s, p);
            forall k :: 0 <= k < |s.sessions| && !(p.Save? && p.pid == k) ==> t.sessions[k].work.Saved? == s.sessions[k].work.Saved?
    ensures !p.Save? ==> P.Apply(s, p).file == s.file && P.Apply(s, p).committed == s.committed
  {
  }

  lemma ProtocolKeepsInv(s: P.State, p: P.Step)
    requires P.Inv(s, map[]) && P.Enabled(s, p)
    ensures P.Inv(P.Apply(s, p), map[])
  {
    P.RunsKeepInv(s, [p], P.Apply(s, p), map[]);
  }

  /** Nobody is inside a session that has not arrived. */
  lemma NobodyInside(c: State)
    requires Inv(c)
    ensures forall id :: !Inside(c, id, |c.protocol.sessions|)
  {
    forall id ensures !Inside(c, id, |c.protocol.sessions|) {
      assert id in c.programs ==> ProgramOk(c, id);
    }
  }

  lemma OpenKeepsInv(c: State, step: Step)
    requires Inv(c) && Enabled(c, step) && step.Open?
    ensures Inv(Apply(c, step))
  {
    var d := Apply(c, step);
    var n := |c.protocol.sessions|;
    ProtocolKeepsInv(c.protocol, P.Arrive(step.intent, step.blocking));
    assert d.protocol.sessions == c.protocol.sessions + [P.Session(step.intent, P.Idle)];
    forall id | id in d.programs ensures ProgramOk(d, id) {
      if id != step.id {
        assert ProgramOk(c, id);
      }
    }
    forall pid | 0 <= pid < |d.protocol.sessions| && Pending(d.protocol, pid) ensures Owned(d, pid) {
      if pid < n {
        assert Pending(c.protocol, pid) && Owned(c, pid);
        var id :| Inside(c, id, pid);
        assert Inside(d, id, pid);
      } else {
        assert Inside(d, step.id, n);
      }
    }
    NobodyInside(c);
    forall i, j, pid | Inside(d, i, pid) && Inside(d, j, pid) ensures i == j {
      assert i != step.id ==> Inside(c, i, pid);
      assert j != step.id ==> Inside(c, j, pid);
    }
  }

  lemma MoveKeepsInv(c: State, step: Step)
    requires Inv(c) && Enabled(c, step) && step.Move?
    ensures Inv(Apply(c, step))
  {
    var d := Apply(c, step);
    ProtocolKeepsInv(c.protocol, step.step);
    MoveKeepsSessions(c.protocol, step.step);
    forall id | id in d.programs ensures ProgramOk(d, id) {
      assert ProgramOk(c, id);
    }
    forall pid | 0 <= pid < |d.protocol.sessions| && Pending(d.protocol, pid) ensures Owned(d, pid) {
      var id :| Inside(c, id, pid);
      assert Inside(d, id, pid);
    }
    assert forall id, pid :: Inside(d, id, pid) ==> Inside(c, id, pid);
  }

  /** A step that takes one run outside and moves no session. */
  lemma OutsideKeepsInv(c: State, d: State, id: string)
    requires Inv(c) && d.protocol == c.protocol && id in d.programs && d.programs[id].Outside?
    requires d.programs == c.programs[id := d.programs[id]]
    requires forall pid: nat :: Inside(c, id, pid) && pid < |c.protocol.sessions| ==> !Pending(c.protocol, pid)
    ensures Inv(d)
  {
    forall k | k in d.programs ensures ProgramOk(d, k) {
      if k != id {
        assert ProgramOk(c, k);
      }
    }
    forall pid | 0 <= pid < |d.protocol.sessions| && Pending(d.protocol, pid) ensures Owned(d, pid) {
      var k :| Inside(c, k, pid);
      assert Inside(d, k, pid);
    }
    assert forall k, pid :: Inside(d, k, pid) ==> Inside(c, k, pid);
  }

  lemma StepKeepsInv(c: State, step: Step)
    requires Inv(c) && Enabled(c, step)
    ensures Inv(Apply(c, step))
  {
    match step
    case Open(_, _, _) => OpenKeepsInv(c, step);
    case Move(_) => MoveKeepsInv(c, step);
    case Launch(e, _) => OutsideKeepsInv(c, Apply(c, step), e.runId);
    case Return(id) => OutsideKeepsInv(c, Apply(c, step), id);
    case RaiseLate(id) => OutsideKeepsInv(c, Apply(c, step), id);
    case Fault(id) => OutsideKeepsInv(c, Apply(c, step), id);
    case Die(id) => OutsideKeepsInv(c, Apply(c, step), id);
  }

  // ----- What it refines --------------------------------------------------------------------

  /** A run's place in the execution whose sessions are single steps: past a session once that has saved. */
  function SeenPc(c: State, at: Program): R.Pc {
    if at.In? && at.pid < |c.protocol.sessions| && c.protocol.sessions[at.pid].work.Saved? then Past(at.pc) else at.pc
  }

  ghost predicate Shows(c: State, l: R.State) {
    && l.file == c.protocol.file && l.history == c.protocol.committed
    && l.runs.Keys == c.programs.Keys && l.rules == c.rules
    && forall id :: id in c.programs ==> l.runs[id] == SeenPc(c, c.programs[id])
  }

  /** The single step a save stands for. */
  ghost predicate StandsFor(op: P.Operation, pc: R.Pc, id: string, step: R.Step) {
    match pc
    case Registering(e, _) => op.Add? && step == R.Register(id, op.entry.parent)
    case Rehearsing => op.Modify? && step == R.Confirm(id, op.now)
    case Staging => op.Modify? && exists passed, paths :: IsVerdict(op.changes, passed, paths) && step == R.Decide(id, passed, paths, op.now)
    case Recovering => op.Modify? && exists notes :: IsFailure(op.changes, notes) && step == R.RecordFailure(id, notes, op.now)
    case Decided => false
    case Ended => false
  }

  lemma SomeStepStandsFor(m: Entries, intent: P.Intent, op: P.Operation, pc: R.Pc, id: string) returns (step: R.Step)
    requires IntentFits(pc, id, intent) && P.Carries(m, intent, op)
    ensures StandsFor(op, pc, id, step)
  {
    match pc
    case Registering(_, _) => step := R.Register(id, op.entry.parent);
    case Rehearsing => step := R.Confirm(id, op.now);
    case Staging =>
      var passed, paths :| IsVerdict(intent.changes, passed, paths);
      step := R.Decide(id, passed, paths, op.now);
    case Recovering =>
      var notes :| IsFailure(intent.changes, notes);
      step := R.RecordFailure(id, notes, op.now);
    case Decided =>
    case Ended =>
  }

  lemma SaveIsStep(l: R.State, id: string, pc: R.Pc, intent: P.Intent, op: P.Operation, step: R.Step)
    requires id in l.runs && l.runs[id] == pc && IntentFits(pc, id, intent) && P.Carries(l.file, intent, op)
    requires P.Effect(l.file, op).Ok? && StandsFor(op, pc, id, step)
    ensures R.StepOperation(l, step) == Some(op) && R.Enabled(l, step)
    ensures var m := R.Apply(l, step);
            m.file == P.Effect(l.file, op).value && m.history == l.history + [op] && m.rules == l.rules && m.runs == l.runs[id := Past(pc)]
  {
  }

  lemma SaveShown(c: State, pid: nat, l: R.State) returns (step: R.Step)
    requires Inv(c) && Shows(c, l) && Enabled(c, Move(P.Save(pid)))
    ensures R.Enabled(l, step) && Shows(Apply(c, Move(P.Save(pid))), R.Apply(l, step)) && !step.RaiseLate?
  {
    var s := c.protocol;
    var op := s.sessions[pid].work.op;
    assert P.SessionOk(s, pid, map[]);
    assert Owned(c, pid);
    var id :| Inside(c, id, pid);
    assert ProgramOk(c, id);
    var pc := c.programs[id].pc;
    step := SomeStepStandsFor(s.file, s.sessions[pid].intent, op, pc, id);
    SaveIsStep(l, id, pc, s.sessions[pid].intent, op, step);
    var d := Apply(c, Move(P.Save(pid)));
    MoveKeepsSessions(s, P.Save(pid));
    forall k | k in c.programs ensures R.Apply(l, step).runs[k] == SeenPc(d, d.programs[k]) {
      if k != id && c.programs[k].In? {
        assert Inside(c, k, c.programs[k].pid);
      }
    }
  }

  /** The steps that leave every run where it is seen. */
  ghost predicate Unseen(c: State, step: Step)
    requires Enabled(c, step)
  {
    match step
    case Open(_, _, _) => true
    case Move(p) => !p.Save?
    case Return(id) => var at := c.programs[id]; c.protocol.sessions[at.pid].work.Saved? && !at.pc.Staging?
    case RaiseLate(id) => var pc := c.programs[id].pc; pc.Rehearsing? || pc.Recovering?
    case _ => false
  }

  lemma UnseenShown(c: State, step: Step, l: R.State)
    requires Inv(c) && Shows(c, l) && Enabled(c, step) && Unseen(c, step)
    ensures Shows(Apply(c, step), l)
  {
    var d := Apply(c, step);
    if step.Move? {
      MoveKeepsSessions(c.protocol, step.step);
    }
    forall id | id in c.programs ensures l.runs[id] == SeenPc(d, d.programs[id]) {
      assert ProgramOk(c, id);
    }
  }

  /** Leaving a session, in what is seen of it. */
  lemma LeavingShown(c: State, step: Step, l: R.State) returns (seen: R.Step)
    requires Inv(c) && Shows(c, l) && Enabled(c, step) && !Unseen(c, step) && (step.Return? || step.RaiseLate?)
    ensures R.Enabled(l, seen) && Shows(Apply(c, step), R.Apply(l, seen))
    ensures seen.RaiseLate? ==> step == RaiseLate(seen.id)
  {
    var at := c.programs[step.id];
    assert ProgramOk(c, step.id);
    if step.RaiseLate? {
      seen := if at.pc.Staging? then R.RaiseLate(step.id) else R.Missed(step.id);
    } else if c.protocol.sessions[at.pid].work.Saved? {
      seen := R.Settle(step.id);
    } else {
      seen := if at.pc.Staging? then R.Raise(step.id) else R.Missed(step.id);
    }
  }

  /** The steps that only move a program. */
  lemma ProgramShown(c: State, step: Step, l: R.State) returns (seen: R.Step)
    requires Inv(c) && Shows(c, l) && Enabled(c, step) && !Unseen(c, step) && !step.Move?
    ensures R.Enabled(l, seen) && Shows(Apply(c, step), R.Apply(l, seen))
    ensures seen.RaiseLate? ==> step == RaiseLate(seen.id)
  {
    match step
    case Launch(e, rule) => seen := R.Launch(e, rule);
    case Fault(id) => seen := R.Raise(id);
    case Die(id) => seen := R.Missed(id);
    case _ => seen := LeavingShown(c, step, l);
  }

  /** What is seen to raise after its verdict does so. */
  ghost predicate LateSteps(seen: seq<R.Step>, steps: seq<Step>) {
    forall id :: R.RaiseLate(id) in seen ==> RaiseLate(id) in steps
  }

  lemma StepShown(c: State, step: Step, l: R.State) returns (seen: seq<R.Step>, m: R.State)
    requires Inv(c) && Shows(c, l) && Enabled(c, step)
    ensures R.Leads(l, seen, m) && Shows(Apply(c, step), m) && LateSteps(seen, [step])
  {
    if Unseen(c, step) {
      UnseenShown(c, step, l);
      seen, m := [], l;
    } else {
      var one;
      if step.Move? {
        one := SaveShown(c, step.step.pid, l);
      } else {
        one := ProgramShown(c, step, l);
      }
      seen, m := [one], R.Apply(l, one);
      assert seen[1..] == [];
    }
  }

  lemma {:induction false} LeadsThen(s: R.State, first: seq<R.Step>, t: R.State, second: seq<R.Step>, u: R.State)
    requires R.Leads(s, first, t) && R.Leads(t, second, u)
    ensures R.Leads(s, first + second, u)
    decreases |first|
  {
    if first == [] {
      assert first + second == second;
    } else {
      var whole := first + second;
      assert whole[0] == first[0] && whole[1..] == first[1..] + second;
      LeadsThen(R.Apply(s, first[0]), first[1..], t, second, u);
    }
  }

  lemma {:induction false} RunShown(c: State, steps: seq<Step>, d: State, l: R.State) returns (seen: seq<R.Step>, m: R.State)
    requires Inv(c) && Shows(c, l) && Leads(c, steps, d)
    ensures R.Leads(l, seen, m) && Shows(d, m) && LateSteps(seen, steps)
    decreases |steps|
  {
    if steps == [] {
      seen, m := [], l;
    } else {
      var first, u := StepShown(c, steps[0], l);
      StepKeepsInv(c, steps[0]);
      var rest;
      rest, m := RunShown(Apply(c, steps[0]), steps[1..], d, u);
      LeadsThen(l, first, u, rest, m);
      seen := first + rest;
      assert forall late :: late in steps <==> late == steps[0] || late in steps[1..];
    }
  }

  lemma InitialInv()
    ensures Inv(Initial()) && Shows(Initial(), R.Initial())
  {
  }

  /** Whatever the interleaving of sessions, the file and the saves are those of an execution with atomic sessions. */
  lemma SessionsRefine(steps: seq<Step>, d: State) returns (seen: seq<R.Step>, m: R.State)
    requires Leads(Initial(), steps, d)
    ensures R.Leads(R.Initial(), seen, m) && m.file == d.protocol.file && m.history == d.protocol.committed && m.rules == d.rules
    ensures LateSteps(seen, steps)
  {
    InitialInv();
    seen, m := RunShown(Initial(), steps, d, R.Initial());
  }

  /**
   So under full concurrency a run is a candidate exactly when its passed verdict was saved and no failure
   was, and stays promoted without being one exactly when the verdict's session raised after saving and
   the failure was saved too.
   */
  lemma RegistryStaysSound(steps: seq<Step>, d: State, id: string)
    requires Leads(Initial(), steps, d) && id in d.protocol.file
    ensures d.protocol.file[id].promoted <==> R.SavedPass(d.protocol.committed, id)
    ensures d.protocol.file[id].status == Candidate <==>
            R.SavedPass(d.protocol.committed, id) && !R.SavedFailure(d.protocol.committed, id)
    ensures d.protocol.file[id].promoted && d.protocol.file[id].status != Candidate <==>
            R.SavedPass(d.protocol.committed, id) && RaiseLate(id) in steps && R.SavedFailure(d.protocol.committed, id)
  {
    var seen, m := SessionsRefine(steps, d);
    R.PromotedIffCandidate(seen, m, id);
  }

  /** And a walk of its lineage raises exactly when it comes back over a link to a parent that its run named ahead of its registration. */
  lemma LineageStaysSound(steps: seq<Step>, d: State, id: string)
    requires Leads(Initial(), steps, d)
    ensures ChainRepeats(d.protocol.file, id) <==>
            exists k: nat, n: nat :: R.LoopsAfter(d.protocol.file, R.Registrations(d.protocol.committed), d.rules, id, k, n)
  {
    var seen, m := SessionsRefine(steps, d);
    R.OrderOfHistory(seen, m);
    R.LineageRaisesExactly(seen, m, id);
  }
}
