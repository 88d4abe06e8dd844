/**
 Every interleaving of processes that take lease sets: each step is one kernel
 call of one process. `locks` is the kernel's table of granted `flock`s, keyed by
 the open file description (process, position in its plan) that holds it.
 */
module LockProtocol {
  import opened Order
  import opened Wrappers
  import opened Leases

  datatype Phase = Acquiring | RollingBack | Running | Releasing | Completed | Refused | Killed

  /** `stray` is the lease whose `flock` was granted and whose owner record then failed: no list has it. */
  datatype Proc = Proc(plan: seq<Request>, blocking: bool, phase: Phase, held: nat, stray: Option<nat>)

  type Fd = (nat, nat)

  datatype State = State(procs: seq<Proc>, locks: map<Fd, Hold>)

  datatype Step =
    | Spawn(plan: seq<Request>, blocking: bool)
    | Lock(pid: nat)      // flock granted for the next lease of the plan
    | Busy(pid: nat)      // non-blocking flock refused: start the rollback
    | Break(pid: nat)     // flock granted, but the owner record cannot be written: roll back the leases before
    | Start(pid: nat)     // every lease taken
    | Finish(pid: nat)    // the leased work ended, normally or not
    | Unlock(pid: nat)    // release the most recently taken lease still held
    | Retire(pid: nat)    // nothing left to release
    | Kill(pid: nat)      // the process dies and the kernel drops its locks
    | Exit(pid: nat)      // a process that was refused ends, and the kernel drops its stray lock

  predicate Terminal(phase: Phase) { phase.Completed? || phase.Refused? || phase.Killed? }

  function Init(): State { State([], map[]) }

  ghost predicate Grantable(s: State, pid: nat)
    requires pid < |s.procs| && s.procs[pid].held < |s.procs[pid].plan|
  {
    Free(s.locks, s.procs[pid].plan[s.procs[pid].held])
  }

  ghost predicate Enabled(s: State, step: Step) {
    && (step.Spawn? ==> StrictlySorted(step.plan))
    && (!step.Spawn? ==> step.pid < |s.procs| && ProcEnabled(s, s.procs[step.pid], step))
  }

  ghost predicate ProcEnabled(s: State, p: Proc, step: Step)
    requires !step.Spawn? && step.pid < |s.procs| && p == s.procs[step.pid]
  {
    match step
    case Lock(pid) => p.phase.Acquiring? && p.held < |p.plan| && Grantable(s, pid)
    case Busy(pid) => p.phase.Acquiring? && p.held < |p.plan| && !p.blocking && !Grantable(s, pid)
    case Break(pid) => p.phase.Acquiring? && p.held < |p.plan| && Grantable(s, pid)
    case Start(_) => p.phase.Acquiring? && p.held == |p.plan|
    case Finish(_) => p.phase.Running?
    case Unlock(_) => (p.phase.RollingBack? || p.phase.Releasing?) && p.held > 0
    case Retire(_) => (p.phase.RollingBack? || p.phase.Releasing?) && p.held == 0
    case Kill(_) => !Terminal(p.phase)
    case Exit(_) => Terminal(p.phase) && p.stray.Some?
  }

  function WithProc(s: State, pid: nat, p: Proc): State
    requires pid < |s.procs|
  {
    s.(procs := s.procs[pid := p])
  }

  /** The locks `s` has apart from those of `pid`. */
  function Others(s: State, pid: nat): map<Fd, Hold> {
    map fd | fd in s.locks && fd.0 != pid :: s.locks[fd]
  }

  ghost function Apply(s: State, step: Step): State
    requires Enabled(s, step)
  {
    match step
    case Spawn(plan, blocking) => s.(procs := s.procs + [Proc(plan, blocking, Acquiring, 0, None)])
    case Lock(pid) =>
      var p := s.procs[pid];
      WithProc(s, pid, p.(held := p.held + 1)).(locks := s.locks[(pid, p.held) := HoldOf(p.plan[p.held])])
    case Busy(pid) => WithProc(s, pid, s.procs[pid].(phase := RollingBack))
    case Break(pid) =>
      var p := s.procs[pid];
      WithProc(s, pid, p.(phase := RollingBack, stray := Some(p.held))).(locks := s.locks[(pid, p.held) := HoldOf(p.plan[p.held])])
    case Start(pid) => WithProc(s, pid, s.procs[pid].(phase := Running))
    case Finish(pid) => WithProc(s, pid, s.procs[pid].(phase := Releasing))
    case Unlock(pid) =>
      var p := s.procs[pid];
      WithProc(s, pid, p.(held := p.held - 1)).(locks := s.locks - {(pid, p.held - 1)})
    case Retire(pid) =>
      var p := s.procs[pid];
      WithProc(s, pid, p.(phase := if p.phase.RollingBack? then Refused else Completed))
    case Kill(pid) =>
      WithProc(s, pid, s.procs[pid].(phase := Killed, held := 0, stray := None)).(locks := Others(s, pid))
    case Exit(pid) => WithProc(s, pid, s.procs[pid].(stray := None)).(locks := Others(s, pid))
  }

  /** `steps`, taken one after another from `s`, are all enabled and lead to `t`. */
  ghost predicate Leads(s: State, steps: seq<Step>, t: State)
    decreases |steps|
  {
    if steps == [] then s == t
    else Enabled(s, steps[0]) && Leads(Apply(s, steps[0]), steps[1..], t)
  }

  // ----- The invariant --------------------------------------------------------------

  ghost predicate ProcOk(p: Proc) {
    && StrictlySorted(p.plan)
    && p.held <= |p.plan|
    && (p.phase.Running? ==> p.held == |p.plan|)
    && (Terminal(p.phase) ==> p.held == 0)
    && (p.stray.Some? ==> (p.phase.RollingBack? || p.phase.Refused?) && p.held <= p.stray.value < |p.plan|)
  }

  ghost predicate TableMatches(s: State) {
    && (forall fd: Fd :: fd in s.locks <==> Held(s, fd))
    && (forall fd: Fd :: fd in s.locks && fd.1 < |s.procs[fd.0].plan| ==>
          s.locks[fd] == HoldOf(s.procs[fd.0].plan[fd.1]))
  }

  ghost predicate Compatible(locks: map<Fd, Hold>) {
    forall a, b :: a in locks && b in locks && a != b ==> !Conflicts(locks[a], locks[b])
  }

  ghost predicate Inv(s: State) {
    && (forall pid :: 0 <= pid < |s.procs| ==> ProcOk(s.procs[pid]))
    && TableMatches(s)
    && Compatible(s.locks)
  }

  ghost predicate Held(s: State, fd: Fd) { fd.0 < |s.procs| && (fd.1 < s.procs[fd.0].held || s.procs[fd.0].stray == Some(fd.1)) }

  lemma LockKeepsTable(s: State, step: Step)
    requires Inv(s) && Enabled(s, step) && (step.Lock? || step.Break?)
    ensures TableMatches(Apply(s, step))
  {
    var t := Apply(s, step);
    var added := (step.pid, s.procs[step.pid].held);
    assert ProcOk(s.procs[step.pid]);
    forall fd: Fd ensures fd in t.locks <==> Held(t, fd) {
      assert fd in s.locks <==> Held(s, fd);
      assert fd in t.locks <==> fd in s.locks || fd == added;
    }
    forall fd: Fd | fd in t.locks && fd.1 < |t.procs[fd.0].plan|
      ensures t.locks[fd] == HoldOf(t.procs[fd.0].plan[fd.1])
    {
      if fd != added {
        assert fd in s.locks && Held(s, fd);
      }
    }
  }

  lemma UnlockKeepsTable(s: State, pid: nat)
    requires Inv(s) && Enabled(s, Unlock(pid))
    ensures TableMatches(Apply(s, Unlock(pid)))
  {
    var t := Apply(s, Unlock(pid));
    var dropped := (pid, s.procs[pid].held - 1);
    assert ProcOk(s.procs[pid]) && s.procs[pid].stray != Some(dropped.1);
    forall fd: Fd ensures Held(t, fd) <==> Held(s, fd) && fd != dropped {
    }
    forall fd: Fd ensures fd in t.locks <==> Held(t, fd) {
      assert fd in s.locks <==> Held(s, fd);
      assert fd in t.locks <==> fd in s.locks && fd != dropped;
    }
  }

  lemma KillKeepsTable(s: State, step: Step)
    requires Inv(s) && Enabled(s, step) && (step.Kill? || step.Exit?)
    ensures TableMatches(Apply(s, step))
  {
    var t := Apply(s, step);
    assert ProcOk(s.procs[step.pid]);
    forall fd: Fd ensures fd in t.locks <==> Held(t, fd) {
      assert fd in s.locks <==> Held(s, fd);
    }
  }

  lemma StepKeepsTable(s: State, step: Step)
    requires Inv(s) && Enabled(s, step)
    ensures TableMatches(Apply(s, step))
  {
    match step
    case Lock(_) => LockKeepsTable(s, step);
    case Break(_) => LockKeepsTable(s, step);
    case Unlock(pid) => UnlockKeepsTable(s, pid);
    case Kill(_) => KillKeepsTable(s, step);
    case Exit(_) => KillKeepsTable(s, step);
    case _ =>
      assert forall fd: Fd :: Held(Apply(s, step), fd) <==> Held(s, fd);
  }

  lemma StepKeepsCompatible(s: State, step: Step)
    requires Inv(s) && Enabled(s, step)
    ensures Compatible(Apply(s, step).locks)
  {
    var t := Apply(s, step);
    if step.Lock? || step.Break? {
      var p := s.procs[step.pid];
      var added := (step.pid, p.held);
      assert added !in s.locks;
      forall a, b | a in t.locks && b in t.locks && a != b ensures !Conflicts(t.locks[a], t.locks[b]) {
        if a == added {
          assert b in s.locks && !Conflicts(s.locks[b], HoldOf(p.plan[p.held]));
        } else if b == added {
          assert a in s.locks && !Conflicts(s.locks[a], HoldOf(p.plan[p.held]));
        }
      }
    } else {
      assert forall fd :: fd in t.locks ==> fd in s.locks && t.locks[fd] == s.locks[fd];
    }
  }

  lemma StepKeepsInv(s: State, step: Step)
    requires Inv(s) && Enabled(s, step)
    ensures Inv(Apply(s, step))
  {
    StepKeepsTable(s, step);
    StepKeepsCompatible(s, step);
    var t := Apply(s, step);
    forall pid | 0 <= pid < |t.procs| ensures ProcOk(t.procs[pid]) {
      if pid < |s.procs| {
        assert ProcOk(s.procs[pid]);
      }
    }
  }

  /** What a step does to the processes: plans never change, and only the stepping process moves. */
  lemma StepOnProcs(s: State, step: Step)
    requires Enabled(s, step)
    ensures var t := Apply(s, step);
      && (step.Spawn? ==> t.procs == s.procs + [Proc(step.plan, step.blocking, Acquiring, 0, None)])
      && (!step.Spawn? ==>
            && |t.procs| == |s.procs|
            && t.procs == s.procs[step.pid := t.procs[step.pid]]
            && t.procs[step.pid].plan == s.procs[step.pid].plan
            && (t.procs[step.pid].phase.Running? <==>
                  step.Start? || (s.procs[step.pid].phase.Running? && !step.Finish? && !step.Kill?)))
  {
  }

  lemma {:induction false} RunsKeepInv(s: State, steps: seq<Step>, t: State)
    requires Inv(s) && Leads(s, steps, t)
    ensures Inv(t)
    decreases |steps|
  {
    if steps != [] {
      StepKeepsInv(s, steps[0]);
      RunsKeepInv(Apply(s, steps[0]), steps[1..], t);
    }
  }

  lemma {:induction false} LeadsThen(s: State, first: seq<Step>, t: State, second: seq<Step>, u: State)
    requires Leads(s, first, t) && Leads(t, second, u)
    ensures Leads(s, first + second, u)
    decreases |first|
  {
    if first == [] {
      assert first + second == second;
    } else {
      LeadsThen(Apply(s, first[0]), first[1..], t, second, u);
      assert (first + second)[0] == first[0] && (first + second)[1..] == first[1..] + second;
    }
  }

  // ----- Mutual exclusion -------------------------------------------------------------

  ghost predicate Holds(s: State, pid: nat, r: Request) {
    pid < |s.procs| && exists i :: 0 <= i < |s.procs[pid].plan| && s.procs[pid].plan[i] == r && Held(s, (pid, i))
  }

  lemma HoldsLock(s: State, pid: nat, r: Request) returns (i: nat)
    requires Inv(s) && Holds(s, pid, r)
    ensures (pid, i) in s.locks && s.locks[(pid, i)] == HoldOf(r)
  {
    i :| 0 <= i < |s.procs[pid].plan| && s.procs[pid].plan[i] == r && Held(s, (pid, i));
  }

  /** Whatever the interleaving, two processes hold one lock file only if both share it. */
  lemma MutualExclusion(steps: seq<Step>, s: State, p: nat, q: nat, a: Request, b: Request)
    requires Leads(Init(), steps, s)
    requires p != q && Holds(s, p, a) && Holds(s, q, b) && SafeName(a.name) == SafeName(b.name)
    ensures a.shared && b.shared
  {
    RunsKeepInv(Init(), steps, s);
    var i := HoldsLock(s, p, a);
    var j := HoldsLock(s, q, b);
    assert !Conflicts(s.locks[(p, i)], s.locks[(q, j)]);
  }

  /**
   A process that is not in the middle of its protocol holds everything, or nothing but the lock whose
   owner record failed: nothing at all exactly if none did, or the process has ended since.
   */
  lemma AllOrNothing(steps: seq<Step>, s: State, pid: nat)
    requires Leads(Init(), steps, s) && pid < |s.procs|
    ensures Terminal(s.procs[pid].phase) ==> ((forall fd :: fd in s.locks ==> fd.0 != pid) <==> s.procs[pid].stray.None?)
    ensures Terminal(s.procs[pid].phase) ==> forall fd :: fd in s.locks && fd.0 == pid ==> s.procs[pid].stray == Some(fd.1)
    ensures s.procs[pid].stray.Some? <==> BrokenBy(steps, pid)
    ensures s.procs[pid].phase.Running? ==> forall r :: r in s.procs[pid].plan ==> Holds(s, pid, r)
  {
    RunsKeepInv(Init(), steps, s);
    StrayExactly(Init(), steps, s, pid);
    var p := s.procs[pid];
    assert ProcOk(p);
    if p.stray.Some? {
      assert (pid, p.stray.value) in s.locks;
    }
    if p.phase.Running? {
      forall r | r in p.plan ensures Holds(s, pid, r) {
        var i :| 0 <= i < |p.plan| && p.plan[i] == r;
        assert Held(s, (pid, i));
      }
    }
  }

  lemma {:induction false} TerminalBreaksNoMore(s: State, steps: seq<Step>, t: State, pid: nat)
    requires Leads(s, steps, t) && pid < |s.procs| && Terminal(s.procs[pid].phase)
    ensures Break(pid) !in steps
    decreases |steps|
  {
    if steps != [] {
      TerminalBreaksNoMore(Apply(s, steps[0]), steps[1..], t, pid);
    }
  }

  /** The owner record of a lease failed, and the process has not ended since. */
  predicate BrokenBy(steps: seq<Step>, pid: nat) { Break(pid) in steps && Exit(pid) !in steps && Kill(pid) !in steps }

  predicate Strays(s: State, pid: nat) { pid < |s.procs| && s.procs[pid].stray.Some? }

  lemma {:induction false} StrayExactly(s: State, steps: seq<Step>, t: State, pid: nat)
    requires Leads(s, steps, t)
    ensures Strays(t, pid) <==> (Strays(s, pid) || Break(pid) in steps) && Exit(pid) !in steps && Kill(pid) !in steps
    decreases |steps|
  {
    if steps != [] {
      var u := Apply(s, steps[0]);
      StrayExactly(u, steps[1..], t, pid);
      if steps[0] == Exit(pid) || steps[0] == Kill(pid) {
        TerminalBreaksNoMore(u, steps[1..], t, pid);
      }
      assert steps == [steps[0]] + steps[1..];
    }
  }

  /** It happens: a process is refused and still holds a lock. */
  lemma RefusedWithLock(r: Request) returns (steps: seq<Step>, s: State)
    ensures Leads(Init(), steps, s) && |s.procs| == 1 && s.procs[0].phase.Refused? && s.locks == map[(0, 0) := HoldOf(r)]
  {
    var s1 := Apply(Init(), Spawn([r], false));
    var s2 := Apply(s1, Break(0));
    s := Apply(s2, Retire(0));
    steps := [Spawn([r], false), Break(0), Retire(0)];
    assert steps[1..] == [Break(0), Retire(0)] && steps[1..][1..] == [Retire(0)] && steps[1..][1..][1..] == [];
    assert Leads(s2, [Retire(0)], s) && Leads(s1, [Break(0), Retire(0)], s);
  }

  // ----- Progress: no deadlock, no endless run ------------------------------------------

  /** Lock files identify names among everything the processes ask for. */
  ghost predicate Disciplined(procs: seq<Proc>) {
    forall p, q, i, j :: 0 <= p < |procs| && 0 <= q < |procs| &&
      0 <= i < |procs[p].plan| && 0 <= j < |procs[q].plan| &&
      SafeName(procs[p].plan[i].name) == SafeName(procs[q].plan[j].name)
      ==> procs[p].plan[i].name == procs[q].plan[j].name
  }

  predicate Internal(step: Step) { !step.Spawn? && !step.Kill? }

  ghost predicate CanMove(s: State, pid: nat) {
    exists step :: Internal(step) && step.pid == pid && Enabled(s, step)
  }

  ghost predicate Waiting(s: State, pid: nat) {
    && pid < |s.procs|
    && s.procs[pid].phase.Acquiring? && s.procs[pid].blocking
    && s.procs[pid].held < |s.procs[pid].plan|
    && !Grantable(s, pid)
  }

  lemma MoveOrWait(s: State, pid: nat)
    requires Inv(s) && pid < |s.procs| && (!Terminal(s.procs[pid].phase) || s.procs[pid].stray.Some?)
    ensures CanMove(s, pid) || Waiting(s, pid)
  {
    var p := s.procs[pid];
    if Terminal(p.phase) {
      assert Enabled(s, Exit(pid));
    } else if p.phase.Acquiring? {
      if p.held == |p.plan| {
        assert Enabled(s, Start(pid));
      } else if Grantable(s, pid) {
        assert Enabled(s, Lock(pid));
      } else if !p.blocking {
        assert Enabled(s, Busy(pid));
      }
    } else if p.phase.Running? {
      assert Enabled(s, Finish(pid));
    } else if p.held > 0 {
      assert Enabled(s, Unlock(pid));
    } else {
      assert Enabled(s, Retire(pid));
    }
  }

  function WaitName(p: Proc): string
    requires p.held < |p.plan|
  {
    p.plan[p.held].name
  }

  /** Among the waiting processes below `n`, one waits for the greatest name. */
  lemma {:induction false} GreatestWaiter(s: State, n: nat, some: nat) returns (top: nat)
    requires n <= |s.procs| && some < n && Waiting(s, some)
    ensures top < n && Waiting(s, top)
    ensures forall q :: 0 <= q < n && Waiting(s, q) ==> StringLeq(WaitName(s.procs[q]), WaitName(s.procs[top]))
  {
    StringOrderIsTotal();
    var last := n - 1;
    if exists q :: 0 <= q < last && Waiting(s, q) {
      var q :| 0 <= q < last && Waiting(s, q);
      top := GreatestWaiter(s, last, q);
      if Waiting(s, last) && !StringLeq(WaitName(s.procs[last]), WaitName(s.procs[top])) {
        top := last;
      }
    } else {
      top := last;
    }
  }

  /**
   Blocking in name order never deadlocks: while some process is unfinished, some
   process can take a step of its own.
   */
  lemma NoDeadlock(steps: seq<Step>, s: State)
    requires Leads(Init(), steps, s) && Disciplined(s.procs)
    requires exists pid :: 0 <= pid < |s.procs| && !Terminal(s.procs[pid].phase)
    ensures exists pid :: 0 <= pid < |s.procs| && CanMove(s, pid)
  {
    RunsKeepInv(Init(), steps, s);
    var pid :| 0 <= pid < |s.procs| && !Terminal(s.procs[pid].phase);
    MoveOrWait(s, pid);
    if !CanMove(s, pid) {
      var top := GreatestWaiter(s, |s.procs|, pid);
      var holder := BlockedBy(s, top);
      MoveOrWait(s, holder);
      if !CanMove(s, holder) {
        StringLeqAntisymmetric(WaitName(s.procs[holder]), WaitName(s.procs[top]));
      }
    }
  }

  /** The process a waiter waits for is unfinished, or has yet to exit, and if it waits too, waits further on. */
  lemma BlockedBy(s: State, pid: nat) returns (holder: nat)
    requires Inv(s) && Disciplined(s.procs) && Waiting(s, pid)
    ensures holder < |s.procs| && (!Terminal(s.procs[holder].phase) || s.procs[holder].stray.Some?)
    ensures Waiting(s, holder) ==> StringLess(WaitName(s.procs[pid]), WaitName(s.procs[holder]))
  {
    var p := s.procs[pid];
    var r := p.plan[p.held];
    var fd :| fd in s.locks && Conflicts(s.locks[fd], HoldOf(r));
    holder := fd.0;
    var q := s.procs[holder];
    assert SafeName(q.plan[fd.1].name) == SafeName(r.name);
    assert q.plan[fd.1].name == r.name;
  }

  function Work(p: Proc): nat {
    match p.phase
    case Acquiring => if p.held <= |p.plan| then 2 * |p.plan| - p.held + 4 else 0
    case Running => |p.plan| + 3
    case RollingBack => p.held + 2
    case Releasing => p.held + 2
    case _ => if p.stray.Some? then 1 else 0
  }

  function TotalWork(procs: seq<Proc>): nat {
    if procs == [] then 0 else Work(procs[0]) + TotalWork(procs[1..])
  }

  lemma {:induction false} TotalWorkUpdate(procs: seq<Proc>, pid: nat, p: Proc)
    requires pid < |procs|
    ensures TotalWork(procs[pid := p]) == TotalWork(procs) - Work(procs[pid]) + Work(p)
  {
    var updated := procs[pid := p];
    if pid == 0 {
      assert updated[1..] == procs[1..];
    } else {
      TotalWorkUpdate(procs[1..], pid - 1, p);
      assert updated[1..] == procs[1..][pid - 1 := p];
    }
  }

  lemma StepDoesWork(s: State, step: Step)
    requires Inv(s) && Enabled(s, step) && !step.Spawn?
    ensures TotalWork(Apply(s, step).procs) < TotalWork(s.procs)
  {
    var t := Apply(s, step);
    assert ProcOk(s.procs[step.pid]);
    assert t.procs == s.procs[step.pid := t.procs[step.pid]];
    TotalWorkUpdate(s.procs, step.pid, t.procs[step.pid]);
  }

  lemma {:induction false} RunsAreBounded(s: State, steps: seq<Step>, t: State)
    requires Inv(s) && Leads(s, steps, t)
    requires forall k :: 0 <= k < |steps| ==> !steps[k].Spawn?
    ensures |steps| + TotalWork(t.procs) <= TotalWork(s.procs)
    ensures |t.procs| == |s.procs|
    ensures forall pid :: 0 <= pid < |s.procs| ==> t.procs[pid].plan == s.procs[pid].plan
    decreases |steps|
  {
    if steps != [] {
      StepDoesWork(s, steps[0]);
      StepKeepsInv(s, steps[0]);
      RunsAreBounded(Apply(s, steps[0]), steps[1..], t);
    }
  }

  lemma StuckMeansDone(steps: seq<Step>, t: State)
    requires Leads(Init(), steps, t) && Disciplined(t.procs)
    requires forall pid :: 0 <= pid < |t.procs| ==> !CanMove(t, pid)
    ensures forall pid :: 0 <= pid < |t.procs| ==> Terminal(t.procs[pid].phase)
    ensures t.locks == map[]
  {
    RunsKeepInv(Init(), steps, t);
    if exists pid :: 0 <= pid < |t.procs| && !Terminal(t.procs[pid].phase) {
      NoDeadlock(steps, t);
    }
    forall pid | 0 <= pid < |t.procs| ensures t.procs[pid].held == 0 && t.procs[pid].stray.None? {
      assert ProcOk(t.procs[pid]);
      if t.procs[pid].stray.Some? {
        MoveOrWait(t, pid);
      }
    }
    assert forall fd: Fd :: fd !in t.locks;
  }

  lemma SamePlansSameDiscipline(a: seq<Proc>, b: seq<Proc>)
    requires |a| == |b| && forall pid :: 0 <= pid < |a| ==> a[pid].plan == b[pid].plan
    requires Disciplined(a)
    ensures Disciplined(b)
  {
  }

  /**
   Once no new process arrives, every run is bounded by the work left, and a run
   that cannot be extended has finished every process and freed every lock.
   */
  lemma EveryRunFinishes(before: seq<Step>, s: State, steps: seq<Step>, t: State)
    requires Leads(Init(), before, s) && Disciplined(s.procs)
    requires Leads(s, steps, t) && forall k :: 0 <= k < |steps| ==> !steps[k].Spawn?
    ensures |steps| <= TotalWork(s.procs)
    ensures (forall pid :: 0 <= pid < |t.procs| ==> !CanMove(t, pid)) ==>
              t.locks == map[] && forall pid :: 0 <= pid < |t.procs| ==> Terminal(t.procs[pid].phase)
  {
    RunsKeepInv(Init(), before, s);
    RunsAreBounded(s, steps, t);
    LeadsThen(Init(), before, s, steps, t);
    SamePlansSameDiscipline(s.procs, t.procs);
    if forall pid :: 0 <= pid < |t.procs| ==> !CanMove(t, pid) {
      StuckMeansDone(before + steps, t);
    }
  }

  // ----- One process alone ----------------------------------------------------------------

  lemma OwnLocksDoNotBlock(s: State, pid: nat)
    requires Inv(s) && pid < |s.procs| && s.procs[pid].held < |s.procs[pid].plan| && s.procs[pid].stray.None?
    requires DistinctFiles(s.procs[pid].plan)
    ensures Grantable(s, pid) <==> Free(Others(s, pid), s.procs[pid].plan[s.procs[pid].held])
  {
    var p := s.procs[pid];
    var r := p.plan[p.held];
    assert ProcOk(p);
    forall fd | fd in s.locks && fd.0 == pid ensures !Conflicts(s.locks[fd], HoldOf(r)) {
      assert fd.1 < p.held;
      assert s.locks[fd] == HoldOf(p.plan[fd.1]);
    }
    if Free(Others(s, pid), r) {
      forall fd | fd in s.locks ensures !Conflicts(s.locks[fd], HoldOf(r)) {
        if fd.0 != pid {
          assert fd in Others(s, pid);
        }
      }
    }
  }

  lemma LeadsStep(s: State, step: Step, rest: seq<Step>, t: State)
    requires Enabled(s, step) && Leads(Apply(s, step), rest, t)
    ensures Leads(s, [step] + rest, t)
  {
    assert ([step] + rest)[1..] == rest;
  }

  lemma OwnStepSparesLocks(s: State, step: Step)
    requires Enabled(s, step) && Internal(step)
    ensures Others(Apply(s, step), step.pid) == Others(s, step.pid)
  {
    var t := Apply(s, step);
    forall fd: Fd | fd.0 != step.pid ensures (fd in t.locks <==> fd in s.locks) && (fd in s.locks ==> t.locks[fd] == s.locks[fd]) {
    }
  }

  lemma OwnStepSparesOthers(s: State, step: Step)
    requires Enabled(s, step) && Internal(step)
    ensures Others(Apply(s, step), step.pid) == Others(s, step.pid)
    ensures |Apply(s, step).procs| == |s.procs|
    ensures Apply(s, step).procs[step.pid].plan == s.procs[step.pid].plan
    ensures Apply(s, step).procs[step.pid].blocking == s.procs[step.pid].blocking
    ensures forall q :: 0 <= q < |s.procs| && q != step.pid ==> Apply(s, step).procs[q] == s.procs[q]
  {
    OwnStepSparesLocks(s, step);
  }

  ghost predicate OwnSteps(steps: seq<Step>, pid: nat) {
    forall k :: 0 <= k < |steps| ==> Internal(steps[k]) && steps[k].pid == pid
  }

  ghost predicate OnlyMoved(s: State, t: State, pid: nat)
    requires pid < |s.procs|
  {
    && |t.procs| == |s.procs| && t.procs[pid].plan == s.procs[pid].plan
    && (forall q :: 0 <= q < |s.procs| && q != pid ==> t.procs[q] == s.procs[q])
    && Others(t, pid) == Others(s, pid)
  }

  /** Everybody else's locks, and the stray lock if there is one. */
  function WithStray(s: State, pid: nat): map<Fd, Hold>
    requires pid < |s.procs|
  {
    map fd | fd in s.locks && (fd.0 != pid || s.procs[pid].stray == Some(fd.1)) :: s.locks[fd]
  }

  lemma NothingHeld(s: State, pid: nat)
    requires Inv(s) && pid < |s.procs| && s.procs[pid].held == 0
    ensures s.locks == WithStray(s, pid)
  {
  }

  lemma StrayKept(s: State, pid: nat)
    requires Inv(s) && Enabled(s, Unlock(pid))
    ensures WithStray(Apply(s, Unlock(pid)), pid) == WithStray(s, pid)
  {
    assert ProcOk(s.procs[pid]);
  }

  /** A rollback ends with the process refused and holding nothing but a stray lock, everybody else undisturbed. */
  lemma {:induction false} SoloRollback(s: State, pid: nat) returns (steps: seq<Step>, t: State)
    requires Inv(s) && pid < |s.procs| && s.procs[pid].phase.RollingBack?
    ensures Leads(s, steps, t) && OwnSteps(steps, pid) && OnlyMoved(s, t, pid)
    ensures t.procs[pid].phase.Refused? && t.locks == WithStray(s, pid)
    decreases s.procs[pid].held
  {
    var step := if s.procs[pid].held == 0 then Retire(pid) else Unlock(pid);
    var u := Apply(s, step);
    StepKeepsInv(s, step);
    OwnStepSparesOthers(s, step);
    if s.procs[pid].held == 0 {
      steps, t := [], u;
      NothingHeld(s, pid);
    } else {
      StrayKept(s, pid);
      steps, t := SoloRollback(u, pid);
    }
    LeadsStep(s, step, steps, t);
    steps := [step] + steps;
  }

  lemma NoStray(s: State, pid: nat)
    requires pid < |s.procs| && s.procs[pid].stray.None?
    ensures WithStray(s, pid) == Others(s, pid)
  {
  }

  /** One own step, followed by own steps, is own steps. */
  lemma OwnStepThen(s: State, step: Step, steps: seq<Step>, t: State)
    requires Inv(s) && Internal(step) && Enabled(s, step)
    requires Leads(Apply(s, step), steps, t) && OwnSteps(steps, step.pid) && OnlyMoved(Apply(s, step), t, step.pid)
    ensures Leads(s, [step] + steps, t) && OwnSteps([step] + steps, step.pid) && OnlyMoved(s, t, step.pid)
  {
    OwnStepSparesOthers(s, step);
    LeadsStep(s, step, steps, t);
  }

  /** The end of an acquisition without interference: started, or refused and holding nothing. */
  ghost predicate Settled(t: State, pid: nat, others: map<Fd, Hold>, plan: seq<Request>)
    requires pid < |t.procs|
  {
    if AllFree(others, plan) then t.procs[pid].phase.Running? else t.procs[pid].phase.Refused? && t.locks == others
  }

  lemma SoloStart(s: State, pid: nat) returns (steps: seq<Step>, t: State)
    requires Inv(s) && pid < |s.procs| && s.procs[pid].phase.Acquiring? && s.procs[pid].held == |s.procs[pid].plan|
    requires AllFree(Others(s, pid), s.procs[pid].plan)
    ensures Leads(s, steps, t) && OwnSteps(steps, pid) && OnlyMoved(s, t, pid)
    ensures Settled(t, pid, Others(s, pid), s.procs[pid].plan)
  {
    t := Apply(s, Start(pid));
    OwnStepThen(s, Start(pid), [], t);
    steps := [Start(pid)];
    assert steps == [Start(pid)] + [];
  }

  lemma SoloRefusal(s: State, pid: nat) returns (steps: seq<Step>, t: State)
    requires Inv(s) && pid < |s.procs| && s.procs[pid].phase.Acquiring? && !s.procs[pid].blocking
    requires s.procs[pid].held < |s.procs[pid].plan| && !Grantable(s, pid) && !AllFree(Others(s, pid), s.procs[pid].plan)
    ensures Leads(s, steps, t) && OwnSteps(steps, pid) && OnlyMoved(s, t, pid)
    ensures Settled(t, pid, Others(s, pid), s.procs[pid].plan)
  {
    StepKeepsInv(s, Busy(pid));
    OwnStepSparesOthers(s, Busy(pid));
    steps, t := SoloRollback(Apply(s, Busy(pid)), pid);
    assert ProcOk(s.procs[pid]);
    NoStray(Apply(s, Busy(pid)), pid);
    OwnStepThen(s, Busy(pid), steps, t);
    steps := [Busy(pid)] + steps;
  }

  /**
   Run without interference, a non-blocking acquisition starts the process exactly
   when nobody else's lock conflicts with its plan; otherwise it ends refused,
   holding nothing, with everybody else's locks as they were.
   */
  lemma {:induction false} SoloAcquisition(s: State, pid: nat) returns (steps: seq<Step>, t: State)
    requires Inv(s) && pid < |s.procs|
    requires s.procs[pid].phase.Acquiring? && !s.procs[pid].blocking && DistinctFiles(s.procs[pid].plan)
    requires forall i :: 0 <= i < s.procs[pid].held && i < |s.procs[pid].plan| ==> Free(Others(s, pid), s.procs[pid].plan[i])
    ensures Leads(s, steps, t) && OwnSteps(steps, pid) && OnlyMoved(s, t, pid)
    ensures Settled(t, pid, Others(s, pid), s.procs[pid].plan)
    decreases |s.procs[pid].plan| - s.procs[pid].held
  {
    var p := s.procs[pid];
    assert ProcOk(p);
    if p.held == |p.plan| {
      steps, t := SoloStart(s, pid);
    } else {
      OwnLocksDoNotBlock(s, pid);
      if Grantable(s, pid) {
        StepKeepsInv(s, Lock(pid));
        OwnStepSparesOthers(s, Lock(pid));
        steps, t := SoloAcquisition(Apply(s, Lock(pid)), pid);
        OwnStepThen(s, Lock(pid), steps, t);
        steps := [Lock(pid)] + steps;
      } else {
        steps, t := SoloRefusal(s, pid);
      }
    }
  }
}
