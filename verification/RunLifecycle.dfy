/**
 The registry as runs use it: each run registers once and then records one verdict,
 any of these sessions may be refused or die, and runs interleave freely. One step
 here is one session of the registry protocol, which applies its operation at its
 save; a session that did not save is a `Missed` step.
 */
module RunLifecycle {
  import opened Wrappers
  import opened Registry
  import opened RegistryProtocol

  /** Where a run's program stands between its registry sessions. */
  datatype Pc =
    | Registering(entry: Entry, rule: ParentRule)
    | Rehearsing            // a dry run, about to confirm its status
    | Staging               // leases, stages and gates
    | Decided               // the verdict is saved; its session has yet to return
    | Recovering            // an exception was raised: about to record the failure
    | Ended

  datatype State = State(
    file: Entries,
    runs: map<string, Pc>,
    rules: map<string, ParentRule>,   // the parent each run's spec asks for
    order: seq<string>,               // run ids in the order their registration was saved
    history: seq<Operation>
  )

  datatype Step =
    | Launch(entry: Entry, rule: ParentRule)
    | Register(id: string, parent: Option<string>)
    | Confirm(id: string, now: int)                              // dry run: status written again
    | Decide(id: string, passed: bool, paths: seq<Change>, now: int)
    | Settle(id: string)                                         // the verdict's session returns
    | RaiseLate(id: string)                                      // it raises, although it has saved
    | Raise(id: string)                                          // stages, gates or the verdict's session failed
    | RecordFailure(id: string, notes: seq<Change>, now: int)
    | Missed(id: string)                                         // a session outside the `try` did not save

  predicate FieldsOnly(changes: seq<Change>) {
    forall k :: 0 <= k < |changes| ==> changes[k].SetField?
  }

  function StepOperation(s: State, step: Step): Option<Operation> {
    match step
    case Register(id, parent) =>
      if id in s.runs && s.runs[id].Registering? then Some(Add(s.runs[id].entry.(parent := parent))) else None
    case Confirm(id, now) => Some(Modify(id, [SetStatus(DryRun)], now))
    case Decide(id, passed, paths, now) =>
      Some(Modify(id, [SetStatus(if passed then Candidate else Rejected)] + paths + [SetPromoted(passed)], now))
    case RecordFailure(id, notes, now) => Some(Modify(id, [SetStatus(Failed)] + notes, now))
    case _ => None
  }

  ghost predicate PcAllows(s: State, step: Step) {
    match step
    case Launch(e, rule) =>
      e.runId != "" && e.runId !in s.runs && (e.status == Running || e.status == DryRun) && !e.promoted && e.parent.None?
    case Register(id, parent) =>
      id in s.runs && s.runs[id].Registering? &&
      ResolvesParent(s.file, s.runs[id].entry.experiment, s.runs[id].rule, parent)
    case Confirm(id, _) => id in s.runs && s.runs[id].Rehearsing?
    case Decide(id, _, paths, _) => id in s.runs && s.runs[id].Staging? && FieldsOnly(paths)
    case Settle(id) => id in s.runs && s.runs[id].Decided?
    case RaiseLate(id) => id in s.runs && s.runs[id].Decided?
    case Raise(id) => id in s.runs && s.runs[id].Staging?
    case RecordFailure(id, notes, _) => id in s.runs && s.runs[id].Recovering? && FieldsOnly(notes)
    case Missed(id) => id in s.runs && !s.runs[id].Ended?
  }

  ghost predicate Enabled(s: State, step: Step) {
    && PcAllows(s, step)
    && (StepOperation(s, step).Some? ==> Effect(s.file, StepOperation(s, step).value).Ok?)
  }

  function NextPc(s: State, step: Step): Pc {
    match step
    case Launch(e, rule) => Registering(e, rule)
    case Register(id, _) => if id in s.runs && s.runs[id].Registering? && s.runs[id].entry.status == DryRun then Rehearsing else Staging
    case Decide(_, _, _, _) => Decided
    case RaiseLate(_) => Recovering
    case Raise(_) => Recovering
    case _ => Ended
  }

  function RunOf(step: Step): string { if step.Launch? then step.entry.runId else step.id }

  ghost function Apply(s: State, step: Step): State
    requires Enabled(s, step)
  {
    var op := StepOperation(s, step);
    s.(file := if op.Some? then Effect(s.file, op.value).value else s.file,
       history := if op.Some? then s.history + [op.value] else s.history,
       order := if step.Register? then s.order + [step.id] else s.order,
       rules := if step.Launch? then s.rules[step.entry.runId := step.rule] else s.rules,
       runs := s.runs[RunOf(step) := NextPc(s, step)])
  }

  ghost predicate Leads(s: State, steps: seq<Step>, t: State)
    decreases |steps|
  {
    if steps == [] then s == t
    else Enabled(s, steps[0]) && Leads(Apply(s, steps[0]), steps[1..], t)
  }

  function Initial(): State { State.State(map[], map[], map[], [], []) }

  /** The runs registered by these operations, in order. */
  function Registrations(history: seq<Operation>): seq<string> {
    if history == [] then []
    else
      var last := history[|history| - 1];
      Registrations(history[..|history| - 1]) + if last.Add? then [last.entry.runId] else []
  }

  // ----- The invariant --------------------------------------------------------------------

  ghost predicate EntryOk(s: State, id: string)
    requires id in s.file
  {
    s.file[id].runId == id != "" && id in s.runs && !s.runs[id].Registering?
  }

  predicate Newcomer(id: string, pc: Pc)
    requires pc.Registering?
  {
    && pc.entry.runId == id != "" && !pc.entry.promoted
    && (pc.entry.status == Running || pc.entry.status == DryRun)
  }

  /** `id` was registered before the run registered `i`-th. */
  ghost predicate Before(order: seq<string>, id: string, i: nat)
    requires i <= |order|
  {
    exists j :: 0 <= j < i && order[j] == id
  }

  /** Run `id` was launched with `parent` named in its spec. */
  predicate NamedBy(rules: map<string, ParentRule>, id: string, parent: string) { id in rules && rules[id] == Named(parent) }

  /** Parents were registered before their children, unless named. */
  ghost predicate ParentsEarlier(s: State) {
    && (forall id :: id in s.runs && s.runs[id].Registering? ==> id in s.rules && s.rules[id] == s.runs[id].rule)
    && s.rules.Keys == s.runs.Keys
    && forall i :: 0 <= i < |s.order| && s.order[i] in s.file && s.file[s.order[i]].parent.Some? ==>
         Before(s.order, s.file[s.order[i]].parent.value, i) || NamedBy(s.rules, s.order[i], s.file[s.order[i]].parent.value)
  }

  /** A passed verdict on run `id` was saved. */
  ghost predicate SavedPass(history: seq<Operation>, id: string) { exists k :: 0 <= k < |history| && IsPass(history[k], id) }

  /** The failure of run `id` was saved. */
  ghost predicate SavedFailure(history: seq<Operation>, id: string) { exists k :: 0 <= k < |history| && IsFailure(history[k], id) }

  predicate IsPass(op: Operation, id: string) { op.Modify? && op.runId == id && SetPromoted(true) in op.changes }

  predicate IsFailure(op: Operation, id: string) { op.Modify? && op.runId == id && SetStatus(Failed) in op.changes }

  predicate RaisedLate(done: seq<Step>, id: string) { RaiseLate(id) in done }

  /** What an entry says, in terms of what was saved about its run; and what may still be saved. */
  ghost predicate StoryOk(done: seq<Step>, s: State, id: string)
    requires id in s.file && id in s.runs
  {
    var e, pc := s.file[id], s.runs[id];
    && (e.promoted <==> SavedPass(s.history, id))
    && (e.status == Failed <==> SavedFailure(s.history, id))
    && (e.status == Candidate <==> SavedPass(s.history, id) && !SavedFailure(s.history, id))
    && (SavedFailure(s.history, id) ==> pc.Ended?)
    && (SavedPass(s.history, id) ==> pc.Decided? || pc.Recovering? || pc.Ended?)
    && (SavedPass(s.history, id) && (pc.Recovering? || SavedFailure(s.history, id)) ==> RaisedLate(done, id))
  }

  ghost predicate Story(done: seq<Step>, s: State) {
    && (forall id :: id !in s.file ==> !SavedPass(s.history, id) && !SavedFailure(s.history, id))
    && (forall id :: id in s.file && id in s.runs ==> StoryOk(done, s, id))
  }

  ghost predicate Sound(s: State) {
    && DictOrder(s.order, s.file)
    && (forall id :: id in s.file ==> EntryOk(s, id))
    && (forall id :: id in s.runs && s.runs[id].Registering? ==> id !in s.file && Newcomer(id, s.runs[id]))
    && Replay(map[], s.history) == Some(s.file)
    && s.order == Registrations(s.history)
  }

  /** What holds of a state reached by the steps `done`. */
  ghost predicate Inv(done: seq<Step>, s: State) { Sound(s) && ParentsEarlier(s) && Story(done, s) }

  lemma {:induction false} FieldsKeepVerdict(e: Entry, changes: seq<Change>)
    requires FieldsOnly(changes)
    ensures ChangedAll(e, changes).Some? ==>
              ChangedAll(e, changes).value == e.(fields := ChangedAll(e, changes).value.fields)
  {
    if changes != [] {
      FieldsKeepVerdict(e, changes[..|changes| - 1]);
    }
  }

  lemma {:induction false} ChangedAllSplit(e: Entry, first: seq<Change>, second: seq<Change>)
    ensures ChangedAll(e, first + second) ==
            if ChangedAll(e, first).None? then None else ChangedAll(ChangedAll(e, first).value, second)
  {
    if second == [] {
      assert first + second == first;
    } else {
      var n := |second| - 1;
      assert (first + second)[..|first + second| - 1] == first + second[..n];
      ChangedAllSplit(e, first, second[..n]);
    }
  }

  lemma One(e: Entry, c: Change)
    ensures ChangedAll(e, [c]) == if HasAttribute(e, c) then Some(Changed(e, c)) else None
  {
    assert [c][..0] == [];
    assert ChangedAll(e, [c][..0]) == Some(e);
  }

  /** What each verdict does to an entry: its status, and promotion exactly when the gates passed. */
  lemma VerdictOnEntry(s: State, step: Step, e: Entry)
    requires PcAllows(s, step) && IsUpdate(step)
    requires ChangedAll(e, StepOperation(s, step).value.changes).Some?
    ensures var r := ChangedAll(e, StepOperation(s, step).value.changes).value;
      && r.runId == e.runId && r.parent == e.parent && r.experiment == e.experiment && r.createdAt == e.createdAt
      && r.promoted == (if step.Decide? then step.passed else e.promoted)
      && r.status == (if step.Confirm? then DryRun else if step.RecordFailure? then Failed
                      else if step.passed then Candidate else Rejected)
  {
    match step
    case Confirm(_, _) => One(e, SetStatus(DryRun));
    case RecordFailure(_, notes, _) =>
      One(e, SetStatus(Failed));
      ChangedAllSplit(e, [SetStatus(Failed)], notes);
      FieldsKeepVerdict(Changed(e, SetStatus(Failed)), notes);
    case Decide(_, passed, paths, _) =>
      var status := SetStatus(if passed then Candidate else Rejected);
      One(e, status);
      ChangedAllSplit(e, [status], paths);
      FieldsKeepVerdict(Changed(e, status), paths);
      ChangedAllSplit(e, [status] + paths, [SetPromoted(passed)]);
      One(ChangedAll(e, [status] + paths).value, SetPromoted(passed));
    case _ =>
  }

  lemma SavedSnoc(history: seq<Operation>, op: Operation, id: string)
    ensures SavedPass(history + [op], id) <==> SavedPass(history, id) || IsPass(op, id)
    ensures SavedFailure(history + [op], id) <==> SavedFailure(history, id) || IsFailure(op, id)
  {
    var n, longer := |history|, history + [op];
    assert longer[n] == op;
    if SavedPass(history, id) {
      var k :| 0 <= k < n && IsPass(history[k], id);
      assert IsPass(longer[k], id);
    }
    if SavedFailure(history, id) {
      var k :| 0 <= k < n && IsFailure(history[k], id);
      assert IsFailure(longer[k], id);
    }
  }

  /** What the operations of a run are, among those of the entry's story. */
  lemma OperationKinds(s: State, step: Step)
    requires PcAllows(s, step) && StepOperation(s, step).Some?
    ensures var op := StepOperation(s, step).value;
            forall id :: (IsPass(op, id) <==> step.Decide? && step.passed && id == step.id) &&
                         (IsFailure(op, id) <==> step.RecordFailure? && id == step.id)
  {
    match step
    case Decide(_, passed, paths, _) =>
      var status, promoted := SetStatus(if passed then Candidate else Rejected), SetPromoted(passed);
      var changes := [status] + paths + [promoted];
      assert changes[|changes| - 1] == promoted;
    case RecordFailure(_, notes, _) =>
      assert ([SetStatus(Failed)] + notes)[0] == SetStatus(Failed);
    case _ =>
  }

  lemma RegistrationsSnoc(history: seq<Operation>, op: Operation)
    ensures Registrations(history + [op]) == Registrations(history) + if op.Add? then [op.entry.runId] else []
  {
    assert (history + [op])[..|history|] == history;
  }

  lemma RegisterKeepsSound(s: State, step: Step)
    requires Sound(s) && Enabled(s, step) && step.Register?
    ensures Sound(Apply(s, step))
  {
    var t := Apply(s, step);
    ReplaySnoc(map[], s.history, StepOperation(s, step).value);
    RegistrationsSnoc(s.history, StepOperation(s, step).value);
    assert t.file == s.file[step.id := s.runs[step.id].entry.(parent := step.parent)];
    forall id | id in t.file ensures EntryOk(t, id) {
      if id != step.id {
        assert EntryOk(s, id);
      }
    }
  }

  predicate IsUpdate(step: Step) { step.Confirm? || step.Decide? || step.RecordFailure? }

  lemma UpdateKeepsSound(s: State, step: Step)
    requires Sound(s) && Enabled(s, step) && IsUpdate(step)
    ensures Sound(Apply(s, step))
    ensures Apply(s, step).file.Keys == s.file.Keys
    ensures forall id :: id in s.file ==> Apply(s, step).file[id].parent == s.file[id].parent
  {
    var t := Apply(s, step);
    ReplaySnoc(map[], s.history, StepOperation(s, step).value);
    RegistrationsSnoc(s.history, StepOperation(s, step).value);
    VerdictOnEntry(s, step, s.file[step.id]);
    assert EntryOk(s, step.id);
    assert t.file.Keys == s.file.Keys;
    forall id | id in t.file ensures EntryOk(t, id) && t.file[id].parent == s.file[id].parent {
      assert EntryOk(s, id);
    }
  }

  lemma QuietKeepsSound(s: State, step: Step)
    requires Sound(s) && Enabled(s, step) && !step.Register? && !IsUpdate(step)
    ensures Sound(Apply(s, step)) && Apply(s, step).file == s.file && Apply(s, step).history == s.history
  {
    var t := Apply(s, step);
    forall id | id in t.file ensures EntryOk(t, id) {
      assert EntryOk(s, id);
    }
  }

  lemma StepKeepsSound(s: State, step: Step)
    requires Sound(s) && Enabled(s, step)
    ensures Sound(Apply(s, step))
  {
    if step.Register? {
      RegisterKeepsSound(s, step);
    } else if IsUpdate(step) {
      UpdateKeepsSound(s, step);
    } else {
      QuietKeepsSound(s, step);
    }
  }

  // ----- Parents ----------------------------------------------------------------------------

  /** A parent found through `latest_promoted` is registered already; only a named one need not be. */
  lemma RegisteredParent(s: State, step: Step)
    requires Sound(s) && ParentsEarlier(s) && Enabled(s, step) && step.Register? && step.parent.Some?
    ensures Before(s.order, step.parent.value, |s.order|) || NamedBy(s.rules, step.id, step.parent.value)
  {
    if s.runs[step.id].rule.LatestPromoted? {
      assert step.parent.value in s.file;
    }
  }

  lemma BeforeStays(order: seq<string>, last: string, id: string, i: nat)
    requires i <= |order| && Before(order, id, i)
    ensures Before(order + [last], id, i)
  {
    var j :| 0 <= j < i && order[j] == id;
    assert (order + [last])[j] == id;
  }

  lemma RegisterKeepsParents(s: State, step: Step)
    requires Sound(s) && ParentsEarlier(s) && Enabled(s, step) && step.Register?
    ensures ParentsEarlier(Apply(s, step))
  {
    var t := Apply(s, step);
    var n := |s.order|;
    assert t.file == s.file[step.id := s.runs[step.id].entry.(parent := step.parent)];
    forall i | 0 <= i < |t.order| && t.order[i] in t.file && t.file[t.order[i]].parent.Some?
      ensures Before(t.order, t.file[t.order[i]].parent.value, i) || NamedBy(t.rules, t.order[i], t.file[t.order[i]].parent.value)
    {
      var parent := t.file[t.order[i]].parent.value;
      if i < n {
        assert s.order[i] in s.file;
        if Before(s.order, parent, i) {
          BeforeStays(s.order, step.id, parent, i);
        }
      } else {
        RegisteredParent(s, step);
        if Before(s.order, parent, n) {
          BeforeStays(s.order, step.id, parent, n);
        }
      }
    }
  }

  lemma OtherKeepsParents(s: State, step: Step)
    requires Sound(s) && ParentsEarlier(s) && Enabled(s, step) && !step.Register?
    ensures ParentsEarlier(Apply(s, step))
  {
    var t := Apply(s, step);
    if IsUpdate(step) {
      UpdateKeepsSound(s, step);
    } else {
      QuietKeepsSound(s, step);
    }
    forall i | 0 <= i < |t.order| && t.order[i] in t.file && t.file[t.order[i]].parent.Some?
      ensures Before(t.order, t.file[t.order[i]].parent.value, i) || NamedBy(t.rules, t.order[i], t.file[t.order[i]].parent.value)
    {
      assert EntryOk(s, s.order[i]);
      assert s.file[s.order[i]].parent == t.file[t.order[i]].parent;
    }
  }

  // ----- Stories ----------------------------------------------------------------------------

  lemma RegisterKeepsStory(done: seq<Step>, s: State, step: Step)
    requires Sound(s) && Story(done, s) && Enabled(s, step) && step.Register?
    ensures Story(done + [step], Apply(s, step))
  {
    var t := Apply(s, step);
    var op := StepOperation(s, step).value;
    OperationKinds(s, step);
    assert t.file == s.file[step.id := s.runs[step.id].entry.(parent := step.parent)];
    forall id ensures SavedPass(t.history, id) == SavedPass(s.history, id) && SavedFailure(t.history, id) == SavedFailure(s.history, id) {
      SavedSnoc(s.history, op, id);
    }
    forall id | id in t.file && id in t.runs ensures StoryOk(done + [step], t, id) {
      if id != step.id {
        assert EntryOk(s, id) && StoryOk(done, s, id);
      }
    }
  }

  lemma UpdateSaves(s: State, step: Step)
    requires Sound(s) && Enabled(s, step) && IsUpdate(step)
    ensures forall id :: SavedPass(Apply(s, step).history, id) <==>
                           SavedPass(s.history, id) || (step.Decide? && step.passed && id == step.id)
    ensures forall id :: SavedFailure(Apply(s, step).history, id) <==> SavedFailure(s.history, id) || (step.RecordFailure? && id == step.id)
  {
    OperationKinds(s, step);
    forall id
      ensures SavedPass(Apply(s, step).history, id) <==> SavedPass(s.history, id) || (step.Decide? && step.passed && id == step.id)
      ensures SavedFailure(Apply(s, step).history, id) <==> SavedFailure(s.history, id) || (step.RecordFailure? && id == step.id)
    {
      SavedSnoc(s.history, StepOperation(s, step).value, id);
    }
  }

  lemma UpdateKeepsStory(done: seq<Step>, s: State, step: Step)
    requires Sound(s) && Story(done, s) && Enabled(s, step) && IsUpdate(step)
    ensures Story(done + [step], Apply(s, step))
  {
    var t := Apply(s, step);
    UpdateSaves(s, step);
    UpdateKeepsSound(s, step);
    forall id | id in t.file && id in t.runs ensures StoryOk(done + [step], t, id) {
      assert EntryOk(s, id) && StoryOk(done, s, id);
      if id == step.id {
        UpdatedStory(done, s, step);
      }
    }
  }

  /** The story of the run that is updated. */
  lemma UpdatedStory(done: seq<Step>, s: State, step: Step)
    requires Enabled(s, step) && IsUpdate(step) && step.id in s.file && step.id in s.runs && StoryOk(done, s, step.id)
    requires SavedPass(Apply(s, step).history, step.id) <==> SavedPass(s.history, step.id) || (step.Decide? && step.passed)
    requires SavedFailure(Apply(s, step).history, step.id) <==> SavedFailure(s.history, step.id) || step.RecordFailure?
    ensures StoryOk(done + [step], Apply(s, step), step.id)
  {
    VerdictOnEntry(s, step, s.file[step.id]);
  }

  lemma QuietKeepsStory(done: seq<Step>, s: State, step: Step)
    requires Sound(s) && Story(done, s) && Enabled(s, step) && !step.Register? && !IsUpdate(step)
    ensures Story(done + [step], Apply(s, step))
  {
    var t := Apply(s, step);
    QuietKeepsSound(s, step);
    forall id | id in t.file && id in t.runs ensures StoryOk(done + [step], t, id) {
      assert EntryOk(s, id) && StoryOk(done, s, id);
    }
  }

  // ----- Whole runs -------------------------------------------------------------------------

  lemma StepKeepsInv(done: seq<Step>, s: State, step: Step)
    requires Inv(done, s) && Enabled(s, step)
    ensures Inv(done + [step], Apply(s, step))
  {
    StepKeepsSound(s, step);
    if step.Register? {
      RegisterKeepsParents(s, step);
      RegisterKeepsStory(done, s, step);
    } else {
      OtherKeepsParents(s, step);
      if IsUpdate(step) {
        UpdateKeepsStory(done, s, step);
      } else {
        QuietKeepsStory(done, s, step);
      }
    }
  }

  /** What every step keeps, every run keeps. */
  lemma {:induction false} RunsKeep(kept: (seq<Step>, State) -> bool, done: seq<Step>, s: State, steps: seq<Step>, t: State)
    requires forall d, u, step :: kept(d, u) && Enabled(u, step) ==> kept(d + [step], Apply(u, step))
    requires kept(done, s) && Leads(s, steps, t)
    ensures kept(done + steps, t)
    decreases |steps|
  {
    if steps == [] {
      assert done + steps == done;
    } else {
      assert done + [steps[0]] + steps[1..] == done + steps;
      RunsKeep(kept, done + [steps[0]], Apply(s, steps[0]), steps[1..], t);
    }
  }

  lemma RunsKeepInv(done: seq<Step>, s: State, steps: seq<Step>, t: State)
    requires Inv(done, s) && Leads(s, steps, t)
    ensures Inv(done + steps, t)
  {
    forall d, u, step | Inv(d, u) && Enabled(u, step) ensures Inv(d + [step], Apply(u, step)) {
      StepKeepsInv(d, u, step);
    }
    RunsKeep((d, u) => Inv(d, u), done, s, steps, t);
  }

  lemma InitialInv()
    ensures Inv([], Initial())
  {
  }

  lemma ReachedInv(steps: seq<Step>, s: State)
    requires Leads(Initial(), steps, s)
    ensures Inv(steps, s)
  {
    InitialInv();
    RunsKeepInv([], Initial(), steps, s);
    assert [] + steps == steps;
  }

  lemma OrderOfHistory(steps: seq<Step>, s: State)
    requires Leads(Initial(), steps, s)
    ensures s.order == Registrations(s.history)
  {
    ReachedInv(steps, s);
  }

  // ----- Promotion --------------------------------------------------------------------------

  /**
   A run is a candidate exactly when its passed verdict was saved and no failure was. It stays promoted
   without being one exactly when the verdict's session raised after saving and the failure was saved too.
   */
  lemma PromotedIffCandidate(steps: seq<Step>, s: State, id: string)
    requires Leads(Initial(), steps, s) && id in s.file
    ensures s.file[id].runId == id
    ensures s.file[id].promoted <==> SavedPass(s.history, id)
    ensures s.file[id].status == Candidate <==> SavedPass(s.history, id) && !SavedFailure(s.history, id)
    ensures s.file[id].promoted && s.file[id].status != Candidate <==>
            SavedPass(s.history, id) && RaisedLate(steps, id) && SavedFailure(s.history, id)
  {
    ReachedInv(steps, s);
    assert EntryOk(s, id) && StoryOk(steps, s, id);
  }

  function Shown(e: Entry, status: Status, promoted: bool, now: int): Entry { e.(status := status, promoted := promoted, updatedAt := now) }

  /** An update of the only entry. */
  lemma OnlyUpdate(s: State, step: Step, e: Entry, changed: Entry)
    requires IsUpdate(step) && PcAllows(s, step) && s.file == map[step.id := e]
    requires ChangedAll(e, StepOperation(s, step).value.changes) == Some(changed)
    ensures Enabled(s, step) && Apply(s, step).file == map[step.id := changed.(updatedAt := step.now)]
    ensures Apply(s, step).runs == s.runs[step.id := NextPc(s, step)]
  {
  }

  lemma FirstRegistration(e: Entry)
    requires e.runId != "" && e.status == Running && !e.promoted && e.parent.None?
    ensures Enabled(Initial(), Launch(e, NoParent))
    ensures var launched := Apply(Initial(), Launch(e, NoParent));
            Enabled(launched, Register(e.runId, None)) &&
            Apply(launched, Register(e.runId, None)) ==
              State.State(map[e.runId := e], map[e.runId := Staging], map[e.runId := NoParent], [e.runId], [Add(e)])
  {
    var launched := Apply(Initial(), Launch(e, NoParent));
    assert e.(parent := None) == e;
    assert launched.runs[e.runId := Staging] == map[e.runId := Staging];
  }

  /** One run passes, saves that, raises on the way out and records a failure: it is failed and still the latest promoted run. */
  lemma FailedAndPromoted(e: Entry, now: int) returns (steps: seq<Step>, s: State)
    requires e.runId != "" && e.status == Running && !e.promoted && e.parent.None?
    ensures Leads(Initial(), steps, s) && s.file == map[e.runId := Shown(e, Failed, true, now)]
    ensures IsLatest(s.file, e.experiment, true, Some(Shown(e, Failed, true, now)))
  {
    var id := e.runId;
    steps := [Launch(e, NoParent), Register(id, None), Decide(id, true, [], now), RaiseLate(id), RecordFailure(id, [], now)];
    FirstRegistration(e);
    var launched := Apply(Initial(), steps[0]);
    var registered := Apply(launched, steps[1]);
    DecidedEntry(e, now);
    OnlyUpdate(registered, steps[2], e, e.(status := Candidate, promoted := true));
    var decided := Apply(registered, steps[2]);
    var raised := Apply(decided, steps[3]);
    FailedEntry(Shown(e, Candidate, true, now));
    OnlyUpdate(raised, steps[4], Shown(e, Candidate, true, now), Shown(e, Failed, true, now));
    s := Apply(raised, steps[4]);
    FiveSteps(steps, Initial(), launched, registered, decided, raised, s);
    OnlyOne(Shown(e, Failed, true, now));
  }

  lemma FailedEntry(e: Entry)
    ensures ChangedAll(e, [SetStatus(Failed)] + []) == Some(e.(status := Failed))
  {
    One(e, SetStatus(Failed));
    assert [SetStatus(Failed)] + [] == [SetStatus(Failed)];
  }

  lemma OnlyOne(e: Entry)
    requires e.promoted
    ensures IsLatest(map[e.runId := e], e.experiment, true, Some(e))
  {
    assert e.runId in map[e.runId := e];
  }

  lemma DecidedEntry(e: Entry, now: int)
    ensures ChangedAll(e, [SetStatus(Candidate)] + [] + [SetPromoted(true)]) == Some(e.(status := Candidate, promoted := true))
  {
    One(e, SetStatus(Candidate));
    ChangedAllSplit(e, [SetStatus(Candidate)], [SetPromoted(true)]);
    One(e.(status := Candidate), SetPromoted(true));
    assert [SetStatus(Candidate)] + [] + [SetPromoted(true)] == [SetStatus(Candidate)] + [SetPromoted(true)];
  }

  lemma FiveSteps(steps: seq<Step>, a: State, b: State, c: State, d: State, e: State, f: State)
    requires |steps| == 5 && Enabled(a, steps[0]) && b == Apply(a, steps[0]) && Enabled(b, steps[1]) && c == Apply(b, steps[1])
    requires Enabled(c, steps[2]) && d == Apply(c, steps[2]) && Enabled(d, steps[3]) && e == Apply(d, steps[3])
    requires Enabled(e, steps[4]) && f == Apply(e, steps[4])
    ensures Leads(a, steps, f)
  {
    assert Leads(f, steps[5..], f);
    assert steps[4..][1..] == steps[5..] && Leads(e, steps[4..], f);
    assert steps[3..][1..] == steps[4..] && Leads(d, steps[3..], f);
    assert steps[2..][1..] == steps[3..] && Leads(c, steps[2..], f);
    assert steps[1..][1..] == steps[2..] && Leads(b, steps[1..], f);
  }

  // ----- Lineage ----------------------------------------------------------------------------

  /** A run's place in the order of registration. */
  function Place(order: seq<string>, id: string): (i: nat)
    requires id in order
    ensures i < |order| && order[i] == id
  {
    if order[0] == id then 0 else 1 + Place(order[1..], id)
  }

  lemma OnlyPlace(s: State, i: nat)
    requires Sound(s) && i < |s.order|
    ensures Place(s.order, s.order[i]) == i
  {
  }

  lemma AncestorStored(s: State, id: string, n: nat)
    requires Sound(s) && Ancestor(s.file, id, n).Some?
    ensures var e := Ancestor(s.file, id, n).value; e.runId in s.file && s.file[e.runId] == e && e.runId in s.order
    ensures n > 0 ==> Ancestor(s.file, id, n - 1).Some? && Ancestor(s.file, id, n - 1).value.parent == Some(Ancestor(s.file, id, n).value.runId)
  {
    if n == 0 {
      assert EntryOk(s, id);
    } else {
      assert EntryOk(s, Ancestor(s.file, id, n - 1).value.parent.value);
    }
  }

  /** The run reached by `n` links. */
  function AncestorId(m: Entries, id: string, n: nat): string
    requires Ancestor(m, id, n).Some?
  {
    Ancestor(m, id, n).value.runId
  }

  /** Run `child` named `parent`, which was registered no earlier. */
  ghost predicate NamedForward(order: seq<string>, rules: map<string, ParentRule>, child: string, parent: string) {
    child in order && parent in order && Place(order, child) <= Place(order, parent) && NamedBy(rules, child, parent)
  }

  /** A link leads back in the order of registration, unless its run named a parent that comes later. */
  lemma LinkLeadsBack(s: State, id: string, k: nat)
    requires Sound(s) && ParentsEarlier(s) && Ancestor(s.file, id, k + 1).Some?
    ensures Ancestor(s.file, id, k).Some? && AncestorId(s.file, id, k) in s.order && AncestorId(s.file, id, k + 1) in s.order
    ensures NamedForward(s.order, s.rules, AncestorId(s.file, id, k), AncestorId(s.file, id, k + 1)) ||
            Place(s.order, AncestorId(s.file, id, k + 1)) < Place(s.order, AncestorId(s.file, id, k))
  {
    AncestorStored(s, id, k + 1);
    AncestorStored(s, id, k);
    var child, parent := AncestorId(s.file, id, k), AncestorId(s.file, id, k + 1);
    var i := Place(s.order, child);
    assert s.order[i] in s.file && s.file[s.order[i]].parent == Some(parent);
    if Before(s.order, parent, i) {
      var j :| 0 <= j < i && s.order[j] == parent;
      OnlyPlace(s, j);
    }
  }

  /** The link after the `k`-th was named ahead. */
  ghost predicate ForwardLink(m: Entries, order: seq<string>, rules: map<string, ParentRule>, id: string, k: nat) {
    && Ancestor(m, id, k).Some? && Ancestor(m, id, k + 1).Some?
    && NamedForward(order, rules, AncestorId(m, id, k), AncestorId(m, id, k + 1))
  }

  /** The link after the `k`-th leads back in the order of registration. */
  ghost predicate BackLink(s: State, id: string, k: nat) {
    && Ancestor(s.file, id, k).Some? && Ancestor(s.file, id, k + 1).Some?
    && AncestorId(s.file, id, k) in s.order && AncestorId(s.file, id, k + 1) in s.order
    && Place(s.order, AncestorId(s.file, id, k + 1)) < Place(s.order, AncestorId(s.file, id, k))
  }

  ghost predicate AllBack(s: State, id: string, a: nat, b: nat) {
    forall k: nat :: a <= k < b ==> BackLink(s, id, k)
  }

  lemma {:induction false} StretchLeadsBack(s: State, id: string, a: nat, b: nat)
    requires a < b && AllBack(s, id, a, b)
    ensures BackLink(s, id, a) && BackLink(s, id, b - 1)
    ensures Place(s.order, AncestorId(s.file, id, b)) + (b - a) <= Place(s.order, AncestorId(s.file, id, a))
    decreases b - a
  {
    assert BackLink(s, id, a) && BackLink(s, id, b - 1);
    if a + 1 < b {
      StretchLeadsBack(s, id, a, b - 1);
    }
  }

  /** Every link of the chain leads back or was named ahead. */
  lemma LinksBackOrForward(s: State, id: string, b: nat)
    requires Sound(s) && ParentsEarlier(s) && Ancestor(s.file, id, b).Some?
    ensures forall k: nat :: k < b ==> BackLink(s, id, k) || ForwardLink(s.file, s.order, s.rules, id, k)
  {
    forall k: nat | k < b ensures BackLink(s, id, k) || ForwardLink(s.file, s.order, s.rules, id, k) {
      if Ancestor(s.file, id, k + 1).None? {
        NoAncestorAfterNone(s.file, id, k + 1, b);
      }
      LinkLeadsBack(s, id, k);
    }
  }

  /** Where no parent is named ahead, `n` links from the run registered `i`-th lead back at least `n` places. */
  lemma AncestorsAreOlder(steps: seq<Step>, s: State, i: nat, n: nat)
    requires Leads(Initial(), steps, s) && i < |s.order| && NamesNoneAhead(s.order, s.rules)
    ensures Ancestor(s.file, s.order[i], n).Some? ==>
              AncestorId(s.file, s.order[i], n) in s.order && Place(s.order, AncestorId(s.file, s.order[i], n)) + n <= i
  {
    ReachedInv(steps, s);
    if Ancestor(s.file, s.order[i], n).Some? {
      AncestorStored(s, s.order[i], n);
      LinksBackOrForward(s, s.order[i], n);
      assert EntryOk(s, s.order[i]);
      OnlyPlace(s, i);
      if n > 0 {
        StretchLeadsBack(s, s.order[i], 0, n);
      }
    }
  }

  /** No run named itself or one registered after it. */
  ghost predicate NamesNoneAhead(order: seq<string>, rules: map<string, ParentRule>) {
    forall child, parent :: !NamedForward(order, rules, child, parent)
  }

  /** The chain takes a link that its run named ahead, and `n` links further is at that run again. */
  ghost predicate LoopsAfter(m: Entries, order: seq<string>, rules: map<string, ParentRule>, id: string, k: nat, n: nat) {
    && ForwardLink(m, order, rules, id, k) && Ancestor(m, id, k + 1 + n).Some?
    && AncestorId(m, id, k + 1 + n) == AncestorId(m, id, k)
  }

  lemma RepeatTakesForward(s: State, id: string, a: nat, b: nat) returns (k: nat)
    requires a < b && Ancestor(s.file, id, a).Some? && Ancestor(s.file, id, b).Some?
    requires AncestorId(s.file, id, a) == AncestorId(s.file, id, b)
    requires forall k: nat :: k < b ==> BackLink(s, id, k) || ForwardLink(s.file, s.order, s.rules, id, k)
    ensures a <= k < b && ForwardLink(s.file, s.order, s.rules, id, k)
  {
    if AllBack(s, id, a, b) {
      StretchLeadsBack(s, id, a, b);
      assert false;
    }
    k :| a <= k < b && !BackLink(s, id, k);
  }

  lemma Onwards(s: State, id: string, a: nat, m: nat, c: nat)
    requires Sound(s) && Ancestor(s.file, id, a).Some? && c == a + m
    ensures Ancestor(s.file, id, c) == Ancestor(s.file, AncestorId(s.file, id, a), m)
  {
    AncestorStored(s, id, a);
    AncestorCompose(s.file, id, a, m);
  }

  lemma ComesBack(s: State, id: string, a: nat, b: nat, k: nat, n: nat)
    requires Sound(s) && Ancestor(s.file, id, a).Some? && Ancestor(s.file, id, b).Some?
    requires AncestorId(s.file, id, a) == AncestorId(s.file, id, b) && a <= k && a + 1 + n == b
    ensures Ancestor(s.file, id, k + 1 + n) == Ancestor(s.file, id, k)
  {
    Onwards(s, id, a, k - a, k);
    Onwards(s, id, b, k - a, k + 1 + n);
  }

  lemma LoopIsClosed(s: State, id: string, k: nat, n: nat)
    requires ForwardLink(s.file, s.order, s.rules, id, k) && Ancestor(s.file, id, k + 1 + n) == Ancestor(s.file, id, k)
    ensures exists k: nat, n: nat :: LoopsAfter(s.file, s.order, s.rules, id, k, n)
  {
    assert LoopsAfter(s.file, s.order, s.rules, id, k, n);
  }

  lemma ForwardInRepeat(s: State, id: string, a: nat, b: nat) returns (k: nat)
    requires Sound(s) && ParentsEarlier(s) && a < b && Ancestor(s.file, id, a).Some? && Ancestor(s.file, id, b).Some?
    requires AncestorId(s.file, id, a) == AncestorId(s.file, id, b)
    ensures a <= k && ForwardLink(s.file, s.order, s.rules, id, k)
  {
    LinksBackOrForward(s, id, b);
    k := RepeatTakesForward(s, id, a, b);
  }

  lemma LoopOfRepeat(s: State, id: string, a: nat, b: nat, n: nat)
    requires Sound(s) && ParentsEarlier(s) && a + 1 + n == b && Ancestor(s.file, id, a).Some? && Ancestor(s.file, id, b).Some?
    requires AncestorId(s.file, id, a) == AncestorId(s.file, id, b)
    ensures exists k: nat, n: nat :: LoopsAfter(s.file, s.order, s.rules, id, k, n)
  {
    var k := ForwardInRepeat(s, id, a, b);
    ComesBack(s, id, a, b, k, n);
    LoopIsClosed(s, id, k, n);
  }

  lemma RepeatLoops(s: State, id: string)
    requires Sound(s) && ParentsEarlier(s) && ChainRepeats(s.file, id)
    ensures exists k: nat, n: nat :: LoopsAfter(s.file, s.order, s.rules, id, k, n)
  {
    var at :| RepeatsAt(s.file, id, at);
    var a: nat, b: nat :| a < b && Ancestor(s.file, id, a).Some? && Ancestor(s.file, id, b).Some? &&
      Ancestor(s.file, id, a).value.runId == at == Ancestor(s.file, id, b).value.runId;
    LoopOfRepeat(s, id, a, b, b - 1 - a);
  }

  /**
   The walk raises exactly when the chain takes a link to a parent that its run named before that parent was
   registered, or to itself, and comes back to the run.
   */
  lemma LineageRaisesExactly(steps: seq<Step>, s: State, id: string)
    requires Leads(Initial(), steps, s)
    ensures ChainRepeats(s.file, id) <==> exists k: nat, n: nat :: LoopsAfter(s.file, s.order, s.rules, id, k, n)
  {
    if ChainRepeats(s.file, id) {
      ReachedInv(steps, s);
      RepeatLoops(s, id);
    }
    if k: nat, n: nat :| LoopsAfter(s.file, s.order, s.rules, id, k, n) {
      assert RepeatsAt(s.file, id, AncestorId(s.file, id, k));
    }
  }

  /** Where no run named itself or a run registered after it, no registry has a cycle of parents. */
  lemma LineageNeverRaises(steps: seq<Step>, s: State, id: string)
    requires Leads(Initial(), steps, s) && NamesNoneAhead(s.order, s.rules)
    ensures !ChainRepeats(s.file, id)
  {
    LineageRaisesExactly(steps, s, id);
  }

  /** A run that names itself as its parent has a lineage that raises. */
  lemma SelfNamedRaises(e: Entry) returns (steps: seq<Step>, s: State)
    requires e.runId != "" && e.status == Running && !e.promoted && e.parent.None?
    ensures Leads(Initial(), steps, s) && e.runId in s.file && ChainRepeats(s.file, e.runId)
  {
    var id := e.runId;
    steps := [Launch(e, Named(id)), Register(id, Some(id))];
    var launched := Apply(Initial(), steps[0]);
    s := Apply(launched, steps[1]);
    assert Leads(s, steps[1..][1..], s);
    assert Leads(launched, steps[1..], s);
    assert Ancestor(s.file, id, 0) == Some(s.file[id]);
    assert Ancestor(s.file, id, 1) == Some(s.file[id]);
    assert RepeatsAt(s.file, id, id);
  }

  /** Walking `a` links and then `b` from where that ends is walking `a + b`. */
  lemma {:induction false} AncestorCompose(m: Entries, id: string, a: nat, b: nat)
    requires Ancestor(m, id, a).Some? && Ancestor(m, id, a).value.runId in m
    requires m[Ancestor(m, id, a).value.runId] == Ancestor(m, id, a).value
    ensures Ancestor(m, id, a + b) == Ancestor(m, Ancestor(m, id, a).value.runId, b)
  {
    if b > 0 {
      AncestorCompose(m, id, a, b - 1);
    }
  }
}
