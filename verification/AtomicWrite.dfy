/**
 The crash-safe write of one destination file: any number of writers and readers,
 interleaved one system call at a time, with processes dying and power failing at
 any point. The page cache and the disk are separate: contents survive a power
 failure only once fsynced, and the directory entry on disk trails the one in memory.
 What is assumed of the file system: `rename` replaces the entry in one step, as the
 System Interfaces volume of POSIX.1-2017 requires, and the directory on disk, destination
 and temporaries together, is always one the directory has been.
 */
module AtomicWrite {
  import opened Wrappers

  type Bytes = seq<nat>

  /** The file found at the destination before any write, or the temporary of a writer. */
  datatype File = Previous | Temporary(writer: nat)

  datatype Phase =
    | Opening                     // before the temporary file exists
    | Filling                     // temporary open, payload partly written
    | Synced                      // payload complete and fsynced
    | Renamed                     // the temporary has become the destination
    | Settling(durable: bool)     // directory sync tried
    | Failing                     // an error was raised; the cleanup is still to run
    | Disturbed                   // an error was raised after the rename; likewise
    | Returned(durable: bool)
    | Raised
    | RaisedLate                  // raised although the destination was replaced
    | Dead

  /** `commit` is the position this writer's rename took in the history of the destination. */
  datatype Writer = Writer(payload: Bytes, phase: Phase, commit: nat)

  datatype State = State(
    files: map<File, Bytes>,       // contents in the page cache
    safe: set<File>,               // files whose contents are on disk
    history: seq<Option<File>>,    // every value of the destination entry; the last is current
    onDisk: nat,                   // which of them the disk holds
    temporaries: set<nat>,         // writers whose temporary entry exists
    listed: set<nat>,              // writers whose temporary entry the disk holds
    writers: seq<Writer>,
    readers: set<File>             // files some reader opened as the destination
  )

  datatype Step =
    | Begin(payload: Bytes)
    | Open(w: nat)
    | Write(w: nat, upTo: nat)       // the first `upTo` bytes have reached the file
    | FsyncFile(w: nat)
    | Rename(w: nat)
    | FsyncDirectory(w: nat, works: bool)
    | Fail(w: nat)                   // the current call raises
    | FailLate(w: nat)               // a call after the rename raises
    | Cleanup(w: nat)                // `finally`: unlink the temporary if it is there
    | CleanupFails(w: nat)           // the unlink itself raises
    | Kill(w: nat)
    | WriteBack                      // the kernel flushes the directory on its own
    | Read                           // a reader opens the destination
    | PowerFailure(junk: map<File, Bytes>)

  predicate Active(p: Phase) { !p.Returned? && !p.Raised? && !p.RaisedLate? && !p.Dead? }

  /** The `finally` clause is what comes next. */
  predicate Ending(p: Phase) { p.Settling? || p.Failing? || p.Disturbed? }

  /** The writer may still touch its temporary file. */
  predicate Unpublished(p: Phase) { p.Opening? || p.Filling? || p.Synced? || p.Failing? }

  function Initial(before: Option<Bytes>): State {
    match before
    case None => State(map[], {}, [None], 0, {}, {}, [], {})
    case Some(bytes) => State(map[Previous := bytes], {Previous}, [Some(Previous)], 0, {}, {}, [], {})
  }

  function Phases(s: State, w: nat): Option<Phase> {
    if w < |s.writers| then Some(s.writers[w].phase) else None
  }

  predicate Enabled(s: State, step: Step) {
    match step
    case Begin(_) => true
    case Open(w) => Phases(s, w) == Some(Opening)
    case Write(w, upTo) =>
      Phases(s, w) == Some(Filling) && upTo <= |s.writers[w].payload| &&
      Temporary(w) in s.files && |s.files[Temporary(w)]| <= upTo
    case FsyncFile(w) =>
      Phases(s, w) == Some(Filling) && Temporary(w) in s.files &&
      |s.files[Temporary(w)]| == |s.writers[w].payload|
    case Rename(w) => Phases(s, w) == Some(Synced)
    case FsyncDirectory(w, _) => Phases(s, w) == Some(Renamed) && |s.history| > 0
    case Fail(w) => Phases(s, w) in {Some(Opening), Some(Filling), Some(Synced)}
    case FailLate(w) => w < |s.writers| && (s.writers[w].phase.Renamed? || s.writers[w].phase.Settling?)
    case Cleanup(w) => w < |s.writers| && Ending(s.writers[w].phase)
    case CleanupFails(w) => w < |s.writers| && Ending(s.writers[w].phase)
    case Kill(w) => w < |s.writers| && Active(s.writers[w].phase)
    case WriteBack => |s.history| > 0
    case Read => |s.history| > 0
    case PowerFailure(_) => s.onDisk < |s.history|
  }

  function WithPhase(s: State, w: nat, phase: Phase): State
    requires w < |s.writers|
  {
    s.(writers := s.writers[w := s.writers[w].(phase := phase)])
  }

  function Ended(phase: Phase): Phase {
    if phase.Settling? then Returned(phase.durable) else if phase.Disturbed? then RaisedLate else Raised
  }

  function Perished(writers: seq<Writer>): (r: seq<Writer>)
    ensures |r| == |writers|
    ensures forall w :: 0 <= w < |r| ==>
              r[w] == if Active(writers[w].phase) then writers[w].(phase := Dead) else writers[w]
  {
    seq(|writers|, w requires 0 <= w < |writers| =>
      if Active(writers[w].phase) then writers[w].(phase := Dead) else writers[w])
  }

  function Apply(s: State, step: Step): State
    requires Enabled(s, step)
  {
    match step
    case Begin(payload) => s.(writers := s.writers + [Writer(payload, Opening, 0)])
    case Open(w) =>
      WithPhase(s, w, Filling).(files := s.files[Temporary(w) := []], temporaries := s.temporaries + {w})
    case Write(w, upTo) => s.(files := s.files[Temporary(w) := s.writers[w].payload[..upTo]])
    case FsyncFile(w) => WithPhase(s, w, Synced).(safe := s.safe + {Temporary(w)})
    case Rename(w) =>
      s.(writers := s.writers[w := s.writers[w].(phase := Renamed, commit := |s.history|)],
         history := s.history + [Some(Temporary(w))], temporaries := s.temporaries - {w})
    case FsyncDirectory(w, works) =>
      WithPhase(s, w, Settling(works))
        .(onDisk := if works then |s.history| - 1 else s.onDisk, listed := if works then s.temporaries else s.listed)
    case Fail(w) => WithPhase(s, w, Failing)
    case FailLate(w) => WithPhase(s, w, Disturbed)
    case Cleanup(w) => WithPhase(s, w, Ended(s.writers[w].phase)).(temporaries := s.temporaries - {w})
    case CleanupFails(w) => WithPhase(s, w, if s.writers[w].phase.Failing? then Raised else RaisedLate)
    case Kill(w) => WithPhase(s, w, Dead)
    case WriteBack => s.(onDisk := |s.history| - 1, listed := s.temporaries)
    case Read =>
      var entry := s.history[|s.history| - 1];
      if entry.Some? then s.(readers := s.readers + {entry.value}) else s
    case PowerFailure(junk) =>
      // Unsynced contents come back as anything or not at all; the directory comes back as on disk.
      s.(files := map f | f in s.files.Keys && (f in s.safe || f in junk) :: if f in s.safe then s.files[f] else junk[f],
         history := s.history[..s.onDisk + 1],
         temporaries := s.listed,
         writers := Perished(s.writers),
         readers := {})
  }

  ghost predicate Leads(s: State, steps: seq<Step>, t: State)
    decreases |steps|
  {
    if steps == [] then s == t
    else Enabled(s, steps[0]) && Leads(Apply(s, steps[0]), steps[1..], t)
  }

  lemma {:induction false} LeadsThen(s: State, first: seq<Step>, t: State, second: seq<Step>, u: State)
    requires Leads(s, first, t) && Leads(t, second, u)
    ensures Leads(s, first + second, u)
    decreases |first|
  {
    if first == [] {
      assert first + second == second;
    } else {
      LeadsThen(Apply(s, first[0]), first[1..], t, second, u);
      assert (first + second)[1..] == first[1..] + second;
    }
  }

  lemma OneMore(s: State, steps: seq<Step>, t: State, step: Step)
    requires Leads(s, steps, t) && Enabled(t, step)
    ensures Leads(s, steps + [step], Apply(t, step))
  {
    assert [step][1..] == [];
    LeadsThen(s, steps, t, [step], Apply(t, step));
  }

  // ----- The invariant --------------------------------------------------------------------

  /** The bytes found by following a value of the destination entry. */
  function Found(s: State, entry: Option<File>): Option<Bytes> {
    if entry.Some? && entry.value in s.files then Some(s.files[entry.value]) else None
  }

  /** A file that became the destination: complete, on disk, and out of every writer's reach. */
  ghost predicate Published(s: State, f: File, before: Option<Bytes>) {
    && f in s.files && f in s.safe
    && (f.Previous? ==> before == Some(s.files[f]))
    && (f.Temporary? ==>
          && f.writer < |s.writers|
          && !Unpublished(s.writers[f.writer].phase)
          && s.files[f] == s.writers[f.writer].payload)
  }

  ghost predicate HistoryOk(s: State, before: Option<Bytes>) {
    && s.onDisk < |s.history|
    && s.history[0] == (if before.Some? then Some(Previous) else None)
    && (forall k :: 0 < k < |s.history| ==> s.history[k].Some? && s.history[k].value.Temporary?)
    && (forall k :: 0 <= k < |s.history| && s.history[k].Some? ==> Published(s, s.history[k].value, before))
    && (forall f :: f in s.readers ==> Published(s, f, before))
  }

  ghost predicate CommittedAt(s: State, w: nat, k: nat) {
    k < |s.history| && s.history[k] == Some(Temporary(w))
  }

  ghost predicate WriterOk(s: State, w: nat, r: Writer) {
    && (r.phase.Filling? || r.phase.Synced? ==> Temporary(w) in s.files)
    && (r.phase.Filling? ==> s.files[Temporary(w)] <= r.payload)
    && (r.phase.Synced? ==> s.files[Temporary(w)] == r.payload && Temporary(w) in s.safe)
    && (r.phase.Renamed? || r.phase.Settling? || r.phase.Disturbed? ==> CommittedAt(s, w, r.commit) && w !in s.temporaries)
    && ((r.phase.Settling? || r.phase.Returned?) && r.phase.durable ==>
          CommittedAt(s, w, r.commit) && r.commit <= s.onDisk && w !in s.temporaries && w !in s.listed)
    && (Unpublished(r.phase) || r.phase.Raised? ==> forall k :: 0 <= k < |s.history| ==> s.history[k] != Some(Temporary(w)))
  }

  /** The temporary of `w` is not among the first `n` destinations. */
  ghost predicate NeverLinked(s: State, w: nat, n: nat)
    requires n <= |s.history|
  {
    forall k :: 0 <= k < n ==> s.history[k] != Some(Temporary(w))
  }

  /** No directory, in memory or on disk, lists a temporary that has been the destination in it or before. */
  ghost predicate DirectoryOk(s: State)
    requires s.onDisk < |s.history|
  {
    && (forall w :: w in s.temporaries ==> w < |s.writers| && NeverLinked(s, w, |s.history|))
    && (forall w :: w in s.listed ==> w < |s.writers| && NeverLinked(s, w, s.onDisk + 1))
  }

  ghost predicate Inv(s: State, before: Option<Bytes>) {
    && HistoryOk(s, before)
    && (forall w :: 0 <= w < |s.writers| ==> WriterOk(s, w, s.writers[w]))
    && DirectoryOk(s)
  }

  lemma InitInv(before: Option<Bytes>)
    ensures Inv(Initial(before), before)
  {
  }

  /** A published file stays published, through steps and crashes. */
  lemma StepKeepsPublished(s: State, step: Step, before: Option<Bytes>, f: File)
    requires Inv(s, before) && Enabled(s, step) && Published(s, f, before)
    ensures Published(Apply(s, step), f, before)
  {
    if f.Temporary? {
      assert Apply(s, step).writers[f.writer].payload == s.writers[f.writer].payload;
    }
  }

  lemma StepKeepsHistory(s: State, step: Step, before: Option<Bytes>)
    requires Inv(s, before) && Enabled(s, step)
    ensures HistoryOk(Apply(s, step), before)
  {
    forall f | Published(s, f, before) ensures Published(Apply(s, step), f, before) {
      StepKeepsPublished(s, step, before, f);
    }
  }

  ghost predicate Own(step: Step, w: nat) {
    (step.Open? || step.Write? || step.FsyncFile? || step.Rename? || step.FsyncDirectory? ||
     step.Fail? || step.FailLate? || step.Cleanup? || step.CleanupFails? || step.Kill?) && step.w == w
  }

  lemma OwnStepKeepsWriter(s: State, step: Step, before: Option<Bytes>, w: nat)
    requires Inv(s, before) && Enabled(s, step) && w < |s.writers| && Own(step, w)
    ensures WriterOk(Apply(s, step), w, Apply(s, step).writers[w])
  {
    var t := Apply(s, step);
    assert WriterOk(s, w, s.writers[w]);
    if step.Rename? {
      assert t.history[|s.history|] == Some(Temporary(w));
    }
  }

  lemma PowerFailureKeepsWriter(s: State, step: Step, before: Option<Bytes>, w: nat)
    requires Inv(s, before) && Enabled(s, step) && step.PowerFailure? && w < |s.writers|
    ensures WriterOk(Apply(s, step), w, Apply(s, step).writers[w])
  {
    assert WriterOk(s, w, s.writers[w]);
  }

  lemma StepKeepsWriter(s: State, step: Step, before: Option<Bytes>, w: nat)
    requires Inv(s, before) && Enabled(s, step) && w < |Apply(s, step).writers|
    ensures WriterOk(Apply(s, step), w, Apply(s, step).writers[w])
  {
    var t := Apply(s, step);
    if w >= |s.writers| {
      assert t.history == s.history && t.temporaries == s.temporaries;
    } else if Own(step, w) {
      OwnStepKeepsWriter(s, step, before, w);
    } else if step.PowerFailure? {
      PowerFailureKeepsWriter(s, step, before, w);
    } else {
      var r := s.writers[w];
      assert WriterOk(s, w, r) && t.writers[w] == r;
      assert Temporary(w) in s.files ==> Temporary(w) in t.files && t.files[Temporary(w)] == s.files[Temporary(w)];
      assert s.history <= t.history && s.onDisk <= t.onDisk;
      assert forall k :: |s.history| <= k < |t.history| ==> t.history[k] != Some(Temporary(w));
    }
  }

  lemma StepKeepsDirectory(s: State, step: Step, before: Option<Bytes>)
    requires Inv(s, before) && Enabled(s, step)
    ensures Apply(s, step).onDisk < |Apply(s, step).history| && DirectoryOk(Apply(s, step))
  {
    var t := Apply(s, step);
    forall w | w in t.temporaries ensures w < |t.writers| && NeverLinked(t, w, |t.history|) {
      if step.Open? && step.w == w {
        assert WriterOk(s, w, s.writers[w]);
      } else if step.PowerFailure? {
        assert NeverLinked(s, w, s.onDisk + 1);
      } else {
        assert NeverLinked(s, w, |s.history|);
      }
    }
    forall w | w in t.listed ensures w < |t.writers| && NeverLinked(t, w, t.onDisk + 1) {
      if w in s.listed {
        assert NeverLinked(s, w, s.onDisk + 1);
      }
      if w in s.temporaries {
        assert NeverLinked(s, w, |s.history|);
      }
    }
  }

  lemma StepKeepsInv(s: State, step: Step, before: Option<Bytes>)
    requires Inv(s, before) && Enabled(s, step)
    ensures Inv(Apply(s, step), before)
  {
    StepKeepsHistory(s, step, before);
    StepKeepsDirectory(s, step, before);
    forall w | 0 <= w < |Apply(s, step).writers| ensures WriterOk(Apply(s, step), w, Apply(s, step).writers[w]) {
      StepKeepsWriter(s, step, before, w);
    }
  }

  lemma {:induction false} RunsKeepInv(s: State, steps: seq<Step>, t: State, before: Option<Bytes>)
    requires Inv(s, before) && Leads(s, steps, t)
    ensures Inv(t, before)
    decreases |steps|
  {
    if steps != [] {
      StepKeepsInv(s, steps[0], before);
      RunsKeepInv(Apply(s, steps[0]), steps[1..], t, before);
    }
  }

  // ----- Atomicity: what a reader can find, with and without a power failure ----------------

  function Current(s: State): Option<File>
    requires |s.history| > 0
  {
    s.history[|s.history| - 1]
  }

  /** What the destination was meant to hold at this point of its history: one whole payload. */
  ghost function Intended(s: State, entry: Option<File>, before: Option<Bytes>): Option<Bytes>
    requires entry.Some? && entry.value.Temporary? ==> entry.value.writer < |s.writers|
  {
    if entry.Some? && entry.value.Temporary? then Some(s.writers[entry.value.writer].payload) else before
  }

  ghost predicate CompleteVersion(s: State, found: Option<Bytes>, before: Option<Bytes>) {
    || found == before
    || (exists w :: 0 <= w < |s.writers| && !Unpublished(s.writers[w].phase) && !s.writers[w].phase.Raised? &&
          found == Some(s.writers[w].payload))
  }

  lemma EntryIsComplete(s: State, before: Option<Bytes>, k: nat)
    requires Inv(s, before) && k < |s.history|
    ensures s.history[k].Some? && s.history[k].value.Temporary? ==> s.history[k].value.writer < |s.writers|
    ensures Found(s, s.history[k]) == Intended(s, s.history[k], before)
    ensures CompleteVersion(s, Found(s, s.history[k]), before)
  {
    if s.history[k].Some? && s.history[k].value.Temporary? {
      var w := s.history[k].value.writer;
      assert Published(s, s.history[k].value, before) && WriterOk(s, w, s.writers[w]);
    }
  }

  /**
   Whatever has happened so far, the destination holds the bytes it held at first or the
   whole payload of a write that did not fail; and so it does if the power fails now.
   */
  lemma NeverPartial(steps: seq<Step>, s: State, before: Option<Bytes>, crash: Step)
    requires Leads(Initial(before), steps, s)
    requires crash.PowerFailure? && Enabled(s, crash)
    ensures |s.history| > 0 && CompleteVersion(s, Found(s, Current(s)), before)
    ensures var t := Apply(s, crash);
      |t.history| > 0 && CompleteVersion(s, Found(t, Current(t)), before)
  {
    InitInv(before);
    RunsKeepInv(Initial(before), steps, s, before);
    EntryIsComplete(s, before, |s.history| - 1);
    EntryIsComplete(s, before, s.onDisk);
    var t := Apply(s, crash);
    assert Current(t) == s.history[s.onDisk];
    assert Found(t, Current(t)) == Found(s, s.history[s.onDisk]);
  }

  /** Whatever has happened, a reader can open the destination, the kernel can flush the directory and the power can fail. */
  lemma AlwaysPossible(steps: seq<Step>, s: State, before: Option<Bytes>, junk: map<File, Bytes>)
    requires Leads(Initial(before), steps, s)
    ensures Enabled(s, Read) && Enabled(s, WriteBack) && Enabled(s, PowerFailure(junk))
  {
    InitInv(before);
    RunsKeepInv(Initial(before), steps, s, before);
  }

  /** With one writer, that is the complete old contents or the complete new contents. */
  lemma OldOrNew(steps: seq<Step>, s: State, before: Option<Bytes>, payload: Bytes, crash: Step)
    requires Leads(Initial(before), steps, s)
    requires |s.writers| == 1 && s.writers[0].payload == payload
    requires crash.PowerFailure? && Enabled(s, crash)
    ensures |s.history| > 0 && Found(s, Current(s)) in {before, Some(payload)}
    ensures |Apply(s, crash).history| > 0 && Found(Apply(s, crash), Current(Apply(s, crash))) in {before, Some(payload)}
  {
    NeverPartial(steps, s, before, crash);
  }

  /** A reader keeps seeing the version it opened, whole, whatever is written meanwhile. */
  lemma {:induction false} ReadersAreStable(s: State, steps: seq<Step>, t: State, before: Option<Bytes>, f: File)
    requires Inv(s, before) && Leads(s, steps, t) && f in s.readers
    requires forall k :: 0 <= k < |steps| ==> !steps[k].PowerFailure?
    ensures f in s.files && f in t.files && t.files[f] == s.files[f]
    ensures f.Previous? ==> before == Some(t.files[f])
    ensures f.Temporary? ==> f.writer < |t.writers| && t.files[f] == t.writers[f.writer].payload
    decreases |steps|
  {
    assert Published(s, f, before);
    if steps != [] {
      var u := Apply(s, steps[0]);
      StepKeepsInv(s, steps[0], before);
      assert Published(u, f, before) && u.files[f] == s.files[f];
      ReadersAreStable(u, steps[1..], t, before, f);
    }
  }

  // ----- Durability -------------------------------------------------------------------------

  /** The version on disk is `w`'s or one renamed over it later. */
  ghost predicate DurablySince(s: State, w: nat, commit: nat) {
    CommittedAt(s, w, commit) && commit <= s.onDisk
  }

  lemma {:induction false} DurableForever(s: State, steps: seq<Step>, t: State, before: Option<Bytes>, w: nat, commit: nat)
    requires Inv(s, before) && Leads(s, steps, t) && DurablySince(s, w, commit)
    ensures DurablySince(t, w, commit)
    decreases |steps|
  {
    if steps != [] {
      StepKeepsInv(s, steps[0], before);
      DurableForever(Apply(s, steps[0]), steps[1..], t, before, w, commit);
    }
  }

  /**
   A write that returned after a working directory sync is never lost: at every later
   moment, power failures included, memory and disk both hold its payload or that of a
   write renamed after it; its own payload as long as nobody renamed after it.
   */
  lemma ReturnedIsDurable(
      steps: seq<Step>, s: State, later: seq<Step>, t: State, before: Option<Bytes>, w: nat)
    requires Leads(Initial(before), steps, s) && Leads(s, later, t)
    requires w < |s.writers| && s.writers[w].phase == Returned(true)
    ensures var k := s.writers[w].commit; CommittedAt(t, w, k) && k <= t.onDisk < |t.history|
    ensures w < |t.writers| && t.writers[w].payload == s.writers[w].payload
    ensures s.writers[w].commit == |t.history| - 1 ==>
              Found(t, Current(t)) == Found(t, t.history[t.onDisk]) == Some(s.writers[w].payload)
  {
    InitInv(before);
    RunsKeepInv(Initial(before), steps, s, before);
    RunsKeepInv(s, later, t, before);
    assert WriterOk(s, w, s.writers[w]);
    DurableForever(s, later, t, before, w, s.writers[w].commit);
    PayloadsFixed(s, later, t);
    assert Published(t, Temporary(w), before);
  }

  lemma {:induction false} PayloadsFixed(s: State, steps: seq<Step>, t: State)
    requires Leads(s, steps, t)
    ensures |s.writers| <= |t.writers|
    ensures forall w :: 0 <= w < |s.writers| ==> t.writers[w].payload == s.writers[w].payload
    decreases |steps|
  {
    if steps != [] {
      PayloadsFixed(Apply(s, steps[0]), steps[1..], t);
    }
  }

  // ----- Failure ------------------------------------------------------------------------------

  /** A write that raised before its rename was never the destination. */
  lemma FailureNeverShows(steps: seq<Step>, s: State, before: Option<Bytes>, w: nat)
    requires Leads(Initial(before), steps, s) && w < |s.writers| && s.writers[w].phase.Raised?
    ensures forall k :: 0 <= k < |s.history| ==> s.history[k] != Some(Temporary(w))
  {
    InitInv(before);
    RunsKeepInv(Initial(before), steps, s, before);
    assert WriterOk(s, w, s.writers[w]);
  }

  ghost predicate NoPowerFailure(steps: seq<Step>) {
    forall k :: 0 <= k < |steps| ==> !steps[k].PowerFailure?
  }

  lemma {:induction false} StaysUnlisted(s: State, steps: seq<Step>, t: State, w: nat)
    requires Leads(s, steps, t) && NoPowerFailure(steps)
    requires w < |s.writers| && !Active(s.writers[w].phase) && w !in s.temporaries
    ensures w < |t.writers| && t.writers[w] == s.writers[w] && w !in t.temporaries
    decreases |steps|
  {
    if steps != [] {
      assert NoPowerFailure(steps[1..]);
      StaysUnlisted(Apply(s, steps[0]), steps[1..], t, w);
    }
  }

  /**
   However a write ends, from its cleanup on and until the power next fails its temporary is not in
   the directory.
   */
  lemma FailureLeavesNoTrace(s: State, w: nat, later: seq<Step>, t: State)
    requires Enabled(s, Cleanup(w)) && Leads(Apply(s, Cleanup(w)), later, t) && NoPowerFailure(later)
    ensures w < |t.writers| && t.writers[w].phase == Ended(s.writers[w].phase)
    ensures w !in t.temporaries
  {
    StaysUnlisted(Apply(s, Cleanup(w)), later, t, w);
  }

  /** A temporary that is listed, left over by a crash or not, has never been the destination. */
  lemma LeftoverIsNotTheDestination(steps: seq<Step>, s: State, before: Option<Bytes>, w: nat)
    requires Leads(Initial(before), steps, s) && w in s.temporaries
    ensures forall k :: 0 <= k < |s.history| ==> s.history[k] != Some(Temporary(w))
  {
    InitInv(before);
    RunsKeepInv(Initial(before), steps, s, before);
    assert NeverLinked(s, w, |s.history|);
  }

  lemma {:induction false} DurablyUnlisted(s: State, steps: seq<Step>, t: State, before: Option<Bytes>, w: nat)
    requires Inv(s, before) && Leads(s, steps, t)
    requires w < |s.writers| && s.writers[w].phase == Returned(true)
    ensures w < |t.writers| && t.writers[w].phase == Returned(true) && w !in t.temporaries && w !in t.listed
    decreases |steps|
  {
    assert WriterOk(s, w, s.writers[w]);
    if steps != [] {
      StepKeepsInv(s, steps[0], before);
      DurablyUnlisted(Apply(s, steps[0]), steps[1..], t, before, w);
    }
  }

  /** A write that returned after a working directory sync leaves no temporary, whatever fails later. */
  lemma DurableReturnLeavesNone(steps: seq<Step>, s: State, later: seq<Step>, t: State, before: Option<Bytes>, w: nat)
    requires Leads(Initial(before), steps, s) && Leads(s, later, t)
    requires w < |s.writers| && s.writers[w].phase == Returned(true)
    ensures w !in t.temporaries
  {
    InitInv(before);
    RunsKeepInv(Initial(before), steps, s, before);
    DurablyUnlisted(s, later, t, before, w);
  }

  /** A written, synced and still empty temporary that the kernel has meanwhile listed on disk. */
  ghost predicate FlushedTemporary(s: State) {
    && s.writers == [Writer([], Synced, 0)] && s.temporaries == {0} == s.listed && s.onDisk == 0 && |s.history| == 1
  }

  lemma FlushTemporary(before: Option<Bytes>) returns (steps: seq<Step>, s: State)
    ensures Leads(Initial(before), steps, s) && FlushedTemporary(s) && NoPowerFailure(steps)
  {
    var s0 := Initial(before);
    var s1 := Apply(s0, Begin([]));
    var s2 := Apply(s1, Open(0));
    var s3 := Apply(s2, FsyncFile(0));
    s := Apply(s3, WriteBack);
    OneMore(s0, [], s0, Begin([]));
    OneMore(s0, [] + [Begin([])], s1, Open(0));
    OneMore(s0, [] + [Begin([])] + [Open(0)], s2, FsyncFile(0));
    OneMore(s0, [] + [Begin([])] + [Open(0)] + [FsyncFile(0)], s3, WriteBack);
    steps := [] + [Begin([])] + [Open(0)] + [FsyncFile(0)] + [WriteBack];
  }

  /** A writer that ended this way has its temporary in the directory. */
  ghost predicate LeftBy(before: Option<Bytes>, end: Phase, steps: seq<Step>, s: State) {
    Leads(Initial(before), steps, s) && exists w :: 0 <= w < |s.writers| && s.writers[w].phase == end && w in s.temporaries
  }

  /** The calls that bring a writer with a synced temporary to this end. */
  function CallsTo(end: Phase): seq<Step> {
    match end
    case Returned(durable) => [Rename(0), FsyncDirectory(0, durable), Cleanup(0)]
    case RaisedLate => [Rename(0), FailLate(0), Cleanup(0)]
    case Raised => [Fail(0), Cleanup(0)]
    case _ => [Kill(0)]
  }

  /** After those calls the disk still lists the temporary, unless the directory was synced. */
  lemma EndsListed(s: State, end: Phase) returns (t: State)
    requires FlushedTemporary(s) && !Active(end) && end != Returned(true)
    ensures Leads(s, CallsTo(end), t) && |t.writers| == 1 && t.writers[0].phase == end && t.listed == {0} && t.onDisk < |t.history|
  {
    match end
    case Returned(_) => t := ThreeCalls(s, Rename(0), FsyncDirectory(0, false), Cleanup(0));
    case RaisedLate => t := ThreeCalls(s, Rename(0), FailLate(0), Cleanup(0));
    case Raised =>
      t := Apply(Apply(s, Fail(0)), Cleanup(0));
      assert Leads(t, CallsTo(end)[1..][1..], t) && Leads(Apply(s, Fail(0)), CallsTo(end)[1..], t);
    case Dead =>
      t := Apply(s, Kill(0));
      assert Leads(t, CallsTo(end)[1..], t);
  }

  lemma ThreeCalls(s: State, a: Step, b: Step, c: Step) returns (t: State)
    requires Enabled(s, a) && Enabled(Apply(s, a), b) && Enabled(Apply(Apply(s, a), b), c)
    ensures t == Apply(Apply(Apply(s, a), b), c) && Leads(s, [a, b, c], t)
  {
    t := Apply(Apply(Apply(s, a), b), c);
    assert [a, b, c][1..] == [b, c] && [b, c][1..] == [c] && [c][1..] == [];
    assert Leads(Apply(Apply(s, a), b), [c], t) && Leads(Apply(s, a), [b, c], t);
  }

  /** After any end but that one, a power failure can bring the temporary back. */
  lemma CrashLeavesTemporary(before: Option<Bytes>, end: Phase) returns (steps: seq<Step>, s: State)
    requires !Active(end) && end != Returned(true)
    ensures LeftBy(before, end, steps, s)
  {
    var first, u := FlushTemporary(before);
    var t := EndsListed(u, end);
    LeadsThen(Initial(before), first, u, CallsTo(end), t);
    OneMore(Initial(before), first + CallsTo(end), t, PowerFailure(map[]));
    steps, s := first + CallsTo(end) + [PowerFailure(map[])], Apply(t, PowerFailure(map[]));
    assert s.writers[0].phase == end && 0 in s.temporaries;
  }

  /** An unlink that raises, and a kill, leave it with no power failure at all. */
  lemma FailedUnlinkLeavesTemporary(before: Option<Bytes>, end: Phase) returns (steps: seq<Step>, s: State)
    requires end == Raised || end == Dead
    ensures LeftBy(before, end, steps, s) && NoPowerFailure(steps)
  {
    var first, u := FlushTemporary(before);
    if end.Dead? {
      OneMore(Initial(before), first, u, Kill(0));
      steps, s := first + [Kill(0)], Apply(u, Kill(0));
    } else {
      var failing := Apply(u, Fail(0));
      OneMore(Initial(before), first, u, Fail(0));
      OneMore(Initial(before), first + [Fail(0)], failing, CleanupFails(0));
      steps, s := first + [Fail(0)] + [CleanupFails(0)], Apply(failing, CleanupFails(0));
    }
    assert s.writers[0].phase == end && 0 in s.temporaries;
  }

  /** The writer has renamed its temporary away. */
  predicate PastRename(p: Phase) { p.Renamed? || p.Settling? || p.Disturbed? || p.Returned? || p.RaisedLate? }

  ghost predicate RenamedAway(s: State) {
    && (forall w :: w in s.temporaries ==> w < |s.writers|)
    && forall w :: 0 <= w < |s.writers| && PastRename(s.writers[w].phase) ==> w !in s.temporaries
  }

  lemma {:induction false} StaysRenamedAway(s: State, steps: seq<Step>, t: State)
    requires Leads(s, steps, t) && NoPowerFailure(steps) && RenamedAway(s)
    ensures RenamedAway(t)
    decreases |steps|
  {
    if steps != [] {
      assert !steps[0].PowerFailure? && NoPowerFailure(steps[1..]);
      StaysRenamedAway(Apply(s, steps[0]), steps[1..], t);
    }
  }

  /** So the ends that can leave a temporary are all but a return after a working directory sync. */
  lemma LeavesExactly(before: Option<Bytes>, end: Phase)
    requires !Active(end)
    ensures (exists steps, s :: LeftBy(before, end, steps, s)) <==> end != Returned(true)
  {
    if end != Returned(true) {
      var steps, s := CrashLeavesTemporary(before, end);
    } else {
      forall steps, s ensures !LeftBy(before, end, steps, s) {
        if w :| Leads(Initial(before), steps, s) && 0 <= w < |s.writers| && s.writers[w].phase == end && w in s.temporaries {
          assert Leads(s, [], s);
          DurableReturnLeavesNone(steps, s, [], s, before, w);
        }
      }
    }
  }

  /** And while the power stays on, they are the errors before the rename and the kills. */
  lemma LeavesExactlyWithPower(before: Option<Bytes>, end: Phase)
    requires !Active(end)
    ensures (exists steps, s :: LeftBy(before, end, steps, s) && NoPowerFailure(steps)) <==> end == Raised || end == Dead
  {
    if end == Raised || end == Dead {
      var steps, s := FailedUnlinkLeavesTemporary(before, end);
    } else {
      forall steps, s | LeftBy(before, end, steps, s) ensures !NoPowerFailure(steps) {
        if NoPowerFailure(steps) {
          StaysRenamedAway(Initial(before), steps, s);
        }
      }
    }
  }

  ghost predicate ListedAfter(s: State, later: seq<Step>, t: State, w: nat) { Leads(s, later, t) && w in t.temporaries }

  /** For one write that has ended, the directory on disk decides: its temporary can still be found exactly if that, or memory, lists it. */
  lemma FoundLaterExactly(s: State, w: nat)
    requires w < |s.writers| && !Active(s.writers[w].phase) && s.onDisk < |s.history|
    ensures (exists later, t :: ListedAfter(s, later, t, w)) <==> w in s.temporaries || w in s.listed
  {
    var none: seq<Step> := [];
    if w in s.temporaries {
      assert ListedAfter(s, none, s, w);
    } else if w in s.listed {
      var crash := PowerFailure(map[]);
      assert [crash][1..] == [];
      assert ListedAfter(s, [crash], Apply(s, crash), w);
    } else {
      forall later, t | Leads(s, later, t) ensures !ListedAfter(s, later, t, w) {
        NeverFound(s, later, t, w);
      }
    }
  }

  lemma {:induction false} NeverFound(s: State, steps: seq<Step>, t: State, w: nat)
    requires Leads(s, steps, t) && w < |s.writers| && !Active(s.writers[w].phase) && w !in s.temporaries && w !in s.listed
    ensures w !in t.temporaries
    decreases |steps|
  {
    if steps != [] {
      NeverFound(Apply(s, steps[0]), steps[1..], t, w);
    }
  }

  // ----- The function itself ------------------------------------------------------------------

  /** Which call of one write raises, if any; a directory that cannot be synced raises nothing. */
  datatype Fault = NoFault | OpenRaises | WriteRaises(after: nat) | FsyncRaises | RenameRaises | CloseRaises

  class Volume {
    ghost const before: Option<Bytes>
    var disk: State
    ghost var calls: seq<Step>

    /** The disk is where the calls made so far have brought it. */
    ghost predicate Traced()
      reads this
    {
      Leads(Initial(before), calls, disk)
    }

    constructor (before: Option<Bytes>)
      ensures this.before == before && disk == Initial(before) && Traced()
    {
      this.before, disk, calls := before, Initial(before), [];
    }

    /** One system call. */
    method Call(step: Step)
      requires Traced() && Enabled(disk, step)
      modifies this
      ensures Traced() && disk == Apply(old(disk), step) && calls == old(calls) + [step]
    {
      OneMore(Initial(before), calls, disk, step);
      disk := Apply(disk, step);
      calls := calls + [step];
    }
  }

  /** Where a write that nobody interferes with leaves the disk. */
  ghost predicate WrittenAlone(s: State, t: State, payload: Bytes, w: nat, directorySyncs: bool, returned: bool) {
    && t.history == s.history + [Some(Temporary(w))]
    && Found(t, Some(Temporary(w))) == Some(payload)
    && t.onDisk == (if directorySyncs then |s.history| else s.onDisk)
    && w < |t.writers| && t.writers[w].phase == (if returned then Returned(directorySyncs) else RaisedLate)
  }

  /** The `with` block: create the temporary, write it, flush it, fsync it. */
  method FillTemporary(volume: Volume, w: nat, payload: Bytes, fault: Fault) returns (ok: bool)
    requires volume.Traced() && Phases(volume.disk, w) == Some(Opening)
    requires volume.disk.writers[w].payload == payload && (fault.WriteRaises? ==> fault.after <= |payload|)
    modifies volume
    ensures volume.Traced() && old(volume.calls) <= volume.calls
    ensures ok <==> fault.NoFault? || fault.RenameRaises? || fault.CloseRaises?
    ensures volume.disk.history == old(volume.disk.history) && volume.disk.onDisk == old(volume.disk.onDisk)
    ensures volume.disk.temporaries == old(volume.disk.temporaries) + (if fault.OpenRaises? then {} else {w})
    ensures w < |volume.disk.writers| && volume.disk.writers[w].payload == payload
    ensures Phases(volume.disk, w) == Some(if ok then Synced else if fault.OpenRaises? then Opening else Filling)
    ensures ok ==> Temporary(w) in volume.disk.files && volume.disk.files[Temporary(w)] == payload
  {
    if fault.OpenRaises? {
      return false;
    }
    volume.Call(Open(w));
    var upTo := if fault.WriteRaises? then fault.after else |payload|;
    volume.Call(Write(w, upTo));
    if fault.WriteRaises? || fault.FsyncRaises? {
      return false;
    }
    volume.Call(FsyncFile(w));
    ok := true;
  }

  /** Whether the rename was reached and worked. */
  predicate Publishes(fault: Fault) { fault.NoFault? || fault.CloseRaises? }

  /** The rename and the directory sync. */
  method Publish(volume: Volume, w: nat, fault: Fault, directorySyncs: bool)
    requires volume.Traced() && Phases(volume.disk, w) == Some(Synced)
    modifies volume
    ensures volume.Traced() && old(volume.calls) <= volume.calls
    ensures volume.disk.history == old(volume.disk.history) + [Some(Temporary(w))]
    ensures volume.disk.onDisk == if directorySyncs then |old(volume.disk.history)| else old(volume.disk.onDisk)
    ensures volume.disk.files == old(volume.disk.files) && volume.disk.temporaries == old(volume.disk.temporaries) - {w}
    ensures Phases(volume.disk, w) == Some(if fault.CloseRaises? then Disturbed else Settling(directorySyncs))
  {
    volume.Call(Rename(w));
    volume.Call(FsyncDirectory(w, directorySyncs));
    if fault.CloseRaises? {
      volume.Call(FailLate(w));
    }
  }

  /** The `finally` clause. */
  method CleanUp(volume: Volume, w: nat, unlinkRaises: bool)
    requires volume.Traced() && w < |volume.disk.writers| && Ending(volume.disk.writers[w].phase)
    modifies volume
    ensures volume.Traced() && old(volume.calls) <= volume.calls
    ensures volume.disk.history == old(volume.disk.history) && volume.disk.onDisk == old(volume.disk.onDisk)
    ensures volume.disk.files == old(volume.disk.files)
    ensures volume.disk.temporaries == old(volume.disk.temporaries) - if unlinkRaises then {} else {w}
    ensures var phase := old(volume.disk.writers)[w].phase;
            Phases(volume.disk, w) ==
            Some(if !unlinkRaises then Ended(phase) else if phase.Failing? then Raised else RaisedLate)
  {
    if unlinkRaises {
      volume.Call(CleanupFails(w));
    } else {
      volume.Call(Cleanup(w));
    }
  }

  /**
   `atomic_write_bytes`: its calls are steps of the protocol above, so all of it applies to
   them. Without interference it puts the whole payload in place, on disk when the directory sync
   works, exactly when nothing up to the rename raised; otherwise the destination is untouched.
   A temporary is left only by an unlink that raises after an earlier failure.
   */
  method AtomicWriteBytes(volume: Volume, payload: Bytes, fault: Fault, directorySyncs: bool, unlinkRaises: bool) returns (ok: bool)
    requires volume.Traced()
    requires fault.WriteRaises? ==> fault.after <= |payload|
    modifies volume
    ensures volume.Traced() && old(volume.calls) <= volume.calls
    ensures ok <==> fault.NoFault? && !unlinkRaises
    ensures Publishes(fault) ==>
              WrittenAlone(old(volume.disk), volume.disk, payload, |old(volume.disk.writers)|, directorySyncs, ok)
    ensures !Publishes(fault) ==>
              volume.disk.history == old(volume.disk.history) && volume.disk.onDisk == old(volume.disk.onDisk)
    ensures volume.disk.temporaries ==
            old(volume.disk.temporaries) +
            if unlinkRaises && !Publishes(fault) && !fault.OpenRaises? then {|old(volume.disk.writers)|} else {}
  {
    var w := |volume.disk.writers|;
    TemporariesAreWriters(volume.before, volume.calls, volume.disk);
    volume.Call(Begin(payload));
    ok := FillTemporary(volume, w, payload, fault);
    if ok && !fault.RenameRaises? {
      Publish(volume, w, fault, directorySyncs);
    } else {
      volume.Call(Fail(w));
    }
    CleanUp(volume, w, unlinkRaises);
    ok := fault.NoFault? && !unlinkRaises;
  }

  lemma TemporariesAreWriters(before: Option<Bytes>, calls: seq<Step>, s: State)
    requires Leads(Initial(before), calls, s)
    ensures |s.writers| !in s.temporaries
  {
    InitInv(before);
    RunsKeepInv(Initial(before), calls, s, before);
  }
}
