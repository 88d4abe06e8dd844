/**
 Mixing labelled datasets: records are taken source by source, exact duplicates are dropped and
 conflicting ones refused. A digest stands for the content it is taken of.
 */
module Mix {
  import opened Wrappers
  import opened Order
  import opened Devices

  /** Questions and targets by name, each in its canonical form; no targets is an empty map. */
  datatype Record = Record(state: string, questions: map<string, string>, targets: map<string, string>,
                           labelStatus: string, labelSource: Option<string>)

  type Identity = (string, map<string, string>)

  type Content = (Identity, map<string, string>)

  function IdentityOf(r: Record): Identity { (r.state, r.questions) }

  function ContentOf(r: Record): Content { (IdentityOf(r), r.targets) }

  datatype Source = Source(name: string, records: seq<Record>, cap: Option<int>)

  datatype Tagged = Tagged(record: Record, source: string)

  /** One source's entry of the composition; entries are kept in source order. */
  datatype Counts = Counts(name: string, selected: nat, accepted: nat, dropped: nat)

  datatype Options = Options(allowUnlabeled: bool, allowConflicts: bool)

  // ----- validate_mix_record -----------------------------------------------------------------

  function LowerChar(c: char): char { if 'A' <= c <= 'Z' then (c as int + 32) as char else c }

  function Lower(s: string): string { if s == [] then [] else [LowerChar(s[0])] + Lower(s[1..]) }

  const UNTRUSTED := {"shadow_prediction", "shadow_model", "legacy_classifier", "legacy_router", "self_prediction", "model_prediction"}

  /** A record without targets passes only when that is allowed, and then whatever its metadata says. */
  predicate Admissible(r: Record, options: Options) {
    if |r.targets| == 0 then options.allowUnlabeled
    else
      && (Lower(Strip(r.labelStatus)) == "unlabeled" ==> options.allowUnlabeled)
      && (r.labelSource.Some? ==> Strip(r.labelSource.value) == "" || Lower(Strip(r.labelSource.value)) !in UNTRUSTED)
  }

  // ----- Selection under a cap -----------------------------------------------------------------

  /** The indices a seeded draw keeps: ascending, and as many as the cap. It depends on the source's name and size only. */
  type Draw = (string, nat, nat) -> seq<nat>

  ghost predicate ProperDraw(draw: Draw) {
    forall name: string, n: nat, cap: nat :: cap < n ==> ProperIndices(draw(name, n, cap), n, cap)
  }

  ghost predicate ProperIndices(indices: seq<nat>, n: nat, cap: nat) {
    && |indices| == cap
    && (forall i :: 0 <= i < cap ==> indices[i] < n)
    && (forall i, j :: 0 <= i < j < cap ==> indices[i] < indices[j])
  }

  predicate CapValid(s: Source) { s.cap.Some? ==> s.cap.value >= 1 }

  predicate Capped(s: Source) { s.cap.Some? && 1 <= s.cap.value < |s.records| }

  ghost predicate DrawFits(s: Source, draw: Draw) {
    Capped(s) ==> ProperIndices(draw(s.name, |s.records|, s.cap.value), |s.records|, s.cap.value)
  }

  function Selected(s: Source, draw: Draw): seq<Record>
    requires DrawFits(s, draw)
  {
    if !Capped(s) then s.records
    else
      var indices := draw(s.name, |s.records|, s.cap.value);
      seq(|indices|, i requires 0 <= i < |indices| => s.records[indices[i]])
  }

  ghost predicate AllFit(sources: seq<Source>, draw: Draw) { forall k :: 0 <= k < |sources| ==> DrawFits(sources[k], draw) }

  /** A source with its selection made. */
  datatype Batch = Batch(name: string, records: seq<Record>, capValid: bool)

  ghost function Batches(sources: seq<Source>, draw: Draw): (r: seq<Batch>)
    requires AllFit(sources, draw)
    ensures |r| == |sources|
  {
    seq(|sources|, k requires 0 <= k < |sources| => Batch(sources[k].name, Selected(sources[k], draw), CapValid(sources[k])))
  }

  /** Everything selected from the first `n` sources, in order. */
  function Pooled(batches: seq<Batch>, n: nat): seq<Record>
    requires n <= |batches|
  {
    if n == 0 then [] else Pooled(batches, n - 1) + batches[n - 1].records
  }

  // ----- When a mix succeeds -------------------------------------------------------------------

  ghost predicate Consistent(records: seq<Record>) {
    forall i, j :: 0 <= i < |records| && 0 <= j < |records| && IdentityOf(records[i]) == IdentityOf(records[j]) ==>
      ContentOf(records[i]) == ContentOf(records[j])
  }

  ghost predicate AllAdmissible(records: seq<Record>, options: Options) {
    forall i :: 0 <= i < |records| ==> Admissible(records[i], options)
  }

  ghost predicate NamesUnique(batches: seq<Batch>) {
    forall i, j :: 0 <= i < j < |batches| ==> batches[i].name != batches[j].name
  }

  /** What makes a list of records mixable, whatever its order. */
  ghost predicate Mixable(records: seq<Record>, options: Options) {
    records != [] && AllAdmissible(records, options) && (options.allowConflicts || Consistent(records))
  }

  ghost predicate Contains(records: seq<Record>, c: Content) { exists i :: 0 <= i < |records| && ContentOf(records[i]) == c }

  // ----- The loop's state ------------------------------------------------------------------

  datatype State = State(output: seq<Tagged>, seen: set<Content>, targets: map<Identity, Content>)

  /** The contents seen so far are those of the records so far. */
  ghost predicate SeenAre(st: State, records: seq<Record>) {
    forall c :: c in st.seen <==> Contains(records, c)
  }

  ghost predicate Holds(output: seq<Tagged>, c: Content) { exists k :: 0 <= k < |output| && ContentOf(output[k].record) == c }

  /** The output holds each content seen exactly once. */
  ghost predicate OutputOnce(st: State) {
    && (forall k :: 0 <= k < |st.output| ==> ContentOf(st.output[k].record) in st.seen)
    && (forall c :: c in st.seen ==> Holds(st.output, c))
    && (forall j, k :: 0 <= j < k < |st.output| ==> ContentOf(st.output[j].record) != ContentOf(st.output[k].record))
  }

  /** Each identity so far has a content, and one that was seen. */
  ghost predicate TargetsKnown(st: State, records: seq<Record>) {
    && (forall i :: 0 <= i < |records| ==> IdentityOf(records[i]) in st.targets)
    && (forall d :: d in st.targets ==> st.targets[d].0 == d && st.targets[d] in st.seen)
  }

  ghost predicate Reflects(st: State, records: seq<Record>, options: Options) {
    && SeenAre(st, records) && OutputOnce(st) && TargetsKnown(st, records)
    && AllAdmissible(records, options)
    && (!options.allowConflicts ==> Consistent(records))
  }

  function Start(): State { State([], {}, map[]) }

  lemma StartReflects(options: Options)
    ensures Reflects(Start(), [], options)
  {
  }

  /** One record joins the mix, is dropped as a duplicate, or stops it (`None`). */
  function Step(st: State, r: Record, source: string, options: Options): Option<State> {
    var identity, content := IdentityOf(r), ContentOf(r);
    if !Admissible(r, options) then None
    else if identity in st.targets && st.targets[identity] != content && !options.allowConflicts then None
    else if content in st.seen then Some(st)
    else
      Some(State(st.output + [Tagged(r, source)], st.seen + {content},
                 if identity in st.targets then st.targets else st.targets[identity := content]))
  }

  lemma ContainsSnoc(records: seq<Record>, r: Record, c: Content)
    ensures Contains(records + [r], c) <==> Contains(records, c) || ContentOf(r) == c
  {
    var more := records + [r];
    if Contains(records, c) {
      var i :| 0 <= i < |records| && ContentOf(records[i]) == c;
      assert more[i] == records[i];
    }
    if ContentOf(r) == c {
      assert more[|records|] == r;
    }
  }

  lemma ConsistentSnoc(records: seq<Record>, r: Record, known: Content)
    requires Consistent(records) && Contains(records, known) && known.0 == IdentityOf(r)
    ensures Consistent(records + [r]) <==> known == ContentOf(r)
  {
    var more := records + [r];
    var k :| 0 <= k < |records| && ContentOf(records[k]) == known;
    assert more[k] == records[k] && more[|records|] == r;
    if known == ContentOf(r) {
      forall i, j | 0 <= i < |more| && 0 <= j < |more| && IdentityOf(more[i]) == IdentityOf(more[j])
        ensures ContentOf(more[i]) == ContentOf(more[j])
      {
        assert i < |records| && IdentityOf(more[i]) == IdentityOf(r) ==> ContentOf(records[i]) == ContentOf(records[k]);
        assert j < |records| && IdentityOf(more[j]) == IdentityOf(r) ==> ContentOf(records[j]) == ContentOf(records[k]);
      }
    }
  }

  lemma NewIdentityConsistent(records: seq<Record>, r: Record)
    requires Consistent(records) && forall i :: 0 <= i < |records| ==> IdentityOf(records[i]) != IdentityOf(r)
    ensures Consistent(records + [r])
  {
  }

  lemma StepConsistent(st: State, records: seq<Record>, r: Record, source: string, options: Options)
    requires Reflects(st, records, options) && !options.allowConflicts && Admissible(r, options)
    ensures Step(st, r, source, options).Some? <==> Consistent(records + [r])
  {
    var identity := IdentityOf(r);
    if identity in st.targets {
      ConsistentSnoc(records, r, st.targets[identity]);
    } else {
      NewIdentityConsistent(records, r);
    }
  }

  lemma StepSeen(st: State, records: seq<Record>, r: Record, source: string, options: Options)
    requires SeenAre(st, records) && Step(st, r, source, options).Some?
    ensures SeenAre(Step(st, r, source, options).value, records + [r])
  {
    forall c ensures Contains(records + [r], c) <==> Contains(records, c) || ContentOf(r) == c {
      ContainsSnoc(records, r, c);
    }
  }

  lemma CoversSnoc(output: seq<Tagged>, t: Tagged, c: Content)
    ensures Holds(output + [t], c) <==> Holds(output, c) || ContentOf(t.record) == c
  {
    var more := output + [t];
    if Holds(output, c) {
      var k :| 0 <= k < |output| && ContentOf(output[k].record) == c;
      assert more[k] == output[k];
    }
    if ContentOf(t.record) == c {
      assert more[|output|] == t;
    }
  }

  lemma StepOutput(st: State, r: Record, source: string, options: Options)
    requires OutputOnce(st) && Step(st, r, source, options).Some?
    ensures OutputOnce(Step(st, r, source, options).value)
  {
    forall c ensures Holds(st.output + [Tagged(r, source)], c) <==> Holds(st.output, c) || ContentOf(r) == c {
      CoversSnoc(st.output, Tagged(r, source), c);
    }
  }

  lemma StepTargets(st: State, records: seq<Record>, r: Record, source: string, options: Options)
    requires TargetsKnown(st, records) && SeenAre(st, records) && Step(st, r, source, options).Some?
    ensures TargetsKnown(Step(st, r, source, options).value, records + [r])
  {
    if ContentOf(r) in st.seen {
      var i :| 0 <= i < |records| && ContentOf(records[i]) == ContentOf(r);
      assert IdentityOf(records[i]) == IdentityOf(r);
    }
  }

  /** A step succeeds exactly when the longer list is still admissible and consistent, and then reflects it. */
  lemma StepReflects(st: State, records: seq<Record>, r: Record, source: string, options: Options)
    requires Reflects(st, records, options)
    ensures Step(st, r, source, options).Some? <==>
            Admissible(r, options) && (options.allowConflicts || Consistent(records + [r]))
    ensures Step(st, r, source, options).Some? ==> Reflects(Step(st, r, source, options).value, records + [r], options)
  {
    if Admissible(r, options) && !options.allowConflicts {
      StepConsistent(st, records, r, source, options);
    }
    if Step(st, r, source, options).Some? {
      StepSeen(st, records, r, source, options);
      StepOutput(st, r, source, options);
      StepTargets(st, records, r, source, options);
    }
  }

  // ----- Mixing ----------------------------------------------------------------------------

  /** What a list of records must satisfy for the loop to get through it. */
  ghost predicate Acceptable(records: seq<Record>, options: Options) {
    AllAdmissible(records, options) && (options.allowConflicts || Consistent(records))
  }

  lemma PrefixAcceptable(records: seq<Record>, n: nat, options: Options)
    requires n <= |records|
    ensures Acceptable(records, options) ==> Acceptable(records[..n], options)
  {
  }

  /** The loop over one source's records; `None` once a record stops it. */
  function TakeAll(st: State, selected: seq<Record>, name: string, options: Options): Option<State> {
    if selected == [] then Some(st)
    else
      var before := TakeAll(st, selected[..|selected| - 1], name, options);
      if before.None? then None else Step(before.value, selected[|selected| - 1], name, options)
  }

  lemma StepExtends(st: State, r: Record, source: string, options: Options)
    requires Step(st, r, source, options).Some?
    ensures |st.output| <= |Step(st, r, source, options).value.output| <= |st.output| + 1
    ensures st.output <= Step(st, r, source, options).value.output
    ensures forall k :: |st.output| <= k < |Step(st, r, source, options).value.output| ==>
              Step(st, r, source, options).value.output[k] == Tagged(r, source)
  {
  }

  lemma {:induction false} TakeAllStops(st: State, selected: seq<Record>, n: nat, name: string, options: Options)
    requires n <= |selected| && TakeAll(st, selected[..n], name, options).None?
    ensures TakeAll(st, selected, name, options).None?
  {
    if n < |selected| {
      assert selected[..|selected| - 1][..n] == selected[..n];
      TakeAllStops(st, selected[..|selected| - 1], n, name, options);
    } else {
      assert selected[..n] == selected;
    }
  }

  /** The records selected from one source, on top of those before it, with its counts. */
  method AddSource(st: State, selected: seq<Record>, name: string, options: Options) returns (r: Option<(State, Counts)>)
    ensures r.Some? <==> TakeAll(st, selected, name, options).Some?
    ensures r.Some? ==>
              && r.value.0 == TakeAll(st, selected, name, options).value
              && r.value.1.name == name && r.value.1.selected == |selected| == r.value.1.accepted + r.value.1.dropped
              && |r.value.0.output| == |st.output| + r.value.1.accepted
  {
    var now := st;
    var accepted, dropped := 0, 0;
    for i := 0 to |selected|
      invariant TakeAll(st, selected[..i], name, options) == Some(now)
      invariant accepted + dropped == i && |now.output| == |st.output| + accepted
    {
      assert selected[..i + 1][..i] == selected[..i];
      var next := Step(now, selected[i], name, options);
      if next.None? {
        TakeAllStops(st, selected, i + 1, name, options);
        return None;
      }
      StepExtends(now, selected[i], name, options);
      if |next.value.output| == |now.output| {
        dropped := dropped + 1;
      } else {
        accepted := accepted + 1;
      }
      now := next.value;
    }
    assert selected[..|selected|] == selected;
    return Some((now, Counts(name, |selected|, accepted, dropped)));
  }

  /** The loop gets through a source exactly when everything up to its end is acceptable. */
  lemma {:induction false} TakeAllReflects(st: State, earlier: seq<Record>, selected: seq<Record>, name: string, options: Options)
    requires Reflects(st, earlier, options)
    ensures TakeAll(st, selected, name, options).Some? <==> Acceptable(earlier + selected, options)
    ensures TakeAll(st, selected, name, options).Some? ==>
              Reflects(TakeAll(st, selected, name, options).value, earlier + selected, options)
    decreases |selected|
  {
    if selected == [] {
      assert earlier + selected == earlier;
    } else {
      var n := |selected| - 1;
      TakeAllReflects(st, earlier, selected[..n], name, options);
      NextPrefix(earlier, selected, n, options);
      assert selected[..n + 1] == selected;
      PrefixAcceptable(earlier + selected, |earlier| + n, options);
      assert (earlier + selected)[..|earlier| + n] == earlier + selected[..n];
      if TakeAll(st, selected[..n], name, options).Some? {
        StepReflects(TakeAll(st, selected[..n], name, options).value, earlier + selected[..n], selected[n], name, options);
      }
    }
  }

  lemma NextPrefix(earlier: seq<Record>, selected: seq<Record>, i: nat, options: Options)
    requires i < |selected|
    ensures earlier + selected[..i + 1] == earlier + selected[..i] + [selected[i]]
    ensures Acceptable(earlier + selected, options) ==>
              Admissible(selected[i], options) && (options.allowConflicts || Consistent(earlier + selected[..i] + [selected[i]]))
  {
    var all := earlier + selected;
    assert all[..|earlier| + i + 1] == earlier + selected[..i] + [selected[i]];
    PrefixAcceptable(all, |earlier| + i + 1, options);
    assert all[|earlier| + i] == selected[i];
  }

  datatype Mixed = Mixed(records: seq<Tagged>, composition: seq<Counts>)

  /** Each content of `records` once, and nothing else. */
  ghost predicate KeepsOnce(output: seq<Tagged>, records: seq<Record>) {
    && (forall k :: 0 <= k < |output| ==> Contains(records, ContentOf(output[k].record)))
    && (forall c :: Contains(records, c) ==> Holds(output, c))
    && (forall j, k :: 0 <= j < k < |output| ==> ContentOf(output[j].record) != ContentOf(output[k].record))
  }

  ghost predicate IdentitiesUnique(output: seq<Tagged>) {
    forall j, k :: 0 <= j < k < |output| ==> IdentityOf(output[j].record) != IdentityOf(output[k].record)
  }

  lemma OutputKeepsOnce(st: State, records: seq<Record>, options: Options)
    requires Reflects(st, records, options)
    ensures KeepsOnce(st.output, records)
    ensures !options.allowConflicts ==> IdentitiesUnique(st.output)
  {
    if !options.allowConflicts {
      forall j, k | 0 <= j < k < |st.output| ensures IdentityOf(st.output[j].record) != IdentityOf(st.output[k].record) {
        assert Contains(records, ContentOf(st.output[j].record)) && Contains(records, ContentOf(st.output[k].record));
      }
    }
  }

  function AcceptedTotal(composition: seq<Counts>): nat {
    if composition == [] then 0 else AcceptedTotal(composition[..|composition| - 1]) + composition[|composition| - 1].accepted
  }

  lemma DrawsFit(sources: seq<Source>, draw: Draw)
    requires ProperDraw(draw)
    ensures AllFit(sources, draw)
  {
    forall k | 0 <= k < |sources| ensures DrawFits(sources[k], draw) {
      var s := sources[k];
      if Capped(s) {
        assert ProperIndices(draw(s.name, |s.records|, s.cap.value), |s.records|, s.cap.value);
      }
    }
  }

  /** A source's entry: its name, and what was selected is what was accepted or dropped. */
  predicate EntryFor(entry: Counts, batch: Batch) {
    entry.name == batch.name && entry.selected == |batch.records| == entry.accepted + entry.dropped
  }

  /** Every source's counts add up, and so do the sources'. */
  ghost predicate CountsAddUp(composition: seq<Counts>, batches: seq<Batch>, n: nat, total: nat)
    requires n <= |batches|
  {
    && |composition| == n
    && (forall k :: 0 <= k < n ==> EntryFor(composition[k], batches[k]))
    && AcceptedTotal(composition) == total
  }

  lemma AddCounts(composition: seq<Counts>, batches: seq<Batch>, n: nat, total: nat, entry: Counts)
    requires n < |batches| && CountsAddUp(composition, batches, n, total) && EntryFor(entry, batches[n])
    ensures CountsAddUp(composition + [entry], batches, n + 1, total + entry.accepted)
  {
    assert (composition + [entry])[..n] == composition;
  }

  predicate HasDuplicate(names: seq<string>) { exists i, j :: 0 <= i < j < |names| && names[i] == names[j] }

  function NamesOf(sources: seq<Source>): (r: seq<string>)
    ensures |r| == |sources|
  {
    seq(|sources|, i requires 0 <= i < |sources| => sources[i].name)
  }

  lemma NamesUniqueIff(sources: seq<Source>, batches: seq<Batch>)
    requires |batches| == |sources| && forall k :: 0 <= k < |sources| ==> batches[k].name == sources[k].name
    ensures NamesUnique(batches) <==> !HasDuplicate(NamesOf(sources))
  {
    var names := NamesOf(sources);
    assert forall i :: 0 <= i < |names| ==> names[i] == sources[i].name;
  }

  /** The loop over the first `n` sources. */
  function TakeSources(batches: seq<Batch>, options: Options, n: nat): Option<State>
    requires n <= |batches|
  {
    if n == 0 then Some(Start())
    else
      var before := TakeSources(batches, options, n - 1);
      if before.None? || !batches[n - 1].capValid then None
      else TakeAll(before.value, batches[n - 1].records, batches[n - 1].name, options)
  }

  lemma {:induction false} TakeSourcesStops(batches: seq<Batch>, options: Options, n: nat, m: nat)
    requires n <= m <= |batches| && TakeSources(batches, options, n).None?
    ensures TakeSources(batches, options, m).None?
  {
    if n < m {
      TakeSourcesStops(batches, options, n, m - 1);
    }
  }

  /** One source, after the ones before it. */
  method NextSource(st: State, source: Source, draw: Draw, options: Options, ghost batches: seq<Batch>, ghost n: nat)
    returns (r: Option<(State, Counts)>)
    requires n < |batches| && TakeSources(batches, options, n) == Some(st) && BatchOf(source, draw, batches[n])
    ensures r.None? ==> TakeSources(batches, options, n + 1).None?
    ensures r.Some? ==>
              && TakeSources(batches, options, n + 1) == Some(r.value.0)
              && EntryFor(r.value.1, batches[n]) && |r.value.0.output| == |st.output| + r.value.1.accepted
  {
    if !CapValid(source) {
      return None;
    }
    r := AddSource(st, Selected(source, draw), source.name, options);
  }

  ghost predicate BatchesOf(sources: seq<Source>, draw: Draw, batches: seq<Batch>) {
    && |batches| == |sources|
    && forall k :: 0 <= k < |sources| ==> BatchOf(sources[k], draw, batches[k])
  }

  ghost predicate BatchOf(source: Source, draw: Draw, batch: Batch) {
    DrawFits(source, draw) && batch == Batch(source.name, Selected(source, draw), CapValid(source))
  }

  method MixSources(sources: seq<Source>, draw: Draw, options: Options, ghost batches: seq<Batch>)
    returns (r: Option<(State, seq<Counts>)>)
    requires BatchesOf(sources, draw, batches)
    ensures r.Some? <==> TakeSources(batches, options, |batches|).Some?
    ensures r.Some? ==> r.value.0 == TakeSources(batches, options, |batches|).value
    ensures r.Some? ==> CountsAddUp(r.value.1, batches, |batches|, |r.value.0.output|)
  {
    var st := Start();
    var composition: seq<Counts> := [];
    for n := 0 to |sources|
      invariant TakeSources(batches, options, n) == Some(st)
      invariant CountsAddUp(composition, batches, n, |st.output|)
    {
      assert BatchOf(sources[n], draw, batches[n]);
      var added := NextSource(st, sources[n], draw, options, batches, n);
      if added.None? {
        TakeSourcesStops(batches, options, n + 1, |batches|);
        return None;
      }
      AddCounts(composition, batches, n, |st.output|, added.value.1);
      st := added.value.0;
      composition := composition + [added.value.1];
    }
    return Some((st, composition));
  }

  ghost predicate CapsValid(batches: seq<Batch>, n: nat)
    requires n <= |batches|
  {
    forall k :: 0 <= k < n ==> batches[k].capValid
  }

  lemma SourceStep(before: Option<State>, after: Option<State>, earlier: seq<Record>, selected: seq<Record>, name: string,
                   earlierValid: bool, valid: bool, options: Options)
    requires before.Some? <==> Acceptable(earlier, options) && earlierValid
    requires before.Some? ==> Reflects(before.value, earlier, options)
    requires after == if before.None? || !valid then None else TakeAll(before.value, selected, name, options)
    ensures after.Some? <==> Acceptable(earlier + selected, options) && earlierValid && valid
    ensures after.Some? ==> Reflects(after.value, earlier + selected, options)
  {
    assert (earlier + selected)[..|earlier|] == earlier;
    PrefixAcceptable(earlier + selected, |earlier|, options);
    if before.Some? {
      TakeAllReflects(before.value, earlier, selected, name, options);
    }
  }

  /** The loop succeeds exactly for valid caps and acceptable records, and then reflects all of them. */
  lemma {:induction false} TakeSourcesReflects(batches: seq<Batch>, options: Options, n: nat)
    requires n <= |batches|
    ensures TakeSources(batches, options, n).Some? <==> Acceptable(Pooled(batches, n), options) && CapsValid(batches, n)
    ensures TakeSources(batches, options, n).Some? ==> Reflects(TakeSources(batches, options, n).value, Pooled(batches, n), options)
  {
    if n == 0 {
      StartReflects(options);
    } else {
      var batch := batches[n - 1];
      TakeSourcesReflects(batches, options, n - 1);
      SourceStep(TakeSources(batches, options, n - 1), TakeSources(batches, options, n),
                 Pooled(batches, n - 1), batch.records, batch.name, CapsValid(batches, n - 1), batch.capValid, options);
      assert CapsValid(batches, n) <==> CapsValid(batches, n - 1) && batch.capValid;
    }
  }

  /** The declarative condition for a mix to succeed. */
  ghost predicate CanMix(batches: seq<Batch>, options: Options) {
    NamesUnique(batches) && CapsValid(batches, |batches|) && Mixable(Pooled(batches, |batches|), options)
  }

  /** A mix succeeds exactly for mixable sources, keeps each selected content once, and accounts for every record. */
  ghost predicate IsMixOf(r: Option<Mixed>, sources: seq<Source>, draw: Draw, options: Options)
    requires AllFit(sources, draw)
  {
    && (r.Some? <==> CanMix(Batches(sources, draw), options))
    && (r.Some? ==>
          && KeepsOnce(r.value.records, Pooled(Batches(sources, draw), |sources|))
          && (!options.allowConflicts ==> IdentitiesUnique(r.value.records))
          && CountsAddUp(r.value.composition, Batches(sources, draw), |sources|, |r.value.records|)
          && ShuffleOf(r.value.records, TakeSources(Batches(sources, draw), options, |sources|)))
  }

  /** The records are those that were taken, in another order. */
  predicate ShuffleOf(records: seq<Tagged>, taken: Option<State>) { taken.Some? && multiset(records) == multiset(taken.value.output) }

  /**
   `mix_records`: it succeeds exactly for well-named, well-capped sources whose selected records are
   mixable, and then keeps each selected content once, whatever the final shuffle does.
   */
  method MixRecords(sources: seq<Source>, draw: Draw, shuffle: seq<Tagged> -> seq<Tagged>, options: Options)
    returns (r: Option<Mixed>)
    requires ProperDraw(draw) && forall s :: multiset(shuffle(s)) == multiset(s)
    ensures AllFit(sources, draw) && IsMixOf(r, sources, draw, options)
  {
    DrawsFit(sources, draw);
    ghost var batches := Batches(sources, draw);
    NamesUniqueIff(sources, batches);
    if sources == [] || HasDuplicate(NamesOf(sources)) {
      return None;
    }
    var loop := MixSources(sources, draw, options, batches);
    TakeSourcesReflects(batches, options, |sources|);
    if loop.None? {
      return None;
    }
    var output := loop.value.0.output;
    MixedIffNonempty(loop.value.0, Pooled(batches, |sources|), options);
    if output == [] {
      return None;
    }
    var mixed := shuffle(output);
    ShuffledKeeps(output, mixed, Pooled(batches, |sources|));
    return Some(Mixed(mixed, loop.value.1));
  }

  lemma MixedIffNonempty(st: State, records: seq<Record>, options: Options)
    requires Reflects(st, records, options)
    ensures KeepsOnce(st.output, records)
    ensures !options.allowConflicts ==> IdentitiesUnique(st.output)
    ensures Mixable(records, options) <==> st.output != []
  {
    OutputKeepsOnce(st, records, options);
    EmptyMix(st, records, options);
  }

  lemma EmptyMix(st: State, records: seq<Record>, options: Options)
    requires Reflects(st, records, options)
    ensures st.output == [] <==> records == []
  {
    if records != [] {
      assert Contains(records, ContentOf(records[0]));
    }
    if st.output != [] {
      assert ContentOf(st.output[0].record) in st.seen;
    }
  }

  lemma ShuffledKeeps(output: seq<Tagged>, mixed: seq<Tagged>, records: seq<Record>)
    requires KeepsOnce(output, records) && multiset(mixed) == multiset(output)
    ensures KeepsOnce(mixed, records) && |mixed| == |output|
    ensures IdentitiesUnique(output) ==> IdentitiesUnique(mixed)
  {
    assert |multiset(mixed)| == |mixed| && |multiset(output)| == |output|;
    forall k | 0 <= k < |mixed| ensures mixed[k] in output {
      assert mixed[k] in multiset(mixed);
    }
    forall k | 0 <= k < |output| ensures output[k] in mixed {
      assert output[k] in multiset(output);
    }
    RearrangedDistinct(output, mixed);
  }

  // ----- The order of the sources --------------------------------------------------------------

  ghost predicate PooledFrom(batches: seq<Batch>, r: Record) {
    exists batch :: batch in batches && r in batch.records
  }

  lemma {:induction false} PooledMembers(batches: seq<Batch>, n: nat, r: Record)
    requires n <= |batches|
    ensures r in Pooled(batches, n) <==> PooledFrom(batches[..n], r)
  {
    if n > 0 {
      PooledMembers(batches, n - 1, r);
      assert batches[..n] == batches[..n - 1] + [batches[n - 1]];
      if PooledFrom(batches[..n - 1], r) {
        var batch :| batch in batches[..n - 1] && r in batch.records;
        assert batch in batches[..n];
      }
      if r in batches[n - 1].records {
        assert batches[n - 1] in batches[..n];
      }
    }
  }

  lemma SamePool(a: seq<Batch>, b: seq<Batch>)
    requires multiset(a) == multiset(b)
    ensures forall r :: r in Pooled(a, |a|) <==> r in Pooled(b, |b|)
  {
    assert a[..|a|] == a && b[..|b|] == b;
    forall r ensures r in Pooled(a, |a|) <==> r in Pooled(b, |b|) {
      PooledMembers(a, |a|, r);
      PooledMembers(b, |b|, r);
      forall batch ensures batch in a <==> batch in b {
        assert batch in multiset(a) <==> batch in multiset(b);
      }
    }
  }

  lemma SameNames(a: seq<Batch>, b: seq<Batch>)
    requires multiset(a) == multiset(b) && NamesUnique(a)
    ensures NamesUnique(b)
  {
    RearrangedDistinct(a, b);
    forall i, j | 0 <= i < j < |b| ensures b[i].name != b[j].name {
      assert b[i] in multiset(b) && b[j] in multiset(b);
      assert b[i] in a && b[j] in a;
    }
  }

  lemma SameCaps(a: seq<Batch>, b: seq<Batch>)
    requires multiset(a) == multiset(b) && CapsValid(a, |a|)
    ensures CapsValid(b, |b|)
  {
    forall k | 0 <= k < |b| ensures b[k].capValid {
      assert b[k] in multiset(b);
      assert b[k] in a;
    }
  }

  lemma SameMixable(a: seq<Record>, b: seq<Record>, options: Options)
    requires (forall r :: r in a <==> r in b) && Mixable(a, options)
    ensures Mixable(b, options)
  {
    assert a[0] in b;
    assert forall i :: 0 <= i < |b| ==> b[i] in a;
  }

  lemma SameContents(a: seq<Record>, b: seq<Record>)
    requires forall r :: r in a ==> r in b
    ensures forall c :: Contains(a, c) ==> Contains(b, c)
  {
    forall c | Contains(a, c) ensures Contains(b, c) {
      var i :| 0 <= i < |a| && ContentOf(a[i]) == c;
      assert a[i] in b;
    }
  }

  lemma MixableEitherWay(a: seq<Batch>, b: seq<Batch>, options: Options)
    requires multiset(a) == multiset(b) && CanMix(a, options)
    ensures CanMix(b, options)
  {
    SamePool(a, b);
    SameNames(a, b);
    SameCaps(a, b);
    SameMixable(Pooled(a, |a|), Pooled(b, |b|), options);
  }

  ghost predicate KeepTheSame(a: seq<Batch>, b: seq<Batch>) {
    forall c :: Contains(Pooled(a, |a|), c) <==> Contains(Pooled(b, |b|), c)
  }

  lemma SameKept(a: seq<Batch>, b: seq<Batch>)
    requires multiset(a) == multiset(b)
    ensures KeepTheSame(a, b)
  {
    SamePool(a, b);
    SameContents(Pooled(a, |a|), Pooled(b, |b|));
    SameContents(Pooled(b, |b|), Pooled(a, |a|));
  }

  lemma MixableIff(a: seq<Batch>, b: seq<Batch>, options: Options)
    requires multiset(a) == multiset(b)
    ensures CanMix(a, options) <==> CanMix(b, options)
  {
    if CanMix(a, options) {
      MixableEitherWay(a, b, options);
    } else if CanMix(b, options) {
      MixableEitherWay(b, a, options);
    }
  }

  /** Neither success nor the set of contents kept depends on the order of the sources. */
  lemma SourceOrderIrrelevant(a: seq<Batch>, b: seq<Batch>, options: Options)
    requires multiset(a) == multiset(b)
    ensures CanMix(a, options) <==> CanMix(b, options)
    ensures KeepTheSame(a, b)
  {
    MixableIff(a, b, options);
    SameKept(a, b);
  }

  ghost function Selection(draw: Draw): Source -> Batch {
    (s: Source) => Batch(s.name, if DrawFits(s, draw) then Selected(s, draw) else [], CapValid(s))
  }

  /** Listing the sources in another order lists their selections in another order. */
  lemma BatchesRearranged(a: seq<Source>, b: seq<Source>, draw: Draw)
    requires AllFit(a, draw) && AllFit(b, draw) && multiset(a) == multiset(b)
    ensures multiset(Batches(a, draw)) == multiset(Batches(b, draw))
  {
    assert Batches(a, draw) == Map(Selection(draw), a) && Batches(b, draw) == Map(Selection(draw), b);
    MapRearranged(Selection(draw), a, b);
  }

  /** Of two mixes of the same sources in different orders both succeed or neither does, and they keep the same contents. */
  lemma MixOrderIrrelevant(a: seq<Source>, b: seq<Source>, draw: Draw, options: Options, x: Option<Mixed>, y: Option<Mixed>)
    requires multiset(a) == multiset(b) && AllFit(a, draw) && AllFit(b, draw)
    requires IsMixOf(x, a, draw, options) && IsMixOf(y, b, draw, options)
    ensures x.Some? <==> y.Some?
    ensures x.Some? ==> |x.value.records| == |y.value.records|
    ensures x.Some? ==> forall c :: Holds(x.value.records, c) <==> Holds(y.value.records, c)
  {
    BatchesRearranged(a, b, draw);
    SourceOrderIrrelevant(Batches(a, draw), Batches(b, draw), options);
    SameSize(a, b);
    if x.Some? {
      KeptAlike(x.value.records, y.value.records, Pooled(Batches(a, draw), |a|), Pooled(Batches(b, draw), |b|));
    }
  }

  lemma KeptAlike(x: seq<Tagged>, y: seq<Tagged>, p: seq<Record>, q: seq<Record>)
    requires KeepsOnce(x, p) && KeepsOnce(y, q) && forall c :: Contains(p, c) <==> Contains(q, c)
    ensures |x| == |y| && forall c :: Holds(x, c) <==> Holds(y, c)
  {
    forall c ensures Holds(x, c) <==> Holds(y, c) {
      assert Holds(x, c) <==> Contains(p, c);
      assert Holds(y, c) <==> Contains(q, c);
    }
    ContentCount(x);
    ContentCount(y);
    assert ContentSet(x) == ContentSet(y) by {
      forall c: Content ensures c in ContentSet(x) <==> c in ContentSet(y) {
        assert c in ContentSet(x) <==> Holds(x, c);
        assert c in ContentSet(y) <==> Holds(y, c);
      }
    }
  }

  function ContentSet(x: seq<Tagged>): set<Content> {
    set k | 0 <= k < |x| :: ContentOf(x[k].record)
  }

  lemma {:induction false} ContentCount(x: seq<Tagged>)
    requires forall j, k :: 0 <= j < k < |x| ==> ContentOf(x[j].record) != ContentOf(x[k].record)
    ensures |ContentSet(x)| == |x|
  {
    if x != [] {
      var n := |x| - 1;
      ContentCount(x[..n]);
      assert ContentSet(x) == ContentSet(x[..n]) + {ContentOf(x[n].record)};
    }
  }
}
