/**
 The capture path end to end: a record's questions go out on a command line and come back as
 the groups of a frame, with option slices that tile the frame's option axis.
 */
module BridgeCapture {
  import opened Wrappers
  import opened Utf8
  import opened Json
  import opened FrameFormat
  import opened FrameStream
  import opened BridgeWriter
  import opened BridgeFrame
  import opened BridgeCommand

  // ----- validate_frame ------------------------------------------------------------------

  function TapCount(p: Provider): nat { |p.layerTaps| + if p.includeFinalPrenorm then 1 else 0 }

  predicate GroupsAsk(groups: seq<Group>, asks: seq<Ask>) {
    && |groups| == |asks|
    && forall k :: 0 <= k < |asks| ==>
         (groups[k].name == asks[k].name && groups[k].kind == asks[k].kind && groups[k].options == asks[k].options)
  }

  /** The frame is the provider's, and its groups are the record's questions in order. */
  predicate FrameMatches(f: Frame, p: Provider, asks: seq<Ask>) {
    && FrameValid(f)
    && f.provider == PROVIDER && f.modelSha256 == p.modelSha256 && f.runtimeRevision == p.runtimeRevision
    && f.promptContract == PROMPT_CONTRACT
    && f.stateTaps.shape[3] == p.hiddenSize && f.stateTaps.shape[1] == TapCount(p)
    && GroupsAsk(f.groups, asks)
  }

  method ValidateFrame(f: Frame, p: Provider, asks: seq<Ask>) returns (ok: bool)
    ensures ok <==> FrameMatches(f, p, asks)
  {
    if !FrameValid(f) {
      return false;
    }
    if f.provider != PROVIDER || f.modelSha256 != p.modelSha256 || f.runtimeRevision != p.runtimeRevision ||
       f.promptContract != PROMPT_CONTRACT || f.stateTaps.shape[3] != p.hiddenSize || f.stateTaps.shape[1] != TapCount(p) {
      return false;
    }
    var expected: seq<(string, string, seq<string>)> := [];
    for k := 0 to |asks|
      invariant |expected| == k
      invariant forall i :: 0 <= i < k ==> expected[i] == (asks[i].name, asks[i].kind, asks[i].options)
    {
      expected := expected + [(asks[k].name, asks[k].kind, asks[k].options)];
    }
    var actual := seq(|f.groups|, i requires 0 <= i < |f.groups| => (f.groups[i].name, f.groups[i].kind, f.groups[i].options));
    ok := actual == expected;
    if ok {
      forall k | 0 <= k < |asks|
        ensures f.groups[k].name == asks[k].name && f.groups[k].kind == asks[k].kind && f.groups[k].options == asks[k].options
      {
        assert actual[k] == expected[k];
      }
    }
  }

  // ----- Slices ----------------------------------------------------------------------------

  /** Consecutive non-empty slices from 0 to `total`, as wide as the options they hold. */
  ghost predicate Tiles(groups: seq<Group>, total: nat) {
    && groups != [] && groups[0].optionStart == 0 && groups[|groups| - 1].optionEnd == total
    && (forall k :: 0 <= k < |groups| ==> groups[k].optionEnd - groups[k].optionStart == |groups[k].options| > 0)
    && (forall k :: 0 <= k < |groups| - 1 ==> groups[k + 1].optionStart == groups[k].optionEnd)
  }

  lemma {:induction false} LabelCountMonotone(questions: seq<Question>, k: nat)
    requires k <= |questions|
    ensures LabelCount(questions[..k]) <= LabelCount(questions)
  {
    if k > 0 {
      assert questions[..k][1..] == questions[1..][..k - 1];
      LabelCountMonotone(questions[1..], k - 1);
    }
  }

  lemma {:induction false} GroupsTile(questions: seq<Question>)
    requires questions != [] && forall k :: 0 <= k < |questions| ==> questions[k].labels != []
    ensures Tiles(GroupsFrom(questions, 0), LabelCount(questions))
  {
    var groups := GroupsFrom(questions, 0);
    forall k | 0 <= k < |groups|
      ensures groups[k].optionEnd - groups[k].optionStart == |groups[k].options| > 0
      ensures groups[k].optionStart == LabelCount(questions[..k]) && groups[k].optionEnd == LabelCount(questions[..k + 1])
    {
      GroupAt(questions, k);
    }
    assert questions[..0] == [] && questions[..|questions|] == questions;
  }

  /** No option belongs to two groups, and none to no group. */
  lemma EachOptionInOneGroup(groups: seq<Group>, total: nat, o: nat) returns (k: nat)
    requires Tiles(groups, total) && o < total
    ensures k < |groups| && groups[k].optionStart <= o < groups[k].optionEnd
    ensures forall j :: 0 <= j < |groups| && groups[j].optionStart <= o < groups[j].optionEnd ==> j == k
  {
    k := 0;
    while o >= groups[k].optionEnd
      invariant k < |groups| && groups[k].optionStart <= o
      invariant forall j :: 0 <= j < k ==> groups[j].optionEnd <= groups[k].optionStart
    {
      assert k < |groups| - 1;
      k := k + 1;
    }
    forall j | k < j < |groups| ensures groups[j].optionStart >= groups[k].optionEnd {
      LaterGroup(groups, total, k, j);
    }
  }

  lemma {:induction false} LaterGroup(groups: seq<Group>, total: nat, k: nat, j: nat)
    requires Tiles(groups, total) && k < j < |groups|
    ensures groups[j].optionStart >= groups[k].optionEnd
  {
    if j > k + 1 {
      LaterGroup(groups, total, k, j - 1);
    }
  }

  // ----- End to end ------------------------------------------------------------------------

  lemma ExpectedGroups(p: Provider, root: string, asks: seq<Ask>)
    requires RecordReady(asks)
    ensures GroupsAsk(GroupsFrom(QuestionsFrom(root, asks, 0), 0), asks)
    ensures forall k :: 0 <= k < |asks| ==> QuestionsFrom(root, asks, 0)[k].labels != []
  {
    var questions := QuestionsFrom(root, asks, 0);
    forall k | 0 <= k < |asks|
      ensures questions[k].labels != []
      ensures var g := GroupsFrom(questions, 0)[k];
              g.name == asks[k].name && g.kind == asks[k].kind && g.options == asks[k].options
    {
      QuestionAt(root, asks, 0, k);
      GroupAt(questions, k);
    }
  }

  lemma NativeGroupsValid(questions: seq<Question>, total: nat)
    requires questions != [] && total == LabelCount(questions)
    requires forall k :: 0 <= k < |questions| ==> questions[k].labels != [] && questions[k].name != []
    ensures GroupsValid(GroupsFrom(questions, 0), 1, total)
  {
    forall k | 0 <= k < |questions| ensures GroupValid(GroupsFrom(questions, 0)[k], 1, total) {
      GroupAt(questions, k);
      LabelCountMonotone(questions, k + 1);
    }
  }

  /**
   What the bridge's main loop hands to `write_frame`: one block per tap asked for and one for the pre-norm state,
   one pooled row per label.
   */
  ghost predicate CapturedFor(args: Args, state: Prompt, options: Pooled) {
    && Captured(args, state, options) && OptionsSized(args, |state.taps|, options)
    && |state.taps| == (if args.finalPrenorm then |args.taps| + 1 else |args.taps|) && |options| == LabelCount(args.questions)
  }

  lemma NativeFrameMatches(p: Provider, stateFile: string, root: string, asks: seq<Ask>, output: string, state: Prompt, options: Pooled)
    requires ProviderReady(p) && RecordReady(asks) && Transmittable(p, asks)
    requires CapturedFor(ExpectedArgs(p, stateFile, root, asks, output), state, options)
    ensures FrameMatches(NativeFrame(ExpectedArgs(p, stateFile, root, asks, output), state, options), p, asks)
    ensures Tiles(NativeFrame(ExpectedArgs(p, stateFile, root, asks, output), state, options).groups, |options|)
  {
    var args := ExpectedArgs(p, stateFile, root, asks, output);
    ExpectedGroups(p, root, asks);
    forall k | 0 <= k < |asks| ensures args.questions[k].name != [] {
      QuestionAt(root, asks, 0, k);
    }
    NativeGroupsValid(args.questions, |options|);
    GroupsTile(args.questions);
  }

  /**
   From record to frame and back: what the bridge writes for a transmittable record is read back
   as its frame, passes the provider's validation, names the record's questions, types and options
   in order, and tiles the option axis - as long as the header fits the reader's limit; a longer
   one is refused.
   */
  lemma CaptureRoundTrip(p: Provider, stateFile: string, root: string, asks: seq<Ask>, output: string,
                         state: Prompt, options: Pooled, rest: seq<Byte>)
    requires ProviderReady(p) && RecordReady(asks) && Transmittable(p, asks)
    requires stateFile != [] && output != [] && NoNul(stateFile) && NoNul(root) && NoNul(output)
    requires var args := ExpectedArgs(p, stateFile, root, asks, output);
             CapturedFor(args, state, options) && Writable(args, state, options)
    ensures var args := ExpectedArgs(p, stateFile, root, asks, output);
            var file := Framed(HeaderOnDisk(args, state, options), Payload(NativeFrame(args, state, options)));
            && LaunchOf(Command(p, stateFile, FilesFrom(root, asks, 0), output)) == Ran(Parsed(args))
            && ReadFrame(file + rest) == (if |HeaderOnDisk(args, state, options)| <= HEADER_LIMIT
                                          then Ok((NativeFrame(args, state, options), rest)) else Err(Malformed))
            && FrameMatches(NativeFrame(args, state, options), p, asks)
            && Tiles(NativeFrame(args, state, options).groups, |options|)
  {
    var args := ExpectedArgs(p, stateFile, root, asks, output);
    LaunchKeepsRecord(p, stateFile, root, asks, output);
    NativeFrameMatches(p, stateFile, root, asks, output, state, options);
    NativeFrameTyped(args, state, options);
    HeaderAgrees(args, state, options);
    WriteThenRead(Bridge, FLOAT32, FLOAT_BYTES, NativeFrame(args, state, options), rest);
  }
}
