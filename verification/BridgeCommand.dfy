/**
 The bridge's command line: printed argument by argument in Python, parsed flag by flag in C++.
 A record's questions survive the trip exactly when every piece fits an argument.
 */
module BridgeCommand {
  import opened Wrappers
  import opened Order
  import opened Leases
  import opened Devices
  import opened Json
  import opened BridgeWriter

  const INT_MIN := -0x8000_0000
  const INT_MAX := 0x7fff_ffff

  predicate IsInt32(n: int) { INT_MIN <= n <= INT_MAX }

  // ----- parse_int --------------------------------------------------------------------------

  /** `std::stol` with every character used and the value within `int`. */
  function ParseInt(s: string): (r: Option<int>)
    ensures r.Some? ==> IsInt32(r.value)
  {
    var t := TrimLeft(s);
    var negative := t != [] && t[0] == '-';
    var digits := if negative || (t != [] && t[0] == '+') then t[1..] else t;
    if !AllDigits(digits) then None
    else
      var n := if negative then Negated(DecimalValue(digits)) else DecimalValue(digits);
      if IsInt32(n) then Some(n) else None
  }

  lemma {:induction false} ValueOfDecimal(n: nat)
    ensures AllDigits(Decimal(n)) && DecimalValue(Decimal(n)) == n
  {
    if n >= 10 {
      ValueOfDecimal(n / 10);
      assert Decimal(n)[..|Decimal(n)| - 1] == Decimal(n / 10);
    } else {
      assert Decimal(n)[..0] == [];
      assert DecimalValue([]) == 0;
    }
  }

  lemma ParseDigits(digits: string)
    requires AllDigits(digits)
    ensures ParseInt(digits) == if IsInt32(DecimalValue(digits)) then Some(DecimalValue(digits)) else None
    ensures ParseInt(['-'] + digits) ==
            if IsInt32(Negated(DecimalValue(digits))) then Some(Negated(DecimalValue(digits))) else None
  {
    assert IsDigit(digits[0]);
    assert (['-'] + digits)[1..] == digits;
  }

  /** An integer Python printed is parsed back, unless it does not fit. */
  lemma PrintedInt(n: int)
    ensures ParseInt(PrintInt(n)) == if IsInt32(n) then Some(n) else None
  {
    var magnitude := if n < 0 then -n else n;
    ValueOfDecimal(magnitude);
    ParseDigits(Decimal(magnitude));
  }

  // ----- parse_args -----------------------------------------------------------------------

  datatype Flag =
    | ModelFlag | ShaFlag | RevisionFlag | StateFlag | OutputFlag
    | HiddenFlag | LayersFlag | CtxFlag | GpuFlag | TapFlag
    | PrenormFlag | QuestionFlag | OptionFlag | HelpFlag | UnknownFlag

  function Spelling(f: Flag): string {
    match f
    case ModelFlag => "--model"
    case ShaFlag => "--model-sha256"
    case RevisionFlag => "--runtime-revision"
    case StateFlag => "--state-file"
    case OutputFlag => "--output"
    case HiddenFlag => "--hidden-size"
    case LayersFlag => "--num-layers"
    case CtxFlag => "--ctx"
    case GpuFlag => "--gpu-layers"
    case TapFlag => "--tap"
    case PrenormFlag => "--final-prenorm"
    case QuestionFlag => "--question"
    case OptionFlag => "--option"
    case HelpFlag => "--help"
    case UnknownFlag => ""
  }

  /** The flags in the order `parse_args` compares them. */
  const FLAGS := [ModelFlag, ShaFlag, RevisionFlag, StateFlag, OutputFlag, HiddenFlag, LayersFlag, CtxFlag, GpuFlag,
                  TapFlag, PrenormFlag, QuestionFlag, OptionFlag, HelpFlag]

  function FindFlag(s: string, flags: seq<Flag>): Flag {
    if flags == [] then UnknownFlag else if s == Spelling(flags[0]) then flags[0] else FindFlag(s, flags[1..])
  }

  function FlagOf(s: string): Flag {
    if s == ['-', 'h'] then HelpFlag else FindFlag(s, FLAGS)
  }

  lemma SpellingsDiffer(f: Flag, g: Flag)
    requires f != g
    ensures Spelling(f) != Spelling(g) && Spelling(f) != ['-', 'h']
  {
  }

  lemma {:induction false} FindSpelled(f: Flag, flags: seq<Flag>)
    requires f in flags
    ensures FindFlag(Spelling(f), flags) == f
  {
    if f != flags[0] {
      SpellingsDiffer(f, flags[0]);
      FindSpelled(f, flags[1..]);
    }
  }

  lemma FlagSpelled(f: Flag)
    requires !f.UnknownFlag?
    ensures FlagOf(Spelling(f)) == f
  {
    SpellingsDiffer(f, UnknownFlag);
    assert FLAGS[0] == ModelFlag && FLAGS[1] == ShaFlag && FLAGS[2] == RevisionFlag && FLAGS[3] == StateFlag;
    assert FLAGS[4] == OutputFlag && FLAGS[5] == HiddenFlag && FLAGS[6] == LayersFlag && FLAGS[7] == CtxFlag;
    assert FLAGS[8] == GpuFlag && FLAGS[9] == TapFlag && FLAGS[10] == PrenormFlag && FLAGS[11] == QuestionFlag;
    assert FLAGS[12] == OptionFlag && FLAGS[13] == HelpFlag;
    FindSpelled(f, FLAGS);
  }

  datatype Outcome = Parsed(args: Args) | HelpShown | Failed

  function DefaultArgs(): Args {
    Args("", "", "", "", "", 5120, 64, 2048, 999, false, [], [])
  }

  /** How many arguments a flag consumes. */
  function Arity(f: Flag): nat {
    match f
    case PrenormFlag => 0
    case HelpFlag => 0
    case UnknownFlag => 0
    case QuestionFlag => 2
    case OptionFlag => 2
    case _ => 1
  }

  /** A label and its file join the question that precedes them. */
  function AddOption(a: Args, text: string, file: string): Args
    requires a.questions != []
  {
    var last := |a.questions| - 1;
    var q := a.questions[last];
    a.(questions := a.questions[last := q.(labels := q.labels + [text], files := q.files + [file])])
  }

  /** The arguments after one flag; `None` is a thrown error. */
  function Set(a: Args, f: Flag, values: seq<string>): Option<Args>
    requires |values| == Arity(f)
  {
    match f
    case ModelFlag => Some(a.(model := values[0]))
    case ShaFlag => Some(a.(modelSha256 := values[0]))
    case RevisionFlag => Some(a.(runtimeRevision := values[0]))
    case StateFlag => Some(a.(stateFile := values[0]))
    case OutputFlag => Some(a.(output := values[0]))
    case HiddenFlag => var n := ParseInt(values[0]); if n.None? then None else Some(a.(hiddenSize := n.value))
    case LayersFlag => var n := ParseInt(values[0]); if n.None? then None else Some(a.(numLayers := n.value))
    case CtxFlag => var n := ParseInt(values[0]); if n.None? then None else Some(a.(nCtx := n.value))
    case GpuFlag => var n := ParseInt(values[0]); if n.None? then None else Some(a.(nGpuLayers := n.value))
    case TapFlag => var n := ParseInt(values[0]); if n.None? || n.value < 0 then None else Some(a.(taps := a.taps + [n.value]))
    case PrenormFlag => Some(a.(finalPrenorm := true))
    case QuestionFlag => Some(a.(questions := a.questions + [Question(values[0], values[1], [], [])]))
    case OptionFlag => if a.questions == [] then None else Some(AddOption(a, values[0], values[1]))
    case HelpFlag => None
    case UnknownFlag => None
  }

  predicate IntLeq(a: int, b: int) { a <= b }

  lemma IntOrder()
    ensures TotalOrder(IntLeq) && Antisymmetric(IntLeq)
  {
  }

  function SortedTaps(taps: seq<int>): (r: seq<int>)
    ensures Sorted(IntLeq, r) && multiset(r) == multiset(taps) && |r| == |taps|
  {
    IntOrder();
    Sort(IntLeq, taps)
  }

  predicate QuestionsComplete(questions: seq<Question>) {
    forall k :: 0 <= k < |questions| ==>
      (questions[k].name != [] && questions[k].kind != [] && questions[k].labels != [] && |questions[k].labels| == |questions[k].files|)
  }

  predicate AdjacentDistinct(taps: seq<int>) {
    forall k :: 0 <= k < |taps| - 1 ==> taps[k] != taps[k + 1]
  }

  /** The checks at the end of `parse_args`, and its sorting of the taps. */
  function Check(a: Args): Outcome {
    if a.model == [] || a.modelSha256 == [] || a.runtimeRevision == [] || a.stateFile == [] || a.output == [] then Failed
    else if a.hiddenSize <= 0 || a.numLayers <= 0 || a.nCtx <= 0 then Failed
    else if a.taps == [] && !a.finalPrenorm then Failed
    else if a.questions == [] || !QuestionsComplete(a.questions) then Failed
    else
      var taps := SortedTaps(a.taps);
      if !AdjacentDistinct(taps) || (exists k :: 0 <= k < |taps| && taps[k] >= a.numLayers) then Failed
      else Parsed(a.(taps := taps))
  }

  /** What the rest of the command line makes of the arguments so far. */
  function ParseFrom(a: Args, argv: seq<string>): Outcome
    decreases |argv|
  {
    if argv == [] then Check(a)
    else
      var f := FlagOf(argv[0]);
      if f.HelpFlag? then HelpShown
      else if |argv| < 1 + Arity(f) then Failed
      else
        var next := Set(a, f, argv[1..1 + Arity(f)]);
        if next.None? then Failed else ParseFrom(next.value, argv[1 + Arity(f)..])
  }

  lemma SameSlices(argv: seq<string>, i: nat, n: nat)
    requires i + 1 + n <= |argv|
    ensures argv[i..][1..1 + n] == argv[i + 1..i + 1 + n] && argv[i..][1 + n..] == argv[i + 1 + n..]
  {
  }

  /** The argument loop: an index runs over `argv` and the fields of `args` are filled in. */
  method ParseArgs(argv: seq<string>) returns (outcome: Outcome)
    requires argv != []
    ensures outcome == ParseFrom(DefaultArgs(), argv[1..])
  {
    var args := DefaultArgs();
    var i := 1;
    while i < |argv|
      invariant 1 <= i <= |argv|
      invariant ParseFrom(args, argv[i..]) == ParseFrom(DefaultArgs(), argv[1..])
    {
      var flag := FlagOf(argv[i]);
      ghost var rest := argv[i..];
      assert rest[0] == argv[i];
      if flag.HelpFlag? {
        return HelpShown;
      }
      if i + Arity(flag) >= |argv| {
        return Failed;
      }
      var next := Set(args, flag, argv[i + 1..i + 1 + Arity(flag)]);
      SameSlices(argv, i, Arity(flag));
      if next.None? {
        return Failed;
      }
      args := next.value;
      i := i + 1 + Arity(flag);
    }
    assert argv[i..] == [];
    return Check(args);
  }

  // ----- The Python side ---------------------------------------------------------------------

  /** One question of a record: its name, its type and its options. */
  datatype Ask = Ask(name: string, kind: string, options: seq<string>)

  datatype OptionFile = OptionFile(question: string, kind: string, text: string, path: string)

  datatype Provider = Provider(bridge: string, model: string, modelSha256: string, runtimeRevision: string,
                               hiddenSize: int, numLayers: int, layerTaps: seq<int>, includeFinalPrenorm: bool,
                               contextSize: int, gpuLayers: int)

  function ZeroPadded(s: string): string
    decreases if |s| < 4 then 4 - |s| else 0
  {
    if |s| < 4 then ZeroPadded(['0'] + s) else s
  }

  function OptionPath(root: string, index: nat): string { root + "/option-" + ZeroPadded(Decimal(index)) + ".txt" }

  /** The files of one question's options, numbered on from `index`. */
  function FilesOfAsk(root: string, ask: Ask, k: nat, index: nat): seq<OptionFile>
    requires k <= |ask.options|
    decreases |ask.options| - k
  {
    if k == |ask.options| then []
    else [OptionFile(ask.name, ask.kind, ask.options[k], OptionPath(root, index))] + FilesOfAsk(root, ask, k + 1, index + 1)
  }

  function FilesFrom(root: string, asks: seq<Ask>, index: nat): seq<OptionFile> {
    if asks == [] then []
    else FilesOfAsk(root, asks[0], 0, index) + FilesFrom(root, asks[1..], index + |asks[0].options|)
  }

  /** One flag with its values, as arguments. */
  function Setting(f: Flag, values: seq<string>): seq<string> { [Spelling(f)] + values }

  function TextSettings(p: Provider, stateFile: string, output: string): seq<(Flag, string)> {
    [(ModelFlag, p.model), (ShaFlag, p.modelSha256), (RevisionFlag, p.runtimeRevision), (StateFlag, stateFile), (OutputFlag, output)]
  }

  function NumberSettings(p: Provider): seq<(Flag, string)> {
    [(HiddenFlag, PrintInt(p.hiddenSize)), (LayersFlag, PrintInt(p.numLayers)), (CtxFlag, PrintInt(p.contextSize)),
     (GpuFlag, PrintInt(p.gpuLayers))]
  }

  function FixedArgs(p: Provider, stateFile: string, output: string): seq<(Flag, string)> {
    TextSettings(p, stateFile, output) + NumberSettings(p)
  }

  function SettingArgs(settings: seq<(Flag, string)>): seq<string> {
    if settings == [] then [] else Setting(settings[0].0, [settings[0].1]) + SettingArgs(settings[1..])
  }

  function TapSettings(taps: seq<int>): seq<(Flag, string)> {
    seq(|taps|, i requires 0 <= i < |taps| => (TapFlag, PrintInt(taps[i])))
  }

  function PrenormArgs(wanted: bool): seq<string> { if wanted then Setting(PrenormFlag, []) else [] }

  /** A new `--question` whenever the identity differs from the current one. */
  function FileArgs(current: Option<(string, string)>, file: OptionFile): seq<string> {
    (if current != Some((file.question, file.kind)) then Setting(QuestionFlag, [file.question, file.kind]) else []) +
    Setting(OptionFlag, [file.text, file.path])
  }

  function QuestionArgs(current: Option<(string, string)>, files: seq<OptionFile>): seq<string>
    decreases |files|
  {
    if files == [] then []
    else
      FileArgs(current, files[0]) + QuestionArgs(Some((files[0].question, files[0].kind)), files[1..])
  }

  function Command(p: Provider, stateFile: string, files: seq<OptionFile>, output: string): seq<string> {
    [p.bridge] + (SettingArgs(FixedArgs(p, stateFile, output)) +
                  (SettingArgs(TapSettings(p.layerTaps)) + (PrenormArgs(p.includeFinalPrenorm) + QuestionArgs(None, files))))
  }

  lemma {:induction false} SettingArgsSnoc(settings: seq<(Flag, string)>, s: (Flag, string))
    ensures SettingArgs(settings + [s]) == SettingArgs(settings) + Setting(s.0, [s.1])
  {
    if settings == [] {
      assert [s][1..] == [];
    } else {
      SettingArgsSnoc(settings[1..], s);
      assert (settings + [s])[1..] == settings[1..] + [s];
    }
  }

  method ExtendFixed(p: Provider, stateFile: string, output: string) returns (command: seq<string>)
    ensures command == [p.bridge] + SettingArgs(FixedArgs(p, stateFile, output))
  {
    command := [p.bridge, "--model", p.model, "--model-sha256", p.modelSha256, "--runtime-revision", p.runtimeRevision,
                "--state-file", stateFile, "--output", output, "--hidden-size", PrintInt(p.hiddenSize),
                "--num-layers", PrintInt(p.numLayers), "--ctx", PrintInt(p.contextSize), "--gpu-layers", PrintInt(p.gpuLayers)];
    TextArgsText(p, stateFile, output);
    NumberArgsText(p);
    SettingArgsConcat(TextSettings(p, stateFile, output), NumberSettings(p));
  }

  lemma SettingArgsCons(f: Flag, text: string, tail: seq<(Flag, string)>, args: seq<string>)
    requires SettingArgs(tail) == args
    ensures SettingArgs([(f, text)] + tail) == [Spelling(f), text] + args
  {
    assert ([(f, text)] + tail)[1..] == tail;
  }

  lemma NumberArgsText(p: Provider)
    ensures SettingArgs(NumberSettings(p)) ==
            [Spelling(HiddenFlag), PrintInt(p.hiddenSize), Spelling(LayersFlag), PrintInt(p.numLayers),
             Spelling(CtxFlag), PrintInt(p.contextSize), Spelling(GpuFlag), PrintInt(p.gpuLayers)]
  {
    var s := NumberSettings(p);
    SettingArgsCons(s[3].0, s[3].1, [], []);
    SettingArgsCons(s[2].0, s[2].1, [s[3]] + [], [Spelling(GpuFlag), s[3].1] + []);
    SettingArgsCons(s[1].0, s[1].1, [s[2]] + ([s[3]] + []), [Spelling(CtxFlag), s[2].1] + ([Spelling(GpuFlag), s[3].1] + []));
    assert s == [s[0]] + ([s[1]] + ([s[2]] + ([s[3]] + [])));
  }

  lemma TextArgsText(p: Provider, stateFile: string, output: string)
    ensures SettingArgs(TextSettings(p, stateFile, output)) ==
            [Spelling(ModelFlag), p.model, Spelling(ShaFlag), p.modelSha256, Spelling(RevisionFlag), p.runtimeRevision,
             Spelling(StateFlag), stateFile, Spelling(OutputFlag), output]
  {
    var s := TextSettings(p, stateFile, output);
    var last := [Spelling(OutputFlag), s[4].1] + [];
    var lastTwo := [Spelling(StateFlag), s[3].1] + last;
    var lastThree := [Spelling(RevisionFlag), s[2].1] + lastTwo;
    SettingArgsCons(s[4].0, s[4].1, [], []);
    SettingArgsCons(s[3].0, s[3].1, [s[4]] + [], last);
    SettingArgsCons(s[2].0, s[2].1, [s[3]] + ([s[4]] + []), lastTwo);
    SettingArgsCons(s[1].0, s[1].1, [s[2]] + ([s[3]] + ([s[4]] + [])), lastThree);
    assert s == [s[0]] + ([s[1]] + ([s[2]] + ([s[3]] + ([s[4]] + []))));
  }

  lemma {:induction false} SettingArgsConcat(s: seq<(Flag, string)>, t: seq<(Flag, string)>)
    ensures SettingArgs(s + t) == SettingArgs(s) + SettingArgs(t)
  {
    if s == [] {
      assert s + t == t;
    } else {
      SettingArgsConcat(s[1..], t);
      assert (s + t)[1..] == s[1..] + t;
    }
  }

  method ExtendTaps(before: seq<string>, taps: seq<int>) returns (command: seq<string>)
    ensures command == before + SettingArgs(TapSettings(taps))
  {
    command := before;
    ghost var settings := TapSettings(taps);
    for i := 0 to |taps|
      invariant command == before + SettingArgs(settings[..i])
    {
      SettingArgsSnoc(settings[..i], settings[i]);
      assert settings[..i + 1] == settings[..i] + [settings[i]];
      ghost var tap := Setting(TapFlag, [PrintInt(taps[i])]);
      Nested(before, SettingArgs(settings[..i]), tap);
      command := command + Setting(TapFlag, [PrintInt(taps[i])]);
    }
    assert settings[..|taps|] == settings;
  }

  lemma InTurn<T>(a: seq<T>, b: seq<T>, c: seq<T>, d: seq<T>, e: seq<T>)
    ensures a + b + c + d + e == a + (b + (c + (d + e)))
  {
  }

  /** `_bridge_command`: a list grows while `current` remembers the question being listed. */
  method BridgeCommandLine(p: Provider, stateFile: string, files: seq<OptionFile>, output: string) returns (command: seq<string>)
    ensures command == Command(p, stateFile, files, output)
  {
    command := ExtendFixed(p, stateFile, output);
    command := ExtendTaps(command, p.layerTaps);
    command := command + PrenormArgs(p.includeFinalPrenorm);
    command := ExtendQuestions(command, files);
    InTurn([p.bridge], SettingArgs(FixedArgs(p, stateFile, output)), SettingArgs(TapSettings(p.layerTaps)),
           PrenormArgs(p.includeFinalPrenorm), QuestionArgs(None, files));
  }

  method ExtendQuestions(before: seq<string>, files: seq<OptionFile>) returns (command: seq<string>)
    ensures command == before + QuestionArgs(None, files)
  {
    command := before;
    var current: Option<(string, string)> := None;
    for i := 0 to |files|
      invariant command + QuestionArgs(current, files[i..]) == before + QuestionArgs(None, files)
    {
      var file := files[i];
      var identity := (file.question, file.kind);
      assert files[i..][0] == file && files[i..][1..] == files[i + 1..];
      assert command + (FileArgs(current, file) + QuestionArgs(Some(identity), files[i + 1..])) ==
             (command + FileArgs(current, file)) + QuestionArgs(Some(identity), files[i + 1..]);
      command := command + FileArgs(current, file);
      current := Some(identity);
    }
    assert files[|files|..] == [];
  }

  method ExtendFiles(root: string, ask: Ask, before: seq<OptionFile>, start: nat) returns (files: seq<OptionFile>)
    ensures files == before + FilesOfAsk(root, ask, 0, start)
  {
    files := before;
    for k := 0 to |ask.options|
      invariant files + FilesOfAsk(root, ask, k, start + k) == before + FilesOfAsk(root, ask, 0, start)
    {
      files := files + [OptionFile(ask.name, ask.kind, ask.options[k], OptionPath(root, start + k))];
    }
    assert files + [] == files;
  }

  lemma FilesFromNext(root: string, asks: seq<Ask>, q: nat, index: nat)
    requires q < |asks|
    ensures FilesFrom(root, asks[q..], index) ==
            FilesOfAsk(root, asks[q], 0, index) + FilesFrom(root, asks[q + 1..], index + |asks[q].options|)
  {
    assert asks[q..][0] == asks[q] && asks[q..][1..] == asks[q + 1..];
  }

  lemma Nested<T>(a: seq<T>, b: seq<T>, c: seq<T>)
    ensures a + b + c == a + (b + c)
  {
  }

  /** The option files of a record, question by question, under one running index. */
  method OptionFilesOf(root: string, asks: seq<Ask>) returns (files: seq<OptionFile>)
    ensures files == FilesFrom(root, asks, 0)
  {
    files := [];
    var index: nat := 0;
    for q := 0 to |asks|
      invariant files + FilesFrom(root, asks[q..], index) == FilesFrom(root, asks, 0)
    {
      FilesFromNext(root, asks, q, index);
      Nested(files, FilesOfAsk(root, asks[q], 0, index), FilesFrom(root, asks[q + 1..], index + |asks[q].options|));
      files := ExtendFiles(root, asks[q], files, index);
      index := index + |asks[q].options|;
    }
    assert files + [] == files;
  }

  // ----- Parsing what was printed ------------------------------------------------------------

  lemma ParseSetting(a: Args, f: Flag, values: seq<string>, rest: seq<string>)
    requires !f.HelpFlag? && !f.UnknownFlag? && |values| == Arity(f)
    ensures ParseFrom(a, Setting(f, values) + rest) ==
            if Set(a, f, values).None? then Failed else ParseFrom(Set(a, f, values).value, rest)
  {
    var argv := Setting(f, values) + rest;
    FlagSpelled(f);
    assert argv[0] == Spelling(f) && argv[1..1 + Arity(f)] == values && argv[1 + Arity(f)..] == rest;
  }

  predicate SingleValued(settings: seq<(Flag, string)>) {
    forall k :: 0 <= k < |settings| ==> Arity(settings[k].0) == 1
  }

  function SetAll(a: Args, settings: seq<(Flag, string)>): Option<Args>
    requires SingleValued(settings)
    decreases |settings|
  {
    if settings == [] then Some(a)
    else
      var next := Set(a, settings[0].0, [settings[0].1]);
      if next.None? then None else SetAll(next.value, settings[1..])
  }

  lemma {:induction false} ParseSettings(a: Args, settings: seq<(Flag, string)>, rest: seq<string>)
    requires SingleValued(settings)
    ensures ParseFrom(a, SettingArgs(settings) + rest) ==
            if SetAll(a, settings).None? then Failed else ParseFrom(SetAll(a, settings).value, rest)
    decreases |settings|
  {
    if settings == [] {
      assert SettingArgs(settings) + rest == rest;
    } else {
      var f, value, more := settings[0].0, [settings[0].1], SettingArgs(settings[1..]) + rest;
      assert SettingArgs(settings) + rest == Setting(f, value) + more;
      ParseSetting(a, f, value, more);
      if Set(a, f, value).Some? {
        ParseSettings(Set(a, f, value).value, settings[1..], rest);
      }
    }
  }

  /** The integers the command line carries must fit C's `int`. */
  predicate NumbersFit(p: Provider) {
    IsInt32(p.hiddenSize) && IsInt32(p.numLayers) && IsInt32(p.contextSize) && IsInt32(p.gpuLayers)
  }

  function WithFixed(p: Provider, stateFile: string, output: string): Args {
    Args(p.model, p.modelSha256, p.runtimeRevision, stateFile, output,
         p.hiddenSize, p.numLayers, p.contextSize, p.gpuLayers, false, [], [])
  }

  lemma {:induction false} SetAllConcat(a: Args, s: seq<(Flag, string)>, t: seq<(Flag, string)>)
    requires SingleValued(s) && SingleValued(t)
    ensures SetAll(a, s + t) == if SetAll(a, s).None? then None else SetAll(SetAll(a, s).value, t)
    decreases |s|
  {
    if s == [] {
      assert s + t == t;
    } else {
      var next := Set(a, s[0].0, [s[0].1]);
      assert (s + t)[1..] == s[1..] + t;
      if next.Some? {
        SetAllConcat(next.value, s[1..], t);
      }
    }
  }

  lemma SetStep(a: Args, f: Flag, text: string, tail: seq<(Flag, string)>)
    requires Arity(f) == 1 && SingleValued(tail)
    ensures SingleValued([(f, text)] + tail)
    ensures SetAll(a, [(f, text)] + tail) ==
            if Set(a, f, [text]).None? then None else SetAll(Set(a, f, [text]).value, tail)
  {
    assert ([(f, text)] + tail)[1..] == tail;
  }

  lemma SetTexts(p: Provider, stateFile: string, output: string)
    ensures SetAll(DefaultArgs(), TextSettings(p, stateFile, output)) ==
            Some(DefaultArgs().(model := p.model, modelSha256 := p.modelSha256, runtimeRevision := p.runtimeRevision,
                                stateFile := stateFile, output := output))
  {
    var a := DefaultArgs().(model := p.model);
    var b := a.(modelSha256 := p.modelSha256);
    var c := b.(runtimeRevision := p.runtimeRevision);
    var d := c.(stateFile := stateFile);
    var fifth := [(OutputFlag, output)] + [];
    var fourth := [(StateFlag, stateFile)] + fifth;
    var third := [(RevisionFlag, p.runtimeRevision)] + fourth;
    var second := [(ShaFlag, p.modelSha256)] + third;
    SetStep(d, OutputFlag, output, []);
    SetStep(c, StateFlag, stateFile, fifth);
    SetStep(b, RevisionFlag, p.runtimeRevision, fourth);
    SetStep(a, ShaFlag, p.modelSha256, third);
    SetStep(DefaultArgs(), ModelFlag, p.model, second);
    assert TextSettings(p, stateFile, output) == [(ModelFlag, p.model)] + second;
  }

  predicate IsNumberFlag(f: Flag) { f.HiddenFlag? || f.LayersFlag? || f.CtxFlag? || f.GpuFlag? }

  function WithNumber(a: Args, f: Flag, n: int): Args
    requires IsNumberFlag(f)
  {
    if f.HiddenFlag? then a.(hiddenSize := n)
    else if f.LayersFlag? then a.(numLayers := n)
    else if f.CtxFlag? then a.(nCtx := n)
    else a.(nGpuLayers := n)
  }

  lemma SetNumber(a: Args, f: Flag, n: int, tail: seq<(Flag, string)>)
    requires IsNumberFlag(f) && SingleValued(tail)
    ensures SingleValued([(f, PrintInt(n))] + tail)
    ensures SetAll(a, [(f, PrintInt(n))] + tail) == if IsInt32(n) then SetAll(WithNumber(a, f, n), tail) else None
  {
    PrintedInt(n);
    SetStep(a, f, PrintInt(n), tail);
  }

  lemma SetTap(a: Args, n: int, tail: seq<(Flag, string)>)
    requires 0 <= n <= INT_MAX && SingleValued(tail)
    ensures SingleValued([(TapFlag, PrintInt(n))] + tail)
    ensures SetAll(a, [(TapFlag, PrintInt(n))] + tail) == SetAll(WithTaps(a, [n]), tail)
  {
    PrintedInt(n);
    SetStep(a, TapFlag, PrintInt(n), tail);
  }

  lemma TapSettingsCons(taps: seq<int>)
    requires taps != []
    ensures TapSettings(taps) == [(TapFlag, PrintInt(taps[0]))] + TapSettings(taps[1..])
  {
  }

  function WithTaps(a: Args, taps: seq<int>): Args { a.(taps := a.taps + taps) }

  lemma WithMoreTaps(a: Args, taps: seq<int>)
    requires taps != []
    ensures WithTaps(WithTaps(a, [taps[0]]), taps[1..]) == WithTaps(a, taps)
  {
    assert a.taps + [taps[0]] + taps[1..] == a.taps + taps;
  }

  lemma {:induction false} SetAllTaps(a: Args, taps: seq<int>)
    requires forall k :: 0 <= k < |taps| ==> 0 <= taps[k] <= INT_MAX
    ensures SetAll(a, TapSettings(taps)) == Some(WithTaps(a, taps))
    decreases |taps|
  {
    if taps == [] {
      assert a.taps + taps == a.taps;
    } else {
      TapSettingsCons(taps);
      SetTap(a, taps[0], TapSettings(taps[1..]));
      SetAllTaps(WithTaps(a, [taps[0]]), taps[1..]);
      WithMoreTaps(a, taps);
    }
  }

  lemma SetNumbers(a: Args, p: Provider)
    ensures SetAll(a, NumberSettings(p)) ==
            if NumbersFit(p) then Some(a.(hiddenSize := p.hiddenSize, numLayers := p.numLayers,
                                          nCtx := p.contextSize, nGpuLayers := p.gpuLayers))
            else None
  {
    var b := WithNumber(a, HiddenFlag, p.hiddenSize);
    var c := WithNumber(b, LayersFlag, p.numLayers);
    var d := WithNumber(c, CtxFlag, p.contextSize);
    var fourth := [(GpuFlag, PrintInt(p.gpuLayers))] + [];
    var third := [(CtxFlag, PrintInt(p.contextSize))] + fourth;
    var second := [(LayersFlag, PrintInt(p.numLayers))] + third;
    SetNumber(d, GpuFlag, p.gpuLayers, []);
    SetNumber(c, CtxFlag, p.contextSize, fourth);
    SetNumber(b, LayersFlag, p.numLayers, third);
    SetNumber(a, HiddenFlag, p.hiddenSize, second);
    assert NumberSettings(p) == [(HiddenFlag, PrintInt(p.hiddenSize))] + second;
  }

  lemma SetFixed(p: Provider, stateFile: string, output: string)
    ensures SetAll(DefaultArgs(), FixedArgs(p, stateFile, output)) ==
            if NumbersFit(p) then Some(WithFixed(p, stateFile, output)) else None
  {
    SetTexts(p, stateFile, output);
    var a := SetAll(DefaultArgs(), TextSettings(p, stateFile, output)).value;
    SetNumbers(a, p);
    SetAllConcat(DefaultArgs(), TextSettings(p, stateFile, output), NumberSettings(p));
  }

  // ----- The questions survive -----------------------------------------------------------------

  function PathsOf(root: string, n: nat, index: nat): (r: seq<string>)
    ensures |r| == n
  {
    if n == 0 then [] else [OptionPath(root, index)] + PathsOf(root, n - 1, index + 1)
  }

  /** What the bridge should know of each question. */
  function QuestionsFrom(root: string, asks: seq<Ask>, index: nat): (r: seq<Question>)
    ensures |r| == |asks|
  {
    if asks == [] then []
    else
      var n := |asks[0].options|;
      [Question(asks[0].name, asks[0].kind, asks[0].options, PathsOf(root, n, index))] + QuestionsFrom(root, asks[1..], index + n)
  }

  function AddOptions(a: Args, texts: seq<string>, files: seq<string>): Args
    requires a.questions != []
  {
    var last := |a.questions| - 1;
    var q := a.questions[last];
    a.(questions := a.questions[last := q.(labels := q.labels + texts, files := q.files + files)])
  }

  lemma AddOneMore(a: Args, text: string, file: string, texts: seq<string>, files: seq<string>)
    requires a.questions != []
    ensures AddOptions(AddOption(a, text, file), texts, files) == AddOptions(a, [text] + texts, [file] + files)
  {
    var q := a.questions[|a.questions| - 1];
    assert q.labels + [text] + texts == q.labels + ([text] + texts);
    assert q.files + [file] + files == q.files + ([file] + files);
  }

  lemma AddNothing(a: Args)
    requires a.questions != []
    ensures AddOptions(a, [], []) == a
  {
    var q := a.questions[|a.questions| - 1];
    assert q.labels + [] == q.labels && q.files + [] == q.files;
    assert a.questions[|a.questions| - 1 := q] == a.questions;
  }

  lemma NextOption(file: OptionFile, tail: seq<OptionFile>)
    ensures var identity := Some((file.question, file.kind));
            QuestionArgs(identity, [file] + tail) == Setting(OptionFlag, [file.text, file.path]) + QuestionArgs(identity, tail)
  {
    assert ([file] + tail)[1..] == tail;
  }

  lemma ParseOneOption(a: Args, root: string, ask: Ask, k: nat, index: nat, rest: seq<OptionFile>)
    requires a.questions != [] && k < |ask.options|
    ensures var identity := Some((ask.name, ask.kind));
            ParseFrom(a, QuestionArgs(identity, FilesOfAsk(root, ask, k, index) + rest)) ==
            ParseFrom(AddOption(a, ask.options[k], OptionPath(root, index)),
                      QuestionArgs(identity, FilesOfAsk(root, ask, k + 1, index + 1) + rest))
  {
    var file := OptionFile(ask.name, ask.kind, ask.options[k], OptionPath(root, index));
    var tail := FilesOfAsk(root, ask, k + 1, index + 1) + rest;
    Nested([file], FilesOfAsk(root, ask, k + 1, index + 1), rest);
    NextOption(file, tail);
    ParseSetting(a, OptionFlag, [file.text, file.path], QuestionArgs(Some((ask.name, ask.kind)), tail));
  }

  lemma SuffixCons<T>(s: seq<T>, k: nat)
    requires k < |s|
    ensures s[k..] == [s[k]] + s[k + 1..]
  {
  }

  /** Further options of the current question are added to it, whatever their labels look like. */
  lemma {:induction false} ParseOptions(a: Args, root: string, ask: Ask, k: nat, index: nat, rest: seq<OptionFile>)
    requires a.questions != [] && k <= |ask.options|
    ensures ParseFrom(a, QuestionArgs(Some((ask.name, ask.kind)), FilesOfAsk(root, ask, k, index) + rest)) ==
            ParseFrom(AddOptions(a, ask.options[k..], PathsOf(root, |ask.options| - k, index)),
                      QuestionArgs(Some((ask.name, ask.kind)), rest))
    decreases |ask.options| - k
  {
    if k == |ask.options| {
      assert ask.options[k..] == [];
      AddNothing(a);
      assert [] + rest == rest;
    } else {
      var text, path := ask.options[k], OptionPath(root, index);
      ParseOneOption(a, root, ask, k, index, rest);
      ParseOptions(AddOption(a, text, path), root, ask, k + 1, index + 1, rest);
      AddOneMore(a, text, path, ask.options[k + 1..], PathsOf(root, |ask.options| - k - 1, index + 1));
      SuffixCons(ask.options, k);
    }
  }

  ghost predicate NamesDistinct(asks: seq<Ask>) {
    forall i, j :: 0 <= i < j < |asks| ==> asks[i].name != asks[j].name
  }

  ghost predicate AllHaveOptions(asks: seq<Ask>) {
    forall k :: 0 <= k < |asks| ==> asks[k].options != []
  }

  lemma BeginQuestion(current: Option<(string, string)>, files: seq<OptionFile>)
    requires files != [] && current != Some((files[0].question, files[0].kind))
    ensures QuestionArgs(current, files) ==
            Setting(QuestionFlag, [files[0].question, files[0].kind]) +
            QuestionArgs(Some((files[0].question, files[0].kind)), files)
  {
    var identity := Some((files[0].question, files[0].kind));
    var option := Setting(OptionFlag, [files[0].text, files[0].path]);
    assert FileArgs(identity, files[0]) == option;
    Nested(Setting(QuestionFlag, [files[0].question, files[0].kind]), option, QuestionArgs(identity, files[1..]));
  }

  /** The questions listed so far, and these. */
  function Asked(a: Args, questions: seq<Question>): Args { a.(questions := a.questions + questions) }

  lemma AskedMore(a: Args, q: Question, questions: seq<Question>)
    ensures Asked(Asked(a, [q]), questions) == Asked(a, [q] + questions)
  {
    assert a.questions + [q] + questions == a.questions + ([q] + questions);
  }

  lemma ParseQuestion(a: Args, current: Option<(string, string)>, root: string, ask: Ask, index: nat, rest: seq<OptionFile>)
    requires ask.options != [] && current != Some((ask.name, ask.kind))
    ensures ParseFrom(a, QuestionArgs(current, FilesOfAsk(root, ask, 0, index) + rest)) ==
            ParseFrom(Asked(a, [Question(ask.name, ask.kind, ask.options, PathsOf(root, |ask.options|, index))]),
                      QuestionArgs(Some((ask.name, ask.kind)), rest))
  {
    var identity := Some((ask.name, ask.kind));
    var files := FilesOfAsk(root, ask, 0, index) + rest;
    var begun := Asked(a, [Question(ask.name, ask.kind, [], [])]);
    BeginQuestion(current, files);
    ParseSetting(a, QuestionFlag, [ask.name, ask.kind], QuestionArgs(identity, files));
    ParseOptions(begun, root, ask, 0, index, rest);
    OpenedQuestion(a, ask.name, ask.kind, ask.options, PathsOf(root, |ask.options|, index));
    assert ask.options[0..] == ask.options;
  }

  lemma OpenedQuestion(a: Args, name: string, kind: string, texts: seq<string>, files: seq<string>)
    ensures AddOptions(Asked(a, [Question(name, kind, [], [])]), texts, files) == Asked(a, [Question(name, kind, texts, files)])
  {
    assert [] + texts == texts && [] + files == files;
    var qs := a.questions + [Question(name, kind, [], [])];
    assert qs[|qs| - 1 := Question(name, kind, texts, files)] == a.questions + [Question(name, kind, texts, files)];
  }

  lemma LaterAsks(asks: seq<Ask>)
    requires asks != [] && NamesDistinct(asks) && AllHaveOptions(asks)
    ensures NamesDistinct(asks[1..]) && AllHaveOptions(asks[1..])
    ensures forall k :: 0 <= k < |asks[1..]| ==> asks[1..][k].name != asks[0].name
  {
  }

  lemma {:induction false} ParseQuestions(a: Args, current: Option<(string, string)>, root: string, asks: seq<Ask>, index: nat)
    requires NamesDistinct(asks) && AllHaveOptions(asks)
    requires current.Some? ==> forall k :: 0 <= k < |asks| ==> asks[k].name != current.value.0
    ensures ParseFrom(a, QuestionArgs(current, FilesFrom(root, asks, index))) ==
            Check(Asked(a, QuestionsFrom(root, asks, index)))
    decreases |asks|
  {
    if asks == [] {
      assert a.questions + [] == a.questions;
    } else {
      var n := |asks[0].options|;
      var q := Question(asks[0].name, asks[0].kind, asks[0].options, PathsOf(root, n, index));
      LaterAsks(asks);
      ParseQuestion(a, current, root, asks[0], index, FilesFrom(root, asks[1..], index + n));
      ParseQuestions(Asked(a, [q]), Some((asks[0].name, asks[0].kind)), root, asks[1..], index + n);
      AskedMore(a, q, QuestionsFrom(root, asks[1..], index + n));
    }
  }

  // ----- The launch as a whole ---------------------------------------------------------------

  predicate NoNul(s: string) { forall k :: 0 <= k < |s| ==> s[k] != (0 as char) }

  datatype Launch = NotSpawned | Ran(outcome: Outcome)

  /** `subprocess.run`: an argument with a NUL character is refused before anything starts. */
  function LaunchOf(command: seq<string>): Launch
    requires command != []
  {
    if AllNoNul(command) then Ran(ParseFrom(DefaultArgs(), command[1..])) else NotSpawned
  }

  /** What the provider's constructor and contract check. */
  ghost predicate ProviderReady(p: Provider) {
    && p.bridge != [] && p.model != [] && p.modelSha256 != [] && p.runtimeRevision != []
    && NoNul(p.bridge) && NoNul(p.model) && NoNul(p.modelSha256) && NoNul(p.runtimeRevision)
    && p.hiddenSize == 5120 && p.numLayers == 64 && p.contextSize >= 32
    && (p.layerTaps != [] || p.includeFinalPrenorm)
    && (forall k :: 0 <= k < |p.layerTaps| ==> 0 <= p.layerTaps[k] < p.numLayers)
    && (forall i, j :: 0 <= i < j < |p.layerTaps| ==> p.layerTaps[i] != p.layerTaps[j])
  }

  /** A record's questions: a dictionary, each with a type name and, here, with options. */
  ghost predicate RecordReady(asks: seq<Ask>) {
    && asks != [] && NamesDistinct(asks) && AllHaveOptions(asks)
    && forall k :: 0 <= k < |asks| ==> asks[k].kind != [] && NoNul(asks[k].kind)
  }

  /** What a caller can check beforehand: each number fits an `int`, each name is non-empty, and no text has a NUL. */
  ghost predicate Transmittable(p: Provider, asks: seq<Ask>) {
    && p.contextSize <= INT_MAX && IsInt32(p.gpuLayers)
    && forall k :: 0 <= k < |asks| ==> (asks[k].name != [] && NoNul(asks[k].name) &&
                                        forall o :: 0 <= o < |asks[k].options| ==> NoNul(asks[k].options[o]))
  }

  function ExpectedArgs(p: Provider, stateFile: string, root: string, asks: seq<Ask>, output: string): Args {
    Args(p.model, p.modelSha256, p.runtimeRevision, stateFile, output, p.hiddenSize, p.numLayers, p.contextSize,
         p.gpuLayers, p.includeFinalPrenorm, SortedTaps(p.layerTaps), QuestionsFrom(root, asks, 0))
  }

  function Unsorted(p: Provider, stateFile: string, root: string, asks: seq<Ask>, output: string): Args {
    ExpectedArgs(p, stateFile, root, asks, output).(taps := p.layerTaps)
  }

  lemma ParsePrenorm(a: Args, wanted: bool, rest: seq<string>)
    ensures ParseFrom(a, PrenormArgs(wanted) + rest) == ParseFrom(if wanted then a.(finalPrenorm := true) else a, rest)
  {
    if wanted {
      ParseSetting(a, PrenormFlag, [], rest);
    } else {
      assert [] + rest == rest;
    }
  }

  lemma DropFirst<T>(first: T, rest: seq<T>)
    ensures ([first] + rest)[1..] == rest
  {
  }

  lemma FlagsParsed(p: Provider, stateFile: string, output: string, questions: seq<string>)
    requires ProviderReady(p) && NumbersFit(p)
    ensures ParseFrom(WithFixed(p, stateFile, output),
                      SettingArgs(TapSettings(p.layerTaps)) + (PrenormArgs(p.includeFinalPrenorm) + questions)) ==
            ParseFrom(WithFixed(p, stateFile, output).(taps := p.layerTaps, finalPrenorm := p.includeFinalPrenorm), questions)
  {
    var a := WithFixed(p, stateFile, output);
    ParseSettings(a, TapSettings(p.layerTaps), PrenormArgs(p.includeFinalPrenorm) + questions);
    SetAllTaps(a, p.layerTaps);
    ParsePrenorm(WithTaps(a, p.layerTaps), p.includeFinalPrenorm, questions);
    assert [] + p.layerTaps == p.layerTaps;
  }

  lemma ParseFlagsThenQuestions(p: Provider, stateFile: string, root: string, asks: seq<Ask>, output: string)
    requires ProviderReady(p) && RecordReady(asks)
    ensures ParseFrom(DefaultArgs(), Command(p, stateFile, FilesFrom(root, asks, 0), output)[1..]) ==
            if NumbersFit(p) then Check(Unsorted(p, stateFile, root, asks, output)) else Failed
  {
    var questions := QuestionArgs(None, FilesFrom(root, asks, 0));
    var afterTaps := PrenormArgs(p.includeFinalPrenorm) + questions;
    var afterFixed := SettingArgs(TapSettings(p.layerTaps)) + afterTaps;
    DropFirst(p.bridge, SettingArgs(FixedArgs(p, stateFile, output)) + afterFixed);
    ParseSettings(DefaultArgs(), FixedArgs(p, stateFile, output), afterFixed);
    SetFixed(p, stateFile, output);
    if NumbersFit(p) {
      FlagsParsed(p, stateFile, output, questions);
      ParseQuestions(WithFixed(p, stateFile, output).(taps := p.layerTaps, finalPrenorm := p.includeFinalPrenorm), None, root, asks, 0);
      assert [] + QuestionsFrom(root, asks, 0) == QuestionsFrom(root, asks, 0);
    }
  }

  lemma SortedTapsMembers(taps: seq<int>, k: nat)
    requires k < |taps|
    ensures SortedTaps(taps)[k] in taps
  {
    assert SortedTaps(taps)[k] in multiset(SortedTaps(taps));
  }

  lemma TapsAccepted(p: Provider)
    requires ProviderReady(p)
    ensures AdjacentDistinct(SortedTaps(p.layerTaps))
    ensures forall k :: 0 <= k < |p.layerTaps| ==> SortedTaps(p.layerTaps)[k] < p.numLayers
  {
    var s := SortedTaps(p.layerTaps);
    RearrangedDistinct(p.layerTaps, s);
    forall k | 0 <= k < |s| ensures s[k] < p.numLayers {
      SortedTapsMembers(p.layerTaps, k);
    }
  }

  lemma {:induction false} QuestionAt(root: string, asks: seq<Ask>, index: nat, k: nat)
    requires k < |asks|
    ensures var q := QuestionsFrom(root, asks, index)[k];
            q.name == asks[k].name && q.kind == asks[k].kind && q.labels == asks[k].options && |q.files| == |q.labels|
  {
    if k > 0 {
      QuestionAt(root, asks[1..], index + |asks[0].options|, k - 1);
    }
  }

  lemma QuestionsCompleteIff(root: string, asks: seq<Ask>)
    requires RecordReady(asks)
    ensures QuestionsComplete(QuestionsFrom(root, asks, 0)) <==> forall k :: 0 <= k < |asks| ==> asks[k].name != []
  {
    forall k | 0 <= k < |asks|
      ensures var q := QuestionsFrom(root, asks, 0)[k];
              q.name == asks[k].name && q.kind == asks[k].kind && q.labels == asks[k].options && |q.files| == |q.labels|
    {
      QuestionAt(root, asks, 0, k);
    }
  }

  lemma CheckExpected(p: Provider, stateFile: string, root: string, asks: seq<Ask>, output: string)
    requires ProviderReady(p) && RecordReady(asks) && stateFile != [] && output != []
    ensures Check(Unsorted(p, stateFile, root, asks, output)) ==
            if forall k :: 0 <= k < |asks| ==> asks[k].name != [] then Parsed(ExpectedArgs(p, stateFile, root, asks, output)) else Failed
  {
    TapsAccepted(p);
    QuestionsCompleteIff(root, asks);
  }

  // ----- NUL characters ------------------------------------------------------------------

  predicate AllNoNul(args: seq<string>) { forall k :: 0 <= k < |args| ==> NoNul(args[k]) }

  lemma AllNoNulConcat(a: seq<string>, b: seq<string>)
    ensures AllNoNul(a + b) <==> AllNoNul(a) && AllNoNul(b)
  {
    if AllNoNul(a + b) {
      forall k | 0 <= k < |a| ensures NoNul(a[k]) {
        assert (a + b)[k] == a[k];
      }
      forall k | 0 <= k < |b| ensures NoNul(b[k]) {
        assert (a + b)[|a| + k] == b[k];
      }
    }
  }

  lemma SpellingNoNul(f: Flag)
    ensures NoNul(Spelling(f))
  {
  }

  lemma PrintedNoNul(n: int)
    ensures NoNul(PrintInt(n))
  {
    var d := Decimal(if n < 0 then -n else n);
    assert forall k :: 0 <= k < |d| ==> IsDigit(d[k]);
  }

  lemma SettingNoNul(f: Flag, values: seq<string>)
    ensures AllNoNul(Setting(f, values)) <==> AllNoNul(values)
  {
    SpellingNoNul(f);
    assert Setting(f, values)[0] == Spelling(f);
    AllNoNulConcat([Spelling(f)], values);
  }

  lemma {:induction false} SettingsNoNul(settings: seq<(Flag, string)>)
    requires forall k :: 0 <= k < |settings| ==> NoNul(settings[k].1)
    ensures AllNoNul(SettingArgs(settings))
  {
    if settings != [] {
      SettingNoNul(settings[0].0, [settings[0].1]);
      SettingsNoNul(settings[1..]);
      AllNoNulConcat(Setting(settings[0].0, [settings[0].1]), SettingArgs(settings[1..]));
    }
  }

  predicate FileClean(f: OptionFile) { NoNul(f.question) && NoNul(f.kind) && NoNul(f.text) && NoNul(f.path) }

  lemma FileArgsNoNul(current: Option<(string, string)>, f: OptionFile)
    requires current.Some? ==> NoNul(current.value.0) && NoNul(current.value.1)
    ensures AllNoNul(FileArgs(current, f)) <==> FileClean(f)
  {
    var option := [f.text, f.path];
    SettingNoNul(OptionFlag, option);
    assert AllNoNul(option) <==> NoNul(option[0]) && NoNul(option[1]);
    var begin := if current != Some((f.question, f.kind)) then Setting(QuestionFlag, [f.question, f.kind]) else [];
    var names := [f.question, f.kind];
    SettingNoNul(QuestionFlag, names);
    assert AllNoNul(names) <==> NoNul(names[0]) && NoNul(names[1]);
    AllNoNulConcat(begin, Setting(OptionFlag, option));
  }

  lemma {:induction false} QuestionArgsNoNul(current: Option<(string, string)>, files: seq<OptionFile>)
    requires current.Some? ==> NoNul(current.value.0) && NoNul(current.value.1)
    ensures AllNoNul(QuestionArgs(current, files)) <==> forall k :: 0 <= k < |files| ==> FileClean(files[k])
    decreases |files|
  {
    if files != [] {
      var f := files[0];
      FileArgsNoNul(current, f);
      AllNoNulConcat(FileArgs(current, f), QuestionArgs(Some((f.question, f.kind)), files[1..]));
      if FileClean(f) {
        QuestionArgsNoNul(Some((f.question, f.kind)), files[1..]);
        assert forall k :: 0 < k < |files| ==> files[k] == files[1..][k - 1];
      }
    }
  }

  lemma {:induction false} PaddedNoNul(s: string)
    requires NoNul(s)
    ensures NoNul(ZeroPadded(s))
    decreases if |s| < 4 then 4 - |s| else 0
  {
    if |s| < 4 {
      PaddedNoNul(['0'] + s);
    }
  }

  lemma PathNoNul(root: string, index: nat)
    requires NoNul(root)
    ensures NoNul(OptionPath(root, index))
  {
    PrintedNoNul(index);
    PaddedNoNul(Decimal(index));
  }

  predicate AskClean(ask: Ask) {
    NoNul(ask.name) && NoNul(ask.kind) && forall o :: 0 <= o < |ask.options| ==> NoNul(ask.options[o])
  }

  lemma {:induction false} FilesOfAskAt(root: string, ask: Ask, k: nat, index: nat, i: nat)
    requires k + i < |ask.options|
    ensures |FilesOfAsk(root, ask, k, index)| == |ask.options| - k
    ensures FilesOfAsk(root, ask, k, index)[i] == OptionFile(ask.name, ask.kind, ask.options[k + i], OptionPath(root, index + i))
    decreases |ask.options| - k
  {
    if i > 0 {
      FilesOfAskAt(root, ask, k + 1, index + 1, i - 1);
    } else if k + 1 < |ask.options| {
      FilesOfAskAt(root, ask, k + 1, index + 1, 0);
    }
  }

  predicate FilesClean(files: seq<OptionFile>) { forall k :: 0 <= k < |files| ==> FileClean(files[k]) }

  lemma FilesOfAskClean(root: string, ask: Ask, index: nat)
    requires NoNul(root) && ask.options != []
    ensures FilesClean(FilesOfAsk(root, ask, 0, index)) <==> AskClean(ask)
  {
    var files := FilesOfAsk(root, ask, 0, index);
    FilesOfAskAt(root, ask, 0, index, 0);
    forall i | 0 <= i < |ask.options|
      ensures files[i] == OptionFile(ask.name, ask.kind, ask.options[i], OptionPath(root, index + i)) && NoNul(OptionPath(root, index + i))
    {
      FilesOfAskAt(root, ask, 0, index, i);
      PathNoNul(root, index + i);
    }
    if FilesClean(files) {
      assert FileClean(files[0]);
      forall o | 0 <= o < |ask.options| ensures NoNul(ask.options[o]) {
        assert FileClean(files[o]);
      }
    }
  }

  lemma FilesCleanConcat(a: seq<OptionFile>, b: seq<OptionFile>)
    ensures FilesClean(a + b) <==> FilesClean(a) && FilesClean(b)
  {
    if FilesClean(a + b) {
      forall k | 0 <= k < |a| ensures FileClean(a[k]) {
        assert (a + b)[k] == a[k];
      }
      forall k | 0 <= k < |b| ensures FileClean(b[k]) {
        assert (a + b)[|a| + k] == b[k];
      }
    }
  }

  lemma {:induction false} FilesFromClean(root: string, asks: seq<Ask>, index: nat)
    requires NoNul(root) && AllHaveOptions(asks)
    ensures FilesClean(FilesFrom(root, asks, index)) <==> forall k :: 0 <= k < |asks| ==> AskClean(asks[k])
  {
    if asks != [] {
      FilesOfAskClean(root, asks[0], index);
      FilesFromClean(root, asks[1..], index + |asks[0].options|);
      FilesCleanConcat(FilesOfAsk(root, asks[0], 0, index), FilesFrom(root, asks[1..], index + |asks[0].options|));
      assert forall k :: 0 < k < |asks| ==> asks[k] == asks[1..][k - 1];
    }
  }

  lemma CommandNoNul(p: Provider, stateFile: string, root: string, asks: seq<Ask>, output: string)
    requires ProviderReady(p) && RecordReady(asks) && NoNul(stateFile) && NoNul(root) && NoNul(output)
    ensures AllNoNul(Command(p, stateFile, FilesFrom(root, asks, 0), output)) <==> forall k :: 0 <= k < |asks| ==> AskClean(asks[k])
  {
    var files := FilesFrom(root, asks, 0);
    var questions := QuestionArgs(None, files);
    var fixed, taps := FixedArgs(p, stateFile, output), TapSettings(p.layerTaps);
    FixedNoNul(p, stateFile, output);
    forall k | 0 <= k < |taps| ensures NoNul(taps[k].1) {
      PrintedNoNul(p.layerTaps[k]);
    }
    SettingsNoNul(taps);
    SettingNoNul(PrenormFlag, []);
    QuestionArgsNoNul(None, files);
    FilesFromClean(root, asks, 0);
    AllNoNulConcat(PrenormArgs(p.includeFinalPrenorm), questions);
    AllNoNulConcat(SettingArgs(taps), PrenormArgs(p.includeFinalPrenorm) + questions);
    AllNoNulConcat(SettingArgs(fixed), SettingArgs(taps) + (PrenormArgs(p.includeFinalPrenorm) + questions));
    AllNoNulConcat([p.bridge], SettingArgs(fixed) + (SettingArgs(taps) + (PrenormArgs(p.includeFinalPrenorm) + questions)));
  }

  lemma FixedNoNul(p: Provider, stateFile: string, output: string)
    requires ProviderReady(p) && NoNul(stateFile) && NoNul(output)
    ensures AllNoNul(SettingArgs(FixedArgs(p, stateFile, output)))
  {
    PrintedNoNul(p.hiddenSize);
    PrintedNoNul(p.numLayers);
    PrintedNoNul(p.contextSize);
    PrintedNoNul(p.gpuLayers);
    SettingsNoNul(FixedArgs(p, stateFile, output));
  }

  /**
   The bridge starts work on exactly the record's questions - names, types, labels in order, and
   the contract's taps in ascending order - if and only if the record and the numbers are transmittable.
   */
  lemma LaunchKeepsRecord(p: Provider, stateFile: string, root: string, asks: seq<Ask>, output: string)
    requires ProviderReady(p) && RecordReady(asks)
    requires stateFile != [] && output != [] && NoNul(stateFile) && NoNul(root) && NoNul(output)
    ensures var launch := LaunchOf(Command(p, stateFile, FilesFrom(root, asks, 0), output));
            if Transmittable(p, asks) then launch == Ran(Parsed(ExpectedArgs(p, stateFile, root, asks, output)))
            else launch == NotSpawned || launch == Ran(Failed)
  {
    CommandNoNul(p, stateFile, root, asks, output);
    ParseFlagsThenQuestions(p, stateFile, root, asks, output);
    CheckExpected(p, stateFile, root, asks, output);
    ghost var named := forall k :: 0 <= k < |asks| ==> asks[k].name != [];
    assert Transmittable(p, asks) == (AllNoNul(Command(p, stateFile, FilesFrom(root, asks, 0), output)) && NumbersFit(p) && named);
  }

  /** A record whose first question has no name. */
  const NAMELESS := [Ask("", "noul", ["no", "yes"])]

  lemma NamelessIsReady()
    ensures RecordReady(NAMELESS) && AskClean(NAMELESS[0])
  {
  }

  /** The provider accepts such a record and starts the bridge, and the bridge refuses its command line. */
  lemma NamelessRefused(p: Provider, stateFile: string, root: string, output: string)
    requires ProviderReady(p) && stateFile != [] && output != [] && NoNul(stateFile) && NoNul(root) && NoNul(output)
    ensures RecordReady(NAMELESS)
    ensures LaunchOf(Command(p, stateFile, FilesFrom(root, NAMELESS, 0), output)) == Ran(Failed)
  {
    NamelessIsReady();
    CommandNoNul(p, stateFile, root, NAMELESS, output);
    assert NAMELESS[0].name == [];
    LaunchKeepsRecord(p, stateFile, root, NAMELESS, output);
  }
}
