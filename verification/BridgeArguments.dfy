/**
 Which command lines the bridge starts on, and with what: a list of settings, of which the last
 under each flag counts, taps without repetition and questions with the options that follow them.
 */
module BridgeArguments {
  import opened Wrappers
  import opened Order
  import opened Leases
  import opened Devices
  import opened Characters
  import opened Json
  import opened BridgeWriter
  import opened BridgeCommand

  // ----- Integers ------------------------------------------------------------------------------

  /** Blanks, perhaps a sign, and at least one digit. */
  predicate IntText(s: string, blanks: nat, sign: string, n: int) {
    && blanks + |sign| < |s| && Blank(s[..blanks])
    && sign == s[blanks..][..|sign|] && (sign == [] || sign == ['+'] || sign == ['-'])
    && AllDigits(s[blanks + |sign|..])
    && n == (if sign == ['-'] then Negated(DecimalValue(s[blanks + |sign|..])) else DecimalValue(s[blanks + |sign|..]))
  }

  /** An argument is read as a number exactly when it is one, written in full, that fits C's `int`. */
  lemma ParseIntExactly(s: string, n: int)
    ensures ParseInt(s) == Some(n) <==> IsInt32(n) && exists blanks: nat, sign :: IntText(s, blanks, sign, n)
  {
    if ParseInt(s) == Some(n) {
      var blanks := TrimmedAt(s);
      var t := TrimLeft(s);
      assert t != [] by {
        assert AllDigits(t) || AllDigits(t[1..]);
      }
      var sign := if t[0] == '-' || t[0] == '+' then [t[0]] else [];
      assert t[|sign|..] == s[blanks + |sign|..];
      assert IntText(s, blanks, sign, n);
    }
    if IsInt32(n) {
      forall blanks: nat, sign | IntText(s, blanks, sign, n) ensures ParseInt(s) == Some(n) {
        var digits := s[blanks + |sign|..];
        assert IsDigit(digits[0]);
        assert sign != [] ==> s[blanks] == sign[0];
        TrimPast(s, blanks);
        assert s[blanks..][|sign|..] == digits;
      }
    }
  }

  // ----- Settings ------------------------------------------------------------------------------

  /** A flag with its values. */
  datatype Item = Item(flag: Flag, values: seq<string>)

  predicate Settled(item: Item) {
    match item.flag
    case HelpFlag => false
    case UnknownFlag => false
    case PrenormFlag => |item.values| == 0
    case QuestionFlag => |item.values| == 2
    case OptionFlag => |item.values| == 2
    case _ => |item.values| == 1
  }

  predicate AllSettled(items: seq<Item>) { forall k :: 0 <= k < |items| ==> Settled(items[k]) }

  function Spelled(items: seq<Item>): seq<string> {
    if items == [] then [] else [Spelling(items[0].flag)] + items[0].values + Spelled(items[1..])
  }

  /** The value of the last setting under a flag. */
  function Last(items: seq<Item>, flag: Flag): Option<string> {
    if items == [] then None
    else
      var later := Last(items[1..], flag);
      if later.Some? then later
      else if items[0].flag == flag && |items[0].values| == 1 then Some(items[0].values[0]) else None
  }

  function Text(items: seq<Item>, flag: Flag, otherwise: string): string {
    if Last(items, flag).Some? then Last(items, flag).value else otherwise
  }

  function Number(items: seq<Item>, flag: Flag, otherwise: int): int {
    if Last(items, flag).Some? && ParseInt(Last(items, flag).value).Some? then ParseInt(Last(items, flag).value).value else otherwise
  }

  predicate Numeric(flag: Flag) { flag.HiddenFlag? || flag.LayersFlag? || flag.CtxFlag? || flag.GpuFlag? || flag.TapFlag? }

  /** Every number given can be read, and no tap is negative. */
  predicate Legible(item: Item) {
    Numeric(item.flag) ==>
      |item.values| == 1 && ParseInt(item.values[0]).Some? && (item.flag.TapFlag? ==> ParseInt(item.values[0]).value >= 0)
  }

  predicate AllLegible(items: seq<Item>) { forall k :: 0 <= k < |items| ==> Legible(items[k]) }

  predicate Present(items: seq<Item>, flag: Flag) { exists k :: 0 <= k < |items| && items[k].flag == flag }

  function Taps(items: seq<Item>): seq<int>
    requires AllLegible(items)
  {
    if items == [] then []
    else
      var more := Taps(items[1..]);
      if items[0].flag.TapFlag? then assert Legible(items[0]); [ParseInt(items[0].values[0]).value] + more else more
  }

  /** The labels (`field` 0) or files (1) of the options up to the next question. */
  function Options(items: seq<Item>, field: nat): seq<string>
    requires AllSettled(items) && field < 2
  {
    if items == [] || items[0].flag.QuestionFlag? then []
    else if items[0].flag.OptionFlag? then assert Settled(items[0]); [items[0].values[field]] + Options(items[1..], field)
    else Options(items[1..], field)
  }

  /** Each question with the options between it and the next one. */
  function Asked(items: seq<Item>): seq<Question>
    requires AllSettled(items)
  {
    if items == [] then []
    else if items[0].flag.QuestionFlag? then
      assert Settled(items[0]);
      [Question(items[0].values[0], items[0].values[1], Options(items[1..], 0), Options(items[1..], 1))] + Asked(items[1..])
    else Asked(items[1..])
  }

  predicate TextsGiven(items: seq<Item>, a: Args) {
    && a.model == Text(items, ModelFlag, "") && |a.model| > 0
    && a.modelSha256 == Text(items, ShaFlag, "") && |a.modelSha256| > 0
    && a.runtimeRevision == Text(items, RevisionFlag, "") && |a.runtimeRevision| > 0
    && a.stateFile == Text(items, StateFlag, "") && |a.stateFile| > 0
    && a.output == Text(items, OutputFlag, "") && |a.output| > 0
  }

  predicate NumbersGiven(items: seq<Item>, a: Args) {
    && AllLegible(items)
    && a.hiddenSize == Number(items, HiddenFlag, 5120) > 0
    && a.numLayers == Number(items, LayersFlag, 64) > 0
    && a.nCtx == Number(items, CtxFlag, 2048) > 0
    && a.nGpuLayers == Number(items, GpuFlag, 999)
  }

  /** The taps in ascending order, none twice, each a layer of the model; without any, the pre-norm state. */
  predicate TapsTaken(items: seq<Item>, a: Args)
    requires AllLegible(items)
  {
    && (a.finalPrenorm <==> Present(items, PrenormFlag))
    && (|a.taps| > 0 || a.finalPrenorm)
    && multiset(a.taps) == multiset(Taps(items))
    && (forall i, j :: 0 <= i < j < |a.taps| ==> a.taps[i] < a.taps[j])
    && (forall i :: 0 <= i < |a.taps| ==> 0 <= a.taps[i] < a.numLayers)
  }

  /** At least one question, each with a name, a type, and as many files as labels, and no option before the first. */
  predicate QuestionsAsked(items: seq<Item>, a: Args)
    requires AllSettled(items)
  {
    && a.questions == Asked(items) && |a.questions| > 0 && Options(items, 0) == []
    && forall k :: 0 <= k < |a.questions| ==>
         (var q := a.questions[k]; |q.name| > 0 && |q.kind| > 0 && |q.labels| > 0 && |q.files| == |q.labels|)
  }

  predicate Means(items: seq<Item>, a: Args) {
    AllSettled(items) && TextsGiven(items, a) && NumbersGiven(items, a) && TapsTaken(items, a) && QuestionsAsked(items, a)
  }

  // ----- The loop over settings ----------------------------------------------------------------

  lemma {:induction false} FoundIsSpelled(s: string, flags: seq<Flag>)
    ensures FindFlag(s, flags).UnknownFlag? || s == Spelling(FindFlag(s, flags))
  {
    if flags != [] {
      FoundIsSpelled(s, flags[1..]);
    }
  }

  lemma ArityOfSettled(item: Item)
    requires !item.flag.HelpFlag? && !item.flag.UnknownFlag?
    ensures Settled(item) <==> |item.values| == Arity(item.flag)
  {
  }

  function SetItems(a: Args, items: seq<Item>): Option<Args>
    requires AllSettled(items)
    decreases |items|
  {
    if items == [] then Some(a)
    else
      assert Settled(items[0]);
      var next := Set(a, items[0].flag, items[0].values);
      if next.None? then None else SetItems(next.value, items[1..])
  }

  lemma {:induction false} ParseItems(a: Args, items: seq<Item>)
    requires AllSettled(items)
    ensures ParseFrom(a, Spelled(items)) == if SetItems(a, items).None? then Failed else Check(SetItems(a, items).value)
    decreases |items|
  {
    if items != [] {
      var f, values := items[0].flag, items[0].values;
      assert Settled(items[0]);
      ParseSetting(a, f, values, Spelled(items[1..]));
      if Set(a, f, values).Some? {
        ParseItems(Set(a, f, values).value, items[1..]);
      }
    }
  }

  /** A flag that is understood makes a setting with the arguments behind it. */
  lemma FirstItem(a: Args, argv: seq<string>) returns (item: Item, rest: seq<string>)
    requires argv != [] && !FlagOf(argv[0]).HelpFlag? && !ParseFrom(a, argv).Failed?
    ensures Settled(item) && argv == [Spelling(item.flag)] + item.values + rest
    ensures Set(a, item.flag, item.values).Some? && ParseFrom(a, argv) == ParseFrom(Set(a, item.flag, item.values).value, rest)
  {
    var f := FlagOf(argv[0]);
    var n := Arity(f);
    FoundIsSpelled(argv[0], FLAGS);
    item, rest := Item(f, argv[1..1 + n]), argv[1 + n..];
    ArityOfSettled(item);
    assert argv == [argv[0]] + argv[1..1 + n] + argv[1 + n..];
  }

  /** An accepted command line is a list of settings. */
  lemma {:induction false} ItemsOf(a: Args, argv: seq<string>) returns (items: seq<Item>)
    requires ParseFrom(a, argv).Parsed?
    ensures AllSettled(items) && Spelled(items) == argv
    decreases |argv|
  {
    if argv == [] {
      items := [];
    } else {
      var item, rest := FirstItem(a, argv);
      var more := ItemsOf(Set(a, item.flag, item.values).value, rest);
      items := [item] + more;
      assert items[1..] == more;
    }
  }

  function Joined(questions: seq<Question>, labels: seq<string>, files: seq<string>): seq<Question> {
    if questions == [] then []
    else
      var last := |questions| - 1;
      questions[last := questions[last].(labels := questions[last].labels + labels, files := questions[last].files + files)]
  }

  /** The arguments after a list of settings. */
  function Filled(a: Args, items: seq<Item>): Args
    requires AllSettled(items) && AllLegible(items)
  {
    Args(Text(items, ModelFlag, a.model), Text(items, ShaFlag, a.modelSha256), Text(items, RevisionFlag, a.runtimeRevision),
         Text(items, StateFlag, a.stateFile), Text(items, OutputFlag, a.output), Number(items, HiddenFlag, a.hiddenSize),
         Number(items, LayersFlag, a.numLayers), Number(items, CtxFlag, a.nCtx), Number(items, GpuFlag, a.nGpuLayers),
         a.finalPrenorm || Present(items, PrenormFlag), a.taps + Taps(items),
         Joined(a.questions, Options(items, 0), Options(items, 1)) + Asked(items))
  }

  lemma {:induction false} LastIsLegible(items: seq<Item>, flag: Flag)
    requires AllLegible(items) && Numeric(flag) && Last(items, flag).Some?
    ensures ParseInt(Last(items, flag).value).Some?
  {
    assert Legible(items[0]);
    if Last(items[1..], flag).Some? {
      LastIsLegible(items[1..], flag);
    }
  }

  /** One setting fails exactly if its number cannot be read or it is an option without a question. */
  lemma SetExactly(a: Args, item: Item)
    requires Settled(item)
    ensures Set(a, item.flag, item.values).Some? <==> Legible(item) && (a.questions == [] ==> !item.flag.OptionFlag?)
  {
  }

  lemma LastOfOne(item: Item, flag: Flag)
    ensures Last([item], flag) == if item.flag == flag && |item.values| == 1 then Some(item.values[0]) else None
  {
    assert [item][1..] == [];
  }

  lemma SetText(a: Args, item: Item, flag: Flag, otherwise: string)
    requires Settled(item) && Arity(flag) == 1
    ensures Text([item], flag, otherwise) == if item.flag == flag then item.values[0] else otherwise
  {
    LastOfOne(item, flag);
  }

  lemma SetNumber(a: Args, item: Item, flag: Flag, otherwise: int)
    requires Settled(item) && Legible(item) && Numeric(flag)
    ensures Number([item], flag, otherwise) == if item.flag == flag then ParseInt(item.values[0]).value else otherwise
  {
    LastOfOne(item, flag);
  }

  lemma SetLists(item: Item)
    requires AllSettled([item]) && AllLegible([item])
    ensures Settled(item) && Legible(item)
    ensures Present([item], PrenormFlag) <==> item.flag.PrenormFlag?
    ensures Taps([item]) == if item.flag.TapFlag? then [ParseInt(item.values[0]).value] else []
    ensures Options([item], 0) == if item.flag.OptionFlag? then [item.values[0]] else []
    ensures Options([item], 1) == if item.flag.OptionFlag? then [item.values[1]] else []
    ensures Asked([item]) == if item.flag.QuestionFlag? then [Question(item.values[0], item.values[1], [], [])] else []
  {
    assert [item][0] == item && [item][1..] == [];
    assert Settled([item][0]) && Legible([item][0]);
  }

  lemma JoinedNothing(questions: seq<Question>)
    ensures Joined(questions, [], []) == questions
  {
    if questions != [] {
      var q := questions[|questions| - 1];
      assert q.labels + [] == q.labels && q.files + [] == q.files;
    }
  }

  lemma SetMeans(a: Args, item: Item)
    requires Settled(item) && AllSettled([item]) && AllLegible([item]) && Set(a, item.flag, item.values).Some?
    ensures Set(a, item.flag, item.values).value == Filled(a, [item])
  {
    SetLists(item);
    SetText(a, item, ModelFlag, a.model);
    SetText(a, item, ShaFlag, a.modelSha256);
    SetText(a, item, RevisionFlag, a.runtimeRevision);
    SetText(a, item, StateFlag, a.stateFile);
    SetText(a, item, OutputFlag, a.output);
    SetNumber(a, item, HiddenFlag, a.hiddenSize);
    SetNumber(a, item, LayersFlag, a.numLayers);
    SetNumber(a, item, CtxFlag, a.nCtx);
    SetNumber(a, item, GpuFlag, a.nGpuLayers);
    JoinedNothing(a.questions);
    assert a.taps + [] == a.taps && a.questions + [] == a.questions;
  }

  lemma TextTwice(item: Item, more: seq<Item>, flag: Flag, otherwise: string)
    ensures Text(more, flag, Text([item], flag, otherwise)) == Text([item] + more, flag, otherwise)
  {
    LastOfOne(item, flag);
    assert ([item] + more)[1..] == more;
  }

  lemma NumberTwice(item: Item, more: seq<Item>, flag: Flag, otherwise: int)
    requires Numeric(flag) && AllLegible(more)
    ensures Number(more, flag, Number([item], flag, otherwise)) == Number([item] + more, flag, otherwise)
  {
    LastOfOne(item, flag);
    assert ([item] + more)[1..] == more;
    if Last(more, flag).Some? {
      LastIsLegible(more, flag);
    }
  }

  lemma JoinedAfterQuestion(before: seq<Question>, q: Question, labels: seq<string>, files: seq<string>, asked: seq<Question>)
    requires q.labels == [] && q.files == []
    ensures Joined(Joined(before, [], []) + [q], labels, files) + asked ==
            Joined(before, [], []) + ([q.(labels := labels, files := files)] + asked)
  {
    var once := Joined(before, [], []) + [q];
    assert [] + labels == labels && [] + files == files;
    assert Joined(once, labels, files) == Joined(before, [], []) + [q.(labels := labels, files := files)];
  }

  lemma JoinedAfterOption(before: seq<Question>, text: string, file: string, labels: seq<string>, files: seq<string>)
    requires before != []
    ensures Joined(Joined(before, [text], [file]) + [], labels, files) == Joined(before, [text] + labels, [file] + files)
  {
    var q := before[|before| - 1];
    assert q.labels + [text] + labels == q.labels + ([text] + labels);
    assert q.files + [file] + files == q.files + ([file] + files);
    assert Joined(before, [text], [file]) + [] == Joined(before, [text], [file]);
  }

  lemma JoinedAfterOther(before: seq<Question>, labels: seq<string>, files: seq<string>)
    ensures Joined(Joined(before, [], []) + [], labels, files) == Joined(before, labels, files)
  {
    JoinedNothing(before);
    assert before + [] == before;
  }

  lemma JoinedTwice(before: seq<Question>, item: Item, more: seq<Item>)
    requires AllSettled([item] + more) && AllSettled([item]) && AllSettled(more) && AllLegible([item])
    requires before == [] ==> !item.flag.OptionFlag?
    ensures Joined(Joined(before, Options([item], 0), Options([item], 1)) + Asked([item]), Options(more, 0), Options(more, 1)) + Asked(more) ==
            Joined(before, Options([item] + more, 0), Options([item] + more, 1)) + Asked([item] + more)
  {
    var items, labels, files := [item] + more, Options(more, 0), Options(more, 1);
    SetLists(item);
    assert items[0] == item && items[1..] == more;
    if item.flag.QuestionFlag? {
      JoinedAfterQuestion(before, Question(item.values[0], item.values[1], [], []), labels, files, Asked(more));
    } else if item.flag.OptionFlag? {
      JoinedAfterOption(before, item.values[0], item.values[1], labels, files);
    } else {
      JoinedAfterOther(before, labels, files);
    }
  }

  lemma ListsTwice(item: Item, more: seq<Item>)
    requires AllLegible([item] + more) && AllLegible([item]) && AllLegible(more) && AllSettled([item])
    ensures Taps([item]) + Taps(more) == Taps([item] + more)
    ensures Present([item] + more, PrenormFlag) <==> Present([item], PrenormFlag) || Present(more, PrenormFlag)
  {
    var items := [item] + more;
    SetLists(item);
    assert items[0] == item && items[1..] == more;
    if Present(more, PrenormFlag) {
      var k :| 0 <= k < |more| && more[k].flag == PrenormFlag;
      assert items[k + 1].flag == PrenormFlag;
    }
    assert items[0].flag == item.flag;
    assert forall k :: 0 < k < |items| ==> items[k] == more[k - 1];
  }

  lemma TextsTwice(once: Args, whole: Args, a: Args, item: Item, more: seq<Item>)
    requires AllSettled([item] + more) && AllSettled([item]) && AllLegible([item] + more) && AllLegible([item])
    requires once == Filled(a, [item]) && whole == Filled(a, [item] + more)
    ensures Text(more, ModelFlag, once.model) == whole.model && Text(more, ShaFlag, once.modelSha256) == whole.modelSha256
    ensures Text(more, RevisionFlag, once.runtimeRevision) == whole.runtimeRevision
    ensures Text(more, StateFlag, once.stateFile) == whole.stateFile && Text(more, OutputFlag, once.output) == whole.output
  {
    TextTwice(item, more, ModelFlag, a.model);
    TextTwice(item, more, ShaFlag, a.modelSha256);
    TextTwice(item, more, RevisionFlag, a.runtimeRevision);
    TextTwice(item, more, StateFlag, a.stateFile);
    TextTwice(item, more, OutputFlag, a.output);
  }

  lemma NumbersTwice(once: Args, whole: Args, a: Args, item: Item, more: seq<Item>)
    requires AllSettled([item] + more) && AllSettled([item])
    requires AllLegible([item] + more) && AllLegible([item]) && AllLegible(more)
    requires once == Filled(a, [item]) && whole == Filled(a, [item] + more)
    ensures Number(more, HiddenFlag, once.hiddenSize) == whole.hiddenSize && Number(more, LayersFlag, once.numLayers) == whole.numLayers
    ensures Number(more, CtxFlag, once.nCtx) == whole.nCtx && Number(more, GpuFlag, once.nGpuLayers) == whole.nGpuLayers
  {
    NumberTwice(item, more, HiddenFlag, a.hiddenSize);
    NumberTwice(item, more, LayersFlag, a.numLayers);
    NumberTwice(item, more, CtxFlag, a.nCtx);
    NumberTwice(item, more, GpuFlag, a.nGpuLayers);
  }

  lemma QuestionsTwice(once: Args, whole: Args, a: Args, item: Item, more: seq<Item>)
    requires AllSettled([item] + more) && AllSettled([item]) && AllSettled(more) && AllLegible([item] + more) && AllLegible([item])
    requires a.questions == [] ==> !item.flag.OptionFlag?
    requires once == Filled(a, [item]) && whole == Filled(a, [item] + more)
    ensures Joined(once.questions, Options(more, 0), Options(more, 1)) + Asked(more) == whole.questions
  {
    assert once.questions == Joined(a.questions, Options([item], 0), Options([item], 1)) + Asked([item]);
    JoinedTwice(a.questions, item, more);
  }

  lemma TapsTwice(once: Args, whole: Args, a: Args, item: Item, more: seq<Item>)
    requires AllSettled([item] + more) && AllSettled([item])
    requires AllLegible([item] + more) && AllLegible([item]) && AllLegible(more)
    requires once == Filled(a, [item]) && whole == Filled(a, [item] + more)
    ensures once.taps + Taps(more) == whole.taps && (once.finalPrenorm || Present(more, PrenormFlag)) == whole.finalPrenorm
  {
    ListsTwice(item, more);
    var first, all := Present([item], PrenormFlag), Present([item] + more, PrenormFlag);
    assert once.taps == a.taps + Taps([item]) && whole.taps == a.taps + Taps([item] + more);
    assert once.finalPrenorm == (a.finalPrenorm || first) && whole.finalPrenorm == (a.finalPrenorm || all);
    Nested(a.taps, Taps([item]), Taps(more));
  }

  lemma FilledTwice(once: Args, whole: Args, a: Args, item: Item, more: seq<Item>)
    requires AllSettled([item] + more) && AllSettled([item]) && AllSettled(more)
    requires AllLegible([item] + more) && AllLegible([item]) && AllLegible(more)
    requires a.questions == [] ==> !item.flag.OptionFlag?
    requires once == Filled(a, [item]) && whole == Filled(a, [item] + more)
    ensures Filled(once, more) == whole
  {
    TextsTwice(once, whole, a, item, more);
    NumbersTwice(once, whole, a, item, more);
    QuestionsTwice(once, whole, a, item, more);
    TapsTwice(once, whole, a, item, more);
  }

  lemma SplitItems(items: seq<Item>)
    requires items != [] && AllSettled(items)
    ensures items == [items[0]] + items[1..] && AllSettled([items[0]]) && AllSettled(items[1..]) && Settled(items[0])
    ensures AllLegible(items) <==> Legible(items[0]) && AllLegible(items[1..])
    ensures Legible(items[0]) ==> AllLegible([items[0]])
  {
    assert items == [items[0]] + items[1..];
  }

  /** The settings in turn fail exactly for an illegible number or an early option, and otherwise fill in the arguments. */
  lemma {:induction false} SetItemsExactly(a: Args, items: seq<Item>)
    requires AllSettled(items)
    ensures SetItems(a, items).Some? <==> AllLegible(items) && (a.questions == [] ==> Options(items, 0) == [])
    ensures SetItems(a, items).Some? ==> SetItems(a, items).value == Filled(a, items)
    decreases |items|
  {
    if items == [] {
      JoinedNothing(a.questions);
      assert a.taps + [] == a.taps && a.questions + [] == a.questions;
    } else {
      var item, more := items[0], items[1..];
      SplitItems(items);
      SetExactly(a, item);
      var next := Set(a, item.flag, item.values);
      if next.Some? {
        SetMeans(a, item);
        SetItemsExactly(next.value, more);
        assert next.value.questions == [] <==> a.questions == [] && !item.flag.QuestionFlag?;
        if SetItems(next.value, more).Some? {
          FilledTwice(next.value, Filled(a, items), a, item, more);
        }
      }
    }
  }

  // ----- The checks at the end -----------------------------------------------------------------

  lemma StrictlySorted(taps: seq<int>)
    requires Sorted(IntLeq, taps)
    ensures AdjacentDistinct(taps) <==> forall i, j :: 0 <= i < j < |taps| ==> taps[i] < taps[j]
  {
    if AdjacentDistinct(taps) {
      forall i, j | 0 <= i < j < |taps| ensures taps[i] < taps[j] {
        assert IntLeq(taps[i], taps[i + 1]) && taps[i] != taps[i + 1];
        assert i + 1 < j ==> IntLeq(taps[i + 1], taps[j]);
      }
    }
  }

  /** `b` is `a` with its taps in ascending order, and everything the bridge needs is there. */
  predicate Complete(a: Args, b: Args) {
    && b == a.(taps := b.taps) && multiset(b.taps) == multiset(a.taps)
    && |a.model| > 0 && |a.modelSha256| > 0 && |a.runtimeRevision| > 0 && |a.stateFile| > 0 && |a.output| > 0
    && a.hiddenSize > 0 && a.numLayers > 0 && a.nCtx > 0
    && (|b.taps| > 0 || a.finalPrenorm)
    && (forall i, j :: 0 <= i < j < |b.taps| ==> b.taps[i] < b.taps[j])
    && (forall i :: 0 <= i < |b.taps| ==> b.taps[i] < a.numLayers)
    && |a.questions| > 0
    && forall k :: 0 <= k < |a.questions| ==>
         (var q := a.questions[k]; |q.name| > 0 && |q.kind| > 0 && |q.labels| > 0 && |q.files| == |q.labels|)
  }

  /** The checks at the end pass exactly complete arguments, and change nothing but the order of the taps. */
  lemma CheckExactly(a: Args, b: Args)
    ensures Check(a) == Parsed(b) <==> Complete(a, b)
    ensures Check(a).Parsed? || Check(a).Failed?
  {
    var taps := SortedTaps(a.taps);
    StrictlySorted(taps);
    IntOrder();
    if multiset(b.taps) == multiset(a.taps) && forall i, j :: 0 <= i < j < |b.taps| ==> b.taps[i] < b.taps[j] {
      SortedUnique(IntLeq, taps, b.taps);
    }
    if multiset(b.taps) == multiset(a.taps) {
      assert |multiset(b.taps)| == |b.taps| && |multiset(a.taps)| == |a.taps|;
    }
  }

  lemma {:induction false} TapsNonNegative(items: seq<Item>)
    requires AllLegible(items)
    ensures forall k :: 0 <= k < |Taps(items)| ==> Taps(items)[k] >= 0
  {
    if items != [] {
      assert Legible(items[0]);
      TapsNonNegative(items[1..]);
    }
  }

  lemma NonNegativeRearranged(a: seq<int>, b: seq<int>)
    requires multiset(a) == multiset(b) && forall k :: 0 <= k < |b| ==> b[k] >= 0
    ensures forall k :: 0 <= k < |a| ==> a[k] >= 0
  {
    forall k | 0 <= k < |a| ensures a[k] >= 0 {
      assert a[k] in multiset(b);
    }
  }

  /** The bridge starts, and with these arguments, on exactly the command lines that mean them. */
  lemma ParsedExactly(argv: seq<string>, a: Args)
    ensures ParseFrom(DefaultArgs(), argv) == Parsed(a) <==> exists items :: Spelled(items) == argv && Means(items, a)
  {
    if ParseFrom(DefaultArgs(), argv) == Parsed(a) {
      var items := ItemsOf(DefaultArgs(), argv);
      MeansExactly(items, a);
      ParseItems(DefaultArgs(), items);
    }
    if items :| Spelled(items) == argv && Means(items, a) {
      MeansExactly(items, a);
      ParseItems(DefaultArgs(), items);
    }
  }

  lemma MeansComplete(items: seq<Item>, filled: Args, a: Args)
    requires AllSettled(items) && AllLegible(items) && Options(items, 0) == [] && filled == Filled(DefaultArgs(), items)
    ensures Complete(filled, a) ==> Means(items, a)
    ensures Means(items, a) ==> Complete(filled, a)
  {
    assert filled.taps == Taps(items) && filled.questions == Asked(items);
    if Complete(filled, a) {
      TapsNonNegative(items);
      NonNegativeRearranged(a.taps, Taps(items));
    }
  }

  lemma MeansExactly(items: seq<Item>, a: Args)
    requires AllSettled(items)
    ensures Means(items, a) <==> SetItems(DefaultArgs(), items).Some? && Check(SetItems(DefaultArgs(), items).value) == Parsed(a)
  {
    SetItemsExactly(DefaultArgs(), items);
    if AllLegible(items) && Options(items, 0) == [] {
      CheckExactly(Filled(DefaultArgs(), items), a);
      MeansComplete(items, Filled(DefaultArgs(), items), a);
    }
  }

  // ----- Asking for help -----------------------------------------------------------------------

  predicate IsHelp(argument: string) { argument == "--help" || argument == ['-', 'h'] }

  /** A request for help after settings that would each be accepted. */
  predicate HelpAsked(argv: seq<string>, items: seq<Item>, rest: seq<string>) {
    && AllSettled(items) && AllLegible(items) && Options(items, 0) == []
    && rest != [] && IsHelp(rest[0]) && argv == Spelled(items) + rest
  }

  lemma {:induction false} ParseItemsThen(a: Args, items: seq<Item>, rest: seq<string>)
    requires AllSettled(items) && SetItems(a, items).Some?
    ensures ParseFrom(a, Spelled(items) + rest) == ParseFrom(SetItems(a, items).value, rest)
    decreases |items|
  {
    if items == [] {
      assert [] + rest == rest;
    } else {
      var f, values := items[0].flag, items[0].values;
      assert Settled(items[0]);
      assert Spelled(items) + rest == Setting(f, values) + (Spelled(items[1..]) + rest);
      ParseSetting(a, f, values, Spelled(items[1..]) + rest);
      ParseItemsThen(Set(a, f, values).value, items[1..], rest);
    }
  }

  lemma HelpIsHelp(argument: string)
    ensures FlagOf(argument).HelpFlag? <==> IsHelp(argument)
  {
    FoundIsSpelled(argument, FLAGS);
    FlagSpelled(HelpFlag);
  }

  lemma {:induction false} ItemsBeforeHelp(a: Args, argv: seq<string>) returns (items: seq<Item>, rest: seq<string>)
    requires ParseFrom(a, argv).HelpShown?
    ensures AllSettled(items) && argv == Spelled(items) + rest && SetItems(a, items).Some? && rest != [] && IsHelp(rest[0])
    decreases |argv|
  {
    HelpIsHelp(argv[0]);
    if FlagOf(argv[0]).HelpFlag? {
      items, rest := [], argv;
    } else {
      var item, behind := FirstItem(a, argv);
      var more;
      more, rest := ItemsBeforeHelp(Set(a, item.flag, item.values).value, behind);
      items := [item] + more;
      assert items[1..] == more;
    }
  }

  /** Help is shown exactly when it is asked for before anything that would be refused. */
  lemma HelpExactly(argv: seq<string>)
    ensures ParseFrom(DefaultArgs(), argv).HelpShown? <==> exists items, rest :: HelpAsked(argv, items, rest)
  {
    if ParseFrom(DefaultArgs(), argv).HelpShown? {
      var items, rest := ItemsBeforeHelp(DefaultArgs(), argv);
      SetItemsExactly(DefaultArgs(), items);
      assert HelpAsked(argv, items, rest);
    }
    if items, rest :| HelpAsked(argv, items, rest) {
      SetItemsExactly(DefaultArgs(), items);
      ParseItemsThen(DefaultArgs(), items, rest);
      HelpIsHelp(rest[0]);
    }
  }

  // ----- What is handed over -------------------------------------------------------------------

  /** The bridge is started on a command exactly when no argument holds a NUL character, and then on all but its name. */
  lemma LaunchExactly(command: seq<string>)
    requires command != []
    ensures LaunchOf(command).NotSpawned? <==> exists k :: 0 <= k < |command| && '\0' in command[k]
    ensures !LaunchOf(command).NotSpawned? ==> LaunchOf(command) == Ran(ParseFrom(DefaultArgs(), command[1..]))
  {
    forall k | 0 <= k < |command| ensures NoNul(command[k]) <==> '\0' !in command[k] {
    }
  }

  /** The path of an option's file has its number, in at least four digits and no more than it needs beyond that. */
  lemma OptionPathMeans(root: string, index: nat) returns (digits: string)
    ensures OptionPath(root, index) == root + "/option-" + digits + ".txt"
    ensures AllDigits(digits) && DecimalValue(digits) == index && |digits| >= 4 && (|digits| > 4 ==> digits[0] != '0')
  {
    digits := ZeroPadded(Decimal(index));
    ValueOfDecimal(index);
    PaddedMeans(Decimal(index));
  }

  lemma LeadingZero(s: string)
    requires AllDigits(s)
    ensures AllDigits(['0'] + s) && DecimalValue(['0'] + s) == DecimalValue(s)
    decreases |s|
  {
    var t := ['0'] + s;
    assert t[..|t| - 1] == ['0'] + s[..|s| - 1];
    if |s| > 1 {
      LeadingZero(s[..|s| - 1]);
    } else {
      assert t[..|t| - 1] == ['0'] && s[..0] == [] && ['0'][..0] == [];
    }
  }

  lemma {:induction false} PaddedMeans(s: string)
    requires AllDigits(s) && (|s| > 4 ==> s[0] != '0')
    ensures AllDigits(ZeroPadded(s)) && DecimalValue(ZeroPadded(s)) == DecimalValue(s)
    ensures |ZeroPadded(s)| >= 4 && (|ZeroPadded(s)| > 4 ==> ZeroPadded(s)[0] != '0')
    decreases if |s| < 4 then 4 - |s| else 0
  {
    if |s| < 4 {
      LeadingZero(s);
      PaddedMeans(['0'] + s);
    }
  }

  /** So each option of a command has a file of its own. */
  lemma OptionPathsDiffer(root: string, i: nat, j: nat)
    requires OptionPath(root, i) == OptionPath(root, j)
    ensures i == j
  {
    var a := OptionPathMeans(root, i);
    var b := OptionPathMeans(root, j);
    var start := |root + "/option-"|;
    assert |a| == |b|;
    assert OptionPath(root, i)[start..start + |a|] == a && OptionPath(root, j)[start..start + |b|] == b;
  }
}
