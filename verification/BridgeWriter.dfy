/**
 The native bridge's frame writer: byte-wise JSON escaping, the header spelled out piece by
 piece, and nested activation vectors written row by row.
 */
module BridgeWriter {
  import opened Utf8
  import opened Json
  import opened FrameFormat

  const PROVIDER := "bonsai2-ternary-llama-cpp"
  const PROMPT_CONTRACT := "my-jev-typed-decision-prompt-v1"
  const FLOAT_BYTES: nat := 4

  datatype Question = Question(name: string, kind: string, labels: seq<string>, files: seq<string>)

  /** The command line, parsed. Text stands for its UTF-8 bytes. */
  datatype Args = Args(model: string, modelSha256: string, runtimeRevision: string, stateFile: string, output: string,
                       hiddenSize: int, numLayers: int, nCtx: int, nGpuLayers: int, finalPrenorm: bool,
                       taps: seq<int>, questions: seq<Question>)

  /** `PromptActivations`: one row-major [token, hidden] block per tap. */
  datatype Prompt = Prompt(nTokens: nat, taps: seq<seq<Element>>)

  // ----- json_escape ---------------------------------------------------------------------

  function LowHex(n: nat): Byte
    requires n < 16
  {
    if n < 10 then 48 + n else 97 + n - 10
  }

  function EscapeByte(b: Byte): seq<Byte> {
    if b == 34 then [92, 34]
    else if b == 92 then [92, 92]
    else if b == 8 then [92, 98]
    else if b == 12 then [92, 102]
    else if b == 10 then [92, 110]
    else if b == 13 then [92, 114]
    else if b == 9 then [92, 116]
    else if b < 0x20 then [92, 117, 48, 48, LowHex(b / 16), LowHex(b % 16)]
    else [b]
  }

  function FlatMap<T>(f: T -> seq<T>, s: seq<T>): seq<T> {
    if s == [] then [] else f(s[0]) + FlatMap(f, s[1..])
  }

  lemma {:induction false} FlatMapConcat<T>(f: T -> seq<T>, a: seq<T>, b: seq<T>)
    ensures FlatMap(f, a + b) == FlatMap(f, a) + FlatMap(f, b)
  {
    if a == [] {
      assert a + b == b;
    } else {
      FlatMapConcat(f, a[1..], b);
      assert (a + b)[1..] == a[1..] + b;
    }
  }

  lemma FlatMapOne<T>(f: T -> seq<T>, x: T)
    ensures FlatMap(f, [x]) == f(x)
  {
    assert [x][1..] == [];
  }

  function EscapeBytes(value: seq<Byte>): seq<Byte> { FlatMap(EscapeByte, value) }

  lemma {:induction false} HighBytesPass(bytes: seq<Byte>)
    requires forall k :: 0 <= k < |bytes| ==> bytes[k] >= 0x80
    ensures EscapeBytes(bytes) == bytes
  {
    if bytes != [] {
      HighBytesPass(bytes[1..]);
      assert bytes == [bytes[0]] + bytes[1..];
    }
  }

  lemma {:induction false} EncodeAscii(s: string)
    requires forall k :: 0 <= k < |s| ==> s[k] as int < 0x80
    ensures |Encode(s)| == |s| && forall k :: 0 <= k < |s| ==> Encode(s)[k] == s[k] as int
  {
    if s != [] {
      EncodeAscii(s[1..]);
    }
  }

  lemma ControlEscape(c: char)
    requires c as int < 0x20
    ensures EscapeByte(c as int) == Encode(EscapeChar(Bridge, c))
  {
    EncodeAscii(EscapeChar(Bridge, c));
  }

  lemma EscapeOneChar(c: char)
    ensures EscapeBytes(EncodeChar(c)) == Encode(EscapeChar(Bridge, c))
  {
    var n := c as int;
    if n >= 0x80 {
      HighBytesPass(EncodeChar(c));
      assert [c][1..] == [];
    } else {
      FlatMapOne<Byte>(EscapeByte, n);
      if n < 0x20 {
        ControlEscape(c);
      } else {
        EncodeAscii(EscapeChar(Bridge, c));
      }
    }
  }

  /** Escaping the bytes of a text is the same as escaping its characters. */
  lemma {:induction false} EscapeEncoded(s: string)
    ensures EscapeBytes(Encode(s)) == Encode(Escape(Bridge, s))
  {
    if s != [] {
      EscapeEncoded(s[1..]);
      EscapeOneChar(s[0]);
      FlatMapConcat(EscapeByte, EncodeChar(s[0]), Encode(s[1..]));
      EncodeConcat(EscapeChar(Bridge, s[0]), Escape(Bridge, s[1..]));
    }
  }

  lemma EscapeBytesSnoc(a: seq<Byte>, b: Byte)
    ensures EscapeBytes(a + [b]) == EscapeBytes(a) + EscapeByte(b)
  {
    FlatMapConcat(EscapeByte, a, [b]);
    FlatMapOne(EscapeByte, b);
  }

  /** The bytes of `value` escaped so that a JSON parser returns it. */
  method JsonEscape(value: seq<Byte>) returns (out: seq<Byte>)
    ensures forall s: string :: value == Encode(s) ==> out == Encode(Escape(Bridge, s))
  {
    out := [];
    for i := 0 to |value|
      invariant out == EscapeBytes(value[..i])
    {
      var ch := value[i];
      EscapeBytesSnoc(value[..i], ch);
      assert value[..i + 1] == value[..i] + [ch];
      if ch == 34 {
        out := out + [92, 34];
      } else if ch == 92 {
        out := out + [92, 92];
      } else if ch == 8 {
        out := out + [92, 98];
      } else if ch == 12 {
        out := out + [92, 102];
      } else if ch == 10 {
        out := out + [92, 110];
      } else if ch == 13 {
        out := out + [92, 114];
      } else if ch == 9 {
        out := out + [92, 116];
      } else if ch < 0x20 {
        out := out + [92, 117, 48, 48];
        out := out + [LowHex(ch / 16)];
        out := out + [LowHex(ch % 16)];
      } else {
        out := out + [ch];
      }
    }
    assert value[..|value|] == value;
    forall s: string | value == Encode(s) ensures out == Encode(Escape(Bridge, s)) {
      EscapeEncoded(s);
    }
  }

  // ----- The text of a printed object, one member at a time ------------------------------------

  predicate Plain(s: string) {
    forall k :: 0 <= k < |s| ==> 0x20 <= s[k] as int < 0x7F && s[k] != '\"' && s[k] != '\\'
  }

  lemma {:induction false} PlainText(style: Style, s: string)
    requires Plain(s)
    ensures Escape(style, s) == s
  {
    if s != [] {
      PlainText(style, s[1..]);
      assert s == [s[0]] + s[1..];
    }
  }

  function KeyText(key: string): string { ['\"'] + key + ['\"', ':'] }

  /** A member and the comma after it. */
  function FieldText(key: string, v: Value): string { KeyText(key) + Print(Bridge, v) + [','] }

  function Fields(keys: seq<string>, values: seq<Value>, n: nat): string
    requires n <= |keys| == |values|
  {
    if n == 0 then [] else Fields(keys, values, n - 1) + FieldText(keys[n - 1], values[n - 1])
  }

  lemma PlainMember(key: string, v: Value)
    requires Plain(key)
    ensures PrintMember(Bridge, (key, v)) == KeyText(key) + Print(Bridge, v)
  {
    PlainText(Bridge, key);
  }

  lemma PrintFrom(members: seq<(string, Value)>, i: nat)
    requires i < |members|
    ensures PrintMembers(Bridge, members[i..]) ==
            if i == |members| - 1 then PrintMember(Bridge, members[i])
            else PrintMember(Bridge, members[i]) + [','] + PrintMembers(Bridge, members[i + 1..])
  {
    assert members[i..][1..] == members[i + 1..];
  }

  lemma Shift(before: string, field: string, after: string)
    ensures before + (field + after) == (before + field) + after
  {
  }

  lemma PrintFieldsStep(keys: seq<string>, values: seq<Value>, i: nat)
    requires i + 1 < |keys| == |values| && Plain(keys[i])
    ensures Fields(keys, values, i) + PrintMembers(Bridge, Members(keys, values)[i..]) ==
            Fields(keys, values, i + 1) + PrintMembers(Bridge, Members(keys, values)[i + 1..])
  {
    var m := Members(keys, values);
    PlainMember(keys[i], values[i]);
    PrintFrom(m, i);
    Shift(Fields(keys, values, i), FieldText(keys[i], values[i]), PrintMembers(Bridge, m[i + 1..]));
  }

  lemma {:induction false} PrintFields(keys: seq<string>, values: seq<Value>, i: nat)
    requires i < |keys| == |values| && forall k :: 0 <= k < |keys| ==> Plain(keys[k])
    ensures Fields(keys, values, i) + PrintMembers(Bridge, Members(keys, values)[i..]) ==
            Fields(keys, values, |keys| - 1) + (KeyText(keys[|keys| - 1]) + Print(Bridge, values[|keys| - 1]))
    decreases |keys| - i
  {
    if i + 1 < |keys| {
      PrintFieldsStep(keys, values, i);
      PrintFields(keys, values, i + 1);
    } else {
      PlainMember(keys[i], values[i]);
      PrintFrom(Members(keys, values), i);
    }
  }

  /** An object as the concatenation of its members' texts. */
  lemma ObjectText(keys: seq<string>, values: seq<Value>)
    requires 0 < |keys| == |values| && forall k :: 0 <= k < |keys| ==> Plain(keys[k])
    ensures Print(Bridge, Obj(Members(keys, values))) ==
            ['{'] + (Fields(keys, values, |keys| - 1) + (KeyText(keys[|keys| - 1]) + Print(Bridge, values[|keys| - 1]))) + ['}']
  {
    PrintFields(keys, values, 0);
    FromStart(Members(keys, values));
  }

  lemma FromStart(members: seq<(string, Value)>)
    ensures [] + PrintMembers(Bridge, members[0..]) == PrintMembers(Bridge, members)
  {
    assert members[0..] == members;
  }

  lemma GroupKeysPlain()
    ensures forall k :: 0 <= k < |GROUP_KEYS| ==> Plain(GROUP_KEYS[k])
  {
  }

  lemma FirstKeysPlain()
    ensures forall k :: 0 <= k < 5 ==> Plain(HEADER_KEYS[k])
  {
  }

  lemma MiddleKeysPlain()
    ensures forall k :: 5 <= k < 10 ==> Plain(HEADER_KEYS[k])
  {
  }

  lemma LastKeysPlain()
    ensures forall k :: 10 <= k < |HEADER_KEYS| ==> Plain(HEADER_KEYS[k])
  {
  }

  lemma {:induction false} ItemsSnoc(items: seq<Value>, v: Value)
    ensures PrintItems(Bridge, items + [v]) ==
            PrintItems(Bridge, items) + (if items == [] then [] else [',']) + Print(Bridge, v)
  {
    if |items| > 1 {
      ItemsSnoc(items[1..], v);
      assert (items + [v])[1..] == items[1..] + [v];
    } else if |items| == 1 {
      assert (items + [v])[1..] == [v];
    }
  }

  // ----- build_header --------------------------------------------------------------------

  /** One group per question, its options a slice of the frame's option axis. */
  function GroupsFrom(questions: seq<Question>, start: nat): (r: seq<Group>)
    ensures |r| == |questions|
  {
    if questions == [] then []
    else
      var q, end := questions[0], start + |questions[0].labels|;
      [Group(0, q.name, q.kind, q.labels, start, end)] + GroupsFrom(questions[1..], end)
  }

  function LabelCount(questions: seq<Question>): nat {
    if questions == [] then 0 else |questions[0].labels| + LabelCount(questions[1..])
  }

  lemma {:induction false} LabelCountSnoc(questions: seq<Question>, q: Question)
    ensures LabelCount(questions + [q]) == LabelCount(questions) + |q.labels|
  {
    if questions == [] {
      assert [q][1..] == [];
    } else {
      LabelCountSnoc(questions[1..], q);
      assert (questions + [q])[1..] == questions[1..] + [q];
    }
  }

  lemma {:induction false} GroupsSnoc(questions: seq<Question>, q: Question, start: nat)
    ensures GroupsFrom(questions + [q], start) ==
            GroupsFrom(questions, start) +
            [Group(0, q.name, q.kind, q.labels, start + LabelCount(questions), start + LabelCount(questions) + |q.labels|)]
  {
    if questions == [] {
      assert [q][1..] == [];
    } else {
      GroupsSnoc(questions[1..], q, start + |questions[0].labels|);
      assert (questions + [q])[1..] == questions[1..] + [q];
    }
  }

  function BridgeHeader(args: Args, stateTokens: nat, tapCount: nat, optionCount: nat,
                        stateBytes: nat, stateMaskBytes: nat, optionBytes: nat, optionMaskBytes: nat): Header
    requires args.hiddenSize >= 0
  {
    Header("float32", GroupsFrom(args.questions, 0), args.modelSha256, optionBytes, optionMaskBytes,
           [1, optionCount], [1, optionCount, tapCount, args.hiddenSize], PROMPT_CONTRACT, PROVIDER,
           args.runtimeRevision, stateBytes, stateMaskBytes, [1, stateTokens],
           [1, tapCount, stateTokens, args.hiddenSize], FRAME_VERSION)
  }

  method Append(json: seq<Byte>, ghost text: string, piece: string) returns (r: seq<Byte>)
    requires json == Encode(text)
    ensures r == Encode(text + piece)
  {
    EncodeConcat(text, piece);
    r := json + Encode(piece);
  }

  lemma Joined3(text: string, a: string, b: string, c: string)
    ensures text + a + b + c == text + (a + b + c)
  {
  }

  method AppendEscaped(json: seq<Byte>, ghost text: string, value: string) returns (r: seq<Byte>)
    requires json == Encode(text)
    ensures r == Encode(text + Quote(Bridge, value))
  {
    ghost var open := text + ['\"'];
    r := Append(json, text, ['\"']);
    var escaped := JsonEscape(Encode(value));
    EncodeConcat(open, Escape(Bridge, value));
    r := Append(r + escaped, open + Escape(Bridge, value), ['\"']);
    Joined3(text, ['\"'], Escape(Bridge, value), ['\"']);
  }

  method AppendText(json: seq<Byte>, ghost text: string, key: string, value: string) returns (r: seq<Byte>)
    requires json == Encode(text)
    ensures r == Encode(text + FieldText(key, Str(value)))
  {
    ghost var named := text + KeyText(key);
    r := Append(json, text, KeyText(key));
    r := AppendEscaped(r, named, value);
    r := Append(r, named + Quote(Bridge, value), [',']);
    Joined3(text, KeyText(key), Quote(Bridge, value), [',']);
  }

  method AppendNumber(json: seq<Byte>, ghost text: string, key: string, n: nat) returns (r: seq<Byte>)
    requires json == Encode(text)
    ensures r == Encode(text + FieldText(key, Num(n)))
  {
    r := Append(json, text, KeyText(key) + Decimal(n) + [',']);
  }

  lemma ItemsCons(v: Value, rest: seq<Value>)
    requires rest != []
    ensures PrintItems(Bridge, [v] + rest) == Print(Bridge, v) + [','] + PrintItems(Bridge, rest)
  {
    assert ([v] + rest)[1..] == rest;
  }

  lemma PairText(a: nat, b: nat)
    ensures Print(Bridge, NumsJson([a, b])) == ['['] + (Decimal(a) + [','] + Decimal(b)) + [']']
  {
    ItemsCons(Num(a), [Num(b)]);
    assert NumsJson([a, b]).items == [Num(a)] + [Num(b)];
  }

  lemma QuadText(a: nat, b: nat, c: nat, d: nat)
    ensures Print(Bridge, NumsJson([a, b, c, d])) ==
            ['['] + (Decimal(a) + [','] + (Decimal(b) + [','] + (Decimal(c) + [','] + Decimal(d)))) + [']']
  {
    ItemsCons(Num(c), [Num(d)]);
    ItemsCons(Num(b), [Num(c)] + [Num(d)]);
    ItemsCons(Num(a), [Num(b)] + ([Num(c)] + [Num(d)]));
    assert NumsJson([a, b, c, d]).items == [Num(a)] + ([Num(b)] + ([Num(c)] + [Num(d)]));
  }

  method AppendPair(json: seq<Byte>, ghost text: string, key: string, a: nat, b: nat) returns (r: seq<Byte>)
    requires json == Encode(text)
    ensures r == Encode(text + FieldText(key, NumsJson([a, b])))
  {
    PairText(a, b);
    var dims := ['['] + (Decimal(a) + [','] + Decimal(b)) + [']'];
    r := Append(json, text, KeyText(key) + dims + [',']);
  }

  method AppendQuad(json: seq<Byte>, ghost text: string, key: string, a: nat, b: nat, c: nat, d: nat) returns (r: seq<Byte>)
    requires json == Encode(text)
    ensures r == Encode(text + FieldText(key, NumsJson([a, b, c, d])))
  {
    QuadText(a, b, c, d);
    var dims := ['['] + (Decimal(a) + [','] + (Decimal(b) + [','] + (Decimal(c) + [','] + Decimal(d)))) + [']'];
    r := Append(json, text, KeyText(key) + dims + [',']);
  }

  /** The text of the first `i` items of an array. */
  function ItemsText(values: seq<Value>, i: nat): string
    requires i <= |values|
  {
    PrintItems(Bridge, values[..i])
  }

  lemma NextItemText(text: string, values: seq<Value>, i: nat)
    requires i < |values|
    ensures text + ItemsText(values, i + 1) ==
            (if i > 0 then text + ItemsText(values, i) + [','] else text + ItemsText(values, i)) + Print(Bridge, values[i])
  {
    assert values[..i + 1] == values[..i] + [values[i]];
    ItemsSnoc(values[..i], values[i]);
  }

  method AppendComma(json: seq<Byte>, ghost text: string, i: nat) returns (r: seq<Byte>)
    requires json == Encode(text)
    ensures r == Encode(if i > 0 then text + [','] else text)
  {
    r := json;
    if i > 0 {
      r := Append(json, text, [',']);
    }
  }

  method AppendLabels(json: seq<Byte>, ghost text: string, labels: seq<string>) returns (r: seq<Byte>)
    requires json == Encode(text)
    ensures r == Encode(text + PrintItems(Bridge, TextsJson(labels).items))
  {
    ghost var values := TextsJson(labels).items;
    r := json;
    assert text + ItemsText(values, 0) == text;
    for i := 0 to |labels|
      invariant r == Encode(text + ItemsText(values, i))
    {
      ghost var written := text + ItemsText(values, i);
      NextItemText(text, values, i);
      r := AppendComma(r, written, i);
      r := AppendEscaped(r, if i > 0 then written + [','] else written, labels[i]);
    }
    assert values[..|labels|] == values;
  }

  lemma Grow(before: string, keys: seq<string>, values: seq<Value>, k: nat)
    requires k < |keys| == |values|
    ensures before + Fields(keys, values, k) + FieldText(keys[k], values[k]) == before + Fields(keys, values, k + 1)
  {
  }

  lemma Close(before: string, fields: string, key: string, last: string)
    ensures before + ['{'] + fields + key + last + ['}'] == before + (['{'] + (fields + (key + last)) + ['}'])
  {
  }

  method AppendOptions(json: seq<Byte>, ghost text: string, labels: seq<string>) returns (r: seq<Byte>)
    requires json == Encode(text)
    ensures r == Encode(text + FieldText("options", TextsJson(labels)))
  {
    ghost var items := PrintItems(Bridge, TextsJson(labels).items);
    r := Append(json, text, KeyText("options") + ['[']);
    r := AppendLabels(r, text + (KeyText("options") + ['[']), labels);
    r := Append(r, text + (KeyText("options") + ['[']) + items, [']', ',']);
    OptionsJoined(text, KeyText("options"), items);
  }

  lemma OptionsJoined(text: string, key: string, items: string)
    ensures text + (key + ['[']) + items + [']', ','] == text + (key + (['['] + items + [']']) + [','])
  {
  }

  method AppendGroup(json: seq<Byte>, ghost text: string, question: Question, start: nat, end: nat) returns (r: seq<Byte>)
    requires json == Encode(text)
    ensures r == Encode(text + Print(Bridge, GroupJson(Group(0, question.name, question.kind, question.labels, start, end))))
  {
    ghost var keys, values := GROUP_KEYS, GroupValues(Group(0, question.name, question.kind, question.labels, start, end));
    ghost var before := text + ['{'];
    r := Append(json, text, ['{']);
    assert before + Fields(keys, values, 0) == before;
    Grow(before, keys, values, 0);
    r := AppendText(r, before, "name", question.name);
    Grow(before, keys, values, 1);
    r := AppendNumber(r, before + Fields(keys, values, 1), "option_end", end);
    Grow(before, keys, values, 2);
    r := AppendNumber(r, before + Fields(keys, values, 2), "option_start", start);
    Grow(before, keys, values, 3);
    r := AppendOptions(r, before + Fields(keys, values, 3), question.labels);
    Grow(before, keys, values, 4);
    r := AppendNumber(r, before + Fields(keys, values, 4), "record_index", 0);
    r := Append(r, before + Fields(keys, values, 5), KeyText("type"));
    r := AppendEscaped(r, before + Fields(keys, values, 5) + KeyText("type"), question.kind);
    r := Append(r, before + Fields(keys, values, 5) + KeyText("type") + Quote(Bridge, question.kind), ['}']);
    Close(text, Fields(keys, values, 5), KeyText("type"), Quote(Bridge, question.kind));
    GroupKeysPlain();
    ObjectText(keys, values);
  }

  /** The array of groups, with running slice offsets. */
  method AppendGroups(json: seq<Byte>, ghost text: string, questions: seq<Question>) returns (r: seq<Byte>)
    requires json == Encode(text)
    ensures r == Encode(text + FieldText("groups", GroupsJson(GroupsFrom(questions, 0))))
  {
    ghost var groups := GroupsFrom(questions, 0);
    ghost var values := GroupsJson(groups).items;
    ghost var before := text + (KeyText("groups") + ['[']);
    r := Append(json, text, KeyText("groups") + ['[']);
    assert before + ItemsText(values, 0) == before;
    var offset := 0;
    for q := 0 to |questions|
      invariant offset == LabelCount(questions[..q])
      invariant r == Encode(before + ItemsText(values, q))
    {
      ghost var written := before + ItemsText(values, q);
      NextItemText(before, values, q);
      GroupAt(questions, q);
      r := AppendComma(r, written, q);
      var start := offset;
      var end := start + |questions[q].labels|;
      r := AppendGroup(r, if q > 0 then written + [','] else written, questions[q], start, end);
      offset := end;
    }
    assert values[..|questions|] == values;
    r := Append(r, before + PrintItems(Bridge, values), [']', ',']);
    OptionsJoined(text, KeyText("groups"), PrintItems(Bridge, values));
  }

  /** Group `q` starts where the questions before it end. */
  lemma {:induction false} GroupFrom(questions: seq<Question>, q: nat, start: nat)
    requires q < |questions|
    ensures var g := questions[q]; var at := start + LabelCount(questions[..q]);
            GroupsFrom(questions, start)[q] == Group(0, g.name, g.kind, g.labels, at, at + |g.labels|)
  {
    if q > 0 {
      GroupFrom(questions[1..], q - 1, start + |questions[0].labels|);
      assert questions[..q][1..] == questions[1..][..q - 1];
    }
  }

  lemma GroupAt(questions: seq<Question>, q: nat)
    requires q < |questions|
    ensures var g := questions[q]; var at := LabelCount(questions[..q]);
            GroupsFrom(questions, 0)[q] == Group(0, g.name, g.kind, g.labels, at, at + |g.labels|)
    ensures LabelCount(questions[..q + 1]) == LabelCount(questions[..q]) + |questions[q].labels|
  {
    GroupFrom(questions, q, 0);
    LabelCountSnoc(questions[..q], questions[q]);
    assert questions[..q + 1] == questions[..q] + [questions[q]];
  }

  /** The header up to and including its first `k` members. */
  function HeaderStart(h: Header, k: nat): string
    requires k <= |HEADER_KEYS|
  {
    ['{'] + Fields(HEADER_KEYS, HeaderValues(h), k)
  }

  lemma NextField(h: Header, k: nat, key: string, value: Value)
    requires k < |HEADER_KEYS| && HEADER_KEYS[k] == key && HeaderValues(h)[k] == value
    ensures HeaderStart(h, k) + FieldText(key, value) == HeaderStart(h, k + 1)
  {
    Grow(['{'], HEADER_KEYS, HeaderValues(h), k);
  }

  method AppendTypeAndGroups(json: seq<Byte>, ghost h: Header, dtype: string, questions: seq<Question>) returns (r: seq<Byte>)
    requires json == Encode(HeaderStart(h, 0)) && h.dtype == dtype && h.groups == GroupsFrom(questions, 0)
    ensures r == Encode(HeaderStart(h, 2))
  {
    NextField(h, 0, "dtype", Str(dtype));
    r := AppendText(json, HeaderStart(h, 0), "dtype", dtype);
    NextField(h, 1, "groups", GroupsJson(h.groups));
    r := AppendGroups(r, HeaderStart(h, 1), questions);
  }

  method AppendModel(json: seq<Byte>, ghost h: Header, modelSha256: string, optionBytes: nat, optionMaskBytes: nat)
    returns (r: seq<Byte>)
    requires json == Encode(HeaderStart(h, 2)) && h.modelSha256 == modelSha256
    requires h.optionBytes == optionBytes && h.optionMaskBytes == optionMaskBytes
    ensures r == Encode(HeaderStart(h, 5))
  {
    NextField(h, 2, "model_sha256", Str(modelSha256));
    r := AppendText(json, HeaderStart(h, 2), "model_sha256", modelSha256);
    NextField(h, 3, "option_bytes", Num(optionBytes));
    r := AppendNumber(r, HeaderStart(h, 3), "option_bytes", optionBytes);
    NextField(h, 4, "option_mask_bytes", Num(optionMaskBytes));
    r := AppendNumber(r, HeaderStart(h, 4), "option_mask_bytes", optionMaskBytes);
  }

  method AppendOptionShapes(json: seq<Byte>, ghost h: Header, optionCount: nat, tapCount: nat, hiddenSize: nat) returns (r: seq<Byte>)
    requires json == Encode(HeaderStart(h, 5))
    requires h.optionMaskShape == [1, optionCount] && h.optionShape == [1, optionCount, tapCount, hiddenSize]
    ensures r == Encode(HeaderStart(h, 7))
  {
    NextField(h, 5, "option_mask_shape", NumsJson(h.optionMaskShape));
    r := AppendPair(json, HeaderStart(h, 5), "option_mask_shape", 1, optionCount);
    NextField(h, 6, "option_shape", NumsJson(h.optionShape));
    r := AppendQuad(r, HeaderStart(h, 6), "option_shape", 1, optionCount, tapCount, hiddenSize);
  }

  method AppendProvenance(json: seq<Byte>, ghost h: Header, promptContract: string, provider: string, runtimeRevision: string)
    returns (r: seq<Byte>)
    requires json == Encode(HeaderStart(h, 7))
    requires h.promptContract == promptContract && h.provider == provider && h.runtimeRevision == runtimeRevision
    ensures r == Encode(HeaderStart(h, 10))
  {
    NextField(h, 7, "prompt_contract", Str(promptContract));
    r := AppendText(json, HeaderStart(h, 7), "prompt_contract", promptContract);
    NextField(h, 8, "provider", Str(provider));
    r := AppendText(r, HeaderStart(h, 8), "provider", provider);
    NextField(h, 9, "runtime_revision", Str(runtimeRevision));
    r := AppendText(r, HeaderStart(h, 9), "runtime_revision", runtimeRevision);
  }

  method AppendState(json: seq<Byte>, ghost h: Header, stateBytes: nat, stateMaskBytes: nat,
                     tapCount: nat, stateTokens: nat, hiddenSize: nat)
    returns (r: seq<Byte>)
    requires json == Encode(HeaderStart(h, 10)) && h.stateBytes == stateBytes && h.stateMaskBytes == stateMaskBytes
    requires h.stateMaskShape == [1, stateTokens] && h.stateShape == [1, tapCount, stateTokens, hiddenSize]
    ensures r == Encode(HeaderStart(h, 14))
  {
    NextField(h, 10, "state_bytes", Num(stateBytes));
    r := AppendNumber(json, HeaderStart(h, 10), "state_bytes", stateBytes);
    NextField(h, 11, "state_mask_bytes", Num(stateMaskBytes));
    r := AppendNumber(r, HeaderStart(h, 11), "state_mask_bytes", stateMaskBytes);
    NextField(h, 12, "state_mask_shape", NumsJson(h.stateMaskShape));
    r := AppendPair(r, HeaderStart(h, 12), "state_mask_shape", 1, stateTokens);
    NextField(h, 13, "state_shape", NumsJson(h.stateShape));
    r := AppendQuad(r, HeaderStart(h, 13), "state_shape", 1, tapCount, stateTokens, hiddenSize);
  }

  lemma HeaderText(h: Header)
    ensures HeaderStart(h, 14) + KeyText(HEADER_KEYS[14]) + Print(Bridge, HeaderValues(h)[14]) + ['}'] ==
            Print(Bridge, HeaderJson(h))
  {
    FirstKeysPlain();
    MiddleKeysPlain();
    LastKeysPlain();
    ObjectText(HEADER_KEYS, HeaderValues(h));
    Close([], Fields(HEADER_KEYS, HeaderValues(h), 14), KeyText(HEADER_KEYS[14]), Print(Bridge, HeaderValues(h)[14]));
  }

  /** The header text, member by member, is the JSON document the reader expects. */
  method BuildHeader(args: Args, stateTokens: nat, tapCount: nat, optionCount: nat,
                     stateBytes: nat, stateMaskBytes: nat, optionBytes: nat, optionMaskBytes: nat) returns (json: seq<Byte>)
    requires args.hiddenSize >= 0
    ensures json == Encode(Print(Bridge, HeaderJson(BridgeHeader(args, stateTokens, tapCount, optionCount,
                                                                 stateBytes, stateMaskBytes, optionBytes, optionMaskBytes))))
  {
    ghost var h := BridgeHeader(args, stateTokens, tapCount, optionCount, stateBytes, stateMaskBytes, optionBytes, optionMaskBytes);
    json := Append([], [], ['{']);
    assert [] + ['{'] == HeaderStart(h, 0);
    json := AppendTypeAndGroups(json, h, "float32", args.questions);
    json := AppendModel(json, h, args.modelSha256, optionBytes, optionMaskBytes);
    json := AppendOptionShapes(json, h, optionCount, tapCount, args.hiddenSize);
    json := AppendProvenance(json, h, PROMPT_CONTRACT, PROVIDER, args.runtimeRevision);
    json := AppendState(json, h, stateBytes, stateMaskBytes, tapCount, stateTokens, args.hiddenSize);
    ghost var last := HeaderStart(h, 14) + KeyText("version");
    json := Append(json, HeaderStart(h, 14), KeyText("version"));
    json := AppendEscaped(json, last, FRAME_VERSION);
    json := Append(json, last + Quote(Bridge, FRAME_VERSION), ['}']);
    HeaderText(h);
  }
}
