/** `write_frame`: what the native writer puts on disk, and where the reader finds each scalar. */
module BridgeFrame {
  import opened Tensors
  import opened Utf8
  import opened Json
  import opened FrameFormat
  import opened FrameStream
  import opened BridgeWriter

  const FLOAT32 := "float32"

  /** The option activations, [option][tap][hidden]. */
  type Pooled = seq<seq<seq<Element>>>

  /** What `capture_prompt` and the argument checks guarantee before the frame is written. */
  ghost predicate Captured(args: Args, state: Prompt, options: Pooled) {
    && args.hiddenSize > 0 && state.nTokens > 0
    && (forall t :: 0 <= t < |state.taps| ==> |state.taps[t]| == state.nTokens * args.hiddenSize && Uniform(state.taps[t], FLOAT_BYTES))
    && (forall o, t :: 0 <= o < |options| && 0 <= t < |options[o]| ==> Uniform(options[o][t], FLOAT_BYTES))
  }

  predicate OptionSized(args: Args, tapCount: nat, option: seq<seq<Element>>) {
    && |option| == tapCount
    && forall t :: 0 <= t < |option| ==> |option[t]| == args.hiddenSize
  }

  predicate OptionsSized(args: Args, tapCount: nat, options: Pooled) {
    forall o :: 0 <= o < |options| ==> OptionSized(args, tapCount, options[o])
  }

  /** The rows of the option tensor, in the order they are written. */
  function OptionRows(options: Pooled): seq<seq<Element>> { Concat(options) }

  /** The frame that the native writer describes. */
  function NativeFrame(args: Args, state: Prompt, options: Pooled): Frame
    requires args.hiddenSize >= 0
  {
    Frame(PROVIDER, args.modelSha256, args.runtimeRevision, PROMPT_CONTRACT,
          Tensor([1, |state.taps|, state.nTokens, args.hiddenSize], Concat(state.taps)),
          Tensor([1, state.nTokens], seq(state.nTokens, _ => true)),
          Tensor([1, |options|, |state.taps|, args.hiddenSize], Concat(OptionRows(options))),
          Tensor([1, |options|], seq(|options|, _ => true)),
          GroupsFrom(args.questions, 0))
  }

  // ----- Sizes -------------------------------------------------------------------------------

  lemma Product2(a: nat, b: nat)
    ensures Product([a, b]) == a * b
  {
    assert [a, b][1..] == [b] && [b][1..] == [];
    assert Product([b]) == b;
  }

  lemma Product4(a: nat, b: nat, c: nat)
    ensures Product([1, a, b, c]) == a * b * c
  {
    assert [1, a, b, c][1..] == [a, b, c] && [a, b, c][1..] == [b, c];
    Product2(b, c);
    assert a * (b * c) == a * b * c;
  }

  lemma {:induction false} ConcatUniform(rows: seq<seq<Element>>, width: nat)
    requires forall i :: 0 <= i < |rows| ==> Uniform(rows[i], width)
    ensures Uniform(Concat(rows), width)
  {
    if rows != [] {
      ConcatUniform(rows[1..], width);
    }
  }

  lemma {:induction false} ConcatMembers<T>(rows: seq<seq<T>>, i: nat)
    requires i < |Concat(rows)|
    ensures exists r, c :: 0 <= r < |rows| && 0 <= c < |rows[r]| && rows[r][c] == Concat(rows)[i]
  {
    if i < |rows[0]| {
      assert rows[0][i] == Concat(rows)[i];
    } else {
      ConcatMembers(rows[1..], i - |rows[0]|);
      var r, c :| 0 <= r < |rows[1..]| && 0 <= c < |rows[1..][r]| && rows[1..][r][c] == Concat(rows[1..])[i - |rows[0]|];
      assert rows[r + 1][c] == Concat(rows)[i];
    }
  }

  lemma OptionRowsSized(args: Args, tapCount: nat, options: Pooled)
    requires args.hiddenSize >= 0 && OptionsSized(args, tapCount, options)
    requires forall o, t :: 0 <= o < |options| && 0 <= t < |options[o]| ==> Uniform(options[o][t], FLOAT_BYTES)
    ensures |OptionRows(options)| == |options| * tapCount && Uniform(OptionRows(options), args.hiddenSize)
    ensures |Concat(OptionRows(options))| == |options| * tapCount * args.hiddenSize
    ensures Uniform(Concat(OptionRows(options)), FLOAT_BYTES)
  {
    var rows := OptionRows(options);
    assert Uniform(options, tapCount);
    ConcatLength(options, tapCount);
    forall i | 0 <= i < |rows| ensures |rows[i]| == args.hiddenSize && Uniform(rows[i], FLOAT_BYTES) {
      ConcatMembers(options, i);
      var o, t :| 0 <= o < |options| && 0 <= t < |options[o]| && options[o][t] == rows[i];
      assert OptionSized(args, tapCount, options[o]);
    }
    ConcatLength(rows, args.hiddenSize);
    ConcatUniform(rows, FLOAT_BYTES);
  }

  lemma StateTyped(args: Args, state: Prompt, options: Pooled)
    requires Captured(args, state, options)
    ensures |Concat(state.taps)| == |state.taps| * state.nTokens * args.hiddenSize
    ensures Uniform(Concat(state.taps), FLOAT_BYTES)
  {
    ConcatLength(state.taps, state.nTokens * args.hiddenSize);
    assert |state.taps| * (state.nTokens * args.hiddenSize) == |state.taps| * state.nTokens * args.hiddenSize;
    ConcatUniform(state.taps, FLOAT_BYTES);
  }

  lemma NativeFrameTyped(args: Args, state: Prompt, options: Pooled)
    requires Captured(args, state, options) && OptionsSized(args, |state.taps|, options)
    ensures WellTyped(NativeFrame(args, state, options), FLOAT_BYTES)
    ensures |NativeFrame(args, state, options).stateTaps.data| == |state.taps| * state.nTokens * args.hiddenSize
    ensures |NativeFrame(args, state, options).optionTaps.data| == |options| * |state.taps| * args.hiddenSize
  {
    Product4(|state.taps|, state.nTokens, args.hiddenSize);
    Product4(|options|, |state.taps|, args.hiddenSize);
    Product2(1, state.nTokens);
    Product2(1, |options|);
    StateTyped(args, state, options);
    OptionRowsSized(args, |state.taps|, options);
  }

  // ----- Where the reader finds each scalar -----------------------------------------------------

  lemma Offset4(a: nat, b: nat, c: nat, i: nat, j: nat, k: nat)
    requires i < a && j < b && k < c
    ensures InBounds([1, a, b, c], [0, i, j, k]) && Offset([1, a, b, c], [0, i, j, k]) == (i * b + j) * c + k
  {
    var shape, index := [1, a, b, c], [0, i, j, k];
    assert shape[1..] == [a, b, c] && index[1..] == [i, j, k];
    assert [a, b, c][1..] == [b, c] && [i, j, k][1..] == [j, k];
    assert [b, c][1..] == [c] && [j, k][1..] == [k];
    assert [c][1..] == [] && [k][1..] == [];
    Product2(b, c);
    assert Offset([b, c], [j, k]) == j * c + k;
    assert Offset([a, b, c], [i, j, k]) == i * (b * c) + (j * c + k);
    Distribute(i, b, j, c);
  }

  lemma Distribute(i: nat, b: nat, j: nat, c: nat)
    ensures i * (b * c) + j * c == (i * b + j) * c
  {
  }

  /** Element [0, o, t, h] of the option tensor is `options[o][t][h]`. */
  lemma OptionElement(args: Args, state: Prompt, options: Pooled, o: nat, t: nat, h: nat)
    requires Captured(args, state, options) && OptionsSized(args, |state.taps|, options)
    requires o < |options| && t < |state.taps| && h < args.hiddenSize
    ensures var taps := NativeFrame(args, state, options).optionTaps;
            WellSized(taps) && InBounds(taps.shape, [0, o, t, h]) && At(taps, [0, o, t, h]) ==
            (assert OptionSized(args, |state.taps|, options[o]); options[o][t][h])
  {
    NativeFrameTyped(args, state, options);
    OptionRowsSized(args, |state.taps|, options);
    Offset4(|options|, |state.taps|, args.hiddenSize, o, t, h);
    assert OptionSized(args, |state.taps|, options[o]);
    ConcatAt(options, |state.taps|, o, t);
    ConcatAt(OptionRows(options), args.hiddenSize, o * |state.taps| + t, h);
  }

  /** Element [0, t, n, h] of the state tensor is scalar `n * hidden + h` of tap `t`. */
  lemma StateElement(args: Args, state: Prompt, options: Pooled, t: nat, n: nat, h: nat)
    requires Captured(args, state, options) && OptionsSized(args, |state.taps|, options)
    requires t < |state.taps| && n < state.nTokens && h < args.hiddenSize
    ensures var taps := NativeFrame(args, state, options).stateTaps;
            WellSized(taps) && InBounds(taps.shape, [0, t, n, h]) && At(taps, [0, t, n, h]) ==
            (StepWithin(n, state.nTokens, args.hiddenSize, h); state.taps[t][n * args.hiddenSize + h])
  {
    NativeFrameTyped(args, state, options);
    Offset4(|state.taps|, state.nTokens, args.hiddenSize, t, n, h);
    StepWithin(n, state.nTokens, args.hiddenSize, h);
    ConcatAt(state.taps, state.nTokens * args.hiddenSize, t, n * args.hiddenSize + h);
    Distribute(t, state.nTokens, n, args.hiddenSize);
  }

  // ----- Writing it -----------------------------------------------------------------------

  /** The raw bytes of a float vector. */
  function Raw(v: seq<Element>): seq<Byte> { Concat(v) }

  lemma {:induction false} ConcatPlus<T>(a: seq<seq<T>>, b: seq<seq<T>>)
    ensures Concat(a + b) == Concat(a) + Concat(b)
  {
    if a == [] {
      assert a + b == b;
    } else {
      ConcatPlus(a[1..], b);
      assert (a + b)[1..] == a[1..] + b;
    }
  }

  lemma RawSnoc(rows: seq<seq<Element>>, row: seq<Element>)
    ensures Raw(Concat(rows + [row])) == Raw(Concat(rows)) + Raw(row)
  {
    ConcatSnoc(rows, row);
    ConcatPlus(Concat(rows), row);
  }

  lemma RawOptionSnoc(options: Pooled, option: seq<seq<Element>>)
    ensures Raw(Concat(OptionRows(options + [option]))) == Raw(Concat(OptionRows(options))) + Raw(Concat(option))
  {
    ConcatSnoc(options, option);
    ConcatPlus(OptionRows(options), option);
    ConcatPlus(Concat(OptionRows(options)), Concat(option));
  }

  method WriteRows(before: seq<Byte>, rows: seq<seq<Element>>) returns (output: seq<Byte>)
    ensures output == before + Raw(Concat(rows))
  {
    output := before;
    for i := 0 to |rows|
      invariant output == before + Raw(Concat(rows[..i]))
    {
      RawSnoc(rows[..i], rows[i]);
      assert rows[..i + 1] == rows[..i] + [rows[i]];
      output := output + Raw(rows[i]);
    }
    assert rows[..|rows|] == rows;
  }

  /** One option's pooled vectors; a wrong count or width stops the writer. */
  method WriteOption(args: Args, before: seq<Byte>, tapCount: nat, option: seq<seq<Element>>) returns (ok: bool, output: seq<Byte>)
    ensures ok <==> OptionSized(args, tapCount, option)
    ensures ok ==> output == before + Raw(Concat(option))
  {
    output := before;
    if |option| != tapCount {
      return false, output;
    }
    for t := 0 to |option|
      invariant forall k :: 0 <= k < t ==> |option[k]| == args.hiddenSize
      invariant output == before + Raw(Concat(option[..t]))
    {
      if |option[t]| != args.hiddenSize {
        return false, output;
      }
      RawSnoc(option[..t], option[t]);
      assert option[..t + 1] == option[..t] + [option[t]];
      output := output + Raw(option[t]);
    }
    assert option[..|option|] == option;
    return true, output;
  }

  method WriteOptions(args: Args, before: seq<Byte>, tapCount: nat, options: Pooled) returns (ok: bool, output: seq<Byte>)
    ensures ok <==> OptionsSized(args, tapCount, options)
    ensures ok ==> output == before + Raw(Concat(OptionRows(options)))
  {
    output := before;
    for o := 0 to |options|
      invariant OptionsSized(args, tapCount, options[..o])
      invariant output == before + Raw(Concat(OptionRows(options[..o])))
    {
      ok, output := WriteOption(args, output, tapCount, options[o]);
      assert options[..o + 1] == options[..o] + [options[o]];
      if !ok {
        return false, output;
      }
      RawOptionSnoc(options[..o], options[o]);
    }
    assert options[..|options|] == options;
    return true, output;
  }

  lemma AllOnes(n: nat)
    ensures Concat(PackMask(seq(n, _ => true))) == seq(n, _ => 1)
    decreases n
  {
    var mask := PackMask(seq(n, _ => true));
    ConcatLength(mask, 1);
    forall k | 0 <= k < n ensures Concat(mask)[k] == 1 {
      ConcatAt(mask, 1, k, 0);
    }
  }

  function FloatBytes(a: nat, b: nat, c: nat): nat { a * b * c * FLOAT_BYTES }

  function NativeHeader(args: Args, state: Prompt, options: Pooled): Header
    requires args.hiddenSize >= 0
  {
    BridgeHeader(args, state.nTokens, |state.taps|, |options|,
                 FloatBytes(|state.taps|, state.nTokens, args.hiddenSize), state.nTokens,
                 FloatBytes(|options|, |state.taps|, args.hiddenSize), |options|)
  }

  function HeaderOnDisk(args: Args, state: Prompt, options: Pooled): seq<Byte>
    requires args.hiddenSize >= 0
  {
    Encode(Print(Bridge, HeaderJson(NativeHeader(args, state, options))))
  }

  /** The native header is the one the reader expects in front of that frame. */
  lemma HeaderAgrees(args: Args, state: Prompt, options: Pooled)
    requires Captured(args, state, options) && OptionsSized(args, |state.taps|, options)
    ensures HeaderFor(FLOAT32, FLOAT_BYTES, NativeFrame(args, state, options)) == NativeHeader(args, state, options)
    ensures HeaderBytes(Bridge, FLOAT32, FLOAT_BYTES, NativeFrame(args, state, options)) == HeaderOnDisk(args, state, options)
  {
    NativeFrameTyped(args, state, options);
  }

  predicate Writable(args: Args, state: Prompt, options: Pooled)
    requires args.hiddenSize >= 0
  {
    && state.taps != [] && options != [] && OptionsSized(args, |state.taps|, options)
    && |HeaderOnDisk(args, state, options)| < U32_LIMIT
  }

  lemma PayloadInTurn(f: Frame, header: seq<Byte>)
    requires |header| < U32_LIMIT
    ensures BigEndian(|header|) + header + Raw(f.stateTaps.data) + Concat(PackMask(f.stateMask.data)) +
            Raw(f.optionTaps.data) + Concat(PackMask(f.optionMask.data)) == Framed(header, Payload(f))
  {
    WrittenInTurn([], BigEndian(|header|), header, Concat(f.stateTaps.data), Concat(PackMask(f.stateMask.data)),
                  Concat(f.optionTaps.data), Concat(PackMask(f.optionMask.data)));
    assert [] + BigEndian(|header|) == BigEndian(|header|);
    assert [] + Framed(header, Payload(f)) == Framed(header, Payload(f));
  }

  /** Writes the frame, or reports failure; a failure part-way leaves an incomplete file. */
  method WriteFrame(args: Args, state: Prompt, options: Pooled) returns (ok: bool, file: seq<Byte>)
    requires Captured(args, state, options)
    ensures ok <==> Writable(args, state, options)
    ensures ok ==> file == Framed(HeaderOnDisk(args, state, options), Payload(NativeFrame(args, state, options)))
  {
    file := [];
    var tapCount, optionCount := |state.taps|, |options|;
    if tapCount == 0 || optionCount == 0 {
      return false, file;
    }
    var stateBytes := FloatBytes(tapCount, state.nTokens, args.hiddenSize);
    var optionBytes := FloatBytes(optionCount, tapCount, args.hiddenSize);
    var header := BuildHeader(args, state.nTokens, tapCount, optionCount, stateBytes, state.nTokens, optionBytes, optionCount);
    if |header| >= U32_LIMIT {
      return false, file;
    }
    file := BigEndian(|header|) + header;
    file := WriteRows(file, state.taps);
    file := file + seq(state.nTokens, _ => 1);
    ok, file := WriteOptions(args, file, tapCount, options);
    if !ok {
      return false, file;
    }
    file := file + seq(optionCount, _ => 1);
    AllOnes(state.nTokens);
    AllOnes(optionCount);
    PayloadInTurn(NativeFrame(args, state, options), header);
    return true, file;
  }
}
