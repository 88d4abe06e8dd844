/** What may be relied on about a frame that was read, whoever wrote the bytes. */
module FrameReading {
  import opened Wrappers
  import opened Tensors
  import opened Utf8
  import opened Json
  import opened FrameFormat
  import opened FrameStream

  // ----- Which frames are valid ----------------------------------------------------------------

  /** The sizes of a frame: records, tap slots, state tokens, hidden units and option slots. */
  datatype Sizes = Sizes(records: nat, taps: nat, tokens: nat, hidden: nat, slots: nat)

  predicate HasSizes(f: Frame, z: Sizes) {
    && f.stateTaps.shape == [z.records, z.taps, z.tokens, z.hidden]
    && f.stateMask.shape == [z.records, z.tokens]
    && f.optionTaps.shape == [z.records, z.slots, z.taps, z.hidden]
    && f.optionMask.shape == [z.records, z.slots]
  }

  /** Where the `j`-th option of a question is. */
  function Slot(g: Group, j: nat): int { g.optionStart + j }

  /** A question names its record and has its options in consecutive slots, at least one and each inside the axis. */
  predicate QuestionPlaced(g: Group, z: Sizes) {
    && 0 <= g.recordIndex < z.records
    && |g.name| > 0
    && |g.options| > 0
    && g.optionStart + |g.options| == g.optionEnd
    && forall j :: 0 <= j < |g.options| ==> 0 <= Slot(g, j) < z.slots
  }

  lemma PlacedExactly(g: Group, z: Sizes)
    ensures GroupValid(g, z.records, z.slots) <==> QuestionPlaced(g, z)
  {
    if QuestionPlaced(g, z) {
      assert 0 <= Slot(g, 0) && Slot(g, |g.options| - 1) < z.slots;
    }
  }

  predicate Fits(f: Frame, z: Sizes) {
    && HasSizes(f, z)
    && (forall k :: 0 <= k < |f.groups| ==> QuestionPlaced(f.groups[k], z))
    && |f.provider| > 0 && |f.modelSha256| > 0 && |f.runtimeRevision| > 0 && |f.promptContract| > 0
  }

  /** The frame that both writers demand and the reader delivers is one whose four arrays and questions fit one set of sizes. */
  lemma ValidExactly(f: Frame)
    ensures FrameValid(f) <==> exists z :: Fits(f, z)
  {
    if FrameValid(f) {
      var s, o := f.stateTaps.shape, f.optionTaps.shape;
      var z := Sizes(s[0], s[1], s[2], s[3], o[1]);
      assert s == [s[0], s[1], s[2], s[3]] && o == [s[0], o[1], s[1], s[3]];
      forall k | 0 <= k < |f.groups| ensures QuestionPlaced(f.groups[k], z) {
        PlacedExactly(f.groups[k], z);
      }
      assert Fits(f, z);
    }
    if z :| Fits(f, z) {
      forall k | 0 <= k < |f.groups| ensures GroupValid(f.groups[k], z.records, z.slots) {
        PlacedExactly(f.groups[k], z);
      }
    }
  }

  // ----- Looking a key up ----------------------------------------------------------------------

  /** Member `k` is the last one with its key. */
  predicate LastUnder(members: seq<(string, Value)>, key: string, k: nat) {
    k < |members| && members[k].0 == key && forall i :: k < i < |members| ==> members[i].0 != key
  }

  /** Of several members with one key the last counts, and a key is missing only if no member has it. */
  lemma {:induction false} LookupExactly(members: seq<(string, Value)>, key: string)
    ensures Lookup(members, key).None? <==> forall i :: 0 <= i < |members| ==> members[i].0 != key
    ensures forall k: nat :: LastUnder(members, key, k) ==> Lookup(members, key) == Some(members[k].1)
  {
    if members != [] {
      LookupExactly(members[1..], key);
      assert members == [members[0]] + members[1..];
      forall k: nat | LastUnder(members, key, k) ensures Lookup(members, key) == Some(members[k].1) {
        LookupAt(members, k);
      }
      assert Lookup(members, key).None? ==> forall i :: 0 < i < |members| ==> members[i].0 == members[1..][i - 1].0 != key;
    }
  }

  // ----- What the bytes say --------------------------------------------------------------------

  lemma {:induction false} ConcatChunk<T>(s: seq<T>, m: nat)
    requires m > 0 && |s| % m == 0
    ensures Concat(Chunk(s, m)) == s
    decreases |s|
  {
    if |s| < m {
      assert |s| == 0;
    } else {
      OneRowMore(|s|, m);
      var q := |s| / m;
      assert |s| == q * m;
      assert |s| - m == (q - 1) * m;
      DivideBack(q - 1, m);
      ConcatChunk(s[m..], m);
    }
  }

  /** The payload of a tensor is its elements laid end to end. */
  lemma TensorBytes(s: seq<Byte>, size: int, width: nat, shape: seq<int>)
    requires width > 0 && ReadTensor(s, size, width, shape).Ok?
    ensures s == Concat(ReadTensor(s, size, width, shape).value.0.data) + ReadTensor(s, size, width, shape).value.1
    ensures |Concat(ReadTensor(s, size, width, shape).value.0.data)| == size
  {
    ConcatChunk(s[..size], width);
  }

  /** A mask byte is a flag: set unless it is zero. */
  predicate MaskOf(bytes: seq<Byte>, flags: seq<bool>) {
    |bytes| == |flags| && forall i :: 0 <= i < |flags| ==> (flags[i] <==> bytes[i] != 0)
  }

  lemma {:induction false} SingleBytes(rows: seq<Element>)
    requires Uniform(rows, 1)
    ensures |Concat(rows)| == |rows| && forall i :: 0 <= i < |rows| ==> Concat(rows)[i] == rows[i][0]
  {
    ConcatLength(rows, 1);
    forall i | 0 <= i < |rows| ensures Concat(rows)[i] == rows[i][0] {
      ConcatAt(rows, 1, i, 0);
    }
  }

  lemma MaskBytes(s: seq<Byte>, size: int, shape: seq<int>) returns (bytes: seq<Byte>)
    requires ReadMask(s, size, shape).Ok?
    ensures s == bytes + ReadMask(s, size, shape).value.1 && |bytes| == size
    ensures MaskOf(bytes, ReadMask(s, size, shape).value.0.data)
  {
    var raw := ReadTensor(s, size, 1, shape).value.0.data;
    TensorBytes(s, size, 1, shape);
    SingleBytes(raw);
    bytes := Concat(raw);
  }

  /** The document in front of a frame: an object of the supported version and of a known payload type. */
  predicate Announces(header: seq<Byte>, members: seq<(string, Value)>, f: Frame) {
    && Decode(header).Some? && Loads(Decode(header).value) == Some(Obj(members))
    && Lookup(members, "version") == Some(Str("my-jev-activation-frame-v1"))
    && (Lookup(members, "dtype") == Some(Str("float16")) || Lookup(members, "dtype") == Some(Str("float32")))
    && Lookup(members, "provider") == Some(Str(f.provider))
    && Lookup(members, "model_sha256") == Some(Str(f.modelSha256))
    && Lookup(members, "runtime_revision") == Some(Str(f.runtimeRevision))
    && Lookup(members, "prompt_contract") == Some(Str(f.promptContract))
  }

  lemma HeaderNames(m: seq<(string, Value)>)
    ensures Fields(m, HEADER_KEYS)[0] == Lookup(m, "dtype") && Fields(m, HEADER_KEYS)[2] == Lookup(m, "model_sha256")
    ensures Fields(m, HEADER_KEYS)[7] == Lookup(m, "prompt_contract") && Fields(m, HEADER_KEYS)[8] == Lookup(m, "provider")
    ensures Fields(m, HEADER_KEYS)[9] == Lookup(m, "runtime_revision") && Fields(m, HEADER_KEYS)[14] == Lookup(m, "version")
  {
  }

  lemma HeaderAnnounces(header: seq<Byte>, f: Frame) returns (members: seq<(string, Value)>)
    requires ParseHeader(header).Some? && FrameValid(f)
    requires var h := ParseHeader(header).value; h.provider == f.provider && h.modelSha256 == f.modelSha256
    requires var h := ParseHeader(header).value; h.runtimeRevision == f.runtimeRevision && h.promptContract == f.promptContract
    ensures Announces(header, members, f)
  {
    members := Loads(Decode(header).value).value.members;
    HeaderNames(members);
  }

  /** A reading in pieces: the header, the two masks as bytes, and the header's members. */
  datatype Pieces = Pieces(header: seq<Byte>, stateMask: seq<Byte>, optionMask: seq<Byte>, members: seq<(string, Value)>)

  /** The stream is the length, the header and the four payloads of `f` in order, and then `rest`. */
  predicate Holds(s: seq<Byte>, p: Pieces, f: Frame, rest: seq<Byte>) {
    && 4 <= |s| && 2 <= |p.header| <= 1_000_000
    && ((s[0] as int * 256 + s[1]) * 256 + s[2]) * 256 + s[3] == |p.header|
    && s[4..] == p.header + (Concat(f.stateTaps.data) + (p.stateMask + (Concat(f.optionTaps.data) + (p.optionMask + rest))))
    && MaskOf(p.stateMask, f.stateMask.data)
    && MaskOf(p.optionMask, f.optionMask.data)
    && Announces(p.header, p.members, f)
  }

  lemma BodyHolds(h: Header, width: nat, s: seq<Byte>) returns (stateMask: seq<Byte>, optionMask: seq<Byte>)
    requires width > 0 && ReadBody(h, width, s).Ok?
    ensures var (f, rest) := ReadBody(h, width, s).value;
            && s == Concat(f.stateTaps.data) + (stateMask + (Concat(f.optionTaps.data) + (optionMask + rest)))
            && MaskOf(stateMask, f.stateMask.data) && MaskOf(optionMask, f.optionMask.data)
            && FrameValid(f) && WellTyped(f, width)
            && f.provider == h.provider && f.modelSha256 == h.modelSha256
            && f.runtimeRevision == h.runtimeRevision && f.promptContract == h.promptContract
  {
    TensorBytes(s, h.stateBytes, width, h.stateShape);
    var afterState := ReadTensor(s, h.stateBytes, width, h.stateShape).value.1;
    stateMask := MaskBytes(afterState, h.stateMaskBytes, h.stateMaskShape);
    var afterMask := ReadMask(afterState, h.stateMaskBytes, h.stateMaskShape).value.1;
    TensorBytes(afterMask, h.optionBytes, width, h.optionShape);
    var afterOptions := ReadTensor(afterMask, h.optionBytes, width, h.optionShape).value.1;
    optionMask := MaskBytes(afterOptions, h.optionMaskBytes, h.optionMaskShape);
  }

  /**
   Whatever is read fits one set of sizes, has as many scalars as its shapes say, and is what the bytes hold,
   in the order of the format and under a header of the supported version.
   */
  lemma ReadIsSound(s: seq<Byte>) returns (z: Sizes, p: Pieces)
    requires ReadFrame(s).Ok?
    ensures var (f, rest) := ReadFrame(s).value;
            Fits(f, z) && Holds(s, p, f, rest) && (WellTyped(f, 2) || WellTyped(f, 4))
  {
    var (f, rest) := ReadFrame(s).value;
    var size := FromBigEndian(s[..4]);
    var header := s[4..][..size];
    var h := ParseHeader(header).value;
    assert ReadHeader(s) == Ok((h, s[4..][size..]));
    var stateMask, optionMask := BodyHolds(h, Width(h.dtype).value, s[4..][size..]);
    var members := HeaderAnnounces(header, f);
    ValidExactly(f);
    z :| Fits(f, z);
    p := Pieces(header, stateMask, optionMask, members);
    assert s[4..] == header + s[4..][size..];
  }
}
