/** Reading frames off a byte stream and writing them to one. */
module FrameStream {
  import opened Wrappers
  import opened Tensors
  import opened Utf8
  import opened Json
  import opened FrameFormat
  import SortedKeys

  datatype ReadError = Truncated | Malformed

  // ----- What a frame looks like -----------------------------------------------------------

  function BigEndian(n: nat): (r: seq<Byte>)
    requires n < U32_LIMIT
    ensures |r| == 4
  {
    [n / 0x100_0000, n / 0x1_0000 % 256, n / 256 % 256, n % 256]
  }

  function FromBigEndian(b: seq<Byte>): nat
    requires |b| == 4
  {
    Digit(b[0]) * 0x100_0000 + Digit(b[1]) * 0x1_0000 + Digit(b[2]) * 256 + Digit(b[3])
  }

  function Digit(b: Byte): nat { b }

  lemma BigEndianRoundTrip(n: nat)
    requires n < U32_LIMIT
    ensures FromBigEndian(BigEndian(n)) == n
  {
    assert n == n / 256 * 256 + n % 256;
    assert n / 256 == n / 0x1_0000 * 256 + n / 256 % 256;
    assert n / 0x1_0000 == n / 0x100_0000 * 256 + n / 0x1_0000 % 256;
  }

  function PackMask(mask: seq<bool>): (r: seq<Element>)
    ensures |r| == |mask| && Uniform(r, 1)
  {
    seq(|mask|, i requires 0 <= i < |mask| => [if mask[i] then 1 else 0])
  }

  function UnpackMask(bytes: seq<Element>): (r: seq<bool>)
    requires Uniform(bytes, 1)
    ensures |r| == |bytes|
  {
    seq(|bytes|, i requires 0 <= i < |bytes| => bytes[i][0] != 0)
  }

  /** The header both writers put in front of `f`. */
  function HeaderFor(dtype: string, width: nat, f: Frame): Header {
    Header(dtype, f.groups, f.modelSha256,
           |f.optionTaps.data| * width, |f.optionMask.data|, f.optionMask.shape, f.optionTaps.shape,
           f.promptContract, f.provider, f.runtimeRevision,
           |f.stateTaps.data| * width, |f.stateMask.data|, f.stateMask.shape, f.stateTaps.shape,
           FRAME_VERSION)
  }

  function HeaderBytes(style: Style, dtype: string, width: nat, f: Frame): seq<Byte> {
    Encode(Print(style, HeaderJson(HeaderFor(dtype, width, f))))
  }

  function Payload(f: Frame): seq<Byte> {
    Concat(f.stateTaps.data) + (Concat(PackMask(f.stateMask.data)) +
                                (Concat(f.optionTaps.data) + Concat(PackMask(f.optionMask.data))))
  }

  function Framed(header: seq<Byte>, payload: seq<Byte>): seq<Byte>
    requires |header| < U32_LIMIT
  {
    BigEndian(|header|) + (header + payload)
  }

  // ----- The reader ------------------------------------------------------------------------

  /** `_read_exact`: a short read, or a negative size, is an end of file. */
  function Take(s: seq<Byte>, size: int): (r: Result<(seq<Byte>, seq<Byte>), ReadError>)
    ensures r.Ok? ==> s == r.value.0 + r.value.1 && |r.value.0| == size
  {
    if 0 <= size <= |s| then Ok((s[..size], s[size..])) else Err(Truncated)
  }

  function ReadTensor(s: seq<Byte>, size: int, width: nat, shape: seq<int>): (r: Result<(Tensor<Element>, seq<Byte>), ReadError>)
    requires width > 0
    ensures r.Ok? ==> WellSized(r.value.0) && Uniform(r.value.0.data, width)
  {
    var taken := Take(s, size);
    if taken.Err? then Err(taken.error)
    else if size % width != 0 then Err(Malformed)
    else
      var dims := Reshape(shape, size / width);
      ChunkLength(taken.value.0, width);
      if dims.None? then Err(Malformed)
      else Ok((Tensor(dims.value, Chunk(taken.value.0, width)), taken.value.1))
  }

  function ReadMask(s: seq<Byte>, size: int, shape: seq<int>): (r: Result<(Tensor<bool>, seq<Byte>), ReadError>)
    ensures r.Ok? ==> WellSized(r.value.0)
  {
    var t := ReadTensor(s, size, 1, shape);
    if t.Err? then Err(t.error) else Ok((Tensor(t.value.0.shape, UnpackMask(t.value.0.data)), t.value.1))
  }

  function Assemble(h: Header, state: Tensor<Element>, stateMask: Tensor<bool>, options: Tensor<Element>, optionMask: Tensor<bool>): Frame {
    Frame(h.provider, h.modelSha256, h.runtimeRevision, h.promptContract, state, stateMask, options, optionMask, h.groups)
  }

  /** What follows the header. */
  function ReadBody(h: Header, width: nat, s: seq<Byte>): Result<(Frame, seq<Byte>), ReadError>
    requires width > 0
  {
    var state := ReadTensor(s, h.stateBytes, width, h.stateShape);
    if state.Err? then Err(state.error)
    else
      var stateMask := ReadMask(state.value.1, h.stateMaskBytes, h.stateMaskShape);
      if stateMask.Err? then Err(stateMask.error)
      else
        var options := ReadTensor(stateMask.value.1, h.optionBytes, width, h.optionShape);
        if options.Err? then Err(options.error)
        else
          var optionMask := ReadMask(options.value.1, h.optionMaskBytes, h.optionMaskShape);
          if optionMask.Err? then Err(optionMask.error)
          else
            var f := Assemble(h, state.value.0, stateMask.value.0, options.value.0, optionMask.value.0);
            if FrameValid(f) then Ok((f, optionMask.value.1)) else Err(Malformed)
  }

  /** A header this reader supports: its version, and a payload type of known width. */
  function ParseHeader(bytes: seq<Byte>): (r: Option<Header>)
    ensures r.Some? ==> Width(r.value.dtype).Some?
  {
    var text := Decode(bytes);
    var json := if text.None? then None else Loads(text.value);
    var h := if json.None? then None else HeaderOf(json.value);
    if h.None? || h.value.version != FRAME_VERSION || Width(h.value.dtype).None? then None else h
  }

  function ReadHeader(s: seq<Byte>): (r: Result<(Header, seq<Byte>), ReadError>)
    ensures r.Ok? ==> Width(r.value.0.dtype).Some?
  {
    var prefix := Take(s, 4);
    if prefix.Err? then Err(prefix.error)
    else
      var size := FromBigEndian(prefix.value.0);
      if size < 2 || size > HEADER_LIMIT then Err(Malformed)
      else
        var bytes := Take(prefix.value.1, size);
        if bytes.Err? then Err(bytes.error)
        else
          var h := ParseHeader(bytes.value.0);
          if h.None? then Err(Malformed) else Ok((h.value, bytes.value.1))
  }

  /** `read_activation_frame`: the frame and what is left on the stream. */
  function ReadFrame(s: seq<Byte>): Result<(Frame, seq<Byte>), ReadError> {
    var header := ReadHeader(s);
    if header.Err? then Err(header.error)
    else ReadBody(header.value.0, Width(header.value.0.dtype).value, header.value.1)
  }

  // ----- Reading back what was written -------------------------------------------------------

  lemma TakeFront(a: seq<Byte>, rest: seq<Byte>)
    ensures Take(a + rest, |a|) == Ok((a, rest))
  {
    assert (a + rest)[..|a|] == a && (a + rest)[|a|..] == rest;
  }

  lemma DivideBack(n: nat, width: nat)
    requires width > 0
    ensures n * width % width == 0 && n * width / width == n
  {
    SameRowAndColumn(n, 0, n * width / width, n * width % width, width);
  }

  lemma TensorRoundTrip(t: Tensor<Element>, width: nat, rest: seq<Byte>)
    requires WellSized(t) && Uniform(t.data, width) && width > 0
    ensures ReadTensor(Concat(t.data) + rest, |t.data| * width, width, t.shape) == Ok((t, rest))
  {
    ConcatLength(t.data, width);
    TakeFront(Concat(t.data), rest);
    DivideBack(|t.data|, width);
    ReshapeExplicit(t.shape);
    ChunkConcat(t.data, width);
  }

  lemma MaskRoundTrip(m: Tensor<bool>, rest: seq<Byte>)
    requires WellSized(m)
    ensures ReadMask(Concat(PackMask(m.data)) + rest, |m.data|, m.shape) == Ok((m, rest))
  {
    TensorRoundTrip(Tensor(m.shape, PackMask(m.data)), 1, rest);
    assert UnpackMask(PackMask(m.data)) == m.data;
  }

  lemma PayloadBefore(f: Frame, rest: seq<Byte>)
    ensures Payload(f) + rest ==
            Concat(f.stateTaps.data) + (Concat(PackMask(f.stateMask.data)) +
                                        (Concat(f.optionTaps.data) + (Concat(PackMask(f.optionMask.data)) + rest)))
  {
  }

  lemma BodyRoundTrip(dtype: string, width: nat, f: Frame, rest: seq<Byte>)
    requires FrameValid(f) && WellTyped(f, width) && width > 0
    ensures ReadBody(HeaderFor(dtype, width, f), width, Payload(f) + rest) == Ok((f, rest))
  {
    var fourth := Concat(PackMask(f.optionMask.data)) + rest;
    var third := Concat(f.optionTaps.data) + fourth;
    var second := Concat(PackMask(f.stateMask.data)) + third;
    PayloadBefore(f, rest);
    TensorRoundTrip(f.stateTaps, width, second);
    MaskRoundTrip(f.stateMask, third);
    TensorRoundTrip(f.optionTaps, width, fourth);
    MaskRoundTrip(f.optionMask, rest);
  }

  lemma ParsePrintedHeader(style: Style, h: Header)
    requires h.version == FRAME_VERSION && Width(h.dtype).Some?
    ensures ParseHeader(Encode(Print(style, HeaderJson(h)))) == Some(h)
  {
    DecodeEncode(Print(style, HeaderJson(h)));
    LoadsPrint(style, HeaderJson(h));
    HeaderRoundTrip(h);
  }

  lemma {:induction false} EncodeNotShorter(s: string)
    ensures |Encode(s)| >= |s|
  {
    if s != [] {
      EncodeNotShorter(s[1..]);
    }
  }

  lemma HeaderNotTiny(style: Style, h: Header)
    ensures |Encode(Print(style, HeaderJson(h)))| >= 2
  {
    EncodeNotShorter(Print(style, HeaderJson(h)));
  }

  lemma ReadFramedHeader(header: seq<Byte>, payload: seq<Byte>, h: Header)
    requires 2 <= |header| < U32_LIMIT && ParseHeader(header) == Some(h)
    ensures ReadHeader(Framed(header, payload)) == if |header| > HEADER_LIMIT then Err(Malformed) else Ok((h, payload))
  {
    TakeFront(BigEndian(|header|), header + payload);
    BigEndianRoundTrip(|header|);
    TakeFront(header, payload);
  }

  lemma FramedThenMore(header: seq<Byte>, payload: seq<Byte>, rest: seq<Byte>)
    requires |header| < U32_LIMIT
    ensures Framed(header, payload) + rest == Framed(header, payload + rest)
  {
  }

  /**
   Either writer's frame is read back as it was, and nothing past it is consumed -
   unless its header exceeds the reader's limit, and then the frame is refused.
   */
  lemma WriteThenRead(style: Style, dtype: string, width: nat, f: Frame, rest: seq<Byte>)
    requires Width(dtype) == Some(width) && FrameValid(f) && WellTyped(f, width)
    requires |HeaderBytes(style, dtype, width, f)| < U32_LIMIT
    ensures ReadFrame(Framed(HeaderBytes(style, dtype, width, f), Payload(f)) + rest) ==
            if |HeaderBytes(style, dtype, width, f)| <= HEADER_LIMIT then Ok((f, rest)) else Err(Malformed)
  {
    var h := HeaderFor(dtype, width, f);
    var header := HeaderBytes(style, dtype, width, f);
    HeaderNotTiny(style, h);
    ParsePrintedHeader(style, h);
    FramedThenMore(header, Payload(f), rest);
    ReadFramedHeader(header, Payload(f) + rest, h);
    BodyRoundTrip(dtype, width, f, rest);
  }

  // ----- The reader looks at nothing past the frame --------------------------------------------

  /** What a reader that consumes from the front does once the last |t| bytes are cut off. */
  ghost predicate CutBack<A(!new)>(full: Result<(A, seq<Byte>), ReadError>, cut: Result<(A, seq<Byte>), ReadError>, t: seq<Byte>)
    requires full.Ok?
  {
    if |full.value.1| < |t| then cut == Err(Truncated)
    else cut.Ok? && full.value == (cut.value.0, cut.value.1 + t)
  }

  lemma TakeCutBack(s: seq<Byte>, t: seq<Byte>, size: int)
    requires Take(s + t, size).Ok?
    ensures CutBack(Take(s + t, size), Take(s, size), t)
  {
    if size <= |s| {
      assert (s + t)[..size] == s[..size] && (s + t)[size..] == s[size..] + t;
    }
  }

  lemma TensorCutBack(s: seq<Byte>, t: seq<Byte>, size: int, width: nat, shape: seq<int>)
    requires width > 0 && ReadTensor(s + t, size, width, shape).Ok?
    ensures CutBack(ReadTensor(s + t, size, width, shape), ReadTensor(s, size, width, shape), t)
  {
    TakeCutBack(s, t, size);
  }

  lemma MaskCutBack(s: seq<Byte>, t: seq<Byte>, size: int, shape: seq<int>)
    requires ReadMask(s + t, size, shape).Ok?
    ensures CutBack(ReadMask(s + t, size, shape), ReadMask(s, size, shape), t)
  {
    TensorCutBack(s, t, size, 1, shape);
  }

  lemma BodyCutBack(h: Header, width: nat, s: seq<Byte>, t: seq<Byte>)
    requires width > 0 && ReadBody(h, width, s + t).Ok?
    ensures CutBack(ReadBody(h, width, s + t), ReadBody(h, width, s), t)
  {
    TensorCutBack(s, t, h.stateBytes, width, h.stateShape);
    var state := ReadTensor(s, h.stateBytes, width, h.stateShape);
    if state.Ok? {
      MaskCutBack(state.value.1, t, h.stateMaskBytes, h.stateMaskShape);
      var stateMask := ReadMask(state.value.1, h.stateMaskBytes, h.stateMaskShape);
      if stateMask.Ok? {
        TensorCutBack(stateMask.value.1, t, h.optionBytes, width, h.optionShape);
        var options := ReadTensor(stateMask.value.1, h.optionBytes, width, h.optionShape);
        if options.Ok? {
          MaskCutBack(options.value.1, t, h.optionMaskBytes, h.optionMaskShape);
        }
      }
    }
  }

  lemma HeaderCutBack(s: seq<Byte>, t: seq<Byte>)
    requires ReadHeader(s + t).Ok?
    ensures CutBack(ReadHeader(s + t), ReadHeader(s), t)
  {
    TakeCutBack(s, t, 4);
    var prefix := Take(s, 4);
    if prefix.Ok? {
      TakeCutBack(prefix.value.1, t, FromBigEndian(prefix.value.0));
    }
  }

  /** Cutting bytes off a stream the reader accepts: a cut into the frame is an end of file, one past it changes nothing. */
  lemma FrameCutBack(s: seq<Byte>, t: seq<Byte>)
    requires ReadFrame(s + t).Ok?
    ensures CutBack(ReadFrame(s + t), ReadFrame(s), t)
  {
    HeaderCutBack(s, t);
    var header := ReadHeader(s);
    if header.Ok? {
      BodyCutBack(header.value.0, Width(header.value.0.dtype).value, header.value.1, t);
    } else {
      BodyOnlyShrinks(ReadHeader(s + t).value.0, Width(ReadHeader(s + t).value.0.dtype).value, ReadHeader(s + t).value.1);
    }
  }

  lemma BodyOnlyShrinks(h: Header, width: nat, s: seq<Byte>)
    requires width > 0 && ReadBody(h, width, s).Ok?
    ensures |ReadBody(h, width, s).value.1| <= |s|
  {
  }

  /** Every strict prefix of a frame is rejected as truncated. */
  lemma StrictPrefixRejected(cut: seq<Byte>, missing: seq<Byte>)
    requires missing != [] && ReadFrame(cut + missing).Ok? && ReadFrame(cut + missing).value.1 == []
    ensures ReadFrame(cut) == Err(Truncated)
  {
    FrameCutBack(cut, missing);
  }

  // ----- Streams of frames -------------------------------------------------------------------

  /** One call of a writer that its reader can follow. */
  datatype Written = Written(style: Style, dtype: string, width: nat, frame: Frame) {
    predicate Readable() {
      && Width(dtype) == Some(width) && FrameValid(frame) && WellTyped(frame, width)
      && |HeaderBytes(style, dtype, width, frame)| <= HEADER_LIMIT
    }

    function Bytes(): seq<Byte>
      requires Readable()
    {
      Framed(HeaderBytes(style, dtype, width, frame), Payload(frame))
    }
  }

  predicate AllReadable(calls: seq<Written>) { forall k :: 0 <= k < |calls| ==> calls[k].Readable() }

  function StreamBytes(calls: seq<Written>): seq<Byte>
    requires AllReadable(calls)
  {
    if calls == [] then [] else calls[0].Bytes() + StreamBytes(calls[1..])
  }

  function FramesOf(calls: seq<Written>): seq<Frame> {
    if calls == [] then [] else [calls[0].frame] + FramesOf(calls[1..])
  }

  /** `n` reads in turn. */
  function ReadFrames(n: nat, s: seq<Byte>): Result<(seq<Frame>, seq<Byte>), ReadError> {
    if n == 0 then Ok(([], s))
    else
      var first := ReadFrame(s);
      if first.Err? then Err(first.error)
      else
        var more := ReadFrames(n - 1, first.value.1);
        if more.Err? then more else Ok(([first.value.0] + more.value.0, more.value.1))
  }

  /** Frames written one after another, by either writer, come back in turn. */
  lemma {:induction false} StreamRoundTrip(calls: seq<Written>, rest: seq<Byte>)
    requires AllReadable(calls)
    ensures ReadFrames(|calls|, StreamBytes(calls) + rest) == Ok((FramesOf(calls), rest))
  {
    if calls == [] {
      assert StreamBytes(calls) + rest == rest;
    } else {
      var c, more := calls[0], StreamBytes(calls[1..]) + rest;
      assert StreamBytes(calls) + rest == c.Bytes() + more;
      WriteThenRead(c.style, c.dtype, c.width, c.frame, more);
      StreamRoundTrip(calls[1..], rest);
    }
  }

  // ----- The reader and the Python writer at work ----------------------------------------------

  /** A binary stream opened for reading. */
  class Source {
    const data: seq<Byte>
    var position: nat

    ghost predicate Valid()
      reads this
    {
      position <= |data|
    }

    ghost function Remaining(): seq<Byte>
      requires Valid()
      reads this
    {
      data[position..]
    }

    constructor (data: seq<Byte>)
      ensures Valid() && Remaining() == data
    {
      this.data := data;
      position := 0;
    }

    /** `read`: up to `size` bytes, or everything when it is negative. */
    method Read(size: int) returns (bytes: seq<Byte>)
      requires Valid()
      modifies this`position
      ensures Valid() && bytes + Remaining() == old(Remaining())
      ensures 0 <= size <= |old(Remaining())| ==> |bytes| == size
      ensures size < 0 || size > |old(Remaining())| ==> Remaining() == []
    {
      var end := if size < 0 || position + size > |data| then |data| else position + size;
      bytes := data[position..end];
      position := end;
    }
  }

  method ReadExact(stream: Source, size: int) returns (r: Result<seq<Byte>, ReadError>)
    requires stream.Valid()
    modifies stream`position
    ensures stream.Valid()
    ensures Take(old(stream.Remaining()), size).Err? ==> r == Err(Truncated)
    ensures Take(old(stream.Remaining()), size).Ok? ==> r.Ok? && Take(old(stream.Remaining()), size).value == (r.value, stream.Remaining())
  {
    var value := stream.Read(size);
    if |value| != size {
      return Err(Truncated);
    }
    ghost var s := old(stream.Remaining());
    assert s[..size] == value && s[size..] == stream.Remaining();
    return Ok(value);
  }

  method ReadPayload(stream: Source, size: int, width: nat, shape: seq<int>) returns (r: Result<Tensor<Element>, ReadError>)
    requires stream.Valid() && width > 0
    modifies stream`position
    ensures stream.Valid()
    ensures ReadTensor(old(stream.Remaining()), size, width, shape).Err? ==>
              r == Err(ReadTensor(old(stream.Remaining()), size, width, shape).error)
    ensures ReadTensor(old(stream.Remaining()), size, width, shape).Ok? ==>
              r.Ok? && ReadTensor(old(stream.Remaining()), size, width, shape).value == (r.value, stream.Remaining())
  {
    var bytes := ReadExact(stream, size);
    if bytes.Err? {
      return Err(Truncated);
    }
    if size % width != 0 {
      return Err(Malformed);
    }
    ChunkLength(bytes.value, width);
    var dims := Reshape(shape, size / width);
    if dims.None? {
      return Err(Malformed);
    }
    return Ok(Tensor(dims.value, Chunk(bytes.value, width)));
  }

  method ReadMaskPayload(stream: Source, size: int, shape: seq<int>) returns (r: Result<Tensor<bool>, ReadError>)
    requires stream.Valid()
    modifies stream`position
    ensures stream.Valid()
    ensures ReadMask(old(stream.Remaining()), size, shape).Err? ==> r == Err(ReadMask(old(stream.Remaining()), size, shape).error)
    ensures ReadMask(old(stream.Remaining()), size, shape).Ok? ==>
              r.Ok? && ReadMask(old(stream.Remaining()), size, shape).value == (r.value, stream.Remaining())
  {
    var t := ReadPayload(stream, size, 1, shape);
    if t.Err? {
      return Err(t.error);
    }
    return Ok(Tensor(t.value.shape, UnpackMask(t.value.data)));
  }

  method ReadHeaderFrom(stream: Source) returns (r: Result<Header, ReadError>)
    requires stream.Valid()
    modifies stream`position
    ensures stream.Valid()
    ensures ReadHeader(old(stream.Remaining())).Err? ==> r == Err(ReadHeader(old(stream.Remaining())).error)
    ensures ReadHeader(old(stream.Remaining())).Ok? ==>
              r.Ok? && ReadHeader(old(stream.Remaining())).value == (r.value, stream.Remaining())
  {
    var prefix := ReadExact(stream, 4);
    if prefix.Err? {
      return Err(Truncated);
    }
    var size := FromBigEndian(prefix.value);
    if size < 2 || size > HEADER_LIMIT {
      return Err(Malformed);
    }
    var bytes := ReadExact(stream, size);
    if bytes.Err? {
      return Err(Truncated);
    }
    var h := ParseHeader(bytes.value);
    if h.None? {
      return Err(Malformed);
    }
    return Ok(h.value);
  }

  /** Reads one frame and leaves the stream right behind it. */
  method ReadActivationFrame(stream: Source) returns (r: Result<Frame, ReadError>)
    requires stream.Valid()
    modifies stream`position
    ensures stream.Valid()
    ensures ReadFrame(old(stream.Remaining())).Err? ==> r == Err(ReadFrame(old(stream.Remaining())).error)
    ensures ReadFrame(old(stream.Remaining())).Ok? ==>
              r.Ok? && ReadFrame(old(stream.Remaining())).value == (r.value, stream.Remaining())
  {
    var header := ReadHeaderFrom(stream);
    if header.Err? {
      return Err(header.error);
    }
    var h := header.value;
    var width := Width(h.dtype).value;
    var state := ReadPayload(stream, h.stateBytes, width, h.stateShape);
    if state.Err? {
      return Err(state.error);
    }
    var stateMask := ReadMaskPayload(stream, h.stateMaskBytes, h.stateMaskShape);
    if stateMask.Err? {
      return Err(stateMask.error);
    }
    var options := ReadPayload(stream, h.optionBytes, width, h.optionShape);
    if options.Err? {
      return Err(options.error);
    }
    var optionMask := ReadMaskPayload(stream, h.optionMaskBytes, h.optionMaskShape);
    if optionMask.Err? {
      return Err(optionMask.error);
    }
    var f := Assemble(h, state.value, stateMask.value, options.value, optionMask.value);
    if !FrameValid(f) {
      return Err(Malformed);
    }
    return Ok(f);
  }

  /** A binary stream opened for writing. */
  class Sink {
    var written: seq<Byte>

    constructor ()
      ensures written == []
    {
      written := [];
    }

    method Write(bytes: seq<Byte>)
      modifies this
      ensures written == old(written) + bytes
    {
      written := written + bytes;
    }
  }

  method EncodedHeader(dtype: string, width: nat, f: Frame) returns (encoded: seq<Byte>)
    ensures encoded == HeaderBytes(Python, dtype, width, f)
  {
    var header := HeaderFor(dtype, width, f);
    SortedKeys.HeaderDictSorted(header);
    encoded := Encode(Print(Python, SortedKeys.SortKeys(SortedKeys.HeaderDict(header))));
  }

  lemma WrittenInTurn(before: seq<Byte>, a: seq<Byte>, b: seq<Byte>, c: seq<Byte>, d: seq<Byte>, e: seq<Byte>, f: seq<Byte>)
    ensures before + a + b + c + d + e + f == before + (a + (b + (c + (d + (e + f)))))
  {
  }

  /**
   `write_activation_frame`, on scalars already cast to `dtype`. It refuses an invalid frame,
   an unknown payload type and a header its length prefix cannot hold, and then writes nothing.
   */
  method WriteActivationFrame(sink: Sink, f: Frame, dtype: string) returns (ok: bool)
    requires Width(dtype).Some? ==> WellTyped(f, Width(dtype).value)
    modifies sink
    ensures ok <==> FrameValid(f) && Width(dtype).Some? && |HeaderBytes(Python, dtype, Width(dtype).value, f)| < U32_LIMIT
    ensures sink.written == old(sink.written) +
                            if ok then Framed(HeaderBytes(Python, dtype, Width(dtype).value, f), Payload(f)) else []
  {
    if !FrameValid(f) || Width(dtype).None? {
      return false;
    }
    var width := Width(dtype).value;
    var encoded := EncodedHeader(dtype, width, f);
    if |encoded| >= U32_LIMIT {
      return false;
    }
    sink.Write(BigEndian(|encoded|));
    sink.Write(encoded);
    sink.Write(Concat(f.stateTaps.data));
    sink.Write(Concat(PackMask(f.stateMask.data)));
    sink.Write(Concat(f.optionTaps.data));
    sink.Write(Concat(PackMask(f.optionMask.data)));
    WrittenInTurn(old(sink.written), BigEndian(|encoded|), encoded, Concat(f.stateTaps.data),
                  Concat(PackMask(f.stateMask.data)), Concat(f.optionTaps.data), Concat(PackMask(f.optionMask.data)));
    return true;
  }
}
