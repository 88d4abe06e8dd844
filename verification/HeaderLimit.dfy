/**
 A frame both writers will write and the reader will not read: its header is longer than the
 reader's limit and shorter than the length prefix allows.
 */
module HeaderLimit {
  import opened Wrappers
  import opened Tensors
  import opened Utf8
  import opened Json
  import opened FrameFormat
  import opened FrameStream

  // ----- How long a printed document can be ---------------------------------------------------

  lemma {:induction false} EscapeLength(style: Style, s: string)
    ensures |s| <= |Escape(style, s)| <= 12 * |s|
  {
    if s != [] {
      EscapeLength(style, s[1..]);
    }
  }

  lemma QuoteLength(style: Style, s: string)
    ensures |s| <= |Quote(style, s)| <= 12 * |s| + 2
  {
    EscapeLength(style, s);
  }

  lemma {:induction false} EncodeLength(s: string)
    ensures |Encode(s)| <= 4 * |s|
  {
    if s != [] {
      EncodeLength(s[1..]);
    }
  }

  lemma OneMoreTimes(k: nat, m: nat)
    requires k > 0
    ensures k * m == (k - 1) * m + m && m <= k * m
  {
  }

  lemma {:induction false} ItemsLength(style: Style, items: seq<Value>, m: nat)
    requires forall i :: 0 <= i < |items| ==> |Print(style, items[i])| <= m
    ensures |PrintItems(style, items)| <= |items| * (m + 1)
  {
    if items != [] {
      OneMoreTimes(|items|, m + 1);
      if |items| > 1 {
        ItemsLength(style, items[1..], m);
      }
    }
  }

  lemma {:induction false} MembersLength(style: Style, members: seq<(string, Value)>, m: nat)
    requires forall i :: 0 <= i < |members| ==> |PrintMember(style, members[i])| <= m
    ensures |PrintMembers(style, members)| <= |members| * (m + 1)
  {
    if members != [] {
      OneMoreTimes(|members|, m + 1);
      if |members| > 1 {
        MembersLength(style, members[1..], m);
      }
    }
  }

  lemma {:induction false} MemberWithin(style: Style, members: seq<(string, Value)>, k: nat)
    requires k < |members|
    ensures |PrintMember(style, members[k])| <= |PrintMembers(style, members)|
  {
    if |members| > 1 && k > 0 {
      MemberWithin(style, members[1..], k - 1);
    }
  }

  predicate Digit(v: Value) { v.Num? && 0 <= v.number < 10 }

  /** A digit, a few digits, or a text no longer than `n`. */
  predicate Brief(v: Value, n: nat) {
    match v
    case Str(s) => |s| <= n
    case Num(_) => Digit(v)
    case Arr(items) => |items| <= 4 && forall i :: 0 <= i < |items| ==> Digit(items[i])
    case Obj(_) => false
  }

  lemma BriefLength(style: Style, v: Value, n: nat)
    requires Brief(v, n)
    ensures |Print(style, v)| <= 12 * n + 10
  {
    match v
    case Str(s) => QuoteLength(style, s);
    case Num(_) =>
    case Arr(items) => ItemsLength(style, items, 1);
    case Obj(_) =>
  }

  // ----- The frame ----------------------------------------------------------------------------

  function Named(n: nat): string { seq(n, _ => 'a') }

  /** One tap, one token, one option, no groups, and a provider name of `n` letters. */
  function PlainFrame(n: nat): Frame {
    Frame(Named(n), "m", "r", "p", Tensor([1, 1, 1, 1], [[0, 0, 0, 0]]), Tensor([1, 1], [true]),
          Tensor([1, 1, 1, 1], [[0, 0, 0, 0]]), Tensor([1, 1], [true]), [])
  }

  lemma PlainFrameValid(n: nat)
    requires n > 0
    ensures FrameValid(PlainFrame(n)) && WellTyped(PlainFrame(n), 4)
  {
    assert Named(n) != [];
    assert Product([1]) == 1 && Product([1, 1]) == 1 && Product([1, 1, 1]) == 1 && Product([1, 1, 1, 1]) == 1 by {
      assert [1, 1, 1, 1][1..] == [1, 1, 1] && [1, 1, 1][1..] == [1, 1] && [1, 1][1..] == [1] && [1][1..] == [];
    }
  }

  function PlainValues(n: nat): seq<Value> { HeaderValues(HeaderFor("float32", 4, PlainFrame(n))) }

  lemma PlainValuesBrief(n: nat, k: nat)
    requires n >= 30 && k < |HEADER_KEYS|
    ensures |PlainValues(n)| == |HEADER_KEYS| && Brief(PlainValues(n)[k], n)
  {
  }

  lemma KeysShort(k: nat)
    requires k < |HEADER_KEYS|
    ensures |HEADER_KEYS[k]| <= 20
  {
  }

  lemma PlainMemberLength(style: Style, key: string, v: Value, n: nat)
    requires |key| <= 20 && Brief(v, n)
    ensures |PrintMember(style, (key, v))| <= 12 * n + 300
  {
    QuoteLength(style, key);
    BriefLength(style, v, n);
  }

  lemma DocumentLength(style: Style, keys: seq<string>, values: seq<Value>, n: nat)
    requires |keys| == |values| == 15 && values[8] == Str(Named(n))
    requires forall k :: 0 <= k < |keys| ==> |keys[k]| <= 20 && Brief(values[k], n)
    ensures n <= |Encode(Print(style, Obj(Members(keys, values))))| <= 4 * (15 * (12 * n + 301) + 2)
  {
    var members := Members(keys, values);
    forall k | 0 <= k < |members| ensures |PrintMember(style, members[k])| <= 12 * n + 300 {
      PlainMemberLength(style, keys[k], values[k], n);
    }
    MembersLength(style, members, 12 * n + 300);
    ProviderWithin(style, members, n);
    EncodeLength(Print(style, Obj(members)));
    EncodeNotShorter(Print(style, Obj(members)));
  }

  lemma PlainHeaderLength(style: Style, n: nat)
    requires n >= 30
    ensures n <= |HeaderBytes(style, "float32", 4, PlainFrame(n))| <= 4 * (15 * (12 * n + 301) + 2)
  {
    forall k | 0 <= k < |HEADER_KEYS| ensures |HEADER_KEYS[k]| <= 20 && |PlainValues(n)| == |HEADER_KEYS| && Brief(PlainValues(n)[k], n) {
      PlainValuesBrief(n, k);
      KeysShort(k);
    }
    assert |PlainValues(n)| == |HEADER_KEYS|;
    DocumentLength(style, HEADER_KEYS, PlainValues(n), n);
  }

  lemma ProviderWithin(style: Style, members: seq<(string, Value)>, n: nat)
    requires |members| > 8 && members[8].1 == Str(Named(n))
    ensures n <= |PrintMembers(style, members)|
  {
    QuoteLength(style, Named(n));
    MemberWithin(style, members, 8);
  }

  /** A provider name of a million and one letters: written by both, refused by the reader. */
  lemma LongHeaderRefused(style: Style, rest: seq<Byte>)
    ensures var f := PlainFrame(HEADER_LIMIT + 1);
            var header := HeaderBytes(style, "float32", 4, f);
            && FrameValid(f) && WellTyped(f, 4) && HEADER_LIMIT < |header| < U32_LIMIT
            && ReadFrame(Framed(header, Payload(f)) + rest) == Err(Malformed)
  {
    PlainFrameValid(HEADER_LIMIT + 1);
    PlainHeaderLength(style, HEADER_LIMIT + 1);
    WriteThenRead(style, "float32", 4, PlainFrame(HEADER_LIMIT + 1), rest);
  }
}
