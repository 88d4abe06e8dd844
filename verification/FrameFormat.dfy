/**
 The activation frame: a big-endian length, a JSON header with sorted keys, and four
 row-major payloads. Both writers print it; one reader parses it.
 */
module FrameFormat {
  import opened Wrappers
  import opened Tensors
  import opened Utf8
  import opened Order
  import opened Json

  const FRAME_VERSION := "my-jev-activation-frame-v1"
  const HEADER_LIMIT := 1_000_000
  const U32_LIMIT := 0x1_0000_0000

  /** One scalar of a payload, as its bytes. */
  type Element = seq<Byte>

  datatype Group = Group(recordIndex: int, name: string, kind: string, options: seq<string>,
                         optionStart: int, optionEnd: int)

  datatype Frame = Frame(provider: string, modelSha256: string, runtimeRevision: string, promptContract: string,
                         stateTaps: Tensor<Element>, stateMask: Tensor<bool>,
                         optionTaps: Tensor<Element>, optionMask: Tensor<bool>,
                         groups: seq<Group>)

  datatype Header = Header(dtype: string, groups: seq<Group>, modelSha256: string,
                           optionBytes: int, optionMaskBytes: int, optionMaskShape: seq<int>, optionShape: seq<int>,
                           promptContract: string, provider: string, runtimeRevision: string,
                           stateBytes: int, stateMaskBytes: int, stateMaskShape: seq<int>, stateShape: seq<int>,
                           version: string)

  // ----- Validation ------------------------------------------------------------------------

  predicate GroupValid(g: Group, batch: int, optionWidth: int) {
    && 0 <= g.recordIndex < batch
    && g.name != []
    && 0 <= g.optionStart < g.optionEnd <= optionWidth
    && |g.options| == g.optionEnd - g.optionStart
  }

  predicate GroupsValid(gs: seq<Group>, batch: int, optionWidth: int) {
    forall k :: 0 <= k < |gs| ==> GroupValid(gs[k], batch, optionWidth)
  }

  predicate FrameValid(f: Frame) {
    && |f.stateTaps.shape| == 4 && |f.optionTaps.shape| == 4
    && |f.stateMask.shape| == 2 && |f.optionMask.shape| == 2
    && f.optionTaps.shape[0] == f.stateTaps.shape[0]
    && f.optionTaps.shape[2] == f.stateTaps.shape[1]
    && f.optionTaps.shape[3] == f.stateTaps.shape[3]
    && f.stateMask.shape == [f.stateTaps.shape[0], f.stateTaps.shape[2]]
    && f.optionMask.shape == [f.stateTaps.shape[0], f.optionTaps.shape[1]]
    && GroupsValid(f.groups, f.stateTaps.shape[0], f.optionTaps.shape[1])
    && f.provider != [] && f.modelSha256 != [] && f.runtimeRevision != [] && f.promptContract != []
  }

  /** Bytes per scalar of a supported payload type. */
  function Width(dtype: string): (r: Option<nat>)
    ensures r.Some? ==> r.value > 0
  {
    if dtype == "float16" then Some(2) else if dtype == "float32" then Some(4) else None
  }

  /** The tensors are proper arrays whose scalars are `width` bytes wide. */
  predicate WellTyped(f: Frame, width: nat) {
    && WellSized(f.stateTaps) && WellSized(f.stateMask) && WellSized(f.optionTaps) && WellSized(f.optionMask)
    && Uniform(f.stateTaps.data, width) && Uniform(f.optionTaps.data, width)
  }

  // ----- The header as JSON --------------------------------------------------------------

  function NumsJson(ns: seq<int>): Value { Arr(seq(|ns|, i requires 0 <= i < |ns| => Num(ns[i]))) }

  function TextsJson(ts: seq<string>): Value { Arr(seq(|ts|, i requires 0 <= i < |ts| => Str(ts[i]))) }

  /** An object with the given keys, in that order. */
  function Members(keys: seq<string>, values: seq<Value>): (r: seq<(string, Value)>)
    requires |keys| == |values|
    ensures |r| == |keys|
  {
    seq(|keys|, i requires 0 <= i < |keys| => (keys[i], values[i]))
  }

  const GROUP_KEYS := ["name", "option_end", "option_start", "options", "record_index", "type"]

  const HEADER_KEYS :=
    ["dtype", "groups", "model_sha256", "option_bytes", "option_mask_bytes", "option_mask_shape", "option_shape",
     "prompt_contract", "provider", "runtime_revision", "state_bytes", "state_mask_bytes", "state_mask_shape",
     "state_shape", "version"]

  /** The values under the keys above, in the same order. */
  function GroupValues(g: Group): seq<Value> {
    [Str(g.name), Num(g.optionEnd), Num(g.optionStart), TextsJson(g.options), Num(g.recordIndex), Str(g.kind)]
  }

  function GroupJson(g: Group): Value { Obj(Members(GROUP_KEYS, GroupValues(g))) }

  function GroupsJson(gs: seq<Group>): Value { Arr(seq(|gs|, i requires 0 <= i < |gs| => GroupJson(gs[i]))) }

  function HeaderValues(h: Header): seq<Value> {
    [Str(h.dtype), GroupsJson(h.groups), Str(h.modelSha256), Num(h.optionBytes), Num(h.optionMaskBytes),
     NumsJson(h.optionMaskShape), NumsJson(h.optionShape), Str(h.promptContract), Str(h.provider),
     Str(h.runtimeRevision), Num(h.stateBytes), Num(h.stateMaskBytes), NumsJson(h.stateMaskShape),
     NumsJson(h.stateShape), Str(h.version)]
  }

  function HeaderJson(h: Header): Value { Obj(Members(HEADER_KEYS, HeaderValues(h))) }

  // ----- Reading an object ---------------------------------------------------------------

  /** `dict` lookup after parsing: the last member with the key wins. */
  function Lookup(members: seq<(string, Value)>, key: string): Option<Value> {
    if members == [] then None
    else
      var later := Lookup(members[1..], key);
      if later.Some? then later else if members[0].0 == key then Some(members[0].1) else None
  }

  function TextOf(v: Option<Value>): Option<string> {
    if v.Some? && v.value.Str? then Some(v.value.text) else None
  }

  /** `header.get(key) or ""`. */
  function TextOrEmpty(v: Option<Value>): Option<string> {
    if v.None? then Some("") else TextOf(v)
  }

  function NumOf(v: Option<Value>): Option<int> {
    if v.Some? && v.value.Num? then Some(v.value.number) else None
  }

  function TextsOf(items: seq<Value>): Option<seq<string>> {
    if items == [] then Some([])
    else
      var rest := TextsOf(items[1..]);
      if rest.Some? && items[0].Str? then Some([items[0].text] + rest.value) else None
  }

  function NumsOf(items: seq<Value>): Option<seq<int>> {
    if items == [] then Some([])
    else
      var rest := NumsOf(items[1..]);
      if rest.Some? && items[0].Num? then Some([items[0].number] + rest.value) else None
  }

  function ShapeOf(v: Option<Value>): Option<seq<int>> {
    if v.Some? && v.value.Arr? then NumsOf(v.value.items) else None
  }

  /** What an object holds under each of the keys. */
  function Fields(members: seq<(string, Value)>, keys: seq<string>): (r: seq<Option<Value>>)
    ensures |r| == |keys|
  {
    seq(|keys|, i requires 0 <= i < |keys| => Lookup(members, keys[i]))
  }

  function GroupFrom(f: seq<Option<Value>>): Option<Group>
    requires |f| == |GROUP_KEYS|
  {
    var name, end, start, index, kind := TextOf(f[0]), NumOf(f[1]), NumOf(f[2]), NumOf(f[4]), TextOf(f[5]);
    var options := if f[3].Some? && f[3].value.Arr? then TextsOf(f[3].value.items) else None;
    if index.None? || name.None? || kind.None? || options.None? || start.None? || end.None? then None
    else Some(Group(index.value, name.value, kind.value, options.value, start.value, end.value))
  }

  function GroupOf(v: Value): Option<Group> {
    if v.Obj? then GroupFrom(Fields(v.members, GROUP_KEYS)) else None
  }

  function GroupsOf(items: seq<Value>): Option<seq<Group>> {
    if items == [] then Some([])
    else
      var first, rest := GroupOf(items[0]), GroupsOf(items[1..]);
      if first.Some? && rest.Some? then Some([first.value] + rest.value) else None
  }

  /** `header.get("groups", [])`. */
  function GroupsOrNone(v: Option<Value>): Option<seq<Group>> {
    if v.None? then Some([]) else if v.value.Arr? then GroupsOf(v.value.items) else None
  }

  function HeaderFrom(f: seq<Option<Value>>): Option<Header>
    requires |f| == |HEADER_KEYS|
  {
    var dtype, groups, sha := TextOf(f[0]), GroupsOrNone(f[1]), TextOrEmpty(f[2]);
    var optionBytes, optionMaskBytes, optionMaskShape, optionShape := NumOf(f[3]), NumOf(f[4]), ShapeOf(f[5]), ShapeOf(f[6]);
    var contract, provider, revision := TextOrEmpty(f[7]), TextOrEmpty(f[8]), TextOrEmpty(f[9]);
    var stateBytes, stateMaskBytes, stateMaskShape, stateShape := NumOf(f[10]), NumOf(f[11]), ShapeOf(f[12]), ShapeOf(f[13]);
    var version := TextOf(f[14]);
    if version.None? || dtype.None? || provider.None? || sha.None? || revision.None? || contract.None? || groups.None? then None
    else if stateShape.None? || stateMaskShape.None? || optionShape.None? || optionMaskShape.None? then None
    else if stateBytes.None? || stateMaskBytes.None? || optionBytes.None? || optionMaskBytes.None? then None
    else Some(Header(dtype.value, groups.value, sha.value, optionBytes.value, optionMaskBytes.value,
                     optionMaskShape.value, optionShape.value, contract.value, provider.value, revision.value,
                     stateBytes.value, stateMaskBytes.value, stateMaskShape.value, stateShape.value, version.value))
  }

  function HeaderOf(v: Value): Option<Header> {
    if v.Obj? then HeaderFrom(Fields(v.members, HEADER_KEYS)) else None
  }

  // ----- Keys in order ---------------------------------------------------------------------

  ghost predicate Ascending(keys: seq<string>) {
    forall i :: 0 <= i < |keys| - 1 ==> StringLess(keys[i], keys[i + 1])
  }

  lemma {:induction false} AscendAcross(keys: seq<string>, i: nat, j: nat)
    requires Ascending(keys) && i < j < |keys|
    ensures StringLess(keys[i], keys[j])
  {
    if j > i + 1 {
      AscendAcross(keys, i, j - 1);
      LessTransitive(keys[i], keys[j - 1], keys[j]);
    }
  }

  lemma LessTransitive(a: string, b: string, c: string)
    requires StringLess(a, b) && StringLess(b, c)
    ensures StringLess(a, c)
  {
    StringLeqTransitive(a, b, c);
    if a == c {
      StringLeqAntisymmetric(a, b);
    }
  }

  lemma DistinctKeys(keys: seq<string>)
    requires Ascending(keys)
    ensures forall i, j :: 0 <= i < j < |keys| ==> keys[i] != keys[j]
  {
    forall i, j | 0 <= i < j < |keys| ensures keys[i] != keys[j] {
      AscendAcross(keys, i, j);
    }
  }

  lemma {:induction false} LookupAt(m: seq<(string, Value)>, k: nat)
    requires k < |m| && forall i :: k < i < |m| ==> m[i].0 != m[k].0
    ensures Lookup(m, m[k].0) == Some(m[k].1)
  {
    if k > 0 {
      LookupAt(m[1..], k - 1);
    } else {
      LookupAbsent(m[1..], m[0].0);
    }
  }

  lemma {:induction false} LookupAbsent(m: seq<(string, Value)>, key: string)
    requires forall j :: 0 <= j < |m| ==> m[j].0 != key
    ensures Lookup(m, key) == None
  {
    if m != [] {
      LookupAbsent(m[1..], key);
    }
  }

  /** An object with ascending keys gives back the value under each of them. */
  lemma FieldsOfMembers(keys: seq<string>, values: seq<Value>)
    requires |keys| == |values| && Ascending(keys)
    ensures Fields(Members(keys, values), keys) == seq(|keys|, i requires 0 <= i < |keys| => Some(values[i]))
  {
    var m := Members(keys, values);
    DistinctKeys(keys);
    forall k | 0 <= k < |keys| ensures Fields(m, keys)[k] == Some(values[k]) {
      assert forall i :: k < i < |m| ==> m[i].0 != m[k].0;
      LookupAt(m, k);
    }
  }

  lemma {:induction false} LessAt(a: string, b: string, k: nat)
    requires k < |a| && k < |b| && a[k] < b[k]
    requires forall i :: 0 <= i < k ==> a[i] == b[i]
    ensures StringLess(a, b)
  {
    if k > 0 {
      LessAt(a[1..], b[1..], k - 1);
    }
  }

  lemma GroupKeysAscend()
    ensures Ascending(GROUP_KEYS)
  {
    var differ := [0, 7, 6, 0, 0];
    forall i | 0 <= i < |GROUP_KEYS| - 1 ensures StringLess(GROUP_KEYS[i], GROUP_KEYS[i + 1]) {
      LessAt(GROUP_KEYS[i], GROUP_KEYS[i + 1], differ[i]);
    }
  }

  lemma HeaderKeysAscend()
    ensures Ascending(HEADER_KEYS)
  {
    var differ := [0, 0, 0, 7, 12, 7, 0, 3, 0, 0, 6, 11, 6, 0];
    forall i | 0 <= i < |HEADER_KEYS| - 1 ensures StringLess(HEADER_KEYS[i], HEADER_KEYS[i + 1]) {
      LessAt(HEADER_KEYS[i], HEADER_KEYS[i + 1], differ[i]);
    }
  }

  // ----- Reading back the header -------------------------------------------------------------

  lemma {:induction false} NumsRoundTrip(ns: seq<int>)
    ensures NumsOf(NumsJson(ns).items) == Some(ns)
  {
    if ns != [] {
      assert NumsJson(ns).items[1..] == NumsJson(ns[1..]).items;
      NumsRoundTrip(ns[1..]);
      assert ns == [ns[0]] + ns[1..];
    }
  }

  lemma {:induction false} TextsRoundTrip(ts: seq<string>)
    ensures TextsOf(TextsJson(ts).items) == Some(ts)
  {
    if ts != [] {
      assert TextsJson(ts).items[1..] == TextsJson(ts[1..]).items;
      TextsRoundTrip(ts[1..]);
      assert ts == [ts[0]] + ts[1..];
    }
  }

  lemma GroupRoundTrip(g: Group)
    ensures GroupOf(GroupJson(g)) == Some(g)
  {
    GroupKeysAscend();
    FieldsOfMembers(GROUP_KEYS, GroupValues(g));
    TextsRoundTrip(g.options);
  }

  lemma {:induction false} GroupsRoundTrip(gs: seq<Group>)
    ensures GroupsOf(GroupsJson(gs).items) == Some(gs)
  {
    if gs != [] {
      assert GroupsJson(gs).items[1..] == GroupsJson(gs[1..]).items;
      GroupRoundTrip(gs[0]);
      GroupsRoundTrip(gs[1..]);
      assert gs == [gs[0]] + gs[1..];
    }
  }

  lemma HeaderFromValues(f: seq<Option<Value>>, h: Header)
    requires |f| == |HEADER_KEYS|
    requires f[0] == Some(Str(h.dtype)) && f[1] == Some(GroupsJson(h.groups)) && f[2] == Some(Str(h.modelSha256))
    requires f[3] == Some(Num(h.optionBytes)) && f[4] == Some(Num(h.optionMaskBytes))
    requires f[5] == Some(NumsJson(h.optionMaskShape)) && f[6] == Some(NumsJson(h.optionShape))
    requires f[7] == Some(Str(h.promptContract)) && f[8] == Some(Str(h.provider)) && f[9] == Some(Str(h.runtimeRevision))
    requires f[10] == Some(Num(h.stateBytes)) && f[11] == Some(Num(h.stateMaskBytes))
    requires f[12] == Some(NumsJson(h.stateMaskShape)) && f[13] == Some(NumsJson(h.stateShape)) && f[14] == Some(Str(h.version))
    ensures HeaderFrom(f) == Some(h)
  {
    NumsRoundTrip(h.optionMaskShape);
    NumsRoundTrip(h.optionShape);
    NumsRoundTrip(h.stateMaskShape);
    NumsRoundTrip(h.stateShape);
    GroupsRoundTrip(h.groups);
  }

  lemma FieldsOfHeader(values: seq<Value>)
    requires |values| == |HEADER_KEYS|
    ensures forall i :: 0 <= i < |values| ==> Fields(Members(HEADER_KEYS, values), HEADER_KEYS)[i] == Some(values[i])
  {
    HeaderKeysAscend();
    FieldsOfMembers(HEADER_KEYS, values);
  }

  lemma HeaderRoundTrip(h: Header)
    ensures HeaderOf(HeaderJson(h)) == Some(h)
  {
    FieldsOfHeader(HeaderValues(h));
    HeaderFromValues(Fields(Members(HEADER_KEYS, HeaderValues(h)), HEADER_KEYS), h);
  }
}
