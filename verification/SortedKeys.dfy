/**
 `json.dumps(..., sort_keys=True)` on the header dictionary: sorting its keys gives the
 member order that the native writer spells out by hand.
 */
module SortedKeys {
  import opened Order
  import opened Json
  import opened FrameFormat

  predicate ByKey(a: (string, Value), b: (string, Value)) { StringLeq(a.0, b.0) }

  lemma ByKeyIsTotal()
    ensures TotalOrder(ByKey)
  {
    forall a: (string, Value), b: (string, Value) ensures ByKey(a, b) || ByKey(b, a) {
      StringLeqTotal(a.0, b.0);
    }
    forall a: (string, Value), b: (string, Value), c: (string, Value) | ByKey(a, b) && ByKey(b, c)
      ensures ByKey(a, c)
    {
      StringLeqTransitive(a.0, b.0, c.0);
    }
  }

  function SortMembers(members: seq<(string, Value)>): (r: seq<(string, Value)>)
    ensures Sorted(ByKey, r) && multiset(r) == multiset(members)
  {
    ByKeyIsTotal();
    Sort(ByKey, members)
  }

  /** Every dictionary of a document with its items sorted by key. */
  function SortKeys(v: Value): Value
    decreases v, 0
  {
    match v
    case Str(_) => v
    case Num(_) => v
    case Arr(items) => Arr(SortEach(items))
    case Obj(members) => Obj(SortMembers(SortValues(members)))
  }

  function SortEach(items: seq<Value>): (r: seq<Value>)
    ensures |r| == |items|
    decreases items, 0
  {
    if items == [] then [] else [SortKeys(items[0])] + SortEach(items[1..])
  }

  function SortValues(members: seq<(string, Value)>): (r: seq<(string, Value)>)
    ensures |r| == |members|
    decreases members, 0
  {
    if members == [] then [] else [SortInside(members[0])] + SortValues(members[1..])
  }

  function SortInside(member: (string, Value)): (string, Value)
    decreases member, 1
  {
    (member.0, SortKeys(member.1))
  }

  lemma {:induction false} SortEachAt(items: seq<Value>, k: nat)
    requires k < |items|
    ensures SortEach(items)[k] == SortKeys(items[k])
  {
    if k > 0 {
      SortEachAt(items[1..], k - 1);
    }
  }

  lemma {:induction false} SortValuesAt(members: seq<(string, Value)>, k: nat)
    requires k < |members|
    ensures SortValues(members)[k] == SortInside(members[k])
  {
    if k > 0 {
      SortValuesAt(members[1..], k - 1);
    }
  }

  // ----- Sorting undoes a rearrangement of ascending keys ------------------------------------

  ghost predicate Inverse(order: seq<nat>, back: seq<nat>) {
    && |order| == |back|
    && (forall i :: 0 <= i < |order| ==> order[i] < |order| && back[order[i]] == i)
    && (forall i :: 0 <= i < |order| ==> back[i] < |order| && order[back[i]] == i)
  }

  /** `b` lists `a` in the order of `order`. */
  ghost predicate Lists<T>(a: seq<T>, b: seq<T>, order: seq<nat>) {
    && |a| == |b| == |order|
    && forall i :: 0 <= i < |a| ==> order[i] < |a| && b[i] == a[order[i]]
  }

  lemma ListedOnce<T>(a: seq<T>, b: seq<T>, order: seq<nat>, back: seq<nat>)
    requires Lists(a, b, order) && Inverse(order, back) && NoDuplicates(a)
    ensures NoDuplicates(b)
  {
    forall i, j | 0 <= i < j < |b| ensures b[i] != b[j] {
      assert back[order[i]] == i && back[order[j]] == j;
    }
  }

  lemma ListedSame<T>(a: seq<T>, b: seq<T>, order: seq<nat>, back: seq<nat>, x: T)
    requires Lists(a, b, order) && Inverse(order, back)
    ensures x in a <==> x in b
  {
    if x in a {
      var i :| 0 <= i < |a| && a[i] == x;
      assert b[back[i]] == a[order[back[i]]];
    }
  }

  lemma SameElements<T>(a: seq<T>, b: seq<T>, order: seq<nat>, back: seq<nat>)
    requires Lists(a, b, order) && Inverse(order, back) && NoDuplicates(a)
    ensures multiset(a) == multiset(b)
  {
    ListedOnce(a, b, order, back);
    forall x: T ensures multiset(a)[x] == multiset(b)[x] {
      OnceEach(a, x);
      OnceEach(b, x);
      ListedSame(a, b, order, back, x);
    }
  }

  ghost predicate KeysAscend(members: seq<(string, Value)>) {
    forall i, j :: 0 <= i < j < |members| ==> StringLess(members[i].0, members[j].0)
  }

  lemma {:induction false} AscendingIsSorted(a: seq<(string, Value)>, b: seq<(string, Value)>)
    requires KeysAscend(a) && Sorted(ByKey, b) && multiset(a) == multiset(b)
    ensures a == b
  {
    assert |multiset(a)| == |a| && |multiset(b)| == |b|;
    if a != [] {
      ByKeyIsTotal();
      assert a[0] in multiset(a) && b[0] in multiset(b);
      LeastFirst(ByKey, b, a[0]);
      var k :| 0 <= k < |a| && a[k] == b[0];
      if k > 0 {
        StringLeqAntisymmetric(a[0].0, a[k].0);
      }
      DropHead(a);
      DropHead(b);
      AscendingIsSorted(a[1..], b[1..]);
    }
  }

  lemma SortRearranged(a: seq<(string, Value)>, b: seq<(string, Value)>, order: seq<nat>, back: seq<nat>)
    requires KeysAscend(a) && Lists(a, b, order) && Inverse(order, back)
    ensures SortMembers(b) == a
  {
    SameElements(a, b, order, back);
    AscendingIsSorted(a, SortMembers(b));
  }

  lemma MembersAscend(keys: seq<string>, values: seq<Value>)
    requires |keys| == |values| && Ascending(keys)
    ensures KeysAscend(Members(keys, values))
  {
    forall i, j | 0 <= i < j < |keys| ensures StringLess(keys[i], keys[j]) {
      AscendAcross(keys, i, j);
    }
  }

  // ----- The dictionaries the Python writer fills in -----------------------------------------

  const GROUP_DICT_KEYS := ["record_index", "name", "type", "options", "option_start", "option_end"]
  const GROUP_ORDER: seq<nat> := [4, 0, 5, 3, 2, 1]
  const GROUP_BACK: seq<nat> := [1, 5, 4, 3, 0, 2]

  function GroupDict(g: Group): Value {
    Obj(Members(GROUP_DICT_KEYS,
                [Num(g.recordIndex), Str(g.name), Str(g.kind), TextsJson(g.options), Num(g.optionStart), Num(g.optionEnd)]))
  }

  const HEADER_DICT_KEYS :=
    ["version", "provider", "model_sha256", "runtime_revision", "prompt_contract", "dtype", "state_shape",
     "state_mask_shape", "option_shape", "option_mask_shape", "state_bytes", "state_mask_bytes", "option_bytes",
     "option_mask_bytes", "groups"]
  const HEADER_ORDER: seq<nat> := [14, 8, 2, 9, 7, 0, 13, 12, 6, 5, 10, 11, 3, 4, 1]
  const HEADER_BACK: seq<nat> := [5, 14, 2, 12, 13, 9, 8, 4, 1, 3, 10, 11, 7, 6, 0]

  function HeaderDictValues(h: Header): seq<Value> {
    [Str(h.version), Str(h.provider), Str(h.modelSha256), Str(h.runtimeRevision), Str(h.promptContract), Str(h.dtype),
     NumsJson(h.stateShape), NumsJson(h.stateMaskShape), NumsJson(h.optionShape), NumsJson(h.optionMaskShape),
     Num(h.stateBytes), Num(h.stateMaskBytes), Num(h.optionBytes), Num(h.optionMaskBytes),
     Arr(seq(|h.groups|, i requires 0 <= i < |h.groups| => GroupDict(h.groups[i])))]
  }

  function HeaderDict(h: Header): Value { Obj(Members(HEADER_DICT_KEYS, HeaderDictValues(h))) }

  lemma PlainArrays(ns: seq<int>, ts: seq<string>)
    ensures SortKeys(NumsJson(ns)) == NumsJson(ns) && SortKeys(TextsJson(ts)) == TextsJson(ts)
  {
    forall k | 0 <= k < |ns| ensures SortEach(NumsJson(ns).items)[k] == NumsJson(ns).items[k] {
      SortEachAt(NumsJson(ns).items, k);
    }
    forall k | 0 <= k < |ts| ensures SortEach(TextsJson(ts).items)[k] == TextsJson(ts).items[k] {
      SortEachAt(TextsJson(ts).items, k);
    }
  }

  lemma SortedMembersListed(keys: seq<string>, values: seq<Value>, dictKeys: seq<string>, dictValues: seq<Value>, order: seq<nat>)
    requires |keys| == |values| && |dictKeys| == |dictValues| && Lists(keys, dictKeys, order)
    requires forall i :: 0 <= i < |dictValues| ==> SortKeys(dictValues[i]) == values[order[i]]
    ensures Lists(Members(keys, values), SortValues(Members(dictKeys, dictValues)), order)
  {
    var a, dict := Members(keys, values), Members(dictKeys, dictValues);
    forall i | 0 <= i < |dict| ensures SortValues(dict)[i] == a[order[i]] {
      SortValuesAt(dict, i);
    }
  }

  lemma SortObject(keys: seq<string>, values: seq<Value>, dictKeys: seq<string>, dictValues: seq<Value>,
                   order: seq<nat>, back: seq<nat>)
    requires |keys| == |values| && Ascending(keys) && |dictKeys| == |dictValues|
    requires Lists(keys, dictKeys, order) && Inverse(order, back)
    requires forall i :: 0 <= i < |dictValues| ==> SortKeys(dictValues[i]) == values[order[i]]
    ensures SortKeys(Obj(Members(dictKeys, dictValues))) == Obj(Members(keys, values))
  {
    SortedMembersListed(keys, values, dictKeys, dictValues, order);
    MembersAscend(keys, values);
    SortRearranged(Members(keys, values), SortValues(Members(dictKeys, dictValues)), order, back);
  }

  lemma GroupKeysListed()
    ensures Lists(GROUP_KEYS, GROUP_DICT_KEYS, GROUP_ORDER) && Inverse(GROUP_ORDER, GROUP_BACK)
  {
  }

  lemma HeaderKeysListed()
    ensures Lists(HEADER_KEYS, HEADER_DICT_KEYS, HEADER_ORDER)
  {
  }

  lemma HeaderOrderInverse()
    ensures Inverse(HEADER_ORDER, HEADER_BACK)
  {
  }

  lemma GroupDictSorted(g: Group)
    ensures SortKeys(GroupDict(g)) == GroupJson(g)
  {
    GroupKeysAscend();
    GroupKeysListed();
    PlainArrays([], g.options);
    var dict := [Num(g.recordIndex), Str(g.name), Str(g.kind), TextsJson(g.options), Num(g.optionStart), Num(g.optionEnd)];
    SortObject(GROUP_KEYS, GroupValues(g), GROUP_DICT_KEYS, dict, GROUP_ORDER, GROUP_BACK);
  }

  lemma GroupDictsSorted(h: Header)
    ensures SortKeys(HeaderDictValues(h)[14]) == GroupsJson(h.groups)
  {
    var items := HeaderDictValues(h)[14].items;
    forall k | 0 <= k < |items| ensures SortEach(items)[k] == GroupsJson(h.groups).items[k] {
      SortEachAt(items, k);
      GroupDictSorted(h.groups[k]);
    }
  }

  lemma HeaderValuesSorted(h: Header, i: nat)
    requires i < |HEADER_ORDER|
    ensures SortKeys(HeaderDictValues(h)[i]) == HeaderValues(h)[HEADER_ORDER[i]]
  {
    PlainArrays(h.stateShape, []);
    PlainArrays(h.stateMaskShape, []);
    PlainArrays(h.optionShape, []);
    PlainArrays(h.optionMaskShape, []);
    GroupDictsSorted(h);
  }

  /** Both writers put the header members in the same order. */
  lemma HeaderDictSorted(h: Header)
    ensures SortKeys(HeaderDict(h)) == HeaderJson(h)
  {
    HeaderKeysAscend();
    HeaderKeysListed();
    HeaderOrderInverse();
    forall i | 0 <= i < |HEADER_ORDER| ensures SortKeys(HeaderDictValues(h)[i]) == HeaderValues(h)[HEADER_ORDER[i]] {
      HeaderValuesSorted(h, i);
    }
    SortObject(HEADER_KEYS, HeaderValues(h), HEADER_DICT_KEYS, HeaderDictValues(h), HEADER_ORDER, HEADER_BACK);
  }
}
