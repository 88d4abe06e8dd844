/** Reading the model's text of a fleet back: every demand and every node fact is found under its own key. */
module FleetReading {
  import opened Wrappers
  import opened Leases
  import opened Order
  import opened Json
  import opened FrameFormat
  import opened Fleet
  import opened FleetResolver
  import opened FleetText
  import BridgeWriter

  // ----- Documents with words in them ----------------------------------------------------------

  /** JSON as `json.dumps` writes it: numbers, truth values and null are words, the rest is as usual. */
  datatype Doc =
    | Word(word: string)
    | Text(text: string)
    | List(items: seq<Doc>)
    | Record(members: seq<(string, Doc)>)

  predicate Closes(c: char) { c == ',' || c == ']' || c == '}' }

  predicate IsWord(w: string) {
    && w != [] && w[0] != '\"' && w[0] != '[' && w[0] != '{'
    && forall i :: 0 <= i < |w| ==> !Closes(w[i])
  }

  predicate Wordy(d: Doc) {
    match d
    case Word(w) => IsWord(w)
    case Text(t) => true
    case List(items) => forall i :: 0 <= i < |items| ==> Wordy(items[i])
    case Record(members) => forall i :: 0 <= i < |members| ==> Wordy(members[i].1)
  }

  function MemberText(style: Style, key: string, value: string): string { Quote(style, key) + ([':'] + value) }

  function Shown(style: Style, d: Doc): string {
    match d
    case Word(w) => w
    case Text(t) => Quote(style, t)
    case List(items) => ['['] + (Joined(seq(|items|, i requires 0 <= i < |items| => Shown(style, items[i]))) + [']'])
    case Record(members) =>
      ['{'] + (Joined(seq(|members|, i requires 0 <= i < |members| => MemberText(style, members[i].0, Shown(style, members[i].1)))) + ['}'])
  }

  function Texts(style: Style, items: seq<Doc>): seq<string> {
    seq(|items|, i requires 0 <= i < |items| => Shown(style, items[i]))
  }

  function MemberTexts(style: Style, members: seq<(string, Doc)>): seq<string> {
    seq(|members|, i requires 0 <= i < |members| => MemberText(style, members[i].0, Shown(style, members[i].1)))
  }

  // ----- The reader ----------------------------------------------------------------------------

  function ReadWord(s: string): (r: (string, string))
    ensures s == r.0 + r.1
  {
    if s == [] || Closes(s[0]) then ([], s)
    else
      var more := ReadWord(s[1..]);
      ([s[0]] + more.0, more.1)
  }

  function ReadDoc(s: string): (r: Option<(Doc, string)>)
    ensures r.Some? ==> |r.value.1| < |s|
    decreases |s|, 0
  {
    if s == [] || Closes(s[0]) then None
    else if s[0] == '\"' then
      var t := ParseText(s[1..]);
      if t.None? then None else Some((Text(t.value.0), t.value.1))
    else if s[0] == '[' then
      if |s| > 1 && s[1] == ']' then Some((List([]), s[2..]))
      else
        var items := ReadItems(s[1..]);
        if items.None? then None else Some((List(items.value.0), items.value.1))
    else if s[0] == '{' then
      if |s| > 1 && s[1] == '}' then Some((Record([]), s[2..]))
      else
        var members := ReadMembers(s[1..]);
        if members.None? then None else Some((Record(members.value.0), members.value.1))
    else
      var w := ReadWord(s);
      Some((Word(w.0), w.1))
  }

  function ReadItems(s: string): (r: Option<(seq<Doc>, string)>)
    ensures r.Some? ==> |r.value.1| < |s|
    decreases |s|, 1
  {
    var first := ReadDoc(s);
    if first.None? || first.value.1 == [] then None
    else if first.value.1[0] == ']' then Some(([first.value.0], first.value.1[1..]))
    else if first.value.1[0] != ',' then None
    else
      var more := ReadItems(first.value.1[1..]);
      if more.None? then None else Some(([first.value.0] + more.value.0, more.value.1))
  }

  function ReadMember(s: string): (r: Option<((string, Doc), string)>)
    ensures r.Some? ==> |r.value.1| < |s|
    decreases |s|, 1
  {
    if s == [] || s[0] != '\"' then None
    else
      var key := ParseText(s[1..]);
      if key.None? || key.value.1 == [] || key.value.1[0] != ':' then None
      else
        var value := ReadDoc(key.value.1[1..]);
        if value.None? then None else Some(((key.value.0, value.value.0), value.value.1))
  }

  function ReadMembers(s: string): (r: Option<(seq<(string, Doc)>, string)>)
    ensures r.Some? ==> |r.value.1| < |s|
    decreases |s|, 2
  {
    var first := ReadMember(s);
    if first.None? || first.value.1 == [] then None
    else if first.value.1[0] == '}' then Some(([first.value.0], first.value.1[1..]))
    else if first.value.1[0] != ',' then None
    else
      var more := ReadMembers(first.value.1[1..]);
      if more.None? then None else Some(([first.value.0] + more.value.0, more.value.1))
  }

  // ----- Reading what is shown -----------------------------------------------------------------

  predicate Ends(rest: string) { rest == [] || Closes(rest[0]) }

  lemma {:induction false} WordRead(w: string, rest: string)
    requires (forall i :: 0 <= i < |w| ==> !Closes(w[i])) && Ends(rest)
    ensures ReadWord(w + rest) == (w, rest)
  {
    if w == [] {
      assert w + rest == rest;
    } else {
      assert (w + rest)[0] == w[0] && (w + rest)[1..] == w[1..] + rest;
      WordRead(w[1..], rest);
      assert w == [w[0]] + w[1..];
    }
  }

  lemma ShownStarts(style: Style, d: Doc)
    requires Wordy(d)
    ensures Shown(style, d) != [] && !Closes(Shown(style, d)[0])
  {
  }

  lemma Opened(open: char, inner: string, close: char, rest: string)
    ensures var s := [open] + (inner + [close]) + rest; s[0] == open && s[1..] == inner + ([close] + rest)
  {
  }

  lemma JoinedFirst(parts: seq<string>, close: char, rest: string)
    requires parts != []
    ensures Joined(parts) + ([close] + rest) ==
            parts[0] + (if |parts| == 1 then [close] + rest else [','] + (Joined(parts[1..]) + ([close] + rest)))
  {
  }

  lemma ListDoc(s: string, inside: string, items: seq<Doc>, rest: string)
    requires s != [] && s[0] == '[' && s[1..] == inside && inside != [] && inside[0] != ']' && ReadItems(inside) == Some((items, rest))
    ensures ReadDoc(s) == Some((List(items), rest))
  {
  }

  lemma RecordDoc(s: string, inside: string, members: seq<(string, Doc)>, rest: string)
    requires s != [] && s[0] == '{' && s[1..] == inside && inside != [] && inside[0] != '}' && ReadMembers(inside) == Some((members, rest))
    ensures ReadDoc(s) == Some((Record(members), rest))
  {
  }

  lemma ItemsStart(style: Style, items: seq<Doc>, rest: string)
    requires items != [] && Wordy(items[0])
    ensures (Joined(Texts(style, items)) + ([']'] + rest))[0] != ']'
  {
    JoinedFirst(Texts(style, items), ']', rest);
    ShownStarts(style, items[0]);
  }

  lemma MembersStart(style: Style, members: seq<(string, Doc)>, rest: string)
    requires members != []
    ensures (Joined(MemberTexts(style, members)) + (['}'] + rest))[0] != '}'
  {
    JoinedFirst(MemberTexts(style, members), '}', rest);
    assert Quote(style, members[0].0)[0] == '\"';
  }

  lemma EmptyDocs(rest: string)
    ensures ReadDoc(['['] + ([] + [']']) + rest) == Some((List([]), rest))
    ensures ReadDoc(['{'] + ([] + ['}']) + rest) == Some((Record([]), rest))
  {
    assert (['['] + ([] + [']']) + rest)[2..] == rest && (['{'] + ([] + ['}']) + rest)[2..] == rest;
  }

  lemma {:induction false} DocRead(style: Style, d: Doc, rest: string)
    requires Wordy(d) && Ends(rest)
    ensures ReadDoc(Shown(style, d) + rest) == Some((d, rest))
    decreases d, 0
  {
    match d
    case Word(w) =>
      WordRead(w, rest);
    case Text(t) =>
      UnquoteText(style, t, rest);
    case List(items) =>
      ListRead(style, items, rest);
      assert Shown(style, d) == ['['] + (Joined(Texts(style, items)) + [']']);
    case Record(members) =>
      RecordRead(style, members, rest);
      assert Shown(style, d) == ['{'] + (Joined(MemberTexts(style, members)) + ['}']);
  }

  lemma {:induction false} ListRead(style: Style, items: seq<Doc>, rest: string)
    requires forall i :: 0 <= i < |items| ==> Wordy(items[i])
    ensures ReadDoc(['['] + (Joined(Texts(style, items)) + [']']) + rest) == Some((List(items), rest))
    decreases items, 2
  {
    if items == [] {
      EmptyDocs(rest);
    } else {
      Opened('[', Joined(Texts(style, items)), ']', rest);
      ItemsStart(style, items, rest);
      ItemsRead(style, items, rest);
      ListDoc(['['] + (Joined(Texts(style, items)) + [']']) + rest, Joined(Texts(style, items)) + ([']'] + rest), items, rest);
    }
  }

  lemma {:induction false} RecordRead(style: Style, members: seq<(string, Doc)>, rest: string)
    requires forall i :: 0 <= i < |members| ==> Wordy(members[i].1)
    ensures ReadDoc(['{'] + (Joined(MemberTexts(style, members)) + ['}']) + rest) == Some((Record(members), rest))
    decreases members, 3
  {
    if members == [] {
      EmptyDocs(rest);
    } else {
      Opened('{', Joined(MemberTexts(style, members)), '}', rest);
      MembersStart(style, members, rest);
      MembersRead(style, members, rest);
      var inside := Joined(MemberTexts(style, members));
      RecordDoc(['{'] + (inside + ['}']) + rest, inside + (['}'] + rest), members, rest);
    }
  }

  lemma NextItemRead(s: string, item: Doc, tail: string, more: seq<Doc>, rest: string)
    requires ReadDoc(s) == Some((item, [','] + tail)) && ReadItems(tail) == Some((more, rest))
    ensures ReadItems(s) == Some(([item] + more, rest))
  {
    assert ([','] + tail)[1..] == tail;
  }

  lemma LastItemRead(s: string, item: Doc, rest: string)
    requires ReadDoc(s) == Some((item, [']'] + rest))
    ensures ReadItems(s) == Some(([item], rest))
  {
    assert ([']'] + rest)[1..] == rest;
  }

  lemma {:induction false} ItemsRead(style: Style, items: seq<Doc>, rest: string)
    requires items != [] && forall i :: 0 <= i < |items| ==> Wordy(items[i])
    ensures ReadItems(Joined(Texts(style, items)) + ([']'] + rest)) == Some((items, rest))
    decreases items, 1
  {
    JoinedFirst(Texts(style, items), ']', rest);
    var s := Joined(Texts(style, items)) + ([']'] + rest);
    if |items| == 1 {
      DocRead(style, items[0], [']'] + rest);
      LastItemRead(s, items[0], rest);
      assert [items[0]] == items;
    } else {
      var tail := Joined(Texts(style, items[1..])) + ([']'] + rest);
      assert Texts(style, items)[1..] == Texts(style, items[1..]);
      DocRead(style, items[0], [','] + tail);
      ItemsRead(style, items[1..], rest);
      NextItemRead(s, items[0], tail, items[1..], rest);
      assert items == [items[0]] + items[1..];
    }
  }

  lemma {:induction false} MemberRead(style: Style, member: (string, Doc), rest: string)
    requires Wordy(member.1) && Ends(rest)
    ensures ReadMember(MemberText(style, member.0, Shown(style, member.1)) + rest) == Some((member, rest))
    decreases member, 1
  {
    var value := [':'] + (Shown(style, member.1) + rest);
    assert MemberText(style, member.0, Shown(style, member.1)) + rest == Quote(style, member.0) + value;
    UnquoteText(style, member.0, value);
    assert value[1..] == Shown(style, member.1) + rest;
    DocRead(style, member.1, rest);
  }

  lemma NextMemberRead(s: string, member: (string, Doc), tail: string, more: seq<(string, Doc)>, rest: string)
    requires ReadMember(s) == Some((member, [','] + tail)) && ReadMembers(tail) == Some((more, rest))
    ensures ReadMembers(s) == Some(([member] + more, rest))
  {
    assert ([','] + tail)[1..] == tail;
  }

  lemma LastMemberRead(s: string, member: (string, Doc), rest: string)
    requires ReadMember(s) == Some((member, ['}'] + rest))
    ensures ReadMembers(s) == Some(([member], rest))
  {
    assert (['}'] + rest)[1..] == rest;
  }

  /** The text of several members is that of the first, and then that of the others. */
  lemma MembersTexts(style: Style, members: seq<(string, Doc)>, rest: string)
    requires members != []
    ensures Joined(MemberTexts(style, members)) + (['}'] + rest) ==
            MemberText(style, members[0].0, Shown(style, members[0].1)) +
            (if |members| == 1 then ['}'] + rest else [','] + (Joined(MemberTexts(style, members[1..])) + (['}'] + rest)))
  {
    JoinedFirst(MemberTexts(style, members), '}', rest);
    assert MemberTexts(style, members)[1..] == MemberTexts(style, members[1..]);
  }

  lemma {:induction false} MembersRead(style: Style, members: seq<(string, Doc)>, rest: string)
    requires members != [] && forall i :: 0 <= i < |members| ==> Wordy(members[i].1)
    ensures ReadMembers(Joined(MemberTexts(style, members)) + (['}'] + rest)) == Some((members, rest))
    decreases members, 2
  {
    var s := Joined(MemberTexts(style, members)) + (['}'] + rest);
    MembersTexts(style, members, rest);
    if |members| == 1 {
      MemberRead(style, members[0], ['}'] + rest);
      LastMemberRead(s, members[0], rest);
      assert [members[0]] == members;
    } else {
      var tail := Joined(MemberTexts(style, members[1..])) + (['}'] + rest);
      MemberRead(style, members[0], [','] + tail);
      MembersRead(style, members[1..], rest);
      NextMemberRead(s, members[0], tail, members[1..], rest);
      HeadAndTail(members);
    }
  }

  // ----- Objects under literal keys ------------------------------------------------------------

  const NODE_KEYS :=
    ["active_claims", "capabilities", "cpu_free_fraction", "drained", "health_fresh", "healthy", "ram_free_gib", "reachable",
     "vram_free_gib"]

  const WORKLOAD_KEYS :=
    ["checkpoint_supported", "deadline_seconds", "description", "estimated_duration_seconds", "estimated_ram_gib", "estimated_vram_gib",
     "pinned", "preferred_capabilities", "required_capabilities", "state_locality_hint", "type"]

  const STATE_KEYS := ["fleet", "source", "workload"]

  lemma NodeKeysAscend()
    ensures Ascending(NODE_KEYS)
  {
    var differ := [0, 1, 0, 0, 6, 0, 1, 0];
    forall i | 0 <= i < |NODE_KEYS| - 1 ensures StringLess(NODE_KEYS[i], NODE_KEYS[i + 1]) {
      LessAt(NODE_KEYS[i], NODE_KEYS[i + 1], differ[i]);
    }
  }

  lemma WorkloadKeysAscend()
    ensures Ascending(WORKLOAD_KEYS)
  {
    var differ := [0, 2, 0, 10, 10, 0, 1, 0, 0, 0];
    forall i | 0 <= i < |WORKLOAD_KEYS| - 1 ensures StringLess(WORKLOAD_KEYS[i], WORKLOAD_KEYS[i + 1]) {
      LessAt(WORKLOAD_KEYS[i], WORKLOAD_KEYS[i + 1], differ[i]);
    }
  }

  lemma StateKeysAscend()
    ensures Ascending(STATE_KEYS)
  {
    forall i | 0 <= i < |STATE_KEYS| - 1 ensures StringLess(STATE_KEYS[i], STATE_KEYS[i + 1]) {
      LessAt(STATE_KEYS[i], STATE_KEYS[i + 1], 0);
    }
  }

  function Keyed(keys: seq<string>, values: seq<Doc>): Doc
    requires |keys| == |values|
  {
    Record(seq(|keys|, i requires 0 <= i < |keys| => (keys[i], values[i])))
  }

  /** The one member with a key has that value. */
  predicate Under(d: Doc, key: string, value: Doc) {
    d.Record? && exists k ::
      0 <= k < |d.members| && d.members[k] == (key, value) && forall j :: 0 <= j < |d.members| && j != k ==> d.members[j].0 != key
  }

  lemma UnderKey(keys: seq<string>, values: seq<Doc>, k: nat)
    requires |keys| == |values| && Ascending(keys) && k < |keys|
    ensures Under(Keyed(keys, values), keys[k], values[k])
  {
    DistinctKeys(keys);
    assert Keyed(keys, values).members[k] == (keys[k], values[k]);
  }

  predicate Lower(key: string) { forall i :: 0 <= i < |key| ==> 'a' <= key[i] <= 'z' || key[i] == '_' }

  lemma KeyShown(style: Style, key: string, value: string)
    requires Lower(key)
    ensures MemberText(style, key, value) == BridgeWriter.KeyText(key) + value
  {
    BridgeWriter.PlainText(style, key);
  }

  // ----- The pieces of the text ----------------------------------------------------------------

  function Listed(names: seq<string>): Doc { List(seq(|names|, i requires 0 <= i < |names| => Text(names[i]))) }

  lemma {:induction false} ItemsJoined(style: Style, names: seq<string>)
    ensures PrintItems(style, TextsJson(names).items) == Joined(Texts(style, Listed(names).items))
  {
    var items, docs := TextsJson(names).items, Listed(names).items;
    if names != [] {
      assert items[1..] == TextsJson(names[1..]).items;
      assert Texts(style, docs)[1..] == Texts(style, Listed(names[1..]).items);
      ItemsJoined(style, names[1..]);
    }
  }

  lemma NamesShown(style: Style, names: seq<string>)
    ensures Print(style, TextsJson(names)) == Shown(style, Listed(names)) && Wordy(Listed(names))
  {
    ItemsJoined(style, names);
    assert Shown(style, Listed(names)) == ['['] + (Joined(Texts(style, Listed(names).items)) + [']']);
  }

  ghost predicate PrintsWords(number: Number) { forall x :: IsWord(number(x)) }

  function TruthWord(b: bool): Doc { Word(if b then "true" else "false") }

  function NumberWord(x: Option<real>, number: Number): Doc { Word(if x.Some? then number(x.value) else "null") }

  lemma LiteralWords()
    ensures IsWord("true") && IsWord("false") && IsWord("null")
    ensures "true" == Truth(true) && "false" == Truth(false) && "null" == ['n', 'u', 'l', 'l']
  {
  }

  lemma NumbersAreWords(x: real, number: Number)
    requires PrintsWords(number)
    ensures IsWord(number(x))
  {
  }

  lemma WordsAreWords(b: bool, x: Option<real>, n: int, number: Number)
    requires PrintsWords(number)
    ensures Wordy(TruthWord(b)) && Wordy(NumberWord(x, number)) && Wordy(Word(PrintInt(n)))
    ensures TruthWord(b).word == Truth(b) && NumberWord(x, number).word == OrNull(x, number)
  {
    LiteralWords();
    if x.Some? {
      NumbersAreWords(x.value, number);
    }
    var d := Decimal(if n < 0 then -n else n);
    assert forall i :: 0 <= i < |d| ==> IsDigit(d[i]);
  }

  // ----- One node ------------------------------------------------------------------------------

  function NodeValues(f: Facts, number: Number): seq<Doc> {
    [Word(PrintInt(f.activeClaims)), Listed(f.capabilities), Word(number(f.cpuFree)), TruthWord(f.drained), TruthWord(f.healthFresh),
     TruthWord(f.healthy), Word(number(f.ramFree)), TruthWord(f.reachable), Word(number(f.vramFree))]
  }

  function NodeDoc(f: Facts, number: Number): Doc { Keyed(NODE_KEYS, NodeValues(f, number)) }

  lemma NodeKeyTexts()
    ensures CLAIMS == ['{'] + BridgeWriter.KeyText(NODE_KEYS[0]) && CAPABILITIES == BridgeWriter.KeyText(NODE_KEYS[1])
    ensures PLAIN_KEYS[0] == BridgeWriter.KeyText(NODE_KEYS[2]) && PLAIN_KEYS[1] == BridgeWriter.KeyText(NODE_KEYS[3])
    ensures PLAIN_KEYS[2] == BridgeWriter.KeyText(NODE_KEYS[4]) && PLAIN_KEYS[3] == BridgeWriter.KeyText(NODE_KEYS[5])
    ensures PLAIN_KEYS[4] == BridgeWriter.KeyText(NODE_KEYS[6]) && PLAIN_KEYS[5] == BridgeWriter.KeyText(NODE_KEYS[7])
    ensures PLAIN_KEYS[6] == BridgeWriter.KeyText(NODE_KEYS[8])
  {
  }

  lemma NodeKeysLower(i: nat)
    requires i < |NODE_KEYS|
    ensures Lower(NODE_KEYS[i])
  {
  }

  lemma NodeValuesShown(f: Facts, number: Number, i: nat)
    requires PrintsWords(number) && i < |PLAIN_KEYS|
    ensures NodeValues(f, number)[i + 2].Word? && NodeValues(f, number)[i + 2].word == PlainValues(f, number)[i]
    ensures Wordy(NodeValues(f, number)[i + 2])
  {
    LiteralWords();
    NumbersAreWords(f.cpuFree, number);
    NumbersAreWords(f.ramFree, number);
    NumbersAreWords(f.vramFree, number);
  }

  lemma NodeMember(style: Style, f: Facts, number: Number, i: nat)
    requires PrintsWords(number) && i < |PLAIN_KEYS|
    ensures MemberTexts(style, NodeDoc(f, number).members)[i + 2] == Plain(f, number)[i]
  {
    NodeKeyTexts();
    NodeKeysLower(i + 2);
    NodeValuesShown(f, number, i);
    KeyShown(style, NODE_KEYS[i + 2], PlainValues(f, number)[i]);
    assert PLAIN_KEYS[i] == BridgeWriter.KeyText(NODE_KEYS[i + 2]);
  }

  lemma NodeWordy(f: Facts, number: Number)
    requires PrintsWords(number)
    ensures Wordy(NodeDoc(f, number))
  {
    var values := NodeValues(f, number);
    WordsAreWords(true, None, f.activeClaims, number);
    forall i | 0 <= i < |values| ensures Wordy(values[i]) {
      if i >= 2 {
        NodeValuesShown(f, number, i - 2);
      }
    }
  }

  lemma NodePlain(style: Style, f: Facts, number: Number)
    requires PrintsWords(number)
    ensures MemberTexts(style, NodeDoc(f, number).members)[1..][1..] == Plain(f, number)
  {
    var texts := MemberTexts(style, NodeDoc(f, number).members);
    forall i | 0 <= i < |PLAIN_KEYS| ensures texts[1..][1..][i] == Plain(f, number)[i] {
      NodeMember(style, f, number, i);
      assert texts[1..][1..][i] == texts[i + 2];
    }
  }

  lemma Regrouped(open: string, key: string, x: string, comma: string, other: string, y: string, plain: string, close: string)
    ensures (open + key) + (x + (comma + (other + (y + (comma + (plain + close)))))) ==
            open + (((key + x) + (comma + ((other + y) + (comma + plain)))) + close)
  {
    assert other + (y + (comma + (plain + close))) == ((other + y) + (comma + plain)) + close;
  }

  lemma JoinedTwo(texts: seq<string>)
    requires |texts| > 2
    ensures Joined(texts) == texts[0] + ([','] + (texts[1] + ([','] + Joined(texts[1..][1..]))))
  {
    assert texts[1..][0] == texts[1];
  }

  lemma MemberShown(style: Style, keys: seq<string>, values: seq<Doc>, i: nat)
    requires |keys| == |values| && i < |keys| && Lower(keys[i])
    ensures MemberTexts(style, Keyed(keys, values).members)[i] == BridgeWriter.KeyText(keys[i]) + Shown(style, values[i])
  {
    KeyShown(style, keys[i], Shown(style, values[i]));
  }

  lemma NodeGlued(style: Style, keys: seq<string>, values: seq<Doc>, first: string, second: string, plain: seq<string>)
    requires |keys| == |values| > 2 && Lower(keys[0]) && Lower(keys[1])
    requires first == ['{'] + BridgeWriter.KeyText(keys[0]) && second == BridgeWriter.KeyText(keys[1])
    requires MemberTexts(style, Keyed(keys, values).members)[1..][1..] == plain
    ensures first + (Shown(style, values[0]) + ([','] + (second + (Shown(style, values[1]) + ([','] + (Joined(plain) + ['}'])))))) ==
            Shown(style, Keyed(keys, values))
  {
    var texts := MemberTexts(style, Keyed(keys, values).members);
    MemberShown(style, keys, values, 0);
    MemberShown(style, keys, values, 1);
    JoinedTwo(texts);
    Regrouped(['{'], BridgeWriter.KeyText(keys[0]), Shown(style, values[0]), [','], second, Shown(style, values[1]), Joined(plain), ['}']);
    assert Shown(style, Keyed(keys, values)) == ['{'] + (Joined(texts) + ['}']);
  }

  lemma AssembledIs(first: string, second: string, claims: string, capabilities: string, plain: string)
    requires first == CLAIMS && second == CAPABILITIES
    ensures Assembled(claims, capabilities, plain) == first + (claims + ([','] + (second + (capabilities + ([','] + (plain + ['}']))))))
  {
  }

  lemma NodeShown(style: Style, f: Facts, number: Number)
    requires PrintsWords(number)
    ensures NodeText(style, f, number) == Shown(style, NodeDoc(f, number))
  {
    NodeKeyTexts();
    NodeKeysLower(0);
    NodeKeysLower(1);
    NodePlain(style, f, number);
    NamesShown(style, f.capabilities);
    NodeTextGlued(style, f, number, NODE_KEYS, NodeValues(f, number), CLAIMS, CAPABILITIES);
  }

  lemma NodeTextGlued(style: Style, f: Facts, number: Number, keys: seq<string>, values: seq<Doc>, first: string, second: string)
    requires |keys| == |values| > 2 && Lower(keys[0]) && Lower(keys[1])
    requires first == ['{'] + BridgeWriter.KeyText(keys[0]) && second == BridgeWriter.KeyText(keys[1])
    requires first == CLAIMS && second == CAPABILITIES
    requires MemberTexts(style, Keyed(keys, values).members)[1..][1..] == Plain(f, number)
    requires Shown(style, values[0]) == PrintInt(f.activeClaims) && Shown(style, values[1]) == Print(style, TextsJson(f.capabilities))
    ensures NodeText(style, f, number) == Shown(style, Keyed(keys, values))
  {
    NodeGlued(style, keys, values, first, second, Plain(f, number));
    AssembledIs(first, second, PrintInt(f.activeClaims), Print(style, TextsJson(f.capabilities)), Joined(Plain(f, number)));
  }

  // ----- The workload --------------------------------------------------------------------------

  function WorkloadDocAt(s: Fleet.State, number: Number, i: nat): Doc {
    match i
    case 0 => TruthWord(s.checkpoint)
    case 1 => NumberWord(s.story.deadline, number)
    case 2 => Text(s.story.description)
    case 3 => Word(number(s.story.duration))
    case 4 => Word(number(s.ram))
    case 5 => Word(number(s.vram))
    case 6 => TruthWord(s.pinned.Some?)
    case 7 => Listed(FleetText.Names(s.preferred))
    case 8 => Listed(FleetText.Names(s.required))
    case 9 => Text(s.story.locality)
    case _ => Text(s.story.kind)
  }

  function WorkloadDocs(s: Fleet.State, number: Number): seq<Doc> {
    seq(|WORKLOAD_KEYS|, i requires 0 <= i < |WORKLOAD_KEYS| => WorkloadDocAt(s, number, i))
  }

  lemma WorkloadKeysLower(i: nat)
    requires i < |WORKLOAD_KEYS|
    ensures Lower(WORKLOAD_KEYS[i])
  {
  }

  lemma EarlyKeys()
    ensures WORKLOAD_KEY_TEXTS[0] == BridgeWriter.KeyText(WORKLOAD_KEYS[0])
    ensures WORKLOAD_KEY_TEXTS[1] == BridgeWriter.KeyText(WORKLOAD_KEYS[1])
    ensures WORKLOAD_KEY_TEXTS[2] == BridgeWriter.KeyText(WORKLOAD_KEYS[2])
  {
  }

  lemma EstimateKeys()
    ensures WORKLOAD_KEY_TEXTS[3] == BridgeWriter.KeyText(WORKLOAD_KEYS[3])
    ensures WORKLOAD_KEY_TEXTS[4] == BridgeWriter.KeyText(WORKLOAD_KEYS[4])
    ensures WORKLOAD_KEY_TEXTS[5] == BridgeWriter.KeyText(WORKLOAD_KEYS[5])
  {
  }

  lemma PinnedKeys()
    ensures WORKLOAD_KEY_TEXTS[6] == BridgeWriter.KeyText(WORKLOAD_KEYS[6])
  {
  }

  lemma CapabilityKeys()
    ensures WORKLOAD_KEY_TEXTS[7] == BridgeWriter.KeyText(WORKLOAD_KEYS[7])
    ensures WORKLOAD_KEY_TEXTS[8] == BridgeWriter.KeyText(WORKLOAD_KEYS[8])
  {
  }

  lemma LateKeys()
    ensures WORKLOAD_KEY_TEXTS[9] == BridgeWriter.KeyText(WORKLOAD_KEYS[9])
    ensures WORKLOAD_KEY_TEXTS[10] == BridgeWriter.KeyText(WORKLOAD_KEYS[10])
  {
  }

  lemma WorkloadKeyTexts(i: nat)
    requires i < |WORKLOAD_KEYS|
    ensures Lower(WORKLOAD_KEYS[i]) && WORKLOAD_KEY_TEXTS[i] == BridgeWriter.KeyText(WORKLOAD_KEYS[i])
  {
    WorkloadKeysLower(i);
    EarlyKeys();
    EstimateKeys();
    PinnedKeys();
    CapabilityKeys();
    LateKeys();
  }

  lemma TruthShown(b: bool, number: Number)
    requires PrintsWords(number)
    ensures Wordy(TruthWord(b)) && Shown(Bridge, TruthWord(b)) == Truth(b)
  {
    WordsAreWords(b, None, 0, number);
  }

  lemma NumberShown(x: Option<real>, number: Number)
    requires PrintsWords(number)
    ensures Wordy(NumberWord(x, number)) && Shown(Bridge, NumberWord(x, number)) == OrNull(x, number)
  {
    WordsAreWords(true, x, 0, number);
  }

  lemma RealShown(x: real, number: Number)
    requires PrintsWords(number)
    ensures Wordy(Word(number(x))) && Shown(Bridge, Word(number(x))) == number(x)
  {
    NumbersAreWords(x, number);
  }

  lemma WorkloadShown(s: Fleet.State, number: Number, i: nat)
    requires PrintsWords(number)
    ensures Wordy(WorkloadDocAt(s, number, i)) && Shown(Bridge, WorkloadDocAt(s, number, i)) == WorkloadValue(s, number, i)
  {
    match i
    case 0 => TruthShown(s.checkpoint, number);
    case 1 => NumberShown(s.story.deadline, number);
    case 3 => RealShown(s.story.duration, number);
    case 4 => RealShown(s.ram, number);
    case 5 => RealShown(s.vram, number);
    case 6 => TruthShown(s.pinned.Some?, number);
    case 7 => NamesShown(Bridge, FleetText.Names(s.preferred));
    case 8 => NamesShown(Bridge, FleetText.Names(s.required));
    case _ =>
  }

  lemma ObjectShown(keys: seq<string>, docs: seq<Doc>, keyTexts: seq<string>, texts: seq<string>)
    requires |keyTexts| == |texts| == |keys| == |docs|
    requires forall i :: 0 <= i < |keys| ==>
               Lower(keys[i]) && keyTexts[i] == BridgeWriter.KeyText(keys[i]) && texts[i] == Shown(Bridge, docs[i])
    ensures Shown(Bridge, Keyed(keys, docs)) == Enclosed(keyTexts, texts)
  {
    var members := MemberTexts(Bridge, Keyed(keys, docs).members);
    var parts := seq(|keyTexts|, i requires 0 <= i < |keyTexts| => keyTexts[i] + texts[i]);
    forall i | 0 <= i < |keys| ensures members[i] == parts[i] {
      MemberShown(Bridge, keys, docs, i);
    }
    assert members == parts;
    assert Shown(Bridge, Keyed(keys, docs)) == ['{'] + (Joined(members) + ['}']);
  }

  function WorkloadDoc(s: Fleet.State, number: Number): Doc { Keyed(WORKLOAD_KEYS, WorkloadDocs(s, number)) }

  lemma WorkloadWhole(s: Fleet.State, number: Number)
    requires PrintsWords(number)
    ensures WorkloadText(s, number) == Shown(Bridge, WorkloadDoc(s, number)) && Wordy(WorkloadDoc(s, number))
  {
    forall i | 0 <= i < |WORKLOAD_KEYS|
      ensures Lower(WORKLOAD_KEYS[i]) && WORKLOAD_KEY_TEXTS[i] == BridgeWriter.KeyText(WORKLOAD_KEYS[i])
      ensures WorkloadValues(s, number)[i] == Shown(Bridge, WorkloadDocs(s, number)[i]) && Wordy(WorkloadDocs(s, number)[i])
    {
      WorkloadKeyTexts(i);
      WorkloadShown(s, number, i);
    }
    ObjectShown(WORKLOAD_KEYS, WorkloadDocs(s, number), WORKLOAD_KEY_TEXTS, WorkloadValues(s, number));
  }

  // ----- The whole text ------------------------------------------------------------------------

  function NodeDocs(s: Fleet.State, number: Number): seq<Doc> { Map((f: Facts) => NodeDoc(f, number), FleetNodes(s, number)) }

  function StateDocs(s: Fleet.State, number: Number): seq<Doc> {
    [List(NodeDocs(s, number)), Text(s.story.source), WorkloadDoc(s, number)]
  }

  function StateDoc(s: Fleet.State, number: Number): Doc { Keyed(STATE_KEYS, StateDocs(s, number)) }

  lemma StateKeyTexts(i: nat)
    requires i < |STATE_KEYS|
    ensures Lower(STATE_KEYS[i]) && STATE_KEY_TEXTS[i] == BridgeWriter.KeyText(STATE_KEYS[i])
  {
  }

  lemma NodesShown(s: Fleet.State, number: Number)
    requires PrintsWords(number)
    ensures FleetList(s, number) == Shown(Bridge, List(NodeDocs(s, number)))
    ensures Wordy(List(NodeDocs(s, number)))
  {
    var facts := FleetNodes(s, number);
    forall i | 0 <= i < |facts|
      ensures Map(ShownText(number), facts)[i] == Texts(Bridge, NodeDocs(s, number))[i] && Wordy(NodeDocs(s, number)[i])
    {
      NodeShown(Bridge, facts[i], number);
      NodeWordy(facts[i], number);
    }
    assert Map(ShownText(number), facts) == Texts(Bridge, NodeDocs(s, number));
  }

  lemma ThreeWordy(keys: seq<string>, a: Doc, b: Doc, c: Doc)
    requires |keys| == 3 && Wordy(a) && Wordy(b) && Wordy(c)
    ensures Wordy(Keyed(keys, [a, b, c]))
  {
  }

  lemma StateWordy(s: Fleet.State, number: Number)
    requires PrintsWords(number)
    ensures Wordy(StateDoc(s, number))
  {
    NodesShown(s, number);
    WorkloadWhole(s, number);
    ThreeWordy(STATE_KEYS, List(NodeDocs(s, number)), Text(s.story.source), WorkloadDoc(s, number));
  }

  lemma ThreeShown(a: Doc, b: Doc, c: Doc, x: string, y: string, z: string)
    requires x == Shown(Bridge, a) && y == Shown(Bridge, b) && z == Shown(Bridge, c)
    ensures Enclosed(STATE_KEY_TEXTS, [x, y, z]) == Shown(Bridge, Keyed(STATE_KEYS, [a, b, c]))
  {
    forall i | 0 <= i < |STATE_KEYS| ensures Lower(STATE_KEYS[i]) && STATE_KEY_TEXTS[i] == BridgeWriter.KeyText(STATE_KEYS[i]) {
      StateKeyTexts(i);
    }
    ObjectShown(STATE_KEYS, [a, b, c], STATE_KEY_TEXTS, [x, y, z]);
  }

  lemma StateShown(s: Fleet.State, number: Number)
    requires PrintsWords(number)
    ensures AsModelState(s, number) == Shown(Bridge, StateDoc(s, number))
  {
    NodesShown(s, number);
    WorkloadWhole(s, number);
    ThreeShown(List(NodeDocs(s, number)), Text(s.story.source), WorkloadDoc(s, number),
               FleetList(s, number), Quote(Bridge, s.story.source), WorkloadText(s, number));
  }

  // ----- What is read --------------------------------------------------------------------------

  /** The list of texts is the names in order. */
  predicate NamesIn(d: Doc, names: seq<string>) {
    && d.List? && (forall i :: 0 <= i < |d.items| ==> d.items[i].Text?)
    && (forall i, j :: 0 <= i < j < |d.items| ==> StringLeq(d.items[i].text, d.items[j].text))
    && multiset(seq(|d.items|, i requires 0 <= i < |d.items| => d.items[i].text)) == multiset(names)
  }

  ghost predicate NamesUnder(d: Doc, key: string, names: seq<string>) {
    exists v :: Under(d, key, v) && NamesIn(v, names)
  }

  /** All facts of a node but its id, each under its key, and nothing else. */
  ghost predicate TellsNode(d: Doc, n: Node, number: Number) {
    && d.Record? && |d.members| == 9
    && NamesUnder(d, "capabilities", n.capabilities)
    && Under(d, "healthy", TruthWord(n.healthy))
    && Under(d, "health_fresh", TruthWord(n.healthFresh))
    && Under(d, "drained", TruthWord(n.drained))
    && Under(d, "reachable", TruthWord(n.reachable))
    && Under(d, "cpu_free_fraction", Word(number(n.cpuFree)))
    && Under(d, "ram_free_gib", Word(number(n.ramFree)))
    && Under(d, "vram_free_gib", Word(number(n.vramFree)))
    && Under(d, "active_claims", Word(PrintInt(n.activeClaims)))
  }

  ghost predicate TellsWorkload(d: Doc, s: Fleet.State, number: Number) {
    && d.Record? && |d.members| == 11
    && Under(d, "type", Text(s.story.kind))
    && Under(d, "description", Text(s.story.description))
    && NamesUnder(d, "required_capabilities", s.required)
    && NamesUnder(d, "preferred_capabilities", s.preferred)
    && Under(d, "estimated_ram_gib", Word(number(s.ram)))
    && Under(d, "estimated_vram_gib", Word(number(s.vram)))
    && Under(d, "estimated_duration_seconds", Word(number(s.story.duration)))
    && Under(d, "deadline_seconds", NumberWord(s.story.deadline, number))
    && Under(d, "checkpoint_supported", TruthWord(s.checkpoint))
    && Under(d, "state_locality_hint", Text(s.story.locality))
    && Under(d, "pinned", TruthWord(s.pinned.Some?))
  }

  lemma SortedNamesIn(names: seq<string>)
    ensures NamesIn(Listed(FleetText.Names(names)), names)
  {
    var sorted, d := FleetText.Names(names), Listed(FleetText.Names(names));
    assert seq(|d.items|, i requires 0 <= i < |d.items| => d.items[i].text) == sorted;
  }

  lemma NodeTold(n: Node, number: Number)
    ensures TellsNode(NodeDoc(FactsOf(n), number), n, number)
  {
    var values := NodeValues(FactsOf(n), number);
    NodeKeysAscend();
    SortedNamesIn(n.capabilities);
    UnderKey(NODE_KEYS, values, 0);
    UnderKey(NODE_KEYS, values, 1);
    UnderKey(NODE_KEYS, values, 2);
    UnderKey(NODE_KEYS, values, 3);
    UnderKey(NODE_KEYS, values, 4);
    UnderKey(NODE_KEYS, values, 5);
    UnderKey(NODE_KEYS, values, 6);
    UnderKey(NODE_KEYS, values, 7);
    UnderKey(NODE_KEYS, values, 8);
  }

  lemma WorkloadUnder(s: Fleet.State, number: Number, i: nat)
    requires i < |WORKLOAD_KEYS|
    ensures Under(WorkloadDoc(s, number), WORKLOAD_KEYS[i], WorkloadDocAt(s, number, i))
  {
    WorkloadKeysAscend();
    UnderKey(WORKLOAD_KEYS, WorkloadDocs(s, number), i);
  }

  lemma WordsTold(s: Fleet.State, number: Number)
    ensures var d := WorkloadDoc(s, number);
            && Under(d, "checkpoint_supported", TruthWord(s.checkpoint)) && Under(d, "pinned", TruthWord(s.pinned.Some?))
            && Under(d, "deadline_seconds", NumberWord(s.story.deadline, number))
  {
    WorkloadUnder(s, number, 0);
    WorkloadUnder(s, number, 1);
    WorkloadUnder(s, number, 6);
  }

  lemma EstimatesTold(s: Fleet.State, number: Number)
    ensures var d := WorkloadDoc(s, number);
            && Under(d, "estimated_ram_gib", Word(number(s.ram))) && Under(d, "estimated_vram_gib", Word(number(s.vram)))
            && Under(d, "estimated_duration_seconds", Word(number(s.story.duration)))
  {
    WorkloadUnder(s, number, 3);
    WorkloadUnder(s, number, 4);
    WorkloadUnder(s, number, 5);
  }

  lemma CapabilitiesTold(s: Fleet.State, number: Number, i: nat, names: seq<string>)
    requires i < |WORKLOAD_KEYS| && WorkloadDocAt(s, number, i) == Listed(FleetText.Names(names))
    ensures NamesUnder(WorkloadDoc(s, number), WORKLOAD_KEYS[i], names)
  {
    SortedNamesIn(names);
    WorkloadUnder(s, number, i);
  }

  lemma PreferredTold(s: Fleet.State, number: Number)
    ensures NamesUnder(WorkloadDoc(s, number), "preferred_capabilities", s.preferred)
  {
    CapabilitiesTold(s, number, 7, s.preferred);
  }

  lemma RequiredTold(s: Fleet.State, number: Number)
    ensures NamesUnder(WorkloadDoc(s, number), "required_capabilities", s.required)
  {
    CapabilitiesTold(s, number, 8, s.required);
  }

  lemma StoryTold(s: Fleet.State, number: Number)
    ensures var d := WorkloadDoc(s, number);
            && Under(d, "description", Text(s.story.description)) && Under(d, "type", Text(s.story.kind))
            && Under(d, "state_locality_hint", Text(s.story.locality))
  {
    WorkloadUnder(s, number, 2);
    WorkloadUnder(s, number, 9);
    WorkloadUnder(s, number, 10);
  }

  lemma WorkloadTold(s: Fleet.State, number: Number)
    ensures TellsWorkload(WorkloadDoc(s, number), s, number)
  {
    WordsTold(s, number);
    EstimatesTold(s, number);
    PreferredTold(s, number);
    RequiredTold(s, number);
    StoryTold(s, number);
  }

  lemma WithoutImage<T, U>(f: T -> U, a: seq<T>, i: nat, b: seq<U>)
    requires i < |a| && b != [] && f(a[i]) == b[0] && multiset(b) == multiset(Map(f, a))
    ensures multiset(b[1..]) == multiset(Map(f, a[..i] + a[i + 1..]))
  {
    assert Map(f, a) == Map(f, a[..i]) + [f(a[i])] + Map(f, a[i + 1..]);
    assert Map(f, a[..i] + a[i + 1..]) == Map(f, a[..i]) + Map(f, a[i + 1..]);
    assert b == [b[0]] + b[1..];
    assert multiset(b) == multiset{b[0]} + multiset(b[1..]);
    var before, after := multiset(Map(f, a[..i])), multiset(Map(f, a[i + 1..]));
    assert multiset(Map(f, a)) == before + multiset{f(a[i])} + after;
    assert multiset(Map(f, a[..i] + a[i + 1..])) == before + after;
    assert multiset(b[1..]) == multiset(b) - multiset{b[0]};
  }

  /** A rearrangement of images is the image of a rearrangement. */
  lemma {:induction false} Lifted<T, U>(f: T -> U, a: seq<T>, b: seq<U>) returns (c: seq<T>)
    requires multiset(b) == multiset(Map(f, a))
    ensures multiset(c) == multiset(a) && Map(f, c) == b
    decreases |b|
  {
    assert |b| == |multiset(b)| == |multiset(Map(f, a))| == |a|;
    if b == [] {
      c := [];
    } else {
      assert b[0] in multiset(Map(f, a));
      var i :| 0 <= i < |a| && Map(f, a)[i] == b[0];
      WithoutImage(f, a, i, b);
      var more := Lifted(f, a[..i] + a[i + 1..], b[1..]);
      c := [a[i]] + more;
      assert a == a[..i] + [a[i]] + a[i + 1..];
    }
  }

  ghost predicate TellsNodes(docs: seq<Doc>, nodes: seq<Node>, number: Number) {
    |docs| == |nodes| && forall i :: 0 <= i < |docs| ==> TellsNode(docs[i], nodes[i], number)
  }

  /**
   The text is one JSON object with nothing behind it. Reading it gives the source, every demand of the
   workload under its key, and one object for each node, in some order, with every fact under its key.
   */
  lemma ModelStateReads(s: Fleet.State, number: Number) returns (d: Doc, fleet: seq<Doc>, workload: Doc, nodes: seq<Node>)
    requires PrintsWords(number)
    ensures ReadDoc(AsModelState(s, number)) == Some((d, []))
    ensures d.Record? && |d.members| == 3
    ensures Under(d, "source", Text(s.story.source)) && Under(d, "workload", workload) && Under(d, "fleet", List(fleet))
    ensures TellsWorkload(workload, s, number)
    ensures multiset(nodes) == multiset(s.nodes) && TellsNodes(fleet, nodes, number)
  {
    d, fleet, workload := StateDoc(s, number), NodeDocs(s, number), WorkloadDoc(s, number);
    StateShown(s, number);
    StateWordy(s, number);
    DocRead(Bridge, d, []);
    assert AsModelState(s, number) + [] == AsModelState(s, number);
    var values := StateDocs(s, number);
    StateKeysAscend();
    UnderKey(STATE_KEYS, values, 0);
    UnderKey(STATE_KEYS, values, 1);
    UnderKey(STATE_KEYS, values, 2);
    WorkloadTold(s, number);
    nodes := Lifted(FactsOf, s.nodes, FleetNodes(s, number));
    forall i | 0 <= i < |nodes| ensures TellsNode(fleet[i], nodes[i], number) {
      NodeTold(nodes[i], number);
      assert Map(FactsOf, nodes)[i] == FactsOf(nodes[i]);
    }
  }
}
