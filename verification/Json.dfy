/**
 JSON as the two writers print it and as the reader parses it: strings, integers,
 arrays and objects of RFC 8259, with its whitespace and string escapes.
 */
module Json {
  import opened Wrappers
  import opened Leases

  datatype Value =
    | Str(text: string)
    | Num(number: int)
    | Arr(items: seq<Value>)
    | Obj(members: seq<(string, Value)>)

  /** `json.dumps` escapes everything outside printable ASCII; the bridge only what section 7 requires. */
  datatype Style = Python | Bridge

  // ----- Printing --------------------------------------------------------------------------

  function HexDigit(n: nat): char
    requires n < 16
  {
    if n < 10 then ('0' as int + n) as char else ('a' as int + n - 10) as char
  }

  function HexEscape(n: nat): string
    requires n < 0x10000
  {
    ['\\', 'u', HexDigit(n / 4096), HexDigit(n / 256 % 16), HexDigit(n / 16 % 16), HexDigit(n % 16)]
  }

  /** The surrogate pair `json.dumps` writes for a code point beyond the first plane. */
  function SurrogatePair(n: nat): string
    requires 0x10000 <= n < 0x110000
  {
    HexEscape(0xD800 + (n - 0x10000) / 1024) + HexEscape(0xDC00 + (n - 0x10000) % 1024)
  }

  function EscapeChar(style: Style, c: char): string {
    var n := c as int;
    if c == '\"' then ['\\', '\"']
    else if c == '\\' then ['\\', '\\']
    else if n == 8 then ['\\', 'b']
    else if n == 12 then ['\\', 'f']
    else if n == 10 then ['\\', 'n']
    else if n == 13 then ['\\', 'r']
    else if n == 9 then ['\\', 't']
    else if n < 0x20 then HexEscape(n)
    else if style.Bridge? || n < 0x7F then [c]
    else if n < 0x10000 then HexEscape(n)
    else SurrogatePair(n)
  }

  function Escape(style: Style, s: string): string {
    if s == [] then [] else EscapeChar(style, s[0]) + Escape(style, s[1..])
  }

  function Quote(style: Style, s: string): string { ['\"'] + Escape(style, s) + ['\"'] }

  function Decimal(n: nat): (r: string)
    ensures |r| > 0 && forall i :: 0 <= i < |r| ==> IsDigit(r[i])
    ensures r[0] == '0' ==> n == 0
    ensures n == 0 ==> r == ['0']
  {
    if n < 10 then [('0' as int + n) as char] else Decimal(n / 10) + [('0' as int + n % 10) as char]
  }

  function PrintInt(n: int): string {
    if n < 0 then ['-'] + Decimal(-n) else Decimal(n)
  }

  function Print(style: Style, v: Value): string
    decreases v, 1
  {
    match v
    case Str(s) => Quote(style, s)
    case Num(n) => PrintInt(n)
    case Arr(items) => ['['] + PrintItems(style, items) + [']']
    case Obj(members) => ['{'] + PrintMembers(style, members) + ['}']
  }

  function PrintItems(style: Style, items: seq<Value>): string
    decreases items, 0
  {
    if items == [] then []
    else if |items| == 1 then Print(style, items[0])
    else Print(style, items[0]) + [','] + PrintItems(style, items[1..])
  }

  function PrintMember(style: Style, member: (string, Value)): string
    decreases member, 2
  {
    Quote(style, member.0) + [':'] + Print(style, member.1)
  }

  function PrintMembers(style: Style, members: seq<(string, Value)>): string
    decreases members, 0
  {
    if members == [] then []
    else if |members| == 1 then PrintMember(style, members[0])
    else PrintMember(style, members[0]) + [','] + PrintMembers(style, members[1..])
  }

  // ----- Parsing ---------------------------------------------------------------------------

  predicate IsSpaceJson(c: char) { c == ' ' || c == '\t' || c == '\n' || c == '\r' }

  function SkipSpace(s: string): (r: string)
    ensures |r| <= |s|
    ensures s == [] || !IsSpaceJson(s[0]) ==> r == s
  {
    if s != [] && IsSpaceJson(s[0]) then SkipSpace(s[1..]) else s
  }

  function HexValue(c: char): Option<nat> {
    if '0' <= c <= '9' then Some(c as int - '0' as int)
    else if 'a' <= c <= 'f' then Some(c as int - 'a' as int + 10)
    else if 'A' <= c <= 'F' then Some(c as int - 'A' as int + 10)
    else None
  }

  /** Four hexadecimal digits. */
  function ParseHex(s: string): (r: Option<nat>)
    ensures r.Some? ==> |s| >= 4 && r.value < 0x10000
  {
    if |s| < 4 then None
    else
      var a, b, c, d := HexValue(s[0]), HexValue(s[1]), HexValue(s[2]), HexValue(s[3]);
      if a.None? || b.None? || c.None? || d.None? then None
      else Some(a.value * 4096 + b.value * 256 + c.value * 16 + d.value)
  }

  function SimpleEscape(c: char): Option<char> {
    match c
    case '\"' => Some('\"')
    case '\\' => Some('\\')
    case '/' => Some('/')
    case 'b' => Some(8 as char)
    case 'f' => Some(12 as char)
    case 'n' => Some('\n')
    case 'r' => Some('\r')
    case 't' => Some('\t')
    case _ => None
  }

  /** One character inside a string literal; raw control characters and lone surrogates are refused. */
  function ParseChar(s: string): (r: Option<(char, string)>)
    ensures r.Some? ==> |r.value.1| < |s|
  {
    if s == [] || s[0] as int < 0x20 then None
    else if s[0] != '\\' then Some((s[0], s[1..]))
    else if |s| < 2 then None
    else if s[1] == 'u' then
      var n := ParseHex(s[2..]);
      if n.None? then None
      else if n.value < 0xD800 || 0xE000 <= n.value then Some((n.value as char, s[6..]))
      else if 0xD800 <= n.value < 0xDC00 && |s| >= 8 && s[6] == '\\' && s[7] == 'u' then
        var m := ParseHex(s[8..]);
        if m.Some? && 0xDC00 <= m.value < 0xE000
        then Some(((0x10000 + (n.value - 0xD800) * 1024 + (m.value - 0xDC00)) as char, s[12..]))
        else None
      else None
    else
      var c := SimpleEscape(s[1]);
      if c.None? then None else Some((c.value, s[2..]))
  }

  /** What follows an opening quote, up to and including the closing one. */
  function ParseText(s: string): (r: Option<(string, string)>)
    ensures r.Some? ==> |r.value.1| < |s|
    decreases |s|
  {
    if s == [] then None
    else if s[0] == '\"' then Some(([], s[1..]))
    else
      var first := ParseChar(s);
      if first.None? then None
      else
        var rest := ParseText(first.value.1);
        if rest.None? then None else Some(([first.value.0] + rest.value.0, rest.value.1))
  }

  /** The digits at the front, read as a decimal number continuing `acc`. */
  function ParseDigits(s: string, acc: nat): (r: (nat, string))
    ensures |r.1| <= |s|
    ensures s != [] && IsDigit(s[0]) ==> |r.1| < |s|
  {
    if s != [] && IsDigit(s[0]) then ParseDigits(s[1..], acc * 10 + (s[0] as int - '0' as int)) else (acc, s)
  }

  /** An integer; a fraction or exponent is not accepted here. */
  function ParseNat(s: string): (r: Option<(nat, string)>)
    ensures r.Some? ==> |r.value.1| < |s|
  {
    if s == [] || !IsDigit(s[0]) then None
    else
      var r := if s[0] == '0' then (0, s[1..]) else ParseDigits(s, 0);
      if r.1 != [] && r.1[0] in {'.', 'e', 'E'} then None else Some(r)
  }

  function Negated(n: nat): int { 0 - (n as int) }

  function ParseValue(s: string): (r: Option<(Value, string)>)
    ensures r.Some? ==> |r.value.1| < |s|
    decreases |s|, 1
  {
    if s == [] then None
    else if s[0] == '\"' then
      var t := ParseText(s[1..]);
      if t.None? then None else Some((Str(t.value.0), t.value.1))
    else if s[0] == '[' then
      var inside := SkipSpace(s[1..]);
      if inside != [] && inside[0] == ']' then Some((Arr([]), inside[1..]))
      else
        var items := ParseItems(inside);
        if items.None? then None else Some((Arr(items.value.0), items.value.1))
    else if s[0] == '{' then
      var inside := SkipSpace(s[1..]);
      if inside != [] && inside[0] == '}' then Some((Obj([]), inside[1..]))
      else
        var members := ParseMembers(inside);
        if members.None? then None else Some((Obj(members.value.0), members.value.1))
    else if s[0] == '-' then
      var n := ParseNat(s[1..]);
      if n.None? then None else Some((Num(Negated(n.value.0)), n.value.1))
    else
      var n := ParseNat(s);
      if n.None? then None else Some((Num(n.value.0), n.value.1))
  }

  /** One or more values up to the closing bracket. */
  function ParseItems(s: string): (r: Option<(seq<Value>, string)>)
    ensures r.Some? ==> |r.value.1| < |s|
    decreases |s|, 2
  {
    var first := ParseValue(s);
    if first.None? then None
    else
      var after := SkipSpace(first.value.1);
      if after == [] then None
      else if after[0] == ']' then Some(([first.value.0], after[1..]))
      else if after[0] != ',' then None
      else
        var rest := ParseItems(SkipSpace(after[1..]));
        if rest.None? then None else Some(([first.value.0] + rest.value.0, rest.value.1))
  }

  function ParseMember(s: string): (r: Option<((string, Value), string)>)
    ensures r.Some? ==> |r.value.1| < |s|
    decreases |s|, 2
  {
    if s == [] || s[0] != '\"' then None
    else
      var key := ParseText(s[1..]);
      if key.None? then None
      else
        var colon := SkipSpace(key.value.1);
        if colon == [] || colon[0] != ':' then None
        else
          var value := ParseValue(SkipSpace(colon[1..]));
          if value.None? then None else Some(((key.value.0, value.value.0), value.value.1))
  }

  function ParseMembers(s: string): (r: Option<(seq<(string, Value)>, string)>)
    ensures r.Some? ==> |r.value.1| < |s|
    decreases |s|, 3
  {
    var first := ParseMember(s);
    if first.None? then None
    else
      var after := SkipSpace(first.value.1);
      if after == [] then None
      else if after[0] == '}' then Some(([first.value.0], after[1..]))
      else if after[0] != ',' then None
      else
        var rest := ParseMembers(SkipSpace(after[1..]));
        if rest.None? then None else Some(([first.value.0] + rest.value.0, rest.value.1))
  }

  /** `json.loads`: one value, nothing after it but whitespace. */
  function Loads(s: string): Option<Value> {
    var v := ParseValue(SkipSpace(s));
    if v.None? || SkipSpace(v.value.1) != [] then None else Some(v.value.0)
  }

  // ----- Printing and parsing are inverse ----------------------------------------------------

  lemma HexDigitValue(n: nat)
    requires n < 16
    ensures HexValue(HexDigit(n)) == Some(n)
  {
  }

  lemma FourDigits(n: nat)
    requires n < 0x10000
    ensures n == n / 4096 * 4096 + n / 256 % 16 * 256 + n / 16 % 16 * 16 + n % 16
  {
    assert n == n / 16 * 16 + n % 16;
    assert n / 16 == n / 256 * 16 + n / 16 % 16;
    assert n / 256 == n / 4096 * 16 + n / 256 % 16;
  }

  lemma HexRoundTrip(n: nat, rest: string)
    requires n < 0x10000
    ensures |HexEscape(n)| == 6 && ParseHex((HexEscape(n) + rest)[2..]) == Some(n)
  {
    var s := (HexEscape(n) + rest)[2..];
    var a, b, c, d := n / 4096, n / 256 % 16, n / 16 % 16, n % 16;
    assert s[0] == HexDigit(a) && s[1] == HexDigit(b) && s[2] == HexDigit(c) && s[3] == HexDigit(d);
    HexDigitValue(a);
    HexDigitValue(b);
    HexDigitValue(c);
    HexDigitValue(d);
    FourDigits(n);
  }

  lemma UnescapeHex(n: nat, rest: string)
    requires n < 0xD800 || 0xE000 <= n < 0x10000
    ensures ParseChar(HexEscape(n) + rest) == Some((n as char, rest))
  {
    HexRoundTrip(n, rest);
    assert (HexEscape(n) + rest)[6..] == rest;
  }

  lemma PairAt(high: nat, low: nat, rest: string)
    requires high < 0x10000 && low < 0x10000
    ensures var s := HexEscape(high) + HexEscape(low) + rest;
            s[0] == '\\' && s[1] == 'u' && s[6] == '\\' && s[7] == 'u' && s[12..] == rest &&
            ParseHex(s[2..]) == Some(high) && ParseHex(s[8..]) == Some(low)
  {
    var tail := HexEscape(low) + rest;
    var s := HexEscape(high) + HexEscape(low) + rest;
    assert s == HexEscape(high) + tail;
    HexRoundTrip(high, tail);
    HexRoundTrip(low, rest);
    assert s[8..] == tail[2..];
  }

  lemma JoinPair(s: string, high: nat, low: nat)
    requires |s| >= 12 && s[0] == '\\' && s[1] == 'u' && s[6] == '\\' && s[7] == 'u'
    requires ParseHex(s[2..]) == Some(high) && ParseHex(s[8..]) == Some(low)
    requires 0xD800 <= high < 0xDC00 <= low < 0xE000
    ensures ParseChar(s) == Some(((0x10000 + (high - 0xD800) * 1024 + (low - 0xDC00)) as char, s[12..]))
  {
  }

  lemma UnescapePair(n: nat, rest: string)
    requires 0x10000 <= n < 0x110000
    ensures ParseChar(SurrogatePair(n) + rest) == Some((n as char, rest))
  {
    var high, low := 0xD800 + (n - 0x10000) / 1024, 0xDC00 + (n - 0x10000) % 1024;
    PairAt(high, low, rest);
    JoinPair(SurrogatePair(n) + rest, high, low);
  }

  lemma UnescapeSimple(mark: char, c: char, rest: string)
    requires SimpleEscape(mark) == Some(c) && mark != 'u'
    ensures ParseChar(['\\', mark] + rest) == Some((c, rest))
  {
    assert (['\\', mark] + rest)[2..] == rest;
  }

  lemma UnescapeRaw(c: char, rest: string)
    requires c as int >= 0x20 && c != '\\'
    ensures ParseChar([c] + rest) == Some((c, rest))
  {
    assert ([c] + rest)[1..] == rest;
  }

  lemma UnescapeChar(style: Style, c: char, rest: string)
    ensures ParseChar(EscapeChar(style, c) + rest) == Some((c, rest))
    ensures EscapeChar(style, c) != [] && EscapeChar(style, c)[0] != '\"'
  {
    var n := c as int;
    var e := EscapeChar(style, c);
    if e == [c] {
      UnescapeRaw(c, rest);
    } else if n >= 0x10000 {
      UnescapePair(n, rest);
    } else if |e| == 6 {
      UnescapeHex(n, rest);
    } else {
      UnescapeSimple(e[1], c, rest);
    }
  }

  lemma ParseTextCons(s: string, c: char, tail: string, text: string, rest: string)
    requires s != [] && s[0] != '\"' && ParseChar(s) == Some((c, tail)) && ParseText(tail) == Some((text, rest))
    ensures ParseText(s) == Some(([c] + text, rest))
  {
  }

  /** Either writer's escaping is undone by parsing the string. */
  lemma {:induction false} UnescapeText(style: Style, text: string, rest: string)
    ensures ParseText(Escape(style, text) + ['\"'] + rest) == Some((text, rest))
  {
    var s := Escape(style, text) + ['\"'] + rest;
    if text == [] {
      assert s == ['\"'] + rest;
    } else {
      var first, tail := EscapeChar(style, text[0]), Escape(style, text[1..]) + ['\"'] + rest;
      UnescapeChar(style, text[0], tail);
      assert s == first + tail;
      UnescapeText(style, text[1..], rest);
      ParseTextCons(s, text[0], tail, text[1..], rest);
      assert text == [text[0]] + text[1..];
    }
  }

  lemma UnquoteText(style: Style, text: string, rest: string)
    ensures (Quote(style, text) + rest)[0] == '\"'
    ensures ParseText((Quote(style, text) + rest)[1..]) == Some((text, rest))
  {
    assert (Quote(style, text) + rest)[1..] == Escape(style, text) + ['\"'] + rest;
    UnescapeText(style, text, rest);
  }

  function PowerFor(n: nat): nat { if n < 10 then 10 else 10 * PowerFor(n / 10) }

  lemma ParseOneDigit(d: nat, acc: nat, rest: string)
    requires d < 10
    ensures ParseDigits([('0' as int + d) as char] + rest, acc) == ParseDigits(rest, acc * 10 + d)
  {
    assert ([('0' as int + d) as char] + rest)[1..] == rest;
  }

  lemma ShiftDecimal(acc: nat, p: nat, n: nat)
    ensures (acc * p + n / 10) * 10 + n % 10 == acc * (10 * p) + n
  {
    assert acc * (10 * p) == acc * p * 10;
  }

  lemma DecimalSplit(n: nat, rest: string)
    requires n >= 10
    ensures Decimal(n) + rest == Decimal(n / 10) + ([('0' as int + n % 10) as char] + rest)
  {
  }

  lemma {:induction false} DecimalOnto(n: nat, acc: nat, rest: string)
    ensures ParseDigits(Decimal(n) + rest, acc) == ParseDigits(rest, acc * PowerFor(n) + n)
  {
    if n < 10 {
      ParseOneDigit(n, acc, rest);
    } else {
      var higher := acc * PowerFor(n / 10) + n / 10;
      DecimalSplit(n, rest);
      DecimalOnto(n / 10, acc, [('0' as int + n % 10) as char] + rest);
      ParseOneDigit(n % 10, higher, rest);
      ShiftDecimal(acc, PowerFor(n / 10), n);
    }
  }

  /** What may follow a value inside a document. */
  predicate Delimits(rest: string) { rest == [] || rest[0] in {',', ']', '}'} }

  lemma NatRoundTrip(n: nat, rest: string)
    requires Delimits(rest)
    ensures ParseNat(Decimal(n) + rest) == Some((n, rest))
  {
    var s := Decimal(n) + rest;
    assert s[0] == Decimal(n)[0];
    if n == 0 {
      assert s[1..] == rest;
    } else {
      DecimalOnto(n, 0, rest);
    }
  }

  /** A printed value starts with a character that neither space skipping nor a bracket test takes. */
  predicate StartsValue(s: string) { s != [] && !IsSpaceJson(s[0]) && s[0] !in {']', '}', ','} }

  lemma PrintStartsValue(style: Style, v: Value)
    ensures StartsValue(Print(style, v))
  {
    if v.Num? {
      var d := Decimal(if v.number < 0 then -v.number else v.number);
      assert IsDigit(d[0]);
    }
  }

  lemma DigitStartsNumber(s: string, n: nat, rest: string)
    requires s != [] && IsDigit(s[0]) && ParseNat(s) == Some((n, rest))
    ensures ParseValue(s) == Some((Num(n), rest))
  {
    assert s[0] != '\"' && s[0] != '[' && s[0] != '{' && s[0] != '-';
  }

  lemma MinusStartsNumber(s: string, n: nat, rest: string)
    requires ParseNat(s) == Some((n, rest))
    ensures ParseValue(['-'] + s) == Some((Num(Negated(n)), rest))
  {
    assert (['-'] + s)[1..] == s;
  }

  lemma NumberRoundTrip(n: int, rest: string)
    requires Delimits(rest)
    ensures ParseValue(PrintInt(n) + rest) == Some((Num(n), rest))
  {
    if n < 0 {
      NatRoundTrip(-n, rest);
      MinusStartsNumber(Decimal(-n) + rest, -n, rest);
      assert PrintInt(n) + rest == ['-'] + (Decimal(-n) + rest);
    } else {
      NatRoundTrip(n, rest);
      assert (Decimal(n) + rest)[0] == Decimal(n)[0];
      DigitStartsNumber(Decimal(n) + rest, n, rest);
    }
  }

  lemma BracketText(open: char, inner: string, close: char, rest: string)
    ensures ([open] + inner + [close] + rest)[0] == open
    ensures ([open] + inner + [close] + rest)[1..] == inner + [close] + rest
  {
  }

  lemma ArrayValue(s: string, items: seq<Value>, rest: string)
    requires s != [] && s[0] == '[' && StartsValue(s[1..]) && ParseItems(s[1..]) == Some((items, rest))
    ensures ParseValue(s) == Some((Arr(items), rest))
  {
  }

  lemma ObjectValue(s: string, members: seq<(string, Value)>, rest: string)
    requires s != [] && s[0] == '{' && StartsValue(s[1..]) && ParseMembers(s[1..]) == Some((members, rest))
    ensures ParseValue(s) == Some((Obj(members), rest))
  {
  }

  lemma EmptyText(style: Style, rest: string)
    ensures ParseValue(Print(style, Arr([])) + rest) == Some((Arr([]), rest))
    ensures ParseValue(Print(style, Obj([])) + rest) == Some((Obj([]), rest))
  {
    assert (['[', ']'] + rest)[1..][1..] == rest && (['{', '}'] + rest)[1..][1..] == rest;
    assert Print(style, Arr([])) == ['[', ']'] && Print(style, Obj([])) == ['{', '}'];
  }

  lemma TextRoundTrip(style: Style, text: string, rest: string)
    ensures ParseValue(Quote(style, text) + rest) == Some((Str(text), rest))
  {
    UnquoteText(style, text, rest);
  }

  lemma {:induction false} ValueRoundTrip(style: Style, v: Value, rest: string)
    requires Delimits(rest)
    ensures ParseValue(Print(style, v) + rest) == Some((v, rest))
    decreases v, 1
  {
    match v
    case Str(text) => TextRoundTrip(style, text, rest);
    case Num(n) => NumberRoundTrip(n, rest);
    case Arr(items) =>
      if items == [] {
        EmptyText(style, rest);
      } else {
        ItemsRoundTrip(style, items, rest);
        BracketText('[', PrintItems(style, items), ']', rest);
        ArrayValue(['['] + PrintItems(style, items) + [']'] + rest, items, rest);
      }
    case Obj(members) =>
      if members == [] {
        EmptyText(style, rest);
      } else {
        MembersStart(style, members, rest);
        MembersRoundTrip(style, members, rest);
        BracketText('{', PrintMembers(style, members), '}', rest);
        ObjectValue(['{'] + PrintMembers(style, members) + ['}'] + rest, members, rest);
      }
  }

  lemma LastItem(s: string, v: Value, rest: string)
    requires ParseValue(s) == Some((v, [']'] + rest))
    ensures ParseItems(s) == Some(([v], rest))
  {
    assert ([']'] + rest)[1..] == rest;
  }

  lemma NextItem(s: string, v: Value, tail: string, vs: seq<Value>, rest: string)
    requires ParseValue(s) == Some((v, [','] + tail)) && StartsValue(tail)
    requires ParseItems(tail) == Some((vs, rest))
    ensures ParseItems(s) == Some(([v] + vs, rest))
  {
    assert ([','] + tail)[1..] == tail;
  }

  lemma ItemsText(style: Style, items: seq<Value>, rest: string)
    requires items != []
    ensures PrintItems(style, items) + [']'] + rest ==
            Print(style, items[0]) +
            if |items| == 1 then [']'] + rest else [','] + (PrintItems(style, items[1..]) + [']'] + rest)
  {
  }

  lemma {:induction false} ItemsRoundTrip(style: Style, items: seq<Value>, rest: string)
    requires items != []
    ensures StartsValue(PrintItems(style, items) + [']'] + rest)
    ensures ParseItems(PrintItems(style, items) + [']'] + rest) == Some((items, rest))
    decreases items, 0
  {
    HeadAndTail(items);
    var s := PrintItems(style, items) + [']'] + rest;
    ItemsText(style, items, rest);
    PrintStartsValue(style, items[0]);
    if |items| == 1 {
      ValueRoundTrip(style, items[0], [']'] + rest);
      LastItem(s, items[0], rest);
      assert items == [items[0]];
    } else {
      var tail := PrintItems(style, items[1..]) + [']'] + rest;
      ValueRoundTrip(style, items[0], [','] + tail);
      ItemsRoundTrip(style, items[1..], rest);
      NextItem(s, items[0], tail, items[1..], rest);
    }
  }

  lemma ReadMember(s: string, key: string, tail: string, v: Value, rest: string)
    requires s != [] && s[0] == '\"' && ParseText(s[1..]) == Some((key, [':'] + tail))
    requires StartsValue(tail) && ParseValue(tail) == Some((v, rest))
    ensures ParseMember(s) == Some(((key, v), rest))
  {
    assert ([':'] + tail)[1..] == tail;
  }

  lemma MemberText(style: Style, member: (string, Value), rest: string)
    ensures PrintMember(style, member) + rest == Quote(style, member.0) + ([':'] + (Print(style, member.1) + rest))
  {
  }

  lemma HeadAndTail<T>(s: seq<T>)
    requires s != []
    ensures s == [s[0]] + s[1..]
  {
  }

  lemma {:induction false} MemberRoundTrip(style: Style, member: (string, Value), rest: string)
    requires Delimits(rest)
    ensures ParseMember(PrintMember(style, member) + rest) == Some((member, rest))
    decreases member, 2
  {
    var tail := Print(style, member.1) + rest;
    var s := PrintMember(style, member) + rest;
    MemberText(style, member, rest);
    UnquoteText(style, member.0, [':'] + tail);
    PrintStartsValue(style, member.1);
    ValueRoundTrip(style, member.1, rest);
    ReadMember(s, member.0, tail, member.1, rest);
  }

  lemma MembersStart(style: Style, members: seq<(string, Value)>, rest: string)
    requires members != []
    ensures StartsValue(PrintMembers(style, members) + ['}'] + rest)
  {
    MembersText(style, members, rest);
    assert PrintMember(style, members[0])[0] == '\"';
  }

  lemma LastMember(s: string, m: (string, Value), rest: string)
    requires ParseMember(s) == Some((m, ['}'] + rest))
    ensures ParseMembers(s) == Some(([m], rest))
  {
    assert (['}'] + rest)[1..] == rest;
  }

  lemma NextMember(s: string, m: (string, Value), tail: string, ms: seq<(string, Value)>, rest: string)
    requires ParseMember(s) == Some((m, [','] + tail)) && StartsValue(tail)
    requires ParseMembers(tail) == Some((ms, rest))
    ensures ParseMembers(s) == Some(([m] + ms, rest))
  {
    assert ([','] + tail)[1..] == tail;
  }

  lemma MembersText(style: Style, members: seq<(string, Value)>, rest: string)
    requires members != []
    ensures PrintMembers(style, members) + ['}'] + rest ==
            PrintMember(style, members[0]) +
            if |members| == 1 then ['}'] + rest else [','] + (PrintMembers(style, members[1..]) + ['}'] + rest)
  {
  }

  lemma {:induction false} MembersRoundTrip(style: Style, members: seq<(string, Value)>, rest: string)
    requires members != []
    ensures ParseMembers(PrintMembers(style, members) + ['}'] + rest) == Some((members, rest))
    decreases members, 0
  {
    HeadAndTail(members);
    var s := PrintMembers(style, members) + ['}'] + rest;
    MembersText(style, members, rest);
    if |members| == 1 {
      MemberRoundTrip(style, members[0], ['}'] + rest);
      LastMember(s, members[0], rest);
      assert members == [members[0]];
    } else {
      var tail := PrintMembers(style, members[1..]) + ['}'] + rest;
      MemberRoundTrip(style, members[0], [','] + tail);
      MembersRoundTrip(style, members[1..], rest);
      MembersStart(style, members[1..], rest);
      NextMember(s, members[0], tail, members[1..], rest);
    }
  }

  /** Whatever either writer prints, the reader's parser returns. */
  lemma LoadsPrint(style: Style, v: Value)
    ensures Loads(Print(style, v)) == Some(v)
  {
    PrintStartsValue(style, v);
    ValueRoundTrip(style, v, []);
    assert Print(style, v) + [] == Print(style, v);
  }
}
