/**
 The JSON strings the store writes by hand, and a reader for them that follows RFC 8259.
 Strings are byte strings: a `char` is one byte.
 */
module JsonText {
  import opened Decimals
  import opened Wrappers

  const BACKSPACE: char := 8 as char
  const FORM_FEED: char := 12 as char

  function HexDigit(d: nat): char
    requires d < 16
  {
    if d < 10 then DigitChar(d) else (d - 10 + 'a' as int) as char
  }

  function EscapeOne(c: char): string {
    if c == '\"' then "\\\""
    else if c == '\\' then "\\\\"
    else if c == BACKSPACE then "\\b"
    else if c == FORM_FEED then "\\f"
    else if c == '\n' then "\\n"
    else if c == '\r' then "\\r"
    else if c == '\t' then "\\t"
    else if c as int < 0x20 then "\\u00" + [HexDigit(c as int / 16), HexDigit(c as int % 16)]
    else [c]
  }

  function Escape(text: string): string {
    if text == "" then "" else EscapeOne(text[0]) + Escape(text[1..])
  }

  lemma EscapeNext(escaped: string, text: string, i: nat)
    requires i < |text|
    ensures escaped + Escape(text[i..]) == escaped + EscapeOne(text[i]) + Escape(text[i + 1..])
  {
    assert text[i..][1..] == text[i + 1..];
  }

  method JsonEscape(text: string) returns (escaped: string)
    ensures escaped == Escape(text)
  {
    escaped := "";
    for i := 0 to |text|
      invariant escaped + Escape(text[i..]) == Escape(text)
    {
      EscapeNext(escaped, text, i);
      escaped := escaped + EscapeOne(text[i]);
    }
  }

  function JsonString(text: string): string {
    "\"" + Escape(text) + "\""
  }

  function StringMember(key: string, value: string): string {
    "\"" + key + "\":" + JsonString(value)
  }

  function IntMember(key: string, value: int): string {
    "\"" + key + "\":" + IntString(value)
  }

  function BuildMachineExtraJson(source: string, bridgeVersion: string): string {
    "{" + StringMember("bridge_source", source) + "," + StringMember("bridge_version", bridgeVersion)
    + "}"
  }

  function BuildHelloExtraJson(hostname: string, bridgeVersion: string, pid: int,
                               sampleIntervalMs: int, capabilitiesJson: string): string {
    "{" + StringMember("hostname", hostname) + "," + StringMember("bridge_version", bridgeVersion)
    + "," + IntMember("pid", pid) + "," + IntMember("sample_interval_ms", sampleIntervalMs)
    + (if capabilitiesJson == "" then "" else ",\"capabilities\":" + capabilitiesJson)
    + "}"
  }

  function BuildCatalogExtraJson(sensorCount: nat): string {
    "{" + IntMember("sensor_count", sensorCount) + "}"
  }

  function BuildSampleExtraJson(sampleCount: nat): string {
    "{" + IntMember("sample_count", sampleCount) + "}"
  }

  function BuildHeartbeatExtraJson(uptimeSeconds: int, catalogCount: int): string {
    "{" + IntMember("uptime_s", uptimeSeconds) + "," + IntMember("catalog_count", catalogCount) + "}"
  }

  // ---- Reading string literals: section 7 of RFC 8259 ----

  function HexValue(c: char): Option<nat> {
    if '0' <= c <= '9' then Some(c as int - '0' as int)
    else if 'a' <= c <= 'f' then Some(c as int - 'a' as int + 10)
    else if 'A' <= c <= 'F' then Some(c as int - 'A' as int + 10)
    else None
  }

  /** The code unit written by the first four characters, if they are hexadecimal digits. */
  function CodeUnit(s: string): Option<nat> {
    if |s| < 4 || HexValue(s[0]).None? || HexValue(s[1]).None? || HexValue(s[2]).None?
       || HexValue(s[3]).None?
    then None
    else Some(HexValue(s[0]).value * 0x1000 + HexValue(s[1]).value * 0x100
              + HexValue(s[2]).value * 0x10 + HexValue(s[3]).value)
  }

  function Utf8(codePoint: nat): string
    requires codePoint < 0x11_0000
  {
    if codePoint < 0x80 then [codePoint as char]
    else if codePoint < 0x800 then
      [(0xC0 + codePoint / 0x40) as char, (0x80 + codePoint % 0x40) as char]
    else if codePoint < 0x1_0000 then
      [(0xE0 + codePoint / 0x1000) as char, (0x80 + codePoint / 0x40 % 0x40) as char,
       (0x80 + codePoint % 0x40) as char]
    else
      [(0xF0 + codePoint / 0x4_0000) as char, (0x80 + codePoint / 0x1000 % 0x40) as char,
       (0x80 + codePoint / 0x40 % 0x40) as char, (0x80 + codePoint % 0x40) as char]
  }

  /** The bytes denoted by a `\u` escape whose digits start `s`, and the number of characters after
      `\u` that it takes; surrogates come in pairs. */
  function ReadUnicode(s: string): Option<(string, nat)> {
    match CodeUnit(s)
    case None => None
    case Some(high) =>
      if high < 0xD800 || 0xE000 <= high < 0x1_0000 then Some((Utf8(high), 4))
      else if high < 0xDC00 && |s| >= 6 && s[4] == '\\' && s[5] == 'u' then
        match CodeUnit(s[6..])
        case None => None
        case Some(low) =>
          if 0xDC00 <= low < 0xE000
          then Some((Utf8(0x1_0000 + (high - 0xD800) * 0x400 + (low - 0xDC00)), 10))
          else None
      else None
  }

  /** The first character of a literal: the bytes it denotes and its length, if it is legal. */
  function ReadCharacter(s: string): (r: Option<(string, nat)>)
    requires s != ""
    ensures r.Some? ==> 0 < r.value.1 <= |s|
  {
    if s[0] as int < 0x20 || s[0] == '\"' then None
    else if s[0] != '\\' then Some(([s[0]], 1))
    else if |s| == 1 then None
    else
      match s[1]
      case '\"' => Some(("\"", 2))
      case '\\' => Some(("\\", 2))
      case '/' => Some(("/", 2))
      case 'b' => Some(([BACKSPACE], 2))
      case 'f' => Some(([FORM_FEED], 2))
      case 'n' => Some(("\n", 2))
      case 'r' => Some(("\r", 2))
      case 't' => Some(("\t", 2))
      case 'u' =>
        var unicode := ReadUnicode(s[2..]);
        if unicode.Some? && unicode.value.1 + 2 <= |s|
        then Some((unicode.value.0, unicode.value.1 + 2)) else None
      case _ => None
  }

  /** A literal whose opening quote has been read: its value, and what follows the closing quote. */
  function ReadLiteral(s: string): Option<(string, string)>
    decreases |s|
  {
    if s == "" then None
    else if s[0] == '\"' then Some(("", s[1..]))
    else
      match ReadCharacter(s)
      case None => None
      case Some((bytes, length)) =>
        match ReadLiteral(s[length..])
        case None => None
        case Some((rest, after)) => Some((bytes + rest, after))
  }

  lemma ReadEscapeOne(c: char, after: string)
    ensures var s := EscapeOne(c) + after;
            s[0] != '\"' && ReadCharacter(s) == Some(([c], |EscapeOne(c)|))
  {
    var s := EscapeOne(c) + after;
    if |EscapeOne(c)| == 6 {
      var code := c as int;
      assert s[2..] == ['0', '0', HexDigit(code / 16), HexDigit(code % 16)] + after;
      assert CodeUnit(s[2..]) == Some(code);
    }
  }

  /** Reading undoes escaping: every byte string comes back, and the reader stops at the closing quote
      and nowhere before it. */
  lemma {:induction false} ReadEscaped(text: string, after: string)
    ensures ReadLiteral(Escape(text) + "\"" + after) == Some((text, after))
    decreases |text|
  {
    var s := Escape(text) + "\"" + after;
    if text == "" {
      assert s[1..] == after;
    } else {
      var first, tail := EscapeOne(text[0]), Escape(text[1..]) + "\"" + after;
      assert s == first + tail;
      ReadEscapeOne(text[0], tail);
      assert s[|first|..] == tail;
      ReadEscaped(text[1..], after);
      assert [text[0]] + text[1..] == text;
    }
  }

  /** An escaped string has no raw control byte. */
  lemma {:induction false} EscapedHasNoControl(text: string)
    ensures forall c :: c in Escape(text) ==> c as int >= 0x20
  {
    if text != "" {
      EscapedHasNoControl(text[1..]);
    }
  }

  // ---- Reading flat objects of strings and integers: sections 4 and 6 of RFC 8259 ----

  datatype JsonValue = Text(text: string) | Int(number: int)

  function SkipSpace(s: string): (rest: string)
    ensures |rest| <= |s|
  {
    if s != "" && s[0] in {' ', '\t', '\n', '\r'} then SkipSpace(s[1..]) else s
  }

  predicate StartsWith(s: string, c: char) {
    s != "" && s[0] == c
  }

  function ReadString(s: string): (r: Option<(string, string)>) {
    var start := SkipSpace(s);
    if StartsWith(start, '\"') then ReadLiteral(start[1..]) else None
  }

  function DigitCount(s: string): (n: nat)
    ensures n <= |s| && AllDigits(s[..n])
  {
    if s == "" || !IsDigit(s[0]) then 0 else 1 + DigitCount(s[1..])
  }

  /** Digits without a superfluous zero in front. */
  function ReadNat(s: string): Option<(int, string)> {
    var n := DigitCount(s);
    if n == 0 || (n > 1 && s[0] == '0') then None else Some((Decimal(s[..n]), s[n..]))
  }

  function ReadInt(s: string): Option<(int, string)> {
    if StartsWith(s, '-') then
      match ReadNat(s[1..])
      case None => None
      case Some((n, rest)) => Some((-n, rest))
    else ReadNat(s)
  }

  function ReadValue(s: string): Option<(JsonValue, string)> {
    var start := SkipSpace(s);
    if StartsWith(start, '\"') then
      match ReadString(start)
      case None => None
      case Some((text, rest)) => Some((Text(text), rest))
    else
      match ReadInt(start)
      case None => None
      case Some((n, rest)) => Some((Int(n), rest))
  }

  /** One `"key":value`, and what follows it. */
  function ReadMember(s: string): Option<(string, JsonValue, string)> {
    match ReadString(s)
    case None => None
    case Some((key, afterKey)) =>
      var colon := SkipSpace(afterKey);
      if !StartsWith(colon, ':') then None
      else
        match ReadValue(colon[1..])
        case None => None
        case Some((value, afterValue)) => Some((key, value, SkipSpace(afterValue)))
  }

  /** Members up to the closing brace, which must end the text. `limit` bounds their number. */
  function ReadMembers(s: string, limit: nat): Option<seq<(string, JsonValue)>>
    decreases limit
  {
    match ReadMember(s)
    case None => None
    case Some((key, value, rest)) =>
      if StartsWith(rest, '}') && SkipSpace(rest[1..]) == "" then Some([(key, value)])
      else if StartsWith(rest, ',') && limit > 0 then
        match ReadMembers(rest[1..], limit - 1)
        case None => None
        case Some(others) => Some([(key, value)] + others)
      else None
  }

  function ReadObject(s: string): Option<seq<(string, JsonValue)>> {
    var start := SkipSpace(s);
    if StartsWith(start, '{') then ReadMembers(start[1..], |s|) else None
  }

  /** Text that needs no escaping. */
  predicate IsPlain(text: string) {
    forall c :: c in text ==> 'a' <= c <= 'z' || c == '_'
  }

  lemma OnePlain(c: char)
    requires 'a' <= c <= 'z' || c == '_'
    ensures EscapeOne(c) == [c]
  {
  }

  lemma {:induction false} PlainIsUnescaped(text: string)
    requires IsPlain(text)
    ensures Escape(text) == text
  {
    if text != "" {
      assert text[0] in text;
      forall c | c in text[1..] ensures 'a' <= c <= 'z' || c == '_' {
        assert c in text;
      }
      PlainIsUnescaped(text[1..]);
      OnePlain(text[0]);
      assert text == [text[0]] + text[1..];
    }
  }

  lemma ReadJsonString(text: string, after: string)
    ensures ReadString(JsonString(text) + after) == Some((text, after))
  {
    var s := JsonString(text) + after;
    assert s[0] == '\"';
    assert s[1..] == Escape(text) + "\"" + after;
    ReadEscaped(text, after);
  }

  /** What may follow a value. */
  predicate Ends(after: string) {
    after != "" && after[0] in {',', '}'}
  }

  lemma {:induction false} CountDigits(digits: string, after: string)
    requires AllDigits(digits) && Ends(after)
    ensures DigitCount(digits + after) == |digits|
  {
    if digits == "" {
      assert digits + after == after;
    } else {
      assert (digits + after)[1..] == digits[1..] + after;
      CountDigits(digits[1..], after);
    }
  }

  lemma ReadNatString(n: nat, after: string)
    requires Ends(after)
    ensures ReadNat(NatString(n) + after) == Some((n, after))
  {
    var digits := NatString(n);
    CountDigits(digits, after);
    DecimalOfNatString(n);
    assert (digits + after)[..|digits|] == digits && (digits + after)[|digits|..] == after;
    if n > 0 {
      NoLeadingZero(n);
    }
  }

  lemma ReadIntString(n: int, after: string)
    requires Ends(after)
    ensures ReadInt(IntString(n) + after) == Some((n, after))
  {
    if n < 0 {
      assert (IntString(n) + after)[1..] == NatString(-n) + after;
      ReadNatString(-n, after);
    } else {
      assert IsDigit((NatString(n) + after)[0]);
      ReadNatString(n, after);
    }
  }

  lemma ReadTextValue(text: string, after: string)
    ensures ReadValue(JsonString(text) + after) == Some((Text(text), after))
  {
    ReadJsonString(text, after);
  }

  lemma ReadIntValue(n: int, after: string)
    requires Ends(after)
    ensures ReadValue(IntString(n) + after) == Some((Int(n), after))
  {
    var s := IntString(n) + after;
    assert s[0] == IntString(n)[0] && (s[0] == '-' || IsDigit(s[0]));
    ReadIntString(n, after);
  }

  /** A key and the written form of a value, as one member. */
  function MemberText(key: string, value: JsonValue): string {
    match value
    case Text(text) => StringMember(key, text)
    case Int(number) => IntMember(key, number)
  }

  function ValueText(value: JsonValue): string {
    match value
    case Text(text) => JsonString(text)
    case Int(number) => IntString(number)
  }

  lemma MemberParts(key: string, value: JsonValue, after: string)
    requires IsPlain(key)
    ensures MemberText(key, value) + after == JsonString(key) + (":" + (ValueText(value) + after))
  {
    PlainIsUnescaped(key);
  }

  lemma ReadKeyAndValue(text: string, key: string, tail: string, value: JsonValue, after: string)
    requires ReadString(text) == Some((key, ":" + tail)) && ReadValue(tail) == Some((value, after))
    requires SkipSpace(after) == after
    ensures ReadMember(text) == Some((key, value, after))
  {
    assert (":" + tail)[1..] == tail;
  }

  lemma ReadMemberText(key: string, value: JsonValue, after: string)
    requires IsPlain(key) && Ends(after)
    ensures ReadMember(MemberText(key, value) + after) == Some((key, value, after))
  {
    var tail := ValueText(value) + after;
    MemberParts(key, value, after);
    ReadJsonString(key, ":" + tail);
    match value {
      case Text(text) => ReadTextValue(text, after);
      case Int(number) => ReadIntValue(number, after);
    }
    ReadKeyAndValue(JsonString(key) + (":" + tail), key, tail, value, after);
  }

  // ---- Objects of several members ----

  function MembersText(members: seq<(string, JsonValue)>): string {
    if members == [] then "}"
    else
      MemberText(members[0].0, members[0].1)
      + (if |members| == 1 then "" else ",") + MembersText(members[1..])
  }

  predicate PlainKeys(members: seq<(string, JsonValue)>) {
    forall i :: 0 <= i < |members| ==> IsPlain(members[i].0)
  }

  lemma ReadLast(s: string, member: (string, JsonValue), limit: nat)
    requires ReadMember(s) == Some((member.0, member.1, "}"))
    ensures ReadMembers(s, limit) == Some([member])
  {
    assert "}"[1..] == "";
  }

  lemma ReadNext(s: string, member: (string, JsonValue), others: string, tail: seq<(string, JsonValue)>,
                 limit: nat)
    requires ReadMember(s) == Some((member.0, member.1, "," + others))
    requires ReadMembers(others, limit) == Some(tail)
    ensures ReadMembers(s, limit + 1) == Some([member] + tail)
  {
    assert ("," + others)[1..] == others;
  }

  lemma FirstMemberText(members: seq<(string, JsonValue)>)
    requires members != []
    ensures MembersText(members) == MemberText(members[0].0, members[0].1)
                                    + if |members| == 1 then "}" else "," + MembersText(members[1..])
  {
    Attached(MemberText(members[0].0, members[0].1), MembersText(members[1..]));
    assert |members| == 1 ==> members[1..] == [];
  }

  lemma Attached(first: string, others: string)
    ensures first + "" + others == first + others
    ensures first + "," + others == first + ("," + others)
  {
  }

  lemma ReadOne(member: (string, JsonValue), limit: nat)
    requires IsPlain(member.0)
    ensures ReadMembers(MemberText(member.0, member.1) + "}", limit) == Some([member])
  {
    ReadMemberText(member.0, member.1, "}");
    ReadLast(MemberText(member.0, member.1) + "}", member, limit);
  }

  lemma ReadOneMore(member: (string, JsonValue), others: string, tail: seq<(string, JsonValue)>, limit: nat)
    requires IsPlain(member.0) && ReadMembers(others, limit) == Some(tail)
    ensures ReadMembers(MemberText(member.0, member.1) + ("," + others), limit + 1) == Some([member] + tail)
  {
    ReadMemberText(member.0, member.1, "," + others);
    ReadNext(MemberText(member.0, member.1) + ("," + others), member, others, tail, limit);
  }

  predicate ReadsBack(members: seq<(string, JsonValue)>, limit: nat) {
    ReadMembers(MembersText(members), limit) == Some(members)
  }

  lemma ReadsOne(first: (string, JsonValue), limit: nat)
    requires IsPlain(first.0)
    ensures ReadsBack([first], limit)
  {
    FirstMemberText([first]);
    ReadOne(first, limit);
  }

  lemma ReadsOneMore(first: (string, JsonValue), others: seq<(string, JsonValue)>, limit: nat)
    requires IsPlain(first.0) && others != [] && ReadsBack(others, limit)
    ensures ReadsBack([first] + others, limit + 1)
  {
    NextMemberText(first, others);
    ReadOneMore(first, MembersText(others), others, limit);
  }

  /** Holds of one member, and of one more wherever it holds; so of any number. */
  lemma {:induction false} ForAllMembers(holds: (seq<(string, JsonValue)>, nat) -> bool,
                                         members: seq<(string, JsonValue)>, limit: nat)
    requires forall first: (string, JsonValue), n: nat :: IsPlain(first.0) ==> holds([first], n)
    requires forall first: (string, JsonValue), others: seq<(string, JsonValue)>, n: nat
               {:trigger holds([first] + others, n)} ::
               n > 0 && IsPlain(first.0) && others != [] && holds(others, n - 1) ==> holds([first] + others, n)
    requires members != [] && PlainKeys(members) && limit >= |members|
    ensures holds(members, limit)
    decreases |members|
  {
    var others := members[1..];
    assert members == [members[0]] + others;
    if others == [] {
      assert members == [members[0]];
    } else {
      ForAllMembers(holds, others, limit - 1);
    }
  }

  lemma MembersReadBack(members: seq<(string, JsonValue)>, limit: nat)
    requires members != [] && PlainKeys(members) && limit >= |members|
    ensures ReadsBack(members, limit)
  {
    var holds := (m: seq<(string, JsonValue)>, n: nat) => ReadsBack(m, n);
    forall first: (string, JsonValue), n: nat | IsPlain(first.0) ensures holds([first], n) {
      ReadsOne(first, n);
    }
    forall first: (string, JsonValue), others: seq<(string, JsonValue)>, n: nat {:trigger holds([first] + others, n)} |
      n > 0 && IsPlain(first.0) && others != [] && holds(others, n - 1)
      ensures holds([first] + others, n)
    {
      ReadsOneMore(first, others, n - 1);
    }
    ForAllMembers(holds, members, limit);
  }

  lemma {:induction false} LongEnough(members: seq<(string, JsonValue)>)
    ensures |MembersText(members)| > |members|
  {
    if members != [] {
      LongEnough(members[1..]);
    }
  }

  /** An object of any members with plain keys reads back as those members. */
  lemma ObjectReadsBack(members: seq<(string, JsonValue)>)
    requires members != [] && PlainKeys(members)
    ensures ReadObject("{" + MembersText(members)) == Some(members)
  {
    LongEnough(members);
    var s := "{" + MembersText(members);
    assert s[1..] == MembersText(members);
    MembersReadBack(members, |s|);
  }

  lemma OneMember(a: (string, JsonValue))
    ensures "{" + MembersText([a]) == "{" + MemberText(a.0, a.1) + "}"
  {
    FirstMemberText([a]);
  }

  lemma TwoBraces(a: string, b: string)
    ensures "{" + (a + ("," + (b + "}"))) == "{" + a + "," + b + "}"
  {
  }

  lemma TwoMembers(a: (string, JsonValue), b: (string, JsonValue))
    ensures "{" + MembersText([a, b]) == "{" + MemberText(a.0, a.1) + "," + MemberText(b.0, b.1) + "}"
  {
    NextMemberText(a, [b]);
    FirstMemberText([b]);
    assert [a] + [b] == [a, b];
    TwoBraces(MemberText(a.0, a.1), MemberText(b.0, b.1));
  }

  lemma Braces(a: string, b: string, c: string, d: string)
    ensures "{" + (a + ("," + (b + ("," + (c + ("," + (d + "}")))))))
         == "{" + a + "," + b + "," + c + "," + d + "}"
  {
  }

  lemma FourMembers(a: (string, JsonValue), b: (string, JsonValue), c: (string, JsonValue), d: (string, JsonValue))
    ensures "{" + MembersText([a, b, c, d])
         == "{" + MemberText(a.0, a.1) + "," + MemberText(b.0, b.1) + "," + MemberText(c.0, c.1)
            + "," + MemberText(d.0, d.1) + "}"
  {
    NextMemberText(a, [b, c, d]);
    NextMemberText(b, [c, d]);
    NextMemberText(c, [d]);
    FirstMemberText([d]);
    assert [a] + [b, c, d] == [a, b, c, d] && [b] + [c, d] == [b, c, d] && [c] + [d] == [c, d];
    Braces(MemberText(a.0, a.1), MemberText(b.0, b.1), MemberText(c.0, c.1), MemberText(d.0, d.1));
  }

  lemma NextMemberText(first: (string, JsonValue), others: seq<(string, JsonValue)>)
    requires others != []
    ensures MembersText([first] + others) == MemberText(first.0, first.1) + ("," + MembersText(others))
  {
    FirstMemberText([first] + others);
    assert ([first] + others)[1..] == others;
  }

  lemma KeysArePlain()
    ensures IsPlain("bridge_source") && IsPlain("bridge_version") && IsPlain("hostname")
    ensures IsPlain("pid") && IsPlain("sample_interval_ms") && IsPlain("sensor_count") && IsPlain("sample_count")
    ensures IsPlain("uptime_s") && IsPlain("catalog_count")
  {
  }

  /** The machine's extra JSON reads back as exactly the source and version it was built from. */
  lemma MachineExtraJsonReadsBack(source: string, bridgeVersion: string)
    ensures ReadObject(BuildMachineExtraJson(source, bridgeVersion))
         == Some([("bridge_source", Text(source)), ("bridge_version", Text(bridgeVersion))])
  {
    var a, b := ("bridge_source", Text(source)), ("bridge_version", Text(bridgeVersion));
    KeysArePlain();
    TwoMembers(a, b);
    ObjectReadsBack([a, b]);
  }

  lemma CatalogExtraJsonReadsBack(count: nat)
    ensures ReadObject(BuildCatalogExtraJson(count)) == Some([("sensor_count", Int(count))])
  {
    KeysArePlain();
    OneMember(("sensor_count", Int(count)));
    ObjectReadsBack([("sensor_count", Int(count))]);
  }

  lemma SampleExtraJsonReadsBack(count: nat)
    ensures ReadObject(BuildSampleExtraJson(count)) == Some([("sample_count", Int(count))])
  {
    KeysArePlain();
    OneMember(("sample_count", Int(count)));
    ObjectReadsBack([("sample_count", Int(count))]);
  }

  lemma HeartbeatExtraJsonReadsBack(uptimeSeconds: int, catalogCount: int)
    ensures ReadObject(BuildHeartbeatExtraJson(uptimeSeconds, catalogCount))
         == Some([("uptime_s", Int(uptimeSeconds)), ("catalog_count", Int(catalogCount))])
  {
    var a, b := ("uptime_s", Int(uptimeSeconds)), ("catalog_count", Int(catalogCount));
    KeysArePlain();
    TwoMembers(a, b);
    ObjectReadsBack([a, b]);
  }

  /** Without capabilities the hello's object reads back as its four members. */
  lemma HelloExtraJsonReadsBack(hostname: string, bridgeVersion: string, pid: int, interval: int)
    ensures ReadObject(BuildHelloExtraJson(hostname, bridgeVersion, pid, interval, ""))
         == Some([("hostname", Text(hostname)), ("bridge_version", Text(bridgeVersion)), ("pid", Int(pid)),
                  ("sample_interval_ms", Int(interval))])
  {
    var a, b := ("hostname", Text(hostname)), ("bridge_version", Text(bridgeVersion));
    var c, d := ("pid", Int(pid)), ("sample_interval_ms", Int(interval));
    KeysArePlain();
    HelloText(hostname, bridgeVersion, pid, interval);
    FourMembers(a, b, c, d);
    ObjectReadsBack([a, b, c, d]);
  }

  lemma HelloText(hostname: string, bridgeVersion: string, pid: int, interval: int)
    ensures BuildHelloExtraJson(hostname, bridgeVersion, pid, interval, "")
         == "{" + StringMember("hostname", hostname) + "," + StringMember("bridge_version", bridgeVersion)
            + "," + IntMember("pid", pid) + "," + IntMember("sample_interval_ms", interval) + "}"
  {
    NothingSpliced("{" + StringMember("hostname", hostname) + "," + StringMember("bridge_version", bridgeVersion)
                   + "," + IntMember("pid", pid) + "," + IntMember("sample_interval_ms", interval));
  }

  lemma NothingSpliced(front: string)
    ensures front + "" + "}" == front + "}"
  {
  }

  /** Capabilities are spliced in as they were received, as one more member before the closing brace. */
  lemma CapabilitiesAreSpliced(hostname: string, bridgeVersion: string, pid: int, interval: int, capabilities: string)
    requires capabilities != ""
    ensures var plain := BuildHelloExtraJson(hostname, bridgeVersion, pid, interval, "");
            BuildHelloExtraJson(hostname, bridgeVersion, pid, interval, capabilities)
            == plain[..|plain| - 1] + (",\"capabilities\":" + capabilities) + "}"
  {
    var front := "{" + StringMember("hostname", hostname) + "," + StringMember("bridge_version", bridgeVersion)
                 + "," + IntMember("pid", pid) + "," + IntMember("sample_interval_ms", interval);
    assert (front + "" + "}")[..|front|] == front;
  }
}
