/** The compact JSON text of a message, as it is sent: what the token estimate measures. */
module Json {
  import opened Text
  import opened Messages

  // ---- strings ----

  function HexDigit(d: nat): (c: char)
    requires d < 16
    ensures 0x20 <= c as int < 0x80 && c != '"' && c != '\\'
  {
    "0123456789abcdef"[d]
  }

  function HexValue(c: char): nat {
    if '0' <= c <= '9' then c as int - '0' as int
    else if 'a' <= c <= 'f' then c as int - 'a' as int + 10
    else 0
  }

  /** One character inside a JSON string. */
  function EscapedChar(c: char): string {
    var k := c as int;
    if c == '"' then "\\\""
    else if c == '\\' then "\\\\"
    else if k == 8 then "\\b"
    else if k == 9 then "\\t"
    else if k == 10 then "\\n"
    else if k == 12 then "\\f"
    else if k == 13 then "\\r"
    else if k < 0x20 then "\\u00" + [HexDigit(k / 16), HexDigit(k % 16)]
    else [c]
  }

  function Escaped(s: string): string {
    if s == "" then "" else EscapedChar(s[0]) + Escaped(s[1..])
  }

  function Quoted(s: string): string {
    "\"" + Escaped(s) + "\""
  }

  /** What a JSON reader makes of the first character or escape of a string, and the length of
      it; `\u` is read only up to `\u00ff`, which is all that is ever written. */
  function ReadChar(t: string): (r: (char, nat))
    requires t != ""
    ensures 1 <= r.1 <= |t|
  {
    if t[0] != '\\' || |t| < 2 then (t[0], 1)
    else match t[1]
      case 'b' => (8 as char, 2)
      case 't' => (9 as char, 2)
      case 'n' => (10 as char, 2)
      case 'f' => (12 as char, 2)
      case 'r' => (13 as char, 2)
      case 'u' => if |t| < 6 then (t[1], 2) else ((HexValue(t[4]) * 16 + HexValue(t[5])) as char, 6)
      case c => (c, 2)
  }

  /** A JSON string read up to its closing quote, and what follows it. */
  function ReadString(t: string): Option<(string, string)>
    decreases |t|
  {
    if t == "" then None
    else if t[0] == '"' then Some(("", t[1..]))
    else
      var (c, n) := ReadChar(t);
      match ReadString(t[n..])
      case None => None
      case Some((s, rest)) => Some(([c] + s, rest))
  }

  lemma HexRoundTrip(d: nat)
    requires d < 16
    ensures HexValue(HexDigit(d)) == d
  {
  }

  lemma CharRoundTrip(c: char, rest: string)
    ensures var t := EscapedChar(c) + rest;
      t != "" && t[0] != '"' && ReadChar(t) == (c, |EscapedChar(c)|) && t[|EscapedChar(c)|..] == rest
  {
    var k := c as int;
    if k < 0x20 {
      HexRoundTrip(k / 16);
      HexRoundTrip(k % 16);
    }
  }

  /** A JSON reader gets every string back, whatever follows it. */
  lemma {:induction false} StringRoundTrip(s: string, rest: string)
    ensures ReadString(Escaped(s) + "\"" + rest) == Some((s, rest))
  {
    var t := Escaped(s) + "\"" + rest;
    if s == "" {
      assert t == ['"'] + rest;
    } else {
      hide EscapedChar, ReadChar;
      var more := Escaped(s[1..]) + "\"" + rest;
      assert t == EscapedChar(s[0]) + more;
      CharRoundTrip(s[0], more);
      StringRoundTrip(s[1..], rest);
      assert t[|EscapedChar(s[0])|..] == more && s == [s[0]] + s[1..];
      assert ReadString(t) == Some(([s[0]] + s[1..], rest));
    }
  }

  /** No raw control character is ever written. */
  lemma {:induction false} NoControlCharacters(s: string)
    ensures forall k | 0 <= k < |Escaped(s)| :: Escaped(s)[k] as int >= 0x20
  {
    if s != "" { NoControlCharacters(s[1..]); }
  }

  // ---- messages ----

  function Field(key: string, value: string): string {
    "\"" + key + "\":" + value
  }

  function Object(fields: seq<string>): string {
    "{" + Join(fields, ",") + "}"
  }

  function Array(values: seq<string>): string {
    "[" + Join(values, ",") + "]"
  }

  function PartTexts(parts: seq<Part>): seq<string> {
    if parts == [] then [] else [parts[0].json] + PartTexts(parts[1..])
  }

  function ContentFields(c: Content): seq<string> {
    match c
    case Absent => []
    case Text(s) => [Field("content", Quoted(s))]
    case Parts(parts) => [Field("content", Array(PartTexts(parts)))]
    case OtherJson(json) => [Field("content", json)]
  }

  function CallText(c: Call): string {
    Object([
      Field("id", Quoted(c.id)),
      Field("type", Quoted("function")),
      Field("function", Object([Field("name", Quoted(c.name)), Field("arguments", Quoted(c.arguments))]))])
  }

  function CallTexts(calls: seq<Call>): seq<string> {
    if calls == [] then [] else [CallText(calls[0])] + CallTexts(calls[1..])
  }

  function CallFields(calls: seq<Call>): seq<string> {
    if calls == [] then [] else [Field("tool_calls", Array(CallTexts(calls)))]
  }

  function IdFields(callId: Option<string>): seq<string> {
    match callId case Some(id) => [Field("tool_call_id", Quoted(id))] case None => []
  }

  /** The fields in one order; no other order changes the length. */
  function JsonText(m: Message): string {
    Object([Field("role", Quoted(m.role))] + ContentFields(m.content) + CallFields(m.calls) + IdFields(m.callId) + m.extra)
  }

  // ---- its length ----

  lemma EscapedCharLen(c: char)
    ensures Utf8Len(EscapedChar(c)) == JsonBytes(c)
  {
    var e := EscapedChar(c);
    if |e| > 1 {
      DigitsAreBytes(e);
    } else {
      assert e == [c] && Utf8Len([c]) == Utf8Bytes(c) + Utf8Len([]);
    }
  }

  lemma {:induction false} EscapedLen(s: string)
    ensures Utf8Len(Escaped(s)) == JsonLen(s)
  {
    if s != "" {
      EscapedLen(s[1..]);
      EscapedCharLen(s[0]);
      Utf8LenConcat(EscapedChar(s[0]), Escaped(s[1..]));
    }
  }

  /** The keys a message is written with. */
  lemma KeysAreAscii()
    ensures IsAscii("role") && IsAscii("content") && IsAscii("tool_calls") && IsAscii("tool_call_id")
    ensures IsAscii("id") && IsAscii("type") && IsAscii("function") && IsAscii("name") && IsAscii("arguments")
  {
  }

  lemma AroundLen(open: string, s: string, close: string)
    requires IsAscii(open) && IsAscii(close)
    ensures Utf8Len(open + s + close) == |open| + Utf8Len(s) + |close|
  {
    DigitsAreBytes(open);
    DigitsAreBytes(close);
    Utf8LenConcat(open, s);
    Utf8LenConcat(open + s, close);
  }

  lemma QuotedLen(s: string)
    ensures Utf8Len(Quoted(s)) == JsonLen(s) + 2
  {
    EscapedLen(s);
    AroundLen("\"", Escaped(s), "\"");
  }

  lemma FieldLen(key: string, value: string)
    requires IsAscii(key)
    ensures Utf8Len(Field(key, value)) == |key| + 3 + Utf8Len(value)
  {
    var name := "\"" + key + "\":";
    AroundLen(name, value, "");
    assert name + value + "" == Field(key, value);
  }

  lemma QuotedFieldLen(key: string, s: string)
    requires IsAscii(key)
    ensures Utf8Len(Field(key, Quoted(s))) == |key| + 5 + JsonLen(s)
  {
    QuotedLen(s);
    FieldLen(key, Quoted(s));
  }

  /** Joining puts a comma between each two: one fewer than there are texts. */
  lemma {:induction false} JoinLen(texts: seq<string>)
    ensures texts != [] ==> Utf8Len(Join(texts, ",")) + 1 == ListLen(texts)
  {
    if |texts| == 1 {
      assert texts[1..] == [];
    } else if |texts| > 1 {
      JoinLen(texts[1..]);
      DigitsAreBytes(",");
      Utf8LenConcat(texts[0] + ",", Join(texts[1..], ","));
      Utf8LenConcat(texts[0], ",");
    }
  }

  lemma ListTextLen(texts: seq<string>)
    ensures Utf8Len(Array(texts)) == Utf8Len(Object(texts)) == if texts == [] then 2 else 1 + ListLen(texts)
  {
    JoinLen(texts);
    AroundLen("[", Join(texts, ","), "]");
    AroundLen("{", Join(texts, ","), "}");
  }

  lemma {:induction false} ListLenConcat(a: seq<string>, b: seq<string>)
    ensures ListLen(a + b) == ListLen(a) + ListLen(b)
    decreases |a|
  {
    if a == [] {
      assert a + b == b;
    } else {
      ListLenConcat(a[1..], b);
      assert (a + b)[1..] == a[1..] + b;
    }
  }

  lemma ListLenOfOne(a: string)
    ensures ListLen([a]) == 1 + Utf8Len(a)
  {
    assert [a][1..] == [];
  }

  lemma {:induction false} PartTextsLen(parts: seq<Part>)
    ensures ListLen(PartTexts(parts)) == PartsLen(parts) && (PartTexts(parts) == [] <==> parts == [])
  {
    if parts != [] { PartTextsLen(parts[1..]); }
  }

  lemma ContentFieldsLen(c: Content)
    ensures ListLen(ContentFields(c)) == ContentLen(c)
  {
    hide Field, IsAscii, Utf8Len, JsonLen, ListLen, Array, Quoted;
    ListLenOfNone();
    KeysAreAscii();
    if !c.Absent? { ListLenOfOne(ContentFields(c)[0]); }
    match c
    case Absent =>
    case Text(s) => QuotedFieldLen("content", s);
    case OtherJson(json) => FieldLen("content", json);
    case Parts(parts) =>
      ListTextLen(PartTexts(parts));
      PartTextsLen(parts);
      FieldLen("content", Array(PartTexts(parts)));
  }

  lemma ObjectOfTwoLen(a: string, b: string)
    ensures Utf8Len(Object([a, b])) == 3 + Utf8Len(a) + Utf8Len(b)
  {
    ListTextLen([a, b]);
    ListLenOfOne(a);
    ListLenOfOne(b);
    ListLenConcat([a], [b]);
    assert [a] + [b] == [a, b];
  }

  lemma ObjectOfThreeLen(a: string, b: string, c: string)
    ensures Utf8Len(Object([a, b, c])) == 4 + Utf8Len(a) + Utf8Len(b) + Utf8Len(c)
  {
    ListTextLen([a, b, c]);
    ListLenOfOne(a);
    ListLenOfOne(b);
    ListLenOfOne(c);
    ListLenConcat([a], [b]);
    ListLenConcat([a] + [b], [c]);
    assert [a] + [b] + [c] == [a, b, c];
  }

  lemma FunctionFieldLen(name: string, arguments: string)
    ensures Utf8Len(Field("function", Object([Field("name", Quoted(name)), Field("arguments", Quoted(arguments))])))
      == 37 + JsonLen(name) + JsonLen(arguments)
  {
    hide Field, Object, Quoted, Utf8Len, JsonLen, IsAscii;
    KeysAreAscii();
    QuotedFieldLen("name", name);
    QuotedFieldLen("arguments", arguments);
    ObjectOfTwoLen(Field("name", Quoted(name)), Field("arguments", Quoted(arguments)));
    FieldLen("function", Object([Field("name", Quoted(name)), Field("arguments", Quoted(arguments))]));
  }

  lemma CallTextLen(c: Call)
    ensures Utf8Len(CallText(c)) + 1 == CallLen(c)
  {
    hide Field, Object, Quoted, Utf8Len, JsonLen, IsAscii;
    KeysAreAscii();
    QuotedFieldLen("id", c.id);
    QuotedFieldLen("type", "function");
    FunctionLen();
    FunctionFieldLen(c.name, c.arguments);
    ObjectOfThreeLen(Field("id", Quoted(c.id)), Field("type", Quoted("function")),
      Field("function", Object([Field("name", Quoted(c.name)), Field("arguments", Quoted(c.arguments))])));
  }

  lemma FunctionLen()
    ensures JsonLen("function") == 8
  {
    PlainJsonLen("function");
  }

  lemma {:induction false} PlainJsonLen(s: string)
    requires forall k | 0 <= k < |s| :: 0x20 <= s[k] as int < 0x80 && s[k] != '"' && s[k] != '\\'
    ensures JsonLen(s) == |s|
  {
    if s != "" { PlainJsonLen(s[1..]); }
  }

  lemma {:induction false} CallTextsLen(calls: seq<Call>)
    ensures ListLen(CallTexts(calls)) == CallsLen(calls) && (CallTexts(calls) == [] <==> calls == [])
  {
    hide CallText, CallLen;
    if calls != [] {
      CallTextsLen(calls[1..]);
      CallTextLen(calls[0]);
    }
  }

  lemma CallFieldsLen(calls: seq<Call>)
    ensures ListLen(CallFields(calls)) == if calls == [] then 0 else 15 + CallsLen(calls)
  {
    hide CallTexts, CallsLen, Array, Field, IsAscii, Utf8Len, ListLen;
    ListLenOfNone();
    if calls != [] {
      KeysAreAscii();
      CallTextsLen(calls);
      ListTextLen(CallTexts(calls));
      FieldLen("tool_calls", Array(CallTexts(calls)));
      ListLenOfOne(CallFields(calls)[0]);
    }
  }

  lemma ListLenOfNone()
    ensures ListLen([]) == 0
  {
  }

  lemma IdFieldsLen(callId: Option<string>)
    ensures ListLen(IdFields(callId)) == if callId.Some? then 18 + JsonLen(callId.value) else 0
  {
    hide Field, IsAscii, Utf8Len, JsonLen, ListLen;
    ListLenOfNone();
    if callId.Some? {
      KeysAreAscii();
      QuotedFieldLen("tool_call_id", callId.value);
      ListLenOfOne(IdFields(callId)[0]);
    }
  }

  /** The serialized length is the length in bytes of the message's JSON text. */
  lemma SerializedLenIsTextLen(m: Message)
    ensures SerializedLen(m) == Utf8Len(JsonText(m))
  {
    hide ContentFields, CallFields, IdFields, ListLen, Field, Quoted, Utf8Len, Object, JsonLen, IsAscii;
    var role := [Field("role", Quoted(m.role))];
    KeysAreAscii();
    QuotedFieldLen("role", m.role);
    ListLenOfOne(role[0]);
    ContentFieldsLen(m.content);
    CallFieldsLen(m.calls);
    IdFieldsLen(m.callId);
    var c, t, i := ContentFields(m.content), CallFields(m.calls), IdFields(m.callId);
    ListLenConcat(role, c);
    ListLenConcat(role + c, t);
    ListLenConcat(role + c + t, i);
    ListLenConcat(role + c + t + i, m.extra);
    ListTextLen(role + c + t + i + m.extra);
  }

  // ---- what the estimate measures ----

  /** Without images, a message costs a quarter of the bytes of its JSON text, rounded down. */
  lemma EstimateIsQuarterOfText(m: Message)
    requires !HasImage(m.content)
    ensures EstimateMessage(m) == Utf8Len(JsonText(m)) / 4
  {
    hide JsonText, SerializedLen;
    SerializedLenIsTextLen(m);
  }

  function Images(parts: seq<Part>): nat {
    if parts == [] then 0 else (if parts[0].Image? then 1 else 0) + Images(parts[1..])
  }

  function PlainParts(parts: seq<Part>): seq<Part> {
    if parts == [] then [] else (if parts[0].Plain? then [parts[0]] else []) + PlainParts(parts[1..])
  }

  lemma {:induction false} ImageContent(parts: seq<Part>)
    ensures ImageContentTokens(parts) == 1500 * Images(parts) + ImageContentTokens(PlainParts(parts))
    ensures Images(parts) > 0 <==> exists i :: 0 <= i < |parts| && parts[i].Image?
  {
    if parts != [] {
      ImageContent(parts[1..]);
      if parts[0].Plain? {
        assert ([parts[0]] + PlainParts(parts[1..]))[1..] == PlainParts(parts[1..]);
        if i :| 0 <= i < |parts| && parts[i].Image? { assert parts[1..][i - 1].Image?; }
      } else {
        assert [] + PlainParts(parts[1..]) == PlainParts(parts[1..]);
      }
    }
  }

  /** With images, each costs a flat 1500 whatever its text, and each other part a quarter of
      its own; nothing else of the message is counted but four tokens. */
  lemma ImagesAreFlat(m: Message)
    requires HasImage(m.content)
    ensures Images(m.content.parts) > 0
    ensures EstimateMessage(m) == 4 + 1500 * Images(m.content.parts) + ImageContentTokens(PlainParts(m.content.parts))
    ensures forall part | part in PlainParts(m.content.parts) :: part.Plain? && part in m.content.parts
  {
    ImageContent(m.content.parts);
    PlainPartsArePlain(m.content.parts);
  }

  lemma {:induction false} PlainPartsArePlain(parts: seq<Part>)
    ensures forall part | part in PlainParts(parts) :: part.Plain? && part in parts
  {
    if parts != [] { PlainPartsArePlain(parts[1..]); }
  }

  // ---- nothing is left out ----

  lemma {:induction false} JoinHolds(texts: seq<string>, sep: string, k: nat)
    requires k < |texts|
    ensures Holds(Join(texts, sep), texts[k])
  {
    if |texts| == 1 {
      HoldsAround("", texts[0], "");
      assert "" + texts[0] + "" == texts[0];
    } else if k == 0 {
      HoldsAround("", texts[0], sep + Join(texts[1..], sep));
      assert "" + texts[0] + (sep + Join(texts[1..], sep)) == texts[0] + sep + Join(texts[1..], sep);
    } else {
      var rest := Join(texts[1..], sep);
      JoinHolds(texts[1..], sep, k - 1);
      HoldsAround(texts[0] + sep, rest, "");
      assert texts[0] + sep + rest + "" == Join(texts, sep);
      HoldsWithin(Join(texts, sep), rest, texts[k]);
    }
  }

  lemma ListHolds(texts: seq<string>, k: nat)
    requires k < |texts|
    ensures Holds(Object(texts), texts[k]) && Holds(Array(texts), texts[k])
  {
    JoinHolds(texts, ",", k);
    var all := Join(texts, ",");
    hide Holds, Join;
    HoldsAround("{", all, "}");
    HoldsAround("[", all, "]");
    HoldsWithin(Object(texts), all, texts[k]);
    HoldsWithin(Array(texts), all, texts[k]);
  }

  lemma FieldHolds(key: string, value: string)
    ensures Holds(Field(key, value), value)
  {
    HoldsAround("\"" + key + "\":", value, "");
    assert "\"" + key + "\":" + value + "" == Field(key, value);
  }

  lemma {:induction false} CallTextsAt(calls: seq<Call>, j: nat)
    requires j < |calls|
    ensures |CallTexts(calls)| == |calls| && CallTexts(calls)[j] == CallText(calls[j])
  {
    hide CallText;
    if j > 0 { CallTextsAt(calls[1..], j - 1); } else if |calls| > 1 { CallTextsAt(calls[1..], 0); }
  }

  lemma MessageHoldsField(m: Message, field: string)
    requires field in ContentFields(m.content) || field in CallFields(m.calls) || field in IdFields(m.callId) || field in m.extra
    ensures Holds(JsonText(m), field)
  {
    hide ContentFields, CallFields, IdFields, Object, Field, Quoted, Holds;
    var fields := [Field("role", Quoted(m.role))] + ContentFields(m.content) + CallFields(m.calls) + IdFields(m.callId) + m.extra;
    assert field in fields;
    var k :| 0 <= k < |fields| && fields[k] == field;
    ListHolds(fields, k);
  }

  /** The text of a message holds its string content, quoted, and every tool call. */
  lemma MessageHoldsItsStrings(m: Message)
    ensures m.content.Text? ==> Holds(JsonText(m), Quoted(m.content.text))
    ensures forall j | 0 <= j < |m.calls| :: Holds(JsonText(m), CallText(m.calls[j]))
  {
    hide JsonText, Holds, Field, Quoted, Array, CallText;
    if m.content.Text? {
      var field := Field("content", Quoted(m.content.text));
      assert field in ContentFields(m.content);
      MessageHoldsField(m, field);
      FieldHolds("content", Quoted(m.content.text));
      HoldsWithin(JsonText(m), field, Quoted(m.content.text));
    }
    forall j | 0 <= j < |m.calls| ensures Holds(JsonText(m), CallText(m.calls[j])) {
      var calls := Array(CallTexts(m.calls));
      assert Field("tool_calls", calls) in CallFields(m.calls);
      MessageHoldsField(m, Field("tool_calls", calls));
      FieldHolds("tool_calls", calls);
      HoldsWithin(JsonText(m), Field("tool_calls", calls), calls);
      CallTextsAt(m.calls, j);
      ListHolds(CallTexts(m.calls), j);
      HoldsWithin(JsonText(m), calls, CallText(m.calls[j]));
    }
  }

  /** The text of a tool call holds its id, its name and its arguments, each quoted. */
  lemma CallHoldsItsStrings(c: Call)
    ensures Holds(CallText(c), Quoted(c.id)) && Holds(CallText(c), Quoted(c.name)) && Holds(CallText(c), Quoted(c.arguments))
  {
    hide Holds, Field, Quoted, Object;
    var inner := [Field("name", Quoted(c.name)), Field("arguments", Quoted(c.arguments))];
    var outer := [Field("id", Quoted(c.id)), Field("type", Quoted("function")), Field("function", Object(inner))];
    assert CallText(c) == Object(outer);
    ListHolds(outer, 0);
    ListHolds(outer, 2);
    FieldHolds("id", Quoted(c.id));
    HoldsWithin(Object(outer), outer[0], Quoted(c.id));
    FieldHolds("function", Object(inner));
    HoldsWithin(Object(outer), outer[2], Object(inner));
    ListHolds(inner, 0);
    ListHolds(inner, 1);
    FieldHolds("name", Quoted(c.name));
    FieldHolds("arguments", Quoted(c.arguments));
    HoldsWithin(Object(outer), Object(inner), inner[0]);
    HoldsWithin(Object(outer), Object(inner), inner[1]);
    HoldsWithin(Object(outer), inner[0], Quoted(c.name));
    HoldsWithin(Object(outer), inner[1], Quoted(c.arguments));
  }
}
