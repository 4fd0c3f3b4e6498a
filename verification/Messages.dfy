/** Chat messages, the strings in them that compaction may shorten, and the
    chars/4 token estimate taken from the serialized JSON length. */
module Messages {
  import opened Text

  const IMAGE_TOKEN_ESTIMATE := 1500

  /** One element of a multimodal content array, known by its JSON text. */
  datatype Part = Image(json: string) | Plain(json: string)

  /** The `content` field: not there, a string, an array, or the text of another JSON value. */
  datatype Content = Absent | Text(text: string) | Parts(parts: seq<Part>) | OtherJson(json: string)

  datatype Call = Call(id: string, name: string, arguments: string)

  /** `extra` holds the JSON texts of any further fields. */
  datatype Message = Message(role: string, content: Content, calls: seq<Call>, callId: Option<string>, extra: seq<string>)

  predicate IsUser(m: Message) { m.role == "user" }

  // ---- serialized length ----

  /** Bytes one character takes inside a JSON string. */
  function JsonBytes(c: char): (n: nat)
    ensures Utf8Bytes(c) <= n
    ensures c == '\n' ==> n == 2
  {
    var k := c as int;
    if c == '"' || c == '\\' || k == 8 || k == 9 || k == 10 || k == 12 || k == 13 then 2
    else if k < 0x20 then 6
    else Utf8Bytes(c)
  }

  function JsonLen(s: string): (n: nat) {
    if s == "" then 0 else JsonBytes(s[0]) + JsonLen(s[1..])
  }

  lemma {:induction false} JsonLenConcat(a: string, b: string)
    ensures JsonLen(a + b) == JsonLen(a) + JsonLen(b)
  {
    if a == "" {
      assert a + b == b;
    } else {
      JsonLenConcat(a[1..], b);
      assert (a + b)[1..] == a[1..] + b;
    }
  }

  /** Escaping never shortens, and costs an extra byte as soon as there is a line end. */
  lemma {:induction false} JsonLenAtLeastBytes(s: string)
    ensures Utf8Len(s) + (if '\n' in s then 1 else 0) <= JsonLen(s)
  {
    if s != "" { JsonLenAtLeastBytes(s[1..]); }
  }

  /** Texts of a JSON list, a comma with each. */
  function ListLen(texts: seq<string>): nat {
    if texts == [] then 0 else 1 + Utf8Len(texts[0]) + ListLen(texts[1..])
  }

  function PartsLen(parts: seq<Part>): nat {
    if parts == [] then 0 else 1 + Utf8Len(parts[0].json) + PartsLen(parts[1..])
  }

  function ContentLen(c: Content): nat {
    match c
    case Absent => 0
    case Text(s) => 11 + 2 + JsonLen(s)             // ,"content":"…"
    case Parts(ps) => 11 + (if ps == [] then 2 else 1 + PartsLen(ps))
    case OtherJson(json) => 11 + Utf8Len(json)
  }

  /** {"id":"…","type":"function","function":{"name":"…","arguments":"…"}} and its comma. */
  function CallLen(c: Call): nat {
    66 + JsonLen(c.id) + JsonLen(c.name) + JsonLen(c.arguments)
  }

  function CallsLen(calls: seq<Call>): nat {
    if calls == [] then 0 else CallLen(calls[0]) + CallsLen(calls[1..])
  }

  function SerializedLen(m: Message): nat {
    2 + 9 + JsonLen(m.role)
    + ContentLen(m.content)
    + (if m.calls == [] then 0 else 15 + CallsLen(m.calls))
    + (if m.callId.Some? then 18 + JsonLen(m.callId.value) else 0)
    + ListLen(m.extra)
  }

  predicate HasImage(c: Content) {
    c.Parts? && exists i | 0 <= i < |c.parts| :: c.parts[i].Image?
  }

  function ImageContentTokens(parts: seq<Part>): nat {
    if parts == [] then 0
    else (if parts[0].Image? then IMAGE_TOKEN_ESTIMATE else Utf8Len(parts[0].json) / 4) + ImageContentTokens(parts[1..])
  }

  function EstimateMessage(m: Message): nat {
    if HasImage(m.content) then ImageContentTokens(m.content.parts) + 4 else SerializedLen(m) / 4
  }

  function Estimate(ms: seq<Message>): nat {
    if ms == [] then 0 else EstimateMessage(ms[0]) + Estimate(ms[1..])
  }

  lemma EstimateStep(ms: seq<Message>, i: nat)
    requires i < |ms|
    ensures Estimate(ms[i..]) == EstimateMessage(ms[i]) + Estimate(ms[i + 1..])
  {
    assert ms[i..][1..] == ms[i + 1..];
  }

  lemma {:induction false} EstimateConcat(a: seq<Message>, b: seq<Message>)
    ensures Estimate(a + b) == Estimate(a) + Estimate(b)
  {
    if a == [] {
      assert a + b == b;
    } else {
      EstimateConcat(a[1..], b);
      assert (a + b)[1..] == a[1..] + b;
    }
  }

  // ---- shortening ----

  const ELLIPSIS := "\U{2026} (+"
  const CHARS := " chars)"

  /** `truncate_str`: the first `max` characters and a marker naming how many went. */
  function Truncate(s: string, max: nat): (r: string)
    ensures |s| <= max ==> r == s
    ensures |s| > max ==> s[..max] <= r && EndsWith(r, " chars)")
  {
    assert EndsWith(CHARS, " chars)");
    if |s| <= max then s else s[..max] + (ELLIPSIS + Decimal(|s| - max) + CHARS)
  }

  lemma {:induction false} DigitsAreBytes(s: string)
    requires forall k :: 0 <= k < |s| ==> (s[k] as int) < 0x80
    ensures Utf8Len(s) == |s|
  {
    if s != "" { DigitsAreBytes(s[1..]); }
  }

  /** Halving a string of over 256 characters always beats the marker it adds, in
      characters and in bytes: what is cut away is one byte a character at the least. */
  lemma HalvingShrinks(s: string)
    requires |s| > 256
    ensures |Truncate(s, |s| / 2)| < |s|
    ensures Utf8Len(Truncate(s, |s| / 2)) < Utf8Len(s)
  {
    var max := |s| / 2;
    var kept, cut, digits := s[..max], s[max..], Decimal(|s| - max);
    DecimalIsShort(|s| - max);
    assert s == kept + cut;
    Utf8LenConcat(kept, cut);
    Utf8LenConcat(kept, ELLIPSIS + digits + CHARS);
    MarkerBytes(digits);
  }

  lemma MarkerEndsBytes()
    ensures Utf8Len(CHARS) == 7 && Utf8Len(ELLIPSIS) == 6
  {
    DigitsAreBytes(CHARS);
    DigitsAreBytes(ELLIPSIS[1..]);
  }

  lemma MarkerBytes(digits: string)
    requires forall k :: 0 <= k < |digits| ==> IsDigit(digits[k])
    ensures Utf8Len(ELLIPSIS + digits + CHARS) == 13 + |digits|
  {
    MarkerEndsBytes();
    DigitsAreBytes(digits);
    Utf8LenConcat(ELLIPSIS, digits);
    Utf8LenConcat(ELLIPSIS + digits, CHARS);
  }

  /** A string that shrinking may shorten: a message's content, or one call's arguments. */
  datatype Slot = ContentOf(i: nat) | ArgumentsOf(i: nat, j: nat)

  predicate IsSlot(ms: seq<Message>, slot: Slot) {
    1 <= slot.i < |ms| &&
    match slot
    case ContentOf(i) => ms[i].content.Text?
    case ArgumentsOf(i, j) => j < |ms[i].calls|
  }

  function SlotText(ms: seq<Message>, slot: Slot): string
    requires IsSlot(ms, slot)
  {
    match slot
    case ContentOf(i) => ms[i].content.text
    case ArgumentsOf(i, j) => ms[i].calls[j].arguments
  }

  function ArgumentSlots(i: nat, n: nat): (slots: seq<Slot>)
    ensures forall slot :: slot in slots <==> slot.ArgumentsOf? && slot.i == i && slot.j < n
  {
    if n == 0 then [] else ArgumentSlots(i, n - 1) + [ArgumentsOf(i, n - 1)]
  }

  /** The candidates in scan order: message by message, content first, then its calls. */
  function SlotsFrom(ms: seq<Message>, i: nat): (slots: seq<Slot>)
    requires 1 <= i
    ensures forall slot :: slot in slots <==> IsSlot(ms, slot) && i <= slot.i
    decreases |ms| - i
  {
    if i >= |ms| then [] else
      (if ms[i].content.Text? then [ContentOf(i)] else [])
      + ArgumentSlots(i, |ms[i].calls|)
      + SlotsFrom(ms, i + 1)
  }

  /** The last of the longest candidates over 256 characters (`max_by_key` keeps the last). */
  function LargestOf(ms: seq<Message>, slots: seq<Slot>): (pick: Option<Slot>)
    requires forall slot :: slot in slots ==> IsSlot(ms, slot)
    ensures pick.None? ==> forall slot :: slot in slots ==> |SlotText(ms, slot)| <= 256
    ensures pick.Some? ==> pick.value in slots && |SlotText(ms, pick.value)| > 256
    ensures pick.Some? ==> forall slot :: slot in slots ==> |SlotText(ms, slot)| <= |SlotText(ms, pick.value)|
  {
    if slots == [] then None else
      var rest := LargestOf(ms, slots[1..]);
      if |SlotText(ms, slots[0])| > 256 &&
         (rest.None? || |SlotText(ms, slots[0])| > |SlotText(ms, rest.value)|)
      then Some(slots[0]) else rest
  }

  function LargestSlot(ms: seq<Message>): (pick: Option<Slot>)
    ensures pick.None? <==> forall slot | IsSlot(ms, slot) :: |SlotText(ms, slot)| <= 256
    ensures pick.Some? ==>
      IsSlot(ms, pick.value) && |SlotText(ms, pick.value)| > 256 &&
      forall slot | IsSlot(ms, slot) :: |SlotText(ms, slot)| <= |SlotText(ms, pick.value)|
  {
    LargestOf(ms, SlotsFrom(ms, 1))
  }

  /** Total length of the strings shrinking works on: its termination measure. */
  function ArgumentsVolume(calls: seq<Call>): nat {
    if calls == [] then 0 else |calls[0].arguments| + ArgumentsVolume(calls[1..])
  }

  function MessageVolume(m: Message): nat {
    (if m.content.Text? then |m.content.text| else 0) + ArgumentsVolume(m.calls)
  }

  function Volume(ms: seq<Message>): nat {
    if ms == [] then 0 else MessageVolume(ms[0]) + Volume(ms[1..])
  }

  lemma {:induction false} VolumeOfUpdate(ms: seq<Message>, i: nat, m: Message)
    requires i < |ms|
    ensures Volume(ms[i := m]) == Volume(ms) - MessageVolume(ms[i]) + MessageVolume(m)
  {
    if i > 0 {
      VolumeOfUpdate(ms[1..], i - 1, m);
      assert ms[i := m][1..] == ms[1..][i - 1 := m];
    } else {
      assert ms[i := m][1..] == ms[1..];
    }
  }

  lemma {:induction false} ArgumentsVolumeOfUpdate(calls: seq<Call>, j: nat, c: Call)
    requires j < |calls|
    ensures ArgumentsVolume(calls[j := c]) == ArgumentsVolume(calls) - |calls[j].arguments| + |c.arguments|
  {
    if j > 0 {
      ArgumentsVolumeOfUpdate(calls[1..], j - 1, c);
      assert calls[j := c][1..] == calls[1..][j - 1 := c];
    } else {
      assert calls[j := c][1..] == calls[1..];
    }
  }

  /** Halve the string in one slot. */
  function ShortenContent(m: Message): Message
    requires m.content.Text?
  {
    m.(content := Text(Truncate(m.content.text, |m.content.text| / 2)))
  }

  function ShortenArguments(m: Message, j: nat): Message
    requires j < |m.calls|
  {
    var c := m.calls[j];
    m.(calls := m.calls[j := c.(arguments := Truncate(c.arguments, |c.arguments| / 2))])
  }

  function ShortenSlot(ms: seq<Message>, slot: Slot): seq<Message>
    requires IsSlot(ms, slot)
  {
    match slot
    case ContentOf(i) => ms[i := ShortenContent(ms[i])]
    case ArgumentsOf(i, j) => ms[i := ShortenArguments(ms[i], j)]
  }

  /** Halving keeps the first half of the string it picks, and every other string as it was. */
  lemma ShorteningKeepsHalf(ms: seq<Message>, slot: Slot)
    requires IsSlot(ms, slot) && |SlotText(ms, slot)| > 1
    ensures var after := ShortenSlot(ms, slot);
      && (forall other :: IsSlot(after, other) <==> IsSlot(ms, other))
      && (forall other | IsSlot(ms, other) && other != slot :: SlotText(after, other) == SlotText(ms, other))
      && SlotText(ms, slot)[..|SlotText(ms, slot)| / 2] <= SlotText(after, slot)
  {
    hide Truncate, EndsWith;
  }

  /** Every shortening step makes progress. */
  lemma ShorteningShrinks(ms: seq<Message>, slot: Slot)
    requires IsSlot(ms, slot) && |SlotText(ms, slot)| > 256
    ensures Volume(ShortenSlot(ms, slot)) < Volume(ms)
  {
    HalvingShrinks(SlotText(ms, slot));
    match slot
    case ContentOf(i) =>
      VolumeOfUpdate(ms, i, ShortenContent(ms[i]));
    case ArgumentsOf(i, j) =>
      var c := ms[i].calls[j];
      ArgumentsVolumeOfUpdate(ms[i].calls, j, c.(arguments := Truncate(c.arguments, |c.arguments| / 2)));
      VolumeOfUpdate(ms, i, ShortenArguments(ms[i], j));
  }
}
