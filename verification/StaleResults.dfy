/** Clearing stale tool output: what it keeps, and why the tokens it claims to save are
    never more than the tokens it frees. */
module StaleResults {
  import opened Text
  import opened Messages
  import opened History

  // ---- clearing stale tool output ----

  /** Characters JSON writes as themselves, in one byte. */
  predicate IsPlain(c: char) {
    0x20 <= c as int < 0x80 && c != '\"' && c != '\\'
  }

  lemma {:induction false} PlainLen(s: string)
    requires forall k :: 0 <= k < |s| ==> IsPlain(s[k])
    ensures Utf8Len(s) == |s| == JsonLen(s)
  {
    if s != "" { PlainLen(s[1..]); }
  }

  lemma HeadIsPlain(k: nat)
    requires k < |STUB_HEAD|
    ensures IsPlain(STUB_HEAD[k])
  {
  }

  lemma TailIsPlain(k: nat)
    requires k < |STUB_TAIL|
    ensures IsPlain(STUB_TAIL[k])
  {
  }

  lemma StubIsPlain()
    ensures forall k :: 0 <= k < |Stub()| ==> IsPlain(Stub()[k])
  {
    forall k | 0 <= k < |Stub()| ensures IsPlain(Stub()[k]) {
      if k < |STUB_HEAD| { HeadIsPlain(k); } else { TailIsPlain(k - |STUB_HEAD|); }
    }
  }

  lemma StubLen()
    ensures Utf8Len(Stub()) == JsonLen(Stub()) == STUB_BYTES
  {
    StubIsPlain();
    PlainLen(Stub());
    assert |Stub()| == 45;
  }

  lemma StubIsOneLine()
    ensures '\n' !in Stub() && Stub() != "" && Stub()[|Stub()| - 1] != '\r'
    ensures !(POINTER_PREFIX <= Stub())
  {
    StubIsPlain();
    assert Stub()[1] == 'e' && POINTER_PREFIX[1] == 'f';
  }

  lemma PointerBehind(stub: string, p: string)
    requires '\n' !in stub && stub != "" && stub[|stub| - 1] != '\r'
    requires '\n' !in p && POINTER_PREFIX <= p
    ensures PointerLine(stub + "\n" + p) == Some(p)
  {
    assert Lines(p) == [p];
    LinesCons(stub, "\n", p);
    assert Lines(stub + "\n" + p) == [stub, p];
  }

  lemma ClearedTextKeepsPointer(content: string)
    ensures PointerLine(ClearedText(content)) == PointerLine(content)
    ensures ClearedText(ClearedText(content)) == ClearedText(content)
  {
    StubIsOneLine();
    match PointerLine(content)
    case None => assert Lines(Stub()) == [Stub()];
    case Some(p) => PointerBehind(Stub(), p);
  }

  /** Clearing again changes nothing, whatever the history, and the last pointer line of
      every result is still its pointer line. */
  lemma ClearingIsIdempotent(ms: seq<Message>, cut: nat)
    ensures ClearStale(ClearStale(ms, cut), cut) == ClearStale(ms, cut)
    ensures forall i | 0 <= i < |ms| && ms[i].content.Text? ::
      ClearStale(ms, cut)[i].content.Text?
      && PointerLine(ClearStale(ms, cut)[i].content.text) == PointerLine(ms[i].content.text)
  {
    var once := ClearStale(ms, cut);
    forall i | 0 <= i < |ms| && ms[i].content.Text?
      ensures ClearMessage(ClearMessage(ms[i])) == ClearMessage(ms[i])
      ensures once[i].content.Text? && PointerLine(once[i].content.text) == PointerLine(ms[i].content.text)
    {
      ClearedTextKeepsPointer(ms[i].content.text);
    }
  }

  /** Clearing touches tool results of over 1000 bytes below the cut and nothing else: their
      content becomes the stub, with the last saved-report line behind it if there is one. */
  lemma OnlyBulkyResultsAreCleared(ms: seq<Message>, cut: nat, i: nat)
    requires i < |ms|
    ensures var after := ClearStale(ms, cut)[i];
      && after.(content := ms[i].content) == ms[i]
      && if 1 <= i < cut <= |ms| && ms[i].role == "tool" && ms[i].content.Text? && Utf8Len(ms[i].content.text) > 1000
         then after.content.Text? && Stub() <= after.content.text
           && after.content.text[|Stub()|..] == match PointerLine(ms[i].content.text) case Some(p) => "\n" + p case None => ""
         else after == ms[i]
  {
  }

  // ---- what clearing saves ----

  /** `TOOL_RESULT_CLEARED.len()`. */
  const STUB_BYTES := 45

  /** The stub plus the pointer line and its newline. */
  function Retained(content: string): nat {
    STUB_BYTES + match PointerLine(content) case Some(p) => Utf8Len(p) + 1 case None => 0
  }

  function Saving(m: Message): nat {
    if IsBulkyResult(m) && Utf8Len(m.content.text) >= Retained(m.content.text)
    then (Utf8Len(m.content.text) - Retained(m.content.text)) / 4 else 0
  }

  function SavingsFrom(ms: seq<Message>, i: nat, cut: nat): nat
    requires cut <= |ms|
    decreases cut - i
  {
    if i >= cut then 0 else Saving(ms[i]) + SavingsFrom(ms, i + 1, cut)
  }

  /** `stale_tool_result_savings`. */
  function StaleSavings(ms: seq<Message>, cut: nat): nat {
    if cut <= |ms| then SavingsFrom(ms, 1, cut) else 0
  }

  /** Clearing would lengthen the message by a token or more: all but the saved-report line is
      so little that the stub and an escaped newline take more. */
  predicate GrowsWhenCleared(m: Message) {
    IsBulkyResult(m) && PointerLine(m.content.text).Some? &&
    var around := JsonLen(m.content.text) - JsonLen(PointerLine(m.content.text).value);
    (SerializedLen(m) + STUB_BYTES + 2 - around) / 4 > SerializedLen(m) / 4
  }

  lemma ClearedJsonLen(content: string)
    ensures JsonLen(ClearedText(content)) ==
      STUB_BYTES + match PointerLine(content) case Some(p) => 2 + JsonLen(p) case None => 0
  {
    StubLen();
    match PointerLine(content)
    case None =>
    case Some(p) =>
      JsonLenConcat(Stub(), "\n");
      JsonLenConcat(Stub() + "\n", p);
  }

  /** A long enough result loses at least the bytes counted as saved: the pointer line
      costs the same before and after, and the line end around it makes up for the stub's. */
  lemma LongResultsShrink(content: string)
    requires Utf8Len(content) >= Retained(content)
    ensures JsonLen(content) - JsonLen(ClearedText(content)) >= Utf8Len(content) - Retained(content)
  {
    ClearedJsonLen(content);
    match PointerLine(content)
    case None => JsonLenAtLeastBytes(content);
    case Some(p) =>
      var k :| 0 <= k < |Lines(content)| && Lines(content)[k] == p;
      var a, b := LineOccurs(content, k);
      JsonLenConcat(a, p);
      JsonLenConcat(a + p, b);
      Utf8LenConcat(a, p);
      Utf8LenConcat(a + p, b);
      JsonLenAtLeastBytes(a);
      JsonLenAtLeastBytes(b);
  }

  lemma ClearedMessageLen(m: Message)
    requires IsBulkyResult(m)
    ensures SerializedLen(ClearMessage(m)) == SerializedLen(m) - JsonLen(m.content.text) + JsonLen(ClearedText(m.content.text))
    ensures EstimateMessage(m) == SerializedLen(m) / 4 && EstimateMessage(ClearMessage(m)) == SerializedLen(ClearMessage(m)) / 4
  {
    hide JsonLen, ClearedText;
  }

  /** A result gets longer in bytes exactly when what surrounds its saved-report line takes
      fewer JSON bytes than the stub and an escaped newline. */
  lemma GrowsInBytesIff(m: Message)
    requires IsBulkyResult(m)
    ensures SerializedLen(ClearMessage(m)) > SerializedLen(m) <==>
      PointerLine(m.content.text).Some?
      && JsonLen(m.content.text) - JsonLen(PointerLine(m.content.text).value) < STUB_BYTES + 2
  {
    hide SerializedLen, ClearMessage, ClearedText, JsonLen, PointerLine;
    ClearedJsonLen(m.content.text);
    JsonLenAtLeastBytes(m.content.text);
    ClearedMessageLen(m);
  }

  /** One result's saving is covered by the real drop in the estimate exactly when the result
      is not one that grows; one at least as long as what is retained of it never does. */
  lemma SavingIsCoveredIff(m: Message)
    ensures Saving(m) + EstimateMessage(ClearMessage(m)) <= EstimateMessage(m) <==> !GrowsWhenCleared(m)
    ensures IsBulkyResult(m) && Utf8Len(m.content.text) >= Retained(m.content.text) ==> !GrowsWhenCleared(m)
  {
    hide SerializedLen, ClearedText, JsonLen, PointerLine, EstimateMessage;
    if IsBulkyResult(m) {
      var s := m.content.text;
      ClearedMessageLen(m);
      ClearedJsonLen(s);
      JsonLenAtLeastBytes(s);
      if Utf8Len(s) >= Retained(s) { LongResultsShrink(s); }
    }
  }

  /** The family that is not covered: a result that is one long pointer line and nothing
      else is counted as saving nothing, and grows by the stub and an escaped newline. */
  lemma LonePointerLineGrows(m: Message, line: string)
    requires m.role == "tool" && m.content == Text(line)
    requires POINTER_PREFIX <= line && '\n' !in line && Utf8Len(line) > CLEAR_MIN
    ensures Saving(m) == 0 && SerializedLen(ClearMessage(m)) == SerializedLen(m) + STUB_BYTES + 2
    ensures Saving(m) + EstimateMessage(ClearMessage(m)) > EstimateMessage(m)
  {
    assert Lines(line) == [line];
    assert PointerLine(line) == Some(line);
    ClearedJsonLen(line);
  }

  lemma {:induction false} SavingsFromAreCovered(ms: seq<Message>, i: nat, cut: nat)
    requires 1 <= i <= |ms| && cut <= |ms|
    requires forall k :: i <= k < cut ==> !GrowsWhenCleared(ms[k])
    ensures SavingsFrom(ms, i, cut) + Estimate(ClearStale(ms, cut)[i..]) <= Estimate(ms[i..])
    decreases cut - i
  {
    hide Saving, EstimateMessage, ClearMessage, GrowsWhenCleared, Estimate;
    var cleared := ClearStale(ms, cut);
    if i < cut {
      EstimateStep(ms, i);
      EstimateStep(cleared, i);
      SavingIsCoveredIff(ms[i]);
      SavingsFromAreCovered(ms, i + 1, cut);
    } else {
      assert cleared[i..] == ms[i..];
    }
  }

  /** Clearing lengthened one of the results it went over. */
  predicate SomeResultGrows(ms: seq<Message>, cut: nat) {
    exists i | 1 <= i < cut <= |ms| :: GrowsWhenCleared(ms[i])
  }

  /** Savings never overstate what clearing reclaims, so a history the cheap pass leaves
      alone after clearing is within budget. */
  lemma StaleSavingsAreCovered(ms: seq<Message>, cut: nat)
    requires !SomeResultGrows(ms, cut)
    ensures StaleSavings(ms, cut) + Estimate(ClearStale(ms, cut)) <= Estimate(ms)
  {
    var cleared := ClearStale(ms, cut);
    if ms != [] && cut <= |ms| {
      SavingsFromAreCovered(ms, 1, cut);
      EstimateStep(ms, 0);
      EstimateStep(cleared, 0);
      assert ms[0..] == ms && cleared[0..] == cleared;
    } else {
      assert cleared == ms;
    }
  }

  lemma OneLineHasNoPointer(text: string)
    requires '\n' !in text && !(POINTER_PREFIX <= text)
    ensures PointerLine(text) == None
  {
    hide LastStartingWith;
    var lines := Lines(text);
    assert lines == if text == "" then [] else [text];
    assert forall l | l in lines :: l == text;
  }

  lemma PlainHasNoPointer(text: string)
    requires (forall k | 0 <= k < |text| :: IsPlain(text[k])) && !(POINTER_PREFIX <= text)
    ensures PointerLine(text) == None && Utf8Len(text) == |text| == JsonLen(text)
  {
    hide PointerLine, Utf8Len, JsonLen;
    PlainLen(text);
    assert '\n' !in text by { assert !IsPlain('\n'); }
    OneLineHasNoPointer(text);
  }

  lemma EstimateOfFour(a: Message, b: Message, c: Message, d: Message)
    ensures Estimate([a, b, c, d]) == EstimateMessage(a) + EstimateMessage(b) + EstimateMessage(c) + EstimateMessage(d)
  {
    hide EstimateMessage;
    EstimateStep([a, b, c, d], 0);
    EstimateStep([a, b, c, d], 1);
    EstimateStep([a, b, c, d], 2);
    EstimateStep([a, b, c, d], 3);
    assert [a, b, c, d][0..] == [a, b, c, d];
  }

  /** Where one result grows, the cheap pass can be chosen and still leave the history over
      budget: the savings of a long plain result are exact to a token, and a lone saved-report
      line takes back eleven. */
  lemma CheapPassCanFallShort(sys: Message, big: Message, text: string, lone: Message, line: string, user: Message)
    requires big.role == "tool" && big.content == Text(text) && Utf8Len(text) > CLEAR_MIN
    requires (forall k | 0 <= k < |text| :: IsPlain(text[k])) && !(POINTER_PREFIX <= text)
    requires lone.role == "tool" && lone.content == Text(line) && Utf8Len(line) > CLEAR_MIN
    requires POINTER_PREFIX <= line && '\n' !in line && IsUser(user)
    ensures var ms := [sys, big, lone, user];
      var saved := StaleSavings(ms, 3);
      && (forall keep :: IsCut(ms, keep, 3))
      && 0 < saved <= Estimate(ms)
      && Estimate(ClearStale(ms, 3)) > Estimate(ms) - saved
  {
    hide EstimateMessage, Saving, ClearMessage, Estimate, StaleSavings, IsCut;
    PlainSavingIsExact(big, text);
    LoneLineCosts(lone, line);
    SavingsOfFour(sys, big, lone, user);
    ClearedFour(sys, big, lone, user);
    EstimateOfFour(sys, big, lone, user);
    EstimateOfFour(sys, ClearMessage(big), ClearMessage(lone), user);
    OnlyUserIsCut(sys, big, lone, user);
  }

  lemma PlainSavingIsExact(m: Message, text: string)
    requires m.role == "tool" && m.content == Text(text) && Utf8Len(text) > CLEAR_MIN
    requires (forall k | 0 <= k < |text| :: IsPlain(text[k])) && !(POINTER_PREFIX <= text)
    ensures Saving(m) > 0 && Saving(m) <= EstimateMessage(m) - EstimateMessage(ClearMessage(m)) <= Saving(m) + 1
  {
    hide Saving, ClearMessage, EstimateMessage, JsonLen, PointerLine, IsPlain;
    PlainHasNoPointer(text);
    UnescapedSavingIsExact(m);
  }

  lemma UnescapedSavingIsExact(m: Message)
    requires IsBulkyResult(m) && PointerLine(m.content.text).None? && JsonLen(m.content.text) == Utf8Len(m.content.text)
    ensures Saving(m) > 0 && Saving(m) <= EstimateMessage(m) - EstimateMessage(ClearMessage(m)) <= Saving(m) + 1
  {
    hide SerializedLen, ClearMessage, ClearedText, JsonLen, Utf8Len, PointerLine, EstimateMessage;
    ClearedJsonLen(m.content.text);
    ClearedMessageLen(m);
  }

  lemma LoneLineCosts(m: Message, line: string)
    requires m.role == "tool" && m.content == Text(line) && Utf8Len(line) > CLEAR_MIN
    requires POINTER_PREFIX <= line && '\n' !in line
    ensures Saving(m) == 0 && EstimateMessage(ClearMessage(m)) >= EstimateMessage(m) + 11
  {
    LonePointerLineGrows(m, line);
  }

  lemma ClearedFour(a: Message, b: Message, c: Message, d: Message)
    ensures ClearStale([a, b, c, d], 3) == [a, ClearMessage(b), ClearMessage(c), d]
  {
    hide ClearMessage;
  }

  lemma SavingsOfFour(a: Message, b: Message, c: Message, d: Message)
    ensures StaleSavings([a, b, c, d], 3) == Saving(b) + Saving(c)
  {
    hide Saving;
    var ms := [a, b, c, d];
    assert SavingsFrom(ms, 3, 3) == 0;
    assert SavingsFrom(ms, 2, 3) == Saving(c);
  }

  lemma OnlyUserIsCut(a: Message, b: Message, c: Message, d: Message)
    requires !IsUser(b) && !IsUser(c) && IsUser(d)
    ensures forall keep :: IsCut([a, b, c, d], keep, 3)
  {
    var ms := [a, b, c, d];
    assert UserAt(ms, 3);
    assert forall i: nat | UserAt(ms, i) :: i == 3;
  }
}
