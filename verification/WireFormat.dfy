/**
  The bytes of the log on their own terms: each record as literal text, each escape as it is
  written, and UTF-8 as the encoding of character codes (sections 7 and 8 of RFC 8259,
  section 3 of RFC 3629).
 */
module WireFormat {
  import opened Options
  import opened Texts
  import opened GateModel
  import opened Replay
  import opened RecordCodec

  /** The character codes of a literal. */
  function Literal(s: string): (codes: seq<int>)
    ensures |codes| == |s| && forall i :: 0 <= i < |s| ==> codes[i] == s[i] as int
  {
    seq(|s|, i requires 0 <= i < |s| => s[i] as int)
  }

  // ---- Escapes ----

  const HEX := "0123456789abcdef"

  lemma QuotesAndBackslashes()
    ensures EscapeByte('"' as int) == Literal("\\\"") && EscapeByte('\\' as int) == Literal("\\\\")
    ensures EscapeByte(0x08) == Literal("\\b") && EscapeByte(0x09) == Literal("\\t")
    ensures EscapeByte(0x0A) == Literal("\\n")
    ensures EscapeByte(0x0C) == Literal("\\f") && EscapeByte(0x0D) == Literal("\\r")
  {
  }

  /** The other control bytes are written by number. */
  lemma ControlsByNumber(b: Byte)
    requires b < 0x20 && b !in [0x08, 0x09, 0x0A, 0x0C, 0x0D]
    ensures EscapeByte(b) == Literal("\\u00") + [HEX[b / 16] as int, HEX[b % 16] as int]
  {
    HexDigitIsLetter(b / 16);
    HexDigitIsLetter(b % 16);
  }

  lemma HexDigitIsLetter(d: Digit)
    ensures RecordCodec.HexDigit(d) == HEX[d] as int
  {
  }

  /** No byte of the text needs an escape. */
  predicate PlainText(t: seq<Byte>) { forall b <- t :: PlainByte(b) }

  predicate PlainByte(b: Byte) { b >= 0x20 && b != '"' as int && b != '\\' as int }

  /** Other bytes, those of longer characters included, stand for themselves. */
  lemma {:induction false} PlainStays(t: seq<Byte>)
    requires PlainText(t)
    ensures Escape(t) == t
    decreases |t|
  {
    if t != [] {
      assert PlainByte(t[0]);
      PlainStays(t[1..]);
      assert t == [t[0]] + t[1..];
    }
  }

  lemma {:induction false} EscapeConcat(a: seq<Byte>, b: seq<Byte>)
    ensures Escape(a + b) == Escape(a) + Escape(b)
    decreases |a|
  {
    hide EscapeByte;
    if a == [] {
      assert a + b == b;
    } else {
      assert (a + b)[1..] == a[1..] + b;
      EscapeConcat(a[1..], b);
    }
  }

  // ---- Records as literal text ----

  // The front of a record up to its run id, and the literal pieces behind it.

  function Front(tag: seq<Byte>): seq<Byte> {
    [OPEN, QUOTE] + EV + [QUOTE, COLON, QUOTE] + tag + [QUOTE, COMMA, QUOTE] + RUN_ID + [QUOTE, COLON, QUOTE]
  }

  lemma OpeningReleased()
    ensures Literal("{\"ev\":\"released\",\"run_id\":\"") == Front(RELEASED)
  {
    hide ValidUtf8;
  }

  lemma OpeningRejected()
    ensures Literal("{\"ev\":\"rejected\",\"run_id\":\"") == Front(REJECTED)
  {
    hide ValidUtf8;
  }

  lemma OpeningCancelled()
    ensures Literal("{\"ev\":\"cancelled\",\"run_id\":\"") == Front(CANCELLED)
  {
    hide ValidUtf8;
  }

  lemma OpeningClosed()
    ensures Literal("{\"ev\":\"closed\",\"run_id\":\"") == Front(CLOSED)
  {
    hide ValidUtf8;
  }

  lemma KeyField()
    ensures Literal("\",\"effect_key\":\"") == [QUOTE, COMMA, QUOTE] + EFFECT_KEY + [QUOTE, COLON, QUOTE]
  {
    hide ValidUtf8;
  }

  lemma Ending()
    ensures Literal("\"}") == [QUOTE, CLOSE]
  {
  }

  lemma NamesArePlain()
    ensures Escape(EV) == EV && Escape(RUN_ID) == RUN_ID && Escape(EFFECT_KEY) == EFFECT_KEY
    ensures Escape(RELEASED) == RELEASED && Escape(REJECTED) == REJECTED
    ensures Escape(CANCELLED) == CANCELLED && Escape(CLOSED) == CLOSED
  {
    hide ValidUtf8;
    hide Escape;
    PlainStays(EV);
    PlainStays(RUN_ID);
    PlainStays(EFFECT_KEY);
    PlainStays(RELEASED);
    PlainStays(REJECTED);
    PlainStays(CANCELLED);
    PlainStays(CLOSED);
  }

  /** The first member and the run id. */
  lemma FrontText(tag: Text, run: Text)
    requires Escape(tag) == tag && Escape(EV) == EV && Escape(RUN_ID) == RUN_ID
    ensures [OPEN] + EncodeMember((EV, tag)) + [COMMA] + EncodeMember((RUN_ID, run))
         == Front(tag) + Escape(run) + [QUOTE]
  {
    hide ValidUtf8;
    hide Escape;
    var open := [OPEN, QUOTE] + EV + [QUOTE, COLON, QUOTE] + tag;
    assert EncodeMember((EV, tag)) == [QUOTE] + EV + [QUOTE, COLON, QUOTE] + tag + [QUOTE];
    assert [OPEN] + EncodeMember((EV, tag)) == open + [QUOTE];
    FieldText(open, RUN_ID, run, [QUOTE, COMMA, QUOTE] + RUN_ID + [QUOTE, COLON, QUOTE]);
    assert open + ([QUOTE, COMMA, QUOTE] + RUN_ID + [QUOTE, COLON, QUOTE]) == Front(tag);
  }

  /** One more member behind a value that was just closed. */
  lemma FieldText(front: seq<int>, name: Text, value: Text, field: seq<int>)
    requires Escape(name) == name && field == [QUOTE, COMMA, QUOTE] + name + [QUOTE, COLON, QUOTE]
    ensures front + [QUOTE] + [COMMA] + EncodeMember((name, value)) == front + field + Escape(value) + [QUOTE]
  {
    hide ValidUtf8;
    hide Escape;
    assert EncodeMember((name, value)) == [QUOTE] + name + [QUOTE, COLON, QUOTE] + Escape(value) + [QUOTE];
    assert front + [QUOTE] + [COMMA] + ([QUOTE] + name + [QUOTE, COLON, QUOTE]) == front + field;
  }

  lemma TwoMembers(a: (Text, Text), b: (Text, Text))
    ensures EncodeObject([a, b]) == [OPEN] + EncodeMember(a) + [COMMA] + EncodeMember(b) + [CLOSE]
  {
    hide ValidUtf8;
    hide EncodeMember;
    assert [a, b][..1] == [a];
    assert EncodeMembers([a, b]) == EncodeMember(a) + [COMMA] + EncodeMember(b);
  }

  lemma ThreeMembers(a: (Text, Text), b: (Text, Text), c: (Text, Text))
    ensures EncodeObject([a, b, c])
         == [OPEN] + EncodeMember(a) + [COMMA] + EncodeMember(b) + [COMMA] + EncodeMember(c) + [CLOSE]
  {
    hide ValidUtf8;
    hide EncodeMember;
    assert [a, b, c][..2] == [a, b] && [a, b][..1] == [a];
    assert EncodeMembers([a, b]) == EncodeMember(a) + [COMMA] + EncodeMember(b);
    assert EncodeMembers([a, b, c]) == EncodeMembers([a, b]) + [COMMA] + EncodeMember(c);
  }

  lemma LastMember(front: seq<int>, ending: seq<int>)
    requires ending == [QUOTE, CLOSE]
    ensures front + [QUOTE] + [CLOSE] == front + ending
  {
  }

  lemma RunRecord(tag: Text, run: Text, opening: seq<int>, ending: seq<int>)
    requires Escape(tag) == tag && opening == Front(tag) && ending == [QUOTE, CLOSE]
    ensures EncodeObject([(EV, tag), (RUN_ID, run)]) == opening + Escape(run) + ending
  {
    hide *;
    NamesArePlain();
    TwoMembers((EV, tag), (RUN_ID, run));
    FrontText(tag, run);
    LastMember(opening + Escape(run), ending);
  }

  lemma EffectRecord(tag: Text, run: Text, key: Text, opening: seq<int>, field: seq<int>, ending: seq<int>)
    requires Escape(tag) == tag && opening == Front(tag) && ending == [QUOTE, CLOSE]
    requires field == [QUOTE, COMMA, QUOTE] + EFFECT_KEY + [QUOTE, COLON, QUOTE]
    ensures EncodeObject([(EV, tag), (RUN_ID, run), (EFFECT_KEY, key)])
         == opening + Escape(run) + field + Escape(key) + ending
  {
    hide *;
    NamesArePlain();
    ThreeMembers((EV, tag), (RUN_ID, run), (EFFECT_KEY, key));
    FrontText(tag, run);
    FieldText(opening + Escape(run), EFFECT_KEY, key, field);
    LastMember(opening + Escape(run) + field + Escape(key), ending);
  }

  lemma MembersOfEffect(run: Text, key: Text)
    ensures Encode(Released((run, key))) == EncodeObject([(EV, RELEASED), (RUN_ID, run), (EFFECT_KEY, key)])
    ensures Encode(Rejected((run, key))) == EncodeObject([(EV, REJECTED), (RUN_ID, run), (EFFECT_KEY, key)])
  {
    hide EncodeObject;
  }

  lemma MembersOfRun(run: Text)
    ensures Encode(Cancelled(run)) == EncodeObject([(EV, CANCELLED), (RUN_ID, run)])
    ensures Encode(Closed(run)) == EncodeObject([(EV, CLOSED), (RUN_ID, run)])
  {
    hide EncodeObject;
  }

  /** A release record, byte by byte, and what reading these bytes gives. */
  lemma ReleasedText(run: Text, key: Text)
    ensures Encode(Released((run, key)))
         == Literal("{\"ev\":\"released\",\"run_id\":\"") + Escape(run) + Literal("\",\"effect_key\":\"")
            + Escape(key) + Literal("\"}")
    ensures Decode(Encode(Released((run, key)))) == Some(Released((run, key)))
  {
    RoundTrip(Released((run, key)));
    MembersOfEffect(run, key);
    hide *;
    NamesArePlain();
    OpeningReleased();
    KeyField();
    Ending();
    EffectRecord(RELEASED, run, key, Literal("{\"ev\":\"released\",\"run_id\":\""), Literal("\",\"effect_key\":\""),
                 Literal("\"}"));
  }

  /** A rejection record, byte by byte, and what reading these bytes gives. */
  lemma RejectedText(run: Text, key: Text)
    ensures Encode(Rejected((run, key)))
         == Literal("{\"ev\":\"rejected\",\"run_id\":\"") + Escape(run) + Literal("\",\"effect_key\":\"")
            + Escape(key) + Literal("\"}")
    ensures Decode(Encode(Rejected((run, key)))) == Some(Rejected((run, key)))
  {
    RoundTrip(Rejected((run, key)));
    MembersOfEffect(run, key);
    hide *;
    NamesArePlain();
    OpeningRejected();
    KeyField();
    Ending();
    EffectRecord(REJECTED, run, key, Literal("{\"ev\":\"rejected\",\"run_id\":\""), Literal("\",\"effect_key\":\""),
                 Literal("\"}"));
  }

  /** A cancel record. */
  lemma CancelledText(run: Text)
    ensures Encode(Cancelled(run))
         == Literal("{\"ev\":\"cancelled\",\"run_id\":\"") + Escape(run) + Literal("\"}")
    ensures Decode(Encode(Cancelled(run))) == Some(Cancelled(run))
  {
    RoundTrip(Cancelled(run));
    MembersOfRun(run);
    hide *;
    NamesArePlain();
    OpeningCancelled();
    Ending();
    RunRecord(CANCELLED, run, Literal("{\"ev\":\"cancelled\",\"run_id\":\""), Literal("\"}"));
  }

  /** A close record. */
  lemma ClosedText(run: Text)
    ensures Encode(Closed(run))
         == Literal("{\"ev\":\"closed\",\"run_id\":\"") + Escape(run) + Literal("\"}")
    ensures Decode(Encode(Closed(run))) == Some(Closed(run))
  {
    RoundTrip(Closed(run));
    MembersOfRun(run);
    hide *;
    NamesArePlain();
    OpeningClosed();
    Ending();
    RunRecord(CLOSED, run, Literal("{\"ev\":\"closed\",\"run_id\":\""), Literal("\"}"));
  }

  // ---- Characters ----

  predicate Scalar(code: int) { 0 <= code < 0xD800 || 0xE000 <= code < 0x110000 }

  /** The code a UTF-8 character carries: the low bits of its bytes, most significant first. */
  function CodeOf(c: seq<int>): int {
    match |c|
    case 1 => c[0]
    case 2 => (c[0] - 0xC0) * 0x40 + (c[1] - 0x80)
    case 3 => (c[0] - 0xE0) * 0x1000 + (c[1] - 0x80) * 0x40 + (c[2] - 0x80)
    case 4 => (c[0] - 0xF0) * 0x40000 + (c[1] - 0x80) * 0x1000 + (c[2] - 0x80) * 0x40 + (c[3] - 0x80)
    case _ => -1
  }

  /** A code is its groups of six bits. */
  lemma SixBits(code: nat)
    ensures code == code / 0x40 * 0x40 + code % 0x40 && 0 <= code % 0x40 < 0x40
    ensures code / 0x40 == code / 0x1000 * 0x40 + code / 0x40 % 0x40 && 0 <= code / 0x40 % 0x40 < 0x40
    ensures code / 0x1000 == code / 0x40000 * 0x40 + code / 0x1000 % 0x40 && 0 <= code / 0x1000 % 0x40 < 0x40
  {
  }

  lemma GroupsAreSixBits(a: nat, b: nat, c: nat, d: nat)
    requires b < 0x40 && c < 0x40 && d < 0x40
    ensures var code := a * 0x40000 + b * 0x1000 + c * 0x40 + d;
            code / 0x40000 == a && code / 0x1000 % 0x40 == b && code / 0x40 % 0x40 == c && code % 0x40 == d
            && code / 0x1000 == a * 0x40 + b && code / 0x40 == (a * 0x40 + b) * 0x40 + c
  {
    var code := a * 0x40000 + b * 0x1000 + c * 0x40 + d;
    assert code / 0x40 == (a * 0x40 + b) * 0x40 + c;
    assert code / 0x1000 == a * 0x40 + b;
  }

  /** Every code that is not a surrogate is written as one well-formed character, which carries it. */
  lemma CodeIsOneChar(code: int, rest: seq<Byte>)
    requires Scalar(code)
    ensures FirstChar(Utf8(code) + rest) == |Utf8(code)| && CodeOf(Utf8(code)) == code
  {
    SixBits(code);
    var c := Utf8(code);
    FirstOfChar(c, rest);
  }

  /** What makes bytes a character, with its length. */
  predicate IsChar(c: seq<Byte>) { c != [] && FirstChar(c) == |c| }

  lemma FirstOfChar(c: seq<Byte>, rest: seq<Byte>)
    requires IsChar(c)
    ensures FirstChar(c + rest) == |c|
  {
    assert |c| > 1 ==> (c + rest)[1] == c[1];
    assert |c| > 2 ==> (c + rest)[2] == c[2];
    assert |c| > 3 ==> (c + rest)[3] == c[3];
  }

  lemma FrontIsChar(s: seq<Byte>)
    requires FirstChar(s) > 0
    ensures IsChar(s[..FirstChar(s)])
  {
  }

  lemma ThreeBytesHaveCode(c: seq<Byte>)
    requires IsChar(c) && |c| == 3
    ensures Scalar(CodeOf(c)) && Utf8(CodeOf(c)) == c
  {
    GroupsAreSixBits(0, c[0] - 0xE0, c[1] - 0x80, c[2] - 0x80);
  }

  lemma FourBytesHaveCode(c: seq<Byte>)
    requires IsChar(c) && |c| == 4
    ensures Scalar(CodeOf(c)) && Utf8(CodeOf(c)) == c
  {
    GroupsAreSixBits(c[0] - 0xF0, c[1] - 0x80, c[2] - 0x80, c[3] - 0x80);
  }

  lemma FewBytesHaveCode(c: seq<Byte>)
    requires IsChar(c) && |c| <= 2
    ensures Scalar(CodeOf(c)) && Utf8(CodeOf(c)) == c
  {
    if |c| == 2 { GroupsAreSixBits(0, 0, c[0] - 0xC0, c[1] - 0x80); }
  }

  /** And every well-formed character is what some such code is written as. */
  lemma CharHasCode(s: seq<Byte>)
    requires FirstChar(s) > 0
    ensures var c := s[..FirstChar(s)]; Scalar(CodeOf(c)) && Utf8(CodeOf(c)) == c
  {
    var c := s[..FirstChar(s)];
    FrontIsChar(s);
    CharLength(s);
    hide *;
    if |c| == 3 {
      ThreeBytesHaveCode(c);
    } else if |c| == 4 {
      FourBytesHaveCode(c);
    } else {
      FewBytesHaveCode(c);
    }
  }

  lemma CharLength(s: seq<Byte>)
    ensures FirstChar(s) <= 4
  {
  }

  /** The code that four hexadecimal digits spell. */
  function CodeOfDigits(d: seq<int>): int
    requires |d| == 4
  {
    ((d[0] * 16 + d[1]) * 16 + d[2]) * 16 + d[3]
  }

  function UnicodeEscape(d: seq<Digit>): seq<Byte>
    requires |d| == 4
  {
    [BACKSLASH, LETTER_U] + [RecordCodec.HexDigit(d[0]), RecordCodec.HexDigit(d[1])]
    + [RecordCodec.HexDigit(d[2]), RecordCodec.HexDigit(d[3])]
  }

  lemma ScanDigits(s: Scanner, d: seq<Digit>, lead: Option<LeadSurrogate>)
    requires s.InString? && |d| == 4
    ensures Scan(s.(mode := Hex([], lead)), [RecordCodec.HexDigit(d[0]), RecordCodec.HexDigit(d[1])])
         == s.(mode := Hex([d[0], d[1]], lead))
    ensures ScanByte(s.(mode := Hex([d[0], d[1]], lead)), RecordCodec.HexDigit(d[2]))
         == s.(mode := Hex([d[0], d[1], d[2]], lead))
    ensures HexValue(RecordCodec.HexDigit(d[3])) == Some(d[3])
  {
    assert HexValue(RecordCodec.HexDigit(d[0])) == Some(d[0]) && HexValue(RecordCodec.HexDigit(d[1])) == Some(d[1]);
    assert HexValue(RecordCodec.HexDigit(d[2])) == Some(d[2]) && HexValue(RecordCodec.HexDigit(d[3])) == Some(d[3]);
    ScanTwo(s.(mode := Hex([], lead)), RecordCodec.HexDigit(d[0]), RecordCodec.HexDigit(d[1]));
    assert [] + [d[0]] == [d[0]] && [d[0]] + [d[1]] == [d[0], d[1]];
    assert [d[0], d[1]] + [d[2]] == [d[0], d[1], d[2]];
  }

  lemma ScanUnicode(s: Scanner, d: seq<Digit>, lead: Option<LeadSurrogate>)
    requires s.InString? && |d| == 4
    requires s.mode == match lead case None => Plain case Some(l) => AwaitEscape(l)
    ensures Scan(s, UnicodeEscape(d))
         == ScanByte(s.(mode := Hex([d[0], d[1], d[2]], lead)), RecordCodec.HexDigit(d[3]))
    ensures HexValue(RecordCodec.HexDigit(d[3])) == Some(d[3])
  {
    var u := [BACKSLASH, LETTER_U];
    var front := [RecordCodec.HexDigit(d[0]), RecordCodec.HexDigit(d[1])];
    var back := [RecordCodec.HexDigit(d[2]), RecordCodec.HexDigit(d[3])];
    ScanDigits(s, d, lead);
    assert ScanByte(ScanByte(s, BACKSLASH), LETTER_U) == s.(mode := Hex([], lead));
    hide Scan;
    hide ScanByte;
    hide RecordCodec.HexDigit;
    ScanConcat(s, u + front, back);
    ScanConcat(s, u, front);
    ScanTwo(s, BACKSLASH, LETTER_U);
    ScanTwo(s.(mode := Hex([d[0], d[1]], lead)), RecordCodec.HexDigit(d[2]), RecordCodec.HexDigit(d[3]));
  }

  /** What the fourth digit of an escape completes. */
  lemma FourthDigit(s: Scanner, d: seq<Digit>)
    requires s.InString? && |d| == 4 && HexValue(RecordCodec.HexDigit(d[3])) == Some(d[3])
    ensures var code := CodeOfDigits(d);
            var t := ScanByte(s.(mode := Hex([d[0], d[1], d[2]], None)), RecordCodec.HexDigit(d[3]));
            && (Scalar(code) ==> t == s.(text := s.text + Utf8(code), mode := Plain))
            && (0xD800 <= code <= 0xDBFF ==> t == s.(mode := AwaitEscape(code)))
  {
    hide Utf8;
    hide RecordCodec.HexDigit;
    hide HexValue;
    hide ValidUtf8;
  }

  lemma FourthOfTrail(s: Scanner, lead: LeadSurrogate, d: seq<Digit>)
    requires s.InString? && |d| == 4 && HexValue(RecordCodec.HexDigit(d[3])) == Some(d[3])
    requires 0xDC00 <= CodeOfDigits(d) <= 0xDFFF
    ensures var code := 0x10000 + (lead - 0xD800) * 0x400 + (CodeOfDigits(d) - 0xDC00);
            && Scalar(code)
            && ScanByte(s.(mode := Hex([d[0], d[1], d[2]], Some(lead))), RecordCodec.HexDigit(d[3]))
            == s.(text := s.text + Utf8(code), mode := Plain)
  {
    hide Utf8;
    hide RecordCodec.HexDigit;
    hide HexValue;
    hide ValidUtf8;
  }

  /** An escape by number is read as the character of that code. */
  lemma EscapedCode(s: Scanner, d: seq<Digit>)
    requires s.InString? && s.mode.Plain? && |d| == 4 && Scalar(CodeOfDigits(d))
    ensures Scan(s, UnicodeEscape(d)) == s.(text := s.text + Utf8(CodeOfDigits(d)))
  {
    hide *;
    ScanUnicode(s, d, None);
    FourthDigit(s, d);
  }

  /** A leading and a trailing surrogate are read as the one character beyond the basic plane they stand for. */
  lemma EscapedPair(s: Scanner, d: seq<Digit>, e: seq<Digit>)
    requires s.InString? && s.mode.Plain? && |d| == |e| == 4
    requires 0xD800 <= CodeOfDigits(d) <= 0xDBFF && 0xDC00 <= CodeOfDigits(e) <= 0xDFFF
    ensures var code := 0x10000 + (CodeOfDigits(d) - 0xD800) * 0x400 + (CodeOfDigits(e) - 0xDC00);
            Scalar(code) && Scan(s, UnicodeEscape(d) + UnicodeEscape(e)) == s.(text := s.text + Utf8(code))
  {
    hide *;
    var lead: LeadSurrogate := CodeOfDigits(d);
    var waiting := s.(mode := AwaitEscape(lead));
    ScanUnicode(s, d, None);
    FourthDigit(s, d);
    ScanConcat(s, UnicodeEscape(d), UnicodeEscape(e));
    ScanUnicode(waiting, e, Some(lead));
    FourthOfTrail(s, lead, e);
  }
}
