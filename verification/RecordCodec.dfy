/**
  The log record: one event as one JSON object of string members (sections 4 and 7 of
  RFC 8259). Encoding follows the writer's member order and escapes; decoding is a
  byte-at-a-time scanner over the grammar followed by the tag and field rules.
 */
module RecordCodec {
  import opened Options
  import opened Texts
  import opened GateModel
  import opened Replay

  const QUOTE: Byte := 0x22
  const BACKSLASH: Byte := 0x5C
  const OPEN: Byte := 0x7B
  const CLOSE: Byte := 0x7D
  const COLON: Byte := 0x3A
  const COMMA: Byte := 0x2C
  const LETTER_U: Byte := 0x75

  type Members = seq<(Text, Text)>
  type Digit = x: int | 0 <= x < 16
  type LeadSurrogate = x: int | 0xD800 <= x <= 0xDBFF witness 0xD800

  function Name(s: string): (t: Text)
    requires forall i :: 0 <= i < |s| ==> s[i] as int < 0x80
    ensures t == Ascii(s)
  {
    AsciiIsUtf8(Ascii(s));
    Ascii(s)
  }

  const EV := Name("ev")
  const RUN_ID := Name("run_id")
  const EFFECT_KEY := Name("effect_key")
  const RELEASED := Name("released")
  const REJECTED := Name("rejected")
  const CANCELLED := Name("cancelled")
  const CLOSED := Name("closed")

  // ---- Encoding ----

  function HexDigit(d: Digit): Byte { if d < 10 then 0x30 + d else 0x61 + d - 10 }

  function EscapeByte(b: Byte): seq<Byte> {
    if b == QUOTE || b == BACKSLASH then [BACKSLASH, b]
    else if b == 0x08 then [BACKSLASH, 0x62]
    else if b == 0x09 then [BACKSLASH, 0x74]
    else if b == 0x0A then [BACKSLASH, 0x6E]
    else if b == 0x0C then [BACKSLASH, 0x66]
    else if b == 0x0D then [BACKSLASH, 0x72]
    else if b < 0x20 then [BACKSLASH, LETTER_U, 0x30, 0x30, HexDigit(b / 16), HexDigit(b % 16)]
    else [b]
  }

  function Escape(t: seq<Byte>): seq<Byte> {
    if t == [] then [] else EscapeByte(t[0]) + Escape(t[1..])
  }

  function Quote(t: Text): seq<Byte> { [QUOTE] + Escape(t) + [QUOTE] }

  function EncodeMember(m: (Text, Text)): seq<Byte> { Quote(m.0) + [COLON] + Quote(m.1) }

  function EncodeMembers(ms: Members): seq<Byte> {
    if ms == [] then []
    else if |ms| == 1 then EncodeMember(ms[0])
    else EncodeMembers(ms[..|ms| - 1]) + [COMMA] + EncodeMember(ms[|ms| - 1])
  }

  function MembersOf(ev: Event): Members {
    match ev
    case Released(id) => [(EV, RELEASED), (RUN_ID, id.0), (EFFECT_KEY, id.1)]
    case Rejected(id) => [(EV, REJECTED), (RUN_ID, id.0), (EFFECT_KEY, id.1)]
    case Cancelled(r) => [(EV, CANCELLED), (RUN_ID, r)]
    case Closed(r) => [(EV, CLOSED), (RUN_ID, r)]
  }

  function EncodeObject(ms: Members): seq<Byte> { [OPEN] + EncodeMembers(ms) + [CLOSE] }

  function Encode(ev: Event): seq<Byte> { EncodeObject(MembersOf(ev)) }

  // ---- Scanning ----

  /** Where the scanner stands inside a string. */
  datatype Mode =
    | Plain
    | AfterBackslash
    | Hex(digits: seq<Digit>, lead: Option<LeadSurrogate>)
    | AwaitEscape(surrogate: LeadSurrogate)   // a leading surrogate needs `\u` and a trailing one
    | AwaitU(surrogate: LeadSurrogate)

  datatype Scanner =
    | Before                             // nothing but white space so far
    | First(ms: Members)                 // after the opening brace
    | Next(ms: Members)                  // after a comma
    | InString(ms: Members, key: Option<Text>, text: seq<Byte>, mode: Mode)
    | AwaitColon(ms: Members, name: Text)
    | AwaitValue(ms: Members, name: Text)
    | AfterValue(ms: Members)
    | Done(ms: Members)
    | Refused

  predicate Blank(b: Byte) { b == 0x20 || b == 0x09 || b == 0x0A || b == 0x0D }

  function HexValue(b: Byte): Option<Digit> {
    if 0x30 <= b <= 0x39 then Some(b - 0x30)
    else if 0x61 <= b <= 0x66 then Some(b - 0x61 + 10)
    else if 0x41 <= b <= 0x46 then Some(b - 0x41 + 10)
    else None
  }

  function ShortEscape(b: Byte): Option<Byte> {
    if b == QUOTE || b == BACKSLASH || b == 0x2F then Some(b)
    else if b == 0x62 then Some(0x08)
    else if b == 0x74 then Some(0x09)
    else if b == 0x6E then Some(0x0A)
    else if b == 0x66 then Some(0x0C)
    else if b == 0x72 then Some(0x0D)
    else None
  }

  function Utf8(code: int): seq<Byte>
    requires 0 <= code < 0x110000
  {
    if code < 0x80 then [code]
    else if code < 0x800 then [0xC0 + code / 0x40, 0x80 + code % 0x40]
    else if code < 0x10000 then [0xE0 + code / 0x1000, 0x80 + code / 0x40 % 0x40, 0x80 + code % 0x40]
    else [0xF0 + code / 0x40000, 0x80 + code / 0x1000 % 0x40, 0x80 + code / 0x40 % 0x40, 0x80 + code % 0x40]
  }

  function ScanHex(s: Scanner, b: Byte): Scanner
    requires s.InString? && s.mode.Hex?
  {
    var digit := HexValue(b);
    if digit.None? then Refused
    else if |s.mode.digits| != 3 then s.(mode := Hex(s.mode.digits + [digit.value], s.mode.lead))
    else
      var ds := s.mode.digits;
      var code := ds[0] * 0x1000 + ds[1] * 0x100 + ds[2] * 0x10 + digit.value;
      if s.mode.lead.Some? then
        if 0xDC00 <= code <= 0xDFFF then
          s.(text := s.text + Utf8(0x10000 + (s.mode.lead.value - 0xD800) * 0x400 + (code - 0xDC00)), mode := Plain)
        else Refused
      else if 0xD800 <= code <= 0xDBFF then s.(mode := AwaitEscape(code))
      else if 0xDC00 <= code <= 0xDFFF then Refused
      else s.(text := s.text + Utf8(code), mode := Plain)
  }

  function ScanString(s: Scanner, b: Byte): Scanner
    requires s.InString?
  {
    match s.mode
    case Plain =>
      if b == QUOTE then
        if !ValidUtf8(s.text) then Refused
        else if s.key.None? then AwaitColon(s.ms, s.text)
        else AfterValue(s.ms + [(s.key.value, s.text)])
      else if b == BACKSLASH then s.(mode := AfterBackslash)
      else if b < 0x20 then Refused
      else s.(text := s.text + [b])
    case AfterBackslash =>
      if b == LETTER_U then s.(mode := Hex([], None))
      else if ShortEscape(b).Some? then s.(text := s.text + [ShortEscape(b).value], mode := Plain)
      else Refused
    case Hex(_, _) => ScanHex(s, b)
    case AwaitEscape(lead) => if b == BACKSLASH then s.(mode := AwaitU(lead)) else Refused
    case AwaitU(lead) => if b == LETTER_U then s.(mode := Hex([], Some(lead))) else Refused
  }

  function ScanByte(s: Scanner, b: Byte): Scanner {
    if s.InString? then ScanString(s, b)
    else if s.Refused? || Blank(b) then s
    else match s
      case Before => if b == OPEN then First([]) else Refused
      case First(ms) =>
        if b == QUOTE then InString(ms, None, [], Plain) else if b == CLOSE then Done(ms) else Refused
      case Next(ms) => if b == QUOTE then InString(ms, None, [], Plain) else Refused
      case AwaitColon(ms, key) => if b == COLON then AwaitValue(ms, key) else Refused
      case AwaitValue(ms, key) => if b == QUOTE then InString(ms, Some(key), [], Plain) else Refused
      case AfterValue(ms) => if b == COMMA then Next(ms) else if b == CLOSE then Done(ms) else Refused
      case _ => Refused
  }

  function Scan(s: Scanner, bytes: seq<Byte>): Scanner
    decreases |bytes|
  {
    if bytes == [] then s else Scan(ScanByte(s, bytes[0]), bytes[1..])
  }

  // ---- Reading an event from the members ----

  function Count(ms: Members, name: Text): nat {
    if ms == [] then 0 else Count(ms[..|ms| - 1], name) + (if ms[|ms| - 1].0 == name then 1 else 0)
  }

  function Lookup(ms: Members, name: Text): Option<Text> {
    if ms == [] then None
    else if ms[|ms| - 1].0 == name then Some(ms[|ms| - 1].1)
    else Lookup(ms[..|ms| - 1], name)
  }

  /** The value of a field; a missing or repeated field is an error. */
  function Field(ms: Members, name: Text): Option<Text> {
    if Count(ms, name) == 1 then Lookup(ms, name) else None
  }

  /** Unknown members are ignored. */
  function EventOf(ms: Members): Option<Event> {
    var tag, run, key := Field(ms, EV), Field(ms, RUN_ID), Field(ms, EFFECT_KEY);
    if tag.None? || run.None? then None
    else if tag.value == CANCELLED then Some(Event.Cancelled(run.value))
    else if tag.value == CLOSED then Some(Event.Closed(run.value))
    else if key.None? then None
    else if tag.value == RELEASED then Some(Event.Released((run.value, key.value)))
    else if tag.value == REJECTED then Some(Event.Rejected((run.value, key.value)))
    else None
  }

  function Decode(line: seq<Byte>): Option<Event> {
    var s := Scan(Before, line);
    if s.Done? then EventOf(s.ms) else None
  }

  // ---- Facts about the codec ----

  lemma {:induction false} ScanConcat(s: Scanner, a: seq<Byte>, b: seq<Byte>)
    ensures Scan(s, a + b) == Scan(Scan(s, a), b)
    decreases |a|
  {
    if a == [] {
      assert a + b == b;
    } else {
      assert (a + b)[1..] == a[1..] + b;
      ScanConcat(ScanByte(s, a[0]), a[1..], b);
    }
  }

  lemma ScanOne(s: Scanner, b: Byte)
    ensures Scan(s, [b]) == ScanByte(s, b)
  {
    assert Scan(ScanByte(s, b), [b][1..]) == ScanByte(s, b);
  }

  lemma ScanTwo(s: Scanner, a: Byte, b: Byte)
    ensures Scan(s, [a, b]) == ScanByte(ScanByte(s, a), b)
  {
    ScanConcat(s, [a], [b]);
    ScanOne(s, a);
    ScanOne(ScanByte(s, a), b);
    assert [a] + [b] == [a, b];
  }

  lemma ScanDigit(s: Scanner, digits: seq<Digit>, d: Digit)
    requires s.InString? && |digits| < 3
    ensures ScanByte(s.(mode := Hex(digits, None)), HexDigit(d)) == s.(mode := Hex(digits + [d], None))
  {
    assert HexValue(HexDigit(d)) == Some(d);
  }

  lemma ScanLastDigit(s: Scanner, high: Digit, low: Digit)
    requires s.InString? && high < 2
    ensures ScanByte(s.(mode := Hex([0, 0, high], None)), HexDigit(low))
         == s.(text := s.text + [high * 16 + low], mode := Plain)
  {
    assert HexValue(HexDigit(low)) == Some(low);
  }

  lemma ScanFourDigits(s: Scanner, high: Digit, low: Digit)
    requires s.InString? && s.mode.Plain? && high < 2
    ensures Scan(s, [BACKSLASH, LETTER_U] + [0x30, 0x30] + [HexDigit(high), HexDigit(low)])
         == s.(text := s.text + [high * 16 + low])
  {
    var u := [BACKSLASH, LETTER_U];
    var zeros: seq<Byte> := [0x30, 0x30];
    var rest := [HexDigit(high), HexDigit(low)];
    assert ScanByte(ScanByte(s, BACKSLASH), LETTER_U) == s.(mode := Hex([], None));
    assert HexDigit(0) == 0x30;
    hide ScanByte;
    hide Scan;
    hide HexDigit;
    ScanConcat(s, u + zeros, rest);
    ScanConcat(s, u, zeros);
    ScanTwo(s, BACKSLASH, LETTER_U);
    ScanTwo(s.(mode := Hex([], None)), 0x30, 0x30);
    ScanDigit(s, [], 0);
    ScanDigit(s, [0], 0);
    assert [] + [0] == [0] && [0] + [0] == [0, 0] && [0, 0] + [high] == [0, 0, high];
    ScanTwo(s.(mode := Hex([0, 0], None)), rest[0], rest[1]);
    ScanDigit(s, [0, 0], high);
    ScanLastDigit(s, high, low);
  }

  /** A four-digit escape below 0x20 yields its byte. */
  lemma ScanControl(s: Scanner, b: Byte)
    requires s.InString? && s.mode.Plain? && b < 0x20
    ensures Scan(s, [BACKSLASH, LETTER_U] + [0x30, 0x30] + [HexDigit(b / 16), HexDigit(b % 16)])
         == s.(text := s.text + [b])
  {
    hide Scan;
    hide HexDigit;
    ScanFourDigits(s, b / 16, b % 16);
  }

  lemma ScanPlainByte(s: Scanner, b: Byte)
    requires s.InString? && s.mode.Plain? && EscapeByte(b) == [b]
    ensures Scan(s, [b]) == s.(text := s.text + [b])
  {
    ScanOne(s, b);
  }

  lemma ScanShortEscape(s: Scanner, letter: Byte, b: Byte)
    requires s.InString? && s.mode.Plain? && ShortEscape(letter) == Some(b)
    ensures Scan(s, [BACKSLASH, letter]) == s.(text := s.text + [b])
  {
    ScanTwo(s, BACKSLASH, letter);
  }

  lemma ScanEscapeByte(s: Scanner, b: Byte)
    requires s.InString? && s.mode.Plain?
    ensures Scan(s, EscapeByte(b)) == s.(text := s.text + [b])
  {
    hide Scan;
    hide HexDigit;
    var e := EscapeByte(b);
    if |e| == 1 {
      ScanPlainByte(s, b);
    } else if |e| == 2 {
      ScanShortEscape(s, e[1], b);
    } else {
      ScanControl(s, b);
      assert e == [BACKSLASH, LETTER_U] + [0x30, 0x30] + [HexDigit(b / 16), HexDigit(b % 16)];
    }
  }

  lemma {:induction false} ScanEscape(s: Scanner, t: seq<Byte>)
    requires s.InString? && s.mode.Plain?
    ensures Scan(s, Escape(t)) == s.(text := s.text + t)
    decreases |t|
  {
    if t == [] {
      assert s.text + t == s.text;
    } else {
      ScanEscapeByte(s, t[0]);
      ScanConcat(s, EscapeByte(t[0]), Escape(t[1..]));
      ScanEscape(s.(text := s.text + [t[0]]), t[1..]);
      assert s.text + [t[0]] + t[1..] == s.text + t;
    }
  }

  lemma ScanQuote(s: Scanner, t: Text)
    requires ScanByte(s, QUOTE).InString? && !s.InString?
    ensures Scan(s, Quote(t)) == ScanByte(ScanByte(s, QUOTE).(text := t), QUOTE)
  {
    var s1 := ScanByte(s, QUOTE);
    ScanConcat(s, [QUOTE] + Escape(t), [QUOTE]);
    ScanConcat(s, [QUOTE], Escape(t));
    ScanOne(s, QUOTE);
    ScanEscape(s1, t);
    assert s1.text + t == t;
    ScanOne(s1.(text := t), QUOTE);
  }

  lemma ScanMember(s: Scanner, m: (Text, Text))
    requires s.First? || s.Next?
    ensures Scan(s, EncodeMember(m)) == AfterValue(s.ms + [m])
  {
    ScanConcat(s, Quote(m.0) + [COLON], Quote(m.1));
    ScanConcat(s, Quote(m.0), [COLON]);
    ScanQuote(s, m.0);
    ScanOne(AwaitColon(s.ms, m.0), COLON);
    ScanQuote(AwaitValue(s.ms, m.0), m.1);
  }

  lemma ScanOneMore(s: Scanner, before: seq<Byte>, ms: Members, m: (Text, Text))
    requires Scan(s, before) == AfterValue(ms)
    ensures Scan(s, before + [COMMA] + EncodeMember(m)) == AfterValue(ms + [m])
  {
    hide EncodeMember;
    ScanConcat(s, before + [COMMA], EncodeMember(m));
    ScanConcat(s, before, [COMMA]);
    ScanOne(AfterValue(ms), COMMA);
    ScanMember(Next(ms), m);
  }

  lemma {:induction false} ScanMembers(ms: Members)
    requires ms != []
    ensures Scan(First([]), EncodeMembers(ms)) == AfterValue(ms)
    decreases |ms|
  {
    hide EncodeMember;
    hide Scan;
    if |ms| == 1 {
      ScanMember(First([]), ms[0]);
      assert [] + [ms[0]] == ms;
    } else {
      var m := |ms| - 1;
      ScanMembers(ms[..m]);
      ScanOneMore(First([]), EncodeMembers(ms[..m]), ms[..m], ms[m]);
      assert ms[..m] + [ms[m]] == ms;
    }
  }

  lemma ScanObject(ms: Members)
    requires ms != []
    ensures Scan(Before, EncodeObject(ms)) == Done(ms)
  {
    ScanConcat(Before, [OPEN] + EncodeMembers(ms), [CLOSE]);
    ScanConcat(Before, [OPEN], EncodeMembers(ms));
    ScanOne(Before, OPEN);
    ScanMembers(ms);
    ScanOne(AfterValue(ms), CLOSE);
  }

  lemma NamesDiffer()
    ensures EV != RUN_ID && EV != EFFECT_KEY && RUN_ID != EFFECT_KEY
    ensures RELEASED != REJECTED && RELEASED != CANCELLED && RELEASED != CLOSED
    ensures REJECTED != CANCELLED && REJECTED != CLOSED && CANCELLED != CLOSED
  {
    hide ValidUtf8;
    assert RELEASED[2] == 'l' as int && REJECTED[2] == 'j' as int;
    assert |EV| == 2 && |RUN_ID| == 6 && |EFFECT_KEY| == 10;
    assert |RELEASED| == 8 && |REJECTED| == 8 && |CANCELLED| == 9 && |CLOSED| == 6;
  }

  lemma FieldsOfTwo(ms: Members)
    requires |ms| == 2 && ms[0].0 == EV && ms[1].0 == RUN_ID
    ensures Field(ms, EV) == Some(ms[0].1) && Field(ms, RUN_ID) == Some(ms[1].1)
  {
    NamesDiffer();
    assert Count(ms[..1], EV) == 1 && Count(ms[..1], RUN_ID) == 0;
    assert Lookup(ms[..1], EV) == Some(ms[0].1);
  }

  lemma FieldsOfThree(ms: Members)
    requires |ms| == 3 && ms[0].0 == EV && ms[1].0 == RUN_ID && ms[2].0 == EFFECT_KEY
    ensures Field(ms, EV) == Some(ms[0].1) && Field(ms, RUN_ID) == Some(ms[1].1)
    ensures Field(ms, EFFECT_KEY) == Some(ms[2].1)
  {
    NamesDiffer();
    FieldsOfTwo(ms[..2]);
    assert Count(ms[..2][..1], EFFECT_KEY) == 0;
    assert Count(ms[..2], EFFECT_KEY) == 0;
  }

  lemma EventOfMembers(ev: Event)
    ensures EventOf(MembersOf(ev)) == Some(ev)
  {
    NamesDiffer();
    var ms := MembersOf(ev);
    if |ms| == 2 { FieldsOfTwo(ms); } else { FieldsOfThree(ms); }
    match ev {
      case Released(id) => assert ms[0].1 == RELEASED && (ms[1].1, ms[2].1) == id;
      case Rejected(id) => assert ms[0].1 == REJECTED && (ms[1].1, ms[2].1) == id;
      case Cancelled(r) => assert ms[0].1 == CANCELLED && ms[1].1 == r;
      case Closed(r) => assert ms[0].1 == CLOSED && ms[1].1 == r;
    }
  }

  /** Every record reads back as the event it was written for. */
  lemma RoundTrip(ev: Event)
    ensures Decode(Encode(ev)) == Some(ev)
  {
    ScanObject(MembersOf(ev));
    EventOfMembers(ev);
  }

  predicate Printable(bytes: seq<Byte>) { forall i :: 0 <= i < |bytes| ==> bytes[i] >= 0x20 }

  lemma {:induction false} EscapePrintable(t: seq<Byte>)
    ensures Printable(Escape(t))
    decreases |t|
  {
    if t != [] { EscapePrintable(t[1..]); }
  }

  lemma MemberPrintable(m: (Text, Text))
    ensures Printable(EncodeMember(m))
  {
    EscapePrintable(m.0);
    EscapePrintable(m.1);
  }

  lemma {:induction false} MembersPrintable(ms: Members)
    ensures Printable(EncodeMembers(ms))
    decreases |ms|
  {
    if ms != [] {
      MembersPrintable(ms[..|ms| - 1]);
      MemberPrintable(ms[|ms| - 1]);
    }
  }

  lemma ObjectPrintable(ms: Members)
    ensures Printable(EncodeObject(ms)) && NEWLINE !in EncodeObject(ms)
  {
    MembersPrintable(ms);
  }

  /** A record has no control byte, so no newline, in it: one line is one record. */
  lemma OneLine(ev: Event)
    ensures Printable(Encode(ev)) && NEWLINE !in Encode(ev)
  {
    ObjectPrintable(MembersOf(ev));
  }

  lemma {:induction false} RefusedStays(bytes: seq<Byte>)
    ensures Scan(Refused, bytes) == Refused
    decreases |bytes|
  {
    if bytes != [] { RefusedStays(bytes[1..]); }
  }

  lemma {:induction false} DoneStays(ms: Members, bytes: seq<Byte>)
    ensures Scan(Done(ms), bytes) == if forall b <- bytes :: Blank(b) then Done(ms) else Refused
    decreases |bytes|
  {
    if bytes != [] {
      assert bytes == [bytes[0]] + bytes[1..];
      if Blank(bytes[0]) {
        DoneStays(ms, bytes[1..]);
      } else {
        RefusedStays(bytes[1..]);
      }
    }
  }

  lemma CutObjectIsOpen(line: seq<Byte>, cut: nat)
    requires cut < |line| && line[|line| - 1] == CLOSE && Scan(Before, line).Done?
    ensures !Scan(Before, line[..cut]).Done?
  {
    var rest := line[cut..];
    ScanConcat(Before, line[..cut], rest);
    assert line == line[..cut] + rest;
    assert rest[|rest| - 1] == CLOSE && !Blank(CLOSE);
    var s := Scan(Before, line[..cut]);
    if s.Done? {
      DoneStays(s.ms, rest);
    }
  }

  /** No proper prefix of a record is a record. */
  lemma NoProperPrefixParses(ev: Event, cut: nat)
    requires cut < |Encode(ev)|
    ensures Decode(Encode(ev)[..cut]) == None
  {
    ScanObject(MembersOf(ev));
    CutObjectIsOpen(EncodeObject(MembersOf(ev)), cut);
  }

  lemma {:induction false} StillBefore(bytes: seq<Byte>)
    requires Scan(Before, bytes) == Before
    ensures forall b <- bytes :: Blank(b)
    decreases |bytes|
  {
    if bytes != [] {
      assert bytes == [bytes[0]] + bytes[1..];
      if !Blank(bytes[0]) { LeftBehind(ScanByte(Before, bytes[0]), bytes[1..]); }
      StillBefore(bytes[1..]);
    }
  }

  lemma {:induction false} LeftBehind(s: Scanner, bytes: seq<Byte>)
    requires s != Before
    ensures Scan(s, bytes) != Before
    decreases |bytes|
  {
    if bytes != [] { LeftBehind(ScanByte(s, bytes[0]), bytes[1..]); }
  }

  /** From anywhere but the very start, `{"e` can only be refused. */
  lemma RecordStartRefused(s: Scanner)
    requires s != Before
    ensures ScanByte(ScanByte(ScanByte(s, OPEN), QUOTE), 0x65) == Refused
  {
  }

  /**
    A record appended to the same line as anything but blanks is refused: it is never
    skipped and never misread, whatever fragment or record comes first.
   */
  lemma MergedLineRefused(torn: seq<Byte>, ev: Event)
    requires exists b <- torn :: !Blank(b)
    ensures Decode(torn + Encode(ev)) == None
  {
    var line := Encode(ev);
    ScanConcat(Before, torn, line);
    var s := Scan(Before, torn);
    if s == Before { StillBefore(torn); }
    RecordStartRefused(s);
    StartsWithTag(ev);
    var s1 := ScanByte(s, OPEN);
    var s2 := ScanByte(s1, QUOTE);
    assert line[1..][1..][1..] == line[3..];
    assert Scan(s, line) == Scan(s1, line[1..]);
    assert Scan(s1, line[1..]) == Scan(s2, line[1..][1..]);
    assert Scan(s2, line[1..][1..]) == Scan(ScanByte(s2, 0x65), line[3..]);
    RefusedStays(line[3..]);
  }

  lemma {:induction false} EncodeMembersFront(ms: Members)
    requires ms != []
    ensures EncodeMember(ms[0]) <= EncodeMembers(ms)
    decreases |ms|
  {
    if |ms| > 1 { EncodeMembersFront(ms[..|ms| - 1]); }
  }

  lemma QuoteFront(t: Text)
    requires t != [] && EscapeByte(t[0]) == [t[0]]
    ensures |Quote(t)| > 2 && Quote(t)[0] == QUOTE && Quote(t)[1] == t[0]
  {
    assert Escape(t) == [t[0]] + Escape(t[1..]);
  }

  lemma ObjectFront(ms: Members)
    requires ms != [] && ms[0].0 != [] && EscapeByte(ms[0].0[0]) == [ms[0].0[0]]
    ensures var line := EncodeObject(ms);
            |line| > 3 && line[0] == OPEN && line[1] == QUOTE && line[2] == ms[0].0[0]
  {
    EncodeMembersFront(ms);
    QuoteFront(ms[0].0);
    var member := EncodeMember(ms[0]);
    assert EncodeMembers(ms)[..|member|] == member;
  }

  lemma TaggedFront(ms: Members)
    requires ms != [] && ms[0].0 == EV
    ensures var line := EncodeObject(ms); |line| > 3 && line[0] == OPEN && line[1] == QUOTE && line[2] == 0x65
  {
    assert EV[0] == 'e' as int;
    ObjectFront(ms);
  }

  lemma StartsWithTag(ev: Event)
    ensures |Encode(ev)| > 3
    ensures Encode(ev)[0] == OPEN && Encode(ev)[1] == QUOTE && Encode(ev)[2] == 0x65
  {
    TaggedFront(MembersOf(ev));
  }
}
