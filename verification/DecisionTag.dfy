/**
  Authenticated decisions: HMAC-SHA256 (section 2 of RFC 2104), the tag over an approval
  decision, and its comparison.
 */
module DecisionTag {
  import opened Texts
  import opened Sha256

  const BLOCK: nat := 64

  // ---- HMAC ----

  /** The key brought to the block length: hashed first if it is longer. */
  function BlockKey(key: seq<Octet>): (k: seq<Octet>)
    ensures |k| == BLOCK
  {
    var short := if |key| > BLOCK then Digest(key) else key;
    short + Zeros(BLOCK - |short|)
  }

  function XorOctet(a: Octet, b: Octet): Octet { a ^ b }

  function Xor(a: seq<Octet>, b: Octet): (x: seq<Octet>)
    ensures |x| == |a| && forall i :: 0 <= i < |a| ==> x[i] == XorOctet(b, a[i])
  {
    seq(|a|, i requires 0 <= i < |a| => XorOctet(b, a[i]))
  }

  function Hmac(key: seq<Octet>, text: seq<Octet>): (mac: seq<Octet>)
    ensures |mac| == 32
  {
    var k := BlockKey(key);
    Digest(Xor(k, 0x5c) + Digest(Xor(k, 0x36) + text))
  }

  /** Byte `i` of the key brought to the block length. */
  function KeyByte(key: seq<Octet>, i: nat): Octet {
    if |key| > 64 then (if i < 32 then Digest(key)[i] else 0) else (if i < |key| then key[i] else 0)
  }

  /** The inner pad is the key with 0x36, the outer with 0x5c, byte by byte, and the text goes inside. */
  lemma HmacByPads(key: seq<Octet>, text: seq<Octet>, inner: seq<Octet>, outer: seq<Octet>)
    requires |inner| == |outer| == 64
    requires forall i :: 0 <= i < 64 ==> inner[i] == KeyByte(key, i) ^ 0x36 && outer[i] == KeyByte(key, i) ^ 0x5c
    ensures Hmac(key, text) == Digest(outer + Digest(inner + text))
  {
    hide Digest;
    var k := BlockKey(key);
    assert forall i :: 0 <= i < 64 ==> k[i] == KeyByte(key, i);
    assert Xor(k, 0x36) == inner;
    assert Xor(k, 0x5c) == outer;
  }

  /** The hash of two pieces taken one after the other. */
  method HashTwo(a: seq<Octet>, b: seq<Octet>) returns (digest: seq<Octet>)
    ensures digest == Digest(a + b)
  {
    hide Digest;
    hide Hasher.Buffered;
    var s := new Hasher();
    s.Update(a);
    s.Update(b);
    assert [] + a + b == a + b;
    digest := s.Finish();
  }

  method KeyBlock(key: seq<Octet>) returns (k: array<Octet>)
    ensures fresh(k) && k[..] == BlockKey(key)
  {
    hide Digest;
    k := new Octet[BLOCK](i => 0);
    var short := key;
    if |key| > BLOCK { short := Hash(key); }
    forall i | 0 <= i < |short| { k[i] := short[i]; }
    assert k[..] == short + Zeros(BLOCK - |short|);
  }

  method Pads(k: array<Octet>) returns (ipad: seq<Octet>, opad: seq<Octet>)
    requires k.Length == BLOCK
    ensures ipad == Xor(k[..], 0x36) && opad == Xor(k[..], 0x5c)
  {
    hide XorOctet;
    var inner := new Octet[BLOCK](i => 0x36);
    var outer := new Octet[BLOCK](i => 0x5c);
    for i := 0 to BLOCK
      invariant k[..] == old(k[..])
      invariant forall j :: 0 <= j < i ==> inner[j] == XorOctet(0x36, k[j]) && outer[j] == XorOctet(0x5c, k[j])
      invariant forall j :: i <= j < BLOCK ==> inner[j] == 0x36 && outer[j] == 0x5c
    {
      inner[i] := XorOctet(inner[i], k[i]);
      outer[i] := XorOctet(outer[i], k[i]);
    }
    ipad, opad := inner[..], outer[..];
    assert ipad == Xor(k[..], 0x36) && opad == Xor(k[..], 0x5c);
  }

  method HmacSha256(key: seq<Octet>, msg: seq<Octet>) returns (mac: seq<Octet>)
    ensures mac == Hmac(key, msg)
  {
    hide Digest;
    hide Xor;
    var k := KeyBlock(key);
    var ipad, opad := Pads(k);
    var inner := HashTwo(ipad, msg);
    mac := HashTwo(opad, inner);
  }

  // ---- The tagged message ----

  function Message(run: Text, key: Text, approved: bool): seq<Byte> {
    run + [NEWLINE] + key + [NEWLINE] + [if approved then 0x31 else 0x30]
  }

  /** Run, newline, key, newline, and `1` for an approval or `0` for a rejection. */
  lemma MessageBytes(run: Text, key: Text, approved: bool)
    ensures Message(run, key, approved) == run + Ascii("\n") + key + Ascii(if approved then "\n1" else "\n0")
  {
  }

  lemma NoneBefore(b: seq<Byte>, y: seq<Byte>)
    requires NEWLINE !in b
    ensures forall i :: 0 <= i < |b| ==> (b + [NEWLINE] + y)[i] != NEWLINE
    ensures NEWLINE !in y ==> forall i :: |b| < i < |b| + 1 + |y| ==> (b + [NEWLINE] + y)[i] != NEWLINE
  {
    var s := b + [NEWLINE] + y;
    forall i | 0 <= i < |b| ensures s[i] != NEWLINE { assert s[i] == b[i] && b[i] in b; }
    forall i | |b| < i < |s| ensures s[i] == y[i - |b| - 1] && s[i] in y { assert y[i - |b| - 1] in y; }
  }

  lemma NotShorter(a: seq<Byte>, b: seq<Byte>, x: seq<Byte>, y: seq<Byte>)
    requires NEWLINE !in b && a + [NEWLINE] + x == b + [NEWLINE] + y
    ensures |a| >= |b|
  {
    NoneBefore(b, y);
    assert (a + [NEWLINE] + x)[|a|] == NEWLINE;
  }

  lemma SameLength(a: seq<Byte>, b: seq<Byte>, x: seq<Byte>, y: seq<Byte>)
    requires |a| == |b| && a + [NEWLINE] + x == b + [NEWLINE] + y
    ensures a == b && x == y
  {
    var s, t := a + [NEWLINE] + x, b + [NEWLINE] + y;
    assert a == s[..|a|] == t[..|b|] == b;
    assert x == s[|a| + 1..] == t[|b| + 1..] == y;
  }

  lemma FirstNewline(a: seq<Byte>, b: seq<Byte>, x: seq<Byte>, y: seq<Byte>)
    requires NEWLINE !in a && NEWLINE !in b && a + [NEWLINE] + x == b + [NEWLINE] + y
    ensures a == b && x == y
  {
    NotShorter(a, b, x, y);
    NotShorter(b, a, y, x);
    SameLength(a, b, x, y);
  }

  lemma MessageParts(run: Text, key: Text, approved: bool, run': Text, key': Text, approved': bool)
    requires Message(run, key, approved) == Message(run', key', approved')
    ensures approved == approved' && run + [NEWLINE] + key == run' + [NEWLINE] + key'
  {
    var m, m' := Message(run, key, approved), Message(run', key', approved');
    assert m[|m| - 1] == m'[|m'| - 1];
    assert m[..|m| - 2] == run + [NEWLINE] + key;
    assert m'[..|m'| - 2] == run' + [NEWLINE] + key';
  }

  /** Among run ids without a newline the message determines run, key and decision. */
  lemma MessageDetermines(run: Text, key: Text, approved: bool, run': Text, key': Text, approved': bool)
    requires NEWLINE !in run && NEWLINE !in run'
    requires Message(run, key, approved) == Message(run', key', approved')
    ensures run == run' && key == key' && approved == approved'
  {
    MessageParts(run, key, approved, run', key', approved');
    FirstNewline(run, run', key, key');
  }

  /** No other run, key and decision at all has this message. */
  ghost predicate MessageIsUnique(run: Text, key: Text, approved: bool) {
    forall run': Text, key': Text, approved' ::
      Message(run', key', approved') == Message(run, key, approved) ==>
        run' == run && key' == key && approved' == approved
  }

  lemma OnlyNewline(run: Text, key: Text, run': Text, key': Text)
    requires NEWLINE !in run && NEWLINE !in key
    requires run + [NEWLINE] + key == run' + [NEWLINE] + key'
    ensures run' == run && key' == key
  {
    NoneBefore(run, key);
    assert (run' + [NEWLINE] + key')[|run'|] == NEWLINE;
    SameLength(run, run', key, key');
  }

  /** What follows a newline in a text is a text. */
  lemma AfterNewline(t: Text, i: nat)
    requires i < |t| && t[i] == NEWLINE
    ensures ValidUtf8(t[..i]) && ValidUtf8(t[i + 1..]) && t == t[..i] + [NEWLINE] + t[i + 1..]
  {
    CutAtAscii(t, i);
    var tail := t[i..];
    assert FirstChar(tail) == 1 && tail[1..] == t[i + 1..];
  }

  lemma JoinedIsText(a: Text, b: Text)
    ensures ValidUtf8(a + [NEWLINE] + b)
  {
    AsciiIsUtf8([NEWLINE]);
    ConcatUtf8(a, [NEWLINE]);
    ConcatUtf8(a + [NEWLINE], b);
  }

  lemma Regrouped(a: Text, b: Text, c: Text, approved: bool)
    requires ValidUtf8(a + [NEWLINE] + b) && ValidUtf8(b + [NEWLINE] + c)
    ensures Message(a + [NEWLINE] + b, c, approved) == Message(a, b + [NEWLINE] + c, approved)
  {
  }

  /** A newline in the run id can be read as the separator. */
  lemma NewlineInRun(run: Text, key: Text, approved: bool)
    requires NEWLINE in run
    ensures !MessageIsUnique(run, key, approved)
  {
    hide ValidUtf8;
    var i :| 0 <= i < |run| && run[i] == NEWLINE;
    AfterNewline(run, i);
    var run': Text, rest: Text := run[..i], run[i + 1..];
    JoinedIsText(rest, key);
    JoinedIsText(run', rest);
    Regrouped(run', rest, key, approved);
    var key': Text := rest + [NEWLINE] + key;
    assert Message(run', key', approved) == Message(run, key, approved);
    assert |run'| < |run|;
  }

  /** A newline in the key can be read as the separator too. */
  lemma NewlineInKey(run: Text, key: Text, approved: bool)
    requires NEWLINE in key
    ensures !MessageIsUnique(run, key, approved)
  {
    hide ValidUtf8;
    var i :| 0 <= i < |key| && key[i] == NEWLINE;
    AfterNewline(key, i);
    var front: Text, key': Text := key[..i], key[i + 1..];
    JoinedIsText(run, front);
    JoinedIsText(front, key');
    Regrouped(run, front, key', approved);
    var run': Text := run + [NEWLINE] + front;
    assert Message(run', key', approved) == Message(run, key, approved);
    assert |run'| > |run|;
  }

  /** The tagged message belongs to one run, key and decision alone exactly when neither id has a newline. */
  lemma MessageUniqueExactly(run: Text, key: Text, approved: bool)
    ensures MessageIsUnique(run, key, approved) <==> NEWLINE !in run && NEWLINE !in key
  {
    if NEWLINE in run {
      NewlineInRun(run, key, approved);
    } else if NEWLINE in key {
      NewlineInKey(run, key, approved);
    } else {
      forall run': Text, key': Text, approved' | Message(run', key', approved') == Message(run, key, approved)
        ensures run' == run && key' == key && approved' == approved
      {
        MessageParts(run, key, approved, run', key', approved');
        OnlyNewline(run, key, run', key');
      }
    }
  }

  // ---- The tag ----

  function Octets(t: seq<Byte>): (o: seq<Octet>)
    ensures |o| == |t|
  {
    seq(|t|, i requires 0 <= i < |t| => t[i] as Octet)
  }

  /** A lower-case hexadecimal digit. */
  function HexDigit(n: Octet): Octet { if n < 10 then 0x30 + n else 0x57 + n }

  function HexPair(b: Octet): (p: seq<Octet>)
    ensures |p| == 2
  {
    [HexDigit(b >> 4), HexDigit(b & 0x0F)]
  }

  const DIGITS := "0123456789abcdef"

  /** A byte is written as its two base-16 digits, the high one first. */
  lemma HexPairIsBase16(high: Octet, low: Octet)
    requires high < 16 && low < 16
    ensures ((high << 4) | low) as nat == high as nat * 16 + low as nat
    ensures HexPair((high << 4) | low) == [HexDigit(high), HexDigit(low)]
  {
  }

  lemma HexDigitIsLetter(d: nat)
    requires d < 16
    ensures HexDigit(d as Octet) as int == DIGITS[d] as int
  {
  }

  function Hex(mac: seq<Octet>): (s: seq<Octet>)
    ensures |s| == 2 * |mac|
  {
    if mac == [] then [] else Hex(mac[..|mac| - 1]) + HexPair(mac[|mac| - 1])
  }

  /** The pairs stand in the order of their bytes. */
  lemma {:induction false} HexInOrder(mac: seq<Octet>, i: nat)
    requires i < |mac|
    ensures Hex(mac)[2 * i..2 * i + 2] == HexPair(mac[i])
    decreases |mac|
  {
    var m := |mac| - 1;
    if i < m {
      HexInOrder(mac[..m], i);
      assert Hex(mac)[2 * i..2 * i + 2] == Hex(mac[..m])[2 * i..2 * i + 2];
    }
  }

  /** The bytes of the message are what is authenticated. */
  lemma OctetsAreBytes(t: seq<Byte>)
    ensures forall i :: 0 <= i < |t| ==> Octets(t)[i] as int == t[i]
  {
    forall i | 0 <= i < |t| ensures Octets(t)[i] as int == t[i] { OctetIsByte(t[i]); }
  }

  lemma HexPairInjective(a: Octet, b: Octet)
    requires HexPair(a) == HexPair(b)
    ensures a == b
  {
    assert HexDigit(a >> 4) == HexDigit(b >> 4) && HexDigit(a & 0x0F) == HexDigit(b & 0x0F);
    NibblesInjective(a >> 4, b >> 4);
    NibblesInjective(a & 0x0F, b & 0x0F);
  }

  lemma NibblesInjective(a: Octet, b: Octet)
    requires a < 16 && b < 16 && HexDigit(a) == HexDigit(b)
    ensures a == b
  {
  }

  /** Different codes have different hexadecimal forms. */
  lemma {:induction false} HexInjective(a: seq<Octet>, b: seq<Octet>)
    requires Hex(a) == Hex(b)
    ensures a == b
    decreases |a|
  {
    assert |a| == |b|;
    if a != [] {
      var m := |a| - 1;
      var s, t := Hex(a), Hex(b);
      assert s[..2 * m] == Hex(a[..m]) && s[2 * m..] == HexPair(a[m]);
      assert t[..2 * m] == Hex(b[..m]) && t[2 * m..] == HexPair(b[m]);
      HexInjective(a[..m], b[..m]);
      HexPairInjective(a[m], b[m]);
      assert a == a[..m] + [a[m]] && b == b[..m] + [b[m]];
    }
  }

  function Tag(secret: seq<Octet>, run: Text, key: Text, approved: bool): (tag: seq<Octet>)
    ensures |tag| == 64
  {
    Hex(Hmac(secret, Octets(Message(run, key, approved))))
  }

  /** Two decisions have the same tag exactly when their codes are the same. */
  lemma TagShowsTheCode(secret: seq<Octet>, run: Text, key: Text, ap: bool,
                        other: seq<Octet>, run': Text, key': Text, ap': bool)
    ensures Tag(secret, run, key, ap) == Tag(other, run', key', ap') <==>
            Hmac(secret, Octets(Message(run, key, ap))) == Hmac(other, Octets(Message(run', key', ap')))
  {
    hide Hmac;
    if Tag(secret, run, key, ap) == Tag(other, run', key', ap') {
      HexInjective(Hmac(secret, Octets(Message(run, key, ap))), Hmac(other, Octets(Message(run', key', ap'))));
    }
  }

  method DecisionTag(secret: seq<Octet>, run: Text, key: Text, approved: bool) returns (tag: seq<Octet>)
    ensures tag == Tag(secret, run, key, approved)
  {
    hide Hmac;
    hide Message;
    var mac := HmacSha256(secret, Octets(Message(run, key, approved)));
    tag := [];
    for i := 0 to |mac|
      invariant tag == Hex(mac[..i])
    {
      assert mac[..i + 1][..i] == mac[..i];
      tag := tag + HexPair(mac[i]);
    }
    assert mac[..|mac|] == mac;
  }

  /** Compares without stopping at the first difference. */
  method Verify(expected: seq<Octet>, got: seq<Octet>) returns (ok: bool)
    ensures ok <==> expected == got
  {
    if |expected| != |got| { return false; }
    var diff: Octet := 0;
    for i := 0 to |expected|
      invariant diff == 0 <==> expected[..i] == got[..i]
    {
      DiffStep(diff, expected[i], got[i]);
      assert expected[..i + 1] == expected[..i] + [expected[i]] && got[..i + 1] == got[..i] + [got[i]];
      diff := diff | (expected[i] ^ got[i]);
    }
    assert expected[..|expected|] == expected && got[..|got|] == got;
    ok := diff == 0;
  }

  lemma DiffStep(diff: Octet, a: Octet, b: Octet)
    ensures diff | (a ^ b) == 0 <==> diff == 0 && a == b
  {
  }
}
