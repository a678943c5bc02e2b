/**
  SHA-256: the hash of a whole message as FIPS 180-4 defines it, and the buffered hash
  that takes the message in pieces.
 */
module Sha256 {
  import opened Texts
  import opened BigEndianBytes

  type Octet = bv8
  type Word = bv32

  // ---- Sections 4 to 6 of FIPS 180-4 ----

  const K: seq<Word> :=
    [0x428a2f98, 0x71374491, 0xb5c0fbcf, 0xe9b5dba5, 0x3956c25b, 0x59f111f1, 0x923f82a4, 0xab1c5ed5] +
    [0xd807aa98, 0x12835b01, 0x243185be, 0x550c7dc3, 0x72be5d74, 0x80deb1fe, 0x9bdc06a7, 0xc19bf174] +
    [0xe49b69c1, 0xefbe4786, 0x0fc19dc6, 0x240ca1cc, 0x2de92c6f, 0x4a7484aa, 0x5cb0a9dc, 0x76f988da] +
    [0x983e5152, 0xa831c66d, 0xb00327c8, 0xbf597fc7, 0xc6e00bf3, 0xd5a79147, 0x06ca6351, 0x14292967] +
    [0x27b70a85, 0x2e1b2138, 0x4d2c6dfc, 0x53380d13, 0x650a7354, 0x766a0abb, 0x81c2c92e, 0x92722c85] +
    [0xa2bfe8a1, 0xa81a664b, 0xc24b8b70, 0xc76c51a3, 0xd192e819, 0xd6990624, 0xf40e3585, 0x106aa070] +
    [0x19a4c116, 0x1e376c08, 0x2748774c, 0x34b0bcb5, 0x391c0cb3, 0x4ed8aa4a, 0x5b9cca4f, 0x682e6ff3] +
    [0x748f82ee, 0x78a5636f, 0x84c87814, 0x8cc70208, 0x90befffa, 0xa4506ceb, 0xbef9a3f7, 0xc67178f2]

  const H0: seq<Word> := [
    0x6a09e667, 0xbb67ae85, 0x3c6ef372, 0xa54ff53a, 0x510e527f, 0x9b05688c, 0x1f83d9ab, 0x5be0cd19]

  function Ch(x: Word, y: Word, z: Word): Word { (x & y) ^ ((!x) & z) }
  function Maj(x: Word, y: Word, z: Word): Word { (x & y) ^ (x & z) ^ (y & z) }
  function BigSigma0(x: Word): Word { x.RotateRight(2) ^ x.RotateRight(13) ^ x.RotateRight(22) }
  function BigSigma1(x: Word): Word { x.RotateRight(6) ^ x.RotateRight(11) ^ x.RotateRight(25) }
  function SmallSigma0(x: Word): Word { x.RotateRight(7) ^ x.RotateRight(18) ^ (x >> 3) }
  function SmallSigma1(x: Word): Word { x.RotateRight(17) ^ x.RotateRight(19) ^ (x >> 10) }

  /** Big-endian word at `i`. */
  function WordAt(b: seq<Octet>, i: nat): Word
    requires i + 4 <= |b|
  {
    ((b[i] as Word) << 24) | ((b[i + 1] as Word) << 16) | ((b[i + 2] as Word) << 8) | (b[i + 3] as Word)
  }

  function WordBytes(w: Word): (b: seq<Octet>)
    ensures |b| == 4
  {
    [((w >> 24) & 0xFF) as Octet, ((w >> 16) & 0xFF) as Octet, ((w >> 8) & 0xFF) as Octet, (w & 0xFF) as Octet]
  }

  /** Addition modulo 2^32. */
  function Add(x: Word, y: Word): Word { x + y }

  function Sum(a: Word, b: Word, c: Word, d: Word): Word { Add(Add(Add(a, b), c), d) }

  /** Word `t` of the message schedule. */
  function Schedule(block: seq<Octet>, t: nat): Word
    requires |block| == 64 && t < 64
  {
    if t < 16 then WordAt(block, 4 * t)
    else
      Sum(Schedule(block, t - 16), SmallSigma0(Schedule(block, t - 15)),
          Schedule(block, t - 7), SmallSigma1(Schedule(block, t - 2)))
  }

  datatype Vars = Vars(a: Word, b: Word, c: Word, d: Word, e: Word, f: Word, g: Word, h: Word)

  function Round(v: Vars, k: Word, w: Word): Vars {
    var t1 := Add(Sum(v.h, BigSigma1(v.e), Ch(v.e, v.f, v.g), k), w);
    var t2 := Add(BigSigma0(v.a), Maj(v.a, v.b, v.c));
    Vars(Add(t1, t2), v.a, v.b, v.c, Add(v.d, t1), v.e, v.f, v.g)
  }

  function VarsOf(h: seq<Word>): Vars
    requires |h| == 8
  {
    Vars(h[0], h[1], h[2], h[3], h[4], h[5], h[6], h[7])
  }

  function WordsOf(v: Vars): (h: seq<Word>)
    ensures |h| == 8
  {
    [v.a, v.b, v.c, v.d, v.e, v.f, v.g, v.h]
  }

  function Rounds(start: Vars, block: seq<Octet>, t: nat): Vars
    requires |block| == 64 && t <= 64
  {
    if t == 0 then start else Round(Rounds(start, block, t - 1), K[t - 1], Schedule(block, t - 1))
  }

  function Compress(h: seq<Word>, block: seq<Octet>): (r: seq<Word>)
    requires |h| == 8 && |block| == 64
    ensures |r| == 8
  {
    var v := WordsOf(Rounds(VarsOf(h), block, 64));
    seq(8, i requires 0 <= i < 8 => Add(h[i], v[i]))
  }

  /** The hash value after all the blocks of `bytes`. */
  function HashBlocks(bytes: seq<Octet>): (h: seq<Word>)
    requires |bytes| % 64 == 0
    ensures |h| == 8
    decreases |bytes|
  {
    if bytes == [] then H0
    else Compress(HashBlocks(bytes[..|bytes| - 64]), bytes[|bytes| - 64..])
  }

  /** A 64-bit length field. */
  function LengthField(bits: nat): (b: seq<Octet>)
    ensures |b| == 8
  {
    var key := BigEndian(bits % U64, 8);
    seq(8, i requires 0 <= i < 8 => key[i] as Octet)
  }

  function Zeros(n: nat): (z: seq<Octet>)
    ensures |z| == n && forall i :: 0 <= i < n ==> z[i] == 0
  {
    seq(n, i => 0 as Octet)
  }

  /** How many zero bytes section 5.1.1 puts after the 0x80. */
  function ZeroCount(n: nat): nat { (55 - (n as int)) % 64 }

  /** It is the least that leaves room for exactly the length field. */
  lemma ZeroCountIsLeast(n: nat, k: nat)
    ensures (n + 1 + ZeroCount(n)) % 64 == 56
    ensures (n + 1 + k) % 64 == 56 ==> ZeroCount(n) <= k
  {
  }

  function Pad(msg: seq<Octet>): seq<Octet> {
    msg + [0x80] + Zeros(ZeroCount(|msg|)) + LengthField(8 * |msg|)
  }

  function DigestBytes(h: seq<Word>): (d: seq<Octet>)
    requires |h| == 8
    ensures |d| == 32
  {
    WordBytes(h[0]) + WordBytes(h[1]) + WordBytes(h[2]) + WordBytes(h[3])
    + WordBytes(h[4]) + WordBytes(h[5]) + WordBytes(h[6]) + WordBytes(h[7])
  }

  lemma PadLength(msg: seq<Octet>)
    ensures |Pad(msg)| % 64 == 0
  {
    var n := |msg|;
    ZeroCountIsLeast(n, 0);
    hide ZeroCount;
    RoomForLength(n + 1 + ZeroCount(n));
    assert |Pad(msg)| == n + 1 + ZeroCount(n) + 8;
  }

  lemma RoomForLength(n: nat)
    ensures n % 64 == 56 ==> (n + 8) % 64 == 0
  {
  }

  /** The hash of a whole message; for messages under 2^61 bytes the length field is exact. */
  function Digest(msg: seq<Octet>): (d: seq<Octet>)
    ensures |d| == 32
  {
    PadLength(msg);
    DigestBytes(HashBlocks(Pad(msg)))
  }

  // ---- The buffered hash ----

  lemma CompressIs(h: seq<Word>, block: seq<Octet>, v: seq<Word>, r: seq<Word>)
    requires |h| == |r| == |v| == 8 && |block| == 64 && v == WordsOf(Rounds(VarsOf(h), block, 64))
    requires forall i :: 0 <= i < 8 ==> r[i] == Add(h[i], v[i])
    ensures r == Compress(h, block)
  {
    hide Add;
    hide Rounds;
  }

  lemma WordsOfVars(h: seq<Word>)
    requires |h| == 8
    ensures WordsOf(VarsOf(h)) == h
  {
  }

  method Block(h: array<Word>, b: seq<Octet>)
    requires h.Length == 8 && |b| == 64
    modifies h
    ensures h[..] == Compress(old(h[..]), b)
  {
    hide Add;
    hide Rounds;
    hide Schedule;
    hide Compress;
    hide VarsOf;
    hide WordsOf;
    var w := ScheduleOf(b);
    ghost var start := h[..];
    var v := new Word[8](i requires 0 <= i < 8 reads h => h[i]);
    assert v[..] == start;
    RoundsOf(v, b, w);
    WordsOfVars(v[..]);
    assert h[..] == start;
    ghost var last := v[..];
    for i := 0 to 8
      invariant v[..] == last
      invariant forall k :: 0 <= k < i ==> h[k] == Add(start[k], last[k])
      invariant forall k :: i <= k < 8 ==> h[k] == start[k]
    {
      h[i] := Add(h[i], v[i]);
    }
    CompressIs(start, b, last, h[..]);
  }

  lemma ScheduleStep(block: seq<Octet>, t: nat)
    requires |block| == 64 && 16 <= t < 64
    ensures Schedule(block, t) == Sum(Schedule(block, t - 16), SmallSigma0(Schedule(block, t - 15)),
                                      Schedule(block, t - 7), SmallSigma1(Schedule(block, t - 2)))
  {
  }

  lemma ScheduleStart(block: seq<Octet>, t: nat)
    requires |block| == 64 && t < 16
    ensures Schedule(block, t) == WordAt(block, 4 * t)
  {
  }

  method ScheduleOf(b: seq<Octet>) returns (w: array<Word>)
    requires |b| == 64
    ensures fresh(w) && w.Length == 64
    ensures forall t :: 0 <= t < 64 ==> w[t] == Schedule(b, t)
  {
    hide Schedule;
    hide Add;
    hide WordAt;
    hide SmallSigma0;
    hide SmallSigma1;
    w := new Word[64](i => 0);
    for i := 0 to 16
      invariant forall t :: 0 <= t < i ==> w[t] == Schedule(b, t)
    {
      ScheduleStart(b, i);
      w[i] := WordAt(b, 4 * i);
    }
    for i := 16 to 64
      invariant forall t :: 0 <= t < i ==> w[t] == Schedule(b, t)
    {
      ScheduleStep(b, i);
      var s0 := SmallSigma0(w[i - 15]);
      var s1 := SmallSigma1(w[i - 2]);
      w[i] := Add(Add(Add(w[i - 16], s0), w[i - 7]), s1);
    }
  }

  /** One round, the eight working variables shifted in place. */
  method RoundOf(v: array<Word>, k: Word, w: Word)
    requires v.Length == 8
    modifies v
    ensures VarsOf(v[..]) == Round(VarsOf(old(v[..])), k, w)
  {
    hide Add;
    hide BigSigma0;
    hide BigSigma1;
    hide Ch;
    hide Maj;
    var s1 := BigSigma1(v[4]);
    var ch := Ch(v[4], v[5], v[6]);
    var t1 := Add(Add(Add(Add(v[7], s1), ch), k), w);
    var s0 := BigSigma0(v[0]);
    var maj := Maj(v[0], v[1], v[2]);
    var t2 := Add(s0, maj);
    v[7] := v[6];
    v[6] := v[5];
    v[5] := v[4];
    v[4] := Add(v[3], t1);
    v[3] := v[2];
    v[2] := v[1];
    v[1] := v[0];
    v[0] := Add(t1, t2);
  }

  method RoundsOf(v: array<Word>, b: seq<Octet>, w: array<Word>)
    requires v.Length == 8 && |b| == 64 && w.Length == 64 && v != w
    requires forall t :: 0 <= t < 64 ==> w[t] == Schedule(b, t)
    modifies v
    ensures VarsOf(v[..]) == Rounds(VarsOf(old(v[..])), b, 64)
  {
    hide VarsOf;
    hide Round;
    hide Schedule;
    ghost var start := VarsOf(v[..]);
    for i := 0 to 64
      invariant VarsOf(v[..]) == Rounds(start, b, i)
    {
      RoundOf(v, K[i], w[i]);
    }
  }

  lemma {:induction false} HashMore(bytes: seq<Octet>, block: seq<Octet>)
    requires |bytes| % 64 == 0 && |block| == 64
    ensures HashBlocks(bytes + block) == Compress(HashBlocks(bytes), block)
  {
    var more := bytes + block;
    assert more[..|more| - 64] == bytes && more[|more| - 64..] == block;
  }

  /** A hash in progress: the value of the whole blocks so far, and the bytes that do not fill one. */
  class Hasher {
    const h: array<Word>
    const buf: array<Octet>
    var len: nat           // a 64-bit count
    var n: nat
    ghost var hashed: seq<Octet>    // the whole blocks taken so far
    ghost var absorbed: seq<Octet>  // all bytes taken so far

    /** The hash value and the buffer account for all bytes absorbed. */
    ghost predicate Buffered()
      reads this`n, this`hashed, this`absorbed, h, buf
    {
      && h.Length == 8 && buf.Length == 64 && n < 64
      && |hashed| % 64 == 0 && h[..] == HashBlocks(hashed)
      && absorbed == hashed + buf[..n]
    }

    ghost predicate Valid()
      reads this, h, buf
    {
      Buffered() && len == |absorbed| % U64
    }

    constructor ()
      ensures Valid() && absorbed == [] && fresh(h) && fresh(buf)
    {
      h := new Word[8](i requires 0 <= i < 8 => H0[i]);
      buf := new Octet[64](i => 0);
      len, n, hashed, absorbed := 0, 0, [], [];
      new;
      assert h[..] == H0;
    }

    /** Takes in one whole block that starts where the hashed part ends. */
    method TakeBlock(b: seq<Octet>)
      requires h.Length == 8 && |b| == 64 && |hashed| % 64 == 0 && h[..] == HashBlocks(hashed)
      modifies this`hashed, h
      ensures hashed == old(hashed) + b && h[..] == HashBlocks(hashed)
    {
      HashMore(hashed, b);
      Block(h, b);
      hashed := hashed + b;
    }

    /** Copies bytes into the buffer from `at`. */
    method CopyIn(at: nat, data: seq<Octet>)
      requires at + |data| <= buf.Length
      modifies buf
      ensures buf[..at + |data|] == old(buf[..at]) + data
    {
      forall i | 0 <= i < |data| { buf[at + i] := data[i]; }
    }

    /** Fills the buffer from the front of `data`; hashes it when full. */
    method FillBuffer(data: seq<Octet>) returns (rest: seq<Octet>)
      requires Buffered() && n > 0
      modifies this`n, this`hashed, this`absorbed, h, buf
      ensures Buffered() && absorbed + rest == old(absorbed) + data
      ensures n > 0 ==> rest == []
    {
      hide HashBlocks;
      var need := 64 - n;
      var take := if need <= |data| then need else |data|;
      CopyIn(n, data[..take]);
      rest := data[take..];
      assert absorbed + data == hashed + (buf[..n + take] + rest);
      n := n + take;
      absorbed := hashed + buf[..n];
      if n == 64 {
        assert buf[..64] == buf[..];
        TakeBlock(buf[..]);
        n := 0;
      }
    }

    /** Hashes whole blocks straight from `data`. */
    method TakeBlocks(data: seq<Octet>) returns (rest: seq<Octet>)
      requires Buffered() && (n > 0 ==> data == [])
      modifies this`hashed, this`absorbed, h
      ensures Buffered() && (n > 0 ==> rest == []) && |rest| < 64 && absorbed + rest == old(absorbed) + data
    {
      hide HashBlocks;
      rest := data;
      ghost var all := absorbed + data;
      while |rest| >= 64
        invariant Buffered() && (n > 0 ==> rest == []) && absorbed + rest == all
      {
        assert absorbed == hashed;
        TakeBlock(rest[..64]);
        absorbed := hashed;
        rest := rest[64..];
      }
    }

    /** Keeps in the buffer what does not fill a block. */
    method Keep(rest: seq<Octet>)
      requires Buffered() && n == 0 && 0 < |rest| < 64
      modifies this`n, this`absorbed, buf
      ensures Buffered() && absorbed == old(absorbed) + rest
    {
      hide HashBlocks;
      CopyIn(0, rest);
      n := |rest|;
      absorbed := absorbed + rest;
    }

    method Update(data: seq<Octet>)
      requires Valid()
      modifies this, h, buf
      ensures Valid() && absorbed == old(absorbed) + data
    {
      hide Buffered;
      WrappedSum(|absorbed|, |data|);
      len := (len + |data|) % U64;
      Absorb(data);
    }

    /** Takes in a piece: the buffer first, then whole blocks, then what is left. */
    method Absorb(data: seq<Octet>)
      requires Buffered()
      modifies this`n, this`hashed, this`absorbed, h, buf
      ensures Buffered() && absorbed == old(absorbed) + data
    {
      hide Buffered;
      var rest := data;
      BufferedMeans();
      if n > 0 { rest := FillBuffer(rest); }
      rest := TakeBlocks(rest);
      if rest != [] {
        Keep(rest);
      } else {
        assert absorbed + rest == absorbed;
      }
    }

    lemma BufferedMeans()
      requires Buffered()
      ensures n == |absorbed| % 64 && h.Length == 8 && buf.Length == 64
      ensures n == 0 ==> h[..] == HashBlocks(absorbed)
    {
      hide HashBlocks;
      if n == 0 { assert absorbed == hashed; }
    }

    /** Appends zero bytes until only the length field is missing. */
    method PadZeros(ghost front: seq<Octet>, ghost count: nat)
      requires Valid() && absorbed == front
      requires count < 64 && (|front| + count) % 64 == 56
      modifies this, h, buf
      ensures Valid() && absorbed == front + Zeros(count)
    {
      hide Buffered;
      ghost var zeros: nat := 0;
      assert front == front + Zeros(0);
      while n != 56
        invariant Valid() && absorbed == front + Zeros(zeros)
        invariant zeros <= count
        decreases count - zeros
      {
        BufferedMeans();
        ZeroStep(|front|, count, zeros);
        Update([0]);
        OneMoreZero(zeros);
        assert absorbed == front + (Zeros(zeros) + [0]);
        zeros := zeros + 1;
      }
      BufferedMeans();
      ZeroStep(|front|, count, zeros);
    }

    /** Pads and returns the digest of everything absorbed. */
    method Finish() returns (digest: seq<Octet>)
      requires Valid()
      modifies this, h, buf
      ensures digest == Digest(old(absorbed))
    {
      hide HashBlocks;
      hide DigestBytes;
      hide Buffered;
      ghost var msg := absorbed;
      var bits := (len * 8) % U64;
      LengthFieldWraps(|msg|);
      Update([0x80]);
      ZeroCountIsLeast(|msg|, 0);
      PadZeros(msg + [0x80], ZeroCount(|msg|));
      Update(LengthField(bits));
      assert absorbed == Pad(msg);
      PadLength(msg);
      BufferedMeans();
      digest := DigestBytes(h[..]);
    }
  }

  lemma WrappedSum(a: nat, b: nat)
    ensures (a % U64 + b) % U64 == (a + b) % U64
  {
    assert a == a / U64 * U64 + a % U64;
  }

  /** Within one block there is only one number of zeros that reaches 56. */
  lemma ZeroStep(front: nat, count: nat, zeros: nat)
    requires zeros <= count < 64 && (front + count) % 64 == 56
    ensures (front + zeros) % 64 == 56 <==> zeros == count
  {
  }

  lemma OneMoreZero(n: nat)
    ensures Zeros(n) + [0] == Zeros(n + 1)
  {
  }

  lemma {:induction false} WholeTurns(a: nat, turns: nat)
    ensures (a + turns * U64) % U64 == a % U64
    decreases turns
  {
    if turns > 0 {
      WholeTurns(a, turns - 1);
      assert a + turns * U64 == a + (turns - 1) * U64 + U64;
      OneTurn(a + (turns - 1) * U64);
    }
  }

  lemma OneTurn(a: nat)
    ensures (a + U64) % U64 == a % U64
  {
  }

  lemma Wrapped(a: nat)
    ensures a % U64 < U64 && a % U64 % U64 == a % U64
    ensures a == a % U64 + a / U64 * U64
  {
  }

  lemma WrappedBits(len: nat)
    ensures (((len % U64) * 8) % U64) % U64 == (8 * len) % U64
  {
    Wrapped(len);
    Wrapped((len % U64) * 8);
    WholeTurns((len % U64) * 8, 8 * (len / U64));
    assert 8 * len == (len % U64) * 8 + 8 * (len / U64) * U64;
  }

  /** Counting bytes modulo 2^64 gives the same length field. */
  lemma LengthFieldWraps(len: nat)
    ensures LengthField(((len % U64) * 8) % U64) == LengthField(8 * len)
  {
    WrappedBits(len);
  }

  function Numbers(o: seq<Octet>): (bytes: seq<Byte>)
    ensures |bytes| == |o|
  {
    seq(|o|, i requires 0 <= i < |o| => o[i] as int)
  }

  lemma DigitIsOctet(n: nat)
    requires n < 16
    ensures (n as Octet) as int == n && n as Octet < 16
  {
  }

  lemma TwoDigits(high: Octet, low: Octet)
    requires high < 16 && low < 16
    ensures ((high << 4) | low) as int == high as int * 16 + low as int
  {
  }

  lemma NumberIsOctet(o: Octet)
    ensures (o as int) as Octet == o
  {
  }

  /** A byte and its octet are the same number. */
  lemma OctetIsByte(b: Byte)
    ensures (b as Octet) as int == b
  {
    var high, low := b / 16, b % 16;
    DigitIsOctet(high);
    DigitIsOctet(low);
    TwoDigits(high as Octet, low as Octet);
    var o := ((high as Octet) << 4) | (low as Octet);
    assert o as int == b;
    NumberIsOctet(o);
  }

  lemma LengthFieldIsKey(bits: nat)
    ensures Numbers(LengthField(bits)) == BigEndian(bits % U64, 8)
  {
    var key := BigEndian(bits % U64, 8);
    hide BigEndian;
    forall i | 0 <= i < 8 ensures Numbers(LengthField(bits))[i] == key[i] { OctetIsByte(key[i]); }
  }

  /** The length field, most significant byte first, is the bit length exactly for messages under 2^61 bytes. */
  lemma LengthFieldIsExact(len: nat)
    ensures Number(Numbers(LengthField(8 * len))) == 8 * len <==> len < 0x2000_0000_0000_0000
  {
    U64IsEightBytes();
    LengthFieldIsKey(8 * len);
    NumberOfKey((8 * len) % U64, 8);
  }

  method Hash(data: seq<Octet>) returns (digest: seq<Octet>)
    ensures digest == Digest(data)
  {
    hide Digest;
    var s := new Hasher();
    s.Update(data);
    assert [] + data == data;
    digest := s.Finish();
  }

  // ---- Every way of cutting a message into pieces ----

  function Flatten(pieces: seq<seq<Octet>>): seq<Octet> {
    if pieces == [] then [] else Flatten(pieces[..|pieces| - 1]) + pieces[|pieces| - 1]
  }

  /** However the message arrives in pieces, the digest is that of the whole. */
  method HashPieces(pieces: seq<seq<Octet>>) returns (digest: seq<Octet>)
    ensures digest == Digest(Flatten(pieces))
  {
    hide Digest;
    var s := new Hasher();
    for i := 0 to |pieces|
      invariant s.Valid() && fresh(s) && fresh(s.h) && fresh(s.buf) && s.absorbed == Flatten(pieces[..i])
    {
      assert pieces[..i + 1][..i] == pieces[..i];
      s.Update(pieces[i]);
    }
    assert pieces[..|pieces|] == pieces;
    digest := s.Finish();
  }
}
