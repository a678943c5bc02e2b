/** Numbers as fixed-width byte strings, as `to_be_bytes` writes them. */
module BigEndianBytes {
  import opened Texts

  /** `n` in `width` bytes, most significant first. */
  function BigEndian(n: nat, width: nat): (key: seq<Byte>)
    ensures |key| == width
  {
    if width == 0 then [] else BigEndian(n / 256, width - 1) + [n % 256]
  }

  function Number(key: seq<Byte>): nat {
    if key == [] then 0 else Number(key[..|key| - 1]) * 256 + key[|key| - 1]
  }

  function Pow256(width: nat): nat { if width == 0 then 1 else 256 * Pow256(width - 1) }

  const U64: nat := 0x1_0000_0000_0000_0000

  lemma U64IsEightBytes()
    ensures Pow256(8) == U64
  {
    assert Pow256(4) == 0x1_0000_0000;
    assert Pow256(8) == 256 * (256 * (256 * (256 * Pow256(4))));
  }

  lemma {:induction false} NumberOfKey(n: nat, width: nat)
    requires n < Pow256(width)
    ensures Number(BigEndian(n, width)) == n
    decreases width
  {
    if width > 0 {
      NumberOfKey(n / 256, width - 1);
      var key := BigEndian(n, width);
      assert key[..|key| - 1] == BigEndian(n / 256, width - 1);
    }
  }

  lemma {:induction false} BelowLast(p: seq<Byte>, q: seq<Byte>, x: Byte, y: Byte)
    requires |p| == |q|
    ensures Below(p + [x], q + [y]) <==> Below(p, q) || (p == q && x < y)
    decreases |p|
  {
    if p != [] {
      assert (p + [x])[1..] == p[1..] + [x] && (q + [y])[1..] == q[1..] + [y];
      BelowLast(p[1..], q[1..], x, y);
      assert p == [p[0]] + p[1..] && q == [q[0]] + q[1..];
    }
  }

  /** Big-endian keys are in the order of their numbers. */
  lemma {:induction false} KeyOrder(a: nat, b: nat, width: nat)
    requires a < Pow256(width) && b < Pow256(width)
    ensures Below(BigEndian(a, width), BigEndian(b, width)) <==> a < b
    decreases width
  {
    if width > 0 {
      KeyOrder(a / 256, b / 256, width - 1);
      BelowLast(BigEndian(a / 256, width - 1), BigEndian(b / 256, width - 1), a % 256, b % 256);
      NumberOfKey(a / 256, width - 1);
      NumberOfKey(b / 256, width - 1);
    }
  }
}
