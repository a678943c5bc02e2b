/** Strings as the program stores them: UTF-8 bytes, ordered byte by byte. */
module Texts {
  type Byte = x: int | 0 <= x < 256

  const NEWLINE: Byte := 0x0A

  /** Bytes that continue a multi-byte character. */
  predicate Continues(b: Byte) { 0x80 <= b <= 0xBF }

  /** Length of the well-formed character at the front of `s`, or 0 (section 4 of RFC 3629). */
  function FirstChar(s: seq<Byte>): (n: nat)
    ensures n <= |s|
  {
    if s == [] then 0
    else if s[0] < 0x80 then 1
    else if |s| >= 2 && 0xC2 <= s[0] <= 0xDF && Continues(s[1]) then 2
    else if |s| >= 3 && 0xE0 <= s[0] <= 0xEF && Continues(s[1]) && Continues(s[2])
            && (s[0] == 0xE0 ==> s[1] >= 0xA0) && (s[0] == 0xED ==> s[1] < 0xA0) then 3
    else if |s| >= 4 && 0xF0 <= s[0] <= 0xF4 && Continues(s[1]) && Continues(s[2]) && Continues(s[3])
            && (s[0] == 0xF0 ==> s[1] >= 0x90) && (s[0] == 0xF4 ==> s[1] < 0x90) then 4
    else 0
  }

  predicate ValidUtf8(s: seq<Byte>)
    decreases |s|
  {
    s == [] || (FirstChar(s) > 0 && ValidUtf8(s[FirstChar(s)..]))
  }

  type Text = s: seq<Byte> | ValidUtf8(s) witness []

  /** The bytes of an ASCII literal. */
  function Ascii(s: string): (t: seq<Byte>)
    requires forall i :: 0 <= i < |s| ==> s[i] as int < 0x80
    ensures |t| == |s|
    ensures forall i :: 0 <= i < |s| ==> t[i] == s[i] as int
  {
    seq(|s|, i requires 0 <= i < |s| => s[i] as int)
  }

  lemma {:induction false} AsciiIsUtf8(s: seq<Byte>)
    requires forall i :: 0 <= i < |s| ==> s[i] < 0x80
    ensures ValidUtf8(s)
    decreases |s|
  {
    if s != [] { AsciiIsUtf8(s[1..]); }
  }

  /** Text may be cut before an ASCII byte. */
  lemma {:induction false} CutAtAscii(s: seq<Byte>, i: nat)
    requires ValidUtf8(s) && i < |s| && s[i] < 0x80
    ensures ValidUtf8(s[..i]) && ValidUtf8(s[i..])
    decreases |s|
  {
    var n := FirstChar(s);
    if i == 0 {
      assert s[0..] == s;
    } else {
      assert n <= i;
      CutAtAscii(s[n..], i - n);
      assert FirstChar(s[..i]) == n;
      assert s[..i][n..] == s[n..][..i - n];
      assert s[n..][i - n..] == s[i..];
    }
  }

  lemma {:induction false} ConcatUtf8(a: seq<Byte>, b: seq<Byte>)
    requires ValidUtf8(a) && ValidUtf8(b)
    ensures ValidUtf8(a + b)
    decreases |a|
  {
    if a == [] {
      assert a + b == b;
    } else {
      var n := FirstChar(a);
      assert FirstChar(a + b) == n;
      assert (a + b)[n..] == a[n..] + b;
      ConcatUtf8(a[n..], b);
    }
  }

  /** The order of Rust strings and byte slices: lexicographic on bytes. */
  predicate Below(a: seq<Byte>, b: seq<Byte>)
    decreases |b|
  {
    if b == [] then false
    else if a == [] then true
    else if a[0] != b[0] then a[0] < b[0]
    else Below(a[1..], b[1..])
  }

  /** `b` goes on where `a` ends, or the first byte that differs is greater. */
  predicate FirstDifference(a: seq<Byte>, b: seq<Byte>, i: nat) {
    && i <= |a| && i < |b| && a[..i] == b[..i]
    && (i == |a| || a[i] < b[i])
  }

  lemma {:induction false} BelowAtDifference(a: seq<Byte>, b: seq<Byte>, i: nat)
    requires FirstDifference(a, b, i)
    ensures Below(a, b)
    decreases i
  {
    if i > 0 {
      assert a[0] == a[..i][0] == b[..i][0] == b[0];
      assert a[1..][..i - 1] == a[..i][1..] == b[..i][1..] == b[1..][..i - 1];
      BelowAtDifference(a[1..], b[1..], i - 1);
    }
  }

  lemma {:induction false} BelowHasDifference(a: seq<Byte>, b: seq<Byte>) returns (i: nat)
    requires Below(a, b)
    ensures FirstDifference(a, b, i)
    decreases |a|
  {
    if a == [] || a[0] != b[0] {
      i := 0;
    } else {
      i := BelowHasDifference(a[1..], b[1..]);
      assert a[..i + 1] == [a[0]] + a[1..][..i] && b[..i + 1] == [b[0]] + b[1..][..i];
      i := i + 1;
    }
  }

  /** The order is decided by the first byte that differs, or by length where none does. */
  lemma BelowIsByFirstDifference(a: seq<Byte>, b: seq<Byte>)
    ensures Below(a, b) <==> exists i: nat :: FirstDifference(a, b, i)
  {
    if Below(a, b) { var i := BelowHasDifference(a, b); }
    if i: nat :| FirstDifference(a, b, i) { BelowAtDifference(a, b, i); }
  }

  lemma {:induction false} BelowIrreflexive(a: seq<Byte>)
    ensures !Below(a, a)
    decreases |a|
  {
    if a != [] { BelowIrreflexive(a[1..]); }
  }

  lemma {:induction false} BelowTransitive(a: seq<Byte>, b: seq<Byte>, c: seq<Byte>)
    requires Below(a, b) && Below(b, c)
    ensures Below(a, c)
    decreases |a|
  {
    if a != [] && a[0] == b[0] == c[0] { BelowTransitive(a[1..], b[1..], c[1..]); }
  }

  lemma {:induction false} BelowTotal(a: seq<Byte>, b: seq<Byte>)
    ensures a == b || Below(a, b) || Below(b, a)
    decreases |a|
  {
    if a != [] && b != [] && a[0] == b[0] {
      BelowTotal(a[1..], b[1..]);
      assert a == [a[0]] + a[1..] && b == [b[0]] + b[1..];
    }
  }
}
