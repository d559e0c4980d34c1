/** Byte strings: fixed-width integer encodings, the two equality loops and the
    zero test that the Rust crates and the Go service each write by hand. */
module Bytes {

  type Byte = b: int | 0 <= b < 256

  type Bytes = seq<Byte>

  function Zeros(n: nat): (r: Bytes)
    ensures |r| == n && forall i :: 0 <= i < n ==> r[i] == 0
  {
    seq(n, _ => 0)
  }

  type Digest = b: Bytes | |b| == 32 witness Zeros(32)

  /** An abstract 32-byte hash. */
  type Hash = Bytes -> Digest

  const U64_LIMIT: nat := 0x1_0000_0000_0000_0000

  /** A value of the u64 type. */
  type U64 = v: nat | v < U64_LIMIT

  // -------------------------------------------------------------- strings

  /** The UTF-8 bytes of a code point. */
  function Utf8Char(c: char): (r: Bytes)
    ensures 1 <= |r| <= 4
  {
    var v := c as int;
    if v < 0x80 then [v]
    else if v < 0x800 then [0xC0 + v / 0x40, 0x80 + v % 0x40]
    else if v < 0x10000 then [0xE0 + v / 0x1000, 0x80 + v / 0x40 % 0x40, 0x80 + v % 0x40]
    else [0xF0 + v / 0x40000, 0x80 + v / 0x1000 % 0x40, 0x80 + v / 0x40 % 0x40, 0x80 + v % 0x40]
  }

  function Utf8(s: string): (r: Bytes)
    ensures |s| <= |r| && (s == "" ==> r == [])
  {
    if |s| == 0 then [] else Utf8Char(s[0]) + Utf8(s[1..])
  }

  /** The code point that a UTF-8 sequence stands for: the low bits of the lead byte, then six from
      each continuation byte (RFC 3629, section 3). */
  function CodePoint(r: Bytes): int
    requires 1 <= |r| <= 4
  {
    var lead := r[0] as int;
    if |r| == 1 then lead
    else if |r| == 2 then lead % 0x20 * 0x40 + SixBits(r[1])
    else if |r| == 3 then lead % 0x10 * 0x1000 + SixBits(r[1]) * 0x40 + SixBits(r[2])
    else lead % 0x08 * 0x40000 + SixBits(r[1]) * 0x1000 + SixBits(r[2]) * 0x40 + SixBits(r[3])
  }

  function SixBits(b: Byte): int {
    b as int % 0x40
  }

  lemma SixBitGroups(v: nat)
    ensures v == v / 0x40 * 0x40 + v % 0x40
    ensures v / 0x40 == v / 0x1000 * 0x40 + v / 0x40 % 0x40
    ensures v / 0x1000 == v / 0x40000 * 0x40 + v / 0x1000 % 0x40
  {
  }

  lemma Utf8CharShape(c: char)
    ensures var v, r := c as int, Utf8Char(c);
            && |r| == (if v < 0x80 then 1 else if v < 0x800 then 2 else if v < 0x10000 then 3 else 4)
            && (|r| == 1 ==> r[0] < 0x80) && (|r| == 2 ==> 0xC0 <= r[0] < 0xE0)
            && (|r| == 3 ==> 0xE0 <= r[0] < 0xF0) && (|r| == 4 ==> 0xF0 <= r[0] < 0xF8)
            && (forall i :: 1 <= i < |r| ==> 0x80 <= r[i] < 0xC0)
  {
  }

  lemma TwoBytes(v: nat)
    requires 0x80 <= v < 0x800
    ensures CodePoint([0xC0 + v / 0x40, 0x80 + v % 0x40]) == v
  {
    assert (0xC0 + v / 0x40) % 0x20 == v / 0x40;
    assert (0x80 + v % 0x40) % 0x40 == v % 0x40;
  }

  lemma ThreeBytes(v: nat)
    requires 0x800 <= v < 0x10000
    ensures CodePoint([0xE0 + v / 0x1000, 0x80 + v / 0x40 % 0x40, 0x80 + v % 0x40]) == v
  {
    SixBitGroups(v);
    var a, b, c := v / 0x1000, v / 0x40 % 0x40, v % 0x40;
    assert (0xE0 + a) % 0x10 == a;
    assert (0x80 + b) % 0x40 == b;
    assert (0x80 + c) % 0x40 == c;
  }

  lemma FourBytes(v: nat)
    requires 0x10000 <= v < 0x110000
    ensures CodePoint([0xF0 + v / 0x40000, 0x80 + v / 0x1000 % 0x40, 0x80 + v / 0x40 % 0x40, 0x80 + v % 0x40]) == v
  {
    SixBitGroups(v);
    var a, b, c, d := v / 0x40000, v / 0x1000 % 0x40, v / 0x40 % 0x40, v % 0x40;
    assert (0xF0 + a) % 0x08 == a;
    assert (0x80 + b) % 0x40 == b;
    assert (0x80 + c) % 0x40 == c;
    assert (0x80 + d) % 0x40 == d;
  }

  lemma Utf8CharValue(c: char)
    ensures CodePoint(Utf8Char(c)) == c as int
  {
    var v := c as int;
    if v < 0x80 {
    } else if v < 0x800 {
      TwoBytes(v);
    } else if v < 0x10000 {
      ThreeBytes(v);
    } else {
      FourBytes(v);
    }
  }

  /** The encoding of a character is what that section prescribes: as many bytes as the code point
      needs, a lead byte that announces how many, continuation bytes after it, and the code point. */
  lemma Utf8CharDecodes(c: char)
    ensures var v, r := c as int, Utf8Char(c);
            && |r| == (if v < 0x80 then 1 else if v < 0x800 then 2 else if v < 0x10000 then 3 else 4)
            && (|r| == 1 ==> r[0] < 0x80) && (|r| == 2 ==> 0xC0 <= r[0] < 0xE0)
            && (|r| == 3 ==> 0xE0 <= r[0] < 0xF0) && (|r| == 4 ==> 0xF0 <= r[0] < 0xF8)
            && (forall i :: 1 <= i < |r| ==> 0x80 <= r[i] < 0xC0)
            && CodePoint(r) == v
  {
    hide Utf8Char, CodePoint;
    Utf8CharShape(c);
    Utf8CharValue(c);
  }

  /** Strings are encoded character by character, in order. */
  lemma {:induction false} Utf8Appends(s: string, t: string)
    ensures Utf8(s + t) == Utf8(s) + Utf8(t)
    ensures |s| == 1 ==> Utf8(s) == Utf8Char(s[0])
  {
    if |s| == 0 {
      assert s + t == t;
    } else {
      assert (s + t)[1..] == s[1..] + t;
      Utf8Appends(s[1..], t);
      assert Utf8("") == [];
    }
  }

  // ------------------------------------------------------------ integers

  function LowByte(v: nat): Byte {
    v % 256
  }

  /** `v >> (8 * i)`. */
  function ShiftRight(v: nat, i: nat): nat {
    if i == 0 then v else ShiftRight(v / 256, i - 1)
  }

  /** `to_le_bytes` truncated to `width` bytes: least significant byte first. */
  function LittleEndian(v: nat, width: nat): (r: Bytes)
    ensures |r| == width
  {
    if width == 0 then [] else [LowByte(v)] + LittleEndian(v / 256, width - 1)
  }

  /** `to_be_bytes` truncated to `width` bytes: most significant byte first. */
  function BigEndian(v: nat, width: nat): (r: Bytes)
    ensures |r| == width
  {
    if width == 0 then [] else BigEndian(v / 256, width - 1) + [LowByte(v)]
  }

  function FromBigEndian(b: Bytes): nat {
    if |b| == 0 then 0 else FromBigEndian(b[..|b| - 1]) * 256 + b[|b| - 1]
  }

  function FromLittleEndian(b: Bytes): nat {
    if |b| == 0 then 0 else b[0] + 256 * FromLittleEndian(b[1..])
  }

  /** 256 to the power `width`: the first value that does not fit. */
  function Capacity(width: nat): (r: nat)
    ensures r > 0
  {
    if width == 0 then 1 else 256 * Capacity(width - 1)
  }

  lemma EightBytesHoldU64()
    ensures Capacity(8) == U64_LIMIT
  {
    assert Capacity(4) == 0x1_0000_0000;
  }

  lemma DivideFits(v: nat, c: nat)
    requires v < 256 * c
    ensures v / 256 < c
  {
  }

  /** Decoding undoes either encoding for every value that fits the width. */
  lemma {:induction false} LittleEndianRoundTrip(v: nat, width: nat)
    requires v < Capacity(width)
    ensures FromLittleEndian(LittleEndian(v, width)) == v
  {
    if width == 0 {
    } else {
      DivideFits(v, Capacity(width - 1));
      LittleEndianRoundTrip(v / 256, width - 1);
      assert LittleEndian(v, width)[1..] == LittleEndian(v / 256, width - 1);
    }
  }

  lemma AppendBigEndian(b: Bytes, last: Byte)
    ensures FromBigEndian(b + [last]) == FromBigEndian(b) * 256 + last
  {
    assert (b + [last])[..|b|] == b;
  }

  lemma {:induction false} BigEndianRoundTrip(v: nat, width: nat)
    requires v < Capacity(width)
    ensures FromBigEndian(BigEndian(v, width)) == v
  {
    if width == 0 {
    } else {
      DivideFits(v, Capacity(width - 1));
      BigEndianRoundTrip(v / 256, width - 1);
      var high, low := BigEndian(v / 256, width - 1), LowByte(v);
      AppendBigEndian(high, low);
      assert BigEndian(v, width) == high + [low];
    }
  }

  lemma U64EncodingsAreInjective(a: U64, b: U64)
    ensures LittleEndian(a, 8) == LittleEndian(b, 8) <==> a == b
    ensures BigEndian(a, 8) == BigEndian(b, 8) <==> a == b
  {
    EightBytesHoldU64();
    LittleEndianRoundTrip(a, 8);
    LittleEndianRoundTrip(b, 8);
    BigEndianRoundTrip(a, 8);
    BigEndianRoundTrip(b, 8);
  }

  /** Byte by byte: the eight bytes of a u64, and the same in reverse. */
  lemma EightBytes(v: U64)
    ensures LittleEndian(v, 8) == [
      v % 0x100, v / 0x100 % 0x100, v / 0x1_0000 % 0x100, v / 0x100_0000 % 0x100, v / 0x1_0000_0000 % 0x100,
      v / 0x100_0000_0000 % 0x100, v / 0x1_0000_0000_0000 % 0x100, v / 0x100_0000_0000_0000]
    ensures |BigEndian(v, 8)| == 8 && forall i :: 0 <= i < 8 ==> BigEndian(v, 8)[i] == LittleEndian(v, 8)[7 - i]
  {
    hide LittleEndian, BigEndian, ShiftRight;
    var a, b := LittleEndian(v, 8), BigEndian(v, 8);
    ShiftsDivide(v);
    forall i | 0 <= i < 8 ensures a[i] == LowByte(ShiftRight(v, i)) && b[7 - i] == a[i] {
      LittleEndianAt(v, 8, i);
      BigEndianMirrors(v, 8, i);
    }
  }

  lemma ShiftsDivide(v: U64)
    ensures ShiftRight(v, 0) == v && ShiftRight(v, 1) == v / 0x100 && ShiftRight(v, 2) == v / 0x1_0000
    ensures ShiftRight(v, 3) == v / 0x100_0000 && ShiftRight(v, 4) == v / 0x1_0000_0000
    ensures ShiftRight(v, 5) == v / 0x100_0000_0000 && ShiftRight(v, 6) == v / 0x1_0000_0000_0000
    ensures ShiftRight(v, 7) == v / 0x100_0000_0000_0000 < 0x100
  {
    ShiftAgain(v, 0);
    ShiftAgain(v, 1);
    ShiftAgain(v, 2);
    ShiftAgain(v, 3);
    ShiftAgain(v, 4);
    ShiftAgain(v, 5);
    ShiftAgain(v, 6);
  }

  lemma {:induction false} ShiftAgain(v: nat, i: nat)
    ensures ShiftRight(v, i + 1) == ShiftRight(v, i) / 256
  {
    if i == 0 {
      assert ShiftRight(v, 1) == ShiftRight(v / 256, 0);
    } else {
      ShiftAgain(v / 256, i - 1);
    }
  }

  lemma {:induction false} BigEndianMirrors(v: nat, width: nat, i: nat)
    requires i < width
    ensures BigEndian(v, width)[width - 1 - i] == LittleEndian(v, width)[i]
  {
    if i == 0 {
    } else {
      BigEndianMirrors(v / 256, width - 1, i - 1);
    }
  }

  /** The byte `to_le_bytes` puts at index `i` is the low byte of the value shifted right by `8 * i`. */
  lemma {:induction false} LittleEndianAt(v: nat, width: nat, i: nat)
    requires i < width
    ensures LittleEndian(v, width)[i] == LowByte(ShiftRight(v, i))
  {
    if i == 0 {
    } else {
      LittleEndianAt(v / 256, width - 1, i - 1);
    }
  }

  /** The Go service's encoder: eight shifts into a fixed buffer. */
  method ShiftLoopBytes(v: U64) returns (buf: array<Byte>)
    ensures fresh(buf)
    ensures buf[..] == LittleEndian(v, 8)
  {
    buf := new Byte[8];
    var i := 0;
    while i < 8
      invariant 0 <= i <= 8
      invariant forall k :: 0 <= k < i ==> buf[k] == LittleEndian(v, 8)[k]
    {
      LittleEndianAt(v, 8, i);
      buf[i] := LowByte(ShiftRight(v, i));
      i := i + 1;
    }
  }

  // ---------------------------------------------------------- comparisons

  /** `x ^ y`, bit by bit. */
  function Xor(x: nat, y: nat): nat {
    if x == 0 && y == 0 then 0 else (x % 2 + y % 2) % 2 + 2 * Xor(x / 2, y / 2)
  }

  /** `x | y`, bit by bit. */
  function Or(x: nat, y: nat): nat {
    if x == 0 && y == 0 then 0 else (if x % 2 + y % 2 == 0 then 0 else 1) + 2 * Or(x / 2, y / 2)
  }

  lemma {:induction false} XorIsZeroIff(x: nat, y: nat)
    ensures Xor(x, y) == 0 <==> x == y
  {
    if x == 0 && y == 0 {
    } else {
      XorIsZeroIff(x / 2, y / 2);
    }
  }

  lemma {:induction false} OrIsZeroIff(x: nat, y: nat)
    ensures Or(x, y) == 0 <==> x == 0 && y == 0
  {
    if x == 0 && y == 0 {
    } else {
      OrIsZeroIff(x / 2, y / 2);
    }
  }

  /** The Rust crates' comparison: no early exit, the differences are OR-ed together. */
  method ConstantTimeEq(a: Bytes, b: Bytes) returns (r: bool)
    ensures r <==> a == b
  {
    if |a| != |b| {
      return false;
    }
    var result := 0;
    var i := 0;
    while i < |a|
      invariant 0 <= i <= |a| && 0 <= result
      invariant result == 0 <==> a[..i] == b[..i]
    {
      XorIsZeroIff(a[i], b[i]);
      OrIsZeroIff(result, Xor(a[i], b[i]));
      assert a[..i + 1] == a[..i] + [a[i]] && b[..i + 1] == b[..i] + [b[i]];
      result := Or(result, Xor(a[i], b[i]));
      i := i + 1;
    }
    assert a[..i] == a && b[..i] == b;
    r := result == 0;
  }

  /** The Go service's comparison: stops at the first difference. */
  method BytesEqual(a: Bytes, b: Bytes) returns (r: bool)
    ensures r <==> a == b
  {
    if |a| != |b| {
      return false;
    }
    var i := 0;
    while i < |a|
      invariant 0 <= i <= |a|
      invariant a[..i] == b[..i]
    {
      if a[i] != b[i] {
        return false;
      }
      i := i + 1;
    }
    assert a[..i] == a && b[..i] == b;
    r := true;
  }

  method IsAllZero(b: Bytes) returns (r: bool)
    ensures r <==> b == Zeros(|b|)
  {
    var i := 0;
    while i < |b|
      invariant 0 <= i <= |b|
      invariant forall k :: 0 <= k < i ==> b[k] == 0
    {
      if b[i] != 0 {
        return false;
      }
      i := i + 1;
    }
    r := true;
  }

  lemma SplitAt(a: Bytes, a': Bytes, b: Bytes, b': Bytes)
    requires |a| == |a'| && a + b == a' + b'
    ensures a == a' && b == b'
  {
    assert (a + b)[..|a|] == a && (a' + b')[..|a|] == a';
    assert (a + b)[|a|..] == b && (a' + b')[|a|..] == b';
  }
}
