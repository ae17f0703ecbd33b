/** Bytes and the fixed-width arithmetic of the C++ sources. */
module Bytes {
  type byte = x: int | 0 <= x < 0x100
  type uint16 = x: int | 0 <= x < 0x1_0000
  type uint32 = x: int | 0 <= x < 0x1_0000_0000

  const WRAP_8 := 0x100
  const WRAP_16 := 0x1_0000
  const WRAP_32 := 0x1_0000_0000

  function Least(x: nat, y: nat): nat {
    if x <= y then x else y
  }

  // ++ and -- on a uint32_t.
  function Increment(x: uint32): uint32 {
    if x == WRAP_32 - 1 then 0 else x + 1
  }

  function Decrement(x: uint32): uint32 {
    if x == 0 then WRAP_32 - 1 else x - 1
  }

  // Differences of millis() readings are taken modulo the 32-bit clock.
  function Elapsed(now: uint32, since: uint32): uint32 {
    (now - since) % WRAP_32
  }

  // ---------------------------------------------------------------- exclusive or of two bytes

  function Pow2(n: nat): nat {
    if n == 0 then 1 else 2 * Pow2(n - 1)
  }

  function XorBits(a: nat, b: nat, n: nat): nat {
    if n == 0 then 0 else 2 * XorBits(a / 2, b / 2, n - 1) + if a % 2 == b % 2 then 0 else 1
  }

  lemma {:induction false} XorBitsBound(a: nat, b: nat, n: nat)
    ensures XorBits(a, b, n) < Pow2(n)
  {
    if n > 0 {
      XorBitsBound(a / 2, b / 2, n - 1);
    }
  }

  lemma Halve(y: nat, p: nat)
    requires p < 2
    ensures (2 * y + p) / 2 == y && (2 * y + p) % 2 == p
  {
  }

  lemma {:induction false} XorBitsInvolution(a: nat, b: nat, n: nat)
    requires a < Pow2(n)
    ensures XorBits(XorBits(a, b, n), b, n) == a
  {
    if n > 0 {
      var y, p := XorBits(a / 2, b / 2, n - 1), if a % 2 == b % 2 then 0 else 1;
      XorBitsInvolution(a / 2, b / 2, n - 1);
      Halve(y, p);
      Halve(a / 2, a % 2);
    }
  }

  lemma Pow2Of8()
    ensures Pow2(8) == WRAP_8
  {
    assert Pow2(4) == 16;
    assert Pow2(6) == 64;
  }

  // Binary digit i of x, counted from the least significant.
  function Digit(x: nat, i: nat): nat {
    if i == 0 then x % 2 else Digit(x / 2, i - 1)
  }

  lemma {:induction false} XorBitsDigits(a: nat, b: nat, n: nat, i: nat)
    requires i < n
    ensures Digit(XorBits(a, b, n), i) == (Digit(a, i) + Digit(b, i)) % 2
  {
    var y, p := XorBits(a / 2, b / 2, n - 1), if a % 2 == b % 2 then 0 else 1;
    Halve(y, p);
    if i > 0 {
      XorBitsDigits(a / 2, b / 2, n - 1, i - 1);
    }
  }

  // Bit i of the result is set exactly when bit i of one operand is and that of the other is not.
  lemma XorDigits(a: byte, b: byte, i: nat)
    requires i < 8
    ensures Digit(Xor(a, b), i) == (Digit(a, i) + Digit(b, i)) % 2
  {
    XorBitsDigits(a, b, 8, i);
  }

  // A byte is determined by its eight digits.
  lemma {:induction false} DigitsDetermine(a: nat, b: nat, n: nat)
    requires a < Pow2(n) && b < Pow2(n) && forall i :: 0 <= i < n ==> Digit(a, i) == Digit(b, i)
    ensures a == b
  {
    if n > 0 {
      assert Digit(a, 0) == Digit(b, 0);
      forall i | 0 <= i < n - 1 ensures Digit(a / 2, i) == Digit(b / 2, i) {
        assert Digit(a, i + 1) == Digit(b, i + 1);
      }
      DigitsDetermine(a / 2, b / 2, n - 1);
    }
  }

  function Xor(a: byte, b: byte): byte {
    Pow2Of8();
    XorBitsBound(a, b, 8);
    XorBits(a, b, 8)
  }

  lemma XorInvolution(a: byte, b: byte)
    ensures Xor(Xor(a, b), b) == a
  {
    Pow2Of8();
    XorBitsInvolution(a, b, 8);
  }

  // ---------------------------------------------------------------- byte order

  function Reverse(q: seq<byte>): (r: seq<byte>)
    ensures |r| == |q|
    ensures forall i :: 0 <= i < |q| ==> r[i] == q[|q| - 1 - i]
  {
    seq(|q|, i requires 0 <= i < |q| => q[|q| - 1 - i])
  }

  lemma ReverseTwice(q: seq<byte>)
    ensures Reverse(Reverse(q)) == q
  {
  }

  // The n lowest bytes of a number, lowest first.
  function LittleEndian(x: nat, n: nat): (q: seq<byte>)
    ensures |q| == n
  {
    if n == 0 then [] else [x % 0x100] + LittleEndian(x / 0x100, n - 1)
  }

  function Number(q: seq<byte>): nat {
    if q == [] then 0 else q[0] + 0x100 * Number(q[1..])
  }

  function Pow256(n: nat): nat {
    if n == 0 then 1 else 0x100 * Pow256(n - 1)
  }

  lemma {:induction false} NumberBound(q: seq<byte>)
    ensures Number(q) < Pow256(|q|)
  {
    if q != [] {
      NumberBound(q[1..]);
    }
  }

  lemma {:induction false} NumberInverse(x: nat, n: nat)
    requires x < Pow256(n)
    ensures Number(LittleEndian(x, n)) == x
  {
    if n > 0 {
      NumberInverse(x / 0x100, n - 1);
      assert LittleEndian(x, n)[1..] == LittleEndian(x / 0x100, n - 1);
    }
  }

  lemma {:induction false} LittleEndianInverse(q: seq<byte>)
    ensures LittleEndian(Number(q), |q|) == q
  {
    if q != [] {
      LittleEndianInverse(q[1..]);
      assert Number(q) % 0x100 == q[0] && Number(q) / 0x100 == Number(q[1..]);
    }
  }

  lemma Pow256Of4()
    ensures Pow256(4) == WRAP_32
  {
    assert Pow256(2) == 0x1_0000;
  }

  // The bytes of a uint32_t in the memory of a little-endian machine.
  function U32Bytes(x: uint32): (q: seq<byte>)
    ensures |q| == 4
  {
    LittleEndian(x, 4)
  }

  function U32(q: seq<byte>): uint32
    requires |q| == 4
  {
    NumberBound(q);
    Pow256Of4();
    Number(q)
  }

  lemma U32Inverse(x: uint32)
    ensures U32(U32Bytes(x)) == x
  {
    Pow256Of4();
    NumberInverse(x, 4);
  }

  lemma BytesInverse(q: seq<byte>)
    requires |q| == 4
    ensures U32Bytes(U32(q)) == q
  {
    LittleEndianInverse(q);
  }

  // htonl and ntohl on a little-endian machine.
  function Swap32(x: uint32): uint32 {
    U32(Reverse(U32Bytes(x)))
  }

  // Swapping the value of a uint32_t reverses its bytes in memory, and twice is the identity.
  lemma Swap32Reverses(x: uint32)
    ensures U32Bytes(Swap32(x)) == Reverse(U32Bytes(x))
    ensures Swap32(Swap32(x)) == x
  {
    BytesInverse(Reverse(U32Bytes(x)));
    ReverseTwice(U32Bytes(x));
    U32Inverse(x);
  }

  // The macro htonll (arduino/library/NetworkHandler.h).
  function Swap64(x: bv64): bv64 {
    ((x << 56) & 0xFF00000000000000) | ((x << 40) & 0x00FF000000000000)
    | ((x << 24) & 0x0000FF0000000000) | ((x << 8) & 0x000000FF00000000)
    | ((x >> 8) & 0x00000000FF000000) | ((x >> 24) & 0x0000000000FF0000)
    | ((x >> 40) & 0x000000000000FF00) | ((x >> 56) & 0x00000000000000FF)
  }

  // The uint64_t whose bytes in little-endian memory are a, b, ..., h.
  function Word(a: bv64, b: bv64, c: bv64, d: bv64, e: bv64, f: bv64, g: bv64, h: bv64): bv64 {
    a | (b << 8) | (c << 16) | (d << 24) | (e << 32) | (f << 40) | (g << 48) | (h << 56)
  }

  // The macro reverses the eight bytes.
  lemma Swap64Reverses(a: bv64, b: bv64, c: bv64, d: bv64, e: bv64, f: bv64, g: bv64, h: bv64)
    requires a < 0x100 && b < 0x100 && c < 0x100 && d < 0x100 && e < 0x100 && f < 0x100 && g < 0x100 && h < 0x100
    ensures Swap64(Word(a, b, c, d, e, f, g, h)) == Word(h, g, f, e, d, c, b, a)
  {
  }
}
