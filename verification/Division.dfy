/** CRC-32 as section 3.4 of RFC 2083 defines it, by dividing polynomials over GF(2), and the
    proof that the writer's shift register computes it. */
module Division {
  import opened Bytes
  import opened Checksum

  // ---------- Polynomials ----------

  // The powers of the generator.
  const POWERS: set<nat> := {0, 1, 2, 4, 5, 7, 8, 10, 11, 12, 16, 22, 23, 26, 32}

  // A polynomial is the sequence of its coefficients, highest power first.
  function Generator(): (g: seq<bool>)
    ensures |g| == 33
  {
    seq(33, i requires 0 <= i < 33 => 32 - i in POWERS)
  }

  function Add(a: seq<bool>, b: seq<bool>): (sum: seq<bool>)
    requires |a| == |b|
    ensures |sum| == |a| && forall i | 0 <= i < |a| :: sum[i] == (a[i] != b[i])
  {
    seq(|a|, i requires 0 <= i < |a| => a[i] != b[i])
  }

  function Zeros(n: nat): (z: seq<bool>)
    ensures |z| == n && forall i | 0 <= i < n :: !z[i]
  {
    seq(n, i requires 0 <= i < n => false)
  }

  // Long division by the generator: what is left below its highest power.
  function Remainder(a: seq<bool>): (r: seq<bool>)
    ensures |r| == if |a| <= 32 then |a| else 32
    decreases |a|
  {
    if |a| <= 32 then a
    else if a[0] then Remainder(Add(a, Generator() + Zeros(|a| - 33))[1..])
    else Remainder(a[1..])
  }

  // ---------- The checksum ----------

  // The lowest bits of a number, lowest first.
  function Bits(n: nat, x: nat): (bits: seq<bool>)
    ensures |bits| == n
  {
    if n == 0 then [] else [x % 2 == 1] + Bits(n - 1, x / 2)
  }

  function Value(bits: seq<bool>): nat {
    if bits == [] then 0 else (if bits[0] then 1 else 0) + 2 * Value(bits[1..])
  }

  // Every byte with its lowest bit first.
  function MessageBits(bytes: seq<Byte>): seq<bool> {
    if bytes == [] then [] else Bits(8, bytes[0]) + MessageBits(bytes[1..])
  }

  function Complement(bits: seq<bool>): (c: seq<bool>)
    ensures |c| == |bits| && forall i | 0 <= i < |bits| :: c[i] == !bits[i]
  {
    seq(|bits|, i requires 0 <= i < |bits| => !bits[i])
  }

  // The message times x^32 with its first 32 bits complemented.
  function Dividend(bytes: seq<Byte>): seq<bool> {
    var bits := MessageBits(bytes) + Zeros(32);
    Complement(bits[..32]) + bits[32..]
  }

  // The complement of the remainder, highest power in the lowest bit.
  function CrcOf(bytes: seq<Byte>): nat {
    Value(Complement(Remainder(Dividend(bytes))))
  }

  // ---------- Bits of registers ----------

  lemma {:induction false} BitsOfXor(n: nat, a: nat, b: nat)
    ensures Bits(n, Xor(a, b)) == Add(Bits(n, a), Bits(n, b))
  {
    if n == 0 {
    } else {
      XorParts(a, b);
      BitsOfXor(n - 1, a / 2, b / 2);
      OddSum(a, b);
      hide Xor;
    }
  }

  // One bit more of a number that has none there.
  lemma {:induction false} BitsAbove(n: nat, x: nat)
    requires x < Pow2(n)
    ensures Bits(n + 1, x) == Bits(n, x) + [false]
  {
    if n == 0 {
      assert x == 0 && Bits(0, 0) == [];
    } else {
      BitsAbove(n - 1, x / 2);
      assert Bits(n + 1, x) == [x % 2 == 1] + Bits(n, x / 2);
    }
  }

  lemma PowersOfTwo()
    ensures Pow2(8) == 0x100 && Pow2(32) == 0x1_0000_0000
  {
    assert Pow2(8) == 0x100;
    assert Pow2(16) == 0x1_0000;
    assert Pow2(24) == 0x100_0000;
  }

  lemma BitsOfHalf(c: U32)
    ensures Bits(32, c / 2) == Bits(32, c)[1..] + [false]
  {
    hide Bits, Pow2;
    PowersOfTwo();
    BitsAbove(32, c);
    BitsStep(32, c);
    var bits, half := Bits(32, c), Bits(32, c / 2);
    assert bits + [false] == [c % 2 == 1] + half;
    assert half == ([c % 2 == 1] + half)[1..] == (bits + [false])[1..];
  }

  lemma BitsStep(n: nat, x: nat)
    ensures Bits(n + 1, x) == [x % 2 == 1] + Bits(n, x / 2)
  {}

  // The writer's constant is the generator without its highest power.
  lemma PolyIsGenerator()
    ensures Bits(32, POLY) == Generator()[1..]
  {
    hide Bits;
    LowByte(24, POLY);
    LowByte(16, 0xED_B883);
    LowByte(8, 0xEDB8);
    LowByte(0, 0xED);
    NoBits(0);
    PolyBytes();
    PolyPowers();
    hide LowBits, FourBits, Generator;
  }

  lemma NoBits(x: nat)
    ensures Bits(0, x) == []
  {}

  function LowBits(x: nat): (bits: seq<bool>)
    ensures |bits| == 8
  {
    FourBits(x) + FourBits(x / 16)
  }

  function FourBits(x: nat): (bits: seq<bool>)
    ensures |bits| == 4
  {
    [x % 2 == 1, x / 2 % 2 == 1, x / 4 % 2 == 1, x / 8 % 2 == 1]
  }

  // The lowest byte and the rest.
  lemma LowByte(n: nat, x: nat)
    ensures Bits(n + 8, x) == LowBits(x) + Bits(n, x / 256)
  {
    LowFour(n + 4, x);
    LowFour(n, x / 16);
    hide Bits, FourBits;
    assert x / 16 / 16 == x / 256;
  }

  lemma LowFour(n: nat, x: nat)
    ensures Bits(n + 4, x) == FourBits(x) + Bits(n, x / 16)
  {
    BitsStep(n + 3, x);
    BitsStep(n + 2, x / 2);
    BitsStep(n + 1, x / 4);
    BitsStep(n, x / 8);
    hide Bits;
    Halvings(x);
  }

  lemma Halvings(x: nat)
    ensures x / 2 / 2 == x / 4 && x / 4 / 2 == x / 8 && x / 8 / 2 == x / 16
  {}

  lemma PolyBytes()
    ensures LowBits(0xEDB8_8320) == [false, false, false, false, false, true, false, false]
    ensures LowBits(0xED_B883) == [true, true, false, false, false, false, false, true]
    ensures LowBits(0xEDB8) == [false, false, false, true, true, true, false, true]
    ensures LowBits(0xED) == [true, false, true, true, false, true, true, true]
  {}

  // The generator's coefficients from x^31 down, eight at a time.
  lemma PolyPowers()
    ensures Generator()[1..]
         == [false, false, false, false, false, true, false, false]
            + ([true, true, false, false, false, false, false, true]
               + ([false, false, false, true, true, true, false, true]
                  + [true, false, true, true, false, true, true, true]))
  {}

  // What a shift does to the bits: one place up, and the generator is added if a bit left.
  lemma ShiftBits(c: U32)
    ensures var up := Bits(32, c)[1..] + [false];
            Bits(32, Shift(c)) == if Bits(32, c)[0] then Add(up, Generator()[1..]) else up
  {
    BitsOfHalf(c);
    BitsOfXor(32, c / 2, POLY);
    PolyIsGenerator();
    hide Xor;
    assert Bits(32, c)[0] == (c % 2 == 1);
  }

  // ---------- The register divides ----------

  function Bit(b: bool): nat {
    if b then 1 else 0
  }

  // The register fed bit by bit.
  function FoldBits(c: U32, bits: seq<bool>): U32
    decreases |bits|
  {
    if bits == [] then c
    else
      XorU32(c, Bit(bits[0]));
      FoldBits(Shift(Xor(c, Bit(bits[0]))), bits[1..])
  }

  lemma BitsOfBit(b: bool)
    ensures Bits(32, Bit(b)) == [b] + Zeros(31)
  {
    ZeroBits(31);
    assert Bits(32, Bit(b)) == [b] + Bits(31, 0);
  }

  lemma {:induction false} ZeroBits(n: nat)
    ensures Bits(n, 0) == Zeros(n)
  {
    if n == 0 {
    } else {
      ZeroBits(n - 1);
    }
  }

  // The register so far, over the bits still to come.
  function Pending(c: U32, bits: seq<bool>): seq<bool> {
    Add(Bits(32, c) + Zeros(|bits|), bits + Zeros(32))
  }

  // One bit fed is one step of the division.
  lemma FeedDivides(c: U32, bits: seq<bool>)
    requires bits != []
    ensures Xor(c, Bit(bits[0])) < 0x1_0000_0000
    ensures Remainder(Pending(c, bits)) == Remainder(Pending(Shift(Xor(c, Bit(bits[0]))), bits[1..]))
  {
    var b := bits[0];
    XorU32(c, Bit(b));
    var fed: U32 := Xor(c, Bit(b));
    BitsOfXor(32, c, Bit(b));
    BitsOfBit(b);
    ShiftBits(fed);
    hide Xor, Shift, Bits, Bit;
    DivisionStep(Bits(32, c), Bits(32, fed), Bits(32, Shift(fed)), bits);
  }

  // The division's window before and after: r is the register, fed the register with the bit
  // mixed in, and next the shifted one.
  lemma DivisionStep(r: seq<bool>, fed: seq<bool>, next: seq<bool>, bits: seq<bool>)
    requires |r| == |fed| == |next| == 32 && bits != []
    requires fed == Add(r, [bits[0]] + Zeros(31))
    requires next == if fed[0] then Add(fed[1..] + [false], Generator()[1..]) else fed[1..] + [false]
    ensures Remainder(Add(r + Zeros(|bits|), bits + Zeros(32)))
         == Remainder(Add(next + Zeros(|bits| - 1), bits[1..] + Zeros(32)))
  {
    var n := |bits| - 1;
    var a := Add(r + Zeros(n + 1), bits + Zeros(32));
    var after := Add(next + Zeros(n), bits[1..] + Zeros(32));
    assert a[0] == fed[0];
    hide Generator, Remainder;
    var up := fed[1..] + [false];
    assert forall k | 0 <= k < 31 :: up[k] == r[k + 1];
    assert a[1..] == Add(up + Zeros(n), bits[1..] + Zeros(32));
    if a[0] {
      var g := Generator();
      assert Add(a, g + Zeros(n))[1..] == after by {
        assert forall k | 0 <= k < n + 32 :: (g + Zeros(n))[k + 1] == (g[1..] + Zeros(n))[k];
      }
    } else {
      assert a[1..] == after;
    }
    RemainderStep(a, n);
  }

  lemma RemainderStep(a: seq<bool>, n: nat)
    requires |a| == n + 33
    ensures Remainder(a) == if a[0] then Remainder(Add(a, Generator() + Zeros(n))[1..]) else Remainder(a[1..])
  {}

  lemma {:induction false} FoldDivides(c: U32, bits: seq<bool>)
    ensures Remainder(Pending(c, bits)) == Bits(32, FoldBits(c, bits))
    decreases |bits|
  {
    if bits == [] {
      assert Pending(c, bits) == Bits(32, c);
    } else {
      FeedDivides(c, bits);
      FoldDivides(Shift(Xor(c, Bit(bits[0]))), bits[1..]);
    }
  }

  // ---------- Bytes ----------

  lemma FedBitIsMixedIn(c: U32, x: nat)
    requires x < 0x1_0000_0000
    ensures Xor(c, x) < 0x1_0000_0000 && Xor(c, x % 2) < 0x1_0000_0000
    ensures x / 2 < 0x1_0000_0000
    ensures Shift(Xor(c, x)) == Xor(Shift(Xor(c, x % 2)), x / 2)
  {
    XorU32(c, x);
    XorU32(c, x % 2);
    assert Pow2(1) == 2;
    XorDisjoint(1, x % 2, x / 2);
    assert x == x % 2 + 2 * (x / 2);
    XorAssociative(c, x % 2, 2 * (x / 2));
    ShiftLinear(Xor(c, x % 2), 2 * (x / 2));
    ShiftOfDouble(x / 2);
  }

  lemma {:induction false} FoldOfNumber(c: U32, k: nat, x: nat)
    requires k <= 32 && x < Pow2(k) <= 0x1_0000_0000
    ensures Xor(c, x) < 0x1_0000_0000
    ensures FoldBits(c, Bits(k, x)) == Shifts(k, Xor(c, x))
    decreases k
  {
    XorU32(c, x);
    if k == 0 {
      XorZero(c);
    } else {
      FedBitIsMixedIn(c, x);
      FoldOfNumber(Shift(Xor(c, x % 2)), k - 1, x / 2);
      assert Bits(k, x)[1..] == Bits(k - 1, x / 2);
      assert Bit(Bits(k, x)[0]) == x % 2;
    }
  }

  lemma {:induction false} FoldConcat(c: U32, a: seq<bool>, b: seq<bool>)
    ensures FoldBits(c, a + b) == FoldBits(FoldBits(c, a), b)
    decreases |a|
  {
    if a == [] {
      assert a + b == b;
    } else {
      assert (a + b)[1..] == a[1..] + b;
      XorU32(c, Bit(a[0]));
      FoldConcat(Shift(Xor(c, Bit(a[0]))), a[1..], b);
    }
  }

  lemma {:induction false} FoldOfMessage(c: U32, bytes: seq<Byte>)
    ensures FoldBits(c, MessageBits(bytes)) == CrcFold(c, bytes)
    decreases bytes
  {
    if bytes == [] {
    } else {
      PowersOfTwo();
      FoldConcat(c, Bits(8, bytes[0]), MessageBits(bytes[1..]));
      FoldOfNumber(c, 8, bytes[0]);
      XorU32(c, bytes[0]);
      FoldOfMessage(Shifts(8, Xor(c, bytes[0])), bytes[1..]);
    }
  }

  // ---------- Complements ----------

  lemma {:induction false} BitsOfComplement(n: nat, x: nat)
    requires x < Pow2(n)
    ensures Bits(n, Pow2(n) - 1 - x) == Complement(Bits(n, x))
  {
    if n == 0 {
    } else {
      var y := Pow2(n) - 1 - x;
      assert y % 2 == 1 - x % 2 && y / 2 == Pow2(n - 1) - 1 - x / 2;
      BitsOfComplement(n - 1, x / 2);
    }
  }

  lemma {:induction false} ValueOfBits(n: nat, x: nat)
    requires x < Pow2(n)
    ensures Value(Bits(n, x)) == x
  {
    if n == 0 {
    } else {
      ValueOfBits(n - 1, x / 2);
    }
  }

  // A register of ones complements the first 32 bits.
  lemma OnesComplement(bytes: seq<Byte>)
    ensures Pending(0xFFFF_FFFF, MessageBits(bytes)) == Dividend(bytes)
  {
    hide Bits, MessageBits, Pow2;
    PowersOfTwo();
    BitsOfComplement(32, 0);
    ZeroBits(32);
    var bits := MessageBits(bytes);
    assert Bits(32, 0xFFFF_FFFF) == Complement(Zeros(32));
    var whole := bits + Zeros(32);
    assert Dividend(bytes) == Complement(whole[..32]) + whole[32..];
    assert Pending(0xFFFF_FFFF, bits) == Add(Complement(Zeros(32)) + Zeros(|bits|), whole);
    hide Dividend, Pending;
  }

  // The writer's CRC-32 is the complement of the remainder of the polynomial division.
  lemma CrcByDivision(bytes: seq<Byte>)
    ensures CrcOf(bytes) == Crc32(bytes)
  {
    var c := CrcFold(0xFFFF_FFFF, bytes);
    OnesComplement(bytes);
    FoldDivides(0xFFFF_FFFF, MessageBits(bytes));
    FoldOfMessage(0xFFFF_FFFF, bytes);
    PowersOfTwo();
    BitsOfComplement(32, c);
    ValueOfBits(32, 0xFFFF_FFFF - c);
    hide Bits, MessageBits, Pow2, Value, Complement, Remainder, Dividend, CrcFold, FoldBits;
  }
}
