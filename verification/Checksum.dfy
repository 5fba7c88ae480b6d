/** The two checksums of the screenshot writer: CRC-32 over chunk bodies and
    Adler-32 over the uncompressed image data. */
module Checksum {
  import opened Bytes

  // ---------- Exclusive or ----------

  // Bitwise exclusive or of two naturals, lowest bit first.
  function Xor(a: nat, b: nat): nat {
    if a == 0 && b == 0 then 0 else (a + b) % 2 + 2 * Xor(a / 2, b / 2)
  }

  function Pow2(k: nat): (p: nat)
    ensures p > 0
  {
    if k == 0 then 1 else 2 * Pow2(k - 1)
  }

  lemma {:induction false} XorBound(k: nat, a: nat, b: nat)
    requires a < Pow2(k) && b < Pow2(k)
    ensures Xor(a, b) < Pow2(k)
  {
    if k == 0 {
    } else {
      XorBound(k - 1, a / 2, b / 2);
    }
  }

  lemma XorU32(a: U32, b: U32)
    ensures Xor(a, b) < 0x1_0000_0000
  {
    assert Pow2(8) == 0x100;
    assert Pow2(16) == 0x1_0000;
    assert Pow2(24) == 0x100_0000;
    assert Pow2(32) == 0x1_0000_0000;
    XorBound(32, a, b);
  }

  lemma {:induction false} XorZero(a: nat)
    ensures Xor(a, 0) == Xor(0, a) == a
  {
    if a == 0 {
    } else {
      XorZero(a / 2);
    }
  }

  // The lowest bit and the remaining bits of a sum.
  lemma XorParts(a: nat, b: nat)
    ensures Xor(a, b) % 2 == (a + b) % 2
    ensures Xor(a, b) / 2 == Xor(a / 2, b / 2)
  {
    Digits((a + b) % 2, Xor(a / 2, b / 2));
  }

  lemma Digits(bit: nat, rest: nat)
    requires bit < 2
    ensures (bit + 2 * rest) % 2 == bit && (bit + 2 * rest) / 2 == rest
  {}

  lemma ParityOfSums(a: nat, b: nat, c: nat, ab: nat, bc: nat)
    requires ab % 2 == (a + b) % 2 && bc % 2 == (b + c) % 2
    ensures (ab + c) % 2 == (a + bc) % 2
  {}

  lemma Halves(x: nat, y: nat)
    requires x % 2 == y % 2 && x / 2 == y / 2
    ensures x == y
  {}

  lemma {:induction false} XorAssociative(a: nat, b: nat, c: nat)
    ensures Xor(Xor(a, b), c) == Xor(a, Xor(b, c))
  {
    if a + b + c == 0 {
    } else {
      XorAssociative(a / 2, b / 2, c / 2);
      XorAssociativeStep(a, b, c);
    }
  }

  lemma XorAssociativeStep(a: nat, b: nat, c: nat)
    requires Xor(Xor(a / 2, b / 2), c / 2) == Xor(a / 2, Xor(b / 2, c / 2))
    ensures Xor(Xor(a, b), c) == Xor(a, Xor(b, c))
  {
    XorParts(a, b);
    XorParts(b, c);
    XorParts(Xor(a, b), c);
    XorParts(a, Xor(b, c));
    ParityOfSums(a, b, c, Xor(a, b), Xor(b, c));
    Halves(Xor(Xor(a, b), c), Xor(a, Xor(b, c)));
  }

  lemma {:induction false} XorCommutative(a: nat, b: nat)
    ensures Xor(a, b) == Xor(b, a)
  {
    if a + b == 0 {
    } else {
      XorCommutative(a / 2, b / 2);
    }
  }

  lemma {:induction false} XorSelf(a: nat, b: nat)
    ensures Xor(a, b) == 0 <==> a == b
  {
    if a + b == 0 {
    } else {
      XorSelf(a / 2, b / 2);
    }
  }

  lemma XorCancel(c: nat, x: nat, y: nat)
    requires Xor(c, x) == Xor(c, y)
    ensures x == y
  {
    XorAssociative(c, c, x);
    XorAssociative(c, c, y);
    XorSelf(c, c);
    XorZero(x);
    XorZero(y);
  }

  // The sum of two sums, regrouped by columns.
  lemma XorRegroup(a: nat, b: nat, c: nat, d: nat)
    ensures Xor(Xor(a, b), Xor(c, d)) == Xor(Xor(a, c), Xor(b, d))
  {
    XorAssociative(a, b, Xor(c, d));
    XorAssociative(b, c, d);
    XorCommutative(b, c);
    XorAssociative(c, b, d);
    XorAssociative(a, c, Xor(b, d));
  }

  // Values without common bits add up.
  lemma {:induction false} XorDisjoint(k: nat, low: nat, high: nat)
    requires low < Pow2(k)
    ensures Xor(low, Pow2(k) * high) == low + Pow2(k) * high
  {
    if k == 0 {
      XorZero(high);
    } else {
      XorDisjoint(k - 1, low / 2, high);
      XorBelowDouble(low, Pow2(k - 1) * high);
      DoubleFactor(Pow2(k - 1), high);
    }
  }

  lemma DoubleFactor(p: nat, high: nat)
    ensures 2 * p * high == 2 * (p * high)
  {}

  lemma XorBelowDouble(low: nat, m: nat)
    requires Xor(low / 2, m) == low / 2 + m
    ensures Xor(low, 2 * m) == low + 2 * m
  {
    hide Xor;
    XorParts(low, 2 * m);
    Digits(low % 2, low / 2 + m);
    Digits(0, m);
    Halves(Xor(low, 2 * m), low + 2 * m);
  }

  // ---------- CRC-32 ----------

  const POLY: U32 := 0xEDB8_8320

  // One shift of the register; a set low bit mixes the polynomial in.
  function Shift(c: U32): U32 {
    XorU32(c / 2, POLY);
    if c % 2 == 1 then Xor(c / 2, POLY) else c / 2
  }

  function Shifts(n: nat, c: U32): U32 {
    if n == 0 then c else Shifts(n - 1, Shift(c))
  }

  function CrcFold(crc: U32, bytes: seq<Byte>): U32
    decreases bytes
  {
    if bytes == [] then crc
    else
      XorU32(crc, bytes[0]);
      CrcFold(Shifts(8, Xor(crc, bytes[0])), bytes[1..])
  }

  // Both the initial and the final register are complemented.
  function Crc32(bytes: seq<Byte>): U32 {
    0xFFFF_FFFF - CrcFold(0xFFFF_FFFF, bytes)
  }

  // A shift is linear over GF(2).
  lemma ShiftLinear(c: U32, d: U32)
    ensures Xor(c, d) < 0x1_0000_0000
    ensures Shift(Xor(c, d)) == Xor(Shift(c), Shift(d))
  {
    hide Xor, Shift;
    XorU32(c, d);
    XorParts(c, d);
    OddSum(c, d);
    ShiftCases(c, c / 2, c % 2 == 1);
    ShiftCases(d, d / 2, d % 2 == 1);
    ShiftCases(Xor(c, d), Xor(c / 2, d / 2), (c % 2 == 1) != (d % 2 == 1));
    ShiftColumns(c / 2, d / 2, c % 2 == 1, d % 2 == 1);
  }

  lemma OddSum(c: nat, d: nat)
    ensures (c + d) % 2 == 1 <==> (c % 2 == 1) != (d % 2 == 1)
  {}

  lemma ShiftCases(c: U32, half: nat, odd: bool)
    requires c / 2 == half && (c % 2 == 1 <==> odd)
    ensures Shift(c) == if odd then Xor(half, POLY) else half
  {}

  // The polynomial terms of a sum are the sum of the polynomial terms.
  lemma ShiftColumns(x: nat, y: nat, p: bool, q: bool)
    ensures Xor(if p then Xor(x, POLY) else x, if q then Xor(y, POLY) else y)
         == if p == q then Xor(x, y) else Xor(Xor(x, y), POLY)
  {
    if p && q {
      XorRegroup(x, POLY, y, POLY);
      XorSelf(POLY, POLY);
      XorZero(Xor(x, y));
    } else if p {
      XorAssociative(x, POLY, y);
      XorCommutative(POLY, y);
      XorAssociative(x, y, POLY);
    } else if q {
      XorAssociative(x, y, POLY);
    }
  }

  // The polynomial's top bit is set, so no shift loses information.
  lemma ShiftInjective(c: U32, d: U32)
    requires Shift(c) == Shift(d)
    ensures c == d
  {
    ShiftLinear(c, d);
    var e := Xor(c, d);
    XorSelf(Shift(c), Shift(d));
    XorSelf(e / 2, POLY);
    assert e == 0;
    XorSelf(c, d);
  }

  lemma {:induction false} ShiftsLinear(n: nat, c: U32, d: U32)
    ensures Xor(c, d) < 0x1_0000_0000
    ensures Shifts(n, Xor(c, d)) == Xor(Shifts(n, c), Shifts(n, d))
  {
    ShiftLinear(c, d);
    if n == 0 {
    } else {
      ShiftsLinear(n - 1, Shift(c), Shift(d));
    }
  }

  lemma {:induction false} ShiftsInjective(n: nat, c: U32, d: U32)
    requires Shifts(n, c) == Shifts(n, d)
    ensures c == d
  {
    if n == 0 {
    } else {
      ShiftsInjective(n - 1, Shift(c), Shift(d));
      ShiftInjective(c, d);
    }
  }

  // The register after any message determines the register before it.
  lemma {:induction false} CrcFoldInjective(c: U32, d: U32, bytes: seq<Byte>)
    requires CrcFold(c, bytes) == CrcFold(d, bytes)
    ensures c == d
    decreases bytes
  {
    if bytes == [] {
    } else {
      var x := bytes[0];
      XorU32(c, x);
      XorU32(d, x);
      CrcFoldInjective(Shifts(8, Xor(c, x)), Shifts(8, Xor(d, x)), bytes[1..]);
      ShiftsInjective(8, Xor(c, x), Xor(d, x));
      XorCommutative(c, x);
      XorCommutative(d, x);
      XorCancel(x, c, d);
    }
  }

  lemma {:induction false} CrcFoldConcat(c: U32, a: seq<Byte>, b: seq<Byte>)
    ensures CrcFold(c, a + b) == CrcFold(CrcFold(c, a), b)
    decreases a
  {
    if a == [] {
      assert a + b == b;
    } else {
      assert (a + b)[1..] == a[1..] + b;
      XorU32(c, a[0]);
      CrcFoldConcat(Shifts(8, Xor(c, a[0])), a[1..], b);
    }
  }

  // Up to four bytes as one register value, first byte lowest.
  function Pack(bytes: seq<Byte>): (v: nat)
    ensures |bytes| == 0 ==> v == 0
    ensures |bytes| <= 1 ==> v < 0x100
    ensures |bytes| <= 2 ==> v < 0x1_0000
    ensures |bytes| <= 3 ==> v < 0x100_0000
    ensures |bytes| <= 4 ==> v < 0x1_0000_0000
  {
    if bytes == [] then 0 else bytes[0] + 256 * Pack(bytes[1..])
  }

  lemma {:induction false} PackInjective(a: seq<Byte>, b: seq<Byte>)
    requires |a| == |b|
    requires Pack(a) == Pack(b)
    ensures a == b
  {
    if a == [] {
    } else {
      PackInjective(a[1..], b[1..]);
      assert a == [a[0]] + a[1..] && b == [b[0]] + b[1..];
    }
  }

  // Shifts undo a left shift that dropped no bits.
  lemma {:induction false} ShiftsOfLeftShift(k: nat, v: nat)
    requires Pow2(k) * v < 0x1_0000_0000
    ensures Shifts(k, Pow2(k) * v) == v
  {
    if k == 0 {
      assert Pow2(0) == 1;
    } else {
      var m := Pow2(k - 1) * v;
      DoubleFactor(Pow2(k - 1), v);
      assert Pow2(k) * v == 2 * m;
      ShiftsOfLeftShift(k - 1, v);
      hide Pow2, Xor;
      ShiftOfDouble(m);
      assert Shifts(k, 2 * m) == Shifts(k - 1, m);
    }
  }

  lemma ShiftOfDouble(m: nat)
    requires 2 * m < 0x1_0000_0000
    ensures Shift(2 * m) == m
  {}

  lemma {:induction false} ShiftsAdd(m: nat, n: nat, c: U32)
    ensures Shifts(m, Shifts(n, c)) == Shifts(n + m, c)
    decreases n
  {
    if n == 0 {
    } else {
      ShiftsAdd(m, n - 1, Shift(c));
    }
  }

  // Eight shifts of a register whose upper bytes are still to come.
  lemma ShiftsOfUpperBytes(c: U32, x: Byte, p: nat)
    requires p < 0x100_0000
    ensures Xor(c, x) < 0x1_0000_0000 && Xor(c, x + 256 * p) < 0x1_0000_0000
    ensures Xor(Shifts(8, Xor(c, x)), p) == Shifts(8, Xor(c, x + 256 * p))
  {
    XorU32(c, x);
    XorU32(c, x + 256 * p);
    UpperBytes(x, p);
    hide Xor, Shifts;
    var upper: U32 := 256 * p;
    XorAssociative(c, x, upper);
    ShiftsLinear(8, Xor(c, x), upper);
  }

  lemma UpperBytes(x: Byte, p: nat)
    requires p < 0x100_0000
    ensures Shifts(8, 256 * p) == p && Xor(x, 256 * p) == x + 256 * p
  {
    assert Pow2(8) == 256;
    hide Pow2, Xor, Shifts;
    ShiftsOfLeftShift(8, p);
    XorDisjoint(8, x, p);
  }

  // Feeding at most four bytes equals mixing them in at once and shifting afterwards.
  lemma {:induction false} CrcFoldOfWindow(c: U32, bytes: seq<Byte>)
    requires |bytes| <= 4
    ensures Xor(c, Pack(bytes)) < 0x1_0000_0000
    ensures CrcFold(c, bytes) == Shifts(8 * |bytes|, Xor(c, Pack(bytes)))
    decreases bytes
  {
    XorU32(c, Pack(bytes));
    if bytes == [] {
      XorZero(c);
    } else {
      var rest := bytes[1..];
      ShiftsOfUpperBytes(c, bytes[0], Pack(rest));
      CrcFoldOfWindow(Shifts(8, Xor(c, bytes[0])), rest);
      ShiftsAdd(8 * |rest|, 8, Xor(c, Pack(bytes)));
    }
  }

  // Two different windows of at most four bytes give different CRCs in any one message.
  lemma WindowChangesCrc(prefix: seq<Byte>, x: seq<Byte>, y: seq<Byte>, suffix: seq<Byte>)
    requires |x| == |y| <= 4
    requires x != y
    ensures Crc32(prefix + x + suffix) != Crc32(prefix + y + suffix)
  {
    var c := CrcFold(0xFFFF_FFFF, prefix);
    var s, t := CrcFold(c, x), CrcFold(c, y);
    CrcFoldConcat(0xFFFF_FFFF, prefix, x);
    CrcFoldConcat(0xFFFF_FFFF, prefix, y);
    CrcFoldConcat(0xFFFF_FFFF, prefix + x, suffix);
    CrcFoldConcat(0xFFFF_FFFF, prefix + y, suffix);
    if Crc32(prefix + x + suffix) == Crc32(prefix + y + suffix) {
      CrcFoldInjective(s, t, suffix);
      CrcFoldOfWindow(c, x);
      CrcFoldOfWindow(c, y);
      ShiftsInjective(8 * |x|, Xor(c, Pack(x)), Xor(c, Pack(y)));
      XorCancel(c, Pack(x), Pack(y));
      PackInjective(x, y);
    }
  }

  // Every burst of changes confined to four consecutive bytes is detected.
  lemma BurstDetected(a: seq<Byte>, b: seq<Byte>, at: nat, width: nat)
    requires |a| == |b| && at + width <= |a| && width <= 4
    requires forall i | 0 <= i < |a| && !(at <= i < at + width) :: a[i] == b[i]
    requires a != b
    ensures Crc32(a) != Crc32(b)
  {
    var prefix, suffix := a[..at], a[at + width..];
    var x, y := a[at..at + width], b[at..at + width];
    assert a == prefix + x + suffix;
    assert b == prefix + y + suffix;
    WindowChangesCrc(prefix, x, y, suffix);
  }

  // ---------- Adler-32 ----------

  const ADLER_MOD: U32 := 65521

  // One byte of the running sums. The 32-bit types of the intermediate sums are
  // checked here, so no addition of the source wraps around.
  function AdlerStep(a: U32, b: U32, byte: Byte): (r: (U32, U32))
    requires a < ADLER_MOD && b < ADLER_MOD
    ensures r.0 < ADLER_MOD && r.1 < ADLER_MOD
  {
    var bumped: U32 := a + byte;
    var a': U32 := bumped % ADLER_MOD;
    var total: U32 := b + a';
    (a', total % ADLER_MOD)
  }

  function AdlerFold(a: U32, b: U32, bytes: seq<Byte>): (r: (U32, U32))
    requires a < ADLER_MOD && b < ADLER_MOD
    ensures r.0 < ADLER_MOD && r.1 < ADLER_MOD
    decreases bytes
  {
    if bytes == [] then (a, b)
    else
      var (a', b') := AdlerStep(a, b, bytes[0]);
      AdlerFold(a', b', bytes[1..])
  }

  // The sums sit in disjoint halves of the word.
  function Adler32(bytes: seq<Byte>): U32 {
    var (a, b) := AdlerFold(1, 0, bytes);
    b * 0x1_0000 + a
  }

  function Sum(bytes: seq<Byte>): nat {
    if bytes == [] then 0 else bytes[0] + Sum(bytes[1..])
  }

  // Each byte weighted by the number of positions from it to the end.
  function WeightedSum(bytes: seq<Byte>): nat {
    if bytes == [] then 0 else |bytes| * bytes[0] + WeightedSum(bytes[1..])
  }

  lemma ModMultiple(y: int, t: int)
    ensures (y + t * ADLER_MOD) % ADLER_MOD == y % ADLER_MOD
  {
    var q := (y + t * ADLER_MOD) / ADLER_MOD;
    assert y == (q - t) * ADLER_MOD + (y + t * ADLER_MOD) % ADLER_MOD;
  }

  // Reducing one factor of a term does not change the reduced sum.
  lemma ModFactor(y: int, k: int, z: int)
    ensures (y + k * (z % ADLER_MOD)) % ADLER_MOD == (y + k * z) % ADLER_MOD
  {
    var q := z / ADLER_MOD;
    assert z % ADLER_MOD == z - q * ADLER_MOD;
    assert y + k * (z % ADLER_MOD) == (y + k * z) + (-(k * q)) * ADLER_MOD by {
      assert k * (z - q * ADLER_MOD) == k * z - (k * q) * ADLER_MOD;
    }
    ModMultiple(y + k * z, -(k * q));
  }

  // Reducing both sums at one byte and once more at the end reduces the whole once.
  lemma AdlerStepClosed(a: int, b: int, x: int, n: nat, w: int)
    ensures ((b + (a + x) % ADLER_MOD) % ADLER_MOD + n * ((a + x) % ADLER_MOD) + w) % ADLER_MOD
         == (b + (n + 1) * a + ((n + 1) * x + w)) % ADLER_MOD
  {
    var a' := (a + x) % ADLER_MOD;
    ModFactor(n * a' + w, 1, b + a');
    ModFactor(b + w, n + 1, a + x);
    assert b + a' + n * a' + w == b + w + (n + 1) * a';
    assert b + w + (n + 1) * (a + x) == b + (n + 1) * a + ((n + 1) * x + w);
  }

  // The closed forms of both sums, from given starting values.
  function ClosedA(a: nat, sum: nat): nat {
    (a + sum) % ADLER_MOD
  }

  function ClosedB(a: nat, b: nat, n: nat, weighted: nat): nat {
    (b + n * a + weighted) % ADLER_MOD
  }

  // One byte in front.
  lemma ClosedStepA(a: nat, x: nat, s: nat)
    ensures ClosedA((a + x) % ADLER_MOD, s) == ClosedA(a, x + s)
  {
    ModFactor(s, 1, a + x);
  }

  lemma ClosedStepB(a: nat, b: nat, x: nat, n: nat, w: nat)
    ensures var a' := (a + x) % ADLER_MOD;
            ClosedB(a', (b + a') % ADLER_MOD, n, w) == ClosedB(a, b, n + 1, (n + 1) * x + w)
  {
    var a' := (a + x) % ADLER_MOD;
    var after := (b + (n + 1) * a + ((n + 1) * x + w)) % ADLER_MOD;
    assert ClosedB(a, b, n + 1, (n + 1) * x + w) == after;
    assert ClosedB(a', (b + a') % ADLER_MOD, n, w) == ((b + a') % ADLER_MOD + n * a' + w) % ADLER_MOD;
    hide ClosedB;
    AdlerStepClosed(a, b, x, n, w);
  }

  lemma ClosedNothing(a: nat, b: nat)
    requires a < ADLER_MOD && b < ADLER_MOD
    ensures ClosedA(a, 0) == a && ClosedB(a, b, 0, 0) == b
  {}

  lemma WeightedStep(bytes: seq<Byte>, n: nat)
    requires |bytes| == n + 1
    ensures WeightedSum(bytes) == (n + 1) * bytes[0] + WeightedSum(bytes[1..])
    ensures Sum(bytes) == bytes[0] + Sum(bytes[1..])
  {}

  lemma AdlerFoldStep(a: U32, b: U32, bytes: seq<Byte>)
    requires a < ADLER_MOD && b < ADLER_MOD && bytes != []
    ensures var a' := (a + bytes[0]) % ADLER_MOD;
            AdlerFold(a, b, bytes) == AdlerFold(a', (b + a') % ADLER_MOD, bytes[1..])
  {}

  lemma {:induction false} AdlerFoldClosed(a: U32, b: U32, bytes: seq<Byte>)
    requires a < ADLER_MOD && b < ADLER_MOD
    ensures AdlerFold(a, b, bytes).0 == ClosedA(a, Sum(bytes))
    ensures AdlerFold(a, b, bytes).1 == ClosedB(a, b, |bytes|, WeightedSum(bytes))
    decreases bytes
  {
    hide ClosedA, ClosedB, AdlerStep;
    if bytes == [] {
      ClosedNothing(a, b);
    } else {
      var n := |bytes| - 1;
      WeightedStep(bytes, n);
      var a' := (a + bytes[0]) % ADLER_MOD;
      var b' := (b + a') % ADLER_MOD;
      AdlerFoldStep(a, b, bytes);
      hide Sum, WeightedSum, AdlerFold;
      AdlerFoldClosed(a', b', bytes[1..]);
      ClosedStepA(a, bytes[0], Sum(bytes[1..]));
      ClosedStepB(a, b, bytes[0], n, WeightedSum(bytes[1..]));
    }
  }

  // The checksum as that section defines it: the sum of the bytes and the sum of its running
  // values, each modulo the largest prime below 2^16.
  function AdlerOf(bytes: seq<Byte>): nat {
    (|bytes| + WeightedSum(bytes)) % 65521 * 65536 + (1 + Sum(bytes)) % 65521
  }

  lemma Unpack(a: nat, b: nat)
    requires a < 0x1_0000
    ensures (b * 0x1_0000 + a) % 0x1_0000 == a && (b * 0x1_0000 + a) / 0x1_0000 == b
  {}

  // Adler-32 in the closed form of section 2.2 of RFC 1950.
  lemma AdlerClosedForm(bytes: seq<Byte>)
    ensures Adler32(bytes) % 0x1_0000 == (1 + Sum(bytes)) % 65521
    ensures Adler32(bytes) / 0x1_0000 == (|bytes| + WeightedSum(bytes)) % 65521
    ensures Adler32(bytes) == AdlerOf(bytes)
  {
    var (a, b) := AdlerFold(1, 0, bytes);
    assert Adler32(bytes) == b * 0x1_0000 + a;
    AdlerFoldClosed(1, 0, bytes);
    hide AdlerFold, Adler32, Sum, WeightedSum;
    Unpack(a, b);
  }
}
