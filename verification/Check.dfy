/** The two error checks of a frame: internal/frame/check.go.

    The CRC is specified as the remainder of a bit-by-bit polynomial division and the octet-at-a-time
    loop is proved to compute it. */
module Check {
  import opened Octets

  datatype Scheme = Checksum | CRC16 {
    function Size(): nat {
      if CRC16? then 2 else 1
    }
  }

  const CRC_INIT: bv16 := 0x1D0F
  const POLYNOMIAL: bv16 := 0x1021

  // Shifts whose amount is itself a bit-vector.

  function Left(x: bv16, k: bv16): bv16
    requires k <= 16
  {
    x << k
  }

  function Right(x: bv16, k: bv16): bv16
    requires k <= 16
  {
    x >> k
  }

  function Xor(x: bv16, y: bv16): bv16 {
    x ^ y
  }

  // ----- The reference: long division, one message bit at a time -----

  predicate TopBit(x: bv16) {
    Right(x, 15) == 1
  }

  /** Brings one message bit in and, when the bit leaving the register differs from it, subtracts
      the polynomial x^16 + x^12 + x^5 + 1. */
  function DivideBit(reg: bv16, bit: bool): bv16 {
    if TopBit(reg) != bit then Xor(Left(reg, 1), POLYNOMIAL) else Left(reg, 1)
  }

  function DivideBits(reg: bv16, bits: seq<bool>): bv16
    decreases |bits|
  {
    if bits == [] then reg else DivideBits(DivideBit(reg, bits[0]), bits[1..])
  }

  /** The n most significant bits of a word, most significant first. */
  function TopBits(x: bv16, n: nat): seq<bool>
    decreases n
  {
    if n == 0 then [] else [TopBit(x)] + TopBits(Left(x, 1), n - 1)
  }

  /** The eight bits of an octet, most significant first. */
  function Bits(c: Octet): seq<bool> {
    TopBits(Left(c as bv16, 8), 8)
  }

  function Remainder(reg: bv16, b: seq<Octet>): bv16
    decreases |b|
  {
    if b == [] then reg else Remainder(DivideBits(reg, Bits(b[0])), b[1..])
  }

  /** The OSDP CRC of b. */
  function Crc(b: seq<Octet>): bv16 {
    Remainder(CRC_INIT, b)
  }

  // ----- One octet of the division, in closed form -----

  /** The polynomial multiplied by a nibble. */
  function Times(t: bv16): bv16 {
    Xor(Xor(t, Left(t, 5)), Left(t, 12))
  }

  /** One bit of the division with no message bit coming in. */
  function Shift1(x: bv16): bv16 {
    Xor(Left(x, 1), Times(Right(x, 15)))
  }

  function Shift2(x: bv16): bv16 {
    Xor(Left(x, 2), Times(Right(x, 14)))
  }

  function Shift4(x: bv16): bv16 {
    Xor(Left(x, 4), Times(Right(x, 12)))
  }

  function Shift8(x: bv16): bv16 {
    Xor(Xor(Xor(Left(x, 8), Left(A(x), 4)), Left(A(x), 9)), Times(Xor(A(x), B(x))))
  }

  /** The top nibble. */
  function A(x: bv16): bv16 {
    Right(x, 12)
  }

  /** The second nibble. */
  function B(x: bv16): bv16 {
    Right(x, 8) & 15
  }

  lemma TopIsOneBit(x: bv16)
    ensures Right(x, 15) == 1 || Right(x, 15) == 0
  {
  }

  lemma TopOfXor(w: bv16, m: bv16)
    ensures TopBit(Xor(w, m)) == (TopBit(w) != TopBit(m))
  {
  }

  lemma LeftOfXor(w: bv16, m: bv16)
    ensures Left(Xor(w, m), 1) == Xor(Left(w, 1), Left(m, 1))
  {
  }

  lemma LeftTwice(x: bv16)
    ensures Left(Left(x, 1), 1) == Left(x, 2)
  {
  }

  lemma TimesBit()
    ensures Times(1) == POLYNOMIAL
    ensures Times(0) == 0
  {
  }

  lemma Shift1Cases(w: bv16)
    ensures Shift1(w) == if TopBit(w) then Xor(Left(w, 1), POLYNOMIAL) else Left(w, 1)
  {
    hide Xor, Left, Right, Times;
    TopIsOneBit(w);
    TimesBit();
    XorZero(Left(w, 1));
  }

  lemma XorCommutes(a: bv16, b: bv16)
    ensures Xor(a, b) == Xor(b, a)
  {
  }

  lemma XorSwap(a: bv16, b: bv16, c: bv16)
    ensures Xor(Xor(a, b), c) == Xor(Xor(a, c), b)
  {
    hide Xor;
    XorAssociative(a, b, c);
    XorAssociative(a, c, b);
    XorCommutes(b, c);
  }

  /** A message bit folded into the register beforehand divides out the same way. */
  lemma OneBit(w: bv16, m: bv16)
    ensures DivideBit(Xor(w, m), TopBit(m)) == Xor(Shift1(w), Left(m, 1))
  {
    hide Xor, Left, Right, TopBit, Shift1;
    TopOfXor(w, m);
    LeftOfXor(w, m);
    Shift1Cases(w);
    XorSwap(Left(w, 1), Left(m, 1), POLYNOMIAL);
  }

  lemma XorAssociative(a: bv16, b: bv16, c: bv16)
    ensures Xor(Xor(a, b), c) == Xor(a, Xor(b, c))
  {
    assert (a ^ b) ^ c == a ^ (b ^ c);
  }

  /** The bit below the top one. */
  function Low1(x: bv16): bv16 {
    Right(x, 14) & 1
  }

  /** The two bits below the top two. */
  function Low2(x: bv16): bv16 {
    Right(x, 12) & 3
  }

  lemma Shift1Top(x: bv16)
    ensures Right(Shift1(x), 15) == Low1(x)
  {
  }

  lemma Shift1Rest(x: bv16)
    ensures Left(Shift1(x), 1) == Xor(Left(x, 2), Left(Times(Right(x, 15)), 1))
  {
    hide Xor, Times, Left, Right;
    LeftOfXor(Left(x, 1), Times(Right(x, 15)));
    LeftTwice(x);
  }

  lemma Times2(x: bv16)
    ensures Times(Right(x, 14)) == Xor(Left(Times(Right(x, 15)), 1), Times(Low1(x)))
  {
  }

  lemma Shift1Twice(x: bv16)
    ensures Shift1(Shift1(x)) == Shift2(x)
  {
    hide Xor, Times, Low1, Left, Right;
    Shift1Top(x);
    Shift1Rest(x);
    Times2(x);
    XorAssociative(Left(x, 2), Left(Times(Right(x, 15)), 1), Times(Low1(x)));
  }

  lemma Shift2Top(x: bv16)
    ensures Right(Shift2(x), 14) == Low2(x)
  {
  }

  lemma Shift2Rest(x: bv16)
    ensures Left(Shift2(x), 2) == Xor(Left(x, 4), Left(Times(Right(x, 14)), 2))
  {
  }

  lemma Times4(x: bv16)
    ensures Times(Right(x, 12)) == Xor(Left(Times(Right(x, 14)), 2), Times(Low2(x)))
  {
  }

  lemma Shift2Twice(x: bv16)
    ensures Shift2(Shift2(x)) == Shift4(x)
  {
    hide Xor, Times, Low2, Left, Right;
    Shift2Top(x);
    Shift2Rest(x);
    Times4(x);
    XorAssociative(Left(x, 4), Left(Times(Right(x, 14)), 2), Times(Low2(x)));
  }

  lemma Shift4Top(x: bv16)
    ensures Right(Shift4(x), 12) == Xor(A(x), B(x))
  {
  }

  lemma Shift4Rest(x: bv16)
    ensures Left(Shift4(x), 4) == Xor(Xor(Left(x, 8), Left(A(x), 4)), Left(A(x), 9))
  {
  }

  lemma Shift4Twice(x: bv16)
    ensures Shift4(Shift4(x)) == Shift8(x)
  {
    hide Xor, Times, A, B, Left, Right;
    Shift4Top(x);
    Shift4Rest(x);
  }

  /** The register after n bits of the division with no message bits coming in. */
  function Shifts(x: bv16, n: nat): bv16
    decreases n
  {
    if n == 0 then x else Shifts(Shift1(x), n - 1)
  }

  /** A word shifted left n places, one at a time. */
  function Lefts(x: bv16, n: nat): bv16
    decreases n
  {
    if n == 0 then x else Lefts(Left(x, 1), n - 1)
  }

  lemma {:induction false} BitsIn(w: bv16, m: bv16, n: nat)
    ensures DivideBits(Xor(w, m), TopBits(m, n)) == Xor(Shifts(w, n), Lefts(m, n))
    decreases n
  {
    hide Xor, Left, Right, TopBit, DivideBit, Shift1;
    if n > 0 {
      OneBit(w, m);
      var bits := TopBits(m, n);
      assert bits[0] == TopBit(m) && bits[1..] == TopBits(Left(m, 1), n - 1);
      BitsIn(Shift1(w), Left(m, 1), n - 1);
    }
  }

  lemma ShiftsTwice(x: bv16, n: nat)
    requires n >= 2
    ensures Shifts(x, n) == Shifts(Shift2(x), n - 2)
  {
    hide Shift1, Shift2;
    Shift1Twice(x);
  }

  lemma EightShifts(x: bv16)
    ensures Shifts(x, 8) == Shift8(x)
  {
    hide Shift1, Shift2, Shift4, Shift8;
    var x4 := Shift4(x);
    ShiftsTwice(x, 8);
    ShiftsTwice(Shift2(x), 6);
    Shift2Twice(x);
    ShiftsTwice(x4, 4);
    ShiftsTwice(Shift2(x4), 2);
    Shift2Twice(x4);
    Shift4Twice(x);
  }

  lemma EightLefts(c: bv16)
    requires c < 256
    ensures Lefts(Left(c, 8), 8) == 0
  {
    var m := Left(c, 8);
    LeftsTwice(m, 8);
    LeftsTwice(Left(m, 2), 6);
    LeftsTwice(Left(Left(m, 2), 2), 4);
    LeftsTwice(Left(Left(Left(m, 2), 2), 2), 2);
  }

  lemma LeftsTwice(x: bv16, n: nat)
    requires n >= 2
    ensures Lefts(x, n) == Lefts(Left(x, 2), n - 2)
  {
    LeftTwice(x);
  }

  lemma XorZero(x: bv16)
    ensures Xor(x, 0) == x
  {
  }

  lemma XorBack(x: bv16, m: bv16)
    ensures Xor(Xor(x, m), m) == x
  {
  }

  /** A whole octet of the division is one closed-form step of the register it was folded into. */
  lemma OctetDivision(reg: bv16, c: Octet)
    ensures DivideBits(reg, Bits(c)) == Shift8(Xor(reg, Left(c as bv16, 8)))
  {
    hide Xor, Left, Shift8, Shifts, Lefts, TopBits, DivideBits;
    var m := Left(c as bv16, 8);
    XorBack(reg, m);
    BitsIn(Xor(reg, m), m, 8);
    EightShifts(Xor(reg, m));
    EightLefts(c as bv16);
    XorZero(Shift8(Xor(reg, m)));
  }

  // ----- The octet-at-a-time loop -----

  function Swap(x: bv16): bv16 {
    Right(x, 8) | Left(x, 8)
  }

  lemma SwapOfXor(x: bv16, c: bv16)
    requires c < 256
    ensures Xor(Swap(x), c) == Swap(Xor(x, Left(c, 8)))
  {
  }

  function LowOctet(x: bv16): bv16 {
    x & 0xff
  }

  lemma SwapNibbles(u: bv16)
    ensures Right(LowOctet(Swap(u)), 4) == A(u)
    ensures Swap(u) == Xor(Xor(Left(u, 8), Left(A(u), 4)), B(u))
  {
  }

  lemma SwapHigh(u: bv16)
    ensures Left(Xor(Swap(u), A(u)), 12) == Left(Xor(A(u), B(u)), 12)
  {
  }

  lemma SwapLow(u: bv16)
    ensures Left(LowOctet(Xor(Xor(Swap(u), A(u)), Left(Xor(A(u), B(u)), 12))), 5) ==
            Xor(Left(A(u), 9), Left(Xor(A(u), B(u)), 5))
  {
  }

  /** The three folding lines of the loop, on a register the octet is already in. */
  function Fold(r: bv16): bv16 {
    var r2 := Xor(r, Right(LowOctet(r), 4));
    var r3 := Xor(r2, Left(r2, 12));
    Xor(r3, Left(LowOctet(r3), 5))
  }

  lemma FoldOfSwap(u: bv16)
    ensures Fold(Swap(u)) ==
            Xor(Xor(Xor(Swap(u), A(u)), Left(Xor(A(u), B(u)), 12)), Xor(Left(A(u), 9), Left(Xor(A(u), B(u)), 5)))
  {
    hide Xor, LowOctet, Swap, A, B, Left, Right;
    SwapNibbles(u);
    SwapHigh(u);
    SwapLow(u);
  }

  lemma Rearrange(l8: bv16, l4: bv16, b: bv16, a: bv16, h: bv16, l9: bv16, l5: bv16)
    ensures Xor(Xor(Xor(Xor(Xor(l8, l4), b), a), h), Xor(l9, l5)) ==
            Xor(Xor(Xor(l8, l4), l9), Xor(Xor(Xor(a, b), l5), h))
  {
    hide Xor;
    var p, t := Xor(l8, l4), Xor(a, b);
    XorAssociative(p, b, a);
    XorCommutes(b, a);
    var q := Xor(p, t);
    XorAssociative(Xor(q, h), l9, l5);
    XorSwap(q, h, l9);
    XorSwap(p, t, l9);
    var r := Xor(p, l9);
    XorSwap(Xor(r, t), h, l5);
    XorAssociative(r, t, l5);
    XorAssociative(r, Xor(t, l5), h);
  }

  lemma FoldIsShift8(u: bv16)
    ensures Fold(Swap(u)) == Shift8(u)
  {
    hide Xor, Swap, A, B, Left, Right, Fold;
    FoldOfSwap(u);
    SwapNibbles(u);
    var t := Xor(A(u), B(u));
    Rearrange(Left(u, 8), Left(A(u), 4), B(u), A(u), Left(t, 12), Left(A(u), 9), Left(t, 5));
  }

  lemma OctetStep(crc: bv16, c: Octet)
    ensures Fold(Xor(Swap(crc), c as bv16)) == DivideBits(crc, Bits(c))
  {
    hide Fold, Swap, Xor, Left, Shift8, DivideBits, Bits;
    SwapOfXor(crc, c as bv16);
    FoldIsShift8(Xor(crc, Left(c as bv16, 8)));
    OctetDivision(crc, c);
  }

  lemma {:induction false} RemainderAppend(reg: bv16, b: seq<Octet>, more: seq<Octet>)
    ensures Remainder(reg, b + more) == Remainder(Remainder(reg, b), more)
    decreases |b|
  {
    hide DivideBits, Bits;
    if b == [] {
      assert b + more == more;
    } else {
      assert (b + more)[0] == b[0] && (b + more)[1..] == b[1..] + more;
      RemainderAppend(DivideBits(reg, Bits(b[0])), b[1..], more);
    }
  }

  /** The table-free CRC loop computes the remainder of the bit-by-bit division. */
  method ComputeCrc16(b: seq<Octet>) returns (crc: bv16)
    ensures crc == Crc(b)
  {
    hide DivideBits, Bits, Swap, Xor, LowOctet, Left, Right;
    crc := CRC_INIT;
    for i := 0 to |b|
      invariant crc == Remainder(CRC_INIT, b[..i])
    {
      ghost var before := crc;
      crc := Swap(crc);
      crc := Xor(crc, b[i] as bv16);
      crc := Xor(crc, Right(LowOctet(crc), 4));
      crc := Xor(crc, Left(crc, 12));
      crc := Xor(crc, Left(LowOctet(crc), 5));
      OctetStep(before, b[i]);
      RemainderAppend(CRC_INIT, b[..i], [b[i]]);
      assert b[..i + 1] == b[..i] + [b[i]];
    }
    assert b[..|b|] == b;
  }

  // ----- What the CRC detects -----

  lemma LowOfXor(x: bv16, y: bv16)
    ensures LowOctet(Xor(x, y)) == Xor(LowOctet(x), LowOctet(y))
  {
  }

  lemma LowParts(x: bv16)
    ensures LowOctet(Left(x, 8)) == 0
    ensures LowOctet(Left(A(x), 4)) == Left(A(x), 4)
    ensures LowOctet(Left(A(x), 9)) == 0
  {
  }

  lemma Shift8Nibbles(x: bv16)
    ensures LowOctet(Shift8(x)) == Xor(Left(A(x), 4), LowOctet(Times(Xor(A(x), B(x)))))
  {
    hide Xor, Left, LowOctet, Times, A, B;
    var l8, l4, l9, t := Left(x, 8), Left(A(x), 4), Left(A(x), 9), Times(Xor(A(x), B(x)));
    LowParts(x);
    LowOfXor(Xor(Xor(l8, l4), l9), t);
    LowOfXor(Xor(l8, l4), l9);
    LowOfXor(l8, l4);
    XorCommutes(0, l4);
    XorZero(l4);
  }

  /** The low octet of a step determines the two top nibbles of the register. */
  lemma NibblesDetermined(a: bv16, t: bv16, b: bv16, u: bv16)
    requires a < 16 && b < 16 && t < 16 && u < 16
    requires Xor(Left(a, 4), LowOctet(Times(t))) == Xor(Left(b, 4), LowOctet(Times(u)))
    ensures a == b && t == u
  {
  }

  lemma SmallNibbles(x: bv16)
    ensures A(x) < 16 && B(x) < 16 && Xor(A(x), B(x)) < 16
  {
  }

  lemma XorCancel(a: bv16, x: bv16, y: bv16)
    requires Xor(a, x) == Xor(a, y)
    ensures x == y
  {
  }

  lemma FromParts(x: bv16, y: bv16)
    requires A(x) == A(y) && B(x) == B(y) && Left(x, 8) == Left(y, 8)
    ensures x == y
  {
  }

  lemma StepInjective(x: bv16, y: bv16)
    requires Shift8(x) == Shift8(y)
    ensures x == y
  {
    hide Xor, Left, LowOctet, Times, A, B;
    Shift8Nibbles(x);
    Shift8Nibbles(y);
    SmallNibbles(x);
    SmallNibbles(y);
    NibblesDetermined(A(x), Xor(A(x), B(x)), A(y), Xor(A(y), B(y)));
    XorCancel(A(x), B(x), B(y));
    assert Left(x, 8) == Left(y, 8) by {
      var k, m, t := Left(A(x), 4), Left(A(x), 9), Times(Xor(A(x), B(x)));
      XorRight(Xor(Xor(Left(x, 8), k), m), Xor(Xor(Left(y, 8), k), m), t);
      XorRight(Xor(Left(x, 8), k), Xor(Left(y, 8), k), m);
      XorRight(Left(x, 8), Left(y, 8), k);
    }
    FromParts(x, y);
  }

  lemma XorRight(x: bv16, y: bv16, a: bv16)
    requires Xor(x, a) == Xor(y, a)
    ensures x == y
  {
  }

  lemma FoldedLow(reg: bv16, c: bv16)
    requires c < 256
    ensures LowOctet(Xor(reg, Left(c, 8))) == LowOctet(reg)
  {
  }

  lemma OctetDetermined(c: Octet, d: Octet)
    requires Left(c as bv16, 8) == Left(d as bv16, 8)
    ensures c == d
  {
  }

  lemma {:induction false} RemainderInjective(x: bv16, y: bv16, b: seq<Octet>)
    requires Remainder(x, b) == Remainder(y, b)
    ensures x == y
    decreases |b|
  {
    hide DivideBits, Bits, Xor, Left, Shift8;
    if b != [] {
      var m := Left(b[0] as bv16, 8);
      RemainderInjective(DivideBits(x, Bits(b[0])), DivideBits(y, Bits(b[0])), b[1..]);
      OctetDivision(x, b[0]);
      OctetDivision(y, b[0]);
      StepInjective(Xor(x, m), Xor(y, m));
      XorRight(x, y, m);
    }
  }

  /** Two registers reached from one by two octets differ unless the octets are the same. */
  lemma PairDetermined(reg: bv16, c0: Octet, c1: Octet, d0: Octet, d1: Octet)
    requires DivideBits(DivideBits(reg, Bits(c0)), Bits(c1)) == DivideBits(DivideBits(reg, Bits(d0)), Bits(d1))
    ensures c0 == d0 && c1 == d1
  {
    hide DivideBits, Bits, Xor, Left, Shift8, LowOctet, A, B, Times;
    var u, v := Xor(reg, Left(c0 as bv16, 8)), Xor(reg, Left(d0 as bv16, 8));
    OctetDivision(reg, c0);
    OctetDivision(reg, d0);
    OctetDivision(Shift8(u), c1);
    OctetDivision(Shift8(v), d1);
    StepInjective(Xor(Shift8(u), Left(c1 as bv16, 8)), Xor(Shift8(v), Left(d1 as bv16, 8)));
    FoldedLow(Shift8(u), c1 as bv16);
    FoldedLow(Shift8(v), d1 as bv16);
    Shift8Nibbles(u);
    Shift8Nibbles(v);
    SmallNibbles(u);
    SmallNibbles(v);
    NibblesDetermined(A(u), Xor(A(u), B(u)), A(v), Xor(A(v), B(v)));
    XorCancel(A(u), B(u), B(v));
    SameHigh(reg, c0, d0);
    XorCancel(Shift8(u), Left(c1 as bv16, 8), Left(d1 as bv16, 8));
    OctetDetermined(c1, d1);
  }

  lemma SameHigh(reg: bv16, c: Octet, d: Octet)
    requires A(Xor(reg, Left(c as bv16, 8))) == A(Xor(reg, Left(d as bv16, 8)))
    requires B(Xor(reg, Left(c as bv16, 8))) == B(Xor(reg, Left(d as bv16, 8)))
    ensures c == d
  {
  }

  lemma RemainderOfPair(reg: bv16, c0: Octet, c1: Octet)
    ensures Remainder(reg, [c0, c1]) == DivideBits(DivideBits(reg, Bits(c0)), Bits(c1))
  {
    hide DivideBits, Bits;
    var s := [c0, c1];
    assert s[1..] == [c1] && s[1..][1..] == [];
    assert Remainder(reg, s) == Remainder(DivideBits(reg, Bits(c0)), [c1]);
  }

  /** Any corruption confined to two adjacent octets changes the CRC. */
  lemma BurstDetected(prefix: seq<Octet>, c0: Octet, c1: Octet, d0: Octet, d1: Octet, suffix: seq<Octet>)
    ensures Crc(prefix + [c0, c1] + suffix) == Crc(prefix + [d0, d1] + suffix) <==> c0 == d0 && c1 == d1
  {
    hide DivideBits, Bits, Remainder;
    var reg := Remainder(CRC_INIT, prefix);
    RemainderAppend(CRC_INIT, prefix + [c0, c1], suffix);
    RemainderAppend(CRC_INIT, prefix, [c0, c1]);
    RemainderAppend(CRC_INIT, prefix + [d0, d1], suffix);
    RemainderAppend(CRC_INIT, prefix, [d0, d1]);
    if Crc(prefix + [c0, c1] + suffix) == Crc(prefix + [d0, d1] + suffix) {
      RemainderInjective(Remainder(reg, [c0, c1]), Remainder(reg, [d0, d1]), suffix);
      RemainderOfPair(reg, c0, c1);
      RemainderOfPair(reg, d0, d1);
      PairDetermined(reg, c0, c1, d0, d1);
    }
  }

  // ----- The checksum -----

  function Sum(b: seq<Octet>): Octet {
    if b == [] then 0 else Sum(b[..|b| - 1]) + b[|b| - 1]
  }

  /** The octet that brings the sum to zero. */
  function SumCheck(b: seq<Octet>): Octet {
    0 - Sum(b)
  }

  lemma Negated(x: Octet)
    ensures !x + 1 == 0 - x
    ensures x + (0 - x) == 0
  {
  }

  lemma {:induction false} ChecksumCloses(b: seq<Octet>)
    ensures Sum(b + [SumCheck(b)]) == 0
  {
    var whole := b + [SumCheck(b)];
    assert whole[..|whole| - 1] == b;
    Negated(Sum(b));
  }

  /** The checksum loop: the octets and their check add to zero modulo 256. */
  method ComputeChecksum(b: seq<Octet>) returns (check: Octet)
    ensures check == SumCheck(b)
    ensures Sum(b + [check]) == 0
  {
    var sum: Octet := 0;
    for i := 0 to |b|
      invariant sum == Sum(b[..i])
    {
      sum := sum + b[i];
      assert b[..i + 1][..i] == b[..i];
    }
    assert b[..|b|] == b;
    Negated(sum);
    check := !sum + 1;
    ChecksumCloses(b);
  }
}
