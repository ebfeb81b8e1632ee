/** CRC-32 of util.rs: a table-driven update over bytes, proved equal to the
    one-bit-at-a-time shift register that section 8 of RFC 1952 describes. */
module Crc {

  type u8 = x: int | 0 <= x < 0x100
  type u32 = bv32

  const POLY: bv32 := 0xEDB8_8320
  const INIT: bv32 := 0xFFFF_FFFF

  function Xor(a: bv32, b: bv32): bv32 { a ^ b }

  function Half(c: bv32): bv32 { c >> 1 }

  function Low(c: bv32): bv32 { c & 1 }

  function Not(c: bv32): bv32 { !c }

  predicate Odd(c: bv32) { c & 1 != 0 }

  function Wide(x: bv8): bv32 { x as bv32 }

  /** The reference: one message bit enters the register. */
  function BitStep(c: bv32, bit: bv32): bv32 {
    if Odd(Xor(c, bit)) then Xor(Half(c), POLY) else Half(c)
  }

  /** The low n bits of b enter the register, least significant first. */
  function BitSteps(c: bv32, b: bv32, n: nat): bv32
    decreases n
  {
    if n == 0 then c else BitSteps(BitStep(c, Low(b)), Half(b), n - 1)
  }

  /** The reference register after a whole message. */
  function Raw(state: u32, data: seq<u8>): u32 {
    if data == [] then state
    else BitSteps(Raw(state, data[..|data| - 1]), Wide(Bits(data[|data| - 1])), 8)
  }

  /** crc32 of util.rs. */
  function Crc32(data: seq<u8>): u32 {
    Not(Raw(INIT, data))
  }

  /** update of util.rs: continues from a finished checksum. */
  function Update(crc: u32, data: seq<u8>): u32 {
    Not(Raw(Not(crc), data))
  }

  // --- the table ---

  /** One step of the loop that fills a table cell. */
  function Shift(c: bv32): bv32 {
    if Odd(c) then Xor(POLY, Half(c)) else Half(c)
  }

  function Shifts(c: bv32, n: nat): bv32
    decreases n
  {
    if n == 0 then c else Shifts(Shift(c), n - 1)
  }

  function Bits(x: u8): bv8 { x as bv8 }

  function IndexOf(x: bv8): (i: u8) { x as int }

  lemma BitsOfIndex(x: bv8)
    ensures Bits(IndexOf(x)) == x
  {
  }

  ghost predicate IsTable(t: seq<u32>) {
    |t| == 256 && forall i :: 0 <= i < 256 ==> t[i] == Shifts(Wide(Bits(i)), 8)
  }

  method Table() returns (t: array<u32>)
    ensures fresh(t) && IsTable(t[..])
  {
    t := new u32[256](_ => 0);
    var i := 0;
    while i < 256
      invariant 0 <= i <= 256
      invariant forall k :: 0 <= k < i ==> t[k] == Shifts(Wide(Bits(k)), 8)
    {
      var c := Wide(Bits(i));
      for n := 0 to 8
        invariant c == Shifts(Wide(Bits(i)), n)
        invariant forall k :: 0 <= k < i ==> t[k] == Shifts(Wide(Bits(k)), 8)
      {
        ShiftsLast(Wide(Bits(i)), n);
        c := if Odd(c) then Xor(POLY, Half(c)) else Half(c);
      }
      t[i] := c;
      i := i + 1;
    }
  }

  /** The register state after data, by one table lookup a byte. */
  method UpdateRaw(state: u32, data: seq<u8>) returns (c: u32)
    ensures c == Raw(state, data)
  {
    var t := Table();
    c := state;
    for i := 0 to |data|
      invariant IsTable(t[..])
      invariant c == Raw(state, data[..i])
    {
      assert data[..i + 1][..i] == data[..i];
      var k := LowByte(c, Bits(data[i]));
      TableStep(c, Bits(data[i]));
      BitsOfIndex(k);
      assert t[..][IndexOf(k)] == Shifts(Wide(k), 8);
      c := Xor(t[IndexOf(k)], Down8(c));
    }
    assert data[..|data|] == data;
  }

  function LowByte(c: bv32, b: bv8): bv8 { ((c ^ (b as bv32)) & 0xFF) as bv8 }

  function Down8(c: bv32): bv32 { c >> 8 }

  lemma {:induction false} ShiftsLast(c: bv32, n: nat)
    ensures Shifts(c, n + 1) == Shift(Shifts(c, n))
    decreases n
  {
    if n > 0 {
      ShiftsLast(Shift(c), n - 1);
    }
  }

  ghost predicate BitsFit(b: bv32, n: nat)
    decreases n
  {
    if n == 0 then b == 0 else BitsFit(Half(b), n - 1)
  }

  ghost predicate LowZero(h: bv32, n: nat)
    decreases n
  {
    n == 0 || (!Odd(h) && LowZero(Half(h), n - 1))
  }

  ghost function Halves(h: bv32, n: nat): bv32
    decreases n
  {
    if n == 0 then h else Halves(Half(h), n - 1)
  }

  lemma XorAssoc(a: bv32, b: bv32, c: bv32)
    ensures Xor(Xor(a, b), c) == Xor(a, Xor(b, c))
  {
  }

  lemma XorComm(a: bv32, b: bv32)
    ensures Xor(a, b) == Xor(b, a)
  {
  }

  lemma HalfXor(a: bv32, b: bv32)
    ensures Half(Xor(a, b)) == Xor(Half(a), Half(b))
  {
  }

  lemma OddXor(a: bv32, b: bv32)
    ensures Odd(Xor(a, b)) == (Odd(a) != Odd(b))
    ensures Odd(Low(b)) == Odd(b)
  {
  }

  lemma BitStepIsShift(c: bv32, b: bv32)
    ensures Xor(BitStep(c, Low(b)), Half(b)) == Shift(Xor(c, b))
  {
    OddXor(c, b);
    OddXor(c, Low(b));
    HalfXor(c, b);
    XorComm(Half(c), POLY);
    XorAssoc(POLY, Half(c), Half(b));
  }

  lemma ShiftLinear(c: bv32, h: bv32)
    requires !Odd(h)
    ensures Shift(Xor(c, h)) == Xor(Shift(c), Half(h))
  {
    OddXor(c, h);
    HalfXor(c, h);
    XorAssoc(POLY, Half(c), Half(h));
  }

  /** Feeding the bits one by one is shifting with all of them mixed in first. */
  lemma {:induction false} BitsAreShifts(c: bv32, b: bv32, n: nat)
    requires BitsFit(b, n)
    ensures BitSteps(c, b, n) == Shifts(Xor(c, b), n)
    decreases n
  {
    if n == 0 {
    } else {
      BitStepIsShift(c, b);
      BitsAreShifts(BitStep(c, Low(b)), Half(b), n - 1);
    }
  }

  /** Bits that no step looks at only move down. */
  lemma {:induction false} HighBitsMoveDown(c: bv32, h: bv32, n: nat)
    requires LowZero(h, n)
    ensures Shifts(Xor(c, h), n) == Xor(Shifts(c, n), Halves(h, n))
    decreases n
  {
    if n > 0 {
      ShiftLinear(c, h);
      HighBitsMoveDown(Shift(c), Half(h), n - 1);
    }
  }

  lemma ByteFits(b: bv8)
    ensures BitsFit(Wide(b), 8)
  {
    var b1 := Half(Wide(b)); var b2 := Half(b1); var b3 := Half(b2); var b4 := Half(b3);
    var b5 := Half(b4); var b6 := Half(b5); var b7 := Half(b6);
    assert Half(b7) == 0;
    assert BitsFit(b7, 1);
    assert BitsFit(b6, 2);
    assert BitsFit(b5, 3);
    assert BitsFit(b4, 4);
    assert BitsFit(b3, 5);
    assert BitsFit(b2, 6);
    assert BitsFit(b1, 7);
  }

  function HighBits(x: bv32): bv32 { x & 0xFFFF_FF00 }

  /** The k-th half of the high bits. */
  function HighAt(x: bv32, k: bv6): bv32
    requires k <= 8
  {
    (x & 0xFFFF_FF00) >> k
  }

  lemma HighAtHalf(x: bv32, k: bv6)
    requires k < 8
    ensures Half(HighAt(x, k)) == HighAt(x, k + 1) && !Odd(HighAt(x, k))
  {
  }

  lemma HighBitsDown(x: bv32)
    ensures LowZero(HighBits(x), 8) && Halves(HighBits(x), 8) == Down8(x)
  {
    assert HighBits(x) == HighAt(x, 0) && Down8(x) == HighAt(x, 8);
    HighAtHalf(x, 0); HighAtHalf(x, 1); HighAtHalf(x, 2); HighAtHalf(x, 3);
    HighAtHalf(x, 4); HighAtHalf(x, 5); HighAtHalf(x, 6); HighAtHalf(x, 7);
    assert LowZero(HighAt(x, 6), 2) && Halves(HighAt(x, 6), 2) == HighAt(x, 8);
    assert LowZero(HighAt(x, 4), 4) && Halves(HighAt(x, 4), 4) == HighAt(x, 8);
    assert LowZero(HighAt(x, 2), 6) && Halves(HighAt(x, 2), 6) == HighAt(x, 8);
  }

  lemma SplitWord(c: bv32, b: bv8)
    ensures Xor(Wide(LowByte(c, b)), HighBits(c)) == Xor(c, Wide(b))
  {
  }

  /** One table lookup does the work of eight register steps. */
  lemma TableStep(c: bv32, b: bv8)
    ensures BitSteps(c, Wide(b), 8) == Xor(Shifts(Wide(LowByte(c, b)), 8), Down8(c))
  {
    ByteFits(b);
    BitsAreShifts(c, Wide(b), 8);
    SplitWord(c, b);
    HighBitsDown(c);
    HighBitsMoveDown(Wide(LowByte(c, b)), HighBits(c), 8);
  }

  lemma {:induction false} RawConcat(state: u32, a: seq<u8>, b: seq<u8>)
    ensures Raw(state, a + b) == Raw(Raw(state, a), b)
  {
    if b == [] {
      assert a + b == a;
    } else {
      assert (a + b)[..|a + b| - 1] == a + b[..|b| - 1];
      RawConcat(state, a, b[..|b| - 1]);
    }
  }

  lemma NotNot(c: bv32)
    ensures Not(Not(c)) == c
    ensures Not(0) == INIT && Not(INIT) == 0
  {
  }

  /** The continuation law promised beside update. */
  lemma UpdateConcat(crc: u32, a: seq<u8>, b: seq<u8>)
    ensures Update(Update(crc, a), b) == Update(crc, a + b)
    ensures Update(0, a) == Crc32(a)
  {
    RawConcat(Not(crc), a, b);
    NotNot(Raw(Not(crc), a));
  }

  // --- the published check value ---

  lemma RawNext(state: u32, data: seq<u8>, b: u8)
    ensures Raw(state, data + [b]) == BitSteps(Raw(state, data), Wide(Bits(b)), 8)
  {
    hide BitSteps;
    assert (data + [b])[..|data|] == data;
  }

  lemma CheckSteps()
    ensures BitSteps(0xFFFF_FFFF, 0x31, 8) == 0x7C23_1048
    ensures BitSteps(0x7C23_1048, 0x32, 8) == 0xB0AC_BB32
    ensures BitSteps(0xB0AC_BB32, 0x33, 8) == 0x77B7_9C2D
    ensures BitSteps(0x77B7_9C2D, 0x34, 8) == 0x641C_1F5C
    ensures BitSteps(0x641C_1F5C, 0x35, 8) == 0x340A_C5E3
    ensures BitSteps(0x340A_C5E3, 0x36, 8) == 0xF68D_2C9E
    ensures BitSteps(0xF68D_2C9E, 0x37, 8) == 0xAFFC_9660
    ensures BitSteps(0xAFFC_9660, 0x38, 8) == 0x651F_2550
    ensures BitSteps(0x651F_2550, 0x39, 8) == 0x340B_C6D9
  {
  }

  lemma DigitBits()
    ensures Wide(Bits(0x31)) == 0x31
    ensures Wide(Bits(0x32)) == 0x32
    ensures Wide(Bits(0x33)) == 0x33
    ensures Wide(Bits(0x34)) == 0x34
    ensures Wide(Bits(0x35)) == 0x35
    ensures Wide(Bits(0x36)) == 0x36
    ensures Wide(Bits(0x37)) == 0x37
    ensures Wide(Bits(0x38)) == 0x38
    ensures Wide(Bits(0x39)) == 0x39
  {
  }

  /** The digits 1 to 9 have the checksum that the registries of CRC-32 give for
      the polynomial, its reflection and both inversions. */
  lemma CheckValue()
    ensures Crc32([0x31, 0x32, 0x33, 0x34, 0x35, 0x36, 0x37, 0x38, 0x39]) == 0xCBF4_3926
  {
    CheckSteps();
    DigitBits();
    hide BitSteps, Wide, Bits, Raw;
    var d: seq<u8> := [0x31, 0x32, 0x33, 0x34, 0x35, 0x36, 0x37, 0x38, 0x39];
    RawOfNone();
    RawNext(INIT, d[..0], 0x31);
    assert d[..0] + [0x31] == d[..1];
    RawNext(INIT, d[..1], 0x32);
    assert d[..1] + [0x32] == d[..2];
    RawNext(INIT, d[..2], 0x33);
    assert d[..2] + [0x33] == d[..3];
    RawNext(INIT, d[..3], 0x34);
    assert d[..3] + [0x34] == d[..4];
    RawNext(INIT, d[..4], 0x35);
    assert d[..4] + [0x35] == d[..5];
    RawNext(INIT, d[..5], 0x36);
    assert d[..5] + [0x36] == d[..6];
    RawNext(INIT, d[..6], 0x37);
    assert d[..6] + [0x37] == d[..7];
    RawNext(INIT, d[..7], 0x38);
    assert d[..7] + [0x38] == d[..8];
    RawNext(INIT, d[..8], 0x39);
    assert d[..8] + [0x39] == d[..9];
    assert d[..9] == d && d[..0] == [];
    assert Raw(INIT, d) == 0x340B_C6D9;
  }

  lemma RawOfNone()
    ensures Raw(INIT, []) == 0xFFFF_FFFF
  {
  }
}
