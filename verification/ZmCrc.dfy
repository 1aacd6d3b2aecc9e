/** The two check sequences of ZMODEM data subpackets, and why a subpacket checks against its own trailer. */
module ZmCrc {

  function Step16(c: bv16): bv16 {
    if c & 0x8000 != 0 then (c << 1) ^ 0x1021 else c << 1
  }

  /** Entry i of crctab: the polynomial 0x1021 applied to the byte. */
  function Crctab(i: bv8): bv16 {
    Step16(Step16(Step16(Step16(Step16(Step16(Step16(Step16((i as bv16) << 8))))))))
  }

  function Step32(c: bv32): bv32 {
    if c & 1 != 0 then (c >> 1) ^ 0xedb8_8320 else c >> 1
  }

  /** Entry i of cr3tab: the reflected polynomial 0xedb88320 applied to the byte. */
  function Cr3tab(i: bv8): bv32 {
    Step32(Step32(Step32(Step32(Step32(Step32(Step32(Step32(i as bv32))))))))
  }

  function Hi(r: bv16): bv8 { (r >> 8) as bv8 }
  function Lo(r: bv16): bv8 { (r & 0xff) as bv8 }

  function Mix16(t: bv16, crc: bv16, c: bv8): bv16 { t ^ (crc << 8) ^ (c as bv16) }
  function Mix32(t: bv32, crc: bv32): bv32 { t ^ (crc >> 8) }

  /** The byte of cr3tab that UPDC32 picks. */
  function Index32(crc: bv32, c: bv8): bv8 { ((crc ^ (c as bv32)) & 0xff) as bv8 }

  /** updcrc, kept in the 16 bits of the variable it is assigned to. */
  function Upd16(c: bv8, crc: bv16): bv16 { Mix16(Crctab(Hi(crc)), crc, c) }

  /** UPDC32. */
  function Upd32(c: bv8, crc: bv32): bv32 { Mix32(Cr3tab(Index32(crc, c)), crc) }

  function Not(r: bv32): bv32 { !r }
  function Byte0(r: bv32): bv8 { (r & 0xff) as bv8 }
  function Byte1(r: bv32): bv8 { ((r >> 8) & 0xff) as bv8 }
  function Byte2(r: bv32): bv8 { ((r >> 16) & 0xff) as bv8 }
  function Byte3(r: bv32): bv8 { ((r >> 24) & 0xff) as bv8 }

  const RESIDUE: bv32 := 0xdebb_20e3

  // ---------------------------------------------------------------- what the tables are for

  function Xor16(a: bv16, b: bv16): bv16 { a ^ b }
  function Twice(a: bv16): bv16 { a << 1 }
  function First(c: bv16): bv16 { c >> 15 }
  predicate Top(a: bv16) { a & 0x8000 != 0 }

  function Xor32(a: bv32, b: bv32): bv32 { a ^ b }
  function Half(a: bv32): bv32 { a >> 1 }
  function LowBit(a: bv32): bv32 { a & 1 }

  /** The register moved on by one bit of the message and reduced by x^16 + x^12 + x^5 + 1. */
  function Shift16(r: bv16, bit: bv16): bv16 {
    var moved := Xor16(Twice(r), bit);
    if Top(r) then Xor16(moved, 0x1021) else moved
  }

  /** n bits of the message, from the highest of c on. */
  function Serial16(r: bv16, c: bv16, n: nat): bv16
    decreases n
  {
    if n == 0 then r else Serial16(Shift16(r, First(c)), Twice(c), n - 1)
  }

  /** The same from the lowest bit on, with the polynomial mirrored. */
  function Shift32(r: bv32, bit: bv32): bv32 {
    if LowBit(r) == bit then Half(r) else Xor32(Half(r), 0xedb8_8320)
  }

  function Serial32(r: bv32, c: bv32, n: nat): bv32
    decreases n
  {
    if n == 0 then r else Serial32(Shift32(r, LowBit(c)), Half(c), n - 1)
  }

  function Steps16(a: bv16, n: nat): bv16
    decreases n
  {
    if n == 0 then a else Steps16(Step16(a), n - 1)
  }

  function Steps32(a: bv32, n: nat): bv32
    decreases n
  {
    if n == 0 then a else Steps32(Step32(a), n - 1)
  }

  function Into16(x: bv16, c: bv16, n: nat): bv16
    decreases n
  {
    if n == 0 then x else Into16(Xor16(Twice(x), First(c)), Twice(c), n - 1)
  }

  /** No bit of x gets to the top in n shifts. */
  predicate Low16(x: bv16, c: bv16, n: nat)
    decreases n
  {
    n == 0 || (!Top(x) && Low16(Xor16(Twice(x), First(c)), Twice(c), n - 1))
  }

  function Down32(y: bv32, n: nat): bv32
    decreases n
  {
    if n == 0 then y else Down32(Half(y), n - 1)
  }

  predicate Same32(y: bv32, c: bv32, n: nat)
    decreases n
  {
    n == 0 || (LowBit(y) == LowBit(c) && Same32(Half(y), Half(c), n - 1))
  }

  lemma TopOfXor(a: bv16, x: bv16)
    ensures !Top(x) ==> (Top(Xor16(a, x)) <==> Top(a))
  {
  }

  lemma TwiceOfXor(a: bv16, x: bv16, b: bv16)
    ensures Xor16(Twice(Xor16(a, x)), b) == Xor16(Twice(a), Xor16(Twice(x), b))
  {
  }

  lemma SwapXor16(a: bv16, x: bv16, b: bv16)
    ensures (a ^ x) ^ b == (a ^ b) ^ x
  {
  }

  lemma SwapXor32(a: bv32, x: bv32, b: bv32)
    ensures (a ^ x) ^ b == (a ^ b) ^ x
  {
  }

  lemma XorSwap16(a: bv16, x: bv16, b: bv16)
    ensures Xor16(Xor16(a, x), b) == Xor16(Xor16(a, b), x)
  {
    SwapXor16(a, x, b);
  }

  lemma Step16Is(a: bv16)
    ensures Step16(a) == if Top(a) then Xor16(Twice(a), 0x1021) else Twice(a)
  {
  }

  /** What does not reach the top bit moves along beside the rest. */
  lemma {:induction false} Beside16(a: bv16, x: bv16, c: bv16, n: nat)
    requires Low16(x, c, n)
    ensures Serial16(Xor16(a, x), c, n) == Xor16(Steps16(a, n), Into16(x, c, n))
    decreases n
  {
    hide Xor16, Twice, First, Top, Step16;
    if n > 0 {
      var x' := Xor16(Twice(x), First(c));
      TopOfXor(a, x);
      TwiceOfXor(a, x, First(c));
      XorSwap16(Twice(a), x', 0x1021);
      Step16Is(a);
      Beside16(Step16(a), x', Twice(c), n - 1);
    }
  }

  lemma LowBitOfXor(a: bv32, y: bv32)
    ensures LowBit(Xor32(a, y)) == LowBit(y) <==> LowBit(a) == 0
  {
  }

  lemma HalfOfXor(a: bv32, y: bv32)
    ensures Half(Xor32(a, y)) == Xor32(Half(a), Half(y))
  {
  }

  lemma XorSwap32(a: bv32, y: bv32)
    ensures Xor32(Xor32(a, y), 0xedb8_8320) == Xor32(Xor32(a, 0xedb8_8320), y)
  {
    SwapXor32(a, y, 0xedb8_8320);
  }

  lemma Step32Is(a: bv32)
    ensures Step32(a) == if LowBit(a) == 0 then Half(a) else Xor32(Half(a), 0xedb8_8320)
  {
  }

  lemma {:induction false} Beside32(a: bv32, y: bv32, c: bv32, n: nat)
    requires Same32(y, c, n)
    ensures Serial32(Xor32(a, y), c, n) == Xor32(Steps32(a, n), Down32(y, n))
    decreases n
  {
    hide Xor32, Half, LowBit, Step32;
    if n > 0 {
      LowBitOfXor(a, y);
      HalfOfXor(a, y);
      XorSwap32(Half(a), Half(y));
      Step32Is(a);
      Beside32(Step32(a), Half(y), Half(c), n - 1);
    }
  }

  lemma Low16Byte(l: bv16, c: bv8)
    requires l & 0xff00 == 0
    ensures Low16(l, (c as bv16) << 8, 8)
  {
  }

  lemma Into16Byte(l: bv16, c: bv8)
    requires l & 0xff00 == 0
    ensures Into16(l, (c as bv16) << 8, 8) == (l << 8) ^ (c as bv16)
  {
  }

  function And32(a: bv32, b: bv32): bv32 { a & b }
  function Grown32(m: bv32): bv32 { (m << 1) | 1 }

  function Ones(n: nat): bv32 { if n == 0 then 0 else Grown32(Ones(n - 1)) }

  lemma SameStep(y: bv32, c: bv32, m: bv32)
    requires And32(y, Grown32(m)) == And32(c, Grown32(m))
    ensures LowBit(y) == LowBit(c) && And32(Half(y), m) == And32(Half(c), m)
  {
  }

  lemma {:induction false} SameAll(y: bv32, c: bv32, n: nat)
    requires And32(y, Ones(n)) == And32(c, Ones(n))
    ensures Same32(y, c, n)
    decreases n
  {
    hide Half, LowBit, And32, Grown32;
    if n > 0 {
      SameStep(y, c, Ones(n - 1));
      SameAll(Half(y), Half(c), n - 1);
    }
  }

  lemma EightOnes(y: bv32, c: bv8)
    requires y & 0xff == c as bv32
    ensures And32(y, Ones(8)) == And32(c as bv32, Ones(8))
  {
    assert Ones(8) == 0xff;
  }

  lemma Low32Byte(y: bv32, c: bv8)
    requires y & 0xff == c as bv32
    ensures Same32(y, c as bv32, 8)
  {
    hide Same32, Ones;
    EightOnes(y, c);
    SameAll(y, c as bv32, 8);
  }

  lemma Down32Byte(y: bv32)
    ensures Down32(y, 8) == y >> 8
  {
  }

  lemma CrctabSteps(i: bv8)
    ensures Crctab(i) == Steps16((i as bv16) << 8, 8)
  {
    hide Step16;
  }

  lemma Cr3tabSteps(i: bv8)
    ensures Cr3tab(i) == Steps32(i as bv32, 8)
  {
    hide Step32;
  }

  function High16(r: bv16): bv16 { (Hi(r) as bv16) << 8 }
  function Rest16(r: bv16): bv16 { r & 0xff }
  function Wide16(c: bv8): bv16 { (c as bv16) << 8 }

  lemma Split16(r: bv16)
    ensures Xor16(High16(r), Rest16(r)) == r && Rest16(r) & 0xff00 == 0
  {
  }

  lemma ShiftRest(r: bv16)
    ensures Rest16(r) << 8 == r << 8
  {
  }

  lemma Assoc16(t: bv16, x: bv16, c: bv16)
    ensures t ^ (x ^ c) == t ^ x ^ c
  {
  }

  lemma Mix16Is(t: bv16, r: bv16, c: bv8)
    ensures Mix16(t, r, c) == Xor16(t, (r << 8) ^ (c as bv16))
  {
    Assoc16(t, r << 8, c as bv16);
  }

  function Wide32(c: bv8): bv32 { c as bv32 }
  function Rest32(r: bv32, c: bv8): bv32 { r ^ (Index32(r, c) as bv32) }

  lemma Parts32(t: bv32, r: bv32, c: bv8)
    ensures Xor32(Wide32(Index32(r, c)), Rest32(r, c)) == r && Rest32(r, c) & 0xff == c as bv32
    ensures Xor32(t, Rest32(r, c) >> 8) == Mix32(t, r)
  {
  }

  lemma Low16Parts(t: bv16, r: bv16, c: bv8)
    ensures Low16(Rest16(r), Wide16(c), 8) && Xor16(t, Into16(Rest16(r), Wide16(c), 8)) == Mix16(t, r, c)
  {
    hide Xor16, Mix16;
    Split16(r);
    Mix16Is(t, r, c);
    ShiftRest(r);
    Into16Byte(Rest16(r), c);
    Low16Byte(Rest16(r), c);
  }

  lemma Low32Parts(t: bv32, r: bv32, c: bv8)
    ensures Same32(Rest32(r, c), Wide32(c), 8) && Xor32(t, Down32(Rest32(r, c), 8)) == Mix32(t, r)
  {
    hide Xor32, Mix32, Rest32;
    Parts32(t, r, c);
    Low32Byte(Rest32(r, c), c);
    Down32Byte(Rest32(r, c));
  }

  /** A step through the table is eight steps bit by bit. */
  lemma TableIsSerial16(r: bv16, c: bv8)
    ensures Upd16(c, r) == Serial16(r, Wide16(c), 8)
  {
    hide Serial16, Steps16, Into16, Low16, Crctab, Hi, High16, Rest16, Wide16, Xor16, Mix16;
    Split16(r);
    CrctabWide(Hi(r), r);
    Low16Parts(Crctab(Hi(r)), r, c);
    Beside16(High16(r), Rest16(r), Wide16(c), 8);
  }

  lemma CrctabWide(i: bv8, r: bv16)
    ensures i == Hi(r) ==> Crctab(i) == Steps16(High16(r), 8)
  {
    hide Crctab, Steps16;
    CrctabSteps(i);
  }

  lemma TableIsSerial32(r: bv32, c: bv8)
    ensures Upd32(c, r) == Serial32(r, Wide32(c), 8)
  {
    hide Serial32, Steps32, Down32, Same32, Cr3tab, Index32, Rest32, Wide32, Xor32, Mix32;
    Parts32(0, r, c);
    Cr3tabWide(Index32(r, c));
    Low32Parts(Cr3tab(Index32(r, c)), r, c);
    Beside32(Wide32(Index32(r, c)), Rest32(r, c), Wide32(c), 8);
  }

  lemma Cr3tabWide(i: bv8)
    ensures Cr3tab(i) == Steps32(Wide32(i), 8)
  {
    hide Cr3tab, Steps32;
    Cr3tabSteps(i);
  }

  /** The check values by which the two codes are known: that of the text 123456789, behind which the 16-bit register
      takes two zero bytes, and the 32-bit one is complemented. */
  lemma CheckValues()
    ensures var r := Upd16(0x35, Upd16(0x34, Upd16(0x33, Upd16(0x32, Upd16(0x31, 0)))));
      Upd16(0, Upd16(0, Upd16(0x39, Upd16(0x38, Upd16(0x37, Upd16(0x36, r)))))) == 0x31c3
    ensures var r := Upd32(0x35, Upd32(0x34, Upd32(0x33, Upd32(0x32, Upd32(0x31, 0xffff_ffff)))));
      Not(Upd32(0x39, Upd32(0x38, Upd32(0x37, Upd32(0x36, r))))) == 0xcbf4_3926
  {
    assert Upd16(0x31, 0x0) == 0x31;
    assert Upd16(0x32, 0x31) == 0x3132;
    assert Upd16(0x33, 0x3132) == 0x1441;
    assert Upd16(0x34, 0x1441) == 0x1381;
    assert Upd16(0x35, 0x1381) == 0xa367;
    assert Upd16(0x36, 0xa367) == 0xe2bf;
    assert Upd16(0x37, 0xe2bf) == 0x625b;
    assert Upd16(0x38, 0x625b) == 0x17dc;
    assert Upd16(0x39, 0x17dc) == 0xbeef;
    assert Upd16(0x0, 0xbeef) == 0xa915;
    assert Upd16(0x0, 0xa915) == 0x31c3;
    assert Upd32(0x31, 0xffff_ffff) == 0x7c23_1048;
    assert Upd32(0x32, 0x7c23_1048) == 0xb0ac_bb32;
    assert Upd32(0x33, 0xb0ac_bb32) == 0x77b7_9c2d;
    assert Upd32(0x34, 0x77b7_9c2d) == 0x641c_1f5c;
    assert Upd32(0x35, 0x641c_1f5c) == 0x340a_c5e3;
    assert Upd32(0x36, 0x340a_c5e3) == 0xf68d_2c9e;
    assert Upd32(0x37, 0xf68d_2c9e) == 0xaffc_9660;
    assert Upd32(0x38, 0xaffc_9660) == 0x651f_2550;
    assert Upd32(0x39, 0x651f_2550) == 0x340b_c6d9;
  }

  /** The register after the high byte: as after a zero byte, but for the low half. */
  lemma HighSame(t: bv16, r: bv16, hi: bv8)
    ensures Hi(Mix16(t, r, hi)) == Hi(Mix16(t, r, 0))
  {
  }

  function Pair(hi: bv8, lo: bv8): bv16 { ((hi as bv16) << 8) ^ (lo as bv16) }

  lemma MixSplit(t0: bv16, t1: bv16, r: bv16, hi: bv8, lo: bv8)
    ensures Mix16(t1, Mix16(t0, r, hi), lo) == Mix16(t1, Mix16(t0, r, 0), 0) ^ Pair(hi, lo)
  {
  }

  lemma XorZero(a: bv16, b: bv16)
    ensures a ^ b == 0 <==> a == b
  {
  }

  lemma MixZero(t0: bv16, t1: bv16, r: bv16, hi: bv8, lo: bv8)
    ensures Mix16(t1, Mix16(t0, r, hi), lo) == 0 <==> Mix16(t1, Mix16(t0, r, 0), 0) == Pair(hi, lo)
  {
    hide Mix16, Pair;
    MixSplit(t0, t1, r, hi, lo);
    XorZero(Mix16(t1, Mix16(t0, r, 0), 0), Pair(hi, lo));
  }

  lemma PairParts(s: bv16, hi: bv8, lo: bv8)
    ensures Hi(Pair(hi, lo)) == hi && Lo(Pair(hi, lo)) == lo && Pair(Hi(s), Lo(s)) == s
  {
  }

  /** The 16-bit register comes to zero behind the sender's trailer and behind no other. This does not depend on
      the table. */
  lemma Residue16Iff(r: bv16, hi: bv8, lo: bv8)
    ensures var s := Upd16(0, Upd16(0, r)); Upd16(lo, Upd16(hi, r)) == 0 <==> hi == Hi(s) && lo == Lo(s)
  {
    hide Crctab, Mix16, Hi, Lo, Pair;
    var t0 := Crctab(Hi(r));
    var a := Mix16(t0, r, 0);
    var t1 := Crctab(Hi(a));
    var s := Mix16(t1, a, 0);
    HighSame(t0, r, hi);
    MixZero(t0, t1, r, hi, lo);
    PairParts(s, hi, lo);
  }

  /** The four table entries the trailer meets, whatever was in the register. */
  lemma Entries32()
    ensures Cr3tab(0xff) == 0x2d02_ef8d && Cr3tab(0x72) == 0xbe0b_1010 && Cr3tab(0) == 0 && Cr3tab(0xed) == 0xdebb_9ec5
  {
  }

  /** The high byte of a table entry tells its index. */
  lemma HighByteTells(i: bv8)
    ensures Byte3(Cr3tab(i)) == 0x2d ==> i == 0xff
    ensures Byte3(Cr3tab(i)) == 0xbe ==> i == 0x72
    ensures Byte3(Cr3tab(i)) == 0 ==> i == 0
    ensures Byte3(Cr3tab(i)) == 0xde ==> i == 0xed
  {
  }

  lemma TrailerIndices(r: bv32)
    ensures Index32(r, Byte0(Not(r))) == 0xff
    ensures Index32(Mix32(0x2d02_ef8d, r), Byte1(Not(r))) == 0x72
    ensures Index32(Mix32(0xbe0b_1010, Mix32(0x2d02_ef8d, r)), Byte2(Not(r))) == 0
    ensures Index32(Mix32(0, Mix32(0xbe0b_1010, Mix32(0x2d02_ef8d, r))), Byte3(Not(r))) == 0xed
    ensures Mix32(0xdebb_9ec5, Mix32(0, Mix32(0xbe0b_1010, Mix32(0x2d02_ef8d, r)))) == RESIDUE
  {
  }

  /** Shifting and mixing lets through the high byte of the table entry only, and the index the byte. */
  lemma MixBack(t: bv32, r: bv32, c: bv8, d: bv8)
    ensures Byte3(Mix32(t, r)) == Byte3(t)
    ensures Index32(r, c) == Index32(r, d) ==> c == d
  {
  }

  /** What the four entries must have been, from the residue backwards: their high bytes. */
  lemma EntriesBack(t0: bv32, t1: bv32, t2: bv32, t3: bv32, r: bv32)
    requires Mix32(t3, Mix32(t2, Mix32(t1, Mix32(t0, r)))) == RESIDUE
    ensures Byte3(t3) == 0xde
    ensures t3 == 0xdebb_9ec5 ==> Byte3(t2) == 0
    ensures t3 == 0xdebb_9ec5 && t2 == 0 ==> Byte3(t1) == 0xbe
    ensures t3 == 0xdebb_9ec5 && t2 == 0 && t1 == 0xbe0b_1010 ==> Byte3(t0) == 0x2d
  {
  }

  /** The 32-bit register comes to the constant the receiver looks for behind the complemented register, low byte
      first, and behind no other four bytes. */
  lemma Residue32Iff(r: bv32, b0: bv8, b1: bv8, b2: bv8, b3: bv8)
    ensures Upd32(b3, Upd32(b2, Upd32(b1, Upd32(b0, r)))) == RESIDUE <==>
            b0 == Byte0(Not(r)) && b1 == Byte1(Not(r)) && b2 == Byte2(Not(r)) && b3 == Byte3(Not(r))
  {
    hide Cr3tab, Mix32, Index32, Not, Byte0, Byte1, Byte2, Byte3;
    Entries32();
    TrailerIndices(r);
    var r1 := Upd32(b0, r);
    var r2 := Upd32(b1, r1);
    var r3 := Upd32(b2, r2);
    if Upd32(b3, r3) == RESIDUE {
      var i0, i1, i2, i3 := Index32(r, b0), Index32(r1, b1), Index32(r2, b2), Index32(r3, b3);
      EntriesBack(Cr3tab(i0), Cr3tab(i1), Cr3tab(i2), Cr3tab(i3), r);
      HighByteTells(i3);
      HighByteTells(i2);
      HighByteTells(i1);
      HighByteTells(i0);
      MixBack(0, r, b0, Byte0(Not(r)));
      MixBack(0, r1, b1, Byte1(Not(r)));
      MixBack(0, r2, b2, Byte2(Not(r)));
      MixBack(0, r3, b3, Byte3(Not(r)));
    }
  }
}
