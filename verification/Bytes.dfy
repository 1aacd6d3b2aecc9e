/** Bytes, 512-byte sectors and the little-endian words the driver overlays on them. */
module Bytes {

  type byte = b: int | 0 <= b < 0x100
  type u32 = w: int | 0 <= w < 0x1_0000_0000

  const SECTOR_SIZE := 512

  type Sector = s: seq<byte> | |s| == SECTOR_SIZE witness seq(SECTOR_SIZE, _ => 0)

  /** 32-bit counters wrap around. */
  function AddWrap(a: u32, n: int): u32 { (a + n) % 0x1_0000_0000 }

  lemma AddWrapTwice(a: u32, n: int, m: int)
    ensures AddWrap(AddWrap(a, n), m) == AddWrap(a, n + m)
    ensures AddWrap(a, 0) == a
  {
  }

  lemma AddWrapExact(a: u32, n: int)
    requires 0 <= a + n < 0x1_0000_0000
    ensures AddWrap(a, n) == a + n
  {
  }

  /** A medium: sector number to contents. */
  type Volume = seq<Sector>

  function ZeroSector(): (s: Sector)
    ensures forall k :: 0 <= k < SECTOR_SIZE ==> s[k] == 0
  {
    var zeroes: seq<byte> := seq(SECTOR_SIZE, _ => 0);
    zeroes
  }

  function Le32(b: seq<byte>, at: nat): (w: u32)
    requires at + 4 <= |b|
  {
    var b0: int, b1: int, b2: int, b3: int := b[at], b[at + 1], b[at + 2], b[at + 3];
    b0 + 0x100 * b1 + 0x1_0000 * b2 + 0x100_0000 * b3
  }

  function Le16(b: seq<byte>, at: nat): (w: nat)
    requires at + 2 <= |b|
  {
    var b0: int, b1: int := b[at], b[at + 1];
    b0 + 0x100 * b1
  }

  function PutLe32(b: seq<byte>, at: nat, w: u32): (r: seq<byte>)
    requires at + 4 <= |b|
    ensures |r| == |b|
    ensures forall k :: 0 <= k < |b| && !(at <= k < at + 4) ==> r[k] == b[k]
  {
    b[at := w % 0x100][at + 1 := w / 0x100 % 0x100][at + 2 := w / 0x1_0000 % 0x100][at + 3 := w / 0x100_0000]
  }

  lemma Le32Same(a: seq<byte>, b: seq<byte>, at: nat)
    requires at + 4 <= |a| && at + 4 <= |b| && forall i :: at <= i < at + 4 ==> a[i] == b[i]
    ensures Le32(a, at) == Le32(b, at)
  {
  }

  lemma Digits(w: u32)
    ensures w == w % 0x100 + 0x100 * (w / 0x100 % 0x100)
                 + 0x1_0000 * (w / 0x1_0000 % 0x100) + 0x100_0000 * (w / 0x100_0000)
  {
    var a := w / 0x100;
    var b := a / 0x100;
    assert w == 0x100 * a + w % 0x100 && a == 0x100 * b + a % 0x100 && b == 0x100 * (b / 0x100) + b % 0x100;
    assert b == w / 0x1_0000 && b / 0x100 == w / 0x100_0000;
  }

  lemma Le32Put(b: seq<byte>, at: nat, w: u32)
    requires at + 4 <= |b|
    ensures Le32(PutLe32(b, at, w), at) == w
  {
    Digits(w);
    var r := PutLe32(b, at, w);
    assert r[at] == w % 0x100 && r[at + 1] == w / 0x100 % 0x100;
    assert r[at + 2] == w / 0x1_0000 % 0x100 && r[at + 3] == w / 0x100_0000;
  }

  /** Reading back a word stored in place; a word that does not overlap it is not disturbed. */
  lemma Le32AfterPut(b: seq<byte>, at: nat, w: u32, other: nat)
    requires at + 4 <= |b| && other + 4 <= |b|
    requires other == at || other + 4 <= at || at + 4 <= other
    ensures Le32(PutLe32(b, at, w), other) == if other == at then w else Le32(b, other)
  {
    hide Le32, PutLe32;
    if other == at {
      Le32Put(b, at, w);
    } else {
      Le32Same(PutLe32(b, at, w), b, other);
    }
  }

  function Splice<T>(s: seq<T>, at: nat, d: seq<T>): (r: seq<T>)
    requires at + |d| <= |s|
    ensures |r| == |s|
    ensures forall k :: 0 <= k < |s| ==> r[k] == if at <= k < at + |d| then d[k - at] else s[k]
  {
    s[..at] + d + s[at + |d|..]
  }
}
