/** Directory entries as bytes: short names, their checksum, and the fragments a long name is cut into. */
module LongName {
  import opened Bytes

  const ENTRY_SIZE := 32

  type Entry = e: seq<byte> | |e| == ENTRY_SIZE witness seq(ENTRY_SIZE, _ => 0)

  const SFN_FREE: byte := 0xe5
  const SFN_LAST: byte := 0x00
  const SFN_PAD: byte := 0x20
  const DOT: byte := 0x2e
  const ATTR_LFN: byte := 0x0f
  const LFN_HEAD := 0x40
  const FRAG_LEN := 13
  const MAX_NAME := 255
  const MAX_FRAGS := 20

  /** Offsets of the 13 characters of a fragment; each is two bytes wide. */
  const LFN_INDICES: seq<nat> := [1, 3, 5, 7, 9, 14, 16, 18, 20, 22, 24, 28, 30]

  predicate IsLastMark(e: Entry) { e[0] == SFN_LAST }
  predicate IsFree(e: Entry) { e[0] == SFN_LAST || e[0] == SFN_FREE }
  predicate IsLfn(e: Entry) { e[11] == ATTR_LFN }
  function Crc(e: Entry): byte { e[13] }

  // ---------------------------------------------------------------- short names

  const ALLOWED: seq<byte> :=
    [0x21, 0x23, 0x24, 0x25, 0x26, 0x27, 0x28, 0x29, 0x2d, 0x40, 0x5e, 0x5f, 0x60, 0x7b, 0x7d, 0x7e, 0x20]

  function ToUpper(c: byte): byte { if 0x61 <= c <= 0x7a then c - 0x20 else c }

  function SfnChar(c: byte): byte {
    var u := ToUpper(c);
    if 0x41 <= u <= 0x5a || u in ALLOWED then u else 0x5f
  }

  /** How many characters make the base: at most 8, up to the first dot. */
  function BaseLen(name: seq<byte>, i: nat): (n: nat)
    requires i <= |name|
    ensures i <= n <= |name|
    decreases |name| - i
  {
    if i == |name| || i >= 8 || name[i] == DOT then i else BaseLen(name, i + 1)
  }

  /** The index behind the first dot from i on. */
  function AfterDot(name: seq<byte>, i: nat): (n: nat)
    requires i <= |name|
    ensures i <= n <= |name|
    decreases |name| - i
  {
    if i == |name| then i else if name[i] == DOT then i + 1 else AfterDot(name, i + 1)
  }

  /** Byte k of the short name the driver makes up for a long one: eight of base, three of extension. */
  function SfnAt(name: seq<byte>, k: nat): byte {
    var n := BaseLen(name, 0);
    var x := AfterDot(name, n);
    if k < 8 then (if k < n then SfnChar(name[k]) else SFN_PAD)
    else (if x + k - 8 < |name| then SfnChar(name[x + k - 8]) else SFN_PAD)
  }

  function SfnOf(name: seq<byte>): (r: seq<byte>)
    ensures |r| == 11
  {
    seq(11, k requires 0 <= k < 11 => SfnAt(name, k))
  }

  method PutSfnName(name: seq<byte>) returns (sfn: seq<byte>)
    ensures sfn == SfnOf(name)
  {
    var n := PutBase(name);
    var x := FindExtension(name, n.0);
    sfn := PutExtension(name, n.0, x, n.1);
  }

  /** Copies the base up to the first dot and pads it; returns how far it got in the name. */
  method PutBase(name: seq<byte>) returns (r: (nat, seq<byte>))
    ensures r.0 == BaseLen(name, 0) && |r.1| == 11
    ensures forall k :: 0 <= k < 8 ==> r.1[k] == SfnAt(name, k)
  {
    var sfn: seq<byte> := seq(11, _ => 0);
    var i: nat := 0;
    while i < |name| && i < 8 && name[i] != DOT
      invariant i <= |name| && i <= 8 && |sfn| == 11
      invariant BaseLen(name, 0) == BaseLen(name, i)
      invariant forall k :: 0 <= k < i ==> sfn[k] == SfnChar(name[k])
    {
      sfn := sfn[i := SfnChar(name[i])];
      i := i + 1;
    }
    var j := i;
    while j < 8
      invariant i <= j <= 8 && |sfn| == 11
      invariant forall k :: 0 <= k < j ==> sfn[k] == SfnAt(name, k)
    {
      sfn := sfn[j := SFN_PAD];
      j := j + 1;
    }
    r := (i, sfn);
  }

  method FindExtension(name: seq<byte>, from: nat) returns (x: nat)
    requires from <= |name|
    ensures x == AfterDot(name, from)
  {
    x := from;
    var more := true;
    while x < |name| && more
      invariant from <= x <= |name|
      invariant AfterDot(name, from) == if more then AfterDot(name, x) else x
    {
      more := name[x] != DOT;
      x := x + 1;
    }
  }

  method PutExtension(name: seq<byte>, n: nat, x: nat, base: seq<byte>) returns (sfn: seq<byte>)
    requires n == BaseLen(name, 0) && x == AfterDot(name, n) && |base| == 11
    requires forall k :: 0 <= k < 8 ==> base[k] == SfnAt(name, k)
    ensures sfn == SfnOf(name)
  {
    sfn := base;
    var j := 0;
    while j < 3 && x + j < |name|
      invariant 0 <= j <= 3 && |sfn| == 11 && x + j <= |name|
      invariant forall k :: 0 <= k < 8 + j ==> sfn[k] == SfnAt(name, k)
    {
      sfn := sfn[8 + j := SfnChar(name[x + j])];
      j := j + 1;
    }
    while j < 3
      invariant 0 <= j <= 3 && |sfn| == 11 && (j < 3 ==> x + j >= |name|)
      invariant forall k :: 0 <= k < 8 + j ==> sfn[k] == SfnAt(name, k)
    {
      sfn := sfn[8 + j := SFN_PAD];
      j := j + 1;
    }
  }

  /** A made-up short name never looks like a free entry or the end of the directory. */
  lemma SfnNotFree(name: seq<byte>)
    ensures SfnOf(name)[0] != SFN_LAST && SfnOf(name)[0] != SFN_FREE
  {
    assert SFN_LAST !in ALLOWED && SFN_FREE !in ALLOWED;
  }

  const SPECIAL: string := "!#$%&'()-@^_`{}~ "

  /** Letters become capitals, the special characters stay, and everything else becomes an underscore, the digits
      too. */
  lemma SfnCharIs(c: byte)
    ensures 'a' as int <= c <= 'z' as int ==> SfnChar(c) - 'A' as int == c - 'a' as int
    ensures 'A' as int <= c <= 'Z' as int ==> SfnChar(c) == c
    ensures forall i :: 0 <= i < |SPECIAL| && SPECIAL[i] as int == c ==> SfnChar(c) == c
    ensures SfnChar(c) == '_' as int || SfnChar(c) == c || 'a' as int <= c <= 'z' as int
    ensures '0' as int <= c <= '9' as int ==> SfnChar(c) == '_' as int
  {
    assert forall i :: 0 <= i < |SPECIAL| ==> SPECIAL[i] as int == ALLOWED[i];
  }

  /** parse_sfn_name: a short name as text, without its padding. */
  function ShortText(sfn: seq<byte>): seq<byte>
    requires |sfn| == 11
  {
    Unpadded(sfn, 0, 8) + (if sfn[8] == SFN_PAD then [] else [DOT]) + Unpadded(sfn, 8, 11)
  }

  function Unpadded(sfn: seq<byte>, i: nat, to: nat): seq<byte>
    requires i <= to <= |sfn|
    decreases |sfn| - i
  {
    if i == to || sfn[i] == SFN_PAD then [] else [sfn[i]] + Unpadded(sfn, i + 1, to)
  }

  /** Capitals and special characters, but no blank. */
  predicate Kept(text: seq<byte>) {
    forall k :: 0 <= k < |text| ==> SfnChar(text[k]) == text[k] != SFN_PAD
  }

  /** A name of eight characters and three, none of which has to be replaced, is the text of its own short name. */
  lemma ShortTextOf(base: seq<byte>, ext: seq<byte>)
    requires |base| <= 8 && |ext| <= 3 && Kept(base) && Kept(ext)
    ensures ShortText(SfnOf(base)) == base
    ensures ext != [] ==> ShortText(SfnOf(base + [DOT] + ext)) == base + [DOT] + ext
  {
    hide SfnChar;
    DotReplaced();
    BaseEnds(base, 0, |base|);
    UnpaddedIs(SfnOf(base), 0, 8, base);
    UnpaddedIs(SfnOf(base), 8, 11, []);
    if ext != [] {
      var name := base + [DOT] + ext;
      BaseEnds(name, 0, |base|);
      assert AfterDot(name, |base|) == |base| + 1;
      UnpaddedIs(SfnOf(name), 0, 8, base);
      UnpaddedIs(SfnOf(name), 8, 11, ext);
      assert SfnOf(name)[8] == ext[0];
    }
  }

  lemma DotReplaced()
    ensures SfnChar(DOT) != DOT
  {
  }

  lemma {:induction false} BaseEnds(name: seq<byte>, i: nat, n: nat)
    requires i <= n <= |name| && n <= 8 && (n == |name| || name[n] == DOT)
    requires forall k :: i <= k < n ==> name[k] != DOT
    ensures BaseLen(name, i) == n
    decreases |name| - i
  {
    if i < n {
      BaseEnds(name, i + 1, n);
    }
  }

  lemma {:induction false} UnpaddedIs(sfn: seq<byte>, i: nat, to: nat, text: seq<byte>)
    requires i + |text| <= to <= |sfn| && (i + |text| < to ==> sfn[i + |text|] == SFN_PAD)
    requires forall k :: 0 <= k < |text| ==> sfn[i + k] == text[k] != SFN_PAD
    ensures Unpadded(sfn, i, to) == text
    decreases |text|
  {
    if text != [] {
      forall k | 0 <= k < |text| - 1 ensures sfn[i + 1 + k] == text[1..][k] != SFN_PAD {
        assert sfn[i + (k + 1)] == text[k + 1];
      }
      UnpaddedIs(sfn, i + 1, to, text[1..]);
      assert sfn[i + 0] == text[0] && [text[0]] + text[1..] == text;
    }
  }

  function Checksum(sfn: seq<byte>, k: nat): byte
    requires k <= |sfn|
  {
    if k == 0 then 0
    else
      var sum := Checksum(sfn, k - 1);
      (sum % 2 * 0x80 + sum / 2 + sfn[k - 1]) % 0x100
  }

  function CrcOf(sfn: seq<byte>): byte
    requires |sfn| >= 11
  {
    Checksum(sfn, 11)
  }

  method GetCrc(sfn: seq<byte>) returns (sum: byte)
    requires |sfn| >= 11
    ensures sum == CrcOf(sfn)
  {
    sum := 0;
    for i := 0 to 11
      invariant sum == Checksum(sfn, i)
    {
      sum := (sum % 2 * 0x80 + sum / 2 + sfn[i]) % 0x100;
    }
  }

  function Bit(b: nat, j: nat): nat {
    if j == 0 then b % 2 else Bit(b / 2, j - 1)
  }

  function Pow2(m: nat): nat {
    if m == 0 then 1 else 2 * Pow2(m - 1)
  }

  /** Every bit goes one place down, and the lowest to the top. */
  predicate TurnedRight(b: byte, r: byte) {
    forall j :: 0 <= j < 8 ==> Bit(r, j) == Bit(b, (j + 1) % 8)
  }

  /** The checksum goes from one byte of the name to the next: turned right, then the character added. */
  predicate NextSum(b: byte, c: byte, b': byte) { TurnedRight(b, (b' - c) % 0x100) }

  ghost predicate AreSums(sfn: seq<byte>, sums: seq<byte>) {
    && |sfn| >= 11 && |sums| == 12 && sums[0] == 0
    && forall k :: 0 <= k < 11 ==> NextSum(sums[k], sfn[k], sums[k + 1])
  }

  lemma {:induction false} BitOfSum(x: nat, m: nat, y: nat, j: nat)
    requires x < Pow2(m) && j <= m
    ensures Bit(x + Pow2(m) * y, j) == if j < m then Bit(x, j) else y % 2
  {
    if m > 0 {
      Halves(x, Pow2(m - 1) * y);
      assert Pow2(m) * y == 2 * (Pow2(m - 1) * y);
      if j > 0 {
        BitOfSum(x / 2, m - 1, y, j - 1);
      }
    }
  }

  lemma Halves(x: nat, q: nat)
    ensures (x + 2 * q) / 2 == x / 2 + q && (x + 2 * q) % 2 == x % 2
  {
  }

  lemma {:induction false} SameBits(x: nat, y: nat, m: nat)
    requires x < Pow2(m) && y < Pow2(m) && forall j :: 0 <= j < m ==> Bit(x, j) == Bit(y, j)
    ensures x == y
  {
    if m > 0 {
      assert Bit(x, 0) == Bit(y, 0);
      forall j | 0 <= j < m - 1 ensures Bit(x / 2, j) == Bit(y / 2, j) {
        assert Bit(x, j + 1) == Bit(y, j + 1);
      }
      SameBits(x / 2, y / 2, m - 1);
    }
  }

  lemma TurnedRightIs(b: byte, r: byte)
    ensures TurnedRight(b, r) <==> r == b % 2 * 0x80 + b / 2
  {
    var t: byte := b % 2 * 0x80 + b / 2;
    SevenBits();
    forall j | 0 <= j < 8 ensures Bit(t, j) == Bit(b, (j + 1) % 8) {
      BitOfSum(b / 2, 7, b % 2, j);
    }
    if TurnedRight(b, r) {
      SameBits(r, t, 8);
    }
  }

  lemma SevenBits()
    ensures Pow2(7) == 0x80 && Pow2(8) == 0x100
  {
    assert Pow2(4) == 0x10;
  }

  lemma NextSumIs(b: byte, c: byte, b': byte)
    ensures NextSum(b, c, b') <==> b' == (b % 2 * 0x80 + b / 2 + c) % 0x100
  {
    hide TurnedRight;
    TurnedRightIs(b, (b' - c) % 0x100);
    SumBack(b % 2 * 0x80 + b / 2, c, b');
  }

  lemma SumBack(t: byte, c: byte, d: byte)
    ensures (d - c) % 0x100 == t <==> d == (t + c) % 0x100
  {
    assert (t + c) % 0x100 == if t + c < 0x100 then t + c else t + c - 0x100;
    assert (d - c) % 0x100 == if d >= c then d - c else d - c + 0x100;
  }

  /** The checksum of a short name is what the eleven turns and additions end with. */
  lemma ChecksumIs(sfn: seq<byte>, sum: byte)
    requires |sfn| >= 11
    ensures sum == CrcOf(sfn) <==> exists sums :: AreSums(sfn, sums) && sums[11] == sum
  {
    hide NextSum, Checksum;
    var all := seq(12, k requires 0 <= k < 12 => Checksum(sfn, k));
    ChecksumStart(sfn);
    forall k | 0 <= k < 11 ensures NextSum(all[k], sfn[k], all[k + 1]) {
      ChecksumNext(sfn, k);
      NextSumIs(all[k], sfn[k], all[k + 1]);
    }
    assert AreSums(sfn, all) && all[11] == CrcOf(sfn);
    forall sums | AreSums(sfn, sums) ensures sums[11] == CrcOf(sfn) {
      SumsAre(sfn, sums, 11);
    }
  }

  lemma ChecksumStart(sfn: seq<byte>)
    ensures Checksum(sfn, 0) == 0
  {
  }

  lemma ChecksumNext(sfn: seq<byte>, k: nat)
    requires k < |sfn|
    ensures Checksum(sfn, k + 1) == (Checksum(sfn, k) % 2 * 0x80 + Checksum(sfn, k) / 2 + sfn[k]) % 0x100
  {
  }

  lemma {:induction false} SumsAre(sfn: seq<byte>, sums: seq<byte>, k: nat)
    requires AreSums(sfn, sums) && k <= 11
    ensures sums[k] == Checksum(sfn, k)
  {
    hide NextSum, Checksum;
    ChecksumStart(sfn);
    if k > 0 {
      SumsAre(sfn, sums, k - 1);
      ChecksumNext(sfn, k - 1);
      assert NextSum(sums[k - 1], sfn[k - 1], sums[k]);
      NextSumIs(sums[k - 1], sfn[k - 1], sums[k]);
    }
  }

  /** The name README.TXT, as other systems write it, has the checksum 0x73. */
  lemma ChecksumOfReadme()
    ensures CrcOf([0x52, 0x45, 0x41, 0x44, 0x4d, 0x45, 0x20, 0x20, 0x54, 0x58, 0x54]) == 0x73
  {
    var sfn: seq<byte> := [0x52, 0x45, 0x41, 0x44, 0x4d, 0x45, 0x20, 0x20, 0x54, 0x58, 0x54];
    hide Checksum;
    ChecksumStart(sfn);
    ChecksumStep(sfn, 0, 0, 0x52);
    ChecksumStep(sfn, 1, 0x52, 0x6e);
    ChecksumStep(sfn, 2, 0x6e, 0x78);
    ChecksumStep(sfn, 3, 0x78, 0x80);
    ChecksumStep(sfn, 4, 0x80, 0x8d);
    ChecksumStep(sfn, 5, 0x8d, 0x0b);
    ChecksumStep(sfn, 6, 0x0b, 0xa5);
    ChecksumStep(sfn, 7, 0xa5, 0xf2);
    ChecksumStep(sfn, 8, 0xf2, 0xcd);
    ChecksumStep(sfn, 9, 0xcd, 0x3e);
    ChecksumStep(sfn, 10, 0x3e, 0x73);
  }

  lemma ChecksumStep(sfn: seq<byte>, k: nat, sum: byte, sum': byte)
    requires k < |sfn| && Checksum(sfn, k) == sum && sum' == (sum % 2 * 0x80 + sum / 2 + sfn[k]) % 0x100
    ensures Checksum(sfn, k + 1) == sum'
  {
  }

  lemma {:induction false} ChecksumOfPrefix(a: seq<byte>, b: seq<byte>, k: nat)
    requires k <= |a| && k <= |b| && a[..k] == b[..k]
    ensures Checksum(a, k) == Checksum(b, k)
  {
    if k > 0 {
      assert a[..k - 1] == a[..k][..k - 1] == b[..k][..k - 1] == b[..k - 1];
      assert a[k - 1] == a[..k][k - 1] == b[..k][k - 1] == b[k - 1];
      ChecksumOfPrefix(a, b, k - 1);
    }
  }

  // ---------------------------------------------------------------- fragments of a long name

  /** The low and high byte of character k of a fragment: the name, a terminator, then filler. */
  function LowByte(frag: seq<byte>, k: nat): byte {
    if k < |frag| then frag[k] else if k == |frag| then 0 else 0xff
  }

  function HighByte(frag: seq<byte>, k: nat): byte {
    if k <= |frag| then 0 else 0xff
  }

  /** Characters k .. 13 of frag stored, the rest of the entry as it was. */
  predicate HoldsFrag(was: Entry, r: Entry, frag: seq<byte>, k: nat)
    requires k <= FRAG_LEN
  {
    && (forall i :: 0 <= i < k ==> r[LFN_INDICES[i]] == LowByte(frag, i) && r[LFN_INDICES[i] + 1] == HighByte(frag, i))
    && (forall j :: 0 <= j < ENTRY_SIZE && (j == 0 || 11 <= j <= 13 || 26 <= j <= 27) ==> r[j] == was[j])
  }

  method PutLfnNameFrag(was: Entry, frag: seq<byte>) returns (r: Entry)
    requires |frag| <= FRAG_LEN
    ensures HoldsFrag(was, r, frag, FRAG_LEN)
  {
    r := was;
    var i := 0;
    while i < |frag|
      invariant i <= |frag| && HoldsFrag(was, r, frag, i)
    {
      r := PutChar(was, r, frag, i, frag[i], 0);
      i := i + 1;
    }
    if i < FRAG_LEN {
      r := PutChar(was, r, frag, i, 0, 0);
      i := i + 1;
      while i < FRAG_LEN
        invariant |frag| < i <= FRAG_LEN && HoldsFrag(was, r, frag, i)
      {
        r := PutChar(was, r, frag, i, 0xff, 0xff);
        i := i + 1;
      }
    }
  }

  function PutChar(was: Entry, e: Entry, frag: seq<byte>, i: nat, low: byte, high: byte): (r: Entry)
    requires i < FRAG_LEN && HoldsFrag(was, e, frag, i) && low == LowByte(frag, i) && high == HighByte(frag, i)
    ensures HoldsFrag(was, r, frag, i + 1)
  {
    e[LFN_INDICES[i] := low][LFN_INDICES[i] + 1 := high]
  }

  /** Character k of a fragment as a 16-bit unit: the name, a zero, then all ones. */
  function Unit(frag: seq<byte>, k: nat): nat {
    if k < |frag| then frag[k] else if k == |frag| then 0 else 0xffff
  }

  function UnitAt(e: Entry, at: nat): nat
    requires at < ENTRY_SIZE - 1
  {
    var low: int, high: int := e[at], e[at + 1];
    low + 0x100 * high
  }

  /** Five units, six and two, in the places where FAT32 has them. */
  lemma UnitsStored(was: Entry, r: Entry, frag: seq<byte>)
    requires HoldsFrag(was, r, frag, FRAG_LEN)
    ensures forall k :: 0 <= k < 5 ==> UnitAt(r, 1 + 2 * k) == Unit(frag, k)
    ensures forall k :: 5 <= k < 11 ==> UnitAt(r, 14 + 2 * (k - 5)) == Unit(frag, k)
    ensures forall k :: 11 <= k < 13 ==> UnitAt(r, 28 + 2 * (k - 11)) == Unit(frag, k)
  {
    forall k | 0 <= k < FRAG_LEN ensures UnitAt(r, LFN_INDICES[k]) == Unit(frag, k) {
      assert r[LFN_INDICES[k]] == LowByte(frag, k);
    }
    assert forall k :: 0 <= k < 5 ==> LFN_INDICES[k] == 1 + 2 * k;
    assert forall k :: 5 <= k < 11 ==> LFN_INDICES[k] == 14 + 2 * (k - 5);
    assert forall k :: 11 <= k < 13 ==> LFN_INDICES[k] == 28 + 2 * (k - 11);
  }

  /** Reading characters from i on: a filler before the terminator is an error. */
  datatype Frag = BadFrag | Chars(s: seq<byte>)

  function FragFrom(e: Entry, i: nat): (f: Frag)
    requires i <= FRAG_LEN
    ensures f.Chars? ==> |f.s| <= FRAG_LEN - i
    decreases FRAG_LEN - i
  {
    if i == FRAG_LEN then Chars([])
    else
      var c := e[LFN_INDICES[i]];
      if c == 0xff then BadFrag
      else if c == 0 then Chars([])
      else
        var f := FragFrom(e, i + 1);
        if f.BadFrag? then BadFrag else Chars([c] + f.s)
  }

  /** The characters a name may have. */
  predicate PlainName(name: seq<byte>) {
    forall k :: 0 <= k < |name| ==> name[k] != 0 && name[k] != 0xff
  }

  lemma {:induction false} FragReadsBack(was: Entry, e: Entry, frag: seq<byte>, i: nat)
    requires |frag| <= FRAG_LEN && i <= |frag| && HoldsFrag(was, e, frag, FRAG_LEN) && PlainName(frag)
    ensures FragFrom(e, i) == Chars(frag[i..])
    decreases FRAG_LEN - i
  {
    if i < FRAG_LEN {
      assert e[LFN_INDICES[i]] == LowByte(frag, i);
      if i < |frag| {
        FragReadsBack(was, e, frag, i + 1);
        assert frag[i..] == [frag[i]] + frag[i + 1..];
      }
    }
  }

  // ---------------------------------------------------------------- the run of entries of a name

  function FragCount(len: nat): nat { (len + 12) / 13 }

  /** The characters that go into fragment i, counted from 1. */
  function FragOf(name: seq<byte>, i: nat): (f: seq<byte>)
    requires 1 <= i <= FragCount(|name|)
    ensures 1 <= |f| <= FRAG_LEN
    ensures i < FragCount(|name|) ==> |f| == FRAG_LEN
  {
    var pos := 13 * (i - 1);
    name[pos..if |name| - pos < 13 then |name| else pos + 13]
  }

  /** e is the long entry number i of name: sequence number, attribute, checksum, characters. */
  predicate IsLfnEntry(e: Entry, name: seq<byte>, i: nat, crc: byte)
    requires 1 <= i <= FragCount(|name|) <= MAX_FRAGS
  {
    && e[0] == (if i == FragCount(|name|) then LFN_HEAD + i else i)
    && IsLfn(e) && Crc(e) == crc
    && e[12] == 0 && e[26] == 0 && e[27] == 0
    && HoldsFrag(e, e, FragOf(name, i), FRAG_LEN)
  }

  /** es is the run for name: the last fragment first, then a short entry with the made-up name. */
  ghost predicate IsRunOf(es: seq<Entry>, name: seq<byte>) {
    && 1 <= |name| <= MAX_NAME
    && |es| == FragCount(|name|) + 1
    && (forall k :: 0 <= k < |es| - 1 ==> IsLfnEntry(es[k], name, FragCount(|name|) - k, CrcOf(SfnOf(name))))
    && es[|es| - 1][..11] == SfnOf(name)
    && !IsLfn(es[|es| - 1])
  }

  // ---------------------------------------------------------------- building entries

  /** The fields dir_add sets in a long entry, over whatever the entry held. */
  method BuildLfn(was: Entry, name: seq<byte>, i: nat, mask: nat, crc: byte) returns (r: Entry)
    requires 1 <= i <= FragCount(|name|) <= MAX_FRAGS
    requires mask == if i == FragCount(|name|) then LFN_HEAD else 0
    ensures IsLfnEntry(r, name, i, crc)
  {
    hide LowByte, HighByte;
    var pos := 13 * (i - 1);
    var frag := name[pos..if |name| - pos < 13 then |name| else pos + 13];
    r := PutLfnNameFrag(was, frag);
    r := r[11 := ATTR_LFN];
    r := r[0 := mask + i];
    r := r[13 := crc];
    r := r[12 := 0];
    r := r[26 := 0][27 := 0];
  }

  /** The start cluster a short entry points to, and the file size it states. */
  function EntryClust(e: Entry): nat {
    var h0: int, h1: int, l0: int, l1: int := e[20], e[21], e[26], e[27];
    (h0 + 0x100 * h1) * 0x1_0000 + l0 + 0x100 * l1
  }

  function EntrySize(e: Entry): u32 { Le32(e, 28) }

  lemma ClustBytes(e: Entry, clust: u32)
    requires e[20] == clust / 0x1_0000 % 0x100 && e[21] == clust / 0x100_0000
    requires e[26] == clust % 0x100 && e[27] == clust / 0x100 % 0x100
    ensures EntryClust(e) == clust
  {
    Digits(clust);
  }

  /** The dates and times, none of which the driver reads back. */
  function Stamps(e: Entry, date: nat, time: nat): (r: Entry)
    ensures forall k :: 0 <= k < 14 || 20 <= k < 22 || 26 <= k < ENTRY_SIZE ==> r[k] == e[k]
  {
    e[14 := time % 0x100][15 := time / 0x100 % 0x100][22 := time % 0x100][23 := time / 0x100 % 0x100]
    [16 := date % 0x100][17 := date / 0x100 % 0x100][24 := date % 0x100][25 := date / 0x100 % 0x100]
    [18 := date % 0x100][19 := date / 0x100 % 0x100]
  }

  /** Made, read and written at one time, told where FAT32 has it. */
  predicate Dated(e: Entry, date: nat, time: nat) {
    && Le16(e, 14) == Le16(e, 22) == time % 0x1_0000
    && Le16(e, 16) == Le16(e, 18) == Le16(e, 24) == date % 0x1_0000
  }

  /** The entry of a file just made. */
  predicate Fresh(e: Entry, attr: byte, clust: u32, date: nat, time: nat) {
    && e[11] == attr && e[12] == 0 && e[13] == 0 && EntryClust(e) == clust && EntrySize(e) == 0 && Dated(e, date, time)
  }

  lemma StampsAre(e: Entry, date: nat, time: nat)
    ensures Dated(Stamps(e, date, time), date, time)
  {
    LowWord(date);
    LowWord(time);
    var r := Stamps(e, date, time);
    assert r[14] == r[22] == time % 0x100 && r[15] == r[23] == time / 0x100 % 0x100;
    assert r[16] == r[18] == r[24] == date % 0x100 && r[17] == r[19] == r[25] == date / 0x100 % 0x100;
  }

  lemma LowWord(w: nat)
    ensures w % 0x100 + 0x100 * (w / 0x100 % 0x100) == w % 0x1_0000
  {
    var q := w / 0x100;
    WordParts(q / 0x100, q % 0x100, w % 0x100);
    assert w == 0x1_0000 * (q / 0x100) + 0x100 * (q % 0x100) + w % 0x100;
  }

  lemma WordParts(p: nat, s: nat, r: nat)
    requires s < 0x100 && r < 0x100
    ensures (0x1_0000 * p + 0x100 * s + r) % 0x1_0000 == 0x100 * s + r
  {
  }

  lemma DatedSame(e: Entry, f: Entry, date: nat, time: nat)
    requires Dated(e, date, time) && forall k :: 14 <= k < 26 ==> f[k] == e[k]
    ensures Dated(f, date, time)
  {
  }

  /** The fields of the short entry of a new name. */
  method BuildSfn(was: Entry, sfn: seq<byte>, attr: byte, clust: u32, date: nat, time: nat) returns (r: Entry)
    requires |sfn| == 11
    ensures r[..11] == sfn && Fresh(r, attr, clust, date, time)
  {
    hide Le32, EntryClust, Stamps, Dated;
    r := Splice(was, 0, sfn);
    r := r[20 := clust / 0x1_0000 % 0x100][21 := clust / 0x100_0000];
    r := r[26 := clust % 0x100][27 := clust / 0x100 % 0x100];
    r := r[11 := attr][12 := 0][13 := 0];
    StampsAre(r, date, time);
    r := Stamps(r, date, time);
    ghost var s := r;
    r := PutLe32(r, 28, 0);
    assert r[..11] == sfn;
    DatedSame(s, r, date, time);
    ClustBytes(r, clust);
    Le32AfterPut(s, 28, 0, 28);
  }
}
