/** The Ethernet controller's word FIFOs: packing fragments into words and words into buffers. */
module Mac {

  const MAX_FRAME := 2048

  // ---------------------------------------------------------------- words

  /** The shift of byte k of a word. */
  function Shift(k: nat): bv32
    requires k < 4
  {
    match k case 0 => 0 case 1 => 8 case 2 => 16 case _ => 24
  }

  /** (uint8_t) (word >> s). */
  function At8(w: bv32, s: bv32): bv8
    requires s < 32
  {
    ((w >> s) & 0xff) as bv8
  }

  function Or8(a: bv8, b: bv8): bv8 { a | b }
  function Or(a: bv32, b: bv32): bv32 { a | b }

  function Moved(b: bv8, s: bv32): bv32
    requires s < 32
  {
    (b as bv32) << s
  }

  function ByteOf(w: bv32, k: nat): bv8
    requires k < 4
  {
    At8(w, Shift(k))
  }

  /** word |= byte << (byte_idx * 8). */
  function PutByte(w: bv32, k: nat, b: bv8): bv32
    requires k < 4
  {
    Or(w, Moved(b, Shift(k)))
  }

  predicate ByteShift(s: bv32) { s == 0 || s == 8 || s == 16 || s == 24 }

  lemma OrAt(a: bv32, b: bv32, s: bv32)
    requires ByteShift(s)
    ensures At8(Or(a, b), s) == Or8(At8(a, s), At8(b, s))
  {
    if s == 0 { return; }
    if s == 8 { return; }
    if s == 16 { return; }
  }

  lemma MovedAt(b: bv8, s: bv32, t: bv32)
    requires ByteShift(s) && ByteShift(t)
    ensures At8(Moved(b, s), t) == if s == t then b else 0
  {
  }

  lemma OrUnits(b: bv8)
    ensures Or8(b, 0) == b && Or8(0, b) == b
  {
  }

  lemma Shifts(k: nat, j: nat)
    requires k < 4 && j < 4
    ensures ByteShift(Shift(k)) && Shift(k) < 32 && Shift(j) < 32 && (Shift(k) == Shift(j) <==> k == j)
  {
  }

  lemma PutByteIs(w: bv32, k: nat, b: bv8, j: nat)
    requires k < 4 && j < 4 && ByteOf(w, k) == 0
    ensures ByteOf(PutByte(w, k, b), j) == if j == k then b else ByteOf(w, j)
  {
    hide At8, Or8, Or, Moved, Shift, ByteShift;
    Shifts(k, j);
    Shifts(j, k);
    OrAt(w, Moved(b, Shift(k)), Shift(j));
    MovedAt(b, Shift(k), Shift(j));
    OrUnits(b);
    OrUnits(ByteOf(w, j));
  }

  lemma NoBytes(k: nat)
    requires k < 4
    ensures ByteOf(0, k) == 0
  {
  }

  // ---------------------------------------------------------------- packing

  datatype Packer = Packer(words: seq<bv32>, word: bv32, idx: nat)

  /** What the sending loop has done after the bytes bs, whatever fragments they came in. */
  predicate Packs(p: Packer, bs: seq<bv8>) {
    && p.idx == |bs| % 4 && |p.words| == |bs| / 4
    && (forall j :: 0 <= j < 4 * |p.words| ==> ByteOf(p.words[j / 4], j % 4) == bs[j])
    && (forall k :: 0 <= k < 4 ==> ByteOf(p.word, k) == if k < p.idx then bs[4 * |p.words| + k] else 0)
  }

  /** The words that carry bs: four bytes each, low byte first, the last one filled up with zeroes. */
  predicate Carries(words: seq<bv32>, bs: seq<bv8>) {
    && |words| == (|bs| + 3) / 4
    && forall j :: 0 <= j < 4 * |words| ==> ByteOf(words[j / 4], j % 4) == if j < |bs| then bs[j] else 0
  }

  function Next(p: Packer, b: bv8): Packer
    requires p.idx < 4
  {
    var w := PutByte(p.word, p.idx, b);
    if p.idx == 3 then Packer(p.words + [w], 0, 0) else Packer(p.words, w, p.idx + 1)
  }

  lemma NextByte(p: Packer, bs: seq<bv8>, b: bv8, j: nat)
    requires Packs(p, bs) && j < 4 && p.idx < 4
    ensures ByteOf(PutByte(p.word, p.idx, b), j)
         == if j < p.idx then bs[4 * |p.words| + j] else if j == p.idx then b else 0
  {
    hide ByteOf, PutByte;
    PutByteIs(p.word, p.idx, b, j);
  }

  lemma PacksNext(p: Packer, bs: seq<bv8>, b: bv8)
    requires Packs(p, bs) && p.idx < 4
    ensures Packs(Next(p, b), bs + [b])
  {
    hide ByteOf, PutByte;
    var w, m := PutByte(p.word, p.idx, b), |p.words|;
    assert |bs| == 4 * m + p.idx && |bs + [b]| == 4 * m + (p.idx + 1);
    forall j | 0 <= j < 4
      ensures ByteOf(w, j) == (if j < p.idx then bs[4 * m + j] else if j == p.idx then b else 0) && ByteOf(0, j) == 0
    {
      NextByte(p, bs, b, j);
      NoBytes(j);
    }
  }

  lemma Flushed(p: Packer, bs: seq<bv8>)
    requires Packs(p, bs)
    ensures Carries(if p.idx != 0 then p.words + [p.word] else p.words, bs)
  {
    hide ByteOf;
  }

  // ---------------------------------------------------------------- fragments and buffers

  function Flat(ss: seq<seq<bv8>>): seq<bv8> {
    if ss == [] then [] else ss[0] + Flat(ss[1..])
  }

  /** Bytes before piece q. */
  function Before(ss: seq<seq<bv8>>, q: nat): (n: nat)
    requires q <= |ss|
  {
    if q == 0 then 0 else |ss[0]| + Before(ss[1..], q - 1)
  }

  lemma {:induction false} FlatSplit(ss: seq<seq<bv8>>, q: nat)
    requires q <= |ss|
    ensures Flat(ss) == Flat(ss[..q]) + Flat(ss[q..])
    decreases q
  {
    if q > 0 {
      FlatSplit(ss[1..], q - 1);
      assert ss[..q][1..] == ss[1..][..q - 1] && ss[q..] == ss[1..][q - 1..];
      assert ss[0] + (Flat(ss[..q][1..]) + Flat(ss[q..])) == ss[0] + Flat(ss[..q][1..]) + Flat(ss[q..]);
    } else {
      assert ss[..0] == [] && ss[0..] == ss;
    }
  }

  lemma {:induction false} BeforeNext(ss: seq<seq<bv8>>, q: nat)
    requires q < |ss|
    ensures Before(ss, q + 1) == Before(ss, q) + |ss[q]| <= |Flat(ss)|
    decreases q
  {
    if q > 0 {
      BeforeNext(ss[1..], q - 1);
    } else {
      assert Before(ss[1..], 0) == 0;
    }
  }

  lemma {:induction false} BeforeAll(ss: seq<seq<bv8>>)
    ensures Before(ss, |ss|) == |Flat(ss)|
    decreases |ss|
  {
    if ss != [] {
      BeforeAll(ss[1..]);
    }
  }

  /** Storing into a piece is storing into the whole. */
  lemma {:induction false} FlatPut(ss: seq<seq<bv8>>, q: nat, i: nat, b: bv8)
    requires q < |ss| && i < |ss[q]|
    ensures Before(ss, q) + i < |Flat(ss)|
    ensures Flat(ss[q := ss[q][i := b]]) == Flat(ss)[Before(ss, q) + i := b]
    decreases q
  {
    var ts := ss[q := ss[q][i := b]];
    if q == 0 {
      assert ts[1..] == ss[1..];
    } else {
      FlatPut(ss[1..], q - 1, i, b);
      assert ts[1..] == ss[1..][q - 1 := ss[q][i := b]];
    }
  }

  // ---------------------------------------------------------------- sending

  /** What goes through the FIFOs: the length of a frame in bits, then its words. */
  datatype Entry = Bits(n: nat) | Word(w: bv32)

  function AsWords(ws: seq<bv32>): (es: seq<Entry>)
    ensures |es| == |ws| && forall i :: 0 <= i < |ws| ==> es[i] == Word(ws[i])
  {
    seq(|ws|, i requires 0 <= i < |ws| => Word(ws[i]))
  }

  /** The packing loop of mac_tx_packet: its words carry the concatenated fragments. */
  method Pack(frags: seq<seq<bv8>>) returns (words: seq<bv32>)
    ensures Carries(words, Flat(frags))
  {
    hide Packs, Carries, PutByte, ByteOf;
    var p := Packer([], 0, 0);
    PacksNothing();
    for f := 0 to |frags|
      invariant p.idx < 4 && Packs(p, Flat(frags[..f]))
    {
      var done := Flat(frags[..f]);
      assert frags[f][..0] == [] && done + [] == done;
      for i := 0 to |frags[f]|
        invariant p.idx < 4 && Packs(p, done + frags[f][..i])
      {
        PacksNext(p, done + frags[f][..i], frags[f][i]);
        assert done + frags[f][..i + 1] == done + frags[f][..i] + [frags[f][i]];
        p := Next(p, frags[f][i]);
      }
      assert frags[f][..|frags[f]|] == frags[f];
      FlatSnoc(frags, f);
    }
    assert frags[..|frags|] == frags;
    Flushed(p, Flat(frags));
    words := if p.idx != 0 then p.words + [p.word] else p.words;
  }

  lemma PacksNothing()
    ensures Packs(Packer([], 0, 0), Flat([]))
  {
    forall k | 0 <= k < 4 ensures ByteOf(0, k) == 0 { NoBytes(k); }
  }

  lemma FlatSnoc(ss: seq<seq<bv8>>, f: nat)
    requires f < |ss|
    ensures Flat(ss[..f + 1]) == Flat(ss[..f]) + ss[f]
  {
    FlatSplit(ss[..f + 1], f);
    assert ss[..f + 1][..f] == ss[..f] && ss[..f + 1][f..] == [ss[f]];
    assert [ss[f]][1..] == [] && Flat([ss[f]]) == ss[f] + [] == ss[f];
  }

  // ---------------------------------------------------------------- receiving

  /** Received; no room left in the chain; a byte would go past a buffer of length zero; no sensible frame. */
  datatype Outcome = Received | NoRoom | Overrun | TooLong

  /** What becomes of a frame of n bytes and a chain of buffers with the lengths of ss. */
  function Fate(ss: seq<seq<bv8>>, n: nat): Outcome {
    if n == 0 then Received
    else if ss == [] then NoRoom
    else if ss[0] == [] then Overrun
    else if n <= |ss[0]| then Received
    else Fate(ss[1..], n - |ss[0]|)
  }

  /** A frame is stored exactly when the chain has room for it and no buffer of length zero comes before its end. */
  lemma {:induction false} FateIff(ss: seq<seq<bv8>>, n: nat)
    ensures Fate(ss, n) == Received <==>
              n <= |Flat(ss)| && forall q :: 0 <= q < |ss| && ss[q] == [] ==> n <= Before(ss, q)
    decreases |ss|
  {
    if n > 0 && ss != [] && ss[0] != [] {
      if n <= |ss[0]| {
        forall q | 0 <= q < |ss| && ss[q] == [] ensures n <= Before(ss, q) {}
      } else {
        FateIff(ss[1..], n - |ss[0]|);
        if Fate(ss, n) == Received {
          forall q | 0 <= q < |ss| && ss[q] == [] ensures n <= Before(ss, q) {
            assert ss[q] == ss[1..][q - 1] && Before(ss, q) == |ss[0]| + Before(ss[1..], q - 1);
          }
        } else if n <= |Flat(ss)| {
          var q :| 0 <= q < |ss[1..]| && ss[1..][q] == [] && n - |ss[0]| > Before(ss[1..], q);
          assert ss[q + 1] == [] && Before(ss, q + 1) == |ss[0]| + Before(ss[1..], q);
        }
      }
    } else if n > 0 && ss != [] {
      assert ss[0] == [] && Before(ss, 0) == 0;
    }
  }

  /** A byte goes past a buffer of length zero exactly when one comes before the end of the frame. Otherwise a frame
      that is not received finds no room. */
  lemma {:induction false} OverrunIff(ss: seq<seq<bv8>>, n: nat)
    ensures Fate(ss, n) == Overrun <==> exists q :: 0 <= q < |ss| && ss[q] == [] && Before(ss, q) < n
    decreases |ss|
  {
    if n > 0 && ss != [] {
      assert Before(ss, 0) == 0;
      forall q | 0 < q < |ss| ensures ss[q] == ss[1..][q - 1] && Before(ss, q) == |ss[0]| + Before(ss[1..], q - 1) {}
      if ss[0] != [] && n > |ss[0]| {
        OverrunIff(ss[1..], n - |ss[0]|);
        if Fate(ss, n) == Overrun {
          var q :| 0 <= q < |ss[1..]| && ss[1..][q] == [] && Before(ss[1..], q) < n - |ss[0]|;
          assert ss[q + 1] == [];
        }
      }
    }
  }

  /** word = word >> 8. */
  function Down(w: bv32): bv32 {
    var s: bv32 := 8;
    w >> s
  }

  lemma DownAt(w: bv32, s: bv32)
    requires s == 0 || s == 8 || s == 16
    ensures At8(Down(w), s) == At8(w, s + 8)
  {
    if s == 0 { return; }
    if s == 8 { return; }
  }

  lemma ShiftDown(w: bv32, k: nat)
    requires k < 3
    ensures ByteOf(Down(w), k) == ByteOf(w, k + 1)
  {
    DownAt(w, Shift(k));
  }

  /** What is left of the word being taken apart after done bytes of the frame. */
  predicate Opened(words: seq<bv32>, done: nat, word: bv32) {
    done % 4 != 0 ==>
      && done / 4 < |words|
      && forall k :: 0 <= k < 4 - done % 4 ==> ByteOf(word, k) == ByteOf(words[done / 4], done % 4 + k)
  }

  lemma OpenedNext(words: seq<bv32>, done: nat, word: bv32)
    requires Opened(words, done, word) && done / 4 < |words| && (done % 4 == 0 ==> word == words[done / 4])
    ensures At8(word, 0) == ByteOf(words[done / 4], done % 4) && Opened(words, done + 1, Down(word))
  {
    hide At8, Down;
    assert At8(word, 0) == ByteOf(word, 0);
    hide ByteOf;
    assert done == 4 * (done / 4) + done % 4;
    if done % 4 != 3 {
      assert (done + 1) / 4 == done / 4 && (done + 1) % 4 == done % 4 + 1;
      forall k | 0 <= k < 4 - (done + 1) % 4
        ensures ByteOf(Down(word), k) == ByteOf(words[done / 4], done % 4 + 1 + k)
      {
        ShiftDown(word, k);
      }
    }
  }

  /** The first n bytes of the chain are the bytes of the words, the others are as they were. */
  ghost predicate Holds(ss: seq<seq<bv8>>, was: seq<seq<bv8>>, words: seq<bv32>, n: nat) {
    && |ss| == |was| && (forall q :: 0 <= q < |ss| ==> |ss[q]| == |was[q]|) && |Flat(ss)| == |Flat(was)|
    && n <= |Flat(ss)| && n <= 4 * |words|
    && forall j :: 0 <= j < |Flat(ss)| ==> Flat(ss)[j] == if j < n then ByteOf(words[j / 4], j % 4) else Flat(was)[j]
  }

  lemma HoldsNext(ss: seq<seq<bv8>>, was: seq<seq<bv8>>, words: seq<bv32>, n: nat, q: nat, i: nat, b: bv8)
    requires Holds(ss, was, words, n) && n / 4 < |words| && q < |ss| && i < |ss[q]| && n == Before(ss, q) + i
    requires b == ByteOf(words[n / 4], n % 4)
    ensures var ts := ss[q := ss[q][i := b]];
            Holds(ts, was, words, n + 1) && Before(ts, q) == Before(ss, q) && ts[q + 1..] == ss[q + 1..]
  {
    hide ByteOf;
    FlatPut(ss, q, i, b);
    BeforeSame(ss[q := ss[q][i := b]], ss, q);
  }

  lemma {:induction false} BeforeSame(ss: seq<seq<bv8>>, ts: seq<seq<bv8>>, q: nat)
    requires q <= |ss| == |ts| && forall k :: 0 <= k < |ss| ==> |ss[k]| == |ts[k]|
    ensures Before(ss, q) == Before(ts, q)
    decreases q
  {
    if q > 0 {
      BeforeSame(ss[1..], ts[1..], q - 1);
    }
  }

  /** What becomes of left more bytes when the current buffer, the one before q, has room for some. */
  function FateFrom(ss: seq<seq<bv8>>, q: nat, room: nat, left: nat): Outcome
    requires q <= |ss|
  {
    if left <= room then Received else Fate(ss[q..], left - room)
  }

  /** Between two bytes: left of n are to come, q buffers have been begun, the last of them filled up to pos and
      with room for more. */
  ghost predicate Filling(ss: seq<seq<bv8>>, was: seq<seq<bv8>>, words: seq<bv32>, n: int, left: int, q: int,
                          pos: int, room: int, word: bv32) {
    && 0 <= left <= n && 0 <= q <= |ss| && 0 <= room && 0 <= pos && |words| == (n + 3) / 4
    && Holds(ss, was, words, n - left) && Opened(words, n - left, word)
    && (q == 0 ==> room == 0 && left == n)
    && (q > 0 ==> pos + room == |ss[q - 1]| && n - left == Before(ss, q - 1) + pos)
    && FateFrom(ss, q, room, left) == Fate(was, n)
  }

  lemma FillStart(ss: seq<seq<bv8>>, words: seq<bv32>, n: nat, word: bv32)
    requires |words| == (n + 3) / 4
    ensures Filling(ss, ss, words, n, n, 0, 0, 0, word)
  {
    assert ss[0..] == ss;
  }

  /** The next buffer, or none. */
  lemma FillOpen(ss: seq<seq<bv8>>, was: seq<seq<bv8>>, words: seq<bv32>, n: int, left: int, q: int, pos: int,
                 word: bv32)
    requires Filling(ss, was, words, n, left, q, pos, 0, word) && left > 0
    ensures q == |ss| ==> Fate(was, n) == NoRoom
    ensures q < |ss| && ss[q] == [] ==> Fate(was, n) == Overrun
    ensures q < |ss| && ss[q] != [] ==> Filling(ss, was, words, n, left, q + 1, 0, |ss[q]|, word)
  {
    hide Holds, Opened;
    if q > 0 {
      BeforeNext(ss, q - 1);
    }
    if q < |ss| {
      assert ss[q..][1..] == ss[q + 1..];
    }
  }

  lemma FillNext(ss: seq<seq<bv8>>, was: seq<seq<bv8>>, words: seq<bv32>, n: int, left: int, q: int, pos: int,
                 room: int, word: bv32)
    requires Filling(ss, was, words, n, left, q, pos, room, word) && left > 0 && room > 0
    requires (n - left) % 4 == 0 ==> word == words[(n - left) / 4]
    ensures pos < |ss[q - 1]|
    ensures Filling(ss[q - 1 := ss[q - 1][pos := At8(word, 0)]], was, words, n, left - 1, q, pos + 1, room - 1,
                    Down(word))
  {
    hide Holds, Opened, ByteOf, At8, Down, Before, Fate;
    OpenedNext(words, n - left, word);
    HoldsNext(ss, was, words, n - left, q - 1, pos, At8(word, 0));
  }

  lemma FillDone(ss: seq<seq<bv8>>, was: seq<seq<bv8>>, words: seq<bv32>, n: int, q: int, pos: int, room: int,
                 word: bv32)
    requires Filling(ss, was, words, n, 0, q, pos, room, word)
    ensures Fate(was, n) == Received && Holds(ss, was, words, n) && (n == |Flat(ss)| ==> room == 0)
  {
    hide Opened;
    if q > 0 {
      BeforeNext(ss, q - 1);
    }
  }

  class Controller {
    var rx: seq<Entry>
    var tx: seq<Entry>
    var chain: seq<seq<bv8>>  // the buffers pbuf_alloc has given for the frame
    var qLeft: nat            // kept from frame to frame

    /** mac_tx_packet. */
    method Send(frags: seq<seq<bv8>>) returns (ghost words: seq<bv32>)
      modifies this`tx
      ensures tx == old(tx) + [Bits(8 * |Flat(frags)|)] + AsWords(words) && Carries(words, Flat(frags))
    {
      hide Carries;
      var size := 0;
      for f := 0 to |frags|
        invariant size == Before(frags, f) && tx == old(tx)
      {
        BeforeNext(frags, f);
        size := size + |frags[f]|;
      }
      BeforeAll(frags);
      tx := tx + [Bits(size * 8)];
      var ws := Pack(frags);
      tx := tx + AsWords(ws);
      words := ws;
    }

    method GetRx() returns (e: Entry)
      requires rx != []
      modifies this`rx
      ensures e == old(rx)[0] && rx == old(rx)[1..]
    {
      e := rx[0];
      rx := rx[1..];
    }

    /** One turn of the inner loop: every fourth byte a new word is fetched; the byte goes to its place. */
    method PutOne(q: nat, pos: nat, byteId: nat, word0: bv32, ghost words: seq<bv32>, ghost more: seq<Entry>,
                  ghost was: seq<seq<bv8>>, ghost n: int, ghost left: int) returns (word: bv32)
      requires Filling(chain, was, words, n, left, q, pos, qLeft, word0) && left > 0 && qLeft > 0
      requires byteId == (n - left) % 4
      requires rx == AsWords(words)[(n - left + 3) / 4..] + more
      modifies this`rx, this`chain, this`qLeft
      ensures Filling(chain, was, words, n, left - 1, q, pos + 1, qLeft, word)
      ensures rx == AsWords(words)[(n - left + 4) / 4..] + more
    {
      hide Holds, ByteOf, Down, Before, At8, Fate, FateFrom;
      word := word0;
      if byteId == 0 {
        var e := GetRx();
        word := e.w;
        assert AsWords(words)[(n - left + 3) / 4..][1..] == AsWords(words)[(n - left + 4) / 4..];
      }
      FillNext(chain, was, words, n, left, q, pos, qLeft, word);
      chain := chain[q - 1 := chain[q - 1][pos := At8(word, 0)]];
      word := Down(word);
      qLeft := qLeft - 1;
    }

    /** The rest of a frame there is no room for is read away. */
    method Drain(left: int)
      modifies this`rx
    {
      var n := left;
      while n > 0 && rx != [] {
        var _ := GetRx();
        n := n - 4;
      }
    }

    /** mac_rx for one frame, into a chain of buffers. */
    method Receive(ghost bits: nat, ghost words: seq<bv32>, ghost more: seq<Entry>) returns (out: Outcome)
      requires rx == [Bits(bits)] + AsWords(words) + more && |words| == (bits + 31) / 32 && qLeft == 0
      modifies this
      ensures out == if (bits + 7) / 8 > MAX_FRAME then TooLong else Fate(old(chain), (bits + 7) / 8)
      ensures out == Received ==> Holds(chain, old(chain), words, (bits + 7) / 8) && rx == more
      ensures out == Received && (bits + 7) / 8 == |Flat(chain)| ==> qLeft == 0
      ensures out == NoRoom || out == TooLong ==> qLeft == 0
    {
      hide Holds, Fate, Flat, AsWords, Filling;
      var head := GetRx();
      var n := (head.n + 7) / 8;
      assert |words| == (n + 3) / 4;
      if n > MAX_FRAME {
        return TooLong;
      }
      ghost var was := chain;
      var left, q, pos, byteId, word: bv32 := n, 0, 0, 0, *;  // q counts the buffers begun
      FillStart(was, words, n, word);
      while left > 0
        invariant 0 <= left <= n && 0 <= q <= |chain| && 0 <= pos && byteId == (n - left) % 4
        invariant Filling(chain, was, words, n, left, q, pos, qLeft, word)
        invariant rx == AsWords(words)[(n - left + 3) / 4..] + more
        decreases left
      {
        if qLeft == 0 {
          FillOpen(chain, was, words, n, left, q, pos, word);
          if q == |chain| {
            Drain(left);
            return NoRoom;
          }
          qLeft := |chain[q]|;
          pos := 0;
          q := q + 1;
          if qLeft == 0 {
            return Overrun;
          }
        }
        word := PutOne(q, pos, byteId, word, words, more, was, n, left);
        FillRange(chain, was, words, n, left - 1, q, pos + 1, qLeft, word);
        byteId := (byteId + 1) % 4;
        left := left - 1;
        pos := pos + 1;
      }
      FillDone(chain, was, words, n, q, pos, qLeft, word);
      out := Received;
    }
  }

  lemma FillRange(ss: seq<seq<bv8>>, was: seq<seq<bv8>>, words: seq<bv32>, n: int, left: int, q: int, pos: int,
                  room: int, word: bv32)
    requires Filling(ss, was, words, n, left, q, pos, room, word)
    ensures q <= |ss|
  {
  }

  /** What was sent in any fragments is what is received in any buffers of the same total length. */
  lemma RoundTrip(bytes: seq<bv8>, words: seq<bv32>, was: seq<seq<bv8>>, ss: seq<seq<bv8>>)
    requires Carries(words, bytes) && Holds(ss, was, words, |bytes|) && |Flat(was)| == |bytes|
    ensures Flat(ss) == bytes
  {
    hide ByteOf;
    forall j | 0 <= j < |bytes| ensures Flat(ss)[j] == bytes[j] {
      assert ByteOf(words[j / 4], j % 4) == bytes[j];
    }
  }

  /** One frame over the wire. */
  method Transfer(from: Controller, to: Controller, frags: seq<seq<bv8>>) returns (out: Outcome)
    requires from != to && from.tx == [] && to.qLeft == 0 && |Flat(to.chain)| == |Flat(frags)| <= MAX_FRAME
    modifies from, to
    ensures out == Fate(old(to.chain), |Flat(frags)|)
    ensures out == Received ==> Flat(to.chain) == Flat(frags) && to.rx == [] && to.qLeft == 0
    ensures (forall q :: 0 <= q < |old(to.chain)| && old(to.chain)[q] == [] ==>
               |Flat(frags)| <= Before(old(to.chain), q)) ==> out == Received
  {
    hide Carries, Holds, Fate, Flat, Before;
    ghost var words := from.Send(frags);
    to.rx := from.tx;
    CarriesCount(words, Flat(frags));
    FateIff(to.chain, |Flat(frags)|);
    ghost var was := to.chain;
    out := to.Receive(8 * |Flat(frags)|, words, []);
    if out == Received {
      RoundTrip(Flat(frags), words, was, to.chain);
    }
  }

  lemma CarriesCount(words: seq<bv32>, bs: seq<bv8>)
    requires Carries(words, bs)
    ensures |words| == (8 * |bs| + 31) / 32
  {
  }
}
