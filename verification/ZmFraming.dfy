/** ZMODEM framing: escape coding of bytes, and data subpackets with their check sequence. */
module ZmFraming {
  import opened ZmCrc

  const ZDLE: bv8 := 0x18
  const CAN: bv8 := 0x18
  const XON: bv8 := 0x11
  const ZCRCW: bv8 := 0x6b
  const ZRUB0: bv8 := 0x6c
  const ZRUB1: bv8 := 0x6d

  /** The codes the receiving functions return. */
  const ERROR := -1
  const TIMEOUT := -2
  const ZCAN := 16
  const GOTOR := 0x100

  /** XON and XOFF, with either parity. */
  predicate Flow(c: bv8) { c == 0x11 || c == 0x91 || c == 0x13 || c == 0x93 }

  predicate Control(c: bv8) { c & 0x60 == 0 }

  predicate IsEnd(e: bv8) { e == 0x68 || e == 0x69 || e == 0x6a || e == 0x6b }

  // ---------------------------------------------------------------- sending a byte

  /** Bytes that are never sent as they are. A CR is one after an '@', or when all control characters are. */
  predicate Escaped(ctl: bool, last: bv8, c: bv8) {
    || c == ZDLE || c == 0x10 || c == 0x90 || Flow(c)
    || ((c == 0x0d || c == 0x8d) && (ctl || last & 0x7f == 0x40))
    || (ctl && Control(c))
  }

  function Esc(ctl: bool, last: bv8, c: bv8): (s: seq<bv8>)
    ensures s != []
  {
    if Escaped(ctl, last, c) then [ZDLE, c ^ 0x40] else [c]
  }

  function Last(s: seq<bv8>): bv8
    requires s != []
  {
    s[|s| - 1]
  }

  /** What is on the line after sending data, when last was sent before. */
  function EscAll(ctl: bool, last: bv8, data: seq<bv8>): seq<bv8>
    decreases |data|
  {
    if data == [] then [] else Esc(ctl, last, data[0]) + EscAll(ctl, Last(Esc(ctl, last, data[0])), data[1..])
  }

  function LastAfter(ctl: bool, last: bv8, data: seq<bv8>): bv8
    decreases |data|
  {
    if data == [] then last else LastAfter(ctl, Last(Esc(ctl, last, data[0])), data[1..])
  }

  lemma {:induction false} EscAllSnoc(ctl: bool, last: bv8, data: seq<bv8>, c: bv8)
    ensures EscAll(ctl, last, data + [c]) == EscAll(ctl, last, data) + Esc(ctl, LastAfter(ctl, last, data), c)
    ensures LastAfter(ctl, last, data + [c]) == Last(Esc(ctl, LastAfter(ctl, last, data), c))
    decreases |data|
  {
    hide Esc;
    if data == [] {
      assert [c][1..] == [];
    } else {
      EscAllSnoc(ctl, Last(Esc(ctl, last, data[0])), data[1..], c);
      assert (data + [c])[1..] == data[1..] + [c];
    }
  }

  // ---------------------------------------------------------------- receiving a byte

  /** What zdlread returns: a byte, a frame end, a cancel sequence, a bad escape, or nothing in time. */
  datatype Got = Byte(b: bv8) | End(e: bv8) | Cancel | Bad | Silence

  datatype Taken = Taken(got: Got, rest: seq<bv8>)

  predicate Dropped(ctl: bool, c: bv8) { Flow(c) || (ctl && Control(c)) }

  /** zdlread on the bytes s that are still to come; silence is their end. */
  function Take(ctl: bool, s: seq<bv8>): (t: Taken)
    ensures |t.rest| <= |s| && (!t.got.Silence? ==> |t.rest| < |s|)
  {
    if s == [] then Taken(Silence, [])
    else if s[0] == ZDLE then TakeEsc(ctl, s[1..])
    else if Dropped(ctl, s[0]) then Take(ctl, s[1..])
    else Taken(Byte(s[0]), s[1..])
  }

  /** How many of the first n bytes are CAN. */
  function Cans(s: seq<bv8>, n: nat): (k: nat)
    ensures k <= |s| && k <= n
  {
    if n == 0 || s == [] || s[0] != CAN then 0 else 1 + Cans(s[1..], n - 1)
  }

  /** Behind a ZDLE. Up to three CANs are read over; a fourth cancels. */
  function TakeEsc(ctl: bool, s: seq<bv8>): (t: Taken)
    ensures |t.rest| <= |s| && (!t.got.Silence? ==> |t.rest| < |s|)
    decreases |s|
  {
    var k := Cans(s, 3);
    if k >= |s| then Taken(Silence, [])
    else
      var c, rest := s[k], s[k + 1..];
      if c == CAN then Taken(Cancel, rest)
      else if IsEnd(c) then Taken(End(c), rest)
      else if c == ZRUB0 then Taken(Byte(0x7f), rest)
      else if c == ZRUB1 then Taken(Byte(0xff), rest)
      else if Dropped(ctl, c) then TakeEsc(ctl, rest)
      else if c & 0x60 == 0x40 then Taken(Byte(c ^ 0x40), rest)
      else Taken(Bad, rest)
  }

  // ---------------------------------------------------------------- noise on the line

  /** What a receiver passes over between bytes. */
  predicate Ignored(ctl: bool, c: bv8) { c != ZDLE && Dropped(ctl, c) }

  /** The bytes of s that count. s is w with bytes that do not count inserted anywhere, just when Strip(s) == w. */
  function Strip(ctl: bool, s: seq<bv8>): seq<bv8> {
    if s == [] then [] else (if Ignored(ctl, s[0]) then [] else [s[0]]) + Strip(ctl, s[1..])
  }

  lemma {:induction false} TakePlain(ctl: bool, s: seq<bv8>, c: bv8, w: seq<bv8>)
    requires Strip(ctl, s) == [c] + w && c != ZDLE
    ensures Take(ctl, s).got == Byte(c) && Strip(ctl, Take(ctl, s).rest) == w
  {
    if Ignored(ctl, s[0]) {
      TakePlain(ctl, s[1..], c, w);
    } else {
      assert ([s[0]] + Strip(ctl, s[1..]))[1..] == ([c] + w)[1..];
      assert s[0] == ([c] + w)[0];
    }
  }

  /** The byte behind a ZDLE, when it is not another one: noise may come before it. */
  lemma {:induction false} TakeEscaped(ctl: bool, s: seq<bv8>, d: bv8, w: seq<bv8>)
    requires Strip(ctl, s) == [d] + w && d != CAN
    ensures Strip(ctl, TakeEsc(ctl, s).rest) == w
    ensures TakeEsc(ctl, s).got
         == if IsEnd(d) then End(d) else if d == ZRUB0 then Byte(0x7f) else if d == ZRUB1 then Byte(0xff)
            else if d & 0x60 == 0x40 then Byte(d ^ 0x40) else Bad
  {
    if Ignored(ctl, s[0]) {
      NoEndDropped(ctl, s[0]);
      TakeEscaped(ctl, s[1..], d, w);
    } else {
      assert ([s[0]] + Strip(ctl, s[1..]))[1..] == ([d] + w)[1..];
      assert s[0] == ([d] + w)[0];
    }
  }

  lemma NoEndDropped(ctl: bool, c: bv8)
    requires Dropped(ctl, c)
    ensures !IsEnd(c) && c != ZRUB0 && c != ZRUB1
  {
  }

  lemma EscapedByte(c: bv8)
    requires c == ZDLE || c == 0x10 || c == 0x90 || Flow(c) || c == 0x0d || c == 0x8d || Control(c)
    ensures c ^ 0x40 != CAN && !IsEnd(c ^ 0x40) && c ^ 0x40 != ZRUB0 && c ^ 0x40 != ZRUB1
    ensures (c ^ 0x40) & 0x60 == 0x40 && (c ^ 0x40) ^ 0x40 == c && !Flow(c ^ 0x40) && !Control(c ^ 0x40)
  {
  }

  lemma {:induction false} TakeZdle(ctl: bool, s: seq<bv8>, w: seq<bv8>)
    requires Strip(ctl, s) == [ZDLE] + w
    ensures exists r :: Strip(ctl, r) == w && Take(ctl, s) == TakeEsc(ctl, r)
  {
    if Ignored(ctl, s[0]) {
      TakeZdle(ctl, s[1..], w);
    } else {
      assert ([s[0]] + Strip(ctl, s[1..]))[1..] == ([ZDLE] + w)[1..];
      assert s[0] == ([ZDLE] + w)[0];
      assert Strip(ctl, s[1..]) == w && Take(ctl, s) == TakeEsc(ctl, s[1..]);
    }
  }

  /** A sent byte is received, whatever noise was inserted. */
  lemma TakeSent(ctl: bool, last: bv8, c: bv8, s: seq<bv8>, w: seq<bv8>)
    requires Strip(ctl, s) == Esc(ctl, last, c) + w
    ensures Take(ctl, s).got == Byte(c) && Strip(ctl, Take(ctl, s).rest) == w
  {
    if Escaped(ctl, last, c) {
      EscapedByte(c);
      assert Esc(ctl, last, c) + w == [ZDLE] + ([c ^ 0x40] + w);
      TakeZdle(ctl, s, [c ^ 0x40] + w);
      var r :| Strip(ctl, r) == [c ^ 0x40] + w && Take(ctl, s) == TakeEsc(ctl, r);
      TakeEscaped(ctl, r, c ^ 0x40, w);
    } else {
      TakePlain(ctl, s, c, w);
    }
  }

  lemma TakeEnd(ctl: bool, e: bv8, s: seq<bv8>, w: seq<bv8>)
    requires Strip(ctl, s) == [ZDLE, e] + w && IsEnd(e)
    ensures Take(ctl, s).got == End(e) && Strip(ctl, Take(ctl, s).rest) == w
  {
    assert [ZDLE, e] + w == [ZDLE] + ([e] + w);
    TakeZdle(ctl, s, [e] + w);
    var r :| Strip(ctl, r) == [e] + w && Take(ctl, s) == TakeEsc(ctl, r);
    TakeEscaped(ctl, r, e, w);
  }

  /** Nothing that is sent can be taken for noise. */
  lemma {:induction false} SentClean(ctl: bool, last: bv8, data: seq<bv8>)
    ensures forall i :: 0 <= i < |EscAll(ctl, last, data)| ==>
              !Flow(EscAll(ctl, last, data)[i]) && !Ignored(ctl, EscAll(ctl, last, data)[i])
    decreases |data|
  {
    if data != [] {
      var c := data[0];
      if Escaped(ctl, last, c) {
        EscapedByte(c);
      }
      SentClean(ctl, Last(Esc(ctl, last, c)), data[1..]);
    }
  }

  /** What lines in between must not see: flow control, DLE, a CR behind an '@', and control characters at all if the
      other side asks for that. */
  predicate Harmless(ctl: bool, before: bv8, c: bv8) {
    && !Flow(c) && c != 0x10 && c != 0x90 && !(c & 0x7f == 0x0d && before & 0x7f == 0x40)
    && (ctl && Control(c) ==> c == ZDLE)
  }

  lemma EscHarmless(ctl: bool, last: bv8, c: bv8)
    ensures var s := Esc(ctl, last, c);
      |s| <= 2 && Harmless(ctl, last, s[0]) && (|s| == 2 ==> Harmless(ctl, s[0], s[1]))
  {
    if Escaped(ctl, last, c) {
      EscapedByte(c);
      EscapedOnce(c);
    }
  }

  lemma EscapedOnce(c: bv8)
    requires c == ZDLE || c == 0x10 || c == 0x90 || Flow(c) || c == 0x0d || c == 0x8d || Control(c)
    ensures c ^ 0x40 != 0x10 && c ^ 0x40 != 0x90
  {
  }

  function Before(last: bv8, s: seq<bv8>, i: nat): bv8
    requires i < |s|
  {
    if i == 0 then last else s[i - 1]
  }

  predicate AllHarmless(ctl: bool, last: bv8, s: seq<bv8>) {
    forall i :: 0 <= i < |s| ==> Harmless(ctl, Before(last, s, i), s[i])
  }

  lemma HarmlessParts(ctl: bool, last: bv8, a: seq<bv8>, b: seq<bv8>)
    requires a != [] && AllHarmless(ctl, last, a) && AllHarmless(ctl, Last(a), b)
    ensures AllHarmless(ctl, last, a + b)
  {
    hide Harmless;
    var s := a + b;
    forall i | 0 <= i < |s| ensures Harmless(ctl, Before(last, s, i), s[i]) {
      if i < |a| {
        assert s[i] == a[i] && Before(last, s, i) == Before(last, a, i);
      } else {
        var j := i - |a|;
        assert s[i] == b[j] && Before(last, s, i) == Before(Last(a), b, j);
      }
    }
  }

  lemma {:induction false} SentHarmless(ctl: bool, last: bv8, data: seq<bv8>)
    ensures AllHarmless(ctl, last, EscAll(ctl, last, data))
    decreases |data|
  {
    hide Esc, Harmless;
    if data != [] {
      var first := Esc(ctl, last, data[0]);
      EscHarmless(ctl, last, data[0]);
      SentHarmless(ctl, Last(first), data[1..]);
      HarmlessParts(ctl, last, first, EscAll(ctl, Last(first), data[1..]));
    }
  }

  // ---------------------------------------------------------------- the check sequence

  datatype Width = W16 | W32

  /** The register both sides keep. */
  datatype Reg = R16(v: bv16) | R32(w: bv32)

  function Start(w: Width): Reg {
    match w
    case W16 => R16(0)
    case W32 => R32(0xffff_ffff)
  }

  function Upd(c: bv8, r: Reg): Reg {
    match r
    case R16(v) => R16(Upd16(c, v))
    case R32(v) => R32(Upd32(c, v))
  }

  function UpdAll(data: seq<bv8>, r: Reg): Reg {
    if data == [] then r else UpdAll(data[1..], Upd(data[0], r))
  }

  /** What the sender appends. */
  function Trailer(r: Reg): (t: seq<bv8>)
    ensures |t| == TrailerLen(r)
  {
    match r
    case R16(v) => var s := Upd16(0, Upd16(0, v)); [Hi(s), Lo(s)]
    case R32(v) => var s := Not(v); [Byte0(s), Byte1(s), Byte2(s), Byte3(s)]
  }

  function TrailerLen(r: Reg): nat { if r.R16? then 2 else 4 }

  /** What the receiver accepts. */
  predicate Good(r: Reg) { if r.R16? then r.v == 0 else r.w == RESIDUE }

  lemma UpdCons(c: bv8, data: seq<bv8>, r: Reg)
    ensures UpdAll([c] + data, r) == UpdAll(data, Upd(c, r))
  {
    assert ([c] + data)[1..] == data;
  }

  lemma Upd2(a: bv8, b: bv8, r: Reg)
    ensures UpdAll([a, b], r) == Upd(b, Upd(a, r))
  {
    hide Upd;
    UpdCons(a, [b], r);
    UpdCons(b, [], Upd(a, r));
    assert [a] + [b] == [a, b] && [b] + [] == [b];
  }

  /** The receiver accepts exactly the trailer that belongs to what it has received. */
  lemma GoodIff(t: seq<bv8>, r: Reg)
    requires |t| == TrailerLen(r)
    ensures Good(UpdAll(t, r)) <==> t == Trailer(r)
  {
    hide Upd16, Upd32, Not, Byte0, Byte1, Byte2, Byte3, Hi, Lo;
    if r.R16? {
      assert t == [t[0], t[1]];
      Upd2(t[0], t[1], r);
      Residue16Iff(r.v, t[0], t[1]);
    } else {
      assert t == [t[0]] + ([t[1]] + [t[2], t[3]]);
      UpdCons(t[0], [t[1]] + [t[2], t[3]], r);
      UpdCons(t[1], [t[2], t[3]], Upd(t[0], r));
      Upd2(t[2], t[3], Upd(t[1], Upd(t[0], r)));
      Residue32Iff(r.w, t[0], t[1], t[2], t[3]);
    }
  }

  // ---------------------------------------------------------------- subpackets

  /** zsdata: escaped data, the frame end, the escaped trailer. */
  function Subpacket(w: Width, ctl: bool, last: bv8, data: seq<bv8>, e: bv8): seq<bv8> {
    EscAll(ctl, last, data) + [ZDLE, e]
    + EscAll(ctl, LastAfter(ctl, last, data), Trailer(Upd(e, UpdAll(data, Start(w)))))
  }

  datatype Outcome = Data(e: bv8, bytes: seq<bv8>) | BadCheck | TooLong | Cancelled | TimedOut | BadEscape

  function CodeOf(o: Outcome): int {
    match o
    case Data(e, _) => GOTOR + e as int
    case Cancelled => ZCAN
    case TimedOut => TIMEOUT
    case _ => ERROR
  }

  datatype Received = Received(out: Outcome, stored: seq<bv8>, rest: seq<bv8>)

  /** The trailer read, or what came instead of one of its bytes. */
  datatype Checked = Done(reg: Reg, rest: seq<bv8>) | Broken(got: Got, reg: Reg, rest: seq<bv8>)

  function Check(ctl: bool, s: seq<bv8>, reg: Reg, n: nat): (c: Checked)
    ensures |c.rest| <= |s| && (c.Broken? ==> !c.got.Byte? && (!c.got.Silence? ==> |c.rest| < |s|))
    decreases n
  {
    if n == 0 then Done(reg, s)
    else
      var t := Take(ctl, s);
      if t.got.Byte? then Check(ctl, t.rest, Upd(t.got.b, reg), n - 1) else Broken(t.got, reg, t.rest)
  }

  /** zrdata and zrdat32, with got stored so far. The limit is noticed one byte late. */
  function Recv(ctl: bool, s: seq<bv8>, reg: Reg, got: seq<bv8>, limit: nat): Received
    decreases |s|
  {
    if |got| > limit then Received(TooLong, got, s)
    else
      var t := Take(ctl, s);
      if t.got.Byte? then Recv(ctl, t.rest, Upd(t.got.b, reg), got + [t.got.b], limit)
      else RecvSpecial(ctl, t.rest, t.got, reg, got)
  }

  /** The switch of zrdata. What breaks into a trailer is looked at as if it had come behind the data. */
  function RecvSpecial(ctl: bool, s: seq<bv8>, g: Got, reg: Reg, got: seq<bv8>): Received
    requires !g.Byte?
    decreases |s|, if g.End? then 1 else 0
  {
    match g
    case End(e) =>
      var c := Check(ctl, s, Upd(e, reg), TrailerLen(reg));
      if c.Broken? then RecvSpecial(ctl, c.rest, c.got, c.reg, got)
      else Received(if Good(c.reg) then Data(e, got) else BadCheck, got, c.rest)
    case Cancel => Received(Cancelled, got, s)
    case Silence => Received(TimedOut, got, s)
    case Bad => Received(BadEscape, got, s)
  }

  lemma {:induction false} CheckSent(ctl: bool, last: bv8, t: seq<bv8>, s: seq<bv8>, reg: Reg, w: seq<bv8>)
    requires Strip(ctl, s) == EscAll(ctl, last, t) + w
    ensures Check(ctl, s, reg, |t|).Done? && Check(ctl, s, reg, |t|).reg == UpdAll(t, reg)
    ensures Strip(ctl, Check(ctl, s, reg, |t|).rest) == w
    decreases |t|
  {
    hide Esc, Take, Upd, Strip;
    if t != [] {
      var first := Esc(ctl, last, t[0]);
      assert EscAll(ctl, last, t) + w == first + (EscAll(ctl, Last(first), t[1..]) + w);
      TakeSent(ctl, last, t[0], s, EscAll(ctl, Last(first), t[1..]) + w);
      CheckSent(ctl, Last(first), t[1..], Take(ctl, s).rest, Upd(t[0], reg), w);
    } else {
      assert EscAll(ctl, last, t) + w == w;
    }
  }

  lemma {:induction false} RecvSent(ctl: bool, last: bv8, data: seq<bv8>, e: bv8, s: seq<bv8>, reg: Reg, got: seq<bv8>,
                                    limit: nat, w: seq<bv8>)
    requires IsEnd(e) && |got| + |data| <= limit
    requires Strip(ctl, s) == EscAll(ctl, last, data) + [ZDLE, e]
                              + EscAll(ctl, LastAfter(ctl, last, data), Trailer(Upd(e, UpdAll(data, reg)))) + w
    ensures Recv(ctl, s, reg, got, limit).out == Data(e, got + data)
    ensures Strip(ctl, Recv(ctl, s, reg, got, limit).rest) == w
    decreases |data|
  {
    hide Esc, Take, Upd, Strip, Trailer, Good, TrailerLen;
    if data == [] {
      var last', t := LastAfter(ctl, last, data), Trailer(Upd(e, reg));
      LenSame(e, reg);
      GoodIff(t, Upd(e, reg));
      assert Strip(ctl, s) == [ZDLE, e] + (EscAll(ctl, last', t) + w);
      TakeEnd(ctl, e, s, EscAll(ctl, last', t) + w);
      CheckSent(ctl, last', t, Take(ctl, s).rest, Upd(e, reg), w);
      assert got + data == got;
    } else {
      var first := Esc(ctl, last, data[0]);
      var tail := EscAll(ctl, Last(first), data[1..]) + [ZDLE, e]
                  + EscAll(ctl, LastAfter(ctl, last, data), Trailer(Upd(e, UpdAll(data, reg)))) + w;
      assert Strip(ctl, s) == first + tail;
      TakeSent(ctl, last, data[0], s, tail);
      RecvSent(ctl, Last(first), data[1..], e, Take(ctl, s).rest, Upd(data[0], reg), got + [data[0]], limit, w);
      assert got + [data[0]] + data[1..] == got + data;
    }
  }

  lemma LenSame(e: bv8, reg: Reg)
    ensures TrailerLen(Upd(e, reg)) == TrailerLen(reg)
  {
  }

  /** The round trip: any block within the limit, both widths, both escape settings, with bytes that do not count
      inserted anywhere. */
  lemma RoundTrip(w: Width, ctl: bool, last: bv8, data: seq<bv8>, e: bv8, s: seq<bv8>, limit: nat, tail: seq<bv8>)
    requires IsEnd(e) && |data| <= limit && Strip(ctl, s) == Subpacket(w, ctl, last, data, e) + tail
    ensures Recv(ctl, s, Start(w), [], limit).out == Data(e, data)
    ensures Strip(ctl, Recv(ctl, s, Start(w), [], limit).rest) == tail
  {
    RecvSent(ctl, last, data, e, s, Start(w), [], limit, tail);
    assert [] + data == data;
  }

  /** A longer block is refused, after limit + 1 bytes of it have been stored. */
  lemma {:induction false} TooLongRefused(ctl: bool, last: bv8, data: seq<bv8>, s: seq<bv8>, reg: Reg, got: seq<bv8>,
                                          limit: nat, tail: seq<bv8>)
    requires |got| <= limit < |got| + |data| && Strip(ctl, s) == EscAll(ctl, last, data) + tail
    ensures Recv(ctl, s, reg, got, limit).out == TooLong
    ensures Recv(ctl, s, reg, got, limit).stored == got + data[..limit + 1 - |got|]
    decreases |data|
  {
    hide Esc, Take, Upd, Strip;
    var first := Esc(ctl, last, data[0]);
    assert EscAll(ctl, last, data) + tail == first + (EscAll(ctl, Last(first), data[1..]) + tail);
    TakeSent(ctl, last, data[0], s, EscAll(ctl, Last(first), data[1..]) + tail);
    if |got| < limit {
      TooLongRefused(ctl, Last(first), data[1..], Take(ctl, s).rest, Upd(data[0], reg), got + [data[0]], limit, tail);
      assert got + [data[0]] + data[1..][..limit - |got|] == got + data[..limit + 1 - |got|];
    } else {
      assert data[..1] == [data[0]];
    }
  }

  /** No byte of a subpacket can be taken for noise, so a noise-free line is one case of RoundTrip. */
  lemma SubpacketClean(w: Width, ctl: bool, last: bv8, data: seq<bv8>, e: bv8)
    requires IsEnd(e)
    ensures forall b :: b in Subpacket(w, ctl, last, data, e) ==> !Flow(b) && !Ignored(ctl, b)
    ensures Strip(ctl, Subpacket(w, ctl, last, data, e)) == Subpacket(w, ctl, last, data, e)
  {
    hide EscAll, Trailer, UpdAll, Flow, Dropped;
    SentClean(ctl, last, data);
    SentClean(ctl, LastAfter(ctl, last, data), Trailer(Upd(e, UpdAll(data, Start(w)))));
    MarksClean(ctl, e);
    StripClean(ctl, Subpacket(w, ctl, last, data, e));
  }

  lemma MarksClean(ctl: bool, e: bv8)
    requires IsEnd(e)
    ensures !Flow(ZDLE) && !Flow(e) && !Ignored(ctl, e)
  {
  }

  lemma {:induction false} StripClean(ctl: bool, s: seq<bv8>)
    requires forall b :: b in s ==> !Ignored(ctl, b)
    ensures Strip(ctl, s) == s
  {
    if s != [] {
      StripClean(ctl, s[1..]);
      assert s == [s[0]] + s[1..];
    }
  }

  // ---------------------------------------------------------------- header positions

  /** stohdr: the four bytes of a header, low byte first. */
  function Header(pos: bv32): (h: seq<bv8>)
    ensures |h| == 4
  {
    [Byte0(pos), Byte1(pos), Byte2(pos), Byte3(pos)]
  }

  function Joined(b0: bv8, b1: bv8, b2: bv8, b3: bv8): bv32 {
    ((((((b3 as bv32) << 8) | (b2 as bv32)) << 8) | (b1 as bv32)) << 8) | (b0 as bv32)
  }

  /** rclhdr. */
  function Position(h: seq<bv8>): bv32
    requires |h| == 4
  {
    Joined(h[0], h[1], h[2], h[3])
  }

  lemma JoinedBytes(pos: bv32, b0: bv8, b1: bv8, b2: bv8, b3: bv8)
    ensures Joined(Byte0(pos), Byte1(pos), Byte2(pos), Byte3(pos)) == pos
    ensures Byte0(Joined(b0, b1, b2, b3)) == b0 && Byte1(Joined(b0, b1, b2, b3)) == b1
    ensures Byte2(Joined(b0, b1, b2, b3)) == b2 && Byte3(Joined(b0, b1, b2, b3)) == b3
  {
  }

  /** A position survives its header, and every header is that of one position. */
  lemma HeaderRoundTrip(pos: bv32, h: seq<bv8>)
    requires |h| == 4
    ensures Position(Header(pos)) == pos && Header(Position(h)) == h
  {
    hide Byte0, Byte1, Byte2, Byte3, Joined;
    JoinedBytes(pos, h[0], h[1], h[2], h[3]);
  }
}
