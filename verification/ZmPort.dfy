/** The ZMODEM line: sending and receiving data subpackets byte by byte. */
module ZmPort {
  import opened ZmCrc
  import opened ZmFraming

  class Port {
    var rx: seq<bv8>      // what is still to come, up to the next silence
    var tx: seq<bv8>      // what has been sent
    var zctlesc: bool
    var crc32t: bool      // the sender's width
    var rx32: bool        // Rxframeind == ZBIN32
    var lastsent: bv8
    var rxcount: nat

    /** readline: a byte, or TIMEOUT. */
    method ReadLine() returns (ok: bool, c: bv8)
      modifies this`rx
      ensures ok <==> old(rx) != []
      ensures ok ==> c == old(rx)[0] && rx == old(rx)[1..]
      ensures !ok ==> rx == []
    {
      ok, c := rx != [], 0;
      if ok {
        c, rx := rx[0], rx[1..];
      }
    }

    method XSendLine(c: bv8)
      modifies this`tx
      ensures tx == old(tx) + [c]
    {
      tx := tx + [c];
    }

    /** zsendline. */
    method ZSendLine(b: bv8)
      modifies this`tx, this`lastsent
      ensures tx == old(tx) + Esc(zctlesc, old(lastsent), b)
      ensures lastsent == Last(Esc(zctlesc, old(lastsent), b))
    {
      var c := b;
      if c == ZDLE {
        XSendLine(ZDLE);
        c := c ^ 0x40;
      } else if c == 0x0d || c == 0x8d {
        if zctlesc || lastsent & 0x7f == 0x40 {
          XSendLine(ZDLE);
          c := c ^ 0x40;
        }
      } else if c == 0x10 || c == 0x11 || c == 0x13 || c == 0x90 || c == 0x91 || c == 0x93 {
        XSendLine(ZDLE);
        c := c ^ 0x40;
      } else if zctlesc && c & 0x60 == 0 {
        XSendLine(ZDLE);
        c := c ^ 0x40;
      }
      lastsent := c;
      XSendLine(c);
    }

    /** zdlread. */
    method ZdlRead() returns (g: Got)
      modifies this`rx
      ensures Taken(g, rx) == Take(zctlesc, old(rx))
    {
      var ok, c := ReadLine();
      while ok && c != ZDLE && Dropped(zctlesc, c)
        invariant Take(zctlesc, old(rx)) == if ok then Take(zctlesc, [c] + rx) else Taken(Silence, [])
        invariant !ok ==> rx == []
        decreases |rx|, ok
      {
        assert ([c] + rx)[1..] == rx;
        assert rx != [] ==> [rx[0]] + rx[1..] == rx;
        ok, c := ReadLine();
      }
      if !ok {
        return Silence;
      }
      assert ([c] + rx)[1..] == rx;
      if c != ZDLE {
        return Byte(c);
      }
      g := ReadEscape();
    }

    /** The next byte behind up to three CANs. */
    method SkipCans() returns (ok: bool, c: bv8)
      modifies this`rx
      ensures var s := old(rx); var k := Cans(s, 3);
              if k < |s| then ok && c == s[k] && rx == s[k + 1..] else !ok && rx == []
    {
      hide Cans;
      CansSteps(rx);
      ok, c := ReadLine();
      if ok && c == CAN {
        ok, c := ReadLine();
      }
      if ok && c == CAN {
        ok, c := ReadLine();
      }
      if ok && c == CAN {
        ok, c := ReadLine();
      }
    }

    /** zdlread from again2 on. */
    method ReadEscape() returns (g: Got)
      modifies this`rx
      ensures Taken(g, rx) == TakeEsc(zctlesc, old(rx))
    {
      hide Cans, Dropped;
      while true
        invariant TakeEsc(zctlesc, old(rx)) == TakeEsc(zctlesc, rx)
        decreases |rx|
      {
        var ok, c := SkipCans();
        if !ok {
          return Silence;
        }
        if c == CAN {
          return Cancel;
        }
        if IsEnd(c) {
          return End(c);
        }
        if c == ZRUB0 {
          return Byte(0x7f);
        }
        if c == ZRUB1 {
          return Byte(0xff);
        }
        if !Dropped(zctlesc, c) {
          return if c & 0x60 == 0x40 then Byte(c ^ 0x40) else Bad;
        }
      }
    }

    /** zsendline for each of the bytes. */
    method SendAll(data: seq<bv8>)
      modifies this`tx, this`lastsent
      ensures tx == old(tx) + EscAll(zctlesc, old(lastsent), data)
      ensures lastsent == LastAfter(zctlesc, old(lastsent), data)
    {
      hide Esc;
      for i := 0 to |data|
        invariant tx == old(tx) + EscAll(zctlesc, old(lastsent), data[..i])
        invariant lastsent == LastAfter(zctlesc, old(lastsent), data[..i])
      {
        EscAllSnoc(zctlesc, old(lastsent), data[..i], data[i]);
        ZSendLine(data[i]);
        assert data[..i + 1] == data[..i] + [data[i]];
      }
      assert data[..|data|] == data;
    }

    /** The loop of zsdata and zsda32: each byte is sent and goes into the register. */
    method SendData(data: seq<bv8>) returns (reg: Reg)
      modifies this`tx, this`lastsent
      ensures tx == old(tx) + EscAll(zctlesc, old(lastsent), data)
      ensures lastsent == LastAfter(zctlesc, old(lastsent), data)
      ensures reg == UpdAll(data, Start(WidthOf(crc32t)))
    {
      hide Esc, EscAll, LastAfter, Upd;
      reg := Start(WidthOf(crc32t));
      EscNone(zctlesc, lastsent);
      for i := 0 to |data|
        invariant tx == old(tx) + EscAll(zctlesc, old(lastsent), data[..i])
        invariant lastsent == LastAfter(zctlesc, old(lastsent), data[..i])
        invariant reg == UpdAll(data[..i], Start(WidthOf(crc32t)))
      {
        EscAllSnoc(zctlesc, old(lastsent), data[..i], data[i]);
        UpdAllSnoc(data[..i], data[i], Start(WidthOf(crc32t)));
        assert data[..i + 1] == data[..i] + [data[i]];
        ZSendLine(data[i]);
        reg := Upd(data[i], reg);
      }
      assert data[..|data|] == data;
    }

    /** zsdata and zsda32: the same up to the register and its trailer. */
    method ZsData(data: seq<bv8>, e: bv8)
      modifies this`tx, this`lastsent
      ensures tx == old(tx) + Subpacket(WidthOf(crc32t), zctlesc, old(lastsent), data, e)
                    + if e == ZCRCW then [XON] else []
    {
      hide Esc, Trailer, EscAll, LastAfter, Upd;
      var reg := SendData(data);
      XSendLine(ZDLE);
      XSendLine(e);
      reg := Upd(e, reg);
      SendAll(Trailer(reg));
      if e == ZCRCW {
        XSendLine(XON);
      }
    }

    /** The bytes of the trailer, one after the other; ok is false when something else broke in, and g is that. */
    method ReadTrailer(before: Reg) returns (ok: bool, g: Got, reg: Reg)
      modifies this`rx
      ensures match Check(zctlesc, old(rx), before, TrailerLen(before))
              case Done(r, rest) => ok && reg == r && rx == rest
              case Broken(b, r, rest) => !ok && g == b && reg == r && rx == rest
    {
      hide Upd, Take;
      ok, g, reg := true, Silence, before;
      var n := TrailerLen(before);
      while n > 0
        invariant n >= 0 && ok && Check(zctlesc, old(rx), before, TrailerLen(before)) == Check(zctlesc, rx, reg, n)
      {
        g := ZdlRead();
        if !g.Byte? {
          return false, g, reg;
        }
        reg := Upd(g.b, reg);
        n := n - 1;
      }
    }

    /** zrdata and zrdat32 from crcfoo on: a byte that was none ends the data, or the attempt. */
    method Finish(first: Got, before: Reg, ghost got: seq<bv8>) returns (code: int)
      requires !first.Byte?
      modifies this`rx
      ensures var r := RecvSpecial(zctlesc, old(rx), first, before, got);
              code == CodeOf(r.out) && rx == r.rest && (code >= GOTOR <==> r.out.Data?)
    {
      hide Upd, Take, Good, Check;
      var g, reg := first, before;
      while g.End?
        invariant !g.Byte?
        invariant RecvSpecial(zctlesc, old(rx), first, before, got) == RecvSpecial(zctlesc, rx, g, reg, got)
        decreases |rx|, g.End?
      {
        var e := g.e;
        LenSame(e, reg);
        reg := Upd(e, reg);
        var ok;
        ok, g, reg := ReadTrailer(reg);
        if ok {
          return if Good(reg) then GOTOR + e as int else ERROR;
        }
      }
      code := match g
        case Cancel => ZCAN
        case Silence => TIMEOUT
        case _ => ERROR;
    }

    /** zrdata and zrdat32: the same up to the register. buf has room for one byte more than length, which an
        overlong block uses. */
    method ZrData(buf: array<bv8>, length: nat) returns (code: int)
      requires buf.Length > length
      modifies this`rx, this`rxcount, buf
      ensures var r := Recv(zctlesc, old(rx), Start(WidthOf(rx32)), [], length);
              && code == CodeOf(r.out) && rx == r.rest && |r.stored| <= length + 1
              && buf[..|r.stored|] == r.stored && buf[|r.stored|..] == old(buf[..])[|r.stored|..]
              && (code >= GOTOR ==> rxcount <= length && r.out.Data? && r.out.bytes == buf[..rxcount])
    {
      hide Upd, Take, Good, Check, RecvSpecial;
      rxcount := 0;
      var reg, n: nat := Start(WidthOf(rx32)), 0;
      while n <= length
        invariant n <= length + 1 && rxcount == 0
        invariant Recv(zctlesc, old(rx), Start(WidthOf(rx32)), [], length) == Recv(zctlesc, rx, reg, buf[..n], length)
        invariant buf[n..] == old(buf[..])[n..]
      {
        var g := ZdlRead();
        if !g.Byte? {
          StoredSpecial(zctlesc, rx, g, reg, buf[..n]);
          code := Finish(g, reg, buf[..n]);
          if code >= GOTOR {
            rxcount := n;
          }
          return;
        }
        ghost var done, tail := buf[..n], buf[n..];
        buf[n] := g.b;
        assert buf[..n + 1] == done + [g.b];
        assert buf[n + 1..] == tail[1..] == old(buf[..])[n + 1..];
        reg := Upd(g.b, reg);
        n := n + 1;
      }
      code := ERROR;
    }
  }

  lemma {:induction false} StoredSpecial(ctl: bool, s: seq<bv8>, g: Got, reg: Reg, got: seq<bv8>)
    requires !g.Byte?
    ensures RecvSpecial(ctl, s, g, reg, got).stored == got
    ensures RecvSpecial(ctl, s, g, reg, got).out.Data? ==> RecvSpecial(ctl, s, g, reg, got).out.bytes == got
    decreases |s|, if g.End? then 1 else 0
  {
    hide Upd, Take, Good;
    if g.End? {
      var c := Check(ctl, s, Upd(g.e, reg), TrailerLen(reg));
      if c.Broken? {
        StoredSpecial(ctl, c.rest, c.got, c.reg, got);
      }
    }
  }

  lemma EscNone(ctl: bool, last: bv8)
    ensures EscAll(ctl, last, []) == [] && LastAfter(ctl, last, []) == last
  {
  }

  function WidthOf(crc32: bool): Width { if crc32 then W32 else W16 }

  lemma {:induction false} UpdAllSnoc(data: seq<bv8>, c: bv8, r: Reg)
    ensures UpdAll(data + [c], r) == Upd(c, UpdAll(data, r))
    decreases |data|
  {
    hide Upd;
    if data == [] {
      assert ([] + [c])[1..] == [];
    } else {
      assert (data + [c])[1..] == data[1..] + [c];
      UpdAllSnoc(data[1..], c, Upd(data[0], r));
    }
  }

  lemma CansSteps(s: seq<bv8>)
    ensures s == [] || s[0] != CAN ==> Cans(s, 3) == 0
    ensures |s| >= 1 && s[0] == CAN && (|s| == 1 || s[1] != CAN) ==> Cans(s, 3) == 1
    ensures |s| >= 2 && s[0] == CAN && s[1] == CAN && (|s| == 2 || s[2] != CAN) ==> Cans(s, 3) == 2
    ensures |s| >= 3 && s[0] == CAN && s[1] == CAN && s[2] == CAN ==> Cans(s, 3) == 3
  {
    if s != [] {
      CansStep(s, 2);
      if |s| > 1 {
        CansStep(s[1..], 1);
        if |s| > 2 {
          CansStep(s[2..], 0);
          assert s[1..][1..] == s[2..];
        }
      }
    }
  }

  lemma CansStep(s: seq<bv8>, n: nat)
    requires s != []
    ensures Cans(s, n + 1) == if s[0] == CAN then 1 + Cans(s[1..], n) else 0
  {
  }
}
