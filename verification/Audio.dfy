/** The audio ring: filled by the main loop, emptied by the interrupt handler into the converter's FIFO. */
module Audio {

  /** The shared variables as a value. */
  datatype Ring = Ring(buf: seq<int>, play: nat, fill: nat) {
    predicate Valid() { play < |buf| && fill < |buf| }

    /** The samples waiting, oldest first. */
    function Pending(): seq<int>
      requires Valid()
    {
      if fill >= play then buf[play..fill] else buf[play..] + buf[..fill]
    }

    /** audiodac0_samples_filled and audiodac0_samples_available. */
    function Filled(): (n: nat)
      requires Valid()
      ensures n == |Pending()| && n < |buf|
    {
      if fill >= play then fill - play else |buf| - play + fill
    }

    function Available(): nat
      requires Valid()
    {
      |buf| - Filled() - 1
    }
  }

  /** Pointers wrap at the end of the ring. */
  function Wrap(i: nat, n: nat): (r: nat)
    requires n > 0
    ensures r < n
  {
    i % n
  }

  lemma WrapIs(i: nat, n: nat)
    requires i < 2 * n
    ensures Wrap(i, n) == if i < n then i else i - n
  {
  }

  function Least(a: int, b: int): int { if a < b then a else b }

  /** data written over buf from at on. */
  function Over(buf: seq<int>, at: nat, data: seq<int>): (r: seq<int>)
    requires at + |data| <= |buf|
    ensures |r| == |buf|
  {
    buf[..at] + data + buf[at + |data|..]
  }

  /** audiodac0_submit_buffer: the ring afterwards, and how many samples it has taken. */
  function Submitted(r: Ring, audio: seq<int>): (s: (Ring, nat))
    requires r.Valid()
    ensures s.0.Valid() && s.1 <= |audio| && |s.0.buf| == |r.buf| && s.0.play == r.play
  {
    if r.fill == r.play - 1 then (r, 0)
    else if r.fill >= r.play then
      var low := Least(|audio|, |r.buf| - r.fill);
      var high := Least(|audio| - low, r.play);
      var b := Over(r.buf, r.fill, audio[..low]);
      if high > 0 then (Ring(Over(b, 0, audio[low..low + high]), r.play, high), low + high)
      else (Ring(b, r.play, Wrap(r.fill + low, |r.buf|)), low)
    else
      var low := Least(|audio|, r.play - r.fill - 1);
      (Ring(Over(r.buf, r.fill, audio[..low]), r.play, r.fill + low), low)
  }

  /** The samples taken are appended to those waiting, in order, exactly when the write pointer is behind the read
      pointer or no more is passed than is available. Otherwise the ring is filled up to the read pointer, and a
      full ring looks like an empty one: everything waiting is lost. */
  lemma SubmitIff(r: Ring, audio: seq<int>)
    requires r.Valid()
    ensures var (s, n) := Submitted(r, audio);
            s.Pending() == r.Pending() + audio[..n] <==> r.fill < r.play || |audio| <= r.Available()
    ensures r.fill < r.play || |audio| <= r.Available() ==> Submitted(r, audio).1 == Least(|audio|, r.Available())
    ensures r.fill >= r.play && |audio| > r.Available() ==>
              Submitted(r, audio).0.Pending() == [] && Submitted(r, audio).1 == |r.buf| - r.Filled() > 0
  {
    var (s, n) := Submitted(r, audio);
    if r.fill == r.play - 1 {
      assert audio[..0] == [];
    } else if r.fill >= r.play {
      SubmitHigh(r, audio);
    } else {
      SubmitLow(r, audio);
    }
  }

  lemma SubmitLow(r: Ring, audio: seq<int>)
    requires r.Valid() && r.fill < r.play - 1
    ensures var (s, n) := Submitted(r, audio);
            s.Pending() == r.Pending() + audio[..n] && n == Least(|audio|, r.Available())
  {
    var (s, n) := Submitted(r, audio);
    assert s.buf[r.play..] == r.buf[r.play..];
    assert s.buf[..s.fill] == r.buf[..r.fill] + audio[..n];
  }

  lemma SubmitHigh(r: Ring, audio: seq<int>)
    requires r.Valid() && r.fill >= r.play
    ensures var (s, n) := Submitted(r, audio);
            if |audio| <= r.Available() then s.Pending() == r.Pending() + audio[..n] && n == |audio|
            else s.Pending() == [] && n == |r.buf| - r.Filled()
  {
    hide Wrap;
    var (s, n) := Submitted(r, audio);
    var room := |r.buf| - r.fill;
    WrapIs(r.fill + Least(|audio|, room), |r.buf|);
    if |audio| < room {
      assert s.buf[r.play..s.fill] == r.buf[r.play..r.fill] + audio[..n];
    } else if |audio| <= r.Available() {
      SubmitWraps(r, audio);
    }
  }

  /** Two stretches laid over the ring, up to its end and from its start. */
  lemma OverTwice(buf: seq<int>, at: nat, a: seq<int>, b: seq<int>, play: nat)
    requires at + |a| == |buf| && |b| <= play <= at
    ensures var c := Over(Over(buf, at, a), 0, b); c[play..] == buf[play..at] + a && c[..|b|] == b
  {
  }

  lemma SubmitWraps(r: Ring, audio: seq<int>)
    requires r.Valid() && r.fill >= r.play && |r.buf| - r.fill <= |audio| <= r.Available()
    ensures var (s, n) := Submitted(r, audio); s.Pending() == r.Pending() + audio[..n] && n == |audio|
  {
    hide Wrap, Over;
    var (s, n) := Submitted(r, audio);
    var room := |r.buf| - r.fill;
    var a, b := audio[..room], audio[room..];
    WrapIs(|r.buf|, |r.buf|);
    OverTwice(r.buf, r.fill, a, b, r.play);
    OverNothing(Over(r.buf, r.fill, a));
    assert a + b == audio == audio[..n];
    assert |b| > 0 ==> audio[room..room + |b|] == b;
    assert s.Pending() == (r.buf[r.play..r.fill] + a) + b;
  }

  lemma OverNothing(buf: seq<int>)
    ensures Over(buf, 0, []) == buf
  {
  }

  /** Reading n samples: they are the n oldest, and no others are lost. */
  lemma Advance(r: Ring, n: nat)
    requires r.Valid() && n <= |r.Pending()|
    ensures var s := r.(play := Wrap(r.play + n, |r.buf|));
            s.Valid() && s.Pending() == r.Pending()[n..] && s.Available() == r.Available() + n
  {
    hide Wrap;
    WrapIs(r.play + n, |r.buf|);
    var s := r.(play := Wrap(r.play + n, |r.buf|));
    assert s.Pending() == r.Pending()[n..];
  }

  /** a samples from the read pointer on, and, when that reaches the end of the ring, b from its start. */
  lemma PendingParts(r: Ring, a: nat, b: nat)
    requires r.Valid() && r.fill != r.play
    requires a <= (if r.fill > r.play then r.fill else |r.buf|) - r.play
    requires (b > 0 ==> r.fill < r.play && a == |r.buf| - r.play && b <= r.fill)
    ensures a + b <= |r.Pending()| && r.buf[r.play..r.play + a] + r.buf[0..b] == r.Pending()[..a + b]
    ensures b == 0 ==> r.buf[r.play..r.play + a] == r.Pending()[..a]
  {
    if r.fill > r.play {
      assert b == 0 && r.buf[0..0] == [];
      assert r.buf[r.play..r.play + a] == r.Pending()[..a];
      assert r.buf[r.play..r.play + a] + [] == r.buf[r.play..r.play + a];
    } else {
      var p := r.Pending();
      assert r.buf[r.play..r.play + a] == p[..a];
      if b > 0 {
        assert r.buf[0..b] == p[a..a + b];
      }
    }
  }

  lemma FullMeans(r: Ring)
    requires r.Valid() && r.fill == r.play - 1
    ensures r.Available() == 0
  {
  }

  // ---------------------------------------------------------------- the driver

  /** What goes to the converter: samples of the ring, or a filler when there are none. */
  datatype Out = Sample(v: int) | Filler

  function Samples(vs: seq<int>): (os: seq<Out>)
    ensures |os| == |vs|
  {
    if vs == [] then [] else [Sample(vs[0])] + Samples(vs[1..])
  }

  function Value(o: Out): seq<int> { if o.Sample? then [o.v] else [] }

  function FromRing(os: seq<Out>): seq<int> {
    if os == [] then [] else Value(os[0]) + FromRing(os[1..])
  }

  lemma {:induction false} FromRingBoth(a: seq<Out>, b: seq<Out>)
    ensures FromRing(a + b) == FromRing(a) + FromRing(b)
  {
    if a == [] {
      assert a + b == b;
    } else {
      hide Value;
      assert (a + b)[1..] == a[1..] + b;
      FromRingBoth(a[1..], b);
      assert Value(a[0]) + (FromRing(a[1..]) + FromRing(b)) == Value(a[0]) + FromRing(a[1..]) + FromRing(b);
    }
  }

  lemma {:induction false} FromSamples(vs: seq<int>)
    ensures FromRing(Samples(vs)) == vs
  {
    if vs != [] {
      FromSamples(vs[1..]);
      assert Samples(vs)[1..] == Samples(vs[1..]);
    }
  }

  lemma SamplesPart(vs: seq<int>, n: nat)
    requires n <= |vs|
    ensures Samples(vs)[..n] == Samples(vs[..n])
  {
    SamplesBoth(vs[..n], vs[n..]);
    assert vs[..n] + vs[n..] == vs;
  }

  lemma {:induction false} SamplesBoth(a: seq<int>, b: seq<int>)
    ensures Samples(a + b) == Samples(a) + Samples(b)
  {
    if a == [] {
      assert a + b == b;
    } else {
      assert (a + b)[1..] == a[1..] + b;
      SamplesBoth(a[1..], b);
    }
  }

  function Fillers(n: nat): seq<Out> { seq(n, _ => Filler) }

  lemma {:induction false} FromFillers(n: nat)
    ensures FromRing(Fillers(n)) == []
  {
    if n > 0 {
      FromFillers(n - 1);
      assert Fillers(n)[1..] == Fillers(n - 1);
    }
  }

  lemma NothingSent(os: seq<Out>)
    ensures os == os + Samples([]) == os + Fillers(0)
  {
  }

  lemma PendingCount(r: Ring)
    requires r.Valid()
    ensures |r.Pending()| == if r.fill >= r.play then r.fill - r.play else |r.buf| - r.play + r.fill
  {
  }

  lemma PendingNone(r: Ring)
    requires r.Valid()
    ensures r.Pending() == [] <==> r.fill == r.play
  {
  }

  class Player {
    const ring: array<int>
    var play: nat
    var fill: nat
    var dac: seq<Out>             // everything sent to the converter
    var room: nat                 // free slots of the converter's FIFO; a sample takes three
    ghost var accepted: seq<int>  // everything taken by submits that kept to what was available

    ghost function Now(): Ring
      reads this, ring
    {
      Ring(ring[..], play, fill)
    }

    /** First in, first out: sent so far, then waiting, makes up all that was submitted, in order. */
    ghost predicate Valid()
      reads this, ring
    {
      Now().Valid() && FromRing(dac) + Now().Pending() == accepted
    }

    /** audiodac0_start_playback. */
    constructor (ring: array<int>)
      requires ring.Length >= 10
      ensures Valid() && this.ring == ring && Now().Pending() == [] && accepted == []
    {
      this.ring := ring;
      play, fill, dac, room, accepted := 0, 0, [], 0, [];
    }

    /** audiodac_get_tx_avail: the converter may have taken something out of its FIFO meanwhile. */
    method Avail() returns (avail: nat)
      modifies this`room
      ensures avail == room >= old(room)
    {
      var drained: int := *;
      if drained > 0 {
        room := room + drained;
      }
      avail := room;
    }

    /** One sample into the FIFO, which must have room for it. */
    method Put(o: Out)
      requires room >= 3
      modifies this`dac, this`room
      ensures dac == old(dac) + [o] && room == old(room) - 3
    {
      dac, room := dac + [o], room - 3;
    }

    /** audiodac_xmit: as many as the FIFO has room for while it lasts, in order; the FIFO drains meanwhile. It stops
        short only when there is no room for another one. */
    method Xmit(data: seq<Out>) returns (sent: nat)
      modifies this`dac, this`room
      ensures sent <= |data| && dac == old(dac) + data[..sent]
      ensures sent < |data| ==> room < 3
      ensures old(room) <= room + 3 * sent
    {
      sent := 0;
      while sent < |data|
        invariant sent <= |data| && dac == old(dac) + data[..sent] && old(room) <= room + 3 * sent
      {
        var avail := Avail();
        if avail < 3 {
          break;
        }
        ghost var start := sent;
        var i := 0;
        while i < Least(avail / 3, |data| - sent)
          invariant i >= 0 && sent == start + i <= |data| && dac == old(dac) + data[..sent]
          invariant room + 3 * i == avail && old(room) <= room + 3 * sent
          decreases |data| - sent
        {
          assert data[..sent + 1] == data[..sent] + [data[sent]];
          Put(data[sent]);
          sent := sent + 1;
          i := i + 1;
        }
      }
    }

    /** audiodac_xmit of a stretch of the ring. */
    method XmitRing(from: nat, len: nat) returns (sent: nat)
      requires from + len <= ring.Length
      modifies this`dac, this`room
      ensures sent <= len && dac == old(dac) + Samples(ring[from..from + sent])
      ensures sent < len ==> room < 3
      ensures old(room) <= room + 3 * sent
    {
      var vs := ring[from..from + len];
      sent := Xmit(Samples(vs));
      SamplesPart(vs, sent);
      assert vs[..sent] == ring[from..from + sent];
    }

    /** The middle of audiodac0_isr: from the read pointer to the write pointer, or to the end of the ring and on.
        Everything goes out that there is room for. */
    method SendWaiting(space: int) returns (sent: nat)
      requires Now().Valid() && fill != play && 1 <= space <= room / 3
      modifies this`dac, this`room
      ensures sent == Least(space, |Now().Pending()|) && dac == old(dac) + Samples(Now().Pending()[..sent])
    {
      hide Ring.Pending, Samples;
      ghost var r := Now();
      PendingCount(r);
      if fill > play {
        sent := XmitRing(play, Least(space, fill - play));
        PendingParts(r, sent, 0);
      } else {
        var want := Least(space, ring.Length - play);
        sent := XmitRing(play, want);
        PendingParts(r, sent, 0);
        if sent == want && space - sent > 0 && fill > 0 {
          sent := SendRest(space, sent, old(dac));
        }
      }
    }

    /** The second part, from the start of the ring. */
    method SendRest(space: int, first: nat, ghost before: seq<Out>) returns (sent: nat)
      requires Now().Valid() && 0 < fill < play && first == ring.Length - play && first < space <= first + room / 3
      requires dac == before + Samples(ring[play..play + first])
      modifies this`dac, this`room
      ensures sent == Least(space, |Now().Pending()|) && dac == before + Samples(Now().Pending()[..sent])
    {
      hide Ring.Pending, Samples;
      ghost var r := Now();
      PendingCount(r);
      var more := XmitRing(0, Least(space - first, fill));
      PendingParts(r, first, more);
      SamplesBoth(r.buf[play..play + first], r.buf[0..more]);
      sent := first + more;
    }

    /** The read pointer moves over what has been sent. */
    method Pass(sent: nat)
      requires Now().Valid() && sent <= |Now().Pending()|
      modifies this`play
      ensures Now().Valid() && Now().Pending() == old(Now().Pending())[sent..]
      ensures Now().Available() == old(Now().Available()) + sent
    {
      hide Wrap;
      Advance(Now(), sent);
      play := Wrap(play + sent, ring.Length);
    }

    /** audiodac0_isr: sends what is waiting, as much as the FIFO takes, or fillers when nothing is. */
    method Isr() returns (sent: nat)
      requires Valid()
      modifies this`play, this`dac, this`room
      ensures Valid() && Least(old(room) / 3, |old(Now().Pending())|) <= sent <= |old(Now().Pending())|
      ensures old(Now().Pending()) != [] ==> dac == old(dac) + Samples(old(Now().Pending())[..sent])
      ensures old(Now().Pending()) == [] ==>
                && |dac| >= |old(dac)| && Least(old(room) / 3, 128) <= |dac| - |old(dac)| <= 128
                && dac == old(dac) + Fillers(|dac| - |old(dac)|)
      ensures Now().Pending() == old(Now().Pending())[sent..] && old(dac) <= dac
      ensures Now().Available() == old(Now().Available()) + sent
    {
      hide Ring.Pending, FromRing, Samples;
      sent := 0;
      ghost var waiting := Now().Pending();
      assert waiting[..0] == [] && waiting[0..] == waiting;
      NothingSent(dac);
      PendingNone(Now());
      var avail := Avail();
      var space := avail / 3;
      if space < 1 {
        assert dac == old(dac) + Fillers(0);
        return;
      }
      if fill == play {
        var n: nat := Least(space, 128);
        var m := Xmit(Fillers(n));
        assert Fillers(n)[..m] == Fillers(m);
        FromFillers(m);
        FromRingBoth(old(dac), Fillers(m));
        assert m == n && dac == old(dac) + Fillers(m);
        return;
      }
      sent := SendWaiting(space);
      FromSamples(waiting[..sent]);
      FromRingBoth(old(dac), Samples(waiting[..sent]));
      Pass(sent);
      assert waiting == waiting[..sent] + waiting[sent..];
      assert FromRing(old(dac)) + waiting == FromRing(old(dac)) + waiting[..sent] + waiting[sent..];
    }

    /** memcpy into the ring. */
    method Copy(at: nat, data: seq<int>)
      requires at + |data| <= ring.Length
      modifies ring
      ensures ring[..] == Over(old(ring[..]), at, data)
    {
      for i := 0 to |data|
        invariant ring[..] == Over(old(ring[..]), at, data[..i])
      {
        ring[at + i] := data[i];
        assert ring[..] == Over(old(ring[..]), at, data[..i + 1]);
      }
      assert data[..|data|] == data;
    }

    /** The copying part of audiodac0_submit_buffer, with interrupts off. */
    method Store(audio: seq<int>) returns (processed: nat)
      requires Now().Valid() && fill != play - 1
      modifies ring, this`fill
      ensures (Now(), processed) == Submitted(old(Now()), audio)
    {
      hide Wrap;
      if fill >= play {
        var low := Least(|audio|, ring.Length - fill);
        var high := |audio| - low;
        Copy(fill, audio[..low]);
        fill := Wrap(fill + low, ring.Length);
        processed := low;
        high := Least(high, play);
        if high != 0 {
          Copy(0, audio[low..low + high]);
          fill := high;
          processed := processed + high;
        }
      } else {
        var low := Least(|audio|, play - fill - 1);
        Copy(fill, audio[..low]);
        fill := fill + low;
        processed := low;
      }
    }

    /** audiodac0_submit_buffer. Called from the main loop, the handler may run between the first test and the moment
        interrupts are off; it is run at the end when the FIFO has gone empty. */
    method Submit(audio: seq<int>, fromIsr: bool) returns (processed: nat)
      requires Valid() && (|audio| <= Now().Available() || (fromIsr && fill < play))
      modifies this, ring
      ensures Valid() && processed <= |audio| && accepted == old(accepted) + audio[..processed] && old(dac) <= dac
      ensures processed == Least(|audio|, old(Now().Available()))
    {
      hide Ring.Pending, FromRing, Submitted, Samples, Fillers;
      if fill == play - 1 {
        assert audio[..0] == [];
        FullMeans(Now());
        return 0;
      }
      var interrupted: bool := *;
      if interrupted && !fromIsr {
        var _ := Isr();
      }
      SubmitIff(Now(), audio);
      assert fill != play - 1 by {
        if fill == play - 1 { FullMeans(Now()); }
      }
      ghost var waiting := Now().Pending();
      processed := Store(audio);
      assert FromRing(dac) + (waiting + audio[..processed]) == FromRing(dac) + waiting + audio[..processed];
      accepted := accepted + audio[..processed];
      var empty: bool := *;
      if empty {
        var _ := Isr();
      }
    }
  }
}
