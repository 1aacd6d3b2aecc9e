/** The data stage of a USB control transfer: retries and data toggles against a lossy bus. */
module Usb {
  import opened Bytes

  const PACKET := 8
  const RETRIES := 8
  const ERR_SILENT := -6
  const ERR_OTHER := -8
  const ERR_DUPE := -9
  const ERR_CRC := -10
  const ERR_STALL := -12
  const ERR_NO_ANSWER := -4
  const OVERRUN := -100  // no code of the driver: it writes past the end of the buffer, and the model stops
  const ERR_NO_ACK := -5

  datatype Pid = DATA0 | DATA1 | OTHER

  /** The toggle of the k-th packet of a data stage: it begins with DATA1. */
  function PidOf(k: nat): Pid { if k % 2 == 0 then DATA1 else DATA0 }

  /** What the host finds after an IN token. A damaged packet fails its CRC16; a NAK has none and fails as well.
      The data registers always hold 8 bytes, of which a packet fills the first len. */
  datatype Reply = Silent | Stalled | Damaged | Good(pid: Pid, len: nat, data: seq<byte>)

  predicate Intact(r: Reply) { r.Good? ==> |r.data| == PACKET && r.len <= PACKET }

  /** A device with packets to send. It sends the current one, under the same toggle, until it sees an ACK for it. */
  class Device {
    const packets: seq<seq<byte>>
    var cur: nat
    var waiting: bool
    ghost var acks: nat    // how many the host has sent
    ghost var faults: nat  // tokens, packets and ACKs that were lost or damaged
    ghost var stalls: nat

    predicate Valid()
      reads this
    {
      cur <= |packets| && (waiting ==> cur < |packets|) && forall k :: 0 <= k < |packets| ==> |packets[k]| <= PACKET
    }

    constructor (packets: seq<seq<byte>>)
      requires forall k :: 0 <= k < |packets| ==> |packets[k]| <= PACKET
      ensures Valid() && this.packets == packets && cur == 0
    {
      this.packets := packets;
      cur, waiting, acks, faults, stalls := 0, false, 0, 0, 0;
    }

    /** An IN token and what comes of it: either may be lost, the packet may be damaged, the device may stall, be
        busy, or have nothing to send. */
    method In() returns (r: Reply)
      requires Valid()
      modifies this`waiting, this`faults, this`stalls
      ensures Valid() && Intact(r)
      ensures r.Good? && r.pid != OTHER ==>
                && waiting && r.pid == PidOf(cur)
                && r.len == |packets[cur]| && r.data[..r.len] == packets[cur]
      ensures r.Good? && r.pid == OTHER ==> !waiting
      ensures stalls == old(stalls) + if r.Stalled? then 1 else 0
      ensures faults == old(faults) || (faults == old(faults) + 1 && (r.Silent? || r.Damaged?))
      ensures cur < |packets| && !r.Stalled? && faults == old(faults) ==> r.Good? && r.pid != OTHER
    {
      var fate: int, filler: seq<byte> := *, *;
      waiting := false;
      if fate == 0 || |filler| != PACKET {
        faults := faults + 1;
        return Silent;
      } else if fate == 1 {
        stalls := stalls + 1;
        return Stalled;
      } else if cur == |packets| {
        return if fate == 2 then Good(OTHER, 0, filler) else Damaged;
      }
      waiting := true;
      if fate == 2 || fate == 3 {
        faults := faults + 1;
        return if fate == 2 then Damaged else Silent;
      }
      var p := packets[cur];
      r := Good(PidOf(cur), |p|, p + filler[|p|..]);
    }

    /** The host sends an ACK; the device sees it, or not. */
    method Ack()
      requires Valid()
      modifies this`cur, this`waiting, this`acks, this`faults
      ensures Valid()
      ensures acks == old(acks) + 1 && (cur == old(cur) || (old(waiting) && cur == old(cur) + 1))
      ensures faults == old(faults) + if old(waiting) && cur == old(cur) then 1 else 0
    {
      var seen: bool := *;
      if seen && waiting {
        cur := cur + 1;
      } else if waiting {
        faults := faults + 1;
      }
      waiting, acks := false, acks + 1;
    }
  }

  /** Bytes of the first n packets. */
  function Sum(ps: seq<seq<byte>>, n: nat): nat
    requires n <= |ps|
  {
    if n == 0 then 0 else Sum(ps, n - 1) + |ps[n - 1]|
  }

  function Joined(ps: seq<seq<byte>>, n: nat): seq<byte>
    requires n <= |ps|
  {
    if n == 0 then [] else Joined(ps, n - 1) + ps[n - 1]
  }

  function PacketCnt(size: nat): nat {
    if size % PACKET != 0 then size / PACKET + 1 else size / PACKET
  }

  /** Whole packets for size bytes fit into size bytes exactly when the last one is full. */
  lemma WholePackets(size: nat)
    ensures PACKET * PacketCnt(size) <= size <==> size % PACKET == 0
  {
  }

  function Expected(i: nat, size: nat): nat { if (i + 1) * PACKET <= size then PACKET else size % PACKET }

  /** The first n packets lie in the buffer, each at its place, and all but the last have the expected size. */
  predicate Stored(ps: seq<seq<byte>>, n: nat, buf: seq<byte>, size: nat) {
    && n <= |ps| && PACKET * n <= |buf|
    && (forall k :: 0 <= k < n ==> |ps[k]| <= PACKET && buf[PACKET * k..PACKET * k + |ps[k]|] == ps[k])
    && (forall k :: 0 <= k < n - 1 ==> |ps[k]| == Expected(k, size))
  }

  /** Packets of full size lie end to end. */
  lemma {:induction false} StoredJoined(ps: seq<seq<byte>>, n: nat, buf: seq<byte>, size: nat)
    requires Stored(ps, n, buf, size) && n <= PacketCnt(size)
    ensures n > 0 ==> Sum(ps, n) == PACKET * (n - 1) + |ps[n - 1]|
    ensures Sum(ps, n) <= |buf| && buf[..Sum(ps, n)] == Joined(ps, n)
    decreases n
  {
    if n > 0 {
      StoredJoined(ps, n - 1, buf, size);
      if n > 1 {
        assert |ps[n - 2]| == Expected(n - 2, size) == PACKET;
      }
      var s := PACKET * (n - 1);
      assert buf[..s + |ps[n - 1]|] == buf[..s] + buf[s..s + |ps[n - 1]|];
    }
  }

  lemma StoredStep(ps: seq<seq<byte>>, i: nat, was: seq<byte>, now: seq<byte>, size: nat)
    requires Stored(ps, i, was, size) && i < |ps| && |ps[i]| <= PACKET && PACKET * i + PACKET <= |now|
    requires now[..PACKET * i] == was[..PACKET * i] && now[PACKET * i..PACKET * i + |ps[i]|] == ps[i]
    requires i > 0 ==> |ps[i - 1]| == Expected(i - 1, size)
    ensures Stored(ps, i + 1, now, size)
  {
    forall k | 0 <= k < i ensures now[PACKET * k..PACKET * k + |ps[k]|] == ps[k] {
      assert now[PACKET * k..PACKET * k + |ps[k]|] == now[..PACKET * i][PACKET * k..PACKET * k + |ps[k]|];
      assert was[PACKET * k..PACKET * k + |ps[k]|] == was[..PACKET * i][PACKET * k..PACKET * k + |ps[k]|];
    }
  }

  /** What is gone from the buffer in place of packet i: those 8 bytes, of which the packet fills the first. */
  predicate Placed(was: seq<byte>, now: seq<byte>, i: nat, p: seq<byte>) {
    && |was| == |now| && PACKET * i + PACKET <= |now| && |p| <= PACKET
    && now[PACKET * i..PACKET * i + |p|] == p
    && now[..PACKET * i] == was[..PACKET * i] && now[PACKET * i + PACKET..] == was[PACKET * i + PACKET..]
  }

  lemma PlacedPart(was: seq<byte>, now: seq<byte>, i: nat, data: seq<byte>, n: nat)
    requires Placed(was, now, i, data) && |data| == PACKET && n <= PACKET
    ensures Placed(was, now, i, data[..n])
  {
    assert now[PACKET * i..PACKET * i + n] == now[PACKET * i..PACKET * i + PACKET][..n];
  }

  /** Outcomes of an attempt after which there is another one, as long as there are any left. */
  predicate Retried(err: int) { err in {ERR_SILENT, ERR_OTHER, ERR_DUPE, ERR_CRC} }

  class Host {
    const dev: Device
    var recv: Pid   // usb10_last_data_pid[..].recv

    constructor (dev: Device)
      requires dev.Valid() && dev.cur == 0
      ensures this.dev == dev && InSync(0)
    {
      this.dev := dev;
      recv := DATA0;
    }

    /** i packets are stored. The device is at the next one, or, when the last ACK was lost, still at the one before. */
    predicate InSync(i: nat)
      reads this, dev
    {
      && dev.Valid() && recv == (if i == 0 then DATA0 else PidOf(i - 1))
      && (dev.cur == i || (i > 0 && dev.cur == i - 1))
    }

    /** The device is one packet behind: the last ACK was lost. */
    function Lag(i: nat): nat
      reads dev
    {
      if dev.cur < i then 1 else 0
    }

    /** One attempt from again_data on. Every packet that comes undamaged is acknowledged, a duplicate too: that is how
        the device gets past a lost ACK. */
    method Attempt(buf: array<byte>, i: nat) returns (err: int, len: nat, ghost r: Reply)
      requires InSync(i)
      modifies this, dev, buf
      ensures err != 0 ==> (err != OVERRUN ==> InSync(i)) && buf[..] == old(buf[..])
      ensures err == 0 ==>
                && InSync(i + 1) && i < |dev.packets| && len == |dev.packets[i]|
                && Placed(old(buf[..]), buf[..], i, dev.packets[i])
      ensures err == OVERRUN ==> i < |dev.packets| && buf.Length < PACKET * i + PACKET
      ensures err == 0 || err in {OVERRUN, ERR_SILENT, ERR_OTHER, ERR_DUPE, ERR_CRC, ERR_STALL}
      ensures (err == ERR_SILENT <==> r.Silent?) && (err == ERR_STALL <==> r.Stalled?)
      ensures err == ERR_CRC <==> r.Damaged?
      ensures dev.acks == old(dev.acks) + if r.Good? then 1 else 0
      ensures err == ERR_OTHER <==> r.Good? && r.pid == OTHER
      ensures err == ERR_DUPE <==> r.Good? && r.pid != OTHER && r.pid == old(recv)
      ensures err == OVERRUN <==>
                r.Good? && r.pid != OTHER && r.pid != old(recv) && buf.Length < PACKET * i + PACKET
      ensures err == ERR_DUPE ==> i > 0 && old(dev.cur) == i - 1
      ensures old(dev.faults) <= dev.faults && dev.stalls == old(dev.stalls) + if r.Stalled? then 1 else 0
      ensures err == 0 ==> old(dev.faults) + Lag(i + 1) <= dev.faults
      ensures Retried(err) && i < |dev.packets| ==> old(dev.faults) + 1 + Lag(i) <= dev.faults + old(Lag(i))
    {
      hide Placed;
      len := 0;
      var reply := dev.In();
      r := reply;
      match reply {
        case Silent => return ERR_SILENT, 0, r;
        case Stalled => return ERR_STALL, 0, r;
        case Damaged => return ERR_CRC, 0, r;
        case Good(pid, n, data) =>
          dev.Ack();
          if pid == OTHER {
            return ERR_OTHER, 0, r;
          }
          if pid == recv {
            return ERR_DUPE, 0, r;
          }
          recv := pid;
          if PACKET * i + PACKET > buf.Length {
            return OVERRUN, 0, r;
          }
          ghost var was := buf[..];
          Copy8(buf, i, data);
          PlacedPart(was, buf[..], i, data, n);
          return 0, n, r;
      }
    }

    /** Both data registers go to the buffer. */
    method Copy8(buf: array<byte>, i: nat, data: seq<byte>)
      requires PACKET * i + PACKET <= buf.Length && |data| == PACKET
      modifies buf
      ensures Placed(old(buf[..]), buf[..], i, data)
    {
      for j := 0 to PACKET
        invariant buf[PACKET * i..PACKET * i + j] == data[..j]
        invariant buf[..PACKET * i] == old(buf[..PACKET * i])
        invariant buf[PACKET * i + PACKET..] == old(buf[PACKET * i + PACKET..])
      {
        buf[PACKET * i + j] := data[j];
      }
      assert data[..PACKET] == data;
    }

    /** The i-th packet, with up to eight retries for everything but a stall. codes are the outcomes of the attempts. */
    method Fetch(buf: array<byte>, i: nat) returns (err: int, len: nat, ghost codes: seq<int>)
      requires InSync(i)
      modifies this, dev, buf
      ensures err != 0 ==> (err != OVERRUN ==> InSync(i)) && buf[..] == old(buf[..])
      ensures err == 0 ==>
                && InSync(i + 1) && i < |dev.packets| && len == |dev.packets[i]|
                && Placed(old(buf[..]), buf[..], i, dev.packets[i])
      ensures err == OVERRUN ==> i < |dev.packets| && buf.Length < PACKET * i + PACKET
      ensures err <= 0 && (err == 0 || err == OVERRUN || err == ERR_STALL || Retried(err))
      ensures 1 <= |codes| <= RETRIES + 1 && codes[|codes| - 1] == err
      ensures forall k :: 0 <= k < |codes| - 1 ==> Retried(codes[k])
      ensures Retried(err) ==> |codes| == RETRIES + 1
      ensures old(dev.faults) <= dev.faults && dev.stalls == old(dev.stalls) + if err == ERR_STALL then 1 else 0
      ensures err == 0 ==> old(dev.faults) + Lag(i + 1) <= dev.faults
      ensures Retried(err) && i < |dev.packets| ==> old(dev.faults) + RETRIES + 1 <= dev.faults + old(Lag(i))
    {
      var retry := RETRIES;
      codes := [];
      while true
        invariant retry >= 0 && InSync(i) && buf[..] == old(buf[..])
        invariant |codes| + retry == RETRIES && forall k :: 0 <= k < |codes| ==> Retried(codes[k])
        invariant old(dev.faults) <= dev.faults && dev.stalls == old(dev.stalls)
        invariant i < |dev.packets| ==> old(dev.faults) + |codes| + Lag(i) <= dev.faults + old(Lag(i))
        decreases retry
      {
        ghost var r;
        err, len, r := Attempt(buf, i);
        codes := codes + [err];
        if err == 0 || err == OVERRUN || err == ERR_STALL || retry == 0 {
          return;
        }
        retry := retry - 1;
      }
    }

    /** The i-th packet, on top of those before it. */
    method FetchNext(buf: array<byte>, i: nat, size: nat, ghost first: seq<byte>) returns (err: int, len: nat)
      requires InSync(i) && i < PacketCnt(size) && Stored(dev.packets, i, buf[..], size)
      requires i > 0 ==> i <= |dev.packets| && |dev.packets[i - 1]| == Expected(i - 1, size)
      requires Untouched(first, buf[..], PACKET * PacketCnt(size))
      modifies this, dev, buf
      ensures err <= 0 && Untouched(first, buf[..], PACKET * PacketCnt(size))
      ensures err != 0 ==> (err != OVERRUN ==> InSync(i)) && Stored(dev.packets, i, buf[..], size)
      ensures err == 0 ==>
                && InSync(i + 1) && i < |dev.packets| && len == |dev.packets[i]| && PACKET * (i + 1) <= buf.Length
                && Stored(dev.packets, i + 1, buf[..], size) && Sum(dev.packets, i + 1) == Sum(dev.packets, i) + len
      ensures err == OVERRUN ==> i < |dev.packets| && buf.Length < PACKET * i + PACKET
      ensures old(dev.faults) <= dev.faults && dev.stalls == old(dev.stalls) + if err == ERR_STALL then 1 else 0
      ensures err == 0 ==> old(dev.faults) + Lag(i + 1) <= dev.faults
      ensures err == 0 || err == OVERRUN || err == ERR_STALL || i == |dev.packets|
              || old(dev.faults) + RETRIES + 1 <= dev.faults + old(Lag(i))
    {
      hide Stored, Placed, Sum, Expected, PacketCnt, Untouched;
      ghost var was := buf[..];
      ghost var codes;
      err, len, codes := Fetch(buf, i);
      if err == 0 {
        PlacedMeans(dev.packets, i, was, buf[..], size);
        StaysUntouched(i, was, buf[..], first, PacketCnt(size), dev.packets[i]);
      }
    }

    /** The data stage of usb10_setup_request. Whole packets are stored, so a buffer of size bytes is long enough for
        every device if and only if size is a multiple of 8: the packet that does not fit is the first one past the
        end of the buffer. */
    method DataStage(buf: array<byte>, size: nat) returns (ret: int, ghost n: nat)
      requires InSync(0)
      modifies this, dev, buf
      ensures n <= PacketCnt(size) && Stored(dev.packets, n, buf[..], size) && (ret != OVERRUN ==> InSync(n))
      ensures ret == OVERRUN ==> n < PacketCnt(size) && n < |dev.packets| && PACKET * n <= buf.Length < PACKET * (n + 1)
      ensures ret != OVERRUN ==> PACKET * n <= buf.Length
      ensures ret >= 0 ==> ret == Sum(dev.packets, n)
      ensures ret >= 0 && n < PacketCnt(size) ==> n > 0 && |dev.packets[n - 1]| != Expected(n - 1, size)
      ensures ret == size ==> n == PacketCnt(size) && size <= buf.Length && buf[..size] == Joined(dev.packets, n)
      ensures Untouched(old(buf[..]), buf[..], PACKET * PacketCnt(size))
      ensures ret >= 0 || ret == OVERRUN || n == |dev.packets| || dev.stalls > old(dev.stalls)
              || dev.faults > old(dev.faults) + RETRIES
      ensures Answers(dev.packets, size) && PACKET * PacketCnt(size) <= buf.Length ==>
                dev.stalls == old(dev.stalls) && dev.faults <= old(dev.faults) + RETRIES ==>
                ret == size && n == PacketCnt(size)
    {
      hide Stored, Placed, Joined, Sum, Expected, PacketCnt, Untouched, Answers;
      ret, n := 0, 0;
      StoredNone(dev.packets, buf[..], size);
      UntouchedYet(buf[..], PACKET * PacketCnt(size));
      var i := 0;
      while i < PacketCnt(size)
        invariant i <= PacketCnt(size) && n == i && InSync(i) && Stored(dev.packets, i, buf[..], size)
        invariant i <= |dev.packets|
        invariant ret == Sum(dev.packets, i) && (i > 0 ==> |dev.packets[i - 1]| == Expected(i - 1, size))
        invariant PACKET * n <= buf.Length && Untouched(old(buf[..]), buf[..], PACKET * PacketCnt(size))
        invariant old(dev.faults) + Lag(i) <= dev.faults && dev.stalls == old(dev.stalls)
      {
        var err, len := FetchNext(buf, i, size, old(buf[..]));
        if err != 0 {
          AnswersAll(dev.packets, i, size);
          return err, n;
        }
        ret := ret + len;
        n := n + 1;
        if len != Expected(i, size) {
          break;
        }
        i := i + 1;
      }
      AnswersAll(dev.packets, n, size);
      Complete(dev.packets, n, buf[..], size);
    }
  }

  /** The device has size bytes to send, in packets of the size the host expects. */
  ghost predicate Answers(ps: seq<seq<byte>>, size: nat) {
    PacketCnt(size) <= |ps| && forall k :: 0 <= k < PacketCnt(size) ==> |ps[k]| == Expected(k, size)
  }

  lemma {:induction false} AnswersSum(ps: seq<seq<byte>>, n: nat, size: nat)
    requires Answers(ps, size) && n <= PacketCnt(size)
    ensures Sum(ps, n) == if PACKET * n <= size then PACKET * n else size
  {
    if n > 0 {
      AnswersSum(ps, n - 1, size);
    }
  }

  lemma AnswersAll(ps: seq<seq<byte>>, n: nat, size: nat)
    requires n <= |ps|
    ensures Answers(ps, size) && n < PacketCnt(size) ==>
              n < |ps| && PACKET * (n + 1) <= PACKET * PacketCnt(size)
    ensures Answers(ps, size) && n == PacketCnt(size) ==> Sum(ps, n) == size
    ensures Answers(ps, size) && 0 < n <= PacketCnt(size) ==> |ps[n - 1]| == Expected(n - 1, size)
  {
    if Answers(ps, size) && n == PacketCnt(size) {
      AnswersSum(ps, n, size);
    }
  }

  // ---------------------------------------------------------------- the setup stage

  /** What comes back for a SETUP token and its data packet. */
  datatype Answer = NoAnswer | Acked | Garbled

  const TRIES := 3

  function AnswerAt(answers: seq<Answer>, k: nat): Answer { if k < |answers| then answers[k] else NoAnswer }

  function GarbledCnt(answers: seq<Answer>, k: nat): nat {
    if k == 0 then 0 else GarbledCnt(answers, k - 1) + if AnswerAt(answers, k - 1).Garbled? then 1 else 0
  }

  /** The toggle the first try goes by. The code presets that of the endpoint and reads that of endpoint 0, which is
      what earlier requests have left unless the endpoint is 0. */
  function Preset(endpoint: nat, left: Pid): Pid { if endpoint == 0 then DATA1 else left }

  /** The data packet of a SETUP must go as DATA0 (section 8.5.3 of the USB 2.0 specification). Each try does if and
      only if an even number of garbled answers came before it, or an odd one when the preset was DATA0: the code
      remembers the toggle it used whenever anything came back, also when that was no ACK, and flips it. */
  method SetupStage(endpoint: nat, left: Pid, answers: seq<Answer>) returns (ret: int, tries: seq<Pid>)
    ensures 1 <= |tries| <= TRIES && forall k :: 0 <= k < |tries| ==> tries[k] == DATA0 || tries[k] == DATA1
    ensures forall k :: 0 <= k < |tries| ==>
              (tries[k] == DATA0 <==> (GarbledCnt(answers, k) % 2 == 0 <==> Preset(endpoint, left) != DATA0))
    ensures endpoint == 0 ==> tries[0] == DATA0
    ensures forall k :: 0 <= k < |tries| - 1 ==> !AnswerAt(answers, k).Acked?
    ensures ret == 0 <==> AnswerAt(answers, |tries| - 1).Acked?
    ensures ret != 0 ==> |tries| == TRIES && (ret == ERR_NO_ANSWER <==> AnswerAt(answers, TRIES - 1).NoAnswer?)
  {
    var sent := Preset(endpoint, left);
    var retry := TRIES;
    tries := [];
    while true
      invariant retry == TRIES - |tries| > 0
      invariant sent == DATA0 <==> (GarbledCnt(answers, |tries|) % 2 == 0 <==> Preset(endpoint, left) == DATA0)
      invariant |tries| == 0 ==> sent == Preset(endpoint, left)
      invariant endpoint == 0 && |tries| > 0 ==> tries[0] == DATA0
      invariant forall k :: 0 <= k < |tries| ==> !AnswerAt(answers, k).Acked?
      invariant forall k :: 0 <= k < |tries| ==> tries[k] == DATA0 || tries[k] == DATA1
      invariant forall k :: 0 <= k < |tries| ==>
                  (tries[k] == DATA0 <==> (GarbledCnt(answers, k) % 2 == 0 <==> Preset(endpoint, left) != DATA0))
      decreases retry
    {
      var pid := if sent == DATA0 then DATA1 else DATA0;
      var answer := AnswerAt(answers, |tries|);
      tries := tries + [pid];
      if answer.NoAnswer? {
        retry := retry - 1;
        if retry == 0 {
          return ERR_NO_ANSWER, tries;
        }
      } else {
        sent := pid;
        if answer.Acked? {
          return 0, tries;
        }
        retry := retry - 1;
        if retry == 0 {
          return ERR_NO_ACK, tries;
        }
      }
    }
  }

  /** Nothing from k on has changed. */
  predicate Untouched(was: seq<byte>, now: seq<byte>, k: nat) {
    |was| == |now| && (k <= |now| ==> now[k..] == was[k..])
  }

  lemma UntouchedYet(buf: seq<byte>, k: nat)
    ensures Untouched(buf, buf, k)
  {
  }

  lemma StoredNone(ps: seq<seq<byte>>, buf: seq<byte>, size: nat)
    ensures Stored(ps, 0, buf, size) && Sum(ps, 0) == 0
  {
  }

  lemma PlacedMeans(ps: seq<seq<byte>>, i: nat, was: seq<byte>, now: seq<byte>, size: nat)
    requires i < |ps| && Placed(was, now, i, ps[i]) && Stored(ps, i, was, size)
    requires i > 0 ==> |ps[i - 1]| == Expected(i - 1, size)
    ensures Stored(ps, i + 1, now, size) && Sum(ps, i + 1) == Sum(ps, i) + |ps[i]|
    ensures |was| == |now| && PACKET * (i + 1) <= |now|
  {
    StoredStep(ps, i, was, now, size);
  }

  lemma StaysUntouched(i: nat, was: seq<byte>, now: seq<byte>, first: seq<byte>, cnt: nat, p: seq<byte>)
    requires Placed(was, now, i, p) && i < cnt && Untouched(first, was, PACKET * cnt)
    ensures Untouched(first, now, PACKET * cnt)
  {
    var d := PACKET * cnt - (PACKET * i + PACKET);
    if PACKET * cnt <= |was| {
      assert now[PACKET * cnt..] == now[PACKET * i + PACKET..][d..];
      assert was[PACKET * cnt..] == was[PACKET * i + PACKET..][d..];
    }
  }

  /** A stage that has delivered as many bytes as were asked for has delivered all packets, and they lie end to end. */
  lemma Complete(ps: seq<seq<byte>>, n: nat, buf: seq<byte>, size: nat)
    requires Stored(ps, n, buf, size) && n <= PacketCnt(size)
    ensures Sum(ps, n) <= |buf|
    ensures Sum(ps, n) == size ==> n == PacketCnt(size) && buf[..size] == Joined(ps, n)
  {
    StoredJoined(ps, n, buf, size);
  }
}
