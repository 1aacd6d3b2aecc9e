/** The receiving side of a ZMODEM file transfer: rzfile against any sequence of headers, subpackets and silences. */
module ZmReceive {
  import opened Bytes

  const ZFILE := 4
  const ZNAK := 6
  const ZABORT := 7
  const ZRPOS := 9
  const ZDATA := 10
  const ZEOF := 11
  const ZCAN := 16
  const ZACK := 3
  const ERROR := -1
  const TIMEOUT := -2
  const GOTCRCE := 0x168
  const GOTCRCG := 0x169
  const GOTCRCQ := 0x16a
  const GOTCRCW := 0x16b

  const PATIENCE := 20

  /** What the line brings next: seen by zgethdr, a code and a position; seen by zrdata, a code and data. */
  datatype Event = Event(code: int, pos: int, data: seq<byte>)

  const SILENCE := Event(TIMEOUT, 0, [])

  predicate GotCrc(code: int) { GOTCRCE <= code <= GOTCRCW }

  /** Where in the file the next subpacket of the current frame belongs, if there is such a frame. */
  datatype Place = Nowhere | At(pos: int)

  function NextPlace(p: Place, e: Event): Place {
    if e.code == ZDATA then At(e.pos)
    else if (e.code == GOTCRCG || e.code == GOTCRCQ) && p.At? then At(p.pos + |e.data|)
    else Nowhere
  }

  /** What the sender of file may put on the line: valid subpackets of a ZDATA frame hold the file's bytes at their
      places, and a ZEOF header tells the file's length. Nothing else is asked: anything may be lost, damaged,
      repeated or out of place. */
  predicate Honest(file: seq<byte>, events: seq<Event>, p: Place) {
    events == [] || (HonestEvent(file, events[0], p) && Honest(file, events[1..], NextPlace(p, events[0])))
  }

  predicate HonestEvent(file: seq<byte>, e: Event, p: Place) {
    && (GotCrc(e.code) && p.At? ==> IsAt(file, p.pos, e.data))
    && (e.code == ZEOF ==> e.pos == |file|)
  }

  predicate IsAt(file: seq<byte>, pos: int, data: seq<byte>) {
    0 <= pos && pos + |data| <= |file| && data == file[pos..pos + |data|]
  }

  /** What each turn of rzfile amounts to. */
  datatype Mark = Accepted(n: nat) | Penalty | Asked(typ: int, pos: int)

  /** Penalties since the last accepted subpacket. */
  function Penalties(log: seq<Mark>): nat {
    if log == [] then 0
    else
      match log[|log| - 1]
      case Accepted(_) => 0
      case Penalty => Penalties(log[..|log| - 1]) + 1
      case Asked(_, _) => Penalties(log[..|log| - 1])
  }

  /** Bytes accepted so far. */
  function Stored(log: seq<Mark>): nat {
    if log == [] then 0
    else Stored(log[..|log| - 1]) + match log[|log| - 1] case Accepted(n) => n case _ => 0
  }

  /** The headers sent. */
  function AsksOf(log: seq<Mark>): seq<Mark> {
    if log == [] then []
    else AsksOf(log[..|log| - 1]) + if log[|log| - 1].Asked? then [log[|log| - 1]] else []
  }

  /** Every position told to the sender is the number of bytes accepted until then. */
  ghost predicate AsksRight(log: seq<Mark>) {
    forall i :: 0 <= i < |log| && log[i].Asked? ==> log[i].pos == Stored(log[..i])
  }

  lemma LogStep(log: seq<Mark>, m: Mark)
    ensures Penalties(log + [m]) == match m
                                    case Accepted(_) => 0
                                    case Penalty => Penalties(log) + 1
                                    case Asked(_, _) => Penalties(log)
    ensures Stored(log + [m]) == Stored(log) + match m case Accepted(n) => n case _ => 0
    ensures AsksRight(log) && (m.Asked? ==> m.pos == Stored(log)) ==> AsksRight(log + [m])
    ensures AsksOf(log + [m]) == AsksOf(log) + if m.Asked? then [m] else []
  {
    assert (log + [m])[..|log|] == log;
    if AsksRight(log) && (m.Asked? ==> m.pos == Stored(log)) {
      forall i | 0 <= i < |log + [m]| && (log + [m])[i].Asked? ensures (log + [m])[i].pos == Stored((log + [m])[..i]) {
        assert (log + [m])[..i] == log[..i];
      }
    }
  }

  lemma LogEmpty()
    ensures Penalties([]) == 0 && Stored([]) == 0 && AsksRight([]) && AsksOf([]) == []
  {
  }

  datatype Phase = AskPosition | NextHeader | MoreData

  // ---------------------------------------------------------------- rzfile as a function of what the line brings

  datatype State =
    | Going(script: seq<Event>, phase: Phase, n: int, stored: seq<byte>)
    | Over(code: int, stored: seq<byte>)

  function NextOf(script: seq<Event>): Event { if script == [] then SILENCE else script[0] }
  function Drop(script: seq<Event>, k: nat): seq<Event> { if k <= |script| then script[k..] else [] }

  function Penalised(s: State): State
    requires s.Going?
  {
    if s.n == 0 then Over(ERROR, s.stored) else s.(n := s.n - 1)
  }

  function Step(s: State): State
    requires s.Going? && s.n >= 0
  {
    var e, rest := NextOf(s.script), Drop(s.script, 1);
    match s.phase
    case AskPosition => s.(phase := NextHeader)
    case NextHeader =>
      if e.code == ZNAK || e.code == TIMEOUT then Penalised(s.(script := Drop(s.script, 2), phase := AskPosition))
      else if e.code == ZFILE then s.(script := Drop(s.script, 2), phase := AskPosition)
      else if e.code == ZEOF then if e.pos == |s.stored| then Over(ZEOF, s.stored) else s.(script := rest)
      else if e.code == ERROR || (e.code == ZDATA && e.pos != |s.stored|) then
        Penalised(s.(script := rest, phase := AskPosition))
      else if e.code == ZDATA then s.(script := rest, phase := MoreData)
      else Over(ERROR, s.stored)
    case MoreData =>
      if e.code == ZCAN then Over(ERROR, s.stored)
      else if e.code == ERROR || e.code == TIMEOUT then Penalised(s.(script := rest, phase := AskPosition))
      else if e.code == GOTCRCG || e.code == GOTCRCQ then Going(rest, MoreData, PATIENCE, s.stored + e.data)
      else if e.code == GOTCRCE || e.code == GOTCRCW then Going(rest, NextHeader, PATIENCE, s.stored + e.data)
      else s.(script := rest, phase := AskPosition)
  }

  function Run(s: State): (r: State)
    requires s.Going? ==> s.n >= 0
    ensures r.Over?
    decreases if s.Going? then |s.script| else 0, if s.Going? then s.n else 0,
              if s.Going? && s.phase.AskPosition? then 1 else 0, if s.Going? then 1 else 0
  {
    if s.Over? then s else Run(Step(s))
  }

  /** The header sent on the way to the next state: the position at the start and after every failure, and the
      receipt that GOTCRCQ and GOTCRCW ask for. */
  function SentBy(s: State): seq<Mark>
    requires s.Going?
  {
    var e := NextOf(s.script);
    match s.phase
    case AskPosition => [Asked(ZRPOS, |s.stored|)]
    case NextHeader => []
    case MoreData =>
      if e.code == GOTCRCQ || e.code == GOTCRCW then [Asked(ZACK, |s.stored| + |e.data|)] else []
  }

  function AllSent(s: State): seq<Mark>
    requires s.Going? ==> s.n >= 0
    decreases if s.Going? then |s.script| else 0, if s.Going? then s.n else 0,
              if s.Going? && s.phase.AskPosition? then 1 else 0, if s.Going? then 1 else 0
  {
    if s.Over? then [] else SentBy(s) + AllSent(Step(s))
  }

  lemma RunOn(s: State)
    requires s.Going? && s.n >= 0
    ensures var t := Step(s); (t.Going? ==> t.n >= 0) && Run(s) == Run(t) && AllSent(s) == SentBy(s) + AllSent(t)
  {
  }

  lemma RunOver(code: int, stored: seq<byte>)
    ensures Run(Over(code, stored)) == Over(code, stored) && AllSent(Over(code, stored)) == []
  {
  }

  /** A run that began at s and has come to t, and what has been sent on the way. */
  ghost predicate Follows(s: State, t: State, log: seq<Mark>)
    requires s.Going? && s.n >= 0
  {
    (t.Going? ==> t.n >= 0) && Run(t) == Run(s) && AsksOf(log) + AllSent(t) == AllSent(s)
  }

  lemma FollowsOn(s: State, t: State, log: seq<Mark>, log': seq<Mark>)
    requires s.Going? && s.n >= 0 && t.Going? && Follows(s, t, log) && AsksOf(log') == AsksOf(log) + SentBy(t)
    ensures Follows(s, Step(t), log')
  {
    hide Run, AllSent, Step, SentBy, AsksOf;
    RunOn(t);
  }

  lemma FollowsEnds(s: State, code: int, stored: seq<byte>, log: seq<Mark>)
    requires s.Going? && s.n >= 0 && Follows(s, Over(code, stored), log)
    ensures Over(code, stored) == Run(s) && AsksOf(log) == AllSent(s)
  {
    RunOver(code, stored);
  }

  lemma FollowsStart(s: State)
    requires s.Going? && s.n >= 0
    ensures Follows(s, s, [])
  {
    LogEmpty();
  }

  lemma AskedNow(s: State)
    requires s.Going? && s.n >= 0 && s.phase.AskPosition?
    ensures Step(s) == s.(phase := NextHeader) && SentBy(s) == [Asked(ZRPOS, |s.stored|)]
  {
  }

  lemma RunAsk(script: seq<Event>, n: int, stored: seq<byte>)
    requires n >= 0
    ensures Run(Going(script, AskPosition, n, stored)) == Run(Going(script, NextHeader, n, stored))
  {
  }

  // ---------------------------------------------------------------- what a sender can put on the line to get through

  /** A data frame: subpackets after which more follow, and what ends it, be it one that does not come through; a
      header that does not fit; silence, ZNAK or ZFILE, and whatever comes next in place of data. */
  datatype Item =
    | Frame(head: Event, chunks: seq<Event>, last: Event)
    | Stray(e: Event)
    | Swallowed(e: Event, next: Event)

  predicate GoesOn(e: Event) { e.code == GOTCRCG || e.code == GOTCRCQ }
  predicate Ends(e: Event) { e.code != ZCAN && !GoesOn(e) }
  predicate Fails(e: Event) { e.code == ERROR || e.code == TIMEOUT }

  /** The item may come when at bytes are stored. */
  predicate ItemOk(i: Item, at: nat) {
    match i
    case Frame(head, chunks, last) =>
      head.code == ZDATA && head.pos == at && (forall k :: 0 <= k < |chunks| ==> GoesOn(chunks[k])) && Ends(last)
    case Stray(e) => e.code == ERROR || ((e.code == ZDATA || e.code == ZEOF) && e.pos != at)
    case Swallowed(e, _) => e.code == ZNAK || e.code == TIMEOUT || e.code == ZFILE
  }

  function AllData(chunks: seq<Event>): seq<byte> {
    if chunks == [] then [] else chunks[0].data + AllData(chunks[1..])
  }

  /** The bytes of a subpacket that comes through. */
  function Got(e: Event): seq<byte> { if GotCrc(e.code) then e.data else [] }

  function Brought(i: Item): seq<byte> {
    if i.Frame? then AllData(i.chunks) + Got(i.last) else []
  }

  function Sent(i: Item): seq<Event> {
    match i
    case Frame(head, chunks, last) => [head] + chunks + [last]
    case Stray(e) => [e]
    case Swallowed(e, next) => [e, next]
  }

  function AfterLast(e: Event, n: int): int { if GotCrc(e.code) then PATIENCE else if Fails(e) then n - 1 else n }
  function AfterChunks(chunks: seq<Event>, n: int): int { if chunks == [] then n else PATIENCE }

  /** The patience left after an item: a subpacket that comes through restores it, and what fails takes one off. */
  function Left(i: Item, n: int): int {
    match i
    case Frame(_, chunks, last) => AfterLast(last, AfterChunks(chunks, n))
    case Stray(e) => if e.code == ZEOF then n else n - 1
    case Swallowed(e, _) => if e.code == ZFILE then n else n - 1
  }

  function FileOf(items: seq<Item>): seq<byte> {
    if items == [] then [] else Brought(items[0]) + FileOf(items[1..])
  }

  function Transfer(items: seq<Item>): seq<Event> {
    if items == [] then [] else Sent(items[0]) + Transfer(items[1..])
  }

  /** Each item fits where it comes, with no more than 20 failures between two subpackets that come through. */
  predicate Bearable(items: seq<Item>, at: nat, n: int) {
    items == []
    || (ItemOk(items[0], at) && Left(items[0], n) >= 0
        && Bearable(items[1..], at + |Brought(items[0])|, Left(items[0], n)))
  }

  /** The line brings the items and then the end of a file of at + |FileOf(items)| bytes. */
  predicate Brings(script: seq<Event>, items: seq<Item>, rest: seq<Event>, at: nat, n: int) {
    && Bearable(items, at, n) && rest != [] && script == Transfer(items) + rest
    && rest[0].code == ZEOF && rest[0].pos == at + |FileOf(items)|
  }

  lemma {:induction false} RunChunks(chunks: seq<Event>, rest: seq<Event>, n: int, stored: seq<byte>)
    requires n >= 0 && forall k :: 0 <= k < |chunks| ==> GoesOn(chunks[k])
    ensures AfterChunks(chunks, n) >= 0
    ensures Run(Going(chunks + rest, MoreData, n, stored))
         == Run(Going(rest, MoreData, AfterChunks(chunks, n), stored + AllData(chunks)))
  {
    if chunks == [] {
      assert chunks + rest == rest && stored + AllData(chunks) == stored;
    } else {
      assert (chunks + rest)[1..] == chunks[1..] + rest;
      RunChunks(chunks[1..], rest, PATIENCE, stored + chunks[0].data);
      assert stored + chunks[0].data + AllData(chunks[1..]) == stored + AllData(chunks);
    }
  }

  lemma RunLast(last: Event, rest: seq<Event>, n: int, stored: seq<byte>)
    requires n >= 0 && Ends(last) && AfterLast(last, n) >= 0
    ensures Run(Going([last] + rest, MoreData, n, stored))
         == Run(Going(rest, NextHeader, AfterLast(last, n), stored + Got(last)))
  {
    hide Run, AllSent, SentBy;
    assert ([last] + rest)[1..] == rest && stored + [] == stored;
    RunOn(Going([last] + rest, MoreData, n, stored));
    RunAsk(rest, AfterLast(last, n), stored);
  }

  lemma RunFrame(head: Event, chunks: seq<Event>, last: Event, rest: seq<Event>, n: int, stored: seq<byte>)
    requires n >= 0 && ItemOk(Frame(head, chunks, last), |stored|) && Left(Frame(head, chunks, last), n) >= 0
    ensures Run(Going([head] + chunks + [last] + rest, NextHeader, n, stored))
         == Run(Going(rest, NextHeader, Left(Frame(head, chunks, last), n), stored + (AllData(chunks) + Got(last))))
  {
    hide Run, AllSent, SentBy, Ends, AfterLast, AfterChunks, AllData, Got;
    var script := [head] + chunks + [last] + rest;
    RunOn(Going(script, NextHeader, n, stored));
    assert script[1..] == chunks + ([last] + rest);
    RunChunks(chunks, [last] + rest, n, stored);
    RunLast(last, rest, AfterChunks(chunks, n), stored + AllData(chunks));
    assert stored + AllData(chunks) + Got(last) == stored + (AllData(chunks) + Got(last));
  }

  lemma RunItem(i: Item, rest: seq<Event>, n: int, stored: seq<byte>)
    requires n >= 0 && ItemOk(i, |stored|) && Left(i, n) >= 0
    ensures Run(Going(Sent(i) + rest, NextHeader, n, stored))
         == Run(Going(rest, NextHeader, Left(i, n), stored + Brought(i)))
  {
    hide Run, AllSent, SentBy, AfterLast, AfterChunks, AllData, Got, Ends;
    if i.Frame? {
      RunFrame(i.head, i.chunks, i.last, rest, n, stored);
    } else {
      assert (Sent(i) + rest)[|Sent(i)|..] == rest && stored + [] == stored;
      RunOn(Going(Sent(i) + rest, NextHeader, n, stored));
      RunAsk(rest, Left(i, n), stored);
    }
  }

  lemma {:induction false} RunItems(script: seq<Event>, items: seq<Item>, rest: seq<Event>, n: int, stored: seq<byte>)
    requires n >= 0 && Brings(script, items, rest, |stored|, n)
    ensures Run(Going(script, NextHeader, n, stored)) == Over(ZEOF, stored + FileOf(items))
    decreases items
  {
    hide ItemOk, Sent, Left, Brought, Run, AllSent, SentBy;
    if items == [] {
      assert script == rest && stored + FileOf(items) == stored;
      RunOn(Going(script, NextHeader, n, stored));
      RunOver(ZEOF, stored);
    } else {
      var now := stored + Brought(items[0]);
      var more := Transfer(items[1..]) + rest;
      assert script == Sent(items[0]) + more;
      RunItem(items[0], more, n, stored);
      RunItems(more, items[1..], rest, Left(items[0], n), now);
      assert now + FileOf(items[1..]) == stored + FileOf(items);
    }
  }

  /** Silence is never the end of a file. */
  lemma {:induction false} RunSilent(phase: Phase, n: int, stored: seq<byte>)
    requires n >= 0
    ensures Run(Going([], phase, n, stored)).code == ERROR
    decreases n, if phase.AskPosition? then 1 else 0
  {
    var t := Step(Going([], phase, n, stored));
    if t.Going? {
      RunSilent(t.phase, t.n, stored);
    }
  }

  /** What must have come in a data frame for the file to end well after all. */
  lemma {:induction false} DataOnly(script: seq<Event>, n: int, stored: seq<byte>)
    returns (chunks: seq<Event>, last: Event, rest: seq<Event>)
    requires n >= 0 && Run(Going(script, MoreData, n, stored)).code == ZEOF
    ensures script == chunks + [last] + rest && (forall k :: 0 <= k < |chunks| ==> GoesOn(chunks[k])) && Ends(last)
    ensures AfterLast(last, AfterChunks(chunks, n)) >= 0
    ensures Run(Going(script, MoreData, n, stored))
         == Run(Going(rest, NextHeader, AfterLast(last, AfterChunks(chunks, n)),
                      stored + (AllData(chunks) + Got(last))))
    decreases |script|
  {
    hide Run, AllSent, SentBy;
    var s := Going(script, MoreData, n, stored);
    RunOn(s);
    RunOver(ERROR, stored);
    if script == [] {
      RunSilent(MoreData, n, stored);
      chunks, last, rest := [], SILENCE, [];
    } else if GoesOn(script[0]) {
      chunks, last, rest := DataOnly(script[1..], PATIENCE, stored + script[0].data);
      var all := [script[0]] + chunks;
      assert all[1..] == chunks;
      assert script == all + [last] + rest;
      assert stored + script[0].data + (AllData(chunks) + Got(last)) == stored + (AllData(all) + Got(last));
      chunks := all;
    } else {
      chunks, last, rest := [], script[0], script[1..];
      assert script == [last] + rest && AllData([]) + Got(last) == Got(last);
      RunLast(last, rest, n, stored);
    }
  }

  /** Or in place of a header. */
  lemma HeaderOnly(script: seq<Event>, n: int, stored: seq<byte>) returns (i: Item, more: seq<Event>)
    requires n >= 0 && script != [] && Run(Going(script, NextHeader, n, stored)).code == ZEOF
    requires !(script[0].code == ZDATA && script[0].pos == |stored|)
    requires !(script[0].code == ZEOF && script[0].pos == |stored|)
    ensures ItemOk(i, |stored|) && Left(i, n) >= 0 && script == Sent(i) + more
  {
    hide Run, AllSent, SentBy;
    RunOn(Going(script, NextHeader, n, stored));
    RunOver(ERROR, stored);
    var e := script[0];
    if e.code == ZNAK || e.code == TIMEOUT || e.code == ZFILE {
      if |script| < 2 {
        RunSilent(AskPosition, Left(Swallowed(e, e), n), stored);
      }
      i, more := Swallowed(e, script[1]), script[2..];
    } else {
      i, more := Stray(e), script[1..];
    }
  }

  lemma FirstItem(script: seq<Event>, n: int, stored: seq<byte>) returns (i: Item, more: seq<Event>)
    requires n >= 0 && script != [] && Run(Going(script, NextHeader, n, stored)).code == ZEOF
    requires !(script[0].code == ZEOF && script[0].pos == |stored|)
    ensures ItemOk(i, |stored|) && Left(i, n) >= 0 && script == Sent(i) + more
  {
    hide Run, AllSent, SentBy, AfterLast, AfterChunks, AllData, Got, Ends;
    var e := script[0];
    if e.code == ZDATA && e.pos == |stored| {
      RunOn(Going(script, NextHeader, n, stored));
      var chunks, last;
      chunks, last, more := DataOnly(script[1..], n, stored);
      i := Frame(e, chunks, last);
      assert script == [e] + chunks + [last] + more;
    } else {
      i, more := HeaderOnly(script, n, stored);
    }
  }

  /** And what must have come altogether. */
  lemma {:induction false} ItemsOnly(script: seq<Event>, n: int, stored: seq<byte>)
    returns (items: seq<Item>, rest: seq<Event>)
    requires n >= 0 && Run(Going(script, NextHeader, n, stored)).code == ZEOF
    ensures Brings(script, items, rest, |stored|, n)
    decreases |script|
  {
    hide Run, ItemOk, Left, Brought;
    items, rest := [], script;
    if script == [] {
      RunSilent(NextHeader, n, stored);
    } else if !(script[0].code == ZEOF && script[0].pos == |stored|) {
      var i, more := FirstItem(script, n, stored);
      RunItem(i, more, n, stored);
      items, rest := ItemsOnly(more, Left(i, n), stored + Brought(i));
      BringsMore(script, i, items, more, rest, |stored|, n);
      items := [i] + items;
    }
  }

  lemma BringsMore(script: seq<Event>, i: Item, items: seq<Item>, more: seq<Event>, rest: seq<Event>, at: nat, n: int)
    requires ItemOk(i, at) && Left(i, n) >= 0 && script == Sent(i) + more
    requires Brings(more, items, rest, at + |Brought(i)|, Left(i, n))
    ensures Brings(script, [i] + items, rest, at, n)
  {
    hide ItemOk, Sent, Brought, Left;
    assert ([i] + items)[1..] == items;
  }

  lemma Delivered(script: seq<Event>, items: seq<Item>, rest: seq<Event>)
    requires Brings(script, items, rest, 0, PATIENCE)
    ensures Run(Going(script, AskPosition, PATIENCE, [])) == Over(ZEOF, FileOf(items))
  {
    hide Run, AllSent, SentBy, Brings;
    RunAsk(script, PATIENCE, []);
    RunItems(script, items, rest, PATIENCE, []);
    assert [] + FileOf(items) == FileOf(items);
  }

  lemma DeliveredAll(script: seq<Event>)
    ensures forall items, rest :: Brings(script, items, rest, 0, PATIENCE) ==>
              Run(Going(script, AskPosition, PATIENCE, [])) == Over(ZEOF, FileOf(items))
  {
    hide Run, Brings, FileOf;
    forall items, rest | Brings(script, items, rest, 0, PATIENCE)
      ensures Run(Going(script, AskPosition, PATIENCE, [])) == Over(ZEOF, FileOf(items))
    {
      Delivered(script, items, rest);
    }
  }

  lemma DeliveredOnly(script: seq<Event>) returns (items: seq<Item>, rest: seq<Event>)
    requires Run(Going(script, AskPosition, PATIENCE, [])).code == ZEOF
    ensures Brings(script, items, rest, 0, PATIENCE)
  {
    hide Run, AllSent, SentBy, Brings;
    RunAsk(script, PATIENCE, []);
    items, rest := ItemsOnly(script, PATIENCE, []);
  }

  /** A file is received, whatever it is and however it is cut into frames and subpackets, exactly when the line brings
      it to its end with no more than 20 failures between two subpackets that come through. */
  lemma DeliveredIff(script: seq<Event>, file: seq<byte>)
    ensures Run(Going(script, AskPosition, PATIENCE, [])) == Over(ZEOF, file) <==>
            exists items, rest :: Brings(script, items, rest, 0, PATIENCE) && FileOf(items) == file
  {
    hide Run, AllSent, SentBy, Brings, FileOf;
    if Run(Going(script, AskPosition, PATIENCE, [])).code == ZEOF {
      var items, rest := DeliveredOnly(script);
      Delivered(script, items, rest);
    }
    DeliveredAll(script);
  }

  /** Frames all of whose subpackets come through, one behind the other. */
  predicate Faultless(items: seq<Item>, at: nat) {
    items == []
    || (items[0].Frame? && ItemOk(items[0], at) && GotCrc(items[0].last.code)
        && Faultless(items[1..], at + |Brought(items[0])|))
  }

  lemma {:induction false} FaultlessBearable(items: seq<Item>, at: nat, n: int)
    requires Faultless(items, at)
    ensures Bearable(items, at, n)
    decreases items
  {
    if items != [] {
      FaultlessBearable(items[1..], at + |Brought(items[0])|, PATIENCE);
    }
  }

  class Session {
    var script: seq<Event>   // what is still to come; then silence
    var memory: seq<byte>    // written from ZModemWriteAddress on
    var rxBytes: int         // ZModemRxBytes
    var rxOffset: nat        // ZModemRxOffset
    var n: int
    ghost var place: Place
    ghost var log: seq<Mark>

    /** The two counters agree with what is stored. */
    ghost predicate Valid()
      reads this
    {
      rxOffset == |memory| && rxBytes == rxOffset
    }

    ghost predicate Sound(file: seq<byte>)
      reads this
    {
      Valid() && memory <= file && Honest(file, script, place)
    }

    method Take(ghost file: seq<byte>) returns (e: Event)
      modifies this`script, this`place
      ensures e == NextOf(old(script)) && script == Drop(old(script), 1)
      ensures old(script) == [] ==> e == SILENCE && script == [] && place == old(place)
      ensures old(script) != [] ==> |script| < |old(script)| && place == NextPlace(old(place), e)
      ensures Honest(file, old(script), old(place)) ==> Honest(file, script, place) && HonestEvent(file, e, old(place))
    {
      if script == [] {
        return SILENCE;
      }
      e := script[0];
      script := script[1..];
      place := NextPlace(place, e);
    }

    /** putsec in binary mode, and the count that goes with it. */
    method PutSec(data: seq<byte>)
      requires Valid()
      modifies this`memory, this`rxOffset, this`rxBytes, this`n, this`log
      ensures Valid() && memory == old(memory) + data && n == PATIENCE && log == old(log) + [Accepted(|data|)]
    {
      n := PATIENCE;
      memory := memory + data;
      rxOffset := rxOffset + |data|;
      rxBytes := rxBytes + |data|;
      log := log + [Accepted(|data|)];
    }

    method Ask(typ: int)
      modifies this`log
      ensures log == old(log) + [Asked(typ, rxBytes)]
    {
      log := log + [Asked(typ, rxBytes)];
    }

    /** --n < 0: out of patience. */
    method Penalise() returns (over: bool)
      modifies this`n, this`log
      ensures n == old(n) - 1 && (over <==> n < 0) && log == old(log) + [Penalty]
    {
      n := n - 1;
      log := log + [Penalty];
      over := n < 0;
    }

    /** Between turns: the patience left is what the penalties have left of it. */
    ghost predicate Patient()
      reads this
    {
      0 <= n == PATIENCE - Penalties(log) && Stored(log) == rxBytes && AsksRight(log)
    }

    /** After a turn that did not end it: patient still, and something used up. */
    twostate predicate Goes()
      reads this
    {
      Patient() && (|script| < |old(script)| || (script == [] == old(script) && n < old(n)))
    }

    /** At the end: out of patience at the 21st penalty, and at no other. */
    ghost predicate Ended(code: int)
      reads this
    {
      && Stored(log) == rxBytes && AsksRight(log)
      && Penalties(log) <= PATIENCE + 1 && (Penalties(log) == PATIENCE + 1 ==> code == ERROR)
    }

    /** What a turn has come to. */
    function Turned(phase: Phase, over: bool, code: int): State
      reads this
    {
      if over then Over(code, memory) else Going(script, phase, n, memory)
    }

    /** The switch on a header: the next phase, or the end with a code. */
    method HeaderTurn(ghost file: seq<byte>) returns (phase: Phase, over: bool, code: int)
      requires Valid() && Patient()
      modifies this`script, this`place, this`n, this`log
      ensures Valid()
      ensures Turned(phase, over, code) == Step(Going(old(script), NextHeader, old(n), memory))
      ensures AsksOf(log) == AsksOf(old(log)) + SentBy(Going(old(script), NextHeader, old(n), memory))
      ensures over ==> Ended(code) && (code == ZEOF || code == ERROR)
      ensures !over ==> Goes()
      ensures old(Sound(file)) ==> Sound(file)
      ensures old(Sound(file)) && !over && phase.MoreData? ==> place == At(rxBytes)
      ensures old(Sound(file)) && over && code == ZEOF ==> memory == file
    {
      hide Penalties, Stored, AsksRight, Honest, AsksOf;
      phase, over, code := AskPosition, false, ERROR;
      LogStep(log, Penalty);
      var e := Take(file);
      if e.code == ZNAK || e.code == TIMEOUT || e.code == ZFILE {
        if e.code != ZFILE {
          over := Penalise();
        }
        if !over {
          var _ := Take(file);
        }
      } else if e.code == ZEOF {
        if e.pos != rxBytes {
          return NextHeader, false, 0;
        }
        return phase, true, ZEOF;
      } else if e.code == ERROR {
        over := Penalise();
      } else if e.code == ZDATA {
        if e.pos != rxBytes {
          over := Penalise();
        } else {
          phase := MoreData;
        }
      } else {
        return phase, true, ERROR;
      }
    }

    /** The switch on a subpacket. A code it does not list is passed over without a penalty. */
    method DataTurn(ghost file: seq<byte>) returns (phase: Phase, over: bool, code: int)
      requires Valid() && Patient()
      modifies this
      ensures Valid()
      ensures Turned(phase, over, code) == Step(Going(old(script), MoreData, old(n), old(memory)))
      ensures AsksOf(log) == AsksOf(old(log)) + SentBy(Going(old(script), MoreData, old(n), old(memory)))
      ensures over ==> Ended(code) && code == ERROR
      ensures !over ==> Goes()
      ensures old(Sound(file)) && old(place) == At(old(rxBytes)) ==> Sound(file)
      ensures old(Sound(file)) && old(place) == At(old(rxBytes)) && !over && phase.MoreData? ==> place == At(rxBytes)
    {
      hide Penalties, Stored, AsksRight, Honest, AsksOf;
      phase, over, code := AskPosition, false, ERROR;
      LogStep(log, Penalty);
      var e := Take(file);
      if e.code == ZCAN {
        return phase, true, ERROR;
      } else if e.code == ERROR || e.code == TIMEOUT {
        over := Penalise();
      } else if GotCrc(e.code) {
        LogStep(log, Accepted(|e.data|));
        PutSec(e.data);
        LogStep(log, Asked(ZACK, rxBytes));
        if e.code == GOTCRCW || e.code == GOTCRCQ {
          Ask(ZACK);
        }
        phase := if e.code == GOTCRCQ || e.code == GOTCRCG then MoreData else NextHeader;
      }
    }

    /** rzfile for the first file of a session, in binary mode. */
    method RzFile(headerOk: bool, ghost file: seq<byte>) returns (code: int)
      requires Valid() && rxBytes == 0 && log == []
      modifies this
      ensures Valid() && (!headerOk <==> code == ZABORT) && (headerOk ==> Ended(code))
      ensures headerOk ==>
                && Over(code, memory) == Run(Going(old(script), AskPosition, PATIENCE, old(memory)))
                && AsksOf(log) == AllSent(Going(old(script), AskPosition, PATIENCE, old(memory)))
      ensures headerOk ==>
                forall items, rest :: Brings(old(script), items, rest, 0, PATIENCE) ==>
                  code == ZEOF && memory == FileOf(items)
      ensures old(Sound(file)) ==> memory <= file && |memory| == rxBytes && (code == ZEOF ==> memory == file)
    {
      hide Penalties, Stored, AsksRight, Honest, Run, AllSent, AsksOf, Step, SentBy, Follows, Brings, FileOf;
      if !headerOk {
        return ZABORT;
      }
      LogEmpty();
      n := PATIENCE;
      FollowsStart(Going(script, AskPosition, n, memory));
      DeliveredAll(script);
      var phase := AskPosition;
      while true
        invariant Valid() && Patient() && (old(Sound(file)) ==> Sound(file))
        invariant old(Sound(file)) && phase.MoreData? ==> place == At(rxBytes)
        invariant Follows(Going(old(script), AskPosition, PATIENCE, old(memory)), Going(script, phase, n, memory), log)
        decreases |script|, n, if phase.AskPosition? then 1 else 0
      {
        var over := false;
        ghost var s, told := Going(script, phase, n, memory), log;
        match phase {
          case AskPosition =>
            LogStep(log, Asked(ZRPOS, rxBytes));
            AskedNow(Going(script, phase, n, memory));
            Ask(ZRPOS);
            phase := NextHeader;
          case NextHeader =>
            phase, over, code := HeaderTurn(file);
          case MoreData =>
            phase, over, code := DataTurn(file);
        }
        FollowsOn(Going(old(script), AskPosition, PATIENCE, old(memory)), s, told, log);
        if over {
          FollowsEnds(Going(old(script), AskPosition, PATIENCE, old(memory)), code, memory, log);
          return;
        }
      }
    }
  }
}
