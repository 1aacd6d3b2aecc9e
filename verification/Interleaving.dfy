/** Two open files used in turns: each answers as if it were alone. */
module Interleaving {
  import opened Bytes
  import opened Chain
  import opened Layout
  import opened FatVolume
  import opened LongName
  import opened DirLayout
  import opened DirGrow
  import opened FileBytes
  import opened Files
  import opened Bystanders
  import opened Sessions

  // ---------------------------------------------------------------- a handle as a value

  /** What an open file holds in memory. */
  datatype Handle = Handle(sclust: nat, cs: seq<nat>, offset: nat, clust: nat, sect: nat, size: nat, buf: Sector,
                           written: bool, modified: bool, dirSect: nat, dirIdx: nat)

  ghost function HandleOf(f: File): Handle
    reads f
  {
    Handle(f.sclust, f.cs, f.offset, f.clust, f.sect, f.size, f.buf, f.dirty && f.modified, f.modified,
           f.dirSect, f.dirIdx)
  }

  /** The handle's chain and buffer fit the volume v. */
  ghost predicate ChainFits(g: Geo, v: Volume, h: Handle) {
    && ChainOn(g, v, h.sclust, h.cs) && OnMedium(g, v, h.cs) && At(g, h.cs, h.offset, h.clust)
    && h.size <= ByteCnt(g, h.cs) && SectFor(g, h.cs, h.offset, h.sect)
    && h.sect < |v| && IsDataSect(g, h.cs, h.sect) && (!h.written ==> h.buf == v[h.sect])
  }

  /** So does its entry. */
  ghost predicate EntryFits(g: Geo, v: Volume, h: Handle) {
    && g.dataSect <= h.dirSect < |v| && !IsDataSect(g, h.cs, h.dirSect)
    && h.dirIdx < SECTOR_SIZE && h.dirIdx % ENTRY_SIZE == 0 && HeldApart(g, v, h.cs, h.dirSect)
    && var e := EntryOf(v[h.dirSect], h.dirIdx / ENTRY_SIZE);
      EntryClust(e) == h.sclust && (h.modified || EntrySize(e) == h.size)
  }

  ghost function Seen(g: Geo, v: Volume, h: Handle): (b: seq<byte>)
    requires ChainFits(g, v, h)
    ensures |b| == ByteCnt(g, h.cs)
  {
    Allocated(g, Overlay(v, h.sect, h.buf), h.cs)
  }

  ghost function TapeIn(g: Geo, v: Volume, h: Handle): Tape
    requires ChainFits(g, v, h)
  {
    Tape(Seen(g, v, h)[..h.size], h.offset)
  }

  lemma OpenFits(f: File)
    requires Open(f)
    ensures |f.fat.Now()| == f.fat.size && ChainFits(f.fat.g, f.fat.Now(), HandleOf(f))
    ensures EntryFits(f.fat.g, f.fat.Now(), HandleOf(f))
    ensures TapeOf(f) == TapeIn(f.fat.g, f.fat.Now(), HandleOf(f))
    ensures !IsDataSect(f.fat.g, f.cs, f.fat.sect) && Calm(f) && f.fat.Valid()
  {
    hide IsChain, Allocated, ClustersOk, SectFor, ByteCnt, At, Overlay, HeldApart, EntryOf, EntryClust, EntrySize,
      Ordered;
  }

  lemma FitsOpen(f: File)
    requires f.fat.Valid() && 2 <= f.fat.lastUsed < f.fat.g.clustCnt && |f.fat.Now()| == f.fat.size <= NO_SECT
    requires ChainFits(f.fat.g, f.fat.Now(), HandleOf(f)) && EntryFits(f.fat.g, f.fat.Now(), HandleOf(f))
    requires !IsDataSect(f.fat.g, f.cs, f.fat.sect) && Calm(f)
    ensures Open(f)
  {
    hide IsChain, Allocated, ClustersOk, SectFor, ByteCnt, At, Overlay, HeldApart, EntryOf, EntryClust, EntrySize,
      Ordered;
  }

  // ---------------------------------------------------------------- work on one file, seen by the other

  lemma OverlayOutside(g: Geo, v: Volume, w: Volume, all: seq<nat>, s: nat, data: Sector)
    requires SameOutside(g, v, w, all)
    ensures SameOutside(g, Overlay(v, s, data), Overlay(w, s, data), all)
  {
  }

  /** The bytes of the other file, its buffer included. */
  lemma BytesKept(g: Geo, v: Volume, u: Volume, w: Volume, all: seq<nat>, d: nat, xs: seq<nat>, s: nat, data: Sector)
    requires OnMedium(g, v, xs) && d < |v| == |w| && u == v[d := w[d]] && g.dataSect <= d && !IsDataSect(g, xs, d)
    requires SameOutside(g, u, w, all) && Disjoint(all, xs) && IsDataSect(g, xs, s) && s < |v|
    ensures v[s] == w[s] && Allocated(g, Overlay(v, s, data), xs) == Allocated(g, Overlay(w, s, data), xs)
  {
    hide Allocated, ClustOf, ClustersOk;
    var a, b, c := Overlay(v, s, data), Overlay(u, s, data), Overlay(w, s, data);
    OverlayOutside(g, u, w, all, s, data);
    OutsideKeepsBytes(g, b, c, all, xs);
    AllocatedSame(g, a, b, xs, d);
    NotIn(all, xs, ClustOf(g, s));
  }

  lemma NotIn(all: seq<nat>, xs: seq<nat>, x: nat)
    requires Disjoint(all, xs) && x in xs
    ensures x !in all
  {
  }

  /** The other file's chain and buffer still fit, and its bytes are what they were. */
  lemma ChainStillFits(g: Geo, v: Volume, w: Volume, c: nat, cs: seq<nat>, all: seq<nat>, d: nat, i: nat, h: Handle)
    requires Worked(g, v, w, cs, all, d, i) && ChainOn(g, w, c, all) && OnMedium(g, w, all)
    requires TwoHeads(Tab(g, v), c, cs, h.sclust, h.cs) && g.dataSect <= d && !IsDataSect(g, h.cs, d)
    requires ChainFits(g, v, h)
    ensures ChainFits(g, w, h) && Seen(g, w, h) == Seen(g, v, h) && TwoHeads(Tab(g, w), c, all, h.sclust, h.cs)
  {
    hide Tab, Allocated, ClustOf, ClustersOk, IsChain, IsHead, AllocOk, SameOutside, Mirrored, GrownTab, GeoOk,
      HoldsClusters, PutEntryIn, EntryOf, EntryClust, At, SectFor, ByteCnt, Disjoint, Overlay;
    var u := v[d := w[d]];
    DataKeepsTables(g, v, u);
    WorkKeepsOthers(g, v, w, c, cs, all, d, i, h.sclust, h.cs);
    HeadsDisjoint(Tab(g, w), c, all, h.sclust, h.cs);
    BytesKept(g, v, u, w, all, d, h.cs, h.sect, h.buf);
  }

  /** So does its entry. */
  lemma EntryStillFits(g: Geo, v: Volume, w: Volume, cs: seq<nat>, all: seq<nat>, d: nat, i: nat, h: Handle)
    requires Worked(g, v, w, cs, all, d, i) && g.dataSect <= d && EntryFits(g, v, h)
    requires HeldApart(g, v, cs, h.dirSect) && (d == h.dirSect ==> i != h.dirIdx / ENTRY_SIZE)
    ensures EntryFits(g, w, h) && HeldApart(g, w, all, h.dirSect)
  {
    hide Tab, ClustOf, PutEntryIn, EntryOf, EntryClust, EntrySize, Grown;
    var u, k := v[d := w[d]], h.dirIdx / ENTRY_SIZE;
    GrownSizes(g, u, w, cs, all);
    DataKeepsTables(g, v, u);
    HeldKept(g, u, w, cs, all, h.dirSect);
    if d == h.dirSect {
      EntryAfterPut(v[d], i, EntryOf(w[d], i), k);
    }
  }

  lemma GrownSizes(g: Geo, v: Volume, w: Volume, cs: seq<nat>, all: seq<nat>)
    requires Grown(g, v, w, cs, all)
    ensures GeoOk(g, |v|) && |w| == |v|
  {
  }

  // ---------------------------------------------------------------- two handles

  /** The file with the clusters cs and entry number idx of sector d, and the one with handle h: on one volume,
      different chains that nothing links to, different entries, neither entry in a cluster of the other file. */
  ghost predicate Neighbours(g: Geo, v: Volume, c: nat, cs: seq<nat>, d: nat, idx: nat, h: Handle) {
    && GeoOk(g, |v|) && ChainFits(g, v, h) && EntryFits(g, v, h) && TwoHeads(Tab(g, v), c, cs, h.sclust, h.cs)
    && HeldApart(g, v, cs, h.dirSect) && HeldApart(g, v, h.cs, d)
    && (d == h.dirSect ==> idx != h.dirIdx) && idx % ENTRY_SIZE == 0
  }

  /** Work on the one leaves the other what it was. */
  lemma NeighbourStays(g: Geo, v: Volume, w: Volume, c: nat, cs: seq<nat>, all: seq<nat>, d: nat, idx: nat, h: Handle)
    requires Neighbours(g, v, c, cs, d, idx, h) && Worked(g, v, w, cs, all, d, idx / ENTRY_SIZE)
    requires ChainOn(g, w, c, all) && OnMedium(g, w, all) && HeldApart(g, w, all, d)
    ensures Neighbours(g, w, c, all, d, idx, h) && TapeIn(g, w, h) == TapeIn(g, v, h)
  {
    hide Tab, AllocOk, IsHead, IsChain, Worked, ChainFits, EntryFits, HeldApart, TwoHeads, Seen;
    HeldMeans(g, v, h.cs, d);
    EntryIndex(g, v, h);
    IndexApart(idx, h.dirIdx);
    ChainStillFits(g, v, w, c, cs, all, d, idx / ENTRY_SIZE, h);
    EntryStillFits(g, v, w, cs, all, d, idx / ENTRY_SIZE, h);
    HeldApartLater(g, v, w, cs, all, d, idx / ENTRY_SIZE, h.cs);
    WorkedSizes(g, v, w, cs, all, d, idx / ENTRY_SIZE);
  }

  lemma EntryIndex(g: Geo, v: Volume, h: Handle)
    requires EntryFits(g, v, h)
    ensures h.dirIdx % ENTRY_SIZE == 0
  {
  }

  lemma WorkedSizes(g: Geo, v: Volume, w: Volume, cs: seq<nat>, all: seq<nat>, d: nat, i: nat)
    requires Worked(g, v, w, cs, all, d, i)
    ensures GeoOk(g, |v|) && |w| == |v|
  {
  }

  lemma HeldMeans(g: Geo, v: Volume, xs: seq<nat>, d: nat)
    requires HeldApart(g, v, xs, d)
    ensures g.dataSect <= d < |v| && !IsDataSect(g, xs, d)
  {
  }

  lemma IndexApart(x: nat, y: nat)
    requires x % ENTRY_SIZE == 0 && y % ENTRY_SIZE == 0
    ensures x / ENTRY_SIZE == y / ENTRY_SIZE ==> x == y
  {
  }

  /** The entry of the file worked on stays in a cluster that is in use and not the other file's. */
  lemma HeldApartLater(g: Geo, v: Volume, w: Volume, cs: seq<nat>, all: seq<nat>, d: nat, i: nat, xs: seq<nat>)
    requires Worked(g, v, w, cs, all, d, i) && HeldApart(g, v, xs, d) && HeldApart(g, w, all, d)
    ensures HeldApart(g, w, xs, d)
  {
  }

  ghost predicate Beside(a: File, b: File)
    reads a, b, a.fat, a.fat.dev
  {
    && a != b && a.fat == b.fat && Open(a) && Open(b)
    && Neighbours(a.fat.g, a.fat.Now(), a.sclust, a.cs, a.dirSect, a.dirIdx, HandleOf(b))
  }

  lemma BesideOpen(a: File, b: File)
    requires Beside(a, b)
    ensures a != b && a.fat == b.fat && Open(a) && Open(b) && a.fat.Valid()
  {
  }

  lemma BesideSwap(a: File, b: File)
    requires Beside(a, b)
    ensures Beside(b, a)
  {
    hide Open, Tab, AllocOk, IsHead, IsChain, ChainFits, EntryFits, HeldApart;
    OpenFits(a);
    EntryIndex(b.fat.g, b.fat.Now(), HandleOf(b));
  }

  /** The handle b is open for more, after work on a. */
  lemma StillOpen(a: File, b: File, was: nat)
    requires a != b && a.fat == b.fat && Open(a)
    requires Neighbours(a.fat.g, a.fat.Now(), a.sclust, a.cs, a.dirSect, a.dirIdx, HandleOf(b))
    requires Calm(b) && !IsDataSect(a.fat.g, b.cs, was)
    requires a.fat.sect == was || a.fat.sect < a.fat.g.dataSect || a.fat.sect == a.dirSect
    ensures Beside(a, b) && TapeOf(b) == TapeIn(a.fat.g, a.fat.Now(), HandleOf(b))
  {
    hide Tab, TwoHeads, ChainFits, EntryFits, HeldApart, Calm, Ordered, Seen;
    HeldMeans(a.fat.g, a.fat.Now(), b.cs, a.dirSect);
    SizeOf(a);
    FitsOpen(b);
    OpenFits(b);
  }

  lemma SizeOf(f: File)
    requires Open(f)
    ensures f.fat.Valid() && 2 <= f.fat.lastUsed < f.fat.g.clustCnt && |f.fat.Now()| == f.fat.size <= NO_SECT
  {
  }

  /** The clusters of the two entries. */
  ghost function Homes(a: File, b: File): set<nat> { {a.Home(), b.Home()} }

  lemma BesideHeads(a: File, b: File)
    requires Beside(a, b)
    ensures ChainOn(a.fat.g, a.fat.Now(), a.sclust, a.cs) && a.fat.g.dataSect <= a.dirSect
    ensures IsHead(Tab(a.fat.g, a.fat.Now()), b.sclust) && IsChain(Tab(a.fat.g, a.fat.Now()), b.sclust, b.cs)
    ensures a.sclust != b.sclust && AllocOk(Tab(a.fat.g, a.fat.Now()))
  {
    hide Open, Tab, AllocOk, IsHead, IsChain, ChainFits, EntryFits, HeldApart;
    OpenMeans(a);
  }

  /** One call on a: it answers like its byte array, and b is what it was. */
  method DoBeside(a: File, b: File, call: Call, ghost k: nat) returns (ok: bool, r: Reply)
    requires Beside(a, b) && k <= a.fat.at
    modifies a, a.fat, a.fat.dev
    ensures a.fat.Steady() && a.sclust == old(a.sclust)
    ensures !ok ==> a.fat.Refused() || NoWay(a.fat.g, old(a.fat.Now()), old(a.cs), old(TapeOf(a)), call)
    ensures Harmless(a.fat.g, old(a.fat.Now()), a.fat.Now(), {a.sclust, b.sclust}, Homes(a, b))
    ensures ok ==>
              && Beside(a, b) && TapeOf(b) == old(TapeOf(b))
              && Steps(a.canRead, a.canWrite, old(TapeOf(a)), call, TapeOf(a), r)
              && Worked(a.fat.g, old(a.fat.Now()), a.fat.Now(), old(a.cs), a.cs, a.dirSect, a.dirIdx / ENTRY_SIZE)
              && CountKept(a.fat.g, old(a.fat.Now()), old(a.fat.freeCnt), a.fat.Now(), a.fat.freeCnt)
    ensures ok && call.Syncing? ==>
              CardHolds(a.fat.g, a.fat.dev.sects, a.cs, a.dirSect, a.dirIdx / ENTRY_SIZE, a.Content())
    ensures a.canRead == old(a.canRead) && a.canWrite == old(a.canWrite)
    ensures AllSafe(a.fat.g, a.fat.size, old(a.fat.hist), k) ==> AllSafe(a.fat.g, a.fat.size, a.fat.hist, k)
  {
    hide Open, Neighbours, Worked, ChainFits, EntryFits, Ordered, IsDataSect, Steps, CardHolds, AllSafe, Later,
      AddWrap, HeldApart, TapeIn, ChainOn, OnMedium, Harmless, CountKept, File.Home, Beside, Tab, IsHead, IsChain,
      NoWay, NoMore, AllocOk;
    BesideOpen(a, b);
    BesideNeighbours(a, b);
    OpenFits(b);
    BesideHeads(a, b);
    ghost var v, cs, h, was, f := a.fat.Now(), a.cs, HandleOf(b), a.fat.sect, a.fat.freeCnt;
    ok, r := Do(a, call, k);
    HarmlessWider(a.fat.g, v, a.fat.Now(), a.sclust, b.sclust, h.cs, {a.Home()}, Homes(a, b));
    if ok {
      OpenMeans(a);
      NeighbourStays(a.fat.g, v, a.fat.Now(), a.sclust, cs, a.cs, a.dirSect, a.dirIdx, h);
      StillOpen(a, b, was);
      WorkedCounted(a.fat.g, v, f, a.fat.Now(), a.fat.freeCnt, a.sclust, cs, a.cs, a.dirSect, a.dirIdx / ENTRY_SIZE);
    }
  }

  lemma BesideNeighbours(a: File, b: File)
    requires Beside(a, b)
    ensures Neighbours(a.fat.g, a.fat.Now(), a.sclust, a.cs, a.dirSect, a.dirIdx, HandleOf(b))
  {
    hide Open, Neighbours;
  }

  // ---------------------------------------------------------------- any sequence of turns

  datatype Turn = Turn(second: bool, call: Call)

  datatype Access = Access(read: bool, write: bool)

  /** A turn is a call on one of two byte arrays and leaves the other alone. */
  predicate TurnTaken(p: Access, q: Access, turn: Turn, a: Tape, b: Tape, a': Tape, b': Tape, r: Reply) {
    if turn.second then a' == a && Steps(q.read, q.write, b, turn.call, b', r)
    else b' == b && Steps(p.read, p.write, a, turn.call, a', r)
  }

  predicate BothRun(p: Access, q: Access, left: seq<Tape>, right: seq<Tape>, turns: seq<Turn>, replies: seq<Reply>) {
    && |left| == |right| == |replies| + 1 && |replies| <= |turns|
    && forall i :: 0 <= i < |replies| ==>
         TurnTaken(p, q, turns[i], left[i], right[i], left[i + 1], right[i + 1], replies[i])
  }

  lemma BothStart(p: Access, q: Access, a: Tape, b: Tape, turns: seq<Turn>)
    ensures BothRun(p, q, [a], [b], turns, [])
  {
  }

  lemma BothStep(p: Access, q: Access, left: seq<Tape>, right: seq<Tape>, turns: seq<Turn>, replies: seq<Reply>,
                 a: Tape, b: Tape, r: Reply)
    requires BothRun(p, q, left, right, turns, replies) && |replies| < |turns|
    requires TurnTaken(p, q, turns[|replies|], left[|replies|], right[|replies|], a, b, r)
    ensures BothRun(p, q, left + [a], right + [b], turns, replies + [r])
  {
    hide TurnTaken;
  }

  /** The calls of the first n turns that were on the one file, and the answers to them. */
  function Calls(turns: seq<Turn>, second: bool, n: nat): (cs: seq<Call>)
    requires n <= |turns|
  {
    if n == 0 then []
    else Calls(turns, second, n - 1) + if turns[n - 1].second == second then [turns[n - 1].call] else []
  }

  function Answers(turns: seq<Turn>, replies: seq<Reply>, second: bool, n: nat): (rs: seq<Reply>)
    requires n <= |turns| && n <= |replies|
    ensures |rs| == |Calls(turns, second, n)|
  {
    if n == 0 then []
    else Answers(turns, replies, second, n - 1) + if turns[n - 1].second == second then [replies[n - 1]] else []
  }

  /** Taken for itself, what happened to one of the files is a run of that file alone. */
  lemma {:induction false} RunAlone(p: Access, q: Access, left: seq<Tape>, right: seq<Tape>, turns: seq<Turn>,
                                    replies: seq<Reply>,
                                    second: bool, n: nat) returns (tapes: seq<Tape>)
    requires BothRun(p, q, left, right, turns, replies) && n <= |replies|
    ensures var own, of := if second then right else left, if second then q else p;
      && Runs(of.read, of.write, tapes, Calls(turns, second, n), Answers(turns, replies, second, n))
      && tapes[0] == own[0] && tapes[|tapes| - 1] == own[n]
  {
    hide Steps;
    var own, of := if second then right else left, if second then q else p;
    tapes := [own[0]];
    if n > 0 {
      tapes := RunAlone(p, q, left, right, turns, replies, second, n - 1);
      assert TurnTaken(p, q, turns[n - 1], left[n - 1], right[n - 1], left[n], right[n], replies[n - 1]);
      if turns[n - 1].second == second {
        var calls, rs := Calls(turns, second, n - 1), Answers(turns, replies, second, n - 1);
        RunLonger(of.read, of.write, tapes, calls, rs, turns[n - 1].call);
        RunStep(of.read, of.write, tapes, calls + [turns[n - 1].call], rs, own[n], replies[n - 1]);
        tapes := tapes + [own[n]];
      }
    }
  }

  lemma RunLonger(read: bool, write: bool, tapes: seq<Tape>, calls: seq<Call>, replies: seq<Reply>, call: Call)
    requires Runs(read, write, tapes, calls, replies)
    ensures Runs(read, write, tapes, calls + [call], replies)
  {
    hide Steps;
  }

  /** The volume after a number of turns, and the clusters the two files have by then. */
  datatype Mark = Mark(vol: Volume, left: seq<nat>, right: seq<nat>)

  /** From each mark to the next there was work on the file whose turn it was, and on nothing else. */
  ghost predicate Trail(g: Geo, marks: seq<Mark>, turns: seq<Turn>, d: nat, i: nat, e: nat, j: nat) {
    && 0 < |marks| <= |turns| + 1
    && forall n :: 0 <= n < |marks| - 1 ==> TurnWorked(g, marks[n], marks[n + 1], turns[n].second, d, i, e, j)
  }

  ghost predicate TurnWorked(g: Geo, a: Mark, b: Mark, second: bool, d: nat, i: nat, e: nat, j: nat) {
    if second then b.left == a.left && Worked(g, a.vol, b.vol, a.right, b.right, e, j)
    else b.right == a.right && Worked(g, a.vol, b.vol, a.left, b.left, d, i)
  }

  lemma TrailStep(g: Geo, marks: seq<Mark>, turns: seq<Turn>, d: nat, i: nat, e: nat, j: nat, m: Mark)
    requires Trail(g, marks, turns, d, i, e, j) && |marks| <= |turns|
    requires TurnWorked(g, marks[|marks| - 1], m, turns[|marks| - 1].second, d, i, e, j)
    ensures Trail(g, marks + [m], turns, d, i, e, j)
  {
    hide TurnWorked;
  }

  ghost function MarkOf(a: File, b: File): Mark
    reads a, b, a.fat, a.fat.dev
  {
    Mark(a.fat.Now(), a.cs, b.cs)
  }

  /** What is in the way of a turn, is in the way of the one file. */
  ghost predicate NoTurn(g: Geo, m: Mark, a: Tape, b: Tape, turn: Turn) {
    if turn.second then NoWay(g, m.vol, m.right, b, turn.call) else NoWay(g, m.vol, m.left, a, turn.call)
  }

  method TakeTurn(a: File, b: File, turn: Turn, ghost k: nat) returns (ok: bool, r: Reply)
    requires Beside(a, b) && Open(a) && Open(b) && a.fat == b.fat && k <= a.fat.at
    modifies a, b, a.fat, a.fat.dev
    ensures a.fat.Steady() && a.sclust == old(a.sclust) && b.sclust == old(b.sclust)
    ensures !ok ==> a.fat.Refused() || NoTurn(a.fat.g, old(MarkOf(a, b)), old(TapeOf(a)), old(TapeOf(b)), turn)
    ensures Harmless(a.fat.g, old(a.fat.Now()), a.fat.Now(), {a.sclust, b.sclust}, Homes(a, b))
    ensures ok ==>
              && Beside(a, b) && Open(a) && Open(b)
              && TurnTaken(Access(a.canRead, a.canWrite), Access(b.canRead, b.canWrite), turn,
                           old(TapeOf(a)), old(TapeOf(b)), TapeOf(a), TapeOf(b), r)
              && TurnWorked(a.fat.g, old(MarkOf(a, b)), MarkOf(a, b), turn.second,
                            a.dirSect, a.dirIdx / ENTRY_SIZE, b.dirSect, b.dirIdx / ENTRY_SIZE)
              && CountKept(a.fat.g, old(a.fat.Now()), old(a.fat.freeCnt), a.fat.Now(), a.fat.freeCnt)
    ensures ok && turn.call.Syncing? ==> Synced(if turn.second then b else a)
    ensures a.canRead == old(a.canRead) && a.canWrite == old(a.canWrite)
    ensures b.canRead == old(b.canRead) && b.canWrite == old(b.canWrite)
    ensures AllSafe(a.fat.g, a.fat.size, old(a.fat.hist), k) ==> AllSafe(a.fat.g, a.fat.size, a.fat.hist, k)
  {
    hide Open, Beside, Steps, AllSafe, Later, Ordered, Harmless, Worked, CountKept, CardHolds, File.Home, NoWay;
    BesideOpen(a, b);
    if turn.second {
      BesideSwap(a, b);
      ok, r := DoBeside(b, a, turn.call, k);
      assert {a.sclust, b.sclust} == {b.sclust, a.sclust} && Homes(a, b) == Homes(b, a);
      if ok {
        BesideSwap(b, a);
        BesideOpen(a, b);
      }
    } else {
      ok, r := DoBeside(a, b, turn.call, k);
      if ok {
        BesideOpen(a, b);
      }
    }
  }

  /** The card alone holds the file. */
  ghost predicate Synced(f: File)
    requires Open(f)
    reads f, f.fat, f.fat.dev
  {
    CardHolds(f.fat.g, f.fat.dev.sects, f.cs, f.dirSect, f.dirIdx / ENTRY_SIZE, f.Content())
  }

  /** What has been seen of two files so far: their byte arrays, and the volume. */
  datatype Record = Record(left: seq<Tape>, right: seq<Tape>, marks: seq<Mark>)

  /** Where the entries are: sector and number. */
  datatype Places = Places(d: nat, i: nat, e: nat, j: nat)

  ghost predicate Recorded(g: Geo, p: Access, q: Access, turns: seq<Turn>, at: Places, rec: Record,
                           replies: seq<Reply>) {
    && |rec.left| == |rec.right| == |rec.marks| == |replies| + 1 <= |turns| + 1
    && BothRun(p, q, rec.left, rec.right, turns, replies) && Trail(g, rec.marks, turns, at.d, at.i, at.e, at.j)
  }

  /** The record begins with the one state and has come to the other. */
  ghost predicate FromTo(rec: Record, a: Tape, b: Tape, m: Mark, a': Tape, b': Tape, m': Mark) {
    && |rec.left| == |rec.right| == |rec.marks| > 0
    && rec.left[0] == a && rec.right[0] == b && rec.marks[0] == m
    && rec.left[|rec.left| - 1] == a' && rec.right[|rec.left| - 1] == b' && rec.marks[|rec.left| - 1] == m'
  }

  function Longer(rec: Record, a: Tape, b: Tape, m: Mark): Record {
    Record(rec.left + [a], rec.right + [b], rec.marks + [m])
  }

  lemma RecordStep(g: Geo, p: Access, q: Access, turns: seq<Turn>, at: Places, rec: Record, replies: seq<Reply>,
                   a0: Tape, b0: Tape, m0: Mark, a: Tape, b: Tape, m: Mark, a': Tape, b': Tape, m': Mark, r: Reply)
    requires Recorded(g, p, q, turns, at, rec, replies) && |replies| < |turns| && FromTo(rec, a0, b0, m0, a, b, m)
    requires TurnTaken(p, q, turns[|replies|], a, b, a', b', r)
    requires TurnWorked(g, m, m', turns[|replies|].second, at.d, at.i, at.e, at.j)
    ensures Recorded(g, p, q, turns, at, Longer(rec, a', b', m'), replies + [r])
    ensures FromTo(Longer(rec, a', b', m'), a0, b0, m0, a', b', m')
  {
    hide TurnTaken, TurnWorked, BothRun, Trail;
    BothStep(p, q, rec.left, rec.right, turns, replies, a', b', r);
    TrailStep(g, rec.marks, turns, at.d, at.i, at.e, at.j, m');
  }

  ghost function AccessOf(f: File): Access
    reads f
  {
    Access(f.canRead, f.canWrite)
  }

  ghost function PlacesOf(a: File, b: File): Places {
    Places(a.dirSect, a.dirIdx / ENTRY_SIZE, b.dirSect, b.dirIdx / ENTRY_SIZE)
  }

  /** Two files in use at once, in any order of calls: up to the first call that fails, each answers like a byte array
      of its own, whatever the other one does; on the volume there is work on the two files and nothing else; a sync at
      the end has put the content of its file on the card. A call only fails if a transfer did, or if it would fail on
      that file alone, and harms no third file. */
  method UseBoth(a: File, b: File, turns: seq<Turn>, ghost k: nat)
    returns (ok: bool, replies: seq<Reply>, ghost rec: Record)
    requires Beside(a, b) && k <= a.fat.at
    modifies a, b, a.fat, a.fat.dev
    ensures a.fat.Steady() && a.sclust == old(a.sclust) && b.sclust == old(b.sclust)
    ensures Harmless(a.fat.g, old(a.fat.Now()), a.fat.Now(), {a.sclust, b.sclust}, Homes(a, b))
    ensures Recorded(a.fat.g, old(AccessOf(a)), old(AccessOf(b)), turns, PlacesOf(a, b), rec, replies)
    ensures rec.left[0] == old(TapeOf(a)) && rec.right[0] == old(TapeOf(b)) && rec.marks[0] == old(MarkOf(a, b))
    ensures if ok then |replies| == |turns| else |replies| < |turns|
    ensures !ok ==>
              || a.fat.Refused()
              || NoTurn(a.fat.g, rec.marks[|replies|], rec.left[|replies|], rec.right[|replies|], turns[|replies|])
    ensures ok ==>
              && Beside(a, b) && FromTo(rec, old(TapeOf(a)), old(TapeOf(b)), old(MarkOf(a, b)),
                                        TapeOf(a), TapeOf(b), MarkOf(a, b))
              && CountKept(a.fat.g, old(a.fat.Now()), old(a.fat.freeCnt), a.fat.Now(), a.fat.freeCnt)
    ensures ok && |turns| > 0 && turns[|turns| - 1].call.Syncing? ==> Synced(if turns[|turns| - 1].second then b else a)
    ensures AccessOf(a) == old(AccessOf(a)) && AccessOf(b) == old(AccessOf(b))
    ensures AllSafe(a.fat.g, a.fat.size, old(a.fat.hist), k) ==> AllSafe(a.fat.g, a.fat.size, a.fat.hist, k)
  {
    hide Open, Beside, AllSafe, Later, Ordered, TurnTaken, GeoOk, Fat.Valid, Harmless, CountKept, TurnWorked, Synced,
      Homes, TapeOf, MarkOf, Recorded, FromTo, NoTurn;
    ghost var l0, v, f := a.fat.Past(), a.fat.Now(), a.fat.freeCnt;
    BesideOpen(a, b);
    ghost var p, q, at, ta, tb, m := AccessOf(a), AccessOf(b), PlacesOf(a, b), TapeOf(a), TapeOf(b), MarkOf(a, b);
    a.fat.Mounted();
    ok, replies, rec := true, [], Record([ta], [tb], [m]);
    BothBegin(a, b, turns);
    RecordBegins(a.fat.g, p, q, turns, at, ta, tb, m);
    LaterRefl(l0);
    while |replies| < |turns|
      invariant old(a.fat.dev.refused) <= a.fat.dev.refused
      invariant Beside(a, b) && Open(a) && Open(b) && a.fat.Valid() && Later(l0, a.fat.Past()) && k <= a.fat.at
      invariant |replies| <= |turns| && Recorded(a.fat.g, p, q, turns, at, rec, replies)
      invariant FromTo(rec, ta, tb, m, TapeOf(a), TapeOf(b), MarkOf(a, b))
      invariant a.sclust == old(a.sclust) && b.sclust == old(b.sclust)
      invariant Harmless(a.fat.g, v, a.fat.Now(), {a.sclust, b.sclust}, Homes(a, b))
      invariant CountKept(a.fat.g, v, f, a.fat.Now(), a.fat.freeCnt)
      invariant |replies| > 0 && turns[|replies| - 1].call.Syncing? ==>
                  Synced(if turns[|replies| - 1].second then b else a)
      invariant AccessOf(a) == p && AccessOf(b) == q
      invariant AllSafe(a.fat.g, a.fat.size, old(a.fat.hist), k) ==> AllSafe(a.fat.g, a.fat.size, a.fat.hist, k)
    {
      ghost var l, w, f1 := a.fat.Past(), a.fat.Now(), a.fat.freeCnt;
      ghost var xa, xb, xm := TapeOf(a), TapeOf(b), MarkOf(a, b);
      RecordMeans(rec, ta, tb, m, xa, xb, xm);
      RecordLength(a.fat.g, p, q, turns, at, rec, replies);
      var r;
      ok, r := TakeTurn(a, b, turns[|replies|], k);
      LaterTrans(l0, l, a.fat.Past());
      HarmlessTrans(a.fat.g, v, w, a.fat.Now(), {a.sclust, b.sclust}, Homes(a, b));
      if !ok {
        return;
      }
      LaterMeans(l0, a.fat.Past());
      CountChain(a.fat.g, v, f, w, f1, a.fat.Now(), a.fat.freeCnt);
      RecordStep(a.fat.g, p, q, turns, at, rec, replies, ta, tb, m, xa, xb, xm, TapeOf(a), TapeOf(b), MarkOf(a, b), r);
      rec, replies := Longer(rec, TapeOf(a), TapeOf(b), MarkOf(a, b)), replies + [r];
    }
    RecordMeans(rec, ta, tb, m, TapeOf(a), TapeOf(b), MarkOf(a, b));
  }

  lemma RecordLength(g: Geo, p: Access, q: Access, turns: seq<Turn>, at: Places, rec: Record, replies: seq<Reply>)
    requires Recorded(g, p, q, turns, at, rec, replies)
    ensures |rec.left| == |rec.right| == |rec.marks| == |replies| + 1
  {
  }

  lemma RecordMeans(rec: Record, a: Tape, b: Tape, m: Mark, a': Tape, b': Tape, m': Mark)
    requires FromTo(rec, a, b, m, a', b', m')
    ensures |rec.left| > 0 && |rec.right| > 0 && |rec.marks| > 0
    ensures rec.left[0] == a && rec.right[0] == b && rec.marks[0] == m
    ensures |rec.left| == |rec.right| == |rec.marks|
    ensures rec.left[|rec.left| - 1] == a' && rec.right[|rec.left| - 1] == b' && rec.marks[|rec.left| - 1] == m'
  {
  }

  lemma RecordBegins(g: Geo, p: Access, q: Access, turns: seq<Turn>, at: Places, a: Tape, b: Tape, m: Mark)
    requires Trail(g, [m], turns, at.d, at.i, at.e, at.j)
    ensures Recorded(g, p, q, turns, at, Record([a], [b], [m]), [])
    ensures FromTo(Record([a], [b], [m]), a, b, m, a, b, m)
  {
    BothStart(p, q, a, b, turns);
  }

  lemma CountChain(g: Geo, v: Volume, f: u32, w: Volume, f': u32, x: Volume, f'': u32)
    ensures CountKept(g, v, f, v, f)
    ensures CountKept(g, v, f, w, f') && CountKept(g, w, f', x, f'') ==> CountKept(g, v, f, x, f'')
  {
  }

  lemma BothBegin(a: File, b: File, turns: seq<Turn>)
    requires Open(a)
    ensures CountKept(a.fat.g, a.fat.Now(), a.fat.freeCnt, a.fat.Now(), a.fat.freeCnt)
    ensures Harmless(a.fat.g, a.fat.Now(), a.fat.Now(), {a.sclust, b.sclust}, Homes(a, b))
    ensures Trail(a.fat.g, [MarkOf(a, b)], turns, a.dirSect, a.dirIdx / ENTRY_SIZE, b.dirSect, b.dirIdx / ENTRY_SIZE)
  {
    hide Harmless, Worked, FreeCount, Tab;
    OpenMeans(a);
    HarmlessRefl(a.fat.g, a.fat.Now(), {a.sclust, b.sclust}, Homes(a, b));
  }
}
