/** What a program sees of an open file: any calls, in any order, against a byte array with a cursor. */
module Sessions {
  import opened Bytes
  import opened Chain
  import opened Layout
  import opened FatVolume
  import opened LongName
  import opened DirLayout
  import opened DirGrow
  import opened FileBytes
  import opened Files
  import opened Bystanders

  datatype Call =
    | Seeking(delta: int, from: Whence)
    | Reading(len: nat)
    | Writing(src: seq<byte>)
    | Syncing(date: nat, time: nat)

  datatype Reply = Reply(err: int, data: seq<byte>)

  /** The file as a program thinks of it. */
  datatype Tape = Tape(content: seq<byte>, cursor: nat)

  function BaseOf(a: Tape, from: Whence): nat {
    match from
    case FromStart => 0
    case FromCurrent => a.cursor
    case FromEnd => |a.content|
  }

  /** What a call makes of the byte array, and what it answers. Behind the end a seek may lie and a write may begin;
      the bytes of the gap are not determined. */
  predicate Steps(read: bool, write: bool, a: Tape, call: Call, b: Tape, r: Reply) {
    match call
    case Seeking(delta, from) =>
      var target := BaseOf(a, from) + delta;
      r.data == [] && b.content == a.content
      && if InRange(target) then r.err == ERR_NONE && b.cursor == target else r.err == ERR_EOF && b.cursor == a.cursor
    case Reading(len) =>
      && b.content == a.content && b.cursor == a.cursor + |r.data|
      && r.err == (if read then ERR_NONE else ERR_DENIED)
      && |r.data| == (if read then ReadCnt(a.cursor, |a.content|, len) else 0)
      && (r.data != [] ==> IsSlice(a.content, a.cursor, r.data))
    case Writing(src) =>
      && r.data == [] && r.err == (if write then ERR_NONE else ERR_DENIED)
      && if !write then b == a
         else
           && b.cursor == a.cursor + |src|
           && if a.cursor <= |a.content| then b.content == Overwritten(a.content, a.cursor, src)
              else a.content <= b.content && |b.content| == b.cursor && b.content[a.cursor..] == src
    case Syncing(_, _) =>
      b == a && r == Reply(ERR_NONE, [])
  }

  /** A run of calls, with the states between them. */
  predicate Runs(read: bool, write: bool, tapes: seq<Tape>, calls: seq<Call>, replies: seq<Reply>) {
    && |tapes| == |replies| + 1 && |replies| <= |calls|
    && forall i :: 0 <= i < |replies| ==> Steps(read, write, tapes[i], calls[i], tapes[i + 1], replies[i])
  }

  lemma RunStart(read: bool, write: bool, a: Tape, calls: seq<Call>)
    ensures Runs(read, write, [a], calls, [])
  {
  }

  lemma RunStep(read: bool, write: bool, tapes: seq<Tape>, calls: seq<Call>, replies: seq<Reply>, b: Tape, r: Reply)
    requires Runs(read, write, tapes, calls, replies) && |replies| < |calls|
    requires Steps(read, write, tapes[|replies|], calls[|replies|], b, r)
    ensures Runs(read, write, tapes + [b], calls, replies + [r])
  {
  }

  // ---------------------------------------------------------------- what a program can rely on

  /** Until somebody writes, nothing is written. */
  lemma {:induction false} QuietRun(read: bool, write: bool, tapes: seq<Tape>, calls: seq<Call>,
                                    replies: seq<Reply>, i: nat, j: nat)
    requires Runs(read, write, tapes, calls, replies) && i <= j <= |replies|
    requires forall k :: i <= k < j ==> !calls[k].Writing?
    ensures tapes[j].content == tapes[i].content
  {
    if i < j {
      QuietRun(read, write, tapes, calls, replies, i, j - 1);
      assert Steps(read, write, tapes[j - 1], calls[j - 1], tapes[j], replies[j - 1]);
    }
  }

  /** What was written at i is what a read of as many bytes at the same place delivers at j, whatever was read, sought
      and synced in between. */
  lemma {:induction false} ReadsWhatWasWritten(tapes: seq<Tape>, calls: seq<Call>, replies: seq<Reply>, i: nat, j: nat)
    requires Runs(true, true, tapes, calls, replies) && i < j < |replies|
    requires calls[i].Writing? && calls[j] == Reading(|calls[i].src|) && tapes[j].cursor == tapes[i].cursor
    requires forall k :: i < k < j ==> !calls[k].Writing?
    ensures replies[j] == Reply(ERR_NONE, calls[i].src)
  {
    QuietRun(true, true, tapes, calls, replies, i + 1, j);
    var a, b, src := tapes[i], tapes[i + 1], calls[i].src;
    assert Steps(true, true, a, calls[i], b, replies[i]);
    assert Steps(true, true, tapes[j], calls[j], tapes[j + 1], replies[j]);
    assert b.content[a.cursor..][..|src|] == src;
  }

  // ---------------------------------------------------------------- the entry

  predicate SameName(e: Entry, f: Entry) {
    e[..11] == f[..11] && EntryClust(e) == EntryClust(f) && (!IsLfn(e) ==> !IsLfn(f))
  }

  /** w is v after work on the file with the clusters cs, now all, whose entry is number i of sector d: the chain has
      grown, its bytes are new, the entry has a new state under its old name, and that is all. */
  ghost predicate Worked(g: Geo, v: Volume, w: Volume, cs: seq<nat>, all: seq<nat>, d: nat, i: nat) {
    && d < |v| == |w| && i < PER_SECTOR
    && Grown(g, v[d := w[d]], w, cs, all)
    && w[d] == PutEntryIn(v[d], i, EntryOf(w[d], i)) && SameName(EntryOf(v[d], i), EntryOf(w[d], i))
  }

  lemma WorkedStart(g: Geo, v: Volume, cs: seq<nat>, d: nat, i: nat)
    requires OnMedium(g, v, cs) && |cs| > 0 && d < |v| && i < PER_SECTOR
    ensures Worked(g, v, v, cs, cs, d, i)
  {
    hide Grown, OnMedium, PutEntryIn, EntryOf, EntryClust;
    OnMediumMeans(g, v, cs);
    assert v[d := v[d]] == v;
    GrownRefl(g, v, cs);
    EntryPutBack(v[d], i);
  }

  lemma OnMediumMeans(g: Geo, v: Volume, cs: seq<nat>)
    requires OnMedium(g, v, cs)
    ensures DataOk(g, |v|) && ClustersOk(g, cs)
  {
  }

  /** The data area may be changed below a growing file. */
  lemma GrownAbove(g: Geo, v: Volume, w: Volume, cs: seq<nat>, all: seq<nat>, d: nat, data: Sector)
    requires Grown(g, v, w, cs, all) && g.dataSect <= d < |v|
    ensures Grown(g, v[d := data], w[d := data], cs, all)
  {
    hide Tab, TabAt, Mirrored, ClustOf, GrownTab, HoldsClusters;
    DataKeepsTables(g, v, v[d := data]);
    DataKeepsTables(g, w, w[d := data]);
    MirroredAlike(g, v[d := data], v);
    MirroredAlike(g, w, w[d := data]);
  }

  lemma WorkedTrans(g: Geo, v: Volume, w: Volume, x: Volume, cs: seq<nat>, all: seq<nat>, more: seq<nat>, d: nat,
                    i: nat)
    requires Worked(g, v, w, cs, all, d, i) && Worked(g, w, x, all, more, d, i) && g.dataSect <= d
    ensures Worked(g, v, x, cs, more, d, i)
  {
    hide Grown, PutEntryIn, EntryOf, EntryClust;
    GrownAbove(g, v[d := w[d]], w, cs, all, d, x[d]);
    assert v[d := w[d]][d := x[d]] == v[d := x[d]];
    GrownTrans(g, v[d := x[d]], w[d := x[d]], x, cs, all, more);
    EntryPutTwice(v[d], i, EntryOf(w[d], i), EntryOf(x[d], i));
  }

  lemma EntryPutTwice(s: Sector, i: nat, e: Entry, f: Entry)
    requires i < PER_SECTOR
    ensures PutEntryIn(PutEntryIn(s, i, e), i, f) == PutEntryIn(s, i, f)
  {
  }

  /** A cluster in use is never taken by a growing chain. */
  lemma {:induction false} GrowSkips(t: Table, all: seq<nat>, n: nat, m: nat, x: nat)
    requires 1 <= n <= m <= |all| && (forall i :: 0 <= i < |all| ==> 2 <= all[i] < |t|)
    requires x < |t| && x !in all
    ensures Grow(t, all, n, m)[x] == t[x]
    decreases m
  {
    if m > n {
      GrowSkips(t, all, n, m - 1, x);
      assert all[m - 2] in all && all[m - 1] in all;
    }
  }

  /** Sector d lies in a cluster that is in use, and not in cs. */
  ghost predicate HeldApart(g: Geo, v: Volume, cs: seq<nat>, d: nat) {
    && GeoOk(g, |v|) && g.dataSect <= d < |v| && ClustOf(g, d) !in cs
    && ClustOf(g, d) < g.clustCnt && Tab(g, v)[ClustOf(g, d)] != 0
  }

  lemma HeldKept(g: Geo, v: Volume, w: Volume, cs: seq<nat>, all: seq<nat>, d: nat)
    requires Grown(g, v, w, cs, all) && HeldApart(g, v, cs, d)
    ensures HeldApart(g, w, all, d) && v[d] == w[d]
  {
    hide Tab, ClustOf, Mirrored;
    var t, x := Tab(g, v), ClustOf(g, d);
    forall i | 0 <= i < |all| ensures all[i] != x {
      assert i < |cs| ==> all[i] == cs[i];
    }
    GrowSkips(t, all, |cs|, |all|, x);
  }

  lemma HeldWorked(g: Geo, v: Volume, w: Volume, cs: seq<nat>, all: seq<nat>, d: nat, i: nat)
    requires Grown(g, v, w, cs, all) && HeldApart(g, v, cs, d) && i < PER_SECTOR
    ensures HeldApart(g, w, all, d) && Worked(g, v, w, cs, all, d, i) && v[d] == w[d]
  {
    hide Tab, ClustOf, Mirrored, GrownTab, EntryClust;
    HeldKept(g, v, w, cs, all, d);
    assert v[d := w[d]] == v;
    EntryPutBack(v[d], i);
  }

  /** A sync is work on the file, too. */
  lemma SyncWorked(g: Geo, v: Volume, w: Volume, cs: seq<nat>, d: nat, i: nat, accessed: bool, modified: bool,
                   size: u32, date: nat, time: nat)
    requires OnMedium(g, v, cs) && |cs| > 0 && HeldApart(g, v, cs, d) && i < PER_SECTOR
    requires SameButEntry(g, v, w, cs, d) && w[d] == PutEntryIn(v[d], i, EntryOf(w[d], i))
    requires EntryOf(w[d], i) == SyncedEntry(EntryOf(v[d], i), accessed, modified, size, date, time)
    ensures Worked(g, v, w, cs, cs, d, i) && HeldApart(g, w, cs, d)
    ensures EntrySize(EntryOf(w[d], i)) == if modified then size else EntrySize(EntryOf(v[d], i))
  {
    hide Tab, TabAt, Mirrored, ClustOf, SameOutside, PutEntryIn, EntryOf, EntryClust, EntrySize, SyncedEntry,
      HoldsClusters;
    SyncedEntryReads(EntryOf(v[d], i), accessed, modified, size, date, time);
    var u := v[d := w[d]];
    DataKeepsTables(g, v, u);
    MirroredAlike(g, u, v);
    OnMediumMeans(g, v, cs);
    LinksUsed(Tab(g, u), cs);
  }

  lemma LinksUsed(t: Table, cs: seq<nat>)
    requires |cs| > 0 && forall i :: 0 <= i < |cs| ==> 2 <= cs[i] < |t|
    ensures GrownTab(t, t, |cs|, cs)
  {
  }

  // ---------------------------------------------------------------- how far calls go

  /** How far into the file a call takes the cursor. */
  function CallEnd(a: Tape, call: Call): nat {
    match call
    case Seeking(delta, from) => if InRange(BaseOf(a, from) + delta) then BaseOf(a, from) + delta else a.cursor
    case Reading(len) => a.cursor + ReadCnt(a.cursor, |a.content|, len)
    case Writing(src) => a.cursor + |src|
    case Syncing(_, _) => 0
  }

  /** On a volume with a sound table and a card that takes every transfer, the one reason for a call to fail: a write
      past 32 bits, or too few clusters. */
  ghost predicate NoWay(g: Geo, v: Volume, cs: seq<nat>, a: Tape, call: Call) {
    || (call.Writing? && a.cursor + |call.src| > 0xffff_ffff)
    || (!call.Syncing? && Short(g, v, cs, CallEnd(a, call)))
  }

  /** How far a call can go beyond everything before it. */
  function Weight(call: Call): nat {
    match call
    case Seeking(delta, _) => if delta > 0 then delta else 0
    case Writing(src) => |src|
    case _ => 0
  }

  function Weights(calls: seq<Call>, n: nat): nat
    requires n <= |calls|
  {
    if n == 0 then 0 else Weights(calls, n - 1) + Weight(calls[n - 1])
  }

  lemma NoWeight(calls: seq<Call>)
    ensures Weights(calls, 0) == 0
  {
  }

  function Highest(a: Tape): nat { if a.cursor > |a.content| then a.cursor else |a.content| }

  lemma CallWeight(read: bool, write: bool, a: Tape, call: Call, b: Tape, r: Reply)
    ensures CallEnd(a, call) <= Highest(a) + Weight(call)
    ensures Steps(read, write, a, call, b, r) ==> Highest(b) <= Highest(a) + Weight(call)
  {
  }

  /** Up to call n a run gets no further than its weights tell. */
  lemma {:induction false} RunReach(read: bool, write: bool, tapes: seq<Tape>, calls: seq<Call>, replies: seq<Reply>,
                                    n: nat)
    requires Runs(read, write, tapes, calls, replies) && n <= |replies|
    ensures Highest(tapes[n]) <= Highest(tapes[0]) + Weights(calls, n)
    ensures n < |calls| ==> CallEnd(tapes[n], calls[n]) <= Highest(tapes[0]) + Weights(calls, n + 1)
  {
    hide Steps;
    if n > 0 {
      RunReach(read, write, tapes, calls, replies, n - 1);
      assert Steps(read, write, tapes[n - 1], calls[n - 1], tapes[n], replies[n - 1]);
      CallWeight(read, write, tapes[n - 1], calls[n - 1], tapes[n], replies[n - 1]);
    }
    if n < |calls| {
      CallWeight(read, write, tapes[n], calls[n], tapes[n], Reply(0, []));
    }
  }

  lemma {:induction false} WeightsMono(calls: seq<Call>, n: nat, m: nat)
    requires n <= m <= |calls|
    ensures Weights(calls, n) <= Weights(calls, m)
    decreases m
  {
    if n < m {
      WeightsMono(calls, n, m - 1);
    }
  }

  /** Work on a file keeps the table sound, and the sum of its clusters and the free ones. */
  lemma WorkedSound(g: Geo, v: Volume, w: Volume, c: nat, cs: seq<nat>, all: seq<nat>, d: nat, i: nat)
    requires Worked(g, v, w, cs, all, d, i) && g.dataSect <= d && ChainOn(g, v, c, cs) && ChainOn(g, w, c, all)
    ensures GeoOk(g, |v|) && |v| == |w| && |cs| <= |all| && (AllocOk(Tab(g, v)) ==> AllocOk(Tab(g, w)))
    ensures FreeCount(Tab(g, w)) + |all| == FreeCount(Tab(g, v)) + |cs|
  {
    hide Tab, FreeCount, AllocOk, IsChain, PutEntryIn, EntryOf, EntryClust, SameOutside, Mirrored, GrownTab;
    var u := v[d := w[d]];
    DataKeepsTables(g, v, u);
    GrownSound(g, u, w, c, cs, all);
  }

  // ---------------------------------------------------------------- the calls

  /** The card alone, without handle and buffers, holds the content in the chain the entry starts. */
  ghost predicate CardHolds(g: Geo, card: Volume, cs: seq<nat>, d: nat, i: nat, content: seq<byte>) {
    && d < |card| && i < PER_SECTOR && OnMedium(g, card, cs)
    && var e := EntryOf(card[d], i);
      && ChainOn(g, card, EntryClust(e), cs) && EntrySize(e) <= ByteCnt(g, cs)
      && Allocated(g, card, cs)[..EntrySize(e)] == content
  }

  ghost function TapeOf(f: File): Tape
    requires Open(f)
    reads f, f.fat, f.fat.dev
  {
    Tape(f.Content(), f.offset)
  }

  lemma TapeContent(f: File)
    requires Open(f)
    ensures TapeOf(f).content == f.Content()
  {
  }

  /** If a failed read has spoiled the volume's buffer, then not in the place of a sector that work on the file may ask
      for: a sector of the active table, FSInfo, or that of the entry. */
  ghost predicate Calm(f: File)
    reads f, f.fat
  {
    f.fat.spoiled ==>
      && !InTable(f.fat.g, f.fat.g.fat0, f.fat.sect) && f.fat.sect != f.fat.g.infoSect && f.fat.sect != f.dirSect
  }

  lemma CalmTrusts(f: File, c: nat)
    requires Calm(f) && f.fat.Valid() && c < f.fat.g.clustCnt
    ensures f.fat.Trusted(f.fat.FatSect(c)) && f.fat.Trusted(f.fat.g.infoSect) && f.fat.Trusted(f.dirSect)
  {
  }

  /** So every seek, read, write and sync may be asked for. */
  lemma CalmForAll(f: File, off: nat, n: nat)
    requires Calm(f) && f.Valid()
    ensures f.WalkTrusted(off) && f.AheadTrusted(n) && f.SyncTrusted()
  {
    hide ClustIdx;
    ChainClusts(f.fat.g, f.fat.Now(), f.sclust, f.cs, f.offset, f.clust);
    CalmTrusts(f, f.clust);
    CalmTrusts(f, f.sclust);
  }

  lemma ChainClusts(g: Geo, v: Volume, c: nat, cs: seq<nat>, off: nat, clust: nat)
    requires ChainOn(g, v, c, cs) && At(g, cs, off, clust)
    ensures c < g.clustCnt && clust < g.clustCnt
  {
    hide ClustNo;
    ChainLink(Tab(g, v), c, cs, ClustNo(g, off));
  }

  /** An open file whose entry is where it should be, and states the size unless that is still to be written. */
  ghost predicate Open(f: File)
    reads f, f.fat, f.fat.dev
  {
    && f.Ready() && f.HasEntry() && Calm(f) && HeldApart(f.fat.g, f.fat.Now(), f.cs, f.dirSect)
    && EntryClust(f.EntryNow()) == f.sclust && (f.modified || EntrySize(f.EntryNow()) == f.size)
  }

  lemma PrefixPart(a: seq<byte>, b: seq<byte>, n: nat)
    requires a <= b && n <= |a|
    ensures a[..n] == b[..n]
  {
  }

  /** Where the entry stands after the chain has grown. */
  lemma StillNamed(f: File, v: Volume, cs: seq<nat>, i: nat)
    requires f.Ready() && i < PER_SECTOR && i == f.dirIdx / ENTRY_SIZE && f.dirIdx < SECTOR_SIZE
    requires f.dirIdx % ENTRY_SIZE == 0
    requires HeldApart(f.fat.g, v, cs, f.dirSect) && Grown(f.fat.g, v, f.fat.Now(), cs, f.cs) && |v| == f.fat.size
    requires EntryClust(EntryOf(v[f.dirSect], i)) == f.sclust
    requires (f.modified || EntrySize(EntryOf(v[f.dirSect], i)) == f.size)
    requires Calm(f)
    ensures Open(f) && Worked(f.fat.g, v, f.fat.Now(), cs, f.cs, f.dirSect, i)
  {
    HeldWorked(f.fat.g, v, f.fat.Now(), cs, f.cs, f.dirSect, i);
  }

  method DoSeek(f: File, delta: int, from: Whence, ghost k: nat) returns (ok: bool, r: Reply)
    requires Open(f) && k <= f.fat.at
    modifies f, f.fat, f.fat.dev
    ensures f.fat.Steady()
    ensures !ok && AllocOk(Tab(f.fat.g, old(f.fat.Now()))) ==>
              f.fat.Refused() || NoWay(f.fat.g, old(f.fat.Now()), old(f.cs), old(TapeOf(f)), Seeking(delta, from))
    ensures ok ==> NoMore(f.fat.g, old(f.cs), f.cs, CallEnd(old(TapeOf(f)), Seeking(delta, from)))
    ensures Harmless(f.fat.g, old(f.fat.Now()), f.fat.Now(), {f.sclust}, {f.Home()})
    ensures ok ==>
              && Open(f) && Steps(f.canRead, f.canWrite, old(TapeOf(f)), Seeking(delta, from), TapeOf(f), r)
              && Worked(f.fat.g, old(f.fat.Now()), f.fat.Now(), old(f.cs), f.cs, f.dirSect, f.dirIdx / ENTRY_SIZE)
              && f.BufferAtEntry() && f.fat.freeCnt == AddWrap(old(f.fat.freeCnt), |old(f.cs)| - |f.cs|)
    ensures !ok ==> r.err != ERR_NONE
    ensures f.canRead == old(f.canRead) && f.canWrite == old(f.canWrite) && f.sclust == old(f.sclust)
    ensures AllSafe(f.fat.g, f.fat.size, old(f.fat.hist), k) ==> AllSafe(f.fat.g, f.fat.size, f.fat.hist, k)
  {
    hide Harmless, Ordered, Later, IsChain, ChainOn, AllSafe, SameData, SameSystem, SameOutside, Grown, ClustersOk,
      OnMedium, IsDataSect, Allocated, ByteCnt, SectOf, At, SectFor, Overlay, HeldApart, Worked, PutEntryIn, EntryOf,
      EntryClust, EntrySize, Overwrote, SameButEntry, FileOnCard, SyncedEntry, ClustIdx, AddWrap, ByteLimit, Short,
      NoMore, AllocOk, FreeUpTo, Tab;
    AddWrapTwice(f.fat.freeCnt, 0, 0);
    OpenMeans(f);
    CalmForAll(f, if InRange(f.Base(from) + delta) then f.Base(from) + delta else 0, 0);
    ghost var v, cs, all := f.fat.Now(), f.cs, f.Data();
    var err := f.Seek(delta, from, k);
    HarmlessMore(f.fat.g, v, f.fat.Now(), {f.sclust}, {f.Home()});
    NoMoreStart(f.fat.g, v, cs, old(f.offset));
    r := Reply(err, []);
    ok := err == ERR_NONE || err == ERR_EOF;
    if err == ERR_NONE {
      PrefixPart(all, f.Data(), f.size);
      StillNamed(f, v, cs, f.dirIdx / ENTRY_SIZE);
    } else if err == ERR_EOF {
      WorkedStart(f.fat.g, v, cs, f.dirSect, f.dirIdx / ENTRY_SIZE);
    }
  }

  method DoRead(f: File, len: nat, ghost k: nat) returns (ok: bool, r: Reply)
    requires Open(f) && k <= f.fat.at
    modifies f, f.fat, f.fat.dev
    ensures f.fat.Steady()
    ensures !ok && AllocOk(Tab(f.fat.g, old(f.fat.Now()))) ==>
              f.fat.Refused() || NoWay(f.fat.g, old(f.fat.Now()), old(f.cs), old(TapeOf(f)), Reading(len))
    ensures ok ==> NoMore(f.fat.g, old(f.cs), f.cs, CallEnd(old(TapeOf(f)), Reading(len)))
    ensures Harmless(f.fat.g, old(f.fat.Now()), f.fat.Now(), {f.sclust}, {f.Home()})
    ensures ok ==>
              && Open(f) && Steps(f.canRead, f.canWrite, old(TapeOf(f)), Reading(len), TapeOf(f), r)
              && Worked(f.fat.g, old(f.fat.Now()), f.fat.Now(), old(f.cs), f.cs, f.dirSect, f.dirIdx / ENTRY_SIZE)
              && f.BufferAtEntry() && f.fat.freeCnt == AddWrap(old(f.fat.freeCnt), |old(f.cs)| - |f.cs|)
    ensures !ok ==> r.err != ERR_NONE
    ensures f.canRead == old(f.canRead) && f.canWrite == old(f.canWrite) && f.sclust == old(f.sclust)
    ensures AllSafe(f.fat.g, f.fat.size, old(f.fat.hist), k) ==> AllSafe(f.fat.g, f.fat.size, f.fat.hist, k)
  {
    hide Harmless, Ordered, Later, IsChain, ChainOn, AllSafe, SameData, SameSystem, SameOutside, Grown, ClustersOk,
      OnMedium, IsDataSect, Allocated, ByteCnt, SectOf, At, SectFor, Overlay, HeldApart, Worked, PutEntryIn, EntryOf,
      EntryClust, EntrySize, Overwrote, SameButEntry, FileOnCard, SyncedEntry, ClustIdx, AddWrap, ByteLimit, Short,
      NoMore, AllocOk, FreeUpTo, Tab;
    AddWrapTwice(f.fat.freeCnt, 0, 0);
    OpenMeans(f);
    CalmForAll(f, 0, ReadCnt(f.offset, f.size, len));
    ghost var v, cs, all, a := f.fat.Now(), f.cs, f.Data(), TapeOf(f);
    var err, data := f.Read(len, k);
    HarmlessMore(f.fat.g, v, f.fat.Now(), {f.sclust}, {f.Home()});
    NoMoreStart(f.fat.g, v, cs, a.cursor + ReadCnt(a.cursor, |a.content|, len));
    r := Reply(err, data);
    ok := err == ERR_NONE || err == ERR_DENIED;
    if err == ERR_NONE {
      StillNamed(f, v, cs, f.dirIdx / ENTRY_SIZE);
      SliceWithin(all, a.content, f.size, a.cursor, data);
    } else if err == ERR_DENIED {
      WorkedStart(f.fat.g, v, cs, f.dirSect, f.dirIdx / ENTRY_SIZE);
    }
  }

  lemma SliceWithin(all: seq<byte>, content: seq<byte>, size: nat, from: nat, part: seq<byte>)
    requires IsSlice(all, from, part) && size <= |all| && content == all[..size]
    requires (part != [] ==> from + |part| <= size)
    ensures part != [] ==> IsSlice(content, from, part)
  {
  }

  method DoWrite(f: File, src: seq<byte>, ghost k: nat) returns (ok: bool, r: Reply)
    requires Open(f) && k <= f.fat.at
    modifies f, f.fat, f.fat.dev
    ensures f.fat.Steady()
    ensures !ok && AllocOk(Tab(f.fat.g, old(f.fat.Now()))) ==>
              f.fat.Refused() || NoWay(f.fat.g, old(f.fat.Now()), old(f.cs), old(TapeOf(f)), Writing(src))
    ensures ok ==> NoMore(f.fat.g, old(f.cs), f.cs, CallEnd(old(TapeOf(f)), Writing(src)))
    ensures Harmless(f.fat.g, old(f.fat.Now()), f.fat.Now(), {f.sclust}, {f.Home()})
    ensures ok ==>
              && Open(f) && Steps(f.canRead, f.canWrite, old(TapeOf(f)), Writing(src), TapeOf(f), r)
              && Worked(f.fat.g, old(f.fat.Now()), f.fat.Now(), old(f.cs), f.cs, f.dirSect, f.dirIdx / ENTRY_SIZE)
              && f.BufferAtEntry() && f.fat.freeCnt == AddWrap(old(f.fat.freeCnt), |old(f.cs)| - |f.cs|)
    ensures f.canRead == old(f.canRead) && f.canWrite == old(f.canWrite) && f.sclust == old(f.sclust)
    ensures AllSafe(f.fat.g, f.fat.size, old(f.fat.hist), k) ==> AllSafe(f.fat.g, f.fat.size, f.fat.hist, k)
  {
    hide Harmless, Ordered, Later, IsChain, ChainOn, AllSafe, SameData, SameSystem, SameOutside, Grown, ClustersOk,
      OnMedium, IsDataSect, Allocated, ByteCnt, SectOf, At, SectFor, Overlay, HeldApart, Worked, PutEntryIn, EntryOf,
      EntryClust, EntrySize, Overwrote, SameButEntry, FileOnCard, SyncedEntry, ClustIdx, AddWrap, ByteLimit, Short,
      NoMore, AllocOk, FreeUpTo, Tab;
    AddWrapTwice(f.fat.freeCnt, 0, 0);
    OpenMeans(f);
    CalmForAll(f, 0, |src|);
    ghost var v, cs, all, a := f.fat.Now(), f.cs, f.Data(), TapeOf(f);
    var err, bytes, done;
    ghost var why;
    err, bytes, done, why := f.Write(src, k);
    HarmlessMore(f.fat.g, v, f.fat.Now(), {f.sclust}, {f.Home()});
    NoMoreStart(f.fat.g, v, cs, a.cursor + |src|);
    r := Reply(err, []);
    ok := done || err == ERR_DENIED;
    if err == ERR_DENIED {
      WorkedStart(f.fat.g, v, cs, f.dirSect, f.dirIdx / ENTRY_SIZE);
    } else if done {
      StillNamed(f, v, cs, f.dirIdx / ENTRY_SIZE);
      OverwrotePast(all, f.Data(), a.cursor, src, |a.content|);
    }
  }

  /** Writing behind the end. */
  lemma OverwrotePast(was: seq<byte>, now: seq<byte>, off: nat, part: seq<byte>, size: nat)
    requires Overwrote(was, now, off, part) && size <= |was|
    ensures off > size ==> was[..size] <= now[..off + |part|] && now[..off + |part|][off..] == part
  {
  }

  lemma SyncedOpen(f: File, v: Volume, e: Entry, data: seq<byte>, accessed: bool, modified: bool, date: nat, time: nat)
    requires f.Ready() && f.HasEntry() && Calm(f) && OnMedium(f.fat.g, v, f.cs)
    requires HeldApart(f.fat.g, v, f.cs, f.dirSect)
    requires |v| == f.fat.size && e == EntryOf(v[f.dirSect], f.dirIdx / ENTRY_SIZE)
    requires EntryClust(e) == f.sclust && (modified || EntrySize(e) == f.size)
    requires SameButEntry(f.fat.g, v, f.fat.Now(), f.cs, f.dirSect)
    requires f.fat.Now()[f.dirSect] == PutEntryIn(v[f.dirSect], f.dirIdx / ENTRY_SIZE, f.EntryNow())
    requires f.EntryNow() == SyncedEntry(e, accessed, modified, f.size, date, time) && f.fat.dev.sects == f.fat.Now()
    requires FileOnCard(f.fat.g, f.fat.dev.sects, f.sclust, f.cs, data, f.dirSect, f.dirIdx, f.EntryNow())
    requires f.size <= |data| && data[..f.size] == f.Content()
    ensures Open(f) && Worked(f.fat.g, v, f.fat.Now(), f.cs, f.cs, f.dirSect, f.dirIdx / ENTRY_SIZE)
    ensures CardHolds(f.fat.g, f.fat.dev.sects, f.cs, f.dirSect, f.dirIdx / ENTRY_SIZE, f.Content())
  {
    hide HeldApart, SameButEntry, PutEntryIn, EntryOf, SyncedEntry, EntryClust, EntrySize, IsChain, Allocated,
      ClustersOk, SectFor, ByteCnt, At, Overlay, Tab;
    ReadyMeans(f);
    SyncWorked(f.fat.g, v, f.fat.Now(), f.cs, f.dirSect, f.dirIdx / ENTRY_SIZE, accessed, modified, f.size, date, time);
    SyncedEntryReads(e, accessed, modified, f.size, date, time);
  }

  lemma ReadyMeans(f: File)
    requires f.Ready()
    ensures |f.cs| > 0 && OnMedium(f.fat.g, f.fat.Now(), f.cs)
  {
  }

  method DoSync(f: File, date: nat, time: nat, ghost k: nat) returns (ok: bool, r: Reply)
    requires Open(f) && k <= f.fat.at
    modifies f, f.fat, f.fat.dev
    ensures f.fat.Steady()
    ensures !ok && AllocOk(Tab(f.fat.g, old(f.fat.Now()))) ==>
              f.fat.Refused() || NoWay(f.fat.g, old(f.fat.Now()), old(f.cs), old(TapeOf(f)), Syncing(date, time))
    ensures ok ==> NoMore(f.fat.g, old(f.cs), f.cs, CallEnd(old(TapeOf(f)), Syncing(date, time)))
    ensures Harmless(f.fat.g, old(f.fat.Now()), f.fat.Now(), {f.sclust}, {f.Home()})
    ensures ok ==>
              && Open(f) && Steps(f.canRead, f.canWrite, old(TapeOf(f)), Syncing(date, time), TapeOf(f), r)
              && Worked(f.fat.g, old(f.fat.Now()), f.fat.Now(), old(f.cs), f.cs, f.dirSect, f.dirIdx / ENTRY_SIZE)
              && f.BufferAtEntry() && f.fat.freeCnt == AddWrap(old(f.fat.freeCnt), |old(f.cs)| - |f.cs|)
              && CardHolds(f.fat.g, f.fat.dev.sects, f.cs, f.dirSect, f.dirIdx / ENTRY_SIZE, f.Content())
              && f.fat.dev.sects == f.fat.Now()
    ensures !ok ==> r.err != ERR_NONE
    ensures f.canRead == old(f.canRead) && f.canWrite == old(f.canWrite) && f.sclust == old(f.sclust)
    ensures AllSafe(f.fat.g, f.fat.size, old(f.fat.hist), k) ==> AllSafe(f.fat.g, f.fat.size, f.fat.hist, k)
  {
    hide Harmless, Ordered, Later, IsChain, ChainOn, AllSafe, SameData, SameSystem, SameOutside, Grown, ClustersOk,
      OnMedium, IsDataSect, Allocated, ByteCnt, SectOf, At, SectFor, Overlay, HeldApart, Worked, PutEntryIn, EntryOf,
      EntryClust, EntrySize, Overwrote, SameButEntry, FileOnCard, SyncedEntry, ClustIdx, AddWrap, ByteLimit, Short,
      NoMore, AllocOk, FreeUpTo, Tab;
    AddWrapTwice(f.fat.freeCnt, 0, 0);
    OpenMeans(f);
    CalmForAll(f, 0, 0);
    ghost var v, e, data, accessed, modified := f.fat.Now(), f.EntryNow(), f.Data(), f.accessed, f.modified;
    var err := f.Sync(date, time, k);
    r := Reply(err, []);
    NoMoreStart(f.fat.g, v, f.cs, 0);
    ok := err == ERR_NONE;
    if ok {
      SyncedOpen(f, v, e, data, accessed, modified, date, time);
    }
  }

  lemma SomeBytes(g: Geo, v: Volume, c: nat, cs: seq<nat>)
    requires ChainOn(g, v, c, cs)
    ensures ByteCnt(g, cs) > 0
  {
    FirstOffset(g, cs);
  }

  /** The last step of fat_file_open: with the first seek a handle is ready for use. */
  method Start(f: File, append: bool, ghost k: nat) returns (err: int)
    requires f.Valid() && Calm(f) && f.offset == 0 && k <= f.fat.at
    requires f.HasEntry() && HeldApart(f.fat.g, f.fat.Now(), f.cs, f.dirSect)
    requires EntryClust(f.EntryNow()) == f.sclust && (f.modified || EntrySize(f.EntryNow()) == f.size)
    modifies f, f.fat, f.fat.dev
    ensures f.fat.Steady()
    ensures AllocOk(Tab(f.fat.g, old(f.fat.Now()))) && err != ERR_NONE ==>
              f.fat.Refused() || (append && Short(f.fat.g, old(f.fat.Now()), old(f.cs), old(f.size)))
    ensures err == ERR_NONE ==> NoMore(f.fat.g, old(f.cs), f.cs, if append then old(f.size) else 0)
    ensures err == ERR_IO ==> f.fat.Refused()
    ensures err != ERR_DENIED && err != ERR_PATH
    ensures Harmless(f.fat.g, old(f.fat.Now()), f.fat.Now(), {f.sclust}, {f.Home()})
    ensures err == ERR_NONE ==>
              && Open(f) && TapeOf(f) == Tape(old(f.Content()), if append then f.size else 0)
              && Worked(f.fat.g, old(f.fat.Now()), f.fat.Now(), old(f.cs), f.cs, f.dirSect, f.dirIdx / ENTRY_SIZE)
              && f.BufferAtEntry() && f.fat.freeCnt == AddWrap(old(f.fat.freeCnt), |old(f.cs)| - |f.cs|)
    ensures f.canRead == old(f.canRead) && f.canWrite == old(f.canWrite) && f.sclust == old(f.sclust)
    ensures AllSafe(f.fat.g, f.fat.size, old(f.fat.hist), k) ==> AllSafe(f.fat.g, f.fat.size, f.fat.hist, k)
  {
    hide Harmless, Ordered, Later, IsChain, ChainOn, AllSafe, SameData, SameSystem, SameOutside, Grown, ClustersOk,
      OnMedium, IsDataSect, Allocated, ByteCnt, SectOf, At, SectFor, Overlay, HeldApart, Worked, PutEntryIn, EntryOf,
      EntryClust, EntrySize, ClustIdx, AddWrap, Short, NoMore, AllocOk, FreeUpTo, Tab;
    CalmForAll(f, if append then f.size else 0, 0);
    ghost var v, cs, all := f.fat.Now(), f.cs, f.Data();
    SomeBytes(f.fat.g, v, f.sclust, cs);
    err := f.Seek(0, if append then FromEnd else FromStart, k);
    HarmlessMore(f.fat.g, v, f.fat.Now(), {f.sclust}, {f.Home()});
    if err == ERR_NONE {
      PrefixPart(all, f.Data(), f.size);
      StillNamed(f, v, cs, f.dirIdx / ENTRY_SIZE);
    }
  }

  /** One call. not ok: a transfer failed, the table is broken, or the volume is full; for a write that is more than
      the driver tells. */
  method Do(f: File, call: Call, ghost k: nat) returns (ok: bool, r: Reply)
    requires Open(f) && k <= f.fat.at
    modifies f, f.fat, f.fat.dev
    ensures f.fat.Steady()
    ensures !ok && AllocOk(Tab(f.fat.g, old(f.fat.Now()))) ==>
              f.fat.Refused() || NoWay(f.fat.g, old(f.fat.Now()), old(f.cs), old(TapeOf(f)), call)
    ensures ok ==> NoMore(f.fat.g, old(f.cs), f.cs, CallEnd(old(TapeOf(f)), call))
    ensures Harmless(f.fat.g, old(f.fat.Now()), f.fat.Now(), {f.sclust}, {f.Home()})
    ensures ok ==>
              && Open(f) && Steps(f.canRead, f.canWrite, old(TapeOf(f)), call, TapeOf(f), r)
              && Worked(f.fat.g, old(f.fat.Now()), f.fat.Now(), old(f.cs), f.cs, f.dirSect, f.dirIdx / ENTRY_SIZE)
              && f.BufferAtEntry() && f.fat.freeCnt == AddWrap(old(f.fat.freeCnt), |old(f.cs)| - |f.cs|)
    ensures ok && call.Syncing? ==>
              && CardHolds(f.fat.g, f.fat.dev.sects, f.cs, f.dirSect, f.dirIdx / ENTRY_SIZE, f.Content())
              && f.fat.dev.sects == f.fat.Now()
    ensures !ok ==> call.Writing? || r.err != ERR_NONE
    ensures f.canRead == old(f.canRead) && f.canWrite == old(f.canWrite) && f.sclust == old(f.sclust)
    ensures AllSafe(f.fat.g, f.fat.size, old(f.fat.hist), k) ==> AllSafe(f.fat.g, f.fat.size, f.fat.hist, k)
  {
    hide Harmless, Open, Steps, Worked, CardHolds, AllSafe, Later, NoWay, NoMore, AllocOk, FreeUpTo, Tab, CallEnd;
    match call
    case Seeking(delta, from) => ok, r := DoSeek(f, delta, from, k);
    case Reading(len) => ok, r := DoRead(f, len, k);
    case Writing(src) => ok, r := DoWrite(f, src, k);
    case Syncing(date, time) => ok, r := DoSync(f, date, time, k);
  }

  /** A run that has come from the one byte array to the other. */
  ghost predicate Told(read: bool, write: bool, tapes: seq<Tape>, calls: seq<Call>, replies: seq<Reply>, first: Tape,
                       last: Tape) {
    Runs(read, write, tapes, calls, replies) && tapes[0] == first && tapes[|replies|] == last
  }

  lemma ToldStart(read: bool, write: bool, a: Tape, calls: seq<Call>)
    ensures Told(read, write, [a], calls, [], a, a)
  {
    RunStart(read, write, a, calls);
  }

  lemma ToldMeans(read: bool, write: bool, tapes: seq<Tape>, calls: seq<Call>, replies: seq<Reply>, first: Tape,
                  last: Tape)
    requires Told(read, write, tapes, calls, replies, first, last)
    ensures Runs(read, write, tapes, calls, replies) && |tapes| == |replies| + 1
    ensures tapes[0] == first && tapes[|replies|] == last
  {
  }

  lemma ToldReach(read: bool, write: bool, tapes: seq<Tape>, calls: seq<Call>, replies: seq<Reply>, first: Tape,
                  last: Tape)
    requires Told(read, write, tapes, calls, replies, first, last) && |replies| < |calls|
    ensures Runs(read, write, tapes, calls, replies) && |tapes| == |replies| + 1
    ensures tapes[0] == first && tapes[|replies|] == last
    ensures CallEnd(last, calls[|replies|]) <= Highest(first) + Weights(calls, |replies| + 1)
  {
    RunReach(read, write, tapes, calls, replies, |replies|);
  }

  lemma ToldStep(read: bool, write: bool, tapes: seq<Tape>, calls: seq<Call>, replies: seq<Reply>, first: Tape,
                 last: Tape, b: Tape, r: Reply)
    requires Told(read, write, tapes, calls, replies, first, last) && |replies| < |calls|
    requires Steps(read, write, last, calls[|replies|], b, r)
    ensures Told(read, write, tapes + [b], calls, replies + [r], first, b)
  {
    hide Steps;
    RunStep(read, write, tapes, calls, replies, b, r);
  }

  /** What a run of calls on the file that starts at c makes of the volume v with the free count f: work on that file,
      as far as offset top asks for it. */
  ghost predicate Along(g: Geo, v: Volume, f: u32, w: Volume, f': u32, c: nat, cs: seq<nat>, all: seq<nat>, d: nat,
                        i: nat, home: nat, top: nat) {
    && Worked(g, v, w, cs, all, d, i) && Harmless(g, v, w, {c}, {home}) && f' == AddWrap(f, |cs| - |all|)
    && NoMore(g, cs, all, top)
  }

  lemma AlongStart(g: Geo, v: Volume, f: u32, c: nat, cs: seq<nat>, d: nat, i: nat, home: nat, top: nat)
    requires ChainOn(g, v, c, cs) && OnMedium(g, v, cs) && |cs| > 0 && d < |v| && i < PER_SECTOR
    ensures Along(g, v, f, v, f, c, cs, cs, d, i, home, top)
  {
    hide Worked, Harmless, AddWrap;
    WorkedStart(g, v, cs, d, i);
    HarmlessAny(g, v, c, cs, {home});
    AddWrapTwice(f, 0, 0);
    NoMoreStart(g, v, cs, top);
  }

  /** A call more, also one that fails. */
  lemma AlongStep(g: Geo, v: Volume, f: u32, w: Volume, f1: u32, x: Volume, f2: u32, c: nat, cs: seq<nat>,
                  all: seq<nat>, more: seq<nat>, d: nat, i: nat, home: nat, top: nat, off: nat, end: nat)
    requires Along(g, v, f, w, f1, c, cs, all, d, i, home, top) && g.dataSect <= d && Harmless(g, w, x, {c}, {home})
    requires top <= end && off <= end
    ensures Harmless(g, v, x, {c}, {home})
    ensures Worked(g, w, x, all, more, d, i) && f2 == AddWrap(f1, |all| - |more|) && NoMore(g, all, more, off) ==>
              Along(g, v, f, x, f2, c, cs, more, d, i, home, end)
  {
    hide Worked, Harmless, AddWrap, ClustNo;
    HarmlessTrans(g, v, w, x, {c}, {home});
    if Worked(g, w, x, all, more, d, i) && NoMore(g, all, more, off) {
      WorkedTrans(g, v, w, x, cs, all, more, d, i);
      AddWrapTwice(f, |cs| - |all|, |all| - |more|);
      ClustNoMono(g, top, end);
      ClustNoMono(g, off, end);
    }
  }

  lemma AlongCounted(g: Geo, v: Volume, f: u32, w: Volume, f': u32, c: nat, cs: seq<nat>, all: seq<nat>, d: nat,
                     i: nat, home: nat, top: nat)
    requires Along(g, v, f, w, f', c, cs, all, d, i, home, top) && g.dataSect <= d
    requires ChainOn(g, v, c, cs) && ChainOn(g, w, c, all)
    ensures Worked(g, v, w, cs, all, d, i) && CountKept(g, v, f, w, f') && NoMore(g, cs, all, top)
    ensures Harmless(g, v, w, {c}, {home})
  {
    hide Worked, Harmless, AddWrap, CountKept, IsChain;
    WorkedCounted(g, v, f, w, f', c, cs, all, d, i);
  }

  /** What stands in the way of a call now did so at the start of the run. */
  lemma NoWayBefore(g: Geo, v: Volume, f: u32, w: Volume, f': u32, c: nat, cs: seq<nat>, all: seq<nat>, d: nat,
                    i: nat, home: nat, top: nat, a: Tape, call: Call)
    requires Along(g, v, f, w, f', c, cs, all, d, i, home, top) && g.dataSect <= d
    requires ChainOn(g, v, c, cs) && ChainOn(g, w, c, all)
    ensures GeoOk(g, |v|) && |v| == |w| && (AllocOk(Tab(g, v)) ==> AllocOk(Tab(g, w)))
    ensures NoWay(g, w, all, a, call) ==> NoWay(g, v, cs, a, call)
  {
    hide Worked, Harmless, AddWrap, Tab, AllocOk, FreeCount, IsChain;
    WorkedSound(g, v, w, c, cs, all, d, i);
  }

  lemma ToldLength(read: bool, write: bool, tapes: seq<Tape>, calls: seq<Call>, replies: seq<Reply>, first: Tape,
                   last: Tape)
    requires Told(read, write, tapes, calls, replies, first, last)
    ensures |tapes| == |replies| + 1 && |replies| <= |calls|
  {
  }

  /** The next call of a run that began with first, on the volume v with the free count f0, when the file had the
      clusters cs. */
  method UseOne(f: File, calls: seq<Call>, replies: seq<Reply>, ghost k: nat, ghost v: Volume, ghost f0: u32,
                ghost cs: seq<nat>, ghost tapes: seq<Tape>, ghost first: Tape, ghost top: nat)
    returns (ok: bool, r: Reply)
    requires Open(f) && k <= f.fat.at && |replies| < |calls| && top == Highest(first)
    requires Told(f.canRead, f.canWrite, tapes, calls, replies, first, TapeOf(f)) && ChainOn(f.fat.g, v, f.sclust, cs)
    requires Along(f.fat.g, v, f0, f.fat.Now(), f.fat.freeCnt, f.sclust, cs, f.cs, f.dirSect, f.dirIdx / ENTRY_SIZE,
                   f.Home(), top + Weights(calls, |replies|))
    modifies f, f.fat, f.fat.dev
    ensures f.fat.Steady() && Harmless(f.fat.g, v, f.fat.Now(), {f.sclust}, {f.Home()})
    ensures ok ==>
              && Open(f) && f.BufferAtEntry()
              && Told(f.canRead, f.canWrite, tapes + [TapeOf(f)], calls, replies + [r], first, TapeOf(f))
              && Along(f.fat.g, v, f0, f.fat.Now(), f.fat.freeCnt, f.sclust, cs, f.cs, f.dirSect,
                       f.dirIdx / ENTRY_SIZE, f.Home(), top + Weights(calls, |replies| + 1))
    ensures ok && calls[|replies|].Syncing? ==>
              && CardHolds(f.fat.g, f.fat.dev.sects, f.cs, f.dirSect, f.dirIdx / ENTRY_SIZE, TapeOf(f).content)
              && f.fat.dev.sects == f.fat.Now()
    ensures !ok && GeoOk(f.fat.g, |v|) && AllocOk(Tab(f.fat.g, v)) ==>
              f.fat.Refused() || NoWay(f.fat.g, v, cs, old(TapeOf(f)), calls[|replies|])
    ensures f.canRead == old(f.canRead) && f.canWrite == old(f.canWrite) && f.sclust == old(f.sclust)
    ensures AllSafe(f.fat.g, f.fat.size, old(f.fat.hist), k) ==> AllSafe(f.fat.g, f.fat.size, f.fat.hist, k)
  {
    hide Open, Steps, Worked, CardHolds, AllSafe, Later, Runs, Ordered, IsChain, ChainOn, SameOutside, ClustersOk,
      OnMedium, IsDataSect, Allocated, ByteCnt, At, SectFor, Overlay, Calm, AddWrap, CountKept, Fat.Valid, NoWay,
      NoMore, AllocOk, FreeUpTo, Tab, CallEnd, Harmless, Along, Highest, TapeOf, Told;
    ghost var w, all, f1, n, a := f.fat.Now(), f.cs, f.fat.freeCnt, |replies|, TapeOf(f);
    ghost var d, i := f.dirSect, f.dirIdx / ENTRY_SIZE;
    OpenParts(f);
    ToldReach(f.canRead, f.canWrite, tapes, calls, replies, first, a);
    NoWayBefore(f.fat.g, v, f0, w, f1, f.sclust, cs, all, d, i, f.Home(), top + Weights(calls, n), a, calls[n]);
    ok, r := Do(f, calls[|replies|], k);
    AlongStep(f.fat.g, v, f0, w, f1, f.fat.Now(), f.fat.freeCnt, f.sclust, cs, all, f.cs, d, i, f.Home(),
              top + Weights(calls, n), CallEnd(a, calls[n]), top + Weights(calls, n + 1));
    if ok {
      TapeContent(f);
      ToldStep(f.canRead, f.canWrite, tapes, calls, replies, first, a, TapeOf(f), r);
    }
  }

  /** Any calls in any order. Up to the first that fails, the file answers like the byte array; nothing but the file
      and its entry has changed; and a sync at the end has put the content on the card. */
  method Use(f: File, calls: seq<Call>, ghost k: nat) returns (ok: bool, replies: seq<Reply>, ghost tapes: seq<Tape>)
    requires Open(f) && k <= f.fat.at
    modifies f, f.fat, f.fat.dev
    ensures f.fat.Steady()
    ensures Harmless(f.fat.g, old(f.fat.Now()), f.fat.Now(), {f.sclust}, {f.Home()})
    ensures Runs(f.canRead, f.canWrite, tapes, calls, replies) && tapes[0] == old(TapeOf(f))
    ensures if ok then |replies| == |calls| else |replies| < |calls|
    ensures ok ==>
              && Open(f) && TapeOf(f) == tapes[|calls|]
              && Worked(f.fat.g, old(f.fat.Now()), f.fat.Now(), old(f.cs), f.cs, f.dirSect, f.dirIdx / ENTRY_SIZE)
              && f.BufferAtEntry()
              && CountKept(f.fat.g, old(f.fat.Now()), old(f.fat.freeCnt), f.fat.Now(), f.fat.freeCnt)
    ensures ok && |calls| > 0 && calls[|calls| - 1].Syncing? ==>
              && CardHolds(f.fat.g, f.fat.dev.sects, f.cs, f.dirSect, f.dirIdx / ENTRY_SIZE, tapes[|calls|].content)
              && f.fat.dev.sects == f.fat.Now()
    ensures !ok && AllocOk(Tab(f.fat.g, old(f.fat.Now()))) ==>
              f.fat.Refused() || NoWay(f.fat.g, old(f.fat.Now()), old(f.cs), tapes[|replies|], calls[|replies|])
    ensures ok ==> NoMore(f.fat.g, old(f.cs), f.cs, Highest(tapes[0]) + Weights(calls, |calls|))
    ensures f.canRead == old(f.canRead) && f.canWrite == old(f.canWrite) && f.sclust == old(f.sclust)
    ensures AllSafe(f.fat.g, f.fat.size, old(f.fat.hist), k) ==> AllSafe(f.fat.g, f.fat.size, f.fat.hist, k)
  {
    hide Open, Steps, Worked, CardHolds, AllSafe, Later, Runs, Ordered, IsChain, ChainOn, SameOutside, ClustersOk,
      OnMedium, IsDataSect, Allocated, ByteCnt, At, SectFor, Overlay, GeoOk, Calm, AddWrap, CountKept, Fat.Valid,
      NoWay, NoMore, AllocOk, FreeUpTo, Tab, CallEnd, Harmless, Along, Highest, TapeOf, Told, Weights, File.Home;
    ghost var l0, v, cs, d, i, f0 := f.fat.Past(), f.fat.Now(), f.cs, f.dirSect, f.dirIdx / ENTRY_SIZE, f.fat.freeCnt;
    ghost var c, first, read, write := f.sclust, TapeOf(f), f.canRead, f.canWrite;
    ghost var top := Highest(first);
    OpenParts(f);
    f.fat.Mounted();
    AlongStart(f.fat.g, v, f0, c, cs, d, i, f.Home(), top);
    LaterRefl(l0);
    ToldStart(read, write, first, calls);
    NoWeight(calls);
    ok, replies, tapes := true, [], [TapeOf(f)];
    while |replies| < |calls|
      invariant Open(f) && f.fat.Valid() && Later(l0, f.fat.Past()) && k <= f.fat.at
      invariant old(f.fat.dev.refused) <= f.fat.dev.refused
      invariant |replies| <= |calls| && Told(read, write, tapes, calls, replies, first, TapeOf(f))
      invariant Along(f.fat.g, v, f0, f.fat.Now(), f.fat.freeCnt, c, cs, f.cs, d, i, f.Home(),
                      top + Weights(calls, |replies|))
      invariant ChainOn(f.fat.g, v, c, cs) && f.BufferAtEntry() && f.sclust == c
      invariant |replies| > 0 && calls[|replies| - 1].Syncing? ==>
                  && CardHolds(f.fat.g, f.fat.dev.sects, f.cs, d, i, TapeOf(f).content)
                  && f.fat.dev.sects == f.fat.Now()
      invariant f.canRead == read && f.canWrite == write
      invariant AllSafe(f.fat.g, f.fat.size, old(f.fat.hist), k) ==> AllSafe(f.fat.g, f.fat.size, f.fat.hist, k)
    {
      ghost var l := f.fat.Past();
      ToldMeans(read, write, tapes, calls, replies, first, TapeOf(f));
      var r;
      ok, r := UseOne(f, calls, replies, k, v, f0, cs, tapes, first, top);
      LaterTrans(l0, l, f.fat.Past());
      if !ok {
        return;
      }
      LaterMeans(l0, f.fat.Past());
      tapes, replies := tapes + [TapeOf(f)], replies + [r];
    }
    ToldLength(read, write, tapes, calls, replies, first, TapeOf(f));
    OpenParts(f);
    TapeContent(f);
    ToldMeans(read, write, tapes, calls, replies, first, TapeOf(f));
    AlongCounted(f.fat.g, v, f0, f.fat.Now(), f.fat.freeCnt, c, cs, f.cs, d, i, f.Home(),
                 top + Weights(calls, |calls|));
  }

  /** Work on a file keeps a right count of the free clusters right. */
  lemma WorkedCounted(g: Geo, v: Volume, f: u32, w: Volume, f': u32, c: nat, cs: seq<nat>, all: seq<nat>, d: nat,
                      i: nat)
    requires Worked(g, v, w, cs, all, d, i) && g.dataSect <= d && ChainOn(g, v, c, cs) && ChainOn(g, w, c, all)
    requires f' == AddWrap(f, |cs| - |all|)
    ensures CountKept(g, v, f, w, f')
  {
    hide Tab, FreeCount, Grown, IsChain, AddWrap, PutEntryIn, EntryOf, EntryClust;
    var u := v[d := w[d]];
    DataKeepsTables(g, v, u);
    GrownCounted(g, u, f, w, f', c, cs, all);
  }

  /** What Use needs of it. */
  lemma OpenParts(f: File)
    requires Open(f)
    ensures f.fat.Valid() && OnMedium(f.fat.g, f.fat.Now(), f.cs) && ChainOn(f.fat.g, f.fat.Now(), f.sclust, f.cs)
    ensures |f.cs| > 0 && f.fat.g.dataSect <= f.dirSect < |f.fat.Now()| && f.dirIdx / ENTRY_SIZE < PER_SECTOR
  {
    OpenMeans(f);
  }

  lemma OpenMeans(f: File)
    requires Open(f)
    ensures f.Valid() && OnMedium(f.fat.g, f.fat.Now(), f.cs) && |f.cs| > 0
    ensures f.fat.g.dataSect <= f.dirSect < |f.fat.Now()| && f.dirIdx / ENTRY_SIZE < PER_SECTOR
    ensures ChainOn(f.fat.g, f.fat.Now(), f.sclust, f.cs) && HeldApart(f.fat.g, f.fat.Now(), f.cs, f.dirSect)
  {
  }

  /** Work on one file and any other: its chain and its bytes stay, and the allocator stays sound. */
  lemma WorkKeepsOthers(g: Geo, v: Volume, w: Volume, c: nat, cs: seq<nat>, all: seq<nat>, d: nat, i: nat, x: nat,
                        xs: seq<nat>)
    requires Worked(g, v, w, cs, all, d, i) && ChainOn(g, w, c, all) && OnMedium(g, w, all)
    requires TwoHeads(Tab(g, v), c, cs, x, xs) && g.dataSect <= d && ClustOf(g, d) !in xs
    ensures AllocOk(Tab(g, w)) && IsHead(Tab(g, w), c) && Undisturbed(g, v, w, x, xs)
  {
    hide Tab, Grown, PutEntryIn, EntryOf, EntryClust, TwoHeads, Allocated, GeoOk, HoldsClusters, IsChain, ClustersOk,
      ClustOf;
    var u := v[d := w[d]];
    WorkedMeans(g, v, w, cs, all, d, i);
    DataKeepsTables(g, v, u);
    GrownKeepsOthers(g, u, w, c, cs, all, x, xs);
    AllocatedSame(g, u, v, xs, d);
  }

  lemma WorkedMeans(g: Geo, v: Volume, w: Volume, cs: seq<nat>, all: seq<nat>, d: nat, i: nat)
    requires Worked(g, v, w, cs, all, d, i)
    ensures DataOk(g, |v|)
  {
  }
}
