/** Creating a file: a cluster from the allocator, an entry in a directory, a handle on both. */
module Creating {
  import opened Bytes
  import opened Chain
  import opened Layout
  import opened FatVolume
  import opened LongName
  import opened Records
  import opened DirLayout
  import opened DirGrow
  import opened Directory
  import opened FileBytes
  import opened Files
  import opened Sessions
  import opened Sparing
  import opened Bystanders

  const ATTR_ARCHIVE: byte := 0x20

  /** Starting a chain does not touch a directory. */
  lemma AfterAllocation(g: Geo, v: Volume, w: Volume, last: nat, d: nat, c: nat, cs: seq<nat>)
    requires ChainOn(g, v, c, cs) && OnMedium(g, v, cs) && 2 <= last < g.clustCnt && |w| == |v| && AllocOk(Tab(g, v))
    requires Stretched(g, v, last, 0, d, w)
    ensures ChainOn(g, w, c, cs) && OnMedium(g, w, cs) && Dirents(g, w, cs) == Dirents(g, v, cs)
    ensures 2 <= d < g.clustCnt && Tab(g, v)[d] == 0 && AllocOk(Tab(g, w)) && IsChain(Tab(g, w), d, [d]) && d !in cs
    ensures SameData(g, v, w)
    ensures Tab(g, w)[d] != 0 && Tab(g, w) == Linked(Tab(g, v), 0, d) && IsHead(Tab(g, w), d)
    ensures DataOk(g, |v|) && (Mirrored(g, v) ==> Mirrored(g, w))
  {
    hide Tab, Choose, OnlyTables, Mirrored, AllocOk, Dirents;
    var t := Tab(g, v);
    AllocTableOk(t);
    ChooseResult(t, last, 0);
    NewNotOld(t, c, cs, d);
    NewHead(t, d);
    LinkedAllocOk(t, 0, d);
    LinkedChain(t, 0, d, c, cs);
    TablesOnlySameData(g, v, w);
    DirentsSame(g, v, w, cs);
  }

  lemma NewHead(t: Table, d: nat)
    requires AllocOk(t) && 2 <= d < |t| && t[d] == 0
    ensures IsHead(Linked(t, 0, d), d)
  {
    AllocNoDangling(t);
  }

  /** Creating a file harms no other: v, w and x are the volume before, between allocation and entry, and after. */
  lemma CreatedKeepsOthers(g: Geo, v: Volume, w: Volume, x: Volume, d: nat, c: nat, cs: seq<nat>, all: seq<nat>)
    requires DataOk(g, |v|) && AllocOk(Tab(g, v)) && SameData(g, v, w)
    requires 2 <= d < g.clustCnt && Tab(g, v)[d] == 0 && Tab(g, w) == Linked(Tab(g, v), 0, d)
    requires IsHead(Tab(g, v), c) && ChainOn(g, v, c, cs)
    requires Grown(g, w, x, cs, all) && ChainOn(g, x, c, all) && OnMedium(g, x, all)
    ensures AllocOk(Tab(g, x)) && IsHead(Tab(g, x), c) && OthersKept(g, v, x, {c}, {})
  {
    hide Tab, AllocOk, IsHead, IsChain, Grown, OthersKept, Spared, Linked;
    StartSpares(Tab(g, v), d, {c});
    HarmlessTab(g, v, w, {c}, {});
    AllocTableOk(Tab(g, v));
    StillThere(Tab(g, v), d, c, cs);
    HarmlessGrown(g, w, x, c, cs, all, {});
    HarmlessTrans(g, v, w, x, {c}, {});
  }

  lemma StillThere(t: Table, d: nat, c: nat, cs: seq<nat>)
    requires TableOk(t) && 2 <= d < |t| && t[d] == 0 && 2 <= c && IsChain(t, c, cs)
    ensures IsChain(Linked(t, 0, d), c, cs)
  {
    InUse(t, c, cs);
    LinkedChain(t, 0, d, c, cs);
    ChainEnd(t, c, cs);
    ChainLink(t, c, cs, |cs| - 1);
  }

  lemma CountTrans(g: Geo, v: Volume, f: u32, w: Volume, f': u32, x: Volume, f'': u32)
    ensures CountKept(g, v, f, w, f') && CountKept(g, w, f', x, f'') ==> CountKept(g, v, f, x, f'')
  {
  }

  lemma AllocationCounted(g: Geo, v: Volume, w: Volume, d: nat, f: u32)
    requires GeoOk(g, |v|) && |w| == |v| && 2 <= d < g.clustCnt && Tab(g, v)[d] == 0
    requires Tab(g, w) == Linked(Tab(g, v), 0, d)
    ensures CountKept(g, v, f, w, AddWrap(f, -1))
  {
    hide Tab, FreeCount, AddWrap;
    LinkedCount(Tab(g, v), 0, d);
    if Counted(g, v, f) {
      AddWrapExact(f, -1);
    }
  }

  /** Every chain of v that ends neither in the directory nor at 0 is one of w. */
  ghost predicate ChainsKept(t: Table, u: Table, end: nat) {
    forall c, ds :: 2 <= c && IsChain(t, c, ds) && ds[|ds| - 1] != end ==> IsChain(u, c, ds)
  }

  /** The directory growing while the entry is added does not touch the new chain, nor any other. */
  lemma AfterEntry(g: Geo, v: Volume, w: Volume, d: nat, c: nat, cs: seq<nat>, all: seq<nat>)
    requires ChainOn(g, v, c, cs) && AllocOk(Tab(g, v)) && 2 <= d && IsChain(Tab(g, v), d, [d]) && d !in cs
    requires Grown(g, v, w, cs, all) && ChainOn(g, w, c, all) && OnMedium(g, w, all)
    ensures AllocOk(Tab(g, w)) && ChainOn(g, w, d, [d]) && OnMedium(g, w, [d]) && d !in all
    ensures IsChain(Tab(g, w), d, [d])
    ensures ChainsKept(Tab(g, v), Tab(g, w), cs[|cs| - 1])
  {
    hide Tab, AllocOk, Distinct, SameOutside, Mirrored;
    var t, n := Tab(g, v), |cs|;
    AllocTableOk(t);
    ChainOnMedium(g, w, c, all);
    ChainLink(t, c, cs, n - 1);
    assert all[n - 1] == cs[n - 1];
    GrowKeepsAlloc(t, all, n, |all|, d, [d]);
    NotTaken(t, cs, all, d);
    forall e, ds | 2 <= e && IsChain(t, e, ds) && ds[|ds| - 1] != cs[n - 1] ensures IsChain(Tab(g, w), e, ds) {
      GrowKeepsAlloc(t, all, n, |all|, e, ds);
    }
  }

  lemma NotTaken(t: Table, cs: seq<nat>, all: seq<nat>, d: nat)
    requires d < |t| && t[d] != 0 && cs <= all && d !in cs && (forall i :: 0 <= i < |all| ==> all[i] < |t|)
    requires forall i :: |cs| <= i < |all| ==> t[all[i]] == 0
    ensures d !in all
  {
    forall i | 0 <= i < |all| ensures all[i] != d {
      assert i < |cs| ==> all[i] == cs[i];
    }
  }

  lemma EntryApart(g: Geo, size: nat, all: seq<nat>, q: nat, sect: nat, d: nat)
    requires DataOk(g, size) && ClustersOk(g, all) && q < SectCnt(g, all) && sect == ChainSect(g, all, q) && d !in all
    ensures g.dataSect <= sect < size && !IsDataSect(g, [d], sect) && ClustOf(g, sect) in all && ClustOf(g, sect) != d
  {
    ChainSectIn(g, size, all, q);
  }

  /** The clusters of a directory are in use. */
  lemma HeldByDir(g: Geo, v: Volume, c: nat, all: seq<nat>, sect: nat, d: nat)
    requires ChainOn(g, v, c, all) && g.dataSect <= sect < |v| && ClustOf(g, sect) in all && ClustOf(g, sect) != d
    ensures HeldApart(g, v, [d], sect)
  {
    hide Tab, ClustOf;
    var i :| 0 <= i < |all| && all[i] == ClustOf(g, sect);
    ChainLink(Tab(g, v), c, all, i);
  }

  /** The entry of a new file whose first cluster is clust, and a handle on it. */
  method AddFile(dir: Dir, name: seq<byte>, clust: nat, read: bool, write: bool, trunc: bool, date: nat, time: nat,
                 ghost k: nat)
    returns (err: int, file: File?, ghost start: nat, ghost eod: bool)
    requires dir.Attached() && !dir.fat.spoiled && dir.CanGrow() && k <= dir.fat.at
    requires AllocOk(Tab(dir.fat.g, dir.fat.Now()))
    requires 2 <= clust < dir.fat.g.clustCnt && IsChain(Tab(dir.fat.g, dir.fat.Now()), clust, [clust])
    requires clust !in dir.cs && IsHead(Tab(dir.fat.g, dir.fat.Now()), clust)
    modifies dir`clust, dir`sect, dir`idx, dir`q, dir`cs, dir.fat, dir.fat.dev
    ensures dir.fat.Steady()
    ensures err == ERR_IO ==> dir.fat.Refused()
    ensures err != ERR_NONE && 0 < |name| <= MAX_NAME ==>
              || dir.fat.Refused()
              || (err == ERR_FULL && FreeCount(Tab(dir.fat.g, old(dir.fat.Now()))) <= Room(dir.fat.g, RunLen(name)))
    ensures err == ERR_NONE ==>
              && |dir.cs| <= |old(dir.cs)| + Room(dir.fat.g, RunLen(name))
              && FreeCount(Tab(dir.fat.g, dir.fat.Now())) + |dir.cs|
                 == FreeCount(Tab(dir.fat.g, old(dir.fat.Now()))) + |old(dir.cs)|
    ensures err != ERR_DENIED && err != ERR_PATH
    ensures Harmless(dir.fat.g, old(dir.fat.Now()), dir.fat.Now(), {dir.sclust}, {})
    ensures err == ERR_NONE ==>
              && dir.Attached() && AllocOk(Tab(dir.fat.g, dir.fat.Now()))
              && file != null && fresh(file) && NewHandle(dir, file, clust, read, write)
              && Fresh(file.EntryNow(), ATTR_ARCHIVE, clust, date, time)
              && IsHead(Tab(dir.fat.g, dir.fat.Now()), clust) && IsChain(Tab(dir.fat.g, dir.fat.Now()), clust, [clust])
              && dir.CanGrow() && dir.Ready() && dir.Pos() == start + FragCount(|name|)
              && Added(old(dir.Es()), dir.Es(), start, eod, name)
              && GoodSlot(old(dir.Es()), start, eod, RunLen(name))
              && Grown(dir.fat.g, old(dir.fat.Now()), dir.fat.Now(), old(dir.cs), dir.cs)
              && CountKept(dir.fat.g, old(dir.fat.Now()), old(dir.fat.freeCnt), dir.fat.Now(), dir.fat.freeCnt)
    ensures err == ERR_NONE && PlainName(name) && WellFormed(old(dir.Es()), 0) ==>
              AllFoundAfterAdd(old(dir.Es()), dir.Es(), start, name)
    ensures AllSafe(dir.fat.g, dir.fat.size, old(dir.fat.hist), k) ==> AllSafe(dir.fat.g, dir.fat.size, dir.fat.hist, k)
  {
    hide IsHead, Harmless, HeldApart, Dirents, Ordered, Later, IsChain, ChainOn, OnMedium, AllocOk, Tab, Grown, Added,
      GoodSlot, AllFoundAfterAdd, WellFormed, PlainName, ChainSect, AllSafe, IsDataSect, ByteCnt, EntryOf, EntryClust,
      Le32, CountKept, Dated;
    var fat := dir.fat;
    file, start, eod := null, 0, false;
    ghost var v, cs := fat.Now(), dir.cs;
    err, start, eod := dir.Add(name, ATTR_ARCHIVE, clust, date, time, k);
    if err != ERR_NONE {
      return;
    }
    AfterEntry(fat.g, v, fat.Now(), clust, dir.sclust, cs, dir.cs);
    GrownSound(fat.g, v, fat.Now(), dir.sclust, cs, dir.cs);
    HeadGrows(fat.g, v, fat.Now(), cs, dir.cs, clust, [clust]);
    PlaceApart(fat.g, fat.Now(), dir.cs, dir.q, dir.clust, dir.sect, dir.idx, clust);
    HeldByDir(fat.g, fat.Now(), dir.sclust, dir.cs, dir.sect, clust);
    var e := EntryOf(fat.buf, dir.idx / ENTRY_SIZE);
    file := new File.Attach(fat, dir.sect, dir.idx, e, read, write, trunc, [clust]);
  }

  /** A handle, not yet on any sector, on an empty file of one cluster, whose entry is where the directory stands:
      what Sessions.Start asks for. */
  ghost predicate NewHandle(dir: Dir, file: File, clust: nat, read: bool, write: bool)
    reads dir, file, file.fat, file.fat.dev
  {
    && file.fat == dir.fat && !file.fat.spoiled && file.Valid() && file.HasEntry() && file.size == 0 && file.offset == 0
    && file.cs == [clust] && file.sclust == clust && clust !in dir.cs
    && HeldApart(file.fat.g, file.fat.Now(), [clust], file.dirSect)
    && EntryClust(file.EntryNow()) == clust && EntrySize(file.EntryNow()) == 0
    && dir.At(file.EntryNow()) && file.dirSect == dir.sect && file.dirIdx == dir.idx
    && file.canRead == read && file.canWrite == write
  }

  lemma PlaceApart(g: Geo, v: Volume, all: seq<nat>, q: nat, clust: nat, sect: nat, idx: nat, d: nat)
    requires OnMedium(g, v, all) && Here(g, all, q, clust, sect, idx) && q < SectCnt(g, all) && d !in all
    ensures g.dataSect <= sect < |v| && ClustOf(g, sect) in all && ClustOf(g, sect) != d
    ensures !IsDataSect(g, [d], sect) && idx < SECTOR_SIZE && idx % ENTRY_SIZE == 0
  {
    EntryApart(g, |v|, all, q, sect, d);
  }

  lemma GrownMirrored(g: Geo, v: Volume, w: Volume, cs: seq<nat>, all: seq<nat>)
    requires Grown(g, v, w, cs, all)
    ensures GeoOk(g, |v|) && |v| == |w| && (Mirrored(g, v) ==> Mirrored(g, w))
  {
    hide Mirrored, GrownTab;
  }

  /** Starting a chain, also when that stops half way. */
  lemma HarmlessStarted(g: Geo, v: Volume, w: Volume, cs: seq<nat>, but: set<nat>)
    requires OnMedium(g, v, cs) && OnlyTables(g, v, w) && Taking(Tab(g, v), Tab(g, w), 0)
    ensures Harmless(g, v, w, but, {})
  {
    hide Tab, OnlyTables, Spared, Taking, Harmless;
    TablesOnlySameData(g, v, w);
    TakingFirstSpares(Tab(g, v), Tab(g, w), but);
    HarmlessTab(g, v, w, but, {});
  }

  /** The creating half of fat_file_open. lost is the allocation that reports success without having happened. */
  method CreateFile(dir: Dir, name: seq<byte>, read: bool, write: bool, trunc: bool, date: nat, time: nat, ghost k: nat)
    returns (err: int, file: File?, lost: bool, ghost start: nat, ghost eod: bool)
    requires dir.Attached() && dir.fat.StretchTrusted(0) && dir.CanGrow() && k <= dir.fat.at
    requires AllocOk(Tab(dir.fat.g, dir.fat.Now()))
    modifies dir`clust, dir`sect, dir`idx, dir`q, dir`cs, dir.fat, dir.fat.dev
    ensures dir.fat.Steady()
    ensures (err != ERR_NONE || lost) && 0 < |name| <= MAX_NAME ==>
              || dir.fat.Refused()
              || (err == ERR_FULL && FreeCount(Tab(dir.fat.g, old(dir.fat.Now()))) <= Room(dir.fat.g, RunLen(name)) + 1)
    ensures err == ERR_NONE && !lost ==>
              && |dir.cs| <= |old(dir.cs)| + Room(dir.fat.g, RunLen(name))
              && FreeCount(Tab(dir.fat.g, dir.fat.Now())) + |dir.cs| + 1
                 == FreeCount(Tab(dir.fat.g, old(dir.fat.Now()))) + |old(dir.cs)|
    ensures err != ERR_DENIED && err != ERR_PATH
    ensures Harmless(dir.fat.g, old(dir.fat.Now()), dir.fat.Now(), {dir.sclust}, {})
    ensures err == ERR_NONE && !lost ==>
              && dir.Attached() && AllocOk(Tab(dir.fat.g, dir.fat.Now()))
              && file != null && fresh(file) && NewHandle(dir, file, file.sclust, read, write)
              && Fresh(file.EntryNow(), ATTR_ARCHIVE, file.sclust, date, time)
              && file.sclust < dir.fat.g.clustCnt && Tab(dir.fat.g, old(dir.fat.Now()))[file.sclust] == 0
              && IsHead(Tab(dir.fat.g, dir.fat.Now()), file.sclust)
              && IsChain(Tab(dir.fat.g, dir.fat.Now()), file.sclust, [file.sclust])
              && dir.CanGrow() && dir.Ready() && dir.Pos() == start + FragCount(|name|)
              && Added(old(dir.Es()), dir.Es(), start, eod, name)
              && GoodSlot(old(dir.Es()), start, eod, RunLen(name))
    ensures err == ERR_NONE && !lost ==>
              (Mirrored(dir.fat.g, old(dir.fat.Now())) ==> Mirrored(dir.fat.g, dir.fat.Now()))
    ensures err == ERR_NONE && !lost && IsHead(Tab(dir.fat.g, old(dir.fat.Now())), dir.sclust) ==>
              OthersKept(dir.fat.g, old(dir.fat.Now()), dir.fat.Now(), {dir.sclust}, {})
    ensures err == ERR_NONE && !lost ==>
              CountKept(dir.fat.g, old(dir.fat.Now()), old(dir.fat.freeCnt), dir.fat.Now(), dir.fat.freeCnt)
    ensures AllSafe(dir.fat.g, dir.fat.size, old(dir.fat.hist), k) ==> AllSafe(dir.fat.g, dir.fat.size, dir.fat.hist, k)
    ensures err == ERR_NONE && !lost && PlainName(name) && WellFormed(old(dir.Es()), 0) ==>
              AllFoundAfterAdd(old(dir.Es()), dir.Es(), start, name)
  {
    hide Harmless, Dirents, Ordered, Later, IsChain, ChainOn, OnMedium, Stretched, AllocOk, Tab, OnlyTables,
      AllFoundAfterAdd, WellFormed, PlainName, ChainSect, AllSafe, CrashSafe, SameData, Here, OthersKept, CountKept,
      Grown, Mirrored, IsHead, Added, GoodSlot, AddWrap, ProbeWord, Choose, FreeUpTo, Linked, Room;
    var fat := dir.fat;
    file, start, eod := null, 0, false;
    ghost var l0, v, last, cs, f := fat.Past(), fat.Now(), fat.lastUsed, dir.cs, fat.freeCnt;
    AllocTableOk(Tab(fat.g, v));
    TakenFew(Tab(fat.g, v), last, 0);
    var clust;
    ghost var failed, stale;
    err, clust, lost, failed, stale := fat.StretchChain(0, k);
    if AllSafe(fat.g, fat.size, l0.hist, k) {
      CrashSafeMeans(fat.g, fat.size, fat.Past(), fat.dev.sects, k, |l0.trace|);
    }
    HarmlessStarted(fat.g, v, fat.Now(), dir.cs, {dir.sclust});
    if err != ERR_NONE || lost {
      return;
    }
    AfterAllocation(fat.g, v, fat.Now(), last, clust, dir.sclust, dir.cs);
    LinkedCount(Tab(fat.g, v), 0, clust);
    ghost var l1 := fat.Past();
    LaterMeans(l0, l1);
    ghost var w := fat.Now();
    AllocationCounted(fat.g, v, w, clust, f);
    err, file, start, eod := AddFile(dir, name, clust, read, write, trunc, date, time, k);
    LaterTrans(l0, l1, fat.Past());
    HarmlessTrans(fat.g, v, w, fat.Now(), {dir.sclust}, {});
    CountTrans(fat.g, v, f, w, AddWrap(f, -1), fat.Now(), fat.freeCnt);
    if err == ERR_NONE {
      GrownMirrored(fat.g, w, fat.Now(), cs, dir.cs);
      if IsHead(Tab(fat.g, v), dir.sclust) {
        CreatedKeepsOthers(fat.g, v, w, fat.Now(), clust, dir.sclust, cs, dir.cs);
      }
    }
  }

  /** And with the first seek fat_file_open of a new name ends: in an open file without a byte. */
  method CreateAndOpen(dir: Dir, name: seq<byte>, read: bool, write: bool, trunc: bool, append: bool, date: nat,
                       time: nat, ghost k: nat)
    returns (err: int, file: File?, lost: bool)
    requires dir.Attached() && dir.fat.StretchTrusted(0) && dir.CanGrow() && k <= dir.fat.at
    requires AllocOk(Tab(dir.fat.g, dir.fat.Now()))
    modifies dir`clust, dir`sect, dir`idx, dir`q, dir`cs, dir.fat, dir.fat.dev
    ensures dir.fat.Steady()
    ensures (err != ERR_NONE || lost) && 0 < |name| <= MAX_NAME ==>
              dir.fat.Refused() || FreeCount(Tab(dir.fat.g, old(dir.fat.Now()))) <= Room(dir.fat.g, RunLen(name)) + 1
    ensures err == ERR_NONE && !lost ==>
              && file != null && fresh(file) && file.fat == dir.fat && !dir.fat.spoiled
              && Open(file) && TapeOf(file) == Tape([], 0) && file.canRead == read && file.canWrite == write
              && CountKept(dir.fat.g, old(dir.fat.Now()), old(dir.fat.freeCnt), dir.fat.Now(), dir.fat.freeCnt)
    ensures AllSafe(dir.fat.g, dir.fat.size, old(dir.fat.hist), k) ==> AllSafe(dir.fat.g, dir.fat.size, dir.fat.hist, k)
  {
    hide Worked, AllSafe, Later, Ordered, IsChain, ChainOn, OnMedium, AddWrap, CountKept, Harmless, Dirents,
      EntryClust, EntrySize, HeldApart, IsDataSect, Here, Allocated, ByteCnt, SectCnt, EntryOf, Added, GoodSlot,
      AllFoundAfterAdd, WellFormed, OthersKept, PlainName, AllocOk, Tab, IsHead, ChainSect, ClustOf, Mirrored;
    var fat := dir.fat;
    ghost var l0, v, f := fat.Past(), fat.Now(), fat.freeCnt;
    ghost var start, eod;
    err, file, lost, start, eod := CreateFile(dir, name, read, write, trunc, date, time, k);
    if err != ERR_NONE || lost {
      return;
    }
    ghost var l1, w, f1, d := fat.Past(), fat.Now(), fat.freeCnt, file.sclust;
    LaterMeans(l0, l1);
    err := Start(file, append, k);
    LaterTrans(l0, l1, fat.Past());
    if err == ERR_NONE {
      OpenParts(file);
      WorkedCounted(fat.g, w, f1, fat.Now(), fat.freeCnt, d, [d], file.cs, file.dirSect, file.dirIdx / ENTRY_SIZE);
      CountTrans(fat.g, v, f, w, f1, fat.Now(), fat.freeCnt);
    }
  }
}
