/** Whole runs on one directory: files opened, used, closed and deleted by name, against a map from names to bytes. */
module Jobs {
  import opened Arith
  import opened Bytes
  import opened Chain
  import opened Layout
  import opened FatVolume
  import opened LongName
  import opened Records
  import opened Names
  import opened DirLayout
  import opened DirGrow
  import opened Directory
  import opened FileBytes
  import opened Sparing
  import opened Bystanders
  import opened Files
  import opened Sessions
  import opened Unlink
  import opened Creating
  import opened Folder

  /** Since v, on which the directory was in order, nothing has changed but the file that name stands for: it starts at
      x, had the clusters xs and has the clusters all, and its entry is at place loc. */
  ghost predicate Underway(g: Geo, v: Volume, w: Volume, c: nat, cs: seq<nat>, name: seq<byte>, x: nat, xs: seq<nat>,
                           all: seq<nat>, loc: Loc) {
    && Tidy(g, v, c, cs) && name in Contents(g, v, c, cs) && Contents(g, v, c, cs)[name].start == x
    && IsChain(Tab(g, v), x, xs) && LocOf(g, cs, Lookup(Dirents(g, v, cs), 0, name).at, loc)
    && Worked(g, v, w, xs, all, loc.sect, loc.idx / ENTRY_SIZE)
  }

  lemma UnderwayOn(g: Geo, v: Volume, w: Volume, z: Volume, c: nat, cs: seq<nat>, name: seq<byte>, x: nat,
                   xs: seq<nat>, all: seq<nat>, more: seq<nat>, loc: Loc)
    requires Underway(g, v, w, c, cs, name, x, xs, all, loc) && g.dataSect <= loc.sect
    requires Worked(g, w, z, all, more, loc.sect, loc.idx / ENTRY_SIZE)
    ensures Underway(g, v, z, c, cs, name, x, xs, more, loc)
  {
    hide Tidy, Contents, IsChain, LocOf, Lookup, Dirents, Worked;
    WorkedTrans(g, v, w, z, xs, all, more, loc.sect, loc.idx / ENTRY_SIZE);
  }

  /** Once it is synced, the directory is in order again, and the name stands for the new bytes. */
  lemma UnderwayDone(g: Geo, v: Volume, w: Volume, c: nat, cs: seq<nat>, name: seq<byte>, x: nat, xs: seq<nat>,
                     all: seq<nat>, loc: Loc, content: seq<byte>)
    requires Underway(g, v, w, c, cs, name, x, xs, all, loc)
    requires loc.idx < SECTOR_SIZE && CardHolds(g, w, all, loc.sect, loc.idx / ENTRY_SIZE, content)
    ensures Tidy(g, w, c, cs) && Contents(g, w, c, cs) == With(Contents(g, v, c, cs), x, content)
  {
    hide Tidy, Contents, IsChain, Lookup, Dirents, Worked, CardHolds, ChainSect, EntryClust;
    ContentsAt(g, v, c, cs, name);
    TidyParts(g, v, c, cs);
    SyncedContents(g, v, w, c, cs, name, xs, all, content);
  }

  lemma TidyParts(g: Geo, v: Volume, c: nat, cs: seq<nat>)
    requires Tidy(g, v, c, cs)
    ensures ChainOn(g, v, c, cs) && OnMedium(g, v, cs) && WellFormed(Dirents(g, v, cs), 0) && AllocOk(Tab(g, v))
    ensures GeoOk(g, |v|) && IsHead(Tab(g, v), c)
  {
  }

  // ---------------------------------------------------------------- how many clusters it takes

  /** A file has room for at least its size: to go on from there by n bytes takes no more clusters than n bytes do. */
  lemma ClustNoShift(g: Geo, cs: seq<nat>, off: nat, n: nat)
    requires g.spc > 0 && off <= ByteCnt(g, cs) + n
    ensures ClustNo(g, off) <= |cs| + ClustNo(g, n)
  {
    var end := ByteCnt(g, cs) + n;
    WholeSectors(SectCnt(g, cs), n);
    DivShift(|cs|, n / SECTOR_SIZE, g.spc);
    ClustNoMono(g, off, end);
  }

  lemma WholeSectors(sects: nat, n: nat)
    ensures (SECTOR_SIZE * sects + n) / SECTOR_SIZE == sects + n / SECTOR_SIZE
  {
  }

  lemma FewFree(g: Geo, v: Volume, cs: seq<nat>, off: nat)
    requires g.spc > 0 && off <= ByteCnt(g, cs)
    ensures Short(g, v, cs, off) ==> FreeCount(Tab(g, v)) <= 1
  {
    hide ClustNo, Tab, FreeUpTo;
    ClustNoShift(g, cs, off, 0);
    NoCluster(g);
  }

  lemma FirstShort(g: Geo, v: Volume, d: nat)
    requires g.spc > 0
    ensures Short(g, v, [d], 0) ==> FreeCount(Tab(g, v)) == 0
  {
    hide Tab, FreeUpTo;
    NoCluster(g);
  }

  lemma OneMore(g: Geo, cs: seq<nat>, all: seq<nat>, off: nat)
    requires NoMore(g, cs, all, off) && off <= ByteCnt(g, cs)
    ensures |all| <= |cs| + 1
  {
    hide ClustNo;
    ClustNoShift(g, cs, off, 0);
    NoCluster(g);
  }

  lemma NoCluster(g: Geo)
    requires g.spc > 0
    ensures ClustNo(g, 0) == 0
  {
  }

  lemma {:induction false} WeightsMore(calls: seq<Call>, call: Call, n: nat)
    requires n <= |calls|
    ensures Weights(calls + [call], n) == Weights(calls, n)
  {
    if n > 0 {
      WeightsMore(calls, call, n - 1);
      assert (calls + [call])[n - 1] == calls[n - 1];
    }
  }

  /** A close gets no further than the calls before it. */
  lemma CloseReach(read: bool, write: bool, tapes: seq<Tape>, calls: seq<Call>, close: Call, replies: seq<Reply>)
    requires Runs(read, write, tapes, calls + [close], replies) && close.Syncing?
    ensures |tapes| == |replies| + 1 && Weights(calls + [close], |calls| + 1) == Weights(calls, |calls|)
    ensures |replies| <= |calls| ==>
              CallEnd(tapes[|replies|], (calls + [close])[|replies|]) <= Highest(tapes[0]) + Weights(calls, |calls|)
  {
    hide Steps, Highest, CallEnd, Weights, Runs;
    TapeCount(read, write, tapes, calls + [close], replies);
    CloseWeight(calls, close);
    RunReach(read, write, tapes, calls + [close], replies, |replies|);
    if |replies| <= |calls| {
      WeightsMono(calls + [close], |replies| + 1, |calls| + 1);
    }
  }

  lemma CloseWeight(calls: seq<Call>, close: Call)
    requires close.Syncing?
    ensures Weights(calls + [close], |calls| + 1) == Weights(calls, |calls|)
  {
    WeightsMore(calls, close, |calls|);
    assert (calls + [close])[|calls|] == close;
  }

  /** A run over a file that had the clusters xs and the size of its content, when it was opened, and has the clusters
      cs: what it is short of at the end, and what it has grown to. */
  lemma RunCost(g: Geo, v: Volume, cs: seq<nat>, xs: seq<nat>, size: nat, n: nat)
    requires g.spc > 0 && size <= ByteCnt(g, xs) && |cs| <= |xs| + 1
    ensures Short(g, v, cs, size + n) ==> FreeCount(Tab(g, v)) + |cs| <= |xs| + ClustNo(g, n) + 1
    ensures forall all :: NoMore(g, cs, all, size + n) ==> |all| <= |xs| + ClustNo(g, n) + 1
  {
    hide ClustNo, Tab, FreeUpTo;
    ClustNoShift(g, xs, size + n, n);
  }

  /** What keeps a call from succeeding, told by the highest offset of the run. */
  lemma WayOut(g: Geo, v: Volume, cs: seq<nat>, tapes: seq<Tape>, calls: seq<Call>, close: Call, replies: seq<Reply>,
               top: nat)
    requires |tapes| == |replies| + 1 && close.Syncing?
    requires |replies| <= |calls| ==> CallEnd(tapes[|replies|], (calls + [close])[|replies|]) <= top
    ensures |replies| <= |calls| && NoWay(g, v, cs, tapes[|replies|], (calls + [close])[|replies|]) ==>
              top > 0xffff_ffff || Short(g, v, cs, top)
  {
    hide Tab, FreeCount, ClustNo;
    if |replies| <= |calls| && g.spc > 0 {
      ClustNoMono(g, CallEnd(tapes[|replies|], (calls + [close])[|replies|]), top);
    }
  }

  // ---------------------------------------------------------------- an open file, used and closed

  /** Any calls on an open file, and then fat_file_close, which is a sync. */
  method UseAndClose(f: File, calls: seq<Call>, date: nat, time: nat, ghost k: nat, ghost v: Volume, ghost c: nat,
                     ghost cs: seq<nat>, ghost name: seq<byte>, ghost xs: seq<nat>)
    returns (ok: bool, replies: seq<Reply>, ghost tapes: seq<Tape>)
    requires Open(f) && !f.fat.spoiled && k <= f.fat.at
    requires Underway(f.fat.g, v, f.fat.Now(), c, cs, name, f.sclust, xs, f.cs, Loc(f.dirSect, f.dirIdx))
    modifies f, f.fat, f.fat.dev
    ensures f.fat.Steady()
    ensures !ok && AllocOk(Tab(f.fat.g, old(f.fat.Now()))) ==>
              || f.fat.Refused() || Highest(old(TapeOf(f))) + Weights(calls, |calls|) > 0xffff_ffff
              || Short(f.fat.g, old(f.fat.Now()), old(f.cs), Highest(old(TapeOf(f))) + Weights(calls, |calls|))
    ensures ok ==>
              && NoMore(f.fat.g, old(f.cs), f.cs, Highest(old(TapeOf(f))) + Weights(calls, |calls|))
              && FreeCount(Tab(f.fat.g, f.fat.Now())) + |f.cs|
                 == FreeCount(Tab(f.fat.g, old(f.fat.Now()))) + |old(f.cs)|
    ensures Harmless(f.fat.g, old(f.fat.Now()), f.fat.Now(), {f.sclust}, {f.Home()})
    ensures Runs(f.canRead, f.canWrite, tapes, calls + [Syncing(date, time)], replies) && tapes[0] == old(TapeOf(f))
    ensures ok ==>
              && |replies| == |calls| + 1 && !f.fat.spoiled && 2 <= f.fat.lastUsed < f.fat.g.clustCnt
              && f.fat.dev.sects == f.fat.Now() && Tidy(f.fat.g, f.fat.Now(), c, cs)
              && Contents(f.fat.g, f.fat.Now(), c, cs)
                 == With(Contents(f.fat.g, v, c, cs), f.sclust, tapes[|calls| + 1].content)
              && CountKept(f.fat.g, old(f.fat.Now()), old(f.fat.freeCnt), f.fat.Now(), f.fat.freeCnt)
    ensures f.canRead == old(f.canRead) && f.canWrite == old(f.canWrite) && f.sclust == old(f.sclust)
    ensures AllSafe(f.fat.g, f.fat.size, old(f.fat.hist), k) ==> AllSafe(f.fat.g, f.fat.size, f.fat.hist, k)
  {
    hide Open, Steps, Worked, CardHolds, AllSafe, Later, Runs, Ordered, IsChain, ChainOn, OnMedium, GeoOk, Calm,
      AddWrap, CountKept, Fat.Valid, Harmless, Underway, Tidy, Contents, FreeUpTo, Short, TapeOf, NoWay, NoMore,
      Highest, Weights, AllocOk, Tab;
    ghost var w, all, loc := f.fat.Now(), f.cs, Loc(f.dirSect, f.dirIdx);
    OpenParts(f);
    OpenEnds(f);
    ghost var t := TapeOf(f);
    ok, replies, tapes := Use(f, calls + [Syncing(date, time)], k);
    CloseReach(f.canRead, f.canWrite, tapes, calls, Syncing(date, time), replies);
    WayOut(f.fat.g, w, all, tapes, calls, Syncing(date, time), replies, Highest(t) + Weights(calls, |calls|));
    if ok {
      OpenEnds(f);
      OpenParts(f);
      TapeCount(f.canRead, f.canWrite, tapes, calls + [Syncing(date, time)], replies);
      WorkedSound(f.fat.g, w, f.fat.Now(), f.sclust, all, f.cs, f.dirSect, f.dirIdx / ENTRY_SIZE);
      UnderwayOn(f.fat.g, v, w, f.fat.Now(), c, cs, name, f.sclust, xs, all, f.cs, loc);
      UnderwayDone(f.fat.g, v, f.fat.Now(), c, cs, name, f.sclust, xs, f.cs, loc, tapes[|calls| + 1].content);
    }
  }

  lemma OpenEnds(f: File)
    requires Open(f)
    ensures f.dirIdx < SECTOR_SIZE && 2 <= f.fat.lastUsed < f.fat.g.clustCnt
    ensures f.fat.g.spc > 0 && f.fat.g.dataSect <= f.dirSect
  {
  }

  lemma TapeCount(read: bool, write: bool, tapes: seq<Tape>, calls: seq<Call>, replies: seq<Reply>)
    requires Runs(read, write, tapes, calls, replies)
    ensures |tapes| == |replies| + 1
  {
  }

  // ---------------------------------------------------------------- opening by name

  /** What an open of name finds in it. */
  ghost function TapeFor(m: Catalogue, name: seq<byte>, trunc: bool, append: bool): Tape
    requires name in m
  {
    var content := if trunc then [] else m[name].content;
    Tape(content, if append then |content| else 0)
  }

  /** The entry the directory handle is at, found for name. */
  lemma FoundEntry(g: Geo, v: Volume, c: nat, cs: seq<nat>, name: seq<byte>, q: nat, clust: nat, sect: nat, idx: nat)
    requires Tidy(g, v, c, cs) && Here(g, cs, q, clust, sect, idx) && q < SectCnt(g, cs)
    requires Lookup(Dirents(g, v, cs), 0, name).Record?
    requires Lookup(Dirents(g, v, cs), 0, name).at == PER_SECTOR * q + idx / ENTRY_SIZE < EntryCnt(g, cs)
    ensures var e, m := Dirents(g, v, cs)[PER_SECTOR * q + idx / ENTRY_SIZE], Contents(g, v, c, cs);
      && Owns(g, v, c, e) && name in m && m[name] == StoredAt(g, v, c, e) && m[name].start == EntryClust(e)
      && var xs := ChainFrom(Tab(g, v), EntryClust(e));
        && LocOf(g, cs, PER_SECTOR * q + idx / ENTRY_SIZE, Loc(sect, idx)) && HeldApart(g, v, xs, sect)
        && !IsDataSect(g, xs, sect) && ChainOn(g, v, EntryClust(e), xs) && OnMedium(g, v, xs)
        && EntrySize(e) <= ByteCnt(g, xs) && m[name].content == Allocated(g, v, xs)[..EntrySize(e)]
    ensures idx < SECTOR_SIZE && idx % ENTRY_SIZE == 0
  {
    hide Tab, AllocOk, IsChain, Dirents, WellFormed, Once, OwnersApart, Lookup, Here, ChainSect, EntryClust, EntrySize,
      Allocated, Contents, LocOf, ClustOf, SectCnt, AllNamed;
    ContentsAt(g, v, c, cs, name);
    var e := Dirents(g, v, cs)[PER_SECTOR * q + idx / ENTRY_SIZE];
    var xs := ChainFrom(Tab(g, v), EntryClust(e));
    LocHere(g, cs, q, clust, sect, idx);
    HeadClusters(g, v, EntryClust(e), xs);
    HereSect(g, v, c, cs, q, clust, sect, idx);
    ApartFromDir(g, v, c, cs, EntryClust(e), xs, sect);
  }

  lemma HereSect(g: Geo, v: Volume, c: nat, cs: seq<nat>, q: nat, clust: nat, sect: nat, idx: nat)
    requires ChainOn(g, v, c, cs) && OnMedium(g, v, cs) && Here(g, cs, q, clust, sect, idx) && q < SectCnt(g, cs)
    ensures g.dataSect <= sect < |v| && ClustOf(g, sect) in cs && idx < SECTOR_SIZE && idx % ENTRY_SIZE == 0
  {
    hide ClustOf, Tab;
    ChainSectIn(g, |v|, cs, q);
  }

  /** A sector of the directory lies in none of the clusters of its files. */
  lemma ApartFromDir(g: Geo, v: Volume, c: nat, cs: seq<nat>, x: nat, xs: seq<nat>, sect: nat)
    requires ChainOn(g, v, c, cs) && OnMedium(g, v, cs) && TwoHeads(Tab(g, v), c, cs, x, xs)
    requires g.dataSect <= sect < |v| && ClustOf(g, sect) in cs
    ensures HeldApart(g, v, xs, sect) && !IsDataSect(g, xs, sect)
  {
    hide ClustOf, Tab, AllocOk, IsHead, Disjoint;
    HeadsDisjoint(Tab(g, v), c, cs, x, xs);
    InOne(cs, xs, ClustOf(g, sect));
    UsedOne(Tab(g, v), c, cs, ClustOf(g, sect));
  }

  lemma UsedOne(t: Table, c: nat, cs: seq<nat>, d: nat)
    requires TableOk(t) && IsChain(t, c, cs) && d in cs
    ensures d < |t| && t[d] != 0
  {
    var i :| 0 <= i < |cs| && cs[i] == d;
    ChainLink(t, c, cs, i);
  }

  /** The opening half of fat_file_open for a name that has been found: a handle on its file, and the first seek. */
  method OpenFound(dir: Dir, e: Entry, ghost name: seq<byte>, read: bool, write: bool, trunc: bool, append: bool,
                   ghost k: nat)
    returns (err: int, file: File, ghost xs: seq<nat>)
    requires dir.At(e) && dir.CanGrow() && k <= dir.fat.at && Tidy(dir.fat.g, dir.fat.Now(), dir.sclust, dir.cs)
    requires Lookup(dir.Es(), 0, name).Record? && Lookup(dir.Es(), 0, name).at == dir.Pos()
    modifies dir.fat, dir.fat.dev
    ensures dir.fat.Steady() && fresh(file) && file.fat == dir.fat
    ensures err != ERR_NONE ==> dir.fat.Refused() || FreeCount(Tab(dir.fat.g, old(dir.fat.Now()))) <= 1
    ensures err == ERR_NONE ==>
              && Open(file) && |TapeOf(file).content| <= ByteCnt(dir.fat.g, xs) && |file.cs| <= |xs| + 1
              && FreeCount(Tab(dir.fat.g, dir.fat.Now())) + |file.cs|
                 == FreeCount(Tab(dir.fat.g, old(dir.fat.Now()))) + |xs|
    ensures err != ERR_DENIED && err != ERR_PATH
    ensures Harmless(dir.fat.g, old(dir.fat.Now()), dir.fat.Now(), {file.sclust}, {file.Home()})
    ensures name in old(Contents(dir.fat.g, dir.fat.Now(), dir.sclust, dir.cs))
    ensures file.sclust == old(Contents(dir.fat.g, dir.fat.Now(), dir.sclust, dir.cs))[name].start
    ensures file.canRead == read && file.canWrite == write && file.dirSect == dir.sect && file.dirIdx == dir.idx
    ensures err == ERR_NONE ==>
              && Open(file) && !dir.fat.spoiled
              && Underway(dir.fat.g, old(dir.fat.Now()), dir.fat.Now(), dir.sclust, dir.cs, name, file.sclust, xs,
                          file.cs, Loc(file.dirSect, file.dirIdx))
              && TapeOf(file)
                 == TapeFor(old(Contents(dir.fat.g, dir.fat.Now(), dir.sclust, dir.cs)), name, trunc, append)
              && CountKept(dir.fat.g, old(dir.fat.Now()), old(dir.fat.freeCnt), dir.fat.Now(), dir.fat.freeCnt)
    ensures AllSafe(dir.fat.g, dir.fat.size, old(dir.fat.hist), k) ==> AllSafe(dir.fat.g, dir.fat.size, dir.fat.hist, k)
  {
    hide Worked, AllSafe, Later, Ordered, IsChain, ChainOn, OnMedium, AddWrap, CountKept, Harmless, Tidy, Contents,
      Owns, StoredAt, Dirents, Lookup, EntryClust, EntrySize, HeldApart, IsDataSect, LocOf, Here, Allocated, ChainFrom,
      ByteCnt, SectCnt, EntryOf, FreeUpTo, Tab, AllocOk, Short;
    var fat := dir.fat;
    ghost var v, f, c, cs := fat.Now(), fat.freeCnt, dir.sclust, dir.cs;
    FoundEntry(fat.g, v, c, cs, name, dir.q, dir.clust, dir.sect, dir.idx);
    xs := ChainFrom(Tab(fat.g, v), EntryClust(e));
    file := new File.Attach(fat, dir.sect, dir.idx, e, read, write, trunc, xs);
    TidyParts(fat.g, v, c, cs);
    ghost var off := if append then file.size else 0;
    FewFree(fat.g, v, xs, file.size);
    err := Start(file, append, k);
    if err == ERR_NONE {
      OpenParts(file);
      TidyParts(fat.g, v, c, cs);
      WorkedSound(fat.g, v, fat.Now(), file.sclust, xs, file.cs, dir.sect, dir.idx / ENTRY_SIZE);
      TapeContent(file);
      OneMore(fat.g, xs, file.cs, off);
      WorkedCounted(fat.g, v, f, fat.Now(), fat.freeCnt, file.sclust, xs, file.cs, dir.sect, dir.idx / ENTRY_SIZE);
    }
  }

  /** Making a file and then working on it harms no other: its entry is in a cluster of the directory. */
  lemma HarmlessNew(g: Geo, v: Volume, w: Volume, x: Volume, c: nat, all: seq<nat>, d: nat, home: nat)
    requires Harmless(g, v, w, {c}, {}) && Harmless(g, w, x, {d}, {home}) && AllocOk(Tab(g, v)) && IsHead(Tab(g, v), c)
    requires d < g.clustCnt && Tab(g, v)[d] == 0 && IsHead(Tab(g, w), d) && ChainOn(g, w, c, all) && home in all
    requires d != c
    ensures Harmless(g, v, x, {c}, {})
  {
    hide Tab, AllocOk, IsChain, Allocated, ClustersOk, Disjoint;
    assert StillChained(g, w, x, c, all);
    forall y, ys | y != c && IsHead(Tab(g, v), y) && IsChain(Tab(g, v), y, ys) ensures Undisturbed(g, v, x, y, ys) {
      TableFits(g, v);
      InUse(Tab(g, v), y, ys);
      assert Undisturbed(g, v, w, y, ys);
      HeadsDisjoint(Tab(g, w), c, all, y, ys);
      AvoidsOne(all, ys, home);
    }
  }

  lemma TableFits(g: Geo, v: Volume)
    requires DataOk(g, |v|)
    ensures TableOk(Tab(g, v))
  {
  }

  lemma AvoidsOne(all: seq<nat>, ys: seq<nat>, e: nat)
    requires Disjoint(all, ys) && e in all
    ensures Avoids(ys, {e})
  {
    InOne(all, ys, e);
  }

  lemma HarmlessHead(g: Geo, v: Volume, w: Volume, c: nat)
    requires Harmless(g, v, w, {c}, {}) && AllocOk(Tab(g, v)) && IsHead(Tab(g, v), c)
    ensures AllocOk(Tab(g, w)) && IsHead(Tab(g, w), c) && OthersKept(g, v, w, {c}, {})
  {
    hide Tab, AllocOk, OthersKept;
  }

  /** A file just made, with its entry where the directory handle is: work on it may begin. */
  lemma MadeUnderway(g: Geo, v: Volume, w: Volume, c: nat, cs: seq<nat>, all: seq<nat>, s: nat, eod: bool,
                     name: seq<byte>, d: nat, q: nat, clust: nat, sect: nat, idx: nat)
    requires Tidy(g, v, c, cs) && PlainName(name) && FileMade(g, v, w, c, cs, all, s, eod, name, d)
    requires Lookup(Dirents(g, v, cs), 0, name).Miss?
    requires Here(g, all, q, clust, sect, idx) && q < SectCnt(g, all)
    requires PER_SECTOR * q + idx / ENTRY_SIZE == s + RunLen(name) - 1
    ensures Tidy(g, w, c, all) && name !in Contents(g, v, c, cs) && Unused(Contents(g, v, c, cs), d)
    ensures Contents(g, w, c, all) == Contents(g, v, c, cs)[name := Stored(d, [])]
    ensures Underway(g, w, w, c, all, name, d, [d], [d], Loc(sect, idx))
    ensures g.dataSect <= sect < |w| && ClustOf(g, sect) in all
  {
    hide Tab, AllocOk, IsHead, IsChain, Dirents, WellFormed, GoodSlot, Added, PlainName, EntryClust, EntrySize, Tidy,
      Lookup, ChainSect, OthersKept, Contents, ClustOf, Worked, RunLen, SectCnt, LocOf;
    TidyParts(g, v, c, cs);
    CreatedContents(g, v, w, c, cs, all, s, eod, name, d);
    MadeNamed(Dirents(g, v, cs), Dirents(g, w, all), s, eod, name, name);
    HereSect(g, w, c, all, q, clust, sect, idx);
    LocHere(g, all, q, clust, sect, idx);
    HeadClusters(g, w, d, [d]);
    WorkedStart(g, w, [d], sect, idx / ENTRY_SIZE);
  }

  lemma NotTheDirectory(g: Geo, v: Volume, c: nat, cs: seq<nat>, d: nat)
    requires ChainOn(g, v, c, cs) && d < g.clustCnt && Tab(g, v)[d] == 0
    ensures d != c
  {
    InUse(Tab(g, v), c, cs);
  }

  /** A file made in an orderly directory: the directory is in order with the new name in it. lost is the allocation
      that reports success without having happened. */
  method MakeFile(dir: Dir, name: seq<byte>, read: bool, write: bool, trunc: bool, date: nat, time: nat, ghost k: nat)
    returns (err: int, file: File?, lost: bool)
    requires dir.Attached() && !dir.fat.spoiled && dir.CanGrow() && k <= dir.fat.at && PlainName(name)
    requires Tidy(dir.fat.g, dir.fat.Now(), dir.sclust, dir.cs) && Lookup(dir.Es(), 0, name).Miss?
    modifies dir`clust, dir`sect, dir`idx, dir`q, dir`cs, dir.fat, dir.fat.dev
    ensures dir.fat.Steady()
    ensures (err != ERR_NONE || lost) && 0 < |name| <= MAX_NAME ==>
              dir.fat.Refused() || FreeCount(Tab(dir.fat.g, old(dir.fat.Now()))) <= Room(dir.fat.g, RunLen(name)) + 1
    ensures err == ERR_NONE && !lost ==>
              FreeCount(Tab(dir.fat.g, dir.fat.Now())) + Room(dir.fat.g, RunLen(name)) + 1
              >= FreeCount(Tab(dir.fat.g, old(dir.fat.Now())))
    ensures err != ERR_DENIED && err != ERR_PATH
    ensures Harmless(dir.fat.g, old(dir.fat.Now()), dir.fat.Now(), {dir.sclust}, {})
    ensures err == ERR_NONE && !lost ==>
              && file != null && fresh(file) && dir.Attached() && NewHandle(dir, file, file.sclust, read, write)
              && file.sclust < dir.fat.g.clustCnt && Tab(dir.fat.g, old(dir.fat.Now()))[file.sclust] == 0
              && IsHead(Tab(dir.fat.g, dir.fat.Now()), file.sclust)
              && Tidy(dir.fat.g, dir.fat.Now(), dir.sclust, dir.cs) && file.Home() in dir.cs
              && name !in old(Contents(dir.fat.g, dir.fat.Now(), dir.sclust, dir.cs))
              && Unused(old(Contents(dir.fat.g, dir.fat.Now(), dir.sclust, dir.cs)), file.sclust)
              && Contents(dir.fat.g, dir.fat.Now(), dir.sclust, dir.cs)
                 == old(Contents(dir.fat.g, dir.fat.Now(), dir.sclust, dir.cs))[name := Stored(file.sclust, [])]
              && Underway(dir.fat.g, dir.fat.Now(), dir.fat.Now(), dir.sclust, dir.cs, name, file.sclust, file.cs,
                          file.cs, Loc(file.dirSect, file.dirIdx))
              && CountKept(dir.fat.g, old(dir.fat.Now()), old(dir.fat.freeCnt), dir.fat.Now(), dir.fat.freeCnt)
    ensures AllSafe(dir.fat.g, dir.fat.size, old(dir.fat.hist), k) ==> AllSafe(dir.fat.g, dir.fat.size, dir.fat.hist, k)
  {
    hide Worked, AllSafe, Later, Ordered, IsChain, ChainOn, OnMedium, CountKept, Harmless, Tidy, Contents, Dirents,
      Lookup, EntryClust, EntrySize, HeldApart, IsDataSect, LocOf, Here, Allocated, ByteCnt, SectCnt, EntryOf, Added,
      GoodSlot, AllFoundAfterAdd, WellFormed, OthersKept, PlainName, AllocOk, Tab, IsHead, ChainSect, ClustOf,
      Underway, Unused, File.Home, Mirrored;
    var fat := dir.fat;
    ghost var v, c, cs := fat.Now(), dir.sclust, dir.cs;
    TidyParts(fat.g, v, c, cs);
    ghost var start, eod;
    err, file, lost, start, eod := CreateFile(dir, name, read, write, trunc, date, time, k);
    if err == ERR_NONE && !lost {
      NotTheDirectory(fat.g, v, c, cs, file.sclust);
      HarmlessHead(fat.g, v, fat.Now(), c);
      MadeUnderway(fat.g, v, fat.Now(), c, cs, dir.cs, start, eod, name, file.sclust, dir.q, dir.clust, dir.sect,
                   dir.idx);
      HomeIs(file);
    }
  }

  /** fat_file_open of a name that is not there, with the flag to make it: it ends in an open empty file. base is the
      volume after the making and before the first seek. */
  method OpenNew(dir: Dir, name: seq<byte>, read: bool, write: bool, trunc: bool, append: bool, date: nat, time: nat,
                 ghost k: nat)
    returns (err: int, file: File?, lost: bool, ghost base: Volume)
    requires dir.Attached() && !dir.fat.spoiled && dir.CanGrow() && k <= dir.fat.at && PlainName(name)
    requires Tidy(dir.fat.g, dir.fat.Now(), dir.sclust, dir.cs) && Lookup(dir.Es(), 0, name).Miss?
    modifies dir`clust, dir`sect, dir`idx, dir`q, dir`cs, dir.fat, dir.fat.dev
    ensures dir.fat.Steady()
    ensures (err != ERR_NONE || lost) && 0 < |name| <= MAX_NAME ==>
              dir.fat.Refused() || FreeCount(Tab(dir.fat.g, old(dir.fat.Now()))) <= Room(dir.fat.g, RunLen(name)) + 1
    ensures err == ERR_NONE && !lost ==>
              && file != null && |file.cs| <= 2
              && FreeCount(Tab(dir.fat.g, dir.fat.Now())) + |file.cs| + Room(dir.fat.g, RunLen(name))
                 >= FreeCount(Tab(dir.fat.g, old(dir.fat.Now())))
    ensures err != ERR_DENIED && err != ERR_PATH
    ensures Harmless(dir.fat.g, old(dir.fat.Now()), dir.fat.Now(), {dir.sclust}, {})
    ensures err == ERR_NONE && !lost ==>
              && file != null && fresh(file) && file.fat == dir.fat && Open(file) && !dir.fat.spoiled
              && file.canRead == read && file.canWrite == write && TapeOf(file) == Tape([], 0)
              && name !in old(Contents(dir.fat.g, dir.fat.Now(), dir.sclust, dir.cs))
              && Unused(old(Contents(dir.fat.g, dir.fat.Now(), dir.sclust, dir.cs)), file.sclust)
              && file.sclust < dir.fat.g.clustCnt && Tab(dir.fat.g, old(dir.fat.Now()))[file.sclust] == 0
              && Underway(dir.fat.g, base, dir.fat.Now(), dir.sclust, dir.cs, name, file.sclust, [file.sclust],
                          file.cs, Loc(file.dirSect, file.dirIdx))
              && Contents(dir.fat.g, base, dir.sclust, dir.cs)
                 == old(Contents(dir.fat.g, dir.fat.Now(), dir.sclust, dir.cs))[name := Stored(file.sclust, [])]
              && CountKept(dir.fat.g, old(dir.fat.Now()), old(dir.fat.freeCnt), dir.fat.Now(), dir.fat.freeCnt)
    ensures AllSafe(dir.fat.g, dir.fat.size, old(dir.fat.hist), k) ==> AllSafe(dir.fat.g, dir.fat.size, dir.fat.hist, k)
  {
    hide Worked, AllSafe, Later, Ordered, IsChain, ChainOn, OnMedium, AddWrap, CountKept, Harmless, Tidy, Contents,
      Dirents, Lookup, EntryClust, EntrySize, HeldApart, IsDataSect, LocOf, Here, Allocated, ByteCnt, SectCnt, EntryOf,
      WellFormed, OthersKept, PlainName, AllocOk, Tab, IsHead, ChainSect, ClustOf, Underway, Unused, File.Home, Room,
      NoMore, FreeUpTo, ClustNo, Short;
    var fat := dir.fat;
    ghost var l0, v, f, c, cs := fat.Past(), fat.Now(), fat.freeCnt, dir.sclust, dir.cs;
    TidyParts(fat.g, v, c, cs);
    err, file, lost := MakeFile(dir, name, read, write, trunc, date, time, k);
    base := fat.Now();
    if err != ERR_NONE || lost {
      return;
    }
    ghost var l1, f1, d := fat.Past(), fat.freeCnt, file.sclust;
    LaterMeans(l0, l1);
    NotTheDirectory(fat.g, v, c, cs, d);
    TidyParts(fat.g, base, c, dir.cs);
    FirstShort(fat.g, base, d);
    err := Start(file, append, k);
    LaterTrans(l0, l1, fat.Past());
    HarmlessNew(fat.g, v, base, fat.Now(), c, dir.cs, d, file.Home());
    if err == ERR_NONE {
      OpenParts(file);
      OneMore(fat.g, [d], file.cs, 0);
      WorkedSound(fat.g, base, fat.Now(), d, [d], file.cs, dir.sect, dir.idx / ENTRY_SIZE);
      UnderwayOn(fat.g, base, base, fat.Now(), c, dir.cs, name, d, [d], [d], file.cs, Loc(dir.sect, dir.idx));
      WorkedCounted(fat.g, base, f1, fat.Now(), fat.freeCnt, d, [d], file.cs, dir.sect, dir.idx / ENTRY_SIZE);
      CountTrans(fat.g, v, f, base, f1, fat.Now(), fat.freeCnt);
    }
  }

  lemma HomeIs(f: File)
    requires f.fat.g.spc > 0 && f.fat.g.dataSect <= f.dirSect
    ensures f.Home() == ClustOf(f.fat.g, f.dirSect)
  {
  }

  /** No name stands for a file that starts at d. */
  ghost predicate Unused(m: Catalogue, d: nat) {
    forall n :: n in m ==> m[n].start != d
  }

  datatype Flags = Flags(read: bool, write: bool, append: bool, trunc: bool, create: bool)

  /** The cluster the file of name starts at, or else that of the directory. */
  ghost function StartOf(m: Catalogue, name: seq<byte>, c: nat): nat {
    if name in m then m[name].start else c
  }

  /** The names once name has been opened. */
  ghost function Opened(m: Catalogue, name: seq<byte>, d: nat): Catalogue {
    if name in m then m else m[name := Stored(d, [])]
  }

  /** Work on a file whose entry is in the directory harms neither the directory's chain nor any other file. */
  lemma HarmlessBeside(g: Geo, v: Volume, w: Volume, c: nat, cs: seq<nat>, x: nat, home: nat)
    requires ChainOn(g, v, c, cs) && OnMedium(g, v, cs) && IsHead(Tab(g, v), c) && IsHead(Tab(g, v), x) && x != c
    requires Harmless(g, v, w, {x}, {home}) && home in cs
    ensures Harmless(g, v, w, {c, x}, {})
  {
    hide Tab, AllocOk, IsChain, Allocated, ClustersOk, Disjoint;
    forall y, ys | AllocOk(Tab(g, v)) && y !in {c, x} && IsHead(Tab(g, v), y) && IsChain(Tab(g, v), y, ys)
      ensures Undisturbed(g, v, w, y, ys)
    {
      HeadsDisjoint(Tab(g, v), c, cs, y, ys);
      AvoidsOne(cs, ys, home);
    }
  }

  lemma NameStarts(g: Geo, v: Volume, c: nat, cs: seq<nat>, name: seq<byte>)
    requires Tidy(g, v, c, cs)
    ensures var m := Contents(g, v, c, cs);
      && (name in m <==> Lookup(Dirents(g, v, cs), 0, name).Record?)
      && (name in m ==> m[name].start != c && IsHead(Tab(g, v), m[name].start))
  {
    hide Tab, AllocOk, IsChain, IsHead, WellFormed, Once, OwnersApart, AllNamed, Lookup, Dirents, Contents, EntryClust;
    ContentsAt(g, v, c, cs, name);
  }

  /** The volume with its free count, the clusters of the directory, and what the card alone holds. */
  datatype Scene = Scene(vol: Volume, free: u32, cs: seq<nat>, card: Volume)

  ghost function SceneOf(dir: Dir): Scene
    reads dir, dir.fat, dir.fat.dev
  {
    Scene(dir.fat.Now(), dir.fat.freeCnt, dir.cs, dir.fat.dev.sects)
  }

  predicate SameButCard(x: Scene, y: Scene) { y == x.(card := y.card) }

  ghost predicate InOrder(g: Geo, c: nat, x: Scene) { Tidy(g, x.vol, c, x.cs) }

  ghost function Listing(g: Geo, c: nat, x: Scene): Catalogue
    requires InOrder(g, c, x)
  {
    Contents(g, x.vol, c, x.cs)
  }

  /** Files other than the one of that name, and the directory's own chain but for its growth, are what they were. */
  ghost predicate OnlyNamed(g: Geo, c: nat, x: Scene, name: seq<byte>, w: Volume) {
    InOrder(g, c, x) && Harmless(g, x.vol, w, {c, StartOf(Listing(g, c, x), name, c)}, {})
  }

  /** The clusters that making a name can take: one for the file, the others for the directory. */
  function MakeCost(g: Geo, name: seq<byte>, flags: Flags): nat {
    if flags.create then Room(g, RunLen(name)) + 1 else 0
  }

  /** A name that is not there, and is not to be made or cannot be. */
  predicate NoFile(m: Catalogue, name: seq<byte>, flags: Flags) { name !in m && (!flags.create || name == []) }

  /** The error for it. */
  function NoFileCode(flags: Flags): int { if flags.create then ERR_PATH else ERR_DENIED }

  /** With a card that takes every transfer, the reasons for an open to fail otherwise. */
  ghost predicate CannotOpen(g: Geo, c: nat, x: Scene, name: seq<byte>, flags: Flags) {
    && InOrder(g, c, x) && !NoFile(Listing(g, c, x), name, flags)
    && ((name !in Listing(g, c, x) && |name| > MAX_NAME) || FreeCount(Tab(g, x.vol)) <= MakeCost(g, name, flags) + 1)
  }

  /** What an open has come to: y is the scene behind the making and before the first seek, w and f the volume and the
      free count now; the file starts at d, has the clusters all, and had xs in y. */
  ghost predicate NameOpened(g: Geo, c: nat, x: Scene, name: seq<byte>, flags: Flags, y: Scene, w: Volume, f: u32,
                             d: nat, xs: seq<nat>, all: seq<nat>, loc: Loc, tape: Tape) {
    && InOrder(g, c, x) && InOrder(g, c, y) && GeoOk(g, |w|)
    && var m := Listing(g, c, x);
      && (if name in m then d == m[name].start
          else flags.create && name != [] && Unused(m, d) && d < g.clustCnt && Tab(g, x.vol)[d] == 0)
      && Listing(g, c, y) == Opened(m, name, d) && Underway(g, y.vol, w, c, y.cs, name, d, xs, all, loc)
      && tape == TapeFor(Opened(m, name, d), name, flags.trunc, flags.append)
      && |tape.content| <= ByteCnt(g, xs) && |all| <= |xs| + 1
      && CountKept(g, x.vol, x.free, w, f)
      && FreeCount(Tab(g, w)) + |all| + MakeCost(g, name, flags) >= FreeCount(Tab(g, x.vol)) + |xs|
  }

  lemma FoundOpened(g: Geo, c: nat, x: Scene, name: seq<byte>, flags: Flags, w: Volume, f: u32, d: nat, xs: seq<nat>,
                    all: seq<nat>, loc: Loc, tape: Tape)
    requires InOrder(g, c, x) && name in Listing(g, c, x) && d == Listing(g, c, x)[name].start && GeoOk(g, |w|)
    requires Underway(g, x.vol, w, c, x.cs, name, d, xs, all, loc) && CountKept(g, x.vol, x.free, w, f)
    requires tape == TapeFor(Listing(g, c, x), name, flags.trunc, flags.append)
    requires |tape.content| <= ByteCnt(g, xs) && |all| <= |xs| + 1
    requires FreeCount(Tab(g, w)) + |all| == FreeCount(Tab(g, x.vol)) + |xs|
    ensures NameOpened(g, c, x, name, flags, x, w, f, d, xs, all, loc, tape)
  {
    hide Tidy, Contents, Underway, TapeFor, CountKept, Tab, FreeCount, ByteCnt, MakeCost;
  }

  /** A name that is there is opened. */
  method OpenListed(dir: Dir, e: Entry, name: seq<byte>, flags: Flags, ghost x: Scene, ghost k: nat)
    returns (err: int, file: File, ghost xs: seq<nat>)
    requires dir.At(e) && dir.CanGrow() && k <= dir.fat.at && InOrder(dir.fat.g, dir.sclust, x)
    requires SameButCard(x, SceneOf(dir))
    requires Lookup(dir.Es(), 0, name).Record? && Lookup(dir.Es(), 0, name).at == dir.Pos()
    modifies dir.fat, dir.fat.dev
    ensures dir.fat.Steady() && fresh(file) && file.fat == dir.fat
    ensures OnlyNamed(dir.fat.g, dir.sclust, x, name, dir.fat.Now())
    ensures err != ERR_DENIED && err != ERR_PATH
    ensures err == ERR_NONE ==>
              && Open(file) && !dir.fat.spoiled && file.canRead == flags.read && file.canWrite == flags.write
              && NameOpened(dir.fat.g, dir.sclust, x, name, flags, x, dir.fat.Now(),
                            dir.fat.freeCnt, file.sclust, xs, file.cs, Loc(file.dirSect, file.dirIdx), TapeOf(file))
    ensures err != ERR_NONE ==>
              dir.fat.Refused() || CannotOpen(dir.fat.g, dir.sclust, x, name, flags)
    ensures AllSafe(dir.fat.g, dir.fat.size, old(dir.fat.hist), k) ==> AllSafe(dir.fat.g, dir.fat.size, dir.fat.hist, k)
  {
    hide Worked, AllSafe, Later, Ordered, IsChain, ChainOn, OnMedium, CountKept, Harmless, Tidy, Contents, Dirents,
      Lookup, AllocOk, Tab, IsHead, ClustOf, Underway, File.Home, Open, Here, NameOpened, TapeFor, TapeOf, FreeUpTo,
      EntryOf, ChainSect;
    var fat := dir.fat;
    ghost var c, cs := dir.sclust, dir.cs;
    TidyParts(fat.g, x.vol, c, cs);
    NameStarts(fat.g, x.vol, c, cs, name);
    AtHere(dir, e);
    HereSect(fat.g, x.vol, c, cs, dir.q, dir.clust, dir.sect, dir.idx);
    err, file, xs := OpenFound(dir, e, name, flags.read, flags.write, flags.trunc, flags.append, k);
    HomeIs(file);
    HarmlessBeside(fat.g, x.vol, fat.Now(), c, cs, file.sclust, file.Home());
    if err == ERR_NONE {
      OpenParts(file);
      FoundOpened(fat.g, c, x, name, flags, fat.Now(), fat.freeCnt, file.sclust, xs, file.cs,
                  Loc(file.dirSect, file.dirIdx), TapeOf(file));
    }
  }

  lemma AtHere(dir: Dir, e: Entry)
    requires dir.At(e)
    ensures ChainOn(dir.fat.g, dir.fat.Now(), dir.sclust, dir.cs) && OnMedium(dir.fat.g, dir.fat.Now(), dir.cs)
    ensures Here(dir.fat.g, dir.cs, dir.q, dir.clust, dir.sect, dir.idx) && dir.q < SectCnt(dir.fat.g, dir.cs)
    ensures dir.fat.g.spc > 0 && dir.fat.g.dataSect <= dir.sect
  {
    hide Dirents, Here, ChainSect;
  }

  lemma NewOpened(g: Geo, c: nat, x: Scene, name: seq<byte>, flags: Flags, y: Scene, w: Volume, f: u32, d: nat,
                  all: seq<nat>, loc: Loc, tape: Tape)
    requires InOrder(g, c, x) && InOrder(g, c, y) && GeoOk(g, |w|) && flags.create && name != []
    requires name !in Listing(g, c, x) && Unused(Listing(g, c, x), d) && d < g.clustCnt && Tab(g, x.vol)[d] == 0
    requires Listing(g, c, y) == Listing(g, c, x)[name := Stored(d, [])]
    requires Underway(g, y.vol, w, c, y.cs, name, d, [d], all, loc) && CountKept(g, x.vol, x.free, w, f)
    requires tape == Tape([], 0) && |all| <= 2
    requires FreeCount(Tab(g, w)) + |all| + Room(g, RunLen(name)) >= FreeCount(Tab(g, x.vol))
    ensures NameOpened(g, c, x, name, flags, y, w, f, d, [d], all, loc, tape)
  {
    hide Tidy, Contents, Underway, CountKept, Tab, FreeCount, Room, Unused;
  }

  /** A name that is not there is made, or not. */
  method OpenMissing(dir: Dir, name: seq<byte>, flags: Flags, date: nat, time: nat, ghost x: Scene,
                     ghost k: nat)
    returns (err: int, file: File?, lost: bool, ghost y: Scene)
    requires dir.Attached() && !dir.fat.spoiled && dir.CanGrow() && k <= dir.fat.at
    requires flags.create ==> PlainName(name)
    requires SameButCard(x, SceneOf(dir)) && InOrder(dir.fat.g, dir.sclust, x) && Lookup(dir.Es(), 0, name).Miss?
    modifies dir`clust, dir`sect, dir`idx, dir`q, dir`cs, dir.fat, dir.fat.dev
    ensures dir.fat.Steady()
    ensures OnlyNamed(dir.fat.g, dir.sclust, x, name, dir.fat.Now())
    ensures err == ERR_DENIED || err == ERR_PATH ==>
              && dir.Attached() && dir.CanGrow() && SameButCard(x, SceneOf(dir)) && !dir.fat.spoiled
              && NoFile(Listing(dir.fat.g, dir.sclust, x), name, flags) && err == NoFileCode(flags)
    ensures err == ERR_NONE && !lost ==>
              && file != null && fresh(file) && file.fat == dir.fat && Open(file) && !dir.fat.spoiled
              && file.canRead == flags.read && file.canWrite == flags.write && y.cs == dir.cs
              && NameOpened(dir.fat.g, dir.sclust, x, name, flags, y, dir.fat.Now(), dir.fat.freeCnt,
                            file.sclust, [file.sclust], file.cs, Loc(file.dirSect, file.dirIdx), TapeOf(file))
    ensures err != ERR_DENIED && err != ERR_PATH && (err != ERR_NONE || lost) ==>
              dir.fat.Refused() || CannotOpen(dir.fat.g, dir.sclust, x, name, flags)
    ensures AllSafe(dir.fat.g, dir.fat.size, old(dir.fat.hist), k) ==> AllSafe(dir.fat.g, dir.fat.size, dir.fat.hist, k)
  {
    hide Worked, AllSafe, Later, Ordered, IsChain, ChainOn, OnMedium, CountKept, Harmless, Tidy, Contents, Dirents,
      Lookup, AllocOk, Tab, IsHead, ClustOf, Underway, File.Home, Open, NameOpened, TapeOf, FreeUpTo, PlainName,
      Unused, Room;
    var fat := dir.fat;
    ghost var c, cs := dir.sclust, dir.cs;
    TidyParts(fat.g, x.vol, c, cs);
    NameStarts(fat.g, x.vol, c, cs, name);
    HarmlessNone(fat.g, x.vol, c, cs, c);
    assert {c, StartOf(Contents(fat.g, x.vol, c, cs), name, c)} == {c};
    LaterRefl(fat.Past());
    fat.Mounted();
    y := x;
    if !flags.create {
      return ERR_DENIED, null, false, x;
    }
    if |name| == 0 {
      return ERR_PATH, null, false, x;
    }
    ghost var base;
    err, file, lost, base := OpenNew(dir, name, flags.read, flags.write, flags.trunc, flags.append, date, time, k);
    y := Scene(base, x.free, dir.cs, x.card);
    if err == ERR_NONE && !lost {
      OpenParts(file);
      UnderwayTidy(fat.g, base, fat.Now(), c, dir.cs, name, file.sclust, [file.sclust], file.cs,
                   Loc(file.dirSect, file.dirIdx));
      NewOpened(fat.g, c, x, name, flags, y, fat.Now(), fat.freeCnt, file.sclust, file.cs,
                Loc(file.dirSect, file.dirIdx), TapeOf(file));
    }
  }

  lemma UnderwayTidy(g: Geo, v: Volume, w: Volume, c: nat, cs: seq<nat>, name: seq<byte>, x: nat, xs: seq<nat>,
                     all: seq<nat>, loc: Loc)
    requires Underway(g, v, w, c, cs, name, x, xs, all, loc)
    ensures Tidy(g, v, c, cs) && name in Contents(g, v, c, cs)
  {
  }

  /** fat_file_open, of the last component of a path. */
  method OpenNamed(dir: Dir, name: seq<byte>, flags: Flags, date: nat, time: nat, ghost k: nat)
    returns (err: int, file: File?, lost: bool, ghost y: Scene, ghost xs: seq<nat>)
    requires dir.Attached() && !dir.fat.spoiled && dir.CanGrow() && k <= dir.fat.at
    requires flags.create ==> PlainName(name)
    requires InOrder(dir.fat.g, dir.sclust, SceneOf(dir))
    modifies dir`clust, dir`sect, dir`idx, dir`q, dir`cs, dir`gbuf, dir`glen, dir`gcrc, dir.fat, dir.fat.dev
    ensures dir.fat.Steady() && |dir.gbuf| == SCRATCH
    ensures OnlyNamed(dir.fat.g, dir.sclust, old(SceneOf(dir)), name, dir.fat.Now())
    ensures err == ERR_DENIED || err == ERR_PATH ==>
              && dir.Attached() && dir.CanGrow() && SameButCard(old(SceneOf(dir)), SceneOf(dir)) && !dir.fat.spoiled
              && NoFile(old(Listing(dir.fat.g, dir.sclust, SceneOf(dir))), name, flags) && err == NoFileCode(flags)
    ensures err == ERR_NONE && !lost ==>
              && file != null && fresh(file) && file.fat == dir.fat && Open(file) && !dir.fat.spoiled
              && file.canRead == flags.read && file.canWrite == flags.write && y.cs == dir.cs
              && NameOpened(dir.fat.g, dir.sclust, old(SceneOf(dir)), name, flags, y, dir.fat.Now(), dir.fat.freeCnt,
                            file.sclust, xs, file.cs, Loc(file.dirSect, file.dirIdx), TapeOf(file))
    ensures err != ERR_DENIED && err != ERR_PATH && (err != ERR_NONE || lost) ==>
              dir.fat.Refused() || CannotOpen(dir.fat.g, dir.sclust, old(SceneOf(dir)), name, flags)
    ensures AllSafe(dir.fat.g, dir.fat.size, old(dir.fat.hist), k) ==> AllSafe(dir.fat.g, dir.fat.size, dir.fat.hist, k)
  {
    hide Worked, AllSafe, Later, Ordered, IsChain, ChainOn, OnMedium, CountKept, Harmless, Tidy, Contents, Dirents,
      Lookup, Search, WellFormed, PlainName, AllocOk, Tab, IsHead, ClustOf, Underway, File.Home, Open, NameOpened,
      CannotOpen, OnlyNamed, TapeOf, Here, ChainSect, LocOf, EntryOf;
    var fat := dir.fat;
    ghost var l0, c, cs, x, es := fat.Past(), dir.sclust, dir.cs, SceneOf(dir), dir.Es();
    TidyParts(fat.g, x.vol, c, cs);
    SearchIsLookup(es, 0, name, dir.gbuf);
    OnlyNamedStart(fat.g, c, x, name);
    file, lost, y, xs := null, false, x, [];
    var loc, e;
    ghost var start;
    err, loc, e, start := dir.SearchName(name);
    ghost var l := fat.Past();
    LaterMeans(l0, l);
    if err == ERR_NONE {
      err, file, xs := OpenListed(dir, e, name, flags, x, k);
      LaterTrans(l0, l, fat.Past());
      return;
    }
    if err != ERR_EOF {
      return;
    }
    err, file, lost, y := OpenMissing(dir, name, flags, date, time, x, k);
    LaterTrans(l0, l, fat.Past());
    xs := if file != null then [file.sclust] else [];
  }

  lemma OnlyNamedStart(g: Geo, c: nat, x: Scene, name: seq<byte>)
    requires InOrder(g, c, x)
    ensures OnlyNamed(g, c, x, name, x.vol)
  {
    hide Tidy, Contents, Harmless, Tab, AllocOk, IsHead, IsChain, ChainOn, OnMedium, StartOf;
    TidyParts(g, x.vol, c, x.cs);
    HarmlessNone(g, x.vol, c, x.cs, StartOf(Listing(g, c, x), name, c));
  }

  // ---------------------------------------------------------------- jobs

  /** A file opened, used and closed, or a file deleted. */
  datatype Job =
    | Update(name: seq<byte>, flags: Flags, calls: seq<Call>, date: nat, time: nat)
    | Delete(name: seq<byte>)

  /** Names to be made have no byte that ends a name in a long entry. */
  predicate NameFits(job: Job) { job.Update? && job.flags.create ==> PlainName(job.name) }

  datatype Report = Report(err: int, replies: seq<Reply>)

  /** What a job makes of the names and their bytes, and what it reports. A file that is not there is made, if the flags
      say so, at a cluster that no other starts at. A deletion may be refused: the entry may be protected, or that of a
      directory that is not empty or has no end marker. */
  ghost predicate JobDone(m: Catalogue, job: Job, m': Catalogue, r: Report) {
    match job
    case Update(name, flags, calls, date, time) =>
      if NoFile(m, name, flags) then
        r == Report(NoFileCode(flags), []) && m' == m
      else
        r.err == ERR_NONE && exists d, tapes :: Updated(m, name, flags, calls + [Syncing(date, time)], d, tapes, m', r)
    case Delete(name) =>
      && r.replies == []
      && if name in m && r.err == ERR_NONE then m' == Without(m, m[name].start)
         else m' == m && (r.err == ERR_EOF || (name in m && r.err == ERR_DENIED))
  }

  /** A job takes no more clusters than this, and with one more free it is sure to find them. */
  function Spare(g: Geo, job: Job): nat {
    match job
    case Update(name, flags, calls, _, _) =>
      MakeCost(g, name, flags) + (if g.spc == 0 then 0 else ClustNo(g, Weights(calls, |calls|))) + 1
    case Delete(_) => 0
  }

  /** The size a file has when it is opened. */
  ghost function StartSize(m: Catalogue, name: seq<byte>, flags: Flags): nat {
    if name in m && !flags.trunc then |m[name].content| else 0
  }

  /** Jobs that no card can do: to make a name that is too long, to go past 32 bits. */
  ghost predicate Unfit(m: Catalogue, job: Job) {
    match job
    case Update(name, flags, calls, _, _) =>
      || (name !in m && flags.create && |name| > MAX_NAME)
      || StartSize(m, name, flags) + Weights(calls, |calls|) > 0xffff_ffff
    case Delete(_) => false
  }

  lemma SpareCovers(g: Geo, name: seq<byte>, flags: Flags, calls: seq<Call>, date: nat, time: nat)
    ensures MakeCost(g, name, flags) + 1 <= Spare(g, Update(name, flags, calls, date, time))
  {
  }

  /** What an update costs, from the opening on: v is the volume when the file is open, w when it is closed, free what
      was free before. */
  lemma UpdateCost(g: Geo, name: seq<byte>, flags: Flags, calls: seq<Call>, date: nat, time: nat, v: Volume, w: Volume,
                   cs: seq<nat>, xs: seq<nat>, all: seq<nat>, size: nat, free: nat)
    requires GeoOk(g, |v|) && g.spc > 0 && size <= ByteCnt(g, xs) && |cs| <= |xs| + 1
    requires FreeCount(Tab(g, v)) + |cs| + MakeCost(g, name, flags) >= free + |xs|
    ensures Short(g, v, cs, size + Weights(calls, |calls|)) ==> free <= Spare(g, Update(name, flags, calls, date, time))
    ensures NoMore(g, cs, all, size + Weights(calls, |calls|)) ==>
              GeoOk(g, |w|) && FreeCount(Tab(g, w)) + |all| == FreeCount(Tab(g, v)) + |cs| ==>
              FreeCount(Tab(g, w)) + Spare(g, Update(name, flags, calls, date, time)) >= free
  {
    hide ClustNo, Tab, FreeUpTo, MakeCost, Short, NoMore, ByteCnt, Weights;
    RunCost(g, v, cs, xs, size, Weights(calls, |calls|));
  }

  lemma TapeSize(m: Catalogue, name: seq<byte>, flags: Flags, d: nat)
    ensures name in Opened(m, name, d)
    ensures Highest(TapeFor(Opened(m, name, d), name, flags.trunc, flags.append)) == StartSize(m, name, flags)
    ensures |TapeFor(Opened(m, name, d), name, flags.trunc, flags.append).content| == StartSize(m, name, flags)
  {
  }

  /** The calls saw a byte array that began as what the name stood for; now it stands for what that array became. */
  ghost predicate Updated(m: Catalogue, name: seq<byte>, flags: Flags, calls: seq<Call>, d: nat, tapes: seq<Tape>,
                          m': Catalogue, r: Report) {
    && (if name in m then d == m[name].start else Unused(m, d))
    && Runs(flags.read, flags.write, tapes, calls, r.replies) && |r.replies| == |calls|
    && tapes[0] == TapeFor(Opened(m, name, d), name, flags.trunc, flags.append)
    && m' == With(Opened(m, name, d), d, tapes[|calls|].content)
  }

  /** While a file is worked on, the directory keeps its chain. */
  lemma UnderwayHeads(g: Geo, v: Volume, w: Volume, c: nat, cs: seq<nat>, name: seq<byte>, x: nat, xs: seq<nat>,
                      all: seq<nat>, loc: Loc)
    requires Underway(g, v, w, c, cs, name, x, xs, all, loc) && ChainOn(g, w, x, all) && OnMedium(g, w, all)
    requires g.spc > 0 && g.dataSect <= loc.sect && loc.idx < SECTOR_SIZE
    ensures ChainOn(g, w, c, cs) && OnMedium(g, w, cs) && AllocOk(Tab(g, w)) && IsHead(Tab(g, w), c)
    ensures GeoOk(g, |w|) && IsHead(Tab(g, w), x) && x != c && ClustOf(g, loc.sect) in cs
  {
    hide Tab, AllocOk, IsHead, IsChain, Tidy, Contents, Dirents, Worked, Lookup, ChainSect, EntryClust, ClustOf, LocOf,
      EntryCnt, WellFormed;
    TidyParts(g, v, c, cs);
    ContentsAt(g, v, c, cs, name);
    NameStarts(g, v, c, cs, name);
    var p := Lookup(Dirents(g, v, cs), 0, name).at;
    LocInside(g, v, cs, p, loc);
    SyncedEntries(g, v, w, c, cs, p, x, xs, all);
  }

  lemma LocInside(g: Geo, v: Volume, cs: seq<nat>, p: nat, loc: Loc)
    requires OnMedium(g, v, cs) && LocOf(g, cs, p, loc)
    ensures g.dataSect <= loc.sect < |v| && ClustOf(g, loc.sect) in cs
    ensures p < EntryCnt(g, cs) && loc.sect == ChainSect(g, cs, p / PER_SECTOR)
    ensures loc.idx / ENTRY_SIZE == p % PER_SECTOR
  {
    hide ClustOf, ChainSect;
    ChainSectIn(g, |v|, cs, p / PER_SECTOR);
  }

  /** On one scene a job has been done, and the next has come of it. */
  ghost predicate JobEnds(g: Geo, c: nat, x: Scene, job: Job, y: Scene, r: Report) {
    && InOrder(g, c, x) && InOrder(g, c, y) && JobDone(Listing(g, c, x), job, Listing(g, c, y), r)
    && CountKept(g, x.vol, x.free, y.vol, y.free) && (r.err == ERR_NONE ==> y.card == y.vol)
    && FreeCount(Tab(g, y.vol)) + Spare(g, job) >= FreeCount(Tab(g, x.vol))
    && (job.Delete? ==> NameCode(g, x.vol, x.cs, job.name, TargetOf(g, x.vol, c, x.cs, job.name), r.err))
  }

  /** With a card that takes every transfer, the reasons for a job to fail. */
  ghost predicate Excused(g: Geo, c: nat, x: Scene, job: Job) {
    InOrder(g, c, x) && (Unfit(Listing(g, c, x), job) || FreeCount(Tab(g, x.vol)) <= Spare(g, job))
  }

  lemma OpenExcused(g: Geo, c: nat, x: Scene, name: seq<byte>, flags: Flags, calls: seq<Call>, date: nat, time: nat)
    requires CannotOpen(g, c, x, name, flags)
    ensures Excused(g, c, x, Update(name, flags, calls, date, time))
  {
    hide Tidy, Contents, Tab, FreeCount, MakeCost, StartSize, Weights;
    SpareCovers(g, name, flags, calls, date, time);
  }

  lemma JobIdle(g: Geo, c: nat, x: Scene, name: seq<byte>, flags: Flags, calls: seq<Call>, date: nat, time: nat,
                y: Scene)
    requires SameButCard(x, y) && InOrder(g, c, x) && NoFile(Listing(g, c, x), name, flags)
    ensures JobEnds(g, c, x, Update(name, flags, calls, date, time), y, Report(NoFileCode(flags), []))
  {
    hide Tidy, Contents, Tab, FreeCount, CountKept;
    CountIdle(g, x.vol, x.free);
  }

  lemma UpdateExcused(g: Geo, c: nat, x: Scene, name: seq<byte>, flags: Flags, calls: seq<Call>, date: nat, time: nat,
                      y: Scene, w: Volume, f: u32, d: nat, xs: seq<nat>, all: seq<nat>, loc: Loc, tape: Tape)
    requires NameOpened(g, c, x, name, flags, y, w, f, d, xs, all, loc, tape) && g.spc > 0
    requires Highest(tape) + Weights(calls, |calls|) > 0xffff_ffff
             || Short(g, w, all, Highest(tape) + Weights(calls, |calls|))
    ensures Excused(g, c, x, Update(name, flags, calls, date, time))
  {
    hide Tidy, Contents, Tab, FreeCount, MakeCost, StartSize, Weights, Underway, TapeFor, CountKept, Short, Spare,
      ByteCnt, NoMore, Opened, Highest;
    var m := Listing(g, c, x);
    InOrderParts(g, c, x);
    TapeSize(m, name, flags, d);
    UpdateCost(g, name, flags, calls, date, time, w, w, all, xs, all, StartSize(m, name, flags),
               FreeCount(Tab(g, x.vol)));
  }

  /** What was done to the file behind the opening, on top of what the opening did. */
  lemma UpdateOnly(g: Geo, c: nat, x: Scene, name: seq<byte>, flags: Flags, y: Scene, w: Volume, f: u32, d: nat,
                   xs: seq<nat>, all: seq<nat>, loc: Loc, tape: Tape, z: Volume)
    requires NameOpened(g, c, x, name, flags, y, w, f, d, xs, all, loc, tape) && OnlyNamed(g, c, x, name, w)
    requires ChainOn(g, w, d, all) && OnMedium(g, w, all) && g.dataSect <= loc.sect && loc.idx < SECTOR_SIZE
    requires Harmless(g, w, z, {d}, {ClustOf(g, loc.sect)})
    ensures OnlyNamed(g, c, x, name, z)
  {
    hide Tidy, Contents, Tab, FreeCount, MakeCost, Underway, TapeFor, CountKept, Harmless, ChainOn, OnMedium, ClustOf,
      ByteCnt, StartOf;
    WorkHarmless(g, x.vol, y.vol, w, z, c, x.cs, y.cs, name, d, xs, all, loc);
  }

  lemma UpdateEnds(g: Geo, c: nat, x: Scene, name: seq<byte>, flags: Flags, calls: seq<Call>, date: nat, time: nat,
                   y: Scene, w: Volume, f: u32, d: nat, xs: seq<nat>, all: seq<nat>, loc: Loc, tapes: seq<Tape>,
                   replies: seq<Reply>, z: Scene, more: seq<nat>)
    requires z.card == z.vol && |tapes| == |calls| + 2 && |replies| == |calls| + 1
    requires NameOpened(g, c, x, name, flags, y, w, f, d, xs, all, loc, tapes[0]) && g.spc > 0
    requires Runs(flags.read, flags.write, tapes, calls + [Syncing(date, time)], replies)
    requires NoMore(g, all, more, Highest(tapes[0]) + Weights(calls, |calls|)) && GeoOk(g, |z.vol|)
    requires FreeCount(Tab(g, z.vol)) + |more| == FreeCount(Tab(g, w)) + |all| && CountKept(g, w, f, z.vol, z.free)
    requires InOrder(g, c, z) && Listing(g, c, z) == With(Listing(g, c, y), d, tapes[|calls| + 1].content)
    ensures JobEnds(g, c, x, Update(name, flags, calls, date, time), z, Report(ERR_NONE, replies))
  {
    hide Tidy, Contents, Tab, FreeCount, MakeCost, StartSize, Weights, Underway, TapeFor, CountKept, Spare, ByteCnt,
      NoMore, Opened, Highest, Runs, With, Short, Unused;
    var m := Listing(g, c, x);
    InOrderParts(g, c, x);
    TapeSize(m, name, flags, d);
    UpdateCost(g, name, flags, calls, date, time, w, z.vol, all, xs, more, StartSize(m, name, flags),
               FreeCount(Tab(g, x.vol)));
    CountTrans(g, x.vol, x.free, w, f, z.vol, z.free);
    assert Updated(m, name, flags, calls + [Syncing(date, time)], d, tapes, Listing(g, c, z),
                   Report(ERR_NONE, replies));
  }

  lemma OpenedMeans(g: Geo, c: nat, x: Scene, name: seq<byte>, flags: Flags, y: Scene, w: Volume, f: u32, d: nat,
                    xs: seq<nat>, all: seq<nat>, loc: Loc, tape: Tape)
    requires NameOpened(g, c, x, name, flags, y, w, f, d, xs, all, loc, tape)
    ensures Underway(g, y.vol, w, c, y.cs, name, d, xs, all, loc) && InOrder(g, c, y)
  {
    hide Tidy, Contents, Tab, FreeCount, MakeCost, Underway, TapeFor, CountKept, ByteCnt;
  }

  /** fat_file_open, calls, fat_file_close. */
  method DoUpdate(dir: Dir, name: seq<byte>, flags: Flags, calls: seq<Call>, date: nat, time: nat, ghost k: nat)
    returns (ok: bool, r: Report)
    requires dir.Attached() && !dir.fat.spoiled && dir.CanGrow() && k <= dir.fat.at
    requires flags.create ==> PlainName(name)
    requires InOrder(dir.fat.g, dir.sclust, SceneOf(dir))
    modifies dir`clust, dir`sect, dir`idx, dir`q, dir`cs, dir`gbuf, dir`glen, dir`gcrc, dir.fat, dir.fat.dev
    ensures dir.fat.Steady()
    ensures OnlyNamed(dir.fat.g, dir.sclust, old(SceneOf(dir)), name, dir.fat.Now())
    ensures ok ==>
              && dir.Attached() && !dir.fat.spoiled && dir.CanGrow()
              && JobEnds(dir.fat.g, dir.sclust, old(SceneOf(dir)), Update(name, flags, calls, date, time),
                         SceneOf(dir), r)
    ensures !ok ==>
              || dir.fat.Refused()
              || Excused(dir.fat.g, dir.sclust, old(SceneOf(dir)), Update(name, flags, calls, date, time))
    ensures AllSafe(dir.fat.g, dir.fat.size, old(dir.fat.hist), k) ==> AllSafe(dir.fat.g, dir.fat.size, dir.fat.hist, k)
  {
    hide Worked, AllSafe, Later, Ordered, IsChain, ChainOn, OnMedium, CountKept, Harmless, Tidy, Contents, Dirents,
      Lookup, WellFormed, PlainName, AllocOk, Tab, IsHead, ClustOf, Underway, File.Home, Open, Runs, TapeOf,
      NameOpened, CannotOpen, OnlyNamed, JobEnds, Excused, Short, NoMore, Highest, Weights, Fat.Valid, FreeUpTo;
    var fat := dir.fat;
    ghost var l0, c, x := fat.Past(), dir.sclust, SceneOf(dir);
    fat.Mounted();
    var err, file, lost;
    ghost var y, xs;
    err, file, lost, y, xs := OpenNamed(dir, name, flags, date, time, k);
    r := Report(err, []);
    if err != ERR_NONE || lost {
      ok := err == ERR_DENIED || err == ERR_PATH;
      if ok {
        JobIdle(fat.g, c, x, name, flags, calls, date, time, SceneOf(dir));
      } else if CannotOpen(fat.g, c, x, name, flags) {
        OpenExcused(fat.g, c, x, name, flags, calls, date, time);
      }
      return;
    }
    ghost var l1, w, f, d, all, loc := fat.Past(), fat.Now(), fat.freeCnt, file.sclust, file.cs,
      Loc(file.dirSect, file.dirIdx);
    ghost var tape := TapeOf(file);
    OpenParts(file);
    OpenEnds(file);
    OpenedMeans(fat.g, c, x, name, flags, y, w, f, d, xs, all, loc, tape);
    UnderwayHeads(fat.g, y.vol, w, c, dir.cs, name, d, xs, all, loc);
    HomeIs(file);
    LaterMeans(l0, l1);
    var replies;
    ghost var tapes;
    ok, replies, tapes := UseAndClose(file, calls, date, time, k, y.vol, c, dir.cs, name, xs);
    LaterTrans(l0, l1, fat.Past());
    UpdateOnly(fat.g, c, x, name, flags, y, w, f, d, xs, all, loc, tape, fat.Now());
    r := Report(ERR_NONE, replies);
    if ok {
      TidyParts(fat.g, fat.Now(), c, dir.cs);
      TapeCount(flags.read, flags.write, tapes, calls + [Syncing(date, time)], replies);
      UpdateEnds(fat.g, c, x, name, flags, calls, date, time, y, w, f, d, xs, all, loc, tapes, replies, SceneOf(dir),
                 file.cs);
    } else if !fat.Refused() {
      UpdateExcused(fat.g, c, x, name, flags, calls, date, time, y, w, f, d, xs, all, loc, tape);
    }
  }

  lemma CountIdle(g: Geo, v: Volume, f: u32)
    ensures CountKept(g, v, f, v, f)
  {
  }

  /** What was done to the file between its opening and its closing, on top of what the opening did. */
  lemma WorkHarmless(g: Geo, v: Volume, base: Volume, v1: Volume, w: Volume, c: nat, cs: seq<nat>, cs1: seq<nat>,
                     name: seq<byte>, d: nat, xs: seq<nat>, all: seq<nat>, loc: Loc)
    requires Tidy(g, v, c, cs) && Underway(g, base, v1, c, cs1, name, d, xs, all, loc)
    requires ChainOn(g, v1, d, all) && OnMedium(g, v1, all) && g.dataSect <= loc.sect && loc.idx < SECTOR_SIZE
    requires Harmless(g, v, v1, {c, StartOf(Contents(g, v, c, cs), name, c)}, {})
    requires Harmless(g, v1, w, {d}, {ClustOf(g, loc.sect)})
    requires name in Contents(g, v, c, cs) ==> Contents(g, v, c, cs)[name].start == d
    requires name !in Contents(g, v, c, cs) ==> d < g.clustCnt && Tab(g, v)[d] == 0
    ensures Harmless(g, v, w, {c, StartOf(Contents(g, v, c, cs), name, c)}, {})
  {
    hide Tab, AllocOk, IsHead, IsChain, Tidy, Contents, Harmless, ChainOn, ClustersOk, ClustOf, Underway;
    TidyParts(g, v, c, cs);
    UnderwayHeads(g, base, v1, c, cs1, name, d, xs, all, loc);
    if name in Contents(g, v, c, cs) {
      HarmlessBeside(g, v1, w, c, cs1, d, ClustOf(g, loc.sect));
      HarmlessTrans(g, v, v1, w, {c, d}, {});
    } else {
      assert {c, c} == {c};
      HarmlessNew(g, v, v1, w, c, cs1, d, ClustOf(g, loc.sect));
    }
  }

  ghost function TargetOf(g: Geo, v: Volume, c: nat, cs: seq<nat>, name: seq<byte>): seq<nat>
    requires Tidy(g, v, c, cs)
  {
    var m := Contents(g, v, c, cs);
    if name in m then ChainFrom(Tab(g, v), m[name].start) else []
  }

  /** The chain a name leads to is apart from the directory's: fat_unlink may be asked for any name. */
  lemma NameTarget(g: Geo, v: Volume, c: nat, cs: seq<nat>, name: seq<byte>) returns (ds: seq<nat>)
    requires Tidy(g, v, c, cs)
    ensures TargetApart(g, v, c, cs, name, ds)
    ensures var m := Contents(g, v, c, cs);
      && (name in m <==> Listed(g, v, cs, name))
      && (name in m ==> |ds| > 0 && ds[0] == m[name].start >= 2)
      && (name !in m ==> ds == [])
    ensures ds == TargetOf(g, v, c, cs, name)
  {
    hide Tab, AllocOk, IsChain, WellFormed, Once, OwnersApart, AllNamed, Lookup, Dirents, Contents, EntryClust,
      EntrySize, Allocated, HasAttr;
    ContentsAt(g, v, c, cs, name);
    ds := [];
    if name in Contents(g, v, c, cs) {
      var e := Dirents(g, v, cs)[Lookup(Dirents(g, v, cs), 0, name).at];
      ds := ChainFrom(Tab(g, v), EntryClust(e));
      ChainBegins(Tab(g, v), EntryClust(e), ds);
    }
  }

  lemma ChainBegins(t: Table, c: nat, ds: seq<nat>)
    requires IsChain(t, c, ds)
    ensures |ds| > 0 && ds[0] == c
  {
  }

  /** Releasing clusters makes no cluster less free. */
  lemma {:induction false} FreeMono(t: Table, u: Table, k: nat)
    requires |t| == |u| && k <= |t| && forall i :: 0 <= i < |t| && t[i] == 0 ==> u[i] == 0
    ensures FreeUpTo(t, k) <= FreeUpTo(u, k)
  {
    if k > 2 {
      FreeMono(t, u, k - 1);
    }
  }

  lemma UnlinkedFrees(g: Geo, v: Volume, w: Volume, c: nat, cs: seq<nat>, name: seq<byte>, ds: seq<nat>)
    requires NameUnlinked(g, v, w, c, cs, name, ds)
    ensures GeoOk(g, |v|) && |v| == |w| && FreeCount(Tab(g, v)) <= FreeCount(Tab(g, w))
  {
    hide Dirents, Lookup, WellFormed, AllocOk, OtherChainsKept, Removed, AllFoundAfterRemove, FreeUpTo;
    FreeMono(Tab(g, v), Tab(g, w), g.clustCnt);
  }

  lemma DeleteEnds(g: Geo, c: nat, x: Scene, name: seq<byte>, ds: seq<nat>, y: Scene)
    requires InOrder(g, c, x) && name in Listing(g, c, x) && ds == TargetOf(g, x.vol, c, x.cs, name)
    requires ChainOn(g, y.vol, c, x.cs) && |ds| > 0 && ds[0] == Listing(g, c, x)[name].start
    requires NameUnlinked(g, x.vol, y.vol, c, x.cs, name, ds) && CountKept(g, x.vol, x.free, y.vol, y.free)
    requires y.cs == x.cs && y.card == y.vol && Harmless(g, x.vol, y.vol, {c, ds[0]}, {})
    requires NameCode(g, x.vol, x.cs, name, ds, ERR_NONE)
    ensures JobEnds(g, c, x, Delete(name), y, Report(ERR_NONE, []))
    ensures OnlyNamed(g, c, x, name, y.vol)
  {
    hide AllocOk, IsHead, IsChain, ChainOn, OnMedium, Dirents, Lookup, WellFormed, Contents, Harmless, Tidy, Listed,
      NameUnlinked, OthersKept, Without, NameCode, TargetOf, CountKept, Tab, FreeUpTo;
    TidyParts(g, x.vol, c, x.cs);
    NameStarts(g, x.vol, c, x.cs, name);
    UnlinkedFrees(g, x.vol, y.vol, c, x.cs, name, ds);
    HarmlessBoth(g, x.vol, y.vol, c, ds[0]);
    DeletedContents(g, x.vol, y.vol, c, x.cs, name, ds);
  }

  lemma DeleteIdle(g: Geo, c: nat, x: Scene, name: seq<byte>, ds: seq<nat>, err: int, y: Scene)
    requires SameButCard(x, y) && InOrder(g, c, x)
    requires ds == TargetOf(g, x.vol, c, x.cs, name) && NameCode(g, x.vol, x.cs, name, ds, err)
    requires err == ERR_EOF || (err == ERR_DENIED && name in Listing(g, c, x))
    ensures JobEnds(g, c, x, Delete(name), y, Report(err, []))
  {
    hide Tidy, Contents, Tab, FreeCount, CountKept, NameCode, TargetOf;
    CountIdle(g, x.vol, x.free);
  }

  /** fat_unlink. */
  method DoDelete(dir: Dir, name: seq<byte>, ghost k: nat) returns (ok: bool, r: Report)
    requires dir.Attached() && !dir.fat.spoiled && dir.CanGrow() && k <= dir.fat.at
    requires InOrder(dir.fat.g, dir.sclust, SceneOf(dir))
    modifies dir`clust, dir`sect, dir`idx, dir`q, dir`gbuf, dir`glen, dir`gcrc, dir.fat, dir.fat.dev
    ensures dir.fat.Steady()
    ensures OnlyNamed(dir.fat.g, dir.sclust, old(SceneOf(dir)), name, dir.fat.Now())
    ensures ok ==>
              && dir.Attached() && !dir.fat.spoiled && dir.CanGrow()
              && JobEnds(dir.fat.g, dir.sclust, old(SceneOf(dir)), Delete(name), SceneOf(dir), r)
    ensures !ok ==> dir.fat.Refused()
    ensures AllSafe(dir.fat.g, dir.fat.size, old(dir.fat.hist), k) ==> AllSafe(dir.fat.g, dir.fat.size, dir.fat.hist, k)
  {
    hide AllSafe, Later, Ordered, IsChain, ChainOn, OnMedium, CountKept, Harmless, Tidy, Contents, Dirents, Lookup,
      WellFormed, AllocOk, Tab, IsHead, TargetApart, Listed, NameUnlinked, Fat.Valid, NameCode, TargetOf, JobEnds;
    var fat := dir.fat;
    ghost var c, x := dir.sclust, SceneOf(dir);
    TidyParts(fat.g, x.vol, c, x.cs);
    ghost var ds := NameTarget(fat.g, x.vol, c, x.cs, name);
    var err := UnlinkName(dir, name, ds, k);
    ok, r := err != ERR_IO, Report(err, []);
    if name in Listing(fat.g, c, x) {
      if err == ERR_NONE {
        DeleteEnds(fat.g, c, x, name, ds, SceneOf(dir));
      } else if ok {
        DeleteIdle(fat.g, c, x, name, ds, err, SceneOf(dir));
      }
    } else {
      HarmlessNone(fat.g, x.vol, c, x.cs, c);
      if ok {
        DeleteIdle(fat.g, c, x, name, ds, err, SceneOf(dir));
      }
    }
  }

  lemma HarmlessBoth(g: Geo, v: Volume, w: Volume, c: nat, d: nat)
    requires Harmless(g, v, w, {c, d}, {}) && AllocOk(Tab(g, v)) && IsHead(Tab(g, v), c) && IsHead(Tab(g, v), d)
    ensures AllocOk(Tab(g, w)) && IsHead(Tab(g, w), c) && OthersKept(g, v, w, {c, d}, {})
  {
    hide Tab, AllocOk, OthersKept;
  }

  method DoJob(dir: Dir, job: Job, ghost k: nat) returns (ok: bool, r: Report)
    requires dir.Attached() && !dir.fat.spoiled && dir.CanGrow() && k <= dir.fat.at && NameFits(job)
    requires InOrder(dir.fat.g, dir.sclust, SceneOf(dir))
    modifies dir`clust, dir`sect, dir`idx, dir`q, dir`cs, dir`gbuf, dir`glen, dir`gcrc, dir.fat, dir.fat.dev
    ensures dir.fat.Steady()
    ensures OnlyNamed(dir.fat.g, dir.sclust, old(SceneOf(dir)), job.name, dir.fat.Now())
    ensures ok ==>
              && dir.Attached() && !dir.fat.spoiled && dir.CanGrow()
              && JobEnds(dir.fat.g, dir.sclust, old(SceneOf(dir)), job, SceneOf(dir), r)
    ensures !ok ==> dir.fat.Refused() || Excused(dir.fat.g, dir.sclust, old(SceneOf(dir)), job)
    ensures AllSafe(dir.fat.g, dir.fat.size, old(dir.fat.hist), k) ==> AllSafe(dir.fat.g, dir.fat.size, dir.fat.hist, k)
  {
    hide AllSafe, Later, OnlyNamed, Tidy, JobEnds, Excused, Fat.Valid, Dir.Attached;
    match job
    case Update(name, flags, calls, date, time) => ok, r := DoUpdate(dir, name, flags, calls, date, time, k);
    case Delete(name) => ok, r := DoDelete(dir, name, k);
  }

  /** Jobs one after the other: each makes of the scene before it the next one, and of the names and bytes what it
      should. */
  ghost predicate History(g: Geo, c: nat, xs: seq<Scene>, jobs: seq<Job>, rs: seq<Report>) {
    && |xs| == |rs| + 1 <= |jobs| + 1 && InOrder(g, c, xs[0])
    && (forall i :: 0 <= i < |rs| ==> JobEnds(g, c, xs[i], jobs[i], xs[i + 1], rs[i]))
  }

  lemma HistoryStart(g: Geo, c: nat, x: Scene, jobs: seq<Job>)
    requires InOrder(g, c, x)
    ensures History(g, c, [x], jobs, [])
  {
    hide InOrder, JobEnds;
  }

  lemma HistoryStep(g: Geo, c: nat, xs: seq<Scene>, jobs: seq<Job>, rs: seq<Report>, y: Scene, r: Report)
    requires History(g, c, xs, jobs, rs) && |rs| < |jobs| && JobEnds(g, c, xs[|rs|], jobs[|rs|], y, r)
    ensures History(g, c, xs + [y], jobs, rs + [r])
  {
    hide InOrder, JobEnds;
  }

  // ---------------------------------------------------------------- jobs that a card can do

  /** The bytes that a job can add to a file. */
  function Load(job: Job): nat {
    match job
    case Update(_, _, calls, _, _) => Weights(calls, |calls|)
    case Delete(_) => 0
  }

  function Loads(jobs: seq<Job>, n: nat): nat
    requires n <= |jobs|
  {
    if n == 0 then 0 else Loads(jobs, n - 1) + Load(jobs[n - 1])
  }

  /** The clusters that the first n jobs can take. */
  function Spares(g: Geo, jobs: seq<Job>, n: nat): nat
    requires n <= |jobs|
  {
    if n == 0 then 0 else Spares(g, jobs, n - 1) + Spare(g, jobs[n - 1])
  }

  /** No file is larger than top. */
  ghost predicate Within(m: Catalogue, top: int) {
    top >= 0 && forall n :: n in m ==> |m[n].content| <= top
  }

  /** Jobs that all can be done: no name to be made is too long, and no file can get past 32 bits. */
  ghost predicate Fit(m: Catalogue, jobs: seq<Job>) {
    && Within(m, 0xffff_ffff - Loads(jobs, |jobs|))
    && forall i :: 0 <= i < |jobs| && jobs[i].Update? && jobs[i].flags.create ==> |jobs[i].name| <= MAX_NAME
  }

  lemma {:induction false} LoadsMono(jobs: seq<Job>, n: nat, m: nat)
    requires n <= m <= |jobs|
    ensures Loads(jobs, n) <= Loads(jobs, m)
    decreases m
  {
    hide Load;
    if n < m {
      LoadsMono(jobs, n, m - 1);
    }
  }

  lemma {:induction false} SparesMono(g: Geo, jobs: seq<Job>, n: nat, m: nat)
    requires n <= m <= |jobs|
    ensures Spares(g, jobs, n) <= Spares(g, jobs, m)
    decreases m
  {
    hide Spare;
    if n < m {
      SparesMono(g, jobs, n, m - 1);
    }
  }

  /** A job makes no file larger than it was by more than its load. */
  lemma JobWithin(m: Catalogue, job: Job, m': Catalogue, r: Report, top: int)
    requires JobDone(m, job, m', r) && Within(m, top)
    ensures Within(m', top + Load(job))
  {
    hide Runs, Highest, Unused;
    match job
    case Delete(_) =>
    case Update(name, flags, calls, date, time) =>
      if !NoFile(m, name, flags) {
        var close := Syncing(date, time);
        var d, tapes :| Updated(m, name, flags, calls + [close], d, tapes, m', r);
        TapeCount(flags.read, flags.write, tapes, calls + [close], r.replies);
        RunReach(flags.read, flags.write, tapes, calls + [close], r.replies, |calls| + 1);
        CloseWeight(calls, close);
        TapeSize(m, name, flags, d);
        HighestHolds(tapes[|calls| + 1]);
      }
  }

  lemma HighestHolds(a: Tape)
    ensures |a.content| <= Highest(a)
  {
  }

  /** Such jobs stay possible from the first to the last. */
  lemma {:induction false} FitThroughout(g: Geo, c: nat, xs: seq<Scene>, jobs: seq<Job>, rs: seq<Report>, n: nat)
    requires History(g, c, xs, jobs, rs) && Fit(Listing(g, c, xs[0]), jobs) && n <= |rs|
    ensures InOrder(g, c, xs[n])
    ensures Within(Listing(g, c, xs[n]), 0xffff_ffff - Loads(jobs, |jobs|) + Loads(jobs, n))
    ensures n < |jobs| ==> !Unfit(Listing(g, c, xs[n]), jobs[n])
  {
    hide JobDone, Load, JobEnds, InOrder, Listing;
    if n > 0 {
      FitThroughout(g, c, xs, jobs, rs, n - 1);
      assert JobEnds(g, c, xs[n - 1], jobs[n - 1], xs[n], rs[n - 1]);
      EndsDone(g, c, xs[n - 1], jobs[n - 1], xs[n], rs[n - 1]);
      JobWithin(Listing(g, c, xs[n - 1]), jobs[n - 1], Listing(g, c, xs[n]), rs[n - 1],
                0xffff_ffff - Loads(jobs, |jobs|) + Loads(jobs, n - 1));
    }
    if n < |jobs| {
      LoadsMono(jobs, n + 1, |jobs|);
      FitOne(Listing(g, c, xs[n]), jobs[n], 0xffff_ffff - Loads(jobs, |jobs|) + Loads(jobs, n));
    }
  }

  lemma EndsDone(g: Geo, c: nat, x: Scene, job: Job, y: Scene, r: Report)
    requires JobEnds(g, c, x, job, y, r)
    ensures InOrder(g, c, x) && InOrder(g, c, y) && JobDone(Listing(g, c, x), job, Listing(g, c, y), r)
    ensures GeoOk(g, |x.vol|) && GeoOk(g, |y.vol|) && CountKept(g, x.vol, x.free, y.vol, y.free)
    ensures FreeCount(Tab(g, y.vol)) + Spare(g, job) >= FreeCount(Tab(g, x.vol))
  {
    hide Tidy, Contents, CountKept, FreeCount, Tab, JobDone, NameCode;
    TidyParts(g, x.vol, c, x.cs);
    TidyParts(g, y.vol, c, y.cs);
  }

  lemma FitOne(m: Catalogue, job: Job, top: int)
    requires Within(m, top) && top + Load(job) <= 0xffff_ffff
    requires job.Update? && job.flags.create ==> |job.name| <= MAX_NAME
    ensures !Unfit(m, job)
  {
  }

  /** Over a run the free count stays as right as it was, and no more clusters are taken than the jobs can take. */
  lemma {:induction false} RunCounted(g: Geo, c: nat, xs: seq<Scene>, jobs: seq<Job>, rs: seq<Report>, n: nat)
    requires History(g, c, xs, jobs, rs) && n <= |rs|
    ensures InOrder(g, c, xs[n]) && GeoOk(g, |xs[0].vol|) && GeoOk(g, |xs[n].vol|)
    ensures CountKept(g, xs[0].vol, xs[0].free, xs[n].vol, xs[n].free)
    ensures FreeCount(Tab(g, xs[n].vol)) + Spares(g, jobs, n) >= FreeCount(Tab(g, xs[0].vol))
  {
    hide JobDone, JobEnds, Tidy, CountKept, FreeCount, Tab, Spare;
    if n == 0 {
      TidyParts(g, xs[0].vol, c, xs[0].cs);
      CountIdle(g, xs[0].vol, xs[0].free);
    } else {
      RunCounted(g, c, xs, jobs, rs, n - 1);
      assert JobEnds(g, c, xs[n - 1], jobs[n - 1], xs[n], rs[n - 1]);
      EndsDone(g, c, xs[n - 1], jobs[n - 1], xs[n], rs[n - 1]);
      CountTrans(g, xs[0].vol, xs[0].free, xs[n - 1].vol, xs[n - 1].free, xs[n].vol, xs[n].free);
    }
  }

  /** With jobs that fit and enough free clusters there is no excuse. */
  lemma NoExcuse(g: Geo, c: nat, xs: seq<Scene>, jobs: seq<Job>, rs: seq<Report>)
    requires History(g, c, xs, jobs, rs) && |rs| < |jobs| && Fit(Listing(g, c, xs[0]), jobs)
    requires GeoOk(g, |xs[0].vol|) && FreeCount(Tab(g, xs[0].vol)) > Spares(g, jobs, |jobs|)
    ensures !Excused(g, c, xs[|rs|], jobs[|rs|])
  {
    hide JobEnds, InOrder, Listing, Fit, Unfit, CountKept, FreeCount, Tab, Spare;
    FitThroughout(g, c, xs, jobs, rs, |rs|);
    RunCounted(g, c, xs, jobs, rs, |rs|);
    SparesMono(g, jobs, |rs| + 1, |jobs|);
  }

  /** Any jobs on a directory in order. Up to the first that fails they do to the map from names to bytes what they
      should, and after one that succeeds the card alone holds it all. With jobs that fit, enough free clusters and a
      card that takes every transfer, none fails. One that fails harms no other file. xs are the scenes before each job
      and behind the last. */
  method RunJobs(dir: Dir, jobs: seq<Job>, ghost k: nat) returns (ok: bool, rs: seq<Report>, ghost xs: seq<Scene>)
    requires dir.Attached() && !dir.fat.spoiled && dir.CanGrow() && k <= dir.fat.at
    requires InOrder(dir.fat.g, dir.sclust, SceneOf(dir)) && forall i :: 0 <= i < |jobs| ==> NameFits(jobs[i])
    modifies dir`clust, dir`sect, dir`idx, dir`q, dir`cs, dir`gbuf, dir`glen, dir`gcrc, dir.fat, dir.fat.dev
    ensures dir.fat.Steady()
    ensures History(dir.fat.g, dir.sclust, xs, jobs, rs) && xs[0] == old(SceneOf(dir))
    ensures if ok then |rs| == |jobs| else |rs| < |jobs|
    ensures ok ==> dir.Attached() && !dir.fat.spoiled && dir.CanGrow() && xs[|jobs|] == SceneOf(dir)
    ensures !dir.fat.Refused() && Fit(Listing(dir.fat.g, dir.sclust, xs[0]), jobs) ==>
              GeoOk(dir.fat.g, |xs[0].vol|)
              && (FreeCount(Tab(dir.fat.g, xs[0].vol)) > Spares(dir.fat.g, jobs, |jobs|) ==> ok)
    ensures !ok ==> OnlyNamed(dir.fat.g, dir.sclust, xs[|rs|], jobs[|rs|].name, dir.fat.Now())
    ensures AllSafe(dir.fat.g, dir.fat.size, old(dir.fat.hist), k) ==> AllSafe(dir.fat.g, dir.fat.size, dir.fat.hist, k)
  {
    hide AllSafe, Later, Ordered, InOrder, OnlyNamed, JobEnds, Excused, Fat.Valid, NameFits, History, Fit, FreeCount,
      Tab, Spares, Listing;
    var fat := dir.fat;
    ghost var l0, c := fat.Past(), dir.sclust;
    ok, rs, xs := true, [], [SceneOf(dir)];
    fat.Mounted();
    LaterRefl(l0);
    InOrderParts(fat.g, c, xs[0]);
    HistoryStart(fat.g, c, xs[0], jobs);
    while |rs| < |jobs|
      invariant old(dir.fat.dev.refused) <= fat.dev.refused
      invariant dir.Attached() && !fat.spoiled && dir.CanGrow() && Later(l0, fat.Past()) && k <= fat.at
      invariant |xs| == |rs| + 1 <= |jobs| + 1 && History(fat.g, c, xs, jobs, rs)
      invariant xs[0] == old(SceneOf(dir)) && xs[|rs|] == SceneOf(dir) && InOrder(fat.g, c, xs[|rs|])
      invariant AllSafe(fat.g, fat.size, old(fat.hist), k) ==> AllSafe(fat.g, fat.size, fat.hist, k)
    {
      ghost var l := fat.Past();
      var r;
      ok, r := DoJob(dir, jobs[|rs|], k);
      LaterTrans(l0, l, fat.Past());
      if !ok {
        if Fit(Listing(fat.g, c, xs[0]), jobs) && FreeCount(Tab(fat.g, xs[0].vol)) > Spares(fat.g, jobs, |jobs|) {
          NoExcuse(fat.g, c, xs, jobs, rs);
        }
        return;
      }
      LaterMeans(l0, fat.Past());
      EndsInOrder(fat.g, c, xs[|rs|], jobs[|rs|], SceneOf(dir), r);
      HistoryStep(fat.g, c, xs, jobs, rs, SceneOf(dir), r);
      rs, xs := rs + [r], xs + [SceneOf(dir)];
    }
  }

  lemma InOrderParts(g: Geo, c: nat, x: Scene)
    requires InOrder(g, c, x)
    ensures GeoOk(g, |x.vol|)
  {
    hide Tidy;
    TidyParts(g, x.vol, c, x.cs);
  }

  lemma EndsInOrder(g: Geo, c: nat, x: Scene, job: Job, y: Scene, r: Report)
    requires JobEnds(g, c, x, job, y, r)
    ensures InOrder(g, c, y)
  {
    hide InOrder, Listing;
  }

  /** What a failed job leaves of every file that is not the one it was about: its chain, and its bytes. */
  lemma FailureKeeps(g: Geo, v: Volume, w: Volume, c: nat, cs: seq<nat>, x: nat, n: seq<byte>) returns (xs: seq<nat>)
    requires Tidy(g, v, c, cs) && Harmless(g, v, w, {c, x}, {}) && (x == c || IsHead(Tab(g, v), x))
    requires n in Contents(g, v, c, cs) && Contents(g, v, c, cs)[n].start != x
    ensures var s := Contents(g, v, c, cs)[n];
      && AllocOk(Tab(g, w)) && ChainOn(g, w, s.start, xs) && OnMedium(g, w, xs) && IsHead(Tab(g, w), s.start)
      && |s.content| <= ByteCnt(g, xs) && Allocated(g, w, xs)[..|s.content|] == s.content
  {
    hide AllocOk, IsChain, Dirents, WellFormed, Once, OwnersApart, AllNamed, Lookup, EntryClust, EntrySize, Allocated,
      ClustersOk, Contents, Tab;
    ContentsAt(g, v, c, cs, n);
    var e := Dirents(g, v, cs)[Lookup(Dirents(g, v, cs), 0, n).at];
    xs := ChainFrom(Tab(g, v), EntryClust(e));
    assert Undisturbed(g, v, w, EntryClust(e), xs);
  }
}
