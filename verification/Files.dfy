/** An open file: a cursor over the chain of its clusters, with a sector buffer of its own. */
module Files {
  import opened Arith
  import opened Bytes
  import opened Chain
  import opened Layout
  import opened FatVolume
  import opened LongName
  import opened DirLayout
  import opened DirGrow
  import opened FileBytes
  import opened Sparing
  import opened Bystanders

  datatype Whence = FromStart | FromCurrent | FromEnd

  /** The sector number of a handle that has not loaded any; no medium has it. */
  const NO_SECT := 0xffff_ffff

  /** The volume with the handle's buffer in place of the sector it stands for. */
  function Overlay(v: Volume, s: nat, data: Sector): (w: Volume)
    ensures |w| == |v|
  {
    if s < |v| then v[s := data] else v
  }

  /** s is a sector of one of the clusters cs. */
  predicate IsDataSect(g: Geo, cs: seq<nat>, s: nat) {
    g.spc > 0 && g.dataSect <= s && ClustOf(g, s) in cs
  }

  /** The cursor: off lies in cluster clust of the chain. The driver's index, off divided by the cluster size in
      bytes, is this one by ClusterIndex. */
  predicate At(g: Geo, cs: seq<nat>, off: nat, clust: nat) {
    g.spc > 0 && ClustNo(g, off) < |cs| && clust == cs[ClustNo(g, off)]
  }

  /** The cluster of a file an offset lies in, counted from 0. */
  function ClustNo(g: Geo, off: nat): nat
    requires g.spc > 0
  {
    off / SECTOR_SIZE / g.spc
  }

  /** clust_size of fat_file_seek. */
  function ClusterSize(g: Geo): (n: nat)
    requires g.spc > 0
    ensures n > 0
  {
    SECTOR_SIZE * g.spc
  }

  /** The index of the cluster an offset lies in, as fat_file_seek computes it. */
  function ClustIdx(g: Geo, off: nat): nat
    requires g.spc > 0
  {
    off / ClusterSize(g)
  }

  lemma ClustIdxMono(g: Geo, a: nat, b: nat)
    requires g.spc > 0 && a <= b
    ensures ClustIdx(g, a) <= ClustIdx(g, b)
  {
    DivMono(a, b, ClusterSize(g));
  }

  lemma ClustIdxBetween(g: Geo, off: nat, cnt: nat, n: nat)
    requires g.spc > 0 && cnt <= n
    ensures ClustIdx(g, off) <= ClustIdx(g, off + cnt) <= ClustIdx(g, off + n)
  {
    ClustIdxMono(g, off, off + cnt);
    ClustIdxMono(g, off + cnt, off + n);
  }

  /** The sector the offset lies in. */
  predicate SectFor(g: Geo, cs: seq<nat>, off: nat, s: nat) {
    && g.spc > 0 && ClustersOk(g, cs) && off < ByteCnt(g, cs)
    && s == ChainSect(g, cs, off / SECTOR_SIZE)
  }

  /** The sector of cluster clust that offset off of the file lies in. */
  function SectIn(g: Geo, clust: nat, off: nat): nat
    requires g.spc > 0 && clust >= 2
  {
    SectOf(g, clust) + off / SECTOR_SIZE % g.spc
  }

  lemma SectForAt(g: Geo, size: nat, cs: seq<nat>, off: nat, clust: nat)
    requires DataOk(g, size) && ClustersOk(g, cs) && At(g, cs, off, clust)
    ensures clust >= 2 && SectFor(g, cs, off, SectIn(g, clust, off))
    ensures g.dataSect <= SectIn(g, clust, off) < size && IsDataSect(g, cs, SectIn(g, clust, off))
  {
    hide SectOf, SectCnt, ClustOf, DataOk, ChainSect;
    IndexIn(g, cs, off / SECTOR_SIZE);
    SectorIndex(off, SectCnt(g, cs));
    ChainSectIn(g, size, cs, off / SECTOR_SIZE);
    ChainSectIs(g, cs, off / SECTOR_SIZE);
  }

  // ---------------------------------------------------------------- what a step does to the bytes

  /** Appending a cluster to the chain of a file. */
  lemma StretchFile(g: Geo, v: Volume, w: Volume, c: nat, cs: seq<nat>, last: nat, d: nat)
    requires ChainOn(g, v, c, cs) && OnMedium(g, v, cs) && 2 <= last < g.clustCnt && |w| == |v|
    requires Stretched(g, v, last, cs[|cs| - 1], d, w) && 2 <= d
    ensures Tab(g, v)[d] == 0 && d !in cs
    ensures Tab(g, w) == Linked(Tab(g, v), cs[|cs| - 1], d) && (Mirrored(g, v) ==> Mirrored(g, w))
    ensures SameData(g, v, w) && SameOutside(g, v, w, [d])
    ensures ChainOn(g, w, c, cs + [d]) && OnMedium(g, w, cs + [d])
  {
    hide Tab, Choose, Linked, OnlyTables, Mirrored;
    ChainTable(g, v, c, cs);
    var t := Tab(g, v);
    ChooseResult(t, last, cs[|cs| - 1]);
    NewNotOld(t, c, cs, d);
    ChainLink(t, c, cs, |cs| - 1);
    LinkedChain(t, cs[|cs| - 1], d, c, cs);
    TablesOnlySameData(g, v, w);
  }

  lemma ChainTable(g: Geo, v: Volume, c: nat, cs: seq<nat>)
    requires ChainOn(g, v, c, cs)
    ensures TableOk(Tab(g, v)) && |cs| > 0
  {
  }

  lemma SameDataOutside(g: Geo, v: Volume, w: Volume, cs: seq<nat>)
    requires SameData(g, v, w) && g.spc > 0
    ensures SameOutside(g, v, w, cs)
  {
  }

  lemma SameDataTrans(g: Geo, u: Volume, v: Volume, w: Volume)
    requires SameData(g, u, v) && SameData(g, v, w)
    ensures SameData(g, u, w)
  {
  }

  /** Writing a sector of the chain keeps the chain, the tables and everybody else's data. */
  lemma RawKeeps(g: Geo, v: Volume, c: nat, cs: seq<nat>, s: nat, data: Sector)
    requires ChainOn(g, v, c, cs) && OnMedium(g, v, cs) && IsDataSect(g, cs, s) && s < |v|
    ensures ChainOn(g, v[s := data], c, cs) && OnMedium(g, v[s := data], cs)
    ensures SameSystem(g, v, v[s := data]) && SameOutside(g, v, v[s := data], cs)
  {
    DataKeepsTables(g, v, v[s := data]);
  }

  // ---------------------------------------------------------------- the handle

  class File {
    const fat: Fat
    const dirSect: nat
    const dirIdx: nat
    var sclust: nat
    var clust: nat
    var sect: nat
    var size: u32
    var offset: u32
    var buf: Sector
    var canRead: bool    // FAT_READ
    var canWrite: bool   // FAT_WRITE
    var accessed: bool   // FAT_ACCESSED
    var modified: bool   // FAT_MODIFIED
    var dirty: bool      // FAT_FILE_DIRTY
    ghost var cs: seq<nat>

    /** The chain is on the volume, and the volume's own buffer holds none of its sectors. */
    ghost predicate Attached()
      reads this, fat, fat.dev
    {
      && fat.Valid() && 2 <= fat.lastUsed < fat.g.clustCnt
      && ChainOn(fat.g, fat.Now(), sclust, cs) && OnMedium(fat.g, fat.Now(), cs)
      && !IsDataSect(fat.g, cs, fat.sect)
    }

    /** The buffer stands for sector s: unless changed, it is a copy of it. */
    ghost predicate Buffers(s: nat)
      reads this, fat, fat.dev
    {
      if s == NO_SECT then !dirty
      else s < fat.size && IsDataSect(fat.g, cs, s) && (!(dirty && modified) && s < |fat.Now()| ==> buf == fat.Now()[s])
    }

    ghost predicate Valid()
      reads this, fat, fat.dev
    {
      && Attached() && Buffers(sect) && At(fat.g, cs, offset, clust)
      && size <= ByteCnt(fat.g, cs)
      && (sect != NO_SECT ==> SectFor(fat.g, cs, offset, sect))
    }

    /** After a successful seek. */
    ghost predicate Ready()
      reads this, fat, fat.dev
    {
      Valid() && sect != NO_SECT
    }

    /** The volume as this handle will leave it. */
    ghost function View(s: nat): Volume
      reads this, fat, fat.dev
    {
      Overlay(fat.Now(), s, buf)
    }

    /** All bytes of the clusters the file has, also those past its size. */
    ghost function Data(): seq<byte>
      requires Attached()
      reads this, fat, fat.dev
    {
      Allocated(fat.g, View(sect), cs)
    }

    /** The abstract file: a byte array, with offset as its cursor. */
    ghost function Content(): seq<byte>
      requires Valid()
      reads this, fat, fat.dev
    {
      Data()[..size]
    }

    /** The links a seek to off follows start in a cluster whose entry the volume's buffer does not hold spoiled. */
    ghost predicate WalkTrusted(off: nat)
      reads this, fat
    {
      && fat.g.spc > 0
      && var src, dst := ClustIdx(fat.g, offset), ClustIdx(fat.g, off);
         && (0 < dst < src ==> fat.Trusted(fat.FatSect(sclust)))
         && (src < dst ==> fat.Trusted(fat.FatSect(clust)))
    }

    /** As far as the next n bytes go. */
    ghost predicate AheadTrusted(n: nat)
      reads this, fat
    {
      fat.g.spc > 0 && (ClustIdx(fat.g, offset) == ClustIdx(fat.g, offset + n) || fat.Trusted(fat.FatSect(clust)))
    }

    /** Of the volume's buffer: it stands for the sector it stood for, or for one below the data area. */
    twostate predicate BufferElsewhere()
      reads this, fat
    {
      && (fat.sect == old(fat.sect) || fat.sect < fat.g.dataSect)
      && (fat.spoiled ==> old(fat.spoiled) && fat.sect == old(fat.sect))
    }

    /** The same after a sync, which asks for the sector of the entry, too. */
    twostate predicate BufferAtEntry()
      reads this, fat
    {
      && (fat.sect == old(fat.sect) || fat.sect < fat.g.dataSect || fat.sect == dirSect)
      && (fat.spoiled ==> old(fat.spoiled) && fat.sect == old(fat.sect))
    }

    /** The first request of a sync is for the entry or, if there is nothing to say there, for FSInfo. */
    ghost predicate SyncTrusted()
      reads this, fat
    {
      if accessed || modified then fat.Trusted(dirSect) else fat.infoDirty ==> fat.Trusted(fat.g.infoSect)
    }

    /** fat_file_open, once the entry e has been found or made: the fields, before the first seek. */
    constructor Attach(fat: Fat, dirSect: nat, dirIdx: nat, e: Entry, read: bool, write: bool, trunc: bool,
                       ghost cs: seq<nat>)
      requires fat.Valid() && 2 <= fat.lastUsed < fat.g.clustCnt
      requires ChainOn(fat.g, fat.Now(), EntryClust(e), cs) && OnMedium(fat.g, fat.Now(), cs)
      requires !IsDataSect(fat.g, cs, fat.sect) && EntrySize(e) <= ByteCnt(fat.g, cs)
      ensures Valid() && sect == NO_SECT && offset == 0 && Data() == Allocated(fat.g, fat.Now(), cs)
      ensures this.fat == fat && this.cs == cs && this.dirSect == dirSect && this.dirIdx == dirIdx
      ensures sclust == EntryClust(e)
      ensures canRead == read && canWrite == write && !accessed && !dirty
      ensures size == (if trunc then 0 else EntrySize(e)) && (modified <==> trunc && EntrySize(e) != 0)
    {
      this.fat, this.dirSect, this.dirIdx, this.cs := fat, dirSect, dirIdx, cs;
      sclust, clust, sect, offset := EntryClust(e), EntryClust(e), NO_SECT, 0;
      size := if trunc then 0 else EntrySize(e);
      buf := *;
      canRead, canWrite, accessed, modified, dirty := read, write, false, trunc && EntrySize(e) != 0, false;
      FirstOffset(fat.g, cs);
    }

    /** The stretch_chain of fat_file_seek, at the last cluster of the chain. */
    method Append(ghost k: nat) returns (err: int, next: nat)
      requires Attached() && |cs| > 0 && clust == cs[|cs| - 1] && k <= fat.at && !fat.spoiled
      modifies this`cs, fat, fat.dev
      ensures fat.Steady() && SameData(fat.g, old(fat.Now()), fat.Now()) && IsStepErr(err)
      ensures AllocOk(Tab(fat.g, old(fat.Now()))) && err != ERR_NONE ==>
                fat.Refused() || (err == ERR_FULL && FreeCount(Tab(fat.g, old(fat.Now()))) <= 1)
      ensures err == ERR_IO ==> fat.Refused()
      ensures Harmless(fat.g, old(fat.Now()), fat.Now(), {sclust}, {})
      ensures err != ERR_NONE ==> cs == old(cs)
      ensures err == ERR_NONE ==>
                && cs == old(cs) + [next] && Attached() && Grown(fat.g, old(fat.Now()), fat.Now(), old(cs), cs)
                && !fat.spoiled && fat.sect < fat.g.dataSect && fat.freeCnt == AddWrap(old(fat.freeCnt), -1)
      ensures AllSafe(fat.g, fat.size, old(fat.hist), k) ==> AllSafe(fat.g, fat.size, fat.hist, k)
    {
      hide Harmless, Ordered, IsChain, ChainOn, OnlyTables, Stretched, AllSafe, CrashSafe, SameData, SameOutside,
        Mirrored, Tab, Grown, Linked, ClustersOk, AddWrap, ProbeWord;
      ghost var l, v, last := fat.Past(), fat.Now(), fat.lastUsed;
      ChainEnds(fat.g, v, sclust, cs, |cs| - 1);
      var lost;
      ghost var failed, stale;
      err, next, lost, failed, stale := fat.StretchChain(clust, k);
      TablesOnlySameData(fat.g, v, fat.Now());
      TakenFew(Tab(fat.g, v), last, clust);
      HarmlessTaking(fat.g, v, fat.Now(), sclust, cs);
      if AllSafe(fat.g, fat.size, l.hist, k) {
        CrashSafeMeans(fat.g, fat.size, fat.Past(), fat.dev.sects, k, |l.trace|);
      }
      if err != ERR_NONE {
        return;
      }
      StretchFile(fat.g, v, fat.Now(), sclust, cs, last, next);
      GrownRefl(fat.g, v, cs);
      GrownStretch(fat.g, v, v, fat.Now(), cs, cs, next);
      InfoBelowData(fat.g, fat.size, cs);
      cs := cs + [next];
    }

    /** One turn of the loop of fat_file_seek: follow the link of the cluster, or append one. */
    method FollowOne(ghost i: nat, ghost k: nat) returns (err: int)
      requires Attached() && i < |cs| && clust == cs[i] && k <= fat.at && fat.Trusted(fat.FatSect(clust))
      modifies this`clust, this`cs, fat, fat.dev
      ensures fat.Steady() && old(cs) <= cs && SameData(fat.g, old(fat.Now()), fat.Now()) && IsStepErr(err)
      ensures i + 1 < |old(cs)| ==> err == ERR_NONE || err == ERR_IO
      ensures AllocOk(Tab(fat.g, old(fat.Now()))) && err != ERR_NONE ==>
                fat.Refused() || (err == ERR_FULL && FreeCount(Tab(fat.g, old(fat.Now()))) <= 1)
      ensures err == ERR_IO ==> fat.Refused()
      ensures Harmless(fat.g, old(fat.Now()), fat.Now(), {sclust}, {})
      ensures err == ERR_NONE ==>
                && Attached() && i + 1 < |cs| && clust == cs[i + 1]
                && |cs| == (if i + 1 < |old(cs)| then |old(cs)| else i + 2)
                && !fat.spoiled && fat.sect < fat.g.dataSect
                && fat.freeCnt == AddWrap(old(fat.freeCnt), |old(cs)| - |cs|)
                && Grown(fat.g, old(fat.Now()), fat.Now(), old(cs), cs)
      ensures AllSafe(fat.g, fat.size, old(fat.hist), k) ==> AllSafe(fat.g, fat.size, fat.hist, k)
    {
      hide Harmless, Ordered, Later, IsChain, ChainOn, OnlyTables, Stretched, AllSafe, CrashSafe, SameData,
        SameOutside, Mirrored, Tab, Grown, Linked, ClustersOk, AddWrap, ProbeWord, CountKept, Short, NoMore, AllocOk,
        FreeUpTo;
      ghost var l0, v, last, f := fat.Past(), fat.Now(), fat.lastUsed, fat.freeCnt;
      AddWrapTwice(f, 0, 0);
      ChainEnds(fat.g, v, sclust, cs, i);
      HarmlessStart(fat.g, v, sclust, cs);
      SectsInRange(fat.g, fat.size, clust);
      var next, flags;
      err, next, flags := fat.GetFat(clust);
      if err != ERR_NONE {
        return;
      }
      if BadOrFree(flags) {
        return ERR_BROKEN;
      }
      ghost var l := fat.Past();
      LaterMeans(l0, l);
      if IsLast(flags) {
        err, next := Append(k);
        LaterTrans(l0, l, fat.Past());
        if err != ERR_NONE {
          return;
        }
      }
      clust := next;
    }

    /** The loop of fat_file_seek: from cluster src of the chain to cluster dst, growing the chain if it is shorter. */
    method Follow(src: nat, dst: nat, ghost k: nat) returns (err: int)
      requires Attached() && src <= dst && src < |cs| && clust == cs[src] && k <= fat.at
      requires src < dst ==> fat.Trusted(fat.FatSect(clust))
      modifies this`clust, this`cs, fat, fat.dev
      ensures fat.Steady() && old(cs) <= cs && SameData(fat.g, old(fat.Now()), fat.Now()) && IsStepErr(err)
      ensures dst < |old(cs)| ==> err == ERR_NONE || err == ERR_IO
      ensures AllocOk(Tab(fat.g, old(fat.Now()))) && err != ERR_NONE ==>
                || fat.Refused()
                || (err == ERR_FULL && FreeCount(Tab(fat.g, old(fat.Now()))) + |old(cs)| <= dst + 1)
      ensures err == ERR_IO ==> fat.Refused()
      ensures Harmless(fat.g, old(fat.Now()), fat.Now(), {sclust}, {})
      ensures err == ERR_NONE ==>
                && Attached() && dst < |cs| && clust == cs[dst]
                && |cs| == (if dst < |old(cs)| then |old(cs)| else dst + 1)
                && Grown(fat.g, old(fat.Now()), fat.Now(), old(cs), cs)
                && BufferElsewhere() && fat.freeCnt == AddWrap(old(fat.freeCnt), |old(cs)| - |cs|)
      ensures src == dst ==> err == ERR_NONE && clust == old(clust) && unchanged(fat) && unchanged(fat.dev)
      ensures err == ERR_NONE && src < dst ==> !fat.spoiled
      ensures AllSafe(fat.g, fat.size, old(fat.hist), k) ==> AllSafe(fat.g, fat.size, fat.hist, k)
    {
      hide Harmless, Ordered, Later, IsChain, ChainOn, AllSafe, SameData, Grown, ClustersOk, OnMedium, IsDataSect,
        AddWrap, Fat.Valid, NoMore, AllocOk, FreeUpTo, Tab;
      fat.Mounted();
      ghost var l0, v0, cs0, f0 := fat.Past(), fat.Now(), cs, fat.freeCnt;
      LaterRefl(l0);
      AddWrapTwice(f0, 0, 0);
      ChainEnds(fat.g, v0, sclust, cs, src);
      ghost var c0 := sclust;
      HarmlessStart(fat.g, v0, sclust, cs);
      for i := src to dst
        invariant old(fat.dev.refused) <= fat.dev.refused
        invariant Attached() && Later(l0, fat.Past()) && k <= fat.at && i < |cs| && clust == cs[i] && cs0 <= cs
        invariant |cs| == if i < |cs0| then |cs0| else i + 1
        invariant SameData(fat.g, v0, fat.Now()) && Grown(fat.g, v0, fat.Now(), cs0, cs)
        invariant Harmless(fat.g, v0, fat.Now(), {sclust}, {})
        invariant fat.freeCnt == AddWrap(f0, |cs0| - |cs|)
        invariant if i == src then clust == old(clust) && unchanged(fat) && unchanged(fat.dev)
                  else !fat.spoiled && fat.sect < fat.g.dataSect
        invariant AllSafe(fat.g, fat.size, old(fat.hist), k) ==> AllSafe(fat.g, fat.size, fat.hist, k)
      {
        ghost var l, v, all := fat.Past(), fat.Now(), cs;
        err := FollowOne(i, k);
        AddWrapTwice(f0, |cs0| - |all|, |all| - |cs|);
        LaterTrans(l0, l, fat.Past());
        LaterMeans(l0, fat.Past());
        SameDataTrans(fat.g, v0, v, fat.Now());
        HarmlessTrans(fat.g, v0, v, fat.Now(), {sclust}, {});
        GrownSound(fat.g, v0, v, sclust, cs0, all);
        if err != ERR_NONE {
          return;
        }
        GrownTrans(fat.g, v0, v, fat.Now(), cs0, all, cs);
      }
      err := ERR_NONE;
    }

    /** The end of fat_file_seek: when the cursor has left sector ssect, that one is written back if it has been
        changed, and the new one is read. */
    method Turn(ssect: nat) returns (err: int)
      requires Attached() && Buffers(ssect) && IsDataSect(fat.g, cs, sect) && sect < fat.size
      modifies this`buf, this`dirty, fat`marks, fat`raw, fat.dev
      ensures fat.Steady() && SameSystem(fat.g, old(fat.Now()), fat.Now())
      ensures err == ERR_IO ==> fat.Refused()
      ensures SameOutside(fat.g, old(fat.Now()), fat.Now(), cs)
      ensures err == ERR_NONE || err == ERR_IO
      ensures err == ERR_NONE ==> Attached() && Buffers(sect) && View(sect) == old(View(ssect))
      ensures sect == ssect ==> err == ERR_NONE
    {
      hide Ordered, Later, IsChain, ChainOn, OnMedium, IsDataSect, SameSystem, SameOutside, Agree;
      ghost var l0, v := fat.Past(), fat.Now();
      LaterRefl(l0);
      SameRefl(fat.g, v, cs);
      if sect == ssect {
        return ERR_NONE;
      }
      if dirty {
        RawKeeps(fat.g, v, sclust, cs, ssect, buf);
        DataSectMeans(fat.g, cs, ssect);
        var stored := fat.WriteRaw(ssect, buf);
        if !stored {
          return ERR_IO;
        }
        dirty := false;
      }
      var loaded;
      loaded, buf := fat.dev.Read(sect);
      if !loaded {
        return ERR_IO;
      }
      assert buf == fat.Now()[sect];
      err := ERR_NONE;
    }

    /** Where the offset of a seek counts from. */
    function Base(from: Whence): nat
      reads this
    {
      match from
      case FromStart => 0
      case FromCurrent => offset
      case FromEnd => size
    }

    /** The start of fat_file_seek: the cluster indices of the cursor and of off. To go back, the cursor goes to the
        first cluster. */
    method BackUp(off: u32) returns (src: nat, dst: nat)
      requires Valid() && WalkTrusted(off)
      modifies this`clust, this`sect, this`offset
      ensures Attached() && Buffers(old(sect)) && src <= dst && src < |cs| && clust == cs[src]
      ensures dst == ClustNo(fat.g, off) && (off < ByteCnt(fat.g, cs) <==> dst < |cs|)
      ensures src < dst ==> fat.Trusted(fat.FatSect(clust))
      ensures ClustIdx(fat.g, old(offset)) <= ClustIdx(fat.g, off) ==>
                clust == old(clust) && src == ClustIdx(fat.g, old(offset)) && dst == ClustIdx(fat.g, off)
      ensures off / SECTOR_SIZE == old(offset) / SECTOR_SIZE ==> src == dst
    {
      hide Ordered, IsChain, ChainOn, ClustersOk, OnMedium, IsDataSect, ByteCnt, SectOf, At, SectFor, ClusterSize,
        ClustIdx;
      dst := off / ClusterSize(fat.g);
      src := offset / ClusterSize(fat.g);
      SeekStart(fat.g, fat.Now(), sclust, cs, offset, clust, src, off, dst);
      if dst < src {
        clust := sclust;
        sect := SectOf(fat.g, sclust);
        offset := 0;
        src := 0;
      }
    }

    /** The first part of fat_file_seek: finds the cluster of off, from the current one or, to go back, from the
        first one, and sets the cursor. The buffer still stands for the sector of the old offset. */
    method Walk(off: u32, ghost k: nat) returns (err: int)
      requires Valid() && k <= fat.at && WalkTrusted(off)
      modifies this`clust, this`sect, this`offset, this`cs, fat, fat.dev
      ensures fat.Steady() && old(cs) <= cs && SameData(fat.g, old(fat.Now()), fat.Now())
      ensures off < ByteCnt(fat.g, old(cs)) ==> err == ERR_NONE || err == ERR_IO
      ensures AllocOk(Tab(fat.g, old(fat.Now()))) && err != ERR_NONE ==>
                fat.Refused() || (err == ERR_FULL && Short(fat.g, old(fat.Now()), old(cs), off))
      ensures err == ERR_IO ==> fat.Refused()
      ensures Harmless(fat.g, old(fat.Now()), fat.Now(), {sclust}, {})
      ensures IsStepErr(err)
      ensures err == ERR_NONE ==>
                && Attached() && offset == off && Buffers(old(sect))
                && Landed(fat.g, old(View(sect)), View(old(sect)), old(cs), cs, off, clust, sect)
                && Grown(fat.g, old(fat.Now()), fat.Now(), old(cs), cs) && NoMore(fat.g, old(cs), cs, off)
                && BufferElsewhere() && fat.freeCnt == AddWrap(old(fat.freeCnt), |old(cs)| - |cs|)
      ensures err == ERR_NONE && fat.spoiled && ClustIdx(fat.g, old(offset)) <= ClustIdx(fat.g, off) ==>
                clust == old(clust) && ClustIdx(fat.g, old(offset)) == ClustIdx(fat.g, off)
      ensures off / SECTOR_SIZE == old(offset) / SECTOR_SIZE ==> err == ERR_NONE && unchanged(fat) && unchanged(fat.dev)
      ensures AllSafe(fat.g, fat.size, old(fat.hist), k) ==> AllSafe(fat.g, fat.size, fat.hist, k)
    {
      hide Harmless, Ordered, Later, IsChain, ChainOn, AllSafe, SameData, SameSystem, SameOutside, Grown, ClustersOk,
        OnMedium, IsDataSect, Allocated, ByteCnt, SectOf, ClustNo, SectFor, Overlay, ClusterSize, Landed, AddWrap,
        ClustIdx, AllocOk, FreeUpTo, Tab;
      var ssect := sect;
      var src, dst := BackUp(off);
      ghost var v0, cs0 := fat.Now(), cs;
      err := Follow(src, dst, k);
      if err != ERR_NONE {
        return;
      }
      SeekEnd(fat.g, v0, fat.Now(), cs0, cs, off, clust, ssect, buf);
      BuffersKept(fat.g, v0, fat.Now(), cs0, cs, ssect);
      sect := SectOf(fat.g, clust) + off / SECTOR_SIZE % fat.g.spc;
      offset := off;
    }

    /** fat_file_seek. The chain grows where the new offset lies beyond it; no byte changes. */
    method Seek(delta: int, from: Whence, ghost k: nat) returns (err: int)
      requires Valid() && k <= fat.at && (InRange(Base(from) + delta) ==> WalkTrusted(Base(from) + delta))
      modifies this`clust, this`sect, this`offset, this`buf, this`dirty, this`cs, fat, fat.dev
      ensures fat.Steady() && old(cs) <= cs && SameOutside(fat.g, old(fat.Now()), fat.Now(), cs)
      ensures InRange(old(Base(from)) + delta) && old(Base(from)) + delta < ByteCnt(fat.g, old(cs)) ==>
                err == ERR_NONE || err == ERR_IO
      ensures AllocOk(Tab(fat.g, old(fat.Now()))) && InRange(old(Base(from)) + delta) && err != ERR_NONE ==>
                fat.Refused() || (err == ERR_FULL && Short(fat.g, old(fat.Now()), old(cs), old(Base(from)) + delta))
      ensures err == ERR_IO ==> fat.Refused()
      ensures Harmless(fat.g, old(fat.Now()), fat.Now(), {sclust}, {})
      ensures if InRange(old(Base(from)) + delta) then IsStepErr(err) else err == ERR_EOF
      ensures err == ERR_EOF ==> unchanged(this) && unchanged(fat) && unchanged(fat.dev)
      ensures err == ERR_NONE ==>
                && offset == old(Base(from)) + delta
                && Ready() && old(Data()) <= Data() && ByteCnt(fat.g, old(cs)) <= ByteCnt(fat.g, cs)
                && Grown(fat.g, old(fat.Now()), fat.Now(), old(cs), cs) && NoMore(fat.g, old(cs), cs, offset)
                && (offset < ByteCnt(fat.g, old(cs)) ==> cs == old(cs))
                && BufferElsewhere() && fat.freeCnt == AddWrap(old(fat.freeCnt), |old(cs)| - |cs|)
      ensures err == ERR_NONE && fat.spoiled && ClustIdx(fat.g, old(offset)) <= ClustIdx(fat.g, offset) ==>
                clust == old(clust) && ClustIdx(fat.g, old(offset)) == ClustIdx(fat.g, offset)
      ensures InRange(old(Base(from)) + delta) && old(sect) != NO_SECT ==>
                (old(Base(from)) + delta) / SECTOR_SIZE == old(offset) / SECTOR_SIZE ==> err == ERR_NONE
      ensures AllSafe(fat.g, fat.size, old(fat.hist), k) ==> AllSafe(fat.g, fat.size, fat.hist, k)
    {
      hide Harmless, Ordered, Later, IsChain, ChainOn, AllSafe, SameData, SameSystem, SameOutside, Grown, ClustersOk,
        OnMedium, IsDataSect, Allocated, ByteCnt, SectOf, At, SectFor, Overlay, AddWrap, ClustIdx, Short, NoMore,
        AllocOk, FreeUpTo, Tab;
      ghost var l0, v0, cs0 := fat.Past(), fat.Now(), cs;
      SameRefl(fat.g, v0, cs);
      HarmlessStart(fat.g, v0, sclust, cs);
      LaterRefl(l0);
      var ssect := sect;
      var target := Base(from) + delta;
      if target < 0 || target > 0xffff_ffff {
        return ERR_EOF;
      }
      ghost var off0: nat, s0 := offset, sect;
      err := Walk(target, k);
      if err == ERR_NONE && s0 != NO_SECT && target / SECTOR_SIZE == off0 / SECTOR_SIZE {
        SameSector(fat.g, cs0, cs, off0, s0, target, sect);
      }
      SameDataOutside(fat.g, v0, fat.Now(), cs);
      if err != ERR_NONE {
        return;
      }
      ghost var l1, v1 := fat.Past(), fat.Now();
      err := Turn(ssect);
      LaterTrans(l0, l1, fat.Past());
      SameOutsideTrans(fat.g, v0, v1, fat.Now(), cs, cs);
      HarmlessData(fat.g, v1, fat.Now(), sclust, cs, {});
      HarmlessTrans(fat.g, v0, v1, fat.Now(), {sclust}, {});
      if err == ERR_NONE {
        GrownPut(fat.g, v0, v1, fat.Now(), cs0, cs);
      }
    }

    /** One turn of the loop of fat_file_read: what is left in the buffer, or what is wanted or left of the file. */
    method ReadTurn(left: nat, ghost k: nat) returns (err: int, part: seq<byte>)
      requires Ready() && k <= fat.at && left > 0 && offset < size && AheadTrusted(ReadCnt(offset, size, left))
      modifies this`clust, this`sect, this`offset, this`buf, this`dirty, this`cs, fat, fat.dev
      ensures fat.Steady() && old(cs) <= cs && SameOutside(fat.g, old(fat.Now()), fat.Now(), cs) && err != ERR_DENIED
      ensures err == ERR_IO ==> fat.Refused()
      ensures Harmless(fat.g, old(fat.Now()), fat.Now(), {sclust}, {})
      ensures 0 < |part| <= left && old(offset) + |part| <= size <= |old(Data())|
      ensures part == old(Data())[old(offset)..old(offset) + |part|]
      ensures AllocOk(Tab(fat.g, old(fat.Now()))) && err != ERR_NONE ==>
                fat.Refused() || (err == ERR_FULL && Short(fat.g, old(fat.Now()), old(cs), old(offset) + |part|))
      ensures old(offset) + |part| < ByteCnt(fat.g, old(cs)) ==> err == ERR_NONE || err == ERR_IO
      ensures err == ERR_NONE ==>
                && Ready() && offset == old(offset) + |part| && AheadTrusted(ReadCnt(offset, size, left - |part|))
                && BufferElsewhere() && fat.freeCnt == AddWrap(old(fat.freeCnt), |old(cs)| - |cs|)
                && old(Data()) <= Data() && ByteCnt(fat.g, old(cs)) <= ByteCnt(fat.g, cs)
                && Grown(fat.g, old(fat.Now()), fat.Now(), old(cs), cs) && NoMore(fat.g, old(cs), cs, offset)
      ensures AllSafe(fat.g, fat.size, old(fat.hist), k) ==> AllSafe(fat.g, fat.size, fat.hist, k)
    {
      hide Harmless, Ordered, Later, IsChain, ChainOn, AllSafe, SameOutside, Grown, ClustersOk, OnMedium, IsDataSect,
        Allocated, ByteCnt, At, SectFor, Overlay, IsChunk, ClustIdx, AddWrap, Short, NoMore, AllocOk, FreeUpTo, Tab;
      var idx := offset % SECTOR_SIZE;
      ghost var n := ReadCnt(offset, size, left);
      var cnt := Least(left, Least(SECTOR_SIZE - idx, size - offset));
      BufferedBytes(fat.g, fat.Now(), cs, offset, sect, buf);
      ChunkPart(Data(), offset, buf, cnt);
      part := buf[idx..idx + cnt];
      ClustIdxBetween(fat.g, offset, cnt, n);
      err := Seek(cnt, FromCurrent, k);
    }

    /** fat_file_read: the bytes from the cursor on, up to len or the end of the file. On an error, as many as were
        copied before it. */
    method Read(len: nat, ghost k: nat) returns (err: int, data: seq<byte>)
      requires Ready() && k <= fat.at && (canRead ==> AheadTrusted(ReadCnt(offset, size, len)))
      modifies this`clust, this`sect, this`offset, this`buf, this`dirty, this`cs, fat, fat.dev
      ensures fat.Steady() && old(cs) <= cs && SameOutside(fat.g, old(fat.Now()), fat.Now(), cs)
      ensures canRead && AllocOk(Tab(fat.g, old(fat.Now()))) && err != ERR_NONE ==>
                || fat.Refused()
                || (err == ERR_FULL
                    && Short(fat.g, old(fat.Now()), old(cs), old(offset) + ReadCnt(old(offset), size, len)))
      ensures canRead && old(offset) + ReadCnt(old(offset), size, len) < ByteCnt(fat.g, old(cs)) ==>
                err == ERR_NONE || err == ERR_IO
      ensures err == ERR_IO ==> fat.Refused()
      ensures Harmless(fat.g, old(fat.Now()), fat.Now(), {sclust}, {})
      ensures !canRead <==> err == ERR_DENIED
      ensures err == ERR_DENIED ==> unchanged(this) && unchanged(fat) && unchanged(fat.dev) && data == []
      ensures IsSlice(old(Data()), old(offset), data) && |data| <= ReadCnt(old(offset), size, len)
      ensures err == ERR_NONE ==>
                && Ready() && offset == old(offset) + |data| && |data| == ReadCnt(old(offset), size, len)
                && old(Data()) <= Data() && Content() == old(Content())
                && Grown(fat.g, old(fat.Now()), fat.Now(), old(cs), cs) && NoMore(fat.g, old(cs), cs, offset)
                && BufferElsewhere() && fat.freeCnt == AddWrap(old(fat.freeCnt), |old(cs)| - |cs|)
      ensures AllSafe(fat.g, fat.size, old(fat.hist), k) ==> AllSafe(fat.g, fat.size, fat.hist, k)
    {
      hide Harmless, Extended, Ordered, Later, IsChain, ChainOn, AllSafe, SameOutside, Grown, ClustersOk, OnMedium,
        IsDataSect, Allocated, ByteCnt, At, SectFor, Overlay, IsSlice, ClustIdx, AddWrap, Buffers, Fat.Valid, Short,
        NoMore, AllocOk, FreeUpTo, Tab;
      fat.Mounted();
      data := [];
      ghost var l0, v0, cs0, all, from, f0 := fat.Past(), fat.Now(), cs, Data(), offset, fat.freeCnt;
      LaterRefl(l0);
      ExtendedStart(fat.g, v0, f0, sclust, cs);
      NoMoreStart(fat.g, v0, cs, offset);
      SectForMeans(fat.g, cs, offset, sect);
      SliceStart(all, from);
      ExtendedMeans(fat.g, v0, f0, v0, f0, sclust, cs, cs);
      if !canRead {
        return ERR_DENIED, data;
      }
      var left := len;
      while left > 0 && offset < size
        invariant old(fat.dev.refused) <= fat.dev.refused
        invariant Ready() && Later(l0, fat.Past()) && k <= fat.at
        invariant left == len - |data| && offset == from + |data| && |data| <= ReadCnt(from, size, len)
        invariant IsSlice(all, from, data) && all <= Data()
        invariant AheadTrusted(ReadCnt(offset, size, left)) && BufferElsewhere()
        invariant NoMore(fat.g, cs0, cs, offset)
        invariant Extended(fat.g, v0, f0, fat.Now(), fat.freeCnt, sclust, cs0, cs)
        invariant AllSafe(fat.g, fat.size, old(fat.hist), k) ==> AllSafe(fat.g, fat.size, fat.hist, k)
      {
        ghost var was, l, v, c, f := Data(), fat.Past(), fat.Now(), cs, fat.freeCnt;
        ghost var off := offset;
        var part;
        err, part := ReadTurn(left, k);
        SliceStep(all, was, from, data, part);
        data := data + part;
        left := left - |part|;
        LaterTrans(l0, l, fat.Past());
        LaterMeans(l0, fat.Past());
        ShortBefore(fat.g, v0, f0, v, f, sclust, cs0, c, from + |data|, from + ReadCnt(from, size, len));
        ExtendedOn(fat.g, v0, f0, v, f, fat.Now(), fat.freeCnt, sclust, cs0, c, cs);
        if err != ERR_NONE {
          return;
        }
        NoMoreOn(fat.g, cs0, c, cs, off, offset);
      }
      ExtendedMeans(fat.g, v0, f0, fat.Now(), fat.freeCnt, sclust, cs0, cs);
      err := ERR_NONE;
    }

    /** As much of src as fits goes to the buffer, behind the cursor. */
    method StoreChunk(src: seq<byte>) returns (cnt: nat)
      requires Ready() && src != [] && modified
      modifies this`buf, this`dirty
      ensures Ready() && 0 < cnt <= |src| && offset + cnt <= |old(Data())|
      ensures cnt == Least(|src|, SECTOR_SIZE - offset % SECTOR_SIZE)
      ensures Overwrote(old(Data()), Data(), offset, src[..cnt])
    {
      hide Ordered, IsChain, ChainOn, ClustersOk, OnMedium, IsDataSect, Allocated, ByteCnt, At, SectFor, Overlay,
        Splice, Distinct;
      var idx := offset % SECTOR_SIZE;
      cnt := Least(|src|, SECTOR_SIZE - idx);
      ChainOnMedium(fat.g, fat.Now(), sclust, cs);
      BufferPut(fat.g, fat.Now(), cs, offset, sect, buf, src[..cnt]);
      buf := Splice(buf, idx, src[..cnt]);
      dirty := true;
    }

    /** One turn of the loop of fat_file_write: as much of src as fits in the buffer behind the cursor. */
    method WriteTurn(src: seq<byte>, ghost k: nat) returns (err: int, cnt: nat)
      requires Ready() && k <= fat.at && src != [] && modified && AheadTrusted(|src|)
      modifies this`clust, this`sect, this`offset, this`buf, this`dirty, this`cs, fat, fat.dev
      ensures fat.Steady() && old(cs) <= cs && SameOutside(fat.g, old(fat.Now()), fat.Now(), cs)
      ensures err == ERR_IO ==> fat.Refused()
      ensures Harmless(fat.g, old(fat.Now()), fat.Now(), {sclust}, {})
      ensures 0 < cnt <= |src| && old(offset) + cnt <= |old(Data())|
      ensures err == ERR_EOF ==> old(offset) + cnt > 0xffff_ffff
      ensures AllocOk(Tab(fat.g, old(fat.Now()))) && err != ERR_NONE && err != ERR_EOF ==>
                fat.Refused() || (err == ERR_FULL && Short(fat.g, old(fat.Now()), old(cs), old(offset) + cnt))
      ensures err == ERR_NONE ==>
                && Ready() && offset == old(offset) + cnt && |old(Data())| <= |Data()| && AheadTrusted(|src| - cnt)
                && BufferElsewhere() && fat.freeCnt == AddWrap(old(fat.freeCnt), |old(cs)| - |cs|)
                && Overwrote(old(Data()), Data(), old(offset), src[..cnt])
                && Grown(fat.g, old(fat.Now()), fat.Now(), old(cs), cs) && NoMore(fat.g, old(cs), cs, offset)
      ensures InSector(old(offset), |src|) ==> err == ERR_NONE && cnt == |src|
      ensures err == ERR_EOF || IsStepErr(err)
      ensures AllSafe(fat.g, fat.size, old(fat.hist), k) ==> AllSafe(fat.g, fat.size, fat.hist, k)
    {
      hide Harmless, Ordered, Later, IsChain, ChainOn, AllSafe, SameOutside, Grown, ClustersOk, OnMedium, IsDataSect,
        Allocated, ByteCnt, At, SectFor, Overlay, Splice, Distinct, ClustIdx, AddWrap, Short, NoMore, AllocOk,
        FreeUpTo, Tab;
      cnt := StoreChunk(src);
      ClustIdxBetween(fat.g, offset, cnt, |src|);
      SectorStays(offset, cnt);
      err := Seek(cnt, FromCurrent, k);
    }

    /** The loop of fat_file_write; done tells whether it ran to its end, why with which error it did not. */
    method WriteAll(src: seq<byte>, ghost k: nat) returns (bytes: nat, done: bool, ghost why: int)
      requires Ready() && k <= fat.at && modified && AheadTrusted(|src|)
      modifies this`clust, this`sect, this`offset, this`buf, this`dirty, this`cs, fat, fat.dev
      ensures fat.Steady() && old(cs) <= cs && SameOutside(fat.g, old(fat.Now()), fat.Now(), cs)
      ensures why == ERR_EOF ==> old(offset) + |src| > 0xffff_ffff
      ensures AllocOk(Tab(fat.g, old(fat.Now()))) && !done && why != ERR_EOF ==>
                fat.Refused() || (why == ERR_FULL && Short(fat.g, old(fat.Now()), old(cs), old(offset) + |src|))
      ensures why == ERR_IO ==> fat.Refused()
      ensures Harmless(fat.g, old(fat.Now()), fat.Now(), {sclust}, {})
      ensures bytes <= |src|
      ensures done ==>
                && Ready() && bytes == |src| && offset == old(offset) + |src| && offset < ByteCnt(fat.g, cs)
                && Overwrote(old(Data()), Data(), old(offset), src)
                && Grown(fat.g, old(fat.Now()), fat.Now(), old(cs), cs) && NoMore(fat.g, old(cs), cs, offset)
                && BufferElsewhere() && fat.freeCnt == AddWrap(old(fat.freeCnt), |old(cs)| - |cs|)
      ensures InSector(old(offset), |src|) ==> done
      ensures if done then why == ERR_NONE else why != ERR_NONE && (why == ERR_EOF || IsStepErr(why))
      ensures AllSafe(fat.g, fat.size, old(fat.hist), k) ==> AllSafe(fat.g, fat.size, fat.hist, k)
    {
      hide Harmless, Extended, Ordered, Later, IsChain, ChainOn, AllSafe, SameOutside, Grown, ClustersOk, OnMedium,
        IsDataSect, Allocated, ByteCnt, At, SectFor, Overlay, Overwrote, ClustIdx, AddWrap, Buffers, Fat.Valid,
        InSector, Short, NoMore, AllocOk, FreeUpTo, Tab;
      fat.Mounted();
      ghost var l0, v0, cs0, all, from, f0 := fat.Past(), fat.Now(), cs, Data(), offset, fat.freeCnt;
      LaterRefl(l0);
      ExtendedStart(fat.g, v0, f0, sclust, cs);
      NoMoreStart(fat.g, v0, cs, offset);
      SectForMeans(fat.g, cs, offset, sect);
      OverwroteStart(all, from);
      bytes, done, why := 0, true, ERR_NONE;
      while bytes < |src|
        invariant old(fat.dev.refused) <= fat.dev.refused
        invariant Ready() && Later(l0, fat.Past()) && k <= fat.at
        invariant bytes <= |src| && offset == from + bytes && Overwrote(all, Data(), from, src[..bytes])
        invariant AheadTrusted(|src| - bytes) && BufferElsewhere()
        invariant InSector(from, |src|) ==> InSector(offset, |src| - bytes)
        invariant NoMore(fat.g, cs0, cs, offset)
        invariant Extended(fat.g, v0, f0, fat.Now(), fat.freeCnt, sclust, cs0, cs)
        invariant AllSafe(fat.g, fat.size, old(fat.hist), k) ==> AllSafe(fat.g, fat.size, fat.hist, k)
      {
        ghost var was, l, v, c, f := Data(), fat.Past(), fat.Now(), cs, fat.freeCnt;
        ghost var off, left := offset, |src| - bytes;
        var err, cnt := WriteTurn(src[bytes..], k);
        SectorStill(off, left, cnt);
        LaterTrans(l0, l, fat.Past());
        LaterMeans(l0, fat.Past());
        ShortBefore(fat.g, v0, f0, v, f, sclust, cs0, c, from + bytes + cnt, from + |src|);
        ExtendedOn(fat.g, v0, f0, v, f, fat.Now(), fat.freeCnt, sclust, cs0, c, cs);
        if err != ERR_NONE {
          return bytes + cnt, false, err;
        }
        NoMoreOn(fat.g, cs0, c, cs, off, offset);
        OverwroteStep(all, was, Data(), from, src, bytes, cnt);
        bytes := bytes + cnt;
      }
      ExtendedMeans(fat.g, v0, f0, fat.Now(), fat.freeCnt, sclust, cs0, cs);
      SectForMeans(fat.g, cs, offset, sect);
      assert src[..bytes] == src;
    }

    /** fat_file_write. Once it has begun it reports success whatever happens to it: the error of a failed seek
        stays in a variable of the loop, and a caller cannot tell. done and why, which the driver does not return, tell
        here. The report is true of every write that ends within the sector the cursor is in; it is a lie, whatever the
        card does, for every one that ends beyond 32 bits or beyond the clusters the file has or could get. */
    method Write(src: seq<byte>, ghost k: nat) returns (err: int, bytes: nat, done: bool, ghost why: int)
      requires Ready() && k <= fat.at && (canWrite ==> AheadTrusted(|src|))
      modifies this`clust, this`sect, this`offset, this`buf, this`dirty, this`cs, this`accessed, this`modified,
        this`size, fat, fat.dev
      ensures fat.Steady() && old(cs) <= cs && SameOutside(fat.g, old(fat.Now()), fat.Now(), cs)
      ensures canWrite && why == ERR_EOF ==> old(offset) + |src| > 0xffff_ffff
      ensures canWrite && AllocOk(Tab(fat.g, old(fat.Now()))) && !done && why != ERR_EOF ==>
                fat.Refused() || (why == ERR_FULL && Short(fat.g, old(fat.Now()), old(cs), old(offset) + |src|))
      ensures why == ERR_IO ==> fat.Refused()
      ensures Harmless(fat.g, old(fat.Now()), fat.Now(), {sclust}, {})
      ensures err == if canWrite then ERR_NONE else ERR_DENIED
      ensures err == ERR_DENIED ==> unchanged(this) && unchanged(fat) && unchanged(fat.dev) && bytes == 0
      ensures bytes <= |src|
      ensures done ==>
                && Ready() && bytes == |src| && offset == old(offset) + |src| && modified && accessed
                && size == (if offset > old(size) then offset else old(size))
                && Overwrote(old(Data()), Data(), old(offset), src)
                && WrittenTo(old(Content()), old(offset), src, Content())
                && Grown(fat.g, old(fat.Now()), fat.Now(), old(cs), cs) && NoMore(fat.g, old(cs), cs, offset)
                && BufferElsewhere() && fat.freeCnt == AddWrap(old(fat.freeCnt), |old(cs)| - |cs|)
      ensures canWrite && InSector(old(offset), |src|) ==> done
      ensures canWrite && old(offset) + |src| > 0xffff_ffff ==> !done
      ensures canWrite && old(offset) + |src| >= ByteLimit(fat.g, old(fat.Now()), old(cs)) ==> !done
      ensures canWrite ==> if done then why == ERR_NONE else why != ERR_NONE && (why == ERR_EOF || IsStepErr(why))
      ensures AllSafe(fat.g, fat.size, old(fat.hist), k) ==> AllSafe(fat.g, fat.size, fat.hist, k)
    {
      hide Harmless, Ordered, Later, IsChain, ChainOn, AllSafe, SameOutside, Grown, ClustersOk, OnMedium, IsDataSect,
        Allocated, ByteCnt, At, SectFor, Overlay, Overwrote, ClustIdx, AddWrap, ByteLimit, Short, NoMore, AllocOk,
        FreeUpTo, Tab;
      ghost var all, from, v0, cs0 := Data(), offset, fat.Now(), cs;
      bytes, done, why := 0, false, ERR_DENIED;
      if !canWrite {
        SameRefl(fat.g, fat.Now(), cs);
        HarmlessStart(fat.g, fat.Now(), sclust, cs);
        LaterRefl(fat.Past());
        return ERR_DENIED, bytes, done, why;
      }
      accessed, modified := true, true;
      bytes, done, why := WriteAll(src, k);
      if done {
        GrownLimit(fat.g, v0, fat.Now(), sclust, cs0, cs);
      }
      if done && from <= size {
        OverwroteContent(all, Data(), from, src, size);
      }
      if offset > size {
        size := offset;
      }
      err := ERR_NONE;
    }

    /** The entry of the file is on the volume, in a sector that is not one of the file's. */
    ghost predicate HasEntry()
      reads this, fat, fat.dev
    {
      && fat.g.dataSect <= dirSect < fat.size && !IsDataSect(fat.g, cs, dirSect)
      && dirIdx < SECTOR_SIZE && dirIdx % ENTRY_SIZE == 0 && |fat.Now()| == fat.size
    }

    ghost function EntryNow(): Entry
      requires HasEntry()
      reads this, fat, fat.dev
    {
      EntryOf(fat.Now()[dirSect], dirIdx / ENTRY_SIZE)
    }

    /** The cluster of the directory that the entry is in. */
    ghost function Home(): nat {
      if fat.g.spc > 0 && fat.g.dataSect <= dirSect then ClustOf(fat.g, dirSect) else 0
    }

    /** The first step of fat_file_sync: the buffer goes to its sector. */
    method StoreBuffer() returns (err: int)
      requires Ready() && HasEntry()
      modifies fat`marks, fat`raw, fat.dev
      ensures fat.Steady() && SameSystem(fat.g, old(fat.Now()), fat.Now())
      ensures err == ERR_IO ==> fat.Refused()
      ensures Harmless(fat.g, old(fat.Now()), fat.Now(), {sclust}, {Home()})
      ensures SameOutside(fat.g, old(fat.Now()), fat.Now(), cs)
      ensures err == ERR_NONE || err == ERR_IO
      ensures err == ERR_NONE ==>
                && Ready() && HasEntry() && buf == fat.Now()[sect] && Data() == old(Data())
                && fat.Now()[dirSect] == old(fat.Now())[dirSect]
    {
      hide Harmless, Ordered, Later, IsChain, ChainOn, OnMedium, IsDataSect, SameSystem, SameOutside, Allocated, At,
        SectFor, ByteCnt;
      LaterRefl(fat.Past());
      SameRefl(fat.g, fat.Now(), cs);
      ghost var v0, e := fat.Now(), Home();
      HarmlessData(fat.g, v0, v0, sclust, cs, {e});
      if modified {
        RawKeeps(fat.g, fat.Now(), sclust, cs, sect, buf);
        DataSectMeans(fat.g, cs, sect);
        var stored := fat.WriteRaw(sect, buf);
        HarmlessData(fat.g, v0, fat.Now(), sclust, cs, {e});
        if !stored {
          return ERR_IO;
        }
      }
      OverlayStored(old(fat.Now()), sect, buf);
      err := ERR_NONE;
    }

    /** The second step: the size and the dates go to the directory entry. */
    method StoreEntry(date: nat, time: nat, ghost k: nat) returns (err: int)
      requires Ready() && HasEntry() && k <= fat.at && (accessed || modified) && buf == fat.Now()[sect]
      requires fat.Trusted(dirSect)
      modifies fat`sect, fat`buf, fat`bufDirty, fat`at, fat`marks, fat`hist, fat`spoiled, fat.dev
      ensures fat.Steady()
      ensures err == ERR_IO ==> fat.Refused()
      ensures Harmless(fat.g, old(fat.Now()), fat.Now(), {sclust}, {Home()})
      ensures err == ERR_NONE || err == ERR_IO
      ensures err == ERR_NONE ==>
                && Ready() && HasEntry() && buf == fat.Now()[sect] && Data() == old(Data())
                && !fat.spoiled && fat.sect == dirSect
                && EntryNow() == SyncedEntry(old(EntryNow()), accessed, modified, size, date, time)
                && fat.Now()
                   == old(fat.Now())[dirSect := PutEntryIn(old(fat.Now())[dirSect], dirIdx / ENTRY_SIZE, EntryNow())]
      ensures AllSafe(fat.g, fat.size, old(fat.hist), k) ==> AllSafe(fat.g, fat.size, fat.hist, k)
    {
      hide Harmless, Ordered, Later, IsChain, ChainOn, OnMedium, AllSafe, SameSystem, Allocated, At, SectFor, ByteCnt,
        EntryOf, PutEntryIn, SyncedEntry, IsDataSect;
      ghost var l0, v, h := fat.Past(), fat.Now(), fat.hist;
      LaterRefl(l0);
      HarmlessAny(fat.g, v, sclust, cs, {Home()});
      err := fat.UpdateBuf(dirSect);
      if err != ERR_NONE {
        return;
      }
      ghost var l := fat.Past();
      LaterMeans(l0, l);
      var i := dirIdx / ENTRY_SIZE;
      var e := SyncedEntry(EntryOf(fat.buf, i), accessed, modified, size, date, time);
      EntryAfterPut(fat.buf, i, e, i);
      EntryKeepsFile(fat.g, v, sclust, cs, dirSect, PutEntryIn(fat.buf, i, e), sect, buf);
      fat.SetBuf(PutEntryIn(fat.buf, i, e));
      HarmlessSect(fat.g, v, fat.Now(), dirSect, {sclust});
      LaterTrans(l0, l, fat.Past());
      if AllSafe(fat.g, fat.size, h, k) {
        fat.SafeAfterWrite(h, k);
      }
    }

    /** The last step: FSInfo and the volume's own buffer. */
    method Flush(ghost k: nat) returns (err: int)
      requires Ready() && HasEntry() && buf == fat.Now()[sect] && k <= fat.at
      requires fat.infoDirty ==> fat.Trusted(fat.g.infoSect)
      modifies fat`sect, fat`buf, fat`bufDirty, fat`infoDirty, fat`at, fat`marks, fat`hist, fat`spoiled, fat.dev
      ensures fat.Steady()
      ensures err == ERR_IO ==> fat.Refused()
      ensures Harmless(fat.g, old(fat.Now()), fat.Now(), {sclust}, {Home()})
      ensures err == ERR_NONE || err == ERR_IO
      ensures err == ERR_NONE ==>
                && Ready() && HasEntry() && buf == fat.Now()[sect]
                && Data() == old(Data()) && EntryNow() == old(EntryNow())
                && SameData(fat.g, old(fat.Now()), fat.Now()) && SameChains(fat.g, old(fat.Now()), fat.Now())
                && BufferElsewhere()
                && !fat.bufDirty && !fat.infoDirty && fat.dev.sects == fat.Now()
                && FileOnCard(fat.g, fat.dev.sects, sclust, cs, old(Data()), dirSect, dirIdx, old(EntryNow()))
      ensures AllSafe(fat.g, fat.size, old(fat.hist), k) ==> AllSafe(fat.g, fat.size, fat.hist, k)
    {
      hide Harmless, Ordered, Later, IsChain, ChainOn, OnMedium, AllSafe, NoDangling, Allocated, At, SectFor, ByteCnt,
        EntryOf, IsDataSect, PutInfo;
      ghost var v, h := fat.Now(), fat.hist;
      ghost var last, free := fat.lastUsed, fat.freeCnt;
      OverlayStored(v, sect, buf);
      if AllSafe(fat.g, fat.size, h, k) {
        fat.SafeNow(k);
        fat.SafeAfterInfo(h, v, k, last, free);
      }
      err := fat.SyncFs();
      HarmlessInfo(fat.g, v, fat.Now(), sclust, cs, last, free, {Home()});
      if err == ERR_NONE {
        InfoKeepsFile(fat.g, v, fat.Now(), sclust, cs, last, free);
        DataSectMeans(fat.g, cs, sect);
        OverlayStored(fat.Now(), sect, buf);
      }
    }

    /** The first two steps: what the handle holds goes to the volume. */
    method StoreBoth(date: nat, time: nat, ghost k: nat) returns (err: int, ghost stored: Volume)
      requires Ready() && HasEntry() && k <= fat.at && SyncTrusted()
      modifies fat`sect, fat`buf, fat`bufDirty, fat`at, fat`marks, fat`raw, fat`hist, fat`spoiled, fat.dev
      ensures fat.Steady()
      ensures err == ERR_IO ==> fat.Refused()
      ensures Harmless(fat.g, old(fat.Now()), fat.Now(), {sclust}, {Home()})
      ensures err == ERR_NONE || err == ERR_IO
      ensures err == ERR_NONE ==>
                && Ready() && HasEntry() && buf == fat.Now()[sect] && Data() == old(Data()) && BufferAtEntry()
                && (fat.infoDirty ==> fat.Trusted(fat.g.infoSect))
                && EntryNow() == SyncedEntry(old(EntryNow()), accessed, modified, size, date, time)
                && fat.Now()[dirSect] == PutEntryIn(old(fat.Now())[dirSect], dirIdx / ENTRY_SIZE, EntryNow())
                && SameSystem(fat.g, old(fat.Now()), stored) && SameOutside(fat.g, old(fat.Now()), stored, cs)
                && |stored| == |fat.Now()| && fat.Now() == stored[dirSect := fat.Now()[dirSect]]
      ensures AllSafe(fat.g, fat.size, old(fat.hist), k) ==> AllSafe(fat.g, fat.size, fat.hist, k)
    {
      hide Harmless, Ordered, Later, IsChain, ChainOn, OnMedium, AllSafe, SameSystem, SameOutside, Allocated, At,
        SectFor, ByteCnt, EntryOf, PutEntryIn, SyncedEntry, IsDataSect, Overlay;
      ghost var l0, v0 := fat.Past(), fat.Now();
      err := StoreBuffer();
      stored := fat.Now();
      ghost var e := Home();
      if err != ERR_NONE {
        return;
      }
      ghost var l1 := fat.Past();
      LaterMeans(l0, l1);
      NothingSynced(EntryNow(), size, date, time);
      EntryPutBack(v0[dirSect], dirIdx / ENTRY_SIZE);
      EntryApartFromInfo(fat.g, fat.size, dirSect);
      if accessed || modified {
        err := StoreEntry(date, time, k);
        LaterTrans(l0, l1, fat.Past());
        HarmlessTrans(fat.g, v0, stored, fat.Now(), {sclust}, {e});
      }
    }

    /** fat_file_sync: when it succeeds, the card alone holds the file: its bytes, its chain, its size. */
    method Sync(date: nat, time: nat, ghost k: nat) returns (err: int)
      requires Ready() && HasEntry() && k <= fat.at && SyncTrusted()
      modifies this`accessed, this`modified, fat`sect, fat`buf, fat`bufDirty, fat`infoDirty, fat`at, fat`marks,
        fat`raw, fat`hist, fat`spoiled, fat.dev
      ensures fat.Steady()
      ensures err == ERR_IO ==> fat.Refused()
      ensures Harmless(fat.g, old(fat.Now()), fat.Now(), {sclust}, {Home()})
      ensures err == ERR_NONE || err == ERR_IO
      ensures err == ERR_NONE ==>
                && Ready() && !accessed && !modified && Content() == old(Content()) && BufferAtEntry()
                && !fat.bufDirty && !fat.infoDirty && fat.dev.sects == fat.Now()
                && HasEntry() && FileOnCard(fat.g, fat.dev.sects, sclust, cs, old(Data()), dirSect, dirIdx, EntryNow())
                && EntryNow() == SyncedEntry(old(EntryNow()), old(accessed), old(modified), size, date, time)
                && fat.Now()[dirSect] == PutEntryIn(old(fat.Now())[dirSect], dirIdx / ENTRY_SIZE, EntryNow())
                && SameButEntry(fat.g, old(fat.Now()), fat.Now(), cs, dirSect)
      ensures AllSafe(fat.g, fat.size, old(fat.hist), k) ==> AllSafe(fat.g, fat.size, fat.hist, k)
    {
      hide Harmless, Home, Ordered, Later, IsChain, ChainOn, OnMedium, AllSafe, SameSystem, SameOutside, SameData,
        SameChains, SameButEntry, Allocated, At, SectFor, ByteCnt, EntryOf, PutEntryIn, SyncedEntry, IsDataSect,
        Overlay, FileOnCard, GeoOk;
      ghost var l0, v0 := fat.Past(), fat.Now();
      ghost var stored;
      err, stored := StoreBoth(date, time, k);
      if err != ERR_NONE {
        return;
      }
      ghost var l2, v2 := fat.Past(), fat.Now();
      LaterMeans(l0, l2);
      err := Flush(k);
      LaterTrans(l0, l2, fat.Past());
      HarmlessTrans(fat.g, v0, v2, fat.Now(), {sclust}, {Home()});
      if err == ERR_NONE {
        SyncFrame(fat.g, v0, stored, v2, fat.Now(), cs, dirSect);
        accessed, modified := false, false;
      }
    }
  }

  function Or32(attr: byte): byte { if attr / 32 % 2 == 1 then attr else attr + 32 }

  /** The archive bit and the time of writing. */
  function Archived(e: Entry, date: nat, time: nat): (r: Entry) {
    e[11 := Or32(e[11])][24 := date % 0x100][25 := date / 0x100 % 0x100][22 := time % 0x100][23 := time / 0x100 % 0x100]
  }

  /** What a sync makes of the directory entry: dates, archive bit, size. */
  function SyncedEntry(e: Entry, accessed: bool, modified: bool, size: u32, date: nat, time: nat): (r: Entry)
  {
    var e := if accessed then e[18 := date % 0x100][19 := date / 0x100 % 0x100] else e;
    if modified then
      PutLe32(Archived(e, date, time), 28, size)
    else e
  }

  lemma InfoBelowData(g: Geo, size: nat, cs: seq<nat>)
    requires GeoOk(g, size)
    ensures g.infoSect < g.dataSect && !IsDataSect(g, cs, g.infoSect)
  {
  }

  lemma EntryApartFromInfo(g: Geo, size: nat, d: nat)
    requires GeoOk(g, size) && g.dataSect <= d
    ensures d != g.infoSect
  {
  }

  lemma NothingSynced(e: Entry, size: u32, date: nat, time: nat)
    ensures SyncedEntry(e, false, false, size, date, time) == e
  {
  }

  /** The name and the start of the chain stay; the size is the new one if the file has been written to. */
  lemma SyncedEntryReads(e: Entry, accessed: bool, modified: bool, size: u32, date: nat, time: nat)
    ensures var r := SyncedEntry(e, accessed, modified, size, date, time);
      && EntryClust(r) == EntryClust(e) && r[..11] == e[..11] && (!IsLfn(e) ==> !IsLfn(r))
      && EntrySize(r) == if modified then size else EntrySize(e)
  {
    hide Le32;
    var e1 := if accessed then e[18 := date % 0x100][19 := date / 0x100 % 0x100] else e;
    Le32Same(e, e1, 28);
    if modified {
      Le32AfterPut(Archived(e1, date, time), 28, size, 28);
    }
  }

  /** The times a sync leaves, told where FAT32 has them, and the archive bit. */
  lemma SyncedTimes(e: Entry, accessed: bool, modified: bool, size: u32, date: nat, time: nat)
    ensures var r := SyncedEntry(e, accessed, modified, size, date, time);
      && Le16(r, 18) == (if accessed then date % 0x1_0000 else Le16(e, 18))
      && Le16(r, 22) == (if modified then time % 0x1_0000 else Le16(e, 22))
      && Le16(r, 24) == (if modified then date % 0x1_0000 else Le16(e, 24))
      && (modified ==> r[11] / 0x20 % 2 == 1)
      && r[11] % 0x20 == e[11] % 0x20 && r[11] / 0x40 == e[11] / 0x40 && (!modified ==> r[11] == e[11])
      && r[12..18] == e[12..18] && r[20..22] == e[20..22]
  {
    LowWord(date);
    LowWord(time);
  }

  /** The same links, and the same in the second copy if they were. */
  ghost predicate SameChains(g: Geo, v: Volume, w: Volume) {
    |v| == |w| && GeoOk(g, |v|) && Tab(g, v) == Tab(g, w) && (Mirrored(g, v) ==> Mirrored(g, w))
  }

  /** Nothing of w but the clusters cs and the sector d differs from v. */
  ghost predicate SameButEntry(g: Geo, v: Volume, w: Volume, cs: seq<nat>, d: nat) {
    && SameChains(g, v, w) && d < |w| && SameOutside(g, v[d := w[d]], w, cs)
  }

  /** Read from the card alone, the file with entry e at dirSect, dirIdx is the chain cs with the bytes data. */
  ghost predicate FileOnCard(g: Geo, card: Volume, c: nat, cs: seq<nat>, data: seq<byte>, dirSect: nat, dirIdx: nat,
                             e: Entry) {
    && ChainOn(g, card, c, cs) && OnMedium(g, card, cs) && Allocated(g, card, cs) == data
    && dirSect < |card| && dirIdx / ENTRY_SIZE < PER_SECTOR && EntryOf(card[dirSect], dirIdx / ENTRY_SIZE) == e
  }

  /** A directory sector is none of the file's business. */
  lemma OverlayStored(v: Volume, s: nat, data: Sector)
    requires s < |v|
    ensures Overlay(v[s := data], s, data) == Overlay(v, s, data) == v[s := data]
    ensures v[s] == data ==> v[s := data] == v
  {
  }

  /** Neither is FSInfo. */
  lemma InfoKeepsFile(g: Geo, v: Volume, w: Volume, c: nat, cs: seq<nat>, last: u32, free: u32)
    requires ChainOn(g, v, c, cs) && OnMedium(g, v, cs) && (w == v || w == PutInfo(g, v, last, free))
    ensures ChainOn(g, w, c, cs) && OnMedium(g, w, cs) && Allocated(g, w, cs) == Allocated(g, v, cs)
    ensures SameData(g, v, w)
    ensures !IsDataSect(g, cs, g.infoSect) && SameChains(g, v, w)
  {
    hide Allocated;
    AfterPutInfo(g, v, last, free);
    AllocatedExtend(g, v, w, cs, cs);
  }

  /** What the steps of a sync leave as it was. */
  lemma SyncFrame(g: Geo, v: Volume, stored: Volume, noted: Volume, w: Volume, cs: seq<nat>, d: nat)
    requires GeoOk(g, |v|) && SameSystem(g, v, stored) && SameOutside(g, v, stored, cs) && g.dataSect <= d < |v|
    requires |noted| == |stored| && noted == stored[d := noted[d]] && SameData(g, noted, w) && SameChains(g, noted, w)
    ensures SameButEntry(g, v, w, cs, d) && w[d] == noted[d]
  {
    hide Tab, TabAt, Mirrored, ClustOf;
    DataKeepsTables(g, v, stored);
    DataKeepsTables(g, stored, noted);
    MirroredAlike(g, v, noted);
  }

  lemma MirroredAlike(g: Geo, v: Volume, w: Volume)
    requires SameSystem(g, v, w) && GeoOk(g, |v|)
    ensures Mirrored(g, v) ==> Mirrored(g, w)
  {
    DataKeepsTables(g, v, w);
  }

  lemma EntryPutBack(s: Sector, i: nat)
    requires i < PER_SECTOR
    ensures PutEntryIn(s, i, EntryOf(s, i)) == s
  {
  }

  lemma EntryKeepsFile(g: Geo, v: Volume, c: nat, cs: seq<nat>, d: nat, entry: Sector, s: nat, data: Sector)
    requires ChainOn(g, v, c, cs) && OnMedium(g, v, cs) && g.dataSect <= d < |v| && !IsDataSect(g, cs, d)
    ensures ChainOn(g, v[d := entry], c, cs) && OnMedium(g, v[d := entry], cs) && OnMedium(g, Overlay(v, s, data), cs)
    ensures OnMedium(g, Overlay(v[d := entry], s, data), cs)
    ensures Allocated(g, Overlay(v[d := entry], s, data), cs) == Allocated(g, Overlay(v, s, data), cs)
    ensures IsDataSect(g, cs, s) ==> s != d
  {
    DataKeepsTables(g, v, v[d := entry]);
    AllocatedSame(g, Overlay(v, s, data), Overlay(v[d := entry], s, data), cs, d);
  }

  lemma AllocatedSame(g: Geo, v: Volume, w: Volume, cs: seq<nat>, d: nat)
    requires OnMedium(g, v, cs) && |v| == |w| && !IsDataSect(g, cs, d) && g.dataSect <= d
    requires forall s :: g.dataSect <= s < |v| && s != d ==> v[s] == w[s]
    ensures Allocated(g, v, cs) == Allocated(g, w, cs)
  {
    hide ChainSect, ClustOf, SectCnt;
    forall i | 0 <= i < ByteCnt(g, cs) ensures ByteAt(g, v, cs, i) == ByteAt(g, w, cs, i) {
      ChainSectIn(g, |v|, cs, i / SECTOR_SIZE);
    }
  }

  /** now is was with part stored at off, and perhaps more behind. */
  predicate Overwrote(was: seq<byte>, now: seq<byte>, off: nat, part: seq<byte>) {
    && |was| <= |now| && off + |part| <= |now| && now[off..off + |part|] == part
    && forall i :: 0 <= i < |was| && !(off <= i < off + |part|) ==> now[i] == was[i]
  }

  /** now is was after src has been written at off, no further than behind its last byte. */
  predicate WrittenTo(was: seq<byte>, off: nat, src: seq<byte>, now: seq<byte>) {
    off <= |was| ==> now == Overwritten(was, off, src)
  }

  /** The bytes the clusters of a file would have with all free ones added. */
  ghost function ByteLimit(g: Geo, v: Volume, cs: seq<nat>): int
    requires GeoOk(g, |v|)
  {
    SECTOR_SIZE * ((|cs| + FreeCount(Tab(g, v))) * g.spc)
  }

  lemma GrownLimit(g: Geo, v: Volume, w: Volume, c: nat, cs: seq<nat>, all: seq<nat>)
    requires Grown(g, v, w, cs, all) && ChainOn(g, v, c, cs) && ChainOn(g, w, c, all)
    ensures ByteCnt(g, all) <= ByteLimit(g, v, cs)
  {
    hide Tab, FreeCount, IsChain, SameOutside, Mirrored, GrownTab;
    GrownCount(g, v, w, c, cs, all);
    var n := |cs| + FreeCount(Tab(g, v));
    if |all| < n {
      MulLess(|all|, n, g.spc);
    }
  }

  /** What a write at off makes of a byte array: it replaces and, past the end, appends. */
  function Overwritten(content: seq<byte>, off: nat, part: seq<byte>): seq<byte>
    requires off <= |content|
  {
    content[..off] + part + if off + |part| < |content| then content[off + |part|..] else []
  }

  lemma OverwroteStart(all: seq<byte>, from: nat)
    requires from <= |all|
    ensures Overwrote(all, all, from, [])
  {
  }

  lemma OverwroteStep(all: seq<byte>, was: seq<byte>, now: seq<byte>, from: nat, src: seq<byte>, n: nat, cnt: nat)
    requires n + cnt <= |src| && Overwrote(all, was, from, src[..n]) && Overwrote(was, now, from + n, src[n..][..cnt])
    ensures Overwrote(all, now, from, src[..n + cnt])
  {
    forall i | 0 <= i < n + cnt ensures now[from + i] == src[i] {
      if i < n {
        assert now[from + i] == was[from + i] == was[from..from + n][i];
      } else {
        assert now[from + i] == now[from + n..from + n + cnt][i - n];
      }
    }
  }

  lemma OverwroteContent(was: seq<byte>, now: seq<byte>, off: nat, part: seq<byte>, size: nat)
    requires Overwrote(was, now, off, part) && off <= size <= |was|
    ensures now[..if off + |part| > size then off + |part| else size] == Overwritten(was[..size], off, part)
  {
    var n := if off + |part| > size then off + |part| else size;
    forall i | off <= i < off + |part| ensures now[i] == part[i - off] {
      assert now[i] == now[off..off + |part|][i - off];
    }
    assert |Overwritten(was[..size], off, part)| == n;
  }

  /** Storing into the buffer of a handle stores into the file, at the cursor. */
  lemma BufferPut(g: Geo, v: Volume, cs: seq<nat>, off: nat, s: nat, data: Sector, part: seq<byte>)
    requires OnMedium(g, v, cs) && Distinct(cs) && SectFor(g, cs, off, s) && off % SECTOR_SIZE + |part| <= SECTOR_SIZE
    ensures OnMedium(g, Overlay(v, s, data), cs)
    ensures OnMedium(g, Overlay(v, s, Splice(data, off % SECTOR_SIZE, part)), cs)
    ensures off + |part| <= ByteCnt(g, cs)
    ensures Overwrote(Allocated(g, Overlay(v, s, data), cs),
                      Allocated(g, Overlay(v, s, Splice(data, off % SECTOR_SIZE, part)), cs), off, part)
  {
    hide Allocated, ChainSect, SectCnt, Distinct;
    SectorIndex(off, SectCnt(g, cs));
    var q, data' := off / SECTOR_SIZE, Splice(data, off % SECTOR_SIZE, part);
    BufferedBytes(g, v, cs, off, s, data);
    AllocatedPut(g, Overlay(v, s, data), cs, q, data');
    assert Overlay(v, s, data)[s := data'] == Overlay(v, s, data');
  }

  /** part is what all holds from from on. */
  predicate IsSlice(all: seq<byte>, from: nat, part: seq<byte>) {
    from + |part| <= |all| && part == all[from..from + |part|]
  }

  lemma SliceStart(all: seq<byte>, from: nat)
    requires from <= |all|
    ensures IsSlice(all, from, [])
  {
  }

  lemma SliceStep(all: seq<byte>, now: seq<byte>, from: nat, done: seq<byte>, part: seq<byte>)
    requires IsSlice(all, from, done) && all <= now && IsSlice(now, from + |done|, part)
    requires from + |done| + |part| <= |all|
    ensures IsSlice(all, from, done + part)
  {
  }

  function Least(a: nat, b: nat): nat { if a < b then a else b }

  /** How many bytes a read delivers. */
  function ReadCnt(offset: nat, size: nat, len: nat): nat {
    if offset < size then Least(len, size - offset) else 0
  }

  /** With the clusters cs of a file and the free ones, the volume has too few for the file to reach offset off; the
      cluster that was allocated last is never found, so one may be free and not help. */
  ghost predicate Short(g: Geo, v: Volume, cs: seq<nat>, off: nat) {
    GeoOk(g, |v|) && g.spc > 0 && FreeCount(Tab(g, v)) + |cs| <= ClustNo(g, off) + 1
  }

  /** The chain has grown no further than offset off asks for. */
  predicate NoMore(g: Geo, cs: seq<nat>, all: seq<nat>, off: nat) {
    g.spc > 0 && (|all| == |cs| || |all| <= ClustNo(g, off) + 1)
  }

  lemma NoMoreStart(g: Geo, v: Volume, cs: seq<nat>, off: nat)
    requires OnMedium(g, v, cs)
    ensures NoMore(g, cs, cs, off)
  {
  }

  lemma NoMoreOn(g: Geo, cs: seq<nat>, all: seq<nat>, more: seq<nat>, off: nat, end: nat)
    requires NoMore(g, cs, all, off) && NoMore(g, all, more, end) && off <= end && |cs| <= |all| <= |more|
    ensures NoMore(g, cs, more, end)
  {
    ClustNoMono(g, off, end);
  }

  lemma ClustNoMono(g: Geo, off: nat, end: nat)
    requires g.spc > 0 && off <= end
    ensures ClustNo(g, off) <= ClustNo(g, end)
  {
    DivMono(off / SECTOR_SIZE, end / SECTOR_SIZE, g.spc);
  }

  /** Too few clusters for a later step are too few for the whole way, from the start. */
  lemma ShortBefore(g: Geo, v: Volume, f: u32, w: Volume, f': u32, c: nat, cs: seq<nat>, all: seq<nat>, off: nat,
                    end: nat)
    requires Extended(g, v, f, w, f', c, cs, all) && ChainOn(g, v, c, cs) && ChainOn(g, w, c, all) && off <= end
    ensures GeoOk(g, |v|) && |v| == |w| && (AllocOk(Tab(g, v)) ==> AllocOk(Tab(g, w)))
    ensures Short(g, w, all, off) ==> Short(g, v, cs, end)
    ensures cs <= all && ByteCnt(g, cs) <= ByteCnt(g, all)
  {
    hide Tab, AllocOk, FreeUpTo, IsChain, Grown, ClustNo, Harmless, SectCnt;
    GrownSound(g, v, w, c, cs, all);
    SectCntMono(g, cs, all);
    if g.spc > 0 {
      ClustNoMono(g, off, end);
    }
  }

  /** What work on the file that starts at c makes of the volume v with the free count f: the chain grows from cs to
      all, its bytes may be new, the count goes down with it, and that is all. */
  ghost predicate Extended(g: Geo, v: Volume, f: u32, w: Volume, f': u32, c: nat, cs: seq<nat>, all: seq<nat>) {
    && cs <= all && SameOutside(g, v, w, all) && Harmless(g, v, w, {c}, {}) && Grown(g, v, w, cs, all)
    && f' == AddWrap(f, |cs| - |all|)
  }

  lemma ExtendedStart(g: Geo, v: Volume, f: u32, c: nat, cs: seq<nat>)
    requires ChainOn(g, v, c, cs) && OnMedium(g, v, cs)
    ensures Extended(g, v, f, v, f, c, cs, cs)
  {
    hide Grown, Harmless;
    SameRefl(g, v, cs);
    GrownStart(g, v, c, cs);
    HarmlessStart(g, v, c, cs);
  }

  lemma ExtendedMeans(g: Geo, v: Volume, f: u32, w: Volume, f': u32, c: nat, cs: seq<nat>, all: seq<nat>)
    requires Extended(g, v, f, w, f', c, cs, all)
    ensures cs <= all && SameOutside(g, v, w, all) && Harmless(g, v, w, {c}, {}) && Grown(g, v, w, cs, all)
    ensures f' == AddWrap(f, |cs| - |all|)
  {
    hide Grown, Harmless, SameOutside, AddWrap;
  }

  /** A step more, also one that stops half way. */
  lemma ExtendedOn(g: Geo, u: Volume, f: u32, v: Volume, f1: u32, w: Volume, f2: u32, c: nat, cs: seq<nat>,
                   all: seq<nat>, more: seq<nat>)
    requires Extended(g, u, f, v, f1, c, cs, all) && all <= more
    requires SameOutside(g, v, w, more) && Harmless(g, v, w, {c}, {})
    ensures cs <= more && SameOutside(g, u, w, more) && Harmless(g, u, w, {c}, {})
    ensures Grown(g, v, w, all, more) && f2 == AddWrap(f1, |all| - |more|) ==> Extended(g, u, f, w, f2, c, cs, more)
  {
    hide Grown, Harmless, SameOutside, AddWrap;
    SameOutsideTrans(g, u, v, w, all, more);
    HarmlessTrans(g, u, v, w, {c}, {});
    if Grown(g, v, w, all, more) {
      GrownTrans(g, u, v, w, cs, all, more);
      AddWrapTwice(f, |cs| - |all|, |all| - |more|);
    }
  }

  lemma GrownStart(g: Geo, v: Volume, c: nat, cs: seq<nat>)
    requires ChainOn(g, v, c, cs) && OnMedium(g, v, cs)
    ensures Grown(g, v, v, cs, cs)
  {
    GrownRefl(g, v, cs);
  }

  lemma SectForMeans(g: Geo, cs: seq<nat>, off: nat, s: nat)
    requires SectFor(g, cs, off, s)
    ensures off < ByteCnt(g, cs)
  {
  }

  /** The buffer of a handle is the 512 bytes of the file around the cursor. */
  lemma BufferedBytes(g: Geo, v: Volume, cs: seq<nat>, off: nat, s: nat, data: Sector)
    requires OnMedium(g, v, cs) && SectFor(g, cs, off, s)
    ensures OnMedium(g, Overlay(v, s, data), cs) && IsChunk(Allocated(g, Overlay(v, s, data), cs), off, data)
  {
    hide Allocated, ChainSect, SectCnt;
    SectorIndex(off, SectCnt(g, cs));
    SectorOfBytes(g, Overlay(v, s, data), cs, off / SECTOR_SIZE);
  }

  /** data is the aligned 512 bytes around offset off of the file. */
  predicate IsChunk(all: seq<byte>, off: nat, data: Sector) {
    && off - off % SECTOR_SIZE + SECTOR_SIZE <= |all|
    && all[off - off % SECTOR_SIZE..off - off % SECTOR_SIZE + SECTOR_SIZE] == data
  }

  lemma ChunkPart(all: seq<byte>, off: nat, data: Sector, cnt: nat)
    requires IsChunk(all, off, data) && off % SECTOR_SIZE + cnt <= SECTOR_SIZE
    ensures off + cnt <= |all| && data[off % SECTOR_SIZE..off % SECTOR_SIZE + cnt] == all[off..off + cnt]
  {
    var idx := off % SECTOR_SIZE;
    assert all[off - idx..off - idx + SECTOR_SIZE][idx..idx + cnt] == all[off..off + cnt];
  }

  lemma FirstOffset(g: Geo, cs: seq<nat>)
    requires g.spc > 0 && |cs| > 0
    ensures At(g, cs, 0, cs[0])
  {
  }

  /** What the volume may report to a file operation: no room, a broken table, a failed transfer, or the flag word
      that stretch_chain hands back instead of an error. */
  predicate IsStepErr(err: int) { err >= 0 || err == ERR_IO || err == ERR_BROKEN || err == ERR_FULL }

  predicate InRange(target: int) { 0 <= target <= 0xffff_ffff }

  lemma DataSectMeans(g: Geo, cs: seq<nat>, s: nat)
    requires IsDataSect(g, cs, s)
    ensures g.dataSect <= s
  {
  }

  /** Before the loop of a seek: the driver's cluster indices of the two offsets. */
  lemma SeekStart(g: Geo, v: Volume, c: nat, cs: seq<nat>, offset: nat, clust: nat, src: nat, off: nat, dst: nat)
    requires ChainOn(g, v, c, cs) && At(g, cs, offset, clust)
    requires src == offset / ClusterSize(g) && dst == off / ClusterSize(g)
    ensures |cs| > 0 && c == cs[0] && c >= 2
    ensures src < |cs| && clust == cs[src]
    ensures dst == ClustNo(g, off) && dst == ClustIdx(g, off) && src == ClustIdx(g, offset)
    ensures off / SECTOR_SIZE == offset / SECTOR_SIZE ==> src == dst
    ensures off < ByteCnt(g, cs) <==> dst < |cs|
  {
    ClusterIndex(offset, g.spc);
    ClusterIndex(off, g.spc);
    OffsetIn(g, cs, off);
  }

  /** The cursor is at off, in the chain all, which goes on from cs only if it had to; the bytes the chain had are
      the first ones of those it has. */
  ghost predicate Landed(g: Geo, v: Volume, w: Volume, cs: seq<nat>, all: seq<nat>, off: nat, clust: nat, s: nat) {
    && OnMedium(g, v, cs) && OnMedium(g, w, all) && |v| == |w| && cs <= all
    && At(g, all, off, clust) && SectFor(g, all, off, s) && IsDataSect(g, all, s) && s < |w|
    && ByteCnt(g, cs) <= ByteCnt(g, all) && (off < ByteCnt(g, cs) ==> cs == all)
    && Allocated(g, v, cs) <= Allocated(g, w, all)
  }

  lemma SeekEnd(g: Geo, v: Volume, w: Volume, cs: seq<nat>, all: seq<nat>, off: nat, clust: nat, s: nat, data: Sector)
    requires OnMedium(g, v, cs) && OnMedium(g, w, all) && cs <= all && SameData(g, v, w)
    requires At(g, all, off, clust) && (off < ByteCnt(g, cs) ==> cs == all)
    ensures g.spc > 0 && clust >= 2
    ensures Landed(g, Overlay(v, s, data), Overlay(w, s, data), cs, all, off, clust, SectIn(g, clust, off))
  {
    hide Allocated, SectCnt, ClustOf, SectIn, ClustNo, IsDataSect, SectFor;
    SectForAt(g, |v|, all, off, clust);
    SectCntMono(g, cs, all);
    AllocatedExtend(g, Overlay(v, s, data), Overlay(w, s, data), cs, all);
  }

  /** A write of n bytes at off leaves the cursor in the sector it is in. */
  predicate InSector(off: nat, n: nat) { off % SECTOR_SIZE + n < SECTOR_SIZE }

  lemma SectorStill(off: nat, n: nat, cnt: nat)
    requires cnt <= n
    ensures InSector(off, n) ==> InSector(off + cnt, n - cnt)
  {
    SectorStays(off, cnt);
  }

  lemma SectorStays(off: nat, n: nat)
    ensures off % SECTOR_SIZE + n < SECTOR_SIZE ==> (off + n) / SECTOR_SIZE == off / SECTOR_SIZE
    ensures off % SECTOR_SIZE + n < SECTOR_SIZE ==> (off + n) % SECTOR_SIZE == off % SECTOR_SIZE + n
  {
  }

  /** A sector of the file is in one place. */
  lemma SameSector(g: Geo, cs: seq<nat>, all: seq<nat>, off0: nat, s0: nat, off: nat, s: nat)
    requires SectFor(g, cs, off0, s0) && SectFor(g, all, off, s) && off0 / SECTOR_SIZE == off / SECTOR_SIZE
    requires off < ByteCnt(g, cs) ==> cs == all
    ensures s == s0
  {
    hide ChainSect, SectCnt;
    SectorIndex(off0, SectCnt(g, cs));
    OffsetBelow(off0, off, SectCnt(g, cs));
  }

  lemma OffsetBelow(a: nat, b: nat, n: nat)
    requires a / SECTOR_SIZE == b / SECTOR_SIZE && a < SECTOR_SIZE * n
    ensures b < SECTOR_SIZE * n
  {
  }

  lemma BuffersKept(g: Geo, v: Volume, w: Volume, cs: seq<nat>, all: seq<nat>, s: nat)
    requires SameData(g, v, w) && cs <= all
    ensures IsDataSect(g, cs, s) ==> IsDataSect(g, all, s) && (s < |v| ==> v[s] == w[s])
  {
  }

  lemma ChainEnds(g: Geo, v: Volume, c: nat, cs: seq<nat>, i: nat)
    requires ChainOn(g, v, c, cs) && OnMedium(g, v, cs) && i < |cs|
    ensures cs[i] < g.clustCnt && SameData(g, v, v) && Grown(g, v, v, cs, cs)
    ensures i < |cs| - 1 ==> KindOf(Tab(g, v)[cs[i]], g.clustCnt).Used? && Tab(g, v)[cs[i]] == cs[i + 1]
    ensures i == |cs| - 1 ==> KindOf(Tab(g, v)[cs[i]], g.clustCnt).Last? && IsTail(Tab(g, v), cs[i]) && cs[i] != 0
  {
    ChainLink(Tab(g, v), c, cs, i);
    GrownRefl(g, v, cs);
  }
}
