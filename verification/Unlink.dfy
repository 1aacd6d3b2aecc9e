/** Deleting a file or an empty directory. */
module Unlink {
  import opened Arith
  import opened Bytes
  import opened Chain
  import opened Layout
  import opened FatVolume
  import opened LongName
  import opened Records
  import opened DirLayout
  import opened DirGrow
  import opened FileBytes
  import opened Sparing
  import opened Bystanders
  import opened Directory

  const ATTR_RO := 0x01
  const ATTR_SYS := 0x04
  const ATTR_LABEL := 0x08
  const ATTR_DIR := 0x10

  predicate HasAttr(e: Entry, bit: nat)
    requires bit > 0
  {
    e[11] / bit % 2 == 1
  }

  /** es' is es with the entries from loc up to, not including, p marked free. */
  predicate RemovedUpTo(es: seq<Entry>, es': seq<Entry>, loc: nat, p: nat) {
    && |es'| == |es|
    && forall k :: 0 <= k < |es| ==> es'[k] == if loc <= k < p then es[k][0 := SFN_FREE] else es[k]
  }

  lemma RemovedStep(es: seq<Entry>, es': seq<Entry>, loc: nat, p: nat)
    requires RemovedUpTo(es, es', loc, p) && loc <= p < |es'|
    ensures RemovedUpTo(es, es'[p := es'[p][0 := SFN_FREE]], loc, p + 1)
  {
  }

  lemma RemovedStart(es: seq<Entry>, loc: nat)
    ensures RemovedUpTo(es, es, loc, loc)
  {
  }

  lemma RemovedEnd(es: seq<Entry>, es': seq<Entry>, loc: nat, at: nat)
    requires RemovedUpTo(es, es', loc, at + 1)
    ensures Removed(es, es', loc, at)
  {
  }

  /** Two positions in a directory have the same sector and offset exactly if they are the same. */
  lemma SamePosition(g: Geo, cs: seq<nat>, p: nat, r: nat, at: Loc, last: Loc)
    requires g.spc > 0 && ClustersOk(g, cs) && Distinct(cs) && LocOf(g, cs, p, at) && LocOf(g, cs, r, last)
    ensures at == last <==> p == r
  {
    if at == last {
      ChainSectUnique(g, cs, p / PER_SECTOR, r / PER_SECTOR);
    }
  }

  /** remove_entries: marks the entries from loc up to the one the handle is at. */
  method RemoveEntries(dir: Dir, loc: Loc, ghost start: nat, ghost k: nat) returns (err: int)
    requires dir.Ready() && LocOf(dir.fat.g, dir.cs, start, loc) && start <= dir.Pos() && k < |dir.fat.hist|
    modifies dir`clust, dir`sect, dir`idx, dir`q, dir.fat`sect, dir.fat`buf, dir.fat`bufDirty, dir.fat`at,
      dir.fat`marks, dir.fat`hist, dir.fat`spoiled, dir.fat.dev
    ensures dir.fat.Steady()
    ensures err == ERR_IO ==> dir.fat.Refused()
    ensures SameSystem(dir.fat.g, old(dir.fat.Now()), dir.fat.Now())
    ensures SameOutside(dir.fat.g, old(dir.fat.Now()), dir.fat.Now(), dir.cs)
    ensures err == ERR_NONE || err == ERR_IO
    ensures err == ERR_NONE ==> dir.Ready() && Removed(old(dir.Es()), dir.Es(), start, old(dir.Pos()))
    ensures AllSafe(dir.fat.g, dir.fat.size, old(dir.fat.hist), k) ==> AllSafe(dir.fat.g, dir.fat.size, dir.fat.hist, k)
  {
    hide Dirents, Ordered, Later, IsChain, ChainOn, DataOk, ClustersOk, AllSafe, SameSystem, SameOutside, EntryOf,
      ChainSect, Here, LocOf, Removed, RemovedUpTo;
    var fat := dir.fat;
    ghost var l0, v0, es, p := fat.Past(), fat.Now(), dir.Es(), dir.Pos();
    LaterRefl(l0);
    SameRefl(fat.g, v0, dir.cs);
    var last := Loc(dir.sect, dir.idx);
    LocHere(fat.g, dir.cs, dir.q, dir.clust, dir.sect, dir.idx);
    dir.PosInRange();
    dir.JumpTo(loc, start);
    RemovedStart(es, start);
    var done := false;
    while !done
      invariant old(fat.dev.refused) <= fat.dev.refused
      invariant dir.Ready() && Later(l0, fat.Past()) && k < |fat.hist| && start <= dir.Pos() <= p < |es| == |dir.Es()|
      invariant if done then Removed(es, dir.Es(), start, p) else RemovedUpTo(es, dir.Es(), start, dir.Pos())
      invariant SameSystem(fat.g, v0, fat.Now()) && SameOutside(fat.g, v0, fat.Now(), dir.cs)
      invariant AllSafe(fat.g, fat.size, old(fat.hist), k) ==> AllSafe(fat.g, fat.size, fat.hist, k)
      decreases !done, p - dir.Pos()
    {
      ghost var l, v := fat.Past(), fat.Now();
      err, done := RemoveTurn(dir, last, k, es, start, p);
      LaterMeans(l, fat.Past());
      LaterTrans(l0, l, fat.Past());
      SameTrans(fat.g, v0, v, fat.Now(), dir.cs);
      if err != ERR_NONE {
        return;
      }
    }
    err := ERR_NONE;
  }

  /** One turn of its loop: marks the entry at the handle and, unless that is the one at last, steps on. */
  method RemoveTurn(dir: Dir, last: Loc, ghost k: nat, ghost es: seq<Entry>, ghost start: nat, ghost p: nat)
    returns (err: int, done: bool)
    requires dir.Ready() && k < |dir.fat.hist| && start <= dir.Pos() <= p < |es| == |dir.Es()|
    requires RemovedUpTo(es, dir.Es(), start, dir.Pos()) && LocOf(dir.fat.g, dir.cs, p, last)
    modifies dir`clust, dir`sect, dir`idx, dir`q, dir.fat`sect, dir.fat`buf, dir.fat`bufDirty, dir.fat`at,
      dir.fat`marks, dir.fat`hist, dir.fat`spoiled, dir.fat.dev
    ensures dir.fat.Steady()
    ensures err == ERR_IO ==> dir.fat.Refused()
    ensures SameSystem(dir.fat.g, old(dir.fat.Now()), dir.fat.Now())
    ensures SameOutside(dir.fat.g, old(dir.fat.Now()), dir.fat.Now(), dir.cs)
    ensures err == ERR_NONE || err == ERR_IO
    ensures err == ERR_NONE ==> dir.Ready() && |dir.Es()| == |es| && old(dir.Pos()) <= dir.Pos() <= p
    ensures err == ERR_NONE ==>
              if done then Removed(es, dir.Es(), start, p)
              else dir.Pos() == old(dir.Pos()) + 1 && RemovedUpTo(es, dir.Es(), start, dir.Pos())
    ensures AllSafe(dir.fat.g, dir.fat.size, old(dir.fat.hist), k) ==> AllSafe(dir.fat.g, dir.fat.size, dir.fat.hist, k)
  {
    hide Dirents, Ordered, Later, IsChain, ChainOn, DataOk, ClustersOk, AllSafe, SameSystem, SameOutside, EntryOf,
      ChainSect, Here, LocOf, Removed, RemovedUpTo;
    var fat := dir.fat;
    ChainOnMedium(fat.g, fat.Now(), dir.sclust, dir.cs);
    ghost var l0 := fat.Past();
    done := false;
    err := FreeEntry(dir, k, es, start);
    if err != ERR_NONE {
      return;
    }
    LocHere(fat.g, dir.cs, dir.q, dir.clust, dir.sect, dir.idx);
    SamePosition(fat.g, dir.cs, dir.Pos(), p, Loc(dir.sect, dir.idx), last);
    if dir.sect == last.sect && dir.idx == last.idx {
      RemovedEnd(es, dir.Es(), start, p);
      done := true;
      return;
    }
    ghost var l := fat.Past();
    err := dir.Next();
    LaterTrans(l0, l, fat.Past());
  }

  /** Marks the entry at the handle as free. */
  method FreeEntry(dir: Dir, ghost k: nat, ghost es: seq<Entry>, ghost start: nat) returns (err: int)
    requires dir.Ready() && k < |dir.fat.hist| && start <= dir.Pos() && RemovedUpTo(es, dir.Es(), start, dir.Pos())
    modifies dir.fat`sect, dir.fat`buf, dir.fat`bufDirty, dir.fat`at, dir.fat`marks, dir.fat`hist, dir.fat`spoiled,
      dir.fat.dev
    ensures dir.fat.Steady()
    ensures err == ERR_IO ==> dir.fat.Refused()
    ensures SameSystem(dir.fat.g, old(dir.fat.Now()), dir.fat.Now())
    ensures SameOutside(dir.fat.g, old(dir.fat.Now()), dir.fat.Now(), dir.cs)
    ensures err == ERR_NONE || err == ERR_IO
    ensures err == ERR_NONE ==>
              && dir.Ready() && |dir.Es()| == old(|dir.Es()|) && RemovedUpTo(es, dir.Es(), start, dir.Pos() + 1)
    ensures AllSafe(dir.fat.g, dir.fat.size, old(dir.fat.hist), k) ==> AllSafe(dir.fat.g, dir.fat.size, dir.fat.hist, k)
  {
    hide Dirents, Ordered, Later, IsChain, ChainOn, DataOk, ClustersOk, AllSafe, SameSystem, SameOutside, EntryOf,
      ChainSect, Here, RemovedUpTo;
    ghost var l0, es0 := dir.fat.Past(), dir.Es();
    SameRefl(dir.fat.g, dir.fat.Now(), dir.cs);
    var e;
    err, e := dir.Load();
    if err == ERR_NONE {
      ghost var l := dir.fat.Past();
      LaterMeans(l0, l);
      RemovedStep(es, es0, start, dir.Pos());
      dir.SetEntry(e, e[0 := SFN_FREE], k);
      LaterTrans(l0, l, dir.fat.Past());
    }
  }

  // ---------------------------------------------------------------- is a directory empty

  /** Deleted entries from p up to d. */
  predicate DeletedFrom(es: seq<Entry>, p: nat, d: nat) {
    d <= |es| && forall k :: p <= k < d ==> Deleted(es[k])
  }

  /** Behind its first two entries the directory has nothing but deleted entries before the end marker. */
  ghost predicate EmptyDir(es: seq<Entry>) {
    exists d :: 2 <= d < |es| && DeletedFrom(es, 2, d) && IsLastMark(es[d])
  }

  ghost predicate EmptyOn(g: Geo, v: Volume, ds: seq<nat>) {
    OnMedium(g, v, ds) && EmptyDir(Dirents(g, v, ds))
  }

  ghost predicate LiveDir(es: seq<Entry>) {
    exists d :: 2 <= d < |es| && DeletedFrom(es, 2, d) && !IsFree(es[d])
  }

  ghost predicate LiveOn(g: Geo, v: Volume, ds: seq<nat>) {
    OnMedium(g, v, ds) && LiveDir(Dirents(g, v, ds))
  }

  /** The emptiness test of fat_unlink: a directory without end marker is neither, the scan runs into its end. */
  method CheckEmpty(tmp: Dir) returns (err: int)
    requires tmp.Ready() && tmp.Pos() == 0
    modifies tmp`clust, tmp`sect, tmp`idx, tmp`q, tmp.fat`sect, tmp.fat`buf, tmp.fat`bufDirty, tmp.fat`at,
      tmp.fat`marks, tmp.fat`spoiled, tmp.fat.dev
    ensures tmp.fat.Steady() && tmp.fat.Now() == old(tmp.fat.Now()) && tmp.fat.hist == old(tmp.fat.hist)
    ensures err == ERR_IO ==> tmp.fat.Refused()
    ensures err == ERR_NONE || err == ERR_DENIED || err == ERR_EOF || err == ERR_IO
    ensures err != ERR_IO ==> !tmp.fat.spoiled
    ensures err == ERR_NONE ==> EmptyDir(old(tmp.Es()))
    ensures err == ERR_DENIED ==> LiveDir(old(tmp.Es()))
    ensures err == ERR_EOF ==> DeletedFrom(old(tmp.Es()), 2, |old(tmp.Es())|)
  {
    hide Dirents, Ordered, Later, IsChain, ChainOn, DataOk, ClustersOk, EntryOf, ChainSect, Here, DeletedFrom;
    var fat := tmp.fat;
    ghost var l0, es := fat.Past(), tmp.Es();
    LaterRefl(l0);
    err := Advance(tmp, 2);
    if err != ERR_NONE {
      return;
    }
    DeletedNone(es, 2);
    while true
      invariant old(fat.dev.refused) <= fat.dev.refused
      invariant tmp.Ready() && Later(l0, fat.Past()) && fat.Now() == old(fat.Now()) && fat.hist == old(fat.hist)
      invariant tmp.Es() == es && 2 <= tmp.Pos() && DeletedFrom(es, 2, tmp.Pos())
      decreases |es| - tmp.Pos()
    {
      ghost var l := fat.Past();
      var e;
      err, e := tmp.Load();
      LaterTrans(l0, l, fat.Past());
      if err != ERR_NONE {
        return;
      }
      if IsLastMark(e) {
        return;
      }
      if !IsFree(e) {
        return ERR_DENIED;
      }
      DeletedOne(es, 2, tmp.Pos());
      l := fat.Past();
      err := tmp.Next();
      LaterTrans(l0, l, fat.Past());
      if err != ERR_NONE {
        return;
      }
    }
  }

  lemma DeletedNone(es: seq<Entry>, p: nat)
    requires p <= |es|
    ensures DeletedFrom(es, p, p)
  {
  }

  lemma DeletedOne(es: seq<Entry>, p: nat, d: nat)
    requires DeletedFrom(es, p, d) && d < |es| && Deleted(es[d])
    ensures DeletedFrom(es, p, d + 1)
  {
  }

  /** dir_advance: cnt entries on. */
  method Advance(tmp: Dir, cnt: nat) returns (err: int)
    requires tmp.Ready() && tmp.Pos() + cnt < |tmp.Es()|
    modifies tmp`clust, tmp`sect, tmp`idx, tmp`q, tmp.fat`sect, tmp.fat`buf, tmp.fat`bufDirty, tmp.fat`at,
      tmp.fat`marks, tmp.fat`spoiled, tmp.fat.dev
    ensures tmp.fat.Steady() && tmp.fat.Now() == old(tmp.fat.Now()) && tmp.fat.hist == old(tmp.fat.hist)
    ensures err == ERR_IO ==> tmp.fat.Refused()
    ensures err == ERR_NONE || err == ERR_IO
    ensures err == ERR_NONE ==> tmp.Ready() && tmp.Pos() == old(tmp.Pos()) + cnt
  {
    hide Dirents, Ordered, Later, IsChain, ChainOn, DataOk, ClustersOk, Here;
    var fat := tmp.fat;
    ghost var l0 := fat.Past();
    LaterRefl(l0);
    for i := 0 to cnt
      invariant old(fat.dev.refused) <= fat.dev.refused
      invariant tmp.Ready() && Later(l0, fat.Past()) && fat.Now() == old(fat.Now()) && fat.hist == old(fat.hist)
      invariant tmp.Pos() == old(tmp.Pos()) + i && |tmp.Es()| == old(|tmp.Es()|)
    {
      ghost var l := fat.Past();
      err := tmp.Next();
      LaterTrans(l0, l, fat.Past());
      if err != ERR_NONE {
        return;
      }
    }
    err := ERR_NONE;
  }

  // ---------------------------------------------------------------- fat_unlink

  /** On a volume with a sound table, c is the start of the chain ds, and neither it nor the directory that
      starts at sclust is linked to by another cluster. */
  ghost predicate Apart(g: Geo, v: Volume, sclust: nat, c: nat, ds: seq<nat>)
    requires GeoOk(g, |v|)
  {
    && AllocOk(Tab(g, v)) && IsHead(Tab(g, v), sclust) && Detached(Tab(g, v), c) && c != sclust
    && IsChain(Tab(g, v), c, ds)
  }

  /** Every chain of a head other than c is one in u as it is in t. */
  ghost predicate OtherChainsKept(t: Table, u: Table, c: nat) {
    forall d, xs :: IsHead(t, d) && d != c && IsChain(t, d, xs) ==> IsChain(u, d, xs)
  }

  lemma ErasedCounted(g: Geo, v: Volume, w: Volume, c: nat, f: u32, n: nat)
    requires GeoOk(g, |v|) && |w| == |v| && 2 <= c < g.clustCnt
    requires Tab(g, w) == Erase(Tab(g, v), c).t && Erase(Tab(g, v), c).freed == n
    ensures CountKept(g, v, f, w, AddWrap(f, n))
  {
    hide Tab, FreeUpTo, AddWrap, Erase;
    EraseCount(Tab(g, v), c);
    if Counted(g, v, f) {
      FreeAtMost(Tab(g, w), g.clustCnt);
      AddWrapExact(f, n);
    }
  }

  /** Releasing the chain of c: exactly the clusters ds become free, the directory and all other chains stay. */
  lemma ReleaseApart(g: Geo, v: Volume, w: Volume, sclust: nat, cs: seq<nat>, c: nat, ds: seq<nat>, f: u32, f': u32,
                     err: int)
    requires ChainOn(g, v, sclust, cs) && OnMedium(g, v, cs) && Apart(g, v, sclust, c, ds) && c < g.clustCnt
    requires Released(g, v, c, f, w, f', err) && err != ERR_IO
    ensures err == ERR_NONE && (Mirrored(g, v) ==> Mirrored(g, w)) && DataOk(g, |v|)
    ensures Tab(g, w) == ZeroAll(Tab(g, v), ds) && f' == AddWrap(f, |ds|)
    ensures AllocOk(Tab(g, w)) && OtherChainsKept(Tab(g, v), Tab(g, w), c)
    ensures |v| == |w| && SameData(g, v, w) && (2 <= c ==> CountKept(g, v, f, w, f'))
    ensures ChainOn(g, w, sclust, cs) && OnMedium(g, w, cs) && Dirents(g, w, cs) == Dirents(g, v, cs)
  {
    hide OnlyTables, Tab, Dirents, AllocOk, IsHead, Detached, Mirrored, Erase, AddWrap, CountKept;
    var t := Tab(g, v);
    EraseChain(t, c, ds);
    ErasedAllocOk(t, c, ds);
    TablesOnlySameData(g, v, w);
    if 2 <= c {
      ErasedCounted(g, v, w, c, f, |ds|);
    }
    DirentsSame(g, v, w, cs);
    assert IsChain(t, sclust, cs);
  }

  /** dir_at_root: also true of the first entry of the root directory. */
  predicate SeemsRoot(g: Geo, clust: nat, sect: nat, idx: nat) {
    clust == g.rootClust && 2 <= g.rootClust && sect == SectOf(g, g.rootClust) && idx == 0
  }

  /** Entry number p of the directory cs is where the root directory begins. */
  ghost predicate AtRootStart(g: Geo, cs: seq<nat>, p: nat)
    requires g.spc > 0 && ClustersOk(g, cs)
  {
    2 <= g.rootClust && LocOf(g, cs, p, Loc(SectOf(g, g.rootClust), 0))
  }

  lemma RootStart(g: Geo, cs: seq<nat>, q: nat, clust: nat, sect: nat, idx: nat)
    requires g.spc > 0 && ClustersOk(g, cs) && Here(g, cs, q, clust, sect, idx) && q < SectCnt(g, cs)
    ensures SeemsRoot(g, clust, sect, idx) <==> AtRootStart(g, cs, PER_SECTOR * q + idx / ENTRY_SIZE)
  {
    hide SectOf;
    LocHere(g, cs, q, clust, sect, idx);
    if 2 <= g.rootClust && sect == SectOf(g, g.rootClust) {
      DivBelow(q, g.spc, |cs|);
      SectUnique(g, cs[q / g.spc], q % g.spc, g.rootClust, 0);
    }
  }

  /** What fat_unlink will not delete: the first entry of the root directory, which it takes for the root itself; what
      is protected; a directory with something in it. */
  ghost predicate Barred(g: Geo, v: Volume, cs: seq<nat>, p: nat, e: Entry, ds: seq<nat>)
    requires g.spc > 0 && ClustersOk(g, cs)
  {
    || AtRootStart(g, cs, p) || HasAttr(e, ATTR_RO) || HasAttr(e, ATTR_SYS) || HasAttr(e, ATTR_LABEL)
    || (HasAttr(e, ATTR_DIR) && LiveOn(g, v, ds))
  }

  /** The directory has neither anything in it nor an end marker. */
  ghost predicate EndlessOn(g: Geo, v: Volume, ds: seq<nat>) {
    OnMedium(g, v, ds) && DeletedFrom(Dirents(g, v, ds), 2, |Dirents(g, v, ds)|)
  }

  /** The answer to a deletion of the entry e, number p of the directory cs, that points to the clusters ds. */
  ghost predicate UnlinkCode(g: Geo, v: Volume, cs: seq<nat>, p: nat, e: Entry, ds: seq<nat>, err: int)
    requires g.spc > 0 && ClustersOk(g, cs)
  {
    if Barred(g, v, cs, p, e, ds) then err == ERR_DENIED
    else if !HasAttr(e, ATTR_DIR) then err == ERR_NONE
    else (err == ERR_NONE && EmptyOn(g, v, ds)) || (err == ERR_EOF && EndlessOn(g, v, ds))
  }

  lemma NotLive(g: Geo, v: Volume, ds: seq<nat>)
    ensures EmptyOn(g, v, ds) || EndlessOn(g, v, ds) ==> !LiveOn(g, v, ds)
    ensures EmptyOn(g, v, ds) ==> !EndlessOn(g, v, ds)
  {
    hide Dirents, OnMedium;
  }

  /** No two answers are right. */
  lemma OneAnswer(g: Geo, v: Volume, cs: seq<nat>, p: nat, e: Entry, ds: seq<nat>, a: int, b: int)
    requires g.spc > 0 && ClustersOk(g, cs)
    requires UnlinkCode(g, v, cs, p, e, ds, a) && UnlinkCode(g, v, cs, p, e, ds, b)
    ensures a == b
  {
    hide Barred, EmptyOn, EndlessOn;
    NotLive(g, v, ds);
  }

  lemma RootHere(dir: Dir, e: Entry)
    requires dir.At(e)
    ensures dir.fat.g.spc > 0 && ClustersOk(dir.fat.g, dir.cs)
    ensures SeemsRoot(dir.fat.g, dir.clust, dir.sect, dir.idx) <==> AtRootStart(dir.fat.g, dir.cs, dir.Pos())
  {
    hide Dirents, SeemsRoot, AtRootStart, Here, ChainSect;
    RootStart(dir.fat.g, dir.cs, dir.q, dir.clust, dir.sect, dir.idx);
  }

  /** fat_unlink, from the entry the search has found. ds are the clusters the entry points to. */
  method Unlink(dir: Dir, loc: Loc, ghost e: Entry, ghost start: nat, ghost ds: seq<nat>, ghost k: nat)
    returns (err: int)
    requires dir.At(e) && LocOf(dir.fat.g, dir.cs, start, loc) && start <= dir.Pos() && k <= dir.fat.at
    requires Apart(dir.fat.g, dir.fat.Now(), dir.sclust, EntryClust(e), ds)
    requires (HasAttr(e, ATTR_DIR) ==> EntryClust(e) >= 2)
    modifies dir`clust, dir`sect, dir`idx, dir`q, dir.fat`freeCnt, dir.fat`sect, dir.fat`buf, dir.fat`bufDirty,
      dir.fat`infoDirty, dir.fat`at, dir.fat`marks, dir.fat`hist, dir.fat`spoiled, dir.fat.dev
    ensures dir.fat.Steady()
    ensures err == ERR_IO ==> dir.fat.Refused()
    ensures Harmless(dir.fat.g, old(dir.fat.Now()), dir.fat.Now(), {dir.sclust, EntryClust(e)}, {})
    ensures err == ERR_NONE || err == ERR_DENIED || err == ERR_EOF || err == ERR_IO
    ensures err != ERR_IO ==> !dir.fat.spoiled
    ensures err == ERR_NONE ==>
              Unlinked(dir.fat.g, old(dir.fat.Now()), dir.fat.Now(), dir.sclust, dir.cs, start, old(dir.Pos()), ds)
    ensures err == ERR_NONE ==>
              && !dir.fat.spoiled && !dir.fat.bufDirty && dir.fat.dev.sects == dir.fat.Now()
              && dir.fat.freeCnt == AddWrap(old(dir.fat.freeCnt), |ds|) && |ds| > 0
              && (ds[0] >= 2 ==>
                    CountKept(dir.fat.g, old(dir.fat.Now()), old(dir.fat.freeCnt), dir.fat.Now(), dir.fat.freeCnt))
              && !HasAttr(e, ATTR_RO) && !HasAttr(e, ATTR_SYS) && !HasAttr(e, ATTR_LABEL)
              && (HasAttr(e, ATTR_DIR) ==> EmptyOn(dir.fat.g, old(dir.fat.Now()), ds))
    ensures err != ERR_IO ==>
              UnlinkCode(dir.fat.g, old(dir.fat.Now()), dir.cs, old(dir.Pos()), e, ds, err)
    ensures err == ERR_DENIED || err == ERR_EOF ==>
              dir.fat.Now() == old(dir.fat.Now()) && dir.fat.freeCnt == old(dir.fat.freeCnt)
    ensures AllSafe(dir.fat.g, dir.fat.size, old(dir.fat.hist), k) ==> AllSafe(dir.fat.g, dir.fat.size, dir.fat.hist, k)
  {
    hide Harmless, Dirents, Ordered, Later, IsChain, AllSafe, SameSystem, SameOutside, ChainSect, Here, LocOf,
      Released, Unlinked, EntryClust, Apart, EmptyDir, LiveDir, CountKept, AtRootStart;
    var fat := dir.fat;
    LaterRefl(fat.Past());
    RootHere(dir, e);
    NotLive(fat.g, fat.Now(), ds);
    HarmlessNone(fat.g, fat.Now(), dir.sclust, dir.cs, EntryClust(e));
    if SeemsRoot(fat.g, dir.clust, dir.sect, dir.idx) {
      return ERR_DENIED;
    }
    var sfn := EntryOf(fat.buf, dir.idx / ENTRY_SIZE);
    var clust := EntryClust(sfn);
    if HasAttr(sfn, ATTR_RO) || HasAttr(sfn, ATTR_SYS) || HasAttr(sfn, ATTR_LABEL) {
      return ERR_DENIED;
    }
    ApartStart(fat.g, fat.Now(), dir.sclust, clust, ds);
    if HasAttr(sfn, ATTR_DIR) {
      ApartDir(fat.g, fat.Now(), dir.sclust, clust, ds);
      var tmp := new Dir.Enter(fat, clust, ds);
      err := CheckEmpty(tmp);
      if err != ERR_NONE {
        return;
      }
    }
    ghost var l0, l := old(fat.Past()), fat.Past();
    LaterMeans(l0, l);
    err := Delete(dir, clust, loc, start, ds, k);
    LaterTrans(l0, l, fat.Past());
  }

  /** w is v with the clusters ds of the chain of c free, and nothing else changed that matters to anybody. */
  ghost predicate ClustersFreed(g: Geo, v: Volume, w: Volume, sclust: nat, cs: seq<nat>, c: nat, ds: seq<nat>) {
    && DataOk(g, |v|) && |v| == |w| && OnMedium(g, v, cs) && OnMedium(g, w, cs)
    && Tab(g, w) == ZeroAll(Tab(g, v), ds) && AllocOk(Tab(g, w)) && OtherChainsKept(Tab(g, v), Tab(g, w), c)
    && SameData(g, v, w) && Dirents(g, w, cs) == Dirents(g, v, cs) && (Mirrored(g, v) ==> Mirrored(g, w))
  }

  /** To everybody else the release of the chain of c, however far it got, does no harm. */
  lemma HarmlessRelease(g: Geo, v: Volume, w: Volume, sclust: nat, cs: seq<nat>, c: nat, ds: seq<nat>, f: u32, f': u32,
                        err: int)
    requires ChainOn(g, v, sclust, cs) && Apart(g, v, sclust, c, ds) && c < g.clustCnt
    requires Released(g, v, c, f, w, f', err) && Freed(Tab(g, v), Tab(g, w), c)
    ensures Harmless(g, v, w, {sclust, c}, {})
  {
    hide Tab, AllocOk, IsHead, Detached, IsChain, OnlyTables, Freed, Spared, Harmless, Mirrored, Erase;
    TablesOnlySameData(g, v, w);
    FreedSpares(Tab(g, v), Tab(g, w), c, sclust, cs);
    HarmlessTab(g, v, w, {sclust, c}, {});
  }

  lemma HarmlessNone(g: Geo, v: Volume, sclust: nat, cs: seq<nat>, c: nat)
    requires ChainOn(g, v, sclust, cs)
    ensures Harmless(g, v, v, {sclust, c}, {})
  {
    HarmlessRefl(g, v, {sclust, c}, {});
  }

  /** The first step of the deletion. When it is done, the card has the clusters free and lists the name still. */
  method FreeClusters(dir: Dir, clust: nat, ghost ds: seq<nat>, ghost k: nat) returns (err: int)
    requires dir.Ready() && k <= dir.fat.at && Apart(dir.fat.g, dir.fat.Now(), dir.sclust, clust, ds)
    modifies dir.fat`freeCnt, dir.fat`sect, dir.fat`buf, dir.fat`bufDirty, dir.fat`infoDirty, dir.fat`at,
      dir.fat`marks, dir.fat`hist, dir.fat`spoiled, dir.fat.dev
    ensures dir.fat.Steady()
    ensures err == ERR_IO ==> dir.fat.Refused()
    ensures Harmless(dir.fat.g, old(dir.fat.Now()), dir.fat.Now(), {dir.sclust, clust}, {})
    ensures err == ERR_NONE || err == ERR_IO
    ensures err == ERR_NONE ==>
              && dir.Ready() && !dir.fat.infoDirty && dir.fat.dev.sects == dir.fat.Now()
              && dir.fat.freeCnt == AddWrap(old(dir.fat.freeCnt), |ds|)
              && (2 <= clust ==>
                    CountKept(dir.fat.g, old(dir.fat.Now()), old(dir.fat.freeCnt), dir.fat.Now(), dir.fat.freeCnt))
              && ClustersFreed(dir.fat.g, old(dir.fat.Now()), dir.fat.Now(), dir.sclust, dir.cs, clust, ds)
              && dir.Es() == old(dir.Es())
    ensures AllSafe(dir.fat.g, dir.fat.size, old(dir.fat.hist), k) ==> AllSafe(dir.fat.g, dir.fat.size, dir.fat.hist, k)
  {
    hide Harmless, Freed, Dirents, Ordered, Later, IsChain, AllSafe, ChainSect, Here, Released, Apart, AddWrap,
      OnlyTables, CrashSafe, CountKept, ChainOn, OnMedium, IsHead, Detached, OneLinkEach;
    var fat := dir.fat;
    ghost var l0, v, f := fat.Past(), fat.Now(), fat.freeCnt;
    ApartHead(fat.g, v, dir.sclust, clust, ds);
    err := fat.RemoveChain(clust, k);
    HarmlessRelease(fat.g, v, fat.Now(), dir.sclust, dir.cs, clust, ds, f, fat.freeCnt, err);
    if AllSafe(fat.g, fat.size, l0.hist, k) {
      CrashSafeMeans(fat.g, fat.size, fat.Past(), fat.dev.sects, k, |l0.trace|);
    }
    if err != ERR_IO {
      ReleaseApart(fat.g, v, fat.Now(), dir.sclust, dir.cs, clust, ds, f, fat.freeCnt, err);
    }
  }

  /** The deleting half of fat_unlink: the clusters first, then the entries. */
  method Delete(dir: Dir, clust: nat, loc: Loc, ghost start: nat, ghost ds: seq<nat>, ghost k: nat) returns (err: int)
    requires dir.Ready() && LocOf(dir.fat.g, dir.cs, start, loc) && start <= dir.Pos() && k <= dir.fat.at
    requires Apart(dir.fat.g, dir.fat.Now(), dir.sclust, clust, ds)
    modifies dir`clust, dir`sect, dir`idx, dir`q, dir.fat`freeCnt, dir.fat`sect, dir.fat`buf, dir.fat`bufDirty,
      dir.fat`infoDirty, dir.fat`at, dir.fat`marks, dir.fat`hist, dir.fat`spoiled, dir.fat.dev
    ensures dir.fat.Steady()
    ensures err == ERR_IO ==> dir.fat.Refused()
    ensures Harmless(dir.fat.g, old(dir.fat.Now()), dir.fat.Now(), {dir.sclust, clust}, {})
    ensures err == ERR_NONE || err == ERR_IO
    ensures err == ERR_NONE ==>
              Unlinked(dir.fat.g, old(dir.fat.Now()), dir.fat.Now(), dir.sclust, dir.cs, start, old(dir.Pos()), ds)
    ensures err == ERR_NONE ==>
              && !dir.fat.spoiled && !dir.fat.bufDirty && dir.fat.dev.sects == dir.fat.Now()
              && dir.fat.freeCnt == AddWrap(old(dir.fat.freeCnt), |ds|)
              && (2 <= clust ==>
                    CountKept(dir.fat.g, old(dir.fat.Now()), old(dir.fat.freeCnt), dir.fat.Now(), dir.fat.freeCnt))
    ensures AllSafe(dir.fat.g, dir.fat.size, old(dir.fat.hist), k) ==> AllSafe(dir.fat.g, dir.fat.size, dir.fat.hist, k)
  {
    hide Harmless, Dirents, Ordered, Later, IsChain, AllSafe, SameSystem, SameOutside, ChainSect, Here, LocOf,
      Unlinked, Apart, AddWrap, OnlyTables, ChainOn, OnMedium, ClustersFreed, Counted;
    var fat := dir.fat;
    ghost var l0, v, p := fat.Past(), fat.Now(), dir.Pos();
    err := FreeClusters(dir, clust, ds, k);
    if err != ERR_NONE {
      return;
    }
    ghost var w, l := fat.Now(), fat.Past();
    LaterMeans(l0, l);
    err := RemoveEntries(dir, loc, start, k);
    LaterTrans(l0, l, fat.Past());
    HarmlessInside(fat.g, w, fat.Now(), dir.sclust, dir.cs, {dir.sclust, clust}, {});
    HarmlessTrans(fat.g, v, w, fat.Now(), {dir.sclust, clust}, {});
    if err != ERR_NONE {
      return;
    }
    UnlinkedBy(fat.g, v, w, fat.Now(), dir.sclust, dir.cs, clust, ds, start, p);
    CountSame(fat.g, w, fat.Now(), fat.freeCnt);
    l := fat.Past();
    err := fat.SyncFs();
    LaterTrans(l0, l, fat.Past());
  }

  /** w is v after the entry at pos, whose record starts at start, has been deleted: exactly its clusters are free,
      exactly its record is marked, nothing else in the data area and no other chain has changed. */
  ghost predicate Unlinked(g: Geo, v: Volume, w: Volume, sclust: nat, cs: seq<nat>, start: nat, pos: nat,
                           ds: seq<nat>) {
    && |v| == |w| && OnMedium(g, v, cs) && OnMedium(g, w, cs) && |ds| > 0
    && ChainOn(g, w, sclust, cs)
    && Removed(Dirents(g, v, cs), Dirents(g, w, cs), start, pos)
    && Tab(g, w) == ZeroAll(Tab(g, v), ds)
    && AllocOk(Tab(g, w)) && OtherChainsKept(Tab(g, v), Tab(g, w), ds[0])
    && SameOutside(g, v, w, cs)
    && (Mirrored(g, v) ==> Mirrored(g, w))
  }

  /** If the well-formed directory cs lists name, its entry points to the chain ds, apart from the directory's own. */
  ghost predicate TargetApart(g: Geo, v: Volume, sclust: nat, cs: seq<nat>, name: seq<byte>, ds: seq<nat>) {
    && OnMedium(g, v, cs) && WellFormed(Dirents(g, v, cs), 0)
    && var r := Lookup(Dirents(g, v, cs), 0, name);
       r.Record? ==>
         && r.at < EntryCnt(g, cs)
         && var e := Dirents(g, v, cs)[r.at];
           Apart(g, v, sclust, EntryClust(e), ds) && (HasAttr(e, ATTR_DIR) ==> EntryClust(e) >= 2)
  }

  ghost predicate Listed(g: Geo, v: Volume, cs: seq<nat>, name: seq<byte>) {
    && OnMedium(g, v, cs) && WellFormed(Dirents(g, v, cs), 0) && Lookup(Dirents(g, v, cs), 0, name).Record?
  }

  /** w is v after the record found for name has been deleted, seen by every search of the directory. */
  ghost predicate NameUnlinked(g: Geo, v: Volume, w: Volume, sclust: nat, cs: seq<nat>, name: seq<byte>, ds: seq<nat>) {
    && Listed(g, v, cs, name) && OnMedium(g, w, cs)
    && var es, es', r := Dirents(g, v, cs), Dirents(g, w, cs), Lookup(Dirents(g, v, cs), 0, name);
       && WellFormed(es, r.at + 1) && AllFoundAfterRemove(es, es', r)
       && Unlinked(g, v, w, sclust, cs, r.loc, r.at, ds)
  }

  /** The answer to a deletion of a name. */
  ghost predicate NameCode(g: Geo, v: Volume, cs: seq<nat>, name: seq<byte>, ds: seq<nat>, err: int) {
    if Listed(g, v, cs, name) then
      var p := Lookup(Dirents(g, v, cs), 0, name).at;
      p < |Dirents(g, v, cs)| && UnlinkCode(g, v, cs, p, Dirents(g, v, cs)[p], ds, err)
    else err == ERR_EOF
  }

  /** Where the chain starts that the clusters ds make up. */
  function FirstOf(ds: seq<nat>): nat { if ds == [] then 0 else ds[0] }

  /** fat_unlink of the last component of a path: the name is gone, every other name is found or not as before. */
  method UnlinkName(dir: Dir, name: seq<byte>, ghost ds: seq<nat>, ghost k: nat) returns (err: int)
    requires dir.Attached() && dir.fat.Trusted(SectOf(dir.fat.g, dir.sclust)) && k <= dir.fat.at
    requires TargetApart(dir.fat.g, dir.fat.Now(), dir.sclust, dir.cs, name, ds)
    modifies dir`clust, dir`sect, dir`idx, dir`q, dir`gbuf, dir`glen, dir`gcrc, dir.fat`freeCnt, dir.fat`sect,
      dir.fat`buf, dir.fat`bufDirty, dir.fat`infoDirty, dir.fat`at, dir.fat`marks, dir.fat`hist, dir.fat`spoiled,
      dir.fat.dev
    ensures |dir.gbuf| == SCRATCH
    ensures dir.fat.Steady()
    ensures err == ERR_IO ==> dir.fat.Refused()
    ensures Harmless(dir.fat.g, old(dir.fat.Now()), dir.fat.Now(), {dir.sclust, FirstOf(ds)}, {})
    ensures err == ERR_NONE || err == ERR_DENIED || err == ERR_EOF || err == ERR_IO
    ensures err != ERR_IO ==> dir.Attached() && !dir.fat.spoiled
    ensures err == ERR_NONE ==> !dir.fat.bufDirty && dir.fat.dev.sects == dir.fat.Now()
    ensures err == ERR_DENIED || err == ERR_EOF ==>
              dir.fat.Now() == old(dir.fat.Now()) && dir.fat.freeCnt == old(dir.fat.freeCnt)
    ensures err == ERR_NONE && |ds| > 0 && ds[0] >= 2 ==>
              CountKept(dir.fat.g, old(dir.fat.Now()), old(dir.fat.freeCnt), dir.fat.Now(), dir.fat.freeCnt)
    ensures err == ERR_NONE ==> NameUnlinked(dir.fat.g, old(dir.fat.Now()), dir.fat.Now(), dir.sclust, dir.cs, name, ds)
    ensures !Listed(dir.fat.g, old(dir.fat.Now()), dir.cs, name) ==>
              (err == ERR_EOF || err == ERR_IO) && dir.fat.Now() == old(dir.fat.Now())
    ensures err != ERR_IO ==> NameCode(dir.fat.g, old(dir.fat.Now()), dir.cs, name, ds, err)
    ensures AllSafe(dir.fat.g, dir.fat.size, old(dir.fat.hist), k) ==> AllSafe(dir.fat.g, dir.fat.size, dir.fat.hist, k)
  {
    hide Harmless, TargetApart, Dirents, Ordered, Later, IsChain, AllSafe, ChainSect, Here, LocOf, Unlinked, Apart,
      Lookup, Search, WellFormed, AllFoundAfterRemove, ChainOn, OnMedium, EntryClust, CountKept, UnlinkCode;
    var fat := dir.fat;
    ghost var l0, es, v := fat.Past(), dir.Es(), fat.Now();
    TargetMeans(fat.g, v, dir.sclust, dir.cs, name, ds);
    SearchIsLookup(es, 0, name, dir.gbuf);
    HarmlessNone(fat.g, v, dir.sclust, dir.cs, FirstOf(ds));
    var loc, e;
    ghost var start;
    err, loc, e, start := dir.SearchName(name);
    if err != ERR_NONE {
      return;
    }
    LookupFrom(es, 0, name);
    ghost var l := fat.Past();
    LaterMeans(l0, l);
    err := Unlink(dir, loc, e, start, ds, k);
    LaterTrans(l0, l, fat.Past());
    if err == ERR_NONE {
      UnlinkedNames(fat.g, v, fat.Now(), dir.sclust, dir.cs, name, ds);
    }
  }

  lemma TargetMeans(g: Geo, v: Volume, sclust: nat, cs: seq<nat>, name: seq<byte>, ds: seq<nat>)
    requires TargetApart(g, v, sclust, cs, name, ds)
    ensures OnMedium(g, v, cs) && WellFormed(Dirents(g, v, cs), 0)
    ensures var es, r := Dirents(g, v, cs), Lookup(Dirents(g, v, cs), 0, name);
      r.Record? ==>
        && r.at < |es| && Apart(g, v, sclust, EntryClust(es[r.at]), ds) && FirstOf(ds) == EntryClust(es[r.at])
        && (HasAttr(es[r.at], ATTR_DIR) ==> EntryClust(es[r.at]) >= 2)
  {
    hide Dirents, Lookup, WellFormed, EntryClust, AllocOk, IsHead;
  }

  lemma UnlinkedNames(g: Geo, v: Volume, w: Volume, sclust: nat, cs: seq<nat>, name: seq<byte>, ds: seq<nat>)
    requires Listed(g, v, cs, name)
    requires var r := Lookup(Dirents(g, v, cs), 0, name); Unlinked(g, v, w, sclust, cs, r.loc, r.at, ds)
    ensures NameUnlinked(g, v, w, sclust, cs, name, ds) && ChainOn(g, w, sclust, cs) && OnMedium(g, w, cs)
  {
    hide Dirents, Lookup, WellFormed, Tab, Removed;
    RemovedLookups(Dirents(g, v, cs), Dirents(g, w, cs), name);
  }

  lemma ApartHead(g: Geo, v: Volume, sclust: nat, c: nat, ds: seq<nat>)
    requires GeoOk(g, |v|) && Apart(g, v, sclust, c, ds)
    ensures c < g.clustCnt && OneLinkEach(Tab(g, v)) && Detached(Tab(g, v), c)
  {
  }

  lemma ApartStart(g: Geo, v: Volume, sclust: nat, c: nat, ds: seq<nat>)
    requires DataOk(g, |v|) && Apart(g, v, sclust, c, ds)
    ensures |ds| > 0 && ds[0] == c
  {
  }

  lemma ApartDir(g: Geo, v: Volume, sclust: nat, c: nat, ds: seq<nat>)
    requires DataOk(g, |v|) && Apart(g, v, sclust, c, ds) && 2 <= c
    ensures 2 <= c < g.clustCnt && ChainOn(g, v, EnterClust(g, c), ds)
  {
  }

  /** Entries do not matter to the count. */
  lemma CountSame(g: Geo, v: Volume, w: Volume, f: u32)
    requires GeoOk(g, |v|) && SameSystem(g, v, w)
    ensures CountKept(g, v, f, w, f)
  {
    hide FreeCount;
    DataKeepsTables(g, v, w);
  }

  lemma UnlinkedBy(g: Geo, v: Volume, w: Volume, x: Volume, sclust: nat, cs: seq<nat>, c: nat, ds: seq<nat>,
                   start: nat, pos: nat)
    requires GeoOk(g, |v|) && ClustersFreed(g, v, w, sclust, cs, c, ds) && Apart(g, v, sclust, c, ds)
    requires ChainOn(g, x, sclust, cs) && OnMedium(g, x, cs) && SameSystem(g, w, x) && SameOutside(g, w, x, cs)
    requires OnMedium(g, w, cs) && Removed(Dirents(g, w, cs), Dirents(g, x, cs), start, pos)
    ensures Unlinked(g, v, x, sclust, cs, start, pos, ds)
  {
    hide Dirents, Tab, AllocOk, OtherChainsKept, ZeroAll, Removed, ClustOf;
    DataKeepsTables(g, w, x);
  }

  /** Deleting a file or directory: every other one that is not the directory its name was in keeps its chain and
      its bytes. */
  lemma UnlinkKeepsOthers(g: Geo, v: Volume, w: Volume, sclust: nat, cs: seq<nat>, start: nat, pos: nat, ds: seq<nat>,
                          d: nat, xs: seq<nat>)
    requires Unlinked(g, v, w, sclust, cs, start, pos, ds) && d != ds[0]
    requires TwoHeads(Tab(g, v), sclust, cs, d, xs)
    ensures AllocOk(Tab(g, w)) && IsHead(Tab(g, w), sclust) && Undisturbed(g, v, w, d, xs)
  {
    hide Tab, AllocOk, Dirents, Removed, SameOutside, Mirrored, Allocated, Disjoint;
    HeadsDisjoint(Tab(g, v), sclust, cs, d, xs);
    HeadClusters(g, v, d, xs);
    OutsideKeepsBytes(g, v, w, cs, xs);
  }
}
