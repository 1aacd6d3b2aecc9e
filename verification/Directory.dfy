/** Walking, searching and changing a directory on a mounted volume. */
module Directory {
  import opened Arith
  import opened Bytes
  import opened Chain
  import opened Layout
  import opened FatVolume
  import opened LongName
  import opened Records
  import opened DirLayout
  import opened DirGrow
  import opened Bystanders

  /** A directory handle. cs are the clusters of the directory, q counts its sectors before the current one. */
  class Dir {
    const fat: Fat
    var sclust: nat
    var clust: nat
    var sect: nat
    var idx: nat
    var gbuf: seq<byte>  // g_buf, g_len and g_crc: the file-scope scratch of the name parser
    var glen: nat
    var gcrc: byte
    ghost var cs: seq<nat>
    ghost var q: nat

    /** The handle is at sector q of the directory, or, with q past the last one, at its end. */
    ghost predicate Valid()
      reads this, fat, fat.dev
    {
      Attached() && Here(fat.g, cs, q, clust, sect, idx)
    }

    /** cs are the clusters of the directory; nothing is said about the position. */
    ghost predicate Attached()
      reads this, fat, fat.dev
    {
      && fat.Valid() && |gbuf| == SCRATCH
      && ChainOn(fat.g, fat.Now(), sclust, cs) && OnMedium(fat.g, fat.Now(), cs)
    }

    ghost function Pos(): nat
      reads this
    {
      PER_SECTOR * q + idx / ENTRY_SIZE
    }

    ghost function Es(): seq<Entry>
      requires Attached()
      reads this, fat, fat.dev
    {
      Dirents(fat.g, fat.Now(), cs)
    }

    /** At an entry, and nothing has failed since the volume was last read. */
    ghost predicate Ready()
      reads this, fat, fat.dev
    {
      Valid() && !fat.spoiled && q < SectCnt(fat.g, cs)
    }

    /** At an entry whose sector the volume's buffer does not hold spoiled. */
    ghost predicate Able()
      reads this, fat, fat.dev
    {
      Valid() && fat.Trusted(sect) && q < SectCnt(fat.g, cs)
    }

    /** The next entry is in another cluster, or there is none. */
    ghost predicate Crosses()
      reads this
    {
      fat.g.spc > 0 && idx + ENTRY_SIZE >= SECTOR_SIZE && AtBoundary(fat.g, sect)
    }

    /** dir_enter: entries that point to the root directory carry cluster 0. */
    constructor Enter(fat: Fat, clust: nat, ghost cs: seq<nat>)
      requires fat.Valid() && ChainOn(fat.g, fat.Now(), EnterClust(fat.g, clust), cs)
      ensures Valid() && Pos() == 0 && q < SectCnt(fat.g, cs)
      ensures this.fat == fat && this.cs == cs && sclust == EnterClust(fat.g, clust)
    {
      ChainOnMedium(fat.g, fat.Now(), EnterClust(fat.g, clust), cs);
      FirstSect(fat.g, cs, 0);
      this.fat := fat;
      sclust := if clust == 0 then fat.g.rootClust else clust;
      this.clust := EnterClust(fat.g, clust);
      sect := SectOf(fat.g, EnterClust(fat.g, clust));
      idx := 0;
      gbuf, glen, gcrc := seq(SCRATCH, _ => 0), 0, 0;
      this.cs, q := cs, 0;
    }

    /** Positions at the first entry of the directory. */
    method Rewind()
      requires Attached()
      modifies this`clust, this`sect, this`idx, this`q
      ensures Valid() && Pos() == 0 && q < SectCnt(fat.g, cs) && sect == SectOf(fat.g, sclust)
    {
      hide ChainOn, Here, SectCnt, SectOf, ClustersOk, Ordered;
      HereFirst(fat.g, fat.Now(), sclust, cs);
      clust := sclust;
      sect := SectOf(fat.g, sclust);
      idx, q := 0, 0;
    }

    /** The next entry; EOF behind the last entry of the last cluster. */
    method Next() returns (err: int)
      requires Valid() && q < SectCnt(fat.g, cs) && (Crosses() ==> fat.Trusted(fat.FatSect(clust)))
      modifies this`clust, this`sect, this`idx, this`q, fat`sect, fat`buf, fat`bufDirty, fat`at, fat`marks,
        fat`spoiled, fat.dev
      ensures fat.Steady() && fat.Now() == old(fat.Now()) && fat.hist == old(fat.hist)
      ensures err == ERR_IO ==> fat.Refused()
      ensures err == ERR_NONE || err == ERR_EOF || err == ERR_IO
      ensures err == ERR_NONE ==> Valid() && q < SectCnt(fat.g, cs) && Pos() == old(Pos()) + 1
      ensures if old(Crosses()) then err == ERR_NONE ==> Ready()
              else err == ERR_NONE && unchanged(fat) && unchanged(fat.dev)
      ensures err == ERR_EOF ==>
                && Valid() && !fat.spoiled && q == SectCnt(fat.g, cs)
                && Pos() == old(Pos()) + 1 == EntryCnt(fat.g, cs)
    {
      hide Dirents, Ordered, Later, IsChain, ChainSect, SectOf, DataOk, Here, ClustersOk, SectCnt, AtBoundary;
      LaterRefl(fat.Past());
      AtBoundaryIs(fat.g, sect);
      ghost var i := HereNext(fat.g, fat.size, cs, q, clust, sect, idx);
      if idx + ENTRY_SIZE < SECTOR_SIZE {
        idx := idx + ENTRY_SIZE;
        return ERR_NONE;
      }
      if (sect + 1) % fat.g.spc != 0 {
        idx, sect, q := 0, sect + 1, q + 1;
        return ERR_NONE;
      }
      err := NextClust(i);
    }

    /** The step of dir_next into the next cluster of the chain, the one behind cs[i]. */
    method NextClust(ghost i: nat) returns (err: int)
      requires Attached() && fat.Trusted(fat.FatSect(clust)) && i < |cs| && clust == cs[i]
      requires idx == SECTOR_SIZE - ENTRY_SIZE && q < SectCnt(fat.g, cs)
      requires i < |cs| - 1 ==>
                 q + 1 < SectCnt(fat.g, cs) && Here(fat.g, cs, q + 1, cs[i + 1], SectOf(fat.g, cs[i + 1]), 0)
      requires i == |cs| - 1 ==> q + 1 == SectCnt(fat.g, cs) && Here(fat.g, cs, q + 1, clust, sect + 1, 0)
      modifies this`clust, this`sect, this`idx, this`q, fat`sect, fat`buf, fat`bufDirty, fat`at, fat`marks,
        fat`spoiled, fat.dev
      ensures fat.Steady() && fat.Now() == old(fat.Now()) && fat.hist == old(fat.hist)
      ensures err == ERR_IO ==> fat.Refused()
      ensures err == ERR_NONE || err == ERR_EOF || err == ERR_IO
      ensures err == ERR_NONE ==> Ready() && Pos() == old(Pos()) + 1
      ensures err == ERR_EOF ==>
                && Valid() && !fat.spoiled && q == SectCnt(fat.g, cs)
                && Pos() == old(Pos()) + 1 == EntryCnt(fat.g, cs)
    {
      hide Dirents, Ordered, Later, IsChain, ChainSect, SectOf, DataOk, Here, ClustersOk, SectCnt, Tab;
      ChainLink(Tab(fat.g, fat.Now()), sclust, cs, i);
      idx := 0;
      sect := sect + 1;
      var next, flags;
      err, next, flags := fat.GetFat(clust);
      if err != ERR_NONE {
        return;
      }
      if BadOrFree(flags) {
        return ERR_BROKEN;
      }
      if IsLast(flags) {
        q := q + 1;
        return ERR_EOF;
      }
      clust := next;
      sect := SectOf(fat.g, next);
      q := q + 1;
    }

    /** The buffer holds the handle's sector, and e is the entry the handle is at. */
    ghost predicate At(e: Entry)
      reads this, fat, fat.dev
    {
      && Ready() && Pos() < |Es()| && e == Es()[Pos()]
      && fat.sect == sect && fat.g.dataSect <= sect < fat.size && idx / ENTRY_SIZE < PER_SECTOR
      && fat.buf == fat.Now()[sect] && e == EntryOf(fat.buf, idx / ENTRY_SIZE)
    }

    /** update_buf and dir_ptr: the entry the handle is at. */
    method Load() returns (err: int, e: Entry)
      requires Able()
      modifies fat`sect, fat`buf, fat`bufDirty, fat`at, fat`marks, fat`spoiled, fat.dev
      ensures fat.Steady() && fat.Now() == old(fat.Now()) && fat.hist == old(fat.hist)
      ensures err == ERR_IO ==> fat.Refused()
      ensures err == ERR_NONE || err == ERR_IO
      ensures err == ERR_NONE ==> At(e) && Es() == old(Es())
    {
      hide Dirents, Ordered, Later, IsChain, ChainSect, SectCnt, EntryOf;
      DirentIs(fat.g, fat.Now(), cs, q, idx / ENTRY_SIZE);
      e := ZeroEntry();
      err := fat.UpdateBuf(sect);
      if err == ERR_NONE {
        e := EntryOf(fat.buf, idx / ENTRY_SIZE);
      }
    }

    /** dir_next followed by update_buf and dir_ptr. */
    method NextEntry() returns (err: int, e: Entry)
      requires Ready()
      modifies this`clust, this`sect, this`idx, this`q, fat`sect, fat`buf, fat`bufDirty, fat`at, fat`marks,
        fat`spoiled, fat.dev
      ensures fat.Steady() && fat.Now() == old(fat.Now()) && fat.hist == old(fat.hist)
      ensures err == ERR_IO ==> fat.Refused()
      ensures err == ERR_NONE || err == ERR_EOF || err == ERR_IO
      ensures err == ERR_NONE ==> At(e) && Es() == old(Es()) && Pos() == old(Pos()) + 1
      ensures err == ERR_EOF ==> old(Pos()) + 1 == |old(Es())| && !fat.spoiled
    {
      hide Dirents, Ordered, Later, IsChain, ChainSect, EntryOf, ChainOn, DataOk, Here, ClustersOk;
      ghost var l0 := fat.Past();
      e := ZeroEntry();
      err := Next();
      if err == ERR_NONE {
        ghost var l := fat.Past();
        err, e := Load();
        LaterTrans(l0, l, fat.Past());
      }
    }

    /** The inner loop of parse_lfn_name: the characters of one fragment go to at and up in the scratch buffer. */
    method ReadFrag(e: Entry, at: nat) returns (ok: bool)
      requires |gbuf| == SCRATCH && at + FRAG_LEN <= SCRATCH
      modifies this`gbuf, this`glen
      ensures |gbuf| == SCRATCH
      ensures ok <==> FragFrom(e, 0).Chars?
      ensures ok ==> gbuf == Splice(old(gbuf), at, FragFrom(e, 0).s) && glen == old(glen) + |FragFrom(e, 0).s|
    {
      hide FragFrom, Prepend, Splice;
      ghost var done: seq<byte> := [];
      var i := 0;
      SpliceNone(gbuf, at);
      PrependNone(FragFrom(e, 0));
      while i < FRAG_LEN
        invariant 0 <= i <= FRAG_LEN && |done| == i && |gbuf| == SCRATCH
        invariant FragFrom(e, 0) == Prepend(done, FragFrom(e, i))
        invariant gbuf == Splice(old(gbuf), at, done) && glen == old(glen) + i
      {
        FragStep(e, i);
        PrependKind(done, FragFrom(e, i));
        var c := e[LFN_INDICES[i]];
        if c == 0xff {
          return false;
        }
        if c == 0 {
          break;
        }
        gbuf := gbuf[at + i := c];
        glen := glen + 1;
        PrependStep(done, c, FragFrom(e, i + 1));
        SpliceStep(old(gbuf), at, done, c);
        done := done + [c];
        i := i + 1;
      }
      FragStep(e, i);
      PrependKind(done, FragFrom(e, i));
      ok := true;
    }

    /** The outer loop of parse_lfn_name, with cnt fragments to go and e the first of them. */
    method CollectFrags(first: Entry, n: nat) returns (err: int, e: Entry)
      requires At(first) && n <= MAX_FRAGS
      modifies this`clust, this`sect, this`idx, this`q, this`gbuf, this`glen, fat`sect, fat`buf, fat`bufDirty, fat`at,
        fat`marks, fat`spoiled, fat.dev
      ensures |gbuf| == SCRATCH && (err != ERR_IO ==> !fat.spoiled)
      ensures fat.Steady() && fat.Now() == old(fat.Now()) && fat.hist == old(fat.hist)
      ensures err == ERR_IO ==> fat.Refused()
      ensures err == ERR_NONE || err == ERR_EOF || err == ERR_BROKEN || err == ERR_IO
      ensures err == ERR_EOF ==> ParseFrags(old(Es()), old(Pos()), n, gcrc, old(glen), old(gbuf)) == ParseEof
      ensures err == ERR_BROKEN ==> ParseFrags(old(Es()), old(Pos()), n, gcrc, old(glen), old(gbuf)) == ParseBroken
      ensures err == ERR_NONE ==>
                && At(e) && Es() == old(Es())
                && ParseFrags(old(Es()), old(Pos()), n, gcrc, old(glen), old(gbuf)) == Parsed(Pos(), glen, gbuf)
    {
      hide Dirents, Ordered, Later, IsChain, ChainSect, EntryOf, ChainOn, DataOk, Here, ClustersOk, ParseFrags,
        FragFrom, Splice, OnMedium;
      ghost var l0, es := fat.Past(), Es();
      LaterRefl(l0);
      e := first;
      var cnt := n;
      ghost var whole := ParseFrags(es, Pos(), cnt, gcrc, glen, gbuf);
      while cnt > 0
        invariant old(fat.dev.refused) <= fat.dev.refused
        invariant At(e) && Later(l0, fat.Past()) && fat.Now() == old(fat.Now()) && fat.hist == old(fat.hist)
        invariant 0 <= cnt <= MAX_FRAGS && Es() == es && cs == old(cs)
        invariant whole == ParseFrags(es, Pos(), cnt, gcrc, glen, gbuf)
      {
        ParseStep(es, Pos(), cnt, gcrc, glen, gbuf);
        cnt := cnt - 1;
        if !IsLfn(e) || Crc(e) != gcrc {
          return ERR_BROKEN, e;
        }
        var ok := ReadFrag(e, 13 * cnt);
        if !ok {
          return ERR_BROKEN, e;
        }
        ghost var l := fat.Past();
        err, e := NextEntry();
        LaterTrans(l0, l, fat.Past());
        if err != ERR_NONE {
          return;
        }
      }
      ParseEnd(es, Pos(), gcrc, glen, gbuf);
      err := ERR_NONE;
    }

    /** parse_lfn_name: collects a long name into the scratch buffer and stops at the entry behind its fragments. */
    method ParseLfnName(ghost first: Entry) returns (err: int, e: Entry)
      requires At(first)
      modifies this`clust, this`sect, this`idx, this`q, this`gbuf, this`glen, this`gcrc, fat`sect, fat`buf,
        fat`bufDirty, fat`at, fat`marks, fat`spoiled, fat.dev
      ensures |gbuf| == SCRATCH && (err != ERR_IO ==> !fat.spoiled)
      ensures fat.Steady() && fat.Now() == old(fat.Now()) && fat.hist == old(fat.hist)
      ensures err == ERR_IO ==> fat.Refused()
      ensures err == ERR_NONE || err == ERR_EOF || err == ERR_BROKEN || err == ERR_IO
      ensures err == ERR_EOF ==> ParseLfn(old(Es()), old(Pos()), old(gbuf)) == ParseEof
      ensures err == ERR_BROKEN ==> ParseLfn(old(Es()), old(Pos()), old(gbuf)) == ParseBroken
      ensures err == ERR_NONE ==>
                && At(e) && Es() == old(Es()) && gcrc == Crc(first)
                && ParseLfn(old(Es()), old(Pos()), old(gbuf)) == Parsed(Pos(), glen, gbuf)
    {
      hide Dirents, Ordered, Later, IsChain, ChainSect, EntryOf, ChainOn, DataOk, Here, ClustersOk, ParseFrags;
      ghost var l0 := fat.Past();
      err, e := Load();
      if err != ERR_NONE {
        return;
      }
      gcrc := Crc(e);
      glen := 0;
      if !HasHeadBit(e) {
        return ERR_BROKEN, e;
      }
      var cnt := FragsIn(e);
      if cnt > MAX_FRAGS {
        return ERR_BROKEN, e;
      }
      ghost var l := fat.Past();
      err, e := CollectFrags(e, cnt);
      LaterTrans(l0, l, fat.Past());
      if err == ERR_NONE && glen > MAX_NAME {
        err := ERR_BROKEN;
      }
    }

    /** The record in use at the handle: is it the one? On return the handle is at its short entry. */
    method MatchRecord(first: Entry, name: seq<byte>, sfn: seq<byte>) returns (err: int, e: Entry, found: bool)
      requires At(first) && !IsFree(first) && sfn == SfnOf(name)
      modifies this`clust, this`sect, this`idx, this`q, this`gbuf, this`glen, this`gcrc, fat`sect, fat`buf,
        fat`bufDirty, fat`at, fat`marks, fat`spoiled, fat.dev
      ensures |gbuf| == SCRATCH && (err != ERR_IO ==> !fat.spoiled)
      ensures fat.Steady() && fat.Now() == old(fat.Now()) && fat.hist == old(fat.hist)
      ensures err == ERR_IO ==> fat.Refused()
      ensures err == ERR_NONE || err == ERR_EOF || err == ERR_BROKEN || err == ERR_IO
      ensures err == ERR_EOF ==> Search(old(Es()), old(Pos()), name, old(gbuf)) == Eof
      ensures err == ERR_BROKEN ==> Search(old(Es()), old(Pos()), name, old(gbuf)) == Malformed
      ensures err == ERR_NONE ==>
                && At(e) && Es() == old(Es()) && Pos() >= old(Pos())
                && Search(old(Es()), old(Pos()), name, old(gbuf)) ==
                     if found then Hit(Pos(), old(Pos())) else Search(Es(), Pos() + 1, name, gbuf)
    {
      hide Dirents, Ordered, Later, IsChain, ChainSect, EntryOf, ChainOn, DataOk, ClustersOk, Here, ParseLfn, Search,
        SfnOf, CrcOf;
      SearchStep(Es(), Pos(), name, gbuf);
      LaterRefl(fat.Past());
      err, e, found := ERR_NONE, first, false;
      if IsLfn(e) {
        err, e := ParseLfnName(e);
        if err != ERR_NONE {
          return;
        }
        var crc := GetCrc(e);
        if IsFree(e) || IsLfn(e) || gcrc != crc {
          return ERR_BROKEN, e, false;
        }
        found := glen == |name| && gbuf[..glen] == name;
      } else {
        found := e[..11] == sfn;
      }
    }

    /** One turn of the search: the entry at the handle ends it, matches, or is passed over. */
    method SearchTurn(first: Entry, name: seq<byte>, sfn: seq<byte>) returns (err: int, e: Entry, found: bool)
      requires At(first) && sfn == SfnOf(name)
      modifies this`clust, this`sect, this`idx, this`q, this`gbuf, this`glen, this`gcrc, fat`sect, fat`buf,
        fat`bufDirty, fat`at, fat`marks, fat`spoiled, fat.dev
      ensures |gbuf| == SCRATCH && (err != ERR_IO ==> !fat.spoiled)
      ensures fat.Steady() && fat.Now() == old(fat.Now()) && fat.hist == old(fat.hist)
      ensures err == ERR_IO ==> fat.Refused()
      ensures err == ERR_NONE || err == ERR_EOF || err == ERR_BROKEN || err == ERR_IO
      ensures err == ERR_EOF ==> Search(old(Es()), old(Pos()), name, old(gbuf)) == Eof
      ensures err == ERR_BROKEN ==> Search(old(Es()), old(Pos()), name, old(gbuf)) == Malformed
      ensures err == ERR_NONE ==>
                && At(e) && Es() == old(Es()) && (!found ==> old(Pos()) < Pos())
                && Search(old(Es()), old(Pos()), name, old(gbuf)) ==
                     if found then Hit(Pos(), old(Pos())) else Search(Es(), Pos(), name, gbuf)
    {
      hide Dirents, Ordered, Later, IsChain, ChainSect, EntryOf, ChainOn, DataOk, ClustersOk, Here, Search, SfnOf;
      ghost var l0, es := fat.Past(), Es();
      LaterRefl(l0);
      SearchSkip(es, Pos(), name, gbuf);
      e, found := first, false;
      if IsLastMark(e) {
        return ERR_EOF, e, false;
      }
      if !IsFree(e) {
        err, e, found := MatchRecord(e, name, sfn);
        if err != ERR_NONE || found {
          return;
        }
      }
      ghost var l := fat.Past();
      SearchEnd(es, name, gbuf);
      err, e := NextEntry();
      LaterTrans(l0, l, fat.Past());
    }

    /** dir_search: finds the entry that goes by name. loc is where its record starts; the handle is left at its
        short entry. */
    method SearchName(name: seq<byte>) returns (err: int, loc: Loc, e: Entry, ghost start: nat)
      requires Attached() && fat.Trusted(SectOf(fat.g, sclust))
      modifies this`clust, this`sect, this`idx, this`q, this`gbuf, this`glen, this`gcrc, fat`sect, fat`buf,
        fat`bufDirty, fat`at, fat`marks, fat`spoiled, fat.dev
      ensures fat.Steady() && fat.Now() == old(fat.Now()) && fat.hist == old(fat.hist)
      ensures err == ERR_IO ==> fat.Refused()
      ensures err == ERR_NONE || err == ERR_EOF || err == ERR_BROKEN || err == ERR_IO
      ensures Attached() && (err != ERR_IO ==> !fat.spoiled)
      ensures err == ERR_EOF ==> Search(old(Es()), 0, name, old(gbuf)) == Eof
      ensures err == ERR_BROKEN ==> Search(old(Es()), 0, name, old(gbuf)) == Malformed
      ensures err == ERR_NONE ==>
                && At(e) && Es() == old(Es()) && start < |Es()|
                && Search(old(Es()), 0, name, old(gbuf)) == Hit(Pos(), start) && LocOf(fat.g, cs, start, loc)
    {
      hide Dirents, Ordered, Later, IsChain, ChainSect, EntryOf, ChainOn, DataOk, ClustersOk, LocOf, Search, SfnOf,
        Here;
      ghost var l0, es := fat.Past(), Es();
      loc, start := Loc(0, 0), 0;
      var sfn := PutSfnName(name);
      Rewind();
      err, e := Load();
      if err != ERR_NONE {
        return;
      }
      var found := false;
      ghost var whole := Search(es, 0, name, gbuf);
      while !found
        invariant old(fat.dev.refused) <= fat.dev.refused
        invariant At(e) && Later(l0, fat.Past()) && fat.Now() == old(fat.Now()) && fat.hist == old(fat.hist)
        invariant Es() == es && cs == old(cs)
        invariant found ==> whole == Hit(Pos(), start) && start < |es| && LocOf(fat.g, cs, start, loc)
        invariant !found ==> whole == Search(es, Pos(), name, gbuf)
        decreases !found, |es| - Pos()
      {
        ghost var l := fat.Past();
        loc, start := Loc(sect, idx), Pos();
        LocHere(fat.g, cs, q, clust, sect, idx);
        err, e, found := SearchTurn(e, name, sfn);
        LaterTrans(l0, l, fat.Past());
        if err != ERR_NONE {
          return;
        }
      }
      err := ERR_NONE;
    }

    // -------------------------------------------------------------- adding a name

    /** The allocator can be asked for a cluster. */
    ghost predicate CanGrow()
      reads fat
    {
      2 <= fat.lastUsed < fat.g.clustCnt
    }

    /** dir_next_stretch: the next entry; behind the last cluster a cleared one is appended. v0, cs0 and es0 are
        the volume, the clusters and the entries as they were when the growing began. */
    method NextStretch(ghost k: nat, ghost v0: Volume, ghost cs0: seq<nat>, ghost es0: seq<Entry>) returns (err: int)
      requires Ready() && CanGrow() && k <= fat.at
      requires Grown(fat.g, v0, fat.Now(), cs0, cs) && GoesOn(es0, Es())
      modifies this`clust, this`sect, this`idx, this`q, this`cs, fat, fat.dev
      ensures fat.Steady() && CanGrow()
      ensures AllocOk(Tab(fat.g, old(fat.Now()))) && err != ERR_NONE ==>
                || fat.Refused()
                || (err == ERR_FULL && FreeCount(Tab(fat.g, old(fat.Now()))) <= 1
                    && old(Pos()) + 1 == EntryCnt(fat.g, old(cs)))
      ensures err == ERR_NONE ==>
                || |cs| == |old(cs)|
                || (|cs| == |old(cs)| + 1 && old(Pos()) + 1 == EntryCnt(fat.g, old(cs)))
      ensures err == ERR_IO ==> fat.Refused()
      ensures err != ERR_DENIED && err != ERR_PATH
      ensures Harmless(fat.g, old(fat.Now()), fat.Now(), {sclust}, {})
      ensures err == ERR_NONE ==>
                && Ready() && Pos() == old(Pos()) + 1 && old(cs) <= cs
                && Grown(fat.g, v0, fat.Now(), cs0, cs) && GoesOn(es0, Es())
                && fat.freeCnt == AddWrap(old(fat.freeCnt), |old(cs)| - |cs|)
      ensures AllSafe(fat.g, fat.size, old(fat.hist), k) ==> AllSafe(fat.g, fat.size, fat.hist, k)
    {
      hide Harmless, Dirents, Ordered, Later, IsChain, ChainSect, ChainOn, DataOk, Here, ClustersOk, OnlyTables,
        Stretched, NoDangling, AllSafe, SameOutside, Mirrored, Tab, Grown, GoesOn;
      HarmlessStart(fat.g, fat.Now(), sclust, cs);
      err := Next();
      if err == ERR_EOF {
        ghost var l0, l := old(fat.Past()), fat.Past();
        LaterMeans(l0, l);
        err := Stretch(k, v0, cs0, es0);
        LaterTrans(l0, l, fat.Past());
      }
    }

    /** A cluster from the allocator, cleared. What it makes of the directory is the matter of StretchDir. */
    method NewCluster(ghost k: nat) returns (err: int, next: nat, ghost w: Volume)
      requires Attached() && !fat.spoiled && CanGrow() && k <= fat.at && clust == cs[|cs| - 1]
      modifies fat, fat.dev
      ensures fat.Steady() && CanGrow()
      ensures AllocOk(Tab(fat.g, old(fat.Now()))) && err != ERR_NONE ==>
                fat.Refused() || (err == ERR_FULL && FreeCount(Tab(fat.g, old(fat.Now()))) <= 1)
      ensures err == ERR_IO ==> fat.Refused()
      ensures err != ERR_DENIED && err != ERR_PATH
      ensures Harmless(fat.g, old(fat.Now()), fat.Now(), {sclust}, {})
      ensures err == ERR_NONE ==>
                && !fat.spoiled && 2 <= next < fat.g.clustCnt && |w| == |fat.Now()|
                && Stretched(fat.g, old(fat.Now()), old(fat.lastUsed), cs[|cs| - 1], next, w)
                && fat.Now() == ZeroSects(w, SectOf(fat.g, next), fat.g.spc)
                && fat.freeCnt == AddWrap(old(fat.freeCnt), -1)
      ensures AllSafe(fat.g, fat.size, old(fat.hist), k) ==> AllSafe(fat.g, fat.size, fat.hist, k)
    {
      hide Harmless, Dirents, Ordered, Later, IsChain, ChainOn, OnlyTables, Stretched, AllSafe, Mirrored, Tab,
        ZeroSects, SectOf, ClustersOk, SectCnt;
      ghost var l0, v, last := fat.Past(), fat.Now(), fat.lastUsed;
      DirTail(fat.g, fat.Now(), sclust, cs);
      w := fat.Now();
      var lost;
      ghost var failed, stale;
      err, next, lost, failed, stale := fat.StretchChain(clust, k);
      TablesOnlySameData(fat.g, v, fat.Now());
      TakenFew(Tab(fat.g, v), last, clust);
      HarmlessTaking(fat.g, v, fat.Now(), sclust, cs);
      if err != ERR_NONE {
        return;
      }
      w := fat.Now();
      ghost var l := fat.Past();
      LaterMeans(l0, l);
      SectInRange(fat.g, fat.size, next, fat.g.spc - 1);
      err := fat.ClustClear(next, k);
      HarmlessClear(fat.g, v, w, fat.Now(), sclust, cs, last, next);
      HarmlessTrans(fat.g, v, w, fat.Now(), {sclust}, {});
      LaterTrans(l0, l, fat.Past());
    }

    /** The growing half of dir_next_stretch, at the end of the directory. */
    method Stretch(ghost k: nat, ghost v0: Volume, ghost cs0: seq<nat>, ghost es0: seq<Entry>) returns (err: int)
      requires Valid() && !fat.spoiled && q == SectCnt(fat.g, cs) && CanGrow() && k <= fat.at
      requires Grown(fat.g, v0, fat.Now(), cs0, cs) && GoesOn(es0, Es())
      modifies this`clust, this`sect, this`idx, this`q, this`cs, fat, fat.dev
      ensures fat.Steady() && CanGrow()
      ensures AllocOk(Tab(fat.g, old(fat.Now()))) && err != ERR_NONE ==>
                fat.Refused() || (err == ERR_FULL && FreeCount(Tab(fat.g, old(fat.Now()))) <= 1)
      ensures err == ERR_NONE ==> |cs| == |old(cs)| + 1
      ensures err == ERR_IO ==> fat.Refused()
      ensures err != ERR_DENIED && err != ERR_PATH
      ensures Harmless(fat.g, old(fat.Now()), fat.Now(), {sclust}, {})
      ensures err == ERR_NONE ==>
                && Ready() && Pos() == old(Pos()) && old(cs) <= cs
                && Grown(fat.g, v0, fat.Now(), cs0, cs) && GoesOn(es0, Es())
                && fat.freeCnt == AddWrap(old(fat.freeCnt), |old(cs)| - |cs|)
      ensures AllSafe(fat.g, fat.size, old(fat.hist), k) ==> AllSafe(fat.g, fat.size, fat.hist, k)
    {
      hide Harmless, Dirents, Ordered, Later, IsChain, ChainSect, ChainOn, OnlyTables, Stretched, NoDangling, AllSafe,
        SameOutside, Mirrored, Tab, Grown, GoesOn, EntryAt, Linked, ZeroSects, SectOf, ClustersOk, DataOk, Here,
        SectCnt;
      ghost var v, es, last := fat.Now(), Es(), fat.lastUsed;
      HereEnd(fat.g, cs, q, clust, sect, idx);
      var next;
      ghost var w;
      err, next, w := NewCluster(k);
      if err != ERR_NONE {
        return;
      }
      clust := next;
      sect := SectOf(fat.g, next);
      idx := 0;
      StretchDir(fat.g, v, w, fat.Now(), sclust, cs, last, next);
      GrownStretch(fat.g, v0, v, fat.Now(), cs0, cs, next);
      GoesOnTrans(es0, es, Dirents(fat.g, fat.Now(), cs + [next]));
      HereAtNew(fat.g, cs, next);
      cs := cs + [next];
    }

    /** One turn of the search for room: counts the entry at the handle or starts over, and steps on. */
    method RoomTurn(need: nat, loc0: Loc, eod0: bool, cnt0: nat, ghost start0: nat,
                    ghost k: nat, ghost v0: Volume, ghost cs0: seq<nat>, ghost es0: seq<Entry>)
      returns (err: int, loc: Loc, eod: bool, cnt: nat, ghost start: nat)
      requires Able() && CanGrow() && k <= fat.at && cnt0 < need
      requires Grown(fat.g, v0, fat.Now(), cs0, cs) && GoesOn(es0, Es())
      requires cnt0 > 0 ==> Pos() == start0 + cnt0 && LocOf(fat.g, cs, start0, loc0)
      modifies this`clust, this`sect, this`idx, this`q, this`cs, fat, fat.dev
      ensures fat.Steady() && CanGrow()
      ensures AllocOk(Tab(fat.g, old(fat.Now()))) && err != ERR_NONE ==>
                || fat.Refused()
                || (err == ERR_FULL && FreeCount(Tab(fat.g, old(fat.Now()))) <= 1
                    && old(Pos()) + 1 == EntryCnt(fat.g, old(cs)))
      ensures err == ERR_NONE ==>
                || |cs| == |old(cs)|
                || (|cs| == |old(cs)| + 1 && old(Pos()) + 1 == EntryCnt(fat.g, old(cs)))
      ensures err == ERR_IO ==> fat.Refused()
      ensures err != ERR_DENIED && err != ERR_PATH
      ensures Harmless(fat.g, old(fat.Now()), fat.Now(), {sclust}, {})
      ensures err == ERR_NONE ==>
                && Ready() && Pos() == old(Pos()) + 1 && cnt <= need
                && (old(Pos()) >= |es0| ==> cnt == cnt0 + 1)
                && fat.freeCnt == AddWrap(old(fat.freeCnt), |old(cs)| - |cs|)
                && Grown(fat.g, v0, fat.Now(), cs0, cs) && GoesOn(es0, Es())
                && (cnt > 0 ==> Pos() == start + cnt && LocOf(fat.g, cs, start, loc))
                && FindSlot(es0, old(Pos()), cnt0, start0, eod0, need) == FindSlot(es0, Pos(), cnt, start, eod, need)
      ensures AllSafe(fat.g, fat.size, old(fat.hist), k) ==> AllSafe(fat.g, fat.size, fat.hist, k)
    {
      hide Harmless, Dirents, Ordered, Later, IsChain, ChainSect, EntryOf, ChainOn, DataOk, Here, ClustersOk,
        NoDangling, AllSafe, Grown, GoesOn, FindSlot, LocOf, Tab, AllocOk, FreeUpTo, EntryCnt;
      loc, eod, cnt, start := loc0, eod0, cnt0, start0;
      ghost var l0, c0 := fat.Past(), cs;
      HarmlessStart(fat.g, fat.Now(), sclust, cs);
      var e;
      err, e := Load();
      if err != ERR_NONE {
        return;
      }
      LaterMeans(l0, fat.Past());
      GoesOnAt(es0, Es(), Pos());
      SlotStep(es0, Pos(), cnt, start, eod, need);
      if eod || IsFree(e) {
        if cnt == 0 {
          LocHere(fat.g, cs, q, clust, sect, idx);
          loc, start := Loc(sect, idx), Pos();
        }
        cnt := cnt + 1;
      } else {
        cnt := 0;
      }
      if IsLastMark(e) {
        eod := true;
      }
      ghost var l := fat.Past();
      err := NextStretch(k, v0, cs0, es0);
      LaterTrans(l0, l, fat.Past());
      if err == ERR_NONE && cnt > 0 {
        LocStable(fat.g, c0, cs, start, loc);
      }
    }

    /** Finds need consecutive free entries, growing the directory where necessary. Leaves the handle behind
        them; loc is where they start. */
    method FindRoom(need: nat, ghost k: nat) returns (err: int, loc: Loc, eod: bool, ghost start: nat)
      requires Attached() && fat.Trusted(SectOf(fat.g, sclust)) && CanGrow() && k <= fat.at && need > 0
      modifies this`clust, this`sect, this`idx, this`q, this`cs, fat, fat.dev
      ensures fat.Steady() && CanGrow()
      ensures AllocOk(Tab(fat.g, old(fat.Now()))) && err != ERR_NONE ==>
                fat.Refused() || (err == ERR_FULL && FreeCount(Tab(fat.g, old(fat.Now()))) <= Room(fat.g, need))
      ensures err == ERR_NONE ==> |old(cs)| <= |cs| <= |old(cs)| + Room(fat.g, need)
      ensures err == ERR_IO ==> fat.Refused()
      ensures err != ERR_DENIED && err != ERR_PATH
      ensures Harmless(fat.g, old(fat.Now()), fat.Now(), {sclust}, {})
      ensures err == ERR_NONE ==>
                && Ready() && Pos() == start + need && LocOf(fat.g, cs, start, loc)
                && Grown(fat.g, old(fat.Now()), fat.Now(), old(cs), cs) && GoesOn(old(Es()), Es())
                && fat.freeCnt == AddWrap(old(fat.freeCnt), |old(cs)| - |cs|)
                && FindSlot(old(Es()), 0, 0, 0, false, need) == Slot(start, eod)
      ensures AllSafe(fat.g, fat.size, old(fat.hist), k) ==> AllSafe(fat.g, fat.size, fat.hist, k)
    {
      hide Harmless, Dirents, Ordered, Later, IsChain, ChainSect, ChainOn, DataOk, Here, ClustersOk, NoDangling,
        AllSafe, Grown, GoesOn, FindSlot, LocOf, AddWrap, Room, Tab, AllocOk, FreeUpTo, EntryCnt, SectCnt;
      ghost var l0, v0, cs0, es0, f0 := fat.Past(), fat.Now(), cs, Es(), fat.freeCnt;
      AddWrapTwice(f0, 0, 0);
      LaterRefl(l0);
      GrowBegin(fat.g, v0, sclust, cs, es0);
      HarmlessStart(fat.g, v0, sclust, cs);
      loc, eod, start := Loc(0, 0), false, 0;
      Rewind();
      var cnt: nat := 0;
      while cnt < need
        invariant old(fat.dev.refused) <= fat.dev.refused
        invariant Able() && (cnt > 0 ==> Ready()) && CanGrow() && Later(l0, fat.Past()) && cnt <= need
        invariant Pos() <= |es0| + cnt && |cs0| <= |cs| <= |cs0| + Room(fat.g, need)
        invariant Grown(fat.g, v0, fat.Now(), cs0, cs) && GoesOn(es0, Es())
        invariant Harmless(fat.g, v0, fat.Now(), {sclust}, {})
        invariant fat.freeCnt == AddWrap(f0, |cs0| - |cs|)
        invariant cnt > 0 ==> Pos() == start + cnt && LocOf(fat.g, cs, start, loc)
        invariant FindSlot(es0, 0, 0, 0, false, need) == FindSlot(es0, Pos(), cnt, start, eod, need)
        invariant AllSafe(fat.g, fat.size, old(fat.hist), k) ==> AllSafe(fat.g, fat.size, fat.hist, k)
        decreases Rank(es0, Pos(), need, cnt)
      {
        ghost var l, p, c, n, v := fat.Past(), Pos(), cnt, |cs|, fat.Now();
        LaterMeans(l0, l);
        GrownSound(fat.g, v0, v, sclust, cs0, cs);
        RoomBound(fat.g, v, cs0, cs, need, Pos());
        err, loc, eod, cnt, start := RoomTurn(need, loc, eod, cnt, start, k, v0, cs0, es0);
        LaterTrans(l0, l, fat.Past());
        HarmlessTrans(fat.g, v0, v, fat.Now(), {sclust}, {});
        if err != ERR_NONE {
          return;
        }
        AddWrapTwice(f0, |cs0| - n, n - |cs|);
      }
      SlotEnd(es0, Pos(), cnt, start, eod, need);
      err := ERR_NONE;
    }

    /** Overwrites the entry at the handle, in the buffer. */
    method SetEntry(ghost was: Entry, e: Entry, ghost k: nat)
      requires At(was) && k < |fat.hist|
      modifies fat`buf, fat`bufDirty, fat`hist, fat`spoiled
      ensures fat.Steady() && At(e) && Es() == old(Es())[Pos() := e]
      ensures SameSystem(fat.g, old(fat.Now()), fat.Now()) && SameOutside(fat.g, old(fat.Now()), fat.Now(), cs)
      ensures AllSafe(fat.g, fat.size, old(fat.hist), k) ==> AllSafe(fat.g, fat.size, fat.hist, k)
    {
      hide Dirents, Ordered, Later, IsChain, ChainOn, DataOk, ClustersOk, AllSafe, SameSystem, SameOutside, EntryOf,
        PutEntryIn, ChainSect, PutDirent, SectCnt;
      ghost var v, h, i := fat.Now(), fat.hist, idx / ENTRY_SIZE;
      PutDirentHere(fat.g, v, cs, q, idx, sect, e);
      DirentsPut(fat.g, v, sclust, cs, Pos(), e);
      EntryAfterPut(fat.buf, i, e, i);
      fat.SetBuf(PutEntryIn(fat.buf, idx / ENTRY_SIZE, e));
      assert fat.Now() == PutDirent(fat.g, v, cs, Pos(), e);
      if AllSafe(fat.g, fat.size, h, k) {
        fat.SafeAfterWrite(h, k);
      }
    }

    lemma PosInRange()
      requires Ready()
      ensures Pos() < |Es()|
    {
    }

    /** Back to a place noted before. */
    method JumpTo(loc: Loc, ghost p: nat)
      requires Attached() && LocOf(fat.g, cs, p, loc)
      modifies this`clust, this`sect, this`idx, this`q
      ensures Valid() && Pos() == p && q < SectCnt(fat.g, cs)
    {
      hide Dirents, Ordered, IsChain, ChainOn, Here, LocOf, ClustOf, SectCnt;
      HereAt(fat.g, fat.size, cs, p, loc);
      clust := ClustOf(fat.g, loc.sect);
      sect := loc.sect;
      idx := loc.idx;
      q := p / PER_SECTOR;
    }

    /** Writes long entry number i of name at the handle and steps on. */
    method WriteLfn(name: seq<byte>, i: nat, mask: nat, crc: byte, ghost k: nat, ghost es: seq<Entry>, ghost s: nat)
      returns (err: int)
      requires Ready() && k < |fat.hist| && Pos() + 1 < |Es()|
      requires 1 <= i <= FragCount(|name|) <= MAX_FRAGS && mask == (if i == FragCount(|name|) then LFN_HEAD else 0)
      requires crc == CrcOf(SfnOf(name)) && Pos() == s + (FragCount(|name|) - i)
      requires LfnsWritten(es, Es(), s, FragCount(|name|) - i, name)
      modifies this`clust, this`sect, this`idx, this`q, fat`sect, fat`buf, fat`bufDirty, fat`at, fat`marks, fat`hist,
        fat`spoiled, fat.dev
      ensures fat.Steady()
      ensures err == ERR_IO ==> fat.Refused()
      ensures SameSystem(fat.g, old(fat.Now()), fat.Now()) && SameOutside(fat.g, old(fat.Now()), fat.Now(), cs)
      ensures err == ERR_NONE || err == ERR_IO
      ensures err == ERR_NONE ==>
                && Ready() && Pos() == old(Pos()) + 1 && |Es()| == old(|Es()|)
                && LfnsWritten(es, Es(), s, FragCount(|name|) - i + 1, name)
      ensures AllSafe(fat.g, fat.size, old(fat.hist), k) ==> AllSafe(fat.g, fat.size, fat.hist, k)
    {
      hide Dirents, Ordered, Later, IsChain, ChainOn, DataOk, ClustersOk, AllSafe, SameSystem, SameOutside, EntryOf,
        ChainSect, LfnsWritten, SfnOf, CrcOf, Here, IsLfnEntry;
      ghost var l0, es0 := fat.Past(), Es();
      SameRefl(fat.g, fat.Now(), cs);
      var e;
      err, e := Load();
      if err != ERR_NONE {
        return;
      }
      LaterMeans(l0, fat.Past());
      var r := BuildLfn(e, name, i, mask, crc);
      LfnsStep(es, es0, s, FragCount(|name|) - i, name, r);
      ghost var l := fat.Past();
      SetEntry(e, r, k);
      LaterTrans(l0, l, fat.Past());
      l := fat.Past();
      err := Next();
      LaterTrans(l0, l, fat.Past());
    }

    /** All long entries of name, the last fragment first. */
    method WriteLfns(name: seq<byte>, crc: byte, ghost k: nat) returns (err: int)
      requires Ready() && k < |fat.hist| && 1 <= |name| <= MAX_NAME && crc == CrcOf(SfnOf(name))
      requires Pos() + FragCount(|name|) < |Es()|
      modifies this`clust, this`sect, this`idx, this`q, fat`sect, fat`buf, fat`bufDirty, fat`at, fat`marks, fat`hist,
        fat`spoiled, fat.dev
      ensures fat.Steady()
      ensures err == ERR_IO ==> fat.Refused()
      ensures SameSystem(fat.g, old(fat.Now()), fat.Now()) && SameOutside(fat.g, old(fat.Now()), fat.Now(), cs)
      ensures err == ERR_NONE || err == ERR_IO
      ensures err == ERR_NONE ==>
                && Ready() && Pos() == old(Pos()) + FragCount(|name|)
                && LfnsWritten(old(Es()), Es(), old(Pos()), FragCount(|name|), name)
      ensures AllSafe(fat.g, fat.size, old(fat.hist), k) ==> AllSafe(fat.g, fat.size, fat.hist, k)
    {
      hide Dirents, Ordered, Later, IsChain, ChainOn, DataOk, ClustersOk, AllSafe, SameSystem, SameOutside, EntryOf,
        ChainSect, LfnsWritten, SfnOf, CrcOf, Here;
      ghost var l0, v0, es, s, n := fat.Past(), fat.Now(), Es(), Pos(), FragCount(|name|);
      LaterRefl(l0);
      SameRefl(fat.g, v0, cs);
      LfnsStart(es, s, name);
      var i := FragCount(|name|);
      var mask := LFN_HEAD;
      while i > 0
        invariant old(fat.dev.refused) <= fat.dev.refused
        invariant Ready() && Later(l0, fat.Past()) && 0 <= i <= n && Pos() == s + (n - i) && |Es()| == |es|
        invariant mask == if i == n then LFN_HEAD else 0
        invariant LfnsWritten(es, Es(), s, n - i, name)
        invariant SameSystem(fat.g, v0, fat.Now()) && SameOutside(fat.g, v0, fat.Now(), cs)
        invariant k < |fat.hist|
        invariant AllSafe(fat.g, fat.size, old(fat.hist), k) ==> AllSafe(fat.g, fat.size, fat.hist, k)
      {
        ghost var l, v := fat.Past(), fat.Now();
        err := WriteLfn(name, i, mask, crc, k, es, s);
        LaterMeans(l, fat.Past());
        LaterTrans(l0, l, fat.Past());
        SameTrans(fat.g, v0, v, fat.Now(), cs);
        if err != ERR_NONE {
          return;
        }
        i, mask := i - 1, 0;
      }
      err := ERR_NONE;
    }

    /** dir_add, once the length of the name has been looked at. */
    method AddRun(name: seq<byte>, attr: byte, first: u32, date: nat, time: nat, ghost k: nat)
      returns (err: int, ghost start: nat, ghost eod: bool)
      requires Attached() && fat.Trusted(SectOf(fat.g, sclust)) && CanGrow() && k <= fat.at && attr != ATTR_LFN
      requires 0 < |name| <= MAX_NAME
      modifies this`clust, this`sect, this`idx, this`q, this`cs, fat, fat.dev
      ensures fat.Steady() && CanGrow()
      ensures AllocOk(Tab(fat.g, old(fat.Now()))) && err != ERR_NONE ==>
                fat.Refused() || (err == ERR_FULL && FreeCount(Tab(fat.g, old(fat.Now()))) <= Room(fat.g, RunLen(name)))
      ensures err == ERR_NONE ==> |old(cs)| <= |cs| <= |old(cs)| + Room(fat.g, RunLen(name))
      ensures err == ERR_IO ==> fat.Refused()
      ensures err != ERR_DENIED && err != ERR_PATH
      ensures Harmless(fat.g, old(fat.Now()), fat.Now(), {sclust}, {})
      ensures err == ERR_NONE ==>
                && Ready() && Pos() == start + FragCount(|name|)
                && Added(old(Es()), Es(), start, eod, name) && GoodSlot(old(Es()), start, eod, RunLen(name))
                && Grown(fat.g, old(fat.Now()), fat.Now(), old(cs), cs)
                && fat.freeCnt == AddWrap(old(fat.freeCnt), |old(cs)| - |cs|)
                && var e := Es()[Pos()]; At(e) && Fresh(e, attr, first, date, time)
      ensures AllSafe(fat.g, fat.size, old(fat.hist), k) ==> AllSafe(fat.g, fat.size, fat.hist, k)
    {
      hide Harmless, Dirents, Ordered, Later, IsChain, ChainOn, DataOk, ClustersOk, AllSafe, SameSystem, SameOutside,
        ChainSect, SfnOf, CrcOf, Here, Added, Grown, GoodSlot, FindSlot, GoesOn, LocOf, IsLfnEntry, AddWrap,
        EntryClust, Le32, Fresh, AllocOk, Tab, Room, FreeUpTo;
      ghost var l0, es0, v0, cs0 := fat.Past(), Es(), fat.Now(), cs;
      var loc, seen;
      err, loc, seen, start := FindRoom(FragCount(|name|) + 1, k);
      eod := seen;
      if err != ERR_NONE {
        return;
      }
      SlotIsGood(es0, 0, 0, 0, false, FragCount(|name|) + 1);
      ghost var l := fat.Past();
      LaterMeans(l0, l);
      PosInRange();
      ghost var v := fat.Now();
      err := Place(name, attr, first, date, time, loc, seen, k, start, es0, v0, cs0);
      LaterTrans(l0, l, fat.Past());
      HarmlessTrans(fat.g, v0, v, fat.Now(), {sclust}, {});
    }

    /** dir_add: adds name with its attributes and start cluster. The handle is left at the new short entry. */
    method Add(name: seq<byte>, attr: byte, first: u32, date: nat, time: nat, ghost k: nat)
      returns (err: int, ghost start: nat, ghost eod: bool)
      requires Attached() && fat.Trusted(SectOf(fat.g, sclust)) && CanGrow() && k <= fat.at && attr != ATTR_LFN
      modifies this`clust, this`sect, this`idx, this`q, this`cs, fat, fat.dev
      ensures fat.Steady() && CanGrow()
      ensures AllocOk(Tab(fat.g, old(fat.Now()))) && err != ERR_NONE && 0 < |name| <= MAX_NAME ==>
                fat.Refused() || (err == ERR_FULL && FreeCount(Tab(fat.g, old(fat.Now()))) <= Room(fat.g, RunLen(name)))
      ensures err == ERR_NONE ==> |old(cs)| <= |cs| <= |old(cs)| + Room(fat.g, RunLen(name))
      ensures err == ERR_IO ==> fat.Refused()
      ensures err != ERR_DENIED && err != ERR_PATH
      ensures Harmless(fat.g, old(fat.Now()), fat.Now(), {sclust}, {})
      ensures |name| == 0 || |name| > MAX_NAME ==> err == ERR_PARAM && fat.Now() == old(fat.Now())
      ensures err == ERR_NONE ==>
                && Ready() && Pos() == start + FragCount(|name|)
                && Added(old(Es()), Es(), start, eod, name) && GoodSlot(old(Es()), start, eod, RunLen(name))
                && Grown(fat.g, old(fat.Now()), fat.Now(), old(cs), cs)
                && CountKept(fat.g, old(fat.Now()), old(fat.freeCnt), fat.Now(), fat.freeCnt)
                && var e := Es()[Pos()]; At(e) && Fresh(e, attr, first, date, time)
      ensures err == ERR_NONE && PlainName(name) && WellFormed(old(Es()), 0) ==>
                AllFoundAfterAdd(old(Es()), Es(), start, name)
      ensures AllSafe(fat.g, fat.size, old(fat.hist), k) ==> AllSafe(fat.g, fat.size, fat.hist, k)
    {
      hide Harmless, AllFoundAfterAdd, WellFormed, PlainName, Dirents, Ordered, Later, IsChain, ChainOn, DataOk,
        ClustersOk, AllSafe, SameSystem, SameOutside, ChainSect, Here, Added, Grown, GoodSlot, AddWrap, CountKept,
        EntryClust, Le32;
      HarmlessStart(fat.g, fat.Now(), sclust, cs);
      start, eod := 0, false;
      LaterRefl(fat.Past());
      if |name| <= 0 || |name| > MAX_NAME {
        return ERR_PARAM, start, eod;
      }
      ghost var es0, v0, cs0, f0 := Es(), fat.Now(), cs, fat.freeCnt;
      err, start, eod := AddRun(name, attr, first, date, time, k);
      if err == ERR_NONE {
        GrownCounted(fat.g, v0, f0, fat.Now(), fat.freeCnt, sclust, cs0, cs);
        if PlainName(name) && WellFormed(es0, 0) {
          AddedLookups(es0, Es(), start, eod, name);
        }
      }
    }

    /** The long entries of name and its short entry, written from loc on. */
    method WriteRun(name: seq<byte>, attr: byte, first: u32, date: nat, time: nat, loc: Loc, ghost k: nat, ghost s: nat)
      returns (err: int, ghost r: Entry, ghost es2: seq<Entry>)
      requires Ready() && k < |fat.hist| && attr != ATTR_LFN && 1 <= |name| <= MAX_NAME
      requires s + RunLen(name) < |Es()| && LocOf(fat.g, cs, s, loc)
      modifies this`clust, this`sect, this`idx, this`q, fat`sect, fat`buf, fat`bufDirty, fat`at, fat`marks, fat`hist,
        fat`spoiled, fat.dev
      ensures fat.Steady()
      ensures err == ERR_IO ==> fat.Refused()
      ensures SameSystem(fat.g, old(fat.Now()), fat.Now()) && SameOutside(fat.g, old(fat.Now()), fat.Now(), cs)
      ensures err == ERR_NONE || err == ERR_IO
      ensures err == ERR_NONE ==>
                && At(r) && Pos() == s + FragCount(|name|) && |es2| == |Es()|
                && LfnsWritten(old(Es()), es2, s, FragCount(|name|), name) && Es() == es2[Pos() := r]
                && r[..11] == SfnOf(name) && Fresh(r, attr, first, date, time)
      ensures AllSafe(fat.g, fat.size, old(fat.hist), k) ==> AllSafe(fat.g, fat.size, fat.hist, k)
    {
      hide Dirents, Ordered, Later, IsChain, ChainOn, DataOk, ClustersOk, AllSafe, SameSystem, SameOutside, EntryOf,
        ChainSect, LfnsWritten, SfnOf, CrcOf, Here, LocOf, EntryClust, Le32, IsLfnEntry;
      ghost var l0, v1 := fat.Past(), fat.Now();
      r, es2 := ZeroEntry(), Es();
      JumpTo(loc, s);
      var sfn := PutSfnName(name);
      var crc := GetCrc(sfn);
      err := WriteLfns(name, crc, k);
      LaterMeans(l0, fat.Past());
      if err != ERR_NONE {
        return;
      }
      ghost var v2, l := fat.Now(), fat.Past();
      es2 := Es();
      err, r := WriteSfn(sfn, attr, first, date, time, k);
      LaterTrans(l0, l, fat.Past());
      SameTrans(fat.g, v1, v2, fat.Now(), cs);
    }

    /** The writing half of dir_add: moves the end marker if the new entries go past it, then writes them. */
    method Place(name: seq<byte>, attr: byte, first: u32, date: nat, time: nat, loc: Loc, eod: bool,
                 ghost k: nat, ghost s: nat, ghost es0: seq<Entry>, ghost v0: Volume, ghost cs0: seq<nat>)
      returns (err: int)
      requires Ready() && k < |fat.hist| && attr != ATTR_LFN && 1 <= |name| <= MAX_NAME
      requires Pos() == s + RunLen(name) < |Es()| && LocOf(fat.g, cs, s, loc)
      requires GoesOn(es0, Es()) && Grown(fat.g, v0, fat.Now(), cs0, cs)
      modifies this`clust, this`sect, this`idx, this`q, fat`sect, fat`buf, fat`bufDirty, fat`at, fat`marks, fat`hist,
        fat`spoiled, fat.dev
      ensures fat.Steady()
      ensures err == ERR_IO ==> fat.Refused()
      ensures Harmless(fat.g, old(fat.Now()), fat.Now(), {sclust}, {})
      ensures err == ERR_NONE || err == ERR_IO
      ensures err == ERR_NONE ==>
                && Ready() && Pos() == s + FragCount(|name|) < |Es()|
                && Added(es0, Es(), s, eod, name) && Grown(fat.g, v0, fat.Now(), cs0, cs)
                && var e := Es()[Pos()]; At(e) && Fresh(e, attr, first, date, time)
      ensures AllSafe(fat.g, fat.size, old(fat.hist), k) ==> AllSafe(fat.g, fat.size, fat.hist, k)
    {
      hide Harmless, Dirents, Ordered, Later, IsChain, ChainOn, DataOk, ClustersOk, AllSafe, SameSystem, SameOutside,
        EntryOf, ChainSect, LfnsWritten, SfnOf, CrcOf, Here, Added, Grown, LocOf, EntryClust, Le32, IsLfnEntry;
      ghost var l0, v := fat.Past(), fat.Now();
      LaterRefl(l0);
      SameRefl(fat.g, v, cs);
      if eod {
        err := MoveEndMark(k);
        LaterMeans(l0, fat.Past());
        HarmlessData(fat.g, v, fat.Now(), sclust, cs, {});
        if err != ERR_NONE {
          return;
        }
      }
      ghost var es1, v1, l := Es(), fat.Now(), fat.Past();
      ghost var r, es2;
      err, r, es2 := WriteRun(name, attr, first, date, time, loc, k, s);
      LaterTrans(l0, l, fat.Past());
      SameTrans(fat.g, v, v1, fat.Now(), cs);
      HarmlessData(fat.g, v, fat.Now(), sclust, cs, {});
      if err != ERR_NONE {
        return;
      }
      GrownPut(fat.g, v0, v, fat.Now(), cs0, cs);
      AddedBy(es0, es1, es2, Es(), s, eod, name, r);
    }

    /** Makes the entry at the handle the end marker. */
    method MoveEndMark(ghost k: nat) returns (err: int)
      requires Ready() && k < |fat.hist|
      modifies fat`sect, fat`buf, fat`bufDirty, fat`at, fat`marks, fat`hist, fat`spoiled, fat.dev
      ensures fat.Steady()
      ensures err == ERR_IO ==> fat.Refused()
      ensures SameSystem(fat.g, old(fat.Now()), fat.Now()) && SameOutside(fat.g, old(fat.Now()), fat.Now(), cs)
      ensures err == ERR_NONE || err == ERR_IO
      ensures err == ERR_NONE ==>
                && Ready() && Pos() < |Es()| && Es() == old(Es())[Pos() := Es()[Pos()]] && IsLastMark(Es()[Pos()])
      ensures AllSafe(fat.g, fat.size, old(fat.hist), k) ==> AllSafe(fat.g, fat.size, fat.hist, k)
    {
      hide Dirents, Ordered, Later, IsChain, ChainOn, DataOk, ClustersOk, AllSafe, SameSystem, SameOutside, EntryOf,
        ChainSect, Here;
      ghost var l0 := fat.Past();
      SameRefl(fat.g, fat.Now(), cs);
      var e;
      err, e := Load();
      if err == ERR_NONE {
        ghost var l := fat.Past();
        LaterMeans(l0, l);
        SetEntry(e, e[0 := SFN_LAST], k);
        LaterTrans(l0, l, fat.Past());
      }
    }

    method WriteSfn(sfn: seq<byte>, attr: byte, first: u32, date: nat, time: nat, ghost k: nat)
      returns (err: int, ghost r: Entry)
      requires Ready() && k < |fat.hist| && |sfn| == 11
      modifies fat`sect, fat`buf, fat`bufDirty, fat`at, fat`marks, fat`hist, fat`spoiled, fat.dev
      ensures fat.Steady()
      ensures err == ERR_IO ==> fat.Refused()
      ensures SameSystem(fat.g, old(fat.Now()), fat.Now()) && SameOutside(fat.g, old(fat.Now()), fat.Now(), cs)
      ensures err == ERR_NONE || err == ERR_IO
      ensures err == ERR_NONE ==>
                && At(r) && Es() == old(Es())[Pos() := r]
                && r[..11] == sfn && Fresh(r, attr, first, date, time)
      ensures AllSafe(fat.g, fat.size, old(fat.hist), k) ==> AllSafe(fat.g, fat.size, fat.hist, k)
    {
      hide Dirents, Ordered, Later, IsChain, ChainOn, DataOk, ClustersOk, AllSafe, SameSystem, SameOutside, EntryOf,
        ChainSect, Here, EntryClust, Le32;
      ghost var l0 := fat.Past();
      SameRefl(fat.g, fat.Now(), cs);
      var e;
      err, e := Load();
      r := e;
      if err == ERR_NONE {
        ghost var l := fat.Past();
        LaterMeans(l0, l);
        var s := BuildSfn(e, sfn, attr, first, date, time);
        r := s;
        SetEntry(e, s, k);
        LaterTrans(l0, l, fat.Past());
      }
    }
  }

  /** The clusters a directory can need for so many entries more, and the one that may be free and not be found. */
  function Room(g: Geo, need: nat): nat { if g.spc == 0 then 0 else need / (PER_SECTOR * g.spc) + 1 }

  /** At the end of a directory that has grown for need entries. */
  lemma RoomBound(g: Geo, v: Volume, cs: seq<nat>, all: seq<nat>, need: nat, p: nat)
    requires OnMedium(g, v, all) && |cs| <= |all|
    ensures p + 1 == EntryCnt(g, all) && p + 1 <= EntryCnt(g, cs) + need ==> |all| + 1 <= |cs| + Room(g, need)
  {
    var n := PER_SECTOR * g.spc;
    assert EntryCnt(g, all) == |all| * n && EntryCnt(g, cs) == |cs| * n;
    if p + 1 == EntryCnt(g, all) && p + 1 <= EntryCnt(g, cs) + need {
      assert (|all| - |cs|) * n <= need;
      DivIff(need, n, |all| - |cs|);
    }
  }

  /** How far the search for room is from its end at the latest. */
  ghost function Rank(es: seq<Entry>, p: nat, need: nat, cnt: nat): int {
    if p < |es| then |es| - p + need else need - cnt
  }

  /** Storing at the handle's place is storing that entry of the directory. */
  lemma PutDirentHere(g: Geo, v: Volume, cs: seq<nat>, q: nat, idx: nat, sect: nat, e: Entry)
    requires OnMedium(g, v, cs) && q < SectCnt(g, cs) && sect == ChainSect(g, cs, q) && sect < |v| && idx < SECTOR_SIZE
    ensures PER_SECTOR * q + idx / ENTRY_SIZE < EntryCnt(g, cs) && idx / ENTRY_SIZE < PER_SECTOR
    ensures PutDirent(g, v, cs, PER_SECTOR * q + idx / ENTRY_SIZE, e)
         == v[sect := PutEntryIn(v[sect], idx / ENTRY_SIZE, e)]
  {
    hide ChainSect, SectCnt, PutEntryIn, OnMedium;
    EntryPlace(q, idx / ENTRY_SIZE);
  }

  lemma EntryPlace(q: nat, i: nat)
    requires i < PER_SECTOR
    ensures (PER_SECTOR * q + i) / PER_SECTOR == q && (PER_SECTOR * q + i) % PER_SECTOR == i
  {
  }

  lemma GoesOnAt(es: seq<Entry>, es': seq<Entry>, p: nat)
    requires GoesOn(es, es') && p < |es'|
    ensures es'[p] == EntryAt(es, p)
  {
  }

  /** Clearing the cluster just appended to the chain of c, also when that stops half way. */
  lemma HarmlessClear(g: Geo, v: Volume, w: Volume, x: Volume, c: nat, cs: seq<nat>, last: nat, d: nat)
    requires ChainOn(g, v, c, cs) && OnMedium(g, v, cs) && |cs| > 0 && 2 <= last < g.clustCnt && |w| == |v|
    requires Stretched(g, v, last, cs[|cs| - 1], d, w) && 2 <= d
    requires SameSystem(g, w, x) && SameBut(w, x, SectOf(g, d), g.spc)
    ensures Harmless(g, w, x, {c}, {})
  {
    hide Tab, Choose, OnlyTables, Mirrored, Harmless, IsChain, Linked, SectOf, ClustOf;
    ChooseResult(Tab(g, v), last, cs[|cs| - 1]);
    AppendedChain(Tab(g, v), c, cs, d);
    ClearedBut(g, w, x, cs, d);
    HarmlessData(g, w, x, c, cs + [d], {});
  }

  lemma AppendedChain(t: Table, c: nat, cs: seq<nat>, d: nat)
    requires TableOk(t) && IsChain(t, c, cs) && 2 <= c && |cs| > 0 && 2 <= d < |t| && t[d] == 0
    ensures cs[|cs| - 1] < |t| && IsChain(Linked(t, cs[|cs| - 1], d), c, cs + [d])
  {
    ChainLink(t, c, cs, |cs| - 1);
    LinkedChain(t, cs[|cs| - 1], d, c, cs);
  }

  lemma ClearedBut(g: Geo, w: Volume, x: Volume, cs: seq<nat>, d: nat)
    requires DataOk(g, |w|) && 2 <= d && SameBut(w, x, SectOf(g, d), g.spc)
    ensures SameOutside(g, w, x, cs + [d])
  {
    assert d in cs + [d];
    forall s | g.dataSect <= s < |w| && ClustOf(g, s) !in cs + [d] ensures w[s] == x[s] {
      if SectOf(g, d) <= s < SectOf(g, d) + g.spc {
        ClustOfSect(g, d, s - SectOf(g, d));
      }
    }
  }

  lemma GrowBegin(g: Geo, v: Volume, c: nat, cs: seq<nat>, es: seq<Entry>)
    requires ChainOn(g, v, c, cs) && OnMedium(g, v, cs)
    ensures Grown(g, v, v, cs, cs) && GoesOn(es, es)
  {
    ChainOnMedium(g, v, c, cs);
    GrownRefl(g, v, cs);
  }

  lemma SlotStep(es: seq<Entry>, p: nat, cnt: nat, start: nat, eod: bool, need: nat)
    requires cnt < need
    ensures var e := EntryAt(es, p);
            FindSlot(es, p, cnt, start, eod, need) ==
              if eod || IsFree(e)
              then FindSlot(es, p + 1, cnt + 1, if cnt == 0 then p else start, eod || IsLastMark(e), need)
              else FindSlot(es, p + 1, 0, start, eod, need)
  {
  }

  lemma SlotEnd(es: seq<Entry>, p: nat, cnt: nat, start: nat, eod: bool, need: nat)
    requires cnt == need
    ensures FindSlot(es, p, cnt, start, eod, need) == Slot(start, eod)
  {
  }

  lemma LocStable(g: Geo, cs: seq<nat>, ds: seq<nat>, p: nat, loc: Loc)
    requires g.spc > 0 && ClustersOk(g, cs) && ClustersOk(g, ds) && cs <= ds
    requires LocOf(g, cs, p, loc)
    ensures LocOf(g, ds, p, loc)
  {
    hide ChainSect, SectCnt;
    EntrySect(p, SectCnt(g, cs));
    ChainSectSame(g, cs, ds, p / PER_SECTOR);
  }

  lemma EntrySect(p: nat, n: nat)
    ensures p / PER_SECTOR < n <==> p < PER_SECTOR * n
  {
  }

  /** Sectors keep their places when the chain grows. */
  lemma ChainSectSame(g: Geo, cs: seq<nat>, ds: seq<nat>, q: nat)
    requires g.spc > 0 && ClustersOk(g, cs) && ClustersOk(g, ds) && cs <= ds && q < SectCnt(g, cs)
    ensures q < SectCnt(g, ds) && ChainSect(g, ds, q) == ChainSect(g, cs, q)
  {
    SectCntGrows(g, cs, ds);
    hide ChainSect, SectCnt;
    ChainSectIs(g, cs, q);
    ChainSectIs(g, ds, q);
  }

  lemma SectCntGrows(g: Geo, cs: seq<nat>, ds: seq<nat>)
    requires cs <= ds
    ensures SectCnt(g, cs) <= SectCnt(g, ds)
  {
    if |cs| < |ds| {
      MulLess(|cs|, |ds|, g.spc);
    }
  }

  /** es' is es, possibly followed by zero entries. */
  ghost predicate GoesOn(es: seq<Entry>, es': seq<Entry>) {
    |es| <= |es'| && forall p :: 0 <= p < |es'| ==> es'[p] == EntryAt(es, p)
  }

  lemma GoesOnTrans(a: seq<Entry>, b: seq<Entry>, c: seq<Entry>)
    requires GoesOn(a, b) && |b| <= |c| && forall p :: 0 <= p < |c| ==> c[p] == EntryAt(b, p)
    ensures GoesOn(a, c)
  {
  }

  lemma DirTail(g: Geo, v: Volume, c: nat, cs: seq<nat>)
    requires ChainOn(g, v, c, cs)
    ensures |cs| > 0 && IsTail(Tab(g, v), cs[|cs| - 1]) && cs[|cs| - 1] != 0
  {
    ChainLink(Tab(g, v), c, cs, |cs| - 1);
    ChainOnMedium(g, v, c, cs);
  }

  lemma HereFirst(g: Geo, v: Volume, c: nat, cs: seq<nat>)
    requires ChainOn(g, v, c, cs)
    ensures OnMedium(g, v, cs) && 2 <= c && 0 < SectCnt(g, cs) && Here(g, cs, 0, c, SectOf(g, c), 0)
  {
    ChainOnMedium(g, v, c, cs);
    FirstSect(g, cs, 0);
  }

  lemma HereEnd(g: Geo, cs: seq<nat>, q: nat, clust: nat, sect: nat, idx: nat)
    requires g.spc > 0 && ClustersOk(g, cs) && Here(g, cs, q, clust, sect, idx) && q == SectCnt(g, cs)
    ensures |cs| > 0 && clust == cs[|cs| - 1] && idx == 0
  {
  }

  /** The position behind the old end is the first sector of the new cluster. */
  lemma HereAtNew(g: Geo, cs: seq<nat>, d: nat)
    requires g.spc > 0 && ClustersOk(g, cs + [d]) && ClustersOk(g, cs) && 2 <= d < g.clustCnt
    ensures SectCnt(g, cs) < SectCnt(g, cs + [d]) && Here(g, cs + [d], SectCnt(g, cs), d, SectOf(g, d), 0)
  {
    FirstSect(g, cs + [d], |cs|);
  }

  lemma SearchSkip(es: seq<Entry>, p: nat, name: seq<byte>, buf: seq<byte>)
    requires |buf| == SCRATCH && p < |es|
    ensures IsLastMark(es[p]) ==> Search(es, p, name, buf) == Eof
    ensures !IsLastMark(es[p]) && IsFree(es[p]) ==> Search(es, p, name, buf) == Search(es, p + 1, name, buf)
  {
  }

  lemma SearchEnd(es: seq<Entry>, name: seq<byte>, buf: seq<byte>)
    requires |buf| == SCRATCH
    ensures Search(es, |es|, name, buf) == Eof
  {
  }

  /** A sector and a byte offset in it. */
  datatype Loc = Loc(sect: nat, idx: nat)

  /** loc is where entry p of the directory is. */
  predicate LocOf(g: Geo, cs: seq<nat>, p: nat, loc: Loc)
    requires g.spc > 0 && ClustersOk(g, cs)
  {
    p < EntryCnt(g, cs) && loc.sect == ChainSect(g, cs, p / PER_SECTOR) && loc.idx == p % PER_SECTOR * ENTRY_SIZE
  }

  lemma HereAt(g: Geo, size: nat, cs: seq<nat>, p: nat, loc: Loc)
    requires DataOk(g, size) && ClustersOk(g, cs) && LocOf(g, cs, p, loc)
    ensures p / PER_SECTOR < SectCnt(g, cs) && g.dataSect <= loc.sect
    ensures Here(g, cs, p / PER_SECTOR, ClustOf(g, loc.sect), loc.sect, loc.idx)
    ensures PER_SECTOR * (p / PER_SECTOR) + loc.idx / ENTRY_SIZE == p
  {
    hide ClustOf, SectOf, GeoOk;
    var r := p / PER_SECTOR;
    DivBelow(r, g.spc, |cs|);
    ClustOfSect(g, cs[r / g.spc], r % g.spc);
  }

  lemma LocHere(g: Geo, cs: seq<nat>, q: nat, clust: nat, sect: nat, idx: nat)
    requires g.spc > 0 && ClustersOk(g, cs) && Here(g, cs, q, clust, sect, idx) && q < SectCnt(g, cs)
    ensures LocOf(g, cs, PER_SECTOR * q + idx / ENTRY_SIZE, Loc(sect, idx))
  {
  }

  /** One turn of the search, by the kind of the entry. */
  lemma SearchStep(es: seq<Entry>, p: nat, name: seq<byte>, buf: seq<byte>)
    requires |buf| == SCRATCH
    ensures p >= |es| || IsLastMark(es[p]) ==> Search(es, p, name, buf) == Eof
    ensures p < |es| && Deleted(es[p]) ==> Search(es, p, name, buf) == Search(es, p + 1, name, buf)
    ensures p < |es| && !IsFree(es[p]) && !IsLfn(es[p]) ==>
              Search(es, p, name, buf) == if es[p][..11] == SfnOf(name) then Hit(p, p) else Search(es, p + 1, name, buf)
    ensures p < |es| && !IsFree(es[p]) && IsLfn(es[p]) ==>
              && (ParseLfn(es, p, buf).ParseEof? ==> Search(es, p, name, buf) == Eof)
              && (ParseLfn(es, p, buf).ParseBroken? ==> Search(es, p, name, buf) == Malformed)
              && (ParseLfn(es, p, buf).Parsed? ==>
                    && p <= ParseLfn(es, p, buf).next < |es| && |ParseLfn(es, p, buf).buf| == SCRATCH
                    && ParseLfn(es, p, buf).len <= MAX_NAME
                    && Search(es, p, name, buf) == AfterParse(es, p, name, ParseLfn(es, p, buf)))
  {
    hide ParseFrags, SfnOf, CrcOf;
    if p < |es| && !IsFree(es[p]) && IsLfn(es[p]) {
      ParseAdvances(es, p, if FragsIn(es[p]) > MAX_FRAGS then 0 else FragsIn(es[p]), Crc(es[p]), 0, buf);
    }
  }

  function AfterParse(es: seq<Entry>, p: nat, name: seq<byte>, r: Parsed): Outcome
    requires p < |es| && r.Parsed? && r.next < |es| && |r.buf| == SCRATCH && r.len <= MAX_NAME
  {
    if IsFree(es[r.next]) || IsLfn(es[r.next]) || Crc(es[p]) != CrcOf(es[r.next]) then Malformed
    else if r.len == |name| && r.buf[..r.len] == name then Hit(r.next, p)
    else Search(es, r.next + 1, name, r.buf)
  }

  function Prepend(s: seq<byte>, f: Frag): Frag {
    if f.BadFrag? then BadFrag else Chars(s + f.s)
  }

  lemma PrependNone(f: Frag)
    ensures Prepend([], f) == f
  {
    if f.Chars? {
      assert [] + f.s == f.s;
    }
  }

  lemma PrependKind(s: seq<byte>, f: Frag)
    ensures f.BadFrag? <==> Prepend(s, f).BadFrag?
    ensures f == Chars([]) ==> Prepend(s, f) == Chars(s)
  {
    assert s + [] == s;
  }

  /** One turn of the loop over the characters of a fragment. */
  lemma FragStep(e: Entry, i: nat)
    requires i <= FRAG_LEN
    ensures i == FRAG_LEN || e[LFN_INDICES[i]] == 0 ==> FragFrom(e, i) == Chars([])
    ensures i < FRAG_LEN && e[LFN_INDICES[i]] == 0xff ==> FragFrom(e, i).BadFrag?
    ensures i < FRAG_LEN && e[LFN_INDICES[i]] != 0 && e[LFN_INDICES[i]] != 0xff ==>
              FragFrom(e, i) == Prepend([e[LFN_INDICES[i]]], FragFrom(e, i + 1))
  {
  }

  lemma SpliceNone(s: seq<byte>, at: nat)
    requires at <= |s|
    ensures Splice(s, at, []) == s
  {
  }

  lemma SpliceStep(s: seq<byte>, at: nat, d: seq<byte>, c: byte)
    requires at + |d| + 1 <= |s|
    ensures Splice(s, at, d + [c]) == Splice(s, at, d)[at + |d| := c]
  {
  }

  lemma PrependStep(s: seq<byte>, c: byte, f: Frag)
    ensures Prepend(s, Prepend([c], f)) == Prepend(s + [c], f)
  {
    if f.Chars? {
      assert s + ([c] + f.s) == s + [c] + f.s;
    }
  }

  function EnterClust(g: Geo, clust: nat): nat { if clust == 0 then g.rootClust else clust }

  predicate Here(g: Geo, cs: seq<nat>, q: nat, clust: nat, sect: nat, idx: nat)
    requires g.spc > 0 && ClustersOk(g, cs)
  {
    && |cs| > 0 && q <= SectCnt(g, cs)
    && idx < SECTOR_SIZE && idx % ENTRY_SIZE == 0
    && (if q < SectCnt(g, cs) then
          DivBelow(q, g.spc, |cs|);
          clust == cs[ClustPos(g, q)] && sect == ChainSect(g, cs, q)
        else idx == 0 && clust == cs[|cs| - 1])
  }

  lemma AtBoundaryIs(g: Geo, sect: nat)
    requires g.spc > 0
    ensures AtBoundary(g, sect) <==> (sect + 1) % g.spc == 0
  {
  }

  /** Where a step from sector q leads, by the tests the driver makes; i is the place of its cluster in the chain. */
  lemma HereNext(g: Geo, size: nat, cs: seq<nat>, q: nat, clust: nat, sect: nat, idx: nat) returns (i: nat)
    requires DataOk(g, size) && ClustersOk(g, cs) && Here(g, cs, q, clust, sect, idx) && q < SectCnt(g, cs)
    ensures idx % ENTRY_SIZE == 0 && i < |cs| && clust == cs[i]
    ensures idx + ENTRY_SIZE < SECTOR_SIZE ==> Here(g, cs, q, clust, sect, idx + ENTRY_SIZE)
    ensures idx + ENTRY_SIZE >= SECTOR_SIZE ==> idx == SECTOR_SIZE - ENTRY_SIZE
    ensures !AtBoundary(g, sect) ==> q + 1 < SectCnt(g, cs) && Here(g, cs, q + 1, clust, sect + 1, 0)
    ensures AtBoundary(g, sect) && i < |cs| - 1 ==>
              q + 1 < SectCnt(g, cs) && Here(g, cs, q + 1, cs[i + 1], SectOf(g, cs[i + 1]), 0)
    ensures AtBoundary(g, sect) && i == |cs| - 1 ==> q + 1 == SectCnt(g, cs) && Here(g, cs, q + 1, clust, sect + 1, 0)
  {
    assert g.spc > 0;
    hide DataOk, ChainSect, SectOf, SectCnt, Here, ClustPos, AtBoundary, IdxOk;
    IdxNext(idx);
    HereMeans(g, cs, q, clust, sect, idx);
    NextSect(g, size, cs, q);
    i := ClustPos(g, q);
    if idx + ENTRY_SIZE < SECTOR_SIZE {
      HereIs(g, cs, q, i, sect, idx + ENTRY_SIZE);
    }
    if !AtBoundary(g, sect) {
      HereIs(g, cs, q + 1, i, sect + 1, 0);
    } else if i < |cs| - 1 {
      HereIs(g, cs, q + 1, i + 1, SectOf(g, cs[i + 1]), 0);
    } else {
      HereIsEnd(g, cs, q + 1, sect + 1);
    }
  }

  predicate IdxOk(idx: nat) { idx < SECTOR_SIZE && idx % ENTRY_SIZE == 0 }

  lemma IdxNext(idx: nat)
    ensures IdxOk(0)
    ensures IdxOk(idx) ==>
              && idx % ENTRY_SIZE == 0
              && if idx + ENTRY_SIZE < SECTOR_SIZE then IdxOk(idx + ENTRY_SIZE) else idx == SECTOR_SIZE - ENTRY_SIZE
  {
  }

  lemma HereMeans(g: Geo, cs: seq<nat>, q: nat, clust: nat, sect: nat, idx: nat)
    requires g.spc > 0 && ClustersOk(g, cs) && Here(g, cs, q, clust, sect, idx) && q < SectCnt(g, cs)
    ensures ClustPos(g, q) < |cs| && clust == cs[ClustPos(g, q)] && sect == ChainSect(g, cs, q)
    ensures IdxOk(idx)
  {
    hide ChainSect, SectCnt;
    IndexIn(g, cs, q);
  }

  lemma HereIs(g: Geo, cs: seq<nat>, q: nat, i: nat, sect: nat, idx: nat)
    requires g.spc > 0 && ClustersOk(g, cs) && q < SectCnt(g, cs) && i == ClustPos(g, q)
    requires sect == ChainSect(g, cs, q) && IdxOk(idx)
    ensures i < |cs| && Here(g, cs, q, cs[i], sect, idx)
  {
    hide ChainSect, SectCnt;
    IndexIn(g, cs, q);
  }

  lemma HereIsEnd(g: Geo, cs: seq<nat>, q: nat, sect: nat)
    requires g.spc > 0 && ClustersOk(g, cs) && |cs| > 0 && q == SectCnt(g, cs)
    ensures Here(g, cs, q, cs[|cs| - 1], sect, 0)
  {
    hide SectCnt;
  }
}
