/** A directory as what a program wants it for: names, and the contents they stand for. */
module Folder {
  import opened Bytes
  import opened Chain
  import opened Layout
  import opened FatVolume
  import opened LongName
  import opened Records
  import opened Names
  import opened DirLayout
  import opened DirGrow
  import opened FileBytes
  import opened Sparing
  import opened Bystanders
  import opened Files
  import opened Sessions
  import opened Unlink

  /** What a name stands for: the cluster its file starts at, and the bytes. */
  datatype Stored = Stored(start: nat, content: seq<byte>)

  type Catalogue = imap<seq<byte>, Stored>

  /** The entries "." and "..", which stand for no file of this directory. */
  predicate Dotted(e: Entry) { e[0] == DOT }

  predicate Owner(es: seq<Entry>, p: nat) {
    Live(es, p) && !Dotted(es[p])
  }

  ghost function ChainFrom(t: Table, c: nat): (xs: seq<nat>)
    requires HasChain(t, c)
    ensures IsChain(t, c, xs)
  {
    var xs :| IsChain(t, c, xs);
    xs
  }

  lemma ChainFromIs(t: Table, c: nat, xs: seq<nat>)
    requires TableOk(t) && IsChain(t, c, xs)
    ensures HasChain(t, c) && ChainFrom(t, c) == xs
  {
    ChainUnique(t, c, xs, ChainFrom(t, c));
  }

  /** The entry e of a directory that starts at c has a chain that nothing else links into, long enough for its size. */
  ghost predicate Owns(g: Geo, v: Volume, c: nat, e: Entry) {
    && DataOk(g, |v|) && EntryClust(e) != c && IsHead(Tab(g, v), EntryClust(e)) && HasChain(Tab(g, v), EntryClust(e))
    && EntrySize(e) <= ByteCnt(g, ChainFrom(Tab(g, v), EntryClust(e)))
  }

  ghost function StoredAt(g: Geo, v: Volume, c: nat, e: Entry): Stored
    requires Owns(g, v, c, e)
  {
    var xs := ChainFrom(Tab(g, v), EntryClust(e));
    HeadClusters(g, v, EntryClust(e), xs);
    Stored(EntryClust(e), Allocated(g, v, xs)[..EntrySize(e)])
  }

  /** The entries in use have chains of their own, no two the same one. */
  ghost predicate OwnersApart(g: Geo, v: Volume, c: nat, es: seq<Entry>) {
    && (forall p: nat :: Owner(es, p) ==> Owns(g, v, c, es[p]))
    && (forall p: nat, q: nat :: Owner(es, p) && Owner(es, q) && p != q ==> EntryClust(es[p]) != EntryClust(es[q]))
  }

  /** n is found, and at an entry that stands for a file of this directory. */
  ghost predicate Named(es: seq<Entry>, n: seq<byte>)
    requires WellFormed(es, 0)
  {
    Lookup(es, 0, n).Record? && Owner(es, Lookup(es, 0, n).at)
  }

  /** No name leads to "." or "..": neither has a long name, and no made-up short name begins with a dot. */
  ghost predicate AllNamed(es: seq<Entry>)
    requires WellFormed(es, 0)
  {
    forall n :: Lookup(es, 0, n).Record? ==> Named(es, n)
  }

  /** A sound volume on which the directory that starts at c, with the clusters cs, is in order. */
  ghost predicate Tidy(g: Geo, v: Volume, c: nat, cs: seq<nat>) {
    && ChainOn(g, v, c, cs) && OnMedium(g, v, cs) && AllocOk(Tab(g, v)) && IsHead(Tab(g, v), c)
    && WellFormed(Dirents(g, v, cs), 0) && Once(Dirents(g, v, cs), 0) && AllNamed(Dirents(g, v, cs))
    && OwnersApart(g, v, c, Dirents(g, v, cs))
  }

  /** The names of the directory and what they stand for. */
  ghost function Contents(g: Geo, v: Volume, c: nat, cs: seq<nat>): (m: Catalogue)
    requires Tidy(g, v, c, cs)
  {
    var es := Dirents(g, v, cs);
    imap n | Named(es, n) :: StoredAt(g, v, c, es[Lookup(es, 0, n).at])
  }

  lemma ContentsAt(g: Geo, v: Volume, c: nat, cs: seq<nat>, n: seq<byte>)
    requires Tidy(g, v, c, cs)
    ensures var es, m := Dirents(g, v, cs), Contents(g, v, c, cs);
      && (n in m <==> Named(es, n)) && (n in m <==> Lookup(es, 0, n).Record?)
      && (n in m ==>
            var e := es[Lookup(es, 0, n).at];
            Owns(g, v, c, e) && m[n] == StoredAt(g, v, c, e) && m[n].start == EntryClust(e))
  {
    hide ChainOn, OnMedium, AllocOk, Tab, IsHead, WellFormed, Once, Dirents, Lookup, EntryClust;
  }

  /** What others do does not change what an entry stands for. */
  lemma OwnsStill(g: Geo, v: Volume, w: Volume, c: nat, e: Entry)
    requires Owns(g, v, c, e) && Undisturbed(g, v, w, EntryClust(e), ChainFrom(Tab(g, v), EntryClust(e)))
    ensures Owns(g, w, c, e) && StoredAt(g, w, c, e) == StoredAt(g, v, c, e)
  {
    hide IsHead, IsChain, EntryClust, EntrySize, Allocated, ClustersOk, ChainFrom;
    ChainFromIs(Tab(g, w), EntryClust(e), ChainFrom(Tab(g, v), EntryClust(e)));
  }

  // ---------------------------------------------------------------- creating

  lemma SfnNotDotted(name: seq<byte>, e: Entry)
    requires e[..11] == SfnOf(name)
    ensures !Dotted(e)
  {
    assert e[0] == SfnOf(name)[0] == SfnAt(name, 0);
  }

  /** What creating a file in the directory comes to: a record for the name, a new chain d, nothing else changed. */
  ghost predicate FileMade(g: Geo, v: Volume, w: Volume, c: nat, cs: seq<nat>, all: seq<nat>, s: nat, eod: bool,
                           name: seq<byte>, d: nat) {
    && OnMedium(g, v, cs) && ChainOn(g, w, c, all) && OnMedium(g, w, all) && AllocOk(Tab(g, w)) && IsHead(Tab(g, w), c)
    && OthersKept(g, v, w, {c}, {})
    && d < g.clustCnt && d != c && Tab(g, v)[d] == 0 && IsHead(Tab(g, w), d) && IsChain(Tab(g, w), d, [d])
    && var es, es' := Dirents(g, v, cs), Dirents(g, w, all);
      && GoodSlot(es, s, eod, RunLen(name)) && Added(es, es', s, eod, name)
      && EntryClust(es'[s + RunLen(name) - 1]) == d && EntrySize(es'[s + RunLen(name) - 1]) == 0
  }

  /** The entries in use of the directory with the new name: those there were, and the new one. */
  lemma MadeApart(g: Geo, v: Volume, w: Volume, c: nat, cs: seq<nat>, all: seq<nat>, s: nat, eod: bool,
                  name: seq<byte>, d: nat)
    requires Tidy(g, v, c, cs) && PlainName(name) && FileMade(g, v, w, c, cs, all, s, eod, name, d)
    ensures OwnersApart(g, w, c, Dirents(g, w, all)) && s + RunLen(name) <= |Dirents(g, w, all)|
    ensures StandsFor(g, w, c, Dirents(g, w, all)[s + RunLen(name) - 1], Stored(d, []))
    ensures OwnersStill(g, v, w, c, Dirents(g, v, cs), d)
  {
    hide Tab, AllocOk, IsHead, IsChain, Dirents, WellFormed, Once, GoodSlot, Added, PlainName, EntryClust, EntrySize,
      Owns, Allocated;
    var es, es', m := Dirents(g, v, cs), Dirents(g, w, all), s + RunLen(name) - 1;
    MadeEntry(es, es', s, eod, name);
    NewOwns(g, w, c, es'[m], d);
    forall p: nat | Owner(es, p) ensures EntryClust(es[p]) != d && StillOwns(g, v, w, c, es[p]) {
      OwnerKept(g, v, w, c, es[p], d);
    }
    forall p: nat | Owner(es', p) ensures p == m || (Owner(es, p) && es'[p] == es[p]) {
      AddedLive(es, es', s, eod, name, p);
    }
  }

  ghost predicate StandsFor(g: Geo, v: Volume, c: nat, e: Entry, x: Stored) {
    Owns(g, v, c, e) && StoredAt(g, v, c, e) == x
  }

  /** So does every entry in use, and none of them starts at d. */
  ghost predicate OwnersStill(g: Geo, v: Volume, w: Volume, c: nat, es: seq<Entry>, d: nat) {
    forall p: nat :: Owner(es, p) ==> EntryClust(es[p]) != d && StillOwns(g, v, w, c, es[p])
  }

  /** The entry e stands for the same in both. */
  ghost predicate StillOwns(g: Geo, v: Volume, w: Volume, c: nat, e: Entry) {
    Owns(g, v, c, e) && Owns(g, w, c, e) && StoredAt(g, w, c, e) == StoredAt(g, v, c, e)
  }

  lemma OwnerKept(g: Geo, v: Volume, w: Volume, c: nat, e: Entry, d: nat)
    requires Owns(g, v, c, e) && OthersKept(g, v, w, {c}, {}) && d < g.clustCnt && Tab(g, v)[d] == 0
    ensures EntryClust(e) != d && StillOwns(g, v, w, c, e)
  {
    hide Tab, IsHead, EntryClust, EntrySize, Allocated, Undisturbed;
    var x := EntryClust(e);
    var xs := ChainFrom(Tab(g, v), x);
    InUse(Tab(g, v), x, xs);
    OwnsStill(g, v, w, c, e);
  }

  lemma NewOwns(g: Geo, w: Volume, c: nat, e: Entry, d: nat)
    requires DataOk(g, |w|) && EntryClust(e) == d && EntrySize(e) == 0 && d != c
    requires IsHead(Tab(g, w), d) && IsChain(Tab(g, w), d, [d])
    ensures StandsFor(g, w, c, e, Stored(d, []))
  {
    hide IsHead, IsChain, EntryClust, Allocated;
    ChainFromIs(Tab(g, w), d, [d]);
  }

  /** Creating a file adds its name, with no bytes, and changes nothing else. */
  lemma CreatedContents(g: Geo, v: Volume, w: Volume, c: nat, cs: seq<nat>, all: seq<nat>, s: nat, eod: bool,
                        name: seq<byte>, d: nat)
    requires Tidy(g, v, c, cs) && PlainName(name) && FileMade(g, v, w, c, cs, all, s, eod, name, d)
    requires Lookup(Dirents(g, v, cs), 0, name).Miss?
    ensures Tidy(g, w, c, all) && name !in Contents(g, v, c, cs)
    ensures Contents(g, w, c, all) == Contents(g, v, c, cs)[name := Stored(d, [])]
    ensures forall n :: n in Contents(g, v, c, cs) ==> Contents(g, v, c, cs)[n].start != d
  {
    hide Tab, AllocOk, IsHead, IsChain, Dirents, WellFormed, Once, GoodSlot, Added, PlainName, EntryClust, EntrySize,
      Owns, Allocated, OwnersApart, Owner, Lookup, RunLen, ChainOn, OnMedium, OthersKept, Contents, StoredAt;
    var es, es' := Dirents(g, v, cs), Dirents(g, w, all);
    AddedLookups(es, es', s, eod, name);
    AddedOnce(es, es', 0, s, eod, name);
    MadeApart(g, v, w, c, cs, all, s, eod, name, d);
    forall n | Lookup(es', 0, n).Record? ensures Named(es', n) {
      MadeNamed(es, es', s, eod, name, n);
    }
    var m, m' := Contents(g, v, c, cs), Contents(g, w, c, all);
    ContentsAt(g, v, c, cs, name);
    forall n
      ensures n in m ==> m[n].start != d
      ensures n in m' <==> n == name || n in m
      ensures n in m' ==> m'[n] == if n == name then Stored(d, []) else m[n]
    {
      ContentsAt(g, v, c, cs, n);
      ContentsAt(g, w, c, all, n);
      MadeNamed(es, es', s, eod, name, n);
    }
  }

  /** Name by name. */
  lemma MadeNamed(es: seq<Entry>, es': seq<Entry>, s: nat, eod: bool, name: seq<byte>, n: seq<byte>)
    requires WellFormed(es, 0) && Lookup(es, 0, name).Miss? && PlainName(name)
    requires GoodSlot(es, s, eod, RunLen(name)) && Added(es, es', s, eod, name)
    ensures WellFormed(es', 0) && Named(es', name) && Lookup(es', 0, name).at == s + RunLen(name) - 1
    ensures n != name ==> Lookup(es', 0, n) == Lookup(es, 0, n) && (Named(es', n) <==> Named(es, n))
    ensures n != name && Named(es, n) ==>
              Lookup(es, 0, n).at < |es'| && es'[Lookup(es, 0, n).at] == es[Lookup(es, 0, n).at]
  {
    hide WellFormed, Lookup, GoodSlot, Added, PlainName, Live;
    AddedLookups(es, es', s, eod, name);
    LookupLive(es', 0, name);
    MadeEntry(es, es', s, eod, name);
    if n != name && Lookup(es, 0, n).Record? {
      LookupLive(es, 0, n);
      LookupLive(es', 0, n);
      var p := Lookup(es, 0, n).at;
      if s <= p < s + RunLen(name) {
        SlotNotLive(es, s, eod, RunLen(name), p);
      }
      AddedLive(es, es', s, eod, name, p);
    }
  }

  lemma MadeEntry(es: seq<Entry>, es': seq<Entry>, s: nat, eod: bool, name: seq<byte>)
    requires Added(es, es', s, eod, name)
    ensures s + RunLen(name) <= |es'| && !Dotted(es'[s + RunLen(name) - 1])
  {
    var run := es'[s..s + RunLen(name)];
    SfnNotDotted(name, run[|run| - 1]);
  }

  // ---------------------------------------------------------------- deleting

  /** What is left of the names when those of the file that starts at x are gone. */
  ghost function Without(m: Catalogue, x: nat): Catalogue {
    imap n | n in m && m[n].start != x :: m[n]
  }

  /** Deleting a file takes its name and the names that are the same record, and changes nothing else. */
  lemma DeletedContents(g: Geo, v: Volume, w: Volume, c: nat, cs: seq<nat>, name: seq<byte>, ds: seq<nat>)
    requires Tidy(g, v, c, cs) && name in Contents(g, v, c, cs) && ChainOn(g, w, c, cs)
    requires |ds| > 0 && ds[0] == Contents(g, v, c, cs)[name].start
    requires NameUnlinked(g, v, w, c, cs, name, ds) && AllocOk(Tab(g, w)) && IsHead(Tab(g, w), c)
    requires OthersKept(g, v, w, {c, ds[0]}, {})
    ensures Tidy(g, w, c, cs) && Contents(g, w, c, cs) == Without(Contents(g, v, c, cs), ds[0])
  {
    hide Tab, AllocOk, IsHead, IsChain, Dirents, WellFormed, Once, EntryClust, EntrySize, Owns, Allocated, OwnersApart,
      Owner, Lookup, ChainOn, ClustersOk, OthersKept, Contents, StoredAt, Removed, AllFoundAfterRemove;
    var es, es', x := Dirents(g, v, cs), Dirents(g, w, cs), ds[0];
    ContentsAt(g, v, c, cs, name);
    RemovedOnce(es, es', 0, name);
    GoneApart(g, v, w, c, es, es', name);
    forall n | Lookup(es', 0, n).Record? ensures Named(es', n) {
      GoneNamed(g, v, c, es, es', name, n);
    }
    var m, m' := Contents(g, v, c, cs), Contents(g, w, c, cs);
    forall n
      ensures n in m' <==> n in m && m[n].start != x
      ensures n in m' ==> m'[n] == m[n]
    {
      ContentsAt(g, v, c, cs, n);
      ContentsAt(g, w, c, cs, n);
      GoneNamed(g, v, c, es, es', name, n);
    }
  }

  /** The entries in use after the record of name is removed. */
  lemma GoneApart(g: Geo, v: Volume, w: Volume, c: nat, es: seq<Entry>, es': seq<Entry>, name: seq<byte>)
    requires DataOk(g, |v|) && WellFormed(es, 0) && Named(es, name) && OwnersApart(g, v, c, es)
    requires Removed(es, es', Lookup(es, 0, name).loc, Lookup(es, 0, name).at)
    requires OthersKept(g, v, w, {c, EntryClust(es[Lookup(es, 0, name).at])}, {})
    ensures OwnersApart(g, w, c, es')
    ensures forall p: nat :: Owner(es', p) ==> Owner(es, p) && es'[p] == es[p] && StillOwns(g, v, w, c, es[p])
    ensures !Owner(es', Lookup(es, 0, name).at)
  {
    hide Tab, IsHead, IsChain, WellFormed, EntryClust, EntrySize, Owns, Allocated, Lookup, OthersKept, StoredAt,
      Removed, StillOwns, NoMarkBefore;
    NoMarkAtStart(es);
    var r := Lookup(es, 0, name);
    var d := EntryClust(es[r.at]);
    LookupLive(es, 0, name);
    forall p: nat | Owner(es', p)
      ensures p != r.at && Owner(es, p) && es'[p] == es[p] && StillOwns(g, v, w, c, es[p])
    {
      RemovedLive(es, es', r.loc, r.at, p);
      OwnerKeptBut(g, v, w, c, es[p], d);
    }
    StillApart(g, v, w, c, es, es');
  }

  lemma NoMarkAtStart(es: seq<Entry>)
    ensures NoMarkBefore(es, 0)
  {
  }

  lemma StillApart(g: Geo, v: Volume, w: Volume, c: nat, es: seq<Entry>, es': seq<Entry>)
    requires OwnersApart(g, v, c, es)
    requires forall p: nat :: Owner(es', p) ==> Owner(es, p) && es'[p] == es[p] && StillOwns(g, v, w, c, es[p])
    ensures OwnersApart(g, w, c, es')
  {
    hide Owns, EntryClust, StoredAt, Live;
  }

  lemma OwnerKeptBut(g: Geo, v: Volume, w: Volume, c: nat, e: Entry, d: nat)
    requires Owns(g, v, c, e) && OthersKept(g, v, w, {c, d}, {}) && EntryClust(e) != d
    ensures StillOwns(g, v, w, c, e)
  {
    hide Tab, IsHead, EntryClust, EntrySize, Allocated, Undisturbed;
    var x := EntryClust(e);
    var xs := ChainFrom(Tab(g, v), x);
    OwnsStill(g, v, w, c, e);
  }

  /** Name by name. */
  lemma GoneNamed(g: Geo, v: Volume, c: nat, es: seq<Entry>, es': seq<Entry>, name: seq<byte>, n: seq<byte>)
    requires WellFormed(es, 0) && Once(es, 0) && Named(es, name) && OwnersApart(g, v, c, es)
    requires Removed(es, es', Lookup(es, 0, name).loc, Lookup(es, 0, name).at)
    requires !Owner(es', Lookup(es, 0, name).at)
    requires forall p: nat :: Owner(es', p) ==> Owner(es, p) && es'[p] == es[p]
    ensures WellFormed(es', 0)
    ensures Named(es', n) <==>
              Named(es, n) && EntryClust(es[Lookup(es, 0, n).at]) != EntryClust(es[Lookup(es, 0, name).at])
    ensures Named(es', n) ==> Lookup(es', 0, n) == Lookup(es, 0, n)
    ensures Lookup(es', 0, n).Record? ==> Lookup(es, 0, n).Record? && (Named(es, n) ==> Named(es', n))
  {
    hide WellFormed, Lookup, Removed, Live, Once, EntryClust, Owns;
    var r, rn := Lookup(es, 0, name), Lookup(es, 0, n);
    RemovedLookup(es, es', 0, name, n);
    LookupEnd(es, 0, name);
    if rn.Record? {
      LookupEnd(es, 0, n);
      FoundOnce(es, 0, n);
      LookupLive(es, 0, n);
      LookupLive(es, 0, name);
      if rn.loc != r.loc {
        LookupLive(es', 0, n);
        RemovedLive(es, es', r.loc, r.at, rn.at);
      }
    }
  }

  // ---------------------------------------------------------------- using

  /** The names when the file that starts at x has new bytes. */
  ghost function With(m: Catalogue, x: nat, content: seq<byte>): Catalogue {
    imap n | n in m :: if m[n].start == x then Stored(x, content) else m[n]
  }

  /** Equal bytes are equal entries. */
  lemma SameBytesSameEntries(g: Geo, v: Volume, w: Volume, cs: seq<nat>)
    requires OnMedium(g, v, cs) && OnMedium(g, w, cs) && Allocated(g, v, cs) == Allocated(g, w, cs)
    ensures Dirents(g, v, cs) == Dirents(g, w, cs)
  {
    hide ChainSect, EntryOf, Allocated;
    forall p | 0 <= p < EntryCnt(g, cs) ensures Dirent(g, v, cs, p) == Dirent(g, w, cs, p) {
      SectorOfBytes(g, v, cs, p / PER_SECTOR);
      SectorOfBytes(g, w, cs, p / PER_SECTOR);
    }
  }

  /** The file of the entry at p of the directory, with the clusters xs, has been worked on and synced: it has the
      clusters all and the bytes content now. */
  ghost predicate FileSynced(g: Geo, v: Volume, w: Volume, c: nat, cs: seq<nat>, p: nat, xs: seq<nat>, all: seq<nat>,
                             content: seq<byte>) {
    && OnMedium(g, v, cs) && p < EntryCnt(g, cs)
    && var d := ChainSect(g, cs, p / PER_SECTOR);
      && Worked(g, v, w, xs, all, d, p % PER_SECTOR) && CardHolds(g, w, all, d, p % PER_SECTOR, content)
      && IsChain(Tab(g, v), EntryClust(Dirents(g, v, cs)[p]), xs)
  }

  /** The directory itself: the one entry is new. */
  lemma SyncedEntries(g: Geo, v: Volume, w: Volume, c: nat, cs: seq<nat>, p: nat, x: nat, xs: seq<nat>, all: seq<nat>)
    requires ChainOn(g, v, c, cs) && OnMedium(g, v, cs) && p < EntryCnt(g, cs) && TwoHeads(Tab(g, v), x, xs, c, cs)
    requires Worked(g, v, w, xs, all, ChainSect(g, cs, p / PER_SECTOR), p % PER_SECTOR)
    requires ChainOn(g, w, x, all) && OnMedium(g, w, all)
    ensures ChainOn(g, w, c, cs) && OnMedium(g, w, cs) && AllocOk(Tab(g, w)) && IsHead(Tab(g, w), c)
    ensures IsHead(Tab(g, w), x)
    ensures Dirents(g, w, cs) == Dirents(g, v, cs)[p := EntryOf(w[ChainSect(g, cs, p / PER_SECTOR)], p % PER_SECTOR)]
  {
    hide Tab, AllocOk, IsHead, IsChain, Grown, Allocated, EntryClust, EntrySize, EntryOf, PutEntryIn, ClustersOk,
      ChainSect, TwoHeads, Dirents, SameName;
    var d, i := ChainSect(g, cs, p / PER_SECTOR), p % PER_SECTOR;
    var e := EntryOf(w[d], i);
    var u := v[d := w[d]];
    PutDirentIs(g, v, cs, p, e);
    DirentsPut(g, v, c, cs, p, e);
    DataKeepsTables(g, v, u);
    GrownKeepsOthers(g, u, w, x, xs, all, c, cs);
    SameBytesSameEntries(g, u, w, cs);
  }

  lemma PutDirentIs(g: Geo, v: Volume, cs: seq<nat>, p: nat, e: Entry)
    requires OnMedium(g, v, cs) && p < EntryCnt(g, cs)
    ensures var d := ChainSect(g, cs, p / PER_SECTOR);
      g.dataSect <= d < |v| && PutDirent(g, v, cs, p, e) == v[d := PutEntryIn(v[d], p % PER_SECTOR, e)]
  {
    hide ChainSect, PutEntryIn;
    ChainSectIn(g, |v|, cs, p / PER_SECTOR);
  }

  /** What the entry worked on stands for. */
  lemma SyncedOne(g: Geo, w: Volume, c: nat, all: seq<nat>, d: nat, i: nat, content: seq<byte>)
    requires CardHolds(g, w, all, d, i, content) && c != EntryClust(EntryOf(w[d], i))
    requires IsHead(Tab(g, w), EntryClust(EntryOf(w[d], i)))
    ensures StandsFor(g, w, c, EntryOf(w[d], i), Stored(EntryClust(EntryOf(w[d], i)), content))
  {
    hide IsHead, IsChain, EntryClust, EntrySize, EntryOf, Allocated, ClustersOk;
    ChainFromIs(Tab(g, w), EntryClust(EntryOf(w[d], i)), all);
  }

  /** What any other entry stands for. */
  lemma OtherOwns(g: Geo, v: Volume, w: Volume, c: nat, cs: seq<nat>, p: nat, x: nat, xs: seq<nat>, all: seq<nat>,
                  e: Entry)
    requires ChainOn(g, v, c, cs) && OnMedium(g, v, cs) && p < EntryCnt(g, cs) && TwoHeads(Tab(g, v), x, xs, c, cs)
    requires Worked(g, v, w, xs, all, ChainSect(g, cs, p / PER_SECTOR), p % PER_SECTOR)
    requires ChainOn(g, w, x, all) && OnMedium(g, w, all) && Owns(g, v, c, e) && EntryClust(e) != x
    ensures StillOwns(g, v, w, c, e)
  {
    hide Tab, AllocOk, IsHead, IsChain, Worked, Undisturbed, EntryClust, EntrySize, ClustersOk, ChainSect, Allocated,
      ChainFrom, Disjoint;
    var y := EntryClust(e);
    var ys := ChainFrom(Tab(g, v), y);
    HeadsDisjoint(Tab(g, v), c, cs, y, ys);
    ChainSectIn(g, |v|, cs, p / PER_SECTOR);
    InOne(cs, ys, ClustOf(g, ChainSect(g, cs, p / PER_SECTOR)));
    WorkKeepsOthers(g, v, w, x, xs, all, ChainSect(g, cs, p / PER_SECTOR), p % PER_SECTOR, y, ys);
    OwnsStill(g, v, w, c, e);
  }

  lemma InOne(cs: seq<nat>, ys: seq<nat>, e: nat)
    requires Disjoint(cs, ys) && e in cs
    ensures e !in ys
  {
  }

  lemma NameRenewed(es: seq<Entry>, es': seq<Entry>, p: nat)
    requires p < |es| && Live(es, p) && |es'| == |es| && es' == es[p := es'[p]] && SameName(es[p], es'[p])
    ensures Renewed(es, es') && forall q: nat :: Owner(es', q) <==> Owner(es, q)
  {
    hide EntryClust, Live;
    OwnerParts(es, p);
    assert Renewed(es, es');
    hide SameShort, Renewed, SameName;
    forall q: nat ensures Owner(es', q) <==> Owner(es, q) {
      RenewedLive(es, es', q);
      if Live(es, q) {
        OwnerParts(es, q);
        SameDots(es, es', q);
      }
    }
  }

  lemma OwnerParts(es: seq<Entry>, p: nat)
    requires Live(es, p)
    ensures p < |es| && !IsFree(es[p]) && !IsLfn(es[p])
  {
  }

  lemma SameDots(es: seq<Entry>, es': seq<Entry>, q: nat)
    requires Renewed(es, es') && q < |es|
    ensures q < |es'| && (Dotted(es[q]) <==> Dotted(es'[q]))
  {
    SameShortMeans(es[q], es'[q]);
  }

  /** Where the entry e was, the entry f is now: that of the file that starts at x is new. */
  ghost predicate SyncedOwner(g: Geo, v: Volume, w: Volume, c: nat, e: Entry, f: Entry, x: nat, content: seq<byte>) {
    if EntryClust(e) == x then EntryClust(f) == x && StandsFor(g, w, c, f, Stored(x, content))
    else f == e && StillOwns(g, v, w, c, e)
  }

  ghost predicate OwnersSynced(g: Geo, v: Volume, w: Volume, c: nat, es: seq<Entry>, es': seq<Entry>, x: nat,
                               content: seq<byte>) {
    && |es| == |es'| && (forall q: nat :: Owner(es', q) <==> Owner(es, q))
    && forall q: nat :: Owner(es, q) ==> SyncedOwner(g, v, w, c, es[q], es'[q], x, content)
  }

  lemma SyncedStillApart(g: Geo, v: Volume, w: Volume, c: nat, es: seq<Entry>, es': seq<Entry>, x: nat,
                         content: seq<byte>)
    requires OwnersApart(g, v, c, es) && OwnersSynced(g, v, w, c, es, es', x, content)
    ensures OwnersApart(g, w, c, es')
  {
    hide Owns, EntryClust, StoredAt, NoMarkBefore, SyncedOwner;
    forall q: nat | Owner(es', q) ensures Owns(g, w, c, es'[q]) && EntryClust(es'[q]) == EntryClust(es[q]) {
      SyncedOwnerMeans(g, v, w, c, es[q], es'[q], x, content);
    }
  }

  lemma SyncedOwnerMeans(g: Geo, v: Volume, w: Volume, c: nat, e: Entry, f: Entry, x: nat, content: seq<byte>)
    requires SyncedOwner(g, v, w, c, e, f, x, content)
    ensures Owns(g, w, c, f) && EntryClust(f) == EntryClust(e)
    ensures EntryClust(e) == x ==> StoredAt(g, w, c, f) == Stored(x, content)
    ensures EntryClust(e) != x ==> Owns(g, v, c, e) && StoredAt(g, w, c, f) == StoredAt(g, v, c, e)
  {
    hide Owns, EntryClust, StoredAt;
  }

  /** Entry by entry. */
  lemma SyncedApart(g: Geo, v: Volume, w: Volume, c: nat, cs: seq<nat>, p: nat, xs: seq<nat>, all: seq<nat>,
                    content: seq<byte>)
    requires Tidy(g, v, c, cs) && FileSynced(g, v, w, c, cs, p, xs, all, content) && Owner(Dirents(g, v, cs), p)
    ensures ChainOn(g, w, c, cs) && OnMedium(g, w, cs) && AllocOk(Tab(g, w)) && IsHead(Tab(g, w), c)
    ensures Renewed(Dirents(g, v, cs), Dirents(g, w, cs))
    ensures OwnersSynced(g, v, w, c, Dirents(g, v, cs), Dirents(g, w, cs), EntryClust(Dirents(g, v, cs)[p]), content)
  {
    hide Tab, AllocOk, IsHead, IsChain, Dirents, WellFormed, Once, EntryClust, EntrySize, EntryOf, Allocated,
      ClustersOk, ChainSect, StoredAt, Grown, PutEntryIn, StillOwns, Renewed, SameName, StandsFor, CardHolds,
      NoMarkBefore, ChainFrom, Owns, Worked, TwoHeads;
    var es := Dirents(g, v, cs);
    var d, i, x := ChainSect(g, cs, p / PER_SECTOR), p % PER_SECTOR, EntryClust(es[p]);
    FileHeads(g, v, w, c, cs, p, xs, all, content);
    SyncedEntries(g, v, w, c, cs, p, x, xs, all);
    var es' := Dirents(g, w, cs);
    PlaceOf(g, v, cs, p);
    WorkedNamed(g, v, w, xs, all, d, i);
    NameRenewed(es, es', p);
    SyncedOne(g, w, c, all, d, i, content);
    forall q: nat | Owner(es, q) ensures SyncedOwner(g, v, w, c, es[q], es'[q], x, content) {
      if q != p {
        OtherOwns(g, v, w, c, cs, p, x, xs, all, es[q]);
      }
    }
  }

  lemma PlaceOf(g: Geo, v: Volume, cs: seq<nat>, p: nat)
    requires OnMedium(g, v, cs) && p < EntryCnt(g, cs)
    ensures ChainSect(g, cs, p / PER_SECTOR) < |v|
    ensures Dirents(g, v, cs)[p] == EntryOf(v[ChainSect(g, cs, p / PER_SECTOR)], p % PER_SECTOR)
  {
    hide ChainSect, EntryOf;
    ChainSectIn(g, |v|, cs, p / PER_SECTOR);
  }

  lemma WorkedNamed(g: Geo, v: Volume, w: Volume, xs: seq<nat>, all: seq<nat>, d: nat, i: nat)
    requires Worked(g, v, w, xs, all, d, i)
    ensures d < |v| == |w| && i < PER_SECTOR && SameName(EntryOf(v[d], i), EntryOf(w[d], i))
    ensures EntryClust(EntryOf(w[d], i)) == EntryClust(EntryOf(v[d], i))
  {
    hide Grown, EntryOf, PutEntryIn, EntryClust;
  }

  lemma FileHeads(g: Geo, v: Volume, w: Volume, c: nat, cs: seq<nat>, p: nat, xs: seq<nat>, all: seq<nat>,
                  content: seq<byte>)
    requires Tidy(g, v, c, cs) && FileSynced(g, v, w, c, cs, p, xs, all, content) && Owner(Dirents(g, v, cs), p)
    ensures var x := EntryClust(Dirents(g, v, cs)[p]);
      && x != c && TwoHeads(Tab(g, v), x, xs, c, cs) && ChainOn(g, w, x, all) && OnMedium(g, w, all)
  {
  }

  /** Work on a file, synced at the end, gives its names the new bytes, and changes nothing else. */
  lemma SyncedContents(g: Geo, v: Volume, w: Volume, c: nat, cs: seq<nat>, name: seq<byte>, xs: seq<nat>, all: seq<nat>,
                       content: seq<byte>)
    requires Tidy(g, v, c, cs) && name in Contents(g, v, c, cs)
    requires FileSynced(g, v, w, c, cs, Lookup(Dirents(g, v, cs), 0, name).at, xs, all, content)
    ensures Tidy(g, w, c, cs)
    ensures Contents(g, w, c, cs) == With(Contents(g, v, c, cs), Contents(g, v, c, cs)[name].start, content)
  {
    hide Tab, AllocOk, IsHead, IsChain, Dirents, WellFormed, Once, EntryClust, EntrySize, Owns, Allocated, OwnersApart,
      NoMarkBefore, Lookup, ChainOn, ClustersOk, Contents, StoredAt, FileSynced, StillOwns, Renewed, SyncedOwner;
    var es := Dirents(g, v, cs);
    ContentsAt(g, v, c, cs, name);
    var p, x := Lookup(es, 0, name).at, Contents(g, v, c, cs)[name].start;
    SyncedApart(g, v, w, c, cs, p, xs, all, content);
    var es' := Dirents(g, w, cs);
    RenewedLookup(es, es', 0, name);
    RenewedOnce(es, es', 0);
    forall n | Lookup(es', 0, n).Record? ensures Named(es', n) {
      RenewedLookup(es, es', 0, n);
      assert Named(es, n);
    }
    SyncedStillApart(g, v, w, c, es, es', x, content);
    var m, m' := Contents(g, v, c, cs), Contents(g, w, c, cs);
    forall n
      ensures n in m' <==> n in m
      ensures n in m' ==> m'[n] == if m[n].start == x then Stored(x, content) else m[n]
    {
      ContentsAt(g, v, c, cs, n);
      ContentsAt(g, w, c, cs, n);
      RenewedLookup(es, es', 0, n);
      if n in m {
        var q := Lookup(es, 0, n).at;
        SyncedOwnerMeans(g, v, w, c, es[q], es'[q], x, content);
      }
    }
  }

  /** What the card holds between the two steps of a deletion: the name is found as before, but where its file starts
      there is a free cluster, which the allocator may hand out next. */
  lemma CutWhileUnlinking(g: Geo, v: Volume, w: Volume, c: nat, cs: seq<nat>, name: seq<byte>, ds: seq<nat>)
    requires Tidy(g, v, c, cs) && name in Contents(g, v, c, cs) && |ds| > 0
    requires ds[0] == Contents(g, v, c, cs)[name].start && ClustersFreed(g, v, w, c, cs, ds[0], ds)
    ensures WellFormed(Dirents(g, w, cs), 0)
    ensures var r := Lookup(Dirents(g, w, cs), 0, name);
      && r == Lookup(Dirents(g, v, cs), 0, name) && r.Record? && r.at < |Dirents(g, w, cs)|
      && EntryClust(Dirents(g, w, cs)[r.at]) == ds[0]
    ensures 2 <= ds[0] < g.clustCnt && Tab(g, w)[ds[0]] == 0 && !HasChain(Tab(g, w), ds[0]) && !Tidy(g, w, c, cs)
    ensures forall last :: 2 <= last < g.clustCnt && last != ds[0] && NextClust(last, g.clustCnt) == ds[0] ==>
              Choose(Tab(g, w), last, 0) == Found(ds[0])
  {
    hide Tab, AllocOk, Dirents, WellFormed, Once, OwnersApart, AllNamed, Lookup, EntryClust, EntrySize, Contents,
      OtherChainsKept, Mirrored, NoMarkBefore;
    ContentsAt(g, v, c, cs, name);
    assert Tab(g, w)[ds[0]] == 0;
    NoChainOfFree(Tab(g, w), ds[0]);
    if Tidy(g, w, c, cs) {
      ContentsAt(g, w, c, cs, name);
    }
  }

  lemma NoChainOfFree(t: Table, x: nat)
    requires 2 < |t| <= LINK_LIMIT && x < |t| && t[x] == 0
    ensures !HasChain(t, x)
  {
    if xs :| IsChain(t, x, xs) {
      InUse(t, x, xs);
    }
  }

  /** An empty directory has no names. */
  lemma EmptyContents(g: Geo, v: Volume, c: nat, cs: seq<nat>)
    requires ChainOn(g, v, c, cs) && OnMedium(g, v, cs) && AllocOk(Tab(g, v)) && IsHead(Tab(g, v), c)
    requires |Dirents(g, v, cs)| > 0 && IsLastMark(Dirents(g, v, cs)[0])
    ensures Tidy(g, v, c, cs) && Contents(g, v, c, cs) == imap[]
  {
    hide Tab, AllocOk, IsHead, Dirents, ChainOn, OnMedium, GoodRun;
    var es := Dirents(g, v, cs);
    assert forall p: nat :: !Live(es, p);
  }
}
