/** The mounted volume: a one-sector write-back cache, the two mirrored tables and the cluster allocator. */
module FatVolume {
  import opened Bytes
  import opened Chain
  import opened Layout
  import opened Sparing

  const ERR_NONE := 0
  const ERR_BROKEN := -2
  const ERR_IO := -3
  const ERR_PARAM := -4
  const ERR_PATH := -5
  const ERR_EOF := -6
  const ERR_DENIED := -7
  const ERR_FULL := -8

  const CLUST_FREE := 1
  const CLUST_USED := 2
  const CLUST_LAST := 4
  const CLUST_BAD := 8

  /** The flag word get_fat reports for a kind; there is none for Broken. */
  function FlagsOf(k: Kind): nat {
    match k
    case Free => CLUST_FREE
    case Bad => CLUST_BAD
    case Last => CLUST_USED + CLUST_LAST
    case Used => CLUST_USED
    case Broken => 0
  }

  /** The flag word a scan from last hands back when its probe of c fails. */
  function ProbeWord(t: Table, last: nat, c: nat, stale: nat): nat
    requires 2 <= last < |t| && 2 <= c < |t|
  {
    if c == NextClust(last, |t|) then stale else FlagsOf(KindOf(t[PrevClust(c, |t|)], |t|))
  }

  /** One step of the scan, from c. */
  lemma ScanStep(t: Table, c: nat, last: nat, stale: nat)
    requires 2 <= c < |t| && 2 <= last < |t|
    ensures var d := NextClust(c, |t|);
      && 2 <= d < |t| && (d == NextClust(last, |t|) <==> c == last)
      && Scan(t, c, last) == (if d == last then Taken else if t[d] == 0 then Found(d) else Scan(t, d, last))
      && ProbeWord(t, last, d, stale) == (if c == last then stale else FlagsOf(KindOf(t[c], |t|)))
      && (d != last ==> Distance(d, last, |t|) < Distance(c, last, |t|))
  {
  }

  /** On a sound table no probe of an allocation meets a broken entry. */
  lemma SoundProbes(t: Table, tail: nat, c: nat)
    requires tail < |t| && 2 < |t|
    ensures 2 <= NextClust(tail, |t|) < |t| || tail == 0
    ensures AllocOk(t) && tail != 0 ==> !KindOf(t[NextClust(tail, |t|)], |t|).Broken?
    ensures AllocOk(t) && 2 <= c < |t| ==> !KindOf(t[c], |t|).Broken?
  {
    if AllocOk(t) {
      if tail != 0 {
        AllocNoBroken(t, NextClust(tail, |t|));
      }
      if 2 <= c < |t| {
        AllocNoBroken(t, c);
      }
    }
  }

  predicate BadOrFree(flags: nat) { flags == CLUST_BAD || flags == CLUST_FREE }
  predicate IsLast(flags: nat) { flags == CLUST_USED + CLUST_LAST }

  /** The card behind the read and write callbacks. Any transfer may fail; a failed write leaves the
      card alone, a failed read may leave anything in the caller's buffer. */
  class Disk {
    var sects: Volume
    ghost var trace: seq<Volume>  // the contents after every write so far
    ghost var refused: nat        // how many transfers have failed so far

    constructor (contents: Volume)
      ensures sects == contents && trace == [] && refused == 0
    {
      sects := contents;
      trace, refused := [], 0;
    }

    method Read(s: nat) returns (ok: bool, data: Sector)
      modifies this`refused
      ensures ok ==> s < |sects| && data == sects[s]
      ensures refused == old(refused) + if ok then 0 else 1
    {
      ok := *;
      if ok && s < |sects| {
        data := sects[s];
      } else {
        ok := false;
        data := *;
        refused := refused + 1;
      }
    }

    method Write(s: nat, data: Sector) returns (ok: bool)
      modifies this
      ensures ok ==> s < |old(sects)| && sects == old(sects)[s := data] && trace == old(trace) + [sects]
      ensures !ok ==> sects == old(sects) && trace == old(trace)
      ensures refused == old(refused) + if ok then 0 else 1
    {
      ok := *;
      if ok && s < |sects| {
        sects := sects[s := data];
        trace := trace + [sects];
      } else {
        ok := false;
        refused := refused + 1;
      }
    }
  }

  /** Equal but for the sectors in raw. */
  ghost predicate Agree(a: Volume, b: Volume, raw: iset<nat>) {
    |a| == |b| && forall s :: 0 <= s < |a| && s !in raw ==> a[s] == b[s]
  }

  /** The ghost side of a volume: the states meant so far and which one is on the card, the states of
      the card so far and which meant state each of them is, the sectors written past the cache. */
  datatype Log = Log(hist: seq<Volume>, at: nat, trace: seq<Volume>, marks: seq<nat>, raw: iset<nat>)

  ghost predicate Later(a: Log, b: Log) {
    && a.hist <= b.hist && a.at <= b.at && a.trace <= b.trace && a.marks <= b.marks && a.raw <= b.raw
    && forall i :: |a.marks| <= i < |b.marks| ==> a.at <= b.marks[i]
  }

  lemma LaterRefl(a: Log)
    ensures Later(a, a)
  {
  }

  lemma LaterTrans(a: Log, b: Log, c: Log)
    requires Later(a, b) && Later(b, c)
    ensures Later(a, c)
  {
  }

  /** Prefix order: the card goes through the meant states in order, skipping some but never
      stepping back; the last one is what the volume contains once the buffer is written. */
  ghost predicate Ordered(g: Geo, size: nat, card: Volume, now: Volume, trace: seq<Volume>,
                          hist: seq<Volume>, at: nat, marks: seq<nat>, raw: iset<nat>)
  {
    && at < |hist|
    && Agree(card, hist[at], raw)
    && Agree(now, hist[|hist| - 1], raw)
    && (forall s :: s in raw ==> g.dataSect <= s)
    && (forall i :: 0 <= i < |hist| ==> |hist[i]| == size)
    && |marks| == |trace|
    && (forall i :: 0 <= i < |marks| ==> marks[i] <= at && Agree(trace[i], hist[marks[i]], raw))
    && (forall i, j :: 0 <= i < j < |marks| ==> marks[i] <= marks[j])
  }

  /** A write past the cache shows on the card at once and leaves the order of everything else as it is. */
  lemma OrderedRaw(g: Geo, size: nat, card: Volume, now: Volume, trace: seq<Volume>, hist: seq<Volume>, at: nat,
                   marks: seq<nat>, raw: iset<nat>, s: nat, data: Sector)
    requires Ordered(g, size, card, now, trace, hist, at, marks, raw) && g.dataSect <= s < |card| && |now| == |card|
    ensures Ordered(g, size, card[s := data], now[s := data], trace + [card[s := data]], hist, at, marks + [at],
                    raw + iset{s})
  {
    var trace', marks', raw' := trace + [card[s := data]], marks + [at], raw + iset{s};
    forall i | 0 <= i < |marks'| ensures marks'[i] <= at && Agree(trace'[i], hist[marks'[i]], raw') {
      if i < |marks| {
        assert Agree(trace[i], hist[marks[i]], raw);
      } else {
        assert Agree(card, hist[at], raw);
      }
    }
  }

  /** Writing the buffer back brings the card to the last meant state. */
  lemma OrderedSynced(g: Geo, size: nat, card: Volume, now: Volume, trace: seq<Volume>, hist: seq<Volume>, at: nat,
                      marks: seq<nat>, raw: iset<nat>)
    requires Ordered(g, size, card, now, trace, hist, at, marks, raw)
    ensures Ordered(g, size, now, now, trace + [now], hist, |hist| - 1, marks + [|hist| - 1], raw)
  {
    var trace', marks' := trace + [now], marks + [|hist| - 1];
    forall i | 0 <= i < |marks'| ensures marks'[i] <= |hist| - 1 && Agree(trace'[i], hist[marks'[i]], raw) {
      if i < |marks| {
        assert Agree(trace[i], hist[marks[i]], raw);
      } else {
        assert Agree(now, hist[|hist| - 1], raw);
      }
    }
  }

  lemma LaterSynced(l: Log, now: Volume)
    requires l.at < |l.hist|
    ensures Later(l, Log(l.hist, |l.hist| - 1, l.trace + [now], l.marks + [|l.hist| - 1], l.raw))
  {
  }

  lemma LaterRaw(l: Log, s: nat, card: Volume)
    ensures Later(l, Log(l.hist, l.at, l.trace + [card], l.marks + [l.at], l.raw + iset{s}))
  {
  }

  /** The table state in which freeing c next cannot leave a dangling link, now or in the history. */
  ghost predicate SafeToFree(g: Geo, size: nat, hist: seq<Volume>, k: nat, v: Volume, c: nat)
    requires GeoOk(g, size) && |v| == size
  {
    && AllSafe(g, size, hist, k)
    && NoDangling(Tab(g, v)) && OneLinkEach(Tab(g, v)) && Detached(Tab(g, v), c)
  }

  ghost predicate FreedOne(g: Geo, v: Volume, c: nat, w: Volume)
    requires GeoOk(g, |v|) && c < g.clustCnt
  {
    && OnlyTables(g, v, w) && (Mirrored(g, v) ==> Mirrored(g, w))
    && Tab(g, w) == Tab(g, v)[c := 0]
    && (KindOf(Tab(g, v)[c], g.clustCnt).Used? || KindOf(Tab(g, v)[c], g.clustCnt).Last?)
  }

  /** What a release of the chain of c, with free count f before, amounts to. */
  ghost predicate Released(g: Geo, v: Volume, c: nat, f: u32, w: Volume, f': u32, err: int)
    requires GeoOk(g, |v|) && c < g.clustCnt
  {
    && OnlyTables(g, v, w)
    && (err != ERR_IO && Mirrored(g, v) ==> Mirrored(g, w))
    && (err != ERR_IO ==>
          var e := Erase(Tab(g, v), c);
          Tab(g, w) == e.t && f' == AddWrap(f, e.freed) && (err == ERR_NONE <==> e.ok))
  }

  /** Half way through: what is left to do from c in w is what was to do from c0 in v, less what is done. */
  ghost predicate Releasing(g: Geo, v: Volume, c0: nat, f: u32, w: Volume, c: nat, f': u32)
    requires GeoOk(g, |v|) && c0 < g.clustCnt && c < g.clustCnt
  {
    && OnlyTables(g, v, w) && (Mirrored(g, v) ==> Mirrored(g, w))
    && exists n: nat :: f' == AddWrap(f, n) && Erase(Tab(g, v), c0) == Plus(Erase(Tab(g, w), c), n)
  }

  /** What an allocation amounts to: the cluster the rule chooses becomes the end of the chain of tail. */
  ghost predicate Stretched(g: Geo, v: Volume, last: nat, tail: nat, d: nat, w: Volume)
    requires GeoOk(g, |v|) && 2 <= last < g.clustCnt && tail < g.clustCnt
  {
    && OnlyTables(g, v, w) && (Mirrored(g, v) ==> Mirrored(g, w))
    && Choose(Tab(g, v), last, tail) == Found(d) && d < g.clustCnt
    && Tab(g, w) == Linked(Tab(g, v), tail, d)
  }

  lemma StretchedThenHints(g: Geo, v0: Volume, last: nat, tail: nat, d: nat, v: Volume, w: Volume)
    requires GeoOk(g, |v0|) && 2 <= last < g.clustCnt && tail < g.clustCnt && |v| == |v0|
    requires Stretched(g, v0, last, tail, d, v)
    requires OnlyTables(g, v, w) && Tab(g, w) == Tab(g, v) && (Mirrored(g, v) ==> Mirrored(g, w))
    ensures Stretched(g, v0, last, tail, d, w)
  {
    OnlyTablesTrans(g, v0, v, w);
  }

  lemma ReleaseStart(g: Geo, v: Volume, c: nat, f: u32)
    requires GeoOk(g, |v|) && c < g.clustCnt
    ensures Releasing(g, v, c, f, v, c, f)
  {
    assert f == AddWrap(f, 0) && Erase(Tab(g, v), c) == Plus(Erase(Tab(g, v), c), 0);
  }

  lemma ReleaseStep(g: Geo, v0: Volume, c0: nat, f0: u32, v: Volume, c: nat, f: u32, w: Volume, f': u32, err: int)
    requires GeoOk(g, |v0|) && |v| == |v0| && c0 < g.clustCnt && c < g.clustCnt
    requires Releasing(g, v0, c0, f0, v, c, f) && OnlyTables(g, v, w)
    requires err == ERR_NONE || err == ERR_IO || err == ERR_BROKEN
    requires err == ERR_NONE ==> FreedOne(g, v, c, w) && f' == AddWrap(f, 1)
    requires err == ERR_BROKEN ==> w == v && f' == f && Erase(Tab(g, v), c) == Erased(Tab(g, v), 0, false)
    ensures err != ERR_NONE ==> Released(g, v0, c0, f0, w, f', err)
    ensures err == ERR_NONE && KindOf(Tab(g, v)[c], g.clustCnt).Last? ==> Released(g, v0, c0, f0, w, f', err)
    ensures err == ERR_NONE && KindOf(Tab(g, v)[c], g.clustCnt).Used? ==> Releasing(g, v0, c0, f0, w, Tab(g, v)[c], f')
    ensures err == ERR_NONE ==> TakenCount(Tab(g, w)) < TakenCount(Tab(g, v))
  {
    hide OnlyTables, Mirrored, Tab, AddWrap, TakenUpTo;
    OnlyTablesTrans(g, v0, v, w);
    if err == ERR_NONE {
      var t := Tab(g, v);
      var n: nat :| f == AddWrap(f0, n) && Erase(Tab(g, v0), c0) == Plus(Erase(t, c), n);
      TakenAfterZero(t, c, g.clustCnt);
      AddWrapTwice(f0, n, 1);
      assert KindOf(t[c], g.clustCnt).Used? ==>
               Erase(Tab(g, v0), c0) == Plus(Erase(Tab(g, w), t[c]), n + 1);
    }
  }

  lemma ReleasedThenHints(g: Geo, v0: Volume, c: nat, f: u32, v: Volume, f': u32, w: Volume, err: int)
    requires GeoOk(g, |v0|) && c < g.clustCnt && Released(g, v0, c, f, v, f', ERR_NONE)
    requires OnlyTables(g, v, w) && |v| == |v0| && Tab(g, w) == Tab(g, v) && (Mirrored(g, v) ==> Mirrored(g, w))
    requires err == ERR_NONE || err == ERR_IO
    ensures Released(g, v0, c, f, w, f', err)
  {
    OnlyTablesTrans(g, v0, v, w);
  }

  lemma LaterMeans(a: Log, b: Log)
    requires Later(a, b)
    ensures a.hist <= b.hist && a.at <= b.at && a.raw <= b.raw && |a.marks| <= |b.marks| && a.trace <= b.trace
    ensures forall i :: |a.marks| <= i < |b.marks| ==> a.at <= b.marks[i]
  {
  }

  /** No volume state from index k on has a table entry that links to a free cluster. */
  ghost predicate AllSafe(g: Geo, size: nat, vols: seq<Volume>, k: nat)
    requires GeoOk(g, size)
  {
    forall i :: k <= i < |vols| ==> |vols[i]| == size && NoDangling(Tab(g, vols[i]))
  }

  /** Losing power now, or just after any write from index m of the trace on, leaves a table without a link
      to a free cluster; so do all states meant from index k on. */
  ghost predicate CrashSafe(g: Geo, size: nat, past: Log, card: Volume, k: nat, m: nat)
    requires GeoOk(g, size) && |card| == size
  {
    AllSafe(g, size, past.hist, k) && NoDangling(Tab(g, card)) && AllSafe(g, size, past.trace, m)
  }

  lemma CrashSafeMeans(g: Geo, size: nat, past: Log, card: Volume, k: nat, m: nat)
    requires GeoOk(g, size) && |card| == size && CrashSafe(g, size, past, card, k, m)
    ensures AllSafe(g, size, past.hist, k)
  {
  }

  /** put_fat extends a safe history when both the old and the new table are safe. */
  lemma PutKeepsSafe(g: Geo, size: nat, h: seq<Volume>, h': seq<Volume>, k: nat, v: Volume, clust: nat, val: nat)
    requires GeoOk(g, size) && |v| == size && clust < g.clustCnt && val < NIBBLE
    requires AllSafe(g, size, h, k) && h <= h' <= h + PutSteps(g, v, clust, val)
    requires NoDangling(Tab(g, v)) && NoDangling(Tab(g, v)[clust := val])
    ensures AllSafe(g, size, h', k)
  {
    AfterPutBoth(g, v, clust, val);
    forall i | k <= i < |h'| ensures |h'[i]| == size && NoDangling(Tab(g, h'[i])) {
      if |h| <= i {
        assert h'[i] == PutSteps(g, v, clust, val)[i - |h|];
      }
    }
  }

  /** Zeroes in the place of a table sector, after an entry of it has been changed. */
  lemma ZeroesDangle(g: Geo, v: Volume, w: Volume, clust: nat, val: nat, other: nat, from: nat)
    requires GeoOk(g, |v|) && g.fat1 == 0 && clust < g.clustCnt && val < NIBBLE
    requires g.fat0 + clust / 128 < |v| && w == v[g.fat0 + clust / 128 := ZeroSector()]
    requires 2 <= other < g.clustCnt && other != clust && other / 128 == clust / 128
    requires 2 <= from < g.clustCnt && from / 128 != clust / 128 && Tab(g, v)[from] == other
    ensures var t := Tab(g, PutBoth(g, w, clust, val));
      t[clust] == val && t[other] == 0 && t[from] == other && !NoDangling(t)
  {
    hide Le32, PutBoth, GeoOk, NoDangling;
    SectsInRange(g, |v|, from);
    ZeroCell(w, g.fat0, other);
    AfterPutBoth(g, w, clust, val);
    assert Cell(w, g.fat0, from) == Cell(v, g.fat0, from);
    Dangles(Tab(g, PutBoth(g, w, clust, val)), from);
  }

  lemma Dangles(t: Table, c: nat)
    requires 2 <= c < |t| && 2 <= t[c] < |t| && t[t[c]] == 0
    ensures !NoDangling(t)
  {
  }

  lemma SectsInRange(g: Geo, size: nat, c: nat)
    requires GeoOk(g, size) && c < g.clustCnt
    ensures 0 < g.fat0 + c / 128 < size && g.fat1 + c / 128 < size
  {
  }

  lemma SafeToFreeMeans(g: Geo, size: nat, h: seq<Volume>, k: nat, v: Volume, c: nat)
    requires GeoOk(g, size) && |v| == size && SafeToFree(g, size, h, k, v, c)
    ensures AllSafe(g, size, h, k) && NoDangling(Tab(g, v))
  {
  }

  /** However far a put gets, the table is the old one or has the new entry. */
  lemma AfterAnyPut(g: Geo, v: Volume, w: Volume, clust: nat, val: nat)
    requires GeoOk(g, |v|) && clust < g.clustCnt && val < NIBBLE
    requires w == v || w == PutBoth(g, v, clust, val) || w == PutSteps(g, v, clust, val)[0]
    ensures |w| == |v| && (Tab(g, w) == Tab(g, v) || Tab(g, w) == Tab(g, v)[clust := val])
  {
    hide Tab, GeoOk, PutBoth;
    AfterPutBoth(g, v, clust, val);
    assert PutSteps(g, v, clust, val)[0] in PutSteps(g, v, clust, val);
  }

  /** What a put of 0 for the first cluster of a chain makes of the table and of the history. */
  lemma FreeStep(g: Geo, size: nat, h: seq<Volume>, h': seq<Volume>, k: nat, v: Volume, w: Volume, c: nat, err: int,
                 safe: bool)
    requires GeoOk(g, size) && |v| == size && c < g.clustCnt
    requires KindOf(Tab(g, v)[c], g.clustCnt).Used? || KindOf(Tab(g, v)[c], g.clustCnt).Last?
    requires h <= h' <= h + PutSteps(g, v, c, 0)
    requires if err == ERR_NONE then w == PutBoth(g, v, c, 0) else w == v || w == PutSteps(g, v, c, 0)[0]
    requires safe ==> SafeToFree(g, size, h, k, v, c)
    ensures OnlyTables(g, v, w) && (err == ERR_NONE ==> FreedOne(g, v, c, w))
    ensures Tab(g, w) == Tab(g, v) || Tab(g, w) == Tab(g, v)[c := 0]
    ensures safe ==> AllSafe(g, size, h', k)
    ensures safe && err == ERR_NONE ==> NoDangling(Tab(g, w))
    ensures safe && err == ERR_NONE && KindOf(Tab(g, v)[c], g.clustCnt).Used? ==>
              SafeToFree(g, size, h', k, w, Tab(g, v)[c])
  {
    hide OnlyTables, NoDangling, OneLinkEach, IsHead, Detached, Mirrored, AllSafe, PutBoth, PutCell, PutSteps, Tab,
      GeoOk;
    AfterPutBoth(g, v, c, 0);
    AfterAnyPut(g, v, w, c, 0);
    OnlyTablesRefl(g, v);
    OnlyTablesStep(g, v, c, 0);
    if safe {
      AllSafeTable(g, size, h, k, v);
      FreeHead(Tab(g, v), c);
      PutKeepsSafe(g, size, h, h', k, v, c, 0);
    }
  }

  lemma AllSafeTable(g: Geo, size: nat, h: seq<Volume>, k: nat, v: Volume)
    requires GeoOk(g, size) && |v| == size
    ensures TableOk(Tab(g, v))
  {
  }

  class Fat {
    const dev: Disk
    const g: Geo
    const size: nat
    var lastUsed: u32
    var freeCnt: u32
    var sect: nat
    var buf: Sector
    var bufDirty: bool   // FAT_BUF_DIRTY
    var infoDirty: bool  // FAT_INFO_DIRTY

    ghost var hist: seq<Volume>  // every volume contents the driver has meant so far, oldest first
    ghost var at: nat            // the one that is on the card now
    ghost var marks: seq<nat>    // for every write to the card, the one it brought about
    ghost var raw: iset<nat>     // sectors written past this cache, by file handles
    ghost var spoiled: bool      // a failed read has overwritten the buffer

    /** What the volume contains once the buffer is written back. */
    ghost function Now(): Volume
      reads this, dev
    {
      if bufDirty && sect < |dev.sects| then dev.sects[sect := buf] else dev.sects
    }

    /** The buffer, when it is clean and something has been read into it, is a copy of its sector. */
    ghost predicate Valid()
      reads this, dev
    {
      && |dev.sects| == size && GeoOk(g, size)
      && (bufDirty ==> 0 < sect < size)
      && (!bufDirty && sect != 0 && !spoiled ==> sect < size && buf == dev.sects[sect])
      && (spoiled ==> !bufDirty)
      && Ordered(g, size, dev.sects, Now(), dev.trace, hist, at, marks, raw)
      && at < |hist| && |marks| == |dev.trace| && (!bufDirty ==> at == |hist| - 1)
    }

    /** Starting from a mounted volume, nothing cached yet: sector 0 stands for that. */
    constructor (dev: Disk, g: Geo, next: u32, free: u32)
      requires GeoOk(g, |dev.sects|) && dev.trace == []
      ensures Valid() && !spoiled && Now() == dev.sects && fresh(this)
      ensures this.dev == dev && this.g == g && lastUsed == next && freeCnt == free && size == |dev.sects|
    {
      this.dev := dev;
      this.g := g;
      size := |dev.sects|;
      lastUsed := next;
      freeCnt := free;
      sect := 0;
      buf := *;
      bufDirty, infoDirty := false, false;
      hist, at, marks, raw, spoiled := [dev.sects], 0, [], iset{}, false;
    }

    lemma Mounted()
      requires Valid()
      ensures GeoOk(g, size)
    {
    }

    lemma SafeNow(k: nat)
      requires Valid() && AllSafe(g, size, hist, k) && k <= at
      ensures NoDangling(Tab(g, Now()))
    {
      TablesAgree(g, Now(), hist[|hist| - 1]);
    }

    lemma SafeOnCard(k: nat, m: nat)
      requires Valid() && AllSafe(g, size, hist, k) && k <= at
      requires forall i :: m <= i < |marks| ==> k <= marks[i]
      ensures CrashSafe(g, size, Past(), dev.sects, k, m)
    {
      TablesAgree(g, dev.sects, hist[at]);
      forall i | m <= i < |dev.trace|
        ensures |dev.trace[i]| == size && NoDangling(Tab(g, dev.trace[i]))
      {
        TablesAgree(g, dev.trace[i], hist[marks[i]]);
      }
    }

    /** What every operation keeps: the invariant, and the histories only grow; whatever reaches
        the card is a meant state no older than the one that was there. */
    ghost function Past(): Log
      reads this, dev
    {
      Log(hist, at, dev.trace, marks, raw)
    }

    twostate predicate Steady()
      reads this, dev
    {
      Valid() && Later(old(Past()), Past()) && old(dev.refused) <= dev.refused
    }

    /** The card has refused a transfer. */
    twostate predicate Refused()
      reads this, dev
    {
      old(dev.refused) < dev.refused
    }

    // -------------------------------------------------------------- cache

    /** A request for sector s is not the first one after a failed read for the sector held before. The failed read
        has overwritten the buffer and left the sector number. */
    ghost predicate Trusted(s: nat)
      reads this
    {
      !(spoiled && sect == s)
    }

    /** The volume as a request for sector s finds it: after a failed read, what that left in the buffer passes for
        the sector held before. */
    ghost function Seen(s: nat): (v: Volume)
      requires s < |dev.sects|
      reads this, dev
      ensures |v| == |dev.sects|
    {
      if Trusted(s) then Now() else Now()[s := buf]
    }

    lemma SeenSpoiled(s: nat)
      requires s < |dev.sects| && !Trusted(s)
      ensures Seen(s) == Now()[s := buf]
    {
    }

    lemma SeenNow(s: nat)
      requires s < |dev.sects| && Trusted(s)
      ensures Seen(s) == Now()
    {
    }

    method SyncBuf() returns (err: int)
      requires Valid()
      modifies this`bufDirty, this`at, this`marks, dev
      ensures Steady() && Now() == old(Now())
      ensures if err == ERR_NONE then dev.refused == old(dev.refused) else Refused()
      ensures err == ERR_NONE || err == ERR_IO
      ensures err == ERR_NONE ==> !bufDirty && dev.sects == Now()
      ensures err != ERR_NONE ==> bufDirty == old(bufDirty)
      ensures !old(bufDirty) ==> err == ERR_NONE && dev.sects == old(dev.sects)
    {
      hide Ordered, Later;
      ghost var l, card, now := Past(), dev.sects, Now();
      LaterRefl(l);
      if bufDirty {
        var ok := dev.Write(sect, buf);
        if !ok {
          return ERR_IO;
        }
        OrderedSynced(g, size, card, now, l.trace, hist, at, marks, raw);
        LaterSynced(l, now);
        bufDirty := false;
        at := |hist| - 1;
        marks := marks + [at];
      }
      return ERR_NONE;
    }

    /** Makes the buffer hold sector s, and it does if and only if the request is to be trusted (or the failed read
        happened to leave the right bytes). */
    method UpdateBuf(s: nat) returns (err: int)
      requires Valid() && 0 < s
      modifies this`sect, this`buf, this`bufDirty, this`at, this`marks, this`spoiled, dev
      ensures Steady() && Now() == old(Now())
      ensures if err == ERR_NONE then dev.refused == old(dev.refused) else Refused()
      ensures err == ERR_NONE || err == ERR_IO
      ensures err == ERR_NONE ==> sect == s && (s < size ==> buf == old(Seen(s))[s])
      ensures err == ERR_NONE && old(Trusted(s)) ==> !spoiled && s < size && buf == Now()[s]
      ensures err == ERR_NONE && s < size ==> (buf == Now()[s] <==> old(Trusted(s)) || old(buf) == Now()[s])
      ensures old(sect) == s ==>
                err == ERR_NONE && buf == old(buf) && unchanged(`bufDirty) && unchanged(`spoiled) && unchanged(dev)
      ensures err != ERR_NONE ==> sect == old(sect) && (!spoiled ==> bufDirty && unchanged(`buf))
    {
      hide Ordered;
      if sect != s {
        err := SyncBuf();
        if err != ERR_NONE {
          return;
        }
        var ok;
        ok, buf := dev.Read(s);
        if !ok {
          spoiled := true;
          return ERR_IO;
        }
        sect, spoiled := s, false;
      }
      return ERR_NONE;
    }

    /** Changes the cached sector in memory; it reaches the card when the buffer is next written back. */
    method SetBuf(data: Sector)
      requires Valid() && 0 < sect < size
      modifies this`buf, this`bufDirty, this`hist, this`spoiled
      ensures Steady() && !spoiled && bufDirty && buf == data
      ensures Now() == old(Now())[sect := data] && hist == old(hist) + [Now()]
      ensures g.dataSect <= sect ==> SameSystem(g, old(hist)[|old(hist)| - 1], Now())
    {
      ghost var before := Now();
      buf := data;
      bufDirty, spoiled := true, false;
      hist := hist + [Now()];
      assert Now() == before[sect := data];
    }

    /** Writes back everything, with the allocation hints of FSInfo when they have changed: they go into the volume as
        the request for FSInfo finds it. */
    method SyncFs() returns (err: int)
      requires Valid()
      modifies this`sect, this`buf, this`bufDirty, this`infoDirty, this`at, this`marks, this`hist, this`spoiled, dev
      ensures Steady()
      ensures err == ERR_IO ==> Refused()
      ensures err == ERR_NONE || err == ERR_IO
      ensures err == ERR_NONE ==>
                && !bufDirty && !infoDirty && dev.sects == Now() && spoiled == (old(spoiled) && !old(infoDirty))
                && Now() == (if old(infoDirty) then PutInfo(g, old(Seen(g.infoSect)), lastUsed, freeCnt)
                             else old(Now()))
                && hist == (if old(infoDirty) then old(hist) + [Now()] else old(hist))
      ensures err != ERR_NONE ==>
                || (Now() == old(Now()) && hist == old(hist))
                || (old(infoDirty) && hist == old(hist) + [Now()]
                    && Now() == PutInfo(g, old(Seen(g.infoSect)), lastUsed, freeCnt))
      ensures err == ERR_NONE && old(infoDirty) ==> sect == g.infoSect
      ensures err == ERR_NONE && !old(infoDirty) ==> sect == old(sect)
    {
      hide Ordered, Later, GeoOk;
      ghost var l0 := Past();
      err := SyncBuf();
      if err != ERR_NONE {
        return;
      }
      if infoDirty {
        ghost var l1 := Past();
        err := StoreInfo();
        LaterTrans(l0, l1, Past());
        if err != ERR_NONE {
          return;
        }
        ghost var l2 := Past();
        err := SyncBuf();
        LaterTrans(l0, l2, Past());
        if err != ERR_NONE {
          return;
        }
        infoDirty := false;
      }
      return ERR_NONE;
    }

    method StoreInfo() returns (err: int)
      requires Valid()
      modifies this`sect, this`buf, this`bufDirty, this`at, this`marks, this`hist, this`spoiled, dev
      ensures Steady()
      ensures err == ERR_IO ==> Refused()
      ensures err == ERR_NONE || err == ERR_IO
      ensures err == ERR_NONE ==>
                && !spoiled && sect == g.infoSect
                && Now() == PutInfo(g, old(Seen(g.infoSect)), lastUsed, freeCnt) && hist == old(hist) + [Now()]
      ensures err != ERR_NONE ==> Now() == old(Now()) && hist == old(hist)
    {
      hide Ordered;
      err := UpdateBuf(g.infoSect);
      if err != ERR_NONE {
        return;
      }
      SetBuf(PutInfoIn(buf, lastUsed, freeCnt));
    }

    // -------------------------------------------------------------- table entries

    ghost function FatSect(clust: nat): nat
      reads this
    {
      g.fat0 + clust / 128
    }

    /** The sector put_fat asks for first. */
    ghost function PutSect(clust: nat): nat
      reads this
    {
      (if g.fat1 != 0 then g.fat1 else g.fat0) + clust / 128
    }

    /** The value of the table as the request finds it: if that is to be trusted the one last put, whatever the one
        shared buffer held in between. */
    method GetFat(clust: nat) returns (err: int, val: nat, flags: nat)
      requires Valid() && clust < g.clustCnt
      modifies this`sect, this`buf, this`bufDirty, this`at, this`marks, this`spoiled, dev
      ensures Steady() && Now() == old(Now()) && hist == old(hist)
      ensures if err != ERR_IO then dev.refused == old(dev.refused) else Refused()
      ensures err == ERR_NONE || err == ERR_IO || err == ERR_BROKEN
      ensures err != ERR_IO ==> val == Tab(g, old(Seen(FatSect(clust))))[clust] && sect == FatSect(clust)
      ensures err != ERR_IO && old(Trusted(FatSect(clust))) ==> !spoiled && val == Tab(g, Now())[clust]
      ensures err == ERR_NONE ==> flags == FlagsOf(KindOf(val, g.clustCnt)) && !KindOf(val, g.clustCnt).Broken?
      ensures err == ERR_BROKEN ==> KindOf(val, g.clustCnt).Broken?
    {
      hide Ordered;
      val, flags := 0, 0;
      err := UpdateBuf(g.fat0 + clust / 128);
      if err != ERR_NONE {
        return;
      }
      val := Le32(buf, clust % 128 * 4) % NIBBLE;
      assert val == Cell(old(Seen(FatSect(clust))), g.fat0, clust) % NIBBLE;
      if val == 0 {
        flags := CLUST_FREE;
      } else if val == 0x0fff_fff7 {
        flags := CLUST_BAD;
      } else if val >= 0x0fff_fff8 {
        flags := CLUST_USED + CLUST_LAST;
      } else if val >= 2 && val < g.clustCnt {
        flags := CLUST_USED;
      } else {
        return ERR_BROKEN, val, flags;
      }
    }

    /** Changes one entry of one copy in the volume as the request finds it. */
    method PutFat2(fat: nat, clust: nat, val: nat) returns (err: int)
      requires Valid() && clust < g.clustCnt && val < NIBBLE
      requires fat == g.fat0 || (fat == g.fat1 && fat != 0)
      modifies this`sect, this`buf, this`bufDirty, this`at, this`marks, this`hist, this`spoiled, dev
      ensures Steady()
      ensures err == ERR_IO ==> Refused()
      ensures err == ERR_NONE || err == ERR_IO
      ensures err == ERR_NONE ==>
                && !spoiled && Now() == PutCell(old(Seen(fat + clust / 128)), fat, clust, val)
                && hist == old(hist) + [Now()]
      ensures err != ERR_NONE ==> Now() == old(Now()) && hist == old(hist)
      ensures old(sect) == fat + clust / 128 ==> err == ERR_NONE
    {
      hide Ordered, Later, PutCellIn;
      ghost var v, l0 := Seen(fat + clust / 128), Past();
      err := UpdateBuf(fat + clust / 128);
      if err != ERR_NONE {
        return;
      }
      ghost var l := Past();
      SetBuf(PutCellIn(buf, clust, val));
      LaterTrans(l0, l, Past());
      assert Now() == PutCell(v, fat, clust, val);
    }

    method PutFat(clust: nat, val: nat) returns (err: int)
      requires Valid() && clust < g.clustCnt && val < NIBBLE
      modifies this`sect, this`buf, this`bufDirty, this`at, this`marks, this`hist, this`spoiled, dev
      ensures Steady()
      ensures err == ERR_IO ==> Refused()
      ensures err == ERR_NONE || err == ERR_IO
      ensures err == ERR_NONE ==>
                && !spoiled && Now() == PutBoth(g, old(Seen(PutSect(clust))), clust, val)
                && hist == old(hist) + PutSteps(g, old(Seen(PutSect(clust))), clust, val)
      ensures hist <= old(hist) + PutSteps(g, old(Seen(PutSect(clust))), clust, val)
      ensures err != ERR_NONE ==>
                Now() == old(Now()) || Now() == PutSteps(g, old(Seen(PutSect(clust))), clust, val)[0]
      ensures g.fat1 == 0 && old(sect) == g.fat0 + clust / 128 ==> err == ERR_NONE
    {
      hide Ordered, Later, Seen, PutCell, GeoOk;
      ghost var l0 := Past();
      SectsInRange(g, size, clust);
      LaterRefl(l0);
      if g.fat1 != 0 {
        err := PutFat2(g.fat1, clust, val);
        if err != ERR_NONE {
          return;
        }
        SeenNow(g.fat0 + clust / 128);
      }
      ghost var l := Past();
      err := PutFat2(g.fat0, clust, val);
      LaterTrans(l0, l, Past());
    }

    /** Where trusting fails: a read has failed and left zeroes, and the next request is to change an entry of the
        table sector held before. The put reports no error; another cluster of that sector, in use until then, is now
        free, and where a cluster of another sector links to it, that link is left dangling. Only the writing back
        that follows can fail, and when it does not, the card is left so, too. */
    method PutAfterFailedRead(clust: nat, val: nat, other: nat, ghost from: nat) returns (err: int)
      requires Valid() && clust < g.clustCnt && val < NIBBLE && g.fat1 == 0
      requires !Trusted(FatSect(clust)) && buf == ZeroSector()
      requires 2 <= other < g.clustCnt && other != clust && other / 128 == clust / 128
      requires 2 <= from < g.clustCnt && from / 128 != clust / 128 && Tab(g, Now())[from] == other
      modifies this`sect, this`buf, this`bufDirty, this`at, this`marks, this`hist, this`spoiled, dev
      ensures Valid()
      ensures err == ERR_IO ==> Refused()
      ensures Tab(g, Now())[clust] == val && Tab(g, Now())[other] == 0 && Tab(g, Now())[from] == other
      ensures !NoDangling(Tab(g, Now()))
      ensures err == ERR_NONE ==> dev.sects == Now()
    {
      hide Ordered, Seen, PutBoth, PutSteps, Later, Tab, NoDangling;
      SectsInRange(g, size, clust);
      ghost var v := Seen(FatSect(clust));
      SeenSpoiled(FatSect(clust));
      ZeroesDangle(g, Now(), v, clust, val, other, from);
      err := PutFat(clust, val);
      assert err == ERR_NONE;
      err := SyncBuf();
    }

    // -------------------------------------------------------------- chains

    /** sync_fs after an allocation or a release: FSInfo is written, the tables are left as they are. */
    method SyncHints(ghost k: nat, ghost safe: bool) returns (err: int)
      requires Valid() && Trusted(g.infoSect) && infoDirty
      requires safe ==> k < |hist| && AllSafe(g, size, hist, k) && NoDangling(Tab(g, Now()))
      modifies this`sect, this`buf, this`bufDirty, this`infoDirty, this`at, this`marks, this`hist, this`spoiled, dev
      ensures Steady()
      ensures err == ERR_IO ==> Refused()
      ensures err == ERR_NONE || err == ERR_IO
      ensures OnlyTables(g, old(Now()), Now()) && SameTables(g, old(Now()), Now())
      ensures Tab(g, Now()) == Tab(g, old(Now()))
      ensures Mirrored(g, old(Now())) ==> Mirrored(g, Now())
      ensures err == ERR_NONE ==>
                && !spoiled && !bufDirty && !infoDirty && dev.sects == Now() && sect == g.infoSect
                && Le32(Now()[g.infoSect], INFO_FREE) == freeCnt && Le32(Now()[g.infoSect], INFO_NEXT) == lastUsed
      ensures safe ==> AllSafe(g, size, hist, k)
    {
      hide Ordered, OnlyTables, NoDangling, Le32, TabAt, PutInfo;
      ghost var v, h := Now(), hist;
      OnlyTablesRefl(g, v);
      AfterPutInfo(g, v, lastUsed, freeCnt);
      err := SyncFs();
    }

    /** One turn of the release loop: read the link of c, then free c in both copies. */
    method FreeOne(c: nat, ghost k: nat, ghost safe: bool) returns (err: int, next: nat, flags: nat)
      requires Valid() && c < g.clustCnt && Trusted(FatSect(c))
      requires safe ==> k < |hist| && SafeToFree(g, size, hist, k, Now(), c)
      modifies this`freeCnt, this`sect, this`buf, this`bufDirty, this`at, this`marks, this`hist, this`spoiled, dev
      ensures Steady() && OnlyTables(g, old(Now()), Now())
      ensures err == ERR_IO ==> Refused()
      ensures Tab(g, Now()) == Tab(g, old(Now())) || Tab(g, Now()) == Tab(g, old(Now()))[c := 0]
      ensures err == ERR_NONE || err == ERR_IO || err == ERR_BROKEN
      ensures err == ERR_NONE ==>
                && !spoiled && FreedOne(g, old(Now()), c, Now())
                && next == Tab(g, old(Now()))[c] && flags == FlagsOf(KindOf(next, g.clustCnt))
                && (KindOf(next, g.clustCnt).Used? || KindOf(next, g.clustCnt).Last?)
      ensures freeCnt == if err == ERR_NONE then AddWrap(old(freeCnt), 1) else old(freeCnt)
      ensures err == ERR_BROKEN ==> Now() == old(Now()) && Erase(Tab(g, Now()), c) == Erased(Tab(g, Now()), 0, false)
      ensures safe ==> AllSafe(g, size, hist, k)
      ensures safe && err == ERR_NONE && !IsLast(flags) ==> SafeToFree(g, size, hist, k, Now(), next)
      ensures safe && err == ERR_NONE ==> NoDangling(Tab(g, Now()))
    {
      hide Ordered, Later, OnlyTables, NoDangling, AllSafe, SafeToFree, FreedOne, AddWrap, Erase, PutBoth, PutSteps,
        Tab, Seen, GeoOk;
      OnlyTablesRefl(g, Now());
      SectsInRange(g, size, c);
      ghost var v, t, h, l0 := Now(), Tab(g, Now()), hist, Past();
      err, next, flags := GetFat(c);
      ghost var l := Past();
      if err != ERR_NONE {
        if err == ERR_BROKEN { EraseStuck(t, c); }
        if safe { SafeToFreeMeans(g, size, h, k, v, c); }
        return;
      }
      if BadOrFree(flags) {
        EraseStuck(t, c);
        if safe { SafeToFreeMeans(g, size, h, k, v, c); }
        return ERR_BROKEN, next, flags;
      }
      SeenNow(PutSect(c));
      err := PutFat(c, 0);
      LaterTrans(l0, l, Past());
      LaterMeans(l, Past());
      FreeStep(g, size, h, hist, k, v, Now(), c, err, safe);
      if err != ERR_NONE {
        return;
      }
      freeCnt := AddWrap(freeCnt, 1);
    }

    method FreeLinks(clust: nat, ghost k: nat, ghost safe: bool) returns (err: int)
      requires Valid() && clust < g.clustCnt && Trusted(FatSect(clust))
      requires safe ==> k < |hist| && SafeToFree(g, size, hist, k, Now(), clust)
      modifies this`freeCnt, this`sect, this`buf, this`bufDirty, this`at, this`marks, this`hist, this`spoiled, dev
      ensures Steady()
      ensures err == ERR_IO ==> Refused()
      ensures err == ERR_NONE || err == ERR_IO || err == ERR_BROKEN
      ensures err == ERR_NONE ==> !spoiled
      ensures Released(g, old(Now()), clust, old(freeCnt), Now(), freeCnt, err)
      ensures Freed(Tab(g, old(Now())), Tab(g, Now()), clust)
      ensures safe ==> AllSafe(g, size, hist, k) && (err == ERR_NONE ==> NoDangling(Tab(g, Now())))
    {
      hide Freed, Freeing, Ordered, Later, Releasing, Released, FreedOne, SafeToFree, OnlyTables, NoDangling, AllSafe,
        AddWrap, Tab, Erase;
      ghost var v0, f0, t0 := Now(), freeCnt, Tab(g, Now());
      LaterRefl(Past());
      ReleaseStart(g, v0, clust, f0);
      FreeingStart(t0, clust);
      var c: nat := clust;
      while true
        invariant old(dev.refused) <= dev.refused
        invariant Valid() && Later(old(Past()), Past()) && c < g.clustCnt && Trusted(FatSect(c))
        invariant Releasing(g, v0, clust, f0, Now(), c, freeCnt) && Freeing(t0, Tab(g, Now()), clust, c)
        invariant safe ==> k < |hist| && SafeToFree(g, size, hist, k, Now(), c)
        decreases TakenCount(Tab(g, Now()))
      {
        ghost var v, f, l := Now(), freeCnt, Past();
        var next, flags;
        err, next, flags := FreeOne(c, k, safe);
        LaterTrans(old(Past()), l, Past());
        ReleaseStep(g, v0, clust, f0, v, c, f, Now(), freeCnt, err);
        FreeingStops(t0, Tab(g, v), clust, c);
        FreeingStep(t0, Tab(g, v), clust, c);
        if err != ERR_NONE || IsLast(flags) {
          return;
        }
        c := next;
      }
    }

    method FreeAndSync(clust: nat, ghost k: nat, ghost safe: bool) returns (err: int)
      requires Valid() && infoDirty && clust < g.clustCnt && Trusted(FatSect(clust))
      requires safe ==> k < |hist| && SafeToFree(g, size, hist, k, Now(), clust)
      modifies this`freeCnt, this`sect, this`buf, this`bufDirty, this`infoDirty, this`at, this`marks, this`hist,
        this`spoiled, dev
      ensures Steady()
      ensures err == ERR_IO ==> Refused()
      ensures err == ERR_NONE || err == ERR_IO || err == ERR_BROKEN
      ensures Released(g, old(Now()), clust, old(freeCnt), Now(), freeCnt, err)
      ensures Freed(Tab(g, old(Now())), Tab(g, Now()), clust)
      ensures err == ERR_NONE ==>
                && !spoiled && !bufDirty && !infoDirty && dev.sects == Now() && sect == g.infoSect
                && Le32(Now()[g.infoSect], INFO_FREE) == freeCnt
      ensures safe ==> AllSafe(g, size, hist, k)
    {
      hide Freed, Ordered, Later, OnlyTables, NoDangling, AllSafe, SafeToFree, Tab, Released, Mirrored, Le32, AddWrap;
      ghost var v0, l0, f0 := Now(), Past(), freeCnt;
      err := FreeLinks(clust, k, safe);
      if err == ERR_NONE {
        ghost var v, l := Now(), Past();
        LaterMeans(l0, l);
        err := SyncHints(k, safe);
        ReleasedThenHints(g, v0, clust, f0, v, freeCnt, Now(), err);
        LaterTrans(l0, l, Past());
      }
    }

    /** Frees a chain. Terminates on every table. When no two entries link to the same cluster and none
        to clust, no state the card goes through has a link to a free cluster. k is any index of the history
        from which on it was safe, for instance that of the state now on the card. */
    method RemoveChain(clust: nat, ghost k: nat) returns (err: int)
      requires Valid() && clust < g.clustCnt && Trusted(FatSect(clust)) && k <= at
      modifies this`freeCnt, this`sect, this`buf, this`bufDirty, this`infoDirty, this`at, this`marks, this`hist,
        this`spoiled, dev
      ensures Steady()
      ensures err == ERR_IO ==> Refused()
      ensures err == ERR_NONE || err == ERR_IO || err == ERR_BROKEN
      ensures Released(g, old(Now()), clust, old(freeCnt), Now(), freeCnt, err)
      ensures Freed(Tab(g, old(Now())), Tab(g, Now()), clust)
      ensures err == ERR_NONE ==>
                && !spoiled && !bufDirty && !infoDirty && dev.sects == Now() && sect == g.infoSect
                && Le32(Now()[g.infoSect], INFO_FREE) == freeCnt
      ensures AllSafe(g, size, old(hist), k) ==>
                OneLinkEach(Tab(g, old(Now()))) && Detached(Tab(g, old(Now())), clust) ==>
                CrashSafe(g, size, Past(), dev.sects, k, |old(dev.trace)|)
    {
      hide Freed, Ordered, Later, OnlyTables, OneLinkEach, Detached, NoDangling, AllSafe, CrashSafe, Tab, Released,
        Mirrored, Le32, GeoOk, AddWrap;
      infoDirty := true;
      ghost var l0, t := Past(), Tab(g, Now());
      ghost var safe := AllSafe(g, size, hist, k) && OneLinkEach(t) && Detached(t, clust);
      if safe { SafeNow(k); }
      err := FreeAndSync(clust, k, safe);
      if safe {
        LaterMeans(l0, Past());
        SafeOnCard(k, |old(dev.trace)|);
      }
    }

    /** The cluster a scan from the last allocated one probes first is to be trusted. */
    ghost predicate ScanTrusted()
      reads this
    {
      && 2 <= lastUsed < g.clustCnt
      && (NextClust(lastUsed, g.clustCnt) != lastUsed ==> Trusted(FatSect(NextClust(lastUsed, g.clustCnt))))
    }

    /** So is the first request of an allocation behind tail. */
    ghost predicate StretchTrusted(tail: nat)
      reads this
    {
      && 2 <= lastUsed < g.clustCnt && tail < g.clustCnt
      && if tail == 0 then ScanTrusted() else Trusted(FatSect(NextClust(tail, g.clustCnt)))
    }

    /** The probing loop of stretch_chain. On a failing get_fat at clust the code hands back a flag word instead of
        the error: at the first probe whatever flags held, later the one of the cluster probed before. */
    method FindFree(stale: nat) returns (err: int, clust: nat, failed: bool)
      requires Valid() && ScanTrusted()
      modifies this`sect, this`buf, this`bufDirty, this`at, this`marks, this`spoiled, dev
      ensures Steady() && Now() == old(Now()) && hist == old(hist)
      ensures 2 <= clust < g.clustCnt
      ensures !failed ==> match Scan(Tab(g, Now()), lastUsed, lastUsed)
                          case Taken => err == ERR_FULL
                          case Found(d) => !spoiled && err == ERR_NONE && clust == d
      ensures failed ==> Refused() || KindOf(Tab(g, Now())[clust], g.clustCnt).Broken?
      ensures failed ==> err == ProbeWord(Tab(g, Now()), lastUsed, clust, stale)
      ensures failed && clust != NextClust(lastUsed, g.clustCnt) ==> err > 0
    {
      hide Ordered, Later, GeoOk, Tab, Scan, ProbeWord, Distance;
      ghost var l0 := Past();
      LaterRefl(l0);
      var flags := stale;
      clust, failed := lastUsed, false;
      while true
        invariant old(dev.refused) <= dev.refused
        invariant Valid() && Later(l0, Past()) && Now() == old(Now()) && hist == old(hist)
        invariant 2 <= clust < g.clustCnt && 2 <= lastUsed < g.clustCnt
        invariant clust == lastUsed ==> ScanTrusted() && flags == stale
        invariant clust != lastUsed ==> !spoiled && flags == FlagsOf(KindOf(Tab(g, Now())[clust], g.clustCnt)) > 0
        invariant Scan(Tab(g, Now()), lastUsed, lastUsed) == Scan(Tab(g, Now()), clust, lastUsed)
        decreases Distance(clust, lastUsed, g.clustCnt)
      {
        ScanStep(Tab(g, Now()), clust, lastUsed, stale);
        clust := clust + 1;
        if clust >= g.clustCnt {
          clust := 2;
        }
        if clust == lastUsed {
          return ERR_FULL, clust, false;
        }
        ghost var l := Past();
        var next, found;
        err, next, found := GetFat(clust);
        LaterTrans(l0, l, Past());
        if err != ERR_NONE {
          return flags, clust, true;
        }
        flags := found;
        if flags == CLUST_FREE {
          return;
        }
      }
    }

    /** Marks d as an end of chain and links it behind tail, in both copies of the table. */
    method LinkBehind(tail: nat, d: nat, ghost k: nat, ghost safe: bool) returns (err: int)
      requires Valid() && 2 <= d < g.clustCnt && Trusted(PutSect(d))
      requires Tab(g, Now())[d] == 0 && IsTail(Tab(g, Now()), tail)
      requires safe ==> k < |hist| && AllSafe(g, size, hist, k) && NoDangling(Tab(g, Now()))
      modifies this`sect, this`buf, this`bufDirty, this`at, this`marks, this`hist, this`spoiled, dev
      ensures Steady() && OnlyTables(g, old(Now()), Now())
      ensures err == ERR_IO ==> Refused()
      ensures err == ERR_NONE || err == ERR_IO
      ensures Tab(g, Now()) == Tab(g, old(Now())) || TakenBy(Tab(g, old(Now())), Tab(g, Now()), tail, d)
      ensures err == ERR_NONE ==>
                && !spoiled && (Mirrored(g, old(Now())) ==> Mirrored(g, Now()))
                && Tab(g, Now()) == Linked(Tab(g, old(Now())), tail, d)
      ensures safe ==> AllSafe(g, size, hist, k) && (err == ERR_NONE ==> NoDangling(Tab(g, Now())))
    {
      hide Ordered, Later, OnlyTables, NoDangling, Mirrored, AllSafe, PutBoth, PutCell, PutSteps, Tab;
      ghost var v, t, h, l0 := Now(), Tab(g, Now()), hist, Past();
      AfterPutBoth(g, v, d, EOC);
      if safe { LinkSafe(t, tail, d); }
      err := PutFat(d, EOC);
      AfterAnyPut(g, v, Now(), d, EOC);
      LaterMeans(l0, Past());
      if safe { PutKeepsSafe(g, size, h, hist, k, v, d, EOC); }
      if err != ERR_NONE {
        OnlyTablesRefl(g, v);
        OnlyTablesStep(g, v, d, EOC);
        return;
      }
      if tail != 0 {
        ghost var v1, h1, l1 := Now(), hist, Past();
        AfterPutBoth(g, v1, tail, d);
        err := PutFat(tail, d);
        AfterAnyPut(g, v1, Now(), tail, d);
        LaterMeans(l1, Past());
        LaterTrans(l0, l1, Past());
        if safe { PutKeepsSafe(g, size, h1, hist, k, v1, tail, d); }
        OnlyTablesRefl(g, v1);
        OnlyTablesStep(g, v1, tail, d);
        OnlyTablesTrans(g, v, v1, Now());
      }
    }

    /** The first half of stretch_chain: the cluster behind the tail if it is free, else a scan. stale is the flag
        word the scan starts with: uninitialised for a new chain. */
    method PickCluster(tail: nat) returns (err: int, out: nat, failed: bool, ghost stale: nat)
      requires Valid() && StretchTrusted(tail) && IsTail(Tab(g, Now()), tail)
      modifies this`sect, this`buf, this`bufDirty, this`at, this`marks, this`spoiled, dev
      ensures Steady() && Now() == old(Now()) && hist == old(hist)
      ensures err == ERR_IO ==> Refused()
      ensures !failed && err == ERR_NONE ==> !spoiled && Choose(Tab(g, Now()), lastUsed, tail) == Found(out)
      ensures err == ERR_FULL ==> Choose(Tab(g, Now()), lastUsed, tail) == Taken
      ensures failed ==> 2 <= out < g.clustCnt && err == ProbeWord(Tab(g, Now()), lastUsed, out, stale)
      ensures failed ==> Refused() || KindOf(Tab(g, Now())[out], g.clustCnt).Broken?
      ensures failed && out != NextClust(lastUsed, g.clustCnt) ==> err > 0
      ensures !failed ==> err == ERR_NONE || err == ERR_IO || err == ERR_BROKEN || err == ERR_FULL
      ensures failed && tail != 0 ==> stale > 0
      ensures if tail != 0 && KindOf(Tab(g, Now())[NextClust(tail, g.clustCnt)], g.clustCnt).Broken?
              then !failed && (err == ERR_BROKEN || err == ERR_IO) else err != ERR_BROKEN
      ensures !failed && err == ERR_NONE ==> Choose(Tab(g, Now()), lastUsed, tail).Found?
    {
      hide Ordered, Later, Tab, Scan;
      ghost var t, l0 := Tab(g, Now()), Past();
      LaterRefl(l0);
      out, failed := tail, false;
      var scan := true;
      var flags: nat := *;
      if tail != 0 {
        out := out + 1;
        if out >= g.clustCnt {
          out := 2;
        }
        var next;
        err, next, flags := GetFat(out);
        if err != ERR_NONE {
          return err, out, failed, flags;
        }
        scan := flags != CLUST_FREE;
      }
      err, stale := ERR_NONE, flags;
      if scan {
        ghost var l := Past();
        err, out, failed := FindFree(flags);
        LaterTrans(l0, l, Past());
      }
    }

    method CommitLink(tail: nat, d: nat, ghost k: nat, ghost safe: bool) returns (err: int)
      requires Valid() && infoDirty && 2 <= lastUsed < g.clustCnt && IsTail(Tab(g, Now()), tail) && !spoiled
      requires Choose(Tab(g, Now()), lastUsed, tail) == Found(d) && 2 <= d < g.clustCnt && Tab(g, Now())[d] == 0
      requires safe ==> k < |hist| && AllSafe(g, size, hist, k) && NoDangling(Tab(g, Now()))
      modifies this`lastUsed, this`freeCnt, this`sect, this`buf, this`bufDirty, this`infoDirty, this`at, this`marks,
        this`hist, this`spoiled, dev
      ensures Steady() && OnlyTables(g, old(Now()), Now())
      ensures err == ERR_IO ==> Refused()
      ensures Taking(Tab(g, old(Now())), Tab(g, Now()), tail)
      ensures err == ERR_NONE || err == ERR_IO
      ensures err == ERR_NONE ==>
                && !spoiled && !bufDirty && dev.sects == Now() && sect == g.infoSect
                && Stretched(g, old(Now()), old(lastUsed), tail, d, Now())
                && lastUsed == d && freeCnt == AddWrap(old(freeCnt), -1)
                && Le32(Now()[g.infoSect], INFO_FREE) == freeCnt && Le32(Now()[g.infoSect], INFO_NEXT) == d
      ensures 2 <= lastUsed < g.clustCnt
      ensures safe ==> AllSafe(g, size, hist, k)
    {
      hide Ordered, Later, OnlyTables, NoDangling, Mirrored, AllSafe, Tab, Le32, Choose, Linked;
      ghost var v0, l0 := Now(), Past();
      err := LinkBehind(tail, d, k, safe);
      if err != ERR_NONE {
        return;
      }
      ghost var v, l := Now(), Past();
      LaterMeans(l0, l);
      lastUsed := d;
      freeCnt := AddWrap(freeCnt, -1);
      err := SyncHints(k, safe);
      LaterTrans(l0, l, Past());
      StretchedThenHints(g, v0, old(lastUsed), tail, d, v, Now());
      OnlyTablesTrans(g, v0, v, Now());
    }

    /** Grows the chain that ends at tail by one cluster, or starts one (tail == 0). failed: a probe of the scan failed,
        at out. A zero result without an allocation (lost) happens exactly when that was the first probe, and the
        uninitialised flag word was 0, which only a new chain can meet; a caller of the program then goes on with an
        undefined cluster number, and lost is there for callers in this model to stop. */
    method StretchChain(tail: nat, ghost k: nat)
      returns (err: int, out: nat, lost: bool, ghost failed: bool, ghost stale: nat)
      requires k <= at && Valid() && StretchTrusted(tail) && IsTail(Tab(g, Now()), tail)
      modifies this`lastUsed, this`freeCnt, this`sect, this`buf, this`bufDirty, this`infoDirty, this`at, this`marks,
        this`hist, this`spoiled, dev
      ensures Steady() && OnlyTables(g, old(Now()), Now())
      ensures err == ERR_IO ==> Refused()
      ensures Taking(Tab(g, old(Now())), Tab(g, Now()), tail)
      ensures err == ERR_NONE && !lost ==>
                && !spoiled && !bufDirty && dev.sects == Now() && sect == g.infoSect
                && Stretched(g, old(Now()), old(lastUsed), tail, out, Now())
                && lastUsed == out && 2 <= out && freeCnt == AddWrap(old(freeCnt), -1)
                && Le32(Now()[g.infoSect], INFO_FREE) == freeCnt && Le32(Now()[g.infoSect], INFO_NEXT) == out
      ensures failed ==> 2 <= out < g.clustCnt && err == ProbeWord(Tab(g, old(Now())), old(lastUsed), out, stale)
      ensures lost <==> failed && out == NextClust(old(lastUsed), g.clustCnt) && stale == 0
      ensures failed && tail != 0 ==> stale > 0
      ensures failed ==> Refused() || KindOf(Tab(g, old(Now()))[out], g.clustCnt).Broken?
      ensures if tail != 0 && KindOf(Tab(g, old(Now()))[NextClust(tail, g.clustCnt)], g.clustCnt).Broken?
              then !failed && (err == ERR_BROKEN || err == ERR_IO) else err != ERR_BROKEN
      ensures AllocOk(Tab(g, old(Now()))) && !Refused() ==>
                && !failed && !lost
                && err == if Choose(Tab(g, old(Now())), old(lastUsed), tail).Taken? then ERR_FULL else ERR_NONE
      ensures failed ==> Now() == old(Now()) && lastUsed == old(lastUsed) && freeCnt == old(freeCnt)
      ensures !failed ==> err == ERR_NONE || err == ERR_IO || err == ERR_BROKEN || err == ERR_FULL
      ensures err == ERR_FULL ==> Now() == old(Now()) && Choose(Tab(g, Now()), old(lastUsed), tail) == Taken
      ensures 2 <= lastUsed < g.clustCnt
      ensures AllSafe(g, size, old(hist), k) ==> CrashSafe(g, size, Past(), dev.sects, k, |old(dev.trace)|)
    {
      hide Ordered, Later, OnlyTables, NoDangling, Mirrored, AllSafe, CrashSafe, Tab, Le32, Choose, Linked, AllocOk;
      ghost var v0, l0 := Now(), Past();
      ghost var safe := AllSafe(g, size, hist, k);
      OnlyTablesRefl(g, v0);
      if safe { SafeNow(k); }
      infoDirty := true;
      var scanFailed;
      err, out, scanFailed, stale := PickCluster(tail);
      lost, failed := scanFailed && err == ERR_NONE, scanFailed;
      SoundProbes(Tab(g, v0), tail, out);
      LaterMeans(l0, Past());
      if err == ERR_NONE && !scanFailed {
        ghost var l := Past();
        ChooseResult(Tab(g, v0), lastUsed, tail);
        err := CommitLink(tail, out, k, safe);
        LaterTrans(l0, l, Past());
        LaterMeans(l0, Past());
      }
      if safe { SafeOnCard(k, |old(dev.trace)|); }
    }

    // -------------------------------------------------------------- data sectors through the cache

    /** A write to a data sector extends a safe history safely. */
    lemma SafeAfterWrite(h: seq<Volume>, k: nat)
      requires Valid() && AllSafe(g, size, h, k) && k < |h| && hist == h + [Now()]
      requires SameSystem(g, h[|h| - 1], Now())
      ensures AllSafe(g, size, hist, k)
    {
      DataKeepsTables(g, h[|h| - 1], Now());
    }

    /** A write past the cache, as file handles do it: it must not hit the cached sector. */
    method WriteRaw(s: nat, data: Sector) returns (ok: bool)
      requires Valid() && s != sect && g.dataSect <= s
      modifies this`marks, this`raw, dev
      ensures Steady() && (ok ==> s < size)
      ensures !ok ==> Refused()
      ensures Now() == if ok && s < size then old(Now())[s := data] else old(Now())
      ensures ok && !bufDirty ==> dev.sects == Now()
    {
      hide Later;
      ghost var l, card, now := Past(), dev.sects, Now();
      ok := dev.Write(s, data);
      if ok {
        OrderedRaw(g, size, card, now, l.trace, hist, at, marks, raw, s, data);
        marks := marks + [at];
        raw := raw + iset{s};
        assert Now() == now[s := data];
        LaterRaw(l, s, dev.sects);
      } else {
        LaterRefl(l);
      }
    }

    /** Storing the hints of FSInfo extends a safe history safely. */
    lemma SafeAfterInfo(h: seq<Volume>, v: Volume, k: nat, next: u32, free: u32)
      requires GeoOk(g, size) && |v| == size && AllSafe(g, size, h, k) && NoDangling(Tab(g, v))
      ensures AllSafe(g, size, h + [PutInfo(g, v, next, free)], k)
    {
      AfterPutInfo(g, v, next, free);
    }

    /** Makes the clean buffer stand for sector s, with new contents, without reading it. */
    method ClaimBuf(s: nat, data: Sector)
      requires Valid() && !bufDirty && 0 < s < size
      modifies this`sect, this`buf, this`bufDirty, this`hist, this`spoiled
      ensures Steady() && !spoiled && bufDirty && sect == s && buf == data
      ensures Now() == old(Now())[s := data] && hist == old(hist) + [Now()]
      ensures g.dataSect <= s ==> SameSystem(g, old(hist)[|old(hist)| - 1], Now())
    {
      sect, buf, bufDirty, spoiled := s, data, true, false;
      hist := hist + [Now()];
    }

    method ClearSect(s: nat, ghost k: nat, ghost safe: bool) returns (err: int)
      requires Valid() && !bufDirty && g.dataSect <= s && 0 < s < size
      requires safe ==> k < |hist| && AllSafe(g, size, hist, k)
      modifies this`sect, this`buf, this`bufDirty, this`at, this`marks, this`hist, this`spoiled, dev
      ensures Steady() && !spoiled && Now() == old(Now())[s := ZeroSector()]
      ensures err == ERR_IO ==> Refused()
      ensures err == ERR_NONE || err == ERR_IO
      ensures err == ERR_NONE ==> !bufDirty
      ensures safe ==> k < |hist| && AllSafe(g, size, hist, k)
    {
      hide Ordered, Later, AllSafe, SameSystem, ZeroSector, GeoOk;
      ghost var l0, h := Past(), hist;
      ClaimBuf(s, ZeroSector());
      if safe {
        SafeAfterWrite(h, k);
      }
      ghost var l := Past();
      err := SyncBuf();
      LaterTrans(l0, l, Past());
    }

    /** Fills a cluster with zeroes, straight through the buffer. */
    method ClustClear(clust: nat, ghost k: nat) returns (err: int)
      requires Valid() && 2 <= clust < g.clustCnt && k < |hist|
      requires g.dataSect <= SectOf(g, clust) && SectOf(g, clust) + g.spc <= size
      modifies this`sect, this`buf, this`bufDirty, this`at, this`marks, this`hist, this`spoiled, dev
      ensures Steady() && (g.spc > 0 ==> !spoiled)
      ensures err == ERR_IO ==> Refused()
      ensures err == ERR_NONE || err == ERR_IO
      ensures SameSystem(g, old(Now()), Now())
      ensures SameBut(old(Now()), Now(), SectOf(g, clust), g.spc)
      ensures err == ERR_NONE ==> Now() == ZeroSects(old(Now()), SectOf(g, clust), g.spc) && !bufDirty
      ensures AllSafe(g, size, old(hist), k) ==> AllSafe(g, size, hist, k)
    {
      hide Ordered, Later, AllSafe, SameSystem, SameBut, ZeroSects, ZeroSector;
      ghost var l0, v0, first, safe := Past(), Now(), SectOf(g, clust), AllSafe(g, size, hist, k);
      LaterRefl(l0);
      ZeroSectsMean(g, v0, first, 0);
      err := SyncBuf();
      if err != ERR_NONE {
        return;
      }
      var s := SectOf(g, clust);
      for i := 0 to g.spc
        invariant old(dev.refused) <= dev.refused
        invariant Valid() && Later(l0, Past()) && (i > 0 ==> !spoiled) && !bufDirty && s == first + i
        invariant Now() == ZeroSects(v0, first, i)
        invariant safe ==> k < |hist| && AllSafe(g, size, hist, k)
      {
        ghost var l := Past();
        ZeroSectsStep(v0, first, i);
        ZeroSectsMean(g, v0, first, i + 1);
        err := ClearSect(s, k, safe);
        LaterTrans(l0, l, Past());
        if err != ERR_NONE {
          return;
        }
        s := s + 1;
      }
      ZeroSectsMean(g, v0, first, g.spc);
      err := ERR_NONE;
    }
  }
}
