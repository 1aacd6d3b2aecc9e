/** Where things are on a FAT32 volume, and the table as a function of the volume's contents. */
module Layout {
  import opened Bytes
  import opened Chain

  /** The fields fat_mount computes once. The cluster size is a power of two sectors, so the driver's
      shifts and masks by it are division and remainder by spc. fat1 == 0 means no mirroring. */
  datatype Geo = Geo(spc: nat, spf: nat, clustCnt: nat, infoSect: nat, fat0: nat, fat1: nat, dataSect: nat,
                     rootClust: nat)

  const NIBBLE := 0x1000_0000

  /** A well-formed volume: FSInfo, then the tables, then the clusters, all on the medium. */
  predicate GeoOk(g: Geo, size: nat) {
    && g.spc > 0
    && 2 < g.clustCnt <= LINK_LIMIT && g.clustCnt == g.spf * 128
    && 0 < g.infoSect < g.fat0 && g.fat0 + g.spf <= g.dataSect
    && (g.fat1 != 0 ==>
          && g.infoSect < g.fat1 && g.fat1 + g.spf <= g.dataSect
          && (g.fat0 + g.spf <= g.fat1 || g.fat1 + g.spf <= g.fat0))
    && g.dataSect <= size < 0x1_0000_0000
  }

  /** The medium holds the data sectors of all clusters the table has entries for. */
  predicate HoldsClusters(g: Geo, size: nat) {
    g.dataSect + (g.clustCnt - 2) * g.spc <= size
  }

  predicate InTable(g: Geo, fat: nat, s: nat) {
    fat <= s < fat + g.spf
  }

  predicate InFat(g: Geo, s: nat) {
    InTable(g, g.fat0, s) || (g.fat1 != 0 && InTable(g, g.fat1, s))
  }

  /** The word for cluster c in the table copy that starts at sector fat. */
  function Cell(vol: Volume, fat: nat, c: nat): u32
    requires fat + c / 128 < |vol|
  {
    Le32(vol[fat + c / 128], c % 128 * 4)
  }

  /** The upper nibble belongs to the volume, not to the driver. */
  function Merge(was: u32, v: nat): (w: u32)
    ensures w / NIBBLE == was / NIBBLE && w % NIBBLE == v % NIBBLE
  {
    was / NIBBLE * NIBBLE + v % NIBBLE
  }

  function PutCellIn(s: Sector, c: nat, v: nat): (r: Sector) {
    PutLe32(s, c % 128 * 4, Merge(Le32(s, c % 128 * 4), v))
  }

  function PutCell(vol: Volume, fat: nat, c: nat, v: nat): (r: Volume)
    requires fat + c / 128 < |vol|
    ensures |r| == |vol|
  {
    vol[fat + c / 128 := PutCellIn(vol[fat + c / 128], c, v)]
  }

  lemma CellAfterPut(vol: Volume, fat: nat, c: nat, v: nat, fat': nat, d: nat)
    requires fat + c / 128 < |vol| && fat' + d / 128 < |vol|
    ensures Cell(PutCell(vol, fat, c, v), fat', d)
         == if fat' + d / 128 == fat + c / 128 && d % 128 == c % 128 then Merge(Cell(vol, fat', d), v)
            else Cell(vol, fat', d)
  {
    if fat' + d / 128 == fat + c / 128 {
      var s := vol[fat + c / 128];
      Le32AfterPut(s, c % 128 * 4, Merge(Le32(s, c % 128 * 4), v), d % 128 * 4);
    }
  }

  predicate TableOnDisk(g: Geo, vol: Volume, fat: nat) {
    fat + g.spf <= |vol| && g.clustCnt == g.spf * 128
  }

  /** The 28-bit values of one table copy. */
  function TabAt(g: Geo, vol: Volume, fat: nat): (t: Table)
    requires TableOnDisk(g, vol, fat)
    ensures |t| == g.clustCnt
    ensures forall c :: 0 <= c < g.clustCnt ==> t[c] == Cell(vol, fat, c) % NIBBLE
  {
    seq(g.clustCnt, c requires 0 <= c < g.clustCnt => Cell(vol, fat, c) % NIBBLE)
  }

  /** The active table. */
  function Tab(g: Geo, vol: Volume): (t: Table)
    requires GeoOk(g, |vol|)
    ensures |t| == g.clustCnt
  {
    TabAt(g, vol, g.fat0)
  }

  ghost predicate Mirrored(g: Geo, vol: Volume)
    requires GeoOk(g, |vol|)
  {
    g.fat1 != 0 ==> TabAt(g, vol, g.fat1) == TabAt(g, vol, g.fat0)
  }

  lemma TabAfterPutCell(g: Geo, vol: Volume, fat: nat, c: nat, v: nat, fat': nat)
    requires TableOnDisk(g, vol, fat) && TableOnDisk(g, vol, fat') && c < g.clustCnt && v < NIBBLE
    requires fat == fat' || fat + g.spf <= fat' || fat' + g.spf <= fat
    ensures TabAt(g, PutCell(vol, fat, c, v), fat')
         == if fat == fat' then TabAt(g, vol, fat')[c := v] else TabAt(g, vol, fat')
  {
    hide Cell, PutCell, Merge;
    forall d | 0 <= d < g.clustCnt
      ensures Cell(PutCell(vol, fat, c, v), fat', d) % NIBBLE
           == if fat == fat' && d == c then v else Cell(vol, fat', d) % NIBBLE
    {
      SamePlace(g, fat, c, fat', d);
      CellAfterPut(vol, fat, c, v, fat', d);
    }
  }

  /** A sector of zeroes holds entries of free clusters. */
  lemma ZeroCell(vol: Volume, fat: nat, c: nat)
    requires fat + c / 128 < |vol| && vol[fat + c / 128] == ZeroSector()
    ensures Cell(vol, fat, c) == 0
  {
  }

  lemma SamePlace(g: Geo, fat: nat, c: nat, fat': nat, d: nat)
    requires g.clustCnt == g.spf * 128 && c < g.clustCnt && d < g.clustCnt
    requires fat == fat' || fat + g.spf <= fat' || fat' + g.spf <= fat
    ensures fat' + d / 128 == fat + c / 128 && d % 128 == c % 128 <==> fat == fat' && d == c
  {
  }

  /** The mirror is written first, the active copy second. */
  function PutBoth(g: Geo, vol: Volume, c: nat, v: nat): (r: Volume)
    requires GeoOk(g, |vol|) && c < g.clustCnt
    ensures |r| == |vol|
  {
    PutCell(if g.fat1 != 0 then PutCell(vol, g.fat1, c, v) else vol, g.fat0, c, v)
  }

  /** The volume states put_fat goes through. */
  function PutSteps(g: Geo, vol: Volume, c: nat, v: nat): seq<Volume>
    requires GeoOk(g, |vol|) && c < g.clustCnt
  {
    if g.fat1 != 0 then [PutCell(vol, g.fat1, c, v), PutBoth(g, vol, c, v)] else [PutBoth(g, vol, c, v)]
  }

  /** b differs from a at most in table entries, FSInfo apart, and in those only below the upper nibble. */
  ghost predicate OnlyTables(g: Geo, a: Volume, b: Volume) {
    && |a| == |b| && GeoOk(g, |a|)
    && (forall s :: 0 <= s < |a| && !InFat(g, s) && s != g.infoSect ==> a[s] == b[s])
    && (forall c :: 0 <= c < g.clustCnt ==> Cell(a, g.fat0, c) / NIBBLE == Cell(b, g.fat0, c) / NIBBLE)
    && (g.fat1 != 0 ==> forall c :: 0 <= c < g.clustCnt ==> Cell(a, g.fat1, c) / NIBBLE == Cell(b, g.fat1, c) / NIBBLE)
  }

  lemma OnlyTablesRefl(g: Geo, a: Volume)
    requires GeoOk(g, |a|)
    ensures OnlyTables(g, a, a)
  {
  }

  lemma OnlyTablesTrans(g: Geo, a: Volume, b: Volume, c: Volume)
    requires OnlyTables(g, a, b) && OnlyTables(g, b, c)
    ensures OnlyTables(g, a, c)
  {
  }

  /** One entry changes in both copies alike and in nothing else; upper nibbles stay. */
  lemma AfterPutBoth(g: Geo, vol: Volume, c: nat, v: nat)
    requires GeoOk(g, |vol|) && c < g.clustCnt && v < NIBBLE
    ensures Tab(g, PutBoth(g, vol, c, v)) == Tab(g, vol)[c := v]
    ensures Mirrored(g, vol) ==> Mirrored(g, PutBoth(g, vol, c, v))
    ensures g.fat1 != 0 ==> TabAt(g, PutBoth(g, vol, c, v), g.fat1) == TabAt(g, vol, g.fat1)[c := v]
    ensures forall w :: w in PutSteps(g, vol, c, v) ==>
              |w| == |vol| && (Tab(g, w) == Tab(g, vol) || Tab(g, w) == Tab(g, vol)[c := v])
    ensures OnlyTables(g, vol, PutBoth(g, vol, c, v))
  {
    if g.fat1 != 0 {
      var m := PutCell(vol, g.fat1, c, v);
      TabAfterPutCell(g, vol, g.fat1, c, v, g.fat0);
      TabAfterPutCell(g, vol, g.fat1, c, v, g.fat1);
      TabAfterPutCell(g, m, g.fat0, c, v, g.fat0);
      TabAfterPutCell(g, m, g.fat0, c, v, g.fat1);
      OnlyTablesPut(g, vol, g.fat1, c, v);
      OnlyTablesPut(g, m, g.fat0, c, v);
    } else {
      TabAfterPutCell(g, vol, g.fat0, c, v, g.fat0);
      OnlyTablesPut(g, vol, g.fat0, c, v);
    }
  }

  lemma OnlyTablesPut(g: Geo, vol: Volume, fat: nat, c: nat, v: nat)
    requires GeoOk(g, |vol|) && c < g.clustCnt && (fat == g.fat0 || (fat == g.fat1 && fat != 0))
    ensures OnlyTables(g, vol, PutCell(vol, fat, c, v))
  {
    var w := PutCell(vol, fat, c, v);
    forall d | 0 <= d < g.clustCnt
      ensures Cell(vol, g.fat0, d) / NIBBLE == Cell(w, g.fat0, d) / NIBBLE
    {
      CellAfterPut(vol, fat, c, v, g.fat0, d);
    }
    if g.fat1 != 0 {
      forall d | 0 <= d < g.clustCnt
        ensures Cell(vol, g.fat1, d) / NIBBLE == Cell(w, g.fat1, d) / NIBBLE
      {
        CellAfterPut(vol, fat, c, v, g.fat1, d);
      }
    }
  }

  lemma OnlyTablesStep(g: Geo, vol: Volume, c: nat, v: nat)
    requires GeoOk(g, |vol|) && c < g.clustCnt && v < NIBBLE
    ensures OnlyTables(g, vol, PutSteps(g, vol, c, v)[0])
  {
    if g.fat1 != 0 {
      OnlyTablesPut(g, vol, g.fat1, c, v);
    } else {
      OnlyTablesPut(g, vol, g.fat0, c, v);
    }
  }

  datatype Put = Put(clust: nat, val: nat)

  predicate PutsOk(g: Geo, puts: seq<Put>) {
    forall i :: 0 <= i < |puts| ==> puts[i].clust < g.clustCnt && puts[i].val < NIBBLE
  }

  /** The volume after any sequence of put_fat calls. */
  function PutAll(g: Geo, vol: Volume, puts: seq<Put>): (r: Volume)
    requires GeoOk(g, |vol|) && PutsOk(g, puts)
    ensures |r| == |vol|
  {
    if puts == [] then vol
    else
      var n := |puts| - 1;
      PutBoth(g, PutAll(g, vol, puts[..n]), puts[n].clust, puts[n].val)
  }

  /** The value last put for cluster c, or the one it had. */
  function LastPut(puts: seq<Put>, c: nat, was: nat): nat {
    if puts == [] then was
    else if puts[|puts| - 1].clust == c then puts[|puts| - 1].val
    else LastPut(puts[..|puts| - 1], c, was)
  }

  /** Whatever is put in whatever order, both copies give back the value last put, agree if they agreed, and keep
      their own upper nibbles; no other sector changes. */
  lemma {:induction false} AfterPuts(g: Geo, vol: Volume, puts: seq<Put>, c: nat)
    requires GeoOk(g, |vol|) && PutsOk(g, puts) && c < g.clustCnt
    ensures Tab(g, PutAll(g, vol, puts))[c] == LastPut(puts, c, Tab(g, vol)[c])
    ensures g.fat1 != 0 ==> TabAt(g, PutAll(g, vol, puts), g.fat1)[c] == LastPut(puts, c, TabAt(g, vol, g.fat1)[c])
    ensures Mirrored(g, vol) ==> Mirrored(g, PutAll(g, vol, puts))
    ensures OnlyTables(g, vol, PutAll(g, vol, puts))
    decreases |puts|
  {
    hide OnlyTables, PutBoth, TabAt;
    if puts == [] {
      OnlyTablesRefl(g, vol);
    } else {
      var n := |puts| - 1;
      var before := PutAll(g, vol, puts[..n]);
      AfterPuts(g, vol, puts[..n], c);
      AfterPutBoth(g, before, puts[n].clust, puts[n].val);
      OnlyTablesTrans(g, vol, before, PutAll(g, vol, puts));
    }
  }

  // ---------------------------------------------------------------- FSInfo

  const INFO_FREE := 488
  const INFO_NEXT := 492

  function PutInfoIn(s: Sector, next: u32, free: u32): (r: Sector) {
    PutLe32(PutLe32(s, INFO_NEXT, next), INFO_FREE, free)
  }

  function PutInfo(g: Geo, vol: Volume, next: u32, free: u32): (r: Volume)
    requires GeoOk(g, |vol|)
    ensures |r| == |vol|
  {
    vol[g.infoSect := PutInfoIn(vol[g.infoSect], next, free)]
  }

  /** FSInfo reads back from where FAT32 has the free count and the next free cluster, and the tables do not notice
      it. */
  lemma AfterPutInfo(g: Geo, vol: Volume, next: u32, free: u32)
    requires GeoOk(g, |vol|)
    ensures var w := PutInfo(g, vol, next, free);
      && Le32(w[g.infoSect], INFO_NEXT) == next && Le32(w[g.infoSect], INFO_FREE) == free
      && Le32(w[g.infoSect], 492) == next && Le32(w[g.infoSect], 488) == free
      && SameTables(g, vol, w) && OnlyTables(g, vol, w)
  {
    var s := vol[g.infoSect];
    Le32AfterPut(s, INFO_NEXT, next, INFO_NEXT);
    Le32AfterPut(PutLe32(s, INFO_NEXT, next), INFO_FREE, free, INFO_NEXT);
    Le32AfterPut(PutLe32(s, INFO_NEXT, next), INFO_FREE, free, INFO_FREE);
    TablesAgree(g, vol, PutInfo(g, vol, next, free));
  }

  ghost predicate SameTables(g: Geo, a: Volume, b: Volume) {
    && |a| == |b| && GeoOk(g, |a|)
    && TabAt(g, a, g.fat0) == TabAt(g, b, g.fat0)
    && (g.fat1 != 0 ==> TabAt(g, a, g.fat1) == TabAt(g, b, g.fat1))
  }

  lemma TablesAgree(g: Geo, a: Volume, b: Volume)
    requires GeoOk(g, |a|) && |a| == |b|
    requires forall s :: 0 <= s < |a| && InFat(g, s) ==> a[s] == b[s]
    ensures SameTables(g, a, b)
  {
    forall c | 0 <= c < g.clustCnt
      ensures Cell(a, g.fat0, c) == Cell(b, g.fat0, c)
      ensures g.fat1 != 0 ==> Cell(a, g.fat1, c) == Cell(b, g.fat1, c)
    {
      assert InFat(g, g.fat0 + c / 128);
      assert g.fat1 != 0 ==> InFat(g, g.fat1 + c / 128);
    }
  }

  // ---------------------------------------------------------------- clusters

  function SectOf(g: Geo, clust: nat): nat
    requires clust >= 2
  {
    (clust - 2) * g.spc + g.dataSect
  }

  function ClustOf(g: Geo, sect: nat): nat
    requires g.spc > 0 && sect >= g.dataSect
  {
    (sect - g.dataSect) / g.spc + 2
  }

  /** n sectors from at on set to zero. */
  function ZeroSects(v: Volume, at: nat, n: nat): (w: Volume)
    ensures |w| == |v|
    ensures forall s :: 0 <= s < |v| ==> w[s] == if at <= s < at + n then ZeroSector() else v[s]
  {
    seq(|v|, s requires 0 <= s < |v| => ZeroOr(v[s], at <= s < at + n))
  }

  function ZeroOr(s: Sector, zero: bool): Sector { if zero then ZeroSector() else s }

  lemma ZeroSectsStep(v: Volume, at: nat, n: nat)
    requires at + n < |v|
    ensures ZeroSects(v, at, n)[at + n := ZeroSector()] == ZeroSects(v, at, n + 1)
  {
  }

  /** w differs from v in no sector below the data area. */
  ghost predicate SameSystem(g: Geo, v: Volume, w: Volume) {
    |v| == |w| && forall s :: 0 <= s < g.dataSect && s < |v| ==> v[s] == w[s]
  }

  /** No difference in the data area. */
  ghost predicate SameData(g: Geo, v: Volume, w: Volume) {
    |v| == |w| && forall s :: g.dataSect <= s < |v| ==> v[s] == w[s]
  }

  lemma TablesOnlySameData(g: Geo, v: Volume, w: Volume)
    requires OnlyTables(g, v, w)
    ensures SameData(g, v, w)
  {
  }

  ghost predicate SameBut(v: Volume, w: Volume, at: nat, n: nat) {
    |v| == |w| && forall s :: 0 <= s < |v| && !(at <= s < at + n) ==> v[s] == w[s]
  }

  lemma ZeroSectsMean(g: Geo, v: Volume, at: nat, n: nat)
    requires g.dataSect <= at && n <= g.spc
    ensures SameSystem(g, v, ZeroSects(v, at, n)) && SameBut(v, ZeroSects(v, at, n), at, g.spc)
    ensures n == 0 ==> ZeroSects(v, at, n) == v
  {
  }

  /** Data sectors do not matter to the tables. */
  lemma DataKeepsTables(g: Geo, v: Volume, w: Volume)
    requires GeoOk(g, |v|) && SameSystem(g, v, w)
    ensures SameTables(g, v, w) && Tab(g, v) == Tab(g, w)
  {
    TablesAgree(g, v, w);
  }
}
