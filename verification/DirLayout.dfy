/** Data clusters as sectors and a directory's clusters as one sequence of entries. */
module DirLayout {
  import opened Arith
  import opened Bytes
  import opened Chain
  import opened Layout
  import opened LongName
  import opened Records

  const PER_SECTOR := 16

  /** A volume whose clusters are all on the medium, and aligned to the cluster size, which is what lets
      dir_next test the sector number against the cluster mask. */
  predicate DataOk(g: Geo, size: nat) {
    GeoOk(g, size) && HoldsClusters(g, size) && g.dataSect % g.spc == 0
  }

  // ---------------------------------------------------------------- sector numbers

  lemma SectInRange(g: Geo, size: nat, c: nat, j: nat)
    requires DataOk(g, size) && 2 <= c < g.clustCnt && j < g.spc
    ensures g.dataSect <= SectOf(g, c) && SectOf(g, c) + j < size
  {
    MulLess(c - 2, g.clustCnt - 2, g.spc);
  }

  /** Sectors of different clusters, and different sectors of a cluster, are different. */
  lemma SectUnique(g: Geo, c: nat, j: nat, d: nat, i: nat)
    requires 2 <= c && 2 <= d && j < g.spc && i < g.spc
    requires SectOf(g, c) + j == SectOf(g, d) + i
    ensures c == d && j == i
  {
    if c < d {
      MulLess(c - 2, d - 2, g.spc);
      assert false;
    } else if d < c {
      MulLess(d - 2, c - 2, g.spc);
      assert false;
    }
  }

  /** The cluster a sector belongs to. */
  lemma ClustOfSect(g: Geo, c: nat, j: nat)
    requires 2 <= c && j < g.spc
    ensures g.dataSect <= SectOf(g, c) + j && ClustOf(g, SectOf(g, c) + j) == c
  {
    assert (c - 2) * g.spc >= 0;
    DivUnique(SectOf(g, c) + j - g.dataSect, g.spc, c - 2, j);
  }

  /** The driver's test for the first sector of a cluster is right exactly because the data area is aligned. */
  lemma BoundaryTest(g: Geo, size: nat, c: nat, j: nat)
    requires DataOk(g, size) && 2 <= c && j <= g.spc
    ensures (SectOf(g, c) + j) % g.spc == if j == g.spc then 0 else j
  {
    var k := g.dataSect / g.spc;
    assert g.dataSect == k * g.spc;
    assert SectOf(g, c) == (c - 2 + k) * g.spc;
    if j == g.spc {
      assert SectOf(g, c) + j == (c - 1 + k) * g.spc + 0;
      DivUnique(SectOf(g, c) + j, g.spc, c - 1 + k, 0);
    } else {
      DivUnique(SectOf(g, c) + j, g.spc, c - 2 + k, j);
    }
  }

  /** The test dir_next applies to the sector j sectors behind the start of c. */
  predicate SeemsNewCluster(g: Geo, c: nat, j: nat)
    requires g.spc > 0 && 2 <= c
  {
    (SectOf(g, c) + j) % g.spc == 0
  }

  /** It tells the first sector of the next cluster from the sectors of this one if and only if the data
      area is aligned to the cluster size. */
  lemma BoundaryTestIff(g: Geo, c: nat)
    requires g.spc > 0 && 2 <= c
    ensures (forall j :: 1 <= j <= g.spc ==> (SeemsNewCluster(g, c, j) <==> j == g.spc)) <==> g.dataSect % g.spc == 0
  {
    hide SectOf;
    var r := g.dataSect % g.spc;
    forall j | 1 <= j <= g.spc
      ensures SeemsNewCluster(g, c, j) <==> r + j == g.spc || r + j == 2 * g.spc
    {
      BoundaryAt(g, c, j);
    }
    assert r != 0 ==> SeemsNewCluster(g, c, g.spc - r);
  }

  lemma BoundaryAt(g: Geo, c: nat, j: nat)
    requires g.spc > 0 && 2 <= c && 1 <= j <= g.spc
    ensures SeemsNewCluster(g, c, j) <==> g.dataSect % g.spc + j == g.spc || g.dataSect % g.spc + j == 2 * g.spc
  {
    var k := g.dataSect / g.spc;
    MultipleIff(SectOf(g, c) + j, g.spc, c - 2 + k, g.dataSect % g.spc + j);
  }

  lemma MultipleIff(a: nat, n: nat, k: nat, m: nat)
    requires n > 0 && a == k * n + m && m <= 2 * n
    ensures a % n == 0 <==> m == 0 || m == n || m == 2 * n
  {
    if m < n {
      DivUnique(a, n, k, m);
    } else if m < 2 * n {
      assert (k + 1) * n == k * n + n;
      DivUnique(a, n, k + 1, m - n);
    } else {
      assert (k + 2) * n == k * n + 2 * n;
      DivUnique(a, n, k + 2, 0);
    }
  }

  // ---------------------------------------------------------------- the sectors of a chain

  predicate ClustersOk(g: Geo, cs: seq<nat>) {
    forall i :: 0 <= i < |cs| ==> 2 <= cs[i] < g.clustCnt
  }

  function SectCnt(g: Geo, cs: seq<nat>): nat { |cs| * g.spc }

  /** Where in its chain the cluster of sector q stands. */
  function ClustPos(g: Geo, q: nat): nat
    requires g.spc > 0
  {
    q / g.spc
  }

  /** The q-th sector of the clusters cs. */
  function ChainSect(g: Geo, cs: seq<nat>, q: nat): nat
    requires g.spc > 0 && ClustersOk(g, cs) && q < SectCnt(g, cs)
  {
    DivBelow(q, g.spc, |cs|);
    SectOf(g, cs[q / g.spc]) + q % g.spc
  }

  lemma IndexIn(g: Geo, cs: seq<nat>, q: nat)
    requires g.spc > 0
    ensures q / g.spc < |cs| <==> q < SectCnt(g, cs)
  {
    DivIff(q, g.spc, |cs|);
  }

  lemma ChainSectIs(g: Geo, cs: seq<nat>, q: nat)
    requires g.spc > 0 && ClustersOk(g, cs) && q < SectCnt(g, cs)
    ensures q / g.spc < |cs| && 2 <= cs[q / g.spc] < g.clustCnt
    ensures ChainSect(g, cs, q) == SectOf(g, cs[q / g.spc]) + q % g.spc
  {
    IndexIn(g, cs, q);
  }

  lemma ChainSectIn(g: Geo, size: nat, cs: seq<nat>, q: nat)
    requires DataOk(g, size) && ClustersOk(g, cs) && q < SectCnt(g, cs)
    ensures g.dataSect <= ChainSect(g, cs, q) < size
    ensures ClustOf(g, ChainSect(g, cs, q)) in cs
  {
    DivBelow(q, g.spc, |cs|);
    SectInRange(g, size, cs[q / g.spc], q % g.spc);
    ClustOfSect(g, cs[q / g.spc], q % g.spc);
  }

  predicate Distinct(cs: seq<nat>) {
    forall i, j :: 0 <= i < j < |cs| ==> cs[i] != cs[j]
  }

  lemma SameCluster(cs: seq<nat>, k: nat, l: nat)
    requires Distinct(cs) && k < |cs| && l < |cs| && cs[k] == cs[l]
    ensures k == l
  {
  }

  lemma ChainSectUnique(g: Geo, cs: seq<nat>, q: nat, r: nat)
    requires g.spc > 0 && ClustersOk(g, cs) && Distinct(cs) && q < SectCnt(g, cs) && r < SectCnt(g, cs)
    requires ChainSect(g, cs, q) == ChainSect(g, cs, r)
    ensures q == r
  {
    hide SectOf, SectCnt, ChainSect, Distinct, ClustersOk;
    ChainSectIs(g, cs, q);
    ChainSectIs(g, cs, r);
    var k, l := q / g.spc, r / g.spc;
    SectUnique(g, cs[k], q % g.spc, cs[l], r % g.spc);
    SameCluster(cs, k, l);
    SameDiv(q, r, g.spc);
  }

  /** Extending the chain keeps the sectors it had, and appends those of the new cluster. */
  lemma ChainSectExtend(g: Geo, cs: seq<nat>, d: nat, q: nat)
    requires g.spc > 0 && ClustersOk(g, cs) && 2 <= d < g.clustCnt && q < SectCnt(g, cs + [d])
    ensures ChainSect(g, cs + [d], q) ==
              if q < SectCnt(g, cs) then ChainSect(g, cs, q) else SectOf(g, d) + (q - SectCnt(g, cs))
    ensures SectCnt(g, cs + [d]) == SectCnt(g, cs) + g.spc
  {
    assert SectCnt(g, cs + [d]) == SectCnt(g, cs) + g.spc;
    if q < SectCnt(g, cs) {
      DivBelow(q, g.spc, |cs|);
    } else {
      DivUnique(q, g.spc, |cs|, q - SectCnt(g, cs));
    }
  }

  // ---------------------------------------------------------------- a directory's entries

  function EntryOf(s: Sector, i: nat): (e: Entry)
    requires i < PER_SECTOR
  {
    s[ENTRY_SIZE * i..ENTRY_SIZE * i + ENTRY_SIZE]
  }

  function PutEntryIn(s: Sector, i: nat, e: Entry): (r: Sector)
    requires i < PER_SECTOR
  {
    Splice(s, ENTRY_SIZE * i, e)
  }

  lemma EntryAfterPut(s: Sector, i: nat, e: Entry, j: nat)
    requires i < PER_SECTOR && j < PER_SECTOR
    ensures EntryOf(PutEntryIn(s, i, e), j) == if j == i then e else EntryOf(s, j)
  {
  }

  predicate OnMedium(g: Geo, vol: Volume, cs: seq<nat>) {
    DataOk(g, |vol|) && ClustersOk(g, cs)
  }

  function EntryCnt(g: Geo, cs: seq<nat>): nat { PER_SECTOR * SectCnt(g, cs) }

  function Dirent(g: Geo, vol: Volume, cs: seq<nat>, p: nat): Entry
    requires OnMedium(g, vol, cs) && p < EntryCnt(g, cs)
  {
    ChainSectIn(g, |vol|, cs, p / PER_SECTOR);
    EntryOf(vol[ChainSect(g, cs, p / PER_SECTOR)], p % PER_SECTOR)
  }

  /** All entries of a directory that occupies the clusters cs. */
  function Dirents(g: Geo, vol: Volume, cs: seq<nat>): (es: seq<Entry>)
    requires OnMedium(g, vol, cs)
    ensures |es| == EntryCnt(g, cs)
  {
    seq(EntryCnt(g, cs), p requires 0 <= p < EntryCnt(g, cs) => Dirent(g, vol, cs, p))
  }

  /** vol is a well-formed volume on which the chain that starts at c has the clusters cs. */
  ghost predicate ChainOn(g: Geo, vol: Volume, c: nat, cs: seq<nat>) {
    && DataOk(g, |vol|) && 2 <= c < g.clustCnt
    && IsChain(Tab(g, vol), c, cs)
  }

  lemma ChainOnMedium(g: Geo, vol: Volume, c: nat, cs: seq<nat>)
    requires ChainOn(g, vol, c, cs)
    ensures OnMedium(g, vol, cs) && Distinct(cs) && |cs| > 0
  {
    forall i, j | 0 <= i < j < |cs| ensures cs[i] != cs[j] {
      ChainNoDup(Tab(g, vol), c, cs, i, j);
    }
  }

  lemma DirentsSame(g: Geo, v: Volume, w: Volume, cs: seq<nat>)
    requires OnMedium(g, v, cs) && SameData(g, v, w)
    ensures OnMedium(g, w, cs) && Dirents(g, v, cs) == Dirents(g, w, cs)
  {
    hide ChainSect, EntryOf;
    forall p | 0 <= p < EntryCnt(g, cs) ensures Dirent(g, v, cs, p) == Dirent(g, w, cs, p) {
      ChainSectIn(g, |v|, cs, p / PER_SECTOR);
    }
  }

  /** w differs from v in no data sector outside the clusters cs. */
  ghost predicate SameOutside(g: Geo, v: Volume, w: Volume, cs: seq<nat>) {
    && |v| == |w| && g.spc > 0
    && forall s :: g.dataSect <= s < |v| && ClustOf(g, s) !in cs ==> v[s] == w[s]
  }

  /** The volume with e stored as entry p of the directory in the clusters cs. */
  function PutDirent(g: Geo, v: Volume, cs: seq<nat>, p: nat, e: Entry): (w: Volume)
    requires OnMedium(g, v, cs) && p < EntryCnt(g, cs)
    ensures |w| == |v|
  {
    ChainSectIn(g, |v|, cs, p / PER_SECTOR);
    var s := ChainSect(g, cs, p / PER_SECTOR);
    v[s := PutEntryIn(v[s], p % PER_SECTOR, e)]
  }

  lemma DirentAfterPut(g: Geo, v: Volume, cs: seq<nat>, p: nat, e: Entry, r: nat)
    requires OnMedium(g, v, cs) && Distinct(cs) && p < EntryCnt(g, cs) && r < EntryCnt(g, cs)
    ensures Dirent(g, PutDirent(g, v, cs, p, e), cs, r) == if r == p then e else Dirent(g, v, cs, r)
  {
    hide ChainSect, PutEntryIn, EntryOf, Distinct;
    var s, t := ChainSect(g, cs, p / PER_SECTOR), ChainSect(g, cs, r / PER_SECTOR);
    ChainSectIn(g, |v|, cs, p / PER_SECTOR);
    ChainSectIn(g, |v|, cs, r / PER_SECTOR);
    EntryAfterPut(v[s], p % PER_SECTOR, e, r % PER_SECTOR);
    if s == t {
      ChainSectUnique(g, cs, p / PER_SECTOR, r / PER_SECTOR);
    }
  }

  /** Writing entry p of the directory changes that entry and nothing else. */
  lemma DirentsPut(g: Geo, v: Volume, c: nat, cs: seq<nat>, p: nat, e: Entry)
    requires ChainOn(g, v, c, cs) && OnMedium(g, v, cs) && p < EntryCnt(g, cs)
    ensures var w := PutDirent(g, v, cs, p, e);
            SameSystem(g, v, w) && SameOutside(g, v, w, cs) && ChainOn(g, w, c, cs)
    ensures Dirents(g, PutDirent(g, v, cs, p, e), cs) == Dirents(g, v, cs)[p := e]
  {
    hide ChainSect, PutEntryIn, EntryOf, Distinct, Tab, IsChain, Dirent, GeoOk;
    ChainOnMedium(g, v, c, cs);
    var w := PutDirent(g, v, cs, p, e);
    ChainSectIn(g, |v|, cs, p / PER_SECTOR);
    DataKeepsTables(g, v, w);
    forall r | 0 <= r < EntryCnt(g, cs)
      ensures Dirent(g, w, cs, r) == if r == p then e else Dirent(g, v, cs, r)
    {
      DirentAfterPut(g, v, cs, p, e, r);
    }
  }

  /** The test of dir_next, made before the step. */
  predicate AtBoundary(g: Geo, sect: nat)
    requires g.spc > 0
  {
    (sect + 1) % g.spc == 0
  }

  /** From one sector of a directory to the next: the driver's test, and where it leads. */
  lemma NextSect(g: Geo, size: nat, cs: seq<nat>, q: nat)
    requires DataOk(g, size) && ClustersOk(g, cs) && q < SectCnt(g, cs)
    ensures ClustPos(g, q) < |cs|
    ensures !AtBoundary(g, ChainSect(g, cs, q)) ==>
              && q + 1 < SectCnt(g, cs) && ClustPos(g, q + 1) == ClustPos(g, q)
              && ChainSect(g, cs, q + 1) == ChainSect(g, cs, q) + 1
    ensures AtBoundary(g, ChainSect(g, cs, q)) ==>
              && (ClustPos(g, q) == |cs| - 1 <==> q + 1 == SectCnt(g, cs))
              && (ClustPos(g, q) < |cs| - 1 ==>
                    && q + 1 < SectCnt(g, cs) && ClustPos(g, q + 1) == ClustPos(g, q) + 1
                    && ChainSect(g, cs, q + 1) == SectOf(g, cs[ClustPos(g, q) + 1]))
  {
    hide SectOf, ChainSect;
    DivBelow(q, g.spc, |cs|);
    if q % g.spc + 1 < g.spc {
      NextInCluster(g, size, cs, q);
    } else {
      NextCluster(g, size, cs, q);
    }
  }

  lemma NextInCluster(g: Geo, size: nat, cs: seq<nat>, q: nat)
    requires DataOk(g, size) && ClustersOk(g, cs) && q < SectCnt(g, cs) && q % g.spc + 1 < g.spc
    ensures (ChainSect(g, cs, q) + 1) % g.spc != 0
    ensures q + 1 < SectCnt(g, cs) && (q + 1) / g.spc == q / g.spc
    ensures ChainSect(g, cs, q + 1) == ChainSect(g, cs, q) + 1
  {
    hide SectOf, SectCnt, ChainSect;
    var k, j := q / g.spc, q % g.spc;
    DivBack(q, g.spc);
    DivUnique(q + 1, g.spc, k, j + 1);
    ChainSectIs(g, cs, q);
    IndexIn(g, cs, q + 1);
    ChainSectIs(g, cs, q + 1);
    BoundaryTest(g, size, cs[k], j + 1);
  }

  lemma NextCluster(g: Geo, size: nat, cs: seq<nat>, q: nat)
    requires DataOk(g, size) && ClustersOk(g, cs) && q < SectCnt(g, cs) && q % g.spc + 1 == g.spc
    ensures q / g.spc < |cs| && (ChainSect(g, cs, q) + 1) % g.spc == 0
    ensures q / g.spc == |cs| - 1 <==> q + 1 == SectCnt(g, cs)
    ensures q / g.spc < |cs| - 1 ==>
              && q + 1 < SectCnt(g, cs) && (q + 1) / g.spc == q / g.spc + 1
              && ChainSect(g, cs, q + 1) == SectOf(g, cs[q / g.spc + 1])
  {
    hide SectOf, SectCnt, ChainSect;
    var k, j := q / g.spc, q % g.spc;
    DivBack(q, g.spc);
    NextMultiple(k, g.spc);
    DivUnique(q + 1, g.spc, k + 1, 0);
    ChainSectIs(g, cs, q);
    BoundaryTest(g, size, cs[k], j + 1);
    IndexIn(g, cs, q + 1);
    SectCntIs(g, cs);
    if k + 1 < |cs| {
      ChainSectIs(g, cs, q + 1);
    }
  }

  lemma SectCntIs(g: Geo, cs: seq<nat>)
    ensures SectCnt(g, cs) == |cs| * g.spc
  {
  }

  lemma SectRoom(k: nat, n: nat, spc: nat)
    requires k < n
    ensures k * spc + spc <= n * spc
  {
    MulLess(k, n, spc);
  }

  /** The first sector of cluster i of a chain. */
  lemma FirstSect(g: Geo, cs: seq<nat>, i: nat)
    requires g.spc > 0 && ClustersOk(g, cs) && i < |cs|
    ensures i * g.spc < SectCnt(g, cs) && i * g.spc / g.spc == i
    ensures ChainSect(g, cs, i * g.spc) == SectOf(g, cs[i])
  {
    SectRoom(i, |cs|, g.spc);
    DivUnique(i * g.spc, g.spc, i, 0);
  }

  lemma DirentIs(g: Geo, vol: Volume, cs: seq<nat>, q: nat, i: nat)
    requires OnMedium(g, vol, cs) && q < SectCnt(g, cs) && i < PER_SECTOR
    ensures g.dataSect <= ChainSect(g, cs, q) < |vol|
    ensures Dirents(g, vol, cs)[PER_SECTOR * q + i] == EntryOf(vol[ChainSect(g, cs, q)], i)
  {
    hide ChainSect, EntryOf, GeoOk, SectCnt;
    ChainSectIn(g, |vol|, cs, q);
    assert Dirents(g, vol, cs)[PER_SECTOR * q + i] == Dirent(g, vol, cs, PER_SECTOR * q + i);
  }

  predicate SectorZero(v: Volume, s: nat) {
    s < |v| && v[s] == ZeroSector()
  }

  /** A directory grown by a cleared cluster goes on with zero entries. */
  lemma DirentsExtend(g: Geo, v: Volume, w: Volume, cs: seq<nat>, d: nat)
    requires OnMedium(g, v, cs) && 2 <= d < g.clustCnt && d !in cs
    requires SameOutside(g, v, w, [d]) && forall s :: SectOf(g, d) <= s < SectOf(g, d) + g.spc ==> SectorZero(w, s)
    ensures OnMedium(g, w, cs + [d]) && |Dirents(g, w, cs + [d])| == |Dirents(g, v, cs)| + PER_SECTOR * g.spc
    ensures forall p :: 0 <= p < |Dirents(g, w, cs + [d])| ==>
              Dirents(g, w, cs + [d])[p] == EntryAt(Dirents(g, v, cs), p)
  {
    hide ChainSect, SectOf, EntryOf, SectCnt;
    ChainSectExtendCount(g, cs, d);
    forall p | 0 <= p < EntryCnt(g, cs + [d])
      ensures Dirent(g, w, cs + [d], p) == EntryAt(Dirents(g, v, cs), p)
    {
      var q := p / PER_SECTOR;
      ChainSectExtend(g, cs, d, q);
      if q < SectCnt(g, cs) {
        ChainSectIn(g, |v|, cs, q);
      } else {
        ZeroEntries(p % PER_SECTOR);
        var j := q - SectCnt(g, cs);
        assert 0 <= j < g.spc;
        assert SectorZero(w, SectOf(g, d) + j);
      }
    }
  }

  lemma ChainSectExtendCount(g: Geo, cs: seq<nat>, d: nat)
    ensures SectCnt(g, cs + [d]) == SectCnt(g, cs) + g.spc
  {
  }

  lemma ZeroEntries(i: nat)
    requires i < PER_SECTOR
    ensures EntryOf(ZeroSector(), i) == ZeroEntry()
  {
  }
}
