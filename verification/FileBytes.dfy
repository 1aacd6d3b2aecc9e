/** The bytes of a file as a function of the volume's contents and of the clusters of its chain. */
module FileBytes {
  import opened Arith
  import opened Bytes
  import opened Chain
  import opened Layout
  import opened FatVolume
  import opened DirLayout
  import opened DirGrow

  function ByteCnt(g: Geo, cs: seq<nat>): nat { SECTOR_SIZE * SectCnt(g, cs) }

  function ByteAt(g: Geo, v: Volume, cs: seq<nat>, i: nat): byte
    requires OnMedium(g, v, cs) && i < ByteCnt(g, cs)
  {
    ChainSectIn(g, |v|, cs, i / SECTOR_SIZE);
    v[ChainSect(g, cs, i / SECTOR_SIZE)][i % SECTOR_SIZE]
  }

  /** Everything the clusters cs hold, in order. */
  function Allocated(g: Geo, v: Volume, cs: seq<nat>): (bs: seq<byte>)
    requires OnMedium(g, v, cs)
    ensures |bs| == ByteCnt(g, cs)
  {
    seq(ByteCnt(g, cs), i requires 0 <= i < ByteCnt(g, cs) => ByteAt(g, v, cs, i))
  }

  /** The q-th 512 bytes are the q-th sector. */
  lemma SectorOfBytes(g: Geo, v: Volume, cs: seq<nat>, q: nat)
    requires OnMedium(g, v, cs) && q < SectCnt(g, cs)
    ensures g.dataSect <= ChainSect(g, cs, q) < |v|
    ensures SECTOR_SIZE * q + SECTOR_SIZE <= ByteCnt(g, cs)
    ensures Allocated(g, v, cs)[SECTOR_SIZE * q..SECTOR_SIZE * q + SECTOR_SIZE] == v[ChainSect(g, cs, q)]
  {
    hide ChainSect, SectCnt;
    ChainSectIn(g, |v|, cs, q);
    var part := Allocated(g, v, cs)[SECTOR_SIZE * q..SECTOR_SIZE * q + SECTOR_SIZE];
    forall j | 0 <= j < SECTOR_SIZE ensures part[j] == v[ChainSect(g, cs, q)][j] {
      assert part[j] == ByteAt(g, v, cs, SECTOR_SIZE * q + j);
    }
  }

  /** Storing a sector of the chain replaces its 512 bytes and no others. */
  lemma AllocatedPut(g: Geo, v: Volume, cs: seq<nat>, q: nat, data: Sector)
    requires OnMedium(g, v, cs) && Distinct(cs) && q < SectCnt(g, cs)
    ensures g.dataSect <= ChainSect(g, cs, q) < |v| && SECTOR_SIZE * q + SECTOR_SIZE <= ByteCnt(g, cs)
    ensures OnMedium(g, v[ChainSect(g, cs, q) := data], cs)
    ensures Allocated(g, v[ChainSect(g, cs, q) := data], cs) == Splice(Allocated(g, v, cs), SECTOR_SIZE * q, data)
  {
    hide ChainSect, SectCnt, Distinct;
    ChainSectIn(g, |v|, cs, q);
    var w := v[ChainSect(g, cs, q) := data];
    forall i | 0 <= i < ByteCnt(g, cs)
      ensures ByteAt(g, w, cs, i)
           == if SECTOR_SIZE * q <= i < SECTOR_SIZE * q + SECTOR_SIZE then data[i - SECTOR_SIZE * q]
              else ByteAt(g, v, cs, i)
    {
      ChainSectIn(g, |v|, cs, i / SECTOR_SIZE);
      if ChainSect(g, cs, i / SECTOR_SIZE) == ChainSect(g, cs, q) {
        ChainSectUnique(g, cs, i / SECTOR_SIZE, q);
      }
    }
  }

  /** A longer chain, on a volume with the same data: the old bytes come first. */
  lemma AllocatedExtend(g: Geo, v: Volume, w: Volume, cs: seq<nat>, all: seq<nat>)
    requires OnMedium(g, v, cs) && OnMedium(g, w, all) && cs <= all && |v| == |w|
    requires forall s :: g.dataSect <= s < |v| ==> v[s] == w[s]
    ensures Allocated(g, v, cs) <= Allocated(g, w, all)
  {
    hide GeoOk;
    SectCntMono(g, cs, all);
    forall i | 0 <= i < ByteCnt(g, cs) ensures ByteAt(g, v, cs, i) == ByteAt(g, w, all, i) {
      ChainSectIn(g, |v|, cs, i / SECTOR_SIZE);
      ChainSectPrefix(g, cs, all, i / SECTOR_SIZE);
    }
  }

  lemma SectCntMono(g: Geo, cs: seq<nat>, all: seq<nat>)
    requires cs <= all
    ensures SectCnt(g, cs) <= SectCnt(g, all)
  {
    if |cs| < |all| {
      MulLess(|cs|, |all|, g.spc);
    }
  }

  lemma ChainSectPrefix(g: Geo, cs: seq<nat>, all: seq<nat>, q: nat)
    requires g.spc > 0 && ClustersOk(g, cs) && ClustersOk(g, all) && cs <= all && q < SectCnt(g, cs)
    ensures q < SectCnt(g, all) && ChainSect(g, all, q) == ChainSect(g, cs, q)
  {
    SectCntMono(g, cs, all);
    DivBelow(q, g.spc, |cs|);
  }

  /** off / (512 * spc), the driver's cluster index, is the sector index divided by the cluster size. */
  lemma ClusterIndex(off: nat, spc: nat)
    requires spc > 0
    ensures off / (SECTOR_SIZE * spc) == off / SECTOR_SIZE / spc
  {
    var q, r := off / SECTOR_SIZE, off % SECTOR_SIZE;
    var k, j := q / spc, q % spc;
    assert q == k * spc + j;
    assert k * (SECTOR_SIZE * spc) == SECTOR_SIZE * (k * spc);
    DivUnique(off, SECTOR_SIZE * spc, k, SECTOR_SIZE * j + r);
  }

  /** Offsets in clusters the chain has. */
  lemma OffsetIn(g: Geo, cs: seq<nat>, off: nat)
    requires g.spc > 0
    ensures off / (SECTOR_SIZE * g.spc) < |cs| <==> off < ByteCnt(g, cs)
    ensures off / SECTOR_SIZE < SectCnt(g, cs) <==> off < ByteCnt(g, cs)
  {
    ClusterIndex(off, g.spc);
    DivIff(off / SECTOR_SIZE, g.spc, |cs|);
    SectorIndex(off, SectCnt(g, cs));
  }

  lemma SectorIndex(off: nat, n: nat)
    ensures off / SECTOR_SIZE < n <==> off < SECTOR_SIZE * n
  {
  }
}
