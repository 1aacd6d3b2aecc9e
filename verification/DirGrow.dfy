/** What a change to a directory does to the volume: the clusters it may gain, and what stays as it was. */
module DirGrow {
  import opened Bytes
  import opened Chain
  import opened Layout
  import opened FatVolume
  import opened LongName
  import opened Records
  import opened DirLayout

  /** The clusters all[n] .. all[m] linked one after the other behind all[n - 1]. */
  function Grow(t: Table, all: seq<nat>, n: nat, m: nat): (u: Table)
    requires 1 <= n <= m <= |all| && forall i :: 0 <= i < |all| ==> 2 <= all[i] < |t|
    ensures |u| == |t|
    decreases m
  {
    if m == n then t else Linked(Grow(t, all, n, m - 1), all[m - 2], all[m - 1])
  }

  /** w is v with the directory that had the clusters cs changed inside its clusters, and grown to the clusters
      all; the added ones were free. */
  ghost predicate Grown(g: Geo, v: Volume, w: Volume, cs: seq<nat>, all: seq<nat>) {
    && |v| == |w| && DataOk(g, |v|) && 1 <= |cs| && cs <= all && ClustersOk(g, all)
    && SameOutside(g, v, w, all)
    && (Mirrored(g, v) ==> Mirrored(g, w))
    && GrownTab(Tab(g, v), Tab(g, w), |cs|, all)
  }

  ghost predicate GrownTab(t: Table, u: Table, n: nat, all: seq<nat>) {
    && 1 <= n <= |all| && (forall i :: 0 <= i < |all| ==> 2 <= all[i] < |t|)
    && (forall i :: n <= i < |all| ==> t[all[i]] == 0)
    && u == Grow(t, all, n, |all|)
  }

  lemma SameOutsideTrans(g: Geo, u: Volume, v: Volume, w: Volume, cs: seq<nat>, all: seq<nat>)
    requires SameOutside(g, u, v, cs) && SameOutside(g, v, w, all) && cs <= all
    ensures SameOutside(g, u, w, all)
  {
  }

  lemma SameRefl(g: Geo, v: Volume, cs: seq<nat>)
    requires g.spc > 0
    ensures SameSystem(g, v, v) && SameOutside(g, v, v, cs)
  {
  }

  lemma SameTrans(g: Geo, u: Volume, v: Volume, w: Volume, cs: seq<nat>)
    requires SameSystem(g, u, v) && SameOutside(g, u, v, cs) && SameSystem(g, v, w) && SameOutside(g, v, w, cs)
    ensures SameSystem(g, u, w) && SameOutside(g, u, w, cs)
  {
  }

  lemma GrownRefl(g: Geo, v: Volume, cs: seq<nat>)
    requires DataOk(g, |v|) && 1 <= |cs| && ClustersOk(g, cs)
    ensures Grown(g, v, v, cs, cs)
  {
  }

  /** Writing entries of the grown directory keeps it a grown directory. */
  lemma GrownPut(g: Geo, v: Volume, w: Volume, x: Volume, cs: seq<nat>, all: seq<nat>)
    requires Grown(g, v, w, cs, all) && SameSystem(g, w, x) && SameOutside(g, w, x, all)
    ensures Grown(g, v, x, cs, all)
  {
    hide Tab, TabAt, ClustOf, GeoOk, HoldsClusters, GrownTab;
    DataKeepsTables(g, w, x);
    SameOutsideTrans(g, v, w, x, all, all);
    assert SameTables(g, w, x);
  }

  /** A chosen cluster is not one of the directory's. */
  lemma NewNotOld(t: Table, c: nat, cs: seq<nat>, d: nat)
    requires TableOk(t) && IsChain(t, c, cs) && d < |t| && t[d] == 0
    ensures d !in cs
  {
    forall i | 0 <= i < |cs| ensures cs[i] != d {
      ChainLink(t, c, cs, i);
    }
  }

  /** stretch_chain and clust_clear at the end of a directory: it goes on with zero entries in a cluster that
      was free, and no data sector outside that cluster has changed. */
  lemma StretchDir(g: Geo, v: Volume, w: Volume, x: Volume, c: nat, cs: seq<nat>, last: nat, d: nat)
    requires ChainOn(g, v, c, cs) && OnMedium(g, v, cs) && 2 <= last < g.clustCnt && |w| == |v|
    requires Stretched(g, v, last, cs[|cs| - 1], d, w) && 2 <= d && x == ZeroSects(w, SectOf(g, d), g.spc)
    ensures Tab(g, v)[d] == 0 && d !in cs
    ensures Tab(g, x) == Linked(Tab(g, v), cs[|cs| - 1], d) && (Mirrored(g, v) ==> Mirrored(g, x))
    ensures SameOutside(g, v, x, [d])
    ensures ChainOn(g, x, c, cs + [d]) && OnMedium(g, x, cs + [d])
    ensures forall p :: 0 <= p < EntryCnt(g, cs + [d]) ==> Dirents(g, x, cs + [d])[p] == EntryAt(Dirents(g, v, cs), p)
    ensures |Dirents(g, x, cs + [d])| == |Dirents(g, v, cs)| + PER_SECTOR * g.spc
  {
    var t := Tab(g, v);
    ChooseResult(t, last, cs[|cs| - 1]);
    NewNotOld(t, c, cs, d);
    ChainLink(t, c, cs, |cs| - 1);
    LinkedChain(t, cs[|cs| - 1], d, c, cs);
    ClearedOutside(g, v, w, x, d);
    DataKeepsTables(g, w, x);
    DirentsExtend(g, v, x, cs, d);
  }

  lemma ClearedOutside(g: Geo, v: Volume, w: Volume, x: Volume, d: nat)
    requires DataOk(g, |v|) && OnlyTables(g, v, w) && 2 <= d < g.clustCnt && x == ZeroSects(w, SectOf(g, d), g.spc)
    ensures SameSystem(g, w, x) && SameOutside(g, v, x, [d])
    ensures forall s :: SectOf(g, d) <= s < SectOf(g, d) + g.spc ==> SectorZero(x, s)
  {
    SectInRange(g, |v|, d, g.spc - 1);
    ClustOfSect(g, d, 0);
    forall s | g.dataSect <= s < |v| && ClustOf(g, s) != d ensures v[s] == x[s] {
      if SectOf(g, d) <= s < SectOf(g, d) + g.spc {
        ClustOfSect(g, d, s - SectOf(g, d));
      }
    }
  }

  lemma GrownStretch(g: Geo, u: Volume, v: Volume, x: Volume, cs: seq<nat>, all: seq<nat>, d: nat)
    requires Grown(g, u, v, cs, all) && |x| == |v| && 2 <= d < g.clustCnt && Tab(g, v)[d] == 0
    requires Tab(g, x) == Linked(Tab(g, v), all[|all| - 1], d) && (Mirrored(g, v) ==> Mirrored(g, x))
    requires SameOutside(g, v, x, [d])
    ensures Grown(g, u, x, cs, all + [d])
  {
    hide Tab, TabAt, ClustOf, GeoOk, HoldsClusters, Mirrored, GrownTab;
    SameOutsideWider(g, v, x, all, d);
    SameOutsideTrans(g, u, v, x, all, all + [d]);
    GrownTabStep(Tab(g, u), Tab(g, v), |cs|, all, d);
  }

  lemma GrownTabStep(t: Table, u: Table, n: nat, all: seq<nat>, d: nat)
    requires GrownTab(t, u, n, all) && 2 <= d < |t| && u[d] == 0
    ensures GrownTab(t, Linked(u, all[|all| - 1], d), n, all + [d])
  {
    GrowOnlyTakes(t, all, n, |all|, d);
    GrowPrefix(t, all, d, n, |all|);
  }

  lemma SameOutsideWider(g: Geo, v: Volume, x: Volume, cs: seq<nat>, d: nat)
    requires SameOutside(g, v, x, [d])
    ensures SameOutside(g, v, x, cs + [d])
  {
  }

  /** Growing only takes clusters: what is free afterwards was free before. */
  lemma {:induction false} GrowOnlyTakes(t: Table, all: seq<nat>, n: nat, m: nat, d: nat)
    requires 1 <= n <= m <= |all| && (forall i :: 0 <= i < |all| ==> 2 <= all[i] < |t|) && d < |t|
    ensures Grow(t, all, n, m)[d] == 0 ==> t[d] == 0
    decreases m
  {
    if m > n {
      GrowOnlyTakes(t, all, n, m - 1, d);
    }
  }

  lemma {:induction false} GrowPrefix(t: Table, all: seq<nat>, d: nat, n: nat, m: nat)
    requires 1 <= n <= m <= |all| && (forall i :: 0 <= i < |all| ==> 2 <= all[i] < |t|) && 2 <= d < |t|
    ensures Grow(t, all + [d], n, m) == Grow(t, all, n, m)
    decreases m
  {
    if m > n {
      GrowPrefix(t, all, d, n, m - 1);
    }
  }

  lemma {:induction false} GrowSame(t: Table, all: seq<nat>, more: seq<nat>, n: nat, m: nat)
    requires 1 <= n <= m <= |all| && all <= more && forall i :: 0 <= i < |more| ==> 2 <= more[i] < |t|
    ensures Grow(t, more, n, m) == Grow(t, all, n, m)
    decreases m
  {
    if m > n {
      GrowSame(t, all, more, n, m - 1);
    }
  }

  lemma {:induction false} GrowTwice(t: Table, all: seq<nat>, n: nat, m: nat, p: nat)
    requires 1 <= n <= m <= p <= |all| && forall i :: 0 <= i < |all| ==> 2 <= all[i] < |t|
    ensures Grow(Grow(t, all, n, m), all, m, p) == Grow(t, all, n, p)
    decreases p
  {
    if p > m {
      GrowTwice(t, all, n, m, p - 1);
    }
  }

  lemma GrownTabTrans(t: Table, u: Table, w: Table, n: nat, all: seq<nat>, more: seq<nat>)
    requires GrownTab(t, u, n, all) && GrownTab(u, w, |all|, more) && all <= more
    ensures GrownTab(t, w, n, more)
  {
    GrowSame(t, all, more, n, |all|);
    GrowTwice(t, more, n, |all|, |more|);
    forall i | n <= i < |more| ensures t[more[i]] == 0 {
      if i >= |all| {
        GrowOnlyTakes(t, all, n, |all|, more[i]);
      } else {
        assert more[i] == all[i];
      }
    }
  }

  /** Growing twice is growing. */
  lemma GrownTrans(g: Geo, v: Volume, w: Volume, x: Volume, cs: seq<nat>, all: seq<nat>, more: seq<nat>)
    requires Grown(g, v, w, cs, all) && Grown(g, w, x, all, more)
    ensures Grown(g, v, x, cs, more)
  {
    hide Tab, TabAt, ClustOf, GeoOk, HoldsClusters, Mirrored, GrownTab;
    SameOutsideTrans(g, v, w, x, all, more);
    GrownTabTrans(Tab(g, v), Tab(g, w), Tab(g, x), |cs|, all, more);
  }

  /** Growing a directory keeps the allocator's invariant. */
  lemma {:induction false} GrowAllocOk(t: Table, all: seq<nat>, n: nat, m: nat)
    requires AllocOk(t) && 1 <= n <= m <= |all| && (forall i :: 0 <= i < |all| ==> 2 <= all[i] < |t|)
    requires Distinct(all) && t[all[n - 1]] >= EOC_MIN && forall i :: n <= i < |all| ==> t[all[i]] == 0
    ensures AllocOk(Grow(t, all, n, m)) && Grow(t, all, n, m)[all[m - 1]] >= EOC_MIN
    ensures forall i :: m <= i < |all| ==> Grow(t, all, n, m)[all[i]] == 0
    ensures FreeCount(Grow(t, all, n, m)) + (m - n) == FreeCount(t)
    decreases m
  {
    hide AllocOk, FreeUpTo;
    AllocTableOk(t);
    if m > n {
      GrowAllocOk(t, all, n, m - 1);
      LinkedAllocOk(Grow(t, all, n, m - 1), all[m - 2], all[m - 1]);
    }
  }

  /** And every chain that ends elsewhere. */
  lemma {:induction false} GrowKeepsAlloc(t: Table, all: seq<nat>, n: nat, m: nat, c: nat, ds: seq<nat>)
    requires AllocOk(t) && 1 <= n <= m <= |all| && (forall i :: 0 <= i < |all| ==> 2 <= all[i] < |t|)
    requires Distinct(all) && t[all[n - 1]] >= EOC_MIN && forall i :: n <= i < |all| ==> t[all[i]] == 0
    requires 2 <= c && IsChain(t, c, ds) && ds[|ds| - 1] != all[n - 1]
    ensures AllocOk(Grow(t, all, n, m)) && IsChain(Grow(t, all, n, m), c, ds)
    decreases m
  {
    hide AllocOk, IsChain, FreeUpTo;
    AllocTableOk(t);
    GrowAllocOk(t, all, n, m);
    if m > n {
      GrowKeepsAlloc(t, all, n, m - 1, c, ds);
      GrowAllocOk(t, all, n, m - 1);
      var u := Grow(t, all, n, m - 1);
      AllocTableOk(u);
      NewNotOld(t, c, ds, all[m - 1]);
      LastOfOther(t, c, ds, all, n, m - 1);
      LinkedChain(u, all[m - 2], all[m - 1], c, ds);
    }
  }

  lemma LastOfOther(t: Table, c: nat, ds: seq<nat>, all: seq<nat>, n: nat, m: nat)
    requires TableOk(t) && 1 <= n <= m <= |all| && (forall i :: 0 <= i < |all| ==> 2 <= all[i] < |t|)
    requires IsChain(t, c, ds) && ds[|ds| - 1] != all[n - 1] && forall i :: n <= i < |all| ==> t[all[i]] == 0
    ensures ds[|ds| - 1] != all[m - 1]
  {
    if m > n {
      NewNotOld(t, c, ds, all[m - 1]);
    }
  }

  /** Every added cluster is one free cluster less. */
  lemma {:induction false} GrowCount(t: Table, all: seq<nat>, n: nat, m: nat)
    requires 1 <= n <= m <= |all| && (forall i :: 0 <= i < |all| ==> 2 <= all[i] < |t|) && |t| <= LINK_LIMIT
    requires Distinct(all) && t[all[n - 1]] >= EOC_MIN && forall i :: n <= i < |all| ==> t[all[i]] == 0
    ensures Grow(t, all, n, m)[all[m - 1]] >= EOC_MIN
    ensures forall i :: m <= i < |all| ==> Grow(t, all, n, m)[all[i]] == 0
    ensures FreeCount(Grow(t, all, n, m)) + (m - n) == FreeCount(t)
    decreases m
  {
    hide FreeUpTo;
    if m > n {
      GrowCount(t, all, n, m - 1);
      LinkedCount(Grow(t, all, n, m - 1), all[m - 2], all[m - 1]);
    }
  }

  /** f counts the free clusters of v. */
  ghost predicate Counted(g: Geo, v: Volume, f: u32) {
    GeoOk(g, |v|) && f == FreeCount(Tab(g, v))
  }

  /** A growing chain and a free counter decreased with it. */
  ghost predicate CountKept(g: Geo, v: Volume, f: u32, w: Volume, f': u32) {
    Counted(g, v, f) ==> Counted(g, w, f')
  }

  lemma GrownCount(g: Geo, v: Volume, w: Volume, c: nat, cs: seq<nat>, all: seq<nat>)
    requires Grown(g, v, w, cs, all) && ChainOn(g, v, c, cs) && ChainOn(g, w, c, all)
    ensures |v| == |w| && |cs| <= |all| && FreeCount(Tab(g, w)) + (|all| - |cs|) == FreeCount(Tab(g, v)) <= g.clustCnt
  {
    hide Tab, FreeUpTo, SameOutside, Mirrored, Grow;
    var t := Tab(g, v);
    ChainOnMedium(g, w, c, all);
    ChainLink(t, c, cs, |cs| - 1);
    assert all[|cs| - 1] == cs[|cs| - 1];
    GrowCount(t, all, |cs|, |all|);
    FreeAtMost(t, |t|);
  }

  lemma GrownCounted(g: Geo, v: Volume, f: u32, w: Volume, f': u32, c: nat, cs: seq<nat>, all: seq<nat>)
    requires Grown(g, v, w, cs, all) && ChainOn(g, v, c, cs) && ChainOn(g, w, c, all)
    requires f' == AddWrap(f, |cs| - |all|)
    ensures CountKept(g, v, f, w, f')
  {
    hide Tab, FreeCount, Grown, IsChain, HoldsClusters, AddWrap;
    GrownCount(g, v, w, c, cs, all);
    if Counted(g, v, f) {
      AddWrapExact(f, |cs| - |all|);
    }
  }

  // ---------------------------------------------------------------- entries written

  /** es' is es with the first m long entries of name written from s on. */
  ghost predicate LfnsWritten(es: seq<Entry>, es': seq<Entry>, s: nat, m: nat, name: seq<byte>) {
    && |es| == |es'| && s + m <= |es| && m <= FragCount(|name|) <= MAX_FRAGS
    && (forall p :: 0 <= p < |es| && !(s <= p < s + m) ==> es'[p] == es[p])
    && (forall p :: s <= p < s + m ==> IsLfnEntry(es'[p], name, FragCount(|name|) - (p - s), CrcOf(SfnOf(name))))
  }

  lemma LfnsStep(es: seq<Entry>, es': seq<Entry>, s: nat, m: nat, name: seq<byte>, r: Entry)
    requires LfnsWritten(es, es', s, m, name) && s + m < |es'| && m < FragCount(|name|)
    requires IsLfnEntry(r, name, FragCount(|name|) - m, CrcOf(SfnOf(name)))
    ensures LfnsWritten(es, es'[s + m := r], s, m + 1, name)
  {
    hide IsLfnEntry, CrcOf, SfnOf;
  }

  lemma LfnsStart(es: seq<Entry>, s: nat, name: seq<byte>)
    requires s <= |es| && FragCount(|name|) <= MAX_FRAGS
    ensures LfnsWritten(es, es, s, 0, name)
  {
  }

  /** The entries after the end marker is moved (if it has to be), the long entries and the short one written. */
  lemma AddedBy(es: seq<Entry>, es1: seq<Entry>, es2: seq<Entry>, es3: seq<Entry>, s: nat, eod: bool,
                name: seq<byte>, r: Entry)
    requires 1 <= |name| <= MAX_NAME && |es| <= |es1| && s + RunLen(name) < |es1|
    requires forall p :: 0 <= p < |es1| && !(eod && p == s + RunLen(name)) ==> es1[p] == EntryAt(es, p)
    requires eod ==> IsLastMark(es1[s + RunLen(name)])
    requires LfnsWritten(es1, es2, s, FragCount(|name|), name)
    requires es3 == es2[s + FragCount(|name|) := r] && r[..11] == SfnOf(name) && !IsLfn(r)
    ensures Added(es, es3, s, eod, name)
  {
    hide IsLfnEntry, SfnOf, CrcOf, EntryAt;
    var run := es3[s..s + RunLen(name)];
    forall k | 0 <= k < |run| - 1
      ensures IsLfnEntry(run[k], name, FragCount(|name|) - k, CrcOf(SfnOf(name)))
    {
      assert run[k] == es3[s + k] == es2[s + k];
    }
    assert run[|run| - 1] == r;
  }
}
