/** Files an operation is not about: their chains and their bytes stay as they are. */
module Bystanders {
  import opened Bytes
  import opened Chain
  import opened Layout
  import opened FatVolume
  import opened Records
  import opened DirLayout
  import opened DirGrow
  import opened FileBytes
  import opened Sparing

  // ---------------------------------------------------------------- what harms nobody else

  /** The chain xs of the head x is one in w, too. */
  ghost predicate StillChained(g: Geo, v: Volume, w: Volume, x: nat, xs: seq<nat>) {
    OnMedium(g, v, xs) && OnMedium(g, w, xs) && IsHead(Tab(g, w), x) && IsChain(Tab(g, w), x, xs)
  }

  /** The file or directory that starts at x, with the clusters xs, is in w what it is in v. */
  ghost predicate Undisturbed(g: Geo, v: Volume, w: Volume, x: nat, xs: seq<nat>) {
    StillChained(g, v, w, x, xs) && Allocated(g, w, xs) == Allocated(g, v, xs)
  }

  predicate Avoids(xs: seq<nat>, at: set<nat>) {
    forall i :: 0 <= i < |xs| ==> xs[i] !in at
  }

  /** So is every one that does not start at a cluster in but; those that have a cluster in at keep at least their
      chains. */
  ghost predicate OthersKept(g: Geo, v: Volume, w: Volume, but: set<nat>, at: set<nat>) {
    && DataOk(g, |v|) && |v| == |w|
    && forall x, xs :: x !in but && IsHead(Tab(g, v), x) && IsChain(Tab(g, v), x, xs) ==>
         StillChained(g, v, w, x, xs) && (Avoids(xs, at) ==> Undisturbed(g, v, w, x, xs))
  }

  /** From a volume with a sound table on which nothing links to the clusters in but, a step to one that is so, too,
      and keeps all other files and directories, those that have a cluster in at perhaps not byte by byte. */
  ghost predicate Harmless(g: Geo, v: Volume, w: Volume, but: set<nat>, at: set<nat>) {
    && DataOk(g, |v|) && |v| == |w|
    && (AllocOk(Tab(g, v)) && Heads(Tab(g, v), but) ==>
          AllocOk(Tab(g, w)) && Heads(Tab(g, w), but) && OthersKept(g, v, w, but, at))
  }

  lemma HarmlessRefl(g: Geo, v: Volume, but: set<nat>, at: set<nat>)
    requires DataOk(g, |v|)
    ensures Harmless(g, v, v, but, at)
  {
    hide Tab, AllocOk, Allocated;
  }

  lemma HarmlessTrans(g: Geo, u: Volume, v: Volume, w: Volume, but: set<nat>, at: set<nat>)
    requires Harmless(g, u, v, but, at) && Harmless(g, v, w, but, at)
    ensures Harmless(g, u, w, but, at)
  {
    hide Tab, AllocOk, Allocated, IsHead, IsChain, Heads, OnMedium, Avoids;
    if AllocOk(Tab(g, u)) && Heads(Tab(g, u), but) {
      forall x, xs | x !in but && IsHead(Tab(g, u), x) && IsChain(Tab(g, u), x, xs)
        ensures StillChained(g, u, w, x, xs) && (Avoids(xs, at) ==> Undisturbed(g, u, w, x, xs))
      {
        assert StillChained(g, u, v, x, xs);
      }
    }
  }

  /** A step in the tables. */
  lemma HarmlessTab(g: Geo, v: Volume, w: Volume, but: set<nat>, at: set<nat>)
    requires DataOk(g, |v|) && SameData(g, v, w) && Spared(Tab(g, v), Tab(g, w), but)
    ensures Harmless(g, v, w, but, at)
  {
    hide Tab, AllocOk, Allocated, IsChain, Heads;
    if AllocOk(Tab(g, v)) && Heads(Tab(g, v), but) {
      forall x, xs | x !in but && IsHead(Tab(g, v), x) && IsChain(Tab(g, v), x, xs)
        ensures Undisturbed(g, v, w, x, xs)
      {
        HeadClusters(g, v, x, xs);
        AllocatedExtend(g, v, w, xs, xs);
      }
    }
  }

  lemma HarmlessStart(g: Geo, v: Volume, c: nat, cs: seq<nat>)
    requires ChainOn(g, v, c, cs)
    ensures Harmless(g, v, v, {c}, {})
  {
    HarmlessRefl(g, v, {c}, {});
  }

  lemma HarmlessAny(g: Geo, v: Volume, c: nat, cs: seq<nat>, at: set<nat>)
    requires ChainOn(g, v, c, cs)
    ensures Harmless(g, v, v, {c}, at)
  {
    HarmlessRefl(g, v, {c}, at);
  }

  /** Where nothing is exempt nothing need be. */
  lemma HarmlessMore(g: Geo, v: Volume, w: Volume, but: set<nat>, at: set<nat>)
    requires Harmless(g, v, w, but, {})
    ensures Harmless(g, v, w, but, at)
  {
    hide Tab, AllocOk, Allocated, Heads, StillChained;
  }

  /** What harms only one file harms no file besides two. */
  lemma HarmlessWider(g: Geo, v: Volume, w: Volume, x: nat, y: nat, ys: seq<nat>, at: set<nat>, more: set<nat>)
    requires Harmless(g, v, w, {x}, at) && IsHead(Tab(g, v), y) && IsChain(Tab(g, v), y, ys) && x != y && at <= more
    ensures Harmless(g, v, w, {x, y}, more)
  {
    hide Tab, AllocOk, Allocated, IsChain, IsHead, ClustersOk;
    if AllocOk(Tab(g, v)) && Heads(Tab(g, v), {x, y}) {
      assert Heads(Tab(g, v), {x});
      assert StillChained(g, v, w, y, ys);
    }
  }

  /** Storing the hints of FSInfo. */
  lemma HarmlessInfo(g: Geo, v: Volume, w: Volume, c: nat, cs: seq<nat>, next: u32, free: u32, at: set<nat>)
    requires ChainOn(g, v, c, cs) && (w == v || w == PutInfo(g, v, next, free))
    ensures Harmless(g, v, w, {c}, at)
  {
    hide TabAt, IsChain, Spared, Harmless, PutInfo;
    AfterPutInfo(g, v, next, free);
    OnlyTablesRefl(g, v);
    TablesOnlySameData(g, v, w);
    SparedRefl(Tab(g, v), {c});
    HarmlessTab(g, v, w, {c}, at);
  }

  /** Taking a cluster for the chain of c, also when that stops half way. */
  lemma HarmlessTaking(g: Geo, v: Volume, w: Volume, c: nat, cs: seq<nat>)
    requires ChainOn(g, v, c, cs) && |cs| > 0 && SameData(g, v, w) && Taking(Tab(g, v), Tab(g, w), cs[|cs| - 1])
    ensures Harmless(g, v, w, {c}, {})
  {
    hide Tab, IsChain, Spared, Harmless, Taking;
    TakingSpares(Tab(g, v), Tab(g, w), c, cs);
    HarmlessTab(g, v, w, {c}, {});
  }

  /** A step in the clusters of the chain of c. */
  lemma HarmlessData(g: Geo, v: Volume, w: Volume, c: nat, cs: seq<nat>, at: set<nat>)
    requires ChainOn(g, v, c, cs) && SameSystem(g, v, w) && SameOutside(g, v, w, cs)
    ensures Harmless(g, v, w, {c}, at)
  {
    HarmlessInside(g, v, w, c, cs, {c}, at);
  }

  lemma HarmlessInside(g: Geo, v: Volume, w: Volume, c: nat, cs: seq<nat>, but: set<nat>, at: set<nat>)
    requires ChainOn(g, v, c, cs) && SameSystem(g, v, w) && SameOutside(g, v, w, cs) && c in but
    ensures Harmless(g, v, w, but, at)
  {
    hide Tab, TabAt, AllocOk, Allocated, IsChain, IsHead, SameOutside, Disjoint;
    DataKeepsTables(g, v, w);
    if AllocOk(Tab(g, v)) && Heads(Tab(g, v), but) {
      forall x, xs | x !in but && IsHead(Tab(g, v), x) && IsChain(Tab(g, v), x, xs)
        ensures Undisturbed(g, v, w, x, xs)
      {
        HeadsDisjoint(Tab(g, v), c, cs, x, xs);
        HeadClusters(g, v, x, xs);
        OutsideKeepsBytes(g, v, w, cs, xs);
      }
    }
  }

  /** A step in one data sector. */
  lemma HarmlessSect(g: Geo, v: Volume, w: Volume, d: nat, but: set<nat>)
    requires DataOk(g, |v|) && g.dataSect <= d < |v| == |w| && w == v[d := w[d]]
    ensures Harmless(g, v, w, but, {ClustOf(g, d)})
  {
    hide Tab, TabAt, AllocOk, Allocated, IsChain, IsHead, Disjoint, ClustOf;
    DataKeepsTables(g, v, w);
    var e := ClustOf(g, d);
    var at := {e};
    forall x, xs | x !in but && IsHead(Tab(g, v), x) && IsChain(Tab(g, v), x, xs)
      ensures StillChained(g, v, w, x, xs) && (Avoids(xs, at) ==> Undisturbed(g, v, w, x, xs))
    {
      HeadClusters(g, v, x, xs);
      if e !in xs {
        OneOutside([e], xs, e);
        OutsideKeepsBytes(g, v, w, [e], xs);
      }
    }
  }

  lemma OneOutside(cs: seq<nat>, xs: seq<nat>, e: nat)
    requires cs == [e] && Avoids(xs, {e})
    ensures Disjoint(cs, xs)
  {
  }

  // ---------------------------------------------------------------- chains apart

  predicate Disjoint(cs: seq<nat>, xs: seq<nat>) {
    forall i, j :: 0 <= i < |cs| && 0 <= j < |xs| ==> cs[i] != xs[j]
  }

  /** Two chains of a sound table that nothing links to. */
  ghost predicate TwoHeads(t: Table, c: nat, cs: seq<nat>, d: nat, xs: seq<nat>) {
    AllocOk(t) && IsHead(t, c) && IsHead(t, d) && c != d && IsChain(t, c, cs) && IsChain(t, d, xs)
  }

  lemma HeadsDisjoint(t: Table, c: nat, cs: seq<nat>, d: nat, xs: seq<nat>)
    requires TwoHeads(t, c, cs, d, xs)
    ensures Disjoint(cs, xs) && |cs| > 0 && |xs| > 0
  {
    forall i, j | 0 <= i < |cs| && 0 <= j < |xs| ensures cs[i] != xs[j] {
      ChainsDisjoint(t, c, cs, d, xs, i, j);
    }
  }

  lemma HeadClusters(g: Geo, v: Volume, d: nat, xs: seq<nat>)
    requires DataOk(g, |v|) && IsHead(Tab(g, v), d) && IsChain(Tab(g, v), d, xs)
    ensures OnMedium(g, v, xs)
  {
  }

  /** Sectors outside the clusters all include those of clusters disjoint from them. */
  lemma OutsideKeepsBytes(g: Geo, v: Volume, w: Volume, all: seq<nat>, xs: seq<nat>)
    requires OnMedium(g, v, xs) && SameOutside(g, v, w, all) && Disjoint(all, xs)
    ensures OnMedium(g, w, xs) && Allocated(g, w, xs) == Allocated(g, v, xs)
  {
    hide ChainSect, ClustOf, SectCnt;
    forall i | 0 <= i < ByteCnt(g, xs) ensures ByteAt(g, v, xs, i) == ByteAt(g, w, xs, i) {
      ChainSectIn(g, |v|, xs, i / SECTOR_SIZE);
    }
  }

  lemma GrownDisjoint(t: Table, cs: seq<nat>, all: seq<nat>, d: nat, xs: seq<nat>)
    requires TableOk(t) && cs <= all && Disjoint(cs, xs) && IsChain(t, d, xs)
    requires forall i :: |cs| <= i < |all| ==> all[i] < |t| && t[all[i]] == 0
    ensures Disjoint(all, xs)
  {
    forall i, j | 0 <= i < |all| && 0 <= j < |xs| ensures all[i] != xs[j] {
      if i < |cs| {
        assert all[i] == cs[i];
      } else {
        NewNotOld(t, d, xs, all[i]);
      }
    }
  }

  /** Writing to a file, seeking in it, or adding a name to a directory, with any growth of its chain: every other
      file keeps its chain and its bytes, and the table stays sound. */
  lemma GrownKeepsOthers(g: Geo, v: Volume, w: Volume, c: nat, cs: seq<nat>, all: seq<nat>, d: nat, xs: seq<nat>)
    requires Grown(g, v, w, cs, all) && ChainOn(g, w, c, all) && OnMedium(g, w, all)
    requires TwoHeads(Tab(g, v), c, cs, d, xs)
    ensures AllocOk(Tab(g, w)) && IsHead(Tab(g, w), c) && Undisturbed(g, v, w, d, xs)
  {
    hide Tab, AllocOk, Distinct, SameOutside, Mirrored, Allocated, IsHead, Disjoint;
    var t, n := Tab(g, v), |cs|;
    AllocTableOk(t);
    HeadsDisjoint(t, c, cs, d, xs);
    ChainOnMedium(g, w, c, all);
    ChainLink(t, c, cs, n - 1);
    assert all[n - 1] == cs[n - 1];
    LastsDiffer(cs, xs);
    AtLeastTwo(t, d);
    GrowKeepsAlloc(t, all, n, |all|, d, xs);
    GrownDisjoint(t, cs, all, d, xs);
    HeadClusters(g, v, d, xs);
    OutsideKeepsBytes(g, v, w, all, xs);
    HeadGrows(g, v, w, cs, all, c, cs);
    HeadGrows(g, v, w, cs, all, d, xs);
  }

  lemma LastsDiffer(cs: seq<nat>, xs: seq<nat>)
    requires Disjoint(cs, xs) && |cs| > 0 && |xs| > 0
    ensures xs[|xs| - 1] != cs[|cs| - 1]
  {
  }

  lemma AtLeastTwo(t: Table, d: nat)
    requires IsHead(t, d)
    ensures 2 <= d
  {
  }

  lemma {:induction false} GrowKeepsHead(t: Table, all: seq<nat>, n: nat, m: nat, x: nat)
    requires 1 <= n <= m <= |all| && (forall i :: 0 <= i < |all| ==> 2 <= all[i] < |t|) && |t| <= LINK_LIMIT
    requires IsHead(t, x) && forall i :: n <= i < |all| ==> all[i] != x
    ensures IsHead(Grow(t, all, n, m), x)
    decreases m
  {
    if m > n {
      GrowKeepsHead(t, all, n, m - 1, x);
    }
  }

  lemma HeadGrows(g: Geo, v: Volume, w: Volume, cs: seq<nat>, all: seq<nat>, x: nat, xs: seq<nat>)
    requires Grown(g, v, w, cs, all) && AllocOk(Tab(g, v)) && IsHead(Tab(g, v), x) && IsChain(Tab(g, v), x, xs)
    ensures IsHead(Tab(g, w), x)
  {
    hide Tab, AllocOk, Grow, SameOutside, Mirrored, IsChain;
    AllocTableOk(Tab(g, v));
    InUse(Tab(g, v), x, xs);
    GrowKeepsHead(Tab(g, v), all, |cs|, |all|, x);
  }

  /** A step as long as it grows the chain of c. */
  lemma HarmlessGrown(g: Geo, v: Volume, w: Volume, c: nat, cs: seq<nat>, all: seq<nat>, at: set<nat>)
    requires Grown(g, v, w, cs, all) && ChainOn(g, v, c, cs) && ChainOn(g, w, c, all) && OnMedium(g, w, all)
    ensures Harmless(g, v, w, {c}, at)
  {
    hide Tab, AllocOk, Grown, IsChain, IsHead, Allocated, ClustersOk;
    GrownMeans(g, v, w, cs, all);
    if AllocOk(Tab(g, v)) && Heads(Tab(g, v), {c}) {
      GrownAllocOk(g, v, w, c, cs, all);
      HeadGrows(g, v, w, cs, all, c, cs);
      forall x, xs | x != c && IsHead(Tab(g, v), x) && IsChain(Tab(g, v), x, xs) ensures Undisturbed(g, v, w, x, xs) {
        GrownKeepsOthers(g, v, w, c, cs, all, x, xs);
      }
    }
  }

  lemma GrownMeans(g: Geo, v: Volume, w: Volume, cs: seq<nat>, all: seq<nat>)
    requires Grown(g, v, w, cs, all)
    ensures DataOk(g, |v|) && |v| == |w|
  {
  }

  lemma GrownAllocOk(g: Geo, v: Volume, w: Volume, c: nat, cs: seq<nat>, all: seq<nat>)
    requires Grown(g, v, w, cs, all) && ChainOn(g, v, c, cs) && ChainOn(g, w, c, all) && AllocOk(Tab(g, v))
    ensures AllocOk(Tab(g, w))
  {
    hide Tab, AllocOk, SameOutside, Mirrored, Grow, Distinct;
    AllocTableOk(Tab(g, v));
    ChainOnMedium(g, w, c, all);
    ChainLink(Tab(g, v), c, cs, |cs| - 1);
    assert all[|cs| - 1] == cs[|cs| - 1];
    GrowAllocOk(Tab(g, v), all, |cs|, |all|);
  }

  /** Growing a chain keeps the table sound, and the sum of what it has and what is free. */
  lemma GrownSound(g: Geo, v: Volume, w: Volume, c: nat, cs: seq<nat>, all: seq<nat>)
    requires Grown(g, v, w, cs, all) && ChainOn(g, v, c, cs) && ChainOn(g, w, c, all)
    ensures GeoOk(g, |v|) && |w| == |v| && (AllocOk(Tab(g, v)) ==> AllocOk(Tab(g, w)))
    ensures FreeCount(Tab(g, w)) + |all| == FreeCount(Tab(g, v)) + |cs|
  {
    hide Tab, AllocOk, FreeUpTo, IsChain;
    GrownCount(g, v, w, c, cs, all);
    if AllocOk(Tab(g, v)) {
      GrownAllocOk(g, v, w, c, cs, all);
    }
  }
}
