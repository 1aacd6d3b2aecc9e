/** The cluster allocator over whole runs: what any sequence of allocations and releases keeps. */
module Allocator {
  import opened Bytes
  import opened Chain
  import opened Layout
  import opened FatVolume

  /** The volume contents and the two counters the driver keeps in memory. */
  datatype State = State(vol: Volume, last: nat, free: u32)

  /** Chains are acyclic, disjoint and ended; the copies agree; the free counter counts the free clusters;
      the search for one has somewhere to start. */
  ghost predicate Sound(g: Geo, s: State) {
    && GeoOk(g, |s.vol|) && AllocOk(Tab(g, s.vol)) && Mirrored(g, s.vol)
    && s.free == FreeCount(Tab(g, s.vol)) && 2 <= s.last < g.clustCnt
  }

  /** stretch_chain at a tail (0 for a new chain) succeeds and allocates d. */
  ghost predicate Allocates(g: Geo, s: State, s': State, tail: nat, d: nat) {
    && GeoOk(g, |s.vol|) && |s'.vol| == |s.vol| && 2 <= s.last < g.clustCnt && tail < g.clustCnt
    && IsTail(Tab(g, s.vol), tail)
    && Stretched(g, s.vol, s.last, tail, d, s'.vol) && s'.last == d && s'.free == AddWrap(s.free, -1)
  }

  /** remove_chain of a cluster nothing links to runs to its end; err is what it returns. */
  ghost predicate Releases(g: Geo, s: State, s': State, c: nat, err: int) {
    && GeoOk(g, |s.vol|) && |s'.vol| == |s.vol| && c < g.clustCnt && IsHead(Tab(g, s.vol), c)
    && (err == ERR_NONE || err == ERR_BROKEN)
    && Released(g, s.vol, c, s.free, s'.vol, s'.free, err) && s'.last == s.last
  }

  /** An allocation takes a free cluster; the chain of the tail grows by it, every other chain stays. */
  lemma AllocatesKeeps(g: Geo, s: State, s': State, tail: nat, d: nat)
    requires Sound(g, s) && Allocates(g, s, s', tail, d)
    ensures Sound(g, s') && 2 <= d < g.clustCnt && Tab(g, s.vol)[d] == 0
    ensures forall c, cs :: 2 <= c && IsChain(Tab(g, s.vol), c, cs) ==>
              IsChain(Tab(g, s'.vol), c, if tail == cs[|cs| - 1] then cs + [d] else cs)
  {
    hide Tab, AllocOk, Mirrored, OnlyTables, IsTail, FreeUpTo, Choose, Linked;
    var t := Tab(g, s.vol);
    ChooseResult(t, s.last, tail);
    LinkedAllocOk(t, tail, d);
    AllocTableOk(t);
    forall c, cs | 2 <= c && IsChain(t, c, cs)
      ensures IsChain(Linked(t, tail, d), c, if tail == cs[|cs| - 1] then cs + [d] else cs)
    {
      LinkedChain(t, tail, d, c, cs);
    }
  }

  /** The release of a chain's head always succeeds; asked to release a free or bad cluster the driver reports
      a broken volume and changes nothing. */
  lemma ReleasesKeeps(g: Geo, s: State, s': State, c: nat, err: int)
    requires Sound(g, s) && Releases(g, s, s', c, err)
    ensures Sound(g, s')
    ensures err == ERR_NONE <==> Tab(g, s.vol)[c] != 0 && Tab(g, s.vol)[c] != BAD
    ensures err == ERR_BROKEN ==> Tab(g, s'.vol) == Tab(g, s.vol)
    ensures forall d, ds :: IsHead(Tab(g, s.vol), d) && d != c && IsChain(Tab(g, s.vol), d, ds) ==>
              IsChain(Tab(g, s'.vol), d, ds)
  {
    hide Tab, Mirrored, OnlyTables, FreeUpTo, Erase, IsChain, IsHead, OneLinkEach;
    var t := Tab(g, s.vol);
    ReleaseOfHead(t, c);
    FreeAtMost(Erase(t, c).t, |t|);
  }

  lemma ReleaseOfHead(t: Table, c: nat)
    requires AllocOk(t) && IsHead(t, c)
    ensures AllocOk(Erase(t, c).t) && FreeCount(Erase(t, c).t) == FreeCount(t) + Erase(t, c).freed
    ensures Erase(t, c).ok <==> t[c] != 0 && t[c] != BAD
    ensures !Erase(t, c).ok ==> Erase(t, c).t == t
    ensures forall d, ds :: IsHead(t, d) && d != c && IsChain(t, d, ds) ==> IsChain(Erase(t, c).t, d, ds)
  {
    EraseCount(t, c);
    if t[c] == 0 || t[c] == BAD {
      EraseStuck(t, c);
    } else {
      assert HasChain(t, c);
      var cs :| IsChain(t, c, cs);
      EraseChain(t, c, cs);
      ErasedAllocOk(t, c, cs);
    }
  }

  /** A freshly formatted volume, with nothing but a root directory in cluster 2, is where runs may start. */
  lemma FormattedSound(g: Geo, s: State)
    requires GeoOk(g, |s.vol|) && Mirrored(g, s.vol) && s.free == g.clustCnt - 3 && s.last == 2
    requires var t := Tab(g, s.vol); t[2] >= EOC_MIN && forall c :: 3 <= c < |t| ==> t[c] == 0
    ensures Sound(g, s) && IsHead(Tab(g, s.vol), 2) && IsChain(Tab(g, s.vol), 2, [2])
  {
    hide Tab, Mirrored;
    var t := Tab(g, s.vol);
    FormattedCount(t, |t|);
    assert IsChain(t, 2, [2]);
    forall c | 2 <= c < |t| && t[c] != 0 && t[c] != BAD ensures HasChain(t, c) {
      assert c == 2;
    }
  }

  lemma {:induction false} FormattedCount(t: Table, k: nat)
    requires 3 <= k <= |t| && t[2] != 0 && forall c :: 3 <= c < |t| ==> t[c] == 0
    ensures FreeUpTo(t, k) == k - 3
  {
    if k > 3 {
      FormattedCount(t, k - 1);
    }
  }

  ghost predicate Step(g: Geo, s: State, s': State) {
    || (exists tail, d :: Allocates(g, s, s', tail, d))
    || (exists c, err :: Releases(g, s, s', c, err))
  }

  ghost predicate IsRun(g: Geo, run: seq<State>) {
    forall i :: 0 <= i < |run| - 1 ==> Step(g, run[i], run[i + 1])
  }

  /** Whatever is allocated and released in whatever order, the allocator stays sound. */
  lemma {:induction false} RunSound(g: Geo, run: seq<State>, i: nat)
    requires i < |run| && IsRun(g, run) && Sound(g, run[0])
    ensures Sound(g, run[i])
  {
    hide Sound, Allocates, Releases;
    if i > 0 {
      RunSound(g, run, i - 1);
      var s, s' := run[i - 1], run[i];
      assert Step(g, s, s') by {
        assert Step(g, run[i - 1], run[i - 1 + 1]);
      }
      if tail, d :| Allocates(g, s, s', tail, d) {
        AllocatesKeeps(g, s, s', tail, d);
      } else {
        var c, err :| Releases(g, s, s', c, err);
        ReleasesKeeps(g, s, s', c, err);
      }
    }
  }
}
