/** The allocation table as the driver reads it: one 28-bit value per cluster, and the
    cluster chains threaded through it. Everything here is about table values only. */
module Chain {

  type Table = seq<nat>

  const LINK_LIMIT := 0x0fff_fff7
  const BAD := 0x0fff_fff7
  const EOC_MIN := 0x0fff_fff8
  const EOC := 0x0fff_ffff

  /** What a table value says about its cluster. */
  datatype Kind = Free | Bad | Last | Used | Broken

  function KindOf(v: nat, n: nat): Kind {
    if v == 0 then Free
    else if v == BAD then Bad
    else if v >= EOC_MIN then Last
    else if 2 <= v < n then Used
    else Broken
  }

  predicate TableOk(t: Table) {
    2 < |t| <= LINK_LIMIT
  }

  /** cs is the walk from c, link by link, up to an end-of-chain value. */
  predicate IsChain(t: Table, c: nat, cs: seq<nat>) {
    && |cs| > 0
    && cs[0] == c < |t|
    && (forall i :: 1 <= i < |cs| ==> 2 <= cs[i] < |t|)
    && (forall i {:trigger t[cs[i]]} :: 0 <= i < |cs| - 1 ==> t[cs[i]] == cs[i + 1])
    && t[cs[|cs| - 1]] >= EOC_MIN
  }

  ghost predicate HasChain(t: Table, c: nat) {
    exists cs :: IsChain(t, c, cs)
  }

  lemma ChainTail(t: Table, c: nat, cs: seq<nat>)
    requires IsChain(t, c, cs) && |cs| > 1
    ensures IsChain(t, cs[1], cs[1..]) && t[c] == cs[1]
  {
  }

  lemma ChainCons(t: Table, c: nat, cs: seq<nat>)
    requires c < |t| && 2 <= t[c] < |t| && IsChain(t, t[c], cs)
    ensures IsChain(t, c, [c] + cs)
  {
  }

  /** What the table says at cluster i of a chain. */
  lemma ChainLink(t: Table, c: nat, cs: seq<nat>, i: nat)
    requires TableOk(t) && IsChain(t, c, cs) && i < |cs|
    ensures cs[i] < |t|
    ensures i < |cs| - 1 ==> KindOf(t[cs[i]], |t|).Used? && t[cs[i]] == cs[i + 1] && 2 <= cs[i + 1] < |t|
    ensures i == |cs| - 1 ==> KindOf(t[cs[i]], |t|).Last? && t[cs[i]] >= EOC_MIN
  {
  }

  /** A cluster starts at most one chain. */
  lemma {:induction false} ChainUnique(t: Table, c: nat, cs: seq<nat>, ds: seq<nat>)
    requires TableOk(t)
    requires IsChain(t, c, cs) && IsChain(t, c, ds)
    ensures cs == ds
    decreases |cs|
  {
    if |cs| > 1 && |ds| > 1 {
      ChainTail(t, c, cs);
      ChainTail(t, c, ds);
      ChainUnique(t, t[c], cs[1..], ds[1..]);
      assert cs == [c] + cs[1..] && ds == [c] + ds[1..];
    }
  }

  lemma {:induction false} ChainSuffix(t: Table, c: nat, cs: seq<nat>, i: nat)
    requires IsChain(t, c, cs) && i < |cs|
    ensures IsChain(t, cs[i], cs[i..])
  {
  }

  /** A walk that ends never meets a cluster twice. */
  lemma ChainNoDup(t: Table, c: nat, cs: seq<nat>, i: nat, j: nat)
    requires TableOk(t) && IsChain(t, c, cs)
    requires i < j < |cs|
    ensures cs[i] != cs[j]
  {
    if cs[i] == cs[j] {
      ChainSuffix(t, c, cs, i);
      ChainSuffix(t, c, cs, j);
      ChainUnique(t, cs[i], cs[i..], cs[j..]);
      assert false;
    }
  }

  /** A finite walk: consecutive clusters are linked, nothing is said about its end. */
  predicate IsWalk(t: Table, ws: seq<nat>) {
    && (forall i :: 0 <= i < |ws| ==> ws[i] < |t|)
    && (forall i :: 1 <= i < |ws| ==> 2 <= ws[i])
    && (forall i {:trigger t[ws[i]]} :: 0 <= i < |ws| - 1 ==> t[ws[i]] == ws[i + 1])
  }

  lemma {:induction false} WalkIsPrefix(t: Table, c: nat, cs: seq<nat>, ws: seq<nat>, i: nat)
    requires TableOk(t) && IsChain(t, c, cs) && IsWalk(t, ws) && |ws| > 0 && ws[0] == c
    requires i < |ws|
    ensures i < |cs| && cs[i] == ws[i]
  {
    if i > 0 {
      WalkIsPrefix(t, c, cs, ws, i - 1);
      assert t[ws[i - 1]] == ws[i] < EOC_MIN;
      assert i - 1 < |cs| - 1;
    }
  }

  // ---------------------------------------------------------------- counting

  /** Free clusters among 2 .. k. */
  function FreeUpTo(t: Table, k: nat): nat
    requires k <= |t|
  {
    if k <= 2 then 0 else FreeUpTo(t, k - 1) + if t[k - 1] == 0 then 1 else 0
  }

  function FreeCount(t: Table): nat {
    FreeUpTo(t, |t|)
  }

  /** Entries among 0 .. k that are not free. */
  function TakenUpTo(t: Table, k: nat): nat
    requires k <= |t|
  {
    if k == 0 then 0 else TakenUpTo(t, k - 1) + if t[k - 1] == 0 then 0 else 1
  }

  function TakenCount(t: Table): nat {
    TakenUpTo(t, |t|)
  }

  lemma {:induction false} FreeAfterSet(t: Table, c: nat, v: nat, k: nat)
    requires 2 <= c < |t| && k <= |t|
    ensures FreeUpTo(t[c := v], k) + (if c < k && t[c] == 0 then 1 else 0)
         == FreeUpTo(t, k) + (if c < k && v == 0 then 1 else 0)
  {
    if k > 2 {
      FreeAfterSet(t, c, v, k - 1);
    }
  }

  lemma {:induction false} TakenAfterZero(t: Table, c: nat, k: nat)
    requires c < |t| && k <= |t| && t[c] != 0
    ensures TakenUpTo(t, k) == TakenUpTo(t[c := 0], k) + (if c < k then 1 else 0)
  {
    if k > 0 {
      TakenAfterZero(t, c, k - 1);
    }
  }

  lemma {:induction false} FreeOnlyLow(t: Table, c: nat, v: nat, k: nat)
    requires c < 2 && c < |t| && k <= |t|
    ensures FreeUpTo(t[c := v], k) == FreeUpTo(t, k)
  {
    if k > 2 {
      FreeOnlyLow(t, c, v, k - 1);
    }
  }

  // ---------------------------------------------------------------- releasing a chain

  datatype Erased = Erased(t: Table, freed: nat, ok: bool)

  /** Zero entry after entry along the links from c; stop with failure at a value that is
      free, bad or out of range. Terminates on cyclic tables too: each step takes a non-free entry. */
  function Erase(t: Table, c: nat): (r: Erased)
    requires c < |t|
    ensures |r.t| == |t|
    decreases TakenUpTo(t, |t|)
  {
    var k := KindOf(t[c], |t|);
    if k.Free? || k.Bad? || k.Broken? then Erased(t, 0, false)
    else
      TakenAfterZero(t, c, |t|);
      var u := t[c := 0];
      if k.Last? then Erased(u, 1, true)
      else
        var r := Erase(u, t[c]);
        r.(freed := r.freed + 1)
  }

  function Plus(e: Erased, n: nat): Erased { e.(freed := e.freed + n) }

  lemma EraseStuck(t: Table, c: nat)
    requires c < |t| && !KindOf(t[c], |t|).Used? && !KindOf(t[c], |t|).Last?
    ensures Erase(t, c) == Erased(t, 0, false)
  {
  }

  function ZeroAll(t: Table, cs: seq<nat>): (r: Table)
    ensures |r| == |t|
    ensures forall i :: 0 <= i < |t| ==> r[i] == if i in cs then 0 else t[i]
  {
    seq(|t|, i requires 0 <= i < |t| => if i in cs then 0 else t[i])
  }

  lemma ChainAvoids(t: Table, c: nat, cs: seq<nat>, x: nat, v: nat)
    requires IsChain(t, c, cs) && x < |t| && x !in cs
    ensures IsChain(t[x := v], c, cs)
  {
  }

  /** On a proper chain exactly its clusters are freed, all of them, and counted. */
  lemma {:induction false} EraseChain(t: Table, c: nat, cs: seq<nat>)
    requires TableOk(t) && IsChain(t, c, cs)
    ensures Erase(t, c) == Erased(ZeroAll(t, cs), |cs|, true)
    decreases |cs|
  {
    var u := t[c := 0];
    if |cs| == 1 {
      assert u == ZeroAll(t, cs);
    } else {
      ChainTail(t, c, cs);
      forall j | 1 <= j < |cs| ensures cs[j] != c {
        ChainNoDup(t, c, cs, 0, j);
      }
      assert c !in cs[1..];
      ChainAvoids(t, cs[1], cs[1..], c, 0);
      EraseChain(u, cs[1], cs[1..]);
      assert ZeroAll(u, cs[1..]) == ZeroAll(t, cs) by {
        assert cs == [c] + cs[1..];
      }
    }
  }

  /** Success means there was a chain: with EraseChain, success exactly on proper chains. */
  lemma {:induction false} EraseOkHasChain(t: Table, c: nat)
    requires TableOk(t) && c < |t|
    ensures Erase(t, c).ok <==> HasChain(t, c)
    decreases TakenUpTo(t, |t|)
  {
    if Erase(t, c).ok {
      if KindOf(t[c], |t|).Last? {
        assert IsChain(t, c, [c]);
      } else {
        var u := t[c := 0];
        TakenAfterZero(t, c, |t|);
        EraseOkHasChain(u, t[c]);
        var cs :| IsChain(u, t[c], cs);
        forall i | 0 <= i < |cs| ensures cs[i] != c {
          assert i < |cs| - 1 ==> u[cs[i]] == cs[i + 1];
        }
        ChainAvoids(u, t[c], cs, c, t[c]);
        assert u[c := t[c]] == t;
        ChainCons(t, c, cs);
      }
    }
    if HasChain(t, c) {
      var cs :| IsChain(t, c, cs);
      EraseChain(t, c, cs);
    }
  }

  /** A walk that comes back to a cluster makes the release fail. */
  lemma EraseCycleFails(t: Table, ws: seq<nat>, i: nat, j: nat)
    requires TableOk(t) && IsWalk(t, ws) && i < j < |ws| && ws[i] == ws[j]
    ensures !Erase(t, ws[0]).ok
  {
    EraseOkHasChain(t, ws[0]);
    if HasChain(t, ws[0]) {
      var cs :| IsChain(t, ws[0], cs);
      WalkIsPrefix(t, ws[0], cs, ws, i);
      WalkIsPrefix(t, ws[0], cs, ws, j);
      ChainNoDup(t, ws[0], cs, i, j);
    }
  }

  /** The count of free clusters grows by exactly what was freed, also when the release fails half way. */
  lemma {:induction false} EraseCount(t: Table, c: nat)
    requires 2 <= c < |t|
    ensures FreeCount(Erase(t, c).t) == FreeCount(t) + Erase(t, c).freed
    decreases TakenUpTo(t, |t|)
  {
    var k := KindOf(t[c], |t|);
    if k.Last? || k.Used? {
      TakenAfterZero(t, c, |t|);
      FreeAfterSet(t, c, 0, |t|);
      if k.Used? {
        EraseCount(t[c := 0], t[c]);
      }
    }
  }

  /** The count of free data clusters stays right after a successful release if and only if the release did
      not start at a reserved entry (cluster 0 is what the entry of an empty file may carry). */
  lemma EraseCountIff(t: Table, c: nat)
    requires TableOk(t) && c < |t| && Erase(t, c).ok
    ensures FreeCount(Erase(t, c).t) == FreeCount(t) + Erase(t, c).freed <==> 2 <= c
  {
    if 2 <= c {
      EraseCount(t, c);
    } else {
      TakenAfterZero(t, c, |t|);
      FreeOnlyLow(t, c, 0, |t|);
      if KindOf(t[c], |t|).Used? {
        EraseCount(t[c := 0], t[c]);
      }
    }
  }

  // ---------------------------------------------------------------- finding a free cluster

  datatype Pick = Taken | Found(clust: nat)

  function NextClust(c: nat, n: nat): nat {
    if c + 1 >= n then 2 else c + 1
  }

  /** The cluster probed before c. */
  function PrevClust(c: nat, n: nat): (r: nat)
    requires 2 <= c < n
    ensures 2 <= r < n && NextClust(r, n) == c
  {
    if c == 2 then n - 1 else c - 1
  }

  function Distance(c: nat, last: nat, n: nat): nat
    requires 2 <= c < n && 2 <= last < n
  {
    if c < last then last - c else n - c + last - 2
  }

  /** Probe upwards from c, wrapping to 2; give up on meeting last. */
  function Scan(t: Table, c: nat, last: nat): Pick
    requires 2 <= c < |t| && 2 <= last < |t|
    decreases Distance(c, last, |t|)
  {
    var d := NextClust(c, |t|);
    if d == last then Taken
    else if t[d] == 0 then Found(d)
    else Scan(t, d, last)
  }

  /** The cluster the driver takes: the one after the tail if it is free, else the first free one
      met by the scan that starts behind the last allocated cluster. tail == 0 starts a new chain. */
  function Choose(t: Table, last: nat, tail: nat): Pick
    requires 2 <= last < |t| && tail < |t|
  {
    if tail != 0 && t[NextClust(tail, |t|)] == 0 then Found(NextClust(tail, |t|))
    else Scan(t, last, last)
  }

  predicate Between(c: nat, d: nat, last: nat) {
    if c < last then c < d < last else d > c || d < last
  }

  lemma {:induction false} ScanResult(t: Table, c: nat, last: nat)
    requires 2 <= c < |t| && 2 <= last < |t|
    ensures Scan(t, c, last).Taken? <==> forall d :: 2 <= d < |t| && Between(c, d, last) ==> t[d] != 0
    ensures Scan(t, c, last).Found? ==>
              var d := Scan(t, c, last).clust; 2 <= d < |t| && Between(c, d, last) && t[d] == 0
    decreases Distance(c, last, |t|)
  {
    var d := NextClust(c, |t|);
    if d != last {
      assert Between(c, d, last);
      if t[d] != 0 {
        ScanResult(t, d, last);
      }
    }
  }

  /** The volume is reported full exactly when every cluster but the last allocated one is taken
      (and that one does not happen to follow the tail); otherwise a free data cluster is chosen. */
  lemma ChooseResult(t: Table, last: nat, tail: nat)
    requires TableOk(t) && 2 <= last < |t| && tail < |t|
    ensures Choose(t, last, tail).Taken? <==>
              && (forall d :: 2 <= d < |t| && d != last ==> t[d] != 0)
              && (tail != 0 && NextClust(tail, |t|) == last ==> t[last] != 0)
    ensures Choose(t, last, tail).Found? ==>
              var d := Choose(t, last, tail).clust; 2 <= d < |t| && t[d] == 0
  {
    ScanResult(t, last, last);
    assert forall d :: 2 <= d < |t| ==> (Between(last, d, last) <==> d != last);
  }

  /** An allocation that finds nothing leaves at most the cluster allocated last unfound. */
  lemma TakenFew(t: Table, last: nat, tail: nat)
    requires TableOk(t) && 2 <= last < |t| && tail < |t|
    ensures Choose(t, last, tail).Taken? ==> FreeCount(t) <= 1
  {
    ChooseResult(t, last, tail);
    if Choose(t, last, tail).Taken? {
      FreeOnlyAt(t, last, |t|);
    }
  }

  lemma {:induction false} FreeOnlyAt(t: Table, last: nat, k: nat)
    requires k <= |t| && forall d :: 2 <= d < |t| && d != last ==> t[d] != 0
    ensures FreeUpTo(t, k) <= if last < k then 1 else 0
  {
    if k > 2 {
      FreeOnlyAt(t, last, k - 1);
    }
  }

  // ---------------------------------------------------------------- the allocator's invariant

  predicate OneLinkEach(t: Table) {
    forall c, d :: 2 <= c < |t| && 2 <= d < |t| && c != d && 2 <= t[c] < |t| ==> t[c] != t[d]
  }

  /** Every cluster in use leads to an end of chain, and no cluster is linked to twice. */
  ghost predicate AllocOk(t: Table) {
    && TableOk(t)
    && (forall c {:trigger HasChain(t, c)} :: 2 <= c < |t| && t[c] != 0 && t[c] != BAD ==> HasChain(t, c))
    && OneLinkEach(t)
  }

  lemma AllocTableOk(t: Table)
    requires AllocOk(t)
    ensures TableOk(t)
  {
  }

  lemma AllocNoBroken(t: Table, c: nat)
    requires AllocOk(t) && 2 <= c < |t|
    ensures !KindOf(t[c], |t|).Broken?
  {
    if t[c] != 0 && t[c] != BAD {
      assert HasChain(t, c);
      var cs :| IsChain(t, c, cs);
      ChainLink(t, c, cs, 0);
    }
  }

  /** No entry links to a free cluster. */
  predicate NoDangling(t: Table) {
    forall c :: 2 <= c < |t| && 2 <= t[c] < |t| ==> t[t[c]] != 0
  }

  lemma AllocNoDangling(t: Table)
    requires AllocOk(t)
    ensures NoDangling(t)
  {
    forall c | 2 <= c < |t| && 2 <= t[c] < |t| ensures t[t[c]] != 0 {
      assert HasChain(t, c);
      var cs :| IsChain(t, c, cs);
      ChainTail(t, c, cs);
    }
  }

  /** Nothing links to c: it is the head of a chain, or a reserved entry that links nowhere, as cluster 0 does. */
  predicate Detached(t: Table, c: nat) {
    IsHead(t, c) || (c < 2 && c < |t| && t[c] >= EOC_MIN)
  }

  /** Taking the first link off a chain nothing links to: still no dangling and no double link, and
      now nothing links to the second cluster. */
  lemma FreeHead(t: Table, c: nat)
    requires NoDangling(t) && OneLinkEach(t) && TableOk(t) && Detached(t, c)
    ensures NoDangling(t[c := 0]) && OneLinkEach(t[c := 0])
    ensures KindOf(t[c], |t|).Used? ==> IsHead(t[c := 0], t[c]) && Detached(t[c := 0], t[c])
  {
  }

  /** Link a free cluster behind the tail of a chain (or start a chain with it). */
  function Linked(t: Table, tail: nat, d: nat): (r: Table)
    requires tail < |t| && d < |t|
    ensures |r| == |t|
  {
    if tail == 0 then t[d := EOC] else t[d := EOC][tail := d]
  }

  predicate IsTail(t: Table, tail: nat) {
    tail == 0 || (2 <= tail < |t| && t[tail] >= EOC_MIN)
  }

  /** Neither half of the linking leaves a link to a free cluster. */
  lemma LinkSafe(t: Table, tail: nat, d: nat)
    requires TableOk(t) && NoDangling(t) && IsTail(t, tail) && 2 <= d < |t| && t[d] == 0
    ensures NoDangling(t[d := EOC]) && NoDangling(Linked(t, tail, d))
  {
  }

  /** What becomes of a chain when d is linked behind tail. */
  lemma LinkedChain(t: Table, tail: nat, d: nat, c: nat, cs: seq<nat>)
    requires TableOk(t) && IsTail(t, tail) && 2 <= d < |t| && t[d] == 0
    requires IsChain(t, c, cs) && 2 <= c
    ensures IsChain(Linked(t, tail, d), c, if cs[|cs| - 1] == tail then cs + [d] else cs)
  {
    var u := Linked(t, tail, d);
    var n := |cs|;
    forall i | 0 <= i < n ensures cs[i] != d && (cs[i] == tail ==> i == n - 1) {
      if i < n - 1 {
        assert t[cs[i]] == cs[i + 1];
      }
    }
    assert forall i :: 0 <= i < n - 1 ==> u[cs[i]] == t[cs[i]];
  }

  lemma LinkedOneLinkEach(t: Table, tail: nat, d: nat)
    requires AllocOk(t) && IsTail(t, tail) && 2 <= d < |t| && t[d] == 0
    ensures OneLinkEach(Linked(t, tail, d))
  {
    AllocNoDangling(t);
  }

  lemma LinkedCount(t: Table, tail: nat, d: nat)
    requires IsTail(t, tail) && 2 <= d < |t| && t[d] == 0
    ensures FreeCount(Linked(t, tail, d)) + 1 == FreeCount(t)
  {
    FreeAfterSet(t, d, EOC, |t|);
    if tail != 0 {
      FreeAfterSet(t[d := EOC], tail, d, |t|);
    }
  }

  lemma {:induction false} FreeAtMost(t: Table, k: nat)
    requires k <= |t|
    ensures FreeUpTo(t, k) <= k
  {
    if k > 2 {
      FreeAtMost(t, k - 1);
    }
  }

  /** Linking a free cluster keeps the invariant: chains stay acyclic and disjoint. */
  lemma LinkedAllocOk(t: Table, tail: nat, d: nat)
    requires AllocOk(t) && IsTail(t, tail) && 2 <= d < |t| && t[d] == 0
    ensures AllocOk(Linked(t, tail, d))
    ensures FreeCount(Linked(t, tail, d)) + 1 == FreeCount(t)
  {
    var u := Linked(t, tail, d);
    LinkedOneLinkEach(t, tail, d);
    forall c | 2 <= c < |u| && u[c] != 0 && u[c] != BAD ensures HasChain(u, c) {
      LinkedHasChain(t, tail, d, c);
    }
    LinkedCount(t, tail, d);
  }

  lemma LinkedHasChain(t: Table, tail: nat, d: nat, c: nat)
    requires AllocOk(t) && IsTail(t, tail) && 2 <= d < |t| && t[d] == 0
    requires 2 <= c < |t| && Linked(t, tail, d)[c] != 0 && Linked(t, tail, d)[c] != BAD
    ensures HasChain(Linked(t, tail, d), c)
  {
    var u := Linked(t, tail, d);
    if c == d {
      assert u[d] == EOC;
      assert IsChain(u, d, [d]);
    } else {
      assert t[c] != 0 && t[c] != BAD;
      assert HasChain(t, c);
      var cs :| IsChain(t, c, cs);
      hide IsChain;
      LinkedChain(t, tail, d, c, cs);
    }
  }

  /** A chain head: no data cluster links to it. */
  predicate IsHead(t: Table, c: nat) {
    2 <= c < |t| && forall d :: 2 <= d < |t| ==> t[d] != c
  }

  /** Chains of different heads share no cluster. */
  lemma {:induction false} ChainsDisjoint(t: Table, c: nat, cs: seq<nat>, d: nat, ds: seq<nat>, i: nat, j: nat)
    requires AllocOk(t) && IsHead(t, c) && IsHead(t, d) && c != d
    requires IsChain(t, c, cs) && IsChain(t, d, ds) && i < |cs| && j < |ds|
    ensures cs[i] != ds[j]
    decreases i
  {
    assert i > 0 ==> t[cs[i - 1]] == cs[i];
    assert j > 0 ==> t[ds[j - 1]] == ds[j];
    if i > 0 && j > 0 {
      ChainsDisjoint(t, c, cs, d, ds, i - 1, j - 1);
    }
  }

  /** Zeroing a reserved entry touches no chain. */
  lemma ErasedReserved(t: Table, c: nat, cs: seq<nat>)
    requires AllocOk(t) && c < 2 && c < |t| && t[c] >= EOC_MIN && IsChain(t, c, cs)
    ensures AllocOk(ZeroAll(t, cs))
    ensures forall d, ds :: 2 <= d && IsChain(t, d, ds) ==> IsChain(ZeroAll(t, cs), d, ds)
  {
    var u := ZeroAll(t, cs);
    ChainLink(t, c, cs, 0);
    assert cs == [c];
    forall d, ds | 2 <= d && IsChain(t, d, ds) ensures IsChain(u, d, ds) {}
    forall d | 2 <= d < |u| && u[d] != 0 && u[d] != BAD ensures HasChain(u, d) {
      assert HasChain(t, d);
      var ds :| IsChain(t, d, ds);
      assert IsChain(u, d, ds);
    }
  }

  /** Releasing the chain of a head keeps the invariant and every chain of another head. */
  lemma ErasedAllocOk(t: Table, c: nat, cs: seq<nat>)
    requires AllocOk(t) && Detached(t, c) && IsChain(t, c, cs)
    ensures AllocOk(ZeroAll(t, cs))
    ensures forall d, ds :: IsHead(t, d) && d != c && IsChain(t, d, ds) ==> IsChain(ZeroAll(t, cs), d, ds)
  {
    var u := ZeroAll(t, cs);
    if c < 2 {
      ErasedReserved(t, c, cs);
      return;
    }
    forall d, ds | IsHead(t, d) && d != c && IsChain(t, d, ds) ensures IsChain(u, d, ds) {
      forall j | 0 <= j < |ds| ensures ds[j] !in cs {
        forall i | 0 <= i < |cs| ensures cs[i] != ds[j] {
          ChainsDisjoint(t, c, cs, d, ds, i, j);
        }
      }
    }
    forall d | 2 <= d < |u| && u[d] != 0 && u[d] != BAD ensures HasChain(u, d) {
      assert HasChain(t, d);
      var ds :| IsChain(t, d, ds);
      forall j | 0 <= j < |ds| ensures ds[j] !in cs {
        StaysOutside(t, c, cs, d, ds, j);
      }
      assert IsChain(u, d, ds);
    }
  }

  /** A walk that starts outside the chain of a head never enters it. */
  lemma {:induction false} StaysOutside(t: Table, c: nat, cs: seq<nat>, d: nat, ds: seq<nat>, j: nat)
    requires AllocOk(t) && IsHead(t, c) && IsChain(t, c, cs) && IsChain(t, d, ds)
    requires 2 <= d && d !in cs && j < |ds|
    ensures ds[j] !in cs
  {
    if j > 0 {
      StaysOutside(t, c, cs, d, ds, j - 1);
      assert t[ds[j - 1]] == ds[j];
      forall i | 0 <= i < |cs| ensures cs[i] != ds[j] {
        assert i > 0 ==> t[cs[i - 1]] == cs[i] && cs[i - 1] in cs;
      }
    }
  }
}
