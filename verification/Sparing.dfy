/** Changes of the table that spare the chains they are not about, also those that stop half way. */
module Sparing {
  import opened Chain

  /** Nothing links to any of the clusters; the reserved ones do not matter. */
  predicate Heads(t: Table, but: set<nat>) {
    forall c :: c in but && 2 <= c ==> IsHead(t, c)
  }

  /** Every head but those has in u the chain it has in t. */
  ghost predicate HeadsKept(t: Table, u: Table, but: set<nat>) {
    forall x, xs :: x !in but && IsHead(t, x) && IsChain(t, x, xs) ==> IsHead(u, x) && IsChain(u, x, xs)
  }

  /** From a sound table on which nothing links to the clusters in but: the table stays sound, nothing links to them
      still, and every other chain stays. */
  ghost predicate Spared(t: Table, u: Table, but: set<nat>) {
    |t| == |u| && (AllocOk(t) && Heads(t, but) ==> AllocOk(u) && Heads(u, but) && HeadsKept(t, u, but))
  }

  lemma SparedRefl(t: Table, but: set<nat>)
    ensures Spared(t, t, but)
  {
    hide AllocOk, IsHead, IsChain;
  }

  lemma InUse(t: Table, x: nat, xs: seq<nat>)
    requires TableOk(t) && IsChain(t, x, xs)
    ensures t[x] != 0
  {
    ChainLink(t, x, xs, 0);
  }

  // ---------------------------------------------------------------- taking a cluster

  /** What is left of the table whether or not the steps of an allocation behind tail have all been made. */
  ghost predicate Taking(t: Table, u: Table, tail: nat) {
    && |t| == |u| && tail < |t|
    && (u == t || exists d :: 2 <= d < |t| && t[d] == 0 && TakenBy(t, u, tail, d))
  }

  predicate TakenBy(t: Table, u: Table, tail: nat, d: nat)
    requires tail < |t| && d < |t|
  {
    u == Linked(t, 0, d) || u == Linked(t, tail, d)
  }

  /** A chain of its own is all a free cluster may become without harm to any other. */
  lemma StartSpares(t: Table, d: nat, but: set<nat>)
    requires 2 <= d < |t| && t[d] == 0
    ensures Spared(t, Linked(t, 0, d), but)
  {
    if AllocOk(t) && Heads(t, but) {
      var u := Linked(t, 0, d);
      hide AllocOk, IsChain;
      AllocTableOk(t);
      LinkedAllocOk(t, 0, d);
      forall x, xs | x !in but && IsHead(t, x) && IsChain(t, x, xs) ensures IsHead(u, x) && IsChain(u, x, xs) {
        LinkedChain(t, 0, d, x, xs);
      }
    }
  }

  /** Or the new end of the chain of c. */
  lemma LinkSpares(t: Table, c: nat, cs: seq<nat>, d: nat)
    requires 2 <= d < |t| && t[d] == 0 && 2 <= c && TableOk(t) && IsChain(t, c, cs)
    ensures cs[|cs| - 1] < |t| && Spared(t, Linked(t, cs[|cs| - 1], d), {c})
  {
    var n := |cs|;
    ChainLink(t, c, cs, n - 1);
    if AllocOk(t) && Heads(t, {c}) {
      var u := Linked(t, cs[n - 1], d);
      hide AllocOk, IsChain;
      LinkedAllocOk(t, cs[n - 1], d);
      InUse(t, c, cs);
      assert IsHead(u, c);
      forall x, xs | x != c && IsHead(t, x) && IsChain(t, x, xs) ensures IsHead(u, x) && IsChain(u, x, xs) {
        LinkedChain(t, cs[n - 1], d, x, xs);
        InUse(t, x, xs);
        ChainEnd(t, x, xs);
        ChainsDisjoint(t, c, cs, x, xs, n - 1, |xs| - 1);
      }
    }
  }

  lemma ChainEnd(t: Table, x: nat, xs: seq<nat>)
    requires IsChain(t, x, xs)
    ensures |xs| > 0
  {
  }

  lemma TakingSpares(t: Table, u: Table, c: nat, cs: seq<nat>)
    requires |cs| > 0 && Taking(t, u, cs[|cs| - 1]) && 2 <= c && TableOk(t) && IsChain(t, c, cs)
    ensures Spared(t, u, {c})
  {
    hide Spared, IsChain;
    if u == t {
      SparedRefl(t, {c});
    } else {
      var d :| 2 <= d < |t| && t[d] == 0 && TakenBy(t, u, cs[|cs| - 1], d);
      StartSpares(t, d, {c});
      LinkSpares(t, c, cs, d);
    }
  }

  lemma TakingFirstSpares(t: Table, u: Table, but: set<nat>)
    requires Taking(t, u, 0)
    ensures Spared(t, u, but)
  {
    hide Spared;
    if u == t {
      SparedRefl(t, but);
    } else {
      var d :| 2 <= d < |t| && t[d] == 0 && TakenBy(t, u, 0, d);
      StartSpares(t, d, but);
    }
  }

  // ---------------------------------------------------------------- releasing a chain

  /** Half way through the release of the chain of c0, with c to be freed next. */
  ghost predicate Freeing(t: Table, u: Table, c0: nat, c: nat) {
    && |t| == |u| && (forall i :: 0 <= i < |t| ==> u[i] == t[i] || u[i] == 0)
    && (AllocOk(t) && Detached(t, c0) ==>
          AllocOk(u) && Detached(u, c) && Heads(u, {c0}) && (c == c0 || !IsHead(t, c)) && HeadsKept(t, u, {c0}))
  }

  /** What is left when the release stops. */
  ghost predicate Freed(t: Table, u: Table, c0: nat) {
    |t| == |u| && (AllocOk(t) && Detached(t, c0) ==> AllocOk(u) && Heads(u, {c0}) && HeadsKept(t, u, {c0}))
  }

  lemma FreeingStart(t: Table, c: nat)
    ensures Freeing(t, t, c, c)
  {
    hide AllocOk, IsChain;
  }

  lemma FreeingStops(t: Table, u: Table, c0: nat, c: nat)
    requires Freeing(t, u, c0, c)
    ensures Freed(t, u, c0)
  {
    hide AllocOk, IsChain;
  }

  lemma FreeingStep(t: Table, u: Table, c0: nat, c: nat)
    requires Freeing(t, u, c0, c) && c < |u|
    ensures Freed(t, u[c := 0], c0)
    ensures KindOf(u[c], |u|).Used? ==> Freeing(t, u[c := 0], c0, u[c])
  {
    if AllocOk(t) && Detached(t, c0) {
      hide AllocOk, IsChain;
      AllocTableOk(u);
      AllocNoDangling(u);
      FirstFreed(u, c);
      FreeHead(u, c);
      forall x, xs | x != c0 && IsHead(t, x) && IsChain(t, x, xs)
        ensures IsHead(u[c := 0], x) && IsChain(u[c := 0], x, xs)
      {
        OtherThanFreed(u, c, x, xs);
      }
    }
  }

  /** Taking the first cluster off a chain nothing links to keeps the table sound. */
  lemma FirstFreed(t: Table, c: nat)
    requires AllocOk(t) && Detached(t, c)
    ensures AllocOk(t[c := 0])
  {
    var u := t[c := 0];
    assert TableOk(u);
    forall d | 2 <= d < |u| && u[d] != 0 && u[d] != BAD ensures HasChain(u, d) {
      assert HasChain(t, d);
      var ds :| IsChain(t, d, ds);
      OtherThanFreed(t, c, d, ds);
    }
  }

  /** Only the chain that starts there goes through a cluster nothing links to. */
  lemma OtherThanFreed(t: Table, c: nat, x: nat, xs: seq<nat>)
    requires TableOk(t) && Detached(t, c) && x != c && 2 <= x && IsChain(t, x, xs)
    ensures IsChain(t[c := 0], x, xs) && (IsHead(t, x) ==> IsHead(t[c := 0], x))
  {
    forall i | 0 <= i < |xs| ensures xs[i] != c {
      if i > 0 {
        ChainLink(t, x, xs, i - 1);
      }
    }
  }

  /** To the owner of another chain the release, however far it got, is a change that spares. */
  lemma FreedSpares(t: Table, u: Table, c: nat, s: nat, cs: seq<nat>)
    requires Freed(t, u, c) && Detached(t, c) && s != c && IsChain(t, s, cs)
    ensures Spared(t, u, {s, c})
  {
    hide AllocOk, IsHead, IsChain, Detached;
    assert Heads(t, {s, c}) && 2 <= s ==> IsHead(t, s);
  }
}
