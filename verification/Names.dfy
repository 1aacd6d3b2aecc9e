/** Directories in which no name hides another, their entries in use, and what a change leaves of both. */
module Names {
  import opened Bytes
  import opened LongName
  import opened Records

  lemma RecordNext(es: seq<Entry>, p: nat)
    requires WellFormed(es, p) && p < |es| && !IsLastMark(es[p])
    ensures WellFormed(es, RecordEnd(es, p) + 1) && RecordEnd(es, p) < |es|
  {
    hide FragFrom, CrcOf, FullFrags;
  }

  /** Behind a record nothing goes by a name that it goes by. */
  ghost predicate Once(es: seq<Entry>, p: nat)
    requires WellFormed(es, p)
    decreases |es| - p
  {
    || p >= |es| || IsLastMark(es[p])
    || (RecordNext(es, p);
        Once(es, RecordEnd(es, p) + 1) && NoOtherAt(es, p))
  }

  /** No name the record at p goes by is found behind it. */
  ghost predicate NoOtherAt(es: seq<Entry>, p: nat)
    requires WellFormed(es, p) && p < |es| && WellFormed(es, RecordEnd(es, p) + 1)
  {
    forall x :: Lookup(es, p, x) == Record(RecordEnd(es, p), p) ==> Lookup(es, RecordEnd(es, p) + 1, x).Miss?
  }

  lemma OnceStep(es: seq<Entry>, p: nat)
    requires WellFormed(es, p) && p < |es| && !IsLastMark(es[p])
    ensures RecordEnd(es, p) < |es| && WellFormed(es, RecordEnd(es, p) + 1)
    ensures Once(es, p) <==> Once(es, RecordEnd(es, p) + 1) && NoOtherAt(es, p)
  {
    hide WellFormed, Lookup, RecordEnd, NoOtherAt;
    RecordNext(es, p);
  }

  lemma OnceEnd(es: seq<Entry>, p: nat)
    requires WellFormed(es, p) && (p >= |es| || IsLastMark(es[p]))
    ensures Once(es, p) && forall x :: Lookup(es, p, x).Miss?
  {
    hide GoodRun;
  }

  /** Behind the record found for a name there is no second one. */
  lemma {:induction false} FoundOnce(es: seq<Entry>, p: nat, x: seq<byte>)
    requires WellFormed(es, p) && Once(es, p) && Lookup(es, p, x).Record?
    ensures WellFormed(es, Lookup(es, p, x).at + 1) && Lookup(es, Lookup(es, p, x).at + 1, x).Miss?
    decreases |es| - p
  {
    hide WellFormed, Lookup, RecordEnd, Once;
    LookupFrom(es, p, x);
    OnceStep(es, p);
    LookupStep(es, p, x);
    if Lookup(es, p, x) != Record(RecordEnd(es, p), p) {
      RecordEndsLater(es, p);
      FoundOnce(es, RecordEnd(es, p) + 1, x);
    }
  }

  lemma RecordEndsLater(es: seq<Entry>, p: nat)
    requires p < |es|
    ensures RecordEnd(es, p) >= p
  {
  }

  lemma {:induction false} OnceTail(es: seq<Entry>, es': seq<Entry>, p: nat)
    requires |es| <= |es'| && WellFormed(es, p) && Once(es, p)
    requires forall k :: p <= k < |es'| ==> es'[k] == EntryAt(es, k)
    ensures WellFormed(es', p) && Once(es', p)
    decreases |es| - p
  {
    hide WellFormed, Lookup, RecordEnd, Once;
    TailSame(es, es', p, []);
    if p >= |es'| || IsLastMark(es'[p]) {
      OnceEnd(es', p);
    } else {
      assert es'[p] == EntryAt(es, p);
      OnceStep(es, p);
      OnceStep(es', p);
      RecordEndsLater(es, p);
      RecordEndSame(es, es', p);
      OnceTail(es, es', RecordEnd(es, p) + 1);
      forall x | Lookup(es', p, x) == Record(RecordEnd(es, p), p) ensures Lookup(es', RecordEnd(es, p) + 1, x).Miss? {
        TailSame(es, es', p, x);
        TailSame(es, es', RecordEnd(es, p) + 1, x);
      }
    }
  }

  lemma RecordEndSame(es: seq<Entry>, es': seq<Entry>, p: nat)
    requires p < |es| && p < |es'| && es[p] == es'[p]
    ensures RecordEnd(es, p) == RecordEnd(es', p)
  {
  }

  lemma {:induction false} OnceSkip(es: seq<Entry>, s: nat, d: nat)
    requires s <= d <= |es| && DeletedUpTo(es, s, d) && WellFormed(es, s)
    ensures WellFormed(es, d) && (Once(es, s) <==> Once(es, d))
    decreases d - s
  {
    hide WellFormed, Lookup;
    SkipDeleted(es, s, d, []);
    if s < d {
      assert Deleted(EntryAt(es, s));
      OnceStep(es, s);
      OnceSkip(es, s + 1, d);
      forall x ensures Lookup(es, s, x) != Record(s, s) {
        LookupStep(es, s, x);
      }
    }
  }

  // ---------------------------------------------------------------- what adding and removing leave of it

  /** The run of a new name, at its slot. */
  lemma AddedOnceHere(es: seq<Entry>, es': seq<Entry>, s: nat, eod: bool, name: seq<byte>)
    requires WellFormed(es, s) && Once(es, s) && Lookup(es, s, name).Miss? && PlainName(name)
    requires GoodSlot(es, s, eod, RunLen(name)) && Added(es, es', s, eod, name)
    ensures WellFormed(es', s) && Once(es', s)
  {
    hide PlainName, Lookup, WellFormed, GoodSlot, Added, RunLen, DeletedUpTo, Once;
    var q := s + RunLen(name);
    AddAtSlot(es, es', s, eod, name, name);
    AddedHere(es, es', s, eod, name);
    OverRun(es', s, name, name);
    if eod {
      OnceEnd(es', q);
    } else {
      SkipDeleted(es, s, q, name);
      OnceSkip(es, s, q);
      TailSame(es, es', q, name);
      OnceTail(es, es', q);
    }
    OnceStep(es', s);
    forall x | Lookup(es', s, x) == Record(q - 1, s) ensures Lookup(es', q, x).Miss? {
      OverRun(es', s, name, x);
      LookupFrom(es', q, x);
    }
  }

  /** What the slot and what is behind it look like. */
  lemma AddedHere(es: seq<Entry>, es': seq<Entry>, s: nat, eod: bool, name: seq<byte>)
    requires PlainName(name) && GoodSlot(es, s, eod, RunLen(name)) && Added(es, es', s, eod, name)
    ensures |es| <= |es'| && s + RunLen(name) <= |es'| && RunLen(name) >= 2 && !IsLastMark(es'[s])
    ensures IsRunOf(es'[s..s + RunLen(name)], name) && RecordEnd(es', s) == s + RunLen(name) - 1
    ensures eod ==> s + RunLen(name) < |es'| && IsLastMark(es'[s + RunLen(name)])
    ensures !eod ==>
              && DeletedUpTo(es, s, s + RunLen(name)) && s + RunLen(name) <= |es|
              && forall k :: s + RunLen(name) <= k < |es'| ==> es'[k] == EntryAt(es, k)
  {
    hide PlainName, IsRunOf, DeletedUpTo, EndsWithin;
    RunIsGood(es', s, name);
    SlotInside(es, s, eod, RunLen(name));
    if !eod {
      DeletedInside(es, s, s + RunLen(name));
    }
  }

  lemma {:induction false} AddedOnce(es: seq<Entry>, es': seq<Entry>, p: nat, s: nat, eod: bool, name: seq<byte>)
    requires WellFormed(es, p) && Once(es, p) && p <= s && PlainName(name) && Lookup(es, p, name).Miss?
    requires GoodSlot(es, s, eod, RunLen(name)) && Added(es, es', s, eod, name)
    ensures WellFormed(es', p) && Once(es', p)
    decreases s - p
  {
    hide PlainName, Lookup, WellFormed, GoodSlot, Added, RunLen, SameEntries, Once;
    if p == s {
      AddedOnceHere(es, es', s, eod, name);
    } else {
      BeforeSlot(es, es', p, s, eod, name);
      var q := RecordEnd(es, p) + 1;
      RecordEndsLater(es, p);
      RecordKept(es, es', p);
      LookupStep(es, p, name);
      OnceStep(es, p);
      AddedOnce(es, es', q, s, eod, name);
      LookupAlike(es, es', p, name);
      OnceStep(es', p);
      forall x | Lookup(es', p, x) == Record(q - 1, p) ensures Lookup(es', q, x).Miss? {
        LookupAlike(es, es', p, x);
        LookupFrom(es', q, x);
        AddedLookup(es, es', q, s, eod, name, x);
      }
    }
  }

  lemma RecordKept(es: seq<Entry>, es': seq<Entry>, p: nat)
    requires p < |es| <= |es'| && SameEntries(es, es', p, RecordEnd(es, p) + 1) && !IsLastMark(es[p])
    ensures RecordEnd(es', p) == RecordEnd(es, p) && !IsLastMark(es'[p])
  {
  }

  lemma {:induction false} RemovedOnce(es: seq<Entry>, es': seq<Entry>, p: nat, name: seq<byte>)
    requires WellFormed(es, p) && Once(es, p) && Lookup(es, p, name).Record?
    requires Removed(es, es', Lookup(es, p, name).loc, Lookup(es, p, name).at)
    ensures WellFormed(es', p) && Once(es', p)
    decreases |es| - p
  {
    hide Lookup, WellFormed, SameEntries, Once, Removed;
    LookupFrom(es, p, name);
    LookupStep(es, p, name);
    OnceStep(es, p);
    RemovedLookup(es, es', p, name, name);
    RecordEndsLater(es, p);
    var q := RecordEnd(es, p) + 1;
    if Lookup(es, p, name).loc == p {
      RemovedMeans(es, es', p, q - 1);
      OnceTail(es, es', q);
      OnceSkip(es', p, q);
    } else {
      RemovedSame(es, es', Lookup(es, p, name).loc, Lookup(es, p, name).at, p, q - 1);
      RecordKept(es, es', p);
      RemovedOnce(es, es', q, name);
      OnceStep(es', p);
      forall x | Lookup(es', p, x) == Record(q - 1, p) ensures Lookup(es', q, x).Miss? {
        LookupAlike(es, es', p, x);
        LookupFrom(es', q, x);
        LookupStep(es, p, x);
        RemovedLookup(es, es', q, name, x);
      }
    }
  }

  lemma RemovedMeans(es: seq<Entry>, es': seq<Entry>, p: nat, at: nat)
    requires Removed(es, es', p, at) && at < |es|
    ensures |es'| == |es| && DeletedUpTo(es', p, at + 1)
    ensures forall k :: at + 1 <= k < |es'| ==> es'[k] == EntryAt(es, k)
  {
  }

  // ---------------------------------------------------------------- entries in use

  predicate NoMarkBefore(es: seq<Entry>, p: nat) {
    p <= |es| && forall k :: 0 <= k < p ==> !IsLastMark(es[k])
  }

  /** A short entry before the end marker. */
  predicate Live(es: seq<Entry>, p: nat) {
    p < |es| && !IsFree(es[p]) && !IsLfn(es[p]) && NoMarkBefore(es, p)
  }

  /** What a search finds is an entry in use, at the end of a record of entries in use. */
  lemma {:induction false} LookupLive(es: seq<Entry>, p: nat, x: seq<byte>)
    requires WellFormed(es, p) && NoMarkBefore(es, p) && Lookup(es, p, x).Record?
    ensures var r := Lookup(es, p, x);
      p <= r.loc <= r.at < |es| && Live(es, r.at) && forall k :: r.loc <= k <= r.at ==> !IsFree(es[k])
    decreases |es| - p
  {
    hide WellFormed, Lookup, RecordEnd, Live;
    LookupFrom(es, p, x);
    LookupStep(es, p, x);
    RecordEndsLater(es, p);
    RecordLive(es, p);
    if Lookup(es, p, x) != Record(RecordEnd(es, p), p) {
      LookupLive(es, RecordEnd(es, p) + 1, x);
    }
  }

  lemma RecordLive(es: seq<Entry>, p: nat)
    requires WellFormed(es, p) && p < |es| && NoMarkBefore(es, p) && !IsLastMark(es[p])
    ensures p <= RecordEnd(es, p) < |es| && NoMarkBefore(es, RecordEnd(es, p) + 1)
    ensures !IsFree(es[p]) ==> Live(es, RecordEnd(es, p)) && forall k :: p <= k <= RecordEnd(es, p) ==> !IsFree(es[k])
  {
    hide FragFrom, CrcOf, FullFrags, GoodRun;
    if !IsFree(es[p]) && IsLfn(es[p]) {
      RunInside(es, p);
      RunEndsShort(es, p);
      forall k | p <= k <= RecordEnd(es, p) ensures !IsFree(es[k]) {
        RunInUse(es, p, k);
      }
    }
  }

  lemma RunEndsShort(es: seq<Entry>, p: nat)
    requires GoodRun(es, p)
    ensures !IsLfn(es[p + FragsIn(es[p])])
  {
    hide FragFrom, CrcOf, FullFrags;
  }

  /** After an addition the entries in use are those before it and the new one. */
  lemma AddedLive(es: seq<Entry>, es': seq<Entry>, s: nat, eod: bool, name: seq<byte>, p: nat)
    requires GoodSlot(es, s, eod, RunLen(name)) && Added(es, es', s, eod, name) && Live(es', p) && PlainName(name)
    ensures p == s + RunLen(name) - 1 || (Live(es, p) && es'[p] == es[p] && !(s <= p < s + RunLen(name)))
  {
    hide PlainName, IsRunOf, DeletedUpTo, EndsWithin;
    var m := s + RunLen(name);
    if s <= p < m - 1 {
      RunIsLong(es', s, name, p);
    } else if p != m - 1 {
      assert eod ==> IsLastMark(es'[m]) && IsFree(es'[m]);
      assert !(eod && m <= p);
      assert es'[p] == EntryAt(es, p);
      forall k | 0 <= k < p ensures !IsLastMark(EntryAt(es, k)) {
        if s <= k < m {
          SlotDeleted(es, s, m, k);
        } else {
          assert es'[k] == EntryAt(es, k);
        }
      }
      assert p < |es|;
      forall k | 0 <= k < p ensures !IsLastMark(es[k]) {
        assert EntryAt(es, k) == es[k];
      }
    }
  }

  /** The entries of a slot are not in use. */
  lemma SlotNotLive(es: seq<Entry>, s: nat, eod: bool, need: nat, p: nat)
    requires GoodSlot(es, s, eod, need) && s <= p < s + need
    ensures !Live(es, p)
  {
    if !eod {
      SlotDeleted(es, s, s + need, p);
      assert Deleted(EntryAt(es, p));
    } else {
      var d: nat :| s <= d < s + need && IsLastMark(EntryAt(es, d)) && DeletedUpTo(es, s, d);
      if p < d {
        SlotDeleted(es, s, d, p);
        assert Deleted(EntryAt(es, p));
      }
    }
  }

  /** Records that start at the same place end at the same place. */
  lemma {:induction false} LookupEnd(es: seq<Entry>, p: nat, x: seq<byte>)
    requires WellFormed(es, p) && Lookup(es, p, x).Record?
    ensures var r := Lookup(es, p, x); r.loc < |es| && r.at == RecordEnd(es, r.loc)
    decreases |es| - p
  {
    hide WellFormed, Lookup, RecordEnd;
    LookupFrom(es, p, x);
    LookupStep(es, p, x);
    RecordEndsLater(es, p);
    if Lookup(es, p, x) != Record(RecordEnd(es, p), p) {
      LookupEnd(es, RecordEnd(es, p) + 1, x);
    }
  }

  lemma RunIsLong(es: seq<Entry>, s: nat, name: seq<byte>, p: nat)
    requires s <= p < s + RunLen(name) - 1 < |es| && IsRunOf(es[s..s + RunLen(name)], name) && PlainName(name)
    ensures IsLfn(es[p])
  {
    hide PlainName, IsRunOf, FragFrom, FragOf, CrcOf, SfnOf;
    RunEntry(es[s..s + RunLen(name)], name, p - s);
  }

  lemma SlotDeleted(es: seq<Entry>, s: nat, m: nat, k: nat)
    requires DeletedUpTo(es, s, m) && s <= k < m
    ensures !IsLastMark(EntryAt(es, k))
  {
    assert Deleted(EntryAt(es, k));
  }

  /** After a removal they are those before it but the record's. */
  lemma RemovedLive(es: seq<Entry>, es': seq<Entry>, loc: nat, at: nat, p: nat)
    requires Removed(es, es', loc, at) && at < |es| && (forall k :: loc <= k <= at ==> !IsFree(es[k])) && Live(es', p)
    ensures Live(es, p) && es'[p] == es[p] && !(loc <= p <= at)
  {
    forall k | 0 <= k < p ensures !IsLastMark(es[k]) {
      assert !IsLastMark(es'[k]);
    }
  }

  // ---------------------------------------------------------------- a short entry renewed under its old name

  predicate SameShort(e: Entry, f: Entry) {
    e == f || (e[..11] == f[..11] && !IsLfn(e) && !IsLfn(f) && !IsFree(e))
  }

  /** Some short entries in use have new dates, sizes and the like. */
  predicate Renewed(es: seq<Entry>, es': seq<Entry>) {
    |es| == |es'| && forall k :: 0 <= k < |es| ==> SameShort(es[k], es'[k])
  }

  lemma SameShortMeans(e: Entry, f: Entry)
    requires SameShort(e, f)
    ensures e[..11] == f[..11] && CrcOf(e) == CrcOf(f) && (IsLfn(e) <==> IsLfn(f)) && (IsLfn(e) || IsFree(e) ==> e == f)
    ensures (IsFree(e) <==> IsFree(f)) && (IsLastMark(e) <==> IsLastMark(f)) && e[0] == f[0]
  {
    hide Checksum;
    assert e[0] == e[..11][0] && f[0] == f[..11][0];
    ChecksumOfPrefix(e, f, 11);
  }

  lemma {:induction false} RenewedName(es: seq<Entry>, es': seq<Entry>, p: nat, cnt: nat)
    requires Renewed(es, es') && p + cnt <= |es| && forall k :: p <= k < p + cnt ==> IsLfn(es[k])
    ensures NameOf(es, p, cnt) == NameOf(es', p, cnt)
    decreases cnt
  {
    hide FragChars;
    if cnt > 0 {
      assert SameShort(es[p], es'[p]);
      RenewedName(es, es', p + 1, cnt - 1);
    }
  }

  lemma RenewedRun(es: seq<Entry>, es': seq<Entry>, p: nat)
    requires GoodRun(es, p) && Renewed(es, es')
    ensures GoodRun(es', p) && es'[p] == es[p]
    ensures NameOf(es, p, FragsIn(es[p])) == NameOf(es', p, FragsIn(es[p]))
  {
    hide FragFrom, CrcOf, SameShort, NameOf;
    var n := FragsIn(es[p]);
    forall k | p <= k <= p + n
      ensures (IsLfn(es[k]) ==> es'[k] == es[k]) && CrcOf(es'[k]) == CrcOf(es[k]) && (IsFree(es'[k]) <==> IsFree(es[k]))
      ensures IsLfn(es'[k]) <==> IsLfn(es[k])
    {
      SameShortMeans(es[k], es'[k]);
    }
    RenewedName(es, es', p, n);
  }

  /** No search sees the difference. */
  lemma {:induction false} RenewedLookup(es: seq<Entry>, es': seq<Entry>, p: nat, x: seq<byte>)
    requires Renewed(es, es') && WellFormed(es, p)
    ensures WellFormed(es', p) && Lookup(es', p, x) == Lookup(es, p, x)
    decreases |es| - p
  {
    hide FragFrom, CrcOf, SfnOf, FullFrags, NameOf, GoodRun, SameShort;
    if p < |es| {
      SameShortMeans(es[p], es'[p]);
      if !IsLastMark(es[p]) {
        if !IsFree(es[p]) && IsLfn(es[p]) {
          RunInside(es, p);
          RenewedRun(es, es', p);
          RenewedLookup(es, es', p + FragsIn(es[p]) + 1, x);
        } else {
          RenewedLookup(es, es', p + 1, x);
        }
      }
    }
  }

  lemma {:induction false} RenewedOnce(es: seq<Entry>, es': seq<Entry>, p: nat)
    requires Renewed(es, es') && WellFormed(es, p) && Once(es, p)
    ensures WellFormed(es', p) && Once(es', p)
    decreases |es| - p
  {
    hide WellFormed, Lookup, RecordEnd, Once, SameShort;
    RenewedLookup(es, es', p, []);
    if p < |es| {
      SameShortMeans(es[p], es'[p]);
    }
    if p >= |es'| || IsLastMark(es'[p]) {
      OnceEnd(es', p);
    } else {
      var q := RecordEnd(es, p) + 1;
      OnceStep(es, p);
      OnceStep(es', p);
      RecordEndsLater(es, p);
      RenewedEnd(es, es', p);
      RenewedOnce(es, es', q);
      forall x | Lookup(es', p, x) == Record(q - 1, p) ensures Lookup(es', q, x).Miss? {
        RenewedLookup(es, es', p, x);
        RenewedLookup(es, es', q, x);
      }
    }
  }

  lemma RenewedEnd(es: seq<Entry>, es': seq<Entry>, p: nat)
    requires Renewed(es, es') && p < |es|
    ensures RecordEnd(es', p) == RecordEnd(es, p)
  {
    hide SameShort;
    SameShortMeans(es[p], es'[p]);
  }

  lemma RenewedLive(es: seq<Entry>, es': seq<Entry>, p: nat)
    requires Renewed(es, es')
    ensures Live(es', p) <==> Live(es, p)
  {
    hide SameShort;
    forall k | 0 <= k < |es| && k <= p
      ensures (IsFree(es'[k]) <==> IsFree(es[k])) && (IsLastMark(es'[k]) <==> IsLastMark(es[k]))
      ensures IsLfn(es'[k]) <==> IsLfn(es[k])
    {
      SameShortMeans(es[k], es'[k]);
    }
  }

  // ---------------------------------------------------------------- a record cut short

  /** es' is es before s; at s there are the first m long entries of the run of name, and behind them nothing that
      belongs to it. A card is left so when power is lost after the sector with those m entries has been written and
      before the next one has. */
  ghost predicate Torn(es: seq<Entry>, es': seq<Entry>, s: nat, m: nat, name: seq<byte>) {
    && 1 <= |name| <= MAX_NAME && 1 <= m <= FragCount(|name|) <= MAX_FRAGS && s <= |es| <= |es'| && s + m < |es'|
    && (forall k :: 0 <= k < s ==> es'[k] == es[k])
    && (forall j :: s <= j < s + m ==> IsLfnEntry(es'[j], name, FragCount(|name|) - (j - s), CrcOf(SfnOf(name))))
    && (if m < FragCount(|name|) then !(IsLfn(es'[s + m]) && Crc(es'[s + m]) == CrcOf(SfnOf(name)))
        else IsFree(es'[s + m]) || IsLfn(es'[s + m]) || CrcOf(es'[s + m]) != CrcOf(SfnOf(name)))
  }

  /** Long entry k of what is there of the run. */
  lemma TornEntry(es: seq<Entry>, es': seq<Entry>, s: nat, m: nat, name: seq<byte>, k: nat)
    requires Torn(es, es', s, m, name) && PlainName(name) && k < m
    ensures !IsFree(es'[s + k]) && IsLfn(es'[s + k]) && Crc(es'[s + k]) == CrcOf(SfnOf(name))
    ensures FragFrom(es'[s + k], 0).Chars? && |FragFrom(es'[s + k], 0).s| <= FRAG_LEN
    ensures k > 0 ==> |FragFrom(es'[s + k], 0).s| == FRAG_LEN
    ensures k == 0 ==>
              && FragsIn(es'[s]) == FragCount(|name|) && HasHeadBit(es'[s])
              && |FragFrom(es'[s], 0).s| + FRAG_LEN * (FragCount(|name|) - 1) == |name|
  {
    hide HoldsFrag, FragFrom, CrcOf, SfnOf;
    var f := FragOf(name, FragCount(|name|) - k);
    assert IsLfnEntry(es'[s + k], name, FragCount(|name|) - k, CrcOf(SfnOf(name)));
    FragReadsBack(es'[s + k], es'[s + k], f, 0);
    assert f[0..] == f;
  }

  /** The parser goes as far as the entries do, and then does not get on. */
  lemma {:induction false} TornParse(es: seq<Entry>, es': seq<Entry>, s: nat, m: nat, name: seq<byte>, k: nat, len: nat,
                                     buf: seq<byte>)
    requires Torn(es, es', s, m, name) && PlainName(name) && k <= m && |buf| == SCRATCH
    ensures var r := ParseFrags(es', s + k, FragCount(|name|) - k, CrcOf(SfnOf(name)), len, buf);
      if m < FragCount(|name|) then r == ParseBroken
      else r.Parsed? && r.next == s + m
    decreases m - k
  {
    hide FragFrom, Splice, IsLfn, Crc, CrcOf, SfnOf, PlainName, ParseFrags;
    var n := FragCount(|name|);
    if k == n {
      ParseEnd(es', s + k, CrcOf(SfnOf(name)), len, buf);
    } else {
      ParseStep(es', s + k, n - k, CrcOf(SfnOf(name)), len, buf);
      if k < m {
        TornEntry(es, es', s, m, name, k);
        var f := FragFrom(es'[s + k], 0).s;
        TornParse(es, es', s, m, name, k + 1, len + |f|, Splice(buf, 13 * (n - k - 1), f));
      }
    }
  }

  lemma TornHere(es: seq<Entry>, es': seq<Entry>, s: nat, m: nat, name: seq<byte>, x: seq<byte>, buf: seq<byte>)
    requires Torn(es, es', s, m, name) && PlainName(name) && |buf| == SCRATCH
    ensures Search(es', s, x, buf) == Malformed
  {
    hide FragFrom, Splice, CrcOf, SfnOf, PlainName, ParseFrags, IsLfnEntry;
    TornEntry(es, es', s, m, name, 0);
    TornParse(es, es', s, m, name, 0, 0, buf);
    ParseAdvances(es', s, FragsIn(es'[s]), Crc(es'[s]), 0, buf);
  }

  /** One step of a search in the cut directory, over a record before the cut. */
  lemma TornStep(es: seq<Entry>, es': seq<Entry>, p: nat, x: seq<byte>, buf: seq<byte>) returns (buf': seq<byte>)
    requires WellFormed(es, p) && p < |es| <= |es'| && !IsLastMark(es[p]) && |buf| == SCRATCH
    requires SameEntries(es, es', p, RecordEnd(es, p) + 1)
    ensures |buf'| == SCRATCH
    ensures Lookup(es, p, x) == Record(RecordEnd(es, p), p) ==> Search(es', p, x, buf) == Hit(RecordEnd(es, p), p)
    ensures Lookup(es, p, x) != Record(RecordEnd(es, p), p) ==>
              Search(es', p, x, buf) == Search(es', RecordEnd(es, p) + 1, x, buf')
  {
    hide FragFrom, CrcOf, SfnOf, FullFrags, NameOf, ParseLfn;
    buf' := buf;
    LookupStep(es, p, x);
    LookupFrom(es, RecordEnd(es, p) + 1, x);
    if !IsFree(es[p]) && IsLfn(es[p]) {
      RunSame(es, es', p);
      ParseGoodRun(es', p, buf);
      buf' := ParseLfn(es', p, buf).buf;
    }
  }

  /** After such a cut every search that does not succeed before that place fails, and not with "not found": no name
      recorded behind it can be reached, and no new one can be made. */
  lemma {:induction false} TornSearch(es: seq<Entry>, es': seq<Entry>, p: nat, s: nat, eod: bool, m: nat,
                                      name: seq<byte>, x: seq<byte>, buf: seq<byte>)
    requires WellFormed(es, p) && p <= s && GoodSlot(es, s, eod, RunLen(name))
    requires Torn(es, es', s, m, name) && PlainName(name) && |buf| == SCRATCH
    ensures var r := Lookup(es, p, x);
      Search(es', p, x, buf) == if r.Record? && r.loc < s then Hit(r.at, r.loc) else Malformed
    decreases s - p
  {
    hide PlainName, Lookup, WellFormed, GoodSlot, Torn, RunLen, SameEntries, Search;
    if p == s {
      TornHere(es, es', s, m, name, x, buf);
      LookupFrom(es, s, x);
    } else {
      TornLen(name);
      EndsBeforeSlot(es, p, s, eod, RunLen(name));
      TornSame(es, es', s, m, name, p, RecordEnd(es, p));
      LookupStep(es, p, x);
      RecordEndsLater(es, p);
      var buf' := TornStep(es, es', p, x, buf);
      TornSearch(es, es', RecordEnd(es, p) + 1, s, eod, m, name, x, buf');
      LookupFrom(es, RecordEnd(es, p) + 1, x);
    }
  }

  lemma TornLen(name: seq<byte>)
    ensures RunLen(name) > 0
  {
  }

  lemma TornSame(es: seq<Entry>, es': seq<Entry>, s: nat, m: nat, name: seq<byte>, p: nat, q: nat)
    requires Torn(es, es', s, m, name) && q < s
    ensures q < |es| <= |es'| && SameEntries(es, es', p, q + 1)
  {
  }
}
