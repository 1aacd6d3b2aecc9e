/** A directory as the sequence of its 32-byte entries: what a search finds in it, where a new name goes,
    and what adding and removing do to every search. */
module Records {
  import opened Bytes
  import opened LongName

  const SCRATCH := 514

  // ---------------------------------------------------------------- parsing as the driver does it

  datatype Parsed = ParseEof | ParseBroken | Parsed(next: nat, len: nat, buf: seq<byte>)

  /** Fragments cnt .. 1 from entry p on, characters going to 13 * (number - 1) of the shared buffer.
      Behind the last fragment there must be another entry. */
  function ParseFrags(es: seq<Entry>, p: nat, cnt: nat, crc: byte, len: nat, buf: seq<byte>): Parsed
    requires p < |es| && cnt <= MAX_FRAGS && |buf| == SCRATCH
    decreases cnt
  {
    if cnt == 0 then Parsed(p, len, buf)
    else if !IsLfn(es[p]) || Crc(es[p]) != crc then ParseBroken
    else
      match FragFrom(es[p], 0)
      case BadFrag => ParseBroken
      case Chars(s) =>
        if p + 1 >= |es| then ParseEof
        else ParseFrags(es, p + 1, cnt - 1, crc, len + |s|, Splice(buf, 13 * (cnt - 1), s))
  }

  function FragsIn(e: Entry): nat { e[0] % 0x20 }

  predicate HasHeadBit(e: Entry) { e[0] / LFN_HEAD % 2 == 1 }

  function ParseLfn(es: seq<Entry>, p: nat, buf: seq<byte>): Parsed
    requires p < |es| && |buf| == SCRATCH
  {
    if !HasHeadBit(es[p]) || FragsIn(es[p]) > MAX_FRAGS then ParseBroken
    else
      var r := ParseFrags(es, p, FragsIn(es[p]), Crc(es[p]), 0, buf);
      if r.Parsed? && r.len > MAX_NAME then ParseBroken else r
  }

  lemma {:induction false} ParseAdvances(es: seq<Entry>, p: nat, cnt: nat, crc: byte, len: nat, buf: seq<byte>)
    requires p < |es| && cnt <= MAX_FRAGS && |buf| == SCRATCH
    ensures var r := ParseFrags(es, p, cnt, crc, len, buf);
            r.Parsed? ==> r.next == p + cnt < |es| && |r.buf| == SCRATCH && r.len <= len + 13 * cnt
    decreases cnt
  {
    hide FragFrom, Splice, IsLfn, Crc;
    if cnt > 0 && FragFrom(es[p], 0).Chars? && p + 1 < |es| {
      var s := FragFrom(es[p], 0).s;
      ParseAdvances(es, p + 1, cnt - 1, crc, len + |s|, Splice(buf, 13 * (cnt - 1), s));
    }
  }

  /** What dir_search returns. Hit: the short entry, and the first entry of the record. */
  datatype Outcome = Eof | Malformed | Hit(at: nat, loc: nat)

  function Search(es: seq<Entry>, p: nat, name: seq<byte>, buf: seq<byte>): Outcome
    requires |buf| == SCRATCH
    decreases |es| - p
  {
    if p >= |es| || IsLastMark(es[p]) then Eof
    else if IsFree(es[p]) then Search(es, p + 1, name, buf)
    else if IsLfn(es[p]) then
      ParseAdvances(es, p, if FragsIn(es[p]) > MAX_FRAGS then 0 else FragsIn(es[p]), Crc(es[p]), 0, buf);
      match ParseLfn(es, p, buf)
      case ParseEof => Eof
      case ParseBroken => Malformed
      case Parsed(q, len, buf') =>
        if IsFree(es[q]) || IsLfn(es[q]) || Crc(es[p]) != CrcOf(es[q]) then Malformed
        else if len == |name| && buf'[..len] == name then Hit(q, p)
        else Search(es, q + 1, name, buf')
    else if es[p][..11] == SfnOf(name) then Hit(p, p)
    else Search(es, p + 1, name, buf)
  }

  // ---------------------------------------------------------------- well-formed directories

  /** cnt complete fragments from p on, none of them marked free. */
  predicate FullFrags(es: seq<Entry>, p: nat, cnt: nat, crc: byte) {
    && p + cnt <= |es|
    && forall k :: p <= k < p + cnt ==>
         && !IsFree(es[k]) && IsLfn(es[k]) && Crc(es[k]) == crc
         && FragFrom(es[k], 0).Chars? && |FragFrom(es[k], 0).s| == FRAG_LEN
  }

  /** A long name and its short entry: only the first entry, which holds the end of the name, may be short. */
  predicate GoodRun(es: seq<Entry>, p: nat) {
    && p < |es| && IsLfn(es[p]) && !IsFree(es[p]) && HasHeadBit(es[p])
    && 1 <= FragsIn(es[p]) <= MAX_FRAGS
    && FragFrom(es[p], 0).Chars?
    && 13 * (FragsIn(es[p]) - 1) + |FragFrom(es[p], 0).s| <= MAX_NAME
    && FullFrags(es, p + 1, FragsIn(es[p]) - 1, Crc(es[p]))
    && p + FragsIn(es[p]) < |es|
    && !IsFree(es[p + FragsIn(es[p])]) && !IsLfn(es[p + FragsIn(es[p])])
    && Crc(es[p]) == CrcOf(es[p + FragsIn(es[p])])
  }

  function FragChars(e: Entry): seq<byte> {
    match FragFrom(e, 0)
    case BadFrag => []
    case Chars(s) => s
  }

  /** The name spelt by cnt fragments from p on: the last entry first. */
  function NameOf(es: seq<Entry>, p: nat, cnt: nat): seq<byte>
    requires p + cnt <= |es|
    decreases cnt
  {
    if cnt == 0 then [] else NameOf(es, p + 1, cnt - 1) + FragChars(es[p])
  }

  /** From p on, up to the end marker, the directory is deleted entries, long names in order, short names. */
  predicate WellFormed(es: seq<Entry>, p: nat)
    decreases |es| - p
  {
    || p >= |es| || IsLastMark(es[p])
    || (if IsFree(es[p]) then WellFormed(es, p + 1)
        else if IsLfn(es[p]) then GoodRun(es, p) && WellFormed(es, p + FragsIn(es[p]) + 1)
        else WellFormed(es, p + 1))
  }

  /** The record, if any, that goes by name. */
  datatype Listing = Miss | Record(at: nat, loc: nat)

  predicate ShortFits(e: Entry, name: seq<byte>) { e[..11] == SfnOf(name) }

  predicate LongFits(es: seq<Entry>, p: nat, cnt: nat, name: seq<byte>)
    requires p + cnt <= |es|
  {
    NameOf(es, p, cnt) == name
  }

  lemma RunInside(es: seq<Entry>, p: nat)
    requires GoodRun(es, p)
    ensures p + FragsIn(es[p]) < |es|
  {
  }

  function Lookup(es: seq<Entry>, p: nat, name: seq<byte>): Listing
    requires WellFormed(es, p)
    decreases |es| - p
  {
    hide GoodRun, ShortFits, LongFits;
    if p >= |es| || IsLastMark(es[p]) then Miss
    else if IsFree(es[p]) then Lookup(es, p + 1, name)
    else if IsLfn(es[p]) then
      RunInside(es, p);
      var q := p + FragsIn(es[p]);
      if LongFits(es, p, FragsIn(es[p]), name) then Record(q, p) else Lookup(es, q + 1, name)
    else if ShortFits(es[p], name) then Record(p, p)
    else Lookup(es, p + 1, name)
  }

  function AsOutcome(r: Listing): Outcome {
    match r
    case Miss => Eof
    case Record(at, loc) => Hit(at, loc)
  }

  predicate StartsWith(buf: seq<byte>, s: seq<byte>) {
    |s| <= |buf| && forall k :: 0 <= k < |s| ==> buf[k] == s[k]
  }

  predicate SameFrom(a: seq<byte>, b: seq<byte>, at: nat) {
    |a| == |b| && forall k :: at <= k < |a| ==> a[k] == b[k]
  }

  /** One turn of the loop over fragments. */
  lemma ParseStep(es: seq<Entry>, p: nat, cnt: nat, crc: byte, len: nat, buf: seq<byte>)
    requires p < |es| && 0 < cnt <= MAX_FRAGS && |buf| == SCRATCH
    ensures !IsLfn(es[p]) || Crc(es[p]) != crc || FragFrom(es[p], 0).BadFrag? ==>
              ParseFrags(es, p, cnt, crc, len, buf) == ParseBroken
    ensures IsLfn(es[p]) && Crc(es[p]) == crc && FragFrom(es[p], 0).Chars? ==>
              ParseFrags(es, p, cnt, crc, len, buf) ==
                if p + 1 >= |es| then ParseEof
                else ParseFrags(es, p + 1, cnt - 1, crc, len + |FragFrom(es[p], 0).s|,
                                Splice(buf, 13 * (cnt - 1), FragFrom(es[p], 0).s))
  {
    hide FragFrom, Splice, IsLfn, Crc;
  }

  lemma ParseEnd(es: seq<Entry>, p: nat, crc: byte, len: nat, buf: seq<byte>)
    requires p < |es| && |buf| == SCRATCH
    ensures ParseFrags(es, p, 0, crc, len, buf) == Parsed(p, len, buf)
  {
  }

  lemma FullStep(es: seq<Entry>, p: nat, cnt: nat, crc: byte)
    requires FullFrags(es, p, cnt, crc) && cnt > 0
    ensures p < |es| && IsLfn(es[p]) && Crc(es[p]) == crc && FragFrom(es[p], 0).Chars?
    ensures |FragFrom(es[p], 0).s| == FRAG_LEN
    ensures FragChars(es[p]) == FragFrom(es[p], 0).s && FullFrags(es, p + 1, cnt - 1, crc)
  {
    hide FragFrom;
  }

  lemma NameStep(es: seq<Entry>, p: nat, cnt: nat)
    requires p + cnt <= |es|
    ensures NameOf(es, p, cnt) == if cnt == 0 then [] else NameOf(es, p + 1, cnt - 1) + FragChars(es[p])
  {
    hide FragChars;
  }

  /** Complete fragments fill the buffer from its start, whatever it held, and leave the rest of it alone. */
  lemma {:induction false} ParseFull(es: seq<Entry>, p: nat, cnt: nat, crc: byte, len: nat, buf: seq<byte>)
    requires p + cnt < |es| && cnt < MAX_FRAGS && |buf| == SCRATCH && FullFrags(es, p, cnt, crc)
    ensures |NameOf(es, p, cnt)| == 13 * cnt
    ensures ParseFrags(es, p, cnt, crc, len, buf).Parsed?
    ensures var r := ParseFrags(es, p, cnt, crc, len, buf);
            r.next == p + cnt && r.len == len + 13 * cnt && |r.buf| == SCRATCH
    ensures StartsWith(ParseFrags(es, p, cnt, crc, len, buf).buf, NameOf(es, p, cnt))
    ensures SameFrom(ParseFrags(es, p, cnt, crc, len, buf).buf, buf, 13 * cnt)
    decreases cnt
  {
    hide FragFrom, FragChars, StartsWith, SameFrom, Splice, FullFrags, ParseFrags, NameOf, IsLfn, Crc;
    NameStep(es, p, cnt);
    if cnt == 0 {
      ParseEnd(es, p, crc, len, buf);
      FillStep([], 0, [], buf, buf);
    } else {
      FullStep(es, p, cnt, crc);
      ParseStep(es, p, cnt, crc, len, buf);
      var s := FragChars(es[p]);
      ParseFull(es, p + 1, cnt - 1, crc, len + |s|, Splice(buf, 13 * (cnt - 1), s));
      FillStep(NameOf(es, p + 1, cnt - 1), 13 * (cnt - 1), s, buf, ParseFrags(es, p, cnt, crc, len, buf).buf);
    }
  }

  lemma StartsWithMeans(buf: seq<byte>, s: seq<byte>)
    requires StartsWith(buf, s)
    ensures |s| <= |buf| && buf[..|s|] == s
  {
  }

  lemma FillStep(front: seq<byte>, at: nat, s: seq<byte>, buf: seq<byte>, r: seq<byte>)
    requires at + |s| <= |buf| && |front| == at && |r| == |buf|
    requires StartsWith(r, front) && SameFrom(r, Splice(buf, at, s), at)
    ensures StartsWith(r, front + s) && SameFrom(r, buf, at + |s|)
  {
  }

  lemma ParseGoodRun(es: seq<Entry>, p: nat, buf: seq<byte>)
    requires |buf| == SCRATCH && GoodRun(es, p)
    ensures ParseLfn(es, p, buf).Parsed?
    ensures var r := ParseLfn(es, p, buf);
      && r.next == p + FragsIn(es[p]) && |r.buf| == SCRATCH
      && r.len == |NameOf(es, p, FragsIn(es[p]))| <= MAX_NAME && r.buf[..r.len] == NameOf(es, p, FragsIn(es[p]))
  {
    hide FragFrom, CrcOf, StartsWith, SameFrom, Splice, FullFrags;
    var cnt := FragsIn(es[p]);
    var s := FragChars(es[p]);
    var b := Splice(buf, 13 * (cnt - 1), s);
    assert FragFrom(es[p], 0) == Chars(s);
    ParseFull(es, p + 1, cnt - 1, Crc(es[p]), |s|, b);
    var r := ParseFrags(es, p + 1, cnt - 1, Crc(es[p]), |s|, b);
    assert ParseLfn(es, p, buf) == r;
    FillStep(NameOf(es, p + 1, cnt - 1), 13 * (cnt - 1), s, buf, r.buf);
    StartsWithMeans(r.buf, NameOf(es, p, cnt));
  }

  /** On a well-formed directory the search does not depend on what the shared buffer held before. */
  lemma {:induction false} SearchIsLookup(es: seq<Entry>, p: nat, name: seq<byte>, buf: seq<byte>)
    requires WellFormed(es, p) && |buf| == SCRATCH
    ensures Search(es, p, name, buf) == AsOutcome(Lookup(es, p, name))
    decreases |es| - p
  {
    hide FragFrom, CrcOf, NameOf, SfnOf, ParseLfn, FullFrags;
    if p < |es| && !IsLastMark(es[p]) {
      if !IsFree(es[p]) && IsLfn(es[p]) {
        ParseGoodRun(es, p, buf);
        SearchIsLookup(es, p + FragsIn(es[p]) + 1, name, ParseLfn(es, p, buf).buf);
      } else {
        SearchIsLookup(es, p + 1, name, buf);
      }
    }
  }

  // ---------------------------------------------------------------- finding room

  function ZeroEntry(): (e: Entry)
    ensures IsLastMark(e) && forall k :: 0 <= k < ENTRY_SIZE ==> e[k] == 0
  {
    var zeroes: seq<byte> := seq(ENTRY_SIZE, _ => 0);
    zeroes
  }

  /** Behind its last cluster a directory goes on with zeroes: that is what it is extended with. */
  function EntryAt(es: seq<Entry>, p: nat): Entry {
    if p < |es| then es[p] else ZeroEntry()
  }

  datatype Slot = Slot(start: nat, eod: bool)

  /** The first need consecutive entries that are free, where everything behind an end marker is free. */
  function FindSlot(es: seq<Entry>, p: nat, cnt: nat, start: nat, eod: bool, need: nat): Slot
    decreases if p < |es| then |es| - p else 0, need - cnt, if eod then 0 else 1
  {
    if cnt >= need then Slot(start, eod)
    else
      var e := EntryAt(es, p);
      if eod || IsFree(e) then
        FindSlot(es, p + 1, cnt + 1, if cnt == 0 then p else start, eod || IsLastMark(e), need)
      else FindSlot(es, p + 1, 0, start, false, need)
  }

  predicate Deleted(e: Entry) { e[0] == SFN_FREE }

  /** No end marker before the slot; it is deleted entries all through, or up to an end marker in it. */
  ghost predicate GoodSlot(es: seq<Entry>, s: nat, eod: bool, need: nat) {
    && (forall k :: 0 <= k < s ==> !IsLastMark(EntryAt(es, k)))
    && (eod ==> EndsWithin(es, s, s + need))
    && (!eod ==> DeletedUpTo(es, s, s + need))
  }

  /** Deleted entries from s up to an end marker before m. */
  ghost predicate EndsWithin(es: seq<Entry>, s: nat, m: nat) {
    exists d: nat :: s <= d < m && IsLastMark(EntryAt(es, d)) && DeletedUpTo(es, s, d)
  }

  predicate DeletedUpTo(es: seq<Entry>, s: nat, d: nat) {
    forall k :: s <= k < d ==> Deleted(EntryAt(es, k))
  }

  lemma {:induction false} SlotIsGood(es: seq<Entry>, p: nat, cnt: nat, start: nat, eod: bool, need: nat)
    requires need > 0 && cnt <= need && cnt <= p && (cnt > 0 ==> start == p - cnt) && (eod ==> cnt > 0)
    requires forall k :: 0 <= k < p - cnt ==> !IsLastMark(EntryAt(es, k))
    requires eod ==> EndsWithin(es, start, p)
    requires !eod ==> DeletedUpTo(es, p - cnt, p)
    ensures GoodSlot(es, FindSlot(es, p, cnt, start, eod, need).start, FindSlot(es, p, cnt, start, eod, need).eod, need)
    decreases if p < |es| then |es| - p else 0, need - cnt
  {
    hide DeletedUpTo, EndsWithin;
    if cnt < need {
      var e := EntryAt(es, p);
      if eod || IsFree(e) {
        var st := if cnt == 0 then p else start;
        SlotGrows(es, st, p);
        SlotIsGood(es, p + 1, cnt + 1, st, eod || IsLastMark(e), need);
      } else {
        SlotStarts(es, p - cnt, p);
        SlotIsGood(es, p + 1, 0, start, false, need);
      }
    }
  }

  /** An entry in use: behind it counting starts over. */
  lemma SlotStarts(es: seq<Entry>, s: nat, p: nat)
    requires DeletedUpTo(es, s, p) && !IsFree(EntryAt(es, p))
    requires forall k :: 0 <= k < s ==> !IsLastMark(EntryAt(es, k))
    ensures DeletedUpTo(es, p + 1, p + 1) && forall k :: 0 <= k < p + 1 ==> !IsLastMark(EntryAt(es, k))
  {
    forall k | s <= k < p ensures !IsLastMark(EntryAt(es, k)) {
      assert Deleted(EntryAt(es, k));
    }
  }

  /** One entry more, from st on. */
  lemma SlotGrows(es: seq<Entry>, st: nat, p: nat)
    requires st <= p
    ensures DeletedUpTo(es, p, p)
    ensures EndsWithin(es, st, p) ==> EndsWithin(es, st, p + 1)
    ensures DeletedUpTo(es, st, p) && Deleted(EntryAt(es, p)) ==> DeletedUpTo(es, st, p + 1)
    ensures DeletedUpTo(es, st, p) && IsLastMark(EntryAt(es, p)) ==> EndsWithin(es, st, p + 1)
  {
    if EndsWithin(es, st, p) {
      var d: nat :| st <= d < p && IsLastMark(EntryAt(es, d)) && DeletedUpTo(es, st, d);
      assert d < p + 1;
    }
  }

  // ---------------------------------------------------------------- adding a name

  function RunLen(name: seq<byte>): nat { FragCount(|name|) + 1 }

  /** es' is es with the run of name at s; when that runs past the end marker, the entry behind it is the new one. */
  ghost predicate Added(es: seq<Entry>, es': seq<Entry>, s: nat, eod: bool, name: seq<byte>) {
    && |es| <= |es'| && s + RunLen(name) <= |es'| && (eod ==> s + RunLen(name) < |es'|)
    && IsRunOf(es'[s..s + RunLen(name)], name)
    && (forall k :: 0 <= k < |es'| && !(s <= k < s + RunLen(name)) && !(eod && k == s + RunLen(name)) ==>
          es'[k] == EntryAt(es, k))
    && (eod ==> IsLastMark(es'[s + RunLen(name)]))
  }

  /** Long entry k of a run: not free, and its characters read back. */
  lemma RunEntry(es: seq<Entry>, name: seq<byte>, k: nat)
    requires IsRunOf(es, name) && PlainName(name) && k < FragCount(|name|)
    ensures !IsFree(es[k]) && IsLfn(es[k]) && Crc(es[k]) == CrcOf(SfnOf(name))
    ensures FragFrom(es[k], 0) == Chars(FragOf(name, FragCount(|name|) - k))
    ensures k == 0 ==> FragsIn(es[0]) == FragCount(|name|) && HasHeadBit(es[0])
  {
    hide HoldsFrag, FragFrom, CrcOf, SfnOf;
    var f := FragOf(name, FragCount(|name|) - k);
    assert IsLfnEntry(es[k], name, FragCount(|name|) - k, CrcOf(SfnOf(name)));
    FragReadsBack(es[k], es[k], f, 0);
    assert f[0..] == f;
  }

  /** The short entry of a run: not free, and its checksum is the one the long entries carry. */
  lemma RunShort(es: seq<Entry>, name: seq<byte>)
    requires IsRunOf(es, name)
    ensures 1 <= FragCount(|name|) <= MAX_FRAGS && 1 <= |name| <= MAX_NAME
    ensures !IsFree(es[|es| - 1]) && !IsLfn(es[|es| - 1]) && CrcOf(es[|es| - 1]) == CrcOf(SfnOf(name))
  {
    hide IsLfnEntry, SfnOf, Checksum;
    SfnNotFree(name);
    var sfn := es[|es| - 1];
    assert sfn[0] == sfn[..11][0];
    assert SfnOf(name)[..11] == SfnOf(name);
    ChecksumOfPrefix(sfn, SfnOf(name), 11);
  }

  function Cut(name: seq<byte>, m: nat): seq<byte> {
    if 13 * m < |name| then name[..13 * m] else name
  }

  lemma CutStep(name: seq<byte>, i: nat)
    requires 1 <= i <= FragCount(|name|)
    ensures Cut(name, i - 1) + FragOf(name, i) == Cut(name, i)
  {
  }

  /** The entries of a run from k on spell the name up to where fragment n - k of it ends. */
  lemma {:induction false} RunSpells(es: seq<Entry>, p: nat, name: seq<byte>, k: nat)
    requires p + RunLen(name) <= |es| && IsRunOf(es[p..p + RunLen(name)], name) && PlainName(name)
    requires k <= FragCount(|name|)
    ensures NameOf(es, p + k, FragCount(|name|) - k) == Cut(name, FragCount(|name|) - k)
    decreases FragCount(|name|) - k
  {
    hide IsRunOf, PlainName, Cut, FragFrom, FragOf, FragCount, NameOf;
    var n := FragCount(|name|);
    NameStep(es, p + k, n - k);
    if k < n {
      RunSpells(es, p, name, k + 1);
      var run := es[p..p + RunLen(name)];
      RunEntry(run, name, k);
      assert run[k] == es[p + k];
      CutStep(name, n - k);
    } else {
      CutNone(name);
    }
  }

  lemma CutNone(name: seq<byte>)
    ensures Cut(name, 0) == []
  {
  }

  lemma RunFull(es: seq<Entry>, p: nat, name: seq<byte>)
    requires p + RunLen(name) <= |es| && IsRunOf(es[p..p + RunLen(name)], name) && PlainName(name)
    ensures FullFrags(es, p + 1, FragCount(|name|) - 1, Crc(es[p]))
  {
    hide PlainName, FragFrom, SfnOf, CrcOf, IsLfnEntry;
    var run := es[p..p + RunLen(name)];
    RunEntry(run, name, 0);
    assert run[0] == es[p];
    forall k | p + 1 <= k < p + FragCount(|name|)
      ensures !IsFree(es[k]) && IsLfn(es[k]) && Crc(es[k]) == Crc(es[p])
      ensures FragFrom(es[k], 0).Chars? && |FragFrom(es[k], 0).s| == FRAG_LEN
    {
      RunEntry(run, name, k - p);
      assert run[k - p] == es[k];
    }
  }

  /** Round trip: the parser accepts the run and reads the name it was built from. */
  lemma RunIsGood(es: seq<Entry>, p: nat, name: seq<byte>)
    requires p + RunLen(name) <= |es| && IsRunOf(es[p..p + RunLen(name)], name) && PlainName(name)
    ensures GoodRun(es, p) && FragsIn(es[p]) == FragCount(|name|)
    ensures NameOf(es, p, FragCount(|name|)) == name
  {
    hide PlainName, FragFrom, IsRunOf, CrcOf, SfnOf, FullFrags, NameOf;
    var n := FragCount(|name|);
    var run := es[p..p + RunLen(name)];
    RunShort(run, name);
    RunSpells(es, p, name, 0);
    RunFull(es, p, name);
    RunEntry(run, name, 0);
    assert run[0] == es[p] && run[n] == es[p + n];
  }

  // ---------------------------------------------------------------- what adding does to searches

  /** Deleted entries are passed over. */
  lemma {:induction false} SkipDeleted(es: seq<Entry>, s: nat, d: nat, x: seq<byte>)
    requires s <= d <= |es| && DeletedUpTo(es, s, d)
    ensures WellFormed(es, s) <==> WellFormed(es, d)
    ensures WellFormed(es, s) ==> Lookup(es, s, x) == Lookup(es, d, x)
    decreases d - s
  {
    if s < d {
      assert Deleted(EntryAt(es, s));
      SkipDeleted(es, s + 1, d, x);
    }
  }

  predicate SameEntries(es: seq<Entry>, es': seq<Entry>, p: nat, q: nat) {
    q <= |es| && q <= |es'| && forall k :: p <= k < q ==> es[k] == es'[k]
  }

  lemma {:induction false} NameSame(es: seq<Entry>, es': seq<Entry>, p: nat, cnt: nat)
    requires SameEntries(es, es', p, p + cnt)
    ensures NameOf(es, p, cnt) == NameOf(es', p, cnt)
    decreases cnt
  {
    if cnt > 0 {
      NameSame(es, es', p + 1, cnt - 1);
    }
  }

  lemma RunSame(es: seq<Entry>, es': seq<Entry>, p: nat)
    requires GoodRun(es, p) && SameEntries(es, es', p, p + FragsIn(es[p]) + 1)
    ensures GoodRun(es', p) && FragsIn(es'[p]) == FragsIn(es[p])
    ensures NameOf(es, p, FragsIn(es[p])) == NameOf(es', p, FragsIn(es[p]))
  {
    hide FragFrom, CrcOf;
    NameSame(es, es', p, FragsIn(es[p]));
  }

  /** A tail that is the old one, zeroes behind it, is searched alike. */
  lemma {:induction false} TailSame(es: seq<Entry>, es': seq<Entry>, p: nat, x: seq<byte>)
    requires |es| <= |es'| && WellFormed(es, p)
    requires forall k :: p <= k < |es'| ==> es'[k] == EntryAt(es, k)
    ensures WellFormed(es', p) && Lookup(es', p, x) == Lookup(es, p, x)
    decreases |es| - p
  {
    hide FragFrom, CrcOf, SfnOf, FullFrags, NameOf;
    if p < |es| && !IsLastMark(es[p]) {
      if !IsFree(es[p]) && IsLfn(es[p]) {
        RunSame(es, es', p);
        TailSame(es, es', p + FragsIn(es[p]) + 1, x);
      } else {
        TailSame(es, es', p + 1, x);
      }
    }
  }

  /** Every entry of a good run is in use. */
  lemma RunInUse(es: seq<Entry>, p: nat, k: nat)
    requires GoodRun(es, p) && p <= k <= p + FragsIn(es[p])
    ensures !IsFree(es[k])
  {
    hide FragFrom, CrcOf;
  }

  /** The search for x in the new directory, from r being its result in the old one. */
  function AfterAdd(r: Listing, x: seq<byte>, s: nat, name: seq<byte>): Listing {
    if x == name && (r.Miss? || r.loc >= s) then Record(s + RunLen(name) - 1, s) else r
  }

  /** A search meets the run of a name as one record. */
  lemma OverRun(es: seq<Entry>, s: nat, name: seq<byte>, x: seq<byte>)
    requires s + RunLen(name) <= |es| && IsRunOf(es[s..s + RunLen(name)], name) && PlainName(name)
    ensures WellFormed(es, s) <==> WellFormed(es, s + RunLen(name))
    ensures WellFormed(es, s) ==>
              Lookup(es, s, x) == if x == name then Record(s + RunLen(name) - 1, s) else Lookup(es, s + RunLen(name), x)
  {
    hide IsRunOf, PlainName, FragFrom, CrcOf, SfnOf, FullFrags, NameOf;
    RunIsGood(es, s, name);
  }

  /** Past the end marker, deleted entries and that marker gave way to the run and a new marker. */
  lemma AddAtEnd(es: seq<Entry>, es': seq<Entry>, s: nat, name: seq<byte>, x: seq<byte>)
    requires WellFormed(es, s) && EndsWithin(es, s, s + RunLen(name)) && Added(es, es', s, true, name)
    requires PlainName(name)
    ensures WellFormed(es', s)
    ensures Lookup(es', s, x) == if x == name then Record(s + RunLen(name) - 1, s) else Lookup(es, s, x)
  {
    hide IsRunOf, PlainName, SfnOf, NameOf, GoodRun;
    OverRun(es', s, name, x);
    EndMissed(es, s, s + RunLen(name), x);
  }

  /** Before an end marker with nothing but deleted entries in between, nothing is found. */
  lemma EndMissed(es: seq<Entry>, s: nat, m: nat, x: seq<byte>)
    requires WellFormed(es, s) && EndsWithin(es, s, m)
    ensures Lookup(es, s, x).Miss?
  {
    hide SfnOf, NameOf, GoodRun;
    if s <= |es| {
      var d: nat :| s <= d < m && IsLastMark(EntryAt(es, d)) && DeletedUpTo(es, s, d);
      DeletedInside(es, s, d);
      SkipDeleted(es, s, d, x);
    }
  }

  /** Deleted entries are not end markers, so they lie inside the directory. */
  lemma DeletedInside(es: seq<Entry>, s: nat, d: nat)
    requires s <= |es| && s <= d && DeletedUpTo(es, s, d)
    ensures d <= |es|
  {
    assert d > |es| ==> Deleted(EntryAt(es, |es|));
  }

  lemma AddAtDeleted(es: seq<Entry>, es': seq<Entry>, s: nat, name: seq<byte>, x: seq<byte>)
    requires WellFormed(es, s) && DeletedUpTo(es, s, s + RunLen(name)) && Added(es, es', s, false, name)
    requires PlainName(name)
    requires s <= |es|
    ensures WellFormed(es', s)
    ensures Lookup(es', s, x) == if x == name then Record(s + RunLen(name) - 1, s) else Lookup(es, s, x)
  {
    hide IsRunOf, PlainName, SfnOf, NameOf, GoodRun, Lookup, WellFormed;
    DeletedInside(es, s, s + RunLen(name));
    SkipDeleted(es, s, s + RunLen(name), x);
    TailSame(es, es', s + RunLen(name), x);
    OverRun(es', s, name, x);
  }

  lemma AddAtSlot(es: seq<Entry>, es': seq<Entry>, s: nat, eod: bool, name: seq<byte>, x: seq<byte>)
    requires WellFormed(es, s) && GoodSlot(es, s, eod, RunLen(name)) && Added(es, es', s, eod, name) && PlainName(name)
    ensures WellFormed(es', s)
    ensures Lookup(es', s, x) == if x == name then Record(s + RunLen(name) - 1, s) else Lookup(es, s, x)
  {
    hide IsRunOf, PlainName, SfnOf, NameOf, GoodRun, WellFormed, Added, DeletedUpTo, EndsWithin, RunLen;
    SlotInside(es, s, eod, RunLen(name));
    if eod {
      AddAtEnd(es, es', s, name, x);
    } else {
      AddAtDeleted(es, es', s, name, x);
    }
  }

  lemma SlotInside(es: seq<Entry>, s: nat, eod: bool, need: nat)
    requires GoodSlot(es, s, eod, need)
    ensures s <= |es|
  {
    assert s > |es| ==> !IsLastMark(EntryAt(es, |es|));
  }

  /** The last entry of the record or deleted entry at p. */
  function RecordEnd(es: seq<Entry>, p: nat): nat
    requires p < |es|
  {
    if !IsFree(es[p]) && IsLfn(es[p]) then p + FragsIn(es[p]) else p
  }

  /** One step of a search: the record at p is the one, or the search goes on behind it. */
  lemma LookupStep(es: seq<Entry>, p: nat, x: seq<byte>)
    requires WellFormed(es, p) && p < |es| && !IsLastMark(es[p])
    ensures WellFormed(es, RecordEnd(es, p) + 1)
    ensures Lookup(es, p, x) == Lookup(es, RecordEnd(es, p) + 1, x)
         || (Lookup(es, p, x) == Record(RecordEnd(es, p), p) && !IsFree(es[p]))
    ensures Lookup(es, RecordEnd(es, p) + 1, x).Record? ==> RecordEnd(es, p) < Lookup(es, RecordEnd(es, p) + 1, x).loc
  {
    hide FragFrom, CrcOf, SfnOf, FullFrags, NameOf;
    LookupFrom(es, RecordEnd(es, p) + 1, x);
  }

  /** Two directories with the same record at p decide alike whether it is the one. */
  lemma LookupAlike(es: seq<Entry>, es': seq<Entry>, p: nat, x: seq<byte>)
    requires WellFormed(es, p) && p < |es| && !IsLastMark(es[p]) && |es| <= |es'|
    requires SameEntries(es, es', p, RecordEnd(es, p) + 1) && WellFormed(es', RecordEnd(es, p) + 1)
    ensures WellFormed(es', p)
    ensures Lookup(es, p, x) == Record(RecordEnd(es, p), p) ==> Lookup(es', p, x) == Lookup(es, p, x)
    ensures Lookup(es, p, x) != Record(RecordEnd(es, p), p) ==>
              Lookup(es', p, x) == Lookup(es', RecordEnd(es, p) + 1, x)
  {
    hide FragFrom, CrcOf, SfnOf, FullFrags, NameOf;
    if !IsFree(es[p]) && IsLfn(es[p]) {
      RunSame(es, es', p);
    }
    LookupFrom(es, RecordEnd(es, p) + 1, x);
  }

  /** After an addition the new name is found at its new short entry, unless an entry before it already
      went by that name, and every other name is found or not exactly as before; the directory stays well-formed. */
  lemma {:induction false} AddedLookup(es: seq<Entry>, es': seq<Entry>, p: nat, s: nat, eod: bool, name: seq<byte>,
                                       x: seq<byte>)
    requires WellFormed(es, p) && p <= s && PlainName(name)
    requires GoodSlot(es, s, eod, RunLen(name)) && Added(es, es', s, eod, name)
    ensures WellFormed(es', p) && Lookup(es', p, x) == AfterAdd(Lookup(es, p, x), x, s, name)
    decreases s - p
  {
    hide PlainName, Lookup, WellFormed, GoodSlot, Added, RunLen, SameEntries;
    if p == s {
      AddAtSlot(es, es', s, eod, name, x);
      LookupFrom(es, s, x);
    } else {
      BeforeSlot(es, es', p, s, eod, name);
      LookupStep(es, p, x);
      AddedLookup(es, es', RecordEnd(es, p) + 1, s, eod, name, x);
      LookupAlike(es, es', p, x);
    }
  }

  /** A record or deleted entry that starts before the slot ends before it. */
  lemma EndsBeforeSlot(es: seq<Entry>, p: nat, s: nat, eod: bool, need: nat)
    requires WellFormed(es, p) && p < s && GoodSlot(es, s, eod, need) && need > 0
    ensures p < |es| && s <= |es| && !IsLastMark(es[p]) && RecordEnd(es, p) < s
  {
    hide GoodRun, EndsWithin;
    SlotInside(es, s, eod, need);
    assert !IsLastMark(EntryAt(es, p));
    FreeSlot(es, s, eod, need);
    if !IsFree(es[p]) && IsLfn(es[p]) {
      RunInside(es, p);
      if s <= RecordEnd(es, p) {
        RunInUse(es, p, s);
        assert false;
      }
    }
  }

  /** And stays. */
  lemma BeforeSlot(es: seq<Entry>, es': seq<Entry>, p: nat, s: nat, eod: bool, name: seq<byte>)
    requires WellFormed(es, p) && p < s && GoodSlot(es, s, eod, RunLen(name)) && Added(es, es', s, eod, name)
    ensures p < |es| <= |es'| && !IsLastMark(es[p]) && RecordEnd(es, p) < s
    ensures SameEntries(es, es', p, RecordEnd(es, p) + 1)
  {
    hide IsRunOf, GoodSlot, WellFormed;
    EndsBeforeSlot(es, p, s, eod, RunLen(name));
  }

  lemma FreeSlot(es: seq<Entry>, s: nat, eod: bool, need: nat)
    requires GoodSlot(es, s, eod, need) && need > 0
    ensures IsFree(EntryAt(es, s))
  {
    if eod {
      var d: nat :| s <= d < s + need && IsLastMark(EntryAt(es, d)) && DeletedUpTo(es, s, d);
      assert s < d ==> Deleted(EntryAt(es, s));
    }
  }

  lemma {:induction false} LookupFrom(es: seq<Entry>, p: nat, x: seq<byte>)
    requires WellFormed(es, p)
    ensures Lookup(es, p, x).Record? ==> p <= Lookup(es, p, x).loc <= Lookup(es, p, x).at < |es| && !IsLastMark(es[p])
    decreases |es| - p
  {
    hide FragFrom, CrcOf, SfnOf, FullFrags, NameOf;
    if p < |es| && !IsLastMark(es[p]) {
      if IsFree(es[p]) || !IsLfn(es[p]) {
        LookupFrom(es, p + 1, x);
      } else {
        LookupFrom(es, p + FragsIn(es[p]) + 1, x);
      }
    }
  }

  /** Every search of the new directory: AddedLookup for all names. */
  ghost predicate AllFoundAfterAdd(es: seq<Entry>, es': seq<Entry>, s: nat, name: seq<byte>)
    requires WellFormed(es, 0)
  {
    WellFormed(es', 0) && forall x :: Lookup(es', 0, x) == AfterAdd(Lookup(es, 0, x), x, s, name)
  }

  lemma AddedLookups(es: seq<Entry>, es': seq<Entry>, s: nat, eod: bool, name: seq<byte>)
    requires WellFormed(es, 0) && PlainName(name)
    requires GoodSlot(es, s, eod, RunLen(name)) && Added(es, es', s, eod, name)
    ensures AllFoundAfterAdd(es, es', s, name)
  {
    hide GoodSlot, Added, AfterAdd, Lookup, WellFormed, PlainName;
    AddedLookup(es, es', 0, s, eod, name, []);
    forall x ensures Lookup(es', 0, x) == AfterAdd(Lookup(es, 0, x), x, s, name) {
      AddedLookup(es, es', 0, s, eod, name, x);
    }
  }

  // ---------------------------------------------------------------- what removing does to searches

  /** The entries loc .. at are marked free, the others are untouched. */
  predicate Removed(es: seq<Entry>, es': seq<Entry>, loc: nat, at: nat) {
    && |es'| == |es|
    && forall k :: 0 <= k < |es| ==> es'[k] == if loc <= k <= at then es[k][0 := SFN_FREE] else es[k]
  }

  lemma RemovedSame(es: seq<Entry>, es': seq<Entry>, loc: nat, at: nat, p: nat, q: nat)
    requires Removed(es, es', loc, at) && q < loc && q < |es|
    ensures |es| == |es'| && SameEntries(es, es', p, q + 1)
  {
  }

  /** The record removed is the one at p. */
  lemma RemovedHere(es: seq<Entry>, es': seq<Entry>, p: nat, q: nat, x: seq<byte>)
    requires p <= q < |es| && WellFormed(es, q + 1) && Removed(es, es', p, q)
    ensures WellFormed(es', p) && Lookup(es', p, x) == Lookup(es, q + 1, x)
  {
    hide WellFormed, Lookup, GoodRun;
    TailSame(es, es', q + 1, x);
    SkipDeleted(es', p, q + 1, x);
  }

  /** Removing the record a name was found at: a name that was found there is looked for behind it, every
      other name is found or not exactly as before; the directory stays well-formed. */
  lemma {:induction false} RemovedLookup(es: seq<Entry>, es': seq<Entry>, p: nat, name: seq<byte>, x: seq<byte>)
    requires WellFormed(es, p) && Lookup(es, p, name).Record?
    requires Removed(es, es', Lookup(es, p, name).loc, Lookup(es, p, name).at)
    ensures WellFormed(es', p) && WellFormed(es, Lookup(es, p, name).at + 1)
    ensures Lookup(es', p, x) == AfterRemove(es, Lookup(es, p, name), Lookup(es, p, x), x)
    decreases |es| - p
  {
    hide Lookup, WellFormed, Removed, SameEntries;
    LookupFrom(es, p, name);
    LookupStep(es, p, name);
    LookupStep(es, p, x);
    var q := RecordEnd(es, p);
    if Lookup(es, p, name).loc == p {
      RemovedHere(es, es', p, q, x);
    } else {
      RemovedSame(es, es', Lookup(es, p, name).loc, Lookup(es, p, name).at, p, q);
      RemovedLookup(es, es', q + 1, name, x);
      LookupAlike(es, es', p, x);
    }
  }

  function AfterRemove(es: seq<Entry>, gone: Listing, r: Listing, x: seq<byte>): Listing
    requires gone.Record? && WellFormed(es, gone.at + 1)
  {
    if r.Record? && r.loc == gone.loc then Lookup(es, gone.at + 1, x) else r
  }

  ghost predicate AllFoundAfterRemove(es: seq<Entry>, es': seq<Entry>, gone: Listing)
    requires WellFormed(es, 0) && gone.Record? && WellFormed(es, gone.at + 1)
  {
    WellFormed(es', 0) && forall x :: Lookup(es', 0, x) == AfterRemove(es, gone, Lookup(es, 0, x), x)
  }

  lemma RemovedLookups(es: seq<Entry>, es': seq<Entry>, name: seq<byte>)
    requires WellFormed(es, 0) && Lookup(es, 0, name).Record?
    requires Removed(es, es', Lookup(es, 0, name).loc, Lookup(es, 0, name).at)
    ensures WellFormed(es, Lookup(es, 0, name).at + 1) && AllFoundAfterRemove(es, es', Lookup(es, 0, name))
  {
    hide Removed, AfterRemove, Lookup, WellFormed;
    RemovedLookup(es, es', 0, name, name);
    forall x ensures Lookup(es', 0, x) == AfterRemove(es, Lookup(es, 0, name), Lookup(es, 0, x), x) {
      RemovedLookup(es, es', 0, name, x);
    }
  }
}
