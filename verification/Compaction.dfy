/** compact_run of compact.rs on the bytes themselves: up to eight rounds of
    planning, copying with a checksum, and a new index. Nothing is assumed
    about the data, so blocks may have gone bad. */
module Compaction {
  import opened Crc
  import opened Spans
  import opened Wrappers
  import opened Files
  import opened Format
  import opened Entries
  import opened Engine
  import opened Store
  import opened StoreInv
  import opened PlanFacts
  import opened IndexMap
  import opened VfsEngine
  import opened HeaderFiles
  import opened Flushing
  import P = Planner

  // --- what an index means, given the data ---

  datatype File = File(name: Name, size: nat, crc: u32, bytes: seq<u8>)

  /** The entry is Active and its bytes have its checksum. */
  ghost predicate Reads(e: Ent, data: seq<u8>, f: File) {
    && e.Active() && e.name == f.name && e.size == f.size && e.crc == f.crc
    && |f.bytes| == f.size && Crc32(f.bytes) == f.crc && Holds(data, e.offset, f.bytes)
  }

  ghost predicate Has(ents: seq<Ent>, data: seq<u8>, f: File) {
    exists e :: e in ents && Reads(e, data, f)
  }

  ghost predicate SameFiles(ents: seq<Ent>, data: seq<u8>, ents2: seq<Ent>, data2: seq<u8>) {
    forall f :: Has(ents, data, f) <==> Has(ents2, data2, f)
  }

  // --- copying one file ---

  function Slice(data: seq<u8>, off: nat, n: nat): (r: seq<u8>)
    requires off + n <= |data|
    ensures |r| == n
  {
    data[off..off + n]
  }

  /** What copying an item does to the data. */
  function Copied(data: seq<u8>, i: P.PlanItem): seq<u8>
    requires i.oldOff + i.size <= |data|
  {
    if i.Moved() && i.size > 0 then Pwrite(data, i.newOff, Slice(data, i.oldOff, i.size)) else data
  }

  lemma PwriteTwice(f: seq<u8>, off: nat, a: seq<u8>, b: seq<u8>)
    ensures Pwrite(Pwrite(f, off, a), off + |a|, b) == Pwrite(f, off, a + b)
  {
    var p, q := Pwrite(Pwrite(f, off, a), off + |a|, b), Pwrite(f, off, a + b);
    assert |p| == |q|;
    forall k | 0 <= k < |p|
      ensures p[k] == q[k]
    {
      PwriteByte(Pwrite(f, off, a), off + |a|, b, k);
      PwriteByte(f, off, a + b, k);
      if k < |Pwrite(f, off, a)| {
        PwriteByte(f, off, a, k);
      }
    }
  }

  /** One chunk: the source, which the target spares, is still what it was. */
  lemma ChunkCopied(was: seq<u8>, now: seq<u8>, i: P.PlanItem, done: nat, n: nat)
    requires i.oldOff + i.size <= |was| && 0 < n && done + n <= i.size
    requires Apart(i.newOff, i.size, i.oldOff, i.size) && i.Moved()
    requires now == if done == 0 then was else Pwrite(was, i.newOff, Slice(was, i.oldOff, i.size)[..done])
    ensures i.oldOff + done + n <= |now|
    ensures now[i.oldOff + done..i.oldOff + done + n] == Slice(was, i.oldOff, i.size)[done..done + n]
    ensures Pwrite(now, i.newOff + done, Slice(was, i.oldOff, i.size)[done..done + n])
      == Pwrite(was, i.newOff, Slice(was, i.oldOff, i.size)[..done + n])
  {
    hide Pwrite;
    var src := Slice(was, i.oldOff, i.size);
    if done > 0 {
      PwriteFrame(was, i.newOff, src[..done], i.oldOff, src);
      PwriteTwice(was, i.newOff, src[..done], src[done..done + n]);
      assert src[..done] + src[done..done + n] == src[..done + n];
    } else {
      assert src[..done] == [];
      assert src[done..done + n] == src[..done + n];
    }
    ReadHolds(now, i.oldOff, src, done, done + n);
  }

  /** copy_verified: reads in chunks, writes each to the new place when the item
      moves, and tells whether the checksum matched. */
  method CopyVerified(v: Vfs, i: P.PlanItem) returns (ok: bool)
    requires i.oldOff + i.size <= |v.data|
    requires i.Moved() ==> Apart(i.newOff, i.size, i.oldOff, i.size)
    modifies v`data
    ensures v.data == Copied(old(v.data), i)
    ensures ok == SumsUp(i, old(v.data))
  {
    hide Raw, Pwrite;
    ghost var was := v.data;
    ghost var src := Slice(was, i.oldOff, i.size);
    var raw := INIT;
    var done := 0;
    assert Raw(INIT, src[..0]) == INIT by { RawNone(INIT, src[..0]); }
    while done < i.size
      invariant 0 <= done <= i.size
      invariant raw == Raw(INIT, src[..done])
      invariant v.data == if !i.Moved() || done == 0 then was else Pwrite(was, i.newOff, src[..done])
    {
      var n := if i.size - done < CHUNK then i.size - done else CHUNK;
      if i.Moved() {
        ChunkCopied(was, v.data, i, done, n);
      } else {
        assert Holds(was, i.oldOff, src);
        ReadHolds(was, i.oldOff, src, done, done + n);
      }
      var buf := v.data[i.oldOff + done..i.oldOff + done + n];
      RawConcat(INIT, src[..done], buf);
      assert src[..done + n] == src[..done] + buf;
      raw := UpdateRaw(raw, buf);
      if i.Moved() {
        v.data := Pwrite(v.data, i.newOff + done, buf);
      }
      done := done + n;
    }
    assert src[..i.size] == src;
    CrcOfRaw(src);
    ok := Not(raw) == i.crc;
  }

  // --- one round ---

  ghost predicate InFile(items: seq<P.PlanItem>, len: nat) {
    forall j :: 0 <= j < |items| ==> items[j].oldOff + items[j].size <= len
  }

  /** The first k items have arrived, the others are still where they were. */
  ghost predicate Progress(items: seq<P.PlanItem>, was: seq<u8>, now: seq<u8>, k: nat)
    requires InFile(items, |was|)
  {
    && k <= |items| && |was| <= |now|
    && forall j :: 0 <= j < |items| ==>
         Holds(now, if j < k then items[j].newOff else items[j].oldOff, Slice(was, items[j].oldOff, items[j].size))
  }

  lemma ApartBySize(off1: nat, size1: nat, off2: nat, size2: nat)
    requires Apart(off1, Align4k(size1), off2, Align4k(size2)) || size1 == 0 || size2 == 0
    ensures size1 == 0 || size2 == 0 || Apart(off1, size1, off2, size2)
  {
    Align4kLeast(size1);
    Align4kLeast(size2);
  }

  lemma ZeroSpan(n: nat)
    ensures Align4k(n) == 0 <==> n == 0
  {
    Align4kLeast(n);
  }

  /** Copying item k meets neither what has arrived nor what is still to go. */
  lemma CopySparesOthers(items: seq<P.PlanItem>, k: nat, j: nat)
    requires PlanGood(items) && k < |items| && j < |items| && j != k && items[k].Moved()
    ensures var a, b := items[k], items[j];
      a.size == 0 || b.size == 0 || Apart(a.newOff, a.size, if j < k then b.newOff else b.oldOff, b.size)
  {
    hide Align4k;
    var a, b := items[k], items[j];
    ZeroSpan(a.size);
    ZeroSpan(b.size);
    if j < k {
      assert Apart(items[j].newOff, items[j].Span(), items[k].newOff, items[k].Span());
      ApartBySize(a.newOff, a.size, b.newOff, b.size);
    } else {
      ApartBySize(a.newOff, a.size, b.oldOff, b.size);
    }
  }

  lemma SelfApart(items: seq<P.PlanItem>, k: nat)
    requires PlanGood(items) && k < |items| && items[k].Moved()
    ensures Apart(items[k].newOff, items[k].size, items[k].oldOff, items[k].size)
  {
    hide Align4k;
    var a := items[k];
    ZeroSpan(a.size);
    ApartBySize(a.newOff, a.size, a.oldOff, a.size);
  }

  lemma ProgressStep(items: seq<P.PlanItem>, was: seq<u8>, now: seq<u8>, k: nat)
    requires PlanGood(items) && InFile(items, |was|) && Progress(items, was, now, k) && k < |items|
    ensures items[k].oldOff + items[k].size <= |now|
    ensures SumsUp(items[k], now) == SumsUp(items[k], was)
    ensures Progress(items, was, Copied(now, items[k]), k + 1)
  {
    hide Pwrite, PlanGood, Align4k;
    var i := items[k];
    var src := Slice(was, i.oldOff, i.size);
    assert Holds(now, i.oldOff, src);
    assert Slice(now, i.oldOff, i.size) == src;
    var next := Copied(now, i);
    forall j | 0 <= j < |items|
      ensures Holds(next, if j < k + 1 then items[j].newOff else items[j].oldOff,
        Slice(was, items[j].oldOff, items[j].size))
    {
      var d := Slice(was, items[j].oldOff, items[j].size);
      if j == k {
        if i.Moved() && i.size > 0 {
          PwriteHolds(now, i.newOff, src);
        }
      } else if i.Moved() && i.size > 0 {
        CopySparesOthers(items, k, j);
        if d != [] {
          PwriteFrame(now, i.newOff, src, if j < k then items[j].newOff else items[j].oldOff, d);
        }
      }
    }
  }

  /** The bytes of the item have its checksum. */
  predicate SumsUp(i: P.PlanItem, data: seq<u8>)
    requires i.oldOff + i.size <= |data|
  {
    Crc32(Slice(data, i.oldOff, i.size)) == i.crc
  }

  /** The items whose bytes did not have their checksum. */
  ghost predicate BadAre(items: seq<P.PlanItem>, was: seq<u8>, k: nat, bad: seq<Name>)
    requires InFile(items, |was|) && k <= |items|
  {
    forall n :: n in bad <==> (exists j :: 0 <= j < k && items[j].name == n && !SumsUp(items[j], was))
  }

  lemma BadStep(items: seq<P.PlanItem>, was: seq<u8>, k: nat, bad: seq<Name>)
    requires InFile(items, |was|) && k < |items| && BadAre(items, was, k, bad)
    ensures BadAre(items, was, k + 1, if SumsUp(items[k], was) then bad else bad + [items[k].name])
  {
    hide SumsUp;
  }

  /** The Move phase: every item copied in plan order. */
  method MoveAll(v: Vfs, items: seq<P.PlanItem>) returns (bad: seq<Name>)
    requires PlanGood(items) && InFile(items, |v.data|)
    modifies v`data
    ensures Progress(items, old(v.data), v.data, |items|)
    ensures BadAre(items, old(v.data), |items|, bad)
  {
    hide PlanGood, Copied, Progress, BadAre, SumsUp;
    ghost var was := v.data;
    bad := [];
    assert Progress(items, was, was, 0) by { ProgressStart(items, was); }
    assert BadAre(items, was, 0, []) by { BadStart(items, was); }
    for k := 0 to |items|
      invariant Progress(items, was, v.data, k)
      invariant BadAre(items, was, k, bad)
    {
      ProgressStep(items, was, v.data, k);
      BadStep(items, was, k, bad);
      if items[k].Moved() {
        SelfApart(items, k);
      }
      var ok := CopyVerified(v, items[k]);
      if !ok {
        bad := bad + [items[k].name];
      }
    }
  }

  lemma ProgressStart(items: seq<P.PlanItem>, was: seq<u8>)
    requires InFile(items, |was|)
    ensures Progress(items, was, was, 0)
  {
  }

  lemma BadStart(items: seq<P.PlanItem>, was: seq<u8>)
    requires InFile(items, |was|)
    ensures BadAre(items, was, 0, [])
  {
  }

  /** The entries that a round keeps, with the bytes that it read. */
  function KeptEnts(kept: seq<P.PlanItem>, was: seq<u8>): (r: seq<Ent>)
    requires InFile(kept, |was|)
    ensures |r| == |kept|
    ensures forall i :: 0 <= i < |r| ==> r[i] == KeptEnt(kept[i], was)
  {
    seq(|kept|, i requires 0 <= i < |kept| => KeptEnt(kept[i], was))
  }

  function KeptEnt(i: P.PlanItem, was: seq<u8>): Ent
    requires i.oldOff + i.size <= |was|
  {
    Ent(i.name, ST_ACTIVE, i.newOff, i.size, i.crc, Slice(was, i.oldOff, i.size))
  }

  /** What a round knows when all items have been copied. */
  ghost predicate RoundDone(idx: Img, was: seq<u8>, now: seq<u8>, items: seq<P.PlanItem>, bad: set<Name>) {
    && Laid(idx) && items == P.PlanOf(Sources(idx.ents), idx.logical).items
    && InFile(items, |was|) && Progress(items, was, now, |items|)
    && forall n :: n in bad <==> (exists j :: 0 <= j < |items| && items[j].name == n && !SumsUp(items[j], was))
  }

  function Names(s: seq<Name>): (r: set<Name>)
    ensures forall n :: n in r <==> n in s
  {
    set n | n in s
  }

  lemma RoundIsDone(idx: Img, was: seq<u8>, now: seq<u8>, items: seq<P.PlanItem>, bad: seq<Name>)
    requires Laid(idx) && items == P.PlanOf(Sources(idx.ents), idx.logical).items && InFile(items, |was|)
    requires Progress(items, was, now, |items|) && BadAre(items, was, |items|, bad)
    ensures RoundDone(idx, was, now, items, Names(bad))
  {
    hide Laid, P.PlanOf, Sources, Progress, SumsUp;
  }

  function NextImg(idx: Img, kept: seq<P.PlanItem>, was: seq<u8>): Img
    requires InFile(kept, |was|)
  {
    Img(idx.gen + 1, P.MaxEnd(kept), KeptEnts(kept, was))
  }

  lemma KeptInFile(items: seq<P.PlanItem>, bad: set<Name>, len: nat)
    requires InFile(items, len)
    ensures InFile(Kept(items, bad), len)
  {
    var pos := KeptPos(items, bad);
  }

  /** The new index is well formed and the data holds its files. */
  lemma RoundIndexOk(idx: Img, was: seq<u8>, now: seq<u8>, items: seq<P.PlanItem>, bad: set<Name>)
    requires RoundDone(idx, was, now, items, bad)
    ensures InFile(Kept(items, bad), |was|)
    ensures var n := NextImg(idx, Kept(items, bad), was); IdxOk(n) && ActivesHeld(n.ents, now)
  {
    hide Align4k, P.PlanOf, Kept, Crc32, P.MaxEnd, Sources, Slice;
    LaidPlan(idx);
    KeptInFile(items, bad, |was|);
    var kept, pos := Kept(items, bad), KeptPos(items, bad);
    var n := NextImg(idx, kept, was);
    P.MaxEndBounds(kept);
    MaxEndAligned(kept);
    forall i | 0 <= i < |n.ents|
      ensures Committed(n.ents[i]) && Holds(now, n.ents[i].offset, n.ents[i].body)
    {
      assert SumsUp(items[pos[i]], was);
    }
    forall i, j | 0 <= i < j < |n.ents|
      ensures n.ents[i].name != n.ents[j].name && EntApart(n.ents[i], n.ents[j])
    {
      assert Apart(items[pos[i]].newOff, items[pos[i]].Span(), items[pos[j]].newOff, items[pos[j]].Span());
      assert n.ents[i].Span() == items[pos[i]].Span() && n.ents[j].Span() == items[pos[j]].Span();
    }
  }

  /** Cutting the file behind the new logical size loses nothing. */
  lemma TrimHeld(idx: Img, data: seq<u8>, n: nat)
    requires IdxOk(idx) && ActivesHeld(idx.ents, data) && idx.logical <= n
    ensures ActivesHeld(idx.ents, SetLen(data, n))
  {
    hide Align4k, Crc32, Holds;
    forall i | 0 <= i < |idx.ents| && idx.ents[i].Active()
      ensures Holds(SetLen(data, n), idx.ents[i].offset, idx.ents[i].body)
    {
      var e := idx.ents[i];
      Align4kLeast(e.size);
      assert Committed(e);
      SetLenHolds(data, n, e.offset, e.body);
    }
  }

  lemma HeldIsSlice(data: seq<u8>, off: nat, n: nat, b: seq<u8>)
    requires Holds(data, off, b) && |b| == n && off + n <= |data|
    ensures b == Slice(data, off, n)
  {
  }

  lemma SliceHeld(data: seq<u8>, off: nat, n: nat)
    requires off + n <= |data|
    ensures Holds(data, off, Slice(data, off, n))
  {
  }

  lemma HeldTwice(data: seq<u8>, off: nat, a: seq<u8>, b: seq<u8>)
    requires Holds(data, off, a) && Holds(data, off, b) && |a| == |b|
    ensures a == b
  {
  }

  /** A round keeps exactly the files that were Active and had their checksum,
      with the same bytes, wherever the new index puts them. */
  lemma RoundKeepsFiles(idx: Img, was: seq<u8>, now: seq<u8>, items: seq<P.PlanItem>, bad: set<Name>, data: seq<u8>)
    requires RoundDone(idx, was, now, items, bad) && InFile(Kept(items, bad), |was|)
    requires ActivesHeld(KeptEnts(Kept(items, bad), was), data)
    ensures SameFiles(idx.ents, was, KeptEnts(Kept(items, bad), was), data)
  {
    hide Align4k, P.PlanOf, Kept, Crc32, Sources, Slice, Progress, Holds, Reads, Laid;
    var kept := Kept(items, bad);
    var ents := KeptEnts(kept, was);
    forall f
      ensures Has(idx.ents, was, f) <==> Has(ents, data, f)
    {
      if Has(idx.ents, was, f) {
        FileStays(idx, was, now, items, bad, data, f);
      }
      if Has(ents, data, f) {
        FileWasThere(idx, was, now, items, bad, data, f);
      }
    }
  }

  lemma FileStays(idx: Img, was: seq<u8>, now: seq<u8>, items: seq<P.PlanItem>, bad: set<Name>, data: seq<u8>, f: File)
    requires RoundDone(idx, was, now, items, bad) && InFile(Kept(items, bad), |was|)
    requires ActivesHeld(KeptEnts(Kept(items, bad), was), data) && Has(idx.ents, was, f)
    ensures Has(KeptEnts(Kept(items, bad), was), data, f)
  {
    hide Align4k, P.PlanOf, Kept, Crc32, Sources, Slice, Progress, Holds;
    var kept := Kept(items, bad);
    var ents := KeptEnts(kept, was);
    LaidPlan(idx);
    var e :| e in idx.ents && Reads(e, was, f);
    var j := LaidEnt(idx, e);
    HeldIsSlice(was, e.offset, e.size, f.bytes);
    assert SumsUp(items[j], was);
    forall k | 0 <= k < |items| && items[k].name == items[j].name
      ensures SumsUp(items[k], was)
    {
      assert k == j;
    }
    KeptHas(items, bad, j);
    var k :| 0 <= k < |kept| && kept[k] == items[j];
    assert Reads(ents[k], data, f);
  }

  lemma FileWasThere(idx: Img, was: seq<u8>, now: seq<u8>, items: seq<P.PlanItem>, bad: set<Name>, data: seq<u8>,
      f: File)
    requires RoundDone(idx, was, now, items, bad) && InFile(Kept(items, bad), |was|)
    requires ActivesHeld(KeptEnts(Kept(items, bad), was), data) && Has(KeptEnts(Kept(items, bad), was), data, f)
    ensures Has(idx.ents, was, f)
  {
    hide Align4k, P.PlanOf, Kept, Crc32, Sources, Progress, Holds, Slice, SumsUp;
    var kept, pos := Kept(items, bad), KeptPos(items, bad);
    var ents := KeptEnts(kept, was);
    var e :| e in ents && Reads(e, data, f);
    var k :| 0 <= k < |ents| && ents[k] == e;
    HeldTwice(data, e.offset, e.body, f.bytes);
    var at := LaidItem(idx, pos[k]);
    SliceHeld(was, kept[k].oldOff, kept[k].size);
    assert Reads(idx.ents[at], was, f);
  }

  // --- compact_run ---

  /** The container while the compaction thread owns it. */
  ghost predicate Owned(v: Vfs)
    reads v, v.idx
  {
    && v.idx.utf8 == v.utf8 && v.idx.Valid() && v.compacting && v.writers == 0 && v.live == {}
    && Compactable(v.idx.View(), v.data)
  }

  /** The check of compact_with hands the container over. */
  lemma OwnedAfterBegin(v: Vfs)
    requires v.Valid() && v.compacting && v.idx.logical < TWO64 && NameBytes(v.View().ents) < TWO32
    ensures Owned(v)
  {
  }

  ghost predicate Compactable(idx: Img, data: seq<u8>) {
    Laid(idx) && idx.logical <= |data| && NameBytes(idx.ents) < TWO32
  }

  /** Scan: the Active entries as the planner takes them. */
  method CollectActives(v: Vfs) returns (actives: seq<P.Source>)
    requires v.idx.Valid()
    ensures actives == Sources(v.idx.View().ents)
  {
    hide ViewOf, Finds, EntriesFit;
    actives := [];
    ghost var ents := v.idx.View().ents;
    for i := 0 to |v.idx.entries|
      invariant actives == Sources(ents[..i])
    {
      assert ents[..i + 1][..i] == ents[..i];
      var e := v.idx.entries[i];
      if e.state == ST_ACTIVE {
        var n := v.idx.NameOf(e);
        actives := actives + [P.Source(if n.Some? then n.value else [], e.offset, e.size, e.crc)];
      }
    }
    assert ents[..|v.idx.entries|] == ents;
  }

  /** Table entries and names that stand for the kept items. */
  ghost predicate Assembled(entries: seq<Entry>, names: seq<u8>, bodies: seq<seq<u8>>, newLogical: nat,
                        kept: seq<P.PlanItem>, was: seq<u8>, utf8: seq<u8> -> bool) {
    && |bodies| == |entries| && NamesOk(entries, names, utf8) && EntriesFit(entries)
    && InFile(kept, |was|) && ViewOf(entries, names, bodies) == KeptEnts(kept, was) && newLogical == P.MaxEnd(kept)
  }

  /** The widths of the record hold the item. */
  ghost predicate ItemFits(i: P.PlanItem, utf8: seq<u8> -> bool) {
    utf8(i.name) && |i.name| < TWO16 && i.newOff < TWO64 && i.size < TWO64
  }

  lemma AssembledStep(entries: seq<Entry>, names: seq<u8>, bodies: seq<seq<u8>>, newLogical: nat,
                  kept: seq<P.PlanItem>, was: seq<u8>, utf8: seq<u8> -> bool, it: P.PlanItem)
    requires Assembled(entries, names, bodies, newLogical, kept, was, utf8) && |names| < TWO32
    requires ItemFits(it, utf8) && it.oldOff + it.size <= |was|
    ensures var e := Entry(|names| % TWO32, |it.name| % TWO16, ST_ACTIVE, it.newOff, it.size, it.crc);
      var end := it.newOff + it.Span();
      Assembled(entries + [e], names + it.name + [0], bodies + [Slice(was, it.oldOff, it.size)],
            if newLogical < end then end else newLogical, kept + [it], was, utf8)
  {
    hide Align4k, ViewOf, NamesOk, P.MaxEnd, Slice;
    var e := Entry(|names| % TWO32, |it.name| % TWO16, ST_ACTIVE, it.newOff, it.size, it.crc);
    ViewAppend(entries, names, bodies, e, it.name, Slice(was, it.oldOff, it.size), utf8);
    P.AppendItem(kept, it);
    assert KeptEnts(kept + [it], was) == KeptEnts(kept, was) + [KeptEnt(it, was)];
  }

  lemma AssembledNone(was: seq<u8>, utf8: seq<u8> -> bool)
    ensures Assembled([], [], [], 0, [], was, utf8)
  {
    assert ViewOf([], [], []) == [];
  }

  lemma KeptNext(items: seq<P.PlanItem>, bad: set<Name>, i: nat)
    requires i < |items|
    ensures Kept(items[..i + 1], bad)
      == if items[i].name in bad then Kept(items[..i], bad) else Kept(items[..i], bad) + [items[i]]
  {
    assert items[..i + 1][..i] == items[..i];
  }

  /** Finalize: entries and names of the items that are not bad, in order, and
      the largest end. */
  method BuildEntries(items: seq<P.PlanItem>, bad: set<Name>, ghost was: seq<u8>, ghost utf8: seq<u8> -> bool)
    returns (entries: seq<Entry>, names: seq<u8>, newLogical: nat, ghost bodies: seq<seq<u8>>)
    requires InFile(items, |was|) && forall j :: 0 <= j < |items| ==> ItemFits(items[j], utf8)
    requires NameTotal(items) < TWO32
    ensures Assembled(entries, names, bodies, newLogical, Kept(items, bad), was, utf8)
    ensures newLogical == P.MaxEnd(Kept(items, bad)) && |entries| == |Kept(items, bad)|
  {
    hide Align4k, Assembled, Kept, NameTotal, ItemFits;
    entries, names, newLogical, bodies := [], [], 0, [];
    assert items[..0] == [];
    AssembledNone(was, utf8);
    KeptNone(bad);
    for i := 0 to |items|
      invariant Assembled(entries, names, bodies, newLogical, Kept(items[..i], bad), was, utf8)
      invariant |names| <= NameTotal(items[..i])
    {
      var it := items[i];
      KeptNext(items, bad, i);
      NameTotalNext(items, i);
      if it.name !in bad {
        AssembledStep(entries, names, bodies, newLogical, Kept(items[..i], bad), was, utf8, it);
        entries := entries + [Entry(|names| % TWO32, |it.name| % TWO16, ST_ACTIVE, it.newOff, it.size, it.crc)];
        names := names + it.name + [0];
        bodies := bodies + [Slice(was, it.oldOff, it.size)];
        var end := it.newOff + Align4k(it.size);
        newLogical := if newLogical < end then end else newLogical;
      }
    }
    assert items[..|items|] == items;
    AssembledSize(entries, names, bodies, newLogical, Kept(items, bad), was, utf8);
  }

  lemma AssembledSize(entries: seq<Entry>, names: seq<u8>, bodies: seq<seq<u8>>, newLogical: nat,
                  kept: seq<P.PlanItem>, was: seq<u8>, utf8: seq<u8> -> bool)
    requires Assembled(entries, names, bodies, newLogical, kept, was, utf8)
    ensures newLogical == P.MaxEnd(kept) && |entries| == |kept|
  {
  }

  lemma KeptNone(bad: set<Name>)
    ensures Kept([], bad) == []
  {
  }

  lemma NameTotalNext(items: seq<P.PlanItem>, i: nat)
    requires i < |items|
    ensures NameTotal(items[..i + 1]) == NameTotal(items[..i]) + |items[i].name| + 1
    ensures NameTotal(items[..i + 1]) <= NameTotal(items)
  {
    assert items[..i + 1][..i] == items[..i];
    NameTotalPart(items, i + 1);
  }

  function NameTotal(items: seq<P.PlanItem>): nat {
    if items == [] then 0 else NameTotal(items[..|items| - 1]) + |items[|items| - 1].name| + 1
  }

  lemma {:induction false} NameTotalPart(items: seq<P.PlanItem>, n: nat)
    requires n <= |items|
    ensures NameTotal(items[..n]) <= NameTotal(items)
  {
    if n < |items| {
      NameTotalPart(items[..|items| - 1], n);
      assert items[..|items| - 1][..n] == items[..n];
    } else {
      assert items[..n] == items;
    }
  }

  function SourceTotal(es: seq<P.Source>): nat {
    if es == [] then 0 else SourceTotal(es[..|es| - 1]) + |es[|es| - 1].name| + 1
  }

  lemma {:induction false} TotalConcat(a: seq<P.Source>, b: seq<P.Source>)
    ensures SourceTotal(a + b) == SourceTotal(a) + SourceTotal(b)
  {
    if b == [] {
      assert a + b == a;
    } else {
      TotalConcat(a, b[..|b| - 1]);
      assert (a + b)[..|a + b| - 1] == a + b[..|b| - 1];
    }
  }

  lemma {:induction false} TotalSorted(es: seq<P.Source>)
    ensures SourceTotal(P.SortByOffset(es)) == SourceTotal(es)
  {
    if es != [] {
      var s := P.SortByOffset(es[1..]);
      TotalSorted(es[1..]);
      var k := P.InsertSplits(es[0], s);
      TotalConcat(s[..k] + [es[0]], s[k..]);
      TotalConcat(s[..k], [es[0]]);
      TotalConcat(s[..k], s[k..]);
      assert s[..k] + s[k..] == s;
      TotalConcat([es[0]], es[1..]);
      assert [es[0]] + es[1..] == es;
    }
  }

  lemma {:induction false} TotalItems(items: seq<P.PlanItem>, es: seq<P.Source>)
    requires |items| == |es| && P.Follows(items, es)
    ensures NameTotal(items) == SourceTotal(es)
  {
    if items != [] {
      var n := |items| - 1;
      TotalItems(items[..n], es[..n]);
      assert items[n].From() == es[n];
    }
  }

  lemma {:induction false} TotalActives(ents: seq<Ent>)
    ensures SourceTotal(Sources(ents)) <= NameBytes(ents)
  {
    if ents != [] {
      var n := |ents| - 1;
      TotalActives(ents[..n]);
      TotalConcat(Sources(ents[..n]),
        if ents[n].Active() then [P.Source(ents[n].name, ents[n].offset, ents[n].size, ents[n].crc)] else []);
    }
  }

  /** The names of a plan fit where the names of the index do, and each item
      fits its record. */
  lemma PlanFits(idx: Img, utf8: seq<u8> -> bool)
    requires Laid(idx) && 2 * idx.logical < TWO64
    requires forall i :: 0 <= i < |idx.ents| ==> utf8(idx.ents[i].name) && |idx.ents[i].name| < TWO16
    ensures var items := P.PlanOf(Sources(idx.ents), idx.logical).items;
      && NameTotal(items) <= NameBytes(idx.ents) && P.MaxEnd(items) <= 2 * idx.logical && |items| <= |idx.ents|
      && InFile(items, idx.logical)
      && forall j :: 0 <= j < |items| ==> ItemFits(items[j], utf8)
  {
    hide P.ScanOf, P.SortByOffset, P.MovedBytes, P.MaxEnd, Sources, Align4k, NameTotal, NameBytes, SourceTotal;
    var src := Sources(idx.ents);
    var items := P.PlanOf(src, idx.logical).items;
    SourcesSpans(idx.ents, idx.logical);
    P.PlannerSafety(src, idx.logical);
    P.PlanGrowth(src, idx.logical);
    P.MaxEndBounds(items);
    MaxEndNone();
    TotalItems(items, P.SortByOffset(src));
    TotalSorted(src);
    TotalActives(idx.ents);
    SourcesFewer(idx.ents);
    forall j | 0 <= j < |items|
      ensures ItemFits(items[j], utf8) && items[j].oldOff + items[j].size <= idx.logical
    {
      var k := LaidItem(idx, j);
      Align4kLeast(items[j].size);
      assert idx.ents[k].offset + idx.ents[k].Span() <= idx.logical;
    }
  }

  lemma {:induction false} SourcesFewer(ents: seq<Ent>)
    ensures |Sources(ents)| <= |ents|
  {
    if ents != [] {
      SourcesFewer(ents[..|ents| - 1]);
    }
  }

  lemma MaxEndNone()
    ensures P.MaxEnd([]) == 0
  {
  }

  lemma {:induction false} KeptMaxEnd(items: seq<P.PlanItem>, bad: set<Name>)
    ensures P.MaxEnd(Kept(items, bad)) <= P.MaxEnd(items)
  {
    hide Align4k;
    if items != [] {
      var n := |items| - 1;
      KeptMaxEnd(items[..n], bad);
      P.AppendItem(Kept(items[..n], bad), items[n]);
      P.AppendItem(items[..n], items[n]);
      assert items[..n] + [items[n]] == items;
      KeptNext(items, bad, n);
      assert items[..n + 1] == items;
    }
  }

  lemma {:induction false} KeptNames(items: seq<P.PlanItem>, bad: set<Name>, was: seq<u8>)
    requires InFile(Kept(items, bad), |was|)
    ensures NameBytes(KeptEnts(Kept(items, bad), was)) <= NameTotal(items)
  {
    hide Slice, Kept;
    if items == [] {
      KeptNone(bad);
    } else {
      var n := |items| - 1;
      KeptNext(items, bad, n);
      assert items[..n + 1] == items;
      var kept, before := Kept(items, bad), Kept(items[..n], bad);
      KeptPrefix(kept, before, |was|);
      KeptNames(items[..n], bad, was);
      if items[n].name !in bad {
        var r := KeptEnts(kept, was);
        assert r[..|r| - 1] == KeptEnts(before, was);
      }
    }
  }

  lemma KeptPrefix(kept: seq<P.PlanItem>, before: seq<P.PlanItem>, len: nat)
    requires InFile(kept, len) && before <= kept
    ensures InFile(before, len)
  {
    forall j | 0 <= j < |before|
      ensures before[j].oldOff + before[j].size <= len
    {
      assert before[j] == kept[j];
    }
  }

  // --- marking bad entries in the old index ---

  lemma MarkOne(ents: seq<Ent>, bad: set<Name>, n: Name)
    requires UniqueNames(ents)
    ensures var f, m := Find(ents, n), MarkBad(ents, bad);
      MarkBad(ents, bad + {n}) == if f.Some? then m[f.value := m[f.value].(state := ST_BAD)] else m
    ensures Find(MarkBad(ents, bad), n) == Find(ents, n)
  {
    var f, m := Find(ents, n), MarkBad(ents, bad);
    SameFind(ents, m, n);
    forall i | 0 <= i < |ents| && ents[i].name == n
      ensures f == Some(i)
    {
      FindUnique(ents, i);
    }
  }

  lemma {:induction false} SameFind(a: seq<Ent>, b: seq<Ent>, n: Name)
    requires |a| == |b| && forall i :: 0 <= i < |a| ==> a[i].name == b[i].name
    ensures Find(a, n) == Find(b, n)
  {
    if a != [] {
      SameFind(a[..|a| - 1], b[..|b| - 1], n);
    }
  }

  method MarkBadEntries(x: Index, bad: seq<Name>)
    requires x.Valid()
    modifies x`entries, x`bodies
    ensures x.Valid() && x.View() == old(x.View()).(ents := MarkBad(old(x.View()).ents, Names(bad)))
  {
    hide MarkBad, Find, ViewOf, Finds, EntriesFit;
    ghost var was := x.View();
    assert MarkBad(was.ents, {}) == was.ents by { MarkNone(was.ents); }
    FindsIsFind(x.table, was.ents, []);
    for i := 0 to |bad|
      invariant x.Valid() && x.View() == was.(ents := MarkBad(was.ents, Names(bad[..i])))
    {
      MarkOne(was.ents, Names(bad[..i]), bad[i]);
      assert Names(bad[..i + 1]) == Names(bad[..i]) + {bad[i]};
      var at := x.Position(bad[i]);
      if at.Some? {
        x.Restate(at.value, ST_BAD, x.entries[at.value].crc, x.bodies[at.value]);
      }
    }
    assert bad[..|bad|] == bad;
  }

  lemma MarkNone(ents: seq<Ent>)
    ensures MarkBad(ents, {}) == ents
  {
  }

  // --- rounds ---

  function PlanItems(idx: Img): seq<P.PlanItem> {
    P.PlanOf(Sources(idx.ents), idx.logical).items
  }

  /** A round on this leaves nothing for another one: no entry has to make way
      for the old place of another, and every Active file has its checksum. */
  ghost predicate Clean(idx: Img, data: seq<u8>) {
    var items := PlanItems(idx);
    && (forall j :: 0 <= j < |items| ==> !P.Displaced(items, j, idx.logical))
    && (forall j :: 0 <= j < |items| ==> items[j].oldOff + items[j].size <= |data| && SumsUp(items[j], data))
  }

  lemma CleanIs(idx: Img, data: seq<u8>, items: seq<P.PlanItem>, bad: seq<Name>)
    requires Laid(idx) && items == PlanItems(idx) && InFile(items, |data|)
    requires BadAre(items, data, |items|, bad)
    ensures Clean(idx, data) <==> !P.PlanOf(Sources(idx.ents), idx.logical).excludedAny && bad == []
  {
    hide P.PlanOf, Sources, SumsUp, P.Displaced, P.Ruled;
    SourcesSpans(idx.ents, idx.logical);
    P.PlanRules(Sources(idx.ents), idx.logical);
    if bad != [] {
      assert bad[0] in bad;
    }
    if j :| 0 <= j < |items| && !SumsUp(items[j], data) {
      assert items[j].name in bad;
    }
  }

  /** After a clean round an entry lies behind the old end only if the gap in
      front of it was too small for it. */
  ghost predicate Tight(idx: Img) {
    P.Tight(PlanItems(idx), idx.logical)
  }

  lemma CleanIsTight(idx: Img, data: seq<u8>)
    requires Laid(idx) && Clean(idx, data)
    ensures Tight(idx)
  {
    hide P.PlanOf, Sources, SumsUp, P.Displaced, P.Tight;
    SourcesSpans(idx.ents, idx.logical);
    var items := PlanItems(idx);
    assert forall j :: 0 <= j < |items| ==> !P.Displaced(items, j, idx.logical);
    P.NothingDisplaced(Sources(idx.ents), idx.logical);
  }

  /** The next index puts every file where the plan says, and ends with the last
      of them. */
  ghost predicate Planned(was: Img, idx: Img) {
    && (forall i :: 0 <= i < |idx.ents| ==>
          exists j :: 0 <= j < |PlanItems(was)| && PlacedAs(idx.ents[i], PlanItems(was)[j]))
    && (forall i :: 0 <= i < |idx.ents| ==> idx.ents[i].offset + idx.ents[i].Span() <= idx.logical)
    && (if idx.ents == [] then idx.logical == 0
        else exists i :: 0 <= i < |idx.ents| && EndsAt(idx.ents[i], idx.logical))
  }

  predicate PlacedAs(e: Ent, i: P.PlanItem) {
    e.name == i.name && e.offset == i.newOff && e.size == i.size
  }

  predicate EndsAt(e: Ent, end: nat) {
    e.offset + e.Span() == end
  }

  lemma KeptPlanned(idx: Img, bad: set<Name>, was: seq<u8>)
    requires InFile(Kept(PlanItems(idx), bad), |was|)
    ensures Planned(idx, NextImg(idx, Kept(PlanItems(idx), bad), was))
  {
    hide P.PlanOf, Kept, P.MaxEnd, Align4k, Slice;
    var items := PlanItems(idx);
    var kept, pos := Kept(items, bad), KeptPos(items, bad);
    var n := NextImg(idx, kept, was);
    P.MaxEndBounds(kept);
    MaxEndNone();
    forall i | 0 <= i < |n.ents|
      ensures exists j :: 0 <= j < |items| && PlacedAs(n.ents[i], items[j])
    {
      assert PlacedAs(n.ents[i], items[pos[i]]);
    }
    if kept != [] {
      var i :| 0 <= i < |kept| && kept[i].newOff + kept[i].Span() == P.MaxEnd(kept);
      assert EndsAt(n.ents[i], n.logical);
    }
  }

  /** What one round, or several, leave: the same files, all Active, all
      readable, in an index that is well formed. */
  ghost predicate Settled(was: Img, wasData: seq<u8>, idx: Img, data: seq<u8>) {
    && SameFiles(was.ents, wasData, idx.ents, data)
    && (forall i :: 0 <= i < |idx.ents| ==> idx.ents[i].Active())
    && EngineOk(idx, data, {}, true)
  }

  /** The next index: what it says about the files, and the room it takes. */
  ghost predicate NextOk(was: Img, wasData: seq<u8>, idx: Img, data: seq<u8>) {
    && Planned(was, idx)
    && Settled(was, wasData, idx, data) && Compactable(idx, data) && UniqueNames(idx.ents)
    && idx.gen == was.gen + 1 && idx.logical <= 2 * was.logical
    && |idx.ents| <= |was.ents| && NameBytes(idx.ents) <= NameBytes(was.ents)
  }

  lemma RoundSettles(idx: Img, was: seq<u8>, now: seq<u8>, items: seq<P.PlanItem>, bad: seq<Name>, n: nat)
    requires Compactable(idx, was) && 2 * idx.logical < TWO64
    requires items == P.PlanOf(Sources(idx.ents), idx.logical).items && InFile(items, |was|)
    requires Progress(items, was, now, |items|) && BadAre(items, was, |items|, bad) && |items| <= |idx.ents|
    requires NameTotal(items) <= NameBytes(idx.ents) && P.MaxEnd(items) <= 2 * idx.logical
    requires P.MaxEnd(Kept(items, Names(bad))) <= n
    ensures InFile(Kept(items, Names(bad)), |was|)
    ensures NextOk(idx, was, NextImg(idx, Kept(items, Names(bad)), was), SetLen(now, n))
  {
    hide P.PlanOf, Sources, Progress, BadAre, Kept, P.MaxEnd, NameBytes, NameTotal, Align4k, SameFiles, ActivesHeld,
      Planned;
    RoundIsDone(idx, was, now, items, bad);
    RoundIndexOk(idx, was, now, items, Names(bad));
    var t := NextImg(idx, Kept(items, Names(bad)), was);
    TrimHeld(t, now, n);
    RoundKeepsFiles(idx, was, now, items, Names(bad), SetLen(now, n));
    KeptMaxEnd(items, Names(bad));
    KeptNames(items, Names(bad), was);
    KeptPlanned(idx, Names(bad), was);
    assert LiveOk(t.ents, {});
  }

  lemma RoundPlan(idx: Img, was: seq<u8>, utf8: seq<u8> -> bool)
    requires Compactable(idx, was) && 2 * idx.logical < TWO64
    requires forall i :: 0 <= i < |idx.ents| ==> utf8(idx.ents[i].name) && |idx.ents[i].name| < TWO16
    ensures var items := P.PlanOf(Sources(idx.ents), idx.logical).items;
      && PlanGood(items) && InFile(items, |was|) && NameTotal(items) <= NameBytes(idx.ents) < TWO32
      && |items| <= |idx.ents|
      && Laid(idx) && P.MaxEnd(items) <= 2 * idx.logical && forall j :: 0 <= j < |items| ==> ItemFits(items[j], utf8)
  {
    hide P.PlanOf, Sources, P.MaxEnd, NameBytes, NameTotal, Align4k, PlanGood, ItemFits;
    LaidPlan(idx);
    PlanFits(idx, utf8);
  }

  lemma ViewNames(entries: seq<Entry>, blob: seq<u8>, bodies: seq<seq<u8>>, utf8: seq<u8> -> bool)
    requires NamesOk(entries, blob, utf8) && |bodies| == |entries| && EntriesFit(entries)
    ensures var ents := ViewOf(entries, blob, bodies); forall i :: 0 <= i < |ents| ==>
      utf8(ents[i].name) && |ents[i].name| < TWO16
  {
  }

  /** What Finalize has made of a round: a table, names and a logical size that
      stand for the next index once the file is cut to its new length. */
  ghost predicate RoundMade(was: Img, wasData: seq<u8>, now: seq<u8>, entries: seq<Entry>, names: seq<u8>,
      bodies: seq<seq<u8>>, newLogical: nat, len: nat, utf8: seq<u8> -> bool)
  {
    && |bodies| == |entries| && NamesOk(entries, names, utf8) && EntriesFit(entries)
    && NextOk(was, wasData, Img(was.gen + 1, newLogical, ViewOf(entries, names, bodies)), SetLen(now, len))
  }

  /** Scan, Move and the first part of Finalize; the index in memory only has
      its bad entries marked. */
  method MoveRound(v: Vfs, ghost reserve: nat)
    returns (entries: seq<Entry>, names: seq<u8>, newLogical: nat, settled: bool, ghost bodies: seq<seq<u8>>)
    requires Owned(v) && 2 * v.idx.logical < TWO64
    modifies v`data, v.idx
    ensures v.idx.utf8 == v.utf8 && v.idx.generation == old(v.idx.generation)
    ensures RoundMade(old(v.idx.View()), old(v.data), v.data, entries, names, bodies, newLogical, newLogical + reserve,
      v.utf8)
    ensures settled <==> Clean(old(v.idx.View()), old(v.data))
  {
    hide P.PlanOf, Sources, Progress, BadAre, Clean, Kept, P.MaxEnd, NameBytes, NameTotal, Align4k, PlanGood, ViewOf,
      Finds, Compactable, MarkBad, ItemFits, NextOk, NamesOk, EntriesFit;
    ghost var idx, was := v.idx.View(), v.data;
    // Scan
    var actives := CollectActives(v);
    var plan := P.BuildPlan(actives, v.idx.logical);
    ViewNames(v.idx.entries, v.idx.names, v.idx.bodies, v.utf8);
    RoundPlan(idx, was, v.utf8);
    // Move
    var bad := MoveAll(v, plan.items);
    if bad != [] {
      MarkBadEntries(v.idx, bad);
    }
    // Finalize
    KeptInFile(plan.items, Names(bad), |was|);
    entries, names, newLogical, bodies := BuildEntries(plan.items, Names(bad), was, v.utf8);
    RoundSettles(idx, was, v.data, plan.items, bad, newLogical + reserve);
    CleanIs(idx, was, plan.items, bad);
    settled := !plan.excludedAny && bad == [];
  }

  /** The end of Finalize: the file is cut, the index replaced. */
  method Install(v: Vfs, entries: seq<Entry>, names: seq<u8>, newLogical: nat, reserve: nat, ghost bodies: seq<seq<u8>>,
      ghost was: Img, ghost wasData: seq<u8>)
    requires v.compacting && v.writers == 0 && v.live == {} && was.gen == v.idx.generation
    requires RoundMade(was, wasData, v.data, entries, names, bodies, newLogical, newLogical + reserve, v.utf8)
    modifies v`idx, v`data
    ensures Owned(v) && v.Valid() && fresh(v.idx) && NextOk(was, wasData, v.idx.View(), v.data)
    ensures v.idx.View() == Img(was.gen + 1, newLogical, ViewOf(entries, names, bodies))
    ensures |v.data| == newLogical + reserve
  {
    hide NameBytes, Compactable, EngineOk, UniqueNames, NamesOk, EntriesFit, ViewOf, SameFiles, Planned;
    v.data := SetLen(v.data, newLogical + reserve);
    v.idx := new Index(v.utf8, v.idx.generation + 1, newLogical, entries, names, bodies);
  }

  lemma RoundWritable(was: Img, wasData: seq<u8>, now: seq<u8>, entries: seq<Entry>, names: seq<u8>,
      bodies: seq<seq<u8>>, newLogical: nat, len: nat, utf8: seq<u8> -> bool)
    requires RoundMade(was, wasData, now, entries, names, bodies, newLogical, len, utf8)
    requires Writable(was) && was.gen + 1 < TWO64 && 2 * was.logical < TWO64
    ensures |bodies| == |entries| && NamesOk(entries, names, utf8) && EntriesFit(entries)
    ensures Writable(Img(was.gen + 1, newLogical, ViewOf(entries, names, bodies)))
  {
    hide Settled, Compactable, UniqueNames, NameBytes, Planned;
  }

  /** Other bytes for the same entries and names. */
  lemma RoundRebased(was: Img, wasData: seq<u8>, now: seq<u8>, entries: seq<Entry>, names: seq<u8>,
      bodies: seq<seq<u8>>,
      newLogical: nat, len: nat, utf8: seq<u8> -> bool, table: seq<Entry>, blob: seq<u8>)
    requires RoundMade(was, wasData, now, entries, names, bodies, newLogical, len, utf8)
    requires |table| == |entries| && NamesOk(table, blob, utf8) && EntriesFit(table)
    requires ViewOf(table, blob, bodies) == ViewOf(entries, names, bodies)
    ensures RoundMade(was, wasData, now, table, blob, bodies, newLogical, len, utf8)
  {
    hide NextOk, ViewOf;
  }

  /** Scan, Move and Finalize once: afterwards header.vfs and the index in memory
      are the same. */
  method Round(v: Vfs, h: HeaderFile, reserve: nat) returns (r: Result<bool>)
    requires Owned(v) && 2 * v.idx.logical < TWO64
    requires h.Valid() && h.utf8 == v.utf8 && h.persistedGen == v.idx.generation
    requires Writable(v.idx.View()) && v.idx.generation + 1 < TWO64
    modifies v`idx, v`data, v.idx, h
    ensures Owned(v) && v.Valid() && fresh(v.idx) && r.Ok?
    ensures NextOk(old(v.idx.View()), old(v.data), v.idx.View(), v.data)
    ensures r.value <==> Clean(old(v.idx.View()), old(v.data))
    ensures h.Valid() && h.ActiveImage() == Some(v.idx.View()) && ReadSb(h.bytes) == Some(v.idx.generation)
    ensures h.persistedGen == v.idx.generation && Writable(v.idx.View()) && |v.data| == v.idx.logical + reserve
  {
    hide Clean, NameBytes, ViewOf, Finds, Compactable, NextOk, EntriesFit, OnGrid, LayoutOk, ReadSb, EngineOk, Writable,
      RoundMade;
    ghost var idx, was := v.idx.View(), v.data;
    var entries, names, newLogical, settled;
    ghost var bodies;
    entries, names, newLogical, settled, bodies := MoveRound(v, reserve);
    var newGen := v.idx.generation + 1;
    RoundWritable(idx, was, v.data, entries, names, bodies, newLogical, newLogical + reserve, v.utf8);
    var persisted, table, blob := WriteRegion(h, newGen, newLogical, entries, names, bodies);
    r := Err(Io);
    if persisted.Ok? {
      RoundRebased(idx, was, v.data, entries, names, bodies, newLogical, newLogical + reserve, v.utf8, table, blob);
      Install(v, table, blob, newLogical, reserve, bodies, idx, was);
      r := Ok(settled);
    }
  }

  lemma SettledTwice(a: Img, da: seq<u8>, b: Img, db: seq<u8>, c: Img, dc: seq<u8>)
    requires Settled(a, da, b, db) && Settled(b, db, c, dc)
    ensures Settled(a, da, c, dc)
  {
    hide Has, EngineOk;
  }

  function Times2(n: nat, k: nat): nat
    decreases k
  {
    if k == 0 then n else 2 * Times2(n, k - 1)
  }

  lemma {:induction false} Times2Bound(n: nat, k: nat)
    requires k <= MAX_ROUNDS
    ensures Times2(n, k) <= 256 * n
  {
    Times2Grows(n, k, 8);
    assert Times2(n, 4) == 16 * n;
    assert Times2(n, 6) == 4 * Times2(n, 4);
    assert Times2(n, 8) == 4 * Times2(n, 6);
  }

  lemma {:induction false} Times2Grows(n: nat, k: nat, m: nat)
    requires k <= m
    ensures Times2(n, k) <= Times2(n, m)
    decreases m
  {
    if k < m {
      Times2Grows(n, k, m - 1);
    }
  }

  /** The end of run: the container is open again. */
  method EndCompact(v: Vfs)
    requires v.Valid() && v.compacting
    modifies v`compacting
    ensures v.Valid() && !v.compacting && v.View() == old(v.View())
  {
    hide ViewOf, Finds, EntriesFit, NamesOk;
    v.compacting := false;
  }

  /** The rounds of a compaction by what each one started from: another round
      follows exactly while the last was not clean and fewer than eight were
      made, and it starts from the files where the last one planned them. */
  ghost predicate RoundsOk(starts: seq<(Img, seq<u8>)>) {
    && 1 <= |starts| <= MAX_ROUNDS && (forall i :: 0 <= i < |starts| ==> Laid(starts[i].0))
    && (forall i :: 0 <= i < |starts| - 1 ==>
          !Clean(starts[i].0, starts[i].1) && Planned(starts[i].0, starts[i + 1].0))
  }

  lemma RoundsNext(starts: seq<(Img, seq<u8>)>, idx: Img, data: seq<u8>)
    requires RoundsOk(starts) && |starts| < MAX_ROUNDS && !Clean(starts[|starts| - 1].0, starts[|starts| - 1].1)
    requires Compactable(idx, data) && Planned(starts[|starts| - 1].0, idx)
    ensures RoundsOk(starts + [(idx, data)])
  {
    hide Clean, NameBytes, Laid, Planned;
  }

  /** compact_run and the end of run: the flush in front, at most eight rounds,
      then the container is open again. Whatever the data was, the index, in
      memory and on disk, now lists exactly the files that were Active and read
      back with their checksum. */
  method CompactRun(v: Vfs, h: HeaderFile, reserve: nat) returns (r: Result<()>, ghost starts: seq<(Img, seq<u8>)>)
    requires v.Valid() && v.compacting && 256 * v.idx.logical < TWO64 && v.idx.generation + MAX_ROUNDS < TWO64
    requires h.Valid() && h.utf8 == v.utf8 && Writable(v.View())
    modifies v`idx, v`data, v`compacting, v.idx, h
    ensures v.Valid() && !v.compacting && h.Valid()
    ensures r.Err? <==> old(v.idx.generation) < old(h.persistedGen)
    ensures r.Err? ==> r.error == GenChanged && v.View() == old(v.View()) && v.data == old(v.data) && unchanged(h)
    ensures r.Ok? ==>
      && Settled(old(v.View()), old(v.data), v.View(), v.data)
      && RoundsOk(starts) && starts[0] == (old(v.View()), old(v.data)) && v.View().gen == old(v.View()).gen + |starts|
      && Planned(starts[|starts| - 1].0, v.View())
      && (|starts| == MAX_ROUNDS
        || (Clean(starts[|starts| - 1].0, starts[|starts| - 1].1) && Tight(starts[|starts| - 1].0)))
      && h.ActiveImage() == Some(v.View()) && ReadSb(h.bytes) == Some(v.View().gen)
      && |v.data| == v.View().logical + reserve
  {
    hide EngineOk, Settled, Compactable, Clean, Tight, Planned, RoundsOk, ViewOf, Finds, EntriesFit, NameBytes, OnGrid,
      LayoutOk, ReadSb, Writable;
    WritableSized(v.View());
    OwnedAfterBegin(v);
    starts := [];
    r := FlushImage(v.idx, h);
    if r.Ok? {
      r, starts := Rounds(v, h, reserve);
    }
    EndCompact(v);
  }

  lemma NextFacts(was: Img, wasData: seq<u8>, idx: Img, data: seq<u8>)
    requires NextOk(was, wasData, idx, data)
    ensures Settled(was, wasData, idx, data) && Planned(was, idx)
    ensures idx.gen == was.gen + 1 && idx.logical <= 2 * was.logical
  {
    hide Settled, Planned, Compactable, UniqueNames, NameBytes;
  }

  lemma LastTight(starts: seq<(Img, seq<u8>)>)
    requires RoundsOk(starts) && Clean(starts[|starts| - 1].0, starts[|starts| - 1].1)
    ensures Tight(starts[|starts| - 1].0)
  {
    hide Clean, Tight, Laid;
    CleanIsTight(starts[|starts| - 1].0, starts[|starts| - 1].1);
  }

  lemma FirstRound(idx: Img, data: seq<u8>)
    requires Compactable(idx, data)
    ensures RoundsOk([(idx, data)])
  {
    hide Clean, NameBytes, Laid;
  }

  /** The last round's error, if it had one, is that of the run. */
  function Outcome(r: Result<bool>): Result<()> {
    match r
    case Ok(_) => Ok(())
    case Err(e) => Err(e)
  }

  lemma WritableSized(idx: Img)
    requires Writable(idx)
    ensures NameBytes(idx.ents) < TWO32
  {
  }

  method Rounds(v: Vfs, h: HeaderFile, reserve: nat) returns (r: Result<()>, ghost starts: seq<(Img, seq<u8>)>)
    requires Owned(v) && 256 * v.idx.logical < TWO64 && v.idx.generation + MAX_ROUNDS < TWO64
    requires h.Valid() && h.utf8 == v.utf8 && h.persistedGen == v.idx.generation && Writable(v.idx.View())
    modifies v`idx, v`data, v.idx, h
    ensures Owned(v) && v.Valid() && h.Valid() && r.Ok?
    ensures Settled(old(v.idx.View()), old(v.data), v.View(), v.data)
    ensures RoundsOk(starts) && starts[0] == (old(v.idx.View()), old(v.data))
    ensures v.View().gen == old(v.idx.View()).gen + |starts|
    ensures Planned(starts[|starts| - 1].0, v.View())
    ensures |starts| == MAX_ROUNDS
      || (Clean(starts[|starts| - 1].0, starts[|starts| - 1].1) && Tight(starts[|starts| - 1].0))
    ensures h.ActiveImage() == Some(v.View()) && ReadSb(h.bytes) == Some(v.View().gen)
    ensures |v.data| == v.View().logical + reserve
  {
    hide EngineOk, Settled, Compactable, Clean, Tight, NextOk, Planned, ViewOf, Finds, EntriesFit, NameBytes, OnGrid,
      LayoutOk, ReadSb, Writable;
    assert Times2(v.idx.logical, 1) == 2 * Times2(v.idx.logical, 0);
    starts := [(v.idx.View(), v.data)];
    FirstRound(v.idx.View(), v.data);
    var settled := Round(v, h, reserve);
    NextFacts(old(v.idx.View()), old(v.data), v.idx.View(), v.data);
    var round := 1;
    while round < MAX_ROUNDS && settled == Ok(false)
      invariant 1 <= round == |starts| <= MAX_ROUNDS && fresh(v.idx) && Owned(v) && v.Valid() && settled.Ok?
      invariant v.idx.logical <= Times2(old(v.idx.logical), round) && |v.data| == v.idx.logical + reserve
      invariant Settled(old(v.idx.View()), old(v.data), v.idx.View(), v.data)
      invariant v.View().gen == old(v.idx.View()).gen + round
      invariant RoundsOk(starts) && starts[0] == (old(v.idx.View()), old(v.data))
      invariant Planned(starts[round - 1].0, v.View())
      invariant settled.value <==> Clean(starts[round - 1].0, starts[round - 1].1)
      invariant h.Valid() && h.persistedGen == v.idx.generation && Writable(v.idx.View())
      invariant h.ActiveImage() == Some(v.View()) && ReadSb(h.bytes) == Some(v.View().gen)
    {
      Times2Bound(old(v.idx.logical), round + 1);
      ghost var img, data := v.idx.View(), v.data;
      RoundsNext(starts, img, data);
      starts := starts + [(img, data)];
      settled := Round(v, h, reserve);
      NextFacts(img, data, v.idx.View(), v.data);
      SettledTwice(old(v.idx.View()), old(v.data), img, data, v.idx.View(), v.data);
      round := round + 1;
    }
    if settled.value {
      LastTight(starts);
    }
    r := Outcome(settled);
  }

  /** A name is in the compacted index if and only if it was Active with bytes
      that had its checksum; its entry has that size, checksum and those bytes. */
  lemma NamesSurvive(was: Img, wasData: seq<u8>, idx: Img, data: seq<u8>, name: Name)
    requires Settled(was, wasData, idx, data)
    ensures Find(idx.ents, name).Some? <==> exists f: File :: f.name == name && Has(was.ents, wasData, f)
    ensures Find(idx.ents, name).Some? ==>
      var e := idx.ents[Find(idx.ents, name).value];
      var f := File(name, e.size, e.crc, e.body);
      Reads(e, data, f) && Has(was.ents, wasData, f)
  {
    hide Find, Crc32, Holds, Align4k;
    var at := Find(idx.ents, name);
    if at.Some? {
      var e := idx.ents[at.value];
      assert Committed(e) && e.Active();
      assert Reads(e, data, File(name, e.size, e.crc, e.body));
      assert Has(idx.ents, data, File(name, e.size, e.crc, e.body));
    }
    if f: File :| f.name == name && Has(was.ents, wasData, f) {
      assert Has(idx.ents, data, f);
      var e :| e in idx.ents && Reads(e, data, f);
      var k := FindIn(idx.ents, e);
    }
  }
}
