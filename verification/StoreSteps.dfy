/** The invariant over the persist protocol, the compaction thread and
    background write-back, and so over every run. */
module StoreSteps {
  import opened Crc
  import opened Wrappers
  import opened Spans
  import opened Files
  import opened Format
  import opened Entries
  import opened Store
  import opened StoreInv
  import opened PlanFacts
  import P = Planner

  // --- persist_image ---

  lemma NewImgOk(s: State)
    requires Inv(s) && s.comp.Synced?
    ensures ImgOk(s, NewImg(s.comp), true)
  {
    hide Kept, P.PlanOf, P.MaxEnd, Align4k, Holds, Crc32;
    FinalizedOk(s.comp.frozen, s.comp.plan, s.comp.bad);
  }

  /** ImgOk does not look at the job, the SuperBlock or the layout. */
  lemma HeaderDoesNotMatter(s: State, t: State, img: Img, d: bool)
    requires ImgOk(s, img, d) && s.pg <= t.pg
    requires t == s.(job := t.job, hdr := t.hdr, active := t.active, inactive := t.inactive, pg := t.pg,
      flushes := t.flushes, comp := t.comp)
    requires Ref(t) == Ref(s) && (IsNew(s, img) ==> IsNew(t, img))
    ensures ImgOk(t, img, d)
  {
    hide Align4k, Holds, Committed;
    assert forall e: Ent :: EntSafe(s, e, d) ==> EntSafe(t, e, d);
  }

  lemma AllFollow(s: State, t: State)
    requires s.pg <= t.pg && Ref(t) == Ref(s)
    requires (s.comp.Synced? || s.comp.Flipped?) ==>
      (t.comp.Synced? || t.comp.Flipped?) && NewImg(t.comp) == NewImg(s.comp)
    requires t == s.(job := t.job, hdr := t.hdr, active := t.active, inactive := t.inactive, pg := t.pg,
      flushes := t.flushes, comp := t.comp)
    ensures forall img, d :: ImgOk(s, img, d) ==> ImgOk(t, img, d)
  {
    hide ImgOk;
    forall img, d | ImgOk(s, img, d)
      ensures ImgOk(t, img, d)
    {
      HeaderDoesNotMatter(s, t, img, d);
    }
  }

  lemma PersistStartKeeps(s: State, who: Who)
    requires Inv(s) && DoPersist(s, PersistStart(who)).Some?
    ensures Inv(DoPersist(s, PersistStart(who)).value)
  {
    hide IdxOk, IdxHeld, WritersOk, MovedHeld, ImgOk, RegionLen, Finalized;
    var t := DoPersist(s, PersistStart(who)).value;
    if who.ByFlush? {
      assert FlushOk(s, s.flushes[who.f]);
    } else {
      NewImgOk(s);
    }
    AllFollow(s, t);
    SlotsFollow(s, t);
    FlushesFollow(s, t);
  }

  lemma FlushesFollow(s: State, t: State)
    requires FlushesOk(s) && t.idx.gen >= s.idx.gen
    requires forall f :: f in t.flushes ==> f in s.flushes && t.flushes[f] == s.flushes[f]
    requires forall img, d :: ImgOk(s, img, d) ==> ImgOk(t, img, d)
    ensures FlushesOk(t)
  {
    hide ImgOk;
    forall f | f in t.flushes
      ensures FlushOk(t, t.flushes[f])
    {
      assert FlushOk(s, s.flushes[f]);
    }
  }

  lemma PersistSyncKeeps(s: State)
    requires Inv(s) && DoPersist(s, PersistSync).Some?
    ensures Inv(DoPersist(s, PersistSync).value)
  {
    hide IdxOk, IdxHeld, WritersOk, MovedHeld, ImgOk, RegionLen, Finalized;
    var t := DoPersist(s, PersistSync).value;
    AllFollow(s, t);
    FlushesFollow(s, t);
    forall i | 0 <= i < |t.hdr.slots| && t.hdr.slots[i].img.Some?
      ensures ImgOk(t, t.hdr.slots[i].img.value, true)
    {
      assert i != s.job.value.dest ==> t.hdr.slots[i] == s.hdr.slots[i];
    }
  }

  lemma PersistPatchKeeps(s: State)
    requires Inv(s) && DoPersist(s, PersistPatch).Some?
    ensures Inv(DoPersist(s, PersistPatch).value)
  {
    hide IdxOk, IdxHeld, WritersOk, MovedHeld, ImgOk, RegionLen, Finalized;
    var t := DoPersist(s, PersistPatch).value;
    AllFollow(s, t);
    FlushesFollow(s, t);
    SlotsFollow(s, t);
  }

  lemma PersistDoneKeeps(s: State)
    requires Inv(s) && DoPersist(s, PersistDone).Some?
    ensures Inv(DoPersist(s, PersistDone).value)
  {
    hide IdxOk, WritersOk, MovedHeld, ImgOk, RegionLen, Kept, NewEnts, P.MaxEnd, Holds;
    var t := DoPersist(s, PersistDone).value;
    var j := s.job.value;
    if j.who.ByFlush? {
      assert FlushOk(s, s.flushes[j.who.f]);
    }
    AllFollow(s, t);
    FlushesFollow(s, t);
    SlotsFollow(s, t);
  }

  // --- write-back ---

  lemma WritebackKeeps(s: State, c: seq<u8>)
    requires Inv(s) && Mix(s.dur, s.vol, c)
    ensures Inv(s.(dur := c))
  {
    hide IdxOk, IdxHeld, WritersOk, MovedHeld, Align4k, Holds, Committed, Mix;
    var t := s.(dur := c);
    forall off, d | Holds(s.dur, off, d) && Holds(s.vol, off, d)
      ensures Holds(c, off, d)
    {
      MixHolds(s.dur, s.vol, c, off, d);
    }
    forall img, d | ImgOk(s, img, d)
      ensures ImgOk(t, img, d)
    {
      assert forall e: Ent :: EntSafe(s, e, d) ==> EntSafe(t, e, d);
    }
    Carry(s, t);
  }

  // --- the compaction thread ---

  /** Where no entry was bad the marked index is the frozen one. */
  lemma NoneMarked(s: State)
    requires Inv(s) && AfterMark(s.comp) && s.comp.bad == {}
    ensures s.idx == s.comp.frozen
  {
    hide IdxOk, ImgOk, CarriersOk, HeaderOk, WritersOk, IdxHeld, AllHeld, Finalized, PlanFor;
    assert s.idx.ents == s.comp.frozen.ents;
  }

  /** As long as Finalize's persist has not begun nothing is ahead of the index. */
  lemma NothingNew(s: State)
    requires Inv(s) && (s.comp.Marked? || s.comp.Synced?) && (s.job.None? || s.job.value.who.ByFlush?)
    ensures forall i :: 0 <= i < |s.hdr.slots| && s.hdr.slots[i].img.Some? ==> s.hdr.slots[i].img.value.gen <= s.idx.gen
    ensures s.job.Some? ==> s.job.value.img.gen <= s.idx.gen
  {
    hide IdxOk, WritersOk, ImgOk, IdxHeld, Finalized, SlotsOk;
    if s.job.Some? {
      assert FlushOk(s, s.flushes[s.job.value.who.f]);
    }
  }

  /** A compaction that gives up behind the marking, nothing being marked. */
  lemma GiveUpKeeps(s: State)
    requires Inv(s) && DoComp(s, CompFail).Some? && AfterMark(s.comp)
    ensures Inv(DoComp(s, CompFail).value)
  {
    hide IdxOk, WritersOk, ImgOk, Finalized, P.PlanOf, Sources, Holds, Align4k;
    var t := DoComp(s, CompFail).value;
    NoneMarked(s);
    NothingNew(s);
    assert t.flushes == s.flushes;
    forall img, d | ImgOk(s, img, d) && img.gen <= s.idx.gen
      ensures ImgOk(t, img, d)
    {
      GiveUpDoesNotMatter(s, t, img, d);
    }
    forall f | f in t.flushes
      ensures FlushOk(t, t.flushes[f])
    {
      assert FlushOk(s, s.flushes[f]);
    }
  }

  lemma GiveUpDoesNotMatter(s: State, t: State, img: Img, d: bool)
    requires ImgOk(s, img, d) && img.gen <= s.idx.gen && AfterMark(s.comp) && s.comp.frozen == s.idx
    requires t == s.(comp := Idle)
    ensures ImgOk(t, img, d)
  {
    hide Align4k, Holds, Committed;
    assert forall e: Ent :: EntSafe(s, e, d) ==> EntSafe(t, e, d);
  }

  /** Steps of the compaction thread that touch neither file nor index. */
  lemma CompControlKeeps(s: State, a: Action)
    requires Inv(s) && DoComp(s, a).Some?
    requires a.CompStart? || a.CompScan? || (a.CompFail? && !AfterMark(s.comp))
    ensures Inv(DoComp(s, a).value)
  {
    hide IdxOk, WritersOk, ImgOk, Finalized, P.PlanOf, Sources, Holds, Align4k;
    var t := DoComp(s, a).value;
    AllFollow(s, t);
    SlotsFollow(s, t);
    forall f | f in t.flushes
      ensures FlushOk(t, t.flushes[f])
    {
      assert f in s.flushes ==> FlushOk(s, s.flushes[f]);
    }
    if a.CompScan? && t.comp.plan.items != [] {
      assert t.comp.k == 0 && t.comp.done == 0;
      assert forall d: seq<u8> :: d[..0] == [];
      HoldsNothing(t.vol, t.comp.plan.items[0].newOff);
    }
  }

  lemma HoldsNothing(f: seq<u8>, off: nat)
    ensures Holds(f, off, [])
  {
  }

  /** A chunk lands inside the target of item k and so spares entry e. */
  lemma CopySpares(c: Comp, e: Ent, n: nat, vol: seq<u8>, data: seq<u8>)
    requires c.Moving? && PlanFor(c.frozen, c.plan) && c.k < |c.plan.items|
    requires e in c.frozen.ents && e.Active() && Committed(e) && Holds(vol, e.offset, e.body)
    requires var i := c.plan.items[c.k]; i.Moved() && 0 < n == |data| && c.done + n <= i.size
    ensures Holds(Pwrite(vol, c.plan.items[c.k].newOff + c.done, data), e.offset, e.body)
  {
    hide Align4k, Pwrite, Holds, Crc32, P.PlanOf;
    PlanIsGood(c.frozen, c.plan);
    var j := EntItem(c.frozen, c.plan, e);
    var i := c.plan.items[c.k];
    Align4kLeast(i.size);
    Align4kLeast(e.size);
    assert e.Span() == c.plan.items[j].Span();
    if e.body != [] {
      assert Apart(i.newOff, i.Span(), c.plan.items[j].oldOff, c.plan.items[j].Span());
      PwriteFrame(vol, i.newOff + c.done, data, e.offset, e.body);
    } else {
      HoldsNothing(Pwrite(vol, i.newOff + c.done, data), e.offset);
    }
  }

  /** ... and the target of every other item. */
  lemma CopySparesTarget(c: Comp, j: nat, n: nat, vol: seq<u8>, data: seq<u8>, body: seq<u8>)
    requires c.Moving? && PlanFor(c.frozen, c.plan) && j < c.k < |c.plan.items|
    requires Holds(vol, c.plan.items[j].newOff, body) && |body| <= c.plan.items[j].size
    requires 0 < n == |data| && c.done + n <= c.plan.items[c.k].size
    ensures Holds(Pwrite(vol, c.plan.items[c.k].newOff + c.done, data), c.plan.items[j].newOff, body)
  {
    hide Align4k, Pwrite, Holds, P.PlanOf;
    PlanIsGood(c.frozen, c.plan);
    var i := c.plan.items[c.k];
    Align4kLeast(i.size);
    Align4kLeast(c.plan.items[j].size);
    PwriteFrame(vol, i.newOff + c.done, data, c.plan.items[j].newOff, body);
  }

  /** What copying a piece does for the item itself. */
  lemma CopyPiece(vol: seq<u8>, body: seq<u8>, oldOff: nat, newOff: nat, done: nat, n: nat)
    requires done + n <= |body| && oldOff + done + n <= |vol|
    requires Holds(vol, oldOff, body) && Holds(vol, newOff, body[..done])
    ensures vol[oldOff + done..oldOff + done + n] == body[done..done + n]
    ensures Holds(Pwrite(vol, newOff + done, vol[oldOff + done..oldOff + done + n]), newOff, body[..done + n])
  {
    hide Holds, Pwrite;
    HoldsSlice(vol, oldOff, body, done, n);
    PwriteExtends(vol, newOff, body[..done], body[done..done + n]);
    assert body[..done] + body[done..done + n] == body[..done + n];
  }

  lemma CopyMoves(s: State, n: nat)
    requires Inv(s) && DoComp(s, CompCopy(n)).Some?
    ensures var t := DoComp(s, CompCopy(n)).value; MovedHeld(t.vol, t.comp)
  {
    hide IdxOk, WritersOk, ImgOk, HeaderOk, CarriersOk, P.PlanOf, Pwrite, Holds, Crc32, BodyOf, Align4k;
    var t := DoComp(s, CompCopy(n)).value;
    var c := s.comp;
    var i := c.plan.items[c.k];
    var k := ItemEnt(c.frozen, c.plan, c.k);
    var at := i.oldOff + c.done;
    if i.Moved() {
      CopyPiece(s.vol, c.frozen.ents[k].body, i.oldOff, i.newOff, c.done, n);
      forall j | 0 <= j < c.k
        ensures Holds(t.vol, c.plan.items[j].newOff, BodyOf(c.frozen.ents, c.plan.items[j].name))
      {
        var kk := ItemEnt(c.frozen, c.plan, j);
        CopySparesTarget(c, j, n, s.vol, s.vol[at..at + n], BodyOf(c.frozen.ents, c.plan.items[j].name));
      }
    }
  }

  lemma HoldsSlice(f: seq<u8>, off: nat, d: seq<u8>, i: nat, n: nat)
    requires Holds(f, off, d) && i + n <= |d| && off + i + n <= |f|
    ensures f[off + i..off + i + n] == d[i..i + n]
  {
    HoldsPart(f, off, d, i, i + n);
  }

  lemma CompCopyKeeps(s: State, n: nat)
    requires Inv(s) && DoComp(s, CompCopy(n)).Some?
    ensures Inv(DoComp(s, CompCopy(n)).value)
  {
    hide IdxOk, Finalized, P.PlanOf, Sources, Align4k, MovedHeld, Holds, Pwrite, Crc32;
    var t := DoComp(s, CompCopy(n)).value;
    var c := s.comp;
    CopyMoves(s, n);
    if t.vol != s.vol {
      var i := c.plan.items[c.k];
      var at := i.oldOff + c.done;
      forall e | e in s.idx.ents && e.Active()
        ensures Holds(t.vol, e.offset, e.body)
      {
        var k := IndexOfEnt(s.idx, e);
        CopySpares(c, e, n, s.vol, s.vol[at..at + n]);
      }
    }
    assert IdxHeld(t.comp, t.idx, t.vol);
    forall img, d | ImgOk(s, img, d)
      ensures ImgOk(t, img, d)
    {
      forall e | e in img.ents && e.Active() && t.pg <= img.gen
        ensures EntSafe(t, e, d)
      {
        assert EntSafe(s, e, d);
        assert e in s.idx.ents;
      }
    }
    Carry(s, t);
  }

  lemma CompNextKeeps(s: State, isBad: bool)
    requires Inv(s) && DoComp(s, CompNext(isBad)).Some?
    ensures Inv(DoComp(s, CompNext(isBad)).value)
  {
    hide IdxOk, WritersOk, ImgOk, Finalized, P.PlanOf, Sources, Holds, Align4k, BodyOf, Crc32;
    var t := DoComp(s, CompNext(isBad)).value;
    AllFollow(s, t);
    SlotsFollow(s, t);
    FlushesFollow(s, t);
    var c := s.comp;
    var i := c.plan.items[c.k];
    var k := ItemEnt(c.frozen, c.plan, c.k);
    var e := c.frozen.ents[k];
    assert e.body[..c.done] == e.body;
    assert e in s.idx.ents;
    if t.comp.k < |c.plan.items| {
      var b := BodyOf(c.frozen.ents, c.plan.items[t.comp.k].name);
      assert b[..0] == [];
      HoldsNothing(t.vol, c.plan.items[t.comp.k].newOff);
    }
  }

  lemma CompMarkKeeps(s: State)
    requires Inv(s) && DoComp(s, CompMark).Some?
    ensures Inv(DoComp(s, CompMark).value)
  {
    hide IdxOk, ImgOk, P.PlanOf, Sources, Holds, Align4k, BodyOf, Crc32, Kept, P.MaxEnd;
    var t := DoComp(s, CompMark).value;
    MarkBadOk(s.idx, s.comp.bad);
    forall img, d | ImgOk(s, img, d)
      ensures ImgOk(t, img, d)
    {
      MarkDoesNotMatter(s, t, img, d);
    }
    Carry(s, t);
    var n := Finalized(s.comp.frozen, s.comp.plan, s.comp.bad);
    var pos := KeptPos(s.comp.plan.items, s.comp.bad);
    forall e | e in n.ents
      ensures Holds(t.vol, e.offset, e.body)
    {
      var k :| 0 <= k < |n.ents| && n.ents[k] == e;
      assert s.comp.plan.items[pos[k]] == Kept(s.comp.plan.items, s.comp.bad)[k];
    }
  }

  lemma MarkDoesNotMatter(s: State, t: State, img: Img, d: bool)
    requires ImgOk(s, img, d) && s.comp.Moving? && s.comp.frozen == s.idx && DoComp(s, CompMark) == Some(t)
    ensures ImgOk(t, img, d)
  {
    hide Align4k, Holds, Committed, MarkBad;
    assert forall e: Ent :: EntSafe(s, e, d) ==> EntSafe(t, e, d);
  }

  lemma CompSyncKeeps(s: State)
    requires Inv(s) && DoComp(s, CompSync).Some?
    ensures Inv(DoComp(s, CompSync).value)
  {
    hide IdxOk, WritersOk, ImgOk, P.PlanOf, Holds, Align4k, Finalized;
    var t := DoComp(s, CompSync).value;
    forall img, d | ImgOk(s, img, d)
      ensures ImgOk(t, img, d)
    {
      SyncMakesDurable(s, t, img, d);
      if !d {
        DurableImpliesSafe(t, img);
      }
    }
    Carry(s, t);
  }

  /** Truncation spares what the new index refers to; nothing else can be selected. */
  lemma CompTrimKeeps(s: State, reserve: nat)
    requires Inv(s) && DoComp(s, CompTrim(reserve)).Some?
    ensures Inv(DoComp(s, CompTrim(reserve)).value)
  {
    hide P.PlanOf, Holds, Align4k, Finalized, SetLen, Crc32;
    var t := DoComp(s, CompTrim(reserve)).value;
    var n := NewImg(s.comp);
    FinalizedOk(s.comp.frozen, s.comp.plan, s.comp.bad);
    forall e | e in n.ents
      ensures e.Active() && Holds(t.vol, e.offset, e.body)
    {
      NewAllActive(s.comp, e);
      var k := IndexOfEnt(n, e);
      Align4kLeast(e.size);
      SetLenHolds(s.vol, n.logical + reserve, e.offset, e.body);
    }
    forall img, d | ImgOk(s, img, d)
      ensures ImgOk(t, img, d)
    {
      assert t.pg <= img.gen ==> img == n;
      assert forall e: Ent :: EntSafe(s, e, d) && e in n.ents ==> EntSafe(t, e, d);
    }
    Carry(s, t);
  }

  lemma NewAllActive(c: Comp, e: Ent)
    requires (c.Synced? || c.Flipped?) && e in NewImg(c).ents
    ensures e.Active()
  {
    hide BodyOf, Kept;
  }

  lemma CompSwapKeeps(s: State)
    requires Inv(s) && DoComp(s, CompSwap).Some?
    ensures Inv(DoComp(s, CompSwap).value)
  {
    hide P.PlanOf, Holds, Align4k, Kept, P.MaxEnd, NewEnts, Crc32;
    var t := DoComp(s, CompSwap).value;
    FinalizedOk(s.comp.frozen, s.comp.plan, s.comp.bad);
    forall img, d | ImgOk(s, img, d)
      ensures ImgOk(t, img, d)
    {
      SwapDoesNotMatter(s, t, img, d);
    }
    Carry(s, t);
  }

  lemma SwapDoesNotMatter(s: State, t: State, img: Img, d: bool)
    requires Inv(s) && DoComp(s, CompSwap) == Some(t) && ImgOk(s, img, d) && IdxOk(t.idx)
    ensures ImgOk(t, img, d)
  {
    hide P.PlanOf, Holds, Align4k, Kept, P.MaxEnd, NewEnts, Crc32, WritersOk, MovedHeld, CarriersOk;
    if t.pg <= img.gen {
      assert img == t.idx;
      forall e | e in img.ents && e.Active()
        ensures EntSafe(t, e, d) && e.offset + e.Span() <= t.idx.logical
      {
        assert EntSafe(s, e, d);
        var k := IndexOfEnt(t.idx, e);
      }
    }
  }
}
