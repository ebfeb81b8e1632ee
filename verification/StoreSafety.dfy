/** The main theorems about the store: crash consistency over every run, and
    what flushes and compactions may do to each other. */
module StoreSafety {
  import opened Crc
  import opened Wrappers
  import opened Spans
  import opened Files
  import opened Format
  import opened Entries
  import opened Recovery
  import opened Store
  import opened StoreInv
  import opened PlanFacts
  import opened StoreSteps

  lemma StepKeeps(s: State, a: Action)
    requires Inv(s) && Step(s, a).Some?
    ensures Inv(Step(s, a).value)
  {
    hide Inv, DoAlloc, DoWrite, DoCommit, DoAbort, DoDelete, DoPersist, Mix;
    match a {
      case Alloc(w, name, size) => AllocKeeps(s, w, name, size);
      case Write(w, relOff, data) => WriteStepKeeps(s, w, relOff, data);
      case Commit(w) => CommitKeeps(s, w);
      case Abort(w) => AbortKeeps(s, w);
      case Delete(name) => DeleteKeeps(s, name);
      case FlushCheck(_) => FlushSnapKeeps(s, a);
      case FlushSnap(_) => FlushSnapKeeps(s, a);
      case FlushSync(f) => FlushSyncKeeps(s, f);
      case FlushDrop(_) => FlushSnapKeeps(s, a);
      case PersistStart(who) => PersistStartKeeps(s, who);
      case PersistSync => PersistSyncKeeps(s);
      case PersistPatch => PersistPatchKeeps(s);
      case PersistDone => PersistDoneKeeps(s);
      case CompStart => CompControlKeeps(s, a);
      case CompScan => CompControlKeeps(s, a);
      case CompFail => FailKeeps(s);
      case CompCopy(n) => CompCopyKeeps(s, n);
      case CompNext(isBad) => CompNextKeeps(s, isBad);
      case CompMark => CompMarkKeeps(s);
      case CompSync => CompSyncKeeps(s);
      case CompTrim(reserve) => CompTrimKeeps(s, reserve);
      case CompSwap => CompSwapKeeps(s);
      case Writeback(c) => WritebackKeeps(s, c);
    }
  }

  lemma FailKeeps(s: State)
    requires Inv(s) && DoComp(s, CompFail).Some?
    ensures Inv(DoComp(s, CompFail).value)
  {
    hide Inv, DoComp;
    if AfterMark(s.comp) {
      GiveUpKeeps(s);
    } else {
      CompControlKeeps(s, CompFail);
    }
  }

  lemma WriteStepKeeps(s: State, w: nat, relOff: nat, data: seq<u8>)
    requires Inv(s) && DoWrite(s, w, relOff, data).Some?
    ensures Inv(DoWrite(s, w, relOff, data).value)
  {
    hide Inv, Pwrite;
    if data == [] {
      assert DoWrite(s, w, relOff, data) == Some(s);
    } else {
      WriteKeeps(s, w, relOff, data);
    }
  }

  lemma {:induction false} RunKeeps(s: State, acts: seq<Action>)
    requires Inv(s) && Run(s, acts).Some?
    ensures Inv(Run(s, acts).value)
  {
    hide Inv, Step;
    if acts != [] {
      RunKeeps(s, acts[..|acts| - 1]);
      StepKeeps(Run(s, acts[..|acts| - 1]).value, acts[|acts| - 1]);
    }
  }

  // --- where a session starts ---

  /** A disk a session may start from: the SuperBlock checks and names the
      region that recovery selects, no slot is of a higher generation, slots of
      the same generation differ in Downloading entries at most, and files.vfs
      holds the bytes of the Active ones. */
  ghost predicate StoreOk(d: Disk) {
    && Recovered(d.hdr).Some?
    && var img := Recovered(d.hdr).value;
    && d.hdr.sb == Some(img.gen) && IdxOk(img)
    && (forall i :: 0 <= i < |d.hdr.slots| && d.hdr.slots[i].img.Some? ==>
          var o := d.hdr.slots[i].img.value;
          o.gen <= img.gen && (o.gen == img.gen ==> IdxOk(o) && Stored(o) == Stored(img)))
    && (forall e :: e in img.ents && e.Active() ==> Holds(d.data, e.offset, e.body))
  }

  /** Where each surviving entry stood, in increasing order. */
  function DropPos(ents: seq<Ent>): (r: seq<nat>)
    ensures |r| == |DropDownloading(ents)|
    ensures forall i :: 0 <= i < |r| ==> r[i] < |ents| && DropDownloading(ents)[i] == ents[r[i]]
    ensures forall i, j :: 0 <= i < j < |r| ==> r[i] < r[j]
  {
    if ents == [] then []
    else
      var n := |ents| - 1;
      DropPos(ents[..n]) + (if ents[n].state == ST_DOWNLOADING then [] else [n])
  }

  lemma DropOk(img: Img)
    requires IdxOk(img)
    ensures IdxOk(img.(ents := DropDownloading(img.ents)))
  {
    hide Align4k, Crc32;
    var r, pos := DropDownloading(img.ents), DropPos(img.ents);
    forall i, j | 0 <= i < j < |r|
      ensures r[i].name != r[j].name && EntApart(r[i], r[j])
    {
      assert EntApart(img.ents[pos[i]], img.ents[pos[j]]);
    }
  }

  /** open_paths turns such a disk into a good state. */
  lemma OpenIsGood(d: Disk)
    requires StoreOk(d)
    ensures Inv(Open(d))
  {
    hide Align4k, Crc32, IdxOk, Holds, SetLen, Choose, Spare;
    var s := Open(d);
    var img := Recovered(d.hdr).value;
    DropOk(img);
    forall e | e in img.ents && e.Active()
      ensures Committed(e) && Holds(s.vol, e.offset, e.body) && e.offset + e.Span() <= img.logical
    {
      var k := IndexInside(img, e);
      Align4kLeast(e.size);
      GrowHolds(d.data, img.logical, e.offset, e.body);
    }
    assert SlotsOk(s);
  }

  lemma IndexInside(img: Img, e: Ent) returns (k: nat)
    requires IdxOk(img) && e in img.ents
    ensures k < |img.ents| && img.ents[k] == e && Committed(e) && e.offset + e.Span() <= img.logical
  {
    k := IndexOfEnt(img, e);
  }

  // --- crash consistency ---

  /** What recovery may select after a crash: a header slot or the image that a
      persist in flight was writing, never older than the last one persisted. */
  lemma CrashSelects(s: State, h: Header)
    requires Inv(s) && HeaderCrash(s, h)
    ensures Recovered(h).Some?
    ensures var img := Recovered(h).value;
      && s.pg <= img.gen && ImgOk(s, img, true)
      && ((exists i :: 0 <= i < |s.hdr.slots| && s.hdr.slots[i].img == Some(img))
        || (s.job.Some? && img == s.job.value.img))
      && (h.sb == Some(s.pg) ==> img.gen == s.pg)
  {
    hide ImgOk, IdxOk, IdxHeld, WritersOk, CompOk, RegionLen, FlushesOk;
    var gens := SlotGens(h.slots);
    ChooseSpec(h.sb, gens);
    assert s.active < |h.slots| && h.slots[s.active] == s.hdr.slots[s.active];
    assert gens[s.active] == Some(s.pg);
    var c := Choose(h.sb, gens).value;
    assert gens[c] == SlotGen(h.slots[c]);
    if h.sb == Some(s.pg) {
      assert gens[c] == h.sb;
    } else if h.sb.Some? {
      assert gens[s.job.value.dest] == h.sb;
    }
  }

  /** For every run from a well-formed store and a crash at any point of it,
      recovery finds a region no older than the last one persisted, and the
      durable span of each of its Active entries holds exactly the bytes of its
      commit, in the size and under the checksum that the entry records. */
  lemma CrashConsistency(d0: Disk, acts: seq<Action>, s: State, d: Disk)
    requires StoreOk(d0) && Run(Open(d0), acts) == Some(s) && Crash(s, d)
    ensures Recovered(d.hdr).Some? && s.pg <= Recovered(d.hdr).value.gen
    ensures forall e :: e in Open(d).idx.ents && e.Active() ==>
      |e.body| == e.size && e.crc == Crc32(e.body)
      && Holds(d.data, e.offset, e.body) && Holds(Open(d).vol, e.offset, e.body)
  {
    hide Inv, Choose, Mix, SetLen, Crc32, HeaderCrash;
    OpenIsGood(d0);
    RunKeeps(Open(d0), acts);
    CrashSelects(s, d.hdr);
    var img := Recovered(d.hdr).value;
    forall e | e in img.ents && e.Active()
      ensures Committed(e) && Holds(d.data, e.offset, e.body) && Holds(Open(d).vol, e.offset, e.body)
    {
      assert EntSafe(s, e, true);
      MixHolds(s.dur, s.vol, d.data, e.offset, e.body);
      GrowHolds(d.data, img.logical, e.offset, e.body);
    }
  }

  // --- flush against compaction ---

  /** The SuperBlock's generation never goes back, over any run. */
  lemma {:induction false} SuperBlockMonotone(s: State, acts: seq<Action>)
    requires Inv(s) && Run(s, acts).Some?
    ensures var t := Run(s, acts).value;
      s.hdr.sb.Some? && t.hdr.sb.Some? && s.hdr.sb.value <= t.hdr.sb.value
  {
    hide Inv;
    if acts == [] {
      SbIsPg(s);
    } else {
      var p := acts[..|acts| - 1];
      SuperBlockMonotone(s, p);
      RunKeeps(s, p);
      StepKeeps(Run(s, p).value, acts[|acts| - 1]);
      SbIsPg(Run(s, p).value);
      SbIsPg(Run(s, acts).value);
      SbStep(Run(s, p).value, acts[|acts| - 1]);
    }
  }

  lemma SbIsPg(s: State)
    requires Inv(s)
    ensures s.hdr.sb == Some(s.pg) && (s.job.Some? ==> s.pg <= s.job.value.img.gen)
  {
    hide ImgOk, IdxOk, CompOk, WritersOk;
  }

  lemma SbStep(s: State, a: Action)
    requires Inv(s) && Step(s, a).Some?
    ensures s.pg <= Step(s, a).value.pg
  {
    hide Inv, Align4k, Find, Pwrite, SetLen, RegionLen, Finalized, Without, Crc32;
    SbIsPg(s);
  }

  /** Data of a round may be moved, or will be after its scan, and the header
      still has to be true. */
  predicate BeforeFlip(s: State) {
    && (s.comp.ReadyScan? || s.comp.Moving? || s.comp.Marked? || s.comp.Synced?)
    && !(s.job.Some? && s.job.value.who.ByFinal? && s.job.value.phase.Patched?)
  }

  /** The index that the round froze or is about to freeze. */
  function FrozenIdx(s: State): Img
    requires BeforeFlip(s)
  {
    if s.comp.ReadyScan? then s.idx else s.comp.frozen
  }

  /** From the end of the flush in front of the rounds until a round flips the
      SuperBlock, Finalize's own region write included, whatever region recovery
      would select shows only entries of the frozen index, at their old offsets:
      each is the source of an item of the plan. */
  lemma FrozenRegion(s: State, h: Header, e: Ent)
    requires Inv(s) && BeforeFlip(s) && HeaderCrash(s, h)
    requires Recovered(h).Some? && e in Recovered(h).value.ents && e.Active()
    ensures Recovered(h).value.gen == s.idx.gen && e in FrozenIdx(s).ents
    ensures HasPlan(s.comp) ==> exists j :: 0 <= j < |s.comp.plan.items| && Moves(s.comp.plan.items[j], e)
  {
    hide IdxOk, WritersOk, MovedHeld, Finalized, RegionLen, Sources, ImgSafe, PlanFor, CarriersOk, HeaderCrash;
    CrashSelects(s, h);
    var img := Recovered(h).value;
    SelectedIsCurrent(s, h, img);
    if HasPlan(s.comp) {
      var j := EntItem(s.comp.frozen, s.comp.plan, e);
    }
  }

  lemma SelectedIsCurrent(s: State, h: Header, img: Img)
    requires Inv(s) && BeforeFlip(s) && HeaderCrash(s, h) && s.pg <= img.gen && (h.sb == Some(s.pg) ==> img.gen == s.pg)
    requires (exists i :: 0 <= i < |s.hdr.slots| && s.hdr.slots[i].img == Some(img))
      || (s.job.Some? && img == s.job.value.img)
    ensures img.gen == s.idx.gen
  {
    hide IdxOk, WritersOk, MovedHeld, Finalized, ImgOk, IdxHeld, RegionLen;
    if s.job.Some? && s.job.value.who.ByFlush? {
      assert FlushOk(s, s.flushes[s.job.value.who.f]);
    }
  }
}
