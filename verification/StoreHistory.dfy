/** What recovery selects, told by the history of the run: whose bytes they are,
    which flush they come from, and when a next session may start. */
module StoreHistory {
  import opened Crc
  import opened Wrappers
  import opened Spans
  import opened Files
  import opened Format
  import opened Entries
  import opened Recovery
  import opened Store
  import opened StoreInv
  import opened PlanFacts
  import opened StoreSteps
  import opened StoreSafety
  import A = Accounting

  /** An image in a header slot or on its way to one. */
  ghost predicate Carried(s: State, img: Img) {
    || (exists i :: 0 <= i < |s.hdr.slots| && s.hdr.slots[i].img == Some(img))
    || (s.job.Some? && s.job.value.img == img)
    || (exists f :: f in s.flushes && !s.flushes[f].Checked? && s.flushes[f].img == img)
  }

  ghost predicate MutatorAction(a: Action) {
    a.Alloc? || a.Write? || a.Commit? || a.Abort? || a.Delete? || a.Writeback?
  }

  ghost predicate FlushAction(a: Action) {
    a.FlushCheck? || a.FlushSnap? || a.FlushSync? || a.FlushDrop?
  }

  ghost predicate PersistAction(a: Action) {
    a.PersistStart? || a.PersistSync? || a.PersistPatch? || a.PersistDone?
  }

  /** Writers and deletes touch neither headers nor the compaction. */
  lemma MutatorFrame(s: State, a: Action)
    requires MutatorAction(a) && Step(s, a).Some?
    ensures var t := Step(s, a).value;
      t.hdr == s.hdr && t.job == s.job && t.flushes == s.flushes && t.comp == s.comp && t.pg == s.pg
      && (a.Write? || a.Writeback? ==> t.idx == s.idx)
  {
    hide Align4k, Find, Pwrite, SetLen, Mix, Crc32;
  }

  lemma FlushFrame(s: State, a: Action)
    requires FlushAction(a) && Step(s, a).Some?
    ensures var t := Step(s, a).value;
      t.hdr == s.hdr && t.job == s.job && t.comp == s.comp && t.pg == s.pg && t.idx == s.idx
    ensures var t := Step(s, a).value; forall f :: f in t.flushes && !t.flushes[f].Checked? ==>
      (a.FlushSnap? && t.flushes[f].img == s.idx)
        || (f in s.flushes && !s.flushes[f].Checked? && t.flushes[f].img == s.flushes[f].img)
  {
  }

  lemma PersistFrame(s: State, a: Action)
    requires PersistAction(a) && Step(s, a).Some?
    ensures Step(s, a).value.idx == s.idx
    ensures forall f :: f in Step(s, a).value.flushes ==> f in s.flushes && Step(s, a).value.flushes[f] == s.flushes[f]
  {
    hide Finalized, RegionLen;
  }

  /** The compaction thread writes no header by itself. */
  lemma CompFrame(s: State, a: Action)
    requires !MutatorAction(a) && !FlushAction(a) && !PersistAction(a) && Step(s, a).Some?
    ensures var t := Step(s, a).value; t.hdr == s.hdr && t.job == s.job && t.pg == s.pg
    ensures var t := Step(s, a).value; forall f :: f in t.flushes && !t.flushes[f].Checked? ==>
      f in s.flushes && t.flushes[f] == s.flushes[f]
  {
    hide Pwrite, SetLen, Finalized, MarkBad, Sources, P.PlanOf;
  }

  lemma CarriedPersist(s: State, a: Action, img: Img)
    requires PersistAction(a) && Step(s, a).Some? && Carried(Step(s, a).value, img)
    ensures Carried(s, img) || (s.comp.Synced? && img == NewImg(s.comp))
  {
    hide Finalized, RegionLen;
    PersistFrame(s, a);
    var t := Step(s, a).value;
    if i :| 0 <= i < |t.hdr.slots| && t.hdr.slots[i].img == Some(img) {
      if i >= |s.hdr.slots| || s.hdr.slots[i] != t.hdr.slots[i] {
        assert s.job.Some? && s.job.value.img == img;
      }
    }
  }

  /** New images come from a snapshot or from Finalize. */
  lemma CarriedStep(s: State, a: Action, img: Img)
    requires Inv(s) && Step(s, a).Some? && Carried(Step(s, a).value, img)
    ensures Carried(s, img) || (a.FlushSnap? && img == s.idx) || (s.comp.Synced? && img == NewImg(s.comp))
  {
    hide Inv, Step, NewImg;
    if MutatorAction(a) {
      MutatorFrame(s, a);
    } else if FlushAction(a) {
      FlushFrame(s, a);
    } else if PersistAction(a) {
      CarriedPersist(s, a, img);
    } else {
      CompFrame(s, a);
    }
  }

  /** The index that the current generation stands for: marking entries Bad
      during a round does not count. */
  function Base(s: State): Img {
    if AfterMark(s.comp) then s.comp.frozen else s.idx
  }

  lemma BaseGen(s: State)
    requires Inv(s)
    ensures Base(s).gen == s.idx.gen && Base(s).ents == Ref(s) && IdxOk(Base(s))
  {
    hide IdxOk, ImgOk;
  }

  /** The entry that a commit makes Active. */
  ghost predicate CommittedBy(s: State, a: Action, e: Ent) {
    a.Commit? && a.w in s.writers && e.name == s.writers[a.w].name && e.body == s.writers[a.w].body
  }

  lemma PersistBase(s: State, a: Action)
    requires PersistAction(a) && Step(s, a).Some?
    ensures Base(Step(s, a).value) == Base(s)
  {
    hide RegionLen, Finalized;
    PersistFrame(s, a);
  }

  lemma CompBase(s: State, a: Action)
    requires Inv(s) && !MutatorAction(a) && !FlushAction(a) && !PersistAction(a) && Step(s, a).Some?
    ensures var t := Step(s, a).value;
      if a.CompSwap? then
        s.comp.Flipped? && Base(t) == NewImg(s.comp) && Base(t).gen == Base(s).gen + 1
      else
        Base(t) == Base(s)
  {
    if a.CompFail? {
      FailBase(s);
    } else {
      CompBaseRest(s, a);
    }
  }

  lemma FailBase(s: State)
    requires Inv(s) && Step(s, CompFail).Some?
    ensures Base(Step(s, CompFail).value) == Base(s)
  {
    hide Inv, Pwrite, SetLen, MarkBad, Sources, P.PlanOf, Finalized;
    if AfterMark(s.comp) {
      NoneMarked(s);
    }
  }

  lemma CompBaseRest(s: State, a: Action)
    requires Inv(s) && !MutatorAction(a) && !FlushAction(a) && !PersistAction(a) && Step(s, a).Some? && !a.CompFail?
    ensures var t := Step(s, a).value;
      if a.CompSwap? then
        s.comp.Flipped? && Base(t) == NewImg(s.comp) && Base(t).gen == Base(s).gen + 1
      else
        Base(t) == Base(s)
  {
    hide Pwrite, SetLen, MarkBad, Sources, P.PlanOf, Kept, NewEnts, CarriersOk, WritersOk, HeaderOk, IdxOk, IdxHeld,
      MovedHeld, AllHeld;
  }

  /** An index change takes a new generation; its Active entries are old ones,
      a commit's, or Finalize's. */
  lemma BaseStep(s: State, a: Action)
    requires Inv(s) && Step(s, a).Some?
    ensures var t := Step(s, a).value;
      Base(t) == Base(s) || (Base(t).gen == Base(s).gen + 1
        && ((a.CompSwap? && s.comp.Flipped? && Base(t) == NewImg(s.comp))
            || (!s.Compacting() && !t.Compacting()
                && forall e :: e in t.idx.ents && e.Active() ==> e in s.idx.ents || CommittedBy(s, a, e))))
  {
    if MutatorAction(a) {
      MutatorFrame(s, a);
      MutatorBase(s, a);
    } else {
      hide Inv, Step, NewImg;
      if FlushAction(a) {
        FlushFrame(s, a);
      } else if PersistAction(a) {
        PersistBase(s, a);
      } else {
        CompBase(s, a);
      }
    }
  }

  lemma MutatorBase(s: State, a: Action)
    requires Inv(s) && MutatorAction(a) && Step(s, a).Some? && Step(s, a).value.comp == s.comp
    ensures var t := Step(s, a).value;
      t.idx == s.idx || (!s.Compacting() && t.idx.gen == s.idx.gen + 1
        && forall e :: e in t.idx.ents && e.Active() ==> e in s.idx.ents || CommittedBy(s, a, e))
  {
    hide Inv, DoAlloc, DoWrite, DoCommit, DoAbort, DoDelete, DoComp, DoFlush, DoPersist, Mix;
    match a
    case Alloc(w, name, size) =>
      MutatorActives(s, a);
      AllocBase(s, w, name, size);
    case Abort(w) =>
      MutatorActives(s, a);
      AbortBase(s, w);
    case Commit(w) => CommitBase(s, w);
    case Delete(name) => DeleteBase(s, name);
    case _ => MutatorFrame(s, a);
  }

  lemma AllocBase(s: State, w: nat, name: Name, size: nat)
    requires DoAlloc(s, w, name, size).Some?
    ensures !s.Compacting() && DoAlloc(s, w, name, size).value.idx.gen == s.idx.gen + 1
  {
    hide Align4k, Find, Without, SetLen;
  }

  lemma AbortBase(s: State, w: nat)
    requires Inv(s) && DoAbort(s, w).Some?
    ensures !s.Compacting() && DoAbort(s, w).value.idx.gen == s.idx.gen + 1
  {
    hide Find, Without, IdxOk, CarriersOk, HeaderOk, IdxHeld, WritersOk;
  }

  lemma CommitBase(s: State, w: nat)
    requires DoCommit(s, w).Some?
    ensures var t := DoCommit(s, w).value;
      !s.Compacting() && t.idx.gen == s.idx.gen + 1
      && forall e :: e in t.idx.ents && e.Active() ==> e in s.idx.ents || CommittedBy(s, Commit(w), e)
  {
    hide Crc32;
  }

  lemma DeleteBase(s: State, name: Name)
    requires DoDelete(s, name).Some?
    ensures var t := DoDelete(s, name).value;
      t.idx == s.idx
      || (!s.Compacting() && t.idx.gen == s.idx.gen + 1 && forall e :: e in t.idx.ents && e.Active() ==>
        e in s.idx.ents)
  {
  }

  lemma MutatorActives(s: State, a: Action)
    requires Inv(s) && Step(s, a).Some? && (a.Alloc? || a.Abort?)
    ensures forall e :: e in Step(s, a).value.idx.ents && e.Active() ==> e in s.idx.ents
  {
    hide Align4k, Pwrite, SetLen, Find, Without;
    WithoutOk(s.idx, if a.Alloc? then a.name else s.writers[a.w].name);
  }

  // --- generation identifies the index ---

  lemma {:induction false} BaseRun(s: State, acts: seq<Action>)
    requires Inv(s) && Run(s, acts).Some?
    ensures var t := Run(s, acts).value; Base(t) == Base(s) || Base(t).gen > Base(s).gen
  {
    hide Inv, Base, Step;
    if acts != [] {
      var p := acts[..|acts| - 1];
      BaseRun(s, p);
      RunKeeps(s, p);
      BaseStep(Run(s, p).value, acts[|acts| - 1]);
    }
  }

  /** Two reachable states outside compaction with the same generation have the
      same index, whatever happened in between. */
  lemma GenerationIdentifies(s: State, acts: seq<Action>)
    requires Inv(s) && Run(s, acts).Some?
    ensures var t := Run(s, acts).value;
      s.idx.gen <= t.idx.gen
      && (!s.Compacting() && !t.Compacting() && t.idx.gen == s.idx.gen ==> t.idx == s.idx)
  {
    hide Inv;
    BaseRun(s, acts);
    RunKeeps(s, acts);
    BaseGen(s);
    BaseGen(Run(s, acts).value);
  }

  // --- images of one generation ---

  ghost predicate Alike(s: State, a: Img, b: Img) {
    a.gen == b.gen && s.pg <= a.gen && !(AfterMark(s.comp) && a.gen == s.idx.gen) ==> Stored(a) == Stored(b)
  }

  /** In the marked part of a round an image of the current generation shows
      the index as it was frozen or as it is marked. */
  ghost predicate AlikeMarked(s: State, a: Img) {
    AfterMark(s.comp) && s.pg <= a.gen && a.gen == s.idx.gen ==>
      Stored(a) == Stored(s.comp.frozen) || Stored(a) == Stored(s.idx)
  }

  /** Images that recovery could select are well formed, and those of one
      generation differ in Downloading entries at most. */
  ghost predicate GenOk(s: State) {
    && (forall a :: Carried(s, a) && s.pg <= a.gen ==> IdxOk(a))
    && (forall a, b :: Carried(s, a) && Carried(s, b) ==> Alike(s, a, b))
    && (forall a :: Carried(s, a) ==> Alike(s, a, s.idx) && AlikeMarked(s, a))
  }

  /** Inv already says that images beyond the index are Finalize's. */
  lemma CarriedOk(s: State, img: Img)
    requires Inv(s) && Carried(s, img)
    ensures (img.gen <= s.idx.gen || IsNew(s, img)) && (img.gen == s.idx.gen ==> ActivesIn(img.ents, Ref(s)))
    ensures s.pg <= img.gen && (s.comp.Synced? || s.comp.Flipped?) && img.gen > s.idx.gen ==> img == NewImg(s.comp)
  {
    hide IdxOk, WritersOk, ImgSafe, Finalized, MovedHeld;
    if f :| f in s.flushes && !s.flushes[f].Checked? && s.flushes[f].img == img {
      assert FlushOk(s, s.flushes[f]);
    }
  }

  lemma GenStep(s: State, a: Action)
    requires Inv(s) && GenOk(s) && Step(s, a).Some?
    ensures GenOk(Step(s, a).value)
  {
    hide Step, Inv, IdxOk, Carried, Finalized;
    var t := Step(s, a).value;
    StepKeeps(s, a);
    BaseStep(s, a);
    SbStep(s, a);
    BaseGen(s);
    BaseGen(t);
    forall x | Carried(t, x) && t.pg <= x.gen
      ensures IdxOk(x)
    {
      CarriedStep(s, a, x);
      if s.comp.Synced? && x == NewImg(s.comp) {
        SyncedPlan(s);
        FinalizedOk(s.comp.frozen, s.comp.plan, s.comp.bad);
      } else if !Carried(s, x) {
        IdxIsOk(s);
      }
    }
    forall x, y | Carried(t, x) && Carried(t, y)
      ensures Alike(t, x, y)
    {
      GenPair(s, a, x, y);
    }
    forall x | Carried(t, x)
      ensures Alike(t, x, t.idx) && AlikeMarked(t, x)
    {
      GenIdx(s, a, x);
      GenMarked(s, a, x);
    }
  }

  lemma SyncedPlan(s: State)
    requires Inv(s) && s.comp.Synced?
    ensures PlanFor(s.comp.frozen, s.comp.plan)
  {
  }

  lemma IdxIsOk(s: State)
    requires Inv(s)
    ensures IdxOk(s.idx)
  {
  }

  /** Only CompMark enters the part of a round in which the index may show
      entries marked Bad, and only a swap or giving up leaves it. */
  lemma MarkWindow(s: State, a: Action)
    requires Inv(s) && Step(s, a).Some?
    ensures var t := Step(s, a).value;
      AfterMark(t.comp) == (a.CompMark? || (AfterMark(s.comp) && !a.CompSwap? && !a.CompFail?))
      && (a.CompSwap? ==> s.comp.Flipped? && t.pg == t.idx.gen && t.idx == NewImg(s.comp))
      && (a.CompMark? ==> t.idx.gen == s.idx.gen)
      && (a.FlushSnap? ==> t.idx == s.idx && t.comp == s.comp)
  {
    hide Inv, Step, NewImg;
    if MutatorAction(a) {
      MutatorFrame(s, a);
    } else if FlushAction(a) {
      FlushFrame(s, a);
    } else if PersistAction(a) {
      PersistWindow(s, a);
    } else {
      CompWindow(s, a);
    }
  }

  lemma PersistWindow(s: State, a: Action)
    requires PersistAction(a) && Step(s, a).Some?
    ensures AfterMark(Step(s, a).value.comp) == AfterMark(s.comp)
  {
    hide RegionLen, Finalized;
  }

  lemma CompWindow(s: State, a: Action)
    requires Inv(s) && !MutatorAction(a) && !FlushAction(a) && !PersistAction(a) && Step(s, a).Some?
    ensures var t := Step(s, a).value;
      AfterMark(t.comp) == (a.CompMark? || (AfterMark(s.comp) && !a.CompSwap? && !a.CompFail?))
      && (a.CompSwap? ==> s.comp.Flipped? && t.pg == t.idx.gen && t.idx == NewImg(s.comp))
      && (a.CompMark? ==> t.idx.gen == s.idx.gen)
  {
    hide Pwrite, SetLen, MarkBad, Sources, P.PlanOf, Kept, NewEnts, CarriersOk, WritersOk, IdxOk, IdxHeld, MovedHeld,
      AllHeld;
  }

  lemma NewGen(s: State)
    requires Inv(s) && (s.comp.Synced? || s.comp.Flipped?)
    ensures NewImg(s.comp).gen == s.idx.gen + 1
  {
  }

  lemma GenPair(s: State, a: Action, x: Img, y: Img)
    requires Inv(s) && GenOk(s) && Step(s, a).Some?
    requires Carried(Step(s, a).value, x) && Carried(Step(s, a).value, y)
    ensures Alike(Step(s, a).value, x, y)
  {
    hide Step, Inv, IdxOk, Carried, Finalized, Base;
    var t := Step(s, a).value;
    StepKeeps(s, a);
    CarriedOk(t, x);
    CarriedOk(t, y);
    if a.CompSwap? && x.gen == y.gen == t.idx.gen {
      SwapImages(s, a, x);
      SwapImages(s, a, y);
    } else if a.CompFail? && AfterMark(s.comp) {
      FailImages(s, x);
      FailImages(s, y);
    } else if x.gen == y.gen <= t.idx.gen && t.pg <= x.gen && !(AfterMark(t.comp) && x.gen == t.idx.gen) {
      OldPair(s, a, x);
      OldPair(s, a, y);
      SbStep(s, a);
      if Carried(s, x) {
        assert Alike(s, x, s.idx);
        if Carried(s, y) {
          assert Alike(s, x, y);
        }
      } else if Carried(s, y) {
        assert Alike(s, y, s.idx);
      }
    }
  }

  /** An image that is not ahead of the index was carried before or is a
      snapshot of the index, outside the marked part of its generation. */
  lemma OldPair(s: State, a: Action, x: Img)
    requires Inv(s) && Step(s, a).Some? && Carried(Step(s, a).value, x)
    requires var t := Step(s, a).value;
      x.gen <= t.idx.gen && t.pg <= x.gen && !(AfterMark(t.comp) && x.gen == t.idx.gen)
        && !(a.CompSwap? && x.gen == t.idx.gen)
    requires !(a.CompFail? && AfterMark(s.comp))
    ensures Carried(s, x) || x == s.idx
    ensures !(AfterMark(s.comp) && x.gen == s.idx.gen)
  {
    hide Step, Inv, IdxOk, Carried, Finalized;
    var t := Step(s, a).value;
    StepKeeps(s, a);
    MarkWindow(s, a);
    BaseStep(s, a);
    BaseGen(s);
    BaseGen(t);
    CarriedStep(s, a, x);
    if s.comp.Synced? {
      NewGen(s);
    }
  }

  lemma GenIdx(s: State, a: Action, x: Img)
    requires Inv(s) && GenOk(s) && Step(s, a).Some?
    requires Carried(Step(s, a).value, x)
    ensures Alike(Step(s, a).value, x, Step(s, a).value.idx)
  {
    hide Step, Inv, IdxOk, Carried, Finalized;
    var t := Step(s, a).value;
    StepKeeps(s, a);
    if x.gen == t.idx.gen && t.pg <= x.gen && !AfterMark(t.comp) {
      SwapImages(s, a, x);
      if a.CompFail? && AfterMark(s.comp) {
        FailImages(s, x);
      } else if !a.CompSwap? {
        OldPair(s, a, x);
        MarkWindow(s, a);
        BaseStep(s, a);
        SbStep(s, a);
        BaseGen(s);
        BaseGen(t);
        if Carried(s, x) {
          assert Alike(s, x, s.idx);
          CarriedOk(s, x);
        }
      }
    }
  }

  /** Between marking and swap neither the frozen index nor the marked one
      changes. */
  ghost predicate MarkedKept(s: State, a: Action, t: State)
    requires AfterMark(t.comp)
  {
    if a.CompMark? then t.comp.frozen == s.idx && t.idx.gen == s.idx.gen && !AfterMark(s.comp)
    else AfterMark(s.comp) && t.comp.frozen == s.comp.frozen && t.idx == s.idx
  }

  lemma MarkedFrame(s: State, a: Action)
    requires Inv(s) && Step(s, a).Some? && AfterMark(Step(s, a).value.comp)
    ensures MarkedKept(s, a, Step(s, a).value)
  {
    hide Inv, Step, NewImg;
    MarkWindow(s, a);
    if MutatorAction(a) {
      MutatorFrame(s, a);
      MutatorBase(s, a);
      MarkedCompacting(s);
    } else if FlushAction(a) {
      FlushFrame(s, a);
    } else if PersistAction(a) {
      PersistFrame(s, a);
      PersistMarked(s, a);
    } else {
      CompMarked(s, a);
    }
  }

  lemma MarkedCompacting(s: State)
    requires AfterMark(s.comp)
    ensures s.Compacting()
  {
  }

  lemma PersistMarked(s: State, a: Action)
    requires PersistAction(a) && Step(s, a).Some? && AfterMark(s.comp)
    ensures AfterMark(Step(s, a).value.comp) && Step(s, a).value.comp.frozen == s.comp.frozen
  {
    hide RegionLen, Finalized;
  }

  lemma CompMarked(s: State, a: Action)
    requires Inv(s) && !MutatorAction(a) && !FlushAction(a) && !PersistAction(a) && Step(s, a).Some?
    requires AfterMark(Step(s, a).value.comp)
    ensures MarkedKept(s, a, Step(s, a).value)
  {
    hide Pwrite, SetLen, MarkBad, Sources, P.PlanOf, Kept, NewEnts, CarriersOk, WritersOk, IdxOk, IdxHeld, MovedHeld,
      AllHeld;
  }

  lemma GenMarked(s: State, a: Action, x: Img)
    requires Inv(s) && GenOk(s) && Step(s, a).Some?
    requires Carried(Step(s, a).value, x)
    ensures AlikeMarked(Step(s, a).value, x)
  {
    hide Step, Inv, IdxOk, Carried, Stored, Finalized;
    var t := Step(s, a).value;
    if AfterMark(t.comp) && t.pg <= x.gen && x.gen == t.idx.gen {
      MarkedFrame(s, a);
      CarriedStep(s, a, x);
      SbStep(s, a);
      if s.comp.Synced? {
        NewGen(s);
      }
      if Carried(s, x) {
        assert Alike(s, x, s.idx) && AlikeMarked(s, x);
      }
    }
  }

  /** After the swap the images of the new generation are the new index. */
  lemma SwapImages(s: State, a: Action, x: Img)
    requires Inv(s) && Step(s, a).Some? && Carried(Step(s, a).value, x) && x.gen == Step(s, a).value.idx.gen
    ensures a.CompSwap? ==> x == Step(s, a).value.idx
  {
    hide Step, Inv, IdxOk, Carried, Finalized;
    if a.CompSwap? {
      MarkWindow(s, a);
      CarriedStep(s, a, x);
      NewGen(s);
      CarriedOk(s, x);
    }
  }

  /** Giving up where nothing was marked leaves images of the one index. */
  lemma FailImages(s: State, x: Img)
    requires Inv(s) && GenOk(s) && Step(s, CompFail).Some? && AfterMark(s.comp) && Carried(Step(s, CompFail).value, x)
    ensures var t := Step(s, CompFail).value;
      t.pg <= x.gen ==> x.gen == t.idx.gen && t.idx == s.idx && Stored(x) == Stored(s.idx)
  {
    hide Inv, IdxOk, Carried, Stored, Finalized;
    CarriedStep(s, CompFail, x);
    NoneMarked(s);
    GiveUpCarried(s, x);
    assert AlikeMarked(s, x);
  }

  lemma GiveUpCarried(s: State, x: Img)
    requires Inv(s) && Step(s, CompFail).Some? && AfterMark(s.comp) && Carried(Step(s, CompFail).value, x)
    ensures Carried(s, x) && x.gen <= s.idx.gen == s.pg
    ensures Step(s, CompFail).value.idx == s.idx
  {
    hide Inv, Carried;
    assert s.comp.bad == {} && (s.comp.Marked? || s.comp.Synced?) && (s.job.None? || s.job.value.who.ByFlush?);
    CarriedFail(s, x);
    CarriedBelow(s, x);
  }

  lemma CarriedFail(s: State, x: Img)
    requires Step(s, CompFail).Some? && Carried(Step(s, CompFail).value, x)
    ensures Carried(s, x)
  {
    hide MayGiveUp;
  }

  lemma CarriedBelow(s: State, x: Img)
    requires Inv(s) && Carried(s, x)
    requires (s.comp.Marked? || s.comp.Synced?) && (s.job.None? || s.job.value.who.ByFlush?)
    ensures x.gen <= s.idx.gen == s.pg
  {
    hide IdxOk, WritersOk, ImgOk, IdxHeld, Finalized, SlotsOk, PlanFor, MovedHeld;
    NothingNew(s);
    if f :| f in s.flushes && !s.flushes[f].Checked? && s.flushes[f].img == x {
      assert FlushOk(s, s.flushes[f]);
    }
  }

  lemma {:induction false} GenRun(s: State, acts: seq<Action>)
    requires Inv(s) && GenOk(s) && Run(s, acts).Some?
    ensures GenOk(Run(s, acts).value)
  {
    hide Inv, GenOk, Step;
    if acts != [] {
      var p := acts[..|acts| - 1];
      GenRun(s, p);
      RunKeeps(s, p);
      GenStep(Run(s, p).value, acts[|acts| - 1]);
    }
  }

  lemma OpenGen(d: Disk)
    requires StoreOk(d)
    ensures GenOk(Open(d))
  {
    hide IdxOk, Choose, Spare, SetLen, DropDownloading;
    var s, img := Open(d), Recovered(d.hdr).value;
    DropTwice(img.ents);
    assert Stored(s.idx) == Stored(img);
    forall a | Carried(s, a)
      ensures a.gen <= img.gen && (a.gen == img.gen ==> IdxOk(a) && Stored(a) == Stored(img))
    {
    }
    forall a, b | Carried(s, a) && Carried(s, b)
      ensures Alike(s, a, b)
    {
    }
  }

  // --- what a crash leaves ---

  /** The image of the last persist that ran to its end, or the one that the
      session started from. */
  ghost function LastDone(d0: Disk, acts: seq<Action>): Option<Img>
    requires Recovered(d0.hdr).Some?
  {
    if acts == [] then Recovered(d0.hdr)
    else
      var p := acts[..|acts| - 1];
      var s := Run(Open(d0), p);
      if acts[|acts| - 1].PersistDone? && s.Some? && s.value.job.Some? then Some(s.value.job.value.img)
      else LastDone(d0, p)
  }

  lemma ActiveStep(s: State, a: Action)
    requires Inv(s) && Step(s, a).Some?
    ensures var t := Step(s, a).value;
      && s.active < |s.hdr.slots| && t.active < |t.hdr.slots|
      && (if a.PersistDone? then s.job.Some? && t.hdr.slots[t.active].img == Some(s.job.value.img)
          else t.hdr.slots[t.active] == s.hdr.slots[s.active])
  {
    hide Step, Inv;
    if MutatorAction(a) {
      MutatorFrame(s, a);
      MutatorActive(s, a);
    } else if FlushAction(a) {
      FlushFrame(s, a);
      FlushActive(s, a);
    } else if PersistAction(a) {
      PersistActive(s, a);
    } else {
      CompFrame(s, a);
      CompActive(s, a);
    }
    ActiveInside(s);
  }

  lemma ActiveInside(s: State)
    requires Inv(s)
    ensures s.active < |s.hdr.slots|
  {
    hide IdxOk, IdxHeld, WritersOk, CompOk, CarriersOk;
  }

  lemma MutatorActive(s: State, a: Action)
    requires MutatorAction(a) && Step(s, a).Some?
    ensures Step(s, a).value.active == s.active
  {
    hide Align4k, Find, Pwrite, SetLen, Mix, Crc32;
  }

  lemma FlushActive(s: State, a: Action)
    requires FlushAction(a) && Step(s, a).Some?
    ensures Step(s, a).value.active == s.active
  {
  }

  lemma CompActive(s: State, a: Action)
    requires !MutatorAction(a) && !FlushAction(a) && !PersistAction(a) && Step(s, a).Some?
    ensures Step(s, a).value.active == s.active
  {
    hide Pwrite, SetLen, Finalized, MarkBad, Sources, P.PlanOf;
  }

  lemma PersistActive(s: State, a: Action)
    requires Inv(s) && PersistAction(a) && Step(s, a).Some?
    ensures var t := Step(s, a).value;
      && s.active < |s.hdr.slots| && t.active < |t.hdr.slots|
      && (if a.PersistDone? then s.job.Some? && t.hdr.slots[t.active].img == Some(s.job.value.img)
          else t.hdr.slots[t.active] == s.hdr.slots[s.active])
  {
    hide IdxOk, IdxHeld, WritersOk, CompOk, CarriersOk, Finalized, RegionLen;
  }

  /** The slot in use holds what the last finished persist wrote. */
  lemma {:induction false} ActiveIsLastDone(d0: Disk, acts: seq<Action>)
    requires StoreOk(d0) && Run(Open(d0), acts).Some?
    ensures var s := Run(Open(d0), acts).value;
      s.active < |s.hdr.slots| && s.hdr.slots[s.active].img == LastDone(d0, acts) && LastDone(d0, acts).Some?
  {
    hide Inv, Step;
    if acts != [] {
      var p := acts[..|acts| - 1];
      ActiveIsLastDone(d0, p);
      OpenIsGood(d0);
      RunKeeps(Open(d0), p);
      ActiveStep(Run(Open(d0), p).value, acts[|acts| - 1]);
    }
  }

  /** Atomicity of persistence: after a crash the next open takes over the
      image of the last persist that ran to its end, entry by entry and up to
      Downloading entries, or that of a persist in flight. In the marked part
      of a round (from Bad marking to the swap) it may also be the index as
      that round froze or marked it, under the same generation. */
  lemma CrashAtomicity(d0: Disk, acts: seq<Action>, s: State, d: Disk)
    requires StoreOk(d0) && Run(Open(d0), acts) == Some(s) && Crash(s, d)
    ensures Recovered(d.hdr).Some? && LastDone(d0, acts).Some?
    ensures var idx := Open(d).idx;
      || idx == Stored(LastDone(d0, acts).value)
      || (s.job.Some? && idx == Stored(s.job.value.img))
      || (AfterMark(s.comp) && (idx == Stored(s.comp.frozen) || idx == Stored(s.idx)))
  {
    hide Step, Stored, GenOk, Inv;
    var s0 := Open(d0);
    OpenIsGood(d0);
    OpenGen(d0);
    RunKeeps(s0, acts);
    GenRun(s0, acts);
    CrashSelects(s, d.hdr);
    ActiveIsLastDone(d0, acts);
    var img := Recovered(d.hdr).value;
    if s.job.None? || img != s.job.value.img {
      SelectedIsLast(s, img);
    }
  }

  lemma SelectedIsLast(s: State, img: Img)
    requires Inv(s) && GenOk(s) && s.pg <= img.gen && (s.job.None? || img != s.job.value.img)
    requires exists i :: 0 <= i < |s.hdr.slots| && s.hdr.slots[i].img == Some(img)
    ensures img.gen == s.pg && s.active < |s.hdr.slots| && s.hdr.slots[s.active].img.Some?
    ensures || Stored(img) == Stored(s.hdr.slots[s.active].img.value)
            || (AfterMark(s.comp) && (Stored(img) == Stored(s.comp.frozen) || Stored(img) == Stored(s.idx)))
  {
    hide IdxOk, WritersOk, ImgOk, CompOk, IdxHeld, Stored;
    var last := s.hdr.slots[s.active].img.value;
    assert Carried(s, img) && Carried(s, last);
    assert Alike(s, img, last) && AlikeMarked(s, img);
  }

  /** A crash outside a persist and outside the marked part of a round leaves a
      disk from which a next session may start, with exactly what the last
      finished persist wrote; so does closing there. */
  lemma CrashReopens(d0: Disk, acts: seq<Action>, s: State, d: Disk)
    requires StoreOk(d0) && Run(Open(d0), acts) == Some(s) && Crash(s, d)
    requires s.job.None? && !AfterMark(s.comp)
    ensures StoreOk(d)
    ensures LastDone(d0, acts).Some? && Open(d).idx == Stored(LastDone(d0, acts).value)
  {
    hide Step, Mix, IdxOk, Stored;
    var s0 := Open(d0);
    OpenIsGood(d0);
    OpenGen(d0);
    RunKeeps(s0, acts);
    GenRun(s0, acts);
    CrashSelects(s, d.hdr);
    ActiveIsLastDone(d0, acts);
    var img := Recovered(d.hdr).value;
    assert Carried(s, img);
    SelectedIsLast(s, img);
    forall i | 0 <= i < |s.hdr.slots| && s.hdr.slots[i].img.Some?
      ensures var o := s.hdr.slots[i].img.value;
        o.gen <= img.gen && (o.gen == img.gen ==> IdxOk(o) && Stored(o) == Stored(img))
    {
      var o := s.hdr.slots[i].img.value;
      assert Carried(s, o);
      assert Alike(s, o, img);
    }
    forall e | e in img.ents && e.Active()
      ensures Holds(d.data, e.offset, e.body)
    {
      assert EntSafe(s, e, true);
      MixHolds(s.dur, s.vol, d.data, e.offset, e.body);
    }
  }

  // --- whose bytes ---

  /** The commit that an action performs, as a name and the bytes its writer
      had written. */
  ghost function CommitOf(s: State, a: Action): set<(Name, seq<u8>)> {
    if a.Commit? && a.w in s.writers then {(s.writers[a.w].name, s.writers[a.w].body)} else {}
  }

  ghost function Commits(s: State, acts: seq<Action>): set<(Name, seq<u8>)>
    requires Run(s, acts).Some?
  {
    if acts == [] then {}
    else
      var p := acts[..|acts| - 1];
      Commits(s, p) + CommitOf(Run(s, p).value, acts[|acts| - 1])
  }

  /** What the regions of a disk already know. */
  ghost function OnDisk(h: Header): set<(Name, seq<u8>)> {
    set i, e | 0 <= i < |h.slots| && h.slots[i].img.Some? && e in h.slots[i].img.value.ents && e.Active() ::
      (e.name, e.body)
  }

  ghost predicate ImgKnown(img: Img, h: set<(Name, seq<u8>)>) {
    forall e :: e in img.ents && e.Active() ==> (e.name, e.body) in h
  }

  ghost predicate Known(s: State, h: set<(Name, seq<u8>)>) {
    && ImgKnown(s.idx, h) && ImgKnown(Base(s), h)
    && forall img :: Carried(s, img) ==> ImgKnown(img, h)
  }

  lemma NewImgKnown(frozen: Img, c: Comp, h: set<(Name, seq<u8>)>)
    requires (c.Synced? || c.Flipped?) && c.frozen == frozen && PlanFor(frozen, c.plan) && ImgKnown(frozen, h)
    ensures ImgKnown(NewImg(c), h)
  {
    hide Kept, Sources;
    var n, pos := NewImg(c), KeptPos(c.plan.items, c.bad);
    forall e | e in n.ents && e.Active()
      ensures (e.name, e.body) in h
    {
      var i :| 0 <= i < |n.ents| && n.ents[i] == e;
      var k := ItemEnt(frozen, c.plan, pos[i]);
      assert frozen.ents[k] in frozen.ents;
    }
  }

  lemma KnownStep(s: State, a: Action, h: set<(Name, seq<u8>)>)
    requires Inv(s) && Step(s, a).Some? && Known(s, h)
    ensures Known(Step(s, a).value, h + CommitOf(s, a))
  {
    hide Step, Inv, Carried, Finalized, PlanFor;
    var t := Step(s, a).value;
    var g := h + CommitOf(s, a);
    StepKeeps(s, a);
    BaseStep(s, a);
    RoundPlan(s);
    if s.comp.Synced? || s.comp.Flipped? {
      NewImgKnown(s.comp.frozen, s.comp, h);
    }
    assert ImgKnown(Base(t), g);
    MarkedKnown(t, g);
    forall img | Carried(t, img)
      ensures ImgKnown(img, g)
    {
      CarriedStep(s, a, img);
    }
  }

  lemma RoundPlan(s: State)
    requires Inv(s)
    ensures HasPlan(s.comp) ==> PlanFor(s.comp.frozen, s.comp.plan)
  {
    hide PlanFor;
  }

  lemma MarkedKnown(s: State, h: set<(Name, seq<u8>)>)
    requires Inv(s) && ImgKnown(Base(s), h)
    ensures ImgKnown(s.idx, h)
  {
    hide IdxOk, ImgOk, WritersOk;
    if AfterMark(s.comp) {
      forall e | e in s.idx.ents && e.Active()
        ensures (e.name, e.body) in h
      {
        var k :| 0 <= k < |s.idx.ents| && s.idx.ents[k] == e;
        assert s.comp.frozen.ents[k] in s.comp.frozen.ents;
      }
    }
  }

  lemma {:induction false} KnownRun(s: State, acts: seq<Action>, h: set<(Name, seq<u8>)>)
    requires Inv(s) && Run(s, acts).Some? && Known(s, h)
    ensures Known(Run(s, acts).value, h + Commits(s, acts))
  {
    hide Inv, Known, Step, CommitOf;
    if acts == [] {
      assert h + Commits(s, acts) == h;
    } else {
      var p := acts[..|acts| - 1];
      KnownRun(s, p, h);
      RunKeeps(s, p);
      KnownStep(Run(s, p).value, acts[|acts| - 1], h + Commits(s, p));
      assert h + Commits(s, acts) == h + Commits(s, p) + CommitOf(Run(s, p).value, acts[|acts| - 1]);
    }
  }

  /** The bytes recovered under a name are bytes committed under that name, in
      this run or as a region of the disk it started from recorded. */
  lemma RecoveredWereCommitted(d0: Disk, acts: seq<Action>, s: State, d: Disk, e: Ent)
    requires StoreOk(d0) && Run(Open(d0), acts) == Some(s) && Crash(s, d)
    requires Recovered(d.hdr).Some? && e in Recovered(d.hdr).value.ents && e.Active()
    ensures (e.name, e.body) in OnDisk(d0.hdr) + Commits(Open(d0), acts)
    ensures Holds(d.data, e.offset, e.body)
  {
    hide Step, Inv, Choose, Spare, IdxOk;
    var s0 := Open(d0);
    OpenIsGood(d0);
    assert Known(s0, OnDisk(d0.hdr));
    KnownRun(s0, acts, OnDisk(d0.hdr));
    RunKeeps(s0, acts);
    CrashSelects(s, d.hdr);
    assert Carried(s, Recovered(d.hdr).value);
    CrashConsistency(d0, acts, s, d);
    assert e in Open(d).idx.ents;
  }

  /** In every reachable state the spans of all entries add up to at most the
      logical size, and the difference is the number of bytes in no span. */
  lemma SpansAddUp(d0: Disk, acts: seq<Action>, s: State)
    requires StoreOk(d0) && Run(Open(d0), acts) == Some(s)
    ensures SpansInside(s.idx.ents, s.idx.logical)
    ensures A.SumAll(s.idx.ents) <= s.idx.logical
    ensures s.idx.logical - A.SumAll(s.idx.ents) == |A.Bytes(0, s.idx.logical) - A.Covered(s.idx.ents)|
  {
    hide Inv, Step, IdxOk, Align4k;
    OpenIsGood(d0);
    RunKeeps(Open(d0), acts);
    IdxIsOk(s);
    LaidOut(s.idx);
    A.GarbageIsUncovered(s.idx.ents, s.idx.logical);
  }

  lemma LaidOut(idx: Img)
    requires IdxOk(idx)
    ensures SpansInside(idx.ents, idx.logical)
  {
  }

  // --- changes without a new generation ---

  /** Marking bad entries does not move the generation. A compaction that gives
      up after it leaves the container open again, under the generation that
      the unmarked index had. */
  lemma MarkingIsSilent(s0: State, acts: seq<Action>, s: State, e: Ent)
    requires Inv(s0) && !s0.Compacting() && Run(s0, acts) == Some(s) && s.comp.Marked? && s.idx.gen == s0.idx.gen
    requires e in s0.idx.ents && e.Active() && e.name in s.comp.bad
    ensures var t := s.(comp := Idle);
      !t.Compacting() && t.idx.gen == s0.idx.gen && e !in t.idx.ents && e.(state := ST_BAD) in t.idx.ents
  {
    hide Inv;
    BaseRun(s0, acts);
    RunKeeps(s0, acts);
    BaseGen(s0);
    BaseGen(s);
    MarkedEnt(s, e);
  }

  lemma MarkedEnt(s: State, e: Ent)
    requires Inv(s) && s.comp.Marked? && e in s.comp.frozen.ents && e.Active() && e.name in s.comp.bad
    ensures e !in s.idx.ents && e.(state := ST_BAD) in s.idx.ents
  {
    hide ImgOk, CarriersOk, HeaderOk, WritersOk, IdxHeld, AllHeld, Finalized, PlanFor;
    var k :| 0 <= k < |s.comp.frozen.ents| && s.comp.frozen.ents[k] == e;
    assert s.idx.ents[k] == e.(state := ST_BAD);
  }

  /** Undoing an alloc whose own handle could not be opened removes the entry
      but keeps the generation that announced it: a reader who came in between
      saw another index under that generation. */
  lemma FailedOpenIsSilent(s: State, w: nat, name: Name, size: nat)
    requires Step(s, Alloc(w, name, size)).Some?
    ensures var t := Step(s, Alloc(w, name, size)).value;
      var u := t.(idx := t.idx.(ents := Without(t.idx.ents, name)), writers := t.writers - {w});
      !t.Compacting() && !u.Compacting() && u.idx.gen == t.idx.gen && u.idx != t.idx && u.writers == s.writers
  {
    hide Find, Align4k, SetLen;
    var t := Step(s, Alloc(w, name, size)).value;
    assert t.idx.ents[|t.idx.ents| - 1].name == name;
  }
}
