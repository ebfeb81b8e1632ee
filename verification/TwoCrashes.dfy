/** A flush that nobody disturbs, and two crashes that together lose one: the
    first leaves a slot of a generation that the SuperBlock does not name, the
    second session reaches the same generation with another index. */
module TwoCrashes {
  import opened Crc
  import opened Wrappers
  import opened Spans
  import opened Files
  import opened Format
  import opened Entries
  import opened Recovery
  import opened Store
  import opened StoreInv
  import opened StoreSafety
  import opened Reopen

  lemma {:induction false} RunConcat(s: State, a: seq<Action>, b: seq<Action>)
    requires Run(s, a).Some?
    ensures Run(s, a + b) == Run(Run(s, a).value, b)
  {
    hide Step;
    if b == [] {
      assert a + b == a;
    } else {
      RunConcat(s, a, b[..|b| - 1]);
      assert (a + b)[..|a + b| - 1] == a + b[..|b| - 1];
    }
  }

  lemma RunOne(s: State, a: Action)
    ensures Run(s, [a]) == Step(s, a)
  {
    hide Step;
    assert [a][..0] == [];
    assert Run(s, []) == Some(s);
  }

  // --- a flush that nobody disturbs ---

  ghost predicate MayFlush(s: State, f: nat) {
    f != 0 && f !in s.flushes && !s.Compacting() && s.job.None? && s.pg <= s.idx.gen
  }

  ghost function ToSync(f: nat): seq<Action> {
    [FlushCheck(f), FlushSnap(f), FlushSync(f), PersistStart(ByFlush(f)), PersistSync]
  }

  ghost function ToDone(f: nat): seq<Action> {
    ToSync(f) + [PersistPatch, PersistDone]
  }

  /** The region of the index is on disk, the SuperBlock still names the old one. */
  ghost function SlotWritten(s: State, f: nat): State {
    s.(flushes := s.flushes[f := DataSynced(s.idx)], dur := s.vol,
       job := Some(Job(ByFlush(f), s.idx, Dest(s, s.idx), HeaderSynced)),
       hdr := s.hdr.(slots := PutSlot(s.hdr.slots, Dest(s, s.idx), Slot(RegionLen(s.idx), Some(s.idx)))))
  }

  ghost function Flushed(s: State, f: nat): State {
    s.(dur := s.vol, active := Dest(s, s.idx), inactive := Some(s.active), pg := s.idx.gen,
       hdr := Header(Some(s.idx.gen), PutSlot(s.hdr.slots, Dest(s, s.idx), Slot(RegionLen(s.idx), Some(s.idx)))))
  }

  lemma RunSnoc(s: State, a: seq<Action>, x: Action)
    requires Run(s, a).Some?
    ensures Run(s, a + [x]) == Step(Run(s, a).value, x)
  {
    hide Step;
    assert (a + [x])[..|a|] == a;
  }

  lemma FlushToData(s: State, f: nat)
    requires MayFlush(s, f)
    ensures Run(s, [FlushCheck(f), FlushSnap(f), FlushSync(f)])
         == Some(s.(flushes := s.flushes[f := DataSynced(s.idx)], dur := s.vol))
  {
    hide DoPersist, DoComp;
    var a := [FlushCheck(f), FlushSnap(f), FlushSync(f)];
    assert a[..1] == [a[0]] && a[..2] == a[..1] + [a[1]] && a == a[..2] + [a[2]];
    RunOne(s, a[0]);
    RunSnoc(s, a[..1], a[1]);
    RunSnoc(s, a[..2], a[2]);
    var one := s.(flushes := s.flushes[f := Checked]);
    assert Run(s, a[..1]) == Some(one);
    var two := one.(flushes := one.flushes[f := Snapped(s.idx)]);
    assert Run(s, a[..2]) == Some(two);
    assert two.flushes[f := DataSynced(s.idx)] == s.flushes[f := DataSynced(s.idx)];
  }

  lemma FlushToSync(s: State, f: nat)
    requires MayFlush(s, f)
    ensures Run(s, ToSync(f)) == Some(SlotWritten(s, f))
  {
    hide RegionLen, DoFlush, DoComp;
    var a := [FlushCheck(f), FlushSnap(f), FlushSync(f)];
    FlushToData(s, f);
    var three := s.(flushes := s.flushes[f := DataSynced(s.idx)], dur := s.vol);
    RunSnoc(s, a, PersistStart(ByFlush(f)));
    var four := three.(job := Some(Job(ByFlush(f), s.idx, Dest(s, s.idx), Wrote)));
    assert Step(three, PersistStart(ByFlush(f))) == Some(four);
    RunSnoc(s, a + [PersistStart(ByFlush(f))], PersistSync);
    assert ToSync(f) == a + [PersistStart(ByFlush(f))] + [PersistSync];
  }

  lemma FlushToDone(s: State, f: nat)
    requires MayFlush(s, f)
    ensures Run(s, ToDone(f)) == Some(Flushed(s, f))
  {
    hide RegionLen, ToSync, DoFlush, DoComp;
    FlushToSync(s, f);
    var a := ToSync(f);
    RunSnoc(s, a, PersistPatch);
    RunSnoc(s, a + [PersistPatch], PersistDone);
    assert ToDone(f) == a + [PersistPatch] + [PersistDone];
    assert SlotWritten(s, f).flushes - {f} == s.flushes;
  }

  // --- two crashes ---

  lemma {:induction false} NameBytesSame(a: seq<Ent>, b: seq<Ent>)
    requires |a| == |b| && forall i :: 0 <= i < |a| ==> a[i].name == b[i].name
    ensures NameBytes(a) == NameBytes(b)
  {
    if a != [] {
      NameBytesSame(a[..|a| - 1], b[..|b| - 1]);
    }
  }

  lemma MixSelf(dur: seq<u8>, vol: seq<u8>)
    ensures Mix(dur, vol, dur)
  {
  }

  /** The index of a disk of one slot, after a new name is allocated. */
  ghost function WithNew(idx: Img, name: Name, size: nat): Img {
    var off := Align4k(idx.logical);
    Img(idx.gen + 1, off + Align4k(size), idx.ents + [Ent(name, ST_DOWNLOADING, off, size, 0, [])])
  }

  ghost function WithDeleted(idx: Img, i: nat): Img
    requires i < |idx.ents|
  {
    idx.(gen := idx.gen + 1, ents := idx.ents[i := idx.ents[i].(state := ST_DELETED)])
  }

  ghost function SlotWith(img: Img): Slot { Slot(RegionLen(img), Some(img)) }

  ghost predicate OneSlot(d: Disk) {
    StoreOk(d) && |d.hdr.slots| == 1
  }

  lemma OpenOne(d0: Disk)
    requires OneSlot(d0)
    ensures Recovered(d0.hdr).Some? && |d0.hdr.slots| == 1
    ensures var s := Open(d0);
      && s.hdr == d0.hdr && s.active == 0 && s.inactive == None && s.pg == s.idx.gen && s.hdr.sb == Some(s.pg)
      && s.writers == map[] && s.flushes == map[] && s.comp.Idle? && s.job.None?
      && SlotGen(d0.hdr.slots[0]) == Some(s.pg)
      && s.idx == Stored(d0.hdr.slots[0].img.value)
    ensures IdxOk(Open(d0).idx)
  {
    hide Choose, DropDownloading, SetLen;
    assert Spare(d0.hdr.slots, 0, 0) == None && Spare(d0.hdr.slots, 1, 0) == None;
    assert Choose(d0.hdr.sb, SlotGens(d0.hdr.slots)) == Some(0);
    OpenIsGood(d0);
    GoodIndex(Open(d0));
  }

  lemma GoodIndex(s: State)
    requires Inv(s)
    ensures IdxOk(s.idx)
  {
  }

  /** The first session: the region of the new index is synced, then the crash. */
  lemma FirstSession(d0: Disk, name: Name, size: nat) returns (acts: seq<Action>, d: Disk)
    requires OneSlot(d0) && 0 < |name| <= MAX_NAME && Find(Open(d0).idx.ents, name).None?
    requires WithNew(Open(d0).idx, name, size).logical < TWO64
    ensures Run(Open(d0), acts).Some? && Crash(Run(Open(d0), acts).value, d)
    ensures d.hdr == d0.hdr.(slots := d0.hdr.slots + [SlotWith(WithNew(Open(d0).idx, name, size))])
  {
    hide Open, OneSlot, RegionLen, Align4k, Find, SetLen, Mix, ToSync, Stored;
    OpenOne(d0);
    var s := Open(d0);
    var t := DoAlloc(s, 0, name, size).value;
    assert t.idx == WithNew(s.idx, name, size);
    RunOne(s, Alloc(0, name, size));
    FlushToSync(t, 1);
    acts := [Alloc(0, name, size)] + ToSync(1);
    RunConcat(s, [Alloc(0, name, size)], ToSync(1));
    var u := SlotWritten(t, 1);
    d := Disk(u.hdr, u.dur);
    MixSelf(u.dur, u.vol);
  }

  /** What the second session starts from: the old index, with the orphan as
      its spare slot. */
  lemma OpenOrphan(d0: Disk, d1: Disk, orphan: Img)
    requires OneSlot(d0) && d1.hdr == d0.hdr.(slots := d0.hdr.slots + [SlotWith(orphan)])
    requires orphan.gen == Open(d0).idx.gen + 1
    ensures Recovered(d1.hdr).Some?
    ensures var s := Open(d1);
      && s.hdr == d1.hdr && s.active == 0 && s.inactive == Some(1) && s.pg == s.idx.gen && s.idx == Open(d0).idx
      && s.writers == map[] && s.flushes == map[] && s.comp.Idle? && s.job.None?
  {
    hide Choose, Stored, SetLen, RegionLen, OneSlot, Recovered;
    OpenOne(d0);
    var h := d1.hdr;
    assert h.slots[0] == d0.hdr.slots[0] && h.slots[1] == SlotWith(orphan);
    FirstSlotWins(h, 0);
    var gens := SlotGens(h.slots);
    ChooseSpec(h.sb, gens);
    assert gens[0] == SlotGen(h.slots[0]) && gens[1] == SlotGen(h.slots[1]);
    assert Choose(h.sb, gens) == Some(0);
    assert Spare(h.slots, 0, 0) == None && Spare(h.slots, 1, 0) == None;
  }

  /** The second session: an entry is deleted, and the flush runs to its end. */
  lemma SecondSession(s: State, i: nat) returns (acts: seq<Action>, d: Disk)
    requires i < |s.idx.ents| && s.idx.ents[i].Active() && Find(s.idx.ents, s.idx.ents[i].name) == Some(i)
    requires MayFlush(s, 1) && s.pg == s.idx.gen && s.active == 0 && s.inactive == Some(1) && |s.hdr.slots| == 2
    requires s.hdr.slots[1].len > RegionLen(s.idx)
    ensures Run(s, acts) == Some(Flushed(s.(idx := WithDeleted(s.idx, i)), 1)) && Crash(Run(s, acts).value, d)
    ensures d.hdr == Header(Some(s.idx.gen + 1), s.hdr.slots + [SlotWith(WithDeleted(s.idx, i))])
  {
    hide RegionLen, Find, Mix, ToDone, Step, Run;
    var name := s.idx.ents[i].name;
    var t := s.(idx := WithDeleted(s.idx, i));
    RunOne(s, Delete(name));
    DeleteStep(s, i);
    FlushToDone(t, 1);
    acts := [Delete(name)] + ToDone(1);
    RunConcat(s, [Delete(name)], ToDone(1));
    DeletedLen(s.idx, i);
    var u := Flushed(t, 1);
    d := Disk(u.hdr, u.dur);
    MixSelf(u.dur, u.vol);
  }

  lemma DeleteStep(s: State, i: nat)
    requires i < |s.idx.ents| && s.idx.ents[i].Active() && Find(s.idx.ents, s.idx.ents[i].name) == Some(i)
    requires !s.Compacting()
    ensures Step(s, Delete(s.idx.ents[i].name)) == Some(s.(idx := WithDeleted(s.idx, i)))
  {
    hide Find;
  }

  lemma DeletedLen(idx: Img, i: nat)
    requires i < |idx.ents|
    ensures RegionLen(WithDeleted(idx, i)) == RegionLen(idx)
  {
    NameBytesSame(idx.ents, WithDeleted(idx, i).ents);
  }

  lemma NewLen(idx: Img, name: Name, size: nat)
    ensures RegionLen(WithNew(idx, name, size)) > RegionLen(idx)
  {
    var n := WithNew(idx, name, size).ents;
    assert n[..|n| - 1] == idx.ents;
  }

  /** On any disk of one slot with an Active entry: session 1 allocates a new
      name, flushes and crashes in front of the flip; session 2 deletes the
      entry, and its flush runs to the end. The next open shows the entry. */
  lemma TwoCrashesLoseAFlush(d0: Disk, e: Ent, name: Name, size: nat)
    returns (acts1: seq<Action>, d1: Disk, acts2: seq<Action>, s2: State, d2: Disk)
    requires OneSlot(d0) && e in Open(d0).idx.ents && e.Active()
    requires 0 < |name| <= MAX_NAME && Find(Open(d0).idx.ents, name).None?
    requires WithNew(Open(d0).idx, name, size).logical < TWO64
    ensures Run(Open(d0), acts1).Some? && Crash(Run(Open(d0), acts1).value, d1)
    ensures Recovered(d1.hdr).Some? && Run(Open(d1), acts2) == Some(s2) && Crash(s2, d2)
    ensures s2.job.None? && s2.active < |s2.hdr.slots| && s2.hdr.slots[s2.active].img == Some(s2.idx)
    ensures e !in s2.idx.ents
    ensures Recovered(d2.hdr).Some? && e in Open(d2).idx.ents
  {
    hide Open, Run, RegionLen, Find, Crash, Recovered, IdxOk, OneSlot;
    acts1, d1 := FirstSession(d0, name, size);
    OpenOne(d0);
    var idx := Open(d0).idx;
    var orphan := WithNew(idx, name, size);
    OpenOrphan(d0, d1, orphan);
    var i := IndexOf(idx, e);
    NewLen(idx, name, size);
    acts2, d2 := SecondSession(Open(d1), i);
    s2 := Flushed(Open(d1).(idx := WithDeleted(idx, i)), 1);
    DeletedGone(idx, i);
    FirstSlotWins(d2.hdr, 1);
    OpenShows(d2, orphan, e);
  }

  lemma IndexOf(idx: Img, e: Ent) returns (i: nat)
    requires IdxOk(idx) && e in idx.ents
    ensures i < |idx.ents| && idx.ents[i] == e && Find(idx.ents, e.name) == Some(i)
  {
    i := FindIn(idx.ents, e);
  }

  lemma DeletedGone(idx: Img, i: nat)
    requires IdxOk(idx) && i < |idx.ents| && idx.ents[i].Active()
    ensures idx.ents[i] !in WithDeleted(idx, i).ents
  {
  }

  lemma OpenShows(d: Disk, img: Img, e: Ent)
    requires Recovered(d.hdr) == Some(img) && e in img.ents && e.Active()
    ensures e in Open(d).idx.ents
  {
    hide SetLen, Spare;
  }
}
