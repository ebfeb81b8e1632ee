/** What the store gets done: from alloc to commit no well-formed download is
    refused, and a compaction that nobody disturbs ends within eight rounds with
    exactly the files that were found good. */
module StoreRuns {
  import opened Crc
  import opened Wrappers
  import opened Spans
  import opened Files
  import opened Format
  import opened Entries
  import opened Recovery
  import opened Store
  import opened StoreInv
  import opened PlanFacts
  import opened StoreSteps
  import opened StoreSafety
  import opened TwoCrashes
  import opened StoreKeeps
  import P = Planner

  lemma RunCons(s: State, a: Action, rest: seq<Action>)
    requires Step(s, a).Some?
    ensures Run(s, [a] + rest) == Run(Step(s, a).value, rest)
  {
    hide Step;
    RunOne(s, a);
    RunConcat(s, [a], rest);
  }

  // --- the copies of one round ---

  lemma SourceInside(s: State)
    requires Inv(s) && s.comp.Moving? && s.comp.k < |s.comp.plan.items|
    ensures var i := s.comp.plan.items[s.comp.k]; s.comp.done <= i.size && (i.size > 0 ==> i.oldOff + i.size <= |s.vol|)
  {
    hide PlanFor, WritersOk, HeaderOk, CarriersOk, Crc32, IdxOk, BodyOf, P.PlanOf, Sources;
    var k := ItemEnt(s.comp.frozen, s.comp.plan, s.comp.k);
    var e := s.idx.ents[k];
    assert MovedHeld(s.vol, s.comp);
    assert e in s.idx.ents && Holds(s.vol, e.offset, e.body);
  }

  lemma {:induction false} CopyItem(s: State) returns (acts: seq<Action>, t: State)
    requires Inv(s) && s.comp.Moving? && s.comp.k < |s.comp.plan.items|
    ensures Run(s, acts) == Some(t) && Inv(t)
    ensures t == s.(comp := s.comp.(done := s.comp.plan.items[s.comp.k].size), vol := t.vol)
    decreases s.comp.plan.items[s.comp.k].size - s.comp.done
  {
    hide Inv, Step, Pwrite;
    SourceInside(s);
    var left := s.comp.plan.items[s.comp.k].size - s.comp.done;
    if left == 0 {
      acts, t := [], s;
    } else {
      var n := if left < CHUNK then left else CHUNK;
      var one := CopyOne(s, n);
      acts, t := CopyItem(one);
      RunCons(s, CompCopy(n), acts);
      acts := [CompCopy(n)] + acts;
    }
  }

  lemma CopyOne(s: State, n: nat) returns (t: State)
    requires Inv(s) && s.comp.Moving? && s.comp.k < |s.comp.plan.items|
    requires 0 < n <= CHUNK && s.comp.done + n <= s.comp.plan.items[s.comp.k].size
    ensures Step(s, CompCopy(n)) == Some(t) && Inv(t)
    ensures t == s.(comp := s.comp.(done := s.comp.done + n), vol := t.vol)
  {
    hide Inv, Pwrite;
    SourceInside(s);
    t := DoComp(s, CompCopy(n)).value;
    StepKeeps(s, CompCopy(n));
  }

  function BadFrom(items: seq<P.PlanItem>, k: nat, bad: set<Name>): set<Name> {
    set i | k <= i < |items| && items[i].name in bad :: items[i].name
  }

  lemma BadStep(items: seq<P.PlanItem>, k: nat, bad: set<Name>)
    requires k < |items|
    ensures BadFrom(items, k, bad)
      == BadFrom(items, k + 1, bad) + (if items[k].name in bad then {items[k].name} else {})
  {
  }

  lemma {:induction false} CopyRest(s: State, bad: set<Name>) returns (acts: seq<Action>, t: State)
    requires Inv(s) && s.comp.Moving? && s.comp.k <= |s.comp.plan.items| && s.comp.done == 0
    ensures Run(s, acts) == Some(t) && Inv(t)
    ensures var items := s.comp.plan.items;
      t == s.(comp := s.comp.(k := |items|, bad := s.comp.bad + BadFrom(items, s.comp.k, bad)), vol := t.vol)
    decreases |s.comp.plan.items| - s.comp.k
  {
    hide Inv, Step;
    var items, k := s.comp.plan.items, s.comp.k;
    if k == |items| {
      assert BadFrom(items, k, bad) == {};
      acts, t := [], s;
    } else {
      var copies, c := CopyItem(s);
      var isBad := items[k].name in bad;
      var next := NextOne(c, isBad);
      var more, u := CopyRest(next, bad);
      BadStep(items, k, bad);
      RunConcat(s, copies, [CompNext(isBad)] + more);
      RunCons(c, CompNext(isBad), more);
      acts, t := copies + ([CompNext(isBad)] + more), u;
      assert t.comp.bad == s.comp.bad + BadFrom(items, k, bad);
    }
  }

  lemma NextOne(s: State, isBad: bool) returns (t: State)
    requires Inv(s) && s.comp.Moving? && s.comp.k < |s.comp.plan.items|
    requires s.comp.done == s.comp.plan.items[s.comp.k].size
    ensures Step(s, CompNext(isBad)) == Some(t) && Inv(t)
    ensures var name := s.comp.plan.items[s.comp.k].name;
      t == s.(comp := s.comp.(k := s.comp.k + 1, done := 0, bad := if isBad then s.comp.bad + {name} else s.comp.bad))
  {
    hide Inv;
    t := DoComp(s, CompNext(isBad)).value;
    StepKeeps(s, CompNext(isBad));
  }

  // --- Finalize ---

  /** From the end of the copies to the swap. */
  ghost function ToSwap(reserve: nat): seq<Action> {
    [CompMark, CompSync, PersistStart(ByFinal), PersistSync, PersistPatch, PersistDone, CompTrim(reserve), CompSwap]
  }

  /** A round is over: the new index is in memory and in the slot in use. */
  ghost predicate RoundOver(s: State, t: State, round: nat, plan: P.Plan, bad: set<Name>) {
    && t.idx == Finalized(s.idx, plan, bad) && t.pg == t.idx.gen
    && t.hdr.sb == Some(t.pg) && t.active < |t.hdr.slots| && t.hdr.slots[t.active].img == Some(t.idx)
    && t.job.None? && t.writers == s.writers && t.flushes == s.flushes
    && t.comp == (if (!plan.excludedAny && bad == {}) || round + 1 == MAX_ROUNDS then Idle else ReadyScan(round + 1))
  }

  lemma Marking(s: State) returns (t: State)
    requires Inv(s) && s.comp.Moving? && s.comp.k == |s.comp.plan.items| && s.job.None?
    ensures Run(s, [CompMark, CompSync]) == Some(t) && Inv(t) && s.idx == s.comp.frozen && s.pg == s.idx.gen
    ensures t == s.(idx := t.idx, dur := s.vol, comp := Synced(s.comp.round, s.comp.frozen, s.comp.plan, s.comp.bad))
  {
    hide Step, MarkBad, CarriersOk, WritersOk, IdxOk, IdxHeld, HeaderOk, PlanFor, MovedHeld;
    t := MarkSync(s);
    RunOne(s, CompMark);
    RunSnoc(s, [CompMark], CompSync);
    assert [CompMark] + [CompSync] == [CompMark, CompSync];
    RunKeeps(s, [CompMark, CompSync]);
  }

  lemma MarkSync(s: State) returns (t: State)
    requires s.comp.Moving? && s.comp.k == |s.comp.plan.items|
    ensures Step(s, CompMark).Some? && Step(Step(s, CompMark).value, CompSync) == Some(t)
    ensures t == s.(idx := t.idx, dur := s.vol, comp := Synced(s.comp.round, s.comp.frozen, s.comp.plan, s.comp.bad))
  {
    hide MarkBad;
    t := DoComp(DoComp(s, CompMark).value, CompSync).value;
  }

  /** persist_image by Finalize, in full. */
  ghost function Persisted(s: State): State
    requires s.comp.Synced?
  {
    var img := NewImg(s.comp);
    var d := Dest(s, img);
    s.(hdr := Header(Some(img.gen), PutSlot(s.hdr.slots, d, Slot(RegionLen(img), Some(img)))),
       active := d, inactive := Some(s.active), pg := img.gen,
       comp := Flipped(s.comp.round, s.comp.frozen, s.comp.plan, s.comp.bad))
  }

  lemma Persisting(s: State)
    requires s.comp.Synced? && s.job.None? && s.pg <= NewImg(s.comp).gen
    ensures Run(s, [PersistStart(ByFinal), PersistSync, PersistPatch, PersistDone]) == Some(Persisted(s))
  {
    hide RegionLen, Finalized, DoFlush, DoComp, DoAlloc, DoWrite, DoCommit, DoAbort, DoDelete, Mix;
    var a := [PersistStart(ByFinal), PersistSync, PersistPatch, PersistDone];
    RunOne(s, a[0]);
    assert a[..1] == [a[0]] && a[..2] == a[..1] + [a[1]] && a[..3] == a[..2] + [a[2]] && a == a[..3] + [a[3]];
    RunSnoc(s, a[..1], a[1]);
    RunSnoc(s, a[..2], a[2]);
    RunSnoc(s, a[..3], a[3]);
  }

  lemma Swapping(s: State, reserve: nat) returns (t: State)
    requires s.comp.Flipped?
    ensures Run(s, [CompTrim(reserve), CompSwap]) == Some(t)
    ensures t == s.(idx := NewImg(s.comp), vol := t.vol,
      comp := if (!s.comp.plan.excludedAny && s.comp.bad == {}) || s.comp.round + 1 == MAX_ROUNDS then Idle
              else ReadyScan(s.comp.round + 1))
  {
    hide Finalized, SetLen;
    RunOne(s, CompTrim(reserve));
    RunSnoc(s, [CompTrim(reserve)], CompSwap);
    assert [CompTrim(reserve)] + [CompSwap] == [CompTrim(reserve), CompSwap];
    t := DoComp(DoComp(s, CompTrim(reserve)).value, CompSwap).value;
  }

  lemma Finalizing(s: State, reserve: nat) returns (t: State)
    requires Inv(s) && s.comp.Moving? && s.comp.k == |s.comp.plan.items| && s.job.None?
    ensures Run(s, ToSwap(reserve)) == Some(t) && Inv(t) && RoundOver(s, t, s.comp.round, s.comp.plan, s.comp.bad)
  {
    hide Inv, Step, Run, RegionLen;
    var u := Marking(s);
    Persisting(u);
    var p := Persisted(u);
    t := Swapping(p, reserve);
    var a, b, c := [CompMark, CompSync], [PersistStart(ByFinal), PersistSync, PersistPatch, PersistDone],
      [CompTrim(reserve), CompSwap];
    RunConcat(s, a, b);
    RunConcat(s, a + b, c);
    assert ToSwap(reserve) == a + b + c;
    RunKeeps(s, ToSwap(reserve));
  }

  /** Any undisturbed round, whichever names it finds bad. */
  lemma RoundGoesThrough(s: State, bad: set<Name>, reserve: nat) returns (acts: seq<Action>, t: State)
    requires Inv(s) && s.comp.ReadyScan? && s.job.None?
    requires s.idx.logical < TWO64 && P.PlanOf(Sources(s.idx.ents), s.idx.logical).newLogical < TWO64
    ensures Run(s, acts) == Some(t) && Inv(t)
    ensures var plan := P.PlanOf(Sources(s.idx.ents), s.idx.logical);
      PlanFor(s.idx, plan) && RoundOver(s, t, s.comp.round, plan, BadFrom(plan.items, 0, bad))
  {
    hide Inv, Step, Run, P.PlanOf, Sources, Finalized, ToSwap, PlanFor;
    var m := Scanning(s);
    var copies, c := CopyRest(m, bad);
    assert c.comp.bad == BadFrom(m.comp.plan.items, 0, bad);
    t := Finalizing(c, reserve);
    RunConcat(m, copies, ToSwap(reserve));
    RunCons(s, CompScan, copies + ToSwap(reserve));
    acts := [CompScan] + (copies + ToSwap(reserve));
  }

  lemma Scanning(s: State) returns (t: State)
    requires Inv(s) && s.comp.ReadyScan?
    requires s.idx.logical < TWO64 && P.PlanOf(Sources(s.idx.ents), s.idx.logical).newLogical < TWO64
    ensures Step(s, CompScan) == Some(t) && Inv(t)
    ensures var plan := P.PlanOf(Sources(s.idx.ents), s.idx.logical);
      t == s.(comp := Moving(s.comp.round, s.idx, plan, 0, 0, {})) && PlanFor(s.idx, plan)
  {
    hide P.PlanOf, Sources, IdxHeld, WritersOk, HeaderOk, CarriersOk, MovedHeld;
    t := DoComp(s, CompScan).value;
    hide Inv;
    StepKeeps(s, CompScan);
  }

  // --- all rounds ---

  /** How large the file may be before round r: every round at most doubles it. */
  function Room(round: nat): nat
    decreases MAX_ROUNDS - round
  {
    if round >= MAX_ROUNDS then TWO64 else Room(round + 1) / 2
  }

  lemma RoomAtStart()
    ensures Room(0) == 0x100_0000_0000_0000
  {
    assert Room(8) == TWO64 && Room(7) == TWO64 / 2 && Room(6) == TWO64 / 4 && Room(5) == TWO64 / 8;
    assert Room(4) == TWO64 / 16 && Room(3) == TWO64 / 32 && Room(2) == TWO64 / 64 && Room(1) == TWO64 / 128;
  }

  lemma RoomBelow(round: nat)
    ensures Room(round) <= TWO64
    decreases MAX_ROUNDS - round
  {
    if round < MAX_ROUNDS {
      RoomBelow(round + 1);
    }
  }

  lemma RoundsFit(idx: Img, bad: set<Name>)
    requires IdxOk(idx) && idx.logical < TWO64
    ensures var plan := P.PlanOf(Sources(idx.ents), idx.logical);
      plan.newLogical <= 2 * idx.logical && Finalized(idx, plan, bad).logical <= 2 * idx.logical
  {
    hide Align4k, P.ScanOf, P.SortByOffset, Crc32, P.MovedBytes;
    var src := Sources(idx.ents);
    var plan := P.PlanOf(src, idx.logical);
    SourcesSpans(idx.ents, idx.logical);
    P.PlanGrowth(src, idx.logical);
    P.MaxEndBounds(plan.items);
    var kept, pos := Kept(plan.items, bad), KeptPos(plan.items, bad);
    P.MaxEndBounds(kept);
    if kept != [] {
      var i :| 0 <= i < |kept| && kept[i].newOff + kept[i].Span() == P.MaxEnd(kept);
      assert plan.items[pos[i]] == kept[i];
    }
  }

  ghost predicate SameFiles(a: seq<Ent>, b: seq<Ent>, bad: set<Name>) {
    forall f: FileRec :: HasFile(b, f) <==> HasFile(a, f) && f.name !in bad
  }

  lemma RoundFiles(idx: Img, plan: P.Plan, bad: set<Name>)
    requires PlanFor(idx, plan)
    ensures SameFiles(idx.ents, Finalized(idx, plan, BadFrom(plan.items, 0, bad)).ents, bad)
  {
    hide PlanFor, Finalized;
    var b := BadFrom(plan.items, 0, bad);
    forall f: FileRec
      ensures HasFile(Finalized(idx, plan, b).ents, f) <==> HasFile(idx.ents, f) && f.name !in bad
    {
      FinalizeKeeps(idx, plan, b, f);
      if HasFile(idx.ents, f) {
        var e :| e in idx.ents && Is(e, f);
        var j := EntItem(idx, plan, e);
        assert plan.items[j].name == f.name;
      }
    }
  }

  /** The rounds end within eight, with the compaction over. */
  lemma {:induction false} RoundsGoThrough(s: State, bad: set<Name>, reserve: nat) returns (acts: seq<Action>, t: State)
    requires Inv(s) && s.comp.ReadyScan? && s.job.None? && s.comp.round < MAX_ROUNDS
    requires s.idx.logical < Room(s.comp.round)
    ensures Run(s, acts) == Some(t) && Inv(t) && t.comp.Idle? && t.job.None? && t.writers == s.writers
    ensures t.pg == t.idx.gen && t.hdr.sb == Some(t.pg)
    ensures t.active < |t.hdr.slots| && t.hdr.slots[t.active].img == Some(t.idx)
    ensures SameFiles(s.idx.ents, t.idx.ents, bad)
    decreases MAX_ROUNDS - s.comp.round
  {
    hide Inv, Step, Run, P.PlanOf, Sources, Finalized, HasFile, PlanFor;
    var r := s.comp.round;
    RoomBelow(r + 1);
    var plan := P.PlanOf(Sources(s.idx.ents), s.idx.logical);
    IdxIsOk(s);
    RoundsFit(s.idx, BadFrom(plan.items, 0, bad));
    acts, t := RoundGoesThrough(s, bad, reserve);
    RoundFiles(s.idx, plan, bad);
    if t.comp.ReadyScan? {
      var more, u := RoundsGoThrough(t, bad, reserve);
      RunConcat(s, acts, more);
      acts, t := acts + more, u;
    }
  }

  lemma IdxIsOk(s: State)
    requires Inv(s)
    ensures IdxOk(s.idx) && s.pg <= s.idx.gen + 1 && (!s.comp.Flipped? ==> s.pg <= s.idx.gen)
    ensures 0 in s.flushes ==> s.comp.PreFlush?
  {
  }

  // --- the flush in front ---

  ghost function ToScan(): seq<Action> {
    [CompStart, FlushSnap(0), FlushSync(0)] + [PersistStart(ByFlush(0)), PersistSync, PersistPatch, PersistDone]
  }

  ghost function ReadyToPersist(s: State): State {
    s.(comp := PreFlush, flushes := s.flushes[0 := DataSynced(s.idx)], dur := s.vol)
  }

  lemma StartToData(s: State)
    requires s.comp.Idle? && s.writers == map[] && 0 !in s.flushes
    ensures Run(s, [CompStart, FlushSnap(0), FlushSync(0)]) == Some(ReadyToPersist(s))
  {
    hide DoPersist, DoAlloc, DoWrite, DoCommit, DoAbort, DoDelete, Mix;
    var a := [CompStart, FlushSnap(0), FlushSync(0)];
    RunOne(s, a[0]);
    assert a[..1] == [a[0]] && a[..2] == a[..1] + [a[1]] && a == a[..2] + [a[2]];
    RunSnoc(s, a[..1], a[1]);
    RunSnoc(s, a[..2], a[2]);
    var one := s.(comp := PreFlush, flushes := s.flushes[0 := Checked]);
    assert Run(s, a[..1]) == Some(one);
    assert Run(s, a[..2]) == Some(one.(flushes := one.flushes[0 := Snapped(s.idx)]));
    assert one.flushes[0 := Snapped(s.idx)][0 := DataSynced(s.idx)] == s.flushes[0 := DataSynced(s.idx)];
  }

  lemma StartToScan(s: State)
    requires s.job.None? && 0 !in s.flushes && s.pg <= s.idx.gen
    ensures Run(ReadyToPersist(s), [PersistStart(ByFlush(0)), PersistSync, PersistPatch, PersistDone])
         == Some(Flushed(s, 0).(comp := ReadyScan(0)))
  {
    hide RegionLen, DoFlush, DoComp, DoAlloc, DoWrite, DoCommit, DoAbort, DoDelete, Mix;
    var a := [PersistStart(ByFlush(0)), PersistSync, PersistPatch, PersistDone];
    var u := ReadyToPersist(s);
    RunOne(u, a[0]);
    assert a[..1] == [a[0]] && a[..2] == a[..1] + [a[1]] && a[..3] == a[..2] + [a[2]] && a == a[..3] + [a[3]];
    RunSnoc(u, a[..1], a[1]);
    RunSnoc(u, a[..2], a[2]);
    RunSnoc(u, a[..3], a[3]);
    assert u.flushes - {0} == s.flushes;
  }

  lemma Starting(s: State)
    requires s.comp.Idle? && s.writers == map[] && s.job.None? && 0 !in s.flushes && s.pg <= s.idx.gen
    ensures Run(s, ToScan()) == Some(Flushed(s, 0).(comp := ReadyScan(0)))
  {
    hide Run, RegionLen;
    StartToData(s);
    StartToScan(s);
    RunConcat(s, [CompStart, FlushSnap(0), FlushSync(0)],
              [PersistStart(ByFlush(0)), PersistSync, PersistPatch, PersistDone]);
  }

  /** Whatever the store holds, when no writer is live, no persist is under way
      and the logical size is below 2^56: a compaction that nobody disturbs runs
      to its end, whichever files it finds bad; the index then lists exactly the
      others with their bytes, and the SuperBlock's region is that index. */
  lemma CompactionGoesThrough(s: State, bad: set<Name>, reserve: nat) returns (acts: seq<Action>, t: State)
    requires Inv(s) && s.comp.Idle? && s.writers == map[] && s.job.None? && s.idx.logical < 0x100_0000_0000_0000
    ensures Run(s, acts) == Some(t) && Inv(t) && t.comp.Idle? && t.job.None? && t.writers == map[]
    ensures t.pg == t.idx.gen && t.hdr.sb == Some(t.pg)
    ensures t.active < |t.hdr.slots| && t.hdr.slots[t.active].img == Some(t.idx)
    ensures SameFiles(s.idx.ents, t.idx.ents, bad)
  {
    hide Inv, Step, Run, ToScan, RegionLen, SameFiles;
    IdxIsOk(s);
    Starting(s);
    RunKeeps(s, ToScan());
    RoomAtStart();
    var u := Flushed(s, 0).(comp := ReadyScan(0));
    acts, t := RoundsGoThrough(u, bad, reserve);
    RunConcat(s, ToScan(), acts);
    acts := ToScan() + acts;
  }

  // --- one file from alloc to commit ---

  datatype Block = Block(at: nat, data: seq<u8>)

  /** What the blocks leave, each written over what was there. */
  function Overlaid(blocks: seq<Block>): seq<u8> {
    if blocks == [] then []
    else var b := blocks[|blocks| - 1]; Pwrite(Overlaid(blocks[..|blocks| - 1]), b.at, b.data)
  }

  /** No block leaves a gap or passes the end. */
  predicate Fits(blocks: seq<Block>, size: nat) {
    blocks == []
    || (var n := |blocks| - 1;
        Fits(blocks[..n], size) && blocks[n].at <= |Overlaid(blocks[..n])| && blocks[n].at + |blocks[n].data| <= size)
  }

  function Writes(w: nat, blocks: seq<Block>): (r: seq<Action>)
    ensures |r| == |blocks|
  {
    seq(|blocks|, i requires 0 <= i < |blocks| => Write(w, blocks[i].at, blocks[i].data))
  }

  lemma WriteOne(s: State, w: nat, b: Block) returns (t: State)
    requires Inv(s) && w in s.writers && b.at <= |s.writers[w].body| && b.at + |b.data| <= s.writers[w].size
    ensures Step(s, Write(w, b.at, b.data)) == Some(t) && Inv(t)
    ensures var wr := s.writers[w];
      t == s.(vol := t.vol, writers := s.writers[w := wr.(body := Pwrite(wr.body, b.at, b.data))])
  {
    hide Inv;
    t := DoWrite(s, w, b.at, b.data).value;
    StepKeeps(s, Write(w, b.at, b.data));
    if b.data == [] {
      assert Pwrite(s.writers[w].body, b.at, []) == s.writers[w].body;
      assert s.writers[w := s.writers[w]] == s.writers;
    }
  }

  lemma {:induction false} WritesGo(s: State, w: nat, blocks: seq<Block>) returns (t: State)
    requires Inv(s) && w in s.writers && s.writers[w].body == [] && Fits(blocks, s.writers[w].size)
    ensures Run(s, Writes(w, blocks)) == Some(t) && Inv(t)
    ensures t == s.(vol := t.vol, writers := s.writers[w := s.writers[w].(body := Overlaid(blocks))])
  {
    hide Inv, Step, Pwrite;
    if blocks == [] {
      assert s.writers[w := s.writers[w].(body := [])] == s.writers;
      t := s;
    } else {
      var n := |blocks| - 1;
      var p := WritesGo(s, w, blocks[..n]);
      t := WriteOne(p, w, blocks[n]);
      RunSnoc(s, Writes(w, blocks[..n]), Write(w, blocks[n].at, blocks[n].data));
      assert Writes(w, blocks) == Writes(w, blocks[..n]) + [Write(w, blocks[n].at, blocks[n].data)];
    }
  }

  lemma AllocGoes(s: State, w: nat, name: Name, size: nat) returns (t: State)
    requires Inv(s) && s.comp.Idle? && w !in s.writers
    requires 1 <= |name| <= 65535 && AllIn(s.idx.ents, name, {ST_DELETED})
    requires Align4k(s.idx.logical) + Align4k(size) < TWO64
    ensures Step(s, Alloc(w, name, size)) == Some(t) && Inv(t)
    ensures var wr := Writer(name, Align4k(s.idx.logical), size, []);
      t == s.(idx := t.idx, vol := t.vol, writers := s.writers[w := wr])
  {
    hide Align4k, Find, Without, SetLen;
    AllocIs(s.idx, s.Compacting(), name, size);
    t := DoAlloc(s, w, name, size).value;
    hide Inv;
    StepKeeps(s, Alloc(w, name, size));
  }

  lemma CommitGoes(s: State, w: nat) returns (t: State)
    requires Inv(s) && s.comp.Idle? && w in s.writers && |s.writers[w].body| == s.writers[w].size
    ensures Step(s, Commit(w)) == Some(t) && Inv(t) && HasFile(t.idx.ents, Committing(s, w))
    ensures t == s.(idx := t.idx, writers := s.writers - {w})
  {
    hide Crc32, CarriersOk, HeaderOk, CompOk, IdxHeld, Align4k;
    var wr := s.writers[w];
    CommitIs(s.idx, s.Compacting(), wr.name, Crc32(wr.body), wr.body);
    var i := FindIn(s.idx.ents, WriterEnt(wr));
    OneOfName(s.idx.ents, i);
    t := DoCommit(s, w).value;
    CommitMakes(s, w);
    hide Inv;
    StepKeeps(s, Commit(w));
  }

  /** Outside a compaction and for a name that is new or deleted, an alloc, any
      writes that leave no gap and cover the size, and the commit go through; the
      index then has the file with the bytes as the writes left them and their
      checksum. */
  lemma DownloadGoesThrough(s: State, w: nat, name: Name, size: nat, blocks: seq<Block>) returns (t: State)
    requires Inv(s) && s.comp.Idle? && w !in s.writers
    requires 1 <= |name| <= 65535 && AllIn(s.idx.ents, name, {ST_DELETED})
    requires Align4k(s.idx.logical) + Align4k(size) < TWO64
    requires Fits(blocks, size) && |Overlaid(blocks)| == size
    ensures Run(s, [Alloc(w, name, size)] + Writes(w, blocks) + [Commit(w)]) == Some(t) && Inv(t)
    ensures HasFile(t.idx.ents, FileRec(name, size, Crc32(Overlaid(blocks)), Overlaid(blocks)))
    ensures t == s.(idx := t.idx, vol := t.vol)
  {
    hide Inv, Step, Run, Align4k, Crc32, Overlaid, Fits, Writes, HasFile;
    var a := AllocGoes(s, w, name, size);
    var b := WritesGo(a, w, blocks);
    t := CommitGoes(b, w);
    RunCons(s, Alloc(w, name, size), Writes(w, blocks));
    RunSnoc(s, [Alloc(w, name, size)] + Writes(w, blocks), Commit(w));
    assert b.writers - {w} == s.writers;
  }
}
