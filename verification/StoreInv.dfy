/** The invariant of the store: what keeps every image that recovery could
    select readable, whatever action comes next. */
module StoreInv {
  import opened Crc
  import opened Wrappers
  import opened Spans
  import opened Files
  import opened Format
  import opened Entries
  import opened Store
  import P = Planner

  predicate HasPlan(c: Comp) { c.Moving? || c.Marked? || c.Synced? || c.Flipped? }

  predicate AfterMark(c: Comp) { c.Marked? || c.Synced? || c.Flipped? }

  predicate IsNew(s: State, img: Img) {
    (s.comp.Synced? || s.comp.Flipped?) && img == NewImg(s.comp)
  }

  /** The entries an image of the current generation may call Active. */
  function Ref(s: State): seq<Ent> {
    if AfterMark(s.comp) then s.comp.frozen.ents else s.idx.ents
  }

  ghost predicate ActivesIn(a: seq<Ent>, b: seq<Ent>) {
    forall e :: e in a && e.Active() ==> e in b
  }

  ghost predicate ClearOfWriters(s: State, e: Ent) {
    forall w :: w in s.writers ==> Apart(e.offset, e.Span(), s.writers[w].offset, Align4k(s.writers[w].size))
  }

  ghost predicate EntSafe(s: State, e: Ent, durable: bool) {
    && Committed(e)
    && Holds(s.vol, e.offset, e.body)
    && (durable ==> Holds(s.dur, e.offset, e.body))
    && ClearOfWriters(s, e)
  }

  ghost predicate ImgSafe(s: State, img: Img, durable: bool) {
    forall e :: e in img.ents && e.Active() ==>
      EntSafe(s, e, durable) && (img.gen <= s.idx.gen ==> e.offset + e.Span() <= s.idx.logical)
  }

  /** What holds of every image in a header slot or on its way to one. Only
      generations from the watermark pg on can still be selected. */
  ghost predicate ImgOk(s: State, img: Img, durable: bool) {
    && (img.gen <= s.idx.gen || IsNew(s, img))
    && (img.gen == s.idx.gen ==> ActivesIn(img.ents, Ref(s)))
    && (s.pg <= img.gen ==> ImgSafe(s, img, durable))
  }

  ghost predicate SlotsOk(s: State) {
    forall i :: 0 <= i < |s.hdr.slots| && s.hdr.slots[i].img.Some? ==> ImgOk(s, s.hdr.slots[i].img.value, true)
  }

  ghost predicate FlushOk(s: State, f: Flush) {
    && (f.Snapped? ==> ImgOk(s, f.img, false) && f.img.gen <= s.idx.gen)
    && (f.DataSynced? ==> ImgOk(s, f.img, true) && f.img.gen <= s.idx.gen)
  }

  ghost predicate FlushesOk(s: State) {
    forall f :: f in s.flushes ==> FlushOk(s, s.flushes[f])
  }

  ghost predicate CarriersOk(s: State) {
    && SlotsOk(s)
    && (s.job.Some? ==> ImgOk(s, s.job.value.img, true))
    && FlushesOk(s)
  }

  ghost predicate IdxHeld(comp: Comp, idx: Img, vol: seq<u8>) {
    !comp.Flipped? ==> forall e :: e in idx.ents && e.Active() ==> Holds(vol, e.offset, e.body)
  }

  function WriterEnt(w: Writer): Ent {
    Ent(w.name, ST_DOWNLOADING, w.offset, w.size, 0, [])
  }

  ghost predicate WritersOk(idx: Img, writers: map<nat, Writer>, vol: seq<u8>) {
    && (forall w :: w in writers ==>
          && WriterEnt(writers[w]) in idx.ents
          && |writers[w].body| <= writers[w].size
          && Holds(vol, writers[w].offset, writers[w].body))
    && (forall v, w :: v in writers && w in writers && v != w ==> writers[v].name != writers[w].name)
  }

  ghost predicate JobOk(s: State, j: Job) {
    && j.dest <= |s.hdr.slots| && j.dest != s.active && s.pg <= j.img.gen
    && (!j.phase.Wrote? ==> j.dest < |s.hdr.slots| && s.hdr.slots[j.dest].img == Some(j.img))
    && (j.who.ByFlush? ==> j.who.f in s.flushes && s.flushes[j.who.f] == DataSynced(j.img))
    && (j.who.ByFinal? ==> s.comp.Synced? && j.img == NewImg(s.comp))
  }

  ghost predicate HeaderOk(s: State) {
    && s.active < |s.hdr.slots| && SlotGen(s.hdr.slots[s.active]) == Some(s.pg) && s.hdr.sb == Some(s.pg)
    && (s.inactive.Some? ==> s.inactive.value < |s.hdr.slots| && s.inactive.value != s.active)
    && (s.job.Some? ==> JobOk(s, s.job.value))
    && (forall i :: 0 <= i < |s.hdr.slots| && s.hdr.slots[i].img.Some? ==>
          s.hdr.slots[i].img.value.gen <= s.pg
          || (s.job.Some? && !s.job.value.phase.Wrote? && s.job.value.dest == i))
    && (if s.comp.Flipped? then s.pg == s.idx.gen + 1 else s.pg <= s.idx.gen)
  }

  ghost predicate PlanFor(frozen: Img, plan: P.Plan) {
    IdxOk(frozen) && frozen.logical < TWO64 && plan == P.PlanOf(Sources(frozen.ents), frozen.logical)
  }

  /** The first k items lie at their new places, and item k up to done. */
  ghost predicate MovedHeld(vol: seq<u8>, c: Comp)
    requires c.Moving?
  {
    && c.k <= |c.plan.items|
    && (forall j :: 0 <= j < c.k ==> Holds(vol, c.plan.items[j].newOff, BodyOf(c.frozen.ents, c.plan.items[j].name)))
    && (c.k < |c.plan.items| ==>
          var i := c.plan.items[c.k];
          c.done <= i.size && c.done <= |BodyOf(c.frozen.ents, i.name)|
          && (i.Moved() ==> Holds(vol, i.newOff, BodyOf(c.frozen.ents, i.name)[..c.done])))
  }

  ghost predicate AllHeld(file: seq<u8>, ents: seq<Ent>) {
    forall e :: e in ents ==> Holds(file, e.offset, e.body)
  }

  ghost predicate CompOk(s: State) {
    && (s.Compacting() ==> s.writers == map[])
    && (0 in s.flushes <==> s.comp.PreFlush?)
    && (s.comp.PreFlush? ==> s.flushes[0].Checked? || s.flushes[0].img == s.idx)
    && (s.comp.ReadyScan? || s.comp.Moving? || s.comp.Marked? || s.comp.Synced? ==> s.pg == s.idx.gen)
    && (HasPlan(s.comp) ==> PlanFor(s.comp.frozen, s.comp.plan))
    && (s.comp.Moving? ==> s.comp.frozen == s.idx && MovedHeld(s.vol, s.comp))
    && (AfterMark(s.comp) ==>
          && s.idx == s.comp.frozen.(ents := MarkBad(s.comp.frozen.ents, s.comp.bad))
          && AllHeld(s.vol, Finalized(s.comp.frozen, s.comp.plan, s.comp.bad).ents))
    && (s.comp.Synced? || s.comp.Flipped? ==> AllHeld(s.dur, NewImg(s.comp).ents))
  }

  ghost predicate Inv(s: State) {
    IdxOk(s.idx) && IdxHeld(s.comp, s.idx, s.vol) && WritersOk(s.idx, s.writers, s.vol) && CompOk(s) && HeaderOk(s)
      && CarriersOk(s)
  }

  // --- carrying the images over a step ---

  /** A step that leaves the set of carriers alone only has to keep ImgOk. */
  lemma Carry(s: State, t: State)
    requires CarriersOk(s) && t.hdr.slots == s.hdr.slots && t.idx.gen >= s.idx.gen
    requires t.job.Some? ==> s.job.Some? && t.job.value.img == s.job.value.img
    requires forall f :: f in t.flushes ==> f in s.flushes && t.flushes[f] == s.flushes[f]
    requires forall img, d :: ImgOk(s, img, d) ==> ImgOk(t, img, d)
    ensures CarriersOk(t)
  {
    hide ImgOk;
    forall f | f in t.flushes
      ensures FlushOk(t, t.flushes[f])
    {
      assert FlushOk(s, s.flushes[f]);
    }
  }

  /** Every entry that is safe inside the old logical size stays safe. */
  ghost predicate KeepsSafe(s: State, t: State) {
    forall e: Ent, d: bool :: EntSafe(s, e, d) && e.offset + e.Span() <= s.idx.logical ==> EntSafe(t, e, d)
  }

  /** An index change outside compaction: the generation moves on, so no image
      is of the current generation any more. */
  lemma MutatorKeeps(s: State, t: State)
    requires Inv(s) && s.comp.Idle?
    requires t == s.(idx := t.idx, writers := t.writers, vol := t.vol)
    requires t.idx.gen == s.idx.gen + 1 && t.idx.logical >= s.idx.logical
    requires IdxOk(t.idx) && IdxHeld(t.comp, t.idx, t.vol) && WritersOk(t.idx, t.writers, t.vol) && KeepsSafe(s, t)
    ensures Inv(t)
  {
    hide EntSafe, IdxOk, IdxHeld, WritersOk;
    forall img, d | ImgOk(s, img, d)
      ensures ImgOk(t, img, d)
    {
      forall e | e in img.ents && e.Active() && t.pg <= img.gen
        ensures EntSafe(t, e, d) && e.offset + e.Span() <= t.idx.logical
      {
        assert EntSafe(s, e, d);
      }
    }
    Carry(s, t);
  }

  lemma AllocWriters(s: State, w: nat, name: Name, size: nat)
    requires Inv(s) && DoAlloc(s, w, name, size).Some?
    ensures var t := DoAlloc(s, w, name, size).value;
      IdxHeld(t.comp, t.idx, t.vol) && WritersOk(t.idx, t.writers, t.vol)
  {
    hide Align4k, Find, ImgOk, IdxOk, Without, SetLen, HeaderOk, CompOk, CarriersOk;
    var t := DoAlloc(s, w, name, size).value;
    WithoutOk(s.idx, name);
    AllocNamesApart(s, name, size);
    assert t.idx.ents == Without(s.idx.ents, name) + [WriterEnt(t.writers[w])];
    forall e | e in t.idx.ents && e.Active()
      ensures Holds(t.vol, e.offset, e.body)
    {
      assert e in s.idx.ents;
      GrowHolds(s.vol, t.idx.logical, e.offset, e.body);
    }
    forall v | v in t.writers
      ensures WriterEnt(t.writers[v]) in t.idx.ents && Holds(t.vol, t.writers[v].offset, t.writers[v].body)
    {
      if v != w {
        assert WriterEnt(s.writers[v]) in s.idx.ents && s.writers[v].name != name;
        GrowHolds(s.vol, t.idx.logical, s.writers[v].offset, s.writers[v].body);
      } else {
        assert t.idx.ents[|t.idx.ents| - 1] == WriterEnt(t.writers[w]);
      }
    }
  }

  lemma AllocKeeps(s: State, w: nat, name: Name, size: nat)
    requires Inv(s) && DoAlloc(s, w, name, size).Some?
    ensures Inv(DoAlloc(s, w, name, size).value)
  {
    hide Align4k, Find, ImgOk, Without, SetLen, IdxOk, IdxHeld, WritersOk, Committed;
    var t := DoAlloc(s, w, name, size).value;
    AllocOk(s.idx, name, size);
    Align4kLeast(s.idx.logical);
    AllocWriters(s, w, name, size);
    forall e: Ent, d: bool | EntSafe(s, e, d) && e.offset + e.Span() <= s.idx.logical
      ensures EntSafe(t, e, d)
    {
      GrowHolds(s.vol, t.idx.logical, e.offset, e.body);
    }
    MutatorKeeps(s, t);
  }

  /** No live writer has the name that alloc accepts. */
  lemma AllocNamesApart(s: State, name: Name, size: nat)
    requires IdxOk(s.idx) && WritersOk(s.idx, s.writers, s.vol) && AllocIdx(s.idx, s.Compacting(), name, size).Ok?
    ensures forall v :: v in s.writers ==> s.writers[v].name != name
  {
    forall v | v in s.writers
      ensures s.writers[v].name != name
    {
      var i := FindIn(s.idx.ents, WriterEnt(s.writers[v]));
    }
  }

  lemma CommitKeeps(s: State, w: nat)
    requires Inv(s) && DoCommit(s, w).Some?
    ensures Inv(DoCommit(s, w).value)
  {
    hide Align4k, Find, Crc32;
    var t := DoCommit(s, w).value;
    var wr := s.writers[w];
    var i := FindIn(s.idx.ents, WriterEnt(wr));
    var e := s.idx.ents[i].(state := ST_ACTIVE, crc := Crc32(wr.body), body := wr.body);
    assert t.idx.ents == s.idx.ents[i := e];
    RestateOk(s.idx, i, e);
    forall v | v in t.writers
      ensures WriterEnt(t.writers[v]) in t.idx.ents
    {
      var k := FindIn(s.idx.ents, WriterEnt(s.writers[v]));
      assert t.idx.ents[k] == s.idx.ents[k];
    }
    MutatorKeeps(s, t);
  }

  lemma AbortKeeps(s: State, w: nat)
    requires Inv(s) && DoAbort(s, w).Some?
    ensures Inv(DoAbort(s, w).value)
  {
    hide Align4k, Find;
    var t := DoAbort(s, w).value;
    WithoutOk(s.idx, s.writers[w].name);
    MutatorKeeps(s, t);
  }

  lemma DeleteKeeps(s: State, name: Name)
    requires Inv(s) && DoDelete(s, name).Some?
    ensures Inv(DoDelete(s, name).value)
  {
    hide Align4k;
    var t := DoDelete(s, name).value;
    var i := Find(s.idx.ents, name).value;
    if t.idx != s.idx {
      var e := s.idx.ents[i].(state := ST_DELETED);
      RestateOk(s.idx, i, e);
      forall v | v in t.writers
        ensures WriterEnt(t.writers[v]) in t.idx.ents
      {
        var k := FindIn(s.idx.ents, WriterEnt(s.writers[v]));
        assert t.idx.ents[k] == s.idx.ents[k];
      }
      MutatorKeeps(s, t);
    } else {
      assert t == s;
    }
  }

  /** Sizes bound bodies: what an entry protects lies in its span. */
  lemma BodyInSpan(e: Ent)
    requires Committed(e) && e.Active()
    ensures |e.body| <= e.Span()
  {
    Align4kLeast(e.size);
  }

  /** A write inside entry i leaves what entry k holds alone. */
  lemma WriteSpares(idx: Img, vol: seq<u8>, i: nat, k: nat, at: nat, data: seq<u8>, body: seq<u8>)
    requires IdxOk(idx) && i < |idx.ents| && k < |idx.ents| && i != k
    requires idx.ents[i].offset <= at && at + |data| <= idx.ents[i].offset + idx.ents[i].size
    requires Holds(vol, idx.ents[k].offset, body) && |body| <= idx.ents[k].size
    ensures Holds(Pwrite(vol, at, data), idx.ents[k].offset, body)
  {
    hide Align4k, Pwrite, Holds, Crc32;
    assert EntApart(idx.ents[i], idx.ents[k]) || EntApart(idx.ents[k], idx.ents[i]);
    Align4kLeast(idx.ents[i].size);
    Align4kLeast(idx.ents[k].size);
    PwriteFrame(vol, at, data, idx.ents[k].offset, body);
  }

  lemma WriteKeeps(s: State, w: nat, relOff: nat, data: seq<u8>)
    requires Inv(s) && DoWrite(s, w, relOff, data).Some? && data != []
    ensures Inv(DoWrite(s, w, relOff, data).value)
  {
    hide Align4k, Find, Pwrite, Holds, ImgOk, HeaderOk, Crc32, IdxOk;
    var t := DoWrite(s, w, relOff, data).value;
    var wr := s.writers[w];
    var at := wr.offset + relOff;
    var i := IndexOfEnt(s.idx, WriterEnt(wr));
    forall e | e in s.idx.ents && e.Active()
      ensures Holds(t.vol, e.offset, e.body)
    {
      var k := IndexOfEnt(s.idx, e);
      WriteSpares(s.idx, s.vol, i, k, at, data, e.body);
    }
    forall v | v in t.writers
      ensures Holds(t.vol, t.writers[v].offset, t.writers[v].body)
    {
      if v == w {
        PwriteOverlay(s.vol, wr.offset, wr.body, relOff, data);
      } else {
        var k := IndexOfEnt(s.idx, WriterEnt(s.writers[v]));
        WriteSpares(s.idx, s.vol, i, k, at, data, s.writers[v].body);
      }
    }
    WriteKeepsImages(s, t, w, relOff, data);
  }

  lemma IndexOfEnt(idx: Img, e: Ent) returns (i: nat)
    requires IdxOk(idx) && e in idx.ents
    ensures i < |idx.ents| && idx.ents[i] == e && Committed(e)
  {
    i :| 0 <= i < |idx.ents| && idx.ents[i] == e;
  }

  lemma WriteKeepsImages(s: State, t: State, w: nat, relOff: nat, data: seq<u8>)
    requires Inv(s) && DoWrite(s, w, relOff, data) == Some(t) && data != []
    ensures CarriersOk(t) && HeaderOk(t)
  {
    hide Align4k, Pwrite, Holds, Crc32, Committed, IdxOk, IdxHeld, WritersOk;
    var wr := s.writers[w];
    Align4kLeast(wr.size);
    forall img, d | ImgOk(s, img, d)
      ensures ImgOk(t, img, d)
    {
      forall e | e in img.ents && e.Active() && t.pg <= img.gen
        ensures EntSafe(t, e, d)
      {
        assert EntSafe(s, e, d);
        BodyInSpan(e);
        PwriteFrame(s.vol, wr.offset + relOff, data, e.offset, e.body);
      }
    }
    Carry(s, t);
  }

  // --- flushes ---

  /** The index itself qualifies as an image. */
  lemma IndexIsOk(s: State)
    requires Inv(s)
    ensures ImgOk(s, s.idx, false)
  {
    hide Align4k, Crc32;
    forall e | e in s.idx.ents && e.Active()
      ensures Committed(e) && ClearOfWriters(s, e) && e.offset + e.Span() <= s.idx.logical
    {
      var k := FindIn(s.idx.ents, e);
      forall w | w in s.writers
        ensures Apart(e.offset, e.Span(), s.writers[w].offset, Align4k(s.writers[w].size))
      {
        var i := FindIn(s.idx.ents, WriterEnt(s.writers[w]));
        assert EntApart(s.idx.ents[i], s.idx.ents[k]) || EntApart(s.idx.ents[k], s.idx.ents[i]);
      }
    }
    if AfterMark(s.comp) {
      forall e | e in s.idx.ents && e.Active()
        ensures e in s.comp.frozen.ents
      {
        var k :| 0 <= k < |s.idx.ents| && s.idx.ents[k] == e;
        assert e == s.comp.frozen.ents[k];
      }
    }
  }

  /** ImgOk does not look at the flushes in flight. */
  lemma FlushesDoNotMatter(s: State, t: State, img: Img, d: bool)
    requires ImgOk(s, img, d) && t == s.(flushes := t.flushes)
    ensures ImgOk(t, img, d)
  {
    hide Align4k, Holds, Committed;
    assert forall e: Ent :: EntSafe(s, e, d) ==> EntSafe(t, e, d);
  }

  /** The checks and the snapshot of a flush change no file. */
  lemma FlushSnapKeeps(s: State, a: Action)
    requires Inv(s) && DoFlush(s, a).Some? && !a.FlushSync?
    ensures Inv(DoFlush(s, a).value)
  {
    hide IdxOk, IdxHeld, WritersOk, ImgOk, MovedHeld;
    IndexIsOk(s);
    var t := DoFlush(s, a).value;
    forall img, d | ImgOk(s, img, d)
      ensures ImgOk(t, img, d)
    {
      FlushesDoNotMatter(s, t, img, d);
    }
    SlotsFollow(s, t);
    forall f | f in t.flushes
      ensures FlushOk(t, t.flushes[f])
    {
      assert f in s.flushes ==> FlushOk(s, s.flushes[f]);
    }
  }

  lemma SlotsFollow(s: State, t: State)
    requires SlotsOk(s) && t.hdr.slots == s.hdr.slots
    requires forall img, d :: ImgOk(s, img, d) ==> ImgOk(t, img, d)
    ensures SlotsOk(t)
  {
    hide ImgOk;
  }

  /** After sync_all the durable bytes are the current ones. */
  lemma SyncMakesDurable(s: State, t: State, img: Img, d: bool)
    requires ImgOk(s, img, d) && t == s.(flushes := t.flushes, dur := s.vol, comp := t.comp)
    requires IsNew(s, img) ==> IsNew(t, img)
    requires Ref(t) == Ref(s)
    ensures ImgOk(t, img, true)
  {
    hide Holds, Committed, Align4k;
    assert forall e: Ent :: EntSafe(s, e, d) ==> EntSafe(t, e, true);
  }

  lemma FlushSyncKeeps(s: State, f: nat)
    requires Inv(s) && DoFlush(s, FlushSync(f)).Some?
    ensures Inv(DoFlush(s, FlushSync(f)).value)
  {
    hide Align4k, IdxOk, Holds, Committed, IdxHeld, WritersOk, ImgOk;
    var t := DoFlush(s, FlushSync(f)).value;
    forall img, d | ImgOk(s, img, d)
      ensures ImgOk(t, img, true)
    {
      SyncMakesDurable(s, t, img, d);
    }
    FlushSyncRest(s, t, f);
  }

  lemma FlushSyncRest(s: State, t: State, f: nat)
    requires Inv(s) && DoFlush(s, FlushSync(f)) == Some(t)
    requires forall img, d :: ImgOk(s, img, d) ==> ImgOk(t, img, true)
    ensures Inv(t)
  {
    hide ImgOk, IdxOk, Holds, Committed, IdxHeld, WritersOk, MovedHeld;
    forall g | g in t.flushes
      ensures FlushOk(t, t.flushes[g])
    {
      assert FlushOk(s, s.flushes[g]);
      if g != f && s.flushes[g].Snapped? {
        DurableImpliesSafe(t, s.flushes[g].img);
      }
    }
  }

  lemma DurableImpliesSafe(s: State, img: Img)
    requires ImgOk(s, img, true)
    ensures ImgOk(s, img, false)
  {
    assert forall e: Ent :: EntSafe(s, e, true) ==> EntSafe(s, e, false);
  }
}
