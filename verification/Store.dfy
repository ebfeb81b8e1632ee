/** The VFS as a state machine. Every action is one critical section or one
    file operation of vfs/mod.rs or vfs/compact.rs, so a run is any interleaving
    of writers, deletes, flushes and the compaction thread; a crash may come
    between any two actions. */
module Store {
  import opened Crc
  import opened Wrappers
  import opened Spans
  import opened Files
  import opened Format
  import opened Entries
  import opened Recovery
  import P = Planner

  const MAX_ROUNDS: nat := 8

  // --- the header file, slot by slot ---

  datatype Slot = Slot(len: nat, img: Option<Img>)

  /** sb is the generation the SuperBlock names, None when it does not check. */
  datatype Header = Header(sb: Option<nat>, slots: seq<Slot>)

  function NameBytes(ents: seq<Ent>): nat {
    if ents == [] then 0 else NameBytes(ents[..|ents| - 1]) + |ents[|ents| - 1].name| + 1
  }

  /** Length of the region that build_region makes of an index. */
  function RegionLen(img: Img): nat {
    REGION_HDR_SIZE + |img.ents| * ENTRY_SIZE + NameBytes(img.ents)
  }

  function SlotGen(s: Slot): Option<nat> {
    if s.img.None? then None else Some(s.img.value.gen)
  }

  function SlotGens(slots: seq<Slot>): seq<Option<nat>> {
    seq(|slots|, i requires 0 <= i < |slots| => SlotGen(slots[i]))
  }

  function PutSlot(slots: seq<Slot>, dest: nat, s: Slot): seq<Slot>
    requires dest <= |slots|
  {
    if dest == |slots| then slots + [s] else slots[dest := s]
  }

  // --- threads ---

  /** A live writer; body is what its write_at calls have put at [0, |body|). */
  datatype Writer = Writer(name: Name, offset: nat, size: nat, body: seq<u8>)

  /** A flush in flight: compacting checked, index copied, files.vfs synced. */
  datatype Flush = Checked | Snapped(img: Img) | DataSynced(img: Img)

  datatype Who = ByFlush(f: nat) | ByFinal

  /** persist_image under its lock: region written, header synced, SuperBlock written. */
  datatype Phase = Wrote | HeaderSynced | Patched
  datatype Job = Job(who: Who, img: Img, dest: nat, phase: Phase)

  /** The compaction thread. Its flush before the first round is flush 0. */
  datatype Comp =
    | Idle
    | PreFlush
    | ReadyScan(round: nat)
    | Moving(round: nat, frozen: Img, plan: P.Plan, k: nat, done: nat, bad: set<Name>)
    | Marked(round: nat, frozen: Img, plan: P.Plan, bad: set<Name>)
    | Synced(round: nat, frozen: Img, plan: P.Plan, bad: set<Name>)
    | Flipped(round: nat, frozen: Img, plan: P.Plan, bad: set<Name>)

  datatype State = State(
    idx: Img, writers: map<nat, Writer>, flushes: map<nat, Flush>, comp: Comp,
    pg: nat, active: nat, inactive: Option<nat>, job: Option<Job>, hdr: Header,
    dur: seq<u8>, vol: seq<u8>)
  {
    predicate Compacting() { !comp.Idle? }
  }

  datatype Action =
    | Alloc(w: nat, name: Name, size: nat)
    | Write(w: nat, relOff: nat, data: seq<u8>)
    | Commit(w: nat)
    | Abort(w: nat)
    | Delete(name: Name)
    | FlushCheck(f: nat)
    | FlushSnap(f: nat)
    | FlushSync(f: nat)
    | FlushDrop(f: nat)
    | PersistStart(who: Who)
    | PersistSync
    | PersistPatch
    | PersistDone
    | CompStart
    | CompScan
    | CompCopy(n: nat)
    | CompNext(isBad: bool)
    | CompMark
    | CompSync
    | CompTrim(reserve: nat)
    | CompSwap
    | CompFail
    | Writeback(c: seq<u8>)

  // --- writers and deletes ---

  function DoAlloc(s: State, w: nat, name: Name, size: nat): Option<State> {
    var r := AllocIdx(s.idx, s.Compacting(), name, size);
    if w in s.writers || r.Err? || r.value.logical >= TWO64 then None
    else
      var off := Align4k(s.idx.logical);
      Some(s.(idx := r.value, writers := s.writers[w := Writer(name, off, size, [])],
              vol := if |s.vol| < r.value.logical then SetLen(s.vol, r.value.logical) else s.vol))
  }

  function DoWrite(s: State, w: nat, relOff: nat, data: seq<u8>): Option<State> {
    if w !in s.writers then None
    else
      var wr := s.writers[w];
      if relOff + |data| > wr.size || relOff > |wr.body| then None
      else if data == [] then Some(s)
      else
        Some(s.(vol := Pwrite(s.vol, wr.offset + relOff, data),
                writers := s.writers[w := wr.(body := Pwrite(wr.body, relOff, data))]))
  }

  function DoCommit(s: State, w: nat): Option<State> {
    if w !in s.writers || |s.writers[w].body| != s.writers[w].size then None
    else
      var wr := s.writers[w];
      var r := CommitIdx(s.idx, s.Compacting(), wr.name, Crc32(wr.body), wr.body);
      if r.Err? then None else Some(s.(idx := r.value, writers := s.writers - {w}))
  }

  /** abort, and the drop of a writer whose commit failed. */
  function DoAbort(s: State, w: nat): Option<State> {
    if w !in s.writers then None
    else Some(s.(idx := AbortIdx(s.idx, s.writers[w].name), writers := s.writers - {w}))
  }

  function DoDelete(s: State, name: Name): Option<State> {
    var r := DeleteIdx(s.idx, s.Compacting(), name);
    if r.Err? then None else Some(s.(idx := r.value))
  }

  // --- flushes ---

  function DoFlush(s: State, a: Action): Option<State> {
    match a
    case FlushCheck(f) =>
      if f == 0 || f in s.flushes || s.Compacting() then None else Some(s.(flushes := s.flushes[f := Checked]))
    case FlushSnap(f) =>
      if f !in s.flushes || !s.flushes[f].Checked? then None
      else Some(s.(flushes := s.flushes[f := Snapped(s.idx)]))
    case FlushSync(f) =>
      if f !in s.flushes || !s.flushes[f].Snapped? then None
      else Some(s.(flushes := s.flushes[f := DataSynced(s.flushes[f].img)], dur := s.vol))
    case FlushDrop(f) =>
      if f == 0 || f !in s.flushes || (s.job.Some? && s.job.value.who == ByFlush(f)) then None
      else Some(s.(flushes := s.flushes - {f}))
    case _ => None
  }

  // --- persist_image ---

  /** Reuse the inactive slot only when the length is equal, else append. */
  function DestOf(inactive: Option<nat>, slots: seq<Slot>, img: Img): nat {
    if inactive.Some? && inactive.value < |slots| && slots[inactive.value].len == RegionLen(img)
    then inactive.value else |slots|
  }

  function Dest(s: State, img: Img): nat {
    DestOf(s.inactive, s.hdr.slots, img)
  }

  function DoPersist(s: State, a: Action): Option<State> {
    match a
    case PersistStart(who) =>
      if s.job.Some? then None
      else if who.ByFlush? then
        if who.f !in s.flushes || !s.flushes[who.f].DataSynced? then None
        else
          var img := s.flushes[who.f].img;
          if img.gen < s.pg then None // GenChanged
          else Some(s.(job := Some(Job(who, img, Dest(s, img), Wrote))))
      else if !s.comp.Synced? then None
      else
        var img := NewImg(s.comp);
        if img.gen < s.pg then None else Some(s.(job := Some(Job(who, img, Dest(s, img), Wrote))))
    case PersistSync =>
      if s.job.None? || !s.job.value.phase.Wrote? || s.job.value.dest > |s.hdr.slots| then None
      else
        var j := s.job.value;
        Some(s.(job := Some(j.(phase := HeaderSynced)),
                hdr := s.hdr.(slots := PutSlot(s.hdr.slots, j.dest, Slot(RegionLen(j.img), Some(j.img))))))
    case PersistPatch =>
      if s.job.None? || !s.job.value.phase.HeaderSynced? then None
      else Some(s.(job := Some(s.job.value.(phase := Patched))))
    case PersistDone =>
      if s.job.None? || !s.job.value.phase.Patched? then None
      else
        var j := s.job.value;
        var t := s.(job := None, hdr := s.hdr.(sb := Some(j.img.gen)), active := j.dest, inactive := Some(s.active),
          pg := j.img.gen);
        if j.who.ByFlush? then
          Some(t.(flushes := s.flushes - {j.who.f},
                  comp := if j.who.f == 0 && s.comp.PreFlush? then ReadyScan(0) else s.comp))
        else if s.comp.Synced? then
          Some(t.(comp := Flipped(s.comp.round, s.comp.frozen, s.comp.plan, s.comp.bad)))
        else None
    case _ => None
  }

  // --- the compaction thread ---

  /** The Active entries as the planner sees them, in index order. */
  function Sources(ents: seq<Ent>): seq<P.Source> {
    if ents == [] then []
    else
      var e := ents[|ents| - 1];
      Sources(ents[..|ents| - 1]) + (if e.Active() then [P.Source(e.name, e.offset, e.size, e.crc)] else [])
  }

  /** bad.push / find_mut(n).state = ST_BAD. */
  function MarkBad(ents: seq<Ent>, bad: set<Name>): (r: seq<Ent>)
    ensures |r| == |ents|
    ensures forall i :: 0 <= i < |r| ==> r[i] == if ents[i].name in bad then ents[i].(state := ST_BAD) else ents[i]
  {
    seq(|ents|, i requires 0 <= i < |ents| => if ents[i].name in bad then ents[i].(state := ST_BAD) else ents[i])
  }

  function BodyOf(ents: seq<Ent>, name: Name): seq<u8> {
    var f := Find(ents, name);
    if f.Some? then ents[f.value].body else []
  }

  /** The items that Finalize keeps. */
  function Kept(items: seq<P.PlanItem>, bad: set<Name>): (r: seq<P.PlanItem>)
    ensures |r| <= |items|
  {
    if items == [] then []
    else
      var i := items[|items| - 1];
      Kept(items[..|items| - 1], bad) + (if i.name in bad then [] else [i])
  }

  function NewEnts(ents: seq<Ent>, kept: seq<P.PlanItem>): (r: seq<Ent>)
    ensures |r| == |kept|
  {
    seq(|kept|, i requires 0 <= i < |kept| =>
      Ent(kept[i].name, ST_ACTIVE, kept[i].newOff, kept[i].size, kept[i].crc, BodyOf(ents, kept[i].name)))
  }

  /** The index that Finalize writes and then installs. */
  function Finalized(frozen: Img, plan: P.Plan, bad: set<Name>): Img {
    var kept := Kept(plan.items, bad);
    Img(frozen.gen + 1, P.MaxEnd(kept), NewEnts(frozen.ents, kept))
  }

  function NewImg(c: Comp): Img
    requires c.Synced? || c.Flipped?
  {
    Finalized(c.frozen, c.plan, c.bad)
  }

  /** Where a failed file operation ends the compaction: not inside its own
      persists, and after the marking only if no entry was marked. */
  predicate MayGiveUp(c: Comp, job: Option<Job>) {
    || (c.PreFlush? && !(job.Some? && job.value.who == ByFlush(0)))
    || c.ReadyScan? || c.Moving?
    || ((c.Marked? || c.Synced?) && c.bad == {} && (job.None? || job.value.who.ByFlush?))
  }

  function DoComp(s: State, a: Action): Option<State> {
    match a
    case CompStart =>
      if s.Compacting() || s.writers != map[] || 0 in s.flushes then None
      else Some(s.(comp := PreFlush, flushes := s.flushes[0 := Checked]))
    case CompScan =>
      if !s.comp.ReadyScan? then None
      else
        var plan := P.PlanOf(Sources(s.idx.ents), s.idx.logical);
        if s.idx.logical >= TWO64 || plan.newLogical >= TWO64 then None
        else Some(s.(comp := Moving(s.comp.round, s.idx, plan, 0, 0, {})))
    case CompCopy(n) =>
      if !s.comp.Moving? || s.comp.k >= |s.comp.plan.items| then None
      else
        var i := s.comp.plan.items[s.comp.k];
        var at := i.oldOff + s.comp.done;
        if n == 0 || n > CHUNK || s.comp.done + n > i.size || at + n > |s.vol| then None
        else
          Some(s.(comp := s.comp.(done := s.comp.done + n),
                  vol := if i.Moved() then Pwrite(s.vol, i.newOff + s.comp.done, s.vol[at..at + n]) else s.vol))
    case CompNext(isBad) =>
      if !s.comp.Moving? || s.comp.k >= |s.comp.plan.items| || s.comp.done != s.comp.plan.items[s.comp.k].size then None
      else
        var name := s.comp.plan.items[s.comp.k].name;
        Some(s.(comp := s.comp.(k := s.comp.k + 1, done := 0,
          bad := if isBad then s.comp.bad + {name} else s.comp.bad)))
    case CompMark =>
      if !s.comp.Moving? || s.comp.k != |s.comp.plan.items| then None
      else
        Some(s.(idx := s.idx.(ents := MarkBad(s.idx.ents, s.comp.bad)),
                comp := Marked(s.comp.round, s.comp.frozen, s.comp.plan, s.comp.bad)))
    case CompSync =>
      if !s.comp.Marked? then None
      else Some(s.(dur := s.vol, comp := Synced(s.comp.round, s.comp.frozen, s.comp.plan, s.comp.bad)))
    case CompTrim(reserve) =>
      if !s.comp.Flipped? then None else Some(s.(vol := SetLen(s.vol, NewImg(s.comp).logical + reserve)))
    case CompSwap =>
      if !s.comp.Flipped? then None
      else
        var settled := !s.comp.plan.excludedAny && s.comp.bad == {};
        Some(s.(idx := NewImg(s.comp),
                comp := if settled || s.comp.round + 1 == MAX_ROUNDS then Idle else ReadyScan(s.comp.round + 1)))
    case CompFail =>
      if MayGiveUp(s.comp, s.job) then Some(s.(comp := Idle, flushes := s.flushes - {0})) else None
    case _ => None
  }

  /** One action; None when the program would not take it in this state. */
  ghost function Step(s: State, a: Action): Option<State> {
    match a
    case Alloc(w, name, size) => DoAlloc(s, w, name, size)
    case Write(w, relOff, data) => DoWrite(s, w, relOff, data)
    case Commit(w) => DoCommit(s, w)
    case Abort(w) => DoAbort(s, w)
    case Delete(name) => DoDelete(s, name)
    case FlushCheck(_) => DoFlush(s, a)
    case FlushSnap(_) => DoFlush(s, a)
    case FlushSync(_) => DoFlush(s, a)
    case FlushDrop(_) => DoFlush(s, a)
    case PersistStart(_) => DoPersist(s, a)
    case PersistSync => DoPersist(s, a)
    case PersistPatch => DoPersist(s, a)
    case PersistDone => DoPersist(s, a)
    case Writeback(c) => if Mix(s.dur, s.vol, c) then Some(s.(dur := c)) else None
    case _ => DoComp(s, a)
  }

  ghost function Run(s: State, acts: seq<Action>): Option<State> {
    if acts == [] then Some(s)
    else
      match Run(s, acts[..|acts| - 1])
      case None => None
      case Some(t) => Step(t, acts[|acts| - 1])
  }

  // --- crash and recovery ---

  datatype Disk = Disk(hdr: Header, data: seq<u8>)

  /** The header a crash may leave: during the region write the slot is old,
      torn (its data does not check) or new; during the flip the SuperBlock is
      old, torn or new. */
  ghost predicate HeaderCrash(s: State, h: Header) {
    if s.job.None? then h == s.hdr
    else
      var j := s.job.value;
      match j.phase
      case Wrote =>
        h == s.hdr
        || (j.dest <= |s.hdr.slots|
            && exists img: Option<Img> :: (img.None? || img == Some(j.img))
                 && h == s.hdr.(slots := PutSlot(s.hdr.slots, j.dest, Slot(RegionLen(j.img), img))))
      case HeaderSynced => h == s.hdr
      case Patched => h.slots == s.hdr.slots && (h.sb == s.hdr.sb || h.sb == Some(j.img.gen) || h.sb == None)
  }

  ghost predicate Crash(s: State, d: Disk) {
    HeaderCrash(s, d.hdr) && Mix(s.dur, s.vol, d.data)
  }

  /** The region that open_paths takes over. */
  function Recovered(h: Header): (r: Option<Img>) {
    var c := Choose(h.sb, SlotGens(h.slots));
    if c.None? then None else h.slots[c.value].img
  }

  function DropDownloading(ents: seq<Ent>): (r: seq<Ent>)
    ensures forall e :: e in r <==> e in ents && e.state != ST_DOWNLOADING
  {
    if ents == [] then []
    else
      var e := ents[|ents| - 1];
      DropDownloading(ents[..|ents| - 1]) + (if e.state == ST_DOWNLOADING then [] else [e])
  }

  /** What a reader of the image gets to see: open_paths drops the Downloading
      entries. */
  function Stored(img: Img): Img {
    img.(ents := DropDownloading(img.ents))
  }

  lemma DropAppend(ents: seq<Ent>, e: Ent)
    ensures DropDownloading(ents + [e])
         == if e.state == ST_DOWNLOADING then DropDownloading(ents) else DropDownloading(ents) + [e]
  {
    assert (ents + [e])[..|ents|] == ents;
    assert DropDownloading(ents) + [] == DropDownloading(ents);
  }

  lemma DropNone()
    ensures DropDownloading([]) == []
  {
  }

  lemma {:induction false} DropTwice(ents: seq<Ent>)
    ensures DropDownloading(DropDownloading(ents)) == DropDownloading(ents)
  {
    hide DropDownloading;
    if ents == [] {
      DropNone();
    } else {
      var n := |ents| - 1;
      DropTwice(ents[..n]);
      DropAppend(ents[..n], ents[n]);
      DropAppend(DropDownloading(ents[..n]), ents[n]);
      assert ents[..n] + [ents[n]] == ents;
    }
  }

  /** The last slot of the greatest length other than the chosen one. */
  function Spare(slots: seq<Slot>, n: nat, chosen: nat): (r: Option<nat>)
    requires n <= |slots|
    ensures r.None? <==> n == 0 || (n == 1 && chosen == 0)
    ensures r.Some? ==>
      && r.value < n && r.value != chosen
      && (forall k :: 0 <= k < n && k != chosen ==> slots[k].len <= slots[r.value].len)
      && (forall k :: r.value < k < n && k != chosen ==> slots[k].len < slots[r.value].len)
  {
    if n == 0 then None
    else
      var b := Spare(slots, n - 1, chosen);
      if n - 1 == chosen then b
      else if b.None? || slots[n - 1].len >= slots[b.value].len then Some(n - 1)
      else b
  }

  /** open_paths on a disk with a usable region. */
  function Open(d: Disk): State
    requires Recovered(d.hdr).Some?
  {
    var c := Choose(d.hdr.sb, SlotGens(d.hdr.slots)).value;
    var img := d.hdr.slots[c].img.value;
    var data := if |d.data| < img.logical then SetLen(d.data, img.logical) else d.data;
    State(Stored(img), map[], map[], Idle, img.gen, c,
          Spare(d.hdr.slots, |d.hdr.slots|, c), None, d.hdr, d.data, data)
  }
}
