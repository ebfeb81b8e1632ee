/** What open_paths finds after the persists of a session, and after a crash
    that left a slot of a generation the SuperBlock does not name. */
module Reopen {
  import opened Crc
  import opened Wrappers
  import opened Format
  import opened Entries
  import opened Recovery
  import opened Store
  import opened StoreInv
  import opened StoreSafety
  import opened StoreHistory
  import opened HeaderLog
  import opened HeaderFiles

  // --- the entries that survive ---

  /** Table entries that stand for these index entries, one by one. */
  ghost predicate Lists(es: seq<Entry>, names: seq<u8>, ents: seq<Ent>) {
    |es| == |ents| && forall i :: 0 <= i < |es| ==> EntryFor(es[i], names, ents[i])
  }

  lemma {:induction false} DropMatches(es: seq<Entry>, names: seq<u8>, ents: seq<Ent>)
    requires Lists(es, names, ents)
    ensures Lists(WithoutDownloading(es), names, DropDownloading(ents))
  {
    hide EntryFor;
    if es != [] {
      var n := |es| - 1;
      DropMatches(es[..n], names, ents[..n]);
      assert es[n].state == ents[n].state by {
        assert EntryFor(es[n], names, ents[n]);
        SameState(es[n], names, ents[n]);
      }
    }
  }

  lemma SameState(e: Entry, names: seq<u8>, n: Ent)
    requires EntryFor(e, names, n)
    ensures e.state == n.state
  {
  }

  /** Opening the bytes of a header gives the index that the store's Open
      gives: generation, logical size and, in order, the entries of the
      recovered image without the Downloading ones. */
  lemma OpenReadsImage(bytes: seq<u8>, sb: seq<u8>, slots: seq<seq<u8>>, imgs: seq<Option<Img>>, utf8: seq<u8> -> bool)
    requires OnGrid(bytes, sb, slots, imgs, utf8) && Chosen(bytes, utf8).Some?
    ensures var p := ScanAll(bytes, SB_SIZE, utf8)[Chosen(bytes, utf8).value].parsed.value;
      var r := Recovered(Header(ReadSb(bytes), SlotsOf(slots, imgs)));
      && r.Some? && p.gen == r.value.gen && p.logical == r.value.logical
      && Lists(WithoutDownloading(p.entries), p.names, DropDownloading(r.value.ents))
  {
    hide Chosen, ScanAll, Recovered, EntryFor, SlotOff, WithoutDownloading, DropDownloading, Holder, Flat, SbShape;
    ScanSelectsRecovered(bytes, sb, slots, imgs, utf8);
    var c := Chosen(bytes, utf8).value;
    var s := ScanAll(bytes, SB_SIZE, utf8)[c];
    assert Reports(ScanAll(bytes, SB_SIZE, utf8)[c - 0], SlotOff(slots, c), |slots[c]|, imgs[c]);
    DropMatches(s.parsed.value.entries, s.parsed.value.names, imgs[c].value.ents);
  }

  /** From a run of the store to the bytes of its header: whenever the program
      stops outside a persist and the marked part of a round, scanning the header
      gives the image of the last persist that ran to its end, minus Downloading
      entries. */
  lemma CrashReopensBytes(d0: Disk, acts: seq<Action>, s: State, d: Disk, bytes: seq<u8>, sb: seq<u8>,
      slots: seq<seq<u8>>, imgs: seq<Option<Img>>, utf8: seq<u8> -> bool)
    requires StoreOk(d0) && Run(Open(d0), acts) == Some(s) && Crash(s, d) && s.job.None? && !AfterMark(s.comp)
    requires OnGrid(bytes, sb, slots, imgs, utf8) && |slots| == |imgs|
    requires d.hdr == Header(ReadSb(bytes), SlotsOf(slots, imgs))
    ensures Chosen(bytes, utf8).Some? && LastDone(d0, acts).Some?
    ensures var p := ScanAll(bytes, SB_SIZE, utf8)[Chosen(bytes, utf8).value].parsed.value;
      var img := LastDone(d0, acts).value;
      && p.gen == img.gen && p.logical == img.logical
      && Lists(WithoutDownloading(p.entries), p.names, DropDownloading(img.ents))
  {
    hide OnGrid, Chosen, ScanAll, Recovered, ReadSb, Lists, WithoutDownloading, DropDownloading, Step, Crash, LastDone,
      Run;
    CrashReopens(d0, acts, s, d);
    ScanSelectsRecovered(bytes, sb, slots, imgs, utf8);
    OpenReadsImage(bytes, sb, slots, imgs, utf8);
  }

  // --- any number of persists ---

  datatype Log = Log(slots: seq<Slot>, active: nat, inactive: Option<nat>, pg: nat)

  /** One call of persist_image: refused below the water mark. */
  function Persist(l: Log, img: Img): Log
    requires DestOf(l.inactive, l.slots, img) <= |l.slots|
  {
    if img.gen < l.pg then l
    else
      var dest := DestOf(l.inactive, l.slots, img);
      Log(PutSlot(l.slots, dest, Slot(RegionLen(img), Some(img))), dest, Some(l.active), img.gen)
  }

  function PersistAll(l: Log, imgs: seq<Img>): Log {
    if imgs == [] then l else Persist(PersistAll(l, imgs[..|imgs| - 1]), imgs[|imgs| - 1])
  }

  /** The image a reader should find: the last one that was not refused. */
  function LastPersisted(l: Log, imgs: seq<Img>): Option<Img> {
    if imgs == [] then if l.active < |l.slots| then l.slots[l.active].img else None
    else
      var n := |imgs| - 1;
      if imgs[n].gen < PersistAll(l, imgs[..n]).pg then LastPersisted(l, imgs[..n]) else Some(imgs[n])
  }

  /** A header a session may start from: the slot in use has the SuperBlock's
      generation, no slot has a higher one. */
  ghost predicate LogOk(l: Log) {
    && l.active < |l.slots| && l.inactive != Some(l.active)
    && l.slots[l.active].img.Some? && l.slots[l.active].img.value.gen == l.pg
    && forall i :: 0 <= i < |l.slots| && l.slots[i].img.Some? ==> l.slots[i].img.value.gen <= l.pg
  }

  ghost predicate InPool(slots: seq<Slot>, pool: set<Img>) {
    forall i :: 0 <= i < |slots| && slots[i].img.Some? ==> slots[i].img.value in pool
  }

  /** What every run of the store keeps (StoreHistory.GenOk): images of one
      generation differ in Downloading entries at most. */
  ghost predicate OneIndexPerGen(pool: set<Img>) {
    forall a, b :: a in pool && b in pool && a.gen == b.gen ==> Stored(a) == Stored(b)
  }

  /** The same index for a reader. */
  predicate Shows(a: Option<Img>, b: Option<Img>) {
    a.Some? && b.Some? && Stored(a.value) == Stored(b.value)
  }

  function LogHeader(l: Log): Header { Header(Some(l.pg), l.slots) }

  lemma PersistKeeps(l: Log, img: Img, pool: set<Img>)
    requires LogOk(l) && InPool(l.slots, pool) && img in pool
    ensures LogOk(Persist(l, img)) && InPool(Persist(l, img).slots, pool)
    ensures img.gen >= l.pg ==> var m := Persist(l, img); m.slots[m.active].img == Some(img)
    ensures img.gen >= l.pg ==> DestOf(l.inactive, l.slots, img) != l.active
  {
    hide RegionLen;
  }

  /** The first slot of the named generation is taken over, whatever follows. */
  lemma FirstSlotWins(h: Header, k: nat)
    requires k < |h.slots| && h.sb.Some? && SlotGen(h.slots[k]) == h.sb
    requires forall i :: 0 <= i < k ==> SlotGen(h.slots[i]) != h.sb
    ensures Recovered(h) == h.slots[k].img
  {
    var gens := SlotGens(h.slots);
    ChooseSpec(h.sb, gens);
    assert gens[k] == h.sb;
    var c := Choose(h.sb, gens);
    if c.Some? && gens[c.value] == h.sb {
      assert gens[c.value] == SlotGen(h.slots[c.value]);
    }
  }

  lemma LogReopens(l: Log, pool: set<Img>)
    requires LogOk(l) && InPool(l.slots, pool) && OneIndexPerGen(pool)
    ensures Shows(Recovered(LogHeader(l)), l.slots[l.active].img)
  {
    hide Recovered, Stored;
    var k := FirstOf(l.slots, l.pg, l.active);
    FirstSlotWins(LogHeader(l), k);
  }

  lemma {:induction false} FirstOf(slots: seq<Slot>, gen: nat, n: nat) returns (k: nat)
    requires n < |slots| && SlotGen(slots[n]) == Some(gen)
    ensures k <= n && SlotGen(slots[k]) == Some(gen) && forall i :: 0 <= i < k ==> SlotGen(slots[i]) != Some(gen)
    decreases n
  {
    if j :| 0 <= j < n && SlotGen(slots[j]) == Some(gen) {
      k := FirstOf(slots, gen, j);
    } else {
      k := n;
    }
  }

  /** After any number of persists, reused or appended, reopening finds the
      index of the last one that was not refused, where images of one generation
      differ in Downloading entries at most. */
  lemma {:induction false} ReopenFindsLast(l: Log, imgs: seq<Img>, pool: set<Img>)
    requires LogOk(l) && InPool(l.slots, pool) && OneIndexPerGen(pool) && forall i :: 0 <= i < |imgs| ==>
      imgs[i] in pool
    ensures var m := PersistAll(l, imgs);
      && LogOk(m) && InPool(m.slots, pool) && m.slots[m.active].img == LastPersisted(l, imgs)
      && Shows(Recovered(LogHeader(m)), LastPersisted(l, imgs))
  {
    hide Recovered, Persist, LogHeader, Shows;
    if imgs != [] {
      var n := |imgs| - 1;
      ReopenFindsLast(l, imgs[..n], pool);
      PersistKeeps(PersistAll(l, imgs[..n]), imgs[n], pool);
      if imgs[n].gen < PersistAll(l, imgs[..n]).pg {
        PersistRefused(PersistAll(l, imgs[..n]), imgs[n]);
      }
    }
    LogReopens(PersistAll(l, imgs), pool);
  }

  lemma PersistRefused(l: Log, img: Img)
    requires img.gen < l.pg
    ensures Persist(l, img) == l
  {
  }

  // --- the orphan generation ---

  /** A crash after the region is synced and before the SuperBlock is flipped
      leaves a slot of a higher generation: the disk recovers to the old region,
      but it is not one that a session may start from. */
  lemma OrphanBreaksStart(s: State, d: Disk)
    requires Inv(s) && s.job.Some? && s.job.value.phase.HeaderSynced? && s.job.value.img.gen > s.pg
    requires Crash(s, d)
    ensures d.hdr.sb == Some(s.pg) && !StoreOk(d)
  {
    hide ImgOk, SlotsOk, CarriersOk, WritersOk, CompOk, IdxHeld, IdxOk;
    var j := s.job.value;
    assert d.hdr == s.hdr;
    assert d.hdr.slots[j.dest].img == Some(j.img);
  }

  /** If an earlier session left such an orphan of generation g in slot k, a
      later persist of a different index under g is found again if and only if
      it was written in front of the orphan or over it. */
  lemma OrphanWins(h: Header, inactive: Option<nat>, k: nat, img: Img)
    requires k < |h.slots| && SlotGen(h.slots[k]) == Some(img.gen) && h.slots[k].img != Some(img)
    requires forall i :: 0 <= i < |h.slots| && i != k ==> SlotGen(h.slots[i]) != Some(img.gen)
    ensures var dest := DestOf(inactive, h.slots, img);
      var r := Recovered(Header(Some(img.gen), PutSlot(h.slots, dest, Slot(RegionLen(img), Some(img)))));
      && (r == Some(img) <==> dest <= k)
      && (dest > k ==> r == h.slots[k].img)
  {
    hide RegionLen, Recovered;
    var dest := DestOf(inactive, h.slots, img);
    var after := Header(Some(img.gen), PutSlot(h.slots, dest, Slot(RegionLen(img), Some(img))));
    FirstSlotWins(after, if dest <= k then dest else k);
  }
}
