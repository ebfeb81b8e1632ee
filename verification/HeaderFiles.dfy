/** header.vfs while a VFS is open: open_paths takes a region over, and
    persist_image writes the next one. The file is a field of bytes; ghost
    fields name the slots it consists of. */
module HeaderFiles {
  import opened Crc
  import opened Wrappers
  import opened Files
  import opened Format
  import opened Entries
  import opened Recovery
  import opened Store
  import opened HeaderLog

  datatype Place = Place(off: nat, len: nat)

  /** The store's view of slots that hold these images, None where the data does
      not check. */
  function SlotsOf(slots: seq<seq<u8>>, imgs: seq<Option<Img>>): (r: seq<Slot>)
    requires |slots| == |imgs|
    ensures |r| == |imgs|
    ensures forall i :: 0 <= i < |r| ==> r[i] == Slot(|slots[i]|, imgs[i])
  {
    seq(|imgs|, i requires 0 <= i < |imgs| => Slot(|slots[i]|, imgs[i]))
  }

  ghost predicate OnGrid(bytes: seq<u8>, sb: seq<u8>, slots: seq<seq<u8>>, imgs: seq<Option<Img>>,
      utf8: seq<u8> -> bool) {
    bytes == sb + Flat(slots) && SbShape(sb) && Holders(slots, imgs, utf8)
  }

  // --- selection ---

  function ScanGens(ss: seq<SlotScan>): (r: seq<Option<nat>>)
    ensures |r| == |ss|
    ensures forall i :: 0 <= i < |r| ==> r[i] == if ss[i].parsed.Some? then Some(ss[i].parsed.value.gen) else None
  {
    seq(|ss|, i requires 0 <= i < |ss| => if ss[i].parsed.Some? then Some(ss[i].parsed.value.gen) else None)
  }

  function ScanLens(ss: seq<SlotScan>): (r: seq<Slot>)
    ensures |r| == |ss|
    ensures forall i :: 0 <= i < |r| ==> r[i] == Slot(ss[i].total, None)
  {
    seq(|ss|, i requires 0 <= i < |ss| => Slot(ss[i].total, None))
  }

  /** The slot that open_paths takes over. */
  function Chosen(bytes: seq<u8>, utf8: seq<u8> -> bool): (r: Option<nat>)
    ensures r.Some? ==> r.value < |ScanAll(bytes, SB_SIZE, utf8)| && ScanAll(bytes, SB_SIZE, utf8)[r.value].parsed.Some?
  {
    Choose(ReadSb(bytes), ScanGens(ScanAll(bytes, SB_SIZE, utf8)))
  }

  function WithoutDownloading(es: seq<Entry>): seq<Entry> {
    if es == [] then []
    else
      var e := es[|es| - 1];
      WithoutDownloading(es[..|es| - 1]) + (if e.state == ST_DOWNLOADING then [] else [e])
  }

  method DropLoop(es: seq<Entry>) returns (r: seq<Entry>)
    ensures r == WithoutDownloading(es)
  {
    r := [];
    for i := 0 to |es|
      invariant r == WithoutDownloading(es[..i])
    {
      assert es[..i + 1][..i] == es[..i];
      if es[i].state != ST_DOWNLOADING {
        r := r + [es[i]];
      }
    }
    assert es[..|es|] == es;
  }

  /** The slot to write next: the longest but the chosen one. */
  method SpareSlot(ss: seq<SlotScan>, chosen: nat) returns (r: Option<Place>)
    requires chosen < |ss| && forall i, j :: 0 <= i < j < |ss| ==> ss[i].off < ss[j].off
    ensures var n := Spare(ScanLens(ss), |ss|, chosen);
      r == if n.Some? then Some(Place(ss[n.value].off, ss[n.value].total)) else None
  {
    r := None;
    for i := 0 to |ss|
      invariant var n := Spare(ScanLens(ss), i, chosen);
        r == if n.Some? then Some(Place(ss[n.value].off, ss[n.value].total)) else None
    {
      if ss[i].off != ss[chosen].off && (r.None? || ss[i].total >= r.value.len) {
        r := Some(Place(ss[i].off, ss[i].total));
      }
    }
  }

  lemma {:induction false} SpareByLength(a: seq<Slot>, b: seq<Slot>, n: nat, chosen: nat)
    requires |a| == |b| && n <= |a| && forall i :: 0 <= i < |a| ==> a[i].len == b[i].len
    ensures Spare(a, n, chosen) == Spare(b, n, chosen)
  {
    if n > 0 {
      SpareByLength(a, b, n - 1, chosen);
    }
  }

  /** On a header without gaps the scan selects exactly what the store calls
      the recovered region, and the same spare slot. */
  lemma ScanSelectsRecovered(bytes: seq<u8>, sb: seq<u8>, slots: seq<seq<u8>>, imgs: seq<Option<Img>>,
      utf8: seq<u8> -> bool)
    requires OnGrid(bytes, sb, slots, imgs, utf8)
    ensures var h := Header(ReadSb(bytes), SlotsOf(slots, imgs)); var c := Chosen(bytes, utf8);
      var ss := ScanAll(bytes, SB_SIZE, utf8);
      && ReportsFrom(ss, slots, imgs, 0)
      && c == Choose(h.sb, SlotGens(h.slots))
      && Recovered(h) == (if c.Some? then imgs[c.value] else None)
      && (c.Some? ==> Spare(ScanLens(ss), |ss|, c.value) == Spare(h.slots, |h.slots|, c.value))
  {
    hide Flat, ScanAll, ScanEnd, Choose, ReadSb, Holder, EntryFor, SlotOff;
    var ss := ScanAll(bytes, SB_SIZE, utf8);
    FlatNone(slots);
    ScanReachesEverySlot(sb, slots, imgs, 0, utf8);
    forall i | 0 <= i < |ss|
      ensures Reports(ss[i], SlotOff(slots, i), |slots[i]|, imgs[i])
    {
      assert ss[i - 0] == ss[i];
    }
    assert ScanGens(ss) == SlotGens(SlotsOf(slots, imgs));
    if Chosen(bytes, utf8).Some? {
      SpareByLength(ScanLens(ss), SlotsOf(slots, imgs), |ss|, Chosen(bytes, utf8).value);
    }
  }

  lemma FlatNone(slots: seq<seq<u8>>)
    ensures SlotOff(slots, 0) == SB_SIZE
  {
    assert slots[..0] == [];
  }

  lemma FlatPut(slots: seq<seq<u8>>, n: nat, slot: seq<u8>)
    requires n < |slots| && |slot| == |slots[n]|
    ensures Flat(slots[n := slot]) == Pwrite(Flat(slots), |Flat(slots[..n])|, slot)
    ensures forall k :: 0 <= k <= |slots| ==> |Flat(slots[n := slot][..k])| == |Flat(slots[..k])|
  {
    var post := FlatReplaced(slots, n, slot);
    forall k | 0 <= k <= |slots|
      ensures |Flat(slots[n := slot][..k])| == |Flat(slots[..k])|
    {
      SameLength(slots[n := slot][..k], slots[..k]);
    }
  }

  lemma {:induction false} FlatReplaced(slots: seq<seq<u8>>, n: nat, slot: seq<u8>) returns (post: seq<u8>)
    requires n < |slots| && |slot| == |slots[n]|
    ensures Flat(slots) == Flat(slots[..n]) + slots[n] + post
    ensures Flat(slots[n := slot]) == Flat(slots[..n]) + slot + post
    decreases |slots|
  {
    var m := |slots| - 1;
    var u := slots[n := slot];
    if n == m {
      assert u[..m] == slots[..m];
      post := [];
    } else {
      var mid := FlatReplaced(slots[..m], n, slot);
      assert slots[..m][..n] == slots[..n];
      assert u[..m] == slots[..m][n := slot];
      post := mid + slots[m];
    }
  }

  lemma {:induction false} SameLength(a: seq<seq<u8>>, b: seq<seq<u8>>)
    requires |a| == |b| && forall i :: 0 <= i < |a| ==> |a[i]| == |b[i]|
    ensures |Flat(a)| == |Flat(b)|
  {
    if a != [] {
      SameLength(a[..|a| - 1], b[..|b| - 1]);
    }
  }

  function PutAt<T>(s: seq<T>, n: nat, x: T): (r: seq<T>)
    requires n <= |s|
  {
    if n == |s| then s + [x] else s[n := x]
  }

  /** Writing a region over a slot of its length, or at the end of the file,
      replaces or appends one slot. */
  lemma PutBytes(sb: seq<u8>, slots: seq<seq<u8>>, n: nat, slot: seq<u8>)
    requires |sb| == SB_SIZE && n <= |slots| && (n < |slots| ==> |slot| == |slots[n]|)
    ensures Pwrite(sb + Flat(slots), SlotOff(slots, n), slot) == sb + Flat(PutAt(slots, n, slot))
    ensures forall k :: 0 <= k <= |slots| ==> SlotOff(PutAt(slots, n, slot), k) == SlotOff(slots, k)
  {
    hide Flat;
    var put := PutAt(slots, n, slot);
    if n == |slots| {
      assert put[..n] == slots && slots[..n] == slots;
      FlatSplit(put, n);
      assert put[..n + 1] == put;
      forall k | 0 <= k <= n
        ensures SlotOff(put, k) == SlotOff(slots, k)
      {
        assert put[..k] == slots[..k];
      }
      assert Pwrite(sb + Flat(slots), SlotOff(slots, n), slot) == sb + (Flat(slots) + slot);
    } else {
      FlatPut(slots, n, slot);
      FlatSplit(slots, n);
      PwriteBehind(sb, Flat(slots), |Flat(slots[..n])|, slot);
    }
  }

  lemma PwriteBehind(a: seq<u8>, b: seq<u8>, off: nat, d: seq<u8>)
    requires off <= |b|
    ensures Pwrite(a + b, |a| + off, d) == a + Pwrite(b, off, d)
  {
    assert (a + b)[..|a| + off] == a + b[..off];
    if off + |d| <= |b| {
      assert (a + b)[|a| + off + |d|..] == b[off + |d|..];
    }
  }

  /** What the layout fields say about the slots; pg is the water mark. */
  ghost predicate LayoutOk(slots: seq<seq<u8>>, imgs: seq<Option<Img>>, active: Place, activeAt: nat,
                           inactive: Option<Place>, inactiveAt: Option<nat>, pg: nat) {
    && |slots| == |imgs|
    && PlaceOf(slots, activeAt) == Some(active) && imgs[activeAt].Some? && imgs[activeAt].value.gen == pg
    && (inactiveAt.None? ==> inactive.None?)
    && (inactiveAt.Some? ==>
      inactiveAt.value != activeAt && inactive.Some? && PlaceOf(slots, inactiveAt.value) == inactive)
  }

  class HeaderFile {
    const utf8: seq<u8> -> bool
    var bytes: seq<u8>
    var active: Place
    var inactive: Option<Place>
    var persistedGen: nat
    ghost var sb: seq<u8>
    ghost var slots: seq<seq<u8>>
    ghost var imgs: seq<Option<Img>>
    ghost var activeAt: nat
    ghost var inactiveAt: Option<nat>

    ghost predicate Valid()
      reads this
    {
      OnGrid(bytes, sb, slots, imgs, utf8)
        && LayoutOk(slots, imgs, active, activeAt, inactive, inactiveAt, persistedGen)
    }

    constructor (utf8: seq<u8> -> bool, bytes: seq<u8>, active: Place, inactive: Option<Place>, gen: nat,
                 ghost sb: seq<u8>, ghost slots: seq<seq<u8>>, ghost imgs: seq<Option<Img>>,
                 ghost activeAt: nat, ghost inactiveAt: Option<nat>)
      ensures this.utf8 == utf8 && this.bytes == bytes && this.active == active && this.inactive == inactive
      ensures persistedGen == gen
      ensures this.sb == sb && this.slots == slots && this.imgs == imgs && this.activeAt == activeAt
      ensures this.inactiveAt == inactiveAt
    {
      this.utf8, this.bytes, this.active, this.inactive, persistedGen := utf8, bytes, active, inactive, gen;
      this.sb, this.slots, this.imgs, this.activeAt, this.inactiveAt := sb, slots, imgs, activeAt, inactiveAt;
    }

    /** The header as the store sees it. */
    ghost function View(): Header
      requires Valid()
      reads this
    {
      Header(ReadSb(bytes), SlotsOf(slots, imgs))
    }

    /** The image in the slot in use. */
    ghost function ActiveImage(): Option<Img>
      reads this
    {
      if activeAt < |imgs| then imgs[activeAt] else None
    }

    /** persist_image: what it does to the bytes is what the store's persist
        steps do to the list of slots, and the slot in use is not touched.
        synced is the file between the two syncs, the region written and the
        SuperBlock not yet flipped. */
    method PersistImage(gen: nat, region: seq<u8>, ghost img: Img) returns (r: Result<()>, ghost synced: seq<u8>)
      requires Valid() && Built(region, img, utf8) && img.gen == gen
      modifies this
      ensures Valid()
      ensures r == if gen < old(persistedGen) then Err(GenChanged) else Ok(())
      ensures r.Err? ==> unchanged(this)
      ensures r.Ok? ==>
        var reuse := old(inactive).Some? && old(inactive).value.len == |region|;
        var at := if reuse then old(inactive).value.off else |old(bytes)|;
        && synced == Pwrite(old(bytes), at, region) && bytes == Pwrite(synced, SB_GEN_OFF, SbPatch(gen))
        && active == Place(at, |region|) && inactive == Some(old(active))
      ensures r.Ok? ==>
        var dest := DestOf(old(inactiveAt), old(View()).slots, img);
        && dest <= |old(slots)| && dest != old(activeAt)
        && OnGrid(synced, old(sb), PutAt(old(slots), dest, region), PutAt(old(imgs), dest, Some(img)), utf8)
        && View() == Header(Some(gen), PutSlot(old(View()).slots, dest, Slot(RegionLen(img), Some(img))))
        && activeAt == dest && inactiveAt == Some(old(activeAt)) && persistedGen == gen && ActiveImage() == Some(img)
    {
      hide OnGrid, LayoutOk, Built, RegionLen, DestOf, SlotOff, PutAt, PutSlot, Pwrite, SbPatch, SbImage, ReadSb;
      synced := [];
      if gen < persistedGen {
        return Err(GenChanged), synced;
      }
      ghost var dest := DestOf(inactiveAt, View().slots, img);
      DestPlace(bytes, sb, slots, imgs, active, activeAt, inactive, inactiveAt, persistedGen, region, img, utf8);
      var reuse := inactive.Some? && |region| == inactive.value.len;
      var place := if reuse then inactive.value else Place(|bytes|, |region|);
      PersistGrid(bytes, sb, slots, imgs, dest, region, img, utf8);
      LayoutStep(slots, imgs, active, activeAt, inactive, inactiveAt, persistedGen, dest, region, img);
      bytes := Pwrite(bytes, place.off, region);
      synced := bytes;
      bytes := Pwrite(bytes, SB_GEN_OFF, SbPatch(gen));
      sb, slots, imgs := SbImage(gen), PutAt(slots, dest, region), PutAt(imgs, dest, Some(img));
      inactive, inactiveAt := Some(active), Some(activeAt);
      active, activeAt := place, dest;
      persistedGen := gen;
      r := Ok(());
    }
  }

  lemma LayoutStep(slots: seq<seq<u8>>, imgs: seq<Option<Img>>, active: Place, activeAt: nat, inactive: Option<Place>,
      inactiveAt: Option<nat>,
                   pg: nat, dest: nat, region: seq<u8>, img: Img)
    requires LayoutOk(slots, imgs, active, activeAt, inactive, inactiveAt, pg)
    requires dest <= |slots| && dest != activeAt && (dest < |slots| ==> |region| == |slots[dest]|)
    ensures LayoutOk(PutAt(slots, dest, region), PutAt(imgs, dest, Some(img)),
                     Place(SlotOff(slots, dest), |region|), dest, Some(active), Some(activeAt), img.gen)
    ensures SlotsOf(PutAt(slots, dest, region), PutAt(imgs, dest, Some(img)))
         == PutSlot(SlotsOf(slots, imgs), dest, Slot(|region|, Some(img)))
    ensures dest < |PutAt(imgs, dest, Some(img))| && PutAt(imgs, dest, Some(img))[dest] == Some(img)
  {
    hide SlotOff;
    PlacesStay(slots, dest, region);
  }

  function PlaceOf(slots: seq<seq<u8>>, n: nat): Option<Place> {
    if n < |slots| then Some(Place(SlotOff(slots, n), |slots[n]|)) else None
  }

  lemma GridLength(bytes: seq<u8>, sb: seq<u8>, slots: seq<seq<u8>>, imgs: seq<Option<Img>>, utf8: seq<u8> -> bool)
    requires OnGrid(bytes, sb, slots, imgs, utf8)
    ensures |slots| == |imgs| && |bytes| == SlotOff(slots, |slots|)
  {
    hide Holder;
    assert slots[..|slots|] == slots;
  }

  lemma DestPlace(bytes: seq<u8>, sb: seq<u8>, slots: seq<seq<u8>>, imgs: seq<Option<Img>>, active: Place,
      activeAt: nat, inactive: Option<Place>, inactiveAt: Option<nat>, pg: nat, region: seq<u8>, img: Img,
      utf8: seq<u8> -> bool)
    requires OnGrid(bytes, sb, slots, imgs, utf8) && Built(region, img, utf8)
    requires LayoutOk(slots, imgs, active, activeAt, inactive, inactiveAt, pg)
    ensures var dest := DestOf(inactiveAt, SlotsOf(slots, imgs), img);
      && |region| == RegionLen(img) && dest <= |slots| == |imgs| && dest != activeAt
      && (dest < |slots| ==> |region| == |slots[dest]|)
      && (if inactive.Some? && |region| == inactive.value.len then inactive.value else Place(|bytes|, |region|))
           == Place(SlotOff(slots, dest), |region|)
  {
    hide Built, RegionLen, SlotOff, SbShape;
    GridLength(bytes, sb, slots, imgs, utf8);
    BuiltHolds(region, img, utf8);
  }

  lemma PersistGrid(bytes: seq<u8>, sb: seq<u8>, slots: seq<seq<u8>>, imgs: seq<Option<Img>>, dest: nat,
      region: seq<u8>,
      img: Img, utf8: seq<u8> -> bool)
    requires OnGrid(bytes, sb, slots, imgs, utf8) && Built(region, img, utf8)
    requires dest <= |slots| && (dest < |slots| ==> |region| == |slots[dest]|)
    ensures var s, i := PutAt(slots, dest, region), PutAt(imgs, dest, Some(img));
      var w := Pwrite(bytes, SlotOff(slots, dest), region);
      && OnGrid(w, sb, s, i, utf8)
      && OnGrid(Pwrite(w, SB_GEN_OFF, SbPatch(img.gen)), SbImage(img.gen), s, i, utf8)
      && ReadSb(Pwrite(w, SB_GEN_OFF, SbPatch(img.gen))) == Some(img.gen)
  {
    hide Flat, SbImage, SbPatch, Pwrite, SlotOff, ReadSb, Holder, Built;
    BuiltHolds(region, img, utf8);
    PutBytes(sb, slots, dest, region);
    SbPatchFlips(sb, img.gen, Flat(PutAt(slots, dest, region)));
    SbImageShape(img.gen);
  }

  lemma PlacesStay(slots: seq<seq<u8>>, dest: nat, region: seq<u8>)
    requires dest <= |slots| && (dest < |slots| ==> |region| == |slots[dest]|)
    ensures forall k :: 0 <= k < |slots| && k != dest ==> PlaceOf(PutAt(slots, dest, region), k) == PlaceOf(slots, k)
    ensures PlaceOf(PutAt(slots, dest, region), dest) == Some(Place(SlotOff(slots, dest), |region|))
  {
    PutBytes(Zeros(SB_SIZE), slots, dest, region);
  }

  // --- which files qualify ---

  /** A header file is made of slots without gaps, good or not, exactly when
      the scan reads it to its end. */
  lemma GridIffScanned(file: seq<u8>, utf8: seq<u8> -> bool)
    requires SB_SIZE <= |file| && SbShape(file[..SB_SIZE])
    ensures ScanEnd(file, SB_SIZE, utf8) == |file| <==>
      exists slots, imgs :: OnGrid(file, file[..SB_SIZE], slots, imgs, utf8)
  {
    hide ScanEnd, Flat, Cuts, CutImgs, Holders, SbShape;
    if ScanEnd(file, SB_SIZE, utf8) == |file| {
      ScannedIsGapless(file, SB_SIZE, utf8);
      assert file == file[..SB_SIZE] + file[SB_SIZE..];
      assert OnGrid(file, file[..SB_SIZE], Cuts(file, SB_SIZE, utf8), CutImgs(file, SB_SIZE, utf8), utf8);
    }
    if slots, imgs :| OnGrid(file, file[..SB_SIZE], slots, imgs, utf8) {
      FlatNone(slots);
      HoldersLength(slots, imgs, utf8);
      ScanReachesEverySlot(file[..SB_SIZE], slots, imgs, 0, utf8);
    }
  }

  lemma HoldersLength(slots: seq<seq<u8>>, imgs: seq<Option<Img>>, utf8: seq<u8> -> bool)
    requires Holders(slots, imgs, utf8)
    ensures |slots| == |imgs|
  {
  }

  lemma ReadSbPrefix(sb: seq<u8>, a: seq<u8>, b: seq<u8>)
    requires |sb| == SB_SIZE
    ensures ReadSb(sb + a) == ReadSb(sb + b)
  {
    hide FromLe, FromLeCrc, Crc32;
    CutLeft(sb, a, 0, 20);
    CutLeft(sb, b, 0, 20);
    CutLeft(sb, a, 0, 8);
    CutLeft(sb, b, 0, 8);
    CutLeft(sb, a, 8, 12);
    CutLeft(sb, b, 8, 12);
    CutLeft(sb, a, 12, 20);
    CutLeft(sb, b, 12, 20);
    CutLeft(sb, a, 20, 24);
    CutLeft(sb, b, 20, 24);
  }

  /** A region write that a crash tore, of which the header and some body are on
      disk, leaves the bytes that the store's torn slot stands for. */
  lemma TornWriteIsCrash(s: State, bytes: seq<u8>, sb: seq<u8>, slots: seq<seq<u8>>, imgs: seq<Option<Img>>,
      torn: seq<u8>,
      utf8: seq<u8> -> bool)
    requires OnGrid(bytes, sb, slots, imgs, utf8) && |slots| == |imgs|
    requires s.hdr == Header(ReadSb(bytes), SlotsOf(slots, imgs))
    requires s.job.Some? && s.job.value.phase.Wrote? && s.job.value.dest <= |slots|
    requires s.job.value.dest < |slots| ==> |slots[s.job.value.dest]| == |torn|
    requires Holder(torn, None, utf8) && |torn| == RegionLen(s.job.value.img)
    ensures var dest := s.job.value.dest;
      var w, ts, ti := Pwrite(bytes, SlotOff(slots, dest), torn), PutAt(slots, dest, torn), PutAt(imgs, dest, None);
      OnGrid(w, sb, ts, ti, utf8) && HeaderCrash(s, Header(ReadSb(w), SlotsOf(ts, ti)))
  {
    hide Flat, Pwrite, SlotOff, ReadSb, Holder, RegionLen;
    var dest := s.job.value.dest;
    PutBytes(sb, slots, dest, torn);
    ReadSbPrefix(sb, Flat(slots), Flat(PutAt(slots, dest, torn)));
    assert SlotsOf(PutAt(slots, dest, torn), PutAt(imgs, dest, None))
        == PutSlot(SlotsOf(slots, imgs), dest, Slot(|torn|, None));
  }

  // --- opening ---

  const FRESH: Img := Img(1, 0, [])

  lemma FreshBuilt(utf8: seq<u8> -> bool)
    ensures Built(RegionOf(1, 0, [], []), FRESH, utf8)
  {
    hide RegionOf;
    assert Rep(RegionOf(1, 0, [], []), FRESH, [], [], utf8);
  }

  lemma OneSlotGrid(sb: seq<u8>, r: seq<u8>, img: Img, utf8: seq<u8> -> bool)
    requires SbShape(sb) && Built(r, img, utf8)
    ensures OnGrid(sb + r, sb, [r], [Some(img)], utf8)
    ensures LayoutOk([r], [Some(img)], Place(SB_SIZE, |r|), 0, None, None, img.gen)
  {
    hide RegionLen, Holder, Built;
    BuiltHolds(r, img, utf8);
    assert [r][..0] == [];
    assert Flat([r]) == r;
  }

  lemma FreshGrid(utf8: seq<u8> -> bool)
    ensures var r := RegionOf(1, 0, [], []);
      && OnGrid(SbImage(1) + r, SbImage(1), [r], [Some(FRESH)], utf8)
      && LayoutOk([r], [Some(FRESH)], Place(SB_SIZE, |r|), 0, None, None, 1)
  {
    hide RegionOf, SbImage, OnGrid, LayoutOk, Built;
    FreshBuilt(utf8);
    SbImageShape(1);
    OneSlotGrid(SbImage(1), RegionOf(1, 0, [], []), FRESH, utf8);
  }

  /** open_paths on the header file. Ghost arguments name the slots when the
      file is a sequence of them. */
  method OpenHeader(file: seq<u8>, utf8: seq<u8> -> bool, ghost slots: seq<seq<u8>>, ghost imgs: seq<Option<Img>>)
    returns (h: HeaderFile, gen: nat, logical: nat, entries: seq<Entry>, names: seq<u8>)
    ensures fresh(h) && h.utf8 == utf8 && h.persistedGen == gen
    ensures Chosen(file, utf8).None? ==>
      h.Valid() && h.bytes == SbImage(1) + RegionOf(1, 0, [], []) && h.imgs == [Some(FRESH)]
      && gen == 1 && logical == 0 && entries == [] && names == []
    ensures Chosen(file, utf8).Some? ==>
      var p := ScanAll(file, SB_SIZE, utf8)[Chosen(file, utf8).value].parsed.value;
      h.bytes == file && gen == p.gen && logical == p.logical && entries == WithoutDownloading(p.entries)
      && names == p.names
    ensures Chosen(file, utf8).Some? && |file| >= SB_SIZE && OnGrid(file, file[..SB_SIZE], slots, imgs, utf8) ==>
      h.Valid() && h.slots == slots && h.imgs == imgs && h.activeAt == Chosen(file, utf8).value
      && h.inactiveAt == Spare(h.View().slots, |imgs|, h.activeAt)
  {
    hide OnGrid, LayoutOk, ScanAll, Choose, ReadSb, SbImage, RegionOf, Spare, ScanGens;
    var ss := ScanSlots(file, utf8);
    var best := ChooseSlot(ReadSb(file), ScanGens(ss));
    if best.None? {
      var bytes, blobOff := Serialize(1, 0, [], []);
      var sb := FillSb(1);
      FreshGrid(utf8);
      gen, logical, entries, names := 1, 0, [], [];
      h := new HeaderFile(utf8, sb[..] + bytes, Place(SB_SIZE, |bytes|), None, 1, SbImage(1), [bytes], [Some(FRESH)], 0,
        None);
    } else {
      var s := ss[best.value];
      ScanOffsets(file, SB_SIZE, utf8);
      assert s.parsed.Some? by { assert best == Chosen(file, utf8); }
      gen, logical, names := s.parsed.value.gen, s.parsed.value.logical, s.parsed.value.names;
      entries := DropLoop(s.parsed.value.entries);
      var inactive := SpareSlot(ss, best.value);
      ghost var spare := Spare(ScanLens(ss), |ss|, best.value);
      h := new HeaderFile(utf8, file, Place(s.off, s.total), inactive, gen,
                          if |file| >= SB_SIZE then file[..SB_SIZE] else [], slots, imgs, best.value, spare);
      if |file| >= SB_SIZE && OnGrid(file, file[..SB_SIZE], slots, imgs, utf8) {
        OpenLayout(file, slots, imgs, utf8);
      }
    }
  }

  lemma OpenLayout(file: seq<u8>, slots: seq<seq<u8>>, imgs: seq<Option<Img>>, utf8: seq<u8> -> bool)
    requires |file| >= SB_SIZE && OnGrid(file, file[..SB_SIZE], slots, imgs, utf8) && Chosen(file, utf8).Some?
    ensures var ss, c := ScanAll(file, SB_SIZE, utf8), Chosen(file, utf8).value;
      var n := Spare(ScanLens(ss), |ss|, c);
      && |slots| == |imgs| && n == Spare(SlotsOf(slots, imgs), |imgs|, c)
      && LayoutOk(slots, imgs, Place(ss[c].off, ss[c].total), c,
                  if n.Some? then Some(Place(ss[n.value].off, ss[n.value].total)) else None, n, ss[c].parsed.value.gen)
  {
    hide Chosen, Holder, Flat, SbShape, ScanAll, EntryFor, SlotOff;
    ScanSelectsRecovered(file, file[..SB_SIZE], slots, imgs, utf8);
    GridLength(file, file[..SB_SIZE], slots, imgs, utf8);
    var ss, c := ScanAll(file, SB_SIZE, utf8), Chosen(file, utf8).value;
    forall i | 0 <= i < |ss|
      ensures Reports(ss[i], SlotOff(slots, i), |slots[i]|, imgs[i])
    {
      assert ss[i - 0] == ss[i];
    }
  }
}
