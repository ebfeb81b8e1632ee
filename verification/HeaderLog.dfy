/** header.vfs as bytes: a SuperBlock followed by region slots without gaps.
    The sequential scan of open_paths finds every slot, and persist_image does
    to the bytes what the store does to its list of slots. */
module HeaderLog {
  import opened Crc
  import opened Wrappers
  import opened Files
  import opened Format
  import opened Entries
  import opened Recovery
  import opened Store

  function Flat(slots: seq<seq<u8>>): seq<u8> {
    if slots == [] then [] else Flat(slots[..|slots| - 1]) + slots[|slots| - 1]
  }

  /** Where slot n starts. */
  function SlotOff(slots: seq<seq<u8>>, n: nat): nat
    requires n <= |slots|
  {
    SB_SIZE + |Flat(slots[..n])|
  }

  // --- the scan ---

  /** All readable slots from pos on. */
  function ScanAll(bytes: seq<u8>, pos: nat, utf8: seq<u8> -> bool): seq<SlotScan>
    decreases |bytes| - pos
  {
    match ScanSlot(bytes, pos, utf8)
    case None => []
    case Some(s) => [s] + ScanAll(bytes, pos + s.total, utf8)
  }

  method ScanSlots(bytes: seq<u8>, utf8: seq<u8> -> bool) returns (slots: seq<SlotScan>)
    ensures slots == ScanAll(bytes, SB_SIZE, utf8)
  {
    hide ScanSlot;
    slots := [];
    var pos := SB_SIZE;
    var next := ScanSlotLoop(bytes, pos, utf8);
    while next.Some?
      invariant next == ScanSlot(bytes, pos, utf8)
      invariant slots + ScanAll(bytes, pos, utf8) == ScanAll(bytes, SB_SIZE, utf8)
      decreases |bytes| - pos + (if next.Some? then 1 else 0)
    {
      slots := slots + [next.value];
      pos := pos + next.value.total;
      next := ScanSlotLoop(bytes, pos, utf8);
    }
  }

  /** Where the scan stops. */
  function ScanEnd(bytes: seq<u8>, pos: nat, utf8: seq<u8> -> bool): (r: nat)
    ensures pos <= r && (pos <= |bytes| ==> r <= |bytes|)
    decreases |bytes| - pos
  {
    match ScanSlot(bytes, pos, utf8)
    case None => pos
    case Some(s) => ScanEnd(bytes, pos + s.total, utf8)
  }

  // --- what a slot holds ---

  ghost predicate EntryFor(e: Entry, names: seq<u8>, n: Ent) {
    && e.nameOff + e.nameLen + 1 <= |names| && NameAt(names, e) == n.name
    && e.state == n.state && e.offset == n.offset && e.size == n.size && e.crc == n.crc
  }

  /** The parsed region is this image. */
  ghost predicate Describes(p: ParsedRegion, img: Img) {
    && p.gen == img.gen && p.logical == img.logical && |p.entries| == |img.ents|
    && forall i :: 0 <= i < |p.entries| ==> EntryFor(p.entries[i], p.names, img.ents[i])
  }

  /** A scan that got held out of the slot; None where the data does not check. */
  ghost predicate Tells(parsed: Option<ParsedRegion>, held: Option<Img>) {
    if held.None? then parsed.None? else parsed.Some? && Describes(parsed.value, held.value)
  }

  /** Bytes that the scan takes for one slot, whatever they are: a region, or a
      readable header with a body that does not check. */
  predicate Whole(slot: seq<u8>, utf8: seq<u8> -> bool) {
    ScanSlot(slot, 0, utf8).Some? && ScanSlot(slot, 0, utf8).value.total == |slot|
  }

  ghost predicate Holder(slot: seq<u8>, held: Option<Img>, utf8: seq<u8> -> bool) {
    Whole(slot, utf8) && Tells(ScanSlot(slot, 0, utf8).value.parsed, held)
  }

  ghost predicate Holders(slots: seq<seq<u8>>, imgs: seq<Option<Img>>, utf8: seq<u8> -> bool) {
    |slots| == |imgs| && forall i :: 0 <= i < |slots| ==> Holder(slots[i], imgs[i], utf8)
  }

  /** What build_region makes of the image, with these table entries and this
      string area. */
  ghost predicate Rep(slot: seq<u8>, img: Img, es: seq<Entry>, names: seq<u8>, utf8: seq<u8> -> bool) {
    && slot == RegionOf(img.gen, img.logical, es, names)
    && img.gen < TWO64 && img.logical < TWO64
    && |es| == |img.ents| <= MAX_COUNT && |names| == NameBytes(img.ents) <= MAX_STRINGS
    && EntriesFit(es)
    && forall i :: 0 <= i < |es| ==> EntryFor(es[i], names, img.ents[i]) && utf8(img.ents[i].name)
  }

  ghost predicate Built(slot: seq<u8>, img: Img, utf8: seq<u8> -> bool) {
    exists es, names :: Rep(slot, img, es, names, utf8)
  }

  /** A region that was built holds its image. */
  lemma BuiltHolds(slot: seq<u8>, img: Img, utf8: seq<u8> -> bool)
    requires Built(slot, img, utf8)
    ensures Holder(slot, Some(img), utf8) && |slot| == RegionLen(img) && img.gen < TWO64
  {
    hide RegionOf, ScanSlot;
    var es, names :| Rep(slot, img, es, names, utf8);
    ScanReads([], img.gen, img.logical, es, names, [], utf8);
    assert [] + slot + [] == slot;
  }

  /** A slot is read the same wherever it lies in a file. */
  lemma ScanShift(pre: seq<u8>, slot: seq<u8>, post: seq<u8>, utf8: seq<u8> -> bool)
    requires Whole(slot, utf8)
    ensures ScanSlot(pre + slot + post, |pre|, utf8) == Some(ScanSlot(slot, 0, utf8).value.(off := |pre|))
  {
    hide FromLe, FromLeCrc, Crc32, ParseCells;
    var hdr, body := slot[..REGION_HDR_SIZE], slot[REGION_HDR_SIZE..];
    assert slot == hdr + body;
    SlotCuts(pre, hdr, body, post);
    assert slot[0..REGION_HDR_SIZE] == hdr && slot[REGION_HDR_SIZE..|slot|] == body;
  }

  /** ... and cut out of a file it is the same slot. */
  lemma ScanCut(bytes: seq<u8>, off: nat, utf8: seq<u8> -> bool)
    requires ScanSlot(bytes, off, utf8).Some?
    ensures var s := ScanSlot(bytes, off, utf8).value;
      ScanSlot(bytes[off..off + s.total], 0, utf8) == Some(s.(off := 0))
  {
    hide FromLe, FromLeCrc, Crc32, ParseCells;
    var s := ScanSlot(bytes, off, utf8).value;
    var c := bytes[off..off + s.total];
    assert c[0..REGION_HDR_SIZE] == bytes[off..off + REGION_HDR_SIZE];
    assert c[REGION_HDR_SIZE..s.total] == bytes[off + REGION_HDR_SIZE..off + s.total];
  }

  /** An image that tells what was parsed; the bytes of the files are not in
      the header. */
  function EntOf(p: ParsedRegion, e: Entry): Ent {
    Ent(if e.nameOff + e.nameLen <= |p.names| then NameAt(p.names, e) else [], e.state, e.offset, e.size, e.crc, [])
  }

  function ImgOf(p: ParsedRegion): Img {
    Img(p.gen, p.logical, seq(|p.entries|, i requires 0 <= i < |p.entries| => EntOf(p, p.entries[i])))
  }

  function HeldOf(parsed: Option<ParsedRegion>): Option<Img> {
    if parsed.Some? then Some(ImgOf(parsed.value)) else None
  }

  lemma {:induction false} ParsedNames(table: seq<u8>, n: nat, names: seq<u8>, utf8: seq<u8> -> bool)
    requires n * ENTRY_SIZE <= |table| && ParseCells(table, n, names, utf8).Some?
    ensures forall e :: e in ParseCells(table, n, names, utf8).value ==> e.nameOff + e.nameLen + 1 <= |names|
  {
    hide DecodeEntry;
    if n > 0 {
      ParsedNames(table, n - 1, names, utf8);
    }
  }

  /** Whatever the scan takes for a slot holds something. */
  lemma ScannedHolds(slot: seq<u8>, utf8: seq<u8> -> bool)
    requires Whole(slot, utf8)
    ensures Holder(slot, HeldOf(ScanSlot(slot, 0, utf8).value.parsed), utf8)
  {
    hide FromLe, FromLeCrc, Crc32, ParseCells, NameAt;
    var s := ScanSlot(slot, 0, utf8).value;
    if s.parsed.Some? {
      var count := FromLe(slot[0..REGION_HDR_SIZE][8..12]);
      var body := slot[REGION_HDR_SIZE..|slot|];
      ParsedNames(body[..count * ENTRY_SIZE], count, body[count * ENTRY_SIZE..], utf8);
    }
  }

  // --- slots without gaps ---

  lemma {:induction false} FlatSplit(slots: seq<seq<u8>>, n: nat)
    requires n < |slots|
    ensures exists post :: Flat(slots) == Flat(slots[..n]) + slots[n] + post
    ensures Flat(slots[..n + 1]) == Flat(slots[..n]) + slots[n]
  {
    assert slots[..n + 1][..n] == slots[..n];
    var m := |slots| - 1;
    if n == m {
      assert slots[..n + 1] == slots;
      assert Flat(slots) == Flat(slots[..n]) + slots[n] + [];
    } else {
      FlatSplit(slots[..m], n);
      assert slots[..m][..n] == slots[..n];
      var post :| Flat(slots[..m]) == Flat(slots[..n]) + slots[n] + post;
      assert Flat(slots) == Flat(slots[..n]) + slots[n] + (post + slots[m]);
    }
  }

  /** What the scan reports for a slot at off that holds held. */
  ghost predicate Reports(s: SlotScan, off: nat, len: nat, held: Option<Img>) {
    s.off == off && s.total == len && Tells(s.parsed, held)
  }

  /** The scan of a gapless header file reports the slots from n on, in order. */
  ghost predicate ReportsFrom(r: seq<SlotScan>, slots: seq<seq<u8>>, imgs: seq<Option<Img>>, n: nat)
    requires |slots| == |imgs| && n <= |slots|
  {
    |r| == |slots| - n && forall i :: n <= i < |slots| ==> Reports(r[i - n], SlotOff(slots, i), |slots[i]|, imgs[i])
  }

  lemma ReportsCons(s: SlotScan, r: seq<SlotScan>, slots: seq<seq<u8>>, imgs: seq<Option<Img>>, n: nat)
    requires |slots| == |imgs| && n < |slots|
    requires Reports(s, SlotOff(slots, n), |slots[n]|, imgs[n]) && ReportsFrom(r, slots, imgs, n + 1)
    ensures ReportsFrom([s] + r, slots, imgs, n)
  {
    hide Reports, SlotOff;
    var q := [s] + r;
    forall i | n <= i < |slots|
      ensures Reports(q[i - n], SlotOff(slots, i), |slots[i]|, imgs[i])
    {
      if i > n {
        assert q[i - n] == r[i - (n + 1)];
      }
    }
  }

  lemma ScanAllStep(bytes: seq<u8>, pos: nat, utf8: seq<u8> -> bool)
    ensures ScanSlot(bytes, pos, utf8).None? ==> ScanAll(bytes, pos, utf8) == [] && ScanEnd(bytes, pos, utf8) == pos
    ensures ScanSlot(bytes, pos, utf8).Some? ==>
      var s := ScanSlot(bytes, pos, utf8).value;
      && ScanAll(bytes, pos, utf8) == [s] + ScanAll(bytes, pos + s.total, utf8)
      && ScanEnd(bytes, pos, utf8) == ScanEnd(bytes, pos + s.total, utf8)
  {
    hide ScanSlot;
  }

  /** The scan of slots without gaps reaches every slot start, in order, and
      stops where the first unreadable header begins. */
  lemma {:induction false} ScanUpToTail(bytes: seq<u8>, sb: seq<u8>, slots: seq<seq<u8>>, imgs: seq<Option<Img>>,
      tail: seq<u8>, n: nat, utf8: seq<u8> -> bool)
    requires bytes == sb + Flat(slots) + tail && |sb| == SB_SIZE && Holders(slots, imgs, utf8) && n <= |slots|
    requires ScanSlot(bytes, SlotOff(slots, |slots|), utf8).None?
    ensures ReportsFrom(ScanAll(bytes, SlotOff(slots, n), utf8), slots, imgs, n)
    ensures ScanEnd(bytes, SlotOff(slots, n), utf8) == SlotOff(slots, |slots|)
    decreases |slots| - n
  {
    hide ScanSlot, ScanAll, ScanEnd, Flat, SlotOff, Reports, Holder;
    ScanAllStep(bytes, SlotOff(slots, n), utf8);
    if n < |slots| {
      var s := ScanSlotAt(bytes, sb, slots, imgs, tail, n, utf8);
      ScanUpToTail(bytes, sb, slots, imgs, tail, n + 1, utf8);
      ReportsCons(s, ScanAll(bytes, SlotOff(slots, n + 1), utf8), slots, imgs, n);
    }
  }

  lemma ScanSlotAt(bytes: seq<u8>, sb: seq<u8>, slots: seq<seq<u8>>, imgs: seq<Option<Img>>, tail: seq<u8>, n: nat,
      utf8: seq<u8> -> bool)
    returns (s: SlotScan)
    requires bytes == sb + Flat(slots) + tail && |sb| == SB_SIZE && Holders(slots, imgs, utf8) && n < |slots|
    ensures ScanSlot(bytes, SlotOff(slots, n), utf8) == Some(s)
    ensures Reports(s, SlotOff(slots, n), |slots[n]|, imgs[n]) && SlotOff(slots, n) + s.total == SlotOff(slots, n + 1)
  {
    hide ScanSlot, Flat, Describes;
    FlatSplit(slots, n);
    var post :| Flat(slots) == Flat(slots[..n]) + slots[n] + post;
    var pre := sb + Flat(slots[..n]);
    assert bytes == pre + slots[n] + (post + tail);
    assert Holder(slots[n], imgs[n], utf8);
    ScanShift(pre, slots[n], post + tail, utf8);
    s := ScanSlot(bytes, |pre|, utf8).value;
  }

  /** In a header file without gaps that is every slot, and the whole file. */
  lemma ScanReachesEverySlot(sb: seq<u8>, slots: seq<seq<u8>>, imgs: seq<Option<Img>>, n: nat, utf8: seq<u8> -> bool)
    requires |sb| == SB_SIZE && Holders(slots, imgs, utf8) && n <= |slots|
    ensures ReportsFrom(ScanAll(sb + Flat(slots), SlotOff(slots, n), utf8), slots, imgs, n)
    ensures ScanEnd(sb + Flat(slots), SlotOff(slots, n), utf8) == |sb + Flat(slots)|
  {
    hide ScanSlot, Reports, ScanAll, ScanEnd;
    var bytes := sb + Flat(slots);
    assert slots[..|slots|] == slots;
    assert bytes + [] == bytes;
    ScanStops(bytes);
    ScanUpToTail(bytes, sb, slots, imgs, [], n, utf8);
  }

  lemma ScanStops(bytes: seq<u8>)
    ensures forall utf8 :: ScanSlot(bytes, |bytes|, utf8) == None
  {
  }

  /** The slots that the scan cuts a file into. */
  function Cuts(bytes: seq<u8>, pos: nat, utf8: seq<u8> -> bool): (r: seq<seq<u8>>)
    decreases |bytes| - pos
  {
    match ScanSlot(bytes, pos, utf8)
    case None => []
    case Some(s) => [bytes[pos..pos + s.total]] + Cuts(bytes, pos + s.total, utf8)
  }

  function CutImgs(bytes: seq<u8>, pos: nat, utf8: seq<u8> -> bool): (r: seq<Option<Img>>)
    decreases |bytes| - pos
  {
    match ScanSlot(bytes, pos, utf8)
    case None => []
    case Some(s) => [HeldOf(s.parsed)] + CutImgs(bytes, pos + s.total, utf8)
  }

  lemma {:induction false} FlatCons(a: seq<u8>, rest: seq<seq<u8>>)
    ensures Flat([a] + rest) == a + Flat(rest)
  {
    if rest == [] {
      assert [a] + rest == [a] && [a][..0] == [];
    } else {
      var n := |rest| - 1;
      FlatCons(a, rest[..n]);
      assert ([a] + rest)[..n + 1] == [a] + rest[..n];
      assert a + (Flat(rest[..n]) + rest[n]) == a + Flat(rest[..n]) + rest[n];
    }
  }

  /** A file that the scan reads to its end is made of slots without gaps. */
  lemma {:induction false} ScannedIsGapless(bytes: seq<u8>, pos: nat, utf8: seq<u8> -> bool)
    requires pos <= |bytes| && ScanEnd(bytes, pos, utf8) == |bytes|
    ensures bytes[pos..] == Flat(Cuts(bytes, pos, utf8))
    ensures Holders(Cuts(bytes, pos, utf8), CutImgs(bytes, pos, utf8), utf8)
    decreases |bytes| - pos
  {
    hide ScanSlot, Holder;
    match ScanSlot(bytes, pos, utf8)
    case None =>
    case Some(s) =>
      ScannedIsGapless(bytes, pos + s.total, utf8);
      ScanCut(bytes, pos, utf8);
      ScannedHolds(bytes[pos..pos + s.total], utf8);
      FlatCons(bytes[pos..pos + s.total], Cuts(bytes, pos + s.total, utf8));
      assert bytes[pos..] == bytes[pos..pos + s.total] + bytes[pos + s.total..];
  }

  // --- appending behind a tail ---

  lemma {:induction false} ScanOffsets(bytes: seq<u8>, pos: nat, utf8: seq<u8> -> bool)
    ensures var r := ScanAll(bytes, pos, utf8);
      (forall i :: 0 <= i < |r| ==> pos <= r[i].off) && (forall i, j :: 0 <= i < j < |r| ==> r[i].off < r[j].off)
    decreases |bytes| - pos
  {
    hide ScanSlot;
    match ScanSlot(bytes, pos, utf8)
    case None =>
    case Some(s) =>
      ScanOffsets(bytes, pos + s.total, utf8);
      assert ScanAll(bytes, pos, utf8) == [s] + ScanAll(bytes, pos + s.total, utf8);
  }

  ghost predicate Found(ss: seq<SlotScan>, off: nat) {
    exists i :: 0 <= i < |ss| && ss[i].off == off
  }

  /** A slot that lies wholly in front of the end reads the same in a longer
      file. */
  lemma ScanLonger(file: seq<u8>, region: seq<u8>, pos: nat, utf8: seq<u8> -> bool)
    ensures ScanSlot(file, pos, utf8).Some? ==> ScanSlot(file + region, pos, utf8) == ScanSlot(file, pos, utf8)
    ensures ScanSlot(file, pos, utf8).None? && ScanSlot(file + region, pos, utf8).Some? ==>
      pos + ScanSlot(file + region, pos, utf8).value.total > |file|
  {
    hide FromLe, FromLeCrc, Crc32, ParseCells;
    var all := file + region;
    if pos + REGION_HDR_SIZE <= |file| {
      assert all[pos..pos + REGION_HDR_SIZE] == file[pos..pos + REGION_HDR_SIZE];
      var h := file[pos..pos + REGION_HDR_SIZE];
      var total := REGION_HDR_SIZE + FromLe(h[8..12]) * ENTRY_SIZE + FromLe(h[12..16]);
      if pos + total <= |file| {
        assert all[pos + REGION_HDR_SIZE..pos + total] == file[pos + REGION_HDR_SIZE..pos + total];
      }
    }
  }

  lemma {:induction false} AppendFound(file: seq<u8>, region: seq<u8>, pos: nat, utf8: seq<u8> -> bool)
    requires pos <= |file| && ScanSlot(file + region, |file|, utf8).Some?
    ensures Found(ScanAll(file + region, pos, utf8), |file|) <==> ScanEnd(file, pos, utf8) == |file|
    decreases |file| - pos
  {
    hide ScanSlot, ScanAll, ScanEnd;
    var all := file + region;
    ScanAllStep(file, pos, utf8);
    ScanAllStep(all, pos, utf8);
    ScanLonger(file, region, pos, utf8);
    if pos == |file| {
      ScanStops(file);
      assert ScanAll(all, pos, utf8)[0].off == pos;
    } else if ScanSlot(file, pos, utf8).Some? {
      var s := ScanSlot(file, pos, utf8).value;
      var rest := ScanAll(all, pos + s.total, utf8);
      AppendFound(file, region, pos + s.total, utf8);
      assert ScanAll(all, pos, utf8) == [s] + rest;
      if i :| 0 <= i < |rest| && rest[i].off == |file| {
        assert ([s] + rest)[i + 1].off == |file|;
      }
    } else if ScanSlot(all, pos, utf8).Some? {
      ScanOffsets(all, pos + ScanSlot(all, pos, utf8).value.total, utf8);
    }
  }

  /** persist_image appends at the end of the file. The next open finds the
      region if and only if the scan of the file as it was reads to its end: a
      tail that a torn append left and that was not cut off hides everything
      behind it, whether it stays unreadable or swallows the new region. */
  lemma TailHidesAppends(file: seq<u8>, region: seq<u8>, utf8: seq<u8> -> bool)
    requires SB_SIZE <= |file| && Whole(region, utf8)
    ensures Found(ScanAll(Pwrite(file, |file|, region), SB_SIZE, utf8), |file|) <==>
      ScanEnd(file, SB_SIZE, utf8) == |file|
  {
    hide ScanSlot, ScanAll, ScanEnd, Pwrite;
    PwriteAtEnd(file, region);
    ScanShift(file, region, [], utf8);
    assert file + region + [] == file + region;
    AppendFound(file, region, SB_SIZE, utf8);
  }

  /** A torn append: the new slot's header, or a part of it, and not the whole
      body. */
  ghost predicate TornAppend(tail: seq<u8>, slot: seq<u8>, utf8: seq<u8> -> bool) {
    Whole(slot, utf8) && tail <= slot && 0 < |tail| < |slot|
  }

  /** Such a tail hides the next region that is appended. */
  lemma TornTailHides(sb: seq<u8>, slots: seq<seq<u8>>, imgs: seq<Option<Img>>, tail: seq<u8>, torn: seq<u8>,
      region: seq<u8>,
      utf8: seq<u8> -> bool)
    requires |sb| == SB_SIZE && Holders(slots, imgs, utf8) && TornAppend(tail, torn, utf8) && Whole(region, utf8)
    ensures var file := sb + Flat(slots) + tail; !Found(ScanAll(Pwrite(file, |file|, region), SB_SIZE, utf8), |file|)
  {
    hide ScanSlot, ScanAll, ScanEnd, Pwrite, Holder, Found;
    var pre := sb + Flat(slots);
    var file := pre + tail;
    TornUnread(pre, tail, torn, utf8);
    assert slots[..|slots|] == slots && slots[..0] == [];
    ScanUpToTail(file, sb, slots, imgs, tail, 0, utf8);
    TailHidesAppends(file, region, utf8);
  }

  lemma TornUnread(pre: seq<u8>, tail: seq<u8>, torn: seq<u8>, utf8: seq<u8> -> bool)
    requires TornAppend(tail, torn, utf8)
    ensures ScanSlot(pre + tail, |pre|, utf8).None?
  {
    hide FromLe, FromLeCrc, Crc32, ParseCells;
    if REGION_HDR_SIZE <= |tail| {
      assert (pre + tail)[|pre|..|pre| + REGION_HDR_SIZE] == torn[0..REGION_HDR_SIZE];
    }
  }

  // --- a torn slot ---

  /** While a slot is rewritten its body may be anything: as long as the 32
      bytes of its header are those of the old or of the new region, the scan
      steps over it to the next slot, and rejects it if its data does not
      check. */
  lemma TornSlotKeepsGrid(gen: nat, count: nat, strings: nat, crc: u32, logical: nat, body: seq<u8>,
      utf8: seq<u8> -> bool)
    requires gen < TWO64 && logical < TWO64 && count <= MAX_COUNT && strings <= MAX_STRINGS
    requires |body| == count * ENTRY_SIZE + strings && Crc32(body) != crc
    ensures Holder(RegionHeader(gen, count, strings, crc, logical) + body, None, utf8)
  {
    hide RegionHeader, Crc32, FromLe, FromLeCrc, ParseCells;
    var hdr := RegionHeader(gen, count, strings, crc, logical);
    SlotCuts([], hdr, body, []);
    assert [] + (hdr + body) + [] == hdr + body;
    HeaderFields(gen, count, strings, crc, logical);
  }
}
