/** flush: the index in memory becomes the active region of header.vfs, and
    opening that header gives the index back. */
module Flushing {
  import opened Crc
  import opened Wrappers
  import opened Files
  import opened Format
  import opened Entries
  import opened Recovery
  import opened Store
  import opened HeaderLog
  import opened HeaderFiles
  import opened Reopen
  import opened Engine
  import opened IndexMap
  import opened VfsEngine

  /** The limits of the region format. */
  ghost predicate Writable(idx: Img) {
    idx.gen < TWO64 && idx.logical < TWO64 && |idx.ents| <= MAX_COUNT && NameBytes(idx.ents) <= MAX_STRINGS
  }

  /** The size of the names is a matter of the index alone. */
  lemma {:induction false} NamesSize(entries: seq<Entry>, blob: seq<u8>, bodies: seq<seq<u8>>)
    requires NamesIn(entries, blob) && |bodies| == |entries|
    ensures StringsLen(entries) == NameBytes(ViewOf(entries, blob, bodies))
  {
    if entries != [] {
      var n := |entries| - 1;
      NamesSize(entries[..n], blob, bodies[..n]);
      assert ViewOf(entries, blob, bodies)[..n] == ViewOf(entries[..n], blob, bodies[..n]);
    }
  }

  /** The entries that build_region rewrites stand for the same index. */
  lemma RebasedView(entries: seq<Entry>, blob: seq<u8>, bodies: seq<seq<u8>>, utf8: seq<u8> -> bool)
    requires NamesOk(entries, blob, utf8) && |bodies| == |entries| && EntriesFit(entries)
    requires StringsLen(entries) <= MAX_STRINGS
    ensures NamesOk(Rebased(entries), CompactBlob(entries, blob), utf8) && EntriesFit(Rebased(entries))
    ensures ViewOf(Rebased(entries), CompactBlob(entries, blob), bodies) == ViewOf(entries, blob, bodies)
  {
    hide CompactBlob, Rebased, StringsLen;
    var es, names := Rebased(entries), CompactBlob(entries, blob);
    forall i | 0 <= i < |es|
      ensures es[i].nameOff + es[i].nameLen + 1 <= |names| && NameAt(names, es[i]) == NameAt(blob, entries[i])
      ensures es[i] == entries[i].(nameOff := es[i].nameOff) && Fits(es[i])
    {
      RebuildKeepsNames(entries, blob, i);
    }
  }

  /** build_region of an index is a slot that holds its image. */
  lemma RegionHolds(gen: nat, logical: nat, entries: seq<Entry>, blob: seq<u8>, bodies: seq<seq<u8>>,
      utf8: seq<u8> -> bool)
    requires NamesOk(entries, blob, utf8) && |bodies| == |entries| && EntriesFit(entries)
    requires Writable(Img(gen, logical, ViewOf(entries, blob, bodies)))
    ensures Built(RegionBytes(gen, logical, entries, blob), Img(gen, logical, ViewOf(entries, blob, bodies)), utf8)
  {
    hide RegionOf, NameBytes, CompactBlob, Rebased, StringsLen;
    var img := Img(gen, logical, ViewOf(entries, blob, bodies));
    var es, names := Rebased(entries), CompactBlob(entries, blob);
    NamesSize(entries, blob, bodies);
    forall i | 0 <= i < |es|
      ensures EntryFor(es[i], names, img.ents[i]) && utf8(img.ents[i].name) && Fits(es[i])
    {
      RebuildKeepsNames(entries, blob, i);
    }
    assert Rep(RegionBytes(gen, logical, entries, blob), img, es, names, utf8);
  }

  /** build_region and persist_image, for a flush and for Finalize. The caller
      gets the rewritten entries and names. */
  method WriteRegion(h: HeaderFile, gen: nat, logical: nat, es: seq<Entry>, blob: seq<u8>, ghost bodies: seq<seq<u8>>)
    returns (r: Result<()>, entries: seq<Entry>, names: seq<u8>)
    requires h.Valid() && NamesOk(es, blob, h.utf8) && |bodies| == |es| && EntriesFit(es)
    requires Writable(Img(gen, logical, ViewOf(es, blob, bodies)))
    modifies h
    ensures h.Valid()
    ensures r == if gen < old(h.persistedGen) then Err(GenChanged) else Ok(())
    ensures r.Err? ==> unchanged(h)
    ensures r.Ok? ==>
      && h.ActiveImage() == Some(Img(gen, logical, ViewOf(es, blob, bodies))) && ReadSb(h.bytes) == Some(gen)
      && h.activeAt != old(h.activeAt) && h.persistedGen == gen
    ensures |entries| == |es| && NamesOk(entries, names, h.utf8) && EntriesFit(entries)
    ensures ViewOf(entries, names, bodies) == ViewOf(es, blob, bodies)
  {
    hide RegionBytes, Built, RegionLen, OnGrid, LayoutOk, ReadSb, DestOf, PutSlot, PutAt, Rebased, CompactBlob,
      NameBytes, EntriesFit, ViewOf;
    RegionHolds(gen, logical, es, blob, bodies, h.utf8);
    NamesSize(es, blob, bodies);
    RebasedView(es, blob, bodies, h.utf8);
    var table := new Entry[|es|](i requires 0 <= i < |es| => es[i]);
    assert table[..] == es;
    var bytes, blobOff := BuildRegion(gen, logical, table, blob);
    ghost var synced;
    r, synced := h.PersistImage(gen, bytes, Img(gen, logical, ViewOf(es, blob, bodies)));
    entries, names := table[..], bytes[blobOff..];
  }

  /** flush_image: a copy of the index, its region, persist_image. */
  method FlushImage(x: Index, h: HeaderFile) returns (r: Result<()>)
    requires x.Valid() && h.Valid() && h.utf8 == x.utf8 && Writable(x.View())
    modifies h
    ensures h.Valid()
    ensures r == if x.generation < old(h.persistedGen) then Err(GenChanged) else Ok(())
    ensures r.Err? ==> unchanged(h)
    ensures r.Ok? ==>
      && h.ActiveImage() == Some(x.View()) && ReadSb(h.bytes) == Some(x.generation)
      && h.activeAt != old(h.activeAt) && h.persistedGen == x.generation
  {
    hide OnGrid, LayoutOk, ReadSb, ViewOf, Finds, NameBytes;
    var entries, names;
    r, entries, names := WriteRegion(h, x.generation, x.logical, x.entries, x.names, x.bodies);
  }

  /** flush. */
  method Flush(v: Vfs, h: HeaderFile) returns (r: Result<()>)
    requires v.Valid() && h.Valid() && h.utf8 == v.utf8 && Writable(v.View())
    modifies h
    ensures h.Valid()
    ensures r.Err? ==> unchanged(h) && (r.error == if v.compacting then BusyCompacting else GenChanged)
    ensures r.Ok? <==> !v.compacting && old(h.persistedGen) <= v.View().gen
    ensures r.Ok? ==>
      h.ActiveImage() == Some(v.View()) && ReadSb(h.bytes) == Some(v.View().gen)
      && h.activeAt != old(h.activeAt)
  {
    hide EngineOk, ViewOf, Finds, OnGrid, LayoutOk, ReadSb, NameBytes;
    if v.compacting {
      return Err(BusyCompacting);
    }
    r := FlushImage(v.idx, h);
  }

  /** What flush wrote is what the next open takes over, minus the Downloading
      entries; slots in front of it under the same generation may differ in
      Downloading entries, and any slot may be one whose data does not check. */
  lemma FlushedIsReopened(bytes: seq<u8>, sb: seq<u8>, slots: seq<seq<u8>>, imgs: seq<Option<Img>>, at: nat,
      utf8: seq<u8> -> bool)
    requires OnGrid(bytes, sb, slots, imgs, utf8) && at < |imgs| && imgs[at].Some?
    requires ReadSb(bytes) == Some(imgs[at].value.gen)
    requires forall i :: 0 <= i < at && imgs[i].Some? && imgs[i].value.gen == imgs[at].value.gen ==>
      Stored(imgs[i].value) == Stored(imgs[at].value)
    ensures Chosen(bytes, utf8).Some?
    ensures var p := ScanAll(bytes, SB_SIZE, utf8)[Chosen(bytes, utf8).value].parsed.value;
      && p.gen == imgs[at].value.gen && p.logical == imgs[at].value.logical
      && Lists(WithoutDownloading(p.entries), p.names, DropDownloading(imgs[at].value.ents))
  {
    hide Chosen, ScanAll, Recovered, ReadSb, Lists, WithoutDownloading, DropDownloading, Holder, Flat, SbShape;
    var h := Header(ReadSb(bytes), SlotsOf(slots, imgs));
    var k := FirstOf(h.slots, imgs[at].value.gen, at);
    FirstSlotWins(h, k);
    ScanSelectsRecovered(bytes, sb, slots, imgs, utf8);
    OpenReadsImage(bytes, sb, slots, imgs, utf8);
  }
}
