/** The disk format of format.rs: fixed-width little-endian fields, table
    entries, the SuperBlock and region slots. */
module Format {
  import opened Crc
  import opened Files
  import opened Wrappers

  const ST_ACTIVE: nat := 0
  const ST_DELETED: nat := 1
  const ST_DOWNLOADING: nat := 2
  const ST_BAD: nat := 3

  const SB_SIZE: nat := 64
  const SB_GEN_OFF: nat := 12
  const REGION_HDR_SIZE: nat := 32
  const ENTRY_SIZE: nat := 32
  const MAX_COUNT: nat := 0x100_0000
  const MAX_STRINGS: nat := 0x4000_0000

  const TWO16: nat := 0x1_0000
  const TWO32: nat := 0x1_0000_0000
  const TWO64: nat := 0x1_0000_0000_0000_0000

  // --- little-endian fields ---

  /** The k low bytes of n, least significant first. */
  function Le(n: nat, k: nat): (b: seq<u8>)
    ensures |b| == k
    decreases k
  {
    if k == 0 then [] else [n % 0x100] + Le(n / 0x100, k - 1)
  }

  function FromLe(b: seq<u8>): nat {
    if b == [] then 0 else b[0] + 0x100 * FromLe(b[1..])
  }

  function Pow256(k: nat): nat {
    if k == 0 then 1 else 0x100 * Pow256(k - 1)
  }

  lemma {:induction false} LeRoundTrip(n: nat, k: nat)
    requires n < Pow256(k)
    ensures FromLe(Le(n, k)) == n
    decreases k
  {
    if k > 0 {
      LeRoundTrip(n / 0x100, k - 1);
    }
  }

  lemma Widths()
    ensures Pow256(2) == TWO16 && Pow256(4) == TWO32 && Pow256(8) == TWO64
  {
    assert Pow256(4) == 0x100 * 0x100 * Pow256(2);
    assert Pow256(6) == 0x100 * 0x100 * Pow256(4);
    assert Pow256(8) == 0x100 * 0x100 * Pow256(6);
  }

  /** to_le_bytes of a checksum. */
  function LeCrc(c: u32): (b: seq<u8>)
    ensures |b| == 4
  {
    [IndexOf(Quarter(c, 0)), IndexOf(Quarter(c, 8)), IndexOf(Quarter(c, 16)), IndexOf(Quarter(c, 24))]
  }

  function Quarter(c: u32, k: bv6): bv8
    requires k <= 24
  {
    ((c >> k) & 0xFF) as bv8
  }

  function Join(a: bv8, b: bv8, c: bv8, d: bv8): u32 {
    (a as bv32) | ((b as bv32) << 8) | ((c as bv32) << 16) | ((d as bv32) << 24)
  }

  function FromLeCrc(b: seq<u8>): u32
    requires |b| == 4
  {
    Join(Bits(b[0]), Bits(b[1]), Bits(b[2]), Bits(b[3]))
  }

  lemma QuartersJoin(c: u32)
    ensures Join(Quarter(c, 0), Quarter(c, 8), Quarter(c, 16), Quarter(c, 24)) == c
  {
  }

  lemma LeCrcRoundTrip(c: u32)
    ensures FromLeCrc(LeCrc(c)) == c
  {
    QuartersJoin(c);
    BitsOfIndex(Quarter(c, 0));
    BitsOfIndex(Quarter(c, 8));
    BitsOfIndex(Quarter(c, 16));
    BitsOfIndex(Quarter(c, 24));
  }

  /** Reading a field and writing it again gives the same bytes. */
  lemma {:induction false} LeOfFrom(b: seq<u8>)
    ensures Le(FromLe(b), |b|) == b
    decreases |b|
  {
    if b != [] {
      LeOfFrom(b[1..]);
      assert FromLe(b) % 0x100 == b[0] && FromLe(b) / 0x100 == FromLe(b[1..]);
    }
  }

  lemma JoinQuarters(a: bv8, b: bv8, c: bv8, d: bv8)
    ensures var j := Join(a, b, c, d);
      Quarter(j, 0) == a && Quarter(j, 8) == b && Quarter(j, 16) == c && Quarter(j, 24) == d
  {
  }

  lemma LeCrcOfFrom(b: seq<u8>)
    requires |b| == 4
    ensures LeCrc(FromLeCrc(b)) == b
  {
    hide Join, Quarter;
    JoinQuarters(Bits(b[0]), Bits(b[1]), Bits(b[2]), Bits(b[3]));
    IndexOfBits(b[0]);
    IndexOfBits(b[1]);
    IndexOfBits(b[2]);
    IndexOfBits(b[3]);
  }

  lemma IndexOfBits(x: u8)
    ensures IndexOf(Bits(x)) == x
  {
    if x < 16 {
    } else if x < 64 {
    } else if x < 128 {
    }
  }

  // --- table entries ---

  datatype Entry = Entry(nameOff: nat, nameLen: nat, state: nat, offset: nat, size: nat, crc: u32)

  /** The widths of the record's fields. */
  predicate Fits(e: Entry) {
    e.nameOff < TWO32 && e.nameLen < TWO16 && e.state <= ST_BAD && e.offset < TWO64 && e.size < TWO64
  }

  /** The bytes under entry_crc. */
  function EntryBody(e: Entry): (b: seq<u8>)
    ensures |b| == 28
  {
    Le(e.nameOff, 4) + Le(e.nameLen, 2) + Le(e.state, 1) + Le(0, 1) + Le(e.offset, 8) + Le(e.size, 8) + LeCrc(e.crc)
  }

  function EncodeEntry(e: Entry): (b: seq<u8>)
    ensures |b| == ENTRY_SIZE
  {
    EntryBody(e) + LeCrc(Crc32(EntryBody(e)))
  }

  function DecodeEntry(b: seq<u8>): Option<Entry> {
    if |b| < ENTRY_SIZE then None
    else if Crc32(b[0..28]) != FromLeCrc(b[28..32]) then None
    else if b[6] > ST_BAD then None
    else Some(Entry(FromLe(b[0..4]), FromLe(b[4..6]), b[6], FromLe(b[8..16]), FromLe(b[16..24]), FromLeCrc(b[24..28])))
  }

  lemma SevenParts(a: seq<u8>, b: seq<u8>, c: seq<u8>, d: seq<u8>, e: seq<u8>, f: seq<u8>, g: seq<u8>)
    requires |a| == 4 && |b| == 2 && |c| == 1 && |d| == 1 && |e| == 8 && |f| == 8 && |g| == 4
    ensures var s := a + b + c + d + e + f + g;
      s[0..4] == a && s[4..6] == b && s[6] == c[0] && s[8..16] == e && s[16..24] == f && s[24..28] == g
  {
  }

  lemma EntryBodyFields(e: Entry)
    ensures var b := EntryBody(e);
      && b[0..4] == Le(e.nameOff, 4) && b[4..6] == Le(e.nameLen, 2) && b[6] == e.state % 0x100
      && b[8..16] == Le(e.offset, 8) && b[16..24] == Le(e.size, 8) && b[24..28] == LeCrc(e.crc)
  {
    assert Le(e.state, 1)[0] == e.state % 0x100;
    hide Le, LeCrc;
    SevenParts(Le(e.nameOff, 4), Le(e.nameLen, 2), Le(e.state, 1), Le(0, 1), Le(e.offset, 8), Le(e.size, 8),
      LeCrc(e.crc));
  }

  lemma EncodedFields(e: Entry)
    ensures var b := EncodeEntry(e);
      && b[0..28] == EntryBody(e) && b[28..32] == LeCrc(Crc32(EntryBody(e)))
      && b[0..4] == Le(e.nameOff, 4) && b[4..6] == Le(e.nameLen, 2) && b[6] == e.state % 0x100
      && b[8..16] == Le(e.offset, 8) && b[16..24] == Le(e.size, 8) && b[24..28] == LeCrc(e.crc)
  {
    var b, body, sum := EncodeEntry(e), EntryBody(e), LeCrc(Crc32(EntryBody(e)));
    EntryBodyFields(e);
    Prefix(body, sum);
    assert b[28..32] == sum;
  }

  /** The fields of a 28-byte body read the same inside a longer string. */
  lemma Prefix(body: seq<u8>, rest: seq<u8>)
    requires |body| == 28
    ensures var b := body + rest;
      && b[0..28] == body && b[0..4] == body[0..4] && b[4..6] == body[4..6] && b[6] == body[6]
      && b[8..16] == body[8..16] && b[16..24] == body[16..24] && b[24..28] == body[24..28]
  {
  }

  lemma FieldsRoundTrip(e: Entry)
    requires Fits(e)
    ensures FromLe(Le(e.nameOff, 4)) == e.nameOff && FromLe(Le(e.nameLen, 2)) == e.nameLen
    ensures FromLe(Le(e.offset, 8)) == e.offset && FromLe(Le(e.size, 8)) == e.size
  {
    Widths();
    LeRoundTrip(e.nameOff, 4);
    LeRoundTrip(e.nameLen, 2);
    LeRoundTrip(e.offset, 8);
    LeRoundTrip(e.size, 8);
  }

  lemma EntryRoundTrip(e: Entry)
    requires Fits(e)
    ensures DecodeEntry(EncodeEntry(e)) == Some(e)
  {
    EncodedFields(e);
    FieldsRoundTrip(e);
    LeCrcRoundTrip(e.crc);
    LeCrcRoundTrip(Crc32(EntryBody(e)));
  }

  /** Only what encode writes is accepted: a cell that decodes is the encoding
      of what it decodes to, if its unused byte is zero. */
  lemma DecodeAcceptsEncodings(b: seq<u8>)
    requires |b| == ENTRY_SIZE && b[7] == 0 && DecodeEntry(b).Some?
    ensures EncodeEntry(DecodeEntry(b).value) == b
  {
    hide Le, FromLe, LeCrc, FromLeCrc, Crc32;
    var e := DecodeEntry(b).value;
    LeOfFrom(b[0..4]);
    LeOfFrom(b[4..6]);
    LeOfFrom(b[8..16]);
    LeOfFrom(b[16..24]);
    LeOne(b[6]);
    LeOne(0);
    LeCrcOfFrom(b[24..28]);
    LeCrcOfFrom(b[28..32]);
    CellParts(b);
  }

  lemma LeOne(x: u8)
    ensures Le(x, 1) == [x]
  {
    assert Le(x / 0x100, 0) == [];
  }

  lemma CellParts(b: seq<u8>)
    requires |b| == 32
    ensures b[0..4] + b[4..6] + [b[6]] + [b[7]] + b[8..16] + b[16..24] + b[24..28] == b[0..28]
    ensures b[0..28] + b[28..32] == b
  {
  }

  /** encode of format.rs: fills a table cell. */
  method Encode(e: Entry, out: array<u8>)
    requires out.Length == ENTRY_SIZE
    modifies out
    ensures out[..] == EncodeEntry(e)
  {
    var b := EntryBody(e);
    forall i | 0 <= i < 28 { out[i] := b[i]; }
    assert out[..28] == b;
    var crc := LeCrc(Crc32(out[..28]));
    forall i | 28 <= i < 32 { out[i] := crc[i - 28]; }
    assert out[..] == b + crc;
  }

  // --- the SuperBlock ---

  const MAGIC: seq<u8> := [0x31, 0x4B, 0x56, 0x46, 0x53, 0x48, 0x44, 0x52]
  const FORMAT_VERSION: nat := 1

  function SbPrefix(gen: nat): (b: seq<u8>)
    ensures |b| == 20
  {
    MAGIC + Le(FORMAT_VERSION, 4) + Le(gen, 8)
  }

  function SbImage(gen: nat): (b: seq<u8>)
    ensures |b| == SB_SIZE
  {
    SbPrefix(gen) + LeCrc(Crc32(SbPrefix(gen))) + Zeros(40)
  }

  function SbPatch(gen: nat): (b: seq<u8>)
    ensures |b| == 12
  {
    Le(gen, 8) + LeCrc(Crc32(SbPrefix(gen)))
  }

  function ReadSb(b: seq<u8>): Option<nat> {
    if |b| < SB_SIZE || b[0..8] != MAGIC then None
    else if FromLe(b[8..12]) != FORMAT_VERSION then None
    else if Crc32(b[0..20]) != FromLeCrc(b[20..24]) then None
    else Some(FromLe(b[12..20]))
  }

  /** sb_image of format.rs. */
  method FillSb(gen: nat) returns (sb: array<u8>)
    ensures fresh(sb) && sb[..] == SbImage(gen)
  {
    hide Le, LeCrc, Crc32;
    sb := new u8[64](_ => 0);
    var v, g := Le(FORMAT_VERSION, 4), Le(gen, 8);
    forall i | 0 <= i < 8 { sb[i] := MAGIC[i]; }
    forall i | 8 <= i < 12 { sb[i] := v[i - 8]; }
    forall i | 12 <= i < 20 { sb[i] := g[i - 12]; }
    assert sb[..20] == SbPrefix(gen);
    var crc := LeCrc(Crc32(sb[..20]));
    forall i | 20 <= i < 24 { sb[i] := crc[i - 20]; }
    assert sb[..20] == SbPrefix(gen);
    assert sb[..] == SbImage(gen);
  }

  lemma SbFields(gen: nat, rest: seq<u8>)
    ensures var b := SbImage(gen) + rest;
      && b[0..20] == SbPrefix(gen) && b[20..24] == LeCrc(Crc32(SbPrefix(gen)))
      && b[0..8] == MAGIC && b[8..12] == Le(FORMAT_VERSION, 4) && b[12..20] == Le(gen, 8)
  {
    var b := SbImage(gen) + rest;
    assert b[0..20] == SbPrefix(gen);
    assert b[0..8] == SbPrefix(gen)[0..8] && b[8..12] == SbPrefix(gen)[8..12] && b[12..20] == SbPrefix(gen)[12..20];
  }

  lemma SbReads(gen: nat, rest: seq<u8>)
    requires gen < TWO64
    ensures ReadSb(SbImage(gen) + rest) == Some(gen)
  {
    SbFields(gen, rest);
    Widths();
    LeRoundTrip(gen, 8);
    LeRoundTrip(FORMAT_VERSION, 4);
    LeCrcRoundTrip(Crc32(SbPrefix(gen)));
  }

  /** Only a SuperBlock as sb_image makes it is read. */
  lemma SbAcceptsImages(b: seq<u8>)
    requires ReadSb(b).Some?
    ensures b[..24] == SbImage(ReadSb(b).value)[..24]
  {
    hide Le, FromLe, LeCrc, FromLeCrc, Crc32;
    LeOfFrom(b[8..12]);
    LeOfFrom(b[12..20]);
    LeCrcOfFrom(b[20..24]);
    var gen := ReadSb(b).value;
    assert b[0..8] + b[8..12] + b[12..20] == b[0..20];
    assert b[0..20] == SbPrefix(gen);
    assert b[..24] == b[0..20] + b[20..24];
  }

  /** Every SuperBlock that a flip may leave: the twelve patched bytes are
      arbitrary, the rest is as sb_image made it. */
  ghost predicate SbShape(sb: seq<u8>) {
    |sb| == SB_SIZE && sb[..12] == MAGIC + Le(FORMAT_VERSION, 4) && sb[24..] == Zeros(40)
  }

  /** Flipping the generation in place gives the image a fresh SuperBlock
      would have, whatever generation or torn flip was there, and touches
      nothing behind. */
  lemma SbPatchFlips(sb: seq<u8>, gen: nat, rest: seq<u8>)
    requires SbShape(sb) && gen < TWO64
    ensures Pwrite(sb + rest, SB_GEN_OFF, SbPatch(gen)) == SbImage(gen) + rest
    ensures ReadSb(Pwrite(sb + rest, SB_GEN_OFF, SbPatch(gen))) == Some(gen)
  {
    hide Le, LeCrc, Crc32;
    var f := sb + rest;
    var head := MAGIC + Le(FORMAT_VERSION, 4);
    assert f[..12] == sb[..12] == head;
    assert f[24..] == sb[24..] + rest;
    assert Pwrite(f, SB_GEN_OFF, SbPatch(gen)) == head + SbPatch(gen) + (Zeros(40) + rest);
    assert SbImage(gen) + rest == head + SbPatch(gen) + (Zeros(40) + rest);
    SbReads(gen, rest);
  }

  lemma SbImageShape(gen: nat)
    ensures SbShape(SbImage(gen))
  {
    hide Le, LeCrc, Crc32;
    var sb := SbImage(gen);
    assert sb[..12] == MAGIC + Le(FORMAT_VERSION, 4);
    assert sb[24..] == Zeros(40);
  }

  // --- regions ---

  function NameAt(blob: seq<u8>, e: Entry): seq<u8>
    requires e.nameOff + e.nameLen <= |blob|
  {
    blob[e.nameOff..e.nameOff + e.nameLen]
  }

  ghost predicate NamesIn(entries: seq<Entry>, blob: seq<u8>) {
    forall i :: 0 <= i < |entries| ==> entries[i].nameOff + entries[i].nameLen <= |blob|
  }

  /** Total length of a compact string area. */
  function StringsLen(entries: seq<Entry>): nat {
    if entries == [] then 0
    else StringsLen(entries[..|entries| - 1]) + entries[|entries| - 1].nameLen + 1
  }

  /** The names of the entries in order, each followed by a NUL. */
  function CompactBlob(entries: seq<Entry>, blob: seq<u8>): (b: seq<u8>)
    requires NamesIn(entries, blob)
    ensures |b| == StringsLen(entries)
  {
    if entries == [] then []
    else
      CompactBlob(entries[..|entries| - 1], blob) + NameAt(blob, entries[|entries| - 1]) + [0]
  }

  /** The entries with their names re-pointed into the compact blob. */
  function Rebased(entries: seq<Entry>): (r: seq<Entry>)
    ensures |r| == |entries|
  {
    if entries == [] then []
    else
      var n := |entries| - 1;
      Rebased(entries[..n]) + [entries[n].(nameOff := StringsLen(entries[..n]) % TWO32)]
  }

  function TableBytes(entries: seq<Entry>): (b: seq<u8>)
    ensures |b| == |entries| * ENTRY_SIZE
  {
    if entries == [] then []
    else TableBytes(entries[..|entries| - 1]) + EncodeEntry(entries[|entries| - 1])
  }

  function RegionHeader(gen: nat, count: nat, strings: nat, crc: u32, logical: nat): (b: seq<u8>)
    ensures |b| == REGION_HDR_SIZE
  {
    Le(gen, 8) + Le(count, 4) + Le(strings, 4) + LeCrc(crc) + Le(logical, 8) + Le(0, 4)
  }

  function RegionOf(gen: nat, logical: nat, entries: seq<Entry>, blob: seq<u8>): (b: seq<u8>)
    ensures |b| == REGION_HDR_SIZE + |entries| * ENTRY_SIZE + |blob|
  {
    var body := TableBytes(entries) + blob;
    RegionHeader(gen, |entries|, |blob|, Crc32(body), logical) + body
  }

  /** build_region: the region image of an index whose blob may hold dead bytes. */
  function RegionBytes(gen: nat, logical: nat, entries: seq<Entry>, blob: seq<u8>): (b: seq<u8>)
    requires NamesIn(entries, blob)
    ensures |b| == REGION_HDR_SIZE + |entries| * ENTRY_SIZE + StringsLen(entries)
  {
    RegionOf(gen, logical, Rebased(entries), CompactBlob(entries, blob))
  }

  /** The first loop of build_region: it reads each old offset before it
      overwrites it. */
  method RebaseNames(entries: array<Entry>, oldBlob: seq<u8>) returns (blob: seq<u8>)
    requires NamesIn(entries[..], oldBlob)
    modifies entries
    ensures entries[..] == Rebased(old(entries[..]))
    ensures blob == CompactBlob(old(entries[..]), oldBlob)
  {
    blob := [];
    ghost var was := entries[..];
    for i := 0 to entries.Length
      invariant forall k :: 0 <= k < i ==> entries[k] == Rebased(was[..i])[k]
      invariant forall k :: i <= k < entries.Length ==> entries[k] == was[k]
      invariant blob == CompactBlob(was[..i], oldBlob)
    {
      assert was[..i + 1][..i] == was[..i];
      var e := entries[i];
      entries[i] := e.(nameOff := |blob| % TWO32);
      blob := blob + NameAt(oldBlob, e) + [0];
    }
    assert was[..entries.Length] == was;
  }

  /** The rest of build_region: header with a placeholder checksum, table,
      strings, then the checksum written into place. */
  method Serialize(gen: nat, logical: nat, es: seq<Entry>, blob: seq<u8>) returns (bytes: seq<u8>, blobOff: nat)
    ensures bytes == RegionOf(gen, logical, es, blob)
    ensures blobOff <= |bytes| && bytes[blobOff..] == blob
  {
    hide Le, LeCrc, Crc32, EncodeEntry;
    var n := |es|;
    var table: seq<u8> := [];
    for i := 0 to n
      invariant table == TableBytes(es[..i])
    {
      assert es[..i + 1][..i] == es[..i];
      var cell := new u8[ENTRY_SIZE](_ => 0);
      Encode(es[i], cell);
      table := table + cell[..];
    }
    assert es[..n] == es;
    var head, hole, tail := Le(gen, 8) + Le(n, 4) + Le(|blob|, 4), Le(0, 4), Le(logical, 8) + Le(0, 4);
    var body := table + blob;
    bytes := head + hole + tail + body;
    blobOff := REGION_HDR_SIZE + |table|;
    CutRight(head + hole + tail, body);
    var crc := Crc32(bytes[REGION_HDR_SIZE..]);
    PatchHole(head, hole, tail + body, LeCrc(crc));
    assert bytes == head + hole + (tail + body);
    bytes := bytes[..16] + LeCrc(crc) + bytes[20..];
    assert bytes == RegionHeader(gen, n, |blob|, crc, logical) + body;
    assert bytes[blobOff..] == blob;
  }

  lemma PatchHole(head: seq<u8>, hole: seq<u8>, tail: seq<u8>, fill: seq<u8>)
    requires |head| == 16 && |hole| == 4
    ensures (head + hole + tail)[..16] == head && (head + hole + tail)[20..] == tail
  {
  }

  method BuildRegion(gen: nat, logical: nat, entries: array<Entry>, oldBlob: seq<u8>)
    returns (bytes: seq<u8>, blobOff: nat)
    requires NamesIn(entries[..], oldBlob)
    modifies entries
    ensures entries[..] == Rebased(old(entries[..]))
    ensures bytes == RegionBytes(gen, logical, old(entries[..]), oldBlob)
    ensures blobOff <= |bytes| && bytes[blobOff..] == CompactBlob(old(entries[..]), oldBlob)
  {
    var blob := RebaseNames(entries, oldBlob);
    bytes, blobOff := Serialize(gen, logical, entries[..], blob);
  }

  datatype ParsedRegion = ParsedRegion(gen: nat, logical: nat, entries: seq<Entry>, names: seq<u8>)

  /** A readable slot header; parsed is None when the slot's data does not check. */
  datatype SlotScan = SlotScan(off: nat, total: nat, parsed: Option<ParsedRegion>)

  /** The first n cells of a table, if each decodes and names a valid string. */
  function ParseCells(table: seq<u8>, n: nat, names: seq<u8>, utf8: seq<u8> -> bool): Option<seq<Entry>>
    requires n * ENTRY_SIZE <= |table|
  {
    if n == 0 then Some([])
    else
      match ParseCells(table, n - 1, names, utf8)
      case None => None
      case Some(es) =>
        match DecodeEntry(table[(n - 1) * ENTRY_SIZE..n * ENTRY_SIZE])
        case None => None
        case Some(e) =>
          if e.nameOff + e.nameLen + 1 > |names| || !utf8(NameAt(names, e)) then None else Some(es + [e])
  }

  /** scan_slot; utf8 stands for the test on names. */
  function ScanSlot(bytes: seq<u8>, off: nat, utf8: seq<u8> -> bool): (r: Option<SlotScan>)
    ensures r.Some? ==> r.value.off == off && off + r.value.total <= |bytes| && r.value.total >= REGION_HDR_SIZE
  {
    if off + REGION_HDR_SIZE > |bytes| then None else
      var h := bytes[off..off + REGION_HDR_SIZE];
      var count, strLen := FromLe(h[8..12]), FromLe(h[12..16]);
      if count > MAX_COUNT || strLen > MAX_STRINGS then None else
        var total := REGION_HDR_SIZE + count * ENTRY_SIZE + strLen;
        if off + total > |bytes| then None else
          var body := bytes[off + REGION_HDR_SIZE..off + total];
          var names := body[count * ENTRY_SIZE..];
          var parsed :=
            if Crc32(body) != FromLeCrc(h[16..20]) then None
            else
              match ParseCells(body[..count * ENTRY_SIZE], count, names, utf8)
              case None => None
              case Some(es) => Some(ParsedRegion(FromLe(h[0..8]), FromLe(h[20..28]), es, names));
          Some(SlotScan(off, total, parsed))
  }

  lemma {:induction false} NoneStays(table: seq<u8>, i: nat, n: nat, names: seq<u8>, utf8: seq<u8> -> bool)
    requires i <= n && n * ENTRY_SIZE <= |table| && ParseCells(table, i, names, utf8).None?
    ensures ParseCells(table, n, names, utf8).None?
  {
    hide DecodeEntry, FromLe, FromLeCrc, Crc32, NameAt;
    if i < n {
      NoneStays(table, i, n - 1, names, utf8);
    }
  }

  /** scan_slot as it runs: it gives up on the first bad cell. */
  method ScanSlotLoop(bytes: seq<u8>, off: nat, utf8: seq<u8> -> bool) returns (r: Option<SlotScan>)
    ensures r == ScanSlot(bytes, off, utf8)
  {
    hide DecodeEntry, Crc32, FromLe, FromLeCrc;
    if off + REGION_HDR_SIZE > |bytes| {
      return None;
    }
    var h := bytes[off..off + REGION_HDR_SIZE];
    var gen, count, strLen := FromLe(h[0..8]), FromLe(h[8..12]), FromLe(h[12..16]);
    var regionCrc, logical := FromLeCrc(h[16..20]), FromLe(h[20..28]);
    if count > MAX_COUNT || strLen > MAX_STRINGS {
      return None;
    }
    var total := REGION_HDR_SIZE + count * ENTRY_SIZE + strLen;
    if off + total > |bytes| {
      return None;
    }
    var body := bytes[off + REGION_HDR_SIZE..off + total];
    var table, names := body[..count * ENTRY_SIZE], body[count * ENTRY_SIZE..];
    var parsed := None;
    if Crc32(body) == regionCrc {
      var entries: seq<Entry> := [];
      var ok := true;
      var i := 0;
      while i < count && ok
        invariant 0 <= i <= count
        invariant ok ==> ParseCells(table, i, names, utf8) == Some(entries)
        invariant !ok ==> ParseCells(table, count, names, utf8).None?
      {
        match DecodeEntry(table[i * ENTRY_SIZE..(i + 1) * ENTRY_SIZE]) {
          case Some(e) =>
            if e.nameOff + e.nameLen + 1 > |names| || !utf8(NameAt(names, e)) {
              ok := false;
            } else {
              entries := entries + [e];
            }
          case None =>
            ok := false;
        }
        i := i + 1;
        if !ok {
          NoneStays(table, i, count, names, utf8);
        }
      }
      if ok {
        parsed := Some(ParsedRegion(gen, logical, entries, names));
      }
    }
    r := Some(SlotScan(off, total, parsed));
  }

  // --- round trip ---

  ghost predicate EntriesFit(entries: seq<Entry>) {
    forall i :: 0 <= i < |entries| ==> Fits(entries[i])
  }

  lemma {:induction false} StringsGrow(entries: seq<Entry>, i: nat)
    requires i < |entries|
    ensures StringsLen(entries[..i]) + entries[i].nameLen + 1 <= StringsLen(entries)
    decreases |entries|
  {
    var n := |entries| - 1;
    if i < n {
      StringsGrow(entries[..n], i);
      assert entries[..n][..i] == entries[..i];
    }
  }

  /** Entry i of a rebuilt region: same record, its name where the prefix ends. */
  lemma {:induction false} RebasedAt(entries: seq<Entry>, i: nat)
    requires i < |entries| && StringsLen(entries) < TWO32
    ensures Rebased(entries)[i] == entries[i].(nameOff := StringsLen(entries[..i]))
    decreases |entries|
  {
    var n := |entries| - 1;
    StringsGrow(entries, i);
    if i < n {
      StringsGrow(entries, n);
      RebasedAt(entries[..n], i);
      assert entries[..n][..i] == entries[..i];
    }
  }

  lemma {:induction false} BlobPrefix(entries: seq<Entry>, blob: seq<u8>, k: nat)
    requires k <= |entries| && NamesIn(entries, blob)
    ensures CompactBlob(entries[..k], blob) <= CompactBlob(entries, blob)
    decreases |entries|
  {
    var n := |entries| - 1;
    if k == |entries| {
      assert entries[..k] == entries;
    } else {
      BlobPrefix(entries[..n], blob, k);
      assert entries[..n][..k] == entries[..k];
    }
  }

  lemma BlobAt(entries: seq<Entry>, blob: seq<u8>, i: nat)
    requires i < |entries| && NamesIn(entries, blob)
    ensures var s := StringsLen(entries[..i]);
      s + entries[i].nameLen < |CompactBlob(entries, blob)|
      && CompactBlob(entries, blob)[s..s + entries[i].nameLen] == NameAt(blob, entries[i])
      && CompactBlob(entries, blob)[s + entries[i].nameLen] == 0
  {
    BlobPrefix(entries, blob, i + 1);
    var whole, upTo, before := CompactBlob(entries, blob), CompactBlob(entries[..i + 1], blob),
      CompactBlob(entries[..i], blob);
    var name := NameAt(blob, entries[i]);
    assert entries[..i + 1][..i] == entries[..i];
    assert upTo == before + name + [0];
    assert whole == before + name + ([0] + whole[|upTo|..]);
    Cut(before, name, [0] + whole[|upTo|..]);
  }

  /** Whatever dead bytes the old blob holds, every entry keeps its own name. */
  lemma RebuildKeepsNames(entries: seq<Entry>, blob: seq<u8>, i: nat)
    requires i < |entries| && NamesIn(entries, blob) && StringsLen(entries) <= MAX_STRINGS
    ensures var e := Rebased(entries)[i];
      e == entries[i].(nameOff := e.nameOff)
      && e.nameOff + e.nameLen + 1 <= StringsLen(entries)
      && NameAt(CompactBlob(entries, blob), e) == NameAt(blob, entries[i])
  {
    RebasedAt(entries, i);
    StringsGrow(entries, i);
    BlobAt(entries, blob, i);
  }

  lemma {:induction false} TableCell(entries: seq<Entry>, i: nat)
    requires i < |entries|
    ensures TableBytes(entries)[i * ENTRY_SIZE..(i + 1) * ENTRY_SIZE] == EncodeEntry(entries[i])
    decreases |entries|
  {
    hide EncodeEntry;
    var n := |entries| - 1;
    var pre, last := TableBytes(entries[..n]), EncodeEntry(entries[n]);
    assert TableBytes(entries) == pre + last;
    if i < n {
      TableCell(entries[..n], i);
      CutLeft(pre, last, i * ENTRY_SIZE, (i + 1) * ENTRY_SIZE);
    } else {
      CutRight(pre, last);
      assert (pre + last)[|pre|..|pre| + ENTRY_SIZE] == (pre + last)[|pre|..];
    }
  }

  lemma {:induction false} ParseTable(entries: seq<Entry>, n: nat, names: seq<u8>, utf8: seq<u8> -> bool)
    requires n <= |entries| && EntriesFit(entries)
    requires forall i :: 0 <= i < |entries| ==>
      entries[i].nameOff + entries[i].nameLen + 1 <= |names| && utf8(NameAt(names, entries[i]))
    ensures ParseCells(TableBytes(entries), n, names, utf8) == Some(entries[..n])
  {
    hide EncodeEntry, DecodeEntry, TableBytes;
    if n > 0 {
      ParseTable(entries, n - 1, names, utf8);
      TableCell(entries, n - 1);
      EntryRoundTrip(entries[n - 1]);
      assert entries[..n] == entries[..n - 1] + [entries[n - 1]];
    }
  }

  lemma HeaderCuts(a: seq<u8>, b: seq<u8>, c: seq<u8>, d: seq<u8>, e: seq<u8>, f: seq<u8>)
    requires |a| == 8 && |b| == 4 && |c| == 4 && |d| == 4 && |e| == 8 && |f| == 4
    ensures var h := a + b + c + d + e + f;
      h[0..8] == a && h[8..12] == b && h[12..16] == c && h[16..20] == d && h[20..28] == e
  {
  }

  lemma HeaderFields(gen: nat, count: nat, strings: nat, crc: u32, logical: nat)
    requires gen < TWO64 && count < TWO32 && strings < TWO32 && logical < TWO64
    ensures var h := RegionHeader(gen, count, strings, crc, logical);
      && FromLe(h[0..8]) == gen && FromLe(h[8..12]) == count && FromLe(h[12..16]) == strings
      && FromLeCrc(h[16..20]) == crc && FromLe(h[20..28]) == logical
  {
    HeaderCuts(Le(gen, 8), Le(count, 4), Le(strings, 4), LeCrc(crc), Le(logical, 8), Le(0, 4));
    Widths();
    LeRoundTrip(gen, 8);
    LeRoundTrip(count, 4);
    LeRoundTrip(strings, 4);
    LeRoundTrip(logical, 8);
    LeCrcRoundTrip(crc);
  }

  /** What scan_slot may meet: the limits it enforces and names it accepts. */
  ghost predicate Storable(gen: nat, logical: nat, entries: seq<Entry>, blob: seq<u8>, utf8: seq<u8> -> bool) {
    && gen < TWO64 && logical < TWO64 && EntriesFit(entries) && NamesIn(entries, blob)
    && |entries| <= MAX_COUNT && StringsLen(entries) <= MAX_STRINGS
    && forall i :: 0 <= i < |entries| ==> utf8(NameAt(blob, entries[i]))
  }

  lemma ScanReads(pre: seq<u8>, gen: nat, logical: nat, es: seq<Entry>, names: seq<u8>, post: seq<u8>,
      utf8: seq<u8> -> bool)
    requires gen < TWO64 && logical < TWO64 && EntriesFit(es) && |es| <= MAX_COUNT && |names| <= MAX_STRINGS
    requires forall i :: 0 <= i < |es| ==>
      es[i].nameOff + es[i].nameLen + 1 <= |names| && utf8(NameAt(names, es[i]))
    ensures var r := RegionOf(gen, logical, es, names);
      ScanSlot(pre + r + post, |pre|, utf8) == Some(SlotScan(|pre|, |r|, Some(ParsedRegion(gen, logical, es, names))))
  {
    hide RegionHeader, TableBytes, ParseCells, Crc32, FromLe, FromLeCrc;
    var body := TableBytes(es) + names;
    var hdr := RegionHeader(gen, |es|, |names|, Crc32(body), logical);
    var f := pre + RegionOf(gen, logical, es, names) + post;
    SlotCuts(pre, hdr, body, post);
    HeaderFields(gen, |es|, |names|, Crc32(body), logical);
    CutRight(TableBytes(es), names);
    ParseTable(es, |es|, names, utf8);
    assert es[..|es|] == es;
  }

  lemma SlotCuts(pre: seq<u8>, hdr: seq<u8>, body: seq<u8>, post: seq<u8>)
    requires |hdr| == REGION_HDR_SIZE
    ensures var f := pre + (hdr + body) + post;
      f[|pre|..|pre| + REGION_HDR_SIZE] == hdr
      && f[|pre| + REGION_HDR_SIZE..|pre| + REGION_HDR_SIZE + |body|] == body
  {
    hide RegionHeader;
    var f := pre + (hdr + body) + post;
    assert f == pre + hdr + (body + post);
    Cut(pre, hdr, body + post);
    assert f == (pre + hdr) + body + post;
    Cut(pre + hdr, body, post);
  }

  /** scan_slot, at the place where it was written inside any larger file,
      returns what build_region was given. */
  lemma RegionRoundTrip(pre: seq<u8>, gen: nat, logical: nat, entries: seq<Entry>, blob: seq<u8>, post: seq<u8>,
      utf8: seq<u8> -> bool)
    requires Storable(gen, logical, entries, blob, utf8)
    ensures var r := RegionBytes(gen, logical, entries, blob);
      ScanSlot(pre + r + post, |pre|, utf8)
        == Some(SlotScan(|pre|, |r|, Some(ParsedRegion(gen, logical, Rebased(entries), CompactBlob(entries, blob)))))
    ensures forall i :: 0 <= i < |entries| ==>
      var e := Rebased(entries)[i];
      e == entries[i].(nameOff := e.nameOff)
      && e.nameOff + e.nameLen + 1 <= StringsLen(entries)
      && NameAt(CompactBlob(entries, blob), e) == NameAt(blob, entries[i])
  {
    forall i | 0 <= i < |entries|
      ensures var e := Rebased(entries)[i];
        e == entries[i].(nameOff := e.nameOff)
        && e.nameOff + e.nameLen + 1 <= StringsLen(entries)
        && NameAt(CompactBlob(entries, blob), e) == NameAt(blob, entries[i])
    {
      RebuildKeepsNames(entries, blob, i);
    }
    ScanReads(pre, gen, logical, Rebased(entries), CompactBlob(entries, blob), post, utf8);
  }

  // --- one header file, byte by byte ---

  const GOLD_GEN: nat := 0x3132_3334_3536_3738
  const GOLD_LOGICAL: nat := 0x4142_4344_4546_4748
  const GOLD: Entry := Entry(0x5152_5354, 0x6162, ST_BAD, 0x0102_0304_0506_0708, 0x1112_1314_1516_1718, 0x2122_2324)

  /** Eight little-endian bytes, lowest digit first. */
  lemma LeEight(a: u8, b: u8, c: u8, d: u8, e: u8, f: u8, g: u8, h: u8)
    ensures Le(Digits(a, Digits(b, Digits(c, Digits(d, Digits(e, Digits(f, Digits(g, h))))))), 8) ==
      [a, b, c, d, e, f, g, h]
  {
    hide Le;
    LeFour(e, f, g, h);
    LeDigit(d, Digits(e, Digits(f, Digits(g, h))), 4);
    LeDigit(c, Digits(d, Digits(e, Digits(f, Digits(g, h)))), 5);
    LeDigit(b, Digits(c, Digits(d, Digits(e, Digits(f, Digits(g, h))))), 6);
    LeDigit(a, Digits(b, Digits(c, Digits(d, Digits(e, Digits(f, Digits(g, h)))))), 7);
  }

  lemma LeFour(a: u8, b: u8, c: u8, d: u8)
    ensures Le(Digits(a, Digits(b, Digits(c, d))), 4) == [a, b, c, d]
  {
    LeDigit(d, 0, 0);
    LeDigit(c, d, 1);
    LeDigit(b, Digits(c, d), 2);
    LeDigit(a, Digits(b, Digits(c, d)), 3);
  }

  lemma LeDigit(b: u8, rest: nat, n: nat)
    ensures Le(Digits(b, rest), n + 1) == [b] + Le(rest, n)
  {
  }

  function Digits(low: u8, high: nat): nat {
    low + 256 * high
  }

  lemma GoldFields()
    ensures Le(GOLD.nameOff, 4) == [0x54, 0x53, 0x52, 0x51] && Le(GOLD.nameLen, 2) == [0x62, 0x61]
    ensures Le(GOLD.state, 1) == [3] && Le(0, 1) == [0]
    ensures Le(GOLD.offset, 8) == [0x08, 0x07, 0x06, 0x05, 0x04, 0x03, 0x02, 0x01]
    ensures Le(GOLD.size, 8) == [0x18, 0x17, 0x16, 0x15, 0x14, 0x13, 0x12, 0x11]
  {
    LeFour(0x54, 0x53, 0x52, 0x51);
    LeEight(0x08, 0x07, 0x06, 0x05, 0x04, 0x03, 0x02, 0x01);
    LeEight(0x18, 0x17, 0x16, 0x15, 0x14, 0x13, 0x12, 0x11);
    assert Le(GOLD.nameLen, 2) == [0x62, 0x61];
  }

  lemma GoldNumbers()
    ensures Le(GOLD_GEN, 8) == [0x38, 0x37, 0x36, 0x35, 0x34, 0x33, 0x32, 0x31]
    ensures Le(GOLD_LOGICAL, 8) == [0x48, 0x47, 0x46, 0x45, 0x44, 0x43, 0x42, 0x41]
    ensures Le(1, 4) == [1, 0, 0, 0] && Le(2, 4) == [2, 0, 0, 0] && Le(0, 4) == [0, 0, 0, 0]
  {
    LeEight(0x38, 0x37, 0x36, 0x35, 0x34, 0x33, 0x32, 0x31);
    LeEight(0x48, 0x47, 0x46, 0x45, 0x44, 0x43, 0x42, 0x41);
    LeFour(1, 0, 0, 0);
    LeFour(2, 0, 0, 0);
    LeFour(0, 0, 0, 0);
  }

  lemma GoldCrc()
    ensures LeCrc(0x2122_2324) == [0x24, 0x23, 0x22, 0x21]
  {
  }

  /** The 28 bytes of a table cell, then their checksum. */
  lemma GoldEntry()
    ensures var cell := [
        0x54, 0x53, 0x52, 0x51, 0x62, 0x61, 3, 0,
        0x08, 0x07, 0x06, 0x05, 0x04, 0x03, 0x02, 0x01,
        0x18, 0x17, 0x16, 0x15, 0x14, 0x13, 0x12, 0x11,
        0x24, 0x23, 0x22, 0x21];
      EncodeEntry(GOLD) == cell + LeCrc(Crc32(cell))
  {
    GoldFields();
    GoldCrc();
    hide Le, LeCrc, Crc32;
    assert EntryBody(GOLD) == [
        0x54, 0x53, 0x52, 0x51, 0x62, 0x61, 3, 0,
        0x08, 0x07, 0x06, 0x05, 0x04, 0x03, 0x02, 0x01,
        0x18, 0x17, 0x16, 0x15, 0x14, 0x13, 0x12, 0x11,
        0x24, 0x23, 0x22, 0x21];
  }

  /** "1KVFSHDR", version 1, the generation, their checksum, 40 zeros. */
  lemma GoldSuperBlock()
    ensures var head := [
        0x31, 0x4B, 0x56, 0x46, 0x53, 0x48, 0x44, 0x52, 1, 0, 0, 0,
        0x38, 0x37, 0x36, 0x35, 0x34, 0x33, 0x32, 0x31];
      SbImage(GOLD_GEN) == head + LeCrc(Crc32(head)) + Zeros(40)
  {
    GoldNumbers();
    hide Le, LeCrc, Crc32;
    assert SbPrefix(GOLD_GEN) == [
        0x31, 0x4B, 0x56, 0x46, 0x53, 0x48, 0x44, 0x52, 1, 0, 0, 0,
        0x38, 0x37, 0x36, 0x35, 0x34, 0x33, 0x32, 0x31];
  }

  /** The 32 bytes in front of a region of one entry and two string bytes: its
      generation, count, string length, checksum of all that follows, logical
      size, four zeros. */
  lemma GoldRegion(names: seq<u8>)
    requires |names| == 2
    ensures var body := EncodeEntry(GOLD) + names;
      RegionOf(GOLD_GEN, GOLD_LOGICAL, [GOLD], names) ==
        [0x38, 0x37, 0x36, 0x35, 0x34, 0x33, 0x32, 0x31, 1, 0, 0, 0, 2, 0, 0, 0] + LeCrc(Crc32(body))
        + [0x48, 0x47, 0x46, 0x45, 0x44, 0x43, 0x42, 0x41, 0, 0, 0, 0] + body
  {
    GoldNumbers();
    hide Le, LeCrc, Crc32, EncodeEntry;
    assert [GOLD][..0] == [];
    assert TableBytes([GOLD]) == EncodeEntry(GOLD);
    var body := EncodeEntry(GOLD) + names;
    assert RegionHeader(GOLD_GEN, 1, 2, Crc32(body), GOLD_LOGICAL) ==
      [0x38, 0x37, 0x36, 0x35, 0x34, 0x33, 0x32, 0x31, 1, 0, 0, 0, 2, 0, 0, 0] + LeCrc(Crc32(body))
      + [0x48, 0x47, 0x46, 0x45, 0x44, 0x43, 0x42, 0x41, 0, 0, 0, 0];
  }
}
