/** glue.rs: the sink that downloads into a VFS, and what other threads may do
    to the container meanwhile. */
module Glue {
  import opened Crc
  import opened Spans
  import opened Wrappers
  import opened Files
  import opened Format
  import opened Entries
  import opened Engine
  import opened IndexMap
  import opened VfsEngine

  /** as_i32. */
  function Code(e: VfsError): (c: nat)
    ensures c != 0
  {
    match e
    case Io => 1
    case NotFound => 2
    case AlreadyExists => 3
    case BusyCompacting => 4
    case BusyWriters => 5
    case WriteOverflow => 7
    case GenChanged => 8
    case BufferTooSmall => 9
    case InvalidArg => 10
    case StateInvalid => 11
  }

  /** Any number of calls by other threads while a writer is in progress:
      allocs, deletes, other writers' writes, commits and aborts, attempts to
      compact. The writer's entry and bytes stay. */
  method Others(w: Writer)
    requires w.Valid() && !w.finished
    modifies w.vfs, w.vfs.idx
    ensures w.Valid() && w.vfs.idx == old(w.vfs.idx)
  {
    hide EngineOk, WriterOk, ViewOf, Finds, NamesOk, EntriesFit;
    var calls :| 0 <= calls;
    for i := 0 to calls
      invariant w.Valid() && w.vfs.idx == old(w.vfs.idx)
    {
      var name: Name := *;
      if
      case true =>
        var size: nat :| 0 <= size;
        OtherAlloc(w, name, size);
      case true =>
        OtherDelete(w, name);
      case true =>
        var rel: nat :| 0 <= rel;
        var d: seq<u8> := *;
        OtherWrite(w, name, rel, d);
      case true =>
        OtherEnd(w, name);
      case true =>
        var r := w.vfs.BeginCompact();
    }
  }

  method OtherAlloc(w: Writer, name: Name, size: nat)
    requires w.Valid() && !w.finished
    modifies w.vfs, w.vfs.idx
    ensures w.Valid() && w.vfs.idx == old(w.vfs.idx)
  {
    hide EngineOk, WriterOk, AllocIdx, Align4k, Grown;
    var v := w.vfs;
    InEngine(v.View(), v.data, v.live, v.compacting, w.Registered(), w.body, w.crcRaw, w.crcDirty);
    if v.utf8(name) && Align4k(v.idx.logical) + Align4k(size) < TWO64 && |v.idx.names| < TWO32 {
      if AllocIdx(v.View(), false, name, size).Ok? {
        OthersAlloc(v.View(), v.data, w.Registered(), w.body, w.crcRaw, w.crcDirty, name, size);
      }
      var r := v.Alloc(name, size);
    }
  }

  lemma InEngine(idx: Img, data: seq<u8>, live: set<Name>, compacting: bool, e: Ent, body: seq<u8>, raw: u32,
      dirty: bool)
    requires EngineOk(idx, data, live, compacting) && WriterOk(idx, data, e, body, raw, dirty)
    ensures IdxOk(idx) && !compacting && e.name in live
  {
  }

  method OtherDelete(w: Writer, name: Name)
    requires w.Valid() && !w.finished
    modifies w.vfs.idx
    ensures w.Valid()
  {
    hide EngineOk, WriterOk, Find, Finds, EntriesFit;
    var v := w.vfs;
    var f := v.idx.Position(name);
    if f.Some? && v.idx.entries[f.value].state == ST_ACTIVE {
      OthersRestate(v.View(), v.data, w.Registered(), w.body, w.crcRaw, w.crcDirty, f.value,
        v.View().ents[f.value].(state := ST_DELETED));
    }
    var r := v.Delete(name);
  }

  /** Another writer writes into its own span. */
  method OtherWrite(w: Writer, name: Name, rel: nat, d: seq<u8>)
    requires w.Valid() && !w.finished
    modifies w.vfs`data
    ensures w.Valid()
  {
    hide EngineOk, WriterOk, Find, IdxOk, Finds, EntriesFit, Pwrite;
    var v := w.vfs;
    InEngine(v.View(), v.data, v.live, v.compacting, w.Registered(), w.body, w.crcRaw, w.crcDirty);
    var f := v.idx.Position(name);
    if f.Some? && name != w.name {
      var e := v.idx.entries[f.value];
      if e.state == ST_DOWNLOADING && rel + |d| <= e.size {
        WriteEngine(v.View(), v.data, v.live, v.View().ents[f.value], rel, d);
        OthersWrite(v.View(), v.data, w.Registered(), w.body, w.crcRaw, w.crcDirty, v.View().ents[f.value], rel, d);
        v.data := Pwrite(v.data, e.offset + rel, d);
      }
    }
  }

  lemma OtherCommits(idx: Img, data: seq<u8>, live: set<Name>, compacting: bool, e: Ent, body: seq<u8>, raw: u32,
      dirty: bool, k: nat)
    requires EngineOk(idx, data, live, compacting) && WriterOk(idx, data, e, body, raw, dirty)
    requires k < |idx.ents| && idx.ents[k].name != e.name && idx.ents[k].state == ST_DOWNLOADING
    ensures var o := idx.ents[k];
      && o.offset + o.size <= |data|
      && var span := data[o.offset..o.offset + o.size];
        var spec := CommitIdx(idx, compacting, o.name, Crc32(span), span);
      && Holds(data, o.offset, span) && o.name in live
      && (forall x :: x in idx.ents && x.name == o.name && x.state == ST_DOWNLOADING ==> x == o)
      && (spec.Ok? ==> WriterOk(spec.value, data, e, body, raw, dirty))
  {
    hide Find, Align4k, Crc32, Raw;
    var o := idx.ents[k];
    SpanInFile(idx, data, live, compacting, k);
    FindUnique(idx.ents, k);
    forall x | x in idx.ents && x.name == o.name && x.state == ST_DOWNLOADING
      ensures x == o
    {
      var j := FindIn(idx.ents, x);
    }
    var span := data[o.offset..o.offset + o.size];
    OthersRestate(idx, data, e, body, raw, dirty, k, o.(state := ST_ACTIVE, crc := Crc32(span), body := span));
  }

  /** Another writer commits what its span holds, or aborts. */
  method OtherEnd(w: Writer, name: Name)
    requires w.Valid() && !w.finished
    modifies w.vfs, w.vfs.idx
    ensures w.Valid() && w.vfs.idx == old(w.vfs.idx)
  {
    hide EngineOk, WriterOk, Find, IdxOk, AbortIdx, CommitIdx, Crc32, Holds, ViewOf, Finds, EntriesFit;
    var v := w.vfs;
    InEngine(v.View(), v.data, v.live, v.compacting, w.Registered(), w.body, w.crcRaw, w.crcDirty);
    var f := v.idx.Position(name);
    if f.Some? && name != w.name && v.idx.entries[f.value].state == ST_DOWNLOADING {
      var e := v.idx.entries[f.value];
      OtherCommits(v.View(), v.data, v.live, v.compacting, w.Registered(), w.body, w.crcRaw, w.crcDirty, f.value);
      if * {
        var span := v.data[e.offset..e.offset + e.size];
        var r := v.Complete(name, Crc32(span), v.View().ents[f.value], span);
      } else {
        OthersAbort(v.View(), v.data, w.Registered(), w.body, w.crcRaw, w.crcDirty, name);
        v.Discard(name);
      }
    }
  }

  // --- a writer's life among others ---

  /** What a span holds after these calls of write_at: refused ones and empty
      ones change nothing. */
  function SpanAfter(calls: seq<(nat, seq<u8>)>, size: nat): (b: seq<u8>)
    ensures |b| <= size
  {
    if calls == [] then []
    else
      var b, (rel, d) := SpanAfter(calls[..|calls| - 1], size), calls[|calls| - 1];
      if d == [] || rel + |d| > size || rel > |b| then b else Pwrite(b, rel, d)
  }

  /** Any sequence of write_at calls, with rewinds and overlaps, while others
      use the container; then commit. It succeeds if and only if the calls have
      covered the whole span, and then the index holds the Active entry with the
      checksum of exactly those bytes, which the file holds at that place. */
  method WriteAllAndCommit(w: Writer, calls: seq<(nat, seq<u8>)>) returns (r: Result<()>)
    requires w.Valid() && !w.finished && w.body == []
    modifies w, w.vfs, w.vfs.idx
    ensures w.Valid() && w.finished && w.vfs.idx == old(w.vfs.idx)
    ensures r.Ok? <==> |SpanAfter(calls, w.size)| == w.size
    ensures r.Ok? ==>
      var span := SpanAfter(calls, w.size);
      && w.offset + w.size <= |w.vfs.data| && w.vfs.data[w.offset..w.offset + w.size] == span
      && Ent(w.name, ST_ACTIVE, w.offset, w.size, Crc32(span), span) in w.vfs.View().ents
    ensures r.Err? ==> Find(w.vfs.View().ents, w.name).None?
  {
    hide EngineOk, WriterOk, Crc32, Raw, Pwrite, ViewOf, Finds, EntriesFit, Find;
    for i := 0 to |calls|
      invariant w.Valid() && !w.finished && w.vfs.idx == old(w.vfs.idx) && w.body == SpanAfter(calls[..i], w.size)
    {
      assert calls[..i + 1][..i] == calls[..i];
      Others(w);
      var (rel, d) := calls[i];
      var written := w.WriteAt(rel, d);
    }
    assert calls[..|calls|] == calls;
    Others(w);
    r := CommitOrDrop(w);
  }

  /** commit, with what it leaves under the writer's name. */
  method CommitOrDrop(w: Writer) returns (r: Result<()>)
    requires w.Valid() && !w.finished
    modifies w`finished, w.vfs, w.vfs.idx
    ensures w.Valid() && w.finished && w.vfs.idx == old(w.vfs.idx)
    ensures r.Ok? <==> |w.body| == w.size
    ensures r.Ok? ==>
      && w.offset + w.size <= |w.vfs.data| && w.vfs.data[w.offset..w.offset + w.size] == w.body
      && Ent(w.name, ST_ACTIVE, w.offset, w.size, Crc32(w.body), w.body) in w.vfs.View().ents
    ensures r.Err? ==> Find(w.vfs.View().ents, w.name).None?
  {
    hide EngineOk, WriterOk, CommitIdx, AbortIdx, Crc32, Raw, ViewOf, Finds, EntriesFit, Find, Without;
    var v := w.vfs;
    WriterCommits(v.View(), v.data, v.live, v.compacting, w.Registered(), w.body, w.crcRaw, w.crcDirty);
    Written(v.View(), v.data, v.live, v.compacting, w.Registered(), w.body, w.crcRaw, w.crcDirty);
    GoneAfterAbort(v.View(), v.data, v.live, v.compacting, w.name);
    r := w.Commit();
  }

  lemma GoneAfterAbort(idx: Img, data: seq<u8>, live: set<Name>, compacting: bool, name: Name)
    requires EngineOk(idx, data, live, compacting)
    ensures Find(AbortIdx(idx, name).ents, name).None?
  {
    hide Find, Without;
    WithoutOk(idx, name);
  }

  /** Room for one more entry: 64-bit offsets, 32-bit name offsets. */
  predicate HasRoom(v: Vfs, size: nat)
    reads v, v.idx
  {
    Align4k(v.idx.logical) + Align4k(size) < TWO64 && |v.idx.names| < TWO32
  }

  /** A writer's name is in the index as Downloading. */
  lemma NameTaken(idx: Img, data: seq<u8>, live: set<Name>, compacting: bool, e: Ent, body: seq<u8>, raw: u32,
      dirty: bool, size: nat)
    requires EngineOk(idx, data, live, compacting) && WriterOk(idx, data, e, body, raw, dirty)
    ensures AllocIdx(idx, compacting, e.name, size)
         == Err(if e.name == [] || |e.name| > MAX_NAME then InvalidArg else AlreadyExists)
  {
    hide Find, Crc32, Holds, Raw, Align4k, Without;
    var i := FindIn(idx.ents, e);
  }

  lemma PwriteNothing(f: seq<u8>, off: nat)
    requires off <= |f|
    ensures Pwrite(f, off, []) == f
  {
  }

  /** VfsSinkCtx: the sink that writes one file of a VFS. */
  class VfsSink {
    const vfs: Vfs
    const name: Name
    var writer: Writer?

    constructor (vfs: Vfs, name: Name)
      ensures this.vfs == vfs && this.name == name && writer == null
    {
      this.vfs, this.name, writer := vfs, name, null;
    }

    ghost predicate Valid()
      reads this, vfs, vfs.idx, writer
    {
      && vfs.Valid() && vfs.utf8(name)
      && (writer != null ==> writer.vfs == vfs && writer.name == name && writer.Valid() && !writer.finished)
    }

    /** vs_prepare. While the sink has a writer its name is taken, so that a
        second prepare is refused and the writer stays. */
    method Prepare(size: nat) returns (code: nat)
      requires Valid() && HasRoom(vfs, size)
      modifies this`writer, vfs, vfs.idx
      ensures Valid() && vfs.idx == old(vfs.idx)
      ensures code == 0 <==> AllocIdx(old(vfs.View()), old(vfs.compacting), name, size).Ok?
      ensures code == 0 ==>
        writer != null && fresh(writer) && writer.size == size && writer.body == [] && !writer.crcDirty
      ensures code != 0 ==> writer == old(writer) && vfs.View() == old(vfs.View())
      ensures old(writer) != null ==>
        code == Code(if name == [] || |name| > MAX_NAME then InvalidArg else AlreadyExists)
    {
      hide EngineOk, WriterOk, AllocIdx, Align4k, Grown;
      if writer != null {
        NameTaken(vfs.View(), vfs.data, vfs.live, vfs.compacting, writer.Registered(), writer.body, writer.crcRaw,
          writer.crcDirty, size);
      }
      var r := vfs.Alloc(name, size);
      if r.Err? {
        return Code(r.error);
      }
      writer := r.value;
      code := 0;
    }

    /** vs_write. The file system may refuse to write bytes. */
    method Write(relOff: nat, data: seq<u8>) returns (code: nat)
      requires Valid()
      modifies writer, vfs`data
      ensures Valid() && vfs.View() == old(vfs.View())
      ensures writer == null ==> code == Code(StateInvalid)
      ensures writer != null ==>
        if relOff + |data| > writer.size || relOff > |old(writer.body)| then
          code == Code(WriteOverflow) && writer.body == old(writer.body)
        else if code == 0 then writer.body == Pwrite(old(writer.body), relOff, data)
        else data != [] && code == Code(Io) && writer.body == old(writer.body)
      // a write behind the end of what is there needs no second look at it
      ensures writer != null && !old(writer.crcDirty) && relOff == |old(writer.body)| ==> !writer.crcDirty
    {
      hide EngineOk, WriterOk, Pwrite;
      if writer == null {
        return Code(StateInvalid);
      }
      var refused: bool := *;
      if refused && data != [] && relOff + |data| <= writer.size && relOff <= writer.written {
        return Code(Io);
      }
      if relOff <= |writer.body| {
        PwriteNothing(writer.body, relOff);
      }
      var r := writer.WriteAt(relOff, data);
      code := if r.Ok? then 0 else Code(r.error);
    }

    /** vs_reset: a later write may go back to 0 by itself. */
    method Reset() returns (code: nat)
      ensures code == 0
    {
      code := 0;
    }

    /** vs_finish. Reading the span back for its checksum may fail. */
    method Finish() returns (code: nat)
      requires Valid()
      modifies this`writer, writer, vfs, vfs.idx
      ensures Valid() && writer == null && vfs.idx == old(vfs.idx)
      ensures old(writer) == null ==> code == Code(StateInvalid) && vfs.View() == old(vfs.View())
      ensures old(writer) != null && |old(writer.body)| != old(writer).size ==> code == Code(StateInvalid)
      ensures code == 0 ==> old(writer) != null
      ensures code != 0 && old(writer) != null && |old(writer.body)| == old(writer).size ==>
        code == Code(Io) && old(writer.crcDirty)
      ensures code == 0 ==>
        var span := old(writer.body);
        && |span| == old(writer).size && Holds(vfs.data, old(writer).offset, span)
        && CommitIdx(old(vfs.View()), false, name, Crc32(span), span) == Ok(vfs.View())
        && Ent(name, ST_ACTIVE, old(writer).offset, old(writer).size, Crc32(span), span) in vfs.View().ents
      ensures old(writer) != null && code != 0 ==> vfs.View() == AbortIdx(old(vfs.View()), name)
    {
      hide EngineOk, WriterOk, CommitIdx, AbortIdx, Crc32;
      var w := writer;
      if w == null {
        return Code(StateInvalid);
      }
      writer := null;
      var failed: bool := *;
      if failed && w.written == w.size && w.crcDirty {
        w.DoAbort();
        return Code(Io);
      }
      Written(vfs.View(), vfs.data, vfs.live, vfs.compacting, w.Registered(), w.body, w.crcRaw, w.crcDirty);
      var r := w.Commit();
      code := if r.Ok? then 0 else Code(r.error);
    }

    /** vs_abort. */
    method Abort() returns (code: nat)
      requires Valid()
      modifies this`writer, writer, vfs, vfs.idx
      ensures Valid() && writer == null && code == 0 && vfs.idx == old(vfs.idx)
      ensures vfs.View() == if old(writer) == null then old(vfs.View()) else AbortIdx(old(vfs.View()), name)
    {
      hide EngineOk, WriterOk, AbortIdx;
      if writer != null {
        writer.DoAbort();
        writer := null;
      }
      code := 0;
    }
  }

  lemma Written(idx: Img, data: seq<u8>, live: set<Name>, compacting: bool, e: Ent, body: seq<u8>, raw: u32,
      dirty: bool)
    requires EngineOk(idx, data, live, compacting) && WriterOk(idx, data, e, body, raw, dirty)
    ensures Holds(data, e.offset, body)
    ensures var r := CommitIdx(idx, false, e.name, Crc32(body), body);
      r.Ok? ==> e.(state := ST_ACTIVE, crc := Crc32(body), body := body) in r.value.ents
  {
    hide Find, Crc32, Holds, Raw;
    var i := FindIn(idx.ents, e);
    var r := CommitIdx(idx, false, e.name, Crc32(body), body);
    if r.Ok? {
      assert r.value.ents[i] in r.value.ents;
    }
  }
}
