/** The public operations of vfs/mod.rs over the index in memory and the bytes
    of files.vfs. Threads that take the lock in turn are calls in turn. */
module VfsEngine {
  import opened Crc
  import opened Spans
  import opened Wrappers
  import opened Files
  import opened Format
  import opened Entries
  import opened Engine
  import opened IndexMap
  import opened Enumerate
  import opened Accounting

  datatype VfsStat = VfsStat(logical: nat, physical: nat, total: nat, active: nat, deleted: nat, garbage: nat)
  datatype EntryInfo = EntryInfo(offset: nat, size: nat, state: nat, crc: u32)

  class Vfs {
    const utf8: seq<u8> -> bool
    var idx: Index
    var data: seq<u8>
    var writers: nat
    var compacting: bool
    ghost var live: set<Name>

    /** The end of open_paths: the file is extended to the logical size. */
    constructor (idx: Index, data: seq<u8>)
      requires idx.Valid() && IdxOk(idx.View()) && ActivesHeld(idx.View().ents, data) && LiveOk(idx.View().ents, {})
      ensures Valid() && View() == idx.View() && this.idx == idx && !compacting && live == {}
    {
      this.utf8, this.idx, this.data := idx.utf8, idx, Grown(data, idx.logical);
      writers, compacting, live := 0, false, {};
      new;
      GrownAll(idx.View().ents, data, idx.logical);
    }

    ghost predicate Valid()
      reads this, idx
    {
      && idx.utf8 == utf8 && idx.Valid()
      && EngineOk(idx.View(), data, live, compacting) && writers == |live|
    }

    ghost function View(): Img
      requires Valid()
      reads this, idx
    {
      idx.View()
    }

    /** The table finds each name, so that no name is there twice. */
    lemma Unique()
      requires Valid()
      ensures UniqueNames(View().ents)
    {
      hide EngineOk;
      FindsIsFind(idx.table, View().ents, []);
    }

    /** First step of a write: registers the name and reserves a span at the
        end. Offsets are 64 bits wide, name offsets 32. */
    method Alloc(name: Name, size: nat) returns (r: Result<Writer>)
      requires Valid() && utf8(name)
      requires Align4k(idx.logical) + Align4k(size) < TWO64 && |idx.names| < TWO32
      modifies this, idx
      ensures Valid() && idx == old(idx) && compacting == old(compacting)
      ensures var spec := AllocIdx(old(View()), old(compacting), name, size);
        && (r.Err? ==> spec == Err(r.error) && View() == old(View()) && data == old(data) && live == old(live))
        && (r.Ok? ==> spec == Ok(View()) && data == Grown(old(data), View().logical) && live == old(live) + {name})
      ensures r.Ok? ==>
        && fresh(r.value) && r.value.vfs == this && r.value.Valid() && !r.value.finished
        && r.value.Registered() == NewEnt(name, Align4k(old(View()).logical), size) && r.value.body == []
        && !r.value.crcDirty
      ensures AllocAnswer(old(View()), old(compacting), name, size, if r.Ok? then Ok(View()) else Err(r.error))
    {
      hide EngineOk, Find, Align4k, Grown, LiveOk, AllocIdx, WriterOk, AllocAnswer;
      Unique();
      AllocIs(View(), compacting, name, size);
      var reserved := Register(name, size);
      if reserved.Err? {
        return Err(reserved.error);
      }
      AllocEngine(old(View()), data, live, name, size);
      writers := writers + 1;
      data := Grow(data, idx.logical);
      live := live + {name};
      var w := new Writer(this, name, reserved.value, size);
      r := Ok(w);
    }

    /** The part of alloc that changes the index; gives the reserved offset. */
    method Register(name: Name, size: nat) returns (r: Result<nat>)
      requires Valid() && utf8(name)
      requires Align4k(idx.logical) + Align4k(size) < TWO64 && |idx.names| < TWO32
      modifies idx
      ensures idx.Valid()
      ensures var spec := AllocIdx(old(View()), compacting, name, size);
        && (r.Err? ==> spec == Err(r.error) && idx.View() == old(View()))
        && (r.Ok? ==> spec == Ok(idx.View()) && r.value == Align4k(old(View()).logical) && !compacting)
    {
      hide EngineOk, Find, Align4k, SwapRemove, UniqueNames, Finds;
      if name == [] || |name| > MAX_NAME {
        return Err(InvalidArg);
      }
      var aligned := Align4k(size);
      Align4kLeast(size);
      if compacting {
        return Err(BusyCompacting);
      }
      ghost var was := View();
      var at := idx.Position(name);
      if at.Some? {
        if idx.entries[at.value].state != ST_DELETED {
          return Err(AlreadyExists);
        }
      }
      FindsIsFind(idx.table, was.ents, name);
      WithoutFinds(was.ents, name, name);
      if at.Some? {
        var found := idx.Remove(name);
      }
      var offset := Align4k(idx.logical);
      idx.logical := offset + aligned;
      idx.Insert(name, Entry(0, 0, ST_DOWNLOADING, offset, size, 0), []);
      idx.generation := idx.generation + 1;
      r := Ok(offset);
    }

    method Delete(name: Name) returns (r: Result<()>)
      requires Valid()
      modifies idx
      ensures Valid()
      ensures var spec := DeleteIdx(old(View()), compacting, name);
        && (r.Err? ==> spec == Err(r.error) && View() == old(View()))
        && (r.Ok? ==> spec == Ok(View()))
      ensures DeleteAnswer(old(View()), compacting, name, if r.Ok? then Ok(View()) else Err(r.error))
    {
      hide EngineOk, Find, ViewOf, Finds, EntriesFit, DeleteAnswer;
      Unique();
      DeleteIs(View(), compacting, name);
      if compacting {
        return Err(BusyCompacting);
      }
      ghost var was := View();
      var at := idx.Position(name);
      if at.None? {
        return Err(NotFound);
      }
      var e := idx.entries[at.value];
      if e.state == ST_ACTIVE {
        DeleteEngine(was, data, live, at.value);
        idx.Restate(at.value, ST_DELETED, e.crc, idx.bodies[at.value]);
        idx.generation := idx.generation + 1;
        assert View() == was.(gen := was.gen + 1,
          ents := was.ents[at.value := was.ents[at.value].(state := ST_DELETED)]);
        return Ok(());
      } else if e.state == ST_DELETED {
        return Ok(());
      }
      r := Err(StateInvalid);
    }

    /** The locked part of do_commit; e is the entry as alloc made it. */
    method Complete(name: Name, crc: u32, ghost e: Ent, ghost body: seq<u8>) returns (r: Result<()>)
      requires Valid() && e.name == name && e.state == ST_DOWNLOADING
      requires forall o :: o in View().ents && o.name == name && o.state == ST_DOWNLOADING ==> o == e
      requires crc == Crc32(body) && |body| == e.size && Holds(data, e.offset, body)
      modifies this, idx
      ensures Valid() && idx == old(idx) && data == old(data) && compacting == old(compacting)
      ensures var spec := CommitIdx(old(View()), old(compacting), name, crc, body);
        && (r.Err? ==> spec == Err(r.error) && View() == old(View()) && live == old(live))
        && (r.Ok? ==> spec == Ok(View()) && live == old(live) - {name})
      ensures r.Ok? ==> e.offset + e.size <= |data| && body == data[e.offset..e.offset + e.size]
      ensures CommitAnswer(old(View()), old(compacting), name, crc, body, if r.Ok? then Ok(View()) else Err(r.error))
    {
      hide EngineOk, Find, Crc32, Holds, ViewOf, Finds, EntriesFit, CommitAnswer;
      Unique();
      CommitIs(View(), compacting, name, crc, body);
      if compacting {
        return Err(BusyCompacting);
      }
      ghost var was := View();
      var at := idx.Position(name);
      if at.None? {
        return Err(StateInvalid);
      }
      if idx.entries[at.value].state != ST_DOWNLOADING {
        return Err(StateInvalid);
      }
      assert was.ents[at.value] in was.ents;
      CommitEngine(was, data, live, false, e, body);
      idx.Restate(at.value, ST_ACTIVE, crc, body);
      idx.generation := idx.generation + 1;
      writers := writers - 1;
      live := live - {name};
      r := Ok(());
    }

    /** The locked part of do_abort. */
    method Discard(name: Name)
      requires Valid() && name in live
      modifies this, idx
      ensures Valid() && idx == old(idx) && data == old(data) && compacting == old(compacting)
      ensures View() == AbortIdx(old(View()), name) && live == old(live) - {name}
      ensures AbortAnswer(old(View()), name, View())
    {
      hide EngineOk, ViewOf, Finds, EntriesFit, Without, AbortAnswer;
      Unique();
      AbortIs(View(), name);
      assert !compacting by { NotCompacting(View(), data, live, compacting); }
      AbortEngine(View(), data, live, name);
      var found := idx.Remove(name);
      idx.generation := idx.generation + 1;
      writers := SaturatingSub(writers, 1);
      live := live - {name};
    }

    method Lookup(name: Name) returns (r: Result<EntryInfo>)
      requires Valid()
      ensures r == if compacting then Err(BusyCompacting) else
        var f := Find(View().ents, name);
        if f.None? then Err(NotFound)
        else var e := View().ents[f.value]; Ok(EntryInfo(e.offset, e.size, e.state, e.crc))
    {
      hide EngineOk, Find;
      if compacting {
        return Err(BusyCompacting);
      }
      var at := idx.Position(name);
      if at.None? {
        return Err(NotFound);
      }
      var e := idx.entries[at.value];
      r := Ok(EntryInfo(e.offset, e.size, e.state, e.crc));
    }

    /** The check of compact_with: from here on the index is frozen, and no
        span has a writer. */
    method BeginCompact() returns (r: Result<()>)
      requires Valid()
      modifies this`compacting
      ensures Valid()
      ensures old(compacting) ==> r == Err(BusyCompacting)
      ensures !old(compacting) && live != {} ==> r == Err(BusyWriters)
      ensures r.Ok? <==> !old(compacting) && live == {}
      ensures compacting == (old(compacting) || r.Ok?)
    {
      if compacting {
        return Err(BusyCompacting);
      }
      if writers != 0 {
        return Err(BusyWriters);
      }
      compacting := true;
      r := Ok(());
    }

    /** stat: four sums over the entries. */
    method Stat() returns (s: VfsStat)
      requires Valid()
      ensures s.logical == View().logical && s.physical == |data| && s.logical <= s.physical
      ensures s.active == |BytesIn(View().ents, ST_ACTIVE, s.logical)|
      ensures s.deleted == |BytesIn(View().ents, ST_DELETED, s.logical)|
      ensures s.total == SumAll(View().ents) <= s.logical
      ensures s.garbage == s.logical - s.total == |Bytes(0, s.logical) - Covered(View().ents)|
    {
      hide Align4k, EngineOk, Finds, EntriesFit, ViewOf, BytesIn, Bytes, Covered;
      EngineLogical(View(), data, live, compacting);
      var total, active, deleted := 0, 0, 0;
      ghost var ents := View().ents;
      for i := 0 to |idx.entries|
        invariant total == SumAll(ents[..i]) && active == SumIn(ents[..i], ST_ACTIVE)
        invariant deleted == SumIn(ents[..i], ST_DELETED)
      {
        assert ents[..i + 1][..i] == ents[..i];
        var e := idx.entries[i];
        var a := Align4k(e.size);
        total := total + a;
        if e.state == ST_ACTIVE {
          active := active + a;
        } else if e.state == ST_DELETED {
          deleted := deleted + a;
        }
      }
      assert ents[..|idx.entries|] == ents;
      GarbageIsUncovered(ents, idx.logical);
      SumInCounts(ents, ST_ACTIVE, idx.logical);
      SumInCounts(ents, ST_DELETED, idx.logical);
      var garbage := SaturatingSub(idx.logical, total);
      s := VfsStat(idx.logical, |data|, total, active, deleted, garbage);
    }

    /** enumerate, first step: generation, number of entries, size of the names. */
    method EnumerateQuery() returns (r: Result<(nat, nat, nat)>)
      requires Valid()
      ensures r == if compacting then Err(BusyCompacting)
                   else Ok((View().gen, |View().ents|, StringsLen(idx.entries) % TWO32))
    {
      if compacting {
        return Err(BusyCompacting);
      }
      var len := idx.CompactBlobLen();
      r := Ok((idx.generation, |idx.entries|, len));
    }

    /** enumerate, second step: fills the caller's arrays if they fit. */
    method EnumerateRead(gen: nat, names: array<u8>, off: array<nat>, size: array<nat>, crc: array<u32>,
        state: array<nat>)
      returns (r: Result<()>)
      requires Valid() && StringsLen(idx.entries) < TWO32 && Distinct(names, off, size, crc, state)
      modifies names, off, size, crc, state
      ensures r == if compacting then Err(BusyCompacting)
                   else if gen != View().gen then Err(GenChanged)
                   else if !Fitting(|View().ents|, StringsLen(idx.entries), names, off, size, crc, state)
                     then Err(BufferTooSmall)
                   else Ok(())
      ensures r.Ok? ==> Rows(idx.entries, |idx.entries|, off[..], size[..], crc[..], state[..])
      ensures r.Ok? ==> names[..] == CompactBlob(idx.entries, idx.names) + old(names[..])[StringsLen(idx.entries)..]
    {
      hide CompactBlob, Rows, EngineOk;
      if compacting {
        return Err(BusyCompacting);
      }
      if gen != idx.generation {
        return Err(GenChanged);
      }
      var count := |idx.entries|;
      var len := idx.CompactBlobLen();
      if off.Length < count || size.Length < count || crc.Length < count || state.Length < count || names.Length < len {
        return Err(BufferTooSmall);
      }
      CopyOut(idx.entries, idx.names, names, off, size, crc, state);
      r := Ok(());
    }
  }

  predicate Fitting(count: nat, len: nat, names: array<u8>, off: array<nat>, size: array<nat>, crc: array<u32>,
      state: array<nat>) {
    count <= off.Length && count <= size.Length && count <= crc.Length && count <= state.Length && len <= names.Length
  }

  /** set_len, when the file is too short. */
  method Grow(data: seq<u8>, logical: nat) returns (r: seq<u8>)
    ensures r == Grown(data, logical)
  {
    r := data;
    if |data| < logical {
      r := SetLen(data, logical);
    }
  }

  class Writer {
    const vfs: Vfs
    const name: Name
    const offset: nat
    const size: nat
    var written: nat
    var crcRaw: u32
    var crcDirty: bool
    var finished: bool
    ghost var body: seq<u8>

    constructor (vfs: Vfs, name: Name, offset: nat, size: nat)
      ensures this.vfs == vfs && this.name == name && this.offset == offset && this.size == size
      ensures written == 0 && crcRaw == INIT && !crcDirty && !finished && body == []
    {
      this.vfs, this.name, this.offset, this.size := vfs, name, offset, size;
      written, crcRaw, crcDirty, finished, body := 0, INIT, false, false, [];
    }

    /** The entry as it stays while the writer lives. */
    function Registered(): Ent { NewEnt(name, offset, size) }

    ghost predicate Valid()
      reads this, vfs, vfs.idx
    {
      && vfs.Valid()
      && (!finished ==>
        WriterOk(vfs.View(), vfs.data, Registered(), body, crcRaw, crcDirty) && written == |body|
        && name in vfs.live)
    }

    /** Writes at relOff inside the span, or rewrites what is there; a gap or
        an overrun is refused. */
    method WriteAt(relOff: nat, data: seq<u8>) returns (r: Result<()>)
      requires Valid()
      modifies this, vfs`data
      ensures Valid() && vfs.View() == old(vfs.View()) && finished == old(finished)
      ensures r == if finished then Err(StateInvalid)
                   else if relOff + |data| > size || relOff > old(written) then Err(WriteOverflow) else Ok(())
      ensures r.Err? ==> vfs.data == old(vfs.data) && body == old(body) && crcDirty == old(crcDirty)
      ensures r.Ok? ==> crcDirty == (old(crcDirty) || relOff < old(written))
      ensures r.Ok? && data == [] ==> vfs.data == old(vfs.data) && body == old(body)
      ensures r.Ok? && data != [] ==>
        vfs.data == Pwrite(old(vfs.data), offset + relOff, data) && body == Pwrite(old(body), relOff, data)
    {
      hide EngineOk, WriterOk, Pwrite, Raw;
      if finished {
        return Err(StateInvalid);
      }
      var end := relOff + |data|;
      if end > size || relOff > written {
        return Err(WriteOverflow);
      }
      WriteStep(vfs.View(), vfs.data, vfs.live, vfs.compacting, Registered(), body, crcRaw, crcDirty, relOff, data);
      if relOff < written {
        crcDirty := true;
      }
      if data != [] {
        vfs.data := Pwrite(vfs.data, offset + relOff, data);
        if !crcDirty {
          crcRaw := UpdateRaw(crcRaw, data);
        }
        written := if written > end then written else end;
        body := Pwrite(body, relOff, data);
      }
      r := Ok(());
    }

    /** What do_commit relies on: the bytes written so far are in the span, and
        a Downloading entry of this name is the writer's own. */
    ghost predicate Writable()
      reads this, vfs, vfs.idx
    {
      && vfs.Valid()
      && (!finished ==>
            && |body| == written <= size && offset + size <= |vfs.data| && Holds(vfs.data, offset, body)
            && (!crcDirty ==> crcRaw == Raw(INIT, body))
            && forall e :: e in vfs.View().ents && e.name == name && e.state == ST_DOWNLOADING ==> e == Registered())
    }

    method DoCommit() returns (r: Result<()>)
      requires Writable()
      modifies this`finished, vfs, vfs.idx
      ensures vfs.Valid() && vfs.idx == old(vfs.idx) && vfs.data == old(vfs.data)
      ensures vfs.compacting == old(vfs.compacting)
      ensures var spec :=
          if old(finished) || written != size then Err(StateInvalid)
          else CommitIdx(old(vfs.View()), old(vfs.compacting), name, Crc32(body), body);
        && (r.Err? ==>
          spec == Err(r.error) && vfs.View() == old(vfs.View()) && vfs.live == old(vfs.live)
          && finished == old(finished))
        && (r.Ok? ==> spec == Ok(vfs.View()) && finished && vfs.live == old(vfs.live) - {name})
      ensures r.Ok? ==> body == vfs.data[offset..offset + size]
    {
      hide EngineOk, Raw, Find, CommitIdx, Crc32, CommitAnswer, ViewOf, Finds, EntriesFit;
      if finished {
        return Err(StateInvalid);
      }
      if written != size {
        return Err(StateInvalid);
      }
      // the running checksum, or after a rewrite that of the span as read back
      var crc;
      if crcDirty {
        crc := ReadBackCrc(vfs.data, offset, body, size);
      } else {
        crc := Not(crcRaw);
        CrcOfRaw(body);
      }
      r := vfs.Complete(name, crc, Registered(), body);
      if r.Ok? {
        finished := true;
      }
    }

    /** do_abort: the entry goes, its span becomes garbage. */
    method DoAbort()
      requires Valid()
      modifies this`finished, vfs, vfs.idx
      ensures Valid() && finished && vfs.idx == old(vfs.idx) && vfs.data == old(vfs.data)
      ensures vfs.compacting == old(vfs.compacting)
      ensures old(finished) ==> vfs.View() == old(vfs.View()) && vfs.live == old(vfs.live)
      ensures !old(finished) ==> vfs.View() == AbortIdx(old(vfs.View()), name) && vfs.live == old(vfs.live) - {name}
    {
      hide EngineOk, WriterOk;
      if finished {
        return;
      }
      finished := true;
      vfs.Discard(name);
    }

    /** commit, which consumes the writer: dropping it aborts what do_commit
        did not finish. It succeeds exactly when every byte was written, and
        then the index holds the checksum of the span as it is in the file. */
    method Commit() returns (r: Result<()>)
      requires Valid()
      modifies this`finished, vfs, vfs.idx
      ensures Valid() && finished && vfs.idx == old(vfs.idx) && vfs.data == old(vfs.data)
      ensures vfs.compacting == old(vfs.compacting)
      ensures r.Ok? <==> !old(finished) && written == size
      ensures r.Err? ==> r.error == StateInvalid
      ensures r.Ok? ==>
        var span := vfs.data[offset..offset + size];
        && body == span && vfs.live == old(vfs.live) - {name}
        && CommitIdx(old(vfs.View()), false, name, Crc32(span), span) == Ok(vfs.View())
      ensures r.Err? && old(finished) ==> vfs.View() == old(vfs.View()) && vfs.live == old(vfs.live)
      ensures r.Err? && !old(finished) ==>
        vfs.View() == AbortIdx(old(vfs.View()), name) && vfs.live == old(vfs.live) - {name}
    {
      hide EngineOk, WriterOk, CommitIdx, AbortIdx, Crc32, Raw, Holds, ViewOf, Finds, EntriesFit;
      if !finished {
        WriterCommits(vfs.View(), vfs.data, vfs.live, vfs.compacting, Registered(), body, crcRaw, crcDirty);
      }
      r := DoCommit();
      DoAbort();
    }
  }

  /** A writer in progress can always be committed once its span is full. */
  lemma WriterCommits(idx: Img, data: seq<u8>, live: set<Name>, compacting: bool, e: Ent, body: seq<u8>, raw: u32,
      dirty: bool)
    requires EngineOk(idx, data, live, compacting) && WriterOk(idx, data, e, body, raw, dirty)
    ensures e.name in live && !compacting && e.offset + e.size <= |data|
    ensures |body| <= e.size && Holds(data, e.offset, body) && (!dirty ==> raw == Raw(INIT, body))
    ensures forall o :: o in idx.ents && o.name == e.name && o.state == ST_DOWNLOADING ==> o == e
    ensures CommitIdx(idx, compacting, e.name, Crc32(body), body).Ok?
  {
    hide Find, Align4k, Crc32, Holds, Raw;
    var i := FindIn(idx.ents, e);
    SpanInFile(idx, data, live, compacting, i);
    forall o | o in idx.ents && o.name == e.name && o.state == ST_DOWNLOADING
      ensures o == e
    {
      var j := FindIn(idx.ents, o);
    }
  }

  lemma EngineLogical(idx: Img, data: seq<u8>, live: set<Name>, compacting: bool)
    requires EngineOk(idx, data, live, compacting)
    ensures SpansInside(idx.ents, idx.logical) && idx.logical <= |data|
  {
  }

  function SaturatingSub(a: nat, b: nat): nat {
    if a >= b then a - b else 0
  }

  lemma NotCompacting(idx: Img, data: seq<u8>, live: set<Name>, compacting: bool)
    requires EngineOk(idx, data, live, compacting) && live != {}
    ensures !compacting
  {
  }

  lemma CrcOfRaw(b: seq<u8>)
    ensures Crc32(b) == Not(Raw(INIT, b))
  {
  }

  /** Reads the span back in chunks and sums it up. */
  method ReadBackCrc(data: seq<u8>, offset: nat, ghost body: seq<u8>, size: nat) returns (crc: u32)
    requires |body| == size && offset + size <= |data| && Holds(data, offset, body)
    ensures crc == Crc32(body)
  {
    hide Raw, Holds;
    var raw := INIT;
    var done := 0;
    assert Raw(INIT, body[..0]) == INIT by { RawNone(INIT, body[..0]); }
    while done < size
      invariant 0 <= done <= size
      invariant raw == Raw(INIT, body[..done])
    {
      var n := if size - done < CHUNK then size - done else CHUNK;
      ReadHolds(data, offset, body, done, done + n);
      RawConcat(INIT, body[..done], body[done..done + n]);
      assert body[..done + n] == body[..done] + body[done..done + n];
      raw := UpdateRaw(raw, data[offset + done..offset + done + n]);
      done := done + n;
    }
    assert body[..size] == body;
    crc := Not(raw);
  }

  lemma RawNone(state: u32, b: seq<u8>)
    requires b == []
    ensures Raw(state, b) == state
  {
  }

  lemma ReadHolds(data: seq<u8>, offset: nat, body: seq<u8>, i: nat, j: nat)
    requires Holds(data, offset, body) && i < j <= |body|
    ensures offset + j <= |data| && data[offset + i..offset + j] == body[i..j]
  {
    HoldsPart(data, offset, body, i, j);
  }

  lemma GrownAll(ents: seq<Ent>, data: seq<u8>, logical: nat)
    requires ActivesHeld(ents, data)
    ensures ActivesHeld(ents, Grown(data, logical))
  {
    hide Holds, Grown;
    forall i | 0 <= i < |ents| && ents[i].Active()
      ensures Holds(Grown(data, logical), ents[i].offset, ents[i].body)
    {
      GrownHolds(data, logical, ents[i].offset, ents[i].body);
    }
  }
}
