/** What the state under the inner lock of mod.rs guarantees, and why every
    operation on the index keeps it: for the container as a whole and for each
    live writer. */
module Engine {
  import opened Crc
  import opened Spans
  import opened Wrappers
  import opened Files
  import opened Format
  import opened Entries

  ghost predicate ActivesHeld(ents: seq<Ent>, data: seq<u8>) {
    forall i :: 0 <= i < |ents| && ents[i].Active() ==> Holds(data, ents[i].offset, ents[i].body)
  }

  /** The names with a live writer are exactly the Downloading ones. */
  ghost predicate LiveOk(ents: seq<Ent>, live: set<Name>) {
    && (forall i :: 0 <= i < |ents| ==> (ents[i].state == ST_DOWNLOADING <==> ents[i].name in live))
    && (forall n :: n in live ==> Find(ents, n).Some?)
  }

  /** idx is the index, data files.vfs, live the names with a writer. */
  ghost predicate EngineOk(idx: Img, data: seq<u8>, live: set<Name>, compacting: bool) {
    && IdxOk(idx) && idx.logical <= |data| && ActivesHeld(idx.ents, data) && LiveOk(idx.ents, live)
    && (compacting ==> live == {})
  }

  /** A writer in progress: its entry is registered, body is what it has put
      into its span, and the running checksum is that of body unless a rewrite
      made it stale. */
  ghost predicate WriterOk(idx: Img, data: seq<u8>, e: Ent, body: seq<u8>, raw: u32, dirty: bool) {
    && e.state == ST_DOWNLOADING && e in idx.ents
    && |body| <= e.size && Holds(data, e.offset, body)
    && (!dirty ==> raw == Raw(INIT, body))
  }

  function NewEnt(name: Name, offset: nat, size: nat): Ent {
    Ent(name, ST_DOWNLOADING, offset, size, 0, [])
  }

  function Grown(data: seq<u8>, logical: nat): (r: seq<u8>)
    ensures |r| == if |data| < logical then logical else |data|
  {
    if |data| < logical then SetLen(data, logical) else data
  }

  lemma GrownHolds(data: seq<u8>, logical: nat, off: nat, d: seq<u8>)
    requires Holds(data, off, d)
    ensures Holds(Grown(data, logical), off, d)
  {
    GrowHolds(data, logical, off, d);
  }

  // --- alloc ---

  lemma AllocLive(ents: seq<Ent>, live: set<Name>, name: Name, e: Ent)
    requires UniqueNames(ents) && LiveOk(ents, live) && e.name == name && e.state == ST_DOWNLOADING
    requires Find(ents, name).Some? ==> ents[Find(ents, name).value].state == ST_DELETED
    ensures LiveOk(Without(ents, name) + [e], live + {name}) && name !in live
  {
    hide Find;
    var w := Without(ents, name);
    var r := w + [e];
    var f := Find(ents, name);
    if f.Some? {
      assert ents[f.value].name == name && ents[f.value].state != ST_DOWNLOADING;
    }
    forall i | 0 <= i < |r|
      ensures r[i].state == ST_DOWNLOADING <==> r[i].name in live + {name}
    {
      if i < |w| {
        var j := if f.Some? && i == f.value then |ents| - 1 else i;
        assert w[i] == ents[j];
        if f.Some? {
          assert j != f.value;
        }
      }
    }
    forall n | n in live + {name}
      ensures Find(r, n).Some?
    {
      if n == name {
        assert r[|w|].name == n;
      } else {
        var k := Find(ents, n).value;
        assert ents[k].name == n;
        var p := if f.Some? && k == |ents| - 1 then f.value else k;
        assert r[p].name == n;
      }
      SomeName(r, n);
    }
  }

  lemma SomeName(ents: seq<Ent>, n: Name)
    requires exists i :: 0 <= i < |ents| && ents[i].name == n
    ensures Find(ents, n).Some?
  {
  }

  lemma AllocEngine(idx: Img, data: seq<u8>, live: set<Name>, name: Name, size: nat)
    requires EngineOk(idx, data, live, false) && AllocIdx(idx, false, name, size).Ok?
    ensures var t := AllocIdx(idx, false, name, size).value; var e := NewEnt(name, Align4k(idx.logical), size);
      && EngineOk(t, Grown(data, t.logical), live + {name}, false) && name !in live
      && WriterOk(t, Grown(data, t.logical), e, [], INIT, false) && t.ents[|t.ents| - 1] == e
  {
    hide Find, Align4k, Crc32, Grown, Without, LiveOk, Holds;
    var t := AllocIdx(idx, false, name, size).value;
    var e := NewEnt(name, Align4k(idx.logical), size);
    AllocOk(idx, name, size);
    AllocLive(idx.ents, live, name, e);
    WithoutOk(idx, name);
    forall i | 0 <= i < |t.ents| && t.ents[i].Active()
      ensures Holds(Grown(data, t.logical), t.ents[i].offset, t.ents[i].body)
    {
      assert t.ents[i] in Without(idx.ents, name);
      var j :| 0 <= j < |idx.ents| && idx.ents[j] == t.ents[i];
      GrownHolds(data, t.logical, t.ents[i].offset, t.ents[i].body);
    }
    assert t.ents[|t.ents| - 1] == e;
    assert Holds(Grown(data, t.logical), e.offset, []) by { EmptyHeld(Grown(data, t.logical), e.offset); }
  }

  lemma EmptyHeld(f: seq<u8>, off: nat)
    ensures Holds(f, off, [])
  {
  }

  // --- delete and commit: one entry changes its state ---

  lemma RestateLive(ents: seq<Ent>, live: set<Name>, i: nat, e: Ent)
    requires UniqueNames(ents) && LiveOk(ents, live) && i < |ents| && e.name == ents[i].name
    requires e.state != ST_DOWNLOADING
    ensures LiveOk(ents[i := e], live - {e.name})
  {
    hide Find;
    var r := ents[i := e];
    forall n | n in live - {e.name}
      ensures Find(r, n).Some?
    {
      assert r[Find(ents, n).value].name == n;
      SomeName(r, n);
    }
  }

  lemma RestateEngine(idx: Img, data: seq<u8>, live: set<Name>, i: nat, e: Ent)
    requires EngineOk(idx, data, live, false) && i < |idx.ents| && Committed(e)
    requires e.name == idx.ents[i].name && e.offset == idx.ents[i].offset && e.size == idx.ents[i].size
    requires e.state != ST_DOWNLOADING && (e.Active() ==> Holds(data, e.offset, e.body))
    ensures EngineOk(idx.(gen := idx.gen + 1, ents := idx.ents[i := e]), data, live - {e.name}, false)
  {
    hide Find, Align4k, Crc32, LiveOk, Holds;
    RestateOk(idx, i, e);
    RestateLive(idx.ents, live, i, e);
  }

  lemma DeleteEngine(idx: Img, data: seq<u8>, live: set<Name>, i: nat)
    requires EngineOk(idx, data, live, false) && i < |idx.ents| && idx.ents[i].Active()
    ensures EngineOk(idx.(gen := idx.gen + 1, ents := idx.ents[i := idx.ents[i].(state := ST_DELETED)]), data, live,
      false)
  {
    hide Find, Align4k, Crc32, Holds, IdxOk;
    RestateEngine(idx, data, live, i, idx.ents[i].(state := ST_DELETED));
    assert live - {idx.ents[i].name} == live;
  }

  /** Completing a Downloading entry whose span holds what was written. */
  lemma CommitEngine(idx: Img, data: seq<u8>, live: set<Name>, compacting: bool, e: Ent, body: seq<u8>)
    requires EngineOk(idx, data, live, compacting) && Find(idx.ents, e.name).Some?
    requires idx.ents[Find(idx.ents, e.name).value] == e
    requires e.state == ST_DOWNLOADING && |body| == e.size && Holds(data, e.offset, body)
    ensures CommitIdx(idx, compacting, e.name, Crc32(body), body).Ok?
    ensures EngineOk(CommitIdx(idx, compacting, e.name, Crc32(body), body).value, data, live - {e.name}, false)
    ensures e.name in live && !compacting
    ensures e.offset + e.size <= |data| && body == data[e.offset..e.offset + e.size]
  {
    hide Find, Align4k, Crc32, IdxOk;
    var i := Find(idx.ents, e.name).value;
    RestateEngine(idx, data, live, i, e.(state := ST_ACTIVE, crc := Crc32(body), body := body));
    SpanInFile(idx, data, live, compacting, i);
  }

  lemma SpanInFile(idx: Img, data: seq<u8>, live: set<Name>, compacting: bool, i: nat)
    requires EngineOk(idx, data, live, compacting) && i < |idx.ents|
    ensures idx.ents[i].offset + idx.ents[i].size <= |data|
  {
    hide Align4k, Crc32, LiveOk;
    Align4kLeast(idx.ents[i].size);
  }

  // --- abort ---

  lemma DropLive(ents: seq<Ent>, live: set<Name>, name: Name)
    requires UniqueNames(ents) && LiveOk(ents, live)
    ensures LiveOk(Without(ents, name), live - {name})
  {
    hide Find;
    var r, f := Without(ents, name), Find(ents, name);
    forall i | 0 <= i < |r|
      ensures r[i].state == ST_DOWNLOADING <==> r[i].name in live - {name}
    {
      var j := if f.Some? && i == f.value then |ents| - 1 else i;
      assert r[i] == ents[j];
      if f.Some? {
        assert j != f.value;
      }
    }
    forall n | n in live - {name}
      ensures Find(r, n).Some?
    {
      var k := Find(ents, n).value;
      assert ents[k].name == n;
      var p := if f.Some? && k == |ents| - 1 then f.value else k;
      assert r[p].name == n;
      SomeName(r, n);
    }
  }

  lemma AbortEngine(idx: Img, data: seq<u8>, live: set<Name>, name: Name)
    requires EngineOk(idx, data, live, false)
    ensures EngineOk(AbortIdx(idx, name), data, live - {name}, false)
  {
    hide Find, Align4k, Crc32, LiveOk, Holds, Without;
    WithoutOk(idx, name);
    DropLive(idx.ents, live, name);
    var t := AbortIdx(idx, name);
    forall i | 0 <= i < |t.ents| && t.ents[i].Active()
      ensures Holds(data, t.ents[i].offset, t.ents[i].body)
    {
      assert t.ents[i] in Without(idx.ents, name);
      var j :| 0 <= j < |idx.ents| && idx.ents[j] == t.ents[i];
    }
  }

  // --- write_at ---

  lemma WriteApart(idx: Img, data: seq<u8>, e: Ent, rel: nat, d: seq<u8>, o: Ent, body: seq<u8>)
    requires IdxOk(idx) && e in idx.ents && o in idx.ents && o != e && rel + |d| <= e.size && |body| <= o.size
    requires Holds(data, o.offset, body)
    ensures Holds(Pwrite(data, e.offset + rel, d), o.offset, body)
  {
    hide Holds, Pwrite, Align4k, Crc32;
    var i :| 0 <= i < |idx.ents| && idx.ents[i] == e;
    var j :| 0 <= j < |idx.ents| && idx.ents[j] == o;
    if i < j {
      assert EntApart(idx.ents[i], idx.ents[j]);
    } else {
      assert EntApart(idx.ents[j], idx.ents[i]);
    }
    Align4kLeast(e.size);
    Align4kLeast(o.size);
    PwriteFrame(data, e.offset + rel, d, o.offset, body);
  }

  /** A write into the span of a Downloading entry disturbs nothing else. */
  lemma WriteEngine(idx: Img, data: seq<u8>, live: set<Name>, e: Ent, rel: nat, d: seq<u8>)
    requires EngineOk(idx, data, live, false) && e in idx.ents && e.state == ST_DOWNLOADING && rel + |d| <= e.size
    ensures EngineOk(idx, Pwrite(data, e.offset + rel, d), live, false)
  {
    hide LiveOk, Holds, Pwrite, Align4k, Crc32;
    forall i | 0 <= i < |idx.ents| && idx.ents[i].Active()
      ensures Holds(Pwrite(data, e.offset + rel, d), idx.ents[i].offset, idx.ents[i].body)
    {
      WriteApart(idx, data, e, rel, d, idx.ents[i], idx.ents[i].body);
    }
    PwriteLength(data, e.offset + rel, d);
  }

  lemma PwriteLength(f: seq<u8>, off: nat, d: seq<u8>)
    ensures |Pwrite(f, off, d)| >= |f|
  {
  }

  /** The writer's own write: sequential writes carry the checksum on. */
  lemma WriterWrites(idx: Img, data: seq<u8>, e: Ent, body: seq<u8>, raw: u32, dirty: bool, rel: nat, d: seq<u8>)
    requires WriterOk(idx, data, e, body, raw, dirty) && rel <= |body| && rel + |d| <= e.size && d != []
    ensures var stale := dirty || rel < |body|;
      WriterOk(idx, Pwrite(data, e.offset + rel, d), e, Pwrite(body, rel, d), if stale then raw else Raw(raw, d), stale)
  {
    hide Holds, Raw;
    PwriteOverlay(data, e.offset, body, rel, d);
    if !dirty && rel == |body| {
      assert Pwrite(body, rel, d) == body + d;
      RawConcat(INIT, body, d);
    }
  }

  /** A write_at that is not refused, for the container and for the writer. */
  lemma WriteStep(idx: Img, data: seq<u8>, live: set<Name>, compacting: bool, e: Ent, body: seq<u8>, raw: u32,
      dirty: bool, rel: nat, d: seq<u8>)
    requires EngineOk(idx, data, live, compacting) && WriterOk(idx, data, e, body, raw, dirty) && e.name in live
    requires rel <= |body| && rel + |d| <= e.size
    ensures var stale := dirty || rel < |body|; var after := if d == [] then data else Pwrite(data, e.offset + rel, d);
      && EngineOk(idx, after, live, compacting)
      && WriterOk(idx, after, e, if d == [] then body else Pwrite(body, rel, d),
                  if stale || d == [] then raw else Raw(raw, d), stale)
  {
    hide Holds, Raw, Pwrite, IdxOk, ActivesHeld, LiveOk;
    if d != [] {
      WriterWrites(idx, data, e, body, raw, dirty, rel, d);
      WriteEngine(idx, data, live, e, rel, d);
    }
  }

  // --- other writers and other names do not disturb a writer ---

  lemma OthersWrite(idx: Img, data: seq<u8>, e: Ent, body: seq<u8>, raw: u32, dirty: bool, o: Ent, rel: nat, d: seq<u8>)
    requires IdxOk(idx) && WriterOk(idx, data, e, body, raw, dirty) && o in idx.ents && o.name != e.name
    requires rel + |d| <= o.size
    ensures WriterOk(idx, Pwrite(data, o.offset + rel, d), e, body, raw, dirty)
  {
    hide Holds, Pwrite, Raw, IdxOk;
    WriteApart(idx, data, o, rel, d, e, body);
  }

  lemma OthersAlloc(idx: Img, data: seq<u8>, e: Ent, body: seq<u8>, raw: u32, dirty: bool, name: Name, size: nat)
    requires IdxOk(idx) && WriterOk(idx, data, e, body, raw, dirty) && AllocIdx(idx, false, name, size).Ok?
    ensures var t := AllocIdx(idx, false, name, size).value; WriterOk(t, Grown(data, t.logical), e, body, raw, dirty)
  {
    hide Holds, Grown, Align4k, Find, Raw, Without;
    var t := AllocIdx(idx, false, name, size).value;
    var i := FindIn(idx.ents, e);
    WithoutOk(idx, name);
    GrownHolds(data, t.logical, e.offset, body);
  }

  lemma OthersRestate(idx: Img, data: seq<u8>, e: Ent, body: seq<u8>, raw: u32, dirty: bool, i: nat, n: Ent)
    requires WriterOk(idx, data, e, body, raw, dirty) && i < |idx.ents| && idx.ents[i] != e
    ensures WriterOk(idx.(gen := idx.gen + 1, ents := idx.ents[i := n]), data, e, body, raw, dirty)
  {
    var k :| 0 <= k < |idx.ents| && idx.ents[k] == e;
    assert idx.ents[i := n][k] == e;
  }

  lemma OthersAbort(idx: Img, data: seq<u8>, e: Ent, body: seq<u8>, raw: u32, dirty: bool, name: Name)
    requires IdxOk(idx) && WriterOk(idx, data, e, body, raw, dirty) && name != e.name
    ensures WriterOk(AbortIdx(idx, name), data, e, body, raw, dirty)
  {
    hide Holds, Find, Raw, Without;
    WithoutOk(idx, name);
  }
}
