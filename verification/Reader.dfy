/** VfsReader.RefreshIndex against a container that other threads keep
    changing: query, allocate, read, and again if the generation moved. */
module Reader {
  import opened Crc
  import opened Spans
  import opened Wrappers
  import opened Files
  import opened Format
  import opened Entries
  import opened Engine
  import opened IndexMap
  import opened Enumerate
  import opened VfsEngine
  import opened Glue
  import opened Store
  import opened Flushing
  import opened Compaction

  const MAX_ATTEMPTS: nat := 8

  lemma {:induction false} NameBytesSet(ents: seq<Ent>, i: nat, e: Ent)
    requires i < |ents|
    ensures NameBytes(ents[i := e]) == NameBytes(ents) - |ents[i].name| + |e.name|
  {
    var n := |ents| - 1;
    if i < n {
      NameBytesSet(ents[..n], i, e);
      assert ents[i := e][..n] == ents[..n][i := e];
    } else {
      assert ents[i := e][..n] == ents[..n];
    }
  }

  lemma NameBytesWithout(ents: seq<Ent>, name: Name)
    ensures NameBytes(Without(ents, name)) <= NameBytes(ents)
  {
    var f := Find(ents, name);
    if f.Some? {
      var n := |ents| - 1;
      NameBytesSet(ents, f.value, ents[n]);
    }
  }

  /** The names of an index fit the 32-bit sizes of enumerate. */
  ghost predicate Sized(ents: seq<Ent>) { NameBytes(ents) < TWO32 }

  lemma AllocSized(idx: Img, name: Name, size: nat)
    requires AllocIdx(idx, false, name, size).Ok? && NameBytes(idx.ents) + |name| + 1 < TWO32
    ensures Sized(AllocIdx(idx, false, name, size).value.ents)
  {
    hide Align4k, Find;
    NameBytesWithout(idx.ents, name);
    var t := AllocIdx(idx, false, name, size).value.ents;
    assert t[..|t| - 1] == Without(idx.ents, name);
  }

  /** Other threads allocate, commit, delete and abort, and compactions begin, go
      through rounds and end: whatever changes the index moves the generation. */
  method OthersMutate(v: Vfs)
    requires v.Valid() && Sized(v.View().ents)
    modifies v, v.idx
    ensures v.Valid() && Sized(v.View().ents) && (v.idx == old(v.idx) || fresh(v.idx))
    ensures v.View().gen >= old(v.View()).gen
    ensures v.View().gen == old(v.View()).gen ==> v.View() == old(v.View())
  {
    hide EngineOk, ViewOf, Finds, EntriesFit;
    var calls :| 0 <= calls;
    for i := 0 to calls
      invariant v.Valid() && Sized(v.View().ents) && (v.idx == old(v.idx) || fresh(v.idx))
      invariant v.View().gen >= old(v.View()).gen
      invariant v.View().gen == old(v.View()).gen ==> v.View() == old(v.View())
    {
      OneMutation(v);
    }
  }

  method OneMutation(v: Vfs)
    requires v.Valid() && Sized(v.View().ents)
    modifies v, v.idx
    ensures v.Valid() && Sized(v.View().ents) && (v.idx == old(v.idx) || fresh(v.idx))
    ensures v.View() == old(v.View()) || v.View().gen > old(v.View()).gen
  {
    hide EngineOk, ViewOf, Finds, EntriesFit, Align4k, Find, Crc32, NameBytes, Without;
    var name: Name := *;
    ghost var was := v.View();
    var f := v.idx.Position(name);
    if
    case true =>
      if f.Some? {
        NameBytesSet(was.ents, f.value, was.ents[f.value].(state := ST_DELETED));
      }
      var r := v.Delete(name);
    case true =>
      var size: nat :| 0 <= size;
      SomeAlloc(v, name, size);
    case true =>
      SomeCompaction(v);
    case f.Some? && v.idx.entries[f.value].state == ST_DOWNLOADING =>
      EntryIsLive(was, v.data, v.live, v.compacting, f.value);
      if * {
        var e := v.idx.entries[f.value];
        var span := v.data[e.offset..e.offset + e.size];
        NameBytesSet(was.ents, f.value, was.ents[f.value].(state := ST_ACTIVE, crc := Crc32(span), body := span));
        var r := v.Complete(name, Crc32(span), was.ents[f.value], span);
      } else {
        NameBytesWithout(was.ents, name);
        v.Discard(name);
      }
  }

  method SomeAlloc(v: Vfs, name: Name, size: nat)
    requires v.Valid() && Sized(v.View().ents)
    modifies v, v.idx
    ensures v.Valid() && Sized(v.View().ents) && (v.idx == old(v.idx) || fresh(v.idx))
    ensures v.View() == old(v.View()) || v.View().gen > old(v.View()).gen
  {
    hide EngineOk, ViewOf, Finds, EntriesFit, Align4k, Find, Crc32, NameBytes, Without;
    var len := v.idx.CompactBlobLen();
    NamesSize(v.idx.entries, v.idx.names, v.idx.bodies);
    if v.utf8(name) && HasRoom(v, size) && len + |name| + 1 < TWO32 {
      if AllocIdx(v.View(), v.compacting, name, size).Ok? {
        AllocSized(v.View(), name, size);
      }
      var r := v.Alloc(name, size);
    }
  }

  /** A compaction begins, makes a round, or ends. */
  method SomeCompaction(v: Vfs)
    requires v.Valid() && Sized(v.View().ents)
    modifies v, v.idx
    ensures v.Valid() && Sized(v.View().ents) && (v.idx == old(v.idx) || fresh(v.idx))
    ensures v.View() == old(v.View()) || v.View().gen > old(v.View()).gen
  {
    hide EngineOk, ViewOf, Finds, EntriesFit, NameBytes, NextOk, RoundMade, Clean;
    if !v.compacting {
      var r := v.BeginCompact();
    } else if * {
      EndCompact(v);
    } else if 2 * v.idx.logical < TWO64 {
      OwnedAfterBegin(v);
      ghost var was, wasData := v.View(), v.data;
      var reserve: nat :| 0 <= reserve;
      var entries, names, newLogical, settled;
      ghost var bodies;
      entries, names, newLogical, settled, bodies := MoveRound(v, reserve);
      Install(v, entries, names, newLogical, reserve, bodies, was, wasData);
      NextSized(was, wasData, v.View(), v.data);
    }
  }

  lemma NextSized(was: Img, wasData: seq<u8>, idx: Img, data: seq<u8>)
    requires NextOk(was, wasData, idx, data) && Sized(was.ents)
    ensures Sized(idx.ents) && idx.gen > was.gen
  {
    hide NameBytes, Settled, Compactable;
  }

  lemma EntryIsLive(idx: Img, data: seq<u8>, live: set<Name>, compacting: bool, k: nat)
    requires EngineOk(idx, data, live, compacting) && k < |idx.ents| && idx.ents[k].state == ST_DOWNLOADING
    ensures var o := idx.ents[k];
      && o.name in live && o.offset + o.size <= |data| && Holds(data, o.offset, data[o.offset..o.offset + o.size])
      && forall x :: x in idx.ents && x.name == o.name && x.state == ST_DOWNLOADING ==> x == o
  {
    hide Find, Align4k, Crc32;
    SpanInFile(idx, data, live, compacting, k);
    FindUnique(idx.ents, k);
    forall x | x in idx.ents && x.name == idx.ents[k].name && x.state == ST_DOWNLOADING
      ensures x == idx.ents[k]
    {
      var j := FindIn(idx.ents, x);
    }
  }

  /** What a reader holds of the index. */
  ghost predicate Mirrors(m: map<Name, Info>, ents: seq<Ent>) {
    m.Keys == AsMap(ents).Keys
    && forall n :: n in m ==> var e := AsMap(ents)[n]; m[n] == Info(e.offset, e.size, e.state, e.crc)
  }

  ghost predicate Printable(ents: seq<Ent>) {
    forall i :: 0 <= i < |ents| ==> NulFree(ents[i].name)
  }

  /** RefreshIndex. A read that is not refused fits the arrays that the query
      sized, and gives the index as it is at that moment; None stands for the
      exception of the parsing loop. */
  method RefreshIndex(v: Vfs) returns (r: Result<Option<map<Name, Info>>>, gen: nat, ghost attempts: nat)
    requires v.Valid() && Sized(v.View().ents)
    modifies v, v.idx
    ensures v.Valid()
    ensures r.Err? ==>
      (r.error == BusyCompacting && v.compacting)
      || (r.error == GenChanged && attempts == MAX_ATTEMPTS)
    ensures r.Ok? ==> gen == v.View().gen
    ensures r.Ok? && Printable(v.View().ents) ==> r.value.Some? && Mirrors(r.value.value, v.View().ents)
  {
    hide EngineOk, ViewOf, Finds, EntriesFit, NameBytes, Mirrors, Printable, Sized;
    gen, attempts := 0, 0;
    for attempt := 0 to MAX_ATTEMPTS
      invariant attempts == attempt
      invariant v.Valid() && Sized(v.View().ents) && (v.idx == old(v.idx) || fresh(v.idx))
    {
      OthersMutate(v);
      attempts := attempts + 1;
      r, gen := OneAttempt(v);
      if r != Err(GenChanged) {
        return;
      }
    }
    r := Err(GenChanged);
  }

  method OneAttempt(v: Vfs) returns (r: Result<Option<map<Name, Info>>>, gen: nat)
    requires v.Valid() && Sized(v.View().ents)
    modifies v, v.idx
    ensures v.Valid() && Sized(v.View().ents) && (v.idx == old(v.idx) || fresh(v.idx))
    ensures r.Err? ==> (r.error == BusyCompacting && v.compacting) || (r.error == GenChanged && gen != v.View().gen)
    ensures r.Ok? ==> gen == v.View().gen
    ensures r.Ok? && Printable(v.View().ents) ==> r.value.Some? && Mirrors(r.value.value, v.View().ents)
  {
    hide EngineOk, ViewOf, Finds, EntriesFit, NameBytes, Mirrors, Printable, Sized;
    gen := 0;
    var q := v.EnumerateQuery();
    if q.Err? {
      return Err(q.error), gen;
    }
    var (g, count, len) := q.value;
    gen := g;
    NamesSize(v.idx.entries, v.idx.names, v.idx.bodies);
    OthersMutate(v);
    NamesSize(v.idx.entries, v.idx.names, v.idx.bodies);
    SizedMod(v.View().ents);
    r := ReadAll(v, gen, count, len);
  }

  lemma SizedMod(ents: seq<Ent>)
    ensures Sized(ents) ==> NameBytes(ents) % TWO32 == NameBytes(ents) && NameBytes(ents) < TWO32
  {
  }

  /** The arrays, the read and the parsing loop. */
  method ReadAll(v: Vfs, gen: nat, count: nat, len: nat) returns (r: Result<Option<map<Name, Info>>>)
    requires v.Valid() && StringsLen(v.idx.entries) < TWO32
    requires gen == v.View().gen ==> count == |v.View().ents| && len == StringsLen(v.idx.entries)
    ensures r.Err? ==> (r.error == BusyCompacting && v.compacting) || (r.error == GenChanged && gen != v.View().gen)
    ensures r.Ok? ==> gen == v.View().gen
    ensures r.Ok? && Printable(v.View().ents) ==> r.value.Some? && Mirrors(r.value.value, v.View().ents)
  {
    hide EngineOk, Finds, EntriesFit, CompactBlob, SplitNames, Rows, Dict, AsMap, NulFree;
    var names, offs, sizes := new u8[len](_ => 0), new nat[count](_ => 0), new nat[count](_ => 0);
    var crcs, states := new u32[count](_ => 0), new nat[count](_ => 0);
    var read := v.EnumerateRead(gen, names, offs, sizes, crcs, states);
    if read.Err? {
      return Err(read.error);
    }
    assert names[..] == CompactBlob(v.idx.entries, v.idx.names);
    var m := Refresh(names[..], offs[..], sizes[..], crcs[..], states[..]);
    if Printable(v.View().ents) {
      ViewNul(v.idx.entries, v.idx.names, v.idx.bodies);
      RefreshRebuilds(v.idx.entries, v.idx.names, v.idx.bodies, offs[..], sizes[..], crcs[..], states[..]);
    }
    r := Ok(m);
  }

  lemma ViewNul(entries: seq<Entry>, blob: seq<u8>, bodies: seq<seq<u8>>)
    requires NamesIn(entries, blob) && |bodies| == |entries| && Printable(ViewOf(entries, blob, bodies))
    ensures forall i :: 0 <= i < |entries| ==> NulFree(NameAt(blob, entries[i]))
  {
    hide NulFree;
    forall i | 0 <= i < |entries|
      ensures NulFree(NameAt(blob, entries[i]))
    {
      assert ViewOf(entries, blob, bodies)[i].name == NameAt(blob, entries[i]);
    }
  }
}
