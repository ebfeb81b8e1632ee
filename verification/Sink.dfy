/** sink.rs: the sink that writes an ordinary file, and the registry of sinks. */
module Sink {
  import opened Crc
  import opened Wrappers
  import opened Files

  /** Every operation may be refused by the file system. */
  class FileSink {
    var file: seq<u8>

    /** Opening truncates. */
    constructor ()
      ensures file == []
    {
      file := [];
    }

    method Prepare(size: nat) returns (code: int)
      modifies this
      ensures code == 0 || code == -1
      ensures file == if code == 0 then SetLen(old(file), size) else old(file)
    {
      code := MayFail();
      if code == 0 {
        file := SetLen(file, size);
      }
    }

    method Write(relOff: nat, data: seq<u8>) returns (code: int)
      modifies this
      ensures code == 0 || code == -1
      ensures file == if code == 0 then Pwrite(old(file), relOff, data) else old(file)
    {
      code := MayFail();
      if code == 0 {
        file := Pwrite(file, relOff, data);
      }
    }

    method Reset() returns (code: int)
      modifies this
      ensures code == 0 || code == -1
      ensures file == if code == 0 then [] else old(file)
    {
      code := MayFail();
      if code == 0 {
        file := SetLen(file, 0);
      }
    }

    method Finish() returns (code: int)
      ensures code == 0 || code == -1
    {
      code := MayFail();
    }

    /** abort reports success in any case. */
    method Abort() returns (code: int)
      modifies this
      ensures code == 0 && (file == [] || file == old(file))
    {
      var cut := MayFail();
      if cut == 0 {
        file := SetLen(file, 0);
      }
      code := 0;
    }
  }

  method MayFail() returns (code: int)
    ensures code == 0 || code == -1
  {
    var refused: bool := *;
    code := if refused then -1 else 0;
  }

  /** What a worker does with a sink between prepare and finish: the next block
      at the current offset, or back to 0 for another try. */
  datatype Feed = Next(block: seq<u8>) | Again

  /** The bytes received since the last try began. */
  function Received(feeds: seq<Feed>): seq<u8> {
    if feeds == [] then []
    else
      match feeds[|feeds| - 1]
      case Next(block) => Received(feeds[..|feeds| - 1]) + block
      case Again => []
  }

  /** No try receives more than size bytes. */
  ghost predicate Within(feeds: seq<Feed>, size: nat) {
    forall n :: 0 <= n <= |feeds| ==> |Received(feeds[..n])| <= size
  }

  /** A file sink fed in any way, with tries that start over whether or not the
      reset worked: if every block was taken, the file starts with what the last
      try received and is never longer than the task; once the last try is
      complete, the file is exactly what it received. */
  method FeedFile(s: FileSink, size: nat, feeds: seq<Feed>) returns (ok: bool, crc: u32)
    requires s.file == [] && Within(feeds, size)
    modifies s
    ensures ok ==> Received(feeds) <= s.file && |s.file| <= size && crc == Crc32(Received(feeds))
    ensures ok && |Received(feeds)| == size ==> s.file == Received(feeds)
  {
    hide Raw, Pwrite;
    crc := 0;
    var code := s.Prepare(size);
    if code != 0 {
      return false, crc;
    }
    var off := 0;
    UpdateConcat(0, [], []);
    EmptyCrc();
    for i := 0 to |feeds|
      invariant off == |Received(feeds[..i])| <= |s.file| <= size
      invariant s.file[..off] == Received(feeds[..i]) && crc == Crc32(Received(feeds[..i]))
    {
      assert feeds[..i + 1][..i] == feeds[..i];
      assert |Received(feeds[..i + 1])| <= size;
      match feeds[i]
      case Next(block) =>
        FrontGrows(s.file, off, block);
        UpdateConcat(0, Received(feeds[..i]), block);
        UpdateConcat(0, Received(feeds[..i]) + block, []);
        code := s.Write(off, block);
        if code != 0 {
          return false, crc;
        }
        crc := Update(crc, block);
        off := off + |block|;
      case Again =>
        code := s.Reset();
        off, crc := 0, 0;
    }
    assert feeds[..|feeds|] == feeds;
    ok := true;
  }

  lemma EmptyCrc()
    ensures Crc32([]) == 0
  {
    NotNot(0);
  }

  lemma FrontGrows(f: seq<u8>, off: nat, block: seq<u8>)
    requires off <= |f|
    ensures var g := Pwrite(f, off, block);
      off + |block| <= |g| && g[..off + |block|] == f[..off] + block
  {
    var g := Pwrite(f, off, block);
    assert g[..off + |block|] == f[..off] + block;
  }

  // --- the registry ---

  /** A registered sink; dtor says whether it is to be destroyed on release. */
  datatype SinkEntry = SinkEntry(sink: FileSink, dtor: bool)

  class Registry {
    var entries: map<nat, SinkEntry>
    var last: nat
    /** The handles whose destructor has run, in order. */
    ghost var destroyed: seq<nat>

    /** A destructor runs for a handle once, and not while it is registered. */
    ghost predicate Valid()
      reads this
    {
      && (forall h :: h in entries ==> 1 <= h <= last)
      && (forall i :: 0 <= i < |destroyed| ==> 1 <= destroyed[i] <= last && destroyed[i] !in entries)
      && (forall i, j :: 0 <= i < j < |destroyed| ==> destroyed[i] != destroyed[j])
    }

    constructor ()
      ensures Valid() && entries == map[] && last == 0 && destroyed == []
    {
      entries, last, destroyed := map[], 0, [];
    }

    /** A handle is never 0 and never used twice. */
    method Register(s: FileSink, dtor: bool) returns (h: nat)
      requires Valid()
      modifies this
      ensures Valid() && h > old(last) && last == h && h !in old(entries) && destroyed == old(destroyed)
      ensures entries == old(entries)[h := SinkEntry(s, dtor)]
    {
      last := last + 1;
      h := last;
      entries := entries[h := SinkEntry(s, dtor)];
    }

    /** Takes the entry out and runs its destructor. Releasing twice, or
        releasing 0, does nothing. */
    method Release(h: nat)
      requires Valid()
      modifies this`entries, this`destroyed
      ensures Valid() && entries == old(entries) - {h}
      ensures destroyed == old(destroyed) + (if h in old(entries) && old(entries)[h].dtor then [h] else [])
    {
      if h == 0 {
        return;
      }
      if h in entries {
        var e := entries[h];
        entries := entries - {h};
        if e.dtor {
          destroyed := destroyed + [h];
        }
      }
    }

    function Lookup(h: nat): Option<FileSink>
      reads this
    {
      if h in entries then Some(entries[h].sink) else None
    }
  }

  /** Any calls of register and release; release is called with handles that
      callers got, with 0, or with anything else. */
  datatype Op = Add(dtor: bool) | Drop(h: nat)

  /** Over any run no handle is given out twice, and each destructor runs at
      most once. */
  method AnyOps(r: Registry, s: FileSink, ops: seq<Op>) returns (handles: seq<nat>)
    requires r.Valid()
    modifies r
    ensures r.Valid() && r.last >= old(r.last)
    ensures forall i :: 0 <= i < |handles| ==> handles[i] > old(r.last)
    ensures forall i, j :: 0 <= i < j < |handles| ==> handles[i] != handles[j]
    ensures forall i, j :: 0 <= i < j < |r.destroyed| ==> r.destroyed[i] != r.destroyed[j]
  {
    handles := [];
    for i := 0 to |ops|
      invariant r.Valid() && r.last >= old(r.last)
      invariant forall k :: 0 <= k < |handles| ==> old(r.last) < handles[k] <= r.last
      invariant forall k, l :: 0 <= k < l < |handles| ==> handles[k] != handles[l]
    {
      match ops[i]
      case Add(dtor) =>
        var h := r.Register(s, dtor);
        handles := handles + [h];
      case Drop(h) =>
        r.Release(h);
    }
  }
}
