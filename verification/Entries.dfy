/** The index of a VFS as a value, and what the index operations of vfs/mod.rs
    do to it. */
module Entries {
  import opened Crc
  import opened Spans
  import opened Wrappers
  import opened Format
  import P = Planner

  type Name = seq<u8>

  const MAX_NAME: nat := 0xFFFF

  datatype VfsError =
    | Io | NotFound | AlreadyExists | BusyCompacting | BusyWriters
    | WriteOverflow | GenChanged | BufferTooSmall | InvalidArg | StateInvalid

  datatype Result<+T> = Ok(value: T) | Err(error: VfsError)

  /** One index entry under its name. body is the history of the entry: the
      bytes that its writer had written when it committed. The program does not
      store it; the theorems compare file contents with it. */
  datatype Ent = Ent(name: Name, state: nat, offset: nat, size: nat, crc: u32, body: seq<u8>) {
    function Span(): nat { Align4k(size) }
    predicate Active() { state == ST_ACTIVE }
  }

  /** An index, in memory or as one header region stores it. */
  datatype Img = Img(gen: nat, logical: nat, ents: seq<Ent>)

  // --- look-up and the two list changes of index.rs ---

  function Find(ents: seq<Ent>, name: Name): (r: Option<nat>)
    ensures r.Some? ==> r.value < |ents| && ents[r.value].name == name
    ensures r.None? ==> forall i :: 0 <= i < |ents| ==> ents[i].name != name
  {
    if ents == [] then None
    else if ents[|ents| - 1].name == name then Some(|ents| - 1)
    else Find(ents[..|ents| - 1], name)
  }

  /** Vec::swap_remove. */
  function SwapRemove<T>(s: seq<T>, i: nat): (r: seq<T>)
    requires i < |s|
    ensures |r| == |s| - 1
    ensures forall k :: 0 <= k < |r| ==> r[k] == if k == i then s[|s| - 1] else s[k]
  {
    s[i := s[|s| - 1]][..|s| - 1]
  }

  function Without(ents: seq<Ent>, name: Name): seq<Ent> {
    match Find(ents, name)
    case None => ents
    case Some(i) => SwapRemove(ents, i)
  }

  // --- the operations ---

  function AllocIdx(idx: Img, compacting: bool, name: Name, size: nat): Result<Img> {
    if name == [] || |name| > MAX_NAME then Err(InvalidArg)
    else if compacting then Err(BusyCompacting)
    else
      var prior := Find(idx.ents, name);
      if prior.Some? && idx.ents[prior.value].state != ST_DELETED then Err(AlreadyExists)
      else
        var offset := Align4k(idx.logical);
        Ok(Img(idx.gen + 1, offset + Align4k(size),
               Without(idx.ents, name) + [Ent(name, ST_DOWNLOADING, offset, size, 0, [])]))
  }

  function DeleteIdx(idx: Img, compacting: bool, name: Name): Result<Img> {
    if compacting then Err(BusyCompacting)
    else
      match Find(idx.ents, name)
      case None => Err(NotFound)
      case Some(i) =>
        if idx.ents[i].state == ST_ACTIVE then
          Ok(idx.(gen := idx.gen + 1, ents := idx.ents[i := idx.ents[i].(state := ST_DELETED)]))
        else if idx.ents[i].state == ST_DELETED then Ok(idx)
        else Err(StateInvalid)
  }

  /** The locked part of a commit whose bytes are all written. */
  function CommitIdx(idx: Img, compacting: bool, name: Name, crc: u32, body: seq<u8>): Result<Img> {
    if compacting then Err(BusyCompacting)
    else
      match Find(idx.ents, name)
      case None => Err(StateInvalid)
      case Some(i) =>
        if idx.ents[i].state != ST_DOWNLOADING then Err(StateInvalid)
        else
          Ok(idx.(gen := idx.gen + 1,
                  ents := idx.ents[i := idx.ents[i].(state := ST_ACTIVE, crc := crc, body := body)]))
  }

  function AbortIdx(idx: Img, name: Name): Img {
    idx.(gen := idx.gen + 1, ents := Without(idx.ents, name))
  }

  // --- well-formed indexes ---

  ghost predicate UniqueNames(ents: seq<Ent>) {
    forall i, j :: 0 <= i < j < |ents| ==> ents[i].name != ents[j].name
  }

  ghost predicate EntApart(a: Ent, b: Ent) {
    Apart(a.offset, a.Span(), b.offset, b.Span())
  }

  /** Span accounting: aligned, disjoint, inside the logical size. */
  ghost predicate SpansInside(ents: seq<Ent>, logical: nat) {
    && (forall i :: 0 <= i < |ents| ==> Aligned(ents[i].offset) && ents[i].offset + ents[i].Span() <= logical)
    && (forall i, j :: 0 <= i < j < |ents| ==> EntApart(ents[i], ents[j]))
  }

  /** The record and its history agree. */
  ghost predicate Committed(e: Ent) {
    e.Active() ==> |e.body| == e.size && e.crc == Crc32(e.body)
  }

  ghost predicate IdxOk(idx: Img) {
    && UniqueNames(idx.ents)
    && Aligned(idx.logical)
    && SpansInside(idx.ents, idx.logical)
    && (forall i :: 0 <= i < |idx.ents| ==> Committed(idx.ents[i]))
  }

  lemma FindUnique(ents: seq<Ent>, i: nat)
    requires i < |ents| && UniqueNames(ents)
    ensures Find(ents, ents[i].name) == Some(i)
  {
    var r := Find(ents, ents[i].name);
    assert r.Some? && ents[r.value].name == ents[i].name;
  }

  lemma FindIn(ents: seq<Ent>, e: Ent) returns (i: nat)
    requires UniqueNames(ents) && e in ents
    ensures i < |ents| && ents[i] == e && Find(ents, e.name) == Some(i)
  {
    i :| 0 <= i < |ents| && ents[i] == e;
    FindUnique(ents, i);
  }

  lemma WithoutOk(idx: Img, name: Name)
    requires IdxOk(idx)
    ensures IdxOk(idx.(ents := Without(idx.ents, name)))
    ensures Find(Without(idx.ents, name), name).None?
    ensures forall e :: e in Without(idx.ents, name) ==> e in idx.ents
    ensures forall e :: e in idx.ents && e.name != name ==> e in Without(idx.ents, name)
  {
    var r := Without(idx.ents, name);
    var f := Find(idx.ents, name);
    if f.Some? {
      var n := |idx.ents| - 1;
      forall e | e in idx.ents && e.name != name
        ensures e in r
      {
        var k :| 0 <= k < |idx.ents| && idx.ents[k] == e;
        assert k != f.value;
        assert r[if k == n then f.value else k] == e;
      }
    }
  }

  lemma AppendOk(idx: Img, e: Ent)
    requires IdxOk(idx) && Aligned(e.offset) && idx.logical <= e.offset && !e.Active()
    requires forall i :: 0 <= i < |idx.ents| ==> idx.ents[i].name != e.name
    ensures IdxOk(Img(idx.gen + 1, e.offset + e.Span(), idx.ents + [e]))
  {
    hide Align4k;
    Align4kLeast(e.size);
  }

  lemma AllocOk(idx: Img, name: Name, size: nat)
    requires IdxOk(idx) && AllocIdx(idx, false, name, size).Ok?
    ensures IdxOk(AllocIdx(idx, false, name, size).value)
  {
    WithoutOk(idx, name);
    Align4kLeast(idx.logical);
    AppendOk(idx.(ents := Without(idx.ents, name)), Ent(name, ST_DOWNLOADING, Align4k(idx.logical), size, 0, []));
  }

  /** Changing only the state of an entry away from Active, or completing it,
      keeps an index well formed. */
  lemma RestateOk(idx: Img, i: nat, e: Ent)
    requires IdxOk(idx) && i < |idx.ents| && Committed(e)
    requires e.name == idx.ents[i].name && e.offset == idx.ents[i].offset && e.size == idx.ents[i].size
    ensures IdxOk(idx.(ents := idx.ents[i := e]))
  {
    var r := idx.ents[i := e];
    forall j, k | 0 <= j < k < |r|
      ensures r[j].name != r[k].name && EntApart(r[j], r[k])
    {
      assert EntApart(idx.ents[j], idx.ents[k]);
    }
  }

  // --- what the operations answer, told on the entries ---

  /** e is the one entry of its name, all others are as they were. */
  ghost predicate Replaced(was: seq<Ent>, now: seq<Ent>, e: Ent) {
    UniqueNames(now) && e in now && forall x: Ent :: x.name != e.name ==> (x in was <==> x in now)
  }

  /** The name is gone, all other entries are as they were. */
  ghost predicate Removed(was: seq<Ent>, now: seq<Ent>, name: Name) {
    && UniqueNames(now) && (forall x :: x in now ==> x.name != name)
    && forall x: Ent :: x.name != name ==> (x in was <==> x in now)
  }

  /** Every entry of that name is in one of these states. */
  ghost predicate AllIn(ents: seq<Ent>, name: Name, states: set<nat>) {
    forall e :: e in ents && e.name == name ==> e.state in states
  }

  ghost predicate Absent(ents: seq<Ent>, name: Name) {
    forall e :: e in ents ==> e.name != name
  }

  lemma WithoutIs(ents: seq<Ent>, name: Name)
    requires UniqueNames(ents)
    ensures Removed(ents, Without(ents, name), name)
  {
    var r, f := Without(ents, name), Find(ents, name);
    if f.Some? {
      var n := |ents| - 1;
      forall x: Ent | x.name != name
        ensures x in ents <==> x in r
      {
        if x in ents {
          var k :| 0 <= k < |ents| && ents[k] == x;
          assert r[if k == n then f.value else k] == x;
        }
      }
    } else {
      assert forall x :: x in ents ==> x.name != name;
    }
  }

  lemma SetIs(ents: seq<Ent>, i: nat, e: Ent)
    requires UniqueNames(ents) && i < |ents| && e.name == ents[i].name
    ensures Replaced(ents, ents[i := e], e)
  {
    var r := ents[i := e];
    assert r[i] == e;
    forall x: Ent | x.name != e.name
      ensures x in ents <==> x in r
    {
      if x in ents {
        var k :| 0 <= k < |ents| && ents[k] == x;
        assert r[k] == x;
      }
    }
  }

  /** What alloc answers, and the index it leaves. */
  ghost predicate AllocAnswer(was: Img, compacting: bool, name: Name, size: nat, now: Result<Img>) {
    && (now.Ok? <==> 1 <= |name| <= 65535 && !compacting && AllIn(was.ents, name, {ST_DELETED}))
    && (now.Err? ==>
          now.error == (if |name| < 1 || |name| > 65535 then InvalidArg
                        else if compacting then BusyCompacting else AlreadyExists))
    && (now.Ok? ==>
          && Replaced(was.ents, now.value.ents, Ent(name, ST_DOWNLOADING, Align4k(was.logical), size, 0, []))
          && now.value.logical == Align4k(was.logical) + Align4k(size) && now.value.gen == was.gen + 1)
  }

  lemma AllocIs(was: Img, compacting: bool, name: Name, size: nat)
    requires UniqueNames(was.ents)
    ensures AllocAnswer(was, compacting, name, size, AllocIdx(was, compacting, name, size))
  {
    hide Align4k, Find, Without;
    var f := Find(was.ents, name);
    if f.Some? {
      OneOfName(was.ents, f.value);
    } else {
      NoneOfName(was.ents, name);
    }
    WithoutIs(was.ents, name);
    var w, e := Without(was.ents, name), Ent(name, ST_DOWNLOADING, Align4k(was.logical), size, 0, []);
    assert (w + [e])[|w|] == e;
  }

  lemma OneOfName(ents: seq<Ent>, i: nat)
    requires UniqueNames(ents) && i < |ents|
    ensures forall e :: e in ents && e.name == ents[i].name ==> e == ents[i]
    ensures ents[i] in ents
  {
  }

  lemma NoneOfName(ents: seq<Ent>, name: Name)
    requires Find(ents, name).None?
    ensures Absent(ents, name)
  {
  }

  /** What delete answers. */
  ghost predicate DeleteAnswer(was: Img, compacting: bool, name: Name, now: Result<Img>) {
    && (now.Ok? <==> !compacting && !Absent(was.ents, name) && AllIn(was.ents, name, {ST_ACTIVE, ST_DELETED}))
    && (now.Err? ==>
          now.error == if compacting then BusyCompacting else if Absent(was.ents, name) then NotFound else StateInvalid)
    && (now.Ok? && AllIn(was.ents, name, {ST_DELETED}) ==> now.value == was)
    && (now.Ok? ==> forall e :: e in was.ents && e.name == name && e.state == ST_ACTIVE ==>
          && Replaced(was.ents, now.value.ents, e.(state := ST_DELETED))
          && now.value.logical == was.logical && now.value.gen == was.gen + 1)
  }

  lemma DeleteIs(was: Img, compacting: bool, name: Name)
    requires UniqueNames(was.ents)
    ensures DeleteAnswer(was, compacting, name, DeleteIdx(was, compacting, name))
  {
    hide Find;
    var f := Find(was.ents, name);
    if f.Some? {
      OneOfName(was.ents, f.value);
      SetIs(was.ents, f.value, was.ents[f.value].(state := ST_DELETED));
    } else {
      NoneOfName(was.ents, name);
    }
  }

  /** What the locked part of a commit answers. */
  ghost predicate CommitAnswer(was: Img, compacting: bool, name: Name, crc: u32, body: seq<u8>, now: Result<Img>) {
    && (now.Ok? <==> !compacting && !Absent(was.ents, name) && AllIn(was.ents, name, {ST_DOWNLOADING}))
    && (now.Err? ==> now.error == if compacting then BusyCompacting else StateInvalid)
    && (now.Ok? ==> forall e :: e in was.ents && e.name == name ==>
          && Replaced(was.ents, now.value.ents, Ent(name, ST_ACTIVE, e.offset, e.size, crc, body))
          && now.value.logical == was.logical && now.value.gen == was.gen + 1)
  }

  lemma CommitIs(was: Img, compacting: bool, name: Name, crc: u32, body: seq<u8>)
    requires UniqueNames(was.ents)
    ensures CommitAnswer(was, compacting, name, crc, body, CommitIdx(was, compacting, name, crc, body))
  {
    hide Find;
    var f := Find(was.ents, name);
    if f.Some? {
      OneOfName(was.ents, f.value);
      SetIs(was.ents, f.value, was.ents[f.value].(state := ST_ACTIVE, crc := crc, body := body));
    } else {
      NoneOfName(was.ents, name);
    }
  }

  /** What an abort leaves. */
  ghost predicate AbortAnswer(was: Img, name: Name, now: Img) {
    Removed(was.ents, now.ents, name) && now.logical == was.logical && now.gen == was.gen + 1
  }

  lemma AbortIs(was: Img, name: Name)
    requires UniqueNames(was.ents)
    ensures AbortAnswer(was, name, AbortIdx(was, name))
  {
    WithoutIs(was.ents, name);
  }
}
