/** The index in memory, index.rs: a list of entries, a blob of names that only
    grows, and a look-up table from names to positions. */
module IndexMap {
  import opened Crc
  import opened Wrappers
  import opened Files
  import opened Format
  import opened Entries

  /** One entry with its name taken from the blob. */
  function EntOf(e: Entry, name: Name, body: seq<u8>): Ent {
    Ent(name, e.state, e.offset, e.size, e.crc, body)
  }

  ghost predicate NamesOk(entries: seq<Entry>, blob: seq<u8>, utf8: seq<u8> -> bool) {
    NamesIn(entries, blob) && forall i :: 0 <= i < |entries| ==> utf8(NameAt(blob, entries[i]))
  }

  function ViewOf(entries: seq<Entry>, blob: seq<u8>, bodies: seq<seq<u8>>): (r: seq<Ent>)
    requires NamesIn(entries, blob) && |bodies| == |entries|
    ensures |r| == |entries|
    ensures forall i :: 0 <= i < |r| ==> r[i] == EntOf(entries[i], NameAt(blob, entries[i]), bodies[i])
  {
    seq(|entries|, i requires 0 <= i < |entries| => EntOf(entries[i], NameAt(blob, entries[i]), bodies[i]))
  }

  /** The table finds every name at its position, and nothing else. */
  ghost predicate Finds(m: map<Name, nat>, ents: seq<Ent>) {
    && (forall i :: 0 <= i < |ents| ==> ents[i].name in m && m[ents[i].name] == i)
    && (forall n :: n in m ==> m[n] < |ents| && ents[m[n]].name == n)
  }

  lemma FindsIsFind(m: map<Name, nat>, ents: seq<Ent>, name: Name)
    requires Finds(m, ents)
    ensures UniqueNames(ents)
    ensures Find(ents, name) == if name in m then Some(m[name]) else None
  {
    var f := Find(ents, name);
    if f.Some? {
      assert ents[f.value].name == name;
    }
    if name in m {
      assert ents[m[name]].name == name;
    }
  }

  /** Appending a new name. */
  lemma FindsAppend(m: map<Name, nat>, ents: seq<Ent>, e: Ent)
    requires Finds(m, ents) && e.name !in m
    ensures Finds(m[e.name := |ents|], ents + [e])
  {
  }

  /** swap_remove, with the position of the entry that took the place. */
  lemma FindsSwapRemove(m: map<Name, nat>, ents: seq<Ent>, name: Name)
    requires Finds(m, ents) && name in m
    ensures var i, rest := m[name], SwapRemove(ents, m[name]);
      Finds(if i == |ents| - 1 then m - {name} else (m - {name})[rest[i].name := i], rest)
  {
    var i, last := m[name], |ents| - 1;
    var rest := SwapRemove(ents, i);
    var m2 := if i == last then m - {name} else (m - {name})[rest[i].name := i];
    forall k | 0 <= k < |rest|
      ensures rest[k].name in m2 && m2[rest[k].name] == k
    {
      var j := if k == i then last else k;
      assert rest[k] == ents[j] && m[ents[j].name] == j;
    }
  }

  class Index {
    const utf8: seq<u8> -> bool
    var entries: seq<Entry>
    var names: seq<u8>
    var table: map<Name, nat>
    var generation: nat
    var logical: nat
    ghost var bodies: seq<seq<u8>>

    ghost predicate Valid()
      reads this
    {
      && |bodies| == |entries| && NamesOk(entries, names, utf8) && EntriesFit(entries)
      && Finds(table, ViewOf(entries, names, bodies))
    }

    /** The index as a value. */
    ghost function View(): Img
      requires Valid()
      reads this
    {
      Img(generation, logical, ViewOf(entries, names, bodies))
    }

    /** Index::new; of two entries with one name the table keeps the later. */
    constructor (utf8: seq<u8> -> bool, generation: nat, logical: nat, entries: seq<Entry>, names: seq<u8>,
        ghost bodies: seq<seq<u8>>)
      requires |bodies| == |entries|
      ensures this.utf8 == utf8 && this.generation == generation && this.logical == logical
      ensures this.entries == entries && this.names == names && this.bodies == bodies
      ensures NamesOk(entries, names, utf8) && EntriesFit(entries) && UniqueNames(ViewOf(entries, names, bodies)) ==>
        Valid()
    {
      this.utf8, this.generation, this.logical, this.entries, this.names := utf8, generation, logical, entries, names;
      this.table, this.bodies := map[], bodies;
      new;
      RebuildMap();
    }

    method RebuildMap()
      requires |bodies| == |entries|
      modifies this`table
      ensures NamesOk(entries, names, utf8) && EntriesFit(entries) && UniqueNames(ViewOf(entries, names, bodies)) ==>
        Valid()
    {
      table := map[];
      ghost var ok := NamesOk(entries, names, utf8) && UniqueNames(ViewOf(entries, names, bodies));
      for i := 0 to |entries|
        invariant ok ==> forall k :: 0 <= k < i ==> var n := NameAt(names, entries[k]); n in table && table[n] == k
        invariant ok ==> forall n :: n in table ==> table[n] < i && NameAt(names, entries[table[n]]) == n
      {
        var n := NameOf(entries[i]);
        if n.Some? {
          table := table[n.value := i];
        }
        if ok {
          assert n == Some(NameAt(names, entries[i]));
          forall k | 0 <= k < i
            ensures NameAt(names, entries[k]) != NameAt(names, entries[i])
          {
            assert ViewOf(entries, names, bodies)[k].name != ViewOf(entries, names, bodies)[i].name;
          }
        }
      }
    }

    function NameOf(e: Entry): Option<Name>
      reads this
    {
      if e.nameOff + e.nameLen <= |names| && utf8(NameAt(names, e)) then Some(NameAt(names, e)) else None
    }

    /** A sum in u32. */
    method CompactBlobLen() returns (n: nat)
      ensures n == StringsLen(entries) % TWO32
    {
      n := 0;
      for i := 0 to |entries|
        invariant n == StringsLen(entries[..i]) % TWO32
      {
        assert entries[..i + 1][..i] == entries[..i];
        n := (n + entries[i].nameLen + 1) % TWO32;
      }
      assert entries[..|entries|] == entries;
    }

    /** The position of a name. */
    function Position(name: Name): (r: Option<nat>)
      reads this
      ensures Valid() ==> r == Find(View().ents, name)
    {
      assert Valid() ==> Find(View().ents, name) == (if name in table then Some(table[name]) else None) by {
        if Valid() {
          FindsIsFind(table, View().ents, name);
        }
      }
      if name in table then Some(table[name]) else None
    }

    /** Registers a new name at the end; the offset in the blob is 32 bits. */
    method Insert(name: Name, e: Entry, ghost body: seq<u8>)
      requires Valid() && Position(name).None? && utf8(name) && |name| <= MAX_NAME && Fits(e) && |names| < TWO32
      modifies this`entries, this`names, this`table, this`bodies
      ensures Valid() && View() == old(View()).(ents := old(View()).ents + [EntOf(e, name, body)])
    {
      hide Finds, ViewOf;
      var at := e.(nameOff := |names| % TWO32, nameLen := |name| % TWO16);
      ViewAppend(entries, names, bodies, at, name, body, utf8);
      FindsAppend(table, ViewOf(entries, names, bodies), EntOf(e, name, body));
      names := names + name + [0];
      table := table[name := |entries|];
      entries, bodies := entries + [at], bodies + [body];
    }

    /** swap_remove; the moved entry's place in the table follows. */
    method Remove(name: Name) returns (found: bool)
      requires Valid()
      modifies this`entries, this`table, this`bodies
      ensures Valid() && View() == old(View()).(ents := Without(old(View()).ents, name))
      ensures found == Find(old(View()).ents, name).Some?
    {
      hide Finds, ViewOf, Find, NamesIn, EntriesFit;
      ghost var was := ViewOf(entries, names, bodies);
      FindsIsFind(table, was, name);
      if name !in table {
        return false;
      }
      var i := table[name];
      RemoveOk(entries, names, bodies, table, name, utf8);
      table := table - {name};
      var last := |entries| - 1;
      entries, bodies := SwapRemove(entries, i), SwapRemove(bodies, i);
      if i != last {
        var n := NameOf(entries[i]);
        if n.Some? {
          table := table[n.value := i];
        }
      }
      found := true;
    }

    /** Changes through find_mut. */
    method Restate(i: nat, state: nat, crc: u32, ghost body: seq<u8>)
      requires Valid() && i < |entries| && state <= ST_BAD
      modifies this`entries, this`bodies
      ensures Valid()
      ensures View() == old(View()).(ents := old(View()).ents[i := old(View()).ents[i].(state := state, crc := crc,
        body := body)])
    {
      hide Finds, ViewOf, NamesOk, EntriesFit;
      RestateIndex(entries, names, bodies, table, i, state, crc, body, utf8);
      entries := entries[i := entries[i].(state := state, crc := crc)];
      bodies := bodies[i := body];
    }
  }

  lemma RestateIndex(entries: seq<Entry>, blob: seq<u8>, bodies: seq<seq<u8>>, table: map<Name, nat>, i: nat,
                  state: nat, crc: u32, body: seq<u8>, utf8: seq<u8> -> bool)
    requires NamesOk(entries, blob, utf8) && |bodies| == |entries| && EntriesFit(entries)
    requires Finds(table, ViewOf(entries, blob, bodies))
    requires i < |entries| && state <= ST_BAD
    ensures var es, bs, v := entries[i := entries[i].(state := state, crc := crc)], bodies[i := body],
      ViewOf(entries, blob, bodies);
      && NamesOk(es, blob, utf8) && EntriesFit(es) && Finds(table, ViewOf(es, blob, bs))
      && ViewOf(es, blob, bs) == v[i := v[i].(state := state, crc := crc, body := body)]
  {
    var v := ViewOf(entries, blob, bodies);
    assert ViewOf(entries[i := entries[i].(state := state, crc := crc)], blob, bodies[i := body])
      == v[i := v[i].(state := state, crc := crc, body := body)];
  }

  lemma RemoveOk(entries: seq<Entry>, blob: seq<u8>, bodies: seq<seq<u8>>, table: map<Name, nat>, name: Name,
      utf8: seq<u8> -> bool)
    requires NamesOk(entries, blob, utf8) && |bodies| == |entries| && EntriesFit(entries)
    requires Finds(table, ViewOf(entries, blob, bodies))
    requires name in table
    ensures table[name] < |entries|
    ensures var i := table[name];
      var es, bs, v := SwapRemove(entries, i), SwapRemove(bodies, i), ViewOf(entries, blob, bodies);
      && NamesOk(es, blob, utf8) && NamesIn(es, blob) && EntriesFit(es) && ViewOf(es, blob, bs) == Without(v, name)
      && (i < |es| ==> es[i].nameOff + es[i].nameLen <= |blob| && utf8(NameAt(blob, es[i])))
      && Finds(if i == |entries| - 1 then table - {name} else (table - {name})[NameAt(blob, es[i]) := i],
        ViewOf(es, blob, bs))
  {
    hide Finds, Find;
    var i, v := table[name], ViewOf(entries, blob, bodies);
    FindsIsFind(table, v, name);
    FindsSwapRemove(table, v, name);
    ViewRemove(entries, blob, bodies, i, utf8);
  }

  lemma ViewAppend(entries: seq<Entry>, blob: seq<u8>, bodies: seq<seq<u8>>, e: Entry, name: Name, body: seq<u8>,
      utf8: seq<u8> -> bool)
    requires NamesOk(entries, blob, utf8) && |bodies| == |entries| && utf8(name) && e.nameOff == |blob|
    requires e.nameLen == |name|
    ensures NamesOk(entries + [e], blob + name + [0], utf8)
    ensures ViewOf(entries + [e], blob + name + [0], bodies + [body])
      == ViewOf(entries, blob, bodies) + [EntOf(e, name, body)]
  {
    var es, b := entries + [e], blob + name + [0];
    forall i | 0 <= i < |es|
      ensures es[i].nameOff + es[i].nameLen <= |b|
      ensures NameAt(b, es[i]) == if i < |entries| then NameAt(blob, entries[i]) else name
    {
      if i < |entries| {
        assert b == blob + (name + [0]);
        CutLeft(blob, name + [0], es[i].nameOff, es[i].nameOff + es[i].nameLen);
      } else {
        Cut(blob, name, [0]);
      }
    }
  }

  lemma ViewRemove(entries: seq<Entry>, blob: seq<u8>, bodies: seq<seq<u8>>, i: nat, utf8: seq<u8> -> bool)
    requires NamesOk(entries, blob, utf8) && |bodies| == |entries| && i < |entries|
    ensures NamesOk(SwapRemove(entries, i), blob, utf8)
    ensures ViewOf(SwapRemove(entries, i), blob, SwapRemove(bodies, i)) == SwapRemove(ViewOf(entries, blob, bodies), i)
  {
  }

  // --- the index is a map from names to entries ---

  function AsMap(ents: seq<Ent>): map<Name, Ent> {
    if ents == [] then map[]
    else AsMap(ents[..|ents| - 1])[ents[|ents| - 1].name := ents[|ents| - 1]]
  }

  lemma {:induction false} AsMapFinds(ents: seq<Ent>, name: Name)
    ensures (name in AsMap(ents) <==> Find(ents, name).Some?)
    ensures name in AsMap(ents) ==> AsMap(ents)[name] == ents[Find(ents, name).value]
  {
    if ents != [] {
      AsMapFinds(ents[..|ents| - 1], name);
    }
  }

  datatype Change = Add(e: Ent) | Drop(name: Name)

  /** insert, whose caller checks that the name is new, and remove. */
  function Changed(ents: seq<Ent>, c: Change): seq<Ent> {
    match c
    case Add(e) => if Find(ents, e.name).Some? then ents else ents + [e]
    case Drop(name) => Without(ents, name)
  }

  function ChangedMap(m: map<Name, Ent>, c: Change): map<Name, Ent> {
    match c
    case Add(e) => if e.name in m then m else m[e.name := e]
    case Drop(name) => m - {name}
  }

  function ChangedAll(ents: seq<Ent>, cs: seq<Change>): seq<Ent> {
    if cs == [] then ents else Changed(ChangedAll(ents, cs[..|cs| - 1]), cs[|cs| - 1])
  }

  function ChangedMapAll(m: map<Name, Ent>, cs: seq<Change>): map<Name, Ent> {
    if cs == [] then m else ChangedMap(ChangedMapAll(m, cs[..|cs| - 1]), cs[|cs| - 1])
  }

  lemma ChangeRefines(ents: seq<Ent>, c: Change)
    requires UniqueNames(ents)
    ensures UniqueNames(Changed(ents, c)) && AsMap(Changed(ents, c)) == ChangedMap(AsMap(ents), c)
  {
    var r := Changed(ents, c);
    match c {
      case Add(e) =>
        AsMapFinds(ents, e.name);
        if Find(ents, e.name).None? {
          assert r[..|r| - 1] == ents;
        }
      case Drop(name) =>
        DropRefines(ents, name);
    }
  }

  lemma DropRefines(ents: seq<Ent>, name: Name)
    requires UniqueNames(ents)
    ensures UniqueNames(Without(ents, name)) && AsMap(Without(ents, name)) == AsMap(ents) - {name}
  {
    hide AsMap;
    var r := Without(ents, name);
    forall n
      ensures n in AsMap(r) <==> n in AsMap(ents) - {name}
      ensures n in AsMap(r) ==> AsMap(r)[n] == AsMap(ents)[n]
    {
      AsMapFinds(ents, n);
      AsMapFinds(r, n);
      WithoutFinds(ents, name, n);
    }
  }

  lemma WithoutFinds(ents: seq<Ent>, name: Name, n: Name)
    requires UniqueNames(ents)
    ensures var r := Without(ents, name);
      && UniqueNames(r)
      && (Find(r, n).Some? <==> n != name && Find(ents, n).Some?)
      && (Find(r, n).Some? ==> r[Find(r, n).value] == ents[Find(ents, n).value])
  {
    hide Find;
    var r, f := Without(ents, name), Find(ents, name);
    if f.Some? {
      var last := |ents| - 1;
      if Find(ents, n).Some? && n != name {
        var k := if Find(ents, n).value == last then f.value else Find(ents, n).value;
        assert r[k] == ents[Find(ents, n).value];
        FindUnique(r, k);
      }
      if Find(r, n).Some? {
        var k := Find(r, n).value;
        var j := if k == f.value then last else k;
        assert r[k] == ents[j];
        FindUnique(ents, j);
      }
    }
  }

  /** Under any sequence of inserts and swap-removing removes the index stays
      the map that the same changes make. */
  lemma {:induction false} IndexIsMap(ents: seq<Ent>, cs: seq<Change>)
    requires UniqueNames(ents)
    ensures UniqueNames(ChangedAll(ents, cs)) && AsMap(ChangedAll(ents, cs)) == ChangedMapAll(AsMap(ents), cs)
  {
    hide Changed, ChangedMap, AsMap;
    if cs != [] {
      IndexIsMap(ents, cs[..|cs| - 1]);
      ChangeRefines(ChangedAll(ents, cs[..|cs| - 1]), cs[|cs| - 1]);
    }
  }
}
