/** The two ends of enumerate: the arrays that enumerate_read fills, and the
    loop in VfsReader.RefreshIndex that splits the names again. */
module Enumerate {
  import opened Crc
  import opened Wrappers
  import opened Files
  import opened Format
  import opened Entries
  import opened IndexMap

  /** The first n rows of the columns. */
  ghost predicate Rows(entries: seq<Entry>, n: nat, off: seq<nat>, size: seq<nat>, crc: seq<u32>, state: seq<nat>) {
    && n <= |entries| && n <= |off| && n <= |size| && n <= |crc| && n <= |state|
    && forall k :: 0 <= k < n ==>
         off[k] == entries[k].offset && size[k] == entries[k].size && crc[k] == entries[k].crc
           && state[k] == entries[k].state
  }

  /** Five different objects. */
  ghost predicate Distinct(a: object, b: object, c: object, d: object, e: object) {
    a != b && a != c && a != d && a != e && b != c && b != d && b != e && c != d && c != e && d != e
  }

  /** The copying loop of enumerate_read: names without the dead bytes of the
      blob, and one row of the columns for each. */
  method CopyOut(entries: seq<Entry>, blob: seq<u8>, names: array<u8>, off: array<nat>, size: array<nat>,
      crc: array<u32>, state: array<nat>)
    requires NamesIn(entries, blob) && StringsLen(entries) <= names.Length
    requires |entries| <= off.Length && |entries| <= size.Length && |entries| <= crc.Length && |entries| <= state.Length
    requires Distinct(names, off, size, crc, state)
    modifies names, off, size, crc, state
    ensures names[..] == CompactBlob(entries, blob) + old(names[..])[StringsLen(entries)..]
    ensures Rows(entries, |entries|, off[..], size[..], crc[..], state[..])
  {
    hide Rows, CompactBlob, StringsLen, NameAt;
    var cur := 0;
    ghost var was := names[..];
    BlobNext([], blob);
    RowsNone(entries, off[..], size[..], crc[..], state[..]);
    assert entries[..0] == [];
    for i := 0 to |entries|
      invariant cur == StringsLen(entries[..i]) <= StringsLen(entries)
      invariant names[..] == CompactBlob(entries[..i], blob) + was[cur..]
      invariant Rows(entries, i, off[..], size[..], crc[..], state[..])
    {
      var e := entries[i];
      StringsGrow(entries, i);
      assert entries[..i + 1][..i] == entries[..i];
      BlobNext(entries[..i + 1], blob);
      PutRow(entries, i, names, off, size, crc, state);
      CopyName(names, cur, NameAt(blob, e));
      cur := cur + e.nameLen + 1;
    }
    assert entries[..|entries|] == entries;
  }

  method PutRow(entries: seq<Entry>, i: nat, ghost names: array<u8>, off: array<nat>, size: array<nat>,
      crc: array<u32>, state: array<nat>)
    requires i < |entries| && i < off.Length && i < size.Length && i < crc.Length && i < state.Length
    requires Distinct(names, off, size, crc, state)
    requires Rows(entries, i, off[..], size[..], crc[..], state[..])
    modifies off, size, crc, state
    ensures Rows(entries, i + 1, off[..], size[..], crc[..], state[..])
  {
    hide Rows;
    RowsNext(entries, i, off[..], size[..], crc[..], state[..]);
    off[i] := entries[i].offset;
    size[i] := entries[i].size;
    crc[i] := entries[i].crc;
    state[i] := entries[i].state;
    assert off[..] == old(off[..])[i := entries[i].offset];
    assert size[..] == old(size[..])[i := entries[i].size];
    assert crc[..] == old(crc[..])[i := entries[i].crc];
    assert state[..] == old(state[..])[i := entries[i].state];
  }

  lemma BlobNext(es: seq<Entry>, blob: seq<u8>)
    requires NamesIn(es, blob)
    ensures es == [] ==> CompactBlob(es, blob) == [] && StringsLen(es) == 0
    ensures es != [] ==> var n := |es| - 1;
      && CompactBlob(es, blob) == CompactBlob(es[..n], blob) + NameAt(blob, es[n]) + [0]
      && StringsLen(es) == StringsLen(es[..n]) + es[n].nameLen + 1
  {
  }

  lemma RowsNone(entries: seq<Entry>, off: seq<nat>, size: seq<nat>, crc: seq<u32>, state: seq<nat>)
    ensures Rows(entries, 0, off, size, crc, state)
  {
  }

  lemma RowsNext(entries: seq<Entry>, i: nat, off: seq<nat>, size: seq<nat>, crc: seq<u32>, state: seq<nat>)
    requires Rows(entries, i, off, size, crc, state) && i < |entries|
    requires i < |off| && i < |size| && i < |crc| && i < |state|
    ensures var e := entries[i];
      Rows(entries, i + 1, off[i := e.offset], size[i := e.size], crc[i := e.crc], state[i := e.state])
  {
  }

  /** copy_from_slice and the NUL behind it. */
  method CopyName(names: array<u8>, cur: nat, name: Name)
    requires cur + |name| + 1 <= names.Length
    modifies names
    ensures names[..] == old(names[..])[..cur] + name + [0] + old(names[..])[cur + |name| + 1..]
  {
    forall k | 0 <= k < |name| {
      names[cur + k] := name[k];
    }
    names[cur + |name|] := 0;
  }

  // --- RefreshIndex ---

  datatype Info = Info(offset: nat, size: nat, state: nat, crc: u32)

  /** The next NUL at or after start, or the end. */
  function NulAt(b: seq<u8>, start: nat): (end: nat)
    requires start <= |b|
    ensures start <= end <= |b|
    ensures forall i :: start <= i < end ==> b[i] != 0
    ensures end < |b| ==> b[end] == 0
    decreases |b| - start
  {
    if start == |b| || b[start] == 0 then start else NulAt(b, start + 1)
  }

  datatype Split = Split(names: seq<Name>, start: nat)

  /** n names split off the blob; None where GetString would throw. */
  function SplitNames(b: seq<u8>, n: nat): Option<Split> {
    if n == 0 then Some(Split([], 0))
    else
      match SplitNames(b, n - 1)
      case None => None
      case Some(p) =>
        if p.start > |b| then None
        else
          var end := NulAt(b, p.start);
          Some(Split(p.names + [b[p.start..end]], end + 1))
  }

  function Dict(names: seq<Name>, infos: seq<Info>): map<Name, Info>
    requires |names| <= |infos|
  {
    if names == [] then map[]
    else var n := |names| - 1; Dict(names[..n], infos)[names[n] := infos[n]]
  }

  function Infos(off: seq<nat>, size: seq<nat>, crc: seq<u32>, state: seq<nat>): (r: seq<Info>)
    requires |off| == |size| == |crc| == |state|
    ensures |r| == |off|
    ensures forall i :: 0 <= i < |r| ==> r[i] == Info(off[i], size[i], state[i], crc[i])
  {
    seq(|off|, i requires 0 <= i < |off| => Info(off[i], size[i], state[i], crc[i]))
  }

  lemma {:induction false} NoneBefore(b: seq<u8>, i: nat, n: nat)
    requires i <= n && SplitNames(b, i).None?
    ensures SplitNames(b, n).None?
  {
    if i < n {
      NoneBefore(b, i, n - 1);
    }
  }

  lemma {:induction false} SplitCount(b: seq<u8>, n: nat)
    ensures SplitNames(b, n).Some? ==> |SplitNames(b, n).value.names| == n
  {
    if n > 0 {
      SplitCount(b, n - 1);
    }
  }

  /** The parsing loop; None for the exception. */
  method Refresh(names: seq<u8>, off: seq<nat>, size: seq<nat>, crc: seq<u32>,
      state: seq<nat>) returns (r: Option<map<Name, Info>>)
    requires |off| == |size| == |crc| == |state|
    ensures var p := SplitNames(names, |off|);
      && (p.None? ==> r == None)
      && (p.Some? ==> |p.value.names| == |off| && r == Some(Dict(p.value.names, Infos(off, size, crc, state))))
  {
    hide Dict;
    var idx: map<Name, Info> := map[];
    var start := 0;
    ghost var seen: seq<Name> := [];
    assert Dict([], Infos(off, size, crc, state)) == map[] by { DictNone(Infos(off, size, crc, state)); }
    for i := 0 to |off|
      invariant SplitNames(names, i) == Some(Split(seen, start)) && |seen| == i
      invariant idx == Dict(seen, Infos(off, size, crc, state))
    {
      var end := start;
      while end < |names| && names[end] != 0
        invariant start <= end && (start <= |names| ==> end <= |names| && NulAt(names, start) == NulAt(names, end))
      {
        end := end + 1;
      }
      if start > |names| {
        NoneBefore(names, i + 1, |off|);
        return None;
      }
      var name := names[start..end];
      DictNext(seen, name, Infos(off, size, crc, state));
      idx := idx[name := Info(off[i], size[i], state[i], crc[i])];
      seen := seen + [name];
      start := end + 1;
    }
    r := Some(idx);
  }

  lemma DictNone(infos: seq<Info>)
    ensures Dict([], infos) == map[]
  {
  }

  lemma DictNext(names: seq<Name>, name: Name, infos: seq<Info>)
    requires |names| < |infos|
    ensures Dict(names + [name], infos) == Dict(names, infos)[name := infos[|names|]]
  {
    assert (names + [name])[..|names|] == names;
  }

  // --- round trip ---

  predicate NulFree(name: Name) { forall i :: 0 <= i < |name| ==> name[i] != 0 }

  function NamesOf(entries: seq<Entry>, blob: seq<u8>): (r: seq<Name>)
    requires NamesIn(entries, blob)
    ensures |r| == |entries| && forall i :: 0 <= i < |r| ==> r[i] == NameAt(blob, entries[i])
  {
    seq(|entries|, i requires 0 <= i < |entries| => NameAt(blob, entries[i]))
  }

  lemma {:induction false} NulIs(b: seq<u8>, start: nat, end: nat)
    requires start <= end < |b| && b[end] == 0 && forall i :: start <= i < end ==> b[i] != 0
    ensures NulAt(b, start) == end
    decreases end - start
  {
    if start < end {
      NulIs(b, start + 1, end);
    }
  }

  lemma NulAfterName(pre: seq<u8>, name: Name, post: seq<u8>)
    requires NulFree(name)
    ensures NulAt(pre + name + [0] + post, |pre|) == |pre| + |name|
  {
    hide NulAt;
    var b := pre + name + [0] + post;
    forall i | |pre| <= i < |pre| + |name|
      ensures b[i] != 0
    {
      assert b[i] == name[i - |pre|];
    }
    NulIs(b, |pre|, |pre| + |name|);
  }

  lemma SplitNext(b: seq<u8>, n: nat, names: seq<Name>, start: nat, end: nat)
    requires SplitNames(b, n) == Some(Split(names, start)) && start <= |b| && NulAt(b, start) == end
    ensures SplitNames(b, n + 1) == Some(Split(names + [b[start..end]], end + 1))
  {
  }

  lemma SplitStep(entries: seq<Entry>, blob: seq<u8>, n: nat)
    requires n < |entries| && NamesIn(entries, blob) && NulFree(NameAt(blob, entries[n]))
    requires SplitNames(CompactBlob(entries, blob), n)
      == Some(Split(NamesOf(entries, blob)[..n], StringsLen(entries[..n])))
    ensures SplitNames(CompactBlob(entries, blob), n + 1)
      == Some(Split(NamesOf(entries, blob)[..n + 1], StringsLen(entries[..n + 1])))
  {
    hide CompactBlob, NulAt, NulFree, SplitNames, StringsLen;
    var names := NamesOf(entries, blob);
    assert entries[..n + 1][..n] == entries[..n];
    BlobLast(entries[..n + 1]);
    var pre, name, post := BlobCuts(entries, blob, n);
    NulAfterName(pre, name, post);
    CutName(pre, name, post);
    SplitNext(CompactBlob(entries, blob), n, names[..n], |pre|, |pre| + |name|);
    NextName(names, n + 1);
  }

  lemma BlobLast(es: seq<Entry>)
    requires es != []
    ensures StringsLen(es) == StringsLen(es[..|es| - 1]) + es[|es| - 1].nameLen + 1
  {
  }

  lemma {:induction false} SplitPrefix(entries: seq<Entry>, blob: seq<u8>, n: nat)
    requires n <= |entries| && NamesIn(entries, blob)
    requires forall i :: 0 <= i < |entries| ==> NulFree(NameAt(blob, entries[i]))
    ensures SplitNames(CompactBlob(entries, blob), n)
      == Some(Split(NamesOf(entries, blob)[..n], StringsLen(entries[..n])))
    decreases n
  {
    if n == 0 {
      assert entries[..0] == [];
    } else {
      SplitPrefix(entries, blob, n - 1);
      SplitStep(entries, blob, n - 1);
    }
  }

  lemma NextName(names: seq<Name>, n: nat)
    requires 0 < n <= |names|
    ensures names[..n] == names[..n - 1] + [names[n - 1]]
  {
  }

  lemma CutName(pre: seq<u8>, name: Name, post: seq<u8>)
    ensures (pre + name + [0] + post)[|pre|..|pre| + |name|] == name
  {
  }

  lemma BlobCuts(entries: seq<Entry>, blob: seq<u8>, i: nat) returns (pre: seq<u8>, name: Name, post: seq<u8>)
    requires i < |entries| && NamesIn(entries, blob)
    ensures CompactBlob(entries, blob) == pre + name + [0] + post
    ensures |pre| == StringsLen(entries[..i]) && name == NameAt(blob, entries[i])
  {
    BlobPrefix(entries, blob, i + 1);
    assert entries[..i + 1][..i] == entries[..i];
    pre, name := CompactBlob(entries[..i], blob), NameAt(blob, entries[i]);
    post := CompactBlob(entries, blob)[|CompactBlob(entries[..i + 1], blob)|..];
  }

  lemma {:induction false} SplitIsNulFree(b: seq<u8>, n: nat)
    ensures SplitNames(b, n).Some? ==> forall k :: 0 <= k < |SplitNames(b, n).value.names| ==>
      NulFree(SplitNames(b, n).value.names[k])
  {
    if n > 0 {
      SplitIsNulFree(b, n - 1);
    }
  }

  /** Splitting gives the names back if and only if none contains a NUL,
      whatever dead bytes the blob in memory holds. */
  lemma SplitGivesNames(entries: seq<Entry>, blob: seq<u8>)
    requires NamesIn(entries, blob)
    ensures var p := SplitNames(CompactBlob(entries, blob), |entries|);
      (p.Some? && p.value.names == NamesOf(entries, blob)) <==> forall i :: 0 <= i < |entries| ==>
        NulFree(NameAt(blob, entries[i]))
  {
    hide CompactBlob, SplitNames, NulFree;
    SplitIsNulFree(CompactBlob(entries, blob), |entries|);
    var names := NamesOf(entries, blob);
    if forall i :: 0 <= i < |entries| ==> NulFree(NameAt(blob, entries[i])) {
      SplitPrefix(entries, blob, |entries|);
      assert names[..|entries|] == names;
    } else {
      var i :| 0 <= i < |entries| && !NulFree(NameAt(blob, entries[i]));
      assert names[i] == NameAt(blob, entries[i]);
    }
  }

  /** The row shows the entry field by field. */
  ghost predicate Shows(i: Info, e: Ent) {
    i.offset == e.offset && i.size == e.size && i.state == e.state && i.crc == e.crc
  }

  lemma {:induction false} DictIsMap(ents: seq<Ent>, names: seq<Name>, infos: seq<Info>, name: Name)
    requires |names| == |ents| <= |infos| && forall i :: 0 <= i < |ents| ==>
      names[i] == ents[i].name && Shows(infos[i], ents[i])
    ensures name in Dict(names, infos) <==> name in AsMap(ents)
    ensures name in AsMap(ents) ==> Shows(Dict(names, infos)[name], AsMap(ents)[name])
  {
    if ents != [] {
      DictIsMap(ents[..|ents| - 1], names[..|ents| - 1], infos, name);
    }
  }

  /** What a reader rebuilds from the arrays is the index's own map. */
  lemma RefreshRebuilds(entries: seq<Entry>, blob: seq<u8>, bodies: seq<seq<u8>>, off: seq<nat>, size: seq<nat>,
      crc: seq<u32>, state: seq<nat>)
    requires NamesIn(entries, blob) && |bodies| == |entries| == |off| == |size| == |crc| == |state|
    requires Rows(entries, |entries|, off, size, crc, state)
    requires forall i :: 0 <= i < |entries| ==> NulFree(NameAt(blob, entries[i]))
    ensures var p, ents := SplitNames(CompactBlob(entries, blob), |off|), ViewOf(entries, blob, bodies);
      && p.Some? && |p.value.names| == |off|
      && var m := Dict(p.value.names, Infos(off, size, crc, state));
      && m.Keys == AsMap(ents).Keys
      && forall n :: n in m ==> var e := AsMap(ents)[n]; m[n] == Info(e.offset, e.size, e.state, e.crc)
  {
    hide CompactBlob, SplitNames, NulFree, Dict, AsMap;
    SplitGivesNames(entries, blob);
    var p, ents := SplitNames(CompactBlob(entries, blob), |off|), ViewOf(entries, blob, bodies);
    var infos := Infos(off, size, crc, state);
    forall n
      ensures n in Dict(p.value.names, infos) <==> n in AsMap(ents)
      ensures n in AsMap(ents) ==> Shows(Dict(p.value.names, infos)[n], AsMap(ents)[n])
    {
      DictIsMap(ents, p.value.names, infos, n);
    }
  }
}
