/** build_plan of compact.rs: where each Active entry goes in one round. */
module Planner {
  import opened Spans
  import opened Crc

  type Name = seq<u8>

  const TWO64: nat := 0x1_0000_0000_0000_0000

  /** The part of an Active entry that the planner reads. */
  datatype Source = Source(name: Name, offset: nat, size: nat, crc: u32) {
    function Span(): nat { Align4k(size) }
  }

  datatype PlanItem = PlanItem(name: Name, oldOff: nat, newOff: nat, size: nat, crc: u32) {
    function Span(): nat { Align4k(size) }
    predicate Moved() { newOff != oldOff }
    function From(): Source { Source(name, oldOff, size, crc) }
  }

  /** The bytes lo, ..., hi - 1. */
  datatype Range = Range(lo: nat, hi: nat)

  datatype Plan = Plan(items: seq<PlanItem>, newLogical: nat, copyTotal: nat, excludedAny: bool)

  /** Subtraction on u64 as the release profile compiles it. */
  function WrapSub(a: nat, b: nat): nat {
    (a - b) % TWO64
  }

  // --- the stable sort of line 56 ---

  function Insert(e: Source, es: seq<Source>): seq<Source> {
    if es == [] || e.offset <= es[0].offset then [e] + es
    else [es[0]] + Insert(e, es[1..])
  }

  ghost predicate Ordered(es: seq<Source>) {
    forall i, j :: 0 <= i < j < |es| ==> es[i].offset <= es[j].offset
  }

  function SortByOffset(es: seq<Source>): (r: seq<Source>)
    ensures |r| == |es|
  {
    if es == [] then [] else
      InsertLength(es[0], SortByOffset(es[1..]));
      Insert(es[0], SortByOffset(es[1..]))
  }

  lemma InsertLength(e: Source, es: seq<Source>)
    ensures |Insert(e, es)| == |es| + 1
  {
  }

  lemma {:induction false} InsertAdds(e: Source, es: seq<Source>)
    ensures multiset(Insert(e, es)) == multiset(es) + multiset{e}
  {
    if es == [] || e.offset <= es[0].offset {
    } else {
      InsertAdds(e, es[1..]);
      assert es == [es[0]] + es[1..];
    }
  }

  /** Insert puts e between two runs that keep their order. */
  lemma {:induction false} InsertSplits(e: Source, es: seq<Source>) returns (k: nat)
    ensures k <= |es| && Insert(e, es) == es[..k] + [e] + es[k..]
    ensures forall i :: 0 <= i < k ==> es[i].offset < e.offset
    ensures k < |es| ==> e.offset <= es[k].offset
  {
    if es == [] || e.offset <= es[0].offset {
      k := 0;
    } else {
      var h, rest := es[0], es[1..];
      var j := InsertSplits(e, rest);
      k := j + 1;
      assert es == [h] + rest;
      assert es[..k] == [h] + rest[..j];
      assert es[k..] == rest[j..];
      assert [h] + (rest[..j] + [e] + rest[j..]) == es[..k] + [e] + es[k..];
      forall i | 0 <= i < k
        ensures es[i].offset < e.offset
      {
        assert i > 0 ==> es[i] == rest[i - 1];
      }
    }
  }

  lemma InsertOrdered(e: Source, es: seq<Source>)
    requires Ordered(es)
    ensures Ordered(Insert(e, es))
  {
    var k := InsertSplits(e, es);
    var r := Insert(e, es);
    forall i, j | 0 <= i < j < |r|
      ensures r[i].offset <= r[j].offset
    {
      var x, y := if i < k then i else i - 1, if j < k then j else j - 1;
      assert i < k ==> r[i] == es[x];
      assert i > k ==> r[i] == es[x];
      assert j < k ==> r[j] == es[y];
      assert j > k ==> r[j] == es[y] && (k <= y ==> es[k].offset <= es[y].offset);
    }
  }

  /** The entries at one offset, in their order. */
  function AtOffset(es: seq<Source>, offset: nat): seq<Source> {
    if es == [] then []
    else (if es[0].offset == offset then [es[0]] else []) + AtOffset(es[1..], offset)
  }

  /** An entry is inserted in front of those at its own offset. */
  lemma {:induction false} InsertStable(e: Source, es: seq<Source>, offset: nat)
    requires Ordered(es)
    ensures AtOffset(Insert(e, es), offset) == (if e.offset == offset then [e] else []) + AtOffset(es, offset)
  {
    if es == [] || e.offset <= es[0].offset {
      assert ([e] + es)[1..] == es;
    } else {
      InsertStable(e, es[1..], offset);
      var r := Insert(e, es);
      assert r[0] == es[0] && r[1..] == Insert(e, es[1..]);
      if e.offset == offset {
        assert es[0].offset != offset;
      }
    }
  }

  /** The sort orders by offset, loses nothing and is stable. */
  lemma {:induction false} SortSorts(es: seq<Source>)
    ensures multiset(SortByOffset(es)) == multiset(es) && Ordered(SortByOffset(es))
    ensures forall offset :: AtOffset(SortByOffset(es), offset) == AtOffset(es, offset)
  {
    if es == [] {
    } else {
      var rest := SortByOffset(es[1..]);
      SortSorts(es[1..]);
      InsertAdds(es[0], rest);
      assert es == [es[0]] + es[1..];
      InsertOrdered(es[0], rest);
      forall offset
        ensures AtOffset(SortByOffset(es), offset) == AtOffset(es, offset)
      {
        InsertStable(es[0], rest, offset);
      }
    }
  }

  // --- the scan over the sorted entries ---

  /** What the loop of build_plan knows after a prefix of the entries. */
  datatype Scan = Scan(cursor: nat, dataEnd: nat, items: seq<PlanItem>, excludedAny: bool)

  /** The old places of the entries that a plan moves. */
  function MovedPlaces(items: seq<PlanItem>): seq<Range> {
    if items == [] then []
    else
      var i := items[|items| - 1];
      MovedPlaces(items[..|items| - 1]) + (if i.Moved() then [Range(i.oldOff, i.oldOff + i.Span())] else [])
  }

  /** [cursor, cursor + a) meets an old place. */
  predicate HitsMoved(places: seq<Range>, cursor: nat, a: nat) {
    exists m :: m in places && cursor < m.hi && m.lo < cursor + a
  }

  /** An entry stays when it is where the cursor is; it moves down into the gap
      when the gap is large enough and free of old places; else to the end. */
  function Place(s: Scan, e: Source): Scan {
    var a := e.Span();
    var stays := e.offset == s.cursor;
    var hits := HitsMoved(MovedPlaces(s.items), s.cursor, a);
    var down := stays || (!hits && WrapSub(e.offset, s.cursor) >= a);
    var target := if down then s.cursor else s.dataEnd;
    Scan(if down then s.cursor + a else s.cursor,
         if down then s.dataEnd else s.dataEnd + a,
         s.items + [PlanItem(e.name, e.offset, target, e.size, e.crc)],
         s.excludedAny || (!stays && hits))
  }

  /** The scan after the first n entries. */
  function ScanOf(es: seq<Source>, n: nat, oldLogical: nat): (s: Scan)
    requires n <= |es|
    ensures |s.items| == n
  {
    if n == 0 then Scan(0, oldLogical, [], false)
    else Place(ScanOf(es, n - 1, oldLogical), es[n - 1])
  }

  function MaxEnd(items: seq<PlanItem>): nat {
    if items == [] then 0
    else
      var i := items[|items| - 1];
      var m := MaxEnd(items[..|items| - 1]);
      if m < i.newOff + i.Span() then i.newOff + i.Span() else m
  }

  function MovedBytes(items: seq<PlanItem>): nat {
    if items == [] then 0
    else
      var i := items[|items| - 1];
      MovedBytes(items[..|items| - 1]) + (if i.Moved() then i.size else 0)
  }

  function PlanFrom(es: seq<Source>, oldLogical: nat): Plan {
    var s := ScanOf(es, |es|, oldLogical);
    Plan(s.items, MaxEnd(s.items), MovedBytes(s.items), s.excludedAny)
  }

  function PlanOf(actives: seq<Source>, oldLogical: nat): Plan {
    PlanFrom(SortByOffset(actives), oldLogical)
  }

  lemma AppendItem(items: seq<PlanItem>, i: PlanItem)
    ensures MaxEnd(items + [i]) == (if MaxEnd(items) < i.newOff + i.Span() then i.newOff + i.Span() else MaxEnd(items))
    ensures MovedPlaces(items + [i]) ==
      MovedPlaces(items) + (if i.Moved() then [Range(i.oldOff, i.oldOff + i.Span())] else [])
  {
    assert (items + [i])[..|items|] == items;
  }

  method BuildPlan(actives: seq<Source>, oldLogical: nat) returns (p: Plan)
    ensures p == PlanOf(actives, oldLogical)
  {
    p := ScanAll(SortByOffset(actives), oldLogical);
  }

  /** The loop of build_plan over the sorted entries. */
  method ScanAll(es: seq<Source>, oldLogical: nat) returns (p: Plan)
    ensures p == PlanFrom(es, oldLogical)
  {
    var cursor: nat, dataEnd: nat, newLogical: nat := 0, oldLogical, 0;
    var items: seq<PlanItem> := [];
    var movedSources: seq<Range> := [];
    var excludedAny := false;
    for n := 0 to |es|
      invariant Scan(cursor, dataEnd, items, excludedAny) == ScanOf(es, n, oldLogical)
      invariant newLogical == MaxEnd(items)
      invariant movedSources == MovedPlaces(items)
    {
      var e := es[n];
      var a := e.Span();
      var target: nat;
      ghost var s := ScanOf(es, n, oldLogical);
      ghost var next := Place(s, e);
      if e.offset == cursor {
        cursor := cursor + a;
        target := e.offset;
      } else {
        var hitsMoved := HitsMoved(movedSources, cursor, a);
        if !hitsMoved && WrapSub(e.offset, cursor) >= a {
          target := cursor;
          cursor := cursor + a;
        } else {
          if hitsMoved {
            excludedAny := true;
          }
          target := dataEnd;
          dataEnd := dataEnd + a;
        }
      }
      if target != e.offset {
        movedSources := movedSources + [Range(e.offset, e.offset + a)];
      }
      if newLogical < target + a {
        newLogical := target + a;
      }
      assert next.cursor == cursor && next.dataEnd == dataEnd && next.excludedAny == excludedAny;
      var item := PlanItem(e.name, e.offset, target, e.size, e.crc);
      AppendItem(items, item);
      items := items + [item];
    }
    var copyTotal := CopyTotal(items);
    p := Plan(items, newLogical, copyTotal, excludedAny);
  }

  method CopyTotal(items: seq<PlanItem>) returns (copyTotal: nat)
    ensures copyTotal == MovedBytes(items)
  {
    copyTotal := 0;
    for n := 0 to |items|
      invariant copyTotal == MovedBytes(items[..n])
    {
      assert items[..n + 1][..n] == items[..n];
      if items[n].newOff != items[n].oldOff {
        copyTotal := copyTotal + items[n].size;
      }
    }
    assert items[..|items|] == items;
  }

  // --- safety ---

  /** What the index guarantees about the Active entries it hands over. */
  ghost predicate SpansOk(es: seq<Source>, limit: nat) {
    && (forall i :: 0 <= i < |es| ==> es[i].offset + es[i].Span() <= limit)
    && (forall i, j :: 0 <= i < |es| && 0 <= j < |es| && i != j ==>
          Apart(es[i].offset, es[i].Span(), es[j].offset, es[j].Span()))
  }

  /** Items follow the entries they come from. */
  ghost predicate Follows(items: seq<PlanItem>, es: seq<Source>) {
    |items| <= |es| && forall i :: 0 <= i < |items| ==> items[i].From() == es[i]
  }

  ghost predicate TargetsApart(items: seq<PlanItem>) {
    forall i, j :: 0 <= i < j < |items| ==>
      Apart(items[i].newOff, items[i].Span(), items[j].newOff, items[j].Span())
  }

  /** No byte of the place an item goes to belongs to the place any item comes
      from, except that an item which stays covers itself. */
  ghost predicate SourcesSpared(items: seq<PlanItem>) {
    forall i, j :: 0 <= i < |items| && 0 <= j < |items| && (i != j || items[i].Moved()) ==>
      items[i].Span() == 0 || items[j].Span() == 0
      || Apart(items[i].newOff, items[i].Span(), items[j].oldOff, items[j].Span())
  }

  /** The cursor has passed no entry that still has bytes to give. */
  ghost predicate CursorOk(cursor: nat, es: seq<Source>, n: nat)
    requires n <= |es|
  {
    forall j :: n <= j < |es| && es[j].Span() > 0 ==> cursor <= es[j].offset
  }

  /** Targets are packed under the cursor or stacked past the old end. */
  ghost predicate Stacked(s: Scan, limit: nat) {
    && s.cursor <= limit <= s.dataEnd
    && (forall i :: 0 <= i < |s.items| ==>
          s.items[i].newOff + s.items[i].Span() <= s.cursor
          || (limit <= s.items[i].newOff && s.items[i].newOff + s.items[i].Span() <= s.dataEnd))
    && (forall i :: 0 <= i < |s.items| && !s.items[i].Moved() && s.items[i].Span() > 0 ==>
          s.items[i].newOff + s.items[i].Span() <= s.cursor)
  }

  ghost predicate Spares(i: PlanItem, e: Source) {
    i.Span() == 0 || e.Span() == 0 || Apart(i.newOff, i.Span(), e.offset, e.Span())
  }

  /** Item i of a scan spares every source of the whole input. */
  ghost predicate SparesAll(items: seq<PlanItem>, es: seq<Source>) {
    forall i, j :: 0 <= i < |items| && 0 <= j < |es| && (i != j || items[i].Moved()) ==> Spares(items[i], es[j])
  }

  ghost predicate ScanOk(s: Scan, es: seq<Source>, n: nat, limit: nat)
    requires n <= |es|
  {
    && |s.items| == n && Follows(s.items, es)
    && CursorOk(s.cursor, es, n)
    && Stacked(s, limit)
    && TargetsApart(s.items)
    && SparesAll(s.items, es)
  }

  lemma PlaceFits(s: Scan, es: seq<Source>, n: nat, limit: nat)
    requires n < |es| && Ordered(es) && SpansOk(es, limit) && limit < TWO64
    requires CursorOk(s.cursor, es, n) && Stacked(s, limit)
    ensures CursorOk(Place(s, es[n]).cursor, es, n + 1) && Stacked(Place(s, es[n]), limit)
  {
    var e := es[n];
    assert forall j :: n < j < |es| ==> Apart(e.offset, e.Span(), es[j].offset, es[j].Span());
    assert e.Span() > 0 ==> WrapSub(e.offset, s.cursor) == e.offset - s.cursor;
  }

  lemma PlaceApart(s: Scan, e: Source, limit: nat)
    requires Stacked(s, limit) && TargetsApart(s.items) && Place(s, e).cursor <= limit
    ensures TargetsApart(Place(s, e).items)
  {
    var t := Place(s, e).items;
    forall i | 0 <= i < |s.items|
      ensures Apart(t[i].newOff, t[i].Span(), t[|s.items|].newOff, t[|s.items|].Span())
    {
      assert t[i] == s.items[i];
    }
  }

  lemma {:induction false} MovedPlacesHas(items: seq<PlanItem>, j: nat)
    requires j < |items| && items[j].Moved()
    ensures Range(items[j].oldOff, items[j].oldOff + items[j].Span()) in MovedPlaces(items)
  {
    if j < |items| - 1 {
      MovedPlacesHas(items[..|items| - 1], j);
    }
  }

  lemma PlaceSpares(s: Scan, es: seq<Source>, n: nat, j: nat, limit: nat)
    requires n < |es| && j < |es| && Ordered(es) && SpansOk(es, limit) && limit < TWO64
    requires ScanOk(s, es, n, limit)
    ensures var i := Place(s, es[n]).items[n]; (j != n || i.Moved()) ==> Spares(i, es[j])
  {
    var e := es[n];
    var i := Place(s, e).items[n];
    if e.Span() > 0 && es[j].Span() > 0 && (j != n || i.Moved()) {
      assert WrapSub(e.offset, s.cursor) == e.offset - s.cursor;
      if j != n {
        assert Apart(e.offset, e.Span(), es[j].offset, es[j].Span());
      }
      if j < n && i.newOff == s.cursor {
        assert s.items[j].From() == es[j];
        if e.offset != s.cursor && s.items[j].Moved() {
          MovedPlacesHas(s.items, j);
          assert !HitsMoved(MovedPlaces(s.items), s.cursor, e.Span());
        }
      }
    }
  }

  lemma PlaceOk(s: Scan, es: seq<Source>, n: nat, limit: nat)
    requires n < |es| && Ordered(es) && SpansOk(es, limit) && limit < TWO64
    requires ScanOk(s, es, n, limit)
    ensures ScanOk(Place(s, es[n]), es, n + 1, limit)
  {
    var t := Place(s, es[n]);
    PlaceFits(s, es, n, limit);
    PlaceApart(s, es[n], limit);
    forall i, j | 0 <= i < |t.items| && 0 <= j < |es| && (i != j || t.items[i].Moved())
      ensures Spares(t.items[i], es[j])
    {
      if i < n {
        assert t.items[i] == s.items[i];
      } else {
        PlaceSpares(s, es, n, j, limit);
      }
    }
  }

  lemma {:induction false} ScanIsOk(es: seq<Source>, n: nat, limit: nat)
    requires n <= |es| && Ordered(es) && SpansOk(es, limit) && limit < TWO64
    ensures ScanOk(ScanOf(es, n, limit), es, n, limit)
  {
    if n > 0 {
      ScanIsOk(es, n - 1, limit);
      PlaceOk(ScanOf(es, n - 1, limit), es, n - 1, limit);
    }
  }

  /** Any two entries at different positions are related. */
  ghost predicate Pairwise(es: seq<Source>, rel: (Source, Source) -> bool) {
    forall i, j :: 0 <= i < |es| && 0 <= j < |es| && i != j ==> rel(es[i], es[j])
  }

  /** Sorting keeps what holds of every pair. */
  lemma {:induction false} SortKeepsPairs(es: seq<Source>, rel: (Source, Source) -> bool)
    requires Pairwise(es, rel)
    ensures Pairwise(SortByOffset(es), rel)
  {
    if es != [] {
      var h, t := es[0], es[1..];
      assert Pairwise(t, rel) by {
        assert forall i :: 0 <= i < |t| ==> t[i] == es[i + 1];
      }
      SortKeepsPairs(t, rel);
      SortSorts(t);
      var s := SortByOffset(t);
      forall j | 0 <= j < |s|
        ensures rel(h, s[j]) && rel(s[j], h)
      {
        assert s[j] in multiset(t);
        var k :| 0 <= k < |t| && t[k] == s[j];
        assert es[k + 1] == s[j];
      }
      var k := InsertSplits(h, s);
      InsertKeepsPairs(h, s, k, rel);
    }
  }

  lemma InsertKeepsPairs(h: Source, s: seq<Source>, k: nat, rel: (Source, Source) -> bool)
    requires k <= |s| && Pairwise(s, rel)
    requires forall j :: 0 <= j < |s| ==> rel(h, s[j]) && rel(s[j], h)
    ensures Pairwise(s[..k] + [h] + s[k..], rel)
  {
    var r := s[..k] + [h] + s[k..];
    forall i, j | 0 <= i < |r| && 0 <= j < |r| && i != j
      ensures rel(r[i], r[j])
    {
      var x, y := if i < k then i else i - 1, if j < k then j else j - 1;
      assert i != k ==> r[i] == s[x];
      assert j != k ==> r[j] == s[y];
    }
  }

  lemma SortKeepsSpans(es: seq<Source>, limit: nat)
    requires SpansOk(es, limit)
    ensures SpansOk(SortByOffset(es), limit)
  {
    SortKeepsPairs(es, (a: Source, b: Source) => Apart(a.offset, a.Span(), b.offset, b.Span()));
    SortSorts(es);
    var s := SortByOffset(es);
    forall i | 0 <= i < |s|
      ensures s[i].offset + s[i].Span() <= limit
    {
      assert s[i] in multiset(es);
    }
  }

  /** Everything a round relies on: the plan moves exactly the Active entries,
      no two land on a common byte, none lands on bytes the disk header still
      refers to, and the new logical size covers them all. */
  lemma PlannerSafety(actives: seq<Source>, limit: nat)
    requires SpansOk(actives, limit) && limit < TWO64
    ensures var p := PlanOf(actives, limit);
      && |p.items| == |SortByOffset(actives)| && Follows(p.items, SortByOffset(actives))
      && multiset(SortByOffset(actives)) == multiset(actives)
      && TargetsApart(p.items)
      && SourcesSpared(p.items)
      && (forall i :: 0 <= i < |p.items| ==> p.items[i].newOff + p.items[i].Span() <= p.newLogical)
  {
    var es := SortByOffset(actives);
    SortSorts(actives);
    SortKeepsSpans(actives, limit);
    ScanIsOk(es, |es|, limit);
    var items := PlanOf(actives, limit).items;
    MaxEndBounds(items);
    forall i, j | 0 <= i < |items| && 0 <= j < |items| && (i != j || items[i].Moved())
      ensures items[i].Span() == 0 || items[j].Span() == 0
        || Apart(items[i].newOff, items[i].Span(), items[j].oldOff, items[j].Span())
    {
      assert Spares(items[i], es[j]) && items[j].From() == es[j];
    }
  }

  lemma {:induction false} MaxEndBounds(items: seq<PlanItem>)
    ensures forall i :: 0 <= i < |items| ==> items[i].newOff + items[i].Span() <= MaxEnd(items)
    ensures items != [] ==> exists i :: 0 <= i < |items| && items[i].newOff + items[i].Span() == MaxEnd(items)
  {
    if items != [] {
      var n := |items| - 1;
      MaxEndBounds(items[..n]);
      forall i | 0 <= i < |items|
        ensures items[i].newOff + items[i].Span() <= MaxEnd(items)
      {
        assert i < n ==> items[..n][i] == items[i];
      }
      if n > 0 && MaxEnd(items) == MaxEnd(items[..n]) {
        var k :| 0 <= k < n && items[..n][k].newOff + items[..n][k].Span() == MaxEnd(items[..n]);
        assert items[k].newOff + items[k].Span() == MaxEnd(items);
      } else {
        assert items[n].newOff + items[n].Span() == MaxEnd(items);
      }
    }
  }

  /** Aligned offsets stay aligned. */
  lemma {:induction false} ScanAligned(es: seq<Source>, n: nat, limit: nat)
    requires n <= |es| && Aligned(limit) && forall i :: 0 <= i < |es| ==> Aligned(es[i].offset)
    ensures var s := ScanOf(es, n, limit);
      && Aligned(s.cursor) && Aligned(s.dataEnd)
      && forall i :: 0 <= i < n ==> Aligned(s.items[i].newOff)
  {
    hide Align4k, HitsMoved, WrapSub;
    if n > 0 {
      ScanAligned(es, n - 1, limit);
      Align4kLeast(es[n - 1].size);
      AlignedSum(ScanOf(es, n - 1, limit).cursor, es[n - 1].Span());
      AlignedSum(ScanOf(es, n - 1, limit).dataEnd, es[n - 1].Span());
    }
  }

  lemma AlignedSum(a: nat, b: nat)
    requires Aligned(a) && Aligned(b)
    ensures Aligned(a + b)
  {
  }

  function SpanSum(es: seq<Source>): nat {
    if es == [] then 0 else SpanSum(es[..|es| - 1]) + es[|es| - 1].Span()
  }

  /** The targets tile [0, cursor) and [old end, dataEnd) without a gap: they
      are disjoint (PlannerSafety) and their lengths add up. */
  lemma {:induction false} ScanTiles(es: seq<Source>, n: nat, limit: nat)
    requires n <= |es|
    ensures var s := ScanOf(es, n, limit); s.cursor + s.dataEnd == limit + SpanSum(es[..n])
  {
    if n > 0 {
      ScanTiles(es, n - 1, limit);
      assert es[..n][..n - 1] == es[..n - 1];
    }
  }

  /** Disjoint spans in offset order take no more room than there is. */
  lemma {:induction false} SumBelow(es: seq<Source>, n: nat, limit: nat)
    requires n <= |es| && Ordered(es)
    requires forall i, j :: 0 <= i < |es| && 0 <= j < |es| && i != j ==>
      Apart(es[i].offset, es[i].Span(), es[j].offset, es[j].Span())
    requires forall i :: 0 <= i < n && es[i].Span() > 0 ==> es[i].offset + es[i].Span() <= limit
    ensures SpanSum(es[..n]) <= limit
  {
    hide Align4k;
    if n > 0 {
      assert es[..n][..n - 1] == es[..n - 1];
      var last := es[n - 1];
      if last.Span() == 0 {
        SumBelow(es, n - 1, limit);
      } else {
        forall i | 0 <= i < n - 1 && es[i].Span() > 0
          ensures es[i].offset + es[i].Span() <= last.offset
        {
          assert Apart(es[i].offset, es[i].Span(), es[n - 1].offset, es[n - 1].Span());
        }
        SumBelow(es, n - 1, last.offset);
      }
    }
  }

  /** A round at most doubles the logical size. */
  lemma PlanGrowth(actives: seq<Source>, limit: nat)
    requires SpansOk(actives, limit) && limit < TWO64
    ensures forall i :: 0 <= i < |PlanOf(actives, limit).items| ==>
      var t := PlanOf(actives, limit).items[i]; t.newOff + t.Span() <= 2 * limit
  {
    hide Align4k;
    var es := SortByOffset(actives);
    SortSorts(actives);
    SortKeepsSpans(actives, limit);
    ScanIsOk(es, |es|, limit);
    ScanTiles(es, |es|, limit);
    assert es[..|es|] == es;
    SumBelow(es, |es|, limit);
  }

  lemma PlaceStays(s: Scan, e: Source)
    requires e.offset == s.cursor
    ensures var t := Place(s, e);
      && t.cursor == s.cursor + e.Span() && t.dataEnd == s.dataEnd && t.excludedAny == s.excludedAny
      && t.items[..|s.items|] == s.items && !t.items[|s.items|].Moved()
  {
    hide Align4k, HitsMoved, WrapSub;
  }

  /** What is packed already stays where it is. */
  lemma {:induction false} PackedStays(es: seq<Source>, n: nat, limit: nat)
    requires n <= |es| && forall i :: 0 <= i < n ==> es[i].offset == SpanSum(es[..i])
    ensures var s := ScanOf(es, n, limit);
      && s.cursor == SpanSum(es[..n]) && s.dataEnd == limit && !s.excludedAny
      && forall i :: 0 <= i < n ==> !s.items[i].Moved()
  {
    if n > 0 {
      hide Align4k, Place;
      PackedStays(es, n - 1, limit);
      assert es[..n][..n - 1] == es[..n - 1];
      var s := ScanOf(es, n - 1, limit);
      PlaceStays(s, es[n - 1]);
      var t := Place(s, es[n - 1]);
      forall i | 0 <= i < n
        ensures !t.items[i].Moved()
      {
        assert i < n - 1 ==> t.items[i] == t.items[..n - 1][i];
      }
    }
  }

  /** If nothing had to go to the end, the files fill the front without a hole. */
  lemma FrontFilled(es: seq<Source>, limit: nat)
    requires Ordered(es) && SpansOk(es, limit) && limit < TWO64 && ScanOf(es, |es|, limit).dataEnd == limit
    ensures var s := ScanOf(es, |es|, limit);
      && s.cursor == SpanSum(es)
      && forall i :: 0 <= i < |es| && s.items[i].Span() > 0 ==> s.items[i].newOff + s.items[i].Span() <= SpanSum(es)
  {
    hide Align4k;
    ScanIsOk(es, |es|, limit);
    ScanTiles(es, |es|, limit);
    assert es[..|es|] == es;
  }

  /** An entry goes down into the gap before it when nothing was moved yet and
      the gap holds it. */
  lemma GapTaken(es: seq<Source>, n: nat, limit: nat)
    requires n < |es| && forall i :: 0 <= i < n ==> es[i].offset == SpanSum(es[..i])
    requires es[n].Span() > 0 && SpanSum(es[..n]) + es[n].Span() <= es[n].offset < TWO64
    ensures ScanOf(es, n + 1, limit).items[n].newOff == SpanSum(es[..n])
  {
    hide Align4k, Place, SpanSum;
    PackedStays(es, n, limit);
    NoPlaces(ScanOf(es, n, limit).items);
    PlaceInGap(ScanOf(es, n, limit), es[n]);
  }

  lemma PlaceInGap(s: Scan, e: Source)
    requires MovedPlaces(s.items) == [] && s.cursor + e.Span() <= e.offset < TWO64
    ensures Place(s, e).items[|s.items|].newOff == s.cursor
  {
    hide Align4k;
  }

  lemma {:induction false} NoPlaces(items: seq<PlanItem>)
    requires forall i :: 0 <= i < |items| ==> !items[i].Moved()
    ensures MovedPlaces(items) == []
  {
    if items != [] {
      NoPlaces(items[..|items| - 1]);
    }
  }

  // --- where every entry goes, read off the plan itself ---

  /** How much of the front the items fill that were placed there. */
  function FrontEnd(items: seq<PlanItem>, limit: nat): nat {
    if items == [] then 0
    else
      var i := items[|items| - 1];
      FrontEnd(items[..|items| - 1], limit) + (if i.newOff < limit then i.Span() else 0)
  }

  /** How much the others take behind the old end. */
  function BackEnd(items: seq<PlanItem>, limit: nat): nat {
    if items == [] then limit
    else
      var i := items[|items| - 1];
      BackEnd(items[..|items| - 1], limit) + (if i.newOff < limit then 0 else i.Span())
  }

  /** The front range that item n would take meets the old place of an item in
      front of it that has moved. */
  predicate Blocked(items: seq<PlanItem>, n: nat, limit: nat)
    requires n < |items|
  {
    var front := FrontEnd(items[..n], limit);
    exists m :: 0 <= m < n && items[m].Moved()
      && front < items[m].oldOff + items[m].Span() && items[m].oldOff < front + items[n].Span()
  }

  /** Item n does not stay and its front range is blocked. */
  predicate Displaced(items: seq<PlanItem>, n: nat, limit: nat)
    requires n < |items|
  {
    items[n].oldOff != FrontEnd(items[..n], limit) && Blocked(items, n, limit)
  }

  /** The bytes between the filled front and the item hold the item. */
  predicate GapHolds(items: seq<PlanItem>, n: nat, limit: nat)
    requires n < |items|
  {
    items[n].Span() == 0 || FrontEnd(items[..n], limit) + items[n].Span() <= items[n].oldOff
  }

  lemma {:induction false} HitsAre(items: seq<PlanItem>, cursor: nat, a: nat)
    ensures HitsMoved(MovedPlaces(items), cursor, a) <==>
      exists m :: 0 <= m < |items| && items[m].Moved() && cursor < items[m].oldOff + items[m].Span()
        && items[m].oldOff < cursor + a
  {
    hide Align4k;
    if items != [] {
      var n := |items| - 1;
      HitsAre(items[..n], cursor, a);
      var places, last := MovedPlaces(items[..n]), items[n];
      assert HitsMoved(MovedPlaces(items), cursor, a) <==>
        HitsMoved(places, cursor, a)
          || (last.Moved() && cursor < last.oldOff + last.Span() && last.oldOff < cursor + a) by {
        HitsLast(places, Range(last.oldOff, last.oldOff + last.Span()), cursor, a);
      }
      assert forall m :: 0 <= m < n ==> items[..n][m] == items[m];
    }
  }

  lemma HitsLast(places: seq<Range>, r: Range, cursor: nat, a: nat)
    ensures HitsMoved(places + [r], cursor, a) <==> HitsMoved(places, cursor, a) || (cursor < r.hi && r.lo < cursor + a)
    ensures HitsMoved(places + [], cursor, a) == HitsMoved(places, cursor, a)
  {
    assert places + [] == places;
    if HitsMoved(places, cursor, a) {
      var m :| m in places && cursor < m.hi && m.lo < cursor + a;
      assert m in places + [r];
    }
    assert r in places + [r];
  }

  lemma FrontStep(s: Scan, e: Source, limit: nat)
    requires Stacked(s, limit) && Stacked(Place(s, e), limit)
    requires FrontEnd(s.items, limit) == s.cursor && BackEnd(s.items, limit) == s.dataEnd
    ensures FrontEnd(Place(s, e).items, limit) == Place(s, e).cursor
    ensures BackEnd(Place(s, e).items, limit) == Place(s, e).dataEnd
  {
    hide Align4k, HitsMoved, WrapSub;
    var t := Place(s, e).items;
    assert t[..|t| - 1] == s.items;
  }

  /** The cursors of the loop are what the items say. */
  lemma {:induction false} FrontIsCursor(es: seq<Source>, n: nat, limit: nat)
    requires n <= |es| && Ordered(es) && SpansOk(es, limit) && limit < TWO64
    ensures var s := ScanOf(es, n, limit); FrontEnd(s.items, limit) == s.cursor && BackEnd(s.items, limit) == s.dataEnd
  {
    if n > 0 {
      FrontIsCursor(es, n - 1, limit);
      ScanIsOk(es, n - 1, limit);
      ScanIsOk(es, n, limit);
      FrontStep(ScanOf(es, n - 1, limit), es[n - 1], limit);
    }
  }

  /** The rule for the entry that comes next. */
  lemma PlaceRule(s: Scan, es: seq<Source>, n: nat, limit: nat)
    requires n < |es| && Ordered(es) && SpansOk(es, limit) && limit < TWO64 && ScanOk(s, es, n, limit)
    requires FrontEnd(s.items, limit) == s.cursor && BackEnd(s.items, limit) == s.dataEnd
    ensures var t := Place(s, es[n]);
      && t.items[..n] == s.items && t.items[n].From() == es[n]
      && t.items[n].newOff == (
        if es[n].offset == s.cursor || (!Blocked(t.items, n, limit) && GapHolds(t.items, n, limit)) then s.cursor
        else s.dataEnd)
      && (t.excludedAny <==> s.excludedAny || Displaced(t.items, n, limit))
  {
    hide FrontEnd, BackEnd, Align4k;
    var e, t := es[n], Place(s, es[n]);
    assert t.items[..n] == s.items;
    HitsAre(s.items, s.cursor, e.Span());
    assert forall m :: 0 <= m < n ==> t.items[m] == s.items[m];
    assert Blocked(t.items, n, limit) <==> HitsMoved(MovedPlaces(s.items), s.cursor, e.Span());
    assert e.Span() > 0 ==> WrapSub(e.offset, s.cursor) == e.offset - s.cursor;
  }

  /** An item looks at the items in front of it only. */
  lemma PrefixRules(a: seq<PlanItem>, b: seq<PlanItem>, k: nat, limit: nat)
    requires k < |a| && a <= b
    ensures Blocked(a, k, limit) == Blocked(b, k, limit) && Displaced(a, k, limit) == Displaced(b, k, limit)
    ensures GapHolds(a, k, limit) == GapHolds(b, k, limit) && a[..k] == b[..k]
  {
    hide FrontEnd, Align4k;
    assert a[..k] == b[..k];
    assert forall m :: 0 <= m <= k ==> a[m] == b[m];
  }

  /** What a scan has done with every entry so far, and when it says that it has
      displaced one. */
  ghost predicate Ruled(items: seq<PlanItem>, k: nat, limit: nat)
    requires k < |items|
  {
    items[k].newOff ==
      if items[k].oldOff == FrontEnd(items[..k], limit) || (!Blocked(items, k, limit) && GapHolds(items, k, limit))
      then FrontEnd(items[..k], limit) else BackEnd(items[..k], limit)
  }

  ghost predicate AllRuled(s: Scan, limit: nat) {
    && (forall k :: 0 <= k < |s.items| ==> Ruled(s.items, k, limit))
    && (s.excludedAny <==> exists k :: 0 <= k < |s.items| && Displaced(s.items, k, limit))
  }

  lemma RulesNext(s: Scan, t: Scan, limit: nat)
    requires AllRuled(s, limit) && |t.items| == |s.items| + 1 && t.items[..|s.items|] == s.items
    requires Ruled(t.items, |s.items|, limit)
    requires t.excludedAny <==> s.excludedAny || Displaced(t.items, |s.items|, limit)
    ensures AllRuled(t, limit)
  {
    hide FrontEnd, BackEnd, Blocked, Displaced, GapHolds, Align4k;
    forall k | 0 <= k < |s.items|
      ensures Ruled(t.items, k, limit) && Displaced(t.items, k, limit) == Displaced(s.items, k, limit)
    {
      PrefixRules(s.items, t.items, k, limit);
      assert Ruled(s.items, k, limit);
    }
  }

  lemma {:induction false} ScanRules(es: seq<Source>, n: nat, limit: nat)
    requires n <= |es| && Ordered(es) && SpansOk(es, limit) && limit < TWO64
    ensures AllRuled(ScanOf(es, n, limit), limit)
  {
    if n > 0 {
      hide ScanOk, Ordered, SpansOk, Align4k, Place, AllRuled, Displaced, Blocked, GapHolds, FrontEnd, BackEnd;
      ScanRules(es, n - 1, limit);
      ScanIsOk(es, n - 1, limit);
      FrontIsCursor(es, n - 1, limit);
      PlaceRule(ScanOf(es, n - 1, limit), es, n - 1, limit);
      RulesNext(ScanOf(es, n - 1, limit), ScanOf(es, n, limit), limit);
    }
  }

  /** For every entry of every plan: it stays at the end of the filled front, or
      goes there if it fits in front of its old place and meets no place that an
      earlier entry moved away from; otherwise it is stacked behind the old end.
      The plan says so exactly when some entry had to make way for such a place. */
  lemma PlanRules(actives: seq<Source>, limit: nat)
    requires SpansOk(actives, limit) && limit < TWO64
    ensures var p := PlanOf(actives, limit);
      && (forall k :: 0 <= k < |p.items| ==> Ruled(p.items, k, limit))
      && (p.excludedAny <==> exists k :: 0 <= k < |p.items| && Displaced(p.items, k, limit))
  {
    hide Ruled, Displaced, Place;
    var es := SortByOffset(actives);
    SortSorts(actives);
    SortKeepsSpans(actives, limit);
    ScanRules(es, |es|, limit);
  }

  /** No entry that went behind the old end had a gap in front of it that would
      have held it. */
  ghost predicate Tight(items: seq<PlanItem>, limit: nat) {
    forall k :: 0 <= k < |items| && items[k].Span() > 0 && items[k].newOff >= limit ==> !GapHolds(items, k, limit)
  }

  /** If nothing was displaced, only a lack of room sends an entry to the end. */
  lemma NothingDisplaced(actives: seq<Source>, limit: nat)
    requires SpansOk(actives, limit) && limit < TWO64
    requires var p := PlanOf(actives, limit); forall k :: 0 <= k < |p.items| ==> !Displaced(p.items, k, limit)
    ensures Tight(PlanOf(actives, limit).items, limit)
  {
    var items := PlanOf(actives, limit).items;
    PlanRules(actives, limit);
    hide PlanOf, FrontEnd, BackEnd, Blocked, Align4k;
    forall k | 0 <= k < |items| && items[k].Span() > 0 && items[k].newOff >= limit
      ensures !GapHolds(items, k, limit)
    {
      assert Ruled(items, k, limit) && !Displaced(items, k, limit);
      if GapHolds(items, k, limit) {
        InOldEnd(actives, limit, k);
      }
    }
  }

  lemma InOldEnd(actives: seq<Source>, limit: nat, k: nat)
    requires SpansOk(actives, limit) && limit < TWO64 && k < |PlanOf(actives, limit).items|
    ensures var i := PlanOf(actives, limit).items[k]; i.oldOff + i.Span() <= limit
  {
    hide PlanOf;
    PlannerSafety(actives, limit);
    SortKeepsSpans(actives, limit);
    assert PlanOf(actives, limit).items[k].From() == SortByOffset(actives)[k];
  }

  // --- the subtraction of line 73 ---

  /** The files with bytes in front of entry i leave no gap before it. */
  predicate PackedBefore(es: seq<Source>, i: nat)
    requires i < |es|
  {
    es[i].offset == SpanSum(es[..i])
  }

  /** Entry n is empty and comes after an entry with bytes that starts at the
      same offset, with no gap before it. */
  ghost predicate EmptyBehind(es: seq<Source>, n: nat)
    requires n < |es|
  {
    es[n].Span() == 0 && exists i ::
      0 <= i < n && es[i].Span() > 0 && es[i].offset == es[n].offset && PackedBefore(es, i)
  }

  /** Where the files fill everything below bound, the scan has moved nothing. */
  lemma {:induction false} PackedScan(es: seq<Source>, n: nat, bound: nat, limit: nat)
    requires n <= |es| && Ordered(es) && SpansOk(es, limit) && SpanSum(es[..n]) == bound
    requires forall i :: 0 <= i < n && es[i].Span() > 0 ==> es[i].offset + es[i].Span() <= bound
    ensures ScanOf(es, n, limit).cursor == bound && ScanOf(es, n, limit).dataEnd == limit
  {
    hide Align4k;
    if n > 0 {
      assert es[..n][..n - 1] == es[..n - 1];
      var last := es[n - 1];
      if last.Span() == 0 {
        PackedScan(es, n - 1, bound, limit);
      } else {
        forall i | 0 <= i < n - 1 && es[i].Span() > 0
          ensures es[i].offset + es[i].Span() <= last.offset
        {
          assert Apart(es[i].offset, es[i].Span(), es[n - 1].offset, es[n - 1].Span());
        }
        SumBelow(es, n - 1, last.offset);
        PackedScan(es, n - 1, last.offset, limit);
      }
    }
  }

  /** An entry with bytes stays exactly when there is no gap before it. */
  lemma StaysIffPacked(es: seq<Source>, i: nat, limit: nat)
    requires i < |es| && Ordered(es) && SpansOk(es, limit) && limit < TWO64 && es[i].Span() > 0
    ensures !ScanOf(es, i + 1, limit).items[i].Moved() <==> PackedBefore(es, i)
  {
    var s := ScanOf(es, i, limit);
    ScanIsOk(es, i, limit);
    ScanTiles(es, i, limit);
    forall k | 0 <= k < i && es[k].Span() > 0
      ensures es[k].offset + es[k].Span() <= es[i].offset
    {
      assert Apart(es[k].offset, es[k].Span(), es[i].offset, es[i].Span());
    }
    SumBelow(es, i, es[i].offset);
    if PackedBefore(es, i) {
      PackedScan(es, i, es[i].offset, limit);
    }
    StaysAtCursor(s, es[i], limit);
  }

  lemma StaysAtCursor(s: Scan, e: Source, limit: nat)
    requires e.Span() > 0 && e.offset + e.Span() <= limit <= s.dataEnd
    ensures !Place(s, e).items[|s.items|].Moved() <==> e.offset == s.cursor
  {
    hide Align4k, HitsMoved, WrapSub;
  }

  /** Later entries do not change what became of an entry. */
  lemma {:induction false} ScanKeeps(es: seq<Source>, i: nat, n: nat, limit: nat)
    requires i < n <= |es|
    ensures ScanOf(es, n, limit).items[i] == ScanOf(es, i + 1, limit).items[i]
  {
    if i + 1 < n {
      hide Align4k, HitsMoved, WrapSub;
      ScanKeeps(es, i, n - 1, limit);
    }
  }

  lemma PlaceDown(s: Scan, e: Source)
    requires e.Span() > 0 && s.cursor <= e.offset < TWO64 && Place(s, e).cursor != s.cursor
    ensures var t := Place(s, e); var i := t.items[|s.items|];
      if i.Moved() then t.cursor <= e.offset else e.offset + e.Span() == t.cursor
  {
    assert WrapSub(e.offset, s.cursor) == e.offset - s.cursor;
  }

  /** The entry whose new place ends at the cursor. */
  lemma {:induction false} CursorEnd(es: seq<Source>, n: nat, limit: nat) returns (i: nat)
    requires n <= |es| && Ordered(es) && SpansOk(es, limit) && limit < TWO64
    requires ScanOf(es, n, limit).cursor > 0
    ensures var s := ScanOf(es, n, limit);
      i < n && es[i].Span() > 0 && (if s.items[i].Moved() then s.cursor <= es[i].offset
                                    else es[i].offset + es[i].Span() == s.cursor)
  {
    var s := ScanOf(es, n - 1, limit);
    var t := ScanOf(es, n, limit);
    if t.cursor == s.cursor {
      i := CursorEnd(es, n - 1, limit);
      assert t.items[i] == s.items[i];
    } else {
      i := n - 1;
      ScanIsOk(es, i, limit);
      PlaceDown(s, es[i]);
    }
  }

  /** e.offset - cursor stays above zero for every entry except exactly those. */
  lemma SubtractionUnderflow(es: seq<Source>, n: nat, limit: nat)
    requires n < |es| && Ordered(es) && SpansOk(es, limit) && limit < TWO64
    ensures es[n].offset < ScanOf(es, n, limit).cursor <==> EmptyBehind(es, n)
  {
    hide Align4k;
    ScanIsOk(es, n, limit);
    var s := ScanOf(es, n, limit);
    if EmptyBehind(es, n) {
      var i :| 0 <= i < n && es[i].Span() > 0 && es[i].offset == es[n].offset && PackedBefore(es, i);
      StaysIffPacked(es, i, limit);
      ScanKeeps(es, i, n, limit);
      assert s.items[i].From() == es[i];
      assert s.items[i].newOff + s.items[i].Span() <= s.cursor;
    }
    if es[n].offset < s.cursor {
      assert es[n].Span() == 0;
      var i := CursorEnd(es, n, limit);
      assert es[i].offset <= es[n].offset;
      assert Apart(es[i].offset, es[i].Span(), es[n].offset, 0);
      StaysIffPacked(es, i, limit);
      ScanKeeps(es, i, n, limit);
    }
  }
}
