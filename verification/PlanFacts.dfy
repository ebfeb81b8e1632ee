/** From the planner's guarantees about sources to the index entries that a
    round moves. */
module PlanFacts {
  import opened Crc
  import opened Wrappers
  import opened Spans
  import opened Files
  import opened Format
  import opened Entries
  import opened Store
  import opened StoreInv
  import P = Planner

  function AsSource(e: Ent): P.Source { P.Source(e.name, e.offset, e.size, e.crc) }

  /** Where in the index each source comes from, in increasing order. */
  function SourcePos(ents: seq<Ent>): (r: seq<nat>)
    ensures |r| == |Sources(ents)|
    ensures forall i :: 0 <= i < |r| ==>
      r[i] < |ents| && ents[r[i]].Active() && Sources(ents)[i] == AsSource(ents[r[i]])
    ensures forall i, j :: 0 <= i < j < |r| ==> r[i] < r[j]
  {
    if ents == [] then []
    else
      var n := |ents| - 1;
      SourcePos(ents[..n]) + (if ents[n].Active() then [n] else [])
  }

  lemma {:induction false} SourcesHave(ents: seq<Ent>, k: nat)
    requires k < |ents| && ents[k].Active()
    ensures AsSource(ents[k]) in Sources(ents)
  {
    if k < |ents| - 1 {
      SourcesHave(ents[..|ents| - 1], k);
    }
  }

  lemma SourcesSpans(ents: seq<Ent>, logical: nat)
    requires SpansInside(ents, logical)
    ensures P.SpansOk(Sources(ents), logical)
    ensures forall i :: 0 <= i < |Sources(ents)| ==> Aligned(Sources(ents)[i].offset)
  {
    hide Align4k;
    var src, pos := Sources(ents), SourcePos(ents);
    forall i, j | 0 <= i < |src| && 0 <= j < |src| && i != j
      ensures Apart(src[i].offset, src[i].Span(), src[j].offset, src[j].Span())
    {
      if i < j {
        assert EntApart(ents[pos[i]], ents[pos[j]]);
      } else {
        assert EntApart(ents[pos[j]], ents[pos[i]]);
      }
    }
  }

  lemma SourcesNames(ents: seq<Ent>)
    requires UniqueNames(ents)
    ensures P.Pairwise(Sources(ents), (a: P.Source, b: P.Source) => a.name != b.name)
  {
    var src, pos := Sources(ents), SourcePos(ents);
    forall i, j | 0 <= i < |src| && 0 <= j < |src| && i != j
      ensures src[i].name != src[j].name
    {
      assert ents[pos[i]].name != ents[pos[j]].name;
    }
  }

  ghost predicate PlanGood(items: seq<P.PlanItem>) {
    && P.TargetsApart(items)
    && P.SourcesSpared(items)
    && (forall i :: 0 <= i < |items| ==> Aligned(items[i].newOff))
    && (forall i, j :: 0 <= i < j < |items| ==> items[i].name != items[j].name)
  }

  /** Entries laid out as the index keeps them, whatever their bytes are. */
  ghost predicate Laid(idx: Img) {
    UniqueNames(idx.ents) && Aligned(idx.logical) && SpansInside(idx.ents, idx.logical) && idx.logical < TWO64
  }

  lemma LaidPlan(idx: Img)
    requires Laid(idx)
    ensures PlanGood(P.PlanOf(Sources(idx.ents), idx.logical).items)
  {
    hide Align4k, P.ScanOf, P.SortByOffset, Sources, P.MaxEnd, P.MovedBytes;
    var src := Sources(idx.ents);
    var sorted := P.SortByOffset(src);
    var items := P.PlanOf(src, idx.logical).items;
    SourcesSpans(idx.ents, idx.logical);
    SourcesNames(idx.ents);
    P.PlannerSafety(src, idx.logical);
    P.SortKeepsPairs(src, (a: P.Source, b: P.Source) => a.name != b.name);
    forall i | 0 <= i < |sorted|
      ensures Aligned(sorted[i].offset)
    {
      assert sorted[i] in multiset(src);
    }
    P.ScanAligned(sorted, |sorted|, idx.logical);
    forall i, j | 0 <= i < j < |items|
      ensures items[i].name != items[j].name
    {
      assert items[i].From() == sorted[i] && items[j].From() == sorted[j];
    }
  }

  lemma PlanIsGood(frozen: Img, plan: P.Plan)
    requires PlanFor(frozen, plan)
    ensures PlanGood(plan.items)
  {
    hide P.PlanOf, Sources;
    LaidPlan(frozen);
  }

  /** Item j moves this entry. */
  ghost predicate Moves(i: P.PlanItem, e: Ent) {
    i.name == e.name && i.oldOff == e.offset && i.size == e.size && i.crc == e.crc
  }

  lemma LaidItem(idx: Img, j: nat) returns (k: nat)
    requires Laid(idx) && j < |P.PlanOf(Sources(idx.ents), idx.logical).items|
    ensures k < |idx.ents| && idx.ents[k].Active()
    ensures Moves(P.PlanOf(Sources(idx.ents), idx.logical).items[j], idx.ents[k])
  {
    hide P.ScanOf, P.SortByOffset, P.MaxEnd, P.MovedBytes, Align4k;
    var src := Sources(idx.ents);
    var items := P.PlanOf(src, idx.logical).items;
    SourcesSpans(idx.ents, idx.logical);
    P.PlannerSafety(src, idx.logical);
    assert items[j].From() in multiset(src);
    var i :| 0 <= i < |src| && src[i] == items[j].From();
    k := SourcePos(idx.ents)[i];
  }

  lemma LaidEnt(idx: Img, e: Ent) returns (j: nat)
    requires Laid(idx) && e in idx.ents && e.Active()
    ensures var items := P.PlanOf(Sources(idx.ents), idx.logical).items; j < |items| && Moves(items[j], e)
  {
    hide P.ScanOf, P.SortByOffset, P.MaxEnd, P.MovedBytes, Align4k;
    var src := Sources(idx.ents);
    var items := P.PlanOf(src, idx.logical).items;
    SourcesSpans(idx.ents, idx.logical);
    P.PlannerSafety(src, idx.logical);
    var k := FindIn(idx.ents, e);
    SourcesHave(idx.ents, k);
    assert AsSource(e) in multiset(P.SortByOffset(src));
    j :| 0 <= j < |items| && P.SortByOffset(src)[j] == AsSource(e);
    assert items[j].From() == AsSource(e);
  }

  lemma ItemEnt(frozen: Img, plan: P.Plan, j: nat) returns (k: nat)
    requires PlanFor(frozen, plan) && j < |plan.items|
    ensures k < |frozen.ents| && frozen.ents[k].Active() && Moves(plan.items[j], frozen.ents[k])
    ensures BodyOf(frozen.ents, plan.items[j].name) == frozen.ents[k].body
    ensures Committed(frozen.ents[k]) && |frozen.ents[k].body| == plan.items[j].size
  {
    hide P.PlanOf, Sources, Align4k, Crc32;
    k := LaidItem(frozen, j);
    FindUnique(frozen.ents, k);
  }

  lemma EntItem(frozen: Img, plan: P.Plan, e: Ent) returns (j: nat)
    requires PlanFor(frozen, plan) && e in frozen.ents && e.Active()
    ensures j < |plan.items| && Moves(plan.items[j], e)
    ensures BodyOf(frozen.ents, e.name) == e.body
  {
    hide P.PlanOf, Sources, Align4k;
    j := LaidEnt(frozen, e);
    var k := FindIn(frozen.ents, e);
  }

  /** Where each kept item stands in the plan, in increasing order. */
  function KeptPos(items: seq<P.PlanItem>, bad: set<Name>): (r: seq<nat>)
    ensures |r| == |Kept(items, bad)|
    ensures forall i :: 0 <= i < |r| ==>
      r[i] < |items| && items[r[i]] == Kept(items, bad)[i] && items[r[i]].name !in bad
    ensures forall i, j :: 0 <= i < j < |r| ==> r[i] < r[j]
  {
    if items == [] then []
    else
      var n := |items| - 1;
      KeptPos(items[..n], bad) + (if items[n].name in bad then [] else [n])
  }

  lemma {:induction false} KeptHas(items: seq<P.PlanItem>, bad: set<Name>, k: nat)
    requires k < |items| && items[k].name !in bad
    ensures items[k] in Kept(items, bad)
  {
    if k < |items| - 1 {
      KeptHas(items[..|items| - 1], bad, k);
    }
  }

  lemma {:induction false} MaxEndAligned(items: seq<P.PlanItem>)
    requires forall i :: 0 <= i < |items| ==> Aligned(items[i].newOff)
    ensures Aligned(P.MaxEnd(items))
  {
    hide Align4k;
    if items != [] {
      var i := items[|items| - 1];
      MaxEndAligned(items[..|items| - 1]);
      Align4kLeast(i.size);
      P.AlignedSum(i.newOff, i.Span());
    }
  }

  /** The index that Finalize writes is well formed. */
  lemma FinalizedOk(frozen: Img, plan: P.Plan, bad: set<Name>)
    requires PlanFor(frozen, plan)
    ensures IdxOk(Finalized(frozen, plan, bad))
  {
    hide Align4k, P.PlanOf, Kept, Crc32, BodyOf, P.MaxEnd;
    PlanIsGood(frozen, plan);
    var kept, pos := Kept(plan.items, bad), KeptPos(plan.items, bad);
    var n := Finalized(frozen, plan, bad);
    P.MaxEndBounds(kept);
    MaxEndAligned(kept);
    forall i | 0 <= i < |n.ents|
      ensures Committed(n.ents[i])
    {
      var k := ItemEnt(frozen, plan, pos[i]);
    }
    forall i, j | 0 <= i < j < |n.ents|
      ensures n.ents[i].name != n.ents[j].name && EntApart(n.ents[i], n.ents[j])
    {
      assert n.ents[i].Span() == plan.items[pos[i]].Span() && n.ents[j].Span() == plan.items[pos[j]].Span();
    }
  }

  lemma MarkBadOk(idx: Img, bad: set<Name>)
    requires IdxOk(idx)
    ensures IdxOk(idx.(ents := MarkBad(idx.ents, bad)))
  {
    hide Align4k, Crc32;
    var m := MarkBad(idx.ents, bad);
    forall i, j | 0 <= i < j < |m|
      ensures m[i].name != m[j].name && EntApart(m[i], m[j])
    {
      assert EntApart(idx.ents[i], idx.ents[j]);
    }
  }

  // --- an index on which the planner's subtraction wraps ---

  /** The empty index, then an alloc of d and e without bytes and of y with one. */
  function ThreeAllocs(d: Name, e: Name, y: Name): Result<Img> {
    match AllocIdx(Img(1, 0, []), false, d, 0)
    case Err(x) => Err(x)
    case Ok(one) =>
      match AllocIdx(one, false, e, 0)
      case Err(x) => Err(x)
      case Ok(two) => AllocIdx(two, false, y, 1)
  }

  /** y and e are committed, d is aborted, which puts y in front of e. */
  function YBeforeE(idx: Img, d: Name, e: Name, y: Name, body: seq<u8>): Result<Img> {
    match CommitIdx(idx, false, y, Crc32(body), body)
    case Err(x) => Err(x)
    case Ok(one) =>
      match CommitIdx(one, false, e, Crc32([]), [])
      case Err(x) => Err(x)
      case Ok(two) => Ok(AbortIdx(two, d))
  }

  ghost predicate Names3(d: Name, e: Name, y: Name) {
    && 0 < |d| <= MAX_NAME && 0 < |e| <= MAX_NAME && 0 < |y| <= MAX_NAME
    && d != e && d != y && e != y
  }

  lemma AllocNew(idx: Img, name: Name, size: nat)
    requires 0 < |name| <= MAX_NAME && idx.logical == 0 && forall i :: 0 <= i < |idx.ents| ==> idx.ents[i].name != name
    ensures AllocIdx(idx, false, name, size)
         == Ok(Img(idx.gen + 1, Align4k(size), idx.ents + [Ent(name, ST_DOWNLOADING, 0, size, 0, [])]))
  {
    var f := Find(idx.ents, name);
    assert Align4k(0) == 0;
  }

  lemma CommitAt(idx: Img, i: nat, body: seq<u8>)
    requires i < |idx.ents| && UniqueNames(idx.ents) && idx.ents[i].state == ST_DOWNLOADING
    ensures CommitIdx(idx, false, idx.ents[i].name, Crc32(body), body)
         == Ok(idx.(gen := idx.gen + 1,
                    ents := idx.ents[i := idx.ents[i].(state := ST_ACTIVE, crc := Crc32(body), body := body)]))
  {
    hide Crc32, Find;
    FindUnique(idx.ents, i);
  }

  lemma ThreeAllocsOk(d: Name, e: Name, y: Name)
    requires Names3(d, e, y)
    ensures ThreeAllocs(d, e, y)
         == Ok(Img(4, ALIGN, [Ent(d, ST_DOWNLOADING, 0, 0, 0, []), Ent(e, ST_DOWNLOADING, 0, 0, 0, []),
                              Ent(y, ST_DOWNLOADING, 0, 1, 0, [])]))
  {
    hide AllocIdx;
    assert Align4k(0) == 0 && Align4k(1) == ALIGN;
    var a, b, c := Ent(d, ST_DOWNLOADING, 0, 0, 0, []), Ent(e, ST_DOWNLOADING, 0, 0, 0, []),
      Ent(y, ST_DOWNLOADING, 0, 1, 0, []);
    AllocNew(Img(1, 0, []), d, 0);
    assert [] + [a] == [a];
    assert AllocIdx(Img(1, 0, []), false, d, 0) == Ok(Img(2, 0, [a]));
    AllocNew(Img(2, 0, [a]), e, 0);
    assert [a] + [b] == [a, b];
    assert AllocIdx(Img(2, 0, [a]), false, e, 0) == Ok(Img(3, 0, [a, b]));
    AllocNew(Img(3, 0, [a, b]), y, 1);
    assert [a, b] + [c] == [a, b, c];
  }

  /** Calls that any program may make lead the planner to an entry that lies
      before its cursor. */
  lemma UnderflowHappens(d: Name, e: Name, y: Name, body: seq<u8>)
    requires Names3(d, e, y) && |body| == 1
    ensures ThreeAllocs(d, e, y).Ok? && YBeforeE(ThreeAllocs(d, e, y).value, d, e, y, body).Ok?
    ensures var idx := YBeforeE(ThreeAllocs(d, e, y).value, d, e, y, body).value;
      var es := P.SortByOffset(Sources(idx.ents));
      |es| == 2 && P.EmptyBehind(es, 1) && es[1].offset < P.ScanOf(es, 1, idx.logical).cursor
  {
    hide Crc32, Sources, P.SortByOffset, YBeforeE, ThreeAllocs, P.EmptyBehind, P.ScanOf;
    UnderflowIndex(d, e, y, body);
    var c, b := Ent(y, ST_ACTIVE, 0, 1, Crc32(body), body), Ent(e, ST_ACTIVE, 0, 0, Crc32([]), []);
    var idx := YBeforeE(ThreeAllocs(d, e, y).value, d, e, y, body).value;
    assert idx.ents == [c, b];
    TwoSources(c, b);
    assert Sources(idx.ents) == [AsSource(c), AsSource(b)];
    TwoSorted(AsSource(c), AsSource(b));
    TwoUnderflow(AsSource(c), AsSource(b));
  }

  lemma TwoSources(c: Ent, b: Ent)
    requires c.Active() && b.Active()
    ensures Sources([c, b]) == [AsSource(c), AsSource(b)]
  {
    assert [c, b][..1] == [c] && [c][..0] == [];
    assert Sources([c]) == [AsSource(c)];
  }

  lemma TwoSorted(c: P.Source, b: P.Source)
    requires c.offset <= b.offset
    ensures P.SortByOffset([c, b]) == [c, b]
  {
    assert [c, b][1..] == [b] && [b][1..] == [];
    assert P.SortByOffset([b]) == [b];
  }

  lemma TwoUnderflow(c: P.Source, b: P.Source)
    requires c.offset == 0 == b.offset && c.size == 1 && b.size == 0
    ensures P.EmptyBehind([c, b], 1) && b.offset < P.ScanOf([c, b], 1, ALIGN).cursor
  {
    var es := [c, b];
    assert es[..0] == [];
    assert P.PackedBefore(es, 0) && es[0].Span() == ALIGN;
    assert P.ScanOf(es, 0, ALIGN) == P.Scan(0, ALIGN, [], false);
  }

  lemma UnderflowIndex(d: Name, e: Name, y: Name, body: seq<u8>)
    requires Names3(d, e, y) && |body| == 1
    ensures ThreeAllocs(d, e, y).Ok?
    ensures var r := YBeforeE(ThreeAllocs(d, e, y).value, d, e, y, body);
      r.Ok? && r.value.logical == ALIGN
      && r.value.ents == [Ent(y, ST_ACTIVE, 0, 1, Crc32(body), body), Ent(e, ST_ACTIVE, 0, 0, Crc32([]), [])]
  {
    hide Crc32, Align4k, CommitIdx, ThreeAllocs, Find;
    ThreeAllocsOk(d, e, y);
    var a, b := Ent(d, ST_DOWNLOADING, 0, 0, 0, []), Ent(e, ST_DOWNLOADING, 0, 0, 0, []);
    var idx := ThreeAllocs(d, e, y).value;
    var c, f := Ent(y, ST_ACTIVE, 0, 1, Crc32(body), body), Ent(e, ST_ACTIVE, 0, 0, Crc32([]), []);
    CommitAt(idx, 2, body);
    var one := Img(5, ALIGN, [a, b, c]);
    assert idx.ents[2 := c] == [a, b, c];
    CommitAt(one, 1, []);
    var two := Img(6, ALIGN, [a, f, c]);
    assert [a, b, c][1 := f] == [a, f, c];
    FindUnique(two.ents, 0);
    assert SwapRemove(two.ents, 0) == [c, f];
  }
}
