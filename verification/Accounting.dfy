/** The figures of stat: aligned spans never overlap, so their sum is the
    number of bytes they cover, and garbage is what no entry covers. */
module Accounting {
  import opened Spans
  import opened Format
  import opened Entries

  /** Sum of the spans of the entries in a state. */
  function SumIn(ents: seq<Ent>, state: nat): nat {
    if ents == [] then 0
    else
      var e := ents[|ents| - 1];
      SumIn(ents[..|ents| - 1], state) + if e.state == state then e.Span() else 0
  }

  function SumAll(ents: seq<Ent>): nat {
    if ents == [] then 0 else SumAll(ents[..|ents| - 1]) + ents[|ents| - 1].Span()
  }

  ghost function Covered(ents: seq<Ent>): set<nat> {
    if ents == [] then {}
    else Covered(ents[..|ents| - 1]) + Bytes(ents[|ents| - 1].offset, ents[|ents| - 1].Span())
  }

  ghost function Bytes(off: nat, len: nat): set<nat> {
    set p: nat | off <= p < off + len && Within(p, off, len)
  }

  predicate Within(p: nat, off: nat, len: nat) { off <= p < off + len }

  lemma {:induction false} BytesCount(off: nat, len: nat)
    ensures |Bytes(off, len)| == len
    decreases len
  {
    if len == 0 {
      assert Bytes(off, len) == {};
    } else {
      BytesCount(off, len - 1);
      assert Bytes(off, len) == Bytes(off, len - 1) + {off + len - 1};
    }
  }

  lemma {:induction false} CoveredWhere(ents: seq<Ent>, p: nat)
    ensures p in Covered(ents) <==> exists i :: 0 <= i < |ents| && ents[i].offset <= p < ents[i].offset + ents[i].Span()
  {
    hide Align4k;
    if ents != [] {
      var n := |ents| - 1;
      CoveredWhere(ents[..n], p);
      if p in Covered(ents[..n]) {
        var i :| 0 <= i < n && ents[..n][i].offset <= p < ents[..n][i].offset + ents[..n][i].Span();
        assert ents[i] == ents[..n][i];
      }
      if i :| 0 <= i < n && ents[i].offset <= p < ents[i].offset + ents[i].Span() {
        assert ents[i] == ents[..n][i];
      }
    }
  }

  lemma {:induction false} CoveredCount(ents: seq<Ent>, logical: nat)
    requires SpansInside(ents, logical)
    ensures |Covered(ents)| == SumAll(ents) && Covered(ents) <= Bytes(0, logical)
  {
    hide Align4k;
    if ents != [] {
      var n := |ents| - 1;
      CoveredCount(ents[..n], logical);
      var last := Bytes(ents[n].offset, ents[n].Span());
      forall p | p in Covered(ents[..n])
        ensures p !in last
      {
        CoveredWhere(ents[..n], p);
        var i :| 0 <= i < n && ents[..n][i].offset <= p < ents[..n][i].offset + ents[..n][i].Span();
        assert EntApart(ents[i], ents[n]);
      }
      BytesCount(ents[n].offset, ents[n].Span());
      assert Covered(ents[..n]) !! last;
    }
  }

  /** stat's subtraction never saturates, and garbage counts exactly the bytes
      below logical that lie in no entry's span. */
  lemma GarbageIsUncovered(ents: seq<Ent>, logical: nat)
    requires SpansInside(ents, logical)
    ensures SumAll(ents) <= logical
    ensures logical - SumAll(ents) == |Bytes(0, logical) - Covered(ents)|
  {
    CoveredCount(ents, logical);
    BytesCount(0, logical);
    Difference(Bytes(0, logical), Covered(ents));
  }

  lemma Difference(a: set<nat>, b: set<nat>)
    requires b <= a
    ensures |a - b| == |a| - |b|
  {
    assert a == (a - b) + b;
  }

  /** Every entry is counted in exactly one state. */
  lemma {:induction false} SumSplits(ents: seq<Ent>)
    requires forall i :: 0 <= i < |ents| ==> ents[i].state <= ST_BAD
    ensures SumAll(ents) == SumIn(ents, ST_ACTIVE) + SumIn(ents, ST_DELETED) + SumIn(ents, ST_DOWNLOADING)
      + SumIn(ents, ST_BAD)
  {
    hide Align4k;
    if ents != [] {
      SumSplits(ents[..|ents| - 1]);
    }
  }

  // --- the bytes of one state ---

  ghost predicate LiesIn(e: Ent, state: nat, p: nat) {
    e.state == state && e.offset <= p < e.offset + e.Span()
  }

  ghost predicate InState(ents: seq<Ent>, state: nat, p: nat) {
    exists i :: 0 <= i < |ents| && LiesIn(ents[i], state, p)
  }

  /** The bytes that belong to entries in this state. */
  ghost function BytesIn(ents: seq<Ent>, state: nat, logical: nat): set<nat> {
    set p: nat | 0 <= p < logical && InState(ents, state, p)
  }

  lemma InStateLast(ents: seq<Ent>, state: nat, p: nat)
    requires ents != []
    ensures var n := |ents| - 1; InState(ents, state, p) <==> InState(ents[..n], state, p) || LiesIn(ents[n], state, p)
  {
    hide LiesIn;
    var n := |ents| - 1;
    if InState(ents, state, p) {
      var i :| 0 <= i < |ents| && LiesIn(ents[i], state, p);
      if i < n {
        assert LiesIn(ents[..n][i], state, p);
      }
    }
    if InState(ents[..n], state, p) {
      var i :| 0 <= i < n && LiesIn(ents[..n][i], state, p);
      assert LiesIn(ents[i], state, p);
    }
  }

  lemma BytesInLast(ents: seq<Ent>, state: nat, logical: nat)
    requires ents != [] && SpansInside(ents, logical)
    ensures var n := |ents| - 1;
      var rest, last := BytesIn(ents[..n], state, logical), Bytes(ents[n].offset, ents[n].Span());
      && rest !! last
      && BytesIn(ents, state, logical) == if ents[n].state == state then rest + last else rest
  {
    hide Align4k, InState;
    var n := |ents| - 1;
    var rest, last := BytesIn(ents[..n], state, logical), Bytes(ents[n].offset, ents[n].Span());
    forall p: nat
      ensures InState(ents, state, p) <==> InState(ents[..n], state, p) || LiesIn(ents[n], state, p)
    {
      InStateLast(ents, state, p);
    }
    forall p | p in rest
      ensures p !in last
    {
      NotInLast(ents, state, logical, p);
    }
  }

  lemma NotInLast(ents: seq<Ent>, state: nat, logical: nat, p: nat)
    requires ents != [] && SpansInside(ents, logical) && InState(ents[..|ents| - 1], state, p)
    ensures var e := ents[|ents| - 1]; !(e.offset <= p < e.offset + e.Span())
  {
    hide Align4k;
    var n := |ents| - 1;
    var i :| 0 <= i < n && LiesIn(ents[..n][i], state, p);
    assert EntApart(ents[i], ents[n]);
  }

  /** Each figure of stat is the number of bytes that its entries own. */
  lemma {:induction false} SumInCounts(ents: seq<Ent>, state: nat, logical: nat)
    requires SpansInside(ents, logical)
    ensures SumIn(ents, state) == |BytesIn(ents, state, logical)|
  {
    hide Align4k, Bytes, InState;
    if ents == [] {
      NoBytes(state, logical);
    } else {
      var n := |ents| - 1;
      SumInCounts(ents[..n], state, logical);
      BytesCount(ents[n].offset, ents[n].Span());
      hide SpansInside, BytesIn;
      BytesInLast(ents, state, logical);
    }
  }

  lemma NoBytes(state: nat, logical: nat)
    ensures BytesIn([], state, logical) == {}
  {
  }
}
