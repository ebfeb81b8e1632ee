/** The queue of dlmgr/mod.rs: the order of HeapTask, and the operations that
    drain the heap and build it again. The heap is a sequence in no particular
    order; pop takes its greatest element. */
module TaskQueue {
  import opened Wrappers

  datatype HeapTask = HeapTask(priority: int, seqNo: nat, id: nat)

  /** a is dispatched before b: higher priority, then first come. */
  predicate Before(a: HeapTask, b: HeapTask) {
    a.priority > b.priority || (a.priority == b.priority && a.seqNo < b.seqNo)
  }

  /** Where the greatest element is; of equal ones the first. */
  function Best(q: seq<HeapTask>): (k: nat)
    requires q != []
    ensures k < |q|
  {
    if |q| == 1 then 0
    else
      var n := |q| - 1;
      var k := Best(q[..n]);
      if Before(q[n], q[k]) then n else k
  }

  function WithoutAt(q: seq<HeapTask>, k: nat): (r: seq<HeapTask>)
    requires k < |q|
    ensures |r| == |q| - 1
  {
    q[..k] + q[k + 1..]
  }

  function WithoutId(q: seq<HeapTask>, id: nat): (r: seq<HeapTask>)
    ensures forall t :: t in r <==> t in q && t.id != id
  {
    if q == [] then []
    else WithoutId(q[..|q| - 1], id) + (if q[|q| - 1].id == id then [] else [q[|q| - 1]])
  }

  function Reprioritized(q: seq<HeapTask>, id: nat, priority: int): (r: seq<HeapTask>)
    ensures |r| == |q|
    ensures forall i :: 0 <= i < |q| ==> r[i] == if q[i].id == id then q[i].(priority := priority) else q[i]
  {
    seq(|q|, i requires 0 <= i < |q| => if q[i].id == id then q[i].(priority := priority) else q[i])
  }

  predicate HasId(q: seq<HeapTask>, id: nat) {
    exists t :: t in q && t.id == id
  }

  ghost predicate Distinct(q: seq<HeapTask>) {
    forall i, j :: 0 <= i < j < |q| ==> q[i].id != q[j].id && q[i].seqNo != q[j].seqNo
  }

  /** A pop takes the highest priority and within it the lowest number. */
  lemma {:induction false} BestIsFirst(q: seq<HeapTask>)
    requires q != [] && Distinct(q)
    ensures forall i :: 0 <= i < |q| && i != Best(q) ==> Before(q[Best(q)], q[i])
  {
    if |q| > 1 {
      var n := |q| - 1;
      BestIsFirst(q[..n]);
      var k := Best(q[..n]);
      forall i | 0 <= i < |q| && i != Best(q)
        ensures Before(q[Best(q)], q[i])
      {
        if i < n && i != k {
          assert Before(q[..n][k], q[..n][i]);
        }
      }
    }
  }

  class Queue {
    var heap: seq<HeapTask>
    var paused: bool
    var shutdown: bool
    var nextSeq: nat

    constructor ()
      ensures heap == [] && !paused && !shutdown && nextSeq == 0
    {
      heap, paused, shutdown, nextSeq := [], false, false, 0;
    }

    /** The queue's part of enqueue. */
    method Push(priority: int, id: nat) returns (accepted: bool)
      modifies this`heap, this`nextSeq
      ensures accepted == !shutdown
      ensures accepted ==> nextSeq == old(nextSeq) + 1 && heap == old(heap) + [HeapTask(priority, nextSeq, id)]
      ensures !accepted ==> heap == old(heap) && nextSeq == old(nextSeq)
    {
      if shutdown {
        return false;
      }
      nextSeq := nextSeq + 1;
      heap := heap + [HeapTask(priority, nextSeq, id)];
      accepted := true;
    }

    /** take_task without the waiting: None when the worker has to wait or exit. */
    method Take() returns (t: Option<HeapTask>)
      requires Distinct(heap)
      modifies this`heap
      ensures t.Some? <==> !shutdown && !paused && old(heap) != []
      ensures t.Some? ==>
        t.value in old(heap) && heap == WithoutAt(old(heap), Best(old(heap)))
        && t.value == old(heap)[Best(old(heap))]
      ensures t.Some? ==> forall o :: o in heap ==> Before(t.value, o)
      ensures t.None? ==> heap == old(heap)
    {
      if shutdown || paused || heap == [] {
        return None;
      }
      BestIsFirst(heap);
      var k := 0;
      for i := 1 to |heap|
        invariant k < |heap| && k == Best(heap[..i])
      {
        assert heap[..i + 1][..i] == heap[..i];
        if Before(heap[i], heap[k]) {
          k := i;
        }
      }
      assert heap[..|heap|] == heap;
      t := Some(heap[k]);
      heap := WithoutAt(heap, k);
    }

    /** remove_queued: drains the heap and pushes back what stays. */
    method RemoveQueued(id: nat) returns (removed: bool)
      modifies this`heap
      ensures heap == WithoutId(old(heap), id) && removed == HasId(old(heap), id)
    {
      if heap == [] {
        return false;
      }
      removed := false;
      var drained := heap;
      heap := [];
      for i := 0 to |drained|
        invariant heap == WithoutId(drained[..i], id) && removed == HasId(drained[..i], id)
      {
        assert drained[..i + 1][..i] == drained[..i];
        HasNext(drained, i, id);
        if drained[i].id == id {
          removed := true;
        } else {
          heap := heap + [drained[i]];
        }
      }
      assert drained[..|drained|] == drained;
    }

    /** set_priority: only a queued task can change, and it keeps its number. */
    method SetPriority(id: nat, priority: int) returns (changed: bool)
      modifies this`heap
      ensures heap == Reprioritized(old(heap), id, priority) && changed == HasId(old(heap), id)
    {
      if heap == [] {
        assert Reprioritized(heap, id, priority) == [];
        return false;
      }
      changed := false;
      var drained := heap;
      heap := [];
      for i := 0 to |drained|
        invariant heap == Reprioritized(drained[..i], id, priority) && changed == HasId(drained[..i], id)
      {
        HasNext(drained, i, id);
        if drained[i].id == id {
          changed := true;
          heap := heap + [drained[i].(priority := priority)];
        } else {
          heap := heap + [drained[i]];
        }
      }
      assert drained[..|drained|] == drained;
    }
  }

  lemma HasNext(q: seq<HeapTask>, i: nat, id: nat)
    requires i < |q|
    ensures HasId(q[..i + 1], id) <==> HasId(q[..i], id) || q[i].id == id
  {
    assert q[..i + 1] == q[..i] + [q[i]];
    if HasId(q[..i], id) {
      var t :| t in q[..i] && t.id == id;
      assert t in q[..i + 1];
    }
    if q[i].id == id {
      assert q[i] in q[..i + 1];
    }
  }
}
