/** What holds in every reachable state of the download manager: where each
    task is. */
module SchedulerInv {
  import opened Wrappers
  import opened Tasks
  import opened TaskQueue
  import opened Scheduler

  function Gone(tick: Option<Tick>): set<nat> { if tick.Some? then tick.value.gone else {} }

  predicate Active(s: TaskState) { s.Running? || s.Verifying? }

  /** Every number handed out is that of a task in the table or a retired one. */
  ghost predicate IdsOk(nextId: nat, keys: set<nat>, retired: set<nat>) {
    && (forall id :: id in keys || id in retired <==> 1 <= id <= nextId)
    && keys !! retired
  }

  ghost predicate QueueOk(queue: seq<HeapTask>, tasks: map<nat, TaskRec>, nextSeq: nat) {
    Distinct(queue) && forall i :: 0 <= i < |queue| ==>
      queue[i].id in tasks && tasks[queue[i].id].state == Pending && queue[i].seqNo <= nextSeq
  }

  ghost predicate RunningOk(running: map<nat, nat>, workers: set<nat>, tasks: map<nat, TaskRec>) {
    && (forall w :: w in running ==> w in workers && running[w] in tasks && Active(tasks[running[w]].state))
    && (forall w, v :: w in running && v in running && w != v ==> running[w] != running[v])
  }

  ghost predicate CancelingOk(canceling: set<nat>, queue: seq<HeapTask>, tasks: map<nat, TaskRec>) {
    forall id :: id in canceling ==> id in tasks && tasks[id].state == Pending && !HasId(queue, id)
  }

  ghost predicate SomeWorker(running: map<nat, nat>, id: nat) {
    exists w :: w in running && running[w] == id
  }

  /** No task is lost. */
  ghost predicate PlacedOk(tasks: map<nat, TaskRec>, queue: seq<HeapTask>, canceling: set<nat>, running: map<nat,
      nat>) {
    forall id :: id in tasks ==>
      && (tasks[id].state == Pending ==> HasId(queue, id) || id in canceling)
      && (Active(tasks[id].state) ==> SomeWorker(running, id))
  }

  ghost predicate TickOk(tick: Option<Tick>, tasks: map<nat, TaskRec>, nextId: nat) {
    tick.Some? ==>
      var k := tick.value;
      && k.pending <= tasks.Keys && k.gone <= tasks.Keys && k.pending !! k.gone && k.upTo <= nextId
      && (forall id :: id in k.gone ==> Terminal(tasks[id].state))
      && (forall id :: id in k.pending ==> id <= k.upTo)
  }

  ghost predicate PrevOk(prev: map<nat, (TaskState, nat)>, keys: set<nat>) {
    forall id :: id in prev ==> id in keys && !Terminal(prev[id].0)
  }

  ghost predicate ShutOk(s: State) {
    && (s.shutdown ==> !s.paused)
    && (s.drained ==> s.shutdown && s.queue == [])
    && (s.stop ==> s.drained && s.workers == {} && s.canceling == {})
    && (!s.looping ==> s.stop)
    && (!s.looping && s.tick.Some? ==> s.tick.value.pending + s.tick.value.gone == s.tasks.Keys)
    && (s.exited ==> !s.looping && s.tick.None? && s.tasks == map[])
  }

  ghost predicate Inv(s: State) {
    && IdsOk(s.nextId, s.tasks.Keys, s.retired)
    && QueueOk(s.queue, s.tasks, s.nextSeq)
    && RunningOk(s.running, s.workers, s.tasks)
    && s.open <= s.running.Keys
    && CancelingOk(s.canceling, s.queue, s.tasks)
    && PlacedOk(s.tasks, s.queue, s.canceling, s.running)
    && TickOk(s.tick, s.tasks, s.nextId)
    && PrevOk(s.prev, s.tasks.Keys)
    && ShutOk(s)
  }

  // --- changes of a record that leave its task where it is ---

  ghost predicate SamePlaces(t: map<nat, TaskRec>, u: map<nat, TaskRec>) {
    && t.Keys == u.Keys
    && forall id :: id in t ==>
         (t[id].state == Pending <==> u[id].state == Pending) && (Active(t[id].state) <==> Active(u[id].state))
  }

  lemma SamePlacesKeep(s: State, u: map<nat, TaskRec>)
    requires Inv(s) && SamePlaces(s.tasks, u)
    ensures Inv(s.(tasks := u))
  {
    hide HasId, SomeWorker, Distinct;
  }

  lemma RecordKeeps(s: State, a: Action)
    requires Inv(s) && Step(s, a).Some? && (a.CancelFlag? || a.Progress? || a.Verify?)
    ensures Inv(Step(s, a).value)
  {
    hide QueueOk, CancelingOk, PlacedOk, TickOk, PrevOk, IdsOk, ShutOk;
    var t := Step(s, a).value;
    assert SamePlaces(s.tasks, t.tasks);
    SamePlacesKeep(s, t.tasks);
  }

  // --- the queue ---

  lemma EnqueueKeeps(s: State, size: nat, priority: int)
    requires Inv(s) && Step(s, Enqueue(size, priority)).Some?
    ensures Inv(Step(s, Enqueue(size, priority)).value)
  {
    hide SomeWorker;
    var t := Step(s, Enqueue(size, priority)).value;
    HasAppended(s.queue, t.queue[|s.queue|]);
    assert s.nextId + 1 !in s.tasks && s.nextId + 1 !in s.retired;
  }

  lemma HasAppended(q: seq<HeapTask>, t: HeapTask)
    ensures forall id :: HasId(q + [t], id) <==> HasId(q, id) || t.id == id
  {
    forall id
      ensures HasId(q + [t], id) <==> HasId(q, id) || t.id == id
    {
      if HasId(q, id) {
        var x :| x in q && x.id == id;
        assert x in q + [t];
      }
      assert t in q + [t];
    }
  }

  lemma {:induction false} WithoutIdKeeps(q: seq<HeapTask>, id: nat)
    requires Distinct(q)
    ensures Distinct(WithoutId(q, id))
    ensures forall x :: HasId(WithoutId(q, id), x) <==> HasId(q, x) && x != id
  {
    WithoutIdDistinct(q, id);
    forall x
      ensures HasId(WithoutId(q, id), x) <==> HasId(q, x) && x != id
    {
      if HasId(q, x) && x != id {
        var t :| t in q && t.id == x;
        assert t in WithoutId(q, id);
      }
    }
  }

  lemma {:induction false} WithoutIdDistinct(q: seq<HeapTask>, id: nat)
    requires Distinct(q)
    ensures Distinct(WithoutId(q, id))
  {
    if q != [] {
      var n := |q| - 1;
      WithoutIdDistinct(q[..n], id);
      var r := WithoutId(q[..n], id);
      forall i | 0 <= i < |r|
        ensures r[i].id != q[n].id && r[i].seqNo != q[n].seqNo
      {
        assert r[i] in q[..n];
        var j :| 0 <= j < n && q[..n][j] == r[i];
        assert q[j] == r[i];
      }
    }
  }

  lemma InQueue(queue: seq<HeapTask>, tasks: map<nat, TaskRec>, nextSeq: nat)
    requires QueueOk(queue, tasks, nextSeq)
    ensures forall t :: t in queue ==> t.id in tasks && tasks[t.id].state == Pending && t.seqNo <= nextSeq
    ensures forall id :: HasId(queue, id) ==> id in tasks && tasks[id].state == Pending
  {
  }

  lemma CancelQueuedKeeps(s: State, id: nat)
    requires Inv(s) && Step(s, CancelQueued(id)).Some?
    ensures Inv(Step(s, CancelQueued(id)).value)
  {
    hide SomeWorker, WithoutId, HasId, Distinct;
    WithoutIdKeeps(s.queue, id);
    InQueue(s.queue, s.tasks, s.nextSeq);
    var q := WithoutId(s.queue, id);
    forall i | 0 <= i < |q|
      ensures q[i] in s.queue
    {
      assert q[i] in q;
    }
  }

  lemma SetPriorityKeeps(s: State, id: nat, priority: int)
    requires Inv(s) && Step(s, SetPriority(id, priority)).Some?
    ensures Inv(Step(s, SetPriority(id, priority)).value)
  {
    hide SomeWorker, HasId, TickOk, PrevOk, IdsOk, RunningOk;
    var q := Reprioritized(s.queue, id, priority);
    forall x
      ensures HasId(q, x) <==> HasId(s.queue, x)
    {
      SameIds(s.queue, q, x);
    }
  }

  lemma SameIds(a: seq<HeapTask>, b: seq<HeapTask>, x: nat)
    requires |a| == |b| && forall i :: 0 <= i < |a| ==> a[i].id == b[i].id
    ensures HasId(a, x) <==> HasId(b, x)
  {
    if HasId(a, x) {
      var t :| t in a && t.id == x;
      var i :| 0 <= i < |a| && a[i] == t;
      assert b[i] in b;
    }
    if HasId(b, x) {
      var t :| t in b && t.id == x;
      var i :| 0 <= i < |b| && b[i] == t;
      assert a[i] in a;
    }
  }

  /** cancel_all empties the queue; its tasks are canceled one by one. */
  lemma DrainKeeps(s: State, a: Action)
    requires Inv(s) && Step(s, a).Some? && (a.DrainAll? || a.ShutDrain?)
    ensures Inv(Step(s, a).value)
  {
    hide SomeWorker, Distinct, IdsOk;
    InQueue(s.queue, s.tasks, s.nextSeq);
    var t := Step(s, a).value;
    assert SamePlaces(s.tasks, t.tasks);
    forall id
      ensures !HasId([], id)
      ensures id in Ids(s.queue) <==> HasId(s.queue, id)
    {
    }
    DistinctNone();
  }

  lemma DistinctNone()
    ensures Distinct([])
  {
  }

  lemma MarkKeeps(s: State, id: nat)
    requires Inv(s) && Step(s, CancelMark(id)).Some?
    ensures Inv(Step(s, CancelMark(id)).value)
  {
    hide SomeWorker, Distinct, HasId;
    InQueue(s.queue, s.tasks, s.nextSeq);
    var t := Step(s, CancelMark(id)).value;
    assert !HasId(s.queue, id);
    forall i | 0 <= i < |s.queue|
      ensures s.queue[i].id != id
    {
      InHasId(s.queue, i);
    }
  }

  lemma InHasId(q: seq<HeapTask>, i: nat)
    requires i < |q|
    ensures HasId(q, q[i].id)
  {
    assert q[i] in q;
  }

  // --- workers ---

  lemma TakeKeeps(s: State, w: nat)
    requires Inv(s) && Step(s, Take(w)).Some?
    ensures Inv(Step(s, Take(w)).value)
  {
    hide Distinct, HasId, SomeWorker, Best;
    var k := Best(s.queue);
    var h := s.queue[k];
    var t := Step(s, Take(w)).value;
    WithoutAtKeeps(s.queue, k);
    InQueue(s.queue, s.tasks, s.nextSeq);
    InHasId(s.queue, k);
    forall id
      ensures SomeWorker(t.running, id) <==> SomeWorker(s.running, id) || id == h.id
    {
      WorkerAdded(s.running, w, h.id, id);
    }
    forall i | 0 <= i < |t.queue|
      ensures t.queue[i] in s.queue && t.queue[i].id != h.id
    {
      assert t.queue[i] in t.queue;
      InHasId(t.queue, i);
    }
  }

  lemma WorkerAdded(running: map<nat, nat>, w: nat, id: nat, x: nat)
    requires w !in running
    ensures SomeWorker(running[w := id], x) <==> SomeWorker(running, x) || x == id
  {
    var r := running[w := id];
    if SomeWorker(running, x) {
      var v :| v in running && running[v] == x;
      assert v in r && r[v] == x;
    }
    if x == id {
      assert w in r && r[w] == x;
    }
  }

  lemma WithoutAtKeeps(q: seq<HeapTask>, k: nat)
    requires Distinct(q) && k < |q|
    ensures Distinct(WithoutAt(q, k))
    ensures forall t :: t in WithoutAt(q, k) ==> t in q
    ensures forall x :: HasId(WithoutAt(q, k), x) <==> HasId(q, x) && x != q[k].id
  {
    hide HasId;
    var r := WithoutAt(q, k);
    forall i | 0 <= i < |r|
      ensures r[i] == q[if i < k then i else i + 1]
    {
    }
    forall x
      ensures HasId(r, x) <==> HasId(q, x) && x != q[k].id
    {
      WithoutAtHas(q, k, x);
    }
  }

  lemma WithoutAtHas(q: seq<HeapTask>, k: nat, x: nat)
    requires Distinct(q) && k < |q|
    ensures HasId(WithoutAt(q, k), x) <==> HasId(q, x) && x != q[k].id
  {
    var r := WithoutAt(q, k);
    if HasId(q, x) && x != q[k].id {
      var t :| t in q && t.id == x;
      var j :| 0 <= j < |q| && q[j] == t;
      assert r[if j < k then j else j - 1] == t;
    }
    if HasId(r, x) {
      var t :| t in r && t.id == x;
      var j :| 0 <= j < |r| && r[j] == t;
      assert q[if j < k then j else j + 1] == t;
    }
  }

  lemma EndKeeps(s: State, w: nat, state: TaskState, err: TaskErr)
    requires Inv(s) && Step(s, End(w, state, err)).Some?
    ensures Inv(Step(s, End(w, state, err)).value)
  {
    hide Distinct, HasId, SomeWorker;
    var t := Step(s, End(w, state, err)).value;
    forall id | id != s.running[w]
      ensures SomeWorker(t.running, id) <==> SomeWorker(s.running, id)
    {
      WorkerGone(s.running, w, id);
    }
  }

  lemma WorkerGone(running: map<nat, nat>, w: nat, x: nat)
    requires w in running && x != running[w]
    ensures SomeWorker(running - {w}, x) <==> SomeWorker(running, x)
  {
    if SomeWorker(running, x) {
      var v :| v in running && running[v] == x;
      assert v in running - {w};
    }
  }

  // --- the reporter, pausing and shutdown ---

  lemma TickStartKeeps(s: State)
    requires Inv(s) && Step(s, TickStart).Some?
    ensures Inv(Step(s, TickStart).value)
  {
    hide QueueOk, RunningOk, CancelingOk, PlacedOk, PrevOk;
    var k := Step(s, TickStart).value.tick.value;
    assert k.pending + k.gone == s.tasks.Keys;
  }

  lemma TickOneIs(s: State, id: nat)
    requires Step(s, TickOne(id)).Some?
    ensures s.tick.Some? && id in s.tasks && id in s.tick.value.pending && Step(s, TickOne(id)) == Some(LookAt(s, id))
  {
    hide DoCaller, DoWorker, DoMark, DoShut, LookAt;
  }

  lemma TickOneKeeps(s: State, id: nat)
    requires Inv(s) && Step(s, TickOne(id)).Some?
    ensures Inv(Step(s, TickOne(id)).value)
  {
    hide IdsOk, QueueOk, RunningOk, CancelingOk, PlacedOk, ShutOk, TickOk, PrevOk, Step;
    TickOneIs(s, id);
    TickOneShut(s, id);
    TickOneTick(s, id);
  }

  lemma TickOneTick(s: State, id: nat)
    requires s.tick.Some? && id in s.tasks && id in s.tick.value.pending
    requires TickOk(s.tick, s.tasks, s.nextId) && PrevOk(s.prev, s.tasks.Keys)
    ensures var t := LookAt(s, id); TickOk(t.tick, t.tasks, t.nextId) && PrevOk(t.prev, t.tasks.Keys)
  {
    hide TickOk, PrevOk;
    TickMoves(s.tick.value, LookAt(s, id).tick.value, s.tasks, s.nextId, id);
    PrevMoves(s.prev, s.tasks.Keys, id, (s.tasks[id].state, s.tasks[id].done));
  }

  lemma TickMoves(k: Tick, l: Tick, tasks: map<nat, TaskRec>, nextId: nat, id: nat)
    requires TickOk(Some(k), tasks, nextId) && id in k.pending && l.pending == k.pending - {id} && l.upTo == k.upTo
    requires l.gone == k.gone || (l.gone == k.gone + {id} && id in tasks && Terminal(tasks[id].state))
    ensures TickOk(Some(l), tasks, nextId)
  {
  }

  lemma PrevMoves(prev: map<nat, (TaskState, nat)>, keys: set<nat>, id: nat, now: (TaskState, nat))
    requires PrevOk(prev, keys) && id in keys
    ensures !Terminal(now.0) ==> PrevOk(prev[id := now], keys)
  {
  }

  lemma TickOneShut(s: State, id: nat)
    requires Inv(s) && s.tick.Some? && id in s.tasks && id in s.tick.value.pending
    ensures ShutOk(LookAt(s, id))
  {
    hide IdsOk, QueueOk, RunningOk, CancelingOk, PlacedOk, PrevOk;
    if s.stop {
      AllTerminal(s);
      var k := LookAt(s, id).tick.value;
      assert k.pending + k.gone == s.tick.value.pending + s.tick.value.gone;
    }
  }

  /** When shutdown has joined the workers every task has ended. */
  lemma AllTerminal(s: State)
    requires Inv(s) && s.stop
    ensures forall id :: id in s.tasks ==> Terminal(s.tasks[id].state)
  {
    forall id | id in s.tasks
      ensures Terminal(s.tasks[id].state)
    {
      assert !HasId(s.queue, id) && id !in s.canceling;
      assert !SomeWorker(s.running, id);
    }
  }

  lemma TickEndKeeps(s: State)
    requires Inv(s) && Step(s, TickEnd).Some?
    ensures Inv(Step(s, TickEnd).value)
  {
    hide Distinct, HasId, SomeWorker;
  }

  lemma FlagsKeep(s: State, a: Action)
    requires Inv(s) && Step(s, a).Some?
    requires a.Pause? || a.Resume? || a.OpenWriter? || a.CloseWriter? || a.WorkerExit? || a.ReporterBreak?
      || a.ShutFlag? || a.ShutJoin?
    ensures Inv(Step(s, a).value)
  {
    hide QueueOk, CancelingOk, PlacedOk, TickOk, PrevOk, IdsOk;
  }

  lemma StepKeeps(s: State, a: Action)
    requires Inv(s) && Step(s, a).Some?
    ensures Inv(Step(s, a).value)
  {
    hide Inv, Step;
    match a {
      case Enqueue(size, priority) => EnqueueKeeps(s, size, priority);
      case SetPriority(id, priority) => SetPriorityKeeps(s, id, priority);
      case Pause => FlagsKeep(s, a);
      case Resume => FlagsKeep(s, a);
      case CancelQueued(id) => CancelQueuedKeeps(s, id);
      case CancelFlag(_) => RecordKeeps(s, a);
      case CancelMark(id) => MarkKeeps(s, id);
      case DrainAll => DrainKeeps(s, a);
      case Take(w) => TakeKeeps(s, w);
      case Progress(_, _) => RecordKeeps(s, a);
      case Verify(_) => RecordKeeps(s, a);
      case OpenWriter(_) => FlagsKeep(s, a);
      case CloseWriter(_) => FlagsKeep(s, a);
      case End(w, state, err) => EndKeeps(s, w, state, err);
      case WorkerExit(_) => FlagsKeep(s, a);
      case TickStart => TickStartKeeps(s);
      case TickOne(id) => TickOneKeeps(s, id);
      case TickEnd => TickEndKeeps(s);
      case ShutFlag => FlagsKeep(s, a);
      case ShutDrain => DrainKeeps(s, a);
      case ShutJoin => FlagsKeep(s, a);
      case ReporterBreak => FlagsKeep(s, a);
    }
  }
}
