/** The reporter's books: every task is counted and reported once, and what
    was counted and what is still live add up to what was enqueued. */
module SchedulerBooks {
  import opened Wrappers
  import opened Tasks
  import opened TaskQueue
  import opened Scheduler
  import opened SchedulerInv

  // --- sums ---

  /** Sizes of the tasks 1, ..., n. */
  function SumAll(sizes: seq<nat>): nat {
    if sizes == [] then 0 else SumAll(sizes[..|sizes| - 1]) + sizes[|sizes| - 1]
  }

  /** Sizes of those among the tasks 1, ..., n that are in the set. */
  function SumIn(sizes: seq<nat>, ids: set<nat>, n: nat): nat
    requires n <= |sizes|
  {
    if n == 0 then 0 else SumIn(sizes, ids, n - 1) + (if n in ids then sizes[n - 1] else 0)
  }

  lemma {:induction false} SumMinus(sizes: seq<nat>, ids: set<nat>, x: nat, n: nat)
    requires n <= |sizes| && x in ids && 1 <= x <= n
    ensures SumIn(sizes, ids - {x}, n) + sizes[x - 1] == SumIn(sizes, ids, n)
  {
    if x < n {
      SumMinus(sizes, ids, x, n - 1);
    } else {
      SumSame(sizes, sizes, ids, ids - {x}, n - 1);
    }
  }

  lemma {:induction false} SumSame(a: seq<nat>, b: seq<nat>, s: set<nat>, t: set<nat>, n: nat)
    requires n <= |a| && n <= |b| && forall i :: 0 <= i < n ==> a[i] == b[i]
    requires forall id :: 1 <= id <= n ==> (id in s <==> id in t)
    ensures SumIn(a, s, n) == SumIn(b, t, n)
  {
    if n > 0 {
      SumSame(a, b, s, t, n - 1);
    }
  }

  function SumSizes(counted: seq<Counted>): nat {
    if counted == [] then 0 else SumSizes(counted[..|counted| - 1]) + counted[|counted| - 1].size
  }

  function SumDone(counted: seq<Counted>): nat {
    if counted == [] then 0 else SumDone(counted[..|counted| - 1]) + counted[|counted| - 1].done
  }

  function CountState(counted: seq<Counted>, state: TaskState): nat {
    if counted == [] then 0
    else CountState(counted[..|counted| - 1], state) + (if counted[|counted| - 1].state == state then 1 else 0)
  }

  /** The callbacks that reported an end, in order. */
  function Finals(calls: seq<Call>): seq<(nat, TaskState)> {
    if calls == [] then []
    else
      var c := calls[|calls| - 1];
      Finals(calls[..|calls| - 1]) + (if Terminal(c.state) then [(c.id, c.state)] else [])
  }

  function Heads(counted: seq<Counted>): seq<(nat, TaskState)> {
    if counted == [] then []
    else Heads(counted[..|counted| - 1]) + [(counted[|counted| - 1].id, counted[|counted| - 1].state)]
  }

  // --- the books ---

  ghost predicate CountedOk(counted: seq<Counted>, retired: set<nat>, gone: set<nat>) {
    && (forall i, j :: 0 <= i < j < |counted| ==> counted[i].id != counted[j].id)
    && (forall i :: 0 <= i < |counted| ==>
      Terminal(counted[i].state) && (counted[i].id in retired || counted[i].id in gone))
    && (forall id :: id in retired || id in gone ==> exists i :: 0 <= i < |counted| && counted[i].id == id)
  }

  ghost predicate ErrsOk(tasks: map<nat, TaskRec>, calls: seq<Call>) {
    && Records(tasks)
    && (forall i :: 0 <= i < |calls| ==> Matches(calls[i].state, calls[i].err))
  }

  ghost predicate TotalsOk(s: State) {
    && s.doneTotal == CountState(s.counted, Done) && s.failedTotal == CountState(s.counted, Failed)
    && s.bytesDoneTotal == SumDone(s.counted) && s.bytesTotalTotal == SumSizes(s.counted)
  }

  ghost predicate SizesOk(tasks: map<nat, TaskRec>, sizes: seq<nat>, nextId: nat) {
    |sizes| == nextId && forall id :: id in tasks ==> 1 <= id <= nextId && tasks[id].size == sizes[id - 1]
  }

  /** Counted bytes plus live bytes are the enqueued bytes. */
  ghost predicate BytesBalance(tasks: map<nat, TaskRec>, gone: set<nat>, sizes: seq<nat>, total: nat) {
    total + SumIn(sizes, tasks.Keys - gone, |sizes|) == SumAll(sizes)
  }

  /** During a pass: counted, live so far and still pending are what was
      enqueued when it began. */
  ghost predicate TickBalance(tick: Option<Tick>, sizes: seq<nat>, total: nat) {
    tick.Some? ==>
      tick.value.upTo <= |sizes|
      && total + tick.value.liveTotal + SumIn(sizes, tick.value.pending, tick.value.upTo)
        == SumAll(sizes[..tick.value.upTo])
  }

  ghost predicate Books(s: State) {
    && CountedOk(s.counted, s.retired, Gone(s.tick)) && Finals(s.calls) == Heads(s.counted) && ErrsOk(s.tasks, s.calls)
    && TotalsOk(s) && SizesOk(s.tasks, s.sizes, s.nextId)
    && BytesBalance(s.tasks, Gone(s.tick), s.sizes, s.bytesTotalTotal)
    && TickBalance(s.tick, s.sizes, s.bytesTotalTotal)
  }

  // --- kept by every step ---

  ghost predicate SameSizes(t: map<nat, TaskRec>, u: map<nat, TaskRec>) {
    t.Keys == u.Keys && forall id :: id in t ==> t[id].size == u[id].size && Matches(u[id].state, u[id].err)
  }

  ghost predicate Follows(s: State, t: State) {
    && t.counted == s.counted && t.calls == s.calls && t.retired == s.retired && t.tick == s.tick && t.sizes == s.sizes
    && t.nextId == s.nextId
    && t.doneTotal == s.doneTotal && t.failedTotal == s.failedTotal
    && t.bytesDoneTotal == s.bytesDoneTotal && t.bytesTotalTotal == s.bytesTotalTotal
    && SameSizes(s.tasks, t.tasks)
  }

  ghost predicate Records(tasks: map<nat, TaskRec>) {
    forall id :: id in tasks ==> Matches(tasks[id].state, tasks[id].err)
  }

  lemma CallerFollows(s: State, a: Action)
    requires Records(s.tasks) && DoCaller(s, a).Some? && !a.Enqueue?
    ensures Follows(s, DoCaller(s, a).value)
  {
    hide WithoutId, Reprioritized, HasId, Ids;
  }

  lemma UpdateFollows(tasks: map<nat, TaskRec>, id: nat, r: TaskRec)
    requires Records(tasks) && id in tasks && r.size == tasks[id].size && Matches(r.state, r.err)
    ensures SameSizes(tasks, tasks[id := r])
  {
    assert tasks[id := r].Keys == tasks.Keys;
  }

  lemma SameFollows(tasks: map<nat, TaskRec>)
    requires Records(tasks)
    ensures SameSizes(tasks, tasks)
  {
  }

  lemma WorkerFollows(s: State, a: Action)
    requires Records(s.tasks) && DoWorker(s, a).Some?
    ensures Follows(s, DoWorker(s, a).value)
  {
    hide WithoutAt, Best, Distinct, Records, SameSizes;
    match a
    case Take(w) =>
      var id := s.queue[Best(s.queue)].id;
      UpdateFollows(s.tasks, id, s.tasks[id].(state := Running));
    case Progress(w, done) =>
      RecordMatches(s.tasks, s.running[w]);
      UpdateFollows(s.tasks, s.running[w], s.tasks[s.running[w]].(done := done));
    case Verify(w) =>
      UpdateFollows(s.tasks, s.running[w], s.tasks[s.running[w]].(state := Verifying));
    case End(w, state, err) =>
      UpdateFollows(s.tasks, s.running[w], s.tasks[s.running[w]].(state := state, err := err));
    case _ =>
      SameFollows(s.tasks);
  }

  lemma RecordMatches(tasks: map<nat, TaskRec>, id: nat)
    requires Records(tasks) && id in tasks
    ensures Matches(tasks[id].state, tasks[id].err)
  {
  }

  lemma RestFollows(s: State, a: Action)
    requires Records(s.tasks) && Step(s, a).Some?
    requires (a.CancelMark? || a.ReporterBreak? || a.ShutFlag? || a.ShutDrain? || a.ShutJoin?)
    ensures Follows(s, Step(s, a).value)
  {
    hide Ids;
  }

  lemma FollowsKeepsBooks(s: State, t: State)
    requires Books(s) && Follows(s, t)
    ensures Books(t)
  {
    hide CountedOk, TickBalance, Finals, Heads;
  }

  /** Steps that neither enqueue nor report. */
  lemma OthersKeepBooks(s: State, a: Action)
    requires Inv(s) && Books(s) && Step(s, a).Some? && !a.Enqueue? && !a.TickStart? && !a.TickOne? && !a.TickEnd?
    ensures Books(Step(s, a).value)
  {
    hide DoCaller, DoWorker, DoMark, DoShut, DoTick, Follows, CountedOk, TotalsOk, TickBalance, BytesBalance, SizesOk,
      QueueOk, CancelingOk, PlacedOk, TickOk, PrevOk, IdsOk, ShutOk, RunningOk;
    if a.CancelMark? || a.ReporterBreak? || a.ShutFlag? || a.ShutDrain? || a.ShutJoin? {
      RestFollows(s, a);
    } else if a.Take? || a.Progress? || a.Verify? || a.OpenWriter? || a.CloseWriter? || a.End? || a.WorkerExit? {
      WorkerFollows(s, a);
    } else {
      CallerFollows(s, a);
    }
    FollowsKeepsBooks(s, Step(s, a).value);
  }

  lemma TotalsFollow(s: State, t: State)
    requires TotalsOk(s) && t.counted == s.counted && t.doneTotal == s.doneTotal && t.failedTotal == s.failedTotal
    requires t.bytesDoneTotal == s.bytesDoneTotal && t.bytesTotalTotal == s.bytesTotalTotal
    ensures TotalsOk(t)
  {
  }

  /** Handing out the next number adds its size on both sides. */
  lemma SumsGrow(sizes: seq<nat>, live: set<nat>, size: nat)
    ensures var more := sizes + [size]; var id := |sizes| + 1;
      && SumIn(more, live + {id}, id) == SumIn(sizes, live, |sizes|) + size && SumAll(more) == SumAll(sizes) + size
  {
    assert (sizes + [size])[..|sizes|] == sizes;
    SumSame(sizes, sizes + [size], live, live + {|sizes| + 1}, |sizes|);
  }

  lemma TickGrows(tick: Option<Tick>, sizes: seq<nat>, total: nat, size: nat)
    requires TickBalance(tick, sizes, total)
    ensures TickBalance(tick, sizes + [size], total)
  {
    if tick.Some? {
      var k := tick.value;
      SumSame(sizes, sizes + [size], k.pending, k.pending, k.upTo);
      assert (sizes + [size])[..k.upTo] == sizes[..k.upTo];
    }
  }

  lemma EnqueueKeepsBooks(s: State, size: nat, priority: int)
    requires Inv(s) && Books(s) && Step(s, Enqueue(size, priority)).Some?
    ensures Books(Step(s, Enqueue(size, priority)).value)
  {
    hide CountedOk, TotalsOk, TickBalance, QueueOk, CancelingOk, PlacedOk, PrevOk, ShutOk, RunningOk, SumIn, SumAll;
    var t := Step(s, Enqueue(size, priority)).value;
    TotalsFollow(s, t);
    var live := s.tasks.Keys - Gone(s.tick);
    assert t.tasks.Keys - Gone(t.tick) == live + {s.nextId + 1};
    SumsGrow(s.sizes, live, size);
    TickGrows(s.tick, s.sizes, s.bytesTotalTotal, size);
  }

  lemma TickStartKeepsBooks(s: State)
    requires Inv(s) && Books(s) && Step(s, TickStart).Some?
    ensures Books(Step(s, TickStart).value)
  {
    hide CountedOk, TotalsOk, QueueOk, CancelingOk, PlacedOk, PrevOk, ShutOk, RunningOk;
    var t := Step(s, TickStart).value;
    TotalsFollow(s, t);
    assert s.tasks.Keys - {} == s.tasks.Keys;
    assert s.sizes[..|s.sizes|] == s.sizes;
  }

  lemma TickEndKeepsBooks(s: State)
    requires Inv(s) && Books(s) && Step(s, TickEnd).Some?
    ensures Books(Step(s, TickEnd).value)
  {
    hide TotalsOk, QueueOk, CancelingOk, PlacedOk, PrevOk, ShutOk, RunningOk;
    var t := Step(s, TickEnd).value;
    TotalsFollow(s, t);
    assert t.tasks.Keys - Gone(t.tick) == s.tasks.Keys - Gone(s.tick);
  }

  lemma TickFacts(s: State, id: nat)
    requires Inv(s) && Step(s, TickOne(id)).Some?
    ensures s.tick.Some? && id in s.tasks && Step(s, TickOne(id)).value == LookAt(s, id)
    ensures id in s.tick.value.pending && id !in s.tick.value.gone && 1 <= id <= s.tick.value.upTo && id !in s.retired
    ensures Terminal(s.tasks[id].state) ==> id !in s.prev || s.prev[id] != (s.tasks[id].state, s.tasks[id].done)
  {
    hide QueueOk, CancelingOk, PlacedOk, RunningOk, ShutOk, LookAt;
  }

  /** One task of the snapshot: either it is counted for good, with its only
      callback of an end, or it is still live. */
  lemma TickOneKeepsBooks(s: State, id: nat)
    requires Inv(s) && Books(s) && Step(s, TickOne(id)).Some?
    ensures Books(Step(s, TickOne(id)).value)
  {
    hide Inv, Step, CountedOk, TotalsOk, BytesBalance, TickBalance, Finals, Heads, SizesOk, Records, Matches;
    TickFacts(s, id);
    var k, r := s.tick.value, s.tasks[id];
    RecordMatches(s.tasks, id);
    CallsFollow(s.tasks, s.calls, Call(id, r.state, r.err, r.done));
    BalanceFacts(s, id);
    if Terminal(r.state) {
      CountOne(s.counted, s.retired, k.gone, Counted(id, r.state, r.done, r.size));
      TotalsGrow(s, LookAt(s, id));
      LiveLess(s.tasks, k.gone, s.sizes, s.bytesTotalTotal, id);
      PendingLess(k, s.sizes, s.bytesTotalTotal, id, r.size, k.liveTotal, true, k.gone + {id});
    } else {
      TotalsFollow(s, LookAt(s, id));
      PendingLess(k, s.sizes, s.bytesTotalTotal, id, r.size, k.liveTotal + r.size, false, k.gone);
      assert Finals(s.calls) + [] == Finals(s.calls);
    }
  }

  lemma BalanceFacts(s: State, id: nat)
    requires SizesOk(s.tasks, s.sizes, s.nextId) && id in s.tasks && TickBalance(s.tick, s.sizes, s.bytesTotalTotal)
    requires s.tick.Some?
    ensures |s.sizes| == s.nextId && s.tick.value.upTo <= |s.sizes| && 1 <= id <= |s.sizes|
    ensures s.tasks[id].size == s.sizes[id - 1]
  {
  }

  lemma CallsFollow(tasks: map<nat, TaskRec>, calls: seq<Call>, c: Call)
    requires ErrsOk(tasks, calls) && Matches(c.state, c.err)
    ensures ErrsOk(tasks, calls + [c])
    ensures Finals(calls + [c]) == Finals(calls) + (if Terminal(c.state) then [(c.id, c.state)] else [])
  {
    assert (calls + [c])[..|calls|] == calls;
  }

  lemma CountOne(counted: seq<Counted>, retired: set<nat>, gone: set<nat>, c: Counted)
    requires CountedOk(counted, retired, gone) && c.id !in retired && c.id !in gone && Terminal(c.state)
    ensures CountedOk(counted + [c], retired, gone + {c.id})
    ensures Heads(counted + [c]) == Heads(counted) + [(c.id, c.state)]
  {
    var r := counted + [c];
    assert r[..|counted|] == counted;
    forall id | id in retired || id in gone + {c.id}
      ensures exists i :: 0 <= i < |r| && r[i].id == id
    {
      if id == c.id {
        assert r[|counted|].id == id;
      } else {
        var i :| 0 <= i < |counted| && counted[i].id == id;
        assert r[i].id == id;
      }
    }
  }

  lemma TotalsGrow(s: State, t: State)
    requires TotalsOk(s) && t.counted != [] && t.counted[..|t.counted| - 1] == s.counted
    requires var c := t.counted[|t.counted| - 1];
      && t.doneTotal == s.doneTotal + (if c.state.Done? then 1 else 0)
      && t.failedTotal == s.failedTotal + (if c.state.Failed? then 1 else 0)
      && t.bytesDoneTotal == s.bytesDoneTotal + c.done && t.bytesTotalTotal == s.bytesTotalTotal + c.size
    ensures TotalsOk(t)
  {
  }

  lemma LiveLess(tasks: map<nat, TaskRec>, gone: set<nat>, sizes: seq<nat>, total: nat, id: nat)
    requires SizesOk(tasks, sizes, |sizes|) && id in tasks && id !in gone && BytesBalance(tasks, gone, sizes, total)
    ensures BytesBalance(tasks, gone + {id}, sizes, total + tasks[id].size)
  {
    SumMinus(sizes, tasks.Keys - gone, id, |sizes|);
    assert tasks.Keys - (gone + {id}) == tasks.Keys - gone - {id};
  }

  lemma PendingLess(k: Tick, sizes: seq<nat>, total: nat, id: nat, size: nat, live: nat, counted: bool, gone: set<nat>)
    requires TickBalance(Some(k), sizes, total) && id in k.pending && 1 <= id <= k.upTo <= |sizes|
    requires size == sizes[id - 1]
    requires live == if counted then k.liveTotal else k.liveTotal + size
    ensures TickBalance(Some(Tick(k.pending - {id}, gone, live, k.upTo)), sizes,
      if counted then total + size else total)
  {
    SumMinus(sizes, k.pending, id, k.upTo);
  }

  lemma StepKeepsBooks(s: State, a: Action)
    requires Inv(s) && Books(s) && Step(s, a).Some?
    ensures Books(Step(s, a).value)
  {
    hide Inv, Books, Step;
    match a {
      case Enqueue(size, priority) => EnqueueKeepsBooks(s, size, priority);
      case TickStart => TickStartKeepsBooks(s);
      case TickOne(id) => TickOneKeepsBooks(s, id);
      case TickEnd => TickEndKeepsBooks(s);
      case _ => OthersKeepBooks(s, a);
    }
  }

  lemma {:induction false} RunKeeps(workers: set<nat>, acts: seq<Action>)
    requires Run(Started(workers), acts).Some?
    ensures Inv(Run(Started(workers), acts).value) && Books(Run(Started(workers), acts).value)
  {
    hide Step;
    if acts == [] {
      StartedOk(workers);
    } else {
      hide Inv, Books;
      RunKeeps(workers, acts[..|acts| - 1]);
      var s := Run(Started(workers), acts[..|acts| - 1]).value;
      StepKeeps(s, acts[|acts| - 1]);
      StepKeepsBooks(s, acts[|acts| - 1]);
    }
  }

  lemma StartedOk(workers: set<nat>)
    ensures Inv(Started(workers)) && Books(Started(workers))
  {
  }
}
