/** The theorems about the download manager, over every run. */
module SchedulerSafety {
  import opened Wrappers
  import opened Tasks
  import opened TaskQueue
  import opened Scheduler
  import opened SchedulerInv
  import opened SchedulerBooks

  function One(b: bool): nat { if b then 1 else 0 }

  /** In how many of the five places a task is. */
  ghost function Places(s: State, id: nat): nat {
    One(HasId(s.queue, id)) + One(id in s.canceling) + One(SomeWorker(s.running, id))
      + One(id in s.tasks && Terminal(s.tasks[id].state)) + One(id in s.retired)
  }

  /** Every enqueued task is in exactly one place, and at most one worker runs it. */
  lemma Conservation(workers: set<nat>, acts: seq<Action>, id: nat)
    requires Run(Started(workers), acts).Some?
    ensures var s := Run(Started(workers), acts).value;
      && Places(s, id) == (if 1 <= id <= s.nextId then 1 else 0)
      && forall w, v :: w in s.running && v in s.running && s.running[w] == id == s.running[v] ==> w == v
  {
    hide Run, Books, TickOk, PrevOk, ShutOk, Distinct;
    RunKeeps(workers, acts);
    var s := Run(Started(workers), acts).value;
    InQueue(s.queue, s.tasks, s.nextSeq);
  }

  /** Each task is counted at most once; exactly the counted ones are retired or
      about to be; and each had exactly one callback of its end, in the order of
      the counting, with an error that matches. */
  lemma ReportedOnce(workers: set<nat>, acts: seq<Action>)
    requires Run(Started(workers), acts).Some?
    ensures var s := Run(Started(workers), acts).value;
      && (forall i, j :: 0 <= i < j < |s.counted| ==> s.counted[i].id != s.counted[j].id)
      && (forall id :: id in s.retired || id in Gone(s.tick) <==>
        exists i :: 0 <= i < |s.counted| && s.counted[i].id == id)
      && Finals(s.calls) == Heads(s.counted)
      && (forall i :: 0 <= i < |s.calls| ==> Matches(s.calls[i].state, s.calls[i].err))
      && s.doneTotal == CountState(s.counted, Done) && s.failedTotal == CountState(s.counted, Failed)
      && s.bytesDoneTotal == SumDone(s.counted) && s.bytesTotalTotal == SumSizes(s.counted)
  {
    hide Run, Inv, BytesBalance, TickBalance, SizesOk;
    RunKeeps(workers, acts);
  }

  /** Counted and live bytes always add up to what was enqueued; and so do the
      figures of a pass of the reporter when it ends. */
  lemma TotalsAddUp(workers: set<nat>, acts: seq<Action>)
    requires Run(Started(workers), acts).Some?
    ensures var s := Run(Started(workers), acts).value;
      && |s.sizes| == s.nextId
      && s.bytesTotalTotal + SumIn(s.sizes, s.tasks.Keys - Gone(s.tick), |s.sizes|) == SumAll(s.sizes)
      && (s.tick.Some? && s.tick.value.pending == {} ==>
            s.tick.value.upTo <= |s.sizes|
              && s.bytesTotalTotal + s.tick.value.liveTotal == SumAll(s.sizes[..s.tick.value.upTo]))
  {
    hide Run, Inv, CountedOk, TotalsOk, ErrsOk;
    RunKeeps(workers, acts);
    var s := Run(Started(workers), acts).value;
    if s.tick.Some? && s.tick.value.pending == {} {
      SumNone(s.sizes, s.tick.value.upTo);
    }
  }

  lemma {:induction false} SumNone(sizes: seq<nat>, n: nat)
    requires n <= |sizes|
    ensures SumIn(sizes, {}, n) == 0
  {
    if n > 0 {
      SumNone(sizes, n - 1);
    }
  }

  /** When shutdown has run to its end every task ever enqueued is retired, was
      counted, and nothing is left. */
  lemma ShutdownRetiresAll(workers: set<nat>, acts: seq<Action>)
    requires Run(Started(workers), acts).Some? && Run(Started(workers), acts).value.exited
    ensures var s := Run(Started(workers), acts).value;
      && s.tasks == map[] && s.queue == [] && s.running == map[] && s.canceling == {}
      && (forall id :: 1 <= id <= s.nextId <==> id in s.retired)
      && s.bytesTotalTotal == SumAll(s.sizes)
  {
    hide Run, CountedOk, TotalsOk, ErrsOk, QueueOk, PlacedOk, CancelingOk, PrevOk, TickOk;
    RunKeeps(workers, acts);
    var s := Run(Started(workers), acts).value;
    assert s.tasks.Keys - {} == {};
    SumNone(s.sizes, |s.sizes|);
  }

  // --- the pause gate ---

  /** active_count. */
  ghost predicate NoneActive(s: State) {
    forall id :: id in s.tasks ==> !Active(s.tasks[id].state)
  }

  /** With a count of zero no worker holds a task or has a writer open. */
  lemma CountedZero(s: State)
    requires Inv(s) && NoneActive(s)
    ensures s.running == map[] && s.open == {}
  {
    hide QueueOk, PlacedOk, CancelingOk, PrevOk, TickOk, IdsOk;
    assert s.running.Keys == {};
  }

  /** After pause has returned and active_count has read zero, nothing runs, no
      download has a writer open, and nothing starts to, whatever else is called,
      until resume or shutdown: a compaction finds no writer. */
  lemma {:induction false} PauseGate(s: State, acts: seq<Action>)
    requires Inv(s) && s.paused && NoneActive(s) && Run(s, acts).Some?
    requires forall i :: 0 <= i < |acts| ==> !acts[i].Resume? && !acts[i].ShutFlag?
    ensures var t := Run(s, acts).value; Inv(t) && t.paused && NoneActive(t) && t.running == map[] && t.open == {}
  {
    hide Inv, Step;
    if acts == [] {
      CountedZero(s);
    } else {
      var n := |acts| - 1;
      PauseGate(s, acts[..n]);
      var t := Run(s, acts[..n]).value;
      StepKeeps(t, acts[n]);
      PauseStep(t, acts[n]);
    }
  }

  lemma PauseStep(s: State, a: Action)
    requires Inv(s) && s.paused && NoneActive(s) && s.running == map[] && s.open == {} && Step(s, a).Some?
    requires !a.Resume? && !a.ShutFlag?
    ensures var t := Step(s, a).value; t.paused && NoneActive(t) && t.running == map[] && t.open == {}
  {
    hide QueueOk, PlacedOk, CancelingOk, PrevOk, TickOk, IdsOk, WithoutId, Reprioritized, WithoutAt, Best, HasId, Ids;
    if a.TickEnd? {
      assert forall id :: id in s.tasks - s.tick.value.gone ==> id in s.tasks;
    }
  }

  // --- dispatch order ---

  /** A dispatch takes a task of the highest priority queued, and among those
      the one that was enqueued first. */
  lemma DispatchOrder(workers: set<nat>, acts: seq<Action>, w: nat)
    requires Run(Started(workers), acts).Some? && Step(Run(Started(workers), acts).value, Take(w)).Some?
    ensures var s := Run(Started(workers), acts).value;
      var t := Step(s, Take(w)).value;
      && w in t.running && HasId(s.queue, t.running[w])
      && exists h :: h in s.queue && h.id == t.running[w] && forall o :: o in t.queue ==> Before(h, o)
  {
    hide Run, Books, PlacedOk, CancelingOk, PrevOk, TickOk, IdsOk, RunningOk, ShutOk, Best;
    RunKeeps(workers, acts);
    var s := Run(Started(workers), acts).value;
    BestIsFirst(s.queue);
    InHasId(s.queue, Best(s.queue));
    var h := s.queue[Best(s.queue)];
    var t := Step(s, Take(w)).value;
    forall o | o in t.queue
      ensures Before(h, o)
    {
      var j :| 0 <= j < |t.queue| && t.queue[j] == o;
      assert s.queue[if j < Best(s.queue) then j else j + 1] == o;
    }
  }

  /** Numbers grow with every enqueue, and nothing changes the number of a task. */
  lemma FirstComeFirst(s: State, size: nat, priority: int, h: HeapTask)
    requires Inv(s) && Step(s, Enqueue(size, priority)).Some? && h in s.queue
    ensures var t := Step(s, Enqueue(size, priority)).value;
      h in t.queue && (Before(h, t.queue[|s.queue|]) <==> h.priority >= priority)
  {
    hide PlacedOk, CancelingOk, PrevOk, TickOk, IdsOk, RunningOk, ShutOk;
    InQueue(s.queue, s.tasks, s.nextSeq);
    var t := Step(s, Enqueue(size, priority)).value;
    var j :| 0 <= j < |s.queue| && s.queue[j] == h;
    assert t.queue[j] == h;
  }
}
