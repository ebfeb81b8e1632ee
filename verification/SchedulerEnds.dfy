/** How tasks end and what the host gets to hear: flags that stay, ends that
    are final, cancels that hold, and a call for every change. */
module SchedulerEnds {
  import opened Wrappers
  import opened Tasks
  import opened TaskQueue
  import opened Scheduler
  import opened SchedulerInv
  import opened SchedulerBooks

  // --- what a step leaves alone ---

  /** The step writes the state of this task. */
  predicate Touches(s: State, a: Action, id: nat) {
    || a == CancelMark(id)
    || (a.Take? && s.queue != [] && s.queue[Best(s.queue)].id == id)
    || ((a.Progress? || a.Verify? || a.End?) && a.w in s.running && s.running[a.w] == id)
  }

  /** All steps but those of the reporter: nothing is told, no task goes, no flag
      is taken back, and only touched tasks change their state. */
  ghost predicate Tame(s: State, a: Action, t: State) {
    && t.calls == s.calls && t.counted == s.counted && t.tick == s.tick && t.prev == s.prev && s.nextId <= t.nextId
    && (forall id :: id in t.tasks ==> id in s.tasks || id > s.nextId)
    && (forall id :: id in s.tasks ==> id in t.tasks && Follow(s, a, id, s.tasks[id], t.tasks[id]))
    && (s.drained ==> t.drained) && (forall id :: id in s.canceling ==> id in t.canceling || a == CancelMark(id))
  }

  predicate Follow(s: State, a: Action, id: nat, r: TaskRec, q: TaskRec) {
    && (r.cancel ==> q.cancel)
    && (!Touches(s, a, id) ==> q.state == r.state && q.err == r.err && q.done == r.done)
  }

  lemma CallerTame(s: State, a: Action)
    requires DoCaller(s, a).Some? && s.nextId + 1 !in s.tasks
    ensures Tame(s, a, DoCaller(s, a).value)
  {
    hide WithoutId, Reprioritized, HasId, Ids, Touches;
  }

  lemma WorkerTame(s: State, a: Action)
    requires DoWorker(s, a).Some?
    ensures Tame(s, a, DoWorker(s, a).value)
  {
    hide Best, WithoutAt, Matches, Terminal;
  }

  lemma RestTame(s: State, a: Action)
    requires Step(s, a).Some? && (a.CancelMark? || a.ReporterBreak? || a.ShutFlag? || a.ShutDrain? || a.ShutJoin?)
    ensures Tame(s, a, Step(s, a).value)
  {
    hide Ids, Best;
  }

  lemma StepTame(s: State, a: Action)
    requires Inv(s) && Step(s, a).Some? && !a.TickStart? && !a.TickOne? && !a.TickEnd?
    ensures Tame(s, a, Step(s, a).value)
  {
    NextFresh(s);
    hide Inv, Tame, DoCaller, DoWorker, DoMark, DoTick, DoShut;
    if a.CancelMark? || a.ReporterBreak? || a.ShutFlag? || a.ShutDrain? || a.ShutJoin? {
      RestTame(s, a);
    } else if a.Take? || a.Progress? || a.Verify? || a.OpenWriter? || a.CloseWriter? || a.End? || a.WorkerExit? {
      WorkerTame(s, a);
    } else {
      CallerTame(s, a);
    }
  }

  lemma NextFresh(s: State)
    requires Inv(s)
    ensures s.nextId + 1 !in s.tasks
  {
    hide QueueOk, RunningOk, CancelingOk, PlacedOk, TickOk, PrevOk, ShutOk;
  }

  /** A pass begins or ends. */
  ghost predicate PassEdge(s: State, a: Action, t: State) {
    && t.calls == s.calls && t.counted == s.counted && t.nextId == s.nextId && t.canceling == s.canceling
    && t.drained == s.drained && t.shutdown == s.shutdown
    && (if a.TickStart? then t.tasks == s.tasks && t.prev == s.prev && Gone(s.tick) == {} == Gone(t.tick)
        else Gone(t.tick) == {} && t.tasks == s.tasks - Gone(s.tick) && t.prev == s.prev - Gone(s.tick))
  }

  lemma EdgeIs(s: State, a: Action)
    requires Step(s, a).Some? && (a.TickStart? || a.TickEnd?)
    ensures PassEdge(s, a, Step(s, a).value)
  {
    hide LookAt;
  }

  /** The reporter looks at a task. */
  lemma LookIs(s: State, id: nat)
    requires Inv(s) && Step(s, TickOne(id)).Some?
    ensures id in s.tasks && id !in Gone(s.tick) && 1 <= id <= s.nextId
    ensures var t := Step(s, TickOne(id)).value; var r := s.tasks[id]; var cur := (r.state, r.done);
      && t.tasks == s.tasks && t.nextId == s.nextId && t.canceling == s.canceling && t.drained == s.drained
      && t.shutdown == s.shutdown
      && t.calls == (
        if id in s.prev && s.prev[id] == cur then s.calls else s.calls + [Call(id, r.state, r.err, r.done)])
      && t.prev == (if Terminal(r.state) then s.prev else s.prev[id := cur])
      && t.counted == (if Terminal(r.state) then s.counted + [Counted(id, r.state, r.done, r.size)] else s.counted)
      && Gone(t.tick) == (if Terminal(r.state) then Gone(s.tick) + {id} else Gone(s.tick))
      && (Terminal(r.state) ==> !(id in s.prev && s.prev[id] == cur))
  {
    TickFacts(s, id);
    IdKnown(s, id);
    hide Inv, Step;
  }

  lemma IdKnown(s: State, id: nat)
    requires Inv(s) && id in s.tasks
    ensures 1 <= id <= s.nextId
  {
    hide QueueOk, RunningOk, CancelingOk, PlacedOk, TickOk, PrevOk, ShutOk;
  }

  // --- the cancel flag ---

  predicate IsFlagged(s: State, id: nat) {
    id in s.tasks ==> s.tasks[id].cancel
  }

  /** The calls that set the flag of a task. */
  predicate SetsFlag(s: State, a: Action, id: nat) {
    id in s.tasks && (a == CancelFlag(id) || a == CancelMark(id) || a.DrainAll? || a.ShutDrain?)
  }

  lemma FlagSet(s: State, a: Action, id: nat)
    requires Step(s, a).Some? && SetsFlag(s, a, id)
    ensures IsFlagged(Step(s, a).value, id)
  {
    hide DoWorker, DoTick, Ids, HasId, WithoutId, Reprioritized;
  }

  lemma FlagStep(s: State, a: Action, id: nat)
    requires Inv(s) && Step(s, a).Some? && 1 <= id <= s.nextId && IsFlagged(s, id)
    ensures IsFlagged(Step(s, a).value, id) && s.nextId <= Step(s, a).value.nextId
  {
    hide Inv, Step, Touches;
    if a.TickOne? {
      LookIs(s, a.id);
    } else if a.TickStart? || a.TickEnd? {
      EdgeIs(s, a);
    } else {
      StepTame(s, a);
    }
  }

  lemma {:induction false} FlagRun(s: State, acts: seq<Action>, id: nat)
    requires Inv(s) && Run(s, acts).Some? && 1 <= id <= s.nextId && IsFlagged(s, id)
    ensures var t := Run(s, acts).value; IsFlagged(t, id) && s.nextId <= t.nextId && Inv(t)
  {
    hide Inv, Step, IsFlagged;
    if acts != [] {
      var p := acts[..|acts| - 1];
      FlagRun(s, p, id);
      StepKeeps(Run(s, p).value, acts[|acts| - 1]);
      FlagStep(Run(s, p).value, acts[|acts| - 1], id);
    }
  }

  /** Once a cancel has set the flag of a task it stays set, whatever follows. */
  lemma FlagStays(s: State, a: Action, more: seq<Action>, id: nat)
    requires Inv(s) && Step(s, a).Some? && SetsFlag(s, a, id) && Run(Step(s, a).value, more).Some?
    ensures IsFlagged(Run(Step(s, a).value, more).value, id)
  {
    hide Inv, Step, Run, IsFlagged;
    IdKnown(s, id);
    FlagSet(s, a, id);
    StepKeeps(s, a);
    IdStays(s, a);
    FlagRun(Step(s, a).value, more, id);
  }

  lemma IdStays(s: State, a: Action)
    requires Inv(s) && Step(s, a).Some?
    ensures s.nextId <= Step(s, a).value.nextId
  {
    hide Inv, Step, Follow;
    if a.TickOne? {
      LookIs(s, a.id);
    } else if a.TickStart? || a.TickEnd? {
      EdgeIs(s, a);
    } else {
      StepTame(s, a);
    }
  }

  ghost predicate DrainedFlagged(s: State) {
    (s.drained ==> s.shutdown) && (s.drained ==> forall id :: id in s.tasks ==> s.tasks[id].cancel)
  }

  lemma WorkersAddNothing(s: State, a: Action)
    requires DoWorker(s, a).Some?
    ensures var t := DoWorker(s, a).value;
      t.tasks.Keys == s.tasks.Keys && t.shutdown == s.shutdown && t.drained == s.drained
  {
    hide Ids, Best, WithoutAt, Matches;
    var t := DoWorker(s, a).value;
    if a.Take? {
      KeysStay(s.tasks, t.tasks, s.queue[Best(s.queue)].id);
    } else if a.Progress? || a.Verify? || a.End? {
      KeysStay(s.tasks, t.tasks, s.running[a.w]);
    }
  }

  lemma KeysStay(was: map<nat, TaskRec>, now: map<nat, TaskRec>, id: nat)
    requires id in was && id in now && now == was[id := now[id]]
    ensures now.Keys == was.Keys
  {
  }

  /** Nothing is enqueued once shutdown has begun. */
  lemma DrainedNothingNew(s: State, a: Action)
    requires Step(s, a).Some? && s.shutdown && !a.TickStart? && !a.TickOne? && !a.TickEnd?
    ensures var t := Step(s, a).value; t.tasks.Keys == s.tasks.Keys && t.shutdown
    ensures !s.drained && Step(s, a).value.drained ==> a.ShutDrain?
  {
    hide Ids, DoWorker, LookAt;
    if DoWorker(s, a).Some? {
      WorkersAddNothing(s, a);
    }
  }

  lemma DrainBegins(s: State, a: Action)
    requires Step(s, a).Some? && !s.drained && !a.TickOne?
    ensures Step(s, a).value.drained ==> a.ShutDrain? && s.shutdown && Step(s, a).value.shutdown
  {
    hide Ids, Best, WithoutAt, WithoutId, Reprioritized, HasId, Matches, LookAt;
  }

  lemma DrainedStep(s: State, a: Action)
    requires Inv(s) && DrainedFlagged(s) && Step(s, a).Some?
    ensures DrainedFlagged(Step(s, a).value)
  {
    hide Inv, Step, Touches;
    var t := Step(s, a).value;
    if !s.drained && !a.TickOne? {
      DrainBegins(s, a);
      if t.drained {
        StepTame(s, a);
        DrainedNothingNew(s, a);
        forall id | id in t.tasks
          ensures t.tasks[id].cancel
        {
          FlagSet(s, a, id);
        }
      }
    } else if a.TickOne? {
      LookIs(s, a.id);
    } else if a.TickStart? || a.TickEnd? {
      EdgeIs(s, a);
    } else {
      StepTame(s, a);
      DrainedNothingNew(s, a);
    }
  }

  /** From its drain on, shutdown has told every task to stop. */
  lemma {:induction false} ShutdownFlagsAll(workers: set<nat>, acts: seq<Action>)
    requires Run(Started(workers), acts).Some?
    ensures DrainedFlagged(Run(Started(workers), acts).value)
  {
    hide Step, DrainedFlagged;
    if acts == [] {
      assert DrainedFlagged(Started(workers)) by { NoneDrained(workers); }
    } else {
      hide Inv, Books;
      ShutdownFlagsAll(workers, acts[..|acts| - 1]);
      RunKeeps(workers, acts[..|acts| - 1]);
      DrainedStep(Run(Started(workers), acts[..|acts| - 1]).value, acts[|acts| - 1]);
    }
  }

  lemma NoneDrained(workers: set<nat>)
    ensures DrainedFlagged(Started(workers))
  {
  }

  // --- ends are final ---

  ghost predicate Reported(calls: seq<Call>, id: nat, state: TaskState, err: TaskErr) {
    exists i :: 0 <= i < |calls| && calls[i].id == id && calls[i].state == state && calls[i].err == err
  }

  ghost predicate CountedAs(counted: seq<Counted>, id: nat, state: TaskState) {
    exists i :: 0 <= i < |counted| && counted[i].id == id && counted[i].state == state
  }

  /** The task has this end in the table, or was reported and counted with it. */
  ghost predicate Settled(s: State, id: nat, state: TaskState, err: TaskErr) {
    && 1 <= id <= s.nextId
    && (id in s.tasks ==> s.tasks[id].state == state && s.tasks[id].err == err)
    && (id !in s.tasks || id in Gone(s.tick) ==> Reported(s.calls, id, state, err) && CountedAs(s.counted, id, state))
  }

  lemma ReportedMore(calls: seq<Call>, c: Call, id: nat, state: TaskState, err: TaskErr)
    ensures Reported(calls, id, state, err) ==> Reported(calls + [c], id, state, err)
    ensures c.id == id && c.state == state && c.err == err ==> Reported(calls + [c], id, state, err)
  {
    var r := calls + [c];
    assert r[|calls|] == c;
    if Reported(calls, id, state, err) {
      var i :| 0 <= i < |calls| && calls[i].id == id && calls[i].state == state && calls[i].err == err;
      assert r[i] == calls[i];
    }
  }

  lemma CountedMore(counted: seq<Counted>, c: Counted, id: nat, state: TaskState)
    ensures CountedAs(counted, id, state) ==> CountedAs(counted + [c], id, state)
    ensures c.id == id && c.state == state ==> CountedAs(counted + [c], id, state)
  {
    var r := counted + [c];
    assert r[|counted|] == c;
    if CountedAs(counted, id, state) {
      var i :| 0 <= i < |counted| && counted[i].id == id && counted[i].state == state;
      assert r[i] == counted[i];
    }
  }

  lemma SettledLook(s: State, x: nat, id: nat, state: TaskState, err: TaskErr)
    requires Inv(s) && Step(s, TickOne(x)).Some? && Settled(s, id, state, err) && Terminal(state)
    ensures Settled(Step(s, TickOne(x)).value, id, state, err)
  {
    hide Inv, Step, Reported, CountedAs, Gone;
    LookIs(s, x);
    var t := s.tasks[x];
    ReportedMore(s.calls, Call(x, t.state, t.err, t.done), id, state, err);
    CountedMore(s.counted, Counted(x, t.state, t.done, t.size), id, state);
  }

  /** The other steps leave ended tasks alone. */
  lemma SettledRest(s: State, a: Action, id: nat, state: TaskState, err: TaskErr)
    requires Inv(s) && Step(s, a).Some? && !a.TickOne? && Settled(s, id, state, err) && Terminal(state)
    ensures Settled(Step(s, a).value, id, state, err)
  {
    hide Inv, Step, Reported, CountedAs, Gone, Touches;
    if a.TickStart? || a.TickEnd? {
      EdgeIs(s, a);
    } else {
      StepTame(s, a);
      if id in s.tasks {
        EndedElsewhere(s, a, id);
      }
    }
  }

  /** A step that writes a record finds it pending or running. */
  lemma EndedElsewhere(s: State, a: Action, id: nat)
    requires Inv(s) && Step(s, a).Some? && id in s.tasks && Terminal(s.tasks[id].state)
    ensures !Touches(s, a, id)
  {
    hide PlacedOk, PrevOk, IdsOk, ShutOk, TickOk, WithoutId, Reprioritized, HasId, Ids, WithoutAt, LookAt, DoCaller,
      DoTick, DoShut;
    InQueue(s.queue, s.tasks, s.nextSeq);
  }

  lemma SettledStep(s: State, a: Action, id: nat, state: TaskState, err: TaskErr)
    requires Inv(s) && Step(s, a).Some? && Settled(s, id, state, err) && Terminal(state)
    ensures Settled(Step(s, a).value, id, state, err)
  {
    hide Inv, Step, Settled;
    if a.TickOne? {
      SettledLook(s, a.id, id, state, err);
    } else {
      SettledRest(s, a, id, state, err);
    }
  }

  lemma {:induction false} SettledRun(s: State, acts: seq<Action>, id: nat, state: TaskState, err: TaskErr)
    requires Inv(s) && Run(s, acts).Some? && Settled(s, id, state, err) && Terminal(state)
    ensures Settled(Run(s, acts).value, id, state, err) && Inv(Run(s, acts).value)
  {
    hide Inv, Step, Settled;
    if acts != [] {
      var p := acts[..|acts| - 1];
      SettledRun(s, p, id, state, err);
      StepKeeps(Run(s, p).value, acts[|acts| - 1]);
      SettledStep(Run(s, p).value, acts[|acts| - 1], id, state, err);
    }
  }

  /** However a worker ends a task, that state and that error are what the table
      shows from then on, and what is counted and reported when it is retired. */
  lemma EndIsFinal(s: State, w: nat, state: TaskState, err: TaskErr, more: seq<Action>)
    requires Inv(s) && Step(s, End(w, state, err)).Some? && Run(Step(s, End(w, state, err)).value, more).Some?
    ensures w in s.running && Settled(Run(Step(s, End(w, state, err)).value, more).value, s.running[w], state, err)
  {
    EndSettles(s, w, state, err);
    hide Inv, Step, Settled;
    StepKeeps(s, End(w, state, err));
    SettledRun(Step(s, End(w, state, err)).value, more, s.running[w], state, err);
  }

  lemma EndSettles(s: State, w: nat, state: TaskState, err: TaskErr)
    requires Inv(s) && Step(s, End(w, state, err)).Some?
    ensures w in s.running && Terminal(state) && Settled(Step(s, End(w, state, err)).value, s.running[w], state, err)
  {
    hide QueueOk, CancelingOk, PlacedOk, PrevOk, ShutOk, Reported, CountedAs;
    IdKnown(s, s.running[w]);
  }

  // --- a canceled task in the queue ---

  /** Taken out of the queue by a cancel, or ended as canceled. */
  ghost predicate Withdrawn(s: State, id: nat) {
    id in s.canceling || Settled(s, id, Canceled, CanceledErr)
  }

  lemma WithdrawnStep(s: State, a: Action, id: nat)
    requires Inv(s) && Step(s, a).Some? && Withdrawn(s, id)
    ensures Withdrawn(Step(s, a).value, id)
  {
    if Settled(s, id, Canceled, CanceledErr) {
      SettledStep(s, a, id, Canceled, CanceledErr);
    } else {
      CancelingStep(s, a, id);
    }
  }

  lemma CancelingStep(s: State, a: Action, id: nat)
    requires Inv(s) && Step(s, a).Some? && id in s.canceling
    ensures Withdrawn(Step(s, a).value, id)
  {
    if a == CancelMark(id) {
      MarkSettles(s, id);
    } else {
      hide Inv, Step, Settled, Follow;
      if a.TickOne? {
        LookIs(s, a.id);
      } else if a.TickStart? || a.TickEnd? {
        EdgeIs(s, a);
      } else {
        StepTame(s, a);
      }
    }
  }

  lemma MarkSettles(s: State, id: nat)
    requires Inv(s) && Step(s, CancelMark(id)).Some?
    ensures Settled(Step(s, CancelMark(id)).value, id, Canceled, CanceledErr)
  {
    hide QueueOk, RunningOk, PlacedOk, PrevOk, ShutOk, Reported, CountedAs, DoCaller, DoWorker, DoTick, DoShut;
    IdKnown(s, id);
  }

  lemma {:induction false} WithdrawnRun(s: State, acts: seq<Action>, id: nat)
    requires Inv(s) && Run(s, acts).Some? && Withdrawn(s, id)
    ensures Withdrawn(Run(s, acts).value, id) && Inv(Run(s, acts).value)
  {
    hide Inv, Step, Withdrawn;
    if acts != [] {
      var p := acts[..|acts| - 1];
      WithdrawnRun(s, p, id);
      StepKeeps(Run(s, p).value, acts[|acts| - 1]);
      WithdrawnStep(Run(s, p).value, acts[|acts| - 1], id);
    }
  }

  /** The calls that take a queued task out of the queue for good. */
  predicate Withdraws(s: State, a: Action, id: nat) {
    HasId(s.queue, id) && (a == CancelQueued(id) || a.DrainAll? || a.ShutDrain?)
  }

  /** A task that is canceled while it is queued never runs: it is on its way to
      be marked, or has ended as canceled, and is reported and counted so. */
  lemma CanceledInQueue(s: State, a: Action, more: seq<Action>, id: nat)
    requires Inv(s) && Step(s, a).Some? && Withdraws(s, a, id) && Run(Step(s, a).value, more).Some?
    ensures var t := Run(Step(s, a).value, more).value; Withdrawn(t, id) && !SomeWorker(t.running, id)
  {
    WithdrawsIt(s, a, id);
    hide Inv, Step, Withdrawn;
    StepKeeps(s, a);
    WithdrawnRun(Step(s, a).value, more, id);
    WithdrawnIdle(Run(Step(s, a).value, more).value, id);
  }

  lemma WithdrawsIt(s: State, a: Action, id: nat)
    requires Inv(s) && Step(s, a).Some? && Withdraws(s, a, id)
    ensures id in Step(s, a).value.canceling
  {
    hide Inv, WithoutId, Reprioritized, WithoutAt, Best;
  }

  lemma WithdrawnIdle(s: State, id: nat)
    requires Inv(s) && Withdrawn(s, id)
    ensures !SomeWorker(s.running, id)
  {
    hide QueueOk, PlacedOk, TickOk, PrevOk, IdsOk, ShutOk, Reported, CountedAs;
  }

  // --- a call for every change ---

  /** What the host heard last about a task. */
  function LastHeard(calls: seq<Call>, id: nat): Option<(TaskState, nat)> {
    if calls == [] then None
    else
      var c := calls[|calls| - 1];
      if c.id == id then Some((c.state, c.done)) else LastHeard(calls[..|calls| - 1], id)
  }

  lemma HeardNext(calls: seq<Call>, c: Call, id: nat)
    ensures LastHeard(calls + [c], id) == if c.id == id then Some((c.state, c.done)) else LastHeard(calls, id)
  {
    assert (calls + [c])[..|calls|] == calls;
  }

  /** The reporter remembers what it told. */
  ghost predicate Remembers(s: State) {
    && (forall id :: id in s.tasks && id !in Gone(s.tick) ==>
          LastHeard(s.calls, id) == if id in s.prev then Some(s.prev[id]) else None)
    && (forall id :: id > s.nextId ==> LastHeard(s.calls, id) == None)
  }

  lemma RemembersLook(s: State, id: nat)
    requires Inv(s) && Remembers(s) && Step(s, TickOne(id)).Some?
    ensures Remembers(Step(s, TickOne(id)).value)
    ensures id in s.tasks
    ensures var t, cur := Step(s, TickOne(id)).value, (s.tasks[id].state, s.tasks[id].done);
      && t.calls == s.calls + (if LastHeard(s.calls, id) == Some(cur) then []
                               else [Call(id, s.tasks[id].state, s.tasks[id].err, s.tasks[id].done)])
      && LastHeard(t.calls, id) == Some(cur)
  {
    hide Inv, Step, LastHeard, Gone, Terminal;
    LookIs(s, id);
    var r, t := s.tasks[id], Step(s, TickOne(id)).value;
    var c := Call(id, r.state, r.err, r.done);
    forall x
      ensures LastHeard(s.calls + [c], x) == if x == id then Some((r.state, r.done)) else LastHeard(s.calls, x)
    {
      HeardNext(s.calls, c, x);
    }
    assert s.calls + [] == s.calls;
  }

  lemma RemembersRest(s: State, a: Action)
    requires Inv(s) && Remembers(s) && Step(s, a).Some? && !a.TickOne?
    ensures Remembers(Step(s, a).value)
  {
    PrevKnown(s);
    hide Inv, Step, LastHeard, Gone, Follow;
    if a.TickStart? || a.TickEnd? {
      EdgeIs(s, a);
    } else {
      StepTame(s, a);
    }
  }

  lemma PrevKnown(s: State)
    requires Inv(s)
    ensures forall id :: id in s.prev ==> id <= s.nextId
    ensures forall id :: id in Gone(s.tick) ==> id <= s.nextId
  {
    hide QueueOk, RunningOk, CancelingOk, PlacedOk, ShutOk;
  }

  lemma RemembersStep(s: State, a: Action)
    requires Inv(s) && Remembers(s) && Step(s, a).Some?
    ensures Remembers(Step(s, a).value)
  {
    hide Inv, Step, Remembers;
    if a.TickOne? {
      RemembersLook(s, a.id);
    } else {
      RemembersRest(s, a);
    }
  }

  lemma {:induction false} RemembersRun(workers: set<nat>, acts: seq<Action>)
    requires Run(Started(workers), acts).Some?
    ensures Remembers(Run(Started(workers), acts).value)
  {
    hide Step;
    if acts != [] {
      hide Remembers, Inv;
      var p := acts[..|acts| - 1];
      RemembersRun(workers, p);
      RunKeeps(workers, p);
      RemembersStep(Run(Started(workers), p).value, acts[|acts| - 1]);
    }
  }

  /** In every reachable state: a pass that looks at a task calls the host exactly
      when its state or progress is not what the host heard last, and then the
      host knows it. */
  lemma EveryChangeHeard(workers: set<nat>, acts: seq<Action>, id: nat)
    requires Run(Started(workers), acts).Some? && Step(Run(Started(workers), acts).value, TickOne(id)).Some?
    ensures var s := Run(Started(workers), acts).value; var t := Step(s, TickOne(id)).value;
      && id in s.tasks
      && var cur := (s.tasks[id].state, s.tasks[id].done);
      && t.calls == s.calls + (if LastHeard(s.calls, id) == Some(cur) then []
                               else [Call(id, s.tasks[id].state, s.tasks[id].err, s.tasks[id].done)])
      && LastHeard(t.calls, id) == Some(cur)
  {
    hide Run, Step, Remembers, Inv, Books, LastHeard;
    RemembersRun(workers, acts);
    RunKeeps(workers, acts);
    RemembersLook(Run(Started(workers), acts).value, id);
  }

  // --- dispatch ---

  /** An idle worker gets a task exactly when one is queued and nothing holds the
      queue back. */
  lemma DispatchReady(workers: set<nat>, acts: seq<Action>, w: nat)
    requires Run(Started(workers), acts).Some?
    ensures var s := Run(Started(workers), acts).value;
      Step(s, Take(w)).Some? <==> w in s.workers && w !in s.running && !s.paused && !s.shutdown && s.queue != []
  {
    hide Run, Books, RunningOk, CancelingOk, PlacedOk, TickOk, PrevOk, IdsOk, ShutOk, Best, WithoutAt;
    RunKeeps(workers, acts);
  }
}
