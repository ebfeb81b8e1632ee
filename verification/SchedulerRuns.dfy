/** What the download manager gets done: pause and resume are obeyed, and a
    shutdown goes through whatever it finds. */
module SchedulerRuns {
  import opened Wrappers
  import opened Tasks
  import opened TaskQueue
  import opened Scheduler
  import opened SchedulerInv
  import opened SchedulerBooks

  // --- pause and resume ---

  /** The last of the calls that set the gate is a pause. */
  ghost predicate PauseLast(acts: seq<Action>) {
    exists i :: 0 <= i < |acts| && acts[i].Pause? && NoneOpens(acts, i + 1)
  }

  ghost predicate NoneOpens(acts: seq<Action>, from: nat) {
    forall j :: from <= j < |acts| ==> !acts[j].Resume? && !acts[j].ShutFlag?
  }

  lemma PausedNext(s: State, a: Action)
    requires Step(s, a).Some?
    ensures Step(s, a).value.paused == (a.Pause? || (s.paused && !a.Resume? && !a.ShutFlag?))
  {
    hide DoWorker, DoCaller, DoTick, DoShut, DoMark;
    if Step(s, a) == DoWorker(s, a) {
      WorkersDoNotPause(s, a);
    } else if Step(s, a) == DoCaller(s, a) {
      CallersPause(s, a);
    } else if Step(s, a) == DoTick(s, a) {
      TicksDoNotPause(s, a);
    } else if a.CancelMark? {
      MarksDoNotPause(s, a.id);
    } else {
      ShutdownOpens(s, a);
    }
  }

  lemma TicksDoNotPause(s: State, a: Action)
    requires DoTick(s, a).Some?
    ensures DoTick(s, a).value.paused == s.paused && !a.Pause? && !a.Resume? && !a.ShutFlag?
  {
    hide LookAt;
    if a.TickOne? {
      LooksDoNotPause(s, a.id);
    }
  }

  lemma LooksDoNotPause(s: State, id: nat)
    requires s.tick.Some? && id in s.tasks
    ensures LookAt(s, id).paused == s.paused
  {
    if Terminal(s.tasks[id].state) {
      assert LookAt(s, id).paused == s.paused;
    } else {
      assert LookAt(s, id).paused == s.paused;
    }
  }

  lemma MarksDoNotPause(s: State, id: nat)
    requires DoMark(s, id).Some?
    ensures DoMark(s, id).value.paused == s.paused
  {
  }

  lemma ShutdownOpens(s: State, a: Action)
    requires DoShut(s, a).Some?
    ensures DoShut(s, a).value.paused == (s.paused && !a.ShutFlag?) && !a.Pause? && !a.Resume?
  {
    hide Ids, Flagged;
  }

  lemma WorkersDoNotPause(s: State, a: Action)
    requires DoWorker(s, a).Some?
    ensures DoWorker(s, a).value.paused == s.paused && !a.Pause? && !a.Resume? && !a.ShutFlag?
  {
    hide Best, WithoutAt, Matches, Terminal;
  }

  lemma CallersPause(s: State, a: Action)
    requires DoCaller(s, a).Some?
    ensures DoCaller(s, a).value.paused == (a.Pause? || (s.paused && !a.Resume?)) && !a.ShutFlag?
  {
    hide Ids, WithoutId, Reprioritized, HasId, Flagged;
  }

  lemma PauseLastNext(acts: seq<Action>, a: Action)
    ensures PauseLast(acts + [a]) <==> a.Pause? || (PauseLast(acts) && !a.Resume? && !a.ShutFlag?)
  {
    var b := acts + [a];
    assert b[|acts|] == a && forall i :: 0 <= i < |acts| ==> b[i] == acts[i];
    if a.Pause? {
      assert NoneOpens(b, |acts| + 1);
    } else if PauseLast(acts) && !a.Resume? && !a.ShutFlag? {
      var i :| 0 <= i < |acts| && acts[i].Pause? && NoneOpens(acts, i + 1);
      assert NoneOpens(b, i + 1);
    }
    if PauseLast(b) && !a.Pause? {
      var i :| 0 <= i < |b| && b[i].Pause? && NoneOpens(b, i + 1);
      assert i < |acts| && acts[i].Pause?;
      assert NoneOpens(acts, i + 1);
    }
  }

  /** In every reachable state the queue is held back exactly when the last call
      of pause, resume or shutdown was a pause. */
  lemma {:induction false} PauseFollows(workers: set<nat>, acts: seq<Action>)
    requires Run(Started(workers), acts).Some?
    ensures Run(Started(workers), acts).value.paused <==> PauseLast(acts)
  {
    hide Step, PauseLast;
    if acts == [] {
      assert !PauseLast([]) by { NothingCalled(); }
    } else {
      var n := |acts| - 1;
      PauseFollows(workers, acts[..n]);
      PausedNext(Run(Started(workers), acts[..n]).value, acts[n]);
      PauseLastNext(acts[..n], acts[n]);
      assert acts == acts[..n] + [acts[n]];
    }
  }

  lemma NothingCalled()
    ensures !PauseLast([])
  {
  }

  // --- shutdown ---

  lemma RunSnoc(s: State, acts: seq<Action>, a: Action)
    requires Run(s, acts).Some?
    ensures Run(s, acts + [a]) == Step(Run(s, acts).value, a)
  {
    hide Step;
    assert (acts + [a])[..|acts|] == acts;
  }

  /** Between the drain and the join; number is how many tasks were enqueued. */
  ghost predicate Stopping(s: State, number: nat) {
    && Inv(s) && s.shutdown && s.drained && s.queue == [] && !s.stop && s.looping && !s.exited && s.tick.None?
    && s.nextId == number
  }

  lemma Draining(s: State) returns (t: State)
    requires Inv(s) && !s.shutdown && s.canceling == {} && s.tick.None?
    ensures Run(s, [ShutFlag, ShutDrain]) == Some(t) && Stopping(t, s.nextId)
  {
    hide QueueOk, PlacedOk, CancelingOk, PrevOk, IdsOk, RunningOk, Ids, Flagged;
    var one := DoShut(s, ShutFlag).value;
    t := DoShut(one, ShutDrain).value;
    assert Run(s, []) == Some(s);
    RunSnoc(s, [], ShutFlag);
    RunSnoc(s, [ShutFlag], ShutDrain);
    assert [] + [ShutFlag] == [ShutFlag] && [ShutFlag] + [ShutDrain] == [ShutFlag, ShutDrain];
    StepKeeps(s, ShutFlag);
    StepKeeps(one, ShutDrain);
  }

  /** The worker gives its sink back and ends its task as canceled. */
  lemma Ending(s: State, w: nat, number: nat) returns (acts: seq<Action>, t: State)
    requires Stopping(s, number) && w in s.running
    ensures Run(s, acts) == Some(t) && Stopping(t, number) && t.running == s.running - {w}
  {
    var c := if w in s.open then s.(open := s.open - {w}) else s;
    acts := if w in s.open then [CloseWriter(w)] else [];
    assert Run(s, []) == Some(s);
    if w in s.open {
      RunSnoc(s, [], CloseWriter(w));
      assert [] + [CloseWriter(w)] == [CloseWriter(w)];
      Closing(s, w);
    }
    t := EndOne(c, w, number);
    RunSnoc(s, acts, End(w, Canceled, CanceledErr));
    acts := acts + [End(w, Canceled, CanceledErr)];
  }

  lemma Closing(s: State, w: nat)
    requires Inv(s) && w in s.open
    ensures Step(s, CloseWriter(w)) == Some(s.(open := s.open - {w})) && Inv(s.(open := s.open - {w}))
  {
    hide Inv;
    StepKeeps(s, CloseWriter(w));
  }

  lemma EndOne(s: State, w: nat, number: nat) returns (t: State)
    requires Stopping(s, number) && w in s.running && w !in s.open
    ensures Step(s, End(w, Canceled, CanceledErr)) == Some(t) && Stopping(t, number) && t.running == s.running - {w}
  {
    hide QueueOk, PlacedOk, CancelingOk, PrevOk, IdsOk, TickOk, ShutOk;
    t := DoWorker(s, End(w, Canceled, CanceledErr)).value;
    hide Inv;
    StepKeeps(s, End(w, Canceled, CanceledErr));
  }

  lemma EndAll(s: State, number: nat) returns (acts: seq<Action>, t: State)
    requires Stopping(s, number)
    ensures Run(s, acts) == Some(t) && Stopping(t, number) && t.running == map[]
    decreases |s.running|
  {
    hide Stopping;
    if s.running == map[] {
      acts, t := [], s;
    } else {
      var w :| w in s.running;
      var one, u := Ending(s, w, number);
      FewerKeys(s.running, w);
      var more, v := EndAll(u, number);
      RunConcat(s, one, more);
      acts, t := one + more, v;
    }
  }

  lemma FewerKeys(m: map<nat, nat>, w: nat)
    requires w in m
    ensures |m - {w}| < |m|
  {
    assert (m - {w}).Keys == m.Keys - {w};
    assert |(m - {w}).Keys| == |m.Keys| - 1;
  }

  lemma {:induction false} RunConcat(s: State, a: seq<Action>, b: seq<Action>)
    requires Run(s, a).Some?
    ensures Run(s, a + b) == Run(Run(s, a).value, b)
  {
    hide Step;
    if b == [] {
      assert a + b == a;
    } else {
      RunConcat(s, a, b[..|b| - 1]);
      assert (a + b)[..|a + b| - 1] == a + b[..|b| - 1];
    }
  }

  lemma MarkOne(s: State, id: nat, number: nat) returns (t: State)
    requires Stopping(s, number) && id in s.canceling
    ensures Step(s, CancelMark(id)) == Some(t) && Stopping(t, number)
    ensures t.canceling == s.canceling - {id} && t.running == s.running
  {
    hide QueueOk, PlacedOk, PrevOk, IdsOk, TickOk, ShutOk, RunningOk;
    t := DoMark(s, id).value;
    hide Inv;
    StepKeeps(s, CancelMark(id));
  }

  /** Everything that was queued is marked as canceled. */
  lemma MarkAll(s: State, number: nat) returns (acts: seq<Action>, t: State)
    requires Stopping(s, number) && s.running == map[]
    ensures Run(s, acts) == Some(t) && Stopping(t, number) && t.running == map[] && t.canceling == {}
  {
    hide Stopping, Run, Step;
    acts, t := [], s;
    assert Run(s, []) == Some(s) by { RunNone(s); }
    while t.canceling != {}
      invariant Run(s, acts) == Some(t) && Stopping(t, number) && t.running == map[]
      decreases |t.canceling|
    {
      var id :| id in t.canceling;
      var u := MarkOne(t, id, number);
      RunSnoc(s, acts, CancelMark(id));
      acts, t := acts + [CancelMark(id)], u;
    }
  }

  lemma RunNone(s: State)
    ensures Run(s, []) == Some(s)
  {
  }

  lemma ExitOne(s: State, w: nat, number: nat) returns (t: State)
    requires Stopping(s, number) && w in s.workers && s.running == map[]
    ensures Step(s, WorkerExit(w)) == Some(t) && Stopping(t, number)
    ensures t.workers == s.workers - {w} && t.running == map[] && t.canceling == s.canceling
  {
    t := DoWorker(s, WorkerExit(w)).value;
    hide Inv;
    StepKeeps(s, WorkerExit(w));
  }

  lemma ExitAll(s: State, number: nat) returns (acts: seq<Action>, t: State)
    requires Stopping(s, number) && s.running == map[] && s.canceling == {}
    ensures Run(s, acts) == Some(t) && Stopping(t, number) && t.canceling == {} && t.workers == {}
  {
    hide Stopping, Run, Step;
    acts, t := [], s;
    RunNone(s);
    while t.workers != {}
      invariant Run(s, acts) == Some(t) && Stopping(t, number) && t.running == map[] && t.canceling == {}
      decreases |t.workers|
    {
      var w :| w in t.workers;
      var u := ExitOne(t, w, number);
      RunSnoc(s, acts, WorkerExit(w));
      acts, t := acts + [WorkerExit(w)], u;
    }
  }

  /** The reporter on its last pass. */
  ghost predicate LastPass(s: State, number: nat) {
    Inv(s) && !s.looping && !s.exited && s.tick.Some? && s.nextId == number
  }

  lemma Joining(s: State, number: nat) returns (t: State)
    requires Stopping(s, number) && s.canceling == {} && s.workers == {}
    ensures Run(s, [ShutJoin, ReporterBreak, TickStart]) == Some(t) && LastPass(t, number)
  {
    hide Inv, DoWorker, DoCaller;
    var one := s.(stop := true);
    var two := one.(looping := false);
    t := two.(tick := Some(Tick(s.tasks.Keys, {}, 0, s.nextId)));
    JoinSteps(s);
    hide Step;
    RunNone(s);
    RunSnoc(s, [], ShutJoin);
    RunSnoc(s, [ShutJoin], ReporterBreak);
    RunSnoc(s, [ShutJoin, ReporterBreak], TickStart);
    assert [] + [ShutJoin] == [ShutJoin] && [ShutJoin] + [ReporterBreak] == [ShutJoin, ReporterBreak];
    assert [ShutJoin, ReporterBreak] + [TickStart] == [ShutJoin, ReporterBreak, TickStart];
    StepKeeps(s, ShutJoin);
    StepKeeps(one, ReporterBreak);
    StepKeeps(two, TickStart);
  }

  lemma JoinSteps(s: State)
    requires s.drained && s.canceling == {} && s.workers == {} && !s.stop && s.looping && !s.exited && s.tick.None?
    ensures var one := s.(stop := true); var two := one.(looping := false);
      && Step(s, ShutJoin) == Some(one) && Step(one, ReporterBreak) == Some(two)
      && Step(two, TickStart) == Some(two.(tick := Some(Tick(s.tasks.Keys, {}, 0, s.nextId))))
  {
  }

  lemma LookOne(s: State, id: nat, number: nat) returns (t: State)
    requires LastPass(s, number) && id in s.tick.value.pending
    ensures Step(s, TickOne(id)) == Some(t) && LastPass(t, number)
    ensures t.tick.value.pending == s.tick.value.pending - {id}
  {
    hide QueueOk, PlacedOk, CancelingOk, PrevOk, IdsOk, RunningOk, ShutOk;
    t := DoTick(s, TickOne(id)).value;
    hide Inv;
    StepKeeps(s, TickOne(id));
  }

  lemma LookAll(s: State, number: nat) returns (acts: seq<Action>, t: State)
    requires LastPass(s, number)
    ensures Run(s, acts) == Some(t) && LastPass(t, number) && t.tick.value.pending == {}
  {
    hide Run, Step, Inv;
    acts, t := [], s;
    RunNone(s);
    while t.tick.value.pending != {}
      invariant Run(s, acts) == Some(t) && LastPass(t, number)
      decreases |t.tick.value.pending|
    {
      var id :| id in t.tick.value.pending;
      var u := LookOne(t, id, number);
      RunSnoc(s, acts, TickOne(id));
      acts, t := acts + [TickOne(id)], u;
    }
  }

  lemma LastEnd(s: State, number: nat) returns (t: State)
    requires LastPass(s, number) && s.tick.value.pending == {}
    ensures Step(s, TickEnd) == Some(t) && Inv(t) && t.exited && t.nextId == number
  {
    t := DoTick(s, TickEnd).value;
    hide Inv;
    StepKeeps(s, TickEnd);
  }

  lemma Exited(s: State)
    requires Inv(s) && s.exited
    ensures s.tasks == map[] && s.running == map[] && s.workers == {}
    ensures forall id :: 1 <= id <= s.nextId <==> id in s.retired
  {
    hide QueueOk, PlacedOk, CancelingOk, PrevOk, TickOk;
    assert s.running.Keys == {};
  }

  /** From every state without a call in flight and between two passes, a
      shutdown that workers and reporter answer goes through: the workers are
      gone, the reporter has exited, and every task enqueued so far is retired. */
  lemma ShutdownGoesThrough(s: State) returns (acts: seq<Action>, t: State)
    requires Inv(s) && !s.shutdown && s.canceling == {} && s.tick.None?
    ensures Run(s, [ShutFlag] + acts) == Some(t) && t.exited
    ensures t.workers == {} && t.running == map[] && t.tasks == map[]
    ensures t.nextId == s.nextId && forall id :: id in t.retired <==> 1 <= id <= s.nextId
  {
    hide Run, Step, Stopping, LastPass, Inv;
    var n := s.nextId;
    var a := Draining(s);
    var ends, b := EndAll(a, n);
    var marks, c := MarkAll(b, n);
    var exits, d := ExitAll(c, n);
    var e := Joining(d, n);
    var looks, f := LookAll(e, n);
    t := LastEnd(f, n);
    Exited(t);
    var join := [ShutJoin, ReporterBreak, TickStart];
    RunSnoc(e, looks, TickEnd);
    RunConcat(d, join, looks + [TickEnd]);
    RunConcat(c, exits, join + (looks + [TickEnd]));
    RunConcat(b, marks, exits + (join + (looks + [TickEnd])));
    RunConcat(a, ends, marks + (exits + (join + (looks + [TickEnd]))));
    var rest := ends + (marks + (exits + (join + (looks + [TickEnd]))));
    RunConcat(s, [ShutFlag, ShutDrain], rest);
    acts := [ShutDrain] + rest;
    assert [ShutFlag] + acts == [ShutFlag, ShutDrain] + rest;
  }
}
