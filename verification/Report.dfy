/** report_tick of report.rs as one call: a loop over the tasks of a snapshot
    that updates the totals, the table of the last reports and the task table. */
module Report {
  import opened Wrappers
  import opened Tasks
  import opened TaskQueue
  import opened Scheduler
  import opened SchedulerInv

  function Looks(order: seq<nat>): (r: seq<Action>)
    ensures |r| == |order|
  {
    seq(|order|, i requires 0 <= i < |order| => TickOne(order[i]))
  }

  /** A whole pass that looks at the tasks in this order. */
  function Pass(order: seq<nat>): seq<Action> {
    [TickStart] + Looks(order) + [TickEnd]
  }

  lemma RunLast(s: State, acts: seq<Action>, a: Action)
    requires Run(s, acts).Some?
    ensures Run(s, acts + [a]) == Step(Run(s, acts).value, a)
  {
    assert (acts + [a])[..|acts|] == acts;
  }

  /** What looking at one task changes. */
  lemma LookFields(u: State, id: nat)
    requires u.tick.Some? && id in u.tasks
    ensures var v, t := LookAt(u, id), u.tasks[id]; var over := Terminal(t.state); var k := u.tick.value;
      && v.tasks == u.tasks && v.looping == u.looping && v.exited == u.exited
      && (var changed := id !in u.prev || u.prev[id] != (t.state, t.done);
          v.calls == if changed then u.calls + [Call(id, t.state, t.err, t.done)] else u.calls)
      && v.prev == (if over then u.prev else u.prev[id := (t.state, t.done)])
      && v.doneTotal == u.doneTotal + (if t.state.Done? then 1 else 0)
      && v.failedTotal == u.failedTotal + (if t.state.Failed? then 1 else 0)
      && v.bytesDoneTotal == u.bytesDoneTotal + (if over then t.done else 0)
      && v.bytesTotalTotal == u.bytesTotalTotal + (if over then t.size else 0)
      && v.counted == (if over then u.counted + [Counted(id, t.state, t.done, t.size)] else u.counted)
      && v.tick == Some(Tick(k.pending - {id}, if over then k.gone + {id} else k.gone,
        if over then k.liveTotal else k.liveTotal + t.size, k.upTo))
  {
  }

  lemma EndFields(u: State)
    requires u.tick.Some? && u.tick.value.pending == {}
    ensures Step(u, TickEnd).Some?
    ensures var v, k := Step(u, TickEnd).value, u.tick.value;
      && v.tasks == u.tasks - k.gone && v.prev == u.prev - k.gone && v.calls == u.calls && v.counted == u.counted
      && v.doneTotal == u.doneTotal && v.failedTotal == u.failedTotal
      && v.bytesDoneTotal == u.bytesDoneTotal && v.bytesTotalTotal == u.bytesTotalTotal
  {
  }

  /** active_count, over these tasks. */
  function ActiveOf(snap: map<nat, TaskRec>, ids: set<nat>): set<nat> {
    set id | id in ids && id in snap && Active(snap[id].state)
  }

  lemma ActiveNext(snap: map<nat, TaskRec>, ids: set<nat>, id: nat)
    requires id in snap && id !in ids
    ensures |ActiveOf(snap, ids + {id})| == |ActiveOf(snap, ids)| + if Active(snap[id].state) then 1 else 0
  {
    var a, b := ActiveOf(snap, ids), ActiveOf(snap, ids + {id});
    assert b == if Active(snap[id].state) then a + {id} else a;
  }

  /** Progress of the tasks among these that have not ended. */
  function LiveDone(snap: map<nat, TaskRec>, order: seq<nat>): nat {
    if order == [] then 0
    else
      var id := order[|order| - 1];
      LiveDone(snap, order[..|order| - 1]) + (if id in snap && !Terminal(snap[id].state) then snap[id].done else 0)
  }

  lemma NothingYet(snap: map<nat, TaskRec>)
    ensures ActiveOf(snap, snap.Keys - snap.Keys) == {} && LiveDone(snap, []) == 0
  {
  }

  lemma LiveDoneNext(snap: map<nat, TaskRec>, order: seq<nat>, id: nat)
    ensures LiveDone(snap, order + [id])
         == LiveDone(snap, order) + if id in snap && !Terminal(snap[id].state) then snap[id].done else 0
  {
    assert (order + [id])[..|order|] == order;
  }

  /** The sequence lists the set without repetition. */
  ghost predicate Listed(order: seq<nat>, s: set<nat>) {
    (forall i, j :: 0 <= i < j < |order| ==> order[i] != order[j]) && (forall id :: id in order <==> id in s)
  }

  /** Every byte that a task of these which has not ended has received. */
  ghost function LiveBytes(snap: map<nat, TaskRec>, ids: set<nat>): set<(nat, nat)> {
    set id, k | id in ids && id in snap && !Terminal(snap[id].state) && 0 <= k < snap[id].done :: (id, k)
  }

  lemma {:induction false} FirstBytes(id: nat, n: nat)
    ensures |set k | 0 <= k < n :: (id, k)| == n
  {
    var b := set k | 0 <= k < n :: (id, k);
    if n == 0 {
      assert b == {};
    } else {
      FirstBytes(id, n - 1);
      assert b == (set k | 0 <= k < n - 1 :: (id, k)) + {(id, n - 1)};
    }
  }

  /** The sum over a list without repetitions counts them. */
  lemma {:induction false} LiveDoneCounts(snap: map<nat, TaskRec>, order: seq<nat>, ids: set<nat>)
    requires Listed(order, ids)
    ensures LiveDone(snap, order) == |LiveBytes(snap, ids)|
  {
    if order == [] {
      assert LiveBytes(snap, ids) == {};
    } else {
      var id, rest := order[|order| - 1], order[..|order| - 1];
      LiveDoneCounts(snap, rest, ids - {id});
      var mine := LiveBytes(snap, {id});
      assert LiveBytes(snap, ids) == LiveBytes(snap, ids - {id}) + mine;
      if id in snap && !Terminal(snap[id].state) {
        FirstBytes(id, snap[id].done);
        assert mine == set k | 0 <= k < snap[id].done :: (id, k);
      } else {
        assert mine == {};
      }
    }
  }

  /** The figures of the global callback. */
  datatype Figures = Figures(active: nat, doneCnt: nat, failedCnt: nat, bytesDone: nat, bytesTotal: nat)

  class Shared {
    var tasks: map<nat, TaskRec>
    var prev: map<nat, (TaskState, nat)>
    var doneTotal: nat
    var failedTotal: nat
    var bytesDoneTotal: nat
    var bytesTotalTotal: nat
    ghost var calls: seq<Call>
    ghost var counted: seq<Counted>

    constructor ()
      ensures tasks == map[] && prev == map[] && calls == [] && counted == []
      ensures doneTotal == 0 && failedTotal == 0 && bytesDoneTotal == 0 && bytesTotalTotal == 0
    {
      tasks, prev, calls, counted := map[], map[], [], [];
      doneTotal, failedTotal, bytesDoneTotal, bytesTotalTotal := 0, 0, 0, 0;
    }

    /** The fields are those of the state. */
    ghost predicate Agrees(s: State)
      reads this
    {
      && s.tasks == tasks && s.prev == prev && s.calls == calls && s.counted == counted
      && s.doneTotal == doneTotal && s.failedTotal == failedTotal
      && s.bytesDoneTotal == bytesDoneTotal && s.bytesTotalTotal == bytesTotalTotal
    }

    lemma AgreesStart(s: State, u: State)
      requires Agrees(s) && u == s.(tick := u.tick)
      ensures Agrees(u)
    {
    }

    lemma AgreesTasks(s: State)
      requires Agrees(s)
      ensures s.tasks == tasks
    {
    }

    /** The loop body for one task of the snapshot. */
    method Look(id: nat, ghost u: State) returns (retire: bool)
      requires Agrees(u) && u.tick.Some? && id in tasks
      modifies this`prev, this`doneTotal, this`failedTotal, this`bytesDoneTotal, this`bytesTotalTotal, this`calls,
        this`counted
      ensures retire == Terminal(tasks[id].state) && Agrees(LookAt(u, id))
    {
      hide LookAt;
      LookFields(u, id);
      var t := tasks[id];
      var changed := id !in prev || prev[id] != (t.state, t.done);
      retire := t.state == Done || t.state == Failed || t.state == Canceled;
      if retire {
        if t.state == Done {
          doneTotal := doneTotal + 1;
        } else if t.state == Failed {
          failedTotal := failedTotal + 1;
        }
        bytesDoneTotal := bytesDoneTotal + t.done;
        bytesTotalTotal := bytesTotalTotal + t.size;
        counted := counted + [Counted(id, t.state, t.done, t.size)];
      }
      if changed {
        calls := calls + [Call(id, t.state, t.err, t.done)];
      }
      if !retire {
        prev := prev[id := (t.state, t.done)];
      }
    }

    /** The end of the pass. */
    method Retire(retired: set<nat>, ghost u: State)
      requires Agrees(u) && u.tick.Some? && u.tick.value.pending == {} && u.tick.value.gone == retired
      modifies this`tasks, this`prev
      ensures tasks == old(tasks) - retired
      ensures Step(u, TickEnd).Some? && Agrees(Step(u, TickEnd).value)
    {
      hide Step;
      EndFields(u);
      tasks := tasks - retired;
      prev := prev - retired;
    }

    /** report_tick without other threads: it does what the machine's steps do,
        in the order in which the snapshot lists the tasks. */
    method ReportTick(ghost s: State) returns (figures: Figures, ghost order: seq<nat>)
      requires Agrees(s) && s.tick.None? && !s.exited
      modifies this
      ensures Listed(order, old(tasks.Keys))
      ensures Run(s, Pass(order)).Some? && Agrees(Run(s, Pass(order)).value)
      ensures Ended(old(tasks), {}, old(tasks.Keys) - tasks.Keys) && tasks.Keys <= old(tasks.Keys)
      ensures figures.active == |ActiveOf(old(tasks), old(tasks.Keys))|
      ensures figures.doneCnt == doneTotal && figures.failedCnt == failedTotal
      ensures figures.bytesDone == bytesDoneTotal + |LiveBytes(old(tasks), old(tasks.Keys))|
      ensures var u := Run(s, [TickStart] + Looks(order));
        u.Some? && u.value.tick.Some? && figures.bytesTotal == bytesTotalTotal + u.value.tick.value.liveTotal
    {
      hide Run, Looks, Pass, LookAt, Step, Agrees, Ended, Listed, Midway, ActiveOf, LiveDone, LiveBytes;
      AgreesTasks(s);
      var snap := tasks;
      var pending := tasks.Keys;
      var active: nat, bytesDone: nat, bytesTotal: nat := 0, 0, 0;
      var retired: set<nat> := {};
      order := [];
      ghost var u := StartedPass(s);
      assert Agrees(u) by { AgreesStart(s, u); }
      NothingYet(snap);
      while pending != {}
        invariant tasks == snap && Agrees(u) && Midway(s, u, snap, order, pending, retired, bytesTotal)
        invariant pending <= snap.Keys
        invariant active == |ActiveOf(snap, snap.Keys - pending)| && bytesDone == LiveDone(snap, order)
        decreases |pending|
      {
        var id :| id in pending;
        var t := snap[id];
        ActiveNext(snap, snap.Keys - pending, id);
        LiveDoneNext(snap, order, id);
        assert snap.Keys - (pending - {id}) == snap.Keys - pending + {id};
        ghost var before := u;
        MidwayTick(s, u, snap, order, pending, retired, bytesTotal);
        u := LookedAt(s, u, snap, order, pending, retired, bytesTotal, id);
        var retire := Look(id, before);
        order := order + [id];
        if retire {
          retired := retired + {id};
        } else {
          if t.state == Running || t.state == Verifying {
            active := active + 1;
          }
          bytesDone := bytesDone + t.done;
          bytesTotal := bytesTotal + t.size;
        }
        pending := pending - {id};
      }
      assert snap.Keys - pending == snap.Keys;
      EndedPass(s, u, snap, order, retired, bytesTotal);
      LiveDoneCounts(snap, order, snap.Keys);
      Retire(retired, u);
      figures := Figures(active, doneTotal, failedTotal, bytesDoneTotal + bytesDone, bytesTotalTotal + bytesTotal);
    }
  }

  /** The tasks looked at that had ended. */
  ghost predicate Ended(snap: map<nat, TaskRec>, pending: set<nat>, retired: set<nat>) {
    forall id :: id in retired <==> id in snap && id !in pending && Terminal(snap[id].state)
  }

  lemma EndedNext(snap: map<nat, TaskRec>, pending: set<nat>, retired: set<nat>, id: nat)
    requires Ended(snap, pending, retired) && id in pending && id in snap
    ensures Ended(snap, pending - {id}, if Terminal(snap[id].state) then retired + {id} else retired)
  {
  }

  lemma EndedAll(snap: map<nat, TaskRec>, retired: set<nat>)
    requires Ended(snap, {}, retired)
    ensures snap.Keys - (snap - retired).Keys == retired
  {
  }

  lemma ListNext(order: seq<nat>, s: set<nat>, id: nat)
    requires Listed(order, s) && id !in s
    ensures Listed(order + [id], s + {id})
  {
  }

  /** Between two tasks of a pass. */
  ghost predicate Midway(s: State, u: State, snap: map<nat, TaskRec>, order: seq<nat>, pending: set<nat>,
      retired: set<nat>, bytesTotal: nat) {
    && pending <= snap.Keys && Ended(snap, pending, retired) && Listed(order, snap.Keys - pending)
    && Run(s, [TickStart] + Looks(order)) == Some(u)
    && u.tasks == snap && u.tick == Some(Tick(pending, retired, bytesTotal, s.nextId))
  }

  lemma MidwayTick(s: State, u: State, snap: map<nat, TaskRec>, order: seq<nat>, pending: set<nat>, retired: set<nat>,
      bytesTotal: nat)
    requires Midway(s, u, snap, order, pending, retired, bytesTotal)
    ensures u.tick == Some(Tick(pending, retired, bytesTotal, s.nextId)) && u.tasks == snap
  {
  }

  lemma StartedPass(s: State) returns (u: State)
    requires s.tick.None? && !s.exited
    ensures Midway(s, u, s.tasks, [], s.tasks.Keys, {}, 0) && u == s.(tick := u.tick)
  {
    assert [TickStart] + Looks([]) == [] + [TickStart];
    RunLast(s, [], TickStart);
    u := Step(s, TickStart).value;
  }

  lemma LookedAt(s: State, u: State, snap: map<nat, TaskRec>, order: seq<nat>, pending: set<nat>, retired: set<nat>,
      bytesTotal: nat, id: nat)
    returns (v: State)
    requires Midway(s, u, snap, order, pending, retired, bytesTotal) && id in pending
    ensures v == LookAt(u, id)
    ensures var over := Terminal(snap[id].state);
      Midway(s, v, snap, order + [id], pending - {id}, if over then retired + {id} else retired,
             if over then bytesTotal else bytesTotal + snap[id].size)
  {
    hide LookAt, Run, Ended, Listed;
    assert [TickStart] + Looks(order + [id]) == [TickStart] + Looks(order) + [TickOne(id)];
    RunLast(s, [TickStart] + Looks(order), TickOne(id));
    LookFields(u, id);
    EndedNext(snap, pending, retired, id);
    ListNext(order, snap.Keys - pending, id);
    assert snap.Keys - (pending - {id}) == snap.Keys - pending + {id};
    v := LookAt(u, id);
  }

  lemma EndedPass(s: State, u: State, snap: map<nat, TaskRec>, order: seq<nat>, retired: set<nat>, bytesTotal: nat)
    requires Midway(s, u, snap, order, {}, retired, bytesTotal)
    ensures Run(s, [TickStart] + Looks(order)) == Some(u) && u.tick == Some(Tick({}, retired, bytesTotal, s.nextId))
    ensures Run(s, Pass(order)) == Step(u, TickEnd) && Step(u, TickEnd).Some?
    ensures Listed(order, snap.Keys) && Ended(snap, {}, snap.Keys - (snap - retired).Keys)
  {
    RunLast(s, [TickStart] + Looks(order), TickEnd);
    EndedAll(snap, retired);
    assert snap.Keys - {} == snap.Keys;
  }
}
