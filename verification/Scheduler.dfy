/** The download manager as a state machine: callers, workers, the reporter and
    shutdown take turns at their locks. A run is any interleaving. */
module Scheduler {
  import opened Wrappers
  import opened Tasks
  import opened TaskQueue

  datatype TaskRec = TaskRec(size: nat, state: TaskState, err: TaskErr, done: nat, cancel: bool)

  /** One task callback. */
  datatype Call = Call(id: nat, state: TaskState, err: TaskErr, done: nat)

  /** A task at the moment the reporter counted it. */
  datatype Counted = Counted(id: nat, state: TaskState, done: nat, size: nat)

  /** A pass of the reporter: the snapshot's tasks still to look at, those to
      retire at its end, the size of the live ones seen; upTo is the number of
      tasks enqueued when it began. */
  datatype Tick = Tick(pending: set<nat>, gone: set<nat>, liveTotal: nat, upTo: nat)

  /** open: the workers whose sink has a writer in progress. */
  datatype State = State(
    nextId: nat, nextSeq: nat, queue: seq<HeapTask>, paused: bool, shutdown: bool, drained: bool,
    tasks: map<nat, TaskRec>, workers: set<nat>, running: map<nat, nat>, open: set<nat>, canceling: set<nat>,
    stop: bool, looping: bool, exited: bool, tick: Option<Tick>, prev: map<nat, (TaskState, nat)>,
    doneTotal: nat, failedTotal: nat, bytesDoneTotal: nat, bytesTotalTotal: nat,
    // histories
    sizes: seq<nat>, retired: set<nat>, counted: seq<Counted>, calls: seq<Call>)

  datatype Action =
    | Enqueue(size: nat, priority: int)
    | SetPriority(id: nat, priority: int)
    | Pause
    | Resume
    | CancelQueued(id: nat)
    | CancelFlag(id: nat)
    | CancelMark(id: nat)
    | DrainAll
    | Take(w: nat)
    | Progress(w: nat, done: nat)
    | Verify(w: nat)
    | OpenWriter(w: nat)
    | CloseWriter(w: nat)
    | End(w: nat, state: TaskState, err: TaskErr)
    | WorkerExit(w: nat)
    | TickStart
    | TickOne(id: nat)
    | TickEnd
    | ShutFlag
    | ShutDrain
    | ShutJoin
    | ReporterBreak

  function Ids(q: seq<HeapTask>): (r: set<nat>)
    ensures forall id :: id in r <==> exists t :: t in q && t.id == id
  {
    set t | t in q :: t.id
  }

  function Flagged(tasks: map<nat, TaskRec>): (r: map<nat, TaskRec>)
    ensures r.Keys == tasks.Keys
  {
    map id | id in tasks :: tasks[id].(cancel := true)
  }

  // --- callers ---

  function DoCaller(s: State, a: Action): Option<State> {
    if s.shutdown then None
    else
      match a
      case Enqueue(size, priority) =>
        var id, seqNo := s.nextId + 1, s.nextSeq + 1;
        Some(s.(nextId := id, nextSeq := seqNo, queue := s.queue + [HeapTask(priority, seqNo, id)],
                tasks := s.tasks[id := TaskRec(size, Pending, NoErr, 0, false)], sizes := s.sizes + [size]))
      case SetPriority(id, priority) =>
        if HasId(s.queue, id) then Some(s.(queue := Reprioritized(s.queue, id, priority))) else None
      case Pause => Some(s.(paused := true))
      case Resume => Some(s.(paused := false))
      case CancelQueued(id) =>
        if HasId(s.queue, id) then Some(s.(queue := WithoutId(s.queue, id), canceling := s.canceling + {id})) else None
      case CancelFlag(id) =>
        if id in s.tasks then Some(s.(tasks := s.tasks[id := s.tasks[id].(cancel := true)])) else None
      case DrainAll =>
        Some(s.(queue := [], canceling := s.canceling + Ids(s.queue), tasks := Flagged(s.tasks)))
      case _ => None
  }

  /** mark_canceled, by whoever removed the task from the queue. */
  function DoMark(s: State, id: nat): Option<State> {
    if id !in s.canceling || id !in s.tasks then None
    else
      Some(s.(canceling := s.canceling - {id},
              tasks := s.tasks[id := s.tasks[id].(cancel := true, err := CanceledErr, state := Canceled)]))
  }

  // --- workers ---

  function DoWorker(s: State, a: Action): Option<State> {
    match a
    case Take(w) =>
      if w !in s.workers || w in s.running || s.shutdown || s.paused || s.queue == [] then None
      else
        var t := s.queue[Best(s.queue)];
        if t.id !in s.tasks then None
        else
          Some(s.(queue := WithoutAt(s.queue, Best(s.queue)), running := s.running[w := t.id],
                  tasks := s.tasks[t.id := s.tasks[t.id].(state := Running)]))
    case Progress(w, done) =>
      if w !in s.running || s.running[w] !in s.tasks then None
      else Some(s.(tasks := s.tasks[s.running[w] := s.tasks[s.running[w]].(done := done)]))
    case Verify(w) =>
      if w !in s.running || s.running[w] !in s.tasks then None
      else Some(s.(tasks := s.tasks[s.running[w] := s.tasks[s.running[w]].(state := Verifying)]))
    case OpenWriter(w) =>
      if w !in s.running then None else Some(s.(open := s.open + {w}))
    case CloseWriter(w) =>
      if w !in s.open then None else Some(s.(open := s.open - {w}))
    case End(w, state, err) =>
      // run_task ends no task before its sink has finished or aborted (Worker.RunTask)
      if w !in s.running || w in s.open || s.running[w] !in s.tasks || !Terminal(state)
        || !Matches(state, err) then None
      else
        Some(s.(running := s.running - {w},
                tasks := s.tasks[s.running[w] := s.tasks[s.running[w]].(state := state, err := err)]))
    case WorkerExit(w) =>
      if w !in s.workers || w in s.running || !s.shutdown then None else Some(s.(workers := s.workers - {w}))
    case _ => None
  }

  // --- the reporter ---

  function DoTick(s: State, a: Action): Option<State> {
    match a
    case TickStart =>
      if s.tick.Some? || s.exited then None else Some(s.(tick := Some(Tick(s.tasks.Keys, {}, 0, s.nextId))))
    case TickOne(id) =>
      if s.tick.None? || id !in s.tick.value.pending || id !in s.tasks then None else Some(LookAt(s, id))
    case TickEnd =>
      if s.tick.None? || s.tick.value.pending != {} then None
      else
        var k := s.tick.value;
        Some(s.(tick := None, tasks := s.tasks - k.gone, prev := s.prev - k.gone, retired := s.retired + k.gone,
                exited := !s.looping))
    case ReporterBreak =>
      if s.tick.Some? || !s.stop || !s.looping then None else Some(s.(looping := false))
    case _ => None
  }

  /** The loop body of report_tick for one task of the snapshot. */
  function LookAt(s: State, id: nat): State
    requires s.tick.Some? && id in s.tasks
  {
    var k, t := s.tick.value, s.tasks[id];
    var changed := id !in s.prev || s.prev[id] != (t.state, t.done);
    var u := s.(calls := if changed then s.calls + [Call(id, t.state, t.err, t.done)] else s.calls);
    if Terminal(t.state) then
      u.(tick := Some(k.(pending := k.pending - {id}, gone := k.gone + {id})),
         doneTotal := s.doneTotal + (if t.state.Done? then 1 else 0),
         failedTotal := s.failedTotal + (if t.state.Failed? then 1 else 0),
         bytesDoneTotal := s.bytesDoneTotal + t.done, bytesTotalTotal := s.bytesTotalTotal + t.size,
         counted := s.counted + [Counted(id, t.state, t.done, t.size)])
    else
      u.(tick := Some(k.(pending := k.pending - {id}, liveTotal := k.liveTotal + t.size)),
         prev := s.prev[id := (t.state, t.done)])
  }

  // --- shutdown ---

  function DoShut(s: State, a: Action): Option<State> {
    match a
    case ShutFlag =>
      // no other call is in flight: nobody is between its two locks
      if s.shutdown || s.canceling != {} then None else Some(s.(shutdown := true, paused := false))
    case ShutDrain =>
      if !s.shutdown || s.drained then None
      else Some(s.(drained := true, queue := [], canceling := s.canceling + Ids(s.queue), tasks := Flagged(s.tasks)))
    case ShutJoin =>
      if !s.drained || s.canceling != {} || s.workers != {} || s.stop then None else Some(s.(stop := true))
    case _ => None
  }

  function Step(s: State, a: Action): Option<State> {
    match a
    case CancelMark(id) => DoMark(s, id)
    case Take(_) => DoWorker(s, a)
    case Progress(_, _) => DoWorker(s, a)
    case Verify(_) => DoWorker(s, a)
    case OpenWriter(_) => DoWorker(s, a)
    case CloseWriter(_) => DoWorker(s, a)
    case End(_, _, _) => DoWorker(s, a)
    case WorkerExit(_) => DoWorker(s, a)
    case TickStart => DoTick(s, a)
    case TickOne(_) => DoTick(s, a)
    case TickEnd => DoTick(s, a)
    case ReporterBreak => DoTick(s, a)
    case ShutFlag => DoShut(s, a)
    case ShutDrain => DoShut(s, a)
    case ShutJoin => DoShut(s, a)
    case _ => DoCaller(s, a)
  }

  function Run(s: State, acts: seq<Action>): Option<State> {
    if acts == [] then Some(s)
    else
      match Run(s, acts[..|acts| - 1])
      case None => None
      case Some(t) => Step(t, acts[|acts| - 1])
  }

  /** A manager that has just been started with these workers. */
  function Started(workers: set<nat>): State {
    State(0, 0, [], false, false, false, map[], workers, map[], {}, {}, false, true, false, None, map[], 0, 0, 0, 0, [],
      {}, [], [])
  }
}
