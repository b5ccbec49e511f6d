// The service with a stage for every task that runs, of which the task queue alone decides: it never has two, and does
// what the service with one stage does (MatrixSDK/Background/MXBackgroundSyncService.swift,
// MatrixSDK/Utils/MXAsyncTaskQueue.swift).
module TasksOfTheService {
  import opened Wrappers
  import opened SyncStore
  import opened Crypto
  import opened SyncService
  import opened BackgroundSync
  import opened ChainSafety
  import opened RequestsInTurn
  import opened RunPieces
  import opened Termination
  import TaskQueue = AsyncTaskQueue

  /** `stages` has one entry for each task that runs; the service in `system` has no stage of its own, and its queue
      lists the requests whose task has not started. */
  datatype Tasked = Tasked(system: System, tasks: TaskQueue.Queue, stages: map<nat, Stage>)

  datatype Move =
    | Outside(a: Action)                          // of the homeserver, the session and the process of the service
    | Schedule(eventId: string, roomId: string)   // a call
    | Pass                                        // the next task enters the group
    | Begin(task: nat)                            // a dispatched task starts
    | OfTask(task: nat, a: Action)                // a step of a task that runs
    | Finish(task: nat)                           // a task delivers its result and calls its completion

  predicate IsOutside(a: Action) {
    OfSession(a) || a.Append? || a.Init? || a.ServiceStops?
  }

  predicate IsOfTask(a: Action) {
    OfRequest(a) || a.ServiceAsks? || a.WriteCutOff?
  }

  // The system as one task sees it.
  function With(m: Tasked, stage: Stage, queue: seq<Request>): System
    requires m.system.service.Some?
  {
    m.system.(service := Some(m.system.service.value.(stage := stage, queue := queue)))
  }

  function Without(queue: seq<Request>, no: nat): seq<Request> {
    if queue == [] then []
    else (if queue[0].no == no then [] else [queue[0]]) + Without(queue[1..], no)
  }

  // The request of a task first, then those that have not started either.
  function Taken(m: Tasked, task: nat): System
    requires m.system.service.Some? && task < |m.system.service.value.calls|
  {
    var v := m.system.service.value;
    With(m, Idle, [v.calls[task]] + Without(v.queue, task))
  }

  function OfStage(m: Tasked, task: nat): System
    requires m.system.service.Some? && task in m.stages
  {
    With(m, m.stages[task], m.system.service.value.queue)
  }

  ghost predicate CanMove(m: Tasked, move: Move) {
    match move
    case Outside(a) => IsOutside(a) && Enabled(m.system, a)
    case Schedule(_, _) => m.system.service.Some?
    case Pass => m.system.service.Some? && TaskQueue.Enabled(m.tasks, TaskQueue.Admit)
    case Begin(t) =>
      m.system.service.Some? && TaskQueue.Enabled(m.tasks, TaskQueue.Run(t))
      && t < |m.system.service.value.calls| && Enabled(Taken(m, t), BeginRequest)
    case OfTask(t, a) => m.system.service.Some? && t in m.stages && IsOfTask(a) && Enabled(OfStage(m, t), a)
    case Finish(t) =>
      m.system.service.Some? && t in m.stages && m.stages[t].Completing?
        && TaskQueue.Enabled(m.tasks, TaskQueue.Complete(t))
  }

  // A step of a task leaves its stage with it.
  function Put(m: Tasked, task: nat, s: System, tasks: TaskQueue.Queue): Tasked {
    if s.service.None? then Tasked(s, TaskQueue.EMPTY, map[])
    else Tasked(WithStage(s, Idle), tasks, m.stages[task := s.service.value.stage])
  }

  ghost function Moved(o: Oracle, m: Tasked, move: Move): Tasked
    requires CanMove(m, move)
  {
    match move
    case Outside(a) =>
      var s := Next(o, m.system, a);
      if a.Init? || s.service.None? then Tasked(s, TaskQueue.EMPTY, map[]) else m.(system := s)
    case Schedule(eventId, roomId) =>
      m.(system := Next(o, m.system, Call(eventId, roomId)), tasks := TaskQueue.Next(m.tasks, TaskQueue.Async))
    case Pass => m.(tasks := TaskQueue.Next(m.tasks, TaskQueue.Admit))
    case Begin(t) => Put(m, t, Next(o, Taken(m, t), BeginRequest), TaskQueue.Next(m.tasks, TaskQueue.Run(t)))
    case OfTask(t, a) => Put(m, t, Next(o, OfStage(m, t), a), m.tasks)
    case Finish(t) =>
      Tasked(Next(o, OfStage(m, t), Deliver), TaskQueue.Next(m.tasks, TaskQueue.Complete(t)), m.stages - {t})
  }

  ghost predicate TasksReach(o: Oracle, m: Tasked, moves: seq<Move>, end: Tasked)
    decreases |moves|
  {
    if moves == [] then m == end
    else CanMove(m, moves[0]) && TasksReach(o, Moved(o, m, moves[0]), moves[1..], end)
  }

  // ---- The invariant ----

  /** The stages are those of the running tasks, and the requests are numbered like the tasks. */
  ghost predicate InStep(m: Tasked) {
    if m.system.service.None? then m.tasks == TaskQueue.EMPTY && m.stages == map[]
    else
      var v, n := m.system.service.value, |m.tasks.marks| / 2;
      && TaskQueue.Inv(m.tasks) && m.stages.Keys == m.tasks.running && v.stage == Idle
      && m.tasks.calls == |v.calls| && (forall i | 0 <= i < |v.calls| :: v.calls[i].no == i)
      && n + |m.tasks.running| <= |v.calls| && v.queue == v.calls[n + |m.tasks.running|..]
      && (forall t | t in m.stages :: !m.stages[t].Idle?)
  }

  /** The service with one stage: that of the task that runs. */
  function OneStage(m: Tasked): System {
    var n := |m.tasks.marks| / 2;
    if m.system.service.Some? && n in m.stages then OfStage(m, n) else m.system
  }

  /** What a move is in the service with one stage. */
  function ActionsOf(move: Move): seq<Action> {
    match move
    case Outside(a) => [a]
    case Schedule(eventId, roomId) => [Call(eventId, roomId)]
    case Pass => []
    case Begin(_) => [BeginRequest]
    case OfTask(_, a) => [a]
    case Finish(_) => [Deliver]
  }

  lemma AtMostOne(m: Tasked)
    requires InStep(m)
    ensures |m.stages| <= 1 && forall t | t in m.stages :: t == |m.tasks.marks| / 2
  {
    var n := |m.tasks.marks| / 2;
    assert m.stages.Keys == {} || m.stages.Keys == {n};
    assert |m.stages| == |m.stages.Keys|;
  }

  // ---- Each move is a step with one stage ----

  // The move is these steps of the service with one stage, and the invariant is kept.
  ghost predicate Simulated(o: Oracle, m: Tasked, move: Move) {
    CanMove(m, move) && InStep(Moved(o, m, move))
    && Reaches(o, OneStage(m), ActionsOf(move), OneStage(Moved(o, m, move)))
  }

  lemma ByOneStep(o: Oracle, m: Tasked, move: Move, a: Action)
    requires CanMove(m, move) && InStep(Moved(o, m, move)) && ActionsOf(move) == [a]
    requires Enabled(OneStage(m), a) && Next(o, OneStage(m), a) == OneStage(Moved(o, m, move))
    ensures Simulated(o, m, move)
  {
    hide CanMove, InStep, Enabled, Next, Moved, OneStage, Reaches;
    OneStep(o, OneStage(m), a, OneStage(Moved(o, m, move)));
  }

  lemma OutsideIgnoresService(o: Oracle, s: System, a: Action, v: Service)
    requires (OfSession(a) || a.Append?) && s.service.Some? && Enabled(s, a)
    ensures Enabled(s.(service := Some(v)), a)
    ensures Next(o, s.(service := Some(v)), a) == Next(o, s, a).(service := Some(v))
            && Next(o, s, a).service == s.service
  {
    hide HandleCached, ReplayRooms, DeleteStep;
  }

  lemma SameService(m: Tasked, s: System)
    requires InStep(m) && m.system.service.Some? && s.service == m.system.service
    ensures InStep(m.(system := s)) && OneStage(m.(system := s)) == s.(service := OneStage(m).service)
  {
    hide TaskQueue.Inv;
  }

  lemma OutsideBesideService(o: Oracle, m: Tasked, a: Action)
    requires InStep(m) && CanMove(m, Outside(a)) && !a.Init? && !a.ServiceStops? && m.system.service.Some?
    ensures InStep(Moved(o, m, Outside(a))) && Enabled(OneStage(m), a)
    ensures Next(o, OneStage(m), a) == OneStage(Moved(o, m, Outside(a)))
  {
    OutsideIgnoresService(o, m.system, a, OneStage(m).service.value);
    hide Next, Enabled;
    SameService(m, Next(o, m.system, a));
    hide InStep;
  }

  lemma OutsideStarts(o: Oracle, m: Tasked, a: Action)
    requires InStep(m) && CanMove(m, Outside(a)) && a.Init?
    ensures InStep(Moved(o, m, Outside(a))) && Enabled(OneStage(m), a)
    ensures Next(o, OneStage(m), a) == OneStage(Moved(o, m, Outside(a)))
  {
    assert Next(o, m.system, a).service == Some(NewService(m.system.session.token));
    hide Next, Enabled;
  }

  lemma OutsideOfNone(o: Oracle, m: Tasked, a: Action)
    requires InStep(m) && CanMove(m, Outside(a)) && !a.Init? && (a.ServiceStops? || m.system.service.None?)
    ensures InStep(Moved(o, m, Outside(a))) && Enabled(OneStage(m), a)
    ensures Next(o, OneStage(m), a) == OneStage(Moved(o, m, Outside(a)))
  {
    hide HandleCached, ReplayRooms, DeleteStep, Reply, Reset;
  }

  lemma OutsideIsAStep(o: Oracle, m: Tasked, a: Action)
    requires InStep(m) && CanMove(m, Outside(a))
    ensures Simulated(o, m, Outside(a))
  {
    hide Next, Enabled, InStep, OneStage, Moved, CanMove;
    if a.Init? {
      OutsideStarts(o, m, a);
    } else if a.ServiceStops? || m.system.service.None? {
      OutsideOfNone(o, m, a);
    } else {
      OutsideBesideService(o, m, a);
    }
    ByOneStep(o, m, Outside(a), a);
  }

  function WithCall(v: Service, r: Request): Service {
    v.(queue := v.queue + [r], calls := v.calls + [r])
  }

  lemma CallIs(o: Oracle, s: System, eventId: string, roomId: string)
    requires s.service.Some?
    ensures var v := s.service.value;
            Enabled(s, Call(eventId, roomId))
            && Next(o, s, Call(eventId, roomId))
               == s.(service := Some(WithCall(v, Request(|v.calls|, eventId, roomId))))
  {
  }

  lemma CallIsInStep(m: Tasked, tasks: TaskQueue.Queue, r: Request)
    requires InStep(m) && m.system.service.Some? && r.no == |m.system.service.value.calls|
    requires TaskQueue.Inv(tasks) && tasks == m.tasks.(calls := m.tasks.calls + 1, waiting := tasks.waiting)
    ensures var m' := m.(system := m.system.(service := Some(WithCall(m.system.service.value, r))), tasks := tasks);
            && InStep(m')
            && OneStage(m') == OneStage(m).(service := Some(WithCall(OneStage(m).service.value, r)))
  {
    hide TaskQueue.Inv;
  }

  lemma CallIsAStep(o: Oracle, m: Tasked, eventId: string, roomId: string)
    requires InStep(m) && CanMove(m, Schedule(eventId, roomId))
    ensures Simulated(o, m, Schedule(eventId, roomId))
  {
    TaskQueue.StepKeeps(m.tasks, TaskQueue.Async);
    CallIs(o, m.system, eventId, roomId);
    CallIs(o, OneStage(m), eventId, roomId);
    CallIsInStep(m, TaskQueue.Next(m.tasks, TaskQueue.Async), Request(|m.system.service.value.calls|, eventId, roomId));
    hide Next, Enabled, InStep, TaskQueue.Inv, WithCall;
    ByOneStep(o, m, Schedule(eventId, roomId), Call(eventId, roomId));
  }

  lemma PassIsNoStep(o: Oracle, m: Tasked)
    requires InStep(m) && CanMove(m, Pass)
    ensures Simulated(o, m, Pass)
  {
    TaskQueue.StepKeeps(m.tasks, TaskQueue.Admit);
    hide TaskQueue.Inv;
  }

  lemma {:induction false} WithoutNothing(queue: seq<Request>, no: nat)
    requires forall i | 0 <= i < |queue| :: queue[i].no != no
    ensures Without(queue, no) == queue
  {
    if queue != [] {
      WithoutNothing(queue[1..], no);
      assert queue == [queue[0]] + queue[1..];
    }
  }

  lemma WithoutHead(head: Request, rest: seq<Request>)
    requires forall i | 0 <= i < |rest| :: rest[i].no != head.no
    ensures Without([head] + rest, head.no) == rest
  {
    WithoutNothing(rest, head.no);
    assert ([head] + rest)[1..] == rest && [] + rest == rest;
  }

  lemma HeadTakenOut(calls: seq<Request>, t: nat)
    requires t < |calls| && forall i | 0 <= i < |calls| :: calls[i].no == i
    ensures [calls[t]] + Without(calls[t..], t) == calls[t..]
  {
    hide Without;
    WithoutHead(calls[t], calls[t + 1..]);
    assert calls[t..] == [calls[t]] + calls[t + 1..];
  }

  // Only the next task can start, and its request is the first of those that have not.
  lemma TakenIsNext(m: Tasked, t: nat)
    requires InStep(m) && CanMove(m, Begin(t))
    ensures t == |m.tasks.marks| / 2 && m.stages == map[] && Taken(m, t) == m.system && OneStage(m) == m.system
  {
    hide Enabled, Without;
    var v := m.system.service.value;
    assert m.tasks.running == {} && m.tasks.dispatched == {t};
    assert m.stages.Keys == {};
    HeadTakenOut(v.calls, t);
  }

  lemma BeginIsAStep(o: Oracle, m: Tasked, t: nat)
    requires InStep(m) && Inv(OneStage(m)) && CanMove(m, Begin(t))
    ensures Simulated(o, m, Begin(t))
  {
    TakenIsNext(m, t);
    assert Enabled(m.system, BeginRequest);
    assert Next(o, m.system, BeginRequest).service.Some? by {
      hide Inv, InStep, CheckStores, Ask;
    }
    StepFields(o, m.system, BeginRequest);
    TaskQueue.StepKeeps(m.tasks, TaskQueue.Run(t));
    hide Next, Enabled, Inv, Taken;
    PutIsInStep(m, t, Next(o, m.system, BeginRequest), TaskQueue.Next(m.tasks, TaskQueue.Run(t)));
    hide InStep, TaskQueue.Inv;
    ByOneStep(o, m, Begin(t), BeginRequest);
  }

  lemma PutIsInStep(m: Tasked, t: nat, s: System, tasks: TaskQueue.Queue)
    requires InStep(m) && m.system.service.Some? && t == |m.tasks.marks| / 2 == |tasks.marks| / 2
    requires TaskQueue.Inv(tasks) && tasks.running == {t} && m.stages.Keys <= {t} && tasks.calls == m.tasks.calls
    requires s.service.Some? ==>
               var v, v' := m.system.service.value, s.service.value;
               v'.calls == v.calls && !v'.stage.Idle? && t < |v.calls| && v'.queue == v.calls[t + 1..]
    ensures InStep(Put(m, t, s, tasks)) && OneStage(Put(m, t, s, tasks)) == s
  {
    hide TaskQueue.Inv;
    if s.service.Some? {
      assert Put(m, t, s, tasks).stages.Keys == {t};
    }
  }

  lemma RunningIs(m: Tasked, t: nat)
    requires InStep(m) && t in m.stages
    ensures t == |m.tasks.marks| / 2 && m.tasks.running == {t} && m.stages.Keys == {t} && TaskQueue.Inv(m.tasks)
    ensures m.system.service.Some? && OneStage(m) == OfStage(m, t) && !m.stages[t].Idle?
    ensures var v := m.system.service.value; t < |v.calls| && v.queue == v.calls[t + 1..]
  {
    AtMostOne(m);
    assert m.stages.Keys == {t};
  }

  lemma TaskStepIsAStep(o: Oracle, m: Tasked, t: nat, a: Action)
    requires InStep(m) && Inv(OneStage(m)) && CanMove(m, OfTask(t, a))
    ensures Simulated(o, m, OfTask(t, a))
  {
    RunningIs(m, t);
    hide Next, Enabled, Inv, InStep, TaskQueue.Inv, OneStage;
    var s, s' := OneStage(m), Next(o, OneStage(m), a);
    if s'.service.Some? {
      StepFields(o, s, a);
    }
    PutIsInStep(m, t, s', m.tasks);
    ByOneStep(o, m, OfTask(t, a), a);
  }

  lemma FinishIsInStep(m: Tasked, t: nat, s: System, tasks: TaskQueue.Queue)
    requires InStep(m) && m.system.service.Some? && t == |m.tasks.marks| / 2 && m.tasks.running == {t}
    requires TaskQueue.Inv(tasks) && tasks.running == {} && |tasks.marks| / 2 == t + 1 && tasks.calls == m.tasks.calls
    requires s.service.Some? && var v, v' := m.system.service.value, s.service.value;
                                v'.calls == v.calls && v'.stage.Idle? && v'.queue == v.queue
    ensures InStep(Tasked(s, tasks, m.stages - {t})) && OneStage(Tasked(s, tasks, m.stages - {t})) == s
  {
    hide TaskQueue.Inv;
    assert (m.stages - {t}).Keys == {};
  }

  lemma FinishIsAStep(o: Oracle, m: Tasked, t: nat)
    requires InStep(m) && Inv(OneStage(m)) && CanMove(m, Finish(t))
    ensures Simulated(o, m, Finish(t))
  {
    AtMostOne(m);
    var s, s' := OneStage(m), Next(o, OneStage(m), Deliver);
    assert s == OfStage(m, t) && Enabled(s, Deliver) && m.tasks.running == {t};
    assert s'.service.Some? by {
      hide Inv, InStep;
    }
    StepFields(o, s, Deliver);
    TaskQueue.StepKeeps(m.tasks, TaskQueue.Complete(t));
    hide Next, Enabled, Inv;
    FinishIsInStep(m, t, s', TaskQueue.Next(m.tasks, TaskQueue.Complete(t)));
    hide InStep, TaskQueue.Inv;
    ByOneStep(o, m, Finish(t), Deliver);
  }

  /** With a stage for every task, each move is a step of the service with one stage, or none. */
  lemma MoveIsAStep(o: Oracle, m: Tasked, move: Move)
    requires InStep(m) && Inv(OneStage(m)) && CanMove(m, move)
    ensures Simulated(o, m, move)
  {
    hide InStep, Inv, Simulated, CanMove;
    match move {
      case Outside(a) => OutsideIsAStep(o, m, a);
      case Schedule(eventId, roomId) => CallIsAStep(o, m, eventId, roomId);
      case Pass => PassIsNoStep(o, m);
      case Begin(t) => BeginIsAStep(o, m, t);
      case OfTask(t, a) => TaskStepIsAStep(o, m, t, a);
      case Finish(t) => FinishIsAStep(o, m, t);
    }
  }

  // ---- Runs ----

  function Beginning(): Tasked {
    Tasked(Start(), TaskQueue.EMPTY, map[])
  }

  lemma {:induction false} TasksAreOneStage(o: Oracle, m: Tasked, moves: seq<Move>, end: Tasked)
    returns (run: seq<Action>)
    requires InStep(m) && Inv(OneStage(m)) && TasksReach(o, m, moves, end)
    ensures InStep(end) && Reaches(o, OneStage(m), run, OneStage(end))
    decreases |moves|
  {
    if moves == [] {
      run := [];
    } else {
      MoveIsAStep(o, m, moves[0]);
      var m' := Moved(o, m, moves[0]);
      RunKeeps(o, OneStage(m), ActionsOf(moves[0]), OneStage(m'));
      hide InStep, Inv, CanMove, Moved, OneStage, Reaches;
      run := TasksAreOneStage(o, m', moves[1..], end);
      RunsJoined(o, OneStage(m), ActionsOf(moves[0]), OneStage(m'), run, OneStage(end));
      run := ActionsOf(moves[0]) + run;
    }
  }

  /** In every run of the service in which each dispatched task has a stage of its own and only the queue decides which
      tasks start: at most one task runs, the tasks start and complete in the order of the calls, and what the service
      does is what the service with one stage does in some run. So all that holds in every run of that one holds
      here. */
  lemma TasksNeverOverlap(o: Oracle, moves: seq<Move>, end: Tasked) returns (run: seq<Action>)
    requires TasksReach(o, Beginning(), moves, end)
    ensures |end.stages| <= 1 && end.stages.Keys == end.tasks.running && TaskQueue.OneAfterTheOther(end.tasks.marks)
    ensures Reaches(o, Start(), run, OneStage(end))
  {
    StartIsSafe();
    run := TasksAreOneStage(o, Beginning(), moves, end);
    AtMostOne(end);
    hide Reaches, TasksReach;
  }
}
