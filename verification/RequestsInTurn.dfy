// The requests of the service are tasks of its queue: where the service begins and completes a request, the queue of
// one task at a time lets it (MatrixSDK/Background/MXBackgroundSyncService.swift,
// MatrixSDK/Utils/MXAsyncTaskQueue.swift).
module RequestsInTurn {
  import opened Wrappers
  import opened SyncResponses
  import opened Crypto
  import opened EventDecryption
  import opened SyncService
  import opened BackgroundSync
  import opened ChainSafety
  import opened Requests
  import TaskQueue = AsyncTaskQueue

  function Numbers(queue: seq<Request>): seq<nat> {
    seq(|queue|, i requires 0 <= i < |queue| => queue[i].no)
  }

  // The history of n completed tasks.
  function MarksOf(n: nat): (marks: seq<TaskQueue.Mark>)
    ensures |marks| == 2 * n
  {
    if n == 0 then [] else MarksOf(n - 1) + [TaskQueue.Started(n - 1), TaskQueue.Completed(n - 1)]
  }

  /** The service seen as a task queue: the request in progress is the task that runs. */
  function TasksOf(v: Service): TaskQueue.Queue {
    var n := |v.done|;
    if v.stage.Idle?
    then TaskQueue.Queue(|v.calls|, Numbers(v.queue), 0, {}, {}, MarksOf(n))
    else TaskQueue.Queue(|v.calls|, Numbers(v.queue), 1, {}, {n}, MarksOf(n) + [TaskQueue.Started(n)])
  }

  /** What a step of the service asks of the queue. */
  function QueueSteps(v: Service, a: Action): seq<TaskQueue.Step> {
    match a
    case Call(_, _) => [TaskQueue.Async]
    case BeginRequest => [TaskQueue.Admit, TaskQueue.Run(|v.done|)]
    case Deliver => [TaskQueue.Complete(|v.done|)]
    case _ => []
  }

  lemma QueueOneStep(q: TaskQueue.Queue, step: TaskQueue.Step, q': TaskQueue.Queue)
    requires TaskQueue.Enabled(q, step) && TaskQueue.Next(q, step) == q'
    ensures TaskQueue.Reaches(q, [step], q')
  {
    assert [step][1..] == [];
    assert TaskQueue.Reaches(q', [], q');
  }

  lemma {:induction false} QueueRunsJoined(q: TaskQueue.Queue, run: seq<TaskQueue.Step>, mid: TaskQueue.Queue,
                                           rest: seq<TaskQueue.Step>, end: TaskQueue.Queue)
    requires TaskQueue.Reaches(q, run, mid) && TaskQueue.Reaches(mid, rest, end)
    ensures TaskQueue.Reaches(q, run + rest, end)
    decreases |run|
  {
    if run == [] {
      assert run + rest == rest;
    } else {
      QueueRunsJoined(TaskQueue.Next(q, run[0]), run[1..], mid, rest, end);
      assert (run + rest)[1..] == run[1..] + rest;
    }
  }

  lemma CallIsATask(v: Service, r: Request)
    requires InOrder(v) && r.no == |v.calls|
    ensures TaskQueue.Reaches(TasksOf(v), [TaskQueue.Async],
                              TasksOf(v.(queue := v.queue + [r], calls := v.calls + [r])))
  {
    assert Numbers(v.queue + [r]) == Numbers(v.queue) + [r.no];
    QueueOneStep(TasksOf(v), TaskQueue.Async, TasksOf(v.(queue := v.queue + [r], calls := v.calls + [r])));
  }

  lemma BeginIsATurn(v: Service, v': Service)
    requires InOrder(v) && v.stage.Idle? && v.queue != [] && !v'.stage.Idle?
    requires (v'.queue, v'.calls, v'.done) == (v.queue[1..], v.calls, v.done)
    ensures TaskQueue.Reaches(TasksOf(v), [TaskQueue.Admit, TaskQueue.Run(|v.done|)], TasksOf(v'))
  {
    var n, q := |v.done|, TasksOf(v);
    assert v.queue[0] == v.calls[n];
    assert Numbers(v.queue)[1..] == Numbers(v.queue[1..]);
    var mid := q.(group := 1, dispatched := {n}, waiting := Numbers(v.queue[1..]));
    assert {} + {n} == {n} && {n} - {n} == {};
    QueueOneStep(q, TaskQueue.Admit, mid);
    QueueOneStep(mid, TaskQueue.Run(n), TasksOf(v'));
    QueueRunsJoined(q, [TaskQueue.Admit], mid, [TaskQueue.Run(n)], TasksOf(v'));
    assert [TaskQueue.Admit] + [TaskQueue.Run(n)] == [TaskQueue.Admit, TaskQueue.Run(n)];
  }

  lemma DeliveryIsACompletion(v: Service, v': Service)
    requires !v.stage.Idle? && v'.stage.Idle? && |v'.done| == |v.done| + 1 && (v'.queue, v'.calls) == (v.queue, v.calls)
    ensures TaskQueue.Reaches(TasksOf(v), [TaskQueue.Complete(|v.done|)], TasksOf(v'))
  {
    var n := |v.done|;
    assert MarksOf(n) + [TaskQueue.Started(n)] + [TaskQueue.Completed(n)] == MarksOf(n + 1);
    assert {n} - {n} == {};
    QueueOneStep(TasksOf(v), TaskQueue.Complete(n), TasksOf(v'));
  }

  lemma SameTasks(v: Service, v': Service)
    requires (v'.stage.Idle? <==> v.stage.Idle?) && (v'.queue, v'.calls, v'.done) == (v.queue, v.calls, v.done)
    ensures TasksOf(v') == TasksOf(v) && TaskQueue.Reaches(TasksOf(v), [], TasksOf(v'))
  {
  }

  // What a step does to the fields that the queue sees.
  lemma StepFields(o: Oracle, s: System, a: Action)
    requires Inv(s) && Enabled(s, a) && s.service.Some? && Next(o, s, a).service.Some? && !a.Call?
    ensures var v, v' := s.service.value, Next(o, s, a).service.value;
            && v'.calls == v.calls
            && (a.BeginRequest? ==>
                  v.stage.Idle? && v.queue != [] && !v'.stage.Idle? && (v'.queue, v'.done) == (v.queue[1..], v.done))
            && (a.Deliver? ==> !v.stage.Idle? && v'.stage.Idle? && |v'.done| == |v.done| + 1 && v'.queue == v.queue)
            && (!a.BeginRequest? && !a.Deliver? ==>
                (v'.stage.Idle? <==> v.stage.Idle?) && (v'.queue, v'.done) == (v.queue, v.done))
  {
    assert ServiceSound(s);
    var l := LocalOf(s);
    if a.BeginRequest? {
      var l' := CheckStores(l, s.session.token);
      var l1 := l'.(service := l'.service.(queue := l.service.queue[1..], syncs := 0, keyed := 0));
      AskProgress(o, l1, l.service.queue[0], true);
      hide Ask, Inv, Keeps;
    } else if a.ContinueRequest? {
      AskProgress(o, l, l.service.stage.request, false);
      hide Ask, Inv, Keeps, CanDecrypt;
    } else if a.EventReply? {
      FetchedProgress(o, l, a.event);
      hide Fetched, Inv, Keeps;
    } else if a.Deliver? {
      hide Begin, Fetched, Continue, Inv;
    } else {
      OtherStepsMove(o, s, a);
      hide Next, Enabled, Inv;
    }
  }

  ghost predicate Scheduled(v: Service) {
    exists steps :: TaskQueue.Reaches(TaskQueue.EMPTY, steps, TasksOf(v))
  }

  /** Every step of the service is steps of its queue, none for what happens within a request. */
  lemma StepIsOnTheQueue(o: Oracle, s: System, a: Action)
    requires Inv(s) && Paced(s) && Enabled(s, a) && s.service.Some? && Next(o, s, a).service.Some?
    ensures TaskQueue.Reaches(TasksOf(s.service.value), QueueSteps(s.service.value, a),
                              TasksOf(Next(o, s, a).service.value))
  {
    var v, v' := s.service.value, Next(o, s, a).service.value;
    if a.Call? {
      var r := Request(|v.calls|, a.eventId, a.roomId);
      assert v' == v.(queue := v.queue + [r], calls := v.calls + [r]);
      hide Next, Enabled, Inv, TasksOf;
      CallIsATask(v, r);
    } else {
      StepFields(o, s, a);
      hide Next, Enabled, Inv, TasksOf, InOrder, TaskQueue.Reaches;
      if a.BeginRequest? {
        BeginIsATurn(v, v');
      } else if a.Deliver? {
        DeliveryIsACompletion(v, v');
      } else {
        SameTasks(v, v');
      }
    }
  }

  lemma StepIsScheduled(o: Oracle, s: System, a: Action)
    requires Inv(s) && Paced(s) && Enabled(s, a) && s.service.Some? && Next(o, s, a).service.Some?
             && Scheduled(s.service.value)
    ensures Scheduled(Next(o, s, a).service.value)
  {
    StepIsOnTheQueue(o, s, a);
    hide Next, Enabled, Inv, Paced, TasksOf, TaskQueue.Reaches;
    var v := s.service.value;
    var steps :| TaskQueue.Reaches(TaskQueue.EMPTY, steps, TasksOf(v));
    QueueRunsJoined(TaskQueue.EMPTY, steps, TasksOf(v), QueueSteps(v, a), TasksOf(Next(o, s, a).service.value));
  }

  lemma NewIsScheduled(token: Option<Token>)
    ensures Scheduled(NewService(token))
  {
    assert TasksOf(NewService(token)) == TaskQueue.EMPTY;
    assert TaskQueue.Reaches(TaskQueue.EMPTY, [], TaskQueue.EMPTY);
  }

  lemma StepFromNone(o: Oracle, s: System, a: Action)
    requires Enabled(s, a) && s.service.None? && Next(o, s, a).service.Some?
    ensures Next(o, s, a).service == Some(NewService(s.session.token))
  {
    hide Begin, Receive, Harvest, Fetched, Continue, HandleCached, Reply, Reset;
  }

  ghost predicate OnQueue(s: System) {
    s.service.Some? ==> Scheduled(s.service.value)
  }

  lemma StepStaysOnQueue(o: Oracle, s: System, a: Action)
    requires Inv(s) && Paced(s) && OnQueue(s) && Enabled(s, a)
    ensures OnQueue(Next(o, s, a))
  {
    hide Inv, Paced, Enabled, Next, Scheduled;
    if Next(o, s, a).service.Some? {
      if s.service.Some? {
        StepIsScheduled(o, s, a);
      } else {
        StepFromNone(o, s, a);
        NewIsScheduled(s.session.token);
      }
    }
  }

  lemma {:induction false} RunIsScheduled(o: Oracle, s: System, run: seq<Action>, end: System)
    requires Inv(s) && Paced(s) && OnQueue(s) && Reaches(o, s, run, end)
    ensures OnQueue(end)
    decreases |run|
  {
    if run != [] {
      StepKeeps(o, s, run[0]);
      StepPaces(o, s, run[0]);
      StepStaysOnQueue(o, s, run[0]);
      hide Inv, Paced, Next, Enabled, OnQueue;
      RunIsScheduled(o, Next(o, s, run[0]), run[1..], end);
    }
  }

  lemma BeginsInTurn(s: System)
    requires Inv(s) && s.service.Some?
    ensures var tasks := TasksOf(s.service.value);
            && (Enabled(s, BeginRequest) <==> TaskQueue.Enabled(tasks, TaskQueue.Admit))
            && (Enabled(s, BackgroundSync.Deliver) ==>
                TaskQueue.Enabled(tasks, TaskQueue.Complete(|s.service.value.done|)))
  {
    assert ServiceSound(s);
    hide Inv, MarksOf;
  }

  /** In every run the calls, beginnings and completions of a service are a run of the queue of one task at a time, so
      its requests neither overtake each other nor overlap; and a request can begin exactly when the queue lets its task
      pass. */
  lemma ServiceRunsOnItsQueue(o: Oracle, run: seq<Action>, end: System)
    requires Reaches(o, Start(), run, end) && end.service.Some?
    ensures var tasks := TasksOf(end.service.value);
            && (exists steps :: TaskQueue.Reaches(TaskQueue.EMPTY, steps, tasks))
            && TaskQueue.OneAfterTheOther(tasks.marks)
            && (Enabled(end, BeginRequest) <==> TaskQueue.Enabled(tasks, TaskQueue.Admit))
            && (Enabled(end, BackgroundSync.Deliver) ==>
                TaskQueue.Enabled(tasks, TaskQueue.Complete(|end.service.value.done|)))
  {
    StartIsSafe();
    RunIsScheduled(o, Start(), run, end);
    RunKeeps(o, Start(), run, end);
    BeginsInTurn(end);
    hide Inv, Reaches, Enabled, TaskQueue.Reaches, TaskQueue.OneAfterTheOther, TaskQueue.Enabled, TasksOf;
    var steps :| TaskQueue.Reaches(TaskQueue.EMPTY, steps, TasksOf(end.service.value));
    TaskQueue.TasksRunOneAfterTheOther(steps, TasksOf(end.service.value));
  }
}
