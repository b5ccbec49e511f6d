// One task at a time: a serial queue that waits for a dispatch group before each task
// (MatrixSDK/Utils/MXAsyncTaskQueue.swift).
module AsyncTaskQueue {

  datatype Mark = Started(task: nat) | Completed(task: nat)

  /** Tasks are numbered in the order of the calls. A task waits on the serial queue, then on the queue that runs it,
      then runs until it calls its completion. `marks` is the history of starts and completions. */
  datatype Queue = Queue(
    calls: nat,
    waiting: seq<nat>,
    group: nat,           // count of the dispatch group
    dispatched: set<nat>,
    running: set<nat>,
    marks: seq<Mark>)

  datatype Step = Async | Admit | Run(task: nat) | Complete(task: nat)

  const EMPTY := Queue(0, [], 0, {}, {}, [])

  /** The head of the serial queue passes `wait()` once the group is empty. The other queue may run any of
      those dispatched to it; a task completes once. */
  predicate Enabled(q: Queue, step: Step) {
    match step
    case Async => true
    case Admit => q.waiting != [] && q.group == 0
    case Run(t) => t in q.dispatched
    case Complete(t) => t in q.running && q.group > 0
  }

  function Next(q: Queue, step: Step): Queue
    requires Enabled(q, step)
  {
    match step
    case Async => q.(calls := q.calls + 1, waiting := q.waiting + [q.calls])
    case Admit => q.(group := q.group + 1, dispatched := q.dispatched + {q.waiting[0]}, waiting := q.waiting[1..])
    case Run(t) => q.(dispatched := q.dispatched - {t}, running := q.running + {t}, marks := q.marks + [Started(t)])
    case Complete(t) => q.(running := q.running - {t}, group := q.group - 1, marks := q.marks + [Completed(t)])
  }

  ghost predicate Reaches(q: Queue, steps: seq<Step>, end: Queue)
    decreases |steps|
  {
    if steps == [] then q == end else Enabled(q, steps[0]) && Reaches(Next(q, steps[0]), steps[1..], end)
  }

  /** Start and completion of task 0, then of task 1, and so on. */
  predicate OneAfterTheOther(marks: seq<Mark>) {
    forall i | 0 <= i < |marks| :: marks[i] == if i % 2 == 0 then Started(i / 2) else Completed(i / 2)
  }

  // A task past the group, if there is one, comes after the completed ones and before the waiting ones.
  ghost predicate Inv(q: Queue) {
    var n := |q.marks| / 2;
    && OneAfterTheOther(q.marks)
    && q.group <= 1
    && (|q.marks| % 2 == 0 ==> q.running == {} && q.dispatched == if q.group == 0 then {} else {n})
    && (|q.marks| % 2 == 1 ==> q.dispatched == {} && q.group == 1 && q.running == {n})
    && q.calls == n + q.group + |q.waiting|
    && (forall i | 0 <= i < |q.waiting| :: q.waiting[i] == n + q.group + i)
  }

  lemma StepKeeps(q: Queue, step: Step)
    requires Inv(q) && Enabled(q, step)
    ensures Inv(Next(q, step))
  {
    var q' := Next(q, step);
    match step
    case Async =>
    case Admit => assert forall i | 0 <= i < |q'.waiting| :: q'.waiting[i] == q.waiting[i + 1];
    case Run(t) => assert |q'.marks| / 2 == |q.marks| / 2;
    case Complete(t) => assert |q'.marks| / 2 == |q.marks| / 2 + 1;
  }

  lemma {:induction false} RunKeeps(q: Queue, steps: seq<Step>, end: Queue)
    requires Inv(q) && Reaches(q, steps, end)
    ensures Inv(end)
    decreases |steps|
  {
    if steps != [] {
      StepKeeps(q, steps[0]);
      RunKeeps(Next(q, steps[0]), steps[1..], end);
    }
  }

  /** Under every schedule: task n + 1 starts after task n has completed, in the order of the calls, and no two tasks
      run at once. */
  lemma TasksRunOneAfterTheOther(steps: seq<Step>, end: Queue)
    requires Reaches(EMPTY, steps, end)
    ensures OneAfterTheOther(end.marks) && |end.running| <= 1
  {
    RunKeeps(EMPTY, steps, end);
  }

  // Steps that the unfinished calls still need: to pass the group, to start, to complete.
  function Remaining(q: Queue): int {
    3 * (q.calls - |q.marks| / 2) - if |q.marks| % 2 == 1 then 2 else q.group
  }

  /** As long as tasks complete, every call gets its turn: some step leads on while a call is unfinished, and each of
      these steps leaves fewer to do. */
  lemma EveryCallGetsItsTurn(steps: seq<Step>, q: Queue)
    requires Reaches(EMPTY, steps, q)
    ensures Remaining(q) >= 0 && (Remaining(q) == 0 <==> |q.marks| == 2 * q.calls)
    ensures |q.marks| < 2 * q.calls ==> exists step: Step :: !step.Async? && Enabled(q, step)
    ensures forall step: Step | !step.Async? && Enabled(q, step) :: Remaining(Next(q, step)) < Remaining(q)
  {
    RunKeeps(EMPTY, steps, q);
    hide Reaches;
    var n := |q.marks| / 2;
    if |q.marks| < 2 * q.calls {
      if |q.marks| % 2 == 1 {
        assert Enabled(q, Complete(n));
      } else if q.group == 1 {
        assert Enabled(q, Run(n));
      } else {
        assert Enabled(q, Admit);
      }
    }
    forall step: Step | !step.Async? && Enabled(q, step) ensures Remaining(Next(q, step)) < Remaining(q) {
      StepKeeps(q, step);
    }
  }

  class MXAsyncTaskQueue {
    var calls: nat
    var dispatchGroupQueue: seq<nat>
    var dispatchGroup: nat
    var dispatchQueue: set<nat>
    var running: set<nat>
    var marks: seq<Mark>

    function State(): Queue
      reads this
    {
      Queue(calls, dispatchGroupQueue, dispatchGroup, dispatchQueue, running, marks)
    }

    constructor ()
      ensures State() == EMPTY
    {
      calls, dispatchGroupQueue, dispatchGroup, dispatchQueue, running, marks := 0, [], 0, {}, {}, [];
    }

    method Schedule() returns (task: nat)
      modifies this
      ensures task == old(calls) && State() == Next(old(State()), Async)
    {
      task := calls;
      calls := calls + 1;
      dispatchGroupQueue := dispatchGroupQueue + [task];
    }

    // The block at the head of the serial queue: `wait()`, `enter()`, and the dispatch of its task.
    method PassGroup()
      requires Enabled(State(), Admit)
      modifies this
      ensures State() == Next(old(State()), Admit)
    {
      var task := dispatchGroupQueue[0];
      dispatchGroupQueue := dispatchGroupQueue[1..];
      dispatchGroup := dispatchGroup + 1;
      dispatchQueue := dispatchQueue + {task};
    }

    method StartTask(task: nat)
      requires Enabled(State(), Run(task))
      modifies this
      ensures State() == Next(old(State()), Run(task))
    {
      dispatchQueue := dispatchQueue - {task};
      marks := marks + [Started(task)];
      running := running + {task};
    }

    method TaskCompleted(task: nat)
      requires Enabled(State(), Complete(task))
      modifies this
      ensures State() == Next(old(State()), Complete(task))
    {
      marks := marks + [Completed(task)];
      running := running - {task};
      dispatchGroup := dispatchGroup - 1;
    }
  }
}
