/**
 The thread pool behind every task runner, as a transition system: threads that enqueue, one caller that
 starts and stops the pool, and the pool's workers. A runner is a pool with one worker. What is
 proved here is what waiting for a runner to become idle rests on.
 */
module ThreadPools {
  import opened Wrappers

  type Task = nat

  datatype Worker = Waiting | Busy(task: Task) | Exited

  /** Where the caller of Start and Stop is. */
  datatype Control =
    | Steady
    | Starting           // flag taken, shutdown flag not yet cleared
    | Adding(n: nat)     // n workers added
    | Stopping           // flag taken back, shutdown flag not yet set
    | Joining            // waiting for the workers to exit

  /** A producer between its test of the flags and its push. */
  datatype Producer = Away | WillPush(task: Task)

  /** The last three fields are the history. */
  datatype State = State(
    count: nat, available: bool, shutdown: bool, tasks: seq<Task>, workers: seq<Worker>,
    control: Control, producers: seq<Producer>,
    accepted: seq<Task>, started: seq<Task>, completed: seq<Task>)

  datatype Event =
    | Test(p: nat, task: Task)
    | Push(p: nat)
    | Start
    | ClearShutdown
    | AddThread
    | Stop
    | SetShutdown
    | Join
    | Turn(w: nat)      // a waiting worker exits or takes a task; a busy one finishes its task

  // ---- Steps ----

  function Apply(s: State, e: Event): Option<State> {
    match e
    case Test(p, task) =>
      if p < |s.producers| && s.producers[p] == Away && !s.shutdown && s.available
      then Some(s.(producers := s.producers[p := WillPush(task)])) else None
    case Push(p) =>
      if p < |s.producers| && s.producers[p].WillPush? then
        var task := s.producers[p].task;
        Some(s.(producers := s.producers[p := Away], tasks := s.tasks + [task], accepted := s.accepted + [task]))
      else None
    case Start => if s.control == Steady && !s.available then Some(s.(available := true, control := Starting)) else None
    case ClearShutdown => if s.control == Starting then Some(s.(shutdown := false, control := Adding(0))) else None
    case AddThread =>
      if s.control.Adding? then
        if s.control.n < s.count then Some(s.(workers := s.workers + [Waiting], control := Adding(s.control.n + 1)))
        else Some(s.(control := Steady))
      else None
    case Stop => if s.control == Steady && s.available then Some(s.(available := false, control := Stopping)) else None
    case SetShutdown => if s.control == Stopping then Some(s.(shutdown := true, control := Joining)) else None
    case Join =>
      if s.control == Joining && (forall i :: 0 <= i < |s.workers| ==> s.workers[i] == Exited)
      then Some(s.(workers := [], control := Steady)) else None
    case Turn(w) =>
      if w < |s.workers| then
        match s.workers[w]
        case Waiting =>
          if s.shutdown then Some(s.(workers := s.workers[w := Exited]))
          else if s.tasks == [] then None
          else
            var task := s.tasks[0];
            Some(s.(workers := s.workers[w := Busy(task)], tasks := s.tasks[1..], started := s.started + [task]))
        case Busy(task) => Some(s.(workers := s.workers[w := Waiting], completed := s.completed + [task]))
        case Exited => None
      else None
  }

  function Fresh(count: nat, producers: nat): State {
    State(count, false, false, [], [], Steady, seq(producers, i => Away), [], [], [])
  }

  function Run(s: State, events: seq<Event>): Option<State>
    decreases |events|
  {
    if events == [] then Some(s)
    else
      match Apply(s, events[0])
      case None => None
      case Some(s') => Run(s', events[1..])
  }

  // ---- What is kept ----

  /** Tasks are started in the order they were accepted, and none is lost: not by stopping, not by restarting. */
  predicate NothingLost(s: State) {
    s.started + s.tasks == s.accepted
  }

  /** The pool has at most count workers: they are added only once the old ones are gone. */
  predicate WorkersCounted(s: State) {
    && |s.workers| <= s.count
    && (s.control == Starting ==> s.workers == [])
    && (s.control == Starting || s.control.Adding? ==> s.available)
    && (s.control == Steady && !s.available ==> s.workers == [])
    && (s.control.Adding? ==> |s.workers| == s.control.n)
  }

  function BusyTask(w: Worker): seq<Task> {
    if w.Busy? then [w.task] else []
  }

  /** With at most one worker, everything started is completed but for the task it is busy with. */
  predicate OneAtATime(s: State) {
    s.count <= 1 ==> s.started == s.completed + if |s.workers| == 1 then BusyTask(s.workers[0]) else []
  }

  predicate Inv(s: State) {
    NothingLost(s) && WorkersCounted(s) && OneAtATime(s)
  }

  lemma InvKept(s: State, e: Event, s': State)
    requires Inv(s) && Apply(s, e) == Some(s')
    ensures Inv(s') && s'.count == s.count
  {
  }

  lemma {:induction false} RunKeeps(s: State, events: seq<Event>)
    requires Inv(s) && Run(s, events).Some?
    ensures Inv(Run(s, events).value) && Run(s, events).value.count == s.count
    decreases |events|
  {
    if events == [] {
    } else {
      InvKept(s, events[0], Apply(s, events[0]).value);
      hide Apply, Inv;
      RunKeeps(Apply(s, events[0]).value, events[1..]);
    }
  }

  /** Whatever is started is a prefix of what was accepted, with any number of workers, stopped or not. */
  lemma StartedIsPrefix(count: nat, producers: nat, events: seq<Event>)
    requires Run(Fresh(count, producers), events).Some?
    ensures var s := Run(Fresh(count, producers), events).value;
      s.started + s.tasks == s.accepted && s.started <= s.accepted && |s.workers| <= count
  {
    RunKeeps(Fresh(count, producers), events);
  }

  // ---- Every started task is completed once ----

  function BusyTasks(workers: seq<Worker>): multiset<Task> {
    if workers == [] then multiset{} else multiset(BusyTask(workers[0])) + BusyTasks(workers[1..])
  }

  /** With any number of workers, every started task is completed or being run, and none is both or twice. */
  predicate AllAccounted(s: State) {
    multiset(s.started) == multiset(s.completed) + BusyTasks(s.workers)
  }

  lemma Exchange(a: multiset<Task>, b: multiset<Task>, b': multiset<Task>, x: multiset<Task>, y: multiset<Task>)
    requires b' + y == b + x
    ensures (a + b') + y == (a + b) + x
  {
    assert (a + b') + y == a + (b' + y);
    assert (a + b) + x == a + (b + x);
  }

  lemma {:induction false} BusyUpdate(workers: seq<Worker>, w: nat, worker: Worker)
    requires w < |workers|
    ensures BusyTasks(workers[w := worker]) + multiset(BusyTask(workers[w]))
        == BusyTasks(workers) + multiset(BusyTask(worker))
  {
    var after := workers[w := worker];
    assert BusyTasks(workers) == multiset(BusyTask(workers[0])) + BusyTasks(workers[1..]);
    assert BusyTasks(after) == multiset(BusyTask(after[0])) + BusyTasks(after[1..]);
    if w == 0 {
      assert after[1..] == workers[1..];
    } else {
      assert after[1..] == workers[1..][w - 1 := worker];
      BusyUpdate(workers[1..], w - 1, worker);
      hide BusyTasks, BusyTask;
      Exchange(multiset(BusyTask(workers[0])), BusyTasks(workers[1..]), BusyTasks(after[1..]),
               multiset(BusyTask(worker)), multiset(BusyTask(workers[w])));
    }
  }

  lemma {:induction false} NobodyBusy(workers: seq<Worker>)
    requires forall i :: 0 <= i < |workers| ==> !workers[i].Busy?
    ensures BusyTasks(workers) == multiset{}
  {
    if workers == [] {
    } else {
      NobodyBusy(workers[1..]);
    }
  }

  lemma {:induction false} NewWorker(workers: seq<Worker>)
    ensures BusyTasks(workers + [Waiting]) == BusyTasks(workers)
  {
    if workers == [] {
      assert ([] + [Waiting])[1..] == [];
    } else {
      assert (workers + [Waiting])[1..] == workers[1..] + [Waiting];
      NewWorker(workers[1..]);
    }
  }

  lemma TurnFacts(s: State, w: nat, s': State)
    requires Apply(s, Turn(w)) == Some(s')
    ensures w < |s.workers| && w < |s'.workers| && s'.workers == s.workers[w := s'.workers[w]]
    ensures s'.started == s.started + BusyTask(s'.workers[w])
    ensures s'.completed == s.completed + BusyTask(s.workers[w])
  {
  }

  lemma TurnAccounts(s: State, w: nat, s': State)
    requires AllAccounted(s) && Apply(s, Turn(w)) == Some(s')
    ensures AllAccounted(s')
  {
    hide Apply, BusyTasks, BusyTask;
    TurnFacts(s, w, s');
    BusyUpdate(s.workers, w, s'.workers[w]);
    Settle(s.started, s.completed, BusyTasks(s.workers), BusyTasks(s'.workers), BusyTask(s'.workers[w]),
           BusyTask(s.workers[w]));
  }

  lemma Settle(started: seq<Task>, completed: seq<Task>, busy: multiset<Task>, busy': multiset<Task>, x: seq<Task>,
               y: seq<Task>)
    requires multiset(started) == multiset(completed) + busy
    requires busy' + multiset(y) == busy + multiset(x)
    ensures multiset(started + x) == multiset(completed + y) + busy'
  {
    assert multiset(started + x) == multiset(started) + multiset(x);
    assert multiset(completed + y) == multiset(completed) + multiset(y);
    Exchange(multiset(completed), busy, busy', multiset(x), multiset(y));
  }

  lemma OtherAccounts(s: State, e: Event, s': State)
    requires AllAccounted(s) && Apply(s, e) == Some(s') && !e.Turn?
    ensures AllAccounted(s')
  {
    hide BusyTasks;
    assert BusyTasks([]) == multiset{} by {
      NobodyBusy([]);
    }
    if e.AddThread? {
      NewWorker(s.workers);
    } else if e.Join? {
      NobodyBusy(s.workers);
    }
  }

  lemma {:induction false} RunAccounts(s: State, events: seq<Event>)
    requires AllAccounted(s) && Run(s, events).Some?
    ensures AllAccounted(Run(s, events).value)
    decreases |events|
  {
    hide Apply, AllAccounted;
    if events == [] {
    } else {
      var s' := Apply(s, events[0]).value;
      if events[0].Turn? {
        TurnAccounts(s, events[0].w, s');
      } else {
        OtherAccounts(s, events[0], s');
      }
      RunAccounts(s', events[1..]);
    }
  }

  /** Over any run, with any number of workers, a task is started once, and completed once unless it is being run. */
  lemma StartedIsCompleted(count: nat, producers: nat, events: seq<Event>)
    requires Run(Fresh(count, producers), events).Some?
    ensures var s := Run(Fresh(count, producers), events).value;
      && multiset(s.started) == multiset(s.completed) + BusyTasks(s.workers)
      && (s.control == Steady && !s.available ==> multiset(s.started) == multiset(s.completed))
  {
    RunAccounts(Fresh(count, producers), events);
    RunKeeps(Fresh(count, producers), events);
  }

  // ---- The barrier ----

  /**
   Waiting for a task to complete means waiting for all tasks accepted before it: at any moment the
   completed tasks are a prefix of the accepted ones.
   */
  ghost predicate BarrierSound(count: nat) {
    forall events, producers: nat :: Run(Fresh(count, producers), events).Some? ==>
      Run(Fresh(count, producers), events).value.completed <= Run(Fresh(count, producers), events).value.accepted
  }

  lemma OneWorkerIsSound(count: nat)
    requires count <= 1
    ensures BarrierSound(count)
  {
    forall events, producers: nat | Run(Fresh(count, producers), events).Some?
      ensures var s := Run(Fresh(count, producers), events).value; s.completed <= s.accepted
    {
      RunKeeps(Fresh(count, producers), events);
      var s := Run(Fresh(count, producers), events).value;
      assert s.completed <= s.started;
      assert s.started <= s.accepted;
    }
  }

  lemma RunStep(s: State, e: Event, rest: seq<Event>)
    requires Apply(s, e).Some?
    ensures Run(s, [e] + rest) == Run(Apply(s, e).value, rest)
  {
    assert ([e] + rest)[1..] == rest;
  }

  lemma TwoWorkersStart(count: nat, rest: seq<Event>)
    requires count >= 2
    ensures Run(Fresh(count, 1), [Start] + ([ClearShutdown] + ([AddThread] + ([AddThread] + rest))))
         == Run(State(count, true, false, [], [Waiting, Waiting], Adding(2), [Away], [], [], []), rest)
  {
    hide Run;
    var s1 := Fresh(count, 1).(available := true, control := Starting);
    var s2 := s1.(control := Adding(0));
    var s3 := s2.(workers := [Waiting], control := Adding(1));
    assert Fresh(count, 1).producers == [Away];
    assert [] + [Waiting] == [Waiting] && [Waiting] + [Waiting] == [Waiting, Waiting];
    assert Apply(Fresh(count, 1), Start) == Some(s1);
    assert Apply(s1, ClearShutdown) == Some(s2);
    assert Apply(s2, AddThread) == Some(s3);
    RunStep(Fresh(count, 1), Start, [ClearShutdown] + ([AddThread] + ([AddThread] + rest)));
    RunStep(s1, ClearShutdown, [AddThread] + ([AddThread] + rest));
    RunStep(s2, AddThread, [AddThread] + rest);
    RunStep(s3, AddThread, rest);
    assert Apply(s3, AddThread).value
        == State(count, true, false, [], [Waiting, Waiting], Adding(2), [Away], [], [], []);
  }

  lemma TwoTasksAccepted(count: nat, rest: seq<Event>)
    ensures Run(State(count, true, false, [], [Waiting, Waiting], Adding(2), [Away], [], [], []),
                [Test(0, 1)] + ([Push(0)] + ([Test(0, 2)] + ([Push(0)] + rest))))
         == Run(State(count, true, false, [1, 2], [Waiting, Waiting], Adding(2), [Away], [1, 2], [], []), rest)
  {
    hide Run;
    var s0 := State(count, true, false, [], [Waiting, Waiting], Adding(2), [Away], [], [], []);
    var s1 := s0.(producers := [WillPush(1)]);
    var s2 := s0.(tasks := [1], accepted := [1]);
    var s3 := s2.(producers := [WillPush(2)]);
    assert [Away][0 := WillPush(1)] == [WillPush(1)] && [Away][0 := WillPush(2)] == [WillPush(2)];
    assert [WillPush(1)][0 := Away] == [Away] && [WillPush(2)][0 := Away] == [Away];
    assert [] + [1] == [1] && [1] + [2] == [1, 2];
    assert Apply(s0, Test(0, 1)) == Some(s1);
    assert Apply(s1, Push(0)) == Some(s2);
    assert Apply(s2, Test(0, 2)) == Some(s3);
    RunStep(s0, Test(0, 1), [Push(0)] + ([Test(0, 2)] + ([Push(0)] + rest)));
    RunStep(s1, Push(0), [Test(0, 2)] + ([Push(0)] + rest));
    RunStep(s2, Test(0, 2), [Push(0)] + rest);
    RunStep(s3, Push(0), rest);
  }

  lemma SecondCompletesFirst(count: nat)
    ensures Run(State(count, true, false, [1, 2], [Waiting, Waiting], Adding(2), [Away], [1, 2], [], []),
                [Turn(0)] + ([Turn(1)] + ([Turn(1)] + [])))
         == Some(State(count, true, false, [], [Busy(1), Waiting], Adding(2), [Away], [1, 2], [1, 2], [2]))
  {
    var s0 := State(count, true, false, [1, 2], [Waiting, Waiting], Adding(2), [Away], [1, 2], [], []);
    var s1 := s0.(tasks := [2], workers := [Busy(1), Waiting], started := [1]);
    var s2 := s0.(tasks := [], workers := [Busy(1), Busy(2)], started := [1, 2]);
    var s3 := s2.(workers := [Busy(1), Waiting], completed := [2]);
    assert Run(s3, []) == Some(s3);
    hide Run;
    assert [Waiting, Waiting][0 := Busy(1)] == [Busy(1), Waiting];
    assert [Busy(1), Waiting][1 := Busy(2)] == [Busy(1), Busy(2)];
    assert [Busy(1), Busy(2)][1 := Waiting] == [Busy(1), Waiting];
    assert [1, 2][1..] == [2] && [2][1..] == [];
    assert [] + [1] == [1] && [1] + [2] == [1, 2] && [] + [2] == [2];
    assert Apply(s0, Turn(0)) == Some(s1);
    assert Apply(s1, Turn(1)) == Some(s2);
    assert Apply(s2, Turn(1)) == Some(s3);
    RunStep(s0, Turn(0), [Turn(1)] + ([Turn(1)] + []));
    RunStep(s1, Turn(1), [Turn(1)] + []);
    RunStep(s2, Turn(1), []);
  }

  /** With two workers, the second of two tasks may complete while the first is still being run. */
  lemma TwoWorkersOvertake(count: nat) returns (events: seq<Event>)
    requires count >= 2
    ensures Run(Fresh(count, 1), events).Some?
    ensures var s := Run(Fresh(count, 1), events).value;
      s.accepted == [1, 2] && s.completed == [2]
  {
    hide Run, Apply;
    var rest2 := [Turn(0)] + ([Turn(1)] + ([Turn(1)] + []));
    var rest1 := [Test(0, 1)] + ([Push(0)] + ([Test(0, 2)] + ([Push(0)] + rest2)));
    events := [Start] + ([ClearShutdown] + ([AddThread] + ([AddThread] + rest1)));
    TwoWorkersStart(count, rest1);
    TwoTasksAccepted(count, rest2);
    SecondCompletesFirst(count);
  }

  /** The barrier is sound exactly with at most one worker. */
  lemma BarrierSoundIff(count: nat)
    ensures BarrierSound(count) <==> count <= 1
  {
    if count <= 1 {
      OneWorkerIsSound(count);
    } else {
      var events := TwoWorkersOvertake(count);
      assert [2][0] != [1, 2][0];
    }
  }

  // ---- A runner: one worker, started ----

  ghost predicate RunnerUp(s: State) {
    Inv(s) && s.count == 1 && s.control == Steady && s.available && !s.shutdown && |s.workers| == 1
        && !s.workers[0].Exited?
  }

  function TurnsLeft(s: State): nat {
    2 * |s.tasks| + if |s.workers| == 1 && s.workers[0].Busy? then 1 else 0
  }

  predicate OnlyTurns(events: seq<Event>) {
    forall i :: 0 <= i < |events| ==> events[i].Turn?
  }

  /** While anything is queued or being run, the runner's worker can go on, and each turn brings it closer. */
  lemma RunnerGoesOn(s: State)
    requires RunnerUp(s)
    ensures TurnsLeft(s) > 0 ==> Apply(s, Turn(0)).Some?
    ensures Apply(s, Turn(0)).Some? ==>
      RunnerUp(Apply(s, Turn(0)).value) && TurnsLeft(Apply(s, Turn(0)).value) == TurnsLeft(s) - 1
      && Apply(s, Turn(0)).value.accepted == s.accepted
    ensures TurnsLeft(s) == 0 ==> s.completed == s.accepted
  {
    if Apply(s, Turn(0)).Some? {
      InvKept(s, Turn(0), Apply(s, Turn(0)).value);
    }
  }

  /** A wait for idle ends: after exactly as many turns as are left, all that was accepted is completed, in order. */
  lemma {:induction false} WaitEnds(s: State, events: seq<Event>)
    requires RunnerUp(s) && OnlyTurns(events) && Run(s, events).Some?
    ensures |events| <= TurnsLeft(s)
    ensures |events| == TurnsLeft(s) <==> Run(s, events).value.completed == s.accepted
    decreases |events|
  {
    if events == [] {
      assert s.completed + BusyTask(s.workers[0]) + s.tasks == s.accepted;
    } else {
      var w := events[0].w;
      assert w == 0;
      var s' := Apply(s, events[0]).value;
      RunnerGoesOn(s);
      hide Apply, RunnerUp, TurnsLeft;
      WaitEnds(s', events[1..]);
    }
  }
}
