/** The pool object. Each of its operations, run to completion, is a run of the transition system. */
module RunnerPools {
  import opened Wrappers
  import opened ThreadPools

  lemma {:induction false} RunAppend(s: State, a: seq<Event>, b: seq<Event>)
    requires Run(s, a).Some?
    ensures Run(s, a + b) == Run(Run(s, a).value, b)
    decreases |a|
  {
    hide Apply;
    if a == [] {
      assert a + b == b;
    } else {
      assert (a + b)[1..] == a[1..] + b;
      RunAppend(Apply(s, a[0]).value, a[1..], b);
    }
  }

  /** Some run leads from s to s'. */
  ghost predicate Follows(s: State, s': State) {
    exists events :: Run(s, events) == Some(s')
  }

  lemma FollowsItself(s: State)
    ensures Follows(s, s)
  {
    assert Run(s, []) == Some(s);
  }

  /** One more step behind a run. */
  lemma FollowsStep(a: State, b: State, e: Event, c: State)
    requires Follows(a, b) && Apply(b, e) == Some(c)
    ensures Follows(a, c)
  {
    hide Apply;
    var es :| Run(a, es) == Some(b);
    RunAppend(a, es, [e]);
    assert Run(b, [e]) == Some(c) by {
      assert [e][1..] == [];
    }
  }

  class ThreadPool {
    const threadCount: nat
    var tasks: seq<Task>
    var isAvailable: bool
    var isShutdown: bool
    var workers: seq<Worker>
    /** The transition system's state, which adds the history. */
    ghost var s: State

    ghost predicate Linked()
      reads this
    {
      && s.count == threadCount && s.tasks == tasks && s.available == isAvailable && s.shutdown == isShutdown
      && s.workers == workers && s.producers == [Away]
      && Inv(s)
    }

    ghost predicate Valid()
      reads this
    {
      Linked() && s.control == Steady && (isAvailable ==> !isShutdown)
    }

    constructor (count: nat)
      ensures Valid() && threadCount == count && !isAvailable && tasks == []
    {
      threadCount, tasks, isAvailable, isShutdown, workers := count, [], false, false, [];
      s := Fresh(count, 1);
    }

    /** Records one step of the transition system. */
    ghost method Record(s0: State, e: Event)
      requires Inv(s) && Follows(s0, s) && Apply(s, e).Some?
      modifies this`s
      ensures s == Apply(old(s), e).value && Inv(s) && Follows(s0, s) && s.count == old(s.count)
    {
      var s' := Apply(s, e).value;
      InvKept(s, e, s');
      hide Inv, Apply, Follows;
      FollowsStep(s0, s, e, s');
      s := s';
    }

    /** Accepts a task while the pool is up, and refuses it otherwise. */
    method EnqueueTask(task: Task) returns (ok: bool)
      requires Valid()
      modifies this
      ensures Valid() && Follows(old(s), s)
      ensures ok <==> old(isAvailable)
      ensures tasks == if ok then old(tasks) + [task] else old(tasks)
      ensures s.accepted == if ok then old(s.accepted) + [task] else old(s.accepted)
      ensures isAvailable == old(isAvailable) && workers == old(workers)
    {
      hide Inv, Follows;
      ghost var s0 := s;
      FollowsItself(s);
      if isShutdown || !isAvailable {
        return false;
      }
      Record(s0, Test(0, task));
      tasks := tasks + [task];
      Record(s0, Push(0));
      ok := true;
    }

    /** Starts the workers, unless the pool is up; what was left in the queue by a stop is still there. */
    method Start() returns (ok: bool)
      requires Valid()
      modifies this
      ensures Valid() && Follows(old(s), s)
      ensures ok && isAvailable && tasks == old(tasks) && s.accepted == old(s.accepted)
      ensures old(isAvailable) ==> workers == old(workers)
      ensures !old(isAvailable) ==> |workers| == threadCount && forall i :: 0 <= i < |workers| ==> workers[i] == Waiting
    {
      NotUp(s);
      hide Inv, Follows;
      ghost var s0 := s;
      FollowsItself(s);
      ok := true;
      if isAvailable {
        return;
      }
      isAvailable := true;
      Record(s0, Event.Start);
      isShutdown := false;
      Record(s0, ClearShutdown);
      for i := 0 to threadCount
        invariant Linked() && Follows(s0, s) && s.control == Adding(i) && isAvailable && !isShutdown
        invariant tasks == old(tasks) && s.accepted == old(s.accepted)
        invariant |workers| == i && forall j :: 0 <= j < i ==> workers[j] == Waiting
      {
        workers := workers + [Waiting];
        Record(s0, AddThread);
      }
      Record(s0, AddThread);
    }

    /** One turn of a worker's loop; false when it has to wait or has exited. */
    method Turn(w: nat) returns (moved: bool)
      requires Linked() && w < |workers|
      modifies this
      ensures Linked() && s.control == old(s.control)
      ensures isAvailable == old(isAvailable) && isShutdown == old(isShutdown)
      ensures moved == Apply(old(s), Event.Turn(w)).Some?
      ensures s == if moved then Apply(old(s), Event.Turn(w)).value else old(s)
      ensures Follows(old(s), s)
    {
      hide Inv, Follows;
      ghost var s0 := s;
      FollowsItself(s);
      match workers[w] {
        case Waiting =>
          if isShutdown {
            workers := workers[w := Exited];
          } else if tasks == [] {
            return false;
          } else {
            workers := workers[w := Busy(tasks[0])];
            tasks := tasks[1..];
          }
        case Busy(_) =>
          workers := workers[w := Waiting];
        case Exited =>
          return false;
      }
      Record(s0, Event.Turn(w));
      moved := true;
    }

    /** Lets every worker finish the task it is busy with, and no more; the queue is kept. */
    method Stop()
      requires Valid()
      modifies this
      ensures Valid() && Follows(old(s), s)
      ensures !isAvailable && workers == []
      ensures tasks == old(tasks) && s.accepted == old(s.accepted) && s.started == old(s.started)
    {
      NotUp(s);
      hide Inv, Follows;
      ghost var s0 := s;
      FollowsItself(s);
      if !isAvailable {
        workers := [];
        return;
      }
      isAvailable := false;
      Record(s0, Event.Stop);
      isShutdown := true;
      Record(s0, SetShutdown);
      for w := 0 to |workers|
        invariant Linked() && Follows(s0, s) && s.control == Joining && !isAvailable && isShutdown
        invariant |workers| == |old(workers)| && forall i :: 0 <= i < w ==> workers[i] == Exited
        invariant tasks == old(tasks) && s.accepted == old(s.accepted) && s.started == old(s.started)
      {
        while workers[w] != Exited
          invariant Linked() && Follows(s0, s) && s.control == Joining && !isAvailable && isShutdown
          invariant |workers| == |old(workers)| && forall i :: 0 <= i < w ==> workers[i] == Exited
          invariant tasks == old(tasks) && s.accepted == old(s.accepted) && s.started == old(s.started)
          decreases if workers[w].Busy? then 2 else if workers[w].Waiting? then 1 else 0
        {
          ghost var before := s;
          TurnWhenShut(s, w);
          var moved := Turn(w);
          FollowsTurn(s0, before, w, s);
        }
      }
      workers := [];
      Record(s0, Join);
    }

    /** Waits for a runner to become idle: everything accepted has then been completed, in order. */
    method WaitTaskIdle()
      requires Valid() && RunnerUp(s)
      modifies this
      ensures Valid() && RunnerUp(s) && Follows(old(s), s)
      ensures tasks == [] && s.accepted == old(s.accepted) && s.completed == s.accepted
    {
      hide Inv, Apply, Follows;
      RunnerGoesOn(s);
      FollowsItself(s);
      var moved := true;
      while moved
        invariant Valid() && RunnerUp(s) && s.accepted == old(s.accepted) && Follows(old(s), s)
        invariant !moved ==> TurnsLeft(s) == 0
        decreases TurnsLeft(s), moved
      {
        RunnerGoesOn(s);
        ghost var before := s;
        moved := Turn(0);
        if moved {
          FollowsTurn(old(s), before, 0, s);
        }
      }
      RunnerGoesOn(s);
    }
  }

  lemma TurnWhenShut(s: State, w: nat)
    requires s.shutdown && w < |s.workers| && s.workers[w] != Exited
    ensures Apply(s, Turn(w)).Some?
    ensures var r := Apply(s, Turn(w)).value;
      && r.workers == s.workers[w := if s.workers[w].Busy? then Waiting else Exited]
      && r.tasks == s.tasks && r.accepted == s.accepted && r.started == s.started
  {
  }

  lemma FollowsTurn(s0: State, s: State, w: nat, s': State)
    requires Follows(s0, s) && Apply(s, Turn(w)) == Some(s')
    ensures Follows(s0, s')
  {
    hide Follows, Apply;
    FollowsStep(s0, s, Turn(w), s');
  }

  lemma NotUp(s: State)
    requires Inv(s)
    ensures s.control == Steady && !s.available ==> s.workers == []
  {
  }
}
