/** The registry of task runners: tags are unsigned 64-bit integers, and so is the counter, which wraps around. */
module Registry {
  import opened ThreadPools
  import opened RunnerPools

  const TAGS: nat := 0x1_0000_0000_0000_0000

  type Tag = x: int | 0 <= x < 0x1_0000_0000_0000_0000

  function Succ(counter: Tag): Tag {
    (counter + 1) % TAGS
  }

  /** The counter after n more increments. */
  function After(counter: Tag, n: nat): Tag {
    (counter + n) % TAGS
  }

  /** How many increments lead from the counter to a tag: at least one, at most a full cycle. */
  function Distance(counter: Tag, tag: Tag): (d: nat)
    ensures 1 <= d <= TAGS
  {
    if tag > counter then tag - counter else tag + TAGS - counter
  }

  lemma DistanceReaches(counter: Tag, tag: Tag)
    ensures After(counter, Distance(counter, tag)) == tag
    ensures Succ(counter) != tag ==> Distance(Succ(counter), tag) == Distance(counter, tag) - 1
  {
  }

  lemma AfterSucc(counter: Tag, n: nat)
    ensures Succ(After(counter, n)) == After(counter, n + 1)
    ensures After(counter, 0) == counter
  {
  }

  lemma {:induction false} AtLeast(tags: set<Tag>, n: nat)
    requires n <= TAGS && forall t: Tag :: t < n ==> t in tags
    ensures |tags| >= n
  {
    if n == 0 {
    } else {
      var last: Tag := n - 1;
      forall t: Tag | t < n - 1
        ensures t in tags - {last}
      {
      }
      AtLeast(tags - {last}, n - 1);
    }
  }

  lemma {:induction false} AtMost(tags: set<Tag>, n: nat)
    requires n <= TAGS && forall t :: t in tags ==> t < n
    ensures |tags| <= n
  {
    if n == 0 {
      if t :| t in tags {
        assert false;
      }
    } else {
      var last: Tag := n - 1;
      AtMost(tags - {last}, n - 1);
    }
  }

  ghost predicate HasFree(tags: set<Tag>) {
    exists t: Tag :: t !in tags
  }

  /** A tag is free exactly when fewer than 2^64 are taken. */
  lemma HasFreeIff(tags: set<Tag>)
    ensures HasFree(tags) <==> |tags| < TAGS
  {
    if HasFree(tags) {
      var t: Tag :| t !in tags;
      AtMost(tags + {t}, TAGS);
    } else {
      AtLeast(tags, TAGS);
    }
  }

  /** The search for a free tag from a taken one stops after n increments: at the first free tag after the counter. */
  ghost predicate StopsAfter(tags: set<Tag>, counter: Tag, n: nat) {
    && n >= 1
    && After(counter, n) !in tags
    && forall j :: 1 <= j < n ==> After(counter, j) in tags
  }

  lemma {:induction false} FirstFree(tags: set<Tag>, counter: Tag, n: nat, d: nat) returns (first: nat)
    requires n >= 1 && d >= n && After(counter, d) !in tags
    requires forall j :: 1 <= j < n ==> After(counter, j) in tags
    ensures StopsAfter(tags, counter, first) && first <= d
    decreases d - n
  {
    if After(counter, n) !in tags {
      first := n;
    } else {
      first := FirstFree(tags, counter, n + 1, d);
    }
  }

  /** The search stops, whatever the counter, exactly when the registry does not hold all 2^64 tags. */
  lemma SearchStopsIff(tags: set<Tag>, counter: Tag)
    ensures (exists n :: StopsAfter(tags, counter, n)) <==> |tags| < TAGS
  {
    HasFreeIff(tags);
    if HasFree(tags) {
      var t: Tag :| t !in tags;
      DistanceReaches(counter, t);
      var first := FirstFree(tags, counter, 1, Distance(counter, t));
    }
  }

  class ExecutorContext {
    var taskRunnerDict: map<Tag, ThreadPool>
    var counter: Tag

    /** Every tag has a runner of its own, which is up. */
    ghost predicate Valid()
      reads this, taskRunnerDict.Values
    {
      && (forall t :: t in taskRunnerDict ==> taskRunnerDict[t].Valid() && RunnerUp(taskRunnerDict[t].s))
      && (forall t, u :: t in taskRunnerDict && u in taskRunnerDict && t != u ==>
            taskRunnerDict[t] != taskRunnerDict[u])
    }

    constructor ()
      ensures Valid() && taskRunnerDict == map[] && counter == 0
    {
      taskRunnerDict, counter := map[], 0;
    }

    method GetNextRunnerTag() returns (tag: Tag)
      modifies this`counter
      ensures counter == Succ(old(counter)) && tag == counter
      ensures tag == if old(counter) == 0xffff_ffff_ffff_ffff then 0 else old(counter) + 1
    {
      counter := (counter + 1) % TAGS;
      tag := counter;
    }

    /**
     Registers a new runner, with one worker and started, under a tag not in use: the one asked for, or
     else the first free one after the counter. Every other runner stays where it is.
     */
    method AddTaskRunner(tag: Tag) returns (latest: Tag)
      requires Valid() && |taskRunnerDict.Keys| < TAGS
      modifies this
      ensures Valid()
      ensures latest !in old(taskRunnerDict)
      ensures tag !in old(taskRunnerDict) ==> latest == tag && counter == old(counter)
      ensures tag in old(taskRunnerDict) ==>
        latest == counter
        && exists n :: StopsAfter(old(taskRunnerDict).Keys, old(counter), n) && latest == After(old(counter), n)
      ensures latest in taskRunnerDict && fresh(taskRunnerDict[latest]) && taskRunnerDict[latest].tasks == []
      ensures taskRunnerDict[latest].threadCount == 1 && taskRunnerDict[latest].isAvailable
      ensures taskRunnerDict == old(taskRunnerDict)[latest := taskRunnerDict[latest]]
    {
      latest := FreeTag(tag);
      hide RunnerUp, StopsAfter, After, ThreadPool.Valid, Inv;
      Register(latest);
    }

    method Register(tag: Tag)
      requires Valid() && tag !in taskRunnerDict
      modifies this`taskRunnerDict
      ensures Valid()
      ensures tag in taskRunnerDict && fresh(taskRunnerDict[tag]) && taskRunnerDict[tag].tasks == []
      ensures taskRunnerDict[tag].threadCount == 1 && taskRunnerDict[tag].isAvailable
      ensures taskRunnerDict == old(taskRunnerDict)[tag := taskRunnerDict[tag]]
    {
      hide RunnerUp, ThreadPool.Valid, Inv;
      var runner := NewRunner();
      taskRunnerDict := taskRunnerDict[tag := runner];
    }

    /** The tag asked for, or else the counter is advanced until it is a free tag. */
    method FreeTag(tag: Tag) returns (latest: Tag)
      requires |taskRunnerDict.Keys| < TAGS
      modifies this`counter
      ensures latest !in taskRunnerDict
      ensures tag !in taskRunnerDict ==> latest == tag && counter == old(counter)
      ensures tag in taskRunnerDict ==>
        latest == counter
        && exists n :: StopsAfter(taskRunnerDict.Keys, old(counter), n) && latest == After(old(counter), n)
    {
      hide After, Distance, Succ;
      HasFreeIff(taskRunnerDict.Keys);
      ghost var free: Tag :| free !in taskRunnerDict;
      latest := tag;
      ghost var n := 0;
      AfterSucc(counter, 0);
      while latest in taskRunnerDict
        invariant counter == After(old(counter), n)
        invariant n == 0 ==> latest == tag && counter == old(counter)
        invariant n > 0 ==> latest == counter && tag in taskRunnerDict
        invariant forall j :: 1 <= j < n ==> After(old(counter), j) in taskRunnerDict
        decreases if latest == free then 0 else Distance(counter, free)
      {
        DistanceReaches(counter, free);
        AfterSucc(old(counter), n);
        latest := GetNextRunnerTag();
        n := n + 1;
      }
      assert n > 0 ==> StopsAfter(taskRunnerDict.Keys, old(counter), n);
    }

    method NewRunner() returns (runner: ThreadPool)
      ensures fresh(runner) && runner.Valid() && RunnerUp(runner.s) && runner.tasks == []
      ensures runner.threadCount == 1 && runner.isAvailable
    {
      runner := new ThreadPool(1);
      var ok := runner.Start();
    }

    /** The runner registered under a tag, if any: it is up, and nobody else's. */
    method GetTaskRunner(tag: Tag) returns (runner: ThreadPool?)
      requires Valid()
      ensures runner != null <==> tag in taskRunnerDict
      ensures runner != null ==> runner == taskRunnerDict[tag] && runner.Valid() && RunnerUp(runner.s)
      ensures runner != null ==> forall t :: t in taskRunnerDict && t != tag ==> taskRunnerDict[t] != runner
    {
      hide Inv, RunnerUp, ThreadPool.Valid;
      if tag !in taskRunnerDict {
        return null;
      }
      runner := taskRunnerDict[tag];
    }

    /** Hands a task to the runner registered under a tag; without one the task is dropped. */
    method PostTask(tag: Tag, task: Task)
      requires Valid()
      modifies taskRunnerDict.Values
      ensures Valid()
      ensures tag in taskRunnerDict ==> taskRunnerDict[tag].s.accepted == old(taskRunnerDict[tag].s.accepted) + [task]
      ensures forall t :: t in taskRunnerDict && t != tag ==> taskRunnerDict[t].s == old(taskRunnerDict[t].s)
    {
      hide Inv;
      var runner := GetTaskRunner(tag);
      if runner == null {
        return;
      }
      var ok := runner.EnqueueTask(task);
    }
  }
}
